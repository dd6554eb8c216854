/** The API client (src/utils/api.ts): request URLs are the base URL, the endpoint and,
    only when there are parameters, `?` and the encoded query string; the paged listings
    always ask for ten items. The network transport and the percent-encoding of one query
    component are parameters. */
module Api {
  import opened Wrappers
  import opened JsText

  const ApiBaseUrl := "https://hyperscan.gas.zip/"

  /** A plain object of string parameters, as its keys are enumerated (insertion order). */
  type Params = seq<(string, string)>

  /** An object has each key at most once. */
  predicate UniqueKeys(p: Params) {
    forall i, j :: 0 <= i < j < |p| ==> p[i].0 != p[j].0
  }

  /** The value stored under `k`, if any. */
  function Lookup(p: Params, k: string): Option<string> {
    if p == [] then None else if p[0].0 == k then Some(p[0].1) else Lookup(p[1..], k)
  }

  /** The parameters other than `k`, in order. */
  function Without(p: Params, k: string): Params {
    if p == [] then [] else if p[0].0 == k then Without(p[1..], k) else [p[0]] + Without(p[1..], k)
  }

  /** `{ ...p, [k]: v }`: an existing key keeps its position and takes the new value; a new
      key is added at the end. */
  function Assign(p: Params, k: string, v: string): (r: Params)
    ensures Lookup(r, k) == Some(v)
    ensures forall other :: other != k ==> Lookup(r, other) == Lookup(p, other)
    ensures |r| == |p| + (if Lookup(p, k).None? then 1 else 0)
  {
    if p == [] then [(k, v)]
    else if p[0].0 == k then [(k, v)] + p[1..]
    else [p[0]] + Assign(p[1..], k, v)
  }

  /** Assigning a key never creates a duplicate key, and leaves the other keys in their
      order. */
  lemma {:induction false} AssignKeepsShape(p: Params, k: string, v: string)
    requires UniqueKeys(p)
    ensures UniqueKeys(Assign(p, k, v))
    ensures Without(Assign(p, k, v), k) == Without(p, k)
  {
    if p != [] {
      if p[0].0 == k {
        WithoutAbsent(p[1..], k);
      } else {
        AssignKeepsShape(p[1..], k, v);
        var r := Assign(p, k, v);
        forall j | 0 < j < |r|
          ensures r[0].0 != r[j].0
        {
          assert r[j] == Assign(p[1..], k, v)[j - 1];
          KeyOfAssigned(p[1..], k, v, j - 1);
        }
      }
    }
  }

  /** Every key of an assignment's result is the assigned key or a key already there. */
  lemma {:induction false} KeyOfAssigned(p: Params, k: string, v: string, j: nat)
    requires j < |Assign(p, k, v)|
    ensures Assign(p, k, v)[j].0 == k || exists i :: 0 <= i < |p| && p[i].0 == Assign(p, k, v)[j].0
  {
    if p != [] && p[0].0 != k && j > 0 {
      KeyOfAssigned(p[1..], k, v, j - 1);
      var key := Assign(p, k, v)[j].0;
      if key != k {
        var i :| 0 <= i < |p[1..]| && p[1..][i].0 == key;
        assert p[i + 1].0 == key;
      }
    }
  }

  /** Removing a key that is not there changes nothing. */
  lemma {:induction false} WithoutAbsent(p: Params, k: string)
    requires forall i :: 0 <= i < |p| ==> p[i].0 != k
    ensures Without(p, k) == p
  {
    if p != [] {
      WithoutAbsent(p[1..], k);
    }
  }

  // ---------------------------------------------------------------------------------
  // Paged listing parameters

  const PageLimit := "10"

  /** `finalParams = { ...params, limit: '10' }` */
  function FinalParams(p: Params): (r: Params)
    ensures Lookup(r, "limit") == Some(PageLimit)
    ensures forall k :: k != "limit" ==> Lookup(r, k) == Lookup(p, k)
  {
    Assign(p, "limit", PageLimit)
  }

  /** A request: an endpoint and its parameters. */
  datatype Request = Request(endpoint: string, params: Params)

  function BlockTransactionsEndpoint(numberOrHash: string): string {
    "/api/v2/blocks/" + numberOrHash + "/transactions"
  }

  function AddressTransactionsEndpoint(address: string): string {
    "/api/v2/addresses/" + address + "/transactions"
  }

  function TokenHoldersEndpoint(tokenAddress: string): string {
    "/api/v2/tokens/" + tokenAddress + "/holders"
  }

  /** `getBlockTransactions(numberOrHash, params)`: always ten items, whatever limit the
      caller passed; the caller's other parameters (`page`) pass through unchanged. */
  function GetBlockTransactions(numberOrHash: string, p: Params): (r: Request)
    ensures r.endpoint == BlockTransactionsEndpoint(numberOrHash)
    ensures Lookup(r.params, "limit") == Some("10")
    ensures forall k :: k != "limit" ==> Lookup(r.params, k) == Lookup(p, k)
  {
    Request(BlockTransactionsEndpoint(numberOrHash), FinalParams(p))
  }

  /** `getAddressTransactions(address, params)`: always ten items; `items_count`,
      `block_number` and `filter` pass through unchanged. */
  function GetAddressTransactions(address: string, p: Params): (r: Request)
    ensures r.endpoint == AddressTransactionsEndpoint(address)
    ensures Lookup(r.params, "limit") == Some("10")
    ensures forall k :: k != "limit" ==> Lookup(r.params, k) == Lookup(p, k)
  {
    Request(AddressTransactionsEndpoint(address), FinalParams(p))
  }

  /** `getTokenHolders(tokenAddress, params)`: always ten items; `page` passes through. */
  function GetTokenHolders(tokenAddress: string, p: Params): (r: Request)
    ensures r.endpoint == TokenHoldersEndpoint(tokenAddress)
    ensures Lookup(r.params, "limit") == Some("10")
    ensures forall k :: k != "limit" ==> Lookup(r.params, k) == Lookup(p, k)
  {
    Request(TokenHoldersEndpoint(tokenAddress), FinalParams(p))
  }

  // ---------------------------------------------------------------------------------
  // URL assembly

  /** `new URLSearchParams(params).toString()`, with `encode` the form-encoding of one
      name or value. */
  function QueryString(p: Params, encode: string -> string): (r: string)
    ensures r == [] <==> p == []
  {
    if p == [] then []
    else
      var pair := encode(p[0].0) + "=" + encode(p[0].1);
      assert pair[|encode(p[0].0)|] == '=';
      if |p| == 1 then pair else pair + "&" + QueryString(p[1..], encode)
  }

  /** The URL `fetchFromApi` requests. */
  function Url(r: Request, encode: string -> string): string {
    var qs := QueryString(r.params, encode);
    ApiBaseUrl + r.endpoint + (if qs != [] then "?" + qs else "")
  }

  /** Splits a URL at its first `?` into the part before it and the query after it. */
  function SplitQuery(url: string): (string, string) {
    if url == [] then ([], [])
    else if url[0] == '?' then ([], url[1..])
    else
      var (path, query) := SplitQuery(url[1..]);
      ([url[0]] + path, query)
  }

  /** Splitting a path with no `?` at a `?` placed after it gives back both parts. */
  lemma {:induction false} SplitQueryOf(path: string, rest: string, withMark: bool)
    requires forall i :: 0 <= i < |path| ==> path[i] != '?'
    ensures SplitQuery(path + (if withMark then "?" + rest else [])) == (path, if withMark then rest else [])
  {
    var url := path + (if withMark then "?" + rest else []);
    if path != [] {
      SplitQueryOf(path[1..], rest, withMark);
      assert url[1..] == path[1..] + (if withMark then "?" + rest else []);
      assert url[0] == path[0] && path[0] != '?';
      assert [path[0]] + path[1..] == path;
    } else if withMark {
      assert url[0] == '?' && url[1..] == rest;
    }
  }

  /** A URL holds a `?` exactly when the request has parameters, and splitting it there
      gives back the base URL with the endpoint, and the encoded parameters. */
  lemma UrlRoundTrip(r: Request, encode: string -> string)
    requires forall i :: 0 <= i < |r.endpoint| ==> r.endpoint[i] != '?'
    ensures SplitQuery(Url(r, encode)) == (ApiBaseUrl + r.endpoint, QueryString(r.params, encode))
    ensures (exists i :: 0 <= i < |Url(r, encode)| && Url(r, encode)[i] == '?') <==> r.params != []
  {
    var path := ApiBaseUrl + r.endpoint;
    var qs := QueryString(r.params, encode);
    var url := Url(r, encode);
    assert forall i :: 0 <= i < |path| ==> path[i] != '?' by {
      forall i | 0 <= i < |path|
        ensures path[i] != '?'
      {
        if i >= |ApiBaseUrl| {
          assert path[i] == r.endpoint[i - |ApiBaseUrl|];
        }
      }
    }
    SplitQueryOf(path, qs, qs != []);
    if qs != [] {
      assert url[|path|] == '?';
    } else {
      assert url == path;
    }
  }

  /** The base URL ends in `/` and every endpoint starts with `/`, so the path of each
      request URL starts with an empty segment (`https://hyperscan.gas.zip//api/...`). */
  lemma DoubledSlash(r: Request, encode: string -> string)
    requires r.endpoint != [] && r.endpoint[0] == '/'
    ensures Url(r, encode)[|ApiBaseUrl| - 1..|ApiBaseUrl| + 1] == "//"
  {
  }

  // ---------------------------------------------------------------------------------
  // Fetching

  /** What the transport delivers for a URL: a network error, or an HTTP status with a body
      that either parses as JSON (`Some`) or does not. */
  datatype Reply<T> = NetworkError(reason: string) | HttpReply(status: int, statusText: string, body: Option<T>)

  /** `response.ok`: a 2xx status. */
  predicate IsOk(status: int) {
    200 <= status <= 299
  }

  datatype ApiError =
    | TransportFailed(reason: string)   // `fetch` rejected
    | RequestFailed(message: string)    // a non-2xx status
    | BodyUnreadable                    // `response.json()` rejected

  /** `fetchFromApi(endpoint, params)`: one request to the assembled URL; any failure is
      rethrown to the caller. */
  function FetchFromApi<T>(r: Request, encode: string -> string, transport: string -> Reply<T>): (result: Result<T, ApiError>)
    ensures var reply := transport(Url(r, encode));
      result.Success? <==> reply.HttpReply? && IsOk(reply.status) && reply.body.Some?
    ensures var reply := transport(Url(r, encode));
      result.Success? ==> result.value == reply.body.value
    ensures var reply := transport(Url(r, encode));
      reply.HttpReply? && !IsOk(reply.status) ==>
        result == Failure(RequestFailed("API request failed: " + IntToDecimal(reply.status) + " " + reply.statusText))
  {
    match transport(Url(r, encode))
    case NetworkError(reason) => Failure(TransportFailed(reason))
    case HttpReply(status, statusText, body) =>
      if !IsOk(status) then Failure(RequestFailed("API request failed: " + IntToDecimal(status) + " " + statusText))
      else if body.None? then Failure(BodyUnreadable)
      else Success(body.value)
  }
}
