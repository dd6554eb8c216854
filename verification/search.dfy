/** The home page's search box (`handleSearch` in src/app/page.tsx): a raw query becomes a
    route to a block, a transaction or an address page, an alert, or nothing at all.
    Matching and routing use the query as typed; only the blank test trims it. */
module Search {
  import opened Wrappers
  import opened JsText

  /** The detail pages a search can lead to. */
  datatype Route = BlockPage(number: string) | TxPage(hash: string) | AddressPage(address: string)

  /** What submitting the search form does. */
  datatype Outcome =
    | Ignored                  // blank query: no navigation and no alert
    | Navigate(route: Route)   // `router.push` to the route's path
    | InvalidAlert             // `alert` with the invalid-query message

  const BlockPrefix := "/block/"
  const TxPrefix := "/tx/"
  const AddressPrefix := "/address/"

  /** The path handed to the router. */
  function Path(r: Route): string {
    match r
    case BlockPage(n) => BlockPrefix + n
    case TxPage(h) => TxPrefix + h
    case AddressPage(a) => AddressPrefix + a
  }

  /** Recovers the route from a path the search produced. */
  function ParseRoute(p: string): Option<Route> {
    if |p| >= |BlockPrefix| && p[..|BlockPrefix|] == BlockPrefix then Some(BlockPage(p[|BlockPrefix|..]))
    else if |p| >= |TxPrefix| && p[..|TxPrefix|] == TxPrefix then Some(TxPage(p[|TxPrefix|..]))
    else if |p| >= |AddressPrefix| && p[..|AddressPrefix|] == AddressPrefix then Some(AddressPage(p[|AddressPrefix|..]))
    else None
  }

  /** Every route's path reads back as that route: distinct routes give distinct paths. */
  lemma PathRoundTrip(r: Route)
    ensures ParseRoute(Path(r)) == Some(r)
  {
    var p := Path(r);
    match r
    case BlockPage(n) =>
      assert p[..|BlockPrefix|] == BlockPrefix;
    case TxPage(h) =>
      assert p[..|TxPrefix|] == TxPrefix;
      assert !(|p| >= |BlockPrefix| && p[..|BlockPrefix|] == BlockPrefix) by {
        if |p| >= |BlockPrefix| {
          assert p[..|BlockPrefix|][1] != BlockPrefix[1];
        }
      }
    case AddressPage(a) =>
      assert p[..|AddressPrefix|] == AddressPrefix;
      assert p[1] == 'a';
      assert p[..|BlockPrefix|] != BlockPrefix by {
        assert p[..|BlockPrefix|][1] != BlockPrefix[1];
      }
      assert p[..|TxPrefix|] != TxPrefix by {
        assert p[..|TxPrefix|][1] != TxPrefix[1];
      }
  }

  // ---------------------------------------------------------------------------------
  // The three patterns, declaratively

  /** `[a-fA-F0-9]` */
  predicate IsHexChar(c: char) {
    IsAsciiDigit(c) || 'a' <= c <= 'f' || 'A' <= c <= 'F'
  }

  /** `^\d+$`: one or more ASCII digits and nothing else. */
  predicate IsBlockNumber(q: string) {
    |q| > 0 && forall i :: 0 <= i < |q| ==> IsAsciiDigit(q[i])
  }

  /** `^0x[a-fA-F0-9]{n}$`: a lower-case `0x` and exactly `n` hex digits of either case. */
  predicate IsHexId(q: string, n: nat) {
    && |q| == n + 2
    && q[0] == '0' && q[1] == 'x'
    && forall i :: 2 <= i < |q| ==> IsHexChar(q[i])
  }

  predicate IsTxHash(q: string) {
    IsHexId(q, 64)
  }

  predicate IsAddress(q: string) {
    IsHexId(q, 40)
  }

  // ---------------------------------------------------------------------------------
  // The same patterns as a regular-expression engine consumes them

  /** `\d*` anchored at both ends. */
  predicate MatchDigitsStar(s: string) {
    s == [] || (IsAsciiDigit(s[0]) && MatchDigitsStar(s[1..]))
  }

  /** `^\d+$` */
  predicate MatchDigitsPlus(s: string) {
    s != [] && IsAsciiDigit(s[0]) && MatchDigitsStar(s[1..])
  }

  /** `[a-fA-F0-9]{n}$` */
  predicate MatchHexCount(s: string, n: nat) {
    if n == 0 then s == [] else s != [] && IsHexChar(s[0]) && MatchHexCount(s[1..], n - 1)
  }

  /** `^0x[a-fA-F0-9]{n}$` */
  predicate MatchHexId(s: string, n: nat) {
    |s| >= 2 && s[0] == '0' && s[1] == 'x' && MatchHexCount(s[2..], n)
  }

  lemma {:induction false} MatchDigitsStarSpec(s: string)
    ensures MatchDigitsStar(s) <==> forall i :: 0 <= i < |s| ==> IsAsciiDigit(s[i])
  {
    if s != [] {
      MatchDigitsStarSpec(s[1..]);
      assert forall i :: 1 <= i < |s| ==> s[i] == s[1..][i - 1];
    }
  }

  /** The engine's reading of `^\d+$` is the declarative one. */
  lemma MatchDigitsPlusSpec(s: string)
    ensures MatchDigitsPlus(s) <==> IsBlockNumber(s)
  {
    if s != [] {
      MatchDigitsStarSpec(s[1..]);
      assert forall i :: 1 <= i < |s| ==> s[i] == s[1..][i - 1];
    }
  }

  lemma {:induction false} MatchHexCountSpec(s: string, n: nat)
    ensures MatchHexCount(s, n) <==> |s| == n && forall i :: 0 <= i < |s| ==> IsHexChar(s[i])
  {
    if n > 0 && s != [] {
      MatchHexCountSpec(s[1..], n - 1);
      assert forall i :: 1 <= i < |s| ==> s[i] == s[1..][i - 1];
    }
  }

  /** The engine's reading of `^0x[a-fA-F0-9]{n}$` is the declarative one. */
  lemma MatchHexIdSpec(s: string, n: nat)
    ensures MatchHexId(s, n) <==> IsHexId(s, n)
  {
    if |s| >= 2 {
      MatchHexCountSpec(s[2..], n);
      assert forall i :: 2 <= i < |s| ==> s[i] == s[2..][i - 2];
    }
  }

  // ---------------------------------------------------------------------------------
  // The submit handler

  /** `handleSearch`: blank queries do nothing; otherwise the untrimmed query is matched
      as a block number, then a transaction hash, then an address; failing all three
      raises the alert. */
  function HandleSearch(q: string): (r: Outcome)
    ensures r == Ignored <==> AllWhitespace(q)
    ensures r == Navigate(BlockPage(q)) <==> IsBlockNumber(q)
    ensures r == Navigate(TxPage(q)) <==> IsTxHash(q)
    ensures r == Navigate(AddressPage(q)) <==> IsAddress(q)
    ensures r == InvalidAlert <==> !AllWhitespace(q) && !IsBlockNumber(q) && !IsTxHash(q) && !IsAddress(q)
    ensures r.Navigate? ==> r.route in {BlockPage(q), TxPage(q), AddressPage(q)}
  {
    TrimEmptyIffAllWhitespace(q);
    MatchDigitsPlusSpec(q);
    MatchHexIdSpec(q, 64);
    MatchHexIdSpec(q, 40);
    NonBlankPatterns(q);
    if Trim(q) == [] then Ignored
    else if MatchDigitsPlus(q) then Navigate(BlockPage(q))
    else if MatchHexId(q, 64) then Navigate(TxPage(q))
    else if MatchHexId(q, 40) then Navigate(AddressPage(q))
    else InvalidAlert
  }

  /** None of the patterns accepts a whitespace character. */
  lemma PatternsHaveNoWhitespace(q: string, i: int)
    requires 0 <= i < |q| && IsWhitespace(q[i])
    ensures !IsBlockNumber(q) && !IsTxHash(q) && !IsAddress(q)
  {
  }

  /** A query that matches a pattern is not blank. */
  lemma NonBlankPatterns(q: string)
    ensures IsBlockNumber(q) || IsTxHash(q) || IsAddress(q) ==> !AllWhitespace(q)
  {
    if IsBlockNumber(q) || IsTxHash(q) || IsAddress(q) {
      assert !IsWhitespace(q[0]);
    }
  }

  /** At most one pattern matches any query: a digit string holds no `x`, and a hash and an
      address differ in length. */
  lemma PatternsExclusive(q: string)
    ensures !(IsBlockNumber(q) && IsTxHash(q))
    ensures !(IsBlockNumber(q) && IsAddress(q))
    ensures !(IsTxHash(q) && IsAddress(q))
  {
    if IsBlockNumber(q) && |q| >= 2 {
      assert IsAsciiDigit(q[1]);
    }
  }

  /** The three tests the handler makes after the blank test. */
  datatype Pattern = BlockPattern | TxPattern | AddressPattern

  /** Whether the engine accepts the query for a pattern. */
  predicate Matches(p: Pattern, q: string) {
    match p
    case BlockPattern => MatchDigitsPlus(q)
    case TxPattern => MatchHexId(q, 64)
    case AddressPattern => MatchHexId(q, 40)
  }

  /** Where a query accepted by a pattern leads. */
  function RouteFor(p: Pattern, q: string): Route {
    match p
    case BlockPattern => BlockPage(q)
    case TxPattern => TxPage(q)
    case AddressPattern => AddressPage(q)
  }

  /** The tests made in the given order: the first accepting pattern decides. */
  function FirstMatch(order: seq<Pattern>, q: string): Outcome {
    if order == [] then InvalidAlert
    else if Matches(order[0], q) then Navigate(RouteFor(order[0], q))
    else FirstMatch(order[1..], q)
  }

  /** The handler with its tests made in any order. */
  function HandleSearchIn(order: seq<Pattern>, q: string): Outcome {
    if Trim(q) == [] then Ignored else FirstMatch(order, q)
  }

  /** The one pattern a query matches, if any. */
  function MatchedPattern(q: string): (r: Option<Pattern>)
    ensures forall p :: Matches(p, q) <==> r == Some(p)
  {
    MatchDigitsPlusSpec(q);
    MatchHexIdSpec(q, 64);
    MatchHexIdSpec(q, 40);
    PatternsExclusive(q);
    if MatchDigitsPlus(q) then Some(BlockPattern)
    else if MatchHexId(q, 64) then Some(TxPattern)
    else if MatchHexId(q, 40) then Some(AddressPattern)
    else None
  }

  /** Whatever the order, the tests find the query's one matching pattern when the order
      holds it, and raise the alert otherwise. */
  lemma {:induction false} FirstMatchFinds(order: seq<Pattern>, q: string)
    ensures var m := MatchedPattern(q);
      FirstMatch(order, q) == if m.Some? && m.value in order then Navigate(RouteFor(m.value, q)) else InvalidAlert
  {
    if order != [] {
      FirstMatchFinds(order[1..], q);
      assert forall p :: p in order <==> p == order[0] || p in order[1..];
    }
  }

  /** Because the patterns exclude each other, any order that makes all three tests gives
      the handler's outcome for every query. */
  lemma CheckOrderIrrelevant(order: seq<Pattern>, q: string)
    requires BlockPattern in order && TxPattern in order && AddressPattern in order
    ensures HandleSearchIn(order, q) == HandleSearch(q)
  {
    FirstMatchFinds(order, q);
    FirstMatchFinds([BlockPattern, TxPattern, AddressPattern], q);
  }

  /** A valid block number, hash or address typed with surrounding whitespace is rejected,
      not trimmed. */
  lemma PaddedQueryRejected(pre: string, v: string, post: string)
    requires IsBlockNumber(v) || IsTxHash(v) || IsAddress(v)
    requires AllWhitespace(pre) && AllWhitespace(post) && pre + post != []
    ensures HandleSearch(pre + v + post) == InvalidAlert
  {
    var q := pre + v + post;
    NonBlankPatterns(v);
    var j :| 0 <= j < |v| && !IsWhitespace(v[j]);
    assert q[|pre| + j] == v[j];
    if pre != [] {
      assert q[0] == pre[0];
      PatternsHaveNoWhitespace(q, 0);
    } else {
      assert q[|q| - 1] == post[|post| - 1];
      PatternsHaveNoWhitespace(q, |q| - 1);
    }
  }
}
