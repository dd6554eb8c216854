/** `useLatestBlocks` (src/hooks/useLatestBlocks.ts): the main-page blocks and transactions
    responses reshaped item by item into the records the home page renders, together with
    the combined loading and error flags. The two queries' states are inputs; a `None`
    result stands for the hook throwing while it reshapes. */
module LatestData {
  import opened Wrappers
  import opened JsText

  /** `{ hash }` objects the API uses for addresses. */
  datatype AddressRef = AddressRef(hash: Option<string>)

  /** The fields of a main-page block item the hook reads. */
  datatype ApiBlock = ApiBlock(
    blockNumber: Option<string>,
    timestamp: Option<string>,
    transactionsCount: Option<string>,
    baseFeePerGas: Option<string>)

  /** The fields of a main-page transaction item the hook reads. */
  datatype ApiTx = ApiTx(
    hash: Option<string>,
    from: Option<AddressRef>,
    to: Option<AddressRef>,
    value: Option<string>,
    block: Option<string>,
    rawInput: Option<string>)

  /** A response body: `items` may be missing. */
  datatype Page<T> = Page(items: Option<seq<T>>)

  /** A block as the home page sees it. `new Array(count)` holds no elements, so only its
      length, `transactionSlots`, is kept. The wrapper item `{ block, transactions: [] }`
      around each block is omitted. */
  datatype Block = Block(
    number: Option<int>,            // `parseInt(block_number)`; `None` is NaN
    timestamp: Option<string>,
    transactionSlots: nat,
    baseFeePerGas: Option<string>)

  /** The `Transaction` type of src/types/transaction.ts. */
  datatype Transaction = Transaction(
    hash: Option<string>,
    from: Option<string>,
    to: Option<string>,             // `None` is `null`
    value: int,
    blockNumber: int,
    input: string)

  /** `new Array(n)` throws a `RangeError` unless `n` is a whole number below 2^32. */
  const MaxArrayLength := 0x1_0000_0000

  /** `parseInt(x)` on a field that may be missing: `parseInt(undefined)` reads the text
      "undefined". */
  function ParseIntField(x: Option<string>): Option<int> {
    ParseInt(x.GetOr("undefined"))
  }

  /** The block transform: `number`, `timestamp`, `new Array(parseInt(transactions_count ||
      '0'))` and `baseFeePerGas`. */
  function ToBlock(b: ApiBlock): (r: Option<Block>)
    ensures r.Some? <==>
              var count := ParseInt(OrElse(b.transactionsCount, "0"));
              count.Some? && 0 <= count.value < MaxArrayLength
    ensures r.Some? ==> r.value.timestamp == b.timestamp && r.value.baseFeePerGas == b.baseFeePerGas
    ensures r.Some? ==> r.value.number == ParseIntField(b.blockNumber)
    ensures r.Some? ==> Some(r.value.transactionSlots as int) == ParseInt(OrElse(b.transactionsCount, "0"))
  {
    var count := ParseInt(OrElse(b.transactionsCount, "0"));
    if count.None? || count.value < 0 || count.value >= MaxArrayLength then None
    else Some(Block(ParseIntField(b.blockNumber), b.timestamp, count.value, b.baseFeePerGas))
  }

  /** A missing count, and any count written in decimal below 2^32, gives a block with that
      many transaction slots; a count of 2^32 or more makes the transform throw. */
  lemma TransactionSlotsFromCount(b: ApiBlock, n: nat)
    requires b.transactionsCount.None? || b.transactionsCount == Some(NatToDecimal(n))
    ensures b.transactionsCount.None? ==> ToBlock(b).Some? && ToBlock(b).value.transactionSlots == 0
    ensures b.transactionsCount == Some(NatToDecimal(n)) ==>
              (n < MaxArrayLength <==> ToBlock(b).Some?)
              && (ToBlock(b).Some? ==> ToBlock(b).value.transactionSlots == n)
  {
    if b.transactionsCount.None? {
      ParseIntOfDecimal(0);
      assert OrElse(b.transactionsCount, "0") == NatToDecimal(0);
    } else {
      ParseIntOfDecimal(n);
      assert OrElse(b.transactionsCount, "0") == NatToDecimal(n);
    }
  }

  /** `BigInt(x)` on a field that may be missing: `BigInt(undefined)` throws. */
  function BigIntField(x: Option<string>): Option<int> {
    if x.None? then None else ToBigInt(x.value)
  }

  /** `to?.hash || null`: a missing recipient, or one without a hash or with an empty one,
      becomes `null`. */
  function ToField(to: Option<AddressRef>): (r: Option<string>)
    ensures r.None? <==> to.None? || to.value.hash.None? || to.value.hash == Some("")
    ensures r.Some? ==> to == Some(AddressRef(r))
  {
    if to.Some? && to.value.hash.Some? && to.value.hash.value != "" then to.value.hash else None
  }

  /** The transaction transform: `hash`, `from.hash` (throws when `from` is missing),
      `to?.hash || null`, `BigInt(value || '0')`, `BigInt(block)` and `raw_input || '0x'`. */
  function ToTransaction(t: ApiTx): (r: Option<Transaction>)
    ensures r.Some? <==> t.from.Some? && ToBigInt(OrElse(t.value, "0")).Some? && BigIntField(t.block).Some?
    ensures r.Some? ==> r.value.hash == t.hash && r.value.from == t.from.value.hash
    ensures r.Some? ==> r.value.to == ToField(t.to)
    ensures r.Some? ==> r.value.input == OrElse(t.rawInput, "0x")
    ensures r.Some? ==> Some(r.value.value) == ToBigInt(OrElse(t.value, "0"))
    ensures r.Some? ==> Some(r.value.blockNumber) == BigIntField(t.block)
  {
    var value := ToBigInt(OrElse(t.value, "0"));
    var blockNumber := BigIntField(t.block);
    if t.from.None? || value.None? || blockNumber.None? then None
    else Some(Transaction(t.hash, t.from.value.hash, ToField(t.to), value.value, blockNumber.value, OrElse(t.rawInput, "0x")))
  }

  /** A transaction with no `value` (or an empty one) is worth 0. */
  lemma MissingValueIsZero(t: ApiTx)
    requires t.value.None? || t.value == Some("")
    ensures ToTransaction(t).Some? ==> ToTransaction(t).value.value == 0
  {
    assert OrElse(t.value, "0") == NatToDecimal(0);
    ToBigIntOfDecimal(0);
  }

  /** `items.map(f)` with a transform that may throw: the whole map throws as soon as one
      item does, and otherwise keeps length and order. */
  function MapItems<A, B>(f: A -> Option<B>, xs: seq<A>): (r: Option<seq<B>>)
    ensures r.Some? <==> forall i :: 0 <= i < |xs| ==> f(xs[i]).Some?
    ensures r.Some? ==> |r.value| == |xs| && forall i :: 0 <= i < |xs| ==> f(xs[i]) == Some(r.value[i])
  {
    if xs == [] then Some([])
    else
      var head := f(xs[0]);
      var tail := MapItems(f, xs[1..]);
      if head.None? || tail.None? then
        assert head.None? ==> f(xs[0]).None?;
        assert tail.None? ==> exists i :: 0 <= i < |xs[1..]| && f(xs[1..][i]).None?;
        None
      else Some([head.value] + tail.value)
  }

  /** Mapping a concatenation is concatenating the maps. */
  lemma MapItemsAppend<A, B>(f: A -> Option<B>, xs: seq<A>, ys: seq<A>)
    requires MapItems(f, xs).Some? && MapItems(f, ys).Some?
    ensures MapItems(f, xs + ys) == Some(MapItems(f, xs).value + MapItems(f, ys).value)
  {
    var zs := xs + ys;
    var expected := MapItems(f, xs).value + MapItems(f, ys).value;
    forall i | 0 <= i < |zs|
      ensures f(zs[i]) == Some(expected[i])
    {
      if i < |xs| {
        assert zs[i] == xs[i];
      } else {
        assert zs[i] == ys[i - |xs|];
      }
    }
    var r := MapItems(f, zs);
    assert r.Some?;
    assert forall i :: 0 <= i < |zs| ==> r.value[i] == expected[i] by {
      forall i | 0 <= i < |zs|
        ensures r.value[i] == expected[i]
      {
        assert f(zs[i]) == Some(r.value[i]);
      }
    }
    assert r.value == expected;
  }

  /** `data?.items?.map(f) || []`: missing data or items give an empty list. */
  function ItemsOf<A, B>(data: Option<Page<A>>, f: A -> Option<B>): (r: Option<seq<B>>)
    ensures data.None? || data.value.items.None? ==> r == Some([])
    ensures data.Some? && data.value.items.Some? ==> r == MapItems(f, data.value.items.value)
  {
    if data.Some? && data.value.items.Some? then MapItems(f, data.value.items.value) else Some([])
  }

  /** The state of one react-query query, with errors kept opaque. */
  datatype Query<T, E> = Query(data: Option<T>, isLoading: bool, error: Option<E>)

  /** What the hook returns. */
  datatype Latest<E> = Latest(
    blocks: seq<Block>,
    transactions: seq<Transaction>,
    isLoading: bool,
    isFetching: bool,
    error: Option<E>)

  /** `blocksError || transactionsError` */
  function FirstError<E>(a: Option<E>, b: Option<E>): (r: Option<E>)
    ensures a.Some? ==> r == a
    ensures a.None? ==> r == b
  {
    if a.Some? then a else b
  }

  /** `useLatestBlocks(network)` once both queries have reported. */
  function UseLatestBlocks<E>(blocksQuery: Query<Page<ApiBlock>, E>, txQuery: Query<Page<ApiTx>, E>): (r: Option<Latest<E>>)
    ensures r.Some? <==> ItemsOf(blocksQuery.data, ToBlock).Some? && ItemsOf(txQuery.data, ToTransaction).Some?
    ensures r.Some? ==> r.value.isLoading == (blocksQuery.isLoading || txQuery.isLoading)
    ensures r.Some? ==> r.value.isFetching == r.value.isLoading
    ensures r.Some? ==> r.value.error == (if blocksQuery.error.Some? then blocksQuery.error else txQuery.error)
    ensures r.Some? ==> Some(r.value.blocks) == ItemsOf(blocksQuery.data, ToBlock)
    ensures r.Some? ==> Some(r.value.transactions) == ItemsOf(txQuery.data, ToTransaction)
  {
    var blocks := ItemsOf(blocksQuery.data, ToBlock);
    var transactions := ItemsOf(txQuery.data, ToTransaction);
    if blocks.None? || transactions.None? then None
    else
      var isLoading := blocksQuery.isLoading || txQuery.isLoading;
      Some(Latest(blocks.value, transactions.value, isLoading, isLoading, FirstError(blocksQuery.error, txQuery.error)))
  }

  /** The outputs line up with the API items one for one: same length, same order, the
      `i`-th output made from the `i`-th item. */
  lemma OutputsFollowItems<E>(blocksQuery: Query<Page<ApiBlock>, E>, txQuery: Query<Page<ApiTx>, E>, bs: seq<ApiBlock>, ts: seq<ApiTx>)
    requires blocksQuery.data == Some(Page(Some(bs))) && txQuery.data == Some(Page(Some(ts)))
    ensures UseLatestBlocks(blocksQuery, txQuery).Some? ==>
      var r := UseLatestBlocks(blocksQuery, txQuery).value;
      && |r.blocks| == |bs| && (forall i :: 0 <= i < |bs| ==> ToBlock(bs[i]) == Some(r.blocks[i]))
      && |r.transactions| == |ts| && (forall i :: 0 <= i < |ts| ==> ToTransaction(ts[i]) == Some(r.transactions[i]))
  {
  }
}
