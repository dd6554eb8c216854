/** The home page's latest-transactions table (src/components/LatestTransactions.tsx):
    client-side pages of ten rows, the "Showing a-b of n" caption, the Previous / page number
    / Next buttons, and the shortened hashes and addresses in each row. */
module TxTable {
  import opened Wrappers
  import opened JsText

  /** `transactionsPerPage` */
  const PerPage: nat := 10

  /** `Math.ceil(n / transactionsPerPage)`: the fewest pages of ten that hold `n` rows. */
  function TotalPages(n: nat): (r: nat)
    ensures r * PerPage >= n
    ensures r > 0 ==> (r - 1) * PerPage < n
    ensures r == 0 <==> n == 0
  {
    (n + PerPage - 1) / PerPage
  }

  /** `transactions.slice(indexOfFirstTransaction, indexOfLastTransaction)` for the current
      page, with JavaScript's slice semantics for every page number. */
  function PageItems<T>(txs: seq<T>, page: int): (r: seq<T>)
    ensures |r| <= PerPage
    ensures page >= 1 ==> r == txs[Min((page - 1) * PerPage, |txs|)..Min(page * PerPage, |txs|)]
    ensures page >= 1 ==> (r != [] <==> page <= TotalPages(|txs|))
  {
    var last := page * PerPage;
    var first := last - PerPage;
    Slice(txs, first, last)
  }

  /** Pages 1 to `k`, one after the other. */
  function PagesUpTo<T>(txs: seq<T>, k: nat): seq<T> {
    if k == 0 then [] else PagesUpTo(txs, k - 1) + PageItems(txs, k)
  }

  /** The first `k` pages together are the first `10 k` rows. */
  lemma {:induction false} PagesUpToIsPrefix<T>(txs: seq<T>, k: nat)
    ensures PagesUpTo(txs, k) == txs[..Min(k * PerPage, |txs|)]
  {
    if k > 0 {
      PagesUpToIsPrefix(txs, k - 1);
      var a := Min((k - 1) * PerPage, |txs|);
      var b := Min(k * PerPage, |txs|);
      assert txs[..a] + txs[a..b] == txs[..b];
    }
  }

  /** Reading every page in order reproduces the whole list: nothing lost, nothing repeated. */
  lemma AllPagesRebuildList<T>(txs: seq<T>)
    ensures PagesUpTo(txs, TotalPages(|txs|)) == txs
  {
    PagesUpToIsPrefix(txs, TotalPages(|txs|));
  }

  /** The page that shows the row at (zero-based) index `i`. */
  function PageOf(i: nat): (p: nat)
    ensures p >= 1
  {
    i / PerPage + 1
  }

  /** Each row lies in the index range of exactly one page, that page exists, and the row
      sits on it at offset `i % 10`. */
  lemma RowOnExactlyOnePage<T>(txs: seq<T>, i: nat, page: int)
    requires i < |txs| && page >= 1
    ensures (page - 1) * PerPage <= i < page * PerPage <==> page == PageOf(i)
    ensures 1 <= PageOf(i) <= TotalPages(|txs|)
    ensures i % PerPage < |PageItems(txs, PageOf(i))| && PageItems(txs, PageOf(i))[i % PerPage] == txs[i]
  {
    var p := PageOf(i);
    assert (p - 1) * PerPage + i % PerPage == i;
    if (page - 1) * PerPage <= i < page * PerPage {
      assert page - 1 <= i / PerPage < page;
    }
  }

  // ---------------------------------------------------------------------------------
  // Caption and buttons

  /** The "Showing first-last of total transactions" caption. */
  datatype Caption = Caption(first: int, last: int, total: nat)

  function Showing(page: int, n: nat): Caption {
    var last := page * PerPage;
    Caption(last - PerPage + 1, Min(last, n), n)
  }

  /** On a page that exists, the caption names exactly the one-based positions of the rows
      shown; past the last page (or on an empty list) it names an empty, inverted range. */
  lemma CaptionDescribesPage<T>(txs: seq<T>, page: int)
    requires page >= 1
    ensures var c := Showing(page, |txs|);
      page <= TotalPages(|txs|) ==> c.first >= 1 && c.last - c.first + 1 == |PageItems(txs, page)| && txs[c.first - 1..c.last] == PageItems(txs, page)
    ensures var c := Showing(page, |txs|);
      page > TotalPages(|txs|) ==> c.last < c.first
    ensures Showing(page, |txs|).total == |txs|
  {
  }

  /** `disabled={currentPage === 1}` */
  predicate PreviousDisabled(page: int) {
    page == 1
  }

  /** `disabled={currentPage === totalPages}` */
  predicate NextDisabled(page: int, n: nat) {
    page == TotalPages(n)
  }

  /** The numbered buttons: `1..totalPages`. */
  function PageButtons(n: nat): (r: seq<int>)
    ensures |r| == TotalPages(n)
    ensures forall i :: 0 <= i < |r| ==> r[i] == i + 1
  {
    seq(TotalPages(n), i => i + 1)
  }

  /** A click on one of the pagination buttons. */
  datatype Click = PreviousClick | NextClick | NumberClick(number: int)

  /** `handlePageChange`: the new current page after a click, with `n` rows in the table.
      Disabled buttons and numbers without a button change nothing; otherwise the page is
      set verbatim, with no clamping. */
  function AfterClick(page: int, n: nat, c: Click): (r: int)
    ensures c == PreviousClick ==> r == (if PreviousDisabled(page) then page else page - 1)
    ensures c == NextClick ==> r == (if NextDisabled(page, n) then page else page + 1)
    ensures c.NumberClick? ==> r == (if 1 <= c.number <= TotalPages(n) then c.number else page)
  {
    match c
    case PreviousClick => if PreviousDisabled(page) then page else page - 1
    case NextClick => if NextDisabled(page, n) then page else page + 1
    case NumberClick(k) =>
      assert 1 <= k <= TotalPages(n) ==> PageButtons(n)[k - 1] == k;
      if k in PageButtons(n) then k else page
  }

  /** The table opens on page 1 and no click takes it below page 1; a page within
      `1..totalPages` stays within it. */
  lemma ClicksKeepPageValid(page: int, n: nat, c: Click)
    requires page >= 1
    ensures AfterClick(page, n, c) >= 1
    ensures page <= TotalPages(n) ==> AfterClick(page, n, c) <= TotalPages(n)
  {
    if c.NumberClick? && 1 <= c.number <= TotalPages(n) {
      assert PageButtons(n)[c.number - 1] == c.number;
    }
  }

  /** `k` clicks of the same button in a row. */
  function ClickTimes(page: int, n: nat, c: Click, k: nat): int
    decreases k
  {
    if k == 0 then page else ClickTimes(AfterClick(page, n, c), n, c, k - 1)
  }

  /** With no transactions there are no pages, so Next is never disabled: `k` clicks move
      from any page `p` to page `p + k`, each showing no rows. */
  lemma {:induction false} EmptyTableNextNeverStops(page: int, k: nat)
    requires page >= 1
    ensures ClickTimes(page, 0, NextClick, k) == page + k
    ensures Showing(page + k, 0).last < Showing(page + k, 0).first
    decreases k
  {
    if k > 0 {
      assert AfterClick(page, 0, NextClick) == page + 1;
      EmptyTableNextNeverStops(page + 1, k - 1);
    }
  }

  // ---------------------------------------------------------------------------------
  // Shortened identifiers in the rows

  /** `s.slice(0, head)...s.slice(-tail)` */
  function Shorten(s: string, head: nat, tail: nat): (r: string)
    requires tail > 0
    ensures r == s[..Min(head, |s|)] + "..." + s[|s| - Min(tail, |s|)..]
  {
    Slice(s, 0, head) + "..." + Slice(s, -(tail as int), |s|)
  }

  /** A transaction hash cell: first 8 characters, `...`, last 6. */
  function HashCell(hash: string): string {
    Shorten(hash, 8, 6)
  }

  /** An address cell: first 6 characters, `...`, last 4. */
  function AddressCell(address: string): string {
    Shorten(address, 6, 4)
  }

  /** The To cell: a missing (or empty, hence falsy) recipient is a contract creation. */
  function ToCell(to: Option<string>): (r: string)
    ensures to.None? || to == Some("") ==> r == "Contract Creation"
    ensures to.Some? && to.value != "" ==> r == AddressCell(to.value)
  {
    if to.Some? && to.value != "" then AddressCell(to.value) else "Contract Creation"
  }

  /** A full 66-character hash shows as 17 characters from which its first 8 and last 6
      characters can be read back. */
  lemma HashCellOfFullHash(hash: string)
    requires |hash| == 66
    ensures |HashCell(hash)| == 17
    ensures HashCell(hash)[..8] == hash[..8] && HashCell(hash)[8..11] == "..." && HashCell(hash)[11..] == hash[60..]
  {
  }

  /** A full 42-character address shows as 13 characters from which its first 6 and last 4
      characters can be read back. */
  lemma AddressCellOfFullAddress(address: string)
    requires |address| == 42
    ensures |AddressCell(address)| == 13
    ensures AddressCell(address)[..6] == address[..6] && AddressCell(address)[6..9] == "..." && AddressCell(address)[9..] == address[38..]
  {
  }
}
