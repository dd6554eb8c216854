# A Dafny model of the explorer front end's decision logic

This project models the pure decision and arithmetic logic of a block-explorer web front end
for an EVM chain. The front end fetches blocks, transactions and addresses from an indexing
API and shows them. The model covers seven pieces, each as immutable datatypes and pure
functions, with the I/O taken out:

- **Search box** (`Search`, src/app/page.tsx). A raw query becomes a route to a block, a
  transaction or an address page, an alert, or nothing. The three regular expressions are
  written twice: once as predicates over the characters, and once as a regex engine consumes
  them. Lemmas prove the two readings agree.
- **Latest-transactions table** (`TxTable`, src/components/LatestTransactions.tsx). It covers
  the page count, the slice for each page, the "Showing a-b of n" caption, the
  Previous/number/Next buttons as a click-driven state machine, and the shortened
  hashes and addresses.
- **Relative time** (`RelativeTime`, src/utils/time.ts). It computes seconds, minutes, hours
  or days ago. The clock reading `now` is a parameter.
- **Calldata decoding** (`Interaction`, src/utils/decodeTransaction.ts and
  src/constants/contractAbis.ts). Decoding tries ERC-20, then ERC-721, then the registry of
  known ABIs, with fixed fallbacks. ethers' `Interface.parseTransaction` is a parameter
  `parse: (Abi, string) -> Attempt`. Its result is a match, `null` (`NoMatch`) or a throw.
- **API client** (`Api`, src/utils/api.ts). It covers the `{ ...params, limit: '10' }` merge
  (an ordered key list, because object spread keeps an existing key in place), the query
  string, URL assembly and the ok / not-ok handling of a reply. The percent-encoding of one
  query component and the network transport are parameters.
- **Latest blocks hook** (`LatestData`, src/hooks/useLatestBlocks.ts). It reshapes each API
  item with its defaults and combines the loading and error flags. A `None` result stands
  for the hook throwing, for example `new Array(n)` with an invalid length or `BigInt` of
  bad text.
- **Network selection** (`Network`, src/contexts/NetworkContext.tsx). The selection is
  `mainnet` or `testnet` over an optional key-value store. Loading checks the stored value
  and falls back to a default. Setting the network writes through to the store.

`JsText` models the JavaScript built-ins these pieces depend on:

- `trim` and its whitespace set
- `slice` with negative indices
- ASCII `toLowerCase`
- `x || fallback` on strings
- `parseInt` without a radix, including the `0x` prefix
- `BigInt(string)`
- the decimal text a template literal prints

Lemmas state how these built-ins relate: decimal round trips through `parseInt` and
`BigInt`, and "trims to empty iff all whitespace".

Facts the proofs bring out about the code as written:

- A query with surrounding spaces is rejected, not trimmed.
- With no transactions the Next button never disables, and each click moves to an ever
  higher, empty page.
- Every request URL has a doubled slash (`https://hyperscan.gas.zip//api/...`), because the
  base URL ends in `/` and every endpoint starts with one.

## Model

| member | source | states |
|---|---|---|
| `Search.HandleSearch` | src/app/page.tsx:19-44 | Blank-after-trim (all whitespace) queries do nothing. Otherwise the untrimmed query navigates to `/block/q`, `/tx/q` or `/address/q` exactly when it matches that pattern, and the alert is raised exactly when it matches none. |
| `Search.MatchDigitsPlusSpec` | src/app/page.tsx:25 | The engine-style reading of `^\d+$` accepts exactly the non-empty strings of ASCII digits. |
| `Search.MatchHexIdSpec` | src/app/page.tsx:31-37 | The engine-style reading of `^0x[a-fA-F0-9]{n}$` accepts exactly a lower-case `0x` followed by n hex digits of either case. |
| `Search.PatternsExclusive` | src/app/page.tsx:25-39 | No query matches two of the three patterns. |
| `Search.FirstMatchFinds` | src/app/page.tsx:25-39 | Whatever the order of the tests, the first accepting test is the query's one matching pattern when the order holds it. With no such pattern the alert is raised. |
| `Search.CheckOrderIrrelevant` | src/app/page.tsx:25-39 | Making the three tests in any order, duplicates allowed, gives the handler's outcome for every query. |
| `Search.PaddedQueryRejected` | src/app/page.tsx:22-37 | A valid block number, hash or address with whitespace before or after it raises the alert. |
| `Search.PathRoundTrip` | src/app/page.tsx:26-38 | Each route's path reads back as that route, so the three route kinds never collide. |
| `JsText.TrimEmptyIffAllWhitespace` | src/app/page.tsx:22 | `trim()` gives the empty (falsy) string exactly when every character is JavaScript whitespace. |
| `TxTable.TotalPages` | src/components/LatestTransactions.tsx:13 | The page count is the least k with 10k >= n, so it is 0 exactly when there are no rows. |
| `TxTable.PageItems` | src/components/LatestTransactions.tsx:16-18 | Page p >= 1 holds rows `(p-1)*10 .. min(p*10, n)`, at most 10 of them, and is non-empty exactly when p <= totalPages. |
| `TxTable.PagesUpToIsPrefix` | src/components/LatestTransactions.tsx:13-18 | Pages 1..k in order are exactly the first min(10k, n) rows. |
| `TxTable.AllPagesRebuildList` | src/components/LatestTransactions.tsx:13-18 | Concatenating pages 1..totalPages reproduces the whole list. |
| `TxTable.RowOnExactlyOnePage` | src/components/LatestTransactions.tsx:13-18 | Row i lies in the index range of exactly one page, i/10+1. That page exists and shows the row at offset i%10. |
| `TxTable.CaptionDescribesPage` | src/components/LatestTransactions.tsx:105-106 | On an existing page the caption's first-last range is exactly the one-based positions of the rows shown. Past the last page the range is inverted. |
| `TxTable.PageButtons` | src/components/LatestTransactions.tsx:117 | The numbered buttons are 1..totalPages. |
| `TxTable.AfterClick` | src/components/LatestTransactions.tsx:110-135 | Previous moves by -1 unless the page is 1. Next moves by +1 unless the page equals totalPages. A number button sets its number verbatim. |
| `TxTable.ClicksKeepPageValid` | src/components/LatestTransactions.tsx:9-23 | Starting from page 1, no click goes below page 1, and a page within 1..totalPages stays within it. |
| `TxTable.EmptyTableNextNeverStops` | src/components/LatestTransactions.tsx:130-135 | With no rows, k Next clicks from page p reach page p+k, and each such page's caption range is empty. |
| `TxTable.Shorten` | src/components/LatestTransactions.tsx:53 | `s.slice(0,h)...s.slice(-t)` is the first min(h,len) characters, `...`, then the last min(t,len). |
| `TxTable.HashCellOfFullHash` | src/components/LatestTransactions.tsx:53 | A 66-character hash shows as 17 characters: its first 8, `...`, its last 6. |
| `TxTable.AddressCellOfFullAddress` | src/components/LatestTransactions.tsx:73 | A 42-character address shows as 13 characters: its first 6, `...`, its last 4. |
| `TxTable.ToCell` | src/components/LatestTransactions.tsx:79-88 | A missing or empty recipient shows "Contract Creation". Otherwise it shows the shortened address. |
| `JsText.Slice` | src/components/LatestTransactions.tsx:18 | For 0 <= start <= end, `slice` clamps both ends to the length. For 0 <= end <= start it is empty. A negative start with an open end takes the last -start elements. |
| `RelativeTime.GetRelativeTime` | src/utils/time.ts:1-11 | A zero timestamp is "just now" whatever `now` is. Seconds carry the raw difference (< 60, negatives included). Minutes lie in 1..59, hours in 1..23 and days are >= 1, each the floor of the difference in that unit. |
| `RelativeTime.BucketOfDifference` | src/utils/time.ts:7-10 | For a non-zero timestamp the bucket is decided by the difference alone, and the four ranges are disjoint and exhaustive. |
| `RelativeTime.OlderIsNeverNewer` | src/utils/time.ts:7-10 | An older timestamp never lands in a more recent bucket, and within a bucket it never shows a smaller count. |
| `JsText.NatToDecimalRoundTrip` | src/utils/time.ts:7-10 | The decimal text a template literal prints for a count reads back as that count. |
| `JsText.IntToDecimal` | src/utils/time.ts:7-10 | The printed text of an integer is non-empty. It starts with `-` exactly for negative values and holds only digits and `-`. |
| `JsText.IntToDecimalInjective` | src/utils/time.ts:7-10 | Distinct integers print as distinct texts, negative seconds included. |
| `RelativeTime.TextInjective` | src/utils/time.ts:1-11 | The returned text determines the bucket and its count: two different results never read alike. |
| `Interaction.ReadProperty` | src/utils/decodeTransaction.ts:63 | `KNOWN_ABIS[key]` finds an own entry exactly for registered keys. It finds an inherited `Object.prototype` member exactly for unregistered `constructor` and `__proto__`, and `undefined` otherwise. |
| `Interaction.DecodeWith` | src/utils/decodeTransaction.ts:18-95 | Empty or `0x` calldata gives `null` whatever the parser does. Every decoded call carries the caller's address verbatim, and every raw answer carries the calldata. "Unknown Contract" comes only from an address whose lowercase form is missing from the registry object. |
| `Interaction.DecodeIsPriorityCascade` | src/utils/decodeTransaction.ts:21-90 | Decoding equals the first verdict of the stage list ERC-20, ERC-721, registry. A standard stage passes on when its parse gives `null` or throws. |
| `Interaction.Erc20Wins` | src/utils/decodeTransaction.ts:22-37 | A successful ERC-20 parse gives type `ERC20 <name>` and contract "ERC20 Token". The answer is the same whatever ERC-721 or the registry would say. |
| `Interaction.Erc721Second` | src/utils/decodeTransaction.ts:42-57 | If ERC-20 gives `null` or throws and ERC-721 matches, the type is `ERC721 <name>` and the contract is "ERC721 Token". |
| `Interaction.RegistryFallbacks` | src/utils/decodeTransaction.ts:62-93 | After both standard parses fail, an address that is neither registered nor an inherited member name gives "Unknown Contract". An inherited member name gives `null`, because `new Interface(undefined)` throws into the outer `catch`. A registered address gives its own description on a match, `null` on a `null` parse, and "Contract Interaction" when the parse throws. |
| `Interaction.NullExactly` | src/utils/decodeTransaction.ts:19-93 | The answer is `null` exactly in three cases: empty calldata; an inherited member name after both standard parses failed; or a registered contract whose own parse gives `null` after both standard parses failed. |
| `Interaction.LookupIgnoresCase` | src/utils/decodeTransaction.ts:63 | Addresses that lowercase alike decode alike. Each result carries its own spelling of the address. |
| `Interaction.KnownAbisLookup` | src/constants/contractAbis.ts:4-9 | The registry holds one contract, "Test Token". Any capitalisation of its address finds it. |
| `Interaction.InheritedNameDecodesToNull` | src/utils/decodeTransaction.ts:63-69 | With the shipped registry, `constructor` or `__proto__` as the contract address, in any capitalisation, decodes to `null` once both standard parses fail. |
| `JsText.ToLowerIdempotent` | src/utils/decodeTransaction.ts:63 | Lowercasing an already lowercased key changes nothing. |
| `Api.Assign` | src/utils/api.ts:143-146 | After `{...p, [k]: v}`, k maps to v and every other key maps to what it did before. The size grows only when k was new. |
| `Api.AssignKeepsShape` | src/utils/api.ts:143-146 | The merge never duplicates a key and keeps the other keys in their original order. |
| `Api.FinalParams` | src/utils/api.ts:142-146 | `limit` is always `'10'`. Every other key keeps the caller's value. |
| `Api.GetBlockTransactions` | src/utils/api.ts:138-160 | Requests the block's transactions endpoint with `limit=10`, overriding any caller limit. `page` passes through. |
| `Api.GetAddressTransactions` | src/utils/api.ts:176-206 | Requests the address's transactions endpoint with `limit=10`. `items_count`, `block_number` and `filter` pass through. |
| `Api.GetTokenHolders` | src/utils/api.ts:245-259 | Requests the token's holders endpoint with `limit=10`. `page` passes through. |
| `Api.QueryString` | src/utils/api.ts:13 | The encoded query string is empty exactly when there are no parameters. |
| `Api.UrlRoundTrip` | src/utils/api.ts:13-14 | For an endpoint without `?`, the URL holds a `?` exactly when there are parameters, and splitting at it gives back base+endpoint and the query string. |
| `Api.DoubledSlash` | src/utils/api.ts:1-14 | For an endpoint starting with `/`, the URL has `//` where base URL and endpoint meet. |
| `Api.FetchFromApi` | src/utils/api.ts:12-28 | The call succeeds exactly on a 2xx reply with a parseable body, and then returns that body. A non-2xx status fails with "API request failed: <status> <statusText>". |
| `JsText.ParseIntOfDecimal` | src/hooks/useLatestBlocks.ts:36-38 | `parseInt` reads back the decimal text of every natural number. |
| `JsText.ToBigIntOfDecimal` | src/hooks/useLatestBlocks.ts:48-49 | `BigInt` reads back the decimal text of every natural number. |
| `JsText.OrElse` | src/hooks/useLatestBlocks.ts:47-50 | `x \|\| d` is d for a missing or empty string, and x otherwise. |
| `LatestData.ToBlock` | src/hooks/useLatestBlocks.ts:34-42 | The transform succeeds exactly when `parseInt(transactions_count \|\| '0')` is a whole number in 0..2^32-1, which `new Array` accepts. The block number is `parseInt` of `block_number` (NaN as None). Timestamp and base fee pass through. The slot count is that parsed count. |
| `LatestData.TransactionSlotsFromCount` | src/hooks/useLatestBlocks.ts:38 | A missing count gives 0 slots. A decimal count n gives n slots when n < 2^32, and the transform throws otherwise. |
| `LatestData.ToField` | src/hooks/useLatestBlocks.ts:47 | A missing recipient, or one whose hash is missing or empty, becomes null. Otherwise the recipient's own hash is kept. |
| `LatestData.ToTransaction` | src/hooks/useLatestBlocks.ts:44-51 | Fails exactly when `from` is missing or `BigInt` rejects value or block. Otherwise every field comes from its own API field with the listed defaults. |
| `LatestData.MissingValueIsZero` | src/hooks/useLatestBlocks.ts:48 | A missing or empty `value` becomes 0. |
| `LatestData.MapItems` | src/hooks/useLatestBlocks.ts:34-51 | `map` fails exactly when some item fails. Otherwise the output has the same length and order, the i-th output coming from the i-th item. |
| `LatestData.MapItemsAppend` | src/hooks/useLatestBlocks.ts:44-51 | The per-item transform is applied item by item: mapping a concatenation is concatenating the maps. |
| `LatestData.ItemsOf` | src/hooks/useLatestBlocks.ts:34-51 | Missing data or missing items give an empty list. |
| `LatestData.FirstError` | src/hooks/useLatestBlocks.ts:54 | The blocks error wins when present. Otherwise the transactions error is used. |
| `LatestData.UseLatestBlocks` | src/hooks/useLatestBlocks.ts:33-62 | `isLoading` is the OR of both loading flags and `isFetching` equals it. `error` prefers the blocks error. Blocks and transactions are the item-wise transforms. |
| `LatestData.OutputsFollowItems` | src/hooks/useLatestBlocks.ts:34-51 | Both outputs have the API items' length and order. |
| `Network.ParseNetwork` | src/contexts/NetworkContext.tsx:20 | Only the exact texts `mainnet` and `testnet` are accepted. |
| `Network.NameRoundTrip` | src/contexts/NetworkContext.tsx:19-21 | Names and parsing are inverse in both directions. |
| `Network.Saved` | src/contexts/NetworkContext.tsx:19-20 | A stored value counts exactly when the `network` key holds one of the two names. |
| `Network.Mount` | src/contexts/NetworkContext.tsx:16-23 | Mounting marks the client. It throws when storage is missing or access is denied, keeping the current network. Otherwise it adopts a valid saved network, and any other value, or none, keeps the current one. |
| `Network.FreshMount` | src/contexts/NetworkContext.tsx:13-22 | The provider starts on mainnet. A fresh mount ends on testnet exactly when storage is readable and holds `testnet`. |
| `Network.SetNetwork` | src/contexts/NetworkContext.tsx:25-31 | The state takes n in every case. It throws exactly when storage access is denied, or when the store is full and does not already hold n's name; then nothing is written. A full store that already holds the name takes the write unchanged, because `setItem` returns before its quota check when the value is equal (the Storage interface's `setItem()` steps in the HTML Standard). With no storage nothing is written. Otherwise `network` = n's name, and every other key is unchanged. |
| `Network.RewriteOnFullStore` | src/contexts/NetworkContext.tsx:25-31 | On a full store already holding n's name, `setNetwork(n)` neither throws nor changes the store. |
| `Network.SetThenMountRoundTrip` | src/contexts/NetworkContext.tsx:16-31 | Whenever the write goes through (readable storage with room, or already holding the name), a fresh mount loads n without throwing. When the write throws or there is no storage, the next mount ends as it would have before. |
| `Network.SetNetworkIdempotent` | src/contexts/NetworkContext.tsx:25-31 | Setting the same network twice equals setting it once. |

## Left out

- Network I/O (`fetch`, `response.json()`, console logging): the transport is a function from URL to reply, and JSON decoding is "parses or does not".
- The query-component encoding of `URLSearchParams` (percent-encoding, `+` for space) is a parameter. Only the `name=value&...` shape is modelled.
- Object keys that look like array indices are enumerated first in JavaScript. The parameter names used here (`limit`, `page`, `items_count`, `block_number`, `filter`) never do, so parameters stay in insertion order.
- The other endpoint helpers of src/utils/api.ts (transaction, block, address, token, contract info and search) only build a fixed endpoint string. They are not modelled one by one.
- Api.UrlRoundTrip: it requires an endpoint without `?`. `searchByQuery` (src/utils/api.ts:278-283) embeds `?q=` in its endpoint and passes no parameters, so its URL holds a `?` with no parameters and the round trip does not apply to it.
- React rendering, effects, react-query caching, refetch intervals and concurrency. The two query states are inputs to `LatestData.UseLatestBlocks`.
- Floating-point value formatting (`formatEther(...).toFixed(3)` in the table, and the dashboard statistics).
- JsText.ParseInt: results are exact integers. JavaScript's rounding of values above 2^53 is not modelled.
- JsText.ToBigInt: numeric separators are not accepted, just as in `BigInt`. Non-string arguments (numbers, booleans) are not modelled.
- JsText.ToLower: only ASCII letters are lowercased. The only non-ASCII letters whose lowercase form holds an ASCII letter are the Kelvin sign (to `k`) and the dotted capital I (to `i` plus a combining dot). Neither `k` nor `i` occurs in a hex registry key, `constructor` or `__proto__`, so registry lookups are unaffected.
- RelativeTime.GetRelativeTime: the timestamp is an integer, as its `bigint` type says. `Number(timestamp)` precision above 2^53 is not modelled. One caller passes the API's timestamp text instead, and then `Number` gives NaN.
- LatestData.ToTransaction: `hash` is passed through without a check. A transaction item whose `from` is present but not an object is not modelled.
- JsText.Slice and TxTable.Shorten: strings are sequences of Unicode scalar values, while JavaScript's `slice` and `length` count UTF-16 code units. The two differ only for characters outside the Basic Multilingual Plane. No hex hash, address, search pattern or JavaScript whitespace character contains one.
- Interaction.DecodeWith: the outer `catch` is modelled for one throw, `new Interface(undefined)` after an inherited member name is read off the registry. This relies on ethers' `Interface` constructor iterating over its argument, and that code is not part of this model. The standard and registered ABIs are taken to construct without throwing, and a non-string contract address is not modelled. The decoded arguments are kept as opaque text.
- Interaction.RegistryFallbacks: only the lower-case `Object.prototype` member names `constructor` and `__proto__` can be reached, because the key is lowercased first. An own `__proto__` key in a registry literal would set the prototype instead; the shipped registry has none.
- Cursor-driven pagination on the address and block pages: those pages lie outside the modelled code. Only the cursor's shape appears in src/utils/api.ts:5-8.
- Network.Mount and Network.SetNetwork: a throwing storage access is modelled as a `threw` flag. The state updates issued before the throw are kept. What React then does with the error (an error boundary, or unmounting the tree) is not modelled.
- `TxTable.HashCell` and `TxTable.AddressCell` take a string. A missing hash or sender would throw in the table and is not modelled.
