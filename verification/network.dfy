/** `NetworkProvider` (src/contexts/NetworkContext.tsx): the selected network, `mainnet` or
    `testnet`, persisted in the browser's key-value storage under the key `network`. */
module Network {
  import opened Wrappers

  datatype Network = Mainnet | Testnet

  /** The text under which a network is stored and shown. */
  function Name(n: Network): string {
    match n
    case Mainnet => "mainnet"
    case Testnet => "testnet"
  }

  /** `saved === 'mainnet' || saved === 'testnet'`: only the exact names are accepted. */
  function ParseNetwork(s: string): (r: Option<Network>)
    ensures r.Some? <==> s == "mainnet" || s == "testnet"
  {
    if s == "mainnet" then Some(Mainnet) else if s == "testnet" then Some(Testnet) else None
  }

  /** Names and parsing are inverse: each network reads back from its name, and a text that
      parses is the name of what it parses to. */
  lemma NameRoundTrip(n: Network, s: string)
    ensures ParseNetwork(Name(n)) == Some(n)
    ensures ParseNetwork(s).Some? ==> Name(ParseNetwork(s).value) == s
  {
  }

  /** The items of `localStorage`: string keys to string values. */
  type Storage = map<string, string>

  const StorageKey := "network"

  /** The browser's storage as the provider meets it. */
  datatype Store =
    | Undefined                             // no `localStorage` global at all
    | Denied                                // site data blocked: reading `localStorage` throws
    | Available(items: Storage, full: bool) // `full`: `setItem` throws a quota error

  /** The provider's state: the selected network and whether the mount effect has run. */
  datatype Provider = Provider(network: Network, isClient: bool)

  /** `useState('mainnet')`, `useState(false)` */
  const Initial := Provider(Mainnet, false)

  /** The provider and the store after a handler, and whether the handler threw. State
      updates issued before a throw are kept. */
  datatype Step = Step(provider: Provider, store: Store, threw: bool)

  /** The network a storage holds, if it holds a valid one. */
  function Saved(storage: Storage): (r: Option<Network>)
    ensures r.Some? <==> StorageKey in storage && (storage[StorageKey] == "mainnet" || storage[StorageKey] == "testnet")
    ensures r.Some? ==> Name(r.value) == storage[StorageKey]
  {
    if StorageKey in storage then ParseNetwork(storage[StorageKey]) else None
  }

  /** The mount effect: mark the provider as on the client, then read the saved network
      and adopt it when valid; a missing or unrecognised saved value keeps the current one.
      Reading throws when there is no storage, or access to it is denied, after the
      provider was marked. */
  function Mount(p: Provider, store: Store): (r: Step)
    ensures r.provider.isClient && r.store == store
    ensures r.threw <==> !store.Available?
    ensures store.Available? && Saved(store.items).Some? ==> Name(r.provider.network) == store.items[StorageKey]
    ensures !(store.Available? && Saved(store.items).Some?) ==> r.provider.network == p.network
  {
    var marked := p.(isClient := true);
    match store
    case Available(items, _) =>
      (match Saved(items)
       case Some(n) => Step(marked.(network := n), store, false)
       case None => Step(marked, store, false))
    case _ => Step(marked, store, true)
  }

  /** A fresh provider starts on `mainnet` and stays there after mounting unless storage
      can be read and holds exactly `testnet`. */
  lemma FreshMount(store: Store)
    ensures Initial.network == Mainnet
    ensures Mount(Initial, store).provider.network == Testnet <==>
              store.Available? && StorageKey in store.items && store.items[StorageKey] == "testnet"
  {
  }

  /** Whether `setItem('network', Name(n))` goes through: storage is readable, and either
      has room or already holds that very value (`setItem` returns before its quota check
      when the old value equals the new one). */
  predicate WriteSucceeds(store: Store, n: Network) {
    store.Available? && (!store.full || (StorageKey in store.items && store.items[StorageKey] == Name(n)))
  }

  /** `setNetwork(n)`: the state takes `n` first; then, unless `typeof localStorage` says
      there is none, `n`'s name is written under `network`. Denied access throws at the
      `typeof` test and a full storage throws at `setItem` unless it already holds the name;
      either way nothing is written. */
  function SetNetwork(p: Provider, store: Store, n: Network): (r: Step)
    ensures r.provider.network == n && r.provider.isClient == p.isClient
    ensures r.threw <==> store.Denied? || (store.Available? && store.full && !(StorageKey in store.items && store.items[StorageKey] == Name(n)))
    ensures r.threw || store.Undefined? ==> r.store == store
    ensures WriteSucceeds(store, n) ==>
              && r.store.Available? && r.store.full == store.full
              && StorageKey in r.store.items && r.store.items[StorageKey] == Name(n)
              && r.store.items.Keys == store.items.Keys + {StorageKey}
              && (forall k :: k in store.items && k != StorageKey ==> r.store.items[k] == store.items[k])
  {
    var state := p.(network := n);
    match store
    case Undefined => Step(state, store, false)
    case Denied => Step(state, store, true)
    case Available(items, full) =>
      if full && !(StorageKey in items && items[StorageKey] == Name(n)) then Step(state, store, true)
      else Step(state, Available(items[StorageKey := Name(n)], full), false)
  }

  /** A full storage that already holds the name takes the same write without throwing and
      without change. */
  lemma RewriteOnFullStore(p: Provider, items: Storage, n: Network)
    requires StorageKey in items && items[StorageKey] == Name(n)
    ensures SetNetwork(p, Available(items, true), n) == Step(p.(network := n), Available(items, true), false)
  {
    assert items[StorageKey := Name(n)] == items;
  }

  /** What is set is what the next mount loads when the write goes through; when the write
      throws or there is no storage, the next mount ends where it would have before. */
  lemma SetThenMountRoundTrip(p: Provider, store: Store, n: Network)
    ensures var written := SetNetwork(p, store, n);
      WriteSucceeds(store, n) ==> !written.threw && Mount(Initial, written.store) == Step(Provider(n, true), written.store, false)
    ensures var written := SetNetwork(p, store, n);
      !WriteSucceeds(store, n) ==> Mount(Initial, written.store) == Mount(Initial, store)
  {
    var written := SetNetwork(p, store, n);
    if WriteSucceeds(store, n) {
      NameRoundTrip(n, written.store.items[StorageKey]);
    }
  }

  /** Setting the same network twice is the same as setting it once. */
  lemma SetNetworkIdempotent(p: Provider, store: Store, n: Network)
    ensures var once := SetNetwork(p, store, n);
      SetNetwork(once.provider, once.store, n) == once
  {
    if WriteSucceeds(store, n) {
      var m := store.items[StorageKey := Name(n)];
      assert m[StorageKey := Name(n)] == m;
    }
  }
}
