/** The byte-budget cache. A key holds the tape itself where the program holds its digest. */
module SeriesCache {
  import opened Wrappers

  datatype Entry<K, V> = Entry(key: K, value: V, size: int)

  function Bytes<K, V>(store: seq<Entry<K, V>>): int {
    if store == [] then 0 else store[0].size + Bytes(store[1..])
  }

  function Find<K(==), V>(store: seq<Entry<K, V>>, key: K): (found: Option<nat>)
    ensures found.None? <==> forall j :: 0 <= j < |store| ==> store[j].key != key
    ensures found.Some? ==> found.value < |store| && store[found.value].key == key
  {
    if store == [] then None
    else if store[0].key == key then Some(0)
    else
      var rest := Find(store[1..], key);
      assert forall j :: 1 <= j < |store| ==> store[j] == store[1..][j - 1];
      if rest.None? then None else Some(rest.value + 1)
  }

  function Removed<K(==), V>(store: seq<Entry<K, V>>, key: K): seq<Entry<K, V>> {
    var found := Find(store, key);
    if found.None? then store else store[..found.value] + store[found.value + 1..]
  }

  /** `move_to_end` of a key that is present. */
  function Touched<K(==), V>(store: seq<Entry<K, V>>, key: K): seq<Entry<K, V>> {
    var found := Find(store, key);
    if found.None? then store else Removed(store, key) + [store[found.value]]
  }

  /** How many of the oldest entries go before `room` bytes hold the rest. */
  function Evictions<K, V>(store: seq<Entry<K, V>>, room: int): (n: nat)
    ensures n <= |store|
    ensures n == |store| || Bytes(store[n..]) <= room
    ensures forall m :: 0 <= m < n ==> Bytes(store[m..]) > room
  {
    assert store[0..] == store;
    if store == [] || Bytes(store) <= room then 0
    else
      var n := 1 + Evictions(store[1..], room);
      assert forall m :: 1 <= m <= |store| ==> store[m..] == store[1..][m - 1..];
      n
  }

  lemma {:induction false} BytesAppend<K, V>(a: seq<Entry<K, V>>, b: seq<Entry<K, V>>)
    ensures Bytes(a + b) == Bytes(a) + Bytes(b)
  {
    if a == [] {
      assert a + b == b;
    } else {
      assert (a + b)[1..] == a[1..] + b;
      BytesAppend(a[1..], b);
    }
  }

  lemma BytesRemoved<K, V>(store: seq<Entry<K, V>>, key: K)
    ensures Find(store, key).Some? ==> Bytes(Removed(store, key)) == Bytes(store) - store[Find(store, key).value].size
  {
    var found := Find(store, key);
    if found.Some? {
      var k := found.value;
      assert store == store[..k] + ([store[k]] + store[k + 1..]);
      BytesAppend(store[..k], [store[k]] + store[k + 1..]);
      BytesAppend(store[..k], store[k + 1..]);
    }
  }

  // ----- order of use

  ghost predicate Sized<K, V>(store: seq<Entry<K, V>>) {
    forall j :: 0 <= j < |store| ==> store[j].size > 0
  }

  ghost predicate Holds<K, V>(store: seq<Entry<K, V>>, key: K) {
    exists j :: 0 <= j < |store| && store[j].key == key
  }

  /** Entries stand in the order in which `used` dates their keys. */
  ghost predicate InUseOrder<K, V>(store: seq<Entry<K, V>>, used: K -> int) {
    forall i, j :: 0 <= i < j < |store| ==> used(store[i].key) < used(store[j].key)
  }

  lemma RemovedKeepsOrder<K, V>(store: seq<Entry<K, V>>, key: K, used: K -> int)
    requires InUseOrder(store, used) && Sized(store)
    ensures InUseOrder(Removed(store, key), used)
    ensures forall j :: 0 <= j < |Removed(store, key)| ==>
                          Removed(store, key)[j].key != key && Removed(store, key)[j] in store
  {
    var found := Find(store, key);
    if found.Some? {
      var k := found.value;
      var rest := Removed(store, key);
      assert forall j :: 0 <= j < |rest| ==> rest[j] == store[if j < k then j else j + 1];
      forall j | 0 <= j < |rest|
        ensures rest[j].key != key
      {
        assert used(rest[j].key) != used(key);
      }
    }
  }

  /** Where another key's entry stands once `key` is taken out. */
  lemma RemovedHolds<K, V>(store: seq<Entry<K, V>>, key: K, other: K) returns (k: nat)
    requires Holds(store, other) && other != key
    ensures k < |Removed(store, key)| && Removed(store, key)[k].key == other
  {
    var j :| 0 <= j < |store| && store[j].key == other;
    var found := Find(store, key);
    k := if found.Some? && found.value < j then j - 1 else j;
  }

  lemma BytesPositive<K, V>(store: seq<Entry<K, V>>)
    requires Sized(store)
    ensures Bytes(store) >= 0
  {
    if store != [] {
      BytesPositive(store[1..]);
    }
  }

  /** Later suffixes weigh less, so exactly the entries before the count are evicted. */
  lemma EvictedIffTooHeavy<K, V>(store: seq<Entry<K, V>>, room: int, k: nat)
    requires Sized(store) && k < |store| && room >= 0
    ensures k < Evictions(store, room) <==> Bytes(store[k..]) > room
  {
    var n := Evictions(store, room);
    if n <= k {
      assert store[n..] == store[n..k] + store[k..];
      BytesAppend(store[n..k], store[k..]);
      BytesPositive(store[n..k]);
    }
  }

  function Stored<K(==), V>(store: seq<Entry<K, V>>, key: K, value: V, size: int, budget: int): seq<Entry<K, V>> {
    if 0 < size <= budget then
      var others := Removed(store, key);
      others[Evictions(others, budget - size)..] + [Entry(key, value, size)]
    else store
  }

  // ----- a history of gets and puts

  /** `cache_get` of a key, or `cache_put` of a value. */
  datatype Use<K, V> = Looked(key: K) | Offered(key: K, value: V, size: int)
  {
    /** A value that could never fit is not a use of its key. */
    predicate Counts(budget: int) {
      Offered? ==> 0 < size <= budget
    }
  }

  function After<K(==), V>(store: seq<Entry<K, V>>, use: Use<K, V>, budget: int): seq<Entry<K, V>> {
    match use
    case Looked(key) => Touched(store, key)
    case Offered(key, value, size) => Stored(store, key, value, size, budget)
  }

  /** The store after a history that starts from an empty one. */
  function StoreAfter<K(==), V>(history: seq<Use<K, V>>, budget: int): seq<Entry<K, V>> {
    if history == [] then []
    else After(StoreAfter(history[..|history| - 1], budget), history[|history| - 1], budget)
  }

  /** Where in the history the key was last looked up or stored, -1 if nowhere. */
  function LastUse<K(==), V>(history: seq<Use<K, V>>, key: K, budget: int): (when: int)
    ensures -1 <= when < |history|
    ensures when >= 0 ==> history[when].key == key && history[when].Counts(budget)
    ensures forall j :: when < j < |history| && history[j].key == key ==> !history[j].Counts(budget)
  {
    if history == [] then -1
    else
      var last := |history| - 1;
      if history[last].key == key && history[last].Counts(budget) then last
      else LastUse(history[..last], key, budget)
  }

  /** The value and size last stored for the key, whether or not they are still held. */
  function LastStored<K(==), V>(history: seq<Use<K, V>>, key: K, budget: int): (entry: Option<Entry<K, V>>) {
    if history == [] then None
    else
      var last := |history| - 1;
      var use := history[last];
      if use.key == key && use.Offered? && use.Counts(budget) then Some(Entry(key, use.value, use.size))
      else LastStored(history[..last], key, budget)
  }

  ghost function Used<K, V>(history: seq<Use<K, V>>, budget: int): K -> int {
    key => LastUse(history, key, budget)
  }

  lemma UsedSnoc<K, V>(history: seq<Use<K, V>>, use: Use<K, V>, budget: int)
    ensures forall key :: LastUse(history + [use], key, budget) ==
                          if use.key == key && use.Counts(budget) then |history| else LastUse(history, key, budget)
    ensures forall key :: LastStored(history + [use], key, budget) ==
                          if use.key == key && use.Offered? && use.Counts(budget)
                          then Some(Entry(key, use.value, use.size)) else LastStored(history, key, budget)
    ensures StoreAfter(history + [use], budget) == After(StoreAfter(history, budget), use, budget)
  {
    assert (history + [use])[..|history|] == history;
  }

  lemma StoreSnoc<K, V>(history: seq<Use<K, V>>, use: Use<K, V>, budget: int)
    ensures StoreAfter(history + [use], budget) == After(StoreAfter(history, budget), use, budget)
  {
    assert (history + [use])[..|history|] == history;
  }

  /** What is true of the store whatever came before. */
  ghost predicate Recent<K, V>(store: seq<Entry<K, V>>, history: seq<Use<K, V>>, budget: int) {
    && InUseOrder(store, Used(history, budget)) && Sized(store)
    && Bytes(store) <= budget
    && forall j :: 0 <= j < |store| ==> LastStored(history, store[j].key, budget) == Some(store[j])
  }

  /** After any gets and puts the entries stand in the order of their keys' last use, hold what
      was last stored under their keys, and fit the budget. */
  lemma {:induction false} StoreIsInOrderOfUse<K, V>(history: seq<Use<K, V>>, budget: int)
    requires budget >= 0
    ensures Recent(StoreAfter(history, budget), history, budget)
  {
    hide Recent, After;
    if history == [] {
      NothingIsRecent<K, V>(budget);
    } else {
      var last := |history| - 1;
      StoreIsInOrderOfUse(history[..last], budget);
      assert history == history[..last] + [history[last]];
      OneUseKeepsOrder(StoreAfter(history[..last], budget), history[..last], history[last], budget);
    }
  }

  lemma NothingIsRecent<K, V>(budget: int)
    requires budget >= 0
    ensures Recent<K, V>([], [], budget)
  {
  }

  lemma OneUseKeepsOrder<K, V>(store: seq<Entry<K, V>>, history: seq<Use<K, V>>, use: Use<K, V>, budget: int)
    requires Recent(store, history, budget)
    ensures Recent(After(store, use, budget), history + [use], budget)
  {
    hide Recent;
    var key := use.key;
    var rest := Removed(store, key);
    var found := Find(store, key);
    if use.Looked? && found.Some? {
      RestIsRecent(store, history, key, 0, budget);
      assert rest[0..] == rest;
      LastOfKey(history, use, budget);
      HeldIsSound(store, history, found.value, budget);
      BytesRemoved(store, key);
      NewestAtTheEnd(rest, store[found.value], history, use, budget);
    } else if use.Offered? && use.Counts(budget) {
      var n := Evictions(rest, budget - use.size);
      RestIsRecent(store, history, key, n, budget);
      LastOfKey(history, use, budget);
      NewestAtTheEnd(rest[n..], Entry(key, use.value, use.size), history, use, budget);
    } else {
      Unaffected(store, history, use, budget);
    }
  }

  lemma HeldIsSound<K, V>(store: seq<Entry<K, V>>, history: seq<Use<K, V>>, k: nat, budget: int)
    requires Recent(store, history, budget) && k < |store|
    ensures store[k].size > 0 && Bytes(store) <= budget
    ensures LastStored(history, store[k].key, budget) == Some(store[k])
  {
  }

  /** What is left of the store when a key and then the oldest entries go. */
  lemma RestIsRecent<K, V>(store: seq<Entry<K, V>>, history: seq<Use<K, V>>, key: K, n: nat, budget: int)
    requires Recent(store, history, budget) && n <= |Removed(store, key)|
    ensures Recent(Removed(store, key)[n..], history, budget)
    ensures forall j :: 0 <= j < |Removed(store, key)[n..]| ==> Removed(store, key)[n..][j].key != key
  {
    RemovedKeepsOrder(store, key, Used(history, budget));
    BytesRemoved(store, key);
    AllLastStored(store, history, budget);
    hide Removed, Find, Recent, Bytes;
    SuffixIsRecent(store, Removed(store, key), history, n, budget);
  }

  lemma AllLastStored<K, V>(store: seq<Entry<K, V>>, history: seq<Use<K, V>>, budget: int)
    requires Recent(store, history, budget)
    ensures forall e :: e in store ==> e.size > 0 && LastStored(history, e.key, budget) == Some(e)
    ensures Bytes(store) <= budget
  {
  }

  lemma SuffixIsRecent<K, V>(
    store: seq<Entry<K, V>>, rest: seq<Entry<K, V>>, history: seq<Use<K, V>>, n: nat, budget: int)
    requires forall e :: e in store ==> e.size > 0 && LastStored(history, e.key, budget) == Some(e)
    requires InUseOrder(rest, Used(history, budget)) && Bytes(rest) <= budget && n <= |rest|
    requires forall j :: 0 <= j < |rest| ==> rest[j] in store
    ensures Recent(rest[n..], history, budget)
  {
    hide LastStored, LastUse, Bytes, Used;
    var part := rest[n..];
    assert forall j :: 0 <= j < |part| ==> part[j] == rest[n + j];
    assert rest == rest[..n] + part;
    BytesAppend(rest[..n], part);
    assert Sized(rest[..n]);
    BytesPositive(rest[..n]);
  }

  lemma LastOfKey<K, V>(history: seq<Use<K, V>>, use: Use<K, V>, budget: int)
    requires use.Counts(budget)
    ensures LastStored(history + [use], use.key, budget) ==
            if use.Offered? then Some(Entry(use.key, use.value, use.size)) else LastStored(history, use.key, budget)
  {
    UsedSnoc(history, use, budget);
  }

  lemma Unaffected<K, V>(store: seq<Entry<K, V>>, history: seq<Use<K, V>>, use: Use<K, V>, budget: int)
    requires Recent(store, history, budget)
    requires use.Counts(budget) ==> forall j :: 0 <= j < |store| ==> store[j].key != use.key
    ensures Recent(store, history + [use], budget)
  {
    UsedSnoc(history, use, budget);
    var used := Used(history, budget);
    var now := Used(history + [use], budget);
    forall j | 0 <= j < |store|
      ensures now(store[j].key) == used(store[j].key)
    {
    }
  }

  lemma OrderedAppend<K, V>(rest: seq<Entry<K, V>>, entry: Entry<K, V>, used: K -> int)
    requires InUseOrder(rest, used) && forall j :: 0 <= j < |rest| ==> used(rest[j].key) < used(entry.key)
    ensures InUseOrder(rest + [entry], used)
  {
  }

  lemma UsedBefore<K, V>(
    rest: seq<Entry<K, V>>, entry: Entry<K, V>, history: seq<Use<K, V>>, use: Use<K, V>, budget: int)
    requires use.Counts(budget) && use.key == entry.key
    requires forall j :: 0 <= j < |rest| ==> rest[j].key != entry.key
    ensures var now := Used(history + [use], budget);
            forall j :: 0 <= j < |rest| ==> now(rest[j].key) < now(entry.key)
  {
    UsedSnoc(history, use, budget);
    hide LastStored;
    var now := Used(history + [use], budget);
    assert now(entry.key) == |history|;
    forall j | 0 <= j < |rest|
      ensures now(rest[j].key) < |history|
    {
    }
  }

  lemma BytesOneMore<K, V>(rest: seq<Entry<K, V>>, entry: Entry<K, V>)
    ensures Bytes(rest + [entry]) == Bytes(rest) + entry.size
  {
    BytesAppend(rest, [entry]);
    assert [entry][1..] == [];
  }

  lemma NewestAtTheEnd<K, V>(
    rest: seq<Entry<K, V>>, entry: Entry<K, V>, history: seq<Use<K, V>>, use: Use<K, V>, budget: int)
    requires use.Counts(budget) && use.key == entry.key
    requires Recent(rest, history, budget)
    requires entry.size > 0 && Bytes(rest) + entry.size <= budget
    requires LastStored(history + [use], entry.key, budget) == Some(entry)
    requires forall j :: 0 <= j < |rest| ==> rest[j].key != entry.key
    ensures Recent(rest + [entry], history + [use], budget)
  {
    hide Bytes, LastStored, LastUse, InUseOrder, Used;
    Unaffected(rest, history, use, budget);
    UsedBefore(rest, entry, history, use, budget);
    OrderedAppend(rest, entry, Used(history + [use], budget));
    BytesOneMore(rest, entry);
  }

  /** The bytes of the entries last used at `since` or later. */
  ghost function BytesSince<K, V>(store: seq<Entry<K, V>>, used: K -> int, since: int): int {
    if store == [] then 0
    else (if used(store[0].key) >= since then store[0].size else 0) + BytesSince(store[1..], used, since)
  }

  lemma {:induction false} BytesSinceIsASuffix<K, V>(store: seq<Entry<K, V>>, used: K -> int, k: nat)
    requires InUseOrder(store, used) && k < |store|
    ensures BytesSince(store, used, used(store[k].key)) == Bytes(store[k..])
  {
    var since := used(store[k].key);
    if k == 0 {
      assert store[0..] == store;
      AllSince(store, used, since);
    } else {
      assert store[1..][k - 1..] == store[k..];
      BytesSinceIsASuffix(store[1..], used, k - 1);
    }
  }

  lemma {:induction false} AllSince<K, V>(store: seq<Entry<K, V>>, used: K -> int, since: int)
    requires forall j :: 0 <= j < |store| ==> used(store[j].key) >= since
    ensures BytesSince(store, used, since) == Bytes(store)
  {
    if store != [] {
      AllSince(store[1..], used, since);
    }
  }

  /** `other`, held before, is gone if and only if its entry and everything used after it pass
      `room`, and then all that is kept but `key` was used after it. */
  ghost predicate OnlyTheOldestGo<K, V>(
    before: seq<Entry<K, V>>, after: seq<Entry<K, V>>, used: K -> int, key: K, room: int, other: K)
  {
    && (Holds(after, other) <==> BytesSince(before, used, used(other)) <= room)
    && (!Holds(after, other) ==>
          forall j :: 0 <= j < |after| && after[j].key != key ==> used(other) < used(after[j].key))
  }

  /** Storing a value drops another key if and only if that key's entry, everything used after it
      and the new value would together pass the budget: never one too many or too few, and never
      a key used later than one that stays. */
  lemma EvictionIsLeastRecent<K, V>(
    history: seq<Use<K, V>>, key: K, value: V, size: int, budget: int, other: K)
    requires 0 < size <= budget && other != key
    requires Holds(StoreAfter(history, budget), other)
    ensures OnlyTheOldestGo(
              Removed(StoreAfter(history, budget), key), StoreAfter(history + [Offered(key, value, size)], budget),
              Used(history, budget), key, budget - size, other)
  {
    hide StoreAfter, Stored, After, Removed, Find, LastUse, LastStored, BytesSince, Bytes, Evictions;
    var used := Used(history, budget);
    var store := StoreAfter(history, budget);
    StoreIsInOrderOfUse(history, budget);
    AfterPut(history, key, value, size, budget);
    RemovedKeepsOrder(store, key, used);
    var k := RemovedHolds(store, key, other);
    RemovedSized(store, key);
    OldestGo(Removed(store, key), Entry(key, value, size), budget - size, used, k);
  }

  lemma AfterPut<K, V>(history: seq<Use<K, V>>, key: K, value: V, size: int, budget: int)
    requires 0 < size <= budget
    ensures var before := Removed(StoreAfter(history, budget), key);
            StoreAfter(history + [Offered(key, value, size)], budget) ==
            before[Evictions(before, budget - size)..] + [Entry(key, value, size)]
  {
    StoreSnoc(history, Offered(key, value, size), budget);
  }

  lemma RemovedSized<K, V>(store: seq<Entry<K, V>>, key: K)
    requires Sized(store)
    ensures Sized(Removed(store, key))
  {
  }

  /** Dropping the first `n` entries keeps exactly the later ones, all used after those dropped. */
  lemma SuffixIsLater<K, V>(before: seq<Entry<K, V>>, entry: Entry<K, V>, n: nat, used: K -> int, k: nat)
    requires InUseOrder(before, used) && n <= |before| && k < |before| && before[k].key != entry.key
    ensures var after := before[n..] + [entry];
            && (Holds(after, before[k].key) <==> n <= k)
            && (k < n ==> forall j :: 0 <= j < |after| && after[j].key != entry.key ==>
                                        used(before[k].key) < used(after[j].key))
  {
    var after := before[n..] + [entry];
    assert forall j :: 0 <= j < |after| - 1 ==> after[j] == before[n + j];
    if n <= k {
      assert after[k - n].key == before[k].key;
    }
  }

  lemma OldestGo<K, V>(before: seq<Entry<K, V>>, entry: Entry<K, V>, room: int, used: K -> int, k: nat)
    requires InUseOrder(before, used) && Sized(before) && room >= 0 && k < |before|
    requires forall j :: 0 <= j < |before| ==> before[j].key != entry.key
    ensures OnlyTheOldestGo(
              before, before[Evictions(before, room)..] + [entry], used, entry.key, room, before[k].key)
  {
    hide Evictions, BytesSince, Bytes, InUseOrder, Sized, Holds;
    EvictedIffTooHeavy(before, room, k);
    BytesSinceIsASuffix(before, used, k);
    SuffixIsLater(before, entry, Evictions(before, room), used, k);
  }

  class Cache<K(==), V> {
    const budget: int
    /** Least recently used first. */
    var store: seq<Entry<K, V>>
    var nbytes: int
    /** Every get and put since the last clear, for the specification only. */
    ghost var history: seq<Use<K, V>>

    ghost predicate Valid()
      reads this
    {
      && budget >= 0
      && store == StoreAfter(history, budget)
      && nbytes == Bytes(store)
    }

    constructor (budget: int)
      requires budget >= 0
      ensures Valid() && store == [] && history == [] && this.budget == budget
    {
      this.budget := budget;
      store, nbytes, history := [], 0, [];
    }

    method Clear()
      requires Valid()
      modifies this
      ensures Valid() && store == [] && nbytes == 0 && history == []
    {
      store, nbytes, history := [], 0, [];
    }

    /** A hit becomes the most recently used entry. */
    method Get(key: K) returns (hit: Option<V>)
      requires Valid()
      modifies this
      ensures Valid() && history == old(history) + [Looked(key)]
      ensures hit == var found := Find(old(store), key);
                     if found.None? then None else Some(old(store)[found.value].value)
      ensures store == Touched(old(store), key) && nbytes == old(nbytes)
    {
      StoreSnoc(history, Looked(key), budget);
      history := history + [Looked(key)];
      var found := Find(store, key);
      if found.None? {
        return None;
      }
      var entry := store[found.value];
      BytesRemoved(store, key);
      BytesAppend(Removed(store, key), [entry]);
      assert [entry][1..] == [];
      store := store[..found.value] + store[found.value + 1..] + [entry];
      return Some(entry.value);
    }

    /** Store a value that fits the budget, evicting from the least recently used end just
        until it does. The value comes back either way. */
    method Put(key: K, value: V, size: int) returns (same: V)
      requires Valid()
      modifies this
      ensures Valid() && same == value && history == old(history) + [Offered(key, value, size)]
      ensures store == Stored(old(store), key, value, size, budget)
    {
      hide Bytes, Removed, Find, Evictions, StoreAfter;
      StoreSnoc(history, Offered(key, value, size), budget);
      history := history + [Offered(key, value, size)];
      if size <= 0 || size > budget {
        return value;
      }
      TakeOut(key);
      EvictUntil(budget - size);
      BytesOneMore(store, Entry(key, value, size));
      store := store + [Entry(key, value, size)];
      nbytes := nbytes + size;
      return value;
    }

    /** Drop the key's old entry, if there is one. */
    method TakeOut(key: K)
      requires nbytes == Bytes(store)
      modifies `store, `nbytes
      ensures store == Removed(old(store), key) && nbytes == Bytes(store)
    {
      BytesRemoved(store, key);
      var found := Find(store, key);
      if found.Some? {
        nbytes := nbytes - store[found.value].size;
        store := store[..found.value] + store[found.value + 1..];
      }
    }

    /** Pop the least recently used entry while more than `room` bytes are kept. */
    method EvictUntil(room: int)
      requires nbytes == Bytes(store) && room >= 0
      modifies `store, `nbytes
      ensures nbytes == Bytes(store) <= room
      ensures store == old(store)[Evictions(old(store), room)..]
    {
      ghost var all := store;
      ghost var n := 0;
      while store != [] && nbytes > room
        invariant 0 <= n <= Evictions(all, room) && store == all[n..]
        invariant nbytes == Bytes(store)
        decreases |store|
      {
        assert all[n..][1..] == all[n + 1..];
        nbytes := nbytes - store[0].size;
        store := store[1..];
        n := n + 1;
      }
    }
  }

  // ----- transparency

  /** Every stored value is what would be computed afresh for its key. */
  ghost predicate Faithful<K, V>(store: seq<Entry<K, V>>, compute: K -> V) {
    forall j :: 0 <= j < |store| ==> store[j].value == compute(store[j].key)
  }

  lemma TouchedFaithful<K, V>(store: seq<Entry<K, V>>, key: K, compute: K -> V)
    requires Faithful(store, compute)
    ensures Faithful(Removed(store, key), compute) && Faithful(Touched(store, key), compute)
  {
    var found := Find(store, key);
    if found.Some? {
      var k := found.value;
      var rest := Removed(store, key);
      forall j | 0 <= j < |rest|
        ensures rest[j].value == compute(rest[j].key)
      {
        assert rest[j] == store[if j < k then j else j + 1];
      }
    }
  }

  lemma StoredFaithful<K, V>(store: seq<Entry<K, V>>, key: K, size: int, budget: int, compute: K -> V)
    requires Faithful(store, compute)
    ensures Faithful(Stored(store, key, compute(key), size, budget), compute)
  {
    TouchedFaithful(store, key, compute);
  }

  /** One client access: a hit is used as it is, a miss is computed and stored. */
  datatype Access<K> = Access(key: K, size: int)

  method ServeOne<K(==), V>(cache: Cache<K, V>, access: Access<K>, compute: K -> V) returns (value: V)
    requires cache.Valid() && Faithful(cache.store, compute)
    modifies cache
    ensures cache.Valid() && Faithful(cache.store, compute)
    ensures value == compute(access.key)
  {
    TouchedFaithful(cache.store, access.key, compute);
    var hit := cache.Get(access.key);
    if hit.Some? {
      return hit.value;
    }
    StoredFaithful(cache.store, access.key, access.size, cache.budget, compute);
    value := cache.Put(access.key, compute(access.key), access.size);
  }

  /** Over any run of accesses, whatever the sizes evict, every series served is the one
      that would be computed afresh. */
  method Serve<K(==), V>(cache: Cache<K, V>, accesses: seq<Access<K>>, compute: K -> V) returns (served: seq<V>)
    requires cache.Valid() && Faithful(cache.store, compute)
    modifies cache
    ensures cache.Valid() && Faithful(cache.store, compute)
    ensures |served| == |accesses|
    ensures forall j :: 0 <= j < |accesses| ==> served[j] == compute(accesses[j].key)
  {
    served := [];
    for a := 0 to |accesses|
      invariant cache.Valid() && Faithful(cache.store, compute)
      invariant |served| == a && forall j :: 0 <= j < a ==> served[j] == compute(accesses[j].key)
    {
      var value := ServeOne(cache, accesses[a], compute);
      served := served + [value];
    }
  }
}
