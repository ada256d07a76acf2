/** The in-process cache store and the embedding cache on top of it. */
module CacheStores {
  import opened Sequences

  /** What a stored key was made from; hashing is taken to be injective. */
  datatype Key = EmbeddingKey(model: string, dimension: int, text: string) | OtherKey(digest: string)

  datatype Entry<V> = Entry(value: V, expiresAt: Option<real>)

  predicate Expired<V>(e: Entry<V>, now: real) {
    e.expiresAt.Some? && now > e.expiresAt.value
  }

  function Expiry(ttl: Option<int>, now: real): Option<real> {
    if ttl.Some? && ttl.value > 0 then Some(now + ttl.value as real) else None
  }

  /** The store as a value: its keys in insertion order, and their entries. */
  datatype Store<V> = Store(order: seq<Key>, entries: map<Key, Entry<V>>)

  ghost predicate WellFormed<V>(s: Store<V>) {
    NoDup(s.order) && Elems(s.order) == s.entries.Keys
  }

  function Without<V>(s: Store<V>, key: Key): Store<V> {
    Store(Filter(s.order, k => k != key), s.entries - {key})
  }

  function Evict<V>(s: Store<V>): Store<V> {
    if s.order == [] then s else Without(s, s.order[0])
  }

  function GetResult<V>(s: Store<V>, key: Key, now: real): Option<V> {
    if key in s.entries && !Expired(s.entries[key], now) then Some(s.entries[key].value) else None
  }

  /** Reading an expired entry removes it. */
  function AfterGet<V>(s: Store<V>, key: Key, now: real): Store<V> {
    if key in s.entries && Expired(s.entries[key], now) then Without(s, key) else s
  }

  /** A new key goes to the end, after the oldest has made room if need be; a known key keeps its place. */
  function AfterSet<V>(s: Store<V>, maxEntries: int, key: Key, value: V, ttl: Option<int>, now: real): Store<V> {
    var t := if |s.order| >= maxEntries && key !in s.entries then Evict(s) else s;
    Put(t, key, Entry(value, Expiry(ttl, now)))
  }

  function Capacity(maxEntries: int): nat {
    if maxEntries > 1 then maxEntries else 1
  }

  lemma WithoutFacts<V>(s: Store<V>, key: Key)
    requires WellFormed(s)
    ensures WellFormed(Without(s, key))
    ensures |Without(s, key).order| == |s.order| - (if key in s.entries then 1 else 0)
  {
    var t := Without(s, key);
    hide Filter, NoDup;
    FilterNoDup(s.order, k => k != key);
    WithoutElems(s.order, key);
    NoDupCard(s.order);
    NoDupCard(t.order);
  }

  lemma WithoutElems(order: seq<Key>, key: Key)
    ensures Elems(Filter(order, k => k != key)) == Elems(order) - {key}
  {
    hide Filter;
  }

  /** Evicting removes the key that was inserted first. */
  lemma EvictIsFifo<V>(s: Store<V>)
    requires WellFormed(s) && s.order != []
    ensures Evict(s) == Store(s.order[1..], s.entries - {s.order[0]})
  {
    KeepRest(s.order[1..], s.order[0]);
  }

  lemma {:induction false} KeepRest(order: seq<Key>, key: Key)
    requires key !in order
    ensures Filter(order, k => k != key) == order
  {
    if order != [] { KeepRest(order[1..], key); }
  }

  lemma SetFacts<V>(s: Store<V>, maxEntries: int, key: Key, value: V, ttl: Option<int>, now: real)
    requires WellFormed(s)
    ensures WellFormed(AfterSet(s, maxEntries, key, value, ttl, now))
    ensures |s.order| <= Capacity(maxEntries) ==>
              |AfterSet(s, maxEntries, key, value, ttl, now).order| <= Capacity(maxEntries)
  {
    hide WellFormed, Evict;
    EvictFacts(s);
    PutFacts(if |s.order| >= maxEntries && key !in s.entries then Evict(s) else s, key, Entry(value, Expiry(ttl, now)));
  }

  lemma EvictFacts<V>(s: Store<V>)
    requires WellFormed(s)
    ensures WellFormed(Evict(s))
    ensures |Evict(s).order| == if s.order == [] then 0 else |s.order| - 1
  {
    if s.order != [] {
      assert s.order[0] in Elems(s.order);
      WithoutFacts(s, s.order[0]);
    }
  }

  function Put<V>(s: Store<V>, key: Key, entry: Entry<V>): Store<V> {
    Store(if key in s.entries then s.order else s.order + [key], s.entries[key := entry])
  }

  lemma PutFacts<V>(s: Store<V>, key: Key, entry: Entry<V>)
    requires WellFormed(s)
    ensures WellFormed(Put(s, key, entry))
    ensures |Put(s, key, entry).order| == |s.order| + (if key in s.entries then 0 else 1)
  {
    assert forall k :: k in s.order <==> k in Elems(s.order);
    if key !in s.entries {
      NoDupAppend(s.order, key);
    }
  }

  lemma GetFacts<V>(s: Store<V>, key: Key, now: real)
    requires WellFormed(s)
    ensures WellFormed(AfterGet(s, key, now)) && |AfterGet(s, key, now).order| <= |s.order|
  {
    WithoutFacts(s, key);
  }

  /* ---- histories ---- */

  datatype Operation<V> =
    | DoGet(key: Key, now: real)
    | DoSet(key: Key, value: V, ttl: Option<int>, now: real)
    | DoDelete(key: Key)
    | DoClear

  function Perform<V>(s: Store<V>, maxEntries: int, op: Operation<V>): Store<V> {
    match op
    case DoGet(key, now) => AfterGet(s, key, now)
    case DoSet(key, value, ttl, now) => AfterSet(s, maxEntries, key, value, ttl, now)
    case DoDelete(key) => Without(s, key)
    case DoClear => Store([], map[])
  }

  function Replay<V>(s: Store<V>, maxEntries: int, ops: seq<Operation<V>>): Store<V>
    decreases |ops|
  {
    if ops == [] then s else Perform(Replay(s, maxEntries, ops[..|ops| - 1]), maxEntries, ops[|ops| - 1])
  }

  /** A read keeps every entry but an expired one of its own key. */
  lemma GetMeaning<V>(s: Store<V>, maxEntries: int, key: Key, now: real)
    requires WellFormed(s)
    ensures var t := Perform(s, maxEntries, DoGet(key, now));
            var expired := key in s.entries && s.entries[key].expiresAt.Some? && s.entries[key].expiresAt.value < now;
            && t.entries == (if expired then s.entries - {key} else s.entries)
            && (!expired ==> t.order == s.order)
            && GetResult(s, key, now) == (if key in s.entries && !expired then Some(s.entries[key].value) else None)
  {
  }

  /** A write keeps every other entry, except that a new key in a full store takes the place of the key that was
      inserted first; a new key goes to the end, and a known one stays where it is. */
  lemma SetMeaning<V>(s: Store<V>, maxEntries: int, key: Key, value: V, ttl: Option<int>, now: real)
    requires WellFormed(s)
    ensures var t := Perform(s, maxEntries, DoSet(key, value, ttl, now));
            var until := if ttl.Some? && ttl.value > 0 then Some(now + ttl.value as real) else None;
            if key in s.entries || |s.order| < maxEntries || s.order == []
            then && t.entries == s.entries[key := Entry(value, until)]
                 && t.order == (if key in s.entries then s.order else s.order + [key])
            else && t.entries == (s.entries - {s.order[0]})[key := Entry(value, until)]
                 && t.order == s.order[1..] + [key]
  {
    if key !in s.entries && |s.order| >= maxEntries && s.order != [] { EvictIsFifo(s); }
  }

  /** A deletion keeps every other entry, in its place among the rest. */
  lemma DeleteMeaning<V>(s: Store<V>, maxEntries: int, key: Key)
    requires WellFormed(s)
    ensures var t := Perform(s, maxEntries, DoDelete(key));
            && t.entries == s.entries - {key}
            && (key !in s.entries ==> t.order == s.order)
            && (key in s.entries ==> exists i :: 0 <= i < |s.order| && s.order[i] == key
                                                 && t.order == s.order[..i] + s.order[i + 1..])
  {
    assert key in s.entries <==> key in Elems(s.order);
    if key in s.entries {
      var i :| 0 <= i < |s.order| && s.order[i] == key;
      DropOne(s.order, i, key);
    } else {
      KeepRest(s.order, key);
    }
  }

  lemma DropOne(order: seq<Key>, i: nat, key: Key)
    requires NoDup(order) && i < |order| && order[i] == key
    ensures Filter(order, k => k != key) == order[..i] + order[i + 1..]
  {
    hide NoDup, Filter;
    NotTwice(order, i);
    DropFrom(order[..i], order[i + 1..], key);
    SplitAround(order, i);
  }

  lemma NotTwice(order: seq<Key>, i: nat)
    requires NoDup(order) && i < |order|
    ensures order[i] !in order[..i] && order[i] !in order[i + 1..]
  {
  }

  lemma SplitAround(order: seq<Key>, i: nat)
    requires i < |order|
    ensures order == order[..i] + ([order[i]] + order[i + 1..])
  {
    assert order[i..] == [order[i]] + order[i + 1..];
  }

  lemma {:induction false} DropFrom(front: seq<Key>, back: seq<Key>, key: Key)
    requires key !in front && key !in back
    ensures Filter(front + ([key] + back), k => k != key) == front + back
  {
    hide Filter;
    var order := front + ([key] + back);
    FilterFirst(order, key);
    if front == [] {
      assert order[1..] == back && front + back == back;
      KeepRest(back, key);
    } else {
      assert order[1..] == front[1..] + ([key] + back);
      assert front + back == [front[0]] + (front[1..] + back);
      DropFrom(front[1..], back, key);
    }
  }

  lemma FilterFirst(order: seq<Key>, key: Key)
    requires order != []
    ensures Filter(order, k => k != key)
         == if order[0] == key then Filter(order[1..], k => k != key)
            else [order[0]] + Filter(order[1..], k => k != key)
  {
  }

  /** The entry of the last set of a key, unless it was deleted or cleared afterwards. */
  function LastSet<V>(ops: seq<Operation<V>>, key: Key): Option<Entry<V>>
    decreases |ops|
  {
    if ops == [] then None
    else
      var before := LastSet(ops[..|ops| - 1], key);
      match ops[|ops| - 1]
      case DoGet(_, _) => before
      case DoSet(k, value, ttl, now) => if k == key then Some(Entry(value, Expiry(ttl, now))) else before
      case DoDelete(k) => if k == key then None else before
      case DoClear => None
  }

  lemma PerformFacts<V>(s: Store<V>, maxEntries: int, op: Operation<V>)
    requires WellFormed(s)
    ensures WellFormed(Perform(s, maxEntries, op))
    ensures |s.order| <= Capacity(maxEntries) ==> |Perform(s, maxEntries, op).order| <= Capacity(maxEntries)
  {
    match op
    case DoGet(key, now) => GetFacts(s, key, now);
    case DoSet(key, value, ttl, now) => SetFacts(s, maxEntries, key, value, ttl, now);
    case DoDelete(key) => WithoutFacts(s, key);
    case DoClear =>
  }

  /** After any history the store is within its capacity, and a stored entry is always the latest write. */
  lemma {:induction false} StoreHistory<V>(maxEntries: int, ops: seq<Operation<V>>)
    ensures var s := Replay(Store([], map[]), maxEntries, ops);
            && WellFormed(s) && |s.order| <= Capacity(maxEntries)
            && forall key :: key in s.entries ==> LastSet(ops, key) == Some(s.entries[key])
    decreases |ops|
  {
    if ops != [] {
      var before := ops[..|ops| - 1];
      StoreHistory(maxEntries, before);
      PerformFacts(Replay(Store([], map[]), maxEntries, before), maxEntries, ops[|ops| - 1]);
    }
  }

  /** A read never returns anything but the latest write of its key, and never an expired one. */
  lemma ReadsLatestWrite<V>(maxEntries: int, ops: seq<Operation<V>>, key: Key, now: real)
    ensures var s := Replay(Store([], map[]), maxEntries, ops);
            match GetResult(s, key, now)
            case None => true
            case Some(v) => match LastSet(ops, key)
                            case None => false
                            case Some(e) => e.value == v && !Expired(e, now)
  {
    StoreHistory(maxEntries, ops);
  }

  /** A value is found again right after it was stored, for as long as it has not expired. */
  lemma SetThenGet<V>(s: Store<V>, maxEntries: int, key: Key, value: V, ttl: Option<int>, now: real, later: real)
    ensures GetResult(Perform(s, maxEntries, DoSet(key, value, ttl, now)), key, later)
         == if ttl.Some? && ttl.value > 0 && later > now + ttl.value as real then None else Some(value)
  {
  }

  lemma {:induction false} ReplayAppend<V>(s: Store<V>, maxEntries: int, a: seq<Operation<V>>, b: seq<Operation<V>>)
    ensures Replay(Replay(s, maxEntries, a), maxEntries, b) == Replay(s, maxEntries, a + b)
    decreases |b|
  {
    hide Perform;
    if b == [] {
      assert a + b == a;
    } else {
      assert (a + b)[..|a + b| - 1] == a + b[..|b| - 1] && (a + b)[|a + b| - 1] == b[|b| - 1];
      ReplayAppend(s, maxEntries, a, b[..|b| - 1]);
    }
  }

  lemma ReplayOne<V>(s: Store<V>, maxEntries: int, a: seq<Operation<V>>, op: Operation<V>)
    ensures Perform(Replay(s, maxEntries, a), maxEntries, op) == Replay(s, maxEntries, a + [op])
  {
    assert (a + [op])[..|a|] == a;
  }

  /* ---- the store object ---- */

  class MemoryCacheStore<V> {
    const maxEntries: int
    var order: seq<Key>
    var data: map<Key, Entry<V>>

    ghost function View(): Store<V>
      reads this
    {
      Store(order, data)
    }

    ghost predicate Valid()
      reads this
    {
      WellFormed(View()) && |order| <= Capacity(maxEntries)
    }

    constructor (maxEntries: int)
      ensures this.maxEntries == maxEntries && Valid() && View() == Store([], map[])
    {
      this.maxEntries := maxEntries;
      order, data := [], map[];
    }

    method Get(key: Key, now: real) returns (r: Option<V>)
      requires Valid()
      modifies this
      ensures Valid() && View() == Perform(old(View()), maxEntries, DoGet(key, now))
      ensures r == GetResult(old(View()), key, now)
    {
      PerformFacts(View(), maxEntries, DoGet(key, now));
      if key !in data {
        return None;
      }
      var entry := data[key];
      if entry.expiresAt.Some? && now > entry.expiresAt.value {
        Pop(key);
        return None;
      }
      return Some(entry.value);
    }

    method Set(key: Key, value: V, ttl: Option<int>, now: real)
      requires Valid()
      modifies this
      ensures Valid() && View() == Perform(old(View()), maxEntries, DoSet(key, value, ttl, now))
    {
      PerformFacts(View(), maxEntries, DoSet(key, value, ttl, now));
      NoDupCard(order);
      assert |data| == |data.Keys|;
      var expires := None;
      if ttl.Some? && ttl.value > 0 {
        expires := Some(now + ttl.value as real);
      }
      if |data| >= maxEntries && key !in data {
        EvictOne();
      }
      if key !in data {
        order := order + [key];
      }
      data := data[key := Entry(value, expires)];
    }

    method Delete(key: Key) returns (found: bool)
      requires Valid()
      modifies this
      ensures Valid() && View() == Perform(old(View()), maxEntries, DoDelete(key))
      ensures found == (key in old(data))
    {
      PerformFacts(View(), maxEntries, DoDelete(key));
      found := key in data;
      Pop(key);
    }

    method Clear() returns (count: nat)
      requires Valid()
      modifies this
      ensures Valid() && View() == Perform(old(View()), maxEntries, DoClear)
      ensures count == |old(data)|
    {
      count := |data|;
      order, data := [], map[];
    }

    method Pop(key: Key)
      modifies this
      ensures View() == Without(old(View()), key)
    {
      order := Filter(order, k => k != key);
      data := data - {key};
    }

    method EvictOne()
      modifies this
      ensures View() == Evict(old(View()))
    {
      if order == [] {
        return;
      }
      var oldest := order[0];
      Pop(oldest);
    }

    /** What other users of the shared store do in the meantime. */
    method OthersAct(ops: seq<Operation<V>>)
      requires Valid()
      modifies this
      ensures Valid() && View() == Replay(old(View()), maxEntries, ops)
    {
      for i := 0 to |ops|
        invariant Valid() && View() == Replay(old(View()), maxEntries, ops[..i])
      {
        assert ops[..i + 1][..i] == ops[..i];
        match ops[i]
        case DoGet(key, now) => var _ := Get(key, now);
        case DoSet(key, value, ttl, now) => Set(key, value, ttl, now);
        case DoDelete(key) => var _ := Delete(key);
        case DoClear => var _ := Clear();
      }
      assert ops[..|ops|] == ops;
    }
  }
}

module EmbeddingCaches {
  import opened Sequences
  import opened CacheStores

  type Vector = seq<real>

  /** An embedding model that treats each text by itself. */
  type Model = string -> Vector

  function EmbedEach(inner: Model, texts: seq<string>): seq<Vector> {
    seq(|texts|, i requires 0 <= i < |texts| => inner(texts[i]))
  }

  /** Every stored vector of this model is the one that the model computes. */
  ghost predicate Coherent(s: Store<Vector>, model: string, dimension: int, inner: Model) {
    forall t :: EmbeddingKey(model, dimension, t) in s.entries ==>
      s.entries[EmbeddingKey(model, dimension, t)].value == inner(t)
  }

  /** Other users store only what the model computes under the model's keys. */
  ghost predicate Fair(op: Operation<Vector>, model: string, dimension: int, inner: Model) {
    op.DoSet? && op.key.EmbeddingKey? && op.key.model == model && op.key.dimension == dimension ==>
      op.value == inner(op.key.text)
  }

  /** The clock and the other users, as seen at the k-th access to the store. */
  datatype Surroundings = Surroundings(clock: nat -> real, others: nat -> seq<Operation<Vector>>)

  ghost predicate AllFair(around: Surroundings, model: string, dimension: int, inner: Model) {
    forall k, op :: op in around.others(k) ==> Fair(op, model, dimension, inner)
  }

  lemma PerformCoherent(s: Store<Vector>, maxEntries: int, op: Operation<Vector>, model: string, dimension: int,
                        inner: Model)
    requires Coherent(s, model, dimension, inner) && Fair(op, model, dimension, inner)
    ensures Coherent(Perform(s, maxEntries, op), model, dimension, inner)
  {
  }

  lemma ReadCoherent(s: Store<Vector>, maxEntries: int, now: real, text: string, model: string, dimension: int,
                     inner: Model)
    requires Coherent(s, model, dimension, inner)
    ensures Coherent(Perform(s, maxEntries, DoGet(EmbeddingKey(model, dimension, text), now)), model, dimension, inner)
    ensures var r := GetResult(s, EmbeddingKey(model, dimension, text), now);
            r.Some? ==> r.value == inner(text)
  {
    PerformCoherent(s, maxEntries, DoGet(EmbeddingKey(model, dimension, text), now), model, dimension, inner);
  }

  lemma WriteCoherent(s: Store<Vector>, maxEntries: int, ttl: int, now: real, text: string, model: string,
                      dimension: int, inner: Model)
    requires Coherent(s, model, dimension, inner)
    ensures Coherent(Perform(s, maxEntries, DoSet(EmbeddingKey(model, dimension, text), inner(text), Some(ttl), now)),
                     model, dimension, inner)
  {
    PerformCoherent(s, maxEntries, DoSet(EmbeddingKey(model, dimension, text), inner(text), Some(ttl), now),
                    model, dimension, inner);
  }

  lemma {:induction false} ReplayCoherent(s: Store<Vector>, maxEntries: int, ops: seq<Operation<Vector>>,
                                          model: string, dimension: int, inner: Model)
    requires Coherent(s, model, dimension, inner) && forall op :: op in ops ==> Fair(op, model, dimension, inner)
    ensures Coherent(Replay(s, maxEntries, ops), model, dimension, inner)
    decreases |ops|
  {
    if ops != [] {
      var before := ops[..|ops| - 1];
      ReplayCoherent(s, maxEntries, before, model, dimension, inner);
      PerformCoherent(Replay(s, maxEntries, before), maxEntries, ops[|ops| - 1], model, dimension, inner);
    }
  }

  /* ---- what a bulk access does to the store ---- */

  function ReadOp(model: string, dimension: int, text: string, now: real): Operation<Vector> {
    DoGet(EmbeddingKey(model, dimension, text), now)
  }

  /** Everything that happens to the store while the texts are read one by one. */
  function Reading(model: string, dimension: int, texts: seq<string>, around: Surroundings): seq<Operation<Vector>>
    decreases |texts|
  {
    if texts == [] then []
    else
      var i := |texts| - 1;
      Reading(model, dimension, texts[..i], around) + around.others(i)
        + [ReadOp(model, dimension, texts[i], around.clock(i))]
  }

  /** The store in which the i-th text is looked up. */
  function ReadIn(s: Store<Vector>, maxEntries: int, model: string, dimension: int, texts: seq<string>,
                  around: Surroundings, i: nat): Store<Vector>
    requires i < |texts|
  {
    Replay(s, maxEntries, Reading(model, dimension, texts[..i], around) + around.others(i))
  }

  /** Everything that happens to the store while the vectors are written one by one. */
  function Writing(model: string, dimension: int, ttl: int, texts: seq<string>, vectors: seq<Vector>,
                   around: Surroundings, from: nat): seq<Operation<Vector>>
    requires |texts| == |vectors|
    decreases |texts|
  {
    if texts == [] then []
    else
      var i := |texts| - 1;
      Writing(model, dimension, ttl, texts[..i], vectors[..i], around, from) + around.others(from + i)
        + [DoSet(EmbeddingKey(model, dimension, texts[i]), vectors[i], Some(ttl), around.clock(from + i))]
  }

  class EmbeddingCache {
    const store: MemoryCacheStore<Vector>
    const ttl: int
    const model: string
    const dimension: int

    constructor (store: MemoryCacheStore<Vector>, ttl: int, model: string, dimension: int)
      ensures this.store == store && this.ttl == ttl && this.model == model && this.dimension == dimension
    {
      this.store, this.ttl, this.model, this.dimension := store, ttl, model, dimension;
    }

    ghost predicate Ok(inner: Model)
      reads store
    {
      store.Valid() && Coherent(store.View(), model, dimension, inner)
    }

    /** Each text is looked up in the store of its moment: it is found exactly when it is there and has not
        expired, and then it is what the model computes. */
    method GetMany(texts: seq<string>, around: Surroundings, ghost inner: Model) returns (results: seq<Option<Vector>>)
      requires Ok(inner) && AllFair(around, model, dimension, inner)
      modifies store
      ensures Ok(inner)
      ensures |results| == |texts|
      ensures forall i :: 0 <= i < |texts| ==>
                results[i] == GetResult(ReadIn(old(store.View()), store.maxEntries, model, dimension, texts, around, i),
                                        EmbeddingKey(model, dimension, texts[i]), around.clock(i))
      ensures forall i :: 0 <= i < |texts| && results[i].Some? ==> results[i].value == inner(texts[i])
      ensures store.View() == Replay(old(store.View()), store.maxEntries, Reading(model, dimension, texts, around))
    {
      hide Coherent, Replay, Perform, GetResult, WellFormed, Fair, Reading;
      ghost var start := store.View();
      results := [];
      NoneRead(start, store.maxEntries, model, dimension, around);
      for i := 0 to |texts|
        invariant Ok(inner) && |results| == i
        invariant store.View() == Replay(start, store.maxEntries, Reading(model, dimension, texts[..i], around))
        invariant forall k :: 0 <= k < i ==>
          results[k] == GetResult(ReadIn(start, store.maxEntries, model, dimension, texts, around, k),
                                  EmbeddingKey(model, dimension, texts[k]), around.clock(k))
        invariant forall k :: 0 <= k < i && results[k].Some? ==> results[k].value == inner(texts[k])
      {
        ReplayCoherent(store.View(), store.maxEntries, around.others(i), model, dimension, inner);
        ReplayAppend(start, store.maxEntries, Reading(model, dimension, texts[..i], around), around.others(i));
        store.OthersAct(around.others(i));
        assert store.View() == ReadIn(start, store.maxEntries, model, dimension, texts, around, i);
        var key := EmbeddingKey(model, dimension, texts[i]);
        ReadCoherent(store.View(), store.maxEntries, around.clock(i), texts[i], model, dimension, inner);
        OneRead(start, store.maxEntries, model, dimension, texts, around, i);
        var raw := store.Get(key, around.clock(i));
        results := results + [raw];
      }
      assert texts[..|texts|] == texts;
    }

    /** The vectors are stored one by one, each with the cache's time to live. */
    method SetMany(texts: seq<string>, vectors: seq<Vector>, around: Surroundings, from: nat, ghost inner: Model)
      requires |texts| == |vectors| && vectors == EmbedEach(inner, texts)
      requires Ok(inner) && AllFair(around, model, dimension, inner)
      modifies store
      ensures Ok(inner)
      ensures store.View()
           == Replay(old(store.View()), store.maxEntries, Writing(model, dimension, ttl, texts, vectors, around, from))
    {
      hide Coherent, Replay, Perform, WellFormed, Fair, Writing;
      ghost var start := store.View();
      NoneWritten(start, store.maxEntries, model, dimension, ttl, around, from);
      for i := 0 to |texts|
        invariant Ok(inner)
        invariant store.View() == Replay(start, store.maxEntries,
                                         Writing(model, dimension, ttl, texts[..i], vectors[..i], around, from))
      {
        ReplayCoherent(store.View(), store.maxEntries, around.others(from + i), model, dimension, inner);
        OneWritten(start, store.maxEntries, model, dimension, ttl, texts, vectors, around, from, i);
        store.OthersAct(around.others(from + i));
        var key := EmbeddingKey(model, dimension, texts[i]);
        WriteCoherent(store.View(), store.maxEntries, ttl, around.clock(from + i), texts[i], model, dimension, inner);
        store.Set(key, vectors[i], Some(ttl), around.clock(from + i));
      }
      assert texts[..|texts|] == texts && vectors[..|texts|] == vectors;
    }
  }

  lemma NoneRead(s: Store<Vector>, maxEntries: int, model: string, dimension: int, around: Surroundings)
    ensures Replay(s, maxEntries, Reading(model, dimension, [], around)) == s
  {
  }

  lemma OneRead(s: Store<Vector>, maxEntries: int, model: string, dimension: int, texts: seq<string>,
                around: Surroundings, i: nat)
    requires i < |texts|
    ensures Perform(ReadIn(s, maxEntries, model, dimension, texts, around, i), maxEntries,
                    ReadOp(model, dimension, texts[i], around.clock(i)))
         == Replay(s, maxEntries, Reading(model, dimension, texts[..i + 1], around))
  {
    var next := texts[..i + 1];
    assert next[..i] == texts[..i];
    ReplayOne(s, maxEntries, Reading(model, dimension, texts[..i], around) + around.others(i),
              ReadOp(model, dimension, texts[i], around.clock(i)));
  }

  lemma NoneWritten(s: Store<Vector>, maxEntries: int, model: string, dimension: int, ttl: int,
                    around: Surroundings, from: nat)
    ensures Replay(s, maxEntries, Writing(model, dimension, ttl, [], [], around, from)) == s
  {
  }

  lemma OneWritten(s: Store<Vector>, maxEntries: int, model: string, dimension: int, ttl: int, texts: seq<string>,
                   vectors: seq<Vector>, around: Surroundings, from: nat, i: nat)
    requires |texts| == |vectors| && i < |texts|
    ensures var before := Replay(s, maxEntries, Writing(model, dimension, ttl, texts[..i], vectors[..i], around, from));
            var op := DoSet(EmbeddingKey(model, dimension, texts[i]), vectors[i], Some(ttl), around.clock(from + i));
            Perform(Replay(before, maxEntries, around.others(from + i)), maxEntries, op)
            == Replay(s, maxEntries, Writing(model, dimension, ttl, texts[..i + 1], vectors[..i + 1], around, from))
  {
    assert texts[..i + 1][..i] == texts[..i] && vectors[..i + 1][..i] == vectors[..i];
    var written := Writing(model, dimension, ttl, texts[..i], vectors[..i], around, from);
    ReplayAppend(s, maxEntries, written, around.others(from + i));
    ReplayOne(s, maxEntries, written + around.others(from + i),
              DoSet(EmbeddingKey(model, dimension, texts[i]), vectors[i], Some(ttl), around.clock(from + i)));
  }

  class CachedEmbeddingProvider {
    const inner: Model
    const cache: EmbeddingCache

    constructor (inner: Model, cache: EmbeddingCache)
      ensures this.inner == inner && this.cache == cache
    {
      this.inner, this.cache := inner, cache;
    }

    /** The provider that is wrapped. */
    method InnerEmbed(texts: seq<string>) returns (vectors: seq<Vector>)
      ensures vectors == EmbedEach(inner, texts)
    {
      vectors := EmbedEach(inner, texts);
    }

    /** The same vectors as without a cache, for all texts, times, evictions and other users; the cache
        stays coherent. */
    method Embed(texts: seq<string>, enabled: bool, around: Surroundings) returns (output: seq<Vector>)
      requires cache.Ok(inner) && AllFair(around, cache.model, cache.dimension, inner)
      modifies cache.store
      ensures output == EmbedEach(inner, texts)
      ensures cache.Ok(inner)
    {
      if !enabled || texts == [] {
        output := InnerEmbed(texts);
        return;
      }
      var cached := cache.GetMany(texts, around, inner);
      var missingTexts := CollectMissing(texts, cached);
      if missingTexts == [] {
        output := FillGaps(texts, cached, []);
        return;
      }
      var computed := InnerEmbed(missingTexts);
      cache.SetMany(missingTexts, computed, around, |texts|, inner);
      output := FillGaps(texts, cached, computed);
    }

    method CollectMissing(texts: seq<string>, cached: seq<Option<Vector>>) returns (missing: seq<string>)
      requires |cached| == |texts|
      ensures missing == Missing(texts, cached, |texts|)
    {
      missing := [];
      for index := 0 to |texts|
        invariant missing == Missing(texts, cached, index)
      {
        if cached[index].None? {
          missing := missing + [texts[index]];
        }
      }
    }

    /** Takes the computed vectors in order wherever nothing was cached. */
    method FillGaps(texts: seq<string>, cached: seq<Option<Vector>>, computed: seq<Vector>)
      returns (output: seq<Vector>)
      requires |cached| == |texts| && computed == EmbedEach(inner, Missing(texts, cached, |texts|))
      requires forall i :: 0 <= i < |texts| && cached[i].Some? ==> cached[i].value == inner(texts[i])
      ensures output == EmbedEach(inner, texts)
    {
      output := [];
      var next := 0;
      for i := 0 to |cached|
        invariant next == |Missing(texts, cached, i)|
        invariant |output| == i && forall k :: 0 <= k < i ==> output[k] == inner(texts[k])
      {
        MissingPrefix(texts, cached, i + 1, |texts|);
        if cached[i].Some? {
          output := output + [cached[i].value];
        } else {
          assert Missing(texts, cached, |texts|)[next] == texts[i];
          output := output + [computed[next]];
          next := next + 1;
        }
      }
    }
  }

  /** Those of the first n texts for which nothing was cached. */
  function Missing(texts: seq<string>, cached: seq<Option<Vector>>, n: nat): seq<string>
    requires n <= |texts| == |cached|
  {
    if n == 0 then []
    else Missing(texts, cached, n - 1) + (if cached[n - 1].None? then [texts[n - 1]] else [])
  }

  lemma {:induction false} MissingPrefix(texts: seq<string>, cached: seq<Option<Vector>>, m: nat, n: nat)
    requires m <= n <= |texts| == |cached|
    ensures Missing(texts, cached, m) <= Missing(texts, cached, n)
  {
    if m < n { MissingPrefix(texts, cached, m, n - 1); }
  }
}
