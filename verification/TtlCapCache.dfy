/**
 * The in-memory cache with a time-to-live and a cap on its entries.  JavaScript's `Map` iterates
 * in insertion order and keeps a key's place when its value is replaced, so the store is a
 * sequence of slots with pairwise different keys, oldest first.
 */
module TtlCapCache {
  import opened Prelude

  type Key(==, !new)
  type Value(!new)

  datatype Slot = Slot(key: Key, value: Value, expiresAt: int)

  type Store = seq<Slot>

  ghost predicate Distinct(store: Store) {
    forall i, j | 0 <= i < j < |store| :: store[i].key != store[j].key
  }

  predicate Alive(slot: Slot, now: int) {
    now < slot.expiresAt
  }

  function Find(store: Store, key: Key): Option<Slot> {
    if store == [] then None else if store[0].key == key then Some(store[0]) else Find(store[1..], key)
  }

  /** What remains of the store when expired slots are deleted. */
  function Sweep(store: Store, now: int): (swept: Store)
    ensures |swept| <= |store|
  {
    if store == [] then []
    else (if Alive(store[0], now) then [store[0]] else []) + Sweep(store[1..], now)
  }

  /** Dropping the oldest slots until fewer than `maxEntries` remain, or none at all. */
  function Evict(store: Store, maxEntries: int): Store {
    if |store| < maxEntries || store == [] then store else Evict(store[1..], maxEntries)
  }

  function EnforceCap(store: Store, maxEntries: int, now: int): Store {
    if |store| < maxEntries then store else Evict(Sweep(store, now), maxEntries)
  }

  function Remove(store: Store, key: Key): Store {
    if store == [] then []
    else if store[0].key == key then store[1..]
    else [store[0]] + Remove(store[1..], key)
  }

  /** `Map.set`: an existing key keeps its place, a new one goes last. */
  function Put(store: Store, slot: Slot): Store {
    if store == [] then [slot]
    else if store[0].key == slot.key then [slot] + store[1..]
    else [store[0]] + Put(store[1..], slot)
  }

  function AfterSet(store: Store, maxEntries: int, slot: Slot, now: int): Store {
    Put(EnforceCap(store, maxEntries, now), slot)
  }

  // ---- what the operations do to the slots ------------------------------------------------

  lemma ConsDistinct(slot: Slot, rest: Store)
    requires Distinct(rest) && forall other | other in rest :: other.key != slot.key
    ensures Distinct([slot] + rest)
  {
  }

  lemma TailDistinct(store: Store)
    requires Distinct(store) && store != []
    ensures store == [store[0]] + store[1..] && Distinct(store[1..])
    ensures forall other | other in store[1..] :: other.key != store[0].key
  {
  }

  lemma {:induction false} SweepSlots(store: Store, now: int)
    requires Distinct(store)
    ensures forall slot :: slot in Sweep(store, now) <==> slot in store && Alive(slot, now)
    ensures Distinct(Sweep(store, now))
    decreases store
  {
    if store != [] {
      TailDistinct(store);
      SweepSlots(store[1..], now);
      ConsDistinct(store[0], Sweep(store[1..], now));
    }
  }

  lemma {:induction false} AllAlive(store: Store, now: int)
    ensures |Sweep(store, now)| == |store| <==> forall slot | slot in store :: Alive(slot, now)
    ensures |Sweep(store, now)| == |store| ==> Sweep(store, now) == store
    decreases store
  {
    if store != [] {
      AllAlive(store[1..], now);
      assert store == [store[0]] + store[1..];
    }
  }

  lemma {:induction false} EvictDrops(store: Store, maxEntries: int)
    ensures var drop := if |store| < maxEntries then 0 else if maxEntries <= 0 then |store| else |store| - maxEntries + 1;
            Evict(store, maxEntries) == store[drop..]
    decreases store
  {
    if store != [] && |store| >= maxEntries {
      EvictDrops(store[1..], maxEntries);
    }
  }

  lemma {:induction false} FindSlot(store: Store, key: Key)
    requires Distinct(store)
    ensures forall slot | slot in store && slot.key == key :: Find(store, key) == Some(slot)
    ensures Find(store, key).Some? ==> Find(store, key).value in store && Find(store, key).value.key == key
    decreases store
  {
    if store != [] {
      assert store == [store[0]] + store[1..];
      FindSlot(store[1..], key);
    }
  }

  lemma {:induction false} RemoveSlots(store: Store, key: Key)
    requires Distinct(store)
    ensures Distinct(Remove(store, key)) && |Remove(store, key)| <= |store|
    ensures forall slot :: slot in Remove(store, key) <==> slot in store && slot.key != key
    decreases store
  {
    if store != [] {
      TailDistinct(store);
      if store[0].key != key {
        RemoveSlots(store[1..], key);
        ConsDistinct(store[0], Remove(store[1..], key));
      }
    }
  }

  lemma {:induction false} PutSlots(store: Store, slot: Slot)
    requires Distinct(store)
    ensures Distinct(Put(store, slot)) && |Put(store, slot)| <= |store| + 1
    ensures forall other :: other in Put(store, slot) <==> other == slot || (other in store && other.key != slot.key)
    decreases store
  {
    if store != [] {
      TailDistinct(store);
      if store[0].key != slot.key {
        PutSlots(store[1..], slot);
        ConsDistinct(store[0], Put(store[1..], slot));
      } else {
        ConsDistinct(slot, store[1..]);
      }
    }
  }

  // ---- eviction ---------------------------------------------------------------------------

  predicate Capped(store: Store, maxEntries: int) {
    |store| <= if maxEntries < 1 then 1 else maxEntries
  }

  lemma SuffixSlots(store: Store, drop: nat)
    requires Distinct(store) && drop <= |store|
    ensures Distinct(store[drop..])
    ensures forall slot | slot in store[drop..] :: slot in store
  {
  }

  lemma EnforceCapSlots(store: Store, maxEntries: int, now: int)
    requires Distinct(store)
    ensures var capped := EnforceCap(store, maxEntries, now);
            && Distinct(capped)
            && (if maxEntries < 1 then capped == [] else |capped| < maxEntries)
            && forall slot | slot in capped :: slot in store
  {
    if |store| >= maxEntries {
      var swept := Sweep(store, now);
      SweepSlots(store, now);
      EvictDrops(swept, maxEntries);
      SuffixSlots(swept, if |swept| < maxEntries then 0 else if maxEntries <= 0 then |swept| else |swept| - maxEntries + 1);
    }
  }

  /**
   * The precise cost of a `set`.  An unexpired slot of another key is lost exactly when the store
   * is full of unexpired slots and this one is the oldest of them: one slot, the first.
   */
  lemma SetEvictsOnlyTheOldest(store: Store, maxEntries: int, slot: Slot, now: int, other: Slot)
    requires Distinct(store) && Capped(store, maxEntries)
    requires other in store && Alive(other, now) && other.key != slot.key
    ensures other !in AfterSet(store, maxEntries, slot, now) <==>
              |store| >= maxEntries && (forall s | s in store :: Alive(s, now)) && other == store[0]
  {
    var swept := Sweep(store, now);
    SweepSlots(store, now);
    AllAlive(store, now);
    EnforceCapSlots(store, maxEntries, now);
    PutSlots(EnforceCap(store, maxEntries, now), slot);
    EvictDrops(swept, maxEntries);
    if |store| >= maxEntries && |swept| == |store| {
      assert EnforceCap(store, maxEntries, now) == store[1..];
      TailDistinct(store);
    }
  }

  /**
   * A full store loses a slot even when the key being set is already there: with room for two
   * keys and two keys in use, refreshing the second forgets the first.
   */
  lemma RefreshCanEvict(a: Slot, b: Slot, refreshed: Slot)
    requires a.key != b.key && refreshed.key == b.key && Alive(a, 2) && Alive(b, 2)
    ensures var store := AfterSet(AfterSet([], 2, a, 0), 2, b, 1);
            Find(store, a.key) == Some(a) && AfterSet(store, 2, refreshed, 2) == [refreshed]
  {
    var two := [a, b];
    assert Put([a], b) == two;
    assert two[0] == a && Find(two, a.key) == Some(a);
    assert EnforceCap([], 2, 0) == [] && Put([], a) == [a];
    assert EnforceCap([a], 2, 1) == [a];
    assert AfterSet(AfterSet([], 2, a, 0), 2, b, 1) == two;
    AllAlive(two, 2);
    assert Sweep(two, 2) == two;
    assert Evict(two, 2) == two[1..] == [b];
  }

  // ---- runs -------------------------------------------------------------------------------

  datatype Op = GetOp(key: Key, now: int) | SetOp(key: Key, value: Value, now: int)

  function AfterGet(store: Store, key: Key, now: int): Store {
    var found := Find(store, key);
    if found.Some? && !Alive(found.value, now) then Remove(store, key) else store
  }

  function Hit(store: Store, key: Key, now: int): Option<Value> {
    var found := Find(store, key);
    if found.Some? && Alive(found.value, now) then Some(found.value.value) else None
  }

  /** The specification: a plain map of last writes, each good for `ttlMs`. */
  type LastWrites = map<Key, Slot>

  ghost predicate Agrees(store: Store, latest: LastWrites) {
    Distinct(store) && forall slot | slot in store :: slot.key in latest && latest[slot.key] == slot
  }

  function Expected(latest: LastWrites, key: Key, now: int): Option<Value> {
    if key in latest && Alive(latest[key], now) then Some(latest[key].value) else None
  }

  function After(ttlMs: int, maxEntries: int, store: Store, op: Op): Store {
    match op
    case GetOp(key, now) => AfterGet(store, key, now)
    case SetOp(key, value, now) => AfterSet(store, maxEntries, Slot(key, value, now + ttlMs), now)
  }

  function Written(ttlMs: int, latest: LastWrites, op: Op): LastWrites {
    match op
    case GetOp(_, _) => latest
    case SetOp(key, value, now) => latest[key := Slot(key, value, now + ttlMs)]
  }

  function Run(ttlMs: int, maxEntries: int, store: Store, ops: seq<Op>): Store
    decreases ops
  {
    if ops == [] then store else Run(ttlMs, maxEntries, After(ttlMs, maxEntries, store, ops[0]), ops[1..])
  }

  function Writes(ttlMs: int, latest: LastWrites, ops: seq<Op>): LastWrites
    decreases ops
  {
    if ops == [] then latest else Writes(ttlMs, Written(ttlMs, latest, ops[0]), ops[1..])
  }

  lemma AgreesSet(store: Store, latest: LastWrites, maxEntries: int, slot: Slot, now: int)
    requires Agrees(store, latest)
    ensures Agrees(AfterSet(store, maxEntries, slot, now), latest[slot.key := slot])
    ensures Capped(AfterSet(store, maxEntries, slot, now), maxEntries)
  {
    EnforceCapSlots(store, maxEntries, now);
    PutSlots(EnforceCap(store, maxEntries, now), slot);
  }

  lemma AgreesGet(store: Store, latest: LastWrites, key: Key, now: int)
    requires Agrees(store, latest)
    ensures Agrees(AfterGet(store, key, now), latest) && |AfterGet(store, key, now)| <= |store|
    ensures Hit(store, key, now).Some? ==> Hit(store, key, now) == Expected(latest, key, now)
  {
    FindSlot(store, key);
    RemoveSlots(store, key);
  }

  lemma StepAgrees(ttlMs: int, maxEntries: int, store: Store, latest: LastWrites, op: Op)
    requires Agrees(store, latest) && Capped(store, maxEntries)
    ensures Agrees(After(ttlMs, maxEntries, store, op), Written(ttlMs, latest, op))
    ensures Capped(After(ttlMs, maxEntries, store, op), maxEntries)
  {
    if op.GetOp? {
      AgreesGet(store, latest, op.key, op.now);
    } else {
      AgreesSet(store, latest, maxEntries, Slot(op.key, op.value, op.now + ttlMs), op.now);
    }
  }

  lemma {:induction false} RunAgrees(ttlMs: int, maxEntries: int, store: Store, latest: LastWrites, ops: seq<Op>)
    requires Agrees(store, latest) && Capped(store, maxEntries)
    ensures Agrees(Run(ttlMs, maxEntries, store, ops), Writes(ttlMs, latest, ops))
    ensures Capped(Run(ttlMs, maxEntries, store, ops), maxEntries)
    decreases ops
  {
    if ops != [] {
      StepAgrees(ttlMs, maxEntries, store, latest, ops[0]);
      RunAgrees(ttlMs, maxEntries, After(ttlMs, maxEntries, store, ops[0]), Written(ttlMs, latest, ops[0]), ops[1..]);
    }
  }

  /**
   * Over every run, on any clock readings and for every cap: the size stays capped, and a hit is
   * the last value written for its key, still within its time-to-live.
   */
  lemma HitsAreLastWrites(ttlMs: int, maxEntries: int, ops: seq<Op>, key: Key, now: int)
    ensures var store := Run(ttlMs, maxEntries, [], ops);
            && Distinct(store) && Capped(store, maxEntries)
            && (Hit(store, key, now).Some? ==> Hit(store, key, now) == Expected(Writes(ttlMs, map[], ops), key, now))
  {
    RunAgrees(ttlMs, maxEntries, [], map[], ops);
    AgreesGet(Run(ttlMs, maxEntries, [], ops), Writes(ttlMs, map[], ops), key, now);
  }

  /** `ops[i]` is the last set of `key`. */
  predicate LastSet(ops: seq<Op>, key: Key, i: nat) {
    && i < |ops| && ops[i].SetOp? && ops[i].key == key
    && forall j | i < j < |ops| :: !(ops[j].SetOp? && ops[j].key == key)
  }

  lemma {:induction false} WritesAre(ttlMs: int, latest: LastWrites, ops: seq<Op>, key: Key, i: nat)
    requires LastSet(ops, key, i)
    ensures key in Writes(ttlMs, latest, ops)
    ensures Writes(ttlMs, latest, ops)[key] == Slot(key, ops[i].value, ops[i].now + ttlMs)
    decreases ops
  {
    var next := Written(ttlMs, latest, ops[0]);
    if i > 0 {
      assert LastSet(ops[1..], key, i - 1);
      WritesAre(ttlMs, next, ops[1..], key, i - 1);
    } else {
      assert forall j | 0 <= j < |ops[1..]| :: ops[1..][j] == ops[j + 1];
      WritesAreNot(ttlMs, next, ops[1..], key);
    }
  }

  lemma {:induction false} WritesAreNot(ttlMs: int, latest: LastWrites, ops: seq<Op>, key: Key)
    requires forall j | 0 <= j < |ops| :: !(ops[j].SetOp? && ops[j].key == key)
    ensures key in Writes(ttlMs, latest, ops) <==> key in latest
    ensures key in latest ==> Writes(ttlMs, latest, ops)[key] == latest[key]
    decreases ops
  {
    if ops != [] {
      assert !(ops[0].SetOp? && ops[0].key == key);
      WritesAreNot(ttlMs, Written(ttlMs, latest, ops[0]), ops[1..], key);
    }
  }

  lemma {:induction false} SomeLastSet(ops: seq<Op>, key: Key) returns (i: nat)
    requires exists j | 0 <= j < |ops| :: ops[j].SetOp? && ops[j].key == key
    ensures LastSet(ops, key, i)
  {
    var last := ops[|ops| - 1];
    if last.SetOp? && last.key == key {
      return |ops| - 1;
    }
    var front := ops[..|ops| - 1];
    var j :| 0 <= j < |ops| && ops[j].SetOp? && ops[j].key == key;
    assert front[j] == ops[j];
    i := SomeLastSet(front, key);
  }

  /** In terms of the operations: what a look-up may answer is the value of the last set, for `ttlMs`. */
  lemma ExpectedIsLastSet(ttlMs: int, ops: seq<Op>, key: Key, now: int, value: Value)
    ensures Expected(Writes(ttlMs, map[], ops), key, now) == Some(value) <==>
            exists i: nat :: LastSet(ops, key, i) && ops[i].value == value && now < ops[i].now + ttlMs
  {
    if exists j | 0 <= j < |ops| :: ops[j].SetOp? && ops[j].key == key {
      var i := SomeLastSet(ops, key);
      WritesAre(ttlMs, map[], ops, key, i);
      forall k: nat | LastSet(ops, key, k) ensures k == i {
      }
    } else {
      WritesAreNot(ttlMs, map[], ops, key);
    }
  }

  // ---- when an unexpired write misses ------------------------------------------------------

  /** This operation pushes the live entry of `key` out: the store is full of live ones, it the oldest. */
  ghost predicate PushesOut(store: Store, maxEntries: int, op: Op, key: Key) {
    && op.SetOp? && op.key != key
    && |store| >= maxEntries && store != [] && store[0].key == key
    && forall slot | slot in store :: Alive(slot, op.now)
  }

  /** Keys pushed out since they were last set. */
  ghost function Pushed(gone: set<Key>, store: Store, maxEntries: int, op: Op): set<Key> {
    if op.GetOp? then gone
    else (gone - {op.key}) + if store != [] && PushesOut(store, maxEntries, op, store[0].key) then {store[0].key} else {}
  }

  ghost function AllPushed(gone: set<Key>, ttlMs: int, maxEntries: int, store: Store, ops: seq<Op>): set<Key>
    decreases ops
  {
    if ops == [] then gone
    else AllPushed(Pushed(gone, store, maxEntries, ops[0]), ttlMs, maxEntries, After(ttlMs, maxEntries, store, ops[0]), ops[1..])
  }

  /** The last writes that are unexpired at time `at` are in the store, but for the keys in `gone`. */
  ghost predicate Exact(store: Store, latest: LastWrites, gone: set<Key>, at: int) {
    && gone <= latest.Keys && (forall key | key in latest :: latest[key].key == key)
    && (forall slot | slot in store :: slot.key !in gone)
    && (forall key | key in latest && key !in gone && Alive(latest[key], at) :: latest[key] in store)
  }

  lemma ExactGet(store: Store, latest: LastWrites, gone: set<Key>, at: int, key: Key, now: int)
    requires Agrees(store, latest) && Exact(store, latest, gone, at) && now <= at
    ensures Exact(AfterGet(store, key, now), latest, gone, at)
  {
    FindSlot(store, key);
    RemoveSlots(store, key);
  }

  lemma ExactSet(store: Store, latest: LastWrites, gone: set<Key>, at: int, maxEntries: int, op: Op, slot: Slot)
    requires Agrees(store, latest) && Capped(store, maxEntries) && Exact(store, latest, gone, at) && op.now <= at
    requires op.SetOp? && slot.key == op.key
    ensures Exact(AfterSet(store, maxEntries, slot, op.now), latest[slot.key := slot],
                  Pushed(gone, store, maxEntries, op), at)
  {
    var after := AfterSet(store, maxEntries, slot, op.now);
    var pushed := Pushed(gone, store, maxEntries, op);
    EnforceCapSlots(store, maxEntries, op.now);
    PutSlots(EnforceCap(store, maxEntries, op.now), slot);
    if store != [] && PushesOut(store, maxEntries, op, store[0].key) {
      SetEvictsOnlyTheOldest(store, maxEntries, slot, op.now, store[0]);
      assert forall other | other in after && other.key != slot.key :: other in store;
    }
    forall key | key in latest[slot.key := slot] && key !in pushed && Alive(latest[slot.key := slot][key], at)
      ensures latest[slot.key := slot][key] in after
    {
      if key != slot.key {
        assert latest[key] in store;
        SetEvictsOnlyTheOldest(store, maxEntries, slot, op.now, latest[key]);
      }
    }
  }

  lemma ExactStep(ttlMs: int, maxEntries: int, store: Store, latest: LastWrites, gone: set<Key>, at: int, op: Op)
    requires Agrees(store, latest) && Capped(store, maxEntries) && Exact(store, latest, gone, at) && op.now <= at
    ensures Exact(After(ttlMs, maxEntries, store, op), Written(ttlMs, latest, op), Pushed(gone, store, maxEntries, op), at)
  {
    if op.GetOp? {
      ExactGet(store, latest, gone, at, op.key, op.now);
    } else {
      ExactSet(store, latest, gone, at, maxEntries, op, Slot(op.key, op.value, op.now + ttlMs));
    }
  }

  lemma {:induction false} ExactRun(
    ttlMs: int, maxEntries: int, store: Store, latest: LastWrites, gone: set<Key>, at: int, ops: seq<Op>)
    requires Agrees(store, latest) && Capped(store, maxEntries) && Exact(store, latest, gone, at)
    requires forall i | 0 <= i < |ops| :: ops[i].now <= at
    ensures Exact(Run(ttlMs, maxEntries, store, ops), Writes(ttlMs, latest, ops),
                  AllPushed(gone, ttlMs, maxEntries, store, ops), at)
    decreases ops
  {
    if ops != [] {
      var op := ops[0];
      StepAgrees(ttlMs, maxEntries, store, latest, op);
      ExactStep(ttlMs, maxEntries, store, latest, gone, at, op);
      ExactRun(ttlMs, maxEntries, After(ttlMs, maxEntries, store, op), Written(ttlMs, latest, op),
               Pushed(gone, store, maxEntries, op), at, ops[1..]);
    }
  }

  /**
   * Exactness, for operations in any order of their times, a set with a time read before an await
   * included, as long as none is later than the look-up: an unexpired last write misses if and only
   * if, since it was made, some set found the store full of unexpired entries with this one the
   * oldest.
   */
  lemma MissesArePushedOut(ttlMs: int, maxEntries: int, ops: seq<Op>, key: Key, now: int)
    requires forall i | 0 <= i < |ops| :: ops[i].now <= now
    ensures var (store, latest) := (Run(ttlMs, maxEntries, [], ops), Writes(ttlMs, map[], ops));
            Expected(latest, key, now).Some? ==>
              (Hit(store, key, now) == Expected(latest, key, now) <==> key !in AllPushed({}, ttlMs, maxEntries, [], ops))
  {
    RunAgrees(ttlMs, maxEntries, [], map[], ops);
    ExactRun(ttlMs, maxEntries, [], map[], {}, now, ops);
    FindSlot(Run(ttlMs, maxEntries, [], ops), key);
  }

  // ---- the object -------------------------------------------------------------------------

  /** One turn of the sweep: drop the slot at `i`, or step over it. */
  lemma SweepAt(store: Store, i: nat, now: int)
    requires i < |store|
    ensures !Alive(store[i], now) ==>
              var rest := store[..i] + store[i + 1..];
              rest[..i] == store[..i] && Sweep(rest[i..], now) == Sweep(store[i..], now)
    ensures Alive(store[i], now) ==>
              store[..i + 1] + Sweep(store[i + 1..], now) == store[..i] + Sweep(store[i..], now)
  {
  }

  class Cache {
    const ttlMs: int
    const maxEntries: int
    var store: Store

    constructor (ttlMs: int, maxEntries: int)
      ensures this.ttlMs == ttlMs && this.maxEntries == maxEntries && store == []
    {
      this.ttlMs, this.maxEntries, store := ttlMs, maxEntries, [];
    }

    method SweepExpired(now: int)
      modifies this
      ensures store == Sweep(old(store), now)
    {
      var i := 0;
      while i < |store|
        invariant 0 <= i <= |store|
        invariant store[..i] + Sweep(store[i..], now) == Sweep(old(store), now)
        decreases |store| - i
      {
        SweepAt(store, i, now);
        if !Alive(store[i], now) {
          store := store[..i] + store[i + 1..];
        } else {
          i := i + 1;
        }
      }
      assert store[i..] == [] && store[..i] == store;
    }

    method Enforce(now: int)
      modifies this
      ensures store == EnforceCap(old(store), maxEntries, now)
    {
      if |store| < maxEntries {
        return;
      }
      SweepExpired(now);
      while |store| >= maxEntries
        invariant Evict(store, maxEntries) == Evict(Sweep(old(store), now), maxEntries)
        decreases |store|
      {
        if store == [] {
          break;
        }
        store := store[1..];
      }
    }

    method Get(key: Key, now: int) returns (value: Option<Value>)
      requires Distinct(store)
      modifies this
      ensures value == Hit(old(store), key, now)
      ensures store == AfterGet(old(store), key, now) && Distinct(store)
      ensures value.Some? <==> exists slot | slot in old(store) :: slot.key == key && now < slot.expiresAt
      ensures value.Some? ==> forall slot | slot in old(store) && slot.key == key :: value == Some(slot.value)
      ensures forall slot :: slot in store <==> slot in old(store) && (slot.key == key ==> now < slot.expiresAt)
    {
      FindSlot(store, key);
      RemoveSlots(store, key);
      var found := Find(store, key);
      if found.None? {
        return None;
      }
      if found.value.expiresAt <= now {
        store := Remove(store, key);
        return None;
      }
      return Some(found.value.value);
    }

    method Set(key: Key, value: Value, now: int)
      requires Distinct(store)
      modifies this
      ensures store == AfterSet(old(store), maxEntries, Slot(key, value, now + ttlMs), now)
      ensures Distinct(store) && Capped(store, maxEntries)
    {
      EnforceCapSlots(store, maxEntries, now);
      Enforce(now);
      PutSlots(store, Slot(key, value, now + ttlMs));
      store := Put(store, Slot(key, value, now + ttlMs));
    }
  }
}
