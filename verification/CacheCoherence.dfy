/**
 * Coherence of the read-through cache with the database: exactly when every later read returns
 * what the loader would return now, and why overlapping a read with a write breaks it.
 */
module CacheCoherence {
  import opened Prelude
  import opened CacheProtocol

  /** No cached entry and no call in progress carries anything but the database's value. */
  ghost predicate Clean(s: State) {
    && (s.entry.Some? ==> s.entry.value.data == s.db)
    && CleanCalls(s)
  }

  ghost predicate CleanCalls(s: State) {
    forall p :: p in s.pcs ==> CleanCall(s.pcs[p], s.db)
  }

  predicate CleanCall(pc: Pc, db: Data) {
    && (pc.Storing? ==> pc.data == db)
    && (pc.Releasing? && pc.out.Value? ==> pc.out.data == db)
  }

  /** No step of the run changes the database or puts unrelated data in the cache. */
  predicate DbQuiet(steps: seq<Step>) {
    forall i :: 0 <= i < |steps| ==> !steps[i].DbWrite? && !steps[i].Fill?
  }

  predicate Returned(s: State, p: Pid, data: Data) {
    p in s.pcs && s.pcs[p] == Finished(Value(data))
  }

  /** Whatever happens next, short of database writes, every read that returns is right. */
  ghost predicate FutureReadsFresh(s: State) {
    forall steps, p, data | Legal(s, steps) && DbQuiet(steps) && Returned(Final(s, steps), p, data) ::
      Returned(s, p, data) || data == s.db
  }

  lemma CleanStep(s: State, step: Step)
    requires Clean(s) && Enabled(s, step) && !step.DbWrite? && !step.Fill?
    ensures Clean(Apply(s, step)) && Apply(s, step).db == s.db
    ensures forall p, data | Returned(Apply(s, step), p, data) :: Returned(s, p, data) || data == s.db
  {
  }

  lemma {:induction false} CleanRun(s: State, steps: seq<Step>)
    requires Clean(s) && Legal(s, steps) && DbQuiet(steps)
    ensures Clean(Final(s, steps)) && Final(s, steps).db == s.db
    ensures forall p, data | Returned(Final(s, steps), p, data) :: Returned(s, p, data) || data == s.db
    decreases steps
  {
    if steps != [] {
      CleanStep(s, steps[0]);
      CleanRun(Apply(s, steps[0]), steps[1..]);
    }
  }

  /** A stale entry is returned by the next read; a stale sample is returned by its own call. */
  lemma {:induction false} DirtyReadExists(s: State) returns (steps: seq<Step>, p: Pid, data: Data)
    requires !Clean(s)
    ensures Legal(s, steps) && DbQuiet(steps)
    ensures Returned(Final(s, steps), p, data) && !Returned(s, p, data) && data != s.db
  {
    steps := [];
    if s.entry.Some? && s.entry.value.data != s.db {
      p := FreshNat(s.pcs.Keys);
      data := s.entry.value.data;
      Extend(s, steps, Spawn(p)); steps := steps + [Spawn(p)];
      Extend(s, steps, Get(p)); steps := steps + [Get(p)];
    } else {
      p :| p in s.pcs && !CleanCall(s.pcs[p], s.db);
      if s.pcs[p].Storing? {
        data := s.pcs[p].data;
        Extend(s, steps, Store(p, 1, false)); steps := steps + [Store(p, 1, false)];
      } else {
        data := s.pcs[p].out.data;
      }
      Extend(s, steps, Release(p, false)); steps := steps + [Release(p, false)];
    }
  }

  /** The exact condition: reads stay fresh from here on if and only if nothing stale is in play. */
  lemma CoherenceExact(s: State)
    ensures FutureReadsFresh(s) <==> Clean(s)
  {
    if Clean(s) {
      forall steps, p, data | Legal(s, steps) && DbQuiet(steps) && Returned(Final(s, steps), p, data)
        ensures Returned(s, p, data) || data == s.db
      {
        CleanRun(s, steps);
      }
    } else {
      var steps, p, data := DirtyReadExists(s);
      assert !FutureReadsFresh(s);
    }
  }

  /** An invalidation, whenever it comes, restores coherence exactly when no unfinished read is stale. */
  lemma InvalidateRestores(u: State)
    ensures FutureReadsFresh(Apply(u, Invalidate)) <==> CleanCalls(u)
  {
    CoherenceExact(Apply(u, Invalidate));
  }

  /** A write-through, or a warm-up, does so exactly when it also stores what the database holds. */
  lemma FillRestores(u: State, data: Data, ttl: nat)
    ensures FutureReadsFresh(Apply(u, Fill(data, ttl))) <==> data == u.db && CleanCalls(u)
  {
    CoherenceExact(Apply(u, Fill(data, ttl)));
  }

  /**
   * What a role update or delete does, a write and later, with anything in between, other updates
   * included, the invalidation, restores coherence exactly when at the invalidation no unfinished
   * read holds a value that the database does not hold any more.
   */
  lemma WriteThenInvalidate(s: State, data: Data, between: seq<Step>)
    requires Legal(Apply(s, DbWrite(data)), between)
    ensures var u := Final(Apply(s, DbWrite(data)), between);
            FutureReadsFresh(Apply(u, Invalidate)) <==> forall p :: p in u.pcs ==> CleanCall(u.pcs[p], u.db)
  {
    InvalidateRestores(Final(Apply(s, DbWrite(data)), between));
  }

  ghost predicate NoReadActive(s: State) {
    forall p :: p in s.pcs ==> s.pcs[p].Finished?
  }

  /**
   * Reads and writes take turns: the database changes only while no read is active, and from
   * then until the invalidation (`dirty`) no read starts.
   */
  ghost predicate TakesTurns(s: State, dirty: bool, steps: seq<Step>)
    requires Legal(s, steps)
    decreases steps
  {
    steps == [] || (
      var step := steps[0];
      && !step.Fill?
      && (step.DbWrite? ==> NoReadActive(s))
      && (dirty ==> !step.Spawn?)
      && TakesTurns(Apply(s, step), step.DbWrite? || (dirty && !step.Invalidate?), steps[1..]))
  }

  /** Each read that returns a value returns the database's value of that very moment. */
  ghost predicate EveryReadRight(s: State, steps: seq<Step>)
    requires Legal(s, steps)
    decreases steps
  {
    steps == [] || (
      var t := Apply(s, steps[0]);
      && (forall p, data | Returned(t, p, data) :: Returned(s, p, data) || data == t.db)
      && EveryReadRight(t, steps[1..]))
  }

  lemma {:induction false} TurnsKeepReadsRight(s: State, dirty: bool, steps: seq<Step>)
    requires Legal(s, steps) && TakesTurns(s, dirty, steps)
    requires if dirty then NoReadActive(s) else Clean(s)
    ensures EveryReadRight(s, steps)
    decreases steps
  {
    if steps != [] {
      var step := steps[0];
      var t := Apply(s, step);
      if !dirty && !step.DbWrite? {
        CleanStep(s, step);
      }
      TurnsKeepReadsRight(t, step.DbWrite? || (dirty && !step.Invalidate?), steps[1..]);
    }
  }

  lemma CoherentRuns(s: State, steps: seq<Step>)
    requires Initial(s) && Legal(s, steps) && TakesTurns(s, false, steps)
    ensures EveryReadRight(s, steps)
  {
    TurnsKeepReadsRight(s, false, steps);
  }

  /** Without the turns: a load that straddles a write leaves its old data behind, past the `del`. */
  lemma StaleFill(s: State, newer: Data) returns (steps: seq<Step>)
    requires Initial(s) && newer != s.db
    ensures Legal(s, steps) && Final(s, steps).db == newer
    ensures Final(s, steps).entry == Some(Entry(s.db, Some(s.now + 60)))
    ensures !FutureReadsFresh(Final(s, steps))
  {
    steps := [];
    Extend(s, steps, Spawn(0)); steps := steps + [Spawn(0)];
    Extend(s, steps, Get(0)); steps := steps + [Get(0)];
    Extend(s, steps, Acquire(0, 7, 5000, false)); steps := steps + [Acquire(0, 7, 5000, false)];
    Extend(s, steps, Recheck(0)); steps := steps + [Recheck(0)];
    Extend(s, steps, Sample(0)); steps := steps + [Sample(0)];
    Extend(s, steps, DbWrite(newer)); steps := steps + [DbWrite(newer)];
    Extend(s, steps, Invalidate); steps := steps + [Invalidate];
    Extend(s, steps, Store(0, 60, false)); steps := steps + [Store(0, 60, false)];
    CoherenceExact(Final(s, steps));
  }
}
