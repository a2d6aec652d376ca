/**
 * The anti-stampede bound: however many calls of `read` compete for one key, the loader runs at
 * most once, plus once for every entry that went away, every load that threw, and every lock
 * that expired under a holder still before its set.
 */
module CacheStampede {
  import opened Prelude
  import opened CacheProtocol

  /**
   * The counters count what they say: calls of the loader, loads that were stored, loads that threw
   * before that, and entries that went away.
   */
  lemma CountersCount(s: State, step: Step)
    requires Enabled(s, step)
    ensures var (before, after) := (s.stats, Apply(s, step).stats);
            && after.loads == before.loads + (if step.Recheck? && s.entry == None then 1 else 0)
            && after.stored == before.stored + (if step.Store? then 1 else 0)
            && after.aborts == before.aborts
               + (if step.Fails? && (s.pcs[step.p].Loading? || s.pcs[step.p].Storing?) then 1 else 0)
            && after.removals == before.removals + (if s.entry.Some? && Apply(s, step).entry == None then 1 else 0)
  {
  }

  ghost function LoadingSet(s: State): set<Pid> {
    set p | p in s.pcs && InFlight(s.pcs[p])
  }

  /** Calls in flight that still own the lock: at most one. */
  ghost function Guarded(s: State): set<Pid> {
    set p | p in s.pcs && InFlight(s.pcs[p]) && Owns(s.lock, s.pcs[p])
  }

  /** Calls before the end of their set whose lock is gone. */
  ghost function Orphans(s: State): set<Pid> {
    set p | p in s.pcs && Critical(s.pcs[p]) && !Owns(s.lock, s.pcs[p])
  }

  ghost function Cover(s: State): nat {
    if s.entry.Some? || Guarded(s) != {} then 1 else 0
  }

  /**
   * The accounting behind the bound.  Every load is stored, aborted or still in flight; and the
   * loads not yet aborted are paid for by removals, by overruns, and by one entry or guarded load.
   */
  ghost predicate Accounts(s: State) {
    && LockInv(s)
    && s.stats.loads == s.stats.stored + s.stats.aborts + |LoadingSet(s)|
    && s.stats.stored + |Guarded(s)| + |Orphans(s)| <= s.stats.removals + s.stats.overruns + Cover(s)
  }

  lemma GuardedAtMostOne(s: State)
    requires LockInv(s)
    ensures |Guarded(s)| <= 1
  {
    AtMostOne(Guarded(s));
  }

  function One(b: bool): nat { if b then 1 else 0 }

  lemma Resize(a: set<Pid>, b: set<Pid>, p: Pid)
    requires a - {p} == b - {p}
    ensures |b| == |a| - One(p in a) + One(p in b)
  {
    assert a == (if p in a then a - {p} + {p} else a - {p});
    assert b == (if p in b then b - {p} + {p} else b - {p});
  }

  /** What moving one call `p` to `pc` does to the three sets, while the lock stays put. */
  lemma Moved(s: State, t: State, p: Pid, pc: Pc)
    requires t.pcs == s.pcs[p := pc] && t.lock == s.lock
    ensures |LoadingSet(t)| == |LoadingSet(s)| - One(p in LoadingSet(s)) + One(InFlight(pc))
    ensures |Guarded(t)| == |Guarded(s)| - One(p in Guarded(s)) + One(InFlight(pc) && Owns(s.lock, pc))
    ensures |Orphans(t)| == |Orphans(s)| - One(p in Orphans(s)) + One(Critical(pc) && !Owns(s.lock, pc))
  {
    Resize(LoadingSet(s), LoadingSet(t), p);
    Resize(Guarded(s), Guarded(t), p);
    Resize(Orphans(s), Orphans(t), p);
  }

  /** A fresh token owns nothing before it takes the lock, and the lock was free before. */
  lemma Taken(s: State, t: State, p: Pid, token: Token, expiresAt: nat)
    requires LockInv(s) && p in s.pcs && s.pcs[p].Locking? && token !in s.used && s.lock.None?
    requires t.pcs == s.pcs[p := Rechecking(token)] || t.pcs == s.pcs[p := Finished(Threw)]
    requires t.lock == Some(Lock(token, expiresAt))
    ensures LoadingSet(t) == LoadingSet(s) && Guarded(t) == Guarded(s) == {} && Orphans(t) == Orphans(s)
  {
  }

  lemma ReaderStep(s: State, step: Step)
    requires Accounts(s) && Enabled(s, step)
    requires step.Spawn? || step.Get? || step.Sample? || step.Poll?
    ensures Accounts(Apply(s, step))
  {
    var t := Apply(s, step);
    LockInvStep(s, step);
    Moved(s, t, step.p, t.pcs[step.p]);
  }

  lemma WriterStep(s: State, step: Step)
    requires Accounts(s) && Enabled(s, step)
    requires step.DbWrite? || step.Invalidate? || step.Fill?
    ensures Accounts(Apply(s, step))
  {
  }

  lemma AcquireStep(s: State, step: Step)
    requires Accounts(s) && Enabled(s, step) && step.Acquire?
    ensures Accounts(Apply(s, step))
  {
    var t := Apply(s, step);
    LockInvStep(s, step);
    if s.lock.None? {
      Taken(s, t, step.p, step.token, s.now + step.ttlMs);
    } else {
      Moved(s, t, step.p, t.pcs[step.p]);
    }
  }

  /** A miss under the lock starts the only guarded load there is. */
  lemma RecheckStep(s: State, p: Pid)
    requires Accounts(s) && Enabled(s, Recheck(p))
    ensures Accounts(Apply(s, Recheck(p)))
  {
    var t := Apply(s, Recheck(p));
    LockInvStep(s, Recheck(p));
    Moved(s, t, p, t.pcs[p]);
    if Owns(s.lock, s.pcs[p]) {
      assert Guarded(s) == {};
      assert s.entry.None? ==> p in Guarded(t);
    }
  }

  lemma StoreStep(s: State, p: Pid, ttl: nat, lost: bool)
    requires Accounts(s) && Enabled(s, Store(p, ttl, lost))
    ensures Accounts(Apply(s, Store(p, ttl, lost)))
  {
    var t := Apply(s, Store(p, ttl, lost));
    LockInvStep(s, Store(p, ttl, lost));
    Moved(s, t, p, t.pcs[p]);
    assert p in Guarded(s) || p in Orphans(s);
  }

  lemma FailsStep(s: State, p: Pid)
    requires Accounts(s) && Enabled(s, Fails(p))
    ensures Accounts(Apply(s, Fails(p)))
  {
    var t := Apply(s, Fails(p));
    LockInvStep(s, Fails(p));
    GuardedAtMostOne(s);
    Moved(s, t, p, t.pcs[p]);
    if p !in Guarded(s) {
      assert Guarded(s) <= Guarded(t);
    }
  }

  /** Releasing is past the set, so the lock it frees guarded no load. */
  lemma ReleaseStep(s: State, p: Pid, lost: bool)
    requires Accounts(s) && Enabled(s, Release(p, lost))
    ensures Accounts(Apply(s, Release(p, lost)))
  {
    var t := Apply(s, Release(p, lost));
    LockInvStep(s, Release(p, lost));
    assert LoadingSet(t) == LoadingSet(s);
    if Owns(s.lock, s.pcs[p]) {
      assert Guarded(s) == {} && Guarded(t) == {};
    } else {
      assert Guarded(t) == Guarded(s);
    }
    assert Orphans(t) == Orphans(s);
  }

  /** The lock is gone: a busy holder becomes an orphan and counts as an overrun. */
  lemma LockGone(s: State, t: State)
    requires Accounts(s) && LockInv(t) && t.pcs == s.pcs && t.lock.None?
    requires t.stats.loads == s.stats.loads && t.stats.stored == s.stats.stored && t.stats.aborts == s.stats.aborts
    requires t.stats.overruns == s.stats.overruns + One(HolderBusy(s))
    requires t.stats.removals == s.stats.removals + One(t.entry.None? && s.entry.Some?)
    requires s.entry.None? ==> t.entry.None?
    ensures Accounts(t)
  {
    assert LoadingSet(t) == LoadingSet(s);
    assert Guarded(t) == {};
    if p :| p in s.pcs && Critical(s.pcs[p]) && Owns(s.lock, s.pcs[p]) {
      assert Orphans(t) == Orphans(s) + {p};
      assert Guarded(s) == {} || Guarded(s) == {p};
    } else {
      assert Orphans(t) == Orphans(s);
      assert Guarded(s) == {};
    }
  }

  lemma ClockStep(s: State, step: Step)
    requires Accounts(s) && (step.Tick? || step.Flush?)
    ensures Accounts(Apply(s, step))
  {
    var t := Apply(s, step);
    LockInvStep(s, step);
    if t.lock == s.lock {
      assert LoadingSet(t) == LoadingSet(s) && Guarded(t) == Guarded(s) && Orphans(t) == Orphans(s);
    } else {
      LockGone(s, t);
    }
  }

  lemma AccountsStep(s: State, step: Step)
    requires Accounts(s) && Enabled(s, step)
    ensures Accounts(Apply(s, step))
  {
    match step
    case Acquire(_, _, _, _) => AcquireStep(s, step);
    case Recheck(p) => RecheckStep(s, p);
    case Store(p, ttl, lost) => StoreStep(s, p, ttl, lost);
    case Fails(p) => FailsStep(s, p);
    case Release(p, lost) => ReleaseStep(s, p, lost);
    case Tick(_) | Flush => ClockStep(s, step);
    case Spawn(_) | Get(_) | Sample(_) | Poll(_, _) => ReaderStep(s, step);
    case DbWrite(_) | Invalidate | Fill(_, _) => WriterStep(s, step);
  }

  lemma {:induction false} AccountsRun(s: State, steps: seq<Step>)
    requires Accounts(s) && Legal(s, steps)
    ensures Accounts(Final(s, steps))
    decreases steps
  {
    if steps != [] {
      AccountsStep(s, steps[0]);
      AccountsRun(Apply(s, steps[0]), steps[1..]);
    }
  }

  /** The bound, with no hypothesis on timing: late holders are counted, not excluded. */
  lemma {:induction false} StampedeBound(s: State, steps: seq<Step>)
    requires Initial(s) && Legal(s, steps)
    ensures var n := Final(s, steps).stats;
            n.loads <= 1 + n.removals + n.aborts + n.overruns
  {
    assert LoadingSet(s) == {} && Guarded(s) == {} && Orphans(s) == {};
    AccountsRun(s, steps);
    var t := Final(s, steps);
    assert LoadingSet(t) <= Guarded(t) + Orphans(t);
    SubsetSize(LoadingSet(t), Guarded(t) + Orphans(t));
  }

  /** Every lock outlives its holder's load and set: no tick or flush takes a lock from such a holder. */
  ghost predicate LocksOutlive(s: State, steps: seq<Step>)
    requires Legal(s, steps)
    decreases steps
  {
    steps != [] ==>
      && ((steps[0].Tick? || steps[0].Flush?) && HolderBusy(s) ==> Apply(s, steps[0]).lock == s.lock)
      && LocksOutlive(Apply(s, steps[0]), steps[1..])
  }

  lemma OverrunStep(s: State, step: Step)
    requires Enabled(s, step)
    ensures s.stats.overruns <= Apply(s, step).stats.overruns
    ensures Apply(s, step).stats.overruns == s.stats.overruns <==>
            ((step.Tick? || step.Flush?) && HolderBusy(s) ==> Apply(s, step).lock == s.lock)
  {
  }

  /** The overrun counter counts exactly the locks taken from busy holders. */
  lemma {:induction false} NoOverruns(s: State, steps: seq<Step>)
    requires Legal(s, steps)
    ensures s.stats.overruns <= Final(s, steps).stats.overruns
    ensures LocksOutlive(s, steps) <==> Final(s, steps).stats.overruns == s.stats.overruns
    decreases steps
  {
    if steps != [] {
      OverrunStep(s, steps[0]);
      NoOverruns(Apply(s, steps[0]), steps[1..]);
    }
  }

  /**
   * With locks that outlive their holders' loads, at most one call is ever between the loader
   * call and the end of the set, and the loader runs at most 1 + removals + aborts times.
   */
  lemma {:induction false} StampedeBoundTimely(s: State, steps: seq<Step>)
    requires Initial(s) && Legal(s, steps) && LocksOutlive(s, steps)
    ensures var n := Final(s, steps).stats; n.loads <= 1 + n.removals + n.aborts
    ensures forall p, q | p in LoadingSet(Final(s, steps)) && q in LoadingSet(Final(s, steps)) :: p == q
  {
    StampedeBound(s, steps);
    NoOverruns(s, steps);
    assert Orphans(s) == {};
    OrphanFreeRun(s, steps);
    LockInvRun(s, steps);
    var t := Final(s, steps);
    forall p | p in LoadingSet(t) ensures Owns(t.lock, t.pcs[p]) {
      assert p !in Orphans(t);
    }
  }

  lemma OrphanFreeStep(s: State, step: Step)
    requires LockInv(s) && Enabled(s, step) && Orphans(s) == {}
    requires (step.Tick? || step.Flush?) && HolderBusy(s) ==> Apply(s, step).lock == s.lock
    ensures Orphans(Apply(s, step)) == {}
  {
  }

  lemma {:induction false} OrphanFreeRun(s: State, steps: seq<Step>)
    requires LockInv(s) && Legal(s, steps) && LocksOutlive(s, steps) && Orphans(s) == {}
    ensures Orphans(Final(s, steps)) == {}
    decreases steps
  {
    if steps != [] {
      var t := Apply(s, steps[0]);
      LockInvStep(s, steps[0]);
      OrphanFreeStep(s, steps[0]);
      OrphanFreeRun(t, steps[1..]);
    }
  }

  /** Where the runs below stand: call `p` loads under lock `p`, and later calls and tokens are unused. */
  ghost predicate LoadingLast(s: State, p: nat) {
    && s.entry == None && s.lock == Some(Lock(p, s.now + 5000))
    && p in s.pcs && s.pcs[p] == Loading(p)
    && forall q: nat | p < q :: q !in s.pcs && q !in s.used
  }

  lemma LoadsToo(s: State, steps: seq<Step>, p: nat) returns (more: seq<Step>)
    requires Legal(s, steps)
    requires var t := Final(s, steps);
             t.entry == None && t.lock == None && forall q: nat | p <= q :: q !in t.pcs && q !in t.used
    ensures Legal(s, more) && LoadingLast(Final(s, more), p)
    ensures Final(s, more).stats == Final(s, steps).stats.(loads := Final(s, steps).stats.loads + 1)
  {
    more := steps;
    Extend(s, more, Spawn(p)); more := more + [Spawn(p)];
    Extend(s, more, Get(p)); more := more + [Get(p)];
    Extend(s, more, Acquire(p, p, 5000, false)); more := more + [Acquire(p, p, 5000, false)];
    Extend(s, more, Recheck(p)); more := more + [Recheck(p)];
  }

  /**
   * The bound is tight in the overruns: for every n, some run loses n locks under slow loaders and
   * loads n + 1 times, although nothing was removed and nothing threw.
   */
  lemma {:induction false} OverrunsCostLoads(s: State, n: nat) returns (steps: seq<Step>)
    requires Initial(s)
    ensures Legal(s, steps) && LoadingLast(Final(s, steps), n)
    ensures Final(s, steps).stats == Stats(n + 1, 0, 0, 0, n)
  {
    if n == 0 {
      steps := LoadsToo(s, [], 0);
    } else {
      steps := OverrunsCostLoads(s, n - 1);
      var t := Final(s, steps);
      assert Critical(t.pcs[n - 1]) && Owns(t.lock, t.pcs[n - 1]);
      Extend(s, steps, Tick(5000));
      steps := LoadsToo(s, steps + [Tick(5000)], n);
    }
  }
}
