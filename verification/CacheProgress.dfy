/**
 * When a read of the cache may throw, and that it can always finish: only its own failing commands
 * make it throw, and with none it gets to a value whatever the others do and leave behind.
 */
module CacheProgress {
  import opened Prelude
  import opened CacheProtocol

  // ---- throwing ---------------------------------------------------------------------------

  /** A command of call `p`, or its loader, throws. */
  predicate FaultOf(step: Step, p: Pid) {
    || step == Fails(p)
    || ((step.Acquire? || step.Store? || step.Release?) && step.p == p && step.lost)
  }

  predicate Throwing(pc: Pc) {
    (pc.Finished? && pc.outcome.Threw?) || (pc.Releasing? && pc.out.Threw?)
  }

  predicate Faultless(steps: seq<Step>, p: Pid) {
    forall i | 0 <= i < |steps| :: !FaultOf(steps[i], p)
  }

  lemma ThrowStep(s: State, step: Step, p: Pid)
    requires Enabled(s, step) && p in Apply(s, step).pcs && Throwing(Apply(s, step).pcs[p])
    ensures FaultOf(step, p) || (p in s.pcs && Throwing(s.pcs[p]))
  {
  }

  lemma {:induction false} ThrowRun(s: State, steps: seq<Step>, p: Pid)
    requires Legal(s, steps) && (p in s.pcs ==> !Throwing(s.pcs[p])) && Faultless(steps, p)
    ensures p in Final(s, steps).pcs ==> !Throwing(Final(s, steps).pcs[p])
    decreases steps
  {
    if steps != [] {
      var t := Apply(s, steps[0]);
      assert !FaultOf(steps[0], p);
      if p in t.pcs && Throwing(t.pcs[p]) {
        ThrowStep(s, steps[0], p);
      }
      ThrowRun(t, steps[1..], p);
    }
  }

  /** A read throws only when one of its own commands or its loader threw. */
  lemma ThrowsOnlyOnFaults(s: State, steps: seq<Step>, p: Pid)
    requires Initial(s) && Legal(s, steps) && p in Final(s, steps).pcs && Final(s, steps).pcs[p] == Finished(Threw)
    ensures exists i | 0 <= i < |steps| :: FaultOf(steps[i], p)
  {
    if Faultless(steps, p) {
      ThrowRun(s, steps, p);
    }
  }

  // ---- finishing --------------------------------------------------------------------------

  /** Steps of call `p` alone and of the clock, none failing, with the call's own `maxAttempts`. */
  predicate OwnStep(step: Step, p: Pid, maxAttempts: nat) {
    match step
    case Get(q) => q == p
    case Acquire(q, _, _, lost) => q == p && !lost
    case Recheck(q) => q == p
    case Sample(q) => q == p
    case Store(q, _, lost) => q == p && !lost
    case Release(q, lost) => q == p && !lost
    case Poll(q, max) => q == p && max == maxAttempts
    case Tick(_) => true
    case _ => false
  }

  predicate OwnRun(steps: seq<Step>, p: Pid, maxAttempts: nat) {
    forall i | 0 <= i < |steps| :: OwnStep(steps[i], p, maxAttempts)
  }

  predicate Answered(s: State, p: Pid) {
    p in s.pcs && s.pcs[p].Finished? && s.pcs[p].outcome.Value?
  }

  /** What is left to do, at most. */
  function Distance(pc: Pc, maxAttempts: nat): nat {
    match pc
    case Waiting(attempt) => 8 + if attempt < maxAttempts then maxAttempts - attempt else 1
    case Reading => 8
    case Locking => 7
    case Rechecking(_) => 6
    case Loading(_) => 5
    case Storing(_, _) => 4
    case Releasing(_, _) => 3
    case Finished(_) => 0
  }

  lemma Prepend(s: State, step: Step, rest: seq<Step>)
    requires Enabled(s, step) && Legal(Apply(s, step), rest)
    ensures Legal(s, [step] + rest) && Final(s, [step] + rest) == Final(Apply(s, step), rest)
  {
    assert ([step] + rest)[1..] == rest;
  }

  /** The next own step; behind somebody's lock, first the time it takes to expire. */
  lemma NextOwn(s: State, p: Pid, maxAttempts: nat) returns (step: Step)
    requires p in s.pcs && !s.pcs[p].Finished? && !Throwing(s.pcs[p]) && (s.pcs[p].Locking? ==> s.lock == None)
    ensures Enabled(s, step) && OwnStep(step, p, maxAttempts)
    ensures var pc := Apply(s, step).pcs[p];
            && (pc.Finished? ==> pc.outcome.Value?) && !Throwing(pc)
            && Distance(pc, maxAttempts) < Distance(s.pcs[p], maxAttempts)
  {
    match s.pcs[p]
    case Waiting(_) => step := Poll(p, maxAttempts);
    case Reading => step := Get(p);
    case Locking =>
      var token := FreshNat(s.used);
      step := Acquire(p, token, 5000, false);
    case Rechecking(_) => step := Recheck(p);
    case Loading(_) => step := Sample(p);
    case Storing(_, _) => step := Store(p, 60, false);
    case Releasing(_, _) => step := Release(p, false);
  }

  /**
   * From every state, a call that has not failed can still end with a value, by its own steps and
   * the passing of time alone: no lock left behind and no number of vain attempts stops it.
   */
  lemma {:induction false} CanFinish(s: State, p: Pid, maxAttempts: nat) returns (steps: seq<Step>)
    requires p in s.pcs && !Throwing(s.pcs[p])
    ensures Legal(s, steps) && OwnRun(steps, p, maxAttempts) && Answered(Final(s, steps), p)
    decreases Distance(s.pcs[p], maxAttempts), if s.lock.Some? then 1 else 0
  {
    if s.pcs[p].Finished? {
      return [];
    }
    var step: Step;
    if s.pcs[p].Locking? && s.lock.Some? {
      step := Tick(s.lock.value.expiresAt);
    } else {
      step := NextOwn(s, p, maxAttempts);
    }
    var rest := CanFinish(Apply(s, step), p, maxAttempts);
    Prepend(s, step, rest);
    steps := [step] + rest;
  }

  // ---- failing ----------------------------------------------------------------------------

  /** An unfinished call can fail at any moment; past the lock it then still gives the lock back. */
  lemma FailureReleases(s: State, p: Pid)
    requires p in s.pcs && !s.pcs[p].Finished?
    ensures Enabled(s, Fails(p))
    ensures var t := Apply(s, Fails(p));
            && t.entry == s.entry && t.lock == s.lock && t.db == s.db
            && if s.pcs[p].Rechecking? || s.pcs[p].Loading? || s.pcs[p].Storing? then
                 && Enabled(t, Release(p, false))
                 && var u := Apply(t, Release(p, false));
                    u.pcs[p] == Finished(Threw) && (s.lock.Some? && s.lock.value.token == s.pcs[p].token ==> u.lock == None)
               else t.pcs[p] == Finished(Threw)
  {
  }

  /** A command whose reply is lost has taken effect, and the call throws all the same. */
  lemma LostReplies(s: State, p: Pid, token: Token, ttl: nat)
    ensures Enabled(s, Acquire(p, token, ttl, true)) ==>
              var t := Apply(s, Acquire(p, token, ttl, true));
              t.pcs[p] == Finished(Threw) && t.lock == Apply(s, Acquire(p, token, ttl, false)).lock
    ensures Enabled(s, Store(p, ttl, true)) ==>
              var t := Apply(s, Store(p, ttl, true));
              t.pcs[p] == Releasing(s.pcs[p].token, Threw) && t.entry == Apply(s, Store(p, ttl, false)).entry
    ensures Enabled(s, Release(p, true)) ==>
              var t := Apply(s, Release(p, true));
              t.pcs[p] == Finished(Threw) && t.lock == Apply(s, Release(p, false)).lock
  {
  }

  /** Trying the lock with a fresh token and any time-to-live: taken when it is free, else waited for. */
  lemma AcquireDecides(s: State, p: Pid, token: Token, ttlMs: nat)
    requires p in s.pcs && s.pcs[p] == Locking && token !in s.used && 1 <= ttlMs
    ensures Enabled(s, Acquire(p, token, ttlMs, false))
    ensures var t := Apply(s, Acquire(p, token, ttlMs, false));
            && t.entry == s.entry
            && (s.lock == None ==> t.lock == Some(Lock(token, s.now + ttlMs)) && t.pcs[p] == Rechecking(token))
            && (s.lock.Some? ==> t.lock == s.lock && t.pcs[p] == Waiting(0))
  {
  }

  // ---- waiting ----------------------------------------------------------------------------

  function Polls(p: Pid, n: nat, maxAttempts: nat): seq<Step> {
    seq(n, _ => Poll(p, maxAttempts))
  }

  /** While nothing is cached, the n-th look leaves a waiting call with n attempts behind it. */
  lemma {:induction false} VainPolls(s: State, p: Pid, attempt: nat, n: nat, maxAttempts: nat)
    requires p in s.pcs && s.pcs[p] == Waiting(attempt) && s.entry == None && attempt + n < maxAttempts
    ensures Legal(s, Polls(p, n, maxAttempts))
    ensures Final(s, Polls(p, n, maxAttempts)) == s.(pcs := s.pcs[p := Waiting(attempt + n)])
    decreases n
  {
    if n == 0 {
      assert s.pcs[p := Waiting(attempt)] == s.pcs;
    } else {
      var t := Apply(s, Poll(p, maxAttempts));
      VainPolls(t, p, attempt + 1, n - 1, maxAttempts);
      Prepend(s, Poll(p, maxAttempts), Polls(p, n - 1, maxAttempts));
      assert [Poll(p, maxAttempts)] + Polls(p, n - 1, maxAttempts) == Polls(p, n, maxAttempts);
      assert t.pcs[p := Waiting(attempt + n)] == s.pcs[p := Waiting(attempt + n)];
    }
  }

  /** A call that lost the lock looks `maxAttempts` times, and then competes for the lock again. */
  lemma WaitsThenReads(s: State, p: Pid, maxAttempts: nat)
    requires p in s.pcs && s.pcs[p] == Waiting(0) && s.entry == None && maxAttempts > 0
    ensures forall n: nat | n < maxAttempts ::
              && Legal(s, Polls(p, n, maxAttempts))
              && Final(s, Polls(p, n, maxAttempts)) == s.(pcs := s.pcs[p := Waiting(n)])
    ensures var t := Final(s, Polls(p, maxAttempts - 1, maxAttempts));
            Enabled(t, Poll(p, maxAttempts)) && Apply(t, Poll(p, maxAttempts)).pcs[p] == Reading
  {
    forall n: nat | n < maxAttempts
      ensures Legal(s, Polls(p, n, maxAttempts))
      ensures Final(s, Polls(p, n, maxAttempts)) == s.(pcs := s.pcs[p := Waiting(n)])
    {
      VainPolls(s, p, 0, n, maxAttempts);
    }
  }

  /** Each of those looks takes what it finds; a call that may not wait goes back without a look. */
  lemma PollTakes(s: State, p: Pid, attempt: nat, maxAttempts: nat)
    requires p in s.pcs && s.pcs[p] == Waiting(attempt) && s.entry.Some?
    ensures attempt < maxAttempts ==> Apply(s, Poll(p, maxAttempts)).pcs[p] == Finished(Value(s.entry.value.data))
    ensures maxAttempts == 0 ==> Apply(s, Poll(p, maxAttempts)).pcs[p] == Reading
  {
  }
}
