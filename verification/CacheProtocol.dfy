/**
 * The read-through cache with its anti-stampede lock, as a transition system.
 *
 * The state is what one cache key `k` looks like in Redis (the entry under `k`, the lock under
 * `lock:k`), the database value the loader of `k` would return, and one program counter per
 * concurrent call of `read`.  Every Redis command, and every point where the database is
 * sampled, is one atomic step; promises are program counters.  `CacheManager.dfy` ties the key
 * view used here to the commands on the shared string store.
 */
module CacheProtocol {
  import opened Prelude

  type Payload = string
  type Pid = nat
  type Token = nat

  /** What a loader returns: data, or `None` for the database's `null` (cached negatively). */
  type Data = Option<Payload>

  datatype Outcome = Value(data: Data) | Threw

  datatype Entry = Entry(data: Data, expiresAt: Option<nat>)
  datatype Lock = Lock(token: Token, expiresAt: nat)

  /** Where a call of `read` stands. */
  datatype Pc =
    | Reading                                 // about to look in the cache
    | Locking                                 // missed; about to try the lock
    | Rechecking(token: Token)                // holds the lock; about to look again
    | Loading(token: Token)                   // loader called, database not sampled yet
    | Storing(token: Token, data: Data)       // database sampled; about to store
    | Releasing(token: Token, out: Outcome)   // in `finally`; about to release the lock
    | Waiting(attempt: nat)                   // in `waitAndRetry`
    | Finished(outcome: Outcome)

  /** Counters over the run so far. */
  datatype Stats = Stats(
    loads: nat,      // calls of the loader
    stored: nat,     // loads whose data reached the cache
    aborts: nat,     // loads that threw before their data reached the cache
    removals: nat,   // times an entry went away, by expiry, `del` or flush
    overruns: nat)   // times a lock expired or was flushed under a holder that had not finished its set

  datatype State = State(
    now: nat,
    entry: Option<Entry>,
    lock: Option<Lock>,
    db: Data,
    pcs: map<Pid, Pc>,
    used: set<Token>,
    stats: Stats)

  predicate Initial(s: State) {
    && s.entry.None? && s.lock.None? && s.pcs == map[] && s.used == {}
    && s.stats == Stats(0, 0, 0, 0, 0)
  }

  // ---- program counters -------------------------------------------------------------------

  predicate HasToken(pc: Pc) {
    pc.Rechecking? || pc.Loading? || pc.Storing? || pc.Releasing?
  }

  /** Between taking the lock and the end of the set. */
  predicate Critical(pc: Pc) {
    pc.Rechecking? || pc.Loading? || pc.Storing?
  }

  /** The loader was called and its result is not stored yet. */
  predicate InFlight(pc: Pc) {
    pc.Loading? || pc.Storing?
  }

  predicate Owns(lock: Option<Lock>, pc: Pc) {
    HasToken(pc) && lock.Some? && lock.value.token == pc.token
  }

  // ---- steps ------------------------------------------------------------------------------

  /**
   * `lost` marks a Redis command that took effect although its reply never arrived, so that the
   * caller sees an exception.  `Fails` is a command (or the loader) that throws without effect.
   */
  datatype Step =
    | Spawn(p: Pid)
    | Get(p: Pid)
    | Acquire(p: Pid, token: Token, ttlMs: nat, lost: bool)
    | Recheck(p: Pid)
    | Sample(p: Pid)
    | Store(p: Pid, ttl: nat, lost: bool)
    | Release(p: Pid, lost: bool)
    | Poll(p: Pid, maxAttempts: nat)
    | Fails(p: Pid)
    | Tick(d: nat)
    | Flush                           // `clear`: the whole store, locks included
    | DbWrite(data: Data)
    | Invalidate
    | Fill(data: Data, ttl: nat)      // write-through `write`, or cache warm-up

  predicate Enabled(s: State, step: Step) {
    match step
    case Spawn(p) => p !in s.pcs
    case Get(p) => p in s.pcs && s.pcs[p].Reading?
    case Acquire(p, token, ttlMs, _) => p in s.pcs && s.pcs[p].Locking? && token !in s.used && ttlMs > 0
    case Recheck(p) => p in s.pcs && s.pcs[p].Rechecking?
    case Sample(p) => p in s.pcs && s.pcs[p].Loading?
    case Store(p, _, _) => p in s.pcs && s.pcs[p].Storing?
    case Release(p, _) => p in s.pcs && s.pcs[p].Releasing?
    case Poll(p, _) => p in s.pcs && s.pcs[p].Waiting?
    case Fails(p) => p in s.pcs && !s.pcs[p].Finished?
    case Tick(_) | Flush | DbWrite(_) | Invalidate | Fill(_, _) => true
  }

  /** A zero time-to-live is falsy in the source, so the key is then set without expiry. */
  function Expiry(now: nat, ttl: nat): Option<nat> {
    if ttl == 0 then None else Some(now + ttl)
  }

  /** Where a thrown error takes a call: past the lock it first goes through `finally`. */
  function Unwind(pc: Pc): Pc {
    if Critical(pc) then Releasing(pc.token, Threw) else Finished(Threw)
  }

  /** The owner of the lock is still before the end of its set. */
  predicate HolderBusy(s: State) {
    exists p :: p in s.pcs && Critical(s.pcs[p]) && Owns(s.lock, s.pcs[p])
  }

  function Apply(s: State, step: Step): State
    requires Enabled(s, step)
  {
    match step
    case Spawn(p) => s.(pcs := s.pcs[p := Reading])
    case Get(p) =>
      s.(pcs := s.pcs[p := if s.entry.Some? then Finished(Value(s.entry.value.data)) else Locking])
    case Acquire(p, token, ttlMs, lost) =>
      var free := s.lock.None?;
      s.(lock := if free then Some(Lock(token, s.now + ttlMs)) else s.lock,
         used := s.used + {token},
         pcs := s.pcs[p := if lost then Finished(Threw) else if free then Rechecking(token) else Waiting(0)])
    case Recheck(p) =>
      var token := s.pcs[p].token;
      if s.entry.Some? then
        s.(pcs := s.pcs[p := Releasing(token, Value(s.entry.value.data))])
      else
        s.(pcs := s.pcs[p := Loading(token)],
           stats := s.stats.(loads := s.stats.loads + 1))
    case Sample(p) => s.(pcs := s.pcs[p := Storing(s.pcs[p].token, s.db)])
    case Store(p, ttl, lost) =>
      var Storing(token, data) := s.pcs[p];
      s.(entry := Some(Entry(data, Expiry(s.now, ttl))),
         pcs := s.pcs[p := Releasing(token, if lost then Threw else Value(data))],
         stats := s.stats.(stored := s.stats.stored + 1))
    case Release(p, lost) =>
      var Releasing(token, out) := s.pcs[p];
      s.(lock := if s.lock.Some? && s.lock.value.token == token then None else s.lock,
         pcs := s.pcs[p := Finished(if lost then Threw else out)])
    case Poll(p, maxAttempts) =>
      var next := s.pcs[p].attempt + 1;
      if s.pcs[p].attempt < maxAttempts && s.entry.Some? then
        s.(pcs := s.pcs[p := Finished(Value(s.entry.value.data))])
      else
        s.(pcs := s.pcs[p := if next < maxAttempts then Waiting(next) else Reading])
    case Fails(p) =>
      s.(pcs := s.pcs[p := Unwind(s.pcs[p])],
         stats := if InFlight(s.pcs[p]) then s.stats.(aborts := s.stats.aborts + 1) else s.stats)
    case Tick(d) =>
      var now := s.now + d;
      var entryDies := s.entry.Some? && s.entry.value.expiresAt.Some? && s.entry.value.expiresAt.value <= now;
      var lockDies := s.lock.Some? && s.lock.value.expiresAt <= now;
      s.(now := now,
         entry := if entryDies then None else s.entry,
         lock := if lockDies then None else s.lock,
         stats := s.stats.(removals := s.stats.removals + if entryDies then 1 else 0,
                           overruns := s.stats.overruns + if lockDies && HolderBusy(s) then 1 else 0))
    case Flush =>
      s.(entry := None,
         lock := None,
         stats := s.stats.(removals := s.stats.removals + if s.entry.Some? then 1 else 0,
                           overruns := s.stats.overruns + if HolderBusy(s) then 1 else 0))
    case DbWrite(data) => s.(db := data)
    case Invalidate =>
      s.(entry := None,
         stats := s.stats.(removals := s.stats.removals + if s.entry.Some? then 1 else 0))
    case Fill(data, ttl) => s.(entry := Some(Entry(data, Expiry(s.now, ttl))))
  }

  // ---- runs -------------------------------------------------------------------------------

  predicate Legal(s: State, steps: seq<Step>)
    decreases steps
  {
    steps == [] || (Enabled(s, steps[0]) && Legal(Apply(s, steps[0]), steps[1..]))
  }

  function Final(s: State, steps: seq<Step>): State
    requires Legal(s, steps)
    decreases steps
  {
    if steps == [] then s else Final(Apply(s, steps[0]), steps[1..])
  }

  lemma {:induction false} Extend(s: State, steps: seq<Step>, step: Step)
    requires Legal(s, steps) && Enabled(Final(s, steps), step)
    ensures Legal(s, steps + [step])
    ensures Final(s, steps + [step]) == Apply(Final(s, steps), step)
    decreases steps
  {
    if steps != [] {
      Extend(Apply(s, steps[0]), steps[1..], step);
      assert (steps + [step])[1..] == steps[1..] + [step];
    }
  }

  // ---- lock safety ------------------------------------------------------------------------

  /** Tokens are random UUIDs: every token in play was drawn once. */
  ghost predicate LockInv(s: State) {
    && (s.lock.Some? ==> s.lock.value.token in s.used && s.now < s.lock.value.expiresAt)
    && (forall p :: p in s.pcs && HasToken(s.pcs[p]) ==> s.pcs[p].token in s.used)
    && (forall p, q | p in s.pcs && q in s.pcs && HasToken(s.pcs[p]) && HasToken(s.pcs[q]) ::
          s.pcs[p].token == s.pcs[q].token ==> p == q)
  }

  lemma LockInvStep(s: State, step: Step)
    requires LockInv(s) && Enabled(s, step)
    ensures LockInv(Apply(s, step))
  {
  }

  lemma {:induction false} LockInvRun(s: State, steps: seq<Step>)
    requires LockInv(s) && Legal(s, steps)
    ensures LockInv(Final(s, steps))
    decreases steps
  {
    if steps != [] {
      LockInvStep(s, steps[0]);
      LockInvRun(Apply(s, steps[0]), steps[1..]);
    }
  }

  /**
   * Mutual exclusion: in every reachable state at most one call owns the unexpired lock, and
   * whatever another call does, whether releasing, failing or retrying, that lock stays.
   */
  lemma {:induction false} MutualExclusion(s: State, steps: seq<Step>, p: Pid, q: Pid)
    requires Initial(s) && Legal(s, steps)
    requires var t := Final(s, steps); p in t.pcs && q in t.pcs && Owns(t.lock, t.pcs[q]) && p != q
    ensures var t := Final(s, steps); !Owns(t.lock, t.pcs[p])
    ensures var t := Final(s, steps);
            forall lost :: Enabled(t, Release(p, lost)) ==> Apply(t, Release(p, lost)).lock == t.lock
    ensures var t := Final(s, steps);
            forall step | Enabled(t, step) && !step.Tick? && !step.Flush? && step != Release(q, true) && step != Release(q, false) ::
              Apply(t, step).lock == t.lock
  {
    LockInvRun(s, steps);
  }
}
