/**
 * `mapWithConcurrency`: workers share one cursor over the items and write results by index.  A
 * schedule says which worker moves next; everything here holds of every schedule.
 */
module ConcurrentMap {
  import opened Prelude

  /** What one call of the mapper settles to. */
  datatype Result<+R, +E> = Ok(value: R) | Err(error: E)

  /** The items and the mapper, which may reject. */
  datatype Job<!T, !R, !E> = Job(items: seq<T>, mapper: (T, nat) -> Result<R, E>)
  {
    function Size(): nat { |items| }

    function Call(i: nat): Result<R, E>
      requires i < |items|
    {
      mapper(items[i], i)
    }
  }

  datatype Worker<+E> =
    | Ready                  // at the top of its loop
    | Mapping(index: nat)    // awaiting the mapper
    | Returned               // ran out of items
    | Failed(error: E)       // its mapper call rejected

  /** `calls` records the mapper calls in order; `rejection` is what `Promise.all` rejects with. */
  datatype State<+R, +E> = State(
    next: nat,
    results: seq<Option<R>>,
    workers: seq<Worker<E>>,
    rejection: Option<E>,
    calls: seq<nat>)

  function Min(a: int, b: int): int { if a < b then a else b }

  function Max(a: int, b: int): int { if a < b then b else a }

  function WorkerCount(concurrency: int, size: nat): nat {
    Min(Max(1, concurrency), size)
  }

  function Initial<T, R, E>(job: Job<T, R, E>, concurrency: int): (s: State<R, E>)
    ensures Inv(job, s)
  {
    State(0, seq(job.Size(), _ => None), seq(WorkerCount(concurrency, job.Size()), _ => Ready), None, [])
  }

  predicate CanMove<R, E>(s: State<R, E>, w: nat) {
    w < |s.workers| && (s.workers[w].Ready? || s.workers[w].Mapping?)
  }

  predicate Quiet<R, E>(s: State<R, E>) {
    forall w: nat | w < |s.workers| :: s.workers[w].Returned? || s.workers[w].Failed?
  }

  function Move<T, R, E>(job: Job<T, R, E>, s: State<R, E>, w: nat): State<R, E>
    requires CanMove(s, w) && |s.results| == job.Size()
    requires s.workers[w].Mapping? ==> s.workers[w].index < job.Size()
  {
    match s.workers[w]
    case Ready =>
      var current := s.next;
      if current >= job.Size() then
        s.(next := s.next + 1, workers := s.workers[w := Returned])
      else
        s.(next := s.next + 1, workers := s.workers[w := Mapping(current)], calls := s.calls + [current])
    case Mapping(i) =>
      match job.Call(i)
      case Ok(value) => s.(results := s.results[i := Some(value)], workers := s.workers[w := Ready])
      case Err(error) =>
        s.(workers := s.workers[w := Failed(error)],
           rejection := if s.rejection.None? then Some(error) else s.rejection)
  }

  // ---- the invariant ----------------------------------------------------------------------

  function Claimed<T, R, E>(job: Job<T, R, E>, s: State<R, E>): nat {
    Min(s.next, job.Size())
  }

  ghost predicate BeingMapped<R, E>(s: State<R, E>, i: nat) {
    exists w: nat | w < |s.workers| :: s.workers[w] == Mapping(i)
  }

  /** A claimed index is finished, in one worker's hands, or lost to a rejection. */
  ghost predicate Accounted<T, R, E>(job: Job<T, R, E>, s: State<R, E>, i: nat)
    requires i < job.Size() == |s.results|
  {
    s.results[i].Some? || BeingMapped(s, i) || (job.Call(i).Err? && s.rejection.Some?)
  }

  ghost predicate Inv<T, R, E>(job: Job<T, R, E>, s: State<R, E>) {
    && |s.results| == job.Size()
    && s.calls == seq(Claimed(job, s), i => i)
    && (forall i: nat | i < job.Size() && s.results[i].Some? :: i < s.next && job.Call(i) == Ok(s.results[i].value))
    && (forall i: nat | i < Claimed(job, s) :: Accounted(job, s, i))
    && (forall w: nat | w < |s.workers| && s.workers[w].Mapping? ::
          s.workers[w].index < Claimed(job, s) && s.results[s.workers[w].index].None?)
    && (forall v: nat, w: nat | v < |s.workers| && w < |s.workers| && v != w && s.workers[v].Mapping? ::
          s.workers[v] != s.workers[w])
    && (forall w: nat | w < |s.workers| && s.workers[w].Returned? :: job.Size() <= s.next)
    && (forall w: nat | w < |s.workers| && s.workers[w].Failed? :: s.rejection.Some?)
    && (s.rejection.Some? ==> exists i: nat | i < job.Size() :: job.Call(i) == Err(s.rejection.value))
  }

  /** A worker claims the next index, or finds none left. */
  lemma ClaimStep<T, R, E>(job: Job<T, R, E>, s: State<R, E>, w: nat)
    requires Inv(job, s) && CanMove(s, w) && s.workers[w].Ready?
    ensures Inv(job, Move(job, s, w))
  {
    var t := Move(job, s, w);
    forall i: nat | i < Claimed(job, t) ensures Accounted(job, t, i) {
      if i < Claimed(job, s) {
        assert Accounted(job, s, i);
        if BeingMapped(s, i) {
          var v: nat :| v < |s.workers| && s.workers[v] == Mapping(i);
          assert t.workers[v] == Mapping(i);
        }
      } else {
        assert t.workers[w] == Mapping(i);
      }
    }
  }

  /** The mapper settles: its index leaves the worker's hands for the results, or is lost. */
  lemma SettleStep<T, R, E>(job: Job<T, R, E>, s: State<R, E>, w: nat)
    requires Inv(job, s) && CanMove(s, w) && s.workers[w].Mapping?
    ensures Inv(job, Move(job, s, w))
  {
    var t := Move(job, s, w);
    var index := s.workers[w].index;
    forall i: nat | i < Claimed(job, t) ensures Accounted(job, t, i) {
      assert Accounted(job, s, i);
      if i != index && BeingMapped(s, i) {
        var v: nat :| v < |s.workers| && s.workers[v] == Mapping(i);
        assert t.workers[v] == Mapping(i);
      }
    }
    forall v: nat | v < |t.workers| && t.workers[v].Mapping?
      ensures t.results[t.workers[v].index].None?
    {
      assert v != w && s.workers[v] != s.workers[w];
    }
  }

  lemma InvStep<T, R, E>(job: Job<T, R, E>, s: State<R, E>, w: nat)
    requires Inv(job, s) && CanMove(s, w)
    ensures Inv(job, Move(job, s, w))
  {
    if s.workers[w].Ready? {
      ClaimStep(job, s, w);
    } else {
      SettleStep(job, s, w);
    }
  }

  // ---- progress ---------------------------------------------------------------------------

  function Weight<E>(worker: Worker<E>): nat {
    match worker
    case Ready => 1
    case Mapping(_) => 2
    case _ => 0
  }

  function Load<E>(workers: seq<Worker<E>>): nat {
    if workers == [] then 0 else Weight(workers[0]) + Load(workers[1..])
  }

  lemma {:induction false} LoadUpdate<E>(workers: seq<Worker<E>>, w: nat, worker: Worker<E>)
    requires w < |workers|
    ensures Load(workers[w := worker]) == Load(workers) - Weight(workers[w]) + Weight(worker)
  {
    var after := workers[w := worker];
    if w == 0 {
      assert after[1..] == workers[1..];
    } else {
      LoadUpdate(workers[1..], w - 1, worker);
      assert after[1..] == workers[1..][w - 1 := worker];
    }
  }

  /** Work left: it strictly falls with every move, so every schedule comes to rest. */
  function Measure<T, R, E>(job: Job<T, R, E>, s: State<R, E>): nat {
    3 * (job.Size() - Claimed(job, s)) + Load(s.workers)
  }

  lemma MeasureFalls<T, R, E>(job: Job<T, R, E>, s: State<R, E>, w: nat)
    requires Inv(job, s) && CanMove(s, w)
    ensures Measure(job, Move(job, s, w)) < Measure(job, s)
  {
    LoadUpdate(s.workers, w, Move(job, s, w).workers[w]);
  }

  // ---- all schedules ----------------------------------------------------------------------

  ghost predicate Reaches<T, R, E>(job: Job<T, R, E>, s: State<R, E>, schedule: seq<nat>, t: State<R, E>)
    requires Inv(job, s)
    decreases schedule
  {
    if schedule == [] then s == t
    else
      && CanMove(s, schedule[0])
      && (InvStep(job, s, schedule[0]); Reaches(job, Move(job, s, schedule[0]), schedule[1..], t))
  }

  lemma {:induction false} ReachesKeeps<T, R, E>(job: Job<T, R, E>, s: State<R, E>, schedule: seq<nat>, t: State<R, E>)
    requires Inv(job, s) && Reaches(job, s, schedule, t)
    ensures Inv(job, t) && |t.workers| == |s.workers|
    ensures Measure(job, t) + |schedule| <= Measure(job, s)
    decreases schedule
  {
    if schedule != [] {
      InvStep(job, s, schedule[0]);
      MeasureFalls(job, s, schedule[0]);
      ReachesKeeps(job, Move(job, s, schedule[0]), schedule[1..], t);
    }
  }

  /** The workers waiting on a mapper call. */
  ghost function InFlight<R, E>(s: State<R, E>): set<nat> {
    set w: nat | w < |s.workers| && s.workers[w].Mapping?
  }

  /** Anywhere along any schedule: indices are claimed once each, in order, and few at a time. */
  lemma AlongTheWay<T, R, E>(job: Job<T, R, E>, concurrency: int, schedule: seq<nat>, t: State<R, E>)
    requires Reaches(job, Initial(job, concurrency), schedule, t)
    ensures t.calls == seq(|t.calls|, i => i) && |t.calls| <= job.Size()
    ensures |InFlight(t)| <= Min(Max(1, concurrency), job.Size())
    ensures |schedule| <= Measure(job, Initial(job, concurrency))
    ensures |t.results| == job.Size()
    ensures forall i: nat | i < job.Size() && t.results[i].Some? :: job.Call(i) == Ok(t.results[i].value)
  {
    ReachesKeeps(job, Initial(job, concurrency), schedule, t);
    BoundedSet(InFlight(t), |t.workers|);
  }

  /** The workers below `k` each hold their own index; the others have not started. */
  ghost predicate Started<T, R, E>(job: Job<T, R, E>, s: State<R, E>, k: nat) {
    && k <= |s.workers| <= job.Size() && s.next == k
    && forall w: nat | w < |s.workers| :: s.workers[w] == if w < k then Mapping(w) else Ready
  }

  lemma {:induction false} StartRest<T, R, E>(job: Job<T, R, E>, s: State<R, E>, k: nat)
    returns (schedule: seq<nat>, t: State<R, E>)
    requires Inv(job, s) && Started(job, s, k)
    ensures Reaches(job, s, schedule, t) && |t.workers| == |s.workers| && Started(job, t, |t.workers|)
    decreases |s.workers| - k
  {
    if k == |s.workers| {
      return [], s;
    }
    InvStep(job, s, k);
    var rest;
    rest, t := StartRest(job, Move(job, s, k), k + 1);
    schedule := [k] + rest;
    assert schedule[1..] == rest;
  }

  /** The limit is used: some schedule has min(max(1, concurrency), length) calls in flight at once. */
  lemma LimitIsReached<T, R, E>(job: Job<T, R, E>, concurrency: int) returns (schedule: seq<nat>, t: State<R, E>)
    ensures Reaches(job, Initial(job, concurrency), schedule, t)
    ensures var limit := if concurrency < 1 then 1 else concurrency;
            |InFlight(t)| == if limit < job.Size() then limit else job.Size()
  {
    schedule, t := StartRest(job, Initial(job, concurrency), 0);
    FirstNumbers(InFlight(t), |t.workers|);
  }

  lemma {:induction false} FirstNumbers(s: set<nat>, n: nat)
    requires forall x: nat :: x in s <==> x < n
    ensures |s| == n
  {
    if n > 0 {
      FirstNumbers(s - {n - 1}, n - 1);
    }
  }

  /** The error of the first mapper call to reject along the schedule. */
  function FirstRejection<T, R, E>(job: Job<T, R, E>, s: State<R, E>, schedule: seq<nat>): Option<E>
    requires Inv(job, s)
    decreases schedule
  {
    if schedule == [] || !CanMove(s, schedule[0]) then None
    else
      var worker := s.workers[schedule[0]];
      if worker.Mapping? && job.Call(worker.index).Err? then Some(job.Call(worker.index).error)
      else InvStep(job, s, schedule[0]); FirstRejection(job, Move(job, s, schedule[0]), schedule[1..])
  }

  lemma {:induction false} RejectionStays<T, R, E>(job: Job<T, R, E>, s: State<R, E>, schedule: seq<nat>, t: State<R, E>)
    requires Inv(job, s) && Reaches(job, s, schedule, t) && s.rejection.Some?
    ensures t.rejection == s.rejection
    decreases schedule
  {
    if schedule != [] {
      InvStep(job, s, schedule[0]);
      RejectionStays(job, Move(job, s, schedule[0]), schedule[1..], t);
    }
  }

  lemma {:induction false} RejectsWithFirst<T, R, E>(job: Job<T, R, E>, s: State<R, E>, schedule: seq<nat>, t: State<R, E>)
    requires Inv(job, s) && Reaches(job, s, schedule, t) && s.rejection.None?
    ensures t.rejection == FirstRejection(job, s, schedule)
    decreases schedule
  {
    if schedule != [] {
      InvStep(job, s, schedule[0]);
      var u := Move(job, s, schedule[0]);
      if u.rejection.Some? {
        RejectionStays(job, u, schedule[1..], t);
      } else {
        RejectsWithFirst(job, u, schedule[1..], t);
      }
    }
  }

  /** `Promise.all` rejects with the error of the call that was the first to reject. */
  lemma FirstRejectionWins<T, R, E>(job: Job<T, R, E>, concurrency: int, schedule: seq<nat>, t: State<R, E>)
    requires Reaches(job, Initial(job, concurrency), schedule, t)
    ensures t.rejection == FirstRejection(job, Initial(job, concurrency), schedule)
  {
    RejectsWithFirst(job, Initial(job, concurrency), schedule, t);
  }

  predicate AllSucceed<T, R, E>(job: Job<T, R, E>) {
    forall i: nat | i < job.Size() :: job.Call(i).Ok?
  }

  /** What mapping the items one by one gives. */
  function SequentialMap<T, R, E>(job: Job<T, R, E>): seq<R>
    requires AllSucceed(job)
  {
    seq(job.Size(), i requires 0 <= i < job.Size() => job.Call(i).value)
  }

  /**
   * Refinement: once the workers are at rest, the promise resolved, and then with exactly the
   * sequential map after exactly one call per item, if and only if no call rejects; otherwise it
   * rejected with the error of one of the items.  A rejection stops its own worker only: unless
   * every worker failed, every item was called.
   */
  lemma AtRest<T, R, E>(job: Job<T, R, E>, concurrency: int, schedule: seq<nat>, t: State<R, E>)
    requires Reaches(job, Initial(job, concurrency), schedule, t)
    requires Quiet(t)
    ensures t.rejection.None? <==> AllSucceed(job)
    ensures t.rejection.None? ==>
              && t.calls == seq(job.Size(), i => i)
              && |t.results| == job.Size()
              && forall i: nat | i < job.Size() :: t.results[i] == Some(SequentialMap(job)[i])
    ensures t.rejection.Some? ==> exists i: nat | i < job.Size() :: job.Call(i) == Err(t.rejection.value)
    ensures |t.calls| == job.Size() || forall w: nat | w < |t.workers| :: t.workers[w].Failed?
  {
    ReachesKeeps(job, Initial(job, concurrency), schedule, t);
    RestingState(job, t);
  }

  lemma RestingState<T, R, E>(job: Job<T, R, E>, t: State<R, E>)
    requires Inv(job, t) && Quiet(t) && (job.Size() > 0 ==> |t.workers| > 0)
    ensures t.rejection.None? <==> AllSucceed(job)
    ensures t.rejection.None? ==>
              && t.calls == seq(job.Size(), i => i)
              && forall i: nat | i < job.Size() :: t.results[i] == Some(SequentialMap(job)[i])
  {
    if t.rejection.None? {
      if job.Size() > 0 {
        assert t.workers[0].Returned?;
      }
      forall i: nat | i < job.Size() ensures t.results[i].Some? {
        assert Accounted(job, t, i);
      }
    }
  }

  datatype Settled<+R, +E> = Resolved(results: seq<R>) | Rejected(error: E)

  /** The function itself; `:|` picks the next worker to move, so it is proved for any scheduler. */
  method MapWithConcurrency<T, R(0), E>(items: seq<T>, concurrency: int, mapper: (T, nat) -> Result<R, E>)
    returns (settled: Settled<R, E>)
    ensures var job := Job(items, mapper);
            && (settled.Resolved? <==> AllSucceed(job))
            && (settled.Resolved? ==> settled.results == SequentialMap(job))
            && (settled.Rejected? ==> exists i: nat | i < |items| :: job.Call(i) == Err(settled.error))
  {
    ghost var job := Job(items, mapper);
    ghost var s := Initial(job, concurrency);
    var results := new R[|items|];
    var nextIndex := 0;
    var rejection: Option<E> := None;
    var workers: seq<Worker<E>> := seq(WorkerCount(concurrency, |items|), _ => Ready);
    while exists w: nat :: w < |workers| && (workers[w].Ready? || workers[w].Mapping?)
      invariant Inv(job, s) && |workers| == WorkerCount(concurrency, |items|)
      invariant nextIndex == s.next && workers == s.workers && rejection == s.rejection
      invariant results.Length == |items|
      invariant forall i: nat | i < |items| && s.results[i].Some? :: results[i] == s.results[i].value
      decreases Measure(job, s)
    {
      var w: nat :| w < |workers| && (workers[w].Ready? || workers[w].Mapping?);
      InvStep(job, s, w);
      MeasureFalls(job, s, w);
      s := Move(job, s, w);
      if workers[w].Ready? {
        var currentIndex := nextIndex;
        nextIndex := nextIndex + 1;
        workers := workers[w := if currentIndex >= |items| then Returned else Mapping(currentIndex)];
      } else {
        var currentIndex := workers[w].index;
        match mapper(items[currentIndex], currentIndex) {
          case Ok(value) =>
            results[currentIndex] := value;
            workers := workers[w := Ready];
          case Err(error) =>
            workers := workers[w := Failed(error)];
            rejection := if rejection.None? then Some(error) else rejection;
        }
      }
    }
    RestingState(job, s);
    if rejection.Some? {
      return Rejected(rejection.value);
    }
    assert results[..] == SequentialMap(job);
    return Resolved(results[..]);
  }
}
