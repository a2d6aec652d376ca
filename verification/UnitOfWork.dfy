/**
 * The Postgres unit of work.  A `run` inside a `run` on the same pool joins the open transaction;
 * the connection in use is found through the innermost enclosing `run` only.
 */
module UnitOfWork {
  import opened Prelude

  type Pool = nat

  /** What COMMIT does: takes effect, is refused, or takes effect although its reply is lost. */
  datatype CommitFate = Commits | Refused | ReplyLost

  /** Infrastructure errors a `run` that opens its own transaction may meet. */
  datatype Faults = Faults(connectFails: bool, beginFails: bool, commit: CommitFate, rollbackFails: bool)

  /** A piece of asynchronous work, down to its queries. */
  datatype Work =
    | Query(pool: Pool, write: string)        // a write through a repository on `pool`
    | Throw(error: string)                    // an application error
    | Then(first: Work, second: Work)
    | Attempt(body: Work, handler: Work)      // try / catch
    | Run(pool: Pool, body: Work, faults: Faults)

  datatype Result = Done | Thrown(error: string)

  const CONNECT_ERROR := "connect failed"
  const BEGIN_ERROR := "begin failed"
  const COMMIT_ERROR := "commit failed"
  const ROLLBACK_ERROR := "rollback failed"

  datatype Commit = Commit(pool: Pool, write: string)

  datatype Event = Took(pool: Pool) | Released(pool: Pool)

  /** `buffer` is what the transaction of the current context has written so far. */
  datatype World = World(store: seq<Commit>, buffer: seq<string>, events: seq<Event>)

  function Tag(pool: Pool, writes: seq<string>): seq<Commit> {
    seq(|writes|, i requires 0 <= i < |writes| => Commit(pool, writes[i]))
  }

  /** After the ROLLBACK in the `catch`: the original error, unless the ROLLBACK itself failed. */
  function Rethrown(error: string, faults: Faults): Result {
    Thrown(if faults.rollbackFails then ROLLBACK_ERROR else error)
  }

  /** Running work when `context` is the pool of the innermost enclosing `run`, if any. */
  function Exec(work: Work, context: Option<Pool>, world: World): (World, Result)
    decreases work
  {
    match work
    case Query(pool, write) =>
      if context == Some(pool)
      then (world.(buffer := world.buffer + [write]), Done)
      else (world.(store := world.store + [Commit(pool, write)]), Done)
    case Throw(error) => (world, Thrown(error))
    case Then(first, second) =>
      var (after, result) := Exec(first, context, world);
      if result.Thrown? then (after, result) else Exec(second, context, after)
    case Attempt(body, handler) =>
      var (after, result) := Exec(body, context, world);
      if result.Thrown? then Exec(handler, context, after) else (after, result)
    case Run(pool, body, faults) =>
      if context == Some(pool) then Exec(body, context, world)
      else if faults.connectFails then (world, Thrown(CONNECT_ERROR))
      else
        var taken := world.(events := world.events + [Took(pool)], buffer := []);
        var (inner, result) := if faults.beginFails then (taken, Thrown(BEGIN_ERROR)) else Exec(body, Some(pool), taken);
        var lands := result.Done? && !faults.commit.Refused?;
        var ended :=
          if result.Thrown? then Rethrown(result.error, faults)
          else if faults.commit.Commits? then Done
          else Rethrown(COMMIT_ERROR, faults);
        (World(if lands then inner.store + Tag(pool, inner.buffer) else inner.store,
               world.buffer,
               inner.events + [Released(pool)]),
         ended)
  }

  // ---- the result does not depend on the data ---------------------------------------------

  /** How work ends. */
  function Ending(work: Work, context: Option<Pool>): Result
    decreases work
  {
    match work
    case Query(_, _) => Done
    case Throw(error) => Thrown(error)
    case Then(first, second) =>
      if Ending(first, context).Thrown? then Ending(first, context) else Ending(second, context)
    case Attempt(body, handler) =>
      if Ending(body, context).Thrown? then Ending(handler, context) else Ending(body, context)
    case Run(pool, body, faults) =>
      if context == Some(pool) then Ending(body, context)
      else if faults.connectFails then Thrown(CONNECT_ERROR)
      else if faults.beginFails then Rethrown(BEGIN_ERROR, faults)
      else if Ending(body, Some(pool)).Thrown? then Rethrown(Ending(body, Some(pool)).error, faults)
      else if faults.commit.Commits? then Done
      else Rethrown(COMMIT_ERROR, faults)
  }

  lemma {:induction false} ExecEnds(work: Work, context: Option<Pool>, world: World)
    ensures Exec(work, context, world).1 == Ending(work, context)
    decreases work
  {
    match work
    case Then(first, second) =>
      ExecEnds(first, context, world);
      ExecEnds(second, context, Exec(first, context, world).0);
    case Attempt(body, handler) =>
      ExecEnds(body, context, world);
      ExecEnds(handler, context, Exec(body, context, world).0);
    case Run(pool, body, faults) =>
      if context == Some(pool) {
        ExecEnds(body, context, world);
      } else {
        ExecEnds(body, Some(pool), world.(events := world.events + [Took(pool)], buffer := []));
      }
    case _ =>
  }

  // ---- joining ----------------------------------------------------------------------------

  /** The work with every `run` that would join replaced by its body. */
  function Inline(work: Work, context: Option<Pool>): Work
    decreases work
  {
    match work
    case Then(first, second) => Then(Inline(first, context), Inline(second, context))
    case Attempt(body, handler) => Attempt(Inline(body, context), Inline(handler, context))
    case Run(pool, body, faults) =>
      if context == Some(pool) then Inline(body, context) else Run(pool, Inline(body, Some(pool)), faults)
    case _ => work
  }

  /** No `run` directly inside another one on the same pool. */
  predicate NoJoins(work: Work, context: Option<Pool>)
    decreases work
  {
    match work
    case Then(first, second) => NoJoins(first, context) && NoJoins(second, context)
    case Attempt(body, handler) => NoJoins(body, context) && NoJoins(handler, context)
    case Run(pool, body, _) => context != Some(pool) && NoJoins(body, Some(pool))
    case _ => true
  }

  /** Nested runs mean exactly what their bodies mean inlined, in any tree and any state. */
  lemma {:induction false} NestedRunsInline(work: Work, context: Option<Pool>, world: World)
    ensures Exec(Inline(work, context), context, world) == Exec(work, context, world)
    ensures NoJoins(Inline(work, context), context)
    decreases work
  {
    match work
    case Then(first, second) =>
      NestedRunsInline(first, context, world);
      NestedRunsInline(second, context, Exec(first, context, world).0);
    case Attempt(body, handler) =>
      NestedRunsInline(body, context, world);
      NestedRunsInline(handler, context, Exec(body, context, world).0);
    case Run(pool, body, faults) =>
      if context == Some(pool) {
        NestedRunsInline(body, context, world);
      } else {
        NestedRunsInline(body, Some(pool), world.(events := world.events + [Took(pool)], buffer := []));
      }
    case _ =>
  }

  // ---- atomicity --------------------------------------------------------------------------

  predicate Mentions(work: Work, pool: Pool) {
    match work
    case Query(p, _) => p == pool
    case Throw(_) => false
    case Then(first, second) => Mentions(first, pool) || Mentions(second, pool)
    case Attempt(body, handler) => Mentions(body, pool) || Mentions(handler, pool)
    case Run(p, body, _) => p == pool || Mentions(body, pool)
  }

  /** The work never comes back to `pool` from inside a run on another pool. */
  predicate Sealed(work: Work, pool: Pool) {
    match work
    case Then(first, second) => Sealed(first, pool) && Sealed(second, pool)
    case Attempt(body, handler) => Sealed(body, pool) && Sealed(handler, pool)
    case Run(p, body, _) => if p == pool then Sealed(body, pool) else !Mentions(body, pool)
    case _ => true
  }

  /** The writes on `pool` that survive: everything done before an error stays, caught or not. */
  function Surviving(work: Work, pool: Pool): seq<string>
    decreases work
  {
    match work
    case Query(p, write) => if p == pool then [write] else []
    case Throw(_) => []
    case Then(first, second) =>
      Surviving(first, pool) + if Ending(first, Some(pool)).Done? then Surviving(second, pool) else []
    case Attempt(body, handler) =>
      Surviving(body, pool) + if Ending(body, Some(pool)).Done? then [] else Surviving(handler, pool)
    case Run(p, body, _) => if p == pool then Surviving(body, pool) else []
  }

  /** What a database holds. */
  function Of(store: seq<Commit>, pool: Pool): seq<string> {
    if store == [] then []
    else Of(store[..|store| - 1], pool) + if store[|store| - 1].pool == pool then [store[|store| - 1].write] else []
  }

  lemma {:induction false} OfAppend(a: seq<Commit>, b: seq<Commit>, pool: Pool)
    ensures Of(a + b, pool) == Of(a, pool) + Of(b, pool)
  {
    if b == [] {
      assert a + b == a;
    } else {
      OfAppend(a, b[..|b| - 1], pool);
      assert (a + b)[..|a + b| - 1] == a + b[..|b| - 1];
    }
  }

  lemma {:induction false} OfTag(writes: seq<string>, pool: Pool, other: Pool)
    ensures Of(Tag(pool, writes), other) == if pool == other then writes else []
  {
    if writes != [] {
      var front := writes[..|writes| - 1];
      OfTag(front, pool, other);
      assert Tag(pool, writes)[..|writes| - 1] == Tag(pool, front);
    }
  }

  /** The writes of `work` on `pool` that reach its database at once, past any transaction `context` holds on it. */
  function Escaping(work: Work, pool: Pool, context: Option<Pool>): seq<string>
    decreases work
  {
    match work
    case Query(p, write) => if p == pool && context != Some(pool) then [write] else []
    case Throw(_) => []
    case Then(first, second) =>
      Escaping(first, pool, context) + if Ending(first, context).Done? then Escaping(second, pool, context) else []
    case Attempt(body, handler) =>
      Escaping(body, pool, context) + if Ending(body, context).Done? then [] else Escaping(handler, pool, context)
    case Run(p, body, faults) =>
      if context == Some(p) then Escaping(body, pool, context)
      else if faults.connectFails || faults.beginFails then []
      else Escaping(body, pool, Some(p)) + if p == pool && Lands(p, body, faults) then Surviving(body, pool) else []
  }

  /** Whether an outermost run's transaction takes effect. */
  predicate Lands(pool: Pool, body: Work, faults: Faults) {
    && !faults.connectFails && !faults.beginFails
    && Ending(body, Some(pool)).Done? && !faults.commit.Refused?
  }

  /** All that work leaves behind on one pool: in the database and in the open transaction. */
  ghost predicate Leaves(work: Work, pool: Pool, context: Option<Pool>, world: World) {
    var after := Exec(work, context, world).0;
    && Of(after.store, pool) == Of(world.store, pool) + Escaping(work, pool, context)
    && (context == Some(pool) ==> after.buffer == world.buffer + Surviving(work, pool))
  }

  lemma ThenLeaves(first: Work, second: Work, pool: Pool, context: Option<Pool>, world: World)
    requires Leaves(first, pool, context, world) && Leaves(second, pool, context, Exec(first, context, world).0)
    ensures Leaves(Then(first, second), pool, context, world)
  {
    ExecEnds(first, context, world);
    var middle := Exec(first, context, world).0;
    if Ending(first, context).Done? {
      assert Exec(Then(first, second), context, world).0 == Exec(second, context, middle).0;
      Regroup(Of(world.store, pool), Escaping(first, pool, context), Escaping(second, pool, context));
      Regroup(world.buffer, Surviving(first, pool), Surviving(second, pool));
    } else {
      assert Exec(Then(first, second), context, world).0 == middle;
      assert Escaping(Then(first, second), pool, context) == Escaping(first, pool, context);
    }
  }

  lemma AttemptDoneLeaves(body: Work, handler: Work, pool: Pool, context: Option<Pool>, world: World)
    requires Leaves(body, pool, context, world) && Ending(body, context).Done?
    ensures Leaves(Attempt(body, handler), pool, context, world)
  {
    ExecEnds(body, context, world);
    assert Exec(Attempt(body, handler), context, world).0 == Exec(body, context, world).0;
    assert Escaping(Attempt(body, handler), pool, context) == Escaping(body, pool, context);
    assert context == Some(pool) ==> Surviving(Attempt(body, handler), pool) == Surviving(body, pool);
  }

  lemma AttemptLeaves(body: Work, handler: Work, pool: Pool, context: Option<Pool>, world: World)
    requires Leaves(body, pool, context, world) && Leaves(handler, pool, context, Exec(body, context, world).0)
    ensures Leaves(Attempt(body, handler), pool, context, world)
  {
    if Ending(body, context).Done? {
      AttemptDoneLeaves(body, handler, pool, context, world);
    } else {
      ExecEnds(body, context, world);
      var middle := Exec(body, context, world).0;
      assert Exec(Attempt(body, handler), context, world).0 == Exec(handler, context, middle).0;
      Regroup(Of(world.store, pool), Escaping(body, pool, context), Escaping(handler, pool, context));
      Regroup(world.buffer, Surviving(body, pool), Surviving(handler, pool));
    }
  }

  /** A run that opens its own transaction, given what its body leaves. */
  lemma OutermostLeaves(p: Pool, body: Work, faults: Faults, pool: Pool, context: Option<Pool>, world: World)
    requires context != Some(p)
    requires Leaves(body, pool, Some(p), world.(events := world.events + [Took(p)], buffer := []))
    ensures Leaves(Run(p, body, faults), pool, context, world)
  {
    var taken := world.(events := world.events + [Took(p)], buffer := []);
    ExecEnds(body, Some(p), taken);
    if !faults.connectFails {
      var inner := if faults.beginFails then taken else Exec(body, Some(p), taken).0;
      var committed := if Lands(p, body, faults) then Tag(p, inner.buffer) else [];
      assert Exec(Run(p, body, faults), context, world).0.store == inner.store + committed;
      OfAppend(inner.store, committed, pool);
      OfTag(inner.buffer, p, pool);
      if Lands(p, body, faults) {
        assert p == pool ==> inner.buffer == Surviving(body, pool);
        Regroup(Of(world.store, pool), Escaping(body, pool, Some(p)), Of(committed, pool));
      }
    }
  }

  /** For every tree, every context and every state. */
  lemma {:induction false} WorkLeaves(work: Work, pool: Pool, context: Option<Pool>, world: World)
    ensures Leaves(work, pool, context, world)
    decreases work
  {
    match work
    case Query(p, write) =>
      OfAppend(world.store, [Commit(p, write)], pool);
    case Then(first, second) =>
      WorkLeaves(first, pool, context, world);
      WorkLeaves(second, pool, context, Exec(first, context, world).0);
      ThenLeaves(first, second, pool, context, world);
    case Attempt(body, handler) =>
      WorkLeaves(body, pool, context, world);
      WorkLeaves(handler, pool, context, Exec(body, context, world).0);
      AttemptLeaves(body, handler, pool, context, world);
    case Run(p, body, faults) =>
      if context == Some(p) {
        WorkLeaves(body, pool, context, world);
      } else {
        WorkLeaves(body, pool, Some(p), world.(events := world.events + [Took(p)], buffer := []));
        OutermostLeaves(p, body, faults, pool, context, world);
      }
    case _ =>
  }

  /** Work that never names a pool leaves nothing on it. */
  lemma {:induction false} UnmentionedLeavesNothing(work: Work, pool: Pool, context: Option<Pool>)
    requires !Mentions(work, pool)
    ensures Escaping(work, pool, context) == [] && Surviving(work, pool) == []
    decreases work
  {
    match work
    case Then(first, second) =>
      UnmentionedLeavesNothing(first, pool, context);
      UnmentionedLeavesNothing(second, pool, context);
    case Attempt(body, handler) =>
      UnmentionedLeavesNothing(body, pool, context);
      UnmentionedLeavesNothing(handler, pool, context);
    case Run(p, body, _) =>
      UnmentionedLeavesNothing(body, pool, if context == Some(p) then context else Some(p));
    case _ =>
  }

  /** Nothing escapes from sealed work. */
  lemma {:induction false} SealedKeepsIn(work: Work, pool: Pool)
    requires Sealed(work, pool)
    ensures Escaping(work, pool, Some(pool)) == []
    decreases work
  {
    match work
    case Then(first, second) =>
      SealedKeepsIn(first, pool);
      SealedKeepsIn(second, pool);
    case Attempt(body, handler) =>
      SealedKeepsIn(body, pool);
      SealedKeepsIn(handler, pool);
    case Run(p, body, _) =>
      if p == pool {
        SealedKeepsIn(body, pool);
      } else {
        UnmentionedLeavesNothing(body, pool, Some(p));
      }
    case _ =>
  }

  /**
   * What an outermost run commits, for any body: all its surviving writes or none of them, as its
   * errors and COMMIT decide, after whatever escaped it.  A run that reports success has committed;
   * one that reports an error has not, unless COMMIT's reply was lost.
   */
  lemma AllOrNothing(pool: Pool, body: Work, faults: Faults, context: Option<Pool>, world: World)
    requires context != Some(pool)
    ensures var (after, result) := Exec(Run(pool, body, faults), context, world);
            var escaped := if faults.connectFails || faults.beginFails then [] else Escaping(body, pool, Some(pool));
            var committed := if Lands(pool, body, faults) then Surviving(body, pool) else [];
            && Of(after.store, pool) == Of(world.store, pool) + (escaped + committed)
            && after.buffer == world.buffer
            && (result.Done? ==> Lands(pool, body, faults))
            && (result.Thrown? && Lands(pool, body, faults) ==> faults.commit.ReplyLost?)
            && (Sealed(body, pool) ==> escaped == [])
  {
    WorkLeaves(Run(pool, body, faults), pool, context, world);
    ExecEnds(Run(pool, body, faults), context, world);
    if Sealed(body, pool) {
      SealedKeepsIn(body, pool);
    }
  }

  /**
   * The exact condition for a run that got its connection and its transaction: the database gains
   * its surviving writes or nothing, as decided, if and only if nothing escapes the body.
   */
  lemma AtomicIffNothingEscapes(pool: Pool, body: Work, faults: Faults, context: Option<Pool>, world: World)
    requires context != Some(pool) && !faults.connectFails && !faults.beginFails
    ensures var after := Exec(Run(pool, body, faults), context, world).0;
            Of(after.store, pool) == Of(world.store, pool) + (if Lands(pool, body, faults) then Surviving(body, pool) else [])
            <==> Escaping(body, pool, Some(pool)) == []
  {
    AllOrNothing(pool, body, faults, context, world);
    var (before, escaped) := (Of(world.store, pool), Escaping(body, pool, Some(pool)));
    var committed := if Lands(pool, body, faults) then Surviving(body, pool) else [];
    assert |before + (escaped + committed)| == |before + committed| + |escaped|;
    assert escaped == [] ==> escaped + committed == committed;
  }

  /**
   * A nested run that throws leaves nothing behind if and only if its body had not written in the
   * transaction and nothing escaped it: the join has no savepoint.
   */
  lemma JoinedRunAtomicIff(pool: Pool, body: Work, faults: Faults, world: World)
    requires Ending(body, Some(pool)).Thrown?
    ensures var (after, result) := Exec(Run(pool, body, faults), Some(pool), world);
            && result == Ending(body, Some(pool))
            && (after.buffer == world.buffer <==> Surviving(body, pool) == [])
            && (Of(after.store, pool) == Of(world.store, pool) <==> Escaping(body, pool, Some(pool)) == [])
  {
    WorkLeaves(body, pool, Some(pool), world);
    ExecEnds(body, Some(pool), world);
    var after := Exec(Run(pool, body, faults), Some(pool), world).0;
    assert |after.buffer| == |world.buffer| + |Surviving(body, pool)|;
    assert |Of(after.store, pool)| == |Of(world.store, pool)| + |Escaping(body, pool, Some(pool))|;
  }

  const FINE := Faults(false, false, Commits, false)

  /** Coming back to a pool through another one escapes its transaction. */
  lemma EscapesThroughAnotherPool(a: Pool, b: Pool, write: string, world: World)
    requires a != b
    ensures var detour := Run(b, Run(a, Query(a, write), FINE), FINE);
            var (after, result) := Exec(Run(a, Then(detour, Throw("outer")), FINE), None, world);
            result == Thrown("outer") && Of(after.store, a) == Of(world.store, a) + [write]
  {
    var query := Query(a, write);
    var detour := Run(b, Run(a, query, FINE), FINE);
    var body := Then(detour, Throw("outer"));
    assert Escaping(Run(a, query, FINE), a, Some(b)) == [write];
    assert Escaping(detour, a, Some(a)) == [write] && Escaping(body, a, Some(a)) == [write];
    assert Ending(detour, Some(a)).Done? && Ending(body, Some(a)) == Thrown("outer");
    AllOrNothing(a, body, FINE, None, world);
    ExecEnds(Run(a, body, FINE), None, world);
  }

  /** A nested run is not atomic on its own: caught in the outer one, its half-done work commits. */
  lemma CaughtNestedFailureCommits(pool: Pool, write: string, any: Faults, world: World)
    ensures var nested := Run(pool, Then(Query(pool, write), Throw("inner")), any);
            var (after, result) := Exec(Run(pool, Attempt(nested, Query(pool, "fallback")), FINE), None, world);
            result == Done && Of(after.store, pool) == Of(world.store, pool) + [write, "fallback"]
  {
    var steps := Then(Query(pool, write), Throw("inner"));
    var nested := Run(pool, steps, any);
    var fallback := Query(pool, "fallback");
    assert Ending(steps, Some(pool)) == Thrown("inner") && Surviving(steps, pool) == [write];
    HandlerRunsOn(nested, fallback, pool, world);
    assert [write] + ["fallback"] == [write, "fallback"];
  }

  lemma HandlerRunsOn(failing: Work, handler: Work, pool: Pool, world: World)
    requires Sealed(failing, pool) && Sealed(handler, pool)
    requires Ending(failing, Some(pool)).Thrown? && Ending(handler, Some(pool)).Done?
    ensures var (after, result) := Exec(Run(pool, Attempt(failing, handler), FINE), None, world);
            result == Done && Of(after.store, pool) == Of(world.store, pool) + (Surviving(failing, pool) + Surviving(handler, pool))
  {
    var body := Attempt(failing, handler);
    SealedKeepsIn(body, pool);
    AllOrNothing(pool, body, FINE, None, world);
    ExecEnds(Run(pool, body, FINE), None, world);
    assert [] + Surviving(body, pool) == Surviving(body, pool);
  }

  // ---- connections ------------------------------------------------------------------------

  function Delta(event: Event, pool: Pool): int {
    if event.pool != pool then 0 else if event.Took? then 1 else -1
  }

  /** Connections of a pool in use after the events. */
  function Held(events: seq<Event>, pool: Pool): int {
    if events == [] then 0
    else Held(events[..|events| - 1], pool) + Delta(events[|events| - 1], pool)
  }

  lemma OutermostReturns(p: Pool, body: Work, faults: Faults, context: Option<Pool>, world: World, pool: Pool)
    requires context != Some(p)
    requires var taken := world.(events := world.events + [Took(p)], buffer := []);
             Held(Exec(body, Some(p), taken).0.events, pool) == Held(taken.events, pool)
    ensures Held(Exec(Run(p, body, faults), context, world).0.events, pool) == Held(world.events, pool)
  {
  }

  /** On every path, with any errors, whatever connections work takes it gives back. */
  lemma {:induction false} ConnectionsReturned(work: Work, context: Option<Pool>, world: World, pool: Pool)
    ensures Held(Exec(work, context, world).0.events, pool) == Held(world.events, pool)
    decreases work
  {
    match work
    case Then(first, second) =>
      ConnectionsReturned(first, context, world, pool);
      ConnectionsReturned(second, context, Exec(first, context, world).0, pool);
    case Attempt(body, handler) =>
      ConnectionsReturned(body, context, world, pool);
      ConnectionsReturned(handler, context, Exec(body, context, world).0, pool);
    case Run(p, body, faults) =>
      if context == Some(p) {
        ConnectionsReturned(body, context, world, pool);
      } else {
        var taken := world.(events := world.events + [Took(p)], buffer := []);
        ConnectionsReturned(body, Some(p), taken, pool);
        OutermostReturns(p, body, faults, context, world, pool);
      }
    case _ =>
  }

  /** The takes and releases on one pool. */
  function On(events: seq<Event>, pool: Pool): seq<Event> {
    if events == [] then []
    else On(events[..|events| - 1], pool) + if events[|events| - 1].pool == pool then [events[|events| - 1]] else []
  }

  lemma OnMore(events: seq<Event>, event: Event, pool: Pool)
    ensures On(events + [event], pool) == On(events, pool) + if event.pool == pool then [event] else []
  {
    assert (events + [event])[..|events|] == events;
  }

  /** What work takes and releases on `pool`, in order. */
  function Traffic(work: Work, pool: Pool, context: Option<Pool>): seq<Event>
    decreases work
  {
    match work
    case Query(_, _) => []
    case Throw(_) => []
    case Then(first, second) =>
      Traffic(first, pool, context) + if Ending(first, context).Done? then Traffic(second, pool, context) else []
    case Attempt(body, handler) =>
      Traffic(body, pool, context) + if Ending(body, context).Done? then [] else Traffic(handler, pool, context)
    case Run(p, body, faults) =>
      if context == Some(p) then Traffic(body, pool, context)
      else if faults.connectFails then []
      else
        var inner := if faults.beginFails then [] else Traffic(body, pool, Some(p));
        if p == pool then [Took(p)] + inner + [Released(p)] else inner
  }

  ghost predicate Moves(work: Work, pool: Pool, context: Option<Pool>, world: World) {
    On(Exec(work, context, world).0.events, pool) == On(world.events, pool) + Traffic(work, pool, context)
  }

  lemma Bracketed(events: seq<Event>, inner: seq<Event>, p: Pool, pool: Pool, between: seq<Event>)
    requires On(inner, pool) == On(events + [Took(p)], pool) + between
    ensures On(inner + [Released(p)], pool)
            == On(events, pool) + if p == pool then [Took(p)] + between + [Released(p)] else between
  {
    OnMore(events, Took(p), pool);
    OnMore(inner, Released(p), pool);
    if p == pool {
      Regroup(On(events, pool), [Took(p)], between);
      Regroup(On(events, pool), [Took(p)] + between, [Released(p)]);
    } else {
      assert On(events, pool) + [] == On(events, pool) && On(inner, pool) + [] == On(inner, pool);
    }
  }

  lemma OutermostMoves(p: Pool, body: Work, faults: Faults, pool: Pool, context: Option<Pool>, world: World)
    requires context != Some(p)
    requires Moves(body, pool, Some(p), world.(events := world.events + [Took(p)], buffer := []))
    ensures Moves(Run(p, body, faults), pool, context, world)
  {
    var taken := world.(events := world.events + [Took(p)], buffer := []);
    if !faults.connectFails {
      var inner := if faults.beginFails then taken else Exec(body, Some(p), taken).0;
      var between := if faults.beginFails then [] else Traffic(body, pool, Some(p));
      assert On(taken.events, pool) + [] == On(taken.events, pool);
      Bracketed(world.events, inner.events, p, pool, between);
      assert Exec(Run(p, body, faults), context, world).0.events == inner.events + [Released(p)];
    }
  }

  lemma ThenMoves(first: Work, second: Work, pool: Pool, context: Option<Pool>, world: World)
    requires Moves(first, pool, context, world) && Moves(second, pool, context, Exec(first, context, world).0)
    ensures Moves(Then(first, second), pool, context, world)
  {
    ExecEnds(first, context, world);
    if Ending(first, context).Done? {
      Regroup(On(world.events, pool), Traffic(first, pool, context), Traffic(second, pool, context));
    }
  }

  lemma AttemptMoves(body: Work, handler: Work, pool: Pool, context: Option<Pool>, world: World)
    requires Moves(body, pool, context, world) && Moves(handler, pool, context, Exec(body, context, world).0)
    ensures Moves(Attempt(body, handler), pool, context, world)
  {
    ExecEnds(body, context, world);
    if Ending(body, context).Thrown? {
      Regroup(On(world.events, pool), Traffic(body, pool, context), Traffic(handler, pool, context));
    }
  }

  lemma {:induction false} WorkMoves(work: Work, pool: Pool, context: Option<Pool>, world: World)
    ensures Moves(work, pool, context, world)
    decreases work
  {
    match work
    case Then(first, second) =>
      WorkMoves(first, pool, context, world);
      WorkMoves(second, pool, context, Exec(first, context, world).0);
      ThenMoves(first, second, pool, context, world);
    case Attempt(body, handler) =>
      WorkMoves(body, pool, context, world);
      WorkMoves(handler, pool, context, Exec(body, context, world).0);
      AttemptMoves(body, handler, pool, context, world);
    case Run(p, body, faults) =>
      if context == Some(p) {
        WorkMoves(body, pool, context, world);
      } else {
        WorkMoves(body, pool, Some(p), world.(events := world.events + [Took(p)], buffer := []));
        OutermostMoves(p, body, faults, pool, context, world);
      }
    case _ =>
  }

  lemma {:induction false} UnmentionedTakesNone(work: Work, pool: Pool, context: Option<Pool>)
    requires !Mentions(work, pool)
    ensures Traffic(work, pool, context) == []
    decreases work
  {
    match work
    case Then(first, second) =>
      UnmentionedTakesNone(first, pool, context);
      UnmentionedTakesNone(second, pool, context);
    case Attempt(body, handler) =>
      UnmentionedTakesNone(body, pool, context);
      UnmentionedTakesNone(handler, pool, context);
    case Run(p, body, _) =>
      UnmentionedTakesNone(body, pool, if context == Some(p) then context else Some(p));
    case _ =>
  }

  lemma {:induction false} SealedTakesNone(work: Work, pool: Pool)
    requires Sealed(work, pool)
    ensures Traffic(work, pool, Some(pool)) == []
    decreases work
  {
    match work
    case Then(first, second) =>
      SealedTakesNone(first, pool);
      SealedTakesNone(second, pool);
    case Attempt(body, handler) =>
      SealedTakesNone(body, pool);
      SealedTakesNone(handler, pool);
    case Run(p, body, _) =>
      if p == pool {
        SealedTakesNone(body, pool);
      } else {
        UnmentionedTakesNone(body, pool, Some(p));
      }
    case _ =>
  }

  /**
   * An outermost run of sealed work, whatever it does on other pools and wherever it is opened,
   * takes exactly one connection of its pool and releases it, or none if it cannot connect.
   */
  lemma ExactlyOneConnection(pool: Pool, body: Work, faults: Faults, context: Option<Pool>, world: World)
    requires context != Some(pool) && Sealed(body, pool)
    ensures On(Exec(Run(pool, body, faults), context, world).0.events, pool)
            == On(world.events, pool) + if faults.connectFails then [] else [Took(pool), Released(pool)]
  {
    SealedTakesNone(body, pool);
    WorkMoves(Run(pool, body, faults), pool, context, world);
  }

  /** For any body, one connection is enough if and only if no second run on the pool gets through to it. */
  lemma OneConnectionIff(pool: Pool, body: Work, faults: Faults, context: Option<Pool>, world: World)
    requires context != Some(pool) && !faults.connectFails && !faults.beginFails
    ensures On(Exec(Run(pool, body, faults), context, world).0.events, pool)
            == On(world.events, pool) + [Took(pool), Released(pool)]
            <==> Traffic(body, pool, Some(pool)) == []
  {
    WorkMoves(Run(pool, body, faults), pool, context, world);
    var inner := Traffic(body, pool, Some(pool));
    assert Traffic(Run(pool, body, faults), pool, context) == [Took(pool)] + inner + [Released(pool)];
    assert |On(world.events, pool) + ([Took(pool)] + inner + [Released(pool)])|
        == |On(world.events, pool) + [Took(pool), Released(pool)]| + |inner|;
    assert inner == [] ==> [Took(pool)] + inner + [Released(pool)] == [Took(pool), Released(pool)];
  }

  /** The same detour holds two connections of the pool at once. */
  lemma DetourTakesTwoConnections(a: Pool, b: Pool, write: string, context: Option<Pool>, world: World)
    requires a != b && context != Some(a)
    ensures var body := Run(b, Run(a, Query(a, write), FINE), FINE);
            On(Exec(Run(a, body, FINE), context, world).0.events, a)
            == On(world.events, a) + [Took(a), Took(a), Released(a), Released(a)]
  {
    var innermost := Run(a, Query(a, write), FINE);
    var body := Run(b, innermost, FINE);
    assert Traffic(innermost, a, Some(b)) == [Took(a), Released(a)];
    assert Traffic(body, a, Some(a)) == [Took(a), Released(a)];
    WorkMoves(Run(a, body, FINE), a, context, world);
  }

  // ---- the object -------------------------------------------------------------------------

  /** A connection checked out of its pool, with the writes of its open transaction. */
  class PoolClient {
    const pool: Pool
    var buffer: seq<string>

    constructor (pool: Pool)
      ensures this.pool == pool && buffer == []
    {
      this.pool, buffer := pool, [];
    }
  }

  class Session {
    var store: seq<Commit>
    var events: seq<Event>
    var transactionStorage: PoolClient?    // what `AsyncLocalStorage` holds in this call chain

    constructor ()
      ensures store == [] && events == [] && transactionStorage == null
    {
      store, events, transactionStorage := [], [], null;
    }

    function Context(): Option<Pool>
      reads this
    {
      if transactionStorage == null then None else Some(transactionStorage.pool)
    }

    function View(): World
      reads this, transactionStorage
    {
      World(store, if transactionStorage == null then [] else transactionStorage.buffer, events)
    }

    method Query(pool: Pool, write: string)
      modifies this`store, transactionStorage
      ensures (View(), Done) == Exec(Work.Query(pool, write), old(Context()), old(View()))
    {
      if transactionStorage != null && transactionStorage.pool == pool {
        transactionStorage.buffer := transactionStorage.buffer + [write];
      } else {
        store := store + [Commit(pool, write)];
      }
    }

    method Perform(work: Work) returns (result: Result)
      modifies this, transactionStorage
      ensures transactionStorage == old(transactionStorage)
      ensures (View(), result) == Exec(work, old(Context()), old(View()))
      decreases work, 0
    {
      match work
      case Query(pool, write) =>
        Query(pool, write);
        result := Done;
      case Throw(error) =>
        result := Thrown(error);
      case Then(first, second) =>
        result := Perform(first);
        if result.Done? {
          result := Perform(second);
        }
      case Attempt(body, handler) =>
        result := Perform(body);
        if result.Thrown? {
          result := Perform(handler);
        }
      case Run(pool, body, faults) =>
        result := RunWork(pool, body, faults);
    }

    method RunWork(pool: Pool, body: Work, faults: Faults) returns (result: Result)
      modifies this, transactionStorage
      ensures transactionStorage == old(transactionStorage)
      ensures (View(), result) == Exec(Run(pool, body, faults), old(Context()), old(View()))
      decreases body, 1
    {
      if transactionStorage != null && transactionStorage.pool == pool {
        result := Perform(body);
        return;
      }
      if faults.connectFails {
        return Thrown(CONNECT_ERROR);
      }
      var client := new PoolClient(pool);
      events := events + [Took(pool)];
      if faults.beginFails {
        result := Thrown(BEGIN_ERROR);
      } else {
        var outer := transactionStorage;
        transactionStorage := client;
        result := Perform(body);
        transactionStorage := outer;
        if result.Done? {
          if !faults.commit.Refused? {
            store := store + Tag(pool, client.buffer);
          }
          if !faults.commit.Commits? {
            result := Thrown(COMMIT_ERROR);
          }
        }
      }
      if result.Thrown? && faults.rollbackFails {
        result := Thrown(ROLLBACK_ERROR);
      }
      events := events + [Released(pool)];
    }
  }
}
