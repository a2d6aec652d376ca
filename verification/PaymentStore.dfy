/**
 * The payment table with its optimistic lock, and the use cases that drive it concurrently:
 * load a copy, run one domain method on it, save if nobody else did, otherwise reload and retry.
 */
module PaymentStore {
  import opened Prelude
  import opened Text
  import opened PaymentPolicy
  import opened PaymentEntity
  import opened PaymentRuns

  type Rows = map<string, Payment>

  // ---- unique indexes ---------------------------------------------------------------------

  datatype Backend = Postgres | Mongo

  /** Which transaction ids the partial unique index of each database covers. */
  predicate Indexed(backend: Backend, id: Option<string>) {
    match backend
    case Postgres => id.Some? && id.value != "" && id.value != "0"
    case Mongo => id.Some?
  }

  predicate SameTransaction(backend: Backend, a: Props, b: Props) {
    && a.order.provider == b.order.provider
    && Indexed(backend, a.transactionId) && a.transactionId == b.transactionId
  }

  predicate SameIdempotencyKey(a: Order, b: Order) {
    a.userId == b.userId && a.idempotencyKey == b.idempotencyKey
  }

  predicate SameProviderOrder(a: Order, b: Order) {
    a.provider == b.provider && a.providerOrderId == b.providerOrderId
  }

  /** No two payments share a provider order, an idempotency key, or a non-null transaction id. */
  ghost predicate Unique(rows: Rows) {
    forall a, b | a in rows && b in rows && a != b ::
      && !SameIdempotencyKey(rows[a].props.order, rows[b].props.order)
      && !SameProviderOrder(rows[a].props.order, rows[b].props.order)
      && !(rows[a].props.order.provider == rows[b].props.order.provider
           && rows[a].props.transactionId.Some? && rows[a].props.transactionId == rows[b].props.transactionId)
  }

  // ---- save and insert --------------------------------------------------------------------

  datatype SaveResult = Saved(row: Payment) | Stale | TransactionTaken

  function WithVersion(p: Payment, version: nat): Payment {
    p.(props := p.props.(version := version))
  }

  /** The UPDATE: only the columns domain methods change, and the version moves on by one. */
  function Updated(row: Payment, p: Payment): Payment {
    row.(props := row.props.(status := p.props.status,
                             checkoutUrl := p.props.checkoutUrl,
                             transactionId := p.props.transactionId,
                             resultCode := p.props.resultCode,
                             version := row.props.version + 1),
         updatedAt := p.updatedAt)
  }

  predicate TransactionClash(backend: Backend, rows: Rows, id: string, p: Payment) {
    exists other | other in rows && other != id :: SameTransaction(backend, p.props, rows[other].props)
  }

  function SaveRow(backend: Backend, rows: Rows, id: string, p: Payment): (Rows, SaveResult) {
    if id !in rows || rows[id].props.version != p.props.version then (rows, Stale)
    else
      var row := Updated(rows[id], p);
      if TransactionClash(backend, rows, id, row) then (rows, TransactionTaken)
      else (rows[id := row], Saved(row))
  }

  predicate CanInsert(rows: Rows, id: string, order: Order) {
    && id !in rows
    && forall other | other in rows ::
         !SameIdempotencyKey(order, rows[other].props.order) && !SameProviderOrder(order, rows[other].props.order)
  }

  /** Another row of the provider has the same transaction id, and the database's index covers it. */
  predicate TakenByAnother(backend: Backend, rows: Rows, id: string, provider: string, transactionId: Option<string>) {
    && transactionId.Some?
    && (backend == Postgres ==> transactionId != Some("") && transactionId != Some("0"))
    && exists other | other in rows ::
         other != id && rows[other].props.order.provider == provider && rows[other].props.transactionId == transactionId
  }

  /** What is stored: the caller's mutable columns, everything else as it was, one version on. */
  predicate SavedFrom(before: Payment, caller: Payment, after: Payment) {
    && after.props.status == caller.props.status && after.props.checkoutUrl == caller.props.checkoutUrl
    && after.props.transactionId == caller.props.transactionId && after.props.resultCode == caller.props.resultCode
    && after.updatedAt == caller.updatedAt
    && after.props.order == before.props.order && after.createdAt == before.createdAt
    && after.props.version == before.props.version + 1
  }

  /** The repository object, one call at a time. */
  class PaymentRepository {
    const backend: Backend
    var rows: Rows

    constructor (backend: Backend)
      ensures rows == map[] && this.backend == backend
    {
      this.backend, rows := backend, map[];
    }

    method Save(id: string, p: Payment) returns (saved: SaveResult)
      modifies this`rows
      ensures (rows, saved) == SaveRow(backend, old(rows), id, p)
      ensures var current := id in old(rows) && old(rows)[id].props.version == p.props.version;
              var taken := current && TakenByAnother(backend, old(rows), id, old(rows)[id].props.order.provider, p.props.transactionId);
              && (saved.Stale? <==> !current)
              && (saved.TransactionTaken? <==> taken)
              && (saved.Saved? <==> current && !taken)
      ensures saved.Saved? ==>
                && rows.Keys == old(rows).Keys && rows[id] == saved.row
                && (forall other | other in rows && other != id :: rows[other] == old(rows)[other])
                && SavedFrom(old(rows)[id], p, saved.row)
      ensures !saved.Saved? ==> rows == old(rows)
    {
      if id !in rows || rows[id].props.version != p.props.version {
        return Stale;
      }
      var row := Updated(rows[id], p);
      var clash := TransactionClash(backend, rows, id, row);
      if clash {
        return TransactionTaken;
      }
      rows := rows[id := row];
      return Saved(row);
    }

    /** A second request with the same user and key finds the first payment and stores nothing. */
    method InsertOrFindByIdempotency(id: string, p: Payment) returns (found: Option<string>, inserted: bool)
      requires Unique(rows) && id !in rows && p.props.transactionId.None?
      modifies this`rows
      ensures Unique(rows)
      ensures inserted <==>
                forall other | other in old(rows) ::
                  var (mine, theirs) := (p.props.order, old(rows)[other].props.order);
                  && !(mine.userId == theirs.userId && mine.idempotencyKey == theirs.idempotencyKey)
                  && !(mine.provider == theirs.provider && mine.providerOrderId == theirs.providerOrderId)
      ensures rows == if inserted then old(rows)[id := p] else old(rows)
      ensures !inserted && found.Some? ==>
                && found.value in rows && rows[found.value].props.order.userId == p.props.order.userId
                && rows[found.value].props.order.idempotencyKey == p.props.order.idempotencyKey
      ensures found.None? ==>
                !inserted && forall other | other in rows :: !SameIdempotencyKey(rows[other].props.order, p.props.order)
    {
      var keys := rows.Keys;
      var clash := false;
      while keys != {}
        invariant keys <= rows.Keys && rows == old(rows)
        invariant forall k | k in rows && k !in keys :: !SameIdempotencyKey(rows[k].props.order, p.props.order)
        invariant clash <==> exists k | k in rows && k !in keys :: SameProviderOrder(p.props.order, rows[k].props.order)
        decreases keys
      {
        var k :| k in keys;
        if SameIdempotencyKey(rows[k].props.order, p.props.order) {
          return Some(k), false;
        }
        clash := clash || SameProviderOrder(p.props.order, rows[k].props.order);
        keys := keys - {k};
      }
      if clash {
        return None, false;     // the other unique index: the insert throws
      }
      rows := rows[id := p];
      return Some(id), true;
    }
  }

  // ---- concurrent use cases ---------------------------------------------------------------

  const MAX_SAVE_ATTEMPTS := 3

  /** How a use case finds its payment. */
  datatype Target = ById(id: string) | ByOrder(provider: string, providerOrderId: string)

  predicate Hits(target: Target, id: string, row: Payment) {
    match target
    case ById(wanted) => id == wanted
    case ByOrder(provider, orderId) =>
      row.props.order.provider == provider && row.props.order.providerOrderId == orderId
  }

  predicate IsVerifiedNotification(n: Notification) {
    && !Blank(n.providerOrderId)
    && (n.providerRequestId.Some? ==> !Blank(n.providerRequestId.value))
    && n.amountVnd == n.amountVnd.Floor as real && n.amountVnd > 0.0
    && !Blank(n.resultCode)
    && IsOutcome(n.outcome)
  }

  lemma VerifiedFields(n: Notification, amount: int, fraction: real)
    requires n.amountVnd == amount as real + fraction && 0.0 <= fraction < 1.0
    ensures IsVerifiedNotification(n) <==>
            && HasInk(n.providerOrderId) && HasInk(n.resultCode)
            && (n.providerRequestId == None || HasInk(n.providerRequestId.value))
            && fraction == 0.0 && amount > 0
            && n.outcome in {Pending, Succeeded, Failed, Cancelled}
  {
    InkIsNotBlank(n.providerOrderId);
    InkIsNotBlank(n.resultCode);
    if n.providerRequestId.Some? {
      InkIsNotBlank(n.providerRequestId.value);
    }
    assert n.amountVnd.Floor == amount;
    StatusSets(n.outcome);
  }

  datatype Outcome = Did(reply: Reply, commit: nat) | NotFound | GaveUp | TakenElsewhere

  datatype Client =
    | Loading(target: Target, op: Op, attempt: nat)
    | Loaded(target: Target, op: Op, attempt: nat, id: string, copy: Payment)
    | Changed(target: Target, op: Op, attempt: nat, id: string, base: Payment, copy: Payment, at: int)
    | Ended(target: Target, op: Op, id: string, at: int, outcome: Outcome)

  /** `born` and `log` are history: each row as inserted, and its committed operations in order. */
  datatype System = System(
    backend: Backend,
    rows: Rows,
    clients: map<nat, Client>,
    born: Rows,
    log: map<string, seq<Timed>>)

  datatype Step =
    | Insert(id: string, order: Order, now: int)
    | Start(c: nat, target: Target, op: Op)
    | Load(c: nat, id: string)
    | LoadMisses(c: nat)
    | Act(c: nat, at: int)
    | Save(c: nat)

  predicate Enabled(s: System, step: Step) {
    match step
    case Insert(id, order, now) => CanInsert(s.rows, id, order) && Created(order, now).Some?
    case Start(c, target, op) =>
      && c !in s.clients
      && (op.Notify? ==> IsVerifiedNotification(op.n) && target == ByOrder(op.n.provider, op.n.providerOrderId))
    case Load(c, id) => c in s.clients && s.clients[c].Loading? && id in s.rows && Hits(s.clients[c].target, id, s.rows[id])
    case LoadMisses(c) =>
      && c in s.clients && s.clients[c].Loading?
      && forall id | id in s.rows :: !Hits(s.clients[c].target, id, s.rows[id])
    case Act(c, _) => c in s.clients && s.clients[c].Loaded?
    case Save(c) => c in s.clients && s.clients[c].Changed? && s.clients[c].id in s.log
  }

  function Apply(s: System, step: Step): System
    requires Enabled(s, step)
  {
    match step
    case Insert(id, order, now) =>
      s.(rows := s.rows[id := Created(order, now).value],
         born := s.born[id := Created(order, now).value],
         log := s.log[id := []])
    case Start(c, target, op) => s.(clients := s.clients[c := Loading(target, op, 0)])
    case Load(c, id) =>
      var Loading(target, op, attempt) := s.clients[c];
      s.(clients := s.clients[c := Loaded(target, op, attempt, id, s.rows[id])])
    case LoadMisses(c) =>
      s.(clients := s.clients[c := Ended(s.clients[c].target, s.clients[c].op, "", 0, NotFound)])
    case Act(c, at) =>
      var Loaded(target, op, attempt, id, base) := s.clients[c];
      var (copy, reply) := Perform(base, op, at);
      s.(clients := s.clients[c := if reply == Applied then Changed(target, op, attempt, id, base, copy, at)
                                   else Ended(target, op, id, at, Did(reply, 0))])
    case Save(c) =>
      var Changed(target, op, attempt, id, base, copy, at) := s.clients[c];
      var (rows, saved) := SaveRow(s.backend, s.rows, id, copy);
      match saved
      case Saved(_) =>
        s.(rows := rows,
           log := s.log[id := s.log[id] + [Timed(op, at)]],
           clients := s.clients[c := Ended(target, op, id, at, Did(Applied, |s.log[id]|))])
      case Stale =>
        s.(clients := s.clients[c := if attempt + 1 < MAX_SAVE_ATTEMPTS then Loading(target, op, attempt + 1)
                                     else Ended(target, op, id, at, GaveUp)])
      case TransactionTaken =>
        s.(clients := s.clients[c := Ended(target, op, id, at, TakenElsewhere)])
  }

  predicate Legal(s: System, steps: seq<Step>)
    decreases steps
  {
    steps == [] || (Enabled(s, steps[0]) && Legal(Apply(s, steps[0]), steps[1..]))
  }

  function Final(s: System, steps: seq<Step>): System
    requires Legal(s, steps)
    decreases steps
  {
    if steps == [] then s else Final(Apply(s, steps[0]), steps[1..])
  }

  // ---- the invariant ----------------------------------------------------------------------

  /** The row is the fold of its committed operations, and the version counts them. */
  predicate RowOk(row: Payment, born: Payment, log: seq<Timed>) {
    && born == NewPayment(born.props.order, born.createdAt) && Verified(log)
    && (forall i | 0 <= i < |log| :: born.createdAt <= log[i].at)
    && row == WithVersion(Play(born, log), |log|) && row.createdAt == born.createdAt
  }

  /** A copy is old news, or exactly the row. */
  predicate CopyOk(rows: Rows, id: string, copy: Payment) {
    && id in rows
    && copy.props.version <= rows[id].props.version
    && (copy.props.version == rows[id].props.version ==> copy == rows[id])
  }

  predicate ClientOk(rows: Rows, log: map<string, seq<Timed>>, client: Client) {
    && VerifiedOp(client.op)
    && match client
       case Loading(_, _, _) => true
       case Loaded(target, _, _, id, copy) => CopyOk(rows, id, copy) && Hits(target, id, copy)
       case Changed(target, op, _, id, base, copy, at) =>
         CopyOk(rows, id, base) && Hits(target, id, base) && Perform(base, op, at) == (copy, Applied)
       case Ended(target, op, id, at, outcome) =>
         outcome.Did? && outcome.reply == Applied ==>
           id in log && outcome.commit < |log[id]| && log[id][outcome.commit] == Timed(op, at)
  }

  predicate RowsOk(rows: Rows, born: Rows, log: map<string, seq<Timed>>) {
    && born.Keys == rows.Keys && log.Keys == rows.Keys
    && forall id | id in rows :: RowOk(rows[id], born[id], log[id]) && NoPlaceholder(rows[id].props.transactionId)
  }

  ghost predicate Inv(s: System) {
    && RowsOk(s.rows, s.born, s.log)
    && (forall c | c in s.clients :: ClientOk(s.rows, s.log, s.clients[c]))
    && Unique(s.rows)
  }

  lemma PerformIgnoresVersion(p: Payment, version: nat, op: Op, at: int)
    ensures var (q, reply) := Perform(p, op, at);
            Perform(WithVersion(p, version), op, at) == (WithVersion(q, version), reply)
  {
    assert Decide(WithVersion(p, version).props, op) == Decide(p.props, op);
    var intent := Decide(p.props, op);
    if intent.Change? {
      MergeIgnoresVersion(p.props, version, intent.patch);
    }
  }

  lemma MergeIgnoresVersion(props: Props, version: nat, patch: Patch)
    ensures Merge(props.(version := version), patch) == Merge(props, patch).(version := version)
    ensures ValidProps(Merge(props.(version := version), patch)) <==> ValidProps(Merge(props, patch))
  {
  }

  lemma PerformKeepsVersion(p: Payment, op: Op, at: int)
    ensures Perform(p, op, at).0.props.version == p.props.version
  {
  }

  /** Neither the empty id nor the "0" placeholder is ever stored. */
  predicate NoPlaceholder(id: Option<string>) {
    id.Some? ==> id.value != "" && id.value != "0"
  }

  lemma NoPlaceholderStep(p: Payment, op: Op, at: int)
    requires NoPlaceholder(p.props.transactionId)
    ensures NoPlaceholder(Perform(p, op, at).0.props.transactionId)
  {
  }

  lemma {:induction false} PlayAppend(p: Payment, log: seq<Timed>, t: Timed)
    ensures Play(p, log + [t]) == Perform(Play(p, log), t.op, t.at).0
    decreases log
  {
    if log == [] {
      assert Play(Perform(p, t.op, t.at).0, []) == Perform(p, t.op, t.at).0;
      assert ([t])[1..] == [];
    } else {
      PlayAppend(Perform(p, log[0].op, log[0].at).0, log[1..], t);
      assert (log + [t])[1..] == log[1..] + [t];
    }
  }

  /** Committing an operation that was run on the current row extends the fold by it. */
  lemma CommitOk(row: Payment, born: Payment, log: seq<Timed>, op: Op, at: int, copy: Payment)
    requires RowOk(row, born, log) && VerifiedOp(op) && Perform(row, op, at) == (copy, Applied)
    ensures RowOk(Updated(row, copy), born, log + [Timed(op, at)])
    ensures Updated(row, copy).props.order == row.props.order
    ensures Updated(row, copy) == WithVersion(copy, row.props.version + 1)
  {
    assert Updated(row, copy) == WithVersion(copy, |log| + 1);
    PerformIgnoresVersion(Play(born, log), |log|, op, at);
    PlayAppend(born, log, Timed(op, at));
  }

  /** The database's index check is what keeps transaction ids apart. */
  lemma SaveKeepsUnique(backend: Backend, rows: Rows, id: string, row: Payment)
    requires Unique(rows) && id in rows && row.props.order == rows[id].props.order
    requires NoPlaceholder(row.props.transactionId) && !TransactionClash(backend, rows, id, row)
    ensures Unique(rows[id := row])
  {
  }

  lemma SaveCommits(s: System, c: nat)
    requires Inv(s) && Enabled(s, Save(c))
    requires var k := s.clients[c]; SaveRow(s.backend, s.rows, k.id, k.copy).1.Saved?
    ensures Inv(Apply(s, Save(c)))
  {
    var k := s.clients[c];
    assert ClientOk(s.rows, s.log, k);
    PerformKeepsVersion(k.base, k.op, k.at);
    NoPlaceholderStep(k.base, k.op, k.at);
    var id, row, done := k.id, Updated(s.rows[k.id], k.copy), Timed(k.op, k.at);
    CommitOk(s.rows[id], s.born[id], s.log[id], k.op, k.at, k.copy);
    RowsCommitted(s.rows, s.born, s.log, id, row, done);
    SaveKeepsUnique(s.backend, s.rows, id, row);
    ClientsSurviveCommit(s, c, id, row, done, Ended(k.target, k.op, id, k.at, Did(Applied, |s.log[id]|)));
  }

  lemma RowsCommitted(rows: Rows, born: Rows, log: map<string, seq<Timed>>, id: string, row: Payment, done: Timed)
    requires RowsOk(rows, born, log) && id in rows
    requires RowOk(row, born[id], log[id] + [done]) && NoPlaceholder(row.props.transactionId)
    ensures RowsOk(rows[id := row], born, log[id := log[id] + [done]])
  {
  }

  lemma RowsInserted(rows: Rows, born: Rows, log: map<string, seq<Timed>>, id: string, p: Payment)
    requires RowsOk(rows, born, log) && id !in rows
    requires RowOk(p, p, []) && p.props.transactionId.None?
    ensures RowsOk(rows[id := p], born[id := p], log[id := []])
  {
  }

  lemma ClientsSurviveCommit(s: System, c: nat, id: string, row: Payment, done: Timed, ended: Client)
    requires forall k | k in s.clients :: ClientOk(s.rows, s.log, s.clients[k])
    requires id in s.rows && id in s.log && s.rows[id].props.version < row.props.version
    requires ended.Ended? && ended.id == id && VerifiedOp(ended.op)
    requires done == Timed(ended.op, ended.at) && ended.outcome == Did(Applied, |s.log[id]|)
    ensures var clients := s.clients[c := ended];
            forall k | k in clients :: ClientOk(s.rows[id := row], s.log[id := s.log[id] + [done]], clients[k])
  {
  }

  /** A step that moves one client and nothing else. */
  lemma ClientMoves(s: System, t: System, c: nat)
    requires Inv(s) && c in t.clients && t == s.(clients := s.clients[c := t.clients[c]])
    requires ClientOk(s.rows, s.log, t.clients[c])
    ensures Inv(t)
  {
  }

  lemma MovedClientOk(s: System, step: Step)
    requires Enabled(s, step) && !step.Insert?
    requires step.c in s.clients ==> ClientOk(s.rows, s.log, s.clients[step.c])
    requires step.Save? ==> var k := s.clients[step.c]; !SaveRow(s.backend, s.rows, k.id, k.copy).1.Saved?
    ensures var t := Apply(s, step);
            step.c in t.clients && ClientOk(s.rows, s.log, t.clients[step.c])
  {
  }

  lemma UniqueInserted(rows: Rows, id: string, p: Payment)
    requires Unique(rows) && CanInsert(rows, id, p.props.order) && p.props.transactionId.None?
    ensures Unique(rows[id := p])
  {
  }

  lemma InsertStep(s: System, id: string, order: Order, now: int)
    requires Inv(s) && CanInsert(s.rows, id, order)
    ensures var p := NewPayment(order, now);
            Inv(s.(rows := s.rows[id := p], born := s.born[id := p], log := s.log[id := []]))
  {
    var p := NewPayment(order, now);
    RowsInserted(s.rows, s.born, s.log, id, p) by {
      assert RowOk(p, p, []);
    }
    UniqueInserted(s.rows, id, p);
    forall c | c in s.clients ensures ClientOk(s.rows[id := p], s.log[id := []], s.clients[c]) {
      InsertKeepsClient(s.rows, s.log, id, p, s.clients[c]);
    }
  }

  lemma InsertKeepsClient(rows: Rows, log: map<string, seq<Timed>>, id: string, p: Payment, client: Client)
    requires ClientOk(rows, log, client) && id !in rows && id !in log
    ensures ClientOk(rows[id := p], log[id := []], client)
  {
  }

  lemma InvStep(s: System, step: Step)
    requires Inv(s) && Enabled(s, step)
    ensures Inv(Apply(s, step))
  {
    if step.Insert? {
      InsertStep(s, step.id, step.order, step.now);
    } else if step.Save? && SaveRow(s.backend, s.rows, s.clients[step.c].id, s.clients[step.c].copy).1.Saved? {
      SaveCommits(s, step.c);
    } else {
      MovedClientOk(s, step);
      ClientMoves(s, Apply(s, step), step.c);
    }
  }

  lemma {:induction false} InvRun(s: System, steps: seq<Step>)
    requires Inv(s) && Legal(s, steps)
    ensures Inv(Final(s, steps))
    decreases steps
  {
    if steps != [] {
      InvStep(s, steps[0]);
      InvRun(Apply(s, steps[0]), steps[1..]);
    }
  }

  /** Every stored payment is one that `create` returned, so its order passed validation. */
  lemma {:induction false} OrdersValid(s: System, steps: seq<Step>, id: string)
    requires Legal(s, steps) && id in Final(s, steps).born
    requires id in s.born ==> Created(s.born[id].props.order, s.born[id].createdAt) == Some(s.born[id])
    ensures var born := Final(s, steps).born[id];
            Created(born.props.order, born.createdAt) == Some(born) && ValidOrder(born.props.order)
    decreases steps
  {
    if steps != [] {
      OrdersValid(Apply(s, steps[0]), steps[1..], id);
    }
  }

  predicate Initial(s: System) {
    s.rows == map[] && s.clients == map[] && s.born == map[] && s.log == map[]
  }

  /**
   * Serialisability: whatever the interleaving of loads, domain methods, saves and retries, every
   * stored payment is what its committed operations give when run one after another on the
   * payment as created, and its version is their number.
   */
  lemma Serialisable(s: System, steps: seq<Step>, id: string)
    requires Initial(s) && Legal(s, steps) && id in Final(s, steps).rows
    ensures var t := Final(s, steps);
            && id in t.born && id in t.log
            && t.rows[id] == WithVersion(Play(t.born[id], t.log[id]), |t.log[id]|)
            && Follows(t.born[id], t.rows[id]) && Sound(t.rows[id])
  {
    InvRun(s, steps);
    var t := Final(s, steps);
    OrdersValid(s, steps, id);
    RunsAreMonotone(t.born[id], t.log[id]);
    RunsStaySound(t.born[id], t.log[id]);
  }

  /**
   * What is stored, unless creation definitively failed, is settled by the first final callback
   * committed to it, and by nothing else.
   */
  lemma StoredSettlement(s: System, steps: seq<Step>, id: string)
    requires Initial(s) && Legal(s, steps) && id in Final(s, steps).log
    requires forall i | 0 <= i < |Final(s, steps).log[id]| :: !Final(s, steps).log[id][i].op.MarkCreateFailed?
    ensures var t := Final(s, steps);
            && id in t.born && id in t.rows
            && match FirstFinal(t.born[id].props.order, t.log[id])
               case Some(n) => Settling(t.rows[id]) == SettlementOf(n)
               case None => Mutable(t.rows[id].props.status)
  {
    InvRun(s, steps);
    var t := Final(s, steps);
    OrdersValid(s, steps, id);
    RowSettlement(t.rows[id], t.born[id], t.log[id]);
  }

  lemma RowSettlement(row: Payment, born: Payment, log: seq<Timed>)
    requires RowOk(row, born, log) && ValidOrder(born.props.order)
    requires forall i | 0 <= i < |log| :: !log[i].op.MarkCreateFailed?
    ensures match FirstFinal(born.props.order, log)
            case Some(n) => Settling(row) == SettlementOf(n)
            case None => Mutable(row.props.status)
  {
    FirstFinalDecides(born, log);
  }

  /** A use case that reports success has its operation in the log: no change is lost. */
  lemma NothingLost(s: System, steps: seq<Step>, c: nat)
    requires Initial(s) && Legal(s, steps) && c in Final(s, steps).clients
    requires var k := Final(s, steps).clients[c]; k.Ended? && k.outcome.Did? && k.outcome.reply == Applied
    ensures var t := Final(s, steps);
            var k := t.clients[c];
            && k.id in t.log && k.outcome.commit < |t.log[k.id]|
            && t.log[k.id][k.outcome.commit] == Timed(k.op, k.at)
  {
    InvRun(s, steps);
    assert ClientOk(Final(s, steps).rows, Final(s, steps).log, Final(s, steps).clients[c]);
  }

  /** No two payments of a provider ever share a transaction id, nor a provider order. */
  lemma StoredIdsUnique(s: System, steps: seq<Step>)
    requires Initial(s) && Legal(s, steps)
    ensures var rows := Final(s, steps).rows;
            forall a, b | a in rows && b in rows && a != b ::
              var (one, other) := (rows[a].props, rows[b].props);
              && !(one.order.userId == other.order.userId && one.order.idempotencyKey == other.order.idempotencyKey)
              && !(one.order.provider == other.order.provider
                   && (one.order.providerOrderId == other.order.providerOrderId
                       || (one.transactionId.Some? && one.transactionId == other.transactionId)))
  {
    InvRun(s, steps);
  }

  /** The two databases impose the same rule: every reachable save ends alike on both. */
  lemma BackendsAgree(s: System, steps: seq<Step>, c: nat)
    requires Initial(s) && Legal(s, steps) && Enabled(Final(s, steps), Save(c))
    ensures var t := Final(s, steps);
            var k := t.clients[c];
            SaveRow(Postgres, t.rows, k.id, k.copy) == SaveRow(Mongo, t.rows, k.id, k.copy)
  {
    InvRun(s, steps);
    var t := Final(s, steps);
    var k := t.clients[c];
    assert ClientOk(t.rows, t.log, k);
    PerformKeepsVersion(k.base, k.op, k.at);
    if t.rows[k.id].props.version == k.copy.props.version {
      NoPlaceholderStep(k.base, k.op, k.at);
      SameClashes(t.rows, k.id, Updated(t.rows[k.id], k.copy));
    }
  }

  lemma SameClashes(rows: Rows, id: string, row: Payment)
    requires NoPlaceholder(row.props.transactionId)
    ensures TransactionClash(Postgres, rows, id, row) <==> TransactionClash(Mongo, rows, id, row)
  {
  }

  // ---- the price of giving up -------------------------------------------------------------

  /** The call stands where every attempt of its that failed was overtaken by a commit. */
  predicate Behind(client: Client, id: string, row: Payment, base: nat) {
    && Hits(client.target, id, row)
    && match client
       case Loading(_, _, attempt) => base + attempt <= row.props.version
       case Loaded(_, _, attempt, loaded, copy) => loaded == id && base + attempt <= copy.props.version
       case Changed(_, _, attempt, loaded, _, copy, _) => loaded == id && base + attempt <= copy.props.version
       case Ended(_, _, _, _, outcome) => outcome.GaveUp? ==> base + MAX_SAVE_ATTEMPTS <= row.props.version
  }

  predicate Overtaken(s: System, c: nat, id: string, base: nat) {
    c in s.clients && id in s.rows && Behind(s.clients[c], id, s.rows[id], base)
  }

  /** No two payments answer one target. */
  lemma OneHit(rows: Rows, target: Target, a: string, b: string)
    requires Unique(rows) && a in rows && b in rows && Hits(target, a, rows[a]) && Hits(target, b, rows[b])
    ensures a == b
  {
  }

  predicate Grown(before: Rows, after: Rows, id: string) {
    && id in before && id in after && after[id].props.order == before[id].props.order
    && before[id].props.version <= after[id].props.version
  }

  lemma SaveGrows(backend: Backend, rows: Rows, saved: string, p: Payment, id: string)
    requires id in rows
    ensures Grown(rows, SaveRow(backend, rows, saved, p).0, id)
  {
  }

  lemma RowsGrow(s: System, step: Step, id: string)
    requires Enabled(s, step) && id in s.rows
    ensures Grown(s.rows, Apply(s, step).rows, id)
  {
    if step.Save? {
      SaveGrows(s.backend, s.rows, s.clients[step.c].id, s.clients[step.c].copy, id);
    }
  }

  lemma OwnLoad(s: System, c: nat, loaded: string, id: string, base: nat)
    requires Unique(s.rows) && Enabled(s, Load(c, loaded)) && Overtaken(s, c, id, base)
    ensures Overtaken(Apply(s, Load(c, loaded)), c, id, base)
  {
    OneHit(s.rows, s.clients[c].target, id, loaded);
  }

  lemma OwnAct(s: System, c: nat, at: int, id: string, base: nat)
    requires Enabled(s, Act(c, at)) && Overtaken(s, c, id, base)
    ensures Overtaken(Apply(s, Act(c, at)), c, id, base)
  {
    PerformKeepsVersion(s.clients[c].copy, s.clients[c].op, at);
  }

  /** A stale save was overtaken by at least one commit since its load. */
  lemma OwnSave(s: System, c: nat, id: string, base: nat)
    requires Enabled(s, Save(c)) && ClientOk(s.rows, s.log, s.clients[c]) && Overtaken(s, c, id, base)
    ensures Overtaken(Apply(s, Save(c)), c, id, base)
  {
    var Changed(target, op, attempt, _, loaded, copy, at) := s.clients[c];
    PerformKeepsVersion(loaded, op, at);
    SaveGrows(s.backend, s.rows, id, copy, id);
  }

  lemma OvertakenStep(s: System, step: Step, c: nat, id: string, base: nat)
    requires Inv(s) && Enabled(s, step) && Overtaken(s, c, id, base)
    ensures Overtaken(Apply(s, step), c, id, base)
  {
    if step.Insert? || step.c != c {
      OthersStep(s, step, c, id, base);
    } else {
      OwnStep(s, step, c, id, base);
    }
  }

  lemma OthersStep(s: System, step: Step, c: nat, id: string, base: nat)
    requires Enabled(s, step) && Overtaken(s, c, id, base) && (step.Insert? || step.c != c)
    ensures Overtaken(Apply(s, step), c, id, base)
  {
    RowsGrow(s, step, id);
    assert Apply(s, step).clients[c] == s.clients[c];
  }

  lemma OwnStep(s: System, step: Step, c: nat, id: string, base: nat)
    requires Inv(s) && Enabled(s, step) && Overtaken(s, c, id, base) && !step.Insert? && step.c == c
    ensures Overtaken(Apply(s, step), c, id, base)
  {
    match step
    case Load(_, loaded) => OwnLoad(s, c, loaded, id, base);
    case LoadMisses(_) =>
    case Act(_, at) => OwnAct(s, c, at, id, base);
    case Save(_) => OwnSave(s, c, id, base);
  }

  lemma {:induction false} OvertakenRun(s: System, steps: seq<Step>, c: nat, id: string, base: nat)
    requires Inv(s) && Legal(s, steps) && Overtaken(s, c, id, base)
    ensures Overtaken(Final(s, steps), c, id, base)
    decreases steps
  {
    if steps != [] {
      InvStep(s, steps[0]);
      OvertakenStep(s, steps[0], c, id, base);
      OvertakenRun(Apply(s, steps[0]), steps[1..], c, id, base);
    }
  }

  /** A notification is applied to the payment of its provider and order id, and to no other. */
  lemma NotificationsFindTheirOrder(s: System, c: nat, target: Target, n: Notification, id: string, row: Payment)
    requires c !in s.clients && IsVerifiedNotification(n)
    ensures Enabled(s, Start(c, ByOrder(n.provider, n.providerOrderId), Notify(n)))
    ensures Enabled(s, Start(c, target, Notify(n))) ==>
              (Hits(target, id, row) <==>
                 row.props.order.provider == n.provider && row.props.order.providerOrderId == n.providerOrderId)
  {
  }

  /** A loading call gets a copy of its payment, and learns that there is none only when there is none. */
  lemma LoadsFind(s: System, c: nat, id: string)
    requires c in s.clients && s.clients[c].Loading?
    ensures var hit := id in s.rows && Hits(s.clients[c].target, id, s.rows[id]);
            && (Enabled(s, Load(c, id)) <==> hit)
            && (hit ==> !Enabled(s, LoadMisses(c)))
            && (hit ==> Apply(s, Load(c, id)).clients[c]
                        == Loaded(s.clients[c].target, s.clients[c].op, s.clients[c].attempt, id, s.rows[id]))
    ensures (forall other | other in s.rows :: !Hits(s.clients[c].target, other, s.rows[other])) ==> Enabled(s, LoadMisses(c))
  {
  }

  /** What the caller is told, at the beginning and at each possible end. */
  lemma CallsTell(s: System, c: nat, target: Target, op: Op, at: int)
    ensures Enabled(s, Start(c, target, op)) ==> Apply(s, Start(c, target, op)).clients[c] == Loading(target, op, 0)
    ensures Enabled(s, LoadMisses(c)) ==>
              var end := Apply(s, LoadMisses(c)).clients[c];
              end.Ended? && end.outcome == NotFound && Apply(s, LoadMisses(c)).rows == s.rows
    ensures Enabled(s, Act(c, at)) ==>
              var (reply, next) := (Perform(s.clients[c].copy, s.clients[c].op, at).1, Apply(s, Act(c, at)).clients[c]);
              && Apply(s, Act(c, at)).rows == s.rows
              && if reply == Applied then next.Changed? else next.Ended? && next.outcome.Did? && next.outcome.reply == reply
    ensures Enabled(s, Save(c)) ==>
              var (id, copy, t) := (s.clients[c].id, s.clients[c].copy, Apply(s, Save(c)));
              var saved := SaveRow(s.backend, s.rows, id, copy).1;
              && (saved.Saved? ==> t.clients[c].Ended? && t.clients[c].outcome == Did(Applied, |s.log[id]|))
              && (saved.TransactionTaken? ==> t.rows == s.rows && t.clients[c].Ended? && t.clients[c].outcome == TakenElsewhere)
  {
  }

  /** A save that came too late is tried again on a fresh copy, three times in all. */
  lemma StaleRetries(s: System, c: nat)
    requires Enabled(s, Save(c))
    requires var (id, copy) := (s.clients[c].id, s.clients[c].copy);
             id !in s.rows || s.rows[id].props.version != copy.props.version
    ensures var (before, t) := (s.clients[c], Apply(s, Save(c)));
            && t.rows == s.rows
            && t.clients[c] == if before.attempt < 2 then Loading(before.target, before.op, before.attempt + 1)
                               else Ended(before.target, before.op, before.id, before.at, GaveUp)
  {
  }

  /**
   * A call gives up, and its change is lost, only when at least three operations were
   * committed to its payment after it first loaded it; none of them is its own, as a call ends with
   * its first commit.
   */
  lemma GivingUpTakesThreeCommits(s: System, before: seq<Step>, after: seq<Step>, c: nat, id: string)
    requires Initial(s) && Legal(s, before)
    requires var t := Final(s, before);
             Enabled(t, Load(c, id)) && t.clients[c].attempt == 0 && Legal(Apply(t, Load(c, id)), after)
    requires var u := Final(Apply(Final(s, before), Load(c, id)), after);
             c in u.clients && u.clients[c].Ended? && u.clients[c].outcome.GaveUp?
    ensures var (t, u) := (Final(s, before), Final(Apply(Final(s, before), Load(c, id)), after));
            id in t.log && id in u.log && |t.log[id]| + 3 <= |u.log[id]|
  {
    var t := Final(s, before);
    InvRun(s, before);
    VersionCounts(t, id);
    InvStep(t, Load(c, id));
    FirstLoad(t, c, id);
    OvertakenLog(Apply(t, Load(c, id)), after, c, id, |t.log[id]|);
  }

  lemma FirstLoad(s: System, c: nat, id: string)
    requires Enabled(s, Load(c, id)) && s.clients[c].attempt == 0
    ensures Overtaken(Apply(s, Load(c, id)), c, id, s.rows[id].props.version)
  {
  }

  lemma OvertakenLog(s: System, steps: seq<Step>, c: nat, id: string, base: nat)
    requires Inv(s) && Legal(s, steps) && Overtaken(s, c, id, base)
    ensures id in Final(s, steps).log && c in Final(s, steps).clients
    ensures var client := Final(s, steps).clients[c];
            client.Ended? && client.outcome.GaveUp? ==> base + MAX_SAVE_ATTEMPTS <= |Final(s, steps).log[id]|
  {
    InvRun(s, steps);
    OvertakenRun(s, steps, c, id, base);
    VersionCounts(Final(s, steps), id);
  }

  lemma VersionCounts(s: System, id: string)
    requires Inv(s) && id in s.rows
    ensures id in s.log && s.rows[id].props.version == |s.log[id]|
  {
    assert RowOk(s.rows[id], s.born[id], s.log[id]);
  }

  /**
   * On every reachable state, whichever database: a save succeeds exactly when nobody saved since
   * the load and no other payment of the provider has this transaction id; its own row is no rival.
   */
  lemma ReachableSaves(s: System, steps: seq<Step>, c: nat)
    requires Initial(s) && Legal(s, steps) && Enabled(Final(s, steps), Save(c))
    ensures var t := Final(s, steps);
            var (id, copy) := (t.clients[c].id, t.clients[c].copy);
            var saved := SaveRow(t.backend, t.rows, id, copy).1;
            id in t.rows
            && var rival := exists other | other in t.rows ::
                 && other != id && t.rows[other].props.order.provider == t.rows[id].props.order.provider
                 && copy.props.transactionId.Some? && t.rows[other].props.transactionId == copy.props.transactionId;
               && (saved.Saved? <==> t.rows[id].props.version == copy.props.version && !rival)
               && (saved.TransactionTaken? <==> t.rows[id].props.version == copy.props.version && rival)
  {
    InvRun(s, steps);
    var (t, client) := (Final(s, steps), Final(s, steps).clients[c]);
    assert ClientOk(t.rows, t.log, client);
    PerformKeepsVersion(client.base, client.op, client.at);
    if t.rows[client.id].props.version == client.copy.props.version {
      NoPlaceholderStep(client.base, client.op, client.at);
      CurrentSave(t.backend, t.rows, client.id, client.copy);
    }
  }

  lemma CurrentSave(backend: Backend, rows: Rows, id: string, copy: Payment)
    requires id in rows && rows[id].props.version == copy.props.version && NoPlaceholder(copy.props.transactionId)
    ensures SaveRow(backend, rows, id, copy).1.TransactionTaken? <==>
            exists other | other in rows ::
              && other != id && rows[other].props.order.provider == rows[id].props.order.provider
              && copy.props.transactionId.Some? && rows[other].props.transactionId == copy.props.transactionId
  {
  }
}
