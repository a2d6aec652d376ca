/** What holds of a payment over every sequence of domain operations. */
module PaymentRuns {
  import opened Prelude
  import opened Text
  import opened PaymentPolicy
  import opened PaymentEntity

  /** One operation and the clock reading it ran at. */
  datatype Timed = Timed(op: Op, at: int)

  function Play(p: Payment, ops: seq<Timed>): Payment
    decreases ops
  {
    if ops == [] then p else Play(Perform(p, ops[0].op, ops[0].at).0, ops[1..])
  }

  /** Only verified notifications reach the entity: their outcome is one of four. */
  predicate VerifiedOp(op: Op) {
    op.Notify? ==> IsOutcome(op.n.outcome)
  }

  predicate Verified(ops: seq<Timed>) {
    forall i | 0 <= i < |ops| :: VerifiedOp(ops[i].op)
  }

  /** What verified operations keep, besides the entity's own invariants (`Sound`). */
  predicate Orderly(p: Payment) {
    && (p.props.status.Creating? || p.props.status.CreateFailed? ==> p.props.checkoutUrl.None?)
    && NormalId(p.props.transactionId)
  }

  lemma NormalizedIsNormal(value: Option<string>)
    ensures NormalId(NormalizeTransactionId(value))
    ensures NormalizeTransactionId(value) in {None, value}
    ensures NormalizeTransactionId(value) == None <==>
            value == None || value.value == "0" || forall i | 0 <= i < |value.value| :: IsSpace(value.value[i])
    ensures NormalId(value) <==> NormalizeTransactionId(value) == value
  {
    if value.Some? {
      BlankIffAllSpaces(value.value);
    }
  }

  /** The rollback keeps every invariant under any operation, verified or not, on any clock. */
  lemma SoundStep(p: Payment, op: Op, at: int)
    requires Sound(p)
    ensures Sound(Perform(p, op, at).0)
  {
  }

  lemma OrderlyStep(p: Payment, op: Op, at: int)
    requires Orderly(p) && VerifiedOp(op)
    ensures Orderly(Perform(p, op, at).0)
  {
    match op {
      case Notify(n) => NormalizedIsNormal(n.transactionId);
      case _ =>
    }
  }

  // ---- monotone runs ----------------------------------------------------------------------

  function Rank(status: Status): nat {
    match status
    case Creating => 0
    case Unknown => 1
    case Pending => 2
    case _ => 3
  }

  predicate Settled(status: Status) {
    IsFinal(status) || status.CreateFailed?
  }

  /** How a later state `q` may differ from an earlier one `p`. */
  predicate Follows(p: Payment, q: Payment) {
    && q.props.order == p.props.order && q.createdAt == p.createdAt
    && Rank(p.props.status) <= Rank(q.props.status)
    && (Settled(p.props.status) ==>
          && q.props.status == p.props.status
          && q.props.resultCode == p.props.resultCode
          && q.props.transactionId == p.props.transactionId)
    && (p.props.checkoutUrl.Some? ==> q.props.checkoutUrl == p.props.checkoutUrl)
    && (q.props.status.CreateFailed? ==> q.props.checkoutUrl.None?)
  }

  lemma FollowsStep(p: Payment, op: Op, at: int)
    requires Orderly(p) && VerifiedOp(op)
    ensures Follows(p, Perform(p, op, at).0)
  {
  }

  /** The entity's invariants hold after every run, whatever was thrown on the way. */
  lemma {:induction false} RunsStaySound(p: Payment, ops: seq<Timed>)
    requires Sound(p)
    ensures Sound(Play(p, ops))
    ensures var q := Play(p, ops);
            q.createdAt == p.createdAt <= q.updatedAt && ValidOrder(q.props.order) && !q.props.status.Unlisted?
    decreases ops
  {
    if ops != [] {
      SoundStep(p, ops[0].op, ops[0].at);
      RunsStaySound(Perform(p, ops[0].op, ops[0].at).0, ops[1..]);
    }
  }

  /**
   * Along every run the status never falls back, a settled outcome with its code and transaction
   * id is frozen, and the checkout URL is written at most once and never after a failed creation.
   */
  lemma {:induction false} RunsAreMonotone(p: Payment, ops: seq<Timed>)
    requires Orderly(p) && Verified(ops)
    ensures Orderly(Play(p, ops)) && Follows(p, Play(p, ops))
    decreases ops
  {
    if ops != [] {
      OrderlyStep(p, ops[0].op, ops[0].at);
      FollowsStep(p, ops[0].op, ops[0].at);
      RunsAreMonotone(Perform(p, ops[0].op, ops[0].at).0, ops[1..]);
    }
  }

  /** Without verification the ladder breaks: an unverified outcome can undo a pending status. */
  lemma UnverifiedOutcomeFallsBack(p: Payment, n: Notification)
    requires Sound(p) && p.props.status.Pending? && Matches(p.props.order, n) && n.outcome == Creating
    ensures Rank(Perform(p, Notify(n), p.createdAt).0.props.status) < Rank(p.props.status)
  {
  }

  // ---- confluence of callbacks ------------------------------------------------------------

  predicate Matches(order: Order, n: Notification) {
    && order.amountVnd == n.amountVnd
    && (n.providerRequestId.Some? ==> n.providerRequestId.value == order.providerRequestId)
  }

  datatype Settlement = Settlement(outcome: Status, resultCode: Option<string>, transactionId: Option<string>)

  function SettlementOf(n: Notification): Settlement {
    Settlement(n.outcome, Some(n.resultCode), NormalizeTransactionId(n.transactionId))
  }

  function Settling(p: Payment): Settlement {
    Settlement(p.props.status, p.props.resultCode, p.props.transactionId)
  }

  /** The first notification of a run that matches the order and is not merely pending. */
  function FirstFinal(order: Order, ops: seq<Timed>): Option<Notification>
    decreases ops
  {
    if ops == [] then None
    else if ops[0].op.Notify? && FinalFor(order, ops[0].op.n) then Some(ops[0].op.n)
    else FirstFinal(order, ops[1..])
  }

  /** Verified callbacks, URL attachments and unknown marks, none on a clock before creation. */
  predicate CallbackRun(p: Payment, ops: seq<Timed>) {
    && Verified(ops)
    && forall i | 0 <= i < |ops| :: !ops[i].op.MarkCreateFailed? && p.createdAt <= ops[i].at
  }

  lemma {:induction false} SettledStays(p: Payment, ops: seq<Timed>)
    requires Orderly(p) && Verified(ops) && Settled(p.props.status)
    ensures Settling(Play(p, ops)) == Settling(p)
  {
    RunsAreMonotone(p, ops);
  }

  lemma FinalApplies(p: Payment, n: Notification, at: int)
    requires ValidOrder(p.props.order) && Mutable(p.props.status) && IsOutcome(n.outcome)
    requires FinalFor(p.props.order, n) && p.createdAt <= at
    ensures Settling(Perform(p, Notify(n), at).0) == SettlementOf(n)
    ensures Settled(Perform(p, Notify(n), at).0.props.status)
  {
  }

  lemma OthersKeepMutable(p: Payment, op: Op, at: int)
    requires Mutable(p.props.status) && VerifiedOp(op) && !op.MarkCreateFailed?
    requires op.Notify? ==> !FinalFor(p.props.order, op.n)
    ensures var q := Perform(p, op, at).0;
            Mutable(q.props.status) && q.props.order == p.props.order && q.createdAt == p.createdAt
  {
  }

  /**
   * The first matching final callback decides, whatever comes before or after it: mismatched
   * callbacks, pending ones, repetitions, contradictions, the URL, the unknown mark.
   */
  lemma {:induction false} FirstFinalDecides(p: Payment, ops: seq<Timed>)
    requires ValidOrder(p.props.order) && Orderly(p) && Mutable(p.props.status) && CallbackRun(p, ops)
    ensures match FirstFinal(p.props.order, ops)
            case Some(n) => Settling(Play(p, ops)) == SettlementOf(n)
            case None => Mutable(Play(p, ops).props.status)
    decreases ops
  {
    if ops != [] {
      var op, at := ops[0].op, ops[0].at;
      var q := Perform(p, op, at).0;
      OrderlyStep(p, op, at);
      if op.Notify? && FinalFor(p.props.order, op.n) {
        FinalApplies(p, op.n, at);
        SettledStays(q, ops[1..]);
      } else {
        OthersKeepMutable(p, op, at);
        FirstFinalDecides(q, ops[1..]);
      }
    }
  }

  /** All matching final callbacks of the run report the same settlement, and there is one. */
  predicate Agree(order: Order, ops: seq<Timed>, settlement: Settlement) {
    && (forall i | 0 <= i < |ops| && ops[i].op.Notify? :: FinalFor(order, ops[i].op.n) ==> SettlementOf(ops[i].op.n) == settlement)
    && (exists i | 0 <= i < |ops| && ops[i].op.Notify? :: FinalFor(order, ops[i].op.n))
  }

  predicate FinalFor(order: Order, n: Notification) {
    Matches(order, n) && !n.outcome.Pending?
  }

  lemma {:induction false} AgreedFirst(order: Order, ops: seq<Timed>, settlement: Settlement)
    requires Agree(order, ops, settlement)
    ensures FirstFinal(order, ops).Some? && SettlementOf(FirstFinal(order, ops).value) == settlement
    decreases ops
  {
    if !(ops[0].op.Notify? && FinalFor(order, ops[0].op.n)) {
      var rest := ops[1..];
      assert forall i | 0 <= i < |rest| :: rest[i] == ops[i + 1];
      var i :| 0 <= i < |ops| && ops[i].op.Notify? && FinalFor(order, ops[i].op.n);
      assert rest[i - 1] == ops[i];
      AgreedFirst(order, rest, settlement);
    }
  }

  /** Any two orders, with any repetitions, of callbacks that agree end in the same settlement. */
  lemma Confluence(p: Payment, one: seq<Timed>, two: seq<Timed>, settlement: Settlement)
    requires ValidOrder(p.props.order) && Orderly(p) && Mutable(p.props.status) && CallbackRun(p, one) && CallbackRun(p, two)
    requires Agree(p.props.order, one, settlement) && Agree(p.props.order, two, settlement)
    ensures Settling(Play(p, one)) == Settling(Play(p, two)) == settlement
  {
    AgreedFirst(p.props.order, one, settlement);
    AgreedFirst(p.props.order, two, settlement);
    FirstFinalDecides(p, one);
    FirstFinalDecides(p, two);
  }

  /** Agreement is needed: two final callbacks commute exactly when they report the same thing. */
  lemma OrderMattersIffTheyDisagree(p: Payment, a: Timed, b: Timed)
    requires ValidOrder(p.props.order) && Orderly(p) && Mutable(p.props.status) && CallbackRun(p, [a, b])
    requires a.op.Notify? && FinalFor(p.props.order, a.op.n) && b.op.Notify? && FinalFor(p.props.order, b.op.n)
    ensures Settling(Play(p, [a, b])) == Settling(Play(p, [b, a])) <==> SettlementOf(a.op.n) == SettlementOf(b.op.n)
  {
    assert [a, b][0] == a && [a, b][1] == b;
    FirstFinalDecides(p, [a, b]);
    FirstFinalDecides(p, [b, a]);
  }

  // ---- replays ----------------------------------------------------------------------------

  predicate NoNotification(ops: seq<Timed>) {
    forall i | 0 <= i < |ops| :: !ops[i].op.Notify?
  }

  /** The payment stores exactly what notification `n` reported. */
  predicate Holds(p: Payment, n: Notification) {
    Matches(p.props.order, n) && Settling(p) == SettlementOf(n)
  }

  lemma {:induction false} HoldsOn(p: Payment, n: Notification, ops: seq<Timed>)
    requires Holds(p, n) && IsOutcome(n.outcome) && NoNotification(ops)
    ensures Holds(Play(p, ops), n)
    decreases ops
  {
    if ops != [] {
      HoldsOn(Perform(p, ops[0].op, ops[0].at).0, n, ops[1..]);
    }
  }

  /** Once applied, a notification replayed with no other in between is a harmless duplicate. */
  lemma ReplayIsDuplicate(p: Payment, n: Notification, at: int, between: seq<Timed>, later: int)
    requires IsOutcome(n.outcome) && Perform(p, Notify(n), at).1 == Applied && NoNotification(between)
    ensures var q := Play(Perform(p, Notify(n), at).0, between);
            Perform(q, Notify(n), later) == (q, SeenBefore)
  {
    HoldsOn(Perform(p, Notify(n), at).0, n, between);
  }

  // ---- what each operation does -----------------------------------------------------------

  /** A refusal of any kind leaves the payment as it was; an applied operation stamps its time. */
  lemma RefusalsChangeNothing(p: Payment, op: Op, at: int)
    ensures var (q, reply) := Perform(p, op, at);
            && (reply != Applied ==> q == p)
            && (reply == Applied ==>
                  && q.updatedAt == at && q.createdAt == p.createdAt && p.createdAt <= at
                  && q.props.order == p.props.order && q.props.version == p.props.version)
  {
  }

  /**
   * The checkout URL goes in exactly where there is none yet and the creation has not failed, as
   * given; a creating payment becomes pending, every other status stays, and so does the rest.
   */
  lemma AttachUrlEffect(p: Payment, url: string, at: int)
    requires Sound(p)
    ensures var (q, reply) := Perform(p, AttachUrl(url), at);
            var open := p.props.checkoutUrl.None? && !p.props.status.CreateFailed?;
            && (reply == NotApplicable <==> !open)
            && (reply == Applied <==> open && p.createdAt <= at)
            && (reply == Throws <==> open && at < p.createdAt)
            && (reply == Applied ==>
                  && q.props.checkoutUrl == Some(url)
                  && q.props.status == (if p.props.status == Creating then Pending else p.props.status)
                  && q.props.transactionId == p.props.transactionId && q.props.resultCode == p.props.resultCode)
  {
  }

  /** The two marks apply exactly while creating, and change the status, the failure also the code. */
  lemma MarkEffects(p: Payment, code: string, at: int)
    requires Sound(p)
    ensures var (q, reply) := Perform(p, MarkUnknown, at);
            && (reply == NotApplicable <==> p.props.status != Creating)
            && (reply == Applied <==> p.props.status == Creating && p.createdAt <= at)
            && (reply == Applied ==> q == p.(props := p.props.(status := Unknown), updatedAt := at))
    ensures var (q, reply) := Perform(p, MarkCreateFailed(code), at);
            && (reply == NotApplicable <==> p.props.status != Creating)
            && (reply == Applied <==> p.props.status == Creating && p.createdAt <= at)
            && (reply == Applied ==>
                  q == p.(props := p.props.(status := CreateFailed, resultCode := Some(code)), updatedAt := at))
  {
  }

  /** The checks before the status: the amount first, then a request id, if one is given. */
  lemma MismatchReplies(p: Payment, n: Notification, at: int)
    ensures var reply := Perform(p, Notify(n), at).1;
            && (reply == AmountMismatch <==> p.props.order.amountVnd != n.amountVnd)
            && (reply == ReferenceMismatch <==>
                  && p.props.order.amountVnd == n.amountVnd
                  && n.providerRequestId.Some? && n.providerRequestId.value != p.props.order.providerRequestId)
            && (Matches(p.props.order, n) <==> reply != AmountMismatch && reply != ReferenceMismatch)
  {
  }

  /**
   * The answer to a matching verified notification, by what is stored.  A final payment answers
   * that it has seen a pending one or the stored result itself, and a conflict to every other; a
   * failed creation conflicts with all; before that, only the repetition of a pending result was
   * seen, and everything else is taken over.
   */
  lemma NotificationReplies(p: Payment, n: Notification, at: int)
    requires Sound(p) && IsOutcome(n.outcome) && Matches(p.props.order, n)
    ensures var (q, reply) := Perform(p, Notify(n), at);
            var (same, status) := (SettlementOf(n) == Settling(p), p.props.status);
            && (status in {Succeeded, Failed, Cancelled} ==>
                  reply == if n.outcome == Pending || same then SeenBefore else Conflict)
            && (status == CreateFailed ==> reply == Conflict)
            && (status in {Creating, Pending, Unknown} ==>
                  && (reply == SeenBefore <==> status == Pending && n.outcome == Pending && same)
                  && (reply == Applied <==> !(status == Pending && n.outcome == Pending && same) && p.createdAt <= at)
                  && reply != Conflict)
            && (reply == Applied ==> Settling(q) == SettlementOf(n) && q.props.checkoutUrl == p.props.checkoutUrl)
  {
  }

  /** What a notification settles: its outcome, its code, and its transaction id unless a placeholder. */
  lemma SettlementFields(n: Notification, p: Payment)
    ensures var settlement := SettlementOf(n);
            && settlement.outcome == n.outcome && settlement.resultCode == Some(n.resultCode)
            && (settlement.transactionId == n.transactionId <==>
                  n.transactionId.Some? ==> n.transactionId.value != "0" && !Blank(n.transactionId.value))
            && (settlement.transactionId != n.transactionId ==> settlement.transactionId == None)
    ensures Settling(p) == Settlement(p.props.status, p.props.resultCode, p.props.transactionId)
  {
  }
}
