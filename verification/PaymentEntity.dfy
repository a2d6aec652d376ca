/** The payment entity: domain methods that change it in place, with rollback of invalid changes. */
module PaymentEntity {
  import opened Prelude
  import opened PaymentPolicy

  /** The state of an entity as a value. */
  datatype Payment = Payment(props: Props, createdAt: int, updatedAt: int)

  predicate Sound(p: Payment) {
    ValidProps(p.props) && p.createdAt <= p.updatedAt
  }

  /** A partial change: `None` leaves a property alone. */
  datatype Patch = Patch(
    status: Option<Status>,
    checkoutUrl: Option<Option<string>>,
    transactionId: Option<Option<string>>,
    resultCode: Option<Option<string>>)

  function Merge(props: Props, patch: Patch): Props {
    props.(status := if patch.status.Some? then patch.status.value else props.status,
           checkoutUrl := if patch.checkoutUrl.Some? then patch.checkoutUrl.value else props.checkoutUrl,
           transactionId := if patch.transactionId.Some? then patch.transactionId.value else props.transactionId,
           resultCode := if patch.resultCode.Some? then patch.resultCode.value else props.resultCode)
  }

  /** The domain methods, as data. */
  datatype Op =
    | AttachUrl(url: string)
    | MarkUnknown
    | MarkCreateFailed(code: string)
    | Notify(n: Notification)

  datatype Reply =
    | Applied            // the payment changed (`true`, or 'applied')
    | NotApplicable      // `false`
    | SeenBefore         // 'duplicate'
    | AmountMismatch
    | ReferenceMismatch
    | Conflict           // 'state_conflict'
    | Throws             // an invariant failed and the change was rolled back

  /** What an operation wants to change, or why it wants nothing. */
  datatype Intent = Change(patch: Patch) | Decline(reply: Reply)

  function Decide(props: Props, op: Op): Intent {
    match op
    case AttachUrl(url) =>
      if props.checkoutUrl.Some? || !UrlAttachable(props.status) then Decline(NotApplicable)
      else Change(Patch(Some(if props.status.Creating? then Pending else props.status), Some(Some(url)), None, None))
    case MarkUnknown =>
      if !props.status.Creating? then Decline(NotApplicable)
      else Change(Patch(Some(Unknown), None, None, None))
    case MarkCreateFailed(code) =>
      if !props.status.Creating? then Decline(NotApplicable)
      else Change(Patch(Some(CreateFailed), None, None, Some(Some(code))))
    case Notify(n) =>
      if props.order.amountVnd != n.amountVnd then Decline(AmountMismatch)
      else if n.providerRequestId.Some? && n.providerRequestId.value != props.order.providerRequestId then
        Decline(ReferenceMismatch)
      else
        match ClassifyExisting(props, n)
        case Some(Duplicate) => Decline(SeenBefore)
        case Some(StateConflict) => Decline(Conflict)
        case None =>
          Change(Patch(Some(n.outcome), None, Some(NormalizeTransactionId(n.transactionId)), Some(Some(n.resultCode))))
  }

  /** An operation performed at clock time `at`. */
  function Perform(p: Payment, op: Op, at: int): (Payment, Reply) {
    match Decide(p.props, op)
    case Decline(reply) => (p, reply)
    case Change(patch) =>
      var props := Merge(p.props, patch);
      if at < p.createdAt || !ValidProps(props) then (p, Throws)
      else (p.(props := props, updatedAt := at), Applied)
  }

  /** A payment as `create` builds it. */
  function NewPayment(order: Order, now: int): Payment {
    Payment(Props(order.(sourceType := "order", currency := "VND"), Creating, None, None, None, 0), now, now)
  }

  /** What `create` returns, or `None` when a property breaks an invariant and construction throws. */
  function Created(order: Order, now: int): Option<Payment> {
    if Sound(NewPayment(order, now)) then Some(NewPayment(order, now)) else None
  }

  class PaymentEntity {
    const id: string
    const createdAt: int
    var updatedAt: int
    var updatedById: Option<string>
    var deletedAt: Option<int>
    var deletedById: Option<string>
    var props: Props

    ghost predicate Valid()
      reads this
    {
      Sound(View())
    }

    function View(): Payment
      reads this
    {
      Payment(props, createdAt, updatedAt)
    }

    constructor (id: string, createdAt: int, updatedAt: int, props: Props)
      ensures this.id == id && View() == Payment(props, createdAt, updatedAt)
      ensures deletedAt.None? && deletedById.None? && updatedById.None?
    {
      this.id, this.createdAt, this.updatedAt, this.props := id, createdAt, updatedAt, props;
      updatedById, deletedAt, deletedById := None, None, None;
    }

    static method Create(id: string, order: Order, now: int) returns (entity: PaymentEntity?)
      ensures entity == null <==> Created(order, now).None?
      ensures entity != null ==>
                fresh(entity) && entity.id == id && entity.Valid() && Created(order, now) == Some(entity.View())
      ensures entity != null ==>
                && entity.props.status.Creating? && entity.props.version == 0
                && entity.props.checkoutUrl.None? && entity.props.transactionId.None? && entity.props.resultCode.None?
                && entity.createdAt == now == entity.updatedAt
      ensures entity == null <==> !ValidOrder(order.(sourceType := "order", currency := "VND"))
    {
      var props := Props(order.(sourceType := "order", currency := "VND"), Creating, None, None, None, 0);
      if !ValidProps(props) {
        return null;
      }
      entity := new PaymentEntity(id, now, now, props);
    }

    /** The `updatedAt` setter: refuses a time before creation. */
    method SetUpdatedAt(value: int) returns (ok: bool)
      modifies this`updatedAt
      ensures ok <==> createdAt <= value
      ensures updatedAt == if ok then value else old(updatedAt)
    {
      ok := createdAt <= value;
      if ok {
        updatedAt := value;
      }
    }

    /** Either the whole change is in and valid, or nothing changed at all. */
    method UpdateProps(patch: Patch, at: int) returns (ok: bool)
      modifies this`props, this`updatedAt
      ensures ok <==> createdAt <= at && ValidProps(Merge(old(props), patch))
      ensures View() == if ok then Payment(Merge(old(props), patch), createdAt, at) else old(View())
    {
      var previousProps := props;
      var previousUpdatedAt := updatedAt;
      props := Merge(props, patch);
      ok := SetUpdatedAt(at);
      ok := ok && ValidProps(props);
      if !ok {
        props := previousProps;
        updatedAt := previousUpdatedAt;
      }
    }

    method AttachCheckoutUrl(url: string, at: int) returns (reply: Reply)
      modifies this`props, this`updatedAt
      ensures (View(), reply) == Perform(old(View()), AttachUrl(url), at)
      ensures old(Valid()) ==> Valid()
    {
      if props.checkoutUrl.Some? || !UrlAttachable(props.status) {
        return NotApplicable;
      }
      var status := if props.status == Creating then Pending else props.status;
      var ok := UpdateProps(Patch(Some(status), Some(Some(url)), None, None), at);
      reply := if ok then Applied else Throws;
    }

    method MarkAsUnknown(at: int) returns (reply: Reply)
      modifies this`props, this`updatedAt
      ensures (View(), reply) == Perform(old(View()), MarkUnknown, at)
      ensures old(Valid()) ==> Valid()
    {
      if props.status != Creating {
        return NotApplicable;
      }
      var ok := UpdateProps(Patch(Some(Unknown), None, None, None), at);
      reply := if ok then Applied else Throws;
    }

    method MarkAsCreateFailed(code: string, at: int) returns (reply: Reply)
      modifies this`props, this`updatedAt
      ensures (View(), reply) == Perform(old(View()), MarkCreateFailed(code), at)
      ensures old(Valid()) ==> Valid()
    {
      if props.status != Creating {
        return NotApplicable;
      }
      var ok := UpdateProps(Patch(Some(CreateFailed), None, None, Some(Some(code))), at);
      reply := if ok then Applied else Throws;
    }

    method ApplyVerifiedOutcome(n: Notification, at: int) returns (reply: Reply)
      modifies this`props, this`updatedAt
      ensures (View(), reply) == Perform(old(View()), Notify(n), at)
      ensures old(Valid()) ==> Valid()
    {
      if props.order.amountVnd != n.amountVnd {
        return AmountMismatch;
      }
      if n.providerRequestId.Some? && props.order.providerRequestId != n.providerRequestId.value {
        return ReferenceMismatch;
      }
      var existing := ClassifyExisting(props, n);
      if existing == Some(Duplicate) {
        return SeenBefore;
      } else if existing == Some(StateConflict) {
        return Conflict;
      }
      var ok := UpdateProps(
        Patch(Some(n.outcome), None, Some(NormalizeTransactionId(n.transactionId)), Some(Some(n.resultCode))), at);
      reply := if ok then Applied else Throws;
    }

    method MarkDeleted(actorId: Option<string>, at: int) returns (ok: bool)
      modifies this
      ensures ok <==> createdAt <= at
      ensures props == old(props)
      ensures ok ==> deletedAt == Some(at) && deletedById == actorId && updatedAt == at && updatedById == actorId
      ensures !ok ==> deletedAt == old(deletedAt) && deletedById == old(deletedById)
                      && updatedAt == old(updatedAt) && updatedById == old(updatedById)
      ensures old(Valid()) ==> Valid()
    {
      if at < createdAt {
        return false;
      }
      deletedAt, deletedById := Some(at), actorId;
      updatedAt, updatedById := at, actorId;
      return true;
    }
  }
}
