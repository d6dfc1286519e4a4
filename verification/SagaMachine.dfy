/**
 The saga's decision function: a pure map from (state, trigger, context) to a
 decision. Every branch is the branch of services/order-service/internal/saga/machine.go.
 */
module SagaMachine {
  import opened Basics

  datatype State =
    | Pending | StockReserved | Paid | StockCommitted | Confirmed | Compensating | Cancelled

  datatype Step = Reserve | Authorize | Commit | Capture | Release | Void

  datatype Trigger =
    | OnReserved | OnReserveFailed | OnReleased | OnCommitted
    | OnAuthorized | OnAuthFailed | OnCaptured | OnVoided | OnTimeout

  datatype Reason =
    | InsufficientStock | PaymentDeclined | PaymentTimeout
    | ReservationTimeout | CustomerCancelled | FraudRejected

  /** Deadlines in seconds; zero means that no deadline is set. */
  const TIMEOUT_PENDING: nat := 30
  const TIMEOUT_STOCK_RESERVED: nat := 120
  const TIMEOUT_COMPENSATING: nat := 300
  const RETRY_INTERVAL: nat := 5
  const MAX_ROLL_FORWARD_RETRIES: nat := 5

  datatype Ctx = Ctx(
    authorizeSent: bool,
    inventorySettled: bool,
    paymentSettled: bool,
    rollForwardAttempts: nat,
    paymentRetriable: bool)

  datatype Decision = Decision(
    next: State,
    emit: seq<Step>,
    ackOnly: bool,
    reason: Option<Reason>,
    failedStep: Option<Step>,
    deadline: nat)

  datatype Verdict = Ok(decision: Decision) | Illegal(from: State, trigger: Trigger)

  function Go(next: State, emit: seq<Step>, deadline: nat): Decision {
    Decision(next, emit, false, None, None, deadline)
  }

  function Ack(from: State): Decision {
    Decision(from, [], true, None, None, 0)
  }

  function Start(): Decision {
    Go(Pending, [Reserve], TIMEOUT_PENDING)
  }

  function Next(from: State, t: Trigger, c: Ctx): Verdict {
    match from
    case Pending => (
      match t
      case OnReserved => Ok(Go(StockReserved, [Authorize], TIMEOUT_STOCK_RESERVED))
      case OnReserveFailed => Ok(Decision(Cancelled, [], false, Some(InsufficientStock), Some(Reserve), 0))
      case OnTimeout => Ok(Go(Compensating, [Release], TIMEOUT_COMPENSATING))
      case OnReleased | OnVoided => Ok(Ack(from))
      case _ => Illegal(from, t)
    )
    case StockReserved => (
      match t
      case OnAuthorized => Ok(Go(Paid, [Commit], 0))
      case OnAuthFailed =>
        if c.paymentRetriable then Ok(Ack(from))
        else Ok(Decision(Compensating, [Release], false, Some(PaymentDeclined), Some(Authorize), TIMEOUT_COMPENSATING))
      case OnTimeout =>
        Ok(Decision(Compensating, [Release, Void], false, Some(PaymentTimeout), Some(Authorize), TIMEOUT_COMPENSATING))
      case OnReserved => Ok(Ack(from))
      case _ => Illegal(from, t)
    )
    case Paid => (
      match t
      case OnCommitted => Ok(Go(StockCommitted, [Capture], 0))
      case OnAuthorized => Ok(Ack(from))
      case OnTimeout => Ok(Go(from, [Commit], RETRY_INTERVAL))
      case _ => Illegal(from, t)
    )
    case StockCommitted => (
      match t
      case OnCaptured => Ok(Go(Confirmed, [], 0))
      case OnCommitted => Ok(Ack(from))
      case OnTimeout => Ok(Go(from, [Capture], RETRY_INTERVAL))
      case _ => Illegal(from, t)
    )
    case Compensating => (
      match t
      case OnReleased | OnReserveFailed => Ok(SettleOrWait(c.(inventorySettled := true)))
      case OnVoided | OnAuthFailed => Ok(SettleOrWait(c.(paymentSettled := true)))
      case OnReserved => Ok(Ack(from))
      case OnAuthorized =>
        if !c.authorizeSent then Ok(Ack(from)) else Ok(Go(from, [Void], TIMEOUT_COMPENSATING))
      case OnTimeout => Ok(Go(from, CompensationsFor(c), TIMEOUT_COMPENSATING))
      case _ => Illegal(from, t)
    )
    case Confirmed | Cancelled => Ok(Ack(from))
  }

  function SettleOrWait(c: Ctx): Decision {
    if c.inventorySettled && (c.paymentSettled || !c.authorizeSent)
    then Decision(Cancelled, [], false, Some(PaymentDeclined), None, 0)
    else Ack(Compensating)
  }

  function CompensationsFor(c: Ctx): seq<Step> {
    (if !c.inventorySettled then [Release] else []) +
    (if c.authorizeSent && !c.paymentSettled then [Void] else [])
  }

  predicate IsTerminal(s: State) {
    s == Confirmed || s == Cancelled
  }

  predicate RollbackForbidden(s: State) {
    s == Paid || s == StockCommitted || s == Confirmed
  }

  /** The states an order can still visit after `s`: the saga's shape, written independently of Next. */
  predicate Leads(s: State, t: State) {
    match s
    case Pending => true
    case StockReserved => t != Pending
    case Paid => t == Paid || t == StockCommitted || t == Confirmed
    case StockCommitted => t == StockCommitted || t == Confirmed
    case Confirmed => t == Confirmed
    case Compensating => t == Compensating || t == Cancelled
    case Cancelled => t == Cancelled
  }

  predicate Distinct(emit: seq<Step>) {
    forall i, j :: 0 <= i < j < |emit| ==> emit[i] != emit[j]
  }

  /** What may be sent in a given state, and on what evidence a state may be entered. */
  ghost predicate Lawful(from: State, t: Trigger, c: Ctx, d: Decision) {
    && Leads(from, d.next)
    && Distinct(d.emit)
    && Reserve !in d.emit
    && (Authorize in d.emit ==> from == Pending && d.next == StockReserved)
    && (Commit in d.emit ==> d.next == Paid)
    && (Capture in d.emit ==> d.next == StockCommitted)
    && (Release in d.emit || Void in d.emit ==> d.next == Compensating)
    && (d.ackOnly ==> d.next == from && d.emit == [])
    && (d.next != from ==>
          match d.next
          case Pending => false
          case StockReserved => t == OnReserved && d.emit == [Authorize]
          case Paid => from == StockReserved && t == OnAuthorized && d.emit == [Commit]
          case StockCommitted => from == Paid && t == OnCommitted && d.emit == [Capture]
          case Confirmed => from == StockCommitted && t == OnCaptured
          case Compensating => (from == Pending || from == StockReserved) && Release in d.emit
          case Cancelled =>
            && d.emit == []
            && d.reason.Some?
            && ((from == Pending && t == OnReserveFailed)
                || (from == Compensating && (t == OnReleased || t == OnReserveFailed || c.inventorySettled))))
  }

  /** Past the point of no return there is no compensating decision, whatever the trigger and context. */
  lemma NextIsLawful(from: State, t: Trigger, c: Ctx)
    requires Next(from, t, c).Ok?
    ensures Lawful(from, t, c, Next(from, t, c).decision)
  {
  }

  /** How long the step sent with a decision may take. */
  function TimeAllowed(t: Trigger, d: Decision): nat {
    if d.ackOnly then 0
    else
      match d.next
      case Pending => 30
      case StockReserved => 120
      case Compensating => 300
      case Paid | StockCommitted => if t == OnTimeout then 5 else 0
      case Confirmed | Cancelled => 0
  }

  /** The deadline follows from where a decision leads, and the step blamed from where it leaves and why. */
  lemma NextIsTimed(from: State, t: Trigger, c: Ctx)
    requires Next(from, t, c).Ok?
    ensures var d := Next(from, t, c).decision;
      && d.deadline == TimeAllowed(t, d)
      && (d.failedStep == Some(Reserve) <==> from == Pending && d.next == Cancelled)
      && (d.failedStep == Some(Authorize) <==> from == StockReserved && d.next == Compensating)
      && (d.failedStep.Some? ==> d.failedStep == Some(Reserve) || d.failedStep == Some(Authorize))
  {
  }
}
