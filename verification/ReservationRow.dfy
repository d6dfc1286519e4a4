/** Inventory's side of one order: its row in `reservations`, and what each command does to it. */
module ReservationRow {
  import opened Basics
  import opened SagaMachine

  datatype ResvState = Reserved | Committed | Released | Failed

  /** The order's row in `reservations`; reservations_order_uniq allows one. */
  datatype Resv = Resv(id: nat, state: ResvState)

  datatype Reply = Reply(resv: Option<Resv>, event: Option<Trigger>, failing: bool)

  /** The effect of one command on the order's reservation row (stock.go's Reserve, Release and Commit). */
  function Participant(r: Option<Resv>, step: Step, rid: nat, inStock: bool): Reply {
    match step
    case Reserve =>
      if r.Some? then Reply(r, None, false)
      else if inStock then Reply(Some(Resv(rid, Reserved)), Some(OnReserved), false)
      else Reply(None, None, true)
    case Release =>
      if r.None? then Reply(Some(Resv(rid, Released)), Some(OnReleased), false)
      else if r.value.id != rid || r.value.state == Committed then Reply(r, None, false)
      else if r.value.state == Reserved then Reply(Some(Resv(rid, Released)), Some(OnReleased), false)
      else Reply(r, Some(OnReleased), false)
    case Commit =>
      if r.None? || r.value.id != rid then Reply(r, None, false)
      else if r.value.state == Committed then Reply(r, Some(OnCommitted), false)
      else if r.value.state == Reserved then Reply(Some(Resv(rid, Committed)), Some(OnCommitted), false)
      else Reply(r, None, false)
    case _ => Reply(r, None, false)
  }

  /** publishFailure: its own transaction, some time after the failed Reserve was rolled back. */
  function FailureRow(r: Option<Resv>, rid: nat): Reply {
    if r.None? then Reply(Some(Resv(rid, Failed)), Some(OnReserveFailed), false)
    else if r.value.id == rid then Reply(r, Some(OnReserveFailed), false)
    else Reply(r, None, false)
  }
}
