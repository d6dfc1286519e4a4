/** Effectively-once delivery in order-service: the consumer inbox in front of Handle. */
module ExactlyOnce {
  import opened Basics
  import opened Orchestrator
  import SagaMachine

  function DeliverAll(db: Db, evs: seq<Event>): Db {
    if evs == [] then db
    else
      var before := DeliverAll(db, evs[..|evs| - 1]);
      After(before, Handle(before, evs[|evs| - 1]))
  }

  /** The deliveries that committed. */
  function Applied(db: Db, evs: seq<Event>): seq<Event> {
    if evs == [] then []
    else
      var front, last := evs[..|evs| - 1], evs[|evs| - 1];
      Applied(db, front) + if Handle(DeliverAll(db, front), last).Done? then [last] else []
  }

  lemma EmitKeepsInbox(db: Db, snap: OrderRow, emit: seq<SagaMachine.Step>, deadline: nat)
    ensures EmitAll(db, snap, emit, deadline).inbox == db.inbox
    decreases |emit|
  {
    if emit != [] { EmitKeepsInbox(EmitCommand(db, snap, emit[0], deadline), snap, emit[1..], deadline); }
  }

  /** A delivery that commits records exactly its own id; any other outcome leaves the rows untouched. */
  lemma InboxAfter(db: Db, ev: Event)
    ensures Handle(db, ev).Done? ==> ev.id !in db.inbox && Handle(db, ev).db.inbox == db.inbox + {ev.id}
    ensures !Handle(db, ev).Done? ==> After(db, Handle(db, ev)) == db
    ensures ev.id in db.inbox ==> Handle(db, ev) == Duplicate
  {
    var ctx := BuildCtx(db.steps, ev.retriable);
    if ev.id !in db.inbox && SagaMachine.Next(db.order.status, ev.trigger, ctx).Ok? {
      var d := SagaMachine.Next(db.order.status, ev.trigger, ctx).decision;
      ApplyKeepsInbox(db.(inbox := db.inbox + {ev.id}), db.order, EvidenceOf(ev), d);
    }
  }

  lemma ApplyKeepsInbox(db: Db, snap: OrderRow, e: Evidence, d: SagaMachine.Decision)
    ensures Apply(db, snap, e, d).Done? ==> Apply(db, snap, e, d).db.inbox == db.inbox
  {
    var acked := AckEvidence(db, e.trigger);
    EmitKeepsInbox(acked, snap, d.emit, d.deadline);
    var reason := if d.next == SagaMachine.Cancelled then PickReason(d.reason, e.reason, snap.reason) else None;
    EmitKeepsInbox(acked.(order := UpdatedRow(acked.order, d.next, e, reason, d.failedStep)), snap, d.emit, d.deadline);
  }

  function Ids(evs: seq<Event>): set<Id> {
    set e | e in evs :: e.id
  }

  ghost predicate DistinctIds(evs: seq<Event>) {
    forall i, j :: 0 <= i < j < |evs| ==> evs[i].id != evs[j].id
  }

  lemma OneMoreId(some: seq<Event>, last: Event)
    requires DistinctIds(some) && last.id !in Ids(some)
    ensures DistinctIds(some + [last]) && Ids(some + [last]) == Ids(some) + {last.id} &&
      (some + [last])[..|some|] == some
  {
    assert forall i :: 0 <= i < |some| ==> some[i] in some && some[i].id in Ids(some);
  }

  /** One more delivery either commits, with an id not seen before, or changes nothing. */
  lemma AppliedNext(db: Db, evs: seq<Event>)
    requires evs != []
    ensures var front, last := evs[..|evs| - 1], evs[|evs| - 1];
      var before := DeliverAll(db, front);
      if Handle(before, last).Done?
      then Applied(db, evs) == Applied(db, front) + [last] && DeliverAll(db, evs).inbox == before.inbox + {last.id} &&
        last.id !in before.inbox
      else Applied(db, evs) == Applied(db, front) && DeliverAll(db, evs) == before
  {
    hide Handle;
    InboxAfter(DeliverAll(db, evs[..|evs| - 1]), evs[|evs| - 1]);
  }

  lemma DeliverNext(db: Db, some: seq<Event>, last: Event)
    ensures DeliverAll(db, some + [last]) == After(DeliverAll(db, some), Handle(DeliverAll(db, some), last))
  {
    assert (some + [last])[..|some|] == some;
  }

  /**
   Any sequence of deliveries, duplicated and reordered at will, leaves the rows that the committed
   deliveries alone leave; those have distinct ids, and every later copy of one is without effect.
   */
  lemma {:induction false} DeliveryIsEffectivelyOnce(db: Db, evs: seq<Event>)
    ensures DeliverAll(db, Applied(db, evs)) == DeliverAll(db, evs)
    ensures DeliverAll(db, evs).inbox == db.inbox + Ids(Applied(db, evs))
    ensures DistinctIds(Applied(db, evs))
    ensures forall e :: e in Applied(db, evs) ==> e in evs
    decreases |evs|
  {
    hide Handle, After, Ids, DistinctIds, DeliverAll, Applied;
    if evs == [] {
      NothingDelivered(db);
    } else {
      var n := |evs| - 1;
      var front, last := evs[..n], evs[n];
      DeliveryIsEffectivelyOnce(db, front);
      AppliedNext(db, evs);
      assert evs == front + [last];
      if Handle(DeliverAll(db, front), last).Done? {
        OneMoreId(Applied(db, front), last);
        DeliverNext(db, front, last);
        DeliverNext(db, Applied(db, front), last);
      }
    }
  }

  lemma NothingDelivered(db: Db)
    ensures Ids([]) == {} && DistinctIds([]) && DeliverAll(db, []) == db && Applied(db, []) == []
  {
  }
}
