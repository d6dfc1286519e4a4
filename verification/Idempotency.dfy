/**
 HTTP idempotency of POST /v1/orders for one Idempotency-Key: concurrent retries, each running the
 claim, place, complete or release transactions of services/order-service/internal/httpapi/api.go and
 internal/store/idempotency.go, with crashes between them and the TTL reaper.
 */
module Idempotency {
  import opened Basics

  type OrderId = nat
  type ReqId = nat

  datatype RowState = InProgress | Completed(response: OrderId)

  /** The idempotency_keys row of this key. */
  datatype Row = Row(user: nat, hash: nat, state: RowState)

  /** Where a request is; a replayed or fresh answer names an order. */
  datatype Stage =
    | Arrived
    | Claimed
    | Placed(order: OrderId)
    | Failed
    | Answered(order: OrderId)
    | Replayed(order: OrderId)
    | KeyReused
    | TryAgain
    | Rejected
    | Crashed

  datatype Request = Request(user: nat, hash: nat, stage: Stage)

  /** The user and the request body an order was placed for. */
  datatype Owner = Owner(user: nat, hash: nat)

  /** `orders` are the rows of `orders` that carry this key; `owners` says whom each was placed for. */
  datatype World = World(row: Option<Row>, orders: set<OrderId>, owners: map<OrderId, Owner>, reqs: map<ReqId, Request>,
      nextId: OrderId)

  datatype Action =
    | Arrive(r: ReqId, user: nat, hash: nat)
    | Claim(r: ReqId)
    | Place(r: ReqId, accepted: bool)
    | Complete(r: ReqId)
    | Release(r: ReqId)
    | Crash(r: ReqId)
    | Purge

  function At(w: World, r: ReqId, s: Stage): World
    requires r in w.reqs
  {
    w.(reqs := w.reqs[r := w.reqs[r].(stage := s)])
  }

  /** ClaimKey: one insert decides; the loser looks at who owns the row. */
  function ClaimKey(w: World, r: ReqId): World
    requires r in w.reqs
  {
    var q := w.reqs[r];
    if w.row.None? then At(w.(row := Some(Row(q.user, q.hash, InProgress))), r, Claimed)
    else if w.row.value.user != q.user || w.row.value.hash != q.hash then At(w, r, KeyReused)
    else if w.row.value.state == InProgress then At(w, r, TryAgain)
    else At(w, r, Replayed(w.row.value.state.response))
  }

  /** Whose row a request finds, and the answer that goes with it. */
  lemma ClaimAnswers(w: World, r: ReqId)
    requires r in w.reqs
    ensures var q, s := w.reqs[r], ClaimKey(w, r).reqs[r].stage;
      var mine := w.row.Some? && w.row.value.user == q.user && w.row.value.hash == q.hash;
      && (s == Claimed <==> w.row.None?)
      && (s == KeyReused <==> w.row.Some? && !mine)
      && (s == TryAgain <==> mine && w.row.value.state == InProgress)
      && (s.Replayed? <==> mine && w.row.value.state.Completed?)
      && (s.Replayed? ==> s.order == w.row.value.state.response)
    ensures w.row.Some? ==> ClaimKey(w, r).row == w.row
    ensures w.row.None? ==> ClaimKey(w, r).row == Some(Row(w.reqs[r].user, w.reqs[r].hash, InProgress))
    ensures ClaimKey(w, r).orders == w.orders
    ensures forall q :: q in w.reqs && q != r ==> ClaimKey(w, r).reqs[q] == w.reqs[q]
  {
  }

  /** PlaceOrder's transaction; `unique` says whether orders.idempotency_key has a unique index. */
  function PlaceOrder(w: World, r: ReqId, accepted: bool, unique: bool): World
    requires r in w.reqs
  {
    if !accepted || (unique && w.orders != {}) then At(w, r, Failed)
    else
      At(w.(orders := w.orders + {w.nextId}, owners := w.owners[w.nextId := Owner(w.reqs[r].user, w.reqs[r].hash)],
            nextId := w.nextId + 1), r, Placed(w.nextId))
  }

  /** CompleteKey updates by key alone; it finds no row if the reaper was there first. */
  function CompleteKey(w: World, o: OrderId): World {
    if w.row.Some? then w.(row := Some(w.row.value.(state := Completed(o)))) else w
  }

  /** ReleaseKey deletes an IN_PROGRESS row, whoever owns it. */
  function ReleaseKey(w: World): World {
    if w.row.Some? && w.row.value.state == InProgress then w.(row := None) else w
  }

  function Step(w: World, a: Action, unique: bool): World {
    match a
    case Arrive(r, user, hash) => if r in w.reqs then w else w.(reqs := w.reqs[r := Request(user, hash, Arrived)])
    case Claim(r) => if r in w.reqs && w.reqs[r].stage == Arrived then ClaimKey(w, r) else w
    case Place(r, ok) => if r in w.reqs && w.reqs[r].stage == Claimed then PlaceOrder(w, r, ok, unique) else w
    case Complete(r) =>
      if r in w.reqs && w.reqs[r].stage.Placed?
      then At(CompleteKey(w, w.reqs[r].stage.order), r, Answered(w.reqs[r].stage.order)) else w
    case Release(r) => if r in w.reqs && w.reqs[r].stage == Failed then At(ReleaseKey(w), r, Rejected) else w
    case Crash(r) => if r in w.reqs then At(w, r, Crashed) else w
    case Purge => w.(row := None)
  }

  /** A completed request's retry, by the row's user with the row's body, is answered with the order it placed. */
  lemma CompletedIsReplayed(w: World, r: ReqId, retry: ReqId, unique: bool)
    requires r in w.reqs && w.reqs[r].stage.Placed? && w.row == Some(Row(w.reqs[r].user, w.reqs[r].hash, InProgress))
    requires retry in w.reqs && retry != r && w.reqs[retry] == Request(w.reqs[r].user, w.reqs[r].hash, Arrived)
    ensures var w' := Step(Step(w, Complete(r), unique), Claim(retry), unique);
      && w'.reqs[r].stage == Answered(w.reqs[r].stage.order)
      && w'.reqs[retry].stage == Replayed(w.reqs[r].stage.order)
      && w'.orders == w.orders
  {
  }

  /** A released key is free at once: the next request claims it, whoever sends it; a completed one is not released. */
  lemma ReleasedIsFree(w: World, r: ReqId, retry: ReqId, unique: bool)
    requires r in w.reqs && w.reqs[r].stage == Failed && w.row.Some?
    requires retry in w.reqs && retry != r && w.reqs[retry].stage == Arrived
    ensures var w' := Step(w, Release(r), unique);
      && w'.reqs[r].stage == Rejected
      && (w.row.value.state == InProgress ==> Step(w', Claim(retry), unique).reqs[retry].stage == Claimed)
      && (w.row.value.state.Completed? ==> w'.row == w.row)
  {
  }

  /** Placing either adds one order under a new id, or fails: when it is refused, or the index finds the key taken. */
  lemma PlacingMeans(w: World, r: ReqId, accepted: bool, unique: bool)
    requires r in w.reqs && w.reqs[r].stage == Claimed
    ensures var w' := Step(w, Place(r, accepted), unique);
      && w'.row == w.row
      && (w'.reqs[r].stage == Failed <==> !accepted || (unique && w.orders != {}))
      && (w'.reqs[r].stage != Failed ==>
            w'.reqs[r].stage == Placed(w.nextId) && w'.orders == w.orders + {w.nextId} && w'.nextId == w.nextId + 1)
      && (w'.reqs[r].stage == Failed ==> w'.orders == w.orders)
  {
  }

  const EMPTY: World := World(None, {}, map[], map[], 0)

  function Run(acts: seq<Action>, unique: bool): World {
    if acts == [] then EMPTY else Step(Run(acts[..|acts| - 1], unique), acts[|acts| - 1], unique)
  }

  ghost predicate AtMostOne(w: World) {
    forall o, p :: o in w.orders && p in w.orders ==> o == p
  }

  /** The order a response or a stored response names. */
  ghost predicate NamesOrder(w: World) {
    && (w.row.Some? && w.row.value.state.Completed? ==> w.row.value.state.response in w.orders)
    && (forall r :: r in w.reqs && Names(w.reqs[r].stage) ==> w.reqs[r].stage.order in w.orders)
  }

  predicate Names(s: Stage) {
    s.Placed? || s.Answered? || s.Replayed?
  }

  // ----- with the unique index the documentation shows

  lemma {:induction false} UniqueIndexSuffices(acts: seq<Action>)
    ensures AtMostOne(Run(acts, true)) && NamesOrder(Run(acts, true))
    decreases |acts|
  {
    hide AtMostOne, NamesOrder, Step;
    if acts == [] {
      NothingPlaced();
    } else {
      UniqueIndexSuffices(acts[..|acts| - 1]);
      UniqueStep(Run(acts[..|acts| - 1], true), acts[|acts| - 1]);
    }
  }

  lemma NothingPlaced()
    ensures AtMostOne(EMPTY) && NamesOrder(EMPTY)
  {
  }

  lemma UniqueStep(w: World, a: Action)
    requires AtMostOne(w) && NamesOrder(w)
    ensures AtMostOne(Step(w, a, true)) && NamesOrder(Step(w, a, true))
  {
  }

  // ----- without it

  predicate Owns(s: Stage) {
    s == Claimed || s == Failed
  }

  /** A key row that is never reaped serialises the owners: one at a time, and none once an order exists. */
  ghost predicate Owned(w: World) {
    && (forall r, q :: r in w.reqs && q in w.reqs && Owns(w.reqs[r].stage) && Owns(w.reqs[q].stage) ==> r == q)
    && (forall r :: r in w.reqs && Owns(w.reqs[r].stage) ==>
          w.row.Some? && w.row.value.state == InProgress && w.orders == {})
    && (w.orders != {} ==> w.row.Some?)
    && (forall o :: o in w.orders ==> o < w.nextId)
  }

  lemma OwnedStep(w: World, a: Action)
    requires AtMostOne(w) && NamesOrder(w) && Owned(w) && a != Purge
    ensures var w' := Step(w, a, false); AtMostOne(w') && NamesOrder(w') && Owned(w')
  {
    if a.Claim? || a.Place? || a.Arrive? {
      TakingKeepsOwned(w, a);
    } else {
      LeavingKeepsOwned(w, a);
    }
  }

  lemma TakingKeepsOwned(w: World, a: Action)
    requires AtMostOne(w) && NamesOrder(w) && Owned(w) && (a.Claim? || a.Place? || a.Arrive?)
    ensures var w' := Step(w, a, false); AtMostOne(w') && NamesOrder(w') && Owned(w')
  {
  }

  lemma LeavingKeepsOwned(w: World, a: Action)
    requires AtMostOne(w) && NamesOrder(w) && Owned(w) && (a.Complete? || a.Release? || a.Crash?)
    ensures var w' := Step(w, a, false); AtMostOne(w') && NamesOrder(w') && Owned(w')
  {
  }

  /** As the schema ships, without that index: still one order per key, as long as the reaper stays away. */
  lemma {:induction false} RowSufficesUnreaped(acts: seq<Action>)
    requires Purge !in acts
    ensures var w := Run(acts, false); AtMostOne(w) && NamesOrder(w) && Owned(w)
    decreases |acts|
  {
    if acts != [] {
      var n := |acts| - 1;
      assert acts[n] in acts;
      RowSufficesUnreaped(acts[..n]);
      OwnedStep(Run(acts[..n], false), acts[n]);
    }
  }

  lemma RunNext(acts: seq<Action>, a: Action, unique: bool)
    ensures Run(acts + [a], unique) == Step(Run(acts, unique), a, unique)
  {
    assert (acts + [a])[..|acts|] == acts;
  }

  lemma RunThree(acts: seq<Action>, a: Action, b: Action, c: Action)
    ensures Run(acts + [a, b, c], false) == Step(Step(Step(Run(acts, false), a, false), b, false), c, false)
  {
    hide Run, Step;
    RunNext(acts, a, false);
    RunNext(acts + [a], b, false);
    RunNext(acts + [a] + [b], c, false);
    assert acts + [a, b, c] == acts + [a] + [b] + [c];
  }

  function CrashedPlacement(): seq<Action> {
    [Arrive(0, 7, 7), Claim(0), Place(0, true)] + [Crash(0)] + [Purge]
  }

  lemma CrashedLeavesOrder()
    ensures Run(CrashedPlacement(), false) ==
      World(None, {0}, map[0 := Owner(7, 7)], map[0 := Request(7, 7, Crashed)], 1)
  {
    RunThree([], Arrive(0, 7, 7), Claim(0), Place(0, true));
    var three := [Arrive(0, 7, 7), Claim(0), Place(0, true)];
    assert [] + three == three;
    RunNext(three, Crash(0), false);
    RunNext(three + [Crash(0)], Purge, false);
  }

  /** Crash after placing, reap, retry: a second order for the same key. */
  lemma ReapedKeyDuplicates()
    ensures !AtMostOne(Run(CrashedPlacement() + [Arrive(1, 7, 7), Claim(1), Place(1, true)], false))
  {
    hide Run;
    CrashedLeavesOrder();
    RunThree(CrashedPlacement(), Arrive(1, 7, 7), Claim(1), Place(1, true));
    var w := Run(CrashedPlacement() + [Arrive(1, 7, 7), Claim(1), Place(1, true)], false);
    assert 0 in w.orders && 1 in w.orders;
  }

  // ----- exactly when reaping is harmless

  function Continue(w: World, acts: seq<Action>, unique: bool): World
    decreases |acts|
  {
    if acts == [] then w else Continue(Step(w, acts[0], unique), acts[1..], unique)
  }

  ghost predicate StaysSingle(w: World) {
    forall acts: seq<Action> :: Purge !in acts ==> AtMostOne(Continue(w, acts, false))
  }

  lemma {:induction false} OwnedContinues(w: World, acts: seq<Action>)
    requires AtMostOne(w) && NamesOrder(w) && Owned(w) && Purge !in acts
    ensures AtMostOne(Continue(w, acts, false))
    decreases |acts|
  {
    hide AtMostOne, NamesOrder, Owned;
    if acts != [] {
      assert acts[0] in acts;
      OwnedStep(w, acts[0]);
      OwnedContinues(Step(w, acts[0], false), acts[1..]);
    }
  }

  /** Nobody holds the key and no order carries it. */
  ghost predicate Idle(w: World) {
    w.orders == {} && forall r :: r in w.reqs ==> !Owns(w.reqs[r].stage)
  }

  lemma {:induction false} FreshRequest(reqs: set<ReqId>) returns (r: ReqId)
    ensures forall x :: x in reqs ==> x < r
    decreases |reqs|
  {
    r := 0;
    if reqs != {} {
      var x :| x in reqs;
      var rest := FreshRequest(reqs - {x});
      r := Max(rest, x + 1);
      assert forall y :: y in reqs ==> y == x || y in reqs - {x};
    }
  }

  lemma ContinueStep(w: World, a: Action, acts: seq<Action>)
    ensures Continue(w, [a] + acts, false) == Continue(Step(w, a, false), acts, false)
  {
    assert ([a] + acts)[1..] == acts;
  }

  /** A fresh request on a reaped key claims it and can place an order. */
  lemma NewcomerPlaces(w: World, r: ReqId) returns (w': World)
    requires w.row.None? && r !in w.reqs
    ensures w' == Continue(w, [Arrive(r, 0, 0), Claim(r), Place(r, true)], false)
    ensures w'.orders == w.orders + {w.nextId} && w'.nextId == w.nextId + 1
    ensures w'.reqs.Keys == w.reqs.Keys + {r} && forall q :: q in w.reqs ==> w'.reqs[q] == w.reqs[q]
  {
    var w1 := Step(w, Arrive(r, 0, 0), false);
    var w2 := Step(w1, Claim(r), false);
    w' := Step(w2, Place(r, true), false);
    assert [Arrive(r, 0, 0), Claim(r), Place(r, true)] == [Arrive(r, 0, 0)] + ([Claim(r)] + ([Place(r, true)] + []));
    ContinueStep(w, Arrive(r, 0, 0), [Claim(r)] + ([Place(r, true)] + []));
    ContinueStep(w1, Claim(r), [Place(r, true)] + []);
    ContinueStep(w2, Place(r, true), []);
  }

  lemma {:induction false} ContinueSplits(w: World, acts: seq<Action>, more: seq<Action>)
    ensures Continue(w, acts + more, false) == Continue(Continue(w, acts, false), more, false)
    decreases |acts|
  {
    if acts == [] {
      assert acts + more == more;
    } else {
      assert (acts + more)[1..] == acts[1..] + more;
      ContinueSplits(Step(w, acts[0], false), acts[1..], more);
    }
  }

  /** The former owner, still running, places beside the newcomer. */
  lemma OwnerPlacesToo(w: World, owner: ReqId, r: ReqId) returns (acts: seq<Action>)
    requires w.row.None? && r !in w.reqs && owner in w.reqs && w.reqs[owner].stage == Claimed
    requires forall o :: o in w.orders ==> o < w.nextId
    ensures Purge !in acts && !AtMostOne(Continue(w, acts, false))
  {
    var first := [Arrive(r, 0, 0), Claim(r), Place(r, true)];
    var w1 := NewcomerPlaces(w, r);
    acts := first + [Place(owner, true)];
    ContinueSplits(w, first, [Place(owner, true)]);
    ContinueStep(w1, Place(owner, true), []);
    assert [Place(owner, true)] + [] == [Place(owner, true)];
    var w2 := Step(w1, Place(owner, true), false);
    assert w.nextId in w2.orders && w.nextId + 1 in w2.orders;
  }

  /** The former owner, about to release, deletes the newcomer's row and lets in a third. */
  lemma ReleaseLetsInThird(w: World, owner: ReqId, r: ReqId) returns (acts: seq<Action>)
    requires w.row.None? && r !in w.reqs && r + 1 !in w.reqs && owner in w.reqs && w.reqs[owner].stage == Failed
    ensures Purge !in acts && !AtMostOne(Continue(w, acts, false))
  {
    var first := [Arrive(r, 0, 0), Claim(r), Release(owner)];
    var a1 := Step(w, Arrive(r, 0, 0), false);
    var a2 := Step(a1, Claim(r), false);
    var a3 := Step(a2, Release(owner), false);
    assert first == [Arrive(r, 0, 0)] + ([Claim(r)] + ([Release(owner)] + []));
    ContinueStep(w, Arrive(r, 0, 0), [Claim(r)] + ([Release(owner)] + []));
    ContinueStep(a1, Claim(r), [Release(owner)] + []);
    ContinueStep(a2, Release(owner), []);
    assert a3.row.None? && a3.reqs[r].stage == Claimed && r + 1 !in a3.reqs && a3.orders == w.orders &&
      a3.nextId == w.nextId;
    var second := [Arrive(r + 1, 0, 0), Claim(r + 1), Place(r + 1, true)];
    var a4 := NewcomerPlaces(a3, r + 1);
    var a5 := Step(a4, Place(r, true), false);
    assert w.nextId in a5.orders && w.nextId + 1 in a5.orders;
    ContinueStep(a4, Place(r, true), []);
    assert [Place(r, true)] + [] == [Place(r, true)];
    ContinueSplits(a3, second, [Place(r, true)]);
    ContinueSplits(w, first, second + [Place(r, true)]);
    acts := first + (second + [Place(r, true)]);
  }

  lemma NewcomerDuplicates(w: World, r: ReqId) returns (acts: seq<Action>)
    requires w.row.None? && r !in w.reqs && w.orders != {} && forall o :: o in w.orders ==> o < w.nextId
    ensures Purge !in acts && !AtMostOne(Continue(w, acts, false))
  {
    acts := [Arrive(r, 0, 0), Claim(r), Place(r, true)];
    var w1 := NewcomerPlaces(w, r);
    var o :| o in w.orders;
    assert o in w1.orders && w.nextId in w1.orders;
  }

  /** After reaping, one order per key is still certain exactly when the key was idle: no order and no owner. */
  lemma ReapingHarmlessIff(acts: seq<Action>)
    requires Purge !in acts
    ensures var w := Run(acts, false); StaysSingle(Step(w, Purge, false)) <==> Idle(w)
  {
    hide AtMostOne, NamesOrder, Run, Continue;
    var w := Run(acts, false);
    RowSufficesUnreaped(acts);
    var reaped := Step(w, Purge, false);
    if Idle(w) {
      ReapedIdle(w);
      forall more: seq<Action> | Purge !in more
        ensures AtMostOne(Continue(reaped, more, false))
      {
        OwnedContinues(reaped, more);
      }
    } else {
      var r := FreshRequest(reaped.reqs.Keys);
      var more: seq<Action>;
      if w.orders != {} {
        more := NewcomerDuplicates(reaped, r);
      } else {
        var owner :| owner in w.reqs && Owns(w.reqs[owner].stage);
        if w.reqs[owner].stage == Claimed {
          more := OwnerPlacesToo(reaped, owner, r);
        } else {
          more := ReleaseLetsInThird(reaped, owner, r);
        }
      }
    }
  }

  lemma ReapedIdle(w: World)
    requires AtMostOne(w) && NamesOrder(w) && Owned(w) && Idle(w)
    ensures var reaped := Step(w, Purge, false); AtMostOne(reaped) && NamesOrder(reaped) && Owned(reaped)
  {
  }
}
