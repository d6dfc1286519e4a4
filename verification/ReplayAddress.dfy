/**
 To whom a stored response is replayed. The key row remembers one user and one request, but completing it
 goes by key alone, so after a reap a response can be stored under somebody else's row.
 */
module ReplayAddress {
  import opened Basics
  import opened Idempotency

  /** Every replayed response names an order placed for the same user and the same request. */
  ghost predicate Addressed(w: World) {
    forall r :: r in w.reqs && w.reqs[r].stage.Replayed? ==>
      w.reqs[r].stage.order in w.owners && w.owners[w.reqs[r].stage.order] == Owner(w.reqs[r].user, w.reqs[r].hash)
  }

  /** Between its claim and its last transaction. */
  predicate InFlight(s: Stage) {
    s == Claimed || s == Failed || s.Placed?
  }

  ghost predicate OwnsRow(w: World, q: Request) {
    && w.row == Some(Row(q.user, q.hash, InProgress))
    && (q.stage.Placed? ==> q.stage.order in w.owners && w.owners[q.stage.order] == Owner(q.user, q.hash))
  }

  /**
   At most one request is in flight, the row is its own, and a stored response belongs to the row's user and request.
   */
  ghost predicate Paired(w: World) {
    && (forall r, q :: r in w.reqs && q in w.reqs && InFlight(w.reqs[r].stage) && InFlight(w.reqs[q].stage) ==> r == q)
    && (forall r :: r in w.reqs && InFlight(w.reqs[r].stage) ==> OwnsRow(w, w.reqs[r]))
    && (w.row.Some? && w.row.value.state.Completed? ==>
          w.row.value.state.response in w.owners &&
            w.owners[w.row.value.state.response] == Owner(w.row.value.user, w.row.value.hash))
    && (forall o :: o in w.owners ==> o < w.nextId)
  }

  /** Before any reap: whoever has yet to place is the first to. */
  ghost predicate Unplaced(w: World) {
    && (forall r :: r in w.reqs && (w.reqs[r].stage == Claimed || w.reqs[r].stage == Failed) ==> w.orders == {})
    && (w.orders != {} ==> w.row.Some?)
  }

  /** Only `r` changed, or was added. */
  ghost predicate OnlyOne(w: World, w': World, r: ReqId) {
    && r in w'.reqs && w'.reqs.Keys == w.reqs.Keys + {r}
    && forall q :: q in w.reqs && q != r ==> w'.reqs[q] == w.reqs[q]
  }

  ghost predicate Alone(w: World, r: ReqId) {
    forall q :: q in w.reqs && q != r ==> !InFlight(w.reqs[q].stage)
  }

  ghost predicate FitsOwner(w: World, q: Request) {
    q.stage.Replayed? ==> q.stage.order in w.owners && w.owners[q.stage.order] == Owner(q.user, q.hash)
  }

  ghost predicate RowFits(w: World) {
    w.row.Some? && w.row.value.state.Completed? ==>
      w.row.value.state.response in w.owners &&
        w.owners[w.row.value.state.response] == Owner(w.row.value.user, w.row.value.hash)
  }

  /** The only request in flight moved on. */
  lemma HolderMoves(w: World, w': World, r: ReqId)
    requires Paired(w) && Addressed(w) && OnlyOne(w, w', r) && Alone(w, r) && RowFits(w')
    requires forall o :: o in w.owners ==> o in w'.owners && w'.owners[o] == w.owners[o]
    requires forall o :: o in w'.owners ==> o < w'.nextId
    requires InFlight(w'.reqs[r].stage) ==> OwnsRow(w', w'.reqs[r])
    requires FitsOwner(w', w'.reqs[r])
    ensures Paired(w') && Addressed(w')
  {
    hide OwnsRow;
    assert forall q :: q in w'.reqs && q != r ==> q in w.reqs && !InFlight(w'.reqs[q].stage);
  }

  /** Another request moved on beside it, or the one in flight crashed. */
  lemma OtherMoves(w: World, w': World, r: ReqId)
    requires Paired(w) && Addressed(w) && OnlyOne(w, w', r) && w' == w.(reqs := w'.reqs)
    requires !InFlight(w'.reqs[r].stage) && FitsOwner(w', w'.reqs[r])
    ensures Paired(w') && Addressed(w')
  {
    forall q | q in w'.reqs && InFlight(w'.reqs[q].stage)
      ensures q in w.reqs && OwnsRow(w', w'.reqs[q]) && w'.reqs[q] == w.reqs[q]
    {
      assert OwnsRow(w, w.reqs[q]);
    }
  }

  lemma HolderIsAlone(w: World, r: ReqId)
    requires Paired(w) && r in w.reqs && InFlight(w.reqs[r].stage)
    ensures Alone(w, r) && OwnsRow(w, w.reqs[r])
  {
  }

  lemma NoRowNoHolder(w: World, r: ReqId)
    requires Paired(w) && w.row.None?
    ensures Alone(w, r)
  {
  }

  lemma PairFacts(w: World)
    requires Paired(w)
    ensures RowFits(w) && forall o :: o in w.owners ==> o < w.nextId
  {
  }

  lemma ClaimKeepsPairs(w: World, r: ReqId)
    requires Paired(w) && Addressed(w) && r in w.reqs && w.reqs[r].stage == Arrived
    ensures Paired(ClaimKey(w, r)) && Addressed(ClaimKey(w, r))
  {
    hide Paired, Addressed, Alone;
    PairFacts(w);
    if w.row.None? {
      NoRowNoHolder(w, r);
      HolderMoves(w, ClaimKey(w, r), r);
    } else {
      OtherMoves(w, ClaimKey(w, r), r);
    }
  }

  lemma PlaceKeepsPairs(w: World, r: ReqId, ok: bool, unique: bool)
    requires Paired(w) && Addressed(w) && r in w.reqs && w.reqs[r].stage == Claimed
    ensures Paired(PlaceOrder(w, r, ok, unique)) && Addressed(PlaceOrder(w, r, ok, unique))
  {
    hide Paired, Addressed, Alone;
    PairFacts(w);
    HolderIsAlone(w, r);
    HolderMoves(w, PlaceOrder(w, r, ok, unique), r);
  }

  lemma LeaveKeepsPairs(w: World, a: Action, unique: bool)
    requires Paired(w) && Addressed(w) && (a.Complete? || a.Release? || a.Crash? || a.Arrive?)
    ensures Paired(Step(w, a, unique)) && Addressed(Step(w, a, unique))
  {
    hide Paired, Addressed, Alone;
    PairFacts(w);
    var w' := Step(w, a, unique);
    if w' != w {
      if a.Complete? || a.Release? {
        HolderIsAlone(w, a.r);
        HolderMoves(w, w', a.r);
      } else {
        OtherMoves(w, w', a.r);
      }
    }
  }

  lemma StepKeepsPairs(w: World, a: Action, unique: bool)
    requires Paired(w) && Addressed(w) && a != Purge
    ensures Paired(Step(w, a, unique)) && Addressed(Step(w, a, unique))
  {
    hide Paired, Addressed;
    match a
    case Claim(r) => if r in w.reqs && w.reqs[r].stage == Arrived { ClaimKeepsPairs(w, r); }
    case Place(r, ok) => if r in w.reqs && w.reqs[r].stage == Claimed { PlaceKeepsPairs(w, r, ok, unique); }
    case _ => LeaveKeepsPairs(w, a, unique);
  }

  lemma StepKeepsUnplaced(w: World, a: Action, unique: bool)
    requires Paired(w) && Unplaced(w) && a != Purge
    ensures Unplaced(Step(w, a, unique))
  {
    var w' := Step(w, a, unique);
    if (a.Place? || a.Release?) && a.r in w.reqs && InFlight(w.reqs[a.r].stage) {
      assert OwnsRow(w, w.reqs[a.r]);
      assert forall q :: q in w.reqs && q != a.r ==> w'.reqs[q] == w.reqs[q] && !InFlight(w.reqs[q].stage);
    }
  }

  /** While the key is not reaped every replay goes to whoever placed the order, with or without the unique index. */
  lemma {:induction false} UnreapedReplaysFit(acts: seq<Action>, unique: bool)
    requires Purge !in acts
    ensures var w := Run(acts, unique); Paired(w) && Addressed(w) && Unplaced(w)
    decreases |acts|
  {
    hide Paired, Addressed, Unplaced, Step;
    if acts == [] {
      NothingYet();
    } else {
      var n := |acts| - 1;
      assert acts[n] in acts;
      UnreapedReplaysFit(acts[..n], unique);
      StepKeepsPairs(Run(acts[..n], unique), acts[n], unique);
      StepKeepsUnplaced(Run(acts[..n], unique), acts[n], unique);
    }
  }

  lemma NothingYet()
    ensures Paired(EMPTY) && Addressed(EMPTY) && Unplaced(EMPTY)
  {
  }

  // ----- after a reap

  ghost predicate StaysAddressed(w: World, unique: bool) {
    forall acts: seq<Action> :: Purge !in acts ==> Addressed(Continue(w, acts, unique))
  }

  lemma {:induction false} PairedStaysAddressed(w: World, acts: seq<Action>, unique: bool)
    requires Paired(w) && Addressed(w) && Purge !in acts
    ensures Addressed(Continue(w, acts, unique))
    decreases |acts|
  {
    hide Paired, Addressed, Step;
    if acts != [] {
      assert acts[0] in acts;
      StepKeepsPairs(w, acts[0], unique);
      PairedStaysAddressed(Step(w, acts[0], unique), acts[1..], unique);
    }
  }

  lemma ContinueThree(w: World, acts: seq<Action>, unique: bool)
    requires |acts| >= 3
    ensures Continue(w, acts, unique) ==
      Continue(Step(Step(Step(w, acts[0], unique), acts[1], unique), acts[2], unique), acts[3..], unique)
  {
    hide Step;
    assert acts[1..][1..] == acts[2..] && acts[2..][1..] == acts[3..] && acts[1..][0] == acts[1] &&
      acts[2..][0] == acts[2];
    var w1 := Step(w, acts[0], unique);
    var w2 := Step(w1, acts[1], unique);
    assert Continue(w, acts, unique) == Continue(w1, acts[1..], unique);
    assert Continue(w1, acts[1..], unique) == Continue(w2, acts[2..], unique);
  }

  /** Under another user's row, completing stores the response there and that user's retry gets it. */
  lemma Misdirects(w: World, r: ReqId, newcomer: ReqId, user: nat, unique: bool) returns (acts: seq<Action>)
    requires r in w.reqs && w.reqs[r].stage.Placed? && newcomer !in w.reqs
    requires w.reqs[r].stage.order in w.owners && w.owners[w.reqs[r].stage.order].user != user
    requires w.row.Some? && w.row.value.user == user
    ensures |acts| == 3 && Purge !in acts && !Addressed(Continue(w, acts, unique))
  {
    acts := [Complete(r), Arrive(newcomer, user, w.row.value.hash), Claim(newcomer)];
    ContinueThree(w, acts, unique);
    assert acts[3..] == [];
    var w1 := Step(w, acts[0], unique);
    var w2 := Step(w1, acts[1], unique);
    var w3 := Step(w2, acts[2], unique);
    assert w3.reqs[newcomer].stage == Replayed(w.reqs[r].stage.order);
  }

  /** Placed, not completed: a newcomer takes the reaped key first. */
  lemma PlacedMisdirects(w: World, r: ReqId, newcomer: ReqId, unique: bool) returns (acts: seq<Action>)
    requires w.row.None? && r in w.reqs && w.reqs[r].stage.Placed? && forall x :: x in w.reqs ==> x < newcomer
    requires w.reqs[r].stage.order in w.owners && w.owners[w.reqs[r].stage.order].user == w.reqs[r].user
    ensures Purge !in acts && !Addressed(Continue(w, acts, unique))
  {
    var user := w.reqs[r].user + 1;
    var first := [Arrive(newcomer, user, 0), Claim(newcomer), Claim(newcomer)];
    var w3 := Step(Step(Step(w, first[0], unique), first[1], unique), first[2], unique);
    var rest := Misdirects(w3, r, newcomer + 1, user, unique);
    acts := first + rest;
    ContinueThree(w, acts, unique);
    assert acts[3..] == rest;
  }

  /** Claimed: a newcomer takes the reaped key, and the old owner places and completes beside it. */
  lemma ClaimedMisdirects(w: World, r: ReqId, newcomer: ReqId, unique: bool) returns (acts: seq<Action>)
    requires w.row.None? && w.orders == {} && r in w.reqs && w.reqs[r].stage == Claimed && forall x :: x in w.reqs ==>
      x < newcomer
    ensures Purge !in acts && !Addressed(Continue(w, acts, unique))
  {
    var user := w.reqs[r].user + 1;
    var first := [Arrive(newcomer, user, 0), Claim(newcomer), Place(r, true)];
    var w3 := Step(Step(Step(w, first[0], unique), first[1], unique), first[2], unique);
    var rest := Misdirects(w3, r, newcomer + 1, user, unique);
    acts := first + rest;
    ContinueThree(w, acts, unique);
    assert acts[3..] == rest;
  }

  /** About to release: it deletes the newcomer's row, and the newcomer is then the old owner of a reaped key. */
  lemma FailedMisdirects(w: World, r: ReqId, newcomer: ReqId, unique: bool) returns (acts: seq<Action>)
    requires w.row.None? && w.orders == {} && r in w.reqs && w.reqs[r].stage == Failed && forall x :: x in w.reqs ==>
      x < newcomer
    ensures Purge !in acts && !Addressed(Continue(w, acts, unique))
  {
    var first := [Arrive(newcomer, 0, 0), Claim(newcomer), Release(r)];
    var w3 := Step(Step(Step(w, first[0], unique), first[1], unique), first[2], unique);
    var rest := ClaimedMisdirects(w3, newcomer, newcomer + 1, unique);
    acts := first + rest;
    ContinueThree(w, acts, unique);
    assert acts[3..] == rest;
  }

  /**
   After a reap, replays still go only to whoever placed the order if and only if no request was between its
   claim and its last transaction when the key was reaped. The unique index makes no difference.
   */
  lemma ReapedReplaysFitIff(acts: seq<Action>, unique: bool)
    requires Purge !in acts
    ensures var w := Run(acts, unique);
      StaysAddressed(Step(w, Purge, unique), unique) <==> forall r :: r in w.reqs ==> !InFlight(w.reqs[r].stage)
  {
    hide Run, Continue, Addressed;
    var w := Run(acts, unique);
    UnreapedReplaysFit(acts, unique);
    var reaped := Step(w, Purge, unique);
    AddressesKept(w, unique);
    if r :| r in w.reqs && InFlight(w.reqs[r].stage) {
      assert OwnsRow(w, w.reqs[r]);
      var newcomer := FreshRequest(reaped.reqs.Keys);
      var more: seq<Action>;
      if w.reqs[r].stage.Placed? {
        more := PlacedMisdirects(reaped, r, newcomer, unique);
      } else if w.reqs[r].stage == Claimed {
        more := ClaimedMisdirects(reaped, r, newcomer, unique);
      } else {
        more := FailedMisdirects(reaped, r, newcomer, unique);
      }
    } else {
      forall more: seq<Action> | Purge !in more
        ensures Addressed(Continue(reaped, more, unique))
      {
        PairedStaysAddressed(reaped, more, unique);
      }
    }
  }

  lemma AddressesKept(w: World, unique: bool)
    requires Addressed(w)
    ensures Addressed(Step(w, Purge, unique))
  {
  }
}
