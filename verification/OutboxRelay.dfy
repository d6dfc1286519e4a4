/**
 The outbox relay of order-service (services/order-service/internal/eventbus/relay.go and internal/store/outbox.go):
 any number of relays, each claiming the oldest free rows, with crashes at any point.
 */
module OutboxRelay {
  import opened Basics

  type RowId = nat
  type Topic = nat

  datatype OutboxRow = OutboxRow(topic: Topic, published: bool)

  type Rows = map<RowId, OutboxRow>

  /** One relay transaction: the rows it locked, and those whose topic it has written so far. */
  datatype Tick = Tick(claimed: set<RowId>, sent: set<RowId>, failed: bool)

  /** The table, what the broker has acknowledged, the relay transactions in progress, and the batch size. */
  datatype Bus = Bus(rows: Rows, log: set<RowId>, ticks: map<nat, Tick>, limit: nat)

  datatype Act =
    | Enqueue(id: RowId, topic: Topic)
    | ClaimBatch(relay: nat)
    | PublishTopic(relay: nat, topic: Topic, ok: bool)
    | Commit(relay: nat)
    | CrashRelay(relay: nat)

  ghost predicate Locked(b: Bus, i: RowId) {
    exists r :: r in b.ticks && i in b.ticks[r].claimed
  }

  function Unpublished(rows: Rows): set<RowId> {
    set i | i in rows && !rows[i].published
  }

  ghost function Free(b: Bus): set<RowId> {
    set i | i in Unpublished(b.rows) && !Locked(b, i)
  }

  /** ORDER BY id LIMIT `limit`. */
  function Oldest(ids: set<RowId>, limit: nat): (out: set<RowId>)
    ensures out <= ids
  {
    if limit == 0 || ids == {} then {}
    else
      var x := Least(ids);
      {x} + Oldest(ids - {x}, limit - 1)
  }

  function OnTopics(rows: Rows, ids: set<RowId>, topics: set<Topic>): set<RowId> {
    set i | i in ids && i in rows && rows[i].topic in topics
  }

  function TopicsOf(rows: Rows, ids: set<RowId>): set<Topic> {
    set i | i in ids && i in rows :: rows[i].topic
  }

  function Mark(rows: Rows, ids: set<RowId>): Rows {
    map i | i in rows :: if i in ids then rows[i].(published := true) else rows[i]
  }

  ghost function Do(b: Bus, a: Act): Bus {
    match a
    case Enqueue(id, t) => if id in b.rows then b else b.(rows := b.rows[id := OutboxRow(t, false)])
    case ClaimBatch(r) =>
      if r in b.ticks then b else b.(ticks := b.ticks[r := Tick(Oldest(Free(b), b.limit), {}, false)])
    case PublishTopic(r, t, ok) =>
      if r !in b.ticks then b
      else if !ok then b.(ticks := b.ticks[r := b.ticks[r].(failed := true)])
      else
        var ids := OnTopics(b.rows, b.ticks[r].claimed, {t});
        b.(log := b.log + ids, ticks := b.ticks[r := b.ticks[r].(sent := b.ticks[r].sent + ids)])
    case Commit(r) =>
      if r !in b.ticks then b
      else if b.ticks[r].failed then b.(ticks := b.ticks - {r})
      else b.(rows := Mark(b.rows, b.ticks[r].sent), ticks := b.ticks - {r})
    case CrashRelay(r) => b.(ticks := b.ticks - {r})
  }

  ghost function DoAll(limit: nat, acts: seq<Act>): Bus {
    if acts == [] then Bus(map[], {}, map[], limit) else Do(DoAll(limit, acts[..|acts| - 1]), acts[|acts| - 1])
  }

  lemma Unfold(limit: nat, acts: seq<Act>, a: Act)
    ensures DoAll(limit, acts + [a]) == Do(DoAll(limit, acts), a)
  {
    assert (acts + [a])[..|acts|] == acts;
  }

  /** A row is enqueued once, unpublished, on the topic asked for; enqueueing it again changes nothing. */
  lemma EnqueueMeans(b: Bus, id: RowId, t: Topic, again: Topic)
    ensures var b' := Do(b, Enqueue(id, t));
      && id in b'.rows && b'.rows.Keys == b.rows.Keys + {id} && (forall i :: i in b.rows ==> b'.rows[i] == b.rows[i])
      && (id !in b.rows ==> !b'.rows[id].published && b'.rows[id].topic == t)
      && b'.log == b.log && b'.ticks == b.ticks && Do(b', Enqueue(id, again)) == b'
  {
  }

  // ----- nothing is lost

  /** A relay transaction in progress: what it sent is on the topic and among the unpublished rows it locked. */
  ghost predicate Sane(b: Bus, t: Tick) {
    && t.sent <= b.log
    && t.sent <= t.claimed
    && t.claimed <= Unpublished(b.rows)
  }

  ghost predicate NothingLost(b: Bus) {
    && (forall i :: i in b.rows && b.rows[i].published ==> i in b.log)
    && (forall r :: r in b.ticks ==> Sane(b, b.ticks[r]))
    && (forall r, q :: r in b.ticks && q in b.ticks && r != q ==> b.ticks[r].claimed !! b.ticks[q].claimed)
    && b.log <= b.rows.Keys
  }

  lemma EnqueueKeeps(b: Bus, id: RowId, t: Topic)
    requires NothingLost(b)
    ensures NothingLost(Do(b, Enqueue(id, t)))
  {
    var b' := Do(b, Enqueue(id, t));
    assert forall i :: i in b.rows ==> i in b'.rows && b'.rows[i] == b.rows[i];
    forall r | r in b'.ticks ensures Sane(b', b'.ticks[r]) { assert Sane(b, b.ticks[r]); }
  }

  lemma ClaimKeeps(b: Bus, r: nat)
    requires NothingLost(b)
    ensures NothingLost(Do(b, ClaimBatch(r)))
  {
    var b' := Do(b, ClaimBatch(r));
    forall q | q in b'.ticks ensures Sane(b', b'.ticks[q]) {
      assert q in b.ticks ==> b'.ticks[q] == b.ticks[q] && Sane(b, b.ticks[q]);
    }
    forall p, q | p in b'.ticks && q in b'.ticks && p != q ensures b'.ticks[p].claimed !! b'.ticks[q].claimed {
      assert p in b.ticks ==> b'.ticks[p] == b.ticks[p] && b.ticks[p].claimed !! Free(b);
      assert q in b.ticks ==> b'.ticks[q] == b.ticks[q] && b.ticks[q].claimed !! Free(b);
    }
  }

  lemma PublishKeeps(b: Bus, r: nat, t: Topic, ok: bool)
    requires NothingLost(b)
    ensures NothingLost(Do(b, PublishTopic(r, t, ok)))
  {
    var b' := Do(b, PublishTopic(r, t, ok));
    forall q | q in b'.ticks ensures Sane(b', b'.ticks[q]) && b'.ticks[q].claimed == b.ticks[q].claimed {
      assert Sane(b, b.ticks[q]);
      assert q != r ==> b'.ticks[q] == b.ticks[q];
    }
    if r in b.ticks { assert Sane(b, b.ticks[r]); }
  }

  lemma CrashKeeps(b: Bus, r: nat)
    requires NothingLost(b)
    ensures NothingLost(Do(b, CrashRelay(r)))
  {
    var b' := Do(b, CrashRelay(r));
    forall q | q in b'.ticks ensures Sane(b', b'.ticks[q]) && b'.ticks[q] == b.ticks[q] {
      assert Sane(b, b.ticks[q]);
    }
  }

  lemma CommitKeeps(b: Bus, r: nat)
    requires NothingLost(b)
    ensures NothingLost(Do(b, Commit(r)))
  {
    if r in b.ticks && !b.ticks[r].failed {
      var b' := Do(b, Commit(r));
      assert Sane(b, b.ticks[r]);
      forall q | q in b'.ticks ensures Sane(b', b'.ticks[q]) && b'.ticks[q] == b.ticks[q] {
        assert q != r && Sane(b, b.ticks[q]);
        assert b.ticks[q].claimed !! b.ticks[r].claimed;
      }
    } else {
      CrashKeeps(b, r);
    }
  }

  lemma DoKeeps(b: Bus, a: Act)
    requires NothingLost(b)
    ensures NothingLost(Do(b, a))
  {
    hide Do, NothingLost;
    match a
    case Enqueue(id, t) => EnqueueKeeps(b, id, t);
    case ClaimBatch(r) => ClaimKeeps(b, r);
    case PublishTopic(r, t, ok) => PublishKeeps(b, r, t, ok);
    case Commit(r) => CommitKeeps(b, r);
    case CrashRelay(r) => CrashKeeps(b, r);
  }

  /** In every run a row is marked published only if its message is on the topic, and two relays never hold one row. */
  lemma {:induction false} PublishedMeansOnTopic(limit: nat, acts: seq<Act>)
    ensures NothingLost(DoAll(limit, acts))
    decreases |acts|
  {
    if acts != [] {
      PublishedMeansOnTopic(limit, acts[..|acts| - 1]);
      DoKeeps(DoAll(limit, acts[..|acts| - 1]), acts[|acts| - 1]);
    }
  }

  /** Rows, marks and published messages are never taken back. */
  ghost predicate Grows(b: Bus, b': Bus) {
    && b.log <= b'.log
    && forall i :: i in b.rows ==>
      i in b'.rows && b'.rows[i].topic == b.rows[i].topic && (b.rows[i].published ==> b'.rows[i].published)
  }

  lemma StepGrows(b: Bus, a: Act)
    ensures Grows(b, Do(b, a))
  {
  }

  lemma {:induction false} RowsAreKept(limit: nat, acts: seq<Act>, more: seq<Act>)
    ensures Grows(DoAll(limit, acts), DoAll(limit, acts + more))
    decreases |more|
  {
    if more == [] {
      assert acts + more == acts;
    } else {
      var n := |more| - 1;
      RowsAreKept(limit, acts, more[..n]);
      Unfold(limit, acts + more[..n], more[n]);
      assert acts + more == acts + more[..n] + [more[n]];
      StepGrows(DoAll(limit, acts + more[..n]), more[n]);
    }
  }

  // ----- one tick of a lone relay

  /** What a tick leaves when the broker accepts the topics in `up`. */
  function TickOnce(b: Bus, up: set<Topic>): Bus {
    var batch := Oldest(Unpublished(b.rows), b.limit);
    b.(rows := if TopicsOf(b.rows, batch) <= up then Mark(b.rows, batch) else b.rows,
       log := b.log + OnTopics(b.rows, batch, up))
  }

  /** The bus while the relay is part way through its topics. */
  ghost function Midway(b: Bus, relay: nat, batch: set<RowId>, done: set<Topic>, up: set<Topic>): Bus {
    var sent := OnTopics(b.rows, batch, done * up);
    b.(log := b.log + sent, ticks := map[relay := Tick(batch, sent, !(done <= up))])
  }

  lemma MidwayStarts(b: Bus, relay: nat, up: set<Topic>)
    requires b.ticks == map[]
    ensures Do(b, ClaimBatch(relay)) == Midway(b, relay, Oldest(Unpublished(b.rows), b.limit), {}, up)
  {
    assert Free(b) == Unpublished(b.rows);
    var batch := Oldest(Unpublished(b.rows), b.limit);
    assert OnTopics(b.rows, batch, {} * up) == {};
    assert b.log + OnTopics(b.rows, batch, {} * up) == b.log;
  }

  lemma MidwaySteps(b: Bus, relay: nat, batch: set<RowId>, done: set<Topic>, up: set<Topic>, t: Topic)
    ensures Do(Midway(b, relay, batch, done, up), PublishTopic(relay, t, t in up)) ==
      Midway(b, relay, batch, done + {t}, up)
  {
    var sent := OnTopics(b.rows, batch, done * up);
    var more := OnTopics(b.rows, batch, (done + {t}) * up);
    if t in up {
      assert more == sent + OnTopics(b.rows, batch, {t});
      assert b.log + more == b.log + sent + OnTopics(b.rows, batch, {t});
    } else {
      assert more == sent;
    }
  }

  lemma AllTopics(rows: Rows, batch: set<RowId>, up: set<Topic>)
    requires batch <= rows.Keys
    ensures OnTopics(rows, batch, TopicsOf(rows, batch) * up) == OnTopics(rows, batch, up)
    ensures TopicsOf(rows, batch) <= up ==> OnTopics(rows, batch, up) == batch
  {
  }

  lemma MidwayEnds(b: Bus, relay: nat, up: set<Topic>)
    requires b.ticks == map[]
    ensures var batch := Oldest(Unpublished(b.rows), b.limit);
      Do(Midway(b, relay, batch, TopicsOf(b.rows, batch), up), Commit(relay)) == TickOnce(b, up)
  {
    var batch := Oldest(Unpublished(b.rows), b.limit);
    AllTopics(b.rows, batch, up);
    assert Midway(b, relay, batch, TopicsOf(b.rows, batch), up).ticks - {relay} == map[];
  }

  /** Writing the remaining topics, in any order. */
  lemma {:induction false} TopicsAreRun(limit: nat, acts: seq<Act>, b: Bus, relay: nat, batch: set<RowId>,
      done: set<Topic>, left: set<Topic>, up: set<Topic>)
    returns (more: seq<Act>)
    requires DoAll(limit, acts) == Midway(b, relay, batch, done, up)
    ensures DoAll(limit, acts + more) == Midway(b, relay, batch, done + left, up)
    decreases left
  {
    hide Do, DoAll, Midway;
    if left == {} {
      more := [];
      assert acts + more == acts && done + left == done;
    } else {
      var t :| t in left;
      var a := PublishTopic(relay, t, t in up);
      MidwaySteps(b, relay, batch, done, up, t);
      Unfold(limit, acts, a);
      var rest := TopicsAreRun(limit, acts + [a], b, relay, batch, done + {t}, left - {t}, up);
      more := [a] + rest;
      assert acts + [a] + rest == acts + more && done + {t} + (left - {t}) == done + left;
    }
  }

  /** A tick is a run of protocol steps. */
  lemma TickIsRun(limit: nat, acts: seq<Act>, relay: nat, up: set<Topic>) returns (more: seq<Act>)
    requires DoAll(limit, acts).ticks == map[]
    ensures DoAll(limit, acts + more) == TickOnce(DoAll(limit, acts), up)
  {
    hide Do, DoAll, Midway, TickOnce;
    var b := DoAll(limit, acts);
    var batch := Oldest(Unpublished(b.rows), b.limit);
    MidwayStarts(b, relay, up);
    Unfold(limit, acts, ClaimBatch(relay));
    var begun := acts + [ClaimBatch(relay)];
    var rest := TopicsAreRun(limit, begun, b, relay, batch, {}, TopicsOf(b.rows, batch), up);
    assert {} + TopicsOf(b.rows, batch) == TopicsOf(b.rows, batch);
    Unfold(limit, begun + rest, Commit(relay));
    MidwayEnds(b, relay, up);
    more := [ClaimBatch(relay)] + rest + [Commit(relay)];
    assert acts + more == begun + rest + [Commit(relay)];
  }

  // ----- the relay's loops

  function RowSet(batch: seq<RowId>): set<RowId> {
    set i | i in batch
  }

  lemma RowSetAppends(a: seq<RowId>, b: seq<RowId>)
    ensures RowSet(a + b) == RowSet(a) + RowSet(b)
  {
  }

  lemma OneMoreRow(rows: Rows, batch: seq<RowId>, i: RowId, t: Topic)
    requires i in rows
    ensures OnTopics(rows, RowSet(batch + [i]), {t}) == OnTopics(rows, RowSet(batch), {t}) + if t == rows[i].topic
      then {i} else {}
  {
  }

  method GroupByTopic(rows: Rows, batch: seq<RowId>) returns (ids: map<Topic, seq<RowId>>)
    requires forall i :: i in batch ==> i in rows
    ensures ids.Keys == TopicsOf(rows, RowSet(batch))
    ensures forall t :: t in ids ==> RowSet(ids[t]) == OnTopics(rows, RowSet(batch), {t})
  {
    ids := map[];
    var k := 0;
    while k < |batch|
      invariant k <= |batch|
      invariant ids.Keys == TopicsOf(rows, RowSet(batch[..k]))
      invariant forall t :: t in ids ==> RowSet(ids[t]) == OnTopics(rows, RowSet(batch[..k]), {t})
    {
      var t := rows[batch[k]].topic;
      assert batch[..k + 1] == batch[..k] + [batch[k]];
      assert t !in ids ==> OnTopics(rows, RowSet(batch[..k]), {t}) == {} by {
        assert forall i :: i in RowSet(batch[..k]) && i in rows ==> rows[i].topic in TopicsOf(rows, RowSet(batch[..k]));
      }
      var was := if t in ids then ids[t] else [];
      RowSetAppends(was, [batch[k]]);
      forall q
        ensures OnTopics(rows, RowSet(batch[..k + 1]), {q}) ==
          OnTopics(rows, RowSet(batch[..k]), {q}) + if q == t then {batch[k]} else {}
      {
        OneMoreRow(rows, batch[..k], batch[k], q);
      }
      ids := ids[t := was + [batch[k]]];
      k := k + 1;
    }
    assert batch[..k] == batch;
  }

  lemma BatchIsStored(rows: Rows, batch: seq<RowId>, limit: nat)
    requires RowSet(batch) == Oldest(Unpublished(rows), limit)
    ensures forall i :: i in batch ==> i in rows
  {
    hide Oldest;
    assert RowSet(batch) <= Unpublished(rows);
    forall i | i in batch
      ensures i in rows
    {
      assert i in RowSet(batch);
    }
  }

  lemma NoTopics(rows: Rows, batch: set<RowId>, up: set<Topic>)
    ensures OnTopics(rows, batch, {} * up) == {}
  {
  }

  lemma OneMoreTopic(rows: Rows, batch: set<RowId>, done: set<Topic>, up: set<Topic>, t: Topic)
    ensures OnTopics(rows, batch, (done + {t}) * up) ==
      OnTopics(rows, batch, done * up) + if t in up then OnTopics(rows, batch, {t}) else {}
  {
  }

  /** The relay's own tables: the outbox, and the messages the broker has acknowledged. */
  class RelayStore {
    var rows: Rows
    var log: set<RowId>

    ghost function Quiet(limit: nat): Bus
      reads this
    {
      Bus(rows, log, map[], limit)
    }

    /**
     One tick over the batch the claim returned. The broker accepts the topics in `up`; they are written in no
     particular order. The whole batch is marked when every topic was accepted and nothing at all otherwise,
     although the accepted topics are out.
     */
    method Tick(batch: seq<RowId>, up: set<Topic>, ghost limit: nat) returns (ok: bool)
      requires RowSet(batch) == Oldest(Unpublished(rows), limit)
      modifies this
      ensures Quiet(limit) == TickOnce(old(Quiet(limit)), up)
      ensures ok <==> TopicsOf(old(rows), RowSet(batch)) <= up
      ensures rows == if ok then Mark(old(rows), RowSet(batch)) else old(rows)
    {
      hide OnTopics, Mark, Oldest;
      ghost var all := RowSet(batch);
      BatchIsStored(rows, batch, limit);
      var ids := GroupByTopic(rows, batch);
      var left, succeeded := ids.Keys, [];
      ghost var done: set<Topic> := {};
      ok := true;
      NoTopics(rows, all, up);
      while left != {}
        invariant left + done == ids.Keys && left !! done
        invariant rows == old(rows)
        invariant log == old(log) + OnTopics(rows, all, done * up)
        invariant RowSet(succeeded) == OnTopics(rows, all, done * up)
        invariant ok == (done <= up)
        decreases left
      {
        var t :| t in left;
        OneMoreTopic(rows, all, done, up, t);
        if t in up {
          log := log + RowSet(ids[t]);
          RowSetAppends(succeeded, ids[t]);
          succeeded := succeeded + ids[t];
        } else {
          ok := false;
        }
        done := done + {t};
        left := left - {t};
      }
      AllTopics(rows, all, up);
      assert done == ids.Keys;
      if ok { rows := Mark(rows, RowSet(succeeded)); }
    }
  }
}
