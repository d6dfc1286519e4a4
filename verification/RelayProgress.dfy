/** When a row of the outbox goes out, exactly: the round its age puts it in, and what a refused topic holds up. */
module RelayProgress {
  import opened Basics
  import opened OutboxRelay

  // ----- age

  /** How many of `ids` are older. */
  ghost function Rank(ids: set<RowId>, i: RowId): nat {
    |set j | j in ids && j < i|
  }

  lemma {:induction false} OldestByRank(ids: set<RowId>, limit: nat, i: RowId)
    requires i in ids
    ensures i in Oldest(ids, limit) <==> Rank(ids, i) < limit
    decreases limit
  {
    if limit > 0 {
      var x := Least(ids);
      if i == x {
        assert (set j | j in ids && j < i) == {};
      } else {
        RankWithout(ids, x, i);
        OldestByRank(ids - {x}, limit - 1, i);
      }
    }
  }

  lemma RankWithout(ids: set<RowId>, x: RowId, i: RowId)
    requires x in ids && x < i
    ensures Rank(ids, i) == Rank(ids - {x}, i) + 1
  {
    assert (set j | j in ids && j < i) == (set j | j in ids - {x} && j < i) + {x};
  }

  /** Taking the oldest away makes every other row `limit` places older. */
  lemma {:induction false} RankAfter(ids: set<RowId>, limit: nat, i: RowId)
    requires i in ids && i !in Oldest(ids, limit)
    ensures Rank(ids, i) == Rank(ids - Oldest(ids, limit), i) + limit
    decreases limit
  {
    if limit == 0 {
      assert ids - Oldest(ids, limit) == ids;
    } else {
      var x := Least(ids);
      RankWithout(ids, x, i);
      RankAfter(ids - {x}, limit - 1, i);
      assert ids - Oldest(ids, limit) == ids - {x} - Oldest(ids - {x}, limit - 1);
    }
  }

  /** The tick that reaches the row, counting from zero. */
  ghost function Round(b: Bus, i: RowId): nat
    requires b.limit > 0
  {
    Rank(Unpublished(b.rows), i) / b.limit
  }

  ghost function Batch(b: Bus): set<RowId> {
    Oldest(Unpublished(b.rows), b.limit)
  }

  lemma RoundZero(b: Bus, i: RowId)
    requires b.limit > 0 && i in Unpublished(b.rows)
    ensures i in Batch(b) <==> Round(b, i) == 0
  {
    OldestByRank(Unpublished(b.rows), b.limit, i);
    QuotientZero(Rank(Unpublished(b.rows), i), b.limit);
  }

  lemma QuotientZero(n: nat, d: nat)
    requires d > 0
    ensures n < d <==> n / d == 0
  {
  }

  lemma QuotientShift(n: nat, d: nat)
    requires d > 0
    ensures (n + d) / d == n / d + 1
  {
    var q, r := n / d, n % d;
    assert n == q * d + r && n + d == (q + 1) * d + r;
    var p := (n + d) / d;
    assert n + d == p * d + (n + d) % d;
    if p > q + 1 { Further(d, p - (q + 1)); }
    if p < q + 1 { Further(d, q + 1 - p); }
  }

  lemma Further(d: nat, k: nat)
    requires k >= 1
    ensures k * d >= d
  {
  }

  // ----- a tick with every topic of its batch accepted

  ghost predicate Clear(b: Bus, up: set<Topic>) {
    TopicsOf(b.rows, Batch(b)) <= up
  }

  lemma ClearTick(b: Bus, up: set<Topic>)
    requires Clear(b, up)
    ensures var b' := TickOnce(b, up);
      && Unpublished(b'.rows) == Unpublished(b.rows) - Batch(b)
      && b'.limit == b.limit && b'.rows.Keys == b.rows.Keys
      && (forall i :: i in b.rows ==> b'.rows[i].topic == b.rows[i].topic)
      && b'.log == b.log + Batch(b)
  {
    AllTopics(b.rows, Batch(b), up);
  }

  lemma RoundAfter(b: Bus, up: set<Topic>, i: RowId)
    requires b.limit > 0 && Clear(b, up) && i in Unpublished(b.rows) && i !in Batch(b)
    ensures Round(b, i) == Round(TickOnce(b, up), i) + 1
  {
    hide TickOnce, Rank, Oldest;
    ClearTick(b, up);
    RankAfter(Unpublished(b.rows), b.limit, i);
    QuotientShift(Rank(Unpublished(TickOnce(b, up).rows), i), b.limit);
  }

  // ----- a tick with a refused topic in its batch

  /** It marks nothing, and the next tick finds the same batch. */
  lemma BlockedTick(b: Bus, up: set<Topic>)
    requires !Clear(b, up)
    ensures var b' := TickOnce(b, up);
      b'.rows == b.rows && b'.limit == b.limit && TickOnce(b', up) == b' && !Clear(b', up)
  {
    var b' := TickOnce(b, up);
    assert b'.log + OnTopics(b'.rows, Batch(b), up) == b'.log;
  }

  // ----- any number of ticks against a broker that accepts `up`

  ghost function Ticks(b: Bus, up: set<Topic>, n: nat): Bus
    decreases n
  {
    if n == 0 then b else Ticks(TickOnce(b, up), up, n - 1)
  }

  lemma {:induction false} BlockedTicks(b: Bus, up: set<Topic>, n: nat)
    requires !Clear(b, up) && n > 0
    ensures Ticks(b, up, n) == TickOnce(b, up)
    decreases n
  {
    hide TickOnce, Clear;
    BlockedTick(b, up);
    if n > 1 { BlockedTicks(TickOnce(b, up), up, n - 1); }
  }

  lemma {:induction false} TicksGrow(b: Bus, up: set<Topic>, n: nat)
    ensures Grows(b, Ticks(b, up, n))
    decreases n
  {
    if n > 0 { TicksGrow(TickOnce(b, up), up, n - 1); }
  }

  /** Every row that goes out no later than `i` does is of an accepted topic. */
  ghost predicate Through(b: Bus, up: set<Topic>, i: RowId)
    requires b.limit > 0
  {
    forall j :: j in Unpublished(b.rows) && Round(b, j) <= Round(b, i) ==> b.rows[j].topic in up
  }

  /** Every row of an earlier round is of an accepted topic, and so is `i` itself. */
  ghost predicate Reached(b: Bus, up: set<Topic>, i: RowId)
    requires b.limit > 0
  {
    && i in b.rows && b.rows[i].topic in up
    && forall j :: j in Unpublished(b.rows) && Round(b, j) < Round(b, i) ==> b.rows[j].topic in up
  }

  lemma ClearMeans(b: Bus, up: set<Topic>)
    requires b.limit > 0
    ensures Clear(b, up) <==> forall j :: j in Unpublished(b.rows) && Round(b, j) == 0 ==> b.rows[j].topic in up
  {
    hide Round, Oldest;
    forall j | j in Unpublished(b.rows)
      ensures j in Batch(b) <==> Round(b, j) == 0
    {
      RoundZero(b, j);
    }
    if !Clear(b, up) {
      var t :| t in TopicsOf(b.rows, Batch(b)) && t !in up;
      var j :| j in Batch(b) && j in b.rows && b.rows[j].topic == t;
    } else {
      forall j | j in Unpublished(b.rows) && Round(b, j) == 0
        ensures b.rows[j].topic in up
      {
        assert b.rows[j].topic in TopicsOf(b.rows, Batch(b));
      }
    }
  }

  /** Rounds and conditions one clear tick later. */
  lemma ThroughAfter(b: Bus, up: set<Topic>, i: RowId)
    requires b.limit > 0 && Clear(b, up) && i in Unpublished(b.rows) && i !in Batch(b)
    ensures var b' := TickOnce(b, up);
      i in Unpublished(b'.rows) && (Through(b', up, i) <==> Through(b, up, i)) &&
        (Reached(b', up, i) <==> Reached(b, up, i))
  {
    hide TickOnce, Round, Clear, Oldest, Batch;
    var b' := TickOnce(b, up);
    ClearFacts(b, up);
    RoundAfter(b, up, i);
    forall j | j in Unpublished(b.rows)
      ensures j in Batch(b) ==> b.rows[j].topic in up
      ensures j !in Batch(b) ==>
        j in Unpublished(b'.rows) && Round(b, j) == Round(b', j) + 1 && b'.rows[j].topic == b.rows[j].topic
    {
      if j !in Batch(b) { RoundAfter(b, up, j); }
    }
  }

  lemma ClearFacts(b: Bus, up: set<Topic>)
    requires b.limit > 0 && Clear(b, up)
    ensures var b' := TickOnce(b, up);
      && b'.limit == b.limit && Unpublished(b'.rows) == Unpublished(b.rows) - Batch(b) && b'.rows.Keys == b.rows.Keys
      && (forall j :: j in b.rows ==> b'.rows[j].topic == b.rows[j].topic)
      && (forall j :: j in Batch(b) ==>
            j in Unpublished(b.rows) && b.rows[j].topic in up && j in b'.log && j !in Unpublished(b'.rows))
      && b'.log == b.log + Batch(b)
  {
    ClearTick(b, up);
    assert forall j :: j in Batch(b) ==> j in b.rows && b.rows[j].topic in TopicsOf(b.rows, Batch(b));
  }

  /** After `n` ticks a row is marked if and only if its round has come and no row up to that round was refused. */
  lemma {:induction false} MarkedAfterIff(b: Bus, up: set<Topic>, i: RowId, n: nat)
    requires b.limit > 0 && i in Unpublished(b.rows)
    ensures i in Ticks(b, up, n).rows
    ensures Ticks(b, up, n).rows[i].published <==> Round(b, i) < n && Through(b, up, i)
    decreases n
  {
    hide TickOnce, Round, Through, Clear, Batch;
    if n > 0 {
      var b' := TickOnce(b, up);
      if !Clear(b, up) {
        BlockedTick(b, up);
        BlockedTicks(b, up, n);
        BlockedIsNotThrough(b, up, i);
      } else {
        ClearFacts(b, up);
        RoundZero(b, i);
        if i in Batch(b) {
          TicksGrow(b', up, n - 1);
          BatchIsThrough(b, up, i);
        } else {
          ThroughAfter(b, up, i);
          RoundAfter(b, up, i);
          MarkedAfterIff(b', up, i, n - 1);
        }
      }
    }
  }

  lemma BlockedIsNotThrough(b: Bus, up: set<Topic>, i: RowId)
    requires b.limit > 0 && !Clear(b, up)
    ensures !Through(b, up, i)
  {
    hide Round, Clear;
    ClearMeans(b, up);
  }

  lemma BatchIsThrough(b: Bus, up: set<Topic>, i: RowId)
    requires b.limit > 0 && Clear(b, up) && i in Batch(b)
    ensures Through(b, up, i)
  {
    hide Round, Clear;
    RoundZero(b, i);
    ClearMeans(b, up);
  }

  /**
   After `n` ticks its message is on the topic if and only if it was, or its round has come and no earlier one was
   refused.
   */
  lemma {:induction false} OutAfterIff(b: Bus, up: set<Topic>, i: RowId, n: nat)
    requires b.limit > 0 && i in Unpublished(b.rows)
    ensures i in Ticks(b, up, n).log <==> i in b.log || (Round(b, i) < n && Reached(b, up, i))
    decreases n
  {
    hide TickOnce, Round, Reached, Clear, Batch;
    if n > 0 {
      var b' := TickOnce(b, up);
      RoundZero(b, i);
      if !Clear(b, up) {
        BlockedTicks(b, up, n);
        BlockedReaches(b, up, i);
      } else {
        ClearFacts(b, up);
        if i in Batch(b) {
          TicksGrow(b', up, n - 1);
          BatchIsReached(b, up, i);
        } else {
          ThroughAfter(b, up, i);
          RoundAfter(b, up, i);
          OutAfterIff(b', up, i, n - 1);
        }
      }
    }
  }

  lemma BatchIsReached(b: Bus, up: set<Topic>, i: RowId)
    requires b.limit > 0 && Clear(b, up) && i in Batch(b)
    ensures Reached(b, up, i)
  {
    hide Round, Clear;
    RoundZero(b, i);
    ClearMeans(b, up);
  }

  /** A blocked tick still puts out the accepted rows of its own batch, and only those. */
  lemma BlockedReaches(b: Bus, up: set<Topic>, i: RowId)
    requires b.limit > 0 && !Clear(b, up) && i in Unpublished(b.rows)
    ensures i in TickOnce(b, up).log <==> i in b.log || (Round(b, i) == 0 && Reached(b, up, i))
    ensures Round(b, i) > 0 ==> !Reached(b, up, i)
  {
    hide Round, Clear;
    RoundZero(b, i);
    ClearMeans(b, up);
  }

  /** With every topic accepted, a row is marked after exactly the ticks its age asks for. */
  lemma GoesOutInTurn(b: Bus, up: set<Topic>, i: RowId, n: nat)
    requires b.limit > 0 && i in Unpublished(b.rows) && TopicsOf(b.rows, Unpublished(b.rows)) <= up
    ensures i in Ticks(b, up, n).rows &&
      (Ticks(b, up, n).rows[i].published <==> Rank(Unpublished(b.rows), i) / b.limit < n)
  {
    hide Ticks;
    MarkedAfterIff(b, up, i, n);
    assert forall j :: j in Unpublished(b.rows) ==> b.rows[j].topic in TopicsOf(b.rows, Unpublished(b.rows));
  }

  /** One refused row holds up every later round for as long as its topic is refused, whatever their topics. */
  lemma RefusedTopicBlocks(b: Bus, up: set<Topic>, refused: RowId, i: RowId, n: nat)
    requires b.limit > 0 && i in Unpublished(b.rows) && refused in Unpublished(b.rows)
    requires b.rows[refused].topic !in up && Round(b, refused) < Round(b, i)
    ensures i in Unpublished(Ticks(b, up, n).rows) && (i in Ticks(b, up, n).log ==> i in b.log)
  {
    hide Ticks, Round;
    MarkedAfterIff(b, up, i, n);
    OutAfterIff(b, up, i, n);
    TicksGrow(b, up, n);
  }

  // ----- from any history

  lemma CrashOne(limit: nat, acts: seq<Act>, r: nat)
    ensures DoAll(limit, acts + [CrashRelay(r)]) == DoAll(limit, acts).(ticks := DoAll(limit, acts).ticks - {r})
  {
    Unfold(limit, acts, CrashRelay(r));
  }

  lemma {:induction false} CrashAll(limit: nat, acts: seq<Act>, running: set<nat>) returns (more: seq<Act>)
    requires DoAll(limit, acts).ticks.Keys == running
    ensures DoAll(limit, acts + more) == DoAll(limit, acts).(ticks := map[])
    decreases running
  {
    hide DoAll;
    if running == {} {
      more := [];
      assert acts + more == acts;
    } else {
      var r :| r in running;
      CrashOne(limit, acts, r);
      var rest := CrashAll(limit, acts + [CrashRelay(r)], running - {r});
      more := [CrashRelay(r)] + rest;
      assert acts + [CrashRelay(r)] + rest == acts + more;
    }
  }

  lemma {:induction false} TicksAreRun(limit: nat, acts: seq<Act>, up: set<Topic>, n: nat) returns (more: seq<Act>)
    requires DoAll(limit, acts).ticks == map[]
    ensures DoAll(limit, acts + more) == Ticks(DoAll(limit, acts), up, n)
    decreases n
  {
    hide DoAll;
    if n == 0 {
      more := [];
      assert acts + more == acts;
    } else {
      var first := TickIsRun(limit, acts, 0, up);
      var rest := TicksAreRun(limit, acts + first, up, n - 1);
      more := first + rest;
      assert acts + first + rest == acts + more;
    }
  }

  lemma {:induction false} LimitStays(limit: nat, acts: seq<Act>)
    ensures DoAll(limit, acts).limit == limit
    decreases |acts|
  {
    if acts != [] { LimitStays(limit, acts[..|acts| - 1]); }
  }

  /**
   No committed row is lost: whatever relays did and wherever they crashed, once the broker accepts again it goes out.
   */
  lemma EveryRowGetsOut(limit: nat, acts: seq<Act>, id: RowId) returns (more: seq<Act>)
    requires limit > 0 && id in DoAll(limit, acts).rows
    ensures var b := DoAll(limit, acts + more); id in b.rows && b.rows[id].published && id in b.log
  {
    hide DoAll, Ticks;
    var crash := CrashAll(limit, acts, DoAll(limit, acts).ticks.Keys);
    var b := DoAll(limit, acts + crash);
    LimitStays(limit, acts + crash);
    more := crash;
    if !b.rows[id].published {
      var up := TopicsOf(b.rows, Unpublished(b.rows));
      var n := Rank(Unpublished(b.rows), id) / b.limit + 1;
      GoesOutInTurn(b, up, id, n);
      var ticks := TicksAreRun(limit, acts + crash, up, n);
      more := crash + ticks;
      assert acts + crash + ticks == acts + more;
    }
    PublishedMeansOnTopic(limit, acts + more);
  }
}
