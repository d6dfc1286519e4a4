/**
 Row locks of concurrent inventory transactions, statement by statement, held to the end of the transaction.
 Reserve, Release and Commit lock their reservation row, then the order key when they insert one, then their
 SKUs in ascending order. The TTL sweep claims free reservation rows without waiting, then walks their lines
 one reservation after the other.
 */
module LockOrder {
  import opened Basics
  import opened Inventory

  datatype Lock = RowLock(rid: Rid) | OrderKey(oid: Oid) | SkuLock(sku: Sku)

  function Rank(l: Lock): nat {
    match l case RowLock(_) => 0 case OrderKey(_) => 1 case SkuLock(_) => 2
  }

  function Index(l: Lock): nat {
    match l case RowLock(r) => r case OrderKey(o) => o case SkuLock(s) => s
  }

  predicate Before(a: Lock, b: Lock) {
    Rank(a) < Rank(b) || (Rank(a) == Rank(b) && Index(a) < Index(b))
  }

  ghost predicate AscendingPlan(plan: seq<Lock>) {
    forall i, j :: 0 <= i < j < |plan| ==> Before(plan[i], plan[j])
  }

  /** What a transaction sets out to do; `skus` are the lines of the reservation. */
  datatype Request =
    | ForReserve(rid: Rid, oid: Oid, skus: set<Sku>)
    | ForFailure(rid: Rid, oid: Oid)
    | ForRelease(rid: Rid, skus: set<Sku>)
    | ForTombstone(rid: Rid, oid: Oid)
    | ForCommit(rid: Rid, skus: set<Sku>)
    | ForAdjust(sku: Sku)

  function SkuLocks(lines: seq<Sku>): seq<Lock> {
    seq(|lines|, i requires 0 <= i < |lines| => SkuLock(lines[i]))
  }

  /** The locks in the order the statements ask for them. */
  function Plan(req: Request): seq<Lock> {
    match req
    case ForReserve(rid, oid, skus) => [RowLock(rid), OrderKey(oid)] + SkuLocks(Ascending(skus))
    case ForFailure(rid, oid) => [RowLock(rid), OrderKey(oid)]
    case ForRelease(rid, skus) => [RowLock(rid)] + SkuLocks(Ascending(skus))
    case ForTombstone(rid, oid) => [RowLock(rid), OrderKey(oid)]
    case ForCommit(rid, skus) => [RowLock(rid)] + SkuLocks(Ascending(skus))
    case ForAdjust(sku) => [SkuLock(sku)]
  }

  lemma PlansAscend(req: Request)
    ensures AscendingPlan(Plan(req))
  {
  }

  /** A transaction holds plan[..got] and, if more is left, asks for plan[got] next. */
  datatype Txn = Txn(plan: seq<Lock>, got: nat)

  type TxnId = nat

  type System = map<TxnId, Txn>

  ghost predicate Holds(sys: System, u: TxnId, l: Lock) {
    u in sys && exists i :: 0 <= i < sys[u].got && i < |sys[u].plan| && sys[u].plan[i] == l
  }

  predicate Wants(sys: System, t: TxnId) {
    t in sys && sys[t].got < |sys[t].plan|
  }

  function NextLock(sys: System, t: TxnId): Lock
    requires Wants(sys, t)
  {
    sys[t].plan[sys[t].got]
  }

  ghost predicate Waits(sys: System, t: TxnId, u: TxnId) {
    t != u && Wants(sys, t) && Holds(sys, u, NextLock(sys, t))
  }

  ghost predicate Blocked(sys: System, t: TxnId) {
    exists u :: Waits(sys, t, u)
  }

  ghost predicate WaitCycle(sys: System, ts: seq<TxnId>) {
    ts != [] && forall i :: 0 <= i < |ts| ==> Waits(sys, ts[i], ts[if i + 1 == |ts| then 0 else i + 1])
  }

  /** The lines a sweep walks: those of each reservation in ascending order, one reservation after the other. */
  function Walk(batch: seq<set<Sku>>): seq<Sku> {
    if batch == [] then [] else Walk(batch[..|batch| - 1]) + Ascending(batch[|batch| - 1])
  }

  /** Lines without repetitions: a row the sweep holds already is no lock to wait for. */
  function Firsts(lines: seq<Sku>): seq<Sku> {
    if lines == [] then []
    else
      var front, last := Firsts(lines[..|lines| - 1]), lines[|lines| - 1];
      if last in front then front else front + [last]
  }

  function RowLocks(rids: seq<Rid>): seq<Lock> {
    seq(|rids|, i requires 0 <= i < |rids| => RowLock(rids[i]))
  }

  function SweepPlan(rids: seq<Rid>, batch: seq<set<Sku>>): seq<Lock> {
    RowLocks(rids) + SkuLocks(Firsts(Walk(batch)))
  }

  datatype Act =
    | Begin(t: TxnId, req: Request)
    | BeginSweep(t: TxnId, rids: seq<Rid>, batch: seq<set<Sku>>)
    | Take(t: TxnId)
    | End(t: TxnId)

  /** FOR UPDATE SKIP LOCKED returns rows that nobody holds. */
  ghost predicate FreeRows(sys: System, rids: seq<Rid>) {
    forall r, u :: r in rids ==> !Holds(sys, u, RowLock(r))
  }

  ghost function Do(sys: System, a: Act): System {
    match a
    case Begin(t, req) => if t in sys then sys else sys[t := Txn(Plan(req), 0)]
    case BeginSweep(t, rids, batch) =>
      if t in sys || |rids| != |batch| || !FreeRows(sys, rids) then sys
        else sys[t := Txn(SweepPlan(rids, batch), |rids|)]
    case Take(t) => if Wants(sys, t) && !Blocked(sys, t) then sys[t := sys[t].(got := sys[t].got + 1)] else sys
    case End(t) => sys - {t}
  }

  ghost function DoAll(acts: seq<Act>): System {
    if acts == [] then map[] else Do(DoAll(acts[..|acts| - 1]), acts[|acts| - 1])
  }

  /** What is still to be asked for comes after everything before it. */
  ghost predicate Climbing(x: Txn) {
    x.got <= |x.plan| && forall i, j :: 0 <= i < j < |x.plan| && x.got <= j ==> Before(x.plan[i], x.plan[j])
  }

  ghost predicate Disciplined(sys: System) {
    forall t :: t in sys ==> Climbing(sys[t])
  }

  /** The reservations of the batch come in such an order that their SKUs climb. */
  ghost predicate TidyBatch(batch: seq<set<Sku>>) {
    Ordered(Firsts(Walk(batch)))
  }

  ghost predicate Tidy(a: Act) {
    a.BeginSweep? ==> TidyBatch(a.batch)
  }

  lemma SweepClimbs(rids: seq<Rid>, batch: seq<set<Sku>>)
    requires TidyBatch(batch)
    ensures Climbing(Txn(SweepPlan(rids, batch), |rids|))
  {
    var plan, lines := SweepPlan(rids, batch), Walk(batch);
    forall i, j | 0 <= i < j < |plan| && |rids| <= j
      ensures Before(plan[i], plan[j])
    {
      assert plan[j] == SkuLock(Firsts(lines)[j - |rids|]);
      if i >= |rids| { assert plan[i] == SkuLock(Firsts(lines)[i - |rids|]); }
    }
  }

  lemma SweepIsExclusive(sys: System, t: TxnId, rids: seq<Rid>, batch: seq<set<Sku>>)
    requires Exclusive(sys) && t !in sys && FreeRows(sys, rids)
    ensures Exclusive(sys[t := Txn(SweepPlan(rids, batch), |rids|)])
  {
    var sys' := sys[t := Txn(SweepPlan(rids, batch), |rids|)];
    forall u, l | Holds(sys', u, l)
      ensures if u == t then forall v :: !Holds(sys, v, l) else Holds(sys, u, l)
    {
      var i :| 0 <= i < sys'[u].got && i < |sys'[u].plan| && sys'[u].plan[i] == l;
      if u == t { assert l == RowLock(rids[i]) && rids[i] in rids; }
    }
    forall u, v, l | Holds(sys', u, l) && Holds(sys', v, l)
      ensures u == v
    {
    }
  }

  /** A row lock has one holder. */
  ghost predicate Exclusive(sys: System) {
    forall t, u, l :: Holds(sys, t, l) && Holds(sys, u, l) ==> t == u
  }

  lemma TakeIsExclusive(sys: System, t: TxnId)
    requires Exclusive(sys) && Wants(sys, t) && !Blocked(sys, t)
    ensures Exclusive(sys[t := sys[t].(got := sys[t].got + 1)])
  {
    var sys' := sys[t := sys[t].(got := sys[t].got + 1)];
    forall u, l | Holds(sys', u, l)
      ensures Holds(sys, u, l) || (u == t && l == NextLock(sys, t))
    {
      var i :| 0 <= i < sys'[u].got && i < |sys'[u].plan| && sys'[u].plan[i] == l;
      if u == t && i == sys[t].got { } else { assert 0 <= i < sys[u].got && sys[u].plan[i] == l; }
    }
    forall u, v, l | Holds(sys', u, l) && Holds(sys', v, l)
      ensures u == v
    {
      assert !Waits(sys, t, u) && !Waits(sys, t, v);
    }
  }

  lemma {:induction false} DoAllDisciplined(acts: seq<Act>)
    requires forall a :: a in acts ==> Tidy(a)
    ensures Disciplined(DoAll(acts)) && Exclusive(DoAll(acts))
    decreases |acts|
  {
    if acts != [] {
      var sys, a := DoAll(acts[..|acts| - 1]), acts[|acts| - 1];
      assert a in acts;
      DoAllDisciplined(acts[..|acts| - 1]);
      match a
      case BeginSweep(t, rids, batch) =>
        if t !in sys && |rids| == |batch| && FreeRows(sys, rids) {
          SweepClimbs(rids, batch);
          SweepIsExclusive(sys, t, rids, batch);
        }
      case Begin(t, req) =>
        PlansAscend(req);
        assert forall u, l :: Holds(Do(sys, a), u, l) ==> Holds(sys, u, l);
      case Take(t) =>
        if Wants(sys, t) && !Blocked(sys, t) { TakeIsExclusive(sys, t); }
      case End(t) =>
        assert forall u, l :: Holds(Do(sys, a), u, l) ==> Holds(sys, u, l);
    }
  }

  /** Whoever is waited for asks for something later. */
  lemma WaitingClimbs(sys: System, t: TxnId, u: TxnId)
    requires Disciplined(sys) && Waits(sys, t, u) && Wants(sys, u)
    ensures Before(NextLock(sys, t), NextLock(sys, u))
  {
    var i :| 0 <= i < sys[u].got && i < |sys[u].plan| && sys[u].plan[i] == NextLock(sys, t);
  }

  lemma {:induction false} CycleClimbs(sys: System, ts: seq<TxnId>, i: nat)
    requires Disciplined(sys) && WaitCycle(sys, ts) && 0 < i < |ts|
    ensures Wants(sys, ts[0]) && Wants(sys, ts[i]) && Before(NextLock(sys, ts[0]), NextLock(sys, ts[i]))
    decreases i
  {
    assert Waits(sys, ts[0], ts[if 1 == |ts| then 0 else 1]);
    assert Waits(sys, ts[i], ts[if i + 1 == |ts| then 0 else i + 1]);
    assert Waits(sys, ts[i - 1], ts[i]);
    WaitingClimbs(sys, ts[i - 1], ts[i]);
    if i > 1 { CycleClimbs(sys, ts, i - 1); }
  }

  /** Any number of interleaved transactions, with no sweeps or tidy ones: no set of them ever waits in a circle. */
  lemma NoWaitCycle(acts: seq<Act>, ts: seq<TxnId>)
    requires forall a :: a in acts ==> Tidy(a)
    ensures !WaitCycle(DoAll(acts), ts)
  {
    var sys := DoAll(acts);
    DoAllDisciplined(acts);
    if WaitCycle(sys, ts) {
      var n := |ts| - 1;
      assert Waits(sys, ts[n], ts[if n + 1 == |ts| then 0 else n + 1]);
      if n > 0 {
        CycleClimbs(sys, ts, n);
        WaitingClimbs(sys, ts[n], ts[0]);
      }
    }
  }

  lemma LatestWaiter(sys: System, left: set<TxnId>) returns (t: TxnId)
    requires left != {} && forall u :: u in left ==> Wants(sys, u)
    ensures t in left && forall u :: u in left ==> !Before(NextLock(sys, t), NextLock(sys, u))
    decreases |left|
  {
    t :| t in left;
    if left != {t} {
      var rest := left - {t};
      var v := LatestWaiter(sys, rest);
      assert forall u :: u in left ==> u == t || u in rest;
      if !Before(NextLock(sys, v), NextLock(sys, t)) { t := v; }
    }
  }

  /** As long as transactions are running, one of them can take its next lock or end. */
  lemma SomeoneCanGo(acts: seq<Act>) returns (t: TxnId)
    requires DoAll(acts) != map[] && forall a :: a in acts ==> Tidy(a)
    ensures t in DoAll(acts) && !Blocked(DoAll(acts), t)
  {
    var sys := DoAll(acts);
    DoAllDisciplined(acts);
    if u :| u in sys && !Wants(sys, u) {
      t := u;
    } else {
      t := LatestWaiter(sys, sys.Keys);
      forall u
        ensures !Waits(sys, t, u)
      {
        if Waits(sys, t, u) { WaitingClimbs(sys, t, u); }
      }
    }
  }

  // ----- an untidy sweep can deadlock

  lemma {:induction false} FirstsDistinct(lines: seq<Sku>, i: nat, j: nat)
    requires i < j < |Firsts(lines)|
    ensures Firsts(lines)[i] != Firsts(lines)[j]
    decreases |lines|
  {
    var front := Firsts(lines[..|lines| - 1]);
    if j < |front| { FirstsDistinct(lines[..|lines| - 1], i, j); }
  }

  lemma {:induction false} StepwiseOrdered(f: seq<Sku>)
    requires forall j :: 0 < j < |f| ==> f[j - 1] < f[j]
    ensures Ordered(f)
    decreases |f|
  {
    if f != [] {
      var n := |f| - 1;
      StepwiseOrdered(f[..n]);
      forall i | 0 <= i < n
        ensures f[i] < f[n]
      {
        assert f[n - 1] < f[n];
        if i < n - 1 { assert f[..n][i] < f[..n][n - 1]; }
      }
    }
  }

  lemma DescentExists(f: seq<Sku>) returns (j: nat)
    requires !Ordered(f)
    ensures 0 < j < |f| && f[j] <= f[j - 1]
  {
    if forall k :: 0 < k < |f| ==> f[k - 1] < f[k] { StepwiseOrdered(f); }
    j :| 0 < j < |f| && f[j] <= f[j - 1];
  }

  lemma TwoAscending(a: Sku, b: Sku)
    requires b < a
    ensures Ascending({a, b}) == [b, a]
  {
    assert Least({a, b}) == b;
    assert {a, b} - {b} == {a};
    assert Least({a}) == a;
    assert {a} - {a} == {};
    assert Ascending({a}) == [a];
  }

  lemma Next(acts: seq<Act>, a: Act)
    ensures DoAll(acts + [a]) == Do(DoAll(acts), a)
  {
    assert (acts + [a])[..|acts|] == acts;
  }

  /** A Reserve of both SKUs that has the lower one and waits for the higher. */
  function Halfway(a: Sku, b: Sku): Txn {
    Txn([RowLock(0), OrderKey(0), SkuLock(b), SkuLock(a)], 3)
  }

  lemma HalfwayReached(a: Sku, b: Sku) returns (acts: seq<Act>)
    requires b < a
    ensures DoAll(acts) == map[0 := Halfway(a, b)] && forall x :: x in acts ==> !x.BeginSweep?
  {
    TwoAscending(a, b);
    var plan := Halfway(a, b).plan;
    var req := ForReserve(0, 0, {a, b});
    assert Plan(req) == plan;
    acts := [Begin(0, req)];
    Next([], Begin(0, req));
    assert [] + [Begin(0, req)] == acts;
    assert DoAll([]) == map[];
    assert DoAll(acts) == map[0 := Txn(plan, 0)];
    for i := 0 to 3
      invariant DoAll(acts) == map[0 := Txn(plan, i)]
      invariant forall x :: x in acts ==> !x.BeginSweep?
    {
      Next(acts, Take(0));
      assert !Blocked(DoAll(acts), 0);
      acts := acts + [Take(0)];
    }
  }

  /** A Reserve halfway and a sweep of `batch` that has taken `k` lines. */
  function Facing(a: Sku, b: Sku, rids: seq<Rid>, batch: seq<set<Sku>>, k: nat): System {
    map[0 := Halfway(a, b), 1 := Txn(SweepPlan(rids, batch), |rids| + k)]
  }

  lemma SweepTakes(acts: seq<Act>, a: Sku, b: Sku, rids: seq<Rid>, batch: seq<set<Sku>>, k: nat)
    requires DoAll(acts) == Facing(a, b, rids, batch, k) && k < |Firsts(Walk(batch))| && Firsts(Walk(batch))[k] != b
    ensures DoAll(acts + [Take(1)]) == Facing(a, b, rids, batch, k + 1)
  {
    hide DoAll;
    var sys := DoAll(acts);
    Next(acts, Take(1));
    assert NextLock(sys, 1) == SkuLock(Firsts(Walk(batch))[k]);
    HalfwayHolds(sys, a, b, NextLock(sys, 1));
    assert !Blocked(sys, 1);
  }

  lemma FacingWaits(a: Sku, b: Sku, rids: seq<Rid>, batch: seq<set<Sku>>, j: nat)
    requires 0 < j < |Firsts(Walk(batch))| && Firsts(Walk(batch))[j - 1] == a && Firsts(Walk(batch))[j] == b
    ensures WaitCycle(Facing(a, b, rids, batch, j), [0, 1])
  {
    var sys := Facing(a, b, rids, batch, j);
    assert sys[1].plan[|rids| + j - 1] == SkuLock(a) && NextLock(sys, 1) == SkuLock(b);
    assert sys[0].plan[2] == SkuLock(b) && NextLock(sys, 0) == SkuLock(a);
    assert Waits(sys, 0, 1) && Waits(sys, 1, 0);
  }

  lemma SweepBegins(acts: seq<Act>, a: Sku, b: Sku, rids: seq<Rid>, batch: seq<set<Sku>>)
    requires DoAll(acts) == map[0 := Halfway(a, b)] && |rids| == |batch| && 0 !in rids
    ensures DoAll(acts + [BeginSweep(1, rids, batch)]) == Facing(a, b, rids, batch, 0)
  {
    hide DoAll;
    Next(acts, BeginSweep(1, rids, batch));
    assert FreeRows(DoAll(acts), rids);
  }

  /** The sweep takes its lines up to the descent, and each waits for the other. */
  lemma UntidyDeadlocks(batch: seq<set<Sku>>) returns (acts: seq<Act>)
    requires !TidyBatch(batch)
    ensures forall x :: x in acts && x.BeginSweep? ==> x.batch == batch
    ensures WaitCycle(DoAll(acts), [0, 1])
  {
    hide DoAll, WaitCycle, Facing, Firsts, Walk;
    var f, n := Firsts(Walk(batch)), |batch|;
    var j := DescentExists(f);
    FirstsDistinct(Walk(batch), j - 1, j);
    var a, b := f[j - 1], f[j];
    acts := HalfwayReached(a, b);
    var rids := seq(n, i requires 0 <= i < n => i + 1);
    SweepBegins(acts, a, b, rids, batch);
    acts := acts + [BeginSweep(1, rids, batch)];
    for k := 0 to j
      invariant DoAll(acts) == Facing(a, b, rids, batch, k)
      invariant forall x :: x in acts && x.BeginSweep? ==> x.batch == batch
    {
      FirstsDistinct(Walk(batch), k, j);
      SweepTakes(acts, a, b, rids, batch, k);
      acts := acts + [Take(1)];
    }
    FacingWaits(a, b, rids, batch, j);
  }

  lemma HalfwayHolds(sys: System, a: Sku, b: Sku, l: Lock)
    requires 0 in sys && sys[0] == Halfway(a, b) && l.SkuLock? && l.sku != b
    ensures !Holds(sys, 0, l)
  {
  }

  /** Runs whose sweeps claim this batch are free of wait cycles if and only if its lines, repetitions aside, climb. */
  lemma SweepSafeIff(batch: seq<set<Sku>>)
    ensures (forall acts: seq<Act>, ts: seq<TxnId> ::
               (forall x :: x in acts && x.BeginSweep? ==> x.batch == batch) ==> !WaitCycle(DoAll(acts), ts))
      <==> TidyBatch(batch)
  {
    hide DoAll, WaitCycle, TidyBatch;
    if TidyBatch(batch) {
      forall acts: seq<Act>, ts: seq<TxnId> | forall x :: x in acts && x.BeginSweep? ==> x.batch == batch
        ensures !WaitCycle(DoAll(acts), ts)
      {
        NoWaitCycle(acts, ts);
      }
    } else {
      var acts := UntidyDeadlocks(batch);
      assert WaitCycle(DoAll(acts), [0, 1]);
    }
  }

  lemma {:induction false} FirstsOfOrdered(lines: seq<Sku>)
    requires Ordered(lines)
    ensures Firsts(lines) == lines
    decreases |lines|
  {
    if lines != [] {
      var n := |lines| - 1;
      FirstsOfOrdered(lines[..n]);
      assert lines == lines[..n] + [lines[n]];
    }
  }

  /** A sweep of one reservation is always tidy; the smallest untidy batch has two. */
  lemma OneReservationIsTidy(items: set<Sku>)
    ensures TidyBatch([items])
  {
    assert [items][..0] == [];
    assert Walk([items]) == Ascending(items);
    FirstsOfOrdered(Ascending(items));
  }

  /** Two reservations are tidy together exactly when no new SKU of the second is below one of the first. */
  lemma TwoReservationsTidyIff(first: set<Sku>, second: set<Sku>)
    ensures TidyBatch([first, second]) <==> forall a, b :: a in first && b in second && b !in first ==> a < b
  {
    hide Ordered, Walk, Firsts, Without;
    var x, y := Ascending(first), Ascending(second);
    TwoWalk(first, second);
    FirstsAppends(x, y);
    WithoutKeeps(y, x);
    ConcatOrderedIff(x, Without(y, x));
  }

  lemma TwoWalk(first: set<Sku>, second: set<Sku>)
    ensures Walk([first, second]) == Ascending(first) + Ascending(second)
  {
    assert [first, second][..1] == [first] && [first][..0] == [];
    assert Walk([first]) == Ascending(first);
  }

  lemma ConcatOrderedIff(x: seq<Sku>, y: seq<Sku>)
    requires Ordered(x) && Ordered(y)
    ensures Ordered(x + y) <==> forall a, b :: a in x && b in y ==> a < b
  {
    if Ordered(x + y) {
      forall a, b | a in x && b in y
        ensures a < b
      {
        var i :| 0 <= i < |x| && x[i] == a;
        var j :| 0 <= j < |y| && y[j] == b;
        assert (x + y)[i] == a && (x + y)[|x| + j] == b;
      }
    } else if forall a, b :: a in x && b in y ==> a < b {
      forall i, j | 0 <= i < j < |x + y|
        ensures (x + y)[i] < (x + y)[j]
      {
        if i < |x| <= j { assert x[i] in x && y[j - |x|] in y; }
      }
    }
  }

  function Without(lines: seq<Sku>, others: seq<Sku>): seq<Sku> {
    if lines == [] then []
    else
      var front, last := Without(lines[..|lines| - 1], others), lines[|lines| - 1];
      if last in others then front else front + [last]
  }

  lemma {:induction false} WithoutKeeps(lines: seq<Sku>, others: seq<Sku>)
    requires Ordered(lines)
    ensures Ordered(Without(lines, others))
    ensures forall s :: s in Without(lines, others) <==> s in lines && s !in others
    decreases |lines|
  {
    if lines != [] {
      var n := |lines| - 1;
      var front := Without(lines[..n], others);
      WithoutKeeps(lines[..n], others);
      assert lines == lines[..n] + [lines[n]];
      forall i | 0 <= i < |front|
        ensures front[i] < lines[n]
      {
        assert front[i] in front && front[i] in lines[..n];
        var k :| 0 <= k < |lines[..n]| && lines[..n][k] == front[i];
      }
    }
  }

  lemma {:induction false} FirstsAppends(x: seq<Sku>, y: seq<Sku>)
    requires Ordered(x) && Ordered(y)
    ensures Firsts(x + y) == x + Without(y, x)
    decreases |y|
  {
    if y == [] {
      assert x + y == x;
      FirstsOfOrdered(x);
    } else {
      var n := |y| - 1;
      FirstsAppends(x, y[..n]);
      WithoutKeeps(y[..n], x);
      assert (x + y)[..|x + y| - 1] == x + y[..n];
      assert y[n] !in y[..n];
    }
  }

  /** A transaction that locks in whatever order its lines came. */
  ghost function BeginAsListed(sys: System, t: TxnId, lines: seq<Sku>): System {
    sys[t := Txn(SkuLocks(lines), 0)]
  }

  /** Without the sort, two orders over any two SKUs can each take one lock and wait for the other's. */
  lemma UnsortedDeadlocks(a: Sku, b: Sku) returns (sys: System)
    requires a != b
    ensures sys == Do(Do(BeginAsListed(BeginAsListed(map[], 0, [a, b]), 1, [b, a]), Take(0)), Take(1))
    ensures WaitCycle(sys, [0, 1])
  {
    var begun := BeginAsListed(BeginAsListed(map[], 0, [a, b]), 1, [b, a]);
    assert !Blocked(begun, 0);
    var one := Do(begun, Take(0));
    assert one == begun[0 := Txn(SkuLocks([a, b]), 1)];
    assert !Blocked(one, 1);
    sys := Do(one, Take(1));
    assert sys[0].plan[0] == SkuLock(a) && sys[1].plan[0] == SkuLock(b);
    assert Waits(sys, 0, 1) && Waits(sys, 1, 0);
  }
}
