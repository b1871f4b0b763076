/** Ownership over whole runs: where every task is, that every result finds its row, and the books. */
module Ownership {
  import opened Wrappers
  import opened TaskTable
  import Lifecycle
  import opened DaemonClient
  import opened Loader
  import opened Dispatch

  /** How many of the first `k` rows belong to `n` and carry the id `x`. */
  function OwnedWith(rows: seq<Row<nat>>, n: nat, x: nat, k: nat): nat
    requires k <= |rows|
  {
    if k == 0 then 0 else OwnedWith(rows, n, x, k - 1) + if Owns(rows[k - 1], n, x) then 1 else 0
  }

  predicate Hands(p: MasterPacket, x: nat) {
    p.task.Some? && p.task.value.id == x
  }

  /** How many of the first `k` packets hand out the task `x`. */
  function PacketsWith(ps: seq<MasterPacket>, k: nat, x: nat): nat
    requires k <= |ps|
  {
    if k == 0 then 0 else PacketsWith(ps, k - 1, x) + if Hands(ps[k - 1], x) then 1 else 0
  }

  /** For the id `x`: what the server believes connection `n` has is what is in flight to the daemon, in
      its list, or in flight back. After the daemon closed, what is in flight back is still believed. */
  predicate Balanced(rows: seq<Row<nat>>, n: nat, c: Conn, x: nat) {
    var back, owned := ResultsWith(c.up, |c.up|, x), OwnedWith(rows, n, x, |rows|);
    if c.open then PacketsWith(c.down, |c.down|, x) + TasksWith(c.tasks, |c.tasks|, x) + back == owned
    else back <= owned
  }

  ghost predicate AllBalanced(rows: seq<Row<nat>>, conns: map<nat, Conn>) {
    forall n, x: nat | n in conns :: Balanced(rows, n, conns[n], x)
  }

  predicate Housed(rows: seq<Row<nat>>, conns: map<nat, Conn>) {
    forall i | 0 <= i < |rows| && rows[i].node.Some? :: rows[i].node.value in conns
  }

  // ---- Counting under updates ----

  lemma {:induction false} OwnedAfterUpdate(rows: seq<Row<nat>>, i: nat, r: Row<nat>, n: nat, x: nat, k: nat)
    requires i < |rows| && k <= |rows|
    ensures OwnedWith(rows[i := r], n, x, k) + (if i < k && Owns(rows[i], n, x) then 1 else 0)
            == OwnedWith(rows, n, x, k) + (if i < k && Owns(r, n, x) then 1 else 0)
  {
    if k > 0 { OwnedAfterUpdate(rows, i, r, n, x, k - 1); }
  }

  lemma {:induction false} OwnedAfterRelease(rows: seq<Row<nat>>, m: nat, n: nat, x: nat, k: nat)
    requires k <= |rows|
    ensures OwnedWith(Release(rows, m), n, x, k) == if m == n then 0 else OwnedWith(rows, n, x, k)
  {
    if k > 0 { OwnedAfterRelease(rows, m, n, x, k - 1); }
  }

  lemma {:induction false} OwnedHasRow(rows: seq<Row<nat>>, n: nat, x: nat, k: nat)
    requires k <= |rows| && OwnedWith(rows, n, x, k) > 0
    ensures exists i | 0 <= i < k :: Owns(rows[i], n, x)
  {
    if OwnedWith(rows, n, x, k - 1) > 0 {
      OwnedHasRow(rows, n, x, k - 1);
    } else {
      assert Owns(rows[k - 1], n, x);
    }
  }

  lemma {:induction false} NoRowNotOwned(rows: seq<Row<nat>>, n: nat, x: nat, k: nat)
    requires k <= |rows| && forall i | 0 <= i < k :: !Owns(rows[i], n, x)
    ensures OwnedWith(rows, n, x, k) == 0
  {
    if k > 0 { NoRowNotOwned(rows, n, x, k - 1); }
  }

  lemma {:induction false} PacketsJoin(a: seq<MasterPacket>, b: seq<MasterPacket>, k: nat, x: nat)
    requires k <= |a + b|
    ensures PacketsWith(a + b, k, x)
            == if k <= |a| then PacketsWith(a, k, x) else PacketsWith(a, |a|, x) + PacketsWith(b, k - |a|, x)
  {
    if k > 0 { PacketsJoin(a, b, k - 1, x); }
  }

  lemma {:induction false} PacketsPop(ps: seq<MasterPacket>, k: nat, x: nat)
    requires 0 < k <= |ps|
    ensures PacketsWith(ps, k, x) == PacketsWith(ps[1..], k - 1, x) + if Hands(ps[0], x) then 1 else 0
  {
    if k > 1 { PacketsPop(ps, k - 1, x); }
  }

  lemma {:induction false} ResultsPop(ps: seq<SlavePacket>, k: nat, x: nat)
    requires 0 < k <= |ps|
    ensures ResultsWith(ps, k, x) == ResultsWith(ps[1..], k - 1, x) + if Carries(ps[0], x) then 1 else 0
  {
    if k > 1 { ResultsPop(ps, k - 1, x); }
  }

  lemma {:induction false} PacketsWithOne(ps: seq<MasterPacket>, p: MasterPacket, x: nat)
    ensures PacketsWith(ps + [p], |ps| + 1, x) == PacketsWith(ps, |ps|, x) + if Hands(p, x) then 1 else 0
  {
    PacketsJoin(ps, [p], |ps|, x);
  }

  // ---- What each operation keeps ----

  /** Handing out: the row and the packet appear together, and no other connection notices. */
  lemma {:induction false} SendKeeps(rows: seq<Row<nat>>, n: nat, credit: int, m: nat, c: Conn, x: nat)
    requires Balanced(rows, m, c, x)
    ensures var h := SendTask(rows, n, credit);
            Balanced(h.rows, m, if m == n then c.(down := c.down + TaskPackets(Told(h.sent))) else c, x)
  {
    var k, h := FirstEligible(rows), SendTask(rows, n, credit);
    if h.sent.None? {
      assert c.down + TaskPackets([]) == c.down;
    } else {
      OwnedAfterUpdate(rows, k, rows[k].(node := Some(n)), m, x, |rows|);
      var p := MasterPacket(Some(rows[k].message), false);
      assert TaskPackets(Told(h.sent)) == [p];
      PacketsWithOne(c.down, p, x);
    }
  }

  /** Booking the result at the head of the queue: it finds its row, and both disappear together. */
  lemma {:induction false} ApplyKeepsOwn(rows: seq<Row<nat>>, n: nat, ip: string, save: Result -> int, c: Conn, x: nat)
    requires c.up != [] && c.up[0].result.Some?
    requires Balanced(rows, n, c, c.up[0].result.value.id) && Balanced(rows, n, c, x)
    ensures var (rows', ok) := ApplyResult(rows, n, ip, c.up[0].result.value, save);
            ok && Balanced(rows', n, c.(up := c.up[1..]), x)
  {
    var res := c.up[0].result.value;
    var k := FirstOwned(rows, n, res.id);
    ResultsPop(c.up, |c.up|, res.id);
    ResultsPop(c.up, |c.up|, x);
    OwnedHasRow(rows, n, res.id, |rows|);
    OwnedAfterUpdate(rows, k, FinishRow(rows[k], ip, Outcome(res, save), res.processCode), n, x, |rows|);
  }

  lemma {:induction false} ApplyKeepsOther(
    rows: seq<Row<nat>>, n: nat, ip: string, res: Result, save: Result -> int, m: nat, c: Conn, x: nat)
    requires m != n && Balanced(rows, m, c, x)
    ensures Balanced(ApplyResult(rows, n, ip, res, save).0, m, c, x)
  {
    var k := FirstOwned(rows, n, res.id);
    if k < |rows| {
      OwnedAfterUpdate(rows, k, FinishRow(rows[k], ip, Outcome(res, save), res.processCode), m, x, |rows|);
    }
  }

  lemma {:induction false} HeardKeepsOwn(rows: seq<Row<nat>>, n: nat, c: Conn, save: Result -> int, x: nat)
    requires c.up != [] && Balanced(rows, n, c, x)
    requires c.up[0].result.Some? ==> Balanced(rows, n, c, c.up[0].result.value.id)
    ensures var a := ReceivePacket(rows, n, c.ip, c.credit, c.up[0], save);
            !a.rejected && Balanced(a.rows, n, Heard(c, a), x)
  {
    var p := c.up[0];
    var h := if p.info.Some? then SendTask(rows, n, p.info.value) else Handout(rows, c.credit, None);
    var c1 := c.(down := c.down + TaskPackets(Told(h.sent)));
    if p.info.Some? {
      SendKeeps(rows, n, p.info.value, n, c, x);
      if p.result.Some? { SendKeeps(rows, n, p.info.value, n, c, p.result.value.id); }
    } else {
      assert c1 == c;
    }
    if p.result.Some? {
      ApplyKeepsOwn(h.rows, n, c.ip, save, c1, x);
    } else {
      ResultsPop(c1.up, |c1.up|, x);
    }
  }

  lemma {:induction false} HeardKeepsOther(
    rows: seq<Row<nat>>, n: nat, c: Conn, save: Result -> int, m: nat, d: Conn, x: nat)
    requires c.up != [] && m != n && Balanced(rows, m, d, x)
    ensures Balanced(ReceivePacket(rows, n, c.ip, c.credit, c.up[0], save).rows, m, d, x)
  {
    var p := c.up[0];
    var h := if p.info.Some? then SendTask(rows, n, p.info.value) else Handout(rows, c.credit, None);
    if p.info.Some? { SendKeeps(rows, n, p.info.value, m, d, x); }
    if p.result.Some? { ApplyKeepsOther(h.rows, n, c.ip, p.result.value, save, m, d, x); }
  }

  lemma {:induction false} TakenKeeps(
    rows: seq<Row<nat>>, n: nat, c: Conn, saved: bool, started: bool, x: nat)
    requires c.open && c.down != [] && Balanced(rows, n, c, x)
    ensures Balanced(rows, n, Taken(c, saved, started), x)
  {
    PacketsPop(c.down, |c.down|, x);
    var p, t := c.down[0], Taken(c, saved, started);
    if t.open && p.task.Some? {
      TasksWithOne(c.tasks, TaskOf(p.task.value, c.projects[p.task.value.project], started), x);
    }
  }

  lemma {:induction false} WorkedKeeps(rows: seq<Row<nat>>, n: nat, c: Conn, obs: seq<Observation>, x: nat)
    requires c.open && |obs| == |c.tasks| && Balanced(rows, n, c, x)
    ensures Balanced(rows, n, Worked(c, obs), x)
  {
    var p := ReportPass(c.tasks, obs);
    PassConserves(c.tasks, obs, x);
    ResultsWithJoin(c.up, p.sent, |c.up| + |p.sent|, x);
  }

  lemma {:induction false} CloseKeeps(rows: seq<Row<nat>>, n: nat, c: Conn, x: nat)
    requires Balanced(rows, n, c, x)
    ensures Balanced(rows, n, c.(down := c.down + [MasterPacket(None, true)]), x)
  {
    PacketsWithOne(c.down, MasterPacket(None, true), x);
  }

  lemma {:induction false} ConnectBalanced(
    rows: seq<Row<nat>>, n: nat, ip: string, cores: nat, projects: map<string, Project>, x: nat)
    requires forall i | 0 <= i < |rows| :: rows[i].node != Some(n)
    ensures Balanced(rows, n, Fresh(ip, cores, projects), x)
  {
    var up := Fresh(ip, cores, projects).up;
    NoRowNotOwned(rows, n, x, |rows|);
    assert ResultsWith(up, 1, x) == ResultsWith(up, 0, x);
  }

  lemma {:induction false} CountKeeps(rows: seq<Row<nat>>, i: nat, n: nat, c: Conn, x: nat)
    requires i < |rows| && Balanced(rows, n, c, x)
    ensures Balanced(rows[i := rows[i].(doneIp := "")], n, c, x)
  {
    OwnedAfterUpdate(rows, i, rows[i].(doneIp := ""), n, x, |rows|);
  }

  lemma {:induction false} StepKeepsBalance(s: State, e: Step, m: nat, x: nat)
    requires Enabled(s, e) && AllBalanced(s.rows, s.conns) && Housed(s.rows, s.conns)
    requires m in Next(s, e).conns
    ensures Balanced(Next(s, e).rows, m, Next(s, e).conns[m], x)
  {
    var t := Next(s, e);
    match e
    case Connect(n, ip, cores, projects) =>
      if m == n { ConnectBalanced(s.rows, n, ip, cores, projects, x); }
    case Serve(n) =>
      SendKeeps(s.rows, n, s.conns[n].credit, m, s.conns[m], x);
    case ServerRecv(n, save) =>
      var c := s.conns[n];
      assert Balanced(s.rows, m, s.conns[m], x);
      if m != n {
        HeardKeepsOther(s.rows, n, c, save, m, s.conns[m], x);
      } else {
        if c.up[0].result.Some? { assert Balanced(s.rows, n, c, c.up[0].result.value.id); }
        HeardKeepsOwn(s.rows, n, c, save, x);
      }
    case Disconnect(n) =>
      OwnedAfterRelease(s.rows, n, m, x, |s.rows|);
      assert Balanced(s.rows, m, s.conns[m], x);
    case SendClose(n) =>
      assert Balanced(s.rows, m, s.conns[m], x);
      CloseKeeps(s.rows, n, s.conns[n], x);
    case Count(i) =>
      CountKeeps(s.rows, i, m, s.conns[m], x);
    case DaemonRecv(n, saved, started) =>
      assert Balanced(s.rows, m, s.conns[m], x);
      TakenKeeps(s.rows, n, s.conns[n], saved, started, x);
    case DaemonWork(n, obs) =>
      assert Balanced(s.rows, m, s.conns[m], x);
      WorkedKeeps(s.rows, n, s.conns[n], obs, x);
  }

  // ---- The books ----

  function Assigned(rows: seq<Row<nat>>, k: nat): (a: nat)
    requires k <= |rows|
  {
    if k == 0 then 0 else Assigned(rows, k - 1) + if rows[k - 1].node.Some? then 1 else 0
  }

  function DoneRows(rows: seq<Row<nat>>, k: nat): (d: nat)
    requires k <= |rows|
  {
    if k == 0 then 0 else DoneRows(rows, k - 1) + if rows[k - 1].result != NO_INIT then 1 else 0
  }

  function EligibleRows(rows: seq<Row<nat>>, k: nat): (d: nat)
    requires k <= |rows|
  {
    if k == 0 then 0 else EligibleRows(rows, k - 1) + if Eligible(rows[k - 1]) then 1 else 0
  }

  lemma {:induction false} TallyAfterUpdate(rows: seq<Row<nat>>, i: nat, r: Row<nat>, k: nat)
    requires i < |rows| && k <= |rows|
    ensures Assigned(rows[i := r], k) + (if i < k && rows[i].node.Some? then 1 else 0)
            == Assigned(rows, k) + (if i < k && r.node.Some? then 1 else 0)
    ensures DoneRows(rows[i := r], k) + (if i < k && rows[i].result != NO_INIT then 1 else 0)
            == DoneRows(rows, k) + (if i < k && r.result != NO_INIT then 1 else 0)
  {
    if k > 0 { TallyAfterUpdate(rows, i, r, k - 1); }
  }

  lemma {:induction false} TallyAfterRelease(rows: seq<Row<nat>>, n: nat, k: nat)
    requires k <= |rows|
    ensures Assigned(Release(rows, n), k) + OwnedBy(rows, n, k) == Assigned(rows, k)
    ensures DoneRows(Release(rows, n), k) == DoneRows(rows, k)
  {
    if k > 0 { TallyAfterRelease(rows, n, k - 1); }
  }

  /** Every row is eligible, assigned or done, and only one of them. */
  lemma {:induction false} TallyIsComplete(rows: seq<Row<nat>>, k: nat)
    requires Lifecycle.Sound(rows) && k <= |rows|
    ensures EligibleRows(rows, k) + Assigned(rows, k) + DoneRows(rows, k) == k
  {
    if k > 0 { TallyIsComplete(rows, k - 1); }
  }

  /** Tasks sent are results applied, tasks now owned and tasks released by disconnects; and the results
      applied are the rows done. */
  predicate Books(s: State) {
    && s.sent == s.applied + s.released + Assigned(s.rows, |s.rows|)
    && s.applied == DoneRows(s.rows, |s.rows|)
    && s.rejected == 0
  }

  /** A result in flight never carries the initial code: `getProcessExitCode` cannot return it. */
  predicate Reported(up: seq<SlavePacket>) {
    forall j | 0 <= j < |up| && up[j].result.Some? :: up[j].result.value.processCode != NO_INIT
  }

  ghost predicate Inv(s: State) {
    && UniqueIds(s.rows) && Lifecycle.Sound(s.rows) && Housed(s.rows, s.conns)
    && AllBalanced(s.rows, s.conns)
    && (forall n | n in s.conns :: s.conns[n].ip != "" && Reported(s.conns[n].up))
    && Books(s)
  }

  // ---- Shape: ids, soundness, owners that exist ----

  predicate SameIds(rows: seq<Row<nat>>, rows': seq<Row<nat>>) {
    |rows'| == |rows| && forall i | 0 <= i < |rows| :: rows'[i].message == rows[i].message
  }

  /** A server step on behalf of `n` keeps ids and soundness, and makes nobody but `n` an owner. */
  ghost predicate ShapeKept(rows: seq<Row<nat>>, rows': seq<Row<nat>>, n: nat) {
    && SameIds(rows, rows') && Lifecycle.Sound(rows')
    && forall i | 0 <= i < |rows| && rows'[i].node.Some? :: rows'[i].node == rows[i].node || rows'[i].node.value == n
  }

  lemma {:induction false} SendShape(rows: seq<Row<nat>>, n: nat, credit: int)
    requires Lifecycle.Sound(rows)
    ensures var h := SendTask(rows, n, credit);
            && ShapeKept(rows, h.rows, n)
            && Assigned(h.rows, |h.rows|) == Assigned(rows, |rows|) + |Told(h.sent)|
            && DoneRows(h.rows, |h.rows|) == DoneRows(rows, |rows|)
  {
    var k := FirstEligible(rows);
    if k < |rows| { TallyAfterUpdate(rows, k, rows[k].(node := Some(n)), |rows|); }
  }

  lemma {:induction false} ApplyShape(rows: seq<Row<nat>>, n: nat, ip: string, res: Result, save: Result -> int)
    requires Lifecycle.Sound(rows) && res.processCode != NO_INIT
    ensures var (rows', ok) := ApplyResult(rows, n, ip, res, save);
            && ShapeKept(rows, rows', n)
            && Assigned(rows', |rows|) + (if ok then 1 else 0) == Assigned(rows, |rows|)
            && DoneRows(rows', |rows|) == DoneRows(rows, |rows|) + if ok then 1 else 0
  {
    var k := FirstOwned(rows, n, res.id);
    if k < |rows| {
      TallyAfterUpdate(rows, k, FinishRow(rows[k], ip, Outcome(res, save), res.processCode), |rows|);
    }
  }

  lemma {:induction false} ReceiveShape(rows: seq<Row<nat>>, n: nat, c: Conn, save: Result -> int)
    requires Lifecycle.Sound(rows) && c.up != [] && Reported(c.up)
    ensures var a := ReceivePacket(rows, n, c.ip, c.credit, c.up[0], save);
            var booked := if c.up[0].result.Some? && !a.rejected then 1 else 0;
            && ShapeKept(rows, a.rows, n)
            && Assigned(a.rows, |a.rows|) + booked == Assigned(rows, |rows|) + |a.sent|
            && DoneRows(a.rows, |a.rows|) == DoneRows(rows, |rows|) + booked
  {
    var p := c.up[0];
    var h := if p.info.Some? then SendTask(rows, n, p.info.value) else Handout(rows, c.credit, None);
    if p.info.Some? { SendShape(rows, n, p.info.value); }
    if p.result.Some? { ApplyShape(h.rows, n, c.ip, p.result.value, save); }
  }

  lemma {:induction false} StepKeepsShape(s: State, e: Step)
    requires Enabled(s, e) && Lifecycle.Sound(s.rows) && Housed(s.rows, s.conns)
    requires forall n | n in s.conns :: s.conns[n].ip != "" && Reported(s.conns[n].up)
    ensures var t := Next(s, e);
            SameIds(s.rows, t.rows) && Lifecycle.Sound(t.rows) && Housed(t.rows, t.conns)
  {
    match e
    case Serve(n) => SendShape(s.rows, n, s.conns[n].credit);
    case ServerRecv(n, save) => ReceiveShape(s.rows, n, s.conns[n], save);
    case _ =>
  }

  lemma {:induction false} StepKeepsBooks(s: State, e: Step)
    requires Enabled(s, e) && Lifecycle.Sound(s.rows)
    requires forall n | n in s.conns :: s.conns[n].ip != "" && Reported(s.conns[n].up)
    ensures var t := Next(s, e);
            && t.sent + s.applied + s.released + Assigned(s.rows, |s.rows|)
               == s.sent + t.applied + t.released + Assigned(t.rows, |t.rows|)
            && t.applied + DoneRows(s.rows, |s.rows|) == s.applied + DoneRows(t.rows, |t.rows|)
  {
    match e
    case Serve(n) => SendShape(s.rows, n, s.conns[n].credit);
    case ServerRecv(n, save) => ReceiveShape(s.rows, n, s.conns[n], save);
    case Disconnect(n) => TallyAfterRelease(s.rows, n, |s.rows|);
    case Count(i) => TallyAfterUpdate(s.rows, i, s.rows[i].(doneIp := ""), |s.rows|);
    case _ =>
  }

  predicate AllResults(ps: seq<SlavePacket>) {
    forall j | 0 <= j < |ps| :: ps[j].info.Some? && ps[j].result.Some?
  }

  lemma {:induction false} SentIsReported(ts: seq<DaemonTask>, obs: seq<Observation>, n: nat)
    requires n <= |ts| == |obs|
    ensures Reported(Sent(ts, obs, n)) && AllResults(Sent(ts, obs, n))
  {
    if n > 0 { SentIsReported(ts, obs, n - 1); }
  }

  lemma {:induction false} StepKeepsReported(s: State, e: Step, m: nat)
    requires Enabled(s, e) && m in Next(s, e).conns
    requires forall n | n in s.conns :: s.conns[n].ip != "" && Reported(s.conns[n].up)
    ensures Next(s, e).conns[m].ip != "" && Reported(Next(s, e).conns[m].up)
  {
    if e.DaemonWork? {
      var ts := s.conns[e.n].tasks;
      SentIsReported(ts, e.obs, FirstStop(ts, e.obs, |ts|));
    }
  }

  lemma {:induction false} StepKeepsInv(s: State, e: Step)
    requires Inv(s) && Enabled(s, e)
    ensures Inv(Next(s, e))
  {
    var t := Next(s, e);
    StepKeepsShape(s, e);
    StepKeepsBooks(s, e);
    forall m, x: nat | m in t.conns ensures Balanced(t.rows, m, t.conns[m], x) {
      StepKeepsBalance(s, e, m, x);
    }
    forall m | m in t.conns ensures t.conns[m].ip != "" && Reported(t.conns[m].up) {
      StepKeepsReported(s, e, m);
    }
    NothingIsRejected(s, e);
  }

  lemma {:induction false} NothingIsRejected(s: State, e: Step)
    requires AllBalanced(s.rows, s.conns) && Enabled(s, e)
    ensures Next(s, e).rejected == s.rejected
  {
    if e.ServerRecv? {
      var c := s.conns[e.n];
      assert Balanced(s.rows, e.n, c, 0);
      if c.up[0].result.Some? { assert Balanced(s.rows, e.n, c, c.up[0].result.value.id); }
      HeardKeepsOwn(s.rows, e.n, c, e.save, 0);
    }
  }

  lemma {:induction false} InitInv(s: State)
    requires Init(s)
    ensures Inv(s)
  {
    FreshTally(s.rows, |s.rows|);
  }

  lemma {:induction false} FreshTally(rows: seq<Row<nat>>, k: nat)
    requires k <= |rows| && forall i | 0 <= i < |rows| :: rows[i] == FreshRow(rows[i].message)
    ensures Assigned(rows, k) == 0 && DoneRows(rows, k) == 0
  {
    if k > 0 { FreshTally(rows, k - 1); }
  }

  /** Every state of every run keeps the invariant. */
  lemma {:induction false} RunKeepsInv(s: State, es: seq<Step>)
    requires Inv(s) && ValidRun(s, es)
    ensures Inv(Run(s, es))
    decreases |es|
  {
    if es != [] {
      StepKeepsInv(s, es[0]);
      RunKeepsInv(Next(s, es[0]), es[1..]);
    }
  }

  lemma {:induction false} SameSize(s: State, e: Step)
    requires Enabled(s, e) && Inv(s)
    ensures |Next(s, e).rows| == |s.rows|
  {
    StepKeepsShape(s, e);
  }

  lemma {:induction false} RunSize(s: State, es: seq<Step>)
    requires Inv(s) && ValidRun(s, es)
    ensures |Run(s, es).rows| == |s.rows|
    decreases |es|
  {
    if es != [] {
      StepKeepsInv(s, es[0]);
      SameSize(s, es[0]);
      RunSize(Next(s, es[0]), es[1..]);
    }
  }

  // ---- The theorems, for every state `t` that a run from a fresh table reaches ----

  ghost predicate Reachable(t: State) {
    exists s, es :: Init(s) && ValidRun(s, es) && Run(s, es) == t
  }

  lemma {:induction false} ReachableInv(t: State)
    requires Reachable(t)
    ensures Inv(t)
  {
    var s, es :| Init(s) && ValidRun(s, es) && Run(s, es) == t;
    InitInv(s);
    RunKeepsInv(s, es);
  }

  /** How often the id `x` occurs on the connection: going down, at the daemon, coming back. */
  function Places(c: Conn, x: nat): nat {
    (if c.open then PacketsWith(c.down, |c.down|, x) + TasksWith(c.tasks, |c.tasks|, x) else 0)
    + ResultsWith(c.up, |c.up|, x)
  }

  lemma {:induction false} OwnedOnce(rows: seq<Row<nat>>, n: nat, x: nat, k: nat)
    requires UniqueIds(rows) && k <= |rows|
    ensures OwnedWith(rows, n, x, k) <= 1
    ensures OwnedWith(rows, n, x, k) == 1 ==> exists i | 0 <= i < k :: Owns(rows[i], n, x)
  {
    if k > 0 {
      OwnedOnce(rows, n, x, k - 1);
      if Owns(rows[k - 1], n, x) {
        forall i | 0 <= i < k - 1 ensures !Owns(rows[i], n, x) {
          assert rows[i].message.id != rows[k - 1].message.id;
        }
        NoRowNotOwned(rows, n, x, k - 1);
      }
    }
  }

  /** Ownership conservation. On a connection the daemon still works on, the table's rows for it are
      exactly the tasks that are in one place of it, and each is in one place only. On one the daemon
      has closed, what is coming back is still the table's. No row points at a connection that is gone. */
  lemma {:induction false} WhereTasksAre(t: State, n: nat, x: nat)
    requires Reachable(t)
    ensures Housed(t.rows, t.conns)
    ensures n in t.conns ==> Places(t.conns[n], x) <= 1
    ensures n in t.conns && Places(t.conns[n], x) == 1 ==> exists i | 0 <= i < |t.rows| :: Owns(t.rows[i], n, x)
    ensures n in t.conns && t.conns[n].open && (exists i | 0 <= i < |t.rows| :: Owns(t.rows[i], n, x))
            ==> Places(t.conns[n], x) == 1
  {
    ReachableInv(t);
    if n in t.conns {
      assert Balanced(t.rows, n, t.conns[n], x);
      OwnedOnce(t.rows, n, x, |t.rows|);
      if OwnedWith(t.rows, n, x, |t.rows|) == 0 { OwnedNone(t.rows, n, x, |t.rows|); }
    }
  }

  lemma {:induction false} OwnedNone(rows: seq<Row<nat>>, n: nat, x: nat, k: nat)
    requires k <= |rows| && OwnedWith(rows, n, x, k) == 0
    ensures forall i | 0 <= i < k :: !Owns(rows[i], n, x)
  {
    if k > 0 { OwnedNone(rows, n, x, k - 1); }
  }

  /** No task is in the hands of two connections. */
  lemma {:induction false} NoTaskTwice(t: State, m: nat, n: nat, x: nat)
    requires Reachable(t) && m in t.conns && n in t.conns && m != n
    ensures Places(t.conns[m], x) == 0 || Places(t.conns[n], x) == 0
  {
    WhereTasksAre(t, m, x);
    WhereTasksAre(t, n, x);
    ReachableInv(t);
    if Places(t.conns[m], x) == 1 {
      var i :| 0 <= i < |t.rows| && Owns(t.rows[i], m, x);
      forall j | 0 <= j < |t.rows| ensures !Owns(t.rows[j], n, x) {
        assert j != i ==> t.rows[i].message.id != t.rows[j].message.id;
      }
    }
  }

  /** Acceptance. Wherever a result is in a queue back to the server, also after the daemon has closed
      the connection, exactly one row is waiting for it, and none has ever been turned down. */
  lemma {:induction false} EveryResultIsAccepted(t: State, n: nat, j: nat)
    requires Reachable(t) && n in t.conns && j < |t.conns[n].up| && t.conns[n].up[j].result.Some?
    ensures var x := t.conns[n].up[j].result.value.id;
            exists i | 0 <= i < |t.rows| ::
              Owns(t.rows[i], n, x) && forall k | 0 <= k < |t.rows| && Owns(t.rows[k], n, x) :: k == i
    ensures t.rejected == 0
  {
    ReachableInv(t);
    var x := t.conns[n].up[j].result.value.id;
    QueuedIsCounted(t.conns[n].up, j, |t.conns[n].up|, x);
    assert Balanced(t.rows, n, t.conns[n], x);
    OwnedHasRow(t.rows, n, x, |t.rows|);
    var i :| 0 <= i < |t.rows| && Owns(t.rows[i], n, x);
    forall k | 0 <= k < |t.rows| && Owns(t.rows[k], n, x) ensures k == i {
      SameRow(t.rows, i, k);
    }
  }

  lemma {:induction false} SameRow(rows: seq<Row<nat>>, i: nat, k: nat)
    requires UniqueIds(rows) && i < |rows| && k < |rows| && rows[i].message.id == rows[k].message.id
    ensures i == k
  {
  }

  lemma {:induction false} QueuedIsCounted(up: seq<SlavePacket>, j: nat, k: nat, x: nat)
    requires j < k <= |up| && Carries(up[j], x)
    ensures ResultsWith(up, k, x) > 0
  {
    if j < k - 1 { QueuedIsCounted(up, j, k - 1, x); }
  }

  /** The books balance in every reachable state: twice the eligible rows, the owned rows, everything sent
      and everything applied come to twice the table and what disconnects released. So without a
      disconnect every send and every booked result uses up one of 2 * |rows| units. */
  lemma {:induction false} ConservationLaw(t: State)
    requires Reachable(t)
    ensures t.sent == t.applied + t.released + Assigned(t.rows, |t.rows|)
    ensures 2 * EligibleRows(t.rows, |t.rows|) + Assigned(t.rows, |t.rows|) + t.sent + t.applied
            == 2 * |t.rows| + t.released
    ensures t.sent <= |t.rows| + t.released
    ensures t.applied == |t.rows| <==> forall i | 0 <= i < |t.rows| :: t.rows[i].result != NO_INIT
  {
    ReachableInv(t);
    TallyIsComplete(t.rows, |t.rows|);
    AllDone(t.rows, |t.rows|);
  }

  lemma {:induction false} AllDone(rows: seq<Row<nat>>, k: nat)
    requires k <= |rows|
    ensures DoneRows(rows, k) <= k
    ensures DoneRows(rows, k) == k <==> forall i | 0 <= i < k :: rows[i].result != NO_INIT
  {
    if k > 0 { AllDone(rows, k - 1); }
  }
}
