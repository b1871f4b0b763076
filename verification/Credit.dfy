/** Credit: how many tasks the server may still hand to a connection. It is computed by the daemon and
    spent by the server, with two queues in between. */
module Credit {
  import opened Wrappers
  import opened TaskTable
  import opened DaemonClient
  import opened Loader
  import opened Dispatch
  import opened Ownership

  function One(b: bool): nat {
    if b then 1 else 0
  }

  /** How many of the first `k` packets hand out a task. */
  function TasksDown(ps: seq<MasterPacket>, k: nat): nat
    requires k <= |ps|
  {
    if k == 0 then 0 else TasksDown(ps, k - 1) + One(ps[k - 1].task.Some?)
  }

  lemma {:induction false} TasksDownJoin(a: seq<MasterPacket>, b: seq<MasterPacket>, k: nat)
    requires k <= |a + b|
    ensures TasksDown(a + b, k)
            == if k <= |a| then TasksDown(a, k) else TasksDown(a, |a|) + TasksDown(b, k - |a|)
  {
    if k > 0 { TasksDownJoin(a, b, k - 1); }
  }

  lemma {:induction false} TasksDownPop(ps: seq<MasterPacket>, k: nat)
    requires 0 < k <= |ps|
    ensures TasksDown(ps, k) == TasksDown(ps[1..], k - 1) + One(ps[0].task.Some?)
  {
    if k > 1 { TasksDownPop(ps, k - 1); }
  }

  lemma {:induction false} TasksDownSent(ps: seq<MasterPacket>, sent: Option<Message>)
    ensures var qs := ps + TaskPackets(Told(sent));
            TasksDown(qs, |qs|) == TasksDown(ps, |ps|) + One(sent.Some?)
  {
    var more := TaskPackets(Told(sent));
    TasksDownJoin(ps, more, |ps| + |more|);
    if sent.Some? { assert TasksDown(more, 1) == TasksDown(more, 0) + 1; }
  }

  /** Everything that has been handed to the connection and has not come back. */
  function Held(c: Conn): nat {
    TasksDown(c.down, |c.down|) + |c.tasks|
  }

  /** The credit the daemon reported last, whether or not the server has read it yet. */
  function LastReport(c: Conn): int {
    if c.up == [] then c.reported
    else if c.up[|c.up| - 1].info.Some? then c.up[|c.up| - 1].info.value
    else 0
  }

  predicate AllInformed(ps: seq<SlavePacket>) {
    forall j | 0 <= j < |ps| :: ps[j].info.Some?
  }

  /** Since the last report the server read, what it handed out and what is left add up to that report.
      This much holds of every connection in every run. */
  predicate Spent(c: Conn) {
    && c.since + c.credit == c.reported
    && (c.since > 0 ==> c.credit >= 0)
    && AllInformed(c.up)
  }

  /** With a constant free-core count `f`: the last report is `f` until a result has been reported; after
      that it counts the finished task, and misses at most what the daemon has received since. */
  predicate Paced(c: Conn, f: nat) {
    && c.since <= Held(c) + |c.up|
    && LastReport(c) + |c.tasks| >= f - One(c.resulted)
    && LastReport(c) <= f - One(c.resulted)
  }

  ghost predicate AllSpent(conns: map<nat, Conn>) {
    forall n | n in conns :: Spent(conns[n])
  }

  predicate PacedOn(conns: map<nat, Conn>, n: nat, f: nat) {
    n in conns && conns[n].open ==> Paced(conns[n], f)
  }

  // ---- One connection under each operation ----

  lemma {:induction false} ServingKeeps(rows: seq<Row<nat>>, n: nat, c: Conn, f: nat)
    requires Spent(c)
    ensures var c' := Serving(rows, n, c).1;
            Spent(c') && (Paced(c, f) ==> Paced(c', f))
  {
    var h := SendTask(rows, n, c.credit);
    TasksDownSent(c.down, h.sent);
  }

  lemma {:induction false} HeardKeeps(rows: seq<Row<nat>>, n: nat, c: Conn, save: Result -> int, f: nat)
    requires c.up != [] && Spent(c)
    ensures var c' := Heard(c, ReceivePacket(rows, n, c.ip, c.credit, c.up[0], save));
            Spent(c') && (Paced(c, f) ==> Paced(c', f))
  {
    var h := SendTask(rows, n, c.up[0].info.value);
    TasksDownSent(c.down, h.sent);
    var c' := Heard(c, ReceivePacket(rows, n, c.ip, c.credit, c.up[0], save));
    assert c'.down == c.down + TaskPackets(Told(h.sent));
    assert LastReport(c') == LastReport(c);
  }

  lemma {:induction false} TakenKeepsPace(
    c: Conn, saved: bool, started: bool, f: nat)
    requires c.down != [] && Spent(c)
    ensures var c' := Taken(c, saved, started);
            Spent(c') && (Paced(c, f) && c'.open ==> Paced(c', f))
  {
    TasksDownPop(c.down, |c.down|);
  }

  predicate Constant(obs: seq<Observation>, f: nat) {
    forall j | 0 <= j < |obs| :: obs[j].cores == f
  }

  /** The last report of a pass counts the finished task but none of those erased before it. */
  lemma {:induction false} LastSent(ts: seq<DaemonTask>, obs: seq<Observation>, n: nat, f: nat)
    requires n <= |ts| == |obs| && Constant(obs, f)
    ensures var sent := Sent(ts, obs, n);
            && |sent| <= n
            && (sent != [] ==> sent[|sent| - 1].info == Some(ReportedCredit(f, |ts| - |sent| + 1)))
  {
    if n > 0 {
      LastSent(ts, obs, n - 1, f);
      LastSentStep(ts, obs, n, f);
    }
  }

  lemma {:induction false} LastSentStep(ts: seq<DaemonTask>, obs: seq<Observation>, n: nat, f: nat)
    requires 0 < n <= |ts| == |obs| && Constant(obs, f)
    ensures var front, sent := Sent(ts, obs, n - 1), Sent(ts, obs, n);
            || (|front| < n && sent == front)
            || (|front| < n && |sent| == |front| + 1 && sent[|front|].info == Some(ReportedCredit(f, |ts| - |front|)))
  {
    PassSizes(ts, obs, n - 1);
    PassStep(ts, obs, n - 1, |ts| - Finished(ts, obs, n - 1));
  }

  lemma {:induction false} WorkedSpent(c: Conn, obs: seq<Observation>)
    requires |obs| == |c.tasks| && Spent(c)
    ensures Spent(Worked(c, obs))
  {
    SentIsReported(c.tasks, obs, FirstStop(c.tasks, obs, |c.tasks|));
  }

  lemma {:induction false} WorkedReports(c: Conn, obs: seq<Observation>, f: nat)
    requires |obs| == |c.tasks| <= 0x8000_0000 && f < 0x8000_0000 && Constant(obs, f)
    ensures var c' := Worked(c, obs);
            c'.open ==>
              && |c'.up| + |c'.tasks| == |c.up| + |c.tasks|
              && if |c'.up| > |c.up| then c'.resulted && LastReport(c') + |c'.tasks| == f - 1
                 else c'.up == c.up && c'.resulted == c.resulted
  {
    var n := |c.tasks|;
    if FirstStop(c.tasks, obs, n) == n {
      var sent := Sent(c.tasks, obs, n);
      PassSizes(c.tasks, obs, n);
      LastSent(c.tasks, obs, n, f);
      if sent != [] {
        CreditIsDifference(f, n - |sent| + 1);
        assert (c.up + sent)[|c.up + sent| - 1] == sent[|sent| - 1];
      } else {
        assert c.up + sent == c.up;
      }
    }
  }

  lemma {:induction false} WorkedKeepsPace(c: Conn, obs: seq<Observation>, f: nat)
    requires |obs| == |c.tasks| <= 0x8000_0000 && f < 0x8000_0000
    requires Constant(obs, f) && Spent(c) && Paced(c, f)
    ensures var c' := Worked(c, obs);
            c'.open ==> Paced(c', f) && (|c'.up| > |c.up| ==> LastReport(c') + |c'.tasks| == f - 1)
  {
    WorkedReports(c, obs, f);
  }

  // ---- A daemon never has more tasks than the table has rows ----

  function IdsOf(ts: seq<DaemonTask>, k: nat): set<nat>
    requires k <= |ts|
  {
    if k == 0 then {} else IdsOf(ts, k - 1) + {ts[k - 1].id}
  }

  function RowIds(rows: seq<Row<nat>>, k: nat): (ids: set<nat>)
    requires k <= |rows|
    ensures |ids| <= k
  {
    if k == 0 then {} else RowIds(rows, k - 1) + {rows[k - 1].message.id}
  }

  lemma {:induction false} IdsAreDistinct(ts: seq<DaemonTask>, k: nat)
    requires k <= |ts| && forall x: nat :: TasksWith(ts, |ts|, x) <= 1
    ensures |IdsOf(ts, k)| == k
    ensures forall x :: x in IdsOf(ts, k) <==> TasksWith(ts, k, x) > 0
  {
    if k > 0 {
      IdsAreDistinct(ts, k - 1);
      TasksWithGrows(ts, k, |ts|, ts[k - 1].id);
    }
  }

  lemma {:induction false} TasksWithGrows(ts: seq<DaemonTask>, k: nat, n: nat, x: nat)
    requires k <= n <= |ts|
    ensures TasksWith(ts, k, x) <= TasksWith(ts, n, x)
  {
    if k < n { TasksWithGrows(ts, k, n - 1, x); }
  }

  lemma {:induction false} OwnedIsRowId(rows: seq<Row<nat>>, n: nat, x: nat, k: nat)
    requires k <= |rows| && OwnedWith(rows, n, x, k) > 0
    ensures x in RowIds(rows, k)
  {
    if OwnedWith(rows, n, x, k - 1) > 0 { OwnedIsRowId(rows, n, x, k - 1); }
  }

  lemma {:induction false} TasksFit(s: State, n: nat)
    requires Inv(s) && n in s.conns && s.conns[n].open
    ensures |s.conns[n].tasks| <= |s.rows|
  {
    var ts := s.conns[n].tasks;
    forall x: nat
      ensures TasksWith(ts, |ts|, x) <= 1 && (TasksWith(ts, |ts|, x) > 0 ==> x in RowIds(s.rows, |s.rows|))
    {
      assert Balanced(s.rows, n, s.conns[n], x);
      OwnedOnce(s.rows, n, x, |s.rows|);
      if TasksWith(ts, |ts|, x) > 0 { OwnedIsRowId(s.rows, n, x, |s.rows|); }
    }
    IdsAreDistinct(ts, |ts|);
    var a, b := IdsOf(ts, |ts|), RowIds(s.rows, |s.rows|);
    assert b == a + (b - a);
  }

  // ---- Runs ----

  /** Every free-core count that the daemon of connection `n` meets is `f`; the other daemons are as they are. */
  predicate Steady(e: Step, n: nat, f: nat) {
    match e
    case Connect(m, _, cores, _) => m == n ==> cores == f
    case DaemonWork(m, obs) => m == n ==> Constant(obs, f)
    case _ => true
  }

  predicate AllSteady(es: seq<Step>, n: nat, f: nat) {
    forall j | 0 <= j < |es| :: Steady(es[j], n, f)
  }

  lemma {:induction false} StepKeepsSpent(s: State, e: Step, m: nat)
    requires Enabled(s, e) && AllSpent(s.conns) && m in Next(s, e).conns
    ensures Spent(Next(s, e).conns[m])
  {
    match e
    case Connect(n, ip, cores, projects) =>
    case Serve(n) => ServingKeeps(s.rows, n, s.conns[n], 0);
    case ServerRecv(n, save) => HeardKeeps(s.rows, n, s.conns[n], save, 0);
    case Disconnect(n) =>
    case SendClose(n) =>
    case Count(i) =>
    case DaemonRecv(n, saved, started) => TakenKeepsPace(s.conns[n], saved, started, 0);
    case DaemonWork(n, obs) => WorkedSpent(s.conns[n], obs);
  }

  lemma {:induction false} StepKeepsPace(s: State, e: Step, m: nat, f: nat)
    requires Enabled(s, e) && Inv(s) && AllSpent(s.conns) && PacedOn(s.conns, m, f)
    requires Steady(e, m, f) && f < 0x8000_0000 && |s.rows| <= 0x8000_0000
    requires m in Next(s, e).conns && Next(s, e).conns[m].open
    ensures Paced(Next(s, e).conns[m], f)
  {
    match e
    case Connect(n, ip, cores, projects) =>
      SmallDifference(f);
    case Serve(n) => ServingKeeps(s.rows, n, s.conns[n], f);
    case ServerRecv(n, save) => HeardKeeps(s.rows, n, s.conns[n], save, f);
    case Disconnect(n) =>
    case SendClose(n) =>
      TasksDownJoin(s.conns[n].down, [MasterPacket(None, true)], |s.conns[n].down| + 1);
    case Count(i) =>
    case DaemonRecv(n, saved, started) => TakenKeepsPace(s.conns[n], saved, started, f);
    case DaemonWork(n, obs) =>
      if m == n {
        TasksFit(s, n);
        WorkedKeepsPace(s.conns[n], obs, f);
      }
  }

  /** Credit discipline, for any reports whatever: since the last report it read, the server has handed
      out exactly what is missing from it, and never more than it allowed. */
  lemma {:induction false} CreditDiscipline(s: State, es: seq<Step>, n: nat)
    requires AllSpent(s.conns) && ValidRun(s, es) && n in Run(s, es).conns
    ensures var c := Run(s, es).conns[n];
            c.since + c.credit == c.reported && (c.since > 0 ==> c.since <= c.reported)
  {
    RunKeepsSpent(s, es);
  }

  lemma {:induction false} RunKeepsSpent(s: State, es: seq<Step>)
    requires AllSpent(s.conns) && ValidRun(s, es)
    ensures AllSpent(Run(s, es).conns)
    decreases |es|
  {
    if es != [] {
      forall m | m in Next(s, es[0]).conns ensures Spent(Next(s, es[0]).conns[m]) {
        StepKeepsSpent(s, es[0], m);
      }
      RunKeepsSpent(Next(s, es[0]), es[1..]);
    }
  }

  lemma {:induction false} RunKeepsPace(s: State, es: seq<Step>, n: nat, f: nat)
    requires Inv(s) && AllSpent(s.conns) && PacedOn(s.conns, n, f) && ValidRun(s, es)
    requires AllSteady(es, n, f) && f < 0x8000_0000 && |s.rows| <= 0x8000_0000
    ensures PacedOn(Run(s, es).conns, n, f)
    decreases |es|
  {
    if es != [] {
      var t := Next(s, es[0]);
      forall m | m in t.conns ensures Spent(t.conns[m]) { StepKeepsSpent(s, es[0], m); }
      if n in t.conns && t.conns[n].open { StepKeepsPace(s, es[0], n, f); }
      StepKeepsInv(s, es[0]);
      SameSize(s, es[0]);
      RunKeepsPace(t, es[1..], n, f);
    }
  }

  /** Nothing is on the way in either direction and the daemon has nothing to do. */
  predicate Quiet(c: Conn) {
    c.open && c.down == [] && c.up == [] && c.tasks == []
  }

  /** The credit of an idle connection is exact: the daemon's free cores before its first result, and one
      less for ever after, because the report of a result still counts the task it reports. */
  lemma {:induction false} QuietCredit(s: State, es: seq<Step>, n: nat, f: nat)
    requires Init(s) && ValidRun(s, es) && AllSteady(es, n, f) && f < 0x8000_0000 && |s.rows| <= 0x8000_0000
    requires n in Run(s, es).conns && Quiet(Run(s, es).conns[n])
    ensures var c := Run(s, es).conns[n];
            c.credit == f - One(c.resulted)
  {
    InitInv(s);
    RunKeepsPace(s, es, n, f);
    RunKeepsSpent(s, es);
  }

  /** Progress: the server's next turn for an idle connection takes the first eligible task exactly when
      the daemon has two cores, or one and has not reported a result yet. */
  lemma {:induction false} QuietProgress(s: State, es: seq<Step>, n: nat, f: nat)
    requires Init(s) && ValidRun(s, es) && AllSteady(es, n, f) && f < 0x8000_0000 && |s.rows| <= 0x8000_0000
    requires n in Run(s, es).conns && Quiet(Run(s, es).conns[n])
    requires FirstEligible(Run(s, es).rows) < |s.rows|
    ensures var t := Run(s, es);
            var k := FirstEligible(t.rows);
            k < |t.rows|
            && (f >= 2 || (f == 1 && !t.conns[n].resulted)
                <==> Next(t, Serve(n)).rows == t.rows[k := t.rows[k].(node := Some(n))])
  {
    var t := Run(s, es);
    InitInv(s);
    RunSize(s, es);
    QuietCredit(s, es, n, f);
    var k := FirstEligible(t.rows);
    assert t.rows[k := t.rows[k].(node := Some(n))][k].node != t.rows[k].node;
  }
}
