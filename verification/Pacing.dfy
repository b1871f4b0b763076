/** Two ends of the credit scheme: the stall of a daemon with one core, and delivery in lock-step, where
    the credit is an exact bound on what a daemon has. */
module Pacing {
  import opened Wrappers
  import opened TaskTable
  import opened ProcessObject
  import opened DaemonClient
  import opened Loader
  import opened Dispatch
  import opened Ownership
  import opened Credit

  // ---- The stall ----

  predicate Stuck(c: Conn) {
    c.tasks == [] && c.up == [] && c.credit <= 0 && TasksDown(c.down, |c.down|) == 0
  }

  ghost predicate AllStuck(s: State) {
    && (forall n | n in s.conns :: Stuck(s.conns[n]))
    && (forall i | 0 <= i < |s.rows| :: s.rows[i].node.None?)
  }

  lemma {:induction false} StepStaysStuck(s: State, e: Step)
    requires AllStuck(s) && Enabled(s, e) && !e.Connect?
    ensures var t := Next(s, e);
            && AllStuck(t) && |t.rows| == |s.rows|
            && forall i | 0 <= i < |s.rows| :: t.rows[i].result == s.rows[i].result
  {
    match e
    case Serve(n) =>
      assert s.conns[n].down + TaskPackets([]) == s.conns[n].down;
    case Disconnect(n) =>
      assert Release(s.rows, n) == s.rows;
    case SendClose(n) =>
      TasksDownJoin(s.conns[n].down, [MasterPacket(None, true)], |s.conns[n].down| + 1);
    case DaemonRecv(n, _, _) =>
      TasksDownPop(s.conns[n].down, |s.conns[n].down|);
    case _ =>
  }

  /** Once every connection is out of credit and idle, no task is finished by any later run, unless a new
      daemon connects. */
  lemma {:induction false} StuckForever(s: State, es: seq<Step>)
    requires AllStuck(s) && ValidRun(s, es) && forall j | 0 <= j < |es| :: !es[j].Connect?
    ensures var t := Run(s, es);
            && AllStuck(t) && |t.rows| == |s.rows|
            && forall i | 0 <= i < |s.rows| :: t.rows[i].result == s.rows[i].result
    decreases |es|
  {
    if es != [] {
      StepStaysStuck(s, es[0]);
      StuckForever(Next(s, es[0]), es[1..]);
    }
  }

  /** The single core of the daemon takes the first task and finishes it. */
  function OneCoreRun(ip: string, save: Result -> int, projects: map<string, Project>): seq<Step> {
    [Connect(0, ip, 1, projects), ServerRecv(0, save), DaemonRecv(0, true, true),
     DaemonWork(0, [Observation(Some(0), Some(0), 1, "", true)]), ServerRecv(0, save)]
  }

  lemma {:induction false} OneCoreIsSteady(ip: string, save: Result -> int, projects: map<string, Project>)
    ensures AllSteady(OneCoreRun(ip, save, projects), 0, 1)
  {
  }

  lemma {:induction false} OneCoreRunSplits(ip: string, save: Result -> int, projects: map<string, Project>)
    ensures var es := OneCoreRun(ip, save, projects);
            es[..2] == [Connect(0, ip, 1, projects), ServerRecv(0, save)] && es[..2] + es[2..] == es
  {
  }

  lemma {:induction false} FirstTaskTaken(
    s: State, ip: string, save: Result -> int, projects: map<string, Project>) returns (t: State)
    requires Init(s) && s.rows != [] && ip != ""
    ensures ValidRun(s, [Connect(0, ip, 1, projects), ServerRecv(0, save)])
    ensures t == Run(s, [Connect(0, ip, 1, projects), ServerRecv(0, save)])
    ensures t.conns == map[0 := Conn(
              ip, projects, 0, [MasterPacket(Some(s.rows[0].message), false)], [], [], true, 1, 1, false)]
    ensures t.rows == s.rows[0 := s.rows[0].(node := Some(0))]
  {
    var s1 := Next(s, Connect(0, ip, 1, projects));
    t := Next(s1, ServerRecv(0, save));
    RunUnfolds(s1, ServerRecv(0, save), []);
    RunUnfolds(s, Connect(0, ip, 1, projects), [ServerRecv(0, save)]);
    assert s1.conns[0].up[1..] == [];
    assert t.conns[0].down == [MasterPacket(Some(s.rows[0].message), false)];
  }

  lemma {:induction false} FirstTaskDone(
    s: State, m: Message, ip: string, save: Result -> int, projects: map<string, Project>) returns (t: State)
    requires s.conns == map[0 := Conn(ip, projects, 0, [MasterPacket(Some(m), false)], [], [], true, 1, 1, false)]
    requires |s.rows| >= 2 && Owns(s.rows[0], 0, m.id) && m.project in projects && ip != ""
    requires forall i | 0 < i < |s.rows| :: s.rows[i].node.None?
    ensures var es := OneCoreRun(ip, save, projects)[2..];
            ValidRun(s, es) && t == Run(s, es)
    ensures AllStuck(t) && 0 in t.conns && Quiet(t.conns[0]) && t.conns[0].resulted
    ensures |t.rows| == |s.rows| && t.rows[1..] == s.rows[1..]
  {
    var es := OneCoreRun(ip, save, projects)[2..];
    var obs := Observation(Some(0), Some(0), 1, "", true);
    var s1 := Next(s, es[0]);
    var task := TaskOf(m, projects[m.project], true);
    assert s1.conns[0] == Conn(ip, projects, 0, [], [task], [], true, 1, 1, false);
    OneCoreReport(task, obs);
    var s2 := Next(s1, es[1]);
    var p := ReportPacket(task, obs, 1);
    assert s2.conns[0] == Conn(ip, projects, 0, [], [], [p], true, 1, 1, true);
    t := Next(s2, es[2]);
    assert FirstOwned(s2.rows, 0, m.id) == 0;
    assert [p][1..] == [] && t.conns[0].up == [];
    RunOfThree(s, es[0], es[1], es[2]);
    assert es == [es[0], es[1], es[2]];
  }

  lemma {:induction false} OneCoreReport(task: DaemonTask, o: Observation)
    requires task.started && o == Observation(Some(0), Some(0), 1, "", true)
    ensures ReportPass([task], [o]) == Round([ReportPacket(task, o, 1)], [], false)
    ensures ReportPacket(task, o, 1).info == Some(0)
  {
    CreditIsDifference(1, 1);
    assert !StopsAt([task], [o], 0);
    PassStep([task], [o], 0, 1);
  }

  /** The stall is real: whatever table of at least two tasks the console starts with, a daemon with one
      core that connects first leads it into a state from which, unless another daemon connects, no run
      ever finishes the second task. */
  lemma {:induction false} OneCoreStalls(
    s: State, ip: string, save: Result -> int, projects: map<string, Project>, later: seq<Step>)
    requires Init(s) && |s.rows| >= 2 && ip != "" && s.rows[0].message.project in projects
    ensures var es := OneCoreRun(ip, save, projects);
            && AllSteady(es, 0, 1) && ValidRun(s, es)
            && 0 in Run(s, es).conns && Quiet(Run(s, es).conns[0])
            && (ValidRun(Run(s, es), later) && (forall j | 0 <= j < |later| :: !later[j].Connect?)
                ==> |Run(Run(s, es), later).rows| == |s.rows| && Run(Run(s, es), later).rows[1].result == NO_INIT)
  {
    var t := OneCoreReaches(s, ip, save, projects);
    if ValidRun(t, later) && (forall j | 0 <= j < |later| :: !later[j].Connect?) { StuckForever(t, later); }
  }

  lemma {:induction false} OneCoreReaches(s: State, ip: string, save: Result -> int, projects: map<string, Project>)
    returns (t: State)
    requires Init(s) && |s.rows| >= 2 && ip != "" && s.rows[0].message.project in projects
    ensures var es := OneCoreRun(ip, save, projects);
            AllSteady(es, 0, 1) && ValidRun(s, es) && t == Run(s, es)
    ensures AllStuck(t) && 0 in t.conns && Quiet(t.conns[0])
    ensures |t.rows| == |s.rows| && t.rows[1] == s.rows[1]
  {
    var es := OneCoreRun(ip, save, projects);
    var mid := FirstTaskTaken(s, ip, save, projects);
    t := FirstTaskDone(mid, s.rows[0].message, ip, save, projects);
    OneCoreRunSplits(ip, save, projects);
    RunsJoin(s, es[..2], es[2..]);
    OneCoreIsSteady(ip, save, projects);
    assert t.rows[1] == t.rows[1..][0] == mid.rows[1..][0] == s.rows[1];
  }

  // ---- Lock-step ----

  /** On connection `n` one report at a time, and none while anything is on the way: the server serves it only
      when it has read everything from it, and its daemon reports at most one task, when no task is on its way.
      The other connections go as they please. */
  predicate InStep(s: State, e: Step, n: nat)
    requires Enabled(s, e)
  {
    match e
    case Serve(m) => m == n ==> s.conns[n].up == []
    case DaemonWork(m, obs) =>
      m == n ==>
        var c := s.conns[n];
        c.up == [] && TasksDown(c.down, |c.down|) == 0 && |ReportPass(c.tasks, obs).sent| <= 1
    case _ => true
  }

  predicate LockStep(s: State, es: seq<Step>, n: nat)
    requires ValidRun(s, es)
    decreases |es|
  {
    es == [] || (InStep(s, es[0], n) && LockStep(Next(s, es[0]), es[1..], n))
  }

  /** What the daemon has or is about to get, and the result on its way back. */
  function Outstanding(c: Conn): nat {
    Held(c) + One(c.up != [] && c.up[0].result.Some?)
  }

  predicate Level(c: Conn, f: nat) {
    if c.up == [] then c.credit >= 0 && c.credit + Held(c) == f - One(c.resulted)
    else
      && |c.up| == 1 && c.up[0].info.Some? && TasksDown(c.down, |c.down|) == 0
      && (c.up[0].result.Some? ==> c.resulted)
      && c.up[0].info.value >= 0 && c.up[0].info.value + |c.tasks| == f - One(c.resulted)
  }

  predicate LevelOn(conns: map<nat, Conn>, n: nat, f: nat) {
    n in conns && conns[n].open ==> Level(conns[n], f)
  }

  lemma {:induction false} ServingLevel(rows: seq<Row<nat>>, n: nat, c: Conn, f: nat)
    requires c.up == [] && Level(c, f)
    ensures Level(Serving(rows, n, c).1, f)
  {
    TasksDownSent(c.down, SendTask(rows, n, c.credit).sent);
  }

  lemma {:induction false} HeardLevel(rows: seq<Row<nat>>, n: nat, c: Conn, save: Result -> int, f: nat)
    requires c.up != [] && Level(c, f)
    ensures Level(Heard(c, ReceivePacket(rows, n, c.ip, c.credit, c.up[0], save)), f)
  {
    TasksDownSent(c.down, SendTask(rows, n, c.up[0].info.value).sent);
  }

  lemma {:induction false} WorkedLevel(c: Conn, obs: seq<Observation>, f: nat)
    requires |obs| == |c.tasks| && Constant(obs, f) && f < 0x8000_0000 && Level(c, f)
    requires c.up == [] && TasksDown(c.down, |c.down|) == 0 && |ReportPass(c.tasks, obs).sent| <= 1
    ensures Worked(c, obs).open ==> Level(Worked(c, obs), f)
  {
    WorkedReports(c, obs, f);
    SentIsReported(c.tasks, obs, |c.tasks|);
  }

  lemma {:induction false} TakenLevel(c: Conn, saved: bool, started: bool, f: nat)
    requires c.down != [] && Level(c, f)
    ensures var c' := Taken(c, saved, started);
            c'.open ==> Level(c', f)
  {
    TasksDownPop(c.down, |c.down|);
  }

  lemma {:induction false} StepKeepsLevel(s: State, e: Step, m: nat, f: nat)
    requires Enabled(s, e) && InStep(s, e, m) && LevelOn(s.conns, m, f) && Steady(e, m, f) && f < 0x8000_0000
    requires m in Next(s, e).conns && Next(s, e).conns[m].open
    ensures Level(Next(s, e).conns[m], f)
  {
    match e
    case Connect(n, ip, cores, projects) => SmallDifference(f);
    case Serve(n) =>
      if m == n { ServingLevel(s.rows, n, s.conns[n], f); }
    case ServerRecv(n, save) =>
      if m == n { HeardLevel(s.rows, n, s.conns[n], save, f); }
    case Disconnect(n) =>
    case SendClose(n) =>
      TasksDownJoin(s.conns[n].down, [MasterPacket(None, true)], |s.conns[n].down| + 1);
    case Count(i) =>
    case DaemonRecv(n, saved, started) =>
      if m == n { TakenLevel(s.conns[n], saved, started, f); }
    case DaemonWork(n, obs) =>
      if m == n { WorkedLevel(s.conns[n], obs, f); }
  }

  /** In lock-step, what a connection has and its credit always come to the daemon's cores, less one after
      the first result; so it never has more tasks than cores. */
  lemma {:induction false} LockStepBound(s: State, es: seq<Step>, n: nat, f: nat)
    requires LevelOn(s.conns, n, f) && ValidRun(s, es) && LockStep(s, es, n) && AllSteady(es, n, f) && f < 0x8000_0000
    requires n in Run(s, es).conns && Run(s, es).conns[n].open
    ensures var c := Run(s, es).conns[n];
            && Outstanding(c) <= f
            && (c.up == [] ==> c.credit + Outstanding(c) == f - One(c.resulted))
    decreases |es|
  {
    if es != [] {
      var t := Next(s, es[0]);
      if n in t.conns && t.conns[n].open { StepKeepsLevel(s, es[0], n, f); }
      LockStepBound(t, es[1..], n, f);
    }
  }
}
