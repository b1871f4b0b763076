/** What a daemon knows. It is started with its projects and closes the connection on a task of any other; so a
    task can only be done if some daemon that connects knows its project. */
module Knowledge {
  import opened Wrappers
  import opened TaskTable
  import opened DaemonClient
  import opened Loader
  import opened Dispatch
  import opened Ownership

  predicate FromTable(rows: seq<Row<nat>>, m: Message) {
    exists i :: 0 <= i < |rows| && rows[i].message == m
  }

  /** `x` is the id of a task whose project is among `projects`. */
  predicate KnownId(rows: seq<Row<nat>>, projects: map<string, Project>, x: nat) {
    exists i :: 0 <= i < |rows| && rows[i].message.id == x && rows[i].message.project in projects
  }

  predicate DownOk(rows: seq<Row<nat>>, down: seq<MasterPacket>) {
    forall j | 0 <= j < |down| && down[j].task.Some? :: FromTable(rows, down[j].task.value)
  }

  predicate TasksOk(rows: seq<Row<nat>>, projects: map<string, Project>, ts: seq<DaemonTask>) {
    forall j | 0 <= j < |ts| :: KnownId(rows, projects, ts[j].id)
  }

  predicate UpOk(rows: seq<Row<nat>>, projects: map<string, Project>, up: seq<SlavePacket>) {
    forall j | 0 <= j < |up| && up[j].result.Some? :: KnownId(rows, projects, up[j].result.value.id)
  }

  /** What goes down a connection is in the table, what the daemon has and reports is of its projects. */
  predicate OriginOf(rows: seq<Row<nat>>, c: Conn) {
    DownOk(rows, c.down) && TasksOk(rows, c.projects, c.tasks) && UpOk(rows, c.projects, c.up)
  }

  ghost predicate Origin(s: State) {
    forall n | n in s.conns :: OriginOf(s.rows, s.conns[n])
  }

  // ---- Steps keep it ----

  lemma {:induction false} SameTable(rows: seq<Row<nat>>, rows': seq<Row<nat>>, c: Conn)
    requires SameIds(rows, rows') && OriginOf(rows, c)
    ensures OriginOf(rows', c)
  {
    forall m | FromTable(rows, m) ensures FromTable(rows', m) {
      var i :| 0 <= i < |rows| && rows[i].message == m;
      assert rows'[i].message == m;
    }
    forall x | KnownId(rows, c.projects, x) ensures KnownId(rows', c.projects, x) {
      var i :| 0 <= i < |rows| && rows[i].message.id == x && rows[i].message.project in c.projects;
      assert rows'[i].message == rows[i].message;
    }
  }

  lemma {:induction false} SentFromTable(rows: seq<Row<nat>>, n: nat, credit: int, down: seq<MasterPacket>)
    requires DownOk(rows, down)
    ensures DownOk(rows, down + TaskPackets(Told(SendTask(rows, n, credit).sent)))
  {
    var sent := SendTask(rows, n, credit).sent;
    if sent.Some? {
      assert rows[FirstEligible(rows)].message == sent.value;
      assert FromTable(rows, sent.value);
    }
  }

  lemma {:induction false} HeardOrigin(rows: seq<Row<nat>>, n: nat, c: Conn, save: Result -> int)
    requires c.up != [] && OriginOf(rows, c)
    ensures OriginOf(rows, Heard(c, ReceivePacket(rows, n, c.ip, c.credit, c.up[0], save)))
  {
    var c' := Heard(c, ReceivePacket(rows, n, c.ip, c.credit, c.up[0], save));
    if c.up[0].info.Some? {
      SentFromTable(rows, n, c.up[0].info.value, c.down);
    } else {
      assert c.down + TaskPackets([]) == c.down;
    }
    assert forall j | 0 <= j < |c'.up| :: c'.up[j] == c.up[j + 1];
  }

  lemma {:induction false} TakenOrigin(rows: seq<Row<nat>>, c: Conn, saved: bool, started: bool)
    requires c.down != [] && OriginOf(rows, c)
    ensures OriginOf(rows, Taken(c, saved, started))
  {
    var p, c' := c.down[0], Taken(c, saved, started);
    assert forall j | 0 <= j < |c'.down| :: c'.down[j] == c.down[j + 1];
    if p.task.Some? && p.task.value.project in c.projects {
      assert FromTable(rows, p.task.value);
      var i :| 0 <= i < |rows| && rows[i].message == p.task.value;
      assert KnownId(rows, c.projects, p.task.value.id);
    }
  }

  lemma {:induction false} SentIsKnown(
    rows: seq<Row<nat>>, projects: map<string, Project>, ts: seq<DaemonTask>, obs: seq<Observation>, n: nat)
    requires n <= |ts| == |obs| && TasksOk(rows, projects, ts)
    ensures UpOk(rows, projects, Sent(ts, obs, n)) && TasksOk(rows, projects, Kept(ts, obs, n))
  {
    if n > 0 {
      SentIsKnown(rows, projects, ts, obs, n - 1);
      assert KnownId(rows, projects, ts[n - 1].id);
    }
  }

  lemma {:induction false} WorkedOrigin(rows: seq<Row<nat>>, c: Conn, obs: seq<Observation>)
    requires |obs| == |c.tasks| && OriginOf(rows, c)
    ensures OriginOf(rows, Worked(c, obs))
  {
    var ts := c.tasks;
    var k := FirstStop(ts, obs, |ts|);
    SentIsKnown(rows, c.projects, ts, obs, k);
    if k < |ts| {
      assert KnownId(rows, c.projects, ts[k].id);
      assert forall j | 0 <= j < |ts[k..]| :: ts[k..][j] == ts[k + j];
    }
  }

  lemma {:induction false} StepKeepsOriginOf(s: State, e: Step, m: nat)
    requires Inv(s) && Origin(s) && Enabled(s, e) && m in Next(s, e).conns
    ensures OriginOf(s.rows, Next(s, e).conns[m])
  {
    match e
    case Connect(n, ip, cores, projects) =>
    case Serve(n) => SentFromTable(s.rows, n, s.conns[n].credit, s.conns[n].down);
    case ServerRecv(n, save) => HeardOrigin(s.rows, n, s.conns[n], save);
    case Disconnect(n) =>
    case SendClose(n) =>
    case Count(i) =>
    case DaemonRecv(n, saved, started) => TakenOrigin(s.rows, s.conns[n], saved, started);
    case DaemonWork(n, obs) => WorkedOrigin(s.rows, s.conns[n], obs);
  }

  lemma {:induction false} StepKeepsOrigin(s: State, e: Step)
    requires Inv(s) && Origin(s) && Enabled(s, e)
    ensures Origin(Next(s, e))
  {
    var t := Next(s, e);
    StepKeepsShape(s, e);
    forall m | m in t.conns ensures OriginOf(t.rows, t.conns[m]) {
      StepKeepsOriginOf(s, e, m);
      SameTable(s.rows, t.rows, t.conns[m]);
    }
  }

  lemma {:induction false} RunKeepsOrigin(s: State, es: seq<Step>)
    requires Inv(s) && Origin(s) && ValidRun(s, es)
    ensures Origin(Run(s, es))
    decreases |es|
  {
    if es != [] {
      StepKeepsOrigin(s, es[0]);
      StepKeepsInv(s, es[0]);
      RunKeepsOrigin(Next(s, es[0]), es[1..]);
    }
  }

  // ---- A task nobody knows ----

  /** No daemon that is connected knows the project `p`. */
  predicate Strange(s: State, p: string) {
    forall n | n in s.conns :: p !in s.conns[n].projects
  }

  /** Nor does any daemon that connects. */
  predicate BringsNo(e: Step, p: string) {
    e.Connect? ==> p !in e.projects
  }

  /** The result of a row changes only when the server reads a result with its id. */
  lemma {:induction false} ReadElsewhere(rows: seq<Row<nat>>, n: nat, c: Conn, save: Result -> int, i: nat)
    requires c.up != [] && i < |rows| && !Carries(c.up[0], rows[i].message.id)
    ensures var rows' := ReceivePacket(rows, n, c.ip, c.credit, c.up[0], save).rows;
            |rows'| == |rows| && rows'[i].message == rows[i].message && rows'[i].result == rows[i].result
  {
  }

  lemma {:induction false} ResultStays(s: State, e: Step, i: nat)
    requires Enabled(s, e) && i < |s.rows|
    requires e.ServerRecv? ==> !Carries(s.conns[e.n].up[0], s.rows[i].message.id)
    ensures var t := Next(s, e);
            |t.rows| == |s.rows| && t.rows[i].message == s.rows[i].message && t.rows[i].result == s.rows[i].result
  {
    if e.ServerRecv? { ReadElsewhere(s.rows, e.n, s.conns[e.n], e.save, i); }
  }

  lemma {:induction false} StrangeResult(s: State, n: nat, i: nat)
    requires Inv(s) && Origin(s) && n in s.conns && s.conns[n].up != [] && i < |s.rows|
    requires s.rows[i].message.project !in s.conns[n].projects
    ensures !Carries(s.conns[n].up[0], s.rows[i].message.id)
  {
    var c := s.conns[n];
    assert OriginOf(s.rows, c);
    if c.up[0].result.Some? {
      var x := c.up[0].result.value.id;
      assert KnownId(s.rows, c.projects, x);
      var j :| 0 <= j < |s.rows| && s.rows[j].message.id == x && s.rows[j].message.project in c.projects;
      assert s.rows[i].message.id != x;
    }
  }

  lemma {:induction false} StrangeStep(s: State, e: Step, i: nat)
    requires Inv(s) && Origin(s) && Enabled(s, e) && i < |s.rows| && s.rows[i].result == NO_INIT
    requires Strange(s, s.rows[i].message.project) && BringsNo(e, s.rows[i].message.project)
    ensures var t := Next(s, e);
            && |t.rows| == |s.rows| && t.rows[i].message == s.rows[i].message && t.rows[i].result == NO_INIT
            && Strange(t, s.rows[i].message.project)
  {
    if e.ServerRecv? { StrangeResult(s, e.n, i); }
    ResultStays(s, e, i);
  }

  lemma {:induction false} StrangeStays(s: State, es: seq<Step>, i: nat)
    requires Inv(s) && Origin(s) && ValidRun(s, es) && i < |s.rows| && s.rows[i].result == NO_INIT
    requires Strange(s, s.rows[i].message.project)
    requires forall j | 0 <= j < |es| :: BringsNo(es[j], s.rows[i].message.project)
    ensures |Run(s, es).rows| == |s.rows| && Run(s, es).rows[i].result == NO_INIT
    decreases |es|
  {
    if es != [] {
      StrangeStep(s, es[0], i);
      StepKeepsInv(s, es[0]);
      StepKeepsOrigin(s, es[0]);
      assert forall j | 0 <= j < |es[1..]| :: es[1..][j] == es[j + 1];
      StrangeStays(Next(s, es[0]), es[1..], i);
    }
  }

  /** A build set of two projects stalls on daemons that know only one: in any run, with any number of daemons
      coming and going, a task whose project no daemon was started with is never done. */
  lemma {:induction false} UnknownProjectStalls(s: State, es: seq<Step>, i: nat)
    requires Init(s) && ValidRun(s, es) && i < |s.rows|
    requires forall j | 0 <= j < |es| :: BringsNo(es[j], s.rows[i].message.project)
    ensures |Run(s, es).rows| == |s.rows| && Run(s, es).rows[i].result == NO_INIT
  {
    InitInv(s);
    StrangeStays(s, es, i);
  }
}
