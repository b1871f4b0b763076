/** The distributed dispatcher: the server's table and, for every live connection, the server's credit
    for it, the two queues of the connection and the daemon's task list. The steps interleave freely;
    each is one of the operations whose meaning the other modules fix. */
module Dispatch {
  import opened Wrappers
  import opened TaskTable
  import opened DaemonClient
  import opened Loader

  /** `projects` is what the daemon was started with. `down` and `up` are the packets in flight to and from the
      daemon. `open` says whether the daemon still works on the connection; once it has closed it, what it
      sent can still arrive. The last three fields are history: the credit last reported, what was sent
      since, and whether a report with a result has been made. */
  datatype Conn = Conn(
    ip: string, projects: map<string, Project>, credit: int, down: seq<MasterPacket>, tasks: seq<DaemonTask>,
    up: seq<SlavePacket>, open: bool, reported: int, since: nat, resulted: bool)

  /** A connection that has just been made, with the greeting on its way. */
  function Fresh(ip: string, cores: nat, projects: map<string, Project>): Conn {
    Conn(ip, projects, 0, [], [], [Greeting(cores)], true, 0, 0, false)
  }

  datatype State = State(
    rows: seq<Row<nat>>, conns: map<nat, Conn>, sent: nat, applied: nat, released: nat, rejected: nat)

  datatype Step =
    | Connect(n: nat, ip: string, cores: nat, projects: map<string, Project>)
    | Serve(n: nat)
    | ServerRecv(n: nat, save: Result -> int)
    | Disconnect(n: nat)
    | SendClose(n: nat)
    | Count(i: nat)
    | DaemonRecv(n: nat, saved: bool, started: bool)
    | DaemonWork(n: nat, obs: seq<Observation>)

  predicate Enabled(s: State, e: Step) {
    match e
    case Connect(n, ip, _, _) => n !in s.conns && ip != ""
    case Serve(n) => n in s.conns
    case ServerRecv(n, _) => n in s.conns && s.conns[n].up != []
    case Disconnect(n) => n in s.conns
    case SendClose(n) => n in s.conns
    case Count(i) => i < |s.rows|
    case DaemonRecv(n, _, _) => n in s.conns && s.conns[n].open && s.conns[n].down != []
    case DaemonWork(n, obs) => n in s.conns && s.conns[n].open && |obs| == |s.conns[n].tasks|
  }

  /** The server's `sendTasksToSlave` on a connection. */
  function Serving(rows: seq<Row<nat>>, n: nat, c: Conn): (seq<Row<nat>>, Conn) {
    var h := SendTask(rows, n, c.credit);
    (h.rows, c.(credit := h.credit, down := c.down + TaskPackets(Told(h.sent)), since := c.since + |Told(h.sent)|))
  }

  /** The connection after the daemon's end took a packet or made a pass. */
  function Taken(c: Conn, saved: bool, started: bool): Conn
    requires c.down != []
  {
    var t := TakePacket(c.tasks, Delivery(Some(c.down[0]), saved, started), c.projects);
    c.(down := c.down[1..], tasks := t.tasks, open := t.stay)
  }

  function Worked(c: Conn, obs: seq<Observation>): Conn
    requires |obs| == |c.tasks|
  {
    var p := ReportPass(c.tasks, obs);
    c.(tasks := p.tasks, up := c.up + p.sent, open := !p.closed, resulted := c.resulted || p.sent != [])
  }

  function OwnedBy(rows: seq<Row<nat>>, n: nat, k: nat): nat
    requires k <= |rows|
  {
    if k == 0 then 0 else OwnedBy(rows, n, k - 1) + if rows[k - 1].node == Some(n) then 1 else 0
  }

  /** The connection after the server read one packet from it. */
  function Heard(c: Conn, a: Reception<nat>): Conn
    requires c.up != []
  {
    var told := c.up[0].info.Some?;
    c.(credit := a.credit, down := c.down + TaskPackets(a.sent), up := c.up[1..],
       reported := if told then c.up[0].info.value else c.reported,
       since := if told then |a.sent| else c.since)
  }

  /** One turn of the server's packet loop on connection `n`. */
  function Received(s: State, n: nat, save: Result -> int): State
    requires n in s.conns && s.conns[n].up != []
  {
    var c := s.conns[n];
    var a := ReceivePacket(s.rows, n, c.ip, c.credit, c.up[0], save);
    s.(rows := a.rows, conns := s.conns[n := Heard(c, a)], sent := s.sent + |a.sent|,
       applied := s.applied + (if c.up[0].result.Some? && !a.rejected then 1 else 0),
       rejected := s.rejected + if a.rejected then 1 else 0)
  }

  function Next(s: State, e: Step): State
    requires Enabled(s, e)
  {
    match e
    case Connect(n, ip, cores, projects) =>
      s.(conns := s.conns[n := Fresh(ip, cores, projects)])
    case Serve(n) =>
      var (rows, c) := Serving(s.rows, n, s.conns[n]);
      s.(rows := rows, conns := s.conns[n := c], sent := s.sent + c.since - s.conns[n].since)
    case ServerRecv(n, save) => Received(s, n, save)
    case Disconnect(n) =>
      s.(rows := Release(s.rows, n), conns := s.conns - {n},
         released := s.released + OwnedBy(s.rows, n, |s.rows|))
    case SendClose(n) =>
      s.(conns := s.conns[n := s.conns[n].(down := s.conns[n].down + [MasterPacket(None, true)])])
    case Count(i) =>
      s.(rows := if s.rows[i].result == NO_INIT then s.rows else s.rows[i := s.rows[i].(doneIp := "")])
    case DaemonRecv(n, saved, started) =>
      s.(conns := s.conns[n := Taken(s.conns[n], saved, started)])
    case DaemonWork(n, obs) =>
      s.(conns := s.conns[n := Worked(s.conns[n], obs)])
  }

  predicate Init(s: State) {
    && UniqueIds(s.rows)
    && (forall i | 0 <= i < |s.rows| :: s.rows[i] == FreshRow(s.rows[i].message))
    && s.conns == map[] && s.sent == s.applied == s.released == s.rejected == 0
  }

  /** The table a build set is loaded into is one that runs start from, exactly while the ids have not wrapped. */
  lemma {:induction false} LoadedTableIsInitial(jobs: seq<Job>, disk: Disk)
    ensures Init(State(Numbered<nat>(jobs, 0, Describing(disk)), map[], 0, 0, 0, 0)) <==> |jobs| <= INT_LIMIT
  {
    NumbersAreUnique<nat>(jobs, disk);
  }

  predicate ValidRun(s: State, es: seq<Step>)
    decreases |es|
  {
    es == [] || (Enabled(s, es[0]) && ValidRun(Next(s, es[0]), es[1..]))
  }

  /** The state a run reaches. */
  function Run(s: State, es: seq<Step>): State
    requires ValidRun(s, es)
    decreases |es|
  {
    if es == [] then s else Run(Next(s, es[0]), es[1..])
  }

  lemma {:induction false} RunUnfolds(s: State, e: Step, es: seq<Step>)
    requires Enabled(s, e) && ValidRun(Next(s, e), es)
    ensures ValidRun(s, [e] + es) && Run(s, [e] + es) == Run(Next(s, e), es)
  {
    assert ([e] + es)[1..] == es;
  }

  lemma {:induction false} RunOfThree(s: State, e1: Step, e2: Step, e3: Step)
    requires Enabled(s, e1) && Enabled(Next(s, e1), e2) && Enabled(Next(Next(s, e1), e2), e3)
    ensures ValidRun(s, [e1, e2, e3]) && Run(s, [e1, e2, e3]) == Next(Next(Next(s, e1), e2), e3)
  {
    var s1 := Next(s, e1);
    RunUnfolds(Next(s1, e2), e3, []);
    RunUnfolds(s1, e2, [e3]);
    RunUnfolds(s, e1, [e2, e3]);
    assert [e2] + [e3] == [e2, e3] && [e1] + [e2, e3] == [e1, e2, e3] && [e3] + [] == [e3];
  }

  lemma {:induction false} RunsJoin(s: State, a: seq<Step>, b: seq<Step>)
    requires ValidRun(s, a) && ValidRun(Run(s, a), b)
    ensures ValidRun(s, a + b) && Run(s, a + b) == Run(Run(s, a), b)
    decreases |a|
  {
    if a == [] {
      assert a + b == b;
    } else {
      var t := Next(s, a[0]);
      RunsJoin(t, a[1..], b);
      RunUnfolds(s, a[0], a[1..] + b);
      assert [a[0]] + (a[1..] + b) == a + b;
    }
  }
}
