/** What stands in the way of a task on its connection, and what is lost because of it: when every connection is
    blocked, a task that is not ahead of an obstacle is not done in any continuation. */
module Obstacles {
  import opened Wrappers
  import opened TaskTable
  import opened ProcessObject
  import opened DaemonClient
  import opened Loader
  import opened Dispatch
  import opened Ownership
  import opened Knowledge

  // ---- Obstacles ----

  /** The pass of the daemon that comes to such a task reports it and breaks off. */
  predicate Doomed(t: DaemonTask) {
    !t.started && t.abortOnError
  }

  function FirstDoomed(ts: seq<DaemonTask>): (k: nat)
    ensures k <= |ts| && (k < |ts| ==> Doomed(ts[k])) && forall j | 0 <= j < k :: !Doomed(ts[j])
  {
    if ts == [] || Doomed(ts[0]) then 0 else 1 + FirstDoomed(ts[1..])
  }

  /** A packet at which the daemon closes the connection: a request to, or a task of a project it does not know. */
  predicate Blocks(p: MasterPacket, projects: map<string, Project>) {
    p.close || (p.task.Some? && p.task.value.project !in projects)
  }

  function FirstBlock(ps: seq<MasterPacket>, projects: map<string, Project>): (k: nat)
    ensures k <= |ps| && (k < |ps| ==> Blocks(ps[k], projects)) && forall j | 0 <= j < k :: !Blocks(ps[j], projects)
  {
    if ps == [] || Blocks(ps[0], projects) then 0 else 1 + FirstBlock(ps[1..], projects)
  }

  /** The daemon works on the connection, and there is no obstacle on it. */
  predicate Healthy(c: Conn) {
    c.open && FirstDoomed(c.tasks) == |c.tasks| && FirstBlock(c.down, c.projects) == |c.down|
  }

  predicate Back(c: Conn, x: nat) {
    exists j :: 0 <= j < |c.up| && Carries(c.up[j], x)
  }

  predicate TaskAhead(c: Conn, x: nat) {
    exists j :: 0 <= j < |c.tasks| && j <= FirstDoomed(c.tasks) && c.tasks[j].id == x
  }

  predicate PacketAhead(c: Conn, x: nat) {
    && FirstDoomed(c.tasks) == |c.tasks|
    && exists j :: 0 <= j < FirstBlock(c.down, c.projects) && Hands(c.down[j], x)
  }

  /** The result of `x` is coming back, or `x` is on the connection ahead of the first obstacle. */
  predicate Saves(c: Conn, x: nat) {
    Back(c, x) || (c.open && (TaskAhead(c, x) || PacketAhead(c, x)))
  }

  // ---- What an operation leaves was there before ----

  lemma {:induction false} BlockAppend(ps: seq<MasterPacket>, more: seq<MasterPacket>, projects: map<string, Project>)
    ensures FirstBlock(ps + more, projects) >= FirstBlock(ps, projects)
    ensures FirstBlock(ps, projects) < |ps| ==> FirstBlock(ps + more, projects) == FirstBlock(ps, projects)
  {
    assert forall j | 0 <= j < |ps| :: (ps + more)[j] == ps[j];
  }

  lemma {:induction false} BlockPop(ps: seq<MasterPacket>, projects: map<string, Project>)
    requires ps != [] && !Blocks(ps[0], projects)
    ensures FirstBlock(ps[1..], projects) == FirstBlock(ps, projects) - 1
  {
  }

  lemma {:induction false} DoomedAppend(ts: seq<DaemonTask>, t: DaemonTask)
    ensures var k := FirstDoomed(ts + [t]);
            if FirstDoomed(ts) < |ts| then k == FirstDoomed(ts) else k == if Doomed(t) then |ts| else |ts| + 1
  {
    assert (ts + [t])[|ts|] == t && forall j | 0 <= j < |ts| :: (ts + [t])[j] == ts[j];
  }

  /** Further packets help a task only if one of them hands it to a connection without an obstacle. */
  lemma {:induction false} AppendedBefore(c: Conn, more: seq<MasterPacket>, x: nat)
    ensures var c' := c.(down := c.down + more);
            && (Healthy(c') ==> Healthy(c))
            && (Saves(c', x) && !Saves(c, x) ==>
                  Healthy(c) && exists j :: 0 <= j < |more| && Hands(more[j], x) && !Blocks(more[j], c.projects))
  {
    var c' := c.(down := c.down + more);
    BlockAppend(c.down, more, c.projects);
    assert forall j | 0 <= j < |c.down| :: c'.down[j] == c.down[j];
    if Saves(c', x) && !Saves(c, x) {
      var j :| 0 <= j < FirstBlock(c'.down, c.projects) && Hands(c'.down[j], x);
      assert c'.down[j] == more[j - |c.down|];
    }
  }

  lemma {:induction false} PoppedBefore(c: Conn, x: nat)
    requires c.up != [] && Back(c.(up := c.up[1..]), x)
    ensures Back(c, x)
  {
    var j :| 0 <= j < |c.up[1..]| && Carries(c.up[1..][j], x);
    assert Carries(c.up[j + 1], x);
  }

  lemma {:induction false} HeardBefore(c: Conn, a: Reception<nat>, x: nat)
    requires c.up != []
    ensures var c' := Heard(c, a);
            && (Healthy(c') ==> Healthy(c))
            && (Saves(c', x) && !Saves(c, x) ==>
                  var more := TaskPackets(a.sent);
                  Healthy(c) && exists j :: 0 <= j < |more| && Hands(more[j], x) && !Blocks(more[j], c.projects))
  {
    var c' := Heard(c, a);
    AppendedBefore(c, TaskPackets(a.sent), x);
    if Back(c', x) {
      assert Back(c.(up := c.up[1..]), x);
      PoppedBefore(c, x);
    }
  }

  lemma {:induction false} TakenBefore(c: Conn, saved: bool, started: bool, x: nat)
    requires c.open && c.down != []
    ensures var c' := Taken(c, saved, started);
            (Healthy(c') ==> Healthy(c)) && (Saves(c', x) ==> Saves(c, x))
  {
    var p, c' := c.down[0], Taken(c, saved, started);
    if c'.open {
      BlockPop(c.down, c.projects);
      if p.task.Some? {
        DoomedAppend(c.tasks, TaskOf(p.task.value, c.projects[p.task.value.project], started));
      }
      TakenAhead(c, saved, started, x);
    }
  }

  lemma {:induction false} TakenAhead(c: Conn, saved: bool, started: bool, x: nat)
    requires c.open && c.down != [] && Taken(c, saved, started).open
    ensures var c' := Taken(c, saved, started);
            TaskAhead(c', x) || PacketAhead(c', x) ==> TaskAhead(c, x) || PacketAhead(c, x)
  {
    var p, c' := c.down[0], Taken(c, saved, started);
    BlockPop(c.down, c.projects);
    if p.task.Some? { DoomedAppend(c.tasks, TaskOf(p.task.value, c.projects[p.task.value.project], started)); }
    if TaskAhead(c', x) {
      var j :| 0 <= j < |c'.tasks| && j <= FirstDoomed(c'.tasks) && c'.tasks[j].id == x;
      assert if j < |c.tasks| then c'.tasks[j] == c.tasks[j] else Hands(c.down[0], x);
    } else if PacketAhead(c', x) {
      var j :| 0 <= j < FirstBlock(c'.down, c'.projects) && Hands(c'.down[j], x);
      assert Hands(c.down[j + 1], x);
    }
  }

  /** A pass reports nothing behind the first task it has to break off at. */
  lemma {:induction false} StopsByDoomed(ts: seq<DaemonTask>, obs: seq<Observation>)
    requires |ts| == |obs|
    ensures FirstStop(ts, obs, |ts|) <= FirstDoomed(ts)
  {
    var k := FirstDoomed(ts);
    if k < |ts| { assert StopsAt(ts, obs, k); }
  }

  lemma {:induction false} NotInPass(ts: seq<DaemonTask>, obs: seq<Observation>, n: nat, x: nat)
    requires n <= |ts| == |obs| && forall j | 0 <= j < n :: ts[j].id != x
    ensures forall j | 0 <= j < |Sent(ts, obs, n)| :: !Carries(Sent(ts, obs, n)[j], x)
    ensures forall j | 0 <= j < |Kept(ts, obs, n)| :: Kept(ts, obs, n)[j].id != x
  {
    if n > 0 { NotInPass(ts, obs, n - 1, x); }
  }

  lemma {:induction false} WorkedBefore(c: Conn, obs: seq<Observation>, x: nat)
    requires c.open && |obs| == |c.tasks|
    ensures var c' := Worked(c, obs);
            (Healthy(c') ==> Healthy(c)) && (Saves(c', x) ==> Saves(c, x))
  {
    var ts, k, c' := c.tasks, FirstStop(c.tasks, obs, |c.tasks|), Worked(c, obs);
    StopsByDoomed(ts, obs);
    if !Saves(c, x) {
      assert forall j | 0 <= j < |ts| && j <= k :: ts[j].id != x;
      NotInPass(ts, obs, k, x);
      assert forall j | 0 <= j < |c.up| :: c'.up[j] == c.up[j];
    }
  }

  // ---- Over a step ----

  /** The step hands a task to connection `m`: the first eligible one. */
  predicate Sends(s: State, e: Step, m: nat)
    requires Enabled(s, e)
  {
    && FirstEligible(s.rows) < |s.rows|
    && match e
       case Serve(n) => n == m && s.conns[n].credit > 0
       case ServerRecv(n, _) => n == m && s.conns[n].up[0].info.Some? && s.conns[n].up[0].info.value > 0
       case _ => false
  }

  /** And it is the task `x`, over a connection without an obstacle, to a daemon that knows its project. */
  predicate SendsWell(s: State, e: Step, m: nat, x: nat)
    requires Enabled(s, e) && m in s.conns
  {
    && Sends(s, e, m) && Healthy(s.conns[m])
    && var task := s.rows[FirstEligible(s.rows)].message;
       task.id == x && task.project in s.conns[m].projects
  }

  lemma {:induction false} ServedBefore(s: State, n: nat, x: nat)
    requires n in s.conns
    ensures var c, c' := s.conns[n], Next(s, Serve(n)).conns[n];
            && (Healthy(c') ==> Healthy(c))
            && (Saves(c', x) ==> Saves(c, x) || SendsWell(s, Serve(n), n, x))
  {
    AppendedBefore(s.conns[n], TaskPackets(Told(SendTask(s.rows, n, s.conns[n].credit).sent)), x);
  }

  lemma {:induction false} ReceivedBefore(s: State, n: nat, save: Result -> int, x: nat)
    requires n in s.conns && s.conns[n].up != []
    ensures var c, c' := s.conns[n], Received(s, n, save).conns[n];
            && (Healthy(c') ==> Healthy(c))
            && (Saves(c', x) ==> Saves(c, x) || SendsWell(s, ServerRecv(n, save), n, x))
  {
    var c := s.conns[n];
    HeardBefore(c, ReceivePacket(s.rows, n, c.ip, c.credit, c.up[0], save), x);
  }

  /** No step but a new connection removes an obstacle, and a task gets ahead of one only by being handed out. */
  lemma {:induction false} BeforeStep(s: State, e: Step, m: nat, x: nat)
    requires Enabled(s, e) && !e.Connect? && m in Next(s, e).conns
    ensures m in s.conns && Next(s, e).conns[m].projects == s.conns[m].projects
    ensures Healthy(Next(s, e).conns[m]) ==> Healthy(s.conns[m])
    ensures Saves(Next(s, e).conns[m], x) ==> Saves(s.conns[m], x) || SendsWell(s, e, m, x)
  {
    match e
    case Serve(n) => ServedBefore(s, n, x);
    case ServerRecv(n, save) => ReceivedBefore(s, n, save, x);
    case SendClose(n) => AppendedBefore(s.conns[n], [MasterPacket(None, true)], x);
    case DaemonRecv(n, saved, started) => TakenBefore(s.conns[n], saved, started, x);
    case DaemonWork(n, obs) => WorkedBefore(s.conns[n], obs, x);
    case _ =>
  }

  // ---- What cannot be finished ----

  predicate Lost(c: Conn, x: nat) {
    !Healthy(c) && !Saves(c, x)
  }

  /** Every connection is blocked, and none saves the row. */
  ghost predicate Hopeless(s: State, i: nat) {
    && i < |s.rows| && s.rows[i].result == NO_INIT
    && forall n | n in s.conns :: Lost(s.conns[n], s.rows[i].message.id)
  }

  lemma {:induction false} HopelessStep(s: State, e: Step, i: nat)
    requires Hopeless(s, i) && Enabled(s, e) && !e.Connect?
    ensures Hopeless(Next(s, e), i) && |Next(s, e).rows| == |s.rows|
  {
    var t, x := Next(s, e), s.rows[i].message.id;
    assert e.ServerRecv? ==> !Carries(s.conns[e.n].up[0], x);
    ResultStays(s, e, i);
    forall m | m in t.conns ensures Lost(t.conns[m], x) { BeforeStep(s, e, m, x); }
  }

  lemma {:induction false} HopelessStays(s: State, es: seq<Step>, i: nat)
    requires Hopeless(s, i) && ValidRun(s, es) && forall j | 0 <= j < |es| :: !es[j].Connect?
    ensures |Run(s, es).rows| == |s.rows| && Run(s, es).rows[i].result == NO_INIT
    decreases |es|
  {
    if es != [] {
      HopelessStep(s, es[0], i);
      HopelessStays(Next(s, es[0]), es[1..], i);
    }
  }
}
