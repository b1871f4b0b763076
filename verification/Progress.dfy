/** Going on from where a run has got to, with no daemon coming in: what is ahead of every obstacle can be
    finished, and what is behind one, with an obstacle on every connection, cannot. */
module Progress {
  import opened Wrappers
  import opened TaskTable
  import opened ProcessObject
  import opened DaemonClient
  import opened Loader
  import opened Dispatch
  import opened Ownership
  import Finality
  import opened Credit
  import opened Effort
  import opened Knowledge
  import opened Obstacles

  // ---- Continuations ----

  /** How many cores the daemon of each connection has. */
  type Cores = nat -> nat

  predicate Regular(e: Step, cores: Cores) {
    match e
    case Connect(n, _, c, _) => c == cores(n)
    case DaemonWork(n, obs) => Constant(obs, cores(n))
    case _ => true
  }

  /** No daemon comes in, and none changes its cores. */
  predicate Continues(s: State, es: seq<Step>, cores: Cores) {
    ValidRun(s, es) && forall j | 0 <= j < |es| :: !es[j].Connect? && Regular(es[j], cores)
  }

  ghost predicate Finishable(s: State, cores: Cores) {
    exists es :: Continues(s, es, cores) && EveryRowDone(Run(s, es).rows)
  }

  /** The server asks nobody to close, and drops only those that have. */
  predicate Gentle(s: State, e: Step)
    requires Enabled(s, e)
  {
    !e.Connect? && !e.SendClose? && (e.Disconnect? ==> !s.conns[e.n].open)
  }

  predicate AllGentle(s: State, es: seq<Step>)
    requires ValidRun(s, es)
    decreases |es|
  {
    es == [] || (Gentle(s, es[0]) && AllGentle(Next(s, es[0]), es[1..]))
  }

  ghost predicate Finishes(s: State, es: seq<Step>, cores: Cores) {
    Continues(s, es, cores) && AllGentle(s, es) && EveryRowDone(Run(s, es).rows)
  }

  lemma {:induction false} OneMore(s: State, e: Step, es: seq<Step>, cores: Cores)
    requires Enabled(s, e) && Gentle(s, e) && Regular(e, cores) && Finishes(Next(s, e), es, cores)
    ensures Finishes(s, [e] + es, cores)
  {
    RunUnfolds(s, e, es);
    assert ([e] + es)[1..] == es;
  }

  // ---- Steps that go forward ----

  /** Read what comes back; take a packet that is no obstacle; let a daemon that has taken those work. */
  predicate Forward(s: State, e: Step, cores: Cores)
    requires Enabled(s, e)
  {
    match e
    case ServerRecv(_, _) => true
    case DaemonRecv(n, saved, started) => saved && started && !Blocks(s.conns[n].down[0], s.conns[n].projects)
    case DaemonWork(n, obs) =>
      var c := s.conns[n];
      c.tasks != [] && obs == Goods(|c.tasks|, cores(n)) && (c.down == [] || Blocks(c.down[0], c.projects))
    case _ => false
  }

  predicate Busy(c: Conn) {
    c.up != [] || (c.open && (c.tasks != [] || (c.down != [] && !Blocks(c.down[0], c.projects))))
  }

  lemma {:induction false} BusyGoesForward(s: State, n: nat, cores: Cores, save: Result -> int) returns (e: Step)
    requires n in s.conns && Busy(s.conns[n])
    ensures Enabled(s, e) && Gentle(s, e) && Regular(e, cores) && Forward(s, e, cores) && e.n == n && Productive(s, e)
  {
    var c := s.conns[n];
    if c.up != [] {
      e := ServerRecv(n, save);
    } else if c.down != [] && !Blocks(c.down[0], c.projects) {
      e := DaemonRecv(n, true, true);
    } else {
      e := DaemonWork(n, Goods(|c.tasks|, cores(n)));
      WorkIsProductive(c, cores(n));
    }
  }

  // ---- A pass in which every process has ended well ----

  lemma {:induction false} GoodStops(ts: seq<DaemonTask>, f: nat, j: nat)
    requires j < |ts|
    ensures !Running(ts[j], Goods(|ts|, f)[j]) && (StopsAt(ts, Goods(|ts|, f), j) <==> Doomed(ts[j]))
  {
    assert Goods(|ts|, f)[j] == Good(f);
  }

  lemma {:induction false} GoodPass(ts: seq<DaemonTask>, f: nat, n: nat)
    requires n <= |ts|
    ensures var obs := Goods(|ts|, f);
            && Kept(ts, obs, n) == [] && |Sent(ts, obs, n)| == n
            && forall j | 0 <= j < n :: Carries(Sent(ts, obs, n)[j], ts[j].id)
  {
    if n > 0 {
      GoodPass(ts, f, n - 1);
      GoodStops(ts, f, n - 1);
    }
  }

  /** It reports all tasks up to the first it has to break off at, and keeps none if there is none. */
  lemma {:induction false} GoodWork(c: Conn, f: nat, x: nat)
    requires c.open
    ensures var c' := Worked(c, Goods(|c.tasks|, f));
            && c'.down == c.down && c'.projects == c.projects
            && (FirstDoomed(c.tasks) == |c.tasks| ==> c'.open && c'.tasks == [])
            && (TaskAhead(c, x) || Back(c, x) ==> Back(c', x))
  {
    var ts, obs := c.tasks, Goods(|c.tasks|, f);
    var k := FirstStop(ts, obs, |ts|);
    forall j | 0 <= j < |ts| ensures StopsAt(ts, obs, j) <==> Doomed(ts[j]) { GoodStops(ts, f, j); }
    assert k == FirstDoomed(ts) by {
      assert k < |ts| ==> StopsAt(ts, obs, k);
      assert forall j | 0 <= j < k :: !StopsAt(ts, obs, j);
    }
    GoodPass(ts, f, k);
    var c' := Worked(c, obs);
    if TaskAhead(c, x) {
      var j :| 0 <= j < |ts| && j <= k && ts[j].id == x;
      if k < |ts| { GoodStops(ts, f, k); }
      assert obs[j] == Good(f) && Carries(c'.up[|c.up| + j], x);
    } else if Back(c, x) {
      var j :| 0 <= j < |c.up| && Carries(c.up[j], x);
      assert Carries(c'.up[j], x);
    }
  }

  // ---- What is saved stays saved ----

  /** Every row that is not done is ahead of every obstacle. */
  ghost predicate Saved(s: State) {
    forall i | 0 <= i < |s.rows| && s.rows[i].result == NO_INIT :: SavedRow(s, i)
  }

  ghost predicate SavedRow(s: State, i: nat)
    requires i < |s.rows|
  {
    exists n :: n in s.conns && Saves(s.conns[n], s.rows[i].message.id)
  }

  lemma {:induction false} AppendSaves(c: Conn, more: seq<MasterPacket>, x: nat)
    requires Saves(c, x)
    ensures Saves(c.(down := c.down + more), x)
  {
    BlockAppend(c.down, more, c.projects);
    assert forall j | 0 <= j < |c.down| :: (c.down + more)[j] == c.down[j];
  }

  lemma {:induction false} HeardSaves(c: Conn, a: Reception<nat>, x: nat)
    requires c.up != [] && Saves(c, x) && !Carries(c.up[0], x)
    ensures Saves(Heard(c, a), x)
  {
    AppendSaves(c, TaskPackets(a.sent), x);
    var c' := Heard(c, a);
    if Back(c, x) {
      var j :| 0 <= j < |c.up| && Carries(c.up[j], x);
      assert c'.up[j - 1] == c.up[j];
    }
  }

  lemma {:induction false} TakenHealth(c: Conn)
    requires c.open && c.down != [] && !Blocks(c.down[0], c.projects)
    ensures var c' := Taken(c, true, true);
            && c'.open && c'.projects == c.projects && c'.down == c.down[1..] && c'.up == c.up
            && FirstBlock(c'.down, c'.projects) == FirstBlock(c.down, c.projects) - 1
            && (if FirstDoomed(c.tasks) == |c.tasks| then FirstDoomed(c'.tasks) == |c'.tasks|
                else FirstDoomed(c'.tasks) == FirstDoomed(c.tasks))
            && |c'.tasks| >= |c.tasks| && c'.tasks[..|c.tasks|] == c.tasks
  {
    BlockPop(c.down, c.projects);
    if c.down[0].task.Some? {
      var m := c.down[0].task.value;
      DoomedAppend(c.tasks, TaskOf(m, c.projects[m.project], true));
    }
  }

  lemma {:induction false} TakenSaves(c: Conn, x: nat)
    requires c.open && c.down != [] && !Blocks(c.down[0], c.projects) && Saves(c, x)
    ensures Saves(Taken(c, true, true), x)
  {
    var c' := Taken(c, true, true);
    TakenHealth(c);
    if TaskAhead(c, x) {
      var j :| 0 <= j < |c.tasks| && j <= FirstDoomed(c.tasks) && c.tasks[j].id == x;
      assert c'.tasks[..|c.tasks|][j] == c'.tasks[j];
    } else if !Back(c, x) {
      var j :| 0 <= j < FirstBlock(c.down, c.projects) && Hands(c.down[j], x);
      if j == 0 {
        assert c'.tasks[|c.tasks|].id == x;
      } else {
        assert Hands(c'.down[j - 1], x);
      }
    }
  }

  lemma {:induction false} WorkedSaves(c: Conn, f: nat, x: nat)
    requires c.open && Saves(c, x)
    ensures Saves(Worked(c, Goods(|c.tasks|, f)), x)
  {
    GoodWork(c, f, x);
  }

  /** A row whose result is read is done. */
  lemma {:induction false} ReadIsDone(s: State, n: nat, save: Result -> int, i: nat)
    requires Inv(s) && n in s.conns && s.conns[n].up != [] && i < |s.rows|
    requires Carries(s.conns[n].up[0], s.rows[i].message.id)
    ensures var t := Received(s, n, save);
            |t.rows| == |s.rows| && t.rows[i].result != NO_INIT
  {
    var k := Finality.ReceivedLands(s, n, save);
    var e := ServerRecv(n, save);
    StepKeepsShape(s, e);
    assert Next(s, e) == Received(s, n, save);
    SameRow(s.rows, i, k);
  }

  lemma {:induction false} ForwardSaves(s: State, e: Step, cores: Cores, i: nat)
    requires Inv(s) && Enabled(s, e) && Forward(s, e, cores) && i < |s.rows| && SavedRow(s, i)
    ensures var t := Next(s, e);
            |t.rows| == |s.rows| && t.rows[i].message == s.rows[i].message
            && (t.rows[i].result == NO_INIT ==> SavedRow(t, i))
  {
    StepKeepsShape(s, e);
    var t, x := Next(s, e), s.rows[i].message.id;
    var m :| m in s.conns && Saves(s.conns[m], x);
    var c := s.conns[m];
    match e
    case ServerRecv(n, save) =>
      if m == n {
        if Carries(c.up[0], x) {
          ReadIsDone(s, n, save, i);
        } else {
          HeardSaves(c, ReceivePacket(s.rows, n, c.ip, c.credit, c.up[0], save), x);
          assert Saves(t.conns[m], x);
        }
      } else {
        assert Saves(t.conns[m], x);
      }
    case DaemonRecv(n, _, _) =>
      if m == n { TakenSaves(c, x); }
      assert Saves(t.conns[m], x);
    case DaemonWork(n, obs) =>
      if m == n { WorkedSaves(c, cores(n), x); }
      assert Saves(t.conns[m], x);
  }

  lemma {:induction false} StaysDone(s: State, e: Step, i: nat)
    requires Inv(s) && Enabled(s, e) && i < |s.rows|
    ensures var t := Next(s, e);
            |t.rows| == |s.rows| && t.rows[i].message == s.rows[i].message
            && (t.rows[i].result == NO_INIT ==> s.rows[i].result == NO_INIT)
  {
    StepKeepsShape(s, e);
    if s.rows[i].result != NO_INIT { Finality.StepFreezes(s, e, i); }
  }

  lemma {:induction false} StaysSaved(s: State, e: Step, cores: Cores)
    requires Inv(s) && Saved(s) && Enabled(s, e) && Forward(s, e, cores)
    ensures Saved(Next(s, e))
  {
    var t := Next(s, e);
    forall i | 0 <= i < |t.rows| && t.rows[i].result == NO_INIT ensures SavedRow(t, i) {
      StepKeepsShape(s, e);
      StaysDone(s, e, i);
      ForwardSaves(s, e, cores, i);
    }
  }

  lemma {:induction false} SavedIsBusy(s: State) returns (n: nat)
    requires Saved(s) && !EveryRowDone(s.rows)
    ensures n in s.conns && Busy(s.conns[n])
  {
    var i :| 0 <= i < |s.rows| && s.rows[i].result == NO_INIT;
    assert SavedRow(s, i);
    n :| n in s.conns && Saves(s.conns[n], s.rows[i].message.id);
    var c := s.conns[n];
    assert c.down == [] ==> FirstBlock(c.down, c.projects) == 0;
  }

  /** What is ahead of every obstacle can be finished, without dropping anybody. */
  lemma {:induction false} FinishSaved(s: State, cores: Cores, save: Result -> int) returns (es: seq<Step>)
    requires Inv(s) && Saved(s)
    ensures Finishes(s, es, cores)
    decreases Energy(s)
  {
    if EveryRowDone(s.rows) {
      es := [];
    } else {
      var n := SavedIsBusy(s);
      var e := BusyGoesForward(s, n, cores, save);
      StepPays(s, e);
      StepKeepsInv(s, e);
      StaysSaved(s, e, cores);
      var rest := FinishSaved(Next(s, e), cores, save);
      OneMore(s, e, rest, cores);
      es := [e] + rest;
    }
  }

  // ---- Not without a connection that has no obstacle ----

  ghost predicate SomeHealthy(s: State) {
    exists n :: n in s.conns && Healthy(s.conns[n])
  }

  lemma {:induction false} BlockedIsHopeless(s: State, es: seq<Step>, cores: Cores)
    requires !SomeHealthy(s) && !Saved(s) && Continues(s, es, cores)
    ensures !EveryRowDone(Run(s, es).rows)
  {
    var i :| 0 <= i < |s.rows| && s.rows[i].result == NO_INIT && !SavedRow(s, i);
    assert Hopeless(s, i);
    HopelessStays(s, es, i);
  }

  // ---- An open connection is not enough ----

  /** A connection that is still open when the server has told it to close, before the first task, finishes none
      of them in any continuation, whatever the daemon knows. */
  lemma {:induction false} OpenIsNotEnough(
    s: State, f: nat, ip: string, projects: map<string, Project>, save: Result -> int, cores: Cores)
    requires Init(s) && s.rows != [] && 2 <= f < 0x8000_0000 && ip != ""
    ensures var past := [Connect(0, ip, f, projects), SendClose(0), ServerRecv(0, save)];
            && ValidRun(s, past) && AllSteady(past, 0, f)
            && var t := Run(s, past);
               0 in t.conns && t.conns[0].open && !Finishable(t, cores)
  {
    var e1, e2, e3 := Connect(0, ip, f, projects), SendClose(0), ServerRecv(0, save);
    var s1 := Next(s, e1);
    var s2 := Next(s1, e2);
    RunOfThree(s, e1, e2, e3);
    ToldToClose(s2, save, cores);
  }

  /** The server reads the greeting after it has told the client to close. */
  lemma {:induction false} ToldToClose(s: State, save: Result -> int, cores: Cores)
    requires s.rows != [] && s.rows[0].result == NO_INIT && s.conns.Keys == {0}
    requires var c := s.conns[0];
             && c.open && c.down == [MasterPacket(None, true)] && c.tasks == []
             && |c.up| == 1 && c.up[0].result.None?
    ensures var t := Next(s, ServerRecv(0, save));
            0 in t.conns && t.conns[0].open && !Finishable(t, cores)
  {
    var t := Next(s, ServerRecv(0, save));
    var c := t.conns[0];
    assert c.down[0] == MasterPacket(None, true) && t.rows[0].result == NO_INIT;
    assert Blocks(c.down[0], c.projects) && FirstBlock(c.down, c.projects) == 0;
    assert !SavedRow(t, 0);
    forall es | Continues(t, es, cores) ensures !EveryRowDone(Run(t, es).rows) { BlockedIsHopeless(t, es, cores); }
  }

  /** Nor does a connection whose daemon has to break off at a task: if it is the only one, what is behind that
      task, or not there yet, is not done in any continuation. */
  lemma {:induction false} BreakOffIsNotEnough(s: State, n: nat, i: nat, es: seq<Step>)
    requires s.conns.Keys == {n} && i < |s.rows| && s.rows[i].result == NO_INIT
    requires var c, x := s.conns[n], s.rows[i].message.id;
             c.open && FirstDoomed(c.tasks) < |c.tasks| && !TaskAhead(c, x) && !Back(c, x)
    requires ValidRun(s, es) && forall j | 0 <= j < |es| :: !es[j].Connect?
    ensures |Run(s, es).rows| == |s.rows| && Run(s, es).rows[i].result == NO_INIT
  {
    HopelessStays(s, es, i);
  }
}
