/** Exactly when the build can still be finished, with no daemon coming in: when every task that is not done is
    ahead of the obstacles, or there is a daemon that can be given it. One with two cores or more can be given
    any number of tasks, one with a single core only one. */
module Staffing {
  import opened Wrappers
  import opened TaskTable
  import opened DaemonClient
  import opened Loader
  import opened Dispatch
  import opened Ownership
  import opened Credit
  import opened Commitment
  import opened Effort
  import opened Knowledge
  import opened Obstacles
  import opened Progress

  /** The daemon of the connection has no task, none is on its way to it, and it has not reported any. */
  predicate Unused(c: Conn) {
    Held(c) == 0 && !c.resulted
  }

  /** Connection `n` can be given the task of row `i`: nothing is in the way, the daemon knows the project, and it
      has two cores or more, or one, which is not used and by `duty` is for this row. */
  predicate Takes(s: State, cores: Cores, duty: map<nat, nat>, n: nat, i: nat)
    requires i < |s.rows|
  {
    && n in s.conns && Healthy(s.conns[n]) && s.rows[i].message.project in s.conns[n].projects
    && (cores(n) >= 2 || (cores(n) == 1 && Unused(s.conns[n]) && n in duty && duty[n] == i))
  }

  ghost predicate Supported(s: State, cores: Cores, duty: map<nat, nat>, team: set<nat>, i: nat)
    requires i < |s.rows|
  {
    SavedRow(s, i) || exists n :: n in team && Takes(s, cores, duty, n, i)
  }

  /** Every row that is not done is ahead of the obstacles, or someone of the team takes it. */
  ghost predicate Staffed(s: State, cores: Cores, duty: map<nat, nat>, team: set<nat>) {
    forall i | 0 <= i < |s.rows| && s.rows[i].result == NO_INIT :: Supported(s, cores, duty, team, i)
  }

  // ---- Enough: serving who takes the next task ----

  /** The daemon knows the project of the task that is next. */
  predicate KnowsNext(c: Conn, rows: seq<Row<nat>>) {
    var k := FirstEligible(rows);
    k < |rows| ==> rows[k].message.project in c.projects
  }

  predicate Onward(s: State, e: Step, cores: Cores)
    requires Enabled(s, e)
  {
    e.Serve? || Forward(s, e, cores)
  }

  lemma {:induction false} SentHealthy(rows: seq<Row<nat>>, n: nat, credit: int, c: Conn)
    requires Healthy(c) && KnowsNext(c, rows)
    ensures Healthy(c.(down := c.down + TaskPackets(Told(SendTask(rows, n, credit).sent))))
  {
    var sent := SendTask(rows, n, credit).sent;
    var down := c.down + TaskPackets(Told(sent));
    assert sent.Some? ==> rows[FirstEligible(rows)].message == sent.value;
    assert forall j | 0 <= j < |down| :: !Blocks(down[j], c.projects);
  }

  lemma {:induction false} HeardHealthy(rows: seq<Row<nat>>, n: nat, c: Conn, save: Result -> int)
    requires c.up != [] && Healthy(c) && KnowsNext(c, rows)
    ensures Healthy(Heard(c, ReceivePacket(rows, n, c.ip, c.credit, c.up[0], save)))
  {
    if c.up[0].info.Some? {
      SentHealthy(rows, n, c.up[0].info.value, c);
    } else {
      assert c.down + TaskPackets([]) == c.down;
    }
  }

  lemma {:induction false} OnwardIsHealthy(s: State, e: Step, cores: Cores)
    requires Enabled(s, e) && Onward(s, e, cores) && Healthy(s.conns[e.n]) && KnowsNext(s.conns[e.n], s.rows)
    ensures var t := Next(s, e);
            e.n in t.conns && Healthy(t.conns[e.n]) && t.conns[e.n].projects == s.conns[e.n].projects
  {
    var n, c := e.n, s.conns[e.n];
    match e
    case Serve(_) => SentHealthy(s.rows, n, c.credit, c);
    case ServerRecv(_, save) => HeardHealthy(s.rows, n, c, save);
    case DaemonRecv(_, _, _) => TakenHealth(c);
    case DaemonWork(_, _) => GoodWork(c, cores(n), 0);
  }

  /** An unused connection stays so unless it is given a task. */
  lemma {:induction false} OnwardIsUnused(s: State, e: Step, cores: Cores)
    requires Enabled(s, e) && Onward(s, e, cores) && Unused(s.conns[e.n]) && !Sends(s, e, e.n)
    ensures var t := Next(s, e);
            e.n in t.conns && Unused(t.conns[e.n])
  {
    var c, c' := s.conns[e.n], Next(s, e).conns[e.n];
    if e.DaemonRecv? {
      TasksDownPop(c.down, |c.down|);
    } else {
      assert c'.down == c.down;
    }
  }

  lemma {:induction false} OnwardSaves(s: State, e: Step, cores: Cores, i: nat)
    requires Inv(s) && Enabled(s, e) && Onward(s, e, cores) && i < |s.rows| && SavedRow(s, i)
    ensures var t := Next(s, e);
            |t.rows| == |s.rows| && t.rows[i].message == s.rows[i].message
            && (t.rows[i].result == NO_INIT ==> SavedRow(t, i))
  {
    if e.Serve? {
      StepKeepsShape(s, e);
      var t, x := Next(s, e), s.rows[i].message.id;
      var m :| m in s.conns && Saves(s.conns[m], x);
      AppendSaves(s.conns[m], TaskPackets(Told(SendTask(s.rows, e.n, s.conns[e.n].credit).sent)), x);
      assert Saves(t.conns[m], x);
    } else {
      ForwardSaves(s, e, cores, i);
    }
  }

  /** The task that is handed out over a connection without an obstacle is ahead of them all. */
  lemma {:induction false} SentIsSaved(s: State, e: Step, cores: Cores)
    requires Inv(s) && Enabled(s, e) && Onward(s, e, cores) && Sends(s, e, e.n)
    requires Healthy(s.conns[e.n]) && KnowsNext(s.conns[e.n], s.rows)
    ensures var t, k := Next(s, e), FirstEligible(s.rows);
            |t.rows| == |s.rows| && SavedRow(t, k)
  {
    var t, k, c := Next(s, e), FirstEligible(s.rows), s.conns[e.n];
    StepKeepsShape(s, e);
    OnwardIsHealthy(s, e, cores);
    var c' := t.conns[e.n];
    assert Hands(c'.down[|c.down|], s.rows[k].message.id);
    assert Saves(c', t.rows[k].message.id);
  }

  /** Who takes a task still does after a step of its own, unless it was handed this one. */
  lemma {:induction false} StaysTaken(s: State, e: Step, cores: Cores, duty: map<nat, nat>, i: nat)
    requires Enabled(s, e) && Onward(s, e, cores) && i < |s.rows| && Takes(s, cores, duty, e.n, i)
    requires var k := FirstEligible(s.rows);
             k < |s.rows| ==> Takes(s, cores, duty, e.n, k)
    requires |Next(s, e).rows| == |s.rows| && Next(s, e).rows[i].message == s.rows[i].message
    ensures (i == FirstEligible(s.rows) && Sends(s, e, e.n)) || Takes(Next(s, e), cores, duty, e.n, i)
  {
    OnwardIsHealthy(s, e, cores);
    if Unused(s.conns[e.n]) && !Sends(s, e, e.n) { OnwardIsUnused(s, e, cores); }
  }

  lemma {:induction false} StaysSupported(
    s: State, e: Step, cores: Cores, duty: map<nat, nat>, team: set<nat>, i: nat)
    requires Inv(s) && Enabled(s, e) && Onward(s, e, cores) && i < |s.rows|
    requires Supported(s, cores, duty, team, i)
    requires var k := FirstEligible(s.rows);
             k < |s.rows| ==> Takes(s, cores, duty, e.n, k)
    ensures var t := Next(s, e);
            |t.rows| == |s.rows| && (t.rows[i].result == NO_INIT ==> Supported(t, cores, duty, team, i))
  {
    var t, k := Next(s, e), FirstEligible(s.rows);
    StepKeepsShape(s, e);
    if SavedRow(s, i) {
      OnwardSaves(s, e, cores, i);
    } else {
      var n :| n in team && Takes(s, cores, duty, n, i);
      if i == k && Sends(s, e, e.n) {
        SentIsSaved(s, e, cores);
      } else {
        if n == e.n { StaysTaken(s, e, cores, duty, i); }
        assert Takes(t, cores, duty, n, i);
      }
    }
  }

  // ---- Enough: getting rid of the rest ----

  lemma {:induction false} IdleIsLost(c: Conn, x: nat)
    requires !Busy(c) && (c.open ==> c.down != [])
    ensures Lost(c, x)
  {
  }

  /** What happens to a connection on which everything is lost is of no importance. */
  lemma {:induction false} LostIsNoLoss(
    s: State, e: Step, cores: Cores, duty: map<nat, nat>, team: set<nat>, i: nat)
    requires Enabled(s, e) && (e.DaemonRecv? || e.Disconnect?) && i < |s.rows| && Supported(s, cores, duty, team, i)
    requires forall x :: Lost(s.conns[e.n], x)
    ensures var t := Next(s, e);
            |t.rows| == |s.rows| && t.rows[i].result == s.rows[i].result && Supported(t, cores, duty, team, i)
  {
    var t, x := Next(s, e), s.rows[i].message.id;
    if SavedRow(s, i) {
      var m :| m in s.conns && Saves(s.conns[m], x);
      assert Lost(s.conns[e.n], x) && Saves(t.conns[m], x);
    } else {
      var n :| n in team && Takes(s, cores, duty, n, i);
      assert Lost(s.conns[e.n], x);
      assert Takes(t, cores, duty, n, i);
    }
  }

  // ---- An eligible task is on no connection ----

  lemma {:induction false} TaskIsCounted(ts: seq<DaemonTask>, j: nat, k: nat, x: nat)
    requires j < k <= |ts| && ts[j].id == x
    ensures TasksWith(ts, k, x) > 0
  {
    if j < k - 1 { TaskIsCounted(ts, j, k - 1, x); }
  }

  lemma {:induction false} PacketIsCounted(ps: seq<MasterPacket>, j: nat, k: nat, x: nat)
    requires j < k <= |ps| && Hands(ps[j], x)
    ensures PacketsWith(ps, k, x) > 0
  {
    if j < k - 1 { PacketIsCounted(ps, j, k - 1, x); }
  }

  lemma {:induction false} SavedHasPlace(c: Conn, x: nat)
    requires Saves(c, x)
    ensures Places(c, x) > 0
  {
    if Back(c, x) {
      var j :| 0 <= j < |c.up| && Carries(c.up[j], x);
      QueuedIsCounted(c.up, j, |c.up|, x);
    } else if TaskAhead(c, x) {
      var j :| 0 <= j < |c.tasks| && j <= FirstDoomed(c.tasks) && c.tasks[j].id == x;
      TaskIsCounted(c.tasks, j, |c.tasks|, x);
    } else {
      var j :| 0 <= j < FirstBlock(c.down, c.projects) && Hands(c.down[j], x);
      PacketIsCounted(c.down, j, |c.down|, x);
    }
  }

  lemma {:induction false} EligibleIsNotSaved(s: State, k: nat)
    requires Inv(s) && k < |s.rows| && Eligible(s.rows[k])
    ensures !SavedRow(s, k)
  {
    var x := s.rows[k].message.id;
    forall m | m in s.conns ensures !Saves(s.conns[m], x) {
      forall i | 0 <= i < |s.rows| ensures !Owns(s.rows[i], m, x) {
        if s.rows[i].message.id == x { SameRow(s.rows, i, k); }
      }
      NoRowNotOwned(s.rows, m, x, |s.rows|);
      assert Balanced(s.rows, m, s.conns[m], x);
      if Saves(s.conns[m], x) { SavedHasPlace(s.conns[m], x); }
    }
  }

  /** With all connections open and idle, what is not done is eligible. */
  lemma {:induction false} IdleHasTask(s: State)
    requires Inv(s) && !EveryRowDone(s.rows) && forall n | n in s.conns :: Quiet(s.conns[n])
    ensures FirstEligible(s.rows) < |s.rows|
  {
    var i :| 0 <= i < |s.rows| && s.rows[i].result == NO_INIT;
    if s.rows[i].node.Some? { IdleOwnsNothing(s, s.rows[i].node.value, i); }
    assert Eligible(s.rows[i]);
  }

  // ---- Enough: the run ----

  /** What is known of the team in every state a run reaches. */
  ghost predicate Ready(s: State, cores: Cores, team: set<nat>) {
    && Inv(s) && AllSpent(s.conns) && |s.rows| <= 0x8000_0000
    && forall n | n in team :: cores(n) < 0x8000_0000 && PacedOn(s.conns, n, cores(n))
  }

  lemma {:induction false} StaysReady(s: State, e: Step, cores: Cores, team: set<nat>)
    requires Ready(s, cores, team) && Enabled(s, e) && !e.Connect? && Regular(e, cores)
    ensures Ready(Next(s, e), cores, team)
  {
    var t := Next(s, e);
    StepKeepsInv(s, e);
    SameSize(s, e);
    forall m | m in t.conns ensures Spent(t.conns[m]) { StepKeepsSpent(s, e, m); }
    forall n | n in team ensures PacedOn(t.conns, n, cores(n)) {
      if n in t.conns && t.conns[n].open { StepKeepsPace(s, e, n, cores(n)); }
    }
  }

  lemma {:induction false} QuietHasCredit(c: Conn, f: nat)
    requires Healthy(c) && !Busy(c) && Spent(c) && Paced(c, f) && (f >= 2 || (f == 1 && !c.resulted))
    ensures c.credit > 0
  {
    assert Quiet(c);
  }

  /** With a task to hand out, a step of one who takes it. */
  lemma {:induction false} ServingStep(
    s: State, cores: Cores, duty: map<nat, nat>, team: set<nat>, save: Result -> int) returns (e: Step)
    requires Ready(s, cores, team) && Staffed(s, cores, duty, team) && FirstEligible(s.rows) < |s.rows|
    ensures Enabled(s, e) && Gentle(s, e) && Regular(e, cores) && Onward(s, e, cores) && Productive(s, e)
    ensures Takes(s, cores, duty, e.n, FirstEligible(s.rows))
  {
    var k := FirstEligible(s.rows);
    EligibleIsNotSaved(s, k);
    assert Supported(s, cores, duty, team, k);
    var n :| n in team && Takes(s, cores, duty, n, k);
    var c := s.conns[n];
    if Busy(c) {
      e := BusyGoesForward(s, n, cores, save);
    } else {
      QuietHasCredit(c, cores(n));
      e := Serve(n);
    }
  }

  /** Without one, forward wherever something is on its way; where an obstacle is next, into it; and the
      connections that have closed go. */
  lemma {:induction false} ClearingStep(s: State, cores: Cores, save: Result -> int) returns (e: Step)
    requires Inv(s) && !EveryRowDone(s.rows) && FirstEligible(s.rows) == |s.rows|
    ensures Enabled(s, e) && Gentle(s, e) && Regular(e, cores)
    ensures if e.Disconnect? then e.n in s.conns else Productive(s, e)
    ensures Onward(s, e, cores) || ((e.DaemonRecv? || e.Disconnect?) && forall x :: Lost(s.conns[e.n], x))
  {
    if m :| m in s.conns && Busy(s.conns[m]) {
      e := BusyGoesForward(s, m, cores, save);
    } else if m :| m in s.conns && (s.conns[m].open ==> s.conns[m].down != []) {
      forall x ensures Lost(s.conns[m], x) { IdleIsLost(s.conns[m], x); }
      e := if s.conns[m].open then DaemonRecv(m, true, true) else Disconnect(m);
    } else {
      IdleHasTask(s);
    }
  }

  lemma {:induction false} SameConns(s: State, e: Step)
    requires Enabled(s, e) && !e.Connect?
    ensures |Next(s, e).conns| == if e.Disconnect? then |s.conns| - 1 else |s.conns|
  {
    var t := Next(s, e);
    if e.Disconnect? {
      assert t.conns.Keys == s.conns.Keys - {e.n};
    } else {
      assert t.conns.Keys == s.conns.Keys;
    }
    assert |s.conns| == |s.conns.Keys| && |t.conns| == |t.conns.Keys|;
  }

  lemma {:induction false} NextStep(
    s: State, cores: Cores, duty: map<nat, nat>, team: set<nat>, save: Result -> int) returns (e: Step)
    requires Ready(s, cores, team) && Staffed(s, cores, duty, team) && !EveryRowDone(s.rows)
    ensures Enabled(s, e) && Gentle(s, e) && Regular(e, cores)
    ensures if e.Disconnect? then e.n in s.conns else Productive(s, e)
    ensures Staffed(Next(s, e), cores, duty, team)
  {
    if FirstEligible(s.rows) < |s.rows| {
      e := ServingStep(s, cores, duty, team, save);
    } else {
      e := ClearingStep(s, cores, save);
    }
    var t := Next(s, e);
    forall i | 0 <= i < |t.rows| && t.rows[i].result == NO_INIT ensures Supported(t, cores, duty, team, i) {
      StaysDone(s, e, i);
      if Onward(s, e, cores) {
        StaysSupported(s, e, cores, duty, team, i);
      } else {
        LostIsNoLoss(s, e, cores, duty, team, i);
      }
    }
  }

  lemma {:induction false} Finish(
    s: State, cores: Cores, duty: map<nat, nat>, team: set<nat>, save: Result -> int) returns (es: seq<Step>)
    requires Ready(s, cores, team) && Staffed(s, cores, duty, team)
    ensures Finishes(s, es, cores)
    decreases |s.conns|, Energy(s)
  {
    if EveryRowDone(s.rows) {
      es := [];
    } else {
      var e := NextStep(s, cores, duty, team, save);
      StepPays(s, e);
      SameConns(s, e);
      StaysReady(s, e, cores, team);
      var rest := Finish(Next(s, e), cores, duty, team, save);
      OneMore(s, e, rest, cores);
      es := [e] + rest;
    }
  }

  /** Everyone of the team always met the same count of cores. */
  predicate SteadyTeam(past: seq<Step>, cores: Cores, team: set<nat>) {
    forall n | n in team :: cores(n) < 0x8000_0000 && AllSteady(past, n, cores(n))
  }

  /** Enough. Wherever a run has got to: if every task that is not done is ahead of the obstacles, or taken by someone
      of a team of daemons that are steady, then everything can still be done, with no daemon coming in and none
      dropped that has not closed. The other daemons may have any cores. */
  lemma {:induction false} StaffedCanBeFinished(
    s: State, past: seq<Step>, cores: Cores, duty: map<nat, nat>, team: set<nat>, save: Result -> int)
    returns (es: seq<Step>)
    requires Init(s) && ValidRun(s, past) && |s.rows| <= 0x8000_0000 && SteadyTeam(past, cores, team)
    requires Staffed(Run(s, past), cores, duty, team)
    ensures Finishes(Run(s, past), es, cores)
  {
    var t := Run(s, past);
    InitInv(s);
    RunKeepsInv(s, past);
    RunKeepsSpent(s, past);
    RunSize(s, past);
    forall n | n in team ensures PacedOn(t.conns, n, cores(n)) { RunKeepsPace(s, past, n, cores(n)); }
    es := Finish(t, cores, duty, team, save);
  }

  /** The daemon knows the project of every task that is not done. */
  predicate Knows(c: Conn, rows: seq<Row<nat>>) {
    forall i | 0 <= i < |rows| && rows[i].result == NO_INIT :: rows[i].message.project in c.projects
  }

  /** In particular if one connection has no obstacle on it, and its daemon always met the same count of two cores or
      more and knows the projects of all that is not done. */
  lemma {:induction false} EveryTaskCanBeFinished(
    s: State, past: seq<Step>, n: nat, cores: Cores, save: Result -> int) returns (es: seq<Step>)
    requires Init(s) && ValidRun(s, past) && AllSteady(past, n, cores(n))
    requires 2 <= cores(n) < 0x8000_0000 && |s.rows| <= 0x8000_0000
    requires var t := Run(s, past);
             n in t.conns && Healthy(t.conns[n]) && Knows(t.conns[n], t.rows)
    ensures Finishes(Run(s, past), es, cores)
  {
    var t := Run(s, past);
    assert forall i | 0 <= i < |t.rows| && t.rows[i].result == NO_INIT :: Takes(t, cores, map[], n, i);
    es := StaffedCanBeFinished(s, past, cores, map[], {n}, save);
  }

  // ---- Needed: back along a run that finishes ----

  /** Who has one core or none has kept within it. */
  ghost predicate Thrifty(s: State, cores: Cores) {
    forall n | n in s.conns && cores(n) <= 1 :: FrugalOn(s.conns, n, cores(n))
  }

  lemma {:induction false} StaysThrifty(s: State, e: Step, cores: Cores)
    requires Thrifty(s, cores) && Enabled(s, e) && !e.Connect? && Regular(e, cores)
    ensures Thrifty(Next(s, e), cores)
  {
    var t := Next(s, e);
    forall n | n in t.conns && cores(n) <= 1 ensures FrugalOn(t.conns, n, cores(n)) {
      StepKeepsFrugal(s, e, n, cores(n));
    }
  }

  /** The duties before a step: who is handed a task by it was there for this task. */
  function Before(s: State, e: Step, duty: map<nat, nat>): map<nat, nat>
    requires Enabled(s, e)
  {
    if (e.Serve? || e.ServerRecv?) && Sends(s, e, e.n) then duty[e.n := FirstEligible(s.rows)] else duty
  }

  lemma {:induction false} UnusedBefore(s: State, e: Step, m: nat)
    requires Enabled(s, e) && !e.Connect? && m in Next(s, e).conns
    requires Next(s, e).conns[m].open && Unused(Next(s, e).conns[m])
    ensures m in s.conns && Unused(s.conns[m]) && !Sends(s, e, m)
  {
    var c, c' := s.conns[m], Next(s, e).conns[m];
    match e
    case Serve(n) => TasksDownSent(c.down, SendTask(s.rows, n, s.conns[n].credit).sent);
    case ServerRecv(n, save) =>
      if m == n {
        if c.up[0].info.Some? {
          TasksDownSent(c.down, SendTask(s.rows, n, c.up[0].info.value).sent);
        } else {
          assert c'.down == c.down;
        }
      }
    case SendClose(n) => TasksDownJoin(c.down, [MasterPacket(None, true)], |c.down| + 1);
    case DaemonRecv(n, _, _) =>
      if m == n { TasksDownPop(c.down, |c.down|); }
    case DaemonWork(n, obs) =>
      if m == n { PassSizes(c.tasks, obs, |c.tasks|); }
    case _ =>
  }

  /** Who has one core and is handed a task was unused. */
  lemma {:induction false} SentToUnused(s: State, e: Step, cores: Cores, m: nat)
    requires Thrifty(s, cores) && Enabled(s, e) && m in s.conns && s.conns[m].open && Sends(s, e, m)
    ensures cores(m) >= 2 || (cores(m) == 1 && Unused(s.conns[m]))
  {
    var c := s.conns[m];
    if cores(m) <= 1 {
      assert FrugalOn(s.conns, m, cores(m));
      if e.ServerRecv? { OffersPop(c.up, |c.up|); }
    }
  }

  /** A row that was done or supported after a step was supported before it. */
  lemma {:induction false} SupportedBefore(s: State, e: Step, cores: Cores, duty: map<nat, nat>, i: nat)
    requires Inv(s) && Thrifty(s, cores) && Enabled(s, e) && !e.Connect?
    requires i < |s.rows| == |Next(s, e).rows| && s.rows[i].result == NO_INIT
    requires var t := Next(s, e);
             t.rows[i].result == NO_INIT ==> Supported(t, cores, duty, t.conns.Keys, i)
    ensures Supported(s, cores, Before(s, e, duty), s.conns.Keys, i)
  {
    var t, x := Next(s, e), s.rows[i].message.id;
    StepKeepsShape(s, e);
    if t.rows[i].result != NO_INIT {
      DoneWasBack(s, e, i);
    } else if SavedRow(t, i) {
      var m :| m in t.conns && Saves(t.conns[m], x);
      SavedBefore(s, e, cores, duty, i, m);
    } else {
      var n :| n in t.conns && Takes(t, cores, duty, n, i);
      TakerBefore(s, e, cores, duty, i, n);
    }
  }

  lemma {:induction false} TakerBefore(s: State, e: Step, cores: Cores, duty: map<nat, nat>, i: nat, n: nat)
    requires Enabled(s, e) && !e.Connect? && i < |s.rows| == |Next(s, e).rows|
    requires Next(s, e).rows[i].message == s.rows[i].message && Takes(Next(s, e), cores, duty, n, i)
    ensures Takes(s, cores, Before(s, e, duty), n, i)
  {
    BeforeStep(s, e, n, 0);
    if Unused(Next(s, e).conns[n]) { UnusedBefore(s, e, n); }
  }

  lemma {:induction false} DoneWasBack(s: State, e: Step, i: nat)
    requires Enabled(s, e) && i < |s.rows| == |Next(s, e).rows|
    requires s.rows[i].result == NO_INIT && Next(s, e).rows[i].result != NO_INIT
    ensures SavedRow(s, i)
  {
    var x := s.rows[i].message.id;
    if e.ServerRecv? && Carries(s.conns[e.n].up[0], x) {
      assert Saves(s.conns[e.n], x);
    } else {
      ResultStays(s, e, i);
    }
  }

  lemma {:induction false} SavedBefore(s: State, e: Step, cores: Cores, duty: map<nat, nat>, i: nat, m: nat)
    requires Inv(s) && Thrifty(s, cores) && Enabled(s, e) && !e.Connect? && i < |s.rows|
    requires m in Next(s, e).conns && Saves(Next(s, e).conns[m], s.rows[i].message.id)
    ensures Supported(s, cores, Before(s, e, duty), s.conns.Keys, i)
  {
    var x := s.rows[i].message.id;
    BeforeStep(s, e, m, x);
    if !Saves(s.conns[m], x) {
      SameRow(s.rows, i, FirstEligible(s.rows));
      SentToUnused(s, e, cores, m);
      assert Takes(s, cores, Before(s, e, duty), m, i);
    }
  }

  lemma {:induction false} StaffedBefore(s: State, es: seq<Step>, cores: Cores) returns (duty: map<nat, nat>)
    requires Inv(s) && Thrifty(s, cores) && Continues(s, es, cores) && EveryRowDone(Run(s, es).rows)
    ensures Staffed(s, cores, duty, s.conns.Keys)
    decreases |es|
  {
    if es == [] {
      duty := map[];
    } else {
      var e, t := es[0], Next(s, es[0]);
      StepKeepsInv(s, e);
      SameSize(s, e);
      StaysThrifty(s, e, cores);
      assert forall j | 0 <= j < |es[1..]| :: es[1..][j] == es[j + 1];
      var later := StaffedBefore(t, es[1..], cores);
      duty := Before(s, e, later);
      forall i | 0 <= i < |s.rows| && s.rows[i].result == NO_INIT
        ensures Supported(s, cores, duty, s.conns.Keys, i)
      {
        SupportedBefore(s, e, cores, later, i);
      }
    }
  }

  // ---- Exactly when ----

  /** Exactly when. Wherever a run has got to with daemons that keep their cores, however many, and whatever projects
      each of them knows: the build can be finished if and only if every task that is not done is ahead of the
      obstacles, or there is a connection without one whose daemon knows its project and either has two cores or
      more, or has one, unused, and no other task to take. */
  lemma {:induction false} FinishableExactly(s: State, past: seq<Step>, cores: Cores)
    requires Init(s) && ValidRun(s, past) && |s.rows| <= 0x8000_0000
    requires SteadyTeam(past, cores, Run(s, past).conns.Keys)
    ensures var t := Run(s, past);
            Finishable(t, cores) <==> exists duty :: Staffed(t, cores, duty, t.conns.Keys)
  {
    var t := Run(s, past);
    if duty :| Staffed(t, cores, duty, t.conns.Keys) {
      var es := StaffedCanBeFinished(s, past, cores, duty, t.conns.Keys, (r: Result) => 0);
      assert Continues(t, es, cores) && EveryRowDone(Run(t, es).rows);
    }
    if Finishable(t, cores) {
      InitInv(s);
      RunKeepsInv(s, past);
      forall n | n in t.conns && cores(n) <= 1 ensures FrugalOn(t.conns, n, cores(n)) {
        RunKeepsFrugal(s, past, n, cores(n));
      }
      var es :| Continues(t, es, cores) && EveryRowDone(Run(t, es).rows);
      var duty := StaffedBefore(t, es, cores);
    }
  }

  /** A connection saves the row, or has no obstacle and a daemon that knows the project. */
  predicate Serves(s: State, n: nat, i: nat)
    requires i < |s.rows|
  {
    && n in s.conns
    && var c, m := s.conns[n], s.rows[i].message;
       Saves(c, m.id) || (Healthy(c) && m.project in c.projects)
  }

  ghost predicate Served(s: State) {
    forall i | 0 <= i < |s.rows| && s.rows[i].result == NO_INIT :: exists n :: Serves(s, n, i)
  }

  /** With two cores or more everywhere, each task can be looked at by itself. */
  lemma {:induction false} ServedExactly(s: State, past: seq<Step>, cores: Cores)
    requires Init(s) && ValidRun(s, past) && |s.rows| <= 0x8000_0000
    requires forall n | n in Run(s, past).conns :: 2 <= cores(n) < 0x8000_0000 && AllSteady(past, n, cores(n))
    ensures Finishable(Run(s, past), cores) <==> Served(Run(s, past))
  {
    var t := Run(s, past);
    FinishableExactly(s, past, cores);
    forall i, duty | 0 <= i < |t.rows|
      ensures Supported(t, cores, duty, t.conns.Keys, i) <==> exists n :: Serves(t, n, i)
    {
      EachServes(t, cores, duty, i);
    }
    if Served(t) { assert Staffed(t, cores, map[], t.conns.Keys); }
  }

  lemma {:induction false} EachServes(s: State, cores: Cores, duty: map<nat, nat>, i: nat)
    requires i < |s.rows| && forall n | n in s.conns :: cores(n) >= 2
    ensures Supported(s, cores, duty, s.conns.Keys, i) <==> exists n :: Serves(s, n, i)
  {
    assert forall n | n in s.conns ::
      Serves(s, n, i) <==> Saves(s.conns[n], s.rows[i].message.id) || Takes(s, cores, duty, n, i);
  }

  // ---- Special cases ----

  /** All daemons were started with projects of the same names. */
  ghost predicate Alike(s: State, known: set<string>) {
    forall n | n in s.conns :: s.conns[n].projects.Keys == known
  }

  predicate AllKnown(rows: seq<Row<nat>>, known: set<string>) {
    forall i | 0 <= i < |rows| && rows[i].result == NO_INIT :: rows[i].message.project in known
  }

  lemma {:induction false} UnknownIsHopeless(s: State, known: set<string>, es: seq<Step>, cores: Cores)
    requires Inv(s) && Origin(s) && Alike(s, known) && !AllKnown(s.rows, known) && Continues(s, es, cores)
    ensures !EveryRowDone(Run(s, es).rows)
  {
    var i :| 0 <= i < |s.rows| && s.rows[i].result == NO_INIT && s.rows[i].message.project !in known;
    assert forall n | n in s.conns :: s.rows[i].message.project !in s.conns[n].projects.Keys;
    StrangeStays(s, es, i);
  }

  /** For daemons that are configured alike: the projects of all that is not done are known, and there is a
      connection without an obstacle or all that is not done is ahead of every obstacle. */
  lemma {:induction false} AlikeExactly(s: State, past: seq<Step>, known: set<string>, cores: Cores)
    requires Init(s) && ValidRun(s, past) && |s.rows| <= 0x8000_0000 && Alike(Run(s, past), known)
    requires forall n | n in Run(s, past).conns :: 2 <= cores(n) < 0x8000_0000 && AllSteady(past, n, cores(n))
    ensures var t := Run(s, past);
            Finishable(t, cores) <==> AllKnown(t.rows, known) && (SomeHealthy(t) || Saved(t))
  {
    var t := Run(s, past);
    ServedExactly(s, past, cores);
    if Finishable(t, cores) {
      InitInv(s);
      RunKeepsInv(s, past);
      RunKeepsOrigin(s, past);
      var es :| Continues(t, es, cores) && EveryRowDone(Run(t, es).rows);
      if !AllKnown(t.rows, known) { UnknownIsHopeless(t, known, es, cores); }
      if !SomeHealthy(t) {
        forall i | 0 <= i < |t.rows| && t.rows[i].result == NO_INIT ensures SavedRow(t, i) {
          var n :| Serves(t, n, i);
          assert Saves(t.conns[n], t.rows[i].message.id);
        }
      }
    }
    if AllKnown(t.rows, known) && (SomeHealthy(t) || Saved(t)) {
      forall i | 0 <= i < |t.rows| && t.rows[i].result == NO_INIT ensures exists n :: Serves(t, n, i) {
        if Saved(t) {
          assert SavedRow(t, i);
          var n :| n in t.conns && Saves(t.conns[n], t.rows[i].message.id);
          assert Serves(t, n, i);
        } else {
          var n :| n in t.conns && Healthy(t.conns[n]);
          assert t.rows[i].message.project in t.conns[n].projects.Keys;
          assert Serves(t, n, i);
        }
      }
    }
  }

  lemma {:induction false} QuietSavesNothing(c: Conn, x: nat)
    requires Quiet(c)
    ensures Healthy(c) && !Saves(c, x) && Held(c) == 0
  {
  }

  /** With one connection, open and idle: exactly when its daemon knows the project of every task that is not
      done. */
  lemma {:induction false} LoneQuietExactly(s: State, past: seq<Step>, n: nat, cores: Cores)
    requires Init(s) && ValidRun(s, past) && |s.rows| <= 0x8000_0000
    requires Run(s, past).conns.Keys == {n} && Quiet(Run(s, past).conns[n])
    requires 2 <= cores(n) < 0x8000_0000 && AllSteady(past, n, cores(n))
    ensures var t := Run(s, past);
            Finishable(t, cores) <==> Knows(t.conns[n], t.rows)
  {
    var t := Run(s, past);
    var known := t.conns[n].projects.Keys;
    AlikeExactly(s, past, known, cores);
    assert n in t.conns && Healthy(t.conns[n]);
    assert Knows(t.conns[n], t.rows) <==> AllKnown(t.rows, known);
  }

  /** And if this daemon has one core: exactly when nothing is left, or only one task, whose project it knows, and
      it has not reported any. */
  lemma {:induction false} LoneCoreExactly(s: State, past: seq<Step>, n: nat, cores: Cores)
    requires Init(s) && ValidRun(s, past) && |s.rows| <= 0x8000_0000
    requires Run(s, past).conns.Keys == {n} && Quiet(Run(s, past).conns[n])
    requires cores(n) == 1 && AllSteady(past, n, 1)
    ensures var t := Run(s, past);
            Finishable(t, cores) <==>
              forall i | 0 <= i < |t.rows| && t.rows[i].result == NO_INIT ::
                && !t.conns[n].resulted && t.rows[i].message.project in t.conns[n].projects
                && forall j | 0 <= j < |t.rows| && t.rows[j].result == NO_INIT :: j == i
  {
    var t := Run(s, past);
    FinishableExactly(s, past, cores);
    forall i, duty | 0 <= i < |t.rows|
      ensures Supported(t, cores, duty, {n}, i) <==> Takes(t, cores, duty, n, i)
    {
      assert n in t.conns;
      QuietSavesNothing(t.conns[n], t.rows[i].message.id);
    }
    if duty :| Staffed(t, cores, duty, {n}) {
      forall i | 0 <= i < |t.rows| && t.rows[i].result == NO_INIT ensures Takes(t, cores, duty, n, i) {
        assert Supported(t, cores, duty, {n}, i);
      }
    }
    if i :| 0 <= i < |t.rows| && t.rows[i].result == NO_INIT {
      QuietSavesNothing(t.conns[n], t.rows[i].message.id);
      var duty := map[n := i];
      assert (forall j | 0 <= j < |t.rows| && t.rows[j].result == NO_INIT :: Takes(t, cores, duty, n, j))
        ==> Staffed(t, cores, duty, {n});
    } else {
      assert Staffed(t, cores, map[], {n});
    }
  }
}
