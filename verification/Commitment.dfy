/** How much work a connection can be holding when messages are delayed at will. A report ignores the tasks
    that are still on their way to the daemon, so the answer depends on the number of cores. */
module Commitment {
  import opened Wrappers
  import opened TaskTable
  import opened ProcessObject
  import opened DaemonClient
  import opened Loader
  import opened Dispatch
  import opened Credit

  // ---- Up to two cores: the bound holds ----

  function Positive(x: int): nat {
    if x > 0 then x else 0
  }

  /** The most a packet on its way back can bring about. */
  function Weight(p: SlavePacket): nat {
    if p.result.Some? then 1 else if p.info.Some? then Positive(p.info.value) else 0
  }

  function Coming(up: seq<SlavePacket>, k: nat): nat
    requires k <= |up|
  {
    if k == 0 then 0 else Coming(up, k - 1) + Weight(up[k - 1])
  }

  predicate Modest(p: SlavePacket, f: nat) {
    p.info.Some? && (p.result.Some? ==> p.info.value < f)
  }

  predicate AllModest(up: seq<SlavePacket>, f: nat) {
    forall j | 0 <= j < |up| :: Modest(up[j], f)
  }

  predicate Bounded(c: Conn, f: nat) {
    Held(c) + Positive(c.credit) + Coming(c.up, |c.up|) <= f && AllModest(c.up, f)
  }

  predicate BoundedOn(conns: map<nat, Conn>, n: nat, f: nat) {
    n in conns && conns[n].open ==> Bounded(conns[n], f)
  }

  lemma {:induction false} ComingJoin(a: seq<SlavePacket>, b: seq<SlavePacket>, k: nat)
    requires k <= |a + b|
    ensures Coming(a + b, k) == if k <= |a| then Coming(a, k) else Coming(a, |a|) + Coming(b, k - |a|)
  {
    if k > 0 { ComingJoin(a, b, k - 1); }
  }

  lemma {:induction false} ComingPop(up: seq<SlavePacket>, k: nat)
    requires 0 < k <= |up|
    ensures Coming(up, k) == Coming(up[1..], k - 1) + Weight(up[0])
  {
    if k > 1 { ComingPop(up, k - 1); }
  }

  lemma {:induction false} HandingOver(rows: seq<Row<nat>>, n: nat, c: Conn, credit: int)
    ensures var h := SendTask(rows, n, credit);
            var down := c.down + TaskPackets(Told(h.sent));
            TasksDown(down, |down|) + Positive(h.credit) == TasksDown(c.down, |c.down|) + Positive(credit)
  {
    TasksDownSent(c.down, SendTask(rows, n, credit).sent);
  }

  lemma {:induction false} HeardBounded(rows: seq<Row<nat>>, n: nat, c: Conn, save: Result -> int, f: nat)
    requires c.up != [] && Bounded(c, f) && f <= 2
    ensures Bounded(Heard(c, ReceivePacket(rows, n, c.ip, c.credit, c.up[0], save)), f)
  {
    assert Modest(c.up[0], f);
    ComingPop(c.up, |c.up|);
    HandingOver(rows, n, c, c.up[0].info.value);
    var c' := Heard(c, ReceivePacket(rows, n, c.ip, c.credit, c.up[0], save));
    forall j | 0 <= j < |c'.up| ensures Modest(c'.up[j], f) { assert Modest(c.up[j + 1], f); }
  }

  lemma {:induction false} SentIsModest(ts: seq<DaemonTask>, obs: seq<Observation>, n: nat, f: nat)
    requires n <= |ts| == |obs| <= 2 && Constant(obs, f) && f <= 2
    ensures var sent := Sent(ts, obs, n);
            AllModest(sent, f) && Coming(sent, |sent|) == |sent| == Finished(ts, obs, n)
  {
    if n > 0 {
      SentIsModest(ts, obs, n - 1, f);
      var size := |ts| - Finished(ts, obs, n - 1);
      PassStep(ts, obs, n - 1, size);
      CreditIsDifference(f, size);
      var front := Sent(ts, obs, n - 1);
      ComingJoin(front, [ReportPacket(ts[n - 1], obs[n - 1], size)], |front|);
    }
  }

  lemma {:induction false} WorkedBounded(c: Conn, obs: seq<Observation>, f: nat)
    requires |obs| == |c.tasks| && Constant(obs, f) && Bounded(c, f) && f <= 2
    ensures Worked(c, obs).open ==> Bounded(Worked(c, obs), f)
  {
    var n := |c.tasks|;
    if FirstStop(c.tasks, obs, n) == n {
      SentIsModest(c.tasks, obs, n, f);
      PassSizes(c.tasks, obs, n);
      var sent := Sent(c.tasks, obs, n);
      ComingJoin(c.up, sent, |c.up| + |sent|);
    }
  }

  lemma {:induction false} StepKeepsBounded(s: State, e: Step, m: nat, f: nat)
    requires Enabled(s, e) && BoundedOn(s.conns, m, f) && Steady(e, m, f) && f <= 2
    requires m in Next(s, e).conns && Next(s, e).conns[m].open
    ensures Bounded(Next(s, e).conns[m], f)
  {
    match e
    case Connect(n, ip, cores, projects) =>
      if m == n { FreshBounded(ip, f, projects); }
    case Serve(n) =>
      if m == n { ServedBounded(s.rows, n, s.conns[n], f); }
    case ServerRecv(n, save) =>
      if m == n { HeardBounded(s.rows, n, s.conns[n], save, f); }
    case Disconnect(n) =>
    case SendClose(n) =>
      TasksDownJoin(s.conns[n].down, [MasterPacket(None, true)], |s.conns[n].down| + 1);
    case Count(i) =>
    case DaemonRecv(n, saved, started) =>
      if m == n { TakenBounded(s.conns[n], saved, started, f); }
    case DaemonWork(n, obs) =>
      if m == n { WorkedBounded(s.conns[n], obs, f); }
  }

  lemma {:induction false} ServedBounded(rows: seq<Row<nat>>, n: nat, c: Conn, f: nat)
    requires Bounded(c, f)
    ensures Bounded(Serving(rows, n, c).1, f)
  {
    HandingOver(rows, n, c, c.credit);
  }

  lemma {:induction false} TakenBounded(c: Conn, saved: bool, started: bool, f: nat)
    requires c.down != [] && Bounded(c, f)
    ensures var c' := Taken(c, saved, started);
            c'.open ==> Bounded(c', f)
  {
    TasksDownPop(c.down, |c.down|);
  }

  lemma {:induction false} FreshBounded(ip: string, f: nat, projects: map<string, Project>)
    requires f <= 2
    ensures Bounded(Fresh(ip, f, projects), f)
  {
    SmallDifference(f);
    var up := Fresh(ip, f, projects).up;
    assert Coming(up, 1) == Coming(up, 0) + Weight(up[0]);
  }

  /** Whatever the other daemons are like: a daemon that always meets the same count of at most two cores never
      holds more tasks than cores. */
  lemma {:induction false} TwoCoresAreBounded(s: State, es: seq<Step>, n: nat, f: nat)
    requires BoundedOn(s.conns, n, f) && ValidRun(s, es) && AllSteady(es, n, f) && f <= 2
    requires n in Run(s, es).conns && Run(s, es).conns[n].open
    ensures Held(Run(s, es).conns[n]) <= f
    decreases |es|
  {
    if es != [] {
      var t := Next(s, es[0]);
      if n in t.conns && t.conns[n].open { StepKeepsBounded(s, es[0], n, f); }
      TwoCoresAreBounded(t, es[1..], n, f);
    }
  }

  // ---- One core: one task ----

  function Offer(p: SlavePacket): nat {
    if p.info.Some? then Positive(p.info.value) else 0
  }

  /** The credit that is on its way back. */
  function Offers(up: seq<SlavePacket>, k: nat): nat
    requires k <= |up|
  {
    if k == 0 then 0 else Offers(up, k - 1) + Offer(up[k - 1])
  }

  /** What the daemon has been handed, can still be handed, and whether it has reported anything. */
  predicate Frugal(c: Conn, f: nat) {
    Held(c) + Positive(c.credit) + Offers(c.up, |c.up|) + One(c.resulted) <= f
  }

  predicate FrugalOn(conns: map<nat, Conn>, n: nat, f: nat) {
    n in conns && conns[n].open ==> Frugal(conns[n], f)
  }

  lemma {:induction false} OffersPop(up: seq<SlavePacket>, k: nat)
    requires 0 < k <= |up|
    ensures Offers(up, k) == Offers(up[1..], k - 1) + Offer(up[0])
  {
    if k > 1 { OffersPop(up, k - 1); }
  }

  lemma {:induction false} HeardFrugal(rows: seq<Row<nat>>, n: nat, c: Conn, save: Result -> int, f: nat)
    requires c.up != [] && Frugal(c, f)
    ensures Frugal(Heard(c, ReceivePacket(rows, n, c.ip, c.credit, c.up[0], save)), f)
  {
    OffersPop(c.up, |c.up|);
    if c.up[0].info.Some? {
      HandingOver(rows, n, c, c.up[0].info.value);
    } else {
      assert c.down + TaskPackets([]) == c.down;
    }
  }

  /** The report of its only task offers nothing any more. */
  lemma {:induction false} WorkedFrugal(c: Conn, obs: seq<Observation>, f: nat)
    requires |obs| == |c.tasks| && Constant(obs, f) && Frugal(c, f) && f <= 1
    ensures Worked(c, obs).open ==> Frugal(Worked(c, obs), f)
  {
    var n := |c.tasks|;
    if n == 1 && FirstStop(c.tasks, obs, n) == n {
      PassStep(c.tasks, obs, 0, 1);
      CreditIsDifference(f, 1);
      var p, sent := ReportPacket(c.tasks[0], obs[0], 1), Sent(c.tasks, obs, 1);
      OneMoreOffer(c.up, p);
      assert if sent == [] then c.up + sent == c.up else sent == [p];
    } else if n == 0 {
      assert c.up + [] == c.up;
    }
  }

  lemma {:induction false} OneMoreOffer(up: seq<SlavePacket>, p: SlavePacket)
    ensures Offers(up + [p], |up| + 1) == Offers(up, |up|) + Offer(p)
  {
    OffersFront(up, p, |up|);
  }

  lemma {:induction false} OffersFront(up: seq<SlavePacket>, p: SlavePacket, k: nat)
    requires k <= |up|
    ensures Offers(up + [p], k) == Offers(up, k)
  {
    if k > 0 { OffersFront(up, p, k - 1); }
  }

  lemma {:induction false} StepKeepsFrugal(s: State, e: Step, m: nat, f: nat)
    requires Enabled(s, e) && FrugalOn(s.conns, m, f) && Steady(e, m, f) && f <= 1
    ensures FrugalOn(Next(s, e).conns, m, f)
  {
    match e
    case Connect(n, ip, cores, projects) =>
      if m == n {
        SmallDifference(f);
        OneMoreOffer([], Greeting(f));
      }
    case Serve(n) => HandingOver(s.rows, n, s.conns[n], s.conns[n].credit);
    case ServerRecv(n, save) =>
      if m == n && s.conns[n].open { HeardFrugal(s.rows, n, s.conns[n], save, f); }
    case SendClose(n) =>
      TasksDownJoin(s.conns[n].down, [MasterPacket(None, true)], |s.conns[n].down| + 1);
    case DaemonRecv(n, saved, started) => TasksDownPop(s.conns[n].down, |s.conns[n].down|);
    case DaemonWork(n, obs) =>
      if m == n { WorkedFrugal(s.conns[n], obs, f); }
    case _ =>
  }

  lemma {:induction false} RunKeepsFrugal(s: State, es: seq<Step>, n: nat, f: nat)
    requires FrugalOn(s.conns, n, f) && ValidRun(s, es) && AllSteady(es, n, f) && f <= 1
    ensures FrugalOn(Run(s, es).conns, n, f)
    decreases |es|
  {
    if es != [] {
      StepKeepsFrugal(s, es[0], n, f);
      RunKeepsFrugal(Next(s, es[0]), es[1..], n, f);
    }
  }

  /** A daemon that always meets one core is handed one task in all: while it has one it has reported none, and
      once it has reported one, in whatever order things arrive, it gets no other. */
  lemma {:induction false} OneCoreGetsOneTask(s: State, es: seq<Step>, n: nat)
    requires Init(s) && ValidRun(s, es) && AllSteady(es, n, 1)
    requires n in Run(s, es).conns && Run(s, es).conns[n].open
    ensures var c := Run(s, es).conns[n];
            Held(c) <= 1 && (c.resulted ==> Held(c) == 0 && c.credit <= 0)
  {
    RunKeepsFrugal(s, es, n, 1);
  }

  // ---- Three cores and more: there is no bound ----

  predicate Leads(s: State, es: seq<Step>, t: State, f: nat) {
    ValidRun(s, es) && t == Run(s, es) && AllSteady(es, 0, f)
  }

  lemma {:induction false} LeadsThen(s: State, es: seq<Step>, t: State, e: Step, f: nat)
    requires Leads(s, es, t, f) && Enabled(t, e) && Steady(e, 0, f)
    ensures Leads(s, es + [e], Next(t, e), f)
  {
    RunUnfolds(t, e, []);
    RunsJoin(s, es, [e]);
  }

  predicate TaskAt(ps: seq<MasterPacket>, j: nat)
    requires j < |ps|
  {
    ps[j].task.Some? && !ps[j].close && ps[j].task.value.project == ""
  }

  predicate AllTasks(ps: seq<MasterPacket>) {
    forall j | 0 <= j < |ps| :: TaskAt(ps, j)
  }

  predicate EligibleFrom(rows: seq<Row<nat>>, m: nat) {
    forall i | 0 <= i < |rows| :: rows[i].message.project == "" && (Eligible(rows[i]) <==> i >= m)
  }

  /** The daemon has nothing yet, `d` tasks are on their way to it, and the rows from `m` on are left. */
  predicate Flow(s: State, m: nat, credit: int, d: nat) {
    && 0 in s.conns && EligibleFrom(s.rows, m)
    && var c := s.conns[0];
       && c.open && c.ip != "" && "" in c.projects && c.credit == credit && c.tasks == [] && c.up == []
       && |c.down| == d && AllTasks(c.down)
  }

  lemma {:induction false} AllTasksCount(ps: seq<MasterPacket>, k: nat)
    requires AllTasks(ps) && k <= |ps|
    ensures TasksDown(ps, k) == k
  {
    if k > 0 {
      AllTasksCount(ps, k - 1);
      assert TaskAt(ps, k - 1);
    }
  }

  lemma {:induction false} SendFlows(rows: seq<Row<nat>>, m: nat, credit: int)
    requires EligibleFrom(rows, m) && m < |rows| && credit > 0
    ensures var h := SendTask(rows, 0, credit);
            && EligibleFrom(h.rows, m + 1) && h.credit == credit - 1
            && |h.rows| == |rows| && h.sent == Some(rows[m].message)
  {
    assert FirstEligible(rows) == m;
  }

  lemma {:induction false} ServeFlows(s: State, m: nat, credit: int, d: nat)
    requires Flow(s, m, credit, d) && m < |s.rows| && credit > 0
    ensures var t := Next(s, Serve(0));
            Flow(t, m + 1, credit - 1, d + 1) && |t.rows| == |s.rows|
  {
    SendFlows(s.rows, m, credit);
    var down, down' := s.conns[0].down, Next(s, Serve(0)).conns[0].down;
    forall j | 0 <= j < |down'| ensures TaskAt(down', j) {
      if j < |down| { assert TaskAt(down, j); }
    }
  }

  /** The server spends all its credit. */
  lemma {:induction false} ServeAll(s: State, es: seq<Step>, t: State, m: nat, credit: nat, d: nat, f: nat)
    returns (es': seq<Step>, t': State)
    requires Leads(s, es, t, f) && Flow(t, m, credit, d) && m + credit <= |t.rows|
    ensures Leads(s, es', t', f) && Flow(t', m + credit, 0, d + credit) && |t'.rows| == |t.rows|
    decreases credit
  {
    if credit == 0 {
      es', t' := es, t;
    } else {
      ServeFlows(t, m, credit, d);
      LeadsThen(s, es, t, Serve(0), f);
      es', t' := ServeAll(s, es + [Serve(0)], Next(t, Serve(0)), m + 1, credit - 1, d + 1, f);
    }
  }

  /** A daemon whose first task is done the moment it arrives. */
  const DONE_AT_ONCE: Query := Some(0)

  function Instant(f: nat): Observation {
    Observation(DONE_AT_ONCE, DONE_AT_ONCE, f, "", true)
  }

  lemma {:induction false} TakeFlows(s: State, m: nat, d: nat) returns (t: State, task: DaemonTask)
    requires Flow(s, m, 0, d) && d > 0
    ensures var e := DaemonRecv(0, true, true);
            && Enabled(s, e) && t == Next(s, e) && t.rows == s.rows && 0 in t.conns
            && t.conns[0].tasks == [task] && task.started
            && Flow(t.(conns := t.conns[0 := t.conns[0].(tasks := [])]), m, 0, d - 1)
  {
    t := Next(s, DaemonRecv(0, true, true));
    var down := s.conns[0].down;
    assert TaskAt(down, 0);
    task := TaskOf(down[0].task.value, s.conns[0].projects[""], true);
    forall j | 0 <= j < |down[1..]| ensures TaskAt(down[1..], j) { assert TaskAt(down, j + 1); }
  }

  lemma {:induction false} InstantReport(task: DaemonTask, f: nat)
    requires task.started && 0 < f < 0x8000_0000
    ensures var p := SlavePacket(Some(f - 1), Some(Result(task.id, 0, EXITED, Some(""))));
            ReportPass([task], [Instant(f)]) == Round([p], [], false)
  {
    CreditIsDifference(f, 1);
    assert !StopsAt([task], [Instant(f)], 0);
    PassStep([task], [Instant(f)], 0, 1);
  }

  /** The report of a task reaches the server before the tasks that are on their way reach the daemon. */
  lemma {:induction false} ReportFlows(s: State, m: nat, d: nat, f: nat, id: nat, save: Result -> int)
    requires 0 in s.conns && 3 <= f && m < |s.rows|
    requires s.conns[0].up == [SlavePacket(Some(f - 1), Some(Result(id, 0, EXITED, Some(""))))]
    requires Flow(s.(conns := s.conns[0 := s.conns[0].(up := [])]), m, 0, d)
    ensures var t := Next(s, ServerRecv(0, save));
            Flow(t, m + 1, f - 2, d + 1) && |t.rows| == |s.rows|
  {
    SendFlows(s.rows, m, f - 1);
    var t := Next(s, ServerRecv(0, save));
    var down, down' := s.conns[0].down, t.conns[0].down;
    forall j | 0 <= j < |down'| ensures TaskAt(down', j) {
      if j < |down| { assert TaskAt(down, j); }
    }
    assert s.conns[0].up[1..] == [];
  }

  lemma {:induction false} OneRound(
    s: State, es: seq<Step>, t: State, m: nat, d: nat, f: nat, save: Result -> int)
    returns (es': seq<Step>, t': State)
    requires Leads(s, es, t, f) && Flow(t, m, 0, d) && d > 0 && 3 <= f < 0x8000_0000 && m + f - 1 <= |t.rows|
    ensures Leads(s, es', t', f) && Flow(t', m + f - 1, 0, d + f - 2) && |t'.rows| == |t.rows|
  {
    var e1, e2, e3 := DaemonRecv(0, true, true), DaemonWork(0, [Instant(f)]), ServerRecv(0, save);
    var t1, task := TakeFlows(t, m, d);
    LeadsThen(s, es, t, e1, f);
    InstantReport(task, f);
    var t2 := Next(t1, e2);
    assert t2.conns[0].up == [] + [SlavePacket(Some(f - 1), Some(Result(task.id, 0, EXITED, Some(""))))];
    LeadsThen(s, es + [e1], t1, e2, f);
    ReportFlows(t2, m, d - 1, f, task.id, save);
    LeadsThen(s, es + [e1] + [e2], t2, e3, f);
    es', t' := ServeAll(s, es + [e1] + [e2] + [e3], Next(t2, e3), m + 1, f - 2, d, f);
  }

  /** The product, by steps. */
  function Times(k: nat, x: nat): (y: nat)
    ensures x > 0 ==> y >= k
  {
    if k == 0 then 0 else Times(k - 1, x) + x
  }

  lemma {:induction false} Rounds(
    s: State, es: seq<Step>, t: State, m: nat, d: nat, f: nat, k: nat, save: Result -> int)
    returns (es': seq<Step>, t': State, m': nat)
    requires Leads(s, es, t, f) && Flow(t, m, 0, d) && d > 0 && 3 <= f < 0x8000_0000
    requires m + Times(k, f - 1) <= |t.rows|
    ensures Leads(s, es', t', f) && Flow(t', m', 0, d + Times(k, f - 2))
    decreases k
  {
    if k == 0 {
      es', t', m' := es, t, m;
    } else {
      var es1, t1 := OneRound(s, es, t, m, d, f, save);
      es', t', m' := Rounds(s, es1, t1, m + f - 1, d + f - 2, f, k - 1, save);
    }
  }

  lemma {:induction false} Opening(
    s: State, f: nat, ip: string, projects: map<string, Project>, save: Result -> int)
    returns (es: seq<Step>, t: State)
    requires "" in projects && Init(s) && EligibleFrom(s.rows, 0) && 3 <= f < 0x8000_0000 && f <= |s.rows| && ip != ""
    ensures Leads(s, es, t, f) && Flow(t, f, 0, f) && |t.rows| == |s.rows|
  {
    var e1, e2 := Connect(0, ip, f, projects), ServerRecv(0, save);
    assert Leads(s, [], s, f);
    LeadsThen(s, [], s, e1, f);
    var s1 := Next(s, e1);
    SmallDifference(f);
    SendFlows(s1.rows, 0, f);
    LeadsThen(s, [] + [e1], s1, e2, f);
    var s2 := Next(s1, e2);
    assert s1.conns[0].up[1..] == [] && TaskAt(s2.conns[0].down, 0);
    es, t := ServeAll(s, [] + [e1] + [e2], s2, 1, f - 1, 1, f);
  }

  /** With three cores or more, the tasks a connection holds grow by `f - 2` with every report that overtakes
      what is still on its way: no bound holds, for any table that is large enough. */
  lemma {:induction false} ThreeCoresAreUnbounded(
    s: State, f: nat, k: nat, ip: string, projects: map<string, Project>, save: Result -> int)
    returns (es: seq<Step>)
    requires "" in projects && Init(s) && 3 <= f < 0x8000_0000 && ip != "" && f + Times(k, f - 1) <= |s.rows|
    requires forall i | 0 <= i < |s.rows| :: s.rows[i].message.project == ""
    ensures ValidRun(s, es) && AllSteady(es, 0, f)
    ensures var t := Run(s, es);
            0 in t.conns && t.conns[0].open && Held(t.conns[0]) == f + Times(k, f - 2)
  {
    var es1, t1 := Opening(s, f, ip, projects, save);
    var es2, t2, m := Rounds(s, es1, t1, f, f, f, k, save);
    es := es2;
    AllTasksCount(t2.conns[0].down, |t2.conns[0].down|);
  }

  // ---- Together ----

  /** Whatever the delays and the other daemons, no daemon with `f` cores that works on its connection has more
      than `b` tasks coming or there. */
  ghost predicate NeverHoldsMoreThan(b: nat, f: nat) {
    forall s, es, n ::
      Init(s) && ValidRun(s, es) && AllSteady(es, n, f) && n in Run(s, es).conns && Run(s, es).conns[n].open
      ==> Held(Run(s, es).conns[n]) <= b
  }

  function Table(k: nat): seq<Row<nat>> {
    seq(k, i requires 0 <= i < k => FreshRow(Message(i, "", "", "", "", "", "", false)))
  }

  /** The number of cores is a bound on what a daemon holds exactly if there are at most two of them; with
      more there is no bound at all. */
  lemma {:induction false} BoundedExactlyUpToTwo(f: nat, b: nat)
    requires f < 0x8000_0000
    ensures f <= 2 ==> NeverHoldsMoreThan(f, f)
    ensures f >= 3 ==> !NeverHoldsMoreThan(b, f)
  {
    if f <= 2 {
      forall s, es, n |
        Init(s) && ValidRun(s, es) && AllSteady(es, n, f) && n in Run(s, es).conns && Run(s, es).conns[n].open
        ensures Held(Run(s, es).conns[n]) <= f
      {
        TwoCoresAreBounded(s, es, n, f);
      }
    } else {
      var s := State(Table(f + Times(b, f - 1)), map[], 0, 0, 0, 0);
      var es := ThreeCoresAreUnbounded(s, f, b, "ip", map["" := Project("", "")], (r: Result) => 0);
      assert Held(Run(s, es).conns[0]) > b;
    }
  }
}
