/** Which codes a run can leave in the table, and so whether the console's two totals can come to the whole of
    it: only the race of a failed first query with a process that is still alive stands in the way. */
module Verdicts {
  import opened Wrappers
  import opened TaskTable
  import opened ProcessObject
  import opened DaemonClient
  import opened Loader
  import opened Dispatch
  import opened Ownership
  import opened Finality
  import L = Lifecycle
  import C = Console

  /** The daemon's two queries about one task, as a process can answer them, and not racing. */
  predicate Settled(o: Observation) {
    CanFollow(o.first, o.second) && !(o.first.None? && o.second == Some(STILL_ACTIVE))
  }

  predicate SettledStep(e: Step) {
    e.DaemonWork? ==> forall j | 0 <= j < |e.obs| :: Settled(e.obs[j])
  }

  predicate AllSettled(es: seq<Step>) {
    forall j | 0 <= j < |es| :: SettledStep(es[j])
  }

  predicate HonestPacket(p: SlavePacket) {
    p.result.Some? ==> HonestCode(p.result.value.processCode)
  }

  predicate HonestUp(up: seq<SlavePacket>) {
    forall j | 0 <= j < |up| :: HonestPacket(up[j])
  }

  predicate HonestRow(r: Row<nat>) {
    r.result == NO_INIT || HonestCode(r.result)
  }

  ghost predicate Honest(s: State) {
    && (forall n | n in s.conns :: HonestUp(s.conns[n].up))
    && (forall i | 0 <= i < |s.rows| :: HonestRow(s.rows[i]))
  }

  lemma {:induction false} ReportIsHonest(t: DaemonTask, o: Observation, size: nat)
    requires Settled(o) && !Running(t, o)
    ensures HonestPacket(ReportPacket(t, o, size))
  {
    ReportedCode(t.started, o.first, o.second);
  }

  lemma {:induction false} SentIsHonest(ts: seq<DaemonTask>, obs: seq<Observation>, n: nat)
    requires n <= |ts| == |obs| && forall j | 0 <= j < |obs| :: Settled(obs[j])
    ensures HonestUp(Sent(ts, obs, n))
  {
    if n > 0 {
      SentIsHonest(ts, obs, n - 1);
      var size := |ts| - Finished(ts, obs, n - 1);
      if !Running(ts[n - 1], obs[n - 1]) { ReportIsHonest(ts[n - 1], obs[n - 1], size); }
    }
  }

  lemma {:induction false} WorkedIsHonest(c: Conn, obs: seq<Observation>)
    requires |obs| == |c.tasks| && HonestUp(c.up) && forall j | 0 <= j < |obs| :: Settled(obs[j])
    ensures HonestUp(Worked(c, obs).up)
  {
    var ts := c.tasks;
    var k := FirstStop(ts, obs, |ts|);
    SentIsHonest(ts, obs, k);
    if k < |ts| {
      assert StopsAt(ts, obs, k);
      ReportIsHonest(ts[k], obs[k], |ts| - Finished(ts, obs, k));
    }
  }

  lemma {:induction false} ReceivedIsHonest(s: State, n: nat, save: Result -> int)
    requires Honest(s) && n in s.conns && s.conns[n].up != []
    ensures Honest(Received(s, n, save))
  {
    var up := s.conns[n].up;
    assert HonestUp(up) && HonestPacket(up[0]);
    forall j | 0 <= j < |up[1..]| ensures HonestPacket(up[1..][j]) { assert HonestPacket(up[j + 1]); }
  }

  lemma {:induction false} StepKeepsHonest(s: State, e: Step)
    requires Honest(s) && Enabled(s, e) && SettledStep(e)
    ensures Honest(Next(s, e))
  {
    match e
    case Connect(n, ip, cores, projects) =>
    case Serve(n) => assert HonestUp(s.conns[n].up);
    case ServerRecv(n, save) => ReceivedIsHonest(s, n, save);
    case Disconnect(n) =>
    case SendClose(n) => assert HonestUp(s.conns[n].up);
    case Count(i) => assert HonestRow(s.rows[i]);
    case DaemonRecv(n, saved, started) => assert HonestUp(s.conns[n].up);
    case DaemonWork(n, obs) => WorkedIsHonest(s.conns[n], obs);
  }

  lemma {:induction false} RunKeepsHonest(s: State, es: seq<Step>)
    requires Honest(s) && ValidRun(s, es) && AllSettled(es)
    ensures Honest(Run(s, es))
    decreases |es|
  {
    if es != [] {
      assert SettledStep(es[0]);
      forall j | 0 <= j < |es[1..]| ensures SettledStep(es[1..][j]) { assert SettledStep(es[j + 1]); }
      StepKeepsHonest(s, es[0]);
      RunKeepsHonest(Next(s, es[0]), es[1..]);
    }
  }

  /** When every task has been booked, success and error come to the whole table: the build's result accounts
      for every task, whatever the daemons did, died of or were delayed by. */
  lemma {:induction false} EveryTaskHasAVerdict(s: State, es: seq<Step>)
    requires Init(s) && ValidRun(s, es) && AllSettled(es)
    ensures var t := Run(s, es);
            && (forall i | 0 <= i < |t.rows| :: HonestRow(t.rows[i]))
            && t.applied <= |t.rows|
            && (t.applied == |t.rows| <==>
                  C.Finished(t.rows, true, |t.rows|) + C.Finished(t.rows, false, |t.rows|) == |t.rows|)
  {
    RunKeepsHonest(s, es);
    var t := Run(s, es);
    assert Reachable(t);
    ConservationLaw(t);
    AllDone(t.rows, |t.rows|);
    ReachableInv(t);
    C.TwoCodes(t.rows, |t.rows|);
    assert forall i | 0 <= i < |t.rows| :: HonestRow(t.rows[i]);
  }

  // ---- Runs with races ----

  /** The server reads a result whose code is not one of the two final ones. */
  predicate ReadsRace(s: State, e: Step)
    requires Enabled(s, e)
  {
    e.ServerRecv? && !HonestPacket(s.conns[e.n].up[0])
  }

  /** How often that happens in a run. */
  function Races(s: State, es: seq<Step>): nat
    requires ValidRun(s, es)
    decreases |es|
  {
    if es == [] then 0 else (if ReadsRace(s, es[0]) then 1 else 0) + Races(Next(s, es[0]), es[1..])
  }

  function RacedRows(rows: seq<Row<nat>>, k: nat): nat
    requires k <= |rows|
  {
    if k == 0 then 0 else RacedRows(rows, k - 1) + if HonestRow(rows[k - 1]) then 0 else 1
  }

  predicate SameResults(rows: seq<Row<nat>>, rows': seq<Row<nat>>) {
    |rows'| == |rows| && forall i | 0 <= i < |rows| :: rows'[i].result == rows[i].result
  }

  lemma {:induction false} RacedStay(rows: seq<Row<nat>>, rows': seq<Row<nat>>, k: nat)
    requires SameResults(rows, rows') && k <= |rows|
    ensures RacedRows(rows', k) == RacedRows(rows, k)
  {
    if k > 0 { RacedStay(rows, rows', k - 1); }
  }

  lemma {:induction false} RacedAfterUpdate(rows: seq<Row<nat>>, i: nat, r: Row<nat>, k: nat)
    requires i < |rows| && k <= |rows|
    ensures RacedRows(rows[i := r], k) + (if i < k && !HonestRow(rows[i]) then 1 else 0)
            == RacedRows(rows, k) + (if i < k && !HonestRow(r) then 1 else 0)
  {
    if k > 0 { RacedAfterUpdate(rows, i, r, k - 1); }
  }

  lemma {:induction false} ApplyRaces(rows: seq<Row<nat>>, n: nat, ip: string, res: Result, save: Result -> int)
    requires L.Sound(rows) && res.processCode != NO_INIT && ApplyResult(rows, n, ip, res, save).1
    ensures RacedRows(ApplyResult(rows, n, ip, res, save).0, |rows|)
            == RacedRows(rows, |rows|) + if HonestCode(res.processCode) then 0 else 1
  {
    var k := FirstOwned(rows, n, res.id);
    RacedAfterUpdate(rows, k, FinishRow(rows[k], ip, Outcome(res, save), res.processCode), |rows|);
  }

  lemma {:induction false} ReadingRaces(s: State, n: nat, save: Result -> int)
    requires Inv(s) && n in s.conns && s.conns[n].up != []
    ensures var e, t := ServerRecv(n, save), Received(s, n, save);
            |t.rows| == |s.rows|
            && RacedRows(t.rows, |s.rows|) == RacedRows(s.rows, |s.rows|) + if ReadsRace(s, e) then 1 else 0
  {
    var c := s.conns[n];
    var p := c.up[0];
    var h := if p.info.Some? then SendTask(s.rows, n, p.info.value) else Handout(s.rows, c.credit, None);
    if p.info.Some? { SendShape(s.rows, n, p.info.value); }
    RacedStay(s.rows, h.rows, |s.rows|);
    if p.result.Some? {
      NothingIsRejected(s, ServerRecv(n, save));
      assert Reported(c.up);
      ApplyRaces(h.rows, n, c.ip, p.result.value, save);
    }
  }

  lemma {:induction false} StepRaces(s: State, e: Step)
    requires Inv(s) && Enabled(s, e)
    ensures var t := Next(s, e);
            |t.rows| == |s.rows|
            && RacedRows(t.rows, |s.rows|) == RacedRows(s.rows, |s.rows|) + if ReadsRace(s, e) then 1 else 0
  {
    if e.ServerRecv? {
      ReadingRaces(s, e.n, e.save);
    } else {
      RacedStay(s.rows, Next(s, e).rows, |s.rows|);
    }
  }

  lemma {:induction false} RunRaces(s: State, es: seq<Step>)
    requires Inv(s) && ValidRun(s, es)
    ensures var t := Run(s, es);
            |t.rows| == |s.rows| && RacedRows(t.rows, |s.rows|) == RacedRows(s.rows, |s.rows|) + Races(s, es)
    decreases |es|
  {
    if es != [] {
      StepRaces(s, es[0]);
      StepKeepsInv(s, es[0]);
      RunRaces(Next(s, es[0]), es[1..]);
    }
  }

  lemma {:induction false} ThreeKinds(rows: seq<Row<nat>>, k: nat)
    requires k <= |rows|
    ensures C.Finished(rows, true, k) + C.Finished(rows, false, k) + RacedRows(rows, k) == DoneRows(rows, k)
  {
    if k > 0 { ThreeKinds(rows, k - 1); }
  }

  lemma {:induction false} FreshHaveNone(rows: seq<Row<nat>>, k: nat)
    requires k <= |rows| && forall i | 0 <= i < |rows| :: rows[i] == FreshRow(rows[i].message)
    ensures RacedRows(rows, k) == 0
  {
    if k > 0 { FreshHaveNone(rows, k - 1); }
  }

  /** What is missing, in any run whatever: of the results that have been booked, those that are neither errors nor
      successes are exactly as many as raced reports have been read. */
  lemma {:induction false} RacesAreMissing(s: State, es: seq<Step>)
    requires Init(s) && ValidRun(s, es)
    ensures var t := Run(s, es);
            C.Finished(t.rows, true, |t.rows|) + C.Finished(t.rows, false, |t.rows|) + Races(s, es) == t.applied
  {
    InitInv(s);
    RunKeepsInv(s, es);
    RunRaces(s, es);
    FreshHaveNone(s.rows, |s.rows|);
    ThreeKinds(Run(s, es).rows, |s.rows|);
  }

  // ---- The scan over a run ----

  /** The single-row events of a run, one after the other. */
  function EventsOf(s: State, es: seq<Step>): seq<L.Event<nat>>
    requires ValidRun(s, es)
    decreases |es|
  {
    if es == [] then [] else ScheduleOf(s, es[0]) + EventsOf(Next(s, es[0]), es[1..])
  }

  predicate NoCounts(es: seq<Step>) {
    forall j | 0 <= j < |es| :: !es[j].Count?
  }

  lemma {:induction false} RunIsEvents(s: State, es: seq<Step>)
    requires Inv(s) && ValidRun(s, es) && NoCounts(es)
    ensures Run(s, es).rows == L.FireAll(s.rows, EventsOf(s, es))
    decreases |es|
  {
    if es != [] {
      var t := Next(s, es[0]);
      assert NoCounts(es[1..]) by { assert forall j | 0 <= j < |es[1..]| :: es[1..][j] == es[j + 1]; }
      StepKeepsInv(s, es[0]);
      StepIsSchedule(s, es[0]);
      RunIsEvents(t, es[1..]);
      L.FireAllJoin(s.rows, ScheduleOf(s, es[0]), EventsOf(t, es[1..]));
    }
  }

  lemma {:induction false} NothingAfter(
    initial: seq<Row<nat>>, schedule: nat -> seq<L.Event<nat>>, locks: nat, events: seq<L.Event<nat>>)
    requires L.Sound(initial) && C.History(schedule, locks) <= events
    requires forall j | 0 <= j < |initial| :: C.TableAt(initial, schedule, locks)[j].result != NO_INIT
    ensures L.FireAll(initial, events) == C.TableAt(initial, schedule, locks)
  {
    var past, table := C.History(schedule, locks), C.TableAt(initial, schedule, locks);
    var rest := events[|past|..];
    assert events == past + rest;
    L.FireAllJoin(initial, past, rest);
    L.DoneForever(initial, past);
    L.DoneForever(table, rest);
  }

  /** The scan and the protocol together. The server goes through the events of a run, from a fresh table, while
      the main thread scans; it may be anywhere in them, also in the middle of a step, at any lock. If no query
      raced, a scan that ends finished has seen the table the whole run ends with, and its two totals are
      all of it. */
  lemma {:induction false} FinishedScanAccountsForAll(
    s: State, es: seq<Step>, schedule: nat -> seq<L.Event<nat>>, locks: nat,
    rows: seq<Row<nat>>, info: map<string, C.SlaveInfo>, countError: nat, countSuccess: nat)
    requires Init(s) && ValidRun(s, es) && AllSettled(es) && NoCounts(es)
    requires C.History(schedule, locks) <= EventsOf(s, es)
    requires C.Accounted(C.TableAt(s.rows, schedule, locks), rows, info, countError, countSuccess)
    ensures Run(s, es).rows == C.TableAt(s.rows, schedule, locks)
    ensures countError + countSuccess == |s.rows|
  {
    InitInv(s);
    RunIsEvents(s, es);
    NothingAfter(s.rows, schedule, locks, EventsOf(s, es));
    RunKeepsHonest(s, es);
    var t := Run(s, es);
    assert forall i | 0 <= i < |t.rows| :: HonestRow(t.rows[i]);
  }

  /** And over a run with races, what a finished scan's totals miss of the whole table are the raced reports that
      were read: they are all of it exactly when every result that was read carried a final code. */
  lemma {:induction false} FinishedScanMissesRaces(
    s: State, es: seq<Step>, schedule: nat -> seq<L.Event<nat>>, locks: nat,
    rows: seq<Row<nat>>, info: map<string, C.SlaveInfo>, countError: nat, countSuccess: nat)
    requires Init(s) && ValidRun(s, es) && NoCounts(es)
    requires C.History(schedule, locks) <= EventsOf(s, es)
    requires C.Accounted(C.TableAt(s.rows, schedule, locks), rows, info, countError, countSuccess)
    ensures Run(s, es).rows == C.TableAt(s.rows, schedule, locks)
    ensures countError + countSuccess + Races(s, es) == |s.rows|
  {
    InitInv(s);
    RunIsEvents(s, es);
    NothingAfter(s.rows, schedule, locks, EventsOf(s, es));
    RacesAreMissing(s, es);
    RunKeepsInv(s, es);
    AllDone(Run(s, es).rows, |s.rows|);
  }

  /** The race does happen to a task that is reported although it is alive, and then its code is one that
      the console counts neither as success nor as an error. */
  lemma {:induction false} RaceIsNotCounted(t: DaemonTask, o: Observation, size: nat, r: Row<nat>, ip: string)
    requires t.started && o.first.None? && o.second == Some(STILL_ACTIVE)
    ensures !Running(t, o) && !HonestPacket(ReportPacket(t, o, size))
    ensures var code := ReportPacket(t, o, size).result.value.processCode;
            var done := FinishRow(r, ip, 0, code);
            done.result != NO_INIT && !C.Failed(done) && !C.Succeeded(done)
  {
  }
}
