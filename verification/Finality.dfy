/** What a run does to single rows: every protocol step is a schedule of single-row events, done rows stay
    as they are, and results that are queued when a connection is drained end up in their rows. */
module Finality {
  import opened Wrappers
  import opened TaskTable
  import opened ProcessObject
  import L = Lifecycle
  import opened DaemonClient
  import opened Loader
  import opened Dispatch
  import opened Ownership

  /** The single-row events, one per locked block, that a protocol step consists of. */
  function ScheduleOf(s: State, e: Step): seq<L.Event<nat>>
    requires Enabled(s, e)
  {
    match e
    case Serve(n) => L.SendEvents(s.rows, n, s.conns[n].credit)
    case ServerRecv(n, save) =>
      var c := s.conns[n];
      var p := c.up[0];
      var sends := if p.info.Some? then L.SendEvents(s.rows, n, p.info.value) else [];
      sends + if p.result.None? then []
              else L.ApplyEvents(L.FireAll(s.rows, sends), n, c.ip, p.result.value, save)
    case Disconnect(n) => L.ReleaseEvents(s.rows, n, |s.rows|)
    case _ => []
  }

  /** Refinement: but for the counting of the main thread, every step acts on the table as its schedule
      does; so what is proved of all schedules holds of all runs. */
  lemma {:induction false} StepIsSchedule(s: State, e: Step)
    requires Enabled(s, e) && (forall n | n in s.conns :: s.conns[n].ip != "") && !e.Count?
    ensures Next(s, e).rows == L.FireAll(s.rows, ScheduleOf(s, e))
  {
    match e
    case Serve(n) => L.SendIsEvents(s.rows, n, s.conns[n].credit);
    case ServerRecv(n, save) =>
      var c := s.conns[n];
      var p := c.up[0];
      var sends := if p.info.Some? then L.SendEvents(s.rows, n, p.info.value) else [];
      if p.info.Some? { L.SendIsEvents(s.rows, n, p.info.value); }
      var mid := L.FireAll(s.rows, sends);
      if p.result.Some? {
        L.ApplyIsEvents(mid, n, c.ip, p.result.value, save);
        L.FireAllJoin(s.rows, sends, L.ApplyEvents(mid, n, c.ip, p.result.value, save));
      } else {
        assert sends + [] == sends;
      }
    case Disconnect(n) => L.ReleaseIsEvents(s.rows, n, |s.rows|);
    case _ =>
  }

  /** Two versions of a row that differ at most in whether it has been counted. */
  predicate SameOutcome(r: Row<nat>, r': Row<nat>) {
    r' == r.(doneIp := r'.doneIp)
  }

  lemma {:induction false} StepFreezes(s: State, e: Step, i: nat)
    requires Inv(s) && Enabled(s, e) && i < |s.rows| && s.rows[i].result != NO_INIT
    ensures i < |Next(s, e).rows| && SameOutcome(s.rows[i], Next(s, e).rows[i])
  {
    if !e.Count? {
      StepIsSchedule(s, e);
      L.DoneForever(s.rows, ScheduleOf(s, e));
    }
  }

  /** Finality over runs: once a row has a result, its owner, result and exit code never change again. */
  lemma {:induction false} DoneIsFinal(s: State, es: seq<Step>, i: nat)
    requires Inv(s) && ValidRun(s, es) && i < |s.rows| && s.rows[i].result != NO_INIT
    ensures i < |Run(s, es).rows| && SameOutcome(s.rows[i], Run(s, es).rows[i])
    decreases |es|
  {
    if es != [] {
      StepFreezes(s, es[0], i);
      StepKeepsInv(s, es[0]);
      DoneIsFinal(Next(s, es[0]), es[1..], i);
    }
  }

  // ---- Draining a connection ----

  /** The server reads everything that is queued from `n`. */
  function Drain(n: nat, k: nat, save: Result -> int): seq<Step> {
    if k == 0 then [] else [ServerRecv(n, save)] + Drain(n, k - 1, save)
  }

  ghost predicate Landed(rows: seq<Row<nat>>, res: Result, save: Result -> int) {
    exists i | 0 <= i < |rows| ::
      rows[i].message.id == res.id && Records(rows[i], res, save)
  }

  /** Reading one result books exactly what it says on the row it belongs to. */
  lemma {:induction false} ReceivedLands(s: State, n: nat, save: Result -> int) returns (i: nat)
    requires Inv(s) && n in s.conns && s.conns[n].up != [] && s.conns[n].up[0].result.Some?
    ensures var res, t := s.conns[n].up[0].result.value, Received(s, n, save);
            && i < |t.rows| && t.rows[i].result != NO_INIT && t.rows[i].message.id == res.id
            && Records(t.rows[i], res, save)
  {
    var c := s.conns[n];
    var p := c.up[0];
    var h := if p.info.Some? then SendTask(s.rows, n, p.info.value) else Handout(s.rows, c.credit, None);
    assert Balanced(s.rows, n, c, p.result.value.id);
    HeardKeepsOwn(s.rows, n, c, save, p.result.value.id);
    i := FirstOwned(h.rows, n, p.result.value.id);
  }

  /** Whatever a daemon had sent when it closed, in particular the report that precedes an `AbortOnError`
      disconnect, is in the table once the server has read the queue. */
  lemma {:induction false} DrainLands(s: State, n: nat, save: Result -> int, j: nat)
    requires Inv(s) && n in s.conns && j < |s.conns[n].up| && s.conns[n].up[j].result.Some?
    ensures var es := Drain(n, |s.conns[n].up|, save);
            ValidRun(s, es) && Landed(Run(s, es).rows, s.conns[n].up[j].result.value, save)
    decreases |s.conns[n].up|
  {
    var t := Next(s, ServerRecv(n, save));
    StepKeepsInv(s, ServerRecv(n, save));
    DrainUnfolds(s, n, save);
    if j == 0 {
      var i := ReceivedLands(s, n, save);
      DoneIsFinal(t, Drain(n, |t.conns[n].up|, save), i);
    } else {
      DrainLands(t, n, save, j - 1);
    }
  }

  lemma {:induction false} DrainUnfolds(s: State, n: nat, save: Result -> int)
    requires n in s.conns && s.conns[n].up != []
    ensures var t, es := Next(s, ServerRecv(n, save)), Drain(n, |s.conns[n].up|, save);
            && n in t.conns && t.conns[n].up == s.conns[n].up[1..]
            && ValidRun(s, es) && ValidRun(t, Drain(n, |t.conns[n].up|, save))
            && Run(s, es) == Run(t, Drain(n, |t.conns[n].up|, save))
  {
    var t := Next(s, ServerRecv(n, save));
    DrainIsValid(t, n, save);
    RunUnfolds(s, ServerRecv(n, save), Drain(n, |t.conns[n].up|, save));
  }

  lemma {:induction false} DrainIsValid(s: State, n: nat, save: Result -> int)
    requires n in s.conns
    ensures ValidRun(s, Drain(n, |s.conns[n].up|, save))
    decreases |s.conns[n].up|
  {
    if s.conns[n].up != [] {
      var e := ServerRecv(n, save);
      DrainIsValid(Next(s, e), n, save);
      RunUnfolds(s, e, Drain(n, |s.conns[n].up| - 1, save));
    }
  }

  // ---- Any run that reads the connection ----

  predicate ReadsFrom(e: Step, n: nat) {
    e.ServerRecv? && e.n == n
  }

  predicate Drops(e: Step, n: nat) {
    e.Disconnect? && e.n == n
  }

  /** How many packets of `n` the server reads in the run. */
  function Reads(es: seq<Step>, n: nat): nat {
    if es == [] then 0 else (if ReadsFrom(es[0], n) then 1 else 0) + Reads(es[1..], n)
  }

  lemma {:induction false} UpKept(s: State, e: Step, n: nat, j: nat)
    requires Enabled(s, e) && n in s.conns && j < |s.conns[n].up| && !ReadsFrom(e, n) && !Drops(e, n)
    ensures var t := Next(s, e);
            n in t.conns && j < |t.conns[n].up| && t.conns[n].up[j] == s.conns[n].up[j]
  {
  }

  /** Some read of `n` in the run has booked `res`, with the save of that read. */
  ghost predicate LandedIn(rows: seq<Row<nat>>, es: seq<Step>, n: nat, res: Result) {
    exists i :: 0 <= i < |es| && ReadsFrom(es[i], n) && Landed(rows, res, es[i].save)
  }

  /** However its reading is interleaved with other steps: a result that is in a queue is in the table after any
      run that reads that far and does not disconnect the client. */
  lemma {:induction false} SentLands(s: State, es: seq<Step>, n: nat, j: nat)
    requires Inv(s) && ValidRun(s, es) && n in s.conns && j < |s.conns[n].up| && s.conns[n].up[j].result.Some?
    requires j < Reads(es, n) && forall i | 0 <= i < |es| :: !Drops(es[i], n)
    ensures LandedIn(Run(s, es).rows, es, n, s.conns[n].up[j].result.value)
    decreases |es|
  {
    var e, t, res := es[0], Next(s, es[0]), s.conns[n].up[j].result.value;
    StepKeepsInv(s, e);
    assert !Drops(e, n) && forall i | 0 <= i < |es[1..]| :: es[1..][i] == es[i + 1];
    if ReadsFrom(e, n) && j == 0 {
      var i := ReceivedLands(s, n, e.save);
      DoneIsFinal(t, es[1..], i);
      assert Landed(Run(s, es).rows, res, e.save);
    } else {
      if !ReadsFrom(e, n) { UpKept(s, e, n, j); }
      var k := if ReadsFrom(e, n) then j - 1 else j;
      SentLands(t, es[1..], n, k);
      var i :| 0 <= i < |es[1..]| && ReadsFrom(es[1..][i], n) && Landed(Run(t, es[1..]).rows, res, es[1..][i].save);
      assert ReadsFrom(es[i + 1], n) && Landed(Run(s, es).rows, res, es[i + 1].save);
    }
  }

  /** From the process to the table: a task that a daemon's pass comes to, and whose process has exited with `c`, is
      in the table as exited with `c` after any run, however interleaved, that reads what the daemon had sent by then
      and does not disconnect it; with `c` 0, the row shows the status of saving the output. */
  lemma {:induction false} ExitCodeArrives(s: State, n: nat, obs: seq<Observation>, j: nat, c: int, es: seq<Step>)
    returns (i: nat, k: nat)
    requires Inv(s) && n in s.conns && s.conns[n].open && j < |s.conns[n].tasks| == |obs|
    requires var ts := s.conns[n].tasks;
             ts[j].started && forall l | 0 <= l < j :: GoesOn(ts[l], obs[l])
    requires obs[j].first != Some(STILL_ACTIVE) && obs[j].second == Some(c) && c != STILL_ACTIVE && obs[j].sendOk
    requires var t := Next(s, DaemonWork(n, obs));
             ValidRun(t, es) && |t.conns[n].up| <= Reads(es, n) && forall l | 0 <= l < |es| :: !Drops(es[l], n)
    ensures i < |s.rows| && k < |es| && ReadsFrom(es[k], n)
    ensures var rows, task := Run(Next(s, DaemonWork(n, obs)), es).rows, s.conns[n].tasks[j];
            && |rows| == |s.rows| && rows[i].message.id == task.id && rows[i].result == EXITED
            && rows[i].exitCode == if c != 0 then c else es[k].save(Result(task.id, 0, EXITED, Some(obs[j].output)))
  {
    var e, c0 := DaemonWork(n, obs), s.conns[n];
    var t, p := Next(s, e), ReportPass(c0.tasks, obs);
    StepKeepsInv(s, e);
    var m := ReportSays(c0.tasks, obs, j);
    var at := |c0.up| + m;
    assert t.conns[n].up[at] == p.sent[m];
    var res := p.sent[m].result.value;
    SentLands(t, es, n, at);
    k :| 0 <= k < |es| && ReadsFrom(es[k], n) && Landed(Run(t, es).rows, res, es[k].save);
    i :| 0 <= i < |Run(t, es).rows| && Run(t, es).rows[i].message.id == res.id
         && Records(Run(t, es).rows[i], res, es[k].save);
    RunSize(t, es);
  }
}
