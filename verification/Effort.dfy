/** How long the dispatcher can go on. Every step that gets anything done uses up some of an amount that only
    new connections, close requests and disconnects add to; and when nothing can be done any more, every
    task is done but those of daemons that have closed. */
module Effort {
  import opened Wrappers
  import opened TaskTable
  import opened ProcessObject
  import opened DaemonClient
  import opened Loader
  import opened Dispatch
  import opened Ownership
  import opened Credit

  predicate EveryRowDone(rows: seq<Row<nat>>) {
    forall i | 0 <= i < |rows| :: rows[i].result != NO_INIT
  }

  // ---- The amount ----

  /** Sends and results that are still to come. */
  function ToDo(s: State): nat {
    2 * EligibleRows(s.rows, |s.rows|) + Assigned(s.rows, |s.rows|)
  }

  /** What can still happen on a connection with what is on it. */
  function Moves(c: Conn): nat {
    3 * |c.down| + 2 * |c.tasks| + |c.up| + if c.open then 2 else 0
  }

  ghost function Total(conns: map<nat, Conn>): nat
    decreases |conns|
  {
    if conns == map[] then 0
    else
      var n :| n in conns;
      Moves(conns[n]) + Total(conns - {n})
  }

  lemma {:induction false} TotalWithout(conns: map<nat, Conn>, n: nat)
    requires n in conns
    ensures Total(conns) == Moves(conns[n]) + Total(conns - {n})
    decreases |conns|
  {
    var first :| first in conns && Total(conns) == Moves(conns[first]) + Total(conns - {first});
    if first != n {
      TotalWithout(conns - {first}, n);
      TotalWithout(conns - {n}, first);
      assert conns - {first} - {n} == conns - {n} - {first};
    }
  }

  lemma {:induction false} TotalUpdate(conns: map<nat, Conn>, n: nat, c: Conn)
    ensures Total(conns[n := c]) + (if n in conns then Moves(conns[n]) else 0) == Total(conns) + Moves(c)
  {
    TotalWithout(conns[n := c], n);
    assert conns[n := c] - {n} == conns - {n};
    if n in conns { TotalWithout(conns, n); } else { assert conns - {n} == conns; }
  }

  ghost function Energy(s: State): nat {
    4 * ToDo(s) + Total(s.conns)
  }

  lemma {:induction false} ToDoIs(s: State)
    requires Inv(s)
    ensures ToDo(s) + s.sent + s.applied == 2 * |s.rows| + s.released
  {
    TallyIsComplete(s.rows, |s.rows|);
  }

  // ---- Steps that get something done ----

  /** A packet is read, a task is handed out, or a pass of a daemon reports a task or breaks off. */
  predicate Productive(s: State, e: Step)
    requires Enabled(s, e)
  {
    match e
    case Serve(n) => s.conns[n].credit > 0 && FirstEligible(s.rows) < |s.rows|
    case ServerRecv(_, _) => true
    case DaemonRecv(_, _, _) => true
    case DaemonWork(n, obs) =>
      var c' := Worked(s.conns[n], obs);
      c'.up != s.conns[n].up || !c'.open
    case _ => false
  }

  lemma {:induction false} WorkedMoves(c: Conn, obs: seq<Observation>)
    requires c.open && |obs| == |c.tasks|
    ensures var c' := Worked(c, obs);
            Moves(c') + (if c'.up != c.up || !c'.open then 1 else 0) <= Moves(c)
  {
    PassSizes(c.tasks, obs, FirstStop(c.tasks, obs, |c.tasks|));
  }

  lemma {:induction false} TakenMoves(c: Conn, saved: bool, started: bool)
    requires c.open && c.down != []
    ensures Moves(Taken(c, saved, started)) + 1 <= Moves(c)
  {
  }

  /** What a step on connection `n` does to it and to the books. */
  predicate Pays(s: State, t: State, n: nat, gain: nat) {
    && n in s.conns && n in t.conns && t.conns == s.conns[n := t.conns[n]]
    && t.released == s.released && t.sent + t.applied >= s.sent + s.applied
    && Moves(t.conns[n]) + gain <= Moves(s.conns[n]) + 4 * (t.sent + t.applied - s.sent - s.applied)
  }

  lemma {:induction false} PaysEnergy(s: State, t: State, n: nat, gain: nat)
    requires Inv(s) && Inv(t) && |s.rows| == |t.rows| && Pays(s, t, n, gain)
    ensures Energy(t) + gain <= Energy(s)
  {
    ToDoIs(s);
    ToDoIs(t);
    TotalUpdate(s.conns, n, t.conns[n]);
  }

  lemma {:induction false} ServePays(s: State, n: nat)
    requires n in s.conns
    ensures Pays(s, Next(s, Serve(n)), n, if Productive(s, Serve(n)) then 1 else 0)
  {
  }

  lemma {:induction false} ReceivePays(s: State, n: nat, save: Result -> int)
    requires n in s.conns && s.conns[n].up != []
    ensures Pays(s, Next(s, ServerRecv(n, save)), n, 1)
  {
  }

  /** Three units for a new connection and for a close request, four for every row a disconnect frees. */
  function Added(s: State, e: Step): nat
    requires Enabled(s, e)
  {
    match e
    case Connect(_, _, _, _) => 3
    case SendClose(_) => 3
    case Disconnect(n) => 4 * OwnedBy(s.rows, n, |s.rows|)
    case _ => 0
  }

  lemma {:induction false} StepPays(s: State, e: Step)
    requires Inv(s) && Enabled(s, e)
    ensures Energy(Next(s, e)) + (if Productive(s, e) then 1 else 0) <= Energy(s) + Added(s, e)
  {
    var t := Next(s, e);
    StepKeepsInv(s, e);
    SameSize(s, e);
    match e
    case Connect(n, ip, cores, projects) =>
      ToDoIs(s);
      ToDoIs(t);
      TotalUpdate(s.conns, n, t.conns[n]);
    case Serve(n) =>
      ServePays(s, n);
      PaysEnergy(s, t, n, if Productive(s, e) then 1 else 0);
    case ServerRecv(n, save) =>
      ReceivePays(s, n, save);
      PaysEnergy(s, t, n, 1);
    case Disconnect(n) =>
      ToDoIs(s);
      ToDoIs(t);
      TotalWithout(s.conns, n);
    case SendClose(n) =>
      ToDoIs(s);
      ToDoIs(t);
      TotalUpdate(s.conns, n, t.conns[n]);
    case Count(i) =>
      ToDoIs(s);
      ToDoIs(t);
    case DaemonRecv(n, saved, started) =>
      TakenMoves(s.conns[n], saved, started);
      PaysEnergy(s, t, n, 1);
    case DaemonWork(n, obs) =>
      WorkedMoves(s.conns[n], obs);
      PaysEnergy(s, t, n, if Productive(s, e) then 1 else 0);
  }

  // ---- Runs ----

  /** How many steps of a run get something done. */
  function Done(s: State, es: seq<Step>): nat
    requires ValidRun(s, es)
    decreases |es|
  {
    if es == [] then 0 else (if Productive(s, es[0]) then 1 else 0) + Done(Next(s, es[0]), es[1..])
  }

  /** How many steps bring in a connection or ask one to close. */
  function News(es: seq<Step>): nat {
    if es == [] then 0 else (if es[0].Connect? || es[0].SendClose? then 1 else 0) + News(es[1..])
  }

  lemma {:induction false} RunPays(s: State, es: seq<Step>)
    requires Inv(s) && ValidRun(s, es)
    ensures var t := Run(s, es);
            t.released >= s.released
            && Energy(t) + Done(s, es) <= Energy(s) + 3 * News(es) + 4 * (t.released - s.released)
    decreases |es|
  {
    if es != [] {
      StepPays(s, es[0]);
      StepKeepsInv(s, es[0]);
      RunPays(Next(s, es[0]), es[1..]);
    }
  }

  lemma {:induction false} FreshEnergy(rows: seq<Row<nat>>, k: nat)
    requires k <= |rows| && forall i | 0 <= i < |rows| :: rows[i] == FreshRow(rows[i].message)
    ensures EligibleRows(rows, k) == k && Assigned(rows, k) == 0
  {
    if k > 0 { FreshEnergy(rows, k - 1); }
  }

  /** Every run is short, whatever the scheduler does: from a fresh table at most eight productive steps for every
      row, three for every connection made or asked to close, four for every row a disconnect has freed. */
  lemma {:induction false} EveryRunIsShort(s: State, es: seq<Step>)
    requires Init(s) && ValidRun(s, es)
    ensures Done(s, es) <= 8 * |s.rows| + 3 * News(es) + 4 * Run(s, es).released
  {
    InitInv(s);
    RunPays(s, es);
    FreshEnergy(s.rows, |s.rows|);
  }

  // ---- When nothing can be done any more ----

  ghost predicate Quiescent(s: State) {
    forall e | Enabled(s, e) :: !Productive(s, e)
  }

  predicate Idle(c: Conn) {
    c.up == [] && (c.open ==> c.down == [] && c.tasks == [])
  }

  function Good(f: nat): Observation {
    Observation(Some(0), Some(0), f, "", true)
  }

  function Goods(k: nat, f: nat): seq<Observation> {
    seq(k, _ => Good(f))
  }

  lemma {:induction false} WorkIsProductive(c: Conn, f: nat)
    requires c.tasks != []
    ensures var c' := Worked(c, Goods(|c.tasks|, f));
            c'.up != c.up || !c'.open
  {
    var ts, obs := c.tasks, Goods(|c.tasks|, f);
    var k := FirstStop(ts, obs, |ts|);
    if k == |ts| {
      assert obs[k - 1] == Good(f) && !Running(ts[k - 1], obs[k - 1]);
      assert |Sent(ts, obs, k)| > 0;
    }
  }

  lemma {:induction false} WorkCanBeDone(s: State, n: nat)
    requires n in s.conns && s.conns[n].open && s.conns[n].tasks != []
    ensures !Quiescent(s)
  {
    WorkIsProductive(s.conns[n], 0);
    var e := DaemonWork(n, Goods(|s.conns[n].tasks|, 0));
    assert Enabled(s, e) && Productive(s, e);
  }

  lemma {:induction false} QuiescentIsIdle(s: State, n: nat)
    requires Quiescent(s) && n in s.conns
    ensures Idle(s.conns[n]) && (s.conns[n].credit <= 0 || FirstEligible(s.rows) == |s.rows|)
  {
    var c := s.conns[n];
    assert Enabled(s, Serve(n)) && !Productive(s, Serve(n));
    var save := (r: Result) => 0;
    assert Enabled(s, ServerRecv(n, save)) ==> !Productive(s, ServerRecv(n, save));
    assert Enabled(s, DaemonRecv(n, true, true)) ==> !Productive(s, DaemonRecv(n, true, true));
    if c.open && c.tasks != [] { WorkCanBeDone(s, n); }
  }

  lemma {:induction false} IdleHasCredit(c: Conn, f: nat)
    requires Quiet(c) && Spent(c) && Paced(c, f) && f >= 2
    ensures c.credit > 0
  {
  }

  /** An idle connection that is open owns nothing. */
  lemma {:induction false} IdleOwnsNothing(s: State, n: nat, i: nat)
    requires Inv(s) && n in s.conns && Quiet(s.conns[n]) && i < |s.rows|
    ensures s.rows[i].node != Some(n)
  {
    var x := s.rows[i].message.id;
    assert Balanced(s.rows, n, s.conns[n], x);
    OwnedNone(s.rows, n, x, |s.rows|);
    assert Owns(s.rows[i], n, x) <==> s.rows[i].node == Some(n);
  }

  /** Nobody is left waiting. When a run can get nothing done any more, and some daemon that works on its
      connection always met the same count of two cores or more, then every task is done but those of
      daemons that have closed and whose disconnect the server has not noticed yet. */
  lemma {:induction false} QuiescentMeansDone(s: State, es: seq<Step>, n: nat, f: nat)
    requires Init(s) && ValidRun(s, es) && AllSteady(es, n, f)
    requires 2 <= f < 0x8000_0000 && |s.rows| <= 0x8000_0000
    requires n in Run(s, es).conns && Run(s, es).conns[n].open && Quiescent(Run(s, es))
    ensures var t := Run(s, es);
            && (forall i | 0 <= i < |t.rows| && t.rows[i].result == NO_INIT ::
                  t.rows[i].node.Some? && t.rows[i].node.value in t.conns && !t.conns[t.rows[i].node.value].open)
            && ((forall m | m in t.conns :: t.conns[m].open) ==> EveryRowDone(t.rows))
  {
    var t := Run(s, es);
    InitInv(s);
    RunKeepsInv(s, es);
    RunKeepsSpent(s, es);
    RunKeepsPace(s, es, n, f);
    QuiescentIsIdle(t, n);
    IdleHasCredit(t.conns[n], f);
    forall i | 0 <= i < |t.rows| && t.rows[i].result == NO_INIT
      ensures t.rows[i].node.Some? && t.rows[i].node.value in t.conns && !t.conns[t.rows[i].node.value].open
    {
      assert !Eligible(t.rows[i]);
      var m := t.rows[i].node.value;
      QuiescentIsIdle(t, m);
      if t.conns[m].open { IdleOwnsNothing(t, m, i); }
    }
  }
}
