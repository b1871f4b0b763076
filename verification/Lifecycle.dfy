/** Each task row as a small machine, and the server's operations as sequences of single-row events.
    One event is what happens inside one locked block of a row, so a schedule of events is exactly
    what another thread can see between two of its own lock acquisitions. */
module Lifecycle {
  import opened Wrappers
  import opened TaskTable

  datatype Event<N> =
    | Assign(i: nat, n: N)
    | Free(i: nat)
    | Finish(i: nat, ip: string, exitCode: int, code: int)

  predicate Enabled<N>(rows: seq<Row<N>>, e: Event<N>) {
    && e.i < |rows|
    && match e
       case Assign(i, _) => Eligible(rows[i])
       case Free(i) => rows[i].node.Some?
       case Finish(i, ip, _, _) => rows[i].node.Some? && ip != ""
  }

  /** A disabled event changes nothing: the server skips the row. */
  function Fire<N>(rows: seq<Row<N>>, e: Event<N>): (rows': seq<Row<N>>)
    ensures |rows'| == |rows|
  {
    if !Enabled(rows, e) then rows
    else match e
      case Assign(i, n) => rows[i := rows[i].(node := Some(n))]
      case Free(i) => rows[i := rows[i].(node := None)]
      case Finish(i, ip, exitCode, code) => rows[i := FinishRow(rows[i], ip, exitCode, code)]
  }

  function FireAll<N>(rows: seq<Row<N>>, es: seq<Event<N>>): (rows': seq<Row<N>>)
    ensures |rows'| == |rows|
  {
    if es == [] then rows else Fire(FireAll(rows, es[..|es| - 1]), es[|es| - 1])
  }

  lemma {:induction false} FireAllJoin<N>(rows: seq<Row<N>>, a: seq<Event<N>>, b: seq<Event<N>>)
    ensures FireAll(rows, a + b) == FireAll(FireAll(rows, a), b)
  {
    if b == [] {
      assert a + b == a;
    } else {
      assert (a + b)[..|a + b| - 1] == a + b[..|b| - 1];
      FireAllJoin(rows, a, b[..|b| - 1]);
    }
  }

  // ---- The abstract machine a row refines ----

  datatype Phase<N> = Pending | Assigned(n: N) | Done(exitCode: int, code: int)

  function PhaseOf<N>(r: Row<N>): Phase<N> {
    if r.result != NO_INIT then Done(r.exitCode, r.result)
    else if r.node.Some? then Assigned(r.node.value)
    else Pending
  }

  predicate Transition<N(==)>(p: Phase<N>, q: Phase<N>) {
    p == q || (p.Pending? && q.Assigned?) || (p.Assigned? && !q.Assigned?)
  }

  /** An owned row has no result yet. */
  predicate Sound<N>(rows: seq<Row<N>>) {
    forall i | 0 <= i < |rows| :: rows[i].node.Some? ==> rows[i].result == NO_INIT
  }

  lemma {:induction false} FireRefines<N>(rows: seq<Row<N>>, e: Event<N>, j: nat)
    requires Sound(rows) && j < |rows|
    ensures Sound(Fire(rows, e))
    ensures Transition(PhaseOf(rows[j]), PhaseOf(Fire(rows, e)[j]))
    ensures Fire(rows, e)[j].message == rows[j].message
    ensures PhaseOf(rows[j]).Done? ==> Fire(rows, e)[j] == rows[j]
  {
  }

  /** Finality: whatever code the result carries, a row that has left `NO_INIT` is frozen for the
      rest of any schedule, and soundness is kept. */
  lemma {:induction false} DoneForever<N>(rows: seq<Row<N>>, es: seq<Event<N>>)
    requires Sound(rows)
    ensures Sound(FireAll(rows, es))
    ensures forall j | 0 <= j < |rows| ::
              && FireAll(rows, es)[j].message == rows[j].message
              && (rows[j].result != NO_INIT ==> FireAll(rows, es)[j] == rows[j])
  {
    if es != [] {
      DoneForever(rows, es[..|es| - 1]);
    }
  }

  /** A result makes its row final exactly when its code is not `NO_INIT` itself. */
  lemma {:induction false} FinishIsFinal<N>(rows: seq<Row<N>>, e: Event<N>)
    requires Enabled(rows, e) && e.Finish?
    ensures PhaseOf(Fire(rows, e)[e.i]).Done? <==> e.code != NO_INIT
    ensures e.code == NO_INIT ==> Eligible(Fire(rows, e)[e.i])
  {
  }

  // ---- The server's operations as schedules ----

  function SendEvents<N>(rows: seq<Row<N>>, n: N, credit: int): seq<Event<N>> {
    var k := FirstEligible(rows);
    if credit <= 0 || k == |rows| then [] else [Assign(k, n)]
  }

  function ReleaseEvents<N(==)>(rows: seq<Row<N>>, n: N, k: nat): seq<Event<N>>
    requires k <= |rows|
  {
    if k == 0 then []
    else ReleaseEvents(rows, n, k - 1) + if rows[k - 1].node == Some(n) then [Free(k - 1)] else []
  }

  function ApplyEvents<N(==)>(
    rows: seq<Row<N>>, n: N, ip: string, res: Result, save: Result -> int): seq<Event<N>>
  {
    var k := FirstOwned(rows, n, res.id);
    if k == |rows| then [] else [Finish(k, ip, Outcome(res, save), res.processCode)]
  }

  lemma {:induction false} SendIsEvents<N>(rows: seq<Row<N>>, n: N, credit: int)
    ensures FireAll(rows, SendEvents(rows, n, credit)) == SendTask(rows, n, credit).rows
  {
    var es := SendEvents(rows, n, credit);
    if es != [] { assert FireAll(rows, es[..0]) == rows; }
  }

  lemma {:induction false} ApplyIsEvents<N>(rows: seq<Row<N>>, n: N, ip: string, res: Result, save: Result -> int)
    requires ip != ""
    ensures FireAll(rows, ApplyEvents(rows, n, ip, res, save)) == ApplyResult(rows, n, ip, res, save).0
  {
    var es := ApplyEvents(rows, n, ip, res, save);
    if es != [] { assert FireAll(rows, es[..0]) == rows; }
  }

  /** The first `k` rows after a disconnect, the others before it. */
  predicate Released<N(==)>(rows: seq<Row<N>>, rows': seq<Row<N>>, n: N, k: nat) {
    && k <= |rows| == |rows'|
    && (forall i | 0 <= i < k :: rows'[i] == FreeRow(rows[i], n))
    && forall i | k <= i < |rows| :: rows'[i] == rows[i]
  }

  lemma {:induction false} ReleaseOneMore<N>(rows: seq<Row<N>>, rows': seq<Row<N>>, n: N, k: nat)
    requires k < |rows| && Released(rows, rows', n, k)
    ensures Released(rows, if rows[k].node == Some(n) then Fire(rows', Free(k)) else rows', n, k + 1)
  {
  }

  lemma {:induction false} FireLast<N>(rows: seq<Row<N>>, es: seq<Event<N>>, e: Event<N>)
    ensures FireAll(rows, es + [e]) == Fire(FireAll(rows, es), e)
  {
    assert (es + [e])[..|es|] == es;
  }

  lemma {:induction false} ReleasedUpTo<N>(rows: seq<Row<N>>, n: N, k: nat)
    requires k <= |rows|
    ensures Released(rows, FireAll(rows, ReleaseEvents(rows, n, k)), n, k)
  {
    if k > 0 {
      ReleasedUpTo(rows, n, k - 1);
      var front := ReleaseEvents(rows, n, k - 1);
      ReleaseOneMore(rows, FireAll(rows, front), n, k - 1);
      if rows[k - 1].node == Some(n) {
        FireLast(rows, front, Free(k - 1));
      } else {
        assert front + [] == front;
      }
    }
  }

  lemma {:induction false} ReleaseIsEvents<N>(rows: seq<Row<N>>, n: N, k: nat)
    requires k <= |rows|
    ensures FireAll(rows, ReleaseEvents(rows, n, k)) == Release(rows, n)[..k] + rows[k..]
    ensures k == |rows| ==> FireAll(rows, ReleaseEvents(rows, n, k)) == Release(rows, n)
  {
    ReleasedUpTo(rows, n, k);
  }
}
