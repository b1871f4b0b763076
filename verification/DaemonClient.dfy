/** The daemon's end of a connection: tasks arrive, run, and are reported and erased in place. */
module DaemonClient {
  import opened Wrappers
  import opened TaskTable
  import opened ProcessObject
  import opened Text
  import opened Loader

  const SIZE_LIMIT: nat := 0x1_0000_0000_0000_0000

  /** The `uint32_t` congruent to `x`. */
  function ToUint32(x: int): (u: nat)
    ensures u < INT_LIMIT
    decreases if x < 0 then -x else x
  {
    if x < 0 then
      if x + INT_LIMIT >= 0 then x + INT_LIMIT else ToUint32(x + INT_LIMIT)
    else if x >= INT_LIMIT then ToUint32(x - INT_LIMIT) else x
  }

  /** A `uint32_t` stored in an `int32_t`. */
  function ToInt32(u: nat): (w: int)
    requires u < INT_LIMIT
    ensures -0x8000_0000 <= w < 0x8000_0000
  {
    if u < 0x8000_0000 then u else u - INT_LIMIT
  }

  /** `++` and `--` on a `size_t`. */
  function Increment(i: nat): nat {
    if i == SIZE_LIMIT - 1 then 0 else i + 1
  }

  function Decrement(i: nat): nat {
    if i == 0 then SIZE_LIMIT - 1 else i - 1
  }

  /** The credit in a report: an unsigned difference, stored in a signed field. */
  function ReportedCredit(cores: nat, size: nat): int {
    ToInt32(ToUint32(cores - ToUint32(size)))
  }

  /** The packet a daemon greets the server with. */
  function Greeting(cores: nat): SlavePacket {
    SlavePacket(Some(ToInt32(ToUint32(cores))), None)
  }

  /** The wrap of the unsigned difference is undone by the signed store exactly when the true
      difference fits the field. */
  lemma {:induction false} CreditIsDifference(cores: nat, size: nat)
    requires cores < INT_LIMIT
    ensures ReportedCredit(cores, size) == cores - size <==> -0x8000_0000 <= cores - size < 0x8000_0000
  {
    if -0x8000_0000 <= cores - size < 0x8000_0000 {
      SmallSize(size);
      SmallDifference(cores - size);
    }
  }

  lemma {:induction false} SmallSize(size: nat)
    requires size < 2 * INT_LIMIT
    ensures ToUint32(size) == if size < INT_LIMIT then size else size - INT_LIMIT
  {
  }

  lemma {:induction false} SmallDifference(d: int)
    requires -0x8000_0000 <= d < 0x8000_0000
    ensures ToInt32(ToUint32(d)) == ToInt32(ToUint32(d + INT_LIMIT)) == d
  {
  }

  datatype DaemonTask = DaemonTask(
    id: nat, started: bool, sourceFile: string, outputFile: string, abortOnError: bool)

  /** What the daemon meets when it looks at one task: two process queries, the free-core count of
      that moment, the output file's content and whether the socket takes the packet. */
  datatype Observation = Observation(first: Query, second: Query, cores: nat, output: string, sendOk: bool)

  predicate Running(t: DaemonTask, o: Observation) {
    IsRunning(t.started, o.first)
  }

  function ResultOf(t: DaemonTask, o: Observation): Result {
    var (code, exitCode) := ExitCodeResult(t.started, o.second);
    Result(t.id, exitCode, code, Some(o.output))
  }

  function ReportPacket(t: DaemonTask, o: Observation, size: nat): SlavePacket {
    SlavePacket(Some(ReportedCredit(o.cores, size)), Some(ResultOf(t, o)))
  }

  predicate Failed(t: DaemonTask, o: Observation) {
    var r := ResultOf(t, o);
    r.processCode != EXITED || r.exitCode != 0
  }

  /** The task at which a pass breaks off and disconnects. */
  predicate Stops(t: DaemonTask, o: Observation) {
    !Running(t, o) && (!o.sendOk || (Failed(t, o) && t.abortOnError))
  }

  predicate StopsAt(ts: seq<DaemonTask>, obs: seq<Observation>, j: nat)
    requires j < |ts| == |obs|
  {
    Stops(ts[j], obs[j])
  }

  // ---- The reference: a filter over the list as it was, with no index ----

  function Kept(ts: seq<DaemonTask>, obs: seq<Observation>, n: nat): seq<DaemonTask>
    requires n <= |ts| == |obs|
  {
    if n == 0 then []
    else
      var front := Kept(ts, obs, n - 1);
      if Running(ts[n - 1], obs[n - 1]) then front + [ts[n - 1]] else front
  }

  function Finished(ts: seq<DaemonTask>, obs: seq<Observation>, n: nat): (k: nat)
    requires n <= |ts| == |obs|
    ensures k <= n
  {
    if n == 0 then 0 else Finished(ts, obs, n - 1) + if Running(ts[n - 1], obs[n - 1]) then 0 else 1
  }

  /** One report per finished task; each erased task makes the next reported size one smaller. */
  function Sent(ts: seq<DaemonTask>, obs: seq<Observation>, n: nat): seq<SlavePacket>
    requires n <= |ts| == |obs|
  {
    if n == 0 then []
    else
      var front := Sent(ts, obs, n - 1);
      if Running(ts[n - 1], obs[n - 1]) then front
      else front + [ReportPacket(ts[n - 1], obs[n - 1], |ts| - Finished(ts, obs, n - 1))]
  }

  lemma {:induction false} PassSizes(ts: seq<DaemonTask>, obs: seq<Observation>, n: nat)
    requires n <= |ts| == |obs|
    ensures |Sent(ts, obs, n)| == Finished(ts, obs, n) && |Kept(ts, obs, n)| == n - Finished(ts, obs, n)
  {
    if n > 0 { PassSizes(ts, obs, n - 1); }
  }

  function FirstStop(ts: seq<DaemonTask>, obs: seq<Observation>, n: nat): (k: nat)
    requires n <= |ts| == |obs|
    ensures k <= n && (k < n ==> StopsAt(ts, obs, k)) && forall j | 0 <= j < k :: !StopsAt(ts, obs, j)
  {
    if n == 0 then 0
    else
      var k := FirstStop(ts, obs, n - 1);
      if k == n - 1 && !StopsAt(ts, obs, k) then n else k
  }

  datatype Round = Round(sent: seq<SlavePacket>, tasks: seq<DaemonTask>, closed: bool)

  function ReportPass(ts: seq<DaemonTask>, obs: seq<Observation>): Round
    requires |ts| == |obs|
  {
    var k := FirstStop(ts, obs, |ts|);
    if k == |ts| then Round(Sent(ts, obs, k), Kept(ts, obs, k), false)
    else
      Round(Sent(ts, obs, k) + VisitPackets(ts[k], obs[k], |ts| - Finished(ts, obs, k)),
            Kept(ts, obs, k) + ts[k..], true)
  }

  /** The same pass as the loop walks it: an index into a list that shrinks under it. */
  function EraseAt<T>(ts: seq<T>, i: nat): seq<T>
    requires i < |ts|
  {
    ts[..i] + ts[i + 1..]
  }

  function VisitPackets(t: DaemonTask, o: Observation, size: nat): seq<SlavePacket> {
    if Running(t, o) || !o.sendOk then [] else [ReportPacket(t, o, size)]
  }

  function Walk(now: seq<DaemonTask>, i: nat, obs: seq<Observation>, v: nat, sent: seq<SlavePacket>): Round
    requires i <= |now| && v <= |obs| && |now| - i == |obs| - v
    decreases |now| - i
  {
    if i == |now| then Round(sent, now, false)
    else
      var sent' := sent + VisitPackets(now[i], obs[v], |now|);
      if Running(now[i], obs[v]) then Walk(now, i + 1, obs, v + 1, sent')
      else if Stops(now[i], obs[v]) then Round(sent', now, true)
      else Walk(EraseAt(now, i), i, obs, v + 1, sent')
  }

  /** One visit of the walk, from the list before it. */
  lemma {:induction false} WalkUnfolds(
    now: seq<DaemonTask>, i: nat, obs: seq<Observation>, v: nat, sent: seq<SlavePacket>)
    requires i < |now| && v < |obs| && |now| - i == |obs| - v
    ensures var sent', running := sent + VisitPackets(now[i], obs[v], |now|), Running(now[i], obs[v]);
            Walk(now, i, obs, v, sent)
            == if Stops(now[i], obs[v]) then Round(sent', now, true)
               else Walk(if running then now else EraseAt(now, i), if running then i + 1 else i, obs, v + 1, sent')
  {
  }

  lemma {:induction false} PassStep(ts: seq<DaemonTask>, obs: seq<Observation>, v: nat, size: nat)
    requires v < |ts| == |obs| && size == |ts| - Finished(ts, obs, v)
    ensures Running(ts[v], obs[v]) ==>
              Kept(ts, obs, v + 1) == Kept(ts, obs, v) + [ts[v]] && Sent(ts, obs, v + 1) == Sent(ts, obs, v)
    ensures !Running(ts[v], obs[v]) ==>
              && Kept(ts, obs, v + 1) == Kept(ts, obs, v)
              && Sent(ts, obs, v + 1) == Sent(ts, obs, v) + [ReportPacket(ts[v], obs[v], size)]
  {
  }

  /** The walk once it has come to the `v`-th task of the original list. */
  function WalkFrom(ts: seq<DaemonTask>, obs: seq<Observation>, v: nat): Round
    requires v <= |ts| == |obs|
  {
    Walk(Kept(ts, obs, v) + ts[v..], |Kept(ts, obs, v)|, obs, v, Sent(ts, obs, v))
  }

  lemma {:induction false} SkipVisit(
    now: seq<DaemonTask>, kept: seq<DaemonTask>, ts: seq<DaemonTask>, obs: seq<Observation>, v: nat,
    sent: seq<SlavePacket>)
    requires v < |ts| == |obs| && now == kept + ts[v..] && Running(ts[v], obs[v])
    ensures Walk(now, |kept|, obs, v, sent) == Walk(kept + [ts[v]] + ts[v + 1..], |kept + [ts[v]]|, obs, v + 1, sent)
  {
    OneVisit(now, kept, ts, v);
    assert sent + [] == sent;
  }

  lemma {:induction false} EraseVisit(
    now: seq<DaemonTask>, kept: seq<DaemonTask>, ts: seq<DaemonTask>, obs: seq<Observation>, v: nat,
    sent: seq<SlavePacket>)
    requires v < |ts| == |obs| && now == kept + ts[v..] && !Running(ts[v], obs[v]) && !Stops(ts[v], obs[v])
    ensures Walk(now, |kept|, obs, v, sent)
            == Walk(kept + ts[v + 1..], |kept|, obs, v + 1, sent + [ReportPacket(ts[v], obs[v], |now|)])
  {
    OneVisit(now, kept, ts, v);
  }

  lemma {:induction false} StopVisit(
    now: seq<DaemonTask>, kept: seq<DaemonTask>, ts: seq<DaemonTask>, obs: seq<Observation>, v: nat,
    sent: seq<SlavePacket>)
    requires v < |ts| == |obs| && now == kept + ts[v..] && Stops(ts[v], obs[v])
    ensures Walk(now, |kept|, obs, v, sent) == Round(sent + VisitPackets(ts[v], obs[v], |now|), now, true)
  {
    OneVisit(now, kept, ts, v);
  }

  lemma {:induction false} VisitStep(ts: seq<DaemonTask>, obs: seq<Observation>, v: nat)
    requires v < |ts| == |obs| && !StopsAt(ts, obs, v)
    ensures WalkFrom(ts, obs, v) == WalkFrom(ts, obs, v + 1)
  {
    var kept, sent := Kept(ts, obs, v), Sent(ts, obs, v);
    var now := kept + ts[v..];
    PassSizes(ts, obs, v);
    PassStep(ts, obs, v, |now|);
    if Running(ts[v], obs[v]) {
      SkipVisit(now, kept, ts, obs, v, sent);
    } else {
      EraseVisit(now, kept, ts, obs, v, sent);
    }
  }

  /** The walk by index over the shrinking list is the filter of the list as it was. */
  lemma {:induction false} WalkIsPass(ts: seq<DaemonTask>, obs: seq<Observation>, v: nat)
    requires |ts| == |obs| && v <= FirstStop(ts, obs, |ts|)
    ensures WalkFrom(ts, obs, v) == ReportPass(ts, obs)
    decreases |ts| - v
  {
    if v < FirstStop(ts, obs, |ts|) {
      VisitStep(ts, obs, v);
      WalkIsPass(ts, obs, v + 1);
    } else {
      WalkEnds(ts, obs, v);
    }
  }

  lemma {:induction false} WalkEnds(ts: seq<DaemonTask>, obs: seq<Observation>, k: nat)
    requires |ts| == |obs| && k == FirstStop(ts, obs, |ts|)
    ensures WalkFrom(ts, obs, k) == ReportPass(ts, obs)
  {
    var kept, sent := Kept(ts, obs, k), Sent(ts, obs, k);
    PassSizes(ts, obs, k);
    if k < |ts| {
      StopVisit(kept + ts[k..], kept, ts, obs, k, sent);
    } else {
      assert ts[k..] == [] && kept + [] == kept;
    }
  }

  /** What had been sent before a pass stays in front of what it sends. */
  lemma {:induction false} WalkAppends(
    now: seq<DaemonTask>, i: nat, obs: seq<Observation>, v: nat, before: seq<SlavePacket>, sent: seq<SlavePacket>)
    requires i <= |now| && v <= |obs| && |now| - i == |obs| - v
    ensures var w := Walk(now, i, obs, v, sent);
            Walk(now, i, obs, v, before + sent) == Round(before + w.sent, w.tasks, w.closed)
    decreases |now| - i
  {
    if i < |now| {
      var packets := VisitPackets(now[i], obs[v], |now|);
      assert before + sent + packets == before + (sent + packets);
      if Running(now[i], obs[v]) {
        WalkAppends(now, i + 1, obs, v + 1, before, sent + packets);
      } else if !Stops(now[i], obs[v]) {
        WalkAppends(EraseAt(now, i), i, obs, v + 1, before, sent + packets);
      }
    }
  }

  lemma {:induction false} WalkIsWholePass(ts: seq<DaemonTask>, obs: seq<Observation>, before: seq<SlavePacket>)
    requires |ts| == |obs|
    ensures var p := ReportPass(ts, obs);
            Walk(ts, 0, obs, 0, before) == Round(before + p.sent, p.tasks, p.closed)
  {
    WalkIsPass(ts, obs, 0);
    assert [] + ts[0..] == ts && before + [] == before;
    WalkAppends(ts, 0, obs, 0, before, []);
  }

  lemma {:induction false} OneVisit<T>(now: seq<T>, kept: seq<T>, ts: seq<T>, v: nat)
    requires v < |ts| && now == kept + ts[v..]
    ensures now[|kept|] == ts[v] && |now| == |kept| + |ts| - v
    ensures EraseAt(now, |kept|) == kept + ts[v + 1..]
    ensures now == kept + [ts[v]] + ts[v + 1..]
  {
  }

  /** How many of the first `n` tasks carry the id `x`. */
  function TasksWith(ts: seq<DaemonTask>, n: nat, x: nat): nat
    requires n <= |ts|
  {
    if n == 0 then 0 else TasksWith(ts, n - 1, x) + if ts[n - 1].id == x then 1 else 0
  }

  predicate Carries(p: SlavePacket, x: nat) {
    p.result.Some? && p.result.value.id == x
  }

  /** How many of the first `n` packets carry a result for the id `x`. */
  function ResultsWith(ps: seq<SlavePacket>, n: nat, x: nat): nat
    requires n <= |ps|
  {
    if n == 0 then 0 else ResultsWith(ps, n - 1, x) + if Carries(ps[n - 1], x) then 1 else 0
  }

  lemma {:induction false} TasksWithJoin(a: seq<DaemonTask>, b: seq<DaemonTask>, n: nat, x: nat)
    requires n <= |a + b|
    ensures TasksWith(a + b, n, x)
            == if n <= |a| then TasksWith(a, n, x) else TasksWith(a, |a|, x) + TasksWith(b, n - |a|, x)
  {
    if n > 0 { TasksWithJoin(a, b, n - 1, x); }
  }

  lemma {:induction false} ResultsWithJoin(a: seq<SlavePacket>, b: seq<SlavePacket>, n: nat, x: nat)
    requires n <= |a + b|
    ensures ResultsWith(a + b, n, x)
            == if n <= |a| then ResultsWith(a, n, x) else ResultsWith(a, |a|, x) + ResultsWith(b, n - |a|, x)
  {
    if n > 0 { ResultsWithJoin(a, b, n - 1, x); }
  }

  /** The one task of a pass that is both reported and kept: the one it breaks off at on `AbortOnError`. */
  predicate Doubled(ts: seq<DaemonTask>, obs: seq<Observation>, x: nat)
    requires |ts| == |obs|
  {
    var k := FirstStop(ts, obs, |ts|);
    k < |ts| && obs[k].sendOk && ts[k].id == x
  }

  /** No task is lost: of every id, what the pass reports and what it keeps add up to what it had, and
      to one more for the task it breaks off at on `AbortOnError`. It reports nothing it did not have. */
  lemma {:induction false} PassConserves(ts: seq<DaemonTask>, obs: seq<Observation>, x: nat)
    requires |ts| == |obs|
    ensures var p := ReportPass(ts, obs);
            && ResultsWith(p.sent, |p.sent|, x) + TasksWith(p.tasks, |p.tasks|, x)
               == TasksWith(ts, |ts|, x) + (if Doubled(ts, obs, x) then 1 else 0)
            && ResultsWith(p.sent, |p.sent|, x) <= TasksWith(ts, |ts|, x)
  {
    var k := FirstStop(ts, obs, |ts|);
    SplitIds(ts, obs, k, x);
    if k < |ts| {
      assert Sent(ts, obs, k) + [] == Sent(ts, obs, k);
      BreakOff(Sent(ts, obs, k), Kept(ts, obs, k), ts, k, obs[k], |ts| - Finished(ts, obs, k), x);
    }
  }

  lemma {:induction false} BreakOff(
    front: seq<SlavePacket>, kept: seq<DaemonTask>, ts: seq<DaemonTask>, k: nat, o: Observation, size: nat, x: nat)
    requires k < |ts| && ResultsWith(front, |front|, x) + TasksWith(kept, |kept|, x) == TasksWith(ts, k, x)
    ensures var kept', sent, one := kept + ts[k..], front + [ReportPacket(ts[k], o, size)],
              if ts[k].id == x then 1 else 0;
            && ResultsWith(front, |front|, x) + TasksWith(kept', |kept'|, x) == TasksWith(ts, |ts|, x)
            && ResultsWith(sent, |sent|, x) == ResultsWith(front, |front|, x) + one
            && ResultsWith(sent, |sent|, x) <= TasksWith(ts, |ts|, x)
  {
    TasksWithSplit(ts, k, |ts|, x);
    TasksWithJoin(kept, ts[k..], |kept| + |ts| - k, x);
    AtLeastFirst(ts[k..], |ts| - k, x);
    ResultsWithOne(front, ReportPacket(ts[k], o, size), x);
  }

  lemma {:induction false} TasksWithSplit(ts: seq<DaemonTask>, k: nat, n: nat, x: nat)
    requires k <= n <= |ts|
    ensures TasksWith(ts, n, x) == TasksWith(ts, k, x) + TasksWith(ts[k..], n - k, x)
  {
    if k < n { TasksWithSplit(ts, k, n - 1, x); }
  }

  lemma {:induction false} AtLeastFirst(ts: seq<DaemonTask>, n: nat, x: nat)
    requires 0 < n <= |ts|
    ensures TasksWith(ts, n, x) >= if ts[0].id == x then 1 else 0
  {
    if n > 1 { AtLeastFirst(ts, n - 1, x); }
  }

  lemma {:induction false} SplitIds(ts: seq<DaemonTask>, obs: seq<Observation>, n: nat, x: nat)
    requires n <= |ts| == |obs|
    ensures var sent, kept := Sent(ts, obs, n), Kept(ts, obs, n);
            ResultsWith(sent, |sent|, x) + TasksWith(kept, |kept|, x) == TasksWith(ts, n, x)
  {
    if n > 0 {
      SplitIds(ts, obs, n - 1, x);
      var size := |ts| - Finished(ts, obs, n - 1);
      PassStep(ts, obs, n - 1, size);
      SplitStep(Sent(ts, obs, n - 1), Kept(ts, obs, n - 1), Sent(ts, obs, n), Kept(ts, obs, n),
                ts[n - 1], obs[n - 1], size, x);
    }
  }

  lemma {:induction false} SplitStep(
    sent: seq<SlavePacket>, kept: seq<DaemonTask>, sent': seq<SlavePacket>, kept': seq<DaemonTask>,
    t: DaemonTask, o: Observation, size: nat, x: nat)
    requires (sent' == sent && kept' == kept + [t]) || (sent' == sent + [ReportPacket(t, o, size)] && kept' == kept)
    ensures ResultsWith(sent', |sent'|, x) + TasksWith(kept', |kept'|, x)
            == ResultsWith(sent, |sent|, x) + TasksWith(kept, |kept|, x) + if t.id == x then 1 else 0
  {
    TasksWithOne(kept, t, x);
    ResultsWithOne(sent, ReportPacket(t, o, size), x);
  }

  lemma {:induction false} TasksWithOne(ts: seq<DaemonTask>, t: DaemonTask, x: nat)
    ensures TasksWith(ts + [t], |ts| + 1, x) == TasksWith(ts, |ts|, x) + if t.id == x then 1 else 0
  {
    TasksWithJoin(ts, [t], |ts|, x);
  }

  lemma {:induction false} ResultsWithOne(ps: seq<SlavePacket>, p: SlavePacket, x: nat)
    ensures ResultsWith(ps + [p], |ps| + 1, x) == ResultsWith(ps, |ps|, x) + if Carries(p, x) then 1 else 0
  {
    ResultsWithJoin(ps, [p], |ps|, x);
  }

  /** Sizes and order of a whole pass: one packet per finished task, the k-th of them reporting the
      cores less the k tasks erased so far; on `AbortOnError`, sent plus kept is one too many. */
  lemma {:induction false} PassCounts(ts: seq<DaemonTask>, obs: seq<Observation>)
    requires |ts| == |obs|
    ensures var p, k := ReportPass(ts, obs), FirstStop(ts, obs, |ts|);
            |p.sent| + |p.tasks| == |ts| + if k < |ts| && obs[k].sendOk then 1 else 0
  {
    PassSizes(ts, obs, FirstStop(ts, obs, |ts|));
  }

  /** A pass looks at the `j`-th task. */
  predicate Reaches(ts: seq<DaemonTask>, obs: seq<Observation>, j: nat)
    requires j < |ts| == |obs|
  {
    j <= FirstStop(ts, obs, |ts|)
  }

  /** Exit code 259, over a pass. A started task whose first query answers `c`, if the pass reaches it, is
      reported or broken off at exactly when `c` is not 259: with 259 no packet carries its id and the list
      keeps it, whatever else happens in the pass; with any other code that the socket takes a packet is sent. */
  lemma {:induction false} ReportedUnless259(ts: seq<DaemonTask>, obs: seq<Observation>, j: nat, c: int)
    requires j < |ts| == |obs| && ts[j].started && obs[j].first == Some(c)
    requires forall i | 0 <= i < |ts| && i != j :: ts[i].id != ts[j].id
    ensures var p, x := ReportPass(ts, obs), ts[j].id;
            && (c == STILL_ACTIVE || !Reaches(ts, obs, j) ==>
                  ResultsWith(p.sent, |p.sent|, x) == 0 && TasksWith(p.tasks, |p.tasks|, x) == 1)
            && (c != STILL_ACTIVE && Reaches(ts, obs, j) ==>
                  if Stops(ts[j], obs[j]) then
                    && p.closed && TasksWith(p.tasks, |p.tasks|, x) == 1
                    && ResultsWith(p.sent, |p.sent|, x) == if obs[j].sendOk then 1 else 0
                  else ResultsWith(p.sent, |p.sent|, x) == 1 && TasksWith(p.tasks, |p.tasks|, x) == 0)
  {
    var p, x, k := ReportPass(ts, obs), ts[j].id, FirstStop(ts, obs, |ts|);
    PassConserves(ts, obs, x);
    OnlyOne(ts, j, |ts|);
    ExitCode259IsNeverSeen(ts[j].started, obs[j].first);
    if k < |ts| { assert StopsAt(ts, obs, k); }
    assert j < k ==> !StopsAt(ts, obs, j);
    SentOnce(ts, obs, j, k);
    if k < |ts| {
      var size := |ts| - Finished(ts, obs, k);
      assert Sent(ts, obs, k) + [] == Sent(ts, obs, k);
      ResultsWithOne(Sent(ts, obs, k), ReportPacket(ts[k], obs[k], size), x);
    }
  }

  lemma {:induction false} OnlyOne(ts: seq<DaemonTask>, j: nat, n: nat)
    requires j < |ts| && n <= |ts| && forall i | 0 <= i < |ts| && i != j :: ts[i].id != ts[j].id
    ensures TasksWith(ts, n, ts[j].id) == if j < n then 1 else 0
  {
    if n > 0 { OnlyOne(ts, j, n - 1); }
  }

  lemma {:induction false} SentOnce(ts: seq<DaemonTask>, obs: seq<Observation>, j: nat, n: nat)
    requires j < |ts| == |obs| && n <= |ts| && forall i | 0 <= i < |ts| && i != j :: ts[i].id != ts[j].id
    ensures ResultsWith(Sent(ts, obs, n), |Sent(ts, obs, n)|, ts[j].id)
            == if j < n && !Running(ts[j], obs[j]) then 1 else 0
  {
    if n > 0 {
      SentOnce(ts, obs, j, n - 1);
      var size := |ts| - Finished(ts, obs, n - 1);
      PassStep(ts, obs, n - 1, size);
      ResultsWithOne(Sent(ts, obs, n - 1), ReportPacket(ts[n - 1], obs[n - 1], size), ts[j].id);
    }
  }

  // ---- What a report says ----

  /** A pass does not end at the task: its process is alive, or the report is taken and, if the task is to abort on
      an error, the process has exited with 0. */
  predicate GoesOn(t: DaemonTask, o: Observation) {
    || (t.started && o.first == Some(STILL_ACTIVE))
    || (o.sendOk && (t.abortOnError ==> t.started && o.second == Some(0)))
  }

  lemma {:induction false} StopsExactly(t: DaemonTask, o: Observation)
    ensures Stops(t, o) <==> !GoesOn(t, o)
  {
    ExitCode259IsNeverSeen(t.started, o.first);
  }

  /** A pass breaks off exactly when it meets a task whose process is not alive and whose report is not taken, or
      which is to abort on an error and has not exited with 0; and it breaks off at the first such task. */
  lemma {:induction false} PassClosesExactly(ts: seq<DaemonTask>, obs: seq<Observation>)
    requires |ts| == |obs|
    ensures ReportPass(ts, obs).closed <==>
              exists j :: 0 <= j < |ts| && !(ts[j].started && obs[j].first == Some(STILL_ACTIVE))
                          && (!obs[j].sendOk || (ts[j].abortOnError && !(ts[j].started && obs[j].second == Some(0))))
    ensures var k := FirstStop(ts, obs, |ts|);
            && (ReportPass(ts, obs).closed <==> k < |ts|) && (k < |ts| ==> !GoesOn(ts[k], obs[k]))
            && forall j | 0 <= j < k :: GoesOn(ts[j], obs[j])
  {
    var k := FirstStop(ts, obs, |ts|);
    forall j | 0 <= j < |ts| ensures StopsAt(ts, obs, j) <==> !GoesOn(ts[j], obs[j]) {
      StopsExactly(ts[j], obs[j]);
    }
    if k < |ts| { assert StopsAt(ts, obs, k); }
    assert forall j | 0 <= j < k :: !StopsAt(ts, obs, j);
  }

  lemma {:induction false} SentAt(ts: seq<DaemonTask>, obs: seq<Observation>, j: nat, n: nat)
    requires j < n <= |ts| == |obs| && !Running(ts[j], obs[j])
    ensures var m := |Sent(ts, obs, j)|;
            m <= j && m < |Sent(ts, obs, n)| && Sent(ts, obs, n)[m] == ReportPacket(ts[j], obs[j], |ts| - m)
  {
    PassSizes(ts, obs, j);
    if j < n - 1 {
      SentAt(ts, obs, j, n - 1);
    }
    PassStep(ts, obs, n - 1, |ts| - Finished(ts, obs, n - 1));
  }

  /** What the report of a task says of it. A process that was not started, or cannot be asked, counts as not
      started, one that turns out to be alive after all as running, and one that has exited comes with its exit
      code; the output is what the file holds. */
  predicate Says(p: SlavePacket, t: DaemonTask, o: Observation) {
    && p.result.Some? && p.result.value.id == t.id && p.result.value.outputData == Some(o.output)
    && var r := p.result.value;
       && (!t.started || o.second.None? ==> r.processCode == NOT_STARTED && r.exitCode == 0)
       && (t.started && o.second == Some(STILL_ACTIVE) ==> r.processCode == STILL_RUNNING && r.exitCode == 0)
       && (t.started && o.second.Some? && o.second.value != STILL_ACTIVE ==>
             r.processCode == EXITED && r.exitCode == o.second.value)
  }

  predicate LastSays(ps: seq<SlavePacket>, t: DaemonTask, o: Observation) {
    ps != [] && Says(ps[|ps| - 1], t, o)
  }

  lemma {:induction false} ReportIsTrue(t: DaemonTask, o: Observation, size: nat)
    ensures Says(ReportPacket(t, o, size), t, o)
  {
  }

  lemma {:induction false} PassSends(ts: seq<DaemonTask>, obs: seq<Observation>, j: nat)
    requires j < |ts| == |obs| && j <= FirstStop(ts, obs, |ts|) && !Running(ts[j], obs[j]) && obs[j].sendOk
    ensures var p, m := ReportPass(ts, obs), |Sent(ts, obs, j)|;
            && m <= j && m < |p.sent| && p.sent[m] == ReportPacket(ts[j], obs[j], |ts| - m)
            && (j == FirstStop(ts, obs, |ts|) ==> p.closed && m == |p.sent| - 1 && EndsWith(p.tasks, ts[j..]))
  {
    PassSizes(ts, obs, j);
    var k := FirstStop(ts, obs, |ts|);
    if j < k { SentAt(ts, obs, j, k); }
  }

  /** A task that a pass comes to, whose process is not alive and whose report is taken, is reported as it is, with
      the cores less the tasks that are left; and the pass ends with it exactly when it is to abort on an error and
      the report is one of an error. */
  lemma {:induction false} ReportSays(ts: seq<DaemonTask>, obs: seq<Observation>, j: nat) returns (m: nat)
    requires j < |ts| == |obs| && forall i | 0 <= i < j :: GoesOn(ts[i], obs[i])
    requires !(ts[j].started && obs[j].first == Some(STILL_ACTIVE)) && obs[j].sendOk
    ensures var p := ReportPass(ts, obs);
            && m <= j && m < |p.sent| && Says(p.sent[m], ts[j], obs[j])
            && p.sent[m].info == Some(ReportedCredit(obs[j].cores, |ts| - m))
            && var r := p.sent[m].result.value;
               if ts[j].abortOnError && (r.processCode != EXITED || r.exitCode != 0) then
                 p.closed && m == |p.sent| - 1 && EndsWith(p.tasks, ts[j..])
               else GoesOn(ts[j], obs[j])
  {
    m := |Sent(ts, obs, j)|;
    PassClosesExactly(ts, obs);
    ExitCode259IsNeverSeen(ts[j].started, obs[j].first);
    PassSends(ts, obs, j);
    ReportIsTrue(ts[j], obs[j], |ts| - m);
  }

  predicate EndsWith(ts: seq<DaemonTask>, last: seq<DaemonTask>) {
    |ts| >= |last| && ts[|ts| - |last|..] == last
  }

  // ---- Receiving ----

  datatype Launch = Launch(application: string, commandLine: string, workingDir: string)

  function LaunchOf(m: Message, p: Project): Launch {
    Launch(Replace(m.application, PDIR, p.path), Replace(m.commandLine, PDIR, p.workPath),
           Replace(m.workingDir, PDIR, p.path))
  }

  function TaskOf(m: Message, p: Project, started: bool): DaemonTask {
    DaemonTask(m.id, started, Replace(m.sourceFile, PDIR, p.workPath), Replace(m.outputFile, PDIR, p.workPath),
               m.abortOnError)
  }

  /** One packet with what the machine does with it: whether it parses, whether its source file can
      be saved and whether the process starts. */
  datatype Delivery = Delivery(packet: Option<MasterPacket>, saved: bool, started: bool)

  datatype Intake = Intake(tasks: seq<DaemonTask>, launched: seq<Launch>, stay: bool)

  function TakePacket(ts: seq<DaemonTask>, d: Delivery, projects: map<string, Project>): Intake {
    if d.packet.None? then Intake(ts, [], false)
    else
      var p := d.packet.value;
      if p.task.None? then Intake(ts, [], !p.close)
      else if p.task.value.project !in projects || !d.saved then Intake(ts, [], false)
      else
        var prj := projects[p.task.value.project];
        Intake(ts + [TaskOf(p.task.value, prj, d.started)], [LaunchOf(p.task.value, prj)], !p.close)
  }

  function TakeAll(ts: seq<DaemonTask>, ds: seq<Delivery>, projects: map<string, Project>): Intake
    decreases |ds|
  {
    if ds == [] then Intake(ts, [], true)
    else
      var a := TakePacket(ts, ds[0], projects);
      if !a.stay then a
      else
        var b := TakeAll(a.tasks, ds[1..], projects);
        Intake(b.tasks, a.launched + b.launched, b.stay)
  }

  // ---- What is taken is launched ----

  /** The daemon can run the task of the delivery: it has one, knows its project and can save its source file. */
  predicate Accepts(d: Delivery, projects: map<string, Project>) {
    d.packet.Some? && d.packet.value.task.Some? && d.packet.value.task.value.project in projects && d.saved
  }

  /** The connection goes on after the delivery. */
  predicate StaysOpen(d: Delivery, projects: map<string, Project>) {
    d.packet.Some? && !d.packet.value.close && (d.packet.value.task.Some? ==> Accepts(d, projects))
  }

  predicate AllStayOpen(ds: seq<Delivery>, n: nat, projects: map<string, Project>)
    requires n <= |ds|
  {
    forall j | 0 <= j < n :: StaysOpen(ds[j], projects)
  }

  /** The task of the `i`-th delivery is accepted, and no end of the connection comes before it. */
  predicate Admits(ds: seq<Delivery>, i: nat, projects: map<string, Project>)
    requires i < |ds|
  {
    Accepts(ds[i], projects) && AllStayOpen(ds, i, projects)
  }

  /** All of those among the first `n`, in order. */
  function Admitted(ds: seq<Delivery>, n: nat, projects: map<string, Project>): (at: seq<nat>)
    requires n <= |ds|
    ensures forall k | 0 <= k < |at| :: at[k] < n && Admits(ds, at[k], projects)
    ensures forall k, l | 0 <= k < l < |at| :: at[k] < at[l]
    ensures forall i | 0 <= i < n && Admits(ds, i, projects) :: i in at
  {
    if n == 0 then []
    else
      var front := Admitted(ds, n - 1, projects);
      if Admits(ds, n - 1, projects) then front + [n - 1] else front
  }

  /** One process was launched for the delivery, and the list has its task. */
  predicate LaunchedFor(l: Launch, t: DaemonTask, d: Delivery, projects: map<string, Project>)
    requires Accepts(d, projects)
  {
    var m, p := d.packet.value.task.value, projects[d.packet.value.task.value.project];
    && l.application == Replace(m.application, PDIR, p.path)
    && l.workingDir == Replace(m.workingDir, PDIR, p.path)
    && l.commandLine == Replace(m.commandLine, PDIR, p.workPath)
    && t.id == m.id && t.started == d.started && t.abortOnError == m.abortOnError
    && t.sourceFile == Replace(m.sourceFile, PDIR, p.workPath)
    && t.outputFile == Replace(m.outputFile, PDIR, p.workPath)
  }

  predicate LaunchedAt(
    ts: seq<DaemonTask>, t: Intake, at: seq<nat>, ds: seq<Delivery>, projects: map<string, Project>, k: nat)
    requires k < |at| == |t.launched| && |t.tasks| == |ts| + |at|
  {
    at[k] < |ds| && Accepts(ds[at[k]], projects)
    && LaunchedFor(t.launched[k], t.tasks[|ts| + k], ds[at[k]], projects)
  }

  /** The list grows by one task, and one process is launched, for each of these deliveries, and nothing else. */
  predicate AllLaunched(
    ts: seq<DaemonTask>, t: Intake, at: seq<nat>, ds: seq<Delivery>, projects: map<string, Project>)
  {
    && |t.launched| == |at| && |t.tasks| == |ts| + |at| && t.tasks[..|ts|] == ts
    && forall k | 0 <= k < |at| :: LaunchedAt(ts, t, at, ds, projects, k)
  }

  lemma {:induction false} TakeSnoc(ts: seq<DaemonTask>, ds: seq<Delivery>, d: Delivery, projects: map<string, Project>)
    ensures var a := TakeAll(ts, ds, projects);
            var b := TakePacket(a.tasks, d, projects);
            TakeAll(ts, ds + [d], projects)
            == if a.stay then Intake(b.tasks, a.launched + b.launched, b.stay) else a
    decreases |ds|
  {
    if ds == [] {
      TakeOne(ts, d, projects);
      assert ds + [d] == [d] && TakeAll(ts, ds, projects) == Intake(ts, [], true);
      assert [] + TakePacket(ts, d, projects).launched == TakePacket(ts, d, projects).launched;
    } else {
      assert (ds + [d])[0] == ds[0] && (ds + [d])[1..] == ds[1..] + [d];
      var first := TakePacket(ts, ds[0], projects);
      if first.stay {
        TakeSnoc(first.tasks, ds[1..], d, projects);
        var a := TakeAll(first.tasks, ds[1..], projects);
        LaunchesJoin(first.launched, a.launched, TakePacket(a.tasks, d, projects).launched);
      }
    }
  }

  lemma {:induction false} LaunchesJoin(a: seq<Launch>, b: seq<Launch>, c: seq<Launch>)
    ensures a + (b + c) == a + b + c
  {
  }

  lemma {:induction false} TakeOne(ts: seq<DaemonTask>, d: Delivery, projects: map<string, Project>)
    ensures TakeAll(ts, [d], projects) == TakePacket(ts, d, projects)
  {
    var a := TakePacket(ts, d, projects);
    assert [d][1..] == [] && a.launched + [] == a.launched;
  }

  lemma {:induction false} PacketLaunches(ts: seq<DaemonTask>, d: Delivery, projects: map<string, Project>)
    ensures var t := TakePacket(ts, d, projects);
            && t.stay == StaysOpen(d, projects)
            && if Accepts(d, projects) then
                 |t.launched| == 1 && |t.tasks| == |ts| + 1 && t.tasks[..|ts|] == ts
                 && LaunchedFor(t.launched[0], t.tasks[|ts|], d, projects)
               else t.launched == [] && t.tasks == ts
  {
  }

  lemma {:induction false} OneMoreLaunched(
    ts: seq<DaemonTask>, a: Intake, at: seq<nat>, ds: seq<Delivery>, n: nat, projects: map<string, Project>)
    requires n < |ds| && AllLaunched(ts, a, at, ds, projects) && Accepts(ds[n], projects)
    ensures var b := TakePacket(a.tasks, ds[n], projects);
            AllLaunched(ts, Intake(b.tasks, a.launched + b.launched, b.stay), at + [n], ds, projects)
  {
    var b := TakePacket(a.tasks, ds[n], projects);
    var t := Intake(b.tasks, a.launched + b.launched, b.stay);
    PacketLaunches(a.tasks, ds[n], projects);
    forall k | 0 <= k < |at + [n]| ensures LaunchedAt(ts, t, at + [n], ds, projects, k) {
      if k < |at| {
        assert LaunchedAt(ts, a, at, ds, projects, k);
        assert b.tasks[..|a.tasks|][|ts| + k] == a.tasks[|ts| + k];
      }
    }
    assert t.tasks[..|ts|] == b.tasks[..|a.tasks|][..|ts|];
  }

  /** What is known after the first `n` deliveries. */
  predicate TookFirst(ts: seq<DaemonTask>, t: Intake, ds: seq<Delivery>, n: nat, projects: map<string, Project>)
    requires n <= |ds|
  {
    AllLaunched(ts, t, Admitted(ds, n, projects), ds, projects) && t.stay == AllStayOpen(ds, n, projects)
  }

  lemma {:induction false} NoneLaunched(
    ts: seq<DaemonTask>, a: Intake, b: Intake, at: seq<nat>, ds: seq<Delivery>, projects: map<string, Project>)
    requires AllLaunched(ts, a, at, ds, projects) && b.tasks == a.tasks && b.launched == a.launched
    ensures AllLaunched(ts, b, at, ds, projects)
  {
    forall k | 0 <= k < |at| ensures LaunchedAt(ts, b, at, ds, projects, k) {
      assert LaunchedAt(ts, a, at, ds, projects, k);
    }
  }

  lemma {:induction false} TakesNext(
    ts: seq<DaemonTask>, a: Intake, ds: seq<Delivery>, n: nat, projects: map<string, Project>)
    requires n < |ds| && TookFirst(ts, a, ds, n, projects) && a.stay
    ensures var b := TakePacket(a.tasks, ds[n], projects);
            TookFirst(ts, Intake(b.tasks, a.launched + b.launched, b.stay), ds, n + 1, projects)
  {
    var b, at := TakePacket(a.tasks, ds[n], projects), Admitted(ds, n, projects);
    PacketLaunches(a.tasks, ds[n], projects);
    if Accepts(ds[n], projects) {
      OneMoreLaunched(ts, a, at, ds, n, projects);
    } else {
      assert a.launched + [] == a.launched;
      NoneLaunched(ts, a, Intake(b.tasks, a.launched + b.launched, b.stay), at, ds, projects);
    }
  }

  lemma {:induction false} LaunchedUpTo(ts: seq<DaemonTask>, ds: seq<Delivery>, n: nat, projects: map<string, Project>)
    requires n <= |ds|
    ensures TookFirst(ts, TakeAll(ts, ds[..n], projects), ds, n, projects)
  {
    if n > 0 {
      LaunchedUpTo(ts, ds, n - 1, projects);
      var a := TakeAll(ts, ds[..n - 1], projects);
      assert ds[..n] == ds[..n - 1] + [ds[n - 1]];
      TakeSnoc(ts, ds[..n - 1], ds[n - 1], projects);
      if a.stay { TakesNext(ts, a, ds, n - 1, projects); }
    }
  }

  /** A batch adds one task and launches one process, relocated, for each of the tasks it brings that the daemon can
      run, in order, up to the packet that ends the connection, and for no other. The connection goes on exactly
      if no packet ends it. */
  lemma {:induction false} IntakeLaunches(ts: seq<DaemonTask>, ds: seq<Delivery>, projects: map<string, Project>)
    ensures var t, at := TakeAll(ts, ds, projects), Admitted(ds, |ds|, projects);
            && |t.launched| == |at| && |t.tasks| == |ts| + |at| && t.tasks[..|ts|] == ts
            && (forall k | 0 <= k < |at| ::
                  Admits(ds, at[k], projects)
                  && LaunchedFor(t.launched[k], t.tasks[|ts| + k], ds[at[k]], projects))
            && (t.stay <==> forall j | 0 <= j < |ds| :: StaysOpen(ds[j], projects))
  {
    assert ds[..|ds|] == ds;
    LaunchedUpTo(ts, ds, |ds|, projects);
    var t, at := TakeAll(ts, ds, projects), Admitted(ds, |ds|, projects);
    forall k | 0 <= k < |at|
      ensures LaunchedFor(t.launched[k], t.tasks[|ts| + k], ds[at[k]], projects)
    {
      assert LaunchedAt(ts, t, at, ds, projects, k);
    }
  }

  class TcpProtobufClient {
    const projects: map<string, Project>
    var tasks: seq<DaemonTask>
    var outbox: seq<SlavePacket>
    var launched: seq<Launch>
    var connected: bool

    constructor (projects: map<string, Project>)
      ensures this.projects == projects && tasks == [] && outbox == [] && launched == [] && connected
    {
      this.projects := projects;
      tasks, outbox, launched, connected := [], [], [], true;
    }

    /** Greets the server: one packet without a result, behind what is queued. Its credit is the number of
        free cores, a `uint32_t`, exactly when that fits the signed field; else it is negative, so that the
        server hands out nothing. */
    method OnConnect(cores: nat)
      requires cores < INT_LIMIT
      modifies this`outbox
      ensures |outbox| == |old(outbox)| + 1 && outbox[..|old(outbox)|] == old(outbox)
      ensures var hello := outbox[|old(outbox)|];
              && hello == Greeting(cores) && hello.result.None? && hello.info.Some?
              && (hello.info.value == cores <==> cores < 0x8000_0000)
              && (hello.info.value < 0 <==> cores >= 0x8000_0000)
    {
      outbox := outbox + [Greeting(cores)];
    }

    method BuildReport(task: DaemonTask, o: Observation, size: nat) returns (packet: SlavePacket, failed: bool)
      ensures packet == ReportPacket(task, o, size) && failed == Failed(task, o)
      ensures Says(packet, task, o) && (failed <==> !(task.started && o.second == Some(0)))
    {
      var (resultCode, exitCode) := ExitCodeResult(task.started, o.second);
      packet := SlavePacket(
        Some(ToInt32(ToUint32(o.cores - ToUint32(size)))),
        Some(Result(task.id, exitCode, resultCode, Some(o.output))));
      failed := resultCode != EXITED || exitCode != 0;
    }

    /** Looks at the task under the index: steps over it, reports and erases it, or breaks off. After an
        erasure the index is decremented, at 0 through the wrap of a `size_t`, and incremented again. */
    method VisitTask(ii: nat, o: Observation) returns (next: nat, broken: bool)
      requires ii < |tasks| < SIZE_LIMIT
      modifies this`tasks, this`outbox, this`connected
      ensures var t, running := old(tasks)[ii], Running(old(tasks)[ii], o);
              && broken == Stops(t, o) && (broken <==> !GoesOn(t, o))
              && next == (if running then ii + 1 else ii)
              && tasks == (if running || broken then old(tasks) else EraseAt(old(tasks), ii))
              && outbox == old(outbox) + VisitPackets(t, o, |old(tasks)|)
              && connected == (old(connected) && !broken)
              && (running <==> t.started && o.first == Some(STILL_ACTIVE))
              && (!running && o.sendOk ==> LastSays(outbox, t, o))
    {
      var task := tasks[ii];
      next, broken := ii, false;
      if IsRunning(task.started, o.first) {
        next := Increment(next);
        return;
      }
      var packet, failed := BuildReport(task, o, |tasks|);
      if !o.sendOk {
        connected, broken := false, true;
        return;
      }
      outbox := outbox + [packet];
      if failed && task.abortOnError {
        connected, broken := false, true;
        return;
      }
      tasks := tasks[..ii] + tasks[ii + 1..];
      next := Decrement(next);
      next := Increment(next);
    }

    /** The report-and-erase loop: its result is the filter of the list as it was. */
    method DoWork(obs: seq<Observation>)
      requires |obs| == |tasks| < SIZE_LIMIT
      modifies this`tasks, this`outbox, this`connected
      ensures var p := ReportPass(old(tasks), obs);
              && tasks == p.tasks && outbox == old(outbox) + p.sent && connected == (old(connected) && !p.closed)
    {
      ghost var boxes := outbox;
      WalkIsWholePass(tasks, obs, outbox);
      var ii: nat, visits: nat := 0, 0;
      while ii < |tasks|
        invariant ii <= |tasks| < SIZE_LIMIT && visits <= |obs| && |tasks| - ii == |obs| - visits
        invariant Walk(tasks, ii, obs, visits, outbox) == Walk(old(tasks), 0, obs, 0, boxes)
        invariant connected == old(connected)
        decreases |tasks| - ii
      {
        WalkUnfolds(tasks, ii, obs, visits, outbox);
        var next, broken := VisitTask(ii, obs[visits]);
        if broken {
          break;
        }
        ii, visits := next, visits + 1;
      }
    }

    /** Takes the queued packets until one of them ends the connection. */
    method OnRecvFromNode(inbox: seq<Delivery>) returns (ok: bool)
      modifies this`tasks, this`launched
      ensures var t := TakeAll(old(tasks), inbox, projects);
              && tasks == t.tasks && launched == old(launched) + t.launched && ok == t.stay
    {
      var n := 0;
      while n < |inbox|
        invariant n <= |inbox|
        invariant var a, b := TakeAll(old(tasks), inbox, projects), TakeAll(tasks, inbox[n..], projects);
                  && a.tasks == b.tasks && a.stay == b.stay
                  && old(launched) + a.launched == launched + b.launched
      {
        var d := inbox[n];
        assert inbox[n..][1..] == inbox[n + 1..];
        n := n + 1;
        if d.packet.None? {
          return false;
        }
        if d.packet.value.task.Some? {
          var started := RunTaskProcess(d.packet.value.task.value, d.saved, d.started);
          if !started {
            return false;
          }
        }
        if d.packet.value.close {
          return false;
        }
      }
      return true;
    }

    method RunTaskProcess(m: Message, saved: bool, started: bool) returns (ok: bool)
      modifies this`tasks, this`launched
      ensures var t := TakePacket(old(tasks), Delivery(Some(MasterPacket(Some(m), false)), saved, started), projects);
              && tasks == t.tasks && launched == old(launched) + t.launched && ok == t.stay
      ensures ok <==> m.project in projects && saved
      ensures !ok ==> tasks == old(tasks) && launched == old(launched)
      ensures ok ==>
                var p := projects[m.project];
                && launched == old(launched) + [Launch(
                     Replace(m.application, PDIR, p.path), Replace(m.commandLine, PDIR, p.workPath),
                     Replace(m.workingDir, PDIR, p.path))]
                && tasks == old(tasks) + [DaemonTask(
                     m.id, started, Replace(m.sourceFile, PDIR, p.workPath),
                     Replace(m.outputFile, PDIR, p.workPath), m.abortOnError)]
    {
      if m.project !in projects {
        return false;
      }
      var prj := projects[m.project];
      var workingDir, application := Replace(m.workingDir, PDIR, prj.path), Replace(m.application, PDIR, prj.path);
      var commandLine := Replace(m.commandLine, PDIR, prj.workPath);
      var sourceFile := Replace(m.sourceFile, PDIR, prj.workPath);
      var outputFile := Replace(m.outputFile, PDIR, prj.workPath);
      if !saved {
        return false;
      }
      launched := launched + [Launch(application, commandLine, workingDir)];
      tasks := tasks + [DaemonTask(m.id, started, sourceFile, outputFile, m.abortOnError)];
      return true;
    }
  }
}
