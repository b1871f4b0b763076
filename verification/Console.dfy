/** The main thread of the console: it scans the task table, row by row under the row's lock, while the
    server thread goes on changing it, counts every finished task once and decides when the build is over.
    The server is an arbitrary schedule of single-row events; `schedule(k)` is what it gets done between
    the scan's k-th lock acquisition and the one before. */
module Console {
  import opened Wrappers
  import opened TaskTable
  import opened Lifecycle

  datatype SlaveInfo = SlaveInfo(success: nat, errors: nat)

  function Pick(t: SlaveInfo, bad: bool): nat {
    if bad then t.errors else t.success
  }

  function InfoOf(info: map<string, SlaveInfo>, ip: string): SlaveInfo {
    if ip in info then info[ip] else SlaveInfo(0, 0)
  }

  predicate Failed<N>(r: Row<N>) {
    r.result == NOT_STARTED || (r.result == EXITED && r.exitCode != 0)
  }

  predicate Succeeded<N>(r: Row<N>) {
    r.result == EXITED && r.exitCode == 0
  }

  predicate Verdict<N>(r: Row<N>, bad: bool) {
    if bad then Failed(r) else Succeeded(r)
  }

  // ---- The reference: counts over a finished table, with no scan ----

  /** How many of the first `k` rows were finished from `ip` with the given verdict. */
  function FinishedFrom<N>(table: seq<Row<N>>, ip: string, bad: bool, k: nat): nat
    requires k <= |table|
  {
    if k == 0 then 0
    else FinishedFrom(table, ip, bad, k - 1) + if table[k - 1].doneIp == ip && Verdict(table[k - 1], bad) then 1 else 0
  }

  function Finished<N>(table: seq<Row<N>>, bad: bool, k: nat): nat
    requires k <= |table|
  {
    if k == 0 then 0 else Finished(table, bad, k - 1) + if Verdict(table[k - 1], bad) then 1 else 0
  }

  /** The rows whose process exited with 0; and those whose process was not started or exited with another code. */
  ghost function Successes<N>(table: seq<Row<N>>, k: nat): set<int>
    requires k <= |table|
  {
    set j | 0 <= j < k && table[j].result == EXITED && table[j].exitCode == 0
  }

  ghost function Errors<N>(table: seq<Row<N>>, k: nat): set<int>
    requires k <= |table|
  {
    set j | 0 <= j < k && (table[j].result == NOT_STARTED || (table[j].result == EXITED && table[j].exitCode != 0))
  }

  ghost function DoneFrom<N>(table: seq<Row<N>>, ip: string, k: nat): set<int>
    requires k <= |table|
  {
    set j | 0 <= j < k && table[j].doneIp == ip
  }

  /** `b` is `a` with `x`, or without. */
  predicate Grows(a: set<int>, b: set<int>, x: int, inside: bool) {
    x !in a && b == if inside then a + {x} else a
  }

  lemma {:induction false} GrowsByOne(a: set<int>, b: set<int>, x: int, inside: bool)
    requires Grows(a, b, x, inside)
    ensures |b| == |a| + if inside then 1 else 0
  {
  }

  lemma {:induction false} BothGrow(a: set<int>, a': set<int>, b: set<int>, b': set<int>, x: int, inA: bool, inB: bool)
    requires Grows(a, a', x, inA) && Grows(b, b', x, inB)
    ensures Grows(a * b, a' * b', x, inA && inB)
  {
  }

  lemma {:induction false} VerdictsGrow<N>(table: seq<Row<N>>, k: nat)
    requires 0 < k <= |table|
    ensures Grows(Successes(table, k - 1), Successes(table, k), k - 1, Succeeded(table[k - 1]))
    ensures Grows(Errors(table, k - 1), Errors(table, k), k - 1, Failed(table[k - 1]))
  {
  }

  lemma {:induction false} DoneGrow<N>(table: seq<Row<N>>, ip: string, k: nat)
    requires 0 < k <= |table|
    ensures Grows(DoneFrom(table, ip, k - 1), DoneFrom(table, ip, k), k - 1, table[k - 1].doneIp == ip)
  {
  }

  /** What the counts count. */
  lemma {:induction false} TotalsAre<N>(table: seq<Row<N>>, k: nat)
    requires k <= |table|
    ensures Finished(table, false, k) == |Successes(table, k)| && Finished(table, true, k) == |Errors(table, k)|
  {
    if k > 0 {
      TotalsAre(table, k - 1);
      VerdictsGrow(table, k);
      GrowsByOne(Successes(table, k - 1), Successes(table, k), k - 1, Succeeded(table[k - 1]));
      GrowsByOne(Errors(table, k - 1), Errors(table, k), k - 1, Failed(table[k - 1]));
    }
  }

  /** Those with a verdict that were done from `ip`. */
  ghost function From<N>(table: seq<Row<N>>, ip: string, bad: bool, k: nat): set<int>
    requires k <= |table|
  {
    (if bad then Errors(table, k) else Successes(table, k)) * DoneFrom(table, ip, k)
  }

  lemma {:induction false} FromGrows<N>(table: seq<Row<N>>, ip: string, bad: bool, k: nat)
    requires 0 < k <= |table|
    ensures |From(table, ip, bad, k)|
            == |From(table, ip, bad, k - 1)| + if table[k - 1].doneIp == ip && Verdict(table[k - 1], bad) then 1 else 0
  {
    VerdictsGrow(table, k);
    DoneGrow(table, ip, k);
    var a, a' := if bad then Errors(table, k - 1) else Successes(table, k - 1),
      if bad then Errors(table, k) else Successes(table, k);
    BothGrow(
      a, a', DoneFrom(table, ip, k - 1), DoneFrom(table, ip, k), k - 1, Verdict(table[k - 1], bad),
      table[k - 1].doneIp == ip);
    GrowsByOne(
      From(table, ip, bad, k - 1), From(table, ip, bad, k), k - 1,
      Verdict(table[k - 1], bad) && table[k - 1].doneIp == ip);
  }

  lemma {:induction false} CountsAre<N>(table: seq<Row<N>>, ip: string, bad: bool, k: nat)
    requires k <= |table|
    ensures FinishedFrom(table, ip, bad, k) == |From(table, ip, bad, k)|
  {
    if k > 0 {
      CountsAre(table, ip, bad, k - 1);
      FromGrows(table, ip, bad, k);
    }
  }

  // ---- The scanned table against the table the server alone would have made ----

  predicate Counted<N>(r: Row<N>) {
    r.result != NO_INIT && r.doneIp == ""
  }

  /** `rows` is `table` with the marks of the counted rows cleared. */
  predicate Shadows<N(==)>(rows: seq<Row<N>>, table: seq<Row<N>>) {
    && |rows| == |table|
    && forall j | 0 <= j < |rows| ::
         && (table[j].result != NO_INIT ==> table[j].doneIp != "")
         && rows[j] == if Counted(rows[j]) then table[j].(doneIp := "") else table[j]
  }

  /** Counted so far, among the first `k` rows. */
  function CountedFrom<N>(rows: seq<Row<N>>, table: seq<Row<N>>, ip: string, bad: bool, k: nat): nat
    requires k <= |rows| == |table|
  {
    if k == 0 then 0
    else
      CountedFrom(rows, table, ip, bad, k - 1)
      + if Counted(rows[k - 1]) && table[k - 1].doneIp == ip && Verdict(table[k - 1], bad) then 1 else 0
  }

  function CountedAll<N>(rows: seq<Row<N>>, table: seq<Row<N>>, bad: bool, k: nat): nat
    requires k <= |rows| == |table|
  {
    if k == 0 then 0
    else CountedAll(rows, table, bad, k - 1) + if Counted(rows[k - 1]) && Verdict(table[k - 1], bad) then 1 else 0
  }

  /** A schedule treats both tables alike, and touches no counted row. */
  lemma {:induction false} FireShadows<N>(rows: seq<Row<N>>, table: seq<Row<N>>, es: seq<Event<N>>)
    requires Shadows(rows, table) && Sound(table)
    ensures Shadows(FireAll(rows, es), FireAll(table, es)) && Sound(FireAll(table, es))
    ensures forall j | 0 <= j < |rows| ::
              && Counted(FireAll(rows, es)[j]) == Counted(rows[j])
              && (rows[j].result != NO_INIT ==> FireAll(rows, es)[j] == rows[j] && FireAll(table, es)[j] == table[j])
  {
    if es != [] {
      var last := |es| - 1;
      FireShadows(rows, table, es[..last]);
      FireOneShadows(FireAll(rows, es[..last]), FireAll(table, es[..last]), es[last]);
    }
  }

  lemma {:induction false} FireOneShadows<N>(rows: seq<Row<N>>, table: seq<Row<N>>, e: Event<N>)
    requires Shadows(rows, table) && Sound(table)
    ensures Shadows(Fire(rows, e), Fire(table, e)) && Sound(Fire(table, e))
    ensures forall j | 0 <= j < |rows| ::
              && Counted(Fire(rows, e)[j]) == Counted(rows[j])
              && (rows[j].result != NO_INIT ==> Fire(rows, e)[j] == rows[j] && Fire(table, e)[j] == table[j])
  {
  }

  lemma {:induction false} SameCounts<N>(
    rows: seq<Row<N>>, table: seq<Row<N>>, rows': seq<Row<N>>, table': seq<Row<N>>, ip: string, bad: bool, k: nat)
    requires k <= |rows| == |table| == |rows'| == |table'|
    requires forall j | 0 <= j < k ::
               Counted(rows'[j]) == Counted(rows[j]) && (Counted(rows[j]) ==> table'[j] == table[j])
    ensures CountedFrom(rows', table', ip, bad, k) == CountedFrom(rows, table, ip, bad, k)
    ensures CountedAll(rows', table', bad, k) == CountedAll(rows, table, bad, k)
  {
    if k > 0 { SameCounts(rows, table, rows', table', ip, bad, k - 1); }
  }

  /** Clearing the mark of row `i` counts it, once. */
  lemma {:induction false} CountOne<N>(
    rows: seq<Row<N>>, table: seq<Row<N>>, i: nat, ip: string, bad: bool, k: nat)
    requires k <= |rows| == |table| && i < |rows| && rows[i].result != NO_INIT && rows[i].doneIp != ""
    ensures var rows' := rows[i := rows[i].(doneIp := "")];
            && CountedFrom(rows', table, ip, bad, k)
               == CountedFrom(rows, table, ip, bad, k)
                  + (if i < k && table[i].doneIp == ip && Verdict(table[i], bad) then 1 else 0)
            && CountedAll(rows', table, bad, k)
               == CountedAll(rows, table, bad, k) + (if i < k && Verdict(table[i], bad) then 1 else 0)
  {
    if k > 0 { CountOne(rows, table, i, ip, bad, k - 1); }
  }

  lemma {:induction false} AllCounted<N>(rows: seq<Row<N>>, table: seq<Row<N>>, ip: string, bad: bool, k: nat)
    requires k <= |rows| == |table| && forall j | 0 <= j < k :: Counted(rows[j])
    ensures CountedFrom(rows, table, ip, bad, k) == FinishedFrom(table, ip, bad, k)
    ensures CountedAll(rows, table, bad, k) == Finished(table, bad, k)
  {
    if k > 0 { AllCounted(rows, table, ip, bad, k - 1); }
  }

  lemma {:induction false} NoneCounted<N>(rows: seq<Row<N>>, table: seq<Row<N>>, ip: string, bad: bool, k: nat)
    requires k <= |rows| == |table| && forall j | 0 <= j < k :: !Counted(rows[j])
    ensures CountedFrom(rows, table, ip, bad, k) == 0 && CountedAll(rows, table, bad, k) == 0
  {
    if k > 0 { NoneCounted(rows, table, ip, bad, k - 1); }
  }

  // ---- The per-address map ----

  ghost function Sum(info: map<string, SlaveInfo>, bad: bool): nat
    decreases |info|
  {
    if info == map[] then 0
    else
      var ip :| ip in info;
      Pick(info[ip], bad) + Sum(info - {ip}, bad)
  }

  lemma {:induction false} SumWithout(info: map<string, SlaveInfo>, ip: string, bad: bool)
    requires ip in info
    ensures Sum(info, bad) == Pick(info[ip], bad) + Sum(info - {ip}, bad)
    decreases |info|
  {
    var first :| first in info && Sum(info, bad) == Pick(info[first], bad) + Sum(info - {first}, bad);
    if first != ip {
      SumWithout(info - {first}, ip, bad);
      SumWithout(info - {ip}, first, bad);
      assert info - {first} - {ip} == info - {ip} - {first};
    }
  }

  lemma {:induction false} SumUpdate(info: map<string, SlaveInfo>, ip: string, t: SlaveInfo, bad: bool)
    ensures Sum(info[ip := t], bad) + Pick(InfoOf(info, ip), bad) == Sum(info, bad) + Pick(t, bad)
  {
    SumWithout(info[ip := t], ip, bad);
    assert info[ip := t] - {ip} == info - {ip};
    if ip in info { SumWithout(info, ip, bad); } else { assert info - {ip} == info; }
  }

  /** The totals that are printed, summed over the map in any order. */
  method Recount(info: map<string, SlaveInfo>) returns (countError: nat, countSuccess: nat)
    ensures countError == Sum(info, true) && countSuccess == Sum(info, false)
  {
    countError, countSuccess := 0, 0;
    var rest := info;
    while rest != map[]
      invariant countError + Sum(rest, true) == Sum(info, true)
      invariant countSuccess + Sum(rest, false) == Sum(info, false)
      decreases |rest|
    {
      var ip :| ip in rest;
      countError := countError + rest[ip].errors;
      countSuccess := countSuccess + rest[ip].success;
      SumWithout(rest, ip, true);
      SumWithout(rest, ip, false);
      rest := rest - {ip};
    }
  }

  // ---- The scan ----

  /** What the map says is what has been counted. */
  ghost predicate Faithful<N>(info: map<string, SlaveInfo>, rows: seq<Row<N>>, table: seq<Row<N>>) {
    && |rows| == |table|
    && (forall ip, bad :: Pick(InfoOf(info, ip), bad) == CountedFrom(rows, table, ip, bad, |rows|))
    && (forall bad :: Sum(info, bad) == CountedAll(rows, table, bad, |rows|))
  }

  function Bumped(info: map<string, SlaveInfo>, ip: string, bad: bool): map<string, SlaveInfo> {
    var t := InfoOf(info, ip);
    info[ip := if bad then SlaveInfo(t.success, t.errors + 1) else SlaveInfo(t.success + 1, t.errors)]
  }

  /** The locked block of the scan for a row that is done and not counted yet. */
  method CountRow<N>(info: map<string, SlaveInfo>, rows: seq<Row<N>>, i: nat, ghost table: seq<Row<N>>)
    returns (info': map<string, SlaveInfo>, rows': seq<Row<N>>)
    requires i < |rows| && rows[i].result != NO_INIT && rows[i].doneIp != ""
    requires Shadows(rows, table) && Faithful(info, rows, table)
    ensures rows' == rows[i := rows[i].(doneIp := "")]
    ensures Shadows(rows', table) && Faithful(info', rows', table)
  {
    info' := info;
    var task := rows[i];
    if task.result == NOT_STARTED {
      info' := Bumped(info', task.doneIp, true);
    }
    if task.result == EXITED {
      if task.exitCode != 0 {
        info' := Bumped(info', task.doneIp, true);
      } else {
        info' := Bumped(info', task.doneIp, false);
      }
    }
    rows' := rows[i := task.(doneIp := "")];
    BumpIsFaithful(info, info', rows, table, i);
  }

  lemma {:induction false} BumpIsFaithful<N>(
    info: map<string, SlaveInfo>, info': map<string, SlaveInfo>, rows: seq<Row<N>>, table: seq<Row<N>>, i: nat)
    requires i < |rows| && rows[i].result != NO_INIT && rows[i].doneIp != ""
    requires Shadows(rows, table) && Faithful(info, rows, table)
    requires info' == if Failed(table[i]) then Bumped(info, table[i].doneIp, true)
                      else if Succeeded(table[i]) then Bumped(info, table[i].doneIp, false) else info
    ensures Faithful(info', rows[i := rows[i].(doneIp := "")], table)
  {
    var rows' := rows[i := rows[i].(doneIp := "")];
    forall ip, bad ensures Pick(InfoOf(info', ip), bad) == CountedFrom(rows', table, ip, bad, |rows'|) {
      assert Pick(InfoOf(info, ip), bad) == CountedFrom(rows, table, ip, bad, |rows|);
      CountOne(rows, table, i, ip, bad, |rows|);
    }
    var at := table[i].doneIp;
    forall bad ensures Sum(info', bad) == CountedAll(rows', table, bad, |rows'|) {
      assert Pick(InfoOf(info, at), bad) == CountedFrom(rows, table, at, bad, |rows|);
      assert Sum(info, bad) == CountedAll(rows, table, bad, |rows|);
      CountOne(rows, table, i, at, bad, |rows|);
      if Failed(table[i]) || Succeeded(table[i]) { SumUpdate(info, at, info'[at], bad); }
    }
  }

  /** What the server has got done by the scan's n-th lock acquisition. */
  function History<N>(schedule: nat -> seq<Event<N>>, n: nat): seq<Event<N>> {
    if n == 0 then [] else History(schedule, n - 1) + schedule(n - 1)
  }

  /** The table the server alone would have made of `initial` by then. */
  function TableAt<N>(initial: seq<Row<N>>, schedule: nat -> seq<Event<N>>, n: nat): (table: seq<Row<N>>)
    ensures |table| == |initial|
  {
    FireAll(initial, History(schedule, n))
  }

  predicate Undone<N>(table: seq<Row<N>>) {
    exists j :: 0 <= j < |table| && table[j].result == NO_INIT
  }

  predicate StillDone<N>(before: seq<Row<N>>, now: seq<Row<N>>) {
    |before| == |now| && forall j | 0 <= j < |now| :: now[j].result == NO_INIT ==> before[j].result == NO_INIT
  }

  predicate AllCountedTo<N>(rows: seq<Row<N>>, k: nat) {
    k <= |rows| && forall j | 0 <= j < k :: Counted(rows[j])
  }

  ghost predicate Scanned<N>(info: map<string, SlaveInfo>, rows: seq<Row<N>>, table: seq<Row<N>>) {
    Shadows(rows, table) && Sound(table) && Faithful(info, rows, table)
  }

  /** Within a pass that began with the table `start`. */
  ghost predicate Within<N>(
    info: map<string, SlaveInfo>, rows: seq<Row<N>>, table: seq<Row<N>>, start: seq<Row<N>>)
  {
    Scanned(info, rows, table) && StillDone(start, table)
  }

  /** What `finished` means after the first `k` rows of a pass. */
  predicate Tells<N>(finished: bool, rows: seq<Row<N>>, k: nat, start: seq<Row<N>>) {
    if finished then AllCountedTo(rows, k) else Undone(start)
  }

  /** One pass over the tasks. It finds all of them finished only if they are and have been counted, and
      fails to only if some task was not done when it began. */
  method ScanPass<N>(
    ghost initial: seq<Row<N>>, schedule: nat -> seq<Event<N>>, rows: seq<Row<N>>, info: map<string, SlaveInfo>,
    locks: nat)
    returns (finished: bool, rows': seq<Row<N>>, info': map<string, SlaveInfo>, locks': nat)
    requires Scanned(info, rows, TableAt(initial, schedule, locks))
    ensures locks' == locks + |rows| && Scanned(info', rows', TableAt(initial, schedule, locks'))
    ensures finished ==> AllCountedTo(rows', |rows'|)
    ensures !finished ==> Undone(TableAt(initial, schedule, locks))
  {
    finished, rows', info', locks' := true, rows, info, locks;
    ghost var start := TableAt(initial, schedule, locks);
    for i := 0 to |rows|
      invariant locks' == locks + i
      invariant Within(info', rows', TableAt(initial, schedule, locks'), start)
      invariant Tells(finished, rows', i, start)
    {
      finished, info', rows' := ScanRow(initial, schedule, finished, rows', info', locks', i, start);
      locks' := locks' + 1;
    }
  }

  /** The server gets on, and then the row is locked. */
  method ScanRow<N>(
    ghost initial: seq<Row<N>>, schedule: nat -> seq<Event<N>>, finished: bool, rows: seq<Row<N>>,
    info: map<string, SlaveInfo>, locks: nat, i: nat, ghost start: seq<Row<N>>)
    returns (finished': bool, info': map<string, SlaveInfo>, rows': seq<Row<N>>)
    requires i < |rows| && Within(info, rows, TableAt(initial, schedule, locks), start)
    requires Tells(finished, rows, i, start)
    ensures Within(info', rows', TableAt(initial, schedule, locks + 1), start)
    ensures Tells(finished', rows', i + 1, start)
  {
    AfterSchedule(initial, schedule, locks, rows, info, start);
    finished', info', rows' := finished, info, FireAll(rows, schedule(locks));
    if rows'[i].result == NO_INIT {
      assert start[i].result == NO_INIT;
      finished' := false;
      return;
    }
    if rows'[i].doneIp == "" {
      return;
    }
    info', rows' := CountRow(info', rows', i, TableAt(initial, schedule, locks + 1));
  }

  /** Every task is done, and map and totals say what the finished table says. */
  ghost predicate Accounted<N>(
    table: seq<Row<N>>, rows: seq<Row<N>>, info: map<string, SlaveInfo>, countError: nat, countSuccess: nat)
  {
    && |rows| == |table|
    && (forall j | 0 <= j < |rows| :: table[j].result != NO_INIT && rows[j] == table[j].(doneIp := ""))
    && (forall ip :: InfoOf(info, ip)
          == SlaveInfo(FinishedFrom(table, ip, false, |table|), FinishedFrom(table, ip, true, |table|)))
    && countError == Finished(table, true, |table|) == |Errors(table, |table|)|
    && countSuccess == Finished(table, false, |table|) == |Successes(table, |table|)|
    && (countError + countSuccess == |table| <==>
          forall j | 0 <= j < |table| :: table[j].result == NOT_STARTED || table[j].result == EXITED)
  }

  /** On the rows' fields: the totals, and what the map says for every address. */
  lemma {:induction false} AccountedOnFields<N>(
    table: seq<Row<N>>, rows: seq<Row<N>>, info: map<string, SlaveInfo>, countError: nat, countSuccess: nat)
    requires Accounted(table, rows, info, countError, countSuccess)
    ensures countSuccess == |set j | 0 <= j < |table| && table[j].result == EXITED && table[j].exitCode == 0|
    ensures countError == |set j | 0 <= j < |table|
                                   && (table[j].result == NOT_STARTED
                                       || (table[j].result == EXITED && table[j].exitCode != 0))|
    ensures forall ip ::
              InfoOf(info, ip) == SlaveInfo(|From(table, ip, false, |table|)|, |From(table, ip, true, |table|)|)
  {
    assert Successes(table, |table|) == set j | 0 <= j < |table| && table[j].result == EXITED && table[j].exitCode == 0;
    assert Errors(table, |table|) == set j | 0 <= j < |table|
                                             && (table[j].result == NOT_STARTED
                                                 || (table[j].result == EXITED && table[j].exitCode != 0));
    forall ip
      ensures InfoOf(info, ip) == SlaveInfo(|From(table, ip, false, |table|)|, |From(table, ip, true, |table|)|)
    {
      CountsAre(table, ip, false, |table|);
      CountsAre(table, ip, true, |table|);
    }
  }

  /** The scan loop, given up after `patience` passes. Whatever the server does between two locks: if it ends
      with `finished` then every task has its final result, every task was counted exactly once and for the
      address its result came from, and the totals come to the whole table exactly when every result carries
      one of the two codes that are counted. It is given up only after all its passes, and never if all tasks
      were done early enough for one more whole pass. */
  method ScanUntilFinished<N>(initial: seq<Row<N>>, schedule: nat -> seq<Event<N>>, patience: nat)
    returns (
      finished: bool, rows: seq<Row<N>>, info: map<string, SlaveInfo>, countError: nat, countSuccess: nat, locks: nat)
    requires forall j | 0 <= j < |initial| :: initial[j] == FreshRow(initial[j].message)
    ensures Shadows(rows, TableAt(initial, schedule, locks)) && locks <= patience * |initial|
    ensures finished ==> Accounted(TableAt(initial, schedule, locks), rows, info, countError, countSuccess)
    ensures !finished ==> locks == patience * |initial|
    ensures forall n: nat | !Undone(TableAt(initial, schedule, n)) ::
              patience > 0 && n + |initial| <= patience * |initial| ==> finished
  {
    StartsFaithful(initial);
    finished, rows, info, countError, countSuccess, locks := ScanPasses(initial, schedule, initial, map[], patience);
    if patience > 0 && !finished {
      forall n: nat | !Undone(TableAt(initial, schedule, n)) ensures locks < n + |initial| {
        if n + |initial| <= locks { StaysDone(initial, schedule, n, locks - |initial|); }
      }
    }
  }

  method ScanPasses<N>(
    ghost initial: seq<Row<N>>, schedule: nat -> seq<Event<N>>, rows0: seq<Row<N>>, info0: map<string, SlaveInfo>,
    patience: nat)
    returns (
      finished: bool, rows: seq<Row<N>>, info: map<string, SlaveInfo>, countError: nat, countSuccess: nat, locks: nat)
    requires Scanned(info0, rows0, TableAt(initial, schedule, 0))
    ensures Scanned(info, rows, TableAt(initial, schedule, locks)) && locks <= patience * |initial|
    ensures finished ==> Accounted(TableAt(initial, schedule, locks), rows, info, countError, countSuccess)
    ensures !finished ==> locks == patience * |initial|
    ensures !finished && patience > 0 ==> locks >= |initial| && Undone(TableAt(initial, schedule, locks - |initial|))
  {
    finished, rows, info, locks := false, rows0, info0, 0;
    countError, countSuccess := 0, 0;
    var pass := 0;
    while pass < patience
      invariant !finished && pass <= patience && locks == pass * |initial| <= patience * |initial|
      invariant Scanned(info, rows, TableAt(initial, schedule, locks))
      invariant pass > 0 ==> locks >= |initial| && Undone(TableAt(initial, schedule, locks - |initial|))
      decreases patience - pass
    {
      OneMorePass(pass, patience, |initial|);
      finished, rows, info, locks, countError, countSuccess := ScanAndCount(initial, schedule, rows, info, locks);
      pass := pass + 1;
      if finished { break; }
    }
  }

  lemma {:induction false} OneMorePass(pass: nat, patience: nat, size: nat)
    requires pass < patience
    ensures pass * size + size == (pass + 1) * size <= patience * size
  {
  }

  /** One pass, and the totals after it. */
  method ScanAndCount<N>(
    ghost initial: seq<Row<N>>, schedule: nat -> seq<Event<N>>, rows: seq<Row<N>>, info: map<string, SlaveInfo>,
    locks: nat)
    returns (
      finished: bool, rows': seq<Row<N>>, info': map<string, SlaveInfo>, locks': nat, countError: nat,
      countSuccess: nat)
    requires Scanned(info, rows, TableAt(initial, schedule, locks))
    ensures locks' == locks + |initial| && Scanned(info', rows', TableAt(initial, schedule, locks'))
    ensures finished ==> Accounted(TableAt(initial, schedule, locks'), rows', info', countError, countSuccess)
    ensures !finished ==> Undone(TableAt(initial, schedule, locks))
  {
    finished, rows', info', locks' := ScanPass(initial, schedule, rows, info, locks);
    countError, countSuccess := Recount(info');
    if finished { Conclude(info', rows', TableAt(initial, schedule, locks')); }
  }

  lemma {:induction false} StaysDone<N>(initial: seq<Row<N>>, schedule: nat -> seq<Event<N>>, m: nat, n: nat)
    requires forall j | 0 <= j < |initial| :: initial[j] == FreshRow(initial[j].message)
    requires m <= n && !Undone(TableAt(initial, schedule, m))
    ensures !Undone(TableAt(initial, schedule, n))
  {
    if m < n {
      StaysDone(initial, schedule, m, n - 1);
      var before := TableAt(initial, schedule, n - 1);
      DoneForever(initial, History(schedule, n - 1));
      FireAllJoin(initial, History(schedule, n - 1), schedule(n - 1));
      DoneForever(before, schedule(n - 1));
      forall j | 0 <= j < |initial| ensures TableAt(initial, schedule, n)[j].result != NO_INIT {
        assert before[j].result != NO_INIT;
      }
    }
  }

  lemma {:induction false} StartsFaithful<N>(rows: seq<Row<N>>)
    requires forall j | 0 <= j < |rows| :: rows[j] == FreshRow(rows[j].message)
    ensures Shadows(rows, rows) && Sound(rows) && Faithful(map[], rows, rows)
  {
    forall ip, bad ensures CountedFrom(rows, rows, ip, bad, |rows|) == 0 {
      NoneCounted(rows, rows, ip, bad, |rows|);
    }
    forall bad ensures CountedAll(rows, rows, bad, |rows|) == 0 {
      NoneCounted(rows, rows, "", bad, |rows|);
    }
  }

  lemma {:induction false} AfterSchedule<N>(
    initial: seq<Row<N>>, schedule: nat -> seq<Event<N>>, n: nat, rows: seq<Row<N>>, info: map<string, SlaveInfo>,
    start: seq<Row<N>>)
    requires Scanned(info, rows, TableAt(initial, schedule, n)) && StillDone(start, TableAt(initial, schedule, n))
    ensures var table, rows' := TableAt(initial, schedule, n + 1), FireAll(rows, schedule(n));
            && Scanned(info, rows', table) && StillDone(start, table)
            && forall j | 0 <= j < |rows| :: Counted(rows'[j]) == Counted(rows[j])
  {
    var table, es := TableAt(initial, schedule, n), schedule(n);
    FireAllJoin(initial, History(schedule, n), es);
    FireShadows(rows, table, es);
    DoneForever(table, es);
    ScheduleIsFaithful(rows, table, es, info);
  }

  lemma {:induction false} ScheduleIsFaithful<N>(
    rows: seq<Row<N>>, table: seq<Row<N>>, es: seq<Event<N>>, info: map<string, SlaveInfo>)
    requires Scanned(info, rows, table)
    ensures Faithful(info, FireAll(rows, es), FireAll(table, es))
  {
    FireShadows(rows, table, es);
    forall ip, bad
      ensures CountedFrom(FireAll(rows, es), FireAll(table, es), ip, bad, |rows|)
              == CountedFrom(rows, table, ip, bad, |rows|)
    {
      SameCounts(rows, table, FireAll(rows, es), FireAll(table, es), ip, bad, |rows|);
    }
    forall bad
      ensures CountedAll(FireAll(rows, es), FireAll(table, es), bad, |rows|) == CountedAll(rows, table, bad, |rows|)
    {
      SameCounts(rows, table, FireAll(rows, es), FireAll(table, es), "", bad, |rows|);
    }
  }

  lemma {:induction false} Conclude<N>(info: map<string, SlaveInfo>, rows: seq<Row<N>>, table: seq<Row<N>>)
    requires Shadows(rows, table) && Faithful(info, rows, table) && AllCountedTo(rows, |rows|)
    ensures Accounted(table, rows, info, Sum(info, true), Sum(info, false))
  {
    forall ip ensures InfoOf(info, ip)
        == SlaveInfo(FinishedFrom(table, ip, false, |table|), FinishedFrom(table, ip, true, |table|))
    {
      AllCounted(rows, table, ip, true, |rows|);
      AllCounted(rows, table, ip, false, |rows|);
      assert Pick(InfoOf(info, ip), true) == CountedFrom(rows, table, ip, true, |rows|);
      assert Pick(InfoOf(info, ip), false) == CountedFrom(rows, table, ip, false, |rows|);
    }
    AllCounted(rows, table, "", true, |rows|);
    AllCounted(rows, table, "", false, |rows|);
    TwoCodes(table, |table|);
    TotalsAre(table, |table|);
  }

  lemma {:induction false} TwoCodes<N>(table: seq<Row<N>>, k: nat)
    requires k <= |table|
    ensures Finished(table, true, k) + Finished(table, false, k) <= k
    ensures Finished(table, true, k) + Finished(table, false, k) == k <==>
              forall j | 0 <= j < k :: table[j].result == NOT_STARTED || table[j].result == EXITED
  {
    if k > 0 { TwoCodes(table, k - 1); }
  }
}
