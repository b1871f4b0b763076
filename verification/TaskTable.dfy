/** The console's task table and the pure meaning of every operation on it.
    A row is one `TaskInfo`; `N` is whatever identifies a connected client: the node object
    itself in `Server`, a connection number in `Dispatch`. */
module TaskTable {
  import opened Wrappers

  // ExitCodeResult; the server casts an arbitrary int32 into it, so results are plain integers.
  const NO_INIT := -100
  const NOT_STARTED := -2
  const STILL_RUNNING := -1
  const EXITED := 0

  // The values of a `uint32_t`.
  const INT_LIMIT: nat := 0x1_0000_0000

  datatype Message = Message(
    id: nat, project: string, sourceFile: string, outputFile: string, application: string,
    commandLine: string, workingDir: string, abortOnError: bool)

  datatype Row<N> = Row(message: Message, node: Option<N>, exitCode: int, result: int, doneIp: string)

  datatype Result = Result(id: nat, exitCode: int, processCode: int, outputData: Option<string>)

  datatype SlavePacket = SlavePacket(info: Option<int>, result: Option<Result>)

  datatype MasterPacket = MasterPacket(task: Option<Message>, close: bool)

  function FreshRow<N>(m: Message): Row<N> {
    Row(m, None, 0, NO_INIT, "")
  }

  predicate Eligible<N>(r: Row<N>) {
    r.node.None? && r.result == NO_INIT
  }

  predicate Owns<N(==)>(r: Row<N>, n: N, id: nat) {
    r.node == Some(n) && r.message.id == id
  }

  function FirstEligible<N>(rows: seq<Row<N>>): (k: nat)
    ensures k <= |rows|
    ensures k < |rows| ==> Eligible(rows[k])
    ensures forall j | 0 <= j < k :: !Eligible(rows[j])
  {
    if rows == [] || Eligible(rows[0]) then 0 else 1 + FirstEligible(rows[1..])
  }

  function FirstOwned<N(==)>(rows: seq<Row<N>>, n: N, id: nat): (k: nat)
    ensures k <= |rows|
    ensures k < |rows| ==> Owns(rows[k], n, id)
    ensures forall j | 0 <= j < k :: !Owns(rows[j], n, id)
  {
    if rows == [] || Owns(rows[0], n, id) then 0 else 1 + FirstOwned(rows[1..], n, id)
  }

  /** `sendTasksToSlave`: with positive credit, the first eligible row goes to `n`. */
  datatype Handout<N> = Handout(rows: seq<Row<N>>, credit: int, sent: Option<Message>)

  function SendTask<N>(rows: seq<Row<N>>, n: N, credit: int): Handout<N> {
    var k := FirstEligible(rows);
    if credit <= 0 || k == |rows| then Handout(rows, credit, None)
    else Handout(rows[k := rows[k].(node := Some(n))], credit - 1, Some(rows[k].message))
  }

  /** `onClientDisconnected`: every row of `n` becomes unowned. */
  function FreeRow<N(==)>(r: Row<N>, n: N): Row<N> {
    if r.node == Some(n) then r.(node := None) else r
  }

  function Release<N(==)>(rows: seq<Row<N>>, n: N): seq<Row<N>> {
    seq(|rows|, i requires 0 <= i < |rows| => FreeRow(rows[i], n))
  }

  /** The locked block of `applyResultFromSlave`. `save` is the status `su::fs::save` returns. */
  function Outcome(res: Result, save: Result -> int): int {
    if res.exitCode == 0 && res.processCode == EXITED && res.outputData.Some? then save(res)
    else res.exitCode
  }

  function FinishRow<N>(r: Row<N>, ip: string, exitCode: int, code: int): Row<N> {
    r.(exitCode := exitCode, result := code, doneIp := ip, node := None)
  }

  function ApplyResult<N(==)>(rows: seq<Row<N>>, n: N, ip: string, res: Result, save: Result -> int)
    : (out: (seq<Row<N>>, bool))
    ensures |out.0| == |rows|
  {
    var k := FirstOwned(rows, n, res.id);
    if k == |rows| then (rows, false)
    else (rows[k := FinishRow(rows[k], ip, Outcome(res, save), res.processCode)], true)
  }

  /** The row says what the result does: its code, and its exit code, unless the process exited with 0 and there is
      output to be saved; then the status of saving it. */
  predicate Records<N>(r: Row<N>, res: Result, save: Result -> int) {
    && r.result == res.processCode
    && (res.exitCode != 0 || res.processCode != EXITED || res.outputData.None? ==> r.exitCode == res.exitCode)
    && (res.exitCode == 0 && res.processCode == EXITED && res.outputData.Some? ==> r.exitCode == save(res))
  }

  /** A result is accepted exactly when it comes from the owner of a row with its id. Then the first such row
      is finished and let go, and nothing else changes; from anybody else it changes nothing at all. The row
      is a success exactly if the process exited with 0 and its output, if there is any, could be saved. */
  lemma {:induction false} OnlyTheOwnerCounts<N>(rows: seq<Row<N>>, n: N, ip: string, res: Result, save: Result -> int)
    ensures var (rows', ok) := ApplyResult(rows, n, ip, res, save);
            && (ok <==> exists i :: 0 <= i < |rows| && Owns(rows[i], n, res.id))
            && (!ok ==> rows' == rows)
            && (ok ==> exists i | 0 <= i < |rows| ::
                  && Owns(rows[i], n, res.id) && (forall j | 0 <= j < i :: !Owns(rows[j], n, res.id))
                  && rows'[i] == Row(rows[i].message, None, rows'[i].exitCode, res.processCode, ip)
                  && (rows'[i].result == EXITED && rows'[i].exitCode == 0 <==>
                        && res.processCode == EXITED && res.exitCode == 0
                        && (res.outputData.Some? ==> save(res) == 0))
                  && (res.exitCode != 0 || res.processCode != EXITED || res.outputData.None? ==>
                        rows'[i].exitCode == res.exitCode)
                  && (res.exitCode == 0 && res.processCode == EXITED && res.outputData.Some? ==>
                        rows'[i].exitCode == save(res))
                  && forall j | 0 <= j < |rows| && j != i :: rows'[j] == rows[j])
  {
    var k := FirstOwned(rows, n, res.id);
    if k < |rows| {
      assert Owns(rows[k], n, res.id);
    }
  }

  /** One turn of the packet loop of `onRecvFromNode`: the credit is stored and spent before the
      result is applied. `rejected` records the "wrong packet" path. */
  datatype Reception<N> = Reception(rows: seq<Row<N>>, credit: int, sent: seq<Message>, rejected: bool)

  function Told<T>(o: Option<T>): seq<T> {
    if o.Some? then [o.value] else []
  }

  /** The packets that carry these tasks. */
  function TaskPackets(ms: seq<Message>): (ps: seq<MasterPacket>)
    ensures |ps| == |ms|
  {
    seq(|ms|, i requires 0 <= i < |ms| => MasterPacket(Some(ms[i]), false))
  }

  function ReceivePacket<N(==)>(
    rows: seq<Row<N>>, n: N, ip: string, credit: int, p: SlavePacket, save: Result -> int): Reception<N>
  {
    var h := if p.info.Some? then SendTask(rows, n, p.info.value) else Handout(rows, credit, None);
    if p.result.None? then Reception(h.rows, h.credit, Told(h.sent), false)
    else
      var (rows', ok) := ApplyResult(h.rows, n, ip, p.result.value, save);
      Reception(rows', h.credit, Told(h.sent), !ok)
  }

  function ReceiveAll<N(==)>(
    rows: seq<Row<N>>, n: N, ip: string, credit: int, ps: seq<SlavePacket>, save: Result -> int): Reception<N>
    decreases |ps|
  {
    if ps == [] then Reception(rows, credit, [], false)
    else
      var a := ReceivePacket(rows, n, ip, credit, ps[0], save);
      var b := ReceiveAll(a.rows, n, ip, a.credit, ps[1..], save);
      Reception(b.rows, b.credit, a.sent + b.sent, a.rejected || b.rejected)
  }

  // ---- One server pass: every client in turn gets at most one task ----

  datatype Pass<N> = Pass(rows: seq<Row<N>>, credits: seq<int>, sent: seq<Option<Message>>)

  /** The pass of `doWork` after its first `n` clients. */
  function ServePass<N>(rows: seq<Row<N>>, clients: seq<N>, credits: seq<int>, n: nat): (p: Pass<N>)
    requires n <= |clients| == |credits|
    ensures |p.credits| == |credits| && |p.sent| == n
  {
    if n == 0 then Pass(rows, credits, [])
    else
      var p := ServePass(rows, clients, credits, n - 1);
      var h := SendTask(p.rows, clients[n - 1], credits[n - 1]);
      Pass(h.rows, p.credits[n - 1 := h.credit], p.sent + [h.sent])
  }

  /** How many of the first `n` clients have credit. */
  function Rank(credits: seq<int>, n: nat): (r: nat)
    requires n <= |credits|
    ensures r <= n
  {
    if n == 0 then 0 else Rank(credits, n - 1) + if credits[n - 1] > 0 then 1 else 0
  }

  /** The indices of the eligible rows among the first `n`. */
  function EligibleIndices<N>(rows: seq<Row<N>>, n: nat): (es: seq<nat>)
    requires n <= |rows|
    ensures forall k | 0 <= k < |es| :: es[k] < n && Eligible(rows[es[k]])
    ensures forall k, l | 0 <= k < l < |es| :: es[k] < es[l]
    ensures forall i | 0 <= i < n && Eligible(rows[i]) :: i in es
  {
    if n == 0 then []
    else
      var front := EligibleIndices(rows, n - 1);
      if Eligible(rows[n - 1]) then front + [n - 1] else front
  }

  /** `es` lists the indices of the eligible rows in table order. */
  ghost predicate ListsEligible<N>(es: seq<nat>, rows: seq<Row<N>>) {
    && (forall k | 0 <= k < |es| :: es[k] < |rows| && Eligible(rows[es[k]]))
    && (forall k, l | 0 <= k < l < |es| :: es[k] < es[l])
    && (forall i | 0 <= i < |rows| && Eligible(rows[i]) :: i in es)
  }

  /** The order-preserving matching. A client with credit that is preceded by k others with credit
      gets the k-th eligible row, if there is one; every other client, every other row and every
      other credit is left alone. */
  ghost predicate Matches<N>(
    rows: seq<Row<N>>, clients: seq<N>, credits: seq<int>, es: seq<nat>, n: nat, p: Pass<N>)
    requires n <= |clients| == |credits| == |p.credits| && |p.sent| == n && ListsEligible(es, rows)
  {
    && |p.rows| == |rows|
    && (forall c | 0 <= c < n :: ServedWell(rows, clients, credits, es, n, p, c))
    && (forall k | 0 <= k < |es| :: p.rows[es[k]].node.Some? <==> k < Rank(credits, n))
    && (forall k | Rank(credits, n) <= k < |es| :: p.rows[es[k]] == rows[es[k]])
    && (forall i | 0 <= i < |rows| && !Eligible(rows[i]) :: p.rows[i] == rows[i])
    && (forall c | n <= c < |clients| :: p.credits[c] == credits[c])
  }

  ghost predicate ServedWell<N>(
    rows: seq<Row<N>>, clients: seq<N>, credits: seq<int>, es: seq<nat>, n: nat, p: Pass<N>, c: nat)
    requires c < n <= |clients| == |credits| == |p.credits| && |p.sent| == n
    requires ListsEligible(es, rows) && |p.rows| == |rows|
  {
    var k := Rank(credits, c);
    if credits[c] > 0 && k < |es| then
      && p.rows[es[k]] == rows[es[k]].(node := Some(clients[c]))
      && p.sent[c] == Some(rows[es[k]].message)
      && p.credits[c] == credits[c] - 1
    else
      p.sent[c] == None && p.credits[c] == credits[c]
  }

  lemma {:induction false} MatchingFor<N>(
    rows: seq<Row<N>>, clients: seq<N>, credits: seq<int>, es: seq<nat>, n: nat)
    requires n <= |clients| == |credits| && ListsEligible(es, rows)
    ensures Matches(rows, clients, credits, es, n, ServePass(rows, clients, credits, n))
  {
    if n > 0 {
      MatchingFor(rows, clients, credits, es, n - 1);
      var p := ServePass(rows, clients, credits, n - 1);
      NextEligible(rows, p.rows, es, Rank(credits, n - 1));
      ServeOneMore(rows, clients, credits, es, n, p);
    }
  }

  /** One pass of the server is the order-preserving matching of the clients that have credit with the
      eligible rows. */
  lemma {:induction false} PassIsMatching<N>(rows: seq<Row<N>>, clients: seq<N>, credits: seq<int>, n: nat)
    requires n <= |clients| == |credits|
    ensures var es := EligibleIndices(rows, |rows|);
            ListsEligible(es, rows) && Matches(rows, clients, credits, es, n, ServePass(rows, clients, credits, n))
  {
    MatchingFor(rows, clients, credits, EligibleIndices(rows, |rows|), n);
  }

  lemma {:induction false} ServeOneMore<N>(
    rows: seq<Row<N>>, clients: seq<N>, credits: seq<int>, es: seq<nat>, n: nat, p: Pass<N>)
    requires 0 < n <= |clients| == |credits| == |p.credits| && |p.sent| == n - 1 && ListsEligible(es, rows)
    requires Matches(rows, clients, credits, es, n - 1, p)
    requires FirstEligible(p.rows) == if Rank(credits, n - 1) < |es| then es[Rank(credits, n - 1)] else |rows|
    ensures var h := SendTask(p.rows, clients[n - 1], credits[n - 1]);
            Matches(rows, clients, credits, es, n, Pass(h.rows, p.credits[n - 1 := h.credit], p.sent + [h.sent]))
  {
    var h := SendTask(p.rows, clients[n - 1], credits[n - 1]);
    var q := Pass(h.rows, p.credits[n - 1 := h.credit], p.sent + [h.sent]);
    forall c | 0 <= c < n ensures ServedWell(rows, clients, credits, es, n, q, c) {
      StaysServed(rows, clients, credits, es, n, p, h, c);
    }
  }

  lemma {:induction false} StaysServed<N>(
    rows: seq<Row<N>>, clients: seq<N>, credits: seq<int>, es: seq<nat>, n: nat, p: Pass<N>, h: Handout<N>, c: nat)
    requires c < n <= |clients| == |credits| == |p.credits| && |p.sent| == n - 1 && ListsEligible(es, rows)
    requires Matches(rows, clients, credits, es, n - 1, p)
    requires FirstEligible(p.rows) == if Rank(credits, n - 1) < |es| then es[Rank(credits, n - 1)] else |rows|
    requires h == SendTask(p.rows, clients[n - 1], credits[n - 1])
    ensures ServedWell(rows, clients, credits, es, n, Pass(h.rows, p.credits[n - 1 := h.credit], p.sent + [h.sent]), c)
  {
    if c < n - 1 {
      assert ServedWell(rows, clients, credits, es, n - 1, p, c);
      if credits[c] > 0 { RankGrows(credits, c, n - 1); }
    }
  }

  lemma {:induction false} RankGrows(credits: seq<int>, c: nat, n: nat)
    requires c < n <= |credits| && credits[c] > 0
    ensures Rank(credits, c) < Rank(credits, n)
  {
    if c < n - 1 { RankGrows(credits, c, n - 1); }
  }

  /** Once the first `m` eligible rows are taken, the next eligible row is `es[m]`. */
  lemma {:induction false} NextEligible<N>(rows: seq<Row<N>>, now: seq<Row<N>>, es: seq<nat>, m: nat)
    requires ListsEligible(es, rows) && |now| == |rows|
    requires forall k | 0 <= k < |es| && k < m :: now[es[k]].node.Some?
    requires forall k | m <= k < |es| :: now[es[k]] == rows[es[k]]
    requires forall i | 0 <= i < |rows| && !Eligible(rows[i]) :: now[i] == rows[i]
    ensures FirstEligible(now) == (if m < |es| then es[m] else |rows|)
  {
    var k := FirstEligible(now);
    if k < |now| {
      var l :| 0 <= l < |es| && es[l] == k;
      assert es[m] <= es[l];
    }
  }
}
