/** The console's TCP server, updating the task table in place. Every method is proved against the
    function of `TaskTable` that gives its meaning. Row locks are not taken here: what another
    thread sees between them is the subject of `Lifecycle` and `Console`. */
module Server {
  import opened Wrappers
  import opened TaskTable

  /** A received packet, or one that `IsInitialized` turns down. */
  datatype Received = Parsed(packet: SlavePacket) | Garbled

  class TcpProtobufNode {
    const fullId: string
    var freeCores: int
    var inbox: seq<Received>
    var outbox: seq<MasterPacket>

    constructor (fullId: string)
      ensures this.fullId == fullId && freeCores == 0 && inbox == [] && outbox == []
    {
      this.fullId := fullId;
      freeCores, inbox, outbox := 0, [], [];
    }
  }

  /** The packets before the first garbled one. */
  function ParsedPrefix(inbox: seq<Received>): seq<SlavePacket> {
    if inbox == [] || inbox[0].Garbled? then [] else [inbox[0].packet] + ParsedPrefix(inbox[1..])
  }

  lemma {:induction false} ParsedPrefixSteps(inbox: seq<Received>, k: nat)
    requires k < |inbox| && forall i | 0 <= i < k :: inbox[i].Parsed?
    ensures inbox[k].Parsed? ==> ParsedPrefix(inbox[..k + 1]) == ParsedPrefix(inbox[..k]) + [inbox[k].packet]
    ensures inbox[k].Garbled? ==> ParsedPrefix(inbox) == ParsedPrefix(inbox[..k])
  {
    if k > 0 {
      ParsedPrefixSteps(inbox[1..], k - 1);
      assert inbox[1..][..k] == inbox[..k + 1][1..] && inbox[1..][..k - 1] == inbox[..k][1..];
    }
  }

  lemma {:induction false} ReceiveSnoc<N>(
    rows: seq<Row<N>>, n: N, ip: string, credit: int, ps: seq<SlavePacket>, p: SlavePacket, save: Result -> int)
    ensures var a := ReceiveAll(rows, n, ip, credit, ps, save);
            var b := ReceivePacket(a.rows, n, ip, a.credit, p, save);
            ReceiveAll(rows, n, ip, credit, ps + [p], save)
            == Reception(b.rows, b.credit, a.sent + b.sent, a.rejected || b.rejected)
    decreases |ps|
  {
    if ps == [] {
      assert [p][1..] == [];
    } else {
      var a := ReceivePacket(rows, n, ip, credit, ps[0], save);
      ReceiveSnoc(a.rows, n, ip, a.credit, ps[1..], p, save);
      assert (ps + [p])[1..] == ps[1..] + [p];
    }
  }

  lemma {:induction false} ReceiveOneMore<N>(
    rows: seq<Row<N>>, n: N, ip: string, credit: int, inbox: seq<Received>, k: nat, save: Result -> int)
    requires k < |inbox| && inbox[k].Parsed? && forall i | 0 <= i < k :: inbox[i].Parsed?
    ensures var a := ReceiveAll(rows, n, ip, credit, ParsedPrefix(inbox[..k]), save);
            var b := ReceivePacket(a.rows, n, ip, a.credit, inbox[k].packet, save);
            ReceiveAll(rows, n, ip, credit, ParsedPrefix(inbox[..k + 1]), save)
            == Reception(b.rows, b.credit, a.sent + b.sent, a.rejected || b.rejected)
  {
    ParsedPrefixSteps(inbox, k);
    ReceiveSnoc(rows, n, ip, credit, ParsedPrefix(inbox[..k]), inbox[k].packet, save);
  }

  lemma {:induction false} OutboxGrows(outbox: seq<MasterPacket>, ms: seq<Message>, more: seq<Message>)
    ensures outbox + TaskPackets(ms) + TaskPackets(more) == outbox + TaskPackets(ms + more)
  {
    assert TaskPackets(ms + more) == TaskPackets(ms) + TaskPackets(more);
  }

  lemma {:induction false} UnservedCredit<N>(rows: seq<Row<N>>, clients: seq<N>, credits: seq<int>, n: nat, c: nat)
    requires n <= c < |clients| == |credits|
    ensures ServePass(rows, clients, credits, n).credits[c] == credits[c]
  {
    if n > 0 { UnservedCredit(rows, clients, credits, n - 1, c); }
  }

  class TcpProtobufServer {
    const tasks: array<Row<TcpProtobufNode>>
    const save: Result -> int
    var clients: seq<TcpProtobufNode>

    constructor (tasks: array<Row<TcpProtobufNode>>, save: Result -> int)
      ensures this.tasks == tasks && this.save == save && clients == []
    {
      this.tasks := tasks;
      this.save := save;
      clients := [];
    }

    /** Hands `node` the first eligible task if it has credit. */
    method SendTasksToSlave(node: TcpProtobufNode)
      modifies tasks, node`freeCores, node`outbox
      ensures var h := SendTask(old(tasks[..]), node, old(node.freeCores));
              && tasks[..] == h.rows && node.freeCores == h.credit
              && node.outbox == old(node.outbox) + TaskPackets(Told(h.sent))
    {
      if node.freeCores <= 0 {
        return;
      }
      for i := 0 to tasks.Length
        invariant tasks[..] == old(tasks[..]) && node.freeCores == old(node.freeCores)
        invariant node.outbox == old(node.outbox)
        invariant forall j | 0 <= j < i :: !Eligible(tasks[j])
      {
        if tasks[i].node.Some? || tasks[i].result != NO_INIT {
          continue;
        }
        assert FirstEligible(tasks[..]) == i;
        var packet := MasterPacket(Some(tasks[i].message), false);
        tasks[i] := tasks[i].(node := Some(node));
        node.outbox := node.outbox + [packet];
        node.freeCores := node.freeCores - 1;
        return;
      }
      assert FirstEligible(tasks[..]) == tasks.Length;
    }

    ghost function Credits(): (cs: seq<int>)
      reads this, clients
      ensures |cs| == |clients| && forall c | 0 <= c < |clients| :: cs[c] == clients[c].freeCores
    {
      seq(|clients|, c requires 0 <= c < |clients| reads this, clients => clients[c].freeCores)
    }

    ghost function Outboxes(): (boxes: seq<seq<MasterPacket>>)
      reads this, clients
      ensures |boxes| == |clients| && forall c | 0 <= c < |clients| :: boxes[c] == clients[c].outbox
    {
      seq(|clients|, c requires 0 <= c < |clients| reads this, clients => clients[c].outbox)
    }

    /** The state after the first `n` clients of a pass, from the rows, credits and outboxes there were before. */
    ghost predicate Reflects(
      rows: seq<Row<TcpProtobufNode>>, credits: seq<int>, boxes: seq<seq<MasterPacket>>, n: nat)
      reads this, tasks, clients
    {
      && n <= |clients| == |credits| == |boxes|
      && var p := ServePass(rows, clients, credits, n);
         && tasks[..] == p.rows
         && (forall c | 0 <= c < |clients| :: clients[c].freeCores == p.credits[c])
         && (forall c | 0 <= c < n :: clients[c].outbox == boxes[c] + TaskPackets(Told(p.sent[c])))
         && (forall c | n <= c < |clients| :: clients[c].outbox == boxes[c])
    }

    /** One pass of the server thread over its clients. */
    method DoWork()
      requires forall i, j | 0 <= i < j < |clients| :: clients[i] != clients[j]
      modifies tasks, clients`freeCores, clients`outbox
      ensures Reflects(old(tasks[..]), old(Credits()), old(Outboxes()), |clients|)
    {
      ghost var rows, credits, boxes := tasks[..], Credits(), Outboxes();
      for n := 0 to |clients|
        invariant Reflects(rows, credits, boxes, n)
      {
        ServeNext(clients[n], rows, credits, boxes, n);
      }
    }

    method ServeNext(
      node: TcpProtobufNode, ghost rows: seq<Row<TcpProtobufNode>>, ghost credits: seq<int>,
      ghost boxes: seq<seq<MasterPacket>>, ghost n: nat)
      requires forall i, j | 0 <= i < j < |clients| :: clients[i] != clients[j]
      requires n < |clients| && clients[n] == node && Reflects(rows, credits, boxes, n)
      modifies tasks, node`freeCores, node`outbox
      ensures Reflects(rows, credits, boxes, n + 1)
    {
      ghost var p := ServePass(rows, clients, credits, n);
      UnservedCredit(rows, clients, credits, n, n);
      SendTasksToSlave(node);
      ghost var h := SendTask(p.rows, node, credits[n]);
      assert ServePass(rows, clients, credits, n + 1) == Pass(h.rows, p.credits[n := h.credit], p.sent + [h.sent]);
    }

    /** Forgets a client: its rows become unowned, all others stay. */
    method OnClientDisconnected(node: TcpProtobufNode)
      modifies tasks
      ensures tasks[..] == Release(old(tasks[..]), node)
      ensures forall j | 0 <= j < tasks.Length ::
                if old(tasks[j]).node == Some(node) then tasks[j] == old(tasks[j]).(node := None)
                else tasks[j] == old(tasks[j])
    {
      for i := 0 to tasks.Length
        invariant forall j | 0 <= j < i :: tasks[j] == FreeRow(old(tasks[j]), node)
        invariant forall j | i <= j < tasks.Length :: tasks[j] == old(tasks[j])
      {
        if tasks[i].node != Some(node) {
          continue;
        }
        tasks[i] := tasks[i].(node := None);
      }
    }

    /** Books a result on the row it belongs to; `ok` is false for the "wrong packet". */
    method ApplyResultFromSlave(node: TcpProtobufNode, res: Result) returns (ok: bool)
      modifies tasks
      ensures (tasks[..], ok) == ApplyResult(old(tasks[..]), node, node.fullId, res, save)
      ensures ok <==> exists i :: 0 <= i < tasks.Length && Owns(old(tasks[i]), node, res.id)
      ensures !ok ==> tasks[..] == old(tasks[..])
      ensures ok ==> exists i | 0 <= i < tasks.Length ::
                && Owns(old(tasks[i]), node, res.id) && tasks[i].node.None? && tasks[i].doneIp == node.fullId
                && Records(tasks[i], res, save) && tasks[i].message == old(tasks[i]).message
                && (forall j | 0 <= j < i :: !Owns(old(tasks[j]), node, res.id))
                && forall j | 0 <= j < tasks.Length && j != i :: tasks[j] == old(tasks[j])
    {
      for i := 0 to tasks.Length
        invariant tasks[..] == old(tasks[..])
        invariant forall j | 0 <= j < i :: !Owns(tasks[j], node, res.id)
      {
        if tasks[i].node != Some(node) || res.id != tasks[i].message.id {
          continue;
        }
        assert FirstOwned(tasks[..], node, res.id) == i;
        var exitCode := res.exitCode;
        if exitCode == 0 && res.processCode == EXITED && res.outputData.Some? {
          exitCode := save(res);
        }
        tasks[i] := Row(tasks[i].message, None, exitCode, res.processCode, node.fullId);
        return true;
      }
      assert FirstOwned(tasks[..], node, res.id) == tasks.Length;
      return false;
    }

    method HandlePacket(node: TcpProtobufNode, packet: SlavePacket) returns (wrong: bool)
      modifies tasks, node`freeCores, node`outbox
      ensures var a := ReceivePacket(old(tasks[..]), node, node.fullId, old(node.freeCores), packet, save);
              && tasks[..] == a.rows && node.freeCores == a.credit && wrong == a.rejected
              && node.outbox == old(node.outbox) + TaskPackets(a.sent)
    {
      wrong := false;
      if packet.info.Some? {
        node.freeCores := packet.info.value;
        SendTasksToSlave(node);
      }
      if packet.result.Some? {
        var applied := ApplyResultFromSlave(node, packet.result.value);
        wrong := !applied;
      }
    }

    /** The state after the first `k` packets of `inbox`, from the rows, credit and outbox there were before. */
    ghost predicate Took(
      node: TcpProtobufNode, rows: seq<Row<TcpProtobufNode>>, credit: int, outbox: seq<MasterPacket>,
      inbox: seq<Received>, k: nat, wrong: bool)
      reads this, tasks, node
      requires k <= |inbox|
    {
      var a := ReceiveAll(rows, node, node.fullId, credit, ParsedPrefix(inbox[..k]), save);
      && tasks[..] == a.rows && node.freeCores == a.credit && wrong == a.rejected
      && node.outbox == outbox + TaskPackets(a.sent)
      && (forall i | 0 <= i < k :: inbox[i].Parsed?) && node.inbox == inbox[k..]
    }

    method HandleNext(
      node: TcpProtobufNode, wrong: bool, ghost rows: seq<Row<TcpProtobufNode>>, ghost credit: int,
      ghost outbox: seq<MasterPacket>, ghost inbox: seq<Received>, ghost k: nat) returns (garbled: bool, wrong': bool)
      requires k < |inbox| && Took(node, rows, credit, outbox, inbox, k, wrong)
      modifies tasks, node
      ensures garbled == inbox[k].Garbled?
      ensures !garbled ==> Took(node, rows, credit, outbox, inbox, k + 1, wrong')
      ensures garbled ==>
                && wrong' == wrong && tasks[..] == old(tasks[..])
                && node.freeCores == old(node.freeCores) && node.outbox == old(node.outbox)
    {
      var data := node.inbox[0];
      node.inbox := node.inbox[1..];
      if data.Garbled? {
        return true, wrong;
      }
      ghost var a := ReceiveAll(rows, node, node.fullId, credit, ParsedPrefix(inbox[..k]), save);
      ghost var b := ReceivePacket(a.rows, node, node.fullId, a.credit, data.packet, save);
      ReceiveOneMore(rows, node, node.fullId, credit, inbox, k, save);
      var rejected := HandlePacket(node, data.packet);
      OutboxGrows(outbox, a.sent, b.sent);
      return false, wrong || rejected;
    }

    /** Reads every queued packet of `node`, up to the first one that does not parse. */
    method OnRecvFromNode(node: TcpProtobufNode) returns (ok: bool, ghost wrong: bool)
      modifies tasks, node
      ensures ok <==> forall p | p in old(node.inbox) :: p.Parsed?
      ensures ok ==> node.inbox == []
      ensures var a := ReceiveAll(
                old(tasks[..]), node, node.fullId, old(node.freeCores), ParsedPrefix(old(node.inbox)), save);
              && tasks[..] == a.rows && node.freeCores == a.credit && wrong == a.rejected
              && node.outbox == old(node.outbox) + TaskPackets(a.sent)
    {
      ghost var rows, credit, outbox, inbox := tasks[..], node.freeCores, node.outbox, node.inbox;
      ghost var done := 0;
      var rejected := false;
      while node.inbox != []
        invariant done <= |inbox| && Took(node, rows, credit, outbox, inbox, done, rejected)
        decreases |inbox| - done
      {
        var garbled;
        garbled, rejected := HandleNext(node, rejected, rows, credit, outbox, inbox, done);
        if garbled {
          ParsedPrefixSteps(inbox, done);
          assert inbox[done] in inbox;
          return false, rejected;
        }
        done := done + 1;
      }
      assert inbox[..done] == inbox;
      return true, rejected;
    }
  }
}
