/** The daemon's UDP end: it answers a job request by opening one TCP client, watches that client, and
    deletes it when the connection is gone. */
module UdpDaemon {
  import opened Wrappers

  datatype Status = Idle | Connecting | Working

  /** A received datagram: what the checks find out about it when it is looked at, and whom to call back.
      `freeCore` is the free-core count at that moment. */
  datatype Packet = Packet(
    crcOk: bool, projectKnown: bool, senderIsMaster: bool, freeCore: nat, masterIp: string, masterPort: nat)

  /** `serial` tells one client object from another. */
  datatype Client = Client(serial: nat, ip: string, port: nat)

  predicate Acceptable(p: Packet) {
    p.crcOk && p.projectKnown && p.senderIsMaster && p.freeCore != 0
  }

  /** What the connection says when it is polled; the state may change between the questions. */
  datatype Poll = Poll(isConnecting: bool, isConnected: bool, stillConnected: bool)

  datatype Event = Tick(poll: Poll) | Batch(packets: seq<Packet>)

  /** What became of the clients, oldest first. */
  datatype Note = Created(client: Client) | Deleted(client: Client)

  datatype State = State(status: Status, client: Option<Client>, log: seq<Note>)

  // ---- The reference ----

  /** The first acceptable packet of a batch, and only that one, opens a client. */
  function FirstAcceptable(packets: seq<Packet>): Option<Packet> {
    if packets == [] then None
    else if Acceptable(packets[0]) then Some(packets[0])
    else FirstAcceptable(packets[1..])
  }

  function Clients(log: seq<Note>): nat {
    if log == [] then 0 else Clients(log[..|log| - 1]) + if log[|log| - 1].Created? then 1 else 0
  }

  function Opened(s: State, p: Packet): State {
    var client := Client(Clients(s.log), p.masterIp, p.masterPort);
    State(Connecting, Some(client), s.log + [Created(client)])
  }

  predicate Gone(poll: Poll) {
    !poll.isConnecting && !poll.isConnected && !poll.stillConnected
  }

  /** One event, from any state. A tick that finds no client although the status is not idle repairs the
      status; that this never happens is a fact about runs, proved below. */
  function Next(s: State, e: Event): State {
    match e
    case Batch(packets) =>
      (match FirstAcceptable(packets)
       case Some(p) => if s.status == Idle then Opened(s, p) else s
       case None => s)
    case Tick(poll) =>
      if s.status == Idle then s
      else if s.client.None? then s.(status := Idle)
      else if Gone(poll) then State(Idle, None, s.log + [Deleted(s.client.value)])
      else if !poll.isConnecting && poll.isConnected then s.(status := Working)
      else s
  }

  const START := State(Idle, None, [])

  function Run(events: seq<Event>): State {
    if events == [] then START else Next(Run(events[..|events| - 1]), events[|events| - 1])
  }

  // ---- The class ----

  class UdpDaemonServer {
    var status: Status
    var client: Option<Client>
    var serials: nat
    ghost var log: seq<Note>

    ghost function View(): State
      reads this
    {
      State(status, client, log)
    }

    ghost predicate Valid()
      reads this
    {
      serials == Clients(log)
    }

    constructor ()
      ensures Valid() && View() == START
    {
      status, client, serials, log := Idle, None, 0, [];
    }

    method DoWork(poll: Poll)
      requires Valid()
      modifies this
      ensures Valid() && View() == Next(old(View()), Tick(poll))
    {
      if status == Idle { return; }
      if client.None? {
        status := Idle;
        return;
      }
      if poll.isConnecting { return; }
      if poll.isConnected {
        if status == Connecting { status := Working; }
        return;
      }
      if !poll.stillConnected {
        log := log + [Deleted(client.value)];
        client := None;
        status := Idle;
      }
    }

    method OnRecvFromNode(batch: seq<Packet>)
      requires Valid()
      modifies this
      ensures Valid() && View() == Next(old(View()), Batch(batch))
    {
      var packets := batch;
      while packets != []
        invariant Valid()
        invariant packets != [] ==> View() == old(View())
        invariant packets != [] && status == Idle ==> FirstAcceptable(batch) == FirstAcceptable(packets)
        invariant packets == [] ==> View() == Next(old(View()), Batch(batch))
        decreases |packets|
      {
        if status != Idle {
          packets := [];
          return;
        }
        var packet := packets[0];
        packets := packets[1..];
        if !packet.crcOk { continue; }
        if !packet.projectKnown { continue; }
        if !packet.senderIsMaster { continue; }
        if packet.freeCore == 0 { continue; }
        client := Some(Client(serials, packet.masterIp, packet.masterPort));
        log := log + [Created(client.value)];
        serials := serials + 1;
        status := Connecting;
        packets := [];
      }
    }
  }

  // ---- Every run ----

  /** Clients come one at a time: created, deleted, created, deleted, each with its own serial. */
  predicate Alternating(log: seq<Note>, k: nat)
    requires k < |log|
  {
    if k % 2 == 0 then log[k].Created? && log[k].client.serial == k / 2
    else log[k] == Deleted(log[k - 1].client)
  }

  predicate OneAtATime(s: State) {
    && (s.status == Idle <==> s.client.None?)
    && (forall k | 0 <= k < |s.log| :: Alternating(s.log, k))
    && Clients(s.log) == (|s.log| + 1) / 2
    && match s.client
       case None => |s.log| % 2 == 0
       case Some(c) => |s.log| % 2 == 1 && s.log[|s.log| - 1] == Created(c)
  }

  lemma {:induction false} Noted(log: seq<Note>, note: Note)
    requires forall k | 0 <= k < |log| :: Alternating(log, k)
    requires if |log| % 2 == 0 then note.Created? && note.client.serial == |log| / 2
             else note == Deleted(log[|log| - 1].client)
    requires Clients(log) == (|log| + 1) / 2
    ensures forall k | 0 <= k < |log| + 1 :: Alternating(log + [note], k)
    ensures Clients(log + [note]) == (|log| + 2) / 2
  {
    assert (log + [note])[..|log|] == log;
    forall k | 0 <= k < |log| + 1 ensures Alternating(log + [note], k) {
      if k < |log| { assert Alternating(log, k); }
    }
  }

  /** In every run: idle exactly when there is no client (so a status that is not idle never meets a missing
      client), and a client is only ever created after the one before it was deleted. */
  lemma {:induction false} OneClientAtATime(events: seq<Event>)
    ensures OneAtATime(Run(events))
  {
    if events != [] {
      var s, e := Run(events[..|events| - 1]), events[|events| - 1];
      OneClientAtATime(events[..|events| - 1]);
      if e.Batch? && s.status == Idle && FirstAcceptable(e.packets).Some? {
        var p := FirstAcceptable(e.packets).value;
        Noted(s.log, Created(Client(Clients(s.log), p.masterIp, p.masterPort)));
      }
      if e.Tick? && s.client.Some? && Gone(e.poll) {
        Noted(s.log, Deleted(s.client.value));
      }
    }
  }

  lemma {:induction false} AcceptableIsFirst(packets: seq<Packet>)
    ensures match FirstAcceptable(packets)
            case None => forall j | 0 <= j < |packets| :: !Acceptable(packets[j])
            case Some(p) =>
              && p.crcOk && p.projectKnown && p.senderIsMaster && p.freeCore > 0
              && exists j :: 0 <= j < |packets| && packets[j] == p && Acceptable(p)
                             && forall i | 0 <= i < j :: !Acceptable(packets[i])
    ensures FirstAcceptable(packets).None? <==>
              forall j | 0 <= j < |packets| ::
                !packets[j].crcOk || !packets[j].projectKnown || !packets[j].senderIsMaster || packets[j].freeCore == 0
  {
    if packets != [] && !Acceptable(packets[0]) {
      AcceptableIsFirst(packets[1..]);
      match FirstAcceptable(packets)
      case None =>
        forall j | 0 <= j < |packets| ensures !Acceptable(packets[j]) {
          if j > 0 { assert packets[j] == packets[1..][j - 1]; }
        }
      case Some(p) =>
        var j :| 0 <= j < |packets| - 1 && packets[1..][j] == p && Acceptable(p)
                 && forall i | 0 <= i < j :: !Acceptable(packets[1..][i]);
        assert packets[j + 1] == p;
        forall i | 0 <= i < j + 1 ensures !Acceptable(packets[i]) {
          if i > 0 { assert packets[i] == packets[1..][i - 1]; }
        }
    }
  }

  /** One more event of any run: a new client appears exactly when the daemon was idle and some packet of the
      batch passes all four checks, and it calls the master named by the first such packet; a client that is
      there is kept unless the connection is found gone, and then nobody takes its place in the same event.
      A status that is not idle never meets a missing client. */
  lemma {:induction false} ClientLifetime(events: seq<Event>, e: Event)
    ensures Run(events + [e]) == Next(Run(events), e)
    ensures var s, s' := Run(events), Run(events + [e]);
            && (s.client.None? ==>
                  (s'.client.Some? <==> e.Batch? && exists p :: p in e.packets && Acceptable(p)))
            && (s.client.None? && s'.client.Some? ==>
                  exists j :: 0 <= j < |e.packets| && Acceptable(e.packets[j])
                              && (forall i | 0 <= i < j :: !Acceptable(e.packets[i]))
                              && s'.client.value.ip == e.packets[j].masterIp
                              && s'.client.value.port == e.packets[j].masterPort)
            && (s.status != Idle ==> s.client.Some?)
            && (s.client.Some? ==>
                  s'.client == if e.Tick? && !e.poll.isConnecting && !e.poll.isConnected && !e.poll.stillConnected
                               then None else s.client)
            && (s'.status == Working <==>
                  && s'.client.Some?
                  && (s.status == Working
                      || (s.client.Some? && e.Tick? && !e.poll.isConnecting && e.poll.isConnected)))
  {
    assert (events + [e])[..|events + [e]| - 1] == events;
    OneClientAtATime(events);
    if e.Batch? { AcceptableIsFirst(e.packets); }
  }
}
