/** The trigger gateway (trigger.py): it polls the server as a device of type "controller" and
    drives the shutter/flash controllers on its local network. Its controller table is updated
    by the UDP listener (announcements and status reports) and by the poll loop (commands).
    Sockets and HTTP calls are not modelled: datagrams sent and notifications posted upstream
    are recorded in the fields `sent` and `upstream`, and each poll's answer is a parameter. */
module Gateway {

  import opened Wrappers
  import opened Packet

  type Ip = string

  datatype Status = Unknown | Ready | Configuring | Firing

  datatype ControllerRecord = ControllerRecord(ip: Ip, status: Status)

  /** network id -> record */
  type Controllers = map<Byte, ControllerRecord>

  datatype Destination = Unicast(ip: Ip) | Broadcast

  datatype Datagram = Datagram(destination: Destination, payload: seq<Byte>)

  /** A POST to the server's /configuration_complete with the gateway's serial. */
  datatype Notification = ConfigurationComplete(serial: string)

  /** The fields of the server's reply to a poll that the gateway reads; `interval` is in ticks
      and `configuration` holds the payload's integer fields. */
  datatype PollReply = PollReply(interval: int, configuration: Option<map<string, int>>, fire: bool)

  // ---------------------------------------------------------------------------------------------
  // Datagrams from the controllers

  const AnnounceTag: seq<Byte> := Ascii("macAddressAnnounce")
  const CaptureCompleteTag: seq<Byte> := Ascii("captureComplete")
  const ReceivedConfigurationTag: seq<Byte> := Ascii("receivedConfiguration")
  const FireCommand: seq<Byte> := Ascii("fire")

  datatype Message =
    | Announce(netid: Byte)
    | CaptureComplete(netid: Byte)
    | ReceivedConfiguration(netid: Byte)
    | Unrecognised

  function Classify(tag: seq<Byte>, netid: Byte): Message
  {
    if tag == AnnounceTag then Announce(netid)
    else if tag == CaptureCompleteTag then CaptureComplete(netid)
    else if tag == ReceivedConfigurationTag then ReceivedConfiguration(netid)
    else Unrecognised
  }

  /** The tag is every byte but the last and the network id is the last byte; an empty datagram
      has no last byte (`None`: the source raises there). */
  function Parse(data: seq<Byte>): Option<Message>
  {
    if data == [] then None else Some(Classify(data[..|data| - 1], data[|data| - 1]))
  }

  /** A controller's datagram is its tag followed by its network id, and it parses back to them. */
  lemma ParseTagged(tag: seq<Byte>, netid: Byte)
    ensures Parse(tag + [netid]) == Some(Classify(tag, netid))
  {
    assert (tag + [netid])[..|tag|] == tag;
  }

  predicate AllReady(m: Controllers)
  {
    forall n :: n in m ==> m[n].status == Ready
  }

  /** The controller table after one datagram: an announcement creates a record only for a new
      network id; a status report marks a known controller ready and is ignored otherwise. */
  function Receive(m: Controllers, msg: Message, sender: Ip): Controllers
  {
    match msg
    case Announce(n) => if n in m then m else m[n := ControllerRecord(sender, Unknown)]
    case CaptureComplete(n) => if n in m then m[n := m[n].(status := Ready)] else m
    case ReceivedConfiguration(n) => if n in m then m[n := m[n].(status := Ready)] else m
    case Unrecognised => m
  }

  /** Whether a datagram makes the gateway notify the server: every "received configuration"
      after which all known controllers are ready. */
  predicate Notifies(m: Controllers, msg: Message, sender: Ip)
  {
    msg.ReceivedConfiguration? && AllReady(Receive(m, msg, sender))
  }

  /** Announcing leaves a known controller's address and status as they were, and records a new
      one as unknown at the sender's address. */
  lemma AnnounceKeepsKnown(m: Controllers, n: Byte, sender: Ip, other: Byte)
    requires other != n
    ensures n in m ==> Receive(m, Announce(n), sender) == m
    ensures n !in m ==> Receive(m, Announce(n), sender)[n] == ControllerRecord(sender, Unknown)
    ensures other in Receive(m, Announce(n), sender) <==> other in m
    ensures other in m ==> Receive(m, Announce(n), sender)[other] == m[other]
  {
  }

  /** A status report from an unknown network id changes nothing. */
  lemma UnknownReportIgnored(m: Controllers, n: Byte, sender: Ip)
    requires n !in m
    ensures Receive(m, CaptureComplete(n), sender) == m
    ensures Receive(m, ReceivedConfiguration(n), sender) == m
  {
  }

  /** The barrier: "received configuration" from `n` notifies exactly when every other known
      controller is already ready. */
  lemma NotifiesWhenOthersReady(m: Controllers, n: Byte, sender: Ip)
    requires n in m
    ensures Notifies(m, ReceivedConfiguration(n), sender) <==>
      forall k :: k in m && k != n ==> m[k].status == Ready
  {
    var after := Receive(m, ReceivedConfiguration(n), sender);
    if forall k :: k in m && k != n ==> m[k].status == Ready {
      assert AllReady(after);
    } else {
      var k :| k in m && k != n && m[k].status != Ready;
      assert after[k] == m[k];
    }
  }

  /** The notification is not sent once per convergence: while every controller is ready, each
      further "received configuration", from any network id, notifies again. */
  lemma NotifiesAgainWhileReady(m: Controllers, n: Byte, sender: Ip)
    requires AllReady(m)
    ensures Notifies(m, ReceivedConfiguration(n), sender)
    ensures Receive(m, ReceivedConfiguration(n), sender) == m
  {
    if n in m {
      assert m[n := m[n].(status := Ready)] == m;
    }
  }

  /** Controllers 1 ready and 2 configuring: the report from 2 notifies, and so does a duplicate
      of it. With no controllers at all, every report notifies. */
  lemma BarrierScenario(sender: Ip)
    ensures var m := map[1 := ControllerRecord("10.0.0.1", Ready), 2 := ControllerRecord("10.0.0.2", Configuring)];
      var after := Receive(m, ReceivedConfiguration(2), sender);
      && Notifies(m, ReceivedConfiguration(2), sender)
      && Notifies(after, ReceivedConfiguration(2), sender)
      && !Notifies(m, ReceivedConfiguration(1), sender)
    ensures Notifies(map[], ReceivedConfiguration(7), sender)
  {
    var m := map[1 := ControllerRecord("10.0.0.1", Ready), 2 := ControllerRecord("10.0.0.2", Configuring)];
    NotifiesWhenOthersReady(m, 2, sender);
    NotifiesWhenOthersReady(m, 1, sender);
    NotifiesAgainWhileReady(Receive(m, ReceivedConfiguration(2), sender), 2, sender);
  }

  // ---------------------------------------------------------------------------------------------
  // Commands to the controllers

  /** Every controller in `m` with the given status; network ids and addresses are unchanged. */
  function WithStatus(m: Controllers, status: Status): (r: Controllers)
    ensures r.Keys == m.Keys
    ensures forall n :: n in r ==> r[n].ip == m[n].ip && r[n].status == status
  {
    map n | n in m :: m[n].(status := status)
  }

  /** The table part-way through a loop that sets every status to `status`: the controllers still
      in `todo` keep their records, the others have the new status. */
  function Marking(m: Controllers, todo: set<Byte>, status: Status): (r: Controllers)
    ensures r.Keys == m.Keys
  {
    map n | n in m :: if n in todo then m[n] else m[n].(status := status)
  }

  /** One loop iteration marks one more controller; with nothing left every controller is marked. */
  lemma MarkingStep(m: Controllers, todo: set<Byte>, status: Status, n: Byte)
    requires n in todo && todo <= m.Keys
    ensures var before := Marking(m, todo, status);
      before[n := before[n].(status := status)] == Marking(m, todo - {n}, status)
  {
    var before := Marking(m, todo, status);
    assert before[n := before[n].(status := status)] == Marking(m, todo - {n}, status);
  }

  /** Before the loop nothing is marked; after it every controller is. */
  lemma MarkingEnds(m: Controllers, status: Status)
    ensures Marking(m, m.Keys, status) == m
    ensures Marking(m, {}, status) == WithStatus(m, status)
  {
    assert Marking(m, m.Keys, status) == m;
  }

  /** The table after a poll's reply: everyone configuring when it carries a configuration, then
      everyone firing when it carries `fire`. */
  function AfterReply(m: Controllers, reply: PollReply): Controllers
  {
    var configured := if reply.configuration.Some? then WithStatus(m, Configuring) else m;
    if reply.fire then WithStatus(configured, Firing) else configured
  }

  /** The configuration command for controller `n`, to its own address. */
  function Command(m: Controllers, n: Byte, s: Settings): Datagram
    requires n in m && Encodable(s)
  {
    Datagram(Unicast(m[n].ip), ConfigurationPacket(n, s))
  }

  /** The configuration commands for the controllers `netids`, one per controller. */
  function Commands(m: Controllers, netids: set<Byte>, s: Settings): set<Datagram>
    requires Encodable(s) && netids <= m.Keys
  {
    set n | n in netids :: Command(m, n, s)
  }

  /** The commands for the controllers in `order`, one after the other. */
  function CommandList(m: Controllers, order: seq<Byte>, s: Settings): (r: seq<Datagram>)
    requires Encodable(s) && forall i :: 0 <= i < |order| ==> order[i] in m
    ensures |r| == |order|
  {
    seq(|order|, i requires 0 <= i < |order| => Command(m, order[i], s))
  }

  /** Byte 13 of a command is its network id, so no two controllers get the same command. */
  lemma CommandNamesController(m: Controllers, netids: set<Byte>, s: Settings, n: Byte)
    requires Encodable(s) && netids <= m.Keys && n in m && n !in netids
    ensures Command(m, n, s) !in Commands(m, netids, s)
  {
    PacketLayout(n, s);
    forall k | k in netids
      ensures ConfigurationPacket(k, s) != ConfigurationPacket(n, s)
    {
      PacketLayout(k, s);
    }
  }

  /** Sending one more controller its command appends exactly that command, and adds it to the
      commands sent so far. */
  lemma AddCommand(m: Controllers, done: set<Byte>, order: seq<Byte>, s: Settings, n: Byte)
    requires Encodable(s) && done <= m.Keys && n in m && n !in done
    requires forall i :: 0 <= i < |order| ==> order[i] in m
    requires multiset(CommandList(m, order, s)) == multiset(Commands(m, done, s))
    ensures CommandList(m, order + [n], s) == CommandList(m, order, s) + [Command(m, n, s)]
    ensures multiset(CommandList(m, order + [n], s)) == multiset(Commands(m, done + {n}, s))
  {
    CommandNamesController(m, done, s, n);
    assert Commands(m, done + {n}, s) == Commands(m, done, s) + {Command(m, n, s)};
    assert CommandList(m, order + [n], s) == CommandList(m, order, s) + [Command(m, n, s)];
  }

  /** What the command loop has sent so far: `base` followed by the commands for `order`, which
      are, as a multiset, those for the controllers `done`. With no controllers nothing is sent. */
  ghost predicate Shipped(m: Controllers, s: Settings, done: set<Byte>, order: seq<Byte>,
                          base: seq<Datagram>, sent: seq<Datagram>)
  {
    && done <= m.Keys
    && (forall i :: 0 <= i < |order| ==> order[i] in m)
    && (m == map[] ==> order == [] && sent == base)
    && (m != map[] ==>
         && Encodable(s)
         && sent == base + CommandList(m, order, s)
         && multiset(CommandList(m, order, s)) == multiset(Commands(m, done, s)))
  }

  /** One more controller's command keeps the loop's record of what it has sent, the controllers
      done being those no longer in `todo`. */
  lemma ShippedStep(m: Controllers, s: Settings, todo: set<Byte>, order: seq<Byte>,
                    base: seq<Datagram>, sent: seq<Datagram>, n: Byte)
    requires Shipped(m, s, m.Keys - todo, order, base, sent) && n in todo && todo <= m.Keys
    ensures Encodable(s)
    ensures Shipped(m, s, m.Keys - (todo - {n}), order + [n], base, sent + [Command(m, n, s)])
  {
    assert m.Keys - (todo - {n}) == (m.Keys - todo) + {n};
    AddCommand(m, m.Keys - todo, order, s, n);
  }

  /** Once every controller is done: the earlier datagrams are kept, and after them come exactly
      the commands for all the controllers, one each, every one to a single address. */
  lemma ShippedAll(m: Controllers, s: Settings, order: seq<Byte>, base: seq<Datagram>, sent: seq<Datagram>)
    requires m != map[] && |order| == |m| && Shipped(m, s, m.Keys, order, base, sent)
    ensures |sent| == |base| + |m| && sent[..|base|] == base
    ensures multiset(sent[|base|..]) == multiset(Commands(m, m.Keys, s))
    ensures forall i :: |base| <= i < |sent| ==> sent[i].destination.Unicast?
  {
    assert sent[|base|..] == CommandList(m, order, s);
    assert sent[..|base|] == base;
  }

  /** `max(next_heartbeat - time.time(), 0)`: how long the main loop sleeps. */
  function SleepTime(nextHeartbeat: int, now: int): (d: int)
    ensures d >= 0 && now + d >= nextHeartbeat
    ensures d == 0 || now + d == nextHeartbeat
  {
    if nextHeartbeat - now > 0 then nextHeartbeat - now else 0
  }

  // ---------------------------------------------------------------------------------------------
  // As written, the command loop rebinds the reply's name

  /** What the name `data` denotes when the gateway tests `'fire' in data`, as the source is
      written: the loop over the controllers rebinds it to the command it built last, in the
      table's iteration order `order`. */
  datatype DataBinding = ReplyObject | CommandBytes(netid: Byte)

  function DataAtFireTest(reply: PollReply, order: seq<Byte>): (r: DataBinding)
    ensures r.ReplyObject? <==> reply.configuration.None? || order == []
    ensures r.CommandBytes? ==> r.netid == order[|order| - 1]
  {
    if reply.configuration.Some? && order != [] then CommandBytes(order[|order| - 1]) else ReplyObject
  }

  /** The server's answer carrying a configuration, with one known controller (network id 5): the
      fire test meets the command bytes instead of the reply, so neither the reply's `fire` nor its
      `heartbeat_interval` is read. */
  lemma ShadowedReplyExample()
    ensures DataAtFireTest(PollReply(10, Some(map[]), false), [5]) == CommandBytes(5)
    ensures DataAtFireTest(PollReply(10, Some(map[]), false), []) == ReplyObject
  {
  }

  // ---------------------------------------------------------------------------------------------
  // The gateway process

  class Gateway {
    /** `config.serial`, the gateway's own device id. */
    const serial: string
    /** The gateway's own addresses; datagrams from them are skipped. */
    const ownAddresses: set<Ip>
    var controllers: Controllers
    /** False once the listener thread has died on a datagram it could not read. */
    var listening: bool
    var sent: seq<Datagram>
    var upstream: seq<Notification>

    constructor (serial: string, ownAddresses: set<Ip>)
      ensures this.serial == serial && this.ownAddresses == ownAddresses
      ensures controllers == map[] && listening && sent == [] && upstream == []
    {
      this.serial := serial;
      this.ownAddresses := ownAddresses;
      controllers := map[];
      listening := true;
      sent := [];
      upstream := [];
    }

    /** The for/else of the listener: true iff no known controller is in a status other than ready. */
    method AllControllersReady() returns (ready: bool)
      ensures ready <==> AllReady(controllers)
    {
      var todo := controllers.Keys;
      while todo != {}
        invariant todo <= controllers.Keys
        invariant forall n :: n in controllers && n !in todo ==> controllers[n].status == Ready
        decreases |todo|
      {
        var n :| n in todo;
        if controllers[n].status != Ready {
          return false;
        }
        todo := todo - {n};
      }
      return true;
    }

    /** One datagram received by the listener from `sender`. */
    method HandleDatagram(data: seq<Byte>, sender: Ip)
      modifies this`controllers, this`listening, this`upstream
      ensures !old(listening) || sender in ownAddresses ==>
        controllers == old(controllers) && listening == old(listening) && upstream == old(upstream)
      ensures old(listening) && sender !in ownAddresses && data == [] ==>
        controllers == old(controllers) && !listening && upstream == old(upstream)
      ensures old(listening) && sender !in ownAddresses && data != [] ==>
        var msg := Parse(data).value;
        && listening
        && controllers == Receive(old(controllers), msg, sender)
        && upstream == old(upstream) + if Notifies(old(controllers), msg, sender) then [ConfigurationComplete(serial)] else []
    {
      if !listening || sender in ownAddresses {
        return;
      }
      var parsed := Parse(data);
      if parsed.None? {
        listening := false;
        return;
      }
      match parsed.value {
        case Announce(n) =>
          if n !in controllers {
            controllers := controllers[n := ControllerRecord(sender, Unknown)];
          }
        case CaptureComplete(n) =>
          if n in controllers {
            controllers := controllers[n := controllers[n].(status := Ready)];
          }
        case ReceivedConfiguration(n) =>
          if n in controllers {
            controllers := controllers[n := controllers[n].(status := Ready)];
          }
          var ready := AllControllersReady();
          if ready {
            upstream := upstream + [ConfigurationComplete(serial)];
          }
        case Unrecognised =>
      }
    }

    /** The status loop run when the reply carries `fire`. */
    method MarkAll(status: Status)
      modifies this`controllers
      ensures controllers == WithStatus(old(controllers), status)
    {
      ghost var before := controllers;
      var todo := controllers.Keys;
      MarkingEnds(before, status);
      while todo != {}
        invariant todo <= before.Keys
        invariant controllers == Marking(before, todo, status)
        decreases |todo|
      {
        var n :| n in todo;
        MarkingStep(before, todo, status, n);
        controllers := controllers[n := controllers[n].(status := status)];
        todo := todo - {n};
      }
    }

    /** The body of the command loop for controller `n`. */
    method SendOne(n: Byte, s: Settings)
      requires n in controllers && Encodable(s)
      modifies this`controllers, this`sent
      ensures controllers == old(controllers)[n := old(controllers)[n].(status := Configuring)]
      ensures sent == old(sent) + [Command(old(controllers), n, s)]
    {
      controllers := controllers[n := controllers[n].(status := Configuring)];
      var packet := BuildConfigurationPacket(n, s);
      sent := sent + [Datagram(Unicast(controllers[n].ip), packet)];
    }

    /** Sends every known controller its configuration command, marking it configuring first;
        `order` lists the network ids in the order the loop visited them. */
    method SendConfiguration(s: Settings) returns (order: seq<Byte>)
      requires controllers != map[] ==> Encodable(s)
      modifies this`controllers, this`sent
      ensures controllers == WithStatus(old(controllers), Configuring)
      ensures |order| == |old(controllers)| && forall n :: n in order <==> n in old(controllers)
      ensures Shipped(old(controllers), s, old(controllers).Keys, order, old(sent), sent)
    {
      ghost var before := controllers;
      order := [];
      var todo := controllers.Keys;
      MarkingEnds(before, Configuring);
      assert before.Keys - todo == {};
      if before != map[] {
        assert CommandList(before, order, s) == [];
      }
      while todo != {}
        invariant todo <= before.Keys
        invariant controllers == Marking(before, todo, Configuring)
        invariant |order| + |todo| == |before.Keys|
        invariant forall n :: n in order <==> n in before && n !in todo
        invariant Shipped(before, s, before.Keys - todo, order, old(sent), sent)
        decreases |todo|
      {
        var n :| n in todo;
        ShippedStep(before, s, todo, order, old(sent), sent, n);
        MarkingStep(before, todo, Configuring, n);
        assert Command(controllers, n, s) == Command(before, n, s);
        SendOne(n, s);
        order := order + [n];
        todo := todo - {n};
      }
      assert before.Keys - todo == before.Keys;
    }

    /** One round of the poll loop at time `now`, given the server's reply, as the gateway
        evidently intends it: configure every controller if the reply carries a configuration,
        then fire if it carries `fire`; answers when to poll next. `order` is the order in which
        the controllers were sent their commands. */
    method Poll(now: int, reply: PollReply) returns (nextHeartbeat: int, ghost order: seq<Byte>)
      requires reply.configuration.Some? && controllers != map[] ==> Encodable(Merged(reply.configuration.value))
      modifies this`controllers, this`sent
      ensures controllers == AfterReply(old(controllers), reply)
      ensures nextHeartbeat == now + reply.interval
      ensures reply.fire ==> |sent| > |old(sent)| && sent[|sent| - 1] == Datagram(Broadcast, FireCommand)
      ensures var configurationSent := if reply.fire then sent[..|sent| - 1] else sent;
        if reply.configuration.Some? then
          && |order| == |old(controllers)| && (forall n :: n in order <==> n in old(controllers))
          && Shipped(old(controllers), Merged(reply.configuration.value), old(controllers).Keys, order, old(sent), configurationSent)
        else
          order == [] && configurationSent == old(sent)
    {
      order := [];
      if reply.configuration.Some? {
        order := SendConfiguration(Merged(reply.configuration.value));
      }
      if reply.fire {
        ghost var configurationSent := sent;
        MarkAll(Firing);
        sent := sent + [Datagram(Broadcast, FireCommand)];
        assert sent[..|sent| - 1] == configurationSent;
      }
      nextHeartbeat := now + reply.interval;
    }

    /** The same round as the source is written: after the command loop the name `data` holds
        the last command built, so when any command was sent the fire test raises and the round
        ends there, without firing and without a next poll time (`None`). */
    method PollAsWritten(now: int, reply: PollReply) returns (nextHeartbeat: Option<int>, ghost order: seq<Byte>)
      requires reply.configuration.Some? && controllers != map[] ==> Encodable(Merged(reply.configuration.value))
      modifies this`controllers, this`sent
      ensures nextHeartbeat.None? <==> reply.configuration.Some? && old(controllers) != map[]
      ensures nextHeartbeat.None? ==>
        && controllers == WithStatus(old(controllers), Configuring)
        && |order| == |old(controllers)| && (forall n :: n in order <==> n in old(controllers))
        && Shipped(old(controllers), Merged(reply.configuration.value), old(controllers).Keys, order, old(sent), sent)
        && forall i :: |old(sent)| <= i < |sent| ==> sent[i] != Datagram(Broadcast, FireCommand)
      ensures nextHeartbeat.Some? ==>
        && nextHeartbeat.value == now + reply.interval
        && controllers == AfterReply(old(controllers), reply)
        && sent == old(sent) + if reply.fire then [Datagram(Broadcast, FireCommand)] else []
    {
      var visited: seq<Byte> := [];
      if reply.configuration.Some? {
        visited := SendConfiguration(Merged(reply.configuration.value));
      }
      order := visited;
      var data := DataAtFireTest(reply, visited);
      if data.CommandBytes? {
        ShippedAll(old(controllers), Merged(reply.configuration.value), visited, old(sent), sent);
        return None, order;
      }
      if reply.fire {
        MarkAll(Firing);
        sent := sent + [Datagram(Broadcast, FireCommand)];
      }
      return Some(now + reply.interval), order;
    }
  }
}
