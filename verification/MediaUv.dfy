/** The asynchronous client as its callbacks change it in place: each does what its specification says, and keeps
    what is proved of whole runs. */
module MediaUv {
  import opened Prelude
  import opened Framing
  import opened UvSpec
  import opened UvGate
  import opened UvOrder
  import opened UvLog

  // One word of bits in the original.
  datatype Flags = Flags(connecting: bool, listening: bool, reconnecting: bool, disconnecting: bool)

  const NOTHING := Flags(false, false, false, false)

  function Either(f: Flags, g: Flags): Flags {
    Flags(f.connecting || g.connecting, f.listening || g.listening,
          f.reconnecting || g.reconnecting, f.disconnecting || g.disconnecting)
  }

  function Raised(c: Client, was: Flags): Client {
    WithFlags(c, c.connecting || was.connecting, c.listening || was.listening,
              c.reconnecting || was.reconnecting, c.disconnecting || was.disconnecting)
  }

  /* What holds of a client between events: who may be written to, in which order, which connections there were,
     and how many names there are in all. */
  ghost predicate Kept(c: Client, names: nat) {
    Gate(c) && Ordered(c) && ConnsKnown(c) && c.conn + |c.cpus| == names
  }

  // Any call, from outside or inside a callback.
  lemma ActKept(c: Client, a: Action, origin: Origin, names: nat)
    requires Kept(c, names)
    ensures Kept(Act(c, a, origin), names) && c.written <= Act(c, a, origin).written
  {
    assert c.Idle() ==> c.pendq == [];
    ActAdvances(c, a, origin);
    hide Act, Gate, Ordered;
    ActKeepsGate(c, a, origin);
    ActKeepsOrder(c, a, origin);
    KnownKept(c, Act(c, a, origin));
    ActKeepsTries(c, a, origin);
  }

  lemma StepKept(c: Client, e: Event, names: nat)
    requires Kept(c, names) && Legal(c, e)
    ensures Kept(Step(c, e), names) && c.written <= Step(c, e).written
  {
    StepAdvances(c, e);
    hide Step, Gate, Ordered, Legal;
    StepKeepsGate(c, e);
    StepKeepsOrder(c, e);
    KnownKept(c, Step(c, e));
    assert Enabled(c, e) by { LegalEnabled(c, e); }
    StepKeepsTries(c, e);
  }

  lemma LegalEnabled(c: Client, e: Event)
    requires Legal(c, e)
    ensures Enabled(c, e)
  {
  }

  // A call of the handle that was accepted adds one message behind all that were written or wait.
  lemma SendAppends(c: Client, ack: bool, payload: Payload, origin: Origin)
    requires Gate(c)
    ensures var m := Msg(c.nextId, if ack then SEND_ACK else SEND, payload, origin);
            Trace(UvSpec.Send(c, ack, payload, origin))
            == if c.cpu == None || c.disconnecting then Trace(c) else Trace(c) + [m]
  {
    var m := Msg(c.nextId, if ack then SEND_ACK else SEND, payload, origin);
    if c.Idle() {
      SentTrace(c.(nextId := c.nextId + 1), m, false);
    } else {
      AppendTwice(Messages(c.written), c.pendq, [m]);
    }
  }

  /* A long-term connection; `Valid` is the invariant of its runs.  What the user's callbacks do is given to each
     method as the calls they make. */
  class Proxy {
    var flags: Flags
    var cpu: Option<string>
    var cpus: seq<string>
    var cpipe: Pipe
    var epipe: bool
    var pendq: seq<Msg>
    var sentq: seq<Msg>
    var nextId: nat
    // what has happened so far
    ghost var conn: nat
    ghost var written: seq<Write>
    ghost var replied: bool
    ghost var shunned: bool
    ghost const names: nat

    ghost function View(): Client
      reads this
    {
      Client(flags.connecting, flags.listening, flags.reconnecting, flags.disconnecting, cpu, cpus, conn,
             cpipe, epipe, pendq, sentq, written, nextId, replied, shunned)
    }

    ghost predicate Valid()
      reads this
    {
      Kept(View(), names)
    }

    // The first name is tried at once.
    constructor (names: seq<string>)
      requires names != []
      ensures Valid() && View() == Dial(names) && this.names == |names|
      ensures cpu == Some(names[0]) && cpus == names[1..] && cpipe == Awaiting && flags == NOTHING.(connecting := true)
    {
      this.names := |names|;
      flags := NOTHING.(connecting := true);
      cpu, cpus := Some(names[0]), names[1..];
      cpipe, epipe := Awaiting, false;
      pendq, sentq, nextId := [], [], 0;
      conn, written, replied, shunned := 1, [], false, false;
    }

    predicate Idle()
      reads this
    {
      flags == NOTHING
    }

    // ---------- Writing ----------

    method SendWriting(m: Msg, ghost queued: bool)
      modifies this
      ensures View() == UvSpec.SendWriting(old(View()), m, queued)
    {
      if m.code == SEND_ACK {
        sentq := sentq + [m];
      }
      written := written + [Write(conn, m, queued, replied, shunned, flags.disconnecting)];
    }

    method DeliverWritings()
      modifies this
      ensures View() == DeliverAll(old(View())) && flags == old(flags)
    {
      while pendq != []
        invariant flags == old(flags)
        invariant DeliverAll(View()) == DeliverAll(old(View()))
        decreases |pendq|
      {
        var m := pendq[0];
        pendq := pendq[1..];
        SendWriting(m, true);
      }
    }

    method QueueWriting(m: Msg)
      modifies this
      ensures View() == if old(Idle()) then UvSpec.SendWriting(old(View()), m, false)
                        else old(View()).(pendq := old(pendq) + [m])
    {
      if Idle() {
        SendWriting(m, false);
      } else {
        pendq := pendq + [m];
      }
    }

    method NewMessage(code: Code, payload: Payload, origin: Origin) returns (m: Msg)
      modifies this`nextId
      ensures View() == old(View()).(nextId := old(nextId) + 1)
      ensures m == Msg(old(nextId), code, payload, origin)
    {
      m := Msg(nextId, code, payload, origin);
      nextId := nextId + 1;
    }

    // Refused without a server and on a leaving handle.
    method Submit(ack: bool, payload: Payload, origin: Origin) returns (ret: int)
      modifies this
      ensures View() == UvSpec.Send(old(View()), ack, payload, origin)
      ensures ret == if old(cpu) == None then -ECANCELED else if old(flags.disconnecting) then -EPERM else 0
    {
      hide UvSpec.SendWriting;
      if cpu == None {
        return -ECANCELED;
      }
      if flags.disconnecting {
        return -EPERM;
      }
      var m := NewMessage(if ack then SEND_ACK else SEND, payload, origin);
      QueueWriting(m);
      ret := 0;
    }

    method Send(ack: bool, payload: Payload, origin: Origin) returns (ret: int)
      modifies this
      ensures View() == UvSpec.Send(old(View()), ack, payload, origin)
      ensures ret == if old(cpu) == None then -ECANCELED else if old(flags.disconnecting) then -EPERM else 0
      ensures old(Valid()) ==>
                && Valid() && old(written) <= written
                && Trace(View()) == old(Trace(View()))
                   + if ret == 0 then [Msg(old(nextId), if ack then SEND_ACK else SEND, payload, origin)] else []
    {
      if Valid() {
        ActKept(View(), Action.Submit(ack, payload), origin, names);
        SendAppends(View(), ack, payload, origin);
        assert Trace(View()) + [] == Trace(View());
      }
      hide Kept, Trace, UvSpec.Send;
      ret := Submit(ack, payload, origin);
    }

    // ---------- Connecting, listening, leaving ----------

    // Drops both queues without running a callback.
    method ClearQueue()
      modifies this
      ensures View() == old(View()).(pendq := [], sentq := [])
    {
      sentq := sentq + pendq;
      pendq := [];
      while sentq != []
        invariant View() == old(View()).(pendq := [], sentq := sentq)
        decreases |sentq|
      {
        sentq := sentq[1..];
      }
    }

    method ConnectOne()
      requires cpu.Some?
      modifies this
      ensures View() == UvSpec.ConnectOne(old(View()), old(cpu).value)
    {
      cpipe := Awaiting;
      flags := flags.(connecting := true);
      conn, replied, shunned := conn + 1, false, false;
    }

    method ReconnectOne()
      modifies this
      ensures View() == UvSpec.ReconnectOne(old(View()))
    {
      if cpus == [] {
        cpu := None;
        ClearQueue();
        return;
      }
      cpu, cpus := Some(cpus[0]), cpus[1..];
      ConnectOne();
    }

    method ListenOne()
      modifies this
      ensures View() == UvSpec.ListenOne(old(View()))
    {
      epipe := true;
      var m := NewMessage(CREATE_NOTIFY, [], Internal);
      SendWriting(m, false);
      flags := flags.(listening := true);
    }

    method Disconnect() returns (ret: int)
      modifies this
      ensures View() == Act(old(View()), Action.Disconnect, Plain)
      ensures ret == if old(flags.disconnecting) then -EINVAL else 0
      ensures old(Valid()) ==> Valid() && old(written) <= written
    {
      if Valid() {
        ActKept(View(), Action.Disconnect, Plain, names);
      }
      hide Kept;
      if flags.disconnecting {
        return -EINVAL;
      }
      flags := flags.(disconnecting := true);
      ret := 0;
    }

    method Reconnect() returns (ret: int)
      modifies this
      ensures View() == Act(old(View()), Action.Reconnect, Plain)
      ensures ret == if old(epipe) then -EINVAL else 0
      ensures old(Valid()) ==> Valid() && old(written) <= written
    {
      if Valid() {
        ActKept(View(), Action.Reconnect, Plain, names);
      }
      hide Kept;
      if epipe {
        return -EINVAL;
      }
      shunned := true;
      if Idle() {
        ReconnectOne();
      } else {
        flags := flags.(reconnecting := true);
      }
      ret := 0;
    }

    method Listen() returns (ret: int)
      modifies this
      ensures View() == Act(old(View()), Action.Listen, Plain)
      ensures ret == if old(flags.listening) || old(epipe) then -EPERM else 0
      ensures old(Valid()) ==> Valid() && old(written) <= written
    {
      if Valid() {
        ActKept(View(), Action.Listen, Plain, names);
      }
      hide Kept;
      if flags.listening || epipe {
        return -EPERM;
      }
      if Idle() {
        ListenOne();
      } else {
        flags := flags.(listening := true);
      }
      ret := 0;
    }

    // The calls a user's callback makes, one after the other.
    method Callback(acts: seq<Action>, origin: Origin)
      modifies this
      ensures View() == Acts(old(View()), acts, origin)
    {
      var rest := acts;
      while rest != []
        invariant Acts(View(), rest, origin) == Acts(old(View()), acts, origin)
        decreases |rest|
      {
        ghost var before := View();
        var ret;
        match rest[0] {
          case Submit(ack, payload) => ret := Send(ack, payload, origin);
          case Reconnect => ret := Reconnect();
          case Listen => ret := Listen();
          case Disconnect => ret := Disconnect();
        }
        assert View() == Act(before, rest[0], origin);
        rest := rest[1..];
      }
    }

    // ---------- Callbacks from the event loop ----------

    method Close()
      modifies this`cpipe
      ensures View() == old(View()).(pipe := Down)
    {
      cpipe := Down;
    }

    method RaiseFlags(was: Flags)
      modifies this`flags
      ensures View() == Raised(old(View()), was)
    {
      flags := Either(flags, was);
    }

    // The flags are clear while on_connect runs, so that it can send at once.
    method OnConnectCallback(acts: seq<Action>)
      modifies this
      ensures View() == Acts(WithFlags(old(View()), false, false, false, false).(pipe := Up), acts, OnConnect)
    {
      flags := NOTHING;
      cpipe := Up;
      assert View() == WithFlags(old(View()), false, false, false, false).(pipe := Up);
      hide Acts;
      Callback(acts, OnConnect);
    }

    method ConnectOneCb(ok: bool, acts: seq<Action>)
      modifies this
      ensures View() == OnConnected(old(View()), ok, acts)
      ensures old(Valid() && Legal(View(), Connected(ok, acts))) ==> Valid() && old(written) <= written
    {
      if Valid() && Legal(View(), Connected(ok, acts)) {
        StepKept(View(), Connected(ok, acts), names);
      }
      hide Kept, Legal;
      hide Acts;
      if !ok || flags.disconnecting {
        Callback(acts, OnConnect);
        Close();
        return;
      }
      var was := flags;
      OnConnectCallback(acts);
      RaiseFlags(was);
    }

    method ListenAtLast()
      modifies this
      ensures var d := old(View()).(connecting := false);
              View() == if d.listening && !d.reconnecting && !d.disconnecting then UvSpec.ListenOne(d) else d
    {
      flags := flags.(connecting := false);
      hide UvSpec.ListenOne;
      if flags.listening && !flags.reconnecting && !flags.disconnecting {
        ListenOne();
      }
    }

    // Where the pipe is given up it is closed; the next connection has one of its own.
    method LeaveServer()
      modifies this
      ensures var e := old(View());
              View() == if e.disconnecting then DeliverAll(e).(pipe := Down)
                        else if !e.reconnecting then e
                        else
                          var r := UvSpec.ReconnectOne(e.(reconnecting := false));
                          if r.cpu == None then r.(pipe := Down) else r
    {
      hide DeliverAll, UvSpec.ReconnectOne;
      if flags.disconnecting {
        DeliverWritings();
        Close();
      } else if flags.reconnecting {
        flags := flags.(reconnecting := false);
        assert View() == old(View()).(reconnecting := false);
        ReconnectOne();
        if cpu == None {
          Close();
        }
      }
    }

    // What the flags ask for, after the first reply.
    method AfterFirstReply()
      modifies this
      ensures View() == Settle(old(View()))
    {
      hide UvSpec.ListenOne, DeliverAll, UvSpec.ReconnectOne;
      ListenAtLast();
      if !flags.listening && !flags.reconnecting {
        DeliverWritings();
      }
      LeaveServer();
    }

    /* A reply on the command pipe.  The queue of those that wait must not be empty, which the original asserts. */
    method HandleParcel(acts: seq<Action>)
      requires sentq != []
      modifies this
      ensures View() == OnReply(old(View()), acts)
      ensures old(Valid() && Legal(View(), Replied(acts))) ==> Valid() && old(written) <= written
    {
      if Valid() && Legal(View(), Replied(acts)) {
        StepKept(View(), Replied(acts), names);
      }
      hide Kept, Legal;
      sentq := sentq[1..];
      replied := true;
      assert View() == old(View()).(sentq := old(sentq)[1..], replied := true);
      hide Acts, Settle;
      Callback(acts, Plain);
      if flags.connecting {
        AfterFirstReply();
      }
    }

    method ListenOneCb(acts: seq<Action>)
      modifies this
      ensures View() == OnAccepted(old(View()), acts)
      ensures old(Valid() && Legal(View(), Accepted(acts))) ==> Valid() && old(written) <= written
    {
      if Valid() && Legal(View(), Accepted(acts)) {
        StepKept(View(), Accepted(acts), names);
      }
      hide Kept, Legal;
      var leaving := flags.disconnecting;
      flags := flags.(listening := false);
      assert View() == old(View()).(listening := false);
      hide Acts, DeliverAll;
      Callback(acts, OnListen);
      if leaving {
        return;
      }
      DeliverWritings();
    }
  }
}
