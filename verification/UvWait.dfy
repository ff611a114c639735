/** What becomes of what was asked for before the first reply: the listener, the other server, the end of the
    connection, and the messages that wait; and when they wait for ever. */
module UvWait {
  import opened Prelude
  import opened UvSpec
  import opened UvGate
  import opened UvOrder
  import opened UvLog

  // ---------- The greeting ----------

  // Whatever flags are up, on_connect writes at once to the connection just made.
  lemma GreetingGoesOut(c: Client, ack: bool, payload: Framing.Payload)
    requires c.cpu.Some? && !c.disconnecting
    ensures var d := OnConnected(c, true, [Submit(ack, payload)]);
            && d.written == c.written + [Write(c.conn, Msg(c.nextId, if ack then 2 else 1, payload, OnConnect),
                                               false, c.replied, c.shunned, false)]
            && d.pendq == c.pendq && d.pipe == Up
            && d.sentq == c.sentq + (if ack then [Msg(c.nextId, 2, payload, OnConnect)] else [])
            && d.connecting == c.connecting && d.listening == c.listening && d.reconnecting == c.reconnecting
  {
    var acts := [Submit(ack, payload)];
    assert acts[1..] == [];
    assert Acts(Connecting(c), acts, OnConnect) == Act(Connecting(c), acts[0], OnConnect);
  }

  // ---------- The first reply ----------

  // With no flag left, all that waits is written.
  lemma SettledDelivers(c: Client)
    requires !c.listening && !c.reconnecting && !c.disconnecting
    ensures var d := Settle(c);
            Messages(d.written) == Messages(c.written) + c.pendq && d.pendq == [] && d.Idle() && d.pipe == c.pipe
  {
    var e := c.(connecting := false);
    DeliverEmpties(e);
    DeliveredTrace(e);
    assert Trace(DeliverAll(e)) == Messages(DeliverAll(e).written);
    assert DeliverAll(e) == Settle(c);
  }

  // With the listening flag alone, exactly one request for a notify channel is written, and what waits goes on waiting.
  lemma SettledListens(c: Client)
    requires c.listening && !c.reconnecting && !c.disconnecting
    ensures var d := Settle(c);
            && d.written == c.written + [Write(c.conn, Msg(c.nextId, 4, [], Internal), false, c.replied, c.shunned,
                                               false)]
            && d.epipe && d.listening && !d.connecting && d.pendq == c.pendq && d.pipe == c.pipe
  {
  }

  // With the reconnecting flag, the next name is tried; without one, both queues are dropped.
  lemma SettledReconnects(c: Client)
    requires c.reconnecting && !c.disconnecting
    ensures var d := Settle(c);
            && d.written == c.written && !d.reconnecting && d.listening == c.listening
            && (c.cpus != [] ==>
                  && d.cpu == Some(c.cpus[0]) && d.cpus == c.cpus[1..] && d.conn == c.conn + 1 && d.pipe == Awaiting
                  && d.connecting && d.pendq == c.pendq && d.sentq == c.sentq)
            && (c.cpus == [] ==> d.cpu == None && d.pendq == [] && d.sentq == [] && d.pipe == Down && !d.connecting)
  {
  }

  // With the disconnecting flag, all that waits is written and the pipe is closed.
  lemma SettledLeaves(c: Client)
    requires c.disconnecting
    ensures var d := Settle(c);
            Messages(d.written) == Messages(c.written) + c.pendq && d.pendq == [] && d.pipe == Down && d.disconnecting
  {
    var e := c.(connecting := false);
    DeliverEmpties(e);
    DeliveredTrace(e);
    var f := DeliverAll(e);
    assert Trace(f) == Messages(f.written);
    assert DeliverAll(f) == f;
    assert f.(pipe := Down) == Settle(c);
  }

  // ---------- Listeners ----------

  /* A listener that nothing holds back is bound, unless no server is left; and another server is only asked for while
     a connection is being made or left. */
  predicate Prompt(c: Client) {
    && (c.listening && !c.connecting && !c.reconnecting && !c.disconnecting ==> c.epipe || c.cpu.None?)
    && (c.reconnecting ==> c.connecting || c.disconnecting || c.cpu.None?)
    && (c.cpu.None? ==> c.cpus == [])
  }

  lemma ActPrompt(c: Client, a: Action, origin: Origin)
    requires Prompt(c)
    ensures var d := Act(c, a, origin);
            Prompt(d) && (c.epipe ==> d.epipe) && (c.cpu.None? ==> d.cpu.None?)
  {
  }

  lemma {:induction false} ActsPrompt(c: Client, acts: seq<Action>, origin: Origin)
    requires Prompt(c)
    ensures var d := Acts(c, acts, origin);
            Prompt(d) && (c.epipe ==> d.epipe) && (c.cpu.None? ==> d.cpu.None?)
    decreases |acts|
  {
    if acts != [] {
      ActPrompt(c, acts[0], origin);
      hide Act, Prompt;
      ActsPrompt(Act(c, acts[0], origin), acts[1..], origin);
    }
  }

  lemma SettlePrompt(c: Client)
    requires Prompt(c)
    ensures Prompt(Settle(c))
  {
    if c.disconnecting {
      SettledLeaves(c);
      DeliverEmpties(c.(connecting := false));
      DeliverEmpties(DeliverAll(c.(connecting := false)));
    } else if c.reconnecting {
      SettledReconnects(c);
    } else if c.listening {
      SettledListens(c);
    } else {
      SettledDelivers(c);
      DeliverEmpties(c.(connecting := false));
    }
  }

  lemma StepPrompt(c: Client, e: Event)
    requires Prompt(c) && Enabled(c, e)
    ensures Prompt(Step(c, e))
  {
    hide Act, Acts, Settle, DeliverAll;
    match e
    case Call(a) => ActPrompt(c, a, Plain);
    case Connected(ok, acts) =>
      ActsPrompt(c, acts, OnConnect);
      ActsPrompt(Connecting(c), acts, OnConnect);
    case Replied(acts) =>
      var d := c.(sentq := c.sentq[1..], replied := true);
      ActsPrompt(d, acts, Plain);
      SettlePrompt(Acts(d, acts, Plain));
    case Accepted(acts) =>
      var d := c.(listening := false);
      ActsPrompt(d, acts, OnListen);
      DeliverEmpties(Acts(d, acts, OnListen));
  }

  lemma {:induction false} RunPrompt(c: Client, es: seq<Event>)
    requires Prompt(c) && EnabledRun(c, es)
    ensures Prompt(Run(c, es))
    decreases |es|
  {
    if es != [] {
      StepPrompt(c, es[0]);
      hide Prompt, Step, Enabled;
      RunPrompt(Step(c, es[0]), es[1..]);
    }
  }

  /* In every run, documented or not, a listener that no other flag holds back is bound while there is a server; and
     messages only wait for a first reply, for the listener to be connected to, or on a handle that is leaving. */
  lemma ListenerBound(names: seq<string>, es: seq<Event>)
    requires names != [] && EnabledRun(Dial(names), es)
    ensures var c := Run(Dial(names), es);
            && (c.listening && !c.connecting && !c.reconnecting && !c.disconnecting ==> c.epipe || c.cpu.None?)
            && (c.pendq != [] ==> c.connecting || (c.listening && c.epipe) || c.disconnecting)
  {
    RunPrompt(Dial(names), es);
    WritesInOrder(names, es);
  }

  // With no server left the flag may stay up without a listener: asked for early, and the last name turned down.
  lemma ListenerForgotten(name: string)
    ensures var es := [Call(Listen), Connected(true, [Submit(true, [])]), Replied([Reconnect])];
            LegalRun(Dial([name]), es)
            && var c := Run(Dial([name]), es);
               c.listening && !c.connecting && !c.reconnecting && !c.disconnecting && !c.epipe && c.cpu.None?
  {
    var c := Dial([name]);
    var ask, turn := [Submit(true, [])], [Action.Reconnect];
    var e1, e2, e3 := Call(Listen), Connected(true, ask), Replied(turn);
    var d1 := Step(c, e1);
    assert ask[1..] == [] && turn[1..] == [];
    var g := Connecting(d1);
    assert Acts(g, ask, OnConnect) == Act(g, ask[0], OnConnect);
    var d2 := Step(d1, e2);
    assert d2.connecting && d2.listening && |d2.sentq| == 1 && d2.cpus == [] && !d2.epipe && d2.pipe == Up;
    SubmitsOnly(g, ask);
    var r := d2.(sentq := d2.sentq[1..], replied := true);
    assert Acts(r, turn, Plain) == Act(r, Action.Reconnect, Plain);
    SettledReconnects(Act(r, Action.Reconnect, Plain));
    assert Orderly(r, turn);
    RunOfThree(c, e1, e2, e3);
    LegalOfThree(c, e1, e2, e3);
  }

  lemma SubmitsOnly(c: Client, acts: seq<Action>)
    requires |acts| == 1 && acts[0].Submit?
    ensures Patient(c, acts)
  {
    assert acts[1..] == [];
  }

  lemma LegalOfThree(c: Client, e: Event, f: Event, g: Event)
    requires Legal(c, e) && Legal(Step(c, e), f) && Legal(Step(Step(c, e), f), g)
    ensures LegalRun(c, [e, f, g])
  {
    assert [e, f, g][1..] == [f, g] && [f, g][1..] == [g] && [g][1..] == [];
    hide Step, Legal;
    var d := Step(c, e);
    assert LegalRun(Step(d, f), [g]);
    assert LegalRun(d, [f, g]);
  }

  // ---------- Messages that wait for ever ----------

  // A connection can still be made, a first reply can still come, or the listener can still be connected to.
  predicate Hopeful(c: Client) {
    || (c.pipe == Awaiting && !c.disconnecting)
    || (c.connecting && c.pipe == Up && c.sentq != [])
    || (c.listening && c.epipe && !c.disconnecting)
  }

  predicate Stuck(c: Client) { !Hopeful(c) && (c.disconnecting || (c.connecting && !c.epipe)) }

  lemma ActStuck(c: Client, a: Action, origin: Origin)
    requires c.disconnecting || (c.connecting && !c.epipe)
    ensures var d := Act(c, a, origin);
            && d.written == c.written && d.pipe == c.pipe && d.sentq == c.sentq && d.connecting == c.connecting
            && d.epipe == c.epipe && (c.disconnecting ==> d.disconnecting)
  {
    hide ReconnectOne, ListenOne, SendWriting;
    match a
    case Submit(_, _) =>
    case Reconnect =>
    case Listen =>
    case Disconnect =>
  }

  lemma {:induction false} ActsStuck(c: Client, acts: seq<Action>, origin: Origin)
    requires c.disconnecting || (c.connecting && !c.epipe)
    ensures var d := Acts(c, acts, origin);
            && d.written == c.written && d.pipe == c.pipe && d.sentq == c.sentq && d.connecting == c.connecting
            && d.epipe == c.epipe && (c.disconnecting ==> d.disconnecting)
    decreases |acts|
  {
    if acts != [] {
      ActStuck(c, acts[0], origin);
      hide Act;
      ActsStuck(Act(c, acts[0], origin), acts[1..], origin);
    }
  }

  lemma StepStuck(c: Client, e: Event)
    requires Stuck(c) && Enabled(c, e)
    ensures Stuck(Step(c, e)) && Step(c, e).written == c.written
  {
    hide Act, Acts, Settle, DeliverAll;
    match e
    case Call(a) => ActStuck(c, a, Plain);
    case Connected(ok, acts) => ActsStuck(c, acts, OnConnect);
    case Replied(acts) => ActsStuck(c.(sentq := c.sentq[1..], replied := true), acts, Plain);
    case Accepted(acts) => ActsStuck(c.(listening := false), acts, OnListen);
  }

  lemma {:induction false} RunStuck(c: Client, es: seq<Event>)
    requires Stuck(c) && EnabledRun(c, es)
    ensures Run(c, es).written == c.written
    decreases |es|
  {
    if es != [] {
      StepStuck(c, es[0]);
      hide Stuck, Step, Enabled;
      RunStuck(Step(c, es[0]), es[1..]);
    }
  }

  lemma RunOfOne(c: Client, e: Event)
    requires Enabled(c, e)
    ensures EnabledRun(c, [e]) && Run(c, [e]) == Step(c, e)
  {
    assert [e][1..] == [];
    assert EnabledRun(Step(c, e), []);
  }

  // What can still be done for a message that waits.
  lemma StillWritten(c: Client) returns (e: Event)
    requires Hopeful(c) && c.pendq != [] && c.cpu.Some?
    ensures Enabled(c, e) && Step(c, e).written != c.written
  {
    if c.listening && c.epipe && !c.disconnecting {
      e := Accepted([]);
      var d := c.(listening := false);
      assert Acts(d, [], OnListen) == d && Step(c, e) == DeliverAll(d);
      DeliveredTrace(d);
      DeliverEmpties(d);
    } else if c.connecting && c.pipe == Up && c.sentq != [] {
      var acts := [Action.Disconnect];
      e := Replied(acts);
      var d := c.(sentq := c.sentq[1..], replied := true);
      assert acts[1..] == [];
      assert Acts(d, acts, Plain) == d.(disconnecting := true);
      SettledLeaves(d.(disconnecting := true));
    } else {
      e := Connected(true, [Submit(false, [])]);
      GreetingGoesOut(c, false, []);
    }
  }

  /* A message that waits in a documented run: something can still be written exactly while a connection or a first
     reply can still come, or the listener be connected to; otherwise nothing ever is, whatever is called. */
  lemma WaitingExactly(names: seq<string>, es: seq<Event>)
    requires names != [] && LegalRun(Dial(names), es) && Run(Dial(names), es).pendq != []
    ensures var c := Run(Dial(names), es);
            (exists more :: EnabledRun(c, more) && Run(c, more).written != c.written) <==> Hopeful(c)
  {
    var c := Run(Dial(names), es);
    ListenerBound(names, es);
    WritesInOrder(names, es);
    RunKeepsGate(Dial(names), es);
    if Hopeful(c) {
      var e := StillWritten(c);
      RunOfOne(c, e);
    } else {
      assert Stuck(c);
      forall more | EnabledRun(c, more) ensures Run(c, more).written == c.written {
        RunStuck(c, more);
      }
    }
  }

  /* In particular after a connection that fails: its on_connect can ask for another server, but the flag that asks for
     it is only looked at after a reply, and nothing is written any more. */
  lemma FailedConnection(names: seq<string>, es: seq<Event>, acts: seq<Action>, more: seq<Event>)
    requires names != [] && LegalRun(Dial(names), es)
    requires Run(Dial(names), es).pipe == Awaiting
    requires EnabledRun(OnConnected(Run(Dial(names), es), false, acts), more)
    ensures var c := OnConnected(Run(Dial(names), es), false, acts);
            Run(c, more).written == Run(Dial(names), es).written
  {
    var c := Run(Dial(names), es);
    RunKeepsGate(Dial(names), es);
    ActsStuck(c, acts, OnConnect);
    RunStuck(OnConnected(c, false, acts), more);
  }
}
