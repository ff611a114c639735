/** Which messages a client writes, to whom, and in what order, over whole runs. */
module UvGate {
  import opened Prelude
  import opened UvSpec

  // ---------- The documented use ----------

  // No reconnect is asked for by an on_receive that finds the client idle.
  predicate Orderly(c: Client, acts: seq<Action>)
    decreases |acts|
  {
    acts == [] || ((acts[0].Reconnect? ==> c.epipe || !c.Idle()) && Orderly(Act(c, acts[0], Plain), acts[1..]))
  }

  // No listener is bound by an on_connect that finds the client idle: the server has not replied yet.
  predicate Patient(c: Client, acts: seq<Action>)
    decreases |acts|
  {
    acts == [] || ((acts[0].Listen? ==> c.epipe || !c.Idle()) && Patient(Act(c, acts[0], OnConnect), acts[1..]))
  }

  // While on_connect runs, the flags are clear.
  function Connecting(c: Client): Client { WithFlags(c, false, false, false, false).(pipe := Up) }

  // on_connect does not listen, and only the first on_receive asks for another server.
  predicate Documented(c: Client, e: Event)
    requires Enabled(c, e)
  {
    match e
    case Call(_) => true
    case Connected(ok, acts) => ok && !c.disconnecting ==> Patient(Connecting(c), acts)
    case Replied(acts) => Orderly(c.(sentq := c.sentq[1..], replied := true), acts)
    case Accepted(_) => true
  }

  ghost predicate Legal(c: Client, e: Event) { Enabled(c, e) && Documented(c, e) }

  ghost predicate LegalRun(c: Client, es: seq<Event>)
    ensures LegalRun(c, es) ==> EnabledRun(c, es)
    decreases |es|
  {
    es == [] || (Legal(c, es[0]) && LegalRun(Step(c, es[0]), es[1..]))
  }

  // ---------- What holds between events ----------

  // A message that had to wait goes to a server that replied and was not turned down, or to a leaving handle.
  predicate Allowed(w: Write) {
    w.queued ==> (w.replied && !w.shunned) || w.leaving
  }

  predicate AllAllowed(ws: seq<Write>) {
    forall i :: 0 <= i < |ws| ==> Allowed(ws[i])
  }

  // The flags tell the history of the current connection.
  predicate Flags(c: Client) {
    && (c.shunned ==> c.reconnecting || c.cpu == None)
    && (c.epipe ==> c.replied && !c.reconnecting)
    && (c.cpu == None ==> c.pendq == [])
  }

  predicate Gate(c: Client) {
    && Flags(c)
    && (c.connecting <==> !c.replied)
    && (c.Idle() ==> c.pendq == [])
    && (c.pipe == Awaiting ==> c.connecting)
    && AllAllowed(c.written)
  }

  // ---------- Writing ----------

  lemma SentAllowed(c: Client, m: Msg, queued: bool)
    requires AllAllowed(c.written)
    requires queued ==> (c.replied && !c.shunned) || c.disconnecting
    ensures AllAllowed(SendWriting(c, m, queued).written)
  {
  }

  // Delivering empties the queue and changes nothing but what is written and waiting.
  lemma {:induction false} DeliverEmpties(c: Client)
    ensures var d := DeliverAll(c);
            d.pendq == [] && d == c.(pendq := [], sentq := d.sentq, written := d.written)
    decreases |c.pendq|
  {
    if c.pendq != [] {
      DeliverEmpties(SendWriting(c.(pendq := c.pendq[1..]), c.pendq[0], true));
    }
  }

  // It writes nothing that is not allowed.
  lemma {:induction false} Delivered(c: Client)
    requires AllAllowed(c.written)
    requires c.pendq == [] || (c.replied && !c.shunned) || c.disconnecting
    ensures var d := DeliverAll(c);
            && d.pendq == [] && AllAllowed(d.written)
            && d == c.(pendq := [], sentq := d.sentq, written := d.written)
    decreases |c.pendq|
  {
    DeliverEmpties(c);
    if c.pendq != [] {
      SentAllowed(c.(pendq := c.pendq[1..]), c.pendq[0], true);
      Delivered(SendWriting(c.(pendq := c.pendq[1..]), c.pendq[0], true));
    }
  }

  // ---------- Single calls ----------

  // A call from outside, or from a callback that runs with the flags in force.
  lemma ActKeepsGate(c: Client, a: Action, origin: Origin)
    requires Gate(c)
    ensures Gate(Act(c, a, origin))
  {
  }

  lemma {:induction false} ActsKeepGate(c: Client, acts: seq<Action>, origin: Origin)
    requires Gate(c)
    ensures Gate(Acts(c, acts, origin))
    decreases |acts|
  {
    if acts != [] {
      ActKeepsGate(c, acts[0], origin);
      ActsKeepGate(Act(c, acts[0], origin), acts[1..], origin);
    }
  }

  /* Inside on_connect nothing is written out of the queue, no listener is bound, and what a reconnect request
     before it left pending (`asked`) is still to be raised again. */
  predicate Greeting(c: Client, asked: bool) {
    && AllAllowed(c.written) && !c.replied && !c.epipe
    && (c.shunned ==> asked || c.reconnecting || c.cpu == None)
    && (c.cpu == None ==> c.pendq == [])
  }

  lemma GreetingStep(c: Client, a: Action, asked: bool)
    requires Greeting(c, asked) && (a.Listen? ==> c.epipe || !c.Idle())
    ensures Greeting(Act(c, a, OnConnect), asked)
  {
  }

  lemma {:induction false} PatientKeepsGreeting(c: Client, acts: seq<Action>, asked: bool)
    requires Greeting(c, asked) && Patient(c, acts)
    ensures Greeting(Acts(c, acts, OnConnect), asked)
    decreases |acts|
  {
    if acts != [] {
      GreetingStep(c, acts[0], asked);
      hide Greeting, Act;
      PatientKeepsGreeting(Act(c, acts[0], OnConnect), acts[1..], asked);
    }
  }

  // ---------- Callbacks ----------

  lemma ConnectedKeepsGate(c: Client, ok: bool, acts: seq<Action>)
    requires Gate(c) && c.pipe == Awaiting && (ok && !c.disconnecting ==> Patient(Connecting(c), acts))
    ensures Gate(OnConnected(c, ok, acts))
  {
    if !ok || c.disconnecting {
      ActsKeepGate(c, acts, OnConnect);
    } else {
      PatientKeepsGreeting(Connecting(c), acts, c.reconnecting);
    }
  }

  // While on_receive runs after the first reply, the connecting flag is still up although the reply has come.
  predicate Settling(c: Client) {
    && Flags(c) && c.replied && c.pipe != Awaiting
    && (c.Idle() ==> c.pendq == [])
    && AllAllowed(c.written)
  }

  lemma OrderlyStep(c: Client, a: Action)
    requires Settling(c) && (a.Reconnect? ==> c.epipe || !c.Idle())
    ensures Settling(Act(c, a, Plain)) && Act(c, a, Plain).connecting == c.connecting
  {
  }

  lemma {:induction false} OrderlyKeepsSettling(c: Client, acts: seq<Action>)
    requires Settling(c) && Orderly(c, acts)
    ensures var d := Acts(c, acts, Plain);
            Settling(d) && d.connecting == c.connecting
    decreases |acts|
  {
    if acts != [] {
      OrderlyStep(c, acts[0]);
      hide Settling, Act;
      OrderlyKeepsSettling(Act(c, acts[0], Plain), acts[1..]);
    }
  }

  lemma SettleKeepsGate(c: Client)
    requires Settling(c) && c.connecting
    ensures Gate(Settle(c))
  {
    var d := c.(connecting := false);
    var l := if d.listening && !d.reconnecting && !d.disconnecting then ListenOne(d) else d;
    assert Flags(l) && AllAllowed(l.written);
    var e := if !l.listening && !l.reconnecting then DeliverAll(l) else l;
    if !l.listening && !l.reconnecting {
      Delivered(l);
    }
    if e.disconnecting {
      Delivered(e);
    }
  }

  lemma ReplyKeepsGate(c: Client, acts: seq<Action>)
    requires Gate(c) && c.pipe == Up && c.sentq != [] && Orderly(c.(sentq := c.sentq[1..], replied := true), acts)
    ensures Gate(OnReply(c, acts))
  {
    var d := c.(sentq := c.sentq[1..], replied := true);
    OrderlyKeepsSettling(d, acts);
    if Acts(d, acts, Plain).connecting {
      SettleKeepsGate(Acts(d, acts, Plain));
    }
  }

  lemma {:induction false} ActsKeepListener(c: Client, acts: seq<Action>, origin: Origin)
    requires Flags(c) && c.epipe && AllAllowed(c.written)
    ensures var d := Acts(c, acts, origin);
            && Flags(d) && d.epipe && AllAllowed(d.written)
            && d.connecting == c.connecting && d.replied == c.replied && d.pipe == c.pipe
            && (c.disconnecting ==> d.disconnecting)
    decreases |acts|
  {
    if acts != [] {
      ActsKeepListener(Act(c, acts[0], origin), acts[1..], origin);
    }
  }

  lemma AcceptedKeepsGate(c: Client, acts: seq<Action>)
    requires Gate(c) && c.listening && c.epipe
    ensures Gate(OnAccepted(c, acts))
  {
    var d := c.(listening := false);
    ActsKeepListener(d, acts, OnListen);
    if !c.disconnecting {
      Delivered(Acts(d, acts, OnListen));
    }
  }

  lemma StepKeepsGate(c: Client, e: Event)
    requires Gate(c) && Legal(c, e)
    ensures Gate(Step(c, e))
  {
    match e
    case Call(a) => ActKeepsGate(c, a, Plain);
    case Connected(ok, acts) => ConnectedKeepsGate(c, ok, acts);
    case Replied(acts) => ReplyKeepsGate(c, acts);
    case Accepted(acts) => AcceptedKeepsGate(c, acts);
  }

  // In every documented run a queued message is written only to a server that replied and was not turned
  // down, or on behalf of a disconnecting handle; and an idle client has nothing queued.
  lemma {:induction false} RunKeepsGate(c: Client, es: seq<Event>)
    requires Gate(c) && LegalRun(c, es)
    ensures Gate(Run(c, es))
    decreases |es|
  {
    if es != [] {
      StepKeepsGate(c, es[0]);
      RunKeepsGate(Step(c, es[0]), es[1..]);
    }
  }

  lemma QueuedWritesAllowed(names: seq<string>, es: seq<Event>)
    requires names != [] && LegalRun(Dial(names), es)
    ensures AllAllowed(Run(Dial(names), es).written)
    ensures Run(Dial(names), es).Idle() ==> Run(Dial(names), es).pendq == []
  {
    RunKeepsGate(Dial(names), es);
  }

  // ---------- Outside the documented use ----------

  // A listener bound by on_connect lets a queued message out to a server that has not replied.
  lemma EarlyListenLeaks(names: seq<string>)
    requires names != []
    ensures var es := [Call(Submit(false, [])), Connected(true, [Listen]), Accepted([])];
            EnabledRun(Dial(names), es) && !AllAllowed(Run(Dial(names), es).written)
  {
    var m := Msg(0, SEND, [], Plain);
    var c := Dial(names);
    var first, second, third := Call(Submit(false, [])), Connected(true, [Listen]), Accepted([]);
    var d := Step(c, first);
    assert d == c.(pendq := [m], nextId := 1);
    var l := Connecting(d);
    assert Acts(l, [Listen], OnConnect) == Act(l, Listen, OnConnect) == ListenOne(l);
    var e := Step(d, second);
    assert e.listening && e.epipe && e.pendq == [m] && !e.replied && !e.disconnecting;
    var f := e.(listening := false, pendq := []);
    var g := SendWriting(f, m, true);
    assert Step(e, third) == g by {
      assert Acts(e.(listening := false), [], OnListen) == e.(listening := false);
      assert e.pendq[1..] == [] && DeliverAll(g) == g;
    }
    assert g.written[|e.written|] == Write(g.conn, m, true, false, false, false);
    RunOfThree(c, first, second, third);
  }

  lemma RunOfThree(c: Client, e: Event, f: Event, g: Event)
    requires Enabled(c, e) && Enabled(Step(c, e), f) && Enabled(Step(Step(c, e), f), g)
    ensures EnabledRun(c, [e, f, g]) && Run(c, [e, f, g]) == Step(Step(Step(c, e), f), g)
  {
    assert [e, f, g][1..] == [f, g] && [f, g][1..] == [g];
    hide Step;
    var c1 := Step(c, e);
    var c2 := Step(c1, f);
    assert EnabledRun(c2, [g]) && Run(c2, [g]) == Step(c2, g);
    assert EnabledRun(c1, [f, g]) && Run(c1, [f, g]) == Run(c2, [g]);
  }

  lemma {:induction false} RunOn(c: Client, es: seq<Event>, more: seq<Event>)
    requires EnabledRun(c, es) && EnabledRun(Run(c, es), more)
    ensures EnabledRun(c, es + more) && Run(c, es + more) == Run(Run(c, es), more)
    decreases |es|
  {
    if es == [] {
      assert es + more == more;
    } else {
      hide Step, Enabled;
      RunOn(Step(c, es[0]), es[1..], more);
      assert (es + more)[0] == es[0] && (es + more)[1..] == es[1..] + more;
    }
  }
}
