/** What a listener does that on_connect binds: the queue is delivered as soon as the server connects back,
    whether it has replied or not. */
module UvEarly {
  import opened UvSpec
  import opened UvGate
  import opened UvLate
  import opened UvLog

  // What on_connect leaves behind before it binds the listener.
  function Greeted(c: Client, acts: seq<Action>): Client { Acts(Connecting(c), acts, OnConnect) }

  // An on_connect whose last call listens, on a connection that has just been made.
  predicate Early(c: Client, acts: seq<Action>) {
    && Gate(c) && c.pipe == Awaiting && !c.disconnecting
    && Patient(Connecting(c), acts) && Greeted(c, acts).cpu.Some?
  }

  lemma {:induction false} PatientLast(c: Client, acts: seq<Action>, a: Action)
    requires Patient(c, acts)
    requires a.Listen? ==> Acts(c, acts, OnConnect).epipe || !Acts(c, acts, OnConnect).Idle()
    ensures Patient(c, acts + [a])
    decreases |acts|
  {
    hide Act;
    if acts == [] {
      assert acts + [a] == [a] && [a][1..] == [];
    } else {
      assert (acts + [a])[0] == acts[0] && (acts + [a])[1..] == acts[1..] + [a];
      PatientLast(Act(c, acts[0], OnConnect), acts[1..], a);
    }
  }

  // Nothing has replied to the greeting.
  lemma NoListenerYet(c: Client, acts: seq<Action>)
    requires Early(c, acts)
    ensures c.connecting && !Greeted(c, acts).epipe && !Greeted(c, acts).replied
  {
    PatientKeepsGreeting(Connecting(c), acts, c.reconnecting);
  }

  // A queue that is delivered to a server that has not replied.
  lemma DeliverLeaks(c: Client)
    requires c.pendq != [] && !c.replied && !c.disconnecting
    ensures !AllAllowed(DeliverAll(c).written)
  {
    var d := SendWriting(c.(pendq := c.pendq[1..]), c.pendq[0], true);
    DeliverAdvances(d);
    assert DeliverAll(c) == DeliverAll(d);
    var n := |c.written|;
    assert !Allowed(DeliverAll(d).written[n]) by {
      assert DeliverAll(d).written[n] == d.written[n];
    }
  }

  // A message is submitted, and the server connects to the listener.
  const AFTER_BINDING: seq<Event> := [Call(Submit(false, [])), Accepted([])]

  lemma BoundLeaks(d: Client)
    requires d.connecting && d.listening && d.epipe && !d.replied && !d.disconnecting && d.cpu.Some?
    ensures LegalRun(d, AFTER_BINDING) && !AllAllowed(Run(d, AFTER_BINDING).written)
  {
    var e, f := Call(Submit(false, [])), Accepted([]);
    var q := Step(d, e);
    QueuedBehind(d);
    AcceptedDelivers(q);
    var l := q.(listening := false);
    DeliverLeaks(l);
    RunOfTwo(d, e, f);
  }

  lemma QueuedBehind(d: Client)
    requires d.connecting && d.listening && d.epipe && !d.disconnecting && d.cpu.Some?
    ensures Legal(d, Call(Submit(false, [])))
    ensures Step(d, Call(Submit(false, [])))
            == d.(pendq := d.pendq + [Msg(d.nextId, SEND, [], Plain)], nextId := d.nextId + 1)
  {
  }

  lemma AcceptedDelivers(q: Client)
    requires q.listening && q.epipe && !q.disconnecting
    ensures Legal(q, Accepted([])) && Step(q, Accepted([])) == DeliverAll(q.(listening := false))
  {
    hide DeliverAll;
    assert Acts(q.(listening := false), [], OnListen) == q.(listening := false);
  }

  lemma RunOfTwo(c: Client, e: Event, f: Event)
    requires Legal(c, e) && Legal(Step(c, e), f)
    ensures LegalRun(c, [e, f]) && Run(c, [e, f]) == Step(Step(c, e), f)
  {
    assert [e, f][1..] == [f] && [f][1..] == [];
    hide Step, Legal;
    var d := Step(c, e);
    assert LegalRun(Step(d, f), []);
    assert LegalRun(d, [f]) && Run(d, [f]) == Step(d, f);
  }

  lemma EarlyBinds(c: Client, acts: seq<Action>)
    requires Early(c, acts) && Greeted(c, acts).Idle()
    ensures var d := OnConnected(c, true, acts + [Listen]);
            d.connecting && d.listening && d.epipe && !d.replied && !d.disconnecting && d.cpu.Some?
  {
    NoListenerYet(c, acts);
    ActsLast(Connecting(c), acts, Listen, OnConnect);
    hide Acts, Patient, Gate;
  }

  /* Whatever the client does afterwards as documented keeps queued messages from servers that have not replied,
     exactly when the listener is not bound at once: calls before it have raised a flag. */
  lemma EarlyListenExactly(c: Client, acts: seq<Action>)
    requires Early(c, acts)
    ensures var d := OnConnected(c, true, acts + [Listen]);
            (forall es :: LegalRun(d, es) ==> AllAllowed(Run(d, es).written)) <==> !Greeted(c, acts).Idle()
  {
    var d := OnConnected(c, true, acts + [Listen]);
    if Greeted(c, acts).Idle() {
      EarlyBinds(c, acts);
      BoundLeaks(d);
    } else {
      PatientLast(Connecting(c), acts, Listen);
      ConnectedKeepsGate(c, true, acts + [Listen]);
      forall es | LegalRun(d, es) ensures AllAllowed(Run(d, es).written) {
        RunKeepsGate(d, es);
      }
    }
  }
}
