/** What a reconnect does that a later on_receive asks for: the new connection counts as settled before it
    has replied. */
module UvLate {
  import opened UvSpec
  import opened UvGate

  // ---------- The client just before and just after ----------

  lemma {:induction false} ActsLast(c: Client, acts: seq<Action>, a: Action, origin: Origin)
    ensures Acts(c, acts + [a], origin) == Act(Acts(c, acts, origin), a, origin)
    decreases |acts|
  {
    hide Act;
    if acts == [] {
      assert acts + [a] == [a] && [a][1..] == [];
    } else {
      ActsLast(Act(c, acts[0], origin), acts[1..], a, origin);
      assert (acts + [a])[0] == acts[0] && (acts + [a])[1..] == acts[1..] + [a];
    }
  }

  // What is left when the calls before the reconnect have been made.
  function Before(c: Client, acts: seq<Action>): Client
    requires c.sentq != []
  {
    Acts(c.(sentq := c.sentq[1..], replied := true), acts, Plain)
  }

  // An on_receive whose last call asks for another server although the client is idle.
  predicate Late(c: Client, acts: seq<Action>) {
    && Gate(c) && c.pipe == Up && c.sentq != []
    && Orderly(c.(sentq := c.sentq[1..], replied := true), acts)
    && Before(c, acts).Idle()
  }

  lemma BeforeSettles(c: Client, acts: seq<Action>)
    requires Late(c, acts)
    ensures Settling(Before(c, acts)) && Before(c, acts).pendq == [] && !Before(c, acts).connecting
  {
    OrderlyKeepsSettling(c.(sentq := c.sentq[1..], replied := true), acts);
  }

  // The next connection, with no flag up.
  function Moved(e: Client): Client
    requires e.cpus != []
  {
    ReconnectOne(e.(shunned := true)).(connecting := false)
  }

  lemma LateReply(c: Client, acts: seq<Action>)
    requires Late(c, acts)
    ensures var e, d := Before(c, acts), OnReply(c, acts + [Reconnect]);
            && (e.epipe ==> d == e)
            && (!e.epipe && e.cpus == [] ==> d == ReconnectOne(e.(shunned := true)))
            && (!e.epipe && e.cpus != [] ==> d == Moved(e))
  {
    ActsLast(c.(sentq := c.sentq[1..], replied := true), acts, Reconnect, Plain);
    BeforeSettles(c, acts);
    hide Acts, Orderly;
    var e := Before(c, acts);
    if !e.epipe && e.cpus != [] {
      var n := ReconnectOne(e.(shunned := true));
      assert DeliverAll(n.(connecting := false)) == n.(connecting := false);
    }
  }

  // ---------- What can follow ----------

  /* A listener is asked for, a message submitted, the connection made and the listener connected to: all as
     documented. */
  const AFTERWARDS: seq<Event> := [Call(Listen), Call(Submit(false, [])), Connected(true, []), Accepted([])]

  lemma MovedLeaks(e: Client)
    requires e.Idle() && e.pendq == [] && e.cpus != [] && !e.epipe
    ensures LegalRun(Moved(e), AFTERWARDS) && !AllAllowed(Run(Moved(e), AFTERWARDS).written)
  {
    var c := Moved(e);
    var l := Step(c, Call(Listen));
    assert l == ListenOne(c);
    var m := Msg(l.nextId, SEND, [], Plain);
    var q := Step(l, Call(Submit(false, [])));
    assert q == l.(pendq := [m], nextId := l.nextId + 1);
    var u := Step(q, Connected(true, []));
    assert u == q.(pipe := Up) by {
      assert Acts(Connecting(q), [], OnConnect) == Connecting(q);
    }
    var v := u.(listening := false, pendq := []);
    var w := SendWriting(v, m, true);
    assert Step(u, Accepted([])) == w by {
      assert u.pendq[1..] == [] && DeliverAll(w) == w;
    }
    assert w.written[|v.written|] == Write(w.conn, m, true, false, false, false);
    hide Step;
    var es := AFTERWARDS;
    assert es[1..][1..][1..] == [Accepted([])] && es[1..][1..][1..][1..] == [];
    assert es[1..][0] == es[1] && es[1..][1..][0] == es[2] && es[1..][1..][1..][0] == es[3];
    assert LegalRun(u, es[1..][1..][1..]) && Run(u, es[1..][1..][1..]) == w;
    assert LegalRun(q, es[1..][1..]) && Run(q, es[1..][1..]) == w;
    assert LegalRun(l, es[1..]) && Run(l, es[1..]) == w;
  }

  /* Whatever the client does afterwards as documented keeps queued messages from servers that have not
     replied, exactly when nothing came of the request: a listener forbids it, or no name is left. */
  lemma LateReconnectExactly(c: Client, acts: seq<Action>)
    requires Late(c, acts)
    ensures var d, e := OnReply(c, acts + [Reconnect]), Before(c, acts);
            (forall es :: LegalRun(d, es) ==> AllAllowed(Run(d, es).written)) <==> e.epipe || e.cpus == []
  {
    LateReply(c, acts);
    BeforeSettles(c, acts);
    var d, e := OnReply(c, acts + [Reconnect]), Before(c, acts);
    hide OnReply, Before, Late;
    if e.epipe || e.cpus == [] {
      assert Gate(d);
      forall es | LegalRun(d, es) ensures AllAllowed(Run(d, es).written) {
        RunKeepsGate(d, es);
      }
    } else {
      MovedLeaks(e);
    }
  }

  // ---------- From the start ----------

  // A documented run up to a client that is idle, has one request outstanding and names left.
  const UNTIL: seq<Event> := [Connected(true, [Submit(true, [])]), Replied([]), Call(Submit(true, []))]

  lemma LateReached(names: seq<string>)
    requires |names| >= 2
    ensures LegalRun(Dial(names), UNTIL)
    ensures var c := Run(Dial(names), UNTIL);
            Late(c, []) && !Before(c, []).epipe && Before(c, []).cpus != []
  {
    var c := Dial(names);
    var m, n := Msg(0, SEND_ACK, [], OnConnect), Msg(1, SEND_ACK, [], Plain);
    var d := Step(c, UNTIL[0]);
    assert d == SendWriting(c.(pipe := Up, nextId := 1), m, false) by {
      assert [Submit(true, [])][1..] == [];
    }
    var f := Step(d, UNTIL[1]);
    assert f == d.(sentq := [], replied := true, connecting := false) by {
      assert d.sentq[1..] == [];
    }
    var g := Step(f, UNTIL[2]);
    assert g == SendWriting(f.(nextId := 2), n, false);
    assert LegalRun(g, []) && Run(g, []) == g;
    hide Step;
    assert UNTIL[1..][1..][1..] == [] && UNTIL[1..][0] == UNTIL[1] && UNTIL[1..][1..][0] == UNTIL[2];
    assert LegalRun(f, UNTIL[1..][1..]) && Run(f, UNTIL[1..][1..]) == g;
    assert LegalRun(d, UNTIL[1..]) && Run(d, UNTIL[1..]) == g;
    assert LegalRun(c, UNTIL) && Run(c, UNTIL) == g;
    assert Gate(g) && g.sentq == [n] && Before(g, []) == g.(sentq := []);
  }

  // So a run from the start, with that one call outside the documented use, writes where it must not.
  lemma LateReconnectLeaks(names: seq<string>)
    requires |names| >= 2
    ensures var es := UNTIL + [Replied([Reconnect])] + AFTERWARDS;
            EnabledRun(Dial(names), es) && !AllAllowed(Run(Dial(names), es).written)
  {
    LateReached(names);
    var c := Run(Dial(names), UNTIL);
    LateReply(c, []);
    BeforeSettles(c, []);
    MovedLeaks(Before(c, []));
    assert [] + [Reconnect] == [Reconnect];
    var last := [Replied([Reconnect])];
    assert last[1..] == [] && EnabledRun(c, last) && Run(c, last) == Moved(Before(c, []));
    hide Run, EnabledRun, Moved, Before, AllAllowed;
    RunOn(Dial(names), UNTIL, last);
    RunOn(Dial(names), UNTIL + last, AFTERWARDS);
  }
}
