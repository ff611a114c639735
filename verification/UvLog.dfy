/** The log of a client's writes only grows, and its connections only move on. */
module UvLog {
  import opened UvSpec

  // Messages only of connections tried.
  predicate ConnsKnown(c: Client) {
    forall i :: 0 <= i < |c.written| ==> c.written[i].conn <= c.conn
  }

  // Nothing written is taken back, and what was written since went to this connection or a later one.
  predicate Advances(c: Client, d: Client) {
    && c.written <= d.written && c.conn <= d.conn && c.nextId <= d.nextId
    && forall i :: |c.written| <= i < |d.written| ==> c.conn <= d.written[i].conn <= d.conn
  }

  lemma AdvancesTwice(c: Client, d: Client, e: Client)
    requires Advances(c, d) && Advances(d, e)
    ensures Advances(c, e)
  {
    forall i | |c.written| <= i < |e.written| ensures c.conn <= e.written[i].conn <= e.conn {
      if i < |d.written| {
        assert e.written[i] == d.written[i];
      }
    }
  }

  lemma AdvancesSame(c: Client, d: Client)
    requires d.written == c.written && d.conn >= c.conn && d.nextId >= c.nextId
    ensures Advances(c, d)
  {
  }

  lemma KnownKept(c: Client, d: Client)
    requires ConnsKnown(c) && Advances(c, d)
    ensures ConnsKnown(d)
  {
    forall i | 0 <= i < |d.written| ensures d.written[i].conn <= d.conn {
      if i < |c.written| {
        assert d.written[i] == c.written[i];
      }
    }
  }

  // ---------- Single calls ----------

  lemma WritingAdvances(c: Client, m: Msg, queued: bool)
    ensures Advances(c, SendWriting(c, m, queued))
  {
  }

  lemma {:induction false} DeliverAdvances(c: Client)
    ensures Advances(c, DeliverAll(c))
    decreases |c.pendq|
  {
    if c.pendq == [] {
      AdvancesSame(c, c);
    } else {
      var d := c.(pendq := c.pendq[1..]);
      var e := SendWriting(d, c.pendq[0], true);
      AdvancesSame(c, d);
      hide Advances, SendWriting;
      WritingAdvances(d, c.pendq[0], true);
      AdvancesTwice(c, d, e);
      DeliverAdvances(e);
      AdvancesTwice(c, e, DeliverAll(c));
    }
  }

  lemma ListenAdvances(c: Client)
    ensures Advances(c, ListenOne(c))
  {
  }

  lemma ReconnectAdvances(c: Client)
    ensures Advances(c, ReconnectOne(c))
  {
    hide Advances;
    var d := if c.cpus == [] then c else c.(cpus := c.cpus[1..], conn := c.conn + 1);
    assert ReconnectOne(c).written == d.written && ReconnectOne(c).conn == d.conn;
    AdvancesSame(c, ReconnectOne(c));
  }

  lemma ActAdvances(c: Client, a: Action, origin: Origin)
    ensures Advances(c, Act(c, a, origin))
  {
    match a
    case Submit(ack, payload) =>
    case Reconnect => ReconnectAdvances(c.(shunned := true));
    case Listen => ListenAdvances(c);
    case Disconnect =>
  }

  lemma {:induction false} ActsAdvance(c: Client, acts: seq<Action>, origin: Origin)
    ensures Advances(c, Acts(c, acts, origin))
    decreases |acts|
  {
    if acts == [] {
      AdvancesSame(c, c);
    } else {
      var d := Act(c, acts[0], origin);
      hide Advances, Act;
      ActAdvances(c, acts[0], origin);
      ActsAdvance(d, acts[1..], origin);
      AdvancesTwice(c, d, Acts(c, acts, origin));
    }
  }

  // ---------- Events ----------

  lemma SettleAdvances(c: Client)
    ensures Advances(c, Settle(c))
  {
    var d := c.(connecting := false);
    var l := if d.listening && !d.reconnecting && !d.disconnecting then ListenOne(d) else d;
    var e := if !l.listening && !l.reconnecting then DeliverAll(l) else l;
    AdvancesSame(c, d);
    AdvancesSame(l, l);
    AdvancesSame(d, d);
    AdvancesSame(e, e.(reconnecting := false));
    AdvancesSame(e, e);
    DownAdvances(DeliverAll(e));
    DownAdvances(ReconnectOne(e.(reconnecting := false)));
    hide Advances, ListenOne, DeliverAll, ReconnectOne;
    ListenAdvances(d);
    AdvancesTwice(c, d, l);
    DeliverAdvances(l);
    AdvancesTwice(c, l, e);
    DeliverAdvances(e);
    AdvancesTwice(c, e, DeliverAll(e));
    AdvancesTwice(c, e, e.(reconnecting := false));
    ReconnectAdvances(e.(reconnecting := false));
    AdvancesTwice(c, e.(reconnecting := false), ReconnectOne(e.(reconnecting := false)));
    AdvancesTwice(c, DeliverAll(e), DeliverAll(e).(pipe := Down));
    var r := ReconnectOne(e.(reconnecting := false));
    AdvancesTwice(c, r, r.(pipe := Down));
  }

  lemma DownAdvances(c: Client)
    ensures Advances(c, c.(pipe := Down))
  {
  }

  lemma ConnectedAdvances(c: Client, ok: bool, acts: seq<Action>)
    ensures Advances(c, OnConnected(c, ok, acts))
  {
    var d := if !ok || c.disconnecting then c else WithFlags(c, false, false, false, false).(pipe := Up);
    var e := Acts(d, acts, OnConnect);
    AdvancesSame(c, d);
    AdvancesSame(e, OnConnected(c, ok, acts));
    hide Advances, Acts;
    ActsAdvance(d, acts, OnConnect);
    AdvancesTwice(c, d, e);
    AdvancesTwice(c, e, OnConnected(c, ok, acts));
  }

  lemma ReplyAdvances(c: Client, acts: seq<Action>)
    requires c.sentq != []
    ensures Advances(c, OnReply(c, acts))
  {
    var d := c.(sentq := c.sentq[1..], replied := true);
    AdvancesSame(c, d);
    hide Advances, Acts, Settle;
    ActsAdvance(d, acts, Plain);
    AdvancesTwice(c, d, Acts(d, acts, Plain));
    SettleAdvances(Acts(d, acts, Plain));
    AdvancesTwice(c, Acts(d, acts, Plain), Settle(Acts(d, acts, Plain)));
  }

  lemma AcceptedAdvances(c: Client, acts: seq<Action>)
    ensures Advances(c, OnAccepted(c, acts))
  {
    var d := c.(listening := false);
    AdvancesSame(c, d);
    hide Advances, Acts, DeliverAll;
    ActsAdvance(d, acts, OnListen);
    var e := Acts(d, acts, OnListen);
    AdvancesTwice(c, d, e);
    DeliverAdvances(e);
    AdvancesTwice(c, e, DeliverAll(e));
  }

  // Every event, documented or not.
  lemma StepAdvances(c: Client, e: Event)
    requires Enabled(c, e)
    ensures Advances(c, Step(c, e))
  {
    hide Advances, Act, OnConnected, OnReply, OnAccepted;
    match e
    case Call(a) => ActAdvances(c, a, Plain);
    case Connected(ok, acts) => ConnectedAdvances(c, ok, acts);
    case Replied(acts) => ReplyAdvances(c, acts);
    case Accepted(acts) => AcceptedAdvances(c, acts);
  }
}
