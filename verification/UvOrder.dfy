/** The order of a client's writes, and how many servers it tries. */
module UvOrder {
  import opened Prelude
  import opened UvSpec
  import opened UvGate

  // ---------- Idle clients ----------

  // Nothing waits for a client that is idle, or that has no server left.
  predicate Drained(c: Client) { c.Idle() || c.cpu.None? ==> c.pendq == [] }

  predicate Stranded(c: Client) { c.cpu.None? ==> c.pendq == [] }

  lemma ActDrains(c: Client, a: Action, origin: Origin)
    requires Stranded(c)
    ensures Stranded(Act(c, a, origin))
    ensures Drained(c) ==> Drained(Act(c, a, origin))
    ensures c.disconnecting ==> Act(c, a, origin).disconnecting
  {
  }

  lemma {:induction false} ActsDrain(c: Client, acts: seq<Action>, origin: Origin)
    requires Stranded(c)
    ensures Stranded(Acts(c, acts, origin))
    ensures Drained(c) ==> Drained(Acts(c, acts, origin))
    ensures c.disconnecting ==> Acts(c, acts, origin).disconnecting
    decreases |acts|
  {
    if acts != [] {
      ActDrains(c, acts[0], origin);
      hide Act, Drained, Stranded;
      ActsDrain(Act(c, acts[0], origin), acts[1..], origin);
    }
  }

  lemma SettleDrains(c: Client)
    requires Stranded(c)
    ensures Drained(Settle(c))
  {
    var d := c.(connecting := false);
    var l := if d.listening && !d.reconnecting && !d.disconnecting then ListenOne(d) else d;
    DeliverEmpties(l);
    var e := if !l.listening && !l.reconnecting then DeliverAll(l) else l;
    DeliverEmpties(e);
  }

  // Every event, documented or not.
  lemma StepDrains(c: Client, e: Event)
    requires Drained(c) && Enabled(c, e)
    ensures Drained(Step(c, e))
  {
    hide Act, Acts, Settle, DeliverAll;
    match e
    case Call(a) => ActDrains(c, a, Plain);
    case Connected(ok, acts) =>
      ActsDrain(c, acts, OnConnect);
      ActsDrain(WithFlags(c, false, false, false, false).(pipe := Up), acts, OnConnect);
    case Replied(acts) =>
      var d := c.(sentq := c.sentq[1..], replied := true);
      ActsDrain(d, acts, Plain);
      SettleDrains(Acts(d, acts, Plain));
    case Accepted(acts) =>
      var d := c.(listening := false);
      ActsDrain(d, acts, OnListen);
      DeliverEmpties(Acts(d, acts, OnListen));
  }

  // ---------- Messages written and still to be written ----------

  function Messages(ws: seq<Write>): (ms: seq<Msg>)
    ensures |ms| == |ws| && forall i :: 0 <= i < |ws| ==> ms[i] == ws[i].msg
  {
    seq(|ws|, i requires 0 <= i < |ws| => ws[i].msg)
  }

  function Trace(c: Client): seq<Msg> { Messages(c.written) + c.pendq }

  // No message twice, and those submitted outside on_connect and on_listen in the order they were submitted.
  predicate InOrder(ms: seq<Msg>, bound: nat) {
    && (forall i :: 0 <= i < |ms| ==> ms[i].id < bound)
    && (forall i, j :: 0 <= i < j < |ms| ==> ms[i].id != ms[j].id)
    && (forall i, j :: 0 <= i < j < |ms| && ms[i].origin == Plain && ms[j].origin == Plain ==> ms[i].id < ms[j].id)
  }

  lemma Inserted(ms: seq<Msg>, k: nat, m: Msg)
    requires k <= |ms| && InOrder(ms, m.id) && (m.origin == Plain ==> k == |ms|)
    ensures InOrder(ms[..k] + [m] + ms[k..], m.id + 1)
  {
    var more := ms[..k] + [m] + ms[k..];
    assert |more| == |ms| + 1;
    forall i | 0 <= i < |more| ensures more[i] == if i < k then ms[i] else if i == k then m else ms[i - 1] {
    }
    forall i | 0 <= i < |more| ensures more[i].id < m.id + 1 {
      assert i != k ==> ms[if i < k then i else i - 1].id < m.id;
    }
    forall i, j | 0 <= i < j < |more|
      ensures more[i].id != more[j].id
      ensures more[i].origin == Plain && more[j].origin == Plain ==> more[i].id < more[j].id
    {
      var a, b := if i < k then i else i - 1, if j < k then j else j - 1;
      if i == k {
        assert ms[b].id < m.id;
      } else if j == k {
        assert ms[a].id < m.id;
      } else {
        assert ms[a].id != ms[b].id;
      }
    }
  }

  lemma Shortened(ms: seq<Msg>, k: nat, bound: nat)
    requires k <= |ms| && InOrder(ms, bound)
    ensures InOrder(ms[..k], bound)
  {
  }

  lemma SentTrace(c: Client, m: Msg, queued: bool)
    ensures Trace(SendWriting(c, m, queued)) == Messages(c.written) + [m] + c.pendq
  {
  }

  lemma SentInOrder(c: Client, m: Msg)
    requires InOrder(Trace(c), m.id) && (m.origin == Plain ==> c.pendq == [])
    ensures InOrder(Trace(SendWriting(c, m, false)), m.id + 1)
  {
    var n := |c.written|;
    SentTrace(c, m, false);
    Inserted(Trace(c), n, m);
    assert Trace(c)[..n] == Messages(c.written) && Trace(c)[n..] == c.pendq;
  }

  // Delivering moves messages from the queue to the pipe and keeps their order.
  lemma {:induction false} DeliveredTrace(c: Client)
    ensures Trace(DeliverAll(c)) == Trace(c) && DeliverAll(c).nextId == c.nextId
    decreases |c.pendq|
  {
    if c.pendq != [] {
      var d := c.(pendq := c.pendq[1..]);
      SentTrace(d, c.pendq[0], true);
      DeliveredTrace(SendWriting(d, c.pendq[0], true));
      assert c.pendq == [c.pendq[0]] + c.pendq[1..];
      AppendTwice(Messages(c.written), [c.pendq[0]], c.pendq[1..]);
    }
  }

  predicate Ordered(c: Client) { InOrder(Trace(c), c.nextId) }

  lemma SendKeepsOrder(c: Client, ack: bool, payload: Framing.Payload, origin: Origin)
    requires Ordered(c) && (origin == Plain && c.Idle() ==> c.pendq == [])
    ensures Ordered(Send(c, ack, payload, origin))
  {
    if c.cpu != None && !c.disconnecting {
      var m := Msg(c.nextId, if ack then SEND_ACK else SEND, payload, origin);
      var d := c.(nextId := c.nextId + 1);
      assert Trace(d) == Trace(c);
      if c.Idle() {
        SentInOrder(d, m);
      } else {
        var ms := Trace(c);
        Inserted(ms, |ms|, m);
        assert ms[..|ms|] + [m] + ms[|ms|..] == ms + [m];
        AppendTwice(Messages(c.written), c.pendq, [m]);
      }
    }
  }

  lemma ListenKeepsOrder(c: Client)
    requires Ordered(c)
    ensures Ordered(ListenOne(c))
  {
    var d := c.(epipe := true, nextId := c.nextId + 1);
    assert Trace(d) == Trace(c);
    SentInOrder(d, Msg(c.nextId, CREATE_NOTIFY, [], Internal));
  }

  lemma ReconnectKeepsOrder(c: Client)
    requires Ordered(c)
    ensures Ordered(ReconnectOne(c))
  {
    hide InOrder, Messages;
    var n := |c.written|;
    Shortened(Trace(c), n, c.nextId);
    assert Trace(c)[..n] == Messages(c.written) == Messages(c.written) + [];
    if c.cpus == [] {
      assert Trace(ReconnectOne(c)) == Trace(c)[..n];
    } else {
      assert Trace(ReconnectOne(c)) == Trace(c);
    }
  }

  lemma ActKeepsOrder(c: Client, a: Action, origin: Origin)
    requires Ordered(c) && (origin == Plain && c.Idle() ==> c.pendq == [])
    ensures Ordered(Act(c, a, origin))
  {
    match a
    case Submit(ack, payload) => SendKeepsOrder(c, ack, payload, origin);
    case Reconnect => ReconnectKeepsOrder(c.(shunned := true));
    case Listen => ListenKeepsOrder(c);
    case Disconnect =>
  }

  lemma {:induction false} ActsKeepOrder(c: Client, acts: seq<Action>, origin: Origin)
    requires Ordered(c) && (origin == Plain ==> Drained(c))
    ensures Ordered(Acts(c, acts, origin))
    decreases |acts|
  {
    if acts != [] {
      ActKeepsOrder(c, acts[0], origin);
      if origin == Plain {
        ActDrains(c, acts[0], origin);
      }
      ActsKeepOrder(Act(c, acts[0], origin), acts[1..], origin);
    }
  }

  lemma SettleKeepsOrder(c: Client)
    requires Ordered(c)
    ensures Ordered(Settle(c))
  {
    var d := c.(connecting := false);
    ListenKeepsOrder(d);
    var l := if d.listening && !d.reconnecting && !d.disconnecting then ListenOne(d) else d;
    DeliveredTrace(l);
    var e := if !l.listening && !l.reconnecting then DeliverAll(l) else l;
    DeliveredTrace(e);
    ReconnectKeepsOrder(e.(reconnecting := false));
  }

  lemma StepKeepsOrder(c: Client, e: Event)
    requires Ordered(c) && Drained(c) && Enabled(c, e)
    ensures Ordered(Step(c, e))
  {
    match e
    case Call(a) => ActKeepsOrder(c, a, Plain);
    case Connected(ok, acts) =>
      ActsKeepOrder(c, acts, OnConnect);
      ActsKeepOrder(WithFlags(c, false, false, false, false).(pipe := Up), acts, OnConnect);
    case Replied(acts) =>
      var d := c.(sentq := c.sentq[1..], replied := true);
      ActsKeepOrder(d, acts, Plain);
      SettleKeepsOrder(Acts(d, acts, Plain));
    case Accepted(acts) =>
      var d := c.(listening := false);
      ActsKeepOrder(d, acts, OnListen);
      DeliveredTrace(Acts(d, acts, OnListen));
  }

  // ---------- Runs ----------

  lemma {:induction false} RunKeepsOrder(c: Client, es: seq<Event>)
    requires Ordered(c) && Drained(c) && EnabledRun(c, es)
    ensures Ordered(Run(c, es)) && Drained(Run(c, es))
    decreases |es|
  {
    if es != [] {
      StepKeepsOrder(c, es[0]);
      StepDrains(c, es[0]);
      hide Ordered, Drained, Step, Enabled;
      RunKeepsOrder(Step(c, es[0]), es[1..]);
    }
  }

  /* In every run, documented or not, each message is written at most once, messages submitted outside on_connect
     and on_listen are written in the order of their submission, and nothing waits while the client is idle. */
  lemma WritesInOrder(names: seq<string>, es: seq<Event>)
    requires names != [] && EnabledRun(Dial(names), es)
    ensures var c := Run(Dial(names), es);
            InOrder(Messages(c.written), c.nextId) && Drained(c)
  {
    RunKeepsOrder(Dial(names), es);
    var c := Run(Dial(names), es);
    Shortened(Trace(c), |c.written|, c.nextId);
    assert Trace(c)[..|c.written|] == Messages(c.written);
  }

  // ---------- Servers tried ----------

  lemma ReconnectKeepsTries(c: Client)
    ensures ReconnectOne(c).conn + |ReconnectOne(c).cpus| == c.conn + |c.cpus|
  {
  }

  lemma ActKeepsTries(c: Client, a: Action, origin: Origin)
    ensures Act(c, a, origin).conn + |Act(c, a, origin).cpus| == c.conn + |c.cpus|
  {
    ReconnectKeepsTries(c.(shunned := true));
    hide ReconnectOne;
    match a
    case Submit(ack, payload) =>
    case Reconnect =>
    case Listen =>
    case Disconnect =>
  }

  lemma {:induction false} ActsKeepTries(c: Client, acts: seq<Action>, origin: Origin)
    ensures Acts(c, acts, origin).conn + |Acts(c, acts, origin).cpus| == c.conn + |c.cpus|
    decreases |acts|
  {
    hide Act;
    if acts != [] {
      ActKeepsTries(c, acts[0], origin);
      ActsKeepTries(Act(c, acts[0], origin), acts[1..], origin);
    }
  }

  lemma SettleKeepsTries(c: Client)
    ensures Settle(c).conn + |Settle(c).cpus| == c.conn + |c.cpus|
  {
    var d := c.(connecting := false);
    var l := if d.listening && !d.reconnecting && !d.disconnecting then ListenOne(d) else d;
    DeliverEmpties(l);
    var e := if !l.listening && !l.reconnecting then DeliverAll(l) else l;
    DeliverEmpties(e);
  }

  lemma ConnectedKeepsTries(c: Client, ok: bool, acts: seq<Action>)
    ensures OnConnected(c, ok, acts).conn + |OnConnected(c, ok, acts).cpus| == c.conn + |c.cpus|
  {
    hide Acts;
    ActsKeepTries(c, acts, OnConnect);
    ActsKeepTries(WithFlags(c, false, false, false, false).(pipe := Up), acts, OnConnect);
  }

  lemma ReplyKeepsTries(c: Client, acts: seq<Action>)
    requires c.sentq != []
    ensures OnReply(c, acts).conn + |OnReply(c, acts).cpus| == c.conn + |c.cpus|
  {
    hide Acts, Settle;
    var d := c.(sentq := c.sentq[1..], replied := true);
    ActsKeepTries(d, acts, Plain);
    SettleKeepsTries(Acts(d, acts, Plain));
  }

  lemma StepKeepsTries(c: Client, e: Event)
    requires Enabled(c, e)
    ensures Step(c, e).conn + |Step(c, e).cpus| == c.conn + |c.cpus|
  {
    hide Acts, DeliverAll, OnConnected, OnReply, Act;
    match e
    case Call(a) => ActKeepsTries(c, a, Plain);
    case Connected(ok, acts) => ConnectedKeepsTries(c, ok, acts);
    case Replied(acts) => ReplyKeepsTries(c, acts);
    case Accepted(acts) =>
      ActsKeepTries(c.(listening := false), acts, OnListen);
      DeliverEmpties(Acts(c.(listening := false), acts, OnListen));
  }

  lemma {:induction false} RunKeepsTries(c: Client, es: seq<Event>)
    requires EnabledRun(c, es)
    ensures Run(c, es).conn + |Run(c, es).cpus| == c.conn + |c.cpus|
    decreases |es|
  {
    if es != [] {
      StepKeepsTries(c, es[0]);
      RunKeepsTries(Step(c, es[0]), es[1..]);
    }
  }

  // In every run whatever, no more servers are tried than there are names.
  lemma TriesBounded(names: seq<string>, es: seq<Event>)
    requires names != [] && EnabledRun(Dial(names), es)
    ensures Run(Dial(names), es).conn <= |names|
  {
    RunKeepsTries(Dial(names), es);
  }
}
