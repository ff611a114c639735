/** No callback of the asynchronous client runs twice, however it is used. */
module UvOnce {
  import opened Prelude
  import opened UvSpec

  // ---------- Callbacks run ----------

  // The messages whose callbacks run, in the order they run.
  function Answered(c: Client, es: seq<Event>): seq<Msg>
    requires EnabledRun(c, es)
    decreases |es|
  {
    if es == [] then []
    else (if es[0].Replied? then [c.sentq[0]] else []) + Answered(Step(c, es[0]), es[1..])
  }

  // ---------- Answered, waiting for a reply, waiting to be sent ----------

  predicate Apart(ms: seq<Msg>, bound: nat) {
    && (forall i :: 0 <= i < |ms| ==> ms[i].id < bound)
    && (forall i, j :: 0 <= i < j < |ms| ==> ms[i].id != ms[j].id)
  }

  function Live(answered: seq<Msg>, c: Client): seq<Msg> { answered + c.sentq + c.pendq }

  predicate Once(answered: seq<Msg>, c: Client) { Apart(Live(answered, c), c.nextId) }

  lemma ApartWithout(ms: seq<Msg>, m: Msg, rest: seq<Msg>, bound: nat)
    requires Apart(ms + [m] + rest, bound)
    ensures Apart(ms + rest, bound)
  {
    var all, few := ms + [m] + rest, ms + rest;
    forall i | 0 <= i < |few| ensures few[i] == all[if i < |ms| then i else i + 1] {
    }
  }

  lemma ApartWith(ms: seq<Msg>, m: Msg, rest: seq<Msg>)
    requires Apart(ms + rest, m.id)
    ensures Apart(ms + [m] + rest, m.id + 1)
  {
    var all, few, n := ms + [m] + rest, ms + rest, |ms|;
    forall i | 0 <= i < |all|
      ensures all[i] == if i < n then few[i] else if i == n then m else few[i - 1]
    {
    }
    assert all[n] == m;
    forall i | 0 <= i < |all| ensures all[i].id < m.id + 1 {
      if i != n {
        assert few[if i < n then i else i - 1].id < m.id;
      }
    }
    forall i, j | 0 <= i < j < |all| ensures all[i].id != all[j].id {
      var a, b := if i < n then i else i - 1, if j < n then j else j - 1;
      if i == n {
        assert few[b].id < m.id;
      } else if j == n {
        assert few[a].id < m.id;
      } else {
        assert few[a].id != few[b].id;
      }
    }
  }

  lemma ApartLast(ms: seq<Msg>, m: Msg)
    requires Apart(ms, m.id)
    ensures Apart(ms + [m], m.id + 1)
  {
    hide Apart;
    assert ms + [] == ms && ms + [m] + [] == ms + [m];
    ApartWith(ms, m, []);
  }

  lemma ApartStart(ms: seq<Msg>, rest: seq<Msg>, bound: nat)
    requires Apart(ms + rest, bound)
    ensures Apart(ms, bound)
  {
    forall i | 0 <= i < |ms| ensures ms[i] == (ms + rest)[i] {
    }
  }

  // Writing a message that is apart from all others, wherever it comes from.
  lemma SentOnce(answered: seq<Msg>, c: Client, m: Msg, queued: bool, bound: nat)
    requires Apart(answered + c.sentq + [m] + c.pendq, bound)
    ensures Apart(Live(answered, SendWriting(c, m, queued)), bound)
  {
    AppendTwice(answered, c.sentq, [m]);
    ApartWithout(answered + c.sentq, m, c.pendq, bound);
  }

  lemma {:induction false} DeliverOnce(answered: seq<Msg>, c: Client)
    requires Once(answered, c)
    ensures Once(answered, DeliverAll(c))
    decreases |c.pendq|
  {
    if c.pendq != [] {
      var d, m := c.(pendq := c.pendq[1..]), c.pendq[0];
      assert c.pendq == [m] + d.pendq;
      AppendTwice(answered + c.sentq, [m], d.pendq);
      SentOnce(answered, d, m, true, c.nextId);
      DeliverOnce(answered, SendWriting(d, m, true));
    }
  }

  lemma LiveIs(answered: seq<Msg>, c: Client)
    ensures Live(answered, c) == answered + c.sentq + c.pendq
  {
  }

  lemma LiveQueued(answered: seq<Msg>, c: Client, m: Msg)
    ensures Live(answered, c.(pendq := c.pendq + [m])) == answered + c.sentq + (c.pendq + [m])
  {
  }

  lemma SendOnce(answered: seq<Msg>, c: Client, ack: bool, payload: Framing.Payload, origin: Origin)
    requires Once(answered, c)
    ensures Once(answered, Send(c, ack, payload, origin))
  {
    hide Apart, Live;
    var m := Msg(c.nextId, if ack then SEND_ACK else SEND, payload, origin);
    var d := c.(nextId := c.nextId + 1);
    var before := answered + c.sentq;
    assert Live(answered, c) == before + c.pendq by { LiveIs(answered, c); }
    if c.cpu != None && !c.disconnecting {
      if c.Idle() {
        ApartWith(before, m, c.pendq);
        SentOnce(answered, d, m, false, d.nextId);
      } else {
        ApartLast(before + c.pendq, m);
        AppendTwice(before, c.pendq, [m]);
        LiveQueued(answered, d, m);
      }
    }
  }

  lemma ListenOnce(answered: seq<Msg>, c: Client)
    requires Once(answered, c)
    ensures Once(answered, ListenOne(c))
  {
    var m := Msg(c.nextId, CREATE_NOTIFY, [], Internal);
    ApartWith(answered + c.sentq, m, c.pendq);
    SentOnce(answered, c.(epipe := true, nextId := c.nextId + 1), m, false, c.nextId + 1);
  }

  // The queues are kept, or dropped without a callback.
  lemma ReconnectOnce(answered: seq<Msg>, c: Client)
    requires Once(answered, c)
    ensures Once(answered, ReconnectOne(c))
  {
    AppendTwice(answered, c.sentq, c.pendq);
    ApartStart(answered, c.sentq + c.pendq, c.nextId);
    hide Apart, ConnectOne;
    if c.cpus == [] {
      assert answered + [] == answered;
      assert Live(answered, ReconnectOne(c)) == answered;
    } else {
      ConnectKeepsQueues(c.(cpus := c.cpus[1..]), c.cpus[0]);
    }
  }

  lemma ConnectKeepsQueues(c: Client, name: string)
    ensures ConnectOne(c, name).sentq == c.sentq && ConnectOne(c, name).pendq == c.pendq
    ensures ConnectOne(c, name).nextId == c.nextId
  {
  }

  lemma ActOnce(answered: seq<Msg>, c: Client, a: Action, origin: Origin)
    requires Once(answered, c)
    ensures Once(answered, Act(c, a, origin))
  {
    match a
    case Submit(ack, payload) => SendOnce(answered, c, ack, payload, origin);
    case Reconnect => ReconnectOnce(answered, c.(shunned := true));
    case Listen => ListenOnce(answered, c);
    case Disconnect =>
  }

  lemma {:induction false} ActsOnce(answered: seq<Msg>, c: Client, acts: seq<Action>, origin: Origin)
    requires Once(answered, c)
    ensures Once(answered, Acts(c, acts, origin))
    decreases |acts|
  {
    if acts != [] {
      ActOnce(answered, c, acts[0], origin);
      hide Once, Act;
      ActsOnce(answered, Act(c, acts[0], origin), acts[1..], origin);
    }
  }

  lemma SettleOnce(answered: seq<Msg>, c: Client)
    requires Once(answered, c)
    ensures Once(answered, Settle(c))
  {
    var d := c.(connecting := false);
    ListenOnce(answered, d);
    var l := if d.listening && !d.reconnecting && !d.disconnecting then ListenOne(d) else d;
    DeliverOnce(answered, l);
    var e := if !l.listening && !l.reconnecting then DeliverAll(l) else l;
    DeliverOnce(answered, e);
    ReconnectOnce(answered, e.(reconnecting := false));
    hide Apart, ReconnectOne, DeliverAll, ListenOne;
  }

  // The head of the queue joins those answered.
  lemma ReplyOnce(answered: seq<Msg>, c: Client, acts: seq<Action>)
    requires Once(answered, c) && c.sentq != []
    ensures Once(answered + [c.sentq[0]], OnReply(c, acts))
  {
    var d, more := c.(sentq := c.sentq[1..], replied := true), answered + [c.sentq[0]];
    assert c.sentq == [c.sentq[0]] + d.sentq;
    AppendTwice(answered, [c.sentq[0]], d.sentq);
    assert Once(more, d);
    hide Once, Acts, Settle;
    ActsOnce(more, d, acts, Plain);
    SettleOnce(more, Acts(d, acts, Plain));
  }

  lemma StepOnce(answered: seq<Msg>, c: Client, e: Event)
    requires Once(answered, c) && Enabled(c, e)
    ensures Once(answered + if e.Replied? then [c.sentq[0]] else [], Step(c, e))
  {
    assert answered + [] == answered;
    hide Acts, DeliverAll, OnReply;
    match e
    case Call(a) => ActOnce(answered, c, a, Plain);
    case Connected(ok, acts) =>
      ActsOnce(answered, c, acts, OnConnect);
      ActsOnce(answered, WithFlags(c, false, false, false, false).(pipe := Up), acts, OnConnect);
    case Replied(acts) => ReplyOnce(answered, c, acts);
    case Accepted(acts) =>
      ActsOnce(answered, c.(listening := false), acts, OnListen);
      DeliverOnce(answered, Acts(c.(listening := false), acts, OnListen));
  }

  lemma {:induction false} RunOnce(answered: seq<Msg>, c: Client, es: seq<Event>)
    requires Once(answered, c) && EnabledRun(c, es)
    ensures exists bound: nat :: Apart(answered + Answered(c, es), bound)
    decreases |es|
  {
    if es == [] {
      AppendTwice(answered, c.sentq, c.pendq);
      ApartStart(answered, c.sentq + c.pendq, c.nextId);
      assert answered + Answered(c, es) == answered;
      assert Apart(answered + Answered(c, es), c.nextId);
    } else {
      var now := if es[0].Replied? then [c.sentq[0]] else [];
      StepOnce(answered, c, es[0]);
      hide Once, Step, Apart;
      var later := Answered(Step(c, es[0]), es[1..]);
      RunOnce(answered + now, Step(c, es[0]), es[1..]);
      var bound: nat :| Apart(answered + now + later, bound);
      AppendTwice(answered, now, later);
      assert Apart(answered + Answered(c, es), bound);
    }
  }

  // In every run whatever, also with failed connections and reconnects, each callback runs at most once.
  lemma CallbacksOnce(names: seq<string>, es: seq<Event>)
    requires names != [] && EnabledRun(Dial(names), es)
    ensures var ms := Answered(Dial(names), es);
            forall i, j :: 0 <= i < j < |ms| ==> ms[i].id != ms[j].id
  {
    var ms := Answered(Dial(names), es);
    RunOnce([], Dial(names), es);
    assert [] + ms == ms;
  }
}
