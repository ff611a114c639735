/** A use of the client under which no connection is left with requests outstanding, so replies stay matched. */
module UvUse {
  import opened UvSpec
  import opened UvGate
  import opened Rpc

  predicate OnlySubmits(acts: seq<Action>) {
    forall i :: 0 <= i < |acts| ==> acts[i].Submit?
  }

  function Asks(acts: seq<Action>): nat {
    if acts == [] then 0 else (if acts[0].Submit? && acts[0].ack then 1 else 0) + Asks(acts[1..])
  }

  /* The use that the header of the client shows: on_connect sends, the reply to that decides whether another
     server is asked for.  Two conditions are added to what it says: on_connect sends at most one message that
     wants a reply, and a call from outside reconnects only when nothing is outstanding.  Replies get mixed up
     without the first (Rpc.FirstReplyExactly) and without the second (Rpc.ReconnectExactly); RpcMisuse has runs. */
  predicate Advised(c: Client, e: Event)
    requires Enabled(c, e)
  {
    match e
    case Call(a) => a.Reconnect? ==> c.epipe || !c.Idle() || c.sentq == []
    case Connected(ok, acts) => ok && !c.disconnecting ==> OnlySubmits(acts) && Asks(acts) <= 1
    case Replied(acts) => Orderly(c.(sentq := c.sentq[1..], replied := true), acts)
    case Accepted(_) => true
  }

  // Until the first reply at most that one message is outstanding.
  predicate Probing(c: Client) {
    && (c.connecting ==> |c.sentq| <= 1)
    && (c.pipe == Awaiting ==> c.connecting && c.sentq == [])
  }

  // ---------- Calls made by callbacks ----------

  lemma {:induction false} SubmitsAsk(c: Client, acts: seq<Action>, origin: Origin)
    requires OnlySubmits(acts) && c.Idle()
    ensures CleanActs(c, acts, origin)
    ensures var d := Acts(c, acts, origin);
            && d.pipe == c.pipe && d.Idle() && d.cpu == c.cpu
            && |d.sentq| == |c.sentq| + if c.cpu.None? then 0 else Asks(acts)
    decreases |acts|
  {
    if acts != [] {
      SubmitsAsk(Act(c, acts[0], origin), acts[1..], origin);
    }
  }

  lemma {:induction false} SubmitsPatient(c: Client, acts: seq<Action>)
    requires OnlySubmits(acts)
    ensures Patient(c, acts)
    decreases |acts|
  {
    hide Act;
    if acts != [] {
      SubmitsPatient(Act(c, acts[0], OnConnect), acts[1..]);
    }
  }

  lemma {:induction false} OrderlyIsClean(c: Client, acts: seq<Action>)
    requires Orderly(c, acts) && !c.connecting && c.pipe != Awaiting
    ensures CleanActs(c, acts, Plain)
    ensures var d := Acts(c, acts, Plain);
            !d.connecting && d.pipe != Awaiting
    decreases |acts|
  {
    if acts != [] {
      OrderlyIsClean(Act(c, acts[0], Plain), acts[1..]);
    }
  }

  lemma ListenerIsCleanOne(c: Client, a: Action, origin: Origin)
    requires c.epipe
    ensures CleanAct(c, a)
    ensures var d := Act(c, a, origin);
            d.epipe && d.pipe == c.pipe && d.connecting == c.connecting && (c.connecting ==> d.sentq == c.sentq)
  {
    hide ReconnectOne, ListenOne;
    match a
    case Submit(_, _) =>
    case Reconnect =>
    case Listen =>
    case Disconnect =>
  }

  lemma {:induction false} ListenerIsClean(c: Client, acts: seq<Action>, origin: Origin)
    requires c.epipe
    ensures CleanActs(c, acts, origin)
    ensures var d := Acts(c, acts, origin);
            d.pipe == c.pipe && d.connecting == c.connecting && (c.connecting ==> d.sentq == c.sentq)
    decreases |acts|
  {
    if acts != [] {
      ListenerIsCleanOne(c, acts[0], origin);
      hide Act;
      ListenerIsClean(Act(c, acts[0], origin), acts[1..], origin);
    }
  }

  lemma SettleKeepsProbing(c: Client)
    requires c.pipe != Awaiting && CleanSettle(c)
    ensures Probing(Settle(c))
  {
    var d := c.(connecting := false);
    var l := if d.listening && !d.reconnecting && !d.disconnecting then ListenOne(d) else d;
    DeliverEmpties(l);
    var e := if !l.listening && !l.reconnecting then DeliverAll(l) else l;
    DeliverEmpties(e);
    SettleReconnects(c);
  }

  lemma CallKeepsProbing(c: Client, a: Action)
    requires Probing(c) && (a.Reconnect? ==> c.epipe || !c.Idle() || c.sentq == [])
    ensures CleanAct(c, a) && Probing(Act(c, a, Plain))
  {
  }

  // ---------- Runs ----------

  lemma AdvisedIsClean(c: Client, e: Event)
    requires Probing(c) && Gate(c) && Enabled(c, e) && Advised(c, e)
    ensures Documented(c, e) && Clean(c, e) && Probing(Step(c, e))
  {
    hide AllAllowed;
    match e
    case Call(a) => CallKeepsProbing(c, a);
    case Connected(ok, acts) =>
      if ok && !c.disconnecting {
        SubmitsPatient(Connecting(c), acts);
        SubmitsAsk(WithFlags(c, false, false, false, false).(pipe := Up), acts, OnConnect);
      } else {
        HeldBack(c, acts, OnConnect);
      }
    case Replied(acts) =>
      var d := c.(sentq := c.sentq[1..], replied := true);
      if c.connecting {
        HeldBack(d, acts, Plain);
        SettleKeepsProbing(Acts(d, acts, Plain));
      } else {
        OrderlyIsClean(d, acts);
      }
    case Accepted(acts) =>
      ListenerIsClean(c.(listening := false), acts, OnListen);
      DeliverEmpties(Acts(c.(listening := false), acts, OnListen));
  }

  ghost predicate AdvisedStep(s: Sys, e: SysEvent) {
    && SysEnabled(s, e)
    && match e
       case ClientEvent(event) => Advised(s.client, event)
       case ServerReads(n) => true
       case ClientReads(n, acts) => s.client.sentq != [] ==> Advised(s.client, Replied(acts))
  }

  ghost predicate AdvisedRun(h: Handler, s: Sys, es: seq<SysEvent>)
    decreases |es|
  {
    es == [] || (AdvisedStep(s, es[0]) && AdvisedRun(h, SysStep(h, s, es[0]), es[1..]))
  }

  lemma AdvisedKeeps(h: Handler, s: Sys, e: SysEvent)
    requires Probing(s.client) && Gate(s.client) && AdvisedStep(s, e)
    ensures SysLegal(s, e) && Probing(SysStep(h, s, e).client) && Gate(SysStep(h, s, e).client)
  {
    hide Probing, Gate, Framing.Feed, OnReply, Act, OnConnected, OnAccepted, Clean, Advised;
    match e
    case ClientEvent(event) =>
      AdvisedIsClean(s.client, event);
      StepKeepsGate(s.client, event);
    case ServerReads(n) =>
    case ClientReads(n, acts) =>
      if s.client.sentq != [] {
        AdvisedIsClean(s.client, Replied(acts));
        StepKeepsGate(s.client, Replied(acts));
      }
  }

  lemma {:induction false} AdvisedIsLegal(h: Handler, s: Sys, es: seq<SysEvent>)
    requires Probing(s.client) && Gate(s.client) && AdvisedRun(h, s, es)
    ensures SysLegalRun(h, s, es)
    decreases |es|
  {
    if es != [] {
      AdvisedKeeps(h, s, es[0]);
      hide Probing, Gate, AdvisedStep, SysLegal, SysStep;
      AdvisedIsLegal(h, SysStep(h, s, es[0]), es[1..]);
    }
  }

  // Used like this, client and server keep every reply with its request, and the empty-queue assertion holds.
  lemma AdvisedUseMatches(h: Handler, names: seq<string>, es: seq<SysEvent>)
    requires names != [] && AdvisedRun(h, Begin(names), es)
    ensures SysLegalRun(h, Begin(names), es)
    ensures Matched(h, SysRun(h, Begin(names), es)) && !SysRun(h, Begin(names), es).crashed
  {
    AdvisedIsLegal(h, Begin(names), es);
    RepliesMatch(h, names, es);
  }
}
