/** Runs that leave a connection while a request is outstanding: what becomes of its reply, and of the next. */
module RpcMisuse {
  import opened Prelude
  import opened Bytes
  import opened Framing
  import opened UvSpec
  import opened Rpc

  // A server that answers every request with an empty reply.
  function Silent(handled: seq<Frame>): Payload { [] }

  const ASK := Submit(true, [])
  const PING := Frame(SEND_ACK, [])
  const PONG := Frame(REPLY, [])

  // ---------- Steps on whole frames ----------

  lemma PingBytes(f: Frame)
    requires f == PING || f == PONG
    ensures |Encode(f)| == 8 && Feed([], Encode(f)) == Decoded([f], []) && EncodeAll([f]) == Encode(f)
  {
    SpanValues();
    FeedFrame(f);
    assert [f][1..] == [] && Encode(f) + [] == Encode(f);
    hide Le, Feed;
  }

  lemma ServerTakes(s: Sys, rest: seq<Byte>)
    requires s.toServer == Encode(PING) + rest && s.serverGot == []
    ensures SysEnabled(s, ServerReads(8))
    ensures SysStep(Silent, s, ServerReads(8))
            == s.(toServer := rest, serverGot := [], handled := s.handled + [PING],
                  toClient := s.toClient + Encode(PONG))
  {
    PingBytes(PING);
    PingBytes(PONG);
    hide Encode, Feed;
    assert s.toServer[..8] == Encode(PING) && s.toServer[8..] == rest;
    var sent, handled := Replies(Silent, s.handled), s.handled + [PING];
    assert handled[..|s.handled|] == s.handled;
    assert Replies(Silent, handled) == sent + [PONG];
    hide Replies, EncodeAll;
    assert (sent + [PONG])[|sent|..] == [PONG];
  }

  // The next reply: it goes to the head of the queue, or there is nobody to take it.
  lemma ClientTakes(s: Sys, acts: seq<Action>)
    requires s.toClient == Encode(PONG) && s.clientGot == [] && s.client.pipe == Up
    ensures SysEnabled(s, ClientReads(8, acts))
    ensures SysStep(Silent, s, ClientReads(8, acts))
            == if s.client.sentq == [] then s.(toClient := [], clientGot := [], crashed := true)
               else Follow(s.(toClient := [], clientGot := [],
                              delivered := s.delivered + [Delivery(s.client.sentq[0], [])]),
                           OnReply(s.client, acts))
  {
    PingBytes(PONG);
    hide Encode, Feed, Follow, OnReply;
    assert s.toClient[..8] == Encode(PONG) && s.toClient[8..] == [];
  }

  lemma AskedMore(c: Client, w: Write, d: Client)
    requires d.written == c.written + [w] && d.conn == c.conn
    ensures Asked(d) == Asked(c) + if w.conn == c.conn then [w.msg] else []
  {
    assert d.written[..|c.written|] == c.written;
  }

  // A request written on the connection as it is.
  lemma Asks(s: Sys, d: Client, w: Write)
    requires d.written == s.client.written + [w] && d.conn == s.client.conn == w.conn && FrameFor(w.msg) == PING
    ensures Follow(s, d) == s.(client := d, toServer := s.toServer + Encode(PING))
    ensures Asked(d) == Asked(s.client) + [w.msg]
  {
    AskedMore(s.client, w, d);
    PingBytes(PING);
    assert (Asked(s.client) + [w.msg])[|Asked(s.client)|..] == [w.msg];
    assert FramesFor([w.msg]) == [PING];
    hide Asked, Encode, EncodeAll, FramesFor;
  }

  // Nothing written.
  lemma Quiet(s: Sys, d: Client)
    requires d.written == s.client.written && d.conn == s.client.conn
    ensures Follow(s, d) == s.(client := d) && Asked(d) == Asked(s.client)
  {
    assert Asked(d)[|Asked(d)|..] == [] && FramesFor([]) == [] && s.toServer + [] == s.toServer;
    hide Asked;
  }

  // A connection to the next name.
  lemma NewServer(s: Sys, d: Client)
    requires d.written == s.client.written && d.conn > s.client.conn && ConnsBelow(d)
    ensures Follow(s, d) == Sys(d, [], [], [], [], [], [], s.crashed) && Asked(d) == []
  {
    NothingAsked(d.written, d.conn);
    assert FramesFor([]) == [];
    hide OnConn;
  }

  predicate ConnsBelow(c: Client) {
    forall i :: 0 <= i < |c.written| ==> c.written[i].conn < c.conn
  }

  // ---------- The client's part ----------

  function AskWrite(c: Client, origin: Origin): Write {
    Write(c.conn, Msg(c.nextId, SEND_ACK, [], origin), false, c.replied, c.shunned, false)
  }

  // A client that has just asked.
  function Asking(c: Client, origin: Origin): Client {
    c.(nextId := c.nextId + 1, sentq := c.sentq + [AskWrite(c, origin).msg],
       written := c.written + [AskWrite(c, origin)])
  }

  predicate Quit(c: Client) { c.disconnecting || c.cpu == None }

  lemma AskWhenIdle(c: Client, origin: Origin)
    requires c.Idle() && c.cpu != None
    ensures Act(c, ASK, origin) == Asking(c, origin) && Asking(c, origin).Idle()
  {
  }

  // A connection is made, and on_connect asks once.
  lemma GreetOnce(c: Client)
    requires c.connecting && !c.listening && !c.reconnecting && !Quit(c)
    ensures OnConnected(c, true, [ASK]) == Asking(c.(pipe := Up), OnConnect)
  {
    var k := WithFlags(c, false, false, false, false).(pipe := Up);
    AskWhenIdle(k, OnConnect);
    assert [ASK][1..] == [] && Acts(k, [ASK], OnConnect) == Act(k, ASK, OnConnect);
  }

  // ... or twice.
  lemma GreetTwice(c: Client)
    requires c.connecting && !c.listening && !c.reconnecting && !Quit(c)
    ensures OnConnected(c, true, [ASK, ASK]) == Asking(Asking(c.(pipe := Up), OnConnect), OnConnect)
  {
    var k := WithFlags(c, false, false, false, false).(pipe := Up);
    AskWhenIdle(k, OnConnect);
    AskWhenIdle(Asking(k, OnConnect), OnConnect);
    var l := Act(k, ASK, OnConnect);
    assert [ASK, ASK][1..] == [ASK] && [ASK][1..] == [] && Acts(l, [ASK], OnConnect) == Act(l, ASK, OnConnect);
    assert Acts(k, [ASK, ASK], OnConnect) == Acts(l, [ASK], OnConnect);
  }

  // ---------- Runs ----------

  lemma OneStep(s: Sys, e: SysEvent)
    requires SysEnabled(s, e)
    ensures SysEnabledRun(Silent, s, [e]) && SysRun(Silent, s, [e]) == SysStep(Silent, s, e)
  {
    assert [e][1..] == [];
    hide SysStep, SysEnabled;
  }

  lemma {:induction false} RunOn(s: Sys, es: seq<SysEvent>, more: seq<SysEvent>)
    requires SysEnabledRun(Silent, s, es) && SysEnabledRun(Silent, SysRun(Silent, s, es), more)
    ensures SysEnabledRun(Silent, s, es + more)
    ensures SysRun(Silent, s, es + more) == SysRun(Silent, SysRun(Silent, s, es), more)
    decreases |es|
  {
    hide SysStep, SysEnabled;
    if es == [] {
      assert es + more == more;
    } else {
      RunOn(SysStep(Silent, s, es[0]), es[1..], more);
      assert (es + more)[0] == es[0] && (es + more)[1..] == es[1..] + more;
    }
  }

  // One more event of a run.
  lemma Then(s: Sys, es: seq<SysEvent>, e: SysEvent)
    requires SysEnabledRun(Silent, s, es) && SysEnabled(SysRun(Silent, s, es), e)
    ensures SysEnabledRun(Silent, s, es + [e])
    ensures SysRun(Silent, s, es + [e]) == SysStep(Silent, SysRun(Silent, s, es), e)
  {
    hide SysStep, SysEnabled, SysRun, SysEnabledRun;
    OneStep(SysRun(Silent, s, es), e);
    RunOn(s, es, [e]);
  }

  // A request and its reply: the server takes the one, the client the other.
  const EXCHANGE: seq<SysEvent> := [ServerReads(8), ClientReads(8, [])]

  // The first connection is made, on_connect asks once and gets its reply, and then another request is sent.
  const ASKED_AGAIN: seq<SysEvent> :=
    [ClientEvent(Connected(true, [ASK])), ServerReads(8), ClientReads(8, []), ClientEvent(Call(ASK))]

  // An idle client with one request outstanding that is still on its way.
  predicate Outstanding(s: Sys, names: seq<string>)
    requires names != []
  {
    && s.client.Idle() && !s.client.epipe && s.client.cpu != None && s.client.pipe == Up
    && s.client.conn == 1 && s.client.cpus == names[1..] && |s.client.sentq| == 1 && s.client.sentq[0].id == 1
    && s.client.nextId == 2 && s.client.pendq == []
    && (forall i :: 0 <= i < |s.client.written| ==> s.client.written[i].conn == 1)
    && s.toServer == Encode(PING) && s.serverGot == [] && s.toClient == [] && s.clientGot == [] && !s.crashed
  }

  // ---------- Greeting a server ----------

  // A connection that is being made, with nothing else under way.
  predicate Fresh(c: Client) {
    c.connecting && !c.listening && !c.reconnecting && !Quit(c) && c.pendq == []
  }

  function Greeted(c: Client): Client { Asking(c.(pipe := Up), OnConnect) }

  lemma GreetStep(s: Sys)
    requires Fresh(s.client) && s.client.pipe == Awaiting && s.toServer == []
    ensures var e := ClientEvent(Connected(true, [ASK]));
            && SysEnabled(s, e)
            && SysStep(Silent, s, e) == s.(client := Greeted(s.client), toServer := Encode(PING))
    ensures Asked(Greeted(s.client)) == Asked(s.client) + [AskWrite(s.client.(pipe := Up), OnConnect).msg]
  {
    hide Encode, EncodeAll, OnConn;
    GreetOnce(s.client);
    Asks(s, Greeted(s.client), AskWrite(s.client.(pipe := Up), OnConnect));
    assert [] + Encode(PING) == Encode(PING);
    hide OnConnected, Follow, Asking;
  }

  lemma ServeStep(s: Sys, rest: seq<Byte>)
    requires s.toServer == Encode(PING) + rest && s.serverGot == [] && s.toClient == []
    ensures SysEnabled(s, ServerReads(8))
    ensures SysStep(Silent, s, ServerReads(8))
            == s.(toServer := rest, handled := s.handled + [PING], toClient := Encode(PONG))
  {
    hide Encode, SysStep, SysEnabled;
    assert [] + Encode(PONG) == Encode(PONG);
    ServerTakes(s, rest);
  }

  // The first reply settles the connection.
  function Answered(c: Client): Client
    requires c.sentq != []
  {
    c.(sentq := c.sentq[1..], replied := true, connecting := false)
  }

  lemma Settles(c: Client)
    requires Fresh(c) && c.sentq != []
    ensures OnReply(c, []) == Answered(c)
  {
    var d := c.(sentq := c.sentq[1..], replied := true);
    assert Acts(d, [], Plain) == d && DeliverAll(d.(connecting := false)) == d.(connecting := false);
  }

  lemma ReplyStep(s: Sys)
    requires Fresh(s.client) && s.client.pipe == Up && s.client.sentq != []
    requires s.toClient == Encode(PONG) && s.clientGot == []
    ensures SysEnabled(s, ClientReads(8, []))
    ensures SysStep(Silent, s, ClientReads(8, []))
            == s.(client := Answered(s.client), toClient := [],
                  delivered := s.delivered + [Delivery(s.client.sentq[0], [])])
    ensures Asked(Answered(s.client)) == Asked(s.client)
  {
    hide Encode, SysStep, SysEnabled, Follow, OnReply, OnConn;
    var c := s.client;
    ClientTakes(s, []);
    Settles(c);
    Quiet(s.(toClient := [], clientGot := [], delivered := s.delivered + [Delivery(c.sentq[0], [])]), Answered(c));
  }

  // The stages of that run.

  function Stage1(names: seq<string>): Sys
    requires names != []
  {
    Begin(names).(client := Greeted(Dial(names)), toServer := Encode(PING))
  }

  function Stage2(names: seq<string>): Sys
    requires names != []
  {
    Stage1(names).(toServer := [], handled := [] + [PING], toClient := Encode(PONG))
  }

  function Stage3(names: seq<string>): Sys
    requires names != []
  {
    var c := Stage2(names).client;
    Stage2(names).(client := Answered(c), toClient := [], delivered := [] + [Delivery(c.sentq[0], [])])
  }

  function Stage4(names: seq<string>): Sys
    requires names != []
  {
    Stage3(names).(client := Asking(Stage3(names).client, Plain), toServer := Encode(PING))
  }

  lemma ToStage3(names: seq<string>)
    requires names != []
    ensures var e := ClientEvent(Connected(true, [ASK]));
            && SysEnabled(Begin(names), e) && SysStep(Silent, Begin(names), e) == Stage1(names)
            && SysEnabled(Stage1(names), ServerReads(8))
            && SysStep(Silent, Stage1(names), ServerReads(8)) == Stage2(names)
            && SysEnabled(Stage2(names), ClientReads(8, []))
            && SysStep(Silent, Stage2(names), ClientReads(8, [])) == Stage3(names)
  {
    hide Encode, SysStep, SysEnabled, OnConn;
    GreetStep(Begin(names));
    assert Encode(PING) == Encode(PING) + [];
    ServeStep(Stage1(names), []);
    ReplyStep(Stage2(names));
  }

  lemma ToStage4(names: seq<string>)
    requires names != []
    ensures SysEnabled(Stage3(names), ClientEvent(Call(ASK)))
    ensures SysStep(Silent, Stage3(names), ClientEvent(Call(ASK))) == Stage4(names)
    ensures Outstanding(Stage4(names), names)
  {
    hide Encode, EncodeAll, OnConn, Follow;
    var s, c := Stage3(names), Stage3(names).client;
    AskWhenIdle(c, Plain);
    Asks(s, Asking(c, Plain), AskWrite(c, Plain));
    assert [] + Encode(PING) == Encode(PING);
  }

  lemma AskedAgain(names: seq<string>)
    requires names != []
    ensures SysEnabledRun(Silent, Begin(names), ASKED_AGAIN)
    ensures Outstanding(SysRun(Silent, Begin(names), ASKED_AGAIN), names)
  {
    hide SysStep, SysEnabled, SysRun, SysEnabledRun, Outstanding, Stage1, Stage2, Stage3, Stage4, Begin;
    var s0 := Begin(names);
    var e1, e2 := ClientEvent(Connected(true, [ASK])), ServerReads(8);
    var e3, e4 := ClientReads(8, []), ClientEvent(Call(ASK));
    ToStage3(names);
    ToStage4(names);
    OneStep(s0, e1);
    Then(s0, [e1], e2);
    Then(s0, [e1] + [e2], e3);
    Then(s0, [e1] + [e2] + [e3], e4);
    assert ASKED_AGAIN == [e1] + [e2] + [e3] + [e4];
  }

  /* The client then asks for another server and there is none: its queue is dropped, but the reply still comes,
     and finds nobody. */
  lemma NoNameLeft(names: seq<string>)
    requires |names| == 1
    ensures var es := ASKED_AGAIN + [ClientEvent(Call(Reconnect))] + EXCHANGE;
            SysEnabledRun(Silent, Begin(names), es) && SysRun(Silent, Begin(names), es).crashed
  {
    hide SysRun, SysEnabledRun, Begin;
    AskedAgain(names);
    var s0 := Begin(names);
    var s4 := SysRun(Silent, s0, ASKED_AGAIN);
    var e5, e6, e7 := ClientEvent(Call(Reconnect)), ServerReads(8), ClientReads(8, []);
    Dropped(s4, names);
    var s5 := SysStep(Silent, s4, e5);
    hide SysStep, SysEnabled, Outstanding;
    assert Encode(PING) == Encode(PING) + [];
    ServeStep(s5, []);
    var s6 := SysStep(Silent, s5, e6);
    ClientTakes(s6, []);
    Then(s0, ASKED_AGAIN, e5);
    Then(s0, ASKED_AGAIN + [e5], e6);
    Then(s0, ASKED_AGAIN + [e5] + [e6], e7);
    assert ASKED_AGAIN + [e5] + EXCHANGE == ASKED_AGAIN + [e5] + [e6] + [e7];
  }

  lemma Dropped(s: Sys, names: seq<string>)
    requires |names| == 1 && Outstanding(s, names)
    ensures var e := ClientEvent(Call(Reconnect));
            var t := SysStep(Silent, s, e);
            && SysEnabled(s, e) && t.client.sentq == [] && t.client.pipe == Up && t.toServer == Encode(PING)
            && t.serverGot == [] && t.toClient == [] && t.clientGot == []
  {
    hide Encode, EncodeAll, OnConn, Follow;
    Quiet(s, ReconnectOne(s.client.(shunned := true)));
  }

  // ---------- The wrong callback ----------

  // A callback was run for a reply to a message of another connection.
  predicate WrongReply(s: Sys) {
    exists j :: 0 <= j < |s.delivered| && s.delivered[j].msg !in Asked(s.client)
  }

  // One request is still outstanding when the next connection is made.
  ghost predicate LeftOne(s: Sys) {
    && s == Sys(s.client, [], [], [], [], [], [], false)
    && Fresh(s.client) && s.client.pipe == Awaiting && Asked(s.client) == []
    && |s.client.sentq| == 1 && s.client.sentq[0].id < s.client.nextId
  }

  // A client on a new connection, with an entry left over from an earlier one, greets the server and gets a reply.
  lemma StaleEntry(s: Sys, names: seq<string>, es: seq<SysEvent>)
    requires names != [] && SysEnabledRun(Silent, Begin(names), es) && s == SysRun(Silent, Begin(names), es)
    requires LeftOne(s)
    ensures var more := es + [ClientEvent(Connected(true, [ASK]))] + EXCHANGE;
            SysEnabledRun(Silent, Begin(names), more) && WrongReply(SysRun(Silent, Begin(names), more))
  {
    hide SysRun, SysEnabledRun, Begin, OnConn;
    var s0 := Begin(names);
    var e1, e2, e3 := ClientEvent(Connected(true, [ASK])), ServerReads(8), ClientReads(8, []);
    StaleTaken(s);
    hide SysStep, SysEnabled, WrongReply;
    var s1 := SysStep(Silent, s, e1);
    var s2 := SysStep(Silent, s1, e2);
    Then(s0, es, e1);
    Then(s0, es + [e1], e2);
    Then(s0, es + [e1] + [e2], e3);
    assert es + [e1] + EXCHANGE == es + [e1] + [e2] + [e3];
  }

  lemma StaleTaken(s: Sys)
    requires LeftOne(s)
    ensures var e1, e2, e3 := ClientEvent(Connected(true, [ASK])), ServerReads(8), ClientReads(8, []);
            && SysEnabled(s, e1)
            && SysEnabled(SysStep(Silent, s, e1), e2)
            && SysEnabled(SysStep(Silent, SysStep(Silent, s, e1), e2), e3)
            && WrongReply(SysStep(Silent, SysStep(Silent, SysStep(Silent, s, e1), e2), e3))
  {
    hide SysStep, SysEnabled, OnConn, Encode;
    var c := s.client;
    var g, m := Greeted(c), AskWrite(c.(pipe := Up), OnConnect).msg;
    GreetStep(s);
    var s1 := s.(client := g, toServer := Encode(PING));
    assert Encode(PING) == Encode(PING) + [];
    ServeStep(s1, []);
    var s2 := s1.(toServer := [], handled := [] + [PING], toClient := Encode(PONG));
    assert g.sentq[0] == c.sentq[0];
    ReplyStep(s2);
    var s3 := s2.(client := Answered(g), toClient := [], delivered := [] + [Delivery(c.sentq[0], [])]);
    assert Asked(s3.client) == [] + [m] && s3.delivered[0].msg == c.sentq[0] != m;
    assert s3.delivered[0].msg !in Asked(s3.client);
  }

  /* With another name left the request stays in the queue of the new connection, and takes the reply to the
     first message of that one. */
  lemma NameLeft(names: seq<string>)
    requires |names| >= 2
    ensures var es := ASKED_AGAIN + [ClientEvent(Call(Reconnect))] + [ClientEvent(Connected(true, [ASK]))] + EXCHANGE;
            SysEnabledRun(Silent, Begin(names), es) && WrongReply(SysRun(Silent, Begin(names), es))
  {
    hide SysRun, SysEnabledRun, Begin, Encode, EncodeAll, OnConn;
    AskedAgain(names);
    var s0 := Begin(names);
    var s4 := SysRun(Silent, s0, ASKED_AGAIN);
    var e5 := ClientEvent(Call(Reconnect));
    var c5 := ReconnectOne(s4.client.(shunned := true));
    NewServer(s4, c5);
    assert SysEnabled(s4, e5) && SysStep(Silent, s4, e5) == Follow(s4, c5);
    hide SysStep, SysEnabled, Follow;
    Then(s0, ASKED_AGAIN, e5);
    StaleEntry(Follow(s4, c5), names, ASKED_AGAIN + [e5]);
  }

  // ---------- Two requests in on_connect ----------

  // on_connect asks twice, and the first on_receive asks for another server as the header shows.
  const ASKED_TWICE: seq<SysEvent> :=
    [ClientEvent(Connected(true, [ASK, ASK])), ServerReads(8), ClientReads(8, [Reconnect])]

  // The three steps of that run.
  lemma TwiceSteps(names: seq<string>)
    requires |names| >= 2
    ensures var e1, e2, e3 := ClientEvent(Connected(true, [ASK, ASK])), ServerReads(8), ClientReads(8, [Reconnect]);
            && SysEnabled(Begin(names), e1)
            && SysEnabled(SysStep(Silent, Begin(names), e1), e2)
            && SysEnabled(SysStep(Silent, SysStep(Silent, Begin(names), e1), e2), e3)
            && LeftOne(SysStep(Silent, SysStep(Silent, SysStep(Silent, Begin(names), e1), e2), e3))
  {
    hide SysStep, SysEnabled, Begin, OnConn, Encode, LeftOne;
    GreetsTwice(names);
    var s1 := SysStep(Silent, Begin(names), ClientEvent(Connected(true, [ASK, ASK])));
    ServeStep(s1, Encode(PING));
    LeavesAtOnce(SysStep(Silent, s1, ServerReads(8)));
  }

  lemma AskedTwice(names: seq<string>)
    requires |names| >= 2
    ensures SysEnabledRun(Silent, Begin(names), ASKED_TWICE) && LeftOne(SysRun(Silent, Begin(names), ASKED_TWICE))
  {
    hide SysRun, SysEnabledRun, Begin, SysStep, SysEnabled, LeftOne;
    var s0 := Begin(names);
    var e1, e2, e3 := ClientEvent(Connected(true, [ASK, ASK])), ServerReads(8), ClientReads(8, [Reconnect]);
    TwiceSteps(names);
    OneStep(s0, e1);
    Then(s0, [e1], e2);
    Then(s0, [e1] + [e2], e3);
    assert ASKED_TWICE == [e1] + [e2] + [e3];
  }

  lemma AsksTwice(names: seq<string>)
    requires |names| >= 2
    ensures var es := ASKED_TWICE + [ClientEvent(Connected(true, [ASK]))] + EXCHANGE;
            SysEnabledRun(Silent, Begin(names), es) && WrongReply(SysRun(Silent, Begin(names), es))
  {
    hide SysRun, SysEnabledRun, Begin, WrongReply, OnConn;
    AskedTwice(names);
    StaleEntry(SysRun(Silent, Begin(names), ASKED_TWICE), names, ASKED_TWICE);
  }

  // A client that has just asked twice, with names left.
  predicate TwoOut(c: Client) {
    && Fresh(c) && c.cpus != [] && !c.epipe && c.pipe == Up
    && |c.sentq| == 2 && c.sentq[1].id < c.nextId
    && forall i :: 0 <= i < |c.written| ==> c.written[i].conn == c.conn
  }

  lemma GreetsTwice(names: seq<string>)
    requires |names| >= 2
    ensures var e := ClientEvent(Connected(true, [ASK, ASK]));
            var s := SysStep(Silent, Begin(names), e);
            && SysEnabled(Begin(names), e) && TwoOut(s.client) && s.toServer == Encode(PING) + Encode(PING)
            && s.serverGot == [] && s.toClient == [] && s.clientGot == [] && !s.crashed
  {
    hide Encode, EncodeAll, OnConn, Follow, OnConnected;
    var k := Dial(names).(pipe := Up);
    var c0 := Asking(k, OnConnect);
    var c1 := Asking(c0, OnConnect);
    GreetTwice(Dial(names));
    TwoAsks(Begin(names), k, c0, c1);
  }

  // The first reply, and another server asked for at once.
  lemma LeavesAtOnce(s: Sys)
    requires TwoOut(s.client) && s.toClient == Encode(PONG) && s.clientGot == [] && !s.crashed
    ensures SysEnabled(s, ClientReads(8, [Reconnect]))
    ensures LeftOne(SysStep(Silent, s, ClientReads(8, [Reconnect])))
  {
    hide Encode, OnConn, Follow, OnReply, SysStep, SysEnabled;
    ClientTakes(s, [Reconnect]);
    FirstReplyLeaves(s.client);
    var r := s.(toClient := [], clientGot := [], delivered := s.delivered + [Delivery(s.client.sentq[0], [])]);
    NewServer(r, OnReply(s.client, [Reconnect]));
  }

  lemma TwoAsks(s: Sys, k: Client, c0: Client, c1: Client)
    requires k.written == s.client.written == [] && k.conn == s.client.conn && s.toServer == []
    requires c0 == Asking(k, OnConnect) && c1 == Asking(c0, OnConnect)
    ensures Follow(s, c1) == s.(client := c1, toServer := Encode(PING) + Encode(PING))
  {
    var v, w := AskWrite(k, OnConnect), AskWrite(c0, OnConnect);
    AskedMore(k, v, c0);
    AskedMore(c0, w, c1);
    assert Asked(k) == [] == Asked(s.client);
    assert Asked(c1) == [v.msg, w.msg] && FramesFor([v.msg, w.msg]) == [PING, PING];
    assert Asked(c1)[0..] == Asked(c1);
    PingBytes(PING);
    assert [PING, PING][1..] == [PING];
    hide Encode, OnConn, FramesFor, Asking;
  }

  lemma FirstReplyLeaves(c: Client)
    requires c.connecting && !c.listening && !c.reconnecting && !Quit(c) && c.cpus != [] && c.pendq == []
    requires |c.sentq| == 2 && !c.epipe
    ensures var d := OnReply(c, [Reconnect]);
            && d == c.(sentq := c.sentq[1..], connecting := true, cpu := Some(c.cpus[0]), cpus := c.cpus[1..],
                       conn := c.conn + 1, pipe := Awaiting, replied := false, shunned := false)
  {
    var d := c.(sentq := c.sentq[1..], replied := true);
    assert Acts(d, [Reconnect], Plain) == Act(d, Reconnect, Plain);
  }
}
