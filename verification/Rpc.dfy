/** Client, server and the two byte streams between them: every reply reaches the callback of its own request.

    The streams are in order and cut up at will; writing a message puts all of its bytes on the stream. */
module Rpc {
  import opened Prelude
  import opened Bytes
  import opened Framing
  import opened UvSpec
  import opened UvLog

  // What a server answers to the last of the requests it has handled, given all of them.
  type Handler = seq<Frame> -> Payload

  // A callback that was run, and the payload it was given.
  datatype Delivery = Delivery(msg: Msg, payload: seq<Byte>)

  /* One client and the server end of its current connection: bytes on their way and bytes of an unfinished
     frame on either side, the requests the server has handled, and the callbacks that were run. */
  datatype Sys = Sys(client: Client,
                     toServer: seq<Byte>, serverGot: seq<Byte>, handled: seq<Frame>,
                     toClient: seq<Byte>, clientGot: seq<Byte>, delivered: seq<Delivery>,
                     crashed: bool)

  datatype SysEvent =
    | ClientEvent(event: Event)
    | ServerReads(n: nat)
    | ClientReads(n: nat, acts: seq<Action>)

  // ---------- What was asked and what is answered ----------

  // The messages written to one connection.
  function OnConn(ws: seq<Write>, conn: nat): (ms: seq<Msg>)
    ensures |ms| <= |ws|
  {
    if ws == [] then []
    else
      var n := |ws| - 1;
      OnConn(ws[..n], conn) + if ws[n].conn == conn then [ws[n].msg] else []
  }

  function Asked(c: Client): seq<Msg> { OnConn(c.written, c.conn) }

  function FrameFor(m: Msg): (f: Frame) { Frame(m.code, m.payload) }

  function FramesFor(ms: seq<Msg>): (fs: seq<Frame>)
    ensures |fs| == |ms| && forall i :: 0 <= i < |ms| ==> fs[i] == FrameFor(ms[i])
  {
    seq(|ms|, i requires 0 <= i < |ms| => FrameFor(ms[i]))
  }

  // Those that wait for a reply.
  function Acked(ms: seq<Msg>): (out: seq<Msg>)
    ensures |out| <= |ms|
  {
    if ms == [] then []
    else
      var n := |ms| - 1;
      Acked(ms[..n]) + if ms[n].code == SEND_ACK then [ms[n]] else []
  }

  // The replies to a sequence of handled requests.
  function Replies(h: Handler, handled: seq<Frame>): (out: seq<Frame>)
    ensures |out| <= |handled|
  {
    if handled == [] then []
    else
      var n := |handled| - 1;
      Replies(h, handled[..n]) + if handled[n].code == SEND_ACK then [Frame(REPLY, h(handled))] else []
  }

  // ---------- Steps ----------

  // After a client event: new messages of the same connection are on their way, or a new connection is empty.
  function Follow(s: Sys, c: Client): Sys {
    if c.conn == s.client.conn then
      var before, after := Asked(s.client), Asked(c);
      if |before| <= |after| then
        s.(client := c, toServer := s.toServer + EncodeAll(FramesFor(after[|before|..])))
      else s.(client := c)
    else Sys(c, EncodeAll(FramesFor(Asked(c))), [], [], [], [], [], s.crashed)
  }

  predicate SysEnabled(s: Sys, e: SysEvent) {
    match e
    case ClientEvent(event) => !event.Replied? && Enabled(s.client, event)
    case ServerReads(n) => 0 < n <= |s.toServer| && Open(s.serverGot) && n <= Want(s.serverGot)
    case ClientReads(n, acts) =>
      0 < n <= |s.toClient| && s.client.pipe == Up && Open(s.clientGot) && n <= Want(s.clientGot)
  }

  function SysStep(h: Handler, s: Sys, e: SysEvent): Sys
    requires SysEnabled(s, e)
  {
    match e
    case ClientEvent(event) => Follow(s, Step(s.client, event))
    case ServerReads(n) =>
      var d := Feed(s.serverGot, s.toServer[..n]);
      var handled := s.handled + d.frames;
      var sent := |Replies(h, s.handled)|;
      s.(toServer := s.toServer[n..], serverGot := d.got, handled := handled,
         toClient := s.toClient + if sent <= |Replies(h, handled)| then EncodeAll(Replies(h, handled)[sent..]) else [])
    case ClientReads(n, acts) =>
      var d := Feed(s.clientGot, s.toClient[..n]);
      var r := s.(toClient := s.toClient[n..], clientGot := d.got);
      if d.frames == [] then r
      else if s.client.sentq == [] then r.(crashed := true)   // the assertion on an empty queue
      else
        Follow(r.(delivered := s.delivered + [Delivery(s.client.sentq[0], d.frames[0].payload)]),
               OnReply(s.client, acts))
  }

  function Begin(names: seq<string>): Sys
    requires names != []
  {
    Sys(Dial(names), [], [], [], [], [], [], false)
  }

  // ---------- The invariant ----------

  // Of a sequence of frames sent, the first ones have been read and the others are on their way.
  ghost predicate InTransit(fs: seq<Frame>, read: nat, got: seq<Byte>, bytes: seq<Byte>) {
    read <= |fs| && Open(got) && got + bytes == EncodeAll(fs[read..])
  }

  // Waiting are the requests that want a reply and have not had it; the others had their own.
  ghost predicate Waiting(asked: seq<Msg>, sentq: seq<Msg>, delivered: seq<Delivery>, replies: seq<Frame>) {
    && |delivered| <= |Acked(asked)| && |delivered| <= |replies|
    && sentq == Acked(asked)[|delivered|..]
    && (forall j :: 0 <= j < |delivered| ==> delivered[j] == Delivery(Acked(asked)[j], replies[j].payload))
  }

  ghost predicate Matched(h: Handler, s: Sys) {
    var asked, replies := Asked(s.client), Replies(h, s.handled);
    && !s.crashed
    && ConnsKnown(s.client)
    && s.handled <= FramesFor(asked)
    && InTransit(FramesFor(asked), |s.handled|, s.serverGot, s.toServer)
    && InTransit(replies, |s.delivered|, s.clientGot, s.toClient)
    && Waiting(asked, s.client.sentq, s.delivered, replies)
  }

  // ---------- Sequences of messages ----------

  lemma {:induction false} AckedJoin(a: seq<Msg>, b: seq<Msg>)
    ensures Acked(a + b) == Acked(a) + Acked(b)
  {
    if b == [] {
      assert a + b == a;
    } else {
      var n := |b| - 1;
      AckedJoin(a, b[..n]);
      ButLast(a, b);
      AppendTwice(Acked(a), Acked(b[..n]), if b[n].code == SEND_ACK then [b[n]] else []);
    }
  }

  lemma {:induction false} RepliesGrow(h: Handler, handled: seq<Frame>, k: nat)
    requires k <= |handled|
    ensures Replies(h, handled[..k]) <= Replies(h, handled)
    decreases |handled| - k
  {
    if k < |handled| {
      RepliesGrow(h, handled, k + 1);
      assert handled[..k + 1][..k] == handled[..k];
    } else {
      assert handled[..k] == handled;
    }
  }

  // One reply for each handled request that wants one.
  lemma {:induction false} RepliesCount(h: Handler, ms: seq<Msg>)
    ensures |Replies(h, FramesFor(ms))| == |Acked(ms)|
  {
    if ms != [] {
      var n := |ms| - 1;
      RepliesCount(h, ms[..n]);
      assert FramesFor(ms)[..n] == FramesFor(ms[..n]);
    }
  }

  lemma {:induction false} RepliesFit(h: Handler, handled: seq<Frame>)
    ensures forall i :: 0 <= i < |Replies(h, handled)| ==> Replies(h, handled)[i].Fits()
  {
    SpanValues();
    if handled != [] {
      RepliesFit(h, handled[..|handled| - 1]);
    }
  }

  lemma FramesFit(ms: seq<Msg>)
    ensures forall i :: 0 <= i < |ms| ==> FramesFor(ms)[i].Fits()
  {
    SpanValues();
  }

  // ---------- What an event does to the writes and the queue of replies ----------

  /* The same connection with more written to it, or a new connection: either way the queue of those that wait
     for a reply has followed. */
  predicate Follows(c: Client, d: Client) {
    && ConnsKnown(d)
    && if d.conn == c.conn then
         Asked(c) <= Asked(d) && d.sentq == c.sentq + Acked(Asked(d)[|Asked(c)|..])
       else
         d.conn > c.conn && d.sentq == Acked(Asked(d))
  }

  lemma FollowsSame(c: Client, d: Client)
    requires ConnsKnown(c) && d.written == c.written && d.conn == c.conn && d.sentq == c.sentq
    ensures Follows(c, d)
  {
  }

  lemma FollowsTwice(c: Client, d: Client, e: Client)
    requires Follows(c, d) && Follows(d, e)
    ensures Follows(c, e)
  {
    if c.conn == d.conn == e.conn {
      var a, b, z := Asked(c), Asked(d), Asked(e);
      assert z[|a|..] == b[|a|..] + z[|b|..];
      AckedJoin(b[|a|..], z[|b|..]);
      AppendTwice(c.sentq, Acked(b[|a|..]), Acked(z[|b|..]));
    } else if d.conn == e.conn {
      var b, z := Asked(d), Asked(e);
      assert z == b + z[|b|..];
      AckedJoin(b, z[|b|..]);
    }
  }

  lemma SendFollows(c: Client, m: Msg, queued: bool)
    requires ConnsKnown(c)
    ensures Follows(c, SendWriting(c, m, queued))
  {
    var d := SendWriting(c, m, queued);
    assert d.written[..|c.written|] == c.written;
    assert Asked(d) == Asked(c) + [m];
    assert Asked(d)[|Asked(c)|..] == [m] && [m][..0] == [];
    assert Acked([m]) == if m.code == SEND_ACK then [m] else [];
  }

  lemma {:induction false} DeliverFollows(c: Client)
    requires ConnsKnown(c)
    ensures Follows(c, DeliverAll(c))
    decreases |c.pendq|
  {
    if c.pendq == [] {
      FollowsSame(c, c);
    } else {
      var d := c.(pendq := c.pendq[1..]);
      FollowsSame(c, d);
      SendFollows(d, c.pendq[0], true);
      var e := SendWriting(d, c.pendq[0], true);
      FollowsTwice(c, d, e);
      DeliverFollows(e);
      FollowsTwice(c, e, DeliverAll(c));
    }
  }

  lemma {:induction false} NothingAsked(ws: seq<Write>, conn: nat)
    requires forall i :: 0 <= i < |ws| ==> ws[i].conn < conn
    ensures OnConn(ws, conn) == []
  {
    if ws != [] {
      NothingAsked(ws[..|ws| - 1], conn);
    }
  }

  // The next connection starts with nothing outstanding, and no name left ends with nothing outstanding,
  // exactly when nothing was outstanding before.
  lemma ReconnectFollowsExactly(c: Client)
    requires ConnsKnown(c)
    ensures Follows(c, ReconnectOne(c)) <==> c.sentq == []
  {
    if c.cpus != [] {
      NothingAsked(c.written, c.conn + 1);
    }
  }

  lemma ReconnectFollows(c: Client)
    requires ConnsKnown(c) && c.sentq == []
    ensures Follows(c, ReconnectOne(c))
  {
    ReconnectFollowsExactly(c);
  }

  lemma ListenFollows(c: Client)
    requires ConnsKnown(c)
    ensures Follows(c, ListenOne(c))
  {
    var d := c.(epipe := true, nextId := c.nextId + 1);
    var e := SendWriting(d, Msg(c.nextId, CREATE_NOTIFY, [], Internal), false);
    FollowsSame(c, d);
    SendFollows(d, Msg(c.nextId, CREATE_NOTIFY, [], Internal), false);
    FollowsTwice(c, d, e);
    FollowsSame(e, e.(listening := true));
    FollowsTwice(c, e, e.(listening := true));
  }

  // A call that does not leave a connection while something is outstanding on it.
  predicate CleanAct(c: Client, a: Action) {
    a.Reconnect? && !c.epipe && c.Idle() ==> c.sentq == []
  }

  // A message is refused, written at once or queued.
  lemma SendCases(c: Client, ack: bool, payload: Payload, origin: Origin)
    ensures var m := Msg(c.nextId, if ack then SEND_ACK else SEND, payload, origin);
            var d := c.(nextId := c.nextId + 1);
            Send(c, ack, payload, origin)
            == if c.cpu == None || c.disconnecting then c
               else if c.Idle() then SendWriting(d, m, false) else d.(pendq := d.pendq + [m])
  {
  }

  lemma SubmitFollows(c: Client, ack: bool, payload: Payload, origin: Origin)
    requires ConnsKnown(c)
    ensures Follows(c, Send(c, ack, payload, origin))
  {
    var m := Msg(c.nextId, if ack then SEND_ACK else SEND, payload, origin);
    var d := c.(nextId := c.nextId + 1);
    SendCases(c, ack, payload, origin);
    FollowsSame(c, c);
    FollowsSame(c, d);
    hide *;
    if c.cpu != None && !c.disconnecting {
      if c.Idle() {
        KnownStays(c, d);
        SendFollows(d, m, false);
        FollowsTwice(c, d, SendWriting(d, m, false));
      } else {
        FollowsSame(c, d.(pendq := d.pendq + [m]));
      }
    }
  }

  lemma KnownStays(c: Client, d: Client)
    requires ConnsKnown(c) && d.written == c.written && d.conn == c.conn
    ensures ConnsKnown(d)
  {
  }

  lemma ActFollows(c: Client, a: Action, origin: Origin)
    requires ConnsKnown(c) && CleanAct(c, a)
    ensures Follows(c, Act(c, a, origin))
  {
    FollowsSame(c, c);
    hide Follows, Send, ReconnectOne, ListenOne, ConnsKnown;
    match a
    case Submit(ack, payload) => SubmitFollows(c, ack, payload, origin);
    case Reconnect => AskFollows(c);
    case Listen =>
      ListenFollows(c);
      FollowsSame(c, c.(listening := true));
    case Disconnect => FollowsSame(c, c.(disconnecting := true));
  }

  lemma AskFollows(c: Client)
    requires ConnsKnown(c) && CleanAct(c, Action.Reconnect)
    ensures Follows(c, Act(c, Action.Reconnect, Plain))
  {
    var d := c.(shunned := true);
    FollowsSame(c, c);
    FollowsSame(c, d);
    if !c.epipe {
      hide Follows, ReconnectOne, ConnsKnown;
      if c.Idle() {
        ReconnectFollows(d);
        FollowsTwice(c, d, ReconnectOne(d));
      } else {
        FollowsSame(c, d.(reconnecting := true));
      }
    }
  }

  predicate CleanActs(c: Client, acts: seq<Action>, origin: Origin)
    decreases |acts|
  {
    acts == [] || (CleanAct(c, acts[0]) && CleanActs(Act(c, acts[0], origin), acts[1..], origin))
  }

  lemma {:induction false} ActsFollow(c: Client, acts: seq<Action>, origin: Origin)
    requires ConnsKnown(c) && CleanActs(c, acts, origin)
    ensures Follows(c, Acts(c, acts, origin))
    decreases |acts|
  {
    if acts == [] {
      FollowsSame(c, c);
    } else {
      var d := Act(c, acts[0], origin);
      ActFollows(c, acts[0], origin);
      ActsFollow(d, acts[1..], origin);
      FollowsTwice(c, d, Acts(c, acts, origin));
    }
  }

  // ---------- Before the first reply ----------

  lemma HeldBackOne(c: Client, a: Action, origin: Origin)
    requires c.connecting
    ensures CleanAct(c, a)
    ensures var d := Act(c, a, origin);
            && d.connecting && d.sentq == c.sentq && d.pipe == c.pipe
            && d.written == c.written && d.conn == c.conn
  {
  }

  // While the connecting flag is up nothing is written.
  lemma {:induction false} HeldBack(c: Client, acts: seq<Action>, origin: Origin)
    requires c.connecting
    ensures CleanActs(c, acts, origin)
    ensures var d := Acts(c, acts, origin);
            && d.connecting && d.sentq == c.sentq && d.pipe == c.pipe
            && d.written == c.written && d.conn == c.conn
    decreases |acts|
  {
    if acts != [] {
      HeldBackOne(c, acts[0], origin);
      hide Act, CleanAct;
      HeldBack(Act(c, acts[0], origin), acts[1..], origin);
    }
  }

  // ---------- Clean events ----------

  // Settling does not leave a connection while something is outstanding on it.
  predicate CleanSettle(c: Client) {
    c.reconnecting && !c.disconnecting ==> c.sentq == []
  }

  predicate Clean(c: Client, e: Event)
    requires Enabled(c, e)
  {
    match e
    case Call(a) => CleanAct(c, a)
    case Connected(ok, acts) =>
      var d := if ok && !c.disconnecting then WithFlags(c, false, false, false, false).(pipe := Up) else c;
      CleanActs(d, acts, OnConnect)
    case Replied(acts) =>
      var d := c.(sentq := c.sentq[1..], replied := true);
      CleanActs(d, acts, Plain) && (Acts(d, acts, Plain).connecting ==> CleanSettle(Acts(d, acts, Plain)))
    case Accepted(acts) => CleanActs(c.(listening := false), acts, OnListen)
  }

  lemma SettleFollows(c: Client)
    requires ConnsKnown(c) && CleanSettle(c)
    ensures Follows(c, Settle(c))
  {
    var d := c.(connecting := false);
    FollowsSame(c, d);
    var l := if d.listening && !d.reconnecting && !d.disconnecting then ListenOne(d) else d;
    ListenFollows(d);
    FollowsSame(d, d);
    FollowsTwice(c, d, l);
    var e := if !l.listening && !l.reconnecting then DeliverAll(l) else l;
    DeliverFollows(l);
    FollowsSame(l, l);
    FollowsTwice(c, l, e);
    if e.disconnecting {
      DeliverFollows(e);
      FollowsTwice(c, e, DeliverAll(e));
      FollowsSame(DeliverAll(e), Settle(c));
      FollowsTwice(c, DeliverAll(e), Settle(c));
    } else if e.reconnecting {
      SettleReconnects(c);
      var f := e.(reconnecting := false);
      FollowsSame(e, f);
      FollowsTwice(c, e, f);
      ReconnectFollows(f);
      FollowsTwice(c, f, ReconnectOne(f));
      var r := ReconnectOne(f);
      FollowsSame(r, r.(pipe := Down));
      FollowsTwice(c, r, r.(pipe := Down));
    }
  }

  // A settling client that asks for another server has written nothing since.
  lemma SettleReconnects(c: Client)
    requires CleanSettle(c)
    ensures var d := c.(connecting := false);
            var l := if d.listening && !d.reconnecting && !d.disconnecting then ListenOne(d) else d;
            var e := if !l.listening && !l.reconnecting then DeliverAll(l) else l;
            e.reconnecting && !e.disconnecting ==> e == d && e.sentq == []
  {
    var d := c.(connecting := false);
    var l := if d.listening && !d.reconnecting && !d.disconnecting then ListenOne(d) else d;
    DeliverFlags(l);
  }

  lemma {:induction false} DeliverFlags(c: Client)
    ensures DeliverAll(c).reconnecting == c.reconnecting && DeliverAll(c).disconnecting == c.disconnecting
    decreases |c.pendq|
  {
    if c.pendq != [] {
      DeliverFlags(SendWriting(c.(pendq := c.pendq[1..]), c.pendq[0], true));
    }
  }

  lemma ConnectedFollows(c: Client, ok: bool, acts: seq<Action>)
    requires ConnsKnown(c) && c.pipe == Awaiting && Clean(c, Connected(ok, acts))
    ensures Follows(c, OnConnected(c, ok, acts))
  {
    var d := if ok && !c.disconnecting then WithFlags(c, false, false, false, false).(pipe := Up) else c;
    FollowsSame(c, d);
    ActsFollow(d, acts, OnConnect);
    var e := Acts(d, acts, OnConnect);
    FollowsTwice(c, d, e);
    FollowsSame(e, OnConnected(c, ok, acts));
    FollowsTwice(c, e, OnConnected(c, ok, acts));
  }

  lemma ReplyFollows(c: Client, acts: seq<Action>)
    requires ConnsKnown(c) && c.pipe == Up && c.sentq != [] && Clean(c, Replied(acts))
    ensures Follows(c.(sentq := c.sentq[1..], replied := true), OnReply(c, acts))
  {
    var d := c.(sentq := c.sentq[1..], replied := true);
    ActsFollow(d, acts, Plain);
    var e := Acts(d, acts, Plain);
    if e.connecting {
      SettleFollows(e);
      FollowsTwice(d, e, Settle(e));
    }
  }

  lemma AcceptedFollows(c: Client, acts: seq<Action>)
    requires ConnsKnown(c) && c.listening && c.epipe && Clean(c, Accepted(acts))
    ensures Follows(c, OnAccepted(c, acts))
  {
    var d := c.(listening := false);
    FollowsSame(c, d);
    ActsFollow(d, acts, OnListen);
    var e := Acts(d, acts, OnListen);
    FollowsTwice(c, d, e);
    DeliverFollows(e);
    FollowsTwice(c, e, DeliverAll(e));
  }

  lemma EventFollows(c: Client, e: Event)
    requires ConnsKnown(c) && Enabled(c, e) && Clean(c, e) && !e.Replied?
    ensures Follows(c, Step(c, e))
  {
    match e
    case Call(a) => ActFollows(c, a, Plain);
    case Connected(ok, acts) => ConnectedFollows(c, ok, acts);
    case Accepted(acts) => AcceptedFollows(c, acts);
  }

  // ---------- Steps keep the invariant ----------

  lemma TransitMore(fs: seq<Frame>, read: nat, got: seq<Byte>, bytes: seq<Byte>, gs: seq<Frame>)
    requires InTransit(fs, read, got, bytes)
    ensures InTransit(fs + gs, read, got, bytes + EncodeAll(gs))
  {
    hide EncodeAll;
    assert (fs + gs)[read..] == fs[read..] + gs;
    EncodeAllJoin(fs[read..], gs);
    AppendTwice(got, bytes, EncodeAll(gs));
  }

  lemma SliceStep<T>(xs: seq<T>, k: nat)
    requires k < |xs|
    ensures xs[k..][0] == xs[k] && xs[k..][1..] == xs[k + 1..]
  {
  }

  // A frame that is complete is the next one.
  lemma TransitTook(fs: seq<Frame>, read: nat, got: seq<Byte>, rest: seq<Byte>)
    requires read <= |fs| && Complete(got) && got + rest == EncodeAll(fs[read..])
    requires forall i :: 0 <= i < |fs| ==> fs[i].Fits()
    ensures read < |fs| && FrameOf(got) == fs[read] && InTransit(fs, read + 1, [], rest)
  {
    var tail := fs[read..];
    assert forall i :: 0 <= i < |tail| ==> tail[i] == fs[read + i];
    HeadFrame(tail, got, rest);
    hide EncodeAll, FrameOf, Complete;
    SliceStep(fs, read);
    assert [] + rest == rest;
  }

  // The same with the read that took it; a frame that is not complete stays in transit.
  lemma TransitPiece(fs: seq<Frame>, read: nat, got: seq<Byte>, bytes: seq<Byte>, n: nat)
    requires InTransit(fs, read, got, bytes) && n <= |bytes|
    requires Complete(got + bytes[..n]) || Open(got + bytes[..n])
    requires forall i :: 0 <= i < |fs| ==> fs[i].Fits()
    ensures if Complete(got + bytes[..n]) then
              read < |fs| && FrameOf(got + bytes[..n]) == fs[read] && InTransit(fs, read + 1, [], bytes[n..])
            else InTransit(fs, read, got + bytes[..n], bytes[n..])
  {
    CutInTwo(got, bytes, n);
    hide EncodeAll, FrameOf, Complete, Open;
    if Complete(got + bytes[..n]) {
      TransitTook(fs, read, got + bytes[..n], bytes[n..]);
    }
  }

  // Nothing, or the next of the frames.
  predicate NextOf(fs: seq<Frame>, read: nat, got: seq<Frame>) {
    got == [] || (read < |fs| && got == [fs[read]])
  }

  // A read takes part of a frame, or exactly the next one.
  lemma TransitRead(fs: seq<Frame>, read: nat, got: seq<Byte>, bytes: seq<Byte>, n: nat, d: Decoded)
    requires InTransit(fs, read, got, bytes) && n <= |bytes|
    requires Open(got) && n <= Want(got) && d == Feed(got, bytes[..n])
    requires forall i :: 0 <= i < |fs| ==> fs[i].Fits()
    ensures |d.frames| <= 1 && NextOf(fs, read, d.frames) && InTransit(fs, read + |d.frames|, d.got, bytes[n..])
  {
    hide *;
    FeedChunk(got, bytes[..n]);
    TransitPiece(fs, read, got, bytes, n);
    NextCases(fs, read);
  }

  lemma NextCases(fs: seq<Frame>, read: nat)
    ensures NextOf(fs, read, [])
    ensures read < |fs| ==> NextOf(fs, read, [fs[read]])
  {
  }

  lemma TransitStart(fs: seq<Frame>)
    ensures InTransit(fs, 0, [], EncodeAll(fs)) && InTransit([], 0, [], [])
  {
    assert fs[0..] == fs && [] + EncodeAll(fs) == EncodeAll(fs);
  }

  lemma FramesJoin(a: seq<Msg>, b: seq<Msg>)
    ensures FramesFor(a + b) == FramesFor(a) + FramesFor(b)
  {
  }

  lemma WaitingMore(asked: seq<Msg>, more: seq<Msg>, sentq: seq<Msg>, delivered: seq<Delivery>, replies: seq<Frame>)
    requires Waiting(asked, sentq, delivered, replies)
    ensures Waiting(asked + more, sentq + Acked(more), delivered, replies)
  {
    AckedJoin(asked, more);
    hide Acked;
    assert (Acked(asked) + Acked(more))[|delivered|..] == Acked(asked)[|delivered|..] + Acked(more);
  }

  // What an event leaves of the link, given what it did to the writes.
  lemma FollowKeeps(h: Handler, s: Sys, c: Client)
    requires Matched(h, s) && Follows(s.client, c)
    ensures Matched(h, Follow(s, c))
  {
    hide Asked, EncodeAll, Acked;
    if c.conn == s.client.conn {
      SameConnection(h, s, c);
    } else {
      NewConnection(h, s, c);
    }
  }

  lemma SameConnection(h: Handler, s: Sys, c: Client)
    requires Matched(h, s) && Follows(s.client, c) && c.conn == s.client.conn
    ensures Matched(h, Follow(s, c))
  {
    var before, after := Asked(s.client), Asked(c);
    var more := after[|before|..];
    hide Asked, Acked, EncodeAll, ConnsKnown, FramesFor, InTransit, Waiting;
    PrefixRest(before, after);
    FramesJoin(before, more);
    TransitMore(FramesFor(before), |s.handled|, s.serverGot, s.toServer, FramesFor(more));
    WaitingMore(before, more, s.client.sentq, s.delivered, Replies(h, s.handled));
  }

  lemma NewConnection(h: Handler, s: Sys, c: Client)
    requires !s.crashed && Follows(s.client, c) && c.conn != s.client.conn
    ensures Matched(h, Follow(s, c))
  {
    var after := Asked(c);
    hide Asked, Acked, EncodeAll, ConnsKnown;
    TransitStart(FramesFor(after));
    assert Acked(after)[0..] == Acked(after);
  }

  lemma RepliesOneMore(h: Handler, handled: seq<Frame>, f: seq<Frame>)
    requires |f| <= 1
    ensures Replies(h, handled) <= Replies(h, handled + f)
  {
    assert (handled + f)[..|handled|] == handled;
    RepliesGrow(h, handled + f, |handled|);
  }

  lemma WaitingLonger(asked: seq<Msg>, sentq: seq<Msg>, delivered: seq<Delivery>, replies: seq<Frame>, more: seq<Frame>)
    requires Waiting(asked, sentq, delivered, replies)
    ensures Waiting(asked, sentq, delivered, replies + more)
  {
    hide Acked;
  }

  // The frames read, and the answers to them put on the stream.
  lemma Answered(h: Handler, fs: seq<Frame>, handled: seq<Frame>, got: seq<Frame>)
    requires handled <= fs && NextOf(fs, |handled|, got)
    ensures handled + got <= fs
    ensures var sent, now := Replies(h, handled), Replies(h, handled + got);
            |sent| <= |now| && now == sent + now[|sent|..]
  {
    RepliesOneMore(h, handled, got);
    hide Replies;
  }

  lemma ServerKeeps(h: Handler, s: Sys, n: nat)
    requires Matched(h, s) && SysEnabled(s, ServerReads(n))
    ensures Matched(h, SysStep(h, s, ServerReads(n)))
  {
    var fs := FramesFor(Asked(s.client));
    FramesFit(Asked(s.client));
    hide Asked, FramesFor, Waiting, Replies, EncodeAll, Follow;
    var d := Feed(s.serverGot, s.toServer[..n]);
    TransitRead(fs, |s.handled|, s.serverGot, s.toServer, n, d);
    hide InTransit, Feed, Want, Open;
    Answered(h, fs, s.handled, d.frames);
    var sent, now := Replies(h, s.handled), Replies(h, s.handled + d.frames);
    TransitMore(sent, |s.delivered|, s.clientGot, s.toClient, now[|sent|..]);
    WaitingLonger(Asked(s.client), s.client.sentq, s.delivered, sent, now[|sent|..]);
  }

  // The messages that belong to the requests handled, and those after them.
  lemma HandledPart(h: Handler, asked: seq<Msg>, handled: seq<Frame>)
    requires handled <= FramesFor(asked)
    ensures var first, rest := asked[..|handled|], asked[|handled|..];
            && FramesFor(first) == handled
            && Acked(asked) == Acked(first) + Acked(rest)
            && |Acked(first)| == |Replies(h, handled)|
  {
    hide FramesFor, Acked, Replies;
    var n := |handled|;
    PrefixRest(handled, FramesFor(asked));
    FramesPrefix(asked, n);
    RepliesCount(h, asked[..n]);
    AckedJoin(asked[..n], asked[n..]);
    Halves(asked, n);
  }

  // A reply that has come in belongs to the message at the head of the queue, which therefore is not empty.
  lemma ReplyHasOwner(h: Handler, s: Sys)
    requires Matched(h, s) && |s.delivered| < |Replies(h, s.handled)|
    ensures s.client.sentq != []
  {
    hide Asked, FramesFor, Acked, Replies, InTransit;
    HandledPart(h, Asked(s.client), s.handled);
  }

  // One more reply goes to the head of the queue.
  lemma WaitingLess(asked: seq<Msg>, sentq: seq<Msg>, delivered: seq<Delivery>, replies: seq<Frame>)
    requires Waiting(asked, sentq, delivered, replies) && sentq != [] && |delivered| < |replies|
    ensures Waiting(asked, sentq[1..], delivered + [Delivery(sentq[0], replies[|delivered|].payload)], replies)
  {
    hide Acked;
  }

  // The system when a reply has come in and its callback is about to run.
  function ReplyTaken(s: Sys, n: nat): Sys
    requires SysEnabled(s, ClientReads(n, []))
    requires s.client.sentq != [] && Feed(s.clientGot, s.toClient[..n]).frames != []
  {
    var d := Feed(s.clientGot, s.toClient[..n]);
    s.(client := s.client.(sentq := s.client.sentq[1..], replied := true),
       toClient := s.toClient[n..], clientGot := d.got,
       delivered := s.delivered + [Delivery(s.client.sentq[0], d.frames[0].payload)])
  }

  lemma TakenKeeps(h: Handler, s: Sys, n: nat)
    requires Matched(h, s) && SysEnabled(s, ClientReads(n, []))
    requires Feed(s.clientGot, s.toClient[..n]).frames != []
    ensures s.client.sentq != [] && Matched(h, ReplyTaken(s, n))
  {
    var replies := Replies(h, s.handled);
    RepliesFit(h, s.handled);
    hide FramesFor, Replies, Acked, EncodeAll, OnReply, Clean, OnConn;
    var d := Feed(s.clientGot, s.toClient[..n]);
    TransitRead(replies, |s.delivered|, s.clientGot, s.toClient, n, d);
    hide Feed, Want, Open, InTransit;
    ReplyHasOwner(h, s);
    assert d.frames[0] == replies[|s.delivered|];
    WaitingLess(Asked(s.client), s.client.sentq, s.delivered, replies);
  }

  lemma TakenFollows(h: Handler, s: Sys, n: nat, acts: seq<Action>)
    requires SysEnabled(s, ClientReads(n, acts)) && s.client.sentq != []
    requires Feed(s.clientGot, s.toClient[..n]).frames != []
    ensures SysStep(h, s, ClientReads(n, acts)) == Follow(ReplyTaken(s, n), OnReply(s.client, acts))
  {
    hide Feed, Want, Open, OnReply, FramesFor, EncodeAll, OnConn;
  }

  // A read that does not complete a reply.
  lemma PartKeeps(h: Handler, s: Sys, n: nat, acts: seq<Action>)
    requires Matched(h, s) && SysEnabled(s, ClientReads(n, acts))
    requires Feed(s.clientGot, s.toClient[..n]).frames == []
    ensures Matched(h, SysStep(h, s, ClientReads(n, acts)))
  {
    var replies := Replies(h, s.handled);
    RepliesFit(h, s.handled);
    hide FramesFor, Replies, Acked, EncodeAll, OnReply, Clean, OnConn;
    TransitRead(replies, |s.delivered|, s.clientGot, s.toClient, n, Feed(s.clientGot, s.toClient[..n]));
  }

  lemma ClientKeeps(h: Handler, s: Sys, n: nat, acts: seq<Action>)
    requires Matched(h, s) && SysEnabled(s, ClientReads(n, acts))
    requires s.client.sentq != [] ==> Clean(s.client, Replied(acts))
    ensures Matched(h, SysStep(h, s, ClientReads(n, acts)))
  {
    hide Matched, Feed, Want, Open, OnReply, Clean, Follow, SysStep;
    if Feed(s.clientGot, s.toClient[..n]).frames == [] {
      PartKeeps(h, s, n, acts);
    } else {
      TakenKeeps(h, s, n);
      assert ConnsKnown(s.client) by { MatchedKnown(h, s); }
      ReplyFollows(s.client, acts);
      TakenFollows(h, s, n, acts);
      FollowKeeps(h, ReplyTaken(s, n), OnReply(s.client, acts));
    }
  }

  lemma MatchedKnown(h: Handler, s: Sys)
    requires Matched(h, s)
    ensures ConnsKnown(s.client)
  {
  }

  // ---------- Leaving a connection ----------

  // The client has gone to the next name, or dropped its queues because there is none.
  predicate HasLeft(c: Client, d: Client) {
    && d.written == c.written
    && if d.conn == c.conn then d.sentq == [] else d.conn > c.conn && d.sentq == c.sentq
  }

  lemma LeftExactly(h: Handler, s: Sys, d: Client)
    requires Matched(h, s) && HasLeft(s.client, d)
    ensures Matched(h, Follow(s, d)) <==> s.client.sentq == []
  {
    var c := s.client;
    hide InTransit, EncodeAll, FramesFor, Replies, Acked;
    if c.sentq == [] {
      assert Follows(c, d) by {
        if d.conn != c.conn {
          NothingAsked(d.written, d.conn);
        } else {
          assert Acked(Asked(d)[|Asked(c)|..]) == [] by { NoneAcked(Asked(c)); }
        }
      }
      FollowKeeps(h, s, d);
    } else if d.conn != c.conn {
      NothingAsked(d.written, d.conn);
      NoneAcked([]);
    } else {
      var t, replies := Follow(s, d), Replies(h, s.handled);
      assert Asked(d) == Asked(c) && t.client == d && t.delivered == s.delivered && t.handled == s.handled;
      assert Matched(h, t) ==> Waiting(Asked(c), d.sentq, s.delivered, replies);
      hide Matched, Follow, Asked;
      WaitingFixed(Asked(c), c.sentq, d.sentq, s.delivered, replies);
    }
  }

  lemma WaitingFixed(asked: seq<Msg>, sentq: seq<Msg>, other: seq<Msg>, delivered: seq<Delivery>, replies: seq<Frame>)
    requires Waiting(asked, sentq, delivered, replies)
    ensures Waiting(asked, other, delivered, replies) <==> other == sentq
  {
  }

  lemma NoneAcked(ms: seq<Msg>)
    ensures Acked(ms[|ms|..]) == []
  {
  }

  /* Another server asked for by an idle client: replies stay matched exactly when no request is outstanding,
     whether there is another name or not. */
  lemma ReconnectExactly(h: Handler, s: Sys)
    requires Matched(h, s) && s.client.Idle() && !s.client.epipe
    ensures Matched(h, SysStep(h, s, ClientEvent(Call(Reconnect)))) <==> s.client.sentq == []
  {
    hide Matched, Follow;
    LeftExactly(h, s, ReconnectOne(s.client.(shunned := true)));
  }

  // The client just before the flags are acted on, after whatever the first on_receive has called.
  function Answering(c: Client, acts: seq<Action>): Client
    requires c.sentq != []
  {
    Acts(c.(sentq := c.sentq[1..], replied := true), acts, Plain)
  }

  lemma SettleLeaves(c: Client)
    requires c.reconnecting && !c.disconnecting
    ensures HasLeft(c, Settle(c))
  {
  }

  /* The first on_receive, whatever it calls: replies stay matched exactly when no other server is to be tried,
     be it for these calls or an earlier one, or the reply was to the only request outstanding. */
  lemma FirstReplyExactly(h: Handler, s: Sys, n: nat, acts: seq<Action>)
    requires Matched(h, s) && SysEnabled(s, ClientReads(n, acts))
    requires Feed(s.clientGot, s.toClient[..n]).frames != []
    requires s.client.connecting
    ensures s.client.sentq != []
    ensures var d := Answering(s.client, acts);
            Matched(h, SysStep(h, s, ClientReads(n, acts)))
            <==> (d.reconnecting && !d.disconnecting ==> |s.client.sentq| == 1)
  {
    TakenKeeps(h, s, n);
    var c := s.client.(sentq := s.client.sentq[1..], replied := true);
    var d := Answering(s.client, acts);
    HeldBack(c, acts, Plain);
    hide Matched, Feed, Want, Open, Follow, SysStep, Acts, CleanActs, Settle;
    if d.reconnecting && !d.disconnecting {
      TakenFollows(h, s, n, acts);
      SettleLeaves(d);
      LeftExactly(h, ReplyTaken(s, n), Settle(d));
    } else {
      ClientKeeps(h, s, n, acts);
    }
  }

  // ---------- Runs ----------

  ghost predicate SysLegal(s: Sys, e: SysEvent) {
    && SysEnabled(s, e)
    && match e
       case ClientEvent(event) => Clean(s.client, event)
       case ServerReads(n) => true
       case ClientReads(n, acts) => s.client.sentq != [] ==> Clean(s.client, Replied(acts))
  }

  ghost predicate SysEnabledRun(h: Handler, s: Sys, es: seq<SysEvent>)
    decreases |es|
  {
    es == [] || (SysEnabled(s, es[0]) && SysEnabledRun(h, SysStep(h, s, es[0]), es[1..]))
  }

  ghost predicate SysLegalRun(h: Handler, s: Sys, es: seq<SysEvent>)
    ensures SysLegalRun(h, s, es) ==> SysEnabledRun(h, s, es)
    decreases |es|
  {
    es == [] || (SysLegal(s, es[0]) && SysLegalRun(h, SysStep(h, s, es[0]), es[1..]))
  }

  function SysRun(h: Handler, s: Sys, es: seq<SysEvent>): Sys
    requires SysEnabledRun(h, s, es)
    decreases |es|
  {
    if es == [] then s else SysRun(h, SysStep(h, s, es[0]), es[1..])
  }

  lemma SysStepKeeps(h: Handler, s: Sys, e: SysEvent)
    requires Matched(h, s) && SysLegal(s, e)
    ensures Matched(h, SysStep(h, s, e))
  {
    match e
    case ClientEvent(event) =>
      EventFollows(s.client, event);
      FollowKeeps(h, s, Step(s.client, event));
    case ServerReads(n) => ServerKeeps(h, s, n);
    case ClientReads(n, acts) => ClientKeeps(h, s, n, acts);
  }

  lemma {:induction false} RunKeepsMatched(h: Handler, s: Sys, es: seq<SysEvent>)
    requires Matched(h, s) && SysLegalRun(h, s, es)
    ensures Matched(h, SysRun(h, s, es))
    decreases |es|
  {
    if es != [] {
      SysStepKeeps(h, s, es[0]);
      RunKeepsMatched(h, SysStep(h, s, es[0]), es[1..]);
    }
  }

  // Whatever the handler answers and however sends, reads and callbacks interleave.
  lemma RepliesMatch(h: Handler, names: seq<string>, es: seq<SysEvent>)
    requires names != [] && SysLegalRun(h, Begin(names), es)
    ensures Matched(h, SysRun(h, Begin(names), es))
  {
    TransitStart([]);
    RunKeepsMatched(h, Begin(names), es);
  }

  // ---------- What the invariant says ----------

  // The queue is the owners of the replies on their way, then the acknowledged requests on their way.
  lemma QueueShape(h: Handler, s: Sys)
    requires Matched(h, s)
    ensures var asked := Asked(s.client);
            var answered := Acked(asked[..|s.handled|]);
            && |s.delivered| <= |answered| == |Replies(h, s.handled)|
            && s.client.sentq == answered[|s.delivered|..] + Acked(asked[|s.handled|..])
  {
    hide Asked, FramesFor, Acked, Replies, InTransit;
    HandledPart(h, Asked(s.client), s.handled);
  }

  // A reply made before the last request stays as it was.
  lemma EarlierReply(h: Handler, fs: seq<Frame>, k: nat, j: nat)
    requires k < |fs| - 1 && j < |Replies(h, fs[..|fs| - 1])|
    requires Replies(h, fs[..|fs| - 1])[j] == Frame(REPLY, h(fs[..|fs| - 1][..k + 1]))
    ensures j < |Replies(h, fs)| && Replies(h, fs)[j] == Frame(REPLY, h(fs[..k + 1]))
  {
    TakeTwice(fs, |fs| - 1, k + 1);
  }

  lemma LastReply(h: Handler, fs: seq<Frame>)
    requires fs != [] && fs[|fs| - 1].code == SEND_ACK
    ensures Replies(h, fs) != []
    ensures |Replies(h, fs)| - 1 == |Replies(h, fs[..|fs| - 1])|
    ensures Replies(h, fs)[|Replies(h, fs)| - 1] == Frame(REPLY, h(fs[..|fs|]))
  {
    assert fs[..|fs|] == fs;
  }

  lemma FramesPrefix(ms: seq<Msg>, n: nat)
    requires n <= |ms|
    ensures FramesFor(ms)[..n] == FramesFor(ms[..n])
  {
  }

  lemma AckedLast(ms: seq<Msg>)
    ensures if ms == [] then Acked(ms) == []
            else
              var n := |ms| - 1;
              Acked(ms) == Acked(ms[..n]) + if ms[n].code == SEND_ACK then [ms[n]] else []
  {
  }

  // The last message, and those before it, of which one is the j-th to want a reply.
  lemma AckedEarlier(ms: seq<Msg>, j: nat)
    requires j < |Acked(ms)|
    ensures ms != []
    ensures var n := |ms| - 1;
            if j < |Acked(ms[..n])| then Acked(ms)[j] == Acked(ms[..n])[j]
            else Acked(ms)[j] == ms[n] && ms[n].code == SEND_ACK && j == |Acked(ms[..n])|
  {
    hide Acked;
    assert ms != [] by { AckedLast(ms); }
    AckedLast(ms);
  }

  /* The j-th reply is the handler's answer to the j-th message that wants one, after all handled before it;
     the result is the place of that message. */
  lemma {:induction false} ReplyAt(h: Handler, ms: seq<Msg>, j: nat) returns (k: nat)
    requires j < |Acked(ms)|
    ensures k < |ms| && ms[k] == Acked(ms)[j] && ms[k].code == SEND_ACK
    ensures j < |Replies(h, FramesFor(ms))|
    ensures Replies(h, FramesFor(ms))[j] == Frame(REPLY, h(FramesFor(ms)[..k + 1]))
  {
    AckedEarlier(ms, j);
    var n := |ms| - 1;
    hide Acked, Replies, FramesFor;
    RepliesCount(h, ms[..n]);
    FramesPrefix(ms, n);
    if j < |Acked(ms[..n])| {
      k := ReplyAt(h, ms[..n], j);
      EarlierReply(h, FramesFor(ms), k, j);
    } else {
      k := n;
      LastReply(h, FramesFor(ms));
    }
  }

  // The owner of the j-th reply, among all that was asked.
  lemma OwnAnswer(h: Handler, asked: seq<Msg>, handled: seq<Frame>, j: nat) returns (k: nat)
    requires handled <= FramesFor(asked) && j < |Replies(h, handled)|
    ensures j < |Acked(asked)|
    ensures k < |handled| && asked[k] == Acked(asked)[j] && asked[k].code == SEND_ACK
    ensures Replies(h, handled)[j].payload == h(handled[..k + 1])
  {
    var first := asked[..|handled|];
    hide FramesFor, Replies, Acked;
    HandledPart(h, asked, handled);
    k := ReplyAt(h, first, j);
  }

  // Each callback that ran got the handler's answer to its own request.
  lemma OwnReply(h: Handler, s: Sys, j: nat)
    requires Matched(h, s) && j < |s.delivered|
    ensures var asked := Asked(s.client);
            exists k :: 0 <= k < |s.handled| && asked[k] == s.delivered[j].msg && asked[k].code == SEND_ACK
                        && s.delivered[j].payload == h(s.handled[..k + 1])
  {
    hide Asked, FramesFor, Replies, Acked, InTransit;
    var k := OwnAnswer(h, Asked(s.client), s.handled, j);
  }
}
