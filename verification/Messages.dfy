/** The messages between a client and the modules of the server: requests, replies and events. */
module Messages {
  import opened Prelude
  import opened Words
  import opened Bytes
  import opened Framing
  import opened Marshal
  import opened Parcels
  import opened Scan

  const MEDIA_ID_GRAPH := 1
  const MEDIA_ID_POLICY := 2
  const MEDIA_ID_PLAYER := 3
  const MEDIA_ID_RECORDER := 4
  const MEDIA_ID_SESSION := 5
  const MEDIA_ID_FOCUS := 6

  predicate IsModule(id: int) { MEDIA_ID_GRAPH <= id <= MEDIA_ID_FOCUS }

  // ---------- The client's half ----------

  datatype Request = Request(id: Int32, target: Option<CString>, cmd: Option<CString>, arg: Option<CString>,
                             apply: Int32, len: Int32)

  function ClientFormat(id: int): string
    requires IsModule(id)
  {
    if id == MEDIA_ID_FOCUS then "%i%s%s%i"
    else if id == MEDIA_ID_POLICY then "%i%s%s%s%i%i"
    else "%i%s%s%s%i"
  }

  function ClientArgs(r: Request): seq<Arg>
    requires IsModule(r.id)
  {
    if r.id == MEDIA_ID_FOCUS then [Num(r.id), Text(r.target), Text(r.cmd), Num(r.len)]
    else if r.id == MEDIA_ID_POLICY then
      [Num(r.id), Text(r.target), Text(r.cmd), Text(r.arg), Num(r.apply), Num(r.len)]
    else [Num(r.id), Text(r.target), Text(r.cmd), Text(r.arg), Num(r.len)]
  }

  // ---------- The server's half ----------

  // What a module's handler is given.
  datatype Call = Call(id: int, target: Option<CString>, cmd: Option<CString>, arg: Option<CString>,
                       flags: int, len: int)

  // A handler's result, and the text it put into the buffer it was given.
  datatype Answer = Answer(ret: Int32, response: Option<CString>)

  type Handle = Call -> Answer

  function ServerFormat(id: int): string
    requires IsModule(id)
  {
    if id == MEDIA_ID_FOCUS then "%s%s%i"
    else if id == MEDIA_ID_POLICY then "%s%s%s%i%i"
    else "%s%s%s%i"
  }

  // A variable keeps its first value, null or zero, when reading stopped before it.
  function TextAt(values: seq<Arg>, k: nat): Option<CString> {
    if k < |values| && values[k].Text? then values[k].text else None
  }

  function NumAt(values: seq<Arg>, k: nat): int {
    if k < |values| && values[k].Num? then values[k].value else 0
  }

  function CallOf(id: int, v: seq<Arg>): Call
    requires IsModule(id)
  {
    if id == MEDIA_ID_FOCUS then Call(id, TextAt(v, 0), TextAt(v, 1), None, 0, NumAt(v, 2))
    else if id == MEDIA_ID_POLICY then Call(id, TextAt(v, 0), TextAt(v, 1), TextAt(v, 2), NumAt(v, 3), NumAt(v, 4))
    else Call(id, TextAt(v, 0), TextAt(v, 1), TextAt(v, 2), 0, NumAt(v, 3))
  }

  // What the stub makes of any bytes at all.
  function StubCall(buf: seq<Byte>): Call {
    var head := ReadOne('i', buf, 0);
    var id := if head.value.Some? then NumAt([head.value.value], 0) else 0;
    if IsModule(id) then CallOf(id, ReadArgs(ServerFormat(id), buf, head.next).values)
    else Call(id, None, None, None, 0, 0)
  }

  // There is only a buffer for a response if the client has room for one.
  function Reply(handle: Handle, call: Call): (a: Answer) {
    if !IsModule(call.id) then Answer(-ENOSYS, None)
    else Answer(handle(call).ret, if call.len > 0 then handle(call).response else None)
  }

  const REPLY_FORMAT := "%i%s"
  const EVENT_FORMAT := "%i%i%s"

  function ReplyArgs(a: Answer): seq<Arg> { [Num(a.ret), Text(a.response)] }

  // ---------- Formats, one conversion at a time ----------

  predicate Fits(v: int) { -0x8000_0000 <= v < 0x8000_0000 }

  // Written by this format, the arguments are seen as these values on the other side.
  ghost predicate Carries(fmt: string, args: seq<Arg>, values: seq<Arg>) {
    Matches(fmt, args) && SeenAll(fmt, args) == values
  }

  lemma Prepend(c: char, fmt: string, a: Arg, args: seq<Arg>, values: seq<Arg>)
    requires Known(c) && Takes(c, a) && Carries(fmt, args, values)
    ensures Carries("%" + [c] + fmt, [a] + args, [Seen(c, a)] + values)
    ensures EncodeArgs("%" + [c] + fmt, [a] + args) == EncodeArg(c, a) + EncodeArgs(fmt, args)
  {
    var whole := "%" + [c] + fmt;
    assert whole[1..] == [c] + fmt && ([c] + fmt)[1..] == fmt;
    assert ([a] + args)[1..] == args && ([a] + args)[0] == a;
  }

  lemma PrependNum(fmt: string, v: int, args: seq<Arg>, values: seq<Arg>)
    requires Fits(v) && Carries(fmt, args, values)
    ensures Carries("%i" + fmt, [Num(v)] + args, [Num(v)] + values)
    ensures EncodeArgs("%i" + fmt, [Num(v)] + args) == EncodeArg('i', Num(v)) + EncodeArgs(fmt, args)
  {
    SpanValues();
    Prepend('i', fmt, Num(v), args, values);
    SeenExactly('i', Num(v));
    assert "%" + ['i'] + fmt == "%i" + fmt;
  }

  // Empty text arrives as none.
  function Normal(text: Option<CString>): Option<CString> { if Chars(text) == [] then None else text }

  lemma PrependText(fmt: string, t: Option<CString>, args: seq<Arg>, values: seq<Arg>)
    requires Carries(fmt, args, values)
    ensures Carries("%s" + fmt, [Text(t)] + args, [Text(Normal(t))] + values)
  {
    Prepend('s', fmt, Text(t), args, values);
    assert "%" + ['s'] + fmt == "%s" + fmt;
  }

  lemma NumOnly(v: int)
    requires Fits(v)
    ensures Carries("%i", [Num(v)], [Num(v)]) && EncodeArgs("%i", [Num(v)]) == EncodeArg('i', Num(v))
  {
    PrependNum("", v, [], []);
    assert "%i" + "" == "%i" && [Num(v)] + [] == [Num(v)];
    assert EncodeArg('i', Num(v)) + [] == EncodeArg('i', Num(v));
  }

  lemma TextOnly(t: Option<CString>)
    ensures Carries("%s", [Text(t)], [Text(Normal(t))])
  {
    PrependText("", t, [], []);
    assert "%s" + "" == "%s" && [Text(t)] + [] == [Text(t)] && [Text(Normal(t))] + [] == [Text(Normal(t))];
  }

  lemma ReplyMatches(a: Answer)
    ensures Carries(REPLY_FORMAT, ReplyArgs(a), [Num(a.ret), Text(Normal(a.response))])
  {
    var t := a.response;
    TextOnly(t);
    PrependNum("%s", a.ret, [Text(t)], [Text(Normal(t))]);
    assert "%i" + "%s" == "%i%s";
    assert [Num(a.ret)] + [Text(t)] == [Num(a.ret), Text(t)];
    assert [Num(a.ret)] + [Text(Normal(t))] == [Num(a.ret), Text(Normal(t))];
  }

  function EventArgs(event: Int32, result: Int32, extra: Option<CString>): seq<Arg> {
    [Num(event), Num(result), Text(extra)]
  }

  lemma EventMatches(event: Int32, result: Int32, extra: Option<CString>)
    ensures Carries(EVENT_FORMAT, EventArgs(event, result, extra), [Num(event), Num(result), Text(Normal(extra))])
  {
    ReplyMatches(Answer(result, extra));
    PrependNum("%i%s", event, ReplyArgs(Answer(result, extra)), [Num(result), Text(Normal(extra))]);
    assert "%i" + "%i%s" == "%i%i%s";
    assert [Num(event)] + ReplyArgs(Answer(result, extra)) == EventArgs(event, result, extra);
    assert [Num(event)] + [Num(result), Text(Normal(extra))] == [Num(event), Num(result), Text(Normal(extra))];
  }

  // ---------- What the server reads of a request ----------

  // The arguments after the id, as client and server have them.
  function Fields(r: Request): seq<Arg> {
    if r.id == MEDIA_ID_FOCUS then [Text(r.target), Text(r.cmd), Num(r.len)]
    else if r.id == MEDIA_ID_POLICY then [Text(r.target), Text(r.cmd), Text(r.arg), Num(r.apply), Num(r.len)]
    else [Text(r.target), Text(r.cmd), Text(r.arg), Num(r.len)]
  }

  function Delivered(r: Request): Request {
    r.(target := Normal(r.target), cmd := Normal(r.cmd), arg := Normal(r.arg))
  }

  // Text put before what a shorter format carries.
  lemma TextBefore(fmt: string, whole: string, t: Option<CString>, args: seq<Arg>, values: seq<Arg>)
    requires Carries(fmt, args, values) && whole == "%s" + fmt
    ensures Carries(whole, [Text(t)] + args, [Text(Normal(t))] + values)
  {
    PrependText(fmt, t, args, values);
  }

  lemma TextNum(t: Option<CString>, v: int)
    requires Fits(v)
    ensures Carries("%s%i", [Text(t), Num(v)], [Text(Normal(t)), Num(v)])
  {
    NumOnly(v);
    TextBefore("%i", "%s%i", t, [Num(v)], [Num(v)]);
  }

  lemma TwoTextsNum(t: Option<CString>, u: Option<CString>, v: int)
    requires Fits(v)
    ensures Carries("%s%s%i", [Text(t), Text(u), Num(v)], [Text(Normal(t)), Text(Normal(u)), Num(v)])
  {
    TextNum(u, v);
    hide Carries, Normal;
    TextBefore("%s%i", "%s%s%i", t, [Text(u), Num(v)], [Text(Normal(u)), Num(v)]);
    assert [Text(t)] + [Text(u), Num(v)] == [Text(t), Text(u), Num(v)];
    assert [Text(Normal(t))] + [Text(Normal(u)), Num(v)] == [Text(Normal(t)), Text(Normal(u)), Num(v)];
  }

  lemma TextNumNum(t: Option<CString>, n: int, v: int)
    requires Fits(n) && Fits(v)
    ensures Carries("%s%i%i", [Text(t), Num(n), Num(v)], [Text(Normal(t)), Num(n), Num(v)])
  {
    NumOnly(v);
    hide Carries, Normal;
    PrependNum("%i", n, [Num(v)], [Num(v)]);
    assert "%i" + "%i" == "%i%i" && [Num(n)] + [Num(v)] == [Num(n), Num(v)];
    TextBefore("%i%i", "%s%i%i", t, [Num(n), Num(v)], [Num(n), Num(v)]);
    assert [Text(t)] + [Num(n), Num(v)] == [Text(t), Num(n), Num(v)];
    assert [Text(Normal(t))] + [Num(n), Num(v)] == [Text(Normal(t)), Num(n), Num(v)];
  }

  lemma FieldsMatch(r: Request)
    requires IsModule(r.id)
    ensures Carries(ServerFormat(r.id), Fields(r), Fields(Delivered(r)))
  {
    var d := Delivered(r);
    if r.id == MEDIA_ID_FOCUS {
      TwoTextsNum(r.target, r.cmd, r.len);
    } else if r.id == MEDIA_ID_POLICY {
      TextNumNum(r.arg, r.apply, r.len);
      hide Carries, Normal;
      var a, v := [Text(r.arg), Num(r.apply), Num(r.len)], [Text(d.arg), Num(r.apply), Num(r.len)];
      TextBefore("%s%i%i", "%s%s%i%i", r.cmd, a, v);
      TextBefore("%s%s%i%i", "%s%s%s%i%i", r.target, [Text(r.cmd)] + a, [Text(d.cmd)] + v);
      assert Fields(r) == [Text(r.target)] + ([Text(r.cmd)] + a) && Fields(d) == [Text(d.target)] + ([Text(d.cmd)] + v);
    } else {
      TwoTextsNum(r.cmd, r.arg, r.len);
      hide Carries, Normal;
      var a, v := [Text(r.cmd), Text(r.arg), Num(r.len)], [Text(d.cmd), Text(d.arg), Num(r.len)];
      TextBefore("%s%s%i", "%s%s%s%i", r.target, a, v);
      assert Fields(r) == [Text(r.target)] + a && Fields(d) == [Text(d.target)] + v;
    }
  }

  lemma FormatIs(id: int)
    requires IsModule(id)
    ensures ClientFormat(id) == "%i" + ServerFormat(id)
  {
  }

  lemma ArgsAre(r: Request)
    requires IsModule(r.id)
    ensures ClientArgs(r) == [Num(r.id)] + Fields(r)
  {
  }

  lemma CarriedMatches(fmt: string, args: seq<Arg>, values: seq<Arg>)
    requires Carries(fmt, args, values)
    ensures Matches(fmt, args) && SeenAll(fmt, args) == values
  {
  }

  lemma RequestMatches(r: Request)
    requires IsModule(r.id)
    ensures Matches(ClientFormat(r.id), ClientArgs(r)) && Matches(ServerFormat(r.id), Fields(r))
    ensures SeenAll(ServerFormat(r.id), Fields(r)) == Fields(Delivered(r))
    ensures EncodeArgs(ClientFormat(r.id), ClientArgs(r))
            == EncodeArg('i', Num(r.id)) + EncodeArgs(ServerFormat(r.id), Fields(r))
  {
    FieldsMatch(r);
    FormatIs(r.id);
    ArgsAre(r);
    hide *;
    CarriedMatches(ServerFormat(r.id), Fields(r), Fields(Delivered(r)));
    assert Fits(r.id) by { WordFits(r.id); }
    PrependNum(ServerFormat(r.id), r.id, Fields(r), Fields(Delivered(r)));
    CarriedMatches(ClientFormat(r.id), ClientArgs(r), [Num(r.id)] + Fields(Delivered(r)));
  }

  lemma WordFits(v: Int32)
    ensures Fits(v)
  {
  }

  function RequestBytes(r: Request): seq<Byte>
    requires IsModule(r.id)
  {
    RequestMatches(r);
    EncodeArgs(ClientFormat(r.id), ClientArgs(r))
  }

  lemma HeadRead(v: int, rest: seq<Byte>)
    requires Fits(v)
    ensures ReadOne('i', EncodeArg('i', Num(v)) + rest, 0) == Item(Some(Num(v)), |EncodeArg('i', Num(v))|)
  {
    SpanValues();
    SeenExactly('i', Num(v));
    var head := EncodeArg('i', Num(v));
    AtMiddle([], head, rest);
    assert [] + head + rest == head + rest;
    OneRoundTrip('i', Num(v), head + rest, 0);
  }

  // What the client's request is to a handler: each module takes the fields its own messages have.
  function CallFor(r: Request): Call {
    Call(r.id, r.target, r.cmd, if r.id == MEDIA_ID_FOCUS then None else r.arg,
         if r.id == MEDIA_ID_POLICY then r.apply else 0, r.len)
  }

  lemma CallOfFields(r: Request)
    requires IsModule(r.id)
    ensures CallOf(r.id, Fields(r)) == CallFor(r)
  {
  }

  // What the handler of each module is given is what the client passed, with empty text as none.
  lemma RequestArrives(r: Request)
    requires IsModule(r.id)
    ensures StubCall(RequestBytes(r)) == CallFor(Delivered(r))
    ensures var call := StubCall(RequestBytes(r));
            && call.id == r.id && call.len == r.len && call.target == Normal(r.target) && call.cmd == Normal(r.cmd)
            && call.arg == (if r.id == 6 then None else Normal(r.arg))
            && call.flags == (if r.id == 2 then r.apply else 0)
  {
    RequestMatches(r);
    CallOfFields(Delivered(r));
    var head, rest := EncodeArg('i', Num(r.id)), EncodeArgs(ServerFormat(r.id), Fields(r));
    hide EncodeArgs, ReadArgs, SeenAll, Matches, EncodeArg, ServerFormat, ClientFormat, ClientArgs, Fields, CallOf;
    HeadRead(r.id, rest);
    RoundTripWithin(ServerFormat(r.id), Fields(r), head, []);
    assert head + rest + [] == head + rest;
    hide ReadOne, CallFor;
  }

  // ---------- The reply ----------

  function ReplyBytes(a: Answer): seq<Byte> {
    ReplyMatches(a);
    EncodeArgs(REPLY_FORMAT, ReplyArgs(a))
  }

  lemma ReplyArrives(a: Answer)
    ensures ReadArgs(REPLY_FORMAT, ReplyBytes(a), 0)
            == Read([Num(a.ret), Text(Normal(a.response))], |ReplyBytes(a)|, true)
  {
    ReplyMatches(a);
    RoundTripWithin(REPLY_FORMAT, ReplyArgs(a), [], []);
    hide ReadArgs, EncodeArgs;
    assert [] + ReplyBytes(a) + [] == ReplyBytes(a);
  }

  lemma EventArrives(event: Int32, result: Int32, extra: Option<CString>)
    ensures Matches(EVENT_FORMAT, EventArgs(event, result, extra))
    ensures ReadArgs(EVENT_FORMAT, EncodeArgs(EVENT_FORMAT, EventArgs(event, result, extra)), 0).values
            == [Num(event), Num(result), Text(Normal(extra))]
  {
    EventMatches(event, result, extra);
    RoundTripWithin(EVENT_FORMAT, EventArgs(event, result, extra), [], []);
    hide ReadArgs, EncodeArgs;
    var bytes := EncodeArgs(EVENT_FORMAT, EventArgs(event, result, extra));
    assert [] + bytes + [] == bytes;
  }

  // From client to handler and back: the client reads what the handler answered to what the client asked.
  lemma CallRoundTrip(r: Request, handle: Handle)
    requires IsModule(r.id)
    ensures var call := CallFor(Delivered(r));
            var reply := ReadArgs(REPLY_FORMAT, ReplyBytes(Reply(handle, StubCall(RequestBytes(r)))), 0);
            && reply.ok
            && reply.values == [Num(handle(call).ret),
                                Text(if r.len > 0 then Normal(handle(call).response) else None)]
  {
    RequestArrives(r);
    ReplyArrives(Reply(handle, CallFor(Delivered(r))));
  }

  // ---------- The caller's buffer ----------

  // Left alone, filled with a text, or copied from null, of which nothing can be said.
  datatype Copied = Untouched | Filled(text: CString) | FromNull

  // strlcpy: a text is cut to leave room for the zero byte.
  function Cut(text: CString, size: nat): CString
    requires size > 0
  {
    if |text| < size then text else text[..size - 1]
  }

  function CopyOf(reply: Read, len: int): Copied {
    if !reply.ok || NumAt(reply.values, 0) < 0 || len <= 0 then Untouched
    else
      match TextAt(reply.values, 1)
      case None => FromNull
      case Some(text) => Filled(Cut(text, len))
  }

  /* What the caller finds in its buffer: nothing after an error or without room, else the handler's text; but
     an empty text arrives as null, and null is then copied from. */
  lemma BufferAfterCall(r: Request, handle: Handle)
    requires IsModule(r.id)
    ensures var answer := handle(CallFor(Delivered(r)));
            var res := CopyOf(ReadArgs(REPLY_FORMAT, ReplyBytes(Reply(handle, StubCall(RequestBytes(r)))), 0), r.len);
            && (res == Untouched <==> answer.ret < 0 || r.len <= 0)
            && (res == FromNull <==> answer.ret >= 0 && r.len > 0 && Chars(answer.response) == [])
            && (res.Filled? ==> res.text <= Chars(answer.response) && |res.text| < r.len)
            && (res.Filled? && |Chars(answer.response)| < r.len ==> Some(res.text) == answer.response)
            && (res.Filled? && |Chars(answer.response)| >= r.len ==> |res.text| == r.len - 1)
  {
    CallRoundTrip(r, handle);
    hide ReadArgs, ReplyBytes, Reply, StubCall, RequestBytes, CallFor, Delivered;
  }

  // ---------- The two ends ----------

  /* The request of media_proxy_once; an id that is no module's is refused. */
  method BuildRequest(r: Request, p: Parcel) returns (ret: int)
    requires p.Filled() && p.Payload() == []
    requires IsModule(r.id) ==> |RequestBytes(r)| < 0x1_0000_0000
    modifies p, p.chunk
    ensures p.Filled() && p.next == old(p.next) && (p.chunk == old(p.chunk) || fresh(p.chunk))
    ensures ret == -EINVAL <==> !IsModule(r.id)
    ensures ret == 0 ==> p.Payload() == RequestBytes(r)
    ensures ret == 0 || ret == -EINVAL || ret == -ENOMEM
    ensures IsModule(r.id) && old(Economical(p.Space())) && Receivable(|RequestBytes(r)|) ==> ret == 0
  {
    if !IsModule(r.id) {
      return -EINVAL;
    }
    RequestMatches(r);
    hide Economical, Receivable;
    assert [] + RequestBytes(r) == RequestBytes(r);
    ret := AppendVprintf(p, ClientFormat(r.id), ClientArgs(r));
  }

  // The id first, then what the messages of that module hold.
  method ReadCall(input: Parcel) returns (call: Call)
    requires Readable(input) && input.next == 0
    modifies input`next
    ensures Readable(input) && call == StubCall(input.Payload())
  {
    hide ReadArgs, Span, Le, FromLe;
    var ret, data := Copy(input, 4);
    var id := if ret == 0 then SignedLe(data) else 0;
    call := Call(id, None, None, None, 0, 0);
    if IsModule(id) {
      var values;
      ret, values := ReadVscanf(input, ServerFormat(id));
      call := CallOf(id, values);
    }
  }

  /* media_stub_onreceive.  A handler keeps within the response buffer it is given. */
  method OnReceive(input: Parcel, output: Parcel?, handle: Handle)
    requires Readable(input) && input.next == 0
    requires output != null ==> output.Filled() && output.Payload() == []
    requires output != null ==> output != input && output.chunk != input.chunk
    requires |ReplyBytes(Reply(handle, StubCall(input.Payload())))| < 0x1_0000_0000
    modifies input`next, output, if output != null then {output.chunk} else {}
    ensures Readable(input) && input.Payload() == old(input.Payload())
    ensures output != null ==>
              var bytes := ReplyBytes(Reply(handle, StubCall(input.Payload())));
              && output.Filled() && output.Payload() <= bytes
              && (old(Economical(output.Space())) && Receivable(|bytes|) ==> output.Payload() == bytes)
  {
    hide ReadArgs, EncodeArgs, StubCall, Economical, Receivable;
    var call := ReadCall(input);
    if output != null {
      var reply := Reply(handle, call);
      ReplyMatches(reply);
      assert [] + ReplyBytes(reply) == ReplyBytes(reply);
      var _ := AppendVprintf(output, REPLY_FORMAT, ReplyArgs(reply));
    }
  }

  /* What media_proxy_once makes of the reply: the handler's result, and its text if the result is no error and
     the caller has room for it. */
  method ReadReply(p: Parcel, len: int) returns (ret: int, res: Copied)
    requires Readable(p) && p.next == 0
    modifies p`next
    ensures var reply := ReadArgs(REPLY_FORMAT, p.Payload(), 0);
            && ret == (if reply.ok then NumAt(reply.values, 0) else -ENOSPC)
            && res == CopyOf(reply, len)
  {
    var values;
    ret, values := ReadVscanf(p, REPLY_FORMAT);
    res := Untouched;
    if ret < 0 {
      return;
    }
    ret := NumAt(values, 0);
    if ret >= 0 && len > 0 {
      var text := TextAt(values, 1);
      res := if text == None then FromNull else Filled(Cut(text.value, len));
    }
  }
}
