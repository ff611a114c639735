/** Calls over the wire: each callback of the asynchronous client reads what the handler answered to its call. */
module Calls {
  import opened Prelude
  import opened Bytes
  import opened Framing
  import opened Rpc
  import opened Marshal
  import opened Messages

  /* The stub answers the last request; what earlier ones did to the module is in the handler.  An answer that
     no parcel can hold is not followed further. */
  function Answering(handles: seq<Frame> -> Handle): Handler {
    (handled: seq<Frame>) =>
      if handled == [] then [] else Fitting(AnswerTo(handles(handled), handled[|handled| - 1].payload))
  }

  function Fitting(bytes: seq<Byte>): Payload { if Receivable(|bytes|) then bytes else [] }

  function AnswerTo(handle: Handle, request: seq<Byte>): seq<Byte> { ReplyBytes(Reply(handle, StubCall(request))) }

  // What the callback makes of the payload it is given.
  function Reads(payload: seq<Byte>): Read { ReadArgs(REPLY_FORMAT, payload, 0) }

  // The call as the handler gets it.
  function CallMade(r: Request): Call { CallFor(Delivered(r)) }

  // The handler's result, and its text if the caller has room for one.
  ghost predicate Tells(reply: Read, handle: Handle, r: Request) {
    && reply.ok
    && reply.values == [Num(handle(CallMade(r)).ret),
                        Text(if r.len > 0 then Normal(handle(CallMade(r)).response) else None)]
  }

  lemma AnswerRead(handle: Handle, r: Request)
    requires IsModule(r.id) && Receivable(|AnswerTo(handle, RequestBytes(r))|)
    ensures Tells(Reads(Fitting(AnswerTo(handle, RequestBytes(r)))), handle, r)
  {
    hide ReadArgs, ReplyBytes, Reply, StubCall, RequestBytes, CallFor, Delivered;
    CallRoundTrip(r, handle);
  }

  /* The callback of a call reads the handler's answer to that very call, made after all that was handled
     before it: in whatever way requests, replies and their pieces interleave. */
  lemma EachReadsItsOwn(handles: seq<Frame> -> Handle, s: Sys, j: nat, r: Request) returns (k: nat)
    requires Matched(Answering(handles), s) && j < |s.delivered|
    requires IsModule(r.id) && s.delivered[j].msg.payload == RequestBytes(r)
    ensures k < |s.handled| <= |Asked(s.client)| && Asked(s.client)[k] == s.delivered[j].msg
    ensures var handle := handles(s.handled[..k + 1]);
            Receivable(|AnswerTo(handle, RequestBytes(r))|) ==> Tells(Reads(s.delivered[j].payload), handle, r)
  {
    hide RequestBytes, AnswerTo, Reads, Tells, Replies, Acked, Asked, InTransit, Fitting;
    var h := Answering(handles);
    k := OwnAnswer(h, Asked(s.client), s.handled, j);
    var first := s.handled[..k + 1];
    assert first[|first| - 1] == s.handled[k] == FrameFor(Asked(s.client)[k]);
    assert s.delivered[j].payload == Fitting(AnswerTo(handles(first), RequestBytes(r)));
    if Receivable(|AnswerTo(handles(first), RequestBytes(r))|) {
      AnswerRead(handles(first), r);
    }
  }

  // So it is in every run that leaves no connection with a request outstanding.
  lemma CallsAnswered(handles: seq<Frame> -> Handle, names: seq<string>, es: seq<SysEvent>, j: nat, r: Request)
    returns (k: nat)
    requires names != [] && SysLegalRun(Answering(handles), Begin(names), es)
    requires j < |SysRun(Answering(handles), Begin(names), es).delivered| && IsModule(r.id)
    requires SysRun(Answering(handles), Begin(names), es).delivered[j].msg.payload == RequestBytes(r)
    ensures var s := SysRun(Answering(handles), Begin(names), es);
            && k < |s.handled| <= |Asked(s.client)| && Asked(s.client)[k] == s.delivered[j].msg
            && (Receivable(|AnswerTo(handles(s.handled[..k + 1]), RequestBytes(r))|) ==>
                  Tells(Reads(s.delivered[j].payload), handles(s.handled[..k + 1]), r))
  {
    hide Matched, RequestBytes, AnswerTo, Reads, Tells, SysRun, SysLegalRun;
    RepliesMatch(Answering(handles), names, es);
    k := EachReadsItsOwn(handles, SysRun(Answering(handles), Begin(names), es), j, r);
  }
}
