/** Sending a parcel, and the server that receives requests and answers them, one after the other. */
module Transmit {
  import opened Prelude
  import opened Bytes
  import opened Framing
  import opened Parcels
  import opened Receivers
  import opened UvSpec
  import opened Rpc

  // What a new code changes: the code alone; the code and the length come before the payload.
  lemma Coded(was: seq<Byte>, after: seq<Byte>, code: nat, len: nat)
    requires code < Span(4) && HEADER + len <= |was| && FromLe(was[4..8]) == len
    requires after == was[..0] + Le(code, 4) + was[4..]
    ensures |after| == |was| && FromLe(after[..4]) == code && after[4..8] == was[4..8]
    ensures after[HEADER..HEADER + len] == was[HEADER..HEADER + len]
    ensures after[..HEADER + len] == Encode(Frame(code, was[HEADER..HEADER + len]))
  {
    LeExact(code, 4);
    FromLeInverse(was[4..8]);
    var n := HEADER + len;
    EncodeIs(code, was[HEADER..n]);
    hide Le, FromLe, Span, Encode;
    Replaced(was, after, Le(code, 4), n);
    ThreeCuts(after, 4, 8, n);
  }

  lemma EncodeIs(code: nat, p: seq<Byte>)
    ensures Encode(Frame(code, p)) == Le(code, 4) + Le(|p|, 4) + p
  {
  }

  // What a new beginning of the same length leaves.
  lemma Replaced(was: seq<Byte>, after: seq<Byte>, head: seq<Byte>, n: nat)
    requires |head| == 4 && 8 <= n <= |was| && after == was[..0] + head + was[4..]
    ensures after[..4] == head && after[4..8] == was[4..8] && after[8..n] == was[8..n]
  {
  }

  lemma CodeSlice(c: array<Byte>, n: nat)
    requires n <= c.Length
    ensures c[..n] == c[..][..n]
  {
  }

  method SetCode(p: Parcel, code: nat)
    requires p.Filled() && code < Span(4)
    modifies p.chunk
    ensures p.Filled() && p.Code() == code && p.Payload() == old(p.Payload())
    ensures p.chunk[..HEADER + p.Len()] == Encode(Frame(code, p.Payload()))
  {
    ghost var was, len := p.chunk[..], p.Len();
    p.SliceOf(p.chunk, len);
    hide Le, FromLe, Span, Encode;
    p.Write(0, Le(code, 4));
    Coded(was, p.chunk[..], code, len);
    p.SliceOf(p.chunk, len);
    CodeSlice(p.chunk, HEADER + len);
  }

  /* The loop of writes: all bytes, or a beginning of them and an error, which only happens when the socket
     takes no more; each write that it takes moves at least one byte. */
  method SendAll(sock: Socket, bytes: seq<Byte>) returns (ret: int)
    modifies sock`outbound, sock`grants
    ensures ret == 0 ==> sock.outbound == old(sock.outbound) + bytes
    ensures ret != 0 ==> ret == -EAGAIN && PartSent(old(sock.outbound), bytes, sock.outbound) && sock.grants == []
    ensures |sock.grants| <= |old(sock.grants)| <= |sock.grants| + |bytes|
    ensures ret != 0 ==> |old(sock.grants)| < |bytes|
  {
    hide PartSent;
    var sent := 0;
    ghost var before := sock.outbound;
    assert before + bytes[..0] == before;
    while sent < |bytes|
      invariant 0 <= sent <= |bytes|
      invariant sock.outbound == before + bytes[..sent]
      invariant |sock.grants| <= |old(sock.grants)| <= |sock.grants| + sent
    {
      var n := sock.Send(bytes[sent..]);
      if n < 0 {
        Part(before, bytes, sent);
        return -EAGAIN;
      }
      SentMore(before, bytes, sent, n);
      sent := sent + n;
    }
    assert bytes[..|bytes|] == bytes;
    ret := 0;
  }

  // A beginning of the bytes, but not all of them.
  ghost predicate PartSent(before: seq<Byte>, bytes: seq<Byte>, after: seq<Byte>) {
    exists k :: 0 <= k < |bytes| && after == before + bytes[..k]
  }

  lemma Part(before: seq<Byte>, bytes: seq<Byte>, k: nat)
    requires k < |bytes|
    ensures PartSent(before, bytes, before + bytes[..k])
  {
  }

  /* media_parcel_send: all of the parcel, in as many writes as it takes, or a beginning of it and an error. */
  method Send(p: Parcel, sock: Socket, code: nat) returns (ret: int)
    requires p.Filled() && code < Span(4)
    modifies p.chunk, sock`outbound, sock`grants
    ensures p.Filled() && p.Code() == code && p.Payload() == old(p.Payload())
    ensures var bytes := Encode(Frame(code, p.Payload()));
            if ret == 0 then sock.outbound == old(sock.outbound) + bytes
            else ret == -EAGAIN && PartSent(old(sock.outbound), bytes, sock.outbound)
    ensures ret != 0 ==> sock.grants == [] && |old(sock.grants)| < |Encode(Frame(code, p.Payload()))|
    ensures |sock.grants| <= |old(sock.grants)| <= |sock.grants| + |Encode(Frame(code, p.Payload()))|
  {
    hide Le, FromLe, Span, Encode, PartSent;
    SetCode(p, code);
    ret := SendAll(sock, p.chunk[..HEADER + p.Len()]);
  }

  lemma SentMore(before: seq<Byte>, bytes: seq<Byte>, k: nat, n: nat)
    requires k + n <= |bytes|
    ensures before + bytes[..k] + bytes[k..][..n] == before + bytes[..k + n]
  {
    assert bytes[..k + n] == bytes[..k] + bytes[k..][..n];
    AppendTwice(before, bytes[..k], bytes[k..][..n]);
  }

  // ---------- The server's end of a connection ----------

  // The replies that further requests lead to.
  function NewReplies(h: Handler, handled: seq<Frame>, more: seq<Frame>): seq<Frame> {
    if more == [] then []
    else
      var n := |more| - 1;
      NewReplies(h, handled, more[..n]) + if more[n].code == SEND_ACK then [Frame(REPLY, h(handled + more))] else []
  }

  // Answering request by request gives the replies to all of them.
  lemma {:induction false} RepliesInTurn(h: Handler, handled: seq<Frame>, more: seq<Frame>)
    ensures Replies(h, handled + more) == Replies(h, handled) + NewReplies(h, handled, more)
  {
    if more == [] {
      assert handled + more == handled;
    } else {
      var n := |more| - 1;
      RepliesInTurn(h, handled, more[..n]);
      ButLast(handled, more);
      AppendTwice(Replies(h, handled), NewReplies(h, handled, more[..n]),
                  if more[n].code == SEND_ACK then [Frame(REPLY, h(handled + more))] else []);
    }
  }

  // So what the loop below writes is what the server's step of the whole system puts on the stream.
  lemma ServerStepAnswers(h: Handler, s: Sys, n: nat)
    requires SysEnabled(s, ServerReads(n))
    ensures var d := Feed(s.serverGot, s.toServer[..n]);
            && SysStep(h, s, ServerReads(n)).handled == s.handled + d.frames
            && SysStep(h, s, ServerReads(n)).toClient
               == s.toClient + EncodeAll(NewReplies(h, s.handled, d.frames))
  {
    var d := Feed(s.serverGot, s.toServer[..n]);
    RepliesInTurn(h, s.handled, d.frames);
    var sent := Replies(h, s.handled);
    hide Replies, Feed, EncodeAll;
    assert (sent + NewReplies(h, s.handled, d.frames))[|sent|..] == NewReplies(h, s.handled, d.frames);
  }

  lemma EncodeOne(fs: seq<Frame>, f: Frame)
    ensures EncodeAll(fs + [f]) == EncodeAll(fs) + Encode(f)
  {
    EncodeAllJoin(fs, [f]);
    assert EncodeAll([f]) == Encode(f) + EncodeAll([f][1..]) == Encode(f);
  }

  // What an answer to the last request puts on the stream.
  function ReplyTo(h: Handler, all: seq<Frame>): seq<Byte>
    requires all != []
  {
    if all[|all| - 1].code == SEND_ACK then Encode(Frame(REPLY, h(all))) else []
  }

  // One more request handled: its answer comes after the others.
  lemma OneMoreReply(h: Handler, handled: seq<Frame>, more: seq<Frame>, f: Frame)
    ensures handled + (more + [f]) == handled + more + [f]
    ensures EncodeAll(NewReplies(h, handled, more + [f]))
            == EncodeAll(NewReplies(h, handled, more)) + ReplyTo(h, handled + more + [f])
  {
    AppendTwice(handled, more, [f]);
    assert (more + [f])[..|more|] == more;
    var before := NewReplies(h, handled, more);
    hide EncodeAll, Encode;
    if f.code == SEND_ACK {
      EncodeOne(before, Frame(REPLY, h(handled + more + [f])));
    } else {
      assert before + [] == before && EncodeAll(before) + [] == EncodeAll(before);
    }
  }

  /* These bytes were sent, or the socket took too few writes: each write it took moved at least one byte, and
     it takes no more. */
  ghost predicate Sent(before: seq<Byte>, grants: nat, bytes: seq<Byte>, after: seq<Byte>, left: nat) {
    && left <= grants <= left + |bytes|
    && (after == before + bytes || (left == 0 && grants < |bytes|))
  }

  // Sending on, whatever became of the bytes before.
  lemma SentBoth(before: seq<Byte>, grants: nat, a: seq<Byte>, mid: seq<Byte>, left: nat, b: seq<Byte>,
                 after: seq<Byte>, last: nat)
    requires Sent(before, grants, a, mid, left) && Sent(mid, left, b, after, last)
    ensures Sent(before, grants, a + b, after, last)
  {
    AppendTwice(before, a, b);
  }

  // Room for a reply can always be had.
  lemma ReplyFits(p: Payload)
    ensures Allocatable(Appended(FRESH, |p|).cap)
  {
  }

  // One request that has come in: the handler is told, and its answer sent if one is wanted.
  method Dispatch(sock: Socket, h: Handler, all: seq<Frame>)
    requires all != []
    modifies sock`outbound, sock`grants
    ensures Sent(old(sock.outbound), |old(sock.grants)|, ReplyTo(h, all), sock.outbound, |sock.grants|)
  {
    if all[|all| - 1].code == SEND_ACK {
      SpanValues();
      hide Encode;
      ReplyFits(h(all));
      var ack := new Parcel();
      var ret := ack.Append(h(all));
      assert ack.Payload() == [] + h(all) == h(all);
      ret := Send(ack, sock, REPLY);
    } else {
      assert sock.outbound + [] == sock.outbound;
    }
  }

  // The next request, if all of it is there.
  method ReceiveOne(p: Parcel, sock: Socket, start: nat, h: Handler, all: seq<Frame>)
    returns (ret: int, offset: nat, now: seq<Frame>, ghost bytes: seq<Byte>)
    requires Receiving(p, start) && sock.Valid()
    modifies p, p.chunk, sock`inbound, sock`outbound, sock`grants
    ensures sock.Valid() && Join(old(sock.inbound)) == bytes + Join(sock.inbound)
    ensures p.chunk == old(p.chunk) || fresh(p.chunk)
    ensures ret == 0 || ret == -EAGAIN || ret == -EPIPE || ret == -ENOMEM
    ensures ret == 0 ==>
              && now != [] && now == all + [now[|now| - 1]] && bytes != []
              && Feed(old(Got(p, start)), bytes) == Decoded([now[|now| - 1]], [])
              && Receiving(p, offset) && Got(p, offset) == []
              && Sent(old(sock.outbound), |old(sock.grants)|, ReplyTo(h, now), sock.outbound, |sock.grants|)
    ensures ret != 0 ==> now == all && sock.outbound == old(sock.outbound) && sock.grants == old(sock.grants)
    ensures ret == -EAGAIN || ret == -EPIPE ==>
              && sock.inbound == [] && (ret == -EPIPE <==> sock.hungUp)
              && Receiving(p, offset) && Feed(old(Got(p, start)), bytes) == Decoded([], Got(p, offset))
  {
    hide Feed, Complete, Le, FromLe, Span, Encode, Open, Want, Join, Target, Sent, ReplyTo;
    FeedEmpty(Got(p, start));
    now := all;
    ret, offset, bytes := Recv(p, sock, start);
    if ret < 0 {
      return;
    }
    var f := FrameOf(p.chunk[..offset]);
    now := all + [f];
    Dispatch(sock, h, now);
    p.Reinit();
    ret, offset := 0, 0;
    ReceivingAfresh(p);
  }

  /* media_server_receive: takes one frame after the other off the socket until there is no more, and answers
     each that wants an answer before it takes the next.  `all` is what was handled on this connection so far. */
  method Receive(p: Parcel, sock: Socket, start: nat, h: Handler, handled: seq<Frame>)
    returns (ret: int, offset: nat, all: seq<Frame>, ghost bytes: seq<Byte>)
    requires Receiving(p, start) && sock.Valid()
    modifies p, p.chunk, sock`inbound, sock`outbound, sock`grants
    ensures sock.Valid() && Join(old(sock.inbound)) == bytes + Join(sock.inbound)
    ensures ret == -EAGAIN || ret == -EPIPE || ret == -ENOMEM
    ensures handled <= all
    ensures ret != -ENOMEM ==>
              var d := Feed(old(Got(p, start)), bytes);
              && sock.inbound == [] && (ret == -EPIPE <==> sock.hungUp)
              && Receiving(p, offset) && Got(p, offset) == d.got
              && all == handled + d.frames
    ensures Sent(old(sock.outbound), |old(sock.grants)|, EncodeAll(NewReplies(h, handled, all[|handled|..])),
                 sock.outbound, |sock.grants|)
  {
    ghost var got, out, grants, frames := Got(p, start), sock.outbound, |sock.grants|, [];
    offset, all, bytes := start, handled, [];
    FeedEmpty(got);
    assert handled + frames == handled && out + [] == out;
    hide Feed, EncodeAll, NewReplies, Encode, Receiving, Join, Sent, ReplyTo;
    while true
      invariant sock.Valid() && Join(old(sock.inbound)) == bytes + Join(sock.inbound)
      invariant Receiving(p, offset) && (p.chunk == old(p.chunk) || fresh(p.chunk))
      invariant Feed(got, bytes) == Decoded(frames, Got(p, offset)) && all == handled + frames
      invariant Sent(out, grants, EncodeAll(NewReplies(h, handled, frames)), sock.outbound, |sock.grants|)
      decreases |Join(sock.inbound)|
    {
      ghost var more, had, mid, left := [], all, sock.outbound, |sock.grants|;
      ret, offset, all, more := ReceiveOne(p, sock, offset, h, all);
      AppendTwice(bytes, more, Join(sock.inbound));
      FeedSplit(got, bytes, more);
      bytes := bytes + more;
      if ret < 0 {
        assert frames + [] == frames && all[|handled|..] == frames;
        return;
      }
      ghost var f := all[|all| - 1];
      OneMoreReply(h, handled, frames, f);
      SentBoth(out, grants, EncodeAll(NewReplies(h, handled, frames)), mid, left, ReplyTo(h, all),
               sock.outbound, |sock.grants|);
      frames := frames + [f];
    }
  }
}
