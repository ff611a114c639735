/** The three ways a parcel is received, each of which can stop anywhere and be resumed: from a socket,
    from a caller's buffer, and from the event loop. */
module Receivers {
  import opened Prelude
  import opened Words
  import opened Bytes
  import opened Framing
  import opened Parcels

  // ---------- The socket, as its environment sees it ----------

  /* A byte stream cut into pieces: a read gets at most one piece, an empty queue is a read that would
     block, or the end of the stream. */
  class Socket {
    var inbound: seq<seq<Byte>>
    var hungUp: bool
    var outbound: seq<Byte>
    var grants: seq<nat>      // how much each of the next writes may take; none is a write that fails

    ghost predicate Valid()
      reads this
    {
      forall i :: 0 <= i < |inbound| ==> inbound[i] != []
    }

    method Recv(n: nat) returns (ret: int, data: seq<Byte>)
      requires Valid() && n > 0
      modifies this`inbound
      ensures Valid()
      ensures ret == if old(inbound) != [] then |data| else if hungUp then 0 else -EAGAIN
      ensures old(inbound) != [] ==> 0 < |data| <= n
      ensures old(inbound) == [] ==> data == [] && inbound == []
      ensures Join(old(inbound)) == data + Join(inbound)
    {
      if inbound == [] {
        return if hungUp then 0 else -EAGAIN, [];
      }
      var head := inbound[0];
      if |head| <= n {
        inbound := inbound[1..];
        return |head|, head;
      }
      inbound := [head[n..]] + inbound[1..];
      assert inbound[1..] == old(inbound)[1..];
      assert head == head[..n] + head[n..];
      AppendTwice(head[..n], head[n..], Join(inbound[1..]));
      return n, head[..n];
    }

    // A write takes at least one byte, and not necessarily all.
    method Send(data: seq<Byte>) returns (ret: int)
      requires data != []
      modifies this`outbound, this`grants
      ensures ret == -EAGAIN <==> old(grants) == []
      ensures ret == -EAGAIN ==> unchanged(this)
      ensures ret != -EAGAIN ==> 0 < ret <= |data| && grants == old(grants)[1..]
      ensures ret > 0 ==> outbound == old(outbound) + data[..ret]
    {
      if grants == [] {
        return -EAGAIN;
      }
      ret := if 0 < grants[0] <= |data| then grants[0] else |data|;
      grants := grants[1..];
      outbound := outbound + data[..ret];
    }
  }

  // ---------- A parcel that is being received ----------

  // The bytes of the current frame.
  ghost function Got(p: Parcel, offset: nat): seq<Byte>
    requires offset <= p.chunk.Length
    reads p, p.chunk
  {
    p.chunk[..offset]
  }

  // Until the header is complete its last byte is still the zero that initialisation left.
  ghost predicate Receiving(p: Parcel, offset: nat)
    reads p, p.chunk
  {
    && p.Valid() && offset <= p.chunk.Length && Open(Got(p, offset))
    && (offset < HEADER ==> p.chunk[7] == 0 && p.cap == DATA_LEN)
    && (offset >= HEADER ==> p.Len() <= p.cap)
  }

  ghost predicate Received(p: Parcel, offset: nat)
    reads p, p.chunk
  {
    p.Filled() && offset <= p.chunk.Length && Complete(Got(p, offset))
  }

  lemma LenIsField(p: Parcel, offset: nat)
    requires HEADER <= offset <= p.chunk.Length
    ensures p.Len() == LengthField(Got(p, offset))
  {
    assert p.chunk[..offset][4..8] == p.chunk[4..8];
  }

  // A header whose last byte is zero announces less than 2^24 bytes.
  lemma {:induction false} TopByteZero(s: seq<Byte>)
    requires |s| == 4 && s[3] == 0
    ensures FromLe(s) < 0x100_0000
  {
    assert FromLe(s[3..]) == 0;
    assert s[2..][1..] == s[3..] && s[1..][1..] == s[2..];
    assert FromLe(s[2..]) < 0x100 && FromLe(s[1..]) < 0x1_0000;
  }

  lemma PartialHeader(p: Parcel, offset: nat)
    requires p.chunk.Length >= HEADER && p.chunk[7] == 0
    ensures p.Len() < 0x100_0000
  {
    assert p.chunk[4..8][3] == p.chunk[7];
    TopByteZero(p.chunk[4..8]);
  }

  /* Bytes arrive at the offset: they are stored, and a header that becomes complete makes room for twice
     its payload. */
  method Arrive(p: Parcel, offset: nat, data: seq<Byte>) returns (ret: int, after: nat)
    requires Receiving(p, offset) && |data| <= Want(Got(p, offset))
    modifies p, p.chunk
    ensures after == offset + |data| <= p.chunk.Length
    ensures p.chunk == old(p.chunk) || fresh(p.chunk)
    ensures Got(p, after) == old(Got(p, offset)) + data
    ensures p.next == old(p.next)
    ensures ret == 0 ==> if Complete(Got(p, after)) then Received(p, after) else Receiving(p, after)
    ensures ret != 0 ==> ret == -ENOMEM && after == HEADER && !Receivable(LengthField(Got(p, after)))
    ensures after == HEADER && |data| > 0 && !Receivable(LengthField(Got(p, after))) ==> ret == -ENOMEM
  {
    hide Feed, Le, FromLe, Span;
    ret := 0;
    ghost var got := Got(p, offset);
    ExtendHeader(got, data);
    FeedChunk(got, data);
    if offset >= HEADER {
      LenIsField(p, offset);
    }
    p.Write(offset, data);
    after := offset + |data|;
    assert Got(p, after) == got + data;
    if after == HEADER && |data| > 0 {
      LenIsField(p, after);
      ret := p.Grow(0, p.Len());
      assert Got(p, after) == p.chunk[..HEADER + 0];
    }
    if after >= HEADER {
      LenIsField(p, after);
    }
  }

  // What the decoder makes of bytes that did not complete the frame before.
  lemma FeedMore(got: seq<Byte>, a: seq<Byte>, b: seq<Byte>)
    requires Open(got) && Feed(got, a) == Decoded([], got + a)
    requires Open(got + a) && |b| <= Want(got + a)
    ensures Feed(got, a + b) == if Complete(got + (a + b)) then Decoded([FrameOf(got + (a + b))], [])
                                else Decoded([], got + (a + b))
  {
    FeedSplit(got, a, b);
    FeedChunk(got + a, b);
    AppendTwice(got, a, b);
  }

  lemma FeedEmpty(got: seq<Byte>)
    requires Open(got)
    ensures Feed(got, []) == Decoded([], got + []) && got + [] == got
  {
  }

  // ---------- From a socket ----------

  // One read of at most n bytes, and what its arrival leads to.
  method ReadSome(p: Parcel, sock: Socket, start: nat, n: nat) returns (ret: int, offset: nat, ghost data: seq<Byte>)
    requires Receiving(p, start) && sock.Valid() && n == Want(Got(p, start))
    modifies p, p.chunk, sock`inbound
    ensures sock.Valid() && Join(old(sock.inbound)) == data + Join(sock.inbound)
    ensures offset <= p.chunk.Length && Got(p, offset) == old(Got(p, start)) + data && |data| <= n
    ensures p.chunk == old(p.chunk) || fresh(p.chunk)
    ensures ret > 0 ==> data != [] && if Complete(Got(p, offset)) then Received(p, offset) else Receiving(p, offset)
    ensures ret == 0 || ret == -EAGAIN ==>
              data == [] && offset == start && Receiving(p, offset) && sock.inbound == [] && (ret == 0 <==> sock.hungUp)
    ensures ret < 0 && ret != -EAGAIN ==>
              ret == -ENOMEM && offset == HEADER && !Receivable(LengthField(Got(p, offset)))
  {
    var bytes;
    ret, bytes := sock.Recv(n);
    data := bytes;
    offset := start;
    if ret > 0 {
      hide Le, FromLe, Span, Join;
      var arrived;
      arrived, offset := Arrive(p, start, bytes);
      if arrived < 0 {
        ret := arrived;
      }
    } else {
      assert Got(p, offset) == old(Got(p, start)) + [];
    }
  }

  // The length a receiver keeps while it reads, against the frame so far.
  ghost predicate Target(p: Parcel, offset: nat, len: int)
    requires p.chunk.Length >= HEADER
    reads p, p.chunk
  {
    if offset < HEADER then len >= HEADER else len == HEADER + p.Len()
  }

  // A frame is complete exactly when the offset has reached the target.
  lemma TargetReached(p: Parcel, offset: nat, len: int)
    requires p.chunk.Length >= HEADER && offset <= p.chunk.Length && Target(p, offset, len)
    ensures Complete(Got(p, offset)) <==> offset == len
    ensures Open(Got(p, offset)) ==>
              Want(Got(p, offset)) == if offset < HEADER then HEADER - offset else len - offset
  {
    if offset >= HEADER {
      LenIsField(p, offset);
    }
  }

  // 8 + len in 32-bit arithmetic, as the code computes it, does not wrap for a parcel that is being received.
  lemma TargetOf(p: Parcel, offset: nat)
    requires Receiving(p, offset) || Received(p, offset)
    ensures p.chunk.Length >= HEADER && Target(p, offset, ToWord32(HEADER + p.Len()))
    ensures offset >= HEADER ==> ToWord32(HEADER + p.Len()) == HEADER + p.Len()
  {
    SpanValues();
    if offset < HEADER {
      if Complete(Got(p, offset)) {
        assert false;
      }
      PartialHeader(p, offset);
    }
  }

  /* media_parcel_recv: reads until the frame is complete, the socket has no more or has hung up, or room
     cannot be had.  `bytes` is what was read. */
  method Recv(p: Parcel, sock: Socket, start: nat) returns (ret: int, offset: nat, ghost bytes: seq<Byte>)
    requires Receiving(p, start) && sock.Valid()
    modifies p, p.chunk, sock`inbound
    ensures sock.Valid() && Join(old(sock.inbound)) == bytes + Join(sock.inbound)
    ensures offset <= p.chunk.Length && Got(p, offset) == old(Got(p, start)) + bytes
    ensures p.chunk == old(p.chunk) || fresh(p.chunk)
    ensures ret == 0 ==>
              Received(p, offset) && Feed(old(Got(p, start)), bytes) == Decoded([FrameOf(Got(p, offset))], [])
    ensures ret == -EAGAIN || ret == -EPIPE ==>
              Receiving(p, offset) && sock.inbound == [] && (ret == -EPIPE <==> sock.hungUp)
              && Feed(old(Got(p, start)), bytes) == Decoded([], Got(p, offset))
    ensures ret == -ENOMEM ==> offset == HEADER && !Receivable(LengthField(Got(p, offset)))
    ensures ret == 0 || ret == -EAGAIN || ret == -EPIPE || ret == -ENOMEM
  {
    ghost var got := Got(p, start);
    bytes := [];
    offset := start;
    TargetOf(p, start);
    TargetReached(p, start, ToWord32(HEADER + p.Len()));
    FeedEmpty(got);
    hide Le, FromLe, Span, Feed, Complete, Open, Want, Received;
    var len: int := ToWord32(HEADER + p.Len());
    while offset != len
      invariant sock.Valid() && Join(old(sock.inbound)) == bytes + Join(sock.inbound)
      invariant p.chunk.Length >= HEADER && offset <= p.chunk.Length && Got(p, offset) == got + bytes
      invariant p.chunk == old(p.chunk) || fresh(p.chunk)
      invariant Target(p, offset, len)
      invariant offset == len ==> Received(p, offset) && Feed(got, bytes) == Decoded([FrameOf(got + bytes)], [])
      invariant offset != len ==> Receiving(p, offset) && Feed(got, bytes) == Decoded([], got + bytes)
      decreases |Join(sock.inbound)|
    {
      var n := if offset < HEADER then HEADER - offset else len - offset;
      TargetReached(p, offset, len);
      ghost var data, had := [], got + bytes;
      var at := offset;
      ret, offset, data := ReadSome(p, sock, at, n);
      if ret == 0 {
        return -EPIPE, offset, bytes;
      }
      FeedMore(got, bytes, data);
      AppendTwice(bytes, data, Join(sock.inbound));
      AppendTwice(got, bytes, data);
      ExtendHeader(had, data);
      bytes := bytes + data;
      if ret < 0 {
        return ret, offset, bytes;
      }
      if offset == HEADER {
        TargetOf(p, offset);
        len := ToWord32(HEADER + p.Len());
      } else if offset > HEADER {
        LenIsField(p, offset);
      }
      TargetReached(p, offset, len);
    }
    ret := 0;
  }

  // ---------- From a caller's buffer ----------

  // media_parcel_recvfrom: takes what the frame still wants, or all of a shorter buffer; returns how much.
  method RecvFrom(p: Parcel, start: nat, buf: seq<Byte>) returns (ret: int, offset: nat)
    requires Receiving(p, start)
    modifies p, p.chunk
    ensures p.chunk == old(p.chunk) || fresh(p.chunk)
    ensures ret >= 0 ==>
              var used := if old(Want(Got(p, start))) <= |buf| then old(Want(Got(p, start))) else |buf|;
              && ret == used && offset == start + used <= p.chunk.Length
              && Got(p, offset) == old(Got(p, start)) + buf[..used]
              && (if Complete(Got(p, offset)) then Received(p, offset) else Receiving(p, offset))
              && Feed(old(Got(p, start)), buf[..used])
                 == (if Complete(Got(p, offset)) then Decoded([FrameOf(Got(p, offset))], [])
                     else Decoded([], Got(p, offset)))
    ensures ret < 0 ==>
              ret == -ENOMEM && offset == HEADER <= p.chunk.Length && !Receivable(LengthField(Got(p, offset)))
  {
    var expected: int;
    if start < HEADER {
      expected := HEADER - start;
    } else {
      LenIsField(p, start);
      expected := p.Len() + HEADER - start;
    }
    assert expected == Want(Got(p, start));
    var used := if expected <= |buf| then expected else |buf|;
    FeedChunk(Got(p, start), buf[..used]);
    hide Le, FromLe, Span, Feed;
    var arrived;
    arrived, offset := Arrive(p, start, buf[..used]);
    ret := if arrived < 0 then arrived else used;
  }

  // ---------- From the event loop ----------

  // How much room media_uv_alloc_cb offers, from the offset on.
  function RoomOffered(p: Parcel, offset: nat): int
    requires p.chunk.Length >= HEADER
    reads p, p.chunk
  {
    if offset < HEADER then HEADER - offset else HEADER + p.Len() - offset
  }

  lemma RoomIsWanted(p: Parcel, offset: nat)
    requires Receiving(p, offset)
    ensures RoomOffered(p, offset) == Want(Got(p, offset))
    ensures offset + RoomOffered(p, offset) <= p.chunk.Length
  {
    if offset >= HEADER {
      LenIsField(p, offset);
    }
  }

  /* media_uv_read_cb for a read that brought `data`: a frame that is complete is handed on and the parcel
     starts afresh. */
  method ReadCb(p: Parcel, start: nat, data: seq<Byte>) returns (ret: int, offset: nat, frame: Option<Frame>)
    requires Receiving(p, start) && |data| <= RoomOffered(p, start)
    modifies p, p.chunk
    ensures p.chunk == old(p.chunk) || fresh(p.chunk)
    ensures ret == 0 || ret == -ENOMEM
    ensures ret == 0 ==> Receiving(p, offset)
    ensures ret == 0 ==>
              var out := Feed(old(Got(p, start)), data);
              out == Decoded(if frame == None then [] else [frame.value], Got(p, offset))
    ensures ret != 0 ==>
              frame == None && |old(Got(p, start)) + data| == HEADER
              && !Receivable(LengthField(old(Got(p, start)) + data))
  {
    frame := None;
    RoomIsWanted(p, start);
    ghost var got := Got(p, start);
    FeedChunk(got, data);
    FeedEmpty(got);
    if data == [] {
      return 0, start, None;
    }
    ret, offset := Arrive(p, start, data);
    if ret < 0 {
      return;
    }
    TargetOf(p, offset);
    if offset >= HEADER {
      LenIsField(p, offset);
    }
    if HEADER + p.Len() == offset {
      frame := Some(FrameOf(p.chunk[..offset]));
      p.Reinit();
      offset := 0;
      ReceivingAfresh(p);
    }
  }

  lemma ReceivingAfresh(p: Parcel)
    requires p.Valid() && p.cap == DATA_LEN && p.chunk[..HEADER] == Le(0, 4) + Le(0, 4)
    ensures Receiving(p, 0) && Got(p, 0) == []
  {
    assert p.chunk[7] == p.chunk[..HEADER][7] == (Le(0, 4) + Le(0, 4))[7];
    assert Le(0, 4) == [0, 0, 0, 0];
  }
}
