/** Parcels on a byte stream: the frame format and the decoder that the three receivers share. */
module Framing {
  import opened Prelude
  import opened Bytes

  const HEADER := 8

  // Room for a payload of this length, and as much again, has a 32-bit size with the header.
  predicate Receivable(len: nat) { HEADER + 2 * len < 0x1_0000_0000 }

  type Payload = p: seq<Byte> | Receivable(|p|) witness []

  datatype Frame = Frame(code: nat, payload: seq<Byte>) {
    // Both header fields are 32-bit words.
    predicate Fits() { code < Span(4) && |payload| < Span(4) }
  }

  function Encode(f: Frame): seq<Byte> {
    Le(f.code, 4) + Le(|f.payload|, 4) + f.payload
  }

  function EncodeAll(fs: seq<Frame>): seq<Byte> {
    if fs == [] then [] else Encode(fs[0]) + EncodeAll(fs[1..])
  }

  // ---------- The bytes received of the current frame ----------

  function LengthField(got: seq<Byte>): nat
    requires |got| >= HEADER
  {
    FromLe(got[4..8])
  }

  predicate Complete(got: seq<Byte>) {
    |got| >= HEADER && |got| == HEADER + LengthField(got)
  }

  // A frame that still lacks bytes.
  predicate Open(got: seq<Byte>) {
    |got| < HEADER || |got| < HEADER + LengthField(got)
  }

  function FrameOf(got: seq<Byte>): Frame
    requires Complete(got)
  {
    Frame(FromLe(got[..4]), got[HEADER..])
  }

  // How many bytes the next read may ask for: up to the end of the header, then up to the end of the frame.
  function Want(got: seq<Byte>): (n: nat)
    requires Open(got)
    ensures n > 0
  {
    if |got| < HEADER then HEADER - |got| else HEADER + LengthField(got) - |got|
  }

  // ---------- The decoder ----------

  datatype Decoded = Decoded(frames: seq<Frame>, got: seq<Byte>)

  // One byte more.
  function Take(got: seq<Byte>, b: Byte): (d: Decoded)
    requires Open(got)
    ensures Open(d.got)
  {
    var more := got + [b];
    ExtendHeader(got, [b]);
    if Complete(more) then Decoded([FrameOf(more)], []) else Decoded([], more)
  }

  function Feed(got: seq<Byte>, input: seq<Byte>): (d: Decoded)
    requires Open(got)
    ensures Open(d.got)
    decreases |input|
  {
    if input == [] then Decoded([], got)
    else
      var first := Take(got, input[0]);
      var rest := Feed(first.got, input[1..]);
      Decoded(first.frames + rest.frames, rest.got)
  }

  // A complete header does not change any more.
  lemma ExtendHeader(got: seq<Byte>, more: seq<Byte>)
    ensures |got| >= HEADER ==> LengthField(got + more) == LengthField(got)
  {
    if |got| >= HEADER {
      assert (got + more)[4..8] == got[4..8];
    }
  }

  lemma FeedStep(got: seq<Byte>, input: seq<Byte>)
    requires Open(got) && input != []
    ensures var first := Take(got, input[0]);
            var rest := Feed(first.got, input[1..]);
            Feed(got, input) == Decoded(first.frames + rest.frames, rest.got)
  {
    hide Take;
  }

  // What arrives in two parts is decoded as if it had arrived in one.
  lemma {:induction false} FeedSplit(got: seq<Byte>, a: seq<Byte>, b: seq<Byte>)
    requires Open(got)
    ensures var first := Feed(got, a);
            var second := Feed(first.got, b);
            Feed(got, a + b) == Decoded(first.frames + second.frames, second.got)
    decreases |a|
  {
    if a == [] {
      assert a + b == b;
    } else {
      FeedStep(got, a);
      FeedStep(got, a + b);
      hide Take, Feed, Open;
      var head := Take(got, a[0]);
      FeedSplit(head.got, a[1..], b);
      assert (a + b)[1..] == a[1..] + b;
      var mid := Feed(head.got, a[1..]);
      AppendTwice(head.frames, mid.frames, Feed(mid.got, b).frames);
    }
  }

  // A read of at most the wanted number of bytes completes the frame or extends it.
  lemma {:induction false} FeedChunk(got: seq<Byte>, c: seq<Byte>)
    requires Open(got) && |c| <= Want(got)
    ensures Feed(got, c) == if Complete(got + c) then Decoded([FrameOf(got + c)], []) else Decoded([], got + c)
    ensures Complete(got + c) || Open(got + c)
    decreases |c|
  {
    if c == [] {
      assert got + c == got;
    } else {
      var more := got + [c[0]];
      ExtendHeader(got, [c[0]]);
      assert got + c == more + c[1..];
      ExtendHeader(more, c[1..]);
      if Complete(more) {
        assert c[1..] == [] && got + c == more;
        assert [FrameOf(more)] + [] == [FrameOf(more)];
      } else {
        FeedChunk(more, c[1..]);
      }
    }
  }

  // ---------- Streams of frames ----------

  lemma HeaderOf(f: Frame)
    requires f.Fits()
    ensures Complete(Encode(f)) && FrameOf(Encode(f)) == f
  {
    var bytes := Encode(f);
    LeExact(f.code, 4);
    LeExact(|f.payload|, 4);
    hide Le, FromLe, Span;
    assert bytes[..4] == Le(f.code, 4);
    assert bytes[4..8] == Le(|f.payload|, 4);
    assert bytes[8..] == f.payload;
  }

  lemma FeedNothing()
    ensures Feed([], []) == Decoded([], [])
  {
  }

  lemma OpenHeader(f: Frame, header: seq<Byte>)
    requires f.Fits() && f.payload != [] && header == Encode(f)[..HEADER]
    ensures !Complete(header) && Open(header) && Want(header) == |f.payload|
  {
    HeaderOf(f);
    assert header[4..8] == Encode(f)[4..8];
    hide Le, FromLe, Span;
  }

  // One frame, from the start.
  lemma FeedFrame(f: Frame)
    requires f.Fits()
    ensures Feed([], Encode(f)) == Decoded([f], [])
  {
    var bytes := Encode(f);
    HeaderOf(f);
    assert |bytes| == HEADER + |f.payload|;
    hide Le, FromLe, Encode;
    var header := bytes[..HEADER];
    assert header[4..8] == bytes[4..8];
    assert bytes == header + bytes[HEADER..];
    FeedChunk([], header);
    assert [] + header == header;
    FeedSplit([], header, bytes[HEADER..]);
    hide Feed, Complete, FrameOf;
    if f.payload == [] {
      assert header == bytes && bytes[HEADER..] == [];
      FeedNothing();
      assert [f] + [] == [f];
    } else {
      assert !Complete(header) by { OpenHeader(f, header); }
      FeedChunk(header, bytes[HEADER..]);
      assert [] + [f] == [f];
    }
  }

  // The decoder yields exactly the frames that were sent.
  lemma {:induction false} DecodeEncoded(fs: seq<Frame>)
    requires forall i :: 0 <= i < |fs| ==> fs[i].Fits()
    ensures Feed([], EncodeAll(fs)) == Decoded(fs, [])
  {
    if fs != [] {
      FeedFrame(fs[0]);
      DecodeEncoded(fs[1..]);
      FeedSplit([], Encode(fs[0]), EncodeAll(fs[1..]));
      assert fs == [fs[0]] + fs[1..];
    }
  }

  // ---------- Fragmentation ----------

  function Join(pieces: seq<seq<Byte>>): seq<Byte> {
    if pieces == [] then [] else pieces[0] + Join(pieces[1..])
  }

  // The pieces one after the other, each resuming where the last one stopped.
  function FeedPieces(got: seq<Byte>, pieces: seq<seq<Byte>>): (d: Decoded)
    requires Open(got)
    ensures Open(d.got)
    decreases |pieces|
  {
    if pieces == [] then Decoded([], got)
    else
      var first := Feed(got, pieces[0]);
      var rest := FeedPieces(first.got, pieces[1..]);
      Decoded(first.frames + rest.frames, rest.got)
  }

  lemma {:induction false} PiecesAreJoined(got: seq<Byte>, pieces: seq<seq<Byte>>)
    requires Open(got)
    ensures FeedPieces(got, pieces) == Feed(got, Join(pieces))
    decreases |pieces|
  {
    if pieces != [] {
      PiecesAreJoined(Feed(got, pieces[0]).got, pieces[1..]);
      FeedSplit(got, pieces[0], Join(pieces[1..]));
    }
  }

  // However the stream is cut up, exactly the frames that were sent come out.
  lemma AnySplit(fs: seq<Frame>, pieces: seq<seq<Byte>>)
    requires forall i :: 0 <= i < |fs| ==> fs[i].Fits()
    requires Join(pieces) == EncodeAll(fs)
    ensures FeedPieces([], pieces) == Decoded(fs, [])
  {
    PiecesAreJoined([], pieces);
    DecodeEncoded(fs);
  }

  // While the stream is still arriving, a prefix of the frames has come out.
  lemma PrefixDecodes(fs: seq<Frame>, k: nat)
    requires forall i :: 0 <= i < |fs| ==> fs[i].Fits()
    requires k <= |EncodeAll(fs)|
    ensures Feed([], EncodeAll(fs)[..k]).frames <= fs
  {
    var all := EncodeAll(fs);
    assert all == all[..k] + all[k..];
    FeedSplit([], all[..k], all[k..]);
    DecodeEncoded(fs);
  }

  // Wherever a reader stands in a stream of frames, what it completes is the first of them.
  lemma HeadFrame(fs: seq<Frame>, got: seq<Byte>, rest: seq<Byte>)
    requires forall i :: 0 <= i < |fs| ==> fs[i].Fits()
    requires got + rest == EncodeAll(fs) && Complete(got)
    ensures fs != [] && got == Encode(fs[0]) && FrameOf(got) == fs[0] && rest == EncodeAll(fs[1..])
  {
    assert fs != [];
    var first, tail := Encode(fs[0]), EncodeAll(fs[1..]);
    HeaderOf(fs[0]);
    hide Encode, EncodeAll, FrameOf;
    SameHead(got, rest, first, tail);
  }

  // Two complete frames at the head of the same bytes are the same.
  lemma SameHead(a: seq<Byte>, restA: seq<Byte>, b: seq<Byte>, restB: seq<Byte>)
    requires a + restA == b + restB && Complete(a) && Complete(b)
    ensures a == b && restA == restB
  {
    var all := a + restA;
    assert a[4..8] == all[4..8];
    assert b[4..8] == all[4..8] by {
      assert (b + restB)[4..8] == b[4..8];
    }
    hide FromLe;
    assert |a| == |b|;
    assert a == all[..|a|];
    assert b == (b + restB)[..|b|];
    assert restA == all[|a|..];
    assert restB == (b + restB)[|b|..];
  }

  lemma {:induction false} EncodeAllJoin(fs: seq<Frame>, gs: seq<Frame>)
    ensures EncodeAll(fs + gs) == EncodeAll(fs) + EncodeAll(gs)
  {
    hide Encode;
    if fs == [] {
      assert fs + gs == gs;
    } else {
      EncodeAllJoin(fs[1..], gs);
      assert (fs + gs)[1..] == fs[1..] + gs && (fs + gs)[0] == fs[0];
      AppendTwice(Encode(fs[0]), EncodeAll(fs[1..]), EncodeAll(gs));
    }
  }
}
