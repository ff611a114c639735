/** What goes over the wire, byte by byte: frames, requests, replies, notices and metadata. */
module Wire {
  import opened Prelude
  import opened Words
  import opened Bytes
  import opened Framing
  import opened Marshal
  import opened Messages
  import opened Metadatas
  import opened MetadataTexts
  import opened Rpc

  // ---------- Frames ----------

  // The number in four bytes, least significant first.
  function FourBytes(a: int, b: int, c: int, d: int): int { a + 0x100 * b + 0x1_0000 * c + 0x100_0000 * d }

  lemma WordBytes(n: nat)
    requires n < 0x1_0000_0000
    ensures n == FourBytes(Le(n, 4)[0], Le(n, 4)[1], Le(n, 4)[2], Le(n, 4)[3])
  {
    SpanValues();
    LeExact(n, 4);
    var s := Le(n, 4);
    assert FromLe(s[1..]) == s[1] + 256 * FromLe(s[1..][1..]);
    assert s[1..][1..][1..][1..] == [];
    assert FromLe(s[1..][1..]) == s[2] + 256 * FromLe(s[1..][1..][1..]);
    assert FromLe(s[1..][1..][1..]) == s[3];
  }

  // Code, length of the payload, payload.
  lemma FrameBytes(f: Frame)
    requires f.Fits()
    ensures var s := Encode(f);
            && |s| == 8 + |f.payload| && s[8..] == f.payload
            && f.code == FourBytes(s[0], s[1], s[2], s[3]) && |f.payload| == FourBytes(s[4], s[5], s[6], s[7])
  {
    SpanValues();
    WordBytes(f.code);
    WordBytes(|f.payload|);
    hide Le;
  }

  // Of what a server handles, each request with code 2 is answered by a frame with code 3, in order.
  lemma AnswersAcked(h: Handler, handled: seq<Frame>, f: Frame)
    ensures Replies(h, handled + [f])
            == Replies(h, handled) + if f.code == 2 then [Frame(3, h(handled + [f]))] else []
  {
    assert (handled + [f])[..|handled|] == handled;
  }

  // ---------- Messages ----------

  // Seven conversions, and how many bytes they take; a text takes its characters and a zero.
  lemma ConversionSizes(c: char, a: Arg)
    requires Takes(c, a)
    ensures Known(c) <==> c == 'l' || c == 'i' || c == 'h' || c == 'c' || c == 'd' || c == 'f' || c == 's'
    ensures Known(c) ==>
              |EncodeArg(c, a)| == if c == 'l' || c == 'd' then 8 else if c == 'i' || c == 'f' then 4
                                   else if c == 'h' then 2 else if c == 'c' then 1 else |Zeroed(a.text)|
  {
  }

  // The bytes of a text with its terminating zero; a missing text is written as an empty one.
  function Zeroed(t: Option<CString>): seq<Byte> { (if t == None then [] else t.value) + [0] }

  lemma TextBytes(t: Option<CString>)
    ensures EncodeArg('s', Text(t)) == Zeroed(t)
  {
  }

  lemma FormatStep(c: char, rest: string, whole: string, a: Arg, args: seq<Arg>)
    requires Known(c) && Takes(c, a) && Matches(rest, args) && whole == "%" + [c] + rest
    ensures Matches(whole, [a] + args) && EncodeArgs(whole, [a] + args) == EncodeArg(c, a) + EncodeArgs(rest, args)
  {
    assert whole[1..] == [c] + rest && whole[1..][1..] == rest;
    assert ([a] + args)[1..] == args;
  }

  lemma NumStep(rest: string, whole: string, v: Int32, args: seq<Arg>)
    requires Matches(rest, args) && whole == "%i" + rest
    ensures Matches(whole, [Num(v)] + args) && EncodeArgs(whole, [Num(v)] + args) == Le(v, 4) + EncodeArgs(rest, args)
  {
    SpanValues();
    assert "%" + ['i'] + rest == whole;
    FormatStep('i', rest, whole, Num(v), args);
  }

  lemma TextStep(rest: string, whole: string, t: Option<CString>, args: seq<Arg>)
    requires Matches(rest, args) && whole == "%s" + rest
    ensures Matches(whole, [Text(t)] + args)
    ensures EncodeArgs(whole, [Text(t)] + args) == Zeroed(t) + EncodeArgs(rest, args)
  {
    assert "%" + ['s'] + rest == whole;
    FormatStep('s', rest, whole, Text(t), args);
    TextBytes(t);
  }

  lemma NothingLeft()
    ensures Matches("", []) && EncodeArgs("", []) == []
  {
  }

  lemma LastNum(v: Int32)
    ensures Matches("%i", [Num(v)]) && EncodeArgs("%i", [Num(v)]) == Le(v, 4)
  {
    NothingLeft();
    NumStep("", "%i", v, []);
    assert [Num(v)] + [] == [Num(v)] && Le(v, 4) + [] == Le(v, 4);
  }

  // A request: the number of the module, the target, the command, and what that module takes besides.
  lemma RequestOnWire(r: Request)
    requires 1 <= r.id <= 6
    ensures RequestBytes(r)
            == if r.id == 6 then Le(r.id, 4) + (Zeroed(r.target) + (Zeroed(r.cmd) + Le(r.len, 4)))
               else if r.id == 2 then
                 Le(r.id, 4) + (Zeroed(r.target) + (Zeroed(r.cmd) + (Zeroed(r.arg) + (Le(r.apply, 4) + Le(r.len, 4)))))
               else Le(r.id, 4) + (Zeroed(r.target) + (Zeroed(r.cmd) + (Zeroed(r.arg) + Le(r.len, 4))))
  {
    LastNum(r.len);
    hide EncodeArgs, Matches, Le, Zeroed;
    var len := [Num(r.len)];
    if r.id == 6 {
      TextStep("%i", "%s%i", r.cmd, len);
      TextStep("%s%i", "%s%s%i", r.target, [Text(r.cmd)] + len);
      NumStep("%s%s%i", "%i%s%s%i", r.id, [Text(r.target)] + ([Text(r.cmd)] + len));
      assert ClientArgs(r) == [Num(r.id)] + ([Text(r.target)] + ([Text(r.cmd)] + len));
    } else if r.id == 2 {
      NumStep("%i", "%i%i", r.apply, len);
      var nums := [Num(r.apply)] + len;
      TextStep("%i%i", "%s%i%i", r.arg, nums);
      TextStep("%s%i%i", "%s%s%i%i", r.cmd, [Text(r.arg)] + nums);
      TextStep("%s%s%i%i", "%s%s%s%i%i", r.target, [Text(r.cmd)] + ([Text(r.arg)] + nums));
      NumStep("%s%s%s%i%i", "%i%s%s%s%i%i", r.id, [Text(r.target)] + ([Text(r.cmd)] + ([Text(r.arg)] + nums)));
      assert ClientArgs(r) == [Num(r.id)] + ([Text(r.target)] + ([Text(r.cmd)] + ([Text(r.arg)] + nums)));
    } else {
      TextStep("%i", "%s%i", r.arg, len);
      TextStep("%s%i", "%s%s%i", r.cmd, [Text(r.arg)] + len);
      TextStep("%s%s%i", "%s%s%s%i", r.target, [Text(r.cmd)] + ([Text(r.arg)] + len));
      NumStep("%s%s%s%i", "%i%s%s%s%i", r.id, [Text(r.target)] + ([Text(r.cmd)] + ([Text(r.arg)] + len)));
      assert ClientArgs(r) == [Num(r.id)] + ([Text(r.target)] + ([Text(r.cmd)] + ([Text(r.arg)] + len)));
    }
  }

  lemma LastText(t: Option<CString>)
    ensures Matches("%s", [Text(t)]) && EncodeArgs("%s", [Text(t)]) == Zeroed(t)
  {
    NothingLeft();
    TextStep("", "%s", t, []);
    assert [Text(t)] + [] == [Text(t)] && Zeroed(t) + [] == Zeroed(t);
  }

  // A reply is the result and the text; a notice the event, the result and the text.
  lemma ReplyOnWire(a: Answer, event: Int32)
    ensures ReplyBytes(a) == Le(a.ret, 4) + Zeroed(a.response)
    ensures Matches(EVENT_FORMAT, EventArgs(event, a.ret, a.response))
    ensures EncodeArgs(EVENT_FORMAT, EventArgs(event, a.ret, a.response))
            == Le(event, 4) + (Le(a.ret, 4) + Zeroed(a.response))
  {
    LastText(a.response);
    hide EncodeArgs, Matches, Le, Zeroed;
    NumStep("%s", "%i%s", a.ret, [Text(a.response)]);
    NumStep("%i%s", "%i%i%s", event, [Num(a.ret)] + [Text(a.response)]);
    assert ReplyArgs(a) == [Num(a.ret)] + [Text(a.response)];
    assert EventArgs(event, a.ret, a.response) == [Num(event)] + ([Num(a.ret)] + [Text(a.response)]);
  }

  // ---------- Metadata ----------

  // The flags are bits, from state to album.
  function FlagBits(flags: set<Field>): nat {
    (if State in flags then 1 else 0) + (if Volume in flags then 2 else 0) + (if Position in flags then 4 else 0)
    + (if Duration in flags then 8 else 0) + (if Title in flags then 16 else 0) + (if Artist in flags then 32 else 0)
    + (if Album in flags then 64 else 0)
  }

  lemma BitsAre(flags: set<Field>)
    ensures Bits(flags, FIELDS) == FlagBits(flags)
  {
    hide Bits;
    BitsStep(flags, Album, [], [Album]);
    BitsStep(flags, Artist, [Album], [Artist, Album]);
    BitsStep(flags, Title, [Artist, Album], [Title, Artist, Album]);
    BitsStep(flags, Duration, [Title, Artist, Album], [Duration, Title, Artist, Album]);
    BitsStep(flags, Position, [Duration, Title, Artist, Album], [Position, Duration, Title, Artist, Album]);
    BitsStep(flags, Volume, [Position, Duration, Title, Artist, Album],
             [Volume, Position, Duration, Title, Artist, Album]);
    BitsStep(flags, State, [Volume, Position, Duration, Title, Artist, Album], FIELDS);
  }

  lemma BitsStep(flags: set<Field>, f: Field, rest: seq<Field>, all: seq<Field>)
    requires all == [f] + rest
    ensures Bits(flags, all) == (if f in flags then 1 else 0) + 2 * Bits(flags, rest)
    ensures Bits(flags, []) == 0
  {
    assert all[1..] == rest;
  }

  // Flags, state, volume, position and duration between colons, then title and artist.
  lemma MetadataAsText(m: Meta)
    ensures Serialize(m)
            == Signed(FlagBits(m.flags)) + ":" + (Signed(m.state) + ":" + (Signed(m.volume) + ":"
               + (Signed(m.position) + ":" + (Signed(m.duration) + ":" + ""))))
               + (Printed(m.title) + "\t" + Printed(m.artist))
  {
    BitsAre(m.flags);
    hide Signed, Bits, FlagBits;
    PrefixStep(m.duration, [], [m.duration]);
    PrefixStep(m.position, [m.duration], [m.position, m.duration]);
    PrefixStep(m.volume, [m.position, m.duration], [m.volume, m.position, m.duration]);
    PrefixStep(m.state, [m.volume, m.position, m.duration], [m.state, m.volume, m.position, m.duration]);
    PrefixStep(Bits(m.flags, FIELDS), [m.state, m.volume, m.position, m.duration], Numbers(m));
    hide Prefix;
  }

  lemma PrefixStep(v: int, rest: seq<int>, all: seq<int>)
    requires all == [v] + rest
    ensures Prefix(all) == Signed(v) + ":" + Prefix(rest) && Prefix([]) == ""
  {
    assert all[1..] == rest;
  }

  // A number below ten is its digit, any other its quotient by ten and then the digit of the remainder.
  lemma Decimals(n: int)
    requires n >= 0
    ensures Signed(n) == (if n < 10 then "" else Signed(n / 10)) + ["0123456789"[n % 10]]
    ensures n > 0 ==> Signed(-n) == "-" + Signed(n)
  {
    assert "0123456789"[n % 10] == DigitOf(n % 10) by { DigitChar(n % 10); }
    if n < 10 {
      assert "" + [DigitOf(n)] == [DigitOf(n)];
    }
  }

  lemma DigitChar(d: nat)
    requires d < 10
    ensures "0123456789"[d] == DigitOf(d)
  {
  }
}
