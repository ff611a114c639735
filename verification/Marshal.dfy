/** Values in a payload: what each conversion of a format writes, and what reading it back gives. */
module Marshal {
  import opened Prelude
  import opened Bytes

  // Characters of a string that ends with a zero byte.
  type CString = s: seq<Byte> | forall i :: 0 <= i < |s| ==> s[i] != 0 witness []

  // A float or a double is just its bytes.
  datatype Arg = Num(value: int) | Raw(bytes: seq<Byte>) | Text(text: Option<CString>)

  predicate Known(c: char) { c in "lihcdfs" }

  predicate Numeric(c: char) { c in "lihc" }

  function Width(c: char): nat {
    match c
    case 'l' => 8
    case 'i' => 4
    case 'h' => 2
    case 'c' => 1
    case 'd' => 8
    case 'f' => 4
    case _ => 0
  }

  // What the caller passes: h and c take an int and keep its low bytes.
  predicate Takes(c: char, a: Arg) {
    if c == 'l' then a.Num? && -Span(8) <= 2 * a.value < Span(8)
    else if Numeric(c) then a.Num? && -Span(4) <= 2 * a.value < Span(4)
    else if c == 's' then a.Text?
    else a.Raw? && |a.bytes| == Width(c)
  }

  // Characters of the format that are no conversion, the percent sign among them, are skipped.
  predicate Matches(fmt: string, args: seq<Arg>) {
    if fmt == "" then args == []
    else if !Known(fmt[0]) then Matches(fmt[1..], args)
    else args != [] && Takes(fmt[0], args[0]) && Matches(fmt[1..], args[1..])
  }

  // ---------- Writing ----------

  function Chars(text: Option<CString>): CString { if text == None then [] else text.value }

  function EncodeArg(c: char, a: Arg): seq<Byte> {
    match a
    case Num(value) => Le(value, Width(c))
    case Raw(bytes) => bytes
    case Text(text) => Chars(text) + [0]
  }

  function EncodeArgs(fmt: string, args: seq<Arg>): seq<Byte>
    requires Matches(fmt, args)
  {
    if fmt == "" then []
    else if !Known(fmt[0]) then EncodeArgs(fmt[1..], args)
    else EncodeArg(fmt[0], args[0]) + EncodeArgs(fmt[1..], args[1..])
  }

  // ---------- Reading ----------

  // Where the next zero byte is, or the end.
  function ZeroFrom(buf: seq<Byte>, k: nat): (z: nat)
    requires k <= |buf|
    ensures k <= z <= |buf| && (z < |buf| ==> buf[z] == 0)
    ensures forall i :: k <= i < z ==> buf[i] != 0
    decreases |buf| - k
  {
    if k == |buf| || buf[k] == 0 then k else ZeroFrom(buf, k + 1)
  }

  function DecodeArg(c: char, bytes: seq<Byte>): Arg {
    if Numeric(c) then Num(SignedLe(bytes)) else Raw(bytes)
  }

  /* One conversion at the cursor: nothing if a number does not fit any more; a string that does not end, or
     is empty, reads as null. */
  datatype Item = Item(value: Option<Arg>, next: nat)

  function ReadOne(c: char, buf: seq<Byte>, next: nat): (r: Item)
    requires next <= |buf|
    ensures next <= r.next <= |buf|
  {
    if c == 's' then
      var z := ZeroFrom(buf, next);
      if z == |buf| then Item(Some(Text(None)), next)
      else Item(Some(Text(if z == next then None else Some(buf[next..z]))), z + 1)
    else if next + Width(c) > |buf| then Item(None, next)
    else Item(Some(DecodeArg(c, buf[next..next + Width(c)])), next + Width(c))
  }

  // What was read, up to the first number that does not fit.
  datatype Read = Read(values: seq<Arg>, next: nat, ok: bool)

  function ReadArgs(fmt: string, buf: seq<Byte>, next: nat): (r: Read)
    requires next <= |buf|
    ensures next <= r.next <= |buf|   // whatever the bytes
  {
    if fmt == "" then Read([], next, true)
    else if !Known(fmt[0]) then ReadArgs(fmt[1..], buf, next)
    else
      var item := ReadOne(fmt[0], buf, next);
      if item.value == None then Read([], next, false)
      else
        var rest := ReadArgs(fmt[1..], buf, item.next);
        Read([item.value.value] + rest.values, rest.next, rest.ok)
  }

  // ---------- Round trip ----------

  // Empty and missing text are the same on the other side; so are numbers with the same low bytes.
  function Seen(c: char, a: Arg): Arg {
    match a
    case Num(value) => Num(SignedLe(Le(value, Width(c))))
    case Raw(bytes) => a
    case Text(text) => Text(if Chars(text) == [] then None else text)
  }

  function SeenAll(fmt: string, args: seq<Arg>): seq<Arg>
    requires Matches(fmt, args)
  {
    if fmt == "" then []
    else if !Known(fmt[0]) then SeenAll(fmt[1..], args)
    else [Seen(fmt[0], args[0])] + SeenAll(fmt[1..], args[1..])
  }

  // The value comes back unchanged exactly when it fits and is not the empty string.
  lemma SeenExactly(c: char, a: Arg)
    requires Known(c) && Takes(c, a)
    ensures Seen(c, a) == a <==>
              match a
              case Num(value) => -Span(Width(c)) <= 2 * value < Span(Width(c))
              case Raw(_) => true
              case Text(text) => text != Some([])
  {
    if a.Num? {
      var s := Le(a.value, Width(c));
      if -Span(Width(c)) <= 2 * a.value < Span(Width(c)) {
        SignedRoundTrip(a.value, Width(c));
      } else {
        assert -Span(|s|) <= 2 * SignedLe(s) < Span(|s|);
      }
    }
  }

  // These bytes stand in the buffer at this place.
  predicate At(buf: seq<Byte>, k: nat, bytes: seq<Byte>)
    ensures At(buf, k, bytes) ==> k + |bytes| <= |buf|
  {
    k + |bytes| <= |buf| && buf[k..k + |bytes|] == bytes
  }

  lemma AtParts(buf: seq<Byte>, k: nat, a: seq<Byte>, b: seq<Byte>)
    requires At(buf, k, a + b)
    ensures At(buf, k, a) && At(buf, k + |a|, b)
  {
    assert buf[k..k + |a|] == (a + b)[..|a|] && buf[k + |a|..k + |a| + |b|] == (a + b)[|a|..];
  }

  lemma AtMiddle(pre: seq<Byte>, bytes: seq<Byte>, post: seq<Byte>)
    ensures At(pre + bytes + post, |pre|, bytes)
  {
  }

  lemma ZeroAt(buf: seq<Byte>, k: nat, z: nat)
    requires k <= z < |buf| && buf[z] == 0 && forall i :: k <= i < z ==> buf[i] != 0
    ensures ZeroFrom(buf, k) == z
  {
  }

  lemma TextRoundTrip(text: Option<CString>, buf: seq<Byte>, k: nat)
    requires At(buf, k, EncodeArg('s', Text(text)))
    ensures ReadOne('s', buf, k) == Item(Some(Seen('s', Text(text))), k + |EncodeArg('s', Text(text))|)
  {
    var cs := Chars(text);
    AtParts(buf, k, cs, [0]);
    var z := k + |cs|;
    assert buf[z] == buf[z..z + 1][0] == 0;
    forall i | k <= i < z ensures buf[i] != 0 {
      assert buf[k..z][i - k] == cs[i - k];
    }
    ZeroAt(buf, k, z);
  }

  lemma OneRoundTrip(c: char, a: Arg, buf: seq<Byte>, k: nat)
    requires Known(c) && Takes(c, a) && At(buf, k, EncodeArg(c, a))
    ensures ReadOne(c, buf, k) == Item(Some(Seen(c, a)), k + |EncodeArg(c, a)|)
  {
    hide Le, SignedLe, Span, FromLe;
    if a.Text? {
      TextRoundTrip(a.text, buf, k);
    } else {
      FixedWidth(c, a);
      hide EncodeArg, Seen, Width, DecodeArg, Takes, Known;
    }
  }

  lemma FixedWidth(c: char, a: Arg)
    requires Known(c) && Takes(c, a) && !a.Text?
    ensures c != 's' && Width(c) == |EncodeArg(c, a)| && DecodeArg(c, EncodeArg(c, a)) == Seen(c, a)
  {
    hide Le, SignedLe, Span;
  }

  // One character of a format at a time.
  lemma Skipped(fmt: string, args: seq<Arg>, buf: seq<Byte>, next: nat)
    requires fmt != "" && next <= |buf| && Matches(fmt, args) && !Known(fmt[0])
    ensures Matches(fmt[1..], args) && EncodeArgs(fmt, args) == EncodeArgs(fmt[1..], args)
    ensures SeenAll(fmt, args) == SeenAll(fmt[1..], args)
    ensures ReadArgs(fmt, buf, next) == ReadArgs(fmt[1..], buf, next)
  {
  }

  lemma First(fmt: string, args: seq<Arg>)
    requires fmt != "" && Matches(fmt, args) && Known(fmt[0])
    ensures args != [] && Takes(fmt[0], args[0]) && Matches(fmt[1..], args[1..])
    ensures EncodeArgs(fmt, args) == EncodeArg(fmt[0], args[0]) + EncodeArgs(fmt[1..], args[1..])
    ensures SeenAll(fmt, args) == [Seen(fmt[0], args[0])] + SeenAll(fmt[1..], args[1..])
  {
    hide EncodeArg, Seen, Takes;
  }

  lemma ReadFirst(fmt: string, buf: seq<Byte>, next: nat, value: Arg, at: nat, rest: Read)
    requires fmt != "" && next <= |buf| && Known(fmt[0])
    requires ReadOne(fmt[0], buf, next) == Item(Some(value), at) && ReadArgs(fmt[1..], buf, at) == rest
    ensures ReadArgs(fmt, buf, next) == Read([value] + rest.values, rest.next, rest.ok)
  {
    hide ReadOne;
  }

  // Wherever it stands, what was written is read, and the cursor stops right behind it.
  lemma {:induction false} RoundTrip(fmt: string, args: seq<Arg>, buf: seq<Byte>, k: nat)
    requires Matches(fmt, args) && At(buf, k, EncodeArgs(fmt, args))
    ensures ReadArgs(fmt, buf, k) == Read(SeenAll(fmt, args), k + |EncodeArgs(fmt, args)|, true)
    decreases |fmt|
  {
    hide EncodeArg, ReadOne, Seen, Takes, EncodeArgs, ReadArgs, SeenAll, Matches, At, Known;
    if fmt == "" {
      EmptyFormat(args, buf, k);
    } else if Known(fmt[0]) {
      First(fmt, args);
      var item, rest := EncodeArg(fmt[0], args[0]), EncodeArgs(fmt[1..], args[1..]);
      AtParts(buf, k, item, rest);
      OneRoundTrip(fmt[0], args[0], buf, k);
      RoundTrip(fmt[1..], args[1..], buf, k + |item|);
      ReadFirst(fmt, buf, k, Seen(fmt[0], args[0]), k + |item|, ReadArgs(fmt[1..], buf, k + |item|));
    } else {
      Skipped(fmt, args, buf, k);
      RoundTrip(fmt[1..], args, buf, k);
    }
  }

  lemma EmptyFormat(args: seq<Arg>, buf: seq<Byte>, k: nat)
    requires Matches("", args) && k <= |buf|
    ensures EncodeArgs("", args) == [] && SeenAll("", args) == [] && ReadArgs("", buf, k) == Read([], k, true)
  {
  }

  // The same with what stands before and after.
  lemma RoundTripWithin(fmt: string, args: seq<Arg>, pre: seq<Byte>, post: seq<Byte>)
    requires Matches(fmt, args)
    ensures var bytes := EncodeArgs(fmt, args);
            ReadArgs(fmt, pre + bytes + post, |pre|) == Read(SeenAll(fmt, args), |pre| + |bytes|, true)
  {
    hide ReadArgs, EncodeArgs, SeenAll, At;
    AtMiddle(pre, EncodeArgs(fmt, args), post);
    RoundTrip(fmt, args, pre + EncodeArgs(fmt, args) + post, |pre|);
  }
}
