/** Metadata as text: numbers between colons, then title and artist; what is printed, what is read back, and when
    reading goes wrong. */
module MetadataTexts {
  import opened Prelude
  import opened Words
  import opened Metadatas

  // ---------- Characters ----------

  predicate Digit(c: char) { '0' <= c <= '9' }

  predicate Space(c: char) { c == ' ' || '\t' <= c <= '\r' }

  predicate AllDigits(s: string) { forall i :: 0 <= i < |s| ==> Digit(s[i]) }

  // What a string conversion can read.
  predicate IsWord(s: string) { s != "" && forall i :: 0 <= i < |s| ==> !Space(s[i]) }

  // ---------- Printing ----------

  function DigitOf(d: nat): (c: char)
    requires d < 10
    ensures Digit(c) && c as int - '0' as int == d
  {
    ('0' as int + d) as char
  }

  function Digits(n: nat): (s: string)
    ensures s != "" && AllDigits(s)
  {
    if n < 10 then [DigitOf(n)] else Digits(n / 10) + [DigitOf(n % 10)]
  }

  function Signed(v: int): string { if v < 0 then "-" + Digits(-v) else Digits(v) }

  const FIELDS := [State, Volume, Position, Duration, Title, Artist, Album]

  // The flags as bits, the first field lowest.
  function Bits(flags: set<Field>, fields: seq<Field>): nat {
    if fields == [] then 0 else (if fields[0] in flags then 1 else 0) + 2 * Bits(flags, fields[1..])
  }

  function FieldsIn(n: int, fields: seq<Field>): set<Field>
    decreases |fields|
  {
    if fields == [] then {} else (if n % 2 == 1 then {fields[0]} else {}) + FieldsIn(n / 2, fields[1..])
  }

  function Numbers(m: Meta): seq<int> { [Bits(m.flags, FIELDS), m.state, m.volume, m.position, m.duration] }

  function Prefix(ns: seq<int>): string {
    if ns == [] then "" else Signed(ns[0]) + ":" + Prefix(ns[1..])
  }

  // A missing string is printed like this.
  function Printed(text: Option<string>): string { if text == None then "(null)" else text.value }

  function Texts(m: Meta): string { Printed(m.title) + "\t" + Printed(m.artist) }

  function Serialize(m: Meta): string { Prefix(Numbers(m)) + Texts(m) }

  // The buffers that texts travel in.
  const TEXT_ROOM := 256

  // What of a text a buffer of this size takes.
  function Fit(s: string, size: nat): (t: string)
    requires size > 0
    ensures t <= s && |t| == if |s| < size then |s| else size - 1
  {
    if |s| < size then s else s[..size - 1]
  }

  // ---------- Reading ----------

  function Value(s: string): nat
    requires AllDigits(s)
  {
    if s == "" then 0 else 10 * Value(s[..|s| - 1]) + (s[|s| - 1] as int - '0' as int)
  }

  function SkipSpace(s: string): string {
    if s != "" && Space(s[0]) then SkipSpace(s[1..]) else s
  }

  function DigitRun(s: string): (n: nat)
    ensures n <= |s| && AllDigits(s[..n]) && (n < |s| ==> !Digit(s[n]))
  {
    if s == "" || !Digit(s[0]) then 0
    else
      var n := DigitRun(s[1..]);
      assert s[..n + 1] == [s[0]] + s[1..][..n];
      n + 1
  }

  function WordRun(s: string): (n: nat)
    ensures n <= |s| && (n > 0 ==> IsWord(s[..n])) && (n < |s| ==> Space(s[n]))
  {
    if s == "" || Space(s[0]) then 0
    else
      var n := WordRun(s[1..]);
      assert s[..n + 1] == [s[0]] + s[1..][..n];
      n + 1
  }

  datatype Scanned<T> = Scanned(value: Option<T>, rest: string)

  function ScanDigits(s: string, sign: int): Scanned<int> {
    var n := DigitRun(s);
    if n == 0 then Scanned(None, s) else Scanned(Some(sign * Value(s[..n])), s[n..])
  }

  function ScanNumber(s: string): Scanned<int> {
    var t := SkipSpace(s);
    if t != "" && t[0] == '-' then ScanDigits(t[1..], -1)
    else if t != "" && t[0] == '+' then ScanDigits(t[1..], 1)
    else ScanDigits(t, 1)
  }

  function ScanWord(s: string): (r: Scanned<string>)
    ensures r.value.Some? ==> IsWord(r.value.value)
  {
    var t := SkipSpace(s);
    var n := WordRun(t);
    Scanned(if n == 0 then None else Some(t[..n]), t[n..])
  }

  // Up to k numbers, each with its colon; what follows, if all are there.
  function ScanNumbers(s: string, k: nat): (seq<int>, Option<string>)
    decreases k
  {
    if k == 0 then ([], Some(s))
    else
      var n := ScanNumber(s);
      if n.value == None then ([], None)
      else if n.rest == "" || n.rest[0] != ':' then ([n.value.value], None)
      else
        var (more, rest) := ScanNumbers(n.rest[1..], k - 1);
        ([n.value.value] + more, rest)
  }

  // A field that was not read is zero.
  function At(ns: seq<int>, k: nat): int { if k < |ns| then ns[k] else 0 }

  // The first three numbers are signed, the others unsigned with a sign allowed.
  predicate InRange(ns: seq<int>) {
    forall i :: 0 <= i < |ns| ==>
      if i < 3 then -0x8000_0000 <= ns[i] < 0x8000_0000 else -0x1_0000_0000 < ns[i] < 0x1_0000_0000
  }

  // The buffers for title and artist, with the terminating zero.
  const WORD_ROOM := 128

  predicate Short(word: Option<string>) { word.Some? ==> |word.value| < WORD_ROOM }

  /* Outside the first case the original is undefined: a number that does not fit, a word longer than its buffer,
     or a title or artist that is flagged but was never written. */
  datatype Reading = Record(meta: Meta) | OutOfRange | Overrun | Unread

  function RecordOf(ns: seq<int>, title: Option<string>, artist: Option<string>): Reading {
    var flags := FieldsIn(At(ns, 0), FIELDS);
    if !InRange(ns) then OutOfRange
    else if !Short(title) || !Short(artist) then Overrun
    else if (Title in flags && title == None) || (Artist in flags && artist == None) then Unread
    else
      Record(Meta(flags, At(ns, 1), At(ns, 2), ToWord32(At(ns, 3)), ToWord32(At(ns, 4)),
                  if Title in flags then title else None, if Artist in flags then artist else None))
  }

  function Unserialize(s: string): Reading {
    var (ns, rest) := ScanNumbers(s, 5);
    var title := if rest == None then Scanned(None, "") else ScanWord(rest.value);
    var artist := if title.value == None then Scanned(None, "") else ScanWord(title.rest);
    RecordOf(ns, title.value, artist.value)
  }

  // No text at all is no news.
  predicate Reads(text: Option<string>) { text.Some? ==> Unserialize(text.value).Record? }

  function News(text: Option<string>): Meta
    requires Reads(text)
  {
    if text == None then BLANK else Unserialize(text.value).meta
  }

  // ---------- Numbers ----------

  lemma {:induction false} DigitsValue(n: nat)
    ensures Value(Digits(n)) == n
  {
    if n < 10 {
      assert [DigitOf(n)][..0] == "";
    } else {
      DigitsValue(n / 10);
      assert Digits(n)[..|Digits(n)| - 1] == Digits(n / 10);
    }
  }

  function Ten(k: nat): nat { if k == 0 then 1 else 10 * Ten(k - 1) }

  lemma {:induction false} DigitsLength(n: nat, k: nat)
    requires 0 < k && n < Ten(k)
    ensures |Digits(n)| <= k
  {
    if n >= 10 {
      assert k > 1;
      DigitsLength(n / 10, k - 1);
    }
  }

  lemma {:induction false} DigitsRun(s: string, rest: string)
    requires AllDigits(s) && (rest == "" || !Digit(rest[0]))
    ensures DigitRun(s + rest) == |s|
  {
    if s == "" {
      assert s + rest == rest;
    } else {
      assert (s + rest)[1..] == s[1..] + rest;
      DigitsRun(s[1..], rest);
    }
  }

  lemma DigitsRead(n: nat, rest: string, sign: int)
    requires rest == "" || !Digit(rest[0])
    ensures var s := Digits(n) + rest;
            Digit(s[0]) && ScanDigits(s, sign) == Scanned(Some(sign * n), rest)
  {
    DigitsValue(n);
    DigitsRun(Digits(n), rest);
    assert Digit(Digits(n)[0]);
    hide Digits, DigitRun, Value;
    assert (Digits(n) + rest)[..|Digits(n)|] == Digits(n) && (Digits(n) + rest)[|Digits(n)|..] == rest;
  }

  lemma NoSpace(s: string)
    requires s != "" && !Space(s[0])
    ensures SkipSpace(s) == s
  {
  }

  // What is printed begins with a digit or a minus sign.
  lemma SignRead(s: string)
    requires s != "" && Digit(s[0])
    ensures ScanNumber(s) == ScanDigits(s, 1) && ScanNumber("-" + s) == ScanDigits(s, -1)
  {
    var t := "-" + s;
    NoSpace(s);
    NoSpace(t);
    hide SkipSpace, ScanDigits;
    assert t[1..] == s;
  }

  lemma NumberRead(v: int, rest: string)
    requires rest == "" || !Digit(rest[0])
    ensures ScanNumber(Signed(v) + rest) == Scanned(Some(v), rest)
  {
    hide Digits, ScanDigits, ScanNumber;
    var n: nat := if v < 0 then -v else v;
    DigitsRead(n, rest, if v < 0 then -1 else 1);
    SignRead(Digits(n) + rest);
    if v < 0 {
      AppendTwice("-", Digits(n), rest);
    }
  }

  lemma FourParts(a: string, b: string, c: string, d: string)
    ensures a + b + c + d == a + (b + (c + d))
  {
    AppendTwice(a + b, c, d);
    AppendTwice(a, b, c + d);
  }

  lemma NumbersStep(first: int, rest: string, k: nat)
    ensures ScanNumbers(Signed(first) + (":" + rest), k + 1)
            == ([first] + ScanNumbers(rest, k).0, ScanNumbers(rest, k).1)
  {
    var more := ":" + rest;
    NumberRead(first, more);
    hide ScanNumber, Signed;
    assert more[1..] == rest;
  }

  lemma {:induction false} NumbersRead(ns: seq<int>, rest: string)
    ensures ScanNumbers(Prefix(ns) + rest, |ns|) == (ns, Some(rest))
  {
    if ns == [] {
      assert Prefix(ns) + rest == rest;
    } else {
      hide ScanNumbers, Signed;
      FourParts(Signed(ns[0]), ":", Prefix(ns[1..]), rest);
      NumbersStep(ns[0], Prefix(ns[1..]) + rest, |ns[1..]|);
      NumbersRead(ns[1..], rest);
      hide Prefix;
      assert [ns[0]] + ns[1..] == ns;
    }
  }

  // The flags are those bits again.
  lemma {:induction false} BitsBack(flags: set<Field>, fields: seq<Field>)
    ensures FieldsIn(Bits(flags, fields), fields) == set f | f in flags && f in fields
    ensures 0 <= Bits(flags, fields)
  {
    if fields != [] {
      BitsBack(flags, fields[1..]);
      var b := if fields[0] in flags then 1 else 0;
      assert (b + 2 * Bits(flags, fields[1..])) / 2 == Bits(flags, fields[1..]);
      assert forall f :: f in fields <==> f == fields[0] || f in fields[1..];
    }
  }

  lemma FlagsBack(flags: set<Field>)
    ensures FieldsIn(Bits(flags, FIELDS), FIELDS) == flags
  {
    BitsBack(flags, FIELDS);
    forall f | f in flags ensures f in FIELDS {
      match f
      case State => assert f == FIELDS[0];
      case Volume => assert f == FIELDS[1];
      case Position => assert f == FIELDS[2];
      case Duration => assert f == FIELDS[3];
      case Title => assert f == FIELDS[4];
      case Artist => assert f == FIELDS[5];
      case Album => assert f == FIELDS[6];
    }
  }

  // ---------- Room for the numbers ----------

  function Two(k: nat): nat { if k == 0 then 1 else 2 * Two(k - 1) }

  lemma {:induction false} BitsBound(flags: set<Field>, fields: seq<Field>)
    ensures Bits(flags, fields) < Two(|fields|)
  {
    if fields != [] {
      BitsBound(flags, fields[1..]);
    }
  }

  // Each number has at most ten digits, a sign and its colon.
  lemma {:induction false} PrefixLength(ns: seq<int>)
    requires forall i :: 0 <= i < |ns| ==> -10_000_000_000 < ns[i] < 10_000_000_000
    ensures |Prefix(ns)| <= 12 * |ns|
  {
    if ns != [] {
      assert Ten(5) == 100_000 && Ten(10) == 10_000_000_000;
      hide Ten, Digits;
      DigitsLength(if ns[0] < 0 then -ns[0] else ns[0], 10);
      PrefixLength(ns[1..]);
    }
  }

  lemma NumbersLength(m: Meta)
    ensures |Prefix(Numbers(m))| <= 60
  {
    assert Two(7) == 128;
    BitsBound(m.flags, FIELDS);
    hide Prefix, Bits;
    PrefixLength(Numbers(m));
  }

  // ---------- Words ----------

  // The runs of characters that are not white space.
  function Split(s: string): (ws: seq<string>)
    ensures s != "" && !Space(s[0]) ==> ws != []
  {
    if s == "" then []
    else if Space(s[0]) then Split(s[1..])
    else if |s| == 1 || Space(s[1]) then [[s[0]]] + Split(s[1..])
    else
      var ws := Split(s[1..]);
      [[s[0]] + ws[0]] + ws[1..]
  }

  lemma {:induction false} SplitRun(s: string)
    requires s != "" && !Space(s[0])
    ensures var n := WordRun(s);
            n > 0 && Split(s) == [s[..n]] + Split(s[n..])
  {
    var n := WordRun(s);
    assert n == 1 + WordRun(s[1..]);
    if |s| == 1 || Space(s[1]) {
      assert WordRun(s[1..]) == 0 && s[..1] == [s[0]];
    } else {
      SplitRun(s[1..]);
      assert s[1..][n - 1..] == s[n..] && s[..n] == [s[0]] + s[1..][..n - 1];
    }
  }

  lemma {:induction false} SkipSplit(s: string)
    ensures var t := SkipSpace(s);
            Split(t) == Split(s) && (t == "" || !Space(t[0]))
  {
    if s != "" && Space(s[0]) {
      SkipSplit(s[1..]);
    }
  }

  // Scanning takes the first word.
  lemma ScanTakes(s: string)
    ensures var r, ws := ScanWord(s), Split(s);
            if ws == [] then r.value == None else r.value == Some(ws[0]) && Split(r.rest) == ws[1..]
  {
    SkipSplit(s);
    var t := SkipSpace(s);
    if t != "" {
      SplitRun(t);
    }
  }

  lemma {:induction false} SplitJoin(a: string, b: string)
    ensures Split(a + "\t" + b) == Split(a) + Split(b)
  {
    var s := a + "\t" + b;
    if a == "" {
      assert s[0] == '\t' && s[1..] == b;
    } else {
      SplitJoin(a[1..], b);
      assert s[1..] == a[1..] + "\t" + b && s[0] == a[0];
      if !Space(a[0]) {
        assert s[1] == if |a| == 1 then '\t' else a[1];
        assert |a| == 1 ==> a[1..] == "" && Split(a[1..]) == [];
      }
    }
  }

  lemma {:induction false} SplitWord(w: string)
    requires IsWord(w)
    ensures Split(w) == [w]
  {
    if |w| == 1 {
      assert w[1..] == "" && w == [w[0]];
    } else {
      SplitWord(w[1..]);
      assert w == [w[0]] + w[1..];
    }
  }

  // ---------- What is read back ----------

  // The first two words fit their buffers, and those that the flags call for are there.
  predicate Readable(flags: set<Field>, ws: seq<string>) {
    Fitting(ws) && (Title in flags ==> |ws| >= 1) && (Artist in flags ==> |ws| >= 2)
  }

  predicate Fitting(ws: seq<string>) {
    (|ws| >= 1 ==> |ws[0]| < WORD_ROOM) && (|ws| >= 2 ==> |ws[1]| < WORD_ROOM)
  }

  function FirstWords(m: Meta, ws: seq<string>): Meta
    requires Readable(m.flags, ws)
  {
    m.(title := if Title in m.flags then Some(ws[0]) else None,
       artist := if Artist in m.flags then Some(ws[1]) else None)
  }

  lemma NumbersInRange(m: Meta)
    ensures InRange(Numbers(m))
  {
    BitsBound(m.flags, FIELDS);
    assert Two(7) == 128;
    hide Bits;
  }

  // Whatever text follows the numbers.
  lemma ReadBack(m: Meta, text: string)
    ensures var r, ws := Unserialize(Prefix(Numbers(m)) + text), Split(text);
            && (r.Record? <==> Readable(m.flags, ws))
            && (r.Record? ==> r.meta == FirstWords(m, ws))
            && (r.Overrun? <==> !Fitting(ws)) && !r.OutOfRange?
  {
    NumbersRead(Numbers(m), text);
    NumbersInRange(m);
    FlagsBack(m.flags);
    ScanTakes(text);
    ScanTakes(ScanWord(text).rest);
    hide ScanNumbers, Prefix, Bits, FieldsIn, ScanWord, InRange, Split;
  }

  // What of title and artist a buffer of this size takes.
  function Shown(m: Meta, size: nat): string
    requires |Prefix(Numbers(m))| < size
  {
    Fit(Texts(m), size - |Prefix(Numbers(m))|)
  }

  lemma FitPrefix(p: string, text: string, size: nat)
    requires |p| < size
    ensures Fit(p + text, size) == p + Fit(text, size - |p|)
  {
  }

  /* A record that is printed into a buffer and read: exactly when the first two words of what the buffer takes are
     short and those that the flags call for are there, flags and numbers come back with these words. */
  lemma ReadsExactly(m: Meta, size: nat)
    requires |Prefix(Numbers(m))| < size
    ensures var r, ws := Unserialize(Fit(Serialize(m), size)), Split(Shown(m, size));
            && (r.Record? <==> Readable(m.flags, ws))
            && (r.Record? ==> r.meta == FirstWords(m, ws))
            && (r.Overrun? <==> !Fitting(ws)) && !r.OutOfRange?
  {
    hide Prefix, Numbers, Unserialize, Texts, Split, Readable, FirstWords, Fitting;
    FitPrefix(Prefix(Numbers(m)), Texts(m), size);
    ReadBack(m, Shown(m, size));
  }

  // From any buffer of 61 characters or more, what is read at all has the flags and numbers that were printed.
  lemma NumbersSurvive(m: Meta, size: nat)
    requires size >= 61
    ensures var r := Unserialize(Fit(Serialize(m), size));
            r.Record? ==>
              && r.meta.flags == m.flags && r.meta.state == m.state && r.meta.volume == m.volume
              && r.meta.position == m.position && r.meta.duration == m.duration
  {
    NumbersLength(m);
    hide Prefix, Numbers, Unserialize, Serialize, Split, Shown, Fit;
    ReadsExactly(m, size);
  }

  // ---------- Title and artist ----------

  // Known text is a word that fits its buffer; unknown text is missing.
  predicate Travels(known: bool, text: Option<string>) {
    if known then text.Some? && IsWord(text.value) && |text.value| < WORD_ROOM else text == None
  }

  predicate AllTravels(m: Meta) { Travels(Title in m.flags, m.title) && Travels(Artist in m.flags, m.artist) }

  // What was read can be printed and read again, and so can what is made of it.
  lemma NewsTravels(text: Option<string>)
    requires Reads(text)
    ensures AllTravels(News(text))
  {
    hide ScanNumbers, FieldsIn, InRange;
  }

  lemma MergeTravels(data: Meta, diff: Meta)
    requires AllTravels(data) && AllTravels(diff)
    ensures AllTravels(Merge(data, diff))
  {
  }

  lemma TextsSplit(m: Meta)
    ensures Split(Texts(m)) == Split(Printed(m.title)) + Split(Printed(m.artist))
  {
    SplitJoin(Printed(m.title), Printed(m.artist));
  }

  lemma PrintedWord(known: bool, text: Option<string>)
    requires Travels(known, text)
    ensures IsWord(Printed(text)) && |Printed(text)| < WORD_ROOM && Split(Printed(text)) == [Printed(text)]
  {
    SplitWord(Printed(text));
  }

  lemma WordsAlone(m: Meta)
    requires AllTravels(m)
    ensures Split(Texts(m)) == [Printed(m.title), Printed(m.artist)] && Readable(m.flags, Split(Texts(m)))
  {
    TextsSplit(m);
    PrintedWord(Title in m.flags, m.title);
    PrintedWord(Artist in m.flags, m.artist);
  }

  lemma FirstIsWord(a: string, b: string)
    requires Split(a) + Split(b) != []
    ensures IsWord((Split(a) + Split(b))[0])
    ensures |Split(a) + Split(b)| > 1 ==> IsWord((Split(a) + Split(b))[1])
  {
    AllWords(a);
    AllWords(b);
  }

  lemma {:induction false} AllWords(s: string)
    ensures forall i :: 0 <= i < |Split(s)| ==> IsWord(Split(s)[i])
  {
    if s != "" {
      AllWords(s[1..]);
    }
  }

  /* The whole record comes back exactly when title and artist are words that fit their buffers where they are known,
     and missing where they are not. */
  lemma RecordBackExactly(m: Meta)
    ensures Unserialize(Serialize(m)) == Record(m) <==> AllTravels(m)
  {
    ReadBack(m, Texts(m));
    TextsSplit(m);
    if AllTravels(m) {
      WordsAlone(m);
    }
    if Readable(m.flags, Split(Texts(m))) && Split(Texts(m)) != [] {
      FirstIsWord(Printed(m.title), Printed(m.artist));
    }
    hide Unserialize, Serialize, Split, Texts, Printed;
  }

  // ---------- Through a buffer of the usual size ----------

  // A title always fits; of an artist, what there is room for.
  function ArtistRoom(m: Meta): int { TEXT_ROOM - |Prefix(Numbers(m))| - |Printed(m.title)| - 1 }

  function Served(m: Meta): Meta
    requires Artist in m.flags ==> m.artist.Some? && ArtistRoom(m) > 0
  {
    if Artist in m.flags then m.(artist := Some(Fit(m.artist.value, ArtistRoom(m)))) else m
  }

  lemma RoomLeft(m: Meta)
    requires AllTravels(m)
    ensures ArtistRoom(m) >= 68 && |Prefix(Numbers(m))| <= 60
  {
    NumbersLength(m);
    PrintedWord(Title in m.flags, m.title);
  }

  lemma FitWord(w: string, size: nat)
    requires IsWord(w) && size > 1
    ensures IsWord(Fit(w, size)) && |Fit(w, size)| <= |w|
  {
  }

  /* A record that could be read once can be printed into such a buffer and read again, whatever the lengths of title
     and artist: at worst the artist is cut. */
  lemma ServedReads(m: Meta)
    requires AllTravels(m)
    ensures ArtistRoom(m) >= 68
    ensures Unserialize(Fit(Serialize(m), TEXT_ROOM)) == Record(Served(m))
  {
    RoomLeft(m);
    ReadsExactly(m, TEXT_ROOM);
    PrintedWord(Title in m.flags, m.title);
    PrintedWord(Artist in m.flags, m.artist);
    var title, artist := Printed(m.title), Printed(m.artist);
    var cut := Fit(artist, ArtistRoom(m));
    FitPrefix(title + "\t", artist, TEXT_ROOM - |Prefix(Numbers(m))|);
    assert Shown(m, TEXT_ROOM) == title + "\t" + cut;
    FitWord(artist, ArtistRoom(m));
    SplitJoin(title, cut);
    SplitWord(cut);
    hide Prefix, Numbers, Unserialize, Serialize, Split, Shown, IsWord;
  }

  // ---------- What cannot be read ----------

  lemma WordPart(w: string, n: nat)
    requires IsWord(w) && 0 < n <= |w|
    ensures IsWord(w[..n])
  {
  }

  // However much of it a buffer takes, a long word at the beginning does not fit.
  lemma LongFirst(title: string, more: string, room: nat)
    requires IsWord(title) && |title| >= WORD_ROOM && room > WORD_ROOM
    ensures !Fitting(Split(Fit(title + "\t" + more, room)))
  {
    hide Split, IsWord;
    var text := title + "\t";
    if |text| < room {
      FitPrefix(text, more, room);
      var cut := Fit(more, room - |text|);
      SplitJoin(title, cut);
      SplitWord(title);
    } else {
      assert Fit(text + more, room) == title[..room - 1];
      WordPart(title, room - 1);
      SplitWord(title[..room - 1]);
    }
  }

  // A title of 128 characters or more runs over its buffer.
  lemma LongTitleOverruns(m: Meta)
    requires m.title.Some? && IsWord(m.title.value) && |m.title.value| >= WORD_ROOM
    ensures Unserialize(Fit(Serialize(m), TEXT_ROOM)) == Overrun
  {
    NumbersLength(m);
    hide Prefix, Numbers, Unserialize, Serialize, Fit, Split, Fitting, Readable;
    ReadsExactly(m, TEXT_ROOM);
    LongFirst(m.title.value, Printed(m.artist), TEXT_ROOM - |Prefix(Numbers(m))|);
  }

  // An artist that is flagged but empty is never written and read all the same.
  lemma EmptyArtistUnread(m: Meta)
    requires Artist in m.flags && m.artist == Some("")
    requires m.title.Some? && IsWord(m.title.value) && |m.title.value| < WORD_ROOM
    ensures Unserialize(Fit(Serialize(m), TEXT_ROOM)) == Unread
  {
    NumbersLength(m);
    ReadsExactly(m, TEXT_ROOM);
    TextsSplit(m);
    SplitWord(m.title.value);
    hide Unserialize, Serialize, Prefix, Numbers, Bits;
    assert Shown(m, TEXT_ROOM) == Texts(m);
  }
}
