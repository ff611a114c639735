/** Filling and reading a parcel by a format: the loops over the conversions. */
module Scan {
  import opened Prelude
  import opened Bytes
  import opened Framing
  import opened Parcels
  import opened Marshal

  // ---------- Writing ----------

  lemma EncodeFirst(fmt: string, args: seq<Arg>, before: seq<Byte>)
    requires fmt != "" && Known(fmt[0]) && Matches(fmt, args)
    ensures before + EncodeArgs(fmt, args) == before + EncodeArg(fmt[0], args[0]) + EncodeArgs(fmt[1..], args[1..])
    ensures |EncodeArgs(fmt, args)| == |EncodeArg(fmt[0], args[0])| + |EncodeArgs(fmt[1..], args[1..])|
  {
    AppendTwice(before, EncodeArg(fmt[0], args[0]), EncodeArgs(fmt[1..], args[1..]));
  }

  // Below 2 GiB there is room for every append to a parcel that has grown by appends.
  lemma RoomForMore(r: Room, size: nat, total: nat)
    requires Economical(r) && r.len + size <= total && Receivable(total)
    ensures Economical(Appended(r, size)) && Allocatable(Appended(r, size).cap)
  {
    CheapEnough(r, size);
  }

  /* media_parcel_append_vprintf: appends every argument, or stops at the one there is no room for. */
  method AppendVprintf(p: Parcel, fmt: string, args: seq<Arg>) returns (ret: int)
    requires p.Filled() && Matches(fmt, args) && p.Len() + |EncodeArgs(fmt, args)| < 0x1_0000_0000
    modifies p, p.chunk
    ensures p.Filled() && p.next == old(p.next) && p.Code() == old(p.Code())
    ensures p.chunk == old(p.chunk) || fresh(p.chunk)
    ensures ret == 0 || ret == -ENOMEM
    ensures ret == 0 ==> p.Payload() == old(p.Payload()) + EncodeArgs(fmt, args)
    ensures ret != 0 ==> old(p.Payload()) <= p.Payload() <= old(p.Payload()) + EncodeArgs(fmt, args)
    ensures old(Economical(p.Space())) && Receivable(old(p.Len()) + |EncodeArgs(fmt, args)|) ==>
              ret == 0 && Economical(p.Space())
  {
    var fs, rest := fmt, args;
    ghost var all := p.Payload() + EncodeArgs(fmt, args);
    hide EncodeArg, EncodeArgs, Takes, Economical, Appended, Receivable;
    while fs != ""
      invariant p.Filled() && p.next == old(p.next) && p.Code() == old(p.Code())
      invariant p.chunk == old(p.chunk) || fresh(p.chunk)
      invariant Matches(fs, rest) && p.Payload() + EncodeArgs(fs, rest) == all
      invariant old(p.Payload()) <= p.Payload()
      invariant old(Economical(p.Space())) && Receivable(|all|) ==> Economical(p.Space())
      decreases |fs|
    {
      if Known(fs[0]) {
        ghost var had := p.Payload();
        EncodeFirst(fs, rest, had);
        if Economical(p.Space()) && Receivable(|all|) {
          RoomForMore(p.Space(), |EncodeArg(fs[0], rest[0])|, |all|);
        }
        ret := p.Append(EncodeArg(fs[0], rest[0]));
        if ret < 0 {
          assert all[..|had|] == had;
          return;
        }
        assert p.Payload() == had + EncodeArg(fs[0], rest[0]);
        fs, rest := fs[1..], rest[1..];
        assert p.Payload() + EncodeArgs(fs, rest) == all;
      } else {
        Skip(fs, rest);
        fs := fs[1..];
        assert p.Payload() + EncodeArgs(fs, rest) == all;
      }
    }
    Skip(fs, rest);
    assert all == p.Payload() + [];
    ret := 0;
  }

  lemma Skip(fmt: string, args: seq<Arg>)
    requires Matches(fmt, args)
    ensures fmt == "" ==> EncodeArgs(fmt, args) == []
    ensures fmt != "" && !Known(fmt[0]) ==>
              Matches(fmt[1..], args) && EncodeArgs(fmt, args) == EncodeArgs(fmt[1..], args)
  {
  }

  // ---------- Reading ----------

  ghost predicate Readable(p: Parcel)
    reads p, p.chunk
  {
    p.Filled() && p.next <= p.Len()
  }

  lemma SliceIn(s: array<Byte>, at: nat, len: nat, k: nat, size: nat)
    requires at + len <= s.Length && k + size <= len
    ensures s[at..at + len][k..k + size] == s[at + k..at + k + size]
  {
    var part, all := s[at..at + len][k..k + size], s[at + k..at + k + size];
    assert forall i :: 0 <= i < size ==> part[i] == all[i];
  }

  // media_parcel_copy
  method Copy(p: Parcel, size: nat) returns (ret: int, data: seq<Byte>)
    requires Readable(p)
    modifies p`next
    ensures Readable(p)
    ensures if old(p.next) + size > p.Len() then ret == -ENOSPC && p.next == old(p.next)
            else ret == 0 && p.next == old(p.next) + size && data == p.Payload()[old(p.next)..p.next]
  {
    if p.next + size > p.Len() {
      return -ENOSPC, [];
    }
    data := p.chunk[HEADER + p.next..HEADER + p.next + size];
    SliceIn(p.chunk, HEADER, p.Len(), p.next, size);
    p.next := p.next + size;
    ret := 0;
  }

  // media_parcel_read_string: up to the next zero byte, if there is one.
  method ReadString(p: Parcel) returns (text: Option<CString>)
    requires Readable(p)
    modifies p`next
    ensures Readable(p)
    ensures Item(Some(Text(text)), p.next) == ReadOne('s', p.Payload(), old(p.next))
  {
    var end := p.next;
    while end < p.Len() && p.chunk[HEADER + end] != 0
      invariant p.next <= end <= p.Len()
      invariant forall i :: p.next <= i < end ==> p.Payload()[i] != 0
      decreases p.Len() - end
    {
      assert p.Payload()[end] == p.chunk[HEADER + end];
      end := end + 1;
    }
    if end == p.Len() {
      NoZero(p.Payload(), p.next);
      return None;
    }
    assert p.Payload()[end] == p.chunk[HEADER + end];
    ZeroAt(p.Payload(), p.next, end);
    ghost var start := p.next;
    var ret, data := Copy(p, end - p.next + 1);
    if data[0] == 0 {
      return None;
    }
    assert data[..|data| - 1] == p.Payload()[start..end];
    text := Some(data[..|data| - 1]);
  }

  lemma NoZero(buf: seq<Byte>, k: nat)
    requires k <= |buf| && forall i :: k <= i < |buf| ==> buf[i] != 0
    ensures ZeroFrom(buf, k) == |buf|
  {
  }

  /* media_parcel_read_vscanf: reads up to the end of the format, or to the first number that does not fit. */
  method ReadVscanf(p: Parcel, fmt: string) returns (ret: int, values: seq<Arg>)
    requires Readable(p)
    modifies p`next
    ensures Readable(p) && (ret == 0 || ret == -ENOSPC)
    ensures Read(values, p.next, ret == 0) == ReadArgs(fmt, p.Payload(), old(p.next))
  {
    var fs := fmt;
    ret, values := 0, [];
    ghost var buf, start := p.Payload(), p.next;
    AfterNothing(ReadArgs(fmt, buf, start));
    hide ReadArgs, ReadOne;
    while fs != ""
      invariant Readable(p) && p.Payload() == buf && ret == 0
      invariant ReadArgs(fmt, buf, start) == After(values, ReadArgs(fs, buf, p.next))
      decreases |fs|
    {
      var c := fs[0];
      ReadNext(fs, buf, p.next, values);
      if c == 's' {
        var text := ReadString(p);
        values := values + [Text(text)];
      } else if Known(c) {
        ReadNumber(c, buf, p.next);
        var data;
        ret, data := Copy(p, Width(c));
        if ret < 0 {
          return;
        }
        values := values + [DecodeArg(c, data)];
      }
      fs := fs[1..];
    }
    ReadEnd(buf, p.next, values);
  }

  // What was read before, and what follows.
  function After(values: seq<Arg>, rest: Read): Read { Read(values + rest.values, rest.next, rest.ok) }

  lemma AfterNothing(r: Read)
    ensures After([], r) == r
  {
  }

  lemma ReadEnd(buf: seq<Byte>, next: nat, values: seq<Arg>)
    requires next <= |buf|
    ensures After(values, ReadArgs("", buf, next)) == Read(values, next, true)
  {
    assert values + [] == values;
  }

  lemma ReadNumber(c: char, buf: seq<Byte>, next: nat)
    requires Known(c) && c != 's' && next <= |buf|
    ensures ReadOne(c, buf, next) == if next + Width(c) > |buf| then Item(None, next)
                                     else Item(Some(DecodeArg(c, buf[next..next + Width(c)])), next + Width(c))
  {
  }

  // One character more, after the values read so far.
  lemma ReadNext(fs: string, buf: seq<Byte>, next: nat, values: seq<Arg>)
    requires fs != "" && next <= |buf|
    ensures !Known(fs[0]) ==> After(values, ReadArgs(fs, buf, next)) == After(values, ReadArgs(fs[1..], buf, next))
    ensures Known(fs[0]) ==>
              var item := ReadOne(fs[0], buf, next);
              After(values, ReadArgs(fs, buf, next))
              == if item.value == None then Read(values, next, false)
                 else After(values + [item.value.value], ReadArgs(fs[1..], buf, item.next))
  {
    hide ReadOne;
    if Known(fs[0]) {
      var item := ReadOne(fs[0], buf, next);
      if item.value == None {
        assert values + [] == values;
      } else {
        AppendTwice(values, [item.value.value], ReadArgs(fs[1..], buf, item.next).values);
      }
    }
  }
}
