/** The parcel: a chunk of memory holding a header and a payload that grows as it is filled or received. */
module Parcels {
  import opened Prelude
  import opened Words
  import opened Bytes
  import opened Framing

  const DATA_LEN := 256   // payload room of the chunk every parcel starts with
  const ENOMEM := 12

  // ---------- Growth ----------

  // Allocations of 4 GiB and more are refused; everything below succeeds.
  predicate Allocatable(size: int) { HEADER + size < 0x1_0000_0000 }

  // The capacity after making room for `need` bytes; doubling is in 32-bit arithmetic.
  function GrownCap(cap: nat, need: nat): nat {
    if need <= cap then cap
    else if need <= ToWord32(2 * cap) then ToWord32(2 * cap)
    else need
  }

  lemma GrownEnough(cap: nat, need: nat)
    ensures GrownCap(cap, need) >= need
    ensures need <= cap ==> GrownCap(cap, need) == cap
  {
  }

  // Length, capacity, payload bytes moved by reallocations so far, and whether the chunk is still the first one.
  datatype Room = Room(len: nat, cap: nat, moved: nat, first: bool)

  // The first chunk gives its payload to the new one; a later one is moved whole.
  function Grown(r: Room, size: nat): Room {
    var cap := GrownCap(r.cap, r.len + size);
    if cap == r.cap then r
    else Room(r.len, cap, r.moved + if r.first then r.len else r.cap, false)
  }

  function Appended(r: Room, size: nat): Room {
    if size == 0 then r else Grown(r, size).(len := r.len + size)
  }

  function AppendAll(r: Room, sizes: seq<nat>): Room {
    if sizes == [] then r
    else Appended(AppendAll(r, sizes[..|sizes| - 1]), sizes[|sizes| - 1])
  }

  const FRESH := Room(0, DATA_LEN, 0, true)

  predicate Economical(r: Room) {
    && r.len <= r.cap && r.cap >= DATA_LEN
    && (r.cap == DATA_LEN || r.cap < 2 * r.len)
    && r.moved <= r.cap - DATA_LEN
    && (r.first ==> r.cap == DATA_LEN && r.moved == 0)
  }

  // No more room is needed, or doubling does not wrap, or so much is needed at once that the moves stay cheap.
  predicate Cheap(r: Room, size: nat) {
    || size == 0 || r.len + size <= r.cap || 2 * r.cap < 0x1_0000_0000
    || r.moved + r.cap + DATA_LEN <= r.len + size
  }

  // One append: a reallocation at least doubles the capacity as long as that does not wrap.
  lemma AppendedEconomical(r: Room, size: nat)
    requires Economical(r) && r.cap < 0x1_0000_0000
    ensures Economical(Appended(r, size)) <==> Cheap(r, size)
    ensures Appended(r, size).cap == r.cap || Appended(r, size).cap >= 2 * r.cap
            <==> size == 0 || r.len + size <= r.cap || 2 * r.cap < 0x1_0000_0000 || r.len + size >= 2 * r.cap
  {
  }

  // Up to 2 GiB every append is cheap.
  lemma CheapEnough(r: Room, size: nat)
    requires Economical(r) && r.len + size <= 0x8000_0000
    ensures Cheap(r, size) && Economical(Appended(r, size))
  {
  }

  lemma {:induction false} LengthGrows(r: Room, sizes: seq<nat>)
    ensures AppendAll(r, sizes).len >= r.len
  {
    if sizes != [] {
      LengthGrows(r, sizes[..|sizes| - 1]);
    }
  }

  // Over any sequence of appends the moves together copy less than the capacity gained.
  lemma {:induction false} AppendsEconomical(sizes: seq<nat>)
    requires AppendAll(FRESH, sizes).len <= 0x8000_0000
    ensures Economical(AppendAll(FRESH, sizes))
  {
    if sizes != [] {
      AppendsEconomical(sizes[..|sizes| - 1]);
      CheapEnough(AppendAll(FRESH, sizes[..|sizes| - 1]), sizes[|sizes| - 1]);
    }
  }

  // For every greater total below 4 GiB there are appends that copy more than that.
  lemma TwoGigabytesAtMost(total: nat)
    requires 0x8000_0000 < total < 0x1_0000_0000
    ensures var sizes: seq<nat> := [0x8000_0000, 1, total - 0x8000_0001];
            AppendAll(FRESH, sizes).len == total && !Economical(AppendAll(FRESH, sizes))
  {
    var a, b: seq<nat> := [0x8000_0000], [0x8000_0000, 1];
    var sizes: seq<nat> := [0x8000_0000, 1, total - 0x8000_0001];
    assert a[..0] == [] && b[..1] == a && sizes[..2] == b;
    assert AppendAll(FRESH, a) == Appended(FRESH, 0x8000_0000) == Room(0x8000_0000, 0x8000_0000, 0, false);
    assert AppendAll(FRESH, b) == Room(0x8000_0001, 0x8000_0001, 0x8000_0000, false);
  }

  // ---------- The parcel ----------

  class Parcel {
    var chunk: array<Byte>    // 4 bytes of code, 4 of length, then the payload buffer
    var next: nat             // read cursor into the payload
    var cap: nat              // payload bytes the chunk has room for
    var first: bool           // the chunk is the one inside the parcel
    ghost var moved: nat      // payload bytes copied by reallocations

    ghost predicate Valid()
      reads this, chunk
    {
      chunk.Length == HEADER + cap && DATA_LEN <= cap && Allocatable(cap) && (first ==> cap == DATA_LEN)
    }

    function Code(): nat
      requires chunk.Length >= HEADER
      reads this, chunk
    {
      FromLe(chunk[..4])
    }

    function Len(): nat
      requires chunk.Length >= HEADER
      reads this, chunk
    {
      FromLe(chunk[4..8])
    }

    // The length does not exceed the room, so there is a payload.
    ghost predicate Filled()
      reads this, chunk
    {
      Valid() && Len() <= cap
    }

    ghost function Payload(): (p: seq<Byte>)
      requires Filled()
      reads this, chunk
      ensures |p| == Len()
    {
      chunk[HEADER..HEADER + Len()]
    }

    ghost function Space(): Room
      requires Filled()
      reads this, chunk
    {
      Room(Len(), cap, moved, first)
    }

    constructor ()
      ensures Filled() && Payload() == [] && Code() == 0 && next == 0 && fresh(chunk)
      ensures Space() == FRESH && chunk[..HEADER] == Le(0, 4) + Le(0, 4)
    {
      chunk := new Byte[HEADER + DATA_LEN](_ => 0);
      next := 0;
      cap := DATA_LEN;
      first := true;
      moved := 0;
      new;
      assert chunk[..4] == chunk[..HEADER][..4] && chunk[4..8] == chunk[..HEADER][4..8];
      ZeroHeader(chunk[..HEADER]);
    }

    // media_parcel_init and media_parcel_reinit: back to the first chunk, with code and length 0.
    method Reinit()
      modifies this
      ensures Filled() && Payload() == [] && Code() == 0 && next == 0 && fresh(chunk)
      ensures Space() == FRESH && chunk[..HEADER] == Le(0, 4) + Le(0, 4)
    {
      chunk := new Byte[HEADER + DATA_LEN](_ => 0);
      next := 0;
      cap := DATA_LEN;
      first := true;
      moved := 0;
      assert chunk[..4] == chunk[..HEADER][..4] && chunk[4..8] == chunk[..HEADER][4..8];
      ZeroHeader(chunk[..HEADER]);
    }

    method Write(at: nat, data: seq<Byte>)
      requires at + |data| <= chunk.Length
      modifies chunk
      ensures chunk[..] == old(chunk[..at]) + data + old(chunk[at + |data|..])
    {
      forall i | at <= i < at + |data| {
        chunk[i] := data[i - at];
      }
    }

    // Keeps the header and `cursz` bytes of payload.
    method Grow(cursz: nat, newsz: nat) returns (ret: int)
      requires Valid() && cursz <= cap
      modifies this
      ensures Valid() && next == old(next)
      ensures chunk == old(chunk) || fresh(chunk)
      ensures cursz <= cap && chunk[..HEADER + cursz] == old(chunk[..HEADER + cursz])
      ensures var want := GrownCap(old(cap), old(Len()) + newsz);
              if want == old(cap) then
                ret == 0 && unchanged(this)
              else if Allocatable(want) then
                ret == 0 && cap == want && !first && moved == old(moved) + if old(first) then cursz else old(cap)
              else
                ret == -ENOMEM && unchanged(this)
    {
      var need := newsz + Len();
      if need <= cap {
        return 0;
      }
      if need <= ToWord32(2 * cap) {
        need := ToWord32(2 * cap);
      }
      if !Allocatable(need) {
        return -ENOMEM;
      }
      var newChunk := new Byte[HEADER + need](_ => 0);
      if first {
        forall i | 0 <= i < HEADER + cursz {
          newChunk[i] := chunk[i];
        }
        moved := moved + cursz;
      } else {
        forall i | 0 <= i < HEADER + cap {
          newChunk[i] := chunk[i];
        }
        moved := moved + cap;
      }
      assert newChunk[..HEADER + cursz] == old(chunk[..HEADER + cursz]);
      chunk, cap, first := newChunk, need, false;
      ret := 0;
    }

    // The data and the new length, where there is room.
    method Store(len: nat, data: seq<Byte>)
      requires HEADER + len + |data| <= chunk.Length && len + |data| < 0x1_0000_0000
      modifies chunk
      ensures chunk[..4] == old(chunk[..4]) && FromLe(chunk[4..8]) == len + |data|
      ensures chunk[HEADER..HEADER + len + |data|] == old(chunk[HEADER..HEADER + len]) + data
    {
      SpanValues();
      SliceOf(chunk, len);
      hide Le, FromLe, Span;
      ghost var was := chunk[..];
      Write(HEADER + len, data);
      Write(4, Le(len + |data|, 4));
      AppendedBytes(was, len, data, chunk[..]);
      SliceOf(chunk, len + |data|);
    }

    method Append(data: seq<Byte>) returns (ret: int)
      requires Filled() && Len() + |data| < 0x1_0000_0000
      modifies this, chunk
      ensures Filled() && next == old(next) && Code() == old(Code())
      ensures chunk == old(chunk) || fresh(chunk)
      ensures ret == 0 || ret == -ENOMEM
      ensures ret == 0 ==> Payload() == old(Payload()) + data && Space() == Appended(old(Space()), |data|)
      ensures ret != 0 ==> Payload() == old(Payload())
      ensures ret == 0 <==> Allocatable(Appended(old(Space()), |data|).cap)
    {
      if data == [] {
        return 0;
      }
      GrownEnough(cap, Len() + |data|);
      hide Le, FromLe, Span, GrownCap;
      var len := Len();
      ghost var had := chunk[..HEADER + len];
      PrefixParts(chunk, len, had);
      ret := Grow(len, |data|);
      if ret < 0 {
        return;
      }
      PrefixParts(chunk, len, had);
      Store(len, data);
    }

    lemma PrefixParts(c: array<Byte>, len: nat, p: seq<Byte>)
      requires HEADER + len <= c.Length && c[..HEADER + len] == p
      ensures c[..4] == p[..4] && c[HEADER..HEADER + len] == p[HEADER..]
    {
    }

    // The header fields and the payload as parts of the whole chunk.
    lemma SliceOf(c: array<Byte>, len: nat)
      requires HEADER + len <= c.Length
      ensures c[..4] == c[..][..4] && c[4..8] == c[..][4..8] && c[HEADER..HEADER + len] == c[..][HEADER..HEADER + len]
    {
    }
  }

  // What the bytes are after an append: the same code, the new length, the old payload and the data.
  lemma AppendedBytes(was: seq<Byte>, len: nat, data: seq<Byte>, after: seq<Byte>)
    requires HEADER + len + |data| <= |was| && len + |data| < Span(4)
    requires var filled := was[..HEADER + len] + data + was[HEADER + len + |data|..];
             after == filled[..4] + Le(len + |data|, 4) + filled[8..]
    ensures |after| == |was| && after[..4] == was[..4]
    ensures FromLe(after[4..8]) == len + |data|
    ensures after[HEADER..HEADER + len + |data|] == was[HEADER..HEADER + len] + data
  {
    var n, total := HEADER + len, HEADER + len + |data|;
    var filled := was[..n] + data + was[total..];
    LeExact(len + |data|, 4);
    hide Le, FromLe, Span;
    ThreeParts(filled[..4], Le(len + |data|, 4), filled[8..]);
    assert filled[..4] == was[..4];
    assert after[8..total] == filled[8..][..total - 8];
    assert filled[..total] == was[..n] + data;
    assert filled[8..][..total - 8] == filled[..total][8..] == was[..n][8..] + data;
  }

  lemma ZeroHeader(h: seq<Byte>)
    requires |h| == HEADER && forall i :: 0 <= i < HEADER ==> h[i] == 0
    ensures FromLe(h[..4]) == 0 && FromLe(h[4..8]) == 0 && h == Le(0, 4) + Le(0, 4)
  {
    assert Le(0, 4) == [0, 0, 0, 0];
    assert h[..4] == Le(0, 4) == h[4..8];
    LeExact(0, 4);
  }
}
