/* The little-endian cursor readers of l_common.cpp, over an in-memory byte
   stream that plays the part of SDL_RWops. */
module Common {
  import opened Wrappers

  /** An octet of the level file (bitu8). */
  type byte = x: int | 0 <= x < 0x100

  // ---------------------------------------------------------------------
  // Fixed-width integers: truncation and two's-complement reinterpretation

  /** Conversion of any integer to an unsigned 8/16/32-bit field (C++ modular conversion). */
  function Wrap8(v: int): (r: nat) ensures r < 0x100 { v % 0x100 }
  function Wrap16(v: int): (r: nat) ensures r < 0x1_0000 { v % 0x1_0000 }
  function Wrap32(v: int): (r: nat) ensures r < 0x1_0000_0000 { v % 0x1_0000_0000 }

  /** Two's-complement reading of an unsigned bit pattern. */
  function Signed8(u: nat): (r: int)
    requires u < 0x100
    ensures -0x80 <= r < 0x80
  { if u < 0x80 then u else u - 0x100 }

  function Signed16(u: nat): (r: int)
    requires u < 0x1_0000
    ensures -0x8000 <= r < 0x8000
  { if u < 0x8000 then u else u - 0x1_0000 }

  function Signed32(u: nat): (r: int)
    requires u < 0x1_0000_0000
    ensures -0x8000_0000 <= r < 0x8000_0000
  { if u < 0x8000_0000 then u else u - 0x1_0000_0000 }

  /** Conversion of any integer to a signed 16-bit field (bit16). */
  function ToBit16(v: int): (r: int)
    ensures -0x8000 <= r < 0x8000
  { Signed16(Wrap16(v)) }

  /** Conversion of any integer to a signed 32-bit value (bit32, int). */
  function ToBit32(v: int): (r: int)
    ensures -0x8000_0000 <= r < 0x8000_0000
  { Signed32(Wrap32(v)) }

  /** The conversions leave a value that already fits unchanged: an
      unsigned 16-bit pattern is read as two's complement, and a value in
      the signed 32-bit range is kept. */
  lemma ToBit16OfUnsigned(u: nat)
    requires u < 0x1_0000
    ensures ToBit16(u) == Signed16(u)
  {}

  lemma ToBit32InRange(v: int)
    requires -0x8000_0000 <= v < 0x8000_0000
    ensures ToBit32(v) == v
  {
    if v < 0 { assert Wrap32(v) == v + 0x1_0000_0000; }
  }

  // ---------------------------------------------------------------------
  // Little-endian decoding of the bytes at a position

  function U8At(d: seq<byte>, p: nat): (v: nat)
    requires p + 1 <= |d|
    ensures v < 0x100
  { d[p] }

  function U16At(d: seq<byte>, p: nat): (v: nat)
    requires p + 2 <= |d|
    ensures v < 0x1_0000
  { d[p] as int + 0x100 * (d[p + 1] as int) }

  function U32At(d: seq<byte>, p: nat): (v: nat)
    requires p + 4 <= |d|
    ensures v < 0x1_0000_0000
  { U16At(d, p) + 0x1_0000 * U16At(d, p + 2) }

  function S8At(d: seq<byte>, p: nat): int requires p + 1 <= |d| { Signed8(U8At(d, p)) }
  function S16At(d: seq<byte>, p: nat): int requires p + 2 <= |d| { Signed16(U16At(d, p)) }
  function S32At(d: seq<byte>, p: nat): int requires p + 4 <= |d| { Signed32(U32At(d, p)) }

  /** The little-endian byte images of 16- and 32-bit values. */
  function EncodeU16(v: nat): (b: seq<byte>)
    requires v < 0x1_0000
    ensures |b| == 2
  { [v % 0x100, v / 0x100] }

  function EncodeU32(v: nat): (b: seq<byte>)
    requires v < 0x1_0000_0000
    ensures |b| == 4
  { EncodeU16(v % 0x1_0000) + EncodeU16(v / 0x1_0000) }

  lemma SplitWords(lo: nat, hi: nat)
    requires lo < 0x1_0000 && hi < 0x1_0000
    ensures (lo + 0x1_0000 * hi) % 0x1_0000 == lo
    ensures (lo + 0x1_0000 * hi) / 0x1_0000 == hi
  {}

  lemma DecodeEncodeU16(v: nat, rest: seq<byte>)
    requires v < 0x1_0000
    ensures U16At(EncodeU16(v) + rest, 0) == v
  {
  }

  lemma EncodeDecodeU16(d: seq<byte>, p: nat)
    requires p + 2 <= |d|
    ensures EncodeU16(U16At(d, p)) == d[p..p + 2]
  {
  }

  lemma DecodeEncodeU32(v: nat, rest: seq<byte>)
    requires v < 0x1_0000_0000
    ensures U32At(EncodeU32(v) + rest, 0) == v
  {
    var b := EncodeU32(v) + rest;
    var lo, hi := v % 0x1_0000, v / 0x1_0000;
    assert v == lo + 0x1_0000 * hi && hi < 0x1_0000;
    DecodeEncodeU16(lo, EncodeU16(hi) + rest);
    assert b == EncodeU16(lo) + (EncodeU16(hi) + rest);
    DecodeEncodeU16(hi, rest);
    assert b[2..] == EncodeU16(hi) + rest;
    assert U16At(b, 2) == U16At(b[2..], 0);
  }

  lemma EncodeDecodeU32(d: seq<byte>, p: nat)
    requires p + 4 <= |d|
    ensures EncodeU32(U32At(d, p)) == d[p..p + 4]
  {
    var lo, hi := U16At(d, p), U16At(d, p + 2);
    SplitWords(lo, hi);
    EncodeDecodeU16(d, p);
    EncodeDecodeU16(d, p + 2);
    assert d[p..p + 4] == d[p..p + 2] + d[p + 2..p + 4];
  }

  /** Two's-complement reading inverts the modular conversion on the signed
      range: it returns the unique value of that range congruent to the pattern. */
  lemma {:induction false} SignedInverts8(u: nat, w: int)
    requires u < 0x100 && -0x80 <= w < 0x80 && Wrap8(w) == u
    ensures Signed8(u) == w
  {
    if w < 0 { assert (w + 0x100) % 0x100 == w % 0x100; }
  }

  lemma {:induction false} SignedInverts16(u: nat, w: int)
    requires u < 0x1_0000 && -0x8000 <= w < 0x8000 && Wrap16(w) == u
    ensures Signed16(u) == w
  {
    if w < 0 { assert (w + 0x1_0000) % 0x1_0000 == w % 0x1_0000; }
  }

  lemma {:induction false} SignedInverts32(u: nat, w: int)
    requires u < 0x1_0000_0000 && -0x8000_0000 <= w < 0x8000_0000 && Wrap32(w) == u
    ensures Signed32(u) == w
  {
    if w < 0 { assert (w + 0x1_0000_0000) % 0x1_0000_0000 == w % 0x1_0000_0000; }
  }

  /** A signed reader returns the two's-complement reading of the bytes the
      unsigned reader of the same width returns. */
  lemma {:induction false} SignedIsReinterpretation(d: seq<byte>, p: nat)
    ensures p + 1 <= |d| ==> forall w | -0x80 <= w < 0x80 && Wrap8(w) == U8At(d, p) :: S8At(d, p) == w
    ensures p + 2 <= |d| ==> forall w | -0x8000 <= w < 0x8000 && Wrap16(w) == U16At(d, p) :: S16At(d, p) == w
    ensures p + 4 <= |d| ==> forall w | -0x8000_0000 <= w < 0x8000_0000 && Wrap32(w) == U32At(d, p) :: S32At(d, p) == w
  {
    if p + 1 <= |d| {
      forall w | -0x80 <= w < 0x80 && Wrap8(w) == U8At(d, p) ensures S8At(d, p) == w { SignedInverts8(U8At(d, p), w); }
    }
    if p + 2 <= |d| {
      forall w | -0x8000 <= w < 0x8000 && Wrap16(w) == U16At(d, p) ensures S16At(d, p) == w { SignedInverts16(U16At(d, p), w); }
    }
    if p + 4 <= |d| {
      forall w | -0x8000_0000 <= w < 0x8000_0000 && Wrap32(w) == U32At(d, p) ensures S32At(d, p) == w { SignedInverts32(U32At(d, p), w); }
    }
  }

  // ---------------------------------------------------------------------
  // Floating-point values, carried without interpretation

  /** A 32-bit float. Values read from the file stay raw bit patterns; values
      computed by the decoder stay symbolic (the integer converted, the
      quotient taken, the angle derived), because float arithmetic is not
      modelled. The zero-initialised float is FromInt(0). */
  datatype Float32 =
    | FromInt(n: int)                 // (float)n
    | Bits(pattern: nat)              // the raw IEEE-754 pattern read from the file, below 2^32
    | Quotient(num: int, den: int)    // (float)num / den
    | Degrees(raw: int)               // (float)raw / 16384.0f * -90

  /** IEEE-754 negation of a raw pattern: the sign bit (bit 31) flips and the
      other 31 bits are kept. */
  function NegBits(b: nat): (f: Float32)
    requires b < 0x1_0000_0000
    ensures f.Bits? && f.pattern < 0x1_0000_0000
    ensures f.pattern % 0x8000_0000 == b % 0x8000_0000
    ensures (f.pattern >= 0x8000_0000) != (b >= 0x8000_0000)
  { Bits(if b >= 0x8000_0000 then b - 0x8000_0000 else b + 0x8000_0000) }

  function F32At(d: seq<byte>, p: nat): Float32
    requires p + 4 <= |d|
  { Bits(U32At(d, p)) }

  // ---------------------------------------------------------------------
  // The byte stream

  /** Position after SDL_RWseek on a memory stream: clamped to the data. */
  function Clamp(offset: int, len: nat): (r: nat)
    ensures r <= len
    ensures 0 <= offset <= len ==> r == offset
    ensures offset < 0 ==> r == 0
    ensures offset > len ==> r == len
  { if offset < 0 then 0 else if offset > len then len else offset }

  /** The int offset that `base + off` becomes when `off` is unsigned: the sum
      wraps modulo 2^32 and is passed to SDL_RWseek as a signed int. */
  function SeekTarget(base: int, off: int): (r: int)
    ensures 0 <= base && 0 <= off && base + off < 0x8000_0000 ==> r == base + off
  { ToBit32(base + off) }

  class Cursor {
    const data: seq<byte>
    var pos: nat

    ghost predicate Valid() reads this { pos <= |data| }

    /** SDL_RWFromMem over a byte buffer. */
    constructor (bytes: seq<byte>)
      ensures data == bytes && pos == 0 && Valid()
    {
      data := bytes;
      pos := 0;
    }

    /** SDL_RWseek(src, offset, SEEK_SET). */
    method Seek(offset: int)
      requires Valid()
      modifies this
      ensures Valid() && pos == Clamp(offset, |data|)
    {
      pos := Clamp(offset, |data|);
    }

    /** SDL_RWseek(src, delta, SEEK_CUR). */
    method Skip(delta: int)
      requires Valid()
      modifies this
      ensures Valid() && pos == Clamp(old(pos) + delta, |data|)
    {
      pos := Clamp(pos + delta, |data|);
    }

    /** SDL_RWseek(src, 0, SEEK_CUR): the current position. */
    method Tell() returns (p: nat)
      requires Valid()
      ensures p == pos && p <= |data|
    {
      p := pos;
    }

    /** SDL_RWread(src, buffer, 1, n) < n: reads what is there; fails when
        fewer than n bytes remain. */
    method ReadBytes(n: nat) returns (r: Option<seq<byte>>)
      requires Valid()
      modifies this
      ensures Valid()
      ensures r.Some? <==> old(pos) + n <= |data|
      ensures r.Some? ==> r.value == data[old(pos)..old(pos) + n] && pos == old(pos) + n
      ensures r.None? ==> pos == |data|
    {
      if pos + n <= |data| {
        r := Some(data[pos..pos + n]);
        pos := pos + n;
      } else {
        r := None;
        pos := |data|;
      }
    }

    /** SDL_RWread(src, &x, size, 1) < 1: one object, consumed only if whole. */
    method ReadItem(size: nat) returns (r: Option<seq<byte>>)
      requires Valid()
      modifies this
      ensures Valid()
      ensures r.Some? <==> old(pos) + size <= |data|
      ensures r.Some? ==> r.value == data[old(pos)..old(pos) + size] && pos == old(pos) + size
      ensures r.None? ==> pos == old(pos)
    {
      if pos + size <= |data| {
        r := Some(data[pos..pos + size]);
        pos := pos + size;
      } else {
        r := None;
      }
    }
  }

  // ---------------------------------------------------------------------
  // The seven readers. Each throws TR_ReadError for an absent stream and for a
  // short read; otherwise it consumes exactly its width.

  method ReadBit8(src: Cursor?) returns (r: Result<int>)
    requires src != null ==> src.Valid()
    modifies src
    ensures src == null ==> r == Failure(ReadError("read_bit8: src == NULL"))
    ensures src != null ==> src.Valid() && Matches(r, ParseBit8(src.data, old(src.pos)), src.pos)
  {
    if src == null { return Failure(ReadError("read_bit8: src == NULL")); }
    var b := src.ReadItem(1);
    if b.None? { return Failure(ReadError("read_bit8")); }
    r := Success(Signed8(b.value[0]));
  }

  method ReadBitU8(src: Cursor?) returns (r: Result<int>)
    requires src != null ==> src.Valid()
    modifies src
    ensures src == null ==> r == Failure(ReadError("read_bitu8: src == NULL"))
    ensures src != null ==> src.Valid() && Matches(r, ParseBitU8(src.data, old(src.pos)), src.pos)
  {
    if src == null { return Failure(ReadError("read_bitu8: src == NULL")); }
    var b := src.ReadItem(1);
    if b.None? { return Failure(ReadError("read_bitu8")); }
    r := Success(b.value[0]);
  }

  method ReadBit16(src: Cursor?) returns (r: Result<int>)
    requires src != null ==> src.Valid()
    modifies src
    ensures src == null ==> r == Failure(ReadError("read_bit16: src == NULL"))
    ensures src != null ==> src.Valid() && Matches(r, ParseBit16(src.data, old(src.pos)), src.pos)
  {
    if src == null { return Failure(ReadError("read_bit16: src == NULL")); }
    var b := src.ReadItem(2);
    if b.None? { return Failure(ReadError("read_bit16")); }
    r := Success(Signed16(U16At(b.value, 0)));
  }

  method ReadBitU16(src: Cursor?) returns (r: Result<int>)
    requires src != null ==> src.Valid()
    modifies src
    ensures src == null ==> r == Failure(ReadError("read_bitu16: src == NULL"))
    ensures src != null ==> src.Valid() && Matches(r, ParseBitU16(src.data, old(src.pos)), src.pos)
  {
    if src == null { return Failure(ReadError("read_bitu16: src == NULL")); }
    var b := src.ReadItem(2);
    if b.None? { return Failure(ReadError("read_bitu16")); }
    r := Success(U16At(b.value, 0));
  }

  method ReadBit32(src: Cursor?) returns (r: Result<int>)
    requires src != null ==> src.Valid()
    modifies src
    ensures src == null ==> r == Failure(ReadError("read_bit32: src == NULL"))
    ensures src != null ==> src.Valid() && Matches(r, ParseBit32(src.data, old(src.pos)), src.pos)
  {
    if src == null { return Failure(ReadError("read_bit32: src == NULL")); }
    var b := src.ReadItem(4);
    if b.None? { return Failure(ReadError("read_bit32")); }
    r := Success(Signed32(U32At(b.value, 0)));
  }

  method ReadBitU32(src: Cursor?) returns (r: Result<int>)
    requires src != null ==> src.Valid()
    modifies src
    ensures src == null ==> r == Failure(ReadError("read_bitu32: src == NULL"))
    ensures src != null ==> src.Valid() && Matches(r, ParseBitU32(src.data, old(src.pos)), src.pos)
  {
    if src == null { return Failure(ReadError("read_bitu32: src == NULL")); }
    var b := src.ReadItem(4);
    if b.None? { return Failure(ReadError("read_bitu32")); }
    r := Success(U32At(b.value, 0));
  }

  /** The raw pattern of the next four bytes; on a little-endian host
      SDL_SwapLE32 is the identity. */
  method ReadFloat(src: Cursor?) returns (r: Result<Float32>)
    requires src != null ==> src.Valid()
    modifies src
    ensures src == null ==> r == Failure(ReadError("read_float: src == NULL"))
    ensures src != null ==> src.Valid() && Matches(r, ParseFloat(src.data, old(src.pos)), src.pos)
  {
    if src == null { return Failure(ReadError("read_float: src == NULL")); }
    var b := src.ReadItem(4);
    if b.None? { return Failure(ReadError("read_float")); }
    r := Success(Bits(U32At(b.value, 0)));
  }

  // ---------------------------------------------------------------------
  // Decoding specifications

  /** A reader's result agrees with its specification: it succeeds exactly when
      the specification decodes, with the same value, and leaves the stream
      where the specification ends. */
  ghost predicate Matches<T>(r: Result<T>, spec: Option<Parsed<T>>, pos: nat) {
    (r.Success? <==> spec.Some?) && (r.Success? ==> spec.value == Parsed(r.value, pos))
  }

  function ParseBit8(d: seq<byte>, p: nat): Option<Parsed<int>> {
    if p + 1 <= |d| then Some(Parsed(S8At(d, p), p + 1)) else None
  }
  function ParseBitU8(d: seq<byte>, p: nat): Option<Parsed<int>> {
    if p + 1 <= |d| then Some(Parsed(U8At(d, p), p + 1)) else None
  }
  function ParseBit16(d: seq<byte>, p: nat): Option<Parsed<int>> {
    if p + 2 <= |d| then Some(Parsed(S16At(d, p), p + 2)) else None
  }
  function ParseBitU16(d: seq<byte>, p: nat): Option<Parsed<int>> {
    if p + 2 <= |d| then Some(Parsed(U16At(d, p), p + 2)) else None
  }
  function ParseBit32(d: seq<byte>, p: nat): Option<Parsed<int>> {
    if p + 4 <= |d| then Some(Parsed(S32At(d, p), p + 4)) else None
  }
  function ParseBitU32(d: seq<byte>, p: nat): Option<Parsed<int>> {
    if p + 4 <= |d| then Some(Parsed(U32At(d, p), p + 4)) else None
  }
  function ParseFloat(d: seq<byte>, p: nat): Option<Parsed<Float32>> {
    if p + 4 <= |d| then Some(Parsed(F32At(d, p), p + 4)) else None
  }

  /** `n` consecutive records, each decoded by `f` where the previous one
      ended. Split in two mutually recursive halves, so that a proof sees the
      first record only when it needs it. */
  function ParseMany<T>(d: seq<byte>, p: nat, n: nat, f: (seq<byte>, nat) -> Option<Parsed<T>>): (r: Option<Parsed<seq<T>>>)
    ensures r.Some? ==> |r.value.value| == n
    decreases n, 1
  {
    if n == 0 then Some(Parsed([], p)) else ParseManyCons(d, p, n, f)
  }

  /** The first of `n` > 0 records, followed by the other `n - 1`. */
  function ParseManyCons<T>(d: seq<byte>, p: nat, n: nat, f: (seq<byte>, nat) -> Option<Parsed<T>>): (r: Option<Parsed<seq<T>>>)
    requires n > 0
    ensures r.Some? ==> |r.value.value| == n
    decreases n, 0
  {
    var x :- f(d, p);
    var rest :- ParseMany(d, x.next, n - 1, f);
    Some(Parsed([x.value] + rest.value, rest.next))
  }

  /** `acc` followed by what `r` decoded. */
  function Prepend<T>(acc: seq<T>, r: Option<Parsed<seq<T>>>): Option<Parsed<seq<T>>> {
    if r.None? then None else Some(Parsed(acc + r.value.value, r.value.next))
  }

  /** After `i` of the `n` records from `p0`, the records read so far are
      `acc` and the others start at `q`: the invariant of every counted
      reader loop. */
  ghost predicate Remaining<T>(d: seq<byte>, p0: nat, n: nat, f: (seq<byte>, nat) -> Option<Parsed<T>>,
                               acc: seq<T>, q: nat, i: nat)
  {
    i <= n && ParseMany(d, p0, n, f) == Prepend(acc, ParseMany(d, q, n - i, f))
  }

  /** The loop invariant holds before the first record is read. */
  lemma ParseManyStart<T>(d: seq<byte>, p0: nat, n: nat, f: (seq<byte>, nat) -> Option<Parsed<T>>)
    ensures Remaining(d, p0, n, f, [], p0, 0)
  {
    var r := ParseMany(d, p0, n, f);
    if r.Some? {
      assert [] + r.value.value == r.value.value;
    }
  }

  /** One more record read: the invariant advances by one element. */
  lemma ParseManyStep<T>(d: seq<byte>, p0: nat, n: nat, i: nat, acc: seq<T>, q: nat,
                         f: (seq<byte>, nat) -> Option<Parsed<T>>, x: Parsed<T>)
    requires i < n && Remaining(d, p0, n, f, acc, q, i)
    requires f(d, q) == Some(x)
    ensures Remaining(d, p0, n, f, acc + [x.value], x.next, i + 1)
  {
    assert ParseMany(d, q, n - i, f) == ParseManyCons(d, q, n - i, f);
    var rest := ParseMany(d, x.next, n - i - 1, f);
    if rest.Some? {
      assert acc + ([x.value] + rest.value.value) == acc + [x.value] + rest.value.value;
    }
  }

  /** A record that fails to decode makes the whole list fail. */
  lemma ParseManyFails<T>(d: seq<byte>, p0: nat, n: nat, i: nat, acc: seq<T>, q: nat,
                          f: (seq<byte>, nat) -> Option<Parsed<T>>)
    requires i < n && Remaining(d, p0, n, f, acc, q, i)
    requires f(d, q).None?
    ensures ParseMany(d, p0, n, f).None?
  {
    assert ParseMany(d, q, n - i, f) == ParseManyCons(d, q, n - i, f);
  }

  /** Once all `n` records are read, the list is `acc` and ends at `q`. */
  lemma ParseManyDone<T>(d: seq<byte>, p0: nat, n: nat, acc: seq<T>, q: nat,
                         f: (seq<byte>, nat) -> Option<Parsed<T>>)
    requires Remaining(d, p0, n, f, acc, q, n)
    ensures ParseMany(d, p0, n, f) == Some(Parsed(acc, q))
  {
    assert acc + [] == acc;
  }

  /** A list of fixed-size records ends `size` bytes per record after its
      start. */
  lemma {:induction false} ParseManyFixedSize<T>(d: seq<byte>, p: nat, n: nat, f: (seq<byte>, nat) -> Option<Parsed<T>>, size: nat)
    requires forall q: nat :: f(d, q).Some? ==> f(d, q).value.next == q + size
    ensures ParseMany(d, p, n, f).Some? ==> ParseMany(d, p, n, f).value.next == p + n * size
    decreases n
  {
    if n > 0 && ParseMany(d, p, n, f).Some? {
      assert ParseMany(d, p, n, f) == ParseManyCons(d, p, n, f);
      var x := f(d, p).value;
      ParseManyFixedSize(d, x.next, n - 1, f, size);
      assert p + size + (n - 1) * size == p + n * size;
    }
  }
}
