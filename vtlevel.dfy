/* VT_Level (vt_level.cpp): the level once read, with every textile brought
   to 32 bits per pixel and searches by object id. prepare_level converts
   the 8-bit textiles through the palette (Tomb Raider I and its demos) or
   the 16-bit ARGB1555 textiles (II to V, unless 32-bit textiles were
   read) into textile32. A 32-bit pixel holds red in bits 0-7, green in
   8-15, blue in 16-23 and alpha in 24-31. */
module VtLevel {
  import opened Wrappers
  import opened Common
  import opened Types
  import Prtl
  import opened LevelSpec
  import Level

  // ---------------------------------------------------------------------
  // Pixels

  /** A bitu8 colour channel of the palette, widened to a pixel word. */
  function Channel(v: int): (c: bv32)
    ensures c < 0x100
  {
    (Wrap8(v) as bv8) as bv32
  }

  /** An 8-bit textile's pixel: index 0 is transparent black, any other
      index is its palette colour, opaque. */
  function Pixel8Bits(col: bv32, pal: seq<Colour>): (p: bv32)
    requires col < 0x100 && |pal| == 256
    ensures col == 0 ==> p == 0
    ensures col != 0 ==> var c := pal[col as int];
      p & 0xff == Channel(c.r) && (p >> 8) & 0xff == Channel(c.g) &&
      (p >> 16) & 0xff == Channel(c.b) && p >> 24 == 0xff
  {
    var c := pal[col as int];
    if col > 0 then Channel(c.r) | (Channel(c.g) << 8) | (Channel(c.b) << 16) | (0xff << 24) else 0
  }

  /** A 16-bit textile's ARGB1555 pixel: without bit 15 it is transparent
      black; with it, each 5-bit channel becomes the top five bits of an
      8-bit channel, opaque. Red is bits 10-14, green 5-9, blue 0-4. */
  function Pixel16Bits(col: bv32): (p: bv32)
    requires col < 0x1_0000
    ensures col & 0x8000 == 0 ==> p == 0
    ensures col & 0x8000 != 0 ==>
      p & 0xff == ((col >> 10) & 0x1f) << 3 && (p >> 8) & 0xff == ((col >> 5) & 0x1f) << 3 &&
      (p >> 16) & 0xff == (col & 0x1f) << 3 && p >> 24 == 0xff
  {
    if col & 0x8000 != 0 then
      ((col & 0x7c00) >> 7) | (((col & 0x3e0) >> 2) << 8) | (((col & 0x1f) << 3) << 16) | 0xff00_0000
    else 0
  }

  /** The ARGB1555 word a converted pixel came from: the top five bits of
      each channel, and bit 15 for an opaque pixel. */
  function Argb1555(p: bv32): (col: bv32)
    ensures col < 0x1_0000
  {
    (if p >> 24 == 0xff then 0x8000 else 0) |
    ((((p & 0xff) >> 3) << 10) | ((((p >> 8) & 0xff) >> 3) << 5) | (((p >> 16) & 0xff) >> 3))
  }

  /** Converting an opaque 16-bit pixel loses nothing: its ARGB1555 word
      comes back. */
  lemma Pixel16RoundTrip(col: bv32)
    requires col < 0x1_0000 && col & 0x8000 != 0
    ensures Argb1555(Pixel16Bits(col)) == col
  {
  }

  /** A converted pixel is opaque exactly when its source pixel is: an
      8-bit index other than 0, a 16-bit word with bit 15 set. */
  lemma OpaqueExactly(col: bv32, pal: seq<Colour>)
    requires col < 0x1_0000 && |pal| == 256
    ensures col < 0x100 ==> (Pixel8Bits(col, pal) >> 24 == 0xff <==> col != 0)
    ensures Pixel16Bits(col) >> 24 == 0xff <==> col & 0x8000 != 0
  {
  }

  /** The opaque 16-bit pixel of all-zero channels is 0xff000000. */
  lemma OpaqueBlack()
    ensures Pixel16Bits(0x8000) == 0xff00_0000
  {
  }

  /** The pixel of a tr_textile8_t, whose pixels are bitu8. */
  function Pixel8(col: int, pal: seq<Colour>): int
    requires |pal| == 256
  {
    Pixel8Bits((Wrap8(col) as bv8) as bv32, pal) as int
  }

  /** The pixel of a tr2_textile16_t, whose pixels are bitu16. */
  function Pixel16(col: int): int {
    Pixel16Bits((Wrap16(col) as bv16) as bv32) as int
  }

  // ---------------------------------------------------------------------
  // Textiles

  /** Every pixel of an 8-bit textile converted, row by row. */
  function Converted8(t: Textile, pal: seq<Colour>): (c: Textile)
    requires |pal| == 256
    ensures |c| == |t| && forall y | 0 <= y < |t| :: |c[y]| == |t[y]|
  {
    seq(|t|, y requires 0 <= y < |t| => seq(|t[y]|, x requires 0 <= x < |t[y]| => Pixel8(t[y][x], pal)))
  }

  /** Every pixel of a 16-bit textile converted, row by row. */
  function Converted16(t: Textile): (c: Textile)
    ensures |c| == |t| && forall y | 0 <= y < |t| :: |c[y]| == |t[y]|
  {
    seq(|t|, y requires 0 <= y < |t| => seq(|t[y]|, x requires 0 <= x < |t[y]| => Pixel16(t[y][x])))
  }

  /** convert_textile8_to_textile32: each pixel of dst set from tex through
      the palette. */
  method ConvertTextile8(tex: Textile, pal: seq<Colour>, dst: Textile) returns (out: Textile)
    requires Shaped(tex) && Shaped(dst) && |pal| == 256
    ensures out == Converted8(tex, pal)
  {
    out := dst;
    var y := 0;
    while y < 256
      invariant 0 <= y <= 256 && Shaped(out)
      invariant forall j | 0 <= j < y :: out[j] == Converted8(tex, pal)[j]
    {
      var x := 0;
      while x < 256
        invariant 0 <= x <= 256 && Shaped(out)
        invariant forall j | 0 <= j < y :: out[j] == Converted8(tex, pal)[j]
        invariant forall i | 0 <= i < x :: out[y][i] == Pixel8(tex[y][i], pal)
      {
        out := out[y := out[y][x := Pixel8(tex[y][x], pal)]];
        x := x + 1;
      }
      assert out[y] == Converted8(tex, pal)[y];
      y := y + 1;
    }
  }

  /** convert_textile16_to_textile32: each pixel of dst set from tex. */
  method ConvertTextile16(tex: Textile, dst: Textile) returns (out: Textile)
    requires Shaped(tex) && Shaped(dst)
    ensures out == Converted16(tex)
  {
    out := dst;
    var y := 0;
    while y < 256
      invariant 0 <= y <= 256 && Shaped(out)
      invariant forall j | 0 <= j < y :: out[j] == Converted16(tex)[j]
    {
      var x := 0;
      while x < 256
        invariant 0 <= x <= 256 && Shaped(out)
        invariant forall j | 0 <= j < y :: out[j] == Converted16(tex)[j]
        invariant forall i | 0 <= i < x :: out[y][i] == Pixel16(tex[y][i])
      {
        out := out[y := out[y][x := Pixel16(tex[y][x])]];
        x := x + 1;
      }
      assert out[y] == Converted16(tex)[y];
      y := y + 1;
    }
  }

  /** Each 8-bit textile converted. */
  function Map8(tiles: seq<Textile>, pal: seq<Colour>): (c: seq<Textile>)
    requires |pal| == 256
    ensures |c| == |tiles|
  {
    seq(|tiles|, k requires 0 <= k < |tiles| => Converted8(tiles[k], pal))
  }

  /** Each 16-bit textile converted. */
  function Map16(tiles: seq<Textile>): (c: seq<Textile>)
    ensures |c| == |tiles|
  {
    seq(|tiles|, k requires 0 <= k < |tiles| => Converted16(tiles[k]))
  }

  /** textile32[k] = tiles[k] for k from `from` up to `end`, each through
      prtl's operator[] on both arrays: the first index past either end
      throws. */
  function Stored(tiles: seq<Textile>, dst: seq<Textile>, from: nat, end: nat): (r: Result<seq<Textile>>)
    ensures r.Success? <==> end <= from || (end <= |tiles| && end <= |dst|)
    ensures r.Success? ==> (|r.value| == |dst| &&
      forall k | 0 <= k < |dst| :: r.value[k] == if from <= k < end then tiles[k] else dst[k])
    ensures r.Failure? ==> r.error == ArrayError(Prtl.OutOfBounds)
    decreases end - from
  {
    if end <= from then Success(dst)
    else if from >= |tiles| || from >= |dst| then Failure(ArrayError(Prtl.OutOfBounds))
    else Stored(tiles, dst[from := tiles[from]], from + 1, end)
  }

  // ---------------------------------------------------------------------
  // prepare_level

  /** The members after prepare_level, or the prtl exception it throws. */
  function Prepared(s: LevelState): (r: Result<LevelState>)
    requires |s.palette| == 256
    ensures r.Success? ==> r.value == s.(textile32 := r.value.textile32)
    ensures r.Failure? ==> r.error.ArrayError?
  {
    if TrII <= s.game_version <= TrV then
      if s.read_32bit_textiles then Success(s)
      else
        var t32 := if |s.textile32| == 0 then Prtl.Resized(s.textile32, s.num_textiles, BlankTextile()).value
                   else s.textile32;
        match Stored(Map16(s.textile16), t32, 0, Wrap32(s.num_textiles - s.num_misc_textiles))
        case Success(t) => Success(s.(textile32 := t))
        case Failure(e) => Failure(e)
    else
      match Prtl.Resized(s.textile32, s.num_textiles, BlankTextile())
      case Failure(e) => Failure(e)
      case Success(t32) =>
        match Stored(Map8(s.textile8, s.palette), t32, 0, s.num_textiles)
        case Success(t) => Success(s.(textile32 := t))
        case Failure(e) => Failure(e)
  }

  /** Tomb Raider II to V, 16-bit textiles read: an empty textile32 is first
      resized to num_textiles; then the first num_textiles -
      num_misc_textiles (modulo 2^32) are converted from textile16 and the
      rest, the misc textiles, are left as they were. The conversion
      throws exactly when one of those indices is outside textile16 or
      textile32. */
  lemma Prepared16(s: LevelState)
    requires |s.palette| == 256 && TrII <= s.game_version <= TrV && !s.read_32bit_textiles
    ensures var t32 := if |s.textile32| == 0 then seq(s.num_textiles, _ => BlankTextile()) else s.textile32;
      var end := Wrap32(s.num_textiles - s.num_misc_textiles);
      var r := Prepared(s);
      (r.Success? <==> end == 0 || (end <= |s.textile16| && end <= |t32|)) &&
      (r.Failure? ==> r.error == ArrayError(Prtl.OutOfBounds)) &&
      (r.Success? ==> (|r.value.textile32| == |t32| &&
        (forall k | 0 <= k < end :: r.value.textile32[k] == Converted16(s.textile16[k])) &&
        (forall k | end <= k < |t32| :: r.value.textile32[k] == t32[k])))
  {
    if |s.textile32| == 0 {
      assert Prtl.Resized(s.textile32, s.num_textiles, BlankTextile()).value == seq(s.num_textiles, _ => BlankTextile());
    }
  }

  /** Tomb Raider II to V with 32-bit textiles read: nothing changes. */
  lemma Prepared32(s: LevelState)
    requires |s.palette| == 256 && TrII <= s.game_version <= TrV && s.read_32bit_textiles
    ensures Prepared(s) == Success(s)
  {
  }

  /** Tomb Raider I and its demos: textile32 is resized to num_textiles
      (throwing when that shrinks a non-empty array to nothing) and every
      one of them is converted from textile8 through the palette (throwing
      when textile8 holds fewer). */
  lemma Prepared8(s: LevelState)
    requires |s.palette| == 256 && !(TrII <= s.game_version <= TrV)
    ensures var r := Prepared(s);
      (r.Success? <==> (s.num_textiles == 0 ==> |s.textile32| == 0) && s.num_textiles <= |s.textile8|) &&
      (r.Failure? ==> r.error == ArrayError(if s.num_textiles == 0 then Prtl.NotEnoughMemory else Prtl.OutOfBounds)) &&
      (r.Success? ==> (|r.value.textile32| == s.num_textiles &&
        forall k | 0 <= k < s.num_textiles :: r.value.textile32[k] == Converted8(s.textile8[k], s.palette)))
  {
  }

  /** Every converted textile keeps the 256x256 shape. */
  lemma ConvertedShaped(s: LevelState)
    requires WellFormed(s)
    ensures forall k | 0 <= k < |s.textile8| :: Shaped(Map8(s.textile8, s.palette)[k])
    ensures forall k | 0 <= k < |s.textile16| :: Shaped(Map16(s.textile16)[k])
  {
  }

  /** prepare_level keeps the level well formed. */
  lemma PreparedKeeps(s: LevelState)
    requires WellFormed(s)
    ensures Prepared(s).Success? ==> WellFormed(Prepared(s).value)
  {
    ConvertedShaped(s);
    if TrII <= s.game_version <= TrV {
      if !s.read_32bit_textiles {
        Prepared16(s);
      }
    } else {
      Prepared8(s);
    }
  }

  /** Preparing a prepared level changes nothing: textile32 is its only
      output, and neither its size nor what is converted into it depends
      on what it held. */
  lemma {:induction false} PreparedIdempotent(s: LevelState)
    requires |s.palette| == 256 && Prepared(s).Success?
    ensures Prepared(Prepared(s).value) == Prepared(s)
  {
    var s' := Prepared(s).value;
    if TrII <= s.game_version <= TrV {
      if !s.read_32bit_textiles {
        Prepared16(s);
        Prepared16(s');
        var t32 := if |s.textile32| == 0 then seq(s.num_textiles, _ => BlankTextile()) else s.textile32;
        if |s'.textile32| == 0 {
          assert |t32| == 0 && s.num_textiles == 0;
        }
        assert Prepared(s').value.textile32 == s'.textile32;
      }
    } else {
      Prepared8(s);
      Prepared8(s');
      assert Prepared(s').value.textile32 == s'.textile32;
    }
  }

  /** The 16-bit loop of prepare_level: slots 0 to end - 1 of `t32` are
      converted from `t16` in order; an index outside either array throws. */
  method ConvertAll16(t16: seq<Textile>, t32: seq<Textile>, end: nat) returns (r: Result<seq<Textile>>)
    requires forall k | 0 <= k < |t16| :: Shaped(t16[k])
    requires forall k | 0 <= k < |t32| :: Shaped(t32[k])
    ensures r == Stored(Map16(t16), t32, 0, end)
  {
    ghost var tiles := Map16(t16);
    ghost var goal := Stored(tiles, t32, 0, end);
    var out := t32;
    var i := 0;
    while i < end
      invariant i <= end && goal == Stored(tiles, out, i, end)
      invariant forall k | 0 <= k < |out| :: Shaped(out[k])
      decreases end - i
    {
      if i >= |t16| || i >= |out| {
        return Failure(ArrayError(Prtl.OutOfBounds));
      }
      var tile := ConvertTextile16(t16[i], out[i]);
      out := out[i := tile];
      i := i + 1;
    }
    return Success(out);
  }

  /** The 8-bit loop of prepare_level: slots 0 to end - 1 of `t32` are
      converted from `t8` through the palette; an index outside either array
      throws. */
  method ConvertAll8(t8: seq<Textile>, pal: seq<Colour>, t32: seq<Textile>, end: nat) returns (r: Result<seq<Textile>>)
    requires |pal| == 256
    requires forall k | 0 <= k < |t8| :: Shaped(t8[k])
    requires forall k | 0 <= k < |t32| :: Shaped(t32[k])
    ensures r == Stored(Map8(t8, pal), t32, 0, end)
  {
    ghost var tiles := Map8(t8, pal);
    ghost var goal := Stored(tiles, t32, 0, end);
    var out := t32;
    var i := 0;
    while i < end
      invariant i <= end && goal == Stored(tiles, out, i, end)
      invariant forall k | 0 <= k < |out| :: Shaped(out[k])
      decreases end - i
    {
      if i >= |t8| || i >= |out| {
        return Failure(ArrayError(Prtl.OutOfBounds));
      }
      var tile := ConvertTextile8(t8[i], pal, out[i]);
      out := out[i := tile];
      i := i + 1;
    }
    return Success(out);
  }

  /** prepare_level on a level whose members are read. */
  method PrepareLevel(lv: Level.TrLevel) returns (r: Result<()>)
    requires lv.Valid()
    modifies lv
    ensures var p := Prepared(old(lv.members));
      (r.Success? <==> p.Success?) &&
      (p.Success? ==> lv.members == p.value && lv.Valid()) &&
      (p.Failure? ==> r == Failure(p.error))
  {
    var s := lv.members;
    PreparedKeeps(s);
    var t32 := s.textile32;
    var stored;
    if TrII <= s.game_version <= TrV {
      if s.read_32bit_textiles {
        return Success(());
      }
      if |t32| == 0 {
        t32 := Prtl.Resized(t32, s.num_textiles, BlankTextile()).value;
      }
      stored := ConvertAll16(s.textile16, t32, Wrap32(s.num_textiles - s.num_misc_textiles));
    } else {
      var resized := Prtl.Resized(t32, s.num_textiles, BlankTextile());
      if resized.Failure? {
        return Failure(resized.error);
      }
      stored := ConvertAll8(s.textile8, s.palette, resized.value, s.num_textiles);
    }
    if stored.Failure? {
      return Failure(stored.error);
    }
    lv.members := s.(textile32 := stored.value);
    return Success(());
  }

  // ---------------------------------------------------------------------
  // Searches by object id

  /** The first index from `from` on whose id is `id`. */
  function FirstIndex(ids: seq<int>, id: int, from: nat): (r: Option<nat>)
    ensures r.Some? ==> (from <= r.value < |ids| && ids[r.value] == id &&
      forall k | from <= k < r.value :: ids[k] != id)
    ensures r.None? ==> forall k | from <= k < |ids| :: ids[k] != id
    decreases |ids| - from
  {
    if from >= |ids| then None
    else if ids[from] == id then Some(from)
    else FirstIndex(ids, id, from + 1)
  }

  /* StaticMeshIds, ItemIds and MoveableIds are one projection, the object_id
     field of each element in order, over the three record types the
     find_*_id members search; Types gives those records no common supertype. */
  function StaticMeshIds(ms: seq<StaticMesh>): seq<int>
  {
    seq(|ms|, k requires 0 <= k < |ms| => ms[k].object_id)
  }

  function ItemIds(items: seq<Item>): seq<int>
  {
    seq(|items|, k requires 0 <= k < |items| => items[k].object_id)
  }

  function MoveableIds(ms: seq<Moveable>): seq<int>
  {
    seq(|ms|, k requires 0 <= k < |ms| => ms[k].object_id)
  }

  /** The for loop of the find_*_id members: the index of the first element
      with the id, or None for the null pointer. */
  method FindFirst(ids: seq<int>, id: int) returns (r: Option<nat>)
    ensures r == FirstIndex(ids, id, 0)
  {
    var i := 0;
    while i < |ids|
      invariant i <= |ids| && FirstIndex(ids, id, 0) == FirstIndex(ids, id, i)
    {
      if ids[i] == id {
        return Some(i);
      }
      i := i + 1;
    }
    return None;
  }

  /** find_staticmesh_id: the first static mesh with the object id. */
  method FindStaticMeshId(lv: Level.TrLevel, object_id: int) returns (r: Option<nat>)
    requires 0 <= object_id < 0x1_0000_0000
    ensures var ms := lv.members.static_meshes;
      (r.Some? ==> (r.value < |ms| && ms[r.value].object_id == object_id &&
        forall k | 0 <= k < r.value :: ms[k].object_id != object_id)) &&
      (r.None? ==> forall k | 0 <= k < |ms| :: ms[k].object_id != object_id)
  {
    var ids := StaticMeshIds(lv.members.static_meshes);
    assert |ids| == |lv.members.static_meshes| && forall k | 0 <= k < |ids| :: ids[k] == lv.members.static_meshes[k].object_id;
    r := FindFirst(ids, object_id);
  }

  /** find_item_id: the first item with the object id; the bit16 ids are
      compared as bit32. */
  method FindItemId(lv: Level.TrLevel, object_id: int) returns (r: Option<nat>)
    requires -0x8000_0000 <= object_id < 0x8000_0000
    ensures var items := lv.members.items;
      (r.Some? ==> (r.value < |items| && items[r.value].object_id == object_id &&
        forall k | 0 <= k < r.value :: items[k].object_id != object_id)) &&
      (r.None? ==> forall k | 0 <= k < |items| :: items[k].object_id != object_id)
  {
    var ids := ItemIds(lv.members.items);
    assert |ids| == |lv.members.items| && forall k | 0 <= k < |ids| :: ids[k] == lv.members.items[k].object_id;
    r := FindFirst(ids, object_id);
  }

  /** find_moveable_id: the first moveable with the object id. */
  method FindMoveableId(lv: Level.TrLevel, object_id: int) returns (r: Option<nat>)
    requires 0 <= object_id < 0x1_0000_0000
    ensures var ms := lv.members.moveables;
      (r.Some? ==> (r.value < |ms| && ms[r.value].object_id == object_id &&
        forall k | 0 <= k < r.value :: ms[k].object_id != object_id)) &&
      (r.None? ==> forall k | 0 <= k < |ms| :: ms[k].object_id != object_id)
  {
    var ids := MoveableIds(lv.members.moveables);
    assert |ids| == |lv.members.moveables| && forall k | 0 <= k < |ids| :: ids[k] == lv.members.moveables[k].object_id;
    r := FindFirst(ids, object_id);
  }
}
