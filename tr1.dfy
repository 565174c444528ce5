/** The record decoders of the first engine generation (l_tr1.cpp). Later
    generations reuse most of them.

    A record read field by field has a specification `ParseX(d, p)` that
    decodes the fields in the order the reader reads them and says where the
    record ends, and a reader method proved against it: the method succeeds
    exactly when `ParseX` does, with the same value, and leaves the cursor
    where `ParseX` ends. A fixed-size record also has its byte layout `XAt(d,
    p)`, and the lemma `XLayout` shows that `ParseX` reads exactly that
    layout. */
module Tr1 {
  import opened Wrappers
  import opened Common
  import opened Types

  // ---------------------------------------------------------------------
  // Intensity rescaling

  /** (8191 - v) << 2: TR1 stores dark-to-light intensities in 0..8191 and
      later engines light-to-dark in 0..32767; the shift is a multiplication
      by 4 (also for negative operands, as two's-complement machines do it). */
  function Rescale(v: int): int { (8191 - v) * 4 }

  /** The reverse conversion, back to the TR1 scale. */
  function Unscale(r: int): int { 8191 - r / 4 }

  /** The rescaled value stored into a bitu16 field (TR1 light intensity). */
  function RescaleU16(v: int): (r: int)
    ensures 0 <= r < 0x1_0000
    ensures 0 <= v <= 8191 ==> r == Rescale(v) && r <= 32764 && Unscale(r) == v
  { Wrap16(Rescale(v)) }

  /** The rescaled value stored into a bit16 field (room ambient intensity,
      room vertex lighting). */
  function RescaleS16(v: int): (r: int)
    ensures -0x8000 <= r < 0x8000
    ensures 0 <= v <= 8191 ==> r == Rescale(v) && 0 <= r <= 32764 && Unscale(r) == v
  { ToBit16(Rescale(v)) }

  /** A bit16 intensity that is rescaled only when it is not negative: a
      negative one means "use the mesh lighting" and is kept. */
  function RescaleIfSet(v: int): (r: int)
    requires -0x8000 <= v < 0x8000
    ensures -0x8000 <= r < 0x8000
    ensures v < 0 ==> r == v
    ensures 0 <= v <= 8191 ==> r == Rescale(v) && Unscale(r) == v
  { if v >= 0 then ToBit16(Rescale(v)) else v }

  /** Unscale undoes Rescale for every input, so no intensity information is
      lost before truncation, and every rescaled value is a multiple of 4. */
  lemma {:induction false} RescaleInverts(v: int)
    ensures Unscale(Rescale(v)) == v
    ensures Rescale(v) % 4 == 0
  {
    assert Rescale(v) == 4 * (8191 - v);
  }

  /** A brighter TR1 value (larger) becomes a smaller later-engine value. */
  lemma RescaleReversesOrder(v: int, w: int)
    requires 0 <= v < w <= 8191
    ensures RescaleS16(v) > RescaleS16(w) && RescaleU16(v) > RescaleU16(w)
  {}

  // ---------------------------------------------------------------------
  // Small records

  /** read_tr_colour: three 6-bit channels shifted into 8 bits and stored into bitu8; alpha 0. */
  function ColourAt(d: seq<byte>, p: nat): Colour
    requires p + 3 <= |d|
  {
    Colour(Wrap8(U8At(d, p) * 4), Wrap8(U8At(d, p + 1) * 4), Wrap8(U8At(d, p + 2) * 4), 0)
  }

  function ParseColour(d: seq<byte>, p: nat): Option<Parsed<Colour>> {
    if p + 3 <= |d| then Some(Parsed(ColourAt(d, p), p + 3)) else None
  }

  /** The fields of the record decoded one after the other, in the order the reader reads them. */
  function ColourFields(d: seq<byte>, p: nat): Option<Parsed<Colour>> {
    match ParseBitU8(d, p)
    case None => None
    case Some(red) =>
    match ParseBitU8(d, red.next)
    case None => None
    case Some(green) =>
    match ParseBitU8(d, green.next)
    case None => None
    case Some(blue) =>
    Some(Parsed(Colour(Wrap8(red.value * 4), Wrap8(green.value * 4), Wrap8(blue.value * 4), 0), blue.next))
  }

  /** Reading the fields in order decodes exactly the 3-byte layout. */
  lemma ColourLayout(d: seq<byte>, p: nat)
    ensures ColourFields(d, p) == ParseColour(d, p)
  {}

  method ReadColour(src: Cursor) returns (r: Result<Colour>)
    requires src.Valid()
    modifies src
    ensures src.Valid() && Matches(r, ParseColour(src.data, old(src.pos)), src.pos)
  {
    ColourLayout(src.data, src.pos);
    var red :- ReadBitU8(src);
    var green :- ReadBitU8(src);
    var blue :- ReadBitU8(src);
    return Success(Colour(Wrap8(red * 4), Wrap8(green * 4), Wrap8(blue * 4), 0));
  }

  /** A 6-bit channel keeps its value, multiplied by 4. */
  lemma ColourWidens(d: seq<byte>, p: nat)
    requires p + 3 <= |d| && d[p] < 64 && d[p + 1] < 64 && d[p + 2] < 64
    ensures ColourAt(d, p) == Colour(4 * d[p], 4 * d[p + 1], 4 * d[p + 2], 0)
  {}

  /** read_tr_vertex16: x kept, y and z negated (the engine's y axis points down). */
  function Vertex16At(d: seq<byte>, p: nat): Vertex
    requires p + 6 <= |d|
  {
    Vertex(FromInt(S16At(d, p)), FromInt(-S16At(d, p + 2)), FromInt(-S16At(d, p + 4)))
  }

  function ParseVertex16(d: seq<byte>, p: nat): Option<Parsed<Vertex>> {
    if p + 6 <= |d| then Some(Parsed(Vertex16At(d, p), p + 6)) else None
  }

  /** The fields of the record decoded one after the other, in the order the reader reads them. */
  function Vertex16Fields(d: seq<byte>, p: nat): Option<Parsed<Vertex>> {
    match ParseBit16(d, p)
    case None => None
    case Some(x) =>
    match ParseBit16(d, x.next)
    case None => None
    case Some(y) =>
    match ParseBit16(d, y.next)
    case None => None
    case Some(z) =>
    Some(Parsed(Vertex(FromInt(x.value), FromInt(-y.value), FromInt(-z.value)), z.next))
  }

  /** Reading the fields in order decodes exactly the 6-byte layout. */
  lemma Vertex16Layout(d: seq<byte>, p: nat)
    ensures Vertex16Fields(d, p) == ParseVertex16(d, p)
  {}

  method ReadVertex16(src: Cursor) returns (r: Result<Vertex>)
    requires src.Valid()
    modifies src
    ensures src.Valid() && Matches(r, ParseVertex16(src.data, old(src.pos)), src.pos)
  {
    Vertex16Layout(src.data, src.pos);
    var x :- ReadBit16(src);
    var y :- ReadBit16(src);
    var z :- ReadBit16(src);
    return Success(Vertex(FromInt(x), FromInt(-y), FromInt(-z)));
  }

  /** read_tr_vertex32: as read_tr_vertex16 with bit32 components; negating the most negative bit32 wraps to itself. */
  function Vertex32At(d: seq<byte>, p: nat): Vertex
    requires p + 12 <= |d|
  {
    Vertex(FromInt(S32At(d, p)), FromInt(ToBit32(-S32At(d, p + 4))), FromInt(ToBit32(-S32At(d, p + 8))))
  }

  function ParseVertex32(d: seq<byte>, p: nat): Option<Parsed<Vertex>> {
    if p + 12 <= |d| then Some(Parsed(Vertex32At(d, p), p + 12)) else None
  }

  /** The fields of the record decoded one after the other, in the order the reader reads them. */
  function Vertex32Fields(d: seq<byte>, p: nat): Option<Parsed<Vertex>> {
    match ParseBit32(d, p)
    case None => None
    case Some(x) =>
    match ParseBit32(d, x.next)
    case None => None
    case Some(y) =>
    match ParseBit32(d, y.next)
    case None => None
    case Some(z) =>
    Some(Parsed(Vertex(FromInt(x.value), FromInt(ToBit32(-y.value)), FromInt(ToBit32(-z.value))), z.next))
  }

  /** Reading the fields in order decodes exactly the 12-byte layout. */
  lemma Vertex32Layout(d: seq<byte>, p: nat)
    ensures Vertex32Fields(d, p) == ParseVertex32(d, p)
  {}

  method ReadVertex32(src: Cursor) returns (r: Result<Vertex>)
    requires src.Valid()
    modifies src
    ensures src.Valid() && Matches(r, ParseVertex32(src.data, old(src.pos)), src.pos)
  {
    Vertex32Layout(src.data, src.pos);
    var x :- ReadBit32(src);
    var y :- ReadBit32(src);
    var z :- ReadBit32(src);
    return Success(Vertex(FromInt(x), FromInt(ToBit32(-y)), FromInt(ToBit32(-z))));
  }

  /** Apart from the one wrapping value, negating a bit32 is exact. */
  lemma Vertex32Flips(d: seq<byte>, p: nat)
    requires p + 12 <= |d|
    requires S32At(d, p + 4) != -0x8000_0000 && S32At(d, p + 8) != -0x8000_0000
    ensures Vertex32At(d, p) == Vertex(FromInt(S32At(d, p)), FromInt(-S32At(d, p + 4)), FromInt(-S32At(d, p + 8)))
  {
    ToBit32InRange(-S32At(d, p + 4));
    ToBit32InRange(-S32At(d, p + 8));
  }

  /** read_tr_face3: three vertex indices and a texture; lighting 0. */
  function Face3At(d: seq<byte>, p: nat): Face3
    requires p + 8 <= |d|
  {
    Face3([U16At(d, p), U16At(d, p + 2), U16At(d, p + 4)], U16At(d, p + 6), 0)
  }

  function ParseFace3(d: seq<byte>, p: nat): Option<Parsed<Face3>> {
    if p + 8 <= |d| then Some(Parsed(Face3At(d, p), p + 8)) else None
  }

  /** The fields of the record decoded one after the other, in the order the reader reads them. */
  function Face3Fields(d: seq<byte>, p: nat): Option<Parsed<Face3>> {
    match ParseBitU16(d, p)
    case None => None
    case Some(v0) =>
    match ParseBitU16(d, v0.next)
    case None => None
    case Some(v1) =>
    match ParseBitU16(d, v1.next)
    case None => None
    case Some(v2) =>
    match ParseBitU16(d, v2.next)
    case None => None
    case Some(texture) =>
    Some(Parsed(Face3([v0.value, v1.value, v2.value], texture.value, 0), texture.next))
  }

  /** Reading the fields in order decodes exactly the 8-byte layout. */
  lemma Face3Layout(d: seq<byte>, p: nat)
    ensures Face3Fields(d, p) == ParseFace3(d, p)
  {}

  method ReadFace3(src: Cursor) returns (r: Result<Face3>)
    requires src.Valid()
    modifies src
    ensures src.Valid() && Matches(r, ParseFace3(src.data, old(src.pos)), src.pos)
  {
    Face3Layout(src.data, src.pos);
    var v0 :- ReadBitU16(src);
    var v1 :- ReadBitU16(src);
    var v2 :- ReadBitU16(src);
    var texture :- ReadBitU16(src);
    return Success(Face3([v0, v1, v2], texture, 0));
  }

  /** read_tr_face4: four vertex indices and a texture; lighting 0. */
  function Face4At(d: seq<byte>, p: nat): Face4
    requires p + 10 <= |d|
  {
    Face4([U16At(d, p), U16At(d, p + 2), U16At(d, p + 4), U16At(d, p + 6)], U16At(d, p + 8), 0)
  }

  function ParseFace4(d: seq<byte>, p: nat): Option<Parsed<Face4>> {
    if p + 10 <= |d| then Some(Parsed(Face4At(d, p), p + 10)) else None
  }

  /** The fields of the record decoded one after the other, in the order the reader reads them. */
  function Face4Fields(d: seq<byte>, p: nat): Option<Parsed<Face4>> {
    match ParseBitU16(d, p)
    case None => None
    case Some(v0) =>
    match ParseBitU16(d, v0.next)
    case None => None
    case Some(v1) =>
    match ParseBitU16(d, v1.next)
    case None => None
    case Some(v2) =>
    match ParseBitU16(d, v2.next)
    case None => None
    case Some(v3) =>
    match ParseBitU16(d, v3.next)
    case None => None
    case Some(texture) =>
    Some(Parsed(Face4([v0.value, v1.value, v2.value, v3.value], texture.value, 0), texture.next))
  }

  /** Reading the fields in order decodes exactly the 10-byte layout. */
  lemma Face4Layout(d: seq<byte>, p: nat)
    ensures Face4Fields(d, p) == ParseFace4(d, p)
  {}

  method ReadFace4(src: Cursor) returns (r: Result<Face4>)
    requires src.Valid()
    modifies src
    ensures src.Valid() && Matches(r, ParseFace4(src.data, old(src.pos)), src.pos)
  {
    Face4Layout(src.data, src.pos);
    var v0 :- ReadBitU16(src);
    var v1 :- ReadBitU16(src);
    var v2 :- ReadBitU16(src);
    var v3 :- ReadBitU16(src);
    var texture :- ReadBitU16(src);
    return Success(Face4([v0, v1, v2, v3], texture, 0));
  }

  /** read_tr_textile8: 256 rows of 256 palette indices. */
  function Textile8At(d: seq<byte>, p: nat): (t: Textile)
    requires p + 0x1_0000 <= |d|
    ensures IsTextile(t, 0x100)
    ensures forall y, x | 0 <= y < 256 && 0 <= x < 256 :: t[y][x] == d[p + 256 * y + x]
  {
    seq(256, y requires 0 <= y < 256 => d[p + 256 * y..p + 256 * y + 256])
  }

  function ParseTextile8(d: seq<byte>, p: nat): Option<Parsed<Textile>> {
    if p + 0x1_0000 <= |d| then Some(Parsed(Textile8At(d, p), p + 0x1_0000)) else None
  }

  method ReadTextile8(src: Cursor) returns (r: Result<Textile>)
    requires src.Valid()
    modifies src
    ensures src.Valid() && Matches(r, ParseTextile8(src.data, old(src.pos)), src.pos)
    ensures r.Failure? ==> r.error == ReadError("read_tr_textile8")
  {
    ghost var p0 := src.pos;
    var rows: seq<seq<int>> := [];
    var i := 0;
    while i < 256
      invariant src.Valid() && i <= 256 && src.pos == p0 + 256 * i
      invariant |rows| == i
      invariant forall y | 0 <= y < i :: rows[y] == src.data[p0 + 256 * y..p0 + 256 * y + 256]
    {
      var row := src.ReadBytes(256);
      if row.None? {
        return Failure(ReadError("read_tr_textile8"));
      }
      rows := rows + [row.value];
      i := i + 1;
    }
    assert rows == Textile8At(src.data, p0);
    return Success(rows);
  }

  /** read_tr_lightmap: 32 * 256 bytes. */
  function LightmapAt(d: seq<byte>, p: nat): (m: seq<int>)
    requires p + 0x2000 <= |d|
    ensures |m| == 0x2000 && forall k | 0 <= k < 0x2000 :: m[k] == d[p + k]
  {
    d[p..p + 0x2000]
  }

  function ParseLightmap(d: seq<byte>, p: nat): Option<Parsed<seq<int>>> {
    if p + 0x2000 <= |d| then Some(Parsed(LightmapAt(d, p), p + 0x2000)) else None
  }

  method ReadLightmap(src: Cursor) returns (r: Result<seq<int>>)
    requires src.Valid()
    modifies src
    ensures src.Valid() && Matches(r, ParseLightmap(src.data, old(src.pos)), src.pos)
  {
    ghost var p0 := src.pos;
    var lightmap: seq<int> := [];
    var i := 0;
    while i < 0x2000
      invariant src.Valid() && i <= 0x2000 && src.pos == p0 + i
      invariant lightmap == src.data[p0..p0 + i]
    {
      var b :- ReadBitU8(src);
      lightmap := lightmap + [b];
      i := i + 1;
    }
    return Success(lightmap);
  }

  /** read_tr_palette: 256 colours of three bytes each. */
  function PaletteAt(d: seq<byte>, p: nat): (pal: seq<Colour>)
    requires p + 768 <= |d|
    ensures |pal| == 256
  {
    seq(256, k requires 0 <= k < 256 => ColourAt(d, p + 3 * k))
  }

  function ParsePalette(d: seq<byte>, p: nat): Option<Parsed<seq<Colour>>> {
    if p + 768 <= |d| then Some(Parsed(PaletteAt(d, p), p + 768)) else None
  }

  method ReadPalette(src: Cursor) returns (r: Result<seq<Colour>>)
    requires src.Valid()
    modifies src
    ensures src.Valid() && Matches(r, ParsePalette(src.data, old(src.pos)), src.pos)
  {
    ghost var p0 := src.pos;
    var palette: seq<Colour> := [];
    var i := 0;
    while i < 256
      invariant src.Valid() && i <= 256 && src.pos == p0 + 3 * i
      invariant palette == seq(i, k requires 0 <= k < i => ColourAt(src.data, p0 + 3 * k))
    {
      ghost var q := src.pos;
      var c :- ReadColour(src);
      palette := palette + [c];
      i := i + 1;
    }
    return Success(palette);
  }

  /** read_tr_room_sprite. */
  function RoomSpriteAt(d: seq<byte>, p: nat): RoomSprite
    requires p + 4 <= |d|
  {
    RoomSprite(S16At(d, p), S16At(d, p + 2))
  }

  function ParseRoomSprite(d: seq<byte>, p: nat): Option<Parsed<RoomSprite>> {
    if p + 4 <= |d| then Some(Parsed(RoomSpriteAt(d, p), p + 4)) else None
  }

  /** The fields of the record decoded one after the other, in the order the reader reads them. */
  function RoomSpriteFields(d: seq<byte>, p: nat): Option<Parsed<RoomSprite>> {
    match ParseBit16(d, p)
    case None => None
    case Some(vertex) =>
    match ParseBit16(d, vertex.next)
    case None => None
    case Some(texture) =>
    Some(Parsed(RoomSprite(vertex.value, texture.value), texture.next))
  }

  /** Reading the fields in order decodes exactly the 4-byte layout. */
  lemma RoomSpriteLayout(d: seq<byte>, p: nat)
    ensures RoomSpriteFields(d, p) == ParseRoomSprite(d, p)
  {}

  method ReadRoomSprite(src: Cursor) returns (r: Result<RoomSprite>)
    requires src.Valid()
    modifies src
    ensures src.Valid() && Matches(r, ParseRoomSprite(src.data, old(src.pos)), src.pos)
  {
    RoomSpriteLayout(src.data, src.pos);
    var vertex :- ReadBit16(src);
    var texture :- ReadBit16(src);
    return Success(RoomSprite(vertex, texture));
  }

  // ---------------------------------------------------------------------
  // Portals

  /** The six tests of read_tr_room_portal: the normal is one of the unit
      vectors along a world axis. */
  predicate OnWorldAxis(n: Vertex) {
    n == Vertex(FromInt(1), FromInt(0), FromInt(0)) || n == Vertex(FromInt(-1), FromInt(0), FromInt(0)) ||
    n == Vertex(FromInt(0), FromInt(1), FromInt(0)) || n == Vertex(FromInt(0), FromInt(-1), FromInt(0)) ||
    n == Vertex(FromInt(0), FromInt(0), FromInt(1)) || n == Vertex(FromInt(0), FromInt(0), FromInt(-1))
  }

  function Abs(v: int): nat { if v < 0 then -v else v }

  /** A normal with integer components lies on a world axis exactly when
      the absolute values of its components sum to 1. */
  lemma {:induction false} OnWorldAxisIffUnit(x: int, y: int, z: int)
    ensures OnWorldAxis(Vertex(FromInt(x), FromInt(y), FromInt(z))) <==> Abs(x) + Abs(y) + Abs(z) == 1
  {
    if Abs(x) + Abs(y) + Abs(z) == 1 {
      if x != 0 {
        assert y == 0 && z == 0 && (x == 1 || x == -1);
      } else if y != 0 {
        assert z == 0 && (y == 1 || y == -1);
      } else {
        assert z == 1 || z == -1;
      }
    }
  }

  const PortalAxisError := "read_tr_room_portal: normal not on world axis"

  /** read_tr_room_portal: adjoining room, normal and four corners; a normal off the world axes is an error. */
  function PortalAt(d: seq<byte>, p: nat): Portal
    requires p + 32 <= |d|
  {
    Portal(U16At(d, p), Vertex16At(d, p + 2), [Vertex16At(d, p + 8), Vertex16At(d, p + 14), Vertex16At(d, p + 20), Vertex16At(d, p + 26)])
  }

  function ParsePortal(d: seq<byte>, p: nat): Option<Parsed<Portal>> {
    if p + 32 <= |d| && OnWorldAxis(Vertex16At(d, p + 2)) then Some(Parsed(PortalAt(d, p), p + 32)) else None
  }

  /** The fields of the record decoded one after the other, in the order the reader reads them. */
  function PortalFields(d: seq<byte>, p: nat): Option<Parsed<Portal>> {
    match ParseBitU16(d, p)
    case None => None
    case Some(room) =>
    match ParseVertex16(d, room.next)
    case None => None
    case Some(normal) =>
    match ParseVertex16(d, normal.next)
    case None => None
    case Some(c0) =>
    match ParseVertex16(d, c0.next)
    case None => None
    case Some(c1) =>
    match ParseVertex16(d, c1.next)
    case None => None
    case Some(c2) =>
    match ParseVertex16(d, c2.next)
    case None => None
    case Some(c3) =>
    if !OnWorldAxis(normal.value) then None else
    Some(Parsed(Portal(room.value, normal.value, [c0.value, c1.value, c2.value, c3.value]), c3.next))
  }

  /** Reading the fields in order decodes exactly the 32-byte layout. */
  lemma PortalLayout(d: seq<byte>, p: nat)
    ensures PortalFields(d, p) == ParsePortal(d, p)
  {}

  method ReadPortal(src: Cursor) returns (r: Result<Portal>)
    requires src.Valid()
    modifies src
    ensures src.Valid() && Matches(r, ParsePortal(src.data, old(src.pos)), src.pos)
    ensures old(src.pos) + 32 <= |src.data| && !OnWorldAxis(Vertex16At(src.data, old(src.pos) + 2)) ==>
      r == Failure(ReadError(PortalAxisError))
  {
    PortalLayout(src.data, src.pos);
    var room :- ReadBitU16(src);
    var normal :- ReadVertex16(src);
    var c0 :- ReadVertex16(src);
    var c1 :- ReadVertex16(src);
    var c2 :- ReadVertex16(src);
    var c3 :- ReadVertex16(src);
    if !OnWorldAxis(normal) {
      return Failure(ReadError(PortalAxisError));
    }
    return Success(Portal(room, normal, [c0, c1, c2, c3]));
  }

  /** The portal check in terms of the file's bit16 components: x, -y and
      -z form a unit axis vector. */
  lemma {:induction false} PortalAccepted(d: seq<byte>, p: nat)
    requires p + 32 <= |d|
    ensures ParsePortal(d, p).Some? <==> Abs(S16At(d, p + 2)) + Abs(S16At(d, p + 4)) + Abs(S16At(d, p + 6)) == 1
  {
    OnWorldAxisIffUnit(S16At(d, p + 2), -S16At(d, p + 4), -S16At(d, p + 6));
  }

  // ---------------------------------------------------------------------
  // Room records

  /** read_tr_room_sector. */
  function SectorAt(d: seq<byte>, p: nat): Sector
    requires p + 8 <= |d|
  {
    Sector(U16At(d, p), U16At(d, p + 2), U8At(d, p + 4), S8At(d, p + 5), U8At(d, p + 6), S8At(d, p + 7))
  }

  function ParseSector(d: seq<byte>, p: nat): Option<Parsed<Sector>> {
    if p + 8 <= |d| then Some(Parsed(SectorAt(d, p), p + 8)) else None
  }

  /** The fields of the record decoded one after the other, in the order the reader reads them. */
  function SectorFields(d: seq<byte>, p: nat): Option<Parsed<Sector>> {
    match ParseBitU16(d, p)
    case None => None
    case Some(fd) =>
    match ParseBitU16(d, fd.next)
    case None => None
    case Some(box) =>
    match ParseBitU8(d, box.next)
    case None => None
    case Some(below) =>
    match ParseBit8(d, below.next)
    case None => None
    case Some(floor) =>
    match ParseBitU8(d, floor.next)
    case None => None
    case Some(above) =>
    match ParseBit8(d, above.next)
    case None => None
    case Some(ceiling) =>
    Some(Parsed(Sector(fd.value, box.value, below.value, floor.value, above.value, ceiling.value), ceiling.next))
  }

  /** Reading the fields in order decodes exactly the 8-byte layout. */
  lemma SectorLayout(d: seq<byte>, p: nat)
    ensures SectorFields(d, p) == ParseSector(d, p)
  {}

  method ReadSector(src: Cursor) returns (r: Result<Sector>)
    requires src.Valid()
    modifies src
    ensures src.Valid() && Matches(r, ParseSector(src.data, old(src.pos)), src.pos)
  {
    SectorLayout(src.data, src.pos);
    var fd :- ReadBitU16(src);
    var box :- ReadBitU16(src);
    var below :- ReadBitU8(src);
    var floor :- ReadBit8(src);
    var above :- ReadBitU8(src);
    var ceiling :- ReadBit8(src);
    return Success(Sector(fd, box, below, floor, above, ceiling));
  }

  /** read_tr_room_light: position, rescaled intensity and fade; the second intensity and fade are copies of the first. */
  function LightAt(d: seq<byte>, p: nat): Light
    requires p + 18 <= |d|
  {
    Light(pos := Vertex32At(d, p), intensity1 := RescaleU16(U16At(d, p + 12)), intensity2 := RescaleU16(U16At(d, p + 12)), fade1 := U32At(d, p + 14), fade2 := U32At(d, p + 14))
  }

  function ParseLight(d: seq<byte>, p: nat): Option<Parsed<Light>> {
    if p + 18 <= |d| then Some(Parsed(LightAt(d, p), p + 18)) else None
  }

  /** The fields of the record decoded one after the other, in the order the reader reads them. */
  function LightFields(d: seq<byte>, p: nat): Option<Parsed<Light>> {
    match ParseVertex32(d, p)
    case None => None
    case Some(pos) =>
    match ParseBitU16(d, pos.next)
    case None => None
    case Some(intensity) =>
    match ParseBitU32(d, intensity.next)
    case None => None
    case Some(fade) =>
    Some(Parsed(Light(pos := pos.value, intensity1 := RescaleU16(intensity.value), intensity2 := RescaleU16(intensity.value), fade1 := fade.value, fade2 := fade.value), fade.next))
  }

  /** Reading the fields in order decodes exactly the 18-byte layout. */
  lemma LightLayout(d: seq<byte>, p: nat)
    ensures LightFields(d, p) == ParseLight(d, p)
  {}

  method ReadLight(src: Cursor) returns (r: Result<Light>)
    requires src.Valid()
    modifies src
    ensures src.Valid() && Matches(r, ParseLight(src.data, old(src.pos)), src.pos)
  {
    LightLayout(src.data, src.pos);
    var pos :- ReadVertex32(src);
    var intensity :- ReadBitU16(src);
    var fade :- ReadBitU32(src);
    return Success(Light(pos := pos, intensity1 := RescaleU16(intensity), intensity2 := RescaleU16(intensity), fade1 := fade, fade2 := fade));
  }

  /** read_tr_room_vertex: position and rescaled lighting, copied to lighting2; attributes 0; the TR5 colour is the lighting over 32767 with alpha 1. */
  function RoomVertexAt(d: seq<byte>, p: nat): RoomVertex
    requires p + 8 <= |d|
  {
    RoomVertex(vertex := Vertex16At(d, p), lighting1 := RescaleS16(S16At(d, p + 6)), attributes := 0, lighting2 := RescaleS16(S16At(d, p + 6)), normal := Vertex(), colour := Grey(RescaleS16(S16At(d, p + 6))))
  }

  function ParseRoomVertex(d: seq<byte>, p: nat): Option<Parsed<RoomVertex>> {
    if p + 8 <= |d| then Some(Parsed(RoomVertexAt(d, p), p + 8)) else None
  }

  /** The fields of the record decoded one after the other, in the order the reader reads them. */
  function RoomVertexFields(d: seq<byte>, p: nat): Option<Parsed<RoomVertex>> {
    match ParseVertex16(d, p)
    case None => None
    case Some(vertex) =>
    match ParseBit16(d, vertex.next)
    case None => None
    case Some(lighting) =>
    Some(Parsed(RoomVertex(vertex := vertex.value, lighting1 := RescaleS16(lighting.value), attributes := 0, lighting2 := RescaleS16(lighting.value), normal := Vertex(), colour := Grey(RescaleS16(lighting.value))), lighting.next))
  }

  /** Reading the fields in order decodes exactly the 8-byte layout. */
  lemma RoomVertexLayout(d: seq<byte>, p: nat)
    ensures RoomVertexFields(d, p) == ParseRoomVertex(d, p)
  {}

  method ReadRoomVertex(src: Cursor) returns (r: Result<RoomVertex>)
    requires src.Valid()
    modifies src
    ensures src.Valid() && Matches(r, ParseRoomVertex(src.data, old(src.pos)), src.pos)
  {
    RoomVertexLayout(src.data, src.pos);
    var vertex :- ReadVertex16(src);
    var lighting :- ReadBit16(src);
    return Success(RoomVertex(vertex := vertex, lighting1 := RescaleS16(lighting), attributes := 0, lighting2 := RescaleS16(lighting), normal := Vertex(), colour := Grey(RescaleS16(lighting))));
  }

  /** The opaque grey of an intensity in 0..32767: each channel is the
      intensity over 32767.0f, alpha 1. */
  function Grey(intensity: int): (c: FColour)
    ensures c.r == c.g == c.b == Quotient(intensity, 32767) && c.a == FromInt(1)
  {
    var shade := Quotient(intensity, 32767);
    FColour(shade, shade, shade, FromInt(1))
  }

  /** read_tr_room_staticmesh: position, rotation in degrees, intensity rescaled when not negative and copied, object id. */
  function RoomStaticMeshAt(d: seq<byte>, p: nat): RoomStaticMesh
    requires p + 18 <= |d|
  {
    RoomStaticMesh(Vertex32At(d, p), Degrees(U16At(d, p + 12)), RescaleIfSet(S16At(d, p + 14)), RescaleIfSet(S16At(d, p + 14)), U16At(d, p + 16))
  }

  function ParseRoomStaticMesh(d: seq<byte>, p: nat): Option<Parsed<RoomStaticMesh>> {
    if p + 18 <= |d| then Some(Parsed(RoomStaticMeshAt(d, p), p + 18)) else None
  }

  /** The fields of the record decoded one after the other, in the order the reader reads them. */
  function RoomStaticMeshFields(d: seq<byte>, p: nat): Option<Parsed<RoomStaticMesh>> {
    match ParseVertex32(d, p)
    case None => None
    case Some(pos) =>
    match ParseBitU16(d, pos.next)
    case None => None
    case Some(rotation) =>
    match ParseBit16(d, rotation.next)
    case None => None
    case Some(intensity) =>
    match ParseBitU16(d, intensity.next)
    case None => None
    case Some(id) =>
    Some(Parsed(RoomStaticMesh(pos.value, Degrees(rotation.value), RescaleIfSet(intensity.value), RescaleIfSet(intensity.value), id.value), id.next))
  }

  /** Reading the fields in order decodes exactly the 18-byte layout. */
  lemma RoomStaticMeshLayout(d: seq<byte>, p: nat)
    ensures RoomStaticMeshFields(d, p) == ParseRoomStaticMesh(d, p)
  {}

  method ReadRoomStaticMesh(src: Cursor) returns (r: Result<RoomStaticMesh>)
    requires src.Valid()
    modifies src
    ensures src.Valid() && Matches(r, ParseRoomStaticMesh(src.data, old(src.pos)), src.pos)
  {
    RoomStaticMeshLayout(src.data, src.pos);
    var pos :- ReadVertex32(src);
    var rotation :- ReadBitU16(src);
    var intensity :- ReadBit16(src);
    var id :- ReadBitU16(src);
    return Success(RoomStaticMesh(pos, Degrees(rotation), RescaleIfSet(intensity), RescaleIfSet(intensity), id));
  }

  // ---------------------------------------------------------------------
  // Textures

  /** read_tr_object_texture_vert. */
  function ObjectTextureVertAt(d: seq<byte>, p: nat): ObjectTextureVert
    requires p + 4 <= |d|
  {
    ObjectTextureVert(S8At(d, p), U8At(d, p + 1), S8At(d, p + 2), U8At(d, p + 3))
  }

  function ParseObjectTextureVert(d: seq<byte>, p: nat): Option<Parsed<ObjectTextureVert>> {
    if p + 4 <= |d| then Some(Parsed(ObjectTextureVertAt(d, p), p + 4)) else None
  }

  /** The fields of the record decoded one after the other, in the order the reader reads them. */
  function ObjectTextureVertFields(d: seq<byte>, p: nat): Option<Parsed<ObjectTextureVert>> {
    match ParseBit8(d, p)
    case None => None
    case Some(xc) =>
    match ParseBitU8(d, xc.next)
    case None => None
    case Some(xp) =>
    match ParseBit8(d, xp.next)
    case None => None
    case Some(yc) =>
    match ParseBitU8(d, yc.next)
    case None => None
    case Some(yp) =>
    Some(Parsed(ObjectTextureVert(xc.value, xp.value, yc.value, yp.value), yp.next))
  }

  /** Reading the fields in order decodes exactly the 4-byte layout. */
  lemma ObjectTextureVertLayout(d: seq<byte>, p: nat)
    ensures ObjectTextureVertFields(d, p) == ParseObjectTextureVert(d, p)
  {}

  method ReadObjectTextureVert(src: Cursor) returns (r: Result<ObjectTextureVert>)
    requires src.Valid()
    modifies src
    ensures src.Valid() && Matches(r, ParseObjectTextureVert(src.data, old(src.pos)), src.pos)
  {
    ObjectTextureVertLayout(src.data, src.pos);
    var xc :- ReadBit8(src);
    var xp :- ReadBitU8(src);
    var yc :- ReadBit8(src);
    var yp :- ReadBitU8(src);
    return Success(ObjectTextureVert(xc, xp, yc, yp));
  }

  const TileError := "object_texture.tile > 64"
  const TileFlagsError := "object_texture.tile_flags != 0"

  /** read_tr_object_texture: a tile above 64 or non-zero tile flags is an error; the TR4-only fields are zero. */
  function ObjectTextureAt(d: seq<byte>, p: nat): ObjectTexture
    requires p + 20 <= |d|
  {
    ObjectTexture(U16At(d, p), U8At(d, p + 2), U8At(d, p + 3), 0, [ObjectTextureVertAt(d, p + 4), ObjectTextureVertAt(d, p + 8), ObjectTextureVertAt(d, p + 12), ObjectTextureVertAt(d, p + 16)], 0, 0, 0, 0)
  }

  function ParseObjectTexture(d: seq<byte>, p: nat): Option<Parsed<ObjectTexture>> {
    if p + 20 <= |d| && U8At(d, p + 2) <= 64 && U8At(d, p + 3) == 0 then Some(Parsed(ObjectTextureAt(d, p), p + 20)) else None
  }

  /** The fields of the record decoded one after the other, in the order the reader reads them. */
  function ObjectTextureFields(d: seq<byte>, p: nat): Option<Parsed<ObjectTexture>> {
    match ParseBitU16(d, p)
    case None => None
    case Some(transparency) =>
    match ParseBitU8(d, transparency.next)
    case None => None
    case Some(tile) =>
    if tile.value > 64 then None else
    match ParseBitU8(d, tile.next)
    case None => None
    case Some(tileFlags) =>
    if tileFlags.value != 0 then None else
    match ParseObjectTextureVert(d, tileFlags.next)
    case None => None
    case Some(v0) =>
    match ParseObjectTextureVert(d, v0.next)
    case None => None
    case Some(v1) =>
    match ParseObjectTextureVert(d, v1.next)
    case None => None
    case Some(v2) =>
    match ParseObjectTextureVert(d, v2.next)
    case None => None
    case Some(v3) =>
    Some(Parsed(ObjectTexture(transparency.value, tile.value, tileFlags.value, 0, [v0.value, v1.value, v2.value, v3.value], 0, 0, 0, 0), v3.next))
  }

  /** Reading the fields in order decodes exactly the 20-byte layout. */
  lemma ObjectTextureLayout(d: seq<byte>, p: nat)
    ensures ObjectTextureFields(d, p) == ParseObjectTexture(d, p)
  {}

  method ReadObjectTexture(src: Cursor) returns (r: Result<ObjectTexture>)
    requires src.Valid()
    modifies src
    ensures src.Valid() && Matches(r, ParseObjectTexture(src.data, old(src.pos)), src.pos)
    ensures old(src.pos) + 3 <= |src.data| && U8At(src.data, old(src.pos) + 2) > 64 ==>
      r == Failure(ReadError(TileError))
    ensures old(src.pos) + 4 <= |src.data| && U8At(src.data, old(src.pos) + 2) <= 64 && U8At(src.data, old(src.pos) + 3) != 0 ==>
      r == Failure(ReadError(TileFlagsError))
  {
    ObjectTextureLayout(src.data, src.pos);
    var transparency :- ReadBitU16(src);
    var tile :- ReadBitU8(src);
    if tile > 64 {
      return Failure(ReadError(TileError));
    }
    var tileFlags :- ReadBitU8(src);
    if tileFlags != 0 {
      return Failure(ReadError(TileFlagsError));
    }
    var v0 :- ReadObjectTextureVert(src);
    var v1 :- ReadObjectTextureVert(src);
    var v2 :- ReadObjectTextureVert(src);
    var v3 :- ReadObjectTextureVert(src);
    return Success(ObjectTexture(transparency, tile, tileFlags, 0, [v0, v1, v2, v3], 0, 0, 0, 0));
  }

  const SpriteTileError := "sprite_texture.tile > 64"

  /** read_tr_sprite_texture: a tile above 64 is an error. */
  function SpriteTextureAt(d: seq<byte>, p: nat): SpriteTexture
    requires p + 16 <= |d|
  {
    SpriteTexture(U16At(d, p), U8At(d, p + 2), U8At(d, p + 3), U16At(d, p + 4), U16At(d, p + 6), S16At(d, p + 8), S16At(d, p + 10), S16At(d, p + 12), S16At(d, p + 14))
  }

  function ParseSpriteTexture(d: seq<byte>, p: nat): Option<Parsed<SpriteTexture>> {
    if p + 16 <= |d| && U16At(d, p) <= 64 then Some(Parsed(SpriteTextureAt(d, p), p + 16)) else None
  }

  /** The fields of the record decoded one after the other, in the order the reader reads them. */
  function SpriteTextureFields(d: seq<byte>, p: nat): Option<Parsed<SpriteTexture>> {
    match ParseBitU16(d, p)
    case None => None
    case Some(tile) =>
    if tile.value > 64 then None else
    match ParseBitU8(d, tile.next)
    case None => None
    case Some(x) =>
    match ParseBitU8(d, x.next)
    case None => None
    case Some(y) =>
    match ParseBitU16(d, y.next)
    case None => None
    case Some(width) =>
    match ParseBitU16(d, width.next)
    case None => None
    case Some(height) =>
    match ParseBit16(d, height.next)
    case None => None
    case Some(left) =>
    match ParseBit16(d, left.next)
    case None => None
    case Some(top) =>
    match ParseBit16(d, top.next)
    case None => None
    case Some(right) =>
    match ParseBit16(d, right.next)
    case None => None
    case Some(bottom) =>
    Some(Parsed(SpriteTexture(tile.value, x.value, y.value, width.value, height.value, left.value, top.value, right.value, bottom.value), bottom.next))
  }

  /** Reading the fields in order decodes exactly the 16-byte layout. */
  lemma SpriteTextureLayout(d: seq<byte>, p: nat)
    ensures SpriteTextureFields(d, p) == ParseSpriteTexture(d, p)
  {}

  method ReadSpriteTexture(src: Cursor) returns (r: Result<SpriteTexture>)
    requires src.Valid()
    modifies src
    ensures src.Valid() && Matches(r, ParseSpriteTexture(src.data, old(src.pos)), src.pos)
    ensures old(src.pos) + 2 <= |src.data| && U16At(src.data, old(src.pos)) > 64 ==>
      r == Failure(ReadError(SpriteTileError))
  {
    SpriteTextureLayout(src.data, src.pos);
    var tile :- ReadBitU16(src);
    if tile > 64 {
      return Failure(ReadError(SpriteTileError));
    }
    var x :- ReadBitU8(src);
    var y :- ReadBitU8(src);
    var width :- ReadBitU16(src);
    var height :- ReadBitU16(src);
    var left :- ReadBit16(src);
    var top :- ReadBit16(src);
    var right :- ReadBit16(src);
    var bottom :- ReadBit16(src);
    return Success(SpriteTexture(tile, x, y, width, height, left, top, right, bottom));
  }

  /** read_tr_sprite_sequence: the length is stored negated. */
  function SpriteSequenceAt(d: seq<byte>, p: nat): SpriteSequence
    requires p + 8 <= |d|
  {
    SpriteSequence(S32At(d, p), ToBit16(-S16At(d, p + 4)), S16At(d, p + 6))
  }

  function ParseSpriteSequence(d: seq<byte>, p: nat): Option<Parsed<SpriteSequence>> {
    if p + 8 <= |d| then Some(Parsed(SpriteSequenceAt(d, p), p + 8)) else None
  }

  /** The fields of the record decoded one after the other, in the order the reader reads them. */
  function SpriteSequenceFields(d: seq<byte>, p: nat): Option<Parsed<SpriteSequence>> {
    match ParseBit32(d, p)
    case None => None
    case Some(id) =>
    match ParseBit16(d, id.next)
    case None => None
    case Some(length) =>
    match ParseBit16(d, length.next)
    case None => None
    case Some(offset) =>
    Some(Parsed(SpriteSequence(id.value, ToBit16(-length.value), offset.value), offset.next))
  }

  /** Reading the fields in order decodes exactly the 8-byte layout. */
  lemma SpriteSequenceLayout(d: seq<byte>, p: nat)
    ensures SpriteSequenceFields(d, p) == ParseSpriteSequence(d, p)
  {}

  method ReadSpriteSequence(src: Cursor) returns (r: Result<SpriteSequence>)
    requires src.Valid()
    modifies src
    ensures src.Valid() && Matches(r, ParseSpriteSequence(src.data, old(src.pos)), src.pos)
  {
    SpriteSequenceLayout(src.data, src.pos);
    var id :- ReadBit32(src);
    var length :- ReadBit16(src);
    var offset :- ReadBit16(src);
    return Success(SpriteSequence(id, ToBit16(-length), offset));
  }

  /** A sequence length of 1..32767 in the file is stored as its negation;
      the most negative bit16 stays itself. */
  lemma SpriteSequenceLength(d: seq<byte>, p: nat)
    requires p + 8 <= |d|
    ensures S16At(d, p + 4) != -0x8000 ==> SpriteSequenceAt(d, p).length == -S16At(d, p + 4)
    ensures S16At(d, p + 4) == -0x8000 ==> SpriteSequenceAt(d, p).length == -0x8000
  {}

  // ---------------------------------------------------------------------
  // Meshes

  /** A list whose count is a bit16: a count n >= 0 reads n records; a
      negative one reads none, while the list is resized to the count
      converted to bitu32 and so holds that many blank records. */
  function ParseSigned<T>(d: seq<byte>, p: nat, n: int, f: (seq<byte>, nat) -> Option<Parsed<T>>, blank: T): (r: Option<Parsed<seq<T>>>)
    requires -0x8000_0000 <= n < 0x8000_0000
    ensures r.Some? ==> |r.value.value| == Wrap32(n)
    ensures n < 0 ==> r == Some(Parsed(seq(Wrap32(n), _ => blank), p))
    ensures n >= 0 ==> r == ParseMany(d, p, n, f)
  {
    if n >= 0 then ParseMany(d, p, n, f) else Some(Parsed(seq(Wrap32(n), _ => blank), p))
  }

  /** The normals or the light values of a mesh. */
  datatype Shading = Shading(num_normals: int, num_lights: int, normals: seq<Vertex>, lights: seq<int>)

  /** A count n >= 0 reads n normals and sets num_lights to 0; a negative
      count reads -n light values and sets num_normals to 0. The negation is
      stored into a bit16, so the most negative count stays negative and
      reads nothing. */
  function ParseShading(d: seq<byte>, p: nat, n: int): (r: Option<Parsed<Shading>>)
    requires -0x8000 <= n < 0x8000
    ensures (r.Some? && n >= 0) ==> (r.value.value.num_normals == n && r.value.value.num_lights == 0 &&
      |r.value.value.normals| == n && r.value.value.lights == [])
    ensures (r.Some? && -0x8000 < n < 0) ==> (r.value.value.num_normals == 0 && r.value.value.num_lights == -n &&
      r.value.value.normals == [] && |r.value.value.lights| == -n)
    ensures n == -0x8000 ==> r.Some? && r.value.next == p
  {
    if n >= 0 then
      match ParseMany(d, p, n, ParseVertex16)
      case None => None
      case Some(ns) =>
      Some(Parsed(Shading(n, 0, ns.value, []), ns.next))
    else
      var count := ToBit16(-n);
      match ParseSigned(d, p, count, ParseBit16, 0)
      case None => None
      case Some(ls) =>
      Some(Parsed(Shading(0, count, [], ls.value), ls.next))
  }

  /** A list of `n` records whose bit16 count may be negative. */
  method ReadSignedVertices16(src: Cursor, n: int) returns (r: Result<seq<Vertex>>)
    requires src.Valid() && -0x8000_0000 <= n < 0x8000_0000
    modifies src
    ensures src.Valid() && Matches(r, ParseSigned(src.data, old(src.pos), n, ParseVertex16, Vertex()), src.pos)
  {
    if n < 0 {
      return Success(seq(Wrap32(n), _ => Vertex()));
    }
    r := ReadVertices16(src, n);
  }

  method ReadSignedLightValues(src: Cursor, n: int) returns (r: Result<seq<int>>)
    requires src.Valid() && -0x8000_0000 <= n < 0x8000_0000
    modifies src
    ensures src.Valid() && Matches(r, ParseSigned(src.data, old(src.pos), n, ParseBit16, 0), src.pos)
  {
    if n < 0 {
      return Success(seq(Wrap32(n), _ => 0));
    }
    r := ReadLightValues(src, n);
  }

  method ReadSignedFace4s(src: Cursor, n: int) returns (r: Result<seq<Face4>>)
    requires src.Valid() && -0x8000_0000 <= n < 0x8000_0000
    modifies src
    ensures src.Valid() && Matches(r, ParseSigned(src.data, old(src.pos), n, ParseFace4, Face4()), src.pos)
  {
    if n < 0 {
      return Success(seq(Wrap32(n), _ => Face4()));
    }
    r := ReadFace4s(src, n);
  }

  method ReadSignedFace3s(src: Cursor, n: int) returns (r: Result<seq<Face3>>)
    requires src.Valid() && -0x8000_0000 <= n < 0x8000_0000
    modifies src
    ensures src.Valid() && Matches(r, ParseSigned(src.data, old(src.pos), n, ParseFace3, Face3()), src.pos)
  {
    if n < 0 {
      return Success(seq(Wrap32(n), _ => Face3()));
    }
    r := ReadFace3s(src, n);
  }

  method ReadShading(src: Cursor, n: int) returns (r: Result<Shading>)
    requires src.Valid() && -0x8000 <= n < 0x8000
    modifies src
    ensures src.Valid() && Matches(r, ParseShading(src.data, old(src.pos), n), src.pos)
  {
    if n >= 0 {
      var ns :- ReadVertices16(src, n);
      return Success(Shading(n, 0, ns, []));
    }
    var count := ToBit16(-n);
    var ls :- ReadSignedLightValues(src, count);
    return Success(Shading(0, count, [], ls));
  }

  /** read_tr_mesh: centre, collision radius, vertices, the normals or light
      values, then the faces; every count is a bit16. */
  function ParseMesh(d: seq<byte>, p: nat): Option<Parsed<Mesh>> {
    match ParseVertex16(d, p)
    case None => None
    case Some(c) =>
    match ParseBit32(d, c.next)
    case None => None
    case Some(cs) =>
    match ParseBit16(d, cs.next)
    case None => None
    case Some(nv) =>
    match ParseSigned(d, nv.next, nv.value, ParseVertex16, Vertex())
    case None => None
    case Some(vs) =>
    match ParseBit16(d, vs.next)
    case None => None
    case Some(nn) =>
    match ParseShading(d, nn.next, nn.value)
    case None => None
    case Some(shading) =>
    var s := shading.value;
    ParseMeshFaces(d, shading.next, Mesh(c.value, cs.value, nv.value, vs.value, s.num_normals, s.num_lights, s.normals, s.lights))
  }

  /** The textured rectangles and triangles, then the coloured ones, each
      list after its bit16 count; the rest of `mesh` is kept. */
  function ParseMeshFaces(d: seq<byte>, p: nat, mesh: Mesh): Option<Parsed<Mesh>> {
    match ParseBit16(d, p)
    case None => None
    case Some(ntr) =>
    match ParseSigned(d, ntr.next, ntr.value, ParseFace4, Face4())
    case None => None
    case Some(tr) =>
    match ParseBit16(d, tr.next)
    case None => None
    case Some(ntt) =>
    match ParseSigned(d, ntt.next, ntt.value, ParseFace3, Face3())
    case None => None
    case Some(tt) =>
    match ParseBit16(d, tt.next)
    case None => None
    case Some(ncr) =>
    match ParseSigned(d, ncr.next, ncr.value, ParseFace4, Face4())
    case None => None
    case Some(cr) =>
    match ParseBit16(d, cr.next)
    case None => None
    case Some(nct) =>
    match ParseSigned(d, nct.next, nct.value, ParseFace3, Face3())
    case None => None
    case Some(ct) =>
    Some(Parsed(mesh.(num_textured_rectangles := ntr.value, textured_rectangles := tr.value,
                      num_textured_triangles := ntt.value, textured_triangles := tt.value,
                      num_coloured_rectangles := ncr.value, coloured_rectangles := cr.value,
                      num_coloured_triangles := nct.value, coloured_triangles := ct.value),
                ct.next))
  }

  method ReadMesh(src: Cursor) returns (r: Result<Mesh>)
    requires src.Valid()
    modifies src
    ensures src.Valid() && Matches(r, ParseMesh(src.data, old(src.pos)), src.pos)
  {
    var c :- ReadVertex16(src);
    var cs :- ReadBit32(src);
    var nv :- ReadBit16(src);
    var vs :- ReadSignedVertices16(src, nv);
    var nn :- ReadBit16(src);
    var s :- ReadShading(src, nn);
    r := ReadMeshFaces(src, Mesh(c, cs, nv, vs, s.num_normals, s.num_lights, s.normals, s.lights));
  }

  method ReadMeshFaces(src: Cursor, mesh: Mesh) returns (r: Result<Mesh>)
    requires src.Valid()
    modifies src
    ensures src.Valid() && Matches(r, ParseMeshFaces(src.data, old(src.pos), mesh), src.pos)
  {
    var ntr :- ReadBit16(src);
    var tr :- ReadSignedFace4s(src, ntr);
    var ntt :- ReadBit16(src);
    var tt :- ReadSignedFace3s(src, ntt);
    var ncr :- ReadBit16(src);
    var cr :- ReadSignedFace4s(src, ncr);
    var nct :- ReadBit16(src);
    var ct :- ReadSignedFace3s(src, nct);
    return Success(mesh.(num_textured_rectangles := ntr, textured_rectangles := tr,
                         num_textured_triangles := ntt, textured_triangles := tt,
                         num_coloured_rectangles := ncr, coloured_rectangles := cr,
                         num_coloured_triangles := nct, coloured_triangles := ct));
  }

  /** A mesh whose counts are all non-negative holds exactly as many
      vertices and faces as its counts say, and either normals or lights. */
  lemma MeshCountsMatch(d: seq<byte>, p: nat)
    requires ParseMesh(d, p).Some?
    ensures var m := ParseMesh(d, p).value.value;
      (m.num_vertices >= 0 ==> |m.vertices| == m.num_vertices) &&
      (m.num_textured_rectangles >= 0 ==> |m.textured_rectangles| == m.num_textured_rectangles) &&
      (m.num_textured_triangles >= 0 ==> |m.textured_triangles| == m.num_textured_triangles) &&
      (m.num_coloured_rectangles >= 0 ==> |m.coloured_rectangles| == m.num_coloured_rectangles) &&
      (m.num_coloured_triangles >= 0 ==> |m.coloured_triangles| == m.num_coloured_triangles) &&
      (m.num_normals == 0 || m.num_lights == 0)
  {}

  // ---------------------------------------------------------------------
  // Animation records

  /** read_tr_animation: 32 bytes; the TR4-only fields stay zero. */
  function AnimationAt(d: seq<byte>, p: nat): Animation
    requires p + 32 <= |d|
  {
    Animation(frame_offset := U32At(d, p), frame_rate := U8At(d, p + 4), frame_size := U8At(d, p + 5), state_id := U16At(d, p + 6), unknown := S16At(d, p + 8), speed := S16At(d, p + 10), accel_lo := S16At(d, p + 12), accel_hi := S16At(d, p + 14), frame_start := U16At(d, p + 16), frame_end := U16At(d, p + 18), next_animation := U16At(d, p + 20), next_frame := U16At(d, p + 22), num_state_changes := U16At(d, p + 24), state_change_offset := U16At(d, p + 26), num_anim_commands := U16At(d, p + 28), anim_command := U16At(d, p + 30))
  }

  function ParseAnimation(d: seq<byte>, p: nat): Option<Parsed<Animation>> {
    if p + 32 <= |d| then Some(Parsed(AnimationAt(d, p), p + 32)) else None
  }

  /** The fields of the record decoded one after the other, in the order the reader reads them. */
  function AnimationFields(d: seq<byte>, p: nat): Option<Parsed<Animation>> {
    match ParseBitU32(d, p)
    case None => None
    case Some(frameOffset) =>
    match ParseBitU8(d, frameOffset.next)
    case None => None
    case Some(rate) =>
    match ParseBitU8(d, rate.next)
    case None => None
    case Some(size) =>
    match ParseBitU16(d, size.next)
    case None => None
    case Some(state) =>
    match ParseBit16(d, state.next)
    case None => None
    case Some(unknown) =>
    match ParseBit16(d, unknown.next)
    case None => None
    case Some(speed) =>
    match ParseBit16(d, speed.next)
    case None => None
    case Some(accelLo) =>
    match ParseBit16(d, accelLo.next)
    case None => None
    case Some(accelHi) =>
    match ParseBitU16(d, accelHi.next)
    case None => None
    case Some(start) =>
    match ParseBitU16(d, start.next)
    case None => None
    case Some(end) =>
    match ParseBitU16(d, end.next)
    case None => None
    case Some(nextAnimation) =>
    match ParseBitU16(d, nextAnimation.next)
    case None => None
    case Some(nextFrame) =>
    match ParseBitU16(d, nextFrame.next)
    case None => None
    case Some(numStateChanges) =>
    match ParseBitU16(d, numStateChanges.next)
    case None => None
    case Some(stateChangeOffset) =>
    match ParseBitU16(d, stateChangeOffset.next)
    case None => None
    case Some(numAnimCommands) =>
    match ParseBitU16(d, numAnimCommands.next)
    case None => None
    case Some(animCommand) =>
    Some(Parsed(Animation(frame_offset := frameOffset.value, frame_rate := rate.value, frame_size := size.value, state_id := state.value, unknown := unknown.value, speed := speed.value, accel_lo := accelLo.value, accel_hi := accelHi.value, frame_start := start.value, frame_end := end.value, next_animation := nextAnimation.value, next_frame := nextFrame.value, num_state_changes := numStateChanges.value, state_change_offset := stateChangeOffset.value, num_anim_commands := numAnimCommands.value, anim_command := animCommand.value), animCommand.next))
  }

  /** Reading the fields in order decodes exactly the 32-byte layout. */
  lemma AnimationLayout(d: seq<byte>, p: nat)
    ensures AnimationFields(d, p) == ParseAnimation(d, p)
  {}

  method ReadAnimation(src: Cursor) returns (r: Result<Animation>)
    requires src.Valid()
    modifies src
    ensures src.Valid() && Matches(r, ParseAnimation(src.data, old(src.pos)), src.pos)
  {
    AnimationLayout(src.data, src.pos);
    var frameOffset :- ReadBitU32(src);
    var rate :- ReadBitU8(src);
    var size :- ReadBitU8(src);
    var state :- ReadBitU16(src);
    var unknown :- ReadBit16(src);
    var speed :- ReadBit16(src);
    var accelLo :- ReadBit16(src);
    var accelHi :- ReadBit16(src);
    var start :- ReadBitU16(src);
    var end :- ReadBitU16(src);
    var nextAnimation :- ReadBitU16(src);
    var nextFrame :- ReadBitU16(src);
    var numStateChanges :- ReadBitU16(src);
    var stateChangeOffset :- ReadBitU16(src);
    var numAnimCommands :- ReadBitU16(src);
    var animCommand :- ReadBitU16(src);
    return Success(Animation(frame_offset := frameOffset, frame_rate := rate, frame_size := size, state_id := state, unknown := unknown, speed := speed, accel_lo := accelLo, accel_hi := accelHi, frame_start := start, frame_end := end, next_animation := nextAnimation, next_frame := nextFrame, num_state_changes := numStateChanges, state_change_offset := stateChangeOffset, num_anim_commands := numAnimCommands, anim_command := animCommand));
  }

  /** read_tr_meshtree. */
  function MeshTreeAt(d: seq<byte>, p: nat): MeshTree
    requires p + 16 <= |d|
  {
    MeshTree(U32At(d, p), Vertex32At(d, p + 4))
  }

  function ParseMeshTree(d: seq<byte>, p: nat): Option<Parsed<MeshTree>> {
    if p + 16 <= |d| then Some(Parsed(MeshTreeAt(d, p), p + 16)) else None
  }

  /** The fields of the record decoded one after the other, in the order the reader reads them. */
  function MeshTreeFields(d: seq<byte>, p: nat): Option<Parsed<MeshTree>> {
    match ParseBitU32(d, p)
    case None => None
    case Some(flags) =>
    match ParseVertex32(d, flags.next)
    case None => None
    case Some(offset) =>
    Some(Parsed(MeshTree(flags.value, offset.value), offset.next))
  }

  /** Reading the fields in order decodes exactly the 16-byte layout. */
  lemma MeshTreeLayout(d: seq<byte>, p: nat)
    ensures MeshTreeFields(d, p) == ParseMeshTree(d, p)
  {}

  method ReadMeshTree(src: Cursor) returns (r: Result<MeshTree>)
    requires src.Valid()
    modifies src
    ensures src.Valid() && Matches(r, ParseMeshTree(src.data, old(src.pos)), src.pos)
  {
    MeshTreeLayout(src.data, src.pos);
    var flags :- ReadBitU32(src);
    var offset :- ReadVertex32(src);
    return Success(MeshTree(flags, offset));
  }

  /** The two-word rotation of a TR1 frame, given the words in file order
      reversed (temp1 is the second word read): x is bits 4-13 of temp1, y
      joins the low 4 bits of temp1 with the top 6 bits of temp2, z is the low
      10 bits of temp2. */
  function LegacyRotation(temp1: int, temp2: int): (int, int, int)
    requires 0 <= temp1 < 0x1_0000 && 0 <= temp2 < 0x1_0000
  {
    ((temp1 / 16) % 1024, (temp1 % 16) * 64 + temp2 / 1024, temp2 % 1024)
  }

  /** The packing LegacyRotation undoes. */
  function PackLegacyRotation(x: int, y: int, z: int): (w: (int, int))
    requires 0 <= x < 1024 && 0 <= y < 1024 && 0 <= z < 1024
    ensures 0 <= w.0 < 0x4000 && 0 <= w.1 < 0x1_0000
  {
    (x * 16 + y / 64, (y % 64) * 1024 + z)
  }

  /** Every encodable rotation is decoded back to its three angles. */
  lemma {:induction false} LegacyRotationRoundTrip(x: int, y: int, z: int)
    requires 0 <= x < 1024 && 0 <= y < 1024 && 0 <= z < 1024
    ensures var w := PackLegacyRotation(x, y, z); LegacyRotation(w.0, w.1) == (x, y, z)
  {
    var t1 := x * 16 + y / 64;
    var t2 := (y % 64) * 1024 + z;
    assert t1 / 16 == x && t1 % 16 == y / 64;
    assert t2 / 1024 == y % 64 && t2 % 1024 == z;
  }

  /** The two top bits of temp1 take no part in the rotation. */
  lemma {:induction false} LegacyRotationIgnoresTopBits(temp1: int, temp2: int, top: int)
    requires 0 <= temp1 < 0x4000 && 0 <= temp2 < 0x1_0000 && 0 <= top < 4
    ensures LegacyRotation(temp1 + top * 0x4000, temp2) == LegacyRotation(temp1, temp2)
  {
    var t := temp1 + top * 0x4000;
    assert t / 16 == temp1 / 16 + top * 1024;
    assert t % 16 == temp1 % 16;
  }

  lemma LegacyRotationExample()
    ensures LegacyRotation(0x1234, 0xABCD) == (291, 298, 973)
  {}

  /** The three angles of a frame rotation as a vertex. */
  function RotationVertex(temp1: int, temp2: int): Vertex
    requires 0 <= temp1 < 0x1_0000 && 0 <= temp2 < 0x1_0000
  {
    var angles := LegacyRotation(temp1, temp2);
    Vertex(FromInt(angles.0), FromInt(angles.1), FromInt(angles.2))
  }

  /** One rotation of read_tr_frame: temp2 is read before temp1. */
  function LegacyRotationAt(d: seq<byte>, p: nat): Vertex
    requires p + 4 <= |d|
  {
    RotationVertex(U16At(d, p + 2), U16At(d, p))
  }

  function ParseLegacyRotation(d: seq<byte>, p: nat): Option<Parsed<Vertex>> {
    if p + 4 <= |d| then Some(Parsed(LegacyRotationAt(d, p), p + 4)) else None
  }

  /** The fields of the record decoded one after the other, in the order the reader reads them. */
  function LegacyRotationFields(d: seq<byte>, p: nat): Option<Parsed<Vertex>> {
    match ParseBitU16(d, p)
    case None => None
    case Some(temp2) =>
    match ParseBitU16(d, temp2.next)
    case None => None
    case Some(temp1) =>
    Some(Parsed(RotationVertex(temp1.value, temp2.value), temp1.next))
  }

  /** Reading the fields in order decodes exactly the 4-byte layout. */
  lemma LegacyRotationLayout(d: seq<byte>, p: nat)
    ensures LegacyRotationFields(d, p) == ParseLegacyRotation(d, p)
  {}

  method ReadLegacyRotation(src: Cursor) returns (r: Result<Vertex>)
    requires src.Valid()
    modifies src
    ensures src.Valid() && Matches(r, ParseLegacyRotation(src.data, old(src.pos)), src.pos)
  {
    LegacyRotationLayout(src.data, src.pos);
    var temp2 :- ReadBitU16(src);
    var temp1 :- ReadBitU16(src);
    return Success(RotationVertex(temp1, temp2));
  }

  /** read_tr_frame: bounding box, offset, a rotation count that must equal
      the expected one, then that many rotations; the byte offset is 0. */
  function ParseFrame(d: seq<byte>, p: nat, numRotations: nat): Option<Parsed<Frame>> {
    match ParseVertex16(d, p)
    case None => None
    case Some(lo) =>
    match ParseVertex16(d, lo.next)
    case None => None
    case Some(hi) =>
    match ParseVertex16(d, hi.next)
    case None => None
    case Some(off) =>
    match ParseBitU16(d, off.next)
    case None => None
    case Some(count) =>
    if count.value != numRotations then None
    else
      match ParseMany(d, count.next, numRotations, ParseLegacyRotation)
      case None => None
      case Some(rots) =>
      Some(Parsed(Frame(lo.value, hi.value, off.value, rots.value, 0), rots.next))
  }

  const FrameCountError := "read_tr_frame: num_rotations != frame.num_rotations"

  method ReadFrame(src: Cursor, numRotations: nat) returns (r: Result<Frame>)
    requires src.Valid()
    modifies src
    ensures src.Valid() && Matches(r, ParseFrame(src.data, old(src.pos), numRotations), src.pos)
    ensures old(src.pos) + 20 <= |src.data| && U16At(src.data, old(src.pos) + 18) != numRotations ==>
      r == Failure(ReadError(FrameCountError))
  {
    var lo :- ReadVertex16(src);
    var hi :- ReadVertex16(src);
    var off :- ReadVertex16(src);
    var count :- ReadBitU16(src);
    if numRotations != count {
      return Failure(ReadError(FrameCountError));
    }
    var rots :- ReadLegacyRotations(src, numRotations);
    return Success(Frame(lo, hi, off, rots, 0));
  }

  const MeshTreeIndexError := "read_tr_moveable: mesh_tree_index"

  /** read_tr_moveable: the mesh-tree index is a byte offset into 4-byte words, rejected unless a multiple of 4 and stored as a word index. */
  function MoveableAt(d: seq<byte>, p: nat): Moveable
    requires p + 18 <= |d|
  {
    Moveable(object_id := U32At(d, p), num_meshes := U16At(d, p + 4), starting_mesh := U16At(d, p + 6), mesh_tree_index := U32At(d, p + 8) / 4, frame_offset := U32At(d, p + 12), animation_index := U16At(d, p + 16))
  }

  function ParseMoveable(d: seq<byte>, p: nat): Option<Parsed<Moveable>> {
    if p + 18 <= |d| && U32At(d, p + 8) % 4 == 0 then Some(Parsed(MoveableAt(d, p), p + 18)) else None
  }

  /** The fields of the record decoded one after the other, in the order the reader reads them. */
  function MoveableFields(d: seq<byte>, p: nat): Option<Parsed<Moveable>> {
    match ParseBitU32(d, p)
    case None => None
    case Some(id) =>
    match ParseBitU16(d, id.next)
    case None => None
    case Some(numMeshes) =>
    match ParseBitU16(d, numMeshes.next)
    case None => None
    case Some(startingMesh) =>
    match ParseBitU32(d, startingMesh.next)
    case None => None
    case Some(treeIndex) =>
    if treeIndex.value % 4 != 0 then None else
    match ParseBitU32(d, treeIndex.next)
    case None => None
    case Some(frameOffset) =>
    match ParseBitU16(d, frameOffset.next)
    case None => None
    case Some(animation) =>
    Some(Parsed(Moveable(object_id := id.value, num_meshes := numMeshes.value, starting_mesh := startingMesh.value, mesh_tree_index := treeIndex.value / 4, frame_offset := frameOffset.value, animation_index := animation.value), animation.next))
  }

  /** Reading the fields in order decodes exactly the 18-byte layout. */
  lemma MoveableLayout(d: seq<byte>, p: nat)
    ensures MoveableFields(d, p) == ParseMoveable(d, p)
  {}

  method ReadMoveable(src: Cursor) returns (r: Result<Moveable>)
    requires src.Valid()
    modifies src
    ensures src.Valid() && Matches(r, ParseMoveable(src.data, old(src.pos)), src.pos)
    ensures old(src.pos) + 12 <= |src.data| && U32At(src.data, old(src.pos) + 8) % 4 != 0 ==>
      r == Failure(ReadError(MeshTreeIndexError))
  {
    MoveableLayout(src.data, src.pos);
    var id :- ReadBitU32(src);
    var numMeshes :- ReadBitU16(src);
    var startingMesh :- ReadBitU16(src);
    var treeIndex :- ReadBitU32(src);
    if treeIndex % 4 != 0 {
      return Failure(ReadError(MeshTreeIndexError));
    }
    var frameOffset :- ReadBitU32(src);
    var animation :- ReadBitU16(src);
    return Success(Moveable(object_id := id, num_meshes := numMeshes, starting_mesh := startingMesh, mesh_tree_index := treeIndex / 4, frame_offset := frameOffset, animation_index := animation));
  }

  /** The stored index, times 4, is the byte offset in the file. */
  lemma MoveableTreeIndex(d: seq<byte>, p: nat)
    requires ParseMoveable(d, p).Some?
    ensures p + 18 <= |d| && ParseMoveable(d, p).value.value.mesh_tree_index * 4 == U32At(d, p + 8)
  {}

  /** An item's bitu16 intensity stored into a bit16 field and rescaled
      when that is not negative. */
  function ItemIntensity(raw: int): (r: int)
    requires 0 <= raw < 0x1_0000
    ensures raw >= 0x8000 ==> r == raw - 0x1_0000
    ensures raw <= 8191 ==> r == Rescale(raw) && Unscale(r) == raw
  {
    RescaleIfSet(ToBit16(raw))
  }

  /** read_tr_item: the rotation is converted to degrees and intensity2 is a copy of intensity1. */
  function ItemAt(d: seq<byte>, p: nat): Item
    requires p + 22 <= |d|
  {
    Item(S16At(d, p), S16At(d, p + 2), Vertex32At(d, p + 4), Degrees(U16At(d, p + 16)), ItemIntensity(U16At(d, p + 18)), ItemIntensity(U16At(d, p + 18)), U16At(d, p + 20))
  }

  function ParseItem(d: seq<byte>, p: nat): Option<Parsed<Item>> {
    if p + 22 <= |d| then Some(Parsed(ItemAt(d, p), p + 22)) else None
  }

  /** The fields of the record decoded one after the other, in the order the reader reads them. */
  function ItemFields(d: seq<byte>, p: nat): Option<Parsed<Item>> {
    match ParseBit16(d, p)
    case None => None
    case Some(id) =>
    match ParseBit16(d, id.next)
    case None => None
    case Some(room) =>
    match ParseVertex32(d, room.next)
    case None => None
    case Some(pos) =>
    match ParseBitU16(d, pos.next)
    case None => None
    case Some(rotation) =>
    match ParseBitU16(d, rotation.next)
    case None => None
    case Some(intensity) =>
    match ParseBitU16(d, intensity.next)
    case None => None
    case Some(flags) =>
    Some(Parsed(Item(id.value, room.value, pos.value, Degrees(rotation.value), ItemIntensity(intensity.value), ItemIntensity(intensity.value), flags.value), flags.next))
  }

  /** Reading the fields in order decodes exactly the 22-byte layout. */
  lemma ItemLayout(d: seq<byte>, p: nat)
    ensures ItemFields(d, p) == ParseItem(d, p)
  {}

  method ReadItem(src: Cursor) returns (r: Result<Item>)
    requires src.Valid()
    modifies src
    ensures src.Valid() && Matches(r, ParseItem(src.data, old(src.pos)), src.pos)
  {
    ItemLayout(src.data, src.pos);
    var id :- ReadBit16(src);
    var room :- ReadBit16(src);
    var pos :- ReadVertex32(src);
    var rotation :- ReadBitU16(src);
    var intensity :- ReadBitU16(src);
    var flags :- ReadBitU16(src);
    return Success(Item(id, room, pos, Degrees(rotation), ItemIntensity(intensity), ItemIntensity(intensity), flags));
  }

  /** A bounding box of tr_staticmesh_t: two corners stored interleaved per axis, y and z negated. */
  function BoxAt(d: seq<byte>, p: nat): seq<Vertex>
    requires p + 12 <= |d|
  {
    [Vertex(FromInt(S16At(d, p)), FromInt(-S16At(d, p + 4)), FromInt(-S16At(d, p + 8))), Vertex(FromInt(S16At(d, p + 2)), FromInt(-S16At(d, p + 6)), FromInt(-S16At(d, p + 10)))]
  }

  function ParseBox(d: seq<byte>, p: nat): Option<Parsed<seq<Vertex>>> {
    if p + 12 <= |d| then Some(Parsed(BoxAt(d, p), p + 12)) else None
  }

  /** The fields of the record decoded one after the other, in the order the reader reads them. */
  function BoxFields(d: seq<byte>, p: nat): Option<Parsed<seq<Vertex>>> {
    match ParseBit16(d, p)
    case None => None
    case Some(x0) =>
    match ParseBit16(d, x0.next)
    case None => None
    case Some(x1) =>
    match ParseBit16(d, x1.next)
    case None => None
    case Some(y0) =>
    match ParseBit16(d, y0.next)
    case None => None
    case Some(y1) =>
    match ParseBit16(d, y1.next)
    case None => None
    case Some(z0) =>
    match ParseBit16(d, z0.next)
    case None => None
    case Some(z1) =>
    Some(Parsed([Vertex(FromInt(x0.value), FromInt(-y0.value), FromInt(-z0.value)), Vertex(FromInt(x1.value), FromInt(-y1.value), FromInt(-z1.value))], z1.next))
  }

  /** Reading the fields in order decodes exactly the 12-byte layout. */
  lemma BoxLayout(d: seq<byte>, p: nat)
    ensures BoxFields(d, p) == ParseBox(d, p)
  {}

  method ReadBox(src: Cursor) returns (r: Result<seq<Vertex>>)
    requires src.Valid()
    modifies src
    ensures src.Valid() && Matches(r, ParseBox(src.data, old(src.pos)), src.pos)
  {
    BoxLayout(src.data, src.pos);
    var x0 :- ReadBit16(src);
    var x1 :- ReadBit16(src);
    var y0 :- ReadBit16(src);
    var y1 :- ReadBit16(src);
    var z0 :- ReadBit16(src);
    var z1 :- ReadBit16(src);
    return Success([Vertex(FromInt(x0), FromInt(-y0), FromInt(-z0)), Vertex(FromInt(x1), FromInt(-y1), FromInt(-z1))]);
  }

  /** read_tr_staticmesh: object id, mesh, visibility box, collision box, flags. */
  function StaticMeshAt(d: seq<byte>, p: nat): StaticMesh
    requires p + 32 <= |d|
  {
    StaticMesh(U32At(d, p), U16At(d, p + 4), BoxAt(d, p + 6), BoxAt(d, p + 18), U16At(d, p + 30))
  }

  function ParseStaticMesh(d: seq<byte>, p: nat): Option<Parsed<StaticMesh>> {
    if p + 32 <= |d| then Some(Parsed(StaticMeshAt(d, p), p + 32)) else None
  }

  /** The fields of the record decoded one after the other, in the order the reader reads them. */
  function StaticMeshFields(d: seq<byte>, p: nat): Option<Parsed<StaticMesh>> {
    match ParseBitU32(d, p)
    case None => None
    case Some(id) =>
    match ParseBitU16(d, id.next)
    case None => None
    case Some(mesh) =>
    match ParseBox(d, mesh.next)
    case None => None
    case Some(visibility) =>
    match ParseBox(d, visibility.next)
    case None => None
    case Some(collision) =>
    match ParseBitU16(d, collision.next)
    case None => None
    case Some(flags) =>
    Some(Parsed(StaticMesh(id.value, mesh.value, visibility.value, collision.value, flags.value), flags.next))
  }

  /** Reading the fields in order decodes exactly the 32-byte layout. */
  lemma StaticMeshLayout(d: seq<byte>, p: nat)
    ensures StaticMeshFields(d, p) == ParseStaticMesh(d, p)
  {}

  method ReadStaticMesh(src: Cursor) returns (r: Result<StaticMesh>)
    requires src.Valid()
    modifies src
    ensures src.Valid() && Matches(r, ParseStaticMesh(src.data, old(src.pos)), src.pos)
  {
    StaticMeshLayout(src.data, src.pos);
    var id :- ReadBitU32(src);
    var mesh :- ReadBitU16(src);
    var visibility :- ReadBox(src);
    var collision :- ReadBox(src);
    var flags :- ReadBitU16(src);
    return Success(StaticMesh(id, mesh, visibility, collision, flags));
  }

  // ---------------------------------------------------------------------
  // Rooms

  /** The header of a room: its position, the bottom and top of its
      bounding heights, and the number of 16-bit data words of its geometry
      block. */
  datatype RoomInfo = RoomInfo(x: int, z: int, y_bottom: int, y_top: int, num_data_words: int)

  /** The first 20 bytes of read_tr_room. */
  function RoomInfoAt(d: seq<byte>, p: nat): RoomInfo
    requires p + 20 <= |d|
  {
    RoomInfo(S32At(d, p), S32At(d, p + 4), S32At(d, p + 8), S32At(d, p + 12), U32At(d, p + 16))
  }

  function ParseRoomInfo(d: seq<byte>, p: nat): Option<Parsed<RoomInfo>> {
    if p + 20 <= |d| then Some(Parsed(RoomInfoAt(d, p), p + 20)) else None
  }

  /** The fields of the record decoded one after the other, in the order the reader reads them. */
  function RoomInfoFields(d: seq<byte>, p: nat): Option<Parsed<RoomInfo>> {
    match ParseBit32(d, p)
    case None => None
    case Some(x) =>
    match ParseBit32(d, x.next)
    case None => None
    case Some(z) =>
    match ParseBit32(d, z.next)
    case None => None
    case Some(yb) =>
    match ParseBit32(d, yb.next)
    case None => None
    case Some(yt) =>
    match ParseBitU32(d, yt.next)
    case None => None
    case Some(words) =>
    Some(Parsed(RoomInfo(x.value, z.value, yb.value, yt.value, words.value), words.next))
  }

  /** Reading the fields in order decodes exactly the 20-byte layout. */
  lemma RoomInfoLayout(d: seq<byte>, p: nat)
    ensures RoomInfoFields(d, p) == ParseRoomInfo(d, p)
  {}

  method ReadRoomInfo(src: Cursor) returns (r: Result<RoomInfo>)
    requires src.Valid()
    modifies src
    ensures src.Valid() && Matches(r, ParseRoomInfo(src.data, old(src.pos)), src.pos)
  {
    RoomInfoLayout(src.data, src.pos);
    var x :- ReadBit32(src);
    var z :- ReadBit32(src);
    var yb :- ReadBit32(src);
    var yt :- ReadBit32(src);
    var words :- ReadBitU32(src);
    return Success(RoomInfo(x, z, yb, yt, words));
  }

  /** read_tr_room: the header, the vertex/face/sprite block that the room's
      count of data words delimits, then the portals and sectors, then the
      lighting, static meshes, alternate room and flags. The portals are read
      at the start of the data words plus twice their count, whatever the
      block before consumed. */
  function ParseRoom(d: seq<byte>, p: nat): Option<Parsed<Room>> {
    match ParseRoomInfo(d, p)
    case None => None
    case Some(info) =>
    match ParseRoomGeometry(d, info.next, RoomFromInfo(info.value))
    case None => None
    case Some(geometry) =>
    match ParseRoomSectors(d, Clamp(SeekTarget(info.next, 2 * info.value.num_data_words), |d|), geometry.value)
    case None => None
    case Some(sectors) =>
    ParseRoomLighting(d, sectors.next, sectors.value)
  }

  /** The room a decoded header starts: offset and heights converted into
      the engine's axes (y up the other way), no layers. */
  function RoomFromInfo(info: RoomInfo): (room: Room)
    ensures room.num_layers == 0 && room.vertices == [] && room.portals == []
  {
    Room(offset := Vertex(FromInt(info.x), Zero, FromInt(ToBit32(-info.z))),
         y_bottom := FromInt(ToBit32(-info.y_bottom)), y_top := FromInt(ToBit32(-info.y_top)),
         num_layers := 0)
  }

  /** The block the data words delimit: the vertices after their bitu16
      count, then the faces and sprites. */
  function ParseRoomGeometry(d: seq<byte>, p: nat, room: Room): Option<Parsed<Room>> {
    match ParseBitU16(d, p)
    case None => None
    case Some(nv) =>
    match ParseMany(d, nv.next, nv.value, ParseRoomVertex)
    case None => None
    case Some(vs) =>
    ParseRoomFaces(d, vs.next, room.(num_vertices := nv.value, vertices := vs.value))
  }

  /** Rectangles, triangles and sprites, each after its bitu16 count; every
      engine generation up to TR4 stores them alike. */
  function ParseRoomFaces(d: seq<byte>, p: nat, room: Room): Option<Parsed<Room>> {
    match ParseBitU16(d, p)
    case None => None
    case Some(nr) =>
    match ParseMany(d, nr.next, nr.value, ParseFace4)
    case None => None
    case Some(rs) =>
    match ParseBitU16(d, rs.next)
    case None => None
    case Some(nt) =>
    match ParseMany(d, nt.next, nt.value, ParseFace3)
    case None => None
    case Some(ts) =>
    match ParseBitU16(d, ts.next)
    case None => None
    case Some(ns) =>
    match ParseMany(d, ns.next, ns.value, ParseRoomSprite)
    case None => None
    case Some(ss) =>
    Some(Parsed(room.(num_rectangles := nr.value, rectangles := rs.value,
                      num_triangles := nt.value, triangles := ts.value,
                      num_sprites := ns.value, sprites := ss.value), ss.next))
  }

  /** The number of sectors of a grid of nz by nx sectors, counted row by
      row. Both counts are bitu16, so the product stays below 2^32. The
      reader multiplies them as C++ `int`, which overflows above 2^31 - 1;
      the model takes the exact product, which is what the `(bitu32)` cast
      gives back on a two's-complement host that wraps. */
  function GridSize(nz: nat, nx: nat): nat
    decreases nz
  {
    if nz == 0 then 0 else nx + GridSize(nz - 1, nx)
  }

  lemma {:induction false} GridSizeIsProduct(nz: nat, nx: nat)
    ensures GridSize(nz, nx) == nz * nx
    decreases nz
  {
    if nz > 0 {
      GridSizeIsProduct(nz - 1, nx);
    }
  }

  /** The portals, then the sector grid of num_zsectors * num_xsectors
      sectors. */
  function ParseRoomSectors(d: seq<byte>, p: nat, room: Room): Option<Parsed<Room>> {
    match ParseBitU16(d, p)
    case None => None
    case Some(np) =>
    match ParseMany(d, np.next, np.value, ParsePortal)
    case None => None
    case Some(ps) =>
    match ParseBitU16(d, ps.next)
    case None => None
    case Some(nz) =>
    match ParseBitU16(d, nz.next)
    case None => None
    case Some(nx) =>
    match ParseMany(d, nx.next, GridSize(nz.value, nx.value), ParseSector)
    case None => None
    case Some(sec) =>
    Some(Parsed(room.(num_portals := np.value, portals := ps.value,
                      num_zsectors := nz.value, num_xsectors := nx.value, sector_list := sec.value), sec.next))
  }

  /** The rescaled ambient intensity (copied to intensity2, light mode 0),
      the lights, the static meshes, the alternate room and the flags; the
      light colour is the grey of the intensity. */
  function ParseRoomLighting(d: seq<byte>, p: nat, room: Room): Option<Parsed<Room>> {
    match ParseBit16(d, p)
    case None => None
    case Some(amb) =>
    match ParseBitU16(d, amb.next)
    case None => None
    case Some(nl) =>
    match ParseMany(d, nl.next, nl.value, ParseLight)
    case None => None
    case Some(ls) =>
    match ParseBitU16(d, ls.next)
    case None => None
    case Some(nm) =>
    match ParseMany(d, nm.next, nm.value, ParseRoomStaticMesh)
    case None => None
    case Some(ms) =>
    match ParseBit16(d, ms.next)
    case None => None
    case Some(alt) =>
    match ParseBitU16(d, alt.next)
    case None => None
    case Some(fl) =>
    var intensity := RescaleS16(amb.value);
    Some(Parsed(room.(intensity1 := intensity, intensity2 := intensity, light_mode := 0,
                      num_lights := nl.value, lights := ls.value,
                      num_static_meshes := nm.value, static_meshes := ms.value,
                      alternate_room := alt.value, flags := fl.value,
                      light_colour := Grey(intensity)), fl.next))
  }

  method ReadRoom(src: Cursor) returns (r: Result<Room>)
    requires src.Valid()
    modifies src
    ensures src.Valid() && Matches(r, ParseRoom(src.data, old(src.pos)), src.pos)
  {
    var info :- ReadRoomInfo(src);
    var start := src.Tell();
    var room :- ReadRoomGeometry(src, RoomFromInfo(info));
    src.Seek(SeekTarget(start, 2 * info.num_data_words));
    room :- ReadRoomSectors(src, room);
    r := ReadRoomLighting(src, room);
  }

  method ReadRoomGeometry(src: Cursor, room: Room) returns (r: Result<Room>)
    requires src.Valid()
    modifies src
    ensures src.Valid() && Matches(r, ParseRoomGeometry(src.data, old(src.pos), room), src.pos)
  {
    var nv :- ReadBitU16(src);
    var vs :- ReadRoomVertices(src, nv);
    r := ReadRoomFaces(src, room.(num_vertices := nv, vertices := vs));
  }

  method ReadRoomFaces(src: Cursor, room: Room) returns (r: Result<Room>)
    requires src.Valid()
    modifies src
    ensures src.Valid() && Matches(r, ParseRoomFaces(src.data, old(src.pos), room), src.pos)
  {
    var nr :- ReadBitU16(src);
    var rs :- ReadFace4s(src, nr);
    var nt :- ReadBitU16(src);
    var ts :- ReadFace3s(src, nt);
    var ns :- ReadBitU16(src);
    var ss :- ReadRoomSprites(src, ns);
    return Success(room.(num_rectangles := nr, rectangles := rs, num_triangles := nt, triangles := ts,
                         num_sprites := ns, sprites := ss));
  }

  method ReadRoomSectors(src: Cursor, room: Room) returns (r: Result<Room>)
    requires src.Valid()
    modifies src
    ensures src.Valid() && Matches(r, ParseRoomSectors(src.data, old(src.pos), room), src.pos)
  {
    var np :- ReadBitU16(src);
    var ps :- ReadPortals(src, np);
    var nz :- ReadBitU16(src);
    var nx :- ReadBitU16(src);
    var sec :- ReadSectors(src, GridSize(nz, nx));
    return Success(room.(num_portals := np, portals := ps, num_zsectors := nz, num_xsectors := nx,
                         sector_list := sec));
  }

  method ReadRoomLighting(src: Cursor, room: Room) returns (r: Result<Room>)
    requires src.Valid()
    modifies src
    ensures src.Valid() && Matches(r, ParseRoomLighting(src.data, old(src.pos), room), src.pos)
  {
    var amb :- ReadBit16(src);
    var nl :- ReadBitU16(src);
    var ls :- ReadLights(src, nl);
    var nm :- ReadBitU16(src);
    var ms :- ReadRoomStaticMeshes(src, nm);
    var alt :- ReadBit16(src);
    var fl :- ReadBitU16(src);
    var intensity := RescaleS16(amb);
    return Success(room.(intensity1 := intensity, intensity2 := intensity, light_mode := 0,
                         num_lights := nl, lights := ls, num_static_meshes := nm, static_meshes := ms,
                         alternate_room := alt, flags := fl, light_colour := Grey(intensity)));
  }

  /** Every list of a decoded room has the length its count declares; the
      sector grid has num_zsectors * num_xsectors entries. */
  lemma {:induction false} RoomCountsMatch(d: seq<byte>, p: nat)
    requires ParseRoom(d, p).Some?
    ensures var room := ParseRoom(d, p).value.value;
      |room.vertices| == room.num_vertices && |room.rectangles| == room.num_rectangles &&
      |room.triangles| == room.num_triangles && |room.sprites| == room.num_sprites &&
      |room.portals| == room.num_portals && |room.sector_list| == room.num_zsectors * room.num_xsectors &&
      |room.lights| == room.num_lights && |room.static_meshes| == room.num_static_meshes &&
      room.intensity2 == room.intensity1 && room.light_mode == 0 && room.num_layers == 0
  {
    var room := ParseRoom(d, p).value.value;
    GridSizeIsProduct(room.num_zsectors, room.num_xsectors);
  }

  /** Where the portals of a room are read: at the start of the data words
      plus twice their count, whatever the vertex block consumed. */
  lemma RoomSkipsToDataEnd(d: seq<byte>, p: nat)
    requires p + 20 <= |d|
    requires ParseRoom(d, p).Some?
    requires p + 20 + 2 * U32At(d, p + 16) < 0x8000_0000
    ensures var q := Clamp(p + 20 + 2 * U32At(d, p + 16), |d|);
      q + 2 <= |d| && ParseRoom(d, p).value.value.num_portals == U16At(d, q)
  {}

  // ---------------------------------------------------------------------
  // Counted lists

  /** The vertices of a room. */
  method ReadRoomVertices(src: Cursor, n: nat) returns (r: Result<seq<RoomVertex>>)
    requires src.Valid()
    modifies src
    ensures src.Valid() && Matches(r, ParseMany(src.data, old(src.pos), n, ParseRoomVertex), src.pos)
  {
    ghost var p0 := src.pos;
    var acc: seq<RoomVertex> := [];
    var i := 0;
    ParseManyStart(src.data, p0, n, ParseRoomVertex);
    while i < n
      invariant src.Valid() && i <= n && Remaining(src.data, p0, n, ParseRoomVertex, acc, src.pos, i)
    {
      ghost var q := src.pos;
      var x := ReadRoomVertex(src);
      if x.Failure? {
        ParseManyFails(src.data, p0, n, i, acc, q, ParseRoomVertex);
        return Failure(x.error);
      }
      ParseManyStep(src.data, p0, n, i, acc, q, ParseRoomVertex, Parsed(x.value, src.pos));
      acc := acc + [x.value];
      i := i + 1;
    }
    ParseManyDone(src.data, p0, n, acc, src.pos, ParseRoomVertex);
    return Success(acc);
  }

  /** Rectangles. */
  method ReadFace4s(src: Cursor, n: nat) returns (r: Result<seq<Face4>>)
    requires src.Valid()
    modifies src
    ensures src.Valid() && Matches(r, ParseMany(src.data, old(src.pos), n, ParseFace4), src.pos)
  {
    ghost var p0 := src.pos;
    var acc: seq<Face4> := [];
    var i := 0;
    ParseManyStart(src.data, p0, n, ParseFace4);
    while i < n
      invariant src.Valid() && i <= n && Remaining(src.data, p0, n, ParseFace4, acc, src.pos, i)
    {
      ghost var q := src.pos;
      var x := ReadFace4(src);
      if x.Failure? {
        ParseManyFails(src.data, p0, n, i, acc, q, ParseFace4);
        return Failure(x.error);
      }
      ParseManyStep(src.data, p0, n, i, acc, q, ParseFace4, Parsed(x.value, src.pos));
      acc := acc + [x.value];
      i := i + 1;
    }
    ParseManyDone(src.data, p0, n, acc, src.pos, ParseFace4);
    return Success(acc);
  }

  /** Triangles. */
  method ReadFace3s(src: Cursor, n: nat) returns (r: Result<seq<Face3>>)
    requires src.Valid()
    modifies src
    ensures src.Valid() && Matches(r, ParseMany(src.data, old(src.pos), n, ParseFace3), src.pos)
  {
    ghost var p0 := src.pos;
    var acc: seq<Face3> := [];
    var i := 0;
    ParseManyStart(src.data, p0, n, ParseFace3);
    while i < n
      invariant src.Valid() && i <= n && Remaining(src.data, p0, n, ParseFace3, acc, src.pos, i)
    {
      ghost var q := src.pos;
      var x := ReadFace3(src);
      if x.Failure? {
        ParseManyFails(src.data, p0, n, i, acc, q, ParseFace3);
        return Failure(x.error);
      }
      ParseManyStep(src.data, p0, n, i, acc, q, ParseFace3, Parsed(x.value, src.pos));
      acc := acc + [x.value];
      i := i + 1;
    }
    ParseManyDone(src.data, p0, n, acc, src.pos, ParseFace3);
    return Success(acc);
  }

  /** The sprites of a room. */
  method ReadRoomSprites(src: Cursor, n: nat) returns (r: Result<seq<RoomSprite>>)
    requires src.Valid()
    modifies src
    ensures src.Valid() && Matches(r, ParseMany(src.data, old(src.pos), n, ParseRoomSprite), src.pos)
  {
    ghost var p0 := src.pos;
    var acc: seq<RoomSprite> := [];
    var i := 0;
    ParseManyStart(src.data, p0, n, ParseRoomSprite);
    while i < n
      invariant src.Valid() && i <= n && Remaining(src.data, p0, n, ParseRoomSprite, acc, src.pos, i)
    {
      ghost var q := src.pos;
      var x := ReadRoomSprite(src);
      if x.Failure? {
        ParseManyFails(src.data, p0, n, i, acc, q, ParseRoomSprite);
        return Failure(x.error);
      }
      ParseManyStep(src.data, p0, n, i, acc, q, ParseRoomSprite, Parsed(x.value, src.pos));
      acc := acc + [x.value];
      i := i + 1;
    }
    ParseManyDone(src.data, p0, n, acc, src.pos, ParseRoomSprite);
    return Success(acc);
  }

  /** The portals of a room. */
  method ReadPortals(src: Cursor, n: nat) returns (r: Result<seq<Portal>>)
    requires src.Valid()
    modifies src
    ensures src.Valid() && Matches(r, ParseMany(src.data, old(src.pos), n, ParsePortal), src.pos)
  {
    ghost var p0 := src.pos;
    var acc: seq<Portal> := [];
    var i := 0;
    ParseManyStart(src.data, p0, n, ParsePortal);
    while i < n
      invariant src.Valid() && i <= n && Remaining(src.data, p0, n, ParsePortal, acc, src.pos, i)
    {
      ghost var q := src.pos;
      var x := ReadPortal(src);
      if x.Failure? {
        ParseManyFails(src.data, p0, n, i, acc, q, ParsePortal);
        return Failure(x.error);
      }
      ParseManyStep(src.data, p0, n, i, acc, q, ParsePortal, Parsed(x.value, src.pos));
      acc := acc + [x.value];
      i := i + 1;
    }
    ParseManyDone(src.data, p0, n, acc, src.pos, ParsePortal);
    return Success(acc);
  }

  /** The sector grid of a room. */
  method ReadSectors(src: Cursor, n: nat) returns (r: Result<seq<Sector>>)
    requires src.Valid()
    modifies src
    ensures src.Valid() && Matches(r, ParseMany(src.data, old(src.pos), n, ParseSector), src.pos)
  {
    ghost var p0 := src.pos;
    var acc: seq<Sector> := [];
    var i := 0;
    ParseManyStart(src.data, p0, n, ParseSector);
    while i < n
      invariant src.Valid() && i <= n && Remaining(src.data, p0, n, ParseSector, acc, src.pos, i)
    {
      ghost var q := src.pos;
      var x := ReadSector(src);
      if x.Failure? {
        ParseManyFails(src.data, p0, n, i, acc, q, ParseSector);
        return Failure(x.error);
      }
      ParseManyStep(src.data, p0, n, i, acc, q, ParseSector, Parsed(x.value, src.pos));
      acc := acc + [x.value];
      i := i + 1;
    }
    ParseManyDone(src.data, p0, n, acc, src.pos, ParseSector);
    return Success(acc);
  }

  /** The lights of a room. */
  method ReadLights(src: Cursor, n: nat) returns (r: Result<seq<Light>>)
    requires src.Valid()
    modifies src
    ensures src.Valid() && Matches(r, ParseMany(src.data, old(src.pos), n, ParseLight), src.pos)
  {
    ghost var p0 := src.pos;
    var acc: seq<Light> := [];
    var i := 0;
    ParseManyStart(src.data, p0, n, ParseLight);
    while i < n
      invariant src.Valid() && i <= n && Remaining(src.data, p0, n, ParseLight, acc, src.pos, i)
    {
      ghost var q := src.pos;
      var x := ReadLight(src);
      if x.Failure? {
        ParseManyFails(src.data, p0, n, i, acc, q, ParseLight);
        return Failure(x.error);
      }
      ParseManyStep(src.data, p0, n, i, acc, q, ParseLight, Parsed(x.value, src.pos));
      acc := acc + [x.value];
      i := i + 1;
    }
    ParseManyDone(src.data, p0, n, acc, src.pos, ParseLight);
    return Success(acc);
  }

  /** The static meshes placed in a room. */
  method ReadRoomStaticMeshes(src: Cursor, n: nat) returns (r: Result<seq<RoomStaticMesh>>)
    requires src.Valid()
    modifies src
    ensures src.Valid() && Matches(r, ParseMany(src.data, old(src.pos), n, ParseRoomStaticMesh), src.pos)
  {
    ghost var p0 := src.pos;
    var acc: seq<RoomStaticMesh> := [];
    var i := 0;
    ParseManyStart(src.data, p0, n, ParseRoomStaticMesh);
    while i < n
      invariant src.Valid() && i <= n && Remaining(src.data, p0, n, ParseRoomStaticMesh, acc, src.pos, i)
    {
      ghost var q := src.pos;
      var x := ReadRoomStaticMesh(src);
      if x.Failure? {
        ParseManyFails(src.data, p0, n, i, acc, q, ParseRoomStaticMesh);
        return Failure(x.error);
      }
      ParseManyStep(src.data, p0, n, i, acc, q, ParseRoomStaticMesh, Parsed(x.value, src.pos));
      acc := acc + [x.value];
      i := i + 1;
    }
    ParseManyDone(src.data, p0, n, acc, src.pos, ParseRoomStaticMesh);
    return Success(acc);
  }

  /** Mesh vertices or normals. */
  method ReadVertices16(src: Cursor, n: nat) returns (r: Result<seq<Vertex>>)
    requires src.Valid()
    modifies src
    ensures src.Valid() && Matches(r, ParseMany(src.data, old(src.pos), n, ParseVertex16), src.pos)
  {
    ghost var p0 := src.pos;
    var acc: seq<Vertex> := [];
    var i := 0;
    ParseManyStart(src.data, p0, n, ParseVertex16);
    while i < n
      invariant src.Valid() && i <= n && Remaining(src.data, p0, n, ParseVertex16, acc, src.pos, i)
    {
      ghost var q := src.pos;
      var x := ReadVertex16(src);
      if x.Failure? {
        ParseManyFails(src.data, p0, n, i, acc, q, ParseVertex16);
        return Failure(x.error);
      }
      ParseManyStep(src.data, p0, n, i, acc, q, ParseVertex16, Parsed(x.value, src.pos));
      acc := acc + [x.value];
      i := i + 1;
    }
    ParseManyDone(src.data, p0, n, acc, src.pos, ParseVertex16);
    return Success(acc);
  }

  /** Mesh light values. */
  method ReadLightValues(src: Cursor, n: nat) returns (r: Result<seq<int>>)
    requires src.Valid()
    modifies src
    ensures src.Valid() && Matches(r, ParseMany(src.data, old(src.pos), n, ParseBit16), src.pos)
  {
    ghost var p0 := src.pos;
    var acc: seq<int> := [];
    var i := 0;
    ParseManyStart(src.data, p0, n, ParseBit16);
    while i < n
      invariant src.Valid() && i <= n && Remaining(src.data, p0, n, ParseBit16, acc, src.pos, i)
    {
      ghost var q := src.pos;
      var x := ReadBit16(src);
      if x.Failure? {
        ParseManyFails(src.data, p0, n, i, acc, q, ParseBit16);
        return Failure(x.error);
      }
      ParseManyStep(src.data, p0, n, i, acc, q, ParseBit16, Parsed(x.value, src.pos));
      acc := acc + [x.value];
      i := i + 1;
    }
    ParseManyDone(src.data, p0, n, acc, src.pos, ParseBit16);
    return Success(acc);
  }

  /** The rotations of a frame. */
  method ReadLegacyRotations(src: Cursor, n: nat) returns (r: Result<seq<Vertex>>)
    requires src.Valid()
    modifies src
    ensures src.Valid() && Matches(r, ParseMany(src.data, old(src.pos), n, ParseLegacyRotation), src.pos)
  {
    ghost var p0 := src.pos;
    var acc: seq<Vertex> := [];
    var i := 0;
    ParseManyStart(src.data, p0, n, ParseLegacyRotation);
    while i < n
      invariant src.Valid() && i <= n && Remaining(src.data, p0, n, ParseLegacyRotation, acc, src.pos, i)
    {
      ghost var q := src.pos;
      var x := ReadLegacyRotation(src);
      if x.Failure? {
        ParseManyFails(src.data, p0, n, i, acc, q, ParseLegacyRotation);
        return Failure(x.error);
      }
      ParseManyStep(src.data, p0, n, i, acc, q, ParseLegacyRotation, Parsed(x.value, src.pos));
      acc := acc + [x.value];
      i := i + 1;
    }
    ParseManyDone(src.data, p0, n, acc, src.pos, ParseLegacyRotation);
    return Success(acc);
  }

  /** The 8-bit textiles. */
  method ReadTextiles8(src: Cursor, n: nat) returns (r: Result<seq<Textile>>)
    requires src.Valid()
    modifies src
    ensures src.Valid() && Matches(r, ParseMany(src.data, old(src.pos), n, ParseTextile8), src.pos)
  {
    ghost var p0 := src.pos;
    var acc: seq<Textile> := [];
    var i := 0;
    ParseManyStart(src.data, p0, n, ParseTextile8);
    while i < n
      invariant src.Valid() && i <= n && Remaining(src.data, p0, n, ParseTextile8, acc, src.pos, i)
    {
      ghost var q := src.pos;
      var x := ReadTextile8(src);
      if x.Failure? {
        ParseManyFails(src.data, p0, n, i, acc, q, ParseTextile8);
        return Failure(x.error);
      }
      ParseManyStep(src.data, p0, n, i, acc, q, ParseTextile8, Parsed(x.value, src.pos));
      acc := acc + [x.value];
      i := i + 1;
    }
    ParseManyDone(src.data, p0, n, acc, src.pos, ParseTextile8);
    return Success(acc);
  }

  /** The rooms of a level. */
  method ReadRooms(src: Cursor, n: nat) returns (r: Result<seq<Room>>)
    requires src.Valid()
    modifies src
    ensures src.Valid() && Matches(r, ParseMany(src.data, old(src.pos), n, ParseRoom), src.pos)
  {
    ghost var p0 := src.pos;
    var acc: seq<Room> := [];
    var i := 0;
    ParseManyStart(src.data, p0, n, ParseRoom);
    while i < n
      invariant src.Valid() && i <= n && Remaining(src.data, p0, n, ParseRoom, acc, src.pos, i)
    {
      ghost var q := src.pos;
      var x := ReadRoom(src);
      if x.Failure? {
        ParseManyFails(src.data, p0, n, i, acc, q, ParseRoom);
        return Failure(x.error);
      }
      ParseManyStep(src.data, p0, n, i, acc, q, ParseRoom, Parsed(x.value, src.pos));
      acc := acc + [x.value];
      i := i + 1;
    }
    ParseManyDone(src.data, p0, n, acc, src.pos, ParseRoom);
    return Success(acc);
  }

  /** The animations of a level. */
  method ReadAnimations(src: Cursor, n: nat) returns (r: Result<seq<Animation>>)
    requires src.Valid()
    modifies src
    ensures src.Valid() && Matches(r, ParseMany(src.data, old(src.pos), n, ParseAnimation), src.pos)
  {
    ghost var p0 := src.pos;
    var acc: seq<Animation> := [];
    var i := 0;
    ParseManyStart(src.data, p0, n, ParseAnimation);
    while i < n
      invariant src.Valid() && i <= n && Remaining(src.data, p0, n, ParseAnimation, acc, src.pos, i)
    {
      ghost var q := src.pos;
      var x := ReadAnimation(src);
      if x.Failure? {
        ParseManyFails(src.data, p0, n, i, acc, q, ParseAnimation);
        return Failure(x.error);
      }
      ParseManyStep(src.data, p0, n, i, acc, q, ParseAnimation, Parsed(x.value, src.pos));
      acc := acc + [x.value];
      i := i + 1;
    }
    ParseManyDone(src.data, p0, n, acc, src.pos, ParseAnimation);
    return Success(acc);
  }

  /** The mesh trees of a level. */
  method ReadMeshTrees(src: Cursor, n: nat) returns (r: Result<seq<MeshTree>>)
    requires src.Valid()
    modifies src
    ensures src.Valid() && Matches(r, ParseMany(src.data, old(src.pos), n, ParseMeshTree), src.pos)
  {
    ghost var p0 := src.pos;
    var acc: seq<MeshTree> := [];
    var i := 0;
    ParseManyStart(src.data, p0, n, ParseMeshTree);
    while i < n
      invariant src.Valid() && i <= n && Remaining(src.data, p0, n, ParseMeshTree, acc, src.pos, i)
    {
      ghost var q := src.pos;
      var x := ReadMeshTree(src);
      if x.Failure? {
        ParseManyFails(src.data, p0, n, i, acc, q, ParseMeshTree);
        return Failure(x.error);
      }
      ParseManyStep(src.data, p0, n, i, acc, q, ParseMeshTree, Parsed(x.value, src.pos));
      acc := acc + [x.value];
      i := i + 1;
    }
    ParseManyDone(src.data, p0, n, acc, src.pos, ParseMeshTree);
    return Success(acc);
  }

  /** The moveables of a level. */
  method ReadMoveables(src: Cursor, n: nat) returns (r: Result<seq<Moveable>>)
    requires src.Valid()
    modifies src
    ensures src.Valid() && Matches(r, ParseMany(src.data, old(src.pos), n, ParseMoveable), src.pos)
  {
    ghost var p0 := src.pos;
    var acc: seq<Moveable> := [];
    var i := 0;
    ParseManyStart(src.data, p0, n, ParseMoveable);
    while i < n
      invariant src.Valid() && i <= n && Remaining(src.data, p0, n, ParseMoveable, acc, src.pos, i)
    {
      ghost var q := src.pos;
      var x := ReadMoveable(src);
      if x.Failure? {
        ParseManyFails(src.data, p0, n, i, acc, q, ParseMoveable);
        return Failure(x.error);
      }
      ParseManyStep(src.data, p0, n, i, acc, q, ParseMoveable, Parsed(x.value, src.pos));
      acc := acc + [x.value];
      i := i + 1;
    }
    ParseManyDone(src.data, p0, n, acc, src.pos, ParseMoveable);
    return Success(acc);
  }

  /** The static meshes of a level. */
  method ReadStaticMeshes(src: Cursor, n: nat) returns (r: Result<seq<StaticMesh>>)
    requires src.Valid()
    modifies src
    ensures src.Valid() && Matches(r, ParseMany(src.data, old(src.pos), n, ParseStaticMesh), src.pos)
  {
    ghost var p0 := src.pos;
    var acc: seq<StaticMesh> := [];
    var i := 0;
    ParseManyStart(src.data, p0, n, ParseStaticMesh);
    while i < n
      invariant src.Valid() && i <= n && Remaining(src.data, p0, n, ParseStaticMesh, acc, src.pos, i)
    {
      ghost var q := src.pos;
      var x := ReadStaticMesh(src);
      if x.Failure? {
        ParseManyFails(src.data, p0, n, i, acc, q, ParseStaticMesh);
        return Failure(x.error);
      }
      ParseManyStep(src.data, p0, n, i, acc, q, ParseStaticMesh, Parsed(x.value, src.pos));
      acc := acc + [x.value];
      i := i + 1;
    }
    ParseManyDone(src.data, p0, n, acc, src.pos, ParseStaticMesh);
    return Success(acc);
  }

  /** The object textures of a level. */
  method ReadObjectTextures(src: Cursor, n: nat) returns (r: Result<seq<ObjectTexture>>)
    requires src.Valid()
    modifies src
    ensures src.Valid() && Matches(r, ParseMany(src.data, old(src.pos), n, ParseObjectTexture), src.pos)
  {
    ghost var p0 := src.pos;
    var acc: seq<ObjectTexture> := [];
    var i := 0;
    ParseManyStart(src.data, p0, n, ParseObjectTexture);
    while i < n
      invariant src.Valid() && i <= n && Remaining(src.data, p0, n, ParseObjectTexture, acc, src.pos, i)
    {
      ghost var q := src.pos;
      var x := ReadObjectTexture(src);
      if x.Failure? {
        ParseManyFails(src.data, p0, n, i, acc, q, ParseObjectTexture);
        return Failure(x.error);
      }
      ParseManyStep(src.data, p0, n, i, acc, q, ParseObjectTexture, Parsed(x.value, src.pos));
      acc := acc + [x.value];
      i := i + 1;
    }
    ParseManyDone(src.data, p0, n, acc, src.pos, ParseObjectTexture);
    return Success(acc);
  }

  /** The sprite textures of a level. */
  method ReadSpriteTextures(src: Cursor, n: nat) returns (r: Result<seq<SpriteTexture>>)
    requires src.Valid()
    modifies src
    ensures src.Valid() && Matches(r, ParseMany(src.data, old(src.pos), n, ParseSpriteTexture), src.pos)
  {
    ghost var p0 := src.pos;
    var acc: seq<SpriteTexture> := [];
    var i := 0;
    ParseManyStart(src.data, p0, n, ParseSpriteTexture);
    while i < n
      invariant src.Valid() && i <= n && Remaining(src.data, p0, n, ParseSpriteTexture, acc, src.pos, i)
    {
      ghost var q := src.pos;
      var x := ReadSpriteTexture(src);
      if x.Failure? {
        ParseManyFails(src.data, p0, n, i, acc, q, ParseSpriteTexture);
        return Failure(x.error);
      }
      ParseManyStep(src.data, p0, n, i, acc, q, ParseSpriteTexture, Parsed(x.value, src.pos));
      acc := acc + [x.value];
      i := i + 1;
    }
    ParseManyDone(src.data, p0, n, acc, src.pos, ParseSpriteTexture);
    return Success(acc);
  }

  /** The sprite sequences of a level. */
  method ReadSpriteSequences(src: Cursor, n: nat) returns (r: Result<seq<SpriteSequence>>)
    requires src.Valid()
    modifies src
    ensures src.Valid() && Matches(r, ParseMany(src.data, old(src.pos), n, ParseSpriteSequence), src.pos)
  {
    ghost var p0 := src.pos;
    var acc: seq<SpriteSequence> := [];
    var i := 0;
    ParseManyStart(src.data, p0, n, ParseSpriteSequence);
    while i < n
      invariant src.Valid() && i <= n && Remaining(src.data, p0, n, ParseSpriteSequence, acc, src.pos, i)
    {
      ghost var q := src.pos;
      var x := ReadSpriteSequence(src);
      if x.Failure? {
        ParseManyFails(src.data, p0, n, i, acc, q, ParseSpriteSequence);
        return Failure(x.error);
      }
      ParseManyStep(src.data, p0, n, i, acc, q, ParseSpriteSequence, Parsed(x.value, src.pos));
      acc := acc + [x.value];
      i := i + 1;
    }
    ParseManyDone(src.data, p0, n, acc, src.pos, ParseSpriteSequence);
    return Success(acc);
  }

  /** The items of a level. */
  method ReadItems(src: Cursor, n: nat) returns (r: Result<seq<Item>>)
    requires src.Valid()
    modifies src
    ensures src.Valid() && Matches(r, ParseMany(src.data, old(src.pos), n, ParseItem), src.pos)
  {
    ghost var p0 := src.pos;
    var acc: seq<Item> := [];
    var i := 0;
    ParseManyStart(src.data, p0, n, ParseItem);
    while i < n
      invariant src.Valid() && i <= n && Remaining(src.data, p0, n, ParseItem, acc, src.pos, i)
    {
      ghost var q := src.pos;
      var x := ReadItem(src);
      if x.Failure? {
        ParseManyFails(src.data, p0, n, i, acc, q, ParseItem);
        return Failure(x.error);
      }
      ParseManyStep(src.data, p0, n, i, acc, q, ParseItem, Parsed(x.value, src.pos));
      acc := acc + [x.value];
      i := i + 1;
    }
    ParseManyDone(src.data, p0, n, acc, src.pos, ParseItem);
    return Success(acc);
  }
}
