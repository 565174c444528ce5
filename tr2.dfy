/** The record decoders that the second engine generation (l_tr2.cpp) adds:
    four-channel colours, 16-bit textiles, rooms whose vertex and static
    mesh lighting is rescaled per field, the packed single-axis rotations and
    items with two independent intensities. */
module Tr2 {
  import opened Wrappers
  import opened Common
  import opened Types
  import Tr1

  // ---------------------------------------------------------------------
  // Colours and textiles

  /** read_tr2_colour4: four 6-bit channels, each shifted into 8 bits and stored into bitu8. */
  function Colour4At(d: seq<byte>, p: nat): Colour
    requires p + 4 <= |d|
  {
    Colour(Wrap8(U8At(d, p) * 4), Wrap8(U8At(d, p + 1) * 4), Wrap8(U8At(d, p + 2) * 4), Wrap8(U8At(d, p + 3) * 4))
  }

  function ParseColour4(d: seq<byte>, p: nat): Option<Parsed<Colour>> {
    if p + 4 <= |d| then Some(Parsed(Colour4At(d, p), p + 4)) else None
  }

  /** The fields of the record decoded one after the other, in the order the reader reads them. */
  function Colour4Fields(d: seq<byte>, p: nat): Option<Parsed<Colour>> {
    match ParseBitU8(d, p)
    case None => None
    case Some(red) =>
    match ParseBitU8(d, red.next)
    case None => None
    case Some(green) =>
    match ParseBitU8(d, green.next)
    case None => None
    case Some(blue) =>
    match ParseBitU8(d, blue.next)
    case None => None
    case Some(alpha) =>
    Some(Parsed(Colour(Wrap8(red.value * 4), Wrap8(green.value * 4), Wrap8(blue.value * 4), Wrap8(alpha.value * 4)), alpha.next))
  }

  /** Reading the fields in order decodes exactly the 4-byte layout. */
  lemma Colour4Layout(d: seq<byte>, p: nat)
    ensures Colour4Fields(d, p) == ParseColour4(d, p)
  {}

  method ReadColour4(src: Cursor) returns (r: Result<Colour>)
    requires src.Valid()
    modifies src
    ensures src.Valid() && Matches(r, ParseColour4(src.data, old(src.pos)), src.pos)
  {
    Colour4Layout(src.data, src.pos);
    var red :- ReadBitU8(src);
    var green :- ReadBitU8(src);
    var blue :- ReadBitU8(src);
    var alpha :- ReadBitU8(src);
    return Success(Colour(Wrap8(red * 4), Wrap8(green * 4), Wrap8(blue * 4), Wrap8(alpha * 4)));
  }

  /** A channel above 63 loses its two top bits: the shift is truncated to 8 bits. */
  lemma {:induction false} Colour4Truncates(d: seq<byte>, p: nat)
    requires p + 4 <= |d|
    ensures Colour4At(d, p).r == (d[p] % 64) * 4 && Colour4At(d, p).a == (d[p + 3] % 64) * 4
  {
    var x: int := d[p];
    assert x * 4 == (x % 64) * 4 + (x / 64) * 256;
    var w: int := d[p + 3];
    assert w * 4 == (w % 64) * 4 + (w / 64) * 256;
  }

  /** read_tr2_palette16: 256 four-byte colours. */
  function Palette16At(d: seq<byte>, p: nat): (pal: seq<Colour>)
    requires p + 1024 <= |d|
    ensures |pal| == 256 && forall k | 0 <= k < 256 :: pal[k] == Colour4At(d, p + 4 * k)
  {
    seq(256, k requires 0 <= k < 256 => Colour4At(d, p + 4 * k))
  }

  function ParsePalette16(d: seq<byte>, p: nat): Option<Parsed<seq<Colour>>> {
    if p + 1024 <= |d| then Some(Parsed(Palette16At(d, p), p + 1024)) else None
  }

  method ReadPalette16(src: Cursor) returns (r: Result<seq<Colour>>)
    requires src.Valid()
    modifies src
    ensures src.Valid() && Matches(r, ParsePalette16(src.data, old(src.pos)), src.pos)
  {
    ghost var p0 := src.pos;
    var palette: seq<Colour> := [];
    var i := 0;
    while i < 256
      invariant src.Valid() && i <= 256 && src.pos == p0 + 4 * i
      invariant palette == seq(i, k requires 0 <= k < i => Colour4At(src.data, p0 + 4 * k))
    {
      var c :- ReadColour4(src);
      palette := palette + [c];
      i := i + 1;
    }
    return Success(palette);
  }

  /** One row of a 16-bit textile: 256 little-endian words. */
  function Row16At(d: seq<byte>, p: nat): (row: seq<int>)
    requires p + 512 <= |d|
    ensures |row| == 256 && forall x | 0 <= x < 256 :: row[x] == U16At(d, p + 2 * x)
  {
    seq(256, x requires 0 <= x < 256 => U16At(d, p + 2 * x))
  }

  /** read_tr2_textile16: 256 rows of 256 bitu16 pixels. */
  function Textile16At(d: seq<byte>, p: nat): (t: Textile)
    requires p + 0x2_0000 <= |d|
    ensures IsTextile(t, 0x1_0000)
    ensures forall y, x | 0 <= y < 256 && 0 <= x < 256 :: t[y][x] == U16At(d, p + 512 * y + 2 * x)
  {
    seq(256, y requires 0 <= y < 256 => Row16At(d, p + 512 * y))
  }

  function ParseTextile16(d: seq<byte>, p: nat): Option<Parsed<Textile>> {
    if p + 0x2_0000 <= |d| then Some(Parsed(Textile16At(d, p), p + 0x2_0000)) else None
  }

  /** The byte swap of one row read raw: on a little-endian host SDL_SwapLE16
      keeps each word, so the row is the words of its bytes. */
  method SwapRow16(bytes: seq<byte>) returns (row: seq<int>)
    requires |bytes| == 512
    ensures row == Row16At(bytes, 0)
  {
    row := [];
    var j := 0;
    while j < 256
      invariant j <= 256 && |row| == j
      invariant forall x | 0 <= x < j :: row[x] == U16At(bytes, 2 * x)
    {
      row := row + [U16At(bytes, 2 * j)];
      j := j + 1;
    }
  }

  /** A row decoded from a copy of its bytes is the row at their position. */
  lemma {:induction false} Row16OfSlice(d: seq<byte>, q: nat)
    requires q + 512 <= |d|
    ensures Row16At(d[q..q + 512], 0) == Row16At(d, q)
  {
    var a := Row16At(d[q..q + 512], 0);
    var b := Row16At(d, q);
    forall x | 0 <= x < 256
      ensures a[x] == b[x]
    {
      assert d[q..q + 512][2 * x] == d[q + 2 * x];
      assert d[q..q + 512][2 * x + 1] == d[q + 2 * x + 1];
    }
  }

  const Textile16Error := "read_tr2_textile16"

  method ReadTextile16(src: Cursor) returns (r: Result<Textile>)
    requires src.Valid()
    modifies src
    ensures src.Valid() && Matches(r, ParseTextile16(src.data, old(src.pos)), src.pos)
    ensures r.Failure? ==> r.error == ReadError(Textile16Error)
  {
    ghost var p0 := src.pos;
    var rows: seq<seq<int>> := [];
    var i := 0;
    while i < 256
      invariant src.Valid() && i <= 256 && src.pos == p0 + 512 * i
      invariant |rows| == i
      invariant forall y | 0 <= y < i :: rows[y] == Row16At(src.data, p0 + 512 * y)
    {
      var bytes := src.ReadBytes(512);
      if bytes.None? {
        return Failure(ReadError(Textile16Error));
      }
      var row := SwapRow16(bytes.value);
      Row16OfSlice(src.data, p0 + 512 * i);
      rows := rows + [row];
      i := i + 1;
    }
    assert rows == Textile16At(src.data, p0);
    return Success(rows);
  }

  // ---------------------------------------------------------------------
  // Room records

  /** read_tr2_room_light: position, two bitu16 intensities and two fades, all kept as read. */
  function LightAt(d: seq<byte>, p: nat): Light
    requires p + 24 <= |d|
  {
    Light(pos := Tr1.Vertex32At(d, p), intensity1 := U16At(d, p + 12), intensity2 := U16At(d, p + 14), fade1 := U32At(d, p + 16), fade2 := U32At(d, p + 20))
  }

  function ParseLight(d: seq<byte>, p: nat): Option<Parsed<Light>> {
    if p + 24 <= |d| then Some(Parsed(LightAt(d, p), p + 24)) else None
  }

  /** The fields of the record decoded one after the other, in the order the reader reads them. */
  function LightFields(d: seq<byte>, p: nat): Option<Parsed<Light>> {
    match Tr1.ParseVertex32(d, p)
    case None => None
    case Some(pos) =>
    match ParseBitU16(d, pos.next)
    case None => None
    case Some(i1) =>
    match ParseBitU16(d, i1.next)
    case None => None
    case Some(i2) =>
    match ParseBitU32(d, i2.next)
    case None => None
    case Some(f1) =>
    match ParseBitU32(d, f1.next)
    case None => None
    case Some(f2) =>
    Some(Parsed(Light(pos := pos.value, intensity1 := i1.value, intensity2 := i2.value, fade1 := f1.value, fade2 := f2.value), f2.next))
  }

  /** Reading the fields in order decodes exactly the 24-byte layout. */
  lemma LightLayout(d: seq<byte>, p: nat)
    ensures LightFields(d, p) == ParseLight(d, p)
  {}

  method ReadLight(src: Cursor) returns (r: Result<Light>)
    requires src.Valid()
    modifies src
    ensures src.Valid() && Matches(r, ParseLight(src.data, old(src.pos)), src.pos)
  {
    LightLayout(src.data, src.pos);
    var pos :- Tr1.ReadVertex32(src);
    var i1 :- ReadBitU16(src);
    var i2 :- ReadBitU16(src);
    var f1 :- ReadBitU32(src);
    var f2 :- ReadBitU32(src);
    return Success(Light(pos := pos, intensity1 := i1, intensity2 := i2, fade1 := f1, fade2 := f2));
  }

  /** The colour of a room vertex: its lighting over `scale` in the three
      channels, alpha 255. */
  function Shade(lighting: int, scale: int): (c: FColour)
    ensures c.r == c.g == c.b == Quotient(lighting, scale) && c.a == FromInt(255)
  {
    FColour(Quotient(lighting, scale), Quotient(lighting, scale), Quotient(lighting, scale), FromInt(255))
  }

  /** read_tr2_room_vertex: position, both lightings rescaled into bit16 each from its own word, attributes, no normal; the colour is lighting1 over 32767. */
  function RoomVertexAt(d: seq<byte>, p: nat): RoomVertex
    requires p + 12 <= |d|
  {
    RoomVertex(vertex := Tr1.Vertex16At(d, p), lighting1 := Tr1.RescaleS16(S16At(d, p + 6)), attributes := U16At(d, p + 8), lighting2 := Tr1.RescaleS16(S16At(d, p + 10)), normal := Vertex(), colour := Shade(Tr1.RescaleS16(S16At(d, p + 6)), 32767))
  }

  function ParseRoomVertex(d: seq<byte>, p: nat): Option<Parsed<RoomVertex>> {
    if p + 12 <= |d| then Some(Parsed(RoomVertexAt(d, p), p + 12)) else None
  }

  /** The fields of the record decoded one after the other, in the order the reader reads them. */
  function RoomVertexFields(d: seq<byte>, p: nat): Option<Parsed<RoomVertex>> {
    match Tr1.ParseVertex16(d, p)
    case None => None
    case Some(vertex) =>
    match ParseBit16(d, vertex.next)
    case None => None
    case Some(l1) =>
    match ParseBitU16(d, l1.next)
    case None => None
    case Some(attributes) =>
    match ParseBit16(d, attributes.next)
    case None => None
    case Some(l2) =>
    Some(Parsed(RoomVertex(vertex := vertex.value, lighting1 := Tr1.RescaleS16(l1.value), attributes := attributes.value, lighting2 := Tr1.RescaleS16(l2.value), normal := Vertex(), colour := Shade(Tr1.RescaleS16(l1.value), 32767)), l2.next))
  }

  /** Reading the fields in order decodes exactly the 12-byte layout. */
  lemma RoomVertexLayout(d: seq<byte>, p: nat)
    ensures RoomVertexFields(d, p) == ParseRoomVertex(d, p)
  {}

  method ReadRoomVertex(src: Cursor) returns (r: Result<RoomVertex>)
    requires src.Valid()
    modifies src
    ensures src.Valid() && Matches(r, ParseRoomVertex(src.data, old(src.pos)), src.pos)
  {
    RoomVertexLayout(src.data, src.pos);
    var vertex :- Tr1.ReadVertex16(src);
    var l1 :- ReadBit16(src);
    var attributes :- ReadBitU16(src);
    var l2 :- ReadBit16(src);
    return Success(RoomVertex(vertex := vertex, lighting1 := Tr1.RescaleS16(l1), attributes := attributes, lighting2 := Tr1.RescaleS16(l2), normal := Vertex(), colour := Shade(Tr1.RescaleS16(l1), 32767)));
  }

  /** read_tr2_room_staticmesh: position, rotation in degrees, two bit16 intensities each rescaled when not negative, object id. */
  function RoomStaticMeshAt(d: seq<byte>, p: nat): RoomStaticMesh
    requires p + 20 <= |d|
  {
    RoomStaticMesh(Tr1.Vertex32At(d, p), Degrees(U16At(d, p + 12)), Tr1.RescaleIfSet(S16At(d, p + 14)), Tr1.RescaleIfSet(S16At(d, p + 16)), U16At(d, p + 18))
  }

  function ParseRoomStaticMesh(d: seq<byte>, p: nat): Option<Parsed<RoomStaticMesh>> {
    if p + 20 <= |d| then Some(Parsed(RoomStaticMeshAt(d, p), p + 20)) else None
  }

  /** The fields of the record decoded one after the other, in the order the reader reads them. */
  function RoomStaticMeshFields(d: seq<byte>, p: nat): Option<Parsed<RoomStaticMesh>> {
    match Tr1.ParseVertex32(d, p)
    case None => None
    case Some(pos) =>
    match ParseBitU16(d, pos.next)
    case None => None
    case Some(rotation) =>
    match ParseBit16(d, rotation.next)
    case None => None
    case Some(i1) =>
    match ParseBit16(d, i1.next)
    case None => None
    case Some(i2) =>
    match ParseBitU16(d, i2.next)
    case None => None
    case Some(id) =>
    Some(Parsed(RoomStaticMesh(pos.value, Degrees(rotation.value), Tr1.RescaleIfSet(i1.value), Tr1.RescaleIfSet(i2.value), id.value), id.next))
  }

  /** Reading the fields in order decodes exactly the 20-byte layout. */
  lemma RoomStaticMeshLayout(d: seq<byte>, p: nat)
    ensures RoomStaticMeshFields(d, p) == ParseRoomStaticMesh(d, p)
  {}

  method ReadRoomStaticMesh(src: Cursor) returns (r: Result<RoomStaticMesh>)
    requires src.Valid()
    modifies src
    ensures src.Valid() && Matches(r, ParseRoomStaticMesh(src.data, old(src.pos)), src.pos)
  {
    RoomStaticMeshLayout(src.data, src.pos);
    var pos :- Tr1.ReadVertex32(src);
    var rotation :- ReadBitU16(src);
    var i1 :- ReadBit16(src);
    var i2 :- ReadBit16(src);
    var id :- ReadBitU16(src);
    return Success(RoomStaticMesh(pos, Degrees(rotation), Tr1.RescaleIfSet(i1), Tr1.RescaleIfSet(i2), id));
  }

  /** The two intensities are converted independently: a negative one
      stays negative while the other is rescaled. */
  lemma RoomStaticMeshIntensities(d: seq<byte>, p: nat)
    requires p + 20 <= |d|
    ensures var m := RoomStaticMeshAt(d, p);
      (S16At(d, p + 14) < 0 ==> m.intensity1 == S16At(d, p + 14)) &&
      (0 <= S16At(d, p + 14) <= 8191 ==> Tr1.Unscale(m.intensity1) == S16At(d, p + 14)) &&
      (S16At(d, p + 16) < 0 ==> m.intensity2 == S16At(d, p + 16)) &&
      (0 <= S16At(d, p + 16) <= 8191 ==> Tr1.Unscale(m.intensity2) == S16At(d, p + 16))
  {}

  /** read_tr2_room: as read_tr_room, with the TR2 vertices, lights and
      static meshes and the TR2 lighting block. */
  function ParseRoom(d: seq<byte>, p: nat): Option<Parsed<Room>> {
    match Tr1.ParseRoomInfo(d, p)
    case None => None
    case Some(info) =>
    match ParseRoomGeometry(d, info.next, Tr1.RoomFromInfo(info.value))
    case None => None
    case Some(geometry) =>
    match Tr1.ParseRoomSectors(d, Clamp(SeekTarget(info.next, 2 * info.value.num_data_words), |d|), geometry.value)
    case None => None
    case Some(sectors) =>
    ParseRoomLighting(d, sectors.next, sectors.value)
  }

  /** The TR2 vertices, then the faces and sprites as in TR1. */
  function ParseRoomGeometry(d: seq<byte>, p: nat, room: Room): Option<Parsed<Room>> {
    match ParseBitU16(d, p)
    case None => None
    case Some(nv) =>
    match ParseMany(d, nv.next, nv.value, ParseRoomVertex)
    case None => None
    case Some(vs) =>
    Tr1.ParseRoomFaces(d, vs.next, room.(num_vertices := nv.value, vertices := vs.value))
  }

  /** Two ambient intensities, each rescaled into bit16, the light mode as
      read, the lights, the static meshes, the alternate room and the flags;
      the light colour is the grey of the first intensity. */
  function ParseRoomLighting(d: seq<byte>, p: nat, room: Room): Option<Parsed<Room>> {
    match ParseBit16(d, p)
    case None => None
    case Some(a1) =>
    match ParseBit16(d, a1.next)
    case None => None
    case Some(a2) =>
    match ParseBit16(d, a2.next)
    case None => None
    case Some(mode) =>
    match ParseBitU16(d, mode.next)
    case None => None
    case Some(nl) =>
    match ParseMany(d, nl.next, nl.value, ParseLight)
    case None => None
    case Some(ls) =>
    match ParseBitU16(d, ls.next)
    case None => None
    case Some(nm) =>
    match ParseMany(d, nm.next, nm.value, ParseRoomStaticMesh)
    case None => None
    case Some(ms) =>
    match ParseBit16(d, ms.next)
    case None => None
    case Some(alt) =>
    match ParseBitU16(d, alt.next)
    case None => None
    case Some(fl) =>
    Some(Parsed(room.(intensity1 := Tr1.RescaleS16(a1.value), intensity2 := Tr1.RescaleS16(a2.value), light_mode := mode.value,
                      num_lights := nl.value, lights := ls.value,
                      num_static_meshes := nm.value, static_meshes := ms.value,
                      alternate_room := alt.value, flags := fl.value,
                      light_colour := Tr1.Grey(Tr1.RescaleS16(a1.value))), fl.next))
  }

  method ReadRoom(src: Cursor) returns (r: Result<Room>)
    requires src.Valid()
    modifies src
    ensures src.Valid() && Matches(r, ParseRoom(src.data, old(src.pos)), src.pos)
  {
    var info :- Tr1.ReadRoomInfo(src);
    var start := src.Tell();
    var room :- ReadRoomGeometry(src, Tr1.RoomFromInfo(info));
    src.Seek(SeekTarget(start, 2 * info.num_data_words));
    room :- Tr1.ReadRoomSectors(src, room);
    r := ReadRoomLighting(src, room);
  }

  method ReadRoomGeometry(src: Cursor, room: Room) returns (r: Result<Room>)
    requires src.Valid()
    modifies src
    ensures src.Valid() && Matches(r, ParseRoomGeometry(src.data, old(src.pos), room), src.pos)
  {
    var nv :- ReadBitU16(src);
    var vs :- ReadRoomVertices(src, nv);
    r := Tr1.ReadRoomFaces(src, room.(num_vertices := nv, vertices := vs));
  }

  method ReadRoomLighting(src: Cursor, room: Room) returns (r: Result<Room>)
    requires src.Valid()
    modifies src
    ensures src.Valid() && Matches(r, ParseRoomLighting(src.data, old(src.pos), room), src.pos)
  {
    var a1 :- ReadBit16(src);
    var a2 :- ReadBit16(src);
    var mode :- ReadBit16(src);
    var nl :- ReadBitU16(src);
    var ls :- ReadLights(src, nl);
    var nm :- ReadBitU16(src);
    var ms :- ReadRoomStaticMeshes(src, nm);
    var alt :- ReadBit16(src);
    var fl :- ReadBitU16(src);
    return Success(room.(intensity1 := Tr1.RescaleS16(a1), intensity2 := Tr1.RescaleS16(a2), light_mode := mode,
                         num_lights := nl, lights := ls, num_static_meshes := nm, static_meshes := ms,
                         alternate_room := alt, flags := fl, light_colour := Tr1.Grey(Tr1.RescaleS16(a1))));
  }

  /** The light mode of a TR2 room is the word the file holds after the two
      intensities, and the two intensities are rescaled from their own words. */
  lemma {:induction false} RoomLightingReadsMode(d: seq<byte>, p: nat, room: Room)
    requires p + 6 <= |d|
    requires ParseRoomLighting(d, p, room).Some?
    ensures var r := ParseRoomLighting(d, p, room).value.value;
      r.light_mode == S16At(d, p + 4) &&
      r.intensity1 == Tr1.RescaleS16(S16At(d, p)) && r.intensity2 == Tr1.RescaleS16(S16At(d, p + 2)) &&
      |r.lights| == r.num_lights && |r.static_meshes| == r.num_static_meshes
  {
    assert ParseBit16(d, p) == Some(Parsed(S16At(d, p), p + 2));
    assert ParseBit16(d, p + 2) == Some(Parsed(S16At(d, p + 2), p + 4));
    assert ParseBit16(d, p + 4) == Some(Parsed(S16At(d, p + 4), p + 6));
  }

  // ---------------------------------------------------------------------
  // Frames

  /** One rotation of read_tr2_frame, from its first word w and, when the two
      top bits of w are clear, the second word w2: top bits 01, 10 and 11
      give a rotation about x, y or z alone by the low 10 bits; 00 the three
      angles of the TR1 packing. */
  function Rotation2(w: int): (kind: int)
    requires 0 <= w < 0x1_0000
    ensures 0 <= kind < 4
  {
    w / 0x4000
  }

  function SingleAxis(w: int): (v: Vertex)
    requires 0 <= w < 0x1_0000 && Rotation2(w) != 0
  {
    var angle := FromInt(w % 0x400);
    if Rotation2(w) == 1 then Vertex(angle, FromInt(0), FromInt(0))
    else if Rotation2(w) == 2 then Vertex(FromInt(0), angle, FromInt(0))
    else Vertex(FromInt(0), FromInt(0), angle)
  }

  /** A rotation takes one word when it is about a single axis and two
      otherwise. */
  function ParseRotation(d: seq<byte>, p: nat): (r: Option<Parsed<Vertex>>)
    ensures r.Some? ==> r.value.next == p + 2 || r.value.next == p + 4
  {
    if p + 2 > |d| then None
    else
      var w := U16At(d, p);
      if Rotation2(w) != 0 then Some(Parsed(SingleAxis(w), p + 2))
      else if p + 4 > |d| then None
      else Some(Parsed(Tr1.RotationVertex(w, U16At(d, p + 2)), p + 4))
  }

  method ReadRotation(src: Cursor) returns (r: Result<Vertex>)
    requires src.Valid()
    modifies src
    ensures src.Valid() && Matches(r, ParseRotation(src.data, old(src.pos)), src.pos)
  {
    var w :- ReadBitU16(src);
    if w / 0x4000 != 0 {
      return Success(SingleAxis(w));
    }
    var w2 :- ReadBitU16(src);
    return Success(Tr1.RotationVertex(w, w2));
  }

  /** The one-word encoding of a rotation by `angle` about axis 1 (x), 2 (y)
      or 3 (z). */
  function EncodeSingleAxis(axis: int, angle: int): (b: seq<byte>)
    requires 1 <= axis <= 3 && 0 <= angle < 0x400
    ensures |b| == 2
  {
    var w := axis * 0x4000 + angle;
    [w % 0x100, w / 0x100]
  }

  /** Every single-axis rotation is decoded back from its word, consuming
      only that word, with the other two angles 0. */
  lemma {:induction false} SingleAxisRoundTrip(axis: int, angle: int, rest: seq<byte>)
    requires 1 <= axis <= 3 && 0 <= angle < 0x400
    ensures var a := FromInt(angle); var z := FromInt(0);
      ParseRotation(EncodeSingleAxis(axis, angle) + rest, 0) ==
        Some(Parsed(if axis == 1 then Vertex(a, z, z) else if axis == 2 then Vertex(z, a, z) else Vertex(z, z, a), 2))
  {
    var d := EncodeSingleAxis(axis, angle) + rest;
    var w := axis * 0x4000 + angle;
    assert U16At(d, 0) == w;
    assert w / 0x4000 == axis && w % 0x400 == angle;
  }

  /** With the top bits clear the rotation takes two words and agrees with
      the TR1 decoding of the same words read in the TR2 order. */
  lemma {:induction false} ThreeAxisRotation(d: seq<byte>, p: nat)
    requires p + 4 <= |d| && U16At(d, p) < 0x4000
    ensures ParseRotation(d, p) == Some(Parsed(Tr1.RotationVertex(U16At(d, p), U16At(d, p + 2)), p + 4))
  {}

  lemma SingleAxisExample()
    ensures ParseRotation([0xAB, 0x41], 0) == Some(Parsed(Vertex(FromInt(427), FromInt(0), FromInt(0)), 2))
  {
    assert U16At([0xAB, 0x41], 0) == 0x41AB;
  }

  /** read_tr2_frame: bounding box and offset, then exactly `numRotations`
      rotations; the rotation count is not stored in the file. */
  function ParseFrame(d: seq<byte>, p: nat, numRotations: nat): (r: Option<Parsed<Frame>>)
    ensures r.Some? ==> |r.value.value.rotations| == numRotations && r.value.value.byte_offset == 0
  {
    match Tr1.ParseVertex16(d, p)
    case None => None
    case Some(lo) =>
    match Tr1.ParseVertex16(d, lo.next)
    case None => None
    case Some(hi) =>
    match Tr1.ParseVertex16(d, hi.next)
    case None => None
    case Some(off) =>
    match ParseMany(d, off.next, numRotations, ParseRotation)
    case None => None
    case Some(rots) =>
    Some(Parsed(Frame(lo.value, hi.value, off.value, rots.value, 0), rots.next))
  }

  method ReadFrame(src: Cursor, numRotations: nat) returns (r: Result<Frame>)
    requires src.Valid()
    modifies src
    ensures src.Valid() && Matches(r, ParseFrame(src.data, old(src.pos), numRotations), src.pos)
  {
    var lo :- Tr1.ReadVertex16(src);
    var hi :- Tr1.ReadVertex16(src);
    var off :- Tr1.ReadVertex16(src);
    var rots :- ReadRotations(src, numRotations);
    return Success(Frame(lo, hi, off, rots, 0));
  }

  // ---------------------------------------------------------------------
  // Items

  /** read_tr2_item: the rotation in degrees and two independent intensities, each stored into bit16 and rescaled when not negative. */
  function ItemAt(d: seq<byte>, p: nat): Item
    requires p + 24 <= |d|
  {
    Item(S16At(d, p), S16At(d, p + 2), Tr1.Vertex32At(d, p + 4), Degrees(U16At(d, p + 16)), Tr1.ItemIntensity(U16At(d, p + 18)), Tr1.ItemIntensity(U16At(d, p + 20)), U16At(d, p + 22))
  }

  function ParseItem(d: seq<byte>, p: nat): Option<Parsed<Item>> {
    if p + 24 <= |d| then Some(Parsed(ItemAt(d, p), p + 24)) else None
  }

  /** The fields of the record decoded one after the other, in the order the reader reads them. */
  function ItemFields(d: seq<byte>, p: nat): Option<Parsed<Item>> {
    match ParseBit16(d, p)
    case None => None
    case Some(id) =>
    match ParseBit16(d, id.next)
    case None => None
    case Some(room) =>
    match Tr1.ParseVertex32(d, room.next)
    case None => None
    case Some(pos) =>
    match ParseBitU16(d, pos.next)
    case None => None
    case Some(rotation) =>
    match ParseBitU16(d, rotation.next)
    case None => None
    case Some(i1) =>
    match ParseBitU16(d, i1.next)
    case None => None
    case Some(i2) =>
    match ParseBitU16(d, i2.next)
    case None => None
    case Some(flags) =>
    Some(Parsed(Item(id.value, room.value, pos.value, Degrees(rotation.value), Tr1.ItemIntensity(i1.value), Tr1.ItemIntensity(i2.value), flags.value), flags.next))
  }

  /** Reading the fields in order decodes exactly the 24-byte layout. */
  lemma ItemLayout(d: seq<byte>, p: nat)
    ensures ItemFields(d, p) == ParseItem(d, p)
  {}

  method ReadItem(src: Cursor) returns (r: Result<Item>)
    requires src.Valid()
    modifies src
    ensures src.Valid() && Matches(r, ParseItem(src.data, old(src.pos)), src.pos)
  {
    ItemLayout(src.data, src.pos);
    var id :- ReadBit16(src);
    var room :- ReadBit16(src);
    var pos :- Tr1.ReadVertex32(src);
    var rotation :- ReadBitU16(src);
    var i1 :- ReadBitU16(src);
    var i2 :- ReadBitU16(src);
    var flags :- ReadBitU16(src);
    return Success(Item(id, room, pos, Degrees(rotation), Tr1.ItemIntensity(i1), Tr1.ItemIntensity(i2), flags));
  }


  // ---------------------------------------------------------------------
  // Counted lists

  /** The vertices of a TR2 room. */
  method ReadRoomVertices(src: Cursor, n: nat) returns (r: Result<seq<RoomVertex>>)
    requires src.Valid()
    modifies src
    ensures src.Valid() && Matches(r, ParseMany(src.data, old(src.pos), n, ParseRoomVertex), src.pos)
  {
    ghost var p0 := src.pos;
    var acc: seq<RoomVertex> := [];
    var i := 0;
    ParseManyStart(src.data, p0, n, ParseRoomVertex);
    while i < n
      invariant src.Valid() && i <= n && Remaining(src.data, p0, n, ParseRoomVertex, acc, src.pos, i)
    {
      ghost var q := src.pos;
      var x := ReadRoomVertex(src);
      if x.Failure? {
        ParseManyFails(src.data, p0, n, i, acc, q, ParseRoomVertex);
        return Failure(x.error);
      }
      ParseManyStep(src.data, p0, n, i, acc, q, ParseRoomVertex, Parsed(x.value, src.pos));
      acc := acc + [x.value];
      i := i + 1;
    }
    ParseManyDone(src.data, p0, n, acc, src.pos, ParseRoomVertex);
    return Success(acc);
  }

  /** The lights of a TR2 or TR3 room. */
  method ReadLights(src: Cursor, n: nat) returns (r: Result<seq<Light>>)
    requires src.Valid()
    modifies src
    ensures src.Valid() && Matches(r, ParseMany(src.data, old(src.pos), n, ParseLight), src.pos)
  {
    ghost var p0 := src.pos;
    var acc: seq<Light> := [];
    var i := 0;
    ParseManyStart(src.data, p0, n, ParseLight);
    while i < n
      invariant src.Valid() && i <= n && Remaining(src.data, p0, n, ParseLight, acc, src.pos, i)
    {
      ghost var q := src.pos;
      var x := ReadLight(src);
      if x.Failure? {
        ParseManyFails(src.data, p0, n, i, acc, q, ParseLight);
        return Failure(x.error);
      }
      ParseManyStep(src.data, p0, n, i, acc, q, ParseLight, Parsed(x.value, src.pos));
      acc := acc + [x.value];
      i := i + 1;
    }
    ParseManyDone(src.data, p0, n, acc, src.pos, ParseLight);
    return Success(acc);
  }

  /** The static meshes placed in a TR2 room. */
  method ReadRoomStaticMeshes(src: Cursor, n: nat) returns (r: Result<seq<RoomStaticMesh>>)
    requires src.Valid()
    modifies src
    ensures src.Valid() && Matches(r, ParseMany(src.data, old(src.pos), n, ParseRoomStaticMesh), src.pos)
  {
    ghost var p0 := src.pos;
    var acc: seq<RoomStaticMesh> := [];
    var i := 0;
    ParseManyStart(src.data, p0, n, ParseRoomStaticMesh);
    while i < n
      invariant src.Valid() && i <= n && Remaining(src.data, p0, n, ParseRoomStaticMesh, acc, src.pos, i)
    {
      ghost var q := src.pos;
      var x := ReadRoomStaticMesh(src);
      if x.Failure? {
        ParseManyFails(src.data, p0, n, i, acc, q, ParseRoomStaticMesh);
        return Failure(x.error);
      }
      ParseManyStep(src.data, p0, n, i, acc, q, ParseRoomStaticMesh, Parsed(x.value, src.pos));
      acc := acc + [x.value];
      i := i + 1;
    }
    ParseManyDone(src.data, p0, n, acc, src.pos, ParseRoomStaticMesh);
    return Success(acc);
  }

  /** The rotations of a TR2 frame. */
  method ReadRotations(src: Cursor, n: nat) returns (r: Result<seq<Vertex>>)
    requires src.Valid()
    modifies src
    ensures src.Valid() && Matches(r, ParseMany(src.data, old(src.pos), n, ParseRotation), src.pos)
  {
    ghost var p0 := src.pos;
    var acc: seq<Vertex> := [];
    var i := 0;
    ParseManyStart(src.data, p0, n, ParseRotation);
    while i < n
      invariant src.Valid() && i <= n && Remaining(src.data, p0, n, ParseRotation, acc, src.pos, i)
    {
      ghost var q := src.pos;
      var x := ReadRotation(src);
      if x.Failure? {
        ParseManyFails(src.data, p0, n, i, acc, q, ParseRotation);
        return Failure(x.error);
      }
      ParseManyStep(src.data, p0, n, i, acc, q, ParseRotation, Parsed(x.value, src.pos));
      acc := acc + [x.value];
      i := i + 1;
    }
    ParseManyDone(src.data, p0, n, acc, src.pos, ParseRotation);
    return Success(acc);
  }

  /** The 16-bit textiles. */
  method ReadTextiles16(src: Cursor, n: nat) returns (r: Result<seq<Textile>>)
    requires src.Valid()
    modifies src
    ensures src.Valid() && Matches(r, ParseMany(src.data, old(src.pos), n, ParseTextile16), src.pos)
  {
    ghost var p0 := src.pos;
    var acc: seq<Textile> := [];
    var i := 0;
    ParseManyStart(src.data, p0, n, ParseTextile16);
    while i < n
      invariant src.Valid() && i <= n && Remaining(src.data, p0, n, ParseTextile16, acc, src.pos, i)
    {
      ghost var q := src.pos;
      var x := ReadTextile16(src);
      if x.Failure? {
        ParseManyFails(src.data, p0, n, i, acc, q, ParseTextile16);
        return Failure(x.error);
      }
      ParseManyStep(src.data, p0, n, i, acc, q, ParseTextile16, Parsed(x.value, src.pos));
      acc := acc + [x.value];
      i := i + 1;
    }
    ParseManyDone(src.data, p0, n, acc, src.pos, ParseTextile16);
    return Success(acc);
  }

  /** The rooms of a TR2 level. */
  method ReadRooms(src: Cursor, n: nat) returns (r: Result<seq<Room>>)
    requires src.Valid()
    modifies src
    ensures src.Valid() && Matches(r, ParseMany(src.data, old(src.pos), n, ParseRoom), src.pos)
  {
    ghost var p0 := src.pos;
    var acc: seq<Room> := [];
    var i := 0;
    ParseManyStart(src.data, p0, n, ParseRoom);
    while i < n
      invariant src.Valid() && i <= n && Remaining(src.data, p0, n, ParseRoom, acc, src.pos, i)
    {
      ghost var q := src.pos;
      var x := ReadRoom(src);
      if x.Failure? {
        ParseManyFails(src.data, p0, n, i, acc, q, ParseRoom);
        return Failure(x.error);
      }
      ParseManyStep(src.data, p0, n, i, acc, q, ParseRoom, Parsed(x.value, src.pos));
      acc := acc + [x.value];
      i := i + 1;
    }
    ParseManyDone(src.data, p0, n, acc, src.pos, ParseRoom);
    return Success(acc);
  }

  /** The items of a TR2 level. */
  method ReadItems(src: Cursor, n: nat) returns (r: Result<seq<Item>>)
    requires src.Valid()
    modifies src
    ensures src.Valid() && Matches(r, ParseMany(src.data, old(src.pos), n, ParseItem), src.pos)
  {
    ghost var p0 := src.pos;
    var acc: seq<Item> := [];
    var i := 0;
    ParseManyStart(src.data, p0, n, ParseItem);
    while i < n
      invariant src.Valid() && i <= n && Remaining(src.data, p0, n, ParseItem, acc, src.pos, i)
    {
      ghost var q := src.pos;
      var x := ReadItem(src);
      if x.Failure? {
        ParseManyFails(src.data, p0, n, i, acc, q, ParseItem);
        return Failure(x.error);
      }
      ParseManyStep(src.data, p0, n, i, acc, q, ParseItem, Parsed(x.value, src.pos));
      acc := acc + [x.value];
      i := i + 1;
    }
    ParseManyDone(src.data, p0, n, acc, src.pos, ParseItem);
    return Success(acc);
  }
}
