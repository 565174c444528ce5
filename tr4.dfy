/** The record decoders of the fourth engine generation (l_tr4.cpp):
    float vertices, 32-bit textiles, faces with a lighting word, coloured
    room lights, object textures with sizes and 40-byte animations. */
module Tr4 {
  import opened Wrappers
  import opened Common
  import opened Types
  import Tr1
  import Tr2
  import Tr3

  /** read_tr4_vertex_float: three floats, y and z negated into the axes of the engine. */
  function VertexFloatAt(d: seq<byte>, p: nat): Vertex
    requires p + 12 <= |d|
  {
    Vertex(F32At(d, p), NegBits(U32At(d, p + 4)), NegBits(U32At(d, p + 8)))
  }

  function ParseVertexFloat(d: seq<byte>, p: nat): Option<Parsed<Vertex>> {
    if p + 12 <= |d| then Some(Parsed(VertexFloatAt(d, p), p + 12)) else None
  }

  /** The fields of the record decoded one after the other, in the order the reader reads them. */
  function VertexFloatFields(d: seq<byte>, p: nat): Option<Parsed<Vertex>> {
    match ParseFloat(d, p)
    case None => None
    case Some(x) =>
    match ParseFloat(d, x.next)
    case None => None
    case Some(y) =>
    match ParseFloat(d, y.next)
    case None => None
    case Some(z) =>
    Some(Parsed(Vertex(x.value, NegBits(y.value.pattern), NegBits(z.value.pattern)), z.next))
  }

  /** Reading the fields in order decodes exactly the 12-byte layout. */
  lemma VertexFloatLayout(d: seq<byte>, p: nat)
    ensures VertexFloatFields(d, p) == ParseVertexFloat(d, p)
  {}

  method ReadVertexFloat(src: Cursor) returns (r: Result<Vertex>)
    requires src.Valid()
    modifies src
    ensures src.Valid() && Matches(r, ParseVertexFloat(src.data, old(src.pos)), src.pos)
  {
    VertexFloatLayout(src.data, src.pos);
    var x :- ReadFloat(src);
    var y :- ReadFloat(src);
    var z :- ReadFloat(src);
    return Success(Vertex(x, NegBits(y.pattern), NegBits(z.pattern)));
  }

  /** Negating the stored y and z again gives back the floats of the file:
      the conversion loses nothing. */
  lemma {:induction false} VertexFloatRestores(d: seq<byte>, p: nat)
    requires p + 12 <= |d|
    ensures var v := VertexFloatAt(d, p);
      v.x == F32At(d, p) && NegBits(v.y.pattern) == F32At(d, p + 4) && NegBits(v.z.pattern) == F32At(d, p + 8)
  {
    NegBitsInverts(U32At(d, p + 4));
    NegBitsInverts(U32At(d, p + 8));
  }

  lemma {:induction false} NegBitsInverts(b: nat)
    requires b < 0x1_0000_0000
    ensures NegBits(NegBits(b).pattern) == Bits(b)
  {
    if b >= 0x8000_0000 {
      assert NegBits(b).pattern == b - 0x8000_0000;
    } else {
      assert NegBits(b).pattern == b + 0x8000_0000;
    }
  }

  // ---------------------------------------------------------------------
  // 32-bit textiles

  /** The channel swap of read_tr4_textile32 on a little-endian word w:
      w & 0xff00ff00 keeps bytes 1 and 3, (w & 0x00ff0000) >> 16 moves byte 2
      to byte 0 and (w & 0x000000ff) << 16 moves byte 0 to byte 2. The three
      parts have no bit in common, so the or is their sum. */
  function SwapRedBlue(w: int): (s: int)
    requires 0 <= w < 0x1_0000_0000
    ensures 0 <= s < 0x1_0000_0000
  {
    (w / 0x100_0000) * 0x100_0000 + ((w / 0x100) % 0x100) * 0x100 + (w / 0x1_0000) % 0x100 + (w % 0x100) * 0x1_0000
  }

  /** Swapping twice restores the word. */
  lemma {:induction false} SwapRedBlueInvolution(w: int)
    requires 0 <= w < 0x1_0000_0000
    ensures SwapRedBlue(SwapRedBlue(w)) == w
  {
    var b0, b1, b2, b3 := WordBytes(w);
    SwapOfBytes(b0, b1, b2, b3);
    var once := b2 + 0x100 * b1 + 0x1_0000 * b0 + 0x100_0000 * b3;
    assert SwapRedBlue(w) == once;
    SwapOfBytes(b2, b1, b0, b3);
  }

  /** The four bytes of a 32-bit word, least significant first. */
  lemma {:induction false} WordBytes(w: int) returns (b0: int, b1: int, b2: int, b3: int)
    requires 0 <= w < 0x1_0000_0000
    ensures 0 <= b0 < 0x100 && 0 <= b1 < 0x100 && 0 <= b2 < 0x100 && 0 <= b3 < 0x100
    ensures w == b0 + 0x100 * b1 + 0x1_0000 * b2 + 0x100_0000 * b3
  {
    var q1 := w / 0x100;
    var q2 := q1 / 0x100;
    b0, b1, b2, b3 := w % 0x100, q1 % 0x100, q2 % 0x100, q2 / 0x100;
    assert w == 0x100 * q1 + b0 && q1 == 0x100 * q2 + b1 && q2 == 0x100 * b3 + b2;
  }

  /** The swap of the word of bytes b0 b1 b2 b3 read in file order is the
      word of b2 b1 b0 b3: red and blue exchange places. */
  lemma {:induction false} SwapOfBytes(b0: int, b1: int, b2: int, b3: int)
    requires 0 <= b0 < 0x100 && 0 <= b1 < 0x100 && 0 <= b2 < 0x100 && 0 <= b3 < 0x100
    ensures SwapRedBlue(b0 + 0x100 * b1 + 0x1_0000 * b2 + 0x100_0000 * b3) == b2 + 0x100 * b1 + 0x1_0000 * b0 + 0x100_0000 * b3
  {
    var w := b0 + 0x100 * b1 + 0x1_0000 * b2 + 0x100_0000 * b3;
    assert w / 0x100_0000 == b3;
    assert w / 0x1_0000 == b2 + 0x100 * b3;
    assert (w / 0x1_0000) % 0x100 == b2;
    assert w / 0x100 == b1 + 0x100 * b2 + 0x1_0000 * b3;
    assert (w / 0x100) % 0x100 == b1;
    assert w % 0x100 == b0;
  }

  /** One row of a 32-bit textile: 256 swapped words. */
  function Row32At(d: seq<byte>, p: nat): (row: seq<int>)
    requires p + 1024 <= |d|
    ensures |row| == 256 && forall x | 0 <= x < 256 :: row[x] == SwapRedBlue(U32At(d, p + 4 * x))
  {
    seq(256, x requires 0 <= x < 256 => SwapRedBlue(U32At(d, p + 4 * x)))
  }

  /** read_tr4_textile32: 256 rows of 256 pixels. */
  function Textile32At(d: seq<byte>, p: nat): (t: Textile)
    requires p + 0x4_0000 <= |d|
    ensures |t| == 256 && forall y | 0 <= y < 256 :: t[y] == Row32At(d, p + 1024 * y)
  {
    seq(256, y requires 0 <= y < 256 => Row32At(d, p + 1024 * y))
  }

  /** Each pixel holds the bytes of the file with the first and third
      exchanged. */
  lemma {:induction false} Textile32Pixel(d: seq<byte>, p: nat, y: int, x: int)
    requires p + 0x4_0000 <= |d| && 0 <= y < 256 && 0 <= x < 256
    ensures var q := p + 1024 * y + 4 * x;
      Textile32At(d, p)[y][x] == U8At(d, q + 2) + 0x100 * U8At(d, q + 1) + 0x1_0000 * U8At(d, q) + 0x100_0000 * U8At(d, q + 3)
  {
    var q := p + 1024 * y + 4 * x;
    assert Textile32At(d, p)[y][x] == SwapRedBlue(U32At(d, q));
    SwapOfBytes(d[q], d[q + 1], d[q + 2], d[q + 3]);
  }

  function ParseTextile32(d: seq<byte>, p: nat): Option<Parsed<Textile>> {
    if p + 0x4_0000 <= |d| then Some(Parsed(Textile32At(d, p), p + 0x4_0000)) else None
  }

  /** The swap of every word of a row read raw; SDL_SwapLE32 keeps a word on
      a little-endian host. */
  method SwapRow32(bytes: seq<byte>) returns (row: seq<int>)
    requires |bytes| == 1024
    ensures row == Row32At(bytes, 0)
  {
    row := [];
    var j := 0;
    while j < 256
      invariant j <= 256 && |row| == j
      invariant forall x | 0 <= x < j :: row[x] == SwapRedBlue(U32At(bytes, 4 * x))
    {
      row := row + [SwapRedBlue(U32At(bytes, 4 * j))];
      j := j + 1;
    }
  }

  lemma {:induction false} Row32OfSlice(d: seq<byte>, q: nat)
    requires q + 1024 <= |d|
    ensures Row32At(d[q..q + 1024], 0) == Row32At(d, q)
  {
    var a := Row32At(d[q..q + 1024], 0);
    var b := Row32At(d, q);
    forall x | 0 <= x < 256
      ensures a[x] == b[x]
    {
      assert U32At(d[q..q + 1024], 4 * x) == U32At(d, q + 4 * x);
    }
  }

  const Textile32Error := "read_tr4_textile32"

  method ReadTextile32(src: Cursor) returns (r: Result<Textile>)
    requires src.Valid()
    modifies src
    ensures src.Valid() && Matches(r, ParseTextile32(src.data, old(src.pos)), src.pos)
    ensures r.Failure? ==> r.error == ReadError(Textile32Error)
  {
    ghost var p0 := src.pos;
    var rows: seq<seq<int>> := [];
    var i := 0;
    while i < 256
      invariant src.Valid() && i <= 256 && src.pos == p0 + 1024 * i
      invariant |rows| == i
      invariant forall y | 0 <= y < i :: rows[y] == Row32At(src.data, p0 + 1024 * y)
    {
      var bytes := src.ReadBytes(1024);
      if bytes.None? {
        return Failure(ReadError(Textile32Error));
      }
      var row := SwapRow32(bytes.value);
      Row32OfSlice(src.data, p0 + 1024 * i);
      rows := rows + [row];
      i := i + 1;
    }
    assert rows == Textile32At(src.data, p0);
    return Success(rows);
  }

  // ---------------------------------------------------------------------
  // Faces and room records

  /** read_tr4_face3: three vertex indices, texture and lighting. */
  function Face3At(d: seq<byte>, p: nat): Face3
    requires p + 10 <= |d|
  {
    Face3([U16At(d, p), U16At(d, p + 2), U16At(d, p + 4)], U16At(d, p + 6), U16At(d, p + 8))
  }

  function ParseFace3(d: seq<byte>, p: nat): Option<Parsed<Face3>> {
    if p + 10 <= |d| then Some(Parsed(Face3At(d, p), p + 10)) else None
  }

  /** The fields of the record decoded one after the other, in the order the reader reads them. */
  function Face3Fields(d: seq<byte>, p: nat): Option<Parsed<Face3>> {
    match ParseBitU16(d, p)
    case None => None
    case Some(v0) =>
    match ParseBitU16(d, v0.next)
    case None => None
    case Some(v1) =>
    match ParseBitU16(d, v1.next)
    case None => None
    case Some(v2) =>
    match ParseBitU16(d, v2.next)
    case None => None
    case Some(texture) =>
    match ParseBitU16(d, texture.next)
    case None => None
    case Some(lighting) =>
    Some(Parsed(Face3([v0.value, v1.value, v2.value], texture.value, lighting.value), lighting.next))
  }

  /** Reading the fields in order decodes exactly the 10-byte layout. */
  lemma Face3Layout(d: seq<byte>, p: nat)
    ensures Face3Fields(d, p) == ParseFace3(d, p)
  {}

  method ReadFace3(src: Cursor) returns (r: Result<Face3>)
    requires src.Valid()
    modifies src
    ensures src.Valid() && Matches(r, ParseFace3(src.data, old(src.pos)), src.pos)
  {
    Face3Layout(src.data, src.pos);
    var v0 :- ReadBitU16(src);
    var v1 :- ReadBitU16(src);
    var v2 :- ReadBitU16(src);
    var texture :- ReadBitU16(src);
    var lighting :- ReadBitU16(src);
    return Success(Face3([v0, v1, v2], texture, lighting));
  }

  /** read_tr4_face4: four vertex indices, texture and lighting. */
  function Face4At(d: seq<byte>, p: nat): Face4
    requires p + 12 <= |d|
  {
    Face4([U16At(d, p), U16At(d, p + 2), U16At(d, p + 4), U16At(d, p + 6)], U16At(d, p + 8), U16At(d, p + 10))
  }

  function ParseFace4(d: seq<byte>, p: nat): Option<Parsed<Face4>> {
    if p + 12 <= |d| then Some(Parsed(Face4At(d, p), p + 12)) else None
  }

  /** The fields of the record decoded one after the other, in the order the reader reads them. */
  function Face4Fields(d: seq<byte>, p: nat): Option<Parsed<Face4>> {
    match ParseBitU16(d, p)
    case None => None
    case Some(v0) =>
    match ParseBitU16(d, v0.next)
    case None => None
    case Some(v1) =>
    match ParseBitU16(d, v1.next)
    case None => None
    case Some(v2) =>
    match ParseBitU16(d, v2.next)
    case None => None
    case Some(v3) =>
    match ParseBitU16(d, v3.next)
    case None => None
    case Some(texture) =>
    match ParseBitU16(d, texture.next)
    case None => None
    case Some(lighting) =>
    Some(Parsed(Face4([v0.value, v1.value, v2.value, v3.value], texture.value, lighting.value), lighting.next))
  }

  /** Reading the fields in order decodes exactly the 12-byte layout. */
  lemma Face4Layout(d: seq<byte>, p: nat)
    ensures Face4Fields(d, p) == ParseFace4(d, p)
  {}

  method ReadFace4(src: Cursor) returns (r: Result<Face4>)
    requires src.Valid()
    modifies src
    ensures src.Valid() && Matches(r, ParseFace4(src.data, old(src.pos)), src.pos)
  {
    Face4Layout(src.data, src.pos);
    var v0 :- ReadBitU16(src);
    var v1 :- ReadBitU16(src);
    var v2 :- ReadBitU16(src);
    var v3 :- ReadBitU16(src);
    var texture :- ReadBitU16(src);
    var lighting :- ReadBitU16(src);
    return Success(Face4([v0, v1, v2, v3], texture, lighting));
  }

  /** A TR4 face is the TR1 face followed by a lighting word. */
  lemma FacesExtendTr1(d: seq<byte>, p: nat)
    requires p + 12 <= |d|
    ensures Face4At(d, p) == Tr1.Face4At(d, p).(lighting := U16At(d, p + 10))
    ensures Face3At(d, p) == Tr1.Face3At(d, p).(lighting := U16At(d, p + 8))
  {}

  /** read_tr4_room_light: position, colour, type, a spare byte, a one-byte intensity, four float radii and a float direction. */
  function LightAt(d: seq<byte>, p: nat): Light
    requires p + 46 <= |d|
  {
    Light(pos := Tr1.Vertex32At(d, p), colour := Tr1.ColourAt(d, p + 12), light_type := U8At(d, p + 15), unknown := U8At(d, p + 16), intensity1 := U8At(d, p + 17), r_inner := F32At(d, p + 18), r_outer := F32At(d, p + 22), length := F32At(d, p + 26), cutoff := F32At(d, p + 30), dir := VertexFloatAt(d, p + 34))
  }

  function ParseLight(d: seq<byte>, p: nat): Option<Parsed<Light>> {
    if p + 46 <= |d| then Some(Parsed(LightAt(d, p), p + 46)) else None
  }

  /** The fields of the record decoded one after the other, in the order the reader reads them. */
  function LightFields(d: seq<byte>, p: nat): Option<Parsed<Light>> {
    match Tr1.ParseVertex32(d, p)
    case None => None
    case Some(pos) =>
    match Tr1.ParseColour(d, pos.next)
    case None => None
    case Some(colour) =>
    match ParseBitU8(d, colour.next)
    case None => None
    case Some(kind) =>
    match ParseBitU8(d, kind.next)
    case None => None
    case Some(unknown) =>
    match ParseBitU8(d, unknown.next)
    case None => None
    case Some(intensity) =>
    match ParseFloat(d, intensity.next)
    case None => None
    case Some(inner) =>
    match ParseFloat(d, inner.next)
    case None => None
    case Some(outer) =>
    match ParseFloat(d, outer.next)
    case None => None
    case Some(length) =>
    match ParseFloat(d, length.next)
    case None => None
    case Some(cutoff) =>
    match ParseVertexFloat(d, cutoff.next)
    case None => None
    case Some(dir) =>
    Some(Parsed(Light(pos := pos.value, colour := colour.value, light_type := kind.value, unknown := unknown.value, intensity1 := intensity.value, r_inner := inner.value, r_outer := outer.value, length := length.value, cutoff := cutoff.value, dir := dir.value), dir.next))
  }

  /** Reading the fields in order decodes exactly the 46-byte layout. */
  lemma LightLayout(d: seq<byte>, p: nat)
    ensures LightFields(d, p) == ParseLight(d, p)
  {}

  method ReadLight(src: Cursor) returns (r: Result<Light>)
    requires src.Valid()
    modifies src
    ensures src.Valid() && Matches(r, ParseLight(src.data, old(src.pos)), src.pos)
  {
    LightLayout(src.data, src.pos);
    var pos :- Tr1.ReadVertex32(src);
    var colour :- Tr1.ReadColour(src);
    var kind :- ReadBitU8(src);
    var unknown :- ReadBitU8(src);
    var intensity :- ReadBitU8(src);
    var inner :- ReadFloat(src);
    var outer :- ReadFloat(src);
    var length :- ReadFloat(src);
    var cutoff :- ReadFloat(src);
    var dir :- ReadVertexFloat(src);
    return Success(Light(pos := pos, colour := colour, light_type := kind, unknown := unknown, intensity1 := intensity, r_inner := inner, r_outer := outer, length := length, cutoff := cutoff, dir := dir));
  }

  /** read_tr4_room_vertex: as in TR3, with the colour lighting1 over 16383. */
  function RoomVertexAt(d: seq<byte>, p: nat): RoomVertex
    requires p + 12 <= |d|
  {
    RoomVertex(vertex := Tr1.Vertex16At(d, p), lighting1 := S16At(d, p + 6), attributes := U16At(d, p + 8), lighting2 := S16At(d, p + 10), normal := Vertex(), colour := Tr2.Shade(S16At(d, p + 6), 16383))
  }

  function ParseRoomVertex(d: seq<byte>, p: nat): Option<Parsed<RoomVertex>> {
    if p + 12 <= |d| then Some(Parsed(RoomVertexAt(d, p), p + 12)) else None
  }

  /** The fields of the record decoded one after the other, in the order the reader reads them. */
  function RoomVertexFields(d: seq<byte>, p: nat): Option<Parsed<RoomVertex>> {
    match Tr1.ParseVertex16(d, p)
    case None => None
    case Some(vertex) =>
    match ParseBit16(d, vertex.next)
    case None => None
    case Some(l1) =>
    match ParseBitU16(d, l1.next)
    case None => None
    case Some(attributes) =>
    match ParseBit16(d, attributes.next)
    case None => None
    case Some(l2) =>
    Some(Parsed(RoomVertex(vertex := vertex.value, lighting1 := l1.value, attributes := attributes.value, lighting2 := l2.value, normal := Vertex(), colour := Tr2.Shade(l1.value, 16383)), l2.next))
  }

  /** Reading the fields in order decodes exactly the 12-byte layout. */
  lemma RoomVertexLayout(d: seq<byte>, p: nat)
    ensures RoomVertexFields(d, p) == ParseRoomVertex(d, p)
  {}

  method ReadRoomVertex(src: Cursor) returns (r: Result<RoomVertex>)
    requires src.Valid()
    modifies src
    ensures src.Valid() && Matches(r, ParseRoomVertex(src.data, old(src.pos)), src.pos)
  {
    RoomVertexLayout(src.data, src.pos);
    var vertex :- Tr1.ReadVertex16(src);
    var l1 :- ReadBit16(src);
    var attributes :- ReadBitU16(src);
    var l2 :- ReadBit16(src);
    return Success(RoomVertex(vertex := vertex, lighting1 := l1, attributes := attributes, lighting2 := l2, normal := Vertex(), colour := Tr2.Shade(l1, 16383)));
  }

  /** The TR4 room vertex differs from the TR3 one only in the scale of its
      colour. */
  lemma RoomVertexAgreesWithTr3(d: seq<byte>, p: nat)
    requires p + 12 <= |d|
    ensures RoomVertexAt(d, p) == Tr3.RoomVertexAt(d, p).(colour := Tr2.Shade(S16At(d, p + 6), 16383))
  {}

  /** read_tr4_room: the TR3 layout with TR4 vertices and lights. */
  function ParseRoom(d: seq<byte>, p: nat): Option<Parsed<Room>> {
    match Tr1.ParseRoomInfo(d, p)
    case None => None
    case Some(info) =>
    match ParseRoomGeometry(d, info.next, Tr1.RoomFromInfo(info.value))
    case None => None
    case Some(geometry) =>
    match Tr1.ParseRoomSectors(d, Clamp(SeekTarget(info.next, 2 * info.value.num_data_words), |d|), geometry.value)
    case None => None
    case Some(sectors) =>
    ParseRoomLighting(d, sectors.next, sectors.value)
  }

  function ParseRoomGeometry(d: seq<byte>, p: nat, room: Room): Option<Parsed<Room>> {
    match ParseBitU16(d, p)
    case None => None
    case Some(nv) =>
    match ParseMany(d, nv.next, nv.value, ParseRoomVertex)
    case None => None
    case Some(vs) =>
    Tr1.ParseRoomFaces(d, vs.next, room.(num_vertices := nv.value, vertices := vs.value))
  }

  function ParseRoomLighting(d: seq<byte>, p: nat, room: Room): Option<Parsed<Room>> {
    match ParseBit16(d, p)
    case None => None
    case Some(a1) =>
    match ParseBit16(d, a1.next)
    case None => None
    case Some(a2) =>
    match ParseBitU16(d, a2.next)
    case None => None
    case Some(nl) =>
    match ParseMany(d, nl.next, nl.value, ParseLight)
    case None => None
    case Some(ls) =>
    match ParseBitU16(d, ls.next)
    case None => None
    case Some(nm) =>
    match ParseMany(d, nm.next, nm.value, Tr3.ParseRoomStaticMesh)
    case None => None
    case Some(ms) =>
    match ParseBit16(d, ms.next)
    case None => None
    case Some(alt) =>
    match ParseBitU16(d, alt.next)
    case None => None
    case Some(fl) =>
    match Tr1.ParseColour(d, fl.next)
    case None => None
    case Some(fog) =>
    Some(Parsed(room.(intensity1 := a1.value, intensity2 := a2.value, light_mode := 0,
                      num_lights := nl.value, lights := ls.value,
                      num_static_meshes := nm.value, static_meshes := ms.value,
                      alternate_room := alt.value, flags := fl.value, fog_colour := fog.value,
                      light_colour := Tr1.Grey(a1.value)), fog.next))
  }

  method ReadRoom(src: Cursor) returns (r: Result<Room>)
    requires src.Valid()
    modifies src
    ensures src.Valid() && Matches(r, ParseRoom(src.data, old(src.pos)), src.pos)
  {
    var info :- Tr1.ReadRoomInfo(src);
    var start := src.Tell();
    var room :- ReadRoomGeometry(src, Tr1.RoomFromInfo(info));
    src.Seek(SeekTarget(start, 2 * info.num_data_words));
    room :- Tr1.ReadRoomSectors(src, room);
    r := ReadRoomLighting(src, room);
  }

  method ReadRoomGeometry(src: Cursor, room: Room) returns (r: Result<Room>)
    requires src.Valid()
    modifies src
    ensures src.Valid() && Matches(r, ParseRoomGeometry(src.data, old(src.pos), room), src.pos)
  {
    var nv :- ReadBitU16(src);
    var vs :- ReadRoomVertices(src, nv);
    r := Tr1.ReadRoomFaces(src, room.(num_vertices := nv, vertices := vs));
  }

  method ReadRoomLighting(src: Cursor, room: Room) returns (r: Result<Room>)
    requires src.Valid()
    modifies src
    ensures src.Valid() && Matches(r, ParseRoomLighting(src.data, old(src.pos), room), src.pos)
  {
    var a1 :- ReadBit16(src);
    var a2 :- ReadBit16(src);
    var nl :- ReadBitU16(src);
    var ls :- ReadLights(src, nl);
    var nm :- ReadBitU16(src);
    var ms :- Tr3.ReadRoomStaticMeshes(src, nm);
    var alt :- ReadBit16(src);
    var fl :- ReadBitU16(src);
    var fog :- Tr1.ReadColour(src);
    return Success(room.(intensity1 := a1, intensity2 := a2, light_mode := 0,
                         num_lights := nl, lights := ls, num_static_meshes := nm, static_meshes := ms,
                         alternate_room := alt, flags := fl, fog_colour := fog, light_colour := Tr1.Grey(a1)));
  }

  /** The TR4 lighting block has the TR3 shape with 46-byte lights. */
  lemma {:induction false} RoomLightingCounts(d: seq<byte>, p: nat, room: Room)
    requires ParseRoomLighting(d, p, room).Some?
    ensures var r := ParseRoomLighting(d, p, room).value;
      |r.value.lights| == r.value.num_lights && |r.value.static_meshes| == r.value.num_static_meshes &&
      r.value.light_mode == 0 && r.next == p + 15 + 46 * r.value.num_lights + 20 * r.value.num_static_meshes
  {
    var a1 := ParseBit16(d, p).value;
    var a2 := ParseBit16(d, a1.next).value;
    var nl := ParseBitU16(d, a2.next).value;
    var ls := ParseMany(d, nl.next, nl.value, ParseLight).value;
    ParseManyFixedSize(d, nl.next, nl.value, ParseLight, 46);
    var nm := ParseBitU16(d, ls.next).value;
    var ms := ParseMany(d, nm.next, nm.value, Tr3.ParseRoomStaticMesh).value;
    ParseManyFixedSize(d, nm.next, nm.value, Tr3.ParseRoomStaticMesh, 20);
    var alt := ParseBit16(d, ms.next).value;
    var fl := ParseBitU16(d, alt.next).value;
    var fog := Tr1.ParseColour(d, fl.next).value;
    assert nl.next == p + 6 && nm.next == ls.next + 2;
    assert ParseRoomLighting(d, p, room).value.next == fog.next == ms.next + 7;
    assert ParseRoomLighting(d, p, room).value.value.num_lights == nl.value;
    assert ParseRoomLighting(d, p, room).value.value.num_static_meshes == nm.value;
  }

  // ---------------------------------------------------------------------
  // Textures

  /** A coordinate byte of 0 is stored as 1. */
  function NonZero(c: int): (r: int)
    ensures r != 0 && (c != 0 ==> r == c)
  {
    if c == 0 then 1 else c
  }

  /** read_tr4_object_texture_vert: as in TR1, with a zero coordinate replaced by 1. */
  function ObjectTextureVertAt(d: seq<byte>, p: nat): ObjectTextureVert
    requires p + 4 <= |d|
  {
    ObjectTextureVert(NonZero(S8At(d, p)), U8At(d, p + 1), NonZero(S8At(d, p + 2)), U8At(d, p + 3))
  }

  function ParseObjectTextureVert(d: seq<byte>, p: nat): Option<Parsed<ObjectTextureVert>> {
    if p + 4 <= |d| then Some(Parsed(ObjectTextureVertAt(d, p), p + 4)) else None
  }

  /** The fields of the record decoded one after the other, in the order the reader reads them. */
  function ObjectTextureVertFields(d: seq<byte>, p: nat): Option<Parsed<ObjectTextureVert>> {
    match ParseBit8(d, p)
    case None => None
    case Some(xc) =>
    match ParseBitU8(d, xc.next)
    case None => None
    case Some(xp) =>
    match ParseBit8(d, xp.next)
    case None => None
    case Some(yc) =>
    match ParseBitU8(d, yc.next)
    case None => None
    case Some(yp) =>
    Some(Parsed(ObjectTextureVert(NonZero(xc.value), xp.value, NonZero(yc.value), yp.value), yp.next))
  }

  /** Reading the fields in order decodes exactly the 4-byte layout. */
  lemma ObjectTextureVertLayout(d: seq<byte>, p: nat)
    ensures ObjectTextureVertFields(d, p) == ParseObjectTextureVert(d, p)
  {}

  method ReadObjectTextureVert(src: Cursor) returns (r: Result<ObjectTextureVert>)
    requires src.Valid()
    modifies src
    ensures src.Valid() && Matches(r, ParseObjectTextureVert(src.data, old(src.pos)), src.pos)
  {
    ObjectTextureVertLayout(src.data, src.pos);
    var xc :- ReadBit8(src);
    var xp :- ReadBitU8(src);
    var yc :- ReadBit8(src);
    var yp :- ReadBitU8(src);
    return Success(ObjectTextureVert(NonZero(xc), xp, NonZero(yc), yp));
  }

  const TileFlagsError := "object_texture.tile_flags != 0 && 128"

  /** tile_flags may be 0 or 128. */
  predicate ValidTileFlags(f: int) { f == 0 || f == 128 }

  /** read_tr4_object_texture: a tile above 64 or tile flags other than 0 and 128 are errors; then flags, four corners, two spare words and the sizes. */
  function ObjectTextureAt(d: seq<byte>, p: nat): ObjectTexture
    requires p + 38 <= |d|
  {
    ObjectTexture(U16At(d, p), U8At(d, p + 2), U8At(d, p + 3), U16At(d, p + 4), [ObjectTextureVertAt(d, p + 6), ObjectTextureVertAt(d, p + 10), ObjectTextureVertAt(d, p + 14), ObjectTextureVertAt(d, p + 18)], U32At(d, p + 22), U32At(d, p + 26), U32At(d, p + 30), U32At(d, p + 34))
  }

  function ParseObjectTexture(d: seq<byte>, p: nat): Option<Parsed<ObjectTexture>> {
    if p + 38 <= |d| && U8At(d, p + 2) <= 64 && ValidTileFlags(U8At(d, p + 3)) then Some(Parsed(ObjectTextureAt(d, p), p + 38)) else None
  }

  /** The fields of the record decoded one after the other, in the order the reader reads them. */
  function ObjectTextureFields(d: seq<byte>, p: nat): Option<Parsed<ObjectTexture>> {
    match ParseBitU16(d, p)
    case None => None
    case Some(transparency) =>
    match ParseBitU8(d, transparency.next)
    case None => None
    case Some(tile) =>
    if tile.value > 64 then None else
    match ParseBitU8(d, tile.next)
    case None => None
    case Some(tileFlags) =>
    if !ValidTileFlags(tileFlags.value) then None else
    match ParseBitU16(d, tileFlags.next)
    case None => None
    case Some(flags) =>
    match ParseObjectTextureVert(d, flags.next)
    case None => None
    case Some(v0) =>
    match ParseObjectTextureVert(d, v0.next)
    case None => None
    case Some(v1) =>
    match ParseObjectTextureVert(d, v1.next)
    case None => None
    case Some(v2) =>
    match ParseObjectTextureVert(d, v2.next)
    case None => None
    case Some(v3) =>
    match ParseBitU32(d, v3.next)
    case None => None
    case Some(unknown1) =>
    match ParseBitU32(d, unknown1.next)
    case None => None
    case Some(unknown2) =>
    match ParseBitU32(d, unknown2.next)
    case None => None
    case Some(xSize) =>
    match ParseBitU32(d, xSize.next)
    case None => None
    case Some(ySize) =>
    Some(Parsed(ObjectTexture(transparency.value, tile.value, tileFlags.value, flags.value, [v0.value, v1.value, v2.value, v3.value], unknown1.value, unknown2.value, xSize.value, ySize.value), ySize.next))
  }

  /** Reading the fields in order decodes exactly the 38-byte layout. */
  lemma ObjectTextureLayout(d: seq<byte>, p: nat)
    ensures ObjectTextureFields(d, p) == ParseObjectTexture(d, p)
  {}

  method ReadObjectTexture(src: Cursor) returns (r: Result<ObjectTexture>)
    requires src.Valid()
    modifies src
    ensures src.Valid() && Matches(r, ParseObjectTexture(src.data, old(src.pos)), src.pos)
    ensures old(src.pos) + 3 <= |src.data| && U8At(src.data, old(src.pos) + 2) > 64 ==>
      r == Failure(ReadError(Tr1.TileError))
    ensures old(src.pos) + 4 <= |src.data| && U8At(src.data, old(src.pos) + 2) <= 64 && !ValidTileFlags(U8At(src.data, old(src.pos) + 3)) ==>
      r == Failure(ReadError(TileFlagsError))
  {
    ObjectTextureLayout(src.data, src.pos);
    var transparency :- ReadBitU16(src);
    var tile :- ReadBitU8(src);
    if tile > 64 {
      return Failure(ReadError(Tr1.TileError));
    }
    var tileFlags :- ReadBitU8(src);
    if !ValidTileFlags(tileFlags) {
      return Failure(ReadError(TileFlagsError));
    }
    var flags :- ReadBitU16(src);
    var v0 :- ReadObjectTextureVert(src);
    var v1 :- ReadObjectTextureVert(src);
    var v2 :- ReadObjectTextureVert(src);
    var v3 :- ReadObjectTextureVert(src);
    var unknown1 :- ReadBitU32(src);
    var unknown2 :- ReadBitU32(src);
    var xSize :- ReadBitU32(src);
    var ySize :- ReadBitU32(src);
    return Success(ObjectTexture(transparency, tile, tileFlags, flags, [v0, v1, v2, v3], unknown1, unknown2, xSize, ySize));
  }

  /** Every decoded corner has non-zero coordinates, and the tile flags are
      0 or 128. */
  lemma {:induction false} ObjectTextureCorners(d: seq<byte>, p: nat)
    requires ParseObjectTexture(d, p).Some?
    ensures var t := ParseObjectTexture(d, p).value.value;
      t.tile <= 64 && ValidTileFlags(t.tile_flags) &&
      forall k | 0 <= k < 4 :: t.vertices[k].xcoordinate != 0 && t.vertices[k].ycoordinate != 0
  {
    var t := ParseObjectTexture(d, p).value.value;
    assert t == ObjectTextureAt(d, p);
  }

  // ---------------------------------------------------------------------
  // Meshes

  /** read_tr4_mesh: as read_tr_mesh with TR4 textured faces and no coloured
      faces: their counts are 0 and their lists are left as they were. */
  function ParseMesh(d: seq<byte>, p: nat): Option<Parsed<Mesh>> {
    match Tr1.ParseVertex16(d, p)
    case None => None
    case Some(c) =>
    match ParseBit32(d, c.next)
    case None => None
    case Some(cs) =>
    match ParseBit16(d, cs.next)
    case None => None
    case Some(nv) =>
    match Tr1.ParseSigned(d, nv.next, nv.value, Tr1.ParseVertex16, Vertex())
    case None => None
    case Some(vs) =>
    match ParseBit16(d, vs.next)
    case None => None
    case Some(nn) =>
    match Tr1.ParseShading(d, nn.next, nn.value)
    case None => None
    case Some(shading) =>
    var s := shading.value;
    ParseMeshFaces(d, shading.next, Mesh(c.value, cs.value, nv.value, vs.value, s.num_normals, s.num_lights, s.normals, s.lights))
  }

  function ParseMeshFaces(d: seq<byte>, p: nat, mesh: Mesh): Option<Parsed<Mesh>> {
    match ParseBit16(d, p)
    case None => None
    case Some(ntr) =>
    match Tr1.ParseSigned(d, ntr.next, ntr.value, ParseFace4, Face4())
    case None => None
    case Some(tr) =>
    match ParseBit16(d, tr.next)
    case None => None
    case Some(ntt) =>
    match Tr1.ParseSigned(d, ntt.next, ntt.value, ParseFace3, Face3())
    case None => None
    case Some(tt) =>
    Some(Parsed(mesh.(num_textured_rectangles := ntr.value, textured_rectangles := tr.value,
                      num_textured_triangles := ntt.value, textured_triangles := tt.value,
                      num_coloured_rectangles := 0, num_coloured_triangles := 0), tt.next))
  }

  method ReadMesh(src: Cursor) returns (r: Result<Mesh>)
    requires src.Valid()
    modifies src
    ensures src.Valid() && Matches(r, ParseMesh(src.data, old(src.pos)), src.pos)
  {
    var c :- Tr1.ReadVertex16(src);
    var cs :- ReadBit32(src);
    var nv :- ReadBit16(src);
    var vs :- Tr1.ReadSignedVertices16(src, nv);
    var nn :- ReadBit16(src);
    var s :- Tr1.ReadShading(src, nn);
    r := ReadMeshFaces(src, Mesh(c, cs, nv, vs, s.num_normals, s.num_lights, s.normals, s.lights));
  }

  method ReadMeshFaces(src: Cursor, mesh: Mesh) returns (r: Result<Mesh>)
    requires src.Valid()
    modifies src
    ensures src.Valid() && Matches(r, ParseMeshFaces(src.data, old(src.pos), mesh), src.pos)
  {
    var ntr :- ReadBit16(src);
    var tr :- ReadSignedFace4s(src, ntr);
    var ntt :- ReadBit16(src);
    var tt :- ReadSignedFace3s(src, ntt);
    return Success(mesh.(num_textured_rectangles := ntr, textured_rectangles := tr,
                         num_textured_triangles := ntt, textured_triangles := tt,
                         num_coloured_rectangles := 0, num_coloured_triangles := 0));
  }

  /** A TR4 mesh has no coloured faces, and its textured lists hold as many
      faces as non-negative counts say. */
  lemma {:induction false} MeshCountsMatch(d: seq<byte>, p: nat)
    requires ParseMesh(d, p).Some?
    ensures var m := ParseMesh(d, p).value.value;
      (m.num_vertices >= 0 ==> |m.vertices| == m.num_vertices) &&
      (m.num_textured_rectangles >= 0 ==> |m.textured_rectangles| == m.num_textured_rectangles) &&
      (m.num_textured_triangles >= 0 ==> |m.textured_triangles| == m.num_textured_triangles) &&
      m.num_coloured_rectangles == 0 && m.num_coloured_triangles == 0 &&
      m.coloured_rectangles == [] && m.coloured_triangles == [] &&
      (m.num_normals == 0 || m.num_lights == 0)
  {
    var c := Tr1.ParseVertex16(d, p).value;
    var cs := ParseBit32(d, c.next).value;
    var nv := ParseBit16(d, cs.next).value;
    var vs := Tr1.ParseSigned(d, nv.next, nv.value, Tr1.ParseVertex16, Vertex()).value;
    var nn := ParseBit16(d, vs.next).value;
    var shading := Tr1.ParseShading(d, nn.next, nn.value).value;
    var s := shading.value;
    var m := ParseMesh(d, p).value.value;
    assert m.num_vertices == nv.value && m.vertices == vs.value;
    assert m.num_normals == s.num_normals && m.num_lights == s.num_lights;
  }

  // ---------------------------------------------------------------------
  // Animations

  /** The first 16 bytes of read_tr4_animation, laid out as in TR1. */
  function AnimationHeadAt(d: seq<byte>, p: nat): Animation
    requires p + 16 <= |d|
  {
    Animation(frame_offset := U32At(d, p), frame_rate := U8At(d, p + 4), frame_size := U8At(d, p + 5), state_id := U16At(d, p + 6), unknown := S16At(d, p + 8), speed := S16At(d, p + 10), accel_lo := S16At(d, p + 12), accel_hi := S16At(d, p + 14))
  }

  function ParseAnimationHead(d: seq<byte>, p: nat): Option<Parsed<Animation>> {
    if p + 16 <= |d| then Some(Parsed(AnimationHeadAt(d, p), p + 16)) else None
  }

  /** The fields of the record decoded one after the other, in the order the reader reads them. */
  function AnimationHeadFields(d: seq<byte>, p: nat): Option<Parsed<Animation>> {
    match ParseBitU32(d, p)
    case None => None
    case Some(frameOffset) =>
    match ParseBitU8(d, frameOffset.next)
    case None => None
    case Some(rate) =>
    match ParseBitU8(d, rate.next)
    case None => None
    case Some(size) =>
    match ParseBitU16(d, size.next)
    case None => None
    case Some(state) =>
    match ParseBit16(d, state.next)
    case None => None
    case Some(unknown) =>
    match ParseBit16(d, unknown.next)
    case None => None
    case Some(speed) =>
    match ParseBit16(d, speed.next)
    case None => None
    case Some(accelLo) =>
    match ParseBit16(d, accelLo.next)
    case None => None
    case Some(accelHi) =>
    Some(Parsed(Animation(frame_offset := frameOffset.value, frame_rate := rate.value, frame_size := size.value, state_id := state.value, unknown := unknown.value, speed := speed.value, accel_lo := accelLo.value, accel_hi := accelHi.value), accelHi.next))
  }

  /** Reading the fields in order decodes exactly the 16-byte layout. */
  lemma AnimationHeadLayout(d: seq<byte>, p: nat)
    ensures AnimationHeadFields(d, p) == ParseAnimationHead(d, p)
  {}

  method ReadAnimationHead(src: Cursor) returns (r: Result<Animation>)
    requires src.Valid()
    modifies src
    ensures src.Valid() && Matches(r, ParseAnimationHead(src.data, old(src.pos)), src.pos)
  {
    AnimationHeadLayout(src.data, src.pos);
    var frameOffset :- ReadBitU32(src);
    var rate :- ReadBitU8(src);
    var size :- ReadBitU8(src);
    var state :- ReadBitU16(src);
    var unknown :- ReadBit16(src);
    var speed :- ReadBit16(src);
    var accelLo :- ReadBit16(src);
    var accelHi :- ReadBit16(src);
    return Success(Animation(frame_offset := frameOffset, frame_rate := rate, frame_size := size, state_id := state, unknown := unknown, speed := speed, accel_lo := accelLo, accel_hi := accelHi));
  }

  /** The four bit16 motion fields TR4 adds: unknown2, speed2, accel_lo2, accel_hi2. */
  datatype Motion = Motion(unknown: int, speed: int, accel_lo: int, accel_hi: int)

  /** The lateral motion block of read_tr4_animation. */
  function MotionAt(d: seq<byte>, p: nat): Motion
    requires p + 8 <= |d|
  {
    Motion(S16At(d, p), S16At(d, p + 2), S16At(d, p + 4), S16At(d, p + 6))
  }

  function ParseMotion(d: seq<byte>, p: nat): Option<Parsed<Motion>> {
    if p + 8 <= |d| then Some(Parsed(MotionAt(d, p), p + 8)) else None
  }

  /** The fields of the record decoded one after the other, in the order the reader reads them. */
  function MotionFields(d: seq<byte>, p: nat): Option<Parsed<Motion>> {
    match ParseBit16(d, p)
    case None => None
    case Some(unknown) =>
    match ParseBit16(d, unknown.next)
    case None => None
    case Some(speed) =>
    match ParseBit16(d, speed.next)
    case None => None
    case Some(accelLo) =>
    match ParseBit16(d, accelLo.next)
    case None => None
    case Some(accelHi) =>
    Some(Parsed(Motion(unknown.value, speed.value, accelLo.value, accelHi.value), accelHi.next))
  }

  /** Reading the fields in order decodes exactly the 8-byte layout. */
  lemma MotionLayout(d: seq<byte>, p: nat)
    ensures MotionFields(d, p) == ParseMotion(d, p)
  {}

  method ReadMotion(src: Cursor) returns (r: Result<Motion>)
    requires src.Valid()
    modifies src
    ensures src.Valid() && Matches(r, ParseMotion(src.data, old(src.pos)), src.pos)
  {
    MotionLayout(src.data, src.pos);
    var unknown :- ReadBit16(src);
    var speed :- ReadBit16(src);
    var accelLo :- ReadBit16(src);
    var accelHi :- ReadBit16(src);
    return Success(Motion(unknown, speed, accelLo, accelHi));
  }

  /** The eight bitu16 frame and link fields that end an animation. */
  datatype Links = Links(frame_start: int, frame_end: int, next_animation: int, next_frame: int,
                         num_state_changes: int, state_change_offset: int, num_anim_commands: int, anim_command: int)

  /** The last 16 bytes of an animation. */
  function LinksAt(d: seq<byte>, p: nat): Links
    requires p + 16 <= |d|
  {
    Links(U16At(d, p), U16At(d, p + 2), U16At(d, p + 4), U16At(d, p + 6), U16At(d, p + 8), U16At(d, p + 10), U16At(d, p + 12), U16At(d, p + 14))
  }

  function ParseLinks(d: seq<byte>, p: nat): Option<Parsed<Links>> {
    if p + 16 <= |d| then Some(Parsed(LinksAt(d, p), p + 16)) else None
  }

  /** The fields of the record decoded one after the other, in the order the reader reads them. */
  function LinksFields(d: seq<byte>, p: nat): Option<Parsed<Links>> {
    match ParseBitU16(d, p)
    case None => None
    case Some(start) =>
    match ParseBitU16(d, start.next)
    case None => None
    case Some(end) =>
    match ParseBitU16(d, end.next)
    case None => None
    case Some(nextAnimation) =>
    match ParseBitU16(d, nextAnimation.next)
    case None => None
    case Some(nextFrame) =>
    match ParseBitU16(d, nextFrame.next)
    case None => None
    case Some(numStateChanges) =>
    match ParseBitU16(d, numStateChanges.next)
    case None => None
    case Some(stateChangeOffset) =>
    match ParseBitU16(d, stateChangeOffset.next)
    case None => None
    case Some(numAnimCommands) =>
    match ParseBitU16(d, numAnimCommands.next)
    case None => None
    case Some(animCommand) =>
    Some(Parsed(Links(start.value, end.value, nextAnimation.value, nextFrame.value, numStateChanges.value, stateChangeOffset.value, numAnimCommands.value, animCommand.value), animCommand.next))
  }

  /** Reading the fields in order decodes exactly the 16-byte layout. */
  lemma LinksLayout(d: seq<byte>, p: nat)
    ensures LinksFields(d, p) == ParseLinks(d, p)
  {}

  method ReadLinks(src: Cursor) returns (r: Result<Links>)
    requires src.Valid()
    modifies src
    ensures src.Valid() && Matches(r, ParseLinks(src.data, old(src.pos)), src.pos)
  {
    LinksLayout(src.data, src.pos);
    var start :- ReadBitU16(src);
    var end :- ReadBitU16(src);
    var nextAnimation :- ReadBitU16(src);
    var nextFrame :- ReadBitU16(src);
    var numStateChanges :- ReadBitU16(src);
    var stateChangeOffset :- ReadBitU16(src);
    var numAnimCommands :- ReadBitU16(src);
    var animCommand :- ReadBitU16(src);
    return Success(Links(start, end, nextAnimation, nextFrame, numStateChanges, stateChangeOffset, numAnimCommands, animCommand));
  }

  /** The animation whose head, motion and links are given. */
  function Assemble(head: Animation, m: Motion, l: Links): (a: Animation)
    ensures a.unknown2 == m.unknown && a.speed2 == m.speed && a.frame_start == l.frame_start && a.frame_offset == head.frame_offset
  {
    head.(unknown2 := m.unknown, speed2 := m.speed, accel_lo2 := m.accel_lo, accel_hi2 := m.accel_hi,
          frame_start := l.frame_start, frame_end := l.frame_end, next_animation := l.next_animation,
          next_frame := l.next_frame, num_state_changes := l.num_state_changes,
          state_change_offset := l.state_change_offset, num_anim_commands := l.num_anim_commands,
          anim_command := l.anim_command)
  }

  /** read_tr4_animation: 40 bytes. */
  function AnimationAt(d: seq<byte>, p: nat): Animation
    requires p + 40 <= |d|
  {
    Assemble(AnimationHeadAt(d, p), MotionAt(d, p + 16), LinksAt(d, p + 24))
  }

  function ParseAnimation(d: seq<byte>, p: nat): Option<Parsed<Animation>> {
    if p + 40 <= |d| then Some(Parsed(AnimationAt(d, p), p + 40)) else None
  }

  method ReadAnimation(src: Cursor) returns (r: Result<Animation>)
    requires src.Valid()
    modifies src
    ensures src.Valid() && Matches(r, ParseAnimation(src.data, old(src.pos)), src.pos)
  {
    var head :- ReadAnimationHead(src);
    var m :- ReadMotion(src);
    var l :- ReadLinks(src);
    return Success(Assemble(head, m, l));
  }

  /** A TR4 animation is the TR1 one with the 8-byte motion block inserted
      after accel_hi: without those four fields it decodes as TR1 from the
      bytes with the block removed. */
  lemma {:induction false} AnimationExtendsTr1(d: seq<byte>, p: nat)
    requires p + 40 <= |d|
    ensures AnimationAt(d, p).(unknown2 := 0, speed2 := 0, accel_lo2 := 0, accel_hi2 := 0) ==
      Tr1.AnimationAt(d[..p + 16] + d[p + 24..], p)
  {
    var e := d[..p + 16] + d[p + 24..];
    forall j | p <= j < p + 16
      ensures e[j] == d[j]
    {}
    forall j | p + 16 <= j < p + 32
      ensures e[j] == d[j + 8]
    {}
  }

  /** The TR4 rectangles of a mesh. */
  method ReadFace4s(src: Cursor, n: nat) returns (r: Result<seq<Face4>>)
    requires src.Valid()
    modifies src
    ensures src.Valid() && Matches(r, ParseMany(src.data, old(src.pos), n, ParseFace4), src.pos)
  {
    ghost var p0 := src.pos;
    var acc: seq<Face4> := [];
    var i := 0;
    ParseManyStart(src.data, p0, n, ParseFace4);
    while i < n
      invariant src.Valid() && i <= n && Remaining(src.data, p0, n, ParseFace4, acc, src.pos, i)
    {
      ghost var q := src.pos;
      var x := ReadFace4(src);
      if x.Failure? {
        ParseManyFails(src.data, p0, n, i, acc, q, ParseFace4);
        return Failure(x.error);
      }
      ParseManyStep(src.data, p0, n, i, acc, q, ParseFace4, Parsed(x.value, src.pos));
      acc := acc + [x.value];
      i := i + 1;
    }
    ParseManyDone(src.data, p0, n, acc, src.pos, ParseFace4);
    return Success(acc);
  }

  /** The TR4 triangles of a mesh. */
  method ReadFace3s(src: Cursor, n: nat) returns (r: Result<seq<Face3>>)
    requires src.Valid()
    modifies src
    ensures src.Valid() && Matches(r, ParseMany(src.data, old(src.pos), n, ParseFace3), src.pos)
  {
    ghost var p0 := src.pos;
    var acc: seq<Face3> := [];
    var i := 0;
    ParseManyStart(src.data, p0, n, ParseFace3);
    while i < n
      invariant src.Valid() && i <= n && Remaining(src.data, p0, n, ParseFace3, acc, src.pos, i)
    {
      ghost var q := src.pos;
      var x := ReadFace3(src);
      if x.Failure? {
        ParseManyFails(src.data, p0, n, i, acc, q, ParseFace3);
        return Failure(x.error);
      }
      ParseManyStep(src.data, p0, n, i, acc, q, ParseFace3, Parsed(x.value, src.pos));
      acc := acc + [x.value];
      i := i + 1;
    }
    ParseManyDone(src.data, p0, n, acc, src.pos, ParseFace3);
    return Success(acc);
  }

  /** The vertices of a TR4 room. */
  method ReadRoomVertices(src: Cursor, n: nat) returns (r: Result<seq<RoomVertex>>)
    requires src.Valid()
    modifies src
    ensures src.Valid() && Matches(r, ParseMany(src.data, old(src.pos), n, ParseRoomVertex), src.pos)
  {
    ghost var p0 := src.pos;
    var acc: seq<RoomVertex> := [];
    var i := 0;
    ParseManyStart(src.data, p0, n, ParseRoomVertex);
    while i < n
      invariant src.Valid() && i <= n && Remaining(src.data, p0, n, ParseRoomVertex, acc, src.pos, i)
    {
      ghost var q := src.pos;
      var x := ReadRoomVertex(src);
      if x.Failure? {
        ParseManyFails(src.data, p0, n, i, acc, q, ParseRoomVertex);
        return Failure(x.error);
      }
      ParseManyStep(src.data, p0, n, i, acc, q, ParseRoomVertex, Parsed(x.value, src.pos));
      acc := acc + [x.value];
      i := i + 1;
    }
    ParseManyDone(src.data, p0, n, acc, src.pos, ParseRoomVertex);
    return Success(acc);
  }

  /** The lights of a TR4 room. */
  method ReadLights(src: Cursor, n: nat) returns (r: Result<seq<Light>>)
    requires src.Valid()
    modifies src
    ensures src.Valid() && Matches(r, ParseMany(src.data, old(src.pos), n, ParseLight), src.pos)
  {
    ghost var p0 := src.pos;
    var acc: seq<Light> := [];
    var i := 0;
    ParseManyStart(src.data, p0, n, ParseLight);
    while i < n
      invariant src.Valid() && i <= n && Remaining(src.data, p0, n, ParseLight, acc, src.pos, i)
    {
      ghost var q := src.pos;
      var x := ReadLight(src);
      if x.Failure? {
        ParseManyFails(src.data, p0, n, i, acc, q, ParseLight);
        return Failure(x.error);
      }
      ParseManyStep(src.data, p0, n, i, acc, q, ParseLight, Parsed(x.value, src.pos));
      acc := acc + [x.value];
      i := i + 1;
    }
    ParseManyDone(src.data, p0, n, acc, src.pos, ParseLight);
    return Success(acc);
  }

  /** The rooms of a TR4 level. */
  method ReadRooms(src: Cursor, n: nat) returns (r: Result<seq<Room>>)
    requires src.Valid()
    modifies src
    ensures src.Valid() && Matches(r, ParseMany(src.data, old(src.pos), n, ParseRoom), src.pos)
  {
    ghost var p0 := src.pos;
    var acc: seq<Room> := [];
    var i := 0;
    ParseManyStart(src.data, p0, n, ParseRoom);
    while i < n
      invariant src.Valid() && i <= n && Remaining(src.data, p0, n, ParseRoom, acc, src.pos, i)
    {
      ghost var q := src.pos;
      var x := ReadRoom(src);
      if x.Failure? {
        ParseManyFails(src.data, p0, n, i, acc, q, ParseRoom);
        return Failure(x.error);
      }
      ParseManyStep(src.data, p0, n, i, acc, q, ParseRoom, Parsed(x.value, src.pos));
      acc := acc + [x.value];
      i := i + 1;
    }
    ParseManyDone(src.data, p0, n, acc, src.pos, ParseRoom);
    return Success(acc);
  }

  /** The object textures of a TR4 or TR5 level. */
  method ReadObjectTextures(src: Cursor, n: nat) returns (r: Result<seq<ObjectTexture>>)
    requires src.Valid()
    modifies src
    ensures src.Valid() && Matches(r, ParseMany(src.data, old(src.pos), n, ParseObjectTexture), src.pos)
  {
    ghost var p0 := src.pos;
    var acc: seq<ObjectTexture> := [];
    var i := 0;
    ParseManyStart(src.data, p0, n, ParseObjectTexture);
    while i < n
      invariant src.Valid() && i <= n && Remaining(src.data, p0, n, ParseObjectTexture, acc, src.pos, i)
    {
      ghost var q := src.pos;
      var x := ReadObjectTexture(src);
      if x.Failure? {
        ParseManyFails(src.data, p0, n, i, acc, q, ParseObjectTexture);
        return Failure(x.error);
      }
      ParseManyStep(src.data, p0, n, i, acc, q, ParseObjectTexture, Parsed(x.value, src.pos));
      acc := acc + [x.value];
      i := i + 1;
    }
    ParseManyDone(src.data, p0, n, acc, src.pos, ParseObjectTexture);
    return Success(acc);
  }

  /** The animations of a TR4 level. */
  method ReadAnimations(src: Cursor, n: nat) returns (r: Result<seq<Animation>>)
    requires src.Valid()
    modifies src
    ensures src.Valid() && Matches(r, ParseMany(src.data, old(src.pos), n, ParseAnimation), src.pos)
  {
    ghost var p0 := src.pos;
    var acc: seq<Animation> := [];
    var i := 0;
    ParseManyStart(src.data, p0, n, ParseAnimation);
    while i < n
      invariant src.Valid() && i <= n && Remaining(src.data, p0, n, ParseAnimation, acc, src.pos, i)
    {
      ghost var q := src.pos;
      var x := ReadAnimation(src);
      if x.Failure? {
        ParseManyFails(src.data, p0, n, i, acc, q, ParseAnimation);
        return Failure(x.error);
      }
      ParseManyStep(src.data, p0, n, i, acc, q, ParseAnimation, Parsed(x.value, src.pos));
      acc := acc + [x.value];
      i := i + 1;
    }
    ParseManyDone(src.data, p0, n, acc, src.pos, ParseAnimation);
    return Success(acc);
  }

  /** The 32-bit textiles of a TR4 or TR5 level. */
  method ReadTextiles32(src: Cursor, n: nat) returns (r: Result<seq<Textile>>)
    requires src.Valid()
    modifies src
    ensures src.Valid() && Matches(r, ParseMany(src.data, old(src.pos), n, ParseTextile32), src.pos)
  {
    ghost var p0 := src.pos;
    var acc: seq<Textile> := [];
    var i := 0;
    ParseManyStart(src.data, p0, n, ParseTextile32);
    while i < n
      invariant src.Valid() && i <= n && Remaining(src.data, p0, n, ParseTextile32, acc, src.pos, i)
    {
      ghost var q := src.pos;
      var x := ReadTextile32(src);
      if x.Failure? {
        ParseManyFails(src.data, p0, n, i, acc, q, ParseTextile32);
        return Failure(x.error);
      }
      ParseManyStep(src.data, p0, n, i, acc, q, ParseTextile32, Parsed(x.value, src.pos));
      acc := acc + [x.value];
      i := i + 1;
    }
    ParseManyDone(src.data, p0, n, acc, src.pos, ParseTextile32);
    return Success(acc);
  }

  method ReadSignedFace4s(src: Cursor, n: int) returns (r: Result<seq<Face4>>)
    requires src.Valid() && -0x8000_0000 <= n < 0x8000_0000
    modifies src
    ensures src.Valid() && Matches(r, Tr1.ParseSigned(src.data, old(src.pos), n, ParseFace4, Face4()), src.pos)
  {
    if n < 0 {
      return Success(seq(Wrap32(n), _ => Face4()));
    }
    r := ReadFace4s(src, n);
  }

  method ReadSignedFace3s(src: Cursor, n: int) returns (r: Result<seq<Face3>>)
    requires src.Valid() && -0x8000_0000 <= n < 0x8000_0000
    modifies src
    ensures src.Valid() && Matches(r, Tr1.ParseSigned(src.data, old(src.pos), n, ParseFace3, Face3()), src.pos)
  {
    if n < 0 {
      return Success(seq(Wrap32(n), _ => Face3()));
    }
    r := ReadFace3s(src, n);
  }
}
