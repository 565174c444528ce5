/** The record decoders of the fifth engine generation (l_tr5.cpp): float
    room lights, layered rooms stored as a self-contained block with its own
    offsets, moveables and object textures with a trailing check word. */
module Tr5 {
  import opened Wrappers
  import opened Common
  import opened Types
  import Prtl
  import Tr1
  import Tr3
  import Tr4

  const LightSeparator2Error := "read_tr5_room_light: seperator2 has wrong value"
  const LightSeparator3Error := "read_tr5_room_light: seperator3 has wrong value"
  const LightSeparator4Error := "read_tr5_room_light: seperator4 has wrong value"
  const LayerFiller2Error := "read_tr5_room_layer: filler2 has wrong value"
  const LayerFiller3Error := "read_tr5_room_layer: filler3 has wrong value"
  const XelaError := "read_tr5_room: 'XELA' not found"
  const RoomDataError := "read_tr5_room: room_data"
  const NumLightsError := "read_tr5_room: num_lights > 512"
  const NumStaticMeshesError := "read_tr5_room: num_static_meshes > 512"
  const Filler1Error := "read_tr5_room: filler1 has wrong value"
  const Filler2Error := "read_tr5_room: filler2 has wrong value"
  const NumTrianglesError := "read_tr5_room: num_triangles > 512"
  const NumRectanglesError := "read_tr5_room: num_rectangles > 1024"
  const NumLights2Error := "read_tr5_room: room.num_lights2 != room.num_lights"
  const PolyOffsetError := "read_tr5_room: poly_offset != poly_offset2"
  const VerticesSizeError := "read_tr5_room: vertices_size has wrong value"
  const MoveableFillerError := "read_tr5_moveable: filler has wrong value"
  const ObjectTextureTrailingError := "read_tr5_level: obj_tex trailing bitu16 != 0"

  /** "read_tr5_room: seperatorN has wrong value". */
  function SeparatorError(n: nat): string {
    "read_tr5_room: seperator" + Digits(n) + " has wrong value"
  }

  function Digits(n: nat): string
    decreases n
  {
    if n < 10 then [Digit(n)] else Digits(n / 10) + [Digit(n % 10)]
  }

  function Digit(n: nat): char
    requires n < 10
  {
    ['0', '1', '2', '3', '4', '5', '6', '7', '8', '9'][n]
  }

  /** The separator word that some fields accept beside 0. */
  const Fill: int := 0xCDCDCDCD

  predicate ZeroOrFill(w: int) { w == 0 || w == Fill }

  /** A face count of the room header: the fill word stands for 0. */
  function Unset(w: nat): (n: nat)
    ensures w != Fill ==> n == w
    ensures w == Fill ==> n == 0
  { if w == Fill then 0 else w }

  /** A reader's result agrees with a specification that has no end position. */
  ghost predicate Yields<T>(r: Result<T>, spec: Option<T>) {
    (r.Success? <==> spec.Some?) && (r.Success? ==> spec.value == r.value)
  }

  /** read_tr5_room_light: a float position, a float colour that is dropped, an unchecked word, two radii, three more dropped floats, a float direction, a second position and direction as bit32 vertices, the type and three separator bytes 0xCD. */
  function LightAt(d: seq<byte>, p: nat): Light
    requires p + 88 <= |d|
  {
    Light(pos := Tr4.VertexFloatAt(d, p), r_inner := F32At(d, p + 28), r_outer := F32At(d, p + 32), dir := Tr4.VertexFloatAt(d, p + 48), pos2 := Tr1.Vertex32At(d, p + 60), dir2 := Tr1.Vertex32At(d, p + 72), light_type := U8At(d, p + 84))
  }

  function ParseLight(d: seq<byte>, p: nat): Option<Parsed<Light>> {
    if p + 88 <= |d| && U8At(d, p + 85) == 0xCD && U8At(d, p + 86) == 0xCD && U8At(d, p + 87) == 0xCD then Some(Parsed(LightAt(d, p), p + 88)) else None
  }

  /** The fields of the record decoded one after the other, in the order the reader reads them. */
  function LightFields(d: seq<byte>, p: nat): Option<Parsed<Light>> {
    match Tr4.ParseVertexFloat(d, p)
    case None => None
    case Some(pos) =>
    match ParseFloat(d, pos.next)
    case None => None
    case Some(colourR) =>
    match ParseFloat(d, colourR.next)
    case None => None
    case Some(colourG) =>
    match ParseFloat(d, colourG.next)
    case None => None
    case Some(colourB) =>
    match ParseBitU32(d, colourB.next)
    case None => None
    case Some(separator1) =>
    match ParseFloat(d, separator1.next)
    case None => None
    case Some(inner) =>
    match ParseFloat(d, inner.next)
    case None => None
    case Some(outer) =>
    match ParseFloat(d, outer.next)
    case None => None
    case Some(radInput) =>
    match ParseFloat(d, radInput.next)
    case None => None
    case Some(radOutput) =>
    match ParseFloat(d, radOutput.next)
    case None => None
    case Some(range) =>
    match Tr4.ParseVertexFloat(d, range.next)
    case None => None
    case Some(dir) =>
    match Tr1.ParseVertex32(d, dir.next)
    case None => None
    case Some(pos2) =>
    match Tr1.ParseVertex32(d, pos2.next)
    case None => None
    case Some(dir2) =>
    match ParseBitU8(d, dir2.next)
    case None => None
    case Some(kind) =>
    match ParseBitU8(d, kind.next)
    case None => None
    case Some(separator2) =>
    if separator2.value != 0xCD then None else
    match ParseBitU8(d, separator2.next)
    case None => None
    case Some(separator3) =>
    if separator3.value != 0xCD then None else
    match ParseBitU8(d, separator3.next)
    case None => None
    case Some(separator4) =>
    if separator4.value != 0xCD then None else
    Some(Parsed(Light(pos := pos.value, r_inner := inner.value, r_outer := outer.value, dir := dir.value, pos2 := pos2.value, dir2 := dir2.value, light_type := kind.value), separator4.next))
  }

  /** Reading the fields in order decodes exactly the 88-byte layout. */
  lemma LightLayout(d: seq<byte>, p: nat)
    ensures LightFields(d, p) == ParseLight(d, p)
  {}

  method ReadLight(src: Cursor) returns (r: Result<Light>)
    requires src.Valid()
    modifies src
    ensures src.Valid() && Matches(r, ParseLight(src.data, old(src.pos)), src.pos)
  {
    LightLayout(src.data, src.pos);
    var pos :- Tr4.ReadVertexFloat(src);
    var colourR :- ReadFloat(src);
    var colourG :- ReadFloat(src);
    var colourB :- ReadFloat(src);
    var separator1 :- ReadBitU32(src);
    var inner :- ReadFloat(src);
    var outer :- ReadFloat(src);
    var radInput :- ReadFloat(src);
    var radOutput :- ReadFloat(src);
    var range :- ReadFloat(src);
    var dir :- Tr4.ReadVertexFloat(src);
    var pos2 :- Tr1.ReadVertex32(src);
    var dir2 :- Tr1.ReadVertex32(src);
    var kind :- ReadBitU8(src);
    var separator2 :- ReadBitU8(src);
    if separator2 != 0xCD {
      return Failure(ReadError(LightSeparator2Error));
    }
    var separator3 :- ReadBitU8(src);
    if separator3 != 0xCD {
      return Failure(ReadError(LightSeparator3Error));
    }
    var separator4 :- ReadBitU8(src);
    if separator4 != 0xCD {
      return Failure(ReadError(LightSeparator4Error));
    }
    return Success(Light(pos := pos, r_inner := inner, r_outer := outer, dir := dir, pos2 := pos2, dir2 := dir2, light_type := kind));
  }

  /** read_tr5_room_layer, first part: seven bitu16 counts and spare words, then a filler word that must be 0. */
  function LayerCountsAt(d: seq<byte>, p: nat): Layer
    requires p + 16 <= |d|
  {
    Layer(num_vertices := U16At(d, p), unknown_l1 := U16At(d, p + 2), unknown_l2 := U16At(d, p + 4), num_rectangles := U16At(d, p + 6), num_triangles := U16At(d, p + 8), unknown_l3 := U16At(d, p + 10), unknown_l4 := U16At(d, p + 12))
  }

  function ParseLayerCounts(d: seq<byte>, p: nat): Option<Parsed<Layer>> {
    if p + 16 <= |d| && U16At(d, p + 14) == 0 then Some(Parsed(LayerCountsAt(d, p), p + 16)) else None
  }

  /** The fields of the record decoded one after the other, in the order the reader reads them. */
  function LayerCountsFields(d: seq<byte>, p: nat): Option<Parsed<Layer>> {
    match ParseBitU16(d, p)
    case None => None
    case Some(nv) =>
    match ParseBitU16(d, nv.next)
    case None => None
    case Some(l1) =>
    match ParseBitU16(d, l1.next)
    case None => None
    case Some(l2) =>
    match ParseBitU16(d, l2.next)
    case None => None
    case Some(nr) =>
    match ParseBitU16(d, nr.next)
    case None => None
    case Some(nt) =>
    match ParseBitU16(d, nt.next)
    case None => None
    case Some(l3) =>
    match ParseBitU16(d, l3.next)
    case None => None
    case Some(l4) =>
    match ParseBitU16(d, l4.next)
    case None => None
    case Some(filler2) =>
    if filler2.value != 0 then None else
    Some(Parsed(Layer(num_vertices := nv.value, unknown_l1 := l1.value, unknown_l2 := l2.value, num_rectangles := nr.value, num_triangles := nt.value, unknown_l3 := l3.value, unknown_l4 := l4.value), filler2.next))
  }

  /** Reading the fields in order decodes exactly the 16-byte layout. */
  lemma LayerCountsLayout(d: seq<byte>, p: nat)
    ensures LayerCountsFields(d, p) == ParseLayerCounts(d, p)
  {}

  method ReadLayerCounts(src: Cursor) returns (r: Result<Layer>)
    requires src.Valid()
    modifies src
    ensures src.Valid() && Matches(r, ParseLayerCounts(src.data, old(src.pos)), src.pos)
  {
    LayerCountsLayout(src.data, src.pos);
    var nv :- ReadBitU16(src);
    var l1 :- ReadBitU16(src);
    var l2 :- ReadBitU16(src);
    var nr :- ReadBitU16(src);
    var nt :- ReadBitU16(src);
    var l3 :- ReadBitU16(src);
    var l4 :- ReadBitU16(src);
    var filler2 :- ReadBitU16(src);
    if filler2 != 0 {
      return Failure(ReadError(LayerFiller2Error));
    }
    return Success(Layer(num_vertices := nv, unknown_l1 := l1, unknown_l2 := l2, num_rectangles := nr, num_triangles := nt, unknown_l3 := l3, unknown_l4 := l4));
  }

  /** read_tr5_room_layer, second part: the two corners of the bounding box as floats, y and z negated, then a filler that must be 0. */
  function LayerBoxAt(d: seq<byte>, p: nat, l: Layer): Layer
    requires p + 28 <= |d|
  {
    l.(bounding_box_x1 := F32At(d, p), bounding_box_y1 := NegBits(U32At(d, p + 4)), bounding_box_z1 := NegBits(U32At(d, p + 8)), bounding_box_x2 := F32At(d, p + 12), bounding_box_y2 := NegBits(U32At(d, p + 16)), bounding_box_z2 := NegBits(U32At(d, p + 20)))
  }

  function ParseLayerBox(d: seq<byte>, p: nat, l: Layer): Option<Parsed<Layer>> {
    if p + 28 <= |d| && U32At(d, p + 24) == 0 then Some(Parsed(LayerBoxAt(d, p, l), p + 28)) else None
  }

  /** The fields of the record decoded one after the other, in the order the reader reads them. */
  function LayerBoxFields(d: seq<byte>, p: nat, l: Layer): Option<Parsed<Layer>> {
    match ParseFloat(d, p)
    case None => None
    case Some(x1) =>
    match ParseFloat(d, x1.next)
    case None => None
    case Some(y1) =>
    match ParseFloat(d, y1.next)
    case None => None
    case Some(z1) =>
    match ParseFloat(d, z1.next)
    case None => None
    case Some(x2) =>
    match ParseFloat(d, x2.next)
    case None => None
    case Some(y2) =>
    match ParseFloat(d, y2.next)
    case None => None
    case Some(z2) =>
    match ParseBitU32(d, z2.next)
    case None => None
    case Some(filler3) =>
    if filler3.value != 0 then None else
    Some(Parsed(l.(bounding_box_x1 := x1.value, bounding_box_y1 := NegBits(y1.value.pattern), bounding_box_z1 := NegBits(z1.value.pattern), bounding_box_x2 := x2.value, bounding_box_y2 := NegBits(y2.value.pattern), bounding_box_z2 := NegBits(z2.value.pattern)), filler3.next))
  }

  /** Reading the fields in order decodes exactly the 28-byte layout. */
  lemma LayerBoxLayout(d: seq<byte>, p: nat, l: Layer)
    ensures LayerBoxFields(d, p, l) == ParseLayerBox(d, p, l)
  {}

  method ReadLayerBox(src: Cursor, l: Layer) returns (r: Result<Layer>)
    requires src.Valid()
    modifies src
    ensures src.Valid() && Matches(r, ParseLayerBox(src.data, old(src.pos), l), src.pos)
  {
    LayerBoxLayout(src.data, src.pos, l);
    var x1 :- ReadFloat(src);
    var y1 :- ReadFloat(src);
    var z1 :- ReadFloat(src);
    var x2 :- ReadFloat(src);
    var y2 :- ReadFloat(src);
    var z2 :- ReadFloat(src);
    var filler3 :- ReadBitU32(src);
    if filler3 != 0 {
      return Failure(ReadError(LayerFiller3Error));
    }
    return Success(l.(bounding_box_x1 := x1, bounding_box_y1 := NegBits(y1.pattern), bounding_box_z1 := NegBits(z1.pattern), bounding_box_x2 := x2, bounding_box_y2 := NegBits(y2.pattern), bounding_box_z2 := NegBits(z2.pattern)));
  }

  /** read_tr5_room_layer, last part: six bit16 spare words. */
  function LayerExtraAt(d: seq<byte>, p: nat, l: Layer): Layer
    requires p + 12 <= |d|
  {
    l.(unknown_l6a := S16At(d, p), unknown_l6b := S16At(d, p + 2), unknown_l7a := S16At(d, p + 4), unknown_l7b := S16At(d, p + 6), unknown_l8a := S16At(d, p + 8), unknown_l8b := S16At(d, p + 10))
  }

  function ParseLayerExtra(d: seq<byte>, p: nat, l: Layer): Option<Parsed<Layer>> {
    if p + 12 <= |d| then Some(Parsed(LayerExtraAt(d, p, l), p + 12)) else None
  }

  /** The fields of the record decoded one after the other, in the order the reader reads them. */
  function LayerExtraFields(d: seq<byte>, p: nat, l: Layer): Option<Parsed<Layer>> {
    match ParseBit16(d, p)
    case None => None
    case Some(l6a) =>
    match ParseBit16(d, l6a.next)
    case None => None
    case Some(l6b) =>
    match ParseBit16(d, l6b.next)
    case None => None
    case Some(l7a) =>
    match ParseBit16(d, l7a.next)
    case None => None
    case Some(l7b) =>
    match ParseBit16(d, l7b.next)
    case None => None
    case Some(l8a) =>
    match ParseBit16(d, l8a.next)
    case None => None
    case Some(l8b) =>
    Some(Parsed(l.(unknown_l6a := l6a.value, unknown_l6b := l6b.value, unknown_l7a := l7a.value, unknown_l7b := l7b.value, unknown_l8a := l8a.value, unknown_l8b := l8b.value), l8b.next))
  }

  /** Reading the fields in order decodes exactly the 12-byte layout. */
  lemma LayerExtraLayout(d: seq<byte>, p: nat, l: Layer)
    ensures LayerExtraFields(d, p, l) == ParseLayerExtra(d, p, l)
  {}

  method ReadLayerExtra(src: Cursor, l: Layer) returns (r: Result<Layer>)
    requires src.Valid()
    modifies src
    ensures src.Valid() && Matches(r, ParseLayerExtra(src.data, old(src.pos), l), src.pos)
  {
    LayerExtraLayout(src.data, src.pos, l);
    var l6a :- ReadBit16(src);
    var l6b :- ReadBit16(src);
    var l7a :- ReadBit16(src);
    var l7b :- ReadBit16(src);
    var l8a :- ReadBit16(src);
    var l8b :- ReadBit16(src);
    return Success(l.(unknown_l6a := l6a, unknown_l6b := l6b, unknown_l7a := l7a, unknown_l7b := l7b, unknown_l8a := l8a, unknown_l8b := l8b));
  }

  /** read_tr5_room_layer: the three parts one after the other. */
  function ParseLayer(d: seq<byte>, p: nat): Option<Parsed<Layer>> {
    match ParseLayerCounts(d, p)
    case None => None
    case Some(c) =>
    match ParseLayerBox(d, c.next, c.value)
    case None => None
    case Some(b) =>
    ParseLayerExtra(d, b.next, b.value)
  }

  method ReadLayer(src: Cursor) returns (r: Result<Layer>)
    requires src.Valid()
    modifies src
    ensures src.Valid() && Matches(r, ParseLayer(src.data, old(src.pos)), src.pos)
  {
    var c :- ReadLayerCounts(src);
    var b :- ReadLayerBox(src, c);
    r := ReadLayerExtra(src, b);
  }

  /** A layer is a 56-byte record: it decodes exactly when the bytes are
      there and both fillers are 0, and its counts are the first, fourth and
      fifth words. */
  lemma LayerSize(d: seq<byte>, p: nat)
    ensures ParseLayer(d, p).Some? <==> p + 56 <= |d| && U16At(d, p + 14) == 0 && U32At(d, p + 40) == 0
    ensures ParseLayer(d, p).Some? ==> var l := ParseLayer(d, p).value;
      l.next == p + 56 && l.value.num_vertices == U16At(d, p) &&
      l.value.num_rectangles == U16At(d, p + 6) && l.value.num_triangles == U16At(d, p + 8)
  {}

  /** read_tr5_room_vertex: float position and normal, then a colour stored as blue, green, red and alpha bytes over 255. */
  function RoomVertexAt(d: seq<byte>, p: nat): RoomVertex
    requires p + 28 <= |d|
  {
    RoomVertex(vertex := Tr4.VertexFloatAt(d, p), normal := Tr4.VertexFloatAt(d, p + 12), colour := FColour(r := Quotient(U8At(d, p + 26), 255), g := Quotient(U8At(d, p + 25), 255), b := Quotient(U8At(d, p + 24), 255), a := Quotient(U8At(d, p + 27), 255)))
  }

  function ParseRoomVertex(d: seq<byte>, p: nat): Option<Parsed<RoomVertex>> {
    if p + 28 <= |d| then Some(Parsed(RoomVertexAt(d, p), p + 28)) else None
  }

  /** The fields of the record decoded one after the other, in the order the reader reads them. */
  function RoomVertexFields(d: seq<byte>, p: nat): Option<Parsed<RoomVertex>> {
    match Tr4.ParseVertexFloat(d, p)
    case None => None
    case Some(vertex) =>
    match Tr4.ParseVertexFloat(d, vertex.next)
    case None => None
    case Some(normal) =>
    match ParseBitU8(d, normal.next)
    case None => None
    case Some(blue) =>
    match ParseBitU8(d, blue.next)
    case None => None
    case Some(green) =>
    match ParseBitU8(d, green.next)
    case None => None
    case Some(red) =>
    match ParseBitU8(d, red.next)
    case None => None
    case Some(alpha) =>
    Some(Parsed(RoomVertex(vertex := vertex.value, normal := normal.value, colour := FColour(r := Quotient(red.value, 255), g := Quotient(green.value, 255), b := Quotient(blue.value, 255), a := Quotient(alpha.value, 255))), alpha.next))
  }

  /** Reading the fields in order decodes exactly the 28-byte layout. */
  lemma RoomVertexLayout(d: seq<byte>, p: nat)
    ensures RoomVertexFields(d, p) == ParseRoomVertex(d, p)
  {}

  method ReadRoomVertex(src: Cursor) returns (r: Result<RoomVertex>)
    requires src.Valid()
    modifies src
    ensures src.Valid() && Matches(r, ParseRoomVertex(src.data, old(src.pos)), src.pos)
  {
    RoomVertexLayout(src.data, src.pos);
    var vertex :- Tr4.ReadVertexFloat(src);
    var normal :- Tr4.ReadVertexFloat(src);
    var blue :- ReadBitU8(src);
    var green :- ReadBitU8(src);
    var red :- ReadBitU8(src);
    var alpha :- ReadBitU8(src);
    return Success(RoomVertex(vertex := vertex, normal := normal, colour := FColour(r := Quotient(red, 255), g := Quotient(green, 255), b := Quotient(blue, 255), a := Quotient(alpha, 255))));
  }

  // ---------------------------------------------------------------------
  // The room block: a 208-byte header, then the lists at its offsets

  /** The room under construction together with the header words that only
      locate its lists. */
  datatype Header = Header(room: Room, sector_data_offset: nat, static_meshes_offset: nat,
                           layer_offset: nat, vertices_offset: nat, poly_offset: nat,
                           vertices_size: nat)

  /** Room block bytes 0-20: a separator, the unused portal offset, the sector data offset, a separator that may be 0 and the static mesh offset. The room starts with both intensities at 32767, light mode 0 and no alternate room. */
  function HeaderStartAt(d: seq<byte>, p: nat): Header
    requires p + 20 <= |d|
  {
    Header(Room(intensity1 := 32767, intensity2 := 32767, light_mode := 0, alternate_room := 0), U32At(d, p + 8), U32At(d, p + 16), 0, 0, 0, 0)
  }

  function ParseHeaderStart(d: seq<byte>, p: nat): Option<Parsed<Header>> {
    if p + 20 <= |d| && U32At(d, p) == Fill && ZeroOrFill(U32At(d, p + 12)) then Some(Parsed(HeaderStartAt(d, p), p + 20)) else None
  }

  /** The fields of the record decoded one after the other, in the order the reader reads them. */
  function HeaderStartFields(d: seq<byte>, p: nat): Option<Parsed<Header>> {
    match ParseBitU32(d, p)
    case None => None
    case Some(separator1) =>
    if separator1.value != Fill then None else
    match ParseBit32(d, separator1.next)
    case None => None
    case Some(portalOffset) =>
    match ParseBitU32(d, portalOffset.next)
    case None => None
    case Some(sectorDataOffset) =>
    match ParseBitU32(d, sectorDataOffset.next)
    case None => None
    case Some(separator2) =>
    if !ZeroOrFill(separator2.value) then None else
    match ParseBitU32(d, separator2.next)
    case None => None
    case Some(staticMeshesOffset) =>
    Some(Parsed(Header(Room(intensity1 := 32767, intensity2 := 32767, light_mode := 0, alternate_room := 0), sectorDataOffset.value, staticMeshesOffset.value, 0, 0, 0, 0), staticMeshesOffset.next))
  }

  /** Reading the fields in order decodes exactly the 20-byte layout. */
  lemma HeaderStartLayout(d: seq<byte>, p: nat)
    ensures HeaderStartFields(d, p) == ParseHeaderStart(d, p)
  {}

  method ReadHeaderStart(src: Cursor) returns (r: Result<Header>)
    requires src.Valid()
    modifies src
    ensures src.Valid() && Matches(r, ParseHeaderStart(src.data, old(src.pos)), src.pos)
  {
    HeaderStartLayout(src.data, src.pos);
    var separator1 :- ReadBitU32(src);
    if separator1 != Fill {
      return Failure(ReadError(SeparatorError(1)));
    }
    var portalOffset :- ReadBit32(src);
    var sectorDataOffset :- ReadBitU32(src);
    var separator2 :- ReadBitU32(src);
    if !ZeroOrFill(separator2) {
      return Failure(ReadError(SeparatorError(2)));
    }
    var staticMeshesOffset :- ReadBitU32(src);
    return Success(Header(Room(intensity1 := 32767, intensity2 := 32767, light_mode := 0, alternate_room := 0), sectorDataOffset, staticMeshesOffset, 0, 0, 0, 0));
  }

  /** Room block bytes 32-48: the heights negated as bit32, the sector grid size and the ambient light colour as blue, green, red and alpha bytes over 255. */
  function HeaderExtentAt(d: seq<byte>, p: nat, h: Header): Header
    requires p + 16 <= |d|
  {
    h.(room := h.room.(y_bottom := FromInt(ToBit32(-S32At(d, p))), y_top := FromInt(ToBit32(-S32At(d, p + 4))), num_zsectors := U16At(d, p + 8), num_xsectors := U16At(d, p + 10), light_colour := FColour(r := Quotient(U8At(d, p + 14), 255), g := Quotient(U8At(d, p + 13), 255), b := Quotient(U8At(d, p + 12), 255), a := Quotient(U8At(d, p + 15), 255))))
  }

  function ParseHeaderExtent(d: seq<byte>, p: nat, h: Header): Option<Parsed<Header>> {
    if p + 16 <= |d| then Some(Parsed(HeaderExtentAt(d, p, h), p + 16)) else None
  }

  /** The fields of the record decoded one after the other, in the order the reader reads them. */
  function HeaderExtentFields(d: seq<byte>, p: nat, h: Header): Option<Parsed<Header>> {
    match ParseBit32(d, p)
    case None => None
    case Some(yBottom) =>
    match ParseBit32(d, yBottom.next)
    case None => None
    case Some(yTop) =>
    match ParseBitU16(d, yTop.next)
    case None => None
    case Some(nz) =>
    match ParseBitU16(d, nz.next)
    case None => None
    case Some(nx) =>
    match ParseBitU8(d, nx.next)
    case None => None
    case Some(blue) =>
    match ParseBitU8(d, blue.next)
    case None => None
    case Some(green) =>
    match ParseBitU8(d, green.next)
    case None => None
    case Some(red) =>
    match ParseBitU8(d, red.next)
    case None => None
    case Some(alpha) =>
    Some(Parsed(h.(room := h.room.(y_bottom := FromInt(ToBit32(-yBottom.value)), y_top := FromInt(ToBit32(-yTop.value)), num_zsectors := nz.value, num_xsectors := nx.value, light_colour := FColour(r := Quotient(red.value, 255), g := Quotient(green.value, 255), b := Quotient(blue.value, 255), a := Quotient(alpha.value, 255)))), alpha.next))
  }

  /** Reading the fields in order decodes exactly the 16-byte layout. */
  lemma HeaderExtentLayout(d: seq<byte>, p: nat, h: Header)
    ensures HeaderExtentFields(d, p, h) == ParseHeaderExtent(d, p, h)
  {}

  method ReadHeaderExtent(src: Cursor, h: Header) returns (r: Result<Header>)
    requires src.Valid()
    modifies src
    ensures src.Valid() && Matches(r, ParseHeaderExtent(src.data, old(src.pos), h), src.pos)
  {
    HeaderExtentLayout(src.data, src.pos, h);
    var yBottom :- ReadBit32(src);
    var yTop :- ReadBit32(src);
    var nz :- ReadBitU16(src);
    var nx :- ReadBitU16(src);
    var blue :- ReadBitU8(src);
    var green :- ReadBitU8(src);
    var red :- ReadBitU8(src);
    var alpha :- ReadBitU8(src);
    return Success(h.(room := h.room.(y_bottom := FromInt(ToBit32(-yBottom)), y_top := FromInt(ToBit32(-yTop)), num_zsectors := nz, num_xsectors := nx, light_colour := FColour(r := Quotient(red, 255), g := Quotient(green, 255), b := Quotient(blue, 255), a := Quotient(alpha, 255)))));
  }

  /** Room block bytes 48-76: the light and static mesh counts, at most 512 each, two spare words, two fillers 0x7FFF and three separators. */
  function HeaderCountsAt(d: seq<byte>, p: nat, h: Header): Header
    requires p + 28 <= |d|
  {
    h.(room := h.room.(num_lights := U16At(d, p), num_static_meshes := U16At(d, p + 2), unknown_r1 := U16At(d, p + 4), unknown_r2 := U16At(d, p + 6)))
  }

  function ParseHeaderCounts(d: seq<byte>, p: nat, h: Header): Option<Parsed<Header>> {
    if p + 28 <= |d| && U16At(d, p) <= 512 && U16At(d, p + 2) <= 512 && U32At(d, p + 8) == 0x7FFF && U32At(d, p + 12) == 0x7FFF && U32At(d, p + 16) == Fill && U32At(d, p + 20) == Fill && U32At(d, p + 24) == 0xFFFFFFFF then Some(Parsed(HeaderCountsAt(d, p, h), p + 28)) else None
  }

  /** The fields of the record decoded one after the other, in the order the reader reads them. */
  function HeaderCountsFields(d: seq<byte>, p: nat, h: Header): Option<Parsed<Header>> {
    match ParseBitU16(d, p)
    case None => None
    case Some(numLights) =>
    if numLights.value > 512 then None else
    match ParseBitU16(d, numLights.next)
    case None => None
    case Some(numStaticMeshes) =>
    if numStaticMeshes.value > 512 then None else
    match ParseBitU16(d, numStaticMeshes.next)
    case None => None
    case Some(r1) =>
    match ParseBitU16(d, r1.next)
    case None => None
    case Some(r2) =>
    match ParseBitU32(d, r2.next)
    case None => None
    case Some(filler1) =>
    if filler1.value != 0x7FFF then None else
    match ParseBitU32(d, filler1.next)
    case None => None
    case Some(filler2) =>
    if filler2.value != 0x7FFF then None else
    match ParseBitU32(d, filler2.next)
    case None => None
    case Some(separator4) =>
    if separator4.value != Fill then None else
    match ParseBitU32(d, separator4.next)
    case None => None
    case Some(separator5) =>
    if separator5.value != Fill then None else
    match ParseBitU32(d, separator5.next)
    case None => None
    case Some(separator6) =>
    if separator6.value != 0xFFFFFFFF then None else
    Some(Parsed(h.(room := h.room.(num_lights := numLights.value, num_static_meshes := numStaticMeshes.value, unknown_r1 := r1.value, unknown_r2 := r2.value)), separator6.next))
  }

  /** Reading the fields in order decodes exactly the 28-byte layout. */
  lemma HeaderCountsLayout(d: seq<byte>, p: nat, h: Header)
    ensures HeaderCountsFields(d, p, h) == ParseHeaderCounts(d, p, h)
  {}

  method ReadHeaderCounts(src: Cursor, h: Header) returns (r: Result<Header>)
    requires src.Valid()
    modifies src
    ensures src.Valid() && Matches(r, ParseHeaderCounts(src.data, old(src.pos), h), src.pos)
  {
    HeaderCountsLayout(src.data, src.pos, h);
    var numLights :- ReadBitU16(src);
    if numLights > 512 {
      return Failure(ReadError(NumLightsError));
    }
    var numStaticMeshes :- ReadBitU16(src);
    if numStaticMeshes > 512 {
      return Failure(ReadError(NumStaticMeshesError));
    }
    var r1 :- ReadBitU16(src);
    var r2 :- ReadBitU16(src);
    var filler1 :- ReadBitU32(src);
    if filler1 != 0x7FFF {
      return Failure(ReadError(Filler1Error));
    }
    var filler2 :- ReadBitU32(src);
    if filler2 != 0x7FFF {
      return Failure(ReadError(Filler2Error));
    }
    var separator4 :- ReadBitU32(src);
    if separator4 != Fill {
      return Failure(ReadError(SeparatorError(4)));
    }
    var separator5 :- ReadBitU32(src);
    if separator5 != Fill {
      return Failure(ReadError(SeparatorError(5)));
    }
    var separator6 :- ReadBitU32(src);
    if separator6 != 0xFFFFFFFF {
      return Failure(ReadError(SeparatorError(6)));
    }
    return Success(h.(room := h.room.(num_lights := numLights, num_static_meshes := numStaticMeshes, unknown_r1 := r1, unknown_r2 := r2)));
  }

  /** Room block bytes 76-96: a bit16 spare word, the flags, three spare words and a separator that may be 0. */
  function HeaderFlagsAt(d: seq<byte>, p: nat, h: Header): Header
    requires p + 20 <= |d|
  {
    h.(room := h.room.(unknown_r3 := S16At(d, p), flags := U16At(d, p + 2), unknown_r4 := U32At(d, p + 4), unknown_r5 := U32At(d, p + 8), unknown_r6 := U32At(d, p + 12)))
  }

  function ParseHeaderFlags(d: seq<byte>, p: nat, h: Header): Option<Parsed<Header>> {
    if p + 20 <= |d| && ZeroOrFill(U32At(d, p + 16)) then Some(Parsed(HeaderFlagsAt(d, p, h), p + 20)) else None
  }

  /** The fields of the record decoded one after the other, in the order the reader reads them. */
  function HeaderFlagsFields(d: seq<byte>, p: nat, h: Header): Option<Parsed<Header>> {
    match ParseBit16(d, p)
    case None => None
    case Some(r3) =>
    match ParseBitU16(d, r3.next)
    case None => None
    case Some(flags) =>
    match ParseBitU32(d, flags.next)
    case None => None
    case Some(r4) =>
    match ParseBitU32(d, r4.next)
    case None => None
    case Some(r5) =>
    match ParseBitU32(d, r5.next)
    case None => None
    case Some(r6) =>
    match ParseBitU32(d, r6.next)
    case None => None
    case Some(separator7) =>
    if !ZeroOrFill(separator7.value) then None else
    Some(Parsed(h.(room := h.room.(unknown_r3 := r3.value, flags := flags.value, unknown_r4 := r4.value, unknown_r5 := r5.value, unknown_r6 := r6.value)), separator7.next))
  }

  /** Reading the fields in order decodes exactly the 20-byte layout. */
  lemma HeaderFlagsLayout(d: seq<byte>, p: nat, h: Header)
    ensures HeaderFlagsFields(d, p, h) == ParseHeaderFlags(d, p, h)
  {}

  method ReadHeaderFlags(src: Cursor, h: Header) returns (r: Result<Header>)
    requires src.Valid()
    modifies src
    ensures src.Valid() && Matches(r, ParseHeaderFlags(src.data, old(src.pos), h), src.pos)
  {
    HeaderFlagsLayout(src.data, src.pos, h);
    var r3 :- ReadBit16(src);
    var flags :- ReadBitU16(src);
    var r4 :- ReadBitU32(src);
    var r5 :- ReadBitU32(src);
    var r6 :- ReadBitU32(src);
    var separator7 :- ReadBitU32(src);
    if !ZeroOrFill(separator7) {
      return Failure(ReadError(SeparatorError(7)));
    }
    return Success(h.(room := h.room.(unknown_r3 := r3, flags := flags, unknown_r4 := r4, unknown_r5 := r5, unknown_r6 := r6)));
  }

  /** Room block bytes 96-112: two spare words, the float x of the room, a spare word and the float z, negated. */
  function HeaderPositionAt(d: seq<byte>, p: nat, h: Header): Header
    requires p + 16 <= |d|
  {
    h.(room := h.room.(unknown_r7a := U16At(d, p), unknown_r7b := U16At(d, p + 2), room_x := F32At(d, p + 4), unknown_r8 := U32At(d, p + 8), room_z := NegBits(U32At(d, p + 12))))
  }

  function ParseHeaderPosition(d: seq<byte>, p: nat, h: Header): Option<Parsed<Header>> {
    if p + 16 <= |d| then Some(Parsed(HeaderPositionAt(d, p, h), p + 16)) else None
  }

  /** The fields of the record decoded one after the other, in the order the reader reads them. */
  function HeaderPositionFields(d: seq<byte>, p: nat, h: Header): Option<Parsed<Header>> {
    match ParseBitU16(d, p)
    case None => None
    case Some(r7a) =>
    match ParseBitU16(d, r7a.next)
    case None => None
    case Some(r7b) =>
    match ParseFloat(d, r7b.next)
    case None => None
    case Some(roomX) =>
    match ParseBitU32(d, roomX.next)
    case None => None
    case Some(r8) =>
    match ParseFloat(d, r8.next)
    case None => None
    case Some(roomZ) =>
    Some(Parsed(h.(room := h.room.(unknown_r7a := r7a.value, unknown_r7b := r7b.value, room_x := roomX.value, unknown_r8 := r8.value, room_z := NegBits(roomZ.value.pattern))), roomZ.next))
  }

  /** Reading the fields in order decodes exactly the 16-byte layout. */
  lemma HeaderPositionLayout(d: seq<byte>, p: nat, h: Header)
    ensures HeaderPositionFields(d, p, h) == ParseHeaderPosition(d, p, h)
  {}

  method ReadHeaderPosition(src: Cursor, h: Header) returns (r: Result<Header>)
    requires src.Valid()
    modifies src
    ensures src.Valid() && Matches(r, ParseHeaderPosition(src.data, old(src.pos), h), src.pos)
  {
    HeaderPositionLayout(src.data, src.pos, h);
    var r7a :- ReadBitU16(src);
    var r7b :- ReadBitU16(src);
    var roomX :- ReadFloat(src);
    var r8 :- ReadBitU32(src);
    var roomZ :- ReadFloat(src);
    return Success(h.(room := h.room.(unknown_r7a := r7a, unknown_r7b := r7b, room_x := roomX, unknown_r8 := r8, room_z := NegBits(roomZ.pattern))));
  }

  /** Room block bytes 112-148: six separators (the fifth may be 0), the triangle count (at most 512) and the rectangle count (at most 1024), where the fill word counts as 0, and a separator 0. */
  function HeaderFacesAt(d: seq<byte>, p: nat, h: Header): Header
    requires p + 36 <= |d|
  {
    h.(room := h.room.(num_triangles := Unset(U32At(d, p + 24)), num_rectangles := Unset(U32At(d, p + 28))))
  }

  function ParseHeaderFaces(d: seq<byte>, p: nat, h: Header): Option<Parsed<Header>> {
    if p + 36 <= |d| && U32At(d, p) == Fill && U32At(d, p + 4) == Fill && U32At(d, p + 8) == Fill && U32At(d, p + 12) == Fill && ZeroOrFill(U32At(d, p + 16)) && U32At(d, p + 20) == Fill && Unset(U32At(d, p + 24)) <= 512 && Unset(U32At(d, p + 28)) <= 1024 && U32At(d, p + 32) == 0 then Some(Parsed(HeaderFacesAt(d, p, h), p + 36)) else None
  }

  /** The fields of the record decoded one after the other, in the order the reader reads them. */
  function HeaderFacesFields(d: seq<byte>, p: nat, h: Header): Option<Parsed<Header>> {
    match ParseBitU32(d, p)
    case None => None
    case Some(separator8) =>
    if separator8.value != Fill then None else
    match ParseBitU32(d, separator8.next)
    case None => None
    case Some(separator9) =>
    if separator9.value != Fill then None else
    match ParseBitU32(d, separator9.next)
    case None => None
    case Some(separator10) =>
    if separator10.value != Fill then None else
    match ParseBitU32(d, separator10.next)
    case None => None
    case Some(separator11) =>
    if separator11.value != Fill then None else
    match ParseBitU32(d, separator11.next)
    case None => None
    case Some(separator12) =>
    if !ZeroOrFill(separator12.value) then None else
    match ParseBitU32(d, separator12.next)
    case None => None
    case Some(separator13) =>
    if separator13.value != Fill then None else
    match ParseBitU32(d, separator13.next)
    case None => None
    case Some(numTriangles) =>
    if Unset(numTriangles.value) > 512 then None else
    match ParseBitU32(d, numTriangles.next)
    case None => None
    case Some(numRectangles) =>
    if Unset(numRectangles.value) > 1024 then None else
    match ParseBitU32(d, numRectangles.next)
    case None => None
    case Some(separator14) =>
    if separator14.value != 0 then None else
    Some(Parsed(h.(room := h.room.(num_triangles := Unset(numTriangles.value), num_rectangles := Unset(numRectangles.value))), separator14.next))
  }

  /** Reading the fields in order decodes exactly the 36-byte layout. */
  lemma HeaderFacesLayout(d: seq<byte>, p: nat, h: Header)
    ensures HeaderFacesFields(d, p, h) == ParseHeaderFaces(d, p, h)
  {}

  method ReadHeaderFaces(src: Cursor, h: Header) returns (r: Result<Header>)
    requires src.Valid()
    modifies src
    ensures src.Valid() && Matches(r, ParseHeaderFaces(src.data, old(src.pos), h), src.pos)
  {
    HeaderFacesLayout(src.data, src.pos, h);
    var separator8 :- ReadBitU32(src);
    if separator8 != Fill {
      return Failure(ReadError(SeparatorError(8)));
    }
    var separator9 :- ReadBitU32(src);
    if separator9 != Fill {
      return Failure(ReadError(SeparatorError(9)));
    }
    var separator10 :- ReadBitU32(src);
    if separator10 != Fill {
      return Failure(ReadError(SeparatorError(10)));
    }
    var separator11 :- ReadBitU32(src);
    if separator11 != Fill {
      return Failure(ReadError(SeparatorError(11)));
    }
    var separator12 :- ReadBitU32(src);
    if !ZeroOrFill(separator12) {
      return Failure(ReadError(SeparatorError(12)));
    }
    var separator13 :- ReadBitU32(src);
    if separator13 != Fill {
      return Failure(ReadError(SeparatorError(13)));
    }
    var numTriangles :- ReadBitU32(src);
    if Unset(numTriangles) > 512 {
      return Failure(ReadError(NumTrianglesError));
    }
    var numRectangles :- ReadBitU32(src);
    if Unset(numRectangles) > 1024 {
      return Failure(ReadError(NumRectanglesError));
    }
    var separator14 :- ReadBitU32(src);
    if separator14 != 0 {
      return Failure(ReadError(SeparatorError(14)));
    }
    return Success(h.(room := h.room.(num_triangles := Unset(numTriangles), num_rectangles := Unset(numRectangles))));
  }

  /** Room block bytes 148-172: the unused light size, a second light count that must equal the first, a spare word, the float heights of the room negated and the layer count. */
  function HeaderLayersAt(d: seq<byte>, p: nat, h: Header): Header
    requires p + 24 <= |d|
  {
    h.(room := h.room.(unknown_r9 := U32At(d, p + 8), room_y_top := NegBits(U32At(d, p + 12)), room_y_bottom := NegBits(U32At(d, p + 16)), num_layers := U32At(d, p + 20)))
  }

  function ParseHeaderLayers(d: seq<byte>, p: nat, h: Header): Option<Parsed<Header>> {
    if p + 24 <= |d| && U32At(d, p + 4) == h.room.num_lights then Some(Parsed(HeaderLayersAt(d, p, h), p + 24)) else None
  }

  /** The fields of the record decoded one after the other, in the order the reader reads them. */
  function HeaderLayersFields(d: seq<byte>, p: nat, h: Header): Option<Parsed<Header>> {
    match ParseBitU32(d, p)
    case None => None
    case Some(lightSize) =>
    match ParseBitU32(d, lightSize.next)
    case None => None
    case Some(numLights2) =>
    if numLights2.value != h.room.num_lights then None else
    match ParseBitU32(d, numLights2.next)
    case None => None
    case Some(r9) =>
    match ParseFloat(d, r9.next)
    case None => None
    case Some(roomYTop) =>
    match ParseFloat(d, roomYTop.next)
    case None => None
    case Some(roomYBottom) =>
    match ParseBitU32(d, roomYBottom.next)
    case None => None
    case Some(numLayers) =>
    Some(Parsed(h.(room := h.room.(unknown_r9 := r9.value, room_y_top := NegBits(roomYTop.value.pattern), room_y_bottom := NegBits(roomYBottom.value.pattern), num_layers := numLayers.value)), numLayers.next))
  }

  /** Reading the fields in order decodes exactly the 24-byte layout. */
  lemma HeaderLayersLayout(d: seq<byte>, p: nat, h: Header)
    ensures HeaderLayersFields(d, p, h) == ParseHeaderLayers(d, p, h)
  {}

  method ReadHeaderLayers(src: Cursor, h: Header) returns (r: Result<Header>)
    requires src.Valid()
    modifies src
    ensures src.Valid() && Matches(r, ParseHeaderLayers(src.data, old(src.pos), h), src.pos)
  {
    HeaderLayersLayout(src.data, src.pos, h);
    var lightSize :- ReadBitU32(src);
    var numLights2 :- ReadBitU32(src);
    if numLights2 != h.room.num_lights {
      return Failure(ReadError(NumLights2Error));
    }
    var r9 :- ReadBitU32(src);
    var roomYTop :- ReadFloat(src);
    var roomYBottom :- ReadFloat(src);
    var numLayers :- ReadBitU32(src);
    return Success(h.(room := h.room.(unknown_r9 := r9, room_y_top := NegBits(roomYTop.pattern), room_y_bottom := NegBits(roomYBottom.pattern), num_layers := numLayers)));
  }

  /** Room block bytes 172-192: the layer, vertex and polygon offsets, the polygon offset again, and the size of the vertices, a multiple of 28. */
  function HeaderOffsetsAt(d: seq<byte>, p: nat, h: Header): Header
    requires p + 20 <= |d|
  {
    h.(layer_offset := U32At(d, p), vertices_offset := U32At(d, p + 4), poly_offset := U32At(d, p + 8), vertices_size := U32At(d, p + 16))
  }

  function ParseHeaderOffsets(d: seq<byte>, p: nat, h: Header): Option<Parsed<Header>> {
    if p + 20 <= |d| && U32At(d, p + 8) == U32At(d, p + 12) && U32At(d, p + 16) % 28 == 0 then Some(Parsed(HeaderOffsetsAt(d, p, h), p + 20)) else None
  }

  /** The fields of the record decoded one after the other, in the order the reader reads them. */
  function HeaderOffsetsFields(d: seq<byte>, p: nat, h: Header): Option<Parsed<Header>> {
    match ParseBitU32(d, p)
    case None => None
    case Some(layerOffset) =>
    match ParseBitU32(d, layerOffset.next)
    case None => None
    case Some(verticesOffset) =>
    match ParseBitU32(d, verticesOffset.next)
    case None => None
    case Some(polyOffset) =>
    match ParseBitU32(d, polyOffset.next)
    case None => None
    case Some(polyOffset2) =>
    if polyOffset.value != polyOffset2.value then None else
    match ParseBitU32(d, polyOffset2.next)
    case None => None
    case Some(verticesSize) =>
    if verticesSize.value % 28 != 0 then None else
    Some(Parsed(h.(layer_offset := layerOffset.value, vertices_offset := verticesOffset.value, poly_offset := polyOffset.value, vertices_size := verticesSize.value), verticesSize.next))
  }

  /** Reading the fields in order decodes exactly the 20-byte layout. */
  lemma HeaderOffsetsLayout(d: seq<byte>, p: nat, h: Header)
    ensures HeaderOffsetsFields(d, p, h) == ParseHeaderOffsets(d, p, h)
  {}

  method ReadHeaderOffsets(src: Cursor, h: Header) returns (r: Result<Header>)
    requires src.Valid()
    modifies src
    ensures src.Valid() && Matches(r, ParseHeaderOffsets(src.data, old(src.pos), h), src.pos)
  {
    HeaderOffsetsLayout(src.data, src.pos, h);
    var layerOffset :- ReadBitU32(src);
    var verticesOffset :- ReadBitU32(src);
    var polyOffset :- ReadBitU32(src);
    var polyOffset2 :- ReadBitU32(src);
    if polyOffset != polyOffset2 {
      return Failure(ReadError(PolyOffsetError));
    }
    var verticesSize :- ReadBitU32(src);
    if verticesSize % 28 != 0 {
      return Failure(ReadError(VerticesSizeError));
    }
    return Success(h.(layer_offset := layerOffset, vertices_offset := verticesOffset, poly_offset := polyOffset, vertices_size := verticesSize));
  }

  /** Room block bytes 192-208: four separators. */
  function HeaderTrailerAt(d: seq<byte>, p: nat, h: Header): Header
    requires p + 16 <= |d|
  {
    h
  }

  function ParseHeaderTrailer(d: seq<byte>, p: nat, h: Header): Option<Parsed<Header>> {
    if p + 16 <= |d| && U32At(d, p) == Fill && U32At(d, p + 4) == Fill && U32At(d, p + 8) == Fill && U32At(d, p + 12) == Fill then Some(Parsed(HeaderTrailerAt(d, p, h), p + 16)) else None
  }

  /** The fields of the record decoded one after the other, in the order the reader reads them. */
  function HeaderTrailerFields(d: seq<byte>, p: nat, h: Header): Option<Parsed<Header>> {
    match ParseBitU32(d, p)
    case None => None
    case Some(separator15) =>
    if separator15.value != Fill then None else
    match ParseBitU32(d, separator15.next)
    case None => None
    case Some(separator16) =>
    if separator16.value != Fill then None else
    match ParseBitU32(d, separator16.next)
    case None => None
    case Some(separator17) =>
    if separator17.value != Fill then None else
    match ParseBitU32(d, separator17.next)
    case None => None
    case Some(separator18) =>
    if separator18.value != Fill then None else
    Some(Parsed(h, separator18.next))
  }

  /** Reading the fields in order decodes exactly the 16-byte layout. */
  lemma HeaderTrailerLayout(d: seq<byte>, p: nat, h: Header)
    ensures HeaderTrailerFields(d, p, h) == ParseHeaderTrailer(d, p, h)
  {}

  method ReadHeaderTrailer(src: Cursor, h: Header) returns (r: Result<Header>)
    requires src.Valid()
    modifies src
    ensures src.Valid() && Matches(r, ParseHeaderTrailer(src.data, old(src.pos), h), src.pos)
  {
    HeaderTrailerLayout(src.data, src.pos, h);
    var separator15 :- ReadBitU32(src);
    if separator15 != Fill {
      return Failure(ReadError(SeparatorError(15)));
    }
    var separator16 :- ReadBitU32(src);
    if separator16 != Fill {
      return Failure(ReadError(SeparatorError(16)));
    }
    var separator17 :- ReadBitU32(src);
    if separator17 != Fill {
      return Failure(ReadError(SeparatorError(17)));
    }
    var separator18 :- ReadBitU32(src);
    if separator18 != Fill {
      return Failure(ReadError(SeparatorError(18)));
    }
    return Success(h);
  }

  /** Room block bytes 32-208, after the room's position: the header stages
      in order. It keeps what the first stage set, and every count it
      accepts is within the bounds the reader enforces. */
  function ParseHeaderRest(d: seq<byte>, p: nat, h: Header): (r: Option<Parsed<Header>>)
    ensures r.Some? ==> r.value.next == p + 176
    ensures r.Some? ==> var room := r.value.value.room;
      room.num_lights <= 512 && room.num_static_meshes <= 512 &&
      room.num_triangles <= 512 && room.num_rectangles <= 1024 &&
      r.value.value.vertices_size % 28 == 0 &&
      room.offset == h.room.offset && room.intensity1 == h.room.intensity1 &&
      room.intensity2 == h.room.intensity2 && room.light_mode == h.room.light_mode &&
      room.alternate_room == h.room.alternate_room &&
      r.value.value.sector_data_offset == h.sector_data_offset &&
      r.value.value.static_meshes_offset == h.static_meshes_offset
  {
    match ParseHeaderExtent(d, p, h)
    case None => None
    case Some(e) =>
    match ParseHeaderCounts(d, e.next, e.value)
    case None => None
    case Some(c) =>
    match ParseHeaderFlags(d, c.next, c.value)
    case None => None
    case Some(f) =>
    match ParseHeaderPosition(d, f.next, f.value)
    case None => None
    case Some(x) =>
    match ParseHeaderFaces(d, x.next, x.value)
    case None => None
    case Some(t) =>
    match ParseHeaderLayers(d, t.next, t.value)
    case None => None
    case Some(l) =>
    match ParseHeaderOffsets(d, l.next, l.value)
    case None => None
    case Some(o) =>
    ParseHeaderTrailer(d, o.next, o.value)
  }

  method ReadHeaderRest(src: Cursor, h: Header) returns (r: Result<Header>)
    requires src.Valid()
    modifies src
    ensures src.Valid() && Matches(r, ParseHeaderRest(src.data, old(src.pos), h), src.pos)
  {
    var e :- ReadHeaderExtent(src, h);
    var c :- ReadHeaderCounts(src, e);
    var f :- ReadHeaderFlags(src, c);
    var x :- ReadHeaderPosition(src, f);
    var t :- ReadHeaderFaces(src, x);
    var l :- ReadHeaderLayers(src, t);
    var o :- ReadHeaderOffsets(src, l);
    r := ReadHeaderTrailer(src, o);
  }

  // ---------------------------------------------------------------------
  // Faces and vertices, stored layer by layer

  /** The faces of a room as the reader fills them: the rectangles and
      triangles resized to the header's counts, the next slot of each, and
      the index of the first vertex of the current layer. */
  datatype Faces = Faces(rectangles: seq<Face4>, triangles: seq<Face3>,
                         rect_index: nat, tri_index: nat, vertex_index: nat)

  /** The faces before the first layer: value-initialised slots, every index 0. */
  function EmptyFaces(numRectangles: nat, numTriangles: nat): Faces {
    Faces(seq(numRectangles, _ => Face4()), seq(numTriangles, _ => Face3()), 0, 0, 0)
  }

  /** Vertex indices moved by the first vertex of their layer; `+=` on a
      bitu16 wraps. */
  function Shift(vertices: seq<int>, base: int): (r: seq<int>)
    ensures |r| == |vertices|
    ensures forall k | 0 <= k < |r| :: r[k] == Wrap16(vertices[k] + base)
  {
    seq(|vertices|, k requires 0 <= k < |vertices| => Wrap16(vertices[k] + base))
  }

  function ShiftFace4(f: Face4, base: int): Face4 { f.(vertices := Shift(f.vertices, base)) }

  function ShiftFace3(f: Face3, base: int): Face3 { f.(vertices := Shift(f.vertices, base)) }

  /** The `n` rectangles of one layer: each slot is indexed (and bounds
      checked) before its face is read, then the face is stored with its
      vertices shifted. */
  function FillRectangles(d: seq<byte>, p: nat, n: nat, f: Faces): Option<Parsed<Faces>>
    decreases n
  {
    if n == 0 then Some(Parsed(f, p))
    else if f.rect_index >= |f.rectangles| then None
    else
      match Tr4.ParseFace4(d, p)
      case None => None
      case Some(x) =>
      FillRectangles(d, x.next, n - 1,
                     f.(rectangles := f.rectangles[f.rect_index := ShiftFace4(x.value, f.vertex_index)],
                        rect_index := f.rect_index + 1))
  }

  /** The `n` triangles of one layer, as the rectangles. */
  function FillTriangles(d: seq<byte>, p: nat, n: nat, f: Faces): Option<Parsed<Faces>>
    decreases n
  {
    if n == 0 then Some(Parsed(f, p))
    else if f.tri_index >= |f.triangles| then None
    else
      match Tr4.ParseFace3(d, p)
      case None => None
      case Some(x) =>
      FillTriangles(d, x.next, n - 1,
                    f.(triangles := f.triangles[f.tri_index := ShiftFace3(x.value, f.vertex_index)],
                       tri_index := f.tri_index + 1))
  }

  /** Filling `n` rectangles succeeds exactly when they fit both the slots
      left and the data; it consumes 12 bytes each, stores the k-th face of
      the data in slot rect_index + k with its vertices shifted, and touches
      no other slot and nothing else. */
  lemma {:induction false} FillRectanglesResult(d: seq<byte>, p: nat, n: nat, f: Faces)
    requires p <= |d| && f.rect_index <= |f.rectangles|
    ensures FillRectangles(d, p, n, f).Some? <==> f.rect_index + n <= |f.rectangles| && p + 12 * n <= |d|
    ensures FillRectangles(d, p, n, f).Some? ==>
      var g := FillRectangles(d, p, n, f).value;
      g.next == p + 12 * n &&
      g.value == f.(rectangles := g.value.rectangles, rect_index := f.rect_index + n) &&
      |g.value.rectangles| == |f.rectangles| &&
      (forall k | 0 <= k < |f.rectangles| && !(f.rect_index <= k < f.rect_index + n) ::
         g.value.rectangles[k] == f.rectangles[k]) &&
      (forall k | f.rect_index <= k < f.rect_index + n ::
         p + 12 * (k - f.rect_index) + 12 <= |d| &&
         g.value.rectangles[k] == ShiftFace4(Tr4.Face4At(d, p + 12 * (k - f.rect_index)), f.vertex_index))
    decreases n
  {
    if n == 0 {
    } else if f.rect_index >= |f.rectangles| {
    } else if p + 12 > |d| {
      assert Tr4.ParseFace4(d, p).None?;
    } else {
      var x := Tr4.Face4At(d, p);
      var f' := f.(rectangles := f.rectangles[f.rect_index := ShiftFace4(x, f.vertex_index)],
                   rect_index := f.rect_index + 1);
      assert FillRectangles(d, p, n, f) == FillRectangles(d, p + 12, n - 1, f');
      FillRectanglesResult(d, p + 12, n - 1, f');
      if FillRectangles(d, p, n, f).Some? {
        var g := FillRectangles(d, p, n, f).value;
        forall k | f.rect_index < k < f.rect_index + n
          ensures p + 12 * (k - f.rect_index) + 12 <= |d|
          ensures g.value.rectangles[k] == ShiftFace4(Tr4.Face4At(d, p + 12 * (k - f.rect_index)), f.vertex_index)
        {
          assert p + 12 + 12 * (k - f'.rect_index) == p + 12 * (k - f.rect_index);
        }
      }
    }
  }

  /** The triangles, as the rectangles with 10-byte faces. */
  lemma {:induction false} FillTrianglesResult(d: seq<byte>, p: nat, n: nat, f: Faces)
    requires p <= |d| && f.tri_index <= |f.triangles|
    ensures FillTriangles(d, p, n, f).Some? <==> f.tri_index + n <= |f.triangles| && p + 10 * n <= |d|
    ensures FillTriangles(d, p, n, f).Some? ==>
      var g := FillTriangles(d, p, n, f).value;
      g.next == p + 10 * n &&
      g.value == f.(triangles := g.value.triangles, tri_index := f.tri_index + n) &&
      |g.value.triangles| == |f.triangles| &&
      (forall k | 0 <= k < |f.triangles| && !(f.tri_index <= k < f.tri_index + n) ::
         g.value.triangles[k] == f.triangles[k]) &&
      (forall k | f.tri_index <= k < f.tri_index + n ::
         p + 10 * (k - f.tri_index) + 10 <= |d| &&
         g.value.triangles[k] == ShiftFace3(Tr4.Face3At(d, p + 10 * (k - f.tri_index)), f.vertex_index))
    decreases n
  {
    if n == 0 {
    } else if f.tri_index >= |f.triangles| {
    } else if p + 10 > |d| {
      assert Tr4.ParseFace3(d, p).None?;
    } else {
      var x := Tr4.Face3At(d, p);
      var f' := f.(triangles := f.triangles[f.tri_index := ShiftFace3(x, f.vertex_index)],
                   tri_index := f.tri_index + 1);
      assert FillTriangles(d, p, n, f) == FillTriangles(d, p + 10, n - 1, f');
      FillTrianglesResult(d, p + 10, n - 1, f');
      if FillTriangles(d, p, n, f).Some? {
        var g := FillTriangles(d, p, n, f).value;
        forall k | f.tri_index < k < f.tri_index + n
          ensures p + 10 * (k - f.tri_index) + 10 <= |d|
          ensures g.value.triangles[k] == ShiftFace3(Tr4.Face3At(d, p + 10 * (k - f.tri_index)), f.vertex_index)
        {
          assert p + 10 + 10 * (k - f'.tri_index) == p + 10 * (k - f.tri_index);
        }
      }
    }
  }

  /** The rectangles, then the triangles, of the layers from the i-th on;
      after each layer the first vertex index moves past its vertices,
      wrapping as a bitu32. */
  function FillLayers(d: seq<byte>, p: nat, layers: seq<Layer>, i: nat, f: Faces): Option<Parsed<Faces>>
    requires i <= |layers|
    decreases |layers| - i
  {
    if i == |layers| then Some(Parsed(f, p))
    else
      match FillRectangles(d, p, layers[i].num_rectangles, f)
      case None => None
      case Some(rs) =>
      match FillTriangles(d, rs.next, layers[i].num_triangles, rs.value)
      case None => None
      case Some(ts) =>
      FillLayers(d, ts.next, layers, i + 1, ts.value.(vertex_index := Wrap32(ts.value.vertex_index + layers[i].num_vertices)))
  }

  /** The rectangles the layers from the i-th on declare. */
  function RectanglesFrom(layers: seq<Layer>, i: nat): nat
    requires i <= |layers|
    decreases |layers| - i
  {
    if i == |layers| then 0 else layers[i].num_rectangles + RectanglesFrom(layers, i + 1)
  }

  function TrianglesFrom(layers: seq<Layer>, i: nat): nat
    requires i <= |layers|
    decreases |layers| - i
  {
    if i == |layers| then 0 else layers[i].num_triangles + TrianglesFrom(layers, i + 1)
  }

  function VerticesFrom(layers: seq<Layer>, i: nat): nat
    requires i <= |layers|
    decreases |layers| - i
  {
    if i == |layers| then 0 else layers[i].num_vertices + VerticesFrom(layers, i + 1)
  }

  /** The faces of all the layers are stored exactly when the faces the
      layers declare fit the slots the header's counts provide and the data;
      the lists keep their sizes and every declared face takes one slot. */
  lemma {:induction false} FillLayersResult(d: seq<byte>, p: nat, layers: seq<Layer>, i: nat, f: Faces)
    requires i <= |layers|
    requires p <= |d| && f.rect_index <= |f.rectangles| && f.tri_index <= |f.triangles|
    ensures FillLayers(d, p, layers, i, f).Some? <==>
      f.rect_index + RectanglesFrom(layers, i) <= |f.rectangles| &&
      f.tri_index + TrianglesFrom(layers, i) <= |f.triangles| &&
      p + 12 * RectanglesFrom(layers, i) + 10 * TrianglesFrom(layers, i) <= |d|
    ensures FillLayers(d, p, layers, i, f).Some? ==>
      var g := FillLayers(d, p, layers, i, f).value;
      g.next == p + 12 * RectanglesFrom(layers, i) + 10 * TrianglesFrom(layers, i) &&
      |g.value.rectangles| == |f.rectangles| && |g.value.triangles| == |f.triangles| &&
      g.value.rect_index == f.rect_index + RectanglesFrom(layers, i) &&
      g.value.tri_index == f.tri_index + TrianglesFrom(layers, i)
    decreases |layers| - i
  {
    if i < |layers| {
      var nr, nt := layers[i].num_rectangles, layers[i].num_triangles;
      FillRectanglesResult(d, p, nr, f);
      var rs := FillRectangles(d, p, nr, f);
      if rs.Some? {
        FillTrianglesResult(d, rs.value.next, nt, rs.value.value);
        var ts := FillTriangles(d, rs.value.next, nt, rs.value.value);
        if ts.Some? {
          var f' := ts.value.value.(vertex_index := Wrap32(ts.value.value.vertex_index + layers[i].num_vertices));
          FillLayersResult(d, ts.value.next, layers, i + 1, f');
        }
      }
    }
  }

  method ReadRectangles(src: Cursor, n: nat, f: Faces) returns (r: Result<Faces>)
    requires src.Valid()
    modifies src
    ensures src.Valid() && Matches(r, FillRectangles(src.data, old(src.pos), n, f), src.pos)
  {
    var g := f;
    var j := 0;
    while j < n
      invariant src.Valid() && j <= n
      invariant FillRectangles(src.data, old(src.pos), n, f) == FillRectangles(src.data, src.pos, n - j, g)
    {
      if g.rect_index >= |g.rectangles| {
        return Failure(ArrayError(Prtl.OutOfBounds));
      }
      var x :- Tr4.ReadFace4(src);
      g := g.(rectangles := g.rectangles[g.rect_index := ShiftFace4(x, g.vertex_index)],
              rect_index := g.rect_index + 1);
      j := j + 1;
    }
    return Success(g);
  }

  method ReadTriangles(src: Cursor, n: nat, f: Faces) returns (r: Result<Faces>)
    requires src.Valid()
    modifies src
    ensures src.Valid() && Matches(r, FillTriangles(src.data, old(src.pos), n, f), src.pos)
  {
    var g := f;
    var j := 0;
    while j < n
      invariant src.Valid() && j <= n
      invariant FillTriangles(src.data, old(src.pos), n, f) == FillTriangles(src.data, src.pos, n - j, g)
    {
      if g.tri_index >= |g.triangles| {
        return Failure(ArrayError(Prtl.OutOfBounds));
      }
      var x :- Tr4.ReadFace3(src);
      g := g.(triangles := g.triangles[g.tri_index := ShiftFace3(x, g.vertex_index)],
              tri_index := g.tri_index + 1);
      j := j + 1;
    }
    return Success(g);
  }

  method ReadLayerFaces(src: Cursor, layers: seq<Layer>, f: Faces) returns (r: Result<Faces>)
    requires src.Valid()
    modifies src
    ensures src.Valid() && Matches(r, FillLayers(src.data, old(src.pos), layers, 0, f), src.pos)
  {
    var g := f;
    var i := 0;
    while i < |layers|
      invariant src.Valid() && i <= |layers|
      invariant FillLayers(src.data, old(src.pos), layers, 0, f) == FillLayers(src.data, src.pos, layers, i, g)
    {
      g :- ReadRectangles(src, layers[i].num_rectangles, g);
      g :- ReadTriangles(src, layers[i].num_triangles, g);
      g := g.(vertex_index := Wrap32(g.vertex_index + layers[i].num_vertices));
      i := i + 1;
    }
    return Success(g);
  }

  /** The vertices as the reader fills them: resized to the size the header
      declares, and the next slot. */
  datatype VertexFill = VertexFill(vertices: seq<RoomVertex>, vertex_index: nat)

  /** The `n` vertices of one layer, each stored at the next slot, which is
      bounds checked before the read. */
  function FillVertices(d: seq<byte>, p: nat, n: nat, v: VertexFill): Option<Parsed<VertexFill>>
    decreases n
  {
    if n == 0 then Some(Parsed(v, p))
    else if v.vertex_index >= |v.vertices| then None
    else
      match ParseRoomVertex(d, p)
      case None => None
      case Some(x) =>
      FillVertices(d, x.next, n - 1, VertexFill(v.vertices[v.vertex_index := x.value], v.vertex_index + 1))
  }

  function FillLayerVertices(d: seq<byte>, p: nat, layers: seq<Layer>, i: nat, v: VertexFill): Option<Parsed<VertexFill>>
    requires i <= |layers|
    decreases |layers| - i
  {
    if i == |layers| then Some(Parsed(v, p))
    else
      match FillVertices(d, p, layers[i].num_vertices, v)
      case None => None
      case Some(vs) =>
      FillLayerVertices(d, vs.next, layers, i + 1, vs.value)
  }

  /** Filling `n` vertices succeeds exactly when they fit the slots left and
      the data; the k-th record of the data lands in slot vertex_index + k
      and no other slot changes. */
  lemma {:induction false} FillVerticesResult(d: seq<byte>, p: nat, n: nat, v: VertexFill)
    requires p <= |d| && v.vertex_index <= |v.vertices|
    ensures FillVertices(d, p, n, v).Some? <==> v.vertex_index + n <= |v.vertices| && p + 28 * n <= |d|
    ensures FillVertices(d, p, n, v).Some? ==>
      var g := FillVertices(d, p, n, v).value;
      g.next == p + 28 * n && g.value.vertex_index == v.vertex_index + n &&
      |g.value.vertices| == |v.vertices| &&
      (forall k | 0 <= k < |v.vertices| && !(v.vertex_index <= k < v.vertex_index + n) ::
         g.value.vertices[k] == v.vertices[k]) &&
      (forall k | v.vertex_index <= k < v.vertex_index + n ::
         p + 28 * (k - v.vertex_index) + 28 <= |d| &&
         g.value.vertices[k] == RoomVertexAt(d, p + 28 * (k - v.vertex_index)))
    decreases n
  {
    if n == 0 {
    } else if v.vertex_index >= |v.vertices| {
    } else if p + 28 > |d| {
      assert ParseRoomVertex(d, p).None?;
    } else {
      var v' := VertexFill(v.vertices[v.vertex_index := RoomVertexAt(d, p)], v.vertex_index + 1);
      assert FillVertices(d, p, n, v) == FillVertices(d, p + 28, n - 1, v');
      FillVerticesResult(d, p + 28, n - 1, v');
      if FillVertices(d, p, n, v).Some? {
        var g := FillVertices(d, p, n, v).value;
        forall k | v.vertex_index < k < v.vertex_index + n
          ensures p + 28 * (k - v.vertex_index) + 28 <= |d|
          ensures g.value.vertices[k] == RoomVertexAt(d, p + 28 * (k - v.vertex_index))
        {
          assert p + 28 + 28 * (k - v'.vertex_index) == p + 28 * (k - v.vertex_index);
        }
      }
    }
  }

  /** The vertices of all the layers are stored exactly when the vertices
      they declare fit the slots and the data. */
  lemma {:induction false} FillLayerVerticesResult(d: seq<byte>, p: nat, layers: seq<Layer>, i: nat, v: VertexFill)
    requires i <= |layers|
    requires p <= |d| && v.vertex_index <= |v.vertices|
    ensures FillLayerVertices(d, p, layers, i, v).Some? <==>
      v.vertex_index + VerticesFrom(layers, i) <= |v.vertices| && p + 28 * VerticesFrom(layers, i) <= |d|
    ensures FillLayerVertices(d, p, layers, i, v).Some? ==>
      var g := FillLayerVertices(d, p, layers, i, v).value;
      g.next == p + 28 * VerticesFrom(layers, i) && |g.value.vertices| == |v.vertices| &&
      g.value.vertex_index == v.vertex_index + VerticesFrom(layers, i)
    decreases |layers| - i
  {
    if i < |layers| {
      FillVerticesResult(d, p, layers[i].num_vertices, v);
      var vs := FillVertices(d, p, layers[i].num_vertices, v);
      if vs.Some? {
        FillLayerVerticesResult(d, vs.value.next, layers, i + 1, vs.value.value);
      }
    }
  }

  method ReadVertices(src: Cursor, n: nat, v: VertexFill) returns (r: Result<VertexFill>)
    requires src.Valid()
    modifies src
    ensures src.Valid() && Matches(r, FillVertices(src.data, old(src.pos), n, v), src.pos)
  {
    var g := v;
    var j := 0;
    while j < n
      invariant src.Valid() && j <= n
      invariant FillVertices(src.data, old(src.pos), n, v) == FillVertices(src.data, src.pos, n - j, g)
    {
      if g.vertex_index >= |g.vertices| {
        return Failure(ArrayError(Prtl.OutOfBounds));
      }
      var x :- ReadRoomVertex(src);
      g := VertexFill(g.vertices[g.vertex_index := x], g.vertex_index + 1);
      j := j + 1;
    }
    return Success(g);
  }

  method ReadLayerVertices(src: Cursor, layers: seq<Layer>, v: VertexFill) returns (r: Result<VertexFill>)
    requires src.Valid()
    modifies src
    ensures src.Valid() && Matches(r, FillLayerVertices(src.data, old(src.pos), layers, 0, v), src.pos)
  {
    var g := v;
    var i := 0;
    while i < |layers|
      invariant src.Valid() && i <= |layers|
      invariant FillLayerVertices(src.data, old(src.pos), layers, 0, v) == FillLayerVertices(src.data, src.pos, layers, i, g)
    {
      g :- ReadVertices(src, layers[i].num_vertices, g);
      i := i + 1;
    }
    return Success(g);
  }

  // ---------------------------------------------------------------------
  // The room

  /** Where a list of the room block starts: its offset counts from the end
      of the 208-byte header, the sum wraps as a bitu32 and the seek clamps
      it to the block. */
  function Section(b: seq<byte>, offset: nat): nat {
    Clamp(SeekTarget(208, offset), |b|)
  }

  /** The lists of the room block, from the end of its header: the lights,
      then at their offsets the sectors and portals (whose bit16 count is
      stored as a bitu16), the static meshes, the layers, the faces layer by
      layer into the slots the header's counts provide, and the vertices
      into vertices_size / 28 slots. */
  function ParseRoomBody(b: seq<byte>, p: nat, h: Header): Option<Room> {
    var room := h.room;
    match ParseMany(b, p, room.num_lights, ParseLight)
    case None => None
    case Some(ls) =>
    match ParseMany(b, Section(b, h.sector_data_offset), Tr1.GridSize(room.num_zsectors, room.num_xsectors), Tr1.ParseSector)
    case None => None
    case Some(sec) =>
    match ParseBit16(b, sec.next)
    case None => None
    case Some(np) =>
    match ParseMany(b, np.next, Wrap16(np.value), Tr1.ParsePortal)
    case None => None
    case Some(ps) =>
    match ParseMany(b, Section(b, h.static_meshes_offset), room.num_static_meshes, Tr3.ParseRoomStaticMesh)
    case None => None
    case Some(ms) =>
    match ParseMany(b, Section(b, h.layer_offset), room.num_layers, ParseLayer)
    case None => None
    case Some(layers) =>
    match FillLayers(b, Section(b, h.poly_offset), layers.value, 0, EmptyFaces(room.num_rectangles, room.num_triangles))
    case None => None
    case Some(faces) =>
    var verts :- FillLayerVertices(b, Section(b, h.vertices_offset), layers.value, 0,
                                   VertexFill(seq(h.vertices_size / 28, _ => RoomVertex()), 0));
    Some(room.(lights := ls.value, sector_list := sec.value, num_portals := Wrap16(np.value), portals := ps.value,
               static_meshes := ms.value, layers := layers.value,
               rectangles := faces.value.rectangles, triangles := faces.value.triangles,
               num_vertices := h.vertices_size / 28, vertices := verts.value.vertices))
  }

  method ReadRoomBody(src: Cursor, h: Header) returns (r: Result<Room>)
    requires src.Valid()
    modifies src
    ensures src.Valid() && Yields(r, ParseRoomBody(src.data, old(src.pos), h))
  {
    var room := h.room;
    var ls :- ReadLights(src, room.num_lights);
    src.Seek(SeekTarget(208, h.sector_data_offset));
    var sec :- Tr1.ReadSectors(src, Tr1.GridSize(room.num_zsectors, room.num_xsectors));
    var np :- ReadBit16(src);
    var ps :- Tr1.ReadPortals(src, Wrap16(np));
    src.Seek(SeekTarget(208, h.static_meshes_offset));
    var ms :- Tr3.ReadRoomStaticMeshes(src, room.num_static_meshes);
    src.Seek(SeekTarget(208, h.layer_offset));
    var layers :- ReadLayers(src, room.num_layers);
    src.Seek(SeekTarget(208, h.poly_offset));
    var faces :- ReadLayerFaces(src, layers, EmptyFaces(room.num_rectangles, room.num_triangles));
    src.Seek(SeekTarget(208, h.vertices_offset));
    var verts :- ReadLayerVertices(src, layers, VertexFill(seq(h.vertices_size / 28, _ => RoomVertex()), 0));
    return Success(room.(lights := ls, sector_list := sec, num_portals := Wrap16(np), portals := ps,
                         static_meshes := ms, layers := layers,
                         rectangles := faces.rectangles, triangles := faces.triangles,
                         num_vertices := h.vertices_size / 28, vertices := verts.vertices));
  }

  /** The room block: the first header words, the room's position (bytes
      20-32, a bit32 vertex), the rest of the header, then the lists. */
  function ParseRoomData(b: seq<byte>): Option<Room> {
    match ParseHeaderStart(b, 0)
    case None => None
    case Some(start) =>
    match Tr1.ParseVertex32(b, start.next)
    case None => None
    case Some(xyz) =>
    match ParseHeaderRest(b, xyz.next, start.value.(room := start.value.room.(offset := xyz.value)))
    case None => None
    case Some(h) =>
    ParseRoomBody(b, h.next, h.value)
  }

  method ReadRoomData(src: Cursor) returns (r: Result<Room>)
    requires src.Valid() && src.pos == 0
    modifies src
    ensures Yields(r, ParseRoomData(src.data))
  {
    var start :- ReadHeaderStart(src);
    var xyz :- Tr1.ReadVertex32(src);
    var h :- ReadHeaderRest(src, start.(room := start.room.(offset := xyz)));
    r := ReadRoomBody(src, h);
  }

  /** The room block itself: the tag "XELA", then its bitu32 size and as
      many bytes. */
  function ParseRoomBlock(d: seq<byte>, p: nat): (r: Option<Parsed<seq<byte>>>)
    ensures r.Some? <==> p + 8 <= |d| && U32At(d, p) == 0x414C4558 && p + 8 + U32At(d, p + 4) <= |d|
    ensures r.Some? ==> r.value.next == p + 8 + U32At(d, p + 4) && r.value.value == d[p + 8..r.value.next]
  {
    match ParseBitU32(d, p)
    case None => None
    case Some(tag) =>
    if tag.value != 0x414C4558 then None else
    match ParseBitU32(d, tag.next)
    case None => None
    case Some(size) =>
    if size.next + size.value > |d| then None else
    Some(Parsed(d[size.next..size.next + size.value], size.next + size.value))
  }

  method ReadRoomBlock(src: Cursor) returns (r: Result<seq<byte>>)
    requires src.Valid()
    modifies src
    ensures src.Valid() && Matches(r, ParseRoomBlock(src.data, old(src.pos)), src.pos)
  {
    var tag :- ReadBitU32(src);
    if tag != 0x414C4558 {
      return Failure(ReadError(XelaError));
    }
    var size :- ReadBitU32(src);
    var bytes := src.ReadBytes(size);
    if bytes.None? {
      return Failure(ReadError(RoomDataError));
    }
    return Success(bytes.value);
  }

  /** read_tr5_room: the room block, decoded on its own; the stream continues
      after the block. */
  function ParseRoom(d: seq<byte>, p: nat): Option<Parsed<Room>> {
    match ParseRoomBlock(d, p)
    case None => None
    case Some(block) =>
    match ParseRoomData(block.value)
    case None => None
    case Some(room) =>
    Some(Parsed(room, block.next))
  }

  method ReadRoom(src: Cursor) returns (r: Result<Room>)
    requires src.Valid()
    modifies src
    ensures src.Valid() && Matches(r, ParseRoom(src.data, old(src.pos)), src.pos)
  {
    var block :- ReadRoomBlock(src);
    var buffer := new Cursor(block);
    r := ReadRoomData(buffer);
  }

  /** read_tr5_room as written: the room's x, y and z are read from the outer
      stream, after the room block, instead of from the block; the rest of
      the header is then read from block byte 20 and the lights from byte
      196, while the list offsets still count from 208. */
  function ParseRoomAsWritten(d: seq<byte>, p: nat): Option<Parsed<Room>> {
    match ParseRoomBlock(d, p)
    case None => None
    case Some(block) =>
    var b := block.value;
    match ParseHeaderStart(b, 0)
    case None => None
    case Some(start) =>
    match Tr1.ParseVertex32(d, block.next)
    case None => None
    case Some(xyz) =>
    match ParseHeaderRest(b, start.next, start.value.(room := start.value.room.(offset := xyz.value)))
    case None => None
    case Some(h) =>
    match ParseRoomBody(b, h.next, h.value)
    case None => None
    case Some(room) =>
    Some(Parsed(room, xyz.next))
  }

  /** A room ends where its block ends. */
  lemma RoomEnds(d: seq<byte>, p: nat)
    ensures ParseRoom(d, p).Some? ==> p + 8 <= |d| && ParseRoom(d, p).value.next == p + 8 + U32At(d, p + 4)
  {}

  /** As written, a room ends 12 bytes past its block, inside the next
      record, so the next room's tag is looked for 12 bytes late. */
  lemma RoomAsWrittenEnds(d: seq<byte>, p: nat)
    ensures ParseRoomAsWritten(d, p).Some? ==>
      p + 8 <= |d| && ParseRoomAsWritten(d, p).value.next == p + 8 + U32At(d, p + 4) + 12
  {}

  /** As written, the lights are read from block byte 196, inside the
      header: the first light's 88 bytes start with the four trailing
      header words, which are the polygon offset (twice), the vertex size
      and a separator. The corrected reader starts them at 208. */
  lemma LightsStartInsideHeader(d: seq<byte>, p: nat)
    requires ParseRoomAsWritten(d, p).Some?
    requires ParseRoomAsWritten(d, p).value.value.num_lights > 0
    ensures p + 8 + U32At(d, p + 4) <= |d| && 196 + 88 <= U32At(d, p + 4)
    ensures var b := ParseRoomBlock(d, p).value.value;
      |b| == U32At(d, p + 4) && ParseRoomAsWritten(d, p).value.value.lights[0] == LightAt(b, 196)
  {
    var block := ParseRoomBlock(d, p).value;
    var b := block.value;
    var start := ParseHeaderStart(b, 0).value;
    var xyz := Tr1.ParseVertex32(d, block.next).value;
    var h := ParseHeaderRest(b, 20, start.value.(room := start.value.room.(offset := xyz.value))).value;
    assert h.next == 196;
    assert ParseRoomAsWritten(d, p).value.value == ParseRoomBody(b, h.next, h.value).value;
    BodyFirstLight(b, h.next, h.value);
  }

  /** The first light of a room body is the first record at its start. */
  lemma BodyFirstLight(b: seq<byte>, q: nat, h: Header)
    requires ParseRoomBody(b, q, h).Some? && ParseRoomBody(b, q, h).value.num_lights > 0
    ensures q + 88 <= |b| && ParseRoomBody(b, q, h).value.lights[0] == LightAt(b, q)
  {
    assert ParseMany(b, q, h.room.num_lights, ParseLight) == ParseManyCons(b, q, h.room.num_lights, ParseLight);
  }

  /** Every list of a decoded room has the length its count declares, within
      the bounds the header enforces; the faces and vertices the layers
      declare fit the slots; the intensities are 32767. */
  lemma {:induction false} RoomCountsMatch(d: seq<byte>, p: nat)
    requires ParseRoom(d, p).Some?
    ensures var room := ParseRoom(d, p).value.value;
      |room.lights| == room.num_lights <= 512 && |room.static_meshes| == room.num_static_meshes <= 512 &&
      |room.rectangles| == room.num_rectangles <= 1024 && |room.triangles| == room.num_triangles <= 512 &&
      |room.layers| == room.num_layers && |room.vertices| == room.num_vertices &&
      |room.portals| == room.num_portals &&
      |room.sector_list| == room.num_zsectors * room.num_xsectors &&
      RectanglesFrom(room.layers, 0) <= room.num_rectangles &&
      TrianglesFrom(room.layers, 0) <= room.num_triangles &&
      VerticesFrom(room.layers, 0) <= room.num_vertices &&
      room.intensity1 == room.intensity2 == 32767 && room.light_mode == 0 && room.alternate_room == 0
  {
    var b := ParseRoomBlock(d, p).value.value;
    var start := ParseHeaderStart(b, 0).value;
    var xyz := Tr1.ParseVertex32(b, 20).value;
    var h := ParseHeaderRest(b, 32, start.value.(room := start.value.room.(offset := xyz.value))).value.value;
    RoomBodyCounts(b, 208, h);
  }

  lemma {:induction false} RoomBodyCounts(b: seq<byte>, p: nat, h: Header)
    requires ParseRoomBody(b, p, h).Some?
    ensures var room := ParseRoomBody(b, p, h).value;
      |room.lights| == room.num_lights == h.room.num_lights &&
      |room.static_meshes| == room.num_static_meshes == h.room.num_static_meshes &&
      |room.rectangles| == room.num_rectangles == h.room.num_rectangles &&
      |room.triangles| == room.num_triangles == h.room.num_triangles &&
      |room.layers| == room.num_layers && |room.vertices| == room.num_vertices &&
      |room.portals| == room.num_portals &&
      |room.sector_list| == room.num_zsectors * room.num_xsectors &&
      RectanglesFrom(room.layers, 0) <= room.num_rectangles &&
      TrianglesFrom(room.layers, 0) <= room.num_triangles &&
      VerticesFrom(room.layers, 0) <= room.num_vertices &&
      room.intensity1 == h.room.intensity1 && room.intensity2 == h.room.intensity2 &&
      room.light_mode == h.room.light_mode && room.alternate_room == h.room.alternate_room
  {
    var room := h.room;
    GridSizeIsProductHere(room.num_zsectors, room.num_xsectors);
    var layers := ParseMany(b, Section(b, h.layer_offset), room.num_layers, ParseLayer).value.value;
    FillLayersResult(b, Section(b, h.poly_offset), layers, 0, EmptyFaces(room.num_rectangles, room.num_triangles));
    FillLayerVerticesResult(b, Section(b, h.vertices_offset), layers, 0, VertexFill(seq(h.vertices_size / 28, _ => RoomVertex()), 0));
  }

  lemma GridSizeIsProductHere(nz: nat, nx: nat)
    ensures Tr1.GridSize(nz, nx) == nz * nx
  {
    Tr1.GridSizeIsProduct(nz, nx);
  }

  /** read_tr5_moveable: a TR1 moveable followed by the filler word 0xFFEF. */
  function MoveableAt(d: seq<byte>, p: nat): Moveable
    requires p + 20 <= |d|
  {
    Tr1.MoveableAt(d, p)
  }

  function ParseMoveable(d: seq<byte>, p: nat): Option<Parsed<Moveable>> {
    if p + 20 <= |d| && U32At(d, p + 8) % 4 == 0 && U16At(d, p + 18) == 0xFFEF then Some(Parsed(MoveableAt(d, p), p + 20)) else None
  }

  /** The fields of the record decoded one after the other, in the order the reader reads them. */
  function MoveableFields(d: seq<byte>, p: nat): Option<Parsed<Moveable>> {
    match Tr1.ParseMoveable(d, p)
    case None => None
    case Some(m) =>
    match ParseBitU16(d, m.next)
    case None => None
    case Some(filler) =>
    if filler.value != 0xFFEF then None else
    Some(Parsed(m.value, filler.next))
  }

  /** Reading the fields in order decodes exactly the 20-byte layout. */
  lemma MoveableLayout(d: seq<byte>, p: nat)
    ensures MoveableFields(d, p) == ParseMoveable(d, p)
  {}

  method ReadMoveable(src: Cursor) returns (r: Result<Moveable>)
    requires src.Valid()
    modifies src
    ensures src.Valid() && Matches(r, ParseMoveable(src.data, old(src.pos)), src.pos)
  {
    MoveableLayout(src.data, src.pos);
    var m :- Tr1.ReadMoveable(src);
    var filler :- ReadBitU16(src);
    if filler != 0xFFEF {
      return Failure(ReadError(MoveableFillerError));
    }
    return Success(m);
  }

  /** An object texture of the fifth generation: the TR4 record, then a bitu16 that must be 0. */
  function ObjectTextureAt(d: seq<byte>, p: nat): ObjectTexture
    requires p + 40 <= |d|
  {
    Tr4.ObjectTextureAt(d, p)
  }

  function ParseObjectTexture(d: seq<byte>, p: nat): Option<Parsed<ObjectTexture>> {
    if p + 40 <= |d| && U8At(d, p + 2) <= 64 && Tr4.ValidTileFlags(U8At(d, p + 3)) && U16At(d, p + 38) == 0 then Some(Parsed(ObjectTextureAt(d, p), p + 40)) else None
  }

  /** The fields of the record decoded one after the other, in the order the reader reads them. */
  function ObjectTextureFields(d: seq<byte>, p: nat): Option<Parsed<ObjectTexture>> {
    match Tr4.ParseObjectTexture(d, p)
    case None => None
    case Some(t) =>
    match ParseBitU16(d, t.next)
    case None => None
    case Some(trailing) =>
    if trailing.value != 0 then None else
    Some(Parsed(t.value, trailing.next))
  }

  /** Reading the fields in order decodes exactly the 40-byte layout. */
  lemma ObjectTextureLayout(d: seq<byte>, p: nat)
    ensures ObjectTextureFields(d, p) == ParseObjectTexture(d, p)
  {}

  method ReadObjectTexture(src: Cursor) returns (r: Result<ObjectTexture>)
    requires src.Valid()
    modifies src
    ensures src.Valid() && Matches(r, ParseObjectTexture(src.data, old(src.pos)), src.pos)
  {
    ObjectTextureLayout(src.data, src.pos);
    var t :- Tr4.ReadObjectTexture(src);
    var trailing :- ReadBitU16(src);
    if trailing != 0 {
      return Failure(ReadError(ObjectTextureTrailingError));
    }
    return Success(t);
  }


  /** The lights of a room block. */
  method ReadLights(src: Cursor, n: nat) returns (r: Result<seq<Light>>)
    requires src.Valid()
    modifies src
    ensures src.Valid() && Matches(r, ParseMany(src.data, old(src.pos), n, ParseLight), src.pos)
  {
    ghost var p0 := src.pos;
    var acc: seq<Light> := [];
    var i := 0;
    ParseManyStart(src.data, p0, n, ParseLight);
    while i < n
      invariant src.Valid() && i <= n && Remaining(src.data, p0, n, ParseLight, acc, src.pos, i)
    {
      ghost var q := src.pos;
      var x := ReadLight(src);
      if x.Failure? {
        ParseManyFails(src.data, p0, n, i, acc, q, ParseLight);
        return Failure(x.error);
      }
      ParseManyStep(src.data, p0, n, i, acc, q, ParseLight, Parsed(x.value, src.pos));
      acc := acc + [x.value];
      i := i + 1;
    }
    ParseManyDone(src.data, p0, n, acc, src.pos, ParseLight);
    return Success(acc);
  }

  /** The layers of a room block. */
  method ReadLayers(src: Cursor, n: nat) returns (r: Result<seq<Layer>>)
    requires src.Valid()
    modifies src
    ensures src.Valid() && Matches(r, ParseMany(src.data, old(src.pos), n, ParseLayer), src.pos)
  {
    ghost var p0 := src.pos;
    var acc: seq<Layer> := [];
    var i := 0;
    ParseManyStart(src.data, p0, n, ParseLayer);
    while i < n
      invariant src.Valid() && i <= n && Remaining(src.data, p0, n, ParseLayer, acc, src.pos, i)
    {
      ghost var q := src.pos;
      var x := ReadLayer(src);
      if x.Failure? {
        ParseManyFails(src.data, p0, n, i, acc, q, ParseLayer);
        return Failure(x.error);
      }
      ParseManyStep(src.data, p0, n, i, acc, q, ParseLayer, Parsed(x.value, src.pos));
      acc := acc + [x.value];
      i := i + 1;
    }
    ParseManyDone(src.data, p0, n, acc, src.pos, ParseLayer);
    return Success(acc);
  }

  /** The rooms of a TR5 level. */
  method ReadRooms(src: Cursor, n: nat) returns (r: Result<seq<Room>>)
    requires src.Valid()
    modifies src
    ensures src.Valid() && Matches(r, ParseMany(src.data, old(src.pos), n, ParseRoom), src.pos)
  {
    ghost var p0 := src.pos;
    var acc: seq<Room> := [];
    var i := 0;
    ParseManyStart(src.data, p0, n, ParseRoom);
    while i < n
      invariant src.Valid() && i <= n && Remaining(src.data, p0, n, ParseRoom, acc, src.pos, i)
    {
      ghost var q := src.pos;
      var x := ReadRoom(src);
      if x.Failure? {
        ParseManyFails(src.data, p0, n, i, acc, q, ParseRoom);
        return Failure(x.error);
      }
      ParseManyStep(src.data, p0, n, i, acc, q, ParseRoom, Parsed(x.value, src.pos));
      acc := acc + [x.value];
      i := i + 1;
    }
    ParseManyDone(src.data, p0, n, acc, src.pos, ParseRoom);
    return Success(acc);
  }

  /** The moveables of a TR5 level. */
  method ReadMoveables(src: Cursor, n: nat) returns (r: Result<seq<Moveable>>)
    requires src.Valid()
    modifies src
    ensures src.Valid() && Matches(r, ParseMany(src.data, old(src.pos), n, ParseMoveable), src.pos)
  {
    ghost var p0 := src.pos;
    var acc: seq<Moveable> := [];
    var i := 0;
    ParseManyStart(src.data, p0, n, ParseMoveable);
    while i < n
      invariant src.Valid() && i <= n && Remaining(src.data, p0, n, ParseMoveable, acc, src.pos, i)
    {
      ghost var q := src.pos;
      var x := ReadMoveable(src);
      if x.Failure? {
        ParseManyFails(src.data, p0, n, i, acc, q, ParseMoveable);
        return Failure(x.error);
      }
      ParseManyStep(src.data, p0, n, i, acc, q, ParseMoveable, Parsed(x.value, src.pos));
      acc := acc + [x.value];
      i := i + 1;
    }
    ParseManyDone(src.data, p0, n, acc, src.pos, ParseMoveable);
    return Success(acc);
  }

  /** The object textures of a TR5 level. */
  method ReadObjectTextures(src: Cursor, n: nat) returns (r: Result<seq<ObjectTexture>>)
    requires src.Valid()
    modifies src
    ensures src.Valid() && Matches(r, ParseMany(src.data, old(src.pos), n, ParseObjectTexture), src.pos)
  {
    ghost var p0 := src.pos;
    var acc: seq<ObjectTexture> := [];
    var i := 0;
    ParseManyStart(src.data, p0, n, ParseObjectTexture);
    while i < n
      invariant src.Valid() && i <= n && Remaining(src.data, p0, n, ParseObjectTexture, acc, src.pos, i)
    {
      ghost var q := src.pos;
      var x := ReadObjectTexture(src);
      if x.Failure? {
        ParseManyFails(src.data, p0, n, i, acc, q, ParseObjectTexture);
        return Failure(x.error);
      }
      ParseManyStep(src.data, p0, n, i, acc, q, ParseObjectTexture, Parsed(x.value, src.pos));
      acc := acc + [x.value];
      i := i + 1;
    }
    ParseManyDone(src.data, p0, n, acc, src.pos, ParseObjectTexture);
    return Success(acc);
  }
}
