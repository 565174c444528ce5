/** The record decoders of the third engine generation (l_tr3.cpp): the
    room vertex, static mesh and item fields are kept as read, and rooms
    carry a fog colour. */
module Tr3 {
  import opened Wrappers
  import opened Common
  import opened Types
  import Tr1
  import Tr2

  /** read_tr3_room_vertex: position, lightings and attributes as read, no normal; the colour is lighting1 over 32767. */
  function RoomVertexAt(d: seq<byte>, p: nat): RoomVertex
    requires p + 12 <= |d|
  {
    RoomVertex(vertex := Tr1.Vertex16At(d, p), lighting1 := S16At(d, p + 6), attributes := U16At(d, p + 8), lighting2 := S16At(d, p + 10), normal := Vertex(), colour := Tr2.Shade(S16At(d, p + 6), 32767))
  }

  function ParseRoomVertex(d: seq<byte>, p: nat): Option<Parsed<RoomVertex>> {
    if p + 12 <= |d| then Some(Parsed(RoomVertexAt(d, p), p + 12)) else None
  }

  /** The fields of the record decoded one after the other, in the order the reader reads them. */
  function RoomVertexFields(d: seq<byte>, p: nat): Option<Parsed<RoomVertex>> {
    match Tr1.ParseVertex16(d, p)
    case None => None
    case Some(vertex) =>
    match ParseBit16(d, vertex.next)
    case None => None
    case Some(l1) =>
    match ParseBitU16(d, l1.next)
    case None => None
    case Some(attributes) =>
    match ParseBit16(d, attributes.next)
    case None => None
    case Some(l2) =>
    Some(Parsed(RoomVertex(vertex := vertex.value, lighting1 := l1.value, attributes := attributes.value, lighting2 := l2.value, normal := Vertex(), colour := Tr2.Shade(l1.value, 32767)), l2.next))
  }

  /** Reading the fields in order decodes exactly the 12-byte layout. */
  lemma RoomVertexLayout(d: seq<byte>, p: nat)
    ensures RoomVertexFields(d, p) == ParseRoomVertex(d, p)
  {}

  method ReadRoomVertex(src: Cursor) returns (r: Result<RoomVertex>)
    requires src.Valid()
    modifies src
    ensures src.Valid() && Matches(r, ParseRoomVertex(src.data, old(src.pos)), src.pos)
  {
    RoomVertexLayout(src.data, src.pos);
    var vertex :- Tr1.ReadVertex16(src);
    var l1 :- ReadBit16(src);
    var attributes :- ReadBitU16(src);
    var l2 :- ReadBit16(src);
    return Success(RoomVertex(vertex := vertex, lighting1 := l1, attributes := attributes, lighting2 := l2, normal := Vertex(), colour := Tr2.Shade(l1, 32767)));
  }

  /** read_tr3_room_staticmesh: as in TR2, with the intensities kept as read. */
  function RoomStaticMeshAt(d: seq<byte>, p: nat): RoomStaticMesh
    requires p + 20 <= |d|
  {
    RoomStaticMesh(Tr1.Vertex32At(d, p), Degrees(U16At(d, p + 12)), S16At(d, p + 14), S16At(d, p + 16), U16At(d, p + 18))
  }

  function ParseRoomStaticMesh(d: seq<byte>, p: nat): Option<Parsed<RoomStaticMesh>> {
    if p + 20 <= |d| then Some(Parsed(RoomStaticMeshAt(d, p), p + 20)) else None
  }

  /** The fields of the record decoded one after the other, in the order the reader reads them. */
  function RoomStaticMeshFields(d: seq<byte>, p: nat): Option<Parsed<RoomStaticMesh>> {
    match Tr1.ParseVertex32(d, p)
    case None => None
    case Some(pos) =>
    match ParseBitU16(d, pos.next)
    case None => None
    case Some(rotation) =>
    match ParseBit16(d, rotation.next)
    case None => None
    case Some(i1) =>
    match ParseBit16(d, i1.next)
    case None => None
    case Some(i2) =>
    match ParseBitU16(d, i2.next)
    case None => None
    case Some(id) =>
    Some(Parsed(RoomStaticMesh(pos.value, Degrees(rotation.value), i1.value, i2.value, id.value), id.next))
  }

  /** Reading the fields in order decodes exactly the 20-byte layout. */
  lemma RoomStaticMeshLayout(d: seq<byte>, p: nat)
    ensures RoomStaticMeshFields(d, p) == ParseRoomStaticMesh(d, p)
  {}

  method ReadRoomStaticMesh(src: Cursor) returns (r: Result<RoomStaticMesh>)
    requires src.Valid()
    modifies src
    ensures src.Valid() && Matches(r, ParseRoomStaticMesh(src.data, old(src.pos)), src.pos)
  {
    RoomStaticMeshLayout(src.data, src.pos);
    var pos :- Tr1.ReadVertex32(src);
    var rotation :- ReadBitU16(src);
    var i1 :- ReadBit16(src);
    var i2 :- ReadBit16(src);
    var id :- ReadBitU16(src);
    return Success(RoomStaticMesh(pos, Degrees(rotation), i1, i2, id));
  }

  /** The TR3 static mesh differs from the TR2 one only in its intensities,
      which TR2 rescales. */
  lemma {:induction false} RoomStaticMeshAgreesWithTr2(d: seq<byte>, p: nat)
    requires p + 20 <= |d|
    ensures var m3 := RoomStaticMeshAt(d, p); var m2 := Tr2.RoomStaticMeshAt(d, p);
      m3.(intensity1 := 0, intensity2 := 0) == m2.(intensity1 := 0, intensity2 := 0) &&
      m2.intensity1 == Tr1.RescaleIfSet(m3.intensity1) && m2.intensity2 == Tr1.RescaleIfSet(m3.intensity2)
  {}

  /** read_tr3_room: the TR1 layout with TR3 vertices, the second intensity,
      TR2 lights, TR3 static meshes and a trailing fog colour. */
  function ParseRoom(d: seq<byte>, p: nat): Option<Parsed<Room>> {
    match Tr1.ParseRoomInfo(d, p)
    case None => None
    case Some(info) =>
    match ParseRoomGeometry(d, info.next, Tr1.RoomFromInfo(info.value))
    case None => None
    case Some(geometry) =>
    match Tr1.ParseRoomSectors(d, Clamp(SeekTarget(info.next, 2 * info.value.num_data_words), |d|), geometry.value)
    case None => None
    case Some(sectors) =>
    ParseRoomLighting(d, sectors.next, sectors.value)
  }

  function ParseRoomGeometry(d: seq<byte>, p: nat, room: Room): Option<Parsed<Room>> {
    match ParseBitU16(d, p)
    case None => None
    case Some(nv) =>
    match ParseMany(d, nv.next, nv.value, ParseRoomVertex)
    case None => None
    case Some(vs) =>
    Tr1.ParseRoomFaces(d, vs.next, room.(num_vertices := nv.value, vertices := vs.value))
  }

  /** Both intensities as read, light mode 0, the lights, static meshes,
      alternate room, flags and the fog colour; the light colour is the grey
      of the first intensity. */
  function ParseRoomLighting(d: seq<byte>, p: nat, room: Room): Option<Parsed<Room>> {
    match ParseBit16(d, p)
    case None => None
    case Some(a1) =>
    match ParseBit16(d, a1.next)
    case None => None
    case Some(a2) =>
    match ParseBitU16(d, a2.next)
    case None => None
    case Some(nl) =>
    match ParseMany(d, nl.next, nl.value, Tr2.ParseLight)
    case None => None
    case Some(ls) =>
    match ParseBitU16(d, ls.next)
    case None => None
    case Some(nm) =>
    match ParseMany(d, nm.next, nm.value, ParseRoomStaticMesh)
    case None => None
    case Some(ms) =>
    match ParseBit16(d, ms.next)
    case None => None
    case Some(alt) =>
    match ParseBitU16(d, alt.next)
    case None => None
    case Some(fl) =>
    match Tr1.ParseColour(d, fl.next)
    case None => None
    case Some(fog) =>
    Some(Parsed(room.(intensity1 := a1.value, intensity2 := a2.value, light_mode := 0,
                      num_lights := nl.value, lights := ls.value,
                      num_static_meshes := nm.value, static_meshes := ms.value,
                      alternate_room := alt.value, flags := fl.value, fog_colour := fog.value,
                      light_colour := Tr1.Grey(a1.value)), fog.next))
  }

  method ReadRoom(src: Cursor) returns (r: Result<Room>)
    requires src.Valid()
    modifies src
    ensures src.Valid() && Matches(r, ParseRoom(src.data, old(src.pos)), src.pos)
  {
    var info :- Tr1.ReadRoomInfo(src);
    var start := src.Tell();
    var room :- ReadRoomGeometry(src, Tr1.RoomFromInfo(info));
    src.Seek(SeekTarget(start, 2 * info.num_data_words));
    room :- Tr1.ReadRoomSectors(src, room);
    r := ReadRoomLighting(src, room);
  }

  method ReadRoomGeometry(src: Cursor, room: Room) returns (r: Result<Room>)
    requires src.Valid()
    modifies src
    ensures src.Valid() && Matches(r, ParseRoomGeometry(src.data, old(src.pos), room), src.pos)
  {
    var nv :- ReadBitU16(src);
    var vs :- ReadRoomVertices(src, nv);
    r := Tr1.ReadRoomFaces(src, room.(num_vertices := nv, vertices := vs));
  }

  method ReadRoomLighting(src: Cursor, room: Room) returns (r: Result<Room>)
    requires src.Valid()
    modifies src
    ensures src.Valid() && Matches(r, ParseRoomLighting(src.data, old(src.pos), room), src.pos)
  {
    var a1 :- ReadBit16(src);
    var a2 :- ReadBit16(src);
    var nl :- ReadBitU16(src);
    var ls :- Tr2.ReadLights(src, nl);
    var nm :- ReadBitU16(src);
    var ms :- ReadRoomStaticMeshes(src, nm);
    var alt :- ReadBit16(src);
    var fl :- ReadBitU16(src);
    var fog :- Tr1.ReadColour(src);
    return Success(room.(intensity1 := a1, intensity2 := a2, light_mode := 0,
                         num_lights := nl, lights := ls, num_static_meshes := nm, static_meshes := ms,
                         alternate_room := alt, flags := fl, fog_colour := fog, light_colour := Tr1.Grey(a1)));
  }

  /** The lighting block of a TR3 room keeps the counts the file declares
      and takes 15 bytes besides its lists: 24 per light and 20 per static
      mesh. */
  lemma {:induction false} RoomLightingCounts(d: seq<byte>, p: nat, room: Room)
    requires ParseRoomLighting(d, p, room).Some?
    ensures var r := ParseRoomLighting(d, p, room).value;
      |r.value.lights| == r.value.num_lights && |r.value.static_meshes| == r.value.num_static_meshes &&
      r.value.light_mode == 0 && r.next == p + 15 + 24 * r.value.num_lights + 20 * r.value.num_static_meshes
  {
    var a1 := ParseBit16(d, p).value;
    var a2 := ParseBit16(d, a1.next).value;
    var nl := ParseBitU16(d, a2.next).value;
    var ls := ParseMany(d, nl.next, nl.value, Tr2.ParseLight).value;
    ParseManyFixedSize(d, nl.next, nl.value, Tr2.ParseLight, 24);
    var nm := ParseBitU16(d, ls.next).value;
    var ms := ParseMany(d, nm.next, nm.value, ParseRoomStaticMesh).value;
    ParseManyFixedSize(d, nm.next, nm.value, ParseRoomStaticMesh, 20);
    var alt := ParseBit16(d, ms.next).value;
    var fl := ParseBitU16(d, alt.next).value;
    var fog := Tr1.ParseColour(d, fl.next).value;
    assert nl.next == p + 6 && nm.next == ls.next + 2;
    assert ls.next == nl.next + nl.value * 24;
    assert ms.next == nm.next + nm.value * 20;
    assert ParseRoomLighting(d, p, room).value.next == fog.next == ms.next + 7;
    assert ParseRoomLighting(d, p, room).value.value.num_lights == nl.value;
    assert ParseRoomLighting(d, p, room).value.value.num_static_meshes == nm.value;
  }

  /** read_tr3_item: the rotation in degrees, both intensities stored into bit16 as read. */
  function ItemAt(d: seq<byte>, p: nat): Item
    requires p + 24 <= |d|
  {
    Item(S16At(d, p), S16At(d, p + 2), Tr1.Vertex32At(d, p + 4), Degrees(U16At(d, p + 16)), ToBit16(U16At(d, p + 18)), ToBit16(U16At(d, p + 20)), U16At(d, p + 22))
  }

  function ParseItem(d: seq<byte>, p: nat): Option<Parsed<Item>> {
    if p + 24 <= |d| then Some(Parsed(ItemAt(d, p), p + 24)) else None
  }

  /** The fields of the record decoded one after the other, in the order the reader reads them. */
  function ItemFields(d: seq<byte>, p: nat): Option<Parsed<Item>> {
    match ParseBit16(d, p)
    case None => None
    case Some(id) =>
    match ParseBit16(d, id.next)
    case None => None
    case Some(room) =>
    match Tr1.ParseVertex32(d, room.next)
    case None => None
    case Some(pos) =>
    match ParseBitU16(d, pos.next)
    case None => None
    case Some(rotation) =>
    match ParseBitU16(d, rotation.next)
    case None => None
    case Some(i1) =>
    match ParseBitU16(d, i1.next)
    case None => None
    case Some(i2) =>
    match ParseBitU16(d, i2.next)
    case None => None
    case Some(flags) =>
    Some(Parsed(Item(id.value, room.value, pos.value, Degrees(rotation.value), ToBit16(i1.value), ToBit16(i2.value), flags.value), flags.next))
  }

  /** Reading the fields in order decodes exactly the 24-byte layout. */
  lemma ItemLayout(d: seq<byte>, p: nat)
    ensures ItemFields(d, p) == ParseItem(d, p)
  {}

  method ReadItem(src: Cursor) returns (r: Result<Item>)
    requires src.Valid()
    modifies src
    ensures src.Valid() && Matches(r, ParseItem(src.data, old(src.pos)), src.pos)
  {
    ItemLayout(src.data, src.pos);
    var id :- ReadBit16(src);
    var room :- ReadBit16(src);
    var pos :- Tr1.ReadVertex32(src);
    var rotation :- ReadBitU16(src);
    var i1 :- ReadBitU16(src);
    var i2 :- ReadBitU16(src);
    var flags :- ReadBitU16(src);
    return Success(Item(id, room, pos, Degrees(rotation), ToBit16(i1), ToBit16(i2), flags));
  }

  /** A TR3 item reinterprets its intensities as signed; TR2 additionally
      rescales the non-negative ones. */
  lemma {:induction false} ItemAgreesWithTr2(d: seq<byte>, p: nat)
    requires p + 24 <= |d|
    ensures var i3 := ItemAt(d, p); var i2 := Tr2.ItemAt(d, p);
      i3.intensity1 == S16At(d, p + 18) && i3.intensity2 == S16At(d, p + 20) &&
      i2.intensity1 == Tr1.RescaleIfSet(i3.intensity1) && i2.intensity2 == Tr1.RescaleIfSet(i3.intensity2)
  {
    ToBit16OfUnsigned(U16At(d, p + 18));
    ToBit16OfUnsigned(U16At(d, p + 20));
  }

  /** The vertices of a TR3 room. */
  method ReadRoomVertices(src: Cursor, n: nat) returns (r: Result<seq<RoomVertex>>)
    requires src.Valid()
    modifies src
    ensures src.Valid() && Matches(r, ParseMany(src.data, old(src.pos), n, ParseRoomVertex), src.pos)
  {
    ghost var p0 := src.pos;
    var acc: seq<RoomVertex> := [];
    var i := 0;
    ParseManyStart(src.data, p0, n, ParseRoomVertex);
    while i < n
      invariant src.Valid() && i <= n && Remaining(src.data, p0, n, ParseRoomVertex, acc, src.pos, i)
    {
      ghost var q := src.pos;
      var x := ReadRoomVertex(src);
      if x.Failure? {
        ParseManyFails(src.data, p0, n, i, acc, q, ParseRoomVertex);
        return Failure(x.error);
      }
      ParseManyStep(src.data, p0, n, i, acc, q, ParseRoomVertex, Parsed(x.value, src.pos));
      acc := acc + [x.value];
      i := i + 1;
    }
    ParseManyDone(src.data, p0, n, acc, src.pos, ParseRoomVertex);
    return Success(acc);
  }

  /** The static meshes placed in a TR3 or TR4 room. */
  method ReadRoomStaticMeshes(src: Cursor, n: nat) returns (r: Result<seq<RoomStaticMesh>>)
    requires src.Valid()
    modifies src
    ensures src.Valid() && Matches(r, ParseMany(src.data, old(src.pos), n, ParseRoomStaticMesh), src.pos)
  {
    ghost var p0 := src.pos;
    var acc: seq<RoomStaticMesh> := [];
    var i := 0;
    ParseManyStart(src.data, p0, n, ParseRoomStaticMesh);
    while i < n
      invariant src.Valid() && i <= n && Remaining(src.data, p0, n, ParseRoomStaticMesh, acc, src.pos, i)
    {
      ghost var q := src.pos;
      var x := ReadRoomStaticMesh(src);
      if x.Failure? {
        ParseManyFails(src.data, p0, n, i, acc, q, ParseRoomStaticMesh);
        return Failure(x.error);
      }
      ParseManyStep(src.data, p0, n, i, acc, q, ParseRoomStaticMesh, Parsed(x.value, src.pos));
      acc := acc + [x.value];
      i := i + 1;
    }
    ParseManyDone(src.data, p0, n, acc, src.pos, ParseRoomStaticMesh);
    return Success(acc);
  }

  /** The rooms of a TR3 level. */
  method ReadRooms(src: Cursor, n: nat) returns (r: Result<seq<Room>>)
    requires src.Valid()
    modifies src
    ensures src.Valid() && Matches(r, ParseMany(src.data, old(src.pos), n, ParseRoom), src.pos)
  {
    ghost var p0 := src.pos;
    var acc: seq<Room> := [];
    var i := 0;
    ParseManyStart(src.data, p0, n, ParseRoom);
    while i < n
      invariant src.Valid() && i <= n && Remaining(src.data, p0, n, ParseRoom, acc, src.pos, i)
    {
      ghost var q := src.pos;
      var x := ReadRoom(src);
      if x.Failure? {
        ParseManyFails(src.data, p0, n, i, acc, q, ParseRoom);
        return Failure(x.error);
      }
      ParseManyStep(src.data, p0, n, i, acc, q, ParseRoom, Parsed(x.value, src.pos));
      acc := acc + [x.value];
      i := i + 1;
    }
    ParseManyDone(src.data, p0, n, acc, src.pos, ParseRoom);
    return Success(acc);
  }

  /** The items of a TR3, TR4 or TR5 level. */
  method ReadItems(src: Cursor, n: nat) returns (r: Result<seq<Item>>)
    requires src.Valid()
    modifies src
    ensures src.Valid() && Matches(r, ParseMany(src.data, old(src.pos), n, ParseItem), src.pos)
  {
    ghost var p0 := src.pos;
    var acc: seq<Item> := [];
    var i := 0;
    ParseManyStart(src.data, p0, n, ParseItem);
    while i < n
      invariant src.Valid() && i <= n && Remaining(src.data, p0, n, ParseItem, acc, src.pos, i)
    {
      ghost var q := src.pos;
      var x := ReadItem(src);
      if x.Failure? {
        ParseManyFails(src.data, p0, n, i, acc, q, ParseItem);
        return Failure(x.error);
      }
      ParseManyStep(src.data, p0, n, i, acc, q, ParseItem, Parsed(x.value, src.pos));
      acc := acc + [x.value];
      i := i + 1;
    }
    ParseManyDone(src.data, p0, n, acc, src.pos, ParseItem);
    return Success(acc);
  }
}
