/* What read_trN_level (l_tr1.cpp to l_tr5.cpp), read_mesh_data,
   read_frame_moveable_data and read_level (l_main.cpp) do to a TR_Level,
   stated as functions. A level reader is a fixed list of steps, one per
   block of its source; each step reads from the stream, checks what the
   source checks and sets the members the source sets. The TrLevel class of
   module Level performs the same steps on its fields. */
module LevelSpec {
  import opened Wrappers
  import opened Common
  import opened Types
  import Prtl
  import Resolve
  import Tr1
  import Tr2
  import Tr3
  import Tr4
  import Tr5

  /** The members of a TR_Level (l_main.h). An array the readers only size
      and then seek past (floor data, cameras, boxes, ...) is represented by
      its size: its elements are value-initialised and never read. */
  datatype LevelState = LevelState(
    game_version: int,
    num_textiles: nat, num_room_textiles: nat, num_obj_textiles: nat,
    num_bump_textiles: nat, num_misc_textiles: nat,  // bitu32
    read_32bit_textiles: bool,
    textile8: seq<Textile>, textile16: seq<Textile>, textile32: seq<Textile>,
    palette: seq<Colour>, palette16: seq<Colour>, lightmap: seq<int>,
    rooms: seq<Room>, floor_data: nat,
    meshes: seq<Mesh>, mesh_indices: seq<int>,
    animations: seq<Animation>, state_changes: nat, anim_dispatches: nat, anim_commands: nat,
    mesh_trees: seq<MeshTree>, moveables: seq<Moveable>, static_meshes: seq<StaticMesh>,
    object_textures: seq<ObjectTexture>, animated_textures: nat,
    sprite_textures: seq<SpriteTexture>, sprite_sequences: seq<SpriteSequence>,
    cameras: nat, flyby_cameras: nat, sound_sources: nat, boxes: nat, overlaps: nat,
    items: seq<Item>, ai_objects: nat, cinematic_frames: nat, demo_data: nat,
    sound_details: nat, samples: nat, sample_indices: nat)

  /** A 256x256 textile, whatever its pixels hold. */
  predicate Shaped(t: Textile) {
    |t| == 256 && forall y | 0 <= y < 256 :: |t[y]| == 256
  }

  /** What the TrLevel class keeps true: both palettes hold 256 colours and
      every textile is 256x256. */
  ghost predicate WellFormed(s: LevelState) {
    |s.palette| == 256 && |s.palette16| == 256 &&
    (forall i | 0 <= i < |s.textile8| :: Shaped(s.textile8[i])) &&
    (forall i | 0 <= i < |s.textile16| :: Shaped(s.textile16[i])) &&
    (forall i | 0 <= i < |s.textile32| :: Shaped(s.textile32[i]))
  }

  /** The members of a freshly constructed TR_Level. */
  function EmptyLevel(version: int): (s: LevelState)
    ensures WellFormed(s)
  {
    LevelState(version, 0, 0, 0, 0, 0, false, [], [], [], BlankPalette(), BlankPalette(), seq(0x2000, _ => 0),
               [], 0, [], [], [], 0, 0, 0, [], [], [], [], 0, [], [], 0, 0, 0, 0, 0, [], 0, 0, 0, 0, 0, 0)
  }

  // ---------------------------------------------------------------------
  // Steps

  /** The width of a value read by read_bit8, read_bitu16 or read_bitu32. */
  datatype Width = Bit8 | BitU16 | BitU32

  /** The record formats of the five generations. */
  datatype Gen = G1 | G2 | G3 | G4 | G5

  /** The arrays a reader sizes and seeks past. */
  datatype Counted =
    | FloorData | StateChanges | AnimDispatches | AnimCommands | Cameras | FlybyCameras
    | SoundSources | Boxes | Overlaps | AnimatedTextures | AiObjects | CinematicFrames
    | DemoData | SoundDetails | Samples | SampleIndices

  /** The steps that read the header fields, textiles and palettes. */
  datatype Header =
    | Check(width: Width, accepted: seq<int>, message: string)  // read a value, throw `message` unless accepted
    | Ignore(width: Width)                                      // read a value and drop it
    | ResetTextileCounts                                        // num_* = 0, read_32bit_textiles = false
    | TextileCounts(misc: nat)                                  // TR4/TR5: three bitu16 counts plus the misc textiles
    | Textiles8                                                 // num_textiles, then that many textile8
    | Textiles16                                                // num_textiles textile16
    | Palette | Palette16 | Lightmap

  /** The counted lists of records. */
  datatype Records =
    | Rooms(gen: Gen) | Animations(gen: Gen) | StaticMeshes | ObjectTextures(gen: Gen)
    | SpriteTextures | SpriteSequences | Items(gen: Gen)

  /** The compressed segments of TR4 and TR5. */
  datatype Segment =
    | Segment32(tag: string)                                    // 32-bit textiles
    | Segment16(tag: string)                                    // 16-bit textiles
    | SegmentMisc(tag: string, limit: nat, tooMany: string, resizeToAll: bool)
    | PackedGeometry(tag: string)                              // TR4: the rest of the file is compressed

  datatype Step =
    | Head(header: Header)
    | Skip(field: Counted, width: Width, size: nat)             // X.resize(count); seek X.size() * size
    | Zones(size: nat)                                          // seek boxes.size() * size
    | SkipBytes(n: nat)                                         // the soundmap
    | List(records: Records)
    | MeshData
    | MeshTrees(message: string)
    | FrameMoveableData
    | Compressed(segment: Segment)

  /** What a step, or a whole reader, leaves: the new members with the
      stream it moved to, a TR_ReadError or prtl exception whose message the
      model tracks, or the failure of a record or primitive reader. */
  datatype Outcome =
    | Done(state: LevelState, data: seq<byte>, pos: nat)
    | Rejected(error: Error)
    | Undecodable

  /** zlib's uncompress of the whole compressed buffer, when it is a valid
      stream. */
  type Inflate = seq<byte> -> Option<seq<byte>>

  function Fail(message: string): (o: Outcome)
    ensures o.Rejected? && o.error.ReadError?
  {
    Rejected(ReadError(message))
  }

  const WrongVersion := "Wrong level version"
  const BadUnused := "Bad value for 'unused'"
  const MeshDataShort := "read_tr_mesh_data: SDL_RWread(buffer)"
  const FrameDataShort := "read_tr_level: frame_data: SDL_RWread(buffer)"

  function ParseWord(w: Width, d: seq<byte>, p: nat): (r: Option<Parsed<int>>)
    ensures r.Some? <==> p + (match w case Bit8 => 1 case BitU16 => 2 case BitU32 => 4) <= |d|
    ensures r.Some? && !w.Bit8? ==> r.value.value >= 0
    ensures r.Some? ==> r.value.next == p + (match w case Bit8 => 1 case BitU16 => 2 case BitU32 => 4)
  {
    match w
    case Bit8 => ParseBit8(d, p)
    case BitU16 => ParseBitU16(d, p)
    case BitU32 => ParseBitU32(d, p)
  }

  // ---------------------------------------------------------------------
  // The sized-but-skipped arrays

  function CountOf(s: LevelState, f: Counted): nat {
    match f
    case FloorData => s.floor_data
    case StateChanges => s.state_changes
    case AnimDispatches => s.anim_dispatches
    case AnimCommands => s.anim_commands
    case Cameras => s.cameras
    case FlybyCameras => s.flyby_cameras
    case SoundSources => s.sound_sources
    case Boxes => s.boxes
    case Overlaps => s.overlaps
    case AnimatedTextures => s.animated_textures
    case AiObjects => s.ai_objects
    case CinematicFrames => s.cinematic_frames
    case DemoData => s.demo_data
    case SoundDetails => s.sound_details
    case Samples => s.samples
    case SampleIndices => s.sample_indices
  }

  /** The members after one sized array took size `n`: that size changes and
      nothing else. */
  function WithCount(s: LevelState, f: Counted, n: nat): (r: LevelState)
    ensures CountOf(r, f) == n
    ensures forall g | g != f :: CountOf(r, g) == CountOf(s, g)
    ensures r.(floor_data := s.floor_data, state_changes := s.state_changes, anim_dispatches := s.anim_dispatches,
               anim_commands := s.anim_commands, cameras := s.cameras, flyby_cameras := s.flyby_cameras,
               sound_sources := s.sound_sources, boxes := s.boxes, overlaps := s.overlaps,
               animated_textures := s.animated_textures, ai_objects := s.ai_objects,
               cinematic_frames := s.cinematic_frames, demo_data := s.demo_data,
               sound_details := s.sound_details, samples := s.samples, sample_indices := s.sample_indices) == s
  {
    match f
    case FloorData => s.(floor_data := n)
    case StateChanges => s.(state_changes := n)
    case AnimDispatches => s.(anim_dispatches := n)
    case AnimCommands => s.(anim_commands := n)
    case Cameras => s.(cameras := n)
    case FlybyCameras => s.(flyby_cameras := n)
    case SoundSources => s.(sound_sources := n)
    case Boxes => s.(boxes := n)
    case Overlaps => s.(overlaps := n)
    case AnimatedTextures => s.(animated_textures := n)
    case AiObjects => s.(ai_objects := n)
    case CinematicFrames => s.(cinematic_frames := n)
    case DemoData => s.(demo_data := n)
    case SoundDetails => s.(sound_details := n)
    case Samples => s.(samples := n)
    case SampleIndices => s.(sample_indices := n)
  }

  /** The size after resize(n) of an array of size `size`: prtl::array
      throws when a non-empty array is emptied (Prtl.Resized). */
  function ResizedCount(size: nat, n: nat): (r: Result<nat>)
    ensures forall s: seq<int> | |s| == size :: r.Success? <==> Prtl.Resized(s, n, 0).Success?
    ensures r.Success? ==> r.value == n
    ensures r.Failure? ==> r.error == ArrayError(Prtl.NotEnoughMemory)
  {
    if n == 0 && size != 0 then Failure(ArrayError(Prtl.NotEnoughMemory)) else Success(n)
  }

  /** X.resize(read count); SDL_RWseek(src, X.size() * size, SEEK_CUR). The
      product is an unsigned int passed to SDL_RWseek as an int. */
  function SkipSpec(f: Counted, w: Width, size: nat, s: LevelState, d: seq<byte>, p: nat): (o: Outcome)
    ensures o.Done? ==> o.data == d && o.state == WithCount(s, f, CountOf(o.state, f))
    ensures o.Rejected? ==> o.error == ArrayError(Prtl.NotEnoughMemory) && CountOf(s, f) != 0
  {
    match ParseWord(w, d, p)
    case None => Undecodable
    case Some(c) =>
      if c.value < 0 then Undecodable
      else
        match ResizedCount(CountOf(s, f), c.value)
        case Failure(e) => Rejected(e)
        case Success(n) => Done(WithCount(s, f, n), d, Clamp(c.next + ToBit32(n * size), |d|))
  }

  /** The zones: SDL_RWseek(src, boxes.size() * size, SEEK_CUR). */
  function ZonesSpec(size: nat, s: LevelState, d: seq<byte>, p: nat): (o: Outcome)
    ensures o.Done? && o.state == s && o.data == d && o.pos <= |d|
  {
    Done(s, d, Clamp(p + ToBit32(s.boxes * size), |d|))
  }

  // ---------------------------------------------------------------------
  // Counted arrays of records

  datatype Listed<T> = Listed(values: seq<T>, next: nat) | ListRejected(error: Error) | ListUndecodable

  /** X.resize(n), then X[i] read for every i < n: the array ends up holding
      exactly the `n` records, unless its own resize throws. Each record is
      decoded as a fresh value: the resizes of the arrays inside a record
      that the outer resize kept are not part of this function. */
  function ListSpec<T>(current: seq<T>, n: nat, blank: T, d: seq<byte>, p: nat,
                       f: (seq<byte>, nat) -> Option<Parsed<T>>): (r: Listed<T>)
    ensures r.Listed? ==> |r.values| == n
    ensures r.ListRejected? <==> n == 0 && |current| != 0
  {
    match Prtl.Resized(current, n, blank)
    case Failure(e) => ListRejected(e)
    case Success(_) =>
      match ParseMany(d, p, n, f)
      case None => ListUndecodable
      case Some(x) => Listed(x.value, x.next)
  }

  function RoomParser(g: Gen): (seq<byte>, nat) -> Option<Parsed<Room>> {
    match g
    case G1 => Tr1.ParseRoom
    case G2 => Tr2.ParseRoom
    case G3 => Tr3.ParseRoom
    case G4 => Tr4.ParseRoom
    case G5 => Tr5.ParseRoom
  }

  function AnimationParser(g: Gen): (seq<byte>, nat) -> Option<Parsed<Animation>> {
    if g == G4 then Tr4.ParseAnimation else Tr1.ParseAnimation
  }

  function ObjectTextureParser(g: Gen): (seq<byte>, nat) -> Option<Parsed<ObjectTexture>> {
    match g
    case G4 => Tr4.ParseObjectTexture
    case G5 => Tr5.ParseObjectTexture
    case _ => Tr1.ParseObjectTexture
  }

  function ItemParser(g: Gen): (seq<byte>, nat) -> Option<Parsed<Item>> {
    match g
    case G2 => Tr2.ParseItem
    case G3 => Tr3.ParseItem
    case _ => Tr1.ParseItem
  }

  /** read_tr5_moveable from TR_V on, read_tr_moveable before. */
  function MoveableParser(version: int): (seq<byte>, nat) -> Option<Parsed<Moveable>> {
    if version < TrV then Tr1.ParseMoveable else Tr5.ParseMoveable
  }

  /** A count, then X.resize(count) and that many records. */
  function CountedList<T>(w: Width, current: seq<T>, blank: T, d: seq<byte>, p: nat,
                          f: (seq<byte>, nat) -> Option<Parsed<T>>): (r: Listed<T>)
    ensures r.ListRejected? ==> r.error == ArrayError(Prtl.NotEnoughMemory) && |current| != 0
    ensures r.Listed? ==> ParseWord(w, d, p).Some? && |r.values| == ParseWord(w, d, p).value.value
  {
    match ParseWord(w, d, p)
    case None => ListUndecodable
    case Some(c) =>
      if c.value < 0 then ListUndecodable
      else ListSpec(current, c.value, blank, d, c.next, f)
  }

  /** The rooms: a bitu16 count before TR5, a bitu32 count in TR5. */
  function RoomsSpec(g: Gen, s: LevelState, d: seq<byte>, p: nat): (o: Outcome)
    ensures o.Done? ==> o.data == d && o.state == s.(rooms := o.state.rooms)
    ensures o.Rejected? ==> o.error == ArrayError(Prtl.NotEnoughMemory)
  {
    match CountedList(if g == G5 then BitU32 else BitU16, s.rooms, Room(), d, p, RoomParser(g))
    case Listed(v, q) => Done(s.(rooms := v), d, q)
    case ListRejected(e) => Rejected(e)
    case ListUndecodable => Undecodable
  }

  /** The animations. */
  function AnimationsSpec(g: Gen, s: LevelState, d: seq<byte>, p: nat): (o: Outcome)
    ensures o.Done? ==> o.data == d && o.state == s.(animations := o.state.animations)
    ensures o.Rejected? ==> o.error == ArrayError(Prtl.NotEnoughMemory)
  {
    match CountedList(BitU32, s.animations, Animation(), d, p, AnimationParser(g))
    case Listed(v, q) => Done(s.(animations := v), d, q)
    case ListRejected(e) => Rejected(e)
    case ListUndecodable => Undecodable
  }

  /** The static meshes. */
  function StaticMeshesSpec(s: LevelState, d: seq<byte>, p: nat): (o: Outcome)
    ensures o.Done? ==> o.data == d && o.state == s.(static_meshes := o.state.static_meshes)
    ensures o.Rejected? ==> o.error == ArrayError(Prtl.NotEnoughMemory)
  {
    match CountedList(BitU32, s.static_meshes, StaticMesh(), d, p, Tr1.ParseStaticMesh)
    case Listed(v, q) => Done(s.(static_meshes := v), d, q)
    case ListRejected(e) => Rejected(e)
    case ListUndecodable => Undecodable
  }

  /** The object textures. */
  function ObjectTexturesSpec(g: Gen, s: LevelState, d: seq<byte>, p: nat): (o: Outcome)
    ensures o.Done? ==> o.data == d && o.state == s.(object_textures := o.state.object_textures)
    ensures o.Rejected? ==> o.error == ArrayError(Prtl.NotEnoughMemory)
  {
    match CountedList(BitU32, s.object_textures, ObjectTexture(), d, p, ObjectTextureParser(g))
    case Listed(v, q) => Done(s.(object_textures := v), d, q)
    case ListRejected(e) => Rejected(e)
    case ListUndecodable => Undecodable
  }

  /** The sprite textures. */
  function SpriteTexturesSpec(s: LevelState, d: seq<byte>, p: nat): (o: Outcome)
    ensures o.Done? ==> o.data == d && o.state == s.(sprite_textures := o.state.sprite_textures)
    ensures o.Rejected? ==> o.error == ArrayError(Prtl.NotEnoughMemory)
  {
    match CountedList(BitU32, s.sprite_textures, SpriteTexture(), d, p, Tr1.ParseSpriteTexture)
    case Listed(v, q) => Done(s.(sprite_textures := v), d, q)
    case ListRejected(e) => Rejected(e)
    case ListUndecodable => Undecodable
  }

  /** The sprite sequences. */
  function SpriteSequencesSpec(s: LevelState, d: seq<byte>, p: nat): (o: Outcome)
    ensures o.Done? ==> o.data == d && o.state == s.(sprite_sequences := o.state.sprite_sequences)
    ensures o.Rejected? ==> o.error == ArrayError(Prtl.NotEnoughMemory)
  {
    match CountedList(BitU32, s.sprite_sequences, SpriteSequence(), d, p, Tr1.ParseSpriteSequence)
    case Listed(v, q) => Done(s.(sprite_sequences := v), d, q)
    case ListRejected(e) => Rejected(e)
    case ListUndecodable => Undecodable
  }

  /** The items. */
  function ItemsSpec(g: Gen, s: LevelState, d: seq<byte>, p: nat): (o: Outcome)
    ensures o.Done? ==> o.data == d && o.state == s.(items := o.state.items)
    ensures o.Rejected? ==> o.error == ArrayError(Prtl.NotEnoughMemory)
  {
    match CountedList(BitU32, s.items, Item(), d, p, ItemParser(g))
    case Listed(v, q) => Done(s.(items := v), d, q)
    case ListRejected(e) => Rejected(e)
    case ListUndecodable => Undecodable
  }

  /** The counted lists of records. */
  function ListStepSpec(step: Records, s: LevelState, d: seq<byte>, p: nat): (o: Outcome)
    ensures o.Done? ==> o.data == d
    ensures o.Done? ==> match step
      case Rooms(_) => o.state == s.(rooms := o.state.rooms)
      case Animations(_) => o.state == s.(animations := o.state.animations)
      case StaticMeshes => o.state == s.(static_meshes := o.state.static_meshes)
      case ObjectTextures(_) => o.state == s.(object_textures := o.state.object_textures)
      case SpriteTextures => o.state == s.(sprite_textures := o.state.sprite_textures)
      case SpriteSequences => o.state == s.(sprite_sequences := o.state.sprite_sequences)
      case Items(_) => o.state == s.(items := o.state.items)
    ensures o.Rejected? ==> o.error == ArrayError(Prtl.NotEnoughMemory)
  {
    match step
    case Rooms(g) => RoomsSpec(g, s, d, p)
    case Animations(g) => AnimationsSpec(g, s, d, p)
    case StaticMeshes => StaticMeshesSpec(s, d, p)
    case ObjectTextures(g) => ObjectTexturesSpec(g, s, d, p)
    case SpriteTextures => SpriteTexturesSpec(s, d, p)
    case SpriteSequences => SpriteSequencesSpec(s, d, p)
    case Items(g) => ItemsSpec(g, s, d, p)
  }

  /** num_mesh_trees must be a multiple of 4; a quarter of it is the number
      of mesh trees. */
  function MeshTreesSpec(message: string, s: LevelState, d: seq<byte>, p: nat): (o: Outcome)
    ensures o.Done? ==> o.data == d && o.state == s.(mesh_trees := o.state.mesh_trees)
  {
    match ParseBitU32(d, p)
    case None => Undecodable
    case Some(c) =>
      if c.value % 4 != 0 then Fail(message)
      else
        match ListSpec(s.mesh_trees, c.value / 4, MeshTree(), d, c.next, Tr1.ParseMeshTree)
        case Listed(v, q) => Done(s.(mesh_trees := v), d, q)
        case ListRejected(e) => Rejected(e)
        case ListUndecodable => Undecodable
  }

  // ---------------------------------------------------------------------
  // read_mesh_data and read_frame_moveable_data

  /** The meshes read at the given byte positions of the mesh buffer, the
      k-th into meshes[first + k]: SDL_RWseek(newsrc, pos, SEEK_SET) and
      read_tr4_mesh from TR_IV on, read_tr_mesh before. */
  function MeshesAt(buffer: seq<byte>, positions: seq<int>, first: nat, tr4: bool, ms: seq<Mesh>): (r: Option<seq<Mesh>>)
    requires first + |positions| <= |ms|
    ensures r.Some? ==> |r.value| == |ms|
    ensures r.Some? ==> forall j | 0 <= j < first :: r.value[j] == ms[j]
    ensures r.Some? ==> forall j | first + |positions| <= j < |ms| :: r.value[j] == ms[j]
    ensures r.Some? ==> forall k | 0 <= k < |positions| ::
      Some(Parsed(r.value[first + k], MeshEnd(buffer, positions[k], tr4))) == MeshAt(buffer, positions[k], tr4)
    decreases |positions|
  {
    if positions == [] then Some(ms)
    else
      match MeshAt(buffer, positions[0], tr4)
      case None => None
      case Some(x) =>
        var rest := MeshesAt(buffer, positions[1..], first + 1, tr4, ms[first := x.value]);
        if rest.None? then None
        else
          assert forall k | 1 <= k < |positions| :: positions[k] == positions[1..][k - 1];
          rest
  }

  /** The mesh at byte offset `pos` of the mesh buffer. */
  function MeshAt(buffer: seq<byte>, pos: int, tr4: bool): Option<Parsed<Mesh>> {
    var q := Clamp(ToBit32(pos), |buffer|);
    if tr4 then Tr4.ParseMesh(buffer, q) else Tr1.ParseMesh(buffer, q)
  }

  /** Where the mesh at `pos` ends, when it decodes. */
  function MeshEnd(buffer: seq<byte>, pos: int, tr4: bool): nat {
    match MeshAt(buffer, pos, tr4)
    case Some(x) => x.next
    case None => 0
  }

  /** read_mesh_data: the mesh buffer (num_mesh_data 16-bit words), the
      mesh pointers, one mesh read per pointer at the positions
      Resolve.MeshPositions, and every pointer turned into the number of its
      mesh. */
  function MeshDataSpec(s: LevelState, d: seq<byte>, p: nat): (o: Outcome)
    ensures o.Done? ==> o.data == d && o.state == s.(mesh_indices := o.state.mesh_indices, meshes := o.state.meshes)
    ensures o.Done? ==> |o.state.meshes| == |o.state.mesh_indices|
  {
    match ParseBitU32(d, p)
    case None => Undecodable
    case Some(n) =>
      var size := Wrap32(n.value * 2);
      if n.next + size > |d| then Fail(MeshDataShort)
      else
        var buffer := d[n.next..n.next + size];
        match ParseBitU32(d, n.next + size)
        case None => Undecodable
        case Some(m) =>
          match Prtl.Resized(s.mesh_indices, m.value, 0)
          case Failure(e) => Rejected(e)
          case Success(_) =>
            match ParseMany(d, m.next, m.value, ParseBitU32)
            case None => Undecodable
            case Some(ix) =>
              match Prtl.Resized(s.meshes, m.value, Mesh())
              case Failure(e) => Rejected(e)
              case Success(ms) =>
                match MeshesAt(buffer, Resolve.MeshPositions(ix.value), 0, s.game_version >= TrIV, ms)
                case None => Undecodable
                case Some(ms') => Done(s.(mesh_indices := Resolve.ResolveMeshIndices(ix.value).table, meshes := ms'), d, ix.next)
  }

  /** read_frame_moveable_data: the frame buffer is read and not decoded;
      the moveables are read and their frame offsets turned into frame
      numbers. */
  function FrameMoveableSpec(s: LevelState, d: seq<byte>, p: nat): (o: Outcome)
    ensures o.Done? ==> o.data == d && o.state == s.(moveables := o.state.moveables)
  {
    match ParseBitU32(d, p)
    case None => Undecodable
    case Some(n) =>
      var size := Wrap32(n.value * 2);
      if n.next + size > |d| then Fail(FrameDataShort)
      else
        match ParseBitU32(d, n.next + size)
        case None => Undecodable
        case Some(m) =>
          match ListSpec(s.moveables, m.value, Moveable(), d, m.next, MoveableParser(s.game_version))
          case Listed(v, q) => Done(s.(moveables := Resolve.ResolveFrames(v).table), d, q)
          case ListRejected(e) => Rejected(e)
          case ListUndecodable => Undecodable
  }

  // ---------------------------------------------------------------------
  // Textiles, palettes, checks

  /** Values read by read_bit8/bitu16/bitu32 and compared against the
      accepted ones (version numbers, zero fields, markers, fillers). */
  function CheckSpec(w: Width, accepted: seq<int>, message: string, s: LevelState, d: seq<byte>, p: nat): (o: Outcome)
    ensures o.Done? <==> ParseWord(w, d, p).Some? && ParseWord(w, d, p).value.value in accepted
    ensures o.Done? ==> o == Done(s, d, ParseWord(w, d, p).value.next)
    ensures o.Rejected? <==> ParseWord(w, d, p).Some? && ParseWord(w, d, p).value.value !in accepted
    ensures o.Rejected? ==> o == Fail(message)
  {
    match ParseWord(w, d, p)
    case None => Undecodable
    case Some(v) => if v.value in accepted then Done(s, d, v.next) else Fail(message)
  }

  function HeaderStepSpec(step: Header, s: LevelState, d: seq<byte>, p: nat): (o: Outcome)
    ensures o.Done? ==> o.data == d
    ensures o.Done? ==> match step
      case Check(_, _, _) => o.state == s
      case Ignore(_) => o.state == s
      case ResetTextileCounts =>
        o.state == s.(num_textiles := 0, num_room_textiles := 0, num_obj_textiles := 0, num_bump_textiles := 0,
                      num_misc_textiles := 0, read_32bit_textiles := false)
      case TextileCounts(_) =>
        o.state == s.(num_textiles := o.state.num_textiles, num_room_textiles := o.state.num_room_textiles,
                      num_obj_textiles := o.state.num_obj_textiles, num_bump_textiles := o.state.num_bump_textiles,
                      num_misc_textiles := o.state.num_misc_textiles)
      case Textiles8 => o.state == s.(num_textiles := o.state.num_textiles, textile8 := o.state.textile8) &&
                        |o.state.textile8| == o.state.num_textiles
      case Textiles16 => o.state == s.(textile16 := o.state.textile16) && |o.state.textile16| == s.num_textiles
      case Palette => o.state == s.(palette := o.state.palette) && |o.state.palette| == 256
      case Palette16 => o.state == s.(palette16 := o.state.palette16) && |o.state.palette16| == 256
      case Lightmap => o.state == s.(lightmap := o.state.lightmap) && |o.state.lightmap| == 0x2000
  {
    match step
    case Check(w, accepted, message) => CheckSpec(w, accepted, message, s, d, p)
    case Ignore(w) => IgnoreSpec(w, s, d, p)
    case ResetTextileCounts =>
      Done(s.(num_textiles := 0, num_room_textiles := 0, num_obj_textiles := 0, num_bump_textiles := 0,
              num_misc_textiles := 0, read_32bit_textiles := false), d, p)
    case TextileCounts(misc) => TextileCountsSpec(misc, s, d, p)
    case Textiles8 => Textiles8Spec(s, d, p)
    case Textiles16 => Textiles16Spec(s, d, p)
    case Palette => PaletteSpec(s, d, p)
    case Palette16 => Palette16Spec(s, d, p)
    case Lightmap => LightmapSpec(s, d, p)
  }

  /** A value read and dropped. */
  function IgnoreSpec(w: Width, s: LevelState, d: seq<byte>, p: nat): (o: Outcome)
    ensures o.Done? <==> ParseWord(w, d, p).Some?
    ensures o.Done? ==> o == Done(s, d, ParseWord(w, d, p).value.next)
  {
    match ParseWord(w, d, p)
    case None => Undecodable
    case Some(v) => Done(s, d, v.next)
  }

  /** The 256-colour palette of the 8-bit textiles. */
  function PaletteSpec(s: LevelState, d: seq<byte>, p: nat): (o: Outcome)
    ensures o.Done? ==> o.data == d && o.state == s.(palette := o.state.palette) && |o.state.palette| == 256
    ensures !o.Rejected?
  {
    match Tr1.ParsePalette(d, p)
    case None => Undecodable
    case Some(x) => Done(s.(palette := x.value), d, x.next)
  }

  /** The 256-colour palette of the 16-bit textiles. */
  function Palette16Spec(s: LevelState, d: seq<byte>, p: nat): (o: Outcome)
    ensures o.Done? ==> o.data == d && o.state == s.(palette16 := o.state.palette16) && |o.state.palette16| == 256
    ensures !o.Rejected?
  {
    match Tr2.ParsePalette16(d, p)
    case None => Undecodable
    case Some(x) => Done(s.(palette16 := x.value), d, x.next)
  }

  /** The 8192-entry light map. */
  function LightmapSpec(s: LevelState, d: seq<byte>, p: nat): (o: Outcome)
    ensures o.Done? ==> o.data == d && o.state == s.(lightmap := o.state.lightmap) && |o.state.lightmap| == 0x2000
    ensures !o.Rejected?
  {
    match Tr1.ParseLightmap(d, p)
    case None => Undecodable
    case Some(x) => Done(s.(lightmap := x.value), d, x.next)
  }

  /** Three bitu16 counts and `misc` misc textiles; num_textiles is their
      sum, as a bitu32. */
  function TextileCountsSpec(misc: nat, s: LevelState, d: seq<byte>, p: nat): (o: Outcome)
    ensures o.Done? ==> o.data == d && o.pos == p + 6
    ensures o.Done? ==>
      o.state == s.(num_textiles := o.state.num_textiles, num_room_textiles := o.state.num_room_textiles,
                    num_obj_textiles := o.state.num_obj_textiles, num_bump_textiles := o.state.num_bump_textiles,
                    num_misc_textiles := misc)
  {
    if p + 6 > |d| then Undecodable
    else
      var room, obj, bump := U16At(d, p), U16At(d, p + 2), U16At(d, p + 4);
      Done(s.(num_room_textiles := room, num_obj_textiles := obj, num_bump_textiles := bump,
              num_misc_textiles := misc, num_textiles := Wrap32(room + obj + bump + misc)), d, p + 6)
  }

  /** num_textiles, then that many 8-bit textiles. */
  function Textiles8Spec(s: LevelState, d: seq<byte>, p: nat): (o: Outcome)
    ensures o.Done? ==> o.data == d && o.state == s.(num_textiles := o.state.num_textiles, textile8 := o.state.textile8)
    ensures o.Done? ==> |o.state.textile8| == o.state.num_textiles
  {
    match ParseBitU32(d, p)
    case None => Undecodable
    case Some(n) =>
      match ListSpec(s.textile8, n.value, BlankTextile(), d, n.next, Tr1.ParseTextile8)
      case Listed(v, q) => Done(s.(num_textiles := n.value, textile8 := v), d, q)
      case ListRejected(e) => Rejected(e)
      case ListUndecodable => Undecodable
  }

  /** num_textiles 16-bit textiles. */
  function Textiles16Spec(s: LevelState, d: seq<byte>, p: nat): (o: Outcome)
    ensures o.Done? ==> o.data == d && o.state == s.(textile16 := o.state.textile16)
    ensures o.Done? ==> |o.state.textile16| == s.num_textiles
  {
    match ListSpec(s.textile16, s.num_textiles, BlankTextile(), d, p, Tr2.ParseTextile16)
    case Listed(v, q) => Done(s.(textile16 := v), d, q)
    case ListRejected(e) => Rejected(e)
    case ListUndecodable => Undecodable
  }

  // ---------------------------------------------------------------------
  // The compressed segments of TR4 and TR5

  /** uncompress into a buffer of `capacity` bytes: Z_OK with the bytes
      written, or none when the stream is invalid or does not fit. */
  function Uncompress(inflate: Inflate, comp: seq<byte>, capacity: nat): (r: Option<seq<byte>>)
    ensures r.Some? ==> |r.value| <= capacity && inflate(comp) == r
  {
    match inflate(comp)
    case Some(out) => if |out| <= capacity then Some(out) else None
    case None => None
  }

  /** The comp_size bytes at `p`, uncompressed into uncomp_size bytes: a
      short read throws `short`, a failed uncompress or a short output
      throws its own message. */
  function Unpack(inflate: Inflate, d: seq<byte>, p: nat, comp: nat, uncomp: nat, short: string, tag: string): (r: Result<Parsed<seq<byte>>>)
    ensures r.Success? ==> |r.value.value| == uncomp && r.value.next == p + comp <= |d|
    ensures r.Success? ==> inflate(d[p..p + comp]) == Some(r.value.value)
    ensures r.Failure? ==> r.error.ReadError?
  {
    if p + comp > |d| then Failure(ReadError(short))
    else
      match Uncompress(inflate, d[p..p + comp], uncomp)
      case None => Failure(ReadError(tag + "uncompress"))
      case Some(out) =>
        if |out| != uncomp then Failure(ReadError(tag + "uncompress size mismatch"))
        else Success(Parsed(out, p + comp))
  }

  datatype Fill = Filled(tiles: seq<Textile>) | FillRejected(error: Error) | FillUndecodable

  /** dst[i] read for i from `from` up to `end` from the uncompressed
      buffer, each through the bounds check of prtl::array::operator[]. */
  function FillTextiles(d: seq<byte>, p: nat, dst: seq<Textile>, from: nat, end: nat,
                        f: (seq<byte>, nat) -> Option<Parsed<Textile>>): (r: Fill)
    ensures r.Filled? ==> |r.tiles| == |dst|
    ensures r.Filled? ==> forall j | 0 <= j < |dst| && !(from <= j < end) :: r.tiles[j] == dst[j]
    ensures r.FillRejected? ==> r.error == ArrayError(Prtl.OutOfBounds) && |dst| < end
    ensures r.Filled? && from < end ==> end <= |dst|
    decreases end - from
  {
    if from >= end then Filled(dst)
    else
      match Prtl.Store(dst, from, BlankTextile())
      case Failure(e) => FillRejected(e)
      case Success(_) =>
        match f(d, p)
        case None => FillUndecodable
        case Some(t) => FillTextiles(d, t.next, dst[from := t.value], from + 1, end, f)
  }

  function SegmentStepSpec(step: Segment, inflate: Inflate, s: LevelState, d: seq<byte>, p: nat): (o: Outcome)
    ensures o.Done? ==> match step
      case Segment32(_) => o.state == s.(textile32 := o.state.textile32, read_32bit_textiles := o.state.read_32bit_textiles)
      case Segment16(_) => o.state == s.(textile16 := o.state.textile16)
      case SegmentMisc(_, _, _, _) => o.state == s.(textile32 := o.state.textile32)
      case PackedGeometry(_) => o.state == s
    ensures o.Done? && !step.PackedGeometry? ==> o.data == d
  {
    match ParseBitU32(d, p)
    case None => Undecodable
    case Some(u) =>
      if u.value == 0 && !step.PackedGeometry? then
        Fail(step.tag + (match step
                         case Segment32(_) => "textiles32 uncomp_size == 0"
                         case Segment16(_) => "textiles16 uncomp_size == 0"
                         case _ => "textiles32d uncomp_size == 0"))
      else
        match ParseBitU32(d, u.next)
        case None => Undecodable
        case Some(c) =>
          match step
          case Segment32(tag) => Segment32Spec(tag, inflate, s, d, c.next, u.value, c.value)
          case Segment16(tag) => Segment16Spec(tag, inflate, s, d, c.next, u.value, c.value)
          case SegmentMisc(tag, limit, tooMany, all) => SegmentMiscSpec(tag, limit, tooMany, all, inflate, s, d, c.next, u.value, c.value)
          case PackedGeometry(tag) =>
            if c.value == 0 then Fail(tag + "packed geometry")
            else
              match Unpack(inflate, d, c.next, c.value, u.value, tag + "packed geometry", tag)
              case Failure(e) => Rejected(e)
              case Success(b) => Done(s, b.value, 0)
  }

  /** The 32-bit textiles other than the misc ones. */
  function Segment32Spec(tag: string, inflate: Inflate, s: LevelState, d: seq<byte>, p: nat, uncomp: nat, comp: nat): Outcome {
    if comp == 0 then Done(s, d, p)
    else
      match Prtl.Resized(s.textile32, s.num_textiles, BlankTextile())
      case Failure(e) => Rejected(e)
      case Success(t32) =>
        match Unpack(inflate, d, p, comp, uncomp, tag + "textiles32", tag)
        case Failure(e) => Rejected(e)
        case Success(b) =>
          match FillTextiles(b.value, 0, t32, 0, Wrap32(s.num_textiles - s.num_misc_textiles), Tr4.ParseTextile32)
          case Filled(t) => Done(s.(textile32 := t, read_32bit_textiles := true), d, b.next)
          case FillRejected(e) => Rejected(e)
          case FillUndecodable => Undecodable
  }

  /** The 16-bit textiles, decoded only when no 32-bit textile was read and
      skipped over otherwise. */
  function Segment16Spec(tag: string, inflate: Inflate, s: LevelState, d: seq<byte>, p: nat, uncomp: nat, comp: nat): Outcome {
    if comp == 0 then Done(s, d, p)
    else if |s.textile32| != 0 then Done(s, d, Clamp(p + ToBit32(comp), |d|))
    else
      match Prtl.Resized(s.textile16, s.num_textiles, BlankTextile())
      case Failure(e) => Rejected(e)
      case Success(t16) =>
        match Unpack(inflate, d, p, comp, uncomp, tag + "textiles16", tag)
        case Failure(e) => Rejected(e)
        case Success(b) =>
          match FillTextiles(b.value, 0, t16, 0, Wrap32(s.num_textiles - s.num_misc_textiles), Tr2.ParseTextile16)
          case Filled(t) => Done(s.(textile16 := t), d, b.next)
          case FillRejected(e) => Rejected(e)
          case FillUndecodable => Undecodable
  }

  /** The misc 32-bit textiles, the last num_misc_textiles of textile32. An
      empty textile32 is first resized to num_textiles (`all`) or, as
      read_tr5_level writes it, to num_misc_textiles. */
  function SegmentMiscSpec(tag: string, limit: nat, tooMany: string, all: bool, inflate: Inflate,
                           s: LevelState, d: seq<byte>, p: nat, uncomp: nat, comp: nat): Outcome {
    if comp == 0 then Done(s, d, p)
    else if uncomp / (256 * 256 * 4) > limit then Fail(tooMany)
    else
      var resized := if |s.textile32| == 0
                     then Prtl.Resized(s.textile32, if all then s.num_textiles else s.num_misc_textiles, BlankTextile())
                     else Success(s.textile32);
      match resized
      case Failure(e) => Rejected(e)
      case Success(t32) =>
        match Unpack(inflate, d, p, comp, uncomp, tag + "misc_textiles", tag)
        case Failure(e) => Rejected(e)
        case Success(b) =>
          match FillTextiles(b.value, 0, t32, Wrap32(s.num_textiles - s.num_misc_textiles), s.num_textiles, Tr4.ParseTextile32)
          case Filled(t) => Done(s.(textile32 := t), d, b.next)
          case FillRejected(e) => Rejected(e)
          case FillUndecodable => Undecodable
  }

  // ---------------------------------------------------------------------
  // Running the steps

  function StepSpec(step: Step, inflate: Inflate, s: LevelState, d: seq<byte>, p: nat): Outcome {
    match step
    case Head(h) => HeaderStepSpec(h, s, d, p)
    case Skip(f, w, size) => SkipSpec(f, w, size, s, d, p)
    case Zones(size) => ZonesSpec(size, s, d, p)
    case SkipBytes(n) => Done(s, d, Clamp(p + n, |d|))
    case List(l) => ListStepSpec(l, s, d, p)
    case MeshData => MeshDataSpec(s, d, p)
    case MeshTrees(message) => MeshTreesSpec(message, s, d, p)
    case FrameMoveableData => FrameMoveableSpec(s, d, p)
    case Compressed(c) => SegmentStepSpec(c, inflate, s, d, p)
  }

  /** The steps in order; the first that does not complete ends the run. */
  function Run(steps: seq<Step>, inflate: Inflate, s: LevelState, d: seq<byte>, p: nat): Outcome
    decreases |steps|
  {
    if steps == [] then Done(s, d, p)
    else
      match StepSpec(steps[0], inflate, s, d, p)
      case Done(s', d', p') => Run(steps[1..], inflate, s', d', p')
      case other => other
  }

  // ---------------------------------------------------------------------
  // The five level readers

  const Tr4Tag := "read_tr4_level: "
  const Tr5Tag := "read_tr5_level: "

  /** read_tr_level (l_tr1.cpp). The palette comes after the sprite
      sequences in the demo and Unfinished Business levels, after the
      lightmap otherwise. */
  function Tr1Sections(demo: bool): seq<Step> {
    [Head(Check(BitU32, [0x20], WrongVersion))] +
    [Head(ResetTextileCounts), Head(Textiles8), Head(Check(BitU32, [0], BadUnused)),
     List(Rooms(G1)), Skip(FloorData, BitU32, 2), MeshData, List(Animations(G1)),
     Skip(StateChanges, BitU32, 6), Skip(AnimDispatches, BitU32, 8), Skip(AnimCommands, BitU32, 2),
     MeshTrees("read_tr_level: num_mesh_trees % 4 != 0"), FrameMoveableData,
     List(StaticMeshes), List(ObjectTextures(G1)), List(SpriteTextures), List(SpriteSequences)] +
    (if demo then [Head(Palette)] else []) +
    [Skip(Cameras, BitU32, 16), Skip(SoundSources, BitU32, 16), Skip(Boxes, BitU32, 20),
     Skip(Overlaps, BitU32, 2), Zones(12), Skip(AnimatedTextures, BitU32, 2), List(Items(G1)), Head(Lightmap)] +
    (if demo then [] else [Head(Palette)]) +
    [Skip(CinematicFrames, BitU16, 16), Skip(DemoData, BitU16, 1), SkipBytes(2 * 256),
     Skip(SoundDetails, BitU32, 8), Skip(Samples, BitU32, 1), Skip(SampleIndices, BitU32, 4)]
  }

  /** read_tr2_level (l_tr2.cpp). The lightmap comes after the sprite
      sequences in the demo, after the items otherwise. */
  function Tr2Sections(demo: bool): seq<Step> {
    [Head(Check(BitU32, [0x2d], WrongVersion))] +
    [Head(Palette), Head(Palette16), Head(ResetTextileCounts), Head(Textiles8), Head(Textiles16),
     Head(Check(BitU32, [0], BadUnused)), List(Rooms(G2)), Skip(FloorData, BitU32, 2), MeshData, List(Animations(G1)),
     Skip(StateChanges, BitU32, 6), Skip(AnimDispatches, BitU32, 8), Skip(AnimCommands, BitU32, 2),
     MeshTrees("read_tr2_level: num_mesh_trees % 4 != 0"), FrameMoveableData,
     List(StaticMeshes), List(ObjectTextures(G1)), List(SpriteTextures), List(SpriteSequences)] +
    (if demo then [Head(Lightmap)] else []) +
    [Skip(Cameras, BitU32, 16), Skip(SoundSources, BitU32, 16), Skip(Boxes, BitU32, 8),
     Skip(Overlaps, BitU32, 2), Zones(20), Skip(AnimatedTextures, BitU32, 2), List(Items(G2))] +
    (if demo then [] else [Head(Lightmap)]) +
    [Skip(CinematicFrames, BitU16, 16), Skip(DemoData, BitU16, 1), SkipBytes(2 * 370),
     Skip(SoundDetails, BitU32, 8), Skip(SampleIndices, BitU32, 4)]
  }

  /** read_tr3_level (l_tr3.cpp): the object textures come after the
      animated textures. */
  function Tr3Sections(): seq<Step> {
    [Head(Check(BitU32, [0xFF08_0038, 0xFF18_0038], WrongVersion))] +
    [Head(Palette), Head(Palette16), Head(ResetTextileCounts),
     Head(Textiles8), Head(Textiles16), Head(Check(BitU32, [0], BadUnused)), List(Rooms(G3)), Skip(FloorData, BitU32, 2), MeshData,
     List(Animations(G1)), Skip(StateChanges, BitU32, 6), Skip(AnimDispatches, BitU32, 8), Skip(AnimCommands, BitU32, 2),
     MeshTrees("read_tr3_level: num_mesh_trees % 4 != 0"), FrameMoveableData, List(StaticMeshes),
     List(SpriteTextures), List(SpriteSequences), Skip(Cameras, BitU32, 16), Skip(SoundSources, BitU32, 16),
     Skip(Boxes, BitU32, 8), Skip(Overlaps, BitU32, 2), Zones(20), Skip(AnimatedTextures, BitU32, 2),
     List(ObjectTextures(G1)), List(Items(G3)), Head(Lightmap), Skip(CinematicFrames, BitU16, 16), Skip(DemoData, BitU16, 1),
     SkipBytes(2 * 370), Skip(SoundDetails, BitU32, 8), Skip(SampleIndices, BitU32, 4)]
  }

  /** read_tr4_level (l_tr4.cpp): three compressed textile segments, then
      the rest of the level from one compressed buffer. */
  function Tr4Sections(): seq<Step> {
    [Head(Check(BitU32, [0x0034_5254], WrongVersion))] +
    [Head(ResetTextileCounts), Head(TextileCounts(2)),
     Compressed(Segment32(Tr4Tag)), Compressed(Segment16(Tr4Tag)), Compressed(SegmentMisc(Tr4Tag, 2, Tr4Tag + "num_misc_textiles > 2", true)),
     Compressed(PackedGeometry(Tr4Tag)),
     Head(Check(BitU32, [0], BadUnused)), List(Rooms(G4)), Skip(FloorData, BitU32, 2), MeshData, List(Animations(G4)),
     Skip(StateChanges, BitU32, 6), Skip(AnimDispatches, BitU32, 8), Skip(AnimCommands, BitU32, 2),
     MeshTrees("read_tr4_level: num_mesh_trees % 4 != 0"), FrameMoveableData, List(StaticMeshes),
     Head(Check(Bit8, ['S' as int], Tr4Tag + "'SPR' not found")), Head(Check(Bit8, ['P' as int], Tr4Tag + "'SPR' not found")),
     Head(Check(Bit8, ['R' as int], Tr4Tag + "'SPR' not found")),
     List(SpriteTextures), List(SpriteSequences), Skip(Cameras, BitU32, 16), Skip(FlybyCameras, BitU32, 40),
     Skip(SoundSources, BitU32, 16), Skip(Boxes, BitU32, 8), Skip(Overlaps, BitU32, 2), Zones(20),
     Skip(AnimatedTextures, BitU32, 2),
     Head(Check(Bit8, [0, 1, 2, 4], Tr4Tag + "unknown before TEX has bad value")),
     Head(Check(Bit8, ['T' as int], Tr4Tag + "'\\0TEX' not found")), Head(Check(Bit8, ['E' as int], Tr4Tag + "'\\0TEX' not found")),
     Head(Check(Bit8, ['X' as int], Tr4Tag + "'\\0TEX' not found")),
     List(ObjectTextures(G4)), List(Items(G3)), Skip(AiObjects, BitU32, 24), Skip(DemoData, BitU16, 1), SkipBytes(2 * 370),
     Skip(SoundDetails, BitU32, 8), Skip(SampleIndices, BitU32, 4),
     Head(Check(BitU16, [0, 0xCDCD], Tr4Tag + "filler1 has wrong value")),
     Head(Check(BitU16, [0, 0xCDCD], Tr4Tag + "filler2 has wrong value")),
     Head(Check(BitU16, [0, 0xCDCD], Tr4Tag + "filler3 has wrong value"))]
  }

  /** The step read_tr5_level writes for its misc textiles. */
  function Tr5MiscAsWritten(): Segment {
    SegmentMisc(Tr5Tag, 3, Tr5Tag + "num_misc_textiles > 3", false)
  }

  /** read_tr5_level (l_tr5.cpp), with the misc textiles resized as
      read_tr4_level does. */
  function Tr5Sections(): seq<Step> {
    [Head(Check(BitU32, [0x0034_5254], WrongVersion))] +
    [Head(ResetTextileCounts), Head(TextileCounts(3)),
     Compressed(Segment32(Tr5Tag)), Compressed(Segment16(Tr5Tag)), Compressed(SegmentMisc(Tr5Tag, 3, Tr5Tag + "num_misc_textiles > 3", true)),
     Head(Ignore(BitU16)), Head(Ignore(BitU16)),
     Head(Check(BitU32, [0], "Bad value for flags[1]")), Head(Check(BitU32, [0], "Bad value for flags[2]")),
     Head(Check(BitU32, [0], "Bad value for flags[3]")), Head(Check(BitU32, [0], "Bad value for flags[4]")),
     Head(Check(BitU32, [0], "Bad value for flags[5]")), Head(Check(BitU32, [0], "Bad value for flags[6]")),
     Head(Check(BitU32, [0], "Bad value for flags[7]")), Head(Ignore(BitU32)), Head(Ignore(BitU32)),
     Head(Check(BitU32, [0], BadUnused)), List(Rooms(G5)), Skip(FloorData, BitU32, 2), MeshData, List(Animations(G1)),
     Skip(StateChanges, BitU32, 6), Skip(AnimDispatches, BitU32, 8), Skip(AnimCommands, BitU32, 2),
     MeshTrees("read_tr5_level: num_mesh_trees % 4 != 0"), FrameMoveableData, List(StaticMeshes),
     Head(Check(Bit8, ['S' as int], Tr5Tag + "'SPR' not found")), Head(Check(Bit8, ['P' as int], Tr5Tag + "'SPR' not found")),
     Head(Check(Bit8, ['R' as int], Tr5Tag + "'SPR' not found")), Head(Check(Bit8, [0], Tr5Tag + "'SPR' not found")),
     List(SpriteTextures), List(SpriteSequences), Skip(Cameras, BitU32, 16), Skip(FlybyCameras, BitU32, 40),
     Skip(SoundSources, BitU32, 16), Skip(Boxes, BitU32, 8), Skip(Overlaps, BitU32, 2), Zones(20),
     Skip(AnimatedTextures, BitU32, 2),
     Head(Check(Bit8, [0, 1, 2, 3, 4], Tr5Tag + "unknown before TEX has bad value")),
     Head(Check(Bit8, ['T' as int], Tr5Tag + "'\\0TEX' not found")), Head(Check(Bit8, ['E' as int], Tr5Tag + "'\\0TEX' not found")),
     Head(Check(Bit8, ['X' as int], Tr5Tag + "'\\0TEX' not found")), Head(Check(Bit8, [0], Tr5Tag + "'\\0TEX' not found")),
     List(ObjectTextures(G5)), List(Items(G3)), Skip(AiObjects, BitU32, 24), Skip(DemoData, BitU16, 1), SkipBytes(2 * 450),
     Skip(SoundDetails, BitU32, 8), Skip(SampleIndices, BitU32, 4)]
  }

  /** The reader read_level dispatches to for a game version. */
  function LevelSections(version: int): (r: Option<seq<Step>>)
    ensures r.Some? <==> TrI <= version <= TrV
  {
    if version == TrI then Some(Tr1Sections(false))
    else if version == TrIDemo || version == TrIUb then Some(Tr1Sections(true))
    else if version == TrII then Some(Tr2Sections(false))
    else if version == TrIIDemo then Some(Tr2Sections(true))
    else if version == TrIII then Some(Tr3Sections())
    else if version == TrIV || version == TrIVDemo then Some(Tr4Sections())
    else if version == TrV then Some(Tr5Sections())
    else None
  }

  /** read_level: game_version is set before the dispatch. */
  function ReadLevelSpec(version: int, inflate: Inflate, s: LevelState, d: seq<byte>, p: nat): (o: Outcome)
    ensures !(TrI <= version <= TrV) ==> o == Fail("Invalid game version")
  {
    match LevelSections(version)
    case None => Fail("Invalid game version")
    case Some(steps) => Run(steps, inflate, s.(game_version := version), d, p)
  }

  // ---------------------------------------------------------------------
  // Properties of the readers

  /** Every record of a list satisfies what every record decoded by `f`
      satisfies. */
  lemma {:induction false} ParseManyAll<T>(d: seq<byte>, p: nat, n: nat, f: (seq<byte>, nat) -> Option<Parsed<T>>, P: T -> bool)
    requires forall q: nat :: f(d, q).Some? ==> P(f(d, q).value.value)
    ensures ParseMany(d, p, n, f).Some? ==> forall k | 0 <= k < n :: P(ParseMany(d, p, n, f).value.value[k])
    decreases n
  {
    if n > 0 && ParseMany(d, p, n, f).Some? {
      assert ParseMany(d, p, n, f) == ParseManyCons(d, p, n, f);
      var x := f(d, p).value;
      ParseManyAll(d, x.next, n - 1, f, P);
      var all := ParseMany(d, p, n, f).value.value;
      var rest := ParseMany(d, x.next, n - 1, f).value.value;
      assert all == [x.value] + rest;
      forall k | 0 <= k < n ensures P(all[k]) {
        if k > 0 { assert all[k] == rest[k - 1]; }
      }
    }
  }

  lemma ShiftByOne(p: nat, size: nat, k: nat)
    requires k > 0
    ensures p + size + (k - 1) * size == p + k * size
  {
  }

  /** The k-th textile filled is the one at k blocks of `size` bytes from
      the start. */
  lemma {:induction false} FillFixedSize(d: seq<byte>, p: nat, dst: seq<Textile>, from: nat, end: nat,
                                         f: (seq<byte>, nat) -> Option<Parsed<Textile>>, size: nat)
    requires forall q: nat :: f(d, q).Some? ==> f(d, q).value.next == q + size
    ensures var r := FillTextiles(d, p, dst, from, end, f);
      r.Filled? ==> forall k | 0 <= k < end - from :: f(d, p + k * size) == Some(Parsed(r.tiles[from + k], p + k * size + size))
    decreases end - from
  {
    var r := FillTextiles(d, p, dst, from, end, f);
    if from < end && r.Filled? {
      var t := f(d, p).value;
      var dst' := dst[from := t.value];
      FillFixedSize(d, t.next, dst', from + 1, end, f, size);
      assert r == FillTextiles(d, t.next, dst', from + 1, end, f);
      forall k | 0 <= k < end - from ensures f(d, p + k * size) == Some(Parsed(r.tiles[from + k], p + k * size + size)) {
        if k > 0 {
          ShiftByOne(p, size, k);
          assert r.tiles[from + k] == r.tiles[(from + 1) + (k - 1)];
        }
      }
    }
  }

  /** Filling keeps every textile 256x256 when the reader decodes
      256x256 textiles. */
  lemma {:induction false} FillShaped(d: seq<byte>, p: nat, dst: seq<Textile>, from: nat, end: nat,
                                      f: (seq<byte>, nat) -> Option<Parsed<Textile>>)
    requires forall q: nat :: f(d, q).Some? ==> Shaped(f(d, q).value.value)
    requires forall i | 0 <= i < |dst| :: Shaped(dst[i])
    ensures var r := FillTextiles(d, p, dst, from, end, f);
      r.Filled? ==> forall i | 0 <= i < |r.tiles| :: Shaped(r.tiles[i])
    decreases end - from
  {
    var r := FillTextiles(d, p, dst, from, end, f);
    if from < end && from < |dst| && f(d, p).Some? {
      var t := f(d, p).value;
      var dst' := dst[from := t.value];
      assert forall i | 0 <= i < |dst'| :: Shaped(dst'[i]);
      FillShaped(d, t.next, dst', from + 1, end, f);
      assert r == FillTextiles(d, t.next, dst', from + 1, end, f);
    }
  }

  /** The file version each reader accepts. */
  function FileVersions(version: int): seq<int> {
    if version <= TrIUb then [0x20]
    else if version <= TrIIDemo then [0x2d]
    else if version == TrIII then [0xFF08_0038, 0xFF18_0038]
    else [0x0034_5254]
  }

  /** Every reader starts with the file version: a file whose first word is
      not a version of its game is refused, and one too short for a word
      does not decode. */
  lemma WrongVersionRejected(version: int, inflate: Inflate, s: LevelState, d: seq<byte>, p: nat)
    requires TrI <= version <= TrV
    ensures p + 4 <= |d| && U32At(d, p) !in FileVersions(version) ==> ReadLevelSpec(version, inflate, s, d, p) == Fail(WrongVersion)
    ensures p + 4 > |d| ==> ReadLevelSpec(version, inflate, s, d, p) == Undecodable
  {
    VersionFirst(version);
    var steps := LevelSections(version).value;
    if p + 4 > |d| || U32At(d, p) !in FileVersions(version) {
      RunFirst(steps, inflate, s.(game_version := version), d, p);
    }
  }

  /** The first step of every reader checks the file version. */
  lemma VersionFirst(version: int)
    requires TrI <= version <= TrV
    ensures LevelSections(version).Some? && |LevelSections(version).value| > 0
    ensures LevelSections(version).value[0] == Head(Check(BitU32, FileVersions(version), WrongVersion))
  {
    var steps := LevelSections(version).value;
    var first := Head(Check(BitU32, FileVersions(version), WrongVersion));
    if version == TrI {
      assert steps == Tr1Sections(false);
    } else if version <= TrIUb {
      assert steps == Tr1Sections(true);
    } else if version == TrII {
      assert steps == Tr2Sections(false);
    } else if version == TrIIDemo {
      assert steps == Tr2Sections(true);
    } else if version == TrIII {
      assert steps == Tr3Sections();
    } else if version <= TrIVDemo {
      assert steps == Tr4Sections();
    } else {
      assert steps == Tr5Sections();
    }
  }

  /** A run whose first step does not complete ends with that step. */
  lemma RunFirst(steps: seq<Step>, inflate: Inflate, s: LevelState, d: seq<byte>, p: nat)
    requires steps != [] && !StepSpec(steps[0], inflate, s, d, p).Done?
    ensures Run(steps, inflate, s, d, p) == StepSpec(steps[0], inflate, s, d, p)
  {
  }

  /** The mesh tree count must be a multiple of four; the level then holds a
      quarter of it as mesh trees, and nothing else changes. */
  lemma MeshTreesQuarter(message: string, s: LevelState, d: seq<byte>, p: nat)
    requires p + 4 <= |d|
    ensures var o := MeshTreesSpec(message, s, d, p);
      (o == Fail(message) <==> U32At(d, p) % 4 != 0) &&
      (o.Done? ==> |o.state.mesh_trees| * 4 == U32At(d, p) && o.state == s.(mesh_trees := o.state.mesh_trees))
  {
  }

  /** TR4 and TR5 count their textiles from three bitu16 counts and a fixed
      number of misc textiles: the total never wraps. */
  lemma TextileCountsAddUp(misc: nat, s: LevelState, d: seq<byte>, p: nat)
    requires p + 6 <= |d| && misc <= 3
    ensures var o := HeaderStepSpec(TextileCounts(misc), s, d, p);
      o.Done? && o.pos == p + 6 &&
      o.state.num_textiles == U16At(d, p) + U16At(d, p + 2) + U16At(d, p + 4) + misc &&
      o.state.num_misc_textiles == misc <= o.state.num_textiles
  {
  }

  /** The 32-bit segment, when present, fills textile32 with num_textiles
      textiles, the first num_textiles - num_misc_textiles from the
      consecutive 0x40000-byte blocks of the uncompressed segment, and sets
      read_32bit_textiles; it never raises a prtl exception. */
  lemma {:induction false} Segment32Fills(tag: string, inflate: Inflate, s: LevelState, d: seq<byte>, p: nat, uncomp: nat, comp: nat)
    requires 0 < s.num_textiles < 0x1_0000_0000 && s.num_misc_textiles <= s.num_textiles
    ensures var o := Segment32Spec(tag, inflate, s, d, p, uncomp, comp);
      (comp == 0 ==> o == Done(s, d, p)) &&
      (o.Rejected? ==> o.error.ReadError?) &&
      (o.Done? && comp > 0 ==>
        o.state == s.(textile32 := o.state.textile32, read_32bit_textiles := true) &&
        |o.state.textile32| == s.num_textiles && o.pos == p + comp &&
        inflate(d[p..p + comp]).Some? &&
        forall i | 0 <= i < s.num_textiles - s.num_misc_textiles ::
          Tr4.ParseTextile32(inflate(d[p..p + comp]).value, i * 0x4_0000) == Some(Parsed(o.state.textile32[i], i * 0x4_0000 + 0x4_0000)))
  {
    var o := Segment32Spec(tag, inflate, s, d, p, uncomp, comp);
    if comp > 0 {
      var t32 := Prtl.Resized(s.textile32, s.num_textiles, BlankTextile()).value;
      var b := Unpack(inflate, d, p, comp, uncomp, tag + "textiles32", tag);
      if b.Success? {
        var end := Wrap32(s.num_textiles - s.num_misc_textiles);
        assert end == s.num_textiles - s.num_misc_textiles;
        FillFixedSize(b.value.value, 0, t32, 0, end, Tr4.ParseTextile32, 0x4_0000);
      }
    }
  }

  /** When 32-bit textiles were read, the 16-bit segment is skipped: only the
      stream moves. */
  lemma Segment16Skipped(tag: string, inflate: Inflate, s: LevelState, d: seq<byte>, p: nat, uncomp: nat, comp: nat)
    requires |s.textile32| != 0 && p <= |d| && comp < 0x8000_0000
    ensures Segment16Spec(tag, inflate, s, d, p, uncomp, comp) == Done(s, d, if p + comp <= |d| then p + comp else |d|)
  {
    assert ToBit32(comp) == comp;
  }

  /** read_tr5_level resizes an empty textile32 to num_misc_textiles and then
      stores the misc textiles at num_textiles - num_misc_textiles onwards:
      once there are four textiles or more, the store at index 3 is out of
      bounds: the first one from six textiles on, a later one, after the
      textiles before it decode, for four and five. */
  lemma Tr5MiscAsWrittenOverruns(inflate: Inflate, s: LevelState, d: seq<byte>, p: nat)
    requires |s.textile32| == 0 && s.num_misc_textiles == 3 && 4 <= s.num_textiles < 0x1_0000_0000
    requires p + 8 <= |d| && 0 < U32At(d, p) < 4 * 0x4_0000 && 0 < U32At(d, p + 4)
    requires s.num_textiles < 6 ==> (6 - s.num_textiles) * 0x4_0000 <= U32At(d, p)
    requires p + 8 + U32At(d, p + 4) <= |d|
    requires var out := inflate(d[p + 8..p + 8 + U32At(d, p + 4)]); out.Some? && |out.value| == U32At(d, p)
    ensures SegmentStepSpec(Tr5MiscAsWritten(), inflate, s, d, p) == Rejected(ArrayError(Prtl.OutOfBounds))
  {
    var t32 := Prtl.Resized(s.textile32, 3, BlankTextile()).value;
    assert |t32| == 3;
    var n := s.num_textiles;
    var b := Unpack(inflate, d, p + 8, U32At(d, p + 4), U32At(d, p), Tr5Tag + "misc_textiles", Tr5Tag).value;
    assert Wrap32(n - 3) == n - 3;
    var f := Tr4.ParseTextile32;
    if n == 4 {
      var t1 := t32[1 := Tr4.Textile32At(b.value, 0)];
      var t2 := t1[2 := Tr4.Textile32At(b.value, 0x4_0000)];
      assert FillTextiles(b.value, 0x8_0000, t2, 3, 4, f) == FillRejected(ArrayError(Prtl.OutOfBounds));
      assert FillTextiles(b.value, 0x4_0000, t1, 2, 4, f) == FillTextiles(b.value, 0x8_0000, t2, 3, 4, f);
      assert FillTextiles(b.value, 0, t32, 1, 4, f) == FillTextiles(b.value, 0x4_0000, t1, 2, 4, f);
    } else if n == 5 {
      var t2 := t32[2 := Tr4.Textile32At(b.value, 0)];
      assert FillTextiles(b.value, 0x4_0000, t2, 3, 5, f) == FillRejected(ArrayError(Prtl.OutOfBounds));
      assert FillTextiles(b.value, 0, t32, 2, 5, f) == FillTextiles(b.value, 0x4_0000, t2, 3, 5, f);
    } else {
      assert FillTextiles(b.value, 0, t32, n - 3, n, f) == FillRejected(ArrayError(Prtl.OutOfBounds));
    }
  }

  /** Resized to num_textiles, as read_tr4_level does, the misc segment
      stays in bounds: no store of it raises a prtl exception. */
  lemma {:induction false} MiscSegmentInBounds(tag: string, limit: nat, tooMany: string, inflate: Inflate,
                                               s: LevelState, d: seq<byte>, p: nat, uncomp: nat, comp: nat)
    requires s.num_misc_textiles <= s.num_textiles
    requires |s.textile32| == 0 || |s.textile32| >= s.num_textiles
    ensures SegmentMiscSpec(tag, limit, tooMany, true, inflate, s, d, p, uncomp, comp) != Rejected(ArrayError(Prtl.OutOfBounds))
  {
    var o := SegmentMiscSpec(tag, limit, tooMany, true, inflate, s, d, p, uncomp, comp);
    if comp > 0 && uncomp / (256 * 256 * 4) <= limit {
      var resized := if |s.textile32| == 0 then Prtl.Resized(s.textile32, s.num_textiles, BlankTextile()) else Success(s.textile32);
      assert resized.Success?;
      var b := Unpack(inflate, d, p, comp, uncomp, tag + "misc_textiles", tag);
      if b.Success? {
        var f := FillTextiles(b.value.value, 0, resized.value, Wrap32(s.num_textiles - s.num_misc_textiles), s.num_textiles, Tr4.ParseTextile32);
        assert !f.FillRejected?;
      }
    }
  }

  // ---------------------------------------------------------------------
  // The invariant every step keeps

  /** What a completed step keeps: the game version, and two palettes of
      256 colours with every textile 256x256. */
  ghost predicate Keeps(s: LevelState, o: Outcome) {
    o.Done? ==> WellFormed(o.state) && o.state.game_version == s.game_version
  }

  lemma TextilesShaped8(d: seq<byte>)
    ensures forall q: nat :: Tr1.ParseTextile8(d, q).Some? ==> Shaped(Tr1.ParseTextile8(d, q).value.value)
  {
  }

  lemma TextilesShaped16(d: seq<byte>)
    ensures forall q: nat :: Tr2.ParseTextile16(d, q).Some? ==> Shaped(Tr2.ParseTextile16(d, q).value.value)
  {
  }

  lemma TextilesShaped32(d: seq<byte>)
    ensures forall q: nat :: Tr4.ParseTextile32(d, q).Some? ==> Shaped(Tr4.ParseTextile32(d, q).value.value)
  {
  }

  lemma {:induction false} HeaderKeeps(h: Header, s: LevelState, d: seq<byte>, p: nat)
    requires WellFormed(s)
    ensures Keeps(s, HeaderStepSpec(h, s, d, p))
  {
    match h
    case Textiles8 =>
      if ParseBitU32(d, p).Some? {
        var n := ParseBitU32(d, p).value;
        TextilesShaped8(d);
        ParseManyAll(d, n.next, n.value, Tr1.ParseTextile8, Shaped);
      }
    case Textiles16 =>
      TextilesShaped16(d);
      ParseManyAll(d, p, s.num_textiles, Tr2.ParseTextile16, Shaped);
    case _ =>
  }

  lemma {:induction false} Segment16Keeps(tag: string, inflate: Inflate, s: LevelState, d: seq<byte>, p: nat, uncomp: nat, comp: nat)
    requires WellFormed(s)
    ensures Keeps(s, Segment16Spec(tag, inflate, s, d, p, uncomp, comp))
  {
    var o := Segment16Spec(tag, inflate, s, d, p, uncomp, comp);
    if comp > 0 && |s.textile32| == 0 {
      var t16 := Prtl.Resized(s.textile16, s.num_textiles, BlankTextile());
      if t16.Success? {
        assert forall i | 0 <= i < |t16.value| :: Shaped(t16.value[i]);
        var b := Unpack(inflate, d, p, comp, uncomp, tag + "textiles16", tag);
        if b.Success? {
          Fill16Keeps(s, b.value.value, t16.value, Wrap32(s.num_textiles - s.num_misc_textiles));
        }
      }
    }
  }

  lemma {:induction false} Segment32Keeps(tag: string, inflate: Inflate, s: LevelState, d: seq<byte>, p: nat, uncomp: nat, comp: nat)
    requires WellFormed(s)
    ensures Keeps(s, Segment32Spec(tag, inflate, s, d, p, uncomp, comp))
  {
    if comp > 0 {
      var t32 := Prtl.Resized(s.textile32, s.num_textiles, BlankTextile());
      if t32.Success? {
        assert forall i | 0 <= i < |t32.value| :: Shaped(t32.value[i]);
        var b := Unpack(inflate, d, p, comp, uncomp, tag + "textiles32", tag);
        if b.Success? {
          Fill32Keeps(s, b.value.value, t32.value, 0, Wrap32(s.num_textiles - s.num_misc_textiles));
        }
      }
    }
  }

  lemma {:induction false} SegmentMiscKeeps(tag: string, limit: nat, tooMany: string, all: bool, inflate: Inflate,
                                            s: LevelState, d: seq<byte>, p: nat, uncomp: nat, comp: nat)
    requires WellFormed(s)
    ensures Keeps(s, SegmentMiscSpec(tag, limit, tooMany, all, inflate, s, d, p, uncomp, comp))
  {
    if comp > 0 && uncomp / (256 * 256 * 4) <= limit {
      var resized := if |s.textile32| == 0
                     then Prtl.Resized(s.textile32, if all then s.num_textiles else s.num_misc_textiles, BlankTextile())
                     else Success(s.textile32);
      if resized.Success? {
        assert forall i | 0 <= i < |resized.value| :: Shaped(resized.value[i]);
        var b := Unpack(inflate, d, p, comp, uncomp, tag + "misc_textiles", tag);
        if b.Success? {
          Fill32Keeps(s, b.value.value, resized.value, Wrap32(s.num_textiles - s.num_misc_textiles), s.num_textiles);
        }
      }
    }
  }

  /** Filling shaped 16-bit textiles into textile16 keeps a level well formed. */
  lemma Fill16Keeps(s: LevelState, d: seq<byte>, t16: seq<Textile>, end: nat)
    requires WellFormed(s) && forall i | 0 <= i < |t16| :: Shaped(t16[i])
    ensures var f := FillTextiles(d, 0, t16, 0, end, Tr2.ParseTextile16);
      f.Filled? ==> WellFormed(s.(textile16 := f.tiles))
  {
    TextilesShaped16(d);
    FillShaped(d, 0, t16, 0, end, Tr2.ParseTextile16);
  }

  /** Filling shaped 32-bit textiles into textile32 keeps a level well formed. */
  lemma Fill32Keeps(s: LevelState, d: seq<byte>, t32: seq<Textile>, from: nat, end: nat)
    requires WellFormed(s) && forall i | 0 <= i < |t32| :: Shaped(t32[i])
    ensures var f := FillTextiles(d, 0, t32, from, end, Tr4.ParseTextile32);
      f.Filled? ==> WellFormed(s.(textile32 := f.tiles))
  {
    TextilesShaped32(d);
    FillShaped(d, 0, t32, from, end, Tr4.ParseTextile32);
  }

  lemma {:induction false} SegmentKeeps(c: Segment, inflate: Inflate, s: LevelState, d: seq<byte>, p: nat)
    requires WellFormed(s)
    ensures Keeps(s, SegmentStepSpec(c, inflate, s, d, p))
  {
    if !c.PackedGeometry? && ParseBitU32(d, p).Some? {
      var u := ParseBitU32(d, p).value;
      if u.value != 0 && ParseBitU32(d, u.next).Some? {
        var cs := ParseBitU32(d, u.next).value;
        match c
        case Segment32(tag) => Segment32Keeps(tag, inflate, s, d, cs.next, u.value, cs.value);
        case Segment16(tag) => Segment16Keeps(tag, inflate, s, d, cs.next, u.value, cs.value);
        case SegmentMisc(tag, limit, tooMany, all) =>
          SegmentMiscKeeps(tag, limit, tooMany, all, inflate, s, d, cs.next, u.value, cs.value);
      }
    }
  }

  lemma {:induction false} StepKeeps(step: Step, inflate: Inflate, s: LevelState, d: seq<byte>, p: nat)
    requires WellFormed(s)
    ensures Keeps(s, StepSpec(step, inflate, s, d, p))
  {
    match step
    case Head(h) => HeaderKeeps(h, s, d, p);
    case Skip(f, w, size) => SkipKeeps(f, w, size, s, d, p);
    case Zones(size) =>
    case SkipBytes(n) =>
    case List(l) => ListStepKeeps(l, s, d, p);
    case MeshData => MeshDataKeeps(s, d, p);
    case MeshTrees(message) => MeshTreesKeeps(message, s, d, p);
    case FrameMoveableData => FrameMoveableKeeps(s, d, p);
    case Compressed(c) => SegmentKeeps(c, inflate, s, d, p);
  }

  lemma SkipKeeps(f: Counted, w: Width, size: nat, s: LevelState, d: seq<byte>, p: nat)
    requires WellFormed(s)
    ensures Keeps(s, SkipSpec(f, w, size, s, d, p))
  {}

  lemma ListStepKeeps(l: Records, s: LevelState, d: seq<byte>, p: nat)
    requires WellFormed(s)
    ensures Keeps(s, ListStepSpec(l, s, d, p))
  {}

  lemma MeshDataKeeps(s: LevelState, d: seq<byte>, p: nat)
    requires WellFormed(s)
    ensures Keeps(s, MeshDataSpec(s, d, p))
  {}

  lemma MeshTreesKeeps(message: string, s: LevelState, d: seq<byte>, p: nat)
    requires WellFormed(s)
    ensures Keeps(s, MeshTreesSpec(message, s, d, p))
  {}

  lemma FrameMoveableKeeps(s: LevelState, d: seq<byte>, p: nat)
    requires WellFormed(s)
    ensures Keeps(s, FrameMoveableSpec(s, d, p))
  {}

  /** A whole run keeps the invariant, whatever the steps. */
  lemma {:induction false} RunKeeps(steps: seq<Step>, inflate: Inflate, s: LevelState, d: seq<byte>, p: nat)
    requires WellFormed(s)
    ensures Keeps(s, Run(steps, inflate, s, d, p))
    decreases |steps|
  {
    if steps != [] {
      StepKeeps(steps[0], inflate, s, d, p);
      var o := StepSpec(steps[0], inflate, s, d, p);
      if o.Done? {
        RunKeeps(steps[1..], inflate, o.state, o.data, o.pos);
      }
    }
  }

  /** A level read from a fresh TR_Level keeps the version asked for. */
  lemma ReadLevelKeeps(version: int, inflate: Inflate, s: LevelState, d: seq<byte>, p: nat)
    requires WellFormed(s)
    ensures var o := ReadLevelSpec(version, inflate, s, d, p);
      o.Done? ==> WellFormed(o.state) && o.state.game_version == version
  {
    if TrI <= version <= TrV {
      RunKeeps(LevelSections(version).value, inflate, s.(game_version := version), d, p);
    }
  }
}
