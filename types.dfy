/** The records a level is decoded into (tr_types.h and l_main.h).
    Integer fields hold the value of their C++ field, whose width and
    signedness is noted beside it; floating-point fields are opaque `Float32`
    values.  Every field has the value a zero-initialised C++ struct has, so
    `Room()` is the record a reader starts from. */
module Types {
  import opened Common

  // Game engine versions (tr_version_e, l_main.h).
  const TrI := 0
  const TrIDemo := 1
  const TrIUb := 2
  const TrII := 3
  const TrIIDemo := 4
  const TrIII := 5
  const TrIV := 6
  const TrIVDemo := 7
  const TrV := 8

  const Zero: Float32 := FromInt(0)

  /** tr5_vertex_t, a vec3_t. */
  datatype Vertex = Vertex(x: Float32 := Zero, y: Float32 := Zero, z: Float32 := Zero)

  /** tr2_colour_t: four bitu8 channels. */
  datatype Colour = Colour(r: int := 0, g: int := 0, b: int := 0, a: int := 0)

  /** tr5_colour_t: four float channels. */
  datatype FColour = FColour(r: Float32 := Zero, g: Float32 := Zero, b: Float32 := Zero, a: Float32 := Zero)

  /** tr4_face3_t: three bitu16 vertex indices, bitu16 texture and lighting. */
  datatype Face3 = Face3(vertices: seq<int> := [0, 0, 0], texture: int := 0, lighting: int := 0)

  /** tr4_face4_t: four bitu16 vertex indices, bitu16 texture and lighting. */
  datatype Face4 = Face4(vertices: seq<int> := [0, 0, 0, 0], texture: int := 0, lighting: int := 0)

  /** A 256x256 textile, row by row: bitu8 palette indices (tr_textile8_t),
      bitu16 1-5-5-5 pixels (tr2_textile16_t) or bitu32 pixels (tr4_textile32_t). */
  type Textile = seq<seq<int>>

  const TextileSide := 256

  /** A textile of the right shape holding `bound`-limited pixels. */
  ghost predicate IsTextile(t: Textile, bound: int) {
    |t| == 256 && forall y | 0 <= y < 256 :: |t[y]| == 256 && forall x | 0 <= x < 256 :: 0 <= t[y][x] < bound
  }

  function BlankTextile(): (t: Textile)
    ensures IsTextile(t, 1)
  {
    seq(256, _ => seq(256, _ => 0))
  }

  /** tr_room_portal_t. */
  datatype Portal = Portal(adjoining_room: int := 0, normal: Vertex := Vertex(),
                           vertices: seq<Vertex> := [Vertex(), Vertex(), Vertex(), Vertex()])

  /** tr_room_sector_t. */
  datatype Sector = Sector(fd_index: int := 0,   // bitu16
                           box_index: int := 0,  // bitu16
                           room_below: int := 0, // bitu8
                           floor: int := 0,      // bit8
                           room_above: int := 0, // bitu8
                           ceiling: int := 0)    // bit8

  /** tr5_room_light_t. */
  datatype Light = Light(pos: Vertex := Vertex(), colour: Colour := Colour(),
                         intensity1: int := 0, intensity2: int := 0,  // bitu16
                         fade1: int := 0, fade2: int := 0,            // bitu32
                         light_type: int := 0, unknown: int := 0,     // bitu8
                         r_inner: Float32 := Zero, r_outer: Float32 := Zero,
                         length: Float32 := Zero, cutoff: Float32 := Zero,
                         dir: Vertex := Vertex(), pos2: Vertex := Vertex(), dir2: Vertex := Vertex())

  /** tr_room_sprite_t: two bit16 fields. */
  datatype RoomSprite = RoomSprite(vertex: int := 0, texture: int := 0)

  /** tr5_room_layer_t. */
  datatype Layer = Layer(num_vertices: nat := 0, unknown_l1: int := 0, unknown_l2: int := 0,
                         num_rectangles: nat := 0, num_triangles: nat := 0,
                         unknown_l3: int := 0, unknown_l4: int := 0,   // bitu16
                         bounding_box_x1: Float32 := Zero, bounding_box_y1: Float32 := Zero,
                         bounding_box_z1: Float32 := Zero, bounding_box_x2: Float32 := Zero,
                         bounding_box_y2: Float32 := Zero, bounding_box_z2: Float32 := Zero,
                         unknown_l6a: int := 0, unknown_l6b: int := 0, unknown_l7a: int := 0,
                         unknown_l7b: int := 0, unknown_l8a: int := 0, unknown_l8b: int := 0)  // bit16

  /** tr5_room_vertex_t. */
  datatype RoomVertex = RoomVertex(vertex: Vertex := Vertex(),
                                   lighting1: int := 0,   // bit16
                                   attributes: int := 0,  // bitu16
                                   lighting2: int := 0,   // bit16
                                   normal: Vertex := Vertex(), colour: FColour := FColour())

  /** tr2_room_staticmesh_t. */
  datatype RoomStaticMesh = RoomStaticMesh(pos: Vertex := Vertex(), rotation: Float32 := Zero,
                                           intensity1: int := 0, intensity2: int := 0,  // bit16
                                           object_id: int := 0)                         // bitu16

  /** tr5_room_t. */
  datatype Room = Room(offset: Vertex := Vertex(), y_bottom: Float32 := Zero, y_top: Float32 := Zero,
                       num_layers: nat := 0, layers: seq<Layer> := [],
                       num_vertices: nat := 0, vertices: seq<RoomVertex> := [],
                       num_rectangles: nat := 0, rectangles: seq<Face4> := [],
                       num_triangles: nat := 0, triangles: seq<Face3> := [],
                       num_sprites: nat := 0, sprites: seq<RoomSprite> := [],
                       num_portals: nat := 0, portals: seq<Portal> := [],
                       num_zsectors: nat := 0, num_xsectors: nat := 0, sector_list: seq<Sector> := [],
                       intensity1: int := 0, intensity2: int := 0, light_mode: int := 0,  // bit16
                       num_lights: nat := 0, lights: seq<Light> := [],
                       num_static_meshes: nat := 0, static_meshes: seq<RoomStaticMesh> := [],
                       alternate_room: int := 0,  // bit16
                       flags: int := 0,           // bitu16
                       fog_colour: Colour := Colour(), light_colour: FColour := FColour(),
                       unknown_r1: int := 0, unknown_r2: int := 0, unknown_r3: int := 0,
                       unknown_r4: int := 0, unknown_r5: int := 0, unknown_r6: int := 0,
                       room_x: Float32 := Zero, room_z: Float32 := Zero,
                       unknown_r7a: int := 0, unknown_r7b: int := 0,
                       unknown_r8: int := 0, unknown_r9: int := 0,
                       room_y_bottom: Float32 := Zero, room_y_top: Float32 := Zero)

  /** tr4_mesh_t. */
  datatype Mesh = Mesh(centre: Vertex := Vertex(), collision_size: int := 0,
                       num_vertices: int := 0, vertices: seq<Vertex> := [],
                       num_normals: int := 0, num_lights: int := 0,
                       normals: seq<Vertex> := [], lights: seq<int> := [],
                       num_textured_rectangles: int := 0, textured_rectangles: seq<Face4> := [],
                       num_textured_triangles: int := 0, textured_triangles: seq<Face3> := [],
                       num_coloured_rectangles: int := 0, coloured_rectangles: seq<Face4> := [],
                       num_coloured_triangles: int := 0, coloured_triangles: seq<Face3> := [])

  /** tr_staticmesh_t: the two boxes hold two corners each. */
  datatype StaticMesh = StaticMesh(object_id: int := 0,  // bitu32
                                   mesh: int := 0,       // bitu16
                                   visibility_box: seq<Vertex> := [Vertex(), Vertex()],
                                   collision_box: seq<Vertex> := [Vertex(), Vertex()],
                                   flags: int := 0)      // bitu16

  /** tr_meshtree_t. */
  datatype MeshTree = MeshTree(flags: int := 0, offset: Vertex := Vertex())

  /** tr_frame_t. */
  datatype Frame = Frame(bbox_low: Vertex := Vertex(), bbox_high: Vertex := Vertex(),
                         offset: Vertex := Vertex(), rotations: seq<Vertex> := [],
                         byte_offset: int := 0)

  /** tr_moveable_t. */
  datatype Moveable = Moveable(object_id: int := 0,                           // bitu32
                               num_meshes: int := 0, starting_mesh: int := 0, // bitu16
                               mesh_tree_index: int := 0, frame_offset: int := 0,
                               frame_index: int := 0,                          // bitu32
                               animation_index: int := 0)                      // bitu16

  /** tr2_item_t. */
  datatype Item = Item(object_id: int := 0, room: int := 0,  // bit16
                       pos: Vertex := Vertex(), rotation: Float32 := Zero,
                       intensity1: int := 0, intensity2: int := 0,  // bit16
                       flags: int := 0)                             // bitu16

  /** tr_sprite_texture_t. */
  datatype SpriteTexture = SpriteTexture(tile: int := 0, x: int := 0, y: int := 0,
                                         width: int := 0, height: int := 0,
                                         left_side: int := 0, top_side: int := 0,
                                         right_side: int := 0, bottom_side: int := 0)

  /** tr_sprite_sequence_t. */
  datatype SpriteSequence = SpriteSequence(object_id: int := 0,  // bit32
                                           length: int := 0,     // bit16
                                           offset: int := 0)     // bit16

  /** tr_animation_t. */
  datatype Animation = Animation(frame_offset: int := 0, frame_rate: int := 0, frame_size: int := 0,
                                 state_id: int := 0, unknown: int := 0, speed: int := 0,
                                 accel_lo: int := 0, accel_hi: int := 0,
                                 unknown2: int := 0, speed2: int := 0, accel_lo2: int := 0,
                                 accel_hi2: int := 0,
                                 frame_start: int := 0, frame_end: int := 0,
                                 next_animation: int := 0, next_frame: int := 0,
                                 num_state_changes: int := 0, state_change_offset: int := 0,
                                 num_anim_commands: int := 0, anim_command: int := 0)

  /** tr4_object_texture_vert_t. */
  datatype ObjectTextureVert = ObjectTextureVert(xcoordinate: int := 0, xpixel: int := 0,
                                                 ycoordinate: int := 0, ypixel: int := 0)

  /** tr4_object_texture_t. */
  datatype ObjectTexture = ObjectTexture(transparency_flags: int := 0, tile: int := 0,
                                         tile_flags: int := 0, flags: int := 0,
                                         vertices: seq<ObjectTextureVert> :=
                                           [ObjectTextureVert(), ObjectTextureVert(),
                                            ObjectTextureVert(), ObjectTextureVert()],
                                         unknown1: int := 0, unknown2: int := 0,
                                         x_size: int := 0, y_size: int := 0)

  /** tr2_palette_t: 256 colours. */
  function BlankPalette(): (p: seq<Colour>)
    ensures |p| == 256
  {
    seq(256, _ => Colour())
  }
}
