# Tomb Raider level decoder, modelled in Dafny

This project models the level loader of the VT viewer: the C++ classes
`TR_Level` and `VT_Level`, which read the level files of Tomb Raider I to V
into memory. The model covers these parts:

- **`Common`** (`src/l_common.cpp`): the byte stream the readers consume, a
  memory `SDL_RWops` modelled as a `Cursor` class, and the primitive readers
  `read_bit8` to `read_float`. Values are little-endian, as on the
  little-endian hosts the code was written for.
- **`Prtl`** (`src/prtl.h`): `prtl::array<T>`, the bounds-checked growable
  array. Its pure specifications of `resize`, `operator[]` and `copy`
  (`Resized`, `At`, `Store`, `CopiedFrom`) are what the level model uses for
  the members of `TR_Level`, which it holds as sequences. The class
  `Prtl.Array`, over a Dafny `array?`, stands alone as the model of
  `prtl::array` itself and is proved against those specifications.
- **`Types`**: the records the readers fill. They are values with the
  fields of `tr_types.h` that the readers write.
- **`Tr1` to `Tr5`** (`src/l_tr1.cpp` to `src/l_tr5.cpp`): one module per
  file, holding the record readers of that file. Each record has:
  - a positional decoding `XAt(d, p)`;
  - a partial decoding `ParseX(d, p)` that fails on short data or when a
    validity check fails;
  - a field-chain decoding `XFields` giving the reads in source order;
  - a lemma `XLayout` tying the field chain to the positional decoding;
  - a reader method `ReadX(src)` on the cursor. Its result and the new
    cursor position equal `ParseX` at the old position.
- **`Resolve`** (`src/l_main.cpp`): the two renumbering loops of
  `read_mesh_data` and `read_frame_moveable_data`. Each is written twice,
  once as written and once as intended (see "## Findings").
- **`LevelSpec`** (`src/l_main.cpp` and the `read_trN_level` functions):
  - the members of `TR_Level` as one record, `LevelState`;
  - each level reader as a sequence of steps, with a pure specification of
    every step and of a whole run;
  - `read_level` as a dispatch on the game version.
- **`Level`**: the class `TrLevel` that executes those steps on a cursor and
  updates its members in place. Each method is proved against its step's
  specification.
- **`VtLevel`** (`src/vt_level.cpp`):
  - `prepare_level`, which converts the 8- and 16-bit textiles to 32-bit
    ones;
  - the two conversion loops;
  - the three `find_*_id` searches.

A reader that throws `TR_ReadError` or `prtl_exception` returns a
`Failure`. The failure carries the reader's message when the failure is a
validation failure. Any short read is a `ReadError`.

Four places in the code do not do what the surrounding code and its
description evidently mean (see "## Findings"):
- The mesh loop of `read_mesh_data` moves to the first greater mesh
  pointer in array order, not to the smallest greater one.
- The frame loop of `read_frame_moveable_data` restarts from offset 0 at
  every iteration.
- `read_tr5_room` reads a room's x, y and z from the outer stream instead
  of the room block.
- `read_tr5_level` resizes an empty `textile32` to `num_misc_textiles`.

Each is modelled as written and exhibited in `Resolve` (the two loops),
`Tr5` (the room position) and `LevelSpec` (the misc resize). The corrected
forms are then proved to do what was intended, and the rest of the model, the
level readers of `LevelSpec` and `Level` included, runs the corrected forms.
"## Left out" names every member this affects.

## Model

| member | source | states |
|---|---|---|
| Common.SignedInverts8 | src/l_common.cpp:35-46 | a bit8 read is the unique value in -128..127 congruent to the byte mod 2^8 |
| Common.SignedInverts16 | src/l_common.cpp:69-82 | a bit16 read is the unique value in -2^15..2^15-1 congruent to the word mod 2^16 |
| Common.SignedInverts32 | src/l_common.cpp:107-120 | a bit32 read is the unique value in -2^31..2^31-1 congruent to the word mod 2^32 |
| Common.SignedIsReinterpretation | src/l_common.cpp:35-139 | each signed reader returns the two's-complement reading of the bytes the unsigned reader of that width returns |
| Common.DecodeEncodeU16 | src/l_common.cpp:88-101 | decoding the little-endian image of any 16-bit value gives the value back |
| Common.EncodeDecodeU16 | src/l_common.cpp:88-101 | the little-endian image of a decoded word is the two bytes it came from |
| Common.DecodeEncodeU32 | src/l_common.cpp:126-139 | decoding the little-endian image of any 32-bit value gives the value back |
| Common.EncodeDecodeU32 | src/l_common.cpp:126-139 | the little-endian image of a decoded word is the four bytes it came from |
| Common.NegBits | src/l_tr4.cpp:30-35 | negating a float flips the sign bit and keeps the other 31 bits |
| Common.Clamp | src/l_main.cpp:67 | a seek on a memory stream lands inside the data: the offset when it is in range, otherwise the nearer end |
| Common.SeekTarget | src/l_tr1.cpp:268 | the 32-bit sum of the position and the unsigned offset, which is the plain sum whenever that stays below 2^31 |
| Common.Cursor.constructor | src/l_main.cpp:48 | a memory stream over the bytes, positioned at 0 |
| Common.Cursor.Seek | src/l_main.cpp:67 | SEEK_SET moves to the clamped offset |
| Common.Cursor.Skip | src/l_tr1.cpp:572 | SEEK_CUR moves by the clamped delta |
| Common.Cursor.Tell | src/l_tr1.cpp:244 | returns the position and changes nothing |
| Common.Cursor.ReadBytes | src/l_main.cpp:45 | reads n bytes exactly when n bytes remain and returns them; otherwise it fails with the stream at its end |
| Common.Cursor.ReadItem | src/l_common.cpp:42 | reads one object of `size` bytes only when it is whole; otherwise it fails without moving |
| Common.ReadBit8 | src/l_common.cpp:35-46 | a null stream throws "read_bit8: src == NULL"; otherwise the result and the new position are the signed byte decoding |
| Common.ReadBitU8 | src/l_common.cpp:52-63 | null stream message; otherwise the unsigned byte decoding |
| Common.ReadBit16 | src/l_common.cpp:69-82 | null stream message; otherwise the signed little-endian word decoding |
| Common.ReadBitU16 | src/l_common.cpp:88-101 | null stream message; otherwise the unsigned little-endian word decoding |
| Common.ReadBit32 | src/l_common.cpp:107-120 | null stream message; otherwise the signed little-endian dword decoding |
| Common.ReadBitU32 | src/l_common.cpp:126-139 | null stream message; otherwise the unsigned little-endian dword decoding |
| Common.ReadFloat | src/l_common.cpp:145-158 | null stream message; otherwise the raw 32-bit pattern of the next four bytes |
| Common.ParseMany | src/l_tr1.cpp:247-250 | a counted loop of record reads yields exactly `n` records whenever it succeeds |
| Common.ParseManyStart | src/l_tr1.cpp:247-250 | the loop invariant of every counted loop holds before the first read |
| Common.ParseManyStep | src/l_tr1.cpp:247-250 | one successful record read advances the invariant by that record |
| Common.ParseManyFails | src/l_tr1.cpp:247-250 | one failing record read makes the whole list fail |
| Common.ParseManyDone | src/l_tr1.cpp:247-250 | after n reads the accumulated records are the list and the position is its end |
| Common.ParseManyFixedSize | src/l_tr1.cpp:247-250 | a list of n fixed-size records ends n * size bytes after its start |
| Prtl.Resized | src/prtl.h:67-97 | resize keeps an equal-size array, throws "not enough memory" exactly when a non-empty array is resized to 0, and otherwise has `count` elements: the old prefix, then copies of `value` |
| Prtl.At | src/prtl.h:99-108 | a read succeeds exactly below the size, with that element; otherwise out of bounds |
| Prtl.Store | src/prtl.h:99-108 | an assignment succeeds exactly below the size and changes that element only |
| Prtl.CopiedFrom | src/prtl.h:110-117 | copy succeeds exactly when the source is at least as long as the target, and the target then equals the source |
| Prtl.Array.constructor | src/prtl.h:27-31 | a new array is empty |
| Prtl.Array.Sized | src/prtl.h:41-47 | array(size) holds `size` copies of one value-initialised element, exactly what resize(size) gives an empty array |
| Prtl.Array.Size | src/prtl.h:57-60 | returns the number of elements |
| Prtl.Array.Empty | src/prtl.h:62-65 | true exactly when there are no elements |
| Prtl.Array.Resize | src/prtl.h:67-97 | the new contents are `Resized` of the old ones; same-size resize keeps the buffer, another size allocates a fresh one; the failing shrink to 0 throws |
| Prtl.Array.Get | src/prtl.h:99-108 | returns `At` of the contents |
| Prtl.Array.Set | src/prtl.h:99-108 | the new contents are `Store` of the old ones; out of bounds changes nothing |
| Prtl.Array.CopyFrom | src/prtl.h:110-117 | the new contents are `CopiedFrom`; from a shorter source, the prefix is copied and then out of bounds is thrown |
| Tr1.RescaleU16 | src/l_tr1.cpp:171 | the light intensity is stored into 16 bits; for a TR1 value 0..8191 it is (8191 - v) * 4, at most 32764, and `Unscale` restores v |
| Tr1.RescaleS16 | src/l_tr1.cpp:189 | the lighting is the rescaled value stored into a bit16 |
| Tr1.RescaleIfSet | src/l_tr1.cpp:216-217 | a negative intensity is kept; a non-negative one is rescaled |
| Tr1.RescaleInverts | src/l_tr1.cpp:282 | `Unscale` undoes the rescale for every input |
| Tr1.RescaleReversesOrder | src/l_tr1.cpp:282 | a brighter TR1 intensity becomes a smaller rescaled one, in both stored widths |
| Tr1.ColourLayout | src/l_tr1.cpp:33-40 | reading the three channels in order decodes the 3-byte colour |
| Tr1.ReadColour | src/l_tr1.cpp:33-40 | success, value and new position are those of the colour decoding |
| Tr1.ColourWidens | src/l_tr1.cpp:33-40 | a 6-bit channel is multiplied by 4 and alpha is 0 |
| Tr1.Vertex16Layout | src/l_tr1.cpp:46-52 | the three reads decode the 6-byte vertex with y and z negated |
| Tr1.ReadVertex16 | src/l_tr1.cpp:46-52 | agrees with the 16-bit vertex decoding |
| Tr1.Vertex32Layout | src/l_tr1.cpp:58-64 | the three reads decode the 12-byte vertex |
| Tr1.ReadVertex32 | src/l_tr1.cpp:58-64 | agrees with the 32-bit vertex decoding |
| Tr1.Vertex32Flips | src/l_tr1.cpp:58-64 | negating y and z is exact unless a component is -2^31 |
| Tr1.Face3Layout | src/l_tr1.cpp:70-78 | the four reads decode the 8-byte triangle with lighting 0 |
| Tr1.ReadFace3 | src/l_tr1.cpp:70-78 | agrees with the triangle decoding |
| Tr1.Face4Layout | src/l_tr1.cpp:84-93 | the five reads decode the 10-byte rectangle with lighting 0 |
| Tr1.ReadFace4 | src/l_tr1.cpp:84-93 | agrees with the rectangle decoding |
| Tr1.Textile8At | src/l_tr1.cpp:96-101 | pixel (y, x) of an 8-bit textile is byte 256y + x, in a 256 by 256 grid of bytes |
| Tr1.ReadTextile8 | src/l_tr1.cpp:96-101 | reads the 65536 bytes exactly when they are there, with the textile message otherwise |
| Tr1.LightmapAt | src/l_tr1.cpp:104-108 | the light map is the 8192 bytes in order |
| Tr1.ReadLightmap | src/l_tr1.cpp:104-108 | agrees with the light map decoding |
| Tr1.PaletteAt | src/l_tr1.cpp:111-115 | the palette has 256 colours |
| Tr1.ReadPalette | src/l_tr1.cpp:111-115 | agrees with the palette decoding |
| Tr1.RoomSpriteLayout | src/l_tr1.cpp:118-122 | the two reads decode the 4-byte sprite |
| Tr1.ReadRoomSprite | src/l_tr1.cpp:118-122 | agrees with the sprite decoding |
| Tr1.OnWorldAxisIffUnit | src/l_tr1.cpp:128-149 | an integer normal is one of the six axis unit vectors exactly when its absolute components sum to 1 |
| Tr1.PortalLayout | src/l_tr1.cpp:128-149 | the reads decode the 32-byte portal and reject a normal off the axes |
| Tr1.ReadPortal | src/l_tr1.cpp:128-149 | agrees with the portal decoding; a whole portal with a normal off the axes throws the portal message |
| Tr1.PortalAccepted | src/l_tr1.cpp:128-149 | a whole portal decodes exactly when abs(x) + abs(y) + abs(z) of its file normal is 1 |
| Tr1.SectorLayout | src/l_tr1.cpp:152-160 | the reads decode the 8-byte sector |
| Tr1.ReadSector | src/l_tr1.cpp:152-160 | agrees with the sector decoding |
| Tr1.LightLayout | src/l_tr1.cpp:167-176 | the reads decode the 18-byte light, with intensity2 and fade2 copied from the first pair |
| Tr1.ReadLight | src/l_tr1.cpp:167-176 | agrees with the light decoding |
| Tr1.RoomVertexLayout | src/l_tr1.cpp:185-201 | the reads decode the 8-byte room vertex with its rescaled lighting |
| Tr1.ReadRoomVertex | src/l_tr1.cpp:185-201 | agrees with the room vertex decoding |
| Tr1.Grey | src/l_tr1.cpp:197-200 | the three channels are the intensity over 32767 and alpha is 1 |
| Tr1.RoomStaticMeshLayout | src/l_tr1.cpp:209-220 | the reads decode the 18-byte placed mesh |
| Tr1.ReadRoomStaticMesh | src/l_tr1.cpp:209-220 | agrees with the placed mesh decoding |
| Tr1.ObjectTextureVertLayout | src/l_tr1.cpp:310-316 | the reads decode the 4-byte texture corner |
| Tr1.ReadObjectTextureVert | src/l_tr1.cpp:310-316 | agrees with the corner decoding |
| Tr1.ObjectTextureLayout | src/l_tr1.cpp:323-345 | the reads decode the 20-byte texture and reject a tile above 64 or non-zero tile flags |
| Tr1.ReadObjectTexture | src/l_tr1.cpp:323-345 | agrees with the object texture decoding; a tile above 64 throws its message |
| Tr1.SpriteTextureLayout | src/l_tr1.cpp:351-365 | the reads decode the 16-byte sprite texture and reject a tile above 64 |
| Tr1.ReadSpriteTexture | src/l_tr1.cpp:351-365 | agrees with the sprite texture decoding; a tile above 64 throws its message |
| Tr1.SpriteSequenceLayout | src/l_tr1.cpp:371-376 | the reads decode the 8-byte sprite sequence |
| Tr1.ReadSpriteSequence | src/l_tr1.cpp:371-376 | agrees with the sprite sequence decoding |
| Tr1.SpriteSequenceLength | src/l_tr1.cpp:371-376 | the stored length is the file's bit16 negated, except -32768, which stays itself |
| Tr1.ParseShading | src/l_tr1.cpp:395-407 | a count n >= 0 gives n normals and no light values; -32768 < n < 0 gives -n light values and no normals; -32768 reads nothing |
| Tr1.ReadSignedVertices16 | src/l_tr1.cpp:390-393 | a bit16-counted vertex list agrees with its decoding, where a negative count reads nothing |
| Tr1.ReadSignedLightValues | src/l_tr1.cpp:402-406 | a bit16-counted list of light values agrees with its decoding |
| Tr1.ReadSignedFace4s | src/l_tr1.cpp:409-412 | a bit16-counted rectangle list agrees with its decoding |
| Tr1.ReadSignedFace3s | src/l_tr1.cpp:414-417 | a bit16-counted triangle list agrees with its decoding |
| Tr1.ReadShading | src/l_tr1.cpp:395-407 | the normals or light values agree with `ParseShading` |
| Tr1.ReadMesh | src/l_tr1.cpp:383-428 | the whole mesh agrees with the mesh decoding |
| Tr1.ReadMeshFaces | src/l_tr1.cpp:409-427 | the four face lists agree with their decoding |
| Tr1.MeshCountsMatch | src/l_tr1.cpp:383-428 | each non-negative count is the length of its list, and a mesh has normals or lights, not both |
| Tr1.AnimationLayout | src/l_tr1.cpp:431-452 | the reads decode the 32-byte animation, with the TR4 fields zero |
| Tr1.ReadAnimation | src/l_tr1.cpp:431-452 | agrees with the animation decoding |
| Tr1.MeshTreeLayout | src/l_tr1.cpp:455-459 | the reads decode the 16-byte mesh tree node |
| Tr1.ReadMeshTree | src/l_tr1.cpp:455-459 | agrees with the mesh tree decoding |
| Tr1.PackLegacyRotation | src/l_tr1.cpp:477-481 | any three 10-bit angles pack into a 14-bit and a 16-bit word |
| Tr1.LegacyRotationRoundTrip | src/l_tr1.cpp:477-481 | unpacking the packed words gives back the three angles |
| Tr1.LegacyRotationIgnoresTopBits | src/l_tr1.cpp:479-480 | the two top bits of temp1 do not affect the rotation |
| Tr1.LegacyRotationLayout | src/l_tr1.cpp:477-481 | temp2 is read before temp1 |
| Tr1.ReadLegacyRotation | src/l_tr1.cpp:477-481 | agrees with the rotation decoding |
| Tr1.ReadFrame | src/l_tr1.cpp:461-483 | agrees with the frame decoding, which rejects a rotation count other than the expected one |
| Tr1.MoveableLayout | src/l_tr1.cpp:490-502 | the reads decode the 18-byte moveable and reject a mesh tree offset that is not a multiple of 4 |
| Tr1.ReadMoveable | src/l_tr1.cpp:490-502 | agrees with the moveable decoding; an offset not a multiple of 4 throws its message |
| Tr1.MoveableTreeIndex | src/l_tr1.cpp:495-499 | 4 times the stored index is the byte offset in the file |
| Tr1.ItemIntensity | src/l_tr1.cpp:511-513 | an intensity of 2^15 or more is stored as the negative bit16 value and kept; one of at most 8191 is rescaled, and `Unscale` restores it |
| Tr1.ItemLayout | src/l_tr1.cpp:505-516 | the reads decode the 22-byte item |
| Tr1.ReadItem | src/l_tr1.cpp:505-516 | agrees with the item decoding |
| Tr1.BoxLayout | src/l_tr1.cpp:524-529 | the interleaved corners decode with y and z negated |
| Tr1.ReadBox | src/l_tr1.cpp:524-529 | agrees with the box decoding |
| Tr1.StaticMeshLayout | src/l_tr1.cpp:519-539 | the reads decode the 32-byte static mesh |
| Tr1.ReadStaticMesh | src/l_tr1.cpp:519-539 | agrees with the static mesh decoding |
| Tr1.RoomInfoLayout | src/l_tr1.cpp:236-242 | the reads decode the 20-byte room header |
| Tr1.ReadRoomInfo | src/l_tr1.cpp:236-242 | agrees with the header decoding |
| Tr1.RoomFromInfo | src/l_tr1.cpp:236-245 | the room a header starts has no layers and, as yet, no vertices and no portals |
| Tr1.GridSizeIsProduct | src/l_tr1.cpp:277-279 | the sector loop runs num_zsectors * num_xsectors times |
| Tr1.ReadRoom | src/l_tr1.cpp:229-307 | agrees with the room decoding |
| Tr1.ReadRoomGeometry | src/l_tr1.cpp:247-265 | the vertex, face and sprite lists agree with their decoding |
| Tr1.ReadRoomFaces | src/l_tr1.cpp:252-265 | the rectangles, triangles and sprites agree with their decoding |
| Tr1.ReadRoomSectors | src/l_tr1.cpp:270-279 | the portals and the sector grid agree with their decoding |
| Tr1.ReadRoomLighting | src/l_tr1.cpp:281-306 | the intensity, lights, static meshes and flags agree with their decoding |
| Tr1.RoomCountsMatch | src/l_tr1.cpp:229-307 | every list has the length its count declares, the grid has num_zsectors * num_xsectors sectors, both intensities are equal, light mode is 0 and there are no layers |
| Tr1.RoomSkipsToDataEnd | src/l_tr1.cpp:244-270 | the portal count is the word at the header's end plus twice num_data_words (clamped to the data), whatever the vertex block held |
| Tr1.ReadRoomVertices | src/l_tr1.cpp:248-250 | n room vertices agree with their list decoding |
| Tr1.ReadFace4s | src/l_tr1.cpp:253-255 | n rectangles agree with their list decoding |
| Tr1.ReadFace3s | src/l_tr1.cpp:258-260 | n triangles agree with their list decoding |
| Tr1.ReadRoomSprites | src/l_tr1.cpp:263-265 | n sprites agree with their list decoding |
| Tr1.ReadPortals | src/l_tr1.cpp:271-273 | n portals agree with their list decoding |
| Tr1.ReadSectors | src/l_tr1.cpp:277-279 | n sectors agree with their list decoding |
| Tr1.ReadLights | src/l_tr1.cpp:288-290 | n lights agree with their list decoding |
| Tr1.ReadRoomStaticMeshes | src/l_tr1.cpp:293-295 | n placed meshes agree with their list decoding |
| Tr1.ReadVertices16 | src/l_tr1.cpp:390-393 | n mesh vertices agree with their list decoding |
| Tr1.ReadLightValues | src/l_tr1.cpp:404-406 | n light values agree with their list decoding |
| Tr1.ReadLegacyRotations | src/l_tr1.cpp:471-482 | n frame rotations agree with their list decoding |
| Tr1.ReadTextiles8 | src/l_tr1.cpp:559-561 | n 8-bit textiles agree with their list decoding |
| Tr1.ReadRooms | src/l_tr1.cpp:567-569 | n rooms agree with their list decoding |
| Tr1.ReadAnimations | src/l_tr1.cpp:576-578 | n animations agree with their list decoding |
| Tr1.ReadMeshTrees | src/l_tr1.cpp:595-597 | n mesh tree nodes agree with their list decoding |
| Tr1.ReadMoveables | src/l_main.cpp:111-116 | n moveables agree with their list decoding |
| Tr1.ReadStaticMeshes | src/l_tr1.cpp:601-603 | n static meshes agree with their list decoding |
| Tr1.ReadObjectTextures | src/l_tr1.cpp:605-607 | n object textures agree with their list decoding |
| Tr1.ReadSpriteTextures | src/l_tr1.cpp:609-611 | n sprite textures agree with their list decoding |
| Tr1.ReadSpriteSequences | src/l_tr1.cpp:613-615 | n sprite sequences agree with their list decoding |
| Tr1.ReadItems | src/l_tr1.cpp:638-640 | n items agree with their list decoding |
| Tr2.Colour4Layout | src/l_tr2.cpp:29-36 | the four reads decode the 4-byte colour |
| Tr2.ReadColour4 | src/l_tr2.cpp:29-36 | agrees with the colour decoding |
| Tr2.Colour4Truncates | src/l_tr2.cpp:29-36 | a channel is (byte mod 64) * 4: the shift is truncated to 8 bits |
| Tr2.Palette16At | src/l_tr2.cpp:38-42 | colour k of the 16-bit palette is the colour at byte 4k |
| Tr2.ReadPalette16 | src/l_tr2.cpp:38-42 | agrees with the palette decoding |
| Tr2.Row16At | src/l_tr2.cpp:46-52 | pixel x of a row is the word at byte 2x |
| Tr2.Textile16At | src/l_tr2.cpp:44-53 | pixel (y, x) is the word at byte 512y + 2x, in a 256 by 256 grid of 16-bit values |
| Tr2.SwapRow16 | src/l_tr2.cpp:46-52 | the little-endian swap of a raw row gives the decoded row |
| Tr2.ReadTextile16 | src/l_tr2.cpp:44-53 | agrees with the textile decoding, with the textile message on a short read |
| Tr2.LightLayout | src/l_tr2.cpp:55-62 | the reads decode the 24-byte light |
| Tr2.ReadLight | src/l_tr2.cpp:55-62 | agrees with the light decoding |
| Tr2.Shade | src/l_tr2.cpp:64-79 | the three channels are the lighting over the scale and alpha is 255 |
| Tr2.RoomVertexLayout | src/l_tr2.cpp:64-79 | the reads decode the 12-byte vertex, each lighting rescaled from its own word |
| Tr2.ReadRoomVertex | src/l_tr2.cpp:64-79 | agrees with the vertex decoding |
| Tr2.RoomStaticMeshLayout | src/l_tr2.cpp:81-93 | the reads decode the 20-byte placed mesh |
| Tr2.ReadRoomStaticMesh | src/l_tr2.cpp:81-93 | agrees with the placed mesh decoding |
| Tr2.RoomStaticMeshIntensities | src/l_tr2.cpp:81-93 | each intensity is kept when its word is negative, and for a word of 0..8191 `Unscale` gives the word back |
| Tr2.ReadRoom | src/l_tr2.cpp:95-171 | agrees with the TR2 room decoding |
| Tr2.ReadRoomGeometry | src/l_tr2.cpp:114-132 | the TR2 vertices, faces and sprites agree with their decoding |
| Tr2.ReadRoomLighting | src/l_tr2.cpp:148-170 | the lighting block agrees with its decoding |
| Tr2.RoomLightingReadsMode | src/l_tr2.cpp:148-161 | the light mode is the third word; the two intensities are rescaled from their own words; the lists have their declared lengths |
| Tr2.Rotation2 | src/l_tr2.cpp:186 | the kind of a rotation, its two top bits, is one of four values |
| Tr2.ParseRotation | src/l_tr2.cpp:181-209 | a rotation takes two or four bytes |
| Tr2.ReadRotation | src/l_tr2.cpp:181-209 | agrees with the rotation decoding |
| Tr2.EncodeSingleAxis | src/l_tr2.cpp:187-201 | a single-axis rotation is one word |
| Tr2.SingleAxisRoundTrip | src/l_tr2.cpp:187-201 | an encoded single-axis rotation is decoded back from its word alone, with the other two angles 0 |
| Tr2.ThreeAxisRotation | src/l_tr2.cpp:202-207 | with the top bits clear, two words are read and decoded as in TR1 with the words in file order |
| Tr2.ParseFrame | src/l_tr2.cpp:173-210 | a decoded frame has exactly the expected number of rotations and byte offset 0 |
| Tr2.ReadFrame | src/l_tr2.cpp:173-210 | agrees with the frame decoding |
| Tr2.ItemLayout | src/l_tr2.cpp:212-225 | the reads decode the 24-byte item |
| Tr2.ReadItem | src/l_tr2.cpp:212-225 | agrees with the item decoding |
| Tr2.ReadRoomVertices | src/l_tr2.cpp:115-117 | n TR2 room vertices agree with their list decoding |
| Tr2.ReadLights | src/l_tr2.cpp:154-156 | n TR2 lights agree with their list decoding |
| Tr2.ReadRoomStaticMeshes | src/l_tr2.cpp:159-161 | n TR2 placed meshes agree with their list decoding |
| Tr2.ReadRotations | src/l_tr2.cpp:180-209 | n TR2 rotations agree with their list decoding |
| Tr2.ReadTextiles16 | src/l_tr2.cpp:251-253 | n 16-bit textiles agree with their list decoding |
| Tr2.ReadRooms | src/l_tr2.cpp:259-261 | n TR2 rooms agree with their list decoding |
| Tr2.ReadItems | src/l_tr2.cpp:330-332 | n TR2 items agree with their list decoding |
| Tr3.RoomVertexLayout | src/l_tr3.cpp:28-43 | the reads decode the 12-byte vertex with lighting as read |
| Tr3.ReadRoomVertex | src/l_tr3.cpp:28-43 | agrees with the vertex decoding |
| Tr3.RoomStaticMeshLayout | src/l_tr3.cpp:45-52 | the reads decode the 20-byte placed mesh |
| Tr3.ReadRoomStaticMesh | src/l_tr3.cpp:45-52 | agrees with the placed mesh decoding |
| Tr3.RoomStaticMeshAgreesWithTr2 | src/l_tr3.cpp:45-52 | a TR3 placed mesh equals the TR2 one of the same bytes except for the intensities, which TR2 rescales when not negative |
| Tr3.ReadRoom | src/l_tr3.cpp:54-132 | agrees with the TR3 room decoding |
| Tr3.ReadRoomGeometry | src/l_tr3.cpp:73-91 | the TR3 vertices, faces and sprites agree with their decoding |
| Tr3.ReadRoomLighting | src/l_tr3.cpp:107-131 | the lighting block agrees with its decoding |
| Tr3.RoomLightingCounts | src/l_tr3.cpp:107-131 | the lists have their declared lengths, light mode is 0, and the block is 15 + 24 per light + 20 per mesh bytes long |
| Tr3.ItemLayout | src/l_tr3.cpp:134-143 | the reads decode the 24-byte item |
| Tr3.ReadItem | src/l_tr3.cpp:134-143 | agrees with the item decoding |
| Tr3.ItemAgreesWithTr2 | src/l_tr3.cpp:134-143 | a TR3 item keeps its intensities as signed words; TR2 also rescales the non-negative ones |
| Tr3.ReadRoomVertices | src/l_tr3.cpp:74-76 | n TR3 vertices agree with their list decoding |
| Tr3.ReadRoomStaticMeshes | src/l_tr3.cpp:119-121 | n TR3 placed meshes agree with their list decoding |
| Tr3.ReadRooms | src/l_tr3.cpp:177-179 | n TR3 rooms agree with their list decoding |
| Tr3.ReadItems | src/l_tr3.cpp:245-247 | n TR3 items agree with their list decoding |
| Tr4.VertexFloatLayout | src/l_tr4.cpp:30-35 | the three reads decode the float vertex with y and z negated |
| Tr4.ReadVertexFloat | src/l_tr4.cpp:30-35 | agrees with the float vertex decoding |
| Tr4.VertexFloatRestores | src/l_tr4.cpp:30-35 | negating y and z again gives back the file's floats |
| Tr4.NegBitsInverts | src/l_tr4.cpp:30-35 | negating a float twice gives back its bits |
| Tr4.SwapRedBlue | src/l_tr4.cpp:43-44 | the channel swap maps 32-bit words to 32-bit words |
| Tr4.SwapRedBlueInvolution | src/l_tr4.cpp:43-44 | swapping twice restores every word |
| Tr4.SwapOfBytes | src/l_tr4.cpp:43-44 | for the bytes b0 b1 b2 b3, the swapped word is that of b2 b1 b0 b3 |
| Tr4.Row32At | src/l_tr4.cpp:41-45 | pixel x of a row is the swapped word at byte 4x |
| Tr4.Textile32At | src/l_tr4.cpp:37-46 | row y is the row at byte 1024y |
| Tr4.Textile32Pixel | src/l_tr4.cpp:37-46 | each pixel holds the file's four bytes with the first and third exchanged |
| Tr4.SwapRow32 | src/l_tr4.cpp:41-45 | swapping every word of a raw row gives the decoded row |
| Tr4.ReadTextile32 | src/l_tr4.cpp:37-46 | agrees with the textile decoding, with the textile message on a short read |
| Tr4.Face3Layout | src/l_tr4.cpp:48-55 | the reads decode the 10-byte triangle |
| Tr4.ReadFace3 | src/l_tr4.cpp:48-55 | agrees with the triangle decoding |
| Tr4.Face4Layout | src/l_tr4.cpp:57-65 | the reads decode the 12-byte rectangle |
| Tr4.ReadFace4 | src/l_tr4.cpp:57-65 | agrees with the rectangle decoding |
| Tr4.FacesExtendTr1 | src/l_tr4.cpp:48-65 | a TR4 face is the TR1 face of the same bytes followed by its lighting word |
| Tr4.LightLayout | src/l_tr4.cpp:67-79 | the reads decode the 46-byte light |
| Tr4.ReadLight | src/l_tr4.cpp:67-79 | agrees with the light decoding |
| Tr4.RoomVertexLayout | src/l_tr4.cpp:81-96 | the reads decode the 12-byte vertex |
| Tr4.ReadRoomVertex | src/l_tr4.cpp:81-96 | agrees with the vertex decoding |
| Tr4.RoomVertexAgreesWithTr3 | src/l_tr4.cpp:81-96 | a TR4 vertex is the TR3 vertex with its colour scaled by 16383 instead of 32767 |
| Tr4.ReadRoom | src/l_tr4.cpp:98-176 | agrees with the TR4 room decoding |
| Tr4.ReadRoomGeometry | src/l_tr4.cpp:117-135 | the TR4 vertices, faces and sprites agree with their decoding |
| Tr4.ReadRoomLighting | src/l_tr4.cpp:151-175 | the lighting block agrees with its decoding |
| Tr4.RoomLightingCounts | src/l_tr4.cpp:151-175 | the lists have their declared lengths, light mode is 0, and the block is 15 + 46 per light + 20 per mesh bytes long |
| Tr4.NonZero | src/l_tr4.cpp:178-188 | a corner coordinate is never 0 and is kept when it is not 0 |
| Tr4.ObjectTextureVertLayout | src/l_tr4.cpp:178-188 | the reads decode the 4-byte corner |
| Tr4.ReadObjectTextureVert | src/l_tr4.cpp:178-188 | agrees with the corner decoding |
| Tr4.ObjectTextureLayout | src/l_tr4.cpp:190-210 | the reads decode the 38-byte texture and reject bad tiles and flags |
| Tr4.ReadObjectTexture | src/l_tr4.cpp:190-210 | agrees with the texture decoding |
| Tr4.ObjectTextureCorners | src/l_tr4.cpp:190-210 | a decoded texture has a tile of at most 64, tile flags 0 or 128, and four corners with non-zero coordinates |
| Tr4.ReadMesh | src/l_tr4.cpp:212-250 | agrees with the TR4 mesh decoding |
| Tr4.ReadMeshFaces | src/l_tr4.cpp:238-246 | the textured faces agree with their decoding |
| Tr4.MeshCountsMatch | src/l_tr4.cpp:212-250 | a TR4 mesh has no coloured faces, and each non-negative count is the length of its list |
| Tr4.AnimationHeadLayout | src/l_tr4.cpp:253-279 | the first four reads decode the animation head |
| Tr4.ReadAnimationHead | src/l_tr4.cpp:253-279 | agrees with the head decoding |
| Tr4.MotionLayout | src/l_tr4.cpp:253-279 | the reads decode the 8-byte motion block |
| Tr4.ReadMotion | src/l_tr4.cpp:253-279 | agrees with the motion decoding |
| Tr4.LinksLayout | src/l_tr4.cpp:253-279 | the reads decode the 16-byte links block |
| Tr4.ReadLinks | src/l_tr4.cpp:253-279 | agrees with the links decoding |
| Tr4.Assemble | src/l_tr4.cpp:253-279 | the animation takes the motion and link fields from their blocks |
| Tr4.ReadAnimation | src/l_tr4.cpp:253-279 | agrees with the 40-byte animation decoding |
| Tr4.AnimationExtendsTr1 | src/l_tr4.cpp:253-279 | without its four motion fields, a TR4 animation is the TR1 animation of the bytes with the motion block removed |
| Tr4.ReadFace4s | src/l_tr4.cpp:239-241 | n TR4 rectangles agree with their list decoding |
| Tr4.ReadFace3s | src/l_tr4.cpp:244-246 | n TR4 triangles agree with their list decoding |
| Tr4.ReadRoomVertices | src/l_tr4.cpp:118-120 | n TR4 vertices agree with their list decoding |
| Tr4.ReadLights | src/l_tr4.cpp:158-160 | n TR4 lights agree with their list decoding |
| Tr4.ReadRooms | src/l_tr4.cpp:456-458 | n TR4 rooms agree with their list decoding |
| Tr4.ReadObjectTextures | src/l_tr4.cpp:546-548 | n TR4 object textures agree with their list decoding |
| Tr4.ReadAnimations | src/l_tr4.cpp:465-467 | n TR4 animations agree with their list decoding |
| Tr4.ReadTextiles32 | src/l_tr4.cpp:340-341 | n 32-bit textiles agree with their list decoding |
| Tr4.ReadSignedFace4s | src/l_tr4.cpp:238-241 | a bit16-counted TR4 rectangle list agrees with its decoding |
| Tr4.ReadSignedFace3s | src/l_tr4.cpp:243-246 | a bit16-counted TR4 triangle list agrees with its decoding |
| Tr5.Unset | src/l_tr5.cpp:238-246 | the fill word 0xCDCDCDCD counts as 0; any other count is kept |
| Tr5.LightLayout | src/l_tr5.cpp:29-63 | the reads decode the 88-byte light and reject wrong separators |
| Tr5.ReadLight | src/l_tr5.cpp:29-63 | agrees with the light decoding |
| Tr5.LayerCountsLayout | src/l_tr5.cpp:67-83 | the reads decode the layer counts and reject a non-zero filler |
| Tr5.ReadLayerCounts | src/l_tr5.cpp:67-83 | agrees with the counts decoding |
| Tr5.LayerBoxLayout | src/l_tr5.cpp:85-92 | the reads decode the bounding box with y and z negated and reject a non-zero filler |
| Tr5.ReadLayerBox | src/l_tr5.cpp:85-92 | agrees with the box decoding |
| Tr5.LayerExtraLayout | src/l_tr5.cpp:94-99 | the reads decode the six spare words |
| Tr5.ReadLayerExtra | src/l_tr5.cpp:94-99 | agrees with the spare word decoding |
| Tr5.ReadLayer | src/l_tr5.cpp:65-100 | agrees with the layer decoding |
| Tr5.LayerSize | src/l_tr5.cpp:65-100 | a layer decodes exactly when its 56 bytes are there and both fillers are 0, and it holds the counts at bytes 0, 6 and 8 |
| Tr5.RoomVertexLayout | src/l_tr5.cpp:102-110 | the reads decode the 28-byte vertex |
| Tr5.ReadRoomVertex | src/l_tr5.cpp:102-110 | agrees with the vertex decoding |
| Tr5.HeaderStartLayout | src/l_tr5.cpp:143-157 | the reads decode block bytes 0-20, with the separator checks |
| Tr5.ReadHeaderStart | src/l_tr5.cpp:143-157 | agrees with that decoding |
| Tr5.HeaderExtentLayout | src/l_tr5.cpp:163-172 | the reads decode block bytes 32-48 |
| Tr5.ReadHeaderExtent | src/l_tr5.cpp:163-172 | agrees with that decoding |
| Tr5.HeaderCountsLayout | src/l_tr5.cpp:174-198 | the reads decode block bytes 48-76 and reject counts above 512 and bad fillers |
| Tr5.ReadHeaderCounts | src/l_tr5.cpp:174-198 | agrees with that decoding |
| Tr5.HeaderFlagsLayout | src/l_tr5.cpp:200-210 | the reads decode block bytes 76-96 |
| Tr5.ReadHeaderFlags | src/l_tr5.cpp:200-210 | agrees with that decoding |
| Tr5.HeaderPositionLayout | src/l_tr5.cpp:212-217 | the reads decode block bytes 96-112 |
| Tr5.ReadHeaderPosition | src/l_tr5.cpp:212-217 | agrees with that decoding |
| Tr5.HeaderFacesLayout | src/l_tr5.cpp:219-251 | the reads decode block bytes 112-148 and reject too many faces |
| Tr5.ReadHeaderFaces | src/l_tr5.cpp:219-251 | agrees with that decoding |
| Tr5.HeaderLayersLayout | src/l_tr5.cpp:253-261 | the reads decode block bytes 148-172 and reject a second light count that differs |
| Tr5.ReadHeaderLayers | src/l_tr5.cpp:253-261 | agrees with that decoding |
| Tr5.HeaderOffsetsLayout | src/l_tr5.cpp:276-285 | the reads decode block bytes 172-192 and reject unequal polygon offsets and a vertex size that is not a multiple of 28 |
| Tr5.ReadHeaderOffsets | src/l_tr5.cpp:276-285 | agrees with that decoding |
| Tr5.HeaderTrailerLayout | src/l_tr5.cpp:287-297 | the reads decode block bytes 192-208, four separators |
| Tr5.ReadHeaderTrailer | src/l_tr5.cpp:287-297 | agrees with that decoding |
| Tr5.ParseHeaderRest | src/l_tr5.cpp:163-297 | the rest of the header takes 176 bytes, bounds the counts, keeps the room's position and intensities, and has a vertex size that is a multiple of 28 |
| Tr5.ReadHeaderRest | src/l_tr5.cpp:163-297 | agrees with that decoding |
| Tr5.Shift | src/l_tr5.cpp:349-359 | every vertex index moves by the layer's base, wrapping at 2^16 |
| Tr5.FillRectanglesResult | src/l_tr5.cpp:347-354 | n rectangles are stored exactly when they fit the slots left and the data; they take 12 bytes each, are stored shifted, and leave the other slots alone |
| Tr5.FillTrianglesResult | src/l_tr5.cpp:355-361 | the same for triangles, with 10 bytes each |
| Tr5.FillLayersResult | src/l_tr5.cpp:335-364 | the faces of all the layers are stored exactly when their totals fit the slots and the data |
| Tr5.ReadRectangles | src/l_tr5.cpp:347-354 | agrees with rectangle filling |
| Tr5.ReadTriangles | src/l_tr5.cpp:355-361 | agrees with triangle filling |
| Tr5.ReadLayerFaces | src/l_tr5.cpp:335-364 | agrees with filling every layer's faces |
| Tr5.FillVerticesResult | src/l_tr5.cpp:378-379 | n vertices are stored exactly when they fit the slots left and the data; the k-th is the k-th 28-byte record |
| Tr5.FillLayerVerticesResult | src/l_tr5.cpp:366-381 | the vertices of all the layers are stored exactly when their total fits the slots and the data |
| Tr5.ReadVertices | src/l_tr5.cpp:378-379 | agrees with vertex filling |
| Tr5.ReadLayerVertices | src/l_tr5.cpp:366-381 | agrees with filling every layer's vertices |
| Tr5.ReadRoomBody | src/l_tr5.cpp:299-381 | the lights, sectors, portals, meshes, layers, faces and vertices read by offset agree with their decoding |
| Tr5.ReadRoomData | src/l_tr5.cpp:143-383 | the room decoded from its block alone, its position taken from block bytes 20-32 (the corrected form), agrees with its decoding |
| Tr5.ParseRoomBlock | src/l_tr5.cpp:130-138 | the block decodes exactly when the tag is "XELA" and its whole size is there, and it is those bytes |
| Tr5.ReadRoomBlock | src/l_tr5.cpp:130-138 | agrees with the block decoding |
| Tr5.ReadRoom | src/l_tr5.cpp:112-396 | agrees with the corrected room decoding |
| Tr5.RoomEnds | src/l_tr5.cpp:383 | the corrected room ends where its block ends |
| Tr5.RoomAsWrittenEnds | src/l_tr5.cpp:159-162 | as written, the room ends 12 bytes past its block |
| Tr5.LightsStartInsideHeader | src/l_tr5.cpp:159-162 | as written, the first light is read from block byte 196, inside the header |
| Tr5.RoomCountsMatch | src/l_tr5.cpp:112-396 | every list has its declared length within the header's bounds; the faces and vertices of the layers fit their slots; both intensities are 32767 |
| Tr5.RoomBodyCounts | src/l_tr5.cpp:299-381 | the body keeps the header's counts and fills lists of those lengths |
| Tr5.MoveableLayout | src/l_tr5.cpp:398-403 | the reads decode the 20-byte moveable and reject a filler other than 0xFFEF |
| Tr5.ReadMoveable | src/l_tr5.cpp:398-403 | agrees with the moveable decoding |
| Tr5.ObjectTextureLayout | src/l_tr5.cpp:700-705 | the reads decode the 40-byte texture and reject a trailing word other than 0 |
| Tr5.ReadObjectTexture | src/l_tr5.cpp:700-705 | agrees with the texture decoding |
| Tr5.ReadLights | src/l_tr5.cpp:299-301 | n TR5 lights agree with their list decoding |
| Tr5.ReadLayers | src/l_tr5.cpp:331-333 | n layers agree with their list decoding |
| Tr5.ReadRooms | src/l_tr5.cpp:604-606 | n corrected TR5 rooms agree with their list decoding |
| Tr5.ReadMoveables | src/l_main.cpp:111-116 | n TR5 moveables agree with their list decoding |
| Tr5.ReadObjectTextures | src/l_tr5.cpp:700-705 | n TR5 object textures agree with their list decoding |
| Resolve.Relabel | src/l_main.cpp:59-61 | every entry equal to pos becomes the mesh number; the others are kept |
| Resolve.FirstAbove | src/l_main.cpp:75-79 | the first index, in array order, whose entry exceeds the bound, and none when there is no such entry |
| Resolve.LeastAbove | src/l_main.cpp:75-79 | the index of the smallest entry above the bound, and none when there is no such entry |
| Resolve.MeshScanAsWritten | src/l_main.cpp:57-80 | the loop as written keeps the table's length and visits one position per iteration |
| Resolve.MeshScan | src/l_main.cpp:57-80 | the corrected loop keeps the table's length and visits between one and k distinct positions in k iterations; once no greater pointer is left the table is final |
| Resolve.MeshPositions | src/l_main.cpp:56-80 | one read position per pointer: the visited positions, then the last one again for each iteration left, as the loop stays at `pos` when no greater pointer is found |
| Resolve.MeshSlotsMatchPointers | src/l_main.cpp:59-68 | every renumbered pointer names the slot its mesh is read into: the read position of slot mesh_indices[j] is the pointer ix[j] |
| Resolve.FirstAboveIsLeast | src/l_main.cpp:75-79 | when the entries above the bound are in order, the first greater entry in array order is the smallest greater one |
| Resolve.AsWrittenStays | src/l_main.cpp:56-80 | as written, once every entry is below `pos`, each iteration left reads at `pos` again and changes nothing |
| Resolve.MeshStaysBelow | src/l_main.cpp:59-61 | when the largest pointer is at least the count less one and no greater pointer is left, every entry is a mesh number below `pos` |
| Resolve.MeshAgreeFrom | src/l_main.cpp:56-80 | on sorted pointers, from any state of the intended pass, the loop as written leaves the same table and reads at the intended positions padded with the last |
| Resolve.MeshPassesAgreeWhenSorted | src/l_main.cpp:56-80 | on sorted non-negative pointers whose largest is at least the count less one, the loop as written and the corrected loop give the same table, and the loop as written reads at exactly `MeshPositions` |
| Resolve.MeshRelabelStep | src/l_main.cpp:59-61 | one relabelling keeps the invariant: the visited positions increase and each resolved entry is labelled with its position's place |
| Resolve.MeshStep | src/l_main.cpp:59-80 | after a step, either every offset has been visited or the smallest one left is the next position |
| Resolve.MeshScanFrom | src/l_main.cpp:57-80 | the corrected loop, from any state that satisfies the invariant, ends with the table resolved |
| Resolve.MeshIndicesResolved | src/l_main.cpp:57-80 | the corrected loop visits offsets from 0 in increasing order, labels each entry with its offset's place, and visits every offset when it stops early |
| Resolve.MeshScanSizes | src/l_main.cpp:57-80 | both loops keep the table's length; the loop as written visits one position per entry |
| Resolve.NextAsWrittenIsFirstGreater | src/l_main.cpp:75-79 | as written, the next position is the first greater entry in array order, or pos itself |
| Resolve.MeshIndicesUnsorted | src/l_main.cpp:75-79 | as written, [0, 100, 40] becomes [0, 1, 40], with 40 never visited; the corrected loop gives [0, 2, 1] |
| Resolve.Claim | src/l_main.cpp:121-125 | every moveable at offset pos takes the frame number and has its offset cleared; the others are kept |
| Resolve.FirstPending | src/l_main.cpp:146-151 | the first moveable, in array order, whose offset is still positive |
| Resolve.FrameScanAsWritten | src/l_main.cpp:118-152 | the loop as written keeps the table's length and visits one offset per iteration |
| Resolve.FrameScan | src/l_main.cpp:118-152 | the corrected loop keeps the table's length and visits between one and k offsets in k iterations |
| Resolve.FrameClaimStep | src/l_main.cpp:121-125 | one claiming step keeps the invariant |
| Resolve.FrameStep | src/l_main.cpp:121-151 | after a step, either every moveable has been claimed or the first pending one gives the next position |
| Resolve.FrameScanFrom | src/l_main.cpp:118-152 | the corrected loop, from any state that satisfies the invariant, ends with every frame resolved |
| Resolve.FramesResolvedByScan | src/l_main.cpp:118-152 | the corrected loop gives each distinct offset, starting from 0, its own frame number, and gives frame 0 to every moveable at offset 0 |
| Resolve.FramesOverwritten | src/l_main.cpp:146-151 | as written, offsets [0, 10, 10] all end with frame 2, where the corrected loop gives 0, 1 and 1 |
| LevelSpec.EmptyLevel | src/l_main.h:41-89 | a new level is well formed: both palettes have 256 colours and every textile is 256 by 256 |
| LevelSpec.ResizedCount | src/prtl.h:67-97 | a skipped array's size after resize(n) is n, exactly when `Prtl.Resized` succeeds on an array of the old size; otherwise not enough memory |
| LevelSpec.SkipSpec | src/l_tr1.cpp:571-572 | a skipped section changes only its count; it is rejected only when a non-empty array is resized to 0 |
| LevelSpec.ZonesSpec | src/l_tr1.cpp:633 | skipping the zones never fails, changes no member and stays inside the data |
| LevelSpec.ListSpec | src/l_tr1.cpp:567-569 | a resized list holds exactly n records; it is rejected exactly when the resize of the outer array shrinks a non-empty array to 0 |
| LevelSpec.CountedList | src/l_tr1.cpp:567-569 | a count then that many records; rejected only when the outer array shrinks from non-empty to 0 |
| LevelSpec.RoomParser | src/l_tr5.cpp:604-606 | the room reader of each generation, TR_V with the corrected room position; `RoomsSpec`, `RunKeeps` and the per-generation `ReadRooms` lemmas are what is proved of it |
| LevelSpec.RoomsSpec | src/l_tr1.cpp:567-569 | only the rooms change |
| LevelSpec.AnimationsSpec | src/l_tr1.cpp:576-578 | only the animations change |
| LevelSpec.StaticMeshesSpec | src/l_tr1.cpp:601-603 | only the static meshes change |
| LevelSpec.ObjectTexturesSpec | src/l_tr1.cpp:605-607 | only the object textures change |
| LevelSpec.SpriteTexturesSpec | src/l_tr1.cpp:609-611 | only the sprite textures change |
| LevelSpec.SpriteSequencesSpec | src/l_tr1.cpp:613-615 | only the sprite sequences change |
| LevelSpec.ItemsSpec | src/l_tr1.cpp:638-640 | only the items change |
| LevelSpec.ListStepSpec | src/l_tr1.cpp:567-640 | each list step changes only its own member |
| LevelSpec.MeshTreesSpec | src/l_tr1.cpp:589-597 | only the mesh trees change |
| LevelSpec.MeshesAt | src/l_main.cpp:63-70 | the mesh at the k-th position goes into meshes[first + k], and no other mesh changes |
| LevelSpec.MeshDataSpec | src/l_main.cpp:29-90 | only the mesh pointers and meshes change, there is one mesh per pointer, and every mesh slot is read at its position in `Resolve.MeshPositions` (`MeshesAt`) |
| LevelSpec.FrameMoveableSpec | src/l_main.cpp:93-165 | only the moveables change |
| LevelSpec.CheckSpec | src/l_tr1.cpp:546-549 | a checked value passes exactly when it is one of the accepted values, and moves the stream past it; any other value throws the step's message |
| LevelSpec.HeaderStepSpec | src/l_tr1.cpp:551-561 | each header step changes only the members it names |
| LevelSpec.IgnoreSpec | src/l_tr5.cpp:572-573 | an ignored value only moves the stream, and fails only on a short read |
| LevelSpec.PaletteSpec | src/l_tr1.cpp:642-645 | only the palette changes, to 256 colours; it is never rejected |
| LevelSpec.Palette16Spec | src/l_tr2.cpp:238 | only the 16-bit palette changes, to 256 colours |
| LevelSpec.LightmapSpec | src/l_tr1.cpp:642 | only the light map changes, to 8192 entries |
| LevelSpec.TextileCountsSpec | src/l_tr5.cpp:430-434 | three counts are read in 6 bytes; only the textile counts change, and num_misc_textiles is the fixed value |
| LevelSpec.Textiles8Spec | src/l_tr1.cpp:558-561 | only num_textiles and textile8 change, and there are num_textiles textiles |
| LevelSpec.Textiles16Spec | src/l_tr2.cpp:251-253 | only textile16 changes, to num_textiles textiles |
| LevelSpec.Uncompress | src/l_tr4.cpp:328-333 | uncompress fills at most the buffer, with what the inflater gives |
| LevelSpec.Unpack | src/l_tr4.cpp:320-338 | on success, the comp_size bytes at the position inflate to exactly uncomp_size bytes; any failure is a read error |
| LevelSpec.FillTextiles | src/l_tr4.cpp:340-341 | the fill keeps the array's size and every tile outside from..end; it is rejected out of bounds only when end exceeds the size |
| LevelSpec.SegmentStepSpec | src/l_tr4.cpp:304-451 | each compressed segment changes only its own members, and the packed geometry changes none |
| LevelSpec.Segment32Spec | src/l_tr4.cpp:319-346 | the 32-bit textile segment: no bytes change nothing, otherwise textile32 is resized to num_textiles, inflated and filled; `Segment32Fills` and `RunKeeps` are what is proved of it |
| LevelSpec.Segment16Spec | src/l_tr4.cpp:355-387 | the 16-bit textile segment, read only while textile32 is empty and skipped otherwise; `Segment16Skipped` and `RunKeeps` are what is proved of it |
| LevelSpec.SegmentMiscSpec | src/l_tr4.cpp:394-426 | the misc textile segment with its "num_misc_textiles" bound and the resize of an empty textile32; `MiscSegmentInBounds`, `Tr5MiscAsWrittenOverruns` and `RunKeeps` are what is proved of it |
| LevelSpec.StepSpec | src/l_tr1.cpp:541-664 | one step of a level reader, dispatched to the specification of its kind; `RunKeeps` and the per-step lemmas are what is proved of it |
| LevelSpec.Run | src/l_tr1.cpp:541-664 | the steps in order, stopping at the first that throws; `RunFirst`, `RunKeeps` and `ReadLevelKeeps` are what is proved of it |
| LevelSpec.LevelSections | src/l_main.cpp:183-210 | a reader exists exactly for the versions TR_I to TR_V |
| LevelSpec.Tr1Sections | src/l_tr1.cpp:541-664 | the reads of read_tr_level in source order, the palette placed by the demo flag; `VersionFirst`, `WrongVersionRejected`, `RunKeeps` and `ReadLevelKeeps` are what is proved of it |
| LevelSpec.Tr2Sections | src/l_tr2.cpp:227-351 | the reads of read_tr2_level in source order, the light map placed by the demo flag; `VersionFirst`, `WrongVersionRejected`, `RunKeeps` and `ReadLevelKeeps` are what is proved of it |
| LevelSpec.Tr3Sections | src/l_tr3.cpp:145-265 | the reads of read_tr3_level in source order, accepting both TR3 version words; `VersionFirst`, `WrongVersionRejected`, `RunKeeps` and `ReadLevelKeeps` are what is proved of it |
| LevelSpec.Tr4Sections | src/l_tr4.cpp:281-597 | the reads of read_tr4_level in source order, with its three compressed textile segments and the packed geometry; `VersionFirst`, `WrongVersionRejected`, `RunKeeps` and `ReadLevelKeeps` are what is proved of it |
| LevelSpec.Tr5MiscAsWritten | src/l_tr5.cpp:515-523 | the misc textile segment of read_tr5_level as written, resizing an empty textile32 to num_misc_textiles; `Tr5MiscAsWrittenOverruns` is what is proved of it |
| LevelSpec.Tr5Sections | src/l_tr5.cpp:405-725 | the reads of read_tr5_level in source order, with the misc segment resized to num_textiles; `VersionFirst`, `WrongVersionRejected`, `RunKeeps` and `ReadLevelKeeps` are what is proved of it |
| LevelSpec.ReadLevelSpec | src/l_main.cpp:206-208 | any other version throws "Invalid game version" |
| LevelSpec.ParseManyAll | src/l_tr1.cpp:567-569 | every record of a list satisfies what every decoded record satisfies |
| LevelSpec.FillFixedSize | src/l_tr4.cpp:340-341 | the k-th textile filled is the one at k blocks of its size from the start |
| LevelSpec.FillShaped | src/l_tr4.cpp:340-341 | filling keeps every textile 256 by 256 |
| LevelSpec.WrongVersionRejected | src/l_tr1.cpp:546-549 | every reader throws "Wrong level version" on a first word that is not a version of its game, and data too short for a word does not decode |
| LevelSpec.VersionFirst | src/l_tr1.cpp:546-549 | the first step of every reader checks the file version |
| LevelSpec.RunFirst | src/l_tr1.cpp:541-664 | a run whose first step does not complete ends as that step does |
| LevelSpec.MeshTreesQuarter | src/l_tr1.cpp:589-597 | the count is rejected exactly when it is not a multiple of 4; otherwise the level holds a quarter of it, and nothing else changes |
| LevelSpec.TextileCountsAddUp | src/l_tr5.cpp:430-434 | num_textiles is the three counts plus the misc textiles, and is at least num_misc_textiles |
| LevelSpec.Segment32Fills | src/l_tr4.cpp:304-347 | no bytes leave the level unchanged; otherwise textile32 gets num_textiles textiles and read_32bit_textiles is set; failures are read errors |
| LevelSpec.Segment16Skipped | src/l_tr4.cpp:384-386 | after 32-bit textiles, the 16-bit segment only moves the stream |
| LevelSpec.Tr5MiscAsWrittenOverruns | src/l_tr5.cpp:523 | as written, with four textiles or more, an empty textile32 resized to 3 makes the misc store at index 3 throw out of bounds: the first store from six textiles on, and for four and five once the textiles stored before it decode |
| LevelSpec.MiscSegmentInBounds | src/l_tr4.cpp:401 | resized to num_textiles, the misc segment is never out of bounds |
| LevelSpec.RunKeeps | src/l_tr1.cpp:541-664 | every run keeps the level well formed (256-colour palettes, 256 by 256 textiles) and keeps game_version |
| LevelSpec.ReadLevelKeeps | src/l_main.cpp:176-214 | a level read from a well-formed one is well formed and has the requested version |
| Level.ReadWord | src/l_common.cpp:35-139 | agrees with the word decoding of its width |
| Level.ReadRoomList | src/l_tr1.cpp:567-569 | n rooms of the generation agree with their list decoding |
| Level.ReadAnimationList | src/l_tr1.cpp:576-578 | n animations agree with their list decoding |
| Level.ReadObjectTextureList | src/l_tr1.cpp:605-607 | n object textures agree with their list decoding |
| Level.ReadItemList | src/l_tr1.cpp:638-640 | n items agree with their list decoding |
| Level.ReadMoveableList | src/l_main.cpp:111-116 | n moveables of the version's layout agree with their list decoding |
| Level.ReadMeshPointers | src/l_main.cpp:51-53 | n bitu32 pointers agree with their list decoding |
| Level.RelabelPointers | src/l_main.cpp:59-61 | the relabelling loop computes `Relabel` |
| Level.NextMeshPointer | src/l_main.cpp:75-79 | the search loop finds the smallest greater pointer |
| Level.ClaimFrames | src/l_main.cpp:121-125 | the claiming loop computes `Claim` |
| Level.NextPendingFrame | src/l_main.cpp:146-151 | the search loop finds the first pending moveable |
| Level.ReadMeshAt | src/l_main.cpp:63-68 | seeking to `pos` and reading a mesh of the version's layout agrees with the mesh decoding at `pos` |
| Level.ReadMeshes | src/l_main.cpp:56-80 | one mesh read per pointer, at `Resolve.MeshPositions`, into slots 0 up, while the pointers are renumbered by the corrected loop; fails exactly when one of those reads fails |
| Level.ResolveFrameOffsets | src/l_main.cpp:118-152 | the corrected frame loop's table |
| Level.ReadCompressed | src/l_tr4.cpp:323-338 | agrees with `Unpack` |
| Level.FillTextiles32 | src/l_tr4.cpp:340-341 | agrees with filling 32-bit textiles through operator[] |
| Level.FillTextiles16 | src/l_tr4.cpp:377-378 | agrees with filling 16-bit textiles |
| Level.TrLevel.constructor | src/l_main.h:41-89 | a fresh TR_Level holds the empty level |
| Level.TrLevel.ReadHeader | src/l_tr1.cpp:551-561 | the new members and position are those of the header step |
| Level.TrLevel.ReadCheck | src/l_tr1.cpp:564-565 | agrees with the check step and leaves the members alone |
| Level.TrLevel.ReadIgnore | src/l_tr5.cpp:572-573 | agrees with the ignore step |
| Level.TrLevel.ReadPalette | src/l_tr1.cpp:618 | agrees with the palette step |
| Level.TrLevel.ReadPalette16 | src/l_tr2.cpp:238 | agrees with the 16-bit palette step |
| Level.TrLevel.ReadLightmap | src/l_tr1.cpp:642 | agrees with the light map step |
| Level.TrLevel.ReadTextileCounts | src/l_tr5.cpp:430-434 | agrees with the textile count step |
| Level.TrLevel.ReadTextiles8 | src/l_tr1.cpp:558-561 | agrees with the 8-bit textile step |
| Level.TrLevel.ReadTextiles16 | src/l_tr2.cpp:251-253 | agrees with the 16-bit textile step |
| Level.TrLevel.ReadSkip | src/l_tr1.cpp:571-572 | agrees with the skip step |
| Level.TrLevel.SkipZones | src/l_tr1.cpp:633 | agrees with the zone step |
| Level.TrLevel.ReadList | src/l_tr1.cpp:567-640 | agrees with the list step |
| Level.TrLevel.ReadRooms | src/l_tr1.cpp:567-569 | agrees with the room list step |
| Level.TrLevel.ReadAnimations | src/l_tr1.cpp:576-578 | agrees with the animation list step |
| Level.TrLevel.ReadStaticMeshes | src/l_tr1.cpp:601-603 | agrees with the static mesh list step |
| Level.TrLevel.ReadObjectTextures | src/l_tr1.cpp:605-607 | agrees with the object texture list step |
| Level.TrLevel.ReadSpriteTextures | src/l_tr1.cpp:609-611 | agrees with the sprite texture list step |
| Level.TrLevel.ReadSpriteSequences | src/l_tr1.cpp:613-615 | agrees with the sprite sequence list step |
| Level.TrLevel.ReadItems | src/l_tr1.cpp:638-640 | agrees with the item list step |
| Level.TrLevel.ReadMeshTrees | src/l_tr1.cpp:589-597 | agrees with the mesh tree step |
| Level.TrLevel.ReadMeshData | src/l_main.cpp:29-90 | agrees with the mesh data step |
| Level.TrLevel.ReadFrameMoveableData | src/l_main.cpp:93-165 | agrees with the moveable step |
| Level.TrLevel.ReadSegment32 | src/l_tr4.cpp:314-347 | agrees with the 32-bit segment |
| Level.TrLevel.ReadSegment16 | src/l_tr4.cpp:350-387 | agrees with the 16-bit segment |
| Level.TrLevel.ReadSegmentMisc | src/l_tr4.cpp:389-426 | agrees with the misc segment |
| Level.TrLevel.ReadSegment | src/l_tr4.cpp:304-451 | agrees with the segment step; the packed geometry continues on a fresh stream over the inflated bytes |
| Level.TrLevel.ReadStep | src/l_tr1.cpp:541-664 | agrees with the step's specification |
| Level.TrLevel.ReadSteps | src/l_tr1.cpp:541-664 | agrees with the run of the steps |
| Level.TrLevel.ReadLevel | src/l_main.cpp:176-214 | a null stream throws "Invalid SDL_RWops"; otherwise it agrees with `ReadLevelSpec`; success keeps the level well formed with the requested version |
| VtLevel.Channel | src/vt_level.cpp:67 | a palette channel fits in one byte |
| VtLevel.Pixel8Bits | src/vt_level.cpp:64-69 | index 0 is transparent black; any other index gives its palette's red, green and blue in bytes 0, 1 and 2, and alpha 0xff |
| VtLevel.Pixel16Bits | src/vt_level.cpp:82-85 | without bit 15 the pixel is 0; with it, each 5-bit channel becomes the top of its byte and alpha is 0xff |
| VtLevel.Argb1555 | src/vt_level.cpp:83 | the ARGB1555 word a converted pixel came from is a 16-bit value |
| VtLevel.Pixel16RoundTrip | src/vt_level.cpp:83 | converting an opaque 16-bit pixel loses nothing: its word comes back |
| VtLevel.OpaqueExactly | src/vt_level.cpp:64-85 | a converted pixel is opaque exactly when the index is not 0, or bit 15 of the word is set |
| VtLevel.Converted8 | src/vt_level.cpp:58-72 | the converted textile has the shape of the 8-bit one |
| VtLevel.Converted16 | src/vt_level.cpp:74-88 | the converted textile has the shape of the 16-bit one |
| VtLevel.ConvertTextile8 | src/vt_level.cpp:58-72 | the nested loops convert every pixel: the result is `Converted8` of the textile, whose pixels are `Pixel8Bits` |
| VtLevel.ConvertTextile16 | src/vt_level.cpp:74-88 | the nested loops convert every pixel: the result is `Converted16` of the textile, whose pixels are `Pixel16Bits` |
| VtLevel.Map8 | src/vt_level.cpp:19-21 | one converted textile per 8-bit textile |
| VtLevel.Map16 | src/vt_level.cpp:15-16 | one converted textile per 16-bit textile |
| VtLevel.Stored | src/vt_level.cpp:15-16 | storing from..end succeeds exactly when the range is empty or lies inside both arrays; it then writes those slots only; otherwise out of bounds |
| VtLevel.ConvertAll16 | src/vt_level.cpp:15-16 | the 16-bit loop gives exactly `Stored` of the converted 16-bit textiles over textile32, including its out-of-bounds failure |
| VtLevel.ConvertAll8 | src/vt_level.cpp:20-21 | the 8-bit loop gives exactly `Stored` of the palette-converted 8-bit textiles over textile32, including its out-of-bounds failure |
| VtLevel.Prepared | src/vt_level.cpp:7-23 | prepare_level changes only textile32, and fails only with a prtl exception |
| VtLevel.Prepared16 | src/vt_level.cpp:11-17 | with 16-bit textiles, an empty textile32 is first sized to num_textiles; the first num_textiles - num_misc_textiles slots (in 32 bits) are converted and the rest kept; it fails out of bounds exactly when those slots do not fit |
| VtLevel.Prepared32 | src/vt_level.cpp:12 | with 32-bit textiles read, nothing changes |
| VtLevel.Prepared8 | src/vt_level.cpp:19-21 | before TR2, textile32 becomes num_textiles converted 8-bit textiles; it fails with not enough memory for a zero count over a non-empty array, and out of bounds when there are too few 8-bit textiles |
| VtLevel.ConvertedShaped | src/vt_level.cpp:58-88 | every converted textile is 256 by 256 |
| VtLevel.PreparedKeeps | src/vt_level.cpp:7-23 | prepare_level keeps the level well formed |
| VtLevel.PreparedIdempotent | src/vt_level.cpp:7-23 | preparing a prepared level gives the same level |
| VtLevel.PrepareLevel | src/vt_level.cpp:7-23 | the method succeeds exactly when `Prepared` does, then holds its members; otherwise it fails with the same exception |
| VtLevel.FirstIndex | src/vt_level.cpp:29-33 | the first index from `from` with the id, or none when no later element has it |
| VtLevel.FindFirst | src/vt_level.cpp:29-33 | the search loop finds `FirstIndex` from 0 |
| VtLevel.FindStaticMeshId | src/vt_level.cpp:25-34 | the first static mesh with the id, or none when no static mesh has it |
| VtLevel.FindItemId | src/vt_level.cpp:36-45 | the first item with the id, or none when no item has it |
| VtLevel.FindMoveableId | src/vt_level.cpp:47-56 | the first moveable with the id, or none when no moveable has it |

## Left out

- `TrLevel` holds the members of `TR_Level` as one record field, updated in place per step, rather than forty separate fields.
- Partial state after an exception is not modelled. The readers, `read_mesh_data` and `prepare_level` write the members only when they succeed. The source may leave arrays resized or half filled before it throws.
- Allocation (`new`, `prtl::array::resize` with a non-zero count) always succeeds in the model. `SDL_RWFromMem` never fails. A negative bit16 count converted to a huge bitu32 size is modelled as a list of that many blank records.
- The `(int)size` casts in the short-read tests are not modelled: a read is short exactly when fewer bytes remain.
- Seeking is modelled with memory-stream semantics: an offset outside the data is clamped to its ends.
- Floating point is opaque. A float is its 32-bit pattern, or a symbolic integer, quotient or angle. Negation flips the sign bit. No arithmetic on floats is modelled.
- `SDL_SwapLE16` and `SDL_SwapLE32` are the identity, as on a little-endian host.
- zlib's `uncompress` is the `inflate` parameter of the level readers.
- `SDL_RWclose`, `SDL_RWFromFile` and the cleanup after an exception (`delete[]`, closing the temporary streams) are not modelled.
- The frames of `read_frame_moveable_data` are not decoded, because the source has that code commented out. The frame readers are modelled separately (`Tr1.ReadFrame`, `Tr2.ReadFrame`).
- `dump_textures` and `WriteTGAfile` are file output and are not part of this model.
- `game_version` of a fresh `TR_Level` is uninitialised in the source; the model's constructor sets it to TR_I, and `read_level` always sets it first.
- Common.ReadBit8: the failure message and the position after a short read are not stated (likewise for the other primitive readers and every record reader). Only success, the value and the new position are.
- Level.TrLevel.ReadLevel: on failure the members are not described. For TR_V it follows `LevelSpec.ReadLevelSpec`, so it reads every room with its position from the room block and resizes an empty `textile32` to `num_textiles`, not as src/l_tr5.cpp:159-161 and 523 do.
- Tr5.ReadRoomData: takes the room's x, y and z from block bytes 20-32, the corrected form of src/l_tr5.cpp:159-161, which reads them from the outer stream and so decodes the rest of the header 12 bytes early. The as-written decoding is `Tr5.ParseRoomAsWritten`, exhibited by `Tr5.RoomAsWrittenEnds` and `Tr5.LightsStartInsideHeader`.
- Tr5.ReadRoom: reads the corrected room, which ends with its block. As written, src/l_tr5.cpp:159-161 also consumes the 12 bytes after the block; that form is `Tr5.ParseRoomAsWritten`.
- Tr5.ReadRooms: a list of corrected rooms (`Tr5.ReadRoom`), not of the as-written reads of src/l_tr5.cpp:159-161.
- LevelSpec.RoomParser: for TR_V it is the corrected `Tr5.ParseRoom`, not `Tr5.ParseRoomAsWritten`.
- LevelSpec.Tr5Sections: runs the corrected rooms and the misc segment resized to `num_textiles`; the as-written resize of src/l_tr5.cpp:523 is `LevelSpec.Tr5MiscAsWritten`.
- LevelSpec.ReadLevelSpec: for TR_V it runs `LevelSpec.Tr5Sections`, so the level model does not show the 12-byte overrun of each room or the out-of-bounds throw of the misc resize.
- `num_zsectors * num_xsectors` is computed in C++ `int` and can overflow above 2^31 - 1; the model (`Tr1.GridSize`) takes the exact product, which the `(bitu32)` cast gives back on a wrapping two's-complement host.
- Tr1.ReadRoom: the error message of a failing room (and of every composite reader) is not stated.
- Reading a level into a `TR_Level` that already holds one is modelled only for the outer arrays. Every room and mesh is decoded as a fresh value, while the source reads it into the element that `resize` kept (`read_tr_room(src, this->rooms[i])`, `read_tr_mesh(newsrc, this->meshes[mesh])`). The nested arrays of a kept room or mesh are therefore not resized from their old sizes. So the model does not show two things. First, the "array[] not enough memory" throw when a nested list shrinks from non-empty to 0, as for a room whose sprites go from one to none (src/l_tr1.cpp:264, src/prtl.h:76-83). Second, the stale `normals` or `lights` a re-read mesh keeps (src/l_tr1.cpp:395-407), and the stale TR5 face slots that no layer fills.
- LevelSpec.ListSpec: decodes each record as a fresh value, so its rejection covers only the outer array's resize, not the nested resizes of rooms and meshes re-read into a used level.
- LevelSpec.CountedList: as `LevelSpec.ListSpec`, rejected only for the outer array's shrink to 0; the nested-array throw on a re-read is not modelled.
- LevelSpec.RoomsSpec: rooms are fresh values; a re-read into the rooms that resize kept (src/l_tr1.cpp:567-569) is not modelled.
- LevelSpec.MeshDataSpec: meshes are fresh values; a re-read into the meshes that resize kept (src/l_main.cpp:54-68) is not modelled.
- LevelSpec.ReadLevelSpec: on a used level it decodes rooms and meshes as fresh values, so it does not show the nested-array throws or the stale mesh and face data of a re-read.
- Level.ReadMeshes: reads each mesh as a fresh value, not into the mesh that resize kept.
- Level.TrLevel.ReadRooms: agrees with `LevelSpec.RoomsSpec`, so rooms re-read into a used level are fresh values, unlike src/l_tr1.cpp:567-569.
- Level.TrLevel.ReadMeshData: agrees with `LevelSpec.MeshDataSpec`, so meshes re-read into a used level are fresh values.
- Level.TrLevel.ReadLevel: its ensures holds for any old level, but on a used level rooms and meshes are decoded fresh, so it succeeds where the source throws on a nested shrink to 0.
- Resolve.MeshScan: moves to the smallest greater pointer, not to the first greater one in array order as src/l_main.cpp:75-79 does (`Resolve.MeshScanAsWritten`). On the iterations after the last pointer it does not relabel again: the source relabels the entries equal to `pos` once more, which changes the table only when entries already renumbered equal `pos`, as with pointers [0, 0] (the source gives [1, 1]); `Resolve.MeshPassesAgreeWhenSorted` shows the two agree on sorted pointers whose largest is at least the count less one.
- LevelSpec.MeshDataSpec: renumbers and reads by `Resolve.MeshScan` and `Resolve.MeshPositions`, the corrected loop, not by `Resolve.MeshScanAsWritten`, the loop of src/l_main.cpp:56-80 as written.
- LevelSpec.FrameMoveableSpec: numbers the frames by `Resolve.ResolveFrames`, which stops once nothing is pending, not the loop of src/l_main.cpp:118-152 as written (`Resolve.ResolveFramesAsWritten`).
- Level.NextMeshPointer: finds the smallest greater pointer, not the first greater one in array order as src/l_main.cpp:75-79 does (`Resolve.FirstAbove`).
- Level.ReadMeshes: runs the corrected loop of `Resolve.MeshScan`, with the differences from src/l_main.cpp:56-80 listed for it above.
- Level.ResolveFrameOffsets: runs the corrected frame loop, which stops once nothing is pending, not the loop of src/l_main.cpp:118-152 as written (`Resolve.ResolveFramesAsWritten`).
- Level.TrLevel.ReadMeshData: agrees with `LevelSpec.MeshDataSpec`, so it has the corrected mesh loop, not the loop of src/l_main.cpp:56-80 as written.
- Level.TrLevel.ReadFrameMoveableData: agrees with `LevelSpec.FrameMoveableSpec`, so it has the corrected frame loop, not the loop of src/l_main.cpp:118-152 as written.
- `VtLevel.FindStaticMeshId`, `FindItemId` and `FindMoveableId` return an index instead of a pointer into the array.

## Findings

| source | as written | input that shows it | evidently intended | confidence | as-written member | corrected member |
|---|---|---|---|---|---|---|
| src/l_main.cpp:146-151 | `pos` is reset to 0 and the loop runs once per moveable. Once every offset has been claimed, every moveable sits at offset 0, and each further iteration gives all of them the current frame number. | moveables with frame offsets [0, 10, 10] end with frame numbers [2, 2, 2] | frame numbers [0, 1, 1]: one number per distinct offset, stopping once nothing is pending | not executed | Resolve.FramesOverwritten | Resolve.FramesResolvedByScan |
| src/l_main.cpp:75-79 | the next mesh position is the first greater pointer in array order, so an offset after a greater one is never visited | mesh pointers [0, 100, 40] become [0, 1, 40]: pointer 40 stays a byte offset | the smallest greater pointer, and the table kept once no greater pointer is left: [0, 2, 1] | not executed | Resolve.MeshIndicesUnsorted | Resolve.MeshIndicesResolved |
| src/l_tr5.cpp:523 | an empty `textile32` is resized to `num_misc_textiles` (3), then the misc textiles are stored at indices `num_textiles - 3` and up | a TR5 level without a 32-bit segment and with 4 or more textiles throws "array[] out of bounds" at the misc textile stored at index 3, the first one from 6 textiles on | resize to `num_textiles`, as `read_tr4_level` does at src/l_tr4.cpp:401 | not executed | LevelSpec.Tr5MiscAsWrittenOverruns | LevelSpec.MiscSegmentInBounds |
| src/l_tr5.cpp:159-162 | the room's x, y and z are read from the outer stream `src` instead of the room block `newsrc` | any room block: the room ends 12 bytes past its block, and its first light is read from block byte 196, inside the header | read the position from block bytes 20-32, so the room ends with its block | not executed | Tr5.RoomAsWrittenEnds | Tr5.RoomEnds |
