/* The TR_Level class of l_main.h: its members, and the readers of
   l_main.cpp and l_tr1.cpp to l_tr5.cpp that fill them from a stream. Every
   reader performs, on the members of the object, one step of module
   LevelSpec, and its postcondition says that it does exactly what that
   step specifies. */
module Level {
  import opened Wrappers
  import opened Common
  import opened Types
  import Prtl
  import Resolve
  import Tr1
  import Tr2
  import Tr3
  import Tr4
  import Tr5
  import opened LevelSpec

  /** A reader that returned `r` and left the members `s` and the stream at
      `p` in `d` did what outcome `o` specifies: it completed exactly when
      the step completes, with the same members and stream position, and
      it threw the step's exception when the step throws one. */
  ghost predicate Agrees(r: Result<()>, o: Outcome, s: LevelState, d: seq<byte>, p: nat) {
    (r.Success? <==> o.Done?) &&
    (o.Done? ==> o == Done(s, d, p)) &&
    (o.Rejected? ==> r == Failure(o.error))
  }

  /** read_bit8, read_bitu16 or read_bitu32. */
  method ReadWord(src: Cursor, w: Width) returns (r: Result<int>)
    requires src.Valid()
    modifies src
    ensures src.Valid() && Matches(r, ParseWord(w, src.data, old(src.pos)), src.pos)
  {
    match w
    case Bit8 => r := ReadBit8(src);
    case BitU16 => r := ReadBitU16(src);
    case BitU32 => r := ReadBitU32(src);
  }

  // ---------------------------------------------------------------------
  // The record readers of each generation, as the level readers pick them

  method ReadRoomList(src: Cursor, g: Gen, n: nat) returns (r: Result<seq<Room>>)
    requires src.Valid()
    modifies src
    ensures src.Valid() && Matches(r, ParseMany(src.data, old(src.pos), n, RoomParser(g)), src.pos)
  {
    match g
    case G1 => r := Tr1.ReadRooms(src, n);
    case G2 => r := Tr2.ReadRooms(src, n);
    case G3 => r := Tr3.ReadRooms(src, n);
    case G4 => r := Tr4.ReadRooms(src, n);
    case G5 => r := Tr5.ReadRooms(src, n);
  }

  method ReadAnimationList(src: Cursor, g: Gen, n: nat) returns (r: Result<seq<Animation>>)
    requires src.Valid()
    modifies src
    ensures src.Valid() && Matches(r, ParseMany(src.data, old(src.pos), n, AnimationParser(g)), src.pos)
  {
    if g == G4 {
      r := Tr4.ReadAnimations(src, n);
    } else {
      r := Tr1.ReadAnimations(src, n);
    }
  }

  method ReadObjectTextureList(src: Cursor, g: Gen, n: nat) returns (r: Result<seq<ObjectTexture>>)
    requires src.Valid()
    modifies src
    ensures src.Valid() && Matches(r, ParseMany(src.data, old(src.pos), n, ObjectTextureParser(g)), src.pos)
  {
    match g
    case G4 => r := Tr4.ReadObjectTextures(src, n);
    case G5 => r := Tr5.ReadObjectTextures(src, n);
    case _ => r := Tr1.ReadObjectTextures(src, n);
  }

  method ReadItemList(src: Cursor, g: Gen, n: nat) returns (r: Result<seq<Item>>)
    requires src.Valid()
    modifies src
    ensures src.Valid() && Matches(r, ParseMany(src.data, old(src.pos), n, ItemParser(g)), src.pos)
  {
    match g
    case G2 => r := Tr2.ReadItems(src, n);
    case G3 => r := Tr3.ReadItems(src, n);
    case _ => r := Tr1.ReadItems(src, n);
  }

  method ReadMoveableList(src: Cursor, version: int, n: nat) returns (r: Result<seq<Moveable>>)
    requires src.Valid()
    modifies src
    ensures src.Valid() && Matches(r, ParseMany(src.data, old(src.pos), n, MoveableParser(version)), src.pos)
  {
    if version < TrV {
      r := Tr1.ReadMoveables(src, n);
    } else {
      r := Tr5.ReadMoveables(src, n);
    }
  }

  /** The mesh pointers of read_mesh_data, one bitu32 each. */
  method ReadMeshPointers(src: Cursor, n: nat) returns (r: Result<seq<int>>)
    requires src.Valid()
    modifies src
    ensures src.Valid() && Matches(r, ParseMany(src.data, old(src.pos), n, ParseBitU32), src.pos)
  {
    ghost var p0 := src.pos;
    var acc: seq<int> := [];
    var i := 0;
    ParseManyStart(src.data, p0, n, ParseBitU32);
    while i < n
      invariant src.Valid() && i <= n && Remaining(src.data, p0, n, ParseBitU32, acc, src.pos, i)
    {
      ghost var q := src.pos;
      var x := ReadBitU32(src);
      if x.Failure? {
        ParseManyFails(src.data, p0, n, i, acc, q, ParseBitU32);
        return Failure(x.error);
      }
      ParseManyStep(src.data, p0, n, i, acc, q, ParseBitU32, Parsed(x.value, src.pos));
      acc := acc + [x.value];
      i := i + 1;
    }
    ParseManyDone(src.data, p0, n, acc, src.pos, ParseBitU32);
    return Success(acc);
  }

  // ---------------------------------------------------------------------
  // The offset-to-index passes, as the intended loops

  /** Every mesh pointer equal to `pos` becomes `mesh`. */
  method RelabelPointers(ix: seq<int>, pos: int, mesh: int) returns (r: seq<int>)
    ensures r == Resolve.Relabel(ix, pos, mesh)
  {
    r := ix;
    for j := 0 to |ix|
      invariant |r| == |ix|
      invariant forall k | 0 <= k < j :: r[k] == (if ix[k] == pos then mesh else ix[k])
      invariant forall k | j <= k < |ix| :: r[k] == ix[k]
    {
      if r[j] == pos {
        r := r[j := mesh];
      }
    }
  }

  /** The smallest pointer above `pos`, at its first place in the table. */
  method NextMeshPointer(ix: seq<int>, pos: int) returns (r: Option<nat>)
    ensures r == Resolve.LeastAbove(ix, pos, 0)
  {
    r := None;
    var j: nat := |ix|;
    while j > 0
      invariant j <= |ix| && r == Resolve.LeastAbove(ix, pos, j)
    {
      j := j - 1;
      if ix[j] > pos && (r.None? || ix[j] <= ix[r.value]) {
        r := Some(j);
      }
    }
  }

  /** Every moveable whose frame_offset is `pos` takes frame number
      `frame`, and its offset is cleared. */
  method ClaimFrames(ms: seq<Moveable>, pos: int, frame: int) returns (r: seq<Moveable>)
    ensures r == Resolve.Claim(ms, pos, frame)
  {
    r := ms;
    for j := 0 to |ms|
      invariant |r| == |ms|
      invariant forall k | 0 <= k < j ::
        r[k] == if ms[k].frame_offset == pos then ms[k].(frame_index := frame, frame_offset := 0) else ms[k]
      invariant forall k | j <= k < |ms| :: r[k] == ms[k]
    {
      if r[j].frame_offset == pos {
        r := r[j := r[j].(frame_index := frame, frame_offset := 0)];
      }
    }
  }

  /** The first moveable whose frame_offset is still positive. */
  method NextPendingFrame(ms: seq<Moveable>) returns (r: Option<nat>)
    ensures r == Resolve.FirstPending(ms, 0)
  {
    var j := 0;
    while j < |ms|
      invariant j <= |ms| && Resolve.FirstPending(ms, 0) == Resolve.FirstPending(ms, j)
    {
      if ms[j].frame_offset > 0 {
        return Some(j);
      }
      j := j + 1;
    }
    return None;
  }

  /** SDL_RWseek to `pos` in the mesh buffer and the mesh read there. */
  method ReadMeshAt(buffer: Cursor, pos: int, tr4: bool) returns (x: Result<Mesh>)
    requires buffer.Valid()
    modifies buffer
    ensures buffer.Valid() && (x.Success? <==> MeshAt(buffer.data, pos, tr4).Some?)
    ensures x.Success? ==> MeshAt(buffer.data, pos, tr4) == Some(Parsed(x.value, buffer.pos))
  {
    buffer.Seek(ToBit32(pos));
    if tr4 {
      x := Tr4.ReadMesh(buffer);
    } else {
      x := Tr1.ReadMesh(buffer);
    }
  }

  /** The positions the iterations from the i-th on read at: those the
      intended pass visits from `pos`, padded with its last one, or, once
      no greater pointer is left (`over`), `pos` itself every time. */
  ghost function MeshesLater(cur: seq<int>, pos: int, i: nat, k: nat, over: bool): (r: seq<int>)
    ensures |r| == k
  {
    if over then seq(k, _ => pos) else Resolve.Pad(Resolve.MeshScan(cur, pos, i, k).visited, k)
  }

  /** After `i` iterations of the mesh loop, at pointer `pos` with table
      `cur` and meshes `meshes`, what is left of the intended pass over the
      pointers `ix` ends where the whole pass ends: the invariant of
      ReadMeshes. */
  ghost predicate MeshesLeft(b: seq<byte>, ix: seq<int>, ms: seq<Mesh>, tr4: bool,
                             over: bool, cur: seq<int>, pos: int, i: nat, meshes: seq<Mesh>)
  {
    i <= |ix| && |cur| == |ix| && |meshes| == |ms| == |ix| &&
    Resolve.ResolveMeshIndices(ix).table == (if over then cur else Resolve.MeshScan(cur, pos, i, |ix| - i).table) &&
    MeshesAt(b, Resolve.MeshPositions(ix), 0, tr4, ms) == MeshesAt(b, MeshesLater(cur, pos, i, |ix| - i, over), i, tr4, meshes)
  }

  /** The meshes read from `pos` on: the one at `pos`, then the rest. */
  lemma MeshesAtFirst(b: seq<byte>, pos: int, later: seq<int>, i: nat, tr4: bool, meshes: seq<Mesh>, x: Parsed<Mesh>)
    requires i + 1 + |later| <= |meshes| && MeshAt(b, pos, tr4) == Some(x)
    ensures MeshesAt(b, [pos] + later, i, tr4, meshes) == MeshesAt(b, later, i + 1, tr4, meshes[i := x.value])
  {
    assert ([pos] + later)[1..] == later;
  }

  lemma MeshesLeftStart(b: seq<byte>, ix: seq<int>, ms: seq<Mesh>, tr4: bool)
    requires |ms| == |ix|
    ensures MeshesLeft(b, ix, ms, tr4, false, ix, 0, 0, ms)
  {}

  /** The mesh at `pos` decoded and a greater pointer is left: the loop
      moves on to it. */
  lemma MeshesLeftStep(b: seq<byte>, ix: seq<int>, ms: seq<Mesh>, tr4: bool,
                       cur: seq<int>, pos: int, i: nat, meshes: seq<Mesh>, x: Parsed<Mesh>, n: nat)
    requires MeshesLeft(b, ix, ms, tr4, false, cur, pos, i, meshes) && i < |ix|
    requires MeshAt(b, pos, tr4) == Some(x)
    requires Resolve.LeastAbove(Resolve.Relabel(cur, pos, i), pos, 0) == Some(n)
    ensures MeshesLeft(b, ix, ms, tr4, false, Resolve.Relabel(cur, pos, i), Resolve.Relabel(cur, pos, i)[n], i + 1, meshes[i := x.value])
  {
    var relabelled := Resolve.Relabel(cur, pos, i);
    var rest := Resolve.MeshScan(relabelled, relabelled[n], i + 1, |ix| - i - 1);
    assert Resolve.MeshScan(cur, pos, i, |ix| - i) == Resolve.Then(pos, rest);
    Resolve.PadThen(pos, rest.visited, |ix| - i - 1);
    MeshesAtFirst(b, pos, Resolve.Pad(rest.visited, |ix| - i - 1), i, tr4, meshes, x);
  }

  /** The mesh at `pos` decoded and no greater pointer is left: the table
      is final and the iterations left stay at `pos`. */
  lemma MeshesLeftLast(b: seq<byte>, ix: seq<int>, ms: seq<Mesh>, tr4: bool,
                       cur: seq<int>, pos: int, i: nat, meshes: seq<Mesh>, x: Parsed<Mesh>)
    requires MeshesLeft(b, ix, ms, tr4, false, cur, pos, i, meshes) && i < |ix|
    requires MeshAt(b, pos, tr4) == Some(x)
    requires Resolve.LeastAbove(Resolve.Relabel(cur, pos, i), pos, 0).None?
    ensures MeshesLeft(b, ix, ms, tr4, true, Resolve.Relabel(cur, pos, i), pos, i + 1, meshes[i := x.value])
  {
    var relabelled := Resolve.Relabel(cur, pos, i);
    assert Resolve.MeshScan(cur, pos, i, |ix| - i) == Resolve.Scan(relabelled, [pos]);
    assert Resolve.Pad([pos], |ix| - i) == [pos] + seq(|ix| - i - 1, _ => pos);
    MeshesAtFirst(b, pos, seq(|ix| - i - 1, _ => pos), i, tr4, meshes, x);
  }

  /** Once the pass is over, the mesh at `pos` is read again. */
  lemma MeshesLeftRepeat(b: seq<byte>, ix: seq<int>, ms: seq<Mesh>, tr4: bool,
                         cur: seq<int>, pos: int, i: nat, meshes: seq<Mesh>, x: Parsed<Mesh>)
    requires MeshesLeft(b, ix, ms, tr4, true, cur, pos, i, meshes) && i < |ix|
    requires MeshAt(b, pos, tr4) == Some(x)
    ensures MeshesLeft(b, ix, ms, tr4, true, cur, pos, i + 1, meshes[i := x.value])
  {
    assert seq(|ix| - i, _ => pos) == [pos] + seq(|ix| - i - 1, _ => pos);
    MeshesAtFirst(b, pos, seq(|ix| - i - 1, _ => pos), i, tr4, meshes, x);
  }

  /** The mesh at `pos` does not decode: neither does the whole pass. */
  lemma MeshesLeftFails(b: seq<byte>, ix: seq<int>, ms: seq<Mesh>, tr4: bool,
                        over: bool, cur: seq<int>, pos: int, i: nat, meshes: seq<Mesh>)
    requires MeshesLeft(b, ix, ms, tr4, over, cur, pos, i, meshes) && i < |ix|
    requires MeshAt(b, pos, tr4).None?
    ensures MeshesAt(b, Resolve.MeshPositions(ix), 0, tr4, ms).None?
  {
    if !over {
      assert Resolve.MeshScan(cur, pos, i, |ix| - i).visited[0] == pos;
    }
    assert MeshesLater(cur, pos, i, |ix| - i, over)[0] == pos;
  }

  /** Every iteration ran. */
  lemma MeshesLeftDone(b: seq<byte>, ix: seq<int>, ms: seq<Mesh>, tr4: bool,
                       over: bool, cur: seq<int>, pos: int, meshes: seq<Mesh>)
    requires MeshesLeft(b, ix, ms, tr4, over, cur, pos, |ix|, meshes)
    ensures Resolve.ResolveMeshIndices(ix).table == cur
    ensures MeshesAt(b, Resolve.MeshPositions(ix), 0, tr4, ms) == Some(meshes)
  {}

  /** The loop of read_mesh_data, with the intended search: every
      iteration reads the mesh at the current pointer, and until no greater
      pointer is left it renumbers the pointers and moves to the smallest
      greater one. */
  method ReadMeshes(buffer: Cursor, ix: seq<int>, ms: seq<Mesh>, tr4: bool) returns (r: Result<(seq<int>, seq<Mesh>)>)
    requires buffer.Valid() && |ms| == |ix|
    modifies buffer
    ensures var read := MeshesAt(buffer.data, Resolve.MeshPositions(ix), 0, tr4, ms);
      (r.Success? <==> read.Some?) && (r.Success? ==> r.value == (Resolve.ResolveMeshIndices(ix).table, read.value))
  {
    var cur, pos, meshes := ix, 0, ms;
    var over := false;
    var i: nat := 0;
    MeshesLeftStart(buffer.data, ix, ms, tr4);
    while i < |ix|
      invariant buffer.Valid() && MeshesLeft(buffer.data, ix, ms, tr4, over, cur, pos, i, meshes)
    {
      var x := ReadMeshAt(buffer, pos, tr4);
      if x.Failure? {
        MeshesLeftFails(buffer.data, ix, ms, tr4, over, cur, pos, i, meshes);
        return Failure(x.error);
      }
      if over {
        MeshesLeftRepeat(buffer.data, ix, ms, tr4, cur, pos, i, meshes, Parsed(x.value, buffer.pos));
      } else {
        var relabelled := RelabelPointers(cur, pos, i);
        var next := NextMeshPointer(relabelled, pos);
        if next.None? {
          MeshesLeftLast(buffer.data, ix, ms, tr4, cur, pos, i, meshes, Parsed(x.value, buffer.pos));
          cur, over := relabelled, true;
        } else {
          MeshesLeftStep(buffer.data, ix, ms, tr4, cur, pos, i, meshes, Parsed(x.value, buffer.pos), next.value);
          cur, pos := relabelled, relabelled[next.value];
        }
      }
      meshes, i := meshes[i := x.value], i + 1;
    }
    MeshesLeftDone(buffer.data, ix, ms, tr4, over, cur, pos, meshes);
    return Success((cur, meshes));
  }

  /** The intended loop of read_frame_moveable_data: every frame_offset
      turned into a frame number, stopping once no offset is left. */
  method ResolveFrameOffsets(ms: seq<Moveable>) returns (table: seq<Moveable>)
    ensures table == Resolve.ResolveFrames(ms).table
  {
    var cur, pos := ms, 0;
    var i: nat := 0;
    while i < |ms|
      invariant i <= |ms| && |cur| == |ms|
      invariant Resolve.ResolveFrames(ms).table == Resolve.FrameScan(cur, pos, i, |ms| - i).table
    {
      var claimed := ClaimFrames(cur, pos, i);
      var next := NextPendingFrame(claimed);
      if next.None? {
        return claimed;
      }
      cur, pos, i := claimed, claimed[next.value].frame_offset, i + 1;
    }
    return cur;
  }

  // ---------------------------------------------------------------------
  // The compressed segments

  /** comp_size bytes read from the stream and uncompressed into
      uncomp_size bytes. */
  method ReadCompressed(src: Cursor, inflate: Inflate, comp: nat, uncomp: nat, short: string, tag: string)
    returns (r: Result<seq<byte>>)
    requires src.Valid()
    modifies src
    ensures src.Valid()
    ensures var u := Unpack(inflate, src.data, old(src.pos), comp, uncomp, short, tag);
      (r.Success? <==> u.Success?) && (r.Success? ==> u.value == Parsed(r.value, src.pos)) &&
      (u.Failure? ==> r == Failure(u.error))
  {
    var packed := src.ReadBytes(comp);
    if packed.None? { return Failure(ReadError(short)); }
    var out := Uncompress(inflate, packed.value, uncomp);
    if out.None? { return Failure(ReadError(tag + "uncompress")); }
    if |out.value| != uncomp { return Failure(ReadError(tag + "uncompress size mismatch")); }
    r := Success(out.value);
  }

  /** dst[i] = read_tr4_textile32(buffer) for i from `from` up to `end`,
      through the bounds check of operator[]. */
  method FillTextiles32(buffer: Cursor, dst: seq<Textile>, from: nat, end: nat) returns (r: Result<seq<Textile>>)
    requires buffer.Valid()
    modifies buffer
    ensures var f := FillTextiles(buffer.data, old(buffer.pos), dst, from, end, Tr4.ParseTextile32);
      (r.Success? <==> f.Filled?) && (f.Filled? ==> r.value == f.tiles) && (f.FillRejected? ==> r == Failure(f.error))
  {
    ghost var p0 := buffer.pos;
    var tiles, i := dst, from;
    while i < end
      invariant buffer.Valid() && from <= i
      invariant FillTextiles(buffer.data, p0, dst, from, end, Tr4.ParseTextile32) ==
                FillTextiles(buffer.data, buffer.pos, tiles, i, end, Tr4.ParseTextile32)
      decreases end - i
    {
      var slot := Prtl.Store(tiles, i, BlankTextile());
      if slot.Failure? { return Failure(slot.error); }
      var t := Tr4.ReadTextile32(buffer);
      if t.Failure? { return Failure(t.error); }
      tiles, i := tiles[i := t.value], i + 1;
    }
    return Success(tiles);
  }

  /** dst[i] = read_tr2_textile16(buffer) for i from `from` up to `end`. */
  method FillTextiles16(buffer: Cursor, dst: seq<Textile>, from: nat, end: nat) returns (r: Result<seq<Textile>>)
    requires buffer.Valid()
    modifies buffer
    ensures var f := FillTextiles(buffer.data, old(buffer.pos), dst, from, end, Tr2.ParseTextile16);
      (r.Success? <==> f.Filled?) && (f.Filled? ==> r.value == f.tiles) && (f.FillRejected? ==> r == Failure(f.error))
  {
    ghost var p0 := buffer.pos;
    var tiles, i := dst, from;
    while i < end
      invariant buffer.Valid() && from <= i
      invariant FillTextiles(buffer.data, p0, dst, from, end, Tr2.ParseTextile16) ==
                FillTextiles(buffer.data, buffer.pos, tiles, i, end, Tr2.ParseTextile16)
      decreases end - i
    {
      var slot := Prtl.Store(tiles, i, BlankTextile());
      if slot.Failure? { return Failure(slot.error); }
      var t := Tr2.ReadTextile16(buffer);
      if t.Failure? { return Failure(t.error); }
      tiles, i := tiles[i := t.value], i + 1;
    }
    return Success(tiles);
  }

  /** What a whole reader promises once the stream it ended on no longer
      matters: it completed exactly when the specification does, with the
      same members, and threw its exception otherwise. */
  ghost predicate Ends(r: Result<()>, o: Outcome, s: LevelState) {
    (r.Success? <==> o.Done?) && (o.Done? ==> o.state == s) && (o.Rejected? ==> r == Failure(o.error))
  }

  class TrLevel {
    /** The members of TR_Level, held as one record that every reader
        updates in place. */
    var members: LevelState

    ghost predicate Valid()
      reads this
    {
      WellFormed(members)
    }

    /** A fresh TR_Level: empty arrays, and palettes and lightmap of their
        fixed sizes. */
    constructor ()
      ensures members == EmptyLevel(TrI) && Valid()
    {
      members := EmptyLevel(TrI);
    }

    // -------------------------------------------------------------------
    // Header fields, textiles and palettes

    method ReadHeader(src: Cursor, h: Header) returns (r: Result<()>)
      requires src.Valid()
      modifies this, src
      ensures src.Valid() && Agrees(r, HeaderStepSpec(h, old(members), src.data, old(src.pos)), members, src.data, src.pos)
    {
      match h
      case Check(w, accepted, message) => r := ReadCheck(src, w, accepted, message);
      case Ignore(w) => r := ReadIgnore(src, w);
      case ResetTextileCounts =>
        members := members.(num_textiles := 0, num_room_textiles := 0, num_obj_textiles := 0,
                            num_bump_textiles := 0, num_misc_textiles := 0, read_32bit_textiles := false);
        r := Success(());
      case TextileCounts(misc) => r := ReadTextileCounts(src, misc);
      case Textiles8 => r := ReadTextiles8(src);
      case Textiles16 => r := ReadTextiles16(src);
      case Palette => r := ReadPalette(src);
      case Palette16 => r := ReadPalette16(src);
      case Lightmap => r := ReadLightmap(src);
    }

    /** A value that must be one of `accepted`, or TR_ReadError(message). */
    method ReadCheck(src: Cursor, w: Width, accepted: seq<int>, message: string) returns (r: Result<()>)
      requires src.Valid()
      modifies src
      ensures src.Valid() && Agrees(r, CheckSpec(w, accepted, message, members, src.data, old(src.pos)), members, src.data, src.pos)
    {
      var v := ReadWord(src, w);
      if v.Failure? { return Failure(v.error); }
      if v.value !in accepted { return Failure(ReadError(message)); }
      r := Success(());
    }

    /** A value read into an unused local. */
    method ReadIgnore(src: Cursor, w: Width) returns (r: Result<()>)
      requires src.Valid()
      modifies src
      ensures src.Valid() && Agrees(r, IgnoreSpec(w, members, src.data, old(src.pos)), members, src.data, src.pos)
    {
      var v := ReadWord(src, w);
      if v.Failure? { return Failure(v.error); }
      r := Success(());
    }

    method ReadPalette(src: Cursor) returns (r: Result<()>)
      requires src.Valid()
      modifies this, src
      ensures src.Valid() && Agrees(r, PaletteSpec(old(members), src.data, old(src.pos)), members, src.data, src.pos)
    {
      var x := Tr1.ReadPalette(src);
      if x.Failure? { return Failure(x.error); }
      members := members.(palette := x.value);
      r := Success(());
    }

    method ReadPalette16(src: Cursor) returns (r: Result<()>)
      requires src.Valid()
      modifies this, src
      ensures src.Valid() && Agrees(r, Palette16Spec(old(members), src.data, old(src.pos)), members, src.data, src.pos)
    {
      var x := Tr2.ReadPalette16(src);
      if x.Failure? { return Failure(x.error); }
      members := members.(palette16 := x.value);
      r := Success(());
    }

    method ReadLightmap(src: Cursor) returns (r: Result<()>)
      requires src.Valid()
      modifies this, src
      ensures src.Valid() && Agrees(r, LightmapSpec(old(members), src.data, old(src.pos)), members, src.data, src.pos)
    {
      var x := Tr1.ReadLightmap(src);
      if x.Failure? { return Failure(x.error); }
      members := members.(lightmap := x.value);
      r := Success(());
    }

    /** TR4 and TR5: three bitu16 textile counts, a fixed number of misc
        textiles, and their sum. */
    method ReadTextileCounts(src: Cursor, misc: nat) returns (r: Result<()>)
      requires src.Valid()
      modifies this, src
      ensures src.Valid() && Agrees(r, TextileCountsSpec(misc, old(members), src.data, old(src.pos)), members, src.data, src.pos)
    {
      var room := ReadBitU16(src);
      if room.Failure? { return Failure(room.error); }
      var obj := ReadBitU16(src);
      if obj.Failure? { return Failure(obj.error); }
      var bump := ReadBitU16(src);
      if bump.Failure? { return Failure(bump.error); }
      members := members.(num_room_textiles := room.value, num_obj_textiles := obj.value,
                          num_bump_textiles := bump.value, num_misc_textiles := misc,
                          num_textiles := Wrap32(room.value + obj.value + bump.value + misc));
      r := Success(());
    }

    /** num_textiles, textile8.resize(num_textiles), then every textile8. */
    method ReadTextiles8(src: Cursor) returns (r: Result<()>)
      requires src.Valid()
      modifies this, src
      ensures src.Valid() && Agrees(r, Textiles8Spec(old(members), src.data, old(src.pos)), members, src.data, src.pos)
    {
      var n := ReadBitU32(src);
      if n.Failure? { return Failure(n.error); }
      var t := Prtl.Resized(members.textile8, n.value, BlankTextile());
      if t.Failure? { return Failure(t.error); }
      var x := Tr1.ReadTextiles8(src, n.value);
      if x.Failure? { return Failure(x.error); }
      members := members.(num_textiles := n.value, textile8 := x.value);
      r := Success(());
    }

    /** textile16.resize(num_textiles), then every textile16. */
    method ReadTextiles16(src: Cursor) returns (r: Result<()>)
      requires src.Valid()
      modifies this, src
      ensures src.Valid() && Agrees(r, Textiles16Spec(old(members), src.data, old(src.pos)), members, src.data, src.pos)
    {
      var t := Prtl.Resized(members.textile16, members.num_textiles, BlankTextile());
      if t.Failure? { return Failure(t.error); }
      var x := Tr2.ReadTextiles16(src, members.num_textiles);
      if x.Failure? { return Failure(x.error); }
      members := members.(textile16 := x.value);
      r := Success(());
    }

    // -------------------------------------------------------------------
    // Arrays that are sized and skipped

    /** X.resize(read count); SDL_RWseek(src, X.size() * size, SEEK_CUR). */
    method ReadSkip(src: Cursor, f: Counted, w: Width, size: nat) returns (r: Result<()>)
      requires src.Valid()
      modifies this, src
      ensures src.Valid() && Agrees(r, SkipSpec(f, w, size, old(members), src.data, old(src.pos)), members, src.data, src.pos)
    {
      var c := ReadWord(src, w);
      if c.Failure? { return Failure(c.error); }
      if c.value < 0 { return Failure(ArrayError(Prtl.NotEnoughMemory)); }
      var n := ResizedCount(CountOf(members, f), c.value);
      if n.Failure? { return Failure(n.error); }
      src.Skip(ToBit32(n.value * size));
      members := WithCount(members, f, n.value);
      r := Success(());
    }

    /** The zones: SDL_RWseek(src, boxes.size() * size, SEEK_CUR). */
    method SkipZones(src: Cursor, size: nat)
      requires src.Valid()
      modifies src
      ensures src.Valid() && ZonesSpec(size, members, src.data, old(src.pos)) == Done(members, src.data, src.pos)
    {
      src.Skip(ToBit32(members.boxes * size));
    }

    // -------------------------------------------------------------------
    // Counted arrays of records

    method ReadList(src: Cursor, l: Records) returns (r: Result<()>)
      requires src.Valid()
      modifies this, src
      ensures src.Valid() && Agrees(r, ListStepSpec(l, old(members), src.data, old(src.pos)), members, src.data, src.pos)
    {
      match l
      case Rooms(g) => r := ReadRooms(src, g);
      case Animations(g) => r := ReadAnimations(src, g);
      case StaticMeshes => r := ReadStaticMeshes(src);
      case ObjectTextures(g) => r := ReadObjectTextures(src, g);
      case SpriteTextures => r := ReadSpriteTextures(src);
      case SpriteSequences => r := ReadSpriteSequences(src);
      case Items(g) => r := ReadItems(src, g);
    }

    /** rooms.resize(count), then every room; the count is a bitu16 before
        TR5 and a bitu32 in TR5. */
    method ReadRooms(src: Cursor, g: Gen) returns (r: Result<()>)
      requires src.Valid()
      modifies this, src
      ensures src.Valid() && Agrees(r, RoomsSpec(g, old(members), src.data, old(src.pos)), members, src.data, src.pos)
    {
      var c := ReadWord(src, if g == G5 then BitU32 else BitU16);
      if c.Failure? { return Failure(c.error); }
      var t := Prtl.Resized(members.rooms, c.value, Room());
      if t.Failure? { return Failure(t.error); }
      var x := ReadRoomList(src, g, c.value);
      if x.Failure? { return Failure(x.error); }
      members := members.(rooms := x.value);
      r := Success(());
    }

    method ReadAnimations(src: Cursor, g: Gen) returns (r: Result<()>)
      requires src.Valid()
      modifies this, src
      ensures src.Valid() && Agrees(r, AnimationsSpec(g, old(members), src.data, old(src.pos)), members, src.data, src.pos)
    {
      var c := ReadBitU32(src);
      if c.Failure? { return Failure(c.error); }
      var t := Prtl.Resized(members.animations, c.value, Animation());
      if t.Failure? { return Failure(t.error); }
      var x := ReadAnimationList(src, g, c.value);
      if x.Failure? { return Failure(x.error); }
      members := members.(animations := x.value);
      r := Success(());
    }

    method ReadStaticMeshes(src: Cursor) returns (r: Result<()>)
      requires src.Valid()
      modifies this, src
      ensures src.Valid() && Agrees(r, StaticMeshesSpec(old(members), src.data, old(src.pos)), members, src.data, src.pos)
    {
      var c := ReadBitU32(src);
      if c.Failure? { return Failure(c.error); }
      var t := Prtl.Resized(members.static_meshes, c.value, StaticMesh());
      if t.Failure? { return Failure(t.error); }
      var x := Tr1.ReadStaticMeshes(src, c.value);
      if x.Failure? { return Failure(x.error); }
      members := members.(static_meshes := x.value);
      r := Success(());
    }

    method ReadObjectTextures(src: Cursor, g: Gen) returns (r: Result<()>)
      requires src.Valid()
      modifies this, src
      ensures src.Valid() && Agrees(r, ObjectTexturesSpec(g, old(members), src.data, old(src.pos)), members, src.data, src.pos)
    {
      var c := ReadBitU32(src);
      if c.Failure? { return Failure(c.error); }
      var t := Prtl.Resized(members.object_textures, c.value, ObjectTexture());
      if t.Failure? { return Failure(t.error); }
      var x := ReadObjectTextureList(src, g, c.value);
      if x.Failure? { return Failure(x.error); }
      members := members.(object_textures := x.value);
      r := Success(());
    }

    method ReadSpriteTextures(src: Cursor) returns (r: Result<()>)
      requires src.Valid()
      modifies this, src
      ensures src.Valid() && Agrees(r, SpriteTexturesSpec(old(members), src.data, old(src.pos)), members, src.data, src.pos)
    {
      var c := ReadBitU32(src);
      if c.Failure? { return Failure(c.error); }
      var t := Prtl.Resized(members.sprite_textures, c.value, SpriteTexture());
      if t.Failure? { return Failure(t.error); }
      var x := Tr1.ReadSpriteTextures(src, c.value);
      if x.Failure? { return Failure(x.error); }
      members := members.(sprite_textures := x.value);
      r := Success(());
    }

    method ReadSpriteSequences(src: Cursor) returns (r: Result<()>)
      requires src.Valid()
      modifies this, src
      ensures src.Valid() && Agrees(r, SpriteSequencesSpec(old(members), src.data, old(src.pos)), members, src.data, src.pos)
    {
      var c := ReadBitU32(src);
      if c.Failure? { return Failure(c.error); }
      var t := Prtl.Resized(members.sprite_sequences, c.value, SpriteSequence());
      if t.Failure? { return Failure(t.error); }
      var x := Tr1.ReadSpriteSequences(src, c.value);
      if x.Failure? { return Failure(x.error); }
      members := members.(sprite_sequences := x.value);
      r := Success(());
    }

    method ReadItems(src: Cursor, g: Gen) returns (r: Result<()>)
      requires src.Valid()
      modifies this, src
      ensures src.Valid() && Agrees(r, ItemsSpec(g, old(members), src.data, old(src.pos)), members, src.data, src.pos)
    {
      var c := ReadBitU32(src);
      if c.Failure? { return Failure(c.error); }
      var t := Prtl.Resized(members.items, c.value, Item());
      if t.Failure? { return Failure(t.error); }
      var x := ReadItemList(src, g, c.value);
      if x.Failure? { return Failure(x.error); }
      members := members.(items := x.value);
      r := Success(());
    }

    /** num_mesh_trees, which must be a multiple of 4, then a quarter of it
        mesh trees. */
    method ReadMeshTrees(src: Cursor, message: string) returns (r: Result<()>)
      requires src.Valid()
      modifies this, src
      ensures src.Valid() && Agrees(r, MeshTreesSpec(message, old(members), src.data, old(src.pos)), members, src.data, src.pos)
    {
      var c := ReadBitU32(src);
      if c.Failure? { return Failure(c.error); }
      if c.value % 4 != 0 { return Failure(ReadError(message)); }
      var t := Prtl.Resized(members.mesh_trees, c.value / 4, MeshTree());
      if t.Failure? { return Failure(t.error); }
      var x := Tr1.ReadMeshTrees(src, c.value / 4);
      if x.Failure? { return Failure(x.error); }
      members := members.(mesh_trees := x.value);
      r := Success(());
    }
    // -------------------------------------------------------------------
    // read_mesh_data and read_frame_moveable_data

    method ReadMeshData(src: Cursor) returns (r: Result<()>)
      requires src.Valid()
      modifies this, src
      ensures src.Valid() && Agrees(r, MeshDataSpec(old(members), src.data, old(src.pos)), members, src.data, src.pos)
    {
      var n := ReadBitU32(src);
      if n.Failure? { return Failure(n.error); }
      var bytes := src.ReadBytes(Wrap32(n.value * 2));
      if bytes.None? { return Failure(ReadError(MeshDataShort)); }
      var m := ReadBitU32(src);
      if m.Failure? { return Failure(m.error); }
      var t := Prtl.Resized(members.mesh_indices, m.value, 0);
      if t.Failure? { return Failure(t.error); }
      var ix := ReadMeshPointers(src, m.value);
      if ix.Failure? { return Failure(ix.error); }
      var ms := Prtl.Resized(members.meshes, m.value, Mesh());
      if ms.Failure? { return Failure(ms.error); }
      var buffer := new Cursor(bytes.value);
      var read := ReadMeshes(buffer, ix.value, ms.value, members.game_version >= TrIV);
      if read.Failure? { return Failure(read.error); }
      members := members.(mesh_indices := read.value.0, meshes := read.value.1);
      r := Success(());
    }

    method ReadFrameMoveableData(src: Cursor) returns (r: Result<()>)
      requires src.Valid()
      modifies this, src
      ensures src.Valid() && Agrees(r, FrameMoveableSpec(old(members), src.data, old(src.pos)), members, src.data, src.pos)
    {
      var n := ReadBitU32(src);
      if n.Failure? { return Failure(n.error); }
      var frames := src.ReadBytes(Wrap32(n.value * 2));
      if frames.None? { return Failure(ReadError(FrameDataShort)); }
      var m := ReadBitU32(src);
      if m.Failure? { return Failure(m.error); }
      var t := Prtl.Resized(members.moveables, m.value, Moveable());
      if t.Failure? { return Failure(t.error); }
      var x := ReadMoveableList(src, members.game_version, m.value);
      if x.Failure? { return Failure(x.error); }
      var table := ResolveFrameOffsets(x.value);
      members := members.(moveables := table);
      r := Success(());
    }

    // -------------------------------------------------------------------
    // The compressed segments of TR4 and TR5

    method ReadSegment32(src: Cursor, tag: string, inflate: Inflate, uncomp: nat, comp: nat) returns (r: Result<()>)
      requires src.Valid()
      modifies this, src
      ensures src.Valid() && Agrees(r, Segment32Spec(tag, inflate, old(members), src.data, old(src.pos), uncomp, comp), members, src.data, src.pos)
    {
      if comp == 0 { return Success(()); }
      var t32 := Prtl.Resized(members.textile32, members.num_textiles, BlankTextile());
      if t32.Failure? { return Failure(t32.error); }
      var b := ReadCompressed(src, inflate, comp, uncomp, tag + "textiles32", tag);
      if b.Failure? { return Failure(b.error); }
      var buffer := new Cursor(b.value);
      var f := FillTextiles32(buffer, t32.value, 0, Wrap32(members.num_textiles - members.num_misc_textiles));
      if f.Failure? { return Failure(f.error); }
      members := members.(textile32 := f.value, read_32bit_textiles := true);
      r := Success(());
    }

    method ReadSegment16(src: Cursor, tag: string, inflate: Inflate, uncomp: nat, comp: nat) returns (r: Result<()>)
      requires src.Valid()
      modifies this, src
      ensures src.Valid() && Agrees(r, Segment16Spec(tag, inflate, old(members), src.data, old(src.pos), uncomp, comp), members, src.data, src.pos)
    {
      if comp == 0 { return Success(()); }
      if |members.textile32| != 0 {
        src.Skip(ToBit32(comp));
        return Success(());
      }
      var t16 := Prtl.Resized(members.textile16, members.num_textiles, BlankTextile());
      if t16.Failure? { return Failure(t16.error); }
      var b := ReadCompressed(src, inflate, comp, uncomp, tag + "textiles16", tag);
      if b.Failure? { return Failure(b.error); }
      var buffer := new Cursor(b.value);
      var f := FillTextiles16(buffer, t16.value, 0, Wrap32(members.num_textiles - members.num_misc_textiles));
      if f.Failure? { return Failure(f.error); }
      members := members.(textile16 := f.value);
      r := Success(());
    }

    method ReadSegmentMisc(src: Cursor, tag: string, limit: nat, tooMany: string, all: bool, inflate: Inflate,
                           uncomp: nat, comp: nat) returns (r: Result<()>)
      requires src.Valid()
      modifies this, src
      ensures src.Valid() &&
        Agrees(r, SegmentMiscSpec(tag, limit, tooMany, all, inflate, old(members), src.data, old(src.pos), uncomp, comp),
               members, src.data, src.pos)
    {
      if comp == 0 { return Success(()); }
      if uncomp / (256 * 256 * 4) > limit { return Failure(ReadError(tooMany)); }
      var t32 := members.textile32;
      if |t32| == 0 {
        // Growing an empty array cannot throw.
        t32 := Prtl.Resized(t32, if all then members.num_textiles else members.num_misc_textiles, BlankTextile()).value;
      }
      var b := ReadCompressed(src, inflate, comp, uncomp, tag + "misc_textiles", tag);
      if b.Failure? { return Failure(b.error); }
      var buffer := new Cursor(b.value);
      var f := FillTextiles32(buffer, t32, Wrap32(members.num_textiles - members.num_misc_textiles), members.num_textiles);
      if f.Failure? { return Failure(f.error); }
      members := members.(textile32 := f.value);
      r := Success(());
    }

    /** uncomp_size and comp_size, then the segment; the packed geometry
        of TR4 becomes the stream the rest of the level is read from. */
    method ReadSegment(src: Cursor, c: Segment, inflate: Inflate) returns (r: Result<()>, next: Cursor)
      requires src.Valid()
      modifies this, src
      ensures next.Valid() && (next == src || fresh(next))
      ensures Agrees(r, SegmentStepSpec(c, inflate, old(members), src.data, old(src.pos)), members, next.data, next.pos)
    {
      next := src;
      var u := ReadBitU32(src);
      if u.Failure? { return Failure(u.error), src; }
      if u.value == 0 && !c.PackedGeometry? {
        r := Failure(ReadError(c.tag + (match c
                                        case Segment32(_) => "textiles32 uncomp_size == 0"
                                        case Segment16(_) => "textiles16 uncomp_size == 0"
                                        case _ => "textiles32d uncomp_size == 0")));
        return;
      }
      var comp := ReadBitU32(src);
      if comp.Failure? { return Failure(comp.error), src; }
      match c
      case Segment32(tag) => r := ReadSegment32(src, tag, inflate, u.value, comp.value);
      case Segment16(tag) => r := ReadSegment16(src, tag, inflate, u.value, comp.value);
      case SegmentMisc(tag, limit, tooMany, all) => r := ReadSegmentMisc(src, tag, limit, tooMany, all, inflate, u.value, comp.value);
      case PackedGeometry(tag) =>
        if comp.value == 0 { return Failure(ReadError(tag + "packed geometry")), src; }
        var b := ReadCompressed(src, inflate, comp.value, u.value, tag + "packed geometry", tag);
        if b.Failure? { return Failure(b.error), src; }
        next := new Cursor(b.value);
        r := Success(());
    }

    // -------------------------------------------------------------------
    // Running the steps of a level reader

    method ReadStep(src: Cursor, step: Step, inflate: Inflate) returns (r: Result<()>, next: Cursor)
      requires src.Valid()
      modifies this, src
      ensures next.Valid() && (next == src || fresh(next))
      ensures Agrees(r, StepSpec(step, inflate, old(members), src.data, old(src.pos)), members, next.data, next.pos)
    {
      next := src;
      match step
      case Head(h) => r := ReadHeader(src, h);
      case Skip(f, w, size) => r := ReadSkip(src, f, w, size);
      case Zones(size) => SkipZones(src, size); r := Success(());
      case SkipBytes(n) => src.Skip(n); r := Success(());
      case List(l) => r := ReadList(src, l);
      case MeshData => r := ReadMeshData(src);
      case MeshTrees(message) => r := ReadMeshTrees(src, message);
      case FrameMoveableData => r := ReadFrameMoveableData(src);
      case Compressed(c) => r, next := ReadSegment(src, c, inflate);
    }

    /** The steps in order, each on the stream the previous one left. */
    method ReadSteps(src: Cursor, steps: seq<Step>, inflate: Inflate) returns (r: Result<()>, next: Cursor)
      requires src.Valid()
      modifies this, src
      ensures next.Valid()
      ensures Agrees(r, Run(steps, inflate, old(members), src.data, old(src.pos)), members, next.data, next.pos)
    {
      next := src;
      var i := 0;
      while i < |steps|
        invariant next.Valid() && (next == src || fresh(next)) && i <= |steps|
        invariant Run(steps, inflate, old(members), src.data, old(src.pos)) == Run(steps[i..], inflate, members, next.data, next.pos)
      {
        ghost var s, d, p := members, next.data, next.pos;
        assert steps[i..][0] == steps[i] && steps[i..][1..] == steps[i + 1..];
        r, next := ReadStep(next, steps[i], inflate);
        if r.Failure? {
          RunFirst(steps[i..], inflate, s, d, p);
          return;
        }
        i := i + 1;
      }
      r := Success(());
    }

    /** read_level: a null stream is refused; game_version is set, then the
        reader of that version runs. */
    method ReadLevel(src: Cursor?, version: int, inflate: Inflate) returns (r: Result<()>)
      requires src != null ==> src.Valid()
      modifies this, src
      ensures src == null ==> r == Failure(ReadError("Invalid SDL_RWops")) && members == old(members)
      ensures src != null ==> Ends(r, ReadLevelSpec(version, inflate, old(members), src.data, old(src.pos)), members)
      ensures old(Valid()) && r.Success? ==> Valid() && members.game_version == version
    {
      if src == null { return Failure(ReadError("Invalid SDL_RWops")); }
      ghost var s0 := members;
      members := members.(game_version := version);
      var steps := LevelSections(version);
      if steps.None? { return Failure(ReadError("Invalid game version")); }
      var next;
      r, next := ReadSteps(src, steps.value, inflate);
      if WellFormed(s0) {
        ReadLevelKeeps(version, inflate, s0, src.data, old(src.pos));
      }
    }
  }
}
