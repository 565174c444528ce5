/* The offset-to-index passes of l_main.cpp. read_mesh_data turns the byte
   offsets held in mesh_indices into mesh numbers, and
   read_frame_moveable_data turns the frame_offset of each moveable into a
   frame number. Each pass is stated twice: once as the source writes it,
   and once as the design intends it. The decoder uses the second. */
module Resolve {
  import opened Wrappers
  import opened Types

  /** What a pass leaves: the rewritten table, and the byte positions it
      visited, in order, one per iteration (a mesh or frame is read at each). */
  datatype Scan<T> = Scan(table: seq<T>, visited: seq<int>)

  /** One visited position followed by the rest of a pass. */
  function Then<T>(pos: int, rest: Scan<T>): (r: Scan<T>)
    ensures r.table == rest.table && r.visited == [pos] + rest.visited
  {
    Scan(rest.table, [pos] + rest.visited)
  }

  /** The first position of `v` in `s`. */
  function IndexOf(s: seq<int>, v: int): (i: nat)
    requires v in s
    ensures i < |s| && s[i] == v && forall m | 0 <= m < i :: s[m] != v
  {
    if s[0] == v then 0 else 1 + IndexOf(s[1..], v)
  }

  /** Appending to a sequence keeps the positions of its values and gives a
      new value the next position. */
  lemma IndexOfAppend(s: seq<int>, w: int, v: int)
    requires v in s + [w]
    ensures v in s ==> IndexOf(s + [w], v) == IndexOf(s, v)
    ensures v !in s ==> IndexOf(s + [w], v) == |s|
  {
    if v in s {
      assert (s + [w])[IndexOf(s, v)] == v;
    }
  }

  lemma Regroup(a: seq<int>, x: int, b: seq<int>)
    ensures a + ([x] + b) == (a + [x]) + b
  {}

  ghost predicate Increasing(s: seq<int>) {
    forall a, b | 0 <= a < b < |s| :: s[a] < s[b]
  }

  ghost predicate Distinct(s: seq<int>) {
    forall a, b | 0 <= a < b < |s| :: s[a] != s[b]
  }

  // ---------------------------------------------------------------------
  // read_mesh_data

  /** One relabelling pass: every entry equal to `pos` becomes `mesh`, and
      every other entry is kept. */
  function Relabel(ix: seq<int>, pos: int, mesh: int): (r: seq<int>)
    ensures |r| == |ix|
    ensures forall j {:trigger r[j]} | 0 <= j < |ix| :: r[j] == (if ix[j] == pos then mesh else ix[j])
  {
    seq(|ix|, j requires 0 <= j < |ix| => if ix[j] == pos then mesh else ix[j])
  }

  /** The first index from `from`, in array order, whose entry exceeds
      `bound`. */
  function FirstAbove(ix: seq<int>, bound: int, from: nat): (r: Option<nat>)
    requires from <= |ix|
    ensures r.Some? ==> from <= r.value < |ix| && ix[r.value] > bound
    ensures r.Some? ==> forall k | from <= k < r.value :: ix[k] <= bound
    ensures r.None? ==> forall k | from <= k < |ix| :: ix[k] <= bound
    decreases |ix| - from
  {
    if from == |ix| then None
    else if ix[from] > bound then Some(from)
    else FirstAbove(ix, bound, from + 1)
  }

  /** The index of the smallest entry of ix[from..] that exceeds `bound`
      (its first occurrence). */
  function LeastAbove(ix: seq<int>, bound: int, from: nat): (r: Option<nat>)
    requires from <= |ix|
    ensures r.Some? ==> from <= r.value < |ix| && ix[r.value] > bound
    ensures r.Some? ==> forall k | from <= k < |ix| && ix[k] > bound :: ix[r.value] <= ix[k]
    ensures r.None? ==> forall k | from <= k < |ix| :: ix[k] <= bound
    decreases |ix| - from
  {
    if from == |ix| then None
    else
      var rest := LeastAbove(ix, bound, from + 1);
      if ix[from] > bound && (rest.None? || ix[from] <= ix[rest.value]) then Some(from)
      else rest
  }

  /** The position the source moves to after `pos`: the first entry, in
      array order, greater than `pos`, or `pos` again when there is none. */
  function NextAsWritten(ix: seq<int>, pos: int): int {
    match FirstAbove(ix, pos, 0)
    case Some(j) => ix[j]
    case None => pos
  }

  /** `k` more iterations of the loop of read_mesh_data as written, at byte
      position `pos` with `mesh` meshes read so far. */
  function MeshScanAsWritten(ix: seq<int>, pos: int, mesh: nat, k: nat): (r: Scan<int>)
    ensures |r.table| == |ix| && |r.visited| == k
    decreases k
  {
    if k == 0 then Scan(ix, [])
    else
      var ix' := Relabel(ix, pos, mesh);
      Then(pos, MeshScanAsWritten(ix', NextAsWritten(ix', pos), mesh + 1, k - 1))
  }

  /** The same loop as intended: it moves to the smallest greater entry.
      Once none is left the table is final; the iterations after that only
      read the mesh at the last position again (MeshPositions). */
  function MeshScan(ix: seq<int>, pos: int, mesh: nat, k: nat): (r: Scan<int>)
    ensures |r.table| == |ix| && |r.visited| <= k && (k > 0 ==> |r.visited| > 0)
    decreases k
  {
    if k == 0 then Scan(ix, [])
    else
      var ix' := Relabel(ix, pos, mesh);
      match LeastAbove(ix', pos, 0)
      case None => Scan(ix', [pos])
      case Some(j) => Then(pos, MeshScan(ix', ix'[j], mesh + 1, k - 1))
  }

  /** The whole pass as read_mesh_data writes it: one iteration per entry,
      starting at offset 0. */
  function ResolveMeshIndicesAsWritten(ix: seq<int>): Scan<int> {
    MeshScanAsWritten(ix, 0, 0, |ix|)
  }

  /** The whole pass as intended. */
  function ResolveMeshIndices(ix: seq<int>): Scan<int> {
    MeshScan(ix, 0, 0, |ix|)
  }

  /** The positions `visited`, then its last position again up to `n`
      positions in all. */
  function Pad(visited: seq<int>, n: nat): (r: seq<int>)
    requires |visited| <= n && (n > 0 ==> |visited| > 0)
    ensures |r| == n && r[..|visited|] == visited
    ensures forall k | |visited| <= k < n :: r[k] == visited[|visited| - 1]
  {
    if n == 0 then [] else visited + seq(n - |visited|, _ => visited[|visited| - 1])
  }

  /** The entry read first, then the other ones padded. */
  lemma PadThen(p: int, w: seq<int>, n: nat)
    requires |w| <= n && (n > 0 ==> |w| > 0)
    ensures Pad([p] + w, n + 1) == [p] + Pad(w, n)
  {
    if n == 0 {
      assert Pad([p] + w, 1) == [p];
    } else {
      assert ([p] + w)[|[p] + w| - 1] == w[|w| - 1];
    }
  }

  /** The byte positions the intended pass reads its meshes at, one per
      iteration: the visited positions, and then the last of them for every
      iteration left, as the loop of read_mesh_data stays at its position
      when no greater pointer is found. */
  function MeshPositions(ix: seq<int>): (r: seq<int>)
    ensures |r| == |ix|
  {
    Pad(ResolveMeshIndices(ix).visited, |ix|)
  }

  /** Every entry whose offset was visited holds the number of that offset in
      the visiting order, and every other entry still holds its offset. */
  ghost predicate Resolved(orig: seq<int>, r: Scan<int>) {
    |r.table| == |orig| &&
    (forall j | 0 <= j < |orig| && orig[j] in r.visited :: r.table[j] == IndexOf(r.visited, orig[j])) &&
    (forall j | 0 <= j < |orig| && orig[j] !in r.visited :: r.table[j] == orig[j])
  }

  /** The state of the intended pass before it renumbers position `pos`,
      having visited `vis`. Mesh numbers already written are below |vis| and
      so never above `pos`; the entries not yet visited are all at or beyond
      `pos`. */
  ghost predicate MeshInv(orig: seq<int>, cur: seq<int>, pos: int, vis: seq<int>) {
    |cur| == |orig| && Increasing(vis) && (forall v | v in vis :: v < pos) && |vis| <= pos &&
    (forall j | 0 <= j < |orig| && orig[j] in vis :: cur[j] == IndexOf(vis, orig[j])) &&
    (forall j | 0 <= j < |orig| && orig[j] !in vis :: cur[j] == orig[j] && orig[j] >= pos)
  }

  /** One renumbering step: `pos` joins the visited positions and is
      labelled with its place; mesh numbers stay at or below `pos`, and the
      entries left to visit still hold their offsets, all beyond `pos`. */
  lemma {:induction false} MeshRelabelStep(orig: seq<int>, cur: seq<int>, pos: int, vis: seq<int>)
    requires MeshInv(orig, cur, pos, vis)
    ensures var cur' := Relabel(cur, pos, |vis|); var vis' := vis + [pos];
      Increasing(vis') && Resolved(orig, Scan(cur', vis')) &&
      (forall j | 0 <= j < |orig| && orig[j] in vis' :: cur'[j] <= pos) &&
      (forall j | 0 <= j < |orig| && orig[j] !in vis' :: orig[j] > pos)
  {
    var cur' := Relabel(cur, pos, |vis|);
    var vis' := vis + [pos];
    forall a, b | 0 <= a < b < |vis'| ensures vis'[a] < vis'[b] {
      assert vis[a] in vis;
    }
    forall j | 0 <= j < |orig| && orig[j] in vis'
      ensures cur'[j] == IndexOf(vis', orig[j]) <= pos
    {
      IndexOfAppend(vis, pos, orig[j]);
    }
  }

  /** What the intended pass guarantees once it has visited `all`. */
  ghost predicate MeshDone(orig: seq<int>, table: seq<int>, all: seq<int>, bound: int) {
    Increasing(all) && Resolved(orig, Scan(table, all)) &&
    (|all| < bound ==> forall j | 0 <= j < |orig| :: orig[j] in all)
  }

  /** After a step, either every offset has been visited, or the smallest
      entry left is the next position and the state is kept. */
  lemma {:induction false} MeshStep(orig: seq<int>, cur: seq<int>, pos: int, vis: seq<int>)
    requires MeshInv(orig, cur, pos, vis)
    ensures var cur' := Relabel(cur, pos, |vis|); var n := LeastAbove(cur', pos, 0);
      MeshDone(orig, cur', vis + [pos], if n.None? then |vis| + 2 else 0) &&
      (n.Some? ==> MeshInv(orig, cur', cur'[n.value], vis + [pos]))
  {
    MeshRelabelStep(orig, cur, pos, vis);
    var cur' := Relabel(cur, pos, |vis|);
    var vis' := vis + [pos];
    match LeastAbove(cur', pos, 0)
    case None =>
    case Some(n) =>
      assert orig[n] !in vis' && cur'[n] == orig[n];
  }

  /** The intended pass from any state that satisfies MeshInv. The visited
      positions increase. Every visited offset is renumbered to its place and
      every other entry is kept. When the pass stops early, every offset has
      been visited. */
  lemma {:induction false} MeshScanFrom(orig: seq<int>, cur: seq<int>, pos: int, vis: seq<int>, k: nat) returns (s: Scan<int>)
    requires MeshInv(orig, cur, pos, vis)
    ensures s == MeshScan(cur, pos, |vis|, k) && MeshDone(orig, s.table, vis + s.visited, |vis| + k)
    decreases k, 1
  {
    s := MeshScan(cur, pos, |vis|, k);
    if k == 0 {
      assert vis + [] == vis;
    } else {
      var cur' := Relabel(cur, pos, |vis|);
      MeshStep(orig, cur, pos, vis);
      match LeastAbove(cur', pos, 0)
      case None =>
        assert MeshScan(cur, pos, |vis|, k) == Scan(cur', [pos]);
        MeshDoneWeaken(orig, cur', vis + [pos], |vis| + 2, |vis| + k);
      case Some(n) =>
        MeshScanOn(orig, cur, pos, vis, k, n);
    }
  }

  /** The step of MeshScanFrom that moves on to the entry `n`. */
  lemma {:induction false} MeshScanOn(orig: seq<int>, cur: seq<int>, pos: int, vis: seq<int>, k: nat, n: nat)
    requires k > 0 && LeastAbove(Relabel(cur, pos, |vis|), pos, 0) == Some(n)
    requires MeshInv(orig, Relabel(cur, pos, |vis|), Relabel(cur, pos, |vis|)[n], vis + [pos])
    ensures MeshDone(orig, MeshScan(cur, pos, |vis|, k).table, vis + MeshScan(cur, pos, |vis|, k).visited, |vis| + k)
    decreases k, 0
  {
    var cur' := Relabel(cur, pos, |vis|);
    var rest := MeshScanFrom(orig, cur', cur'[n], vis + [pos], k - 1);
    MeshDoneThen(orig, cur, pos, vis, k, n, rest);
  }

  /** The guarantee for the pass from the entry `n` carries over to the pass
      that steps to it. */
  lemma MeshDoneThen(orig: seq<int>, cur: seq<int>, pos: int, vis: seq<int>, k: nat, n: nat, rest: Scan<int>)
    requires k > 0 && LeastAbove(Relabel(cur, pos, |vis|), pos, 0) == Some(n)
    requires rest == MeshScan(Relabel(cur, pos, |vis|), Relabel(cur, pos, |vis|)[n], |vis + [pos]|, k - 1)
    requires MeshDone(orig, rest.table, (vis + [pos]) + rest.visited, |vis + [pos]| + (k - 1))
    ensures MeshDone(orig, MeshScan(cur, pos, |vis|, k).table, vis + MeshScan(cur, pos, |vis|, k).visited, |vis| + k)
  {
    assert MeshScan(cur, pos, |vis|, k) == Then(pos, rest);
    Regroup(vis, pos, rest.visited);
  }

  /** A weaker completeness bound follows from a stronger one. */
  lemma MeshDoneWeaken(orig: seq<int>, t: seq<int>, all: seq<int>, bound: int, bound': int)
    requires MeshDone(orig, t, all, bound) && (|all| < bound' ==> |all| < bound)
    ensures MeshDone(orig, t, all, bound')
  {}

  /** The intended read_mesh_data pass resolves the table. Offsets are
      visited from 0 in increasing order. Each entry holds the number of the
      mesh read at its offset. When fewer meshes than entries are read, no
      offset is left unresolved. */
  lemma MeshIndicesResolved(ix: seq<int>)
    requires forall j | 0 <= j < |ix| :: ix[j] >= 0
    ensures var r := ResolveMeshIndices(ix);
      Increasing(r.visited) && Resolved(ix, r) && |r.visited| <= |ix| &&
      (|ix| > 0 ==> r.visited[0] == 0) &&
      (|r.visited| < |ix| ==> forall j | 0 <= j < |ix| :: ix[j] in r.visited)
  {
    assert MeshInv(ix, ix, 0, []);
    var s := MeshScanFrom(ix, ix, 0, [], |ix|);
    assert [] + s.visited == s.visited;
  }

  /** Both passes keep the table's length. The pass as written visits
      exactly one position per entry. The intended pass visits at most that
      many. */
  lemma MeshScanSizes(ix: seq<int>)
    ensures |ResolveMeshIndicesAsWritten(ix).table| == |ix| && |ResolveMeshIndicesAsWritten(ix).visited| == |ix|
    ensures |ResolveMeshIndices(ix).table| == |ix| && |ResolveMeshIndices(ix).visited| <= |ix|
  {}

  /** The position after `pos`, as written, is the first greater entry in
      array order, or `pos` when no entry is greater. */
  lemma NextAsWrittenIsFirstGreater(ix: seq<int>, pos: int)
    ensures NextAsWritten(ix, pos) == pos <==> forall k | 0 <= k < |ix| :: ix[k] <= pos
    ensures NextAsWritten(ix, pos) != pos ==>
      exists j | 0 <= j < |ix| :: ix[j] == NextAsWritten(ix, pos) > pos && forall k | 0 <= k < j :: ix[k] <= pos
  {
    match FirstAbove(ix, pos, 0)
    case Some(j) =>
    case None =>
  }

  /** [0, 40, 0] with meshes at offsets 0 and 40 becomes [0, 1, 0] under both
      passes. */
  lemma MeshIndicesExample()
    ensures ResolveMeshIndicesAsWritten([0, 40, 0]).table == [0, 1, 0]
    ensures ResolveMeshIndices([0, 40, 0]).table == [0, 1, 0]
    ensures ResolveMeshIndices([0, 40, 0]).visited == [0, 40]
  {
    var a := Relabel([0, 40, 0], 0, 0);
    assert a == [0, 40, 0];
    assert FirstAbove(a, 0, 0) == Some(1);
    var b := Relabel(a, 40, 1);
    assert b == [0, 1, 0];
    assert FirstAbove(b, 40, 0) == None by {
      assert FirstAbove(b, 40, 2) == None;
    }
    assert Relabel(b, 40, 2) == b;
    assert LeastAbove(a, 0, 0) == Some(1) by {
      assert LeastAbove(a, 0, 2) == None;
    }
    assert LeastAbove(b, 40, 0) == None;
  }

  /** As written, an offset that comes after a greater one in the table is
      never visited, so it is left as a byte offset: [0, 100, 40] becomes
      [0, 1, 40]. The intended pass gives [0, 2, 1]. */
  lemma MeshIndicesUnsorted()
    ensures ResolveMeshIndicesAsWritten([0, 100, 40]).table == [0, 1, 40]
    ensures ResolveMeshIndicesAsWritten([0, 100, 40]).visited == [0, 100, 100]
    ensures ResolveMeshIndices([0, 100, 40]).table == [0, 2, 1]
  {
    var a := Relabel([0, 100, 40], 0, 0);
    assert a == [0, 100, 40];
    assert FirstAbove(a, 0, 0) == Some(1);
    var b := Relabel(a, 100, 1);
    assert b == [0, 1, 40];
    assert FirstAbove(b, 100, 0) == None by {
      assert FirstAbove(b, 100, 2) == None;
    }
    assert Relabel(b, 100, 2) == b;
    assert LeastAbove(a, 0, 0) == Some(2) by {
      assert LeastAbove(a, 0, 2) == Some(2);
    }
    var c := Relabel(a, 40, 1);
    assert c == [0, 100, 1];
    assert LeastAbove(c, 40, 0) == Some(1) by {
      assert LeastAbove(c, 40, 2) == None;
    }
    var e := Relabel(c, 100, 2);
    assert e == [0, 2, 1];
    assert MeshScan(c, 100, 2, 1) == Scan(e, [100]) by {
      assert LeastAbove(e, 100, 0) == None;
    }
  }

  /** Every pointer the intended pass renumbers gets the number of the
      slot its mesh is read into: meshes[mesh_indices[j]] is the mesh at
      byte offset ix[j]. */
  lemma MeshSlotsMatchPointers(ix: seq<int>)
    requires forall j | 0 <= j < |ix| :: ix[j] >= 0
    ensures var r := ResolveMeshIndices(ix);
      forall j | 0 <= j < |ix| && ix[j] in r.visited ::
        0 <= r.table[j] < |ix| && MeshPositions(ix)[r.table[j]] == ix[j]
  {
    MeshIndicesResolved(ix);
    var r := ResolveMeshIndices(ix);
    forall j | 0 <= j < |ix| && ix[j] in r.visited
      ensures 0 <= r.table[j] < |ix| && MeshPositions(ix)[r.table[j]] == ix[j]
    {
      var m := IndexOf(r.visited, ix[j]);
      assert MeshPositions(ix)[..|r.visited|][m] == r.visited[m];
    }
  }

  ghost predicate Sorted(s: seq<int>) {
    forall a, b | 0 <= a < b < |s| :: s[a] <= s[b]
  }

  /** When the entries above `bound` come in non-decreasing order, the first
      of them in array order is also the first least one. */
  lemma {:induction false} FirstAboveIsLeast(t: seq<int>, bound: int, from: nat)
    requires from <= |t|
    requires forall a, b | from <= a < b < |t| && t[a] > bound && t[b] > bound :: t[a] <= t[b]
    ensures FirstAbove(t, bound, from) == LeastAbove(t, bound, from)
    decreases |t| - from
  {
    if from < |t| {
      FirstAboveIsLeast(t, bound, from + 1);
    }
  }

  /** As written, once every entry is below `pos`, each iteration left stays
      at `pos` and changes nothing. */
  lemma {:induction false} AsWrittenStays(t: seq<int>, pos: int, mesh: nat, k: nat)
    requires forall j | 0 <= j < |t| :: t[j] < pos
    ensures MeshScanAsWritten(t, pos, mesh, k) == Scan(t, seq(k, _ => pos))
    decreases k
  {
    if k > 0 {
      assert Relabel(t, pos, mesh) == t;
      assert FirstAbove(t, pos, 0).None?;
      AsWrittenStays(t, pos, mesh + 1, k - 1);
      assert [pos] + seq(k - 1, _ => pos) == seq(k, _ => pos);
    }
  }

  /** From a state of the intended pass over sorted pointers, the pass as
      written makes the same moves: it leaves the same table, and reads its
      meshes at the intended positions followed by repeats of the last. */
  lemma {:induction false} MeshAgreeFrom(orig: seq<int>, cur: seq<int>, pos: int, vis: seq<int>, k: nat)
    requires MeshInv(orig, cur, pos, vis) && Sorted(orig) && |vis| + k == |orig|
    requires |orig| > 0 ==> orig[|orig| - 1] + 1 >= |orig|
    ensures MeshScanAsWritten(cur, pos, |vis|, k) ==
      Scan(MeshScan(cur, pos, |vis|, k).table, Pad(MeshScan(cur, pos, |vis|, k).visited, k))
    decreases k
  {
    if k > 0 {
      var cur' := Relabel(cur, pos, |vis|);
      var vis' := vis + [pos];
      MeshStep(orig, cur, pos, vis);
      forall a, b | 0 <= a < b < |cur'| && cur'[a] > pos && cur'[b] > pos
        ensures cur'[a] <= cur'[b]
      {
        assert orig[a] !in vis' && orig[b] !in vis';
      }
      FirstAboveIsLeast(cur', pos, 0);
      match LeastAbove(cur', pos, 0)
      case None =>
        assert MeshScan(cur, pos, |vis|, k) == Scan(cur', [pos]);
        if k > 1 {
          MeshStaysBelow(orig, cur, pos, vis, k);
          AsWrittenStays(cur', pos, |vis| + 1, k - 1);
        }
        assert Pad([pos], k) == [pos] + seq(k - 1, _ => pos);
      case Some(n) =>
        MeshAgreeFrom(orig, cur', cur'[n], vis', k - 1);
        var rest := MeshScan(cur', cur'[n], |vis'|, k - 1);
        assert MeshScan(cur, pos, |vis|, k) == Then(pos, rest);
        PadThen(pos, rest.visited, k - 1);
    }
  }

  /** When the intended pass finds no greater pointer with iterations left,
      every entry is a mesh number below `pos`, because the largest pointer
      is at least |orig| - 1. */
  lemma MeshStaysBelow(orig: seq<int>, cur: seq<int>, pos: int, vis: seq<int>, k: nat)
    requires MeshInv(orig, cur, pos, vis) && |vis| + k == |orig| && k > 1
    requires orig[|orig| - 1] + 1 >= |orig|
    requires LeastAbove(Relabel(cur, pos, |vis|), pos, 0).None?
    ensures forall j | 0 <= j < |orig| :: Relabel(cur, pos, |vis|)[j] < pos
  {
    var cur' := Relabel(cur, pos, |vis|);
    var vis' := vis + [pos];
    MeshRelabelStep(orig, cur, pos, vis);
    assert orig[|orig| - 1] in vis';
    assert orig[|orig| - 1] <= pos;
    forall j | 0 <= j < |orig| ensures cur'[j] < pos {
      assert orig[j] in vis';
      assert cur'[j] == IndexOf(vis', orig[j]) < |vis'|;
    }
  }

  /** On sorted pointers whose largest is at least |ix| - 1, the intended
      pass and the pass as written renumber the table alike, and the source
      reads its meshes exactly at MeshPositions: the two differ only on
      pointers out of order (MeshIndicesUnsorted). */
  lemma MeshPassesAgreeWhenSorted(ix: seq<int>)
    requires forall j | 0 <= j < |ix| :: ix[j] >= 0
    requires Sorted(ix) && (|ix| > 0 ==> ix[|ix| - 1] + 1 >= |ix|)
    ensures ResolveMeshIndicesAsWritten(ix).table == ResolveMeshIndices(ix).table
    ensures ResolveMeshIndicesAsWritten(ix).visited == MeshPositions(ix)
  {
    assert MeshInv(ix, ix, 0, []);
    MeshAgreeFrom(ix, ix, 0, [], |ix|);
  }

  // ---------------------------------------------------------------------
  // read_frame_moveable_data

  /** One claiming pass: every moveable whose frame_offset is `pos` takes
      frame number `frame`, and its offset is cleared. */
  function Claim(ms: seq<Moveable>, pos: int, frame: int): (r: seq<Moveable>)
    ensures |r| == |ms|
    ensures forall j | 0 <= j < |ms| ::
      r[j] == if ms[j].frame_offset == pos then ms[j].(frame_index := frame, frame_offset := 0) else ms[j]
  {
    seq(|ms|, j requires 0 <= j < |ms| =>
      if ms[j].frame_offset == pos then ms[j].(frame_index := frame, frame_offset := 0) else ms[j])
  }

  /** The first moveable from `from`, in array order, whose frame_offset is
      still positive. */
  function FirstPending(ms: seq<Moveable>, from: nat): (r: Option<nat>)
    requires from <= |ms|
    ensures r.Some? ==> from <= r.value < |ms| && ms[r.value].frame_offset > 0
    ensures r.Some? ==> forall k | from <= k < r.value :: ms[k].frame_offset <= 0
    ensures r.None? ==> forall k | from <= k < |ms| :: ms[k].frame_offset <= 0
    decreases |ms| - from
  {
    if from == |ms| then None
    else if ms[from].frame_offset > 0 then Some(from)
    else FirstPending(ms, from + 1)
  }

  /** The position the source moves to: it resets to 0, then takes the first
      positive frame_offset. */
  function NextFrameAsWritten(ms: seq<Moveable>): int {
    match FirstPending(ms, 0)
    case Some(j) => ms[j].frame_offset
    case None => 0
  }

  /** `k` more iterations of the loop of read_frame_moveable_data as written. */
  function FrameScanAsWritten(ms: seq<Moveable>, pos: int, frame: nat, k: nat): (r: Scan<Moveable>)
    ensures |r.table| == |ms| && |r.visited| == k
    decreases k
  {
    if k == 0 then Scan(ms, [])
    else
      var ms' := Claim(ms, pos, frame);
      Then(pos, FrameScanAsWritten(ms', NextFrameAsWritten(ms'), frame + 1, k - 1))
  }

  /** The same loop as intended: it stops once no positive offset is left. */
  function FrameScan(ms: seq<Moveable>, pos: int, frame: nat, k: nat): (r: Scan<Moveable>)
    ensures |r.table| == |ms| && |r.visited| <= k && (k > 0 ==> |r.visited| > 0)
    decreases k
  {
    if k == 0 then Scan(ms, [])
    else
      var ms' := Claim(ms, pos, frame);
      match FirstPending(ms', 0)
      case None => Scan(ms', [pos])
      case Some(j) => Then(pos, FrameScan(ms', ms'[j].frame_offset, frame + 1, k - 1))
  }

  function ResolveFramesAsWritten(ms: seq<Moveable>): Scan<Moveable> {
    FrameScanAsWritten(ms, 0, 0, |ms|)
  }

  function ResolveFrames(ms: seq<Moveable>): Scan<Moveable> {
    FrameScan(ms, 0, 0, |ms|)
  }

  /** Every moveable whose offset was visited took the number of that offset
      in the visiting order, and its offset was cleared. Every other
      moveable is unchanged. */
  ghost predicate FramesResolved(orig: seq<Moveable>, r: Scan<Moveable>) {
    |r.table| == |orig| &&
    (forall j | 0 <= j < |orig| && orig[j].frame_offset in r.visited ::
      r.table[j] == orig[j].(frame_index := IndexOf(r.visited, orig[j].frame_offset), frame_offset := 0)) &&
    (forall j | 0 <= j < |orig| && orig[j].frame_offset !in r.visited :: r.table[j] == orig[j])
  }

  /** The state of the intended pass before it claims position `pos`. Offset
      0 is visited first; later positions are positive and new. */
  ghost predicate FrameInv(orig: seq<Moveable>, cur: seq<Moveable>, pos: int, vis: seq<int>) {
    Distinct(vis) && pos !in vis &&
    (vis == [] ==> pos == 0) && (vis != [] ==> vis[0] == 0 && pos > 0) &&
    FramesResolved(orig, Scan(cur, vis))
  }

  /** What the intended pass guarantees once it has visited `all`. */
  ghost predicate FrameDone(orig: seq<Moveable>, table: seq<Moveable>, all: seq<int>, bound: int) {
    Distinct(all) && |all| > 0 && all[0] == 0 && FramesResolved(orig, Scan(table, all)) &&
    (|all| < bound ==> forall j | 0 <= j < |orig| :: orig[j].frame_offset in all)
  }

  lemma FrameDoneSame(orig: seq<Moveable>, t: seq<Moveable>, all: seq<int>, bound: int,
                      t': seq<Moveable>, all': seq<int>, bound': int)
    requires FrameDone(orig, t, all, bound) && t == t' && all == all' && bound == bound'
    ensures FrameDone(orig, t', all', bound')
  {}

  /** A weaker completeness bound follows from a stronger one. */
  lemma FrameDoneWeaken(orig: seq<Moveable>, t: seq<Moveable>, all: seq<int>, bound: int, bound': int)
    requires FrameDone(orig, t, all, bound) && (|all| < bound' ==> |all| < bound)
    ensures FrameDone(orig, t, all, bound')
  {}

  /** A state with at least one visited position is already a finished pass
      over those positions. */
  lemma FrameInvDone(orig: seq<Moveable>, cur: seq<Moveable>, pos: int, vis: seq<int>)
    requires FrameInv(orig, cur, pos, vis) && vis != []
    ensures FrameDone(orig, cur, vis, |vis|)
  {}

  /** One claiming step: `pos` joins the visited positions; the moveables
      claimed at it take its place; the moveables left to claim keep a
      positive offset, and only they do. */
  lemma {:induction false} FrameClaimStep(orig: seq<Moveable>, cur: seq<Moveable>, pos: int, vis: seq<int>)
    requires forall j | 0 <= j < |orig| :: orig[j].frame_offset >= 0
    requires FrameInv(orig, cur, pos, vis)
    ensures var cur' := Claim(cur, pos, |vis|); var vis' := vis + [pos];
      Distinct(vis') && vis'[0] == 0 && FramesResolved(orig, Scan(cur', vis')) &&
      (forall j | 0 <= j < |orig| && orig[j].frame_offset in vis' :: cur'[j].frame_offset == 0) &&
      (forall j | 0 <= j < |orig| && orig[j].frame_offset !in vis' :: orig[j].frame_offset > 0)
  {
    var cur' := Claim(cur, pos, |vis|);
    var vis' := vis + [pos];
    assert 0 in vis';
    forall a, b | 0 <= a < b < |vis'| ensures vis'[a] != vis'[b] {
      assert vis[a] in vis;
    }
    forall j | 0 <= j < |orig| && orig[j].frame_offset in vis'
      ensures cur'[j] == orig[j].(frame_index := IndexOf(vis', orig[j].frame_offset), frame_offset := 0)
    {
      IndexOfAppend(vis, pos, orig[j].frame_offset);
    }
  }

  /** After a step, either every moveable has been claimed, or the first
      moveable still pending gives the next position and the state is kept. */
  lemma {:induction false} FrameStep(orig: seq<Moveable>, cur: seq<Moveable>, pos: int, vis: seq<int>)
    requires forall j | 0 <= j < |orig| :: orig[j].frame_offset >= 0
    requires FrameInv(orig, cur, pos, vis)
    ensures var cur' := Claim(cur, pos, |vis|); var n := FirstPending(cur', 0);
      FrameDone(orig, cur', vis + [pos], if n.None? then |vis| + 2 else 0) &&
      (n.Some? ==> FrameInv(orig, cur', cur'[n.value].frame_offset, vis + [pos]))
  {
    FrameClaimStep(orig, cur, pos, vis);
    var cur' := Claim(cur, pos, |vis|);
    var vis' := vis + [pos];
    match FirstPending(cur', 0)
    case None =>
    case Some(n) =>
      assert orig[n].frame_offset !in vis' && cur'[n] == orig[n];
  }

  /** The intended pass from any state that satisfies FrameInv. */
  lemma {:induction false} FrameScanFrom(orig: seq<Moveable>, cur: seq<Moveable>, pos: int, vis: seq<int>, k: nat)
    requires forall j | 0 <= j < |orig| :: orig[j].frame_offset >= 0
    requires FrameInv(orig, cur, pos, vis)
    requires k > 0 || vis != []
    ensures FrameDone(orig, FrameScan(cur, pos, |vis|, k).table, vis + FrameScan(cur, pos, |vis|, k).visited, |vis| + k)
    decreases k, 1
  {
    var r := FrameScan(cur, pos, |vis|, k);
    if k == 0 {
      FrameInvDone(orig, cur, pos, vis);
      assert r == Scan(cur, []) && vis + [] == vis;
      FrameDoneSame(orig, cur, vis, |vis|, r.table, vis + r.visited, |vis| + k);
    } else {
      var cur' := Claim(cur, pos, |vis|);
      var vis' := vis + [pos];
      FrameStep(orig, cur, pos, vis);
      match FirstPending(cur', 0)
      case None =>
        assert r == Scan(cur', [pos]);
        FrameDoneWeaken(orig, cur', vis', |vis| + 2, |vis| + k);
        FrameDoneSame(orig, cur', vis', |vis| + k, r.table, vis + r.visited, |vis| + k);
      case Some(n) =>
        FrameScanOn(orig, cur, pos, vis, k, n);
    }
  }

  /** The step of FrameScanFrom that moves on to the moveable `n`. */
  lemma {:induction false} FrameScanOn(orig: seq<Moveable>, cur: seq<Moveable>, pos: int, vis: seq<int>, k: nat, n: nat)
    requires forall j | 0 <= j < |orig| :: orig[j].frame_offset >= 0
    requires k > 0 && FirstPending(Claim(cur, pos, |vis|), 0) == Some(n)
    requires FrameInv(orig, Claim(cur, pos, |vis|), Claim(cur, pos, |vis|)[n].frame_offset, vis + [pos])
    ensures FrameDone(orig, FrameScan(cur, pos, |vis|, k).table, vis + FrameScan(cur, pos, |vis|, k).visited, |vis| + k)
    decreases k, 0
  {
    var cur' := Claim(cur, pos, |vis|);
    FrameScanFrom(orig, cur', cur'[n].frame_offset, vis + [pos], k - 1);
    FrameDoneThen(orig, cur, pos, vis, k, n, FrameScan(cur', cur'[n].frame_offset, |vis + [pos]|, k - 1));
  }

  /** The guarantee for the pass from the moveable `n` carries over to the
      pass that steps to it. */
  lemma FrameDoneThen(orig: seq<Moveable>, cur: seq<Moveable>, pos: int, vis: seq<int>, k: nat, n: nat, rest: Scan<Moveable>)
    requires k > 0 && FirstPending(Claim(cur, pos, |vis|), 0) == Some(n)
    requires rest == FrameScan(Claim(cur, pos, |vis|), Claim(cur, pos, |vis|)[n].frame_offset, |vis + [pos]|, k - 1)
    requires FrameDone(orig, rest.table, (vis + [pos]) + rest.visited, |vis + [pos]| + (k - 1))
    ensures FrameDone(orig, FrameScan(cur, pos, |vis|, k).table, vis + FrameScan(cur, pos, |vis|, k).visited, |vis| + k)
  {
    assert FrameScan(cur, pos, |vis|, k) == Then(pos, rest);
    Regroup(vis, pos, rest.visited);
  }

  /** The intended read_frame_moveable_data pass. Frame 0 is at offset 0.
      Each later position is a new positive offset. Every moveable is
      claimed at most once, with the number of its offset. When the pass
      stops early, every moveable has been claimed. */
  lemma FramesResolvedByScan(ms: seq<Moveable>)
    requires forall j | 0 <= j < |ms| :: ms[j].frame_offset >= 0
    ensures var r := ResolveFrames(ms);
      Distinct(r.visited) && FramesResolved(ms, r) && |r.visited| <= |ms| &&
      (|ms| > 0 ==> r.visited[0] == 0) &&
      (forall j | 0 <= j < |ms| && ms[j].frame_offset == 0 :: r.table[j].frame_index == 0) &&
      (|r.visited| < |ms| ==> forall j | 0 <= j < |ms| :: ms[j].frame_offset in r.visited)
  {
    var r := ResolveFrames(ms);
    if |ms| > 0 {
      assert FrameInv(ms, ms, 0, []);
      FrameScanFrom(ms, ms, 0, [], |ms|);
      assert [] + r.visited == r.visited;
      forall j | 0 <= j < |ms| && ms[j].frame_offset == 0 ensures r.table[j].frame_index == 0 {
        assert IndexOf(r.visited, 0) == 0;
      }
    }
  }

  /** Three moveables whose frames are at offsets 0, 10 and 10. */
  function SharedFrames(): seq<Moveable> {
    [Moveable(frame_offset := 0), Moveable(frame_offset := 10), Moveable(frame_offset := 10)]
  }

  /** Once every offset is claimed the source resets to offset 0, where every
      moveable now sits, and claims them all again. Here the last iteration
      gives all three moveables frame 2. The intended pass gives 0, 1 and 1. */
  lemma FramesOverwritten()
    ensures var t := ResolveFramesAsWritten(SharedFrames()).table;
      t[0].frame_index == 2 && t[1].frame_index == 2 && t[2].frame_index == 2
    ensures var t := ResolveFrames(SharedFrames()).table;
      t[0].frame_index == 0 && t[1].frame_index == 1 && t[2].frame_index == 1
  {
    var ms := SharedFrames();
    var a := Claim(ms, 0, 0);
    assert a == [Moveable(frame_offset := 0), Moveable(frame_offset := 10), Moveable(frame_offset := 10)];
    assert FirstPending(a, 0) == Some(1);
    var b := Claim(a, 10, 1);
    assert b == [Moveable(), Moveable(frame_index := 1), Moveable(frame_index := 1)];
    assert FirstPending(b, 0) == None by {
      assert FirstPending(b, 2) == None;
    }
    var c := Claim(b, 0, 2);
    assert c == [Moveable(frame_index := 2), Moveable(frame_index := 2), Moveable(frame_index := 2)];
    assert FrameScanAsWritten(b, 0, 2, 1).table == c;
    assert FrameScan(a, 10, 1, 2).table == b;
  }
}
