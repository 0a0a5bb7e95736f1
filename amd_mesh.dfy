/**
 * The exporter's per-object face/corner loop: vertex welding, the index
 * list, the padded skin-weight records and the per-material triangle groups.
 *
 * The reference definition is split the way the data flows: WeldFaces folds
 * the corners into the vertex and index lists, GroupsPrefix folds the faces'
 * material indices into groups, and FirstBadFace finds the face, if any, at
 * which the loop stops.  BuildObjectBuffers is the loop as the exporter runs
 * it, interleaving all three, and is proved to compute BuildObject.
 */
module AmdMesh {
  import opened Bytes
  import opened Wrappers
  import opened AmdScene
  import opened AmdSearch

  /** One entry of the exporter's `groups`: [start, end, matid]; end is -1 while the group is open. */
  datatype Group = Group(start: int, end: int, material: int)

  /** The per-vertex lists and the index list the loop builds for one object. */
  datatype Buffers = Buffers(
    vertices: seq<Vec3>, texcoords: seq<Vec2>, normals: seq<Vec3>,
    indices: seq<nat>,
    weights: seq<seq<F32>>, weightBones: seq<seq<nat>>)

  /** The group list and `currentMaterial`. */
  datatype GroupState = GroupState(groups: seq<Group>, currentMaterial: int)

  /** Everything the loop produces for one object. */
  datatype ObjectMesh = ObjectMesh(buffers: Buffers, groups: seq<Group>)

  datatype BuildError =
    | TooManyInfluences   // a corner's vertex has more than 4 groups: export returns at once
    | MissingSlotMaterial // material_slots[material_index].material raises (IndexError or AttributeError)
    | NoFaces             // groups[len(groups)-1] on an empty list raises IndexError

  const EMPTY: Buffers := Buffers([], [], [], [], [], [])
  const NO_GROUPS: GroupState := GroupState([], -1)

  /** The three per-vertex lists have one entry per stored vertex. */
  predicate Aligned(b: Buffers) {
    |b.texcoords| == |b.vertices| == |b.normals|
  }

  /** What the loop keeps true of the lists. */
  ghost predicate Wellformed(b: Buffers) {
    && Aligned(b)
    && (forall i :: 0 <= i < |b.indices| ==> b.indices[i] < |b.vertices|)
    && |b.weights| == |b.weightBones| <= |b.vertices|
    && (forall i :: 0 <= i < |b.weights| ==> |b.weights[i]| == 4 && |b.weightBones[i]| == 4)
  }

  /** The UV the exporter reads for a corner: the active layer's, or (0.0, 0.0) without one. */
  function Texcoord(o: SceneObject, c: Corner): Vec2 {
    if o.hasUVLayer then c.uv else Vec2(ZERO, ZERO)
  }

  function GroupWeights(gs: seq<VertexGroup>): (w: seq<F32>)
    ensures |w| == |gs| && forall i :: 0 <= i < |gs| ==> w[i] == gs[i].weight
  {
    seq(|gs|, i requires 0 <= i < |gs| => gs[i].weight)
  }

  function GroupIds(gs: seq<VertexGroup>): (ids: seq<nat>)
    ensures |ids| == |gs| && forall i :: 0 <= i < |gs| ==> ids[i] == gs[i].group
  {
    seq(|gs|, i requires 0 <= i < |gs| => gs[i].group)
  }

  /** A vertex's weights, right-padded with 0 to four entries; empty when it has no groups. */
  function PaddedWeights(gs: seq<VertexGroup>): (w: seq<F32>)
    requires |gs| <= 4
    ensures gs == [] ==> w == []
    ensures gs != [] ==> |w| == 4 && w[..|gs|] == GroupWeights(gs)
    ensures gs != [] ==> forall i :: |gs| <= i < 4 ==> w[i] == ZERO
  {
    if gs == [] then [] else GroupWeights(gs) + seq(4 - |gs|, _ => ZERO)
  }

  /** The matching bone list, right-padded with bone 0. */
  function PaddedBones(gs: seq<VertexGroup>): (ids: seq<nat>)
    requires |gs| <= 4
    ensures gs == [] ==> ids == []
    ensures gs != [] ==> |ids| == 4 && ids[..|gs|] == GroupIds(gs)
    ensures gs != [] ==> forall i :: |gs| <= i < 4 ==> ids[i] == 0
  {
    if gs == [] then [] else GroupIds(gs) + seq(4 - |gs|, _ => 0)
  }

  // ---------------------------------------------------------------------------
  // Welding
  // ---------------------------------------------------------------------------

  /**
   * One corner: look the (position, raw UV, normal) triple up among the stored
   * vertices; push the found index, or store the vertex with its UV V-flipped,
   * its padded weights when it has any, and push its new index.
   */
  function WeldCorner(b: Buffers, o: SceneObject, c: Corner, flip: F32 -> F32): (r: Buffers)
    requires |c.groups| <= 4
    requires Aligned(b)
    ensures Aligned(r)
    ensures |r.indices| == |b.indices| + 1
  {
    var t := Texcoord(o, c);
    var index := VertexIndex(c.position, t, c.normal, b.vertices, b.texcoords, b.normals);
    if index == -1 then
      var w := PaddedWeights(c.groups);
      b.(indices := b.indices + [|b.vertices|],
         vertices := b.vertices + [c.position],
         texcoords := b.texcoords + [Vec2(t.u, flip(t.v))],
         weights := if |w| != 0 then b.weights + [w] else b.weights,
         weightBones := if |w| != 0 then b.weightBones + [PaddedBones(c.groups)] else b.weightBones,
         normals := b.normals + [c.normal])
    else
      b.(indices := b.indices + [index])
  }

  /** No corner in cs has more than four groups. */
  predicate CornersFit(cs: seq<Corner>) {
    forall i :: 0 <= i < |cs| ==> |cs[i].groups| <= 4
  }

  /** The corners cs welded in order. */
  function WeldCorners(b: Buffers, o: SceneObject, cs: seq<Corner>, flip: F32 -> F32): (r: Buffers)
    requires Aligned(b) && CornersFit(cs)
    ensures Aligned(r) && |r.indices| == |b.indices| + |cs|
  {
    if cs == [] then b
    else WeldCorner(WeldCorners(b, o, cs[..|cs| - 1], flip), o, cs[|cs| - 1], flip)
  }

  /** No corner of face f has more than four groups. */
  predicate FaceFits(f: Face) {
    CornersFit(Corners(f))
  }

  /** No corner of the first n faces has more than four groups. */
  predicate FacesFit(o: SceneObject, n: nat)
    requires n <= |o.faces|
  {
    forall f {:trigger FaceFits(o.faces[f])} :: 0 <= f < n ==> FaceFits(o.faces[f])
  }

  /** The buffers after welding the corners of the first n faces. */
  function WeldFaces(o: SceneObject, flip: F32 -> F32, n: nat): (r: Buffers)
    requires n <= |o.faces|
    requires FacesFit(o, n)
    ensures Aligned(r) && |r.indices| == 3 * n
  {
    if n == 0 then EMPTY
    else
      assert FaceFits(o.faces[n - 1]);
      WeldCorners(WeldFaces(o, flip, n - 1), o, Corners(o.faces[n - 1]), flip)
  }

  // ---------------------------------------------------------------------------
  // Material groups
  // ---------------------------------------------------------------------------

  /** Face f opens a new group: it is the first face, or its material index differs from the previous face's. */
  predicate IsChange(faces: seq<Face>, f: nat)
    requires f < |faces|
  {
    f == 0 || faces[f].materialIndex != faces[f - 1].materialIndex
  }

  /** If face f opens a group, the slot it names holds a material. */
  predicate SlotResolvesAt(o: SceneObject, f: nat)
    requires f < |o.faces|
  {
    IsChange(o.faces, f) ==> o.faces[f].materialIndex < |o.slots| && o.slots[o.faces[f].materialIndex].Some?
  }

  /** Every face among the first n that opens a group names a slot that holds a material. */
  predicate SlotsResolve(o: SceneObject, n: nat)
    requires n <= |o.faces|
  {
    forall f :: 0 <= f < n ==> SlotResolvesAt(o, f)
  }

  /** The material of a slot: matid, or an error when the slot is missing or empty. */
  function SlotMaterialID(o: SceneObject, slot: nat, materials: seq<SceneMaterial>): (r: Result<int, BuildError>)
    ensures r.Ok? <==> slot < |o.slots| && o.slots[slot].Some?
    ensures r.Ok? ==> r.value == IndexOfName(MaterialNames(materials), o.slots[slot].value)
  {
    if slot < |o.slots| && o.slots[slot].Some? then
      Ok(IndexOfName(MaterialNames(materials), o.slots[slot].value))
    else Err(MissingSlotMaterial)
  }

  /** The groups after closing the open group at triangle count n. */
  function CloseLast(groups: seq<Group>, n: int): (r: seq<Group>)
    requires groups != []
    ensures |r| == |groups| && r[..|r| - 1] == groups[..|groups| - 1]
    ensures r[|r| - 1] == groups[|groups| - 1].(end := n)
  {
    groups[|groups| - 1 := groups[|groups| - 1].(end := n)]
  }

  /**
   * The group bookkeeping after the corners of a face, when `triangles` faces
   * (this one included) have been welded: if the face's material index differs
   * from currentMaterial, close the open group at `triangles` and open one that
   * starts at `triangles - 1`.
   */
  function SwitchGroup(gs: GroupState, o: SceneObject, f: Face, materials: seq<SceneMaterial>, triangles: int): (r: Result<GroupState, BuildError>)
    ensures r.Err? <==> f.materialIndex != gs.currentMaterial && SlotMaterialID(o, f.materialIndex, materials).Err?
    ensures r.Ok? ==> r.value.currentMaterial == f.materialIndex
    ensures r.Ok? && gs.groups != [] ==> r.value.groups != []
  {
    if f.materialIndex == gs.currentMaterial then Ok(gs)
    else
      var closed := if |gs.groups| > 0 then CloseLast(gs.groups, triangles) else gs.groups;
      match SlotMaterialID(o, f.materialIndex, materials)
      case Err(e) => Err(e)
      case Ok(matid) => Ok(GroupState(closed + [Group(triangles - 1, -1, matid)], f.materialIndex))
  }

  /** The group state after the first n faces. */
  function GroupsPrefix(o: SceneObject, materials: seq<SceneMaterial>, n: nat): (r: GroupState)
    requires n <= |o.faces|
    requires SlotsResolve(o, n)
    ensures r.currentMaterial == if n == 0 then -1 else o.faces[n - 1].materialIndex
  {
    if n == 0 then NO_GROUPS
    else
      var prev := GroupsPrefix(o, materials, n - 1);
      assert SlotResolvesAt(o, n - 1);
      assert o.faces[n - 1].materialIndex != prev.currentMaterial ==> IsChange(o.faces, n - 1);
      SwitchGroup(prev, o, o.faces[n - 1], materials, n).value
  }

  // ---------------------------------------------------------------------------
  // The whole loop
  // ---------------------------------------------------------------------------

  /** Face f stops the loop: a corner has too many groups, or it opens a group on an empty slot. */
  predicate IsBadFace(o: SceneObject, f: nat)
    requires f < |o.faces|
  {
    !FaceFits(o.faces[f]) || !SlotResolvesAt(o, f)
  }

  /** The first bad face among the first n, or n when there is none. */
  function FirstBadFace(o: SceneObject, n: nat): (k: nat)
    requires n <= |o.faces|
    ensures k <= n
    ensures k < n ==> IsBadFace(o, k)
    ensures FacesFit(o, k) && SlotsResolve(o, k)
  {
    if n == 0 then 0
    else
      var k := FirstBadFace(o, n - 1);
      if k < n - 1 || IsBadFace(o, n - 1) then k else n
  }

  /** Why the exporter stops at bad face f: too many influences is detected before the slot. */
  function BadFaceError(o: SceneObject, f: nat): BuildError
    requires f < |o.faces|
  {
    if !FaceFits(o.faces[f]) then TooManyInfluences else MissingSlotMaterial
  }

  /** The loop after the first n faces: the lists and groups, or the error of the first bad face. */
  function LoopPrefix(o: SceneObject, materials: seq<SceneMaterial>, flip: F32 -> F32, n: nat): Result<(Buffers, GroupState), BuildError>
    requires n <= |o.faces|
  {
    var bad := FirstBadFace(o, n);
    if bad < n then Err(BadFaceError(o, bad))
    else Ok((WeldFaces(o, flip, n), GroupsPrefix(o, materials, n)))
  }

  /**
   * The object's lists and groups, or the error at which the exporter stops:
   * the first bad face, or, with no faces, the closing of a last group that
   * does not exist.
   */
  function BuildObject(o: SceneObject, materials: seq<SceneMaterial>, flip: F32 -> F32): Result<ObjectMesh, BuildError> {
    match LoopPrefix(o, materials, flip, |o.faces|)
    case Err(e) => Err(e)
    case Ok((b, gs)) =>
      if gs.groups == [] then Err(NoFaces)
      else Ok(ObjectMesh(b, CloseLast(gs.groups, |b.indices| / 3)))
  }

  /** Once a face is bad, every longer prefix stops at that face. */
  lemma LoopPrefixErrorPersists(o: SceneObject, materials: seq<SceneMaterial>, flip: F32 -> F32, i: nat, n: nat)
    requires i <= n <= |o.faces|
    requires LoopPrefix(o, materials, flip, i).Err?
    ensures LoopPrefix(o, materials, flip, n) == LoopPrefix(o, materials, flip, i)
  {
    var k := FirstBadFace(o, i);
    var m := FirstBadFace(o, n);
    if m != k {
      assert false;
    }
  }

  // ---------------------------------------------------------------------------
  // The loop as the exporter runs it
  // ---------------------------------------------------------------------------

  /** The `weight` / `weight_bonelist` lists of one corner: copied from its groups, then padded. */
  method CollectWeights(gs: seq<VertexGroup>) returns (weight: seq<F32>, bones: seq<nat>)
    requires |gs| <= 4
    ensures weight == PaddedWeights(gs) && bones == PaddedBones(gs)
  {
    weight, bones := [], [];
    for k := 0 to |gs|
      invariant weight == GroupWeights(gs[..k]) && bones == GroupIds(gs[..k])
    {
      weight := weight + [gs[k].weight];
      bones := bones + [gs[k].group];
    }
    assert gs[..|gs|] == gs;
    if |weight| != 0 {
      while |weight| != 4
        invariant |gs| <= |weight| <= 4 && |bones| == |weight|
        invariant weight[..|gs|] == GroupWeights(gs) && bones[..|gs|] == GroupIds(gs)
        invariant forall i :: |gs| <= i < |weight| ==> weight[i] == ZERO && bones[i] == 0
        decreases 4 - |weight|
      {
        weight := weight + [ZERO];
        bones := bones + [0];
      }
    }
  }

  /** The body of the corner loop for a corner with at most four groups. */
  method AddCorner(b: Buffers, o: SceneObject, corner: Corner, flip: F32 -> F32) returns (r: Buffers)
    requires |corner.groups| <= 4
    requires Aligned(b)
    ensures r == WeldCorner(b, o, corner, flip)
  {
    var texcoord := if o.hasUVLayer then corner.uv else Vec2(ZERO, ZERO);
    var weight, weightBoneList := CollectWeights(corner.groups);
    var index := BuscaVertex(corner.position, texcoord, corner.normal, b.vertices, b.texcoords, b.normals);
    if index == -1 {
      r := b.(indices := b.indices + [|b.vertices|],
              vertices := b.vertices + [corner.position],
              texcoords := b.texcoords + [Vec2(texcoord.u, flip(texcoord.v))]);
      if |weight| != 0 {
        r := r.(weights := r.weights + [weight], weightBones := r.weightBones + [weightBoneList]);
      }
      r := r.(normals := r.normals + [corner.normal]);
    } else {
      r := b.(indices := b.indices + [index]);
    }
  }

  /** The corner loop of one face; it stops at the first corner with more than four groups. */
  method AddFaceCorners(b: Buffers, o: SceneObject, face: Face, flip: F32 -> F32) returns (r: Option<Buffers>)
    requires Aligned(b)
    ensures r.Some? <==> FaceFits(face)
    ensures r.Some? ==> r.value == WeldCorners(b, o, Corners(face), flip)
  {
    var corners := Corners(face);
    var cur := b;
    var j := 0;
    while j < 3
      invariant 0 <= j <= 3
      invariant CornersFit(corners[..j]) && cur == WeldCorners(b, o, corners[..j], flip)
    {
      var corner := corners[j];
      if |corner.groups| > 4 {
        return None;
      }
      assert corners[..j + 1][..j] == corners[..j];
      cur := AddCorner(cur, o, corner, flip);
      j := j + 1;
    }
    assert corners[..3] == corners;
    r := Some(cur);
  }

  /** The group bookkeeping of the face loop. */
  method AddGroup(gs: GroupState, o: SceneObject, face: Face, materials: seq<SceneMaterial>, triangles: int) returns (r: Result<GroupState, BuildError>)
    ensures r == SwitchGroup(gs, o, face, materials, triangles)
  {
    if face.materialIndex == gs.currentMaterial {
      return Ok(gs);
    }
    var groups := gs.groups;
    if |groups| > 0 {
      groups := groups[|groups| - 1 := groups[|groups| - 1].(end := triangles)];
    }
    if face.materialIndex >= |o.slots| || o.slots[face.materialIndex].None? {
      return Err(MissingSlotMaterial);
    }
    var matid := SearchMaterialID(materials, o.slots[face.materialIndex].value);
    r := Ok(GroupState(groups + [Group(triangles - 1, -1, matid)], face.materialIndex));
  }

  /** The face fi of the loop, given the state after the faces before it. */
  method AddFace(b: Buffers, gs: GroupState, o: SceneObject, fi: nat, materials: seq<SceneMaterial>, flip: F32 -> F32)
    returns (r: Result<(Buffers, GroupState), BuildError>)
    requires fi < |o.faces| && LoopPrefix(o, materials, flip, fi) == Ok((b, gs))
    ensures r == LoopPrefix(o, materials, flip, fi + 1)
  {
    var face := o.faces[fi];
    assert FirstBadFace(o, fi) == fi;
    var welded := AddFaceCorners(b, o, face, flip);
    if welded.None? {
      assert FirstBadFace(o, fi + 1) == fi;
      return Err(TooManyInfluences);
    }
    assert |welded.value.indices| / 3 == fi + 1;
    assert face.materialIndex != gs.currentMaterial <==> IsChange(o.faces, fi);
    var next := AddGroup(gs, o, face, materials, |welded.value.indices| / 3);
    if next.Err? {
      assert !SlotResolvesAt(o, fi) && FirstBadFace(o, fi + 1) == fi;
      return Err(next.error);
    }
    assert FirstBadFace(o, fi + 1) == fi + 1;
    assert WeldFaces(o, flip, fi + 1) == welded.value;
    assert GroupsPrefix(o, materials, fi + 1) == next.value;
    r := Ok((welded.value, next.value));
  }

  /** The exporter's loop over obj.data.polygons; it returns at the first bad face. */
  method AddFaces(o: SceneObject, materials: seq<SceneMaterial>, flip: F32 -> F32) returns (r: Result<(Buffers, GroupState), BuildError>)
    ensures r == LoopPrefix(o, materials, flip, |o.faces|)
  {
    r := Ok((EMPTY, NO_GROUPS));
    var fi: nat := 0;
    while fi < |o.faces| && r.Ok?
      invariant fi <= |o.faces| && r == LoopPrefix(o, materials, flip, fi)
      decreases |o.faces| - fi
    {
      var (b, gs) := r.value;
      r := AddFace(b, gs, o, fi, materials, flip);
      fi := fi + 1;
    }
    if r.Err? {
      LoopPrefixErrorPersists(o, materials, flip, fi, |o.faces|);
    }
  }

  /** The buffers of one mesh object: the face loop, then the closing of the last group. */
  method BuildObjectBuffers(o: SceneObject, materials: seq<SceneMaterial>, flip: F32 -> F32) returns (r: Result<ObjectMesh, BuildError>)
    ensures r == BuildObject(o, materials, flip)
  {
    var loop := AddFaces(o, materials, flip);
    if loop.Err? {
      return Err(loop.error);
    }
    var (b, gs) := loop.value;
    if |gs.groups| == 0 {
      return Err(NoFaces);
    }
    r := Ok(ObjectMesh(b, gs.groups[|gs.groups| - 1 := gs.groups[|gs.groups| - 1].(end := |b.indices| / 3)]));
  }
}
