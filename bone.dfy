/**
 * The skeleton of an animated object (source/Bone.cpp).  The engine keeps a
 * tree of Bone objects built from the flat bone table the object file
 * carries (parent, children, bind matrix and inverse model matrix per
 * bone).  Matrices are kept symbolic: a matrix is the expression that
 * built it, so the order in which the engine composes them is visible and
 * the floating-point arithmetic is left to the host.
 */
module EngineBone {
  import opened Bytes
  import opened Wrappers
  import opened AmdScene

  /** A 4x4 matrix as the expression that produced it. */
  datatype Mat =
    | Identity                          // mat4(1.0f)
    | Stored(m: seq<F32>)               // glm::make_mat4 of 16 floats from the table
    | Times(a: Mat, b: Mat)             // a * b
    | Rotation(angle: F32, axis: Vec3)  // glm::rotate(angle, axis)
    | Translation(v: Vec3)              // glm::translate(mat4(1.0f), v)
    | OfQuat(q: Quat)                   // glm::toMat4(q)

  /** bone_t: one row of the bone table. */
  datatype BoneEntry = BoneEntry(parent: U16, children: seq<U16>, localBind: seq<F32>, matrixInv: seq<F32>)

  const NO_PARENT: U16 := 0xFFFF

  /** A Bone: its table id, its three matrices, its rotation and its children. */
  datatype BoneNode = BoneNode(
    id: nat,
    localBind: Mat, modelInv: Mat, transform: Mat,
    angle: F32, axis: Vec3,
    children: seq<BoneNode>,
    dependant: bool)

  const Y_AXIS: Vec3 := Vec3(ZERO, ONE, ZERO)

  /** Bone::Bone: identity matrices, angle 0 about (0, 1, 0), no children. */
  function NewBone(id: nat): (b: BoneNode)
    ensures b.id == id && b.children == [] && !b.dependant
    ensures b.localBind == Identity && b.modelInv == Identity && b.transform == Identity
    ensures b.angle == ZERO && b.axis == Y_AXIS
  {
    BoneNode(id, Identity, Identity, Identity, ZERO, Y_AXIS, [], false)
  }

  /**
   * The table is walkable from every bone: every child id names a row, and
   * a rank that falls from parent to child shows there is no cycle.  The
   * engine checks neither; a cyclic table makes createChildren recurse
   * without end.
   */
  ghost predicate Ranked(bones: seq<BoneEntry>, rank: seq<nat>) {
    && |rank| == |bones|
    && forall i, j :: 0 <= i < |bones| && 0 <= j < |bones[i].children| ==>
         bones[i].children[j] as int < |bones| && rank[bones[i].children[j]] < rank[i]
  }

  // ---------------------------------------------------------------------------
  // createChildren
  // ---------------------------------------------------------------------------

  /**
   * What createChildren makes of bone b: its matrices loaded from its table
   * row, and one new dependent child per entry of the row's children, in
   * order, each grown the same way.
   */
  function Grown(bones: seq<BoneEntry>, b: BoneNode, ghost rank: seq<nat>): (r: BoneNode)
    requires Ranked(bones, rank) && b.id < |bones|
    ensures r.id == b.id && |r.children| == |b.children| + |bones[b.id].children|
    decreases rank[b.id], 0
  {
    var e := bones[b.id];
    b.(localBind := Stored(e.localBind), modelInv := Stored(e.matrixInv),
       children := b.children + seq(|e.children|, j requires 0 <= j < |e.children| => ChildBone(bones, e.children[j] as nat, rank)))
  }

  /** One pass of createChildren's loop: new Bone(id), setDependency(true), createChildren. */
  function ChildBone(bones: seq<BoneEntry>, id: nat, ghost rank: seq<nat>): (r: BoneNode)
    requires Ranked(bones, rank) && id < |bones|
    ensures r.id == id && r.dependant
    decreases rank[id], 1
  {
    Grown(bones, NewBone(id).(dependant := true), rank)
  }

  /** Bone::createChildren. */
  method CreateChildren(bones: seq<BoneEntry>, b: BoneNode, ghost rank: seq<nat>) returns (r: BoneNode)
    requires Ranked(bones, rank) && b.id < |bones|
    ensures r == Grown(bones, b, rank)
    decreases rank[b.id]
  {
    var e := bones[b.id];
    r := b.(localBind := Stored(e.localBind), modelInv := Stored(e.matrixInv));
    var i := 0;
    while i < |e.children|
      invariant 0 <= i <= |e.children|
      invariant r == b.(localBind := Stored(e.localBind), modelInv := Stored(e.matrixInv),
                        children := b.children + seq(i, j requires 0 <= j < i => ChildBone(bones, e.children[j] as nat, rank)))
    {
      var child := NewBone(e.children[i] as nat);
      child := child.(dependant := true);
      child := CreateChildren(bones, child, rank);
      r := r.(children := r.children + [child]);
      i := i + 1;
    }
  }

  /** Every bone of a grown tree carries its own row's matrices and children, in the row's order. */
  ghost predicate FromTable(bones: seq<BoneEntry>, t: BoneNode) {
    && t.id < |bones|
    && t.localBind == Stored(bones[t.id].localBind)
    && t.modelInv == Stored(bones[t.id].matrixInv)
    && |t.children| == |bones[t.id].children|
    && forall j :: 0 <= j < |t.children| ==>
         t.children[j].id == bones[t.id].children[j] as int && t.children[j].dependant && FromTable(bones, t.children[j])
  }

  /** A fresh bone grown from the table reproduces the table below it. */
  lemma {:induction false} GrownFromTable(bones: seq<BoneEntry>, id: nat, dependant: bool, rank: seq<nat>)
    requires Ranked(bones, rank) && id < |bones|
    ensures FromTable(bones, Grown(bones, NewBone(id).(dependant := dependant), rank))
    decreases rank[id]
  {
    var t := Grown(bones, NewBone(id).(dependant := dependant), rank);
    var e := bones[id];
    forall j | 0 <= j < |t.children|
      ensures t.children[j].id == e.children[j] as int && t.children[j].dependant && FromTable(bones, t.children[j])
    {
      assert t.children[j] == ChildBone(bones, e.children[j] as nat, rank);
      GrownFromTable(bones, e.children[j] as nat, true, rank);
    }
  }

  // ---------------------------------------------------------------------------
  // Traversal orders
  // ---------------------------------------------------------------------------

  /** The ids of a tree, each bone before its children, children in order. */
  function Preorder(t: BoneNode): (ids: seq<nat>)
    ensures |ids| >= 1 && ids[0] == t.id
    decreases t, |t.children| + 1
  {
    [t.id] + PreorderOf(t, |t.children|)
  }

  /** The preorders of the first k children of t, one after the other. */
  function PreorderOf(t: BoneNode, k: nat): seq<nat>
    requires k <= |t.children|
    decreases t, k
  {
    if k == 0 then [] else PreorderOf(t, k - 1) + Preorder(t.children[k - 1])
  }

  /** The ids of a tree, each bone after its children, children in order. */
  function Postorder(t: BoneNode): (ids: seq<nat>)
    ensures |ids| >= 1 && ids[|ids| - 1] == t.id
    decreases t, |t.children| + 1
  {
    PostorderOf(t, |t.children|) + [t.id]
  }

  /** The postorders of the first k children of t, one after the other. */
  function PostorderOf(t: BoneNode, k: nat): seq<nat>
    requires k <= |t.children|
    decreases t, k
  {
    if k == 0 then [] else PostorderOf(t, k - 1) + Postorder(t.children[k - 1])
  }

  // ---------------------------------------------------------------------------
  // calculateBoneMatrix
  // ---------------------------------------------------------------------------

  /**
   * A bone's transform before its inverse model matrix is applied: L * R for
   * a root, parent * L * R otherwise, R being the rotation by angle about axis.
   */
  function Pose(b: BoneNode, parent: Option<Mat>): Mat {
    match parent
    case None => Times(b.localBind, Rotation(b.angle, b.axis))
    case Some(p) => Times(Times(p, b.localBind), Rotation(b.angle, b.axis))
  }

  /**
   * The tree after calculateBoneMatrix: each child is computed from its
   * parent's pose, and only then does the parent's transform take its
   * inverse model matrix on the right.
   */
  function Calculated(b: BoneNode, parent: Option<Mat>): (r: BoneNode)
    ensures r.id == b.id && |r.children| == |b.children|
    decreases b, |b.children| + 1
  {
    b.(transform := Times(Pose(b, parent), b.modelInv), children := CalculatedOf(b, Pose(b, parent), |b.children|))
  }

  /** The first k children of b, calculated under the pose of b. */
  function CalculatedOf(b: BoneNode, pose: Mat, k: nat): (cs: seq<BoneNode>)
    requires k <= |b.children|
    ensures |cs| == k
    decreases b, k
  {
    if k == 0 then [] else CalculatedOf(b, pose, k - 1) + [Calculated(b.children[k - 1], Some(pose))]
  }

  lemma {:induction false} CalculatedOfAt(b: BoneNode, pose: Mat, k: nat, j: nat)
    requires j < k <= |b.children|
    ensures CalculatedOf(b, pose, k)[j] == Calculated(b.children[j], Some(pose))
    decreases k
  {
    if j < k - 1 {
      CalculatedOfAt(b, pose, k - 1, j);
    }
  }

  /** A calculated bone's children are its children calculated under its pose. */
  lemma CalculatedChild(b: BoneNode, parent: Option<Mat>, j: nat)
    requires j < |b.children|
    ensures Calculated(b, parent).children[j] == Calculated(b.children[j], Some(Pose(b, parent)))
  {
    CalculatedOfAt(b, Pose(b, parent), |b.children|, j);
  }

  /** The glUniformMatrix4fv calls of a calculated tree: (bone id, matrix), children first. */
  function Uploads(t: BoneNode): (u: seq<(nat, Mat)>)
    ensures |u| >= 1 && u[|u| - 1] == (t.id, t.transform)
    decreases t, |t.children| + 1
  {
    UploadsOf(t, |t.children|) + [(t.id, t.transform)]
  }

  /** The uploads of the first k children of t, one after the other. */
  function UploadsOf(t: BoneNode, k: nat): seq<(nat, Mat)>
    requires k <= |t.children|
    decreases t, k
  {
    if k == 0 then [] else UploadsOf(t, k - 1) + Uploads(t.children[k - 1])
  }

  /** Bone::calculateBoneMatrix: the new tree and the uniform uploads, in call order. */
  method CalculateBoneMatrix(b: BoneNode, parent: Option<Mat>) returns (r: BoneNode, uploads: seq<(nat, Mat)>)
    ensures r == Calculated(b, parent) && uploads == Uploads(r)
    decreases b
  {
    var pose := Pose(b, parent);
    ghost var result := Calculated(b, parent);
    var done: seq<BoneNode> := [];
    uploads := [];
    var i := 0;
    while i < |b.children|
      invariant 0 <= i <= |b.children|
      invariant done == CalculatedOf(b, pose, i)
      invariant uploads == UploadsOf(result, i)
    {
      var c, u := CalculateBoneMatrix(b.children[i], Some(pose));
      CalculatedChild(b, parent, i);
      done, uploads := done + [c], uploads + u;
      i := i + 1;
    }
    r := b.(transform := Times(pose, b.modelInv), children := done);
    uploads := uploads + [(b.id, r.transform)];
  }

  /** The calculated tree has the ids, in the same places, of the tree it was computed from. */
  lemma {:induction false} CalculatedKeepsIds(b: BoneNode, parent: Option<Mat>)
    ensures Preorder(Calculated(b, parent)) == Preorder(b)
    ensures Postorder(Calculated(b, parent)) == Postorder(b)
    decreases b, |b.children| + 1
  {
    CalculatedKeepsIdsOf(b, parent, |b.children|);
  }

  lemma {:induction false} CalculatedKeepsIdsOf(b: BoneNode, parent: Option<Mat>, k: nat)
    requires k <= |b.children|
    ensures PreorderOf(Calculated(b, parent), k) == PreorderOf(b, k)
    ensures PostorderOf(Calculated(b, parent), k) == PostorderOf(b, k)
    decreases b, k
  {
    if k > 0 {
      CalculatedKeepsIdsOf(b, parent, k - 1);
      CalculatedChild(b, parent, k - 1);
      CalculatedKeepsIds(b.children[k - 1], Some(Pose(b, parent)));
    }
  }

  /** The uniforms are uploaded bone by bone in postorder. */
  lemma {:induction false} UploadsInPostorder(t: BoneNode)
    ensures |Uploads(t)| == |Postorder(t)|
    ensures forall k :: 0 <= k < |Uploads(t)| ==> Uploads(t)[k].0 == Postorder(t)[k]
    decreases t, |t.children| + 1
  {
    UploadsInPostorderOf(t, |t.children|);
  }

  lemma {:induction false} UploadsInPostorderOf(t: BoneNode, n: nat)
    requires n <= |t.children|
    ensures |UploadsOf(t, n)| == |PostorderOf(t, n)|
    ensures forall k :: 0 <= k < |UploadsOf(t, n)| ==> UploadsOf(t, n)[k].0 == PostorderOf(t, n)[k]
    decreases t, n
  {
    if n > 0 {
      UploadsInPostorderOf(t, n - 1);
      UploadsInPostorder(t.children[n - 1]);
    }
  }

  // ---------------------------------------------------------------------------
  // Composition order along a path from the root
  // ---------------------------------------------------------------------------

  /** A path of child positions leads to a bone of t. */
  ghost predicate OnPath(t: BoneNode, path: seq<nat>) {
    path == [] || (path[0] < |t.children| && OnPath(t.children[path[0]], path[1..]))
  }

  /** The bones from t down the path, t first. */
  function PathBones(t: BoneNode, path: seq<nat>): (ns: seq<BoneNode>)
    requires OnPath(t, path)
    ensures |ns| == |path| + 1 && ns[0] == t
  {
    if path == [] then [t] else [t] + PathBones(t.children[path[0]], path[1..])
  }

  /** The bone the path leads to. */
  function BoneAt(t: BoneNode, path: seq<nat>): (b: BoneNode)
    requires OnPath(t, path)
  {
    if path == [] then t else BoneAt(t.children[path[0]], path[1..])
  }

  /** The chained pose of a line of bones: each contributes its L * R, starting from parent. */
  function Chain(parent: Option<Mat>, ns: seq<BoneNode>): (m: Mat)
    requires |ns| >= 1
    decreases |ns|
  {
    if |ns| == 1 then Pose(ns[0], parent)
    else Pose(ns[|ns| - 1], Some(Chain(parent, ns[..|ns| - 1])))
  }

  lemma {:induction false} ChainHead(parent: Option<Mat>, b: BoneNode, ns: seq<BoneNode>)
    requires |ns| >= 1
    ensures Chain(parent, [b] + ns) == Chain(Some(Pose(b, parent)), ns)
    decreases |ns|
  {
    if |ns| > 1 {
      assert ([b] + ns)[..|ns|] == [b] + ns[..|ns| - 1];
      ChainHead(parent, b, ns[..|ns| - 1]);
    }
  }

  /**
   * The transform calculateBoneMatrix leaves on a bone is the chain of L * R
   * of the bones from the root down to it, then that bone's own inverse
   * model matrix: an ancestor's inverse never enters a descendant's matrix.
   */
  lemma {:induction false} CalculatedAlongPath(t: BoneNode, parent: Option<Mat>, path: seq<nat>)
    requires OnPath(t, path)
    ensures OnPath(Calculated(t, parent), path)
    ensures BoneAt(Calculated(t, parent), path).transform
         == Times(Chain(parent, PathBones(t, path)), BoneAt(t, path).modelInv)
    decreases path
  {
    if path != [] {
      var c := t.children[path[0]];
      CalculatedChild(t, parent, path[0]);
      CalculatedAlongPath(c, Some(Pose(t, parent)), path[1..]);
      ChainHead(parent, t, PathBones(c, path[1..]));
    }
  }
}
