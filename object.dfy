/**
 * A drawable mesh object (source/Object.cpp): its placement, its material
 * groups, the materials they index, and the root of its bone tree.  Drawing
 * turns each group triple (first triangle, end triangle, material) into an
 * element range of the index buffer; the GL state changes around it are
 * the graphics driver's and are not part of the model.
 */
module EngineObject {
  import opened Bytes
  import opened Wrappers
  import opened AmdScene
  import opened EngineMaterial
  import opened EngineBone

  /** Object::createBoneHierarchy accepts at most this many bones. */
  const MAX_BONES: nat := 16

  /** Debug::showError reasons of this file; showError ends the process. */
  datatype ObjectError = TooManyBones

  /** One glDrawElements call: its material, its index count and its byte offset into the index buffer. */
  datatype DrawCall = DrawCall(material: nat, count: int, offset: int)

  /** The last bone among the first n whose parent is 0xFFFF, if any. */
  function LastRoot(bones: seq<BoneEntry>, n: nat): (r: Option<nat>)
    requires n <= |bones|
    ensures r.Some? ==> r.value < n && bones[r.value].parent == NO_PARENT
    ensures r.Some? ==> forall j :: r.value < j < n ==> bones[j].parent != NO_PARENT
    ensures r.None? ==> forall j :: 0 <= j < n ==> bones[j].parent != NO_PARENT
  {
    if n == 0 then None
    else if bones[n - 1].parent == NO_PARENT then Some(n - 1)
    else LastRoot(bones, n - 1)
  }

  /** The draw call group i makes, if its material index is in range. */
  function GroupDraw(groups: seq<U16>, i: nat, nmaterials: nat): (d: Option<DrawCall>)
    requires 3 * i + 3 <= |groups|
    ensures d.Some? <==> groups[3 * i + 2] < nmaterials
  {
    var first := groups[3 * i] as int * 3;
    var last := groups[3 * i + 1] as int * 3;
    if groups[3 * i + 2] < nmaterials then Some(DrawCall(groups[3 * i + 2], last - first, first * 2)) else None
  }

  /** The draw calls of the first n groups, in order. */
  function DrawCalls(groups: seq<U16>, n: nat, nmaterials: nat): (ds: seq<DrawCall>)
    requires 3 * n <= |groups|
    ensures |ds| <= n
  {
    if n == 0 then []
    else
      DrawCalls(groups, n - 1, nmaterials)
      + match GroupDraw(groups, n - 1, nmaterials) { case None => [] case Some(d) => [d] }
  }

  /** The groups, among the first n, whose material index is in range. */
  function DrawnGroups(groups: seq<U16>, n: nat, nmaterials: nat): (gs: seq<nat>)
    requires 3 * n <= |groups|
    ensures forall k :: 0 <= k < |gs| ==> gs[k] < n && groups[3 * gs[k] + 2] < nmaterials
  {
    if n == 0 then []
    else DrawnGroups(groups, n - 1, nmaterials) + (if groups[3 * (n - 1) + 2] < nmaterials then [n - 1] else [])
  }

  /**
   * There is one draw call per group whose material is in range, in group
   * order, and it draws that group's triangles, three indices per
   * triangle, from twice the first index in bytes; a group naming a
   * material past the end draws nothing.
   */
  lemma {:induction false} DrawCallsAreGroups(groups: seq<U16>, n: nat, nmaterials: nat)
    requires 3 * n <= |groups|
    ensures |DrawCalls(groups, n, nmaterials)| == |DrawnGroups(groups, n, nmaterials)|
    ensures forall k :: 0 <= k < |DrawnGroups(groups, n, nmaterials)| ==>
      var g := DrawnGroups(groups, n, nmaterials)[k];
      DrawCalls(groups, n, nmaterials)[k] == DrawCall(groups[3 * g + 2], 3 * (groups[3 * g + 1] as int - groups[3 * g]), 6 * (groups[3 * g] as int))
  {
    if n > 0 {
      DrawCallsAreGroups(groups, n - 1, nmaterials);
    }
  }

  /** Strictly increasing group numbers: DrawnGroups keeps group order. */
  lemma {:induction false} DrawnGroupsAscending(groups: seq<U16>, n: nat, nmaterials: nat)
    requires 3 * n <= |groups|
    ensures forall a, b :: 0 <= a < b < |DrawnGroups(groups, n, nmaterials)| ==>
      DrawnGroups(groups, n, nmaterials)[a] < DrawnGroups(groups, n, nmaterials)[b]
  {
    if n > 0 {
      DrawnGroupsAscending(groups, n - 1, nmaterials);
    }
  }

  class Object {
    var position: Vec3
    var angle: F32
    var axis: Vec3
    var scale: Vec3
    var groups: seq<U16>
    var ngroups: nat
    var materials: seq<Material>
    var nmaterials: nat
    var rootBone: Option<BoneNode>

    /** Object::Object: at the origin, unrotated about z, unit scale, no groups, materials or bones. */
    constructor ()
      ensures position == Vec3(ZERO, ZERO, ZERO) && angle == ZERO && axis == Vec3(ZERO, ZERO, ONE)
      ensures scale == Vec3(ONE, ONE, ONE)
      ensures groups == [] && ngroups == 0 && materials == [] && nmaterials == 0 && rootBone == None
    {
      position := Vec3(ZERO, ZERO, ZERO);
      angle := ZERO;
      axis := Vec3(ZERO, ZERO, ONE);
      scale := Vec3(ONE, ONE, ONE);
      groups := [];
      ngroups := 0;
      materials := [];
      nmaterials := 0;
      rootBone := None;
    }

    /** Object::setMaterialGroups: keeps what it is given, counts included, unchecked. */
    method SetMaterialGroups(groups: seq<U16>, ngroups: nat, materials: seq<Material>, nmaterials: nat)
      modifies this
      ensures this.groups == groups && this.ngroups == ngroups
      ensures this.materials == materials && this.nmaterials == nmaterials
      ensures position == old(position) && angle == old(angle) && axis == old(axis) && scale == old(scale)
      ensures rootBone == old(rootBone)
    {
      this.groups := groups;
      this.ngroups := ngroups;
      this.materials := materials;
      this.nmaterials := nmaterials;
    }

    /**
     * Object::createBoneHierarchy: more than sixteen bones is an error;
     * otherwise every bone whose parent is 0xFFFF grows a tree, and the
     * root bone is the last of them, the earlier trees being dropped.
     */
    method CreateBoneHierarchy(bones: seq<BoneEntry>, nbones: nat, ghost rank: seq<nat>) returns (r: Result<(), ObjectError>)
      requires nbones <= |bones| && Ranked(bones, rank)
      modifies this
      ensures r.Err? <==> nbones > MAX_BONES
      ensures r.Ok? ==> rootBone == match LastRoot(bones, nbones) {
        case None => old(rootBone)
        case Some(i) => Some(Grown(bones, NewBone(i).(dependant := true), rank))
      }
      ensures r.Err? ==> rootBone == old(rootBone)
      ensures groups == old(groups) && ngroups == old(ngroups) && materials == old(materials) && nmaterials == old(nmaterials)
      ensures position == old(position) && angle == old(angle) && axis == old(axis) && scale == old(scale)
    {
      if nbones > MAX_BONES {
        return Err(TooManyBones);
      }
      var i := 0;
      while i < nbones
        invariant 0 <= i <= nbones
        invariant rootBone == match LastRoot(bones, i) {
          case None => old(rootBone)
          case Some(k) => Some(Grown(bones, NewBone(k).(dependant := true), rank))
        }
        invariant groups == old(groups) && ngroups == old(ngroups) && materials == old(materials) && nmaterials == old(nmaterials)
        invariant position == old(position) && angle == old(angle) && axis == old(axis) && scale == old(scale)
      {
        if bones[i].parent == NO_PARENT {
          var root := NewBone(i);
          root := root.(dependant := true);
          root := CreateChildren(bones, root, rank);
          rootBone := Some(root);
        }
        i := i + 1;
      }
      r := Ok(());
    }

    /**
     * Object::draw: the bone matrices are recalculated from the root (the
     * engine dereferences the root without a check, so there must be one),
     * then each group in range of the materials is drawn.
     */
    method Draw() returns (calls: seq<DrawCall>, uploads: seq<(nat, Mat)>)
      requires rootBone.Some? && 3 * ngroups <= |groups|
      modifies this
      ensures groups == old(groups) && ngroups == old(ngroups) && materials == old(materials) && nmaterials == old(nmaterials)
      ensures position == old(position) && angle == old(angle) && axis == old(axis) && scale == old(scale)
      ensures calls == DrawCalls(groups, ngroups, nmaterials)
      ensures rootBone == Some(Calculated(old(rootBone).value, None)) && uploads == Uploads(rootBone.value)
    {
      var root, ups := CalculateBoneMatrix(rootBone.value, None);
      rootBone := Some(root);
      uploads := ups;
      calls := [];
      var i := 0;
      while i < ngroups
        invariant 0 <= i <= ngroups
        invariant calls == DrawCalls(groups, i, nmaterials)
      {
        var first := groups[i * 3 + 0] as int * 3;
        var last := groups[i * 3 + 1] as int * 3;
        var matIndex := groups[i * 3 + 2];
        if groups[i * 3 + 2] < nmaterials {
          calls := calls + [DrawCall(matIndex, last - first, first * 2)];
        }
        i := i + 1;
      }
    }
  }
}
