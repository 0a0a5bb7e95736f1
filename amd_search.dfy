/**
 * The exporter's three linear searches (searchMaterialID, buscaVertex,
 * buscaBone).  Each scans from the front and returns the first index whose
 * entry matches, or -1.
 */
module AmdSearch {
  import opened Bytes
  import opened AmdScene

  /** The first position of name in names, or -1. */
  function IndexOfName(names: seq<string>, name: string): (r: int)
    ensures -1 <= r < |names|
    ensures r >= 0 ==> names[r] == name && forall j :: 0 <= j < r ==> names[j] != name
    ensures r == -1 ==> forall j :: 0 <= j < |names| ==> names[j] != name
  {
    if names == [] then -1
    else if names[0] == name then 0
    else
      var k := IndexOfName(names[1..], name);
      if k == -1 then -1 else k + 1
  }

  /** searchMaterialID: the position of the first material called name in bpy.data.materials. */
  method SearchMaterialID(materials: seq<SceneMaterial>, name: string) returns (r: int)
    ensures r == IndexOfName(MaterialNames(materials), name)
  {
    var i := 0;
    while i < |materials|
      invariant 0 <= i <= |materials|
      invariant forall j :: 0 <= j < i ==> materials[j].name != name
    {
      if materials[i].name == name {
        return i;
      }
      i := i + 1;
    }
    return -1;
  }

  /** buscaBone: the position of the first bone called name. */
  method BuscaBone(bones: seq<SceneBone>, name: string) returns (r: int)
    ensures r == IndexOfName(BoneNames(bones), name)
  {
    var index := 0;
    while index < |bones|
      invariant 0 <= index <= |bones|
      invariant forall j :: 0 <= j < index ==> bones[j].name != name
    {
      if bones[index].name == name {
        return index;
      }
      index := index + 1;
    }
    return -1;
  }

  /** The 8-component comparison of buscaVertex: position, normal and texcoord, each with float ==. */
  predicate SameVertex(v0: Vec3, t0: Vec2, n0: Vec3, v1: Vec3, t1: Vec2, n1: Vec3) {
    FEq(v0.x, v1.x) && FEq(v0.y, v1.y) && FEq(v0.z, v1.z) &&
    FEq(n0.x, n1.x) && FEq(n0.y, n1.y) && FEq(n0.z, n1.z) &&
    FEq(t0.u, t1.u) && FEq(t0.v, t1.v)
  }

  /** Entry j of the three parallel lists matches (v0, t0, n0). */
  predicate MatchesAt(v0: Vec3, t0: Vec2, n0: Vec3, vtx: seq<Vec3>, txc: seq<Vec2>, nrm: seq<Vec3>, j: nat)
    requires j < |vtx| <= |txc| && |vtx| <= |nrm|
  {
    SameVertex(v0, t0, n0, vtx[j], txc[j], nrm[j])
  }

  /** The first j >= i at which the lists match (v0, t0, n0), or -1. */
  function VertexIndexFrom(v0: Vec3, t0: Vec2, n0: Vec3, vtx: seq<Vec3>, txc: seq<Vec2>, nrm: seq<Vec3>, i: nat): (r: int)
    requires i <= |vtx| <= |txc| && |vtx| <= |nrm|
    ensures r == -1 || i <= r < |vtx|
    decreases |vtx| - i
  {
    if i == |vtx| then -1
    else if MatchesAt(v0, t0, n0, vtx, txc, nrm, i) then i
    else VertexIndexFrom(v0, t0, n0, vtx, txc, nrm, i + 1)
  }

  /** VertexIndexFrom finds the first match at or after i, and -1 means there is none. */
  lemma {:induction false} VertexIndexFromFirst(v0: Vec3, t0: Vec2, n0: Vec3, vtx: seq<Vec3>, txc: seq<Vec2>, nrm: seq<Vec3>, i: nat)
    requires i <= |vtx| <= |txc| && |vtx| <= |nrm|
    ensures var r := VertexIndexFrom(v0, t0, n0, vtx, txc, nrm, i);
      && (r >= 0 ==> MatchesAt(v0, t0, n0, vtx, txc, nrm, r))
      && (r >= 0 ==> forall j :: i <= j < r ==> !MatchesAt(v0, t0, n0, vtx, txc, nrm, j))
      && (r == -1 ==> forall j :: i <= j < |vtx| ==> !MatchesAt(v0, t0, n0, vtx, txc, nrm, j))
    decreases |vtx| - i
  {
    if i < |vtx| && !MatchesAt(v0, t0, n0, vtx, txc, nrm, i) {
      VertexIndexFromFirst(v0, t0, n0, vtx, txc, nrm, i + 1);
    }
  }

  function VertexIndex(v0: Vec3, t0: Vec2, n0: Vec3, vtx: seq<Vec3>, txc: seq<Vec2>, nrm: seq<Vec3>): int
    requires |vtx| <= |txc| && |vtx| <= |nrm|
  {
    VertexIndexFrom(v0, t0, n0, vtx, txc, nrm, 0)
  }

  /**
   * buscaVertex.  The texcoord and normal lists are indexed at every position
   * of the vertex list, so they must be at least as long.
   */
  method BuscaVertex(v0: Vec3, t0: Vec2, n0: Vec3, vtx: seq<Vec3>, txc: seq<Vec2>, nrm: seq<Vec3>) returns (r: int)
    requires |vtx| <= |txc| && |vtx| <= |nrm|
    ensures r == VertexIndex(v0, t0, n0, vtx, txc, nrm)
  {
    var i := 0;
    while i < |vtx|
      invariant 0 <= i <= |vtx|
      invariant VertexIndexFrom(v0, t0, n0, vtx, txc, nrm, i) == VertexIndex(v0, t0, n0, vtx, txc, nrm)
    {
      var v1, t1, n1 := vtx[i], txc[i], nrm[i];
      if SameVertex(v0, t0, n0, v1, t1, n1) {
        return i;
      }
      i := i + 1;
    }
    return -1;
  }
}
