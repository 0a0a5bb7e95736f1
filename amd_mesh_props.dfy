/**
 * What the exporter's face loop guarantees: the shape of the buffers it
 * writes, where its material groups start and end, when it succeeds, and
 * the welding behaviour caused by storing V-flipped texcoords while looking
 * vertices up with the raw ones.
 */
module AmdMeshProps {
  import opened Bytes
  import opened Wrappers
  import opened AmdScene
  import opened AmdSearch
  import opened AmdMesh

  // ---------------------------------------------------------------------------
  // Buffer shape
  // ---------------------------------------------------------------------------

  lemma WeldCornerWellformed(b: Buffers, o: SceneObject, c: Corner, flip: F32 -> F32)
    requires |c.groups| <= 4 && Wellformed(b)
    ensures Wellformed(WeldCorner(b, o, c, flip))
    ensures |WeldCorner(b, o, c, flip).vertices| <= |b.vertices| + 1
  {
  }

  lemma {:induction false} WeldCornersWellformed(b: Buffers, o: SceneObject, cs: seq<Corner>, flip: F32 -> F32)
    requires Wellformed(b) && CornersFit(cs)
    ensures Wellformed(WeldCorners(b, o, cs, flip))
    ensures |WeldCorners(b, o, cs, flip).vertices| <= |b.vertices| + |cs|
  {
    if cs != [] {
      var init := cs[..|cs| - 1];
      assert CornersFit(init) by {
        forall i | 0 <= i < |init| ensures |init[i].groups| <= 4 {
          assert init[i] == cs[i];
        }
      }
      WeldCornersWellformed(b, o, init, flip);
      WeldCornerWellformed(WeldCorners(b, o, init, flip), o, cs[|cs| - 1], flip);
    }
  }

  /**
   * After any number of faces: every index names a stored vertex, there is
   * one texcoord and one normal per vertex, at most one four-slot weight
   * record (and bone record) per vertex, and no more vertices than indices.
   */
  lemma {:induction false} WeldFacesWellformed(o: SceneObject, flip: F32 -> F32, n: nat)
    requires n <= |o.faces| && FacesFit(o, n)
    ensures Wellformed(WeldFaces(o, flip, n))
    ensures |WeldFaces(o, flip, n).vertices| <= |WeldFaces(o, flip, n).indices|
  {
    if n > 0 {
      assert FacesFit(o, n - 1);
      assert FaceFits(o.faces[n - 1]);
      WeldFacesWellformed(o, flip, n - 1);
      WeldCornersWellformed(WeldFaces(o, flip, n - 1), o, Corners(o.faces[n - 1]), flip);
    }
  }

  /** The buffers of an exported object: three indices per face, and the shape above. */
  lemma BuildObjectShape(o: SceneObject, materials: seq<SceneMaterial>, flip: F32 -> F32)
    ensures BuildObject(o, materials, flip).Ok? ==>
      var b := BuildObject(o, materials, flip).value.buffers;
      && Wellformed(b)
      && |b.indices| == 3 * |o.faces|
      && |b.vertices| <= |b.indices|
  {
    if BuildObject(o, materials, flip).Ok? {
      WeldFacesWellformed(o, flip, |o.faces|);
    }
  }

  // ---------------------------------------------------------------------------
  // Material groups
  // ---------------------------------------------------------------------------

  /** The faces among the first n that open a group, in order. */
  function ChangePoints(faces: seq<Face>, n: nat): (cp: seq<nat>)
    requires n <= |faces|
    ensures forall k :: 0 <= k < |cp| ==> cp[k] < n && IsChange(faces, cp[k])
    ensures n > 0 ==> |cp| > 0 && cp[0] == 0
  {
    if n == 0 then []
    else ChangePoints(faces, n - 1) + (if IsChange(faces, n - 1) then [n - 1] else [])
  }

  /** The change points are exactly the faces that open a group, in increasing order. */
  lemma {:induction false} ChangePointsExact(faces: seq<Face>, n: nat)
    requires n <= |faces|
    ensures forall f :: 0 <= f < n && IsChange(faces, f) ==> f in ChangePoints(faces, n)
    ensures forall k, l :: 0 <= k < l < |ChangePoints(faces, n)| ==> ChangePoints(faces, n)[k] < ChangePoints(faces, n)[l]
  {
    if n > 0 {
      ChangePointsExact(faces, n - 1);
    }
  }

  /** Group g opens at face f and carries the material of f's slot. */
  ghost predicate OpensAt(g: Group, f: nat, o: SceneObject, materials: seq<SceneMaterial>) {
    f < |o.faces| && g.start == f && SlotMaterialID(o, o.faces[f].materialIndex, materials) == Ok(g.material)
  }

  /**
   * groups[k] opens at the k-th change face and ends one triangle after the
   * next group starts; the last group ends at lastEnd.
   */
  ghost predicate GroupsFollow(groups: seq<Group>, cp: seq<nat>, o: SceneObject, materials: seq<SceneMaterial>, lastEnd: int) {
    && |groups| == |cp|
    && (forall k :: 0 <= k < |cp| ==> OpensAt(groups[k], cp[k], o, materials))
    && (forall k :: 0 <= k < |cp| - 1 ==> groups[k].end == cp[k + 1] + 1)
    && (|cp| > 0 ==> groups[|cp| - 1].end == lastEnd)
  }

  /** Closing the last group and opening one at face n extends GroupsFollow by change point n. */
  lemma OpenGroupFollows(groups: seq<Group>, cp: seq<nat>, o: SceneObject, materials: seq<SceneMaterial>, n: nat, g: Group)
    requires GroupsFollow(groups, cp, o, materials, -1)
    requires OpensAt(g, n, o, materials) && g.end == -1
    ensures GroupsFollow((if |groups| > 0 then CloseLast(groups, n + 1) else groups) + [g], cp + [n], o, materials, -1)
  {
    var closed := if |groups| > 0 then CloseLast(groups, n + 1) else groups;
    var gs := closed + [g];
    var cp' := cp + [n];
    forall k | 0 <= k < |cp'|
      ensures OpensAt(gs[k], cp'[k], o, materials)
    {
      if k < |cp| {
        assert gs[k].start == groups[k].start && gs[k].material == groups[k].material;
        assert OpensAt(groups[k], cp[k], o, materials);
      }
    }
    forall k | 0 <= k < |cp'| - 1
      ensures gs[k].end == cp'[k + 1] + 1
    {
      if k < |cp| - 1 {
        assert gs[k] == groups[k];
      }
    }
  }

  /** Closing the open group at lastEnd keeps every other group and its end. */
  lemma CloseLastFollows(groups: seq<Group>, cp: seq<nat>, o: SceneObject, materials: seq<SceneMaterial>, lastEnd: int)
    requires groups != [] && GroupsFollow(groups, cp, o, materials, -1)
    ensures GroupsFollow(CloseLast(groups, lastEnd), cp, o, materials, lastEnd)
  {
    var gs := CloseLast(groups, lastEnd);
    forall k | 0 <= k < |cp|
      ensures OpensAt(gs[k], cp[k], o, materials)
    {
      assert gs[k].start == groups[k].start && gs[k].material == groups[k].material;
      assert OpensAt(groups[k], cp[k], o, materials);
    }
    forall k | 0 <= k < |cp| - 1
      ensures gs[k].end == cp[k + 1] + 1
    {
      assert gs[k] == groups[k];
    }
  }

  /** Face n opens a group: the open group is closed at n + 1 and one opening at n is appended. */
  lemma SwitchGroupOpens(o: SceneObject, materials: seq<SceneMaterial>, n: nat)
    requires n < |o.faces| && SlotsResolve(o, n + 1) && IsChange(o.faces, n)
    requires GroupsFollow(GroupsPrefix(o, materials, n).groups, ChangePoints(o.faces, n), o, materials, -1)
    ensures GroupsFollow(GroupsPrefix(o, materials, n + 1).groups, ChangePoints(o.faces, n + 1), o, materials, -1)
  {
    var prev := GroupsPrefix(o, materials, n);
    var cp := ChangePoints(o.faces, n);
    assert ChangePoints(o.faces, n + 1) == cp + [n];
    var f := o.faces[n];
    assert f.materialIndex != prev.currentMaterial;
    assert SlotResolvesAt(o, n);
    var g := Group(n, -1, SlotMaterialID(o, f.materialIndex, materials).value);
    var closed := if |prev.groups| > 0 then CloseLast(prev.groups, n + 1) else prev.groups;
    assert GroupsPrefix(o, materials, n + 1).groups == closed + [g];
    OpenGroupFollows(prev.groups, cp, o, materials, n, g);
  }

  /** Face n keeps the current material: the groups and the change points stay as they are. */
  lemma KeepGroupFollows(o: SceneObject, materials: seq<SceneMaterial>, n: nat)
    requires n < |o.faces| && SlotsResolve(o, n + 1) && !IsChange(o.faces, n)
    requires GroupsFollow(GroupsPrefix(o, materials, n).groups, ChangePoints(o.faces, n), o, materials, -1)
    ensures GroupsFollow(GroupsPrefix(o, materials, n + 1).groups, ChangePoints(o.faces, n + 1), o, materials, -1)
  {
    assert ChangePoints(o.faces, n + 1) == ChangePoints(o.faces, n);
    assert GroupsPrefix(o, materials, n + 1).groups == GroupsPrefix(o, materials, n).groups;
  }

  /**
   * After any number of faces, the groups open exactly at the change points,
   * with the slot's material, and each closed group ends one triangle after
   * the next one starts.
   */
  lemma {:induction false} GroupsInvariant(o: SceneObject, materials: seq<SceneMaterial>, n: nat)
    requires n <= |o.faces| && SlotsResolve(o, n)
    ensures GroupsFollow(GroupsPrefix(o, materials, n).groups, ChangePoints(o.faces, n), o, materials, -1)
    ensures n > 0 ==> GroupsPrefix(o, materials, n).groups != []
  {
    if n > 0 {
      assert SlotsResolve(o, n - 1);
      GroupsInvariant(o, materials, n - 1);
      if IsChange(o.faces, n - 1) {
        SwitchGroupOpens(o, materials, n - 1);
      } else {
        KeepGroupFollows(o, materials, n - 1);
      }
    }
  }

  /**
   * The groups written for an exported object: the first starts at triangle
   * 0, each starts at a face whose material index differs from the previous
   * face's, consecutive groups share one triangle, and the last ends at the
   * face count.
   */
  lemma BuildObjectGroups(o: SceneObject, materials: seq<SceneMaterial>, flip: F32 -> F32)
    ensures BuildObject(o, materials, flip).Ok? ==>
      var groups := BuildObject(o, materials, flip).value.groups;
      && GroupsFollow(groups, ChangePoints(o.faces, |o.faces|), o, materials, |o.faces|)
      && groups[0].start == 0
      && (forall k :: 0 <= k < |groups| - 1 ==> groups[k].end == groups[k + 1].start + 1)
  {
    if BuildObject(o, materials, flip).Ok? {
      GroupsInvariant(o, materials, |o.faces|);
      var b := WeldFaces(o, flip, |o.faces|);
      assert |b.indices| / 3 == |o.faces|;
      CloseLastFollows(GroupsPrefix(o, materials, |o.faces|).groups, ChangePoints(o.faces, |o.faces|), o, materials, |o.faces|);
    }
  }

  // ---------------------------------------------------------------------------
  // When the loop succeeds
  // ---------------------------------------------------------------------------

  /**
   * The loop runs to the end exactly when the object has faces, every corner
   * has at most four groups, and every face that changes material names a
   * filled slot.
   */
  lemma BuildObjectSucceeds(o: SceneObject, materials: seq<SceneMaterial>, flip: F32 -> F32)
    ensures BuildObject(o, materials, flip).Ok?
        <==> |o.faces| > 0 && FacesFit(o, |o.faces|) && SlotsResolve(o, |o.faces|)
  {
    var n := |o.faces|;
    var k := FirstBadFace(o, n);
    if k == n && n > 0 {
      GroupsInvariant(o, materials, n);
    }
    if k < n {
      assert IsBadFace(o, k);
    }
  }

  /** An object stops with TooManyInfluences only because some corner has more than four groups. */
  lemma TooManyInfluencesCause(o: SceneObject, materials: seq<SceneMaterial>, flip: F32 -> F32)
    ensures BuildObject(o, materials, flip) == Err(TooManyInfluences) ==> !FacesFit(o, |o.faces|)
    ensures !FacesFit(o, |o.faces|) ==> BuildObject(o, materials, flip).Err?
  {
    BuildObjectSucceeds(o, materials, flip);
    var k := FirstBadFace(o, |o.faces|);
    if BuildObject(o, materials, flip) == Err(TooManyInfluences) {
      assert !FaceFits(o.faces[k]);
    }
  }

  // ---------------------------------------------------------------------------
  // Welding
  // ---------------------------------------------------------------------------

  /**
   * A corner that has just been stored as a new vertex is welded to it when it
   * occurs again exactly when its V equals its flipped V under float ==: the
   * lookup compares the raw UV with the stored, flipped one.
   */
  lemma RepeatedCornerWelds(b: Buffers, o: SceneObject, c: Corner, flip: F32 -> F32)
    requires |c.groups| <= 4 && Aligned(b)
    requires VertexIndex(c.position, Texcoord(o, c), c.normal, b.vertices, b.texcoords, b.normals) == -1
    ensures
      var t := Texcoord(o, c);
      var b1 := WeldCorner(b, o, c, flip);
      var b2 := WeldCorner(b1, o, c, flip);
      && (b2.vertices == b1.vertices
          <==> SameVertex(c.position, t, c.normal, c.position, Vec2(t.u, flip(t.v)), c.normal))
      && (b2.vertices == b1.vertices ==> b2.indices == b1.indices + [|b.vertices|])
  {
    var t := Texcoord(o, c);
    var b1 := WeldCorner(b, o, c, flip);
    var n := |b.vertices|;
    VertexIndexFromFirst(c.position, t, c.normal, b.vertices, b.texcoords, b.normals, 0);
    VertexIndexFromFirst(c.position, t, c.normal, b1.vertices, b1.texcoords, b1.normals, 0);
    forall j | 0 <= j < n
      ensures !MatchesAt(c.position, t, c.normal, b1.vertices, b1.texcoords, b1.normals, j)
    {
      assert b1.vertices[j] == b.vertices[j] && b1.texcoords[j] == b.texcoords[j] && b1.normals[j] == b.normals[j];
      assert !MatchesAt(c.position, t, c.normal, b.vertices, b.texcoords, b.normals, j);
    }
    var same := SameVertex(c.position, t, c.normal, c.position, Vec2(t.u, flip(t.v)), c.normal);
    assert MatchesAt(c.position, t, c.normal, b1.vertices, b1.texcoords, b1.normals, n) == same;
    var j := VertexIndex(c.position, t, c.normal, b1.vertices, b1.texcoords, b1.normals);
    assert j == (if same then n else -1);
  }

  /**
   * With the real flip (1 - v maps 0.0 to 1.0), a corner whose V is 0 that
   * was just stored is not welded when it occurs again: it adds a vertex.
   */
  lemma ZeroVNeverWelds(b: Buffers, o: SceneObject, c: Corner, flip: F32 -> F32)
    requires |c.groups| <= 4 && Aligned(b)
    requires flip(ZERO) == ONE && Texcoord(o, c).v == ZERO
    requires VertexIndex(c.position, Texcoord(o, c), c.normal, b.vertices, b.texcoords, b.normals) == -1
    ensures
      var b1 := WeldCorner(b, o, c, flip);
      |WeldCorner(b1, o, c, flip).vertices| == |b1.vertices| + 1
  {
    RepeatedCornerWelds(b, o, c, flip);
    assert !FEq(ZERO, ONE);
  }
}
