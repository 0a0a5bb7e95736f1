/**
 * The exporter's `export` function: the file it writes, as a specification
 * (ExportSpec) and as the step-by-step writer (Export) proved to produce it.
 *
 * Layout: "AMD"; u8 material count and the material records; u8 mesh-object
 * count and the object records; then the animation section.  The exporter
 * closes the file only on its normal returns; when a face loop returns early
 * or an exception escapes, the bytes written so far stay in an unclosed file.
 */
module AmdExport {
  import opened Bytes
  import opened Wrappers
  import opened AmdScene
  import opened AmdMesh
  import opened AmdEncode
  import opened AmdFrames
  import opened FileIO

  /** bytes("AMD", "utf-8") */
  const MAGIC: seq<Byte> := [0x41, 0x4D, 0x44]

  // ---------------------------------------------------------------------------
  // Specification
  // ---------------------------------------------------------------------------

  /** The number of objects whose type is 'MESH'. */
  function CountMeshes(objs: seq<SceneObject>): (n: nat)
    ensures n <= |objs|
  {
    if objs == [] then 0
    else CountMeshes(objs[..|objs| - 1]) + (if objs[|objs| - 1].isMesh then 1 else 0)
  }

  /** The object loop: each mesh object's lists and groups, in order, or the first error. */
  function BuildMeshes(objs: seq<SceneObject>, materials: seq<SceneMaterial>, flip: F32 -> F32): Result<seq<(SceneObject, ObjectMesh)>, BuildError> {
    if objs == [] then Ok([])
    else
      match BuildMeshes(objs[..|objs| - 1], materials, flip)
      case Err(e) => Err(e)
      case Ok(done) =>
        var o := objs[|objs| - 1];
        if !o.isMesh then Ok(done)
        else match BuildObject(o, materials, flip)
          case Err(e) => Err(e)
          case Ok(mesh) => Ok(done + [(o, mesh)])
  }

  /** "AMD", the material count and the materials. */
  function HeaderOut(materials: seq<SceneMaterial>): Out {
    Then(Done(MAGIC), Then(PackU8(|materials|), Each(materials, EncodeMaterial)))
  }

  /** The object count and the objects. */
  function ObjectsOut(meshes: seq<(SceneObject, ObjectMesh)>, host: HostMath): Out {
    Then(PackU8(|meshes|), Each(meshes, ObjectEncoder(host)))
  }

  /** The object loop's body. */
  function ObjectEncoder(host: HostMath): ((SceneObject, ObjectMesh)) -> Out {
    (p: (SceneObject, ObjectMesh)) => EncodeObject(p.0, p.1, host)
  }

  /** The actions whose id_root is 'OBJECT'. */
  function CountObjectActions(actions: seq<Action>): (n: nat)
    ensures n <= |actions|
  {
    if actions == [] then 0
    else CountObjectActions(actions[..|actions| - 1]) + (if actions[|actions| - 1].isObjectAction then 1 else 0)
  }

  /**
   * What the armature search finds: None when there is no mesh object,
   * Some(None) when the first mesh object has no armature, else its bones.
   */
  function FirstMeshArmature(objs: seq<SceneObject>): Option<Option<seq<SceneBone>>> {
    if objs == [] then None
    else if objs[0].isMesh then Some(objs[0].armature)
    else FirstMeshArmature(objs[1..])
  }

  /** One bone's pose: position xyz, rotation xyzw. */
  function PoseBytes(ps: seq<BonePose>): (b: seq<Byte>)
    ensures |b| == 28 * |ps|
  {
    if ps == [] then []
    else
      var p := ps[0];
      EncodeF32s(Vec3Floats(p.position) + [p.rotation.x, p.rotation.y, p.rotation.z, p.rotation.w])
      + PoseBytes(ps[1..])
  }

  /** One frame: its time, then every pose bone of the animated armature. */
  function FrameRecord(action: nat, t: F32, host: HostMath): seq<Byte> {
    EncodeF32(t) + PoseBytes(host.pose(action, t))
  }

  /** One action: u16 frame count, then the frames in ascending order. */
  function ActionOut(action: nat, a: Action, host: HostMath): Out {
    var frames := FrameTimes(a.keyTimes);
    Then(PackU16(|frames|), Each(frames, FrameEncoder(action, host)))
  }

  /** The frame loop's body. */
  function FrameEncoder(action: nat, host: HostMath): F32 -> Out {
    (t: F32) => Done(FrameRecord(action, t, host))
  }

  /** The actions paired with their positions in bpy.data.actions. */
  function Indexed(actions: seq<Action>): (r: seq<(nat, Action)>)
    ensures |r| == |actions| && forall i :: 0 <= i < |r| ==> r[i] == (i, actions[i])
  {
    seq(|actions|, i requires 0 <= i < |actions| => (i, actions[i]))
  }

  function ActionsOut(actions: seq<Action>, host: HostMath): Out {
    Each(Indexed(actions), ActionEncoder(host))
  }

  /** The action loop's body. */
  function ActionEncoder(host: HostMath): ((nat, Action)) -> Out {
    (p: (nat, Action)) => ActionOut(p.0, p.1, host)
  }

  /**
   * The animation section.  u8 0 when there are several mesh objects and some
   * object action, or no object action.  Otherwise, when the first mesh
   * object has no armature, nothing.  Otherwise u8 action count, u8 fps and,
   * because the loop tests the variable `a` left by the counting loop (the
   * last action) instead of `action`, either every action or none.
   */
  function AnimationOut(scene: Scene, host: HostMath, nobjects: nat): Out {
    var nactions := CountObjectActions(scene.actions);
    if nobjects > 1 && nactions > 0 then PackU8(0)
    else if nactions == 0 then PackU8(0)
    else
      var ob := FirstMeshArmature(scene.objects);
      if ob == Some(None) then Done([])
      else
        var stale := scene.actions[|scene.actions| - 1];
        Then(PackU8(nactions), Then(PackU8(scene.fps),
          if !stale.isObjectAction then Done([])
          else if ob.None? then Out([], Some(NoArmatureObject))
          else ActionsOut(scene.actions, host)))
  }

  /** The whole file; the exporter closes it exactly when `stop` is None. */
  function ExportSpec(scene: Scene, host: HostMath): Out {
    Then(HeaderOut(scene.materials), BodyOut(scene, host))
  }

  /**
   * What follows the materials: nothing when an object fails to build (the
   * objects are written only after the whole object loop), else the objects
   * and the animation section.
   */
  function BodyOut(scene: Scene, host: HostMath): Out {
    match BuildMeshes(scene.objects, scene.materials, host.flipV)
    case Err(e) => Out([], Some(Build(e)))
    case Ok(meshes) => Then(ObjectsOut(meshes, host), AnimationOut(scene, host, CountMeshes(scene.objects)))
  }

  // ---------------------------------------------------------------------------
  // The writer
  // ---------------------------------------------------------------------------

  /** f.write(...) of the bytes of o; reports whether o stopped the export. */
  method WriteOut(f: OutFile, o: Out) returns (stopped: bool)
    requires !f.closed
    modifies f
    ensures !f.closed && f.data == old(f.data) + o.bytes
    ensures stopped == o.stop.Some?
  {
    f.Write(o.bytes);
    stopped := o.stop.Some?;
  }

  /** A `for` loop writing enc(x) for each x, leaving at the first item that stops. */
  method WriteEach<T>(f: OutFile, xs: seq<T>, enc: T -> Out) returns (stopped: bool)
    requires !f.closed
    modifies f
    ensures !f.closed && f.data == old(f.data) + Each(xs, enc).bytes
    ensures stopped == Each(xs, enc).stop.Some?
  {
    var i := 0;
    while i < |xs|
      invariant i <= |xs| && !f.closed
      invariant Each(xs[..i], enc).stop.None?
      invariant f.data == old(f.data) + Each(xs[..i], enc).bytes
    {
      EachSnoc(xs, enc, i);
      stopped := WriteOut(f, enc(xs[i]));
      if stopped {
        EachStopped(xs, enc, i + 1);
        return;
      }
      i := i + 1;
    }
    assert xs[..i] == xs;
    stopped := false;
  }

  /** The counting loop over bpy.data.objects. */
  method CountMeshObjects(objs: seq<SceneObject>) returns (n: nat)
    ensures n == CountMeshes(objs)
  {
    n := 0;
    var i := 0;
    while i < |objs|
      invariant i <= |objs| && n == CountMeshes(objs[..i])
    {
      assert objs[..i + 1][..i] == objs[..i];
      if objs[i].isMesh {
        n := n + 1;
      }
      i := i + 1;
    }
    assert objs[..i] == objs;
  }

  /** The object loop: build every mesh object's lists and groups, stopping at the first error. */
  method BuildMeshObjects(objs: seq<SceneObject>, materials: seq<SceneMaterial>, flip: F32 -> F32)
    returns (r: Result<seq<(SceneObject, ObjectMesh)>, BuildError>)
    ensures r == BuildMeshes(objs, materials, flip)
  {
    var done: seq<(SceneObject, ObjectMesh)> := [];
    var i := 0;
    while i < |objs|
      invariant i <= |objs| && BuildMeshes(objs[..i], materials, flip) == Ok(done)
    {
      assert objs[..i + 1][..i] == objs[..i];
      var obj := objs[i];
      if obj.isMesh {
        var built := BuildObjectBuffers(obj, materials, flip);
        if built.Err? {
          BuildMeshesErrorPersists(objs, materials, flip, i + 1);
          return Err(built.error);
        }
        done := done + [(obj, built.value)];
      }
      i := i + 1;
    }
    assert objs[..i] == objs;
    return Ok(done);
  }

  lemma {:induction false} BuildMeshesErrorPersists(objs: seq<SceneObject>, materials: seq<SceneMaterial>, flip: F32 -> F32, i: nat)
    requires i <= |objs|
    requires BuildMeshes(objs[..i], materials, flip).Err?
    ensures BuildMeshes(objs, materials, flip) == BuildMeshes(objs[..i], materials, flip)
    decreases |objs| - i
  {
    if i < |objs| {
      assert objs[..i + 1][..i] == objs[..i];
      BuildMeshesErrorPersists(objs, materials, flip, i + 1);
    } else {
      assert objs[..i] == objs;
    }
  }

  /** The object records, written field by field. */
  method WriteObject(f: OutFile, o: SceneObject, mesh: ObjectMesh, host: HostMath) returns (stopped: bool)
    requires !f.closed
    modifies f
    ensures !f.closed && f.data == old(f.data) + EncodeObject(o, mesh, host).bytes
    ensures stopped == EncodeObject(o, mesh, host).stop.Some?
  {
    var b := mesh.buffers;
    ghost var buffers := EncodeBuffers(b);
    ghost var groups := EncodeGroups(mesh.groups);
    var transform := PackF32s(TransformFloats(o));
    ghost var armature := EncodeArmature(o.armature, b, host);
    ghost var d0 := f.data;
    stopped := WriteBuffers(f, b);
    if stopped { return; }
    ghost var d1 := f.data;
    stopped := WriteGroups(f, mesh.groups);
    if !stopped {
      ghost var d2 := f.data;
      stopped := WriteOut(f, transform);
      ghost var d3 := f.data;
      stopped := WriteArmature(f, o.armature, b, host);
      ThenStep(d2, transform, armature);
      ThenStep(d1, groups, Then(transform, armature));
    }
    ThenStep(d0, buffers, Then(groups, Then(transform, armature)));
  }

  method WriteBuffers(f: OutFile, b: Buffers) returns (stopped: bool)
    requires !f.closed
    modifies f
    ensures !f.closed && f.data == old(f.data) + EncodeBuffers(b).bytes
    ensures stopped == EncodeBuffers(b).stop.Some?
  {
    var nv := PackU16(|b.vertices|);
    var floats := PackF32s(Vec3sFloats(b.vertices) + Vec2sFloats(b.texcoords) + Vec3sFloats(b.normals));
    var ni := PackU16(|b.indices|);
    ghost var d0 := f.data;
    stopped := WriteOut(f, nv);
    if stopped { return; }
    ghost var d1 := f.data;
    stopped := WriteOut(f, floats);
    ghost var d2 := f.data;
    stopped := WriteOut(f, ni);
    if !stopped {
      stopped := WriteEach<int>(f, b.indices, PackU16);
      ThenStep(d2, ni, PackU16Each(b.indices));
    }
    ThenStep(d1, floats, Then(ni, PackU16Each(b.indices)));
    ThenStep(d0, nv, Then(floats, Then(ni, PackU16Each(b.indices))));
  }

  method WriteGroups(f: OutFile, groups: seq<Group>) returns (stopped: bool)
    requires !f.closed
    modifies f
    ensures !f.closed && f.data == old(f.data) + EncodeGroups(groups).bytes
    ensures stopped == EncodeGroups(groups).stop.Some?
  {
    var count := PackU8(|groups|);
    ghost var d0 := f.data;
    stopped := WriteOut(f, count);
    if stopped { return; }
    stopped := WriteEach(f, groups, GroupRecord);
    ThenStep(d0, count, Each(groups, GroupRecord));
  }

  method WriteArmature(f: OutFile, arm: Option<seq<SceneBone>>, b: Buffers, host: HostMath) returns (stopped: bool)
    requires !f.closed
    modifies f
    ensures !f.closed && f.data == old(f.data) + EncodeArmature(arm, b, host).bytes
    ensures stopped == EncodeArmature(arm, b, host).stop.Some?
  {
    if arm.None? {
      stopped := WriteOut(f, PackU8(0));
      return;
    }
    var bones := arm.value;
    var count := PackU8(|bones|);
    ghost var table := Each(bones, BoneEncoder(bones, host));
    ghost var weights := Each(b.weights, WeightRecord);
    ghost var ids := Each(b.weightBones, BoneIdRecord);
    ghost var d0 := f.data;
    stopped := WriteOut(f, count);
    if stopped { return; }
    ghost var d1 := f.data;
    stopped := WriteEach(f, bones, BoneEncoder(bones, host));
    if !stopped {
      ghost var d2 := f.data;
      stopped := WriteEach(f, b.weights, WeightRecord);
      if !stopped {
        stopped := WriteEach(f, b.weightBones, BoneIdRecord);
        ThenStep(d2, weights, ids);
      }
      ThenStep(d1, table, Then(weights, ids));
    }
    ThenStep(d0, count, Then(table, Then(weights, ids)));
  }

  method WriteObjects(f: OutFile, meshes: seq<(SceneObject, ObjectMesh)>, host: HostMath) returns (stopped: bool)
    requires !f.closed
    modifies f
    ensures !f.closed && f.data == old(f.data) + ObjectsOut(meshes, host).bytes
    ensures stopped == ObjectsOut(meshes, host).stop.Some?
  {
    var enc := ObjectEncoder(host);
    var count := PackU8(|meshes|);
    ghost var d0 := f.data;
    stopped := WriteOut(f, count);
    if stopped { return; }
    ghost var mark := f.data;
    var i := 0;
    while i < |meshes|
      invariant i <= |meshes| && !f.closed
      invariant Each(meshes[..i], enc).stop.None?
      invariant f.data == mark + Each(meshes[..i], enc).bytes
    {
      EachSnoc(meshes, enc, i);
      ghost var d1 := f.data;
      stopped := WriteObject(f, meshes[i].0, meshes[i].1, host);
      assert enc(meshes[i]) == EncodeObject(meshes[i].0, meshes[i].1, host);
      ThenStep(mark, Each(meshes[..i], enc), enc(meshes[i]));
      if stopped {
        EachStopped(meshes, enc, i + 1);
        ThenStep(d0, count, Each(meshes, enc));
        return;
      }
      i := i + 1;
    }
    assert meshes[..i] == meshes;
    stopped := false;
    ThenStep(d0, count, Each(meshes, enc));
  }

  /** One action: collect its frame times, sort them, write them with the poses. */
  method WriteAction(f: OutFile, ai: nat, action: Action, host: HostMath) returns (stopped: bool)
    requires !f.closed
    modifies f
    ensures !f.closed && f.data == old(f.data) + ActionOut(ai, action, host).bytes
    ensures stopped == ActionOut(ai, action, host).stop.Some?
  {
    var frames := CollectFrames(action.keyTimes);
    var sorted := SortFrames(frames);
    var count := PackU16(|sorted|);
    ghost var d0 := f.data;
    stopped := WriteOut(f, count);
    if stopped { return; }
    stopped := WriteEach(f, sorted, FrameEncoder(ai, host));
    ThenStep(d0, count, Each(sorted, FrameEncoder(ai, host)));
  }

  /** The first mesh object's armature, as the search loop finds it. */
  method FindArmature(objs: seq<SceneObject>) returns (ob: Option<Option<seq<SceneBone>>>)
    ensures ob == FirstMeshArmature(objs)
  {
    var i := 0;
    while i < |objs|
      invariant i <= |objs| && FirstMeshArmature(objs) == FirstMeshArmature(objs[i..])
    {
      if objs[i].isMesh {
        return Some(objs[i].armature);
      }
      assert objs[i..][1..] == objs[i + 1..];
      i := i + 1;
    }
    return None;
  }

  method CountActions(actions: seq<Action>) returns (n: nat)
    ensures n == CountObjectActions(actions)
  {
    n := 0;
    var i := 0;
    while i < |actions|
      invariant i <= |actions| && n == CountObjectActions(actions[..i])
    {
      assert actions[..i + 1][..i] == actions[..i];
      if actions[i].isObjectAction {
        n := n + 1;
      }
      i := i + 1;
    }
    assert actions[..i] == actions;
  }

  /** The loop body for one action and its position. */
  method WriteIndexedAction(f: OutFile, p: (nat, Action), host: HostMath) returns (stopped: bool)
    requires !f.closed
    modifies f
    ensures !f.closed && f.data == old(f.data) + ActionEncoder(host)(p).bytes
    ensures stopped == ActionEncoder(host)(p).stop.Some?
  {
    stopped := WriteAction(f, p.0, p.1, host);
  }

  /**
   * The action loop.  Its test reads the stale `a`, which no iteration
   * changes: either every iteration runs the body or none does, and with no
   * mesh object the first body fails on `ob.animation_data`.
   */
  method WriteActions(f: OutFile, actions: seq<Action>, staleIsObject: bool, ob: Option<Option<seq<SceneBone>>>, host: HostMath)
    returns (stopped: bool)
    requires !f.closed
    requires actions != [] && ob != Some(None)
    modifies f
    ensures !f.closed
    ensures !staleIsObject ==> f.data == old(f.data) && !stopped
    ensures staleIsObject && ob.None? ==> f.data == old(f.data) && stopped
    ensures staleIsObject && ob.Some? ==>
      f.data == old(f.data) + ActionsOut(actions, host).bytes && stopped == ActionsOut(actions, host).stop.Some?
  {
    if !staleIsObject {
      return false;
    }
    if ob.None? {
      return true;
    }
    var enc := ActionEncoder(host);
    var ix := Indexed(actions);
    ghost var d0 := f.data;
    var i := 0;
    while i < |ix|
      invariant i <= |ix| && !f.closed
      invariant Each(ix[..i], enc).stop.None?
      invariant f.data == d0 + Each(ix[..i], enc).bytes
    {
      EachSnoc(ix, enc, i);
      stopped := WriteIndexedAction(f, ix[i], host);
      ThenStep(d0, Each(ix[..i], enc), enc(ix[i]));
      if stopped {
        EachStopped(ix, enc, i + 1);
        return;
      }
      i := i + 1;
    }
    assert ix[..i] == ix;
    stopped := false;
  }

  method WriteAnimation(f: OutFile, scene: Scene, host: HostMath, nobjects: nat) returns (stopped: bool)
    requires !f.closed
    modifies f
    ensures !f.closed && f.data == old(f.data) + AnimationOut(scene, host, nobjects).bytes
    ensures stopped == AnimationOut(scene, host, nobjects).stop.Some?
  {
    var nactions := CountActions(scene.actions);
    if nobjects > 1 && nactions > 0 {
      stopped := WriteOut(f, PackU8(0));
      return;
    }
    if nactions == 0 {
      stopped := WriteOut(f, PackU8(0));
      return;
    }
    var ob := FindArmature(scene.objects);
    if ob == Some(None) {
      // "No armature found for animated object"
      return false;
    }
    var count := PackU8(nactions);
    var fps := PackU8(scene.fps);
    var a := scene.actions[|scene.actions| - 1];
    ghost var records := if !a.isObjectAction then Done([])
                         else if ob.None? then Out([], Some(NoArmatureObject))
                         else ActionsOut(scene.actions, host);
    ghost var d0 := f.data;
    stopped := WriteOut(f, count);
    if stopped { return; }
    ghost var d1 := f.data;
    stopped := WriteOut(f, fps);
    if !stopped {
      stopped := WriteActions(f, scene.actions, a.isObjectAction, ob, host);
      ThenStep(d1, fps, records);
    }
    ThenStep(d0, count, Then(fps, records));
  }

  /** "AMD", the material count and the materials. */
  method WriteHeader(f: OutFile, materials: seq<SceneMaterial>) returns (stopped: bool)
    requires !f.closed
    modifies f
    ensures !f.closed && f.data == old(f.data) + HeaderOut(materials).bytes
    ensures stopped == HeaderOut(materials).stop.Some?
  {
    var count := PackU8(|materials|);
    ghost var records := Each(materials, EncodeMaterial);
    ghost var d0 := f.data;
    f.Write(MAGIC);
    ghost var d1 := f.data;
    stopped := WriteOut(f, count);
    if !stopped {
      stopped := WriteEach(f, materials, EncodeMaterial);
      ThenStep(d1, count, records);
    }
    ThenStep(d0, Done(MAGIC), Then(count, records));
  }

  /** The object loop, then the objects and the animation section. */
  method WriteBody(f: OutFile, scene: Scene, host: HostMath, nobjects: nat) returns (stopped: bool)
    requires !f.closed && nobjects == CountMeshes(scene.objects)
    modifies f
    ensures !f.closed && f.data == old(f.data) + BodyOut(scene, host).bytes
    ensures stopped == BodyOut(scene, host).stop.Some?
  {
    var built := BuildMeshObjects(scene.objects, scene.materials, host.flipV);
    if built.Err? {
      return true;
    }
    ghost var objects := ObjectsOut(built.value, host);
    ghost var animation := AnimationOut(scene, host, nobjects);
    ghost var d0 := f.data;
    stopped := WriteObjects(f, built.value, host);
    if !stopped {
      stopped := WriteAnimation(f, scene, host, nobjects);
      ThenStep(d0, objects, animation);
    }
  }

  /**
   * export(): the bytes of the file and whether it was closed, for a scene
   * and the host's arithmetic.
   */
  method Export(scene: Scene, host: HostMath) returns (f: OutFile)
    ensures fresh(f)
    ensures f.data == ExportSpec(scene, host).bytes
    ensures f.closed <==> ExportSpec(scene, host).stop.None?
  {
    f := new OutFile.Create();
    var nobjects := CountMeshObjects(scene.objects);
    var stopped := WriteHeader(f, scene.materials);
    if !stopped {
      stopped := WriteBody(f, scene, host, nobjects);
      ThenStep([], HeaderOut(scene.materials), BodyOut(scene, host));
    }
    if !stopped {
      f.Close();
    }
  }
}
