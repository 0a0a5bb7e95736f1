/** What the exporter's output is, whatever the scene. */
module AmdExportProps {
  import opened Bytes
  import opened Wrappers
  import opened AmdScene
  import opened AmdMesh
  import opened AmdEncode
  import opened AmdExport
  import AmdFrames

  /** Every file, complete or not, starts with the three signature bytes. */
  lemma ExportStartsWithMagic(scene: Scene, host: HostMath)
    ensures |ExportSpec(scene, host).bytes| >= 3
    ensures ExportSpec(scene, host).bytes[..3] == MAGIC
  {
    var h := HeaderOut(scene.materials);
    assert h.bytes[..3] == MAGIC;
    assert ExportSpec(scene, host).bytes[..3] == h.bytes[..3];
  }

  /** More than 255 materials: the count's pack fails after "AMD", and the file stays open. */
  lemma TooManyMaterials(scene: Scene, host: HostMath)
    requires |scene.materials| > 255
    ensures ExportSpec(scene, host) == Out(MAGIC, Some(PackRange))
  {
  }

  /**
   * An object that fails to build leaves "AMD" and the materials in an
   * unclosed file: the object count is never written.
   */
  lemma BuildErrorLeavesHeader(scene: Scene, host: HostMath, e: BuildError)
    requires HeaderOut(scene.materials).stop.None?
    requires BuildMeshes(scene.objects, scene.materials, host.flipV) == Err(e)
    ensures ExportSpec(scene, host) == Out(HeaderOut(scene.materials).bytes, Some(Build(e)))
  {
  }

  /** The build error is the one of some mesh object of the scene. */
  lemma {:induction false} BuildMeshesError(objs: seq<SceneObject>, materials: seq<SceneMaterial>, flip: F32 -> F32, e: BuildError)
    requires BuildMeshes(objs, materials, flip) == Err(e)
    ensures exists i :: 0 <= i < |objs| && objs[i].isMesh && BuildObject(objs[i], materials, flip) == Err(e)
  {
    var init := objs[..|objs| - 1];
    if BuildMeshes(init, materials, flip).Err? {
      BuildMeshesError(init, materials, flip, e);
      var i :| 0 <= i < |init| && init[i].isMesh && BuildObject(init[i], materials, flip) == Err(e);
      assert objs[i] == init[i];
    } else {
      assert BuildObject(objs[|objs| - 1], materials, flip) == Err(e);
    }
  }

  /**
   * A successful object loop yields one record per mesh object, each the
   * object's own build: the u8 object count written is the number of
   * records that follow.
   */
  lemma {:induction false} BuildMeshesRecords(objs: seq<SceneObject>, materials: seq<SceneMaterial>, flip: F32 -> F32, meshes: seq<(SceneObject, ObjectMesh)>)
    requires BuildMeshes(objs, materials, flip) == Ok(meshes)
    ensures |meshes| == CountMeshes(objs)
    ensures forall k :: 0 <= k < |meshes| ==>
      meshes[k].0 in objs && meshes[k].0.isMesh && BuildObject(meshes[k].0, materials, flip) == Ok(meshes[k].1)
  {
    if objs != [] {
      var init := objs[..|objs| - 1];
      var o := objs[|objs| - 1];
      var done: seq<(SceneObject, ObjectMesh)> :| BuildMeshes(init, materials, flip) == Ok(done);
      BuildMeshesRecords(init, materials, flip, done);
      forall k | 0 <= k < |done|
        ensures done[k].0 in objs
      {
        assert done[k].0 in init;
      }
      if o.isMesh {
        assert meshes == done + [(o, BuildObject(o, materials, flip).value)];
      }
    }
  }

  predicate NoMesh(objs: seq<SceneObject>) {
    forall i :: 0 <= i < |objs| ==> !objs[i].isMesh
  }

  lemma {:induction false} CountMeshesZero(objs: seq<SceneObject>)
    ensures CountMeshes(objs) == 0 <==> NoMesh(objs)
  {
    if objs != [] {
      var init := objs[..|objs| - 1];
      CountMeshesZero(init);
      if NoMesh(objs) {
        assert NoMesh(init);
      } else if NoMesh(init) {
        assert objs[|objs| - 1].isMesh;
      }
    }
  }

  lemma {:induction false} FirstMeshArmatureNone(objs: seq<SceneObject>)
    ensures FirstMeshArmature(objs).None? <==> NoMesh(objs)
  {
    if objs != [] && !objs[0].isMesh {
      FirstMeshArmatureNone(objs[1..]);
      if !NoMesh(objs) {
        var i :| 0 <= i < |objs| && objs[i].isMesh;
        assert objs[1..][i - 1] == objs[i];
      }
    }
  }

  /** The armature search comes back empty exactly when no object is counted as a mesh. */
  lemma ArmatureSearchEmpty(objs: seq<SceneObject>)
    ensures FirstMeshArmature(objs).None? <==> CountMeshes(objs) == 0
  {
    CountMeshesZero(objs);
    FirstMeshArmatureNone(objs);
  }

  /** What the search finds is the armature of the first mesh object. */
  lemma {:induction false} FirstMeshArmatureFound(objs: seq<SceneObject>, i: nat)
    requires i < |objs| && objs[i].isMesh
    requires forall j :: 0 <= j < i ==> !objs[j].isMesh
    ensures FirstMeshArmature(objs) == Some(objs[i].armature)
  {
    if i > 0 {
      assert !objs[0].isMesh;
      FirstMeshArmatureFound(objs[1..], i - 1);
    }
  }

  /** The animation section is a single 0 whenever the gating conditions hold. */
  lemma AnimationGated(scene: Scene, host: HostMath, nobjects: nat)
    requires var n := CountObjectActions(scene.actions); (nobjects > 1 && n > 0) || n == 0
    ensures AnimationOut(scene, host, nobjects) == Done([0])
  {
  }

  /** The first mesh object has no armature: the file ends with no animation byte. */
  lemma AnimationNoArmature(scene: Scene, host: HostMath, nobjects: nat)
    requires nobjects <= 1 && CountObjectActions(scene.actions) > 0
    requires FirstMeshArmature(scene.objects) == Some(None)
    ensures AnimationOut(scene, host, nobjects) == Done([])
  {
  }

  lemma {:induction false} CountObjectActionsAll(actions: seq<Action>)
    ensures CountObjectActions(actions) == |actions| <==>
      forall i :: 0 <= i < |actions| ==> actions[i].isObjectAction
  {
    if actions != [] {
      var init := actions[..|actions| - 1];
      CountObjectActionsAll(init);
      assert forall i :: 0 <= i < |init| ==> init[i] == actions[i];
    }
  }

  /**
   * The loop tests the last action instead of the current one.  When the last
   * action is not an object action, the section announces at least one action
   * and holds none.
   */
  lemma StaleTestWritesNoAction(scene: Scene, host: HostMath, nobjects: nat, bones: seq<SceneBone>)
    requires nobjects <= 1 && 0 < CountObjectActions(scene.actions) < 0x100 && 0 <= scene.fps < 0x100
    requires FirstMeshArmature(scene.objects) == Some(Some(bones))
    requires !scene.actions[|scene.actions| - 1].isObjectAction
    ensures AnimationOut(scene, host, nobjects) == Done([CountObjectActions(scene.actions), scene.fps])
  {
    var n: Byte := CountObjectActions(scene.actions);
    var fps: Byte := scene.fps;
    var tail := Then(PackU8(fps), Done([]));
    assert tail == Done([fps]);
    assert AnimationOut(scene, host, nobjects) == Then(PackU8(n), tail);
    var r := Then(Done([n]), Done([fps]));
    assert r.bytes == [n, fps];
  }

  /**
   * When the last action is an object action, every action gets a record,
   * object action or not: there are as many records as actions, which is the
   * announced count exactly when all actions are object actions.
   */
  lemma StaleTestWritesEveryAction(scene: Scene, host: HostMath, nobjects: nat, bones: seq<SceneBone>)
    requires nobjects <= 1 && 0 < CountObjectActions(scene.actions) < 0x100 && 0 <= scene.fps < 0x100
    requires FirstMeshArmature(scene.objects) == Some(Some(bones))
    requires scene.actions[|scene.actions| - 1].isObjectAction
    ensures AnimationOut(scene, host, nobjects)
         == Then(Done([CountObjectActions(scene.actions), scene.fps]), ActionsOut(scene.actions, host))
    ensures |Indexed(scene.actions)| == CountObjectActions(scene.actions) <==>
      forall i :: 0 <= i < |scene.actions| ==> scene.actions[i].isObjectAction
  {
    var n := CountObjectActions(scene.actions);
    var records := ActionsOut(scene.actions, host);
    assert AnimationOut(scene, host, nobjects) == Then(PackU8(n), Then(PackU8(scene.fps), records)) by {
      assert FirstMeshArmature(scene.objects) != Some(None);
    }
    AnimationCounts(n, scene.fps, records);
    CountObjectActionsAll(scene.actions);
  }

  /** The two count bytes followed by the records. */
  lemma AnimationCounts(n: int, fps: int, records: Out)
    requires 0 <= n < 0x100 && 0 <= fps < 0x100
    ensures Then(PackU8(n), Then(PackU8(fps), records)) == Then(Done([n, fps]), records)
  {
    assert [n as Byte] + ([fps as Byte] + records.bytes) == [n as Byte, fps as Byte] + records.bytes;
  }

  /** With no mesh object at all, an object action as last action stops the export after the two counts. */
  lemma AnimationWithoutMesh(scene: Scene, host: HostMath, nobjects: nat)
    requires nobjects <= 1 && 0 < CountObjectActions(scene.actions) < 0x100 && 0 <= scene.fps < 0x100
    requires NoMesh(scene.objects)
    requires scene.actions[|scene.actions| - 1].isObjectAction
    ensures AnimationOut(scene, host, nobjects) == Out([CountObjectActions(scene.actions), scene.fps], Some(NoArmatureObject))
  {
    FirstMeshArmatureNone(scene.objects);
  }

  /** An action record starts with its number of distinct key times. */
  lemma ActionFrameCount(ai: nat, a: Action, host: HostMath)
    requires |AmdFrames.FrameTimes(a.keyTimes)| <= U16_MAX
    ensures ActionOut(ai, a, host).stop.None?
    ensures FromLE16(ActionOut(ai, a, host).bytes[..2]) == |AmdFrames.FrameTimes(a.keyTimes)|
  {
    var frames := AmdFrames.FrameTimes(a.keyTimes);
    EachFinishes(frames, FrameEncoder(ai, host));
  }
}
