/**
 * A skeletal-animation keyframe (source/Keyframe.cpp): its instant, and for
 * every bone a position and a rotation unpacked from a float record of
 * seven floats per bone, position x y z then the four quaternion floats in
 * the order they are stored.  The record is the one the exporter writes
 * for each bone of a frame, after the frame's time.
 */
module EngineKeyframe {
  import opened Bytes
  import opened AmdScene
  import opened AmdEncode
  import opened AmdExport

  /** Floats per bone in a frame record. */
  const STRIDE: nat := 7

  /** make_vec3(&data[7i]): bone i's position. */
  function PositionAt(data: seq<F32>, i: nat): (p: Vec3)
    requires STRIDE * i + 3 <= |data|
    ensures p.x == data[STRIDE * i] && p.z == data[STRIDE * i + 2]
  {
    Vec3(data[STRIDE * i], data[STRIDE * i + 1], data[STRIDE * i + 2])
  }

  /** make_quat(&data[7i + 3]): bone i's rotation, the four floats in memory order. */
  function RotationAt(data: seq<F32>, i: nat): (q: Quat)
    requires STRIDE * i + STRIDE <= |data|
    ensures q.x == data[STRIDE * i + 3] && q.w == data[STRIDE * i + 6]
  {
    Quat(data[STRIDE * i + 3], data[STRIDE * i + 4], data[STRIDE * i + 5], data[STRIDE * i + 6])
  }

  /** One bone's pose as the seven floats the exporter packs. */
  function PoseRecord(p: BonePose): (fs: seq<F32>)
    ensures |fs| == STRIDE
  {
    Vec3Floats(p.position) + [p.rotation.x, p.rotation.y, p.rotation.z, p.rotation.w]
  }

  /** The float form of a frame's bone poses. */
  function PoseFloats(ps: seq<BonePose>): (fs: seq<F32>)
    ensures |fs| == STRIDE * |ps|
  {
    if ps == [] then [] else PoseRecord(ps[0]) + PoseFloats(ps[1..])
  }

  /** The bytes the exporter writes for a frame's poses are those floats, little-endian. */
  lemma {:induction false} PoseBytesAreFloats(ps: seq<BonePose>)
    ensures PoseBytes(ps) == EncodeF32s(PoseFloats(ps))
  {
    if ps != [] {
      PoseBytesAreFloats(ps[1..]);
      EncodeF32sAppend(PoseRecord(ps[0]), PoseFloats(ps[1..]));
    }
  }

  /** A frame record read back as floats: the frame's time, then its poses. */
  lemma FrameRecordFloats(action: nat, t: F32, host: HostMath)
    ensures var ps := host.pose(action, t);
      |FrameRecord(action, t, host)| == 4 * (1 + STRIDE * |ps|)
      && DecodeF32s(FrameRecord(action, t, host), 1 + STRIDE * |ps|) == [t] + PoseFloats(ps)
  {
    var ps := host.pose(action, t);
    PoseBytesAreFloats(ps);
    EncodeF32sAppend([t], PoseFloats(ps));
    assert EncodeF32s([t]) == EncodeF32(t);
    DecodeEncodeF32s([t] + PoseFloats(ps), []);
    assert FrameRecord(action, t, host) + [] == EncodeF32s([t] + PoseFloats(ps));
  }

  /** Bone i of a pose record is found 7i floats in, whatever follows the record. */
  lemma {:induction false} UnpackPoseFloats(ps: seq<BonePose>, rest: seq<F32>, i: nat)
    requires i < |ps|
    ensures PositionAt(PoseFloats(ps) + rest, i) == ps[i].position
    ensures RotationAt(PoseFloats(ps) + rest, i) == ps[i].rotation
  {
    var data := PoseFloats(ps) + rest;
    if i == 0 {
      assert data[..STRIDE] == PoseRecord(ps[0]);
    } else {
      UnpackPoseFloats(ps[1..], rest, i - 1);
      assert data[STRIDE..] == PoseFloats(ps[1..]) + rest;
    }
  }

  class Keyframe {
    const instant: F32
    const nmatrices: nat
    const pos: array<Vec3>
    const rot: array<Quat>

    /**
     * Keyframe::Keyframe: keeps the instant and the bone count, and reads
     * exactly 7 * nbones floats of data, seven per bone.
     */
    constructor (instant: F32, data: seq<F32>, nbones: nat)
      requires STRIDE * nbones <= |data|
      ensures this.instant == instant && nmatrices == nbones
      ensures fresh(pos) && fresh(rot) && pos.Length == nbones && rot.Length == nbones
      ensures forall i :: 0 <= i < nbones ==> pos[i] == PositionAt(data, i) && rot[i] == RotationAt(data, i)
    {
      this.instant := instant;
      nmatrices := nbones;
      pos := new Vec3[nbones](_ => Vec3(ZERO, ZERO, ZERO));
      rot := new Quat[nbones](_ => Quat(ZERO, ZERO, ZERO, ZERO));
      new;
      var i := 0;
      while i < nbones
        invariant 0 <= i <= nbones
        invariant forall k :: 0 <= k < i ==> pos[k] == PositionAt(data, k) && rot[k] == RotationAt(data, k)
      {
        pos[i] := PositionAt(data, i);
        rot[i] := RotationAt(data, i);
        i := i + 1;
      }
    }

    method GetInstant() returns (t: F32)
      ensures t == instant
    {
      t := instant;
    }

    /** getPosition: no bounds check in the engine, so the caller must stay in range. */
    method GetPosition(index: int) returns (p: Vec3)
      requires 0 <= index < pos.Length
      ensures p == pos[index]
    {
      p := pos[index];
    }

    method GetRotation(index: int) returns (q: Quat)
      requires 0 <= index < rot.Length
      ensures q == rot[index]
    {
      q := rot[index];
    }
  }

  /**
   * A keyframe built from the poses of an exported frame holds exactly those
   * poses: the seven-float stride of the engine matches the exporter's.
   */
  method KeyframeOfPoses(t: F32, ps: seq<BonePose>) returns (k: Keyframe)
    ensures k.instant == t && k.nmatrices == |ps|
    ensures k.pos.Length == |ps| && k.rot.Length == |ps|
    ensures forall i :: 0 <= i < |ps| ==> k.pos[i] == ps[i].position && k.rot[i] == ps[i].rotation
  {
    k := new Keyframe(t, PoseFloats(ps), |ps|);
    forall i | 0 <= i < |ps|
      ensures PositionAt(PoseFloats(ps), i) == ps[i].position && RotationAt(PoseFloats(ps), i) == ps[i].rotation
    {
      UnpackPoseFloats(ps, [], i);
      assert PoseFloats(ps) + [] == PoseFloats(ps);
    }
  }
}
