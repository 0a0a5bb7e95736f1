/**
 * The Blender scene as the AMD exporter sees it.  Everything the exporter
 * asks of Blender is an input here: the mesh objects with their triangulated
 * faces, the material table, the armatures and the animation actions.  The
 * host's floating-point and matrix arithmetic, and pose evaluation, are
 * given as functions (HostMath), since the exporter only copies or compares
 * their results.
 */
module AmdScene {
  import opened Bytes
  import opened Wrappers

  datatype Vec2 = Vec2(u: F32, v: F32)
  datatype Vec3 = Vec3(x: F32, y: F32, z: F32)
  datatype Quat = Quat(x: F32, y: F32, z: F32, w: F32)

  /** A 4x4 matrix; m[row][col] is at index 4 * row + col. */
  type Matrix4 = s: seq<F32> | |s| == 16
    witness [ZERO, ZERO, ZERO, ZERO, ZERO, ZERO, ZERO, ZERO, ZERO, ZERO, ZERO, ZERO, ZERO, ZERO, ZERO, ZERO]

  /**
   * A material of bpy.data.materials.  texture is the image path of the first
   * texture slot, or None when there is no first slot, it is empty, or it has
   * no image (the exporter's AttributeError branch).
   */
  datatype SceneMaterial = SceneMaterial(
    name: string,
    diffuseColor: Vec3, diffuseIntensity: F32, alpha: F32,
    specularColor: Vec3, specularIntensity: F32, specularAlpha: F32,
    ambient: F32,
    texture: Option<string>)

  /** One entry of a mesh vertex's `groups`: a vertex-group index and its weight. */
  datatype VertexGroup = VertexGroup(group: nat, weight: F32)

  /** One face corner: its vertex's position, normal and groups, and the corner's UV. */
  datatype Corner = Corner(position: Vec3, normal: Vec3, uv: Vec2, groups: seq<VertexGroup>)

  /** A face after triangulation: three corners and its material slot index. */
  datatype Face = Face(c0: Corner, c1: Corner, c2: Corner, materialIndex: nat)

  function Corners(f: Face): seq<Corner> {
    [f.c0, f.c1, f.c2]
  }

  /** What the exporter reads of a bone's parent: its name and its matrix_local. */
  datatype BoneLink = BoneLink(name: string, matrixLocal: Matrix4)

  /** An armature bone: name, parent, the names of its children and matrix_local. */
  datatype SceneBone = SceneBone(name: string, parent: Option<BoneLink>, children: seq<string>, matrixLocal: Matrix4)

  /**
   * An object of bpy.data.objects.  slots[i] is the name of the material in
   * material slot i, or None for an empty slot; armature is the bone list of
   * find_armature(), when there is one.
   */
  datatype SceneObject = SceneObject(
    isMesh: bool,
    faces: seq<Face>,
    hasUVLayer: bool,
    slots: seq<Option<string>>,
    armature: Option<seq<SceneBone>>,
    boundMax: Vec3,
    location: Vec3, rotation: Quat, scale: Vec3)

  /** An action: whether its id_root is 'OBJECT', and key.co.x of every keyframe point of every fcurve, in order. */
  datatype Action = Action(isObjectAction: bool, keyTimes: seq<F32>)

  datatype Scene = Scene(materials: seq<SceneMaterial>, objects: seq<SceneObject>, actions: seq<Action>, fps: int)

  /** A pose bone's parent-relative transform at one frame, decomposed. */
  datatype BonePose = BonePose(position: Vec3, rotation: Quat)

  /**
   * The host arithmetic the exporter calls: `1 - v` for the UV flip, matrix
   * inversion and product, and, for action a at frame t, the decomposed
   * getPoseBoneMatrix of every pose bone of the animated armature.
   */
  datatype HostMath = HostMath(
    flipV: F32 -> F32,
    inverted: Matrix4 -> Matrix4,
    mul: (Matrix4, Matrix4) -> Matrix4,
    pose: (nat, F32) -> seq<BonePose>)

  /** getBoneMatrix: a bone's bind matrix relative to its parent's. */
  function BoneMatrix(b: SceneBone, host: HostMath): Matrix4 {
    match b.parent
    case None => b.matrixLocal
    case Some(p) => host.mul(host.inverted(p.matrixLocal), b.matrixLocal)
  }

  function MaterialNames(ms: seq<SceneMaterial>): (names: seq<string>)
    ensures |names| == |ms| && forall i :: 0 <= i < |ms| ==> names[i] == ms[i].name
  {
    seq(|ms|, i requires 0 <= i < |ms| => ms[i].name)
  }

  function BoneNames(bs: seq<SceneBone>): (names: seq<string>)
    ensures |names| == |bs| && forall i :: 0 <= i < |bs| ==> names[i] == bs[i].name
  {
    seq(|bs|, i requires 0 <= i < |bs| => bs[i].name)
  }
}
