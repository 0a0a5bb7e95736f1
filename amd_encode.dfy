/**
 * The byte encoder of the AMD exporter: struct.pack in native mode on a
 * little-endian machine, and the material, object and bone records built
 * from it.
 *
 * A pack call whose value does not fit its format raises struct.error before
 * anything is written, and the exception ends the export.  Every encoder
 * therefore returns an Out: the bytes that reach the file, and the reason the
 * exporter stopped, if it did.
 */
module AmdEncode {
  import opened Bytes
  import opened Wrappers
  import opened AmdScene
  import opened AmdSearch
  import opened AmdMesh

  /** Why the exporter stopped before finishing the file. */
  datatype Stop =
    | PackRange              // struct.error: a value out of range for its format
    | Build(e: BuildError)   // the face loop of a mesh object stopped
    | NoArmatureObject       // ob.animation_data with ob = None raises AttributeError

  /** The bytes a stretch of the exporter writes, and whether it stopped. */
  datatype Out = Out(bytes: seq<Byte>, stop: Option<Stop>)

  function Done(b: seq<Byte>): Out {
    Out(b, None)
  }

  /** A pack call that raised: nothing written. */
  const FAIL: Out := Out([], Some(PackRange))

  /** a, then b unless a stopped. */
  function Then(a: Out, b: Out): Out {
    if a.stop.Some? then a else Out(a.bytes + b.bytes, b.stop)
  }

  /** `for x in xs: <write enc(x)>`, ending at the first item that stops. */
  function Each<T>(xs: seq<T>, enc: T -> Out): Out {
    if xs == [] then Done([]) else Then(Each(xs[..|xs| - 1], enc), enc(xs[|xs| - 1]))
  }

  /** Writing a, then b, appends Then(a, b) when a does not stop. */
  lemma ThenStep(pre: seq<Byte>, a: Out, b: Out)
    requires a.stop.None?
    ensures Then(a, b).stop == b.stop
    ensures pre + Then(a, b).bytes == (pre + a.bytes) + b.bytes
  {
  }

  lemma ThenAssoc(a: Out, b: Out, c: Out)
    ensures Then(Then(a, b), c) == Then(a, Then(b, c))
  {
  }

  /** One more item of a loop. */
  lemma EachSnoc<T>(xs: seq<T>, enc: T -> Out, i: nat)
    requires i < |xs|
    ensures Each(xs[..i + 1], enc) == Then(Each(xs[..i], enc), enc(xs[i]))
  {
    assert xs[..i + 1][..i] == xs[..i];
  }

  /** Once a loop has stopped, later items change nothing. */
  lemma {:induction false} EachStopped<T>(xs: seq<T>, enc: T -> Out, i: nat)
    requires i <= |xs|
    requires Each(xs[..i], enc).stop.Some?
    ensures Each(xs, enc) == Each(xs[..i], enc)
    decreases |xs| - i
  {
    if i < |xs| {
      EachSnoc(xs, enc, i);
      EachStopped(xs, enc, i + 1);
    } else {
      assert xs[..i] == xs;
    }
  }

  /** A loop finishes exactly when none of its items stops, and then it writes every item's bytes. */
  lemma {:induction false} EachFinishes<T>(xs: seq<T>, enc: T -> Out)
    ensures Each(xs, enc).stop.None? <==> forall i :: 0 <= i < |xs| ==> enc(xs[i]).stop.None?
    ensures |xs| > 0 && Each(xs, enc).stop.None? ==>
      Each(xs, enc).bytes == Each(xs[..|xs| - 1], enc).bytes + enc(xs[|xs| - 1]).bytes
  {
    if xs != [] {
      var init := xs[..|xs| - 1];
      EachFinishes(init, enc);
      assert forall i :: 0 <= i < |init| ==> init[i] == xs[i];
    }
  }

  // ---------------------------------------------------------------------------
  // struct.pack
  // ---------------------------------------------------------------------------

  /** struct.pack("@B", x) */
  function PackU8(x: int): (r: Out)
    ensures r.stop.None? <==> 0 <= x < 0x100
    ensures r.stop.None? ==> r.bytes == [x]
    ensures r.stop.Some? ==> r == FAIL
  {
    if 0 <= x < 0x100 then Done([x]) else FAIL
  }

  /** struct.pack("@H", x): the two bytes a reader decodes back to x. */
  function PackU16(x: int): (r: Out)
    ensures r.stop.None? <==> 0 <= x <= U16_MAX
    ensures r.stop.None? ==> |r.bytes| == 2 && FromLE16(r.bytes) == x
    ensures r.stop.Some? ==> r == FAIL
  {
    if 0 <= x <= U16_MAX then Done(LE16(x)) else FAIL
  }

  predicate AllU16(xs: seq<int>) {
    forall i :: 0 <= i < |xs| ==> 0 <= xs[i] <= U16_MAX
  }

  /** struct.pack("@HH...H", *xs): one call, so all fields are written or none. */
  function PackU16Tuple(xs: seq<int>): (r: Out)
    ensures r.stop.None? <==> AllU16(xs)
    ensures r.stop.None? ==> r.bytes == LE16s(xs)
    ensures r.stop.Some? ==> r == FAIL
  {
    if AllU16(xs) then Done(LE16s(xs)) else FAIL
  }

  /** struct.pack("@f...f", *fs): floats always fit. */
  function PackF32s(fs: seq<F32>): Out {
    Done(EncodeF32s(fs))
  }

  /** `for i in xs: f.write(struct.pack("@H", i))` */
  function PackU16Each(xs: seq<int>): Out {
    Each(xs, PackU16)
  }

  /** A u16 loop writes one two-byte field per item, up to the first item out of range. */
  lemma {:induction false} PackU16EachLayout(xs: seq<int>)
    ensures PackU16Each(xs).stop.None? <==> AllU16(xs)
    ensures PackU16Each(xs).stop.None? ==> PackU16Each(xs).bytes == LE16s(xs)
  {
    EachFinishes(xs, PackU16);
    if xs != [] && PackU16Each(xs).stop.None? {
      var init := xs[..|xs| - 1];
      PackU16EachLayout(init);
      LE16sSnoc(init, xs[|xs| - 1]);
      assert init + [xs[|xs| - 1]] == xs;
    }
  }

  lemma {:induction false} LE16sSnoc(xs: seq<U16>, x: U16)
    ensures LE16s(xs + [x]) == LE16s(xs) + LE16(x)
  {
    if xs != [] {
      assert (xs + [x])[1..] == xs[1..] + [x];
      LE16sSnoc(xs[1..], x);
    } else {
      assert LE16s([x]) == LE16(x) + LE16s([]);
    }
  }

  // ---------------------------------------------------------------------------
  // Vectors as float lists
  // ---------------------------------------------------------------------------

  function Vec2Floats(v: Vec2): seq<F32> {
    [v.u, v.v]
  }

  function Vec3Floats(v: Vec3): seq<F32> {
    [v.x, v.y, v.z]
  }

  /** The floats of a list of 3-vectors, x y z per vector. */
  function Vec3sFloats(vs: seq<Vec3>): (fs: seq<F32>)
    ensures |fs| == 3 * |vs|
  {
    if vs == [] then [] else Vec3Floats(vs[0]) + Vec3sFloats(vs[1..])
  }

  /** The floats of a list of 2-vectors, u v per vector. */
  function Vec2sFloats(vs: seq<Vec2>): (fs: seq<F32>)
    ensures |fs| == 2 * |vs|
  {
    if vs == [] then [] else Vec2Floats(vs[0]) + Vec2sFloats(vs[1..])
  }

  /** The inverse of Vec3sFloats: consecutive triples. */
  function FloatsVec3s(fs: seq<F32>): (vs: seq<Vec3>)
    requires |fs| % 3 == 0
    ensures |vs| == |fs| / 3
  {
    if fs == [] then [] else [Vec3(fs[0], fs[1], fs[2])] + FloatsVec3s(fs[3..])
  }

  /** The inverse of Vec2sFloats: consecutive pairs. */
  function FloatsVec2s(fs: seq<F32>): (vs: seq<Vec2>)
    requires |fs| % 2 == 0
    ensures |vs| == |fs| / 2
  {
    if fs == [] then [] else [Vec2(fs[0], fs[1])] + FloatsVec2s(fs[2..])
  }

  lemma {:induction false} Vec3sRoundTrip(vs: seq<Vec3>)
    ensures FloatsVec3s(Vec3sFloats(vs)) == vs
  {
    if vs != [] {
      var fs := Vec3sFloats(vs);
      assert fs[3..] == Vec3sFloats(vs[1..]);
      Vec3sRoundTrip(vs[1..]);
    }
  }

  lemma {:induction false} Vec2sRoundTrip(vs: seq<Vec2>)
    ensures FloatsVec2s(Vec2sFloats(vs)) == vs
  {
    if vs != [] {
      var fs := Vec2sFloats(vs);
      assert fs[2..] == Vec2sFloats(vs[1..]);
      Vec2sRoundTrip(vs[1..]);
    }
  }

  // ---------------------------------------------------------------------------
  // Materials
  // ---------------------------------------------------------------------------

  /** The 11 floats of a material: diffuse rgb, intensity, alpha; specular rgb, intensity, alpha; ambient. */
  function MaterialRecord(m: SceneMaterial): (fs: seq<F32>)
    ensures |fs| == 11
  {
    Vec3Floats(m.diffuseColor) + [m.diffuseIntensity, m.alpha]
    + Vec3Floats(m.specularColor) + [m.specularIntensity, m.specularAlpha]
    + [m.ambient]
  }

  /** os.path.basename on a POSIX host: what follows the last '/'. */
  function Basename(p: string): (r: string)
    ensures |r| <= |p| && r == p[|p| - |r|..]
    ensures '/' !in r
    ensures |r| < |p| ==> p[|p| - |r| - 1] == '/'
  {
    if p == [] || p[|p| - 1] == '/' then []
    else
      var init := Basename(p[..|p| - 1]);
      assert p[..|p| - 1][|p| - 1 - |init|..] + [p[|p| - 1]] == p[|p| - |init| - 1..];
      init + [p[|p| - 1]]
  }

  /** p.rfind('.') */
  function LastDot(p: string): (i: int)
    ensures -1 <= i < |p|
    ensures i >= 0 ==> p[i] == '.'
    ensures forall j :: i < j < |p| ==> p[j] != '.'
  {
    if p == [] then -1
    else if p[|p| - 1] == '.' then |p| - 1
    else LastDot(p[..|p| - 1])
  }

  /** Some character before position d is not a dot. */
  predicate NonDotBefore(p: string, d: int)
    requires d <= |p|
  {
    exists j :: 0 <= j < d && p[j] != '.'
  }

  /**
   * os.path.splitext(p)[0] for a p without '/': p up to its last dot, unless
   * there is no dot or only dots precede it (a leading-dot name has no
   * extension), in which case p itself.
   */
  function Stem(p: string): (r: string)
    ensures |r| <= |p| && r == p[..|r|]
    ensures |r| < |p| ==> p[|r|] == '.' && NonDotBefore(p, |r|)
    ensures |r| < |p| ==> forall j :: |r| < j < |p| ==> p[j] != '.'
  {
    var d := LastDot(p);
    if d >= 0 && NonDotBefore(p, d) then p[..d] else p
  }

  /** The file is split exactly when a dot follows some non-dot character. */
  lemma StemSplits(p: string)
    ensures |Stem(p)| < |p| <==> exists j, d :: 0 <= j < d < |p| && p[j] != '.' && p[d] == '.'
  {
    var d := LastDot(p);
    if exists j, e :: 0 <= j < e < |p| && p[j] != '.' && p[e] == '.' {
      var j, e :| 0 <= j < e < |p| && p[j] != '.' && p[e] == '.';
      assert e <= d;
      assert NonDotBefore(p, d);
    }
  }

  /** The name the exporter records for a texture image: base name, extension replaced by ".dds". */
  function TextureFileName(path: string): (name: string)
    ensures |name| >= 4 && name[|name| - 4..] == ".dds"
    ensures '/' !in name
  {
    var b := Basename(path);
    var s := Stem(b);
    assert forall k :: 0 <= k < |s| ==> s[k] == b[k];
    s + ".dds"
  }

  /** The texture field: u8 0 without an image; else the character count as u8 and the UTF-8 bytes. */
  function EncodeTexture(t: Option<string>): Out {
    match t
    case None => PackU8(0)
    case Some(path) =>
      var name := TextureFileName(path);
      Then(PackU8(|name|), Done(Utf8(name)))
  }

  /** The texture field's prefix counts characters, so it gives the length of the bytes exactly for ASCII names. */
  lemma TextureFieldLength(path: string)
    requires |TextureFileName(path)| < 0x100
    ensures var name := TextureFileName(path);
      && EncodeTexture(Some(path)) == Done([|name|] + Utf8(name))
      && (|name| == |Utf8(name)| <==> IsAscii(name))
  {
    Utf8LengthIsCharCount(TextureFileName(path));
  }

  /** One material: 11 floats, then the texture field. */
  function EncodeMaterial(m: SceneMaterial): Out {
    Then(PackF32s(MaterialRecord(m)), EncodeTexture(m.texture))
  }

  /** A material is cut short exactly when its texture name has more than 255 characters; the floats are written even then. */
  lemma EncodeMaterialStops(m: SceneMaterial)
    ensures EncodeMaterial(m).stop.Some? <==> m.texture.Some? && |TextureFileName(m.texture.value)| >= 0x100
    ensures EncodeMaterial(m).bytes[..44] == EncodeF32s(MaterialRecord(m))
  {
  }

  // ---------------------------------------------------------------------------
  // Objects
  // ---------------------------------------------------------------------------

  /** u16 vertex count, positions, texcoords, normals, u16 index count, the indices. */
  function EncodeBuffers(b: Buffers): Out {
    Then(PackU16(|b.vertices|),
    Then(PackF32s(Vec3sFloats(b.vertices) + Vec2sFloats(b.texcoords) + Vec3sFloats(b.normals)),
    Then(PackU16(|b.indices|),
    PackU16Each(b.indices))))
  }

  function GroupFields(g: Group): seq<int> {
    [g.start, g.end, g.material]
  }

  /** One group: a single @HHH call. */
  function GroupRecord(g: Group): Out {
    PackU16Tuple(GroupFields(g))
  }

  /** u8 group count, then one @HHH call per group. */
  function EncodeGroups(groups: seq<Group>): Out {
    Then(PackU8(|groups|), Each(groups, GroupRecord))
  }

  /** Bounding-box maximum, location, rotation quaternion x y z w, scale. */
  function TransformFloats(o: SceneObject): (fs: seq<F32>)
    ensures |fs| == 13
  {
    Vec3Floats(o.boundMax) + Vec3Floats(o.location)
    + [o.rotation.x, o.rotation.y, o.rotation.z, o.rotation.w]
    + Vec3Floats(o.scale)
  }

  /** The 16 floats of a matrix as written: m[j][i] with i outer, so column by column. */
  function ColumnMajor(m: Matrix4): (r: seq<F32>)
    ensures |r| == 16
    ensures forall i, j :: 0 <= i < 4 && 0 <= j < 4 ==> r[4 * i + j] == m[4 * j + i]
  {
    [m[0], m[4], m[8], m[12], m[1], m[5], m[9], m[13],
     m[2], m[6], m[10], m[14], m[3], m[7], m[11], m[15]]
  }

  /** Writing a matrix column by column transposes it: doing it twice gives the matrix back. */
  lemma ColumnMajorInvolution(m: Matrix4)
    ensures ColumnMajor(ColumnMajor(m)) == m
  {
  }

  /** A bone's parent field: its parent's position in the bone list, or 0xFFFF for a root. */
  function ParentField(bones: seq<SceneBone>, b: SceneBone): int {
    match b.parent
    case None => U16_MAX
    case Some(p) => IndexOfName(BoneNames(bones), p.name)
  }

  /** The positions of a bone's children in the bone list. */
  function ChildIds(bones: seq<SceneBone>, b: SceneBone): (ids: seq<int>)
    ensures |ids| == |b.children|
  {
    seq(|b.children|, i requires 0 <= i < |b.children| => IndexOfName(BoneNames(bones), b.children[i]))
  }

  /** One bone: parent, child count, children, bind matrix, inverse of matrix_local. */
  function EncodeBone(bones: seq<SceneBone>, b: SceneBone, host: HostMath): Out {
    Then(PackU16(ParentField(bones, b)),
    Then(PackU16(|b.children|),
    Then(PackU16Each(ChildIds(bones, b)),
    PackF32s(ColumnMajor(BoneMatrix(b, host)) + ColumnMajor(host.inverted(b.matrixLocal))))))
  }

  /** Entry i of a record, or 0 past its end (the face loop makes every record four long). */
  function At<T>(xs: seq<T>, i: nat, zero: T): T {
    if i < |xs| then xs[i] else zero
  }

  /** @ffff w[0], w[1], w[2], w[3] */
  function WeightFields(w: seq<F32>): seq<F32> {
    [At(w, 0, ZERO), At(w, 1, ZERO), At(w, 2, ZERO), At(w, 3, ZERO)]
  }

  /** @HHHH wb[0], wb[1], wb[2], wb[2]: the third bone id is written twice and the fourth never. */
  function BoneIdFields(wb: seq<nat>): (r: seq<int>)
    ensures |r| == 4 && r[3] == r[2]
  {
    [At(wb, 0, 0), At(wb, 1, 0), At(wb, 2, 0), At(wb, 2, 0)]
  }

  /** @ffff of one vertex's weights. */
  function WeightRecord(w: seq<F32>): Out {
    PackF32s(WeightFields(w))
  }

  /** @HHHH of one vertex's bone ids. */
  function BoneIdRecord(wb: seq<nat>): Out {
    PackU16Tuple(BoneIdFields(wb))
  }

  /** The bone loop's body, for the bones of one armature. */
  function BoneEncoder(bones: seq<SceneBone>, host: HostMath): SceneBone -> Out {
    (x: SceneBone) => EncodeBone(bones, x, host)
  }

  /** Without an armature a single u8 0; with one, the bone table, the weights and the bone ids. */
  function EncodeArmature(arm: Option<seq<SceneBone>>, b: Buffers, host: HostMath): Out {
    match arm
    case None => PackU8(0)
    case Some(bones) =>
      Then(PackU8(|bones|),
      Then(Each(bones, BoneEncoder(bones, host)),
      Then(Each(b.weights, WeightRecord),
      Each(b.weightBones, BoneIdRecord))))
  }

  /** One object record. */
  function EncodeObject(o: SceneObject, mesh: ObjectMesh, host: HostMath): Out {
    Then(EncodeBuffers(mesh.buffers),
    Then(EncodeGroups(mesh.groups),
    Then(PackF32s(TransformFloats(o)),
    EncodeArmature(o.armature, mesh.buffers, host))))
  }

  // ---------------------------------------------------------------------------
  // Properties of the records
  // ---------------------------------------------------------------------------

  /** When the bone count fits its u8, a root's 0xFFFF can never be a parent's position. */
  lemma ParentFieldUnambiguous(bones: seq<SceneBone>, b: SceneBone)
    requires |bones| < 0x100
    ensures ParentField(bones, b) == U16_MAX <==> b.parent.None?
    ensures b.parent.Some? ==> -1 <= ParentField(bones, b) < |bones|
  {
  }

  /** A parent or child that is not in the bone list makes its @H call raise. */
  lemma EncodeBoneStopsOnMissingParent(bones: seq<SceneBone>, b: SceneBone, host: HostMath)
    requires b.parent.Some? && b.parent.value.name !in BoneNames(bones)
    ensures EncodeBone(bones, b, host) == FAIL
  {
  }

  /** The weight record of a vertex with four groups loses the fourth bone id whenever it differs from the third. */
  lemma FourthBoneIdLost(gs: seq<VertexGroup>)
    requires |gs| == 4
    ensures var ids := BoneIdFields(PaddedBones(gs));
      ids[..3] == GroupIds(gs)[..3] && ids[3] == gs[2].group
  {
    var p := PaddedBones(gs);
    assert p[..4] == GroupIds(gs);
    assert p[2] == GroupIds(gs)[2];
  }

  /**
   * A group record raises exactly when one of its fields is outside 0..65535;
   * in particular a group whose slot names no material in bpy.data.materials
   * (matid -1) stops the export.
   */
  lemma GroupRecordStops(g: Group)
    ensures PackU16Tuple(GroupFields(g)).stop.Some? <==>
      !(0 <= g.start <= U16_MAX && 0 <= g.end <= U16_MAX && 0 <= g.material <= U16_MAX)
  {
    var f := GroupFields(g);
    assert f[0] == g.start && f[1] == g.end && f[2] == g.material;
  }
}
