/**
 * The exporter and the engine's loader together: a file exported from a
 * scene with one mesh object loads back as that scene's materials and that
 * object's arrays; with two or more mesh objects the loader, which reads no
 * transform and no armature, takes the first object's bounding box for the
 * second object's vertex count.
 */
module ExportRoundTrip {
  import opened Bytes
  import opened Wrappers
  import opened AmdScene
  import opened AmdMesh
  import opened AmdMeshProps
  import opened AmdEncode
  import opened AmdExport
  import opened AmdExportProps
  import opened EngineMaterial
  import opened ModelLoader
  import opened ModelRoundTrip
  import opened ObjectRoundTrip

  // ---------------------------------------------------------------------------
  // Layout of the exported file
  // ---------------------------------------------------------------------------

  /** Whatever follows an output that finishes, its bytes come first. */
  lemma ThenExtends(a: Out, b: Out) returns (rest: seq<Byte>)
    ensures Then(a, b).bytes == a.bytes + rest
  {
    rest := if a.stop.Some? then [] else b.bytes;
  }

  /** The loop over a non-empty list begins with the first item's bytes. */
  lemma {:induction false} EachFirst<T>(xs: seq<T>, enc: T -> Out) returns (rest: seq<Byte>)
    requires |xs| >= 1
    ensures Each(xs, enc).bytes == enc(xs[0]).bytes + rest
  {
    var init := xs[..|xs| - 1];
    if |xs| == 1 {
      assert init == [];
      rest := [];
      assert Each(xs, enc).bytes == [] + enc(xs[0]).bytes;
    } else {
      var r0 := EachFirst(init, enc);
      var r1 := ThenExtends(Each(init, enc), enc(xs[|xs| - 1]));
      rest := r0 + r1;
    }
  }

  /** The header: "AMD", the material count and the material records. */
  lemma HeaderBytes(ms: seq<SceneMaterial>)
    requires |ms| < 0x100 && forall m :: m in ms ==> LoadableName(m.texture)
    ensures HeaderOut(ms).stop.None?
    ensures HeaderOut(ms).bytes == SIGNATURE + [|ms|] + Each(ms, EncodeMaterial).bytes
  {
    forall i | 0 <= i < |ms| ensures EncodeMaterial(ms[i]).stop.None? {
      EncodedMaterialBytes(ms[i]);
    }
    EachFinishes(ms, EncodeMaterial);
    CountedBlock(MAGIC, |ms|, Each(ms, EncodeMaterial));
  }

  /** Fixed bytes, a u8 count that fits, and a block that finishes. */
  lemma CountedBlock(head: seq<Byte>, n: int, block: Out)
    requires 0 <= n < 0x100 && block.stop.None?
    ensures Then(Done(head), Then(PackU8(n), block)).stop.None?
    ensures Then(Done(head), Then(PackU8(n), block)).bytes == head + [n] + block.bytes
  {
  }

  /** One object record begins with its buffer section and its group section. */
  lemma ObjectRecordBytes(o: SceneObject, mesh: ObjectMesh, host: HostMath) returns (rest: seq<Byte>)
    requires EncodeBuffers(mesh.buffers).stop.None? && EncodeGroups(mesh.groups).stop.None?
    ensures EncodeObject(o, mesh, host).bytes
      == EncodeBuffers(mesh.buffers).bytes + EncodeGroups(mesh.groups).bytes + PackF32s(TransformFloats(o)).bytes + rest
  {
    var eb, eg, et := EncodeBuffers(mesh.buffers).bytes, EncodeGroups(mesh.groups).bytes, PackF32s(TransformFloats(o)).bytes;
    rest := ThenExtends(PackF32s(TransformFloats(o)), EncodeArmature(o.armature, mesh.buffers, host));
    assert eb + (eg + (et + rest)) == eb + eg + et + rest;
  }

  /** A file whose object loop succeeds: the header, then the objects, then the rest. */
  lemma ExportParts(scene: Scene, host: HostMath, meshes: seq<(SceneObject, ObjectMesh)>) returns (rest: seq<Byte>)
    requires BuildMeshes(scene.objects, scene.materials, host.flipV) == Ok(meshes)
    requires HeaderOut(scene.materials).stop.None?
    ensures ExportSpec(scene, host).bytes == HeaderOut(scene.materials).bytes + ObjectsOut(meshes, host).bytes + rest
  {
    rest := ThenExtends(ObjectsOut(meshes, host), AnimationOut(scene, host, CountMeshes(scene.objects)));
  }

  /** The object block: the count, then the first object's record, then the rest. */
  lemma ObjectsFirst(meshes: seq<(SceneObject, ObjectMesh)>, host: HostMath) returns (rest: seq<Byte>)
    requires 1 <= |meshes| < 0x100
    ensures ObjectsOut(meshes, host).bytes == [|meshes|] + EncodeObject(meshes[0].0, meshes[0].1, host).bytes + rest
  {
    rest := EachFirst(meshes, ObjectEncoder(host));
  }

  /**
   * When the object loop succeeds with a first object whose sections are
   * written, the file is the header, the object count, that object's
   * buffers, groups and transform, then the rest.
   */
  lemma ExportLayout(scene: Scene, host: HostMath, meshes: seq<(SceneObject, ObjectMesh)>) returns (rest: seq<Byte>)
    requires BuildMeshes(scene.objects, scene.materials, host.flipV) == Ok(meshes)
    requires 1 <= |meshes| < 0x100
    requires |scene.materials| < 0x100 && forall m :: m in scene.materials ==> LoadableName(m.texture)
    requires EncodeBuffers(meshes[0].1.buffers).stop.None? && EncodeGroups(meshes[0].1.groups).stop.None?
    ensures ExportSpec(scene, host).bytes
      == SIGNATURE + [|scene.materials|] + Each(scene.materials, EncodeMaterial).bytes + [|meshes|]
         + EncodeBuffers(meshes[0].1.buffers).bytes + EncodeGroups(meshes[0].1.groups).bytes
         + PackF32s(TransformFloats(meshes[0].0)).bytes + rest
  {
    HeaderBytes(scene.materials);
    var r1 := ExportParts(scene, host, meshes);
    var r2 := ObjectsFirst(meshes, host);
    var r3 := ObjectRecordBytes(meshes[0].0, meshes[0].1, host);
    rest := r3 + r2 + r1;
    Regroup7(SIGNATURE + [|scene.materials| as Byte], Each(scene.materials, EncodeMaterial).bytes, [|meshes| as Byte],
      EncodeBuffers(meshes[0].1.buffers).bytes, EncodeGroups(meshes[0].1.groups).bytes,
      PackF32s(TransformFloats(meshes[0].0)).bytes, r3, r2, r1);
  }

  lemma Regroup7(h: seq<Byte>, mb: seq<Byte>, k: seq<Byte>, eb: seq<Byte>, eg: seq<Byte>, et: seq<Byte>,
                 r3: seq<Byte>, r2: seq<Byte>, r1: seq<Byte>)
    ensures h + mb + (k + (eb + eg + et + r3) + r2) + r1 == h + mb + k + eb + eg + et + (r3 + r2 + r1)
  {
  }

  // ---------------------------------------------------------------------------
  // Reading the file back
  // ---------------------------------------------------------------------------

  /** The reader over a signature, a counted material block and a counted object block. */
  /** Where the reader finds each part of signature, count, block, count, rest. */
  lemma ModelParts(nm: Byte, mb: seq<Byte>, no: Byte, s: seq<Byte>)
    ensures var data := SIGNATURE + [nm] + mb + [no] + s;
      && |data| >= 3 && data[..3] == SIGNATURE
      && data[3..] == [nm] + (mb + ([no] + s))
      && data[3 + (1 + |mb|)..] == [no] + s
  {
    var data := SIGNATURE + [nm] + mb + [no] + s;
    assert data[..3] == SIGNATURE;
    assert data[3..] == [nm] + (mb + ([no] + s));
    assert data[3 + (1 + |mb|)..] == [no] + s;
  }

  /** A u8 count and the block after it, read as that many records. */
  lemma ParseCountedOf<T>(n: Byte, s: seq<Byte>, parse: seq<Byte> -> Option<(T, nat)>)
    ensures ParseCounted([n] + s, parse)
      == match ParseMany(s, n, parse)
         case None => None
         case Some(xs) => Some((xs.0, 1 + xs.1))
  {
    assert ([n] + s)[1..] == s;
  }

  /** The two counted blocks after the signature, for any two record readers. */
  lemma TwoCountedBlocks<A, B>(data: seq<Byte>, nm: Byte, mb: seq<Byte>, no: Byte, s: seq<Byte>,
                               pa: seq<Byte> -> Option<(A, nat)>, pb: seq<Byte> -> Option<(B, nat)>, xs: seq<A>)
    requires data == SIGNATURE + [nm] + mb + [no] + s
    requires ParseMany(mb + ([no] + s), nm, pa) == Some((xs, |mb|))
    ensures |data| >= 3 && data[..3] == SIGNATURE
    ensures ParseCounted(data[3..], pa) == Some((xs, 1 + |mb|))
    ensures ParseCounted(data[3 + (1 + |mb|)..], pb)
      == match ParseMany(s, no, pb)
         case None => None
         case Some(ys) => Some((ys.0, 1 + ys.1))
  {
    ModelParts(nm, mb, no, s);
    ParseCountedOf(nm, mb + ([no] + s), pa);
    ParseCountedOf(no, s, pb);
  }

  /** The reader's object block after it reads the materials. */
  lemma ParseModelAfterMaterials(nm: Byte, mb: seq<Byte>, no: Byte, s: seq<Byte>, mats: seq<Material>)
    requires ParseMany(mb + ([no] + s), nm, ParseMaterial) == Some((mats, |mb|))
    ensures ParseModel(SIGNATURE + [nm] + mb + [no] + s)
      == match ParseMany(s, no, ParseObject)
         case None => Err(Truncated)
         case Some(os) => Ok(ModelData(mats, os.0))
  {
    TwoCountedBlocks(SIGNATURE + [nm] + mb + [no] + s, nm, mb, no, s, ParseMaterial, ParseObject, mats);
  }

  /**
   * The one-object round trip: a file exported from a scene whose only mesh
   * object's buffers and groups are written loads as the scene's materials,
   * each read back from its record, and that object's positions, UVs,
   * normals, indices and group values.
   */
  lemma LoadSingleObjectExport(scene: Scene, host: HostMath, o: SceneObject, mesh: ObjectMesh)
    requires BuildMeshes(scene.objects, scene.materials, host.flipV) == Ok([(o, mesh)])
    requires |scene.materials| < 0x100 && forall m :: m in scene.materials ==> LoadableName(m.texture)
    requires EncodeBuffers(mesh.buffers).stop.None? && EncodeGroups(mesh.groups).stop.None?
    ensures AllU16(mesh.buffers.indices) && AllU16(FlatGroups(mesh.groups))
    ensures ParseModel(ExportSpec(scene, host).bytes)
      == Ok(ModelData(Loaded(scene.materials, LoadedMaterial), [LoadedObject(mesh)]))
  {
    var ms := scene.materials;
    BuildMeshesRecords(scene.objects, ms, host.flipV, [(o, mesh)]);
    BuildObjectShape(o, ms, host.flipV);
    var rest := ExportLayout(scene, host, [(o, mesh)]);
    var mb, eb, eg, et := Each(ms, EncodeMaterial).bytes, EncodeBuffers(mesh.buffers).bytes,
      EncodeGroups(mesh.groups).bytes, PackF32s(TransformFloats(o)).bytes;
    var nm: Byte := |ms|;
    var one: seq<Byte> := [1];
    Regroup4(SIGNATURE + [nm] + mb + one, eb, eg, et, rest);
    LoadMaterialsAndObject(ms, mesh, et + rest);
  }

  /** Signature, the materials, one object and anything after it: the materials and that object. */
  lemma LoadMaterialsAndObject(ms: seq<SceneMaterial>, mesh: ObjectMesh, tail: seq<Byte>)
    requires |ms| < 0x100 && forall m :: m in ms ==> LoadableName(m.texture)
    requires Aligned(mesh.buffers)
    requires EncodeBuffers(mesh.buffers).stop.None? && EncodeGroups(mesh.groups).stop.None?
    ensures AllU16(mesh.buffers.indices) && AllU16(FlatGroups(mesh.groups))
    ensures var eb, eg := EncodeBuffers(mesh.buffers).bytes, EncodeGroups(mesh.groups).bytes;
      ParseModel(SIGNATURE + [|ms| as Byte] + Each(ms, EncodeMaterial).bytes + [1 as Byte] + (eb + eg + tail))
      == Ok(ModelData(Loaded(ms, LoadedMaterial), [LoadedObject(mesh)]))
  {
    var eb, eg := EncodeBuffers(mesh.buffers).bytes, EncodeGroups(mesh.groups).bytes;
    ParseEncodedObject(mesh, tail);
    OnlyObject(eb + eg + tail, LoadedObject(mesh), |eb| + |eg|);
    ParseEncodedMaterials(ms, [1 as Byte] + (EncodeBuffers(mesh.buffers).bytes + EncodeGroups(mesh.groups).bytes + tail));
    ParseModelAfterMaterials(|ms|, Each(ms, EncodeMaterial).bytes, 1,
      EncodeBuffers(mesh.buffers).bytes + EncodeGroups(mesh.groups).bytes + tail, Loaded(ms, LoadedMaterial));
  }

  lemma Regroup4(h: seq<Byte>, eb: seq<Byte>, eg: seq<Byte>, et: seq<Byte>, rest: seq<Byte>)
    ensures h + eb + eg + et + rest == h + (eb + eg + (et + rest))
  {
  }

  /** The first two bytes of a float's record decode to the low half of its bits. */
  lemma LowHalfOfFloat(f: F32, rest: seq<Byte>)
    ensures FromLE16((EncodeF32(f) + rest)[..2]) == f.bits % 0x1_0000
  {
    assert (EncodeF32(f) + rest)[..2] == LE16(f.bits % 0x1_0000);
  }

  /**
   * What the reader makes of the bytes after a first object: the transform's
   * first float (the bounding box's maximum x) is taken as a vertex count,
   * its low sixteen bits.
   */
  lemma ParseObjectAtTransform(o: SceneObject, rest: seq<Byte>)
    ensures var r := ParseObject(PackF32s(TransformFloats(o)).bytes + rest);
      r.Some? ==> |r.value.0.vertices| == 3 * (o.boundMax.x.bits % 0x1_0000)
  {
    var fs := TransformFloats(o);
    assert fs[0] == o.boundMax.x;
    assert fs == [fs[0]] + fs[1..];
    EncodeF32sAppend([fs[0]], fs[1..]);
    assert EncodeF32s([fs[0]]) == EncodeF32(fs[0]);
    var s := PackF32s(fs).bytes + rest;
    assert s == EncodeF32(fs[0]) + (EncodeF32s(fs[1..]) + rest);
    LowHalfOfFloat(fs[0], EncodeF32s(fs[1..]) + rest);
  }

  /**
   * Two or more mesh objects: when the file loads at all, it loads one
   * record per object, and the second record's vertex count is the low
   * sixteen bits of the first object's bounding-box maximum x, read where
   * the exporter wrote that object's transform.
   */
  lemma SecondObjectMisread(scene: Scene, host: HostMath, meshes: seq<(SceneObject, ObjectMesh)>)
    requires BuildMeshes(scene.objects, scene.materials, host.flipV) == Ok(meshes)
    requires 2 <= |meshes| < 0x100
    requires |scene.materials| < 0x100 && forall m :: m in scene.materials ==> LoadableName(m.texture)
    requires EncodeBuffers(meshes[0].1.buffers).stop.None? && EncodeGroups(meshes[0].1.groups).stop.None?
    ensures var r := ParseModel(ExportSpec(scene, host).bytes);
      r.Ok? ==>
        |r.value.objects| == |meshes|
        && |r.value.objects[1].vertices| == 3 * (meshes[0].0.boundMax.x.bits % 0x1_0000)
  {
    var ms := scene.materials;
    var (o, mesh) := meshes[0];
    BuildMeshesRecords(scene.objects, ms, host.flipV, meshes);
    BuildObjectShape(o, ms, host.flipV);
    var rest := ExportLayout(scene, host, meshes);
    var mb, eb, eg, et := Each(ms, EncodeMaterial).bytes, EncodeBuffers(mesh.buffers).bytes,
      EncodeGroups(mesh.groups).bytes, PackF32s(TransformFloats(o)).bytes;
    var nm: Byte := |ms|;
    var k: Byte := |meshes|;
    Regroup4(SIGNATURE + [nm] + mb + [k], eb, eg, et, rest);
    ParseEncodedMaterials(ms, [k] + (eb + eg + (et + rest)));
    ParseModelAfterMaterials(nm, mb, k, eb + eg + (et + rest), Loaded(ms, LoadedMaterial));
    SecondAfterEncoded(mesh, et + rest, k);
    ParseObjectAtTransform(o, rest);
  }
}
