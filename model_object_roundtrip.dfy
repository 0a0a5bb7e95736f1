/**
 * What Model::Model makes of the object section amd_export.py writes.  The
 * reader takes an object's vertex, index and group arrays back exactly, and
 * a file with one mesh object loads whole.  It does not read the transform
 * and armature the exporter writes after the groups, so with a second object
 * it takes bytes of the first object's transform for the second's counts.
 */
module ObjectRoundTrip {
  import opened Bytes
  import opened Wrappers
  import opened AmdScene
  import opened AmdMesh
  import opened AmdMeshProps
  import opened AmdEncode
  import opened AmdExport
  import opened AmdExportProps
  import opened EngineMaterial
  import opened FileIO
  import opened ModelLoader
  import opened ModelRoundTrip

  // ---------------------------------------------------------------------------
  // Groups
  // ---------------------------------------------------------------------------

  /** start, end, material of every group, in order: the u16 values the group loop writes. */
  function FlatGroups(gs: seq<Group>): (r: seq<int>)
    ensures |r| == 3 * |gs|
  {
    if gs == [] then [] else FlatGroups(gs[..|gs| - 1]) + GroupFields(gs[|gs| - 1])
  }

  lemma AllU16Append(a: seq<int>, b: seq<int>)
    ensures AllU16(a + b) <==> AllU16(a) && AllU16(b)
  {
    if AllU16(a) && AllU16(b) {
      forall i | 0 <= i < |a + b| ensures 0 <= (a + b)[i] <= U16_MAX {
        if i >= |a| { assert (a + b)[i] == b[i - |a|]; }
      }
    }
    if AllU16(a + b) {
      forall i | 0 <= i < |b| ensures 0 <= b[i] <= U16_MAX {
        assert (a + b)[|a| + i] == b[i];
      }
      forall i | 0 <= i < |a| ensures 0 <= a[i] <= U16_MAX {
        assert (a + b)[i] == a[i];
      }
    }
  }

  /**
   * The group loop finishes exactly when every start, end and material fits
   * a u16, and then it has written those values, three per group, in order.
   */
  lemma {:induction false} GroupRecordsBytes(gs: seq<Group>)
    ensures Each(gs, GroupRecord).stop.None? <==> AllU16(FlatGroups(gs))
    ensures Each(gs, GroupRecord).stop.None? ==> Each(gs, GroupRecord).bytes == LE16s(FlatGroups(gs))
  {
    if gs != [] {
      var init := gs[..|gs| - 1];
      var last := gs[|gs| - 1];
      GroupRecordsBytes(init);
      AllU16Append(FlatGroups(init), GroupFields(last));
      if AllU16(FlatGroups(gs)) {
        LE16sAppend(FlatGroups(init), GroupFields(last));
      }
    }
  }

  /** A u8 count followed by any output. */
  lemma CountThen(n: int, x: Out)
    requires Then(PackU8(n), x).stop.None?
    ensures 0 <= n < 0x100 && x.stop.None?
    ensures Then(PackU8(n), x).bytes == [n] + x.bytes
  {
  }

  /** u8 group count and the group values; the count fails above 255 groups. */
  lemma EncodeGroupsBytes(gs: seq<Group>)
    requires EncodeGroups(gs).stop.None?
    ensures |gs| < 0x100 && AllU16(FlatGroups(gs))
    ensures EncodeGroups(gs).bytes == [|gs|] + LE16s(FlatGroups(gs))
  {
    var records := Each(gs, GroupRecord);
    CountThen(|gs|, records);
    GroupRecordsBytes(gs);
  }

  // ---------------------------------------------------------------------------
  // Buffers
  // ---------------------------------------------------------------------------

  /** The interleaved float block: positions, then UVs, then normals. */
  function BufferFloats(b: Buffers): (fs: seq<F32>)
    ensures |fs| == 3 * |b.vertices| + 2 * |b.texcoords| + 3 * |b.normals|
  {
    Vec3sFloats(b.vertices) + Vec2sFloats(b.texcoords) + Vec3sFloats(b.normals)
  }

  /**
   * The buffer section finishes exactly when the vertex count, the index
   * count and every index fit a u16; it is then the vertex count, the floats,
   * the index count and the indices.
   */
  lemma EncodeBuffersBytes(b: Buffers)
    ensures EncodeBuffers(b).stop.None?
        <==> |b.vertices| <= U16_MAX && |b.indices| <= U16_MAX && AllU16(b.indices)
    ensures EncodeBuffers(b).stop.None? ==>
      EncodeBuffers(b).bytes == LE16(|b.vertices|) + EncodeF32s(BufferFloats(b)) + LE16(|b.indices|) + LE16s(b.indices)
  {
    var count, floats := PackU16(|b.vertices|), PackF32s(BufferFloats(b));
    var indexCount, indices := PackU16(|b.indices|), PackU16Each(b.indices);
    ThenFinishes(indexCount, indices);
    ThenFinishes(floats, Then(indexCount, indices));
    ThenFinishes(count, Then(floats, Then(indexCount, indices)));
    PackU16EachLayout(b.indices);
    if EncodeBuffers(b).stop.None? {
      Nest4(LE16(|b.vertices|), EncodeF32s(BufferFloats(b)), LE16(|b.indices|), LE16s(b.indices));
    }
  }

  /** Two outputs in a row finish exactly when both do, and then write both. */
  lemma ThenFinishes(a: Out, b: Out)
    ensures Then(a, b).stop.None? <==> a.stop.None? && b.stop.None?
    ensures Then(a, b).stop.None? ==> Then(a, b).bytes == a.bytes + b.bytes
  {
  }

  lemma Nest4(a: seq<Byte>, b: seq<Byte>, c: seq<Byte>, d: seq<Byte>)
    ensures a + (b + (c + d)) == a + b + c + d
  {
  }

  /** Indices that point into the vertex list fit a u16 once the vertex count does. */
  lemma WellformedIndicesFit(b: Buffers)
    requires Wellformed(b) && |b.vertices| <= U16_MAX
    ensures AllU16(b.indices)
  {
  }

  // ---------------------------------------------------------------------------
  // Reading the arrays back
  // ---------------------------------------------------------------------------

  lemma SliceFront(a: seq<Byte>, b: seq<Byte>, r: seq<Byte>)
    ensures Slice(a + b + r, 0, |a|) == Some(a)
  {
    assert (a + b + r)[0..|a|] == a;
  }

  lemma SliceAt(a: seq<Byte>, b: seq<Byte>, r: seq<Byte>)
    ensures Slice(a + b + r, |a|, |b|) == Some(b)
  {
    assert (a + b + r)[|a|..|a| + |b|] == b;
  }

  /** A u16 list written with LE16s decodes back. */
  lemma DecodeLE16s(xs: seq<U16>)
    ensures FromLE16s(LE16s(xs), |xs|) == xs
  {
    FromLE16sOfLE16s(xs, []);
    assert LE16s(xs) + [] == LE16s(xs);
  }

  /** A float list written with EncodeF32s decodes back. */
  lemma DecodeF32sExact(fs: seq<F32>)
    ensures DecodeF32s(EncodeF32s(fs), |fs|) == fs
  {
    DecodeEncodeF32s(fs, []);
    assert EncodeF32s(fs) + [] == EncodeF32s(fs);
  }

  /** Four blocks, one after the other: where each one is. */
  lemma Slices4(a: seq<Byte>, b: seq<Byte>, c: seq<Byte>, d: seq<Byte>, r: seq<Byte>)
    ensures Slice(a + b + c + d + r, 0, |a|) == Some(a)
    ensures Slice(a + b + c + d + r, |a|, |b|) == Some(b)
    ensures Slice(a + b + c + d + r, |a| + |b|, |c|) == Some(c)
    ensures Slice(a + b + c + d + r, |a| + |b| + |c|, |d|) == Some(d)
  {
    var s := a + b + c + d + r;
    assert s[0..|a|] == a;
    assert s[|a|..|a| + |b|] == b;
    assert s[|a| + |b|..|a| + |b| + |c|] == c;
    assert s[|a| + |b| + |c|..|a| + |b| + |c| + |d|] == d;
  }

  /** The vertex section read from where its three blocks lie. */
  lemma ParseVertexAt(s: seq<Byte>, n: nat, ev: seq<Byte>, et: seq<Byte>, en: seq<Byte>)
    requires Slice(s, 0, 2).Some? && FromLE16(Slice(s, 0, 2).value) == n
    requires Slice(s, 2, 12 * n) == Some(ev) && Slice(s, 2 + 12 * n, 8 * n) == Some(et)
    requires Slice(s, 2 + 20 * n, 12 * n) == Some(en)
    ensures ParseVertexArrays(s)
      == Some(((DecodeF32s(ev, 3 * n), DecodeF32s(et, 2 * n), DecodeF32s(en, 3 * n)), 2 + 32 * n))
  {
    var r := ParseVertexArrays(s);
    VertexCountAt(s, n, ev, et, en);
    PositionsAt(s, n, ev);
    TexCoordsAt(s, n, et);
    NormalsAt(s, n, en);
    ReadAs(r, (DecodeF32s(ev, 3 * n), DecodeF32s(et, 2 * n), DecodeF32s(en, 3 * n)), 2 + 32 * n);
  }

  /** The vertex section is found, and ends after its three blocks. */
  lemma VertexCountAt(s: seq<Byte>, n: nat, ev: seq<Byte>, et: seq<Byte>, en: seq<Byte>)
    requires Slice(s, 0, 2).Some? && FromLE16(Slice(s, 0, 2).value) == n
    requires Slice(s, 2, 12 * n) == Some(ev) && Slice(s, 2 + 12 * n, 8 * n) == Some(et)
    requires Slice(s, 2 + 20 * n, 12 * n) == Some(en)
    ensures ParseVertexArrays(s).Some? && ParseVertexArrays(s).value.1 == 2 + 32 * n
  {
  }

  /** The positions are the floats of the first block. */
  lemma PositionsAt(s: seq<Byte>, n: nat, ev: seq<Byte>)
    requires Slice(s, 0, 2).Some? && FromLE16(Slice(s, 0, 2).value) == n
    requires Slice(s, 2, 12 * n) == Some(ev)
    ensures ParseVertexArrays(s).Some? ==> ParseVertexArrays(s).value.0.0 == DecodeF32s(ev, 3 * n)
  {
  }

  /** The UVs are the floats of the second block. */
  lemma TexCoordsAt(s: seq<Byte>, n: nat, et: seq<Byte>)
    requires Slice(s, 0, 2).Some? && FromLE16(Slice(s, 0, 2).value) == n
    requires Slice(s, 2 + 12 * n, 8 * n) == Some(et)
    ensures ParseVertexArrays(s).Some? ==> ParseVertexArrays(s).value.0.1 == DecodeF32s(et, 2 * n)
  {
  }

  /** The normals are the floats of the third block. */
  lemma NormalsAt(s: seq<Byte>, n: nat, en: seq<Byte>)
    requires Slice(s, 0, 2).Some? && FromLE16(Slice(s, 0, 2).value) == n
    requires Slice(s, 2 + 20 * n, 12 * n) == Some(en)
    ensures ParseVertexArrays(s).Some? ==> ParseVertexArrays(s).value.0.2 == DecodeF32s(en, 3 * n)
  {
  }

  /** The vertex section over any blocks of the right sizes. */
  lemma ParseVertexBlocks(h: seq<Byte>, ev: seq<Byte>, et: seq<Byte>, en: seq<Byte>, rest: seq<Byte>, n: nat)
    requires |h| == 2 && FromLE16(h) == n
    requires |ev| == 12 * n && |et| == 8 * n && |en| == 12 * n
    ensures ParseVertexArrays(h + ev + et + en + rest)
      == Some(((DecodeF32s(ev, 3 * n), DecodeF32s(et, 2 * n), DecodeF32s(en, 3 * n)), 2 + 32 * n))
  {
    Slices4(h, ev, et, en, rest);
    ParseVertexAt(h + ev + et + en + rest, n, ev, et, en);
  }

  /** The index section over any block that decodes to the given indices. */
  lemma ParseIndexBlocks(h: seq<Byte>, b: seq<Byte>, rest: seq<Byte>, xs: seq<U16>)
    requires |h| == 2 && FromLE16(h) == |xs| && |b| == 2 * |xs| && FromLE16s(b, |xs|) == xs
    ensures ParseIndices(h + b + rest) == Some((xs, 2 + 2 * |xs|))
  {
    SliceFront(h, b, rest);
    SliceAt(h, b, rest);
  }

  /** The group section over any block that decodes to the given values. */
  lemma ParseGroupBlocks(g: Byte, b: seq<Byte>, rest: seq<Byte>, xs: seq<U16>)
    requires |b| == 6 * g && |xs| == 3 * g && FromLE16s(b, 3 * g) == xs
    ensures ParseGroups([g] + b + rest) == Some((xs, 1 + 6 * g))
  {
    SliceFront([g], b, rest);
    SliceAt([g], b, rest);
  }

  /** Where the second and third of three sections begin. */
  lemma SectionsAt(s1: seq<Byte>, s2: seq<Byte>, s3: seq<Byte>, rest: seq<Byte>)
    ensures var s := s1 + s2 + s3 + rest;
      && s == s1 + (s2 + (s3 + rest))
      && s[|s1|..] == s2 + (s3 + rest)
      && s[|s1| + |s2|..] == s3 + rest
  {
    var s := s1 + s2 + s3 + rest;
    assert s == s1 + (s2 + (s3 + rest));
    assert s[|s1|..] == s2 + (s3 + rest);
    assert s[|s1| + |s2|..] == s3 + rest;
  }

  /** The arrays the engine gets for an exported mesh. */
  function LoadedObject(mesh: ObjectMesh): (r: ObjectRecord)
    requires AllU16(mesh.buffers.indices) && AllU16(FlatGroups(mesh.groups))
    ensures |r.vertices| == 3 * |mesh.buffers.vertices| && |r.groups| == 3 * |mesh.groups|
  {
    ObjectRecord(Vec3sFloats(mesh.buffers.vertices), Vec2sFloats(mesh.buffers.texcoords),
      Vec3sFloats(mesh.buffers.normals), mesh.buffers.indices, FlatGroups(mesh.groups))
  }

  /** The vertex count and the three float blocks. */
  function VertexSection(b: Buffers): (r: seq<Byte>)
    requires |b.vertices| <= U16_MAX
    ensures |r| == 2 + 12 * |b.vertices| + 8 * |b.texcoords| + 12 * |b.normals|
  {
    LE16(|b.vertices|) + EncodeF32s(Vec3sFloats(b.vertices))
      + EncodeF32s(Vec2sFloats(b.texcoords)) + EncodeF32s(Vec3sFloats(b.normals))
  }

  /** The index count and the indices. */
  function IndexSection(b: Buffers): (r: seq<Byte>)
    requires |b.indices| <= U16_MAX && AllU16(b.indices)
    ensures |r| == 2 + 2 * |b.indices|
  {
    LE16(|b.indices|) + LE16s(b.indices)
  }

  /** The group count and the group values. */
  function GroupSection(gs: seq<Group>): (r: seq<Byte>)
    requires |gs| < 0x100 && AllU16(FlatGroups(gs))
    ensures |r| == 1 + 6 * |gs|
  {
    [|gs|] + LE16s(FlatGroups(gs))
  }

  /** What the exporter writes for one object's buffers and groups, as the three sections. */
  lemma EncodedSections(mesh: ObjectMesh)
    requires EncodeBuffers(mesh.buffers).stop.None? && EncodeGroups(mesh.groups).stop.None?
    ensures |mesh.buffers.vertices| <= U16_MAX && |mesh.buffers.indices| <= U16_MAX
    ensures AllU16(mesh.buffers.indices) && |mesh.groups| < 0x100 && AllU16(FlatGroups(mesh.groups))
    ensures EncodeBuffers(mesh.buffers).bytes == VertexSection(mesh.buffers) + IndexSection(mesh.buffers)
    ensures EncodeGroups(mesh.groups).bytes == GroupSection(mesh.groups)
  {
    var b := mesh.buffers;
    EncodeBuffersBytes(b);
    EncodeGroupsBytes(mesh.groups);
    var h, ev, et, en := LE16(|b.vertices|), EncodeF32s(Vec3sFloats(b.vertices)),
      EncodeF32s(Vec2sFloats(b.texcoords)), EncodeF32s(Vec3sFloats(b.normals));
    EncodeF32sAppend(Vec3sFloats(b.vertices) + Vec2sFloats(b.texcoords), Vec3sFloats(b.normals));
    EncodeF32sAppend(Vec3sFloats(b.vertices), Vec2sFloats(b.texcoords));
    assert EncodeF32s(BufferFloats(b)) == ev + et + en;
    Regroup(h, ev + et + en, LE16(|b.indices|), LE16s(b.indices));
    Regroup3(h, ev, et, en);
  }

  /** h + block + x + y, grouped as the sections are. */
  lemma Regroup(h: seq<Byte>, block: seq<Byte>, x: seq<Byte>, y: seq<Byte>)
    ensures h + block + x + y == (h + block) + (x + y)
  {
  }

  lemma Regroup3(h: seq<Byte>, a: seq<Byte>, b: seq<Byte>, c: seq<Byte>)
    ensures h + (a + b + c) == h + a + b + c
  {
  }

  /** A vertex count and three float arrays of matching sizes read back as those arrays. */
  lemma ParseFloatBlocks(n: nat, vs: seq<F32>, ts: seq<F32>, ns: seq<F32>, rest: seq<Byte>)
    requires n <= U16_MAX && |vs| == 3 * n && |ts| == 2 * n && |ns| == 3 * n
    ensures ParseVertexArrays(LE16(n) + EncodeF32s(vs) + EncodeF32s(ts) + EncodeF32s(ns) + rest)
      == Some(((vs, ts, ns), 2 + 32 * n))
  {
    DecodeF32sExact(vs);
    DecodeF32sExact(ts);
    DecodeF32sExact(ns);
    ParseVertexBlocks(LE16(n), EncodeF32s(vs), EncodeF32s(ts), EncodeF32s(ns), rest, n);
  }

  /** The vertex section reads back as the three float arrays. */
  lemma ParseVertexSection(b: Buffers, rest: seq<Byte>)
    requires Aligned(b) && |b.vertices| <= U16_MAX
    ensures ParseVertexArrays(VertexSection(b) + rest)
      == Some(((Vec3sFloats(b.vertices), Vec2sFloats(b.texcoords), Vec3sFloats(b.normals)), |VertexSection(b)|))
  {
    ParseFloatBlocks(|b.vertices|, Vec3sFloats(b.vertices), Vec2sFloats(b.texcoords), Vec3sFloats(b.normals), rest);
  }

  /** The index section reads back as the indices. */
  lemma ParseIndexSection(b: Buffers, rest: seq<Byte>)
    requires |b.indices| <= U16_MAX && AllU16(b.indices)
    ensures ParseIndices(IndexSection(b) + rest) == Some((b.indices, |IndexSection(b)|))
  {
    DecodeLE16s(b.indices);
    ParseIndexBlocks(LE16(|b.indices|), LE16s(b.indices), rest, b.indices);
  }

  /** The group section reads back as the flattened groups. */
  lemma ParseGroupSection(gs: seq<Group>, rest: seq<Byte>)
    requires |gs| < 0x100 && AllU16(FlatGroups(gs))
    ensures ParseGroups(GroupSection(gs) + rest) == Some((FlatGroups(gs), |GroupSection(gs)|))
  {
    DecodeLE16s(FlatGroups(gs));
    ParseGroupBlocks(|gs|, LE16s(FlatGroups(gs)), rest, FlatGroups(gs));
  }

  /** An object record over three sections its three parsers read whole. */
  lemma ParseObjectSections(eb: seq<Byte>, eg: seq<Byte>, rest: seq<Byte>,
                             vsec: seq<Byte>, isec: seq<Byte>, gsec: seq<Byte>, o: ObjectRecord)
    requires eb == vsec + isec && eg == gsec
    requires ParseVertexArrays(vsec + (isec + (gsec + rest))) == Some(((o.vertices, o.texcoords, o.normals), |vsec|))
    requires ParseIndices(isec + (gsec + rest)) == Some((o.indices, |isec|))
    requires ParseGroups(gsec + rest) == Some((o.groups, |gsec|))
    ensures var r := ParseObject(eb + eg + rest); r.Some? && r.value.0 == o && r.value.1 == |eb| + |eg|
  {
    SectionsAt(vsec, isec, gsec, rest);
    ParseObjectOf(vsec + isec + gsec + rest);
  }

  /** The three sections of an aligned mesh, whatever follows them, read back as its record. */
  lemma ParseSections(mesh: ObjectMesh, eb: seq<Byte>, eg: seq<Byte>, rest: seq<Byte>)
    requires Aligned(mesh.buffers) && |mesh.buffers.vertices| <= U16_MAX && |mesh.buffers.indices| <= U16_MAX
    requires AllU16(mesh.buffers.indices) && |mesh.groups| < 0x100 && AllU16(FlatGroups(mesh.groups))
    requires eb == VertexSection(mesh.buffers) + IndexSection(mesh.buffers) && eg == GroupSection(mesh.groups)
    ensures var r := ParseObject(eb + eg + rest); r.Some? && r.value.0 == LoadedObject(mesh) && r.value.1 == |eb| + |eg|
  {
    var b := mesh.buffers;
    var vsec, isec, gsec := VertexSection(b), IndexSection(b), GroupSection(mesh.groups);
    ParseVertexSection(b, isec + (gsec + rest));
    ParseIndexSection(b, gsec + rest);
    ParseGroupSection(mesh.groups, rest);
    ParseObjectSections(eb, eg, rest, vsec, isec, gsec, LoadedObject(mesh));
  }

  /**
   * An object's buffer and group sections, whatever follows them, read back
   * as the positions, UVs, normals, indices and group values written, and
   * the reader stops right after the groups.
   */
  lemma ParseEncodedObject(mesh: ObjectMesh, rest: seq<Byte>)
    requires Aligned(mesh.buffers)
    requires EncodeBuffers(mesh.buffers).stop.None? && EncodeGroups(mesh.groups).stop.None?
    ensures AllU16(mesh.buffers.indices) && AllU16(FlatGroups(mesh.groups))
    ensures var r := ParseObject(EncodeBuffers(mesh.buffers).bytes + EncodeGroups(mesh.groups).bytes + rest);
      && r.Some? && r.value.0 == LoadedObject(mesh)
      && r.value.1 == |EncodeBuffers(mesh.buffers).bytes| + |EncodeGroups(mesh.groups).bytes|
  {
    var eb, eg := EncodeBuffers(mesh.buffers).bytes, EncodeGroups(mesh.groups).bytes;
    EncodedSections(mesh);
    ParseSections(mesh, eb, eg, rest);
  }

  /** A list of one object is that object's record, ending where the record does. */
  lemma OnlyObject(s: seq<Byte>, x: ObjectRecord, n: nat)
    requires ParseObject(s).Some? && ParseObject(s).value.0 == x && ParseObject(s).value.1 == n
    ensures ParseMany(s, 1, ParseObject) == Some(([x], n))
  {
    ReadAs(ParseObject(s), x, n);
    ParseOne(s, ParseObject, x, n);
  }

  /**
   * With two or more objects to read, the second record is whatever the
   * reader makes of the bytes after the first object's groups.
   */
  lemma SecondAfterEncoded(mesh: ObjectMesh, tail: seq<Byte>, k: nat)
    requires Aligned(mesh.buffers) && 2 <= k
    requires EncodeBuffers(mesh.buffers).stop.None? && EncodeGroups(mesh.groups).stop.None?
    ensures var all := ParseMany(EncodeBuffers(mesh.buffers).bytes + EncodeGroups(mesh.groups).bytes + tail, k, ParseObject);
      all.Some? ==> ParseObject(tail).Some? && all.value.0[1] == ParseObject(tail).value.0
  {
    var eb, eg := EncodeBuffers(mesh.buffers).bytes, EncodeGroups(mesh.groups).bytes;
    ParseEncodedObject(mesh, tail);
    assert ParseObject(eb + eg + tail).Some? && ParseObject(eb + eg + tail).value.1 == |eb| + |eg|;
    SecondAfter(eb + eg, tail, k);
  }

  /** The second record of a list whose first record spans exactly the bytes first. */
  lemma SecondAfter(first: seq<Byte>, tail: seq<Byte>, k: nat)
    requires 2 <= k && ParseObject(first + tail).Some? && ParseObject(first + tail).value.1 == |first|
    ensures var all := ParseMany(first + tail, k, ParseObject);
      all.Some? ==> ParseObject(tail).Some? && all.value.0[1] == ParseObject(tail).value.0
  {
    ParseManySecond(first + tail, k, ParseObject, ParseObject(first + tail).value.0, |first|);
    assert (first + tail)[|first|..] == tail;
  }
}
