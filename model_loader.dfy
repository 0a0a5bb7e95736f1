/**
 * Model::Model(const char *path): the engine's AMD reader.  It checks the
 * signature, reads the material section and, for each object, its vertex,
 * texcoord, normal, index and group arrays.  Nothing is skipped between one
 * object's groups and the next object's vertex count.
 *
 * The specification parses the bytes that remain in the file and says how
 * many it consumes; the reader is a sequence of fread calls on a FileReader.
 */
module ModelLoader {
  import opened Bytes
  import opened Wrappers
  import opened FileIO
  import opened EngineMaterial

  /** The arrays one object hands to addBuffer, setIndexBuffer and setMaterialGroups. */
  datatype ObjectRecord = ObjectRecord(
    vertices: seq<F32>, texcoords: seq<F32>, normals: seq<F32>,
    indices: seq<U16>, groups: seq<U16>)

  datatype ModelData = ModelData(materials: seq<Material>, objects: seq<ObjectRecord>)

  /** Debug::showError outcomes; a short read is not checked by the reader (see README). */
  datatype LoadError = WrongSignature | Truncated

  const SIGNATURE: seq<Byte> := [0x41, 0x4D, 0x44]

  /** Bytes of one material before its name: 11 floats and the u8 length. */
  const MATERIAL_HEAD: nat := 45

  // ---------------------------------------------------------------------------
  // Specification: parsers over the bytes that remain, returning what they consumed
  // ---------------------------------------------------------------------------

  /** 11 floats, a u8 length, that many name bytes, read as a NUL-terminated string. */
  function ParseMaterial(s: seq<Byte>): (r: Option<(Material, nat)>)
    ensures r.Some? <==> |s| >= MATERIAL_HEAD && |s| >= MATERIAL_HEAD + s[44]
    ensures r.Some? ==> r.value.1 == MATERIAL_HEAD + s[44]
  {
    var floats := Slice(s, 0, 44);
    if floats.None? then None
    else
      var len := Slice(s, 44, 1);
      if len.None? then None
      else
        var name := Slice(s, 45, len.value[0]);
        if name.None? then None
        else Some((NewMaterial(DecodeF32s(floats.value, 11), CString(name.value)), MATERIAL_HEAD + len.value[0]))
  }

  /**
   * The first k records, one after the other: the material loop and the
   * object loop.  The record parsers never claim more bytes than they are
   * given, so the guard on done.1 never fires for them.
   */
  function ParseMany<T>(s: seq<Byte>, k: nat, parse: seq<Byte> -> Option<(T, nat)>): (r: Option<(seq<T>, nat)>)
    ensures r.Some? ==> |r.value.0| == k
  {
    if k == 0 then Some(([], 0))
    else
      match ParseMany(s, k - 1, parse)
      case None => None
      case Some(done) =>
        if |s| < done.1 then None
        else
          match parse(s[done.1..])
          case None => None
          case Some(x) => Some((done.0 + [x.0], done.1 + x.1))
  }

  /** u16 n, then 3n position floats, 2n texcoord floats and 3n normal floats. */
  function ParseVertexArrays(s: seq<Byte>): (r: Option<((seq<F32>, seq<F32>, seq<F32>), nat)>)
    ensures r.Some? ==> r.value.1 <= |s|
  {
    var nv := Slice(s, 0, 2);
    if nv.None? then None
    else
      var n: nat := FromLE16(nv.value);
      var vs := Slice(s, 2, 12 * n);
      var ts := Slice(s, 2 + 12 * n, 8 * n);
      var ns := Slice(s, 2 + 20 * n, 12 * n);
      if vs.None? || ts.None? || ns.None? then None
      else Some(((DecodeF32s(vs.value, 3 * n), DecodeF32s(ts.value, 2 * n), DecodeF32s(ns.value, 3 * n)), 2 + 32 * n))
  }

  /** A reader's result given by its two parts. */
  lemma ReadAs<T>(r: Option<(T, nat)>, x: T, n: nat)
    requires r.Some? && r.value.0 == x && r.value.1 == n
    ensures r == Some((x, n))
  {
  }

  /** An object record read section by section: the three readers' results, one after the other. */
  lemma ParseObjectOf(s: seq<Byte>)
    requires ParseVertexArrays(s).Some?
    requires ParseIndices(s[ParseVertexArrays(s).value.1..]).Some?
    requires var a := ParseVertexArrays(s).value.1;
      ParseGroups(s[a + ParseIndices(s[a..]).value.1..]).Some?
    ensures var va := ParseVertexArrays(s).value;
      var ix := ParseIndices(s[va.1..]).value;
      var gr := ParseGroups(s[va.1 + ix.1..]).value;
      && ParseObject(s).Some?
      && ParseObject(s).value.0 == ObjectRecord(va.0.0, va.0.1, va.0.2, ix.0, gr.0)
      && ParseObject(s).value.1 == va.1 + ix.1 + gr.1
  {
  }

  /** An object record is not read when any of its three sections is not. */
  lemma ParseObjectStops(s: seq<Byte>)
    ensures ParseVertexArrays(s).None? ==> ParseObject(s).None?
    ensures ParseVertexArrays(s).Some? && ParseIndices(s[ParseVertexArrays(s).value.1..]).None?
      ==> ParseObject(s).None?
    ensures ParseVertexArrays(s).Some? && ParseIndices(s[ParseVertexArrays(s).value.1..]).Some?
      ==> var a := ParseVertexArrays(s).value.1;
        ParseGroups(s[a + ParseIndices(s[a..]).value.1..]).None? ==> ParseObject(s).None?
  {
  }

  /** u16 m, then m u16 indices. */
  function ParseIndices(s: seq<Byte>): (r: Option<(seq<U16>, nat)>)
    ensures r.Some? ==> r.value.1 <= |s|
  {
    var ni := Slice(s, 0, 2);
    if ni.None? then None
    else
      var m: nat := FromLE16(ni.value);
      var idx := Slice(s, 2, 2 * m);
      if idx.None? then None
      else Some((FromLE16s(idx.value, m), 2 + 2 * m))
  }

  /** u8 g, then 3g u16 values. */
  function ParseGroups(s: seq<Byte>): (r: Option<(seq<U16>, nat)>)
    ensures r.Some? ==> r.value.1 <= |s|
  {
    var ng := Slice(s, 0, 1);
    if ng.None? then None
    else
      var g: nat := ng.value[0];
      var gs := Slice(s, 1, 6 * g);
      if gs.None? then None
      else Some((FromLE16s(gs.value, 3 * g), 1 + 6 * g))
  }

  /** One object: its vertex arrays, its indices and its groups, back to back. */
  function ParseObject(s: seq<Byte>): (r: Option<(ObjectRecord, nat)>)
    ensures r.Some? ==> r.value.1 <= |s|
  {
    match ParseVertexArrays(s)
    case None => None
    case Some(va) =>
      match ParseIndices(s[va.1..])
      case None => None
      case Some(ix) =>
        match ParseGroups(s[va.1 + ix.1..])
        case None => None
        case Some(gr) =>
          Some((ObjectRecord(va.0.0, va.0.1, va.0.2, ix.0, gr.0), va.1 + ix.1 + gr.1))
  }

  /** A u8 count, then that many records. */
  function ParseCounted<T>(s: seq<Byte>, parse: seq<Byte> -> Option<(T, nat)>): (r: Option<(seq<T>, nat)>)
    ensures r.Some? ==> 1 <= |s| && |r.value.0| == s[0]
  {
    if |s| < 1 then None
    else
      match ParseMany(s[1..], s[0], parse)
      case None => None
      case Some(xs) => Some((xs.0, 1 + xs.1))
  }

  /** The whole reader: signature, the counted materials, the counted objects. */
  function ParseModel(data: seq<Byte>): (r: Result<ModelData, LoadError>)
    ensures r.Err? && r.error == WrongSignature <==> |data| >= 3 && data[..3] != SIGNATURE
    ensures r.Ok? ==> |data| >= 5 && data[..3] == SIGNATURE && |r.value.materials| == data[3]
  {
    if |data| < 3 then Err(Truncated)
    else if data[..3] != SIGNATURE then Err(WrongSignature)
    else
      match ParseCounted(data[3..], ParseMaterial)
      case None => Err(Truncated)
      case Some(ms) =>
        match ParseCounted(data[3 + ms.1..], ParseObject)
        case None => Err(Truncated)
        case Some(os) => Ok(ModelData(ms.0, os.0))
  }

  /** What addBuffer and setIndexBuffer are given: nvertices*12, nvertices*8 and nindices*2 bytes. */
  function BufferSizes(o: ObjectRecord): (sizes: (nat, nat, nat))
  {
    (4 * |o.vertices|, 4 * |o.texcoords|, 2 * |o.indices|)
  }

  // ---------------------------------------------------------------------------
  // Facts about the parsers
  // ---------------------------------------------------------------------------

  lemma SliceShift(data: seq<Byte>, pos: nat, p: nat, n: nat)
    requires pos <= |data|
    ensures Slice(data[pos..], p, n) == Slice(data, pos + p, n)
  {
    if pos + p + n <= |data| {
      assert data[pos..][p..p + n] == data[pos + p..pos + p + n];
    }
  }

  /** Once a record cannot be read, no later count can be read either. */
  lemma {:induction false} ParseManyStuck<T>(s: seq<Byte>, k: nat, j: nat, parse: seq<Byte> -> Option<(T, nat)>)
    requires k <= j && ParseMany(s, k, parse).None?
    ensures ParseMany(s, j, parse).None?
    decreases j - k
  {
    if k < j {
      ParseManyStuck(s, k + 1, j, parse);
    }
  }

  /** The arrays read hold 3, 2 and 3 floats per vertex; the byte counts handed to the GPU are 12, 8 and 2 per vertex, texcoord pair and index. */
  lemma ParsedBufferSizes(s: seq<Byte>)
    requires ParseObject(s).Some?
    ensures var o := ParseObject(s).value.0; var n := FromLE16(s[..2]);
      && |o.vertices| == 3 * n && |o.texcoords| == 2 * n && |o.normals| == 3 * n
      && BufferSizes(o) == (12 * n, 8 * n, 2 * |o.indices|)
      && |o.groups| % 3 == 0
  {
  }

  /** The (i+1)-th record is parsed where the first i end. */
  lemma ParseManyNext<T>(s: seq<Byte>, i: nat, done: seq<T>, c: nat, parse: seq<Byte> -> Option<(T, nat)>, x: T, n: nat, total: nat)
    requires ParseMany(s, i, parse) == Some((done, c))
    requires c <= |s| && parse(s[c..]) == Some((x, n)) && total == c + n
    ensures ParseMany(s, i + 1, parse) == Some((done + [x], total))
  {
  }

  /** When the (i+1)-th record cannot be read, the first i + 1 cannot. */
  lemma ParseManyNextFails<T>(s: seq<Byte>, i: nat, done: seq<T>, c: nat, parse: seq<Byte> -> Option<(T, nat)>)
    requires ParseMany(s, i, parse) == Some((done, c))
    requires c <= |s| && parse(s[c..]).None?
    ensures ParseMany(s, i + 1, parse).None?
  {
  }

  /** One record read whole is the whole of a one-record list. */
  lemma ParseOne<T>(s: seq<Byte>, parse: seq<Byte> -> Option<(T, nat)>, x: T, n: nat)
    requires parse(s) == Some((x, n))
    ensures ParseMany(s, 1, parse) == Some(([x], n))
  {
    assert s[0..] == s;
    ParseManyNext(s, 0, [], 0, parse, x, n, n);
    assert [] + [x] == [x];
  }

  /** Reading k records reads the first j of them on the way. */
  lemma {:induction false} ParseManyPrefix<T>(s: seq<Byte>, j: nat, k: nat, parse: seq<Byte> -> Option<(T, nat)>)
    requires j <= k && ParseMany(s, k, parse).Some?
    ensures ParseMany(s, j, parse).Some?
    ensures ParseMany(s, j, parse).value.0 == ParseMany(s, k, parse).value.0[..j]
  {
    if j < k {
      ParseManyPrefix(s, j, k - 1, parse);
      var done := ParseMany(s, k - 1, parse).value.0;
      assert ParseMany(s, k, parse).value.0[..k - 1] == done;
      assert done[..j] == ParseMany(s, k, parse).value.0[..j];
    }
  }

  /** When the first record takes n bytes, the second is whatever parse makes of the bytes after them. */
  lemma ParseManySecond<T>(s: seq<Byte>, k: nat, parse: seq<Byte> -> Option<(T, nat)>, x: T, n: nat)
    requires 2 <= k && parse(s) == Some((x, n)) && n <= |s|
    ensures var all := ParseMany(s, k, parse);
      all.Some? ==> parse(s[n..]).Some? && all.value.0[1] == parse(s[n..]).value.0
  {
    if ParseMany(s, k, parse).Some? {
      ParseOne(s, parse, x, n);
      ParseManyPrefix(s, 2, k, parse);
    }
  }

  /** A reader's outcome r, having advanced n bytes over s, is what parse makes of s. */
  ghost predicate ReadsAs<T>(parse: seq<Byte> -> Option<(T, nat)>, s: seq<Byte>, r: Option<T>, n: int) {
    var p := parse(s);
    && (r.Some? <==> p.Some?)
    && (p.Some? ==> r.value == p.value.0 && n == p.value.1)
  }

  /** Reading outcome r after the first i records done extends them to the first i + 1, ending n bytes in. */
  ghost predicate Extends<T>(parse: seq<Byte> -> Option<(T, nat)>, s: seq<Byte>, i: nat, done: seq<T>, r: Option<T>, n: nat) {
    && (r.Some? ==> ParseMany(s, i + 1, parse) == Some((done + [r.value], n)))
    && (r.None? ==> ParseMany(s, i + 1, parse).None?)
  }

  /** What one turn of a record loop reads, in terms of ParseMany: r is what parse made of the bytes at c. */
  lemma ParseManyStep<T>(s: seq<Byte>, i: nat, done: seq<T>, c: nat, parse: seq<Byte> -> Option<(T, nat)>, r: Option<T>, total: nat)
    requires ParseMany(s, i, parse) == Some((done, c)) && c <= |s|
    requires ReadsAs(parse, s[c..], r, total - c)
    ensures Extends(parse, s, i, done, r, total)
  {
    if r.Some? {
      ParseManyNext(s, i, done, c, parse, r.value, total - c, total);
    } else {
      ParseManyNextFails(s, i, done, c, parse);
    }
  }

  // ---------------------------------------------------------------------------
  // The reader
  // ---------------------------------------------------------------------------

  /** One material: fread of 11 floats, of the length byte and of the name. */
  method ReadMaterial(f: FileReader, ghost s: seq<Byte>) returns (r: Option<Material>, ghost n: nat)
    requires f.pos <= |f.contents| && s == f.contents[f.pos..]
    modifies f
    ensures old(f.pos) <= f.pos <= |f.contents|
    ensures n == f.pos - old(f.pos)
    ensures ReadsAs(ParseMaterial, s, r, n)
  {
    ghost var start := f.pos;
    var floats := ReadAt(f, s, start, 0, 44);
    if floats.None? { return None, f.pos - start; }
    var len := ReadAt(f, s, start, 44, 1);
    if len.None? { return None, f.pos - start; }
    var name := ReadAt(f, s, start, 45, len.value[0]);
    if name.None? { return None, f.pos - start; }
    n := f.pos - start;
    r := Some(NewMaterial(DecodeF32s(floats.value, 11), CString(name.value)));
  }

  /** fread of n bytes at offset off of the bytes s that were left at start. */
  method ReadAt(f: FileReader, ghost s: seq<Byte>, ghost start: nat, ghost off: nat, n: nat) returns (r: Option<seq<Byte>>)
    requires start <= |f.contents| && s == f.contents[start..]
    requires off <= |s| && f.pos == start + off
    modifies f
    ensures old(f.pos) <= f.pos <= |f.contents|
    ensures r == Slice(s, off, n)
    ensures r.Some? ==> f.pos == old(f.pos) + n
  {
    SliceShift(f.contents, start, off, n);
    r := f.Read(n);
  }

  method ReadVertexArrays(f: FileReader) returns (r: Option<(seq<F32>, seq<F32>, seq<F32>)>)
    requires f.pos <= |f.contents|
    modifies f
    ensures old(f.pos) <= f.pos <= |f.contents|
    ensures var p := ParseVertexArrays(f.contents[old(f.pos)..]);
      && (r.Some? <==> p.Some?)
      && (p.Some? ==> r.value == p.value.0 && f.pos == old(f.pos) + p.value.1)
  {
    ghost var start := f.pos;
    ghost var s := f.contents[start..];
    var nv := ReadAt(f, s, start, 0, 2);
    if nv.None? { return None; }
    var n: nat := FromLE16(nv.value);
    var vertices := ReadAt(f, s, start, 2, 12 * n);
    if vertices.None? { return None; }
    var texcoords := ReadAt(f, s, start, 2 + 12 * n, 8 * n);
    if texcoords.None? { return None; }
    var normals := ReadAt(f, s, start, 2 + 20 * n, 12 * n);
    if normals.None? { return None; }
    r := Some((DecodeF32s(vertices.value, 3 * n), DecodeF32s(texcoords.value, 2 * n), DecodeF32s(normals.value, 3 * n)));
  }

  method ReadIndices(f: FileReader) returns (r: Option<seq<U16>>)
    requires f.pos <= |f.contents|
    modifies f
    ensures old(f.pos) <= f.pos <= |f.contents|
    ensures var p := ParseIndices(f.contents[old(f.pos)..]);
      && (r.Some? <==> p.Some?)
      && (p.Some? ==> r.value == p.value.0 && f.pos == old(f.pos) + p.value.1)
  {
    ghost var start := f.pos;
    ghost var s := f.contents[start..];
    var ni := ReadAt(f, s, start, 0, 2);
    if ni.None? { return None; }
    var m: nat := FromLE16(ni.value);
    var indices := ReadAt(f, s, start, 2, 2 * m);
    if indices.None? { return None; }
    r := Some(FromLE16s(indices.value, m));
  }

  method ReadGroups(f: FileReader) returns (r: Option<seq<U16>>)
    requires f.pos <= |f.contents|
    modifies f
    ensures old(f.pos) <= f.pos <= |f.contents|
    ensures var p := ParseGroups(f.contents[old(f.pos)..]);
      && (r.Some? <==> p.Some?)
      && (p.Some? ==> r.value == p.value.0 && f.pos == old(f.pos) + p.value.1)
  {
    ghost var start := f.pos;
    ghost var s := f.contents[start..];
    var ng := ReadAt(f, s, start, 0, 1);
    if ng.None? { return None; }
    var g: nat := ng.value[0];
    var groups := ReadAt(f, s, start, 1, 6 * g);
    if groups.None? { return None; }
    r := Some(FromLE16s(groups.value, 3 * g));
  }

  /** One object, read field by field. */
  method ReadObject(f: FileReader, ghost s: seq<Byte>) returns (r: Option<ObjectRecord>, ghost n: nat)
    requires f.pos <= |f.contents| && s == f.contents[f.pos..]
    modifies f
    ensures old(f.pos) <= f.pos <= |f.contents|
    ensures n == f.pos - old(f.pos)
    ensures ReadsAs(ParseObject, s, r, n)
  {
    ghost var start := f.pos;
    var arrays, indices, groups := ReadSections(f, s);
    n := f.pos - start;
    if arrays.Some? && indices.Some? && groups.Some? {
      r := Some(ObjectRecord(arrays.value.0, arrays.value.1, arrays.value.2, indices.value, groups.value));
    } else {
      r := None;
    }
    SectionsObject(s, arrays, indices, groups, n, r);
  }

  /**
   * The three sections read one after the other, n bytes in all when all
   * three are read; reading stops at the first section that is not.
   */
  ghost predicate SectionsRead(s: seq<Byte>, arrays: Option<(seq<F32>, seq<F32>, seq<F32>)>,
                               indices: Option<seq<U16>>, groups: Option<seq<U16>>, n: nat) {
    var va := ParseVertexArrays(s);
    && (arrays.Some? <==> va.Some?)
    && (va.None? ==> indices.None? && groups.None?)
    && (va.Some? ==>
      var ix := ParseIndices(s[va.value.1..]);
      && arrays.value == va.value.0
      && (indices.Some? <==> ix.Some?)
      && (ix.None? ==> groups.None?)
      && (ix.Some? ==>
        var gr := ParseGroups(s[va.value.1 + ix.value.1..]);
        && indices.value == ix.value.0
        && (groups.Some? <==> gr.Some?)
        && (gr.Some? ==> groups.value == gr.value.0 && n == va.value.1 + ix.value.1 + gr.value.1)))
  }

  /** The vertex arrays, the indices and the groups, each read only when the one before was. */
  method ReadSections(f: FileReader, ghost s: seq<Byte>)
    returns (arrays: Option<(seq<F32>, seq<F32>, seq<F32>)>, indices: Option<seq<U16>>, groups: Option<seq<U16>>)
    requires f.pos <= |f.contents| && s == f.contents[f.pos..]
    modifies f
    ensures old(f.pos) <= f.pos <= |f.contents|
    ensures SectionsRead(s, arrays, indices, groups, f.pos - old(f.pos))
  {
    ghost var start := f.pos;
    indices, groups := None, None;
    arrays := ReadVertexArrays(f);
    ghost var va := ParseVertexArrays(s);
    if arrays.None? { return; }
    ghost var a := f.pos - start;
    assert a == va.value.1 && s[a..] == f.contents[f.pos..];
    indices := ReadIndices(f);
    ghost var ix := ParseIndices(s[a..]);
    if indices.None? { return; }
    ghost var b := f.pos - start;
    assert b == a + ix.value.1 && s[b..] == f.contents[f.pos..];
    groups := ReadGroups(f);
    ghost var gr := ParseGroups(s[b..]);
    assert groups.Some? ==> f.pos - start == b + gr.value.1;
  }

  /** An object is read exactly when its three sections are. */
  lemma SectionsObject(s: seq<Byte>, arrays: Option<(seq<F32>, seq<F32>, seq<F32>)>,
                       indices: Option<seq<U16>>, groups: Option<seq<U16>>, n: nat, r: Option<ObjectRecord>)
    requires SectionsRead(s, arrays, indices, groups, n)
    requires r == if arrays.Some? && indices.Some? && groups.Some?
      then Some(ObjectRecord(arrays.value.0, arrays.value.1, arrays.value.2, indices.value, groups.value))
      else None
    ensures ReadsAs(ParseObject, s, r, n)
  {
    ParseObjectStops(s);
    if r.Some? {
      ParseObjectOf(s);
    }
  }

  /** One turn of the loop: the next item read extends what the loop has read so far. */
  method ReadMaterialNext(f: FileReader, ghost s: seq<Byte>, ghost start: nat, ghost i: nat, done: seq<Material>, ghost c: nat)
    returns (r: Option<seq<Material>>, ghost n: nat)
    requires start <= f.pos <= |f.contents| && s == f.contents[start..]
    requires c == f.pos - start && ParseMany(s, i, ParseMaterial) == Some((done, c))
    modifies f
    ensures start <= f.pos <= |f.contents| && n == f.pos - start
    ensures r.Some? ==> ParseMany(s, i + 1, ParseMaterial) == Some((r.value, n))
    ensures r.None? ==> ParseMany(s, i + 1, ParseMaterial).None?
  {
    var m, k := ReadMaterial(f, s[c..]);
    n := f.pos - start;
    ParseManyStep(s, i, done, c, ParseMaterial, m, n);
    if m.Some? {
      r := Some(done + [m.value]);
    } else {
      r := None;
    }
  }


  /** The record loop: count records, one after the other. */
  method ReadMaterialList(f: FileReader, ghost s: seq<Byte>, count: nat) returns (r: Option<seq<Material>>, ghost n: nat)
    requires f.pos <= |f.contents| && s == f.contents[f.pos..]
    modifies f
    ensures old(f.pos) <= f.pos <= |f.contents|
    ensures n == f.pos - old(f.pos)
    ensures var p := ParseMany(s, count, ParseMaterial);
      && (r.Some? <==> p.Some?)
      && (p.Some? ==> r.value == p.value.0 && n == p.value.1)
  {
    ghost var start := f.pos;
    var materials: seq<Material> := [];
    ghost var used: nat := 0;
    var i := 0;
    while i < count
      invariant i <= count && start <= f.pos <= |f.contents|
      invariant used == f.pos - start
      invariant ParseMany(s, i, ParseMaterial) == Some((materials, used))
    {
      var next;
      next, used := ReadMaterialNext(f, s, start, i, materials, used);
      if next.None? {
        ParseManyStuck(s, i + 1, count, ParseMaterial);
        return None, f.pos - start;
      }
      materials := next.value;
      i := i + 1;
    }
    return Some(materials), used;
  }

  /** The u8 count and the record loop. */
  method ReadMaterials(f: FileReader, ghost s: seq<Byte>) returns (r: Option<seq<Material>>, ghost n: nat)
    requires f.pos <= |f.contents| && s == f.contents[f.pos..]
    modifies f
    ensures old(f.pos) <= f.pos <= |f.contents|
    ensures n == f.pos - old(f.pos)
    ensures var p := ParseCounted(s, ParseMaterial);
      && (r.Some? <==> p.Some?)
      && (p.Some? ==> r.value == p.value.0 && n == p.value.1)
  {
    ghost var start := f.pos;
    var count := ReadAt(f, s, start, 0, 1);
    if count.None? { return None, f.pos - start; }
    ghost var k;
    r, k := ReadMaterialList(f, s[1..], count.value[0]);
    n := f.pos - start;
  }

  /** One turn of the loop: the next item read extends what the loop has read so far. */
  method ReadObjectNext(f: FileReader, ghost s: seq<Byte>, ghost start: nat, ghost i: nat, done: seq<ObjectRecord>, ghost c: nat)
    returns (r: Option<seq<ObjectRecord>>, ghost n: nat)
    requires start <= f.pos <= |f.contents| && s == f.contents[start..]
    requires c == f.pos - start && ParseMany(s, i, ParseObject) == Some((done, c))
    modifies f
    ensures start <= f.pos <= |f.contents| && n == f.pos - start
    ensures r.Some? ==> ParseMany(s, i + 1, ParseObject) == Some((r.value, n))
    ensures r.None? ==> ParseMany(s, i + 1, ParseObject).None?
  {
    var o, k := ReadObject(f, s[c..]);
    n := f.pos - start;
    ParseManyStep(s, i, done, c, ParseObject, o, n);
    if o.Some? {
      r := Some(done + [o.value]);
    } else {
      r := None;
    }
  }


  /** The record loop: count records, one after the other. */
  method ReadObjectList(f: FileReader, ghost s: seq<Byte>, count: nat) returns (r: Option<seq<ObjectRecord>>, ghost n: nat)
    requires f.pos <= |f.contents| && s == f.contents[f.pos..]
    modifies f
    ensures old(f.pos) <= f.pos <= |f.contents|
    ensures n == f.pos - old(f.pos)
    ensures var p := ParseMany(s, count, ParseObject);
      && (r.Some? <==> p.Some?)
      && (p.Some? ==> r.value == p.value.0 && n == p.value.1)
  {
    ghost var start := f.pos;
    var objects: seq<ObjectRecord> := [];
    ghost var used: nat := 0;
    var i := 0;
    while i < count
      invariant i <= count && start <= f.pos <= |f.contents|
      invariant used == f.pos - start
      invariant ParseMany(s, i, ParseObject) == Some((objects, used))
    {
      var next;
      next, used := ReadObjectNext(f, s, start, i, objects, used);
      if next.None? {
        ParseManyStuck(s, i + 1, count, ParseObject);
        return None, f.pos - start;
      }
      objects := next.value;
      i := i + 1;
    }
    return Some(objects), used;
  }

  /** The u8 count and the record loop. */
  method ReadObjects(f: FileReader, ghost s: seq<Byte>) returns (r: Option<seq<ObjectRecord>>, ghost n: nat)
    requires f.pos <= |f.contents| && s == f.contents[f.pos..]
    modifies f
    ensures old(f.pos) <= f.pos <= |f.contents|
    ensures n == f.pos - old(f.pos)
    ensures var p := ParseCounted(s, ParseObject);
      && (r.Some? <==> p.Some?)
      && (p.Some? ==> r.value == p.value.0 && n == p.value.1)
  {
    ghost var start := f.pos;
    var count := ReadAt(f, s, start, 0, 1);
    if count.None? { return None, f.pos - start; }
    ghost var k;
    r, k := ReadObjectList(f, s[1..], count.value[0]);
    n := f.pos - start;
  }

  /** Model::Model on an opened file. */
  method LoadModel(f: FileReader) returns (r: Result<ModelData, LoadError>)
    requires f.pos == 0
    modifies f
    ensures r == ParseModel(f.contents)
  {
    var sign := f.Read(3);
    if sign.None? { return Err(Truncated); }
    if sign.value != SIGNATURE { return Err(WrongSignature); }
    var materials, used := ReadMaterials(f, f.contents[3..]);
    if materials.None? { return Err(Truncated); }
    var objects, _ := ReadObjects(f, f.contents[3 + used..]);
    if objects.None? { return Err(Truncated); }
    return Ok(ModelData(materials.value, objects.value));
  }
}
