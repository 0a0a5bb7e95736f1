/**
 * What Model::Model makes of a file amd_export.py wrote.  The exporter and
 * the engine's reader agree on the header, the materials and the first
 * object's vertex, index and group arrays; the reader stops there, while the
 * exporter goes on with the object's transform and armature.
 */
module ModelRoundTrip {
  import opened Bytes
  import opened Wrappers
  import opened AmdScene
  import opened AmdMesh
  import opened AmdMeshProps
  import opened AmdEncode
  import opened AmdExport
  import opened AmdExportProps
  import opened FileIO
  import opened EngineMaterial
  import opened ModelLoader

  // ---------------------------------------------------------------------------
  // Text
  // ---------------------------------------------------------------------------

  predicate NoNul(s: string) {
    forall i :: 0 <= i < |s| ==> s[i] != '\0'
  }

  /** An ASCII string is its own UTF-8 encoding, one byte per character. */
  lemma {:induction false} Utf8OfAscii(s: string)
    requires IsAscii(s)
    ensures Utf8(s) == AsciiBytes(s)
  {
    if s != [] {
      assert IsAscii(s[1..]) by {
        forall i | 0 <= i < |s[1..]| ensures s[1..][i] as int < 0x80 {
          assert s[1..][i] == s[i + 1];
        }
      }
      Utf8OfAscii(s[1..]);
    }
  }

  /** Reading the bytes of an ASCII name without NUL as a C string gives the name back. */
  lemma {:induction false} CStringOfAscii(s: string)
    requires IsAscii(s) && NoNul(s)
    ensures CString(AsciiBytes(s)) == s
  {
    if s != [] {
      assert IsAscii(s[1..]) && NoNul(s[1..]) by {
        forall i | 0 <= i < |s[1..]| ensures s[1..][i] as int < 0x80 && s[1..][i] != '\0' {
          assert s[1..][i] == s[i + 1];
        }
      }
      CStringOfAscii(s[1..]);
      assert AsciiBytes(s)[1..] == AsciiBytes(s[1..]);
    }
  }

  // ---------------------------------------------------------------------------
  // Materials
  // ---------------------------------------------------------------------------

  /** The texture name the engine gets back: empty without an image. */
  function LoadedName(t: Option<string>): string {
    if t.None? then "" else TextureFileName(t.value)
  }

  /**
   * The texture field can be read back: the name fits its u8 count, is ASCII
   * (so the count of characters is the count of bytes) and has no NUL.
   */
  predicate LoadableName(t: Option<string>) {
    var name := LoadedName(t);
    |name| < 0x100 && IsAscii(name) && NoNul(name)
  }

  /** The engine's material for an exported one. */
  function LoadedMaterial(m: SceneMaterial): Material {
    NewMaterial(MaterialRecord(m), LoadedName(m.texture))
  }

  /** load applied to every item, in order. */
  function Loaded<T, U>(xs: seq<T>, load: T -> U): (r: seq<U>)
    ensures |r| == |xs|
  {
    if xs == [] then [] else Loaded(xs[..|xs| - 1], load) + [load(xs[|xs| - 1])]
  }

  /**
   * What each engine field holds: diffuse is the colour with the alpha, its
   * power the diffuse intensity; specular is the specular colour with the
   * specular alpha, its power the specular intensity; ambient is the
   * exporter's single ambient factor in r, g and b, with alpha 1.
   */
  lemma ExportedMaterialFields(m: SceneMaterial)
    ensures var e := LoadedMaterial(m);
      && e.diffuse == Vec4(m.diffuseColor.x, m.diffuseColor.y, m.diffuseColor.z, m.alpha)
      && e.diffusePower == m.diffuseIntensity
      && e.specular == Vec4(m.specularColor.x, m.specularColor.y, m.specularColor.z, m.specularAlpha)
      && e.specularPower == m.specularIntensity
      && e.ambient == Vec4(m.ambient, m.ambient, m.ambient, ONE)
      && e.texturePath == TEXTURE_DIR + LoadedName(m.texture)
  {
    var d := MaterialData(LoadedMaterial(m));
    assert d == MaterialRecord(m)[..11];
    assert d[0] == m.diffuseColor.x && d[4] == m.alpha && d[10] == m.ambient;
  }

  /** The texture field of a loadable name is its length byte and its ASCII bytes. */
  lemma TextureField(t: Option<string>)
    requires LoadableName(t)
    ensures EncodeTexture(t) == Done([|LoadedName(t)|] + AsciiBytes(LoadedName(t)))
  {
    if t.Some? {
      Utf8OfAscii(LoadedName(t));
    }
  }

  /** Eleven floats, a length byte and an ASCII name without NUL read back as the material they describe. */
  lemma ParseMaterialOf(fs: seq<F32>, name: string, rest: seq<Byte>)
    requires |fs| == 11 && |name| < 0x100 && IsAscii(name) && NoNul(name)
    ensures ParseMaterial(EncodeF32s(fs) + [|name|] + AsciiBytes(name) + rest)
         == Some((NewMaterial(fs, name), MATERIAL_HEAD + |name|))
  {
    var floats := EncodeF32s(fs);
    var n: Byte := |name|;
    var nb := AsciiBytes(name);
    var s := floats + [n] + nb + rest;
    assert s[0..44] == floats + [];
    assert s[44..45] == [n];
    assert s[45..45 + n] == nb;
    DecodeEncodeF32s(fs, []);
    CStringOfAscii(name);
  }

  /** A material with a loadable name is written whole: its floats, the length byte and the name. */
  lemma EncodedMaterialBytes(m: SceneMaterial)
    requires LoadableName(m.texture)
    ensures EncodeMaterial(m)
         == Done(EncodeF32s(MaterialRecord(m)) + [|LoadedName(m.texture)|] + AsciiBytes(LoadedName(m.texture)))
  {
    TextureField(m.texture);
  }

  /** One exported material is read back whole, and nothing after it is touched. */
  lemma ParseEncodedMaterial(m: SceneMaterial, rest: seq<Byte>)
    requires LoadableName(m.texture)
    ensures EncodeMaterial(m).stop.None?
    ensures ParseMaterial(EncodeMaterial(m).bytes + rest) == Some((LoadedMaterial(m), |EncodeMaterial(m).bytes|))
  {
    EncodedMaterialBytes(m);
    ParseMaterialOf(MaterialRecord(m), LoadedName(m.texture), rest);
  }

  /** The reader looks at no byte past the material it reads. */
  lemma ParseMaterialExtend(b: seq<Byte>, r: seq<Byte>)
    requires ParseMaterial(b).Some?
    ensures ParseMaterial(b + r) == ParseMaterial(b)
  {
    var s := b + r;
    assert s[0..44] == b[0..44];
    assert s[44..45] == b[44..45];
    assert s[45..45 + b[44]] == b[45..45 + b[44]];
  }

  /**
   * A loop writing records each of which parse reads back whole, whatever
   * follows it: reading as many records reads them all back, in order.
   */
  lemma {:induction false} ParseEach<S, T>(xs: seq<S>, rest: seq<Byte>, enc: S -> Out, parse: seq<Byte> -> Option<(T, nat)>, load: S -> T)
    requires forall x :: x in xs ==> enc(x).stop.None?
    requires forall x, r :: x in xs ==> parse(enc(x).bytes + r) == Some((load(x), |enc(x).bytes|))
    ensures Each(xs, enc).stop.None?
    ensures ParseMany(Each(xs, enc).bytes + rest, |xs|, parse) == Some((Loaded(xs, load), |Each(xs, enc).bytes|))
  {
    if xs == [] {
      assert Each(xs, enc) == Done([]);
    } else {
      var init := xs[..|xs| - 1];
      var last := xs[|xs| - 1];
      assert forall x :: x in init ==> x in xs;
      var a := Each(init, enc).bytes;
      var b := enc(last).bytes;
      ParseEach(init, b + rest, enc, parse, load);
      assert Each(xs, enc) == Out(a + b, None);
      var s := a + b + rest;
      assert s == a + (b + rest);
      assert s[|a|..] == b + rest;
      ParseManyNext(s, |init|, Loaded(init, load), |a|, parse, load(last), |b|, |a| + |b|);
    }
  }

  /** The material loop reads back every exported material, in order. */
  lemma ParseEncodedMaterials(ms: seq<SceneMaterial>, rest: seq<Byte>)
    requires forall m :: m in ms ==> LoadableName(m.texture)
    ensures Each(ms, EncodeMaterial).stop.None?
    ensures ParseMany(Each(ms, EncodeMaterial).bytes + rest, |ms|, ParseMaterial)
         == Some((Loaded(ms, LoadedMaterial), |Each(ms, EncodeMaterial).bytes|))
  {
    forall m, r | m in ms
      ensures EncodeMaterial(m).stop.None?
      ensures ParseMaterial(EncodeMaterial(m).bytes + r) == Some((LoadedMaterial(m), |EncodeMaterial(m).bytes|))
    {
      ParseEncodedMaterial(m, r);
    }
    ParseEach(ms, rest, EncodeMaterial, ParseMaterial, LoadedMaterial);
  }
}
