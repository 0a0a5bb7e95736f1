/**
 * Material::Material(float *data, const char *texture): the engine's material
 * built from the 11 floats of a material record and a texture name.
 */
module EngineMaterial {
  import opened Bytes

  datatype Vec4 = Vec4(x: F32, y: F32, z: F32, w: F32)

  datatype Material = Material(
    diffuse: Vec4, specular: Vec4, ambient: Vec4,
    diffusePower: F32, specularPower: F32,
    texturePath: string)

  /** The directory sprintf puts in front of the texture name. */
  const TEXTURE_DIR: string := "Data/Texture/"

  /** The size of the stack buffer the path is formatted into. */
  const PATH_BUFFER: nat := 128

  /** The record a material was built from: every one of the 11 floats is kept somewhere. */
  function MaterialData(m: Material): (data: seq<F32>)
    ensures |data| == 11
  {
    [m.diffuse.x, m.diffuse.y, m.diffuse.z, m.diffusePower, m.diffuse.w,
     m.specular.x, m.specular.y, m.specular.z, m.specularPower, m.specular.w,
     m.ambient.x]
  }

  /**
   * The constructor.  Diffuse takes floats 0, 1, 2 and 4 (float 3 is its
   * power), specular 5, 6, 7 and 9 (float 8 is its power), ambient repeats
   * float 10 with alpha 1.0.
   */
  function NewMaterial(data: seq<F32>, texture: string): (m: Material)
    requires |data| >= 11
    ensures MaterialData(m) == data[..11]
    ensures m.ambient.x == m.ambient.y == m.ambient.z && m.ambient.w == ONE
    ensures m.texturePath == TEXTURE_DIR + texture
  {
    Material(
      Vec4(data[0], data[1], data[2], data[4]),
      Vec4(data[5], data[6], data[7], data[9]),
      Vec4(data[10], data[10], data[10], ONE),
      data[3], data[8],
      TEXTURE_DIR + texture)
  }

  /** Two records give the same material only when they agree on all 11 floats and the name. */
  lemma NewMaterialInjective(a: seq<F32>, ta: string, b: seq<F32>, tb: string)
    requires |a| >= 11 && |b| >= 11
    requires NewMaterial(a, ta) == NewMaterial(b, tb)
    ensures a[..11] == b[..11] && ta == tb
  {
    var m := NewMaterial(a, ta);
    assert m.texturePath == TEXTURE_DIR + ta == TEXTURE_DIR + tb;
    assert ta == (TEXTURE_DIR + ta)[|TEXTURE_DIR|..];
    assert tb == (TEXTURE_DIR + tb)[|TEXTURE_DIR|..];
  }

  /**
   * sprintf writes the path and its terminating NUL into a 128-byte buffer
   * with no length check: a name this long writes past its end.
   */
  predicate PathOverflows(texture: string) {
    |TEXTURE_DIR + texture| + 1 > PATH_BUFFER
  }

  /** The longest name that fits is 114 characters. */
  lemma PathOverflowBound(texture: string)
    ensures PathOverflows(texture) <==> |texture| > PATH_BUFFER - |TEXTURE_DIR| - 1
    ensures PATH_BUFFER - |TEXTURE_DIR| - 1 == 114
  {
  }
}
