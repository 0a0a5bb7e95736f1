/**
 * A flat terrain tile (source/Terrain.cpp): a square grid of 128 x 128
 * vertices, row i and column j at vertex i * 128 + j, joined by two
 * triangles per grid cell, drawn with one material group.  The float
 * arithmetic of the grid coordinates is the host's and comes in as
 * functions of the column or row number.
 */
module EngineTerrain {
  import opened Bytes
  import opened Wrappers
  import opened AmdScene
  import opened EngineObject

  /** Terrain::VERTEX_COUNT: vertices along each side. */
  const N: nat := 128

  /** Vertices in the grid, N * N. */
  const COUNT: nat := 16384

  /** Triangles in the grid: two per cell, 2 (N - 1)^2. */
  const TRIANGLES: nat := 32258

  /** Cells along each side, N - 1. */
  const CELL_ROWS: nat := 127

  /** Grid cells, (N - 1)^2. */
  const CELLS: nat := 16129

  /** Entries of the index buffer: three per triangle, six per cell. */
  const INDICES: nat := 96774

  lemma GridSizes()
    ensures COUNT == N * N && CELL_ROWS == N - 1 && CELLS == (N - 1) * (N - 1) && TRIANGLES == 2 * (N - 1) * (N - 1) && INDICES == 3 * TRIANGLES
  {
  }

  /**
   * Host float arithmetic of the constructor: the tile offset, and for
   * each column or row number j < 128 its grid coordinate and its texture
   * coordinate, as the host's float division and product give them.
   */
  datatype GridMath = GridMath(
    place: F32 -> F32,   // x * SIZE
    coord: seq<F32>,     // (float)j / ((float)VERTEX_COUNT - 1) * SIZE
    tex: seq<F32>)       // (float)j / ((float)VERTEX_COUNT - 1)
  {
    predicate Valid() { |coord| == N && |tex| == N }
  }

  /** The vertex number of column x, row z: rows of 128 vertices one after the other. */
  function VertexId(x: nat, z: nat): (k: nat)
    requires x < 128 && z < 128
    ensures k < COUNT
  {
    z * 128 + x
  }

  /** Each vertex number stands for one grid position only. */
  lemma VertexIdInjective(x: nat, z: nat, x': nat, z': nat)
    requires x < 128 && z < 128 && x' < 128 && z' < 128
    requires VertexId(x, z) == VertexId(x', z')
    ensures x == x' && z == z'
  {
  }

  /** The cell number of the cell whose top-left corner is (gx, gz): cells are taken row by row. */
  function CellId(gx: nat, gz: nat): (c: nat)
    requires gx < 127 && gz < 127
    ensures c < CELLS
  {
    gz * 127 + gx
  }

  /**
   * The grid position of corner r (0..5) of cell (gx, gz): top-left,
   * bottom-left, top-right, then top-right, bottom-left, bottom-right.
   */
  function Corner(gx: nat, gz: nat, r: nat): (p: (nat, nat))
    requires gx < 127 && gz < 127 && r < 6
    ensures gx <= p.0 <= gx + 1 && gz <= p.1 <= gz + 1
  {
    match r
    case 0 => (gx, gz)
    case 1 => (gx, gz + 1)
    case 2 => (gx + 1, gz)
    case 3 => (gx + 1, gz)
    case 4 => (gx, gz + 1)
    case _ => (gx + 1, gz + 1)
  }

  /** Twice the signed area of triangle (a, b, c) in grid units: its winding. */
  function Winding(a: (nat, nat), b: (nat, nat), c: (nat, nat)): int {
    (b.0 - a.0) * (c.1 - a.1) - (b.1 - a.1) * (c.0 - a.0)
  }

  /**
   * Cell (gx, gz) is split along its bottom-left to top-right diagonal into
   * two triangles of the same winding and of half a cell each, which
   * between them use exactly the cell's four corners.
   */
  lemma CellTriangles(gx: nat, gz: nat)
    requires gx < 127 && gz < 127
    ensures Winding(Corner(gx, gz, 0), Corner(gx, gz, 1), Corner(gx, gz, 2)) == -1
    ensures Winding(Corner(gx, gz, 3), Corner(gx, gz, 4), Corner(gx, gz, 5)) == -1
    ensures Corner(gx, gz, 2) == Corner(gx, gz, 3) && Corner(gx, gz, 1) == Corner(gx, gz, 4)
    ensures (set r | 0 <= r < 6 :: Corner(gx, gz, r)) == {(gx, gz), (gx + 1, gz), (gx, gz + 1), (gx + 1, gz + 1)}
    ensures forall r :: 0 <= r < 6 ==> CellIndices(gx, gz)[r] == VertexId(Corner(gx, gz, r).0, Corner(gx, gz, r).1)
  {
    var cs := set r | 0 <= r < 6 :: Corner(gx, gz, r);
    assert Corner(gx, gz, 0) == (gx, gz) && Corner(gx, gz, 2) == (gx + 1, gz);
    assert Corner(gx, gz, 1) == (gx, gz + 1) && Corner(gx, gz, 5) == (gx + 1, gz + 1);
  }

  /** The vertex floats of the first n vertices of row z: x, 0, z grid coordinates each. */
  function RowVertices(math: GridMath, z: nat, n: nat): (fs: seq<F32>)
    requires math.Valid() && z < 128 && n <= 128
    ensures |fs| == 3 * n
  {
    if n == 0 then [] else RowVertices(math, z, n - 1) + [math.coord[n - 1], ZERO, math.coord[z]]
  }

  /** The vertex floats of the first rows rows of the grid. */
  function GridVertices(math: GridMath, rows: nat): (fs: seq<F32>)
    requires math.Valid() && rows <= 128
    ensures |fs| == 384 * rows
  {
    if rows == 0 then [] else GridVertices(math, rows - 1) + RowVertices(math, rows - 1, 128)
  }

  /** The texture coordinates of the first n vertices of row z. */
  function RowTexCoords(math: GridMath, z: nat, n: nat): (fs: seq<F32>)
    requires math.Valid() && z < 128 && n <= 128
    ensures |fs| == 2 * n
  {
    if n == 0 then [] else RowTexCoords(math, z, n - 1) + [math.tex[n - 1], math.tex[z]]
  }

  /** The texture coordinates of the first rows rows of the grid. */
  function GridTexCoords(math: GridMath, rows: nat): (fs: seq<F32>)
    requires math.Valid() && rows <= 128
    ensures |fs| == 256 * rows
  {
    if rows == 0 then [] else GridTexCoords(math, rows - 1) + RowTexCoords(math, rows - 1, 128)
  }

  /** n upward normals, (0, 1, 0) each. */
  function UpNormals(n: nat): (fs: seq<F32>)
    ensures |fs| == 3 * n
  {
    if n == 0 then [] else UpNormals(n - 1) + [ZERO, ONE, ZERO]
  }

  lemma {:induction false} RowVerticesAt(math: GridMath, z: nat, n: nat, x: nat)
    requires math.Valid() && z < 128 && x < n <= 128
    ensures RowVertices(math, z, n)[3 * x .. 3 * x + 3] == [math.coord[x], ZERO, math.coord[z]]
    ensures RowTexCoords(math, z, n)[2 * x .. 2 * x + 2] == [math.tex[x], math.tex[z]]
  {
    if x < n - 1 {
      RowVerticesAt(math, z, n - 1, x);
      assert RowVertices(math, z, n)[3 * x .. 3 * x + 3] == RowVertices(math, z, n - 1)[3 * x .. 3 * x + 3];
      assert RowTexCoords(math, z, n)[2 * x .. 2 * x + 2] == RowTexCoords(math, z, n - 1)[2 * x .. 2 * x + 2];
    }
  }

  /** Vertex (x, z) of the grid lies at column x and row z of the plane y = 0. */
  lemma {:induction false} GridVertexAt(math: GridMath, rows: nat, x: nat, z: nat)
    requires math.Valid() && rows <= 128 && x < 128 && z < rows
    ensures GridVertices(math, rows)[3 * VertexId(x, z) .. 3 * VertexId(x, z) + 3] == [math.coord[x], ZERO, math.coord[z]]
  {
    var k := VertexId(x, z);
    if z < rows - 1 {
      GridVertexAt(math, rows - 1, x, z);
      assert GridVertices(math, rows)[3 * k .. 3 * k + 3] == GridVertices(math, rows - 1)[3 * k .. 3 * k + 3];
    } else {
      RowVerticesAt(math, z, 128, x);
      assert GridVertices(math, rows)[3 * k .. 3 * k + 3] == RowVertices(math, z, 128)[3 * x .. 3 * x + 3];
    }
  }

  /** Vertex (x, z) has texture coordinates (x, z) scaled to the unit square. */
  lemma {:induction false} GridTexCoordAt(math: GridMath, rows: nat, x: nat, z: nat)
    requires math.Valid() && rows <= 128 && x < 128 && z < rows
    ensures GridTexCoords(math, rows)[2 * VertexId(x, z) .. 2 * VertexId(x, z) + 2] == [math.tex[x], math.tex[z]]
  {
    var k := VertexId(x, z);
    if z < rows - 1 {
      GridTexCoordAt(math, rows - 1, x, z);
      assert GridTexCoords(math, rows)[2 * k .. 2 * k + 2] == GridTexCoords(math, rows - 1)[2 * k .. 2 * k + 2];
    } else {
      RowVerticesAt(math, z, 128, x);
      assert GridTexCoords(math, rows)[2 * k .. 2 * k + 2] == RowTexCoords(math, z, 128)[2 * x .. 2 * x + 2];
    }
  }

  /** Every normal points straight up. */
  lemma {:induction false} UpNormalAt(n: nat, k: nat)
    requires k < n
    ensures UpNormals(n)[3 * k .. 3 * k + 3] == [ZERO, ONE, ZERO]
  {
    if k < n - 1 {
      UpNormalAt(n - 1, k);
      assert UpNormals(n)[3 * k .. 3 * k + 3] == UpNormals(n - 1)[3 * k .. 3 * k + 3];
    }
  }

  /** The six index entries of cell (gx, gz), its two triangles. */
  function CellIndices(gx: nat, gz: nat): (ks: seq<U16>)
    requires gx < 127 && gz < 127
    ensures |ks| == 6
  {
    var topLeft := gz * 128 + gx;
    var bottomLeft := (gz + 1) * 128 + gx;
    [topLeft, bottomLeft, topLeft + 1, topLeft + 1, bottomLeft, bottomLeft + 1]
  }

  /** The index entries of the first n cells of cell row gz. */
  function RowIndices(gz: nat, n: nat): (ks: seq<U16>)
    requires gz < 127 && n <= 127
    ensures |ks| == 6 * n
  {
    if n == 0 then [] else RowIndices(gz, n - 1) + CellIndices(n - 1, gz)
  }

  /** The index entries of the first rows cell rows. */
  function GridIndices(rows: nat): (ks: seq<U16>)
    requires rows <= 127
    ensures |ks| == 762 * rows
  {
    if rows == 0 then [] else GridIndices(rows - 1) + RowIndices(rows - 1, CELL_ROWS)
  }

  lemma {:induction false} RowIndicesAt(gz: nat, n: nat, gx: nat)
    requires gz < 127 && gx < n <= 127
    ensures RowIndices(gz, n)[6 * gx .. 6 * gx + 6] == CellIndices(gx, gz)
  {
    if gx < n - 1 {
      RowIndicesAt(gz, n - 1, gx);
      assert RowIndices(gz, n)[6 * gx .. 6 * gx + 6] == RowIndices(gz, n - 1)[6 * gx .. 6 * gx + 6];
    }
  }

  /** A slice of a + b that lies past a is a slice of b. */
  lemma SliceAfter<T>(a: seq<T>, b: seq<T>, lo: nat, hi: nat)
    requires |a| <= lo <= hi <= |a| + |b|
    ensures (a + b)[lo..hi] == b[lo - |a|..hi - |a|]
  {
  }

  /** A slice of a + b that lies within a is a slice of a. */
  lemma SliceBefore<T>(a: seq<T>, b: seq<T>, lo: nat, hi: nat)
    requires lo <= hi <= |a|
    ensures (a + b)[lo..hi] == a[lo..hi]
  {
  }

  /** Cell (gx, gz)'s two triangles sit at six times its cell number in the index buffer. */
  lemma {:induction false} GridCellAt(rows: nat, gx: nat, gz: nat)
    requires rows <= 127 && gx < 127 && gz < rows
    ensures GridIndices(rows)[6 * CellId(gx, gz) .. 6 * CellId(gx, gz) + 6] == CellIndices(gx, gz)
  {
    var c := CellId(gx, gz);
    if gz < rows - 1 {
      GridCellAt(rows - 1, gx, gz);
      SliceBefore(GridIndices(rows - 1), RowIndices(rows - 1, CELL_ROWS), 6 * c, 6 * c + 6);
    } else {
      RowIndicesAt(gz, CELL_ROWS, gx);
      SliceAfter(GridIndices(rows - 1), RowIndices(gz, CELL_ROWS), 6 * c, 6 * c + 6);
    }
  }

  /**
   * The grid's arrays, vertex by vertex: vertex (x, z) lies at column x
   * and row z of the plane y = 0, its normal points straight up, and its
   * texture coordinates are (x, z) scaled to the unit square.
   */
  lemma GridArrays(v: seq<F32>, ns: seq<F32>, t: seq<F32>, math: GridMath, rows: nat)
    requires math.Valid() && rows == 128
    requires v == GridVertices(math, rows) && ns == UpNormals(128 * rows) && t == GridTexCoords(math, rows)
    ensures forall x, z :: 0 <= x < 128 && 0 <= z < 128 ==>
      v[3 * VertexId(x, z)] == math.coord[x] && v[3 * VertexId(x, z) + 1] == ZERO && v[3 * VertexId(x, z) + 2] == math.coord[z]
    ensures forall x, z :: 0 <= x < 128 && 0 <= z < 128 ==>
      ns[3 * VertexId(x, z)] == ZERO && ns[3 * VertexId(x, z) + 1] == ONE && ns[3 * VertexId(x, z) + 2] == ZERO
    ensures forall x, z :: 0 <= x < 128 && 0 <= z < 128 ==>
      t[2 * VertexId(x, z)] == math.tex[x] && t[2 * VertexId(x, z) + 1] == math.tex[z]
  {
    forall x, z | 0 <= x < 128 && 0 <= z < 128 {
      VertexArraysAt(v, ns, t, math, rows, x, z);
    }
  }

  /** GridArrays for one vertex. */
  lemma VertexArraysAt(v: seq<F32>, ns: seq<F32>, t: seq<F32>, math: GridMath, rows: nat, x: nat, z: nat)
    requires math.Valid() && rows == 128 && x < 128 && z < 128
    requires v == GridVertices(math, rows) && ns == UpNormals(128 * rows) && t == GridTexCoords(math, rows)
    ensures v[3 * VertexId(x, z)] == math.coord[x] && v[3 * VertexId(x, z) + 1] == ZERO && v[3 * VertexId(x, z) + 2] == math.coord[z]
    ensures ns[3 * VertexId(x, z)] == ZERO && ns[3 * VertexId(x, z) + 1] == ONE && ns[3 * VertexId(x, z) + 2] == ZERO
    ensures t[2 * VertexId(x, z)] == math.tex[x] && t[2 * VertexId(x, z) + 1] == math.tex[z]
  {
    var k := VertexId(x, z);
    GridVertexAt(math, rows, x, z);
    Triple(v, 3 * k, math.coord[x], ZERO, math.coord[z]);
    UpNormalAt(128 * rows, k);
    Triple(ns, 3 * k, ZERO, ONE, ZERO);
    GridTexCoordAt(math, rows, x, z);
    assert t[2 * k .. 2 * k + 2][1] == t[2 * k + 1];
  }

  /** The three elements of a three-element slice. */
  lemma Triple<T>(s: seq<T>, i: nat, a: T, b: T, c: T)
    requires i + 3 <= |s| && s[i .. i + 3] == [a, b, c]
    ensures s[i] == a && s[i + 1] == b && s[i + 2] == c
  {
    assert s[i .. i + 3][1] == s[i + 1];
    assert s[i .. i + 3][2] == s[i + 2];
  }

  /** The index buffer, cell by cell: cell (gx, gz)'s two triangles sit at six times its cell number. */
  lemma GridCells(ix: seq<U16>, rows: nat)
    requires rows == 127 && ix == GridIndices(rows)
    ensures forall gx, gz, r :: 0 <= gx < 127 && 0 <= gz < 127 && 0 <= r < 6 ==>
      ix[6 * CellId(gx, gz) + r] == CellIndices(gx, gz)[r]
  {
    forall gx, gz, r | 0 <= gx < 127 && 0 <= gz < 127 && 0 <= r < 6
      ensures ix[6 * CellId(gx, gz) + r] == CellIndices(gx, gz)[r]
    {
      GridCellAt(rows, gx, gz);
      assert ix[6 * CellId(gx, gz) .. 6 * CellId(gx, gz) + 6][r] == ix[6 * CellId(gx, gz) + r];
    }
  }

  /** The material group the constructor sets: triangles 0 to 2 (N-1)^2 - 1, material 0. */
  const GROUPS: seq<U16> := [0, TRIANGLES - 1, 0]

  /**
   * The one draw call covers every index but the last three: the group's
   * end is one short of the triangle count, so the grid's last triangle
   * (the bottom-right half of the last cell) is never drawn.
   */
  lemma DrawSkipsLastTriangle()
    ensures DrawCalls(GROUPS, 1, 1) == [DrawCall(0, INDICES - 3, 0)]
    ensures DrawCalls(GROUPS, 1, 0) == []
  {
  }

  class Terrain {
    var position: Vec3
    const vertices: array<F32>
    const normals: array<F32>
    const textureCoords: array<F32>
    const indices: array<U16>
    var groups: seq<U16>
    var ngroups: nat
    var nmaterials: nat

    /**
     * Terrain::Terrain: the tile placed x and y tiles along, the grid's
     * vertices, normals and texture coordinates, the two triangles of
     * every cell, and one group of material 0.
     */
    constructor (x: F32, y: F32, math: GridMath)
      requires math.Valid()
      ensures position == Vec3(math.place(x), ZERO, math.place(y))
      ensures vertices.Length == 3 * COUNT && normals.Length == 3 * COUNT
      ensures textureCoords.Length == 2 * COUNT && indices.Length == INDICES
      ensures forall x, z :: 0 <= x < 128 && 0 <= z < 128 ==>
        vertices[3 * VertexId(x, z)] == math.coord[x] && vertices[3 * VertexId(x, z) + 1] == ZERO && vertices[3 * VertexId(x, z) + 2] == math.coord[z]
      ensures forall x, z :: 0 <= x < 128 && 0 <= z < 128 ==>
        normals[3 * VertexId(x, z)] == ZERO && normals[3 * VertexId(x, z) + 1] == ONE && normals[3 * VertexId(x, z) + 2] == ZERO
      ensures forall x, z :: 0 <= x < 128 && 0 <= z < 128 ==>
        textureCoords[2 * VertexId(x, z)] == math.tex[x] && textureCoords[2 * VertexId(x, z) + 1] == math.tex[z]
      ensures forall gx, gz, r :: 0 <= gx < 127 && 0 <= gz < 127 && 0 <= r < 6 ==>
        indices[6 * CellId(gx, gz) + r] == CellIndices(gx, gz)[r]
      ensures groups == GROUPS && ngroups == 1 && nmaterials == 1
    {
      position := Vec3(math.place(x), ZERO, math.place(y));
      var vs := new F32[3 * COUNT](_ => ZERO);
      var ns := new F32[3 * COUNT](_ => ZERO);
      var ts := new F32[2 * COUNT](_ => ZERO);
      var ix := new U16[INDICES](_ => 0);
      FillGrid(vs, ns, ts, math);
      FillIndices(ix);
      vertices := vs;
      normals := ns;
      textureCoords := ts;
      indices := ix;
      groups := GROUPS;
      ngroups := 1;
      nmaterials := 1;
    }

    /** Terrain::draw: the draw call of its one group, if the material is in range. */
    method Draw() returns (call: Option<DrawCall>)
      requires |groups| >= 3
      ensures call == GroupDraw(groups, 0, nmaterials)
    {
      var first := groups[0] as int * 3;
      var last := groups[1] as int * 3;
      if groups[2] < nmaterials {
        call := Some(DrawCall(groups[2], last - first, first * 2));
      } else {
        call := None;
      }
    }
  }

  /** The vertex loop of the constructor, row by row and column by column. */
  method FillGrid(vertices: array<F32>, normals: array<F32>, textureCoords: array<F32>, math: GridMath)
    requires vertices.Length == 3 * COUNT && normals.Length == 3 * COUNT && textureCoords.Length == 2 * COUNT
    requires vertices != normals && math.Valid()
    modifies vertices, normals, textureCoords
    ensures forall x, z :: 0 <= x < 128 && 0 <= z < 128 ==>
      vertices[3 * VertexId(x, z)] == math.coord[x] && vertices[3 * VertexId(x, z) + 1] == ZERO && vertices[3 * VertexId(x, z) + 2] == math.coord[z]
    ensures forall x, z :: 0 <= x < 128 && 0 <= z < 128 ==>
      normals[3 * VertexId(x, z)] == ZERO && normals[3 * VertexId(x, z) + 1] == ONE && normals[3 * VertexId(x, z) + 2] == ZERO
    ensures forall x, z :: 0 <= x < 128 && 0 <= z < 128 ==>
      textureCoords[2 * VertexId(x, z)] == math.tex[x] && textureCoords[2 * VertexId(x, z) + 1] == math.tex[z]
  {
    var i := 0;
    while i < 128
      invariant 0 <= i <= 128
      invariant vertices[..384 * i] == GridVertices(math, i)
      invariant normals[..384 * i] == UpNormals(128 * i)
      invariant textureCoords[..256 * i] == GridTexCoords(math, i)
    {
      FillRow(vertices, normals, textureCoords, i, math);
      i := i + 1;
    }
    GridArrays(vertices[..384 * i], normals[..384 * i], textureCoords[..256 * i], math, i);
  }

  /** The inner vertex loop: row i, column by column, after the rows before it. */
  method FillRow(vertices: array<F32>, normals: array<F32>, textureCoords: array<F32>, i: nat, math: GridMath)
    requires vertices.Length == 3 * COUNT && normals.Length == 3 * COUNT && textureCoords.Length == 2 * COUNT
    requires vertices != normals && math.Valid() && i < 128
    requires normals[..384 * i] == UpNormals(128 * i)
    modifies vertices, normals, textureCoords
    ensures vertices[..384 * (i + 1)] == old(vertices[..384 * i]) + RowVertices(math, i, 128)
    ensures normals[..384 * (i + 1)] == UpNormals(128 * (i + 1))
    ensures textureCoords[..256 * (i + 1)] == old(textureCoords[..256 * i]) + RowTexCoords(math, i, 128)
  {
    var vertexPointer := i * 128;
    var j := 0;
    while j < 128
      invariant 0 <= j <= 128 && vertexPointer == i * 128 + j
      invariant vertices[..3 * vertexPointer] == old(vertices[..384 * i]) + RowVertices(math, i, j)
      invariant normals[..3 * vertexPointer] == UpNormals(vertexPointer)
      invariant textureCoords[..2 * vertexPointer] == old(textureCoords[..256 * i]) + RowTexCoords(math, i, j)
    {
      PutVertex(vertices, normals, textureCoords, vertexPointer, j, i, math);
      vertexPointer := vertexPointer + 1;
      j := j + 1;
    }
  }

  /** One turn of the vertex loop: vertex k, at column j and row i, after the ones before it. */
  method PutVertex(vertices: array<F32>, normals: array<F32>, textureCoords: array<F32>, k: nat, j: nat, i: nat, math: GridMath)
    requires vertices.Length == 3 * COUNT && normals.Length == 3 * COUNT && textureCoords.Length == 2 * COUNT
    requires vertices != normals && math.Valid()
    requires j < 128 && i < 128 && k == VertexId(j, i)
    modifies vertices, normals, textureCoords
    ensures vertices[..3 * k + 3] == old(vertices[..3 * k]) + [math.coord[j], ZERO, math.coord[i]]
    ensures normals[..3 * k + 3] == old(normals[..3 * k]) + [ZERO, ONE, ZERO]
    ensures textureCoords[..2 * k + 2] == old(textureCoords[..2 * k]) + [math.tex[j], math.tex[i]]
  {
    vertices[k * 3] := math.coord[j];
    vertices[k * 3 + 1] := ZERO;
    vertices[k * 3 + 2] := math.coord[i];
    normals[k * 3] := ZERO;
    normals[k * 3 + 1] := ONE;
    normals[k * 3 + 2] := ZERO;
    textureCoords[k * 2] := math.tex[j];
    textureCoords[k * 2 + 1] := math.tex[i];
  }

  /** The index loop of the constructor, cell row by cell row. */
  method FillIndices(indices: array<U16>)
    requires indices.Length == INDICES
    modifies indices
    ensures forall gx, gz, r :: 0 <= gx < 127 && 0 <= gz < 127 && 0 <= r < 6 ==>
      indices[6 * CellId(gx, gz) + r] == CellIndices(gx, gz)[r]
  {
    var gz := 0;
    while gz < 127
      invariant 0 <= gz <= 127
      invariant indices[..762 * gz] == GridIndices(gz)
    {
      FillCellRow(indices, gz);
      gz := gz + 1;
    }
    GridCells(indices[..762 * gz], gz);
  }

  /** The inner index loop: the cells of row gz, after the rows before it. */
  method FillCellRow(indices: array<U16>, gz: nat)
    requires indices.Length == INDICES && gz < 127
    modifies indices
    ensures indices[..762 * (gz + 1)] == old(indices[..762 * gz]) + RowIndices(gz, CELL_ROWS)
  {
    var pointer := 762 * gz;
    var gx := 0;
    while gx < 127
      invariant 0 <= gx <= 127 && pointer == 762 * gz + 6 * gx
      invariant indices[..pointer] == old(indices[..762 * gz]) + RowIndices(gz, gx)
    {
      var topLeft := gz * 128 + gx;
      var topRight := topLeft + 1;
      var bottomLeft := (gz + 1) * 128 + gx;
      var bottomRight := bottomLeft + 1;
      ghost var before := indices[..pointer];
      indices[pointer] := topLeft;
      indices[pointer + 1] := bottomLeft;
      indices[pointer + 2] := topRight;
      indices[pointer + 3] := topRight;
      indices[pointer + 4] := bottomLeft;
      indices[pointer + 5] := bottomRight;
      assert indices[..pointer + 6] == before + CellIndices(gx, gz);
      pointer := pointer + 6;
      gx := gx + 1;
    }
  }
}
