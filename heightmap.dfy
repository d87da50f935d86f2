/**
 * The heightmap mesh builder: a width x height greyscale bitmap becomes a
 * vertex buffer (position and normal per pixel, row-major) and an index buffer
 * (two triangles per grid cell, 16-bit unsigned indices).
 *
 * Floating-point values are kept symbolic. A `Point` records the inputs the
 * source's float formulas are applied to: the column the x position is derived
 * from, the red channel the y position is derived from, and the row the z
 * position is derived from. A normal is recorded as the four neighbour points
 * it is computed from.
 */
module Heightmap {
  import Grid

  /** Number of distinct vertex indices an unsigned 16-bit index can hold. */
  const MaxVertices := 0x1_0000
  /** Floats per vertex: three position components, then three normal components. */
  const ComponentsPerVertex := 6
  /** Indices per grid cell: two triangles of three vertices. */
  const IndicesPerCell := 6
  const MaxJavaInt := 0x7FFF_FFFF

  /** A decoded bitmap: `pixels` holds `width * height` colours, row-major with stride `width`. */
  datatype Bitmap = Bitmap(width: int, height: int, pixels: seq<int>)

  predicate ValidBitmap(b: Bitmap)
  {
    1 <= b.width && 1 <= b.height && b.width * b.height <= MaxJavaInt &&
    |b.pixels| == b.width * b.height
  }

  datatype HeightmapError =
    | TooLargeForIndexBuffer   // the explicit size check of the constructor
    | PixelIndexOutOfBounds    // an array access outside `pixels`, which the JVM raises

  datatype Result<T> = Ok(value: T) | Err(error: HeightmapError)

  /** The built mesh; every field is fixed once the constructor returns. */
  datatype Heightmap = Heightmap(
    width: int, height: int, numElements: int,
    vertices: seq<Slot>,   // contents uploaded to the vertex buffer
    indices: seq<int>)     // contents uploaded to the index buffer, as Java shorts

  // ---------------------------------------------------------------- integers

  /** Java's narrowing cast `(short) x`: keep the low 16 bits, read as two's complement. */
  function ToShort(x: int): (s: int)
    ensures -0x8000 <= s < 0x8000
    ensures (x - s) % 0x1_0000 == 0
  {
    var low := x % 0x1_0000;
    if low < 0x8000 then low else low - 0x1_0000
  }

  /** How the GPU reads a stored short under the unsigned 16-bit index format. */
  function AsUnsignedShort(s: int): (u: int)
    ensures 0 <= u < 0x1_0000
    ensures (s - u) % 0x1_0000 == 0
  {
    s % 0x1_0000
  }

  /** The cast to short and back loses nothing for an index below 65536. */
  lemma ShortCastLossless(x: int)
    requires 0 <= x < MaxVertices
    ensures AsUnsignedShort(ToShort(x)) == x
  {
  }

  /** `Math.max(min, Math.min(max, val))`. */
  function Clamp(val: int, min: int, max: int): (r: int)
    ensures min <= max ==> min <= r <= max
    ensures min <= val <= max ==> r == val
    ensures val < min ==> r == min
    ensures min <= max < val ==> r == max
  {
    var upper := if max < val then max else val;
    if min > upper then min else upper
  }

  lemma ClampIdempotent(val: int, min: int, max: int)
    requires min <= max
    ensures Clamp(Clamp(val, min, max), min, max) == Clamp(val, min, max)
  {
  }

  /**
   * The element count handed to the draw call: six indices per grid cell, so a
   * multiple of six, and zero exactly when the bitmap is one pixel wide or high.
   */
  function NumElements(width: int, height: int): (n: int)
    ensures 1 <= width && 1 <= height ==> 0 <= n
    ensures n % 6 == 0
    ensures 1 <= width && 1 <= height ==> (n == 0 <==> width == 1 || height == 1)
  {
    (width - 1) * (height - 1) * 2 * 3
  }

  // ------------------------------------------------------------ pixel sampling

  /** `Color.red`: bits 16..23 of the colour, `(color >> 16) & 0xFF`. */
  function Red(color: int): (r: int)
    ensures 0 <= r < 0x100
  {
    (color / 0x1_0000) % 0x100
  }

  /** The pixel lookup as the source writes it: `row * height + col`. */
  function PixelIndex(height: int, row: int, col: int): int
  {
    row * height + col
  }

  /** The inputs of one sampled position; see the module comment. */
  datatype Point = Point(col: int, red: int, row: int)

  lemma ClampedIndexInBounds(width: int, height: int, row: int, col: int)
    requires 0 <= row < width && 0 <= col < height
    ensures 0 <= PixelIndex(height, row, col) < width * height
  {
    Grid.MulLe(row, width - 1, height);
    Grid.MulSucc(width - 1, height);
    assert row * height == height * row && width * height == (width - 1) * height + height;
  }

  /**
   * `getPoint`: x and z come from the coordinates as given, only the height
   * sample uses clamped ones. The row is clamped by the width and the column
   * by the height.
   */
  function GetPoint(b: Bitmap, row: int, col: int): (p: Point)
    requires ValidBitmap(b)
    ensures p.col == col && p.row == row
  {
    var r := Clamp(row, 0, b.width - 1);
    var c := Clamp(col, 0, b.height - 1);
    ClampedIndexInBounds(b.width, b.height, r, c);
    Point(col, Red(b.pixels[PixelIndex(b.height, r, c)]), row)
  }

  /** Whatever the coordinates, `getPoint` reads inside `pixels`. */
  lemma GetPointInBounds(b: Bitmap, row: int, col: int)
    requires ValidBitmap(b)
    ensures 0 <= PixelIndex(b.height, Clamp(row, 0, b.width - 1), Clamp(col, 0, b.height - 1)) < |b.pixels|
  {
    ClampedIndexInBounds(b.width, b.height, Clamp(row, 0, b.width - 1), Clamp(col, 0, b.height - 1));
  }

  /** For a square bitmap, an on-grid sample is the pixel at (row, col) of the row-major image. */
  lemma GetPointSquare(b: Bitmap, row: int, col: int)
    requires ValidBitmap(b) && b.width == b.height
    requires 0 <= row < b.height && 0 <= col < b.width
    ensures 0 <= row * b.width + col < |b.pixels|
    ensures GetPoint(b, row, col) == Point(col, Red(b.pixels[row * b.width + col]), row)
  {
    ClampedIndexInBounds(b.width, b.height, row, col);
  }

  /** An off-grid sample takes the height of the edge sample it is clamped onto. */
  lemma GetPointCollapsesOntoEdge(b: Bitmap, row: int, col: int)
    requires ValidBitmap(b)
    ensures GetPoint(b, row, col).red ==
            GetPoint(b, Clamp(row, 0, b.width - 1), Clamp(col, 0, b.height - 1)).red
  {
    ClampIdempotent(row, 0, b.width - 1);
    ClampIdempotent(col, 0, b.height - 1);
  }

  /**
   * A bitmap one pixel high shows the transposition: every sample of its only
   * row reads the first pixel, whatever the column, while the bottom neighbour
   * in row 1 is clamped by `width - 1` and reads the second pixel.
   */
  lemma SingleRowReadsFirstPixel(b: Bitmap, col: int)
    requires ValidBitmap(b) && b.height == 1
    ensures GetPoint(b, 0, col).red == Red(b.pixels[0])
    ensures 2 <= b.width ==> GetPoint(b, 1, col).red == Red(b.pixels[1])
  {
  }

  /**
   * In a bitmap three wide and two high, the sample at (0, 1) is pixel (0, 1)
   * of the row-major image, but the sample at (1, 0) is `pixels[2]`, which is
   * pixel (0, 2) rather than pixel (1, 0) at `pixels[3]`.
   */
  lemma NonSquareSample(b: Bitmap)
    requires ValidBitmap(b) && b.width == 3 && b.height == 2
    ensures GetPoint(b, 0, 1).red == Red(b.pixels[0 * b.width + 1])
    ensures GetPoint(b, 1, 0).red == Red(b.pixels[2])
  {
  }

  /**
   * The lookup `row * height + col` of the unused y position, taken for every
   * on-grid vertex, stays inside `pixels` exactly when the bitmap is not
   * taller than wide.
   */
  lemma {:induction false} GridSampleInBounds(width: int, height: int)
    requires 1 <= width && 1 <= height
    ensures (forall row, col :: 0 <= row < height && 0 <= col < width ==>
              PixelIndex(height, row, col) < width * height)
            <==> width >= height
  {
    if width >= height {
      forall row, col | 0 <= row < height && 0 <= col < width
        ensures PixelIndex(height, row, col) < width * height
      {
        GridSamplePast(width, height, row, col);
      }
    } else {
      LastGridSample(width, height);
    }
  }

  lemma GridSamplePast(width: int, height: int, row: int, col: int)
    requires 1 <= height <= width
    requires 0 <= row < height && 0 <= col < width
    ensures PixelIndex(height, row, col) < width * height
  {
    Grid.MulLe(height, width, row);
    Grid.MulSucc(row, width);
    Grid.MulLe(row + 1, height, width);
    assert width * (row + 1) == (row + 1) * width;
  }

  /** The last vertex's lookup is the first to leave `pixels` when the bitmap is taller than wide. */
  lemma LastGridSample(width: int, height: int)
    requires 1 <= width && 1 <= height
    ensures PixelIndex(height, height - 1, width - 1) < width * height <==> width >= height
  {
    if width >= height {
      GridSamplePast(width, height, height - 1, width - 1);
    } else {
      Grid.MulLe(width, height - 1, height);
      assert (height - 1) * height == height * (height - 1);
      assert width * height == height * width;
    }
  }

  // ----------------------------------------------------------- vertex buffer

  /** The four neighbours a vertex normal is computed from. */
  datatype Stencil = Stencil(top: Point, left: Point, right: Point, bottom: Point)

  /** One float of the vertex buffer: which component of which point or normal it is. */
  datatype Slot =
    | PositionX(p: Point) | PositionY(p: Point) | PositionZ(p: Point)
    | NormalX(s: Stencil) | NormalY(s: Stencil) | NormalZ(s: Stencil)

  /** The six floats written for the vertex at (row, col). */
  function VertexSlots(b: Bitmap, row: int, col: int): (v: seq<Slot>)
    requires ValidBitmap(b)
    ensures |v| == ComponentsPerVertex
  {
    var point := GetPoint(b, row, col);
    var around := Stencil(GetPoint(b, row - 1, col), GetPoint(b, row, col - 1),
                          GetPoint(b, row, col + 1), GetPoint(b, row + 1, col));
    [PositionX(point), PositionY(point), PositionZ(point),
     NormalX(around), NormalY(around), NormalZ(around)]
  }

  function VertexCells(b: Bitmap): (nat, nat) -> seq<Slot>
    requires ValidBitmap(b)
  {
    (r: nat, c: nat) => VertexSlots(b, r, c)
  }

  lemma VertexCellsUniform(b: Bitmap)
    requires ValidBitmap(b)
    ensures Grid.Uniform(ComponentsPerVertex, VertexCells(b))
  {
  }

  /** The whole vertex buffer: every pixel's vertex in row-major order, indexed. */
  function VertexData(b: Bitmap): seq<Slot>
    requires ValidBitmap(b)
  {
    VertexCellsUniform(b);
    Grid.Flat(b.height, b.width, ComponentsPerVertex, VertexCells(b))
  }

  /** Six floats per pixel: the float array the source allocates has exactly this length. */
  lemma VertexDataLength(b: Bitmap)
    requires ValidBitmap(b)
    ensures |VertexData(b)| == b.width * b.height * ComponentsPerVertex
  {
    assert b.height * b.width == b.width * b.height;
  }

  /** Float j of vertex (row, col) sits at offset 6 * (row * width + col) + j. */
  lemma VertexLayout(b: Bitmap, row: nat, col: nat, j: nat)
    requires ValidBitmap(b)
    requires row < b.height && col < b.width && j < ComponentsPerVertex
    ensures ComponentsPerVertex * (row * b.width + col) + j < |VertexData(b)|
    ensures VertexData(b)[ComponentsPerVertex * (row * b.width + col) + j] == VertexSlots(b, row, col)[j]
  {
    VertexCellsUniform(b);
    Grid.FlatAt(b.height, b.width, ComponentsPerVertex, VertexCells(b), row, col, j);
    assert VertexCells(b)(row, col) == VertexSlots(b, row, col);
  }

  /**
   * The normal of a vertex is taken from its four axis neighbours. Positions of
   * the neighbours use the unclamped coordinates; at the first row and the first
   * column the missing neighbour's height is the vertex's own, and so it is at
   * the last row and column of a square bitmap.
   */
  lemma NormalStencil(b: Bitmap, row: int, col: int)
    requires ValidBitmap(b)
    requires 0 <= row < b.height && 0 <= col < b.width
    ensures var s := VertexSlots(b, row, col)[3].s;
            var own := GetPoint(b, row, col).red;
            s.top.row == row - 1 && s.top.col == col &&
            s.bottom.row == row + 1 && s.bottom.col == col &&
            s.left.row == row && s.left.col == col - 1 &&
            s.right.row == row && s.right.col == col + 1 &&
            (row == 0 ==> s.top.red == own) &&
            (col == 0 ==> s.left.red == own) &&
            (b.width == b.height && row == b.height - 1 ==> s.bottom.red == own) &&
            (b.width == b.height && col == b.width - 1 ==> s.right.red == own)
  {
  }

  /** Vertex number v of the buffer is the vertex of pixel (v / width, v % width). */
  lemma VertexNumber(b: Bitmap, v: int)
    requires ValidBitmap(b)
    requires 0 <= v < b.width * b.height
    ensures ComponentsPerVertex * v < |VertexData(b)|
    ensures VertexData(b)[ComponentsPerVertex * v] == PositionX(GetPoint(b, v / b.width, v % b.width))
  {
    var row, col := v / b.width, v % b.width;
    assert v == row * b.width + col;
    if row >= b.height {
      Grid.MulLe(b.height, row, b.width);
      assert false;
    }
    VertexLayout(b, row, col, 0);
  }

  /** A sequence with the layout of the vertex data, to fill the array against. */
  lemma VertexBuffer(b: Bitmap) returns (data: seq<Slot>)
    requires ValidBitmap(b)
    ensures Grid.LaidOut(b.height, b.width, ComponentsPerVertex, VertexCells(b), data)
  {
    VertexCellsUniform(b);
    data := VertexData(b);
    Grid.FlatLaidOut(b.height, b.width, ComponentsPerVertex, VertexCells(b));
  }

  /** A buffer that agrees with a sequence laid out like the vertex data is the vertex data. */
  lemma FilledIsVertexData(b: Bitmap, data: seq<Slot>, filled: seq<Slot>)
    requires ValidBitmap(b)
    requires Grid.LaidOut(b.height, b.width, ComponentsPerVertex, VertexCells(b), data)
    requires |filled| == |data|
    requires forall i :: 0 <= i < |filled| ==> filled[i] == data[i]
    ensures filled == VertexData(b)
  {
    assert filled == data;
    VertexCellsUniform(b);
    Grid.LaidOutIsFlat(b.height, b.width, ComponentsPerVertex, VertexCells(b), data);
  }

  /** What a buffer laid out like the vertex data holds at the six floats of pixel (row, col), from offset o on. */
  lemma VertexEntries(b: Bitmap, data: seq<Slot>, row: nat, col: nat, o: nat)
    requires ValidBitmap(b) && row < b.height && col < b.width
    requires Grid.LaidOut(b.height, b.width, ComponentsPerVertex, VertexCells(b), data)
    requires o == ComponentsPerVertex * (row * b.width + col)
    ensures o + ComponentsPerVertex <= |data|
    ensures data[o] == PositionX(GetPoint(b, row, col))
    ensures data[o + 1] == PositionY(GetPoint(b, row, col))
    ensures data[o + 2] == PositionZ(GetPoint(b, row, col))
    ensures data[o + 3] == NormalX(VertexSlots(b, row, col)[3].s)
    ensures data[o + 4] == NormalY(VertexSlots(b, row, col)[3].s)
    ensures data[o + 5] == NormalZ(VertexSlots(b, row, col)[3].s)
  {
    Grid.CellOffsetBound(b.height, b.width, ComponentsPerVertex, row, col);
    ghost var cells := VertexCells(b);
    assert Grid.EntryAt(b.width, ComponentsPerVertex, cells, data, row, col, 0);
    assert Grid.EntryAt(b.width, ComponentsPerVertex, cells, data, row, col, 1);
    assert Grid.EntryAt(b.width, ComponentsPerVertex, cells, data, row, col, 2);
    assert Grid.EntryAt(b.width, ComponentsPerVertex, cells, data, row, col, 3);
    assert Grid.EntryAt(b.width, ComponentsPerVertex, cells, data, row, col, 4);
    assert Grid.EntryAt(b.width, ComponentsPerVertex, cells, data, row, col, 5);
    assert cells(row, col) == VertexSlots(b, row, col);
  }

  /**
   * The body of the inner loop of `loadBitmapData`: writes the position of
   * pixel (row, col), then its normal, at the running offset.
   */
  method PutVertex(heightmapVertices: array<Slot>, offset: nat, b: Bitmap, row: nat, col: nat, ghost data: seq<Slot>)
      returns (next: nat)
    requires ValidBitmap(b) && row < b.height && col < b.width
    requires Grid.LaidOut(b.height, b.width, ComponentsPerVertex, VertexCells(b), data)
    requires offset == ComponentsPerVertex * (row * b.width + col)
    requires heightmapVertices.Length == |data|
    modifies heightmapVertices
    ensures next == offset + ComponentsPerVertex <= heightmapVertices.Length
    ensures forall i :: offset <= i < next ==> heightmapVertices[i] == data[i]
    ensures forall i :: 0 <= i < heightmapVertices.Length && !(offset <= i < next) ==>
              heightmapVertices[i] == old(heightmapVertices[i])
  {
    VertexEntries(b, data, row, col, offset);
    next := offset;

    var point := GetPoint(b, row, col);
    heightmapVertices[next] := PositionX(point);
    next := next + 1;
    heightmapVertices[next] := PositionY(point);
    next := next + 1;
    heightmapVertices[next] := PositionZ(point);
    next := next + 1;

    var top := GetPoint(b, row - 1, col);
    var left := GetPoint(b, row, col - 1);
    var right := GetPoint(b, row, col + 1);
    var bottom := GetPoint(b, row + 1, col);
    var around := Stencil(top, left, right, bottom);
    heightmapVertices[next] := NormalX(around);
    next := next + 1;
    heightmapVertices[next] := NormalY(around);
    next := next + 1;
    heightmapVertices[next] := NormalZ(around);
    next := next + 1;
  }

  /**
   * `loadBitmapData`: fills a fresh float array, vertex by vertex in row-major
   * order, through a running offset. The unused y position of line 57 still
   * indexes `pixels` with `row * height + col`; when that is out of bounds the
   * JVM raises, which the model returns as an error. Its only caller, the
   * constructor, has already rejected bitmaps of more than 65536 pixels.
   */
  method LoadBitmapData(b: Bitmap) returns (r: Result<array<Slot>>)
    requires ValidBitmap(b) && b.width * b.height <= MaxVertices
    ensures r.Err? <==> b.width < b.height
    ensures r.Err? ==> r.error == PixelIndexOutOfBounds
    ensures r.Ok? ==> fresh(r.value) && r.value[..] == VertexData(b)
  {
    var width, height, pixels := b.width, b.height, b.pixels;
    var heightmapVertices := new Slot[width * height * ComponentsPerVertex];
    ghost var data := VertexBuffer(b);
    var offset := 0;
    var row := 0;
    while row < height
      invariant 0 <= row <= height
      invariant offset == ComponentsPerVertex * (row * width)
      invariant offset <= heightmapVertices.Length
      invariant forall i :: 0 <= i < offset ==> heightmapVertices[i] == data[i]
      invariant row > 0 ==> PixelIndex(height, row - 1, width - 1) < |pixels|
    {
      var col := 0;
      while col < width
        invariant 0 <= col <= width
        invariant offset == ComponentsPerVertex * (row * width + col)
        invariant offset <= heightmapVertices.Length
        invariant forall i :: 0 <= i < offset ==> heightmapVertices[i] == data[i]
        invariant col > 0 ==> PixelIndex(height, row, col - 1) < |pixels|
      {
        if PixelIndex(height, row, col) >= |pixels| {
          if width >= height {
            GridSamplePast(width, height, row, col);
            assert false;
          }
          return Err(PixelIndexOutOfBounds);
        }
        offset := PutVertex(heightmapVertices, offset, b, row, col, data);
        col := col + 1;
      }
      Grid.MulSucc(row, width);
      assert offset == ComponentsPerVertex * ((row + 1) * width);
      row := row + 1;
    }
    LastGridSample(width, height);
    assert row == height;
    assert offset == heightmapVertices.Length;
    FilledIsVertexData(b, data, heightmapVertices[..]);
    return Ok(heightmapVertices);
  }

  // ------------------------------------------------------------ index buffer

  /**
   * The six vertex indices of grid cell (row, col) in emission order:
   * triangle (topLeft, bottomLeft, topRight), then (topRight, bottomLeft, bottomRight).
   */
  function Triangles(width: int, row: int, col: int): (t: seq<int>)
    ensures |t| == 6
    ensures t[0] == row * width + col
    ensures t[2] == t[0] + 1 && t[1] == t[0] + width && t[5] == t[1] + 1
    ensures t[3] == t[2] && t[4] == t[1]
  {
    var topLeft := row * width + col;
    var topRight := row * width + col + 1;
    var bottomLeft := (row + 1) * width + col;
    var bottomRight := (row + 1) * width + col + 1;
    [topLeft, bottomLeft, topRight, topRight, bottomLeft, bottomRight]
  }

  /** The same six indices as stored in the `short[]`. */
  function IndexCell(width: int, row: int, col: int): (s: seq<int>)
    ensures |s| == IndicesPerCell
    ensures forall j :: 0 <= j < IndicesPerCell ==> s[j] == ToShort(Triangles(width, row, col)[j])
  {
    var t := Triangles(width, row, col);
    [ToShort(t[0]), ToShort(t[1]), ToShort(t[2]), ToShort(t[3]), ToShort(t[4]), ToShort(t[5])]
  }

  function IndexCells(width: int): (nat, nat) -> seq<int>
  {
    (r: nat, c: nat) => IndexCell(width, r, c)
  }

  lemma IndexCellsUniform(width: int)
    ensures Grid.Uniform(IndicesPerCell, IndexCells(width))
  {
  }

  /** The whole index buffer: every cell's two triangles in row-major cell order, indexed. */
  function Tessellation(width: int, height: int): seq<int>
    requires 1 <= width && 1 <= height
  {
    IndexCellsUniform(width);
    Grid.Flat(height - 1, width - 1, IndicesPerCell, IndexCells(width))
  }

  /** The index buffer has exactly `numElements` entries. */
  lemma TessellationLength(width: int, height: int)
    requires 1 <= width && 1 <= height
    ensures |Tessellation(width, height)| == NumElements(width, height)
  {
    assert (height - 1) * (width - 1) == (width - 1) * (height - 1);
  }

  /**
   * Cell (row, col) occupies positions 6 * (row * (width - 1) + col) to +5, and
   * under the size limit the GPU reads back exactly the vertex indices computed.
   */
  lemma TessellationCell(width: int, height: int, row: nat, col: nat, j: nat)
    requires 1 <= width && 1 <= height
    requires row < height - 1 && col < width - 1 && j < IndicesPerCell
    ensures IndicesPerCell * (row * (width - 1) + col) + j < |Tessellation(width, height)|
    ensures Tessellation(width, height)[IndicesPerCell * (row * (width - 1) + col) + j] ==
            ToShort(Triangles(width, row, col)[j])
    ensures width * height <= MaxVertices ==>
              AsUnsignedShort(Tessellation(width, height)[IndicesPerCell * (row * (width - 1) + col) + j]) ==
              Triangles(width, row, col)[j]
  {
    IndexCellsUniform(width);
    Grid.FlatAt(height - 1, width - 1, IndicesPerCell, IndexCells(width), row, col, j);
    if width * height <= MaxVertices {
      TrianglesInRange(width, height, row, col);
      ShortCastLossless(Triangles(width, row, col)[j]);
    }
  }

  /** Every corner of an on-grid cell is a vertex of the mesh. */
  lemma TrianglesInRange(width: int, height: int, row: int, col: int)
    requires 1 <= width && 0 <= row < height - 1 && 0 <= col < width - 1
    ensures forall j :: 0 <= j < 6 ==> 0 <= Triangles(width, row, col)[j] < width * height
  {
    Grid.MulLe(row + 1, height - 1, width);
    Grid.MulSucc(height - 1, width);
    assert (row + 1) * width == width * (row + 1) && (height - 1) * width == width * (height - 1);
    assert height * width == width * height;
    Grid.MulSucc(row, width);
  }

  /** Under the size limit every index the GPU reads names one of the width * height vertices. */
  lemma TessellationInRange(width: int, height: int)
    requires 1 <= width && 1 <= height && width * height <= MaxVertices
    ensures forall i :: 0 <= i < |Tessellation(width, height)| ==>
              0 <= AsUnsignedShort(Tessellation(width, height)[i]) < width * height
  {
    var inRange := (x: int) => 0 <= AsUnsignedShort(x) < width * height;
    forall r: nat, c: nat, x | r < height - 1 && c < width - 1 && x in IndexCells(width)(r, c)
      ensures inRange(x)
    {
      TrianglesInRange(width, height, r, c);
      var t := Triangles(width, r, c);
      var s := IndexCell(width, r, c);
      var j :| 0 <= j < 6 && s[j] == x;
      ShortCastLossless(t[j]);
    }
    IndexCellsUniform(width);
    Grid.FlatEvery(height - 1, width - 1, IndicesPerCell, IndexCells(width), inRange);
  }

  /** Twice the signed area of triangle (a, b, c), each vertex at (v % width, v / width). */
  function Orientation(width: int, a: int, b: int, c: int): int
    requires width >= 1
  {
    (b % width - a % width) * (c / width - a / width) -
    (b / width - a / width) * (c % width - a % width)
  }

  /**
   * Both triangles of every cell wind the same way in the (column, row) plane
   * and share the diagonal from bottomLeft to topRight.
   */
  lemma CellWinding(width: int, row: int, col: int)
    requires width >= 1 && 0 <= row && 0 <= col < width - 1
    ensures var t := Triangles(width, row, col);
            Orientation(width, t[0], t[1], t[2]) == -1 &&
            Orientation(width, t[3], t[4], t[5]) == -1 &&
            t[1] == t[4] && t[2] == t[3]
  {
    Grid.DivMod(row, col, width);
    Grid.DivMod(row, col + 1, width);
    Grid.DivMod(row + 1, col, width);
    Grid.DivMod(row + 1, col + 1, width);
    Grid.MulSucc(row, width);
  }

  /** A sequence with the layout of the index data, to fill the array against. */
  lemma IndexBuffer(width: int, height: int) returns (data: seq<int>)
    requires 1 <= width && 1 <= height
    ensures Grid.LaidOut(height - 1, width - 1, IndicesPerCell, IndexCells(width), data)
    ensures |data| == NumElements(width, height)
  {
    IndexCellsUniform(width);
    data := Tessellation(width, height);
    Grid.FlatLaidOut(height - 1, width - 1, IndicesPerCell, IndexCells(width));
    TessellationLength(width, height);
  }

  /** A buffer that agrees with a sequence laid out like the index data is the tessellation. */
  lemma FilledIsTessellation(width: int, height: int, data: seq<int>, filled: seq<int>)
    requires 1 <= width && 1 <= height
    requires Grid.LaidOut(height - 1, width - 1, IndicesPerCell, IndexCells(width), data)
    requires |filled| == |data|
    requires forall i :: 0 <= i < |filled| ==> filled[i] == data[i]
    ensures filled == Tessellation(width, height)
  {
    assert filled == data;
    IndexCellsUniform(width);
    Grid.LaidOutIsFlat(height - 1, width - 1, IndicesPerCell, IndexCells(width), data);
  }

  /** What a buffer laid out like the index data holds at the six indices of cell (row, col), from offset o on. */
  lemma IndexEntries(width: int, height: int, data: seq<int>, row: nat, col: nat, o: nat)
    requires 1 <= width && row < height - 1 && col < width - 1
    requires Grid.LaidOut(height - 1, width - 1, IndicesPerCell, IndexCells(width), data)
    requires o == IndicesPerCell * (row * (width - 1) + col)
    ensures o + IndicesPerCell <= |data|
    ensures data[o] == ToShort(row * width + col)
    ensures data[o + 1] == ToShort((row + 1) * width + col)
    ensures data[o + 2] == ToShort(row * width + col + 1)
    ensures data[o + 3] == ToShort(row * width + col + 1)
    ensures data[o + 4] == ToShort((row + 1) * width + col)
    ensures data[o + 5] == ToShort((row + 1) * width + col + 1)
  {
    Grid.CellOffsetBound(height - 1, width - 1, IndicesPerCell, row, col);
    ghost var cells := IndexCells(width);
    assert Grid.EntryAt(width - 1, IndicesPerCell, cells, data, row, col, 0);
    assert Grid.EntryAt(width - 1, IndicesPerCell, cells, data, row, col, 1);
    assert Grid.EntryAt(width - 1, IndicesPerCell, cells, data, row, col, 2);
    assert Grid.EntryAt(width - 1, IndicesPerCell, cells, data, row, col, 3);
    assert Grid.EntryAt(width - 1, IndicesPerCell, cells, data, row, col, 4);
    assert Grid.EntryAt(width - 1, IndicesPerCell, cells, data, row, col, 5);
    assert cells(row, col) == IndexCell(width, row, col);
  }

  /**
   * The body of the inner loop of `createIndexData`: the four corner indices of
   * cell (row, col), cast to short, written as two triangles at the running offset.
   */
  method PutCell(indexData: array<int>, offset: nat, width: int, height: int, row: nat, col: nat, ghost data: seq<int>)
      returns (next: nat)
    requires 1 <= width && row < height - 1 && col < width - 1
    requires Grid.LaidOut(height - 1, width - 1, IndicesPerCell, IndexCells(width), data)
    requires offset == IndicesPerCell * (row * (width - 1) + col)
    requires indexData.Length == |data|
    modifies indexData
    ensures next == offset + IndicesPerCell <= indexData.Length
    ensures forall i :: offset <= i < next ==> indexData[i] == data[i]
    ensures forall i :: 0 <= i < indexData.Length && !(offset <= i < next) ==> indexData[i] == old(indexData[i])
  {
    IndexEntries(width, height, data, row, col, offset);
    next := offset;
    var topLeftIndexNum := ToShort(row * width + col);
    var topRightIndexNum := ToShort(row * width + col + 1);
    var bottomLeftIndexNum := ToShort((row + 1) * width + col);
    var bottomRightIndexNum := ToShort((row + 1) * width + col + 1);

    indexData[next] := topLeftIndexNum;
    next := next + 1;
    indexData[next] := bottomLeftIndexNum;
    next := next + 1;
    indexData[next] := topRightIndexNum;
    next := next + 1;
    indexData[next] := topRightIndexNum;
    next := next + 1;
    indexData[next] := bottomLeftIndexNum;
    next := next + 1;
    indexData[next] := bottomRightIndexNum;
    next := next + 1;
  }

  /** One row of cells of `createIndexData`: the inner loop, from the running offset. */
  method PutRow(indexData: array<int>, offset: nat, width: int, height: int, row: nat, ghost data: seq<int>)
      returns (next: nat)
    requires 1 <= width && row < height - 1
    requires Grid.LaidOut(height - 1, width - 1, IndicesPerCell, IndexCells(width), data)
    requires offset == IndicesPerCell * (row * (width - 1))
    requires indexData.Length == |data|
    requires offset <= indexData.Length
    requires forall i :: 0 <= i < offset ==> indexData[i] == data[i]
    modifies indexData
    ensures next == IndicesPerCell * ((row + 1) * (width - 1))
    ensures next <= indexData.Length
    ensures forall i :: 0 <= i < next ==> indexData[i] == data[i]
    ensures forall i :: next <= i < indexData.Length ==> indexData[i] == old(indexData[i])
  {
    next := offset;
    var col := 0;
    while col < width - 1
      invariant 0 <= col <= width - 1
      invariant next == IndicesPerCell * (row * (width - 1) + col)
      invariant next <= indexData.Length
      invariant forall i :: 0 <= i < next ==> indexData[i] == data[i]
      invariant forall i :: next <= i < indexData.Length ==> indexData[i] == old(indexData[i])
    {
      next := PutCell(indexData, next, width, height, row, col, data);
      col := col + 1;
    }
    Grid.MulSucc(row, width - 1);
  }

  /**
   * `createIndexData`: fills a fresh `short[numElements]` cell by cell through a
   * running offset.
   */
  method CreateIndexData(width: int, height: int, numElements: int) returns (indexData: array<int>)
    requires 1 <= width && 1 <= height
    requires numElements == NumElements(width, height)
    ensures fresh(indexData)
    ensures indexData[..] == Tessellation(width, height)
  {
    indexData := new int[numElements];
    ghost var data := IndexBuffer(width, height);
    assert indexData.Length == |data| == IndicesPerCell * ((height - 1) * (width - 1));
    var offset := 0;
    var row := 0;
    while row < height - 1
      invariant 0 <= row <= height - 1
      invariant offset == IndicesPerCell * (row * (width - 1))
      invariant offset <= indexData.Length
      invariant forall i :: 0 <= i < offset ==> indexData[i] == data[i]
    {
      offset := PutRow(indexData, offset, width, height, row, data);
      row := row + 1;
    }
    assert row == height - 1;
    assert offset == indexData.Length;
    FilledIsTessellation(width, height, data, indexData[..]);
  }

  // ------------------------------------------------------------ construction

  /**
   * The constructor: reject bitmaps with more than 65536 pixels before any
   * buffer is built, then build the vertex data and the index data and hand
   * each to its buffer.
   */
  method NewHeightmap(b: Bitmap) returns (r: Result<Heightmap>)
    requires ValidBitmap(b)
    ensures b.width * b.height > MaxVertices ==> r == Err(TooLargeForIndexBuffer)
    ensures b.width * b.height <= MaxVertices ==>
              (r.Err? <==> b.width < b.height) && (r.Err? ==> r.error == PixelIndexOutOfBounds)
    ensures r.Ok? ==>
              r.value.width == b.width && r.value.height == b.height &&
              r.value.numElements == NumElements(b.width, b.height) &&
              r.value.numElements == |r.value.indices| &&
              r.value.vertices == VertexData(b) &&
              r.value.indices == Tessellation(b.width, b.height)
  {
    var width, height := b.width, b.height;
    if width * height > MaxVertices {
      return Err(TooLargeForIndexBuffer);
    }
    var numElements := NumElements(width, height);
    var vertexData := LoadBitmapData(b);
    if vertexData.Err? {
      return Err(vertexData.error);
    }
    var indexData := CreateIndexData(width, height, numElements);
    TessellationLength(width, height);
    return Ok(Heightmap(width, height, numElements, vertexData.value[..], indexData[..]));
  }

  /** A bitmap of one colour gives every vertex the same height sample, wherever it is taken. */
  lemma UniformBitmapIsFlat(b: Bitmap, color: int, row: int, col: int)
    requires ValidBitmap(b)
    requires forall i :: 0 <= i < |b.pixels| ==> b.pixels[i] == color
    ensures GetPoint(b, row, col).red == Red(color)
  {
    GetPointInBounds(b, row, col);
  }

  /** Opaque black, `0xFF000000` as a Java int, has red channel 0. */
  lemma BlackHasNoRed()
    ensures Red(-0x100_0000) == 0
  {
  }

  /** A 2 x 2 bitmap gives the single cell's two triangles (0, 2, 1) and (1, 2, 3). */
  lemma TwoByTwoTessellation()
    ensures Tessellation(2, 2) == [0, 2, 1, 1, 2, 3]
  {
    var s := [0, 2, 1, 1, 2, 3];
    assert IndexCells(2)(0, 0) == s;
    forall r: nat, c: nat, j: nat | r < 1 && c < 1 && j < IndicesPerCell
      ensures Grid.EntryAt(1, IndicesPerCell, IndexCells(2), s, r, c, j)
    {
      assert r == 0 && c == 0;
    }
    IndexCellsUniform(2);
    Grid.LaidOutIsFlat(1, 1, IndicesPerCell, IndexCells(2), s);
  }
}
