# Heightmap mesh and drag camera of the particles demo

This project models two pieces of an Android OpenGL ES demo.

- **`Heightmap`** (`heightmap.dfy`, with the row-major layout arithmetic in
  `grid.dfy`). This is the mesh builder that turns a bitmap into a vertex
  buffer and an index buffer. It covers:
  - the constructor's 65536-pixel guard;
  - the element count;
  - `getPoint` and its `clamp`;
  - the vertex loop of `loadBitmapData`: six floats per pixel, row-major, and
    vertex (row, col) at offset `6 * (row * width + col)`;
  - the index loop of `createIndexData`: two triangles per cell, stored as Java
    `short`s and read back by the GPU as unsigned 16-bit indices.
- **`ParticlesRenderer`** (`particles_renderer.dfy`). This is the camera state
  of the renderer. `handleTouchDrag` accumulates yaw (`xRotation`) without any
  bound. It accumulates pitch (`yRotation`) and saturates it at ±90.
  `updateViewMatrices` then rebuilds the scene and skybox view matrices.

## How things are represented

- **Floats are symbolic.**
  - A vertex position is a `Point` that records what the float formulas are
    applied to:
    - the column, for x;
    - the red channel of the sampled pixel, for y;
    - the row, for z.
  - A normal is recorded as the four neighbour `Point`s it is computed from.
  - A view matrix is either `Zero` (a fresh Java `float[16]`) or the product of
    the factors that `rotateM` and `translateM` multiplied onto an identity, in
    order.
  - Angles are `real`.
- **Arrays.** Java arrays that loops fill in place are Dafny `array`s filled by
  the same nested loops. Each loop is proved against a specification sequence:
  `VertexData` for the vertex buffer and `Tessellation` for the index buffer.
- **Exceptions.** Exceptions the code raises are `Err` values of `Result`:
  - `TooLargeForIndexBuffer` for the constructor's explicit check;
  - `PixelIndexOutOfBounds` for the JVM's array-bounds exception.
- **Integer casts.** The `(short)` cast and the GPU's unsigned reinterpretation
  are written out as `ToShort` and `AsUnsignedShort`.

## Behaviour of the code as written

The model keeps these behaviours of the code:

- **`getPoint` swaps the dimensions.** It clamps `row` to `[0, width-1]` and
  `col` to `[0, height-1]`, and samples `pixels[row * height + col]`.
  - The swapped clamps and the swapped stride cancel: every lookup is inside
    `pixels` (`GetPointInBounds`).
  - For a non-square bitmap, the sample is in general not pixel (row, col) of
    the row-major image. In a bitmap three wide and two high, (0, 1) reads
    pixel (0, 1), but (1, 0) reads `pixels[2]`, which is pixel (0, 2)
    (`NonSquareSample`).
  - For a bitmap one pixel high, every sample of row 0 reads pixel 0. The
    bottom neighbour in row 1 is clamped by `width - 1`, so when the bitmap is
    at least two wide it reads pixel 1 (`SingleRowReadsFirstPixel`).
  - For a square bitmap, the sample is exactly pixel (row, col)
    (`GetPointSquare`).
- **The unused `yPosition` of `loadBitmapData` still indexes `pixels`.** It
  reads `pixels[row * height + col]` with no clamp, for every on-grid vertex.
  That read is in bounds exactly when `width >= height` (`GridSampleInBounds`).
  So for a bitmap taller than wide, construction fails with an array-bounds
  error (`LoadBitmapData`, `NewHeightmap`).
- **Neighbour positions use unclamped coordinates.** Only the height sample of
  a neighbour is clamped; its x and z come from the unclamped row and column
  (`NormalStencil`).
- **The clamped angle is pitch, `yRotation`.** It is the rotation about the
  X axis and is clamped to [-90, 90]; `xRotation` is unbounded and rotates
  about Y.

## Model

| member | source | states |
|---|---|---|
| Heightmap.ToShort | app/src/main/java/com/airhockey/android/objects/Heightmap.java:105-108 | the `(short)` cast yields a value in [-32768, 32767] congruent to its argument modulo 65536 |
| Heightmap.AsUnsignedShort | app/src/main/java/com/airhockey/android/objects/Heightmap.java:141 | the GPU's `GL_UNSIGNED_SHORT` reading of a stored short is in [0, 65535] and congruent to it modulo 65536 |
| Heightmap.ShortCastLossless | app/src/main/java/com/airhockey/android/objects/Heightmap.java:105-108 | an index below 65536 survives the cast to short and the unsigned read-back unchanged |
| Heightmap.Clamp | app/src/main/java/com/airhockey/android/objects/Heightmap.java:92-94 | `clamp` lands in [min, max] when min <= max, returns an in-range value unchanged, and saturates to min below and to max above |
| Heightmap.ClampIdempotent | app/src/main/java/com/airhockey/android/objects/Heightmap.java:92-94 | clamping twice is clamping once |
| Heightmap.Red | app/src/main/java/com/airhockey/android/objects/Heightmap.java:89 | `Color.red` yields a channel value in [0, 255] |
| Heightmap.BlackHasNoRed | app/src/main/java/com/airhockey/android/objects/Heightmap.java:89 | opaque black, a negative Java int, has red channel 0 under the arithmetic shift and mask |
| Heightmap.ClampedIndexInBounds | app/src/main/java/com/airhockey/android/objects/Heightmap.java:87-89 | with row in [0, width-1] and col in [0, height-1], `row * height + col` lies in [0, width*height) |
| Heightmap.GetPoint | app/src/main/java/com/airhockey/android/objects/Heightmap.java:84-91 | the point keeps the unclamped column and row it is given (its x and z are computed from them) |
| Heightmap.GetPointInBounds | app/src/main/java/com/airhockey/android/objects/Heightmap.java:84-91 | for any, even off-grid, row and col, `getPoint`'s pixel lookup is inside `pixels` |
| Heightmap.GetPointSquare | app/src/main/java/com/airhockey/android/objects/Heightmap.java:84-91 | for a square bitmap, an on-grid sample reads pixel `row * width + col` of the row-major image |
| Heightmap.GetPointCollapsesOntoEdge | app/src/main/java/com/airhockey/android/objects/Heightmap.java:87-89 | an off-grid sample has the height of the edge sample its coordinates clamp onto |
| Heightmap.SingleRowReadsFirstPixel | app/src/main/java/com/airhockey/android/objects/Heightmap.java:84-91 | in a bitmap one pixel high, every sample of row 0 reads pixel 0, whatever the column; the bottom neighbour in row 1 reads pixel 1 when the bitmap is at least two wide |
| Heightmap.NonSquareSample | app/src/main/java/com/airhockey/android/objects/Heightmap.java:87-89 | in a bitmap three wide and two high, the sample at (0, 1) is row-major pixel (0, 1) but the sample at (1, 0) is `pixels[2]`, not pixel (1, 0) |
| Heightmap.UniformBitmapIsFlat | app/src/main/java/com/airhockey/android/objects/Heightmap.java:84-91 | in a bitmap of one colour every sample, anywhere, has that colour's red channel |
| Heightmap.GridSampleInBounds | app/src/main/java/com/airhockey/android/objects/Heightmap.java:53-57 | the unclamped lookup `row * height + col` of every on-grid vertex stays inside `pixels` if and only if width >= height |
| Heightmap.GridSamplePast | app/src/main/java/com/airhockey/android/objects/Heightmap.java:53-57 | when width >= height, an on-grid vertex's unclamped lookup is inside `pixels` |
| Heightmap.LastGridSample | app/src/main/java/com/airhockey/android/objects/Heightmap.java:53-57 | the last vertex's unclamped lookup is inside `pixels` if and only if width >= height |
| Heightmap.VertexSlots | app/src/main/java/com/airhockey/android/objects/Heightmap.java:63-77 | each vertex contributes exactly six floats |
| Heightmap.VertexDataLength | app/src/main/java/com/airhockey/android/objects/Heightmap.java:48-49 | the vertex data has `width * height * 6` floats, the length of the array the loop fills |
| Heightmap.VertexLayout | app/src/main/java/com/airhockey/android/objects/Heightmap.java:50-77 | float j of vertex (row, col) sits at offset `6 * (row * width + col) + j`: three position components, then three normal components |
| Heightmap.NormalStencil | app/src/main/java/com/airhockey/android/objects/Heightmap.java:68-77 | a normal is built from the top, bottom, left and right neighbours at unclamped coordinates; at the first row and column the missing neighbour's height is the vertex's own, and so at the last row and column of a square bitmap |
| Heightmap.VertexNumber | app/src/main/java/com/airhockey/android/objects/Heightmap.java:53-66 | vertex number v of the buffer is the vertex of pixel (v / width, v % width), to which the index buffer's numbers refer |
| Heightmap.VertexBuffer | app/src/main/java/com/airhockey/android/objects/Heightmap.java:48-79 | some sequence holds every vertex's six floats at its row-major offset |
| Heightmap.VertexEntries | app/src/main/java/com/airhockey/android/objects/Heightmap.java:63-77 | in such a sequence, the six floats from offset `6 * (row * width + col)` are x, y, z of `getPoint(row, col)` and then the three normal components |
| Heightmap.FilledIsVertexData | app/src/main/java/com/airhockey/android/objects/Heightmap.java:48-81 | an array whose every float agrees with a sequence of that layout holds exactly the vertex data |
| Heightmap.PutVertex | app/src/main/java/com/airhockey/android/objects/Heightmap.java:63-77 | one pass of the inner loop body writes exactly the six floats of its vertex from the running offset, advances the offset by six and leaves the rest of the array alone |
| Heightmap.LoadBitmapData | app/src/main/java/com/airhockey/android/objects/Heightmap.java:44-82 | fails with an array-bounds error if and only if the bitmap is taller than wide; otherwise the filled array is exactly the row-major vertex data |
| Heightmap.NumElements | app/src/main/java/com/airhockey/android/objects/Heightmap.java:96-98 | the element count is a non-negative multiple of six for positive sizes, and zero exactly when the bitmap is one pixel wide or one pixel high |
| Heightmap.TessellationLength | app/src/main/java/com/airhockey/android/objects/Heightmap.java:96-101 | the index data has exactly `calculateNumElements()` = `(width-1) * (height-1) * 6` entries |
| Heightmap.TessellationCell | app/src/main/java/com/airhockey/android/objects/Heightmap.java:103-116 | index j of cell (row, col) sits at offset `6 * (row * (width-1) + col) + j`; under the size limit the GPU reads back the uncast vertex number |
| Heightmap.Triangles | app/src/main/java/com/airhockey/android/objects/Heightmap.java:105-116 | six indices starting at vertex `row * width + col`, its right neighbour, the vertex below it and that vertex's right neighbour, where the second triangle repeats the first one's topRight and bottomLeft, the diagonal the two triangles share |
| Heightmap.TrianglesInRange | app/src/main/java/com/airhockey/android/objects/Heightmap.java:105-108 | the four corners of an on-grid cell are vertex numbers in [0, width*height) |
| Heightmap.TessellationInRange | app/src/main/java/com/airhockey/android/objects/Heightmap.java:100-120 | under the 65536 limit, every index the GPU reads names one of the width*height vertices |
| Heightmap.CellWinding | app/src/main/java/com/airhockey/android/objects/Heightmap.java:111-116 | both triangles of a cell have the same orientation in the (column, row) plane and share the bottomLeft-topRight diagonal |
| Heightmap.IndexBuffer | app/src/main/java/com/airhockey/android/objects/Heightmap.java:100-120 | some sequence of `calculateNumElements()` entries holds every cell's six indices at its row-major offset |
| Heightmap.FilledIsTessellation | app/src/main/java/com/airhockey/android/objects/Heightmap.java:100-120 | an array whose every entry agrees with a sequence of that layout holds exactly the tessellation |
| Heightmap.IndexEntries | app/src/main/java/com/airhockey/android/objects/Heightmap.java:105-116 | in such a sequence, the six indices from offset `6 * (row * (width-1) + col)` are the short casts of the two triangles' corners in emission order |
| Heightmap.PutCell | app/src/main/java/com/airhockey/android/objects/Heightmap.java:105-116 | one pass of the inner loop body writes exactly its cell's six indices from the running offset, advances it by six and leaves the rest of the array alone |
| Heightmap.PutRow | app/src/main/java/com/airhockey/android/objects/Heightmap.java:104-117 | one pass of the inner loop writes the row's cells so that every entry before the offset of the next row agrees with the layout, moves the offset to the next row, stays inside the array, and leaves every entry from the new offset on untouched |
| Heightmap.CreateIndexData | app/src/main/java/com/airhockey/android/objects/Heightmap.java:100-120 | the filled `short[numElements]` is exactly the row-major tessellation |
| Heightmap.TwoByTwoTessellation | app/src/main/java/com/airhockey/android/objects/Heightmap.java:100-120 | a 2 x 2 bitmap yields the single cell's triangles (0, 2, 1) and (1, 2, 3) |
| Heightmap.NewHeightmap | app/src/main/java/com/airhockey/android/objects/Heightmap.java:32-42 | more than 65536 pixels fails with the size error before any buffer is built; otherwise construction fails if and only if the bitmap is taller than wide, and on success the mesh holds the vertex data and the tessellation with `numElements` equal to the index count |
| Grid.FlatAt | app/src/main/java/com/airhockey/android/objects/Heightmap.java:50-54 | in the row-major walk with k entries per cell, entry j of cell (r, c) is at offset `k * (r * cols + c) + j` |
| Grid.FlatEvery | app/src/main/java/com/airhockey/android/objects/Heightmap.java:102-104 | a property of every cell's entries holds for every entry of the walk |
| Grid.LaidOutIsFlat | app/src/main/java/com/airhockey/android/objects/Heightmap.java:102-104 | a sequence of the right length holding every cell's entries at those offsets is the walk itself, which is what a running-offset loop produces |
| ParticlesRenderer.ClampPitch | app/src/main/java/com/airhockey/android/ParticlesRenderer.java:248-252 | the clamped pitch is in [-90, 90], equal to its argument inside that range, and exactly -90 below it or 90 above it |
| ParticlesRenderer.ClampPitchMonotone | app/src/main/java/com/airhockey/android/ParticlesRenderer.java:248-252 | the clamp preserves order |
| ParticlesRenderer.YawAccumulates | app/src/main/java/com/airhockey/android/ParticlesRenderer.java:246 | after any sequence of drags, yaw is its start plus the sum of all horizontal deltas over 16, never clamped |
| ParticlesRenderer.PitchStaysInRange | app/src/main/java/com/airhockey/android/ParticlesRenderer.java:247-252 | after at least one drag, or from an in-range start, pitch is in [-90, 90] |
| ParticlesRenderer.PitchSaturatesHigh | app/src/main/java/com/airhockey/android/ParticlesRenderer.java:247-252 | from 90, any run of non-negative vertical drags leaves pitch at exactly 90 |
| ParticlesRenderer.PitchSaturatesLow | app/src/main/java/com/airhockey/android/ParticlesRenderer.java:247-252 | from -90, any run of non-positive vertical drags leaves pitch at exactly -90 |
| ParticlesRenderer.PitchMonotone | app/src/main/java/com/airhockey/android/ParticlesRenderer.java:247-252 | a higher starting pitch never ends lower after the same drags |
| ParticlesRenderer.AfterDrag | app/src/main/java/com/airhockey/android/ParticlesRenderer.java:246-252 | one drag adds deltaX/16 to yaw with no bound; pitch ends in [-90, 90], equal to old pitch plus deltaY/16 inside that range and exactly 90 or -90 above or below it |
| ParticlesRenderer.AfterDragsAppend | app/src/main/java/com/airhockey/android/ParticlesRenderer.java:245-255 | the camera state after drags a then b is the state after a, dragged by b |
| ParticlesRenderer.SkyboxIsSceneWithoutTranslation | app/src/main/java/com/airhockey/android/ParticlesRenderer.java:219-226 | the skybox view consists of rotations only, and the scene view is the skybox view followed by the (0, -1.5, -5) translation |
| ParticlesRenderer.ZeroAnglesView | app/src/main/java/com/airhockey/android/ParticlesRenderer.java:219-226 | at zero yaw and pitch both rotations are the identity, so the skybox view is the identity and the scene view is the eye translation alone |
| ParticlesRenderer.Renderer.constructor | app/src/main/java/com/airhockey/android/ParticlesRenderer.java:36-38 | a new renderer has zero angles, zero view matrices, and pitch in range |
| ParticlesRenderer.Renderer.UpdateViewMatrices | app/src/main/java/com/airhockey/android/ParticlesRenderer.java:218-227 | leaves the angles alone; the scene view is identity, rotate -pitch about X, rotate -yaw about Y, translate (0, -1.5, -5), and the skybox view is the copy taken before the translation |
| ParticlesRenderer.Renderer.HandleTouchDrag | app/src/main/java/com/airhockey/android/ParticlesRenderer.java:245-255 | from any state, yaw grows by deltaX/16, pitch becomes the clamp of old pitch plus deltaY/16 and so ends in [-90, 90], and both view matrices are rebuilt from the new angles |

## Left out

- Float arithmetic. Positions, heights and normals are not computed as
  numbers: the divisions by `width - 1`, `/ 255`, the cross product and
  `normalize` are left out, together with the rounding of `float` angle
  accumulation. The angles are reals, so NaN and infinite deltas are not
  modelled: a NaN `deltaY` makes `yRotation` NaN, which fails both clamp
  tests and stays NaN, so the pitch invariant `Renderer.Valid` holds only for
  finite deltas.
- Matrix numerics. The `float[16]` contents of the view matrices, and
  `perspectiveM`, `multiplyMM`, `invertM`, `transposeM` and `multiplyMV`, are
  float numerics in `android.opengl.Matrix` and MatrixHelper. MatrixHelper is
  not part of this model.
- Bitmap I/O and the buffer objects:
  - `getPixels` is replaced by the bitmap's pixel sequence; `recycle` is not
    modelled.
  - VertexBuffer and IndexBuffer (the `new VertexBuffer(...)` and
    `new IndexBuffer(...)` calls) receive the computed arrays, and the model
    stores their contents in the record.
  - The GL upload, `bindData` and `draw` are GPU calls.
- `Color.red` is modelled by its definition, `(color >> 16) & 0xFF`.
- LoadBitmapData requires at most 65536 pixels, which the constructor checks
  before calling it. The Java `int` product `width * height * 6` that sizes
  its array is therefore never near overflow, and the model does not model
  that wrap.
- Java `int` overflow in the size guard `width * height` is excluded by
  requiring the pixel count to fit a Java `int`, as a decoded bitmap's
  `int[]` pixel array does.
- The in-place fills are split into helper methods:
  - the inner loop body of `loadBitmapData` is `PutVertex`;
  - the inner loop of `createIndexData` is `PutRow`, and its body is
    `PutCell`.
  Their statements are the source's, in the source's order.
- The rest of the renderer is left out:
  - `onSurfaceCreated` and `onSurfaceChanged`, apart from the
    `updateViewMatrices` call the latter makes;
  - `onDrawFrame`, the particle system and shooters, textures, shaders;
  - the clock (`System.nanoTime`).
  These are GL calls, resources or time.
- TextureHelper is not part of this model.
