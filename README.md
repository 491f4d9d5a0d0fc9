# Software rasterizer and free-fly camera

A Dafny model of the core of a CPU-only renderer that draws a textured
mesh seen from a first-person camera. Two parts are modelled:

- **The free-fly camera** (`camera.dfy`, module `FreeFlyCamera`). The
  `Camera` class has the fields of the source's camera. Each frame,
  `Update` applies one relative mouse motion to the elevation and the
  orientation. The elevation is clamped to ±0.49π, and the applied pitch
  shrinks by the overshoot. Yaw is composed on the left and pitch on the
  right. `Update` then derives the velocity from one keyboard snapshot,
  moves the position by velocity·dt, and rebuilds the axes and the view,
  projection and view-projection matrices. The input devices are not read:
  the key flags and `dx`, `dy` are parameters.
- **The triangle rasterizer** (`rasterizer.dfy`, module `Rasterizer`;
  `framebuffer.dfy`, module `FrameBuffers`). A frame zeroes the depth and
  colour buffers, then draws every geometry in order. Each geometry is drawn
  triangle by triangle, triangle i reading indices 3i, 3i+1 and 3i+2. A
  triangle is culled when its clip-space signed area exceeds 0.15.
  Otherwise it is set up once: reciprocals, screen positions, a clamped
  integer pixel box and edge deltas. Then every pixel of its box is
  visited. A pixel whose three barycentric weights are all positive, and
  whose interpolated 1/z is strictly greater than the stored depth,
  receives that depth and a nearest-sample texel. `Rasterizer` states the
  effect of a triangle, a geometry and a frame as functions on sequences
  and proves their properties. `FrameBuffer` is the render target: two
  arrays updated in place by loops that are proved equal to those
  functions.
- **Mesh loading loops** (`mesh.dfy`, module `Mesh`). These are the two
  copy loops of `Geometry::Load`: vertices, and the flattening of faces into
  a 16-bit index buffer.

`vectormath.dfy` (module `VectorMath`) holds vectors, quaternions and
matrices. Vector addition, subtraction and scaling are exact over reals.
Everything the source takes from its vector-math library is a field of the
`MathLib` parameter, so every result holds for any such library:
quaternion product, rotation quaternion, normalisation, rotate, matrix
product, matrix-vector product, look-at and perspective. `MathLib` also
gives the value of a single-precision division by zero.

The screen mapping divides y by z/height (`source/rasterizer.cpp:261-263`),
not by w/height as a conventional perspective divide would. The model
follows the code.

## Model

| member | source | states |
|---|---|---|
| `Mesh.ToIndex` | source/rasterizer.cpp:101-107 | storing a face index in a 16-bit slot keeps it when below 65536; otherwise it differs by a multiple of 65536 and never grows |
| `Mesh.FlattenIndices` | source/rasterizer.cpp:101-110 | the index buffer has 3·numFaces entries, entry 3i+k holding corner k of face i; when every face names an existing vertex, every stored index does |
| `Mesh.LoadVertices` | source/rasterizer.cpp:90-99 | vertex i is imported position i with w = 1 and the x, y of texture coordinate i |
| `FreeFlyCamera.ClampElevation` | source/camera.cpp:99-109 | the new elevation lies in [−0.49π, 0.49π] whatever the old one; it equals the old elevation plus the applied pitch; the applied pitch is the requested one inside the band and is reduced by exactly the overshoot above or below it |
| `FreeFlyCamera.MouseLook` | source/camera.cpp:88-120 | after a mouse capture the elevation is inside the band and changed by exactly the clamped pitch taken from dy/height |
| `FreeFlyCamera.StillMouseOnlyRenormalizes` | source/camera.cpp:111-119 | with dx = dy = 0 no rotation is composed: the elevation stays and the orientation is only renormalised |
| `FreeFlyCamera.YawComposesOnTheLeft` | source/camera.cpp:111-113 | a horizontal motion alone left-multiplies the orientation by a rotation of −dx/width about the world up axis and keeps the elevation |
| `FreeFlyCamera.PitchComposesOnTheRight` | source/camera.cpp:99-117 | a vertical motion alone right-multiplies the orientation by a rotation of the clamped pitch about the x axis, and composes nothing when the clamped pitch is 0 |
| `FreeFlyCamera.DiagonalComposesYawThenPitch` | source/camera.cpp:111-119 | a motion with both dx ≠ 0 and a non-zero clamped pitch gives the orientation normalise((rotation(−dx/width, Y) · old orientation) · rotation(clamped pitch, X)) and the clamped elevation |
| `FreeFlyCamera.PitchAtLimitIsDropped` | source/camera.cpp:101-104 | at the upper bound, a further upward motion composes no pitch: the elevation stays at the bound and the orientation is only renormalised |
| `FreeFlyCamera.KeyboardVelocityIsAxisCombination` | source/camera.cpp:65-86 | the velocity is 0.005 times forward·(W wins over S) minus right·(A wins over D) minus up·Space; it never depends on the previous velocity |
| `FreeFlyCamera.KeyboardVelocity` | source/camera.cpp:65-86 | the velocity is computed from the key snapshot and the axes alone, never from the previous velocity; with no key held it is zero |
| `FreeFlyCamera.ForwardOverridesBackward` | source/camera.cpp:69-72 | while W is held, S has no effect |
| `FreeFlyCamera.LeftOverridesRight` | source/camera.cpp:77-80 | while A is held, D has no effect |
| `FreeFlyCamera.Camera.constructor` | source/camera.cpp:5-24 | viewport 640×480 at (0, 0) with its aspect ratio, fov 0.25π, planes 1 and 100, position (0, 0, 10), zero velocity and elevation, axes −Z/+Y/+X, identity orientation, identity view and projection |
| `FreeFlyCamera.Camera.SetViewport` | source/camera.cpp:28-36 | stores x, y, width and height and sets aspect = width/height; nothing else changes |
| `FreeFlyCamera.Camera.SetClippingPlanes` | source/camera.cpp:38-42 | stores the near and far planes only |
| `FreeFlyCamera.Camera.SetFOV` | source/camera.cpp:44-47 | stores the field of view only |
| `FreeFlyCamera.Camera.Update` | source/camera.cpp:49-63 | mouse capture first, then keyboard with the axes of the previous update; position += velocity·dt, so no keys leave the position unchanged; then the axes are the renormalised rotated −Z, +Y, +X and view, projection and their product are rebuilt; the elevation stays in the band |
| `FreeFlyCamera.Camera.CaptureKeyboardState` | source/camera.cpp:65-86 | the velocity is overwritten with the key-snapshot velocity; nothing else changes |
| `FreeFlyCamera.Camera.CaptureMouseState` | source/camera.cpp:88-120 | elevation and orientation become those of `MouseLook`; the elevation stays in the band |
| `Rasterizer.SignedArea` | source/rasterizer.cpp:250 | twice the signed X/Y area of the clip-space triangle; it is 0 when two of the projected vertices coincide |
| `Rasterizer.BackFacing` | source/rasterizer.cpp:250-251 | a triangle is culled when its signed area exceeds 0.15; the same triangle listed in the opposite order then has area below −0.15, and a triangle with coinciding first two vertices is never culled |
| `Rasterizer.ReversedWindingNotCulled` | source/rasterizer.cpp:250 | swapping two vertices negates the signed area, so at most one of the two orders is culled; rotating the three vertices changes neither the area nor the cull decision |
| `Rasterizer.ToScreen` | source/rasterizer.cpp:261-263 | the screen x is x·width/w and the screen y is y·height/z (divided by z, not w) when the divisors are non-zero; z and w are kept |
| `Rasterizer.TriangleOf` | source/rasterizer.cpp:238-251 | triangle i, whose clip-space corners `ClipTriangle` takes from indices 3i, 3i+1 and 3i+2, is dropped exactly when their signed area exceeds 0.15; otherwise it samples the geometry's texture and its pixel box lies inside the frame |
| `Rasterizer.Ceil` | source/rasterizer.cpp:269-271 | the ceiling is the least integer not below its argument |
| `Rasterizer.Truncate` | source/rasterizer.cpp:316-317 | a float-to-int conversion truncates toward zero |
| `Rasterizer.BoundingBox` | source/rasterizer.cpp:265-271 | the pixel box lies inside [0, width)×[0, height) and contains every frame pixel within the extent of the three screen points |
| `Rasterizer.Setup` | source/rasterizer.cpp:253-287 | the set-up triangle's pixel box lies inside the frame |
| `Rasterizer.WeightsAt` | source/rasterizer.cpp:299-308 | the three weights sum to 1, so a pixel that passes the inside test has every weight strictly between 0 and 1 |
| `Rasterizer.DepthAt` | source/rasterizer.cpp:309 | for weights that pass the inside test and sum to 1, the interpolated 1/z lies between the smallest and the largest vertex 1/z |
| `Rasterizer.ConvexCombinationBetween` | source/rasterizer.cpp:308-309 | three positive weights summing to 1 combine three values into one between their minimum and maximum |
| `Rasterizer.PerspectiveW` | source/rasterizer.cpp:314 | the interpolated w is the reciprocal of the interpolated 1/w whenever that is non-zero |
| `Rasterizer.TexelU` | source/rasterizer.cpp:316 | a perspective-correct u in [0, 1), scaled by the texture width and truncated, is a column in [0, width) |
| `Rasterizer.TexelV` | source/rasterizer.cpp:317 | a perspective-correct v in [0, 1), scaled by the texture height and truncated, is a row in [0, height) |
| `Rasterizer.ScaledCoordinateInRange` | source/rasterizer.cpp:316-317 | a coordinate in [0, 1) scaled by a positive size n and truncated lies in [0, n) |
| `Rasterizer.TexelIndex` | source/rasterizer.cpp:319 | the row-major index v·width + u lies inside the texture when the column and row do, and so whenever both texture coordinates lie in [0, 1) |
| `Rasterizer.FragmentAt` | source/rasterizer.cpp:308-320 | a pixel is covered only inside the triangle's pixel box, and a covered pixel's depth lies between the smallest and the largest vertex 1/z |
| `Rasterizer.Blend` | source/rasterizer.cpp:311-320 | the stored depth never decreases; an entry changes only to the fragment's own depth and colour, when the fragment is covered and strictly nearer; a fragment that is not covered, or not strictly nearer, leaves depth and colour as they were |
| `Rasterizer.Texel` | source/rasterizer.cpp:316-319 | a texel index inside the texture buffer reads that texel; outside it the value is unspecified |
| `Rasterizer.Cleared` | source/rasterizer.cpp:332-337 | every depth and colour entry is 0 |
| `Rasterizer.DrawTriangle` | source/rasterizer.cpp:298-326 | one triangle's pixel loops keep the size of both buffers |
| `Rasterizer.DrawStep` | source/rasterizer.cpp:250-251 | one triangle, culled or drawn, keeps the size of both buffers; the culled case is stated by `CulledTriangleChangesNothing` |
| `Rasterizer.DrawTriangles` | source/rasterizer.cpp:235-251 | triangles 0..n−1 drawn in order keep the size of both buffers |
| `Rasterizer.DrawGeometry` | source/rasterizer.cpp:227-237 | a geometry draws numIndices/3 triangles and keeps the size of both buffers |
| `Rasterizer.DrawGeometries` | source/rasterizer.cpp:339-340 | the geometries drawn in order keep the size of both buffers |
| `Rasterizer.DrawFrame` | source/rasterizer.cpp:330-340 | a frame yields width·height depth and colour entries |
| `Rasterizer.IndexInFrame` | source/rasterizer.cpp:289-291 | for 0 ≤ x < width and 0 ≤ y < height, y·width + x lies in [0, width·height) |
| `Rasterizer.IndexDecompose` | source/rasterizer.cpp:298-325 | buffer entry y·width + x is pixel (x, y): the row walk addresses each pixel once |
| `Rasterizer.DrawTriangleEntry` | source/rasterizer.cpp:308-320 | per entry: the depth never decreases; it changes exactly when the fragment is covered and strictly nearer; the colour is written exactly then and both keep their values otherwise; an equal depth never overwrites |
| `Rasterizer.ChangedEntryIsCovered` | source/rasterizer.cpp:298-312 | an entry changes only at an in-frame pixel of the box whose three weights are positive and sum to 1, and whose interpolated 1/z is strictly greater than the stored depth |
| `Rasterizer.OutsideBoxUntouched` | source/rasterizer.cpp:268-301 | entries outside the triangle's pixel box keep their depth and colour |
| `Rasterizer.RedrawChangesNothing` | source/rasterizer.cpp:311-319 | drawing the same triangle twice leaves the buffers as after once |
| `Rasterizer.OrderIndependentAtEntry` | source/rasterizer.cpp:311-319 | at one entry two triangles give the same depth and colour in either order unless both cover it at exactly equal depth |
| `Rasterizer.NearerTriangleWins` | source/rasterizer.cpp:311-319 | a triangle drawn second that covers an entry strictly nearer than the stored depth and than the first triangle leaves its own depth and colour there |
| `Rasterizer.CulledTriangleChangesNothing` | source/rasterizer.cpp:250-251 | a triangle whose clip-space signed area exceeds 0.15 changes no depth and no colour entry |
| `Rasterizer.DrawTrianglesNeverRetreats` | source/rasterizer.cpp:237-327 | over any prefix of a geometry's triangles no depth decreases and a colour changes only where its depth strictly grew |
| `Rasterizer.DrawGeometriesNeverRetreats` | source/rasterizer.cpp:339-340 | the same over any sequence of geometries |
| `Rasterizer.FrameBackgroundIsCleared` | source/rasterizer.cpp:332-340 | after a frame every depth is ≥ 0, and an entry whose depth is still 0 keeps the cleared colour 0 |
| `Rasterizer.SameLeadingIndicesSameDraw` | source/rasterizer.cpp:237-244 | triangles 0..n−1 read only the first 3n indices |
| `Rasterizer.TrailingIndicesIgnored` | source/rasterizer.cpp:235-240 | one or two indices after the last full triple are never read |
| `FrameBuffers.FrameBuffer.constructor` | source/rasterizer.cpp:207 | two distinct fresh buffers of width·height entries |
| `FrameBuffers.FrameBuffer.Clear` | source/rasterizer.cpp:332-337 | both buffers become all zeros |
| `FrameBuffers.FrameBuffer.FillTriangle` | source/rasterizer.cpp:289-326 | the row offset starts at miny·width and advances by width, so it equals y·width on each row; the buffers end as `DrawTriangle` of their old contents |
| `FrameBuffers.FrameBuffer.ShadePixel` | source/rasterizer.cpp:301-321 | entry y·width + x is in bounds; it receives depth and colour together when the pixel is inside and strictly nearer, and every other entry is unchanged |
| `FrameBuffers.FrameBuffer.RasterizeGeometry` | source/rasterizer.cpp:227-328 | with world-view-projection = view-projection × world, the buffers end as `DrawGeometry` of their old contents |
| `FrameBuffers.FrameBuffer.RasterizeFrame` | source/rasterizer.cpp:330-340 | the buffers end as `DrawFrame`: cleared, then every geometry drawn in order |

## Left out

- `CPUHasAVX` (hardware query), `Texture::Load` and `World::Load` (image and scene import libraries), `Init`, `Close` and `main` (window, timing, FPS title, event loop), and the lock, copy and present calls around a frame: foreign calls and I/O.
- `Geometry::Load` beyond its two copy loops: allocation, and loading the material's texture through the image library.
- The vector-math library: its operations are the fields of `MathLib`, about which nothing is assumed. Unit length of the orientation and of the axes is therefore not claimed.
- Floating point: values are reals. Rounding is not modelled. Nor are infinities and NaNs: a division by zero yields the real `MathLib.divideByZero(a)`. The band bound 0.49f·(float)M_PI is 0.49·π with π to 21 digits.
- Float-to-int conversions of values outside the int range (undefined in the source) are modelled as exact floor, ceiling and truncation.
- Rasterizer.Texel: the source does not clamp texel coordinates, and an index outside the texture reads outside the buffer. The model takes that colour from a `stray` parameter and claims nothing about it.
- FreeFlyCamera.Camera.SetViewport: requires a positive width and height. The source accepts any size, but a zero size makes the aspect and the mouse pitch/yaw non-finite, which reals cannot represent; `CaptureMouseState` and `Update` rely on it.
- Mesh.FlattenIndices: `3 * mNumFaces` overflowing `int` is not modelled; the 16-bit truncation of each stored index is.
- FrameBuffers.FrameBuffer.ShadePixel computes the weights, the depth and the texel index by calling `WeightsAt`, `DepthAt` and `TexelIndex`. These functions hold the source's formulas, which are not repeated inline. The pixel loops are split into `FillTriangle` (the row and column loops) and `ShadePixel` (one loop body).
- The colour buffer is one array owned by the frame buffer; the source obtains it by locking the window texture every frame, possibly at a different address. The frame-level `Rasterize` receives the row `pitch` from `SDL_LockTexture` (source/rasterizer.cpp:334-335) and never uses it, so the source assumes each row is exactly `width` entries; the model's single array of width·height entries makes the same assumption.
- `Camera::Position`, `Forward` and the matrix getters are plain field reads.
