/**
  What one frame of rasterization does to the depth and colour buffers,
  stated as functions on sequences, and the properties of that effect.

  A pass (one frame) fixes the vector-math library, the world-view-projection
  matrix, the output resolution and what an out-of-range texture read yields.
  Each triangle is transformed to clip space, discarded when its clip-space
  signed area exceeds 0.15, and otherwise set up once (reciprocals, screen
  positions, a clamped pixel box, edge deltas); every pixel of its box then
  gets three barycentric weights, and a pixel strictly inside the triangle
  whose interpolated 1/z is strictly greater than the stored depth receives
  that depth and a nearest-sample texel.

  The buffers are row-major: pixel (x, y) is entry y * width + x, so entry k
  is pixel (k % width, k / width).
*/
module Rasterizer {
  import opened VectorMath
  import opened Mesh

  /** Triangles whose clip-space signed area exceeds this are culled. */
  const CullEpsilon: real := 0.15

  datatype Option<T> = None | Some(value: T)

  /** Everything that stays fixed while a frame is drawn. */
  datatype Pass = Pass(
    lib: MathLib,
    stray: int -> Color,           // what reading a texture outside its buffer yields
    worldViewProjection: Matrix4,
    width: int,
    height: int)
  {
    predicate Valid() { width > 0 && height > 0 }
  }

  /* ---------------------------------------------------------------------- */
  /* Per-triangle setup                                                      */

  /**
    Twice the signed area of the clip-space triangle, projected on X/Y.
    A triangle with two coinciding projected vertices has area 0.
  */
  function SignedArea(p0: Vec4, p1: Vec4, p2: Vec4): (area: real)
    ensures p0.x == p1.x && p0.y == p1.y ==> area == 0.0
    ensures p1.x == p2.x && p1.y == p2.y ==> area == 0.0
    ensures p0.x == p2.x && p0.y == p2.y ==> area == 0.0
  {
    (p1.x - p0.x) * (p2.y - p0.y) - (p2.x - p0.x) * (p1.y - p0.y)
  }

  /**
    The cull test: the winding is back-facing by more than the epsilon.
    A culled triangle, listed in the opposite order, winds the other way.
  */
  function BackFacing(p0: Vec4, p1: Vec4, p2: Vec4): (culled: bool)
    ensures culled ==> SignedArea(p0, p2, p1) < -CullEpsilon
    ensures p0.x == p1.x && p0.y == p1.y ==> !culled
  {
    SignedArea(p0, p1, p2) > CullEpsilon
  }

  /**
    Swapping two vertices negates the signed area, so at most one of the two
    orders is culled; rotating the three vertices keeps it, so the cull test
    does not depend on which vertex is listed first.
  */
  lemma ReversedWindingNotCulled(p0: Vec4, p1: Vec4, p2: Vec4)
    ensures SignedArea(p0, p2, p1) == -SignedArea(p0, p1, p2)
    ensures BackFacing(p0, p1, p2) ==> !BackFacing(p0, p2, p1)
    ensures SignedArea(p1, p2, p0) == SignedArea(p0, p1, p2)
    ensures BackFacing(p1, p2, p0) == BackFacing(p0, p1, p2)
  {
  }

  function MinReal(a: real, b: real): real { if a <= b then a else b }
  function MaxReal(a: real, b: real): real { if a >= b then a else b }
  function MinInt(a: int, b: int): int { if a <= b then a else b }
  function MaxInt(a: int, b: int): int { if a >= b then a else b }

  function Ceil(r: real): (c: int)
    ensures r <= c as real < r + 1.0
  {
    -((-r).Floor)
  }

  /** Conversion of a float to int: truncation toward zero. */
  function Truncate(r: real): (t: int)
    ensures r >= 0.0 ==> 0 <= t && t as real <= r < t as real + 1.0
    ensures r < 0.0 ==> t <= 0 && t as real - 1.0 < r <= t as real
  {
    if r >= 0.0 then r.Floor else -((-r).Floor)
  }

  /** The half-open pixel rectangle [minx, maxx) x [miny, maxy). */
  datatype Box = Box(minx: int, maxx: int, miny: int, maxy: int) {
    predicate Contains(x: int, y: int) {
      minx <= x < maxx && miny <= y < maxy
    }
  }

  /**
    The integer bounding box of three screen points, clamped to the frame.
    It lies inside the frame, and it contains every pixel of the frame that
    lies in the half-open extent [min, max) of the three points.
  */
  function BoundingBox(s0: Vec4, s1: Vec4, s2: Vec4, width: int, height: int): (box: Box)
    ensures 0 <= box.minx && box.maxx <= width && 0 <= box.miny && box.maxy <= height
    ensures forall x: int, y: int ::
      && 0 <= x < width && 0 <= y < height
      && MinReal(s0.x, MinReal(s1.x, s2.x)) <= x as real < MaxReal(s0.x, MaxReal(s1.x, s2.x))
      && MinReal(s0.y, MinReal(s1.y, s2.y)) <= y as real < MaxReal(s0.y, MaxReal(s1.y, s2.y))
      ==> box.Contains(x, y)
  {
    var lo := Vec4(MinReal(s0.x, MinReal(s1.x, s2.x)), MinReal(s0.y, MinReal(s1.y, s2.y)), 0.0, 0.0);
    var hi := Vec4(MaxReal(s0.x, MaxReal(s1.x, s2.x)), MaxReal(s0.y, MaxReal(s1.y, s2.y)), 0.0, 0.0);
    Box(MaxInt(0, lo.x.Floor), MinInt(width, Ceil(hi.x)), MaxInt(0, lo.y.Floor), MinInt(height, Ceil(hi.y)))
  }

  /** Maps a clip-space position to pixel space: x by w / width, y by z / height. */
  function ToScreen(lib: MathLib, p: Vec4, width: int, height: int): (s: Vec4)
    ensures width > 0 && p.w != 0.0 ==> s.x == p.x * width as real / p.w
    ensures height > 0 && p.z != 0.0 ==> s.y == p.y * height as real / p.z
    ensures s.z == p.z && s.w == p.w
  {
    Vec4(Div(lib, p.x, Div(lib, p.w, width as real)),
         Div(lib, p.y, Div(lib, p.z, height as real)),
         Div(lib, p.z, 1.0),
         Div(lib, p.w, 1.0))
  }

  /** Everything the pixel loops need about one triangle. */
  datatype Triangle = Triangle(
    box: Box,
    p2x: real, p2y: real,                  // screen position of the third vertex
    edgeAx: real, edgeAy: real, edgeBx: real, edgeBy: real,  // edge deltas
    b: real,                               // reciprocal of the edge determinant
    z0: real, z1: real, z2: real,          // 1 / z per vertex
    w0: real, w1: real, w2: real,          // 1 / w per vertex
    uz0: real, uz1: real, uz2: real,       // u / w per vertex
    vz0: real, vz1: real, vz2: real,       // v / w per vertex
    texture: Texture)

  function Setup(lib: MathLib, p0: Vec4, p1: Vec4, p2: Vec4, v0: Vertex, v1: Vertex, v2: Vertex,
                 texture: Texture, width: int, height: int): (t: Triangle)
    ensures 0 <= t.box.minx && t.box.maxx <= width && 0 <= t.box.miny && t.box.maxy <= height
  {
    var w0, w1, w2 := Div(lib, 1.0, p0.w), Div(lib, 1.0, p1.w), Div(lib, 1.0, p2.w);
    var s0, s1, s2 := ToScreen(lib, p0, width, height), ToScreen(lib, p1, width, height), ToScreen(lib, p2, width, height);
    var ax, ay := s2.x - s1.x, s1.y - s2.y;
    var bx, byy := s0.x - s2.x, s2.y - s0.y;
    Triangle(
      BoundingBox(s0, s1, s2, width, height),
      s2.x, s2.y, ax, ay, bx, byy,
      Div(lib, 1.0, ay * bx + ax * (s0.y - s2.y)),
      Div(lib, 1.0, p0.z), Div(lib, 1.0, p1.z), Div(lib, 1.0, p2.z),
      w0, w1, w2,
      v0.u * w0, v1.u * w1, v2.u * w2,
      v0.v * w0, v1.v * w1, v2.v * w2,
      texture)
  }

  /* ---------------------------------------------------------------------- */
  /* Per-pixel fragments                                                     */

  datatype Weights = Weights(l0: real, l1: real, l2: real)

  predicate Inside(l: Weights) {
    l.l0 > 0.0 && l.l1 > 0.0 && l.l2 > 0.0
  }

  /**
    The barycentric weights of pixel (x, y). They always sum to 1, so a pixel
    is inside exactly when they are a proper convex combination.
  */
  function WeightsAt(t: Triangle, x: int, y: int): (l: Weights)
    ensures l.l0 + l.l1 + l.l2 == 1.0
    ensures Inside(l) ==> 0.0 < l.l0 < 1.0 && 0.0 < l.l1 < 1.0 && 0.0 < l.l2 < 1.0
  {
    var cy := y as real - t.p2y;
    var cx := x as real - t.p2x;
    var l0 := t.b * (t.edgeAy * cx + t.edgeAx * cy);
    var l1 := t.b * (t.edgeBy * cx + t.edgeBx * cy);
    Weights(l0, l1, 1.0 - l0 - l1)
  }

  /** Nearest-sample fetch; outside the texture buffer the read yields `stray`. */
  function Texel(texture: Texture, i: int, stray: int -> Color): (c: Color)
    ensures 0 <= i < |texture.pixels| ==> c == texture.pixels[i]
  {
    if 0 <= i < |texture.pixels| then texture.pixels[i] else stray(i)
  }

  /** The interpolated w: the reciprocal of the interpolated 1 / w. */
  function PerspectiveW(lib: MathLib, t: Triangle, l: Weights): (w: real)
    ensures l.l0 * t.w0 + l.l1 * t.w1 + l.l2 * t.w2 != 0.0 ==> w * (l.l0 * t.w0 + l.l1 * t.w1 + l.l2 * t.w2) == 1.0
  {
    Div(lib, 1.0, l.l0 * t.w0 + l.l1 * t.w1 + l.l2 * t.w2)
  }

  /** The perspective-correct texture coordinate u: interpolated u / w times the interpolated w. */
  function PerspectiveU(lib: MathLib, t: Triangle, l: Weights): real {
    (l.l0 * t.uz0 + l.l1 * t.uz1 + l.l2 * t.uz2) * PerspectiveW(lib, t, l)
  }

  /** The perspective-correct texture coordinate v. */
  function PerspectiveV(lib: MathLib, t: Triangle, l: Weights): real {
    (l.l0 * t.vz0 + l.l1 * t.vz1 + l.l2 * t.vz2) * PerspectiveW(lib, t, l)
  }

  /** The texel column: u scaled by the texture width and truncated; a u in [0, 1) lands inside the texture. */
  function TexelU(lib: MathLib, t: Triangle, l: Weights): (u: int)
    ensures 0 < t.texture.width && 0.0 <= PerspectiveU(lib, t, l) < 1.0 ==> 0 <= u < t.texture.width
  {
    ScaledCoordinateInRange(t.texture.width, PerspectiveU(lib, t, l));
    Truncate(t.texture.width as real * PerspectiveU(lib, t, l))
  }

  /** The texel row: v scaled by the texture height and truncated; a v in [0, 1) lands inside the texture. */
  function TexelV(lib: MathLib, t: Triangle, l: Weights): (v: int)
    ensures 0 < t.texture.height && 0.0 <= PerspectiveV(lib, t, l) < 1.0 ==> 0 <= v < t.texture.height
  {
    ScaledCoordinateInRange(t.texture.height, PerspectiveV(lib, t, l));
    Truncate(t.texture.height as real * PerspectiveV(lib, t, l))
  }

  /** A texture coordinate in [0, 1), scaled by a size n and truncated, is a texel in [0, n). */
  lemma ScaledCoordinateInRange(n: int, s: real)
    ensures 0 < n && 0.0 <= s < 1.0 ==> 0 <= Truncate(n as real * s) < n
  {
    if 0 < n && 0.0 <= s < 1.0 {
      var r := n as real * s;
      ScaledAtLeast(n as real, s, 0.0);
      assert r < n as real by {
        assert n as real - r == n as real * (1.0 - s);
        assert n as real * (1.0 - s) > 0.0;
      }
      var tr := Truncate(r);
      assert tr as real <= r;
    }
  }

  /**
    The texel index of a pixel, row-major in the texture; neither coordinate
    is clamped. Texture coordinates in [0, 1) give an index inside the texture.
  */
  function TexelIndex(lib: MathLib, t: Triangle, l: Weights): (i: int)
    ensures var u, v := TexelU(lib, t, l), TexelV(lib, t, l);
      0 <= u < t.texture.width && 0 <= v < t.texture.height ==> 0 <= i < t.texture.width * t.texture.height
    ensures 0 < t.texture.width && 0.0 <= PerspectiveU(lib, t, l) < 1.0
         && 0 < t.texture.height && 0.0 <= PerspectiveV(lib, t, l) < 1.0
        ==> 0 <= i < t.texture.width * t.texture.height
  {
    var u, v := TexelU(lib, t, l), TexelV(lib, t, l);
    if 0 <= u < t.texture.width && 0 <= v < t.texture.height then
      IndexInFrame(u, v, t.texture.width, t.texture.height);
      v * t.texture.width + u
    else
      v * t.texture.width + u
  }

  /** What the triangle offers pixel (x, y): coverage, interpolated 1/z and a colour. */
  datatype Fragment = Fragment(covered: bool, z: real, color: Color)

  /** The interpolated 1 / z at weights l. */
  function DepthAt(t: Triangle, l: Weights): (z: real)
    ensures Inside(l) && l.l0 + l.l1 + l.l2 == 1.0 ==>
      MinReal(t.z0, MinReal(t.z1, t.z2)) <= z <= MaxReal(t.z0, MaxReal(t.z1, t.z2))
  {
    ConvexCombinationBetween(l.l0, l.l1, l.l2, t.z0, t.z1, t.z2);
    l.l0 * t.z0 + l.l1 * t.z1 + l.l2 * t.z2
  }

  /** A proper convex combination of three values lies between their minimum and maximum. */
  lemma ConvexCombinationBetween(a: real, b: real, c: real, x: real, y: real, z: real)
    ensures a > 0.0 && b > 0.0 && c > 0.0 && a + b + c == 1.0 ==>
      MinReal(x, MinReal(y, z)) <= a * x + b * y + c * z <= MaxReal(x, MaxReal(y, z))
  {
    if a > 0.0 && b > 0.0 && c > 0.0 && a + b + c == 1.0 {
      ConvexCombinationWithin(a, b, c, x, y, z, MinReal(x, MinReal(y, z)), MaxReal(x, MaxReal(y, z)));
    }
  }

  lemma ConvexCombinationWithin(a: real, b: real, c: real, x: real, y: real, z: real, lo: real, hi: real)
    requires a > 0.0 && b > 0.0 && c > 0.0 && a + b + c == 1.0
    requires lo <= x <= hi && lo <= y <= hi && lo <= z <= hi
    ensures lo <= a * x + b * y + c * z <= hi
  {
    WeightedSumMonotone(a, b, c, lo, lo, lo, x, y, z);
    WeightedSumMonotone(a, b, c, x, y, z, hi, hi, hi);
    SumScaled(a, b, c, lo);
    SumScaled(a, b, c, hi);
  }

  lemma WeightedSumMonotone(a: real, b: real, c: real, x: real, y: real, z: real, x': real, y': real, z': real)
    requires a > 0.0 && b > 0.0 && c > 0.0
    requires x <= x' && y <= y' && z <= z'
    ensures a * x + b * y + c * z <= a * x' + b * y' + c * z'
  {
    ScaledAtLeast(a, x', x);
    ScaledAtLeast(b, y', y);
    ScaledAtLeast(c, z', z);
  }

  lemma SumScaled(a: real, b: real, c: real, u: real)
    requires a + b + c == 1.0
    ensures a * u + b * u + c * u == u
  {
    assert a * u + b * u + c * u == (a + b + c) * u;
  }

  lemma ScaledAtLeast(k: real, u: real, v: real)
    requires k >= 0.0 && u >= v
    ensures k * u >= k * v
  {
    assert k * u - k * v == k * (u - v);
  }

  function FragmentAt(pass: Pass, t: Triangle, x: int, y: int): (f: Fragment)
    ensures f.covered ==> t.box.Contains(x, y)
    ensures f.covered ==> MinReal(t.z0, MinReal(t.z1, t.z2)) <= f.z <= MaxReal(t.z0, MaxReal(t.z1, t.z2))
  {
    var l := WeightsAt(t, x, y);
    Fragment(t.box.Contains(x, y) && Inside(l),
             DepthAt(t, l),
             Texel(t.texture, TexelIndex(pass.lib, t, l), pass.stray))
  }

  /** The fragment for buffer entry k. */
  function FragmentOf(pass: Pass, t: Triangle, k: int): Fragment
    requires pass.Valid()
  {
    FragmentAt(pass, t, k % pass.width, k / pass.width)
  }

  /** The depth test: a covered fragment wins only when strictly nearer (larger 1/z). */
  predicate Wins(f: Fragment, depth: real) {
    f.covered && f.z > depth
  }

  /* ---------------------------------------------------------------------- */
  /* Buffers                                                                 */

  datatype Buffers = Buffers(depth: seq<real>, color: seq<Color>) {
    predicate Sized(n: int) { |depth| == n && |color| == n }
  }

  /** Both buffers zeroed: depth 0 is "infinitely far" under the 1/z convention. */
  function Cleared(n: nat): (b: Buffers)
    ensures b.Sized(n)
    ensures forall k :: 0 <= k < n ==> b.depth[k] == 0.0 && b.color[k] == 0
  {
    Buffers(seq(n, _ => 0.0), seq(n, _ => 0))
  }

  /** Entry k after the depth test against fragment f: both written, or neither. */
  function Blend(depth: real, color: Color, f: Fragment): (r: (real, Color))
    ensures r.0 >= depth
    ensures r.0 == depth ==> r.1 == color
    ensures r != (depth, color) ==> f.covered && r == (f.z, f.color) && f.z > depth
    ensures !f.covered || f.z <= depth ==> r == (depth, color)
  {
    if Wins(f, depth) then (f.z, f.color) else (depth, color)
  }

  /** Buffer entry k after one triangle. */
  function PixelAfter(b: Buffers, pass: Pass, t: Triangle, k: int): (real, Color)
    requires pass.Valid() && 0 <= k < |b.depth| && |b.color| == |b.depth|
  {
    Blend(b.depth[k], b.color[k], FragmentOf(pass, t, k))
  }

  function DrawTriangle(b: Buffers, pass: Pass, t: Triangle): (r: Buffers)
    requires pass.Valid() && |b.color| == |b.depth|
    ensures r.Sized(|b.depth|)
  {
    var n := |b.depth|;
    Buffers(seq(n, k requires 0 <= k < n => PixelAfter(b, pass, t, k).0),
            seq(n, k requires 0 <= k < n => PixelAfter(b, pass, t, k).1))
  }

  /** The clip-space positions of triangle i: indices 3i, 3i + 1, 3i + 2 through the matrix. */
  function ClipTriangle(pass: Pass, g: Geometry, i: nat): (Vec4, Vec4, Vec4)
    requires g.Valid() && i < |g.indices| / 3
  {
    var v0, v1, v2 := g.vertices[g.indices[3 * i]], g.vertices[g.indices[3 * i + 1]], g.vertices[g.indices[3 * i + 2]];
    (pass.lib.matVec(pass.worldViewProjection, v0.position),
     pass.lib.matVec(pass.worldViewProjection, v1.position),
     pass.lib.matVec(pass.worldViewProjection, v2.position))
  }

  /** Triangle i, set up, or None when it is culled. */
  function TriangleOf(pass: Pass, g: Geometry, i: nat): (r: Option<Triangle>)
    requires g.Valid() && i < |g.indices| / 3
    ensures var (p0, p1, p2) := ClipTriangle(pass, g, i); r.None? <==> SignedArea(p0, p1, p2) > CullEpsilon
    ensures r.Some? ==> r.value.texture == g.texture
    ensures r.Some? ==> 0 <= r.value.box.minx && r.value.box.maxx <= pass.width && 0 <= r.value.box.miny && r.value.box.maxy <= pass.height
  {
    var (p0, p1, p2) := ClipTriangle(pass, g, i);
    if BackFacing(p0, p1, p2) then None
    else
      var v0, v1, v2 := g.vertices[g.indices[3 * i]], g.vertices[g.indices[3 * i + 1]], g.vertices[g.indices[3 * i + 2]];
      Some(Setup(pass.lib, p0, p1, p2, v0, v1, v2, g.texture, pass.width, pass.height))
  }

  function DrawStep(b: Buffers, pass: Pass, tri: Option<Triangle>): (r: Buffers)
    requires pass.Valid() && |b.color| == |b.depth|
    ensures r.Sized(|b.depth|)
  {
    match tri
    case None => b
    case Some(t) => DrawTriangle(b, pass, t)
  }

  /** The first n triangles of a geometry, in index order. */
  function DrawTriangles(b: Buffers, pass: Pass, g: Geometry, n: nat): (r: Buffers)
    requires pass.Valid() && g.Valid() && |b.color| == |b.depth| && n <= |g.indices| / 3
    ensures r.Sized(|b.depth|)
    decreases n
  {
    if n == 0 then b
    else DrawStep(DrawTriangles(b, pass, g, n - 1), pass, TriangleOf(pass, g, n - 1))
  }

  /** A whole geometry: numIndices / 3 triangles; one or two trailing indices are never read. */
  function DrawGeometry(b: Buffers, pass: Pass, g: Geometry): (r: Buffers)
    requires pass.Valid() && g.Valid() && |b.color| == |b.depth|
    ensures r.Sized(|b.depth|)
  {
    DrawTriangles(b, pass, g, |g.indices| / 3)
  }

  predicate AllValid(gs: seq<Geometry>) {
    forall i :: 0 <= i < |gs| ==> gs[i].Valid()
  }

  /** The geometries in order: the last one is drawn over all the others. */
  function DrawGeometries(b: Buffers, pass: Pass, gs: seq<Geometry>): (r: Buffers)
    requires pass.Valid() && AllValid(gs) && |b.color| == |b.depth|
    ensures r.Sized(|b.depth|)
    decreases |gs|
  {
    if gs == [] then b
    else DrawGeometry(DrawGeometries(b, pass, gs[..|gs| - 1]), pass, gs[|gs| - 1])
  }

  /** A frame: both buffers cleared, then every geometry drawn in order. */
  function DrawFrame(pass: Pass, gs: seq<Geometry>): (r: Buffers)
    requires pass.Valid() && AllValid(gs)
    ensures r.Sized(pass.width * pass.height)
  {
    DrawGeometries(Cleared(pass.width * pass.height), pass, gs)
  }

  /* ---------------------------------------------------------------------- */
  /* Addressing                                                              */

  /** Every pixel of the frame addresses an entry of the buffers. */
  lemma IndexInFrame(x: int, y: int, width: int, height: int)
    requires 0 <= x < width && 0 <= y < height
    ensures 0 <= y * width + x < width * height
  {
    assert y * width <= (height - 1) * width by {
      assert (height - 1 - y) * width >= 0;
    }
  }

  /** Entry y * width + x is pixel (x, y). */
  lemma IndexDecompose(x: int, y: int, width: int)
    requires 0 <= x < width && 0 <= y
    ensures (y * width + x) % width == x && (y * width + x) / width == y
  {
    var k := y * width + x;
    var q, r := k / width, k % width;
    assert q * width + r == k && 0 <= r < width;
    if q > y {
      assert q * width == (q - y) * width + y * width;
      ProductAtLeast(q - y, width);
    } else if q < y {
      assert y * width == (y - q) * width + q * width;
      ProductAtLeast(y - q, width);
    }
  }

  /** Entry k is pixel (k % width, k / width). */
  lemma EntryOfPixel(k: int, width: int)
    requires width > 0
    ensures k == (k / width) * width + k % width
  {
  }

  lemma ProductAtLeast(a: int, w: int)
    requires a >= 1 && w >= 0
    ensures a * w >= w
  {
    assert a * w == (a - 1) * w + w;
  }

  /* ---------------------------------------------------------------------- */
  /* One triangle                                                            */

  /**
    Per entry: the depth never decreases; it changes exactly when the
    fragment wins the depth test; the colour is written exactly then, and
    otherwise both entries keep their values. An equal depth never wins.
  */
  lemma DrawTriangleEntry(b: Buffers, pass: Pass, t: Triangle, k: int)
    requires pass.Valid() && |b.color| == |b.depth| && 0 <= k < |b.depth|
    ensures var r, f := DrawTriangle(b, pass, t), FragmentOf(pass, t, k);
      && r.depth[k] >= b.depth[k]
      && (r.depth[k] != b.depth[k] <==> Wins(f, b.depth[k]))
      && (Wins(f, b.depth[k]) ==> r.depth[k] == f.z && r.color[k] == f.color)
      && (!Wins(f, b.depth[k]) ==> r.depth[k] == b.depth[k] && r.color[k] == b.color[k])
      && (f.z == b.depth[k] ==> r.depth[k] == b.depth[k] && r.color[k] == b.color[k])
  {
  }

  /**
    An entry changes only at a pixel (x, y) of the frame inside the
    triangle's box whose three weights are all positive (and sum to 1), and
    then only because its interpolated depth is strictly greater.
  */
  lemma ChangedEntryIsCovered(b: Buffers, pass: Pass, t: Triangle, k: int)
    requires pass.Valid() && |b.color| == |b.depth| && 0 <= k < |b.depth|
    requires 0 <= t.box.minx && t.box.maxx <= pass.width && 0 <= t.box.miny && t.box.maxy <= pass.height
    requires var r := DrawTriangle(b, pass, t); r.depth[k] != b.depth[k] || r.color[k] != b.color[k]
    ensures var x, y := k % pass.width, k / pass.width;
      var l := WeightsAt(t, x, y);
      && 0 <= x < pass.width && 0 <= y < pass.height && k == y * pass.width + x
      && t.box.Contains(x, y)
      && l.l0 > 0.0 && l.l1 > 0.0 && l.l2 > 0.0 && l.l0 + l.l1 + l.l2 == 1.0
      && DepthAt(t, l) > b.depth[k]
  {
    DrawTriangleEntry(b, pass, t, k);
    EntryOfPixel(k, pass.width);
  }

  /** Entries outside the triangle's pixel box are never touched. */
  lemma OutsideBoxUntouched(b: Buffers, pass: Pass, t: Triangle, k: int)
    requires pass.Valid() && |b.color| == |b.depth| && 0 <= k < |b.depth|
    requires !t.box.Contains(k % pass.width, k / pass.width)
    ensures DrawTriangle(b, pass, t).depth[k] == b.depth[k]
    ensures DrawTriangle(b, pass, t).color[k] == b.color[k]
  {
  }

  /* ---------------------------------------------------------------------- */
  /* The pixel loops, row by row                                             */

  /** Entry k has been visited once rows before y and columns before x of row y are done. */
  predicate Visited(k: int, width: int, y: int, x: int)
    requires width > 0
  {
    k / width < y || (k / width == y && k % width < x)
  }

  /** `cur` holds the triangle's result on the visited entries and `before` elsewhere. */
  predicate FilledUpTo(cur: Buffers, before: Buffers, pass: Pass, t: Triangle, y: int, x: int)
    requires pass.Valid() && before.Sized(|before.depth|) && cur.Sized(|before.depth|)
  {
    forall k :: 0 <= k < |before.depth| ==>
      (cur.depth[k], cur.color[k])
      == if Visited(k, pass.width, y, x) then PixelAfter(before, pass, t, k) else (before.depth[k], before.color[k])
  }

  /** An entry outside the pixel box keeps its value. */
  lemma PixelAfterOutsideBox(b: Buffers, pass: Pass, t: Triangle, k: int)
    requires pass.Valid() && |b.color| == |b.depth| && 0 <= k < |b.depth|
    requires !t.box.Contains(k % pass.width, k / pass.width)
    ensures PixelAfter(b, pass, t, k) == (b.depth[k], b.color[k])
  {
  }

  /** Columns left of the box need no visit. */
  lemma FilledRowStart(cur: Buffers, before: Buffers, pass: Pass, t: Triangle, y: int)
    requires pass.Valid() && before.Sized(|before.depth|) && cur.Sized(|before.depth|)
    requires FilledUpTo(cur, before, pass, t, y, 0)
    ensures FilledUpTo(cur, before, pass, t, y, t.box.minx)
  {
    forall k | 0 <= k < |before.depth| && k / pass.width == y && k % pass.width < t.box.minx
      ensures PixelAfter(before, pass, t, k) == (before.depth[k], before.color[k])
    {
      PixelAfterOutsideBox(before, pass, t, k);
    }
  }

  /** Columns right of the box need no visit: the row is done. */
  lemma FilledRowEnd(cur: Buffers, before: Buffers, pass: Pass, t: Triangle, y: int, x: int)
    requires pass.Valid() && before.Sized(|before.depth|) && cur.Sized(|before.depth|)
    requires FilledUpTo(cur, before, pass, t, y, x) && x >= t.box.maxx
    ensures FilledUpTo(cur, before, pass, t, y + 1, 0)
  {
    forall k | 0 <= k < |before.depth| && k / pass.width == y && k % pass.width >= x
      ensures PixelAfter(before, pass, t, k) == (before.depth[k], before.color[k])
    {
      PixelAfterOutsideBox(before, pass, t, k);
    }
  }

  /** Rows below the box need no visit: the triangle is done. */
  lemma FilledAll(cur: Buffers, before: Buffers, pass: Pass, t: Triangle, y: int)
    requires pass.Valid() && before.Sized(|before.depth|) && cur.Sized(|before.depth|)
    requires FilledUpTo(cur, before, pass, t, y, 0) && y >= t.box.maxy
    ensures cur == DrawTriangle(before, pass, t)
  {
    var r := DrawTriangle(before, pass, t);
    forall k | 0 <= k < |before.depth|
      ensures cur.depth[k] == r.depth[k] && cur.color[k] == r.color[k]
    {
      if !Visited(k, pass.width, y, 0) {
        PixelAfterOutsideBox(before, pass, t, k);
      }
    }
    assert cur.depth == r.depth;
    assert cur.color == r.color;
  }

  /** Rows above the box need no visit. */
  lemma FilledStart(before: Buffers, pass: Pass, t: Triangle)
    requires pass.Valid() && before.Sized(|before.depth|) && t.box.miny >= 0
    ensures FilledUpTo(before, before, pass, t, t.box.miny, 0)
  {
    forall k | 0 <= k < |before.depth| && Visited(k, pass.width, t.box.miny, 0)
      ensures PixelAfter(before, pass, t, k) == (before.depth[k], before.color[k])
    {
      PixelAfterOutsideBox(before, pass, t, k);
    }
  }

  /** Visiting pixel (x, y) of the box blends its fragment into entry y * width + x. */
  lemma FilledStep(cur: Buffers, next: Buffers, before: Buffers, pass: Pass, t: Triangle, x: int, y: int)
    requires pass.Valid() && before.Sized(|before.depth|) && cur.Sized(|before.depth|)
    requires 0 <= x < pass.width && 0 <= y && y * pass.width + x < |before.depth|
    requires FilledUpTo(cur, before, pass, t, y, x)
    requires var k := y * pass.width + x;
      var p := Blend(cur.depth[k], cur.color[k], FragmentAt(pass, t, x, y));
      next == Buffers(cur.depth[k := p.0], cur.color[k := p.1])
    ensures FilledUpTo(next, before, pass, t, y, x + 1)
  {
    var k0 := y * pass.width + x;
    IndexDecompose(x, y, pass.width);
    assert !Visited(k0, pass.width, y, x);
    assert cur.depth[k0] == before.depth[k0] && cur.color[k0] == before.color[k0];
    assert FragmentOf(pass, t, k0) == FragmentAt(pass, t, x, y);
    forall k | 0 <= k < |before.depth|
      ensures (next.depth[k], next.color[k])
           == if Visited(k, pass.width, y, x + 1) then PixelAfter(before, pass, t, k) else (before.depth[k], before.color[k])
    {
      if k / pass.width == y && k % pass.width == x {
        EntryOfPixel(k, pass.width);
      }
      if k != k0 {
        assert next.depth[k] == cur.depth[k] && next.color[k] == cur.color[k];
        assert Visited(k, pass.width, y, x + 1) == Visited(k, pass.width, y, x);
      }
    }
  }

  /** Drawing the same triangle again changes nothing: an equal depth is not a win. */
  lemma {:induction false} RedrawChangesNothing(b: Buffers, pass: Pass, t: Triangle)
    requires pass.Valid() && |b.color| == |b.depth|
    ensures DrawTriangle(DrawTriangle(b, pass, t), pass, t) == DrawTriangle(b, pass, t)
  {
    var once := DrawTriangle(b, pass, t);
    var twice := DrawTriangle(once, pass, t);
    forall k | 0 <= k < |b.depth|
      ensures twice.depth[k] == once.depth[k] && twice.color[k] == once.color[k]
    {
      DrawTriangleEntry(b, pass, t, k);
      DrawTriangleEntry(once, pass, t, k);
    }
    assert twice.depth == once.depth;
    assert twice.color == once.color;
  }

  /**
    At one entry, the result of two triangles does not depend on their order
    unless both cover it at exactly the same depth: the nearer one wins.
  */
  lemma OrderIndependentAtEntry(b: Buffers, pass: Pass, t1: Triangle, t2: Triangle, k: int)
    requires pass.Valid() && |b.color| == |b.depth| && 0 <= k < |b.depth|
    requires var f1, f2 := FragmentOf(pass, t1, k), FragmentOf(pass, t2, k);
      !(f1.covered && f2.covered && f1.z == f2.z)
    ensures var r12, r21 := DrawTriangle(DrawTriangle(b, pass, t1), pass, t2), DrawTriangle(DrawTriangle(b, pass, t2), pass, t1);
      r12.depth[k] == r21.depth[k] && r12.color[k] == r21.color[k]
  {
    var b1, b2 := DrawTriangle(b, pass, t1), DrawTriangle(b, pass, t2);
    DrawTriangleEntry(b, pass, t1, k);
    DrawTriangleEntry(b, pass, t2, k);
    DrawTriangleEntry(b1, pass, t2, k);
    DrawTriangleEntry(b2, pass, t1, k);
  }

  /** A triangle that covers an entry strictly nearer than what is stored overwrites it with its own colour. */
  lemma NearerTriangleWins(b: Buffers, pass: Pass, t1: Triangle, t2: Triangle, k: int)
    requires pass.Valid() && |b.color| == |b.depth| && 0 <= k < |b.depth|
    requires var f1, f2 := FragmentOf(pass, t1, k), FragmentOf(pass, t2, k);
      f2.covered && f2.z > b.depth[k] && f2.z > f1.z
    ensures var r := DrawTriangle(DrawTriangle(b, pass, t1), pass, t2);
      r.depth[k] == FragmentOf(pass, t2, k).z && r.color[k] == FragmentOf(pass, t2, k).color
  {
    DrawTriangleEntry(b, pass, t1, k);
    DrawTriangleEntry(DrawTriangle(b, pass, t1), pass, t2, k);
  }

  /* ---------------------------------------------------------------------- */
  /* Geometries and frames                                                   */

  /** A culled triangle leaves both buffers as they were. */
  lemma CulledTriangleChangesNothing(b: Buffers, pass: Pass, g: Geometry, i: nat)
    requires pass.Valid() && g.Valid() && |b.color| == |b.depth| && i < |g.indices| / 3
    requires var (p0, p1, p2) := ClipTriangle(pass, g, i); SignedArea(p0, p1, p2) > CullEpsilon
    ensures DrawTriangles(b, pass, g, i + 1) == DrawTriangles(b, pass, g, i)
  {
  }

  /** Depth only grows, and a colour entry changes only where its depth strictly grew. */
  predicate NeverRetreats(before: Buffers, after: Buffers)
    requires before.Sized(|before.depth|) && after.Sized(|before.depth|)
  {
    forall k :: 0 <= k < |before.depth| ==>
      && after.depth[k] >= before.depth[k]
      && (after.color[k] != before.color[k] ==> after.depth[k] > before.depth[k])
  }

  lemma NeverRetreatsTransitive(b0: Buffers, b1: Buffers, b2: Buffers)
    requires b0.Sized(|b0.depth|) && b1.Sized(|b0.depth|) && b2.Sized(|b0.depth|)
    requires NeverRetreats(b0, b1) && NeverRetreats(b1, b2)
    ensures NeverRetreats(b0, b2)
  {
    forall k | 0 <= k < |b0.depth|
      ensures b2.depth[k] >= b0.depth[k] && (b2.color[k] != b0.color[k] ==> b2.depth[k] > b0.depth[k])
    {
      assert b1.depth[k] >= b0.depth[k];
      assert b2.depth[k] >= b1.depth[k];
    }
  }

  lemma DrawStepNeverRetreats(b: Buffers, pass: Pass, tri: Option<Triangle>)
    requires pass.Valid() && |b.color| == |b.depth|
    ensures NeverRetreats(b, DrawStep(b, pass, tri))
  {
    if tri.Some? {
      forall k | 0 <= k < |b.depth|
        ensures var r := DrawStep(b, pass, tri);
          r.depth[k] >= b.depth[k] && (r.color[k] != b.color[k] ==> r.depth[k] > b.depth[k])
      {
        DrawTriangleEntry(b, pass, tri.value, k);
      }
    }
  }

  lemma {:induction false} DrawTrianglesNeverRetreats(b: Buffers, pass: Pass, g: Geometry, n: nat)
    requires pass.Valid() && g.Valid() && |b.color| == |b.depth| && n <= |g.indices| / 3
    ensures NeverRetreats(b, DrawTriangles(b, pass, g, n))
  {
    if n > 0 {
      var prev := DrawTriangles(b, pass, g, n - 1);
      DrawTrianglesNeverRetreats(b, pass, g, n - 1);
      DrawStepNeverRetreats(prev, pass, TriangleOf(pass, g, n - 1));
      NeverRetreatsTransitive(b, prev, DrawTriangles(b, pass, g, n));
    }
  }

  /** Over any sequence of geometries, depth never decreases and colour changes only with it. */
  lemma {:induction false} DrawGeometriesNeverRetreats(b: Buffers, pass: Pass, gs: seq<Geometry>)
    requires pass.Valid() && AllValid(gs) && |b.color| == |b.depth|
    ensures NeverRetreats(b, DrawGeometries(b, pass, gs))
    decreases |gs|
  {
    if gs != [] {
      var prev := DrawGeometries(b, pass, gs[..|gs| - 1]);
      DrawGeometriesNeverRetreats(b, pass, gs[..|gs| - 1]);
      DrawTrianglesNeverRetreats(prev, pass, gs[|gs| - 1], |gs[|gs| - 1].indices| / 3);
      NeverRetreatsTransitive(b, prev, DrawGeometries(b, pass, gs));
    }
  }

  /**
    After a frame every depth is at least 0, and a pixel whose depth is
    still 0 was never written: its colour is still the cleared 0.
  */
  lemma FrameBackgroundIsCleared(pass: Pass, gs: seq<Geometry>)
    requires pass.Valid() && AllValid(gs)
    ensures var r := DrawFrame(pass, gs);
      forall k :: 0 <= k < pass.width * pass.height ==>
        r.depth[k] >= 0.0 && (r.depth[k] == 0.0 ==> r.color[k] == 0)
  {
    var n := pass.width * pass.height;
    DrawGeometriesNeverRetreats(Cleared(n), pass, gs);
  }

  /** Triangle i reads nothing of the index buffer beyond entries 3i, 3i + 1 and 3i + 2. */
  lemma {:induction false} SameLeadingIndicesSameDraw(b: Buffers, pass: Pass, g: Geometry, h: Geometry, n: nat)
    requires pass.Valid() && g.Valid() && h.Valid() && |b.color| == |b.depth|
    requires n <= |g.indices| / 3 && n <= |h.indices| / 3
    requires g.vertices == h.vertices && g.texture == h.texture
    requires g.indices[..3 * n] == h.indices[..3 * n]
    ensures DrawTriangles(b, pass, g, n) == DrawTriangles(b, pass, h, n)
    decreases n
  {
    if n > 0 {
      var m := 3 * (n - 1);
      assert g.indices[..m] == g.indices[..3 * n][..m];
      assert h.indices[..m] == h.indices[..3 * n][..m];
      SameLeadingIndicesSameDraw(b, pass, g, h, n - 1);
      assert g.indices[m] == g.indices[..3 * n][m] == h.indices[m];
      assert g.indices[m + 1] == g.indices[..3 * n][m + 1] == h.indices[m + 1];
      assert g.indices[m + 2] == g.indices[..3 * n][m + 2] == h.indices[m + 2];
      assert ClipTriangle(pass, g, n - 1) == ClipTriangle(pass, h, n - 1);
      assert TriangleOf(pass, g, n - 1) == TriangleOf(pass, h, n - 1);
    }
  }

  /**
    Only the indices of whole triangles are read: dropping the one or two
    indices left over after the last full triple changes nothing.
  */
  lemma TrailingIndicesIgnored(b: Buffers, pass: Pass, g: Geometry)
    requires pass.Valid() && g.Valid() && |b.color| == |b.depth|
    ensures var g' := g.(indices := g.indices[..3 * (|g.indices| / 3)]);
      g'.Valid() && |g'.indices| % 3 == 0 && DrawGeometry(b, pass, g') == DrawGeometry(b, pass, g)
  {
    var n := |g.indices| / 3;
    var g' := g.(indices := g.indices[..3 * n]);
    assert g'.indices[..3 * n] == g.indices[..3 * n];
    SameLeadingIndicesSameDraw(b, pass, g', g, n);
  }
}
