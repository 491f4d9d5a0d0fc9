/**
  The render target: a depth buffer and a colour buffer of width * height
  entries, allocated once and updated in place every frame. Its methods are
  the rasterizer's loops; each is proved to leave the buffers exactly as the
  corresponding function of module Rasterizer says.
*/
module FrameBuffers {
  import opened VectorMath
  import opened Mesh
  import opened Rasterizer
  import opened FreeFlyCamera

  class FrameBuffer {
    const width: int
    const height: int
    const depth: array<real>
    const color: array<Color>

    ghost predicate Valid()
      reads this
    {
      && width > 0 && height > 0
      && depth.Length == width * height && color.Length == width * height
      && depth as object != color as object
    }

    /** The contents of both buffers. */
    ghost function Snapshot(): (b: Buffers)
      reads this, depth, color
    {
      Buffers(depth[..], color[..])
    }

    /** The frame-wide constants of a pass drawn into this buffer. */
    function PassFor(lib: MathLib, stray: int -> Color, worldViewProjection: Matrix4): (pass: Pass) {
      Pass(lib, stray, worldViewProjection, width, height)
    }

    constructor (width: int, height: int)
      requires width > 0 && height > 0
      ensures Valid() && this.width == width && this.height == height
      ensures fresh(depth) && fresh(color)
    {
      this.width := width;
      this.height := height;
      depth := new real[width * height];
      color := new Color[width * height];
    }

    /** Zeroes both buffers. */
    method Clear()
      requires Valid()
      modifies depth, color
      ensures Snapshot() == Cleared(width * height)
    {
      forall k | 0 <= k < depth.Length {
        depth[k] := 0.0;
      }
      forall k | 0 <= k < color.Length {
        color[k] := 0;
      }
      assert depth[..] == Cleared(width * height).depth;
      assert color[..] == Cleared(width * height).color;
    }

    /**
      The pixel loops for one set-up triangle: rows miny..maxy-1, and in each
      row the columns minx..maxx-1. The row offset starts at miny * width and
      advances by width per row, so it always equals y * width and entry
      row + x is pixel (x, y).
    */
    method FillTriangle(pass: Pass, t: Triangle)
      requires Valid() && pass.width == width && pass.height == height
      requires 0 <= t.box.minx && t.box.maxx <= width && 0 <= t.box.miny && t.box.maxy <= height
      modifies depth, color
      ensures Snapshot() == DrawTriangle(old(Snapshot()), pass, t)
    {
      ghost var before := Snapshot();
      var minx, maxx, miny, maxy := t.box.minx, t.box.maxx, t.box.miny, t.box.maxy;

      var row := miny * width;
      var y := miny;
      FilledStart(before, pass, t);
      while y < maxy
        invariant miny <= y && (y <= maxy || y == miny)
        invariant row == y * width
        invariant FilledUpTo(Snapshot(), before, pass, t, y, 0)
      {
        var x := minx;
        FilledRowStart(Snapshot(), before, pass, t, y);
        while x < maxx
          invariant minx <= x && (x <= maxx || x == minx)
          invariant FilledUpTo(Snapshot(), before, pass, t, y, x)
        {
          ghost var cur := Snapshot();
          ShadePixel(pass, t, x, y, row);
          FilledStep(cur, Snapshot(), before, pass, t, x, y);
          x := x + 1;
        }
        FilledRowEnd(Snapshot(), before, pass, t, y, x);
        assert row + width == (y + 1) * width;
        row := row + width;
        y := y + 1;
      }
      FilledAll(Snapshot(), before, pass, t, y);
    }

    /**
      One pixel of the box: inside test on the three weights, then the strict
      depth test; on a win, the depth entry and then the colour entry are
      written. Nothing else changes.
    */
    method ShadePixel(pass: Pass, t: Triangle, x: int, y: int, row: int)
      requires Valid() && pass.width == width && pass.height == height
      requires t.box.Contains(x, y) && 0 <= x < width && 0 <= y < height
      requires row == y * width
      modifies depth, color
      ensures 0 <= row + x < width * height
      ensures var p := Blend(old(depth[row + x]), old(color[row + x]), FragmentAt(pass, t, x, y));
        Snapshot() == Buffers(old(depth[..])[row + x := p.0], old(color[..])[row + x := p.1])
    {
      IndexInFrame(x, y, width, height);
      ghost var k := row + x;
      ghost var d0, c0 := depth[..], color[..];
      assert d0[k := d0[k]] == d0 && c0[k := c0[k]] == c0;

      var l := WeightsAt(t, x, y);
      if l.l0 > 0.0 && l.l1 > 0.0 && l.l2 > 0.0 {
        var z := DepthAt(t, l);
        if z > depth[row + x] {
          depth[row + x] := z;
          // perspective-correct u, v scaled to the texture and truncated; not clamped
          color[row + x] := Texel(t.texture, TexelIndex(pass.lib, t, l), pass.stray);
          assert depth[..] == d0[k := z];
        }
      }
    }

    /**
      One geometry: triangle i reads indices 3i, 3i + 1, 3i + 2 (an index
      cursor advancing by one per read), is transformed to clip space,
      skipped when back-facing, and otherwise set up and filled.
    */
    method RasterizeGeometry(geometry: Geometry, worldMatrix: Matrix4, camera: Camera, lib: MathLib, stray: int -> Color)
      requires Valid() && geometry.Valid()
      modifies depth, color
      ensures Snapshot() == DrawGeometry(old(Snapshot()), PassFor(lib, stray, lib.matMul(camera.viewProjection, worldMatrix)), geometry)
    {
      var worldViewProjection := lib.matMul(camera.viewProjection, worldMatrix);
      var pass := PassFor(lib, stray, worldViewProjection);
      ghost var before := Snapshot();

      var texture := geometry.texture;
      var triangles := geometry.vertices;
      var indices := 0;

      var numTriangles := |geometry.indices| / 3;

      for i := 0 to numTriangles
        invariant indices == 3 * i
        invariant Snapshot() == DrawTriangles(before, pass, geometry, i)
      {
        var i0 := geometry.indices[indices];
        indices := indices + 1;
        var i1 := geometry.indices[indices];
        indices := indices + 1;
        var i2 := geometry.indices[indices];
        indices := indices + 1;

        var v0, v1, v2 := triangles[i0], triangles[i1], triangles[i2];

        var p0 := lib.matVec(worldViewProjection, v0.position);
        var p1 := lib.matVec(worldViewProjection, v1.position);
        var p2 := lib.matVec(worldViewProjection, v2.position);

        assert (p0, p1, p2) == ClipTriangle(pass, geometry, i);
        if SignedArea(p0, p1, p2) > CullEpsilon {
          assert TriangleOf(pass, geometry, i) == None;
          continue;
        }

        var t := Setup(lib, p0, p1, p2, v0, v1, v2, texture, width, height);
        assert TriangleOf(pass, geometry, i) == Some(t);
        FillTriangle(pass, t);
      }
    }

    /** A frame: clear both buffers, then draw the geometries in order. */
    method RasterizeFrame(worldMatrix: Matrix4, geometries: seq<Geometry>, camera: Camera, lib: MathLib, stray: int -> Color)
      requires Valid() && AllValid(geometries)
      modifies depth, color
      ensures Snapshot() == DrawFrame(PassFor(lib, stray, lib.matMul(camera.viewProjection, worldMatrix)), geometries)
    {
      ghost var pass := PassFor(lib, stray, lib.matMul(camera.viewProjection, worldMatrix));
      Clear();
      for i := 0 to |geometries|
        invariant Snapshot() == DrawGeometries(Cleared(width * height), pass, geometries[..i])
      {
        RasterizeGeometry(geometries[i], worldMatrix, camera, lib, stray);
        assert geometries[..i + 1][..i] == geometries[..i];
      }
      assert geometries[..|geometries|] == geometries;
    }
  }
}
