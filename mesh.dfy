/**
  The loaded scene data the rasterizer reads: vertices, 16-bit triangle
  indices and one texture per geometry. Once loaded, a geometry never
  changes, so it is a value here. The two loops of the loader that copy the
  imported mesh into the geometry's own buffers are methods over arrays.
*/
module Mesh {
  import opened VectorMath

  /** A packed 32-bit colour sample. */
  type Color = bv32

  /** A stored triangle index: the loader keeps indices as unsigned 16-bit values. */
  type Index = i: int | 0 <= i < 0x1_0000

  datatype Vertex = Vertex(position: Vec4, u: real, v: real)

  /** A row-major texture; `pixels` is the buffer the loader filled. */
  datatype Texture = Texture(width: int, height: int, pixels: seq<Color>)

  /** An imported triangular face: three unsigned 32-bit vertex indices. */
  datatype Face = Face(i0: nat, i1: nat, i2: nat)

  datatype Geometry = Geometry(vertices: seq<Vertex>, indices: seq<Index>, texture: Texture) {
    /** Every stored index names a vertex. */
    predicate Valid() {
      forall j :: 0 <= j < |indices| ==> indices[j] < |vertices|
    }
  }

  /** The k-th corner (k in 0..2) of a face. */
  function Corner(face: Face, k: int): nat
    requires 0 <= k < 3
  {
    if k == 0 then face.i0 else if k == 1 then face.i1 else face.i2
  }

  /**
    Storing a 32-bit index into a 16-bit slot keeps its low 16 bits. The
    stored index never exceeds the imported one, and is exact below 65536.
  */
  function ToIndex(i: nat): (r: Index)
    ensures r <= i
    ensures i < 0x1_0000 ==> r == i
    ensures i >= 0x1_0000 ==> r != i && (i - r) % 0x1_0000 == 0
  {
    i % 0x1_0000
  }

  /** Every corner of every face names one of `numVertices` vertices. */
  predicate FacesInRange(faces: seq<Face>, numVertices: nat) {
    forall i, k :: 0 <= i < |faces| && 0 <= k < 3 ==> Corner(faces[i], k) < numVertices
  }

  /**
    Flattens the faces into the index buffer: 3 * |faces| entries, entry
    3i + k holding (the low 16 bits of) corner k of face i. When the faces
    name existing vertices, so do the stored indices.
  */
  method FlattenIndices(faces: seq<Face>, ghost numVertices: nat) returns (indices: seq<Index>)
    ensures |indices| == 3 * |faces|
    ensures forall p :: 0 <= p < |indices| ==> indices[p] == ToIndex(Corner(faces[p / 3], p % 3))
    ensures FacesInRange(faces, numVertices) ==> forall p :: 0 <= p < |indices| ==> indices[p] < numVertices
  {
    var numIndices := 3 * |faces|;
    var buffer := new Index[numIndices];
    var index := 0;
    for i := 0 to |faces|
      invariant index == 3 * i
      invariant forall p :: 0 <= p < index ==> buffer[p] == ToIndex(Corner(faces[p / 3], p % 3))
    {
      var face := faces[i];
      buffer[index] := ToIndex(face.i0);
      index := index + 1;
      buffer[index] := ToIndex(face.i1);
      index := index + 1;
      buffer[index] := ToIndex(face.i2);
      index := index + 1;
    }
    indices := buffer[..];
    if FacesInRange(faces, numVertices) {
      forall p | 0 <= p < |indices|
        ensures indices[p] < numVertices
      {
        assert indices[p] <= Corner(faces[p / 3], p % 3);
      }
    }
  }

  /**
    Copies the imported positions and first texture-coordinate set into
    vertices: the position gains w = 1, the texture coordinate keeps x and y.
  */
  method LoadVertices(positions: seq<Vec3>, texcoords: seq<Vec3>) returns (vertices: seq<Vertex>)
    requires |texcoords| == |positions|
    ensures |vertices| == |positions|
    ensures forall i :: 0 <= i < |vertices| ==>
      vertices[i] == Vertex(Vec4(positions[i].x, positions[i].y, positions[i].z, 1.0), texcoords[i].x, texcoords[i].y)
  {
    var numVertices := |positions|;
    var buffer := new Vertex[numVertices];
    for i := 0 to numVertices
      invariant forall j :: 0 <= j < i ==>
        buffer[j] == Vertex(Vec4(positions[j].x, positions[j].y, positions[j].z, 1.0), texcoords[j].x, texcoords[j].y)
    {
      var p := positions[i];
      var t := texcoords[i];
      buffer[i] := Vertex(Vec4(p.x, p.y, p.z, 1.0), t.x, t.y);
    }
    vertices := buffer[..];
  }
}
