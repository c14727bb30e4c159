/**
 * The part of `GetModel` (both viewers) that turns the OBJ loader's indexed
 * data into flat, non-indexed arrays. The loader itself is not modelled: its
 * result is the value `ObjData`. The element type is generic because the
 * values are only copied, never computed with.
 */
module ObjMesh {

  /** One face corner: indices into the attribute arrays; a negative normal or
      texture-coordinate index means the corner has none. */
  datatype Index = Index(vertexIndex: int, normalIndex: int, texcoordIndex: int)

  /** Attribute arrays: three values per position and normal, two per texture coordinate. */
  datatype Attrib<T> = Attrib(vertices: seq<T>, normals: seq<T>, texcoords: seq<T>)

  datatype Shape = Shape(indices: seq<Index>)

  datatype Material = Material(diffuseTexname: string)

  datatype ObjFile<T> = ObjFile(attrib: Attrib<T>, shapes: seq<Shape>, materials: seq<Material>)

  /** All corners, shape after shape, each shape's corners in order. */
  function Corners(shapes: seq<Shape>): seq<Index> {
    if shapes == [] then []
    else Corners(shapes[..|shapes| - 1]) + shapes[|shapes| - 1].indices
  }

  /** The number of corners summed over the shapes. */
  function CornerCount(shapes: seq<Shape>): nat {
    if shapes == [] then 0
    else CornerCount(shapes[..|shapes| - 1]) + |shapes[|shapes| - 1].indices|
  }

  /** Every attribute a corner refers to exists. */
  predicate Fits<T>(a: Attrib<T>, c: Index) {
    0 <= c.vertexIndex && 3 * c.vertexIndex + 3 <= |a.vertices| &&
    (c.normalIndex >= 0 ==> 3 * c.normalIndex + 3 <= |a.normals|) &&
    (c.texcoordIndex >= 0 ==> 2 * c.texcoordIndex + 2 <= |a.texcoords|)
  }

  predicate AllFit<T>(a: Attrib<T>, cs: seq<Index>) {
    forall k :: 0 <= k < |cs| ==> Fits(a, cs[k])
  }

  /** What the OBJ loader returns on success: every index is in range. */
  type ObjData<T> = o: ObjFile<T> | AllFit(o.attrib, Corners(o.shapes))
    witness ObjFile(Attrib([], [], []), [], [])

  /** Positions of the corners `cs`, one triple per corner. */
  function PositionsOf<T>(a: Attrib<T>, cs: seq<Index>): seq<T>
    requires AllFit(a, cs)
  {
    if cs == [] then []
    else
      var v := cs[|cs| - 1].vertexIndex;
      PositionsOf(a, cs[..|cs| - 1]) + a.vertices[3 * v .. 3 * v + 3]
  }

  /** Normals of the corners `cs`: one triple per corner that has a normal. */
  function NormalsOf<T>(a: Attrib<T>, cs: seq<Index>): seq<T>
    requires AllFit(a, cs)
  {
    if cs == [] then []
    else
      var n := cs[|cs| - 1].normalIndex;
      NormalsOf(a, cs[..|cs| - 1]) + (if n >= 0 then a.normals[3 * n .. 3 * n + 3] else [])
  }

  /** Texture coordinates of the corners `cs`: one pair per corner that has one. */
  function TexcoordsOf<T>(a: Attrib<T>, cs: seq<Index>): seq<T>
    requires AllFit(a, cs)
  {
    if cs == [] then []
    else
      var t := cs[|cs| - 1].texcoordIndex;
      TexcoordsOf(a, cs[..|cs| - 1]) + (if t >= 0 then a.texcoords[2 * t .. 2 * t + 2] else [])
  }

  function Positions<T>(o: ObjData<T>): seq<T> {
    PositionsOf(o.attrib, Corners(o.shapes))
  }

  function Normals<T>(o: ObjData<T>): seq<T> {
    NormalsOf(o.attrib, Corners(o.shapes))
  }

  function Texcoords<T>(o: ObjData<T>): seq<T> {
    TexcoordsOf(o.attrib, Corners(o.shapes))
  }

  /** The positions of the corners among `cs` that carry a normal / a texture coordinate. */
  function WithNormal(cs: seq<Index>): set<nat> {
    set k: nat | k < |cs| && cs[k].normalIndex >= 0
  }

  function WithTexcoord(cs: seq<Index>): set<nat> {
    set k: nat | k < |cs| && cs[k].texcoordIndex >= 0
  }

  lemma {:induction false} CornersSize(shapes: seq<Shape>)
    ensures |Corners(shapes)| == CornerCount(shapes)
  {
    if shapes != [] {
      CornersSize(shapes[..|shapes| - 1]);
    }
  }

  /** Every corner of every shape is among `Corners(shapes)`. */
  lemma {:induction false} CornerListed(shapes: seq<Shape>, s: nat, i: nat)
    requires s < |shapes| && i < |shapes[s].indices|
    ensures exists k :: 0 <= k < |Corners(shapes)| && Corners(shapes)[k] == shapes[s].indices[i]
  {
    var init := shapes[..|shapes| - 1];
    if s < |shapes| - 1 {
      assert init[s] == shapes[s];
      CornerListed(init, s, i);
      var k :| 0 <= k < |Corners(init)| && Corners(init)[k] == shapes[s].indices[i];
      assert Corners(shapes)[k] == shapes[s].indices[i];
    } else {
      assert Corners(shapes)[|Corners(init)| + i] == shapes[s].indices[i];
    }
  }

  /** The flat position array holds three values per corner. */
  lemma {:induction false} PositionsSize<T>(a: Attrib<T>, cs: seq<Index>)
    requires AllFit(a, cs)
    ensures |PositionsOf(a, cs)| == 3 * |cs|
  {
    if cs != [] {
      PositionsSize(a, cs[..|cs| - 1]);
    }
  }

  /** Corner `k`'s position is the `k`-th triple, copied from the vertex its index names. */
  lemma {:induction false} PositionAt<T>(a: Attrib<T>, cs: seq<Index>, k: nat, c: nat)
    requires AllFit(a, cs)
    requires k < |cs| && c < 3
    ensures 3 * k + c < |PositionsOf(a, cs)|
    ensures PositionsOf(a, cs)[3 * k + c] == a.vertices[3 * cs[k].vertexIndex + c]
  {
    var init := cs[..|cs| - 1];
    PositionsSize(a, init);
    if k < |cs| - 1 {
      PositionAt(a, init, k, c);
    }
  }

  lemma CountExtend(cs: seq<Index>, c: Index)
    ensures WithNormal(cs + [c]) == WithNormal(cs) + (if c.normalIndex >= 0 then {|cs|} else {})
    ensures WithTexcoord(cs + [c]) == WithTexcoord(cs) + (if c.texcoordIndex >= 0 then {|cs|} else {})
    ensures |cs| !in WithNormal(cs) && |cs| !in WithTexcoord(cs)
  {
    var ext := cs + [c];
    assert forall k :: 0 <= k < |cs| ==> ext[k] == cs[k];
  }

  /** The flat normal array holds three values per corner that has a normal. */
  lemma {:induction false} NormalsSize<T>(a: Attrib<T>, cs: seq<Index>)
    requires AllFit(a, cs)
    ensures |NormalsOf(a, cs)| == 3 * |WithNormal(cs)|
  {
    if cs == [] {
      assert WithNormal(cs) == {};
    } else {
      var init := cs[..|cs| - 1];
      NormalsSize(a, init);
      CountExtend(init, cs[|cs| - 1]);
      assert init + [cs[|cs| - 1]] == cs;
    }
  }

  /** The flat texture-coordinate array holds two values per corner that has one. */
  lemma {:induction false} TexcoordsSize<T>(a: Attrib<T>, cs: seq<Index>)
    requires AllFit(a, cs)
    ensures |TexcoordsOf(a, cs)| == 2 * |WithTexcoord(cs)|
  {
    if cs == [] {
      assert WithTexcoord(cs) == {};
    } else {
      var init := cs[..|cs| - 1];
      TexcoordsSize(a, init);
      CountExtend(init, cs[|cs| - 1]);
      assert init + [cs[|cs| - 1]] == cs;
    }
  }

  /** A corner with a normal owns the triple after those of the earlier corners with normals. */
  lemma {:induction false} NormalAt<T>(a: Attrib<T>, cs: seq<Index>, k: nat, c: nat)
    requires AllFit(a, cs)
    requires k < |cs| && c < 3 && cs[k].normalIndex >= 0
    ensures AllFit(a, cs[..k])
    ensures 3 * |WithNormal(cs[..k])| + c < |NormalsOf(a, cs)|
    ensures NormalsOf(a, cs)[3 * |WithNormal(cs[..k])| + c] == a.normals[3 * cs[k].normalIndex + c]
  {
    var init := cs[..|cs| - 1];
    NormalsSize(a, init);
    if k < |cs| - 1 {
      assert init[..k] == cs[..k];
      NormalAt(a, init, k, c);
    } else {
      assert init == cs[..k];
    }
  }

  /** A corner with a texture coordinate owns the pair after those of the earlier such corners. */
  lemma {:induction false} TexcoordAt<T>(a: Attrib<T>, cs: seq<Index>, k: nat, c: nat)
    requires AllFit(a, cs)
    requires k < |cs| && c < 2 && cs[k].texcoordIndex >= 0
    ensures AllFit(a, cs[..k])
    ensures 2 * |WithTexcoord(cs[..k])| + c < |TexcoordsOf(a, cs)|
    ensures TexcoordsOf(a, cs)[2 * |WithTexcoord(cs[..k])| + c] == a.texcoords[2 * cs[k].texcoordIndex + c]
  {
    var init := cs[..|cs| - 1];
    TexcoordsSize(a, init);
    if k < |cs| - 1 {
      assert init[..k] == cs[..k];
      TexcoordAt(a, init, k, c);
    } else {
      assert init == cs[..k];
    }
  }

  /** One more corner adds its triple / pair at the end of each flat array. */
  lemma AppendCorner<T>(a: Attrib<T>, cs: seq<Index>, c: Index)
    requires AllFit(a, cs) && Fits(a, c)
    ensures AllFit(a, cs + [c])
    ensures PositionsOf(a, cs + [c]) == PositionsOf(a, cs) +
      [a.vertices[3 * c.vertexIndex + 0], a.vertices[3 * c.vertexIndex + 1], a.vertices[3 * c.vertexIndex + 2]]
    ensures NormalsOf(a, cs + [c]) == NormalsOf(a, cs) +
      (if c.normalIndex >= 0
       then [a.normals[3 * c.normalIndex + 0], a.normals[3 * c.normalIndex + 1], a.normals[3 * c.normalIndex + 2]]
       else [])
    ensures TexcoordsOf(a, cs + [c]) == TexcoordsOf(a, cs) +
      (if c.texcoordIndex >= 0
       then [a.texcoords[2 * c.texcoordIndex + 0], a.texcoords[2 * c.texcoordIndex + 1]]
       else [])
  {
    assert (cs + [c])[..|cs|] == cs;
  }

  /** Every corner the loader returns fits its attribute arrays. */
  lemma CornerFits<T>(o: ObjData<T>, s: nat, i: nat)
    requires s < |o.shapes| && i < |o.shapes[s].indices|
    ensures Fits(o.attrib, o.shapes[s].indices[i])
  {
    CornerListed(o.shapes, s, i);
  }

  /** Corners of the first `s` shapes followed by shape `s`'s corners are the corners of the first `s + 1`. */
  lemma CornersStep(shapes: seq<Shape>, s: nat)
    requires s < |shapes|
    ensures Corners(shapes[..s + 1]) == Corners(shapes[..s]) + shapes[s].indices
  {
    assert shapes[..s + 1][..s] == shapes[..s];
  }

  /** `v`, `n` and `t` are the flat arrays of the corners `cs`. */
  ghost predicate Flattened<T>(a: Attrib<T>, cs: seq<Index>, v: seq<T>, n: seq<T>, t: seq<T>) {
    AllFit(a, cs) && v == PositionsOf(a, cs) && n == NormalsOf(a, cs) && t == TexcoordsOf(a, cs)
  }

  /**
   * The nested `push_back` loops of `GetModel`: for every corner of every shape,
   * copy its position triple, its normal triple when the normal index is not
   * negative, and its texture-coordinate pair when that index is not negative.
   */
  method Deindex<T>(o: ObjData<T>) returns (vertices: seq<T>, normals: seq<T>, texcoords: seq<T>)
    ensures vertices == Positions(o)
    ensures normals == Normals(o)
    ensures texcoords == Texcoords(o)
  {
    var a := o.attrib;
    vertices, normals, texcoords := [], [], [];
    var s := 0;
    while s < |o.shapes|
      invariant s <= |o.shapes|
      invariant Flattened(a, Corners(o.shapes[..s]), vertices, normals, texcoords)
    {
      forall i | 0 <= i < |o.shapes[s].indices|
        ensures Fits(a, o.shapes[s].indices[i])
      {
        CornerFits(o, s, i);
      }
      vertices, normals, texcoords := DeindexShape(a, o.shapes[s], Corners(o.shapes[..s]), vertices, normals, texcoords);
      CornersStep(o.shapes, s);
      s := s + 1;
    }
    assert o.shapes[..s] == o.shapes;
  }

  /** The inner loop of `Deindex`: append the flat data of one shape's corners, in order. */
  method DeindexShape<T>(a: Attrib<T>, shape: Shape, ghost done: seq<Index>, v0: seq<T>, n0: seq<T>, t0: seq<T>)
    returns (vertices: seq<T>, normals: seq<T>, texcoords: seq<T>)
    requires Flattened(a, done, v0, n0, t0) && AllFit(a, shape.indices)
    ensures Flattened(a, done + shape.indices, vertices, normals, texcoords)
  {
    vertices, normals, texcoords := v0, n0, t0;
    ghost var cur := done;
    var i := 0;
    while i < |shape.indices|
      invariant i <= |shape.indices|
      invariant cur == done + shape.indices[..i]
      invariant Flattened(a, cur, vertices, normals, texcoords)
    {
      var index := shape.indices[i];
      AppendCorner(a, cur, index);
      vertices := vertices + [a.vertices[3 * index.vertexIndex + 0]];
      vertices := vertices + [a.vertices[3 * index.vertexIndex + 1]];
      vertices := vertices + [a.vertices[3 * index.vertexIndex + 2]];
      if index.normalIndex >= 0 {
        normals := normals + [a.normals[3 * index.normalIndex + 0]];
        normals := normals + [a.normals[3 * index.normalIndex + 1]];
        normals := normals + [a.normals[3 * index.normalIndex + 2]];
      }
      if index.texcoordIndex >= 0 {
        texcoords := texcoords + [a.texcoords[2 * index.texcoordIndex + 0]];
        texcoords := texcoords + [a.texcoords[2 * index.texcoordIndex + 1]];
      }
      cur := cur + [index];
      assert shape.indices[..i + 1] == shape.indices[..i] + [index];
      i := i + 1;
    }
    assert shape.indices[..i] == shape.indices;
  }
}
