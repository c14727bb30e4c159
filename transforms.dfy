/**
 * The nine transform fields shared by main.cpp's `Object` and complex1.cpp's `Node`:
 * position, Euler rotation in degrees and per-axis scale. The C++ fields are `float`;
 * here they are `real`, so rounding is not modelled.
 */
module Transforms {

  datatype Transform = Transform(
    x: real, y: real, z: real,
    rx: real, ry: real, rz: real,
    sx: real, sy: real, sz: real)

  /** The member initialisers of both structs: at the origin, unrotated, unit scale. */
  const Identity := Transform(0.0, 0.0, 0.0, 0.0, 0.0, 0.0, 1.0, 1.0, 1.0)

  datatype Field = X | Y | Z | RX | RY | RZ | SX | SY | SZ

  function Get(t: Transform, f: Field): real {
    match f
    case X => t.x
    case Y => t.y
    case Z => t.z
    case RX => t.rx
    case RY => t.ry
    case RZ => t.rz
    case SX => t.sx
    case SY => t.sy
    case SZ => t.sz
  }

  /** A key's effect on the selected item: add `delta` to every field in `fields`. */
  datatype Edit = Edit(fields: set<Field>, delta: real)

  function Bump(f: Field, e: Edit): real {
    if f in e.fields then e.delta else 0.0
  }

  /** Applies an edit; every field not named by the edit keeps its value. */
  function Apply(t: Transform, e: Edit): (r: Transform)
    ensures forall f :: Get(r, f) == Get(t, f) + Bump(f, e)
  {
    Transform(
      t.x + Bump(X, e), t.y + Bump(Y, e), t.z + Bump(Z, e),
      t.rx + Bump(RX, e), t.ry + Bump(RY, e), t.rz + Bump(RZ, e),
      t.sx + Bump(SX, e), t.sy + Bump(SY, e), t.sz + Bump(SZ, e))
  }

  /** The edit bound to the opposite key of a pair (`w`/`s`, `r`/`f`, ...). */
  function Opposite(e: Edit): Edit {
    Edit(e.fields, -e.delta)
  }

  /** Two transforms that agree on every field are equal. */
  lemma FieldsDetermine(a: Transform, b: Transform)
    requires forall f :: Get(a, f) == Get(b, f)
    ensures a == b
  {
    assert Get(a, X) == Get(b, X) && Get(a, Y) == Get(b, Y) && Get(a, Z) == Get(b, Z);
    assert Get(a, RX) == Get(b, RX) && Get(a, RY) == Get(b, RY) && Get(a, RZ) == Get(b, RZ);
    assert Get(a, SX) == Get(b, SX) && Get(a, SY) == Get(b, SY) && Get(a, SZ) == Get(b, SZ);
  }

  /** Pressing a key and then its opposite restores the transform exactly (in exact arithmetic). */
  lemma ApplyOpposite(t: Transform, e: Edit)
    ensures Apply(Apply(t, e), Opposite(e)) == t
  {
    var r := Apply(Apply(t, e), Opposite(e));
    forall f ensures Get(r, f) == Get(t, f) {
      assert Bump(f, Opposite(e)) == -Bump(f, e);
    }
    FieldsDetermine(r, t);
  }
}
