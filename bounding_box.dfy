/**
 * An axis-aligned box given by its two extreme corners, and the inline algebra
 * on it: centre, size and the eight corners.
 */
module BoundingBoxes {
  import opened LinearAlgebra

  datatype BoundingBox = BoundingBox(min: Vec3, max: Vec3) {

    /** A box is non-empty when `min <= max` in every component. */
    predicate Valid() {
      LessEq(min, max)
    }

    /** The point `p` lies inside the (closed) box. */
    predicate Contains(p: Vec3) {
      LessEq(min, p) && LessEq(p, max)
    }

    /** `size()`: the extent along each axis. Adding it to `min` gives back `max`; it has no negative component on a valid box. */
    function Size(): (s: Vec3)
      ensures Add(min, s) == max
      ensures Valid() ==> s.x >= 0.0 && s.y >= 0.0 && s.z >= 0.0
    {
      Sub(max, min)
    }

    /** `center()`: the componentwise midpoint of the two extreme corners, which is `min` plus half the size. */
    function Center(): (c: Vec3)
      ensures c == Vec3((min.x + max.x) / 2.0, (min.y + max.y) / 2.0, (min.z + max.z) / 2.0)
      ensures c == Add(min, Scale(Size(), 0.5))
    {
      Scale(Add(min, max), 0.5)
    }

    /**
     * The corner that takes its x, y and z from `max` exactly when `i`, `j`
     * and `k` respectively hold, and from `min` otherwise.
     */
    function Corner(i: bool, j: bool, k: bool): Vec3 {
      Vec3(if i then max.x else min.x, if j then max.y else min.y, if k then max.z else min.z)
    }

    function V000(): (v: Vec3)
      ensures v == Corner(false, false, false)
    {
      min
    }

    function V001(): (v: Vec3)
      ensures v == Corner(false, false, true)
    {
      Vec3(min.x, min.y, max.z)
    }

    function V010(): (v: Vec3)
      ensures v == Corner(false, true, false)
    {
      Vec3(min.x, max.y, min.z)
    }

    function V011(): (v: Vec3)
      ensures v == Corner(false, true, true)
    {
      Vec3(min.x, max.y, max.z)
    }

    function V100(): (v: Vec3)
      ensures v == Corner(true, false, false)
    {
      Vec3(max.x, min.y, min.z)
    }

    function V101(): (v: Vec3)
      ensures v == Corner(true, false, true)
    {
      Vec3(max.x, min.y, max.z)
    }

    function V110(): (v: Vec3)
      ensures v == Corner(true, true, false)
    {
      Vec3(max.x, max.y, min.z)
    }

    function V111(): (v: Vec3)
      ensures v == Corner(true, true, true)
    {
      max
    }

    /**
     * `vertices()`: all eight corners, entry `n` being the corner whose x, y
     * and z choices are the bits 4, 2 and 1 of `n`.
     */
    function Vertices(): (vs: seq<Vec3>)
      ensures |vs| == 8
      ensures forall n :: 0 <= n < 8 ==> vs[n] == Corner(n / 4 == 1, n / 2 % 2 == 1, n % 2 == 1)
    {
      [V000(), V001(), V010(), V011(), V100(), V101(), V110(), V111()]
    }
  }

  /** The componentwise minimum of two points. */
  function Min3(a: Vec3, b: Vec3): Vec3 {
    Vec3(if a.x <= b.x then a.x else b.x, if a.y <= b.y then a.y else b.y, if a.z <= b.z then a.z else b.z)
  }

  /** The componentwise maximum of two points. */
  function Max3(a: Vec3, b: Vec3): Vec3 {
    Vec3(if a.x >= b.x then a.x else b.x, if a.y >= b.y then a.y else b.y, if a.z >= b.z then a.z else b.z)
  }

  /** The componentwise minimum of a non-empty list of points: below all of them, and each component attained by one. */
  function Lowest(ps: seq<Vec3>): (m: Vec3)
    requires |ps| > 0
    ensures forall i :: 0 <= i < |ps| ==> LessEq(m, ps[i])
    ensures exists i :: 0 <= i < |ps| && m.x == ps[i].x
    ensures exists i :: 0 <= i < |ps| && m.y == ps[i].y
    ensures exists i :: 0 <= i < |ps| && m.z == ps[i].z
  {
    if |ps| == 1 then ps[0]
    else
      var rest := Lowest(ps[1..]);
      assert forall i :: 1 <= i < |ps| ==> ps[i] == ps[1..][i - 1];
      Min3(ps[0], rest)
  }

  /** The componentwise maximum of a non-empty list of points: above all of them, and each component attained by one. */
  function Highest(ps: seq<Vec3>): (m: Vec3)
    requires |ps| > 0
    ensures forall i :: 0 <= i < |ps| ==> LessEq(ps[i], m)
    ensures exists i :: 0 <= i < |ps| && m.x == ps[i].x
    ensures exists i :: 0 <= i < |ps| && m.y == ps[i].y
    ensures exists i :: 0 <= i < |ps| && m.z == ps[i].z
  {
    if |ps| == 1 then ps[0]
    else
      var rest := Highest(ps[1..]);
      assert forall i :: 1 <= i < |ps| ==> ps[i] == ps[1..][i - 1];
      Max3(ps[0], rest)
  }

  /** On a valid box every listed vertex lies inside it. */
  lemma VerticesInside(b: BoundingBox)
    requires b.Valid()
    ensures forall n :: 0 <= n < 8 ==> b.Contains(b.Vertices()[n])
  {
  }

  /** On a valid box the vertices span exactly `min` to `max`: their componentwise minimum and maximum are the box's corners. */
  lemma VerticesSpanBox(b: BoundingBox)
    requires b.Valid()
    ensures Lowest(b.Vertices()) == b.min
    ensures Highest(b.Vertices()) == b.max
  {
    var vs := b.Vertices();
    VerticesInside(b);
    assert vs[0] == b.min && vs[7] == b.max;
    var lo, hi := Lowest(vs), Highest(vs);
    assert LessEq(lo, vs[0]) && LessEq(vs[7], hi);
    var ix :| 0 <= ix < 8 && lo.x == vs[ix].x;
    var iy :| 0 <= iy < 8 && lo.y == vs[iy].y;
    var iz :| 0 <= iz < 8 && lo.z == vs[iz].z;
    assert b.Contains(vs[ix]) && b.Contains(vs[iy]) && b.Contains(vs[iz]);
    var jx :| 0 <= jx < 8 && hi.x == vs[jx].x;
    var jy :| 0 <= jy < 8 && hi.y == vs[jy].y;
    var jz :| 0 <= jz < 8 && hi.z == vs[jz].z;
    assert b.Contains(vs[jx]) && b.Contains(vs[jy]) && b.Contains(vs[jz]);
  }
}
