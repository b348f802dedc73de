/**
 * A node's local pose: one 4x4 affine matrix. The named vectors `left`, `up`,
 * `fwd` and `pos` are not separate state but views of the matrix's columns
 * 0 to 3 (the source overlays them on the matrix with an anonymous union).
 */
module Transforms {
  import opened LinearAlgebra

  /**
   * A Transform value. `Transform(m)` is the converting constructor, which
   * stores `m` unchanged, and the field `mat` is the `mat()` getter.
   */
  datatype Transform = Transform(mat: Mat4) {

    /** The left basis vector: the xyz part of column 0. */
    function Left(): (v: Vec3)
      ensures v == Vec3(Entry(mat, 0, 0), Entry(mat, 1, 0), Entry(mat, 2, 0))
    {
      Xyz(mat.c0)
    }

    /** The up basis vector: the xyz part of column 1. */
    function Up(): (v: Vec3)
      ensures v == Vec3(Entry(mat, 0, 1), Entry(mat, 1, 1), Entry(mat, 2, 1))
    {
      Xyz(mat.c1)
    }

    /** The forward basis vector: the xyz part of column 2. */
    function Fwd(): (v: Vec3)
      ensures v == Vec3(Entry(mat, 0, 2), Entry(mat, 1, 2), Entry(mat, 2, 2))
    {
      Xyz(mat.c2)
    }

    /** The position: the xyz part of column 3, the translation column. */
    function Pos(): (v: Vec3)
      ensures v == Vec3(Entry(mat, 0, 3), Entry(mat, 1, 3), Entry(mat, 2, 3))
    {
      Xyz(mat.c3)
    }

    /** `data()`: the sixteen entries in memory order, column after column. */
    function Data(): (d: seq<real>)
      ensures |d| == 16
      ensures forall k :: 0 <= k < 16 ==> d[k] == Entry(mat, k % 4, k / 4)
    {
      [mat.c0.x, mat.c0.y, mat.c0.z, mat.c0.w,
       mat.c1.x, mat.c1.y, mat.c1.z, mat.c1.w,
       mat.c2.x, mat.c2.y, mat.c2.z, mat.c2.w,
       mat.c3.x, mat.c3.y, mat.c3.z, mat.c3.w]
    }

    /**
     * The Transform after `pos() = p`: the reference `pos()` hands out covers
     * rows 0 to 2 of column 3 and nothing else.
     */
    function WithPos(p: Vec3): (t: Transform)
      ensures t.Pos() == p
      ensures forall r: nat, c: nat :: r < 4 && c < 4 && !(c == 3 && r < 3) ==>
        Entry(t.mat, r, c) == Entry(mat, r, c)
    {
      Transform(mat.(c3 := Vec4(p.x, p.y, p.z, mat.c3.w)))
    }
  }

  /** The default-constructed Transform: the identity matrix, at the origin, with the unit axes as basis. */
  function Default(): (t: Transform)
    ensures t.mat == Identity()
    ensures t.Left() == Vec3(1.0, 0.0, 0.0) && t.Up() == Vec3(0.0, 1.0, 0.0) && t.Fwd() == Vec3(0.0, 0.0, 1.0)
    ensures t.Pos() == Vec3(0.0, 0.0, 0.0)
  {
    Transform(Identity())
  }

  /**
   * `a * b` for two Transforms: the product of the matrices, `a`'s on the
   * left. The origin of `b`'s frame lands where `a` maps `b`'s position.
   */
  function Compose(a: Transform, b: Transform): (t: Transform)
    ensures t.Pos() == Xyz(Apply(a.mat, b.mat.c3))
  {
    Transform(Mul(a.mat, b.mat))
  }

  /**
   * Composition reads "a, then b" in parent-child order: a point given in
   * `b`'s frame is mapped by `a * b` exactly as by `b` and then by `a`.
   */
  lemma ComposeActsInOrder(a: Transform, b: Transform, v: Vec4)
    ensures Apply(Compose(a, b).mat, v) == Apply(a.mat, Apply(b.mat, v))
  {
    ApplyMul(a.mat, b.mat, v);
  }

  /** `t * m` for a Transform and a raw matrix: the same as composing with `Transform(m)`. */
  function TimesMat(t: Transform, m: Mat4): (r: Transform)
    ensures r == Compose(t, Transform(m))
  {
    Transform(Mul(t.mat, m))
  }

  /** `m * t` for a raw matrix and a Transform: the same as composing `Transform(m)` with `t`. */
  function MatTimes(m: Mat4, t: Transform): (r: Transform)
    ensures r == Compose(Transform(m), t)
  {
    Transform(Mul(m, t.mat))
  }

  /** The struct view and the matrix are the same storage: the four views and the w row rebuild the matrix. */
  lemma ViewsCoverMatrix(t: Transform)
    ensures var l, u, f, p := t.Left(), t.Up(), t.Fwd(), t.Pos();
      Transform(Mat4(Vec4(l.x, l.y, l.z, Entry(t.mat, 3, 0)), Vec4(u.x, u.y, u.z, Entry(t.mat, 3, 1)),
                     Vec4(f.x, f.y, f.z, Entry(t.mat, 3, 2)), Vec4(p.x, p.y, p.z, Entry(t.mat, 3, 3)))) == t
  {
  }

  /** Setting the position: reading it back, setting it twice, and setting it to itself. */
  lemma WithPosLaws(t: Transform, p: Vec3, q: Vec3)
    ensures t.WithPos(p).Left() == t.Left() && t.WithPos(p).Up() == t.Up() && t.WithPos(p).Fwd() == t.Fwd()
    ensures t.WithPos(p).WithPos(q) == t.WithPos(q)
    ensures t.WithPos(t.Pos()) == t
  {
  }

  /** The default Transform is a two-sided unit for composition. */
  lemma ComposeDefault(t: Transform)
    ensures Compose(Default(), t) == t
    ensures Compose(t, Default()) == t
  {
  }

  /** Composition is associative, so a chain of Transforms may be grouped either way. */
  lemma ComposeAssoc(a: Transform, b: Transform, c: Transform)
    ensures Compose(Compose(a, b), c) == Compose(a, Compose(b, c))
  {
    MulAssoc(a.mat, b.mat, c.mat);
  }
}
