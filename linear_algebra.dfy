/**
 * The glm value types the scene graph computes with: `vec3`, `vec4` and the
 * column-major `mat4`. Scalars are mathematical reals; rounding, NaN and
 * infinities are not modelled.
 */
module LinearAlgebra {

  /** A 3D point or direction (glm `vec3`). */
  datatype Vec3 = Vec3(x: real, y: real, z: real)

  /** A homogeneous 4D vector, one column of a `mat4`. */
  datatype Vec4 = Vec4(x: real, y: real, z: real, w: real)

  /** A 4x4 matrix stored as its four columns, as glm stores it. */
  datatype Mat4 = Mat4(c0: Vec4, c1: Vec4, c2: Vec4, c3: Vec4)

  function Add(a: Vec3, b: Vec3): Vec3 {
    Vec3(a.x + b.x, a.y + b.y, a.z + b.z)
  }

  function Sub(a: Vec3, b: Vec3): Vec3 {
    Vec3(a.x - b.x, a.y - b.y, a.z - b.z)
  }

  function Scale(a: Vec3, s: real): Vec3 {
    Vec3(a.x * s, a.y * s, a.z * s)
  }

  /** Componentwise `a <= b`. */
  predicate LessEq(a: Vec3, b: Vec3) {
    a.x <= b.x && a.y <= b.y && a.z <= b.z
  }

  /** The xyz part of a homogeneous vector. */
  function Xyz(v: Vec4): Vec3 {
    Vec3(v.x, v.y, v.z)
  }

  /** Component `r` (0 = x, 1 = y, 2 = z, 3 = w) of a homogeneous vector. */
  function Comp(v: Vec4, r: nat): real
    requires r < 4
  {
    if r == 0 then v.x else if r == 1 then v.y else if r == 2 then v.z else v.w
  }

  /** Column `c` of a matrix. */
  function Col(m: Mat4, c: nat): Vec4
    requires c < 4
  {
    if c == 0 then m.c0 else if c == 1 then m.c1 else if c == 2 then m.c2 else m.c3
  }

  /** The entry in row `r` and column `c`. */
  function Entry(m: Mat4, r: nat, c: nat): real
    requires r < 4 && c < 4
  {
    Comp(Col(m, c), r)
  }

  /** The identity matrix, glm's `mat4(1.0)`: it leaves every vector unchanged. */
  function Identity(): (m: Mat4)
    ensures forall v :: Apply(m, v) == v
  {
    Mat4(Vec4(1.0, 0.0, 0.0, 0.0), Vec4(0.0, 1.0, 0.0, 0.0),
         Vec4(0.0, 0.0, 1.0, 0.0), Vec4(0.0, 0.0, 0.0, 1.0))
  }

  /** Row `r` of a matrix, as a vector. */
  function Row(m: Mat4, r: nat): Vec4
    requires r < 4
  {
    if r == 0 then Vec4(m.c0.x, m.c1.x, m.c2.x, m.c3.x)
    else if r == 1 then Vec4(m.c0.y, m.c1.y, m.c2.y, m.c3.y)
    else if r == 2 then Vec4(m.c0.z, m.c1.z, m.c2.z, m.c3.z)
    else Vec4(m.c0.w, m.c1.w, m.c2.w, m.c3.w)
  }

  /** The dot product of two homogeneous vectors. */
  function Dot(p: Vec4, v: Vec4): real {
    p.x * v.x + p.y * v.y + p.z * v.z + p.w * v.w
  }

  /**
   * Matrix times column vector (glm `mat4 * vec4`): the columns of `m`
   * weighted by the components of `v`, so that component `r` of the result
   * is row `r` of `m` dotted with `v`.
   */
  function Apply(m: Mat4, v: Vec4): (u: Vec4)
    ensures forall r: nat :: r < 4 ==> Comp(u, r) == Dot(Row(m, r), v)
  {
    Vec4(m.c0.x * v.x + m.c1.x * v.y + m.c2.x * v.z + m.c3.x * v.w,
         m.c0.y * v.x + m.c1.y * v.y + m.c2.y * v.z + m.c3.y * v.w,
         m.c0.z * v.x + m.c1.z * v.y + m.c2.z * v.z + m.c3.z * v.w,
         m.c0.w * v.x + m.c1.w * v.y + m.c2.w * v.z + m.c3.w * v.w)
  }

  /**
   * Matrix product `a * b` (glm `mat4 * mat4`): column `j` of the result is
   * `a` applied to column `j` of `b`, so every entry is a row of `a` dotted
   * with a column of `b`.
   */
  function Mul(a: Mat4, b: Mat4): (p: Mat4)
    ensures forall r: nat, c: nat :: r < 4 && c < 4 ==> Entry(p, r, c) == Dot(Row(a, r), Col(b, c))
  {
    Mat4(Apply(a, b.c0), Apply(a, b.c1), Apply(a, b.c2), Apply(a, b.c3))
  }

  /** The identity matrix has ones on the diagonal and zeros elsewhere. */
  lemma IdentityEntry(r: nat, c: nat)
    requires r < 4 && c < 4
    ensures Entry(Identity(), r, c) == if r == c then 1.0 else 0.0
  {
  }

  lemma MulIdentityLeft(m: Mat4)
    ensures Mul(Identity(), m) == m
  {
  }

  lemma MulIdentityRight(m: Mat4)
    ensures Mul(m, Identity()) == m
  {
  }

  function AddV4(u: Vec4, w: Vec4): Vec4 {
    Vec4(u.x + w.x, u.y + w.y, u.z + w.z, u.w + w.w)
  }

  function ScaleV4(u: Vec4, s: real): Vec4 {
    Vec4(u.x * s, u.y * s, u.z * s, u.w * s)
  }

  lemma DotAdd(p: Vec4, u: Vec4, w: Vec4)
    ensures Dot(p, AddV4(u, w)) == Dot(p, u) + Dot(p, w)
  {
  }

  lemma DotScale(p: Vec4, u: Vec4, s: real)
    ensures Dot(p, ScaleV4(u, s)) == Dot(p, u) * s
  {
  }

  /** `Apply(b, v)` is the sum of `b`'s columns weighted by the components of `v`. */
  lemma ApplyAsColumnSum(b: Mat4, v: Vec4)
    ensures Apply(b, v) == AddV4(AddV4(ScaleV4(b.c0, v.x), ScaleV4(b.c1, v.y)), AddV4(ScaleV4(b.c2, v.z), ScaleV4(b.c3, v.w)))
  {
  }

  /** A row dotted with the weighted sum of four columns is the weighted sum of the four dot products. */
  lemma DotOfColumnSum(p: Vec4, b: Mat4, v: Vec4)
    ensures Dot(p, Apply(b, v)) ==
      Dot(p, b.c0) * v.x + Dot(p, b.c1) * v.y + Dot(p, b.c2) * v.z + Dot(p, b.c3) * v.w
  {
    var s0, s1, s2, s3 := ScaleV4(b.c0, v.x), ScaleV4(b.c1, v.y), ScaleV4(b.c2, v.z), ScaleV4(b.c3, v.w);
    ApplyAsColumnSum(b, v);
    DotAdd(p, AddV4(s0, s1), AddV4(s2, s3));
    DotAdd(p, s0, s1);
    DotAdd(p, s2, s3);
    DotScale(p, b.c0, v.x);
    DotScale(p, b.c1, v.y);
    DotScale(p, b.c2, v.z);
    DotScale(p, b.c3, v.w);
  }

  /** Row `r` of a product: row `r` of `a` dotted with each column of `b`. */
  lemma RowOfMul(a: Mat4, b: Mat4, r: nat)
    requires r < 4
    ensures Row(Mul(a, b), r) == Vec4(Dot(Row(a, r), b.c0), Dot(Row(a, r), b.c1), Dot(Row(a, r), b.c2), Dot(Row(a, r), b.c3))
  {
  }

  /** Row `r` of the product matrix acts on `v` as row `r` of `a` acts on `b`'s image of `v`. */
  lemma RowOfMulDot(a: Mat4, b: Mat4, v: Vec4, r: nat)
    requires r < 4
    ensures Dot(Row(Mul(a, b), r), v) == Dot(Row(a, r), Apply(b, v))
  {
    RowOfMul(a, b, r);
    DotOfColumnSum(Row(a, r), b, v);
  }

  /** The product matrix acts on a vector as its right factor followed by its left factor. */
  lemma ApplyMul(a: Mat4, b: Mat4, v: Vec4)
    ensures Apply(Mul(a, b), v) == Apply(a, Apply(b, v))
  {
    var lhs, rhs := Apply(Mul(a, b), v), Apply(a, Apply(b, v));
    forall r: nat | r < 4
      ensures Comp(lhs, r) == Comp(rhs, r)
    {
      RowOfMulDot(a, b, v, r);
    }
    assert Comp(lhs, 0) == Comp(rhs, 0) && Comp(lhs, 1) == Comp(rhs, 1);
    assert Comp(lhs, 2) == Comp(rhs, 2) && Comp(lhs, 3) == Comp(rhs, 3);
  }

  /** Matrix product is associative. */
  lemma MulAssoc(a: Mat4, b: Mat4, c: Mat4)
    ensures Mul(Mul(a, b), c) == Mul(a, Mul(b, c))
  {
    ApplyMul(a, b, c.c0);
    ApplyMul(a, b, c.c1);
    ApplyMul(a, b, c.c2);
    ApplyMul(a, b, c.c3);
  }
}
