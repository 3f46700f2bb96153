/** Three-dimensional CTA and thread coordinates (`dim3`) and the odometer step
    `increment_x_then_y_then_z` that enumerates them. */
module Coordinates {
  import opened Arith

  /** A `dim3`: three 32-bit unsigned components. */
  datatype Dim3 = Dim3(x: U32, y: U32, z: U32)

  const Origin: Dim3 := Dim3(0, 0, 0)

  /** One odometer step of `i` inside `bound`. The body of
      `increment_x_then_y_then_z` is not part of this model; this is the
      assumed behaviour: x counts up; when it reaches its bound it resets to 0
      and carries into y; y carries into z the same way; z is never reset.
      Every `++` is on a 32-bit unsigned value and wraps. The step keeps x and
      y inside their bounds once they are, and z only ever stays or counts up. */
  function Increment(i: Dim3, bound: Dim3): (r: Dim3)
    ensures i.x < bound.x && i.y < bound.y ==> r.x < bound.x && r.y < bound.y
    ensures r.z == i.z || r.z == Wrap(i.z + 1)
  {
    var x := Wrap(i.x + 1);
    if x < bound.x then Dim3(x, i.y, i.z)
    else
      var y := Wrap(i.y + 1);
      if y < bound.y then Dim3(0, y, i.z)
      else Dim3(0, 0, Wrap(i.z + 1))
  }

  /** The coordinate reached after `n` odometer steps from the origin. */
  function Steps(bound: Dim3, n: nat): Dim3
  {
    if n == 0 then Origin else Increment(Steps(bound, n - 1), bound)
  }

  /** Every component is strictly below its bound. */
  predicate Within(i: Dim3, bound: Dim3)
  {
    i.x < bound.x && i.y < bound.y && i.z < bound.z
  }

  /** Every component of the bound is at least 1. */
  predicate Positive(bound: Dim3)
  {
    bound.x >= 1 && bound.y >= 1 && bound.z >= 1
  }

  /** Number of coordinates inside `bound`, as a mathematical integer. */
  function Volume(bound: Dim3): nat
  {
    Product(Product(bound.x, bound.y), bound.z)
  }

  /** Row-major position of `i` (x fastest, z slowest), unbounded. */
  function Linear(i: Dim3, bound: Dim3): nat
  {
    var yz: nat := i.y + Product(bound.y, i.z);
    i.x + Product(bound.x, yz)
  }

  /** Inside the box, one odometer step moves to the next row-major position,
      and the result keeps x and y in range (z may reach its bound). */
  lemma IncrementIsSuccessor(i: Dim3, bound: Dim3)
    requires Within(i, bound)
    ensures var j := Increment(i, bound);
      j.x < bound.x && j.y < bound.y && j.z <= bound.z &&
      Linear(j, bound) == Linear(i, bound) + 1
  {
    var j := Increment(i, bound);
    var nx, ny := bound.x, bound.y;
    var q := i.y + ny * i.z;
    assert Linear(i, bound) == i.x + nx * q;
    if i.x + 1 < nx {
      assert j == Dim3(i.x + 1, i.y, i.z);
      assert Linear(j, bound) == i.x + 1 + nx * q;
    } else if i.y + 1 < ny {
      assert j == Dim3(0, i.y + 1, i.z);
      MulSucc(nx, q);
      assert Linear(j, bound) == nx * (q + 1);
    } else {
      assert j == Dim3(0, 0, i.z + 1);
      MulSucc(ny, i.z);
      assert ny * (i.z + 1) == q + 1;
      MulSucc(nx, q);
      assert Linear(j, bound) == nx * (q + 1);
    }
  }

  /** With x and y in range, the row-major position lies in
      `[nx*ny*z, nx*ny*(z+1))`, so it is below the volume iff z is in range. */
  lemma LinearBelowVolume(i: Dim3, bound: Dim3)
    requires i.x < bound.x && i.y < bound.y
    ensures Linear(i, bound) < Volume(bound) <==> i.z < bound.z
  {
    var nx, ny, nz := bound.x, bound.y, bound.z;
    var q := i.y + ny * i.z;
    assert ny * (i.z + 1) == ny * i.z + ny;
    MulMonotone(nx, ny * i.z, q);
    MulMonotone(nx, q, ny * (i.z + 1) - 1);
    assert nx * (ny * (i.z + 1) - 1) == nx * (ny * (i.z + 1)) - nx;
    assert Volume(bound) == nx * (ny * nz);
    if i.z < nz {
      MulMonotone(ny, i.z + 1, nz);
      MulMonotone(nx, ny * (i.z + 1), ny * nz);
    } else {
      MulMonotone(ny, nz, i.z);
      MulMonotone(nx, ny * nz, ny * i.z);
    }
  }

  /** Row-major position is injective on coordinates whose x and y are in range. */
  lemma LinearInjective(i: Dim3, j: Dim3, bound: Dim3)
    requires i.x < bound.x && i.y < bound.y
    requires j.x < bound.x && j.y < bound.y
    requires Linear(i, bound) == Linear(j, bound)
    ensures i == j
  {
    DivUnique(bound.x, i.x, i.y + bound.y * i.z, j.x, j.y + bound.y * j.z);
    DivUnique(bound.y, i.y, i.z, j.y, j.z);
  }

  /** The first `Volume(bound)` odometer steps from the origin walk the
      row-major positions 0, 1, 2, ... in order. */
  lemma {:induction false} StepsEnumerate(bound: Dim3, n: nat)
    requires Positive(bound) && n <= Volume(bound)
    ensures Steps(bound, n).x < bound.x && Steps(bound, n).y < bound.y
    ensures Linear(Steps(bound, n), bound) == n
  {
    if n > 0 {
      var s := Steps(bound, n - 1);
      StepsEnumerate(bound, n - 1);
      LinearBelowVolume(s, bound);
      IncrementIsSuccessor(s, bound);
    }
  }

  /** Step `n` (for `n` up to the volume) is inside the box iff `n` is below
      the volume; step `Volume(bound)` is exactly `(0, 0, bound.z)`. */
  lemma StepsWithin(bound: Dim3, n: nat)
    requires Positive(bound) && n <= Volume(bound)
    ensures Within(Steps(bound, n), bound) <==> n < Volume(bound)
    ensures n == Volume(bound) ==> Steps(bound, n) == Dim3(0, 0, bound.z)
  {
    StepsEnumerate(bound, n);
    LinearBelowVolume(Steps(bound, n), bound);
    if n == Volume(bound) {
      var last := Dim3(0, 0, bound.z);
      assert Linear(last, bound) == Volume(bound);
      LinearInjective(Steps(bound, n), last, bound);
    }
  }

  /** The enumeration visits every coordinate of the box, exactly once, and
      nothing else, within its first `Volume(bound)` steps; after them it has
      left the box. */
  lemma EnumerationIsExact(bound: Dim3)
    requires Positive(bound)
    ensures forall n: nat :: n < Volume(bound) ==> Within(Steps(bound, n), bound)
    ensures forall c :: Within(c, bound) ==>
      Linear(c, bound) < Volume(bound) && Steps(bound, Linear(c, bound)) == c
    ensures forall n: nat, m: nat :: n < m <= Volume(bound) ==> Steps(bound, n) != Steps(bound, m)
    ensures !Within(Steps(bound, Volume(bound)), bound)
  {
    forall n: nat | n < Volume(bound)
      ensures Within(Steps(bound, n), bound)
    {
      StepsWithin(bound, n);
    }
    forall c | Within(c, bound)
      ensures Linear(c, bound) < Volume(bound) && Steps(bound, Linear(c, bound)) == c
    {
      LinearBelowVolume(c, bound);
      StepsEnumerate(bound, Linear(c, bound));
      LinearInjective(Steps(bound, Linear(c, bound)), c, bound);
    }
    forall n: nat, m: nat | n < m <= Volume(bound)
      ensures Steps(bound, n) != Steps(bound, m)
    {
      StepsEnumerate(bound, n);
      StepsEnumerate(bound, m);
    }
    StepsWithin(bound, Volume(bound));
  }
}
