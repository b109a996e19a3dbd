/**
 * The random and grid layouts of the fluorophore generator. The uniform draws
 * the Java code takes from the shared random generator are passed in as a
 * sequence of values in [0, 1), consumed in call order.
 */
module Layouts {
  import opened Emitters

  // ---------------------------------------------------------------- random

  predicate AreUniformDraws(draws: seq<real>) {
    forall k :: 0 <= k < |draws| ==> 0.0 <= draws[k] < 1.0
  }

  /** How many emitters a loop `for (i = 0; i < count; i++)` makes. */
  function LoopCount(count: int): nat {
    if count > 0 then count else 0
  }

  /** A coordinate drawn uniformly over a camera axis of `res` pixels. */
  function Scale(res: int, u: real): real {
    res as real * u
  }

  lemma ScaleInFrame(res: int, u: real)
    requires res > 0 && 0.0 <= u < 1.0
    ensures 0.0 <= Scale(res, u) < res as real
  {
    BelowFactor(res as real, u);
  }

  lemma BelowFactor(c: real, u: real)
    requires c > 0.0 && 0.0 <= u < 1.0
    ensures 0.0 <= c * u < c
  {
    assert c - c * u == c * (1.0 - u);
  }

  /** A depth drawn uniformly over `width` from zLow. */
  function Depth(zLow: real, width: real, u: real): real {
    width * u + zLow
  }

  lemma DepthInRange(zLow: real, width: real, u: real)
    requires 0.0 <= u < 1.0 && 0.0 < width
    ensures zLow <= Depth(zLow, width, u) < zLow + width
  {
    BelowFactor(width, u);
  }

  lemma DepthFlat(zLow: real, u: real)
    ensures Depth(zLow, 0.0, u) == zLow
  {
  }

  /** The emitters are in the camera frame when every x and y is a scaled uniform draw. */
  predicate InFrame(r: seq<Fluorophore>, resX: int, resY: int) {
    forall k :: 0 <= k < |r| ==> 0.0 <= r[k].x < resX as real && 0.0 <= r[k].y < resY as real
  }

  /** Emitter k takes draws 2k (x) and 2k + 1 (y); it lies in the camera frame and at z = 0. */
  method Random2D(numFluors: int, resX: int, resY: int, draws: seq<real>) returns (r: seq<Fluorophore>)
    requires AreUniformDraws(draws)
    requires |draws| >= 2 * numFluors
    ensures |r| == LoopCount(numFluors)
    ensures forall k :: 0 <= k < |r| ==>
      r[k] == Fluorophore(Scale(resX, draws[2 * k]), Scale(resY, draws[2 * k + 1]), 0.0)
    ensures resX > 0 && resY > 0 ==> InFrame(r, resX, resY)
  {
    r := [];
    var i := 0;
    while i < numFluors
      invariant 0 <= i == |r| <= LoopCount(numFluors)
      invariant forall k :: 0 <= k < i ==>
        r[k] == Fluorophore(Scale(resX, draws[2 * k]), Scale(resY, draws[2 * k + 1]), 0.0)
    {
      var x := Scale(resX, draws[2 * i]);
      var y := Scale(resY, draws[2 * i + 1]);
      r := r + [Fluorophore(x, y, 0.0)];
      i := i + 1;
    }
    if resX > 0 && resY > 0 {
      forall k | 0 <= k < |r|
        ensures 0.0 <= r[k].x < resX as real && 0.0 <= r[k].y < resY as real
      {
        ScaleInFrame(resX, draws[2 * k]);
        ScaleInFrame(resY, draws[2 * k + 1]);
      }
    }
  }

  /** Emitter k takes draws 3k (x), 3k + 1 (y) and 3k + 2 (z); z lies between zLow and zHigh. */
  method Random3D(numFluors: int, zLow: real, zHigh: real, resX: int, resY: int, draws: seq<real>)
    returns (r: seq<Fluorophore>)
    requires AreUniformDraws(draws)
    requires |draws| >= 3 * numFluors
    ensures |r| == LoopCount(numFluors)
    ensures forall k :: 0 <= k < |r| ==>
      r[k] == Fluorophore(Scale(resX, draws[3 * k]), Scale(resY, draws[3 * k + 1]),
                          Depth(zLow, zHigh - zLow, draws[3 * k + 2]))
    ensures resX > 0 && resY > 0 ==> InFrame(r, resX, resY)
    ensures zLow < zHigh ==> forall k :: 0 <= k < |r| ==> zLow <= r[k].z < zHigh
    ensures zLow == zHigh ==> forall k :: 0 <= k < |r| ==> r[k].z == zLow
  {
    r := [];
    var i := 0;
    while i < numFluors
      invariant 0 <= i == |r| <= LoopCount(numFluors)
      invariant forall k :: 0 <= k < i ==>
        r[k] == Fluorophore(Scale(resX, draws[3 * k]), Scale(resY, draws[3 * k + 1]),
                            Depth(zLow, zHigh - zLow, draws[3 * k + 2]))
    {
      var x := Scale(resX, draws[3 * i]);
      var y := Scale(resY, draws[3 * i + 1]);
      var z := Depth(zLow, zHigh - zLow, draws[3 * i + 2]);
      r := r + [Fluorophore(x, y, z)];
      i := i + 1;
    }
    forall k | 0 <= k < |r|
      ensures resX > 0 && resY > 0 ==> 0.0 <= r[k].x < resX as real && 0.0 <= r[k].y < resY as real
      ensures zLow < zHigh ==> zLow <= r[k].z < zHigh
      ensures zLow == zHigh ==> r[k].z == zLow
    {
      if resX > 0 && resY > 0 {
        ScaleInFrame(resX, draws[3 * k]);
        ScaleInFrame(resY, draws[3 * k + 1]);
      }
      if zLow < zHigh {
        DepthInRange(zLow, zHigh - zLow, draws[3 * k + 2]);
      } else if zLow == zHigh {
        assert zHigh - zLow == 0.0;
        DepthFlat(zLow, draws[3 * k + 2]);
      }
    }
  }

  // ---------------------------------------------------------------- grid

  /** The number of grid lines spacing, 2 * spacing, ... that lie strictly below `limit`. */
  function GridSteps(limit: int, spacing: int): (n: nat)
    requires spacing > 0
    ensures n == 0 || n * spacing < limit
    ensures limit <= (n + 1) * spacing
  {
    if limit <= 1 then 0
    else
      var q, m := (limit - 1) / spacing, (limit - 1) % spacing;
      assert limit - 1 == q * spacing + m && m < spacing;
      assert (q + 1) * spacing == q * spacing + spacing;
      q
  }

  lemma MulMonotone(a: nat, b: nat, c: nat)
    requires a <= b
    ensures a * c <= b * c
  {
  }

  lemma MulStrict(a: nat, b: nat, c: nat)
    requires a < b && c > 0
    ensures a * c < b * c
  {
    MulMonotone(a + 1, b, c);
  }

  lemma NextMultiple(n: int, s: int)
    ensures n * s + s == (n + 1) * s
  {
  }

  /** A multiple m * spacing (m >= 1) lies below `limit` exactly when m is at most GridSteps(limit, spacing). */
  lemma GridStepsCount(limit: int, spacing: int, m: nat)
    requires spacing > 0 && m >= 1
    ensures m * spacing < limit <==> m <= GridSteps(limit, spacing)
  {
    var n := GridSteps(limit, spacing);
    if m <= n {
      MulMonotone(m, n, spacing);
    } else {
      MulMonotone(n + 1, m, spacing);
    }
  }

  /** The emitters of one grid column at x, rows spacing, 2 * spacing, ..., ny * spacing. */
  function Column(spacing: int, x: int, ny: nat): (c: seq<Fluorophore>)
    ensures |c| == ny
  {
    if ny == 0 then [] else Column(spacing, x, ny - 1) + [Fluorophore(x as real, (ny * spacing) as real, 0.0)]
  }

  /** The first nx columns of a grid, the column at x = n * spacing being the n-th. */
  function GridColumns(spacing: int, nx: nat, ny: nat): seq<Fluorophore>
  {
    if nx == 0 then [] else GridColumns(spacing, nx - 1, ny) + Column(spacing, nx * spacing, ny)
  }

  lemma {:induction false} ColumnAt(spacing: int, x: int, ny: nat)
    ensures |Column(spacing, x, ny)| == ny
    ensures forall b :: 0 <= b < ny ==>
      Column(spacing, x, ny)[b] == Fluorophore(x as real, ((b + 1) * spacing) as real, 0.0)
  {
    if ny > 0 {
      ColumnAt(spacing, x, ny - 1);
    }
  }

  /** Emitter k of a grid whose columns hold `ny` emitters: column k / ny, row k % ny. */
  function GridPoint(spacing: int, ny: nat, k: nat): Fluorophore
    requires ny > 0
  {
    Fluorophore(((k / ny + 1) * spacing) as real, ((k % ny + 1) * spacing) as real, 0.0)
  }

  lemma AtLeastFactor(d: int, n: int)
    requires d >= 1 && n > 0
    ensures d * n >= n
  {
  }

  /** A multiple of n strictly between -n and n is zero. */
  lemma SmallMultiple(d: int, n: int)
    requires n > 0 && -n < d * n < n
    ensures d == 0
  {
    if d > 0 {
      AtLeastFactor(d, n);
    } else if d < 0 {
      AtLeastFactor(-d, n);
    }
  }

  lemma DivModOf(a: nat, b: nat, n: nat)
    requires 0 <= b < n
    ensures (a * n + b) / n == a && (a * n + b) % n == b
  {
    var k := a * n + b;
    var q, r := k / n, k % n;
    assert (q - a) * n == b - r;
    SmallMultiple(q - a, n);
  }

  lemma {:induction false} GridColumnsLength(spacing: int, nx: nat, ny: nat)
    ensures |GridColumns(spacing, nx, ny)| == nx * ny
  {
    if nx > 0 {
      GridColumnsLength(spacing, nx - 1, ny);
      assert (nx - 1) * ny + ny == nx * ny;
    }
  }

  /** Column-major order: emitter k is in column k / ny and row k % ny. */
  lemma {:induction false} GridColumnsPoint(spacing: int, nx: nat, ny: nat, k: nat)
    requires k < nx * ny
    ensures ny > 0 && k < |GridColumns(spacing, nx, ny)|
    ensures GridColumns(spacing, nx, ny)[k] == GridPoint(spacing, ny, k)
  {
    PositiveFactors(nx, ny);
    var m := (nx - 1) * ny;
    assert m + ny == nx * ny;
    GridColumnsLength(spacing, nx, ny);
    GridColumnsLength(spacing, nx - 1, ny);
    var before, last := GridColumns(spacing, nx - 1, ny), Column(spacing, nx * spacing, ny);
    assert GridColumns(spacing, nx, ny) == before + last;
    if k < m {
      GridColumnsPoint(spacing, nx - 1, ny, k);
      assert GridColumns(spacing, nx, ny)[k] == before[k];
    } else {
      LastColumnPoint(spacing, nx, ny, k - m);
      assert GridColumns(spacing, nx, ny)[k] == last[k - m];
    }
  }

  lemma PositiveFactors(a: nat, b: nat)
    requires a * b > 0
    ensures a > 0 && b > 0
  {
    assert a == 0 || b == 0 ==> a * b == 0;
  }

  /** Row b of the last of nx columns is emitter (nx - 1) * ny + b of the grid. */
  lemma LastColumnPoint(spacing: int, nx: nat, ny: nat, b: nat)
    requires nx > 0 && b < ny
    ensures Column(spacing, nx * spacing, ny)[b] == GridPoint(spacing, ny, (nx - 1) * ny + b)
  {
    ColumnAt(spacing, nx * spacing, ny);
    var k := (nx - 1) * ny + b;
    DivModOf(nx - 1, b, ny);
    assert k / ny + 1 == nx && k % ny == b;
  }

  /** One column of the 2D grid: the inner loop `for (j = spacing; j < resY; j += spacing)` at x. */
  method GridColumn2D(spacing: int, x: int, resY: int) returns (c: seq<Fluorophore>)
    requires spacing > 0
    ensures c == Column(spacing, x, GridSteps(resY, spacing))
  {
    ghost var ny := GridSteps(resY, spacing);
    c := [];
    var j := spacing;
    ghost var b: nat := 0;
    while j < resY
      invariant j == (b + 1) * spacing && b <= ny
      invariant c == Column(spacing, x, b)
    {
      GridStepsCount(resY, spacing, b + 1);
      c := c + [Fluorophore(x as real, j as real, 0.0)];
      NextMultiple(b + 1, spacing);
      j := j + spacing;
      b := b + 1;
    }
    GridStepsCount(resY, spacing, b + 1);
  }

  /** x (columns) in the outer loop, y (rows) in the inner loop, both from `spacing` in steps of `spacing`. */
  method Grid2D(spacing: int, resX: int, resY: int) returns (r: seq<Fluorophore>)
    requires spacing > 0
    ensures r == GridColumns(spacing, GridSteps(resX, spacing), GridSteps(resY, spacing))
  {
    ghost var nx, ny := GridSteps(resX, spacing), GridSteps(resY, spacing);
    r := [];
    var i := spacing;
    ghost var a: nat := 0;
    while i < resX
      invariant i == (a + 1) * spacing && a <= nx
      invariant r == GridColumns(spacing, a, ny)
    {
      GridStepsCount(resX, spacing, a + 1);
      var column := GridColumn2D(spacing, i, resY);
      assert GridColumns(spacing, a + 1, ny) == GridColumns(spacing, a, ny) + Column(spacing, i, ny);
      r := r + column;
      NextMultiple(a + 1, spacing);
      i := i + spacing;
      a := a + 1;
    }
    GridStepsCount(resX, spacing, a + 1);
  }

  /** Grid emitters are ordered column by column, rows increasing within a column. */
  lemma GridPointsOrdered(spacing: int, ny: nat, k1: nat, k2: nat)
    requires spacing > 0 && ny > 0 && k1 < k2
    ensures var p, q := GridPoint(spacing, ny, k1), GridPoint(spacing, ny, k2);
      p.x < q.x || (p.x == q.x && p.y < q.y)
  {
    var a1, b1, a2, b2 := k1 / ny, k1 % ny, k2 / ny, k2 % ny;
    assert (a2 - a1) * ny == (k2 - k1) + (b1 - b2);
    if a1 < a2 {
      MulStrict(a1 + 1, a2 + 1, spacing);
    } else {
      if a1 > a2 {
        AtLeastFactor(a1 - a2, ny);
      }
      MulStrict(b1 + 1, b2 + 1, spacing);
    }
  }

  /** Every grid emitter sits on a multiple of `spacing` in both axes, inside the camera frame. */
  lemma GridPointInFrame(spacing: int, resX: int, resY: int, k: nat)
    requires spacing > 0
    requires k < GridSteps(resX, spacing) * GridSteps(resY, spacing)
    ensures GridSteps(resY, spacing) > 0
    ensures var p := GridPoint(spacing, GridSteps(resY, spacing), k);
      spacing as real <= p.x < resX as real && spacing as real <= p.y < resY as real
  {
    var nx, ny := GridSteps(resX, spacing), GridSteps(resY, spacing);
    var a, b := k / ny, k % ny;
    assert k == a * ny + b;
    if a >= nx {
      MulMonotone(nx, a, ny);
    }
    GridStepsCount(resX, spacing, a + 1);
    GridStepsCount(resY, spacing, b + 1);
    MulMonotone(1, a + 1, spacing);
    MulMonotone(1, b + 1, spacing);
  }

  /** A 100 x 100 camera with spacing 10 holds 81 emitters, from (10, 10) to (90, 90). */
  lemma GridExample()
    ensures GridSteps(100, 10) == 9
    ensures |GridColumns(10, 9, 9)| == 81
    ensures GridColumns(10, 9, 9)[0] == Fluorophore(10.0, 10.0, 0.0)
    ensures GridColumns(10, 9, 9)[80] == Fluorophore(90.0, 90.0, 0.0)
  {
    GridColumnsLength(10, 9, 9);
    GridColumnsPoint(10, 9, 9, 0);
    GridColumnsPoint(10, 9, 9, 80);
  }

  /** The camera area less a band of width `spacing`, the numerator of the formula count. */
  function Area(spacing: int, resX: int, resY: int): real {
    (resX as real - spacing as real) * (resY as real - spacing as real)
  }

  /** The count the 3D grid assumes: (resX - spacing)(resY - spacing) / spacing^2, in floating point. */
  function FormulaCount(spacing: int, resX: int, resY: int): real
    requires spacing > 0
  {
    Area(spacing, resX, resY) / spacing as real / spacing as real
  }

  function ZSpacing(spacing: int, zLow: real, zHigh: real, resX: int, resY: int): real
    requires spacing > 0 && FormulaCount(spacing, resX, resY) != 1.0
  {
    (zHigh - zLow) / (FormulaCount(spacing, resX, resY) - 1.0)
  }

  /** z0 after n steps of `z += dz`. */
  function Advance(z0: real, dz: real, n: nat): real
  {
    if n == 0 then z0 else Advance(z0, dz, n - 1) + dz
  }

  lemma {:induction false} AdvanceClosedForm(z0: real, dz: real, n: nat)
    ensures Advance(z0, dz, n) == z0 + n as real * dz
  {
    if n > 0 {
      AdvanceClosedForm(z0, dz, n - 1);
      assert (n - 1) as real * dz + dz == n as real * dz;
    }
  }

  lemma {:induction false} AdvanceAdd(z0: real, dz: real, m: nat, n: nat)
    ensures Advance(Advance(z0, dz, m), dz, n) == Advance(z0, dz, m + n)
  {
    if n > 0 {
      AdvanceAdd(z0, dz, m, n - 1);
    }
  }

  /** The emitters `ps` with z taking the values z0, z0 + dz, z0 + dz + dz, ... in order. */
  function Stacked(ps: seq<Fluorophore>, z0: real, dz: real): (r: seq<Fluorophore>)
    ensures |r| == |ps|
  {
    if |ps| == 0 then [] else [ps[0].(z := z0)] + Stacked(ps[1..], z0 + dz, dz)
  }

  /** Emitter k of a stack keeps its x and y and has z0 advanced k times. */
  lemma {:induction false} StackedAt(ps: seq<Fluorophore>, z0: real, dz: real, k: nat)
    requires k < |ps|
    ensures Stacked(ps, z0, dz)[k] == ps[k].(z := Advance(z0, dz, k))
  {
    if k > 0 {
      StackedAt(ps[1..], z0 + dz, dz, k - 1);
      assert Advance(z0, dz, 1) == z0 + dz;
      AdvanceAdd(z0, dz, 1, k - 1);
    }
  }

  /** Stacking a concatenation continues the second part where the first one stops. */
  lemma {:induction false} StackedConcat(ps: seq<Fluorophore>, qs: seq<Fluorophore>, z0: real, dz: real)
    ensures Stacked(ps + qs, z0, dz) == Stacked(ps, z0, dz) + Stacked(qs, Advance(z0, dz, |ps|), dz)
  {
    if |ps| > 0 {
      assert (ps + qs)[1..] == ps[1..] + qs;
      StackedConcat(ps[1..], qs, z0 + dz, dz);
      assert Advance(z0, dz, 1) == z0 + dz;
      AdvanceAdd(z0, dz, 1, |ps| - 1);
      var head := [ps[0].(z := z0)];
      assert Stacked(ps + qs, z0, dz) == head + Stacked(ps[1..] + qs, z0 + dz, dz);
      assert Stacked(ps, z0, dz) == head + Stacked(ps[1..], z0 + dz, dz);
    } else {
      assert ps + qs == qs;
    }
  }

  /** The inner loop of the 3D grid: one column at x, with z stepping by dz from z0. */
  method GridColumn3D(spacing: int, x: int, resY: int, z0: real, dz: real) returns (c: seq<Fluorophore>, z: real)
    requires spacing > 0
    ensures c == Stacked(Column(spacing, x, GridSteps(resY, spacing)), z0, dz)
    ensures z == Advance(z0, dz, |c|)
  {
    ghost var ny := GridSteps(resY, spacing);
    c := [];
    z := z0;
    var j := spacing;
    ghost var b: nat := 0;
    while j < resY
      invariant j == (b + 1) * spacing && b <= ny
      invariant c == Stacked(Column(spacing, x, b), z0, dz)
      invariant z == Advance(z0, dz, b)
    {
      GridStepsCount(resY, spacing, b + 1);
      StackedConcat(Column(spacing, x, b), [Fluorophore(x as real, j as real, 0.0)], z0, dz);
      c := c + [Fluorophore(x as real, j as real, z)];
      z := z + dz;
      NextMultiple(b + 1, spacing);
      j := j + spacing;
      b := b + 1;
    }
    GridStepsCount(resY, spacing, b + 1);
  }

  /** The nested loops of the 3D grid, z starting at zLow and growing by dz after each emitter. */
  method StackedGrid(spacing: int, zLow: real, dz: real, resX: int, resY: int) returns (r: seq<Fluorophore>)
    requires spacing > 0
    ensures r == Stacked(GridColumns(spacing, GridSteps(resX, spacing), GridSteps(resY, spacing)), zLow, dz)
  {
    ghost var nx, ny := GridSteps(resX, spacing), GridSteps(resY, spacing);
    var z := zLow;
    r := [];
    var i := spacing;
    ghost var a: nat := 0;
    while i < resX
      invariant i == (a + 1) * spacing && a <= nx
      invariant r == Stacked(GridColumns(spacing, a, ny), zLow, dz)
      invariant z == Advance(zLow, dz, |GridColumns(spacing, a, ny)|)
    {
      GridStepsCount(resX, spacing, a + 1);
      ghost var flat := GridColumns(spacing, a, ny);
      assert GridColumns(spacing, a + 1, ny) == flat + Column(spacing, i, ny);
      var column;
      column, z := GridColumn3D(spacing, i, resY, z, dz);
      assert |column| == ny;
      StackedConcat(flat, Column(spacing, i, ny), zLow, dz);
      AdvanceAdd(zLow, dz, |flat|, ny);
      r := r + column;
      NextMultiple(a + 1, spacing);
      i := i + spacing;
      a := a + 1;
    }
    GridStepsCount(resX, spacing, a + 1);
  }

  /**
   * The depth step the 3D grid uses. When the area formula is exactly 1 Java's
   * step is infinite or NaN; the camera then holds at most one grid point (the
   * precondition of Grid3D), whose depth is zLow whatever the step, so the
   * model takes 0 there.
   */
  function Grid3DStep(spacing: int, zLow: real, zHigh: real, resX: int, resY: int): real
    requires spacing > 0
  {
    if FormulaCount(spacing, resX, resY) == 1.0 then 0.0 else ZSpacing(spacing, zLow, zHigh, resX, resY)
  }

  /**
   * The (x, y) positions of the 2D grid, with z stepping from zLow by ZSpacing
   * for each emitter in creation order.
   */
  method Grid3D(spacing: int, zLow: real, zHigh: real, resX: int, resY: int) returns (r: seq<Fluorophore>)
    requires spacing > 0
    requires FormulaCount(spacing, resX, resY) != 1.0 || GridSteps(resX, spacing) * GridSteps(resY, spacing) <= 1
    ensures r == Stacked(GridColumns(spacing, GridSteps(resX, spacing), GridSteps(resY, spacing)),
                         zLow, Grid3DStep(spacing, zLow, zHigh, resX, resY))
    ensures FormulaCount(spacing, resX, resY) == 1.0 ==> |r| <= 1
  {
    var numFluors := ((resX as real - spacing as real) * (resY as real - spacing as real)) / spacing as real / spacing as real;
    var zSpacing := if numFluors == 1.0 then 0.0 else (zHigh - zLow) / (numFluors - 1.0);
    r := StackedGrid(spacing, zLow, zSpacing, resX, resY);
    GridColumnsLength(spacing, GridSteps(resX, spacing), GridSteps(resY, spacing));
  }

  /** On at most one emitter the depth step is never used. */
  lemma StackedIgnoresStep(ps: seq<Fluorophore>, z0: real, dz1: real, dz2: real)
    requires |ps| <= 1
    ensures Stacked(ps, z0, dz1) == Stacked(ps, z0, dz2)
    ensures |ps| == 1 ==> Stacked(ps, z0, dz1) == [ps[0].(z := z0)]
  {
    if |ps| == 1 {
      assert ps[1..] == [];
    }
  }

  /**
   * A 20 x 20 camera with spacing 10 makes the area formula exactly 1; the grid
   * still holds its single emitter (10, 10) at depth zLow.
   */
  lemma Grid3DSinglePointExample(zLow: real, zHigh: real, dz: real)
    ensures FormulaCount(10, 20, 20) == 1.0
    ensures GridSteps(20, 10) == 1
    ensures Stacked(GridColumns(10, 1, 1), zLow, dz) == [Fluorophore(10.0, 10.0, zLow)]
  {
    assert FormulaCount(10, 20, 20) == 1.0;
    GridColumnsLength(10, 1, 1);
    GridColumnsPoint(10, 1, 1, 0);
    StackedIgnoresStep(GridColumns(10, 1, 1), zLow, dz, 0.0);
  }

  /**
   * With the area formula exactly 1 and two grid points Java's second emitter
   * gets an infinite or NaN depth: a 30 x 15 camera with spacing 10.
   */
  lemma FormulaOneWithTwoPointsExample()
    ensures FormulaCount(10, 30, 15) == 1.0
    ensures GridSteps(30, 10) * GridSteps(15, 10) == 2
  {
    assert FormulaCount(10, 30, 15) == 1.0;
  }

  /** Emitter k of the 3D grid sits at grid point k, at depth zLow + k dz. */
  lemma Grid3DPoint(spacing: int, zLow: real, dz: real, nx: nat, ny: nat, k: nat)
    requires k < nx * ny
    ensures ny > 0 && k < |Stacked(GridColumns(spacing, nx, ny), zLow, dz)|
    ensures var p := GridPoint(spacing, ny, k);
      Stacked(GridColumns(spacing, nx, ny), zLow, dz)[k] == Fluorophore(p.x, p.y, zLow + k as real * dz)
  {
    GridColumnsPoint(spacing, nx, ny, k);
    StackedAt(GridColumns(spacing, nx, ny), zLow, dz, k);
    AdvanceClosedForm(zLow, dz, k);
  }

  /**
   * When both resolutions are multiples of the spacing the assumed count is the
   * real one, so the last emitter of the 3D grid sits exactly at zHigh.
   */
  lemma Grid3DReachesZHigh(spacing: int, zLow: real, zHigh: real, resX: int, resY: int)
    requires spacing > 0 && resX > spacing && resY > spacing
    requires resX % spacing == 0 && resY % spacing == 0
    requires GridSteps(resX, spacing) * GridSteps(resY, spacing) >= 2
    ensures FormulaCount(spacing, resX, resY) == (GridSteps(resX, spacing) * GridSteps(resY, spacing)) as real
    ensures FormulaCount(spacing, resX, resY) != 1.0
    ensures zLow + (GridSteps(resX, spacing) * GridSteps(resY, spacing) - 1) as real *
      ZSpacing(spacing, zLow, zHigh, resX, resY) == zHigh
  {
    var nx, ny := GridSteps(resX, spacing), GridSteps(resY, spacing);
    StepsOfMultiple(resX, spacing);
    StepsOfMultiple(resY, spacing);
    CastProduct(nx, spacing);
    CastProduct(ny, spacing);
    CastProduct(nx, ny);
    FormulaCountIs(spacing, resX, resY, nx as real, ny as real);
    var count := nx * ny;
    var fc := FormulaCount(spacing, resX, resY);
    assert fc == count as real;
    SpreadEnds(zLow, zHigh, (count - 1) as real);
  }

  lemma CastProduct(a: int, b: int)
    ensures (a * b) as real == a as real * b as real
  {
  }

  lemma FormulaCountIs(spacing: int, resX: int, resY: int, a: real, b: real)
    requires spacing > 0
    requires resX as real - spacing as real == a * spacing as real
    requires resY as real - spacing as real == b * spacing as real
    ensures FormulaCount(spacing, resX, resY) == a * b
  {
    var s := spacing as real;
    var p := Area(spacing, resX, resY);
    assert FormulaCount(spacing, resX, resY) == p / s / s;
    assert p == (a * s) * (b * s);
    ProductOverSquare(a, b, s);
  }

  lemma ProductOverSquare(a: real, b: real, s: real)
    requires s > 0.0
    ensures (a * s) * (b * s) / s / s == a * b
  {
    var ab := a * b;
    var t := (a * s) * (b * s);
    assert t == (ab * s) * s;
    var u := t / s;
    assert u * s == t;
    assert u == ab * s;
    assert u / s == ab;
  }

  lemma SpreadEnds(zLow: real, zHigh: real, m: real)
    requires m != 0.0
    ensures zLow + m * ((zHigh - zLow) / m) == zHigh
  {
    var q := (zHigh - zLow) / m;
    assert m * q == zHigh - zLow;
  }

  /** On such a camera the last emitter the 3D grid creates is at depth zHigh. */
  lemma Grid3DEndsAtZHigh(spacing: int, zLow: real, zHigh: real, resX: int, resY: int)
    requires spacing > 0 && resX > spacing && resY > spacing
    requires resX % spacing == 0 && resY % spacing == 0
    requires GridSteps(resX, spacing) * GridSteps(resY, spacing) >= 2
    ensures FormulaCount(spacing, resX, resY) != 1.0
    ensures var g := Stacked(GridColumns(spacing, GridSteps(resX, spacing), GridSteps(resY, spacing)),
                             zLow, ZSpacing(spacing, zLow, zHigh, resX, resY));
      |g| >= 2 && g[0].z == zLow && g[|g| - 1].z == zHigh
  {
    Grid3DReachesZHigh(spacing, zLow, zHigh, resX, resY);
    ExactCountEnds(spacing, GridSteps(resX, spacing), GridSteps(resY, spacing), zLow, zHigh,
                   FormulaCount(spacing, resX, resY), ZSpacing(spacing, zLow, zHigh, resX, resY));
  }

  lemma ExactCountEnds(spacing: int, nx: nat, ny: nat, zLow: real, zHigh: real, f: real, dz: real)
    requires nx * ny >= 2 && f == (nx * ny) as real && dz == (zHigh - zLow) / (f - 1.0)
    ensures var g := Stacked(GridColumns(spacing, nx, ny), zLow, dz);
      |g| >= 2 && g[0].z == zLow && g[|g| - 1].z == zHigh
  {
    SpreadEnds(zLow, zHigh, (nx * ny - 1) as real);
    StackedGridEnds(spacing, nx, ny, zLow, dz, zHigh);
  }

  lemma StackedGridEnds(spacing: int, nx: nat, ny: nat, zLow: real, dz: real, zHigh: real)
    requires nx * ny >= 2 && zLow + (nx * ny - 1) as real * dz == zHigh
    ensures var g := Stacked(GridColumns(spacing, nx, ny), zLow, dz);
      |g| >= 2 && g[0].z == zLow && g[|g| - 1].z == zHigh
  {
    GridColumnsLength(spacing, nx, ny);
    StackedEnds(GridColumns(spacing, nx, ny), zLow, dz, zHigh);
  }

  lemma StackedEnds(ps: seq<Fluorophore>, zLow: real, dz: real, zHigh: real)
    requires |ps| >= 2 && zLow + (|ps| - 1) as real * dz == zHigh
    ensures var g := Stacked(ps, zLow, dz); g[0].z == zLow && g[|g| - 1].z == zHigh
  {
    StackedAt(ps, zLow, dz, 0);
    StackedAt(ps, zLow, dz, |ps| - 1);
    AdvanceClosedForm(zLow, dz, |ps| - 1);
  }

  lemma StepsOfMultiple(limit: int, spacing: int)
    requires spacing > 0 && limit > spacing && limit % spacing == 0
    ensures GridSteps(limit, spacing) * spacing == limit - spacing
  {
    var q := limit / spacing;
    assert limit == q * spacing;
    var n := GridSteps(limit, spacing);
    if q >= 2 {
      assert limit - 1 == (q - 1) * spacing + (spacing - 1);
      DivModOf(q - 1, spacing - 1, spacing);
    } else {
      MulMonotone(q, 1, spacing);
    }
  }

  /**
   * When a resolution is not a multiple of the spacing the assumed count is
   * too small: on a 105 x 105 camera with spacing 10 there are 100 emitters but
   * the formula gives 90.25, and the last emitter lands above zHigh.
   */
  lemma Grid3DOvershootExample(zLow: real, zHigh: real)
    requires zLow < zHigh
    ensures GridSteps(105, 10) * GridSteps(105, 10) == 100
    ensures FormulaCount(10, 105, 105) == 90.25
    ensures |GridColumns(10, 10, 10)| == 100
    ensures Stacked(GridColumns(10, 10, 10), zLow, ZSpacing(10, zLow, zHigh, 105, 105))[99].z > zHigh
  {
    assert FormulaCount(10, 105, 105) == 90.25;
    var dz := ZSpacing(10, zLow, zHigh, 105, 105);
    assert dz == (zHigh - zLow) / 89.25;
    GridColumnsLength(10, 10, 10);
    Grid3DPoint(10, zLow, dz, 10, 10, 99);
    assert zLow + 99.0 * dz > zHigh;
  }

  /**
   * Whenever the area formula lies strictly between 1 and the real emitter
   * count, the last emitter of the 3D grid lies above zHigh.
   */
  lemma Grid3DOvershoots(spacing: int, zLow: real, zHigh: real, resX: int, resY: int)
    requires spacing > 0 && zLow < zHigh
    requires 1.0 < FormulaCount(spacing, resX, resY) < (GridSteps(resX, spacing) * GridSteps(resY, spacing)) as real
    ensures var g := Stacked(GridColumns(spacing, GridSteps(resX, spacing), GridSteps(resY, spacing)),
                             zLow, ZSpacing(spacing, zLow, zHigh, resX, resY));
      |g| >= 2 && g[|g| - 1].z > zHigh
  {
    Overshoot(spacing, GridSteps(resX, spacing), GridSteps(resY, spacing), zLow, zHigh,
              FormulaCount(spacing, resX, resY), ZSpacing(spacing, zLow, zHigh, resX, resY));
  }

  lemma Overshoot(spacing: int, nx: nat, ny: nat, zLow: real, zHigh: real, f: real, dz: real)
    requires 1.0 < f < (nx * ny) as real && zLow < zHigh && dz == (zHigh - zLow) / (f - 1.0)
    ensures var g := Stacked(GridColumns(spacing, nx, ny), zLow, dz);
      |g| >= 2 && g[|g| - 1].z > zHigh
  {
    var count := nx * ny;
    PastEnd(zLow, zHigh, count, f, dz);
    StackedGridLast(spacing, nx, ny, zLow, dz);
  }

  lemma PastEnd(zLow: real, zHigh: real, count: nat, f: real, dz: real)
    requires 1.0 < f < count as real && zLow < zHigh && dz == (zHigh - zLow) / (f - 1.0)
    ensures count >= 2 && zLow + (count - 1) as real * dz > zHigh
  {
    var c := count as real;
    assert (count - 1) as real == c - 1.0;
    assert dz * (f - 1.0) == zHigh - zLow;
    assert dz > 0.0;
    assert (c - 1.0) * dz - (f - 1.0) * dz == (c - f) * dz;
    assert (c - f) * dz > 0.0;
  }

  lemma StackedGridLast(spacing: int, nx: nat, ny: nat, zLow: real, dz: real)
    requires nx * ny >= 1
    ensures var g := Stacked(GridColumns(spacing, nx, ny), zLow, dz);
      |g| == nx * ny && g[|g| - 1].z == zLow + (nx * ny - 1) as real * dz
  {
    GridColumnsLength(spacing, nx, ny);
    Grid3DPoint(spacing, zLow, dz, nx, ny, nx * ny - 1);
  }

  /**
   * When the area formula is below 1 on a camera with two or more grid points
   * the step is negative, so every emitter after the first lies below zLow.
   */
  lemma Grid3DUndershoots(spacing: int, zLow: real, zHigh: real, resX: int, resY: int)
    requires spacing > 0 && zLow < zHigh
    requires FormulaCount(spacing, resX, resY) < 1.0
    requires GridSteps(resX, spacing) * GridSteps(resY, spacing) >= 2
    ensures var g := Stacked(GridColumns(spacing, GridSteps(resX, spacing), GridSteps(resY, spacing)),
                             zLow, ZSpacing(spacing, zLow, zHigh, resX, resY));
      |g| >= 2 && forall k :: 1 <= k < |g| ==> g[k].z < zLow
  {
    Undershoot(spacing, GridSteps(resX, spacing), GridSteps(resY, spacing), zLow, zHigh,
               FormulaCount(spacing, resX, resY), ZSpacing(spacing, zLow, zHigh, resX, resY));
  }

  lemma Undershoot(spacing: int, nx: nat, ny: nat, zLow: real, zHigh: real, f: real, dz: real)
    requires f < 1.0 && nx * ny >= 2 && zLow < zHigh && dz == (zHigh - zLow) / (f - 1.0)
    ensures var g := Stacked(GridColumns(spacing, nx, ny), zLow, dz);
      |g| >= 2 && forall k :: 1 <= k < |g| ==> g[k].z < zLow
  {
    var g := Stacked(GridColumns(spacing, nx, ny), zLow, dz);
    NegativeStep(zLow, zHigh, f, dz);
    GridColumnsLength(spacing, nx, ny);
    forall k | 1 <= k < |g|
      ensures g[k].z < zLow
    {
      Grid3DPoint(spacing, zLow, dz, nx, ny, k);
      BelowStart(zLow, dz, k);
    }
  }

  lemma NegativeStep(zLow: real, zHigh: real, f: real, dz: real)
    requires f < 1.0 && zLow < zHigh && dz == (zHigh - zLow) / (f - 1.0)
    ensures dz < 0.0
  {
    assert dz * (f - 1.0) == zHigh - zLow;
  }

  lemma BelowStart(zLow: real, dz: real, k: nat)
    requires dz < 0.0 && k >= 1
    ensures zLow + k as real * dz < zLow
  {
    assert k as real * dz <= dz;
  }

  /**
   * When the area formula is below 1 with two emitters the step is negative: on
   * a 15 x 25 camera with spacing 10 the formula gives 0.75 and the second
   * emitter lies below zLow.
   */
  lemma Grid3DUndershootExample(zLow: real, zHigh: real)
    requires zLow < zHigh
    ensures GridSteps(15, 10) == 1 && GridSteps(25, 10) == 2
    ensures FormulaCount(10, 15, 25) == 0.75
    ensures |GridColumns(10, 1, 2)| == 2
    ensures Stacked(GridColumns(10, 1, 2), zLow, ZSpacing(10, zLow, zHigh, 15, 25))[1].z < zLow
  {
    assert FormulaCount(10, 15, 25) == 0.75;
    var dz := ZSpacing(10, zLow, zHigh, 15, 25);
    assert dz == (zHigh - zLow) / -0.25;
    GridColumnsLength(10, 1, 2);
    Grid3DPoint(10, zLow, dz, 1, 2, 1);
    assert dz < 0.0;
  }

  /**
   * The depth step that spreads the emitters the grid really creates over
   * [zLow, zHigh]: the count is the product of the two loop counts, not the
   * area formula.
   */
  function CountedZSpacing(spacing: int, zLow: real, zHigh: real, resX: int, resY: int): real
    requires spacing > 0
  {
    var n := GridSteps(resX, spacing) * GridSteps(resY, spacing);
    if n >= 2 then (zHigh - zLow) / (n - 1) as real else 0.0
  }

  /** The 3D grid with the depth step taken from the real emitter count. */
  method Grid3DCounted(spacing: int, zLow: real, zHigh: real, resX: int, resY: int) returns (r: seq<Fluorophore>)
    requires spacing > 0
    ensures r == Stacked(GridColumns(spacing, GridSteps(resX, spacing), GridSteps(resY, spacing)),
                         zLow, CountedZSpacing(spacing, zLow, zHigh, resX, resY))
  {
    var nx, ny := GridSteps(resX, spacing), GridSteps(resY, spacing);
    var zSpacing := if nx * ny >= 2 then (zHigh - zLow) / (nx * ny - 1) as real else 0.0;
    r := StackedGrid(spacing, zLow, zSpacing, resX, resY);
  }

  /** With the counted step, the first emitter is at zLow and the last at zHigh on every camera. */
  lemma CountedGrid3DEndsAtZHigh(spacing: int, zLow: real, zHigh: real, resX: int, resY: int)
    requires spacing > 0
    requires GridSteps(resX, spacing) * GridSteps(resY, spacing) >= 2
    ensures var g := Stacked(GridColumns(spacing, GridSteps(resX, spacing), GridSteps(resY, spacing)),
                             zLow, CountedZSpacing(spacing, zLow, zHigh, resX, resY));
      |g| >= 2 && g[0].z == zLow && g[|g| - 1].z == zHigh
  {
    var nx, ny := GridSteps(resX, spacing), GridSteps(resY, spacing);
    SpreadEnds(zLow, zHigh, (nx * ny - 1) as real);
    StackedGridEnds(spacing, nx, ny, zLow, CountedZSpacing(spacing, zLow, zHigh, resX, resY), zHigh);
  }
}
