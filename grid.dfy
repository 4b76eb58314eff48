/** Integer ceiling division and the two sizes the light system derives from
    it: the screen-space tile grid (tiles per axis) and the number of
    light-movement workgroups. */
module TileGrid {

  /** `Math.floor((n + d - 1) / d)` on non-negative integers: the number of
      blocks of `d` needed to cover `n` items. */
  function CeilDiv(n: nat, d: nat): (r: nat)
    requires d > 0
    ensures r * d >= n
    ensures (r - 1) * d < n
  {
    var q := (n + d - 1) / d;
    assert q * d + (n + d - 1) % d == n + d - 1;
    q
  }

  // Monotonicity of multiplication, stated once so that the lemmas below can
  // hand it to the solver: without these calls CeilDivUnique and BlockUnique
  // run out of resource on some solver seeds.

  lemma MulMonotone(a: int, b: int, d: nat)
    ensures a <= b ==> a * d <= b * d
  {
  }

  /** CeilDiv is the least block count that covers `n`. */
  lemma CeilDivIsLeast(n: nat, d: nat, k: int)
    requires d > 0
    requires k * d >= n
    ensures CeilDiv(n, d) <= k
  {
    var r := CeilDiv(n, d);
    MulMonotone(k, r as int - 1, d);
  }

  /** Any count satisfying the two covering bounds is CeilDiv. */
  lemma CeilDivUnique(n: nat, d: nat, k: int)
    requires d > 0
    requires k * d >= n && (k - 1) * d < n
    ensures k == CeilDiv(n, d)
  {
    var r := CeilDiv(n, d);
    CeilDivIsLeast(n, d, k);
    MulMonotone(r, k - 1, d);
  }

  /** Block `t` (a tile of one axis of the grid, or a workgroup) is among the
      `CeilDiv(n, d)` blocks exactly when it starts before `n`: no block lies
      wholly past the end, and none is missing before it. */
  lemma BlockInRange(t: nat, n: nat, d: nat)
    requires d > 0
    ensures t < CeilDiv(n, d) <==> t * d < n
  {
    var g := CeilDiv(n, d);
    MulMonotone(t, g as int - 1, d);
    MulMonotone(g, t, d);
  }

  /** Every item below `n` (a pixel of a canvas row, a light index) lies in one
      of the blocks: item `x` is in block `x / d`, whose span
      `[(x / d) * d, (x / d + 1) * d)` holds it. With `n` the canvas extent and
      `d` the tile extent this is the statement that the tile grid covers the
      canvas without a gap. */
  lemma ItemInBlock(x: nat, n: nat, d: nat)
    requires d > 0 && x < n
    ensures x / d < CeilDiv(n, d)
    ensures (x / d) * d <= x < (x / d + 1) * d
  {
    var t := x / d;
    assert t * d + x % d == x;
    BlockInRange(t, n, d);
  }

  /** Blocks do not overlap: the only block whose span holds item `x` is
      block `x / d`. With `d` the tile extent, no pixel lies in two tiles. */
  lemma BlockUnique(x: nat, t: nat, d: nat)
    requires d > 0 && t * d <= x < (t + 1) * d
    ensures t == x / d
  {
    var q := x / d;
    assert q * d + x % d == x;
    if t < q {
      MulMonotone(t + 1, q, d);
    } else if t > q {
      MulMonotone(q + 1, t, d);
    }
  }

  /** JavaScript's `Math.ceil` on an exact quotient: the least integer not below `q`. */
  function MathCeil(q: real): (r: int)
    ensures q <= r as real < q + 1.0
  {
    if q.Floor as real == q then q.Floor else q.Floor + 1
  }

  /** `Math.ceil(numLights / workgroupSize)`: the move-lights dispatch size. */
  function WorkgroupCount(numLights: nat, workgroupSize: nat): (c: int)
    requires workgroupSize > 0
  {
    MathCeil(numLights as real / workgroupSize as real)
  }

  /** An integer not below the exact quotient `n / d` counts enough blocks of `d` to cover `n`. */
  lemma CoverFromQuotient(n: nat, d: nat, c: int)
    requires d > 0
    requires n as real / d as real <= c as real
    ensures c * d >= n
  {
    assert n as real <= c as real * d as real;
  }

  /** An integer below the exact quotient `n / d` counts too few blocks of `d` to cover `n`. */
  lemma ShortOfQuotient(n: nat, d: nat, c: int)
    requires d > 0
    requires c as real < n as real / d as real
    ensures c * d < n
  {
    assert c as real * d as real < n as real;
  }

  /** The `Math.ceil` form of the light dispatch and the `Math.floor` form of the
      tile grid compute the same ceiling. */
  lemma WorkgroupCountIsCeilDiv(numLights: nat, workgroupSize: nat)
    requires workgroupSize > 0
    ensures WorkgroupCount(numLights, workgroupSize) == CeilDiv(numLights, workgroupSize)
  {
    var c := WorkgroupCount(numLights, workgroupSize);
    CoverFromQuotient(numLights, workgroupSize, c);
    ShortOfQuotient(numLights, workgroupSize, c - 1);
    CeilDivUnique(numLights, workgroupSize, c);
  }

  /** Every active light has a compute invocation: global invocation `l` belongs
      to workgroup `l / workgroupSize`, and that workgroup is dispatched. */
  lemma EveryLightInvoked(l: nat, numLights: nat, workgroupSize: nat)
    requires workgroupSize > 0 && l < numLights
    ensures l / workgroupSize < WorkgroupCount(numLights, workgroupSize)
  {
    WorkgroupCountIsCeilDiv(numLights, workgroupSize);
    ItemInBlock(l, numLights, workgroupSize);
  }
}
