/**
 * Grid alignment: the half-base-unit grid predicate and the closest grid
 * value over the fixed multiples (packages/shared/src/complianceUtils.ts,
 * copied in packages/figma-plugin/src/code.ts). Pixel values are exact reals.
 */
module Grid {

  /** The multiples `getClosestGridValue` tries, in its order. */
  const ALLOWED_MULTIPLES: seq<real> := [0.5, 1.0, 1.5, 2.0, 3.0, 4.0, 6.0, 8.0]

  /** The base unit the plugin falls back to. */
  const DEFAULT_BASE_UNIT: real := 8.0

  /**
   * JavaScript's `value % step === 0`: `x % 0` is NaN, and otherwise the
   * remainder is zero exactly when the quotient is an integer.
   */
  predicate IsMultipleOf(value: real, step: real) {
    step != 0.0 && (value / step).Floor as real == value / step
  }

  /** `isOnGrid(value, baseUnit)` */
  predicate IsOnGrid(value: real, baseUnit: real) {
    IsMultipleOf(value, baseUnit) || IsMultipleOf(value, baseUnit / 2.0)
  }

  /** A multiple of the base unit is a multiple of its half, so only the half-unit test matters. */
  lemma OnGridIsHalfUnitMultiple(value: real, baseUnit: real)
    ensures IsOnGrid(value, baseUnit) <==> IsMultipleOf(value, baseUnit / 2.0)
  {
    if IsMultipleOf(value, baseUnit) {
      var k := (value / baseUnit).Floor;
      assert value == k as real * baseUnit;
      assert value / (baseUnit / 2.0) == (2 * k) as real;
    }
  }

  /** Every whole number of half base units is on the grid. */
  lemma HalfUnitMultiplesOnGrid(k: int, baseUnit: real)
    requires baseUnit != 0.0
    ensures IsOnGrid(k as real * (baseUnit / 2.0), baseUnit)
  {
    assert k as real * (baseUnit / 2.0) / (baseUnit / 2.0) == k as real;
  }

  function Abs(x: real): (a: real)
    ensures a >= 0.0 && (a == x || a == -x)
  {
    if x < 0.0 then -x else x
  }

  /** The candidates `baseUnit * m`, in the order of `ALLOWED_MULTIPLES`. */
  function GridValues(baseUnit: real): (gs: seq<real>)
    ensures |gs| == |ALLOWED_MULTIPLES|
    ensures forall i :: 0 <= i < |gs| ==> gs[i] == baseUnit * ALLOWED_MULTIPLES[i]
  {
    [baseUnit * 0.5, baseUnit * 1.0, baseUnit * 1.5, baseUnit * 2.0,
     baseUnit * 3.0, baseUnit * 4.0, baseUnit * 6.0, baseUnit * 8.0]
  }

  /**
   * The loop state `(closest, minDiff)` of `getClosestGridValue` after trying
   * the candidates `gs`: seeded with `seed`, replaced only by a strictly closer candidate.
   */
  function ClosestScan(value: real, seed: real, gs: seq<real>): (real, real)
  {
    if gs == [] then (seed, Abs(value - seed))
    else
      var n := |gs| - 1;
      var sc := ClosestScan(value, seed, gs[..n]);
      var diff := Abs(value - gs[n]);
      if diff < sc.1 then (gs[n], diff) else sc
  }

  /** `getClosestGridValue(value, baseUnit)` */
  function ClosestGridValue(value: real, baseUnit: real): real {
    ClosestScan(value, baseUnit, GridValues(baseUnit)).0
  }

  /** The scan ends on the seed or a candidate, at the distance it records. */
  lemma {:induction false} ClosestScanPicksCandidate(value: real, seed: real, gs: seq<real>)
    ensures var sc := ClosestScan(value, seed, gs);
      sc.1 == Abs(value - sc.0) && (sc.0 == seed || sc.0 in gs)
  {
    if gs != [] {
      ClosestScanPicksCandidate(value, seed, gs[..|gs| - 1]);
    }
  }

  /** No candidate, and not the seed, is strictly closer than the scan's result. */
  lemma {:induction false} ClosestScanIsMinimal(value: real, seed: real, gs: seq<real>)
    ensures var sc := ClosestScan(value, seed, gs);
      sc.1 <= Abs(value - seed) && forall j :: 0 <= j < |gs| ==> sc.1 <= Abs(value - gs[j])
  {
    if gs != [] {
      var n := |gs| - 1;
      ClosestScanIsMinimal(value, seed, gs[..n]);
      assert forall j :: 0 <= j < n ==> gs[..n][j] == gs[j];
    }
  }

  /**
   * Ties: the seed is kept when it is already at the least distance; otherwise
   * the result is the first candidate at that distance.
   */
  lemma {:induction false} ClosestScanTieBreak(value: real, seed: real, gs: seq<real>)
    ensures var sc := ClosestScan(value, seed, gs);
      && (sc.1 == Abs(value - seed) ==> sc.0 == seed)
      && (sc.1 < Abs(value - seed) ==>
            exists k :: 0 <= k < |gs| && sc.0 == gs[k] && forall j :: 0 <= j < k ==> sc.1 < Abs(value - gs[j]))
  {
    if gs != [] {
      var n := |gs| - 1;
      ClosestScanTieBreak(value, seed, gs[..n]);
      ClosestScanIsMinimal(value, seed, gs[..n]);
      var sc := ClosestScan(value, seed, gs[..n]);
      assert forall j :: 0 <= j < n ==> gs[..n][j] == gs[j];
      var diff := Abs(value - gs[n]);
      if diff < sc.1 {
        assert forall j :: 0 <= j < n ==> diff < Abs(value - gs[j]);
      } else if sc.1 < Abs(value - seed) {
        var k :| 0 <= k < n && sc.0 == gs[..n][k] && forall j :: 0 <= j < k ==> sc.1 < Abs(value - gs[..n][j]);
        assert sc.0 == gs[k];
      }
    }
  }

  /**
   * `getClosestGridValue`: the result is `baseUnit * m` for an allowed multiple
   * `m`, no allowed multiple is closer, ties with the seed `baseUnit` keep the
   * seed, and otherwise the result is the first candidate at the least distance.
   */
  lemma ClosestGridValueSpec(value: real, baseUnit: real)
    ensures var closest := ClosestGridValue(value, baseUnit);
      && (exists i :: 0 <= i < |ALLOWED_MULTIPLES| && closest == baseUnit * ALLOWED_MULTIPLES[i])
      && (forall i :: 0 <= i < |ALLOWED_MULTIPLES| ==>
            Abs(value - closest) <= Abs(value - baseUnit * ALLOWED_MULTIPLES[i]))
      && (Abs(value - closest) == Abs(value - baseUnit) ==> closest == baseUnit)
      && (Abs(value - closest) < Abs(value - baseUnit) ==>
            exists k :: 0 <= k < |ALLOWED_MULTIPLES| && closest == baseUnit * ALLOWED_MULTIPLES[k] &&
              forall j :: 0 <= j < k ==> Abs(value - closest) < Abs(value - baseUnit * ALLOWED_MULTIPLES[j]))
  {
    ClosestIsAllowed(value, baseUnit);
    ClosestIsFirst(value, baseUnit);
  }

  lemma ClosestIsAllowed(value: real, baseUnit: real)
    ensures var closest := ClosestGridValue(value, baseUnit);
      && (exists i :: 0 <= i < |ALLOWED_MULTIPLES| && closest == baseUnit * ALLOWED_MULTIPLES[i])
      && (forall i :: 0 <= i < |ALLOWED_MULTIPLES| ==>
            Abs(value - closest) <= Abs(value - baseUnit * ALLOWED_MULTIPLES[i]))
  {
    var gs := GridValues(baseUnit);
    ClosestScanPicksCandidate(value, baseUnit, gs);
    ClosestScanIsMinimal(value, baseUnit, gs);
    var closest := ClosestGridValue(value, baseUnit);
    if closest != baseUnit {
      var k :| 0 <= k < |gs| && gs[k] == closest;
    } else {
      assert closest == baseUnit * ALLOWED_MULTIPLES[1];
    }
  }

  lemma ClosestIsFirst(value: real, baseUnit: real)
    ensures var closest := ClosestGridValue(value, baseUnit);
      && (Abs(value - closest) == Abs(value - baseUnit) ==> closest == baseUnit)
      && (Abs(value - closest) < Abs(value - baseUnit) ==>
            exists k :: 0 <= k < |ALLOWED_MULTIPLES| && closest == baseUnit * ALLOWED_MULTIPLES[k] &&
              forall j :: 0 <= j < k ==> Abs(value - closest) < Abs(value - baseUnit * ALLOWED_MULTIPLES[j]))
  {
    var gs := GridValues(baseUnit);
    ClosestScanPicksCandidate(value, baseUnit, gs);
    ClosestScanTieBreak(value, baseUnit, gs);
    var closest := ClosestGridValue(value, baseUnit);
    if Abs(value - closest) < Abs(value - baseUnit) {
      var k :| 0 <= k < |gs| && closest == gs[k] && forall j :: 0 <= j < k ==> Abs(value - closest) < Abs(value - gs[j]);
      assert closest == baseUnit * ALLOWED_MULTIPLES[k];
    }
  }

  /** `getClosestGridValue`: a loop over the allowed multiples keeping the strictly closest. */
  method GetClosestGridValue(value: real, baseUnit: real) returns (closest: real)
    ensures closest == ClosestGridValue(value, baseUnit)
  {
    ghost var gs := GridValues(baseUnit);
    closest := baseUnit;
    var minDiff := Abs(value - baseUnit);
    var i := 0;
    while i < |ALLOWED_MULTIPLES|
      invariant 0 <= i <= |ALLOWED_MULTIPLES|
      invariant (closest, minDiff) == ClosestScan(value, baseUnit, gs[..i])
    {
      var gridValue := baseUnit * ALLOWED_MULTIPLES[i];
      var diff := Abs(value - gridValue);
      assert gs[..i + 1][..i] == gs[..i];
      if diff < minDiff {
        minDiff := diff;
        closest := gridValue;
      }
      i := i + 1;
    }
    assert gs[..i] == gs;
  }

  /** With base 8: 10 snaps to 8 (not 12), 6 snaps to 8 (not 4), 13 snaps to 12. */
  lemma ClosestGridValueExamples()
    ensures ClosestGridValue(10.0, 8.0) == 8.0
    ensures ClosestGridValue(6.0, 8.0) == 8.0
    ensures ClosestGridValue(13.0, 8.0) == 12.0
  {
    var gs := GridValues(8.0);
    assert gs == [4.0, 8.0, 12.0, 16.0, 24.0, 32.0, 48.0, 64.0];
    ClosestScanPicksCandidate(10.0, 8.0, gs);
    ClosestScanIsMinimal(10.0, 8.0, gs);
    ClosestScanTieBreak(10.0, 8.0, gs);
    ClosestScanPicksCandidate(6.0, 8.0, gs);
    ClosestScanIsMinimal(6.0, 8.0, gs);
    ClosestScanTieBreak(6.0, 8.0, gs);
    ClosestScanPicksCandidate(13.0, 8.0, gs);
    ClosestScanIsMinimal(13.0, 8.0, gs);
    var sc := ClosestScan(13.0, 8.0, gs);
    assert sc.1 <= Abs(13.0 - gs[2]);
  }

  /** A tie between two later candidates: with base 8, 20 is 4 from both 16 and 24 and snaps to 16. */
  lemma ClosestGridValueTieExample()
    ensures ClosestGridValue(20.0, 8.0) == 16.0
  {
    var gs := GridValues(8.0);
    assert gs == [4.0, 8.0, 12.0, 16.0, 24.0, 32.0, 48.0, 64.0];
    ClosestScanPicksCandidate(20.0, 8.0, gs);
    ClosestScanIsMinimal(20.0, 8.0, gs);
    ClosestScanTieBreak(20.0, 8.0, gs);
    var sc := ClosestScan(20.0, 8.0, gs);
    assert sc.1 <= Abs(20.0 - gs[3]);
    assert sc.1 < Abs(20.0 - 8.0);
  }
}
