/**
 * Integer model of the percentage shown on the practice page and the dashboard:
 * `total > 0 ? Math.round((part / total) * 100) : 0`.
 * `Math.round` rounds to the nearest integer with ties upward; on exact rationals
 * that is floor(100 * part / total + 1/2).
 */
module Percent {

  /** Math.round(100 * part / whole), computed exactly. */
  function RoundedPercent(part: nat, whole: nat): (r: nat)
    requires whole > 0
    // r is the nearest integer to 100 * part / whole, a tie going up:
    // r - 1/2 <= 100 * part / whole < r + 1/2
    ensures 2 * whole * r <= 200 * part + whole < 2 * whole * r + 2 * whole
  {
    var q := (200 * part + whole) / (2 * whole);
    assert 200 * part + whole == (2 * whole) * q + (200 * part + whole) % (2 * whole);
    q
  }

  /** The accuracy formula: 0 when nothing was attempted. */
  function Accuracy(part: nat, whole: nat): (r: nat)
    ensures whole == 0 ==> r == 0
    ensures whole > 0 ==> 2 * whole * r <= 200 * part + whole < 2 * whole * r + 2 * whole
  {
    if whole > 0 then RoundedPercent(part, whole) else 0
  }

  /** A percentage of at most the whole lies in [0, 100]. */
  lemma AccuracyAtMost100(part: nat, whole: nat)
    ensures part <= whole ==> Accuracy(part, whole) <= 100
  {
    if 0 < whole && part <= whole {
      var r := Accuracy(part, whole);
      if r > 100 {
        MulLe(2 * whole, 101, r);
      }
    }
  }

  /** All-correct shows 100%, none-correct shows 0%. */
  lemma AccuracyExtremes(whole: nat)
    requires whole > 0
    ensures Accuracy(whole, whole) == 100
    ensures Accuracy(0, whole) == 0
  {
    var r := Accuracy(whole, whole);
    if r < 100 {
      MulLe(2 * whole, r + 1, 100);
    } else if r > 100 {
      MulLe(2 * whole, 101, r);
    }
    var z := Accuracy(0, whole);
    if z > 0 {
      MulLe(2 * whole, 1, z);
    }
  }

  /** 100% means every attempt was correct only while fewer than 200 were attempted. */
  lemma FullAccuracyMeansAllCorrect(part: nat, whole: nat)
    requires part <= whole < 200
    requires Accuracy(part, whole) == 100
    ensures part == whole
  {
  }

  /** With 200 or more attempts, a single wrong answer can still round to 100%. */
  lemma FullAccuracyWithAMistake()
    ensures Accuracy(199, 200) == 100
  {
  }

  lemma {:induction false} MulLe(k: nat, a: nat, b: nat)
    requires a <= b
    ensures k * a <= k * b
  {
    if k > 0 {
      MulLe(k - 1, a, b);
      assert k * a == (k - 1) * a + a;
      assert k * b == (k - 1) * b + b;
    }
  }
}
