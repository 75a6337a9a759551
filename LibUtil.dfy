/**
 * The header's `static inline int clamp(int v, int lo, int hi)`: restrict `v`
 * to the inclusive range `[lo, hi]` by two ordered comparisons. The header
 * never checks `lo <= hi`; the lemmas below say what holds when the caller
 * keeps that promise and what happens when it does not.
 */
module LibUtil {
  import opened CInt

  /**
   * Below `lo` gives `lo`; otherwise above `hi` gives `hi`; otherwise `v`.
   * The result is always one of the three arguments, so it is itself a C
   * `int` and no overflow can occur.
   */
  function Clamp(v: Int32, lo: Int32, hi: Int32): (r: Int32)
    ensures r == v || r == lo || r == hi
    ensures lo <= hi ==> lo <= r <= hi
    ensures lo <= v <= hi ==> r == v
  {
    if v < lo then lo
    else if v > hi then hi
    else v
  }

  /** A value below the range is raised to `lo`, whatever `hi` is, even when `hi < lo`. */
  lemma ClampBelow(v: Int32, lo: Int32, hi: Int32)
    requires v < lo
    ensures Clamp(v, lo, hi) == lo
  {
  }

  /** A value that is not below `lo` but above `hi` is lowered to `hi`. */
  lemma ClampAbove(v: Int32, lo: Int32, hi: Int32)
    requires lo <= v && hi < v
    ensures Clamp(v, lo, hi) == hi
  {
  }

  /** The two ends of a well-formed range are left where they are. */
  lemma ClampAtBounds(lo: Int32, hi: Int32)
    requires lo <= hi
    ensures Clamp(lo, lo, hi) == lo && Clamp(hi, lo, hi) == hi
  {
  }

  /** On a well-formed range, clamping a clamped value changes nothing. */
  lemma ClampIdempotent(v: Int32, lo: Int32, hi: Int32)
    requires lo <= hi
    ensures Clamp(Clamp(v, lo, hi), lo, hi) == Clamp(v, lo, hi)
  {
  }

  /** On a well-formed range, clamping preserves the order of its inputs. */
  lemma ClampMonotone(v1: Int32, v2: Int32, lo: Int32, hi: Int32)
    requires lo <= hi && v1 <= v2
    ensures Clamp(v1, lo, hi) <= Clamp(v2, lo, hi)
  {
  }

  /** `r` is a point of `[lo, hi]` that no other point of `[lo, hi]` is closer to `v` than. */
  ghost predicate IsNearestIn(r: int, v: int, lo: int, hi: int)
  {
    && lo <= r <= hi
    && forall x :: lo <= x <= hi ==> Dist(r, v) <= Dist(x, v)
  }

  /**
   * An independent definition of clamping: on a well-formed range the result
   * is exactly the point of `[lo, hi]` nearest to `v`, and that point is unique.
   */
  lemma NearestIsClamp(v: Int32, lo: Int32, hi: Int32, r: int)
    requires lo <= hi
    ensures IsNearestIn(r, v, lo, hi) <==> r == Clamp(v, lo, hi)
  {
    var c := Clamp(v, lo, hi);
    forall x | lo <= x <= hi
      ensures Dist(c, v) <= Dist(x, v)
    {
    }
    assert IsNearestIn(c, v, lo, hi);
    if IsNearestIn(r, v, lo, hi) {
      assert Dist(r, v) <= Dist(c, v);
    }
  }

  /** On a well-formed range the values clamping can produce are exactly `[lo, hi]`. */
  lemma ClampImage(lo: Int32, hi: Int32, r: int)
    requires lo <= hi
    ensures (exists v: Int32 :: Clamp(v, lo, hi) == r) <==> lo <= r <= hi
  {
    if lo <= r <= hi {
      assert Clamp(r, lo, hi) == r;
    }
  }

  /**
   * An inverted range (`hi < lo`) is not rejected. A value not below `lo` is
   * then above `hi`, so the second comparison always fires: the result is
   * `lo` below `lo` and `hi` from `lo` on, and never `v` itself.
   */
  lemma InvertedRange(v: Int32, lo: Int32, hi: Int32)
    requires hi < lo
    ensures Clamp(v, lo, hi) == (if v < lo then lo else hi)
    ensures Clamp(v, lo, hi) != v
  {
  }

  /** On an inverted range clamping produces exactly the two values `lo` and `hi`. */
  lemma InvertedImage(lo: Int32, hi: Int32, r: int)
    requires hi < lo
    ensures (exists v: Int32 :: Clamp(v, lo, hi) == r) <==> r == lo || r == hi
  {
    var below: Int32 := lo - 1;
    assert Clamp(below, lo, hi) == lo;
    assert Clamp(lo, lo, hi) == hi;
  }

  /**
   * Why the range must be well formed: on every inverted range clamping is
   * neither idempotent (at `lo - 1`) nor order-preserving (from `lo - 1` to `lo`).
   */
  lemma InvertedRangeBreaksLaws(lo: Int32, hi: Int32)
    requires hi < lo
    ensures var below := lo - 1;
      && INT_MIN <= below
      && Clamp(Clamp(below, lo, hi), lo, hi) != Clamp(below, lo, hi)
      && Clamp(below, lo, hi) > Clamp(lo, lo, hi)
  {
  }

  /** Worked cases: inside, below, above, a one-point range, and an inverted range. */
  lemma ClampExamples()
    ensures Clamp(5, 0, 10) == 5
    ensures Clamp(-3, 0, 10) == 0
    ensures Clamp(15, 0, 10) == 10
    ensures Clamp(0, 0, 0) == 0
    ensures Clamp(5, 10, 0) == 10
  {
  }
}
