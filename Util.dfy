/**
 * The translation unit's external `int clamp(int v, int lo, int hi)`, a
 * second definition with the same body as the header's inline one.
 */
module Util {
  import opened CInt
  import LibUtil

  /**
   * Below `lo` gives `lo`; otherwise above `hi` gives `hi`; otherwise `v`.
   * The result is one of the arguments, lies in a well-formed range and
   * leaves a value already inside the range unchanged.
   */
  function Clamp(v: Int32, lo: Int32, hi: Int32): (r: Int32)
    ensures r == v || r == lo || r == hi
    ensures v < lo ==> r == lo
    ensures lo <= hi ==> lo <= r <= hi
    ensures lo <= v <= hi ==> r == v
  {
    if v < lo then lo
    else if v > hi then hi
    else v
  }

  /**
   * The two definitions agree on every input, inverted ranges included, so
   * every property proved of the header's `clamp` holds of this one.
   */
  lemma ClampAgreesWithHeader(v: Int32, lo: Int32, hi: Int32)
    ensures Clamp(v, lo, hi) == LibUtil.Clamp(v, lo, hi)
  {
  }
}
