# clamp — a Dafny model

This project models the integer `clamp` helper of the repository's solutions: given a C `int` value `v` and an inclusive range `[lo, hi]`, it returns `lo` when `v < lo`, otherwise `hi` when `v > hi`, otherwise `v`. The helper is defined twice with the same body, once `static inline` in `solutions/libutil.h` and once with external linkage in `solutions/util.c`. The model has one Dafny function for each definition:

- `CInt.dfy`: the C `int` as the subset type `Int32` (32-bit two's complement), plus a distance helper.
- `LibUtil.dfy`: the header's `clamp` (`LibUtil.Clamp`) and the lemmas about it.
- `Util.dfy`: the unit's `clamp` (`Util.Clamp`) and a lemma saying that the two definitions agree on every input.

The function never checks `lo <= hi`. The caller must keep that promise. The laws that need it take it as a `requires`. The behaviour on an inverted range (`hi < lo`) comes from the comparison order, and the model states it exactly.

Some descriptions of this helper say that an inverted range can let `v` itself fall through. The code cannot do that. On an inverted range, a `v` that is not below `lo` is above `hi`, so the second comparison always fires. The result is therefore always `lo` or `hi`, and never `v`. The model follows the code (`LibUtil.InvertedRange`, `LibUtil.InvertedImage`).

## Model

| member | source | states |
|---|---|---|
| LibUtil.Clamp | solutions/libutil.h:4-8 | the result is one of `v`, `lo`, `hi`, so it is a C `int` and cannot overflow; on a range with `lo <= hi` it lies in `[lo, hi]`; a `v` inside the range is returned unchanged |
| LibUtil.ClampBelow | solutions/libutil.h:5 | a value below `lo` yields `lo`, whatever `hi` is, inverted ranges included |
| LibUtil.ClampAbove | solutions/libutil.h:5-6 | a value not below `lo` and above `hi` yields `hi` |
| LibUtil.ClampAtBounds | solutions/libutil.h:5-7 | on a well-formed range, `clamp(lo) == lo` and `clamp(hi) == hi` |
| LibUtil.ClampIdempotent | solutions/libutil.h:4-8 | on a well-formed range, clamping twice equals clamping once |
| LibUtil.ClampMonotone | solutions/libutil.h:4-8 | on a well-formed range, `v1 <= v2` implies `clamp(v1) <= clamp(v2)` |
| LibUtil.NearestIsClamp | solutions/libutil.h:4-8 | on a well-formed range, a point of `[lo, hi]` is nearest to `v` among all points of `[lo, hi]` if and only if it is `clamp(v, lo, hi)`: clamping is the unique nearest-point projection onto the range |
| LibUtil.ClampImage | solutions/libutil.h:4-8 | on a well-formed range, the values clamping can return are exactly the integers of `[lo, hi]` |
| LibUtil.InvertedRange | solutions/libutil.h:5-6 | on an inverted range the result is `lo` for `v < lo` and `hi` otherwise, and it never equals `v` |
| LibUtil.InvertedImage | solutions/libutil.h:5-6 | on an inverted range the values clamping can return are exactly `lo` and `hi` |
| LibUtil.InvertedRangeBreaksLaws | solutions/libutil.h:5-6 | on every inverted range idempotence fails at `lo - 1` and monotonicity fails between `lo - 1` and `lo`, so the laws above need `lo <= hi` |
| LibUtil.ClampExamples | solutions/libutil.h:4-8 | `clamp(5,0,10) == 5`, `clamp(-3,0,10) == 0`, `clamp(15,0,10) == 10`, `clamp(0,0,0) == 0`, `clamp(5,10,0) == 10` |
| Util.Clamp | solutions/util.c:3-7 | the result is one of `v`, `lo`, `hi`; a value below `lo` yields `lo`; on a well-formed range it lies in `[lo, hi]`; a `v` inside the range is returned unchanged |
| Util.ClampAgreesWithHeader | solutions/util.c:3-7 | this definition returns the same value as the header's `clamp` on every input, inverted ranges included, so every lemma above also holds for it |

## Left out

- `solutions/json_main.c`: a `main` that builds and prints a JSON object through the external jansson library, whose sources are not part of this model. It also frees the string and prints to the console. It has no logic of its own.
- `solutions/point_main.c`: a `main` that computes a floating-point distance with `sqrt` and prints it. Floating point is not modelled, and `point.h` is not part of this model.
- The `#ifndef` include guard and the difference between `static inline` and external linkage. These are compile-time concerns that do not change what `clamp` computes.
- The C `int` is taken to be 32 bits wide. The model never needs the width, because `clamp` does no arithmetic: any other width gives the same results.
