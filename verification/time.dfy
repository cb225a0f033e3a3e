/** Timestamps and their conversion to whole milliseconds (`convert_to_ms`
    in main.py, and the same `int(x * 1000)` in beat_detection.py).
    Seconds are exact reals: IEEE rounding of the product is not modelled. */
module Time {

  /** A timestamp as the collectors hand it over: a float of seconds, or the
      `str()` rendering of such a float. Python's float repr round-trips, so
      `float(str(x)) == x` and a rendering is identified by the value it renders. */
  datatype Stamp = Float(seconds: real) | Rendered(seconds: real)

  /** `n` is `x` with its fractional part cut off, toward zero. */
  ghost predicate TruncatesTo(x: real, n: int) {
    if x >= 0.0 then n as real <= x < n as real + 1.0
    else n as real - 1.0 < x <= n as real
  }

  /** Python's `int()` applied to a float. */
  function Trunc(x: real): (n: int)
    ensures TruncatesTo(x, n)
  {
    if x >= 0.0 then x.Floor else -((-x).Floor)
  }

  /** `int(seconds * 1000)`. */
  function SecondsToMs(seconds: real): (ms: int)
    ensures TruncatesTo(seconds * 1000.0, ms)
    ensures seconds >= 0.0 ==> ms >= 0
  {
    Trunc(seconds * 1000.0)
  }

  /** `convert_to_ms`: a string is parsed back to its float first, then the
      milliseconds are truncated toward zero. */
  function ConvertToMs(t: Stamp): (ms: int)
    ensures TruncatesTo(t.seconds * 1000.0, ms)
  {
    match t
    case Float(x) => SecondsToMs(x)
    case Rendered(x) => SecondsToMs(x)
  }

  /** Truncation has one answer, so the contracts above fix the result. */
  lemma TruncationIsUnique(x: real, n: int, m: int)
    requires TruncatesTo(x, n) && TruncatesTo(x, m)
    ensures n == m
  {
  }

  /** A float and its string rendering convert to the same milliseconds. */
  lemma RenderingConvertsAlike(x: real)
    ensures ConvertToMs(Rendered(x)) == ConvertToMs(Float(x))
  {
  }

  /** The conversion truncates rather than rounds: 0.9999 s is 999 ms, and
      -0.0015 s is -1 ms, toward zero. */
  lemma TruncatesTowardZero()
    ensures ConvertToMs(Float(0.9999)) == 999
    ensures ConvertToMs(Float(-0.0015)) == -1
  {
  }
}
