/** Small helpers shared by the model: an optional value, ASCII character
    classes as Python's `str` methods see them, and Python's `range`. */
module Text {

  datatype Option<+T> = None | Some(value: T)

  /** Every character is 7-bit ASCII; the model is stated for such input. */
  predicate IsAscii(s: string) {
    forall i :: 0 <= i < |s| ==> s[i] < 128 as char
  }

  /** `str.isdigit` on one ASCII character. */
  predicate IsDigit(c: char) {
    '0' <= c <= '9'
  }

  /** `str.isdigit` on a whole ASCII string: non-empty and digits only. */
  predicate IsDigits(s: string) {
    s != [] && forall i :: 0 <= i < |s| ==> IsDigit(s[i])
  }

  function DigitValue(c: char): (v: nat)
    requires IsDigit(c)
    ensures v < 10
  {
    (c - '0') as nat
  }

  /** The ASCII characters Python's `int()` strips as white space:
      tab, line feed, vertical tab, form feed, carriage return and space. */
  predicate IsPySpace(c: char) {
    ('\t' <= c <= '\r') || c == ' '
  }

  /** Index of the first occurrence of `c`, or the length when there is none. */
  function IndexOf(s: string, c: char): (k: nat)
    ensures k <= |s| && (k < |s| ==> s[k] == c)
    ensures forall i :: 0 <= i < k ==> s[i] != c
  {
    if s == [] || s[0] == c then 0 else 1 + IndexOf(s[1..], c)
  }

  /** Python's `range(start, stop, step)` for a positive step. */
  function Range(start: int, stop: int, step: nat): (r: seq<int>)
    requires step > 0
    decreases stop - start
  {
    if start >= stop then [] else [start] + Range(start + step, stop, step)
  }

  /** The k-th element of `range(start, stop, step)` is `start + k * step`,
      and the last element is the final one below `stop`. */
  lemma {:induction false} RangeAt(start: int, stop: int, step: nat)
    requires step > 0
    ensures start >= stop <==> |Range(start, stop, step)| == 0
    ensures start < stop ==>
              start + (|Range(start, stop, step)| - 1) * step < stop <= start + |Range(start, stop, step)| * step
    ensures forall k :: 0 <= k < |Range(start, stop, step)| ==>
              Range(start, stop, step)[k] == start + k * step
    decreases stop - start
  {
    if start < stop {
      RangeAt(start + step, stop, step);
      var rest := Range(start + step, stop, step);
      var n := |rest|;
      assert |Range(start, stop, step)| == n + 1;
      assert start + (n + 1) * step == start + step + n * step;
      assert start + n * step == start + step + (n - 1) * step;
      forall k | 0 < k < n + 1
        ensures Range(start, stop, step)[k] == start + k * step
      {
        assert Range(start, stop, step)[k] == rest[k - 1];
        assert start + step + (k - 1) * step == start + k * step;
      }
    }
  }
}
