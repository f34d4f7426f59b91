/** The few JavaScript value semantics the assignment server and client rely on:
    optional (possibly undefined) values, the numbers `parseInt` produces, and
    `Array.prototype.slice` with its clamping of negative and NaN indices. */
module Js {

  /** A value that may be absent (`undefined` in JavaScript). */
  datatype Option<+T> = None | Some(value: T)

  /** A number as `parseInt` yields it: an integer, or NaN for text that is not a number. */
  datatype Num = Int(value: int) | NaN

  /** JavaScript `+`, `-` and `*` on such numbers: NaN is absorbing. */
  function Add(a: Num, b: Num): Num {
    if a.Int? && b.Int? then Int(a.value + b.value) else NaN
  }

  function Sub(a: Num, b: Num): Num {
    if a.Int? && b.Int? then Int(a.value - b.value) else NaN
  }

  function Mul(a: Num, b: Num): Num {
    if a.Int? && b.Int? then Int(a.value * b.value) else NaN
  }

  function Min(a: int, b: int): int {
    if a <= b then a else b
  }

  /** How `slice` turns one argument into a position in a sequence of length `len`
      (as ECMA-262 defines Array.prototype.slice): NaN counts as 0, a negative index
      counts from the end, and the result is clamped to [0, len]. */
  function SliceIndex(relative: Num, len: nat): (k: nat)
    ensures k <= len
  {
    match relative
    case NaN => 0
    case Int(r) =>
      if r < 0 then (if len + r < 0 then 0 else len + r)
      else if r < len then r else len
  }

  /** `s.slice(start, end)`: the elements from the start position up to, not including,
      the end position, or none when the end position is not after the start. */
  function Slice<T>(s: seq<T>, start: Num, end: Num): (r: seq<T>)
    ensures |r| <= |s|
  {
    var k := SliceIndex(start, |s|);
    var final := SliceIndex(end, |s|);
    if k < final then s[k..final] else []
  }

  /** For non-negative arguments `slice` is the window [start, end) cut to the sequence. */
  lemma SliceOfNaturals<T>(s: seq<T>, start: int, end: int)
    requires 0 <= start && 0 <= end
    ensures start < Min(end, |s|) ==> Slice(s, Int(start), Int(end)) == s[start..Min(end, |s|)]
    ensures Min(end, |s|) <= start ==> Slice(s, Int(start), Int(end)) == []
  {
  }
}
