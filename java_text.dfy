/**
 * The pieces of the Java library the model relies on: 32-bit `int`,
 * `Integer.parseInt` / `Integer.valueOf(String)`, `Integer.toString` and
 * `String.trim`.
 */
module JavaText {
  import opened Wrappers

  const INT_MIN: int := -0x8000_0000
  const INT_MAX: int := 0x7FFF_FFFF

  /** A Java `int`. */
  type Int32 = x: int | INT_MIN <= x <= INT_MAX

  predicate IsDigit(c: char) { '0' <= c <= '9' }

  predicate AllDigits(s: string) {
    forall i :: 0 <= i < |s| ==> IsDigit(s[i])
  }

  function DigitChar(d: nat): (c: char)
    requires d < 10
    ensures IsDigit(c) && c as int - '0' as int == d
  {
    ('0' as int + d) as char
  }

  /** The number a string of decimal digits denotes, most significant digit first. */
  function DigitsValue(s: string): nat
    requires AllDigits(s)
  {
    if s == [] then 0
    else 10 * DigitsValue(s[..|s| - 1]) + (s[|s| - 1] as int - '0' as int)
  }

  /** The decimal digits of `n` without leading zeros. */
  function Digits(n: nat): (s: string)
    ensures 1 <= |s| && AllDigits(s)
    ensures DigitsValue(s) == n
    ensures n == 0 || s[0] != '0'
    decreases n
  {
    if n < 10 then [DigitChar(n)]
    else
      var front := Digits(n / 10);
      var s := front + [DigitChar(n % 10)];
      assert s[..|s| - 1] == front;
      assert s[0] == front[0];
      s
  }

  /** `Integer.toString(n)`: an optional minus sign, then the digits. */
  function ToString(n: Int32): (s: string)
    ensures 1 <= |s|
  {
    if n < 0 then ['-'] + Digits(-(n as int)) else Digits(n)
  }

  /**
   * `Integer.parseInt(s)`, with `None` where Java throws NumberFormatException:
   * an optional `+` or `-`, then at least one ASCII digit, and the value must
   * fit in an `int`. No surrounding whitespace is accepted.
   */
  function ParseInt(s: string): Option<Int32> {
    if s == [] then None
    else
      var negative := s[0] == '-';
      var body := if s[0] == '-' || s[0] == '+' then s[1..] else s;
      if body == [] || !AllDigits(body) then None
      else
        var v: int := if negative then -(DigitsValue(body) as int) else DigitsValue(body);
        if INT_MIN <= v <= INT_MAX then Some(v) else None
  }

  /** Parsing what `Integer.toString` prints gives the number back. */
  lemma ParseIntToString(n: Int32)
    ensures ParseInt(ToString(n)) == Some(n)
  {
    var digits := if n < 0 then Digits(-(n as int)) else Digits(n);
    if n < 0 {
      assert (['-'] + digits)[1..] == digits;
    } else {
      assert IsDigit(digits[0]);
    }
  }

  /** The characters `String.trim()` removes from both ends: every char up to U+0020. */
  predicate IsTrimChar(c: char) { c <= ' ' }

  /** True of a text that `String.trim()` turns into the empty string. */
  predicate IsBlank(s: string) {
    forall i :: 0 <= i < |s| ==> IsTrimChar(s[i])
  }

  /** The first index at or after `i` that does not hold a trim character (`st` in `trim()`). */
  function TrimFrom(s: string, i: nat): (st: nat)
    requires i <= |s|
    ensures i <= st <= |s|
    ensures forall k :: i <= k < st ==> IsTrimChar(s[k])
    ensures st == |s| || !IsTrimChar(s[st])
    decreases |s| - i
  {
    if i < |s| && IsTrimChar(s[i]) then TrimFrom(s, i + 1) else i
  }

  /** The end left once trailing trim characters before `len` are dropped, never below `st`. */
  function TrimTo(s: string, st: nat, len: nat): (end: nat)
    requires st <= len <= |s|
    ensures st <= end <= len
    ensures forall k :: end <= k < len ==> IsTrimChar(s[k])
    ensures end == st || !IsTrimChar(s[end - 1])
    decreases len
  {
    if st < len && IsTrimChar(s[len - 1]) then TrimTo(s, st, len - 1) else len
  }

  /** Every character of `s` before index `i` or from index `j` on is a trim character. */
  predicate BlankOutside(s: string, i: int, j: int) {
    forall k :: 0 <= k < |s| && !(i <= k < j) ==> IsTrimChar(s[k])
  }

  /** `String.trim()`: `s` without the characters up to U+0020 at both ends. */
  function Trim(s: string): (r: string)
    ensures exists i, j :: 0 <= i <= j <= |s| && r == s[i..j] && BlankOutside(s, i, j)
    ensures r == [] || (!IsTrimChar(r[0]) && !IsTrimChar(r[|r| - 1]))
    ensures r == [] <==> IsBlank(s)
  {
    var st := TrimFrom(s, 0);
    var end := TrimTo(s, st, |s|);
    assert BlankOutside(s, st, end);
    s[st..end]
  }

  /** Trimming twice is trimming once. */
  lemma TrimIdempotent(s: string)
    ensures Trim(Trim(s)) == Trim(s)
  {
    var r := Trim(s);
    assert TrimFrom(r, 0) == 0;
    assert TrimTo(r, 0, |r|) == |r|;
  }

  /** What `Integer.toString` prints has nothing for `trim()` to remove. */
  lemma TrimToString(n: Int32)
    ensures Trim(ToString(n)) == ToString(n)
  {
    var s := ToString(n);
    var digits := if n < 0 then Digits(-(n as int)) else Digits(n);
    assert IsDigit(digits[0]) && IsDigit(digits[|digits| - 1]);
    assert !IsTrimChar(s[0]) && !IsTrimChar(s[|s| - 1]);
    assert TrimFrom(s, 0) == 0;
    assert TrimTo(s, 0, |s|) == |s|;
  }
}
