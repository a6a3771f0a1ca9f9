/** The operations on Python `str` values that the script uses, on ASCII text. */
module PyStrings {

  function Min(a: int, b: int): int { if a <= b then a else b }

  function Max(a: int, b: int): int { if a <= b then b else a }

  /** `s.endswith(suffix)` */
  predicate EndsWith(s: string, suffix: string) {
    |suffix| <= |s| && s[|s| - |suffix|..] == suffix
  }

  /** `s.find(c)`: the index of the first `c` in `s`, or -1 when there is none. */
  function Find(s: string, c: char): (r: int)
    ensures r == -1 <==> c !in s
    ensures r != -1 ==> 0 <= r < |s| && s[r] == c && c !in s[..r]
  {
    if s == [] then -1
    else if s[0] == c then 0
    else
      var k := Find(s[1..], c);
      if k == -1 then -1
      else
        assert s[..k + 1] == [s[0]] + s[1..][..k];
        k + 1
  }

  /** `s.rfind(c)`: the index of the last `c` in `s`, or -1 when there is none. */
  function RFind(s: string, c: char): (r: int)
    ensures r == -1 <==> c !in s
    ensures r != -1 ==> 0 <= r < |s| && s[r] == c && c !in s[r + 1..]
  {
    if s == [] then -1
    else if s[|s| - 1] == c then |s| - 1
    else
      var k := RFind(s[..|s| - 1], c);
      assert s == s[..|s| - 1] + [s[|s| - 1]];
      assert k != -1 ==> s[k + 1..] == s[..|s| - 1][k + 1..] + [s[|s| - 1]];
      k
  }

  /** `s[i:j]` for non-negative bounds: out-of-range bounds are clipped, never an error. */
  function Slice(s: string, i: nat, j: nat): (r: string)
    ensures |r| == Max(0, Min(j, |s|) - i)
    ensures forall k :: 0 <= k < |r| ==> r[k] == s[i + k]
  {
    var lo := Min(i, |s|);
    var hi := Min(j, |s|);
    if lo <= hi then s[lo..hi] else []
  }

  /** `s[-n:]` for n > 0 */
  function LastChars(s: string, n: nat): string
  {
    s[|s| - Min(n, |s|)..]
  }

  /** `s[:-n]` for n > 0 */
  function DropLast(s: string, n: nat): string
  {
    s[..|s| - Min(n, |s|)]
  }

  lemma LastCharsIsSuffix(s: string, suffix: string)
    requires |suffix| > 0
    ensures LastChars(s, |suffix|) == suffix <==> EndsWith(s, suffix)
  {
  }

  /** `s.replace(c, "")`: every occurrence of `c` removed, the rest kept in order. */
  function Remove(s: string, c: char): (r: string)
    ensures c !in r
    ensures c !in s ==> r == s
    ensures forall x :: x != c ==> (x in r <==> x in s)
  {
    if s == [] then []
    else
      assert s == [s[0]] + s[1..];
      (if s[0] == c then [] else [s[0]]) + Remove(s[1..], c)
  }

  /**
   * `replace` works piecewise: removing from a concatenation is removing from
   * each part. With `Remove([x], c)` being `[]` or `[x]`, this fixes the order
   * and the count of the characters kept.
   */
  lemma {:induction false} RemoveAppend(a: string, b: string, c: char)
    ensures Remove(a + b, c) == Remove(a, c) + Remove(b, c)
    ensures Remove([c], c) == [] && forall x :: x != c ==> Remove([x], c) == [x]
    decreases |a|
  {
    RemoveSingle(c);
    if a != [] {
      var ab := a + b;
      assert ab[0] == a[0] && ab[1..] == a[1..] + b;
      var head := if a[0] == c then [] else [a[0]];
      RemoveAppend(a[1..], b, c);
      calc {
        Remove(ab, c);
        head + Remove(a[1..] + b, c);
        head + (Remove(a[1..], c) + Remove(b, c));
        (head + Remove(a[1..], c)) + Remove(b, c);
        Remove(a, c) + Remove(b, c);
      }
    } else {
      assert a + b == b;
    }
  }

  /** A lone `c` is removed; any other lone character stays. */
  lemma RemoveSingle(c: char)
    ensures Remove([c], c) == [] && forall x :: x != c ==> Remove([x], c) == [x]
  {
  }

  predicate IsDigit(c: char) {
    '0' <= c <= '9'
  }

  predicate AllDigits(s: string) {
    forall i :: 0 <= i < |s| ==> IsDigit(s[i])
  }

  function DigitValue(c: char): int
    requires IsDigit(c)
  {
    c as int - '0' as int
  }

  function DigitChar(d: int): (c: char)
    requires 0 <= d < 10
    ensures IsDigit(c) && DigitValue(c) == d
  {
    ('0' as int + d) as char
  }

  function Pow10(n: nat): (r: nat)
    ensures r > 0
  {
    if n == 0 then 1 else 10 * Pow10(n - 1)
  }

  /** The value of a string of ASCII decimal digits, as `int` reads it. */
  function DecimalValue(s: string): (r: nat)
    requires AllDigits(s)
    ensures r < Pow10(|s|)
  {
    if s == [] then 0 else 10 * DecimalValue(s[..|s| - 1]) + DigitValue(s[|s| - 1])
  }

  /** `n` written with exactly `width` decimal digits, zero-padded on the left. */
  function Pad(n: nat, width: nat): (r: string)
    ensures |r| == width && AllDigits(r)
  {
    if width == 0 then [] else Pad(n / 10, width - 1) + [DigitChar(n % 10)]
  }

  lemma {:induction false} DecimalValueOfPad(n: nat, width: nat)
    requires n < Pow10(width)
    ensures DecimalValue(Pad(n, width)) == n
  {
    if width > 0 {
      var p := Pad(n, width);
      assert p[..|p| - 1] == Pad(n / 10, width - 1);
      DecimalValueOfPad(n / 10, width - 1);
    }
  }

  lemma {:induction false} PadOfDecimalValue(s: string)
    requires AllDigits(s)
    ensures Pad(DecimalValue(s), |s|) == s
  {
    if s != [] {
      var init := s[..|s| - 1];
      var v := DecimalValue(init);
      var d := DigitValue(s[|s| - 1]);
      assert (10 * v + d) / 10 == v && (10 * v + d) % 10 == d;
      PadOfDecimalValue(init);
      assert DigitChar(d) == s[|s| - 1];
      assert s == init + [s[|s| - 1]];
    }
  }
}
