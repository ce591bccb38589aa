/** String helpers the source gets from PHP: `strpos(...) !== false` and integer interpolation. */
module Text {

  /** `t` occurs in `s` starting at index `i`. */
  ghost predicate OccursAt(s: string, t: string, i: int) {
    0 <= i && i + |t| <= |s| && s[i..i + |t|] == t
  }

  /** Substring test, as `strpos($s, $t) !== false`: `t` is a prefix of some suffix of `s`. */
  function Contains(s: string, t: string): bool {
    if t <= s then true
    else if s == [] then false
    else Contains(s[1..], t)
  }

  /** `Contains` agrees with the occurrence definition of a substring. */
  lemma {:induction false} ContainsIff(s: string, t: string)
    ensures Contains(s, t) <==> exists i :: OccursAt(s, t, i)
  {
    if t <= s {
      assert OccursAt(s, t, 0);
    } else if s != [] {
      ContainsIff(s[1..], t);
      if exists i :: OccursAt(s, t, i) {
        var i :| OccursAt(s, t, i);
        assert s[1..][i - 1..i - 1 + |t|] == s[i..i + |t|];
        assert OccursAt(s[1..], t, i - 1);
      }
      if exists i :: OccursAt(s[1..], t, i) {
        var i :| OccursAt(s[1..], t, i);
        assert s[1..][i..i + |t|] == s[i + 1..i + 1 + |t|];
        assert OccursAt(s, t, i + 1);
      }
    }
  }

  /** The decimal digit for `d`. */
  function Digit(d: nat): char
    requires d < 10
  {
    "0123456789"[d]
  }

  /** The value of a decimal digit character, or -1 for any other character. */
  function DigitValue(c: char): int {
    if '0' <= c <= '9' then c as int - '0' as int else -1
  }

  /** Decimal rendering of a natural number, as PHP interpolates an integer into a string. */
  function DecimalText(n: nat): string {
    if n < 10 then [Digit(n)] else DecimalText(n / 10) + [Digit(n % 10)]
  }

  /** Reads a string of decimal digits back as a number. */
  function DecimalValue(s: string): int {
    if s == [] then 0 else DecimalValue(s[..|s| - 1]) * 10 + DigitValue(s[|s| - 1])
  }

  /** Decimal rendering is non-empty, uses only digits and reads back as the same number. */
  lemma {:induction false} DecimalRoundTrip(n: nat)
    ensures |DecimalText(n)| > 0
    ensures forall k :: 0 <= k < |DecimalText(n)| ==> '0' <= DecimalText(n)[k] <= '9'
    ensures DecimalValue(DecimalText(n)) == n
  {
    var s := DecimalText(n);
    if n >= 10 {
      DecimalRoundTrip(n / 10);
      var p := DecimalText(n / 10);
      assert s == p + [Digit(n % 10)];
      assert s[..|s| - 1] == p;
    }
  }
}
