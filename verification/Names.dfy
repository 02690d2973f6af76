/** Decimal numerals, underscore-separated names and paths joined from parts. */
module Names {
  function Digits(n: nat): string {
    if n < 10 then [Digit(n)] else Digits(n / 10) + [Digit(n % 10)]
  }

  function Digit(d: nat): char
    requires d < 10
  {
    ('0' as int + d) as char
  }

  /** Numerals are not empty and consist of digits. */
  lemma {:induction false} DigitsPlain(n: nat)
    ensures Digits(n) != "" && forall i :: 0 <= i < |Digits(n)| ==> '0' <= Digits(n)[i] <= '9'
  {
    if n >= 10 {
      DigitsPlain(n / 10);
    }
  }

  lemma {:induction false} DigitsInjective(m: nat, n: nat)
    requires Digits(m) == Digits(n)
    ensures m == n
  {
    DigitsPlain(m / 10);
    DigitsPlain(n / 10);
    var x := Digits(m);
    assert x[|x| - 1] == Digit(m % 10) && x[|x| - 1] == Digit(n % 10);
    if m >= 10 && n >= 10 {
      assert x[..|x| - 1] == Digits(m / 10) == Digits(n / 10);
      DigitsInjective(m / 10, n / 10);
    }
  }

  /** The value of a numeral, most significant digit first. */
  function Numeral(s: string): int {
    if s == "" then 0 else 10 * Numeral(s[..|s| - 1]) + (s[|s| - 1] as int - '0' as int)
  }

  lemma {:induction false} DigitsValue(n: nat)
    ensures Numeral(Digits(n)) == n
  {
    var s := Digits(n);
    if n < 10 {
      assert s[..|s| - 1] == "";
    } else {
      DigitsValue(n / 10);
      assert s[..|s| - 1] == Digits(n / 10);
    }
  }

  predicate NoUnderscore(s: string) {
    forall i :: 0 <= i < |s| ==> s[i] != '_'
  }

  lemma UnderscoreAtMost(a: string, x: string, b: string, y: string)
    requires a + "_" + x == b + "_" + y && NoUnderscore(x)
    ensures |b| <= |a|
  {
    var s := a + "_" + x;
    assert forall i :: |a| < i < |s| ==> s[i] == x[i - |a| - 1];
    assert s == b + "_" + y && s[|b|] == '_';
  }

  /** A name splits at its last underscore in one way. */
  lemma LastUnderscore(a: string, x: string, b: string, y: string)
    requires a + "_" + x == b + "_" + y && NoUnderscore(x) && NoUnderscore(y)
    ensures a == b && x == y
  {
    UnderscoreAtMost(a, x, b, y);
    UnderscoreAtMost(b, y, a, x);
    var s := a + "_" + x;
    assert a == s[..|a|] && b == s[..|b|];
    assert x == s[|a| + 1..] && y == s[|b| + 1..];
  }

  /** os.path.join of two parts. */
  function Join(a: string, b: string): string {
    if b != "" && b[0] == '/' then b
    else if a == "" || a[|a| - 1] == '/' then a + b
    else a + "/" + b
  }
}
