/** Text primitives shared by the domain classes: ASCII case-insensitive
    comparison (the championship's name and position matching), first-match
    lookup over a sequence of names, and the decimal rendering of integers
    used when players and teams are printed. */
module Text {

  /** ASCII lower-casing of one character; every other character is kept. */
  function LowerChar(c: char): char
  {
    if 'A' <= c <= 'Z' then (c as int - 'A' as int + 'a' as int) as char else c
  }

  function ToLower(s: string): string
  {
    seq(|s|, i requires 0 <= i < |s| => LowerChar(s[i]))
  }

  /** Case-insensitive string equality, restricted to ASCII letters. */
  predicate EqualsIgnoreCase(a: string, b: string)
  {
    ToLower(a) == ToLower(b)
  }

  /** The character-by-character reading of case-insensitive equality:
      same length, and each pair of characters agrees after lower-casing. */
  lemma EqualsIgnoreCasePointwise(a: string, b: string)
    ensures EqualsIgnoreCase(a, b) <==>
            |a| == |b| && forall i :: 0 <= i < |a| ==> LowerChar(a[i]) == LowerChar(b[i])
  {
    if EqualsIgnoreCase(a, b) {
      forall i | 0 <= i < |a| ensures LowerChar(a[i]) == LowerChar(b[i]) {
        assert ToLower(a)[i] == ToLower(b)[i];
      }
    }
    if |a| == |b| && forall i :: 0 <= i < |a| ==> LowerChar(a[i]) == LowerChar(b[i]) {
      assert forall i :: 0 <= i < |a| ==> ToLower(a)[i] == ToLower(b)[i];
    }
  }

  /** Case-insensitive equality is an equivalence relation. */
  lemma EqualsIgnoreCaseEquivalence(a: string, b: string, c: string)
    ensures EqualsIgnoreCase(a, a)
    ensures EqualsIgnoreCase(a, b) ==> EqualsIgnoreCase(b, a)
    ensures EqualsIgnoreCase(a, b) && EqualsIgnoreCase(b, c) ==> EqualsIgnoreCase(a, c)
  {
  }

  /** No name in `names` matches `n`, ignoring case. */
  predicate NoMatch(names: seq<string>, n: string)
  {
    forall k :: 0 <= k < |names| ==> !EqualsIgnoreCase(names[k], n)
  }

  /** `i` is the lowest index whose name matches `n`, ignoring case. */
  predicate FirstMatchAt(names: seq<string>, n: string, i: int)
  {
    0 <= i < |names| && EqualsIgnoreCase(names[i], n) && NoMatch(names[..i], n)
  }

  /** At most one index is the first match. */
  lemma FirstMatchUnique(names: seq<string>, n: string, i: int, j: int)
    requires FirstMatchAt(names, n, i) && FirstMatchAt(names, n, j)
    ensures i == j
  {
  }

  /** A first match exists exactly when some entry matches. */
  lemma {:induction false} FirstMatchExists(names: seq<string>, n: string)
    ensures !NoMatch(names, n) <==> exists i :: FirstMatchAt(names, n, i)
    decreases |names|
  {
    if exists i :: FirstMatchAt(names, n, i) {
      var i :| FirstMatchAt(names, n, i);
      assert EqualsIgnoreCase(names[i], n);
    } else if !NoMatch(names, n) {
      var k :| 0 <= k < |names| && EqualsIgnoreCase(names[k], n);
      FirstMatchExists(names[..k], n);
      if NoMatch(names[..k], n) {
        assert FirstMatchAt(names, n, k);
      } else {
        var i :| FirstMatchAt(names[..k], n, i);
        assert names[..k][..i] == names[..i];
        assert FirstMatchAt(names, n, i);
      }
    }
  }

  // Decimal rendering, as Java's "%d" writes an int.

  predicate IsDigits(s: string)
  {
    forall i :: 0 <= i < |s| ==> '0' <= s[i] <= '9'
  }

  function DigitChar(d: nat): char
    requires d < 10
  {
    ('0' as int + d) as char
  }

  /** The shortest decimal numeral of `n`: at least one digit, and a leading
      zero only for zero itself. */
  function NatToDecimal(n: nat): (r: string)
    ensures |r| >= 1 && IsDigits(r)
    ensures r[0] == '0' <==> n == 0
    decreases n
  {
    if n < 10 then [DigitChar(n)] else NatToDecimal(n / 10) + [DigitChar(n % 10)]
  }

  function IntToDecimal(n: int): string
  {
    if n < 0 then ['-'] + NatToDecimal(-n) else NatToDecimal(n)
  }

  /** A numeral as "%d" produces it: an optional minus sign, then digits. */
  predicate IsIntLiteral(s: string)
  {
    if |s| > 0 && s[0] == '-' then |s| > 1 && IsDigits(s[1..]) else |s| > 0 && IsDigits(s)
  }

  function DigitsValue(s: string): nat
    requires IsDigits(s)
  {
    if s == [] then 0 else 10 * DigitsValue(s[..|s| - 1]) + (s[|s| - 1] as int - '0' as int)
  }

  /** The value a numeral denotes; the reference reading of IntToDecimal. */
  function DecimalValue(s: string): int
    requires IsIntLiteral(s)
  {
    if s[0] == '-' then -(DigitsValue(s[1..]) as int) else DigitsValue(s)
  }

  lemma {:induction false} NatToDecimalValue(n: nat)
    ensures DigitsValue(NatToDecimal(n)) == n
    decreases n
  {
    if n >= 10 {
      NatToDecimalValue(n / 10);
      var r := NatToDecimal(n);
      assert r[..|r| - 1] == NatToDecimal(n / 10);
    }
  }

  /** Rendering an integer and reading it back gives the same integer, so the
      numbers printed for players and teams are unambiguous. */
  lemma {:induction false} DecimalRoundTrip(n: int)
    ensures IsIntLiteral(IntToDecimal(n))
    ensures DecimalValue(IntToDecimal(n)) == n
  {
    if n < 0 {
      NatToDecimalValue(-n);
      assert IntToDecimal(n)[1..] == NatToDecimal(-n);
    } else {
      NatToDecimalValue(n);
    }
  }
}
