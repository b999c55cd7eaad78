/** Java's decimal rendering of an `int` (`String.valueOf`, string
    concatenation) and `Integer.parseInt`, over ASCII digits. */
module Text {
  import opened Wrappers

  const MinInt: int := -0x8000_0000
  const MaxInt: int := 0x7fff_ffff

  predicate IsInt32(n: int) {
    MinInt <= n <= MaxInt
  }

  predicate IsDigit(c: char) {
    '0' <= c <= '9'
  }

  predicate AllDigits(s: string) {
    forall i :: 0 <= i < |s| ==> IsDigit(s[i])
  }

  function DigitChar(d: int): (c: char)
    requires 0 <= d < 10
    ensures IsDigit(c)
  {
    ('0' as int + d) as char
  }

  function DigitValue(c: char): (d: int)
    requires IsDigit(c)
    ensures 0 <= d < 10 && DigitChar(d) == c
  {
    c as int - '0' as int
  }

  /** Decimal digits of `n`, most significant first, without leading zeros. */
  function NatToString(n: nat): (s: string)
    ensures 1 <= |s| && AllDigits(s)
    ensures |s| == 1 <==> n < 10
  {
    if n < 10 then [DigitChar(n)] else NatToString(n / 10) + [DigitChar(n % 10)]
  }

  /** `String.valueOf(n)`: a minus sign for negative numbers, then the digits. */
  function IntToString(n: int): string {
    if n < 0 then "-" + NatToString(-n) else NatToString(n)
  }

  /** The number a string of decimal digits denotes. */
  function DigitsValue(s: string): nat
    requires AllDigits(s)
  {
    if |s| == 0 then 0 else DigitsValue(s[..|s| - 1]) * 10 + DigitValue(s[|s| - 1])
  }

  /** `Integer.parseInt(s)`: an optional sign, then at least one digit and
      nothing else, within the 32-bit range; `None` is a NumberFormatException. */
  function ParseInt(s: string): (r: Option<int>)
    ensures r.Some? ==> IsInt32(r.value)
    ensures r.Some? ==> |s| >= 1 && (AllDigits(s) || ((s[0] == '-' || s[0] == '+') && AllDigits(s[1..])))
  {
    if |s| == 0 then None
    else
      var signed := s[0] == '-' || s[0] == '+';
      var digits := if signed then s[1..] else s;
      if |digits| == 0 || !AllDigits(digits) then None
      else
        var v: int := if s[0] == '-' then 0 - DigitsValue(digits) as int else DigitsValue(digits);
        if IsInt32(v) then Some(v) else None
  }

  /** The digits of `n` read back give `n`. */
  lemma {:induction false} DigitsOfNat(n: nat)
    ensures DigitsValue(NatToString(n)) == n
  {
    var s := NatToString(n);
    if n >= 10 {
      DigitsOfNat(n / 10);
      assert s[..|s| - 1] == NatToString(n / 10);
    }
  }

  /** Rendering then parsing a 32-bit integer gives it back. */
  lemma ParseRendered(n: int)
    requires IsInt32(n)
    ensures ParseInt(IntToString(n)) == Some(n)
  {
    var s := IntToString(n);
    if n < 0 {
      var t := NatToString(-n);
      DigitsOfNat(-n);
      assert s == "-" + t;
      assert s[1..] == t;
      assert s[0] == '-';
    } else {
      var t := NatToString(n);
      DigitsOfNat(n);
      assert s == t && s[0] != '-' && s[0] != '+';
    }
  }

  /** A rendered integer is a non-empty run of digits, possibly after a minus sign. */
  lemma RenderedShape(n: int)
    ensures |IntToString(n)| >= 1
    ensures forall i :: 0 <= i < |IntToString(n)| ==> IsDigit(IntToString(n)[i]) || (i == 0 && n < 0)
  {
  }

  /** A rendering is a single character only for 0..9, where it is that digit. */
  lemma SingleCharRendering(n: int)
    ensures |IntToString(n)| == 1 <==> 0 <= n < 10
    ensures 0 <= n < 10 ==> IntToString(n) == [DigitChar(n)]
  {
  }

  predicate IsLower(c: char) {
    'a' <= c <= 'z'
  }

  /** A rendered integer holds no letter and no space. */
  lemma RenderedPlain(n: int, c: char)
    requires c in IntToString(n)
    ensures !IsLower(c) && c != ' ' && !IsUpper(c)
  {
    RenderedShape(n);
  }

  /** No character of `s` is a lower-case letter. */
  predicate NoLower(s: string) {
    forall j :: 0 <= j < |s| ==> !IsLower(s[j])
  }

  lemma RenderedNoLower(n: int)
    ensures NoLower(IntToString(n))
  {
    RenderedShape(n);
  }

  lemma NoLowerJoin(a: string, b: string)
    requires NoLower(a) && NoLower(b)
    ensures NoLower(a + b)
  {
    forall j | 0 <= j < |a + b|
      ensures !IsLower((a + b)[j])
    {
      if j < |a| {
        assert (a + b)[j] == a[j];
      } else {
        assert (a + b)[j] == b[j - |a|];
      }
    }
  }

  predicate IsUpper(c: char) {
    'A' <= c <= 'Z'
  }

  /** No character of `s` is a capital letter. */
  predicate NoUpper(s: string) {
    forall j :: 0 <= j < |s| ==> !IsUpper(s[j])
  }

  /** `s.contains(sub)`: some window of `s` is `sub`. */
  predicate Contains(s: string, sub: string)
    decreases |s|
  {
    |sub| <= |s| && (s[..|sub|] == sub || Contains(s[1..], sub))
  }

  /** The window of `s` at `i` is `sub`, so `s` contains it. */
  lemma {:induction false} ContainsAt(s: string, sub: string, i: nat)
    requires i + |sub| <= |s| && s[i..i + |sub|] == sub
    ensures Contains(s, sub)
    decreases i
  {
    if i > 0 {
      assert s[1..][i - 1..i - 1 + |sub|] == s[i..i + |sub|];
      ContainsAt(s[1..], sub, i - 1);
    }
  }

  /** A string contains every piece it is built from. */
  lemma ContainsMiddle(a: string, b: string, c: string)
    ensures Contains(a + b + c, b)
  {
    var s := a + b + c;
    assert s[|a|..|a| + |b|] == b;
    ContainsAt(s, b, |a|);
  }

  /** A string lacking one of `sub`'s characters does not contain it. */
  lemma {:induction false} AbsentChar(s: string, sub: string, c: char)
    requires c in sub && c !in s
    ensures !Contains(s, sub)
    decreases |s|
  {
    if |sub| <= |s| {
      assert c !in s[..|sub|];
      AbsentChar(s[1..], sub, c);
    }
  }

  /** A prefix of capitals, digits and signs that ends in a space cannot
      hold the start of a word whose character `k` is lower case and that
      has no space before it: such a word lies in `s` exactly when it lies
      in the rest. */
  lemma {:induction false} ContainsAfterPlain(p: string, s: string, sub: string, k: nat)
    requires |p| > 0 && p[|p| - 1] == ' ' && NoLower(p)
    requires k < |sub| && IsLower(sub[k]) && forall j :: 0 <= j < k ==> sub[j] != ' '
    ensures Contains(p + s, sub) == Contains(s, sub)
    decreases |p|
  {
    var t := p + s;
    if |sub| <= |t| {
      if k < |p| {
        assert t[..|sub|][k] == p[k];
      } else {
        assert t[..|sub|][|p| - 1] == ' ';
      }
      assert t[..|sub|] != sub;
      assert t[1..] == p[1..] + s;
      if |p| > 1 {
        ContainsAfterPlain(p[1..], s, sub, k);
      }
    }
  }

  /** A word that starts with a capital lies in `p + s` exactly when it lies
      in `s`, if `p` holds no capital. */
  lemma {:induction false} ContainsAfterNoUpper(p: string, s: string, sub: string)
    requires NoUpper(p) && |sub| > 0 && IsUpper(sub[0])
    ensures Contains(p + s, sub) == Contains(s, sub)
    decreases |p|
  {
    var t := p + s;
    if |p| == 0 {
      assert t == s;
    } else if |sub| <= |t| {
      assert t[..|sub|][0] == p[0];
      assert t[1..] == p[1..] + s;
      ContainsAfterNoUpper(p[1..], s, sub);
    }
  }
}
