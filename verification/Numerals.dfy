/** str(n) and int(text) of Python, for ASCII digits. */
module Numerals {
  import opened Basics
  import opened Text

  predicate IsDigit(c: char) {
    '0' <= c <= '9'
  }

  function NatText(n: nat): string {
    var last := [('0' as int + n % 10) as char];
    if n < 10 then last else NatText(n / 10) + last
  }

  /** str(n). */
  function IntText(n: int): string {
    if n < 0 then "-" + NatText(-n) else NatText(n)
  }

  /** Digits with single underscores between them. */
  predicate IsNumeral(s: string) {
    && s != "" && IsDigit(s[0]) && IsDigit(s[|s| - 1])
    && (forall c :: c in s ==> IsDigit(c) || c == '_')
    && (forall i :: 0 < i < |s| && s[i] == '_' ==> s[i - 1] != '_')
  }

  function Value(s: string): nat
    requires forall c :: c in s ==> IsDigit(c) || c == '_'
  {
    if s == "" then 0
    else
      var n := |s| - 1;
      if s[n] == '_' then Value(s[..n])
      else
        assert s[n] in s && IsDigit(s[n]);
        var digit: nat := s[n] as int - '0' as int;
        Value(s[..n]) * 10 + digit
  }

  /** int(text), None where it raises ValueError. */
  function ParseInt(text: string): Option<int> {
    var s := Strip(text);
    var signed := s != "" && s[0] in {'-', '+'};
    var digits := if signed then s[1..] else s;
    if !IsNumeral(digits) then None
    else
      var n: int := Value(digits);
      Some(if signed && s[0] == '-' then -n else n)
  }

  lemma {:induction false} NatTextIs(n: nat)
    ensures forall c :: c in NatText(n) ==> IsDigit(c)
    ensures NatText(n) != "" && IsNumeral(NatText(n)) && Value(NatText(n)) == n
  {
    var last := [('0' as int + n % 10) as char];
    if n >= 10 {
      NatTextIs(n / 10);
      var s := NatText(n / 10) + last;
      assert s[..|s| - 1] == NatText(n / 10);
    } else {
      assert last[..0] == "";
    }
  }

  lemma NumeralParses(s: string)
    requires IsNumeral(s)
    ensures ParseInt(s) == Some(Value(s))
  {
    StripTrims(s);
  }

  lemma NegativeParses(s: string)
    requires IsNumeral(s)
    ensures ParseInt("-" + s) == Some(-(Value(s) as int))
  {
    var t := "-" + s;
    StripTrims(t);
    assert !IsSpace(t[0]) && !IsSpace(t[|t| - 1]);
    assert t[1..] == s;
  }

  /** Printing a number and reading it back gives the number. */
  lemma IntRoundTrip(n: int)
    ensures ParseInt(IntText(n)) == Some(n)
  {
    var m := if n < 0 then -n else n;
    NatTextIs(m);
    NumeralParses(NatText(m));
    NegativeParses(NatText(m));
  }

  /** The text of a number is its decimal one: the digits one by one, no leading zero, a minus sign in front. */
  lemma DecimalIs(n: int, d: nat)
    requires n > 0 && d < 10
    ensures IntText(d) == ["0123456789"[d]]
    ensures IntText(10 * n + d) == IntText(n) + ["0123456789"[d]]
    ensures IntText(-n) == "-" + IntText(n)
  {
    assert "0123456789"[d] as int == '0' as int + d;
    assert (10 * n + d) / 10 == n && (10 * n + d) % 10 == d;
  }

  /** Reading is in base ten; a single underscore may stand between digits. */
  lemma ValueIs(s: string, d: nat)
    requires IsNumeral(s) && d < 10
    ensures var c := "0123456789"[d];
      && IsNumeral([c]) && Value([c]) == d
      && IsNumeral(s + [c]) && Value(s + [c]) == 10 * Value(s) + d
      && IsNumeral(s + ['_', c]) && Value(s + ['_', c]) == 10 * Value(s) + d
  {
    var c := "0123456789"[d];
    assert c as int == '0' as int + d;
    assert [c][..0] == "";
    NumeralGrows(s, c);
    assert (s + [c])[..|s|] == s;
    var t := s + ['_', c];
    assert t[..|s| + 1] == s + ['_'] && (s + ['_'])[..|s|] == s;
  }

  lemma NumeralGrows(s: string, c: char)
    requires IsNumeral(s) && IsDigit(c)
    ensures IsNumeral(s + [c]) && IsNumeral(s + ['_', c])
  {
    var t := s + ['_', c];
    forall i | 0 < i < |t| && t[i] == '_'
      ensures t[i - 1] != '_'
    {
      assert t[i - 1] == s[i - 1];
    }
  }

  /** A sign may stand in front of a numeral. */
  lemma SignsParse(s: string)
    requires IsNumeral(s)
    ensures ParseInt("+" + s) == Some(Value(s)) && ParseInt("-" + s) == Some(-(Value(s) as int))
  {
    NegativeParses(s);
    PositiveParses(s);
  }

  lemma PositiveParses(s: string)
    requires IsNumeral(s)
    ensures ParseInt("+" + s) == Some(Value(s))
  {
    var t := "+" + s;
    StripTrims(t);
    assert !IsSpace(t[0]) && !IsSpace(t[|t| - 1]);
    assert t[1..] == s;
  }
}
