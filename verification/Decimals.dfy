/** Decimal numerals and their zero-padded form. */
module Decimals {

  function DigitChar(d: nat): char
    requires d < 10
  {
    ('0' as int + d) as char
  }

  function Decimal(n: nat): (s: string)
    ensures s != "" && forall c <- s :: '0' <= c <= '9'
  {
    if n < 10 then [DigitChar(n)] else Decimal(n / 10) + [DigitChar(n % 10)]
  }

  /** Padded with zeros to three digits; longer numerals stay as they are. */
  function Pad3(n: nat): (s: string)
    ensures |s| >= 3 && forall c <- s :: '0' <= c <= '9'
  {
    var d := Decimal(n);
    if |d| == 1 then "00" + d else if |d| == 2 then "0" + d else d
  }

  ghost function ValueOf(s: string): int
  {
    if s == "" then 0 else 10 * ValueOf(s[..|s| - 1]) + (s[|s| - 1] as int - '0' as int)
  }

  lemma {:induction false} ValueOfDecimal(n: nat)
    ensures ValueOf(Decimal(n)) == n
  {
    var s := Decimal(n);
    if n < 10 {
      assert ValueOf(s[..0]) == 0;
    } else {
      ValueOfDecimal(n / 10);
      assert s[..|s| - 1] == Decimal(n / 10);
    }
  }

  lemma {:induction false} LeadingZero(s: string)
    ensures ValueOf("0" + s) == ValueOf(s)
    decreases |s|
  {
    var t := "0" + s;
    if s == "" {
      assert ValueOf(t[..0]) == 0;
    } else {
      assert t[..|t| - 1] == "0" + s[..|s| - 1];
      LeadingZero(s[..|s| - 1]);
    }
  }

  lemma ValueOfPad3(n: nat)
    ensures ValueOf(Pad3(n)) == n
  {
    var d := Decimal(n);
    ValueOfDecimal(n);
    LeadingZero(d);
    LeadingZero("0" + d);
    assert "0" + ("0" + d) == "00" + d;
  }

  lemma NoDashIn(s: string, p: nat, a: string)
    requires p + |a| <= |s| && s[p..p + |a|] == a && '-' !in a
    ensures forall k :: p <= k < p + |a| ==> s[k] != '-'
  {
  }

  /** A padded numeral has no dash and tells its number. */
  lemma Pad3IsDashFree(n: nat)
    ensures '-' !in Pad3(n) && ValueOf(Pad3(n)) == n
  {
    ValueOfPad3(n);
  }

  /** After the same prefix, the stretch up to the first dash is determined by the text, whatever comes next. */
  lemma DashSeparates(prefix: string, a: string, b: string, x: string, y: string)
    requires '-' !in a && '-' !in b
    requires prefix + a + "-" + x == prefix + b + "-" + y
    ensures a == b
  {
    var s := prefix + a + "-" + x;
    var p := |prefix|;
    assert s == prefix + b + "-" + y;
    assert s[p..p + |a|] == a && s[p..p + |b|] == b;
    NoDashIn(s, p, a);
    NoDashIn(s, p, b);
    assert s[p + |a|] == '-' && s[p + |b|] == '-';
  }
}
