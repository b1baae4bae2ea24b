/**
 * Amounts as bank statements print them: dot for thousands, comma for decimals ("1.234,56").
 * The import rewrites such a string into Python's float syntax and parses it.
 */
module Amounts {
  import opened Base

  /** `.str.replace(".", "", regex=False).str.replace(",", ".", regex=False)`. */
  function Rewrite(s: string): (r: string)
    ensures forall i | 0 <= i < |r| :: r[i] != ','
    ensures |r| <= |s|
  {
    if s == [] then []
    else (if s[0] == '.' then "" else if s[0] == ',' then "." else [s[0]]) + Rewrite(s[1..])
  }

  predicate AllDigits(s: string)
  {
    forall i | 0 <= i < |s| :: '0' <= s[i] <= '9'
  }

  function DigitChar(d: nat): (c: char)
    requires d < 10
    ensures '0' <= c <= '9' && c as int - '0' as int == d
  {
    ('0' as int + d) as char
  }

  /** The number a string of decimal digits spells (0 for the empty string). */
  function NatValue(ds: string): nat
    requires AllDigits(ds)
  {
    if ds == [] then 0 else NatValue(ds[..|ds| - 1]) * 10 + (ds[|ds| - 1] as int - '0' as int)
  }

  function Pow10(n: nat): (r: nat)
    ensures r >= 1
  {
    if n == 0 then 1 else 10 * Pow10(n - 1)
  }

  /** `s` cut at its first `.`: what comes before and what comes after (all of `s` and "" when there is none). */
  function SplitAtDot(s: string): (string, string)
  {
    if s == [] then ("", "")
    else if s[0] == '.' then ("", s[1..])
    else var (ip, fp) := SplitAtDot(s[1..]); ([s[0]] + ip, fp)
  }

  /** Python's `float()` on an unsigned decimal: digits, then optionally `.` and more digits, at least one digit in all. */
  function ParseUnsigned(s: string): Option<real>
  {
    var (ip, fp) := SplitAtDot(s);
    if |ip| + |fp| == 0 || !AllDigits(ip) || !AllDigits(fp) then None
    else Some(DecimalValue(ip, fp))
  }

  /** The value of `ip.fp`: the whole part plus the fraction scaled by its length. */
  function DecimalValue(ip: string, fp: string): real
    requires AllDigits(ip) && AllDigits(fp)
  {
    NatValue(ip) as real + NatValue(fp) as real / Pow10(|fp|) as real
  }

  /** Python's `float()` on a decimal with an optional sign; `None` where Python raises `ValueError`. */
  function ParseFloat(s: string): Option<real>
  {
    if |s| > 0 && (s[0] == '-' || s[0] == '+') then
      match ParseUnsigned(s[1..])
      case None => None
      case Some(v) => Some(if s[0] == '-' then -v else v)
    else ParseUnsigned(s)
  }

  /** The amount of one statement cell: rewritten, then parsed. */
  function ParseAmount(s: string): Option<real>
  {
    ParseFloat(Rewrite(s))
  }

  /** The decimal digits of `n`, most significant first, without leading zeros. */
  function NatDigits(n: nat): (r: string)
    ensures |r| > 0 && AllDigits(r)
  {
    if n < 10 then [DigitChar(n)] else NatDigits(n / 10) + [DigitChar(n % 10)]
  }

  /** Digits split into groups of three from the right, joined by `.`. */
  function GroupThousands(ds: string): string
  {
    if |ds| <= 3 then ds else GroupThousands(ds[..|ds| - 3]) + "." + ds[|ds| - 3..]
  }

  /** How a statement prints an amount of `cents` hundredths: sign, grouped units, comma, two decimals. */
  function FormatBR(cents: int): string
  {
    var m := if cents < 0 then -cents else cents;
    (if cents < 0 then "-" else "") + GroupThousands(NatDigits(m / 100)) + "," + CentsDigits(m)
  }

  /** The two decimals of an amount of `m` hundredths. */
  function CentsDigits(m: nat): (r: string)
    ensures |r| == 2 && AllDigits(r)
  {
    [DigitChar(m % 100 / 10), DigitChar(m % 10)]
  }

  lemma {:induction false} RewriteAppend(a: string, b: string)
    ensures Rewrite(a + b) == Rewrite(a) + Rewrite(b)
  {
    if a == [] {
      assert a + b == b;
    } else {
      assert (a + b)[0] == a[0] && (a + b)[1..] == a[1..] + b;
      RewriteAppend(a[1..], b);
    }
  }

  lemma {:induction false} RewriteDigits(ds: string)
    requires AllDigits(ds)
    ensures Rewrite(ds) == ds
  {
    if ds != [] {
      RewriteDigits(ds[1..]);
    }
  }

  /** Deleting the dots undoes the thousands grouping. */
  lemma {:induction false} RewriteGrouped(ds: string)
    requires AllDigits(ds)
    ensures Rewrite(GroupThousands(ds)) == ds
  {
    if |ds| <= 3 {
      RewriteDigits(ds);
    } else {
      var hi, lo := ds[..|ds| - 3], ds[|ds| - 3..];
      RewriteAppend(GroupThousands(hi) + ".", lo);
      RewriteAppend(GroupThousands(hi), ".");
      RewriteGrouped(hi);
      RewriteDigits(lo);
      assert hi + lo == ds;
    }
  }

  lemma {:induction false} NatDigitsValue(n: nat)
    ensures NatValue(NatDigits(n)) == n
  {
    if n >= 10 {
      var ds := NatDigits(n);
      assert ds[..|ds| - 1] == NatDigits(n / 10);
      NatDigitsValue(n / 10);
    }
  }

  /** Cutting digits, a point and more digits at the first point gives the two digit strings back. */
  lemma {:induction false} SplitPoint(ip: string, fp: string)
    requires AllDigits(ip)
    ensures SplitAtDot(ip + "." + fp) == (ip, fp)
  {
    if ip == [] {
      assert ip + "." + fp == "." + fp;
    } else {
      assert (ip + "." + fp)[1..] == ip[1..] + "." + fp;
      SplitPoint(ip[1..], fp);
      assert [ip[0]] + ip[1..] == ip;
    }
  }

  /** Digits, a point, digits: the whole part plus the fraction scaled by its length. */
  lemma ParseUnsignedPoint(ip: string, fp: string)
    requires AllDigits(ip) && AllDigits(fp) && |ip| > 0
    ensures ParseUnsigned(ip + "." + fp) == Some(DecimalValue(ip, fp))
  {
    SplitPoint(ip, fp);
  }

  lemma TwoDigitsValue(r: nat)
    requires r < 100
    ensures NatValue([DigitChar(r / 10), DigitChar(r % 10)]) == r
  {
    var a, b := DigitChar(r / 10), DigitChar(r % 10);
    var fp := [a, b];
    assert fp[..1] == [a];
    assert NatValue([a]) == r / 10 by {
      assert [a][..0] == [];
    }
    assert NatValue(fp) == (r / 10) * 10 + r % 10;
  }

  /** The unsigned part of a formatted amount parses back to its value. */
  lemma UnsignedRoundTrip(m: nat)
    ensures ParseUnsigned(NatDigits(m / 100) + "." + CentsDigits(m)) == Some(m as real / 100.0)
  {
    var q, r := m / 100, m % 100;
    assert r / 10 == m % 100 / 10;
    assert r % 10 == m % 10;
    ParseUnsignedPoint(NatDigits(q), [DigitChar(r / 10), DigitChar(r % 10)]);
    NatDigitsValue(q);
    TwoDigitsValue(r);
    assert Pow10(2) == 100;
    assert DecimalValue(NatDigits(q), [DigitChar(r / 10), DigitChar(r % 10)]) == q as real + r as real / 100.0;
    assert m == 100 * q + r;
    assert q as real + r as real / 100.0 == m as real / 100.0;
  }

  lemma RewriteParts(sign: string, g: string, fp: string)
    ensures Rewrite(sign + g + "," + fp) == Rewrite(sign) + Rewrite(g) + "." + Rewrite(fp)
  {
    RewriteAppend(sign + g + ",", fp);
    RewriteAppend(sign + g, ",");
    RewriteAppend(sign, g);
    assert Rewrite(",") == ".";
  }

  /** Deleting the dots and turning the comma into a point leaves sign, units, point, decimals. */
  lemma RewriteFormatted(cents: int)
    ensures var m := if cents < 0 then -cents else cents;
            Rewrite(FormatBR(cents)) == (if cents < 0 then "-" else "") + (NatDigits(m / 100) + "." + CentsDigits(m))
  {
    var m := if cents < 0 then -cents else cents;
    var sign := if cents < 0 then "-" else "";
    var ip, fp := NatDigits(m / 100), CentsDigits(m);
    assert FormatBR(cents) == sign + GroupThousands(ip) + "," + fp;
    RewriteParts(sign, GroupThousands(ip), fp);
    RewriteGrouped(ip);
    RewriteDigits(fp);
    RewriteSign(cents < 0);
  }

  lemma RewriteSign(neg: bool)
    ensures Rewrite(if neg then "-" else "") == (if neg then "-" else "")
  {
    if neg {
      assert "-"[1..] == "";
    }
  }

  /** A leading minus negates what the unsigned rest parses to; a leading digit is no sign at all. */
  lemma ParseSigned(body: string, neg: bool)
    requires |body| > 0 && '0' <= body[0] <= '9'
    ensures ParseFloat((if neg then "-" else "") + body)
         == match ParseUnsigned(body) case None => None case Some(v) => Some(if neg then -v else v)
  {
    if neg {
      assert ("-" + body)[0] == '-' && ("-" + body)[1..] == body;
    } else {
      assert "" + body == body;
    }
  }

  /** Formatting an amount the way a statement prints it and importing the string gives the amount back. */
  lemma FormatRoundTrip(cents: int)
    ensures ParseAmount(FormatBR(cents)) == Some(cents as real / 100.0)
  {
    var m := if cents < 0 then -cents else cents;
    var body := NatDigits(m / 100) + "." + CentsDigits(m);
    RewriteFormatted(cents);
    assert Rewrite(FormatBR(cents)) == (if cents < 0 then "-" else "") + body;
    UnsignedRoundTrip(m);
    assert body[0] == NatDigits(m / 100)[0];
    ParseSigned(body, cents < 0);
    assert (if cents < 0 then -(m as real / 100.0) else m as real / 100.0) == cents as real / 100.0;
  }

  lemma CreditPrinted()
    ensures FormatBR(123456) == "1.234,56"
  {
    CreditReais();
    CreditGrouped();
    assert CentsDigits(123456) == "56";
  }

  lemma CreditReais()
    ensures NatDigits(1234) == "1234"
  {
    assert NatDigits(1) == "1";
    assert NatDigits(12) == "12";
    assert NatDigits(123) == "123";
  }

  lemma CreditGrouped()
    ensures GroupThousands("1234") == "1.234"
  {
    assert "1234"[..1] == "1" && "1234"[1..] == "234";
  }

  lemma DebitPrinted()
    ensures FormatBR(-5000) == "-50,00"
  {
    assert NatDigits(50) == "50" by {
      assert NatDigits(5) == "5";
    }
    assert CentsDigits(5000) == "00";
  }

  /** A grouped credit and a debit in the bank's format. */
  lemma StatementExamples()
    ensures ParseAmount("1.234,56") == Some(1234.56)
    ensures ParseAmount("-50,00") == Some(-50.0)
  {
    CreditPrinted();
    FormatRoundTrip(123456);
    DebitPrinted();
    FormatRoundTrip(-5000);
  }
}
