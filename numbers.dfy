/** Decimal text: the locale rewrite shared by the consolidation stage and
    the load-script generator, a model of Python's `float()` on plain
    decimal text, and the renderings of an amount in cents that the
    round-trip lemmas start from. */
module Numbers {
  import opened Wrappers
  import opened Text
  import opened Seqs

  function DigitValue(c: char): (d: nat)
    requires IsDigit(c)
    ensures d < 10
  {
    c as int - '0' as int
  }

  function DigitChar(d: nat): (c: char)
    requires d < 10
    ensures IsDigit(c) && DigitValue(c) == d
  {
    ('0' as int + d) as char
  }

  predicate AllDigits(s: string)
  {
    forall i :: 0 <= i < |s| ==> IsDigit(s[i])
  }

  /** The value of a string of decimal digits (0 for the empty string). */
  function DigitsValue(s: string): nat
    requires AllDigits(s)
  {
    if s == [] then 0 else DigitsValue(s[..|s| - 1]) * 10 + DigitValue(s[|s| - 1])
  }

  function Pow10(n: nat): (p: nat)
    ensures p >= 1
  {
    if n == 0 then 1 else 10 * Pow10(n - 1)
  }

  lemma {:induction false} Regroup(x: int, p: int, y: int, c: int)
    ensures (x * p + y) * 10 + c == x * (p * 10) + (y * 10 + c)
  {
  }

  lemma {:induction false} DigitsValueConcat(a: string, b: string)
    requires AllDigits(a) && AllDigits(b)
    ensures AllDigits(a + b)
    ensures DigitsValue(a + b) == DigitsValue(a) * Pow10(|b|) + DigitsValue(b)
  {
    assert AllDigits(a + b) by {
      forall i | 0 <= i < |a + b| ensures IsDigit((a + b)[i]) {
        if i < |a| { assert (a + b)[i] == a[i]; } else { assert (a + b)[i] == b[i - |a|]; }
      }
    }
    if b != [] {
      var b' := b[..|b| - 1];
      assert (a + b)[..|a + b| - 1] == a + b';
      assert AllDigits(b');
      DigitsValueConcat(a, b');
      var x, p, y, c := DigitsValue(a), Pow10(|b'|), DigitsValue(b'), DigitValue(b[|b| - 1]);
      assert DigitsValue(a + b) == DigitsValue(a + b') * 10 + c;
      assert DigitsValue(a + b') == x * p + y;
      assert DigitsValue(b) == y * 10 + c;
      assert Pow10(|b|) == p * 10;
      Regroup(x, p, y, c);
    } else {
      assert a + b == a;
    }
  }

  // ---------------------------------------------------------------------
  // The locale rewrite `str.replace('.', '').replace(',', '.')`

  /** `str.replace('.', '')` */
  function DeleteDots(s: string): (r: string)
    ensures '.' !in r
  {
    if s == [] then []
    else (if s[0] == '.' then [] else [s[0]]) + DeleteDots(s[1..])
  }

  /** `str.replace(',', '.')` */
  function CommaToDot(s: string): (r: string)
    ensures |r| == |s|
    ensures forall i :: 0 <= i < |s| ==> r[i] == (if s[i] == ',' then '.' else s[i])
  {
    if s == [] then [] else [if s[0] == ',' then '.' else s[0]] + CommaToDot(s[1..])
  }

  /** Thousands dots removed, then the decimal comma turned into a point. */
  function LocaleRewrite(s: string): (r: string)
    ensures ',' !in r
  {
    CommaToDot(DeleteDots(s))
  }

  lemma {:induction false} DeleteDotsConcat(a: string, b: string)
    ensures DeleteDots(a + b) == DeleteDots(a) + DeleteDots(b)
  {
    if a != [] {
      assert (a + b)[1..] == a[1..] + b;
      DeleteDotsConcat(a[1..], b);
    } else {
      assert a + b == b;
    }
  }

  lemma {:induction false} CommaToDotConcat(a: string, b: string)
    ensures CommaToDot(a + b) == CommaToDot(a) + CommaToDot(b)
  {
    var l, r := CommaToDot(a + b), CommaToDot(a) + CommaToDot(b);
    assert |l| == |r|;
    forall i | 0 <= i < |l| ensures l[i] == r[i] {
      if i < |a| { assert (a + b)[i] == a[i]; } else { assert (a + b)[i] == b[i - |a|]; }
    }
  }

  /** The rewrite works piece by piece. */
  lemma {:induction false} LocaleRewriteConcat(a: string, b: string)
    ensures LocaleRewrite(a + b) == LocaleRewrite(a) + LocaleRewrite(b)
  {
    DeleteDotsConcat(a, b);
    CommaToDotConcat(DeleteDots(a), DeleteDots(b));
  }

  /** After the rewrite there are exactly as many points as the input had
      commas: every point that remains was a decimal comma. */
  lemma {:induction false} LocaleRewriteCounts(s: string)
    ensures multiset(LocaleRewrite(s))['.'] == multiset(s)[',']
  {
    if s != [] {
      assert s == [s[0]] + s[1..];
      LocaleRewriteConcat([s[0]], s[1..]);
      LocaleRewriteCounts(s[1..]);
    }
  }

  // ---------------------------------------------------------------------
  // Python's float() on plain decimal text

  /** The value of the decimal "IP.FP" for digit strings IP and FP. */
  function DecimalValue(ip: string, fp: string): real
    requires AllDigits(ip) && AllDigits(fp)
  {
    DigitsValue(ip) as real + DigitsValue(fp) as real / Pow10(|fp|) as real
  }

  /** An unsigned decimal: digits, optionally a point and more digits, with
      at least one digit in all ("12", "12.5", "12.", ".5"). */
  function ParseUnsigned(t: string): (r: Option<real>)
    ensures r.Some? ==> r.value >= 0.0
  {
    match IndexOf(t, '.')
    case None =>
      if t != [] && AllDigits(t) then Some(DigitsValue(t) as real) else None
    case Some(k) =>
      var ip, fp := t[..k], t[k + 1..];
      if AllDigits(ip) && AllDigits(fp) && |ip| + |fp| > 0
      then Some(DecimalValue(ip, fp))
      else None
  }

  /** Python's `float(s)` for text that is an optionally signed decimal,
      possibly surrounded by whitespace; None where Python raises. */
  function ParseFloat(s: string): Option<real>
  {
    var t := Strip(s);
    if t != [] && t[0] == '-' then
      match ParseUnsigned(t[1..])
      case None => None
      case Some(v) => Some(-v)
    else if t != [] && t[0] == '+' then ParseUnsigned(t[1..])
    else ParseUnsigned(t)
  }

  // ---------------------------------------------------------------------
  // Renderings of an amount given in cents

  /** The decimal digits of `n`, without leading zeros. */
  function NatDigits(n: nat): (r: string)
    ensures r != [] && AllDigits(r) && DigitsValue(r) == n
  {
    if n < 10 then [DigitChar(n)]
    else
      var r := NatDigits(n / 10) + [DigitChar(n % 10)];
      assert r[..|r| - 1] == NatDigits(n / 10);
      r
  }

  lemma {:induction false} MulSign(a: int, b: int)
    ensures a >= 0 && b >= 0 ==> a * b >= 0
  {
  }

  /** Quotient and remainder are the unique such pair. */
  lemma {:induction false} DivModUnique(n: int, d: int, q: int, m: int)
    requires d > 0 && n == d * q + m && 0 <= m < d
    ensures n / d == q && n % d == m
  {
    var q', m' := n / d, n % d;
    var k := q - q';
    assert d * q == d * q' + d * k;
    assert d * k == m' - m;
    MulSign(d, k - 1);
    MulSign(d, -k - 1);
    assert d * k == d * (k - 1) + d;
    assert d * (-k) == d * (-k - 1) + d;
  }

  lemma {:induction false} ModOfTenfold(n: nat, p: nat)
    requires p >= 1
    ensures (n / 10) % p * 10 + n % 10 == n % (10 * p)
  {
    var q, r0 := n / 10, n % 10;
    var a, b := q / p, q % p;
    assert q == p * a + b;
    assert n == 10 * q + r0;
    assert n == (10 * p) * a + (10 * b + r0);
    DivModUnique(n, 10 * p, a, 10 * b + r0);
  }

  /** The last `w` decimal digits of `n`, padded with leading zeros. */
  function Fixed(n: nat, w: nat): (r: string)
    ensures |r| == w && AllDigits(r) && DigitsValue(r) == n % Pow10(w)
  {
    if w == 0 then []
    else
      var r := Fixed(n / 10, w - 1) + [DigitChar(n % 10)];
      assert r[..|r| - 1] == Fixed(n / 10, w - 1);
      ModOfTenfold(n, Pow10(w - 1));
      r
  }

  /** `n` written with a dot between groups of three digits ("1.234"). */
  function GroupThousands(n: nat): (r: string)
    ensures r != [] && IsDigit(r[0]) && IsDigit(r[|r| - 1])
  {
    if n < 1000 then NatDigits(n)
    else GroupThousands(n / 1000) + "." + Fixed(n % 1000, 3)
  }

  /** Brazilian rendering of an amount in cents: "1.234,56". */
  function BrazilianAmount(cents: nat): string
  {
    GroupThousands(cents / 100) + "," + Fixed(cents % 100, 2)
  }

  /** Decimal-comma rendering with two decimals and no grouping ("1234,56"). */
  function CommaAmount(cents: nat): string
  {
    NatDigits(cents / 100) + "," + Fixed(cents % 100, 2)
  }

  /** Locale-neutral rendering with two decimals ("1234.56"). */
  function PointAmount(cents: nat): string
  {
    NatDigits(cents / 100) + "." + Fixed(cents % 100, 2)
  }

  lemma {:induction false} DeleteDotsDigits(s: string)
    requires AllDigits(s)
    ensures DeleteDots(s) == s
  {
    if s != [] {
      assert IsDigit(s[0]);
      assert AllDigits(s[1..]) by {
        forall i | 0 <= i < |s| - 1 ensures IsDigit(s[1..][i]) { assert s[1..][i] == s[i + 1]; }
      }
      DeleteDotsDigits(s[1..]);
    }
  }

  lemma {:induction false} DeleteDotsJoin(hi: string, lo: string)
    requires AllDigits(lo)
    ensures DeleteDots(hi + "." + lo) == DeleteDots(hi) + lo
  {
    var dot: string := ".";
    assert DeleteDots(dot) == [];
    DeleteDotsConcat(hi, dot);
    assert DeleteDots(hi + dot) == DeleteDots(hi);
    DeleteDotsConcat(hi + dot, lo);
    DeleteDotsDigits(lo);
  }

  lemma {:induction false} ThreeDigitsValue(d: string, n: nat)
    requires AllDigits(d)
    ensures AllDigits(d + Fixed(n, 3))
    ensures DigitsValue(d + Fixed(n, 3)) == DigitsValue(d) * 1000 + n % 1000
  {
    var lo := Fixed(n, 3);
    assert Pow10(3) == 1000;
    DigitsValueConcat(d, lo);
  }

  /** Deleting the thousands dots leaves the plain digits of the number. */
  lemma {:induction false} DeleteDotsGrouped(n: nat)
    ensures AllDigits(DeleteDots(GroupThousands(n)))
    ensures DeleteDots(GroupThousands(n)) != []
    ensures DigitsValue(DeleteDots(GroupThousands(n))) == n
  {
    if n >= 1000 {
      DeleteDotsGrouped(n / 1000);
      var d := DeleteDots(GroupThousands(n / 1000));
      DeleteDotsJoin(GroupThousands(n / 1000), Fixed(n % 1000, 3));
      ThreeDigitsValue(d, n % 1000);
      DivModUnique(n % 1000, 1000, 0, n % 1000);
    } else {
      DeleteDotsDigits(NatDigits(n));
    }
  }

  /** Value of "D.F" for digit strings D (non-empty) and F. */
  lemma {:induction false} PointValue(d: string, f: string)
    requires d != [] && AllDigits(d) && AllDigits(f) && |f| > 0
    ensures ParseFloat(d + "." + f) == Some(DecimalValue(d, f))
  {
    var t := d + "." + f;
    assert !IsSpace(t[0]) && !IsSpace(t[|t| - 1]) by {
      assert t[0] == d[0];
      assert t[|t| - 1] == f[|f| - 1];
    }
    StripNoEdges(t);
    assert t[0] != '-' && t[0] != '+';
    ParseFloatUnsigned(t);
    ParseUnsignedSplit(d, f);
  }

  lemma {:induction false} ParseFloatUnsigned(t: string)
    requires Strip(t) == t && t != [] && t[0] != '-' && t[0] != '+'
    ensures ParseFloat(t) == ParseUnsigned(t)
  {
  }

  lemma {:induction false} ParseUnsignedSplit(d: string, f: string)
    requires AllDigits(d) && AllDigits(f) && |f| > 0
    ensures ParseUnsigned(d + "." + f) == Some(DecimalValue(d, f))
  {
    var t := d + "." + f;
    forall i | 0 <= i < |d| ensures d[i] != '.' {
      assert IsDigit(d[i]);
    }
    IndexOfAfter(d, '.', f);
    assert t[..|d|] == d;
    assert t[|d| + 1..] == f;
  }

  lemma {:induction false} CentsSplit(cents: nat)
    ensures (cents / 100) as real + (cents % 100) as real / 100.0 == cents as real / 100.0
  {
    assert cents == 100 * (cents / 100) + cents % 100;
  }

  /** The two decimals of an amount in cents. */
  lemma {:induction false} TwoDecimals(cents: nat)
    ensures |Fixed(cents % 100, 2)| == 2 && DigitsValue(Fixed(cents % 100, 2)) == cents % 100
  {
    assert Pow10(2) == 100;
    DivModUnique(cents % 100, 100, 0, cents % 100);
  }

  /** The value of "D.F" with two fraction digits, in hundredths. */
  lemma {:induction false} CentsValue(d: string, f: string, cents: nat)
    requires AllDigits(d) && AllDigits(f) && |f| == 2
    requires DigitsValue(d) == cents / 100 && DigitsValue(f) == cents % 100
    ensures DecimalValue(d, f) == cents as real / 100.0
  {
    assert Pow10(2) == 100;
    CentsSplit(cents);
  }

  /** A digit string is left alone by the locale rewrite. */
  lemma {:induction false} LocaleRewriteDigits(s: string)
    requires AllDigits(s)
    ensures CommaToDot(s) == s && LocaleRewrite(s) == s
  {
    DeleteDotsDigits(s);
    assert forall i :: 0 <= i < |s| ==> s[i] != ',' by {
      forall i | 0 <= i < |s| ensures s[i] != ',' { assert IsDigit(s[i]); }
    }
  }

  /** The rewrite of "D,F" (digit strings D and F) is "D.F". */
  lemma {:induction false} RewriteCommaParts(d: string, f: string)
    requires AllDigits(d) && AllDigits(f)
    ensures LocaleRewrite(d + "," + f) == d + "." + f
    ensures CommaToDot(d + "," + f) == d + "." + f
  {
    LocaleRewriteConcat(d + ",", f);
    LocaleRewriteConcat(d, ",");
    CommaToDotConcat(d + ",", f);
    CommaToDotConcat(d, ",");
    LocaleRewriteDigits(d);
    LocaleRewriteDigits(f);
    assert LocaleRewrite(",") == ".";
  }

  /** The rewrite of "G,F", G with thousands dots and F digits, is the
      dot-free G, a point, and F. */
  lemma {:induction false} RewriteGroupedParts(g: string, f: string)
    requires AllDigits(DeleteDots(g)) && AllDigits(f)
    ensures LocaleRewrite(g + "," + f) == DeleteDots(g) + "." + f
  {
    LocaleRewriteConcat(g + ",", f);
    LocaleRewriteConcat(g, ",");
    LocaleRewriteDigits(DeleteDots(g));
    LocaleRewriteDigits(f);
    assert LocaleRewrite(",") == ".";
  }

  /** `float("D.F")` for the parts of an amount in cents. */
  lemma {:induction false} ParseCentsParts(d: string, f: string, cents: nat)
    requires d != [] && AllDigits(d) && AllDigits(f) && |f| == 2
    requires DigitsValue(d) == cents / 100 && DigitsValue(f) == cents % 100
    ensures ParseFloat(d + "." + f) == Some(cents as real / 100.0)
  {
    CentsValue(d, f, cents);
    PointValueIs(d, f, Some(cents as real / 100.0));
  }

  lemma {:induction false} PointValueIs(d: string, f: string, r: Option<real>)
    requires d != [] && AllDigits(d) && AllDigits(f) && |f| > 0
    requires r == Some(DecimalValue(d, f))
    ensures ParseFloat(d + "." + f) == r
  {
    PointValue(d, f);
  }

  /** `float(PointAmount(c))` is the amount c / 100 exactly. */
  lemma {:induction false} ParsePointAmount(cents: nat)
    ensures ParseFloat(PointAmount(cents)) == Some(cents as real / 100.0)
  {
    TwoDecimals(cents);
    ParseCentsParts(NatDigits(cents / 100), Fixed(cents % 100, 2), cents);
  }

  /** The locale rewrite turns the Brazilian rendering into the plain digits,
      a point and the two decimals. */
  lemma {:induction false} RewriteBrazilian(cents: nat)
    ensures LocaleRewrite(BrazilianAmount(cents)) == DeleteDots(GroupThousands(cents / 100)) + "." + Fixed(cents % 100, 2)
  {
    DeleteDotsGrouped(cents / 100);
    RewriteGroupedParts(GroupThousands(cents / 100), Fixed(cents % 100, 2));
  }

  /** `float(s.replace('.', '').replace(',', '.'))` recovers an amount
      written in the Brazilian locale. */
  lemma {:induction false} ParseBrazilian(cents: nat)
    ensures ParseFloat(LocaleRewrite(BrazilianAmount(cents))) == Some(cents as real / 100.0)
  {
    RewriteBrazilian(cents);
    DeleteDotsGrouped(cents / 100);
    TwoDecimals(cents);
    ParseCentsParts(DeleteDots(GroupThousands(cents / 100)), Fixed(cents % 100, 2), cents);
  }

  /** The locale rewrite of the decimal-comma form is the neutral form. */
  lemma {:induction false} RewriteComma(cents: nat)
    ensures LocaleRewrite(CommaAmount(cents)) == PointAmount(cents)
    ensures CommaToDot(CommaAmount(cents)) == PointAmount(cents)
  {
    RewriteCommaParts(NatDigits(cents / 100), Fixed(cents % 100, 2));
  }
}
