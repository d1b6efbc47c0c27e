/** The per-file part of the consolidation stage: the header map, the
    amount and period parsers, the description filter and the extraction
    of the expense rows of one accounting file. */
module DataProcessor {
  import opened Wrappers
  import opened Text
  import opened Numbers
  import opened Tables
  import opened Seqs

  // ---------------------------------------------------------------------
  // Header renaming

  /** The fixed map from the column names seen across years to the names
      the stage works with. */
  const ColumnMap: map<string, string> := map[
    "CD_OPERADORA" := "REG_ANS",
    "RegistroANS" := "REG_ANS",
    "REG_ANS" := "REG_ANS",
    "DATA" := "DATA",
    "DT_CMPTC" := "DATA",
    "VL_SALDO_FINAL" := "VL_SALDO_FINAL",
    "DESCRICAO" := "DESCRICAO",
    "DS_CONTA" := "DESCRICAO"
  ]

  /** A column name after renaming; names outside the map are kept. */
  function Rename(h: string): string
  {
    if h in ColumnMap then ColumnMap[h] else h
  }

  /** Which raw names end up as each required column. */
  lemma {:induction false} RenameTargets(h: string)
    ensures Rename(h) == "REG_ANS" <==> h in {"CD_OPERADORA", "RegistroANS", "REG_ANS"}
    ensures Rename(h) == "VL_SALDO_FINAL" <==> h == "VL_SALDO_FINAL"
    ensures Rename(h) == "DESCRICAO" <==> h in {"DESCRICAO", "DS_CONTA"}
    ensures Rename(h) == "DATA" <==> h in {"DATA", "DT_CMPTC"}
  {
    if h !in ColumnMap {
      assert h != "CD_OPERADORA" && h != "RegistroANS" && h != "REG_ANS";
      assert h != "DESCRICAO" && h != "DS_CONTA" && h != "VL_SALDO_FINAL";
      assert h != "DATA" && h != "DT_CMPTC";
    }
  }

  function RenameHeader(hs: seq<string>): (r: seq<string>)
    ensures |r| == |hs|
    ensures forall i :: 0 <= i < |hs| ==> r[i] == Rename(hs[i])
  {
    if hs == [] then [] else RenameHeader(hs[..|hs| - 1]) + [Rename(hs[|hs| - 1])]
  }

  /** The columns a file must have, after renaming, to be used. */
  predicate HasRequired(hs: seq<string>)
  {
    "REG_ANS" in hs && "VL_SALDO_FINAL" in hs && "DESCRICAO" in hs
  }

  /** A renamed header has the required columns exactly when the raw
      header holds some spelling of each of them. */
  lemma {:induction false} RequiredAfterRename(hs: seq<string>)
    ensures HasRequired(RenameHeader(hs)) <==>
      && (exists h :: h in hs && h in {"CD_OPERADORA", "RegistroANS", "REG_ANS"})
      && "VL_SALDO_FINAL" in hs
      && (exists h :: h in hs && h in {"DESCRICAO", "DS_CONTA"})
  {
    var r := RenameHeader(hs);
    forall i | 0 <= i < |hs| ensures r[i] == Rename(hs[i]) {}
    forall h | h in hs ensures Rename(h) in r {
      var i :| 0 <= i < |hs| && hs[i] == h;
    }
    forall n | n in r ensures exists h :: h in hs && Rename(h) == n {
      var i :| 0 <= i < |r| && r[i] == n;
      assert hs[i] in hs;
    }
    forall h | true ensures
      && (Rename(h) == "REG_ANS" <==> h in {"CD_OPERADORA", "RegistroANS", "REG_ANS"})
      && (Rename(h) == "VL_SALDO_FINAL" <==> h == "VL_SALDO_FINAL")
      && (Rename(h) == "DESCRICAO" <==> h in {"DESCRICAO", "DS_CONTA"})
    {
      RenameTargets(h);
    }
  }

  // ---------------------------------------------------------------------
  // Amounts

  /** A Brazilian-locale amount as a number: thousands dots are deleted,
      the decimal comma becomes a point, and the text is read as a float.
      A missing or unreadable value counts as zero. */
  function CleanCurrency(c: Cell): real
  {
    match c
    case None => 0.0
    case Some(s) =>
      match ParseFloat(LocaleRewrite(s))
      case None => 0.0
      case Some(v) => v
  }

  /** Every amount written the Brazilian way, with thousands dots and two
      decimals after a comma, is read back as its exact value. */
  lemma {:induction false} CleanCurrencyBrazilian(cents: nat)
    ensures CleanCurrency(Some(BrazilianAmount(cents))) == cents as real / 100.0
  {
    ParseBrazilian(cents);
  }

  lemma {:induction false} DigitsExample()
    ensures DigitsValue("1234") == 1234 && DigitsValue("56") == 56
  {
    var d: string := "1234";
    assert d[..1] == "1" && d[..2] == "12" && d[..3] == "123";
    assert d[..3][..2] == d[..2] && d[..2][..1] == d[..1];
    assert DigitsValue(d[..1]) == 1;
    assert DigitsValue(d[..2]) == 12;
    assert DigitsValue(d[..3]) == 123;
    var f: string := "56";
    assert f[..1] == "5";
  }

  /** An amount with one thousands dot, "H.LLL,FF", reads as its value. */
  lemma {:induction false} CleanCurrencyOneDot(h: string, l: string, f: string, cents: nat)
    requires h != [] && AllDigits(h) && AllDigits(l) && AllDigits(f) && |f| == 2
    requires DigitsValue(h + l) == cents / 100 && DigitsValue(f) == cents % 100
    ensures CleanCurrency(Some(h + "." + l + "," + f)) == cents as real / 100.0
  {
    DeleteDotsJoin(h, l);
    DeleteDotsDigits(h);
    var d := h + l;
    assert AllDigits(d);
    RewriteGroupedParts(h + "." + l, f);
    ParseCentsParts(d, f, cents);
  }

  lemma {:induction false} CleanCurrencyExample()
    ensures CleanCurrency(Some("1.234,56")) == 1234.56
  {
    var h, l, f: string := "1", "234", "56";
    assert h + "." + l + "," + f == "1.234,56";
    assert h + l == "1234";
    DigitsExample();
    CleanCurrencyOneDot(h, l, f, 123456);
  }


  predicate NoDigits(s: string)
  {
    forall i :: 0 <= i < |s| ==> !IsDigit(s[i])
  }

  lemma {:induction false} DeleteDotsNoDigits(s: string)
    requires NoDigits(s)
    ensures NoDigits(DeleteDots(s))
  {
    if s != [] {
      assert NoDigits(s[1..]) by {
        forall i | 0 <= i < |s| - 1 ensures !IsDigit(s[1..][i]) { assert s[1..][i] == s[i + 1]; }
      }
      DeleteDotsNoDigits(s[1..]);
    }
  }

  lemma {:induction false} ParseUnsignedNoDigits(u: string)
    requires NoDigits(u)
    ensures ParseUnsigned(u) == None
  {
    match IndexOf(u, '.')
    case None =>
      if u != [] { assert !IsDigit(u[0]); }
    case Some(k) =>
      var ip, fp := u[..k], u[k + 1..];
      if |ip| > 0 { assert ip[0] == u[0]; }
      if |fp| > 0 { assert fp[0] == u[k + 1]; }
  }

  /** Text without a single digit (a dash, a word, an empty cell) is not a
      number, so its amount is zero. */
  lemma {:induction false} CleanCurrencyNoDigits(s: string)
    requires NoDigits(s)
    ensures CleanCurrency(Some(s)) == 0.0
  {
    LocaleRewriteNoDigits(s);
    ParseFloatNoDigits(LocaleRewrite(s));
  }

  lemma {:induction false} LocaleRewriteNoDigits(s: string)
    requires NoDigits(s)
    ensures NoDigits(LocaleRewrite(s))
  {
    DeleteDotsNoDigits(s);
    var t := LocaleRewrite(s);
    assert NoDigits(t);
  }

  lemma {:induction false} StripNoDigits(t: string)
    requires NoDigits(t)
    ensures NoDigits(Strip(t))
  {
    var u := Strip(t);
    var l := TrimLeft(t);
    assert NoDigits(l) by {
      forall i | 0 <= i < |l| ensures !IsDigit(l[i]) { assert l[i] == t[|t| - |l| + i]; }
    }
    forall i | 0 <= i < |u| ensures !IsDigit(u[i]) { assert u[i] == l[i]; }
  }

  lemma {:induction false} ParseFloatNoDigits(t: string)
    requires NoDigits(t)
    ensures ParseFloat(t) == None
  {
    StripNoDigits(t);
    var u := Strip(t);
    ParseUnsignedNoDigits(u);
    if u != [] {
      assert NoDigits(u[1..]) by {
        forall i | 0 <= i < |u| - 1 ensures !IsDigit(u[1..][i]) { assert u[1..][i] == u[i + 1]; }
      }
      ParseUnsignedNoDigits(u[1..]);
    }
  }

  // ---------------------------------------------------------------------
  // Period from the file name

  datatype Period = Period(year: int, quarter: int)

  /** A year "20dd" starts at position `i`. */
  predicate YearAt(s: string, i: nat)
  {
    i + 4 <= |s| && s[i] == '2' && s[i + 1] == '0' && IsDigit(s[i + 2]) && IsDigit(s[i + 3])
  }

  /** The first position at or after `from` where a year starts, as a
      regular-expression search finds it. */
  function FindYear(s: string, from: nat): (r: Option<nat>)
    requires from <= |s|
    ensures r.Some? ==> from <= r.value && YearAt(s, r.value)
    ensures r.Some? ==> forall j :: from <= j < r.value ==> !YearAt(s, j)
    ensures r.None? ==> forall j :: from <= j <= |s| ==> !YearAt(s, j)
    decreases |s| - from
  {
    if from + 4 > |s| then None
    else if YearAt(s, from) then Some(from)
    else FindYear(s, from + 1)
  }

  /** The year named in an upper-cased file name: its first "20dd", or
      2025 when there is none. */
  function YearOf(name: string): (y: int)
    ensures y == 2025 || 2000 <= y <= 2099
    ensures (forall j :: 0 <= j <= |name| ==> !YearAt(name, j)) ==> y == 2025
    ensures forall k: nat :: YearAt(name, k) && (forall j :: 0 <= j < k ==> !YearAt(name, j)) ==>
      y == 2000 + 10 * DigitValue(name[k + 2]) + DigitValue(name[k + 3])
  {
    match FindYear(name, 0)
    case None => 2025
    case Some(k) => 2000 + 10 * DigitValue(name[k + 2]) + DigitValue(name[k + 3])
  }

  /** The quarter named in an upper-cased file name. The markers are tried
      in the fixed order 1T, 2T, 3T, 4T wherever they occur; without one
      it is 1. */
  function QuarterOf(name: string): (q: int)
    ensures 1 <= q <= 4
    ensures Contains(name, "1T") ==> q == 1
    ensures q == 2 <==> !Contains(name, "1T") && Contains(name, "2T")
    ensures q == 3 <==> !Contains(name, "1T") && !Contains(name, "2T") && Contains(name, "3T")
    ensures q == 4 <==> !Contains(name, "1T") && !Contains(name, "2T") && !Contains(name, "3T") && Contains(name, "4T")
  {
    if Contains(name, "1T") then 1
    else if Contains(name, "2T") then 2
    else if Contains(name, "3T") then 3
    else if Contains(name, "4T") then 4
    else 1
  }

  /** The (year, quarter) a file's rows are tagged with, read from the
      upper-cased file name. */
  function PeriodOf(filename: string): Period
  {
    var name := Upper(filename);
    Period(YearOf(name), QuarterOf(name))
  }

  /** Only the letters' case is looked at, so the period does not depend
      on it. */
  lemma {:induction false} PeriodIgnoresCase(filename: string)
    ensures PeriodOf(Lower(filename)) == PeriodOf(filename)
  {
    UpperLower(filename);
  }

  lemma {:induction false} YearExample()
    ensures YearOf("4T2024_2T.CSV") == 2024
  {
    var up: string := "4T2024_2T.CSV";
    assert !YearAt(up, 0) && !YearAt(up, 1) && YearAt(up, 2);
    assert FindYear(up, 1) == FindYear(up, 2);
    assert FindYear(up, 0) == Some(2);
    assert DigitValue(up[4]) == 2 && DigitValue(up[5]) == 4;
  }

  lemma {:induction false} QuarterExample()
    ensures QuarterOf("4T2024_2T.CSV") == 2
  {
    var up: string := "4T2024_2T.CSV";
    NotContainsFirst(up, "1T");
    assert up[7..9] == "2T";
    assert OccursAt(up, "2T", 7);
  }

  /** Both markers occur, 4T first; the fixed priority picks the 2T. */
  lemma {:induction false} PeriodPriorityExample()
    ensures PeriodOf("4t2024_2t.csv") == Period(2024, 2)
  {
    UpperPointwise("4t2024_2t.csv", "4T2024_2T.CSV");
    YearExample();
    QuarterExample();
  }

  /** A name without digits carries neither a year nor a quarter marker,
      so both defaults apply. */
  lemma {:induction false} PeriodDefaults(name: string)
    requires NoDigits(name)
    ensures YearOf(name) == 2025 && QuarterOf(name) == 1
  {
    assert '1' !in name && '2' !in name && '3' !in name && '4' !in name by {
      forall i | 0 <= i < |name| ensures !IsDigit(name[i]) {}
    }
    NotContainsFirst(name, "1T");
    NotContainsFirst(name, "2T");
    NotContainsFirst(name, "3T");
    NotContainsFirst(name, "4T");
  }

  /** A file name without digits is tagged with the default period. */
  lemma {:induction false} PeriodNoDigits(filename: string)
    requires NoDigits(filename)
    ensures PeriodOf(filename) == Period(2025, 1)
  {
    var up := Upper(filename);
    forall i | 0 <= i < |up| ensures !IsDigit(up[i]) {
      assert up[i] == UpperChar(filename[i]);
    }
    PeriodDefaults(up);
  }

  lemma {:induction false} PeriodDefaultExample()
    ensures PeriodOf("dados.csv") == Period(2025, 1)
  {
    PeriodNoDigits("dados.csv");
  }

  // ---------------------------------------------------------------------
  // Description filter

  /** The one account description the stage keeps, in normal form. */
  const ClaimsLabel: string := "despesas com eventos/sinistros"

  /** The normal form compared against `ClaimsLabel`: stripped, lower-cased,
      each whitespace run made one space, then " / " joined to "/". */
  function NormalizeDescription(s: string): (r: string)
    ensures |r| <= |s|
  {
    JoinSlashes(CollapseSpaces(Lower(Strip(s))))
  }

  /** Does a description cell name the claims-expense account? A missing
      cell is compared as the text "nan". */
  predicate IsClaimsExpense(c: Cell)
  {
    NormalizeDescription(CellText(c)) == ClaimsLabel
  }

  /** A description shorter than the label can never match it; in
      particular a missing one never does. */
  lemma {:induction false} ShortDescriptionFails(c: Cell)
    requires |CellText(c)| < |ClaimsLabel|
    ensures !IsClaimsExpense(c)
  {
  }

  lemma {:induction false} ClaimsRejectExample()
    ensures !IsClaimsExpense(Some("Despesas com Eventos"))
    ensures !IsClaimsExpense(None)
  {
    ShortDescriptionFails(Some("Despesas com Eventos"));
    ShortDescriptionFails(None);
  }

  /** The verdict ignores letter case. */
  lemma {:induction false} ClaimsIgnoresCase(s: string)
    ensures IsClaimsExpense(Some(Upper(s))) == IsClaimsExpense(Some(s))
  {
    StripUpper(s);
    LowerUpper(Strip(s));
  }

  /** The verdict ignores whitespace added around the description. */
  lemma {:induction false} ClaimsIgnoresPadding(s: string, c: char)
    requires IsSpace(c)
    ensures IsClaimsExpense(Some([c] + s)) == IsClaimsExpense(Some(s))
    ensures IsClaimsExpense(Some(s + [c])) == IsClaimsExpense(Some(s))
  {
    StripPadded(s, c);
  }

  /** Five words separated by whitespace runs of any length collapse to
      the words separated by single spaces. */
  lemma {:induction false} CollapseFiveWords(a: string, b: string, c: string, d: string, e: string,
                          w1: string, w2: string, w3: string, w4: string)
    requires IsWord(a) && IsWord(b) && IsWord(c) && IsWord(d) && IsWord(e)
    requires IsRun(w1) && IsRun(w2) && IsRun(w3) && IsRun(w4)
    ensures CollapseSpaces(a + (w1 + (b + (w2 + (c + (w3 + (d + (w4 + e))))))))
         == a + (" " + (b + (" " + (c + (" " + (d + (" " + e)))))))
  {
    CollapseWord(e, []);
    assert e + [] == e;
    CollapseWordRun(d, w4, e);
    CollapseWordRun(c, w3, d + (w4 + e));
    CollapseWordRun(b, w2, c + (w3 + (d + (w4 + e))));
    CollapseWordRun(a, w1, b + (w2 + (c + (w3 + (d + (w4 + e))))));
  }

  lemma {:induction false} LowerPieces()
    ensures "despesas  com eventos / sinistros"
         == "despesas" + ("  " + ("com" + (" " + ("eventos" + (" " + ("/" + (" " + "sinistros")))))))
  {
  }

  lemma {:induction false} CollapsedPieces()
    ensures "despesas" + (" " + ("com" + (" " + ("eventos" + (" " + ("/" + (" " + "sinistros")))))))
         == "despesas com eventos" + " / " + "sinistros"
  {
  }

  lemma {:induction false} LowerExample()
    ensures Lower("Despesas  com Eventos / Sinistros") == "despesas  com eventos / sinistros"
  {
    LowerPointwise("Despesas  com Eventos / Sinistros", "despesas  com eventos / sinistros");
  }

  lemma {:induction false} CollapseExample()
    ensures CollapseSpaces("despesas" + ("  " + ("com" + (" " + ("eventos" + (" " + ("/" + (" " + "sinistros"))))))))
         == "despesas" + (" " + ("com" + (" " + ("eventos" + (" " + ("/" + (" " + "sinistros")))))))
  {
    assert IsWord("despesas") && IsWord("com") && IsWord("eventos") && IsWord("/") && IsWord("sinistros");
    assert IsRun(" ") && IsRun("  ");
    CollapseFiveWords("despesas", "com", "eventos", "/", "sinistros", "  ", " ", " ", " ");
  }

  lemma {:induction false} JoinExample()
    ensures JoinSlashes("despesas com eventos" + " / " + "sinistros") == ClaimsLabel
  {
    var a, b: string := "despesas com eventos", "sinistros";
    assert a + "/" + b == ClaimsLabel;
    JoinAroundSlash(a, b);
  }

  /** Doubled inner spaces, capitals and spaces around the slash are all
      normalised away. */
  lemma {:induction false} ClaimsAcceptExample()
    ensures IsClaimsExpense(Some("Despesas  com Eventos / Sinistros"))
  {
    var s: string := "Despesas  com Eventos / Sinistros";
    StripNoEdges(s);
    LowerExample();
    LowerPieces();
    CollapseExample();
    CollapsedPieces();
    JoinExample();
  }

  // ---------------------------------------------------------------------
  // One accounting file

  /** A file found in the extraction directory: its name and, when it
      could be decoded as a ';'-separated table, its contents. */
  datatype SourceFile = SourceFile(name: string, table: Option<Table>)

  /** A row of `process_file`'s result: the columns REG_ANS, Ano,
      Trimestre and VL_SALDO_FINAL, in that order. */
  datatype ExpenseRow = ExpenseRow(regAns: Cell, year: int, quarter: int, amount: real)

  /** The row's description names the claims-expense account. */
  predicate Matches(hdr: seq<string>, row: seq<Cell>)
  {
    IsClaimsExpense(Get(hdr, row, "DESCRICAO"))
  }

  function Amount(hdr: seq<string>, row: seq<Cell>): real
  {
    CleanCurrency(Get(hdr, row, "VL_SALDO_FINAL"))
  }

  /** The row `process_file` makes of a source row, tagged with the
      file's period. */
  function ToExpense(hdr: seq<string>, row: seq<Cell>, p: Period): ExpenseRow
  {
    ExpenseRow(Get(hdr, row, "REG_ANS"), p.year, p.quarter, Amount(hdr, row))
  }

  /** A source row survives both filters: the description and a positive
      amount. */
  predicate Kept(hdr: seq<string>, row: seq<Cell>)
  {
    Matches(hdr, row) && Amount(hdr, row) > 0.0
  }

  /** The surviving rows, in file order. */
  function Extract(hdr: seq<string>, rows: seq<seq<Cell>>, p: Period): seq<ExpenseRow>
  {
    FilterMap(rows, row => Kept(hdr, row), row => ToExpense(hdr, row, p))
  }

  /** Extraction keeps exactly the rows that pass both filters. */
  lemma {:induction false} ExtractMembers(hdr: seq<string>, rows: seq<seq<Cell>>, p: Period, e: ExpenseRow)
    ensures e in Extract(hdr, rows, p) <==>
      exists row :: row in rows && Kept(hdr, row) && e == ToExpense(hdr, row, p)
  {
    FilterMapMembers(rows, row => Kept(hdr, row), row => ToExpense(hdr, row, p), e);
  }

  /** Every extracted row has a positive amount and the given period. */
  lemma {:induction false} ExtractRows(hdr: seq<string>, rows: seq<seq<Cell>>, p: Period)
    ensures forall e :: e in Extract(hdr, rows, p) ==>
      e.amount > 0.0 && e.year == p.year && e.quarter == p.quarter
  {
    forall e | e in Extract(hdr, rows, p)
      ensures e.amount > 0.0 && e.year == p.year && e.quarter == p.quarter
    {
      ExtractMembers(hdr, rows, p, e);
    }
  }

  /** Some row's description matches. */
  predicate AnyMatches(hdr: seq<string>, rows: seq<seq<Cell>>)
  {
    exists row :: row in rows && Matches(hdr, row)
  }

  /** `process_file`: None when the file is skipped (it cannot be decoded,
      lacks a required column after renaming, or has no row with the
      claims description); otherwise the surviving rows, which may be
      none when every matching amount is zero or negative. */
  function ProcessFile(f: SourceFile): Option<seq<ExpenseRow>>
  {
    match f.table
    case None => None
    case Some(t) =>
      var hdr := RenameHeader(t.header);
      if !HasRequired(hdr) then None
      else if !AnyMatches(hdr, t.rows) then None
      else Some(Extract(hdr, t.rows, PeriodOf(f.name)))
  }

  /** Every row of a processed file has a positive amount and the file
      name's period. */
  lemma {:induction false} ProcessFileRows(f: SourceFile)
    requires ProcessFile(f).Some?
    ensures forall e :: e in ProcessFile(f).value ==>
      e.amount > 0.0 && Period(e.year, e.quarter) == PeriodOf(f.name)
  {
    var hdr := RenameHeader(f.table.value.header);
    ExtractRows(hdr, f.table.value.rows, PeriodOf(f.name));
  }

  /** A decoded file is skipped exactly when some required column has no
      spelling in its header, or no description matches. */
  lemma {:induction false} ProcessFileSkipped(f: SourceFile)
    requires f.table.Some?
    ensures ProcessFile(f).None? <==>
      || !(exists h :: h in f.table.value.header && h in {"CD_OPERADORA", "RegistroANS", "REG_ANS"})
      || "VL_SALDO_FINAL" !in f.table.value.header
      || !(exists h :: h in f.table.value.header && h in {"DESCRICAO", "DS_CONTA"})
      || !AnyMatches(RenameHeader(f.table.value.header), f.table.value.rows)
  {
    RequiredAfterRename(f.table.value.header);
  }

  /** A file whose rows pass both filters contributes each of them. */
  lemma {:induction false} ProcessFileKeeps(f: SourceFile, row: seq<Cell>)
    requires f.table.Some? && row in f.table.value.rows
    requires HasRequired(RenameHeader(f.table.value.header))
    requires Kept(RenameHeader(f.table.value.header), row)
    ensures ProcessFile(f).Some?
    ensures ToExpense(RenameHeader(f.table.value.header), row, PeriodOf(f.name)) in ProcessFile(f).value
  {
    var hdr, rows, p := RenameHeader(f.table.value.header), f.table.value.rows, PeriodOf(f.name);
    assert AnyMatches(hdr, rows) by {
      assert Matches(hdr, row);
    }
    assert ProcessFile(f) == Some(Extract(hdr, rows, p));
    ExtractMembers(hdr, rows, p, ToExpense(hdr, row, p));
  }
}
