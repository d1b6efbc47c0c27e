/** The enrichment stage: the consolidated rows are joined with the
    operator registry (CADOP) on the operator id recovered from the
    placeholder name, the registry's CNPJ, name and UF are filled in, the
    CNPJ is formatted and checked, and the rows are grouped by
    (RazaoSocial, CNPJ, UF) into total, mean and spread, listed by total,
    largest first. */
module Enrichment {
  import opened Wrappers
  import opened Seqs
  import opened Text
  import opened Numbers
  import opened Tables
  import Consolidation

  // ---------------------------------------------------------------------
  // CNPJ formatting

  /** The text with every non-digit removed. */
  function DigitsOf(s: string): (r: string)
    ensures AllDigits(r) && |r| <= |s|
  {
    if s == [] then [] else (if IsDigit(s[0]) then [s[0]] else []) + DigitsOf(s[1..])
  }

  lemma {:induction false} DigitsOfConcat(a: string, b: string)
    ensures DigitsOf(a + b) == DigitsOf(a) + DigitsOf(b)
  {
    if a != [] {
      var h := if IsDigit(a[0]) then [a[0]] else [];
      assert (a + b)[0] == a[0];
      assert (a + b)[1..] == a[1..] + b;
      assert DigitsOf(a + b) == h + DigitsOf(a[1..] + b);
      DigitsOfConcat(a[1..], b);
      assert DigitsOf(a) == h + DigitsOf(a[1..]);
    } else {
      assert a + b == b;
    }
  }

  lemma {:induction false} DigitsOfDigits(s: string)
    requires AllDigits(s)
    ensures DigitsOf(s) == s
  {
    if s != [] {
      DigitsOfDigits(s[1..]);
    }
  }

  /** A separator between two parts drops out of the digits. */
  lemma {:induction false} DigitsAcross(a: string, c: char, b: string)
    requires !IsDigit(c) && AllDigits(b)
    ensures DigitsOf(a + [c] + b) == DigitsOf(a) + b
  {
    DigitsOfConcat(a + [c], b);
    DigitsOfConcat(a, [c]);
    DigitsOfDigits(b);
  }

  /** The display layout NN.NNN.NNN/NNNN-NN of fourteen digits. */
  function CnpjLayout(d: string): string
    requires |d| == 14
  {
    d[..2] + "." + d[2..5] + "." + d[5..8] + "/" + d[8..12] + "-" + d[12..]
  }

  /** The layout keeps the digits, in order. */
  lemma {:induction false} LayoutDigits(d: string)
    requires |d| == 14 && AllDigits(d)
    ensures DigitsOf(CnpjLayout(d)) == d
  {
    var p1, p2, p3, p4, p5 := d[..2], d[2..5], d[5..8], d[8..12], d[12..];
    DigitsOfDigits(p1);
    DigitsAcross(p1, '.', p2);
    DigitsAcross(p1 + "." + p2, '.', p3);
    DigitsAcross(p1 + "." + p2 + "." + p3, '/', p4);
    DigitsAcross(p1 + "." + p2 + "." + p3 + "/" + p4, '-', p5);
    assert p1 + p2 + p3 + p4 + p5 == d;
  }

  /** The CNPJ shown for display: the layout of its digits when there are
      exactly fourteen of them, otherwise the value unchanged. */
  function FormatCnpj(value: string): (r: string)
    ensures DigitsOf(r) == DigitsOf(value)
    ensures |DigitsOf(value)| != 14 ==> r == value
  {
    var d := DigitsOf(value);
    if |d| != 14 then value
    else
      LayoutDigits(d);
      CnpjLayout(d)
  }

  /** A CNPJ is complete when it holds exactly fourteen digits. */
  predicate CnpjValid(c: string)
  {
    |DigitsOf(c)| == 14
  }

  /** The positions of the separators in a formatted CNPJ. */
  predicate SeparatorAt(i: int)
  {
    i == 2 || i == 6 || i == 10 || i == 15
  }

  /** The shape NN.NNN.NNN/NNNN-NN. */
  predicate CnpjShaped(r: string)
  {
    && |r| == 18
    && r[2] == '.' && r[6] == '.' && r[10] == '/' && r[15] == '-'
    && forall i :: 0 <= i < 18 && !SeparatorAt(i) ==> IsDigit(r[i])
  }

  lemma {:induction false} LayoutShaped(d: string)
    requires |d| == 14 && AllDigits(d)
    ensures CnpjShaped(CnpjLayout(d))
  {
    var r := CnpjLayout(d);
    forall i | 0 <= i < 18 && !SeparatorAt(i) ensures IsDigit(r[i]) {
      if i < 2 { assert r[i] == d[i]; }
      else if i < 6 { assert r[i] == d[i - 1]; }
      else if i < 10 { assert r[i] == d[i - 2]; }
      else if i < 15 { assert r[i] == d[i - 3]; }
      else { assert r[i] == d[i - 4]; }
    }
  }

  /** A shaped text is the layout of its own digits. */
  lemma {:induction false} ShapedIsLayout(r: string)
    requires CnpjShaped(r)
    ensures CnpjValid(r)
  {
    var d := r[..2] + r[3..6] + r[7..10] + r[11..15] + r[16..];
    assert |d| == 14;
    forall i | 0 <= i < 14 ensures IsDigit(d[i]) {
      if i < 2 { assert d[i] == r[i]; }
      else if i < 5 { assert d[i] == r[i + 1]; }
      else if i < 8 { assert d[i] == r[i + 2]; }
      else if i < 12 { assert d[i] == r[i + 3]; }
      else { assert d[i] == r[i + 4]; }
    }
    LayoutOfShaped(r, d);
    LayoutDigits(d);
  }

  lemma {:induction false} LayoutOfShaped(r: string, d: string)
    requires CnpjShaped(r)
    requires d == r[..2] + r[3..6] + r[7..10] + r[11..15] + r[16..]
    ensures |d| == 14 && r == CnpjLayout(d)
  {
    assert d[..2] == r[..2] && d[2..5] == r[3..6] && d[5..8] == r[7..10];
    assert d[8..12] == r[11..15] && d[12..] == r[16..];
    assert r[2..3] == "." && r[6..7] == "." && r[10..11] == "/" && r[15..16] == "-";
    assert r == r[..2] + r[2..3] + r[3..6] + r[6..7] + r[7..10] + r[10..11] + r[11..15] + r[15..16] + r[16..];
  }

  /** The formatted value has the display shape exactly when the value
      holds fourteen digits. */
  lemma {:induction false} FormatCnpjShape(value: string)
    ensures CnpjShaped(FormatCnpj(value)) <==> CnpjValid(value)
  {
    if CnpjValid(value) {
      LayoutShaped(DigitsOf(value));
    } else if CnpjShaped(value) {
      ShapedIsLayout(value);
    }
  }

  /** Formatting twice formats once. */
  lemma {:induction false} FormatCnpjIdempotent(value: string)
    ensures FormatCnpj(FormatCnpj(value)) == FormatCnpj(value)
  {
    var d := DigitsOf(value);
    if |d| == 14 {
      LayoutDigits(d);
    }
  }

  /** An already formatted CNPJ is shown as it is. */
  lemma {:induction false} FormatCnpjKeepsShaped(value: string)
    requires CnpjShaped(value)
    ensures FormatCnpj(value) == value
  {
    var d := value[..2] + value[3..6] + value[7..10] + value[11..15] + value[16..];
    ShapedIsLayout(value);
    LayoutOfShaped(value, d);
    LayoutDigits(d);
  }

  /** Fourteen bare digits are laid out. */
  lemma {:induction false} FormatCnpjDigits(d: string)
    requires |d| == 14 && AllDigits(d)
    ensures FormatCnpj(d) == CnpjLayout(d)
  {
    DigitsOfDigits(d);
  }

  /** The layout as a right-nested concatenation. */
  lemma {:induction false} LayoutNested(d: string)
    requires |d| == 14
    ensures CnpjLayout(d) == d[..2] + ("." + (d[2..5] + ("." + (d[5..8] + ("/" + (d[8..12] + ("-" + d[12..])))))))
  {
  }

  lemma {:induction false} FormatCnpjExample()
    ensures FormatCnpj("12345678000199") == "12.345.678/0001-99"
  {
    var d := "12345678000199";
    assert "12.345.678/0001-99" == "12" + ("." + ("345" + ("." + ("678" + ("/" + ("0001" + ("-" + "99")))))));
    assert d[..2] == "12" && d[2..5] == "345" && d[5..8] == "678" && d[8..12] == "0001" && d[12..] == "99";
    assert AllDigits(d);
    FormatCnpjDigits(d);
    LayoutNested(d);
  }

  // ---------------------------------------------------------------------
  // Join key

  /** The operator id read back from a consolidated name: the text after
      its last single space ("nan" for a missing name). */
  function JoinKey(name: Cell): (k: string)
    ensures ' ' !in k
    ensures |k| <= |CellText(name)| && k == CellText(name)[|CellText(name)| - |k|..]
    ensures |k| < |CellText(name)| ==> CellText(name)[|CellText(name)| - |k| - 1] == ' '
  {
    LastToken(CellText(name))
  }

  /** The key recovers the id the consolidation put into the name. */
  lemma {:induction false} JoinKeyOfPlaceholder(id: string)
    requires ' ' !in id
    ensures JoinKey(Some(Consolidation.Placeholder(id))) == id
  {
    assert Consolidation.PlaceholderPrefix == "Operadora ANS" + " ";
    assert Consolidation.Placeholder(id) == "Operadora ANS" + " " + id;
    LastTokenAfterSpace("Operadora ANS", id);
  }

  // ---------------------------------------------------------------------
  // Registry columns

  /** The registry columns the stage uses, under the names it gives them. */
  const RegistryColumns: map<string, string> := map[
    "REGISTRO_OPERADORA" := "REG_ANS",
    "CNPJ" := "CNPJ_NEW",
    "Razao_Social" := "RAZAO_SOCIAL_NEW",
    "UF" := "UF_NEW"
  ]

  function RenameRegistryColumn(h: string): string
  {
    if h in RegistryColumns then RegistryColumns[h] else h
  }

  function RenameRegistry(hs: seq<string>): seq<string>
  {
    MapSeq(hs, RenameRegistryColumn)
  }

  /** The renamed registry has a key column exactly when the raw one has
      REGISTRO_OPERADORA or already REG_ANS. */
  lemma {:induction false} RegistryKeyColumn(hs: seq<string>)
    ensures "REG_ANS" in RenameRegistry(hs) <==> "REGISTRO_OPERADORA" in hs || "REG_ANS" in hs
  {
    var r := RenameRegistry(hs);
    if "REG_ANS" in r {
      var i :| 0 <= i < |r| && r[i] == "REG_ANS";
      assert hs[i] == "REGISTRO_OPERADORA" || hs[i] == "REG_ANS";
    }
    if "REGISTRO_OPERADORA" in hs {
      var i :| 0 <= i < |hs| && hs[i] == "REGISTRO_OPERADORA";
      assert r[i] == "REG_ANS";
    } else if "REG_ANS" in hs {
      var i :| 0 <= i < |hs| && hs[i] == "REG_ANS";
      assert r[i] == "REG_ANS";
    }
  }

  /** The registry cells the join and the fill rules read. */
  datatype RegRow = RegRow(key: Cell, cnpj: Cell, name: Cell, uf: Cell)

  function Project(header: seq<string>, row: seq<Cell>): RegRow
  {
    RegRow(Get(header, row, "REG_ANS"), Get(header, row, "CNPJ_NEW"), Get(header, row, "RAZAO_SOCIAL_NEW"), Get(header, row, "UF_NEW"))
  }

  /** No key value is held by two registry rows. */
  predicate UniqueKeys(reg: seq<RegRow>)
  {
    forall i, j :: 0 <= i < |reg| && 0 <= j < |reg| && reg[i].key.Some? && reg[i].key == reg[j].key ==> i == j
  }

  // ---------------------------------------------------------------------
  // The left join

  /** A consolidated row read back as text. Its CNPJ column is replaced
      by the registry's and is not kept. */
  datatype ExpenseIn = ExpenseIn(razaoSocial: Cell, quarter: Cell, year: Cell, amount: Cell)

  /** A joined row: the expense row and the registry cells matched to it
      (all missing when no registry row matched). */
  datatype Joined = Joined(row: ExpenseIn, cnpjNew: Cell, nameNew: Cell, ufNew: Cell)

  function Joining(e: ExpenseIn, r: RegRow): Joined
  {
    Joined(e, r.cnpj, r.name, r.uf)
  }

  function KeyIs(k: string): RegRow -> bool
  {
    (r: RegRow) => r.key == Some(k)
  }

  function JoinTo(e: ExpenseIn): RegRow -> Joined
  {
    (r: RegRow) => Joining(e, r)
  }

  /** The registry rows holding the key of `e`, joined to it. */
  function Matches(reg: seq<RegRow>, e: ExpenseIn): seq<Joined>
  {
    FilterMap(reg, KeyIs(JoinKey(e.razaoSocial)), JoinTo(e))
  }

  /** The rows one expense row yields in a left join: one per matching
      registry row, or the row alone when none matches. */
  function JoinRow(reg: seq<RegRow>, e: ExpenseIn): (r: seq<Joined>)
    ensures r != []
  {
    var ms := Matches(reg, e);
    if ms == [] then [Joined(e, None, None, None)] else ms
  }

  lemma {:induction false} JoinRowKeeps(reg: seq<RegRow>, e: ExpenseIn, j: Joined)
    requires j in JoinRow(reg, e)
    ensures j.row == e
  {
    FilterMapMembers(reg, KeyIs(JoinKey(e.razaoSocial)), JoinTo(e), j);
  }

  /** The left join of the expense rows with the registry, in the order
      of the expense rows. */
  function LeftJoin(reg: seq<RegRow>, es: seq<ExpenseIn>): seq<Joined>
  {
    Flatten(JoinParts(reg, es))
  }

  function JoinParts(reg: seq<RegRow>, es: seq<ExpenseIn>): (parts: seq<seq<Joined>>)
    ensures |parts| == |es|
    ensures forall i :: 0 <= i < |es| ==> parts[i] == JoinRow(reg, es[i])
  {
    MapSeq(es, (e: ExpenseIn) => JoinRow(reg, e))
  }

  /** A left join drops no expense row. */
  lemma {:induction false} LeftJoinCovers(reg: seq<RegRow>, es: seq<ExpenseIn>)
    ensures |LeftJoin(reg, es)| >= |es|
    ensures forall e :: e in es ==> exists j :: j in LeftJoin(reg, es) && j.row == e
  {
    var parts := JoinParts(reg, es);
    FlattenLength(parts);
    forall e | e in es ensures exists j :: j in LeftJoin(reg, es) && j.row == e {
      var i :| 0 <= i < |es| && es[i] == e;
      var j := parts[i][0];
      JoinRowKeeps(reg, e, j);
      FlattenMembers(parts, j);
      assert parts[i] in parts;
    }
  }

  /** A left join invents no expense row. */
  lemma {:induction false} LeftJoinSound(reg: seq<RegRow>, es: seq<ExpenseIn>, j: Joined)
    requires j in LeftJoin(reg, es)
    ensures j.row in es
  {
    var parts := JoinParts(reg, es);
    FlattenMembers(parts, j);
    var p :| p in parts && j in p;
    var i :| 0 <= i < |parts| && parts[i] == p;
    JoinRowKeeps(reg, es[i], j);
  }

  /** The join of two runs of expense rows is the join of the first run
      followed by the join of the second: the merge keeps the left order. */
  lemma {:induction false} LeftJoinAppend(reg: seq<RegRow>, es: seq<ExpenseIn>, fs: seq<ExpenseIn>)
    ensures LeftJoin(reg, es + fs) == LeftJoin(reg, es) + LeftJoin(reg, fs)
  {
    var a, b := JoinParts(reg, es), JoinParts(reg, fs);
    assert JoinParts(reg, es + fs) == a + b by {
      forall i | 0 <= i < |es + fs| ensures JoinParts(reg, es + fs)[i] == (a + b)[i] {
        if i < |es| {
          assert (es + fs)[i] == es[i];
        } else {
          assert (es + fs)[i] == fs[i - |es|];
        }
      }
    }
    FlattenConcat(a, b);
  }

  /** The rows joined to `es[i]` form one block, after the rows of every
      earlier expense row and before those of every later one. */
  lemma {:induction false} LeftJoinAt(reg: seq<RegRow>, es: seq<ExpenseIn>, i: nat)
    requires i < |es|
    ensures LeftJoin(reg, es)
      == LeftJoin(reg, es[..i]) + JoinRow(reg, es[i]) + LeftJoin(reg, es[i + 1..])
  {
    assert es == es[..i] + [es[i]] + es[i + 1..];
    LeftJoinAppend(reg, es[..i] + [es[i]], es[i + 1..]);
    LeftJoinAppend(reg, es[..i], [es[i]]);
    assert JoinParts(reg, [es[i]]) == [JoinRow(reg, es[i])];
    assert [JoinRow(reg, es[i])][..0] == [];
  }

  lemma {:induction false} JoinRowUnique(reg: seq<RegRow>, e: ExpenseIn)
    requires UniqueKeys(reg)
    ensures |JoinRow(reg, e)| == 1
  {
    FilterMapAtMostOne(reg, KeyIs(JoinKey(e.razaoSocial)), JoinTo(e));
  }

  /** The registry row holding the key supplies the joined cells. */
  lemma {:induction false} JoinRowMatched(reg: seq<RegRow>, e: ExpenseIn, r: RegRow)
    requires UniqueKeys(reg)
    requires r in reg && r.key == Some(JoinKey(e.razaoSocial))
    ensures JoinRow(reg, e) == [Joining(e, r)]
  {
    var i :| 0 <= i < |reg| && reg[i] == r;
    FilterMapAtMostOne(reg, KeyIs(JoinKey(e.razaoSocial)), JoinTo(e));
    assert KeyIs(JoinKey(e.razaoSocial))(reg[i]);
  }

  /** Without a registry row holding the key, the row stands alone. */
  lemma {:induction false} JoinRowUnmatched(reg: seq<RegRow>, e: ExpenseIn)
    requires forall r :: r in reg ==> r.key != Some(JoinKey(e.razaoSocial))
    ensures JoinRow(reg, e) == [Joined(e, None, None, None)]
  {
    FilterMapNone(reg, KeyIs(JoinKey(e.razaoSocial)), JoinTo(e));
  }

  /** With unique registry keys each expense row yields exactly one
      joined row, in place. */
  lemma {:induction false} LeftJoinUnique(reg: seq<RegRow>, es: seq<ExpenseIn>)
    requires UniqueKeys(reg)
    ensures |LeftJoin(reg, es)| == |es|
    ensures forall i :: 0 <= i < |es| ==> LeftJoin(reg, es)[i] == JoinRow(reg, es[i])[0]
  {
    var parts := JoinParts(reg, es);
    forall i | 0 <= i < |es| ensures |parts[i]| == 1 {
      JoinRowUnique(reg, es[i]);
    }
    FlattenSingletons(parts);
  }

  // ---------------------------------------------------------------------
  // Fill rules and amounts

  /** A joined row with the registry's values filled in and its amount
      read. */
  datatype Enriched = Enriched(razaoSocial: Cell, cnpj: string, uf: string, amount: real, quarter: Cell, year: Cell)

  const FallbackUf: string := "Indefinido"

  /** The amount text with its decimal comma turned into a point and read
      as a float; None where the read fails. */
  function ReadAmount(c: Cell): Option<real>
  {
    ParseFloat(CommaToDot(CellText(c)))
  }

  /** A decimal-comma amount reads back as its value. */
  lemma {:induction false} ReadDecimalComma(d: string, f: string)
    requires d != [] && AllDigits(d) && AllDigits(f) && |f| > 0
    ensures ReadAmount(Some(d + "," + f)) == Some(DecimalValue(d, f))
  {
    RewriteCommaParts(d, f);
    PointValue(d, f);
  }

  /** A two-place decimal-comma amount reads back exactly. */
  lemma {:induction false} ReadCommaAmount(cents: nat)
    ensures ReadAmount(Some(CommaAmount(cents))) == Some(cents as real / 100.0)
  {
    RewriteComma(cents);
    ParsePointAmount(cents);
  }

  /** The registry values where present; otherwise no CNPJ, the original
      name and "Indefinido". The CNPJ is shown formatted. */
  function Fill(j: Joined, amount: real): (r: Enriched)
    ensures j.cnpjNew.None? ==> r.cnpj == "" && !CnpjValid(r.cnpj)
    ensures j.cnpjNew.Some? ==> DigitsOf(r.cnpj) == DigitsOf(j.cnpjNew.value)
    ensures j.cnpjNew.Some? && CnpjValid(j.cnpjNew.value) ==> CnpjShaped(r.cnpj)
    ensures r.razaoSocial == if j.nameNew.Some? then j.nameNew else j.row.razaoSocial
    ensures r.uf == if j.ufNew.Some? then j.ufNew.value else FallbackUf
    ensures r.amount == amount && r.quarter == j.row.quarter && r.year == j.row.year
  {
    var cnpj := if j.cnpjNew.Some? then j.cnpjNew.value else "";
    FormatCnpjShape(cnpj);
    Enriched(
      if j.nameNew.Some? then j.nameNew else j.row.razaoSocial,
      FormatCnpj(cnpj),
      if j.ufNew.Some? then j.ufNew.value else FallbackUf,
      amount, j.row.quarter, j.row.year)
  }

  /** The fill rule applied to each joined row with its amount. */
  function FillEach(js: seq<Joined>, amounts: seq<real>): (r: seq<Enriched>)
    requires |amounts| == |js|
    ensures |r| == |js| && forall i :: 0 <= i < |js| ==> r[i] == Fill(js[i], amounts[i])
  {
    if js == [] then []
    else FillEach(js[..|js| - 1], amounts[..|js| - 1]) + [Fill(js[|js| - 1], amounts[|js| - 1])]
  }

  /** The fill rules and the amount read over all joined rows; the read
      fails when some amount is not a number. */
  function FillAll(js: seq<Joined>): (r: Option<seq<Enriched>>)
    ensures r.None? <==> exists i :: 0 <= i < |js| && ReadAmount(js[i].row.amount).None?
    ensures r.Some? ==> |r.value| == |js|
    ensures r.Some? ==> forall i :: 0 <= i < |js| ==>
      ReadAmount(js[i].row.amount) == Some(r.value[i].amount) && r.value[i] == Fill(js[i], r.value[i].amount)
  {
    var read := (j: Joined) => ReadAmount(j.row.amount);
    match AllDefined(js, read)
    case None => None
    case Some(amounts) => Some(FillEach(js, amounts))
  }

  /** The number of rows whose CNPJ is incomplete or missing; they are
      counted, not removed. */
  function InvalidCount(rows: seq<Enriched>): nat
  {
    Count(rows, (e: Enriched) => !CnpjValid(e.cnpj))
  }

  /** No row is flagged exactly when every CNPJ is complete. */
  lemma {:induction false} InvalidCountZero(rows: seq<Enriched>)
    ensures InvalidCount(rows) == 0 <==> forall i :: 0 <= i < |rows| ==> CnpjValid(rows[i].cnpj)
  {
    CountZero(rows, (e: Enriched) => !CnpjValid(e.cnpj));
  }

  // ---------------------------------------------------------------------
  // Group statistics

  /** The grouping key; a row whose name is missing belongs to no group,
      since grouping drops missing keys. */
  datatype Group = Group(name: string, cnpj: string, uf: string)

  function GroupOf(e: Enriched): Option<Group>
  {
    match e.razaoSocial
    case None => None
    case Some(n) => Some(Group(n, e.cnpj, e.uf))
  }

  function InGroup(g: Group): Enriched -> bool
  {
    (e: Enriched) => GroupOf(e) == Some(g)
  }

  function AmountOf(e: Enriched): real
  {
    e.amount
  }

  /** The amounts of the rows of group `g`, in row order. */
  function GroupAmounts(rows: seq<Enriched>, g: Group): seq<real>
  {
    FilterMap(rows, InGroup(g), AmountOf)
  }

  /** The groups present, each once, in order of first appearance. */
  function DistinctGroups(rows: seq<Enriched>): (r: seq<Group>)
    ensures forall i, j :: 0 <= i < j < |r| ==> r[i] != r[j]
  {
    if rows == [] then []
    else
      var gs := DistinctGroups(rows[..|rows| - 1]);
      match GroupOf(rows[|rows| - 1])
      case None => gs
      case Some(g) => if g in gs then gs else gs + [g]
  }

  lemma {:induction false} DistinctGroupsMembers(rows: seq<Enriched>, g: Group)
    ensures g in DistinctGroups(rows) <==> exists e :: e in rows && GroupOf(e) == Some(g)
  {
    if rows != [] {
      var init, last := rows[..|rows| - 1], rows[|rows| - 1];
      assert rows == init + [last];
      DistinctGroupsMembers(init, g);
      if exists e :: e in rows && GroupOf(e) == Some(g) {
        var e :| e in rows && GroupOf(e) == Some(g);
        if e != last { assert e in init; }
      }
    }
  }

  /** The arithmetic mean (0 for no values, a case that does not occur
      for a group). */
  function Mean(xs: seq<real>): real
  {
    if xs == [] then 0.0 else Sum(xs) / |xs| as real
  }

  lemma {:induction false} MeanTimesCount(xs: seq<real>)
    requires xs != []
    ensures Mean(xs) * |xs| as real == Sum(xs)
  {
  }

  lemma {:induction false} SquareNonNegative(d: real)
    ensures d * d >= 0.0
  {
    if d < 0.0 {
      assert d * d == (-d) * (-d);
    }
  }

  function SquaredDeviations(xs: seq<real>, m: real): (r: seq<real>)
    ensures |r| == |xs| && forall i :: 0 <= i < |r| ==> r[i] >= 0.0
  {
    var r := MapSeq(xs, (x: real) => (x - m) * (x - m));
    assert forall i :: 0 <= i < |r| ==> r[i] >= 0.0 by {
      forall i | 0 <= i < |r| ensures r[i] >= 0.0 {
        SquareNonNegative(xs[i] - m);
      }
    }
    r
  }

  /** The sample variance (divisor n - 1); a single value has none, which
      the stage reports as 0. The reported deviation is its square root. */
  function SampleVariance(xs: seq<real>): (v: real)
    ensures v >= 0.0
    ensures |xs| <= 1 ==> v == 0.0
  {
    if |xs| < 2 then 0.0
    else
      var d := SquaredDeviations(xs, Mean(xs));
      SumNonNegative(d);
      Sum(d) / (|xs| - 1) as real
  }

  /** One line of the aggregated report. */
  datatype AggregateRow = AggregateRow(razaoSocial: string, cnpj: string, uf: string, total: real, mean: real, variance: real)

  function GroupKey(a: AggregateRow): Group
  {
    Group(a.razaoSocial, a.cnpj, a.uf)
  }

  function Stats(rows: seq<Enriched>, g: Group): AggregateRow
  {
    var xs := GroupAmounts(rows, g);
    AggregateRow(g.name, g.cnpj, g.uf, Sum(xs), Mean(xs), SampleVariance(xs))
  }

  /** One report line per group. */
  function Aggregate(rows: seq<Enriched>): seq<AggregateRow>
  {
    MapSeq(DistinctGroups(rows), (g: Group) => Stats(rows, g))
  }

  /** Each group present in the rows has exactly one report line, and no
      other line exists. */
  lemma {:induction false} AggregateGroups(rows: seq<Enriched>)
    ensures forall i, j :: 0 <= i < j < |Aggregate(rows)| ==> GroupKey(Aggregate(rows)[i]) != GroupKey(Aggregate(rows)[j])
    ensures forall i :: 0 <= i < |Aggregate(rows)| ==> exists e :: e in rows && GroupOf(e) == Some(GroupKey(Aggregate(rows)[i]))
    ensures forall e :: e in rows && GroupOf(e).Some? ==> exists i :: 0 <= i < |Aggregate(rows)| && GroupKey(Aggregate(rows)[i]) == GroupOf(e).value
  {
    var gs := DistinctGroups(rows);
    var agg := Aggregate(rows);
    assert forall i :: 0 <= i < |agg| ==> GroupKey(agg[i]) == gs[i];
    forall i | 0 <= i < |agg| ensures exists e :: e in rows && GroupOf(e) == Some(GroupKey(agg[i])) {
      DistinctGroupsMembers(rows, gs[i]);
    }
    forall e | e in rows && GroupOf(e).Some? ensures exists i :: 0 <= i < |agg| && GroupKey(agg[i]) == GroupOf(e).value {
      DistinctGroupsMembers(rows, GroupOf(e).value);
      var i :| 0 <= i < |gs| && gs[i] == GroupOf(e).value;
      assert GroupKey(agg[i]) == gs[i];
    }
  }

  /** A group present in the rows has at least one amount. */
  lemma {:induction false} GroupAmountsNonEmpty(rows: seq<Enriched>, g: Group)
    requires g in DistinctGroups(rows)
    ensures GroupAmounts(rows, g) != []
  {
    DistinctGroupsMembers(rows, g);
    var e :| e in rows && GroupOf(e) == Some(g);
    FilterMapMembers(rows, InGroup(g), AmountOf, e.amount);
  }

  /** A report line holds the total of its amounts, its mean (total over
      the number of amounts), and a non-negative spread that is 0 for a
      single amount. */
  predicate LineStats(a: AggregateRow, xs: seq<real>)
  {
    && xs != []
    && a.total == Sum(xs)
    && a.mean * |xs| as real == a.total
    && (|xs| == 1 ==> a.variance == 0.0)
    && a.variance >= 0.0
  }

  /** Each report line carries the statistics of its group's amounts. */
  lemma {:induction false} AggregateStats(rows: seq<Enriched>, i: nat)
    requires i < |Aggregate(rows)|
    ensures LineStats(Aggregate(rows)[i], GroupAmounts(rows, GroupKey(Aggregate(rows)[i])))
  {
    var g := DistinctGroups(rows)[i];
    var a := Aggregate(rows)[i];
    assert a == Stats(rows, g);
    GroupAmountsNonEmpty(rows, g);
    StatsOf(rows, g);
  }

  /** The line of a group with at least one amount. */
  lemma {:induction false} StatsOf(rows: seq<Enriched>, g: Group)
    requires GroupAmounts(rows, g) != []
    ensures GroupKey(Stats(rows, g)) == g
    ensures LineStats(Stats(rows, g), GroupAmounts(rows, g))
  {
    var xs := GroupAmounts(rows, g);
    var a := Stats(rows, g);
    assert a.total == Sum(xs) && a.mean == Mean(xs) && a.variance == SampleVariance(xs);
    MeanTimesCount(xs);
  }

  // ---------------------------------------------------------------------
  // Report order

  /** Largest total first. */
  predicate ByTotal(s: seq<AggregateRow>)
  {
    forall i, j :: 0 <= i < j < |s| ==> s[i].total >= s[j].total
  }

  /** `x` placed before the first line with a smaller total. */
  function InsertByTotal(s: seq<AggregateRow>, x: AggregateRow): (r: seq<AggregateRow>)
    ensures multiset(r) == multiset(s) + multiset{x}
    ensures |r| == |s| + 1
    ensures s == [] ==> r == [x]
    ensures s != [] ==> r[0] == x || r[0] == s[0]
  {
    if s == [] then [x]
    else if x.total > s[0].total then [x] + s
    else
      assert s == [s[0]] + s[1..];
      [s[0]] + InsertByTotal(s[1..], x)
  }

  lemma {:induction false} InsertByTotalSorted(s: seq<AggregateRow>, x: AggregateRow)
    requires ByTotal(s)
    ensures ByTotal(InsertByTotal(s, x))
  {
    if s != [] && x.total <= s[0].total {
      var t := s[1..];
      assert ByTotal(t) by {
        forall i, j | 0 <= i < j < |t| ensures t[i].total >= t[j].total {
          assert t[i] == s[i + 1] && t[j] == s[j + 1];
        }
      }
      InsertByTotalSorted(t, x);
      var r := InsertByTotal(t, x);
      assert s[0].total >= r[0].total by {
        if r[0] != x { assert r[0] == s[1]; }
      }
      assert InsertByTotal(s, x) == [s[0]] + r;
    }
  }

  /** The report lines ordered by total, largest first; lines with equal
      totals keep their order. */
  function SortByTotal(s: seq<AggregateRow>): (r: seq<AggregateRow>)
    ensures multiset(r) == multiset(s)
  {
    if s == [] then []
    else
      assert s == s[..|s| - 1] + [s[|s| - 1]];
      InsertByTotal(SortByTotal(s[..|s| - 1]), s[|s| - 1])
  }

  lemma {:induction false} SortByTotalSorted(s: seq<AggregateRow>)
    ensures ByTotal(SortByTotal(s))
  {
    if s != [] {
      SortByTotalSorted(s[..|s| - 1]);
      InsertByTotalSorted(SortByTotal(s[..|s| - 1]), s[|s| - 1]);
    }
  }

  // ---------------------------------------------------------------------
  // The stage

  /** Why the stage stops without output. */
  datatype StageError =
    | MissingInput
    | MissingRegistry
    | NoRegistryKey
    | MissingColumn(name: string)
    | BadAmount

  /** The report lines and the number of rows flagged for an incomplete
      CNPJ. */
  datatype StageOutput = StageOutput(rows: seq<AggregateRow>, invalidCount: nat)

  /** The registry rows, read through the renamed header. */
  function Registry(header: seq<string>, rows: seq<seq<Cell>>): seq<RegRow>
  {
    MapSeq(rows, (row: seq<Cell>) => Project(header, row))
  }

  /** Join and fill: stops when the renamed registry lacks the key or one
      of the filled columns, or when an amount is not a number. */
  function Enrich(es: seq<ExpenseIn>, registry: Table): (r: Result<seq<Enriched>, StageError>)
  {
    var header := RenameRegistry(registry.header);
    if "REG_ANS" !in header then Failure(NoRegistryKey)
    else if "CNPJ_NEW" !in header then Failure(MissingColumn("CNPJ_NEW"))
    else if "RAZAO_SOCIAL_NEW" !in header then Failure(MissingColumn("RAZAO_SOCIAL_NEW"))
    else if "UF_NEW" !in header then Failure(MissingColumn("UF_NEW"))
    else
      match FillAll(LeftJoin(Registry(header, registry.rows), es))
      case None => Failure(BadAmount)
      case Some(rows) => Success(rows)
  }

  /** The whole stage on the two decoded files (None for a missing file). */
  function RunStage(expenses: Option<seq<ExpenseIn>>, registry: Option<Table>): Result<StageOutput, StageError>
  {
    if expenses.None? then Failure(MissingInput)
    else if registry.None? then Failure(MissingRegistry)
    else
      match Enrich(expenses.value, registry.value)
      case Failure(e) => Failure(e)
      case Success(rows) => Success(StageOutput(SortByTotal(Aggregate(rows)), InvalidCount(rows)))
  }

  /** A registry with neither REGISTRO_OPERADORA nor REG_ANS stops the
      stage. */
  lemma {:induction false} RunStageNeedsKey(es: seq<ExpenseIn>, registry: Table)
    requires "REGISTRO_OPERADORA" !in registry.header && "REG_ANS" !in registry.header
    ensures RunStage(Some(es), Some(registry)) == Failure(NoRegistryKey)
  {
    RegistryKeyColumn(registry.header);
  }

  /** On success the report is the group lines of the enriched rows,
      ordered largest total first, with the count of incomplete CNPJs. */
  lemma {:induction false} RunStageReport(es: seq<ExpenseIn>, registry: Table, rows: seq<Enriched>)
    requires Enrich(es, registry) == Success(rows)
    ensures RunStage(Some(es), Some(registry)).Success?
    ensures var out := RunStage(Some(es), Some(registry)).value;
      && ByTotal(out.rows)
      && multiset(out.rows) == multiset(Aggregate(rows))
      && out.invalidCount == InvalidCount(rows)
  {
    SortByTotalSorted(Aggregate(rows));
  }

  /** A successful enrichment is the fill of the left join. */
  lemma {:induction false} EnrichJoins(es: seq<ExpenseIn>, registry: Table, rows: seq<Enriched>)
    requires Enrich(es, registry) == Success(rows)
    ensures FillAll(LeftJoin(Registry(RenameRegistry(registry.header), registry.rows), es)) == Some(rows)
  {
  }

  /** Whatever the registry holds, no expense row is lost: each one gives
      an enriched row with its period and its amount read, and every
      enriched row comes from an expense row in that way. */
  lemma {:induction false} EnrichCovers(es: seq<ExpenseIn>, registry: Table, rows: seq<Enriched>)
    requires Enrich(es, registry) == Success(rows)
    ensures |rows| >= |es|
    ensures forall e :: e in es ==> exists r :: r in rows && Carries(e, r)
    ensures forall r :: r in rows ==> exists e :: e in es && Carries(e, r)
  {
    var reg := Registry(RenameRegistry(registry.header), registry.rows);
    var js := LeftJoin(reg, es);
    EnrichJoins(es, registry, rows);
    LeftJoinCovers(reg, es);
    forall j | j in js
      ensures j.row in es
    {
      LeftJoinSound(reg, es, j);
    }
    FillCovers(es, js, rows);
  }

  /** Filling a join that keeps exactly the expense rows carries each
      expense row into the result, and nothing else. */
  lemma {:induction false} FillCovers(es: seq<ExpenseIn>, js: seq<Joined>, rows: seq<Enriched>)
    requires FillAll(js) == Some(rows)
    requires forall e :: e in es ==> exists j :: j in js && j.row == e
    requires forall j :: j in js ==> j.row in es
    ensures |rows| == |js|
    ensures forall e :: e in es ==> exists r :: r in rows && Carries(e, r)
    ensures forall r :: r in rows ==> exists e :: e in es && Carries(e, r)
  {
    FillAllCarries(js, rows);
    forall e | e in es
      ensures exists r :: r in rows && Carries(e, r)
    {
      var j :| j in js && j.row == e;
      var i :| 0 <= i < |js| && js[i] == j;
      assert rows[i] in rows && Carries(js[i].row, rows[i]);
    }
    forall r | r in rows
      ensures exists e :: e in es && Carries(e, r)
    {
      var i :| 0 <= i < |rows| && rows[i] == r;
      assert js[i] in js;
      assert Carries(js[i].row, rows[i]);
    }
  }

  /** Each filled row carries the period and read amount of its joined
      expense row. */
  lemma {:induction false} FillAllCarries(js: seq<Joined>, rows: seq<Enriched>)
    requires FillAll(js) == Some(rows)
    ensures |rows| == |js|
    ensures forall i :: 0 <= i < |js| ==> Carries(js[i].row, rows[i])
  {
    forall i | 0 <= i < |js|
      ensures Carries(js[i].row, rows[i])
    {
      assert rows[i] == Fill(js[i], rows[i].amount);
    }
  }

  /** An enriched row carries the period and the read amount of an
      expense row. */
  predicate Carries(e: ExpenseIn, r: Enriched)
  {
    r.quarter == e.quarter && r.year == e.year && ReadAmount(e.amount) == Some(r.amount)
  }

  /** With unique registry keys the enriched rows are the expense rows one
      for one, each with its amount read and the fill rules applied to its
      registry match. */
  lemma {:induction false} EnrichOneForOne(es: seq<ExpenseIn>, registry: Table, rows: seq<Enriched>)
    requires Enrich(es, registry) == Success(rows)
    requires UniqueKeys(Registry(RenameRegistry(registry.header), registry.rows))
    ensures |rows| == |es|
    ensures forall i :: 0 <= i < |es| ==>
      && ReadAmount(es[i].amount) == Some(rows[i].amount)
      && rows[i] == Fill(JoinRow(Registry(RenameRegistry(registry.header), registry.rows), es[i])[0], rows[i].amount)
  {
    var reg := Registry(RenameRegistry(registry.header), registry.rows);
    var js := LeftJoin(reg, es);
    EnrichJoins(es, registry, rows);
    LeftJoinUnique(reg, es);
    forall i | 0 <= i < |es| ensures js[i].row == es[i] {
      JoinRowKeeps(reg, es[i], js[i]);
    }
  }
}
