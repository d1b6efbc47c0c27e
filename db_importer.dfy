/** The load-script generator: value sanitisers for SQL literals, and
    the pass over the registry, the consolidated rows and the aggregated
    rows that emits the insert statements, with placeholder operators for
    ids the registry does not hold. */
module Importer {
  import opened Wrappers
  import opened Seqs
  import opened Text
  import opened Numbers
  import opened Tables
  import Enrichment

  // ---------------------------------------------------------------------
  // Sanitisers

  /** The SQL null literal, which the sanitisers return for a missing or
      blank value. */
  const Null: string := "NULL"

  /** A missing value or one that is blank once stripped. */
  predicate Absent(v: Cell)
  {
    v.None? || IsBlank(v.value)
  }

  lemma {:induction false} AbsentStrip(v: Cell)
    ensures Absent(v) <==> v.None? || Strip(v.value) == []
  {
    if v.Some? {
      StripEmptyIffBlank(v.value);
    }
  }

  /** NULL for a missing or blank value; otherwise the value with its dots
      deleted and its commas turned into points, whatever else it holds. */
  function CleanDecimal(v: Cell): (r: string)
    ensures Absent(v) ==> r == Null
    ensures !Absent(v) ==> r == LocaleRewrite(v.value)
  {
    AbsentStrip(v);
    if v.None? || Strip(v.value) == [] then Null
    else LocaleRewrite(v.value)
  }

  /** Every decimal comma of a present value becomes the one kind of
      point the literal holds; its thousands dots are gone. */
  lemma {:induction false} CleanDecimalCounts(v: Cell)
    requires !Absent(v)
    ensures multiset(CleanDecimal(v))['.'] == multiset(v.value)[',']
    ensures ',' !in CleanDecimal(v)
  {
    AbsentStrip(v);
    LocaleRewriteCounts(v.value);
  }

  /** `'` doubled, as a SQL string literal needs. */
  function EscapeQuotes(s: string): string
  {
    if s == [] then [] else (if s[0] == '\'' then "''" else [s[0]]) + EscapeQuotes(s[1..])
  }

  /** A doubled `'` read back as one. */
  function UnescapeQuotes(s: string): string
  {
    if s == [] then []
    else if |s| >= 2 && s[0] == '\'' && s[1] == '\'' then "'" + UnescapeQuotes(s[2..])
    else [s[0]] + UnescapeQuotes(s[1..])
  }

  lemma {:induction false} UnescapeEscape(s: string)
    ensures UnescapeQuotes(EscapeQuotes(s)) == s
  {
    if s != [] {
      var e := EscapeQuotes(s[1..]);
      UnescapeEscape(s[1..]);
      if s[0] == '\'' {
        assert EscapeQuotes(s) == "''" + e;
        assert ("''" + e)[2..] == e;
      } else {
        assert EscapeQuotes(s) == [s[0]] + e;
        assert ([s[0]] + e)[1..] == e;
      }
      assert s == [s[0]] + s[1..];
    }
  }

  lemma {:induction false} EscapeConcat(a: string, b: string)
    ensures EscapeQuotes(a + b) == EscapeQuotes(a) + EscapeQuotes(b)
  {
    if a == [] {
      assert a + b == b;
    } else {
      assert (a + b)[0] == a[0];
      assert (a + b)[1..] == a[1..] + b;
      EscapeConcat(a[1..], b);
    }
  }

  /** Escaping maps a character to itself or to two quotes, so it keeps
      whitespace at the ends exactly where it was. */
  lemma {:induction false} TrimLeftEscape(s: string)
    ensures TrimLeft(EscapeQuotes(s)) == EscapeQuotes(TrimLeft(s))
  {
    if s != [] {
      var e := EscapeQuotes(s[1..]);
      if IsSpace(s[0]) {
        assert EscapeQuotes(s) == [s[0]] + e;
        assert ([s[0]] + e)[1..] == e;
        TrimLeftEscape(s[1..]);
      } else {
        assert EscapeQuotes(s)[0] == if s[0] == '\'' then '\'' else s[0];
      }
    }
  }

  lemma {:induction false} TrimRightEscape(s: string)
    ensures TrimRight(EscapeQuotes(s)) == EscapeQuotes(TrimRight(s))
    decreases |s|
  {
    if s != [] {
      var init, c := s[..|s| - 1], s[|s| - 1];
      assert s == init + [c];
      EscapeConcat(init, [c]);
      assert [c][1..] == [];
      var e := EscapeQuotes(s);
      if IsSpace(c) {
        assert EscapeQuotes([c]) == [c];
        assert e[..|e| - 1] == EscapeQuotes(init);
        TrimRightEscape(init);
      } else {
        assert e[|e| - 1] == if c == '\'' then '\'' else c;
      }
    }
  }

  lemma {:induction false} StripEscape(s: string)
    ensures Strip(EscapeQuotes(s)) == EscapeQuotes(Strip(s))
  {
    TrimLeftEscape(s);
    TrimRightEscape(TrimLeft(s));
  }

  /** A string literal: the value with its quotes doubled, stripped and
      put between quotes. Its body is the stripped value with every quote
      doubled, and reads back as the stripped value. */
  function CleanStr(v: Cell): (r: string)
    ensures r == Null <==> Absent(v)
    ensures r != Null ==> |r| >= 2 && r[0] == '\'' && r[|r| - 1] == '\'' && UnescapeQuotes(r[1..|r| - 1]) == Strip(v.value)
    ensures r != Null ==> r == "'" + EscapeQuotes(Strip(v.value)) + "'"
  {
    AbsentStrip(v);
    if v.None? || Strip(v.value) == [] then Null
    else
      var body := Strip(EscapeQuotes(v.value));
      StripEscape(v.value);
      UnescapeEscape(Strip(v.value));
      var r := "'" + body + "'";
      assert r[1..|r| - 1] == body;
      assert r[0] != Null[0];
      r
  }

  /** A UF literal: the stripped value between quotes, or NULL when it is
      blank or longer than two characters. */
  function CleanUf(v: Cell): (r: string)
    ensures r == Null <==> Absent(v) || |Strip(v.value)| > 2
    ensures r != Null ==> r == "'" + Strip(v.value) + "'" && 3 <= |r| <= 4
  {
    AbsentStrip(v);
    if v.None? || Strip(v.value) == [] then Null
    else
      var t := Strip(v.value);
      if |t| > 2 then Null
      else
        var r := "'" + t + "'";
        assert r[0] != Null[0];
        r
  }

  /** A value that is not blank is rewritten as it stands, padding
      included. */
  lemma {:induction false} CleanDecimalPresent(s: string)
    requires !IsBlank(s)
    ensures CleanDecimal(Some(s)) == LocaleRewrite(s)
  {
    AbsentStrip(Some(s));
  }

  /** Grouped thousands and a decimal comma become a plain decimal. */
  lemma {:induction false} CleanDecimalOneDot(h: string, l: string, f: string)
    requires h != [] && AllDigits(h) && AllDigits(l) && AllDigits(f)
    ensures CleanDecimal(Some(h + "." + l + "," + f)) == h + l + "." + f
  {
    assert (h + "." + l + "," + f)[0] == h[0];
    CleanDecimalPresent(h + "." + l + "," + f);
    RewriteOneDot(h, l, f);
  }

  lemma {:induction false} RewriteOneDot(h: string, l: string, f: string)
    requires AllDigits(h) && AllDigits(l) && AllDigits(f)
    ensures LocaleRewrite(h + "." + l + "," + f) == h + l + "." + f
  {
    DeleteDotsJoin(h, l);
    DeleteDotsDigits(h);
    RewriteGroupedParts(h + "." + l, f);
  }

  lemma {:induction false} CleanDecimalExample()
    ensures CleanDecimal(Some("1.234,56")) == "1234.56"
  {
    var h, l, f: string := "1", "234", "56";
    assert h + "." + l + "," + f == "1.234,56";
    assert h + l + "." + f == "1234.56";
    CleanDecimalOneDot(h, l, f);
  }

  /** Any plain decimal-comma amount ("1000,0", "1234,5") becomes the
      point-decimal literal of the same value. This is the form the
      earlier stages write for amounts that need no exponent. */
  lemma {:induction false} CleanDecimalComma(d: string, f: string)
    requires d != [] && AllDigits(d) && AllDigits(f) && |f| > 0
    ensures CleanDecimal(Some(d + "," + f)) == d + "." + f
    ensures ParseFloat(CleanDecimal(Some(d + "," + f))) == Some(DecimalValue(d, f))
  {
    assert (d + "," + f)[0] == d[0];
    CleanDecimalPresent(d + "," + f);
    RewriteCommaParts(d, f);
    PointValue(d, f);
  }

  /** A two-place decimal-comma amount becomes the decimal literal of the
      same value. */
  lemma {:induction false} CleanDecimalReadsBack(cents: nat)
    ensures CleanDecimal(Some(CommaAmount(cents))) == PointAmount(cents)
    ensures ParseFloat(CleanDecimal(Some(CommaAmount(cents)))) == Some(cents as real / 100.0)
  {
    var d := NatDigits(cents / 100);
    assert CommaAmount(cents)[0] == d[0];
    CleanDecimalPresent(CommaAmount(cents));
    RewriteComma(cents);
    ParsePointAmount(cents);
  }

  /** The enrichment stage's fallback UF is not a state code. */
  lemma {:induction false} CleanUfFallback()
    ensures CleanUf(Some(Enrichment.FallbackUf)) == Null
  {
    var u := Enrichment.FallbackUf;
    assert u[0] == 'I' && u[|u| - 1] == 'o';
    StripNoEdges(u);
  }

  /** A one- or two-letter code without surrounding space is quoted. */
  lemma {:induction false} CleanUfCode(t: string)
    requires 1 <= |t| <= 2 && !IsSpace(t[0]) && !IsSpace(t[|t| - 1])
    ensures CleanUf(Some(t)) == "'" + t + "'"
  {
    StripNoEdges(t);
  }

  lemma {:induction false} CleanUfExample()
    ensures CleanUf(Some("SP")) == "'SP'"
  {
    var t := "SP";
    assert "'SP'" == "'" + t + "'";
    assert t[0] == 'S' && t[1] == 'P';
    CleanUfCode(t);
  }

  // ---------------------------------------------------------------------
  // Statements

  /** Which pass created a placeholder operator. */
  datatype Origin = Historic | Aggregated

  /** An emitted statement: its kind, the operator id it is about and its
      cleaned fields. */
  datatype Statement =
    | OperatorInsert(reg: string, cnpj: string, razaoSocial: string, modalidade: string, uf: string)
    | PlaceholderInsert(reg: string, origin: Origin)
    | ExpenseInsert(reg: string, year: string, quarter: string, value: string)
    | AggregateInsert(reg: string, razaoSocial: string, uf: string, total: string, mean: string, deviation: string)

  /** The name a placeholder operator gets. */
  function PlaceholderName(reg: string, origin: Origin): string
  {
    (if origin == Historic then "Operadora Hist\U{F3}rica " else "Operadora Agregada ") + reg
  }

  /** A placeholder's name tells its id and its origin apart from every
      other placeholder's. */
  lemma {:induction false} PlaceholderNameInjective(r1: string, o1: Origin, r2: string, o2: Origin)
    requires PlaceholderName(r1, o1) == PlaceholderName(r2, o2)
    ensures r1 == r2 && o1 == o2
  {
    var n1, n2 := PlaceholderName(r1, o1), PlaceholderName(r2, o2);
    var p1 := if o1 == Historic then "Operadora Hist\U{F3}rica " else "Operadora Agregada ";
    var p2 := if o2 == Historic then "Operadora Hist\U{F3}rica " else "Operadora Agregada ";
    assert n1[10] == (if o1 == Historic then 'H' else 'A');
    assert n2[10] == (if o2 == Historic then 'H' else 'A');
    assert r1 == n1[|p1|..] && r2 == n2[|p2|..];
  }

  /** Statements that create an operator row. */
  predicate Defines(s: Statement)
  {
    s.OperatorInsert? || s.PlaceholderInsert?
  }

  /** Statements whose rows reference an operator. */
  predicate Dependent(s: Statement)
  {
    s.ExpenseInsert? || s.AggregateInsert?
  }

  function DefinedIds(ss: seq<Statement>): set<string>
  {
    set i | 0 <= i < |ss| && Defines(ss[i]) :: ss[i].reg
  }

  /** Every dependent statement comes after one defining its operator. */
  predicate DefinedFirst(ss: seq<Statement>)
  {
    forall i :: 0 <= i < |ss| && Dependent(ss[i]) ==> exists j :: 0 <= j < i && Defines(ss[j]) && ss[j].reg == ss[i].reg
  }

  /** A placeholder is never created for an id already defined. */
  predicate PlaceholdersFresh(ss: seq<Statement>)
  {
    forall i, j :: 0 <= i < j < |ss| && Defines(ss[i]) && ss[j].PlaceholderInsert? ==> ss[i].reg != ss[j].reg
  }

  /** The generator's state: the ids known to have an operator row, and
      the statements written so far. */
  datatype ScriptState = ScriptState(registered: set<string>, statements: seq<Statement>)

  /** The registered set is the set of ids the script defines, every
      dependent row follows its operator, and placeholders are fresh. */
  predicate Valid(st: ScriptState)
  {
    && st.registered == DefinedIds(st.statements)
    && DefinedFirst(st.statements)
    && PlaceholdersFresh(st.statements)
  }

  /** The dependent statements, in order. */
  function Dependents(ss: seq<Statement>): seq<Statement>
  {
    FilterMap(ss, Dependent, (s: Statement) => s)
  }

  lemma {:induction false} DependentsSnoc(ss: seq<Statement>, s: Statement)
    ensures Dependents(ss + [s]) == Dependents(ss) + (if Dependent(s) then [s] else [])
  {
    assert (ss + [s])[..|ss|] == ss;
  }

  lemma {:induction false} DefinedIdsSnoc(ss: seq<Statement>, s: Statement)
    ensures DefinedIds(ss + [s]) == DefinedIds(ss) + (if Defines(s) then {s.reg} else {})
  {
    var t := ss + [s];
    forall x | x in DefinedIds(t)
      ensures x in DefinedIds(ss) + (if Defines(s) then {s.reg} else {})
    {
      var i :| 0 <= i < |t| && Defines(t[i]) && t[i].reg == x;
      if i < |ss| {
        assert t[i] == ss[i];
      }
    }
    forall x | x in DefinedIds(ss) + (if Defines(s) then {s.reg} else {})
      ensures x in DefinedIds(t)
    {
      if x in DefinedIds(ss) {
        var i :| 0 <= i < |ss| && Defines(ss[i]) && ss[i].reg == x;
        assert t[i] == ss[i];
      } else {
        assert t[|ss|] == s;
      }
    }
  }

  /** The state after writing one more statement. */
  function Emit(st: ScriptState, s: Statement): ScriptState
  {
    ScriptState(st.registered + (if Defines(s) then {s.reg} else {}), st.statements + [s])
  }

  /** Writing a statement keeps the state valid when a dependent row's
      operator is registered and a placeholder's id is not. */
  lemma {:induction false} EmitValid(st: ScriptState, s: Statement)
    requires Valid(st)
    requires Dependent(s) ==> s.reg in st.registered
    requires s.PlaceholderInsert? ==> s.reg !in st.registered
    ensures Valid(Emit(st, s))
  {
    var ss := st.statements;
    var t := ss + [s];
    DefinedIdsSnoc(ss, s);
    forall i | 0 <= i < |t| && Dependent(t[i])
      ensures exists j :: 0 <= j < i && Defines(t[j]) && t[j].reg == t[i].reg
    {
      if i < |ss| {
        assert t[i] == ss[i];
        var j :| 0 <= j < i && Defines(ss[j]) && ss[j].reg == ss[i].reg;
        assert t[j] == ss[j];
      } else {
        assert t[i] == s;
        var j :| 0 <= j < |ss| && Defines(ss[j]) && ss[j].reg == s.reg;
        assert t[j] == ss[j];
      }
    }
    forall i, j | 0 <= i < j < |t| && Defines(t[i]) && t[j].PlaceholderInsert?
      ensures t[i].reg != t[j].reg
    {
      assert t[i] == ss[i];
      if j < |ss| {
        assert t[j] == ss[j];
      } else {
        assert t[j] == s;
        assert ss[i].reg in DefinedIds(ss);
      }
    }
  }

  /** A placeholder for `reg`, unless the id is already registered. */
  function EnsureOperator(st: ScriptState, reg: string, origin: Origin): (r: ScriptState)
    ensures reg in r.registered
  {
    if reg in st.registered then st else Emit(st, PlaceholderInsert(reg, origin))
  }

  lemma {:induction false} EnsureOperatorValid(st: ScriptState, reg: string, origin: Origin)
    requires Valid(st)
    ensures Valid(EnsureOperator(st, reg, origin))
  {
    if reg !in st.registered {
      EmitValid(st, PlaceholderInsert(reg, origin));
    }
  }

  /** Dependent statements are unaffected by a placeholder. */
  lemma {:induction false} EnsureOperatorDependents(st: ScriptState, reg: string, origin: Origin)
    ensures Dependents(EnsureOperator(st, reg, origin).statements) == Dependents(st.statements)
  {
    if reg !in st.registered {
      DependentsSnoc(st.statements, PlaceholderInsert(reg, origin));
    }
  }

  lemma {:induction false} EnsureOperatorEffect(st: ScriptState, reg: string, origin: Origin)
    ensures EnsureOperator(st, reg, origin).registered == st.registered + {reg}
    ensures var ss := EnsureOperator(st, reg, origin).statements;
      |st.statements| <= |ss| && ss[..|st.statements|] == st.statements
  {
    if reg !in st.registered {
      EmitExtends(st, PlaceholderInsert(reg, origin));
    }
  }

  lemma {:induction false} EmitKeepsRegistered(st: ScriptState, s: Statement)
    requires Dependent(s)
    ensures Emit(st, s).registered == st.registered
  {
  }

  lemma {:induction false} EmitExtends(st: ScriptState, s: Statement)
    ensures var ss := Emit(st, s).statements;
      |ss| == |st.statements| + 1 && ss[..|st.statements|] == st.statements
  {
    assert (st.statements + [s])[..|st.statements|] == st.statements;
  }

  /** No statements and nothing registered: the state the run starts in. */
  const Empty := ScriptState({}, [])

  lemma {:induction false} EmptyValid()
    ensures Valid(Empty)
  {
  }

  // ---------------------------------------------------------------------
  // The registry pass

  /** The row's registration id: its REGISTRO_OPERADORA text, or "0" when
      the registry has no such column. */
  function RegistryId(header: seq<string>, row: seq<Cell>): string
  {
    match Field(header, row, "REGISTRO_OPERADORA")
    case None => "0"
    case Some(c) => CellText(c)
  }

  /** The operator insert of one registry row. The CNPJ is copied as it
      is (empty when the column is missing); name and modality are cleaned
      strings and the UF a cleaned state code. */
  function OperatorStatement(header: seq<string>, row: seq<Cell>): Statement
  {
    var cnpj := match Field(header, row, "CNPJ") case None => "" case Some(c) => CellText(c);
    OperatorInsert(RegistryId(header, row), cnpj, CleanStr(Get(header, row, "Razao_Social")),
      CleanStr(Get(header, row, "Modalidade")), CleanUf(Get(header, row, "UF")))
  }

  function OperatorOf(header: seq<string>): seq<Cell> -> Statement
  {
    row => OperatorStatement(header, row)
  }

  /** Each of `rows` writes its statement, in order. */
  function EmitEach<A>(st: ScriptState, rows: seq<A>, stmt: A -> Statement): ScriptState
  {
    if rows == [] then st else Emit(EmitEach(st, rows[..|rows| - 1], stmt), stmt(rows[|rows| - 1]))
  }

  lemma {:induction false} EmitEachWrites<A>(st: ScriptState, rows: seq<A>, stmt: A -> Statement)
    ensures var ss := EmitEach(st, rows, stmt).statements;
      && |ss| == |st.statements| + |rows|
      && ss[..|st.statements|] == st.statements
      && forall i :: 0 <= i < |rows| ==> ss[|st.statements| + i] == stmt(rows[i])
  {
    if rows != [] {
      var init := rows[..|rows| - 1];
      EmitEachWrites(st, init, stmt);
      var prev := EmitEach(st, init, stmt).statements;
      var ss := prev + [stmt(rows[|rows| - 1])];
      assert ss[..|st.statements|] == prev[..|st.statements|];
      forall i | 0 <= i < |rows|
        ensures ss[|st.statements| + i] == stmt(rows[i])
      {
        if i < |init| {
          assert rows[i] == init[i];
          assert ss[|st.statements| + i] == prev[|st.statements| + i];
        }
      }
    }
  }

  /** The registry pass: one operator insert per registry row. */
  function OperatorPass(st: ScriptState, header: seq<string>, rows: seq<seq<Cell>>): ScriptState
  {
    EmitEach(st, rows, OperatorOf(header))
  }

  function RegistryIds(header: seq<string>, rows: seq<seq<Cell>>): set<string>
  {
    set i | 0 <= i < |rows| :: RegistryId(header, rows[i])
  }

  /** The registry pass registers every registry id. */
  lemma {:induction false} OperatorPassRegisters(st: ScriptState, header: seq<string>, rows: seq<seq<Cell>>)
    ensures OperatorPass(st, header, rows).registered == st.registered + RegistryIds(header, rows)
  {
    if rows != [] {
      var init := rows[..|rows| - 1];
      var last := rows[|rows| - 1];
      OperatorPassRegisters(st, header, init);
      RegistryIdsSnoc(header, rows);
    }
  }

  lemma {:induction false} RegistryIdsSnoc(header: seq<string>, rows: seq<seq<Cell>>)
    requires rows != []
    ensures RegistryIds(header, rows) == RegistryIds(header, rows[..|rows| - 1]) + {RegistryId(header, rows[|rows| - 1])}
  {
    var init := rows[..|rows| - 1];
    forall x | x in RegistryIds(header, rows)
      ensures x in RegistryIds(header, init) + {RegistryId(header, rows[|rows| - 1])}
    {
      var i :| 0 <= i < |rows| && RegistryId(header, rows[i]) == x;
      if i < |init| {
        assert rows[i] == init[i];
      }
    }
    forall x | x in RegistryIds(header, init)
      ensures x in RegistryIds(header, rows)
    {
      var i :| 0 <= i < |init| && RegistryId(header, init[i]) == x;
      assert rows[i] == init[i];
    }
  }

  /** The registry pass writes one operator insert per registry row, in
      order, after what was already written. */
  lemma {:induction false} OperatorPassWrites(st: ScriptState, header: seq<string>, rows: seq<seq<Cell>>)
    ensures var ss := OperatorPass(st, header, rows).statements;
      && |ss| == |st.statements| + |rows|
      && ss[..|st.statements|] == st.statements
      && forall i :: 0 <= i < |rows| ==> ss[|st.statements| + i] == OperatorStatement(header, rows[i])
  {
    EmitEachWrites(st, rows, OperatorOf(header));
  }

  lemma {:induction false} OperatorPassValid(st: ScriptState, header: seq<string>, rows: seq<seq<Cell>>)
    requires Valid(st)
    ensures Valid(OperatorPass(st, header, rows))
  {
    if rows != [] {
      OperatorPassValid(st, header, rows[..|rows| - 1]);
      EmitValid(OperatorPass(st, header, rows[..|rows| - 1]), OperatorStatement(header, rows[|rows| - 1]));
    }
  }

  /** The registry pass writes no dependent row. */
  lemma {:induction false} OperatorPassDependents(st: ScriptState, header: seq<string>, rows: seq<seq<Cell>>)
    ensures Dependents(OperatorPass(st, header, rows).statements) == Dependents(st.statements)
  {
    if rows != [] {
      OperatorPassDependents(st, header, rows[..|rows| - 1]);
      DependentsSnoc(OperatorPass(st, header, rows[..|rows| - 1]).statements, OperatorStatement(header, rows[|rows| - 1]));
    }
  }

  // ---------------------------------------------------------------------
  // Reading the processed files

  /** Why a run stops: a processed file has rows but lacks a column that
      is read without a default. */
  datatype ImportError = MissingColumn(name: string)

  /** The first of `names` the header lacks. */
  function FirstMissing(header: seq<string>, names: seq<string>): (r: Option<string>)
    ensures r.None? <==> forall i :: 0 <= i < |names| ==> names[i] in header
    ensures r.Some? ==> exists i :: (0 <= i < |names| && names[i] == r.value && r.value !in header
      && forall j :: 0 <= j < i ==> names[j] in header)
  {
    if names == [] then None
    else if names[0] !in header then Some(names[0])
    else
      var rest := FirstMissing(header, names[1..]);
      if rest.Some? then
        ghost var i :| 0 <= i < |names| - 1 && names[1..][i] == rest.value && rest.value !in header
          && forall j :: 0 <= j < i ==> names[1..][j] in header;
        assert names[i + 1] == rest.value;
        rest
      else rest
  }

  /** A consolidated row: the operator name (whose last word is the id),
      the year, the quarter and the amount in decimal-comma form. */
  datatype ConsolidatedIn = ConsolidatedIn(razaoSocial: Cell, year: Cell, quarter: Cell, amount: Cell)

  const ConsolidatedColumns: seq<string> := ["Ano", "Trimestre", "ValorDespesas"]

  function ReadConsolidated(header: seq<string>, row: seq<Cell>): ConsolidatedIn
  {
    ConsolidatedIn(Get(header, row, "RazaoSocial"), Get(header, row, "Ano"),
      Get(header, row, "Trimestre"), Get(header, row, "ValorDespesas"))
  }

  /** The consolidated rows. Without a RazaoSocial column every row is
      skipped; otherwise a missing year, quarter or amount column stops
      the run at the first row. */
  function ConsolidatedRows(t: Table): (r: Result<seq<ConsolidatedIn>, ImportError>)
    ensures r.Failure? <==> (t.rows != [] && "RazaoSocial" in t.header
      && exists i :: 0 <= i < |ConsolidatedColumns| && ConsolidatedColumns[i] !in t.header)
    ensures r.Failure? ==> r.error.name in ConsolidatedColumns && r.error.name !in t.header
    ensures r.Success? && "RazaoSocial" !in t.header ==> r.value == []
    ensures r.Success? && "RazaoSocial" in t.header ==> (|r.value| == |t.rows|
      && forall i :: 0 <= i < |t.rows| ==> r.value[i] == ReadConsolidated(t.header, t.rows[i]))
  {
    if t.rows == [] || "RazaoSocial" !in t.header then Success([])
    else match FirstMissing(t.header, ConsolidatedColumns)
      case Some(name) => Failure(MissingColumn(name))
      case None => Success(MapSeq(t.rows, (row: seq<Cell>) => ReadConsolidated(t.header, row)))
  }

  /** An aggregated row: the registration id, the name, the UF and the
      three statistics in decimal-comma form. */
  datatype AggregatedIn = AggregatedIn(regAns: Cell, razaoSocial: Cell, uf: Cell, total: Cell, mean: Cell, deviation: Cell)

  const AggregatedColumns: seq<string> :=
    ["RegistroANS", "RazaoSocial", "UF", "Total_Despesas", "Media_Trimestral", "Desvio_Padrao"]

  function ReadAggregated(header: seq<string>, row: seq<Cell>): AggregatedIn
  {
    AggregatedIn(Get(header, row, "RegistroANS"), Get(header, row, "RazaoSocial"), Get(header, row, "UF"),
      Get(header, row, "Total_Despesas"), Get(header, row, "Media_Trimestral"), Get(header, row, "Desvio_Padrao"))
  }

  /** The aggregated rows; a missing column stops the run at the first
      row. */
  function AggregatedRows(t: Table): (r: Result<seq<AggregatedIn>, ImportError>)
    ensures r.Failure? <==> (t.rows != []
      && exists i :: 0 <= i < |AggregatedColumns| && AggregatedColumns[i] !in t.header)
    ensures r.Failure? ==> r.error.name in AggregatedColumns && r.error.name !in t.header
    ensures r.Success? ==> (|r.value| == |t.rows|
      && forall i :: 0 <= i < |t.rows| ==> r.value[i] == ReadAggregated(t.header, t.rows[i]))
  {
    if t.rows == [] then Success([])
    else match FirstMissing(t.header, AggregatedColumns)
      case Some(name) => Failure(MissingColumn(name))
      case None => Success(MapSeq(t.rows, (row: seq<Cell>) => ReadAggregated(t.header, row)))
  }

  // ---------------------------------------------------------------------
  // The consolidated and aggregated passes

  /** How a pass over processed rows treats a row: the id it refers to,
      which kind of placeholder a new id gets, whether the row writes its
      insert, and that insert. */
  datatype Feed<!A> = Feed(id: A -> string, origin: Origin, keep: A -> bool, insert: A -> Statement)

  /** A row's insert is a dependent row about the row's own id. */
  ghost predicate WellFormed<A(!new)>(f: Feed<A>)
  {
    forall row: A :: Dependent(f.insert(row)) && f.insert(row).reg == f.id(row)
  }

  /** A placeholder for the row's id when it is new, then the row's insert
      when the row writes one. */
  function RowStep<A>(st: ScriptState, f: Feed<A>, row: A): ScriptState
  {
    var st1 := EnsureOperator(st, f.id(row), f.origin);
    if f.keep(row) then Emit(st1, f.insert(row)) else st1
  }

  /** A row's step when it writes its insert, and when it does not. */
  lemma {:induction false} RowStepKept<A>(st: ScriptState, f: Feed<A>, row: A)
    requires f.keep(row) && Dependent(f.insert(row))
    ensures var st1 := EnsureOperator(st, f.id(row), f.origin);
      RowStep(st, f, row) == ScriptState(st1.registered, st1.statements + [f.insert(row)])
  {
    var st1 := EnsureOperator(st, f.id(row), f.origin);
    assert st1.registered + {} == st1.registered;
  }

  lemma {:induction false} RowStepSkipped<A>(st: ScriptState, f: Feed<A>, row: A)
    requires !f.keep(row)
    ensures RowStep(st, f, row) == EnsureOperator(st, f.id(row), f.origin)
  {
  }

  function RowPass<A>(st: ScriptState, f: Feed<A>, rows: seq<A>): ScriptState
  {
    if rows == [] then st else RowStep(RowPass(st, f, rows[..|rows| - 1]), f, rows[|rows| - 1])
  }

  lemma {:induction false} RowPassNext<A>(st: ScriptState, f: Feed<A>, rows: seq<A>, i: nat)
    requires i < |rows|
    ensures RowPass(st, f, rows[..i + 1]) == RowStep(RowPass(st, f, rows[..i]), f, rows[i])
  {
    assert rows[..i + 1][..i] == rows[..i];
  }

  function Ids<A>(rows: seq<A>, id: A -> string): set<string>
  {
    set i | 0 <= i < |rows| :: id(rows[i])
  }

  lemma {:induction false} IdsSnoc<A>(rows: seq<A>, id: A -> string)
    requires rows != []
    ensures Ids(rows, id) == Ids(rows[..|rows| - 1], id) + {id(rows[|rows| - 1])}
  {
    var init := rows[..|rows| - 1];
    forall x | x in Ids(rows, id)
      ensures x in Ids(init, id) + {id(rows[|rows| - 1])}
    {
      var i :| 0 <= i < |rows| && id(rows[i]) == x;
      if i < |init| {
        assert rows[i] == init[i];
      }
    }
    forall x | x in Ids(init, id)
      ensures x in Ids(rows, id)
    {
      var i :| 0 <= i < |init| && id(init[i]) == x;
      assert rows[i] == init[i];
    }
  }

  lemma {:induction false} RowPassValid<A(!new)>(st: ScriptState, f: Feed<A>, rows: seq<A>)
    requires Valid(st) && WellFormed(f)
    ensures Valid(RowPass(st, f, rows))
  {
    if rows != [] {
      var row := rows[|rows| - 1];
      var prev := RowPass(st, f, rows[..|rows| - 1]);
      RowPassValid(st, f, rows[..|rows| - 1]);
      EnsureOperatorValid(prev, f.id(row), f.origin);
      if f.keep(row) {
        EmitValid(EnsureOperator(prev, f.id(row), f.origin), f.insert(row));
      }
    }
  }

  /** A pass registers exactly the ids of its rows, whether or not they
      write an insert. */
  lemma {:induction false} RowPassRegisters<A(!new)>(st: ScriptState, f: Feed<A>, rows: seq<A>)
    requires WellFormed(f)
    ensures RowPass(st, f, rows).registered == st.registered + Ids(rows, f.id)
  {
    if rows != [] {
      var row := rows[|rows| - 1];
      var prev := RowPass(st, f, rows[..|rows| - 1]);
      RowPassRegisters(st, f, rows[..|rows| - 1]);
      EnsureOperatorEffect(prev, f.id(row), f.origin);
      if f.keep(row) {
        EmitKeepsRegistered(EnsureOperator(prev, f.id(row), f.origin), f.insert(row));
      }
      IdsSnoc(rows, f.id);
    }
  }

  /** The dependent rows a pass writes are the inserts of the rows that
      write one, in order. */
  lemma {:induction false} RowPassDependents<A(!new)>(st: ScriptState, f: Feed<A>, rows: seq<A>)
    requires WellFormed(f)
    ensures Dependents(RowPass(st, f, rows).statements) == Dependents(st.statements) + FilterMap(rows, f.keep, f.insert)
  {
    if rows != [] {
      var row := rows[|rows| - 1];
      var prev := RowPass(st, f, rows[..|rows| - 1]);
      RowPassDependents(st, f, rows[..|rows| - 1]);
      RowStepDependents(prev, f, row);
      Assoc(Dependents(st.statements), FilterMap(rows[..|rows| - 1], f.keep, f.insert),
        if f.keep(row) then [f.insert(row)] else []);
    }
  }

  /** One step adds the row's insert to the dependent rows when it writes one. */
  lemma {:induction false} RowStepDependents<A>(st: ScriptState, f: Feed<A>, row: A)
    requires Dependent(f.insert(row))
    ensures Dependents(RowStep(st, f, row).statements)
      == Dependents(st.statements) + (if f.keep(row) then [f.insert(row)] else [])
  {
    EnsureOperatorDependents(st, f.id(row), f.origin);
    if f.keep(row) {
      DependentsSnoc(EnsureOperator(st, f.id(row), f.origin).statements, f.insert(row));
    } else {
      assert Dependents(st.statements) + [] == Dependents(st.statements);
    }
  }

  /** A pass only appends. */
  lemma {:induction false} RowPassExtends<A>(st: ScriptState, f: Feed<A>, rows: seq<A>)
    ensures var ss := RowPass(st, f, rows).statements;
      |st.statements| <= |ss| && ss[..|st.statements|] == st.statements
  {
    if rows != [] {
      var row := rows[|rows| - 1];
      var prev := RowPass(st, f, rows[..|rows| - 1]);
      RowPassExtends(st, f, rows[..|rows| - 1]);
      EnsureOperatorEffect(prev, f.id(row), f.origin);
      if f.keep(row) {
        EmitExtends(EnsureOperator(prev, f.id(row), f.origin), f.insert(row));
      }
    }
  }

  /** A row writes a placeholder exactly when its id is not yet
      registered. */
  lemma {:induction false} RowStepPlaceholder<A(!new)>(st: ScriptState, f: Feed<A>, row: A)
    requires WellFormed(f)
    ensures var ss := RowStep(st, f, row).statements;
      (exists k :: |st.statements| <= k < |ss| && ss[k] == PlaceholderInsert(f.id(row), f.origin))
      <==> f.id(row) !in st.registered
  {
    var st1 := EnsureOperator(st, f.id(row), f.origin);
    var ss := RowStep(st, f, row).statements;
    var n := |st.statements|;
    if f.id(row) !in st.registered {
      assert ss[n] == PlaceholderInsert(f.id(row), f.origin);
    } else {
      assert st1 == st;
      forall k | n <= k < |ss|
        ensures !ss[k].PlaceholderInsert?
      {
        assert f.keep(row) && ss[k] == f.insert(row);
      }
    }
  }

  /** The id of a consolidated row: the last space-separated word of its
      name, as the enrichment stage derives its join key. */
  function ExpenseId(row: ConsolidatedIn): string
  {
    Enrichment.JoinKey(row.razaoSocial)
  }

  /** A consolidated row writes an expense insert when its amount cleans
      to something other than NULL: it is present and not blank (and its
      rewrite is not itself the text NULL). */
  predicate Emits(row: ConsolidatedIn)
  {
    CleanDecimal(row.amount) != Null
  }

  function ExpenseStatement(row: ConsolidatedIn): Statement
  {
    ExpenseInsert(ExpenseId(row), CellText(row.year), CellText(row.quarter), CleanDecimal(row.amount))
  }

  /** Consolidated rows: a historic placeholder for a new id, an expense
      insert when the amount does not clean to NULL. */
  const ExpenseFeed: Feed<ConsolidatedIn> := Feed(ExpenseId, Historic, Emits, ExpenseStatement)

  function AggregateId(row: AggregatedIn): string
  {
    CellText(row.regAns)
  }

  function AggregateStatement(row: AggregatedIn): Statement
  {
    AggregateInsert(AggregateId(row), CleanStr(row.razaoSocial), CleanUf(row.uf),
      CleanDecimal(row.total), CleanDecimal(row.mean), CleanDecimal(row.deviation))
  }

  predicate Always(row: AggregatedIn)
  {
    true
  }

  /** Aggregated rows: an aggregated placeholder for a new id, and an
      aggregate insert for every row. */
  const AggregateFeed: Feed<AggregatedIn> := Feed(AggregateId, Aggregated, Always, AggregateStatement)

  lemma {:induction false} FeedsWellFormed()
    ensures WellFormed(ExpenseFeed) && WellFormed(AggregateFeed)
  {
  }

  /** Each aggregated row writes exactly one aggregate insert, in order. */
  lemma {:induction false} AggregatePassDependents(st: ScriptState, rows: seq<AggregatedIn>)
    ensures Dependents(RowPass(st, AggregateFeed, rows).statements) == Dependents(st.statements) + MapSeq(rows, AggregateStatement)
  {
    FeedsWellFormed();
    RowPassDependents(st, AggregateFeed, rows);
    FilterMapAll(rows, Always, AggregateStatement);
  }

  // ---------------------------------------------------------------------
  // The whole script

  /** The three passes in order: registry, consolidated, aggregated. */
  function Run(cadop: Table, cs: seq<ConsolidatedIn>, ags: seq<AggregatedIn>): ScriptState
  {
    RowPass(RowPass(OperatorPass(Empty, cadop.header, cadop.rows), ExpenseFeed, cs), AggregateFeed, ags)
  }

  /** The load script, or why the run stops. */
  function Script(cadop: Table, consol: Table, agreg: Table): Result<ScriptState, ImportError>
  {
    match ConsolidatedRows(consol)
    case Failure(e) => Failure(e)
    case Success(cs) =>
      match AggregatedRows(agreg)
      case Failure(e) => Failure(e)
      case Success(ags) => Success(Run(cadop, cs, ags))
  }

  /** Every dependent row follows an insert of its operator, the
      registered set is the set of defined ids, and no placeholder is
      written for an id that already has an operator row. */
  lemma {:induction false} RunValid(cadop: Table, cs: seq<ConsolidatedIn>, ags: seq<AggregatedIn>)
    ensures Valid(Run(cadop, cs, ags))
  {
    EmptyValid();
    OperatorPassValid(Empty, cadop.header, cadop.rows);
    var ops := OperatorPass(Empty, cadop.header, cadop.rows);
    FeedsWellFormed();
    RowPassValid(ops, ExpenseFeed, cs);
    RowPassValid(RowPass(ops, ExpenseFeed, cs), AggregateFeed, ags);
  }

  /** The ids registered at the end: those of the registry, of the
      consolidated rows and of the aggregated rows. */
  lemma {:induction false} RunRegisters(cadop: Table, cs: seq<ConsolidatedIn>, ags: seq<AggregatedIn>)
    ensures Run(cadop, cs, ags).registered
      == RegistryIds(cadop.header, cadop.rows) + Ids(cs, ExpenseId) + Ids(ags, AggregateId)
  {
    OperatorPassRegisters(Empty, cadop.header, cadop.rows);
    var ops := OperatorPass(Empty, cadop.header, cadop.rows);
    FeedsWellFormed();
    RowPassRegisters(ops, ExpenseFeed, cs);
    RowPassRegisters(RowPass(ops, ExpenseFeed, cs), AggregateFeed, ags);
  }

  /** The dependent rows of the script: an expense insert for each
      consolidated row whose amount does not clean to NULL, then one
      aggregate insert per aggregated row. */
  lemma {:induction false} RunDependents(cadop: Table, cs: seq<ConsolidatedIn>, ags: seq<AggregatedIn>)
    ensures Dependents(Run(cadop, cs, ags).statements)
      == FilterMap(cs, Emits, ExpenseStatement) + MapSeq(ags, AggregateStatement)
  {
    var ops := OperatorPass(Empty, cadop.header, cadop.rows);
    var mid := RowPass(ops, ExpenseFeed, cs);
    var fm := FilterMap(cs, Emits, ExpenseStatement);
    var ms := MapSeq(ags, AggregateStatement);
    OperatorPassDependents(Empty, cadop.header, cadop.rows);
    FeedsWellFormed();
    RowPassDependents(ops, ExpenseFeed, cs);
    AggregatePassDependents(mid, ags);
    assert Dependents(ops.statements) == [];
    assert Dependents(mid.statements) == fm;
    assert Dependents(RowPass(mid, AggregateFeed, ags).statements) == fm + ms;
  }

  /** The script opens with the registry's operator inserts, one per
      registry row, in order. */
  lemma {:induction false} RunOperatorsFirst(cadop: Table, cs: seq<ConsolidatedIn>, ags: seq<AggregatedIn>)
    ensures var ss := Run(cadop, cs, ags).statements;
      && |cadop.rows| <= |ss|
      && forall i :: 0 <= i < |cadop.rows| ==> ss[i] == OperatorStatement(cadop.header, cadop.rows[i])
  {
    var ops := OperatorPass(Empty, cadop.header, cadop.rows).statements;
    var mid := RowPass(OperatorPass(Empty, cadop.header, cadop.rows), ExpenseFeed, cs);
    var ss := Run(cadop, cs, ags).statements;
    OperatorPassWrites(Empty, cadop.header, cadop.rows);
    RowPassExtends(OperatorPass(Empty, cadop.header, cadop.rows), ExpenseFeed, cs);
    RowPassExtends(mid, AggregateFeed, ags);
    PrefixOfPrefix(ops, mid.statements, ss);
    forall i | 0 <= i < |cadop.rows|
      ensures ss[i] == OperatorStatement(cadop.header, cadop.rows[i])
    {
      assert ss[i] == ops[i] == ops[|Empty.statements| + i];
    }
  }

  lemma {:induction false} PrefixOfPrefix(a: seq<Statement>, b: seq<Statement>, c: seq<Statement>)
    requires |a| <= |b| && b[..|a|] == a
    requires |b| <= |c| && c[..|b|] == b
    ensures |a| <= |c| && forall i :: 0 <= i < |a| ==> c[i] == a[i]
  {
    forall i | 0 <= i < |a|
      ensures c[i] == a[i]
    {
      assert c[i] == c[..|b|][i] == b[i] == b[..|a|][i];
    }
  }

  /** No placeholder is written for an id the registry holds. */
  lemma {:induction false} RunPlaceholdersUnregistered(cadop: Table, cs: seq<ConsolidatedIn>, ags: seq<AggregatedIn>)
    ensures var ss := Run(cadop, cs, ags).statements;
      forall i :: 0 <= i < |ss| && ss[i].PlaceholderInsert? ==> ss[i].reg !in RegistryIds(cadop.header, cadop.rows)
  {
    RunValid(cadop, cs, ags);
    RunOperatorsFirst(cadop, cs, ags);
    var ss := Run(cadop, cs, ags).statements;
    forall i | 0 <= i < |ss| && ss[i].PlaceholderInsert?
      ensures ss[i].reg !in RegistryIds(cadop.header, cadop.rows)
    {
      forall k | 0 <= k < |cadop.rows|
        ensures RegistryId(cadop.header, cadop.rows[k]) != ss[i].reg
      {
        assert ss[k] == OperatorStatement(cadop.header, cadop.rows[k]);
      }
    }
  }

  /** Each id gets at most one placeholder in a run. */
  lemma {:induction false} RunPlaceholdersOnce(cadop: Table, cs: seq<ConsolidatedIn>, ags: seq<AggregatedIn>)
    ensures var ss := Run(cadop, cs, ags).statements;
      forall i, j :: 0 <= i < j < |ss| && ss[i].PlaceholderInsert? && ss[j].PlaceholderInsert? ==> ss[i].reg != ss[j].reg
  {
    RunValid(cadop, cs, ags);
  }

  /** The generator's mutable state: the registered ids and the
      statements written so far. */
  class LoadScript {
    var registered: set<string>
    var statements: seq<Statement>

    function State(): ScriptState
      reads this
    {
      ScriptState(registered, statements)
    }

    constructor()
      ensures State() == Empty
    {
      registered := {};
      statements := [];
    }

    /** A placeholder operator insert for an id not yet registered, which
        is then registered. */
    method EnsureRegistered(reg: string, origin: Origin)
      modifies this
      ensures State() == EnsureOperator(old(State()), reg, origin)
    {
      if reg !in registered {
        statements := statements + [PlaceholderInsert(reg, origin)];
        registered := registered + {reg};
      }
    }

    /** One operator insert per registry row; each id is registered. */
    method LoadOperators(header: seq<string>, rows: seq<seq<Cell>>)
      modifies this
      ensures State() == OperatorPass(old(State()), header, rows)
    {
      for i := 0 to |rows|
        invariant State() == OperatorPass(old(State()), header, rows[..i])
      {
        assert rows[..i + 1][..i] == rows[..i];
        var reg := RegistryId(header, rows[i]);
        registered := registered + {reg};
        statements := statements + [OperatorStatement(header, rows[i])];
      }
      assert rows[..|rows|] == rows;
    }

    /** A placeholder for a new id, then the expense insert when the
        amount does not clean to NULL. */
    method LoadExpense(row: ConsolidatedIn)
      modifies this
      ensures State() == RowStep(old(State()), ExpenseFeed, row)
    {
      ghost var st0 := State();
      var reg := Enrichment.JoinKey(row.razaoSocial);
      assert ExpenseFeed.id(row) == reg;
      EnsureRegistered(reg, Historic);
      var value := CleanDecimal(row.amount);
      if value != Null {
        assert ExpenseFeed.insert(row) == ExpenseInsert(reg, CellText(row.year), CellText(row.quarter), value);
        statements := statements + [ExpenseInsert(reg, CellText(row.year), CellText(row.quarter), value)];
        RowStepKept(st0, ExpenseFeed, row);
      } else {
        RowStepSkipped(st0, ExpenseFeed, row);
      }
    }

    method LoadExpenses(rows: seq<ConsolidatedIn>)
      modifies this
      ensures State() == RowPass(old(State()), ExpenseFeed, rows)
    {
      for i := 0 to |rows|
        invariant State() == RowPass(old(State()), ExpenseFeed, rows[..i])
      {
        LoadExpense(rows[i]);
        RowPassNext(old(State()), ExpenseFeed, rows, i);
      }
      assert rows[..|rows|] == rows;
    }

    /** A placeholder for a new id, then the row's aggregate insert. */
    method LoadAggregate(row: AggregatedIn)
      modifies this
      ensures State() == RowStep(old(State()), AggregateFeed, row)
    {
      var reg := CellText(row.regAns);
      EnsureRegistered(reg, Aggregated);
      statements := statements + [AggregateInsert(reg, CleanStr(row.razaoSocial), CleanUf(row.uf),
        CleanDecimal(row.total), CleanDecimal(row.mean), CleanDecimal(row.deviation))];
    }

    method LoadAggregates(rows: seq<AggregatedIn>)
      modifies this
      ensures State() == RowPass(old(State()), AggregateFeed, rows)
    {
      for i := 0 to |rows|
        invariant State() == RowPass(old(State()), AggregateFeed, rows[..i])
      {
        LoadAggregate(rows[i]);
        RowPassNext(old(State()), AggregateFeed, rows, i);
      }
      assert rows[..|rows|] == rows;
    }
  }

  /** The statements of the load script, in the order they are written, or
      the missing column that stops the run. */
  method GenerateScript(cadop: Table, consol: Table, agreg: Table) returns (r: Result<seq<Statement>, ImportError>)
    ensures r.Failure? <==> Script(cadop, consol, agreg).Failure?
    ensures r.Failure? ==> r.error == Script(cadop, consol, agreg).error
    ensures r.Success? ==> r.value == Script(cadop, consol, agreg).value.statements
    ensures r.Success? ==> DefinedFirst(r.value) && PlaceholdersFresh(r.value)
  {
    var load := new LoadScript();
    load.LoadOperators(cadop.header, cadop.rows);
    var cs := ConsolidatedRows(consol);
    if cs.Failure? {
      return Failure(cs.error);
    }
    load.LoadExpenses(cs.value);
    var ags := AggregatedRows(agreg);
    if ags.Failure? {
      return Failure(ags.error);
    }
    load.LoadAggregates(ags.value);
    RunValid(cadop, cs.value, ags.value);
    return Success(load.statements);
  }
}
