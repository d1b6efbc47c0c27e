/** The consolidation step of the first stage: the rows of every usable
    file are grouped by (REG_ANS, Ano, Trimestre) and summed, each group
    gets a placeholder operator name and an empty CNPJ, and the groups
    are listed in (Ano, Trimestre, RazaoSocial) order. */
module Consolidation {
  import opened Wrappers
  import opened Seqs
  import opened Text
  import opened DataProcessor

  /** The grouping key. */
  datatype GroupKey = GroupKey(regAns: string, year: int, quarter: int)

  /** A row of the consolidated file, with its columns in file order:
      CNPJ, RazaoSocial, Trimestre, Ano, ValorDespesas. */
  datatype ConsolidatedRow = ConsolidatedRow(cnpj: string, razaoSocial: string, quarter: int, year: int, amount: real)

  /** The processed contents of the files that were not skipped, in the
      order the files were listed. */
  function Parts(files: seq<SourceFile>): seq<seq<ExpenseRow>>
  {
    FilterMap(files, Usable, RowsOf)
  }

  /** Whether a file contributes to the consolidation. */
  predicate Usable(f: SourceFile)
  {
    ProcessFile(f).Some?
  }

  /** The rows a file contributes (none when it is skipped). */
  function RowsOf(f: SourceFile): seq<ExpenseRow>
  {
    match ProcessFile(f)
    case Some(rows) => rows
    case None => []
  }

  /** The group of a row; a row without REG_ANS belongs to none, since
      grouping drops missing keys. */
  function KeyOf(e: ExpenseRow): Option<GroupKey>
  {
    match e.regAns
    case None => None
    case Some(r) => Some(GroupKey(r, e.year, e.quarter))
  }

  /** The amounts of the rows in group `k`, in row order. */
  function GroupAmounts(rows: seq<ExpenseRow>, k: GroupKey): seq<real>
  {
    FilterMap(rows, (e: ExpenseRow) => KeyOf(e) == Some(k), (e: ExpenseRow) => e.amount)
  }

  /** The group sum. */
  function SumFor(rows: seq<ExpenseRow>, k: GroupKey): real
  {
    Sum(GroupAmounts(rows, k))
  }

  /** The group sums accumulated row by row, as the consolidation loop
      builds them. */
  function Totals(rows: seq<ExpenseRow>): map<GroupKey, real>
  {
    if rows == [] then map[]
    else
      var m := Totals(rows[..|rows| - 1]);
      var e := rows[|rows| - 1];
      match KeyOf(e)
      case None => m
      case Some(k) => m[k := (if k in m then m[k] else 0.0) + e.amount]
  }

  /** A group exists exactly for the keys some row carries, and its total
      is the sum of that group's amounts. */
  lemma {:induction false} TotalsSpec(rows: seq<ExpenseRow>, k: GroupKey)
    ensures k in Totals(rows) <==> exists e :: e in rows && KeyOf(e) == Some(k)
    ensures k in Totals(rows) ==> Totals(rows)[k] == SumFor(rows, k)
    ensures k !in Totals(rows) ==> SumFor(rows, k) == 0.0
  {
    var keep := (e: ExpenseRow) => KeyOf(e) == Some(k);
    var conv := (e: ExpenseRow) => e.amount;
    if rows == [] {
      assert GroupAmounts(rows, k) == [];
    } else {
      var init, e := rows[..|rows| - 1], rows[|rows| - 1];
      assert rows == init + [e];
      TotalsSpec(init, k);
      assert GroupAmounts(rows, k) == GroupAmounts(init, k) + (if keep(e) then [e.amount] else []);
      if keep(e) {
        SumConcat(GroupAmounts(init, k), [e.amount]);
        assert Sum([e.amount]) == e.amount by { assert [e.amount][..0] == []; }
      } else {
        assert GroupAmounts(rows, k) == GroupAmounts(init, k);
      }
      if exists w :: w in rows && KeyOf(w) == Some(k) {
        var w :| w in rows && KeyOf(w) == Some(k);
        if w != e { assert w in init; }
      }
    }
  }

  /** The group sums do not depend on the order of the rows. */
  lemma {:induction false} TotalsPerm(a: seq<ExpenseRow>, b: seq<ExpenseRow>)
    requires multiset(a) == multiset(b)
    ensures Totals(a) == Totals(b)
  {
    forall k | true ensures (k in Totals(a) <==> k in Totals(b)) && (k in Totals(a) ==> Totals(a)[k] == Totals(b)[k]) {
      TotalsSpec(a, k);
      TotalsSpec(b, k);
      if exists e :: e in a && KeyOf(e) == Some(k) {
        var e :| e in a && KeyOf(e) == Some(k);
        assert e in multiset(b);
      }
      if exists e :: e in b && KeyOf(e) == Some(k) {
        var e :| e in b && KeyOf(e) == Some(k);
        assert e in multiset(a);
      }
      FilterMapPerm(a, b, (e: ExpenseRow) => KeyOf(e) == Some(k), (e: ExpenseRow) => e.amount);
      SumPerm(GroupAmounts(a, k), GroupAmounts(b, k));
    }
  }

  // ---------------------------------------------------------------------
  // Placeholder names and the output order

  const PlaceholderPrefix: string := "Operadora ANS "

  /** The name a consolidated row gets, built from its REG_ANS. */
  function Placeholder(regAns: string): (r: string)
    ensures |r| == |PlaceholderPrefix| + |regAns|
    ensures r[..|PlaceholderPrefix|] == PlaceholderPrefix
    ensures r[|PlaceholderPrefix|..] == regAns
  {
    PlaceholderPrefix + regAns
  }

  /** Different ids give different names. */
  lemma {:induction false} PlaceholderInjective(a: string, b: string)
    requires Placeholder(a) == Placeholder(b)
    ensures a == b
  {
    assert a == Placeholder(a)[|PlaceholderPrefix|..];
  }

  /** Ordering by placeholder name is ordering by id. */
  lemma {:induction false} PlaceholderOrder(a: string, b: string)
    ensures StrLess(Placeholder(a), Placeholder(b)) == StrLess(a, b)
  {
    StrLessCommonPrefix(PlaceholderPrefix, a, b);
  }

  /** The consolidated row of a group. */
  function RowOf(k: GroupKey, total: real): ConsolidatedRow
  {
    ConsolidatedRow("", Placeholder(k.regAns), k.quarter, k.year, total)
  }

  /** Ascending (Ano, Trimestre, RazaoSocial). */
  predicate RowBefore(x: ConsolidatedRow, y: ConsolidatedRow)
  {
    || x.year < y.year
    || (x.year == y.year && x.quarter < y.quarter)
    || (x.year == y.year && x.quarter == y.quarter && StrLess(x.razaoSocial, y.razaoSocial))
  }

  lemma {:induction false} RowBeforeIrreflexive(x: ConsolidatedRow)
    ensures !RowBefore(x, x)
  {
    StrLessIrreflexive(x.razaoSocial);
  }

  lemma {:induction false} RowBeforeTransitive(x: ConsolidatedRow, y: ConsolidatedRow, z: ConsolidatedRow)
    requires RowBefore(x, y) && RowBefore(y, z)
    ensures RowBefore(x, z)
  {
    if x.year == y.year == z.year && x.quarter == y.quarter == z.quarter {
      StrLessTransitive(x.razaoSocial, y.razaoSocial, z.razaoSocial);
    }
  }

  /** The rows of two different groups are always ordered. */
  lemma {:induction false} RowOfOrdered(k1: GroupKey, v1: real, k2: GroupKey, v2: real)
    requires k1 != k2
    ensures RowBefore(RowOf(k1, v1), RowOf(k2, v2)) || RowBefore(RowOf(k2, v2), RowOf(k1, v1))
  {
    if k1.year == k2.year && k1.quarter == k2.quarter {
      PlaceholderOrder(k1.regAns, k2.regAns);
      PlaceholderOrder(k2.regAns, k1.regAns);
      StrLessTotal(k1.regAns, k2.regAns);
    }
  }

  predicate StrictlySorted(s: seq<ConsolidatedRow>)
  {
    forall i, j :: 0 <= i < j < |s| ==> RowBefore(s[i], s[j])
  }

  /** `x` placed before the first row it precedes. */
  function InsertRow(s: seq<ConsolidatedRow>, x: ConsolidatedRow): (r: seq<ConsolidatedRow>)
    ensures multiset(r) == multiset(s) + multiset{x}
    ensures |r| == |s| + 1
    ensures s == [] ==> r == [x]
    ensures s != [] ==> r[0] == x || r[0] == s[0]
  {
    if s == [] then [x]
    else if RowBefore(x, s[0]) then [x] + s
    else
      assert s == [s[0]] + s[1..];
      [s[0]] + InsertRow(s[1..], x)
  }

  /** Insertion keeps a listing sorted when the new row is ordered with
      every row already there. */
  lemma {:induction false} InsertRowSorted(s: seq<ConsolidatedRow>, x: ConsolidatedRow)
    requires StrictlySorted(s)
    requires forall y :: y in s ==> RowBefore(x, y) || RowBefore(y, x)
    ensures StrictlySorted(InsertRow(s, x))
  {
    if s != [] {
      if RowBefore(x, s[0]) {
        forall j | 0 < j < |s| ensures RowBefore(x, s[j]) {
          RowBeforeTransitive(x, s[0], s[j]);
        }
      } else {
        var t := s[1..];
        assert StrictlySorted(t) by {
          forall i, j | 0 <= i < j < |t| ensures RowBefore(t[i], t[j]) {
            assert t[i] == s[i + 1] && t[j] == s[j + 1];
          }
        }
        forall y | y in t ensures RowBefore(x, y) || RowBefore(y, x) {
          assert y in s;
        }
        InsertRowSorted(t, x);
        var r := InsertRow(t, x);
        assert RowBefore(s[0], r[0]) by {
          if r[0] != x { assert r[0] == s[1]; }
        }
        forall j | 0 < j < |r| ensures RowBefore(s[0], r[j]) {
          RowBeforeTransitive(s[0], r[0], r[j]);
        }
        assert InsertRow(s, x) == [s[0]] + r;
      }
    }
  }

  /** `s` lists the groups of `m`: one row per group, sorted. */
  predicate Listing(m: map<GroupKey, real>, s: seq<ConsolidatedRow>)
  {
    && StrictlySorted(s)
    && (forall k :: k in m ==> RowOf(k, m[k]) in s)
    && (forall x :: x in s ==> exists k :: k in m && x == RowOf(k, m[k]))
  }

  /** Two sorted listings with the same rows are the same listing. */
  lemma {:induction false} SortedUnique(s: seq<ConsolidatedRow>, t: seq<ConsolidatedRow>)
    requires StrictlySorted(s) && StrictlySorted(t)
    requires forall x :: x in s <==> x in t
    ensures s == t
  {
    if s != [] { assert s[0] in t; }
    if t != [] { assert t[0] in s; }
    if s != [] {
      RowBeforeAsymmetric(s[0], t[0]);
      assert s[0] == t[0] by {
        assert t[0] in s && s[0] in t;
        var i :| 0 <= i < |s| && s[i] == t[0];
        var j :| 0 <= j < |t| && t[j] == s[0];
        assert i == 0 || j == 0;
      }
      forall x ensures x in s[1..] <==> x in t[1..] {
        if x in s[1..] {
          var i :| 1 <= i < |s| && s[i] == x;
          RowBeforeIrreflexive(s[0]);
          assert x in t;
          assert x != t[0];
        }
        if x in t[1..] {
          var j :| 1 <= j < |t| && t[j] == x;
          RowBeforeIrreflexive(t[0]);
          assert x in s;
          assert x != s[0];
        }
      }
      SortedTail(s);
      SortedTail(t);
      SortedUnique(s[1..], t[1..]);
      assert s == [s[0]] + s[1..];
      assert t == [t[0]] + t[1..];
    }
  }

  lemma {:induction false} RowBeforeAsymmetric(x: ConsolidatedRow, y: ConsolidatedRow)
    ensures !(RowBefore(x, y) && RowBefore(y, x))
  {
    RowBeforeIrreflexive(x);
    if RowBefore(x, y) && RowBefore(y, x) {
      RowBeforeTransitive(x, y, x);
    }
  }

  lemma {:induction false} SortedTail(s: seq<ConsolidatedRow>)
    requires StrictlySorted(s) && s != []
    ensures StrictlySorted(s[1..])
  {
    forall i, j | 0 <= i < j < |s| - 1 ensures RowBefore(s[1..][i], s[1..][j]) {
      assert s[1..][i] == s[i + 1] && s[1..][j] == s[j + 1];
    }
  }

  /** A sorted listing holds no row twice. */
  lemma {:induction false} SortedDistinct(s: seq<ConsolidatedRow>, i: nat, j: nat)
    requires StrictlySorted(s) && i < j < |s|
    ensures s[i] != s[j]
  {
    RowBeforeIrreflexive(s[i]);
  }

  /** The listing of a set of groups is unique. */
  lemma {:induction false} ListingUnique(m: map<GroupKey, real>, s: seq<ConsolidatedRow>, t: seq<ConsolidatedRow>)
    requires Listing(m, s) && Listing(m, t)
    ensures s == t
  {
    forall x ensures x in s <==> x in t {
      if x in s {
        var k :| k in m && x == RowOf(k, m[k]);
      }
      if x in t {
        var k :| k in m && x == RowOf(k, m[k]);
      }
    }
    SortedUnique(s, t);
  }

  /** What a listing of the group sums of `rows` says about the rows:
      every output row is the sum of one group some row belongs to, and
      every such group has its output row. */
  lemma {:induction false} ListingOfTotals(rows: seq<ExpenseRow>, s: seq<ConsolidatedRow>)
    requires Listing(Totals(rows), s)
    ensures forall x :: x in s ==> exists e :: e in rows && KeyOf(e).Some? && x == RowOf(KeyOf(e).value, SumFor(rows, KeyOf(e).value))
    ensures forall e :: e in rows && KeyOf(e).Some? ==> RowOf(KeyOf(e).value, SumFor(rows, KeyOf(e).value)) in s
  {
    forall x | x in s ensures exists e :: e in rows && KeyOf(e).Some? && x == RowOf(KeyOf(e).value, SumFor(rows, KeyOf(e).value)) {
      var k :| k in Totals(rows) && x == RowOf(k, Totals(rows)[k]);
      TotalsSpec(rows, k);
      var e :| e in rows && KeyOf(e) == Some(k);
    }
    forall e | e in rows && KeyOf(e).Some? ensures RowOf(KeyOf(e).value, SumFor(rows, KeyOf(e).value)) in s {
      TotalsSpec(rows, KeyOf(e).value);
    }
  }

  /** The listing is built on the group sums of all usable rows, which
      do not depend on the order the files were found in. */
  lemma {:induction false} FileOrderIrrelevant(files: seq<SourceFile>, other: seq<SourceFile>)
    requires multiset(files) == multiset(other)
    ensures Totals(Flatten(Parts(files))) == Totals(Flatten(Parts(other)))
    ensures Parts(files) == [] <==> Parts(other) == []
  {
    FilterMapPerm(files, other, Usable, RowsOf);
    FlattenPerm(Parts(files), Parts(other));
    TotalsPerm(Flatten(Parts(files)), Flatten(Parts(other)));
    if Parts(files) == [] {
      assert |multiset(Parts(other))| == 0;
    }
    if Parts(other) == [] {
      assert |multiset(Parts(files))| == 0;
    }
  }

  /** Every file processed in turn; the parts of the usable ones kept in
      order. */
  method ProcessAll(files: seq<SourceFile>) returns (parts: seq<seq<ExpenseRow>>)
    ensures parts == Parts(files)
  {
    parts := [];
    for i := 0 to |files|
      invariant parts == Parts(files[..i])
    {
      assert files[..i + 1][..i] == files[..i];
      var p := ProcessFile(files[i]);
      if p.Some? {
        parts := parts + [p.value];
      }
    }
    assert files[..|files|] == files;
  }

  /** The parts concatenated into one table. */
  method ConcatParts(parts: seq<seq<ExpenseRow>>) returns (all: seq<ExpenseRow>)
    ensures all == Flatten(parts)
  {
    all := [];
    for i := 0 to |parts|
      invariant all == Flatten(parts[..i])
    {
      assert parts[..i + 1][..i] == parts[..i];
      all := all + parts[i];
    }
    assert parts[..|parts|] == parts;
  }

  /** The group sums, accumulated row by row. */
  method SumGroups(all: seq<ExpenseRow>) returns (totals: map<GroupKey, real>)
    ensures totals == Totals(all)
    ensures forall k :: k in totals ==> totals[k] == SumFor(all, k)
  {
    totals := map[];
    for j := 0 to |all|
      invariant totals == Totals(all[..j])
    {
      assert all[..j + 1][..j] == all[..j];
      var e := all[j];
      match KeyOf(e)
      case None =>
      case Some(k) =>
        var prev := if k in totals then totals[k] else 0.0;
        totals := totals[k := prev + e.amount];
    }
    assert all[..|all|] == all;
    forall k | k in totals ensures totals[k] == SumFor(all, k) {
      TotalsSpec(all, k);
    }
  }

  /** One row per group, inserted in output order. */
  method ListGroups(totals: map<GroupKey, real>) returns (out: seq<ConsolidatedRow>)
    ensures Listing(totals, out)
  {
    var pending := totals.Keys;
    out := [];
    while pending != {}
      invariant pending <= totals.Keys
      invariant StrictlySorted(out)
      invariant forall k :: k in totals && k !in pending ==> RowOf(k, totals[k]) in out
      invariant forall x :: x in out ==> exists k :: k in totals && k !in pending && x == RowOf(k, totals[k])
      decreases |pending|
    {
      var k :| k in pending;
      var x := RowOf(k, totals[k]);
      forall y | y in out ensures RowBefore(x, y) || RowBefore(y, x) {
        var k' :| k' in totals && k' !in pending && y == RowOf(k', totals[k']);
        RowOfOrdered(k, totals[k], k', totals[k']);
      }
      InsertRowSorted(out, x);
      var out' := InsertRow(out, x);
      forall y | y in out' ensures exists k' :: k' in totals && k' !in pending - {k} && y == RowOf(k', totals[k']) {
        assert y in multiset(out');
        if y == x {
          assert k !in pending - {k};
        } else {
          assert y in multiset(out);
          var k' :| k' in totals && k' !in pending && y == RowOf(k', totals[k']);
          assert k' !in pending - {k};
        }
      }
      forall k' | k' in totals && k' !in pending - {k} ensures RowOf(k', totals[k']) in out' {
        if k' != k {
          assert RowOf(k', totals[k']) in multiset(out);
        }
        assert RowOf(k', totals[k']) in multiset(out');
      }
      out := out';
      pending := pending - {k};
    }
  }

  /** The consolidation run: each file is processed, the kept parts are
      concatenated, the amounts are summed per group and the groups are
      listed in output order. No usable file gives no output. */
  method Consolidate(files: seq<SourceFile>) returns (r: Option<seq<ConsolidatedRow>>)
    ensures r.None? <==> Parts(files) == []
    ensures r.Some? ==> Listing(Totals(Flatten(Parts(files))), r.value)
  {
    var parts := ProcessAll(files);
    if parts == [] {
      return None;
    }
    var all := ConcatParts(parts);
    var totals := SumGroups(all);
    var out := ListGroups(totals);
    return Some(out);
  }
}
