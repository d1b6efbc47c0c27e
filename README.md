# ANS expense pipeline — a Dafny model

The pipeline turns the quarterly accounting files that operators of health
plans file with ANS (the Brazilian supplementary-health agency) into a
small database. It runs in three stages:

1. **Consolidation** (`processing/data_processor.py`):
   - each accounting file's columns are renamed through a fixed map;
   - files lacking `REG_ANS`, `VL_SALDO_FINAL` or `DESCRICAO` are skipped;
   - the rows whose description, normalised, is "despesas com eventos/sinistros" are kept;
   - the Brazilian-format amount is parsed, and only positive amounts stay;
   - year and quarter are read from the file name;
   - the rows of all files are summed per (REG_ANS, Ano, Trimestre);
   - each group is named "Operadora ANS <REG_ANS>", given an empty CNPJ, and listed in (Ano, Trimestre, RazaoSocial) order.
2. **Enrichment** (`processing/data_enrichment.py`):
   - the operator id is recovered as the last word of the name;
   - the rows are left-joined with the operator registry (CADOP), filling CNPJ, name and UF;
   - the CNPJ is formatted as `XX.XXX.XXX/XXXX-XX` and checked for 14 digits;
   - the rows are grouped by (RazaoSocial, CNPJ, UF) into total, mean and spread, listed by total, largest first.
3. **SQL load script** (`db_importer.py`):
   - values are cleaned into SQL literals;
   - one operator insert is written per registry row;
   - then an expense insert per consolidated row whose amount does not clean to NULL (present, not blank), and an aggregate insert per aggregated row;
   - a placeholder operator ("Operadora Histórica …" / "Operadora Agregada …") is written the first time an id not yet registered appears.

Modules of the model:
- `Wrappers`: Option and Result.
- `Seqs`: index search, sums, filter-map, flatten, permutation lemmas.
- `Text`: Python's `strip`, `lower`/`upper`, the `\s+` collapse, `split(" ")[-1]`, string order.
- `Numbers`: the amount rewrites and a model of Python's `float()` on plain decimals.
- `Tables`: decoded CSV files as a header plus rows of cells.
- `DataProcessor`: the per-file work of stage 1.
- `Consolidation`: the cross-file work of stage 1, run by methods with loops.
- `Enrichment`: stage 2, as functions.
- `Importer`: stage 3. The generator's mutable state (the registered ids and the statements written) is the class `LoadScript`, whose methods are proved against the functions `RowStep`/`RowPass`/`Run`.

A cell is `Option<string>`; `None` is a pandas missing value, which Python prints as "nan". Amounts are exact `real`s. Statements are structured values, not SQL text.

## Model

| member | source | states |
|---|---|---|
| DataProcessor.RenameTargets | processing/data_processor.py:14-23 | a column becomes REG_ANS exactly when it is CD_OPERADORA, RegistroANS or REG_ANS; likewise for VL_SALDO_FINAL, DESCRICAO and DATA |
| DataProcessor.RenameHeader | processing/data_processor.py:92 | renaming keeps the header's length and renames each column through the map, leaving unknown names alone |
| DataProcessor.RequiredAfterRename | processing/data_processor.py:94-96 | the renamed header has the three required columns iff the original has some operator-id column, VL_SALDO_FINAL, and some description column |
| DataProcessor.CleanCurrencyBrazilian | processing/data_processor.py:51-58 | every Brazilian-formatted amount (thousands dots, decimal comma, two decimals) cleans to its exact value |
| DataProcessor.CleanCurrencyOneDot | processing/data_processor.py:51-58 | "h.l,ff" cleans to the value of the digits h l over 100 |
| DataProcessor.CleanCurrencyExample | processing/data_processor.py:51-58 | "1.234,56" cleans to 1234.56 |
| DataProcessor.CleanCurrencyNoDigits | processing/data_processor.py:55-58 | a text without digits fails to parse and cleans to 0.0 |
| DataProcessor.FindYear | processing/data_processor.py:65 | the search finds the first position where "20" and two digits start, or reports that none exists |
| DataProcessor.YearOf | processing/data_processor.py:65-66 | the year is the value of the first "20dd" in the name, or 2025 when the name has none; so it is 2025 or lies in 2000..2099 |
| DataProcessor.QuarterOf | processing/data_processor.py:68-77 | the quarter is 1..4; it is 2, 3 or 4 exactly when that marker is the first of "1T".."4T" to occur, and 1 otherwise |
| DataProcessor.PeriodIgnoresCase | processing/data_processor.py:63 | the period of a file name does not depend on the case of its letters |
| DataProcessor.PeriodPriorityExample | processing/data_processor.py:65-77 | "4t2024_2t.csv" is quarter 2 of 2024: "2T" is checked before "4T" |
| DataProcessor.YearExample | processing/data_processor.py:65-66 | the year of "4T2024_2T.CSV" is 2024 |
| DataProcessor.QuarterExample | processing/data_processor.py:68-77 | the quarter of "4T2024_2T.CSV" is 2 |
| DataProcessor.PeriodDefaults | processing/data_processor.py:66-77 | a name without digits gives year 2025 and quarter 1 |
| DataProcessor.PeriodNoDigits | processing/data_processor.py:61-79 | a name without digits gives period (2025, 1) |
| DataProcessor.PeriodDefaultExample | processing/data_processor.py:61-79 | "dados.csv" gives period (2025, 1) |
| DataProcessor.NormalizeDescription | processing/data_processor.py:98-104 | normalising a description never lengthens it |
| DataProcessor.ShortDescriptionFails | processing/data_processor.py:98-105 | a description shorter than the label never matches |
| DataProcessor.ClaimsRejectExample | processing/data_processor.py:98-105 | "Despesas com Eventos" and a missing description do not match |
| DataProcessor.ClaimsIgnoresCase | processing/data_processor.py:102 | matching the label does not depend on letter case |
| DataProcessor.ClaimsIgnoresPadding | processing/data_processor.py:101 | leading or trailing whitespace does not change whether a description matches |
| DataProcessor.CollapseFiveWords | processing/data_processor.py:103 | any whitespace runs between five words collapse to single spaces |
| DataProcessor.ClaimsAcceptExample | processing/data_processor.py:98-105 | "Despesas  com Eventos / Sinistros" matches |
| DataProcessor.ExtractMembers | processing/data_processor.py:98-118 | a row is extracted iff some input row passes the filter and the positive-amount test, projected with the file's period |
| DataProcessor.ExtractRows | processing/data_processor.py:111-118 | every extracted row has a positive amount and the file's year and quarter |
| DataProcessor.ProcessFileRows | processing/data_processor.py:82-118 | every row of a processed file has a positive amount and the period of the file name |
| DataProcessor.ProcessFileSkipped | processing/data_processor.py:92-109 | a readable file is skipped iff a required column is missing or no row matches the description |
| DataProcessor.ProcessFileKeeps | processing/data_processor.py:98-118 | a matching row with a positive amount appears in the file's result |
| Consolidation.TotalsSpec | processing/data_processor.py:148-152 | a group exists iff some row has that key, and its total is the sum of the amounts of the rows with that key |
| Consolidation.TotalsPerm | processing/data_processor.py:146-152 | the group totals do not depend on the order of the rows |
| Consolidation.Placeholder | processing/data_processor.py:155 | the name is "Operadora ANS " followed by the id |
| Consolidation.PlaceholderInjective | processing/data_processor.py:155 | distinct ids have distinct names |
| Consolidation.PlaceholderOrder | processing/data_processor.py:155-159 | ordering the names orders the ids |
| Consolidation.RowBeforeIrreflexive | processing/data_processor.py:159 | no row sorts before itself |
| Consolidation.RowBeforeTransitive | processing/data_processor.py:159 | the (Ano, Trimestre, RazaoSocial) order is transitive |
| Consolidation.RowOfOrdered | processing/data_processor.py:155-159 | distinct groups always compare, so the sort has no ties |
| Consolidation.InsertRowSorted | processing/data_processor.py:159 | inserting a comparable row into a sorted listing keeps it sorted |
| Consolidation.SortedUnique | processing/data_processor.py:159 | two sorted listings with the same members are equal |
| Consolidation.ListingUnique | processing/data_processor.py:148-161 | the listing of a set of group totals is unique |
| Consolidation.ListingOfTotals | processing/data_processor.py:148-161 | every listed row is a group of the input with its summed total, and every group is listed |
| Consolidation.FileOrderIrrelevant | processing/data_processor.py:136-152 | reordering the files changes neither the totals nor whether any data was found |
| Consolidation.ProcessAll | processing/data_processor.py:136-140 | the loop collects the results of the files that were not skipped, in order |
| Consolidation.ConcatParts | processing/data_processor.py:146 | the concatenation is the flattening of the parts |
| Consolidation.SumGroups | processing/data_processor.py:148-152 | the accumulated map is the group totals |
| Consolidation.ListGroups | processing/data_processor.py:154-161 | the result is the sorted listing of the totals, with placeholder name and empty CNPJ |
| Consolidation.Consolidate | processing/data_processor.py:136-161 | no output iff no file gave data; otherwise the sorted listing of the totals of all files' rows |
| Enrichment.DigitsOf | processing/data_enrichment.py:22 | the result holds only digits and is no longer than the input |
| Enrichment.FormatCnpj | processing/data_enrichment.py:17-27 | formatting keeps the digit sequence, and a value without exactly 14 digits is returned unchanged |
| Enrichment.FormatCnpjShape | processing/data_enrichment.py:17-27 | the result has the XX.XXX.XXX/XXXX-XX shape iff the value has 14 digits |
| Enrichment.FormatCnpjIdempotent | processing/data_enrichment.py:17-27 | formatting twice is formatting once |
| Enrichment.FormatCnpjKeepsShaped | processing/data_enrichment.py:17-27 | an already formatted CNPJ is unchanged |
| Enrichment.FormatCnpjDigits | processing/data_enrichment.py:24-27 | 14 bare digits are laid out in the 2.3.3/4-2 pattern |
| Enrichment.FormatCnpjExample | processing/data_enrichment.py:17-27 | "12345678000199" becomes "12.345.678/0001-99" |
| Enrichment.JoinKey | processing/data_enrichment.py:72-74 | the key is the space-free suffix of the name that is either the whole name or preceded by a space, i.e. the text after the last space |
| Enrichment.JoinKeyOfPlaceholder | processing/data_enrichment.py:72-74 | the key of a stage-1 placeholder name is the id it was built from |
| Enrichment.RegistryKeyColumn | processing/data_enrichment.py:76-87 | after renaming, the registry has REG_ANS iff it had REGISTRO_OPERADORA or REG_ANS |
| Enrichment.JoinRow | processing/data_enrichment.py:91 | a left join gives every expense row at least one joined row |
| Enrichment.LeftJoinAppend | processing/data_enrichment.py:91 | the join of two runs of expense rows is the join of the first followed by the join of the second, so the merge keeps the left order |
| Enrichment.LeftJoinAt | processing/data_enrichment.py:91 | the rows joined to the i-th expense row form one block, after those of every earlier expense row and before those of every later one |
| Enrichment.LeftJoinCovers | processing/data_enrichment.py:91 | every expense row appears in the join |
| Enrichment.LeftJoinSound | processing/data_enrichment.py:91 | every joined row comes from an expense row |
| Enrichment.JoinRowUnique | processing/data_enrichment.py:91 | with unique registry keys, each expense row joins to exactly one row |
| Enrichment.JoinRowMatched | processing/data_enrichment.py:91 | a registry row with the expense's key is the one joined |
| Enrichment.JoinRowUnmatched | processing/data_enrichment.py:91 | without a matching key, the registry cells are missing |
| Enrichment.LeftJoinUnique | processing/data_enrichment.py:91 | with unique registry keys, the join is one-for-one and in order |
| Enrichment.ReadDecimalComma | processing/data_enrichment.py:103-105 | "d,f" reads as the decimal value of d.f |
| Enrichment.ReadCommaAmount | processing/data_enrichment.py:103-105 | a two-place decimal-comma amount reads back exactly |
| Enrichment.Fill | processing/data_enrichment.py:93-101 | CNPJ empty when unmatched, else formatted with its digits kept; name from the registry, else the original; UF from the registry, else "Indefinido" |
| Enrichment.FillEach | processing/data_enrichment.py:93-105 | each joined row is filled with its own amount |
| Enrichment.FillAll | processing/data_enrichment.py:93-105 | fails iff some amount does not parse; otherwise each row is filled with its parsed amount |
| Enrichment.InvalidCountZero | processing/data_enrichment.py:107-113 | no row is counted iff every CNPJ has 14 digits |
| Enrichment.DistinctGroups | processing/data_enrichment.py:117-118 | the groups are listed without repetition |
| Enrichment.DistinctGroupsMembers | processing/data_enrichment.py:117-118 | a group is listed iff some row with a present name has that key |
| Enrichment.SampleVariance | processing/data_enrichment.py:122-135 | the spread is non-negative, and 0 for a single row (the NaN that fillna(0) turns into 0) |
| Enrichment.AggregateGroups | processing/data_enrichment.py:117-125 | one line per distinct group key, and every group appears |
| Enrichment.AggregateStats | processing/data_enrichment.py:117-125 | each line's total is the sum of its group's amounts, its mean times the count is the total, and its spread is non-negative |
| Enrichment.InsertByTotalSorted | processing/data_enrichment.py:127-129 | inserting into a list ordered by decreasing total keeps it ordered |
| Enrichment.SortByTotal | processing/data_enrichment.py:127-129 | sorting permutes the lines |
| Enrichment.SortByTotalSorted | processing/data_enrichment.py:127-129 | the sorted lines are in decreasing order of total |
| Enrichment.RunStageNeedsKey | processing/data_enrichment.py:76-87 | a registry with neither key column stops the stage |
| Enrichment.RunStageReport | processing/data_enrichment.py:111-146 | on success the report is a permutation of the group lines, ordered by decreasing total, with the count of incomplete CNPJs |
| Enrichment.EnrichCovers | processing/data_enrichment.py:91-105 | whatever the registry holds, no expense row is lost: each gives an enriched row with its period and parsed amount, and every enriched row comes from an expense row that way |
| Enrichment.EnrichOneForOne | processing/data_enrichment.py:91-105 | with unique registry keys, one enriched row per expense row, in order, with its parsed amount |
| Importer.AbsentStrip | db_importer.py:15 | a value is absent iff it is missing or blank once stripped |
| Importer.CleanDecimal | db_importer.py:14-17 | an absent value becomes NULL; any other value, leading spaces included, has its dots deleted and its commas turned into points |
| Importer.CleanDecimalCounts | db_importer.py:17 | the result has as many points as the value had commas, and no comma |
| Importer.CleanDecimalPresent | db_importer.py:14-17 | a value that is not blank is rewritten, with no strip: dots removed, commas turned into points |
| Importer.CleanDecimalOneDot | db_importer.py:17 | "h.l,f" becomes "hl.f" |
| Importer.CleanDecimalExample | db_importer.py:14-17 | "1.234,56" becomes "1234.56" |
| Importer.CleanDecimalComma | db_importer.py:17 | any plain decimal-comma amount (such as "1000,0" or "1234,5", the form the earlier stages write for amounts that need no exponent) becomes the point literal "d.f", which parses to the same value |
| Importer.CleanDecimalReadsBack | db_importer.py:17 | a two-place decimal-comma amount becomes the two-place point literal of the same value |
| Importer.UnescapeEscape | db_importer.py:23 | doubling quotes can be undone |
| Importer.StripEscape | db_importer.py:23 | stripping commutes with doubling quotes |
| Importer.CleanStr | db_importer.py:20-23 | NULL iff absent; otherwise the stripped text with every quote doubled, between quotes, whose body unescapes back to the stripped text |
| Importer.CleanUf | db_importer.py:26-33 | NULL iff absent or longer than 2 once stripped; otherwise the stripped code in quotes |
| Importer.CleanUfFallback | db_importer.py:31-32 | the enrichment fallback "Indefinido" becomes NULL |
| Importer.CleanUfCode | db_importer.py:26-33 | a one- or two-letter code is quoted as is |
| Importer.CleanUfExample | db_importer.py:26-33 | "SP" becomes 'SP' |
| Importer.PlaceholderNameInjective | db_importer.py:71 | the historic ('Operadora Histórica ' + id, line 71) and aggregate ('Operadora Agregada ' + id, line 89) placeholder names determine both the id and which kind of placeholder it is |
| Importer.EmitValid | db_importer.py:39-99 | writing a statement keeps the script valid when a dependent row's id is registered and a placeholder's is not |
| Importer.EnsureOperator | db_importer.py:70-73 | afterwards the id is registered |
| Importer.EnsureOperatorValid | db_importer.py:70-73 | a placeholder step keeps the script valid |
| Importer.EnsureOperatorEffect | db_importer.py:70-73 | the step adds exactly the id to the registered set and only appends statements |
| Importer.EnsureOperatorDependents | db_importer.py:70-73 | a placeholder step writes no dependent row |
| Importer.EmptyValid | db_importer.py:39 | the empty start state is valid |
| Importer.OperatorPassRegisters | db_importer.py:50-52 | the registry pass registers exactly the registry ids |
| Importer.OperatorPassWrites | db_importer.py:50-59 | the registry pass appends one operator insert per registry row, in order |
| Importer.OperatorPassValid | db_importer.py:50-59 | the registry pass keeps the script valid |
| Importer.OperatorPassDependents | db_importer.py:50-59 | the registry pass writes no dependent row |
| Importer.FirstMissing | db_importer.py:75-97 | none iff every column is present; otherwise the first absent column |
| Importer.ConsolidatedRows | db_importer.py:64-77 | no RazaoSocial column: every row is skipped; otherwise the run stops iff a row meets a missing Ano, Trimestre or ValorDespesas column; else one record per row |
| Importer.AggregatedRows | db_importer.py:85-97 | the run stops iff there is a row and a column is missing; otherwise one record per row |
| Importer.RowStepPlaceholder | db_importer.py:70-91 | a row writes a placeholder iff its id was not registered |
| Importer.RowPassValid | db_importer.py:64-99 | a pass over consolidated or aggregated rows keeps the script valid |
| Importer.RowPassRegisters | db_importer.py:64-99 | a pass registers the ids of all its rows, whether or not they write an insert |
| Importer.RowPassDependents | db_importer.py:64-99 | a pass's dependent rows are the inserts of the rows it keeps, in order |
| Importer.RowPassExtends | db_importer.py:64-99 | a pass only appends statements |
| Importer.AggregatePassDependents | db_importer.py:85-99 | exactly one aggregate insert per aggregated row, in order |
| Importer.RunValid | db_importer.py:39-99 | every dependent row follows an insert of its operator, the registered set is the set of defined ids, and no placeholder duplicates a defined id |
| Importer.RunRegisters | db_importer.py:39-99 | the registered ids are the registry's plus those of the consolidated and aggregated rows |
| Importer.RunDependents | db_importer.py:64-99 | the dependent rows are an expense insert for each consolidated row whose amount does not clean to NULL, then one aggregate insert per aggregated row |
| Importer.RunOperatorsFirst | db_importer.py:50-59 | the script opens with the registry's operator inserts, in order |
| Importer.RunPlaceholdersUnregistered | db_importer.py:64-99 | no placeholder is written for an id the registry holds |
| Importer.RunPlaceholdersOnce | db_importer.py:64-99 | each id gets at most one placeholder |
| Importer.LoadScript.constructor | db_importer.py:39 | a new generator has nothing registered and nothing written |
| Importer.LoadScript.EnsureRegistered | db_importer.py:70-73 | the state after the placeholder step |
| Importer.LoadScript.LoadOperators | db_importer.py:50-59 | the state after the registry pass |
| Importer.LoadScript.LoadExpense | db_importer.py:66-80 | the state after one consolidated row |
| Importer.LoadScript.LoadExpenses | db_importer.py:64-80 | the state after the consolidated pass |
| Importer.LoadScript.LoadAggregate | db_importer.py:86-99 | the state after one aggregated row |
| Importer.LoadScript.LoadAggregates | db_importer.py:85-99 | the state after the aggregated pass |
| Importer.GenerateScript | db_importer.py:36-99 | stops with the error of the first missing column, or writes the script of the three passes, which is valid: operators first, placeholders fresh |
| Text.StripEmptyIffBlank | db_importer.py:15 | stripping gives the empty text iff the text is all whitespace |
| Text.LastTokenAfterSpace | processing/data_enrichment.py:73 | the last word after a space is recovered by splitting on spaces |
| Text.CollapseIdempotent | processing/data_processor.py:103 | collapsing whitespace twice is collapsing once |
| Numbers.LocaleRewriteCounts | db_importer.py:17 | the rewrite turns each comma into a point and deletes the dots |
| Numbers.ParseBrazilian | processing/data_processor.py:56 | the rewrite of a Brazilian amount parses to its exact value |
| Numbers.RewriteComma | processing/data_enrichment.py:104 | a decimal-comma amount becomes its point form under either rewrite |
| Numbers.ParsePointAmount | processing/data_enrichment.py:104 | a point-decimal amount parses to its exact value |

## Left out

- `ingestion/downloader.py`, `backend/`, `frontend/` and `main.py` are not part of this model.
- Files, ZIP archives, directory globbing, CSV decoding (separators, encodings and their fallbacks, `on_bad_lines`, pandas' missing-value words), the SQL file's header comment and progress messages are left out. Decoded files are inputs: a header plus rows of cells, or a missing table for an unreadable file.
- Python's `float()` is modelled on plain decimals: optional whitespace, an optional sign, ASCII digits, and an optional point with digits. Exponents, `inf`/`Infinity`, `nan` and underscores are taken as unparsable.
- So stage 1 drops positive amounts written with an exponent, `inf` or underscores (`"1e5"`, `"1,5E3"`, `"Infinity"`, `"1_000"`). The source reads these as positive floats and keeps the row; the model cleans them to 0.0 and drops it.
- In stage 2 such an amount, or a `nan`, is a failure in the model; the source reads it as a float and carries it through.
- `round(2)` of totals, means and spreads is left out; the amounts stay exact reals.
- Enrichment.SampleVariance: the standard deviation is modelled as its square, the sample variance, because square roots are not modelled.
- Sort ties: the stage-2 order by total leaves ties unconstrained, as the source does. Stage-1 keys are distinct, so its order is total.
- Enrichment.JoinRowUnique, Enrichment.LeftJoinUnique, Enrichment.EnrichOneForOne: the one-for-one shape is stated only for a registry with unique keys. With duplicates the join has several rows per expense row (LeftJoinCovers and LeftJoinSound still hold), and pandas' suffixing of clashing column names is not modelled.
- Enrichment: the expense rows of stage 2 are typed records, so a missing `RazaoSocial` or `ValorDespesas` column there is not modelled.
- Importer.AggregatedRows: the operator id of an aggregated row is read from a `RegistroANS` column. The aggregated file written by stage 2 has no such column, and that mismatch is not reproduced.
- Importer.CleanDecimalComma: `to_csv` writes very large or very small amounts with an exponent (`1e+16`, `1,5e-05`). `clean_decimal` rewrites those too, and so does the model, but no lemma states what value such a literal has.
- Importer.GenerateScript: when a missing column stops the run, the source has already written part of the file. The model returns only the error.
- Statements are structured values rather than SQL text: the INSERT text and its ON CONFLICT clause are not produced.
- Case mapping and whitespace follow ASCII letters and Python's whitespace set; full Unicode case folding is not modelled.
- Digits are ASCII only. The source's `\d` and `\D` and `float()` also accept other Unicode decimal digits: in the year search, in the CNPJ digit filter and its 14-digit check, and in amounts.
- Tables.Field: a repeated column name reads the first such column. In the source, a file holding both CD_OPERADORA and REG_ANS, or both DESCRICAO and DS_CONTA, gets two columns of one name after renaming. Then `.str` on two DESCRICAO columns raises, and the file is skipped through the except. Two REG_ANS columns make the groupby of the consolidation raise. A registry holding both REGISTRO_OPERADORA and REG_ANS makes the merge raise. The model reads the first such column in each case.
