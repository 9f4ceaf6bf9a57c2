# Indicator tracker: progress bookkeeping, verified

This project models the progress bookkeeping of an indicator tracker. The tracker stores strategic **indicadores** (indicators) and their **hitos** (milestones). It derives each indicator's completion percentage in one of two ways:

- **Quantitative**: from a textual target `meta` and an actual value `avance`.
- **Rolled up**: from the hitos' percentages.

The model covers five parts:

- **Progress** (`progress.dfy`): pure rules shared by every writer.
  - The quantitative percentage: `int(avance / meta * 100)` clamped to 0..100. It is 0 when the target is missing, is not a number, or is not positive.
  - The status that a percentage maps to.
  - The truncated mean used for the rollup.
- **Ordering** (`ordering.dfy`): lexicographic keys and a sort-by-key over a set of rows. It models the `ORDER BY` clauses the store relies on.
- **Store** (`store.dfy`): the `Database` class, with the `indicadores` and `hitos` tables as maps from row id to row.
  - Its methods create, update and delete rows and return whether the row existed.
  - Its functions answer the listing, lookup, distinct-value and milestone queries.
  - The class invariant includes the declared foreign key from a hito to its indicator, with ON DELETE CASCADE.
- **Ledger** (`ledger.dfy`): the monthly progress ledger `avance_mensual` and the consolidated migration that creates it.
  - The ledger is a map keyed by its UNIQUE (entity kind, entity id, month) triple.
  - Insert-or-ignore is modelled for SQLite and for PostgreSQL.
  - Each of the migration's four "add if absent" steps commits on its own.
  - In the run that creates the ledger, a backfill loop seeds it from the hitos.
- **BusinessLogic** (`business_logic.dfy`): a maintenance script. Its ALTER TABLE is durable at once, and its UPDATEs share one transaction.
  - It fills NULL load dates.
  - It recomputes the stored percentage of every quantitative indicator, counting the rows it rewrites.
- **Schemas** (`schemas.dfy`): the request and response validators. They cover required fields, ranges, minimum lengths, the report's entity pattern and defaults.

Representation choices:

- Floating-point values are exact reals, and Python's `int()` is truncation toward zero.
- A textual `meta` is one of three cases: `Absent` (SQL NULL), `Numeric(value)` (a text that `float()` accepts) or `NonNumeric(raw)` (one it rejects, including the empty text).
- Clocks are parameters: `today` and the month `mes`.
- A store or database error is a `fault` parameter that names where the error is raised.
- Where the SQL has no ORDER BY, rows are read in rowid order, the order of a table scan.

## Model

| member | source | states |
|---|---|---|
| Progress.Trunc | database.py:215 | `int()` of a real is the integer part, truncated toward zero: it brackets the value from below for non-negative inputs and from above for negative ones |
| Progress.Clamp | database.py:216 | `min(100, max(0, v))` lies in 0..100 and is the identity on 0..100 |
| Progress.QuantitativePercent | database.py:209-219 | the percentage always lies in 0..100, and it is 0 whenever the target is missing, non-numeric or not positive, or the actual value is missing |
| Progress.QuantitativeIsPercentOf | database.py:209-219 | for a usable target the percentage is the largest whole percentage in 0..100 that the ratio 100·avance/meta reaches, an independent reading of the formula |
| Progress.PercentOfUnique | database.py:209-219 | that reading determines a single percentage |
| Progress.QuantitativeCompleteIff | database.py:214-216 | the percentage is 100 exactly when the actual value reaches the target |
| Progress.QuantitativeZeroIff | database.py:214-216 | the percentage is 0 exactly when the actual value is below 1% of the target |
| Progress.RatioAtLeast | database.py:215 | the ratio reaches k% exactly when the actual value reaches k% of the target |
| Progress.QuantitativeMonotone | database.py:209-219 | more progress never lowers the percentage |
| Progress.StatusOf | database.py:520-525 | 0 maps to "Por comenzar", any other value below 100 to "En progreso", 100 and above to "Completado", each as an if-and-only-if |
| Progress.TruncDiv | database.py:574 | `int()` of a quotient: the quotient truncated toward zero, bracketed by the dividend |
| Progress.TruncatedMean | database.py:567-574 | `int(AVG(...))`: 0 over no rows; otherwise the largest m with m·count ≤ sum, for a non-negative sum |
| Progress.TruncatedMeanInRange | database.py:567-574 | the mean of values that all lie in 0..100 lies in 0..100 |
| Progress.SumInRange | database.py:568 | values that all lie in 0..100 sum to at most 100 per value |
| Ordering.LexIrreflexive | database.py:510 | the ORDER BY comparison never ranks a key before itself |
| Ordering.LexTransitive | database.py:510 | the ORDER BY comparison is transitive |
| Ordering.LexTotal | database.py:510 | two different keys are always ranked one way or the other |
| Ordering.LexAsymmetric | database.py:510 | no two keys are ranked both ways |
| Ordering.LeastExists | database.py:510 | a non-empty set of rows with distinct keys has a first row |
| Ordering.LeastUnique | database.py:510 | that first row is unique |
| Ordering.SortedBy | database.py:465 | the rows listed by ascending key: each row of the set exactly once, keys strictly increasing |
| Ordering.PrependLeast | database.py:510 | the first row followed by the sorted rest is sorted and lists the whole set |
| Ordering.SortedDistinct | database.py:465 | a list with strictly increasing keys repeats no row |
| Store.NewIndicador | database.py:209-240 | the created row stores the caller's year, name, type, descriptive columns, target, actual value and status verbatim, and today as its load date; it stores `tiene_hitos` as 1/0; its percentage lies in 0..100, is 0 with hitos or an unusable target, and otherwise is the reading of `Progress.IsPercentOf` |
| Store.AvanceUpdated | database.py:358-384 | each argument that is None keeps the stored value; the percentage is recomputed from the resulting target and actual value whether or not the indicator has hitos; no other column changes |
| Store.AvanceUpdatedNothingIdempotent | database.py:358-384 | an update with no new values leaves a consistent row unchanged |
| Store.CreatedStatusNotDerived | database.py:210-240 | creation does not derive the status: a target of 50 reached with 80 is stored at 100% but "Por comenzar" |
| Store.Matches | database.py:274-292 | a row passes the listing filters when every active filter equals its column; a NULL area or unit never matches an active filter on it |
| Store.InactiveFiltersMatchAll | database.py:274-292 | filters that are absent or falsy (empty text, year 0) filter nothing |
| Store.ValorKeyInjective | database.py:465 | distinct column values have distinct sort keys |
| Store.HitoKeyInjective | database.py:510 | distinct hitos have distinct (orden, id) keys |
| Store.HitosOrdered | database.py:505-515 | the hitos of one indicator: exactly those whose `indicador_id` matches, each once, ordered by `orden` (NULL first) and then by id |
| Store.HitoRowsSpec | database.py:510 | the listed rows are exactly the stored hitos of the indicator |
| Store.RowsCoverIds | database.py:510 | every hito of the indicator appears in the listing |
| Store.RowsOf | database.py:512 | the listed rows pair each id with its stored hito, in order |
| Store.PercentsOf | database.py:568 | the percentages of a list of hitos, in list order |
| Store.RollupPercent | database.py:567-574 | the rollup of an indicator without hitos is 0 |
| Store.RollupInRange | database.py:567-589 | if every hito of the indicator lies in 0..100, so does the rollup |
| Store.CascadeDelete | database.py:104 | deleting an indicator removes exactly its hitos and keeps every other hito unchanged |
| Store.Database.constructor | database.py:52-164 | a freshly initialised store has both tables empty and satisfies the invariant |
| Store.Database.CreateIndicador | database.py:166-246 | inserts the row of `Store.NewIndicador` under a fresh id, keeps the hitos and preserves the invariant |
| Store.Database.GetIndicadorById | database.py:301-327 | returns the row exactly when one has this id |
| Store.Database.GetAllIndicadores | database.py:248-299 | returns exactly the rows that pass every active filter |
| Store.Database.UpdateAvance | database.py:329-391 | returns false and changes nothing for an unknown id; otherwise writes the row of `Store.AvanceUpdated` and returns true |
| Store.Database.DeleteIndicador | database.py:393-413 | returns whether the indicator existed; afterwards it is gone, and so are its hitos by the declared cascade |
| Store.Database.GetUniqueValues | database.py:451-469 | the distinct non-NULL values of a column, in ascending order and without repeats |
| Store.Database.GetHitosByIndicador | database.py:505-515 | returns every stored hito of the indicator and no other, each once with its stored row, ordered by `orden` (NULL first) and then by id |
| Store.Database.CreateHito | database.py:473-503 | inserts the hito under a fresh id when its indicator exists; otherwise the declared foreign key rejects it and nothing changes |
| Store.Database.UpdateHitoAvance | database.py:517-541 | returns whether the hito existed; writes the new percentage and the status it maps to, to that hito only |
| Store.Database.DeleteHito | database.py:543-555 | returns whether the hito existed; afterwards no hito has that id and the others are unchanged |
| Store.Database.UpdateIndicadorFromHitos | database.py:557-595 | returns whether the indicator existed; sets its percentage to the rollup of its hitos and its status to the one the rollup maps to, to that indicator only |
| Ledger.InsertResult | migration_completa.py:126-128 | a report is inserted exactly when its key is free and it meets the CHECK; only PostgreSQL raises on a CHECK violation |
| Ledger.ConflictIgnored | migration_completa.py:277-280 | a valid report for a taken key is ignored without an error in both dialects |
| Ledger.BackfillRowsExactly | migration_completa.py:115-129 | the backfill leaves exactly one ('hito', id, month, percentage) row per hito whose percentage is positive (and at most 100); a hito at 0 gets none |
| Ledger.BackfillSeq | migration_completa.py:124-129 | every row the loop has written meets the CHECKs, is of kind hito, belongs to a hito it has visited and carries that hito's percentage |
| Ledger.BackfillSeqSnoc | migration_completa.py:124-129 | one more insert adds that hito's row when it qualifies, and nothing otherwise |
| Ledger.BackfillSeqComplete | migration_completa.py:115-129 | inserting all the candidates, in whatever order, leaves the backfill |
| Ledger.NoAbortWithinCheck | migration_completa.py:277-280 | PostgreSQL does not abort when every candidate meets the CHECK |
| Ledger.MigrateCompletesSchema | migration_completa.py:23-162 | a run without errors leaves every schema object present |
| Ledger.MigrateIdempotent | migration_completa.py:14 | a run after a completed run changes nothing, whatever the hitos and the month |
| Ledger.Migrate | migration_completa.py:23-165 | the whole migration, step by step; it completes exactly when no step raises (a backfill error counts only when the backfill runs) and PostgreSQL's backfill does not abort |
| Ledger.LedgerKeptOrBackfilled | migration_completa.py:84-135 | the ledger rows end either as they were or, when the run created the table, as exactly the backfill |
| Ledger.ExistingLedgerUntouched | migration_completa.py:84-135 | a run that finds the ledger table never touches its rows |
| Ledger.FailureKeepsEarlierSteps | migration_completa.py:38-162 | after a failure the steps before the failing one are kept, and that step and the later ones are left as they were |
| Ledger.FailedBackfillNeverRetried | migration_completa.py:84-135 | when the backfill fails, its table is already committed, so the next run skips the backfill and completes with an empty ledger |
| Ledger.LedgerDb.constructor | migration_completa.py:86-97 | a ledger whose rows meet the CHECKs and which has no rows without its table |
| Ledger.LedgerDb.InsertOrIgnore | migration_completa.py:126-128 | adds the report when `Ledger.InsertResult` says it is inserted and leaves the ledger unchanged otherwise; the CHECK invariant is preserved |
| Ledger.LedgerDb.InsertCandidates | migration_completa.py:115-129 | aborts exactly when PostgreSQL meets a percentage above 100; otherwise the ledger holds exactly the backfill rows |
| Ledger.LedgerDb.BackfillHitos | migration_completa.py:113-135 | commits the backfill rows, or on an abort or a store error rolls back to the empty table |
| Ledger.LedgerDb.MigrateCompleta | migration_completa.py:23-165 | the schema, the ledger and the outcome are those of the specification `Ledger.Migrate`, whose properties are the lemmas above |
| BusinessLogic.AddHitoFechaCarga | migrate_business_logic.py:18-25 | when absent, the column is added and reads NULL in every existing row; nothing else changes |
| BusinessLogic.FillIndicadorFecha | migrate_business_logic.py:28-32 | `fecha_carga` becomes today exactly where it is NULL; non-NULL dates and all other columns are untouched |
| BusinessLogic.FillHitoFecha | migrate_business_logic.py:40-44 | the same for hitos |
| BusinessLogic.Recompute | migrate_business_logic.py:59-82 | a candidate with a positive numeric target gets the quantitative percentage; every other row, including a candidate with a bad target, keeps its stored percentage; no other column changes |
| BusinessLogic.RecomputeAll | migrate_business_logic.py:67-82 | every row is recomputed, and the table has the same ids |
| BusinessLogic.RecomputeBelowStep | migrate_business_logic.py:67-79 | visiting one more id recomputes that row only |
| BusinessLogic.RecalculatedBelowStep | migrate_business_logic.py:79 | visiting one more id adds one to the counter exactly when that row is rewritten |
| BusinessLogic.RecomputeBelowAll | migrate_business_logic.py:67-82 | once every id has been visited the whole table is recomputed and every rewritten row counted |
| BusinessLogic.Migrated | migrate_business_logic.py:14-104 | the script with step 1 corrected: an error in the ALTER changes nothing; an error in a later step rolls back the UPDATEs but keeps the added column; a run without errors commits with the column present, on the same rows |
| BusinessLogic.MigratedAsWritten | migrate_business_logic.py:14-104 | the script as written agrees with the corrected one exactly when hitos already has the column, hitos is empty, or the ALTER raises anyway |
| BusinessLogic.AsWrittenRollsBackWithoutColumn | migrate_business_logic.py:22 | as written, on a hitos table with rows but without the column, the run is rolled back whatever else happens, changes nothing and leaves the column missing |
| BusinessLogic.FaultKeepsAddedColumn | migrate_business_logic.py:22-104 | with the correction, an error after step 1 rolls back every UPDATE but keeps the added column, NULL in every existing hito |
| BusinessLogic.MigratedDatesEverything | migrate_business_logic.py:18-44 | after a run without errors every indicator and every hito has a `fecha_carga` |
| BusinessLogic.NoTieneHitosNoRecompute | migrate_business_logic.py:58-89 | without the `tiene_hitos` column no percentage changes and the counter stays 0 |
| BusinessLogic.RecomputeAgreesWithStore | migrate_business_logic.py:69-78 | for a rewritten row the recompute writes what the store's `update_avance` writes |
| BusinessLogic.BadMetaKeepsPercent | migrate_business_logic.py:70-82 | a candidate whose target is non-numeric or not positive keeps its percentage, while `update_avance` would reset it to 0 |
| BusinessLogic.RecomputeIdempotent | migrate_business_logic.py:67-82 | recomputing a row twice is recomputing it once |
| BusinessLogic.FillIndicadorFechaDated | migrate_business_logic.py:28-33 | on a table without NULL dates the fill changes nothing and counts nothing |
| BusinessLogic.FillHitoFechaDated | migrate_business_logic.py:40-45 | the same for hitos |
| BusinessLogic.RecomputeAllIdempotent | migrate_business_logic.py:67-82 | recomputing the table twice is recomputing it once, and rewrites the same rows |
| BusinessLogic.MigratedIdempotent | migrate_business_logic.py:14-91 | after a run without errors, a second one leaves both tables unchanged and fills no date, but counts the same rows as recomputed again |
| BusinessLogic.RecomputeQuantitative | migrate_business_logic.py:56-82 | the loop leaves the table of `BusinessLogic.RecomputeAll`, and `recalculated` is the number of rows it rewrote |
| BusinessLogic.MigrateBusinessLogic | migrate_business_logic.py:14-104 | the tables, the presence of the hitos column and the outcome are those of `BusinessLogic.Migrated` for the step that raises, if any |
| Schemas.RequiredErrors | schemas.py:14-15 | a required field is accepted exactly when it is given; left out it is reported missing, null it is reported as not allowed |
| Schemas.DefaultedErrors | schemas.py:22 | a field with a non-null default may be left out but not set to null |
| Schemas.ValueOr | schemas.py:22 | a field left out takes its default |
| Schemas.BoundErrors | schemas.py:14 | a value is accepted exactly when it lies within the bounds; below the lower bound it is reported too small, above the upper bound too large |
| Schemas.RangeErrors | schemas.py:14 | a required integer is accepted exactly when it is given and within bounds |
| Schemas.NonEmptyErrors | schemas.py:15 | a required text is accepted exactly when it is given with at least one character |
| Schemas.ParseIndicador | schemas.py:12-33 | an indicator request validates exactly when year is in 2020..2030, the name is non-empty, the type is given and no defaulted field is null; the status defaults to "Por comenzar" and `tiene_hitos` to false |
| Schemas.IndicadorErrorsReported | schemas.py:14-27 | each violated constraint is reported against its own field: a year out of range, missing or null; a name empty, missing or null; a type missing or null; a null status or `tiene_hitos` |
| Schemas.SendIndicador | schemas.py:12-28 | a validated request serialises with every field given |
| Schemas.IndicadorRoundTrip | schemas.py:12-33 | a validated request sent back validates to itself |
| Schemas.IndicadorDefaults | schemas.py:22-27 | a request that omits status and `tiene_hitos` gets "Por comenzar" and false |
| Schemas.ParseIndicadorUpdate | schemas.py:36-53 | every field of an update is optional, but a given year must lie in 2020..2030; only the year is ever reported |
| Schemas.ParseIndicadorResponse | schemas.py:56-63 | a response meets the create constraints and has an id; its percentage defaults to 0 |
| Schemas.ResponsePercentDefault | schemas.py:60 | a response without a percentage reports 0 |
| Schemas.ParseHito | schemas.py:71-85 | a hito request validates exactly when the indicator id is given and the name is non-empty; the status defaults to "Por comenzar" |
| Schemas.SendHito | schemas.py:71-80 | a validated hito serialises with every field given |
| Schemas.HitoRoundTrip | schemas.py:71-85 | a validated hito sent back validates to itself |
| Schemas.ParseActividad | schemas.py:116-128 | an activity request validates exactly when the hito id is given and the description is non-empty; the status defaults to "Por comenzar" |
| Schemas.SendActividad | schemas.py:116-123 | a validated activity serialises with every field given |
| Schemas.ActividadRoundTrip | schemas.py:116-128 | a validated activity sent back validates to itself |
| Schemas.EntidadName | schemas.py:157 | the name of an entity kind is "hito" or "actividad" |
| Schemas.ParseEntidad | schemas.py:157 | the pattern accepts exactly the texts "hito" and "actividad" |
| Schemas.EntidadRoundTrip | schemas.py:157 | names and entity kinds correspond one to one |
| Schemas.EntidadErrors | schemas.py:157 | the entity field is accepted exactly when it is given and matches the pattern |
| Schemas.ParseAvanceMensual | schemas.py:155-161 | a report validates exactly when the entity is "hito" or "actividad", the id is given and the percentage is an integer in 0..100; user and month are optional |
| Schemas.ValidatedReportFitsLedger | schemas.py:159 | a validated report meets the ledger's CHECK on the reported percentage |
| Schemas.SendAvanceMensual | schemas.py:155-161 | a validated report serialises with its entity's name |
| Schemas.AvanceMensualRoundTrip | schemas.py:155-161 | a validated report sent back validates to itself |

## Left out

Language and runtime:

- Floating point. `float(meta)`, the division and `int()` are exact real arithmetic followed by truncation. At exact boundaries a binary float can round to the neighbouring integer. Texts such as "nan" and "inf", which `float()` accepts, are not modelled as targets.
- Progress.QuantitativePercent: does not model overflow. With a tiny positive target (such as "1e-320") the quotient overflows to infinity, and `int()` raises OverflowError (database.py:215, database.py:369, migrate_business_logic.py:71). Only ValueError is caught (database.py:217, database.py:371, migrate_business_logic.py:80), so `create_indicador` and `update_avance` raise and the script rolls back. The model gives 100 instead; `Store.NewIndicador`, `Store.AvanceUpdated` and `BusinessLogic.Recompute` inherit this.
- Pydantic's type coercion and date parsing. A request field arrives already typed. Dates are opaque text.
- The order of Pydantic's errors within one field. Each field reports at most one error here.
- `print` output and process exit codes.

Connections and schema plumbing:

- `__init__`, `get_connection` and the DDL text of `init_db` (database.py:24-164): connections and dialect plumbing. Column types are modelled only where a rule depends on them.
- `created_at` and `updated_at` timestamps, and the `ORDER BY created_at DESC` of the listing (database.py:294). `Store.Database.GetAllIndicadores` returns the matching rows as a map keyed by id.
- PostgreSQL's NULL ordering for `orden`, which puts NULLs last (database.py:510). `Store.HitosOrdered` and `Store.Database.GetHitosByIndicador` follow SQLite, which puts them first.
- Collation of text values in `ORDER BY`. `Store.Database.GetUniqueValues` orders text by character code, which is SQLite's default.
- Foreign keys on SQLite. The SQLite connection never enables them (database.py:48-50), so on SQLite the declared cascade does not take effect: a deleted indicator's hitos remain, and a hito may name a missing indicator. The model follows the declared constraint, as PostgreSQL would enforce it: `Store.CascadeDelete` and `Store.Database.DeleteIndicador` remove the hitos with their indicator.
  - `Store.Database.CreateHito` reports the rejected insert as `None`, where the program raises.
- Store.Database.CreateIndicador and Store.Database.CreateHito: return the new row's id. On PostgreSQL the program returns `cursor.lastrowid` (database.py:242, database.py:499), which psycopg2 leaves as None for tables without OIDs, so there the caller gets None.
- Store.Database.CreateIndicador: follows SQLite's INTEGER `tiene_hitos` column (database.py:130) and always inserts. On PostgreSQL the column is BOOLEAN (database.py:81), and the INSERT binds the integer `1 if tiene_hitos else 0` (database.py:240). PostgreSQL has no assignment cast from integer to boolean, so there the INSERT raises and the program creates no indicator.
- Ledger rows are not deleted with their hito or activity. No foreign key is declared, and none is modelled.

Store operations not modelled:

- `get_summary_stats` (database.py:415-448): its average is a rounded floating-point value.
- The `actividades` table. The migration creates it but stores no rows in it, so the model keeps only its presence in `Ledger.Schema`.
- The ledger's other columns: `id`, `fecha_reporte` and `created_at`. A ledger row is its key plus the reported percentage and the user.
- The ledger operations the HTTP interface calls: recording a monthly report, the latest report and the report history. api.py is not part of this model, and these operations are not defined in database.py either.

Out of scope:

- app.py (the interactive UI) and api.py (HTTP routing): neither is part of this model.
- The single-step migration scripts repeat steps of migration_completa.py and are not part of this model. So are the deployment checks and the smoke script.

Deliberate modelling choices:

- `Ledger.LedgerDb.MigrateCompleta`: a `fault` names the step during which the database raises. Errors inside a step's statements are not distinguished further.
- `BusinessLogic.MigrateBusinessLogic`: a `fault` names the step whose statement raises. An error inside step 4's loop is modelled as an error before the loop; the rollback undoes the loop's UPDATEs either way.

## Findings

| source | as written | input that shows it | evidently intended | confidence | as-written member | corrected member |
|---|---|---|---|---|---|---|
| migrate_business_logic.py:22 | adds `fecha_carga` to hitos with `DEFAULT (date('now'))`, a default that is an expression in parentheses. SQLite (3.37 and later) rejects a non-constant default in ALTER TABLE ADD COLUMN on a table that has rows, so the script jumps to its rollback. | a SQLite store whose `hitos` table lacks `fecha_carga` and holds at least one row: the run is rolled back, no NULL date is filled and no percentage is recomputed (on an empty `hitos` table the statement succeeds) | add the column, fill its NULLs with today in step 3, and go on with the rest of the script | high that SQLite refuses this statement (a documented restriction of ADD COLUMN); not executed | BusinessLogic.MigratedAsWritten, with BusinessLogic.AsWrittenRollsBackWithoutColumn | BusinessLogic.AddHitoFechaCarga in BusinessLogic.MigrateBusinessLogic, with BusinessLogic.MigratedDatesEverything |
