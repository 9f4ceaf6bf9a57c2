/**
 * The business-logic migration: a script that adds the `fecha_carga` column
 * to hitos when absent, sets `fecha_carga` to today on every indicator and
 * hito row where it is NULL, and recomputes the stored percentage of every
 * quantitative indicator (no hitos, a target and an actual value) with the
 * clamp formula, counting the rows it rewrites. The ALTER TABLE runs before
 * any transaction is open, so it is durable at once; the UPDATEs of steps 2
 * to 4 share one transaction, committed at the end and rolled back on an
 * error.
 */
module BusinessLogic {
  import opened Wrappers
  import opened Progress
  import opened Store

  /** How the script ends: committed with its three row counts, or rolled back. */
  datatype Outcome = Committed(updatedIndicadores: nat, updatedHitos: nat, recalculated: nat) | RolledBack

  /** The statements of the script that can raise, by step. */
  datatype Stage = AlterHitos | UpdateIndicadorFechas | UpdateHitoFechas | RecomputeAvances

  /** The tables the script leaves, whether hitos then has `fecha_carga`, and how it ended. */
  datatype MigrationResult = MigrationResult(
    indicadores: map<int, Indicador>,
    hitos: map<int, Hito>,
    hitosColumn: bool,
    outcome: Outcome)

  // ------------------------------------------------------------ fecha_carga

  /** Step 1 (corrected): the added column is nullable, so it reads NULL in every existing row. */
  function AddHitoFechaCarga(hs: map<int, Hito>, hasColumn: bool): (r: map<int, Hito>)
    ensures r.Keys == hs.Keys
    ensures forall id :: id in hs ==> r[id].(fechaCarga := hs[id].fechaCarga) == hs[id]
    ensures !hasColumn ==> forall id :: id in r ==> r[id].fechaCarga == None
    ensures hasColumn ==> r == hs
  {
    if hasColumn then hs else map id | id in hs :: hs[id].(fechaCarga := None)
  }

  /** Indicator rows whose `fecha_carga` is NULL. */
  function NullIndicadores(inds: map<int, Indicador>): set<int>
  {
    set id | id in inds && inds[id].fechaCarga == None
  }

  /** Hito rows whose `fecha_carga` is NULL. */
  function NullHitos(hs: map<int, Hito>): set<int>
  {
    set id | id in hs && hs[id].fechaCarga == None
  }

  /** Step 2: `fecha_carga` becomes today where it is NULL; every other value and column is untouched. */
  function FillIndicadorFecha(inds: map<int, Indicador>, today: string): (r: map<int, Indicador>)
    ensures r.Keys == inds.Keys
    ensures forall id :: id in inds ==> r[id].fechaCarga == Some(inds[id].fechaCarga.GetOr(today))
    ensures forall id :: id in inds ==> r[id].(fechaCarga := inds[id].fechaCarga) == inds[id]
  {
    map id | id in inds :: if inds[id].fechaCarga == None then inds[id].(fechaCarga := Some(today)) else inds[id]
  }

  /** Step 3: the same for hitos. */
  function FillHitoFecha(hs: map<int, Hito>, today: string): (r: map<int, Hito>)
    ensures r.Keys == hs.Keys
    ensures forall id :: id in hs ==> r[id].fechaCarga == Some(hs[id].fechaCarga.GetOr(today))
    ensures forall id :: id in hs ==> r[id].(fechaCarga := hs[id].fechaCarga) == hs[id]
  {
    map id | id in hs :: if hs[id].fechaCarga == None then hs[id].(fechaCarga := Some(today)) else hs[id]
  }

  // -------------------------------------------------------------- recompute

  /** The rows the recompute selects: no hitos, a target and an actual value. */
  predicate IsCandidate(row: Indicador)
  {
    row.tieneHitos == 0 && row.meta != Absent && row.avance.Some?
  }

  /** A candidate the recompute rewrites: its target parses as a positive number. */
  predicate Rewritten(row: Indicador)
  {
    IsCandidate(row) && row.meta.Numeric? && row.meta.value > 0.0
  }

  /**
   * One row of the recompute: a rewritten row gets the quantitative
   * percentage of its target and actual value; any other row, including a
   * candidate whose target does not parse or is not positive, keeps its
   * stored percentage.
   */
  function Recompute(row: Indicador): (r: Indicador)
    ensures Rewritten(row) ==> QuantitativeConsistent(r) && 0 <= r.avancePorcentaje <= 100
    ensures !Rewritten(row) ==> r == row
    ensures r.(avancePorcentaje := row.avancePorcentaje) == row
  {
    if Rewritten(row) then row.(avancePorcentaje := Clamp(Trunc(row.avance.value / row.meta.value * 100.0)))
    else row
  }

  /** The recompute over the whole table. */
  function RecomputeAll(inds: map<int, Indicador>): (r: map<int, Indicador>)
    ensures r.Keys == inds.Keys
    ensures forall id :: id in inds ==> r[id] == Recompute(inds[id])
  {
    map id | id in inds :: Recompute(inds[id])
  }

  /** Ids of the rows the recompute rewrites. */
  function RecalculatedIds(inds: map<int, Indicador>): set<int>
  {
    set id | id in inds && Rewritten(inds[id])
  }

  /** The table after the recompute has visited the ids below `n`. */
  function RecomputeBelow(inds: map<int, Indicador>, n: int): (r: map<int, Indicador>)
    ensures r.Keys == inds.Keys
  {
    map id | id in inds :: if id < n then Recompute(inds[id]) else inds[id]
  }

  /** Ids below `n` that the recompute rewrites. */
  function RecalculatedBelow(inds: map<int, Indicador>, n: int): set<int>
  {
    set id | id in inds && id < n && Rewritten(inds[id])
  }

  /** Visiting one more id recomputes that row only. */
  lemma RecomputeBelowStep(inds: map<int, Indicador>, n: int)
    ensures RecomputeBelow(inds, n + 1) ==
              if n in inds then RecomputeBelow(inds, n)[n := Recompute(inds[n])] else RecomputeBelow(inds, n)
  {
  }

  /** Visiting one more id counts it when the recompute rewrites it. */
  lemma RecalculatedBelowStep(inds: map<int, Indicador>, n: int)
    ensures |RecalculatedBelow(inds, n + 1)| ==
              |RecalculatedBelow(inds, n)| + (if n in inds && Rewritten(inds[n]) then 1 else 0)
  {
    if n in inds && Rewritten(inds[n]) {
      assert RecalculatedBelow(inds, n + 1) == RecalculatedBelow(inds, n) + {n};
    } else {
      assert RecalculatedBelow(inds, n + 1) == RecalculatedBelow(inds, n);
    }
  }

  /** Once every id has been visited, the recompute covers the whole table. */
  lemma RecomputeBelowAll(inds: map<int, Indicador>, n: int)
    requires forall id :: id in inds ==> id < n
    ensures RecomputeBelow(inds, n) == RecomputeAll(inds)
    ensures RecalculatedBelow(inds, n) == RecalculatedIds(inds)
  {
  }

  // -------------------------------------------------------------- the script

  /**
   * The script's effect with step 1 corrected. Step 1 adds the column when
   * absent and is durable at once; steps 2 and 3 fill NULL dates and report
   * how many rows they changed; step 4 runs only when the `tiene_hitos`
   * column exists and reports how many rows it rewrote. `fault` names the
   * step whose statement raises: an error in step 1 leaves everything as it
   * was, and an error in steps 2 to 4 rolls their UPDATEs back but keeps the
   * added column.
   */
  function Migrated(inds: map<int, Indicador>, hs: map<int, Hito>, hitosHasFechaCarga: bool,
                    indicadoresHasTieneHitos: bool, today: string, fault: Option<Stage>): (r: MigrationResult)
    ensures fault == Some(AlterHitos) ==> r == MigrationResult(inds, hs, hitosHasFechaCarga, RolledBack)
    ensures fault.Some? && fault != Some(AlterHitos) ==>
              r == MigrationResult(inds, AddHitoFechaCarga(hs, hitosHasFechaCarga), true, RolledBack)
    ensures fault == None ==> && r.outcome.Committed? && r.hitosColumn
                              && r.indicadores.Keys == inds.Keys && r.hitos.Keys == hs.Keys
    ensures fault == None && !indicadoresHasTieneHitos ==> r.outcome.recalculated == 0
  {
    if fault == Some(AlterHitos) then MigrationResult(inds, hs, hitosHasFechaCarga, RolledBack)
    else
      var added := AddHitoFechaCarga(hs, hitosHasFechaCarga);
      if fault.Some? then MigrationResult(inds, added, true, RolledBack)
      else
        var filled := FillIndicadorFecha(inds, today);
        var recalculated := if indicadoresHasTieneHitos then |RecalculatedIds(filled)| else 0;
        MigrationResult(
          if indicadoresHasTieneHitos then RecomputeAll(filled) else filled,
          FillHitoFecha(added, today),
          true,
          Committed(|NullIndicadores(inds)|, |NullHitos(added)|, recalculated))
  }

  /**
   * The script as written: its step 1 adds the column with the default
   * `(date('now'))`, an expression in parentheses. SQLite (3.37 and later)
   * refuses a non-constant default in ALTER TABLE ADD COLUMN when the table
   * has rows, so on a populated hitos table without the column the script
   * jumps to its rollback before anything has changed. On an empty table the
   * statement succeeds and the run proceeds as corrected.
   */
  function MigratedAsWritten(inds: map<int, Indicador>, hs: map<int, Hito>, hitosHasFechaCarga: bool,
                             indicadoresHasTieneHitos: bool, today: string, fault: Option<Stage>): (r: MigrationResult)
    ensures r == Migrated(inds, hs, hitosHasFechaCarga, indicadoresHasTieneHitos, today, fault) <==>
              hitosHasFechaCarga || hs == map[] || fault == Some(AlterHitos)
  {
    if !hitosHasFechaCarga && hs != map[] then MigrationResult(inds, hs, false, RolledBack)
    else Migrated(inds, hs, hitosHasFechaCarga, indicadoresHasTieneHitos, today, fault)
  }

  /**
   * As written, on a store whose hitos table has rows but not the column,
   * nothing happens, whatever else would fail: no NULL date is filled, no
   * percentage is recomputed and the column is still missing.
   */
  lemma AsWrittenRollsBackWithoutColumn(inds: map<int, Indicador>, hs: map<int, Hito>,
                                        indicadoresHasTieneHitos: bool, today: string, fault: Option<Stage>)
    requires hs != map[]
    ensures var r := MigratedAsWritten(inds, hs, false, indicadoresHasTieneHitos, today, fault);
            r.outcome == RolledBack && r.indicadores == inds && r.hitos == hs && !r.hitosColumn
  {
  }

  /** With the correction, an error after step 1 still leaves the column added, NULL in every existing hito. */
  lemma FaultKeepsAddedColumn(inds: map<int, Indicador>, hs: map<int, Hito>, indicadoresHasTieneHitos: bool,
                              today: string, stage: Stage)
    requires stage != AlterHitos
    ensures var r := Migrated(inds, hs, false, indicadoresHasTieneHitos, today, Some(stage));
            && r.outcome == RolledBack && r.indicadores == inds && r.hitosColumn
            && r.hitos.Keys == hs.Keys
            && forall id :: id in r.hitos ==> r.hitos[id] == hs[id].(fechaCarga := None)
  {
  }

  /** After a corrected run without errors every indicator and every hito has a `fecha_carga`. */
  lemma MigratedDatesEverything(inds: map<int, Indicador>, hs: map<int, Hito>, hitosHasFechaCarga: bool,
                                indicadoresHasTieneHitos: bool, today: string)
    ensures var r := Migrated(inds, hs, hitosHasFechaCarga, indicadoresHasTieneHitos, today, None);
            && (forall id :: id in r.indicadores ==> r.indicadores[id].fechaCarga.Some?)
            && (forall id :: id in r.hitos ==> r.hitos[id].fechaCarga.Some?)
  {
  }

  /** Without the `tiene_hitos` column no percentage changes and none is counted. */
  lemma NoTieneHitosNoRecompute(inds: map<int, Indicador>, hs: map<int, Hito>, hitosHasFechaCarga: bool, today: string)
    ensures var r := Migrated(inds, hs, hitosHasFechaCarga, false, today, None);
            && r.outcome.recalculated == 0
            && r.indicadores.Keys == inds.Keys
            && forall id :: id in inds ==> r.indicadores[id].avancePorcentaje == inds[id].avancePorcentaje
  {
  }

  /** For a rewritten row the recompute writes what the store's `update_avance` would. */
  lemma RecomputeAgreesWithStore(row: Indicador)
    requires Rewritten(row)
    ensures Recompute(row) == AvanceUpdated(row, None, None, None)
  {
  }

  /**
   * Where the two differ: for a candidate whose target does not parse or is
   * not positive the recompute keeps the stored percentage, while the
   * store's `update_avance` resets it to 0.
   */
  lemma BadMetaKeepsPercent(row: Indicador)
    requires IsCandidate(row) && !Rewritten(row)
    ensures Recompute(row).avancePorcentaje == row.avancePorcentaje
    ensures AvanceUpdated(row, None, None, None).avancePorcentaje == 0
  {
  }

  /** Recomputing a row twice is recomputing it once. */
  lemma RecomputeIdempotent(row: Indicador)
    ensures Recompute(Recompute(row)) == Recompute(row)
  {
  }

  /** Filling dates in a table that has none NULL changes nothing. */
  lemma FillIndicadorFechaDated(inds: map<int, Indicador>, today: string)
    requires forall id :: id in inds ==> inds[id].fechaCarga.Some?
    ensures NullIndicadores(inds) == {} && FillIndicadorFecha(inds, today) == inds
  {
    assert forall id :: id !in NullIndicadores(inds);
    var r := FillIndicadorFecha(inds, today);
    assert forall id :: id in inds ==> r[id] == inds[id];
  }

  /** The same for hitos. */
  lemma FillHitoFechaDated(hs: map<int, Hito>, today: string)
    requires forall id :: id in hs ==> hs[id].fechaCarga.Some?
    ensures NullHitos(hs) == {} && FillHitoFecha(hs, today) == hs
  {
    assert forall id :: id !in NullHitos(hs);
    var r := FillHitoFecha(hs, today);
    assert forall id :: id in hs ==> r[id] == hs[id];
  }

  /** Recomputing a table twice is recomputing it once, and rewrites the same rows. */
  lemma RecomputeAllIdempotent(inds: map<int, Indicador>)
    ensures RecomputeAll(RecomputeAll(inds)) == RecomputeAll(inds)
    ensures RecalculatedIds(RecomputeAll(inds)) == RecalculatedIds(inds)
  {
    var r := RecomputeAll(inds);
    assert forall id :: id in inds ==> Rewritten(r[id]) == Rewritten(inds[id]);
  }

  /**
   * A second run leaves both tables as the first left them and fills no
   * date; it reports the same number of recomputed rows, because it rewrites
   * them with the values they already hold.
   */
  lemma {:induction false} MigratedIdempotent(inds: map<int, Indicador>, hs: map<int, Hito>, hitosHasFechaCarga: bool,
                                              indicadoresHasTieneHitos: bool, today: string)
    ensures var r1 := Migrated(inds, hs, hitosHasFechaCarga, indicadoresHasTieneHitos, today, None);
            var r2 := Migrated(r1.indicadores, r1.hitos, r1.hitosColumn, indicadoresHasTieneHitos, today, None);
            && r2.indicadores == r1.indicadores && r2.hitos == r1.hitos
            && r2.outcome == Committed(0, 0, r1.outcome.recalculated)
  {
    var r1 := Migrated(inds, hs, hitosHasFechaCarga, indicadoresHasTieneHitos, today, None);
    MigratedDatesEverything(inds, hs, hitosHasFechaCarga, indicadoresHasTieneHitos, today);
    FillIndicadorFechaDated(r1.indicadores, today);
    FillHitoFechaDated(r1.hitos, today);
    if indicadoresHasTieneHitos {
      RecomputeAllIdempotent(FillIndicadorFecha(inds, today));
    }
  }

  /**
   * Step 4: visits the indicators in rowid order and rewrites the percentage
   * of every candidate whose target parses as a positive number, counting
   * the rows it rewrites.
   */
  method RecomputeQuantitative(db: Database) returns (recalculated: nat)
    requires db.Valid()
    modifies db`indicadores
    ensures db.Valid()
    ensures db.indicadores == RecomputeAll(old(db.indicadores))
    ensures recalculated == |RecalculatedIds(old(db.indicadores))|
  {
    ghost var start := db.indicadores;
    recalculated := 0;
    for id := 1 to db.nextIndicadorId
      invariant db.indicadores == RecomputeBelow(start, id) && db.indicadores.Keys == start.Keys
      invariant recalculated == |RecalculatedBelow(start, id)|
    {
      RecomputeBelowStep(start, id);
      RecalculatedBelowStep(start, id);
      if id in db.indicadores && IsCandidate(db.indicadores[id]) {
        var row := db.indicadores[id];
        assert row == start[id];
        match row.meta
        case Numeric(m) =>
          if m > 0.0 {
            var pct := Clamp(Trunc(row.avance.value / m * 100.0));
            assert row.(avancePorcentaje := pct) == Recompute(row);
            db.indicadores := db.indicadores[id := row.(avancePorcentaje := pct)];
            recalculated := recalculated + 1;
          }
        case _ =>
          // the target does not parse (ValueError): the row is skipped
      }
    }
    assert forall id :: id in start ==> id < db.nextIndicadorId;
    RecomputeBelowAll(start, db.nextIndicadorId);
    assert db.indicadores.Keys == start.Keys;
  }

  /**
   * The script, run against the store with the corrected step 1. `fault`
   * names the step whose statement raises, if any. The ALTER TABLE is
   * durable as soon as it runs; the first UPDATE opens the transaction that
   * the rollback undoes.
   */
  method MigrateBusinessLogic(db: Database, hitosHasFechaCarga: bool, indicadoresHasTieneHitos: bool,
                              today: string, fault: Option<Stage>) returns (outcome: Outcome, hitosColumn: bool)
    requires db.Valid()
    modifies db`indicadores, db`hitos
    ensures db.Valid()
    ensures MigrationResult(db.indicadores, db.hitos, hitosColumn, outcome) ==
              Migrated(old(db.indicadores), old(db.hitos), hitosHasFechaCarga, indicadoresHasTieneHitos, today, fault)
  {
    // 1. the column, when absent, is added empty
    if fault == Some(AlterHitos) {
      return RolledBack, hitosHasFechaCarga;
    }
    if !hitosHasFechaCarga {
      db.hitos := AddHitoFechaCarga(db.hitos, false);
    }
    hitosColumn := true;
    var savedIndicadores, savedHitos := db.indicadores, db.hitos;

    // 2. and 3. fill NULL dates, keeping each UPDATE's row count
    if fault == Some(UpdateIndicadorFechas) {
      return RolledBack, hitosColumn;
    }
    var updatedIndicadores := |NullIndicadores(db.indicadores)|;
    db.indicadores := FillIndicadorFecha(db.indicadores, today);
    if fault == Some(UpdateHitoFechas) {
      db.indicadores := savedIndicadores;
      return RolledBack, hitosColumn;
    }
    var updatedHitos := |NullHitos(db.hitos)|;
    db.hitos := FillHitoFecha(db.hitos, today);

    // 4. recompute the quantitative indicators; the only stage left that can raise is this one
    if fault.Some? {
      db.indicadores, db.hitos := savedIndicadores, savedHitos;
      return RolledBack, hitosColumn;
    }
    var recalculated := 0;
    if indicadoresHasTieneHitos {
      recalculated := RecomputeQuantitative(db);
    }
    outcome := Committed(updatedIndicadores, updatedHitos, recalculated);
  }
}
