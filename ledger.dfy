/**
 * The monthly progress ledger (`avance_mensual`) and the consolidated
 * migration that creates it. The ledger is a map keyed by the table's
 * UNIQUE(entidad, id_entidad, mes) triple, so a key holds at most one
 * report. The migration adds four schema objects, each only when absent and
 * each committed on its own, and seeds the ledger from the hitos' current
 * percentages in the run that creates the table.
 */
module Ledger {
  import opened Wrappers
  import opened Store

  /** The entity kinds the CHECK on `entidad` admits. */
  datatype Entidad = EntidadHito | EntidadActividad

  /** Key of a ledger row: the UNIQUE(entidad, id_entidad, mes) triple. */
  datatype ReportKey = ReportKey(entidad: Entidad, idEntidad: int, mes: string)

  /** The stored part of a report. */
  datatype Report = Report(avanceReportado: int, usuario: Option<string>)

  /** The two SQL dialects the migration is written for. */
  datatype Dialect = Sqlite | Postgres

  /** Which of the migration's schema objects exist. */
  datatype Schema = Schema(
    hitosResponsable: bool,
    actividades: bool,
    avanceMensual: bool,
    indicadoresTieneActividades: bool)

  /** The migration's steps, in order; `Backfill` runs inside the step that creates the ledger. */
  datatype Step = AddResponsable | CreateActividades | CreateAvanceMensual | Backfill | AddTieneActividades

  datatype InsertOutcome = Inserted | Ignored | CheckViolation

  datatype MigrationOutcome = Completed | Failed(step: Step)

  /** The state the migration leaves: schema, ledger rows and how the run ended. */
  datatype MigrationState = MigrationState(schema: Schema, rows: map<ReportKey, Report>, outcome: MigrationOutcome)

  const MigrationUser: string := "Sistema - Migración"

  /** The CHECK on `avance_reportado`. */
  predicate ReportOk(r: Report)
  {
    0 <= r.avanceReportado <= 100
  }

  /**
   * An insert that resolves conflicts by doing nothing. SQLite's INSERT OR
   * IGNORE skips a row that violates the uniqueness or the CHECK constraint;
   * PostgreSQL's ON CONFLICT DO NOTHING skips only the uniqueness conflict
   * and raises on a CHECK violation, which it tests first.
   */
  function InsertResult(d: Dialect, rows: map<ReportKey, Report>, k: ReportKey, r: Report): (o: InsertOutcome)
    ensures o == Inserted <==> k !in rows && ReportOk(r)
    ensures o == CheckViolation <==> d == Postgres && !ReportOk(r)
  {
    match d
    case Sqlite => if k in rows || !ReportOk(r) then Ignored else Inserted
    case Postgres => if !ReportOk(r) then CheckViolation else if k in rows then Ignored else Inserted
  }

  /** A valid report for a key already in the ledger is ignored in both dialects, without an error. */
  lemma ConflictIgnored(d: Dialect, rows: map<ReportKey, Report>, k: ReportKey, r: Report)
    requires k in rows && ReportOk(r)
    ensures InsertResult(d, rows, k, r) == Ignored
  {
  }

  /** The ledger row the backfill writes for a hito. */
  function BackfillKey(id: int, mes: string): ReportKey
  {
    ReportKey(EntidadHito, id, mes)
  }

  /** Ids of the hitos the backfill reads: those with a positive percentage. */
  function CandidateIds(hs: map<int, Hito>): set<int>
  {
    set id | id in hs && hs[id].avancePorcentaje > 0
  }

  /** The rows the backfill leaves for the hitos in `ids` (a percentage above 100 is not stored). */
  function BackfillOf(hs: map<int, Hito>, ids: set<int>, mes: string): map<ReportKey, Report>
  {
    map id | id in ids && id in hs && 0 < hs[id].avancePorcentaje <= 100
      :: BackfillKey(id, mes) := Report(hs[id].avancePorcentaje, Some(MigrationUser))
  }

  /** The rows a completed backfill leaves. */
  function BackfillRows(hs: map<int, Hito>, mes: string): map<ReportKey, Report>
  {
    BackfillOf(hs, CandidateIds(hs), mes)
  }

  /** PostgreSQL aborts the backfill when some hito's percentage exceeds the CHECK. */
  predicate BackfillAborts(d: Dialect, hs: map<int, Hito>)
  {
    d == Postgres && exists id :: id in hs && hs[id].avancePorcentaje > 100
  }

  /**
   * Exactly one row per hito with a positive percentage (up to 100): kind
   * hito, the given month, the hito's percentage; a hito at 0 gets none.
   */
  lemma BackfillRowsExactly(hs: map<int, Hito>, mes: string, k: ReportKey)
    ensures k in BackfillRows(hs, mes) <==>
              k.entidad == EntidadHito && k.mes == mes && k.idEntidad in hs &&
              0 < hs[k.idEntidad].avancePorcentaje <= 100
    ensures k in BackfillRows(hs, mes) ==>
              BackfillRows(hs, mes)[k] == Report(hs[k.idEntidad].avancePorcentaje, Some(MigrationUser))
  {
    if k.entidad == EntidadHito && k.mes == mes && k.idEntidad in hs && 0 < hs[k.idEntidad].avancePorcentaje <= 100 {
      assert k.idEntidad in CandidateIds(hs);
      assert k == BackfillKey(k.idEntidad, mes);
    }
  }

  /** The rows the backfill has written after inserting the hitos `ids`, one at a time in that order. */
  function BackfillSeq(hs: map<int, Hito>, ids: seq<int>, mes: string): (r: map<ReportKey, Report>)
    ensures forall k :: k in r ==> ReportOk(r[k]) && k.entidad == EntidadHito && k.idEntidad in ids
    ensures forall k :: k in r ==> k.mes == mes && k.idEntidad in hs &&
                                   r[k] == Report(hs[k.idEntidad].avancePorcentaje, Some(MigrationUser))
    ensures forall id :: id in ids && id in hs && 0 < hs[id].avancePorcentaje <= 100 ==> BackfillKey(id, mes) in r
  {
    if ids == [] then map[]
    else
      var m := BackfillSeq(hs, ids[..|ids| - 1], mes);
      var id := ids[|ids| - 1];
      if id in hs && 0 < hs[id].avancePorcentaje <= 100
      then m[BackfillKey(id, mes) := Report(hs[id].avancePorcentaje, Some(MigrationUser))]
      else m
  }

  /** One more insert extends the prefix by that hito's row, when it qualifies. */
  lemma BackfillSeqSnoc(hs: map<int, Hito>, ids: seq<int>, id: int, mes: string)
    ensures BackfillSeq(hs, ids + [id], mes) ==
              if id in hs && 0 < hs[id].avancePorcentaje <= 100
              then BackfillSeq(hs, ids, mes)[BackfillKey(id, mes) := Report(hs[id].avancePorcentaje, Some(MigrationUser))]
              else BackfillSeq(hs, ids, mes)
  {
    assert (ids + [id])[..|ids|] == ids;
  }

  /**
   * Inserting the candidates one at a time leaves the backfill, whatever the
   * order in which they are listed.
   */
  lemma BackfillSeqComplete(hs: map<int, Hito>, ids: seq<int>, mes: string)
    requires forall x :: x in ids <==> x in CandidateIds(hs)
    ensures BackfillSeq(hs, ids, mes) == BackfillRows(hs, mes)
  {
    var a, b := BackfillSeq(hs, ids, mes), BackfillRows(hs, mes);
    forall k
      ensures (k in a <==> k in b) && (k in a ==> a[k] == b[k])
    {
      BackfillRowsExactly(hs, mes, k);
      if k in b {
        assert k == BackfillKey(k.idEntidad, mes);
      }
    }
  }

  /** When every candidate lies within the CHECK, PostgreSQL does not abort. */
  lemma NoAbortWithinCheck(d: Dialect, hs: map<int, Hito>)
    requires forall x :: x in CandidateIds(hs) ==> hs[x].avancePorcentaje <= 100
    ensures !BackfillAborts(d, hs)
  {
  }

  /**
   * The consolidated migration as a function of the schema, the ledger and
   * the hitos it starts from. `fault` names the step, if any, during which
   * the store raises: that step's uncommitted work is rolled back, the steps
   * before it stay committed and the run stops.
   */
  function Migrate(d: Dialect, sch: Schema, rows: map<ReportKey, Report>, hs: map<int, Hito>,
                   mes: string, fault: Option<Step>): (st: MigrationState)
    ensures st.outcome == Completed <==>
              && (fault == None || (fault == Some(Backfill) && sch.avanceMensual))
              && !(!sch.avanceMensual && BackfillAborts(d, hs))
  {
    if fault == Some(AddResponsable) then MigrationState(sch, rows, Failed(AddResponsable))
    else
      var s1 := sch.(hitosResponsable := true);
      if fault == Some(CreateActividades) then MigrationState(s1, rows, Failed(CreateActividades))
      else
        var s2 := s1.(actividades := true);
        if fault == Some(CreateAvanceMensual) then MigrationState(s2, rows, Failed(CreateAvanceMensual))
        else
          var s3 := s2.(avanceMensual := true);
          var created := !sch.avanceMensual;
          if created && (fault == Some(Backfill) || BackfillAborts(d, hs)) then
            MigrationState(s3, rows, Failed(Backfill))
          else
            var rows3 := if created then BackfillRows(hs, mes) else rows;
            if fault == Some(AddTieneActividades) then MigrationState(s3, rows3, Failed(AddTieneActividades))
            else
              assert fault.Some? ==> fault.value.Backfill?;
              MigrationState(s3.(indicadoresTieneActividades := true), rows3, Completed)
  }

  /** The schema object a step adds, when it adds one. */
  predicate Present(sch: Schema, step: Step)
  {
    match step
    case AddResponsable => sch.hitosResponsable
    case CreateActividades => sch.actividades
    case CreateAvanceMensual => sch.avanceMensual
    case Backfill => sch.avanceMensual
    case AddTieneActividades => sch.indicadoresTieneActividades
  }

  function StepIndex(step: Step): nat
  {
    match step
    case AddResponsable => 0
    case CreateActividades => 1
    case CreateAvanceMensual => 2
    case Backfill => 3
    case AddTieneActividades => 4
  }

  /** After a clean run every schema object exists. */
  lemma MigrateCompletesSchema(d: Dialect, sch: Schema, rows: map<ReportKey, Report>, hs: map<int, Hito>, mes: string)
    requires !(!sch.avanceMensual && BackfillAborts(d, hs))
    ensures var st := Migrate(d, sch, rows, hs, mes, None);
            st.outcome == Completed && forall step :: Present(st.schema, step)
  {
  }

  /**
   * Running the migration again after a completed run changes nothing, for
   * any hitos and month: every step finds its object present and the
   * backfill does not run.
   */
  lemma MigrateIdempotent(d: Dialect, sch: Schema, rows: map<ReportKey, Report>, hs: map<int, Hito>,
                          mes: string, hs2: map<int, Hito>, mes2: string)
    requires Migrate(d, sch, rows, hs, mes, None).outcome == Completed
    ensures var st := Migrate(d, sch, rows, hs, mes, None);
            Migrate(d, st.schema, st.rows, hs2, mes2, None) == st
  {
  }

  /** The ledger rows end as they were or, when the run created the table, as exactly the backfill. */
  lemma LedgerKeptOrBackfilled(d: Dialect, sch: Schema, rows: map<ReportKey, Report>, hs: map<int, Hito>,
                               mes: string, fault: Option<Step>)
    ensures var st := Migrate(d, sch, rows, hs, mes, fault);
            st.rows == rows || (!sch.avanceMensual && st.rows == BackfillRows(hs, mes))
  {
    var st := Migrate(d, sch, rows, hs, mes, fault);
    var early := fault == Some(AddResponsable) || fault == Some(CreateActividades) || fault == Some(CreateAvanceMensual);
    if early || sch.avanceMensual || fault == Some(Backfill) || BackfillAborts(d, hs) {
      assert st.rows == rows;
    } else {
      assert st.rows == BackfillRows(hs, mes);
    }
  }

  /** A run that finds the ledger table already present never touches the ledger rows. */
  lemma ExistingLedgerUntouched(d: Dialect, sch: Schema, rows: map<ReportKey, Report>, hs: map<int, Hito>,
                                mes: string, fault: Option<Step>)
    requires sch.avanceMensual
    ensures Migrate(d, sch, rows, hs, mes, fault).rows == rows
  {
  }

  /**
   * Each step commits on its own: a run that fails at a step keeps every
   * schema object of the steps before it, and leaves the objects of that
   * step and the later ones as they were (the ledger table, committed before
   * its backfill, stays when the backfill fails).
   */
  lemma FailureKeepsEarlierSteps(d: Dialect, sch: Schema, rows: map<ReportKey, Report>, hs: map<int, Hito>,
                                 mes: string, fault: Option<Step>, step: Step)
    requires Migrate(d, sch, rows, hs, mes, fault).outcome.Failed?
    ensures var st := Migrate(d, sch, rows, hs, mes, fault);
            && (StepIndex(step) < StepIndex(st.outcome.step) ==> Present(st.schema, step))
            && ((StepIndex(step) >= StepIndex(st.outcome.step) && step != Backfill && st.outcome.step != Backfill)
                ==> Present(st.schema, step) == Present(sch, step))
  {
  }

  /**
   * The backfill is never retried: when it fails, the ledger table it was
   * filling is already committed, and a later run, finding the table, skips
   * it and completes with an empty ledger however many hitos have progress.
   */
  lemma FailedBackfillNeverRetried(d: Dialect, sch: Schema, hs: map<int, Hito>, mes: string, mes2: string)
    requires !sch.avanceMensual
    ensures var st := Migrate(d, sch, map[], hs, mes, Some(Backfill));
            && st.outcome == Failed(Backfill)
            && Migrate(d, st.schema, st.rows, hs, mes2, None) ==
                 MigrationState(st.schema.(indicadoresTieneActividades := true), map[], Completed)
  {
  }

  /** The ledger table and the migration's view of the schema. */
  class LedgerDb {
    var schema: Schema
    var avanceMensual: map<ReportKey, Report>

    /** Every row meets the CHECKs; without the table there are no rows. */
    ghost predicate Valid()
      reads this
    {
      && (forall k :: k in avanceMensual ==> ReportOk(avanceMensual[k]))
      && (!schema.avanceMensual ==> avanceMensual == map[])
    }

    constructor (sch: Schema, rows: map<ReportKey, Report>)
      requires forall k :: k in rows ==> ReportOk(rows[k])
      requires !sch.avanceMensual ==> rows == map[]
      ensures Valid() && schema == sch && avanceMensual == rows
    {
      schema, avanceMensual := sch, rows;
    }

    /** Inserts a report unless its key is taken or it violates the CHECK (see `InsertResult`). */
    method InsertOrIgnore(d: Dialect, k: ReportKey, r: Report) returns (o: InsertOutcome)
      requires Valid() && schema.avanceMensual
      modifies this`avanceMensual
      ensures Valid()
      ensures o == InsertResult(d, old(avanceMensual), k, r)
      ensures avanceMensual == if o == Inserted then old(avanceMensual)[k := r] else old(avanceMensual)
    {
      o := InsertResult(d, avanceMensual, k, r);
      if o == Inserted {
        avanceMensual := avanceMensual[k := r];
      }
    }

    /**
     * The backfill loop: inserts one report per hito with a positive
     * percentage, reading the hitos in rowid order (the order of a table
     * scan; the query has no ORDER BY), and stops at the first CHECK
     * violation, which only PostgreSQL raises.
     */
    method InsertCandidates(d: Dialect, store: Database, mes: string) returns (aborted: bool)
      requires Valid() && schema.avanceMensual && avanceMensual == map[]
      requires store.Valid()
      modifies this`avanceMensual
      ensures Valid()
      ensures aborted == BackfillAborts(d, store.hitos)
      ensures !aborted ==> avanceMensual == BackfillRows(store.hitos, mes)
    {
      var hs := store.hitos;
      ghost var done: seq<int> := [];
      for id := 1 to store.nextHitoId
        invariant Valid() && schema.avanceMensual
        invariant avanceMensual == BackfillSeq(hs, done, mes)
        invariant forall x :: x in done <==> x in CandidateIds(hs) && x < id
        invariant d == Postgres ==> forall x :: x in done ==> hs[x].avancePorcentaje <= 100
      {
        if id in hs && hs[id].avancePorcentaje > 0 {
          var o := InsertOrIgnore(d, BackfillKey(id, mes), Report(hs[id].avancePorcentaje, Some(MigrationUser)));
          if o == CheckViolation {
            return true;
          }
          BackfillSeqSnoc(hs, done, id, mes);
          done := done + [id];
        }
      }
      assert forall x :: x in CandidateIds(hs) ==> x < store.nextHitoId;
      BackfillSeqComplete(hs, done, mes);
      if d == Postgres {
        NoAbortWithinCheck(d, hs);
      }
      aborted := false;
    }

    /**
     * Seeds the freshly created ledger. A CHECK violation (PostgreSQL) or a
     * store failure rolls all of the inserts back to the empty table that was
     * committed with the table's creation.
     */
    method BackfillHitos(d: Dialect, store: Database, mes: string, storeFails: bool) returns (ok: bool)
      requires Valid() && schema.avanceMensual && avanceMensual == map[]
      requires store.Valid()
      modifies this`avanceMensual
      ensures Valid()
      ensures ok == !(storeFails || BackfillAborts(d, store.hitos))
      ensures avanceMensual == if ok then BackfillRows(store.hitos, mes) else map[]
    {
      var committed := avanceMensual;
      var aborted := InsertCandidates(d, store, mes);
      if aborted || storeFails {
        avanceMensual := committed;
        return false;
      }
      ok := true;
    }

    /**
     * `migrate_sqlite` / `migrate_postgresql`: add the `responsable` column
     * to hitos, the `actividades` table, the `avance_mensual` table (seeding
     * it from the hitos when it is created here) and the
     * `tiene_actividades` column to indicators, each only when absent.
     */
    method MigrateCompleta(d: Dialect, store: Database, mes: string, fault: Option<Step>)
      returns (outcome: MigrationOutcome)
      requires Valid() && store.Valid()
      modifies this
      ensures Valid()
      ensures MigrationState(schema, avanceMensual, outcome) ==
                Migrate(d, old(schema), old(avanceMensual), store.hitos, mes, fault)
    {
      if fault == Some(AddResponsable) {
        return Failed(AddResponsable);
      }
      if !schema.hitosResponsable {
        schema := schema.(hitosResponsable := true);
      }

      if fault == Some(CreateActividades) {
        return Failed(CreateActividades);
      }
      if !schema.actividades {
        schema := schema.(actividades := true);
      }

      if fault == Some(CreateAvanceMensual) {
        return Failed(CreateAvanceMensual);
      }
      if !schema.avanceMensual {
        schema := schema.(avanceMensual := true);
        var ok := BackfillHitos(d, store, mes, fault == Some(Backfill));
        if !ok {
          return Failed(Backfill);
        }
      }

      if fault == Some(AddTieneActividades) {
        return Failed(AddTieneActividades);
      }
      if !schema.indicadoresTieneActividades {
        schema := schema.(indicadoresTieneActividades := true);
      }
      outcome := Completed;
    }
  }
}
