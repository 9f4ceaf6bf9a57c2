/**
 * The indicator store: the `indicadores` and `hitos` tables and the
 * operations the application performs on them. Each table is a map from
 * row id to row; ids come from an autoincrement counter and are never
 * reused. The declared foreign key from a hito to its indicator, with
 * ON DELETE CASCADE, is part of the store's invariant.
 */
module Store {
  import opened Wrappers
  import opened Progress
  import opened Ordering

  /** Descriptive columns of an indicator that the store keeps as given. */
  datatype Descriptivo = Descriptivo(
    idEstrategico: Option<string>,
    unidadOrganizacional: Option<string>,
    unidadOrganizacionalColaboradora: Option<string>,
    area: Option<string>,
    lineamientosEstrategicos: Option<string>,
    medida: Option<string>,
    fechaInicio: Option<string>,
    fechaFinOriginal: Option<string>,
    fechaFinActual: Option<string>,
    responsable: Option<string>)

  /** A row of `indicadores`. `tieneHitos` is stored as the integer 1 or 0. */
  datatype Indicador = Indicador(
    anio: int,
    indicador: string,
    tipoIndicador: string,
    info: Descriptivo,
    meta: Meta,
    avance: Option<real>,
    avancePorcentaje: int,
    estado: string,
    tieneHitos: int,
    fechaCarga: Option<string>)

  /** Descriptive columns of a hito. */
  datatype HitoDetalle = HitoDetalle(
    descripcion: Option<string>,
    fechaInicio: Option<string>,
    fechaFinPlanificada: Option<string>,
    fechaFinReal: Option<string>)

  /** A row of `hitos`, child of the indicator `indicadorId`. */
  datatype Hito = Hito(
    indicadorId: int,
    nombre: string,
    detalle: HitoDetalle,
    avancePorcentaje: int,
    estado: string,
    orden: Option<int>,
    fechaCarga: Option<string>)

  /** A hito as a query returns it: with its id. */
  datatype HitoRow = HitoRow(id: int, hito: Hito)

  /** Filters of the indicator listing; `None` means "no filter". */
  datatype Filtros = Filtros(
    area: Option<string>,
    anio: Option<int>,
    unidadOrganizacional: Option<string>,
    tipoIndicador: Option<string>,
    estado: Option<string>)

  /** Columns of `indicadores` whose distinct values the listing offers as filter choices. */
  datatype Columna =
    | IdEstrategico | Anio | NombreIndicador | UnidadOrganizacional | UnidadOrganizacionalColaboradora
    | Area | LineamientosEstrategicos | Medida | Estado | TipoIndicador | Responsable

  /** A column value: `año` is an integer column, the others are text. */
  datatype Valor = Numero(n: int) | Texto(s: string)

  // ---------------------------------------------------------------- rows

  /**
   * The row `create_indicador` inserts. The percentage is computed only for
   * an indicator without hitos; the status is the caller's, stored verbatim.
   */
  function NewIndicador(anio: int, indicador: string, tipoIndicador: string, info: Descriptivo,
                        meta: Meta, avance: Option<real>, estado: string, tieneHitos: bool,
                        today: string): (row: Indicador)
    ensures row.anio == anio && row.indicador == indicador && row.tipoIndicador == tipoIndicador
    ensures row.info == info && row.fechaCarga == Some(today)
    ensures row.estado == estado && row.meta == meta && row.avance == avance
    ensures row.tieneHitos == (if tieneHitos then 1 else 0)
    ensures 0 <= row.avancePorcentaje <= 100
    ensures tieneHitos || !Resolvable(meta, avance) ==> row.avancePorcentaje == 0
    ensures !tieneHitos && Resolvable(meta, avance) ==>
              IsPercentOf(row.avancePorcentaje, meta.value, avance.value)
  {
    var pct := if tieneHitos then 0 else QuantitativePercent(meta, avance);
    var row := Indicador(anio, indicador, tipoIndicador, info, meta, avance, pct, estado,
                         if tieneHitos then 1 else 0, Some(today));
    if !tieneHitos && Resolvable(meta, avance) then
      QuantitativeIsPercentOf(meta, avance);
      row
    else
      row
  }

  /** A row whose stored percentage is the quantitative percentage of its own target and actual value. */
  predicate QuantitativeConsistent(row: Indicador)
  {
    row.avancePorcentaje == QuantitativePercent(row.meta, row.avance)
  }

  /**
   * The row `update_avance` writes: each argument that is `None` keeps the
   * stored value, and the percentage is recomputed from the resulting target
   * and actual value whether or not the indicator has hitos.
   */
  function AvanceUpdated(row: Indicador, nuevoAvance: Option<real>, nuevaMeta: Option<Meta>,
                         nuevoEstado: Option<string>): (r: Indicador)
    ensures QuantitativeConsistent(r)
    ensures r.avance == (if nuevoAvance.Some? then nuevoAvance else row.avance)
    ensures r.meta == nuevaMeta.GetOr(row.meta) && r.estado == nuevoEstado.GetOr(row.estado)
    ensures r.(avance := row.avance, meta := row.meta, estado := row.estado,
               avancePorcentaje := row.avancePorcentaje) == row
  {
    var meta := nuevaMeta.GetOr(row.meta);
    var avance := if nuevoAvance.Some? then nuevoAvance else row.avance;
    row.(meta := meta, avance := avance, estado := nuevoEstado.GetOr(row.estado),
         avancePorcentaje := QuantitativePercent(meta, avance))
  }

  /** Updating with no new values only brings the stored percentage in line with target and actual value. */
  lemma AvanceUpdatedNothingIdempotent(row: Indicador)
    requires QuantitativeConsistent(row)
    ensures AvanceUpdated(row, None, None, None) == row
  {
  }

  /** `create_indicador` does not derive the status: a fully achieved target can be stored "Por comenzar". */
  lemma CreatedStatusNotDerived(anio: int, indicador: string, tipo: string, info: Descriptivo, today: string)
    ensures var row := NewIndicador(anio, indicador, tipo, info, Numeric(50.0), Some(80.0),
                                    PorComenzar, false, today);
            row.avancePorcentaje == 100 && row.estado != StatusOf(row.avancePorcentaje)
  {
    QuantitativeCompleteIff(Numeric(50.0), Some(80.0));
  }

  // ---------------------------------------------------------------- listing

  /** Python truthiness of a filter argument: an empty text or a year 0 filters nothing. */
  predicate TextFilterOn(f: Option<string>)
  {
    f.Some? && f.value != ""
  }

  predicate YearFilterOn(f: Option<int>)
  {
    f.Some? && f.value != 0
  }

  /** Every active filter equals the row's column; a NULL column matches no active filter. */
  predicate Matches(row: Indicador, f: Filtros)
    ensures TextFilterOn(f.area) && row.info.area == None ==> !Matches(row, f)
    ensures TextFilterOn(f.unidadOrganizacional) && row.info.unidadOrganizacional == None ==> !Matches(row, f)
    ensures TextFilterOn(f.estado) && Matches(row, f) ==> row.estado == f.estado.value
  {
    && (TextFilterOn(f.area) ==> row.info.area == f.area)
    && (YearFilterOn(f.anio) ==> row.anio == f.anio.value)
    && (TextFilterOn(f.unidadOrganizacional) ==> row.info.unidadOrganizacional == f.unidadOrganizacional)
    && (TextFilterOn(f.tipoIndicador) ==> row.tipoIndicador == f.tipoIndicador.value)
    && (TextFilterOn(f.estado) ==> row.estado == f.estado.value)
  }

  /** Filters that are all off, by absence or by falsiness, match every row. */
  lemma InactiveFiltersMatchAll(row: Indicador, f: Filtros)
    requires !TextFilterOn(f.area) && !YearFilterOn(f.anio) && !TextFilterOn(f.unidadOrganizacional)
    requires !TextFilterOn(f.tipoIndicador) && !TextFilterOn(f.estado)
    ensures Matches(row, f)
  {
  }

  /** The value of a column, `None` for SQL NULL. */
  function ValueOf(row: Indicador, c: Columna): Option<Valor>
  {
    match c
    case IdEstrategico => TextValue(row.info.idEstrategico)
    case Anio => Some(Numero(row.anio))
    case NombreIndicador => Some(Texto(row.indicador))
    case UnidadOrganizacional => TextValue(row.info.unidadOrganizacional)
    case UnidadOrganizacionalColaboradora => TextValue(row.info.unidadOrganizacionalColaboradora)
    case Area => TextValue(row.info.area)
    case LineamientosEstrategicos => TextValue(row.info.lineamientosEstrategicos)
    case Medida => TextValue(row.info.medida)
    case Estado => Some(Texto(row.estado))
    case TipoIndicador => Some(Texto(row.tipoIndicador))
    case Responsable => TextValue(row.info.responsable)
  }

  function TextValue(t: Option<string>): Option<Valor>
  {
    if t.Some? then Some(Texto(t.value)) else None
  }

  /** Character codes of a text: text columns sort by code point. */
  function Codes(s: string): (r: seq<int>)
    ensures |r| == |s| && forall i :: 0 <= i < |s| ==> r[i] == s[i] as int
  {
    seq(|s|, i requires 0 <= i < |s| => s[i] as int)
  }

  /** Sort key of a value; the leading tag keeps integers and texts apart. */
  function ValorKey(v: Valor): seq<int>
  {
    match v
    case Numero(n) => [0, n]
    case Texto(s) => [1] + Codes(s)
  }

  lemma ValorKeyInjective(s: set<Valor>)
    ensures KeyInjective(s, ValorKey)
  {
    forall x, y | x in s && y in s && ValorKey(x) == ValorKey(y)
      ensures x == y
    {
      assert ValorKey(x)[0] == ValorKey(y)[0];
      if x.Numero? {
        assert ValorKey(x)[1] == ValorKey(y)[1];
      } else {
        var a, b := x.s, y.s;
        assert Codes(a) == ValorKey(x)[1..] == ValorKey(y)[1..] == Codes(b);
        forall i | 0 <= i < |a| ensures a[i] == b[i] {
          assert Codes(a)[i] == Codes(b)[i];
        }
        assert a == b;
      }
    }
  }

  /** Sort key of a hito: `orden` with NULL first, then `id`. */
  function HitoKey(hs: map<int, Hito>, id: int): seq<int>
  {
    if id in hs && hs[id].orden.Some? then [1, hs[id].orden.value, id] else [0, id]
  }

  /** The hito sort key as a function of the id alone. */
  function HitoKeyOf(hs: map<int, Hito>): int -> seq<int>
  {
    id => HitoKey(hs, id)
  }

  lemma HitoKeyInjective(hs: map<int, Hito>, s: set<int>)
    ensures KeyInjective(s, HitoKeyOf(hs))
  {
    forall x, y | x in s && y in s && HitoKeyOf(hs)(x) == HitoKeyOf(hs)(y)
      ensures x == y
    {
      var kx, ky := HitoKey(hs, x), HitoKey(hs, y);
      assert kx[0] == ky[0];
      assert kx[|kx| - 1] == x && ky[|ky| - 1] == y;
    }
  }

  /** The hitos of one indicator, as rows, ordered by `orden` (NULL first) and then by id. */
  function HitosOrdered(hs: map<int, Hito>, indicadorId: int): (r: seq<HitoRow>)
    ensures |r| == |HitoIdsOf(hs, indicadorId)|
    ensures forall i :: 0 <= i < |r| ==>
              r[i].id in hs && r[i].hito == hs[r[i].id] && r[i].hito.indicadorId == indicadorId
    ensures forall id :: id in hs && hs[id].indicadorId == indicadorId ==>
              exists i :: 0 <= i < |r| && r[i].id == id
    ensures forall i, j :: 0 <= i < j < |r| ==> LexLess(HitoKey(hs, r[i].id), HitoKey(hs, r[j].id))
  {
    var ids := HitoIdsOf(hs, indicadorId);
    HitoKeyInjective(hs, ids);
    var ordered := SortedBy(ids, HitoKeyOf(hs));
    assert forall i :: 0 <= i < |ordered| ==> ordered[i] in ids;
    var r := RowsOf(hs, ordered);
    HitoRowsSpec(hs, indicadorId, ordered, r);
    r
  }

  lemma HitoRowsSpec(hs: map<int, Hito>, indicadorId: int, ordered: seq<int>, r: seq<HitoRow>)
    requires |ordered| == |HitoIdsOf(hs, indicadorId)|
    requires forall x :: x in ordered <==> x in HitoIdsOf(hs, indicadorId)
    requires Ascending(ordered, HitoKeyOf(hs))
    requires forall i :: 0 <= i < |ordered| ==> ordered[i] in hs
    requires |r| == |ordered| && forall i :: 0 <= i < |ordered| ==> r[i] == HitoRow(ordered[i], hs[ordered[i]])
    ensures |r| == |HitoIdsOf(hs, indicadorId)|
    ensures forall i :: 0 <= i < |r| ==>
              r[i].id in hs && r[i].hito == hs[r[i].id] && r[i].hito.indicadorId == indicadorId
    ensures forall id :: id in hs && hs[id].indicadorId == indicadorId ==>
              exists i :: 0 <= i < |r| && r[i].id == id
    ensures forall i, j :: 0 <= i < j < |r| ==> LexLess(HitoKey(hs, r[i].id), HitoKey(hs, r[j].id))
  {
    var ids := HitoIdsOf(hs, indicadorId);
    forall i | 0 <= i < |r|
      ensures r[i].id in hs && r[i].hito == hs[r[i].id] && r[i].hito.indicadorId == indicadorId
    {
      assert ordered[i] in ids;
    }
    RowsCoverIds(hs, ids, ordered, r);
    assert forall id :: id in hs && hs[id].indicadorId == indicadorId ==> id in ids;
    forall i, j | 0 <= i < j < |r|
      ensures LexLess(HitoKey(hs, r[i].id), HitoKey(hs, r[j].id))
    {
      assert LexLess(HitoKeyOf(hs)(ordered[i]), HitoKeyOf(hs)(ordered[j]));
    }
  }

  lemma RowsCoverIds(hs: map<int, Hito>, ids: set<int>, ordered: seq<int>, r: seq<HitoRow>)
    requires forall x :: x in ordered <==> x in ids
    requires forall i :: 0 <= i < |ordered| ==> ordered[i] in hs
    requires |r| == |ordered| && forall i :: 0 <= i < |ordered| ==> r[i] == HitoRow(ordered[i], hs[ordered[i]])
    ensures forall id :: id in ids ==> exists i :: 0 <= i < |r| && r[i].id == id
  {
    forall id | id in ids ensures exists i :: 0 <= i < |r| && r[i].id == id {
      var i :| 0 <= i < |ordered| && ordered[i] == id;
      assert r[i].id == id;
    }
  }

  /** Sort key of an id. */
  function IdKey(id: int): seq<int>
  {
    [id]
  }

  /** The hitos of `ids`, as rows, in the same order. */
  function RowsOf(hs: map<int, Hito>, ids: seq<int>): (r: seq<HitoRow>)
    requires forall i :: 0 <= i < |ids| ==> ids[i] in hs
    ensures |r| == |ids|
    ensures forall i :: 0 <= i < |ids| ==> r[i] == HitoRow(ids[i], hs[ids[i]])
  {
    if ids == [] then [] else [HitoRow(ids[0], hs[ids[0]])] + RowsOf(hs, ids[1..])
  }

  /** Ids of the hitos of one indicator. */
  function HitoIdsOf(hs: map<int, Hito>, indicadorId: int): set<int>
  {
    set id | id in hs && hs[id].indicadorId == indicadorId
  }

  /** Percentages of a list of hitos, in list order. */
  function PercentsOf(hs: map<int, Hito>, ids: seq<int>): (r: seq<int>)
    requires forall i :: 0 <= i < |ids| ==> ids[i] in hs
    ensures |r| == |ids|
    ensures forall i :: 0 <= i < |ids| ==> r[i] == hs[ids[i]].avancePorcentaje
  {
    if ids == [] then [] else [hs[ids[0]].avancePorcentaje] + PercentsOf(hs, ids[1..])
  }

  /**
   * `int(AVG(avance_porcentaje))` over the hitos of one indicator, 0 when it
   * has none. The hitos are summed in id order.
   */
  function RollupPercent(hs: map<int, Hito>, indicadorId: int): (p: int)
    ensures HitoIdsOf(hs, indicadorId) == {} ==> p == 0
  {
    var ids := HitoIdsOf(hs, indicadorId);
    var ordered := SortedBy(ids, IdKey);
    var pcts := PercentsOf(hs, ordered);
    TruncatedMean(Sum(pcts), |pcts|)
  }

  /** If every hito of the indicator lies in 0..100, so does the rollup. */
  lemma RollupInRange(hs: map<int, Hito>, indicadorId: int)
    requires forall id :: id in HitoIdsOf(hs, indicadorId) ==> 0 <= hs[id].avancePorcentaje <= 100
    ensures 0 <= RollupPercent(hs, indicadorId) <= 100
  {
    var ids := HitoIdsOf(hs, indicadorId);
    var ordered := SortedBy(ids, IdKey);
    var pcts := PercentsOf(hs, ordered);
    assert forall i :: 0 <= i < |pcts| ==> pcts[i] == hs[ordered[i]].avancePorcentaje && ordered[i] in ids;
    SumInRange(pcts);
    TruncatedMeanInRange(Sum(pcts), |pcts|);
  }

  /** An indicator row that holds the rollup of its hitos and the status that rollup maps to. */
  predicate RollupConsistent(hs: map<int, Hito>, indicadorId: int, row: Indicador)
  {
    row.avancePorcentaje == RollupPercent(hs, indicadorId) && row.estado == StatusOf(row.avancePorcentaje)
  }

  /** Hitos left after deleting an indicator: those of every other indicator. */
  function CascadeDelete(hs: map<int, Hito>, indicadorId: int): (r: map<int, Hito>)
    ensures forall id :: id in r ==> id in hs && r[id] == hs[id] && r[id].indicadorId != indicadorId
    ensures forall id :: id in hs && hs[id].indicadorId != indicadorId ==> id in r
  {
    map id | id in hs && hs[id].indicadorId != indicadorId :: hs[id]
  }

  // ---------------------------------------------------------------- the store

  class Database {
    var indicadores: map<int, Indicador>
    var hitos: map<int, Hito>
    var nextIndicadorId: int
    var nextHitoId: int

    /** Ids are positive and below their counter; every hito belongs to a stored indicator. */
    ghost predicate Valid()
      reads this
    {
      && 1 <= nextIndicadorId && 1 <= nextHitoId
      && (forall id :: id in indicadores ==> 1 <= id < nextIndicadorId)
      && (forall id :: id in hitos ==> 1 <= id < nextHitoId && hitos[id].indicadorId in indicadores)
    }

    /** A freshly initialised store: both tables empty. */
    constructor ()
      ensures Valid() && indicadores == map[] && hitos == map[]
    {
      indicadores, hitos := map[], map[];
      nextIndicadorId, nextHitoId := 1, 1;
    }

    /** Inserts an indicator and returns its new id. */
    method CreateIndicador(anio: int, indicador: string, tipoIndicador: string, info: Descriptivo,
                           meta: Meta, avance: Option<real>, estado: string := PorComenzar,
                           tieneHitos: bool := false, today: string) returns (id: int)
      requires Valid()
      modifies this
      ensures Valid()
      ensures id !in old(indicadores) && 1 <= id
      ensures indicadores == old(indicadores)[id := NewIndicador(anio, indicador, tipoIndicador, info,
                                                                 meta, avance, estado, tieneHitos, today)]
      ensures hitos == old(hitos)
    {
      id := nextIndicadorId;
      indicadores := indicadores[id := NewIndicador(anio, indicador, tipoIndicador, info,
                                                    meta, avance, estado, tieneHitos, today)];
      nextIndicadorId := nextIndicadorId + 1;
    }

    /** The indicator with this id, if any. */
    function GetIndicadorById(id: int): (r: Option<Indicador>)
      reads this
      ensures r.Some? <==> id in indicadores
      ensures r.Some? ==> r.value == indicadores[id]
    {
      if id in indicadores then Some(indicadores[id]) else None
    }

    /** The indicators that pass every active filter. */
    function GetAllIndicadores(f: Filtros): (r: map<int, Indicador>)
      reads this
      ensures forall id :: id in r <==> id in indicadores && Matches(indicadores[id], f)
      ensures forall id :: id in r ==> r[id] == indicadores[id]
    {
      map id | id in indicadores && Matches(indicadores[id], f) :: indicadores[id]
    }

    /**
     * Rewrites target, actual value and status of an indicator (an argument
     * that is `None` keeps the stored value) and recomputes its percentage.
     * Returns false, changing nothing, when no indicator has this id.
     */
    method UpdateAvance(id: int, nuevoAvance: Option<real>, nuevaMeta: Option<Meta>,
                        nuevoEstado: Option<string>) returns (success: bool)
      requires Valid()
      modifies this`indicadores
      ensures Valid()
      ensures success == (id in old(indicadores))
      ensures success ==> indicadores == old(indicadores)[id := AvanceUpdated(old(indicadores)[id],
                                                          nuevoAvance, nuevaMeta, nuevoEstado)]
      ensures !success ==> indicadores == old(indicadores)
    {
      var current := GetIndicadorById(id);
      if current.None? {
        return false;
      }
      indicadores := indicadores[id := AvanceUpdated(current.value, nuevoAvance, nuevaMeta, nuevoEstado)];
      success := true;
    }

    /** Deletes an indicator and, by the declared cascade, its hitos; returns whether it existed. */
    method DeleteIndicador(id: int) returns (existed: bool)
      requires Valid()
      modifies this`indicadores, this`hitos
      ensures Valid()
      ensures existed == (id in old(indicadores))
      ensures indicadores == old(indicadores) - {id}
      ensures hitos == CascadeDelete(old(hitos), id)
      ensures forall h :: h in hitos ==> hitos[h].indicadorId != id
    {
      existed := id in indicadores;
      indicadores := indicadores - {id};
      hitos := CascadeDelete(hitos, id);
    }

    /** The distinct non-NULL values of a column, in ascending order. */
    function GetUniqueValues(c: Columna): (r: seq<Valor>)
      reads this
      ensures forall v :: v in r <==> exists id :: id in indicadores && ValueOf(indicadores[id], c) == Some(v)
      ensures Ascending(r, ValorKey)
      ensures forall i, j :: 0 <= i < j < |r| ==> r[i] != r[j]
    {
      var rows := indicadores;
      var values := set id | id in rows && ValueOf(rows[id], c).Some? :: ValueOf(rows[id], c).value;
      ValorKeyInjective(values);
      var r := SortedBy(values, ValorKey);
      assert forall i, j :: 0 <= i < j < |r| ==> r[i] != r[j] by {
        forall i, j | 0 <= i < j < |r| ensures r[i] != r[j] {
          SortedDistinct(r, ValorKey, i, j);
        }
      }
      r
    }

    /**
     * Inserts a hito and returns its new id; `None` when no indicator has
     * the given id (the declared foreign key rejects the row).
     */
    method CreateHito(indicadorId: int, nombre: string, detalle: HitoDetalle, avancePorcentaje: int := 0,
                      estado: string := PorComenzar, orden: Option<int> := None, today: string)
      returns (r: Option<int>)
      requires Valid()
      modifies this`hitos, this`nextHitoId
      ensures Valid()
      ensures r.Some? <==> indicadorId in indicadores
      ensures r.Some? ==> r.value !in old(hitos) && 1 <= r.value
      ensures r.Some? ==> hitos == old(hitos)[r.value := Hito(indicadorId, nombre, detalle, avancePorcentaje,
                                                              estado, orden, Some(today))]
      ensures r.None? ==> hitos == old(hitos)
    {
      if indicadorId !in indicadores {
        return None;
      }
      var id := nextHitoId;
      hitos := hitos[id := Hito(indicadorId, nombre, detalle, avancePorcentaje, estado, orden, Some(today))];
      nextHitoId := nextHitoId + 1;
      r := Some(id);
    }

    /** The hitos of one indicator, ordered by `orden` (NULL first) and then by id. */
    function GetHitosByIndicador(indicadorId: int): (r: seq<HitoRow>)
      reads this
      ensures |r| == |HitoIdsOf(hitos, indicadorId)|
      ensures forall i :: 0 <= i < |r| ==>
                r[i].id in hitos && r[i].hito == hitos[r[i].id] && r[i].hito.indicadorId == indicadorId
      ensures forall id :: id in hitos && hitos[id].indicadorId == indicadorId ==>
                exists i :: 0 <= i < |r| && r[i].id == id
      ensures forall i, j :: 0 <= i < j < |r| ==> LexLess(HitoKey(hitos, r[i].id), HitoKey(hitos, r[j].id))
    {
      HitosOrdered(hitos, indicadorId)
    }

    /** Sets a hito's percentage and the status it maps to; returns whether the hito existed. */
    method UpdateHitoAvance(hitoId: int, nuevoAvancePorcentaje: int) returns (existed: bool)
      requires Valid()
      modifies this`hitos
      ensures Valid()
      ensures existed == (hitoId in old(hitos))
      ensures existed ==> hitos == old(hitos)[hitoId := old(hitos)[hitoId].(
                avancePorcentaje := nuevoAvancePorcentaje, estado := StatusOf(nuevoAvancePorcentaje))]
      ensures !existed ==> hitos == old(hitos)
    {
      var estado := StatusOf(nuevoAvancePorcentaje);
      existed := hitoId in hitos;
      if existed {
        hitos := hitos[hitoId := hitos[hitoId].(avancePorcentaje := nuevoAvancePorcentaje, estado := estado)];
      }
    }

    /** Deletes a hito; returns whether it existed. */
    method DeleteHito(hitoId: int) returns (existed: bool)
      requires Valid()
      modifies this`hitos
      ensures Valid()
      ensures existed == (hitoId in old(hitos))
      ensures hitos == old(hitos) - {hitoId}
    {
      existed := hitoId in hitos;
      hitos := hitos - {hitoId};
    }

    /**
     * Sets an indicator's percentage to the truncated mean of its hitos'
     * percentages (0 without hitos) and its status to the one that mean maps
     * to; returns whether the indicator existed.
     */
    method UpdateIndicadorFromHitos(indicadorId: int) returns (existed: bool)
      requires Valid()
      modifies this`indicadores
      ensures Valid()
      ensures existed == (indicadorId in old(indicadores))
      ensures existed ==> indicadores == old(indicadores)[indicadorId := old(indicadores)[indicadorId].(
                avancePorcentaje := RollupPercent(hitos, indicadorId),
                estado := StatusOf(RollupPercent(hitos, indicadorId)))]
      ensures existed ==> RollupConsistent(hitos, indicadorId, indicadores[indicadorId])
      ensures !existed ==> indicadores == old(indicadores)
    {
      var avg := RollupPercent(hitos, indicadorId);
      var estado := StatusOf(avg);
      existed := indicadorId in indicadores;
      if existed {
        indicadores := indicadores[indicadorId := indicadores[indicadorId].(avancePorcentaje := avg, estado := estado)];
      }
    }
  }
}
