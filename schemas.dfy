/**
 * The request and response validators of the HTTP interface: field
 * constraints (ranges, minimum lengths, the report's entity pattern),
 * required fields and defaults. A request is validated field by field in
 * declaration order; every violated constraint is reported, and a request
 * with none becomes a typed value with its defaults filled in.
 */
module Schemas {
  import opened Wrappers
  import opened Progress
  import opened Store
  import opened Ledger

  /** A field as it arrives: left out, explicitly null, or given a value. */
  datatype Raw<T> = Omitted | Null | Given(value: T)

  datatype ErrorKind = Missing | NullNotAllowed | TooSmall | TooLarge | TooShort | PatternMismatch

  /** One reported violation: the field's name and what is wrong with it. */
  datatype FieldError = FieldError(field: string, kind: ErrorKind)

  datatype Validated<T> = Valid(value: T) | Invalid(errors: seq<FieldError>)

  const MinAnio: int := 2020
  const MaxAnio: int := 2030

  // ---------------------------------------------------------- field rules

  /** A required field: it must be given. */
  function RequiredErrors<T>(field: string, raw: Raw<T>): (e: seq<FieldError>)
    ensures e == [] <==> raw.Given?
    ensures raw == Omitted ==> e == [FieldError(field, Missing)]
    ensures raw == Null ==> e == [FieldError(field, NullNotAllowed)]
  {
    match raw
    case Omitted => [FieldError(field, Missing)]
    case Null => [FieldError(field, NullNotAllowed)]
    case Given(_) => []
  }

  /** A field with a default that is not optional: it may be left out, not null. */
  function DefaultedErrors<T>(field: string, raw: Raw<T>): (e: seq<FieldError>)
    ensures e == [] <==> raw != Null
    ensures raw == Null ==> e == [FieldError(field, NullNotAllowed)]
  {
    if raw == Null then [FieldError(field, NullNotAllowed)] else []
  }

  /** The given value, or the default when the field was left out. */
  function ValueOr<T>(raw: Raw<T>, default: T): (v: T)
    ensures raw.Given? ==> v == raw.value
    ensures !raw.Given? ==> v == default
  {
    if raw.Given? then raw.value else default
  }

  /** The bounds `ge=lo, le=hi` on a value. */
  function BoundErrors(field: string, v: int, lo: int, hi: int): (e: seq<FieldError>)
    ensures e == [] <==> lo <= v <= hi
    ensures v < lo ==> e == [FieldError(field, TooSmall)]
    ensures lo <= hi < v ==> e == [FieldError(field, TooLarge)]
  {
    if v < lo then [FieldError(field, TooSmall)]
    else if v > hi then [FieldError(field, TooLarge)]
    else []
  }

  /** A required integer within bounds. */
  function RangeErrors(field: string, raw: Raw<int>, lo: int, hi: int): (e: seq<FieldError>)
    ensures e == [] <==> raw.Given? && lo <= raw.value <= hi
    ensures !raw.Given? ==> e == RequiredErrors(field, raw)
  {
    if raw.Given? then BoundErrors(field, raw.value, lo, hi) else RequiredErrors(field, raw)
  }

  /** A required text of at least one character (`min_length=1`). */
  function NonEmptyErrors(field: string, raw: Raw<string>): (e: seq<FieldError>)
    ensures e == [] <==> raw.Given? && |raw.value| >= 1
    ensures raw == Given("") ==> e == [FieldError(field, TooShort)]
    ensures !raw.Given? ==> e == RequiredErrors(field, raw)
  {
    if raw.Given? then (if |raw.value| == 0 then [FieldError(field, TooShort)] else [])
    else RequiredErrors(field, raw)
  }

  // ------------------------------------------------------------ indicators

  /** An indicator create request as it arrives. */
  datatype RawIndicador = RawIndicador(
    anio: Raw<int>,
    indicador: Raw<string>,
    tipoIndicador: Raw<string>,
    info: Descriptivo,
    meta: Option<string>,
    estado: Raw<string>,
    tieneHitos: Raw<bool>)

  /** A validated indicator create request. */
  datatype IndicadorRequest = IndicadorRequest(
    anio: int,
    indicador: string,
    tipoIndicador: string,
    info: Descriptivo,
    meta: Option<string>,
    estado: string,
    tieneHitos: bool)

  /** The constraints, stated field by field. */
  predicate IndicadorOk(r: RawIndicador)
  {
    && r.anio.Given? && MinAnio <= r.anio.value <= MaxAnio
    && r.indicador.Given? && r.indicador.value != []
    && r.tipoIndicador.Given?
    && r.estado != Null
    && r.tieneHitos != Null
  }

  /** The violations, in declaration order (año, indicador, estado, tipo_indicador, tiene_hitos). */
  function IndicadorErrors(r: RawIndicador): seq<FieldError>
  {
    RangeErrors("año", r.anio, MinAnio, MaxAnio)
      + NonEmptyErrors("indicador", r.indicador)
      + DefaultedErrors("estado", r.estado)
      + RequiredErrors("tipo_indicador", r.tipoIndicador)
      + DefaultedErrors("tiene_hitos", r.tieneHitos)
  }

  /**
   * `IndicadorCreate`: valid exactly when every constraint holds; a left-out
   * `estado` becomes "Por comenzar" and a left-out `tiene_hitos` false.
   */
  function ParseIndicador(r: RawIndicador): (v: Validated<IndicadorRequest>)
    ensures v.Valid? <==> IndicadorOk(r)
    ensures v.Invalid? ==> v.errors != []
    ensures v.Valid? ==>
              && MinAnio <= v.value.anio <= MaxAnio && v.value.anio == r.anio.value
              && v.value.indicador == r.indicador.value && |v.value.indicador| >= 1
              && v.value.tipoIndicador == r.tipoIndicador.value
              && v.value.info == r.info && v.value.meta == r.meta
              && v.value.estado == ValueOr(r.estado, PorComenzar)
              && v.value.tieneHitos == ValueOr(r.tieneHitos, false)
  {
    var e := IndicadorErrors(r);
    if e != [] then Invalid(e)
    else Valid(IndicadorRequest(r.anio.value, r.indicador.value, r.tipoIndicador.value, r.info, r.meta,
                                ValueOr(r.estado, PorComenzar), ValueOr(r.tieneHitos, false)))
  }

  /** Each violated constraint is reported against its own field. */
  lemma IndicadorErrorsReported(r: RawIndicador)
    ensures r.anio.Given? && r.anio.value < MinAnio ==> FieldError("año", TooSmall) in IndicadorErrors(r)
    ensures r.anio.Given? && r.anio.value > MaxAnio ==> FieldError("año", TooLarge) in IndicadorErrors(r)
    ensures r.anio == Omitted ==> FieldError("año", Missing) in IndicadorErrors(r)
    ensures r.anio == Null ==> FieldError("año", NullNotAllowed) in IndicadorErrors(r)
    ensures r.indicador == Given("") ==> FieldError("indicador", TooShort) in IndicadorErrors(r)
    ensures r.indicador == Omitted ==> FieldError("indicador", Missing) in IndicadorErrors(r)
    ensures r.indicador == Null ==> FieldError("indicador", NullNotAllowed) in IndicadorErrors(r)
    ensures r.tipoIndicador == Omitted ==> FieldError("tipo_indicador", Missing) in IndicadorErrors(r)
    ensures r.tipoIndicador == Null ==> FieldError("tipo_indicador", NullNotAllowed) in IndicadorErrors(r)
    ensures r.estado == Null ==> FieldError("estado", NullNotAllowed) in IndicadorErrors(r)
    ensures r.tieneHitos == Null ==> FieldError("tiene_hitos", NullNotAllowed) in IndicadorErrors(r)
  {
    var a := RangeErrors("año", r.anio, MinAnio, MaxAnio);
    var b := NonEmptyErrors("indicador", r.indicador);
    var c := DefaultedErrors("estado", r.estado);
    var d := RequiredErrors("tipo_indicador", r.tipoIndicador);
    var f := DefaultedErrors("tiene_hitos", r.tieneHitos);
    assert IndicadorErrors(r) == a + b + c + d + f;
    assert forall x :: x in a ==> x in IndicadorErrors(r);
    assert forall x :: x in b ==> x in IndicadorErrors(r);
    assert forall x :: x in c ==> x in IndicadorErrors(r);
    assert forall x :: x in d ==> x in IndicadorErrors(r);
    assert forall x :: x in f ==> x in IndicadorErrors(r);
  }

  /** The request that sends every field of a validated value. */
  function SendIndicador(m: IndicadorRequest): (r: RawIndicador)
    ensures r.anio == Given(m.anio) && r.indicador == Given(m.indicador) && r.tipoIndicador == Given(m.tipoIndicador)
    ensures r.estado == Given(m.estado) && r.tieneHitos == Given(m.tieneHitos)
    ensures r.info == m.info && r.meta == m.meta
  {
    RawIndicador(Given(m.anio), Given(m.indicador), Given(m.tipoIndicador), m.info, m.meta,
                 Given(m.estado), Given(m.tieneHitos))
  }

  /** What a validated indicator request always satisfies. */
  predicate IndicadorRequestOk(m: IndicadorRequest)
  {
    MinAnio <= m.anio <= MaxAnio && m.indicador != []
  }

  /** Sending a validated value back validates to the same value. */
  lemma IndicadorRoundTrip(m: IndicadorRequest)
    requires IndicadorRequestOk(m)
    ensures ParseIndicador(SendIndicador(m)) == Valid(m)
  {
  }

  /** Leaving out `estado` and `tiene_hitos` gives "Por comenzar" and no hitos. */
  lemma IndicadorDefaults(r: RawIndicador)
    requires IndicadorOk(r) && r.estado == Omitted && r.tieneHitos == Omitted
    ensures ParseIndicador(r).value.estado == PorComenzar && !ParseIndicador(r).value.tieneHitos
  {
  }

  /** An indicator update request: every field optional. */
  datatype IndicadorUpdate = IndicadorUpdate(
    anio: Option<int>,
    indicador: Option<string>,
    tipoIndicador: Option<string>,
    info: Descriptivo,
    meta: Option<string>,
    estado: Option<string>,
    tieneHitos: Option<bool>)

  /** `IndicadorUpdate`: anything may be left out, but a given `año` must lie in 2020..2030. */
  function ParseIndicadorUpdate(u: IndicadorUpdate): (v: Validated<IndicadorUpdate>)
    ensures v.Valid? <==> (u.anio.Some? ==> MinAnio <= u.anio.value <= MaxAnio)
    ensures v.Valid? ==> v.value == u
    ensures v.Invalid? ==> v.errors != [] && forall i :: 0 <= i < |v.errors| ==> v.errors[i].field == "año"
  {
    if u.anio.Some? && BoundErrors("año", u.anio.value, MinAnio, MaxAnio) != [] then
      Invalid(BoundErrors("año", u.anio.value, MinAnio, MaxAnio))
    else Valid(u)
  }

  /** An indicator as the interface returns it: the create fields plus id, actual value, percentage and load date. */
  datatype RawIndicadorResponse = RawIndicadorResponse(
    base: RawIndicador,
    id: Raw<int>,
    avance: Option<real>,
    avancePorcentaje: Raw<int>,
    fechaCarga: Option<string>)

  datatype IndicadorResponse = IndicadorResponse(
    base: IndicadorRequest,
    id: int,
    avance: Option<real>,
    avancePorcentaje: int,
    fechaCarga: Option<string>)

  /** `IndicadorResponse`: the create constraints, a required id, and a percentage that defaults to 0. */
  function ParseIndicadorResponse(r: RawIndicadorResponse): (v: Validated<IndicadorResponse>)
    ensures v.Valid? <==> IndicadorOk(r.base) && r.id.Given? && r.avancePorcentaje != Null
    ensures v.Valid? ==>
              && ParseIndicador(r.base) == Valid(v.value.base)
              && v.value.id == r.id.value
              && v.value.avancePorcentaje == ValueOr(r.avancePorcentaje, 0)
              && v.value.avance == r.avance && v.value.fechaCarga == r.fechaCarga
    ensures v.Invalid? ==> v.errors != []
  {
    var e := IndicadorErrors(r.base) + RequiredErrors("id", r.id) + DefaultedErrors("avance_porcentaje", r.avancePorcentaje);
    if e != [] then Invalid(e)
    else
      var base := ParseIndicador(r.base);
      Valid(IndicadorResponse(base.value, r.id.value, r.avance, ValueOr(r.avancePorcentaje, 0), r.fechaCarga))
  }

  /** A response that leaves the percentage out reports 0. */
  lemma ResponsePercentDefault(r: RawIndicadorResponse)
    requires IndicadorOk(r.base) && r.id.Given? && r.avancePorcentaje == Omitted
    ensures ParseIndicadorResponse(r).value.avancePorcentaje == 0
  {
  }

  // ----------------------------------------------------------------- hitos

  /** A hito create request as it arrives. */
  datatype RawHito = RawHito(
    indicadorId: Raw<int>,
    nombre: Raw<string>,
    detalle: HitoDetalle,
    estado: Raw<string>,
    orden: Option<int>,
    responsable: Option<string>)

  /** A validated hito create request. */
  datatype HitoRequest = HitoRequest(
    indicadorId: int,
    nombre: string,
    detalle: HitoDetalle,
    estado: string,
    orden: Option<int>,
    responsable: Option<string>)

  predicate HitoOk(r: RawHito)
  {
    r.indicadorId.Given? && r.nombre.Given? && r.nombre.value != [] && r.estado != Null
  }

  /** `HitoCreate`: an indicator id, a non-empty name, and a status that defaults to "Por comenzar". */
  function ParseHito(r: RawHito): (v: Validated<HitoRequest>)
    ensures v.Valid? <==> HitoOk(r)
    ensures v.Invalid? ==> v.errors != []
    ensures v.Valid? ==>
              && v.value.indicadorId == r.indicadorId.value
              && v.value.nombre == r.nombre.value && |v.value.nombre| >= 1
              && v.value.estado == ValueOr(r.estado, PorComenzar)
              && v.value.detalle == r.detalle && v.value.orden == r.orden && v.value.responsable == r.responsable
  {
    var e := RequiredErrors("indicador_id", r.indicadorId) + NonEmptyErrors("nombre", r.nombre)
             + DefaultedErrors("estado", r.estado);
    if e != [] then Invalid(e)
    else Valid(HitoRequest(r.indicadorId.value, r.nombre.value, r.detalle, ValueOr(r.estado, PorComenzar),
                           r.orden, r.responsable))
  }

  /** The request that sends every field of a validated hito. */
  function SendHito(m: HitoRequest): (r: RawHito)
    ensures r.indicadorId == Given(m.indicadorId) && r.nombre == Given(m.nombre) && r.estado == Given(m.estado)
    ensures r.detalle == m.detalle && r.orden == m.orden && r.responsable == m.responsable
  {
    RawHito(Given(m.indicadorId), Given(m.nombre), m.detalle, Given(m.estado), m.orden, m.responsable)
  }

  /** Sending a validated hito back validates to the same value. */
  lemma HitoRoundTrip(m: HitoRequest)
    requires m.nombre != []
    ensures ParseHito(SendHito(m)) == Valid(m)
  {
  }

  // ----------------------------------------------------------- actividades

  /** An actividad create request as it arrives. */
  datatype RawActividad = RawActividad(
    hitoId: Raw<int>,
    descripcionActividad: Raw<string>,
    fechaInicioPlan: Option<string>,
    fechaFinPlan: Option<string>,
    responsable: Option<string>,
    fechaReal: Option<string>,
    estadoActividad: Raw<string>)

  /** A validated actividad create request. */
  datatype ActividadRequest = ActividadRequest(
    hitoId: int,
    descripcionActividad: string,
    fechaInicioPlan: Option<string>,
    fechaFinPlan: Option<string>,
    responsable: Option<string>,
    fechaReal: Option<string>,
    estadoActividad: string)

  predicate ActividadOk(r: RawActividad)
  {
    r.hitoId.Given? && r.descripcionActividad.Given? && r.descripcionActividad.value != [] && r.estadoActividad != Null
  }

  /** `ActividadCreate`: a hito id, a non-empty description, and a status that defaults to "Por comenzar". */
  function ParseActividad(r: RawActividad): (v: Validated<ActividadRequest>)
    ensures v.Valid? <==> ActividadOk(r)
    ensures v.Invalid? ==> v.errors != []
    ensures v.Valid? ==>
              && v.value.hitoId == r.hitoId.value
              && v.value.descripcionActividad == r.descripcionActividad.value
              && |v.value.descripcionActividad| >= 1
              && v.value.estadoActividad == ValueOr(r.estadoActividad, PorComenzar)
              && v.value.fechaInicioPlan == r.fechaInicioPlan && v.value.fechaFinPlan == r.fechaFinPlan
              && v.value.responsable == r.responsable && v.value.fechaReal == r.fechaReal
  {
    var e := RequiredErrors("hito_id", r.hitoId) + NonEmptyErrors("descripcion_actividad", r.descripcionActividad)
             + DefaultedErrors("estado_actividad", r.estadoActividad);
    if e != [] then Invalid(e)
    else Valid(ActividadRequest(r.hitoId.value, r.descripcionActividad.value, r.fechaInicioPlan, r.fechaFinPlan,
                                r.responsable, r.fechaReal, ValueOr(r.estadoActividad, PorComenzar)))
  }

  /** The request that sends every field of a validated actividad. */
  function SendActividad(m: ActividadRequest): (r: RawActividad)
    ensures r.hitoId == Given(m.hitoId) && r.descripcionActividad == Given(m.descripcionActividad)
    ensures r.estadoActividad == Given(m.estadoActividad)
    ensures r.fechaInicioPlan == m.fechaInicioPlan && r.fechaFinPlan == m.fechaFinPlan
    ensures r.responsable == m.responsable && r.fechaReal == m.fechaReal
  {
    RawActividad(Given(m.hitoId), Given(m.descripcionActividad), m.fechaInicioPlan, m.fechaFinPlan,
                 m.responsable, m.fechaReal, Given(m.estadoActividad))
  }

  /** Sending a validated actividad back validates to the same value. */
  lemma ActividadRoundTrip(m: ActividadRequest)
    requires m.descripcionActividad != []
    ensures ParseActividad(SendActividad(m)) == Valid(m)
  {
  }

  // -------------------------------------------------------- monthly reports

  /** The entity kind's name in a request and in the ledger. */
  function EntidadName(e: Entidad): (s: string)
    ensures s == "hito" || s == "actividad"
  {
    match e
    case EntidadHito => "hito"
    case EntidadActividad => "actividad"
  }

  /** The pattern `^(hito|actividad)$`: the whole text is one of the two names. */
  function ParseEntidad(s: string): (e: Option<Entidad>)
    ensures e.Some? <==> s == "hito" || s == "actividad"
  {
    if s == "hito" then Some(EntidadHito)
    else if s == "actividad" then Some(EntidadActividad)
    else None
  }

  /** The names and the kinds correspond one to one. */
  lemma EntidadRoundTrip(e: Entidad, s: string)
    ensures ParseEntidad(EntidadName(e)) == Some(e)
    ensures ParseEntidad(s).Some? ==> EntidadName(ParseEntidad(s).value) == s
  {
  }

  /** A monthly report request as it arrives. */
  datatype RawAvanceMensual = RawAvanceMensual(
    entidad: Raw<string>,
    idEntidad: Raw<int>,
    avanceReportado: Raw<int>,
    usuario: Option<string>,
    mes: Option<string>)

  /** A validated monthly report request. */
  datatype AvanceMensualRequest = AvanceMensualRequest(
    entidad: Entidad,
    idEntidad: int,
    avanceReportado: int,
    usuario: Option<string>,
    mes: Option<string>)

  predicate AvanceMensualOk(r: RawAvanceMensual)
  {
    && r.entidad.Given? && (r.entidad.value == "hito" || r.entidad.value == "actividad")
    && r.idEntidad.Given?
    && r.avanceReportado.Given? && 0 <= r.avanceReportado.value <= 100
  }

  /** The entity field: required, and exactly one of the two names. */
  function EntidadErrors(raw: Raw<string>): (e: seq<FieldError>)
    ensures e == [] <==> raw.Given? && ParseEntidad(raw.value).Some?
  {
    if !raw.Given? then RequiredErrors("entidad", raw)
    else if ParseEntidad(raw.value).None? then [FieldError("entidad", PatternMismatch)]
    else []
  }

  /**
   * `AvanceMensualCreate`: the entity is "hito" or "actividad", the id is
   * given, and the reported percentage is an integer in 0..100; the user and
   * the month may be left out.
   */
  function ParseAvanceMensual(r: RawAvanceMensual): (v: Validated<AvanceMensualRequest>)
    ensures v.Valid? <==> AvanceMensualOk(r)
    ensures v.Invalid? ==> v.errors != []
    ensures v.Valid? ==>
              && EntidadName(v.value.entidad) == r.entidad.value
              && v.value.idEntidad == r.idEntidad.value
              && v.value.avanceReportado == r.avanceReportado.value && 0 <= v.value.avanceReportado <= 100
              && v.value.usuario == r.usuario && v.value.mes == r.mes
  {
    var e := EntidadErrors(r.entidad) + RequiredErrors("id_entidad", r.idEntidad)
             + RangeErrors("avance_reportado", r.avanceReportado, 0, 100);
    if e != [] then Invalid(e)
    else
      var kind := ParseEntidad(r.entidad.value).value;
      EntidadRoundTrip(kind, r.entidad.value);
      Valid(AvanceMensualRequest(kind, r.idEntidad.value, r.avanceReportado.value, r.usuario, r.mes))
  }

  /** A report that passes validation meets the ledger's CHECK on the reported percentage. */
  lemma ValidatedReportFitsLedger(r: RawAvanceMensual)
    requires ParseAvanceMensual(r).Valid?
    ensures var m := ParseAvanceMensual(r).value;
            ReportOk(Report(m.avanceReportado, m.usuario))
  {
  }

  function SendAvanceMensual(m: AvanceMensualRequest): (r: RawAvanceMensual)
    ensures r.entidad == Given(EntidadName(m.entidad)) && r.idEntidad == Given(m.idEntidad)
    ensures r.avanceReportado == Given(m.avanceReportado) && r.usuario == m.usuario && r.mes == m.mes
  {
    RawAvanceMensual(Given(EntidadName(m.entidad)), Given(m.idEntidad), Given(m.avanceReportado), m.usuario, m.mes)
  }

  /** Sending a validated report back validates to the same value. */
  lemma AvanceMensualRoundTrip(m: AvanceMensualRequest)
    requires 0 <= m.avanceReportado <= 100
    ensures ParseAvanceMensual(SendAvanceMensual(m)) == Valid(m)
  {
    EntidadRoundTrip(m.entidad, EntidadName(m.entidad));
  }
}
