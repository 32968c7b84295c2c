/**
 * The dialog that creates or edits a mass: the picked date, the description (at most 500
 * characters, empty meaning none), the error map, and the record a valid submit saves.
 */
module MisaForm {
  import opened Wrappers
  import opened Calendar
  import opened DatabaseTypes
  import opened FieldErrors

  /** The date picker's state: nothing picked, a `Date` that failed to parse, or a day. */
  datatype DateValue = NoDate | InvalidDate | SomeDate(day: Date)

  const FechaRequired := "La fecha es requerida"
  const FechaInvalid := "Invalid date"
  const DescripcionTooLong := "La descripción no puede exceder 500 caracteres"
  const DescripcionMax := 500

  const MisaFields: set<string> := {"fecha", "descripcion"}

  function FechaIssues(date: DateValue): (issues: seq<Issue>)
    ensures forall k :: 0 <= k < |issues| ==> issues[k].path == "fecha"
  {
    match date
    case NoDate => [Issue("fecha", FechaRequired)]
    case InvalidDate => [Issue("fecha", FechaInvalid)]
    case SomeDate(_) => []
  }

  /** The description is handed over as `descripcion || undefined`: an empty one is absent
      and passes. */
  function DescripcionIssues(descripcion: string): (issues: seq<Issue>)
    ensures forall k :: 0 <= k < |issues| ==> issues[k].path == "descripcion"
  {
    if |descripcion| > 0 && |descripcion| > DescripcionMax then [Issue("descripcion", DescripcionTooLong)] else []
  }

  /** `misaSchema`'s issues. */
  function MisaIssues(date: DateValue, descripcion: string): (issues: seq<Issue>)
    ensures issues == [] <==> date.SomeDate? && |descripcion| <= DescripcionMax
  {
    FechaIssues(date) + DescripcionIssues(descripcion)
  }

  /** The two fields' messages. */
  lemma MisaErrorsPerField(date: DateValue, descripcion: string)
    ensures var e := ErrorMap(MisaIssues(date, descripcion), MisaFields);
            ("fecha" in e <==> !date.SomeDate?)
            && (date.NoDate? ==> e["fecha"] == FechaRequired)
            && (date.InvalidDate? ==> e["fecha"] == FechaInvalid)
            && ("descripcion" in e <==> |descripcion| > DescripcionMax)
            && (|descripcion| > DescripcionMax ==> e["descripcion"] == DescripcionTooLong)
  {
    var f, d := FechaIssues(date), DescripcionIssues(descripcion);
    FieldBlock([], f, d, MisaFields, "fecha");
    FieldBlock(f, d, [], MisaFields, "descripcion");
    assert [] + f + d == f + d && f + d + [] == f + d;
  }

  // ---------------------------------------------------------------- reading the stored date

  /** The local calendar day of UTC midnight of `d`, `offsetMinutes` east of UTC (less than
      a day either way): west of UTC it is the day before. */
  function LocalDayOfUtcMidnight(d: Date, offsetMinutes: int): (r: Date)
    requires ValidDate(d) && -1440 < offsetMinutes < 1440
    ensures ValidDate(r)
    ensures offsetMinutes >= 0 || d == Date(0, 1, 1) ==> r == d
    ensures offsetMinutes < 0 && d != Date(0, 1, 1) ==> NextDay(r) == d
  {
    if offsetMinutes < 0 && d != Date(0, 1, 1) then
      NextPrevInverse(d);
      PrevDay(d)
    else d
  }

  /** The reset as written: `new Date(misa.fecha)` reads a `yyyy-MM-dd` string as UTC
      midnight, and the picker and `format` then work with its local day. */
  function StoredDateAsWritten(fecha: string, offsetMinutes: int): (v: DateValue)
    requires -1440 < offsetMinutes < 1440
    ensures v.SomeDate? <==> ParseIso(fecha).Some?
  {
    match ParseIso(fecha)
    case None => InvalidDate
    case Some(d) => SomeDate(LocalDayOfUtcMidnight(d, offsetMinutes))
  }

  /** As written, saving an unchanged mass west of UTC stores the day before. */
  lemma EditShiftsDateWestOfUtc(d: Date, offsetMinutes: int)
    requires ValidDate(d) && d != Date(0, 1, 1) && d.year < 10000 && -1440 < offsetMinutes < 0
    ensures StoredDateAsWritten(FormatIso(d), offsetMinutes).SomeDate?
    ensures FormatIso(StoredDateAsWritten(FormatIso(d), offsetMinutes).day) != FormatIso(d)
  {
    ParseFormatIso(d);
    var p := LocalDayOfUtcMidnight(d, offsetMinutes);
    assert StoredDateAsWritten(FormatIso(d), offsetMinutes) == SomeDate(p);
    NextDayMovesForward(p);
    FormatIsoInjective(p, d);
  }

  /** The reset read as a calendar day, which is what the form means. */
  function StoredDate(fecha: string): (v: DateValue)
    ensures v.SomeDate? <==> ParseIso(fecha).Some?
    ensures v.SomeDate? ==> Some(v.day) == ParseIso(fecha)
  {
    match ParseIso(fecha)
    case None => InvalidDate
    case Some(d) => SomeDate(d)
  }

  /** Read as a calendar day, saving an unchanged mass stores the date it had, in every
      time zone. */
  lemma EditKeepsDate(d: Date)
    requires ValidDate(d) && d.year < 10000
    ensures StoredDate(FormatIso(d)) == SomeDate(d)
    ensures FormatIso(StoredDate(FormatIso(d)).day) == FormatIso(d)
  {
    ParseFormatIso(d);
  }

  // ---------------------------------------------------------------- the dialog

  /** What is saved: the day as `yyyy-MM-dd`, the description or null, the owner. */
  datatype MisaRecord = MisaRecord(fecha: string, descripcion: Option<string>, usuarioId: string)

  datatype Save = UpdateMisaById(id: string, record: MisaRecord) | InsertMisa(record: MisaRecord)

  function RecordOf(d: Date, descripcion: string, userId: string): (r: MisaRecord)
    ensures r.descripcion.Some? <==> |descripcion| > 0
    ensures r.descripcion.Some? ==> r.descripcion.value == descripcion
    ensures r.usuarioId == userId
  {
    MisaRecord(FormatIso(d), if |descripcion| > 0 then Some(descripcion) else None, userId)
  }

  /** The saved `fecha` reads back as the picked day. */
  lemma RecordDateReadsBack(d: Date, descripcion: string, userId: string)
    requires ValidDate(d) && d.year < 10000
    ensures ParseIso(RecordOf(d, descripcion, userId).fecha) == Some(d)
  {
    ParseFormatIso(d);
  }

  class MisaFormDialog {
    var editing: Option<Misa>
    var date: DateValue
    var descripcion: string
    var errors: map<string, string>

    constructor()
      ensures editing == None && date == NoDate && descripcion == "" && errors == map[]
    {
      editing := None;
      date := NoDate;
      descripcion := "";
      errors := map[];
    }

    /** The effect on `misa` / `open`. */
    method Reset(misa: Option<Misa>)
      modifies this
      ensures editing == misa
      ensures misa.Some? ==> date == StoredDate(misa.value.fecha) && descripcion == misa.value.descripcion.GetOr("")
      ensures misa.None? ==> date == NoDate && descripcion == ""
      ensures errors == map[]
    {
      editing := misa;
      if misa.Some? {
        date := StoredDate(misa.value.fecha);
        descripcion := misa.value.descripcion.GetOr("");
      } else {
        date := NoDate;
        descripcion := "";
      }
      errors := map[];
    }

    method PickDate(d: Date)
      modifies this
      ensures date == SomeDate(d)
      ensures editing == old(editing) && descripcion == old(descripcion) && errors == old(errors)
    {
      date := SomeDate(d);
    }

    method SetDescripcion(s: string)
      modifies this
      ensures descripcion == s
      ensures editing == old(editing) && date == old(date) && errors == old(errors)
    {
      descripcion := s;
    }

    /** `validateForm`. */
    method Validate() returns (ok: bool)
      modifies this
      ensures ok <==> date.SomeDate? && |descripcion| <= DescripcionMax
      ensures errors == ErrorMap(MisaIssues(date, descripcion), MisaFields)
      ensures editing == old(editing) && date == old(date) && descripcion == old(descripcion)
    {
      var issues := MisaIssues(date, descripcion);
      if issues == [] {
        errors := map[];
        ok := true;
      } else {
        errors := CollectErrors(issues, MisaFields);
        ok := false;
      }
    }

    /** `handleSubmit` up to the store call; `user` is the signed-in user's id, if any. */
    method HandleSubmit(user: Option<string>) returns (save: Option<Save>)
      modifies this
      ensures errors == ErrorMap(MisaIssues(date, descripcion), MisaFields)
      ensures save.Some? <==> date.SomeDate? && |descripcion| <= DescripcionMax && user.Some?
      ensures save.Some? ==>
                var r := RecordOf(date.day, descripcion, user.value);
                save.value == if editing.Some? then UpdateMisaById(editing.value.id, r) else InsertMisa(r)
      ensures editing == old(editing) && date == old(date) && descripcion == old(descripcion)
    {
      var ok := Validate();
      if !ok || user.None? || !date.SomeDate? {
        return None;
      }
      var r := RecordOf(date.day, descripcion, user.value);
      if editing.Some? {
        save := Some(UpdateMisaById(editing.value.id, r));
      } else {
        save := Some(InsertMisa(r));
      }
    }
  }
}
