/**
 * `getReadingsFromVatican` of the API scraper: validate the parsed date, move it one
 * calendar day forward, request the page, and wrap the extractor's output (or the
 * caught error) in a result envelope that always echoes the requested `fecha`.
 * The HTTP exchange is an input: what the fetch returned, were it performed.
 */
module ReadingsApi {
  import opened Wrappers
  import Text
  import opened Calendar
  import ReadingsUrl
  import Extractor

  /** The extractor's output as the envelope names it (`indicacionLiturgica`). */
  datatype Lecturas = Lecturas(indicacionLiturgica: Option<string>,
                               primeraLectura: Extractor.Reading,
                               evangelio: Extractor.Reading)

  /** The two envelope shapes; the server variant's failures also carry a hint. */
  datatype Envelope =
    | Success(fecha: string, url: string, lecturas: Lecturas)
    | Failure(fecha: string, error: string, hint: Option<string>)

  /** A value caught by `catch`: an `Error` with its message, or anything else. */
  datatype Thrown = ErrorObject(message: string) | OtherValue

  /** What the `catch` block reports for a caught value. */
  function CaughtMessage(t: Thrown): (m: string)
    ensures t.ErrorObject? ==> m == t.message
    ensures t.OtherValue? ==> m == "Error desconocido"
  {
    match t
    case ErrorObject(msg) => msg
    case OtherValue => "Error desconocido"
  }

  /** The outcome of `fetch` plus reading the body: it threw, or a status and the parsed page. */
  datatype FetchOutcome = FetchThrew(thrown: Thrown) | Responded(status: nat, page: Extractor.Document)

  /** `response.ok`. */
  predicate OkStatus(status: nat) { 200 <= status <= 299 }

  const InvalidDateMessage := "Formato de fecha inválido. Use YYYY-MM-DD"
  const PageErrorPrefix := "Error al obtener la página: "

  function Rename(r: Extractor.Readings): Lecturas {
    Lecturas(r.indicazioneLiturgica, r.primeraLectura, r.evangelio)
  }

  /** One call: the URL fetched (None when no request is made) and the envelope returned. */
  datatype Call = Call(requested: Option<string>, envelope: Envelope)

  /** `getReadingsFromVatican(fecha)`, where `parsed` is `new Date(fecha)` (None when its time
      is NaN) and `response` is what fetching the requested URL yields. */
  function GetReadingsFromVatican(fecha: string, parsed: Option<Date>, response: FetchOutcome): (c: Call)
    requires parsed.Some? ==> ValidDate(parsed.value)
    ensures c.envelope.fecha == fecha
    ensures c.requested.Some? <==> parsed.Some?
    ensures c.envelope.Success? ==> c.requested.Some? && c.envelope.url == c.requested.value
  {
    match parsed
    case None => Call(None, Failure(fecha, InvalidDateMessage, None))
    case Some(d) =>
      var url := ReadingsUrl.ApiRequestUrl(d);
      var env :=
        match response
        case FetchThrew(t) => Failure(fecha, CaughtMessage(t), None)
        case Responded(status, page) =>
          if !OkStatus(status) then
            Failure(fecha, CaughtMessage(ErrorObject(PageErrorPrefix + Text.NatToString(status))), None)
          else
            Success(fecha, url, Rename(Extractor.Extracted(page)));
      Call(Some(url), env)
  }

  /** An unparseable date fails with the fixed message, echoes the input and fetches nothing,
      whatever the network would have answered. */
  lemma InvalidDateFails(fecha: string, response: FetchOutcome)
    ensures GetReadingsFromVatican(fecha, None, response)
            == Call(None, Failure(fecha, InvalidDateMessage, None))
  {
  }

  /** A date is always requested as the page of the next calendar day. */
  lemma RequestsNextDay(fecha: string, d: Date, response: FetchOutcome)
    requires ValidDate(d)
    ensures var u := GetReadingsFromVatican(fecha, Some(d), response).requested.value;
            |u| >= |ReadingsUrl.UrlPrefix| + |ReadingsUrl.UrlSuffix|
            && u[..|ReadingsUrl.UrlPrefix|] == ReadingsUrl.UrlPrefix
            && u[|u| - |ReadingsUrl.UrlSuffix|..] == ReadingsUrl.UrlSuffix
            && ReadingsUrl.ParseUrlSegment(u[|ReadingsUrl.UrlPrefix|..|u| - |ReadingsUrl.UrlSuffix|]) == Some(NextDay(d))
            && DayNumber(NextDay(d)) == DayNumber(d) + 1
  {
    ReadingsUrl.SegmentRoundTrip(NextDay(d));
    NextDayIsOneDayLater(d);
  }

  /** The call succeeds exactly when the date parses and the page answers with a 2xx status. */
  lemma SuccessIffOk(fecha: string, parsed: Option<Date>, response: FetchOutcome)
    requires parsed.Some? ==> ValidDate(parsed.value)
    ensures GetReadingsFromVatican(fecha, parsed, response).envelope.Success?
            <==> parsed.Some? && response.Responded? && OkStatus(response.status)
  {
  }

  /** A non-2xx status reports it after the fixed prefix. */
  lemma BadStatusMessage(fecha: string, d: Date, status: nat, page: Extractor.Document)
    requires ValidDate(d) && !OkStatus(status)
    ensures GetReadingsFromVatican(fecha, Some(d), Responded(status, page)).envelope
            == Failure(fecha, PageErrorPrefix + Text.NatToString(status), None)
  {
  }

  /** A 2xx page yields the extractor's output for that page, under the envelope's names. */
  lemma SuccessCarriesExtraction(fecha: string, d: Date, status: nat, page: Extractor.Document)
    requires ValidDate(d) && OkStatus(status)
    ensures var e := GetReadingsFromVatican(fecha, Some(d), Responded(status, page)).envelope;
            var x := Extractor.Extracted(page);
            e.Success? && e.url == ReadingsUrl.ApiRequestUrl(d)
            && e.lecturas.indicacionLiturgica == x.indicazioneLiturgica
            && e.lecturas.primeraLectura == x.primeraLectura
            && e.lecturas.evangelio == x.evangelio
  {
  }

  /** A thrown fetch reports its message, or 'Error desconocido' for a non-Error value. */
  lemma NetworkFailureMessage(fecha: string, d: Date, t: Thrown)
    requires ValidDate(d)
    ensures var e := GetReadingsFromVatican(fecha, Some(d), FetchThrew(t)).envelope;
            e.Failure? && e.hint.None?
            && (t.ErrorObject? ==> e.error == t.message)
            && (t.OtherValue? ==> e.error == "Error desconocido")
  {
  }
}
