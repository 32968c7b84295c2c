/**
 * The date-to-URL mapping of the daily-readings scraper (`formatDateForUrl`
 * and the URL template), shared by the direct-fetch variant and the
 * headless-browser variant.
 */
module ReadingsUrl {
  import opened Wrappers
  import Text
  import opened Calendar

  /** `formatDateForUrl`: `year/MM/DD`, the year unpadded, the 1-based month and the day
      zero-padded to two digits. */
  function FormatDateForUrl(d: Date): (r: string)
    ensures forall i :: 0 <= i < |r| ==> r[i] == '/' || Text.IsDigit(r[i])
    ensures ValidDate(d) ==> |r| == |Text.NatToString(d.year)| + 6
  {
    var y, m, dd := Text.NatToString(d.year), Text.PaddedNat(d.month, 2), Text.PaddedNat(d.day, 2);
    Text.DigitsJoined(y, m, dd, '/');
    FieldWidths(d);
    y + ['/'] + m + ['/'] + dd
  }

  const UrlPrefix := "https://www.vaticannews.va/es/evangelio-de-hoy/"
  const UrlSuffix := ".html"

  /** The page that holds the readings filed under date `d`. */
  function ReadingsPageUrl(d: Date): (url: string)
    ensures |url| == |UrlPrefix| + |FormatDateForUrl(d)| + |UrlSuffix|
    ensures url[..|UrlPrefix|] == UrlPrefix && url[|url| - |UrlSuffix|..] == UrlSuffix
    ensures url[|UrlPrefix|..|url| - |UrlSuffix|] == FormatDateForUrl(d)
  {
    UrlPrefix + FormatDateForUrl(d) + UrlSuffix
  }

  /** Reads a `year/MM/DD` segment back into a date (the inverse of FormatDateForUrl). */
  function ParseUrlSegment(s: string): Option<Date>
  {
    var parts := Text.Split(s, '/');
    if |parts| == 3 && |parts[0]| > 0 && |parts[1]| > 0 && |parts[2]| > 0
       && AllDigits(parts[0]) && AllDigits(parts[1]) && AllDigits(parts[2])
    then Some(Date(Text.ParseNat(parts[0]), Text.ParseNat(parts[1]), Text.ParseNat(parts[2])))
    else None
  }

  /** A string of decimal digits contains no slash. */
  lemma DigitsHaveNoSlash(s: string)
    requires AllDigits(s)
    ensures forall j :: 0 <= j < |s| ==> s[j] != '/'
  {
    forall j | 0 <= j < |s| ensures s[j] != '/' {
      assert Text.IsDigit(s[j]);
    }
  }

  /** Three slash-free pieces joined by slashes split back into those pieces. */
  lemma SplitThree(a: string, b: string, c: string)
    requires forall j :: 0 <= j < |a| ==> a[j] != '/'
    requires forall j :: 0 <= j < |b| ==> b[j] != '/'
    requires forall j :: 0 <= j < |c| ==> c[j] != '/'
    ensures Text.Split(a + "/" + b + "/" + c, '/') == [a, b, c]
  {
    var tail := b + ['/'] + c;
    assert a + "/" + b + "/" + c == a + ['/'] + tail;
    Text.SplitWithoutSeparator(c, '/');
    Text.SplitAfterPiece(b, '/', c);
    assert Text.Split(tail, '/') == [b, c];
    Text.SplitAfterPiece(a, '/', tail);
  }

  /** The segment splits at its two slashes into the unpadded year and the month and day,
      each exactly two digits. */
  lemma SegmentShape(d: Date)
    requires ValidDate(d)
    ensures var m := Text.PaddedNat(d.month, 2);
            var dd := Text.PaddedNat(d.day, 2);
            && Text.Split(FormatDateForUrl(d), '/') == [Text.NatToString(d.year), m, dd]
            && |m| == 2 && |dd| == 2
  {
    var y := Text.NatToString(d.year);
    var m := Text.PaddedNat(d.month, 2);
    var dd := Text.PaddedNat(d.day, 2);
    Text.PaddedTwoDigits(d.month);
    Text.PaddedTwoDigits(d.day);
    DigitsHaveNoSlash(y);
    DigitsHaveNoSlash(m);
    DigitsHaveNoSlash(dd);
    SplitThree(y, m, dd);
  }

  /** Formatting then parsing the segment gives back the date. */
  lemma SegmentRoundTrip(d: Date)
    requires ValidDate(d)
    ensures ParseUrlSegment(FormatDateForUrl(d)) == Some(d)
  {
    SegmentShape(d);
    Text.ParseNatToString(d.year);
    Text.PaddedNatValue(d.month, 2);
    Text.PaddedNatValue(d.day, 2);
  }

  /** The direct-fetch variant requests the page of the day after the parsed date. */
  function ApiRequestUrl(parsed: Date): string
    requires ValidDate(parsed)
  {
    ReadingsPageUrl(NextDay(parsed))
  }

  /** The headless-browser variant requests the page of the parsed date itself. */
  function ServerRequestUrl(parsed: Date): string
  {
    ReadingsPageUrl(parsed)
  }

  /** The two variants disagree by exactly one calendar day: the direct-fetch variant's
      segment decodes to the day after the one the headless-browser variant would use. */
  lemma VariantsDifferByOneDay(d: Date)
    requires ValidDate(d)
    ensures var a := ApiRequestUrl(d);
            var s := ServerRequestUrl(d);
            && ParseUrlSegment(a[|UrlPrefix|..|a| - |UrlSuffix|]) == Some(NextDay(d))
            && ParseUrlSegment(s[|UrlPrefix|..|s| - |UrlSuffix|]) == Some(d)
            && DayNumber(NextDay(d)) == DayNumber(d) + 1
  {
    SegmentRoundTrip(d);
    SegmentRoundTrip(NextDay(d));
    NextDayIsOneDayLater(d);
  }
}
