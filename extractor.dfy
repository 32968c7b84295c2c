/**
 * `extractReadings`, identical in both scraper variants. The fetched page is
 * taken already parsed: its elements in document order (class attribute and
 * text) and its `section.section--evidence` sections, each with the text of
 * its `h2` descendants and the texts of its `p` descendants in document order.
 */
module Extractor {
  import opened Wrappers
  import Text
  import Lists

  datatype Element = Element(classAttr: string, text: string)
  datatype Section = Section(heading: string, paragraphs: seq<string>)
  datatype Document = Document(elements: seq<Element>, sections: seq<Section>)

  /** A citation and a body text, each possibly null. */
  datatype Reading = Reading(cita: Option<string>, lectura: Option<string>)
  datatype Readings = Readings(indicazioneLiturgica: Option<string>, primeraLectura: Reading, evangelio: Reading)

  const NoReading := Reading(None, None)
  const IndicationClass := "indicazioneLiturgica"
  const FirstReadingHeading := "Lectura del Día"
  const GospelHeading := "Evangelio del Día"

  // ---------------------------------------------------------------- indication

  /** Matches `[class*="indicazioneLiturgica"]` (which also covers `.indicazioneLiturgica`). */
  predicate HasIndicationClass(e: Element) {
    Text.Contains(e.classAttr, IndicationClass)
  }

  /** Element `i` is the first one in document order carrying the indication class. */
  predicate IsFirstIndication(es: seq<Element>, i: nat) {
    i < |es| && HasIndicationClass(es[i]) && forall j :: 0 <= j < i ==> !HasIndicationClass(es[j])
  }

  /** Position of the first element with the indication class, if any. */
  function FirstIndicationIndex(es: seq<Element>): (r: Option<nat>)
    ensures r.Some? ==> IsFirstIndication(es, r.value)
    ensures r.None? ==> forall j :: 0 <= j < |es| ==> !HasIndicationClass(es[j])
  {
    if |es| == 0 then None
    else if HasIndicationClass(es[0]) then Some(0)
    else match FirstIndicationIndex(es[1..])
      case None => None
      case Some(k) => Some(k + 1)
  }

  /** `indicacion.eq(0).text().trim()` or null. */
  function Indication(es: seq<Element>): Option<string>
  {
    match FirstIndicationIndex(es)
    case None => None
    case Some(i) => Some(Text.Trim(es[i].text))
  }

  /** The indication is the trimmed text of the first matching element, and null exactly
      when no element carries the class. */
  lemma IndicationSpec(es: seq<Element>)
    ensures Indication(es).None? <==> forall j :: 0 <= j < |es| ==> !HasIndicationClass(es[j])
    ensures forall i: nat :: IsFirstIndication(es, i) ==> Indication(es) == Some(Text.Trim(es[i].text))
  {
    var r := FirstIndicationIndex(es);
    forall i: nat | IsFirstIndication(es, i) ensures Indication(es) == Some(Text.Trim(es[i].text)) {
      assert r.Some?;
      var k := r.value;
      assert !(k < i) && !(i < k);
    }
  }

  // ---------------------------------------------------------------- readings

  /** A section that assigns the reading for `title`: its heading is exactly that title
      once trimmed, and it has at least two paragraphs. */
  predicate Assigns(s: Section, title: string) {
    Text.Trim(s.heading) == title && |s.paragraphs| >= 2
  }

  /** Position of the last section that assigns the reading for `title`. */
  function LastAssigning(ss: seq<Section>, title: string): (r: Option<nat>)
    ensures r.Some? ==> r.value < |ss| && Assigns(ss[r.value], title)
                        && forall j :: r.value < j < |ss| ==> !Assigns(ss[j], title)
    ensures r.None? ==> forall j :: 0 <= j < |ss| ==> !Assigns(ss[j], title)
  {
    if |ss| == 0 then None
    else if Assigns(ss[|ss| - 1], title) then Some(|ss| - 1)
    else
      var init := ss[..|ss| - 1];
      assert forall j :: 0 <= j < |init| ==> init[j] == ss[j];
      LastAssigning(init, title)
  }

  function Trims(ps: seq<string>): (r: seq<string>)
    ensures |r| == |ps| && forall i :: 0 <= i < |ps| ==> r[i] == Text.Trim(ps[i])
  {
    seq(|ps|, i requires 0 <= i < |ps| => Text.Trim(ps[i]))
  }

  predicate NonEmpty(s: string) { |s| > 0 }

  /** The reading's body: the non-empty trimmed texts of paragraphs 2.. joined by single spaces. */
  function BodyText(ps: seq<string>): string
    requires |ps| >= 2
  {
    Text.Join(Lists.Filter(Trims(ps[2..]), NonEmpty), " ")
  }

  /** What an assigning section contributes: citation = trimmed second paragraph. */
  function ReadingOf(s: Section): Reading
    requires |s.paragraphs| >= 2
  {
    Reading(Some(Text.Trim(s.paragraphs[1])), Some(BodyText(s.paragraphs)))
  }

  /** The reading for `title`: that of the last assigning section, or all-null. */
  function ReadingFor(ss: seq<Section>, title: string): Reading
  {
    match LastAssigning(ss, title)
    case None => NoReading
    case Some(i) => ReadingOf(ss[i])
  }

  /** The result `extractReadings` promises on a document. */
  function Extracted(doc: Document): Readings
  {
    Readings(Indication(doc.elements),
             ReadingFor(doc.sections, FirstReadingHeading),
             ReadingFor(doc.sections, GospelHeading))
  }

  // ---------------------------------------------------------------- the loops

  /** The non-empty trimmed paragraphs among `ps[2..j]`. */
  function BodyPieces(ps: seq<string>, j: nat): seq<string>
    requires 2 <= j <= |ps|
  {
    Lists.Filter(Trims(ps[2..j]), NonEmpty)
  }

  /** Scanning one more paragraph adds its trimmed text when that is non-empty. */
  lemma BodyPiecesStep(ps: seq<string>, j: nat)
    requires 2 <= j < |ps|
    ensures BodyPieces(ps, j + 1)
            == if |Text.Trim(ps[j])| > 0 then BodyPieces(ps, j) + [Text.Trim(ps[j])] else BodyPieces(ps, j)
  {
    var t := Text.Trim(ps[j]);
    assert ps[2..j + 1] == ps[2..j] + [ps[j]];
    assert Trims(ps[2..j + 1]) == Trims(ps[2..j]) + [t];
    Lists.FilterAppend(Trims(ps[2..j]), [t], NonEmpty);
    if |t| > 0 {
      assert Lists.Filter([t], NonEmpty) == [t];
    } else {
      assert Lists.Filter([t], NonEmpty) == [];
      assert BodyPieces(ps, j) + [] == BodyPieces(ps, j);
    }
  }

  /** What the loop keeps: the text so far is the joined pieces, empty exactly when
      there are none. */
  predicate BodySoFar(ps: seq<string>, j: nat, text: string)
    requires 2 <= j <= |ps|
  {
    text == Text.Join(BodyPieces(ps, j), " ") && (BodyPieces(ps, j) == [] <==> text == "")
  }

  /** One iteration of the loop keeps `BodySoFar`. */
  lemma BodyStep(ps: seq<string>, j: nat, text: string)
    requires 2 <= j < |ps| && BodySoFar(ps, j, text)
    ensures var texto := Text.Trim(ps[j]);
            BodySoFar(ps, j + 1, if |texto| > 0 then (if text != "" then text + " " + texto else texto) else text)
  {
    var texto := Text.Trim(ps[j]);
    BodyPiecesStep(ps, j);
    if |texto| > 0 {
      if text != "" {
        Text.JoinSnoc(BodyPieces(ps, j), texto, " ");
      } else {
        assert BodyPieces(ps, j + 1) == [texto];
      }
    }
  }

  /** The `lecturaTexto` loop: appends each non-empty trimmed paragraph from index 2 on,
      preceded by a space unless the text so far is empty. */
  method BuildBody(ps: seq<string>) returns (text: string)
    requires |ps| >= 2
    ensures text == BodyText(ps)
  {
    text := "";
    var j := 2;
    assert BodyPieces(ps, 2) == [];
    while j < |ps|
      invariant 2 <= j <= |ps|
      invariant BodySoFar(ps, j, text)
    {
      var texto := Text.Trim(ps[j]);
      BodyStep(ps, j, text);
      if |texto| > 0 {
        if text != "" {
          text := text + " " + texto;
        } else {
          text := texto;
        }
      }
      j := j + 1;
    }
    BodyPiecesAll(ps);
  }

  lemma BodyPiecesAll(ps: seq<string>)
    requires |ps| >= 2
    ensures BodyText(ps) == Text.Join(BodyPieces(ps, |ps|), " ")
  {
    assert ps[2..] == ps[2..|ps|];
  }

  /** `extractReadings`: the indication lookup, then one pass over the evidence sections
      that overwrites the first reading or the gospel whenever an assigning section is met. */
  method ExtractReadings(doc: Document) returns (r: Readings)
    ensures r == Extracted(doc)
  {
    var indicacion := Indication(doc.elements);
    var primera := NoReading;
    var evangelio := NoReading;
    var ss := doc.sections;
    var i := 0;
    while i < |ss|
      invariant 0 <= i <= |ss|
      invariant primera == ReadingFor(ss[..i], FirstReadingHeading)
      invariant evangelio == ReadingFor(ss[..i], GospelHeading)
    {
      var section := ss[i];
      var title := Text.Trim(section.heading);
      LastAssigningStep(ss, i, FirstReadingHeading);
      LastAssigningStep(ss, i, GospelHeading);
      if title == FirstReadingHeading {
        HeadingsDiffer();
        if |section.paragraphs| >= 2 {
          var lectura := BuildBody(section.paragraphs);
          primera := Reading(Some(Text.Trim(section.paragraphs[1])), Some(lectura));
        }
      } else if title == GospelHeading {
        if |section.paragraphs| >= 2 {
          var lectura := BuildBody(section.paragraphs);
          evangelio := Reading(Some(Text.Trim(section.paragraphs[1])), Some(lectura));
        }
      }
      i := i + 1;
    }
    assert ss[..i] == ss;
    r := Readings(indicacion, primera, evangelio);
  }

  lemma HeadingsDiffer()
    ensures FirstReadingHeading != GospelHeading
  {
    assert FirstReadingHeading[0] != GospelHeading[0];
  }

  /** Extending the scanned prefix by one section. */
  lemma LastAssigningStep(ss: seq<Section>, i: nat, title: string)
    requires i < |ss|
    ensures ReadingFor(ss[..i + 1], title)
            == if Assigns(ss[i], title) then ReadingOf(ss[i]) else ReadingFor(ss[..i], title)
  {
    assert ss[..i + 1][..i] == ss[..i];
    match LastAssigning(ss[..i], title)
    case None =>
    case Some(k) => assert ss[..i + 1][k] == ss[k];
  }

  // ---------------------------------------------------------------- properties

  /** A section whose heading is neither title, or that has fewer than two paragraphs,
      changes nothing: values from earlier sections survive. */
  lemma NonAssigningSectionChangesNothing(ss: seq<Section>, s: Section, title: string)
    requires !Assigns(s, title)
    ensures ReadingFor(ss + [s], title) == ReadingFor(ss, title)
  {
    assert (ss + [s])[..|ss|] == ss;
    match LastAssigning(ss, title)
    case None =>
    case Some(k) => assert (ss + [s])[k] == ss[k];
  }

  /** The last assigning section wins. */
  lemma LastAssigningSectionWins(ss: seq<Section>, s: Section, title: string)
    requires Assigns(s, title)
    ensures ReadingFor(ss + [s], title) == ReadingOf(s)
  {
  }

  /** With exactly two paragraphs the body is the empty string, not null. */
  lemma TwoParagraphsGiveEmptyBody(s: Section)
    requires |s.paragraphs| == 2
    ensures ReadingOf(s).lectura == Some("")
  {
    assert s.paragraphs[2..] == [];
  }

  /** The body never contains a space-only gap: each joined piece is non-empty and trimmed. */
  lemma BodyPiecesAreTrimmedAndNonEmpty(ps: seq<string>)
    requires |ps| >= 2
    ensures var pieces := Lists.Filter(Trims(ps[2..]), NonEmpty);
            forall k :: 0 <= k < |pieces| ==> |pieces[k]| > 0 && pieces[k] in Trims(ps[2..])
  {
  }

  /** A page without the indication and without evidence sections still extracts, to all nulls. */
  lemma EmptyPageGivesNulls(doc: Document)
    requires forall j :: 0 <= j < |doc.elements| ==> !HasIndicationClass(doc.elements[j])
    requires forall j :: 0 <= j < |doc.sections| ==>
               Text.Trim(doc.sections[j].heading) != FirstReadingHeading
               && Text.Trim(doc.sections[j].heading) != GospelHeading
    ensures Extracted(doc) == Readings(None, NoReading, NoReading)
  {
    IndicationSpec(doc.elements);
  }

  /** The worked example's shape: an introductory paragraph, the citation, then two lines
      of text that are already trimmed give that citation and the lines joined by a space. */
  lemma FourParagraphExample(intro: string, cita: string, a: string, b: string)
    requires |cita| > 0 && !Text.IsSpace(cita[0]) && !Text.IsSpace(cita[|cita| - 1])
    requires |a| > 0 && !Text.IsSpace(a[0]) && !Text.IsSpace(a[|a| - 1])
    requires |b| > 0 && !Text.IsSpace(b[0]) && !Text.IsSpace(b[|b| - 1])
    ensures var s := Section(FirstReadingHeading, [intro, cita, a, b]);
            ReadingOf(s) == Reading(Some(cita), Some(a + " " + b))
  {
    TrimOfTrimmed(cita);
    TrimOfTrimmed(a);
    TrimOfTrimmed(b);
    var ps := [intro, cita, a, b];
    assert ps[2..] == [a, b];
    assert Trims([a, b]) == [a, b];
    assert [a, b][1..] == [b];
    assert [b][1..] == [];
    assert Lists.Filter([b], NonEmpty) == [b];
    assert Lists.Filter([a, b], NonEmpty) == [a, b];
    assert Text.Join([a, b], " ") == a + " " + b;
  }

  /** A string that neither starts nor ends with whitespace is its own trim. */
  lemma TrimOfTrimmed(s: string)
    requires |s| > 0 && !Text.IsSpace(s[0]) && !Text.IsSpace(s[|s| - 1])
    ensures Text.Trim(s) == s
  {
    assert Text.LeadingSpaces(s) == 0;
    assert s[0..] == s;
    assert Text.TrailingSpaces(s) == 0;
  }

  /** A section with only one paragraph leaves both fields of its reading null. */
  lemma OneParagraphLeavesNull(s: Section, title: string)
    requires |s.paragraphs| == 1
    ensures ReadingFor([s], title) == NoReading
  {
  }
}
