/**
 * The song catalogue page: the three-way filter (name search, type, liturgical season),
 * the local update after a delete, and the choice of empty-state text.
 */
module Catalog {
  import opened Wrappers
  import Text
  import Lists
  import opened DatabaseTypes

  const All := "all"

  /** The page's filter inputs: the search box and the two selects ('all' or a key). */
  datatype Filters = Filters(searchTerm: string, filterTipo: string, filterTiempo: string)

  const NoFilters := Filters("", All, All)

  /** The lower-cased name contains the lower-cased term. */
  predicate MatchesSearch(c: Canto, term: string) {
    Text.Contains(Text.ToLower(c.nombre), Text.ToLower(term))
  }

  predicate MatchesTipo(c: Canto, filterTipo: string) {
    filterTipo == All || c.tipo == filterTipo
  }

  /** A null season list passes only the 'all' filter. */
  predicate MatchesTiempo(c: Canto, filterTiempo: string) {
    filterTiempo == All || (c.tiemposLiturgicos.Some? && filterTiempo in c.tiemposLiturgicos.value)
  }

  predicate Matches(f: Filters, c: Canto) {
    MatchesSearch(c, f.searchTerm) && MatchesTipo(c, f.filterTipo) && MatchesTiempo(c, f.filterTiempo)
  }

  function MatchesAll(f: Filters): Canto -> bool {
    (c: Canto) => Matches(f, c)
  }

  /** `filteredCantos`. */
  function FilteredCantos(cantos: seq<Canto>, f: Filters): (r: seq<Canto>)
    ensures forall i :: 0 <= i < |r| ==> Matches(f, r[i])
  {
    Lists.Filter(cantos, MatchesAll(f))
  }

  /** The filtered list is the in-order sublist of the songs passing all three tests:
      each such song is kept as often as it occurs, every other song is dropped. */
  lemma FilteredCantosSpec(cantos: seq<Canto>, f: Filters)
    ensures Lists.IsSubseq(FilteredCantos(cantos, f), cantos)
    ensures forall c: Canto :: multiset(FilteredCantos(cantos, f))[c] == if Matches(f, c) then multiset(cantos)[c] else 0
  {
    Lists.FilterIsSubseq(cantos, MatchesAll(f));
    forall c: Canto
      ensures multiset(FilteredCantos(cantos, f))[c] == if Matches(f, c) then multiset(cantos)[c] else 0
    {
      Lists.FilterMultiplicity(cantos, MatchesAll(f), c);
    }
  }

  /** An empty term matches every name. */
  lemma EmptyTermMatches(c: Canto)
    ensures MatchesSearch(c, "")
  {
    assert Text.OccursAt(Text.ToLower(c.nombre), Text.ToLower(""), 0);
  }

  /** The search ignores ASCII case on both sides. */
  lemma SearchIgnoresCase(c: Canto, term: string)
    ensures MatchesSearch(c, term) <==> MatchesSearch(c, Text.ToLower(term))
    ensures MatchesSearch(c, term) <==> MatchesSearch(c.(nombre := Text.ToLower(c.nombre)), term)
  {
    LowerIdempotent(term);
    LowerIdempotent(c.nombre);
  }

  lemma LowerIdempotent(s: string)
    ensures Text.ToLower(Text.ToLower(s)) == Text.ToLower(s)
  {
  }

  /** With '', 'all', 'all' the filtered list is the whole catalogue. */
  lemma NoFiltersShowAll(cantos: seq<Canto>)
    ensures FilteredCantos(cantos, NoFilters) == cantos
  {
    forall i | 0 <= i < |cantos| ensures MatchesAll(NoFilters)(cantos[i]) {
      EmptyTermMatches(cantos[i]);
    }
    Lists.FilterAllPass(cantos, MatchesAll(NoFilters));
  }

  /** Tightening a filter never adds songs: filtering again keeps the result unchanged. */
  lemma FilteringTwiceIsFilteringOnce(cantos: seq<Canto>, f: Filters)
    ensures FilteredCantos(FilteredCantos(cantos, f), f) == FilteredCantos(cantos, f)
  {
    Lists.FilterIdempotent(cantos, MatchesAll(f));
  }

  // ---------------------------------------------------------------- deletion

  /** The page state that a delete touches. */
  datatype Page = Page(cantos: seq<Canto>, deleting: Option<Canto>)

  function IdIsNot(id: string): Canto -> bool {
    (c: Canto) => c.id != id
  }

  /** `handleDelete`: with no target or no token it returns before the try, so nothing
      changes (not even the target); otherwise a successful delete drops the songs with
      that id, and the target is cleared whatever the outcome. */
  function HandleDelete(p: Page, hasToken: bool, deleted: bool): (q: Page)
    ensures p.deleting.None? || !hasToken ==> q == p
    ensures p.deleting.Some? && hasToken ==> q.deleting.None?
    ensures p.deleting.Some? && hasToken && !deleted ==> q.cantos == p.cantos
    ensures p.deleting.Some? && hasToken && deleted ==>
              forall i :: 0 <= i < |q.cantos| ==> q.cantos[i].id != p.deleting.value.id
  {
    if p.deleting.None? || !hasToken then p
    else if deleted then Page(Lists.Filter(p.cantos, IdIsNot(p.deleting.value.id)), None)
    else Page(p.cantos, None)
  }

  /** After a successful delete the list is the old one minus the songs with that id,
      the others keeping their order and multiplicity. */
  lemma DeleteRemovesOnlyThatId(p: Page, c: Canto)
    requires p.deleting.Some?
    ensures var q := HandleDelete(p, true, true);
            Lists.IsSubseq(q.cantos, p.cantos)
            && multiset(q.cantos)[c] == if c.id == p.deleting.value.id then 0 else multiset(p.cantos)[c]
  {
    Lists.FilterIsSubseq(p.cantos, IdIsNot(p.deleting.value.id));
    Lists.FilterMultiplicity(p.cantos, IdIsNot(p.deleting.value.id), c);
  }

  // ---------------------------------------------------------------- empty state

  /** A filter is active: a non-empty term or a select other than 'all'. */
  predicate AnyFilterActive(f: Filters) {
    |f.searchTerm| > 0 || f.filterTipo != All || f.filterTiempo != All
  }

  /** The empty-state heading. */
  function EmptyStateTitle(f: Filters): (t: string)
    ensures AnyFilterActive(f) <==> t == "Sin resultados"
    ensures !AnyFilterActive(f) <==> t == "No hay cantos registrados"
  {
    if AnyFilterActive(f) then "Sin resultados" else "No hay cantos registrados"
  }

  /** The empty state is truthful: an empty list under no filter means an empty catalogue. */
  lemma EmptyStateIsTruthful(cantos: seq<Canto>, f: Filters)
    requires FilteredCantos(cantos, f) == [] && EmptyStateTitle(f) == "No hay cantos registrados"
    ensures cantos == []
  {
    assert f == NoFilters;
    NoFiltersShowAll(cantos);
  }
}
