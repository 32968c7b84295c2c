/**
 * The dialog that picks a song for a mass part: on opening it proposes the part's type
 * as the type filter, it fetches only with a session token, and it filters exactly as
 * the catalogue page does.
 */
module CantoSelector {
  import opened Wrappers
  import opened DatabaseTypes
  import Catalog

  /** The type filter set on opening from the suggested part. */
  function SuggestedFilterTipo(suggested: Option<SongType>): (t: string)
    ensures suggested.Some? && suggested.value != Extra ==> t == SongTypeKey(suggested.value)
    ensures suggested.None? || suggested.value == Extra ==> t == Catalog.All
  {
    if suggested.Some? && suggested.value != Extra then SongTypeKey(suggested.value) else Catalog.All
  }

  /** The effect on `open` / `tipoSugerido`: the new filters and whether songs are fetched. */
  datatype OpenEffect = OpenEffect(filters: Catalog.Filters, fetches: bool)

  function OnOpenChange(open: bool, hasToken: bool, suggested: Option<SongType>, f: Catalog.Filters): (e: OpenEffect)
    ensures !open ==> e == OpenEffect(f, false)
    ensures e.fetches <==> open && hasToken
    ensures e.filters.searchTerm == f.searchTerm && e.filters.filterTiempo == f.filterTiempo
    ensures open ==> e.filters.filterTipo == SuggestedFilterTipo(suggested)
  {
    if !open then OpenEffect(f, false)
    else OpenEffect(f.(filterTipo := SuggestedFilterTipo(suggested)), hasToken)
  }

  /** A proposed type really narrows the list to that type; 'extra' or no suggestion does not. */
  lemma SuggestedTypeNarrows(cantos: seq<Canto>, hasToken: bool, suggested: SongType, f: Catalog.Filters, i: nat)
    requires suggested != Extra
    requires var g := OnOpenChange(true, hasToken, Some(suggested), f).filters;
             i < |Catalog.FilteredCantos(cantos, g)|
    ensures Catalog.FilteredCantos(cantos, OnOpenChange(true, hasToken, Some(suggested), f).filters)[i].tipo
            == SongTypeKey(suggested)
  {
  }

  /** The dialog's list is the catalogue's filter on the dialog's own inputs. */
  function SelectorCantos(cantos: seq<Canto>, f: Catalog.Filters): seq<Canto> {
    Catalog.FilteredCantos(cantos, f)
  }

  /** Clicking the item at `k` hands that very song to `onSelect`: a fetched song that passes
      the dialog's filters. */
  function Selected(cantos: seq<Canto>, f: Catalog.Filters, k: nat): (c: Canto)
    requires k < |SelectorCantos(cantos, f)|
    ensures c in cantos && Catalog.Matches(f, c)
  {
    Catalog.FilteredCantos(cantos, f)[k]
  }
}
