/**
 * The mass-planning page: its songs grouped by mass part, one section per song type in
 * mass order, and the selector that adds a chosen song to a part at the next position.
 */
module MisaDetail {
  import opened Wrappers
  import Lists
  import opened DatabaseTypes
  import ApiHandlers

  /** `getCantosByTipo`. */
  function CantosByTipo(entries: seq<MisaCanto>, tipo: SongType): (r: seq<MisaCanto>)
    ensures forall i :: 0 <= i < |r| ==> r[i].tipo == SongTypeKey(tipo)
  {
    Lists.Filter(entries, TipoIs(SongTypeKey(tipo)))
  }

  /** The section for a type holds exactly the entries of that type, each as often as in
      the page's list, in the list's order. */
  lemma CantosByTipoSpec(entries: seq<MisaCanto>, tipo: SongType)
    ensures Lists.IsSubseq(CantosByTipo(entries, tipo), entries)
    ensures forall e: MisaCanto :: multiset(CantosByTipo(entries, tipo))[e]
                                   == if e.tipo == SongTypeKey(tipo) then multiset(entries)[e] else 0
  {
    Lists.FilterIsSubseq(entries, TipoIs(SongTypeKey(tipo)));
    forall e: MisaCanto
      ensures multiset(CantosByTipo(entries, tipo))[e] == if e.tipo == SongTypeKey(tipo) then multiset(entries)[e] else 0
    {
      Lists.FilterMultiplicity(entries, TipoIs(SongTypeKey(tipo)), e);
    }
  }

  /** The sections drawn: `[...SONG_TYPES_ORDER, 'extra']`. */
  function Sections(): (ts: seq<SongType>)
    ensures |ts| == 10
    ensures forall t: SongType :: t in ts
    ensures NoDuplicates(ts)
  {
    AllSongTypesOnce();
    SongTypesOrder + [Extra]
  }

  /** An entry of a known type is shown in the section of its type and in no other. */
  lemma EntryInOneSection(entries: seq<MisaCanto>, k: nat, t: SongType)
    requires k < |entries| && ParseSongType(entries[k].tipo) == Some(t)
    ensures entries[k] in CantosByTipo(entries, t)
    ensures forall u: SongType :: u != t ==> entries[k] !in CantosByTipo(entries, u)
  {
    forall u: SongType | u != t ensures entries[k] !in CantosByTipo(entries, u) {
      if entries[k] in CantosByTipo(entries, u) {
        SongTypeKeysDistinct(t, u);
      }
    }
  }

  /** The client's position for a new entry: the number of entries of that type. */
  function ClientOrden(entries: seq<MisaCanto>, tipo: SongType): (o: nat)
    ensures o == ApiHandlers.CountOfTipo(entries, SongTypeKey(tipo))
  {
    |CantosByTipo(entries, tipo)|
  }

  /** The client and the server pick the same position when that type's positions are 0 .. n-1. */
  lemma ClientMatchesServer(entries: seq<MisaCanto>, tipo: SongType)
    requires var os := ApiHandlers.OrdensOfTipo(entries, SongTypeKey(tipo));
             forall k :: k in os <==> 0 <= k < |os|
    ensures ApiHandlers.NextOrden(Some(ApiHandlers.OrdensOfTipo(entries, SongTypeKey(tipo))))
            == ClientOrden(entries, tipo)
  {
    ApiHandlers.OrdenRulesAgree(entries, SongTypeKey(tipo));
  }

  /** A reloaded list holding one more row of a type gives that type the next position. */
  lemma ReloadAdvancesOrden(entries: seq<MisaCanto>, row: MisaCanto, tipo: SongType)
    requires row.tipo == SongTypeKey(tipo)
    ensures ClientOrden(entries + [row], tipo) == ClientOrden(entries, tipo) + 1
  {
    Lists.FilterAppend(entries, [row], TipoIs(SongTypeKey(tipo)));
    assert Lists.Filter([row], TipoIs(SongTypeKey(tipo))) == [row];
  }

  /** What `fetchMisaData` got from the store: the mass query or the entries query threw,
      or the entries arrived (`null` when the store sends no data). */
  datatype CantosFetch = MisaFailed | CantosFailed | Rows(data: Option<seq<MisaCanto>>)

  /** The row the page inserts. */
  datatype NewEntry = NewEntry(misaId: string, cantoId: string, tipo: string, orden: int)

  class DetailPage {
    /** The route's `id`. */
    const misaId: Option<string>
    var entries: seq<MisaCanto>
    var selectorOpen: bool
    var selectedTipo: Option<SongType>

    constructor(id: Option<string>)
      ensures misaId == id && entries == [] && !selectorOpen && selectedTipo == None
    {
      misaId := id;
      entries := [];
      selectorOpen := false;
      selectedTipo := None;
    }

    /** `fetchMisaData`: without a route id nothing is fetched; a thrown error leaves the
        list as it was; otherwise `setMisaCantos(cantosData || [])`. */
    method Load(fetch: CantosFetch)
      modifies this
      ensures misaId.None? || |misaId.value| == 0 || !fetch.Rows? ==> entries == old(entries)
      ensures misaId.Some? && |misaId.value| > 0 && fetch.Rows? ==>
                entries == (if fetch.data.Some? then fetch.data.value else [])
      ensures selectorOpen == old(selectorOpen) && selectedTipo == old(selectedTipo)
    {
      if misaId.None? || |misaId.value| == 0 {
        return;
      }
      match fetch {
        case Rows(data) =>
          entries := if data.Some? then data.value else [];
        case _ =>
      }
    }

    /** `handleAddCanto`: remember the part and open the selector. */
    method HandleAddCanto(tipo: SongType)
      modifies this
      ensures selectedTipo == Some(tipo) && selectorOpen
      ensures entries == old(entries)
    {
      selectedTipo := Some(tipo);
      selectorOpen := true;
    }

    /** `handleCantoSelected`: without a route id or a selected part nothing happens (the
        early return is outside the try, so the selector stays as it was); otherwise the
        row to insert, after which the selector is closed and the part cleared whatever the
        insert's outcome. */
    method HandleCantoSelected(canto: Canto) returns (insert: Option<NewEntry>)
      modifies this
      ensures entries == old(entries)
      ensures (misaId.None? || |misaId.value| == 0 || old(selectedTipo).None?) ==>
                insert.None? && selectorOpen == old(selectorOpen) && selectedTipo == old(selectedTipo)
      ensures insert.Some? <==> misaId.Some? && |misaId.value| > 0 && old(selectedTipo).Some?
      ensures insert.Some? ==>
                insert.value == NewEntry(misaId.value, canto.id, SongTypeKey(old(selectedTipo).value),
                                         ClientOrden(entries, old(selectedTipo).value))
                && !selectorOpen && selectedTipo.None?
    {
      if misaId.None? || |misaId.value| == 0 || selectedTipo.None? {
        return None;
      }
      var tipo := selectedTipo.value;
      var orden := |Lists.Filter(entries, TipoIs(SongTypeKey(tipo)))|;
      insert := Some(NewEntry(misaId.value, canto.id, SongTypeKey(tipo), orden));
      // finally
      selectorOpen := false;
      selectedTipo := None;
    }
  }
}
