/**
 * The full-screen mass viewer: the songs of a mass ordered by mass part and position,
 * and the navigation state — the current index and a two-phase transition in which a
 * move first raises `transitioning` and a later completion sets the index and lowers it.
 * The 150 ms timer is the separate `CompleteTransition` step.
 */
module MisaViewer {
  import opened Wrappers
  import opened DatabaseTypes

  /** `tipoOrder`, written out in the viewer. */
  const TipoOrder: seq<string> :=
    ["entrada", "senor_ten_piedad", "gloria", "aleluya", "padre_nuestro", "ofertorio", "santo", "cordero", "salida", "extra"]

  /** `Array.prototype.indexOf`: the first position holding `x`, or -1. */
  function IndexOf(keys: seq<string>, x: string): (i: int)
    ensures -1 <= i < |keys|
    ensures i >= 0 ==> keys[i] == x && forall j :: 0 <= j < i ==> keys[j] != x
    ensures i == -1 <==> x !in keys
  {
    if |keys| == 0 then -1
    else if keys[0] == x then 0
    else
      var k := IndexOf(keys[1..], x);
      if k == -1 then -1 else k + 1
  }

  /** The viewer's list is `SONG_TYPES_ORDER` followed by 'extra'. */
  lemma TipoOrderIsAllSongTypes()
    ensures TipoOrder == AllSongTypeKeys()
  {
  }

  /** The rank of a stored type string in a list of type keys. */
  function Rank(order: seq<string>, tipo: string): int {
    IndexOf(order, tipo)
  }

  /** In the viewer's list a known type ranks at its position in the mass; any other
      string ranks -1. */
  lemma RankSpec(tipo: string)
    ensures ParseSongType(tipo).Some? ==>
              Rank(TipoOrder, tipo) >= 0 && AllSongTypes[Rank(TipoOrder, tipo)] == ParseSongType(tipo).value
    ensures ParseSongType(tipo).None? ==> Rank(TipoOrder, tipo) == -1
  {
    TipoOrderIsAllSongTypes();
    AllSongTypeKeysSpec(tipo);
    if ParseSongType(tipo).Some? {
      var i := Rank(TipoOrder, tipo);
      assert TipoOrder[i] == SongTypeKey(AllSongTypes[i]);
      SongTypeKeysDistinct(AllSongTypes[i], ParseSongType(tipo).value);
    }
  }

  /** The comparator: by type rank, then by `orden`. */
  predicate InOrder(order: seq<string>, a: MisaCanto, b: MisaCanto) {
    Rank(order, a.tipo) < Rank(order, b.tipo) || (Rank(order, a.tipo) == Rank(order, b.tipo) && a.orden <= b.orden)
  }

  predicate Sorted(order: seq<string>, s: seq<MisaCanto>) {
    forall i, j :: 0 <= i < j < |s| ==> InOrder(order, s[i], s[j])
  }

  /** Places `x` before the first element it does not follow. */
  function Insert(order: seq<string>, x: MisaCanto, s: seq<MisaCanto>): (r: seq<MisaCanto>)
    requires Sorted(order, s)
    ensures Sorted(order, r) && multiset(r) == multiset(s) + multiset{x}
  {
    if |s| == 0 then [x]
    else if InOrder(order, x, s[0]) then
      HeadFirst(order, x, s);
      [x] + s
    else
      var rest := Insert(order, x, s[1..]);
      assert s == [s[0]] + s[1..];
      InsertedAfterHead(order, x, s, rest);
      [s[0]] + rest
  }

  /** An element that precedes the head of a sorted list precedes all of it. */
  lemma HeadFirst(order: seq<string>, x: MisaCanto, s: seq<MisaCanto>)
    requires |s| > 0 && Sorted(order, s) && InOrder(order, x, s[0])
    ensures Sorted(order, [x] + s)
  {
    var r := [x] + s;
    forall i, j | 0 <= i < j < |r| ensures InOrder(order, r[i], r[j]) {
      if i > 0 {
        assert r[i] == s[i - 1] && r[j] == s[j - 1];
      } else {
        assert r[j] == s[j - 1];
        assert InOrder(order, s[0], s[j - 1]) || j - 1 == 0;
      }
    }
  }

  /** Every element of the insertion into the tail follows the head. */
  lemma InsertedAfterHead(order: seq<string>, x: MisaCanto, s: seq<MisaCanto>, rest: seq<MisaCanto>)
    requires |s| > 0 && Sorted(order, s) && !InOrder(order, x, s[0])
    requires Sorted(order, rest) && multiset(rest) == multiset(s[1..]) + multiset{x}
    ensures Sorted(order, [s[0]] + rest)
  {
    forall k | 0 <= k < |rest| ensures InOrder(order, s[0], rest[k]) {
      assert rest[k] in multiset(rest);
      if rest[k] != x {
        assert rest[k] in multiset(s[1..]);
        var j :| 0 <= j < |s[1..]| && s[1..][j] == rest[k];
        assert s[j + 1] == rest[k];
      }
    }
    var r := [s[0]] + rest;
    forall i, j | 0 <= i < j < |r| ensures InOrder(order, r[i], r[j]) {
      if i > 0 {
        assert r[i] == rest[i - 1] && r[j] == rest[j - 1];
      } else {
        assert r[j] == rest[j - 1];
      }
    }
  }

  /** The viewer's `sort`: ordered by the comparator and a rearrangement of the fetched rows. */
  function SortByTipoOrden(order: seq<string>, s: seq<MisaCanto>): (r: seq<MisaCanto>)
    ensures Sorted(order, r) && multiset(r) == multiset(s)
  {
    if |s| == 0 then []
    else
      assert s == [s[0]] + s[1..];
      Insert(order, s[0], SortByTipoOrden(order, s[1..]))
  }

  /** In the sorted list, songs of unknown type all come before every known type. */
  lemma UnknownTypesFirst(s: seq<MisaCanto>, i: nat, j: nat)
    requires Sorted(TipoOrder, s) && i < j < |s|
    requires ParseSongType(s[j].tipo).None?
    ensures ParseSongType(s[i].tipo).None?
  {
    RankSpec(s[i].tipo);
    RankSpec(s[j].tipo);
    assert InOrder(TipoOrder, s[i], s[j]);
  }

  /** Within one type, positions increase along the list. */
  lemma SameTypeByOrden(order: seq<string>, s: seq<MisaCanto>, i: nat, j: nat)
    requires Sorted(order, s) && i < j < |s| && s[i].tipo == s[j].tipo
    ensures s[i].orden <= s[j].orden
  {
    assert InOrder(order, s[i], s[j]);
  }

  // ---------------------------------------------------------------- navigation

  /** The navigation state; `pending` is the index the running timer will set. */
  datatype Nav = Nav(currentIndex: int, transitioning: bool, pending: Option<int>)

  /** For a list of `len` songs: the index is a valid position (0 for an empty list),
      and a transition is in progress exactly when a target index is pending. */
  predicate NavValid(n: Nav, len: nat) {
    (len > 0 ==> 0 <= n.currentIndex < len) && (len == 0 ==> n.currentIndex == 0)
    && (n.transitioning <==> n.pending.Some?)
    && (n.pending.Some? ==> 0 <= n.pending.value < len)
  }

  const InitialNav := Nav(0, false, None)

  /** `handlePrevious`. */
  function Previous(n: Nav): (r: Nav)
    ensures r.currentIndex == n.currentIndex
    ensures r != n <==> n.currentIndex > 0 && !n.transitioning
    ensures r != n ==> r.transitioning && r.pending == Some(n.currentIndex - 1)
  {
    if n.currentIndex > 0 && !n.transitioning then Nav(n.currentIndex, true, Some(n.currentIndex - 1)) else n
  }

  /** `handleNext` on a list of `len` songs. */
  function Next(n: Nav, len: nat): (r: Nav)
    ensures r.currentIndex == n.currentIndex
    ensures r != n <==> n.currentIndex < len - 1 && !n.transitioning
    ensures r != n ==> r.transitioning && r.pending == Some(n.currentIndex + 1)
  {
    if n.currentIndex < len - 1 && !n.transitioning then Nav(n.currentIndex, true, Some(n.currentIndex + 1)) else n
  }

  /** A click on the dot for `index`. */
  function Jump(n: Nav, index: int): (r: Nav)
    ensures r.currentIndex == n.currentIndex
    ensures r == n <==> n.transitioning
    ensures !n.transitioning ==> r.transitioning && r.pending == Some(index)
  {
    if !n.transitioning then Nav(n.currentIndex, true, Some(index)) else n
  }

  /** The timer: the pending index becomes current and the transition ends. */
  function Complete(n: Nav): (r: Nav)
    requires n.pending.Some?
    ensures r.currentIndex == n.pending.value && !r.transitioning && r.pending.None?
  {
    Nav(n.pending.value, false, None)
  }

  /** Every step keeps the state valid; dots exist only for positions of the list. */
  lemma StepsKeepValid(n: Nav, len: nat, index: int)
    requires NavValid(n, len)
    ensures NavValid(Previous(n), len) && NavValid(Next(n, len), len)
    ensures 0 <= index < len ==> NavValid(Jump(n, index), len)
    ensures n.pending.Some? ==> NavValid(Complete(n), len)
  {
  }

  /** Moves requested during a transition are ignored. */
  lemma IgnoredWhileTransitioning(n: Nav, len: nat, index: int)
    requires n.transitioning
    ensures Previous(n) == n && Next(n, len) == n && Jump(n, index) == n
  {
  }

  /** Next followed by its completion advances by one exactly when not at the last song;
      Previous followed by its completion goes back by one exactly when not at the first. */
  lemma MovesByOne(n: Nav, len: nat)
    requires NavValid(n, len) && !n.transitioning
    ensures n.currentIndex < len - 1 ==> Complete(Next(n, len)).currentIndex == n.currentIndex + 1
    ensures n.currentIndex >= len - 1 ==> Next(n, len) == n
    ensures n.currentIndex > 0 ==> Complete(Previous(n)).currentIndex == n.currentIndex - 1
    ensures n.currentIndex == 0 ==> Previous(n) == n
  {
  }

  /** A dot jump lands on that dot. */
  lemma JumpLands(n: Nav, index: int)
    requires !n.transitioning
    ensures Complete(Jump(n, index)) == Nav(index, false, None)
  {
  }

  /** Nothing moves before its completion: the index changes only in `Complete`. */
  lemma IndexChangesOnlyOnCompletion(n: Nav, len: nat, index: int)
    ensures Previous(n).currentIndex == n.currentIndex
    ensures Next(n, len).currentIndex == n.currentIndex
    ensures Jump(n, index).currentIndex == n.currentIndex
  {
  }

  // ---------------------------------------------------------------- screen

  datatype Screen =
    | Loading
    | Empty(message: string)
    | Showing(current: MisaCanto, position: nat, total: nat, previousDisabled: bool, nextDisabled: bool)

  /** What the viewer renders. */
  function View(loading: bool, misaFound: bool, items: seq<MisaCanto>, n: Nav): (v: Screen)
    requires NavValid(n, |items|)
    ensures loading ==> v == Loading
    ensures !loading && (!misaFound || |items| == 0) ==>
              v == Empty(if !misaFound then "Misa no encontrada" else "No hay cantos asignados")
    ensures v.Showing? ==>
              misaFound && |items| > 0
              && v.current == items[n.currentIndex] && v.position == n.currentIndex + 1 && v.total == |items|
              && (v.previousDisabled <==> n.currentIndex == 0)
              && (v.nextDisabled <==> n.currentIndex == |items| - 1)
  {
    if loading then Loading
    else if !misaFound || |items| == 0 then
      Empty(if !misaFound then "Misa no encontrada" else "No hay cantos asignados")
    else
      Showing(items[n.currentIndex], n.currentIndex + 1, |items|, n.currentIndex == 0, n.currentIndex == |items| - 1)
  }

  /** The data fetch: the mass was not found, its songs failed to load, or the rows. */
  datatype FetchResult = MisaMissing | CantosFailed(misa: Misa) | Fetched(misa: Misa, rows: seq<MisaCanto>)

  class Viewer {
    var misa: Option<Misa>
    var items: seq<MisaCanto>
    var loading: bool
    var nav: Nav

    predicate Valid()
      reads this
    {
      NavValid(nav, |items|)
    }

    /** Mount: loading, nothing fetched, at the first song. */
    constructor()
      ensures misa == None && items == [] && loading && nav == InitialNav && Valid()
    {
      misa := None;
      items := [];
      loading := true;
      nav := InitialNav;
    }

    /** `fetchMisaData` after mount: keeps the mass when found and the sorted rows when
        they load; always ends loading. */
    method Load(result: FetchResult)
      requires Valid() && misa == None && items == [] && nav == InitialNav
      modifies this
      ensures Valid() && !loading && nav == InitialNav
      ensures misa == (if result.MisaMissing? then None else Some(result.misa))
      ensures items == (if result.Fetched? then SortByTipoOrden(TipoOrder, result.rows) else [])
    {
      match result {
        case MisaMissing =>
        case CantosFailed(m) =>
          misa := Some(m);
        case Fetched(m, rows) =>
          misa := Some(m);
          items := SortByTipoOrden(TipoOrder, rows);
      }
      loading := false;
    }

    method HandlePrevious()
      requires Valid()
      modifies this
      ensures Valid() && nav == Previous(old(nav))
      ensures misa == old(misa) && items == old(items) && loading == old(loading)
    {
      if nav.currentIndex > 0 && !nav.transitioning {
        nav := nav.(transitioning := true, pending := Some(nav.currentIndex - 1));
      }
    }

    method HandleNext()
      requires Valid()
      modifies this
      ensures Valid() && nav == Next(old(nav), |items|)
      ensures misa == old(misa) && items == old(items) && loading == old(loading)
    {
      if nav.currentIndex < |items| - 1 && !nav.transitioning {
        nav := nav.(transitioning := true, pending := Some(nav.currentIndex + 1));
      }
    }

    /** The dot for `index`; one is drawn per song. */
    method JumpTo(index: int)
      requires Valid() && 0 <= index < |items|
      modifies this
      ensures Valid() && nav == Jump(old(nav), index)
      ensures misa == old(misa) && items == old(items) && loading == old(loading)
    {
      if !nav.transitioning {
        nav := nav.(transitioning := true, pending := Some(index));
      }
    }

    /** The transition timer firing. */
    method CompleteTransition()
      requires Valid() && nav.transitioning
      modifies this
      ensures Valid() && nav == Complete(old(nav))
      ensures misa == old(misa) && items == old(items) && loading == old(loading)
    {
      nav := Nav(nav.pending.value, false, None);
    }

    /** The rendered screen. */
    function Render(): Screen
      reads this
      requires Valid()
    {
      View(loading, misa.Some?, items, nav)
    }
  }
}
