/**
 * The shared vocabulary: song types and liturgical seasons with their stored keys and
 * display labels, the fixed order of the mass parts, and the three stored records.
 * Records keep their type and season fields as the stored strings, since every
 * comparison in the program is on those strings.
 */
module DatabaseTypes {
  import opened Wrappers

  datatype SongType =
    | Entrada | SenorTenPiedad | Gloria | Aleluya | PadreNuestro
    | Ofertorio | Santo | Cordero | Salida | Extra

  datatype LiturgicalSeason = Adviento | Navidad | Cuaresma | Pascua | TiempoOrdinario

  /** The string stored for a song type. */
  function SongTypeKey(t: SongType): string {
    match t
    case Entrada => "entrada"
    case SenorTenPiedad => "senor_ten_piedad"
    case Gloria => "gloria"
    case Aleluya => "aleluya"
    case PadreNuestro => "padre_nuestro"
    case Ofertorio => "ofertorio"
    case Santo => "santo"
    case Cordero => "cordero"
    case Salida => "salida"
    case Extra => "extra"
  }

  /** `SONG_TYPE_LABELS`. */
  function SongTypeLabel(t: SongType): (text: string)
    ensures |text| > 0
  {
    match t
    case Entrada => "Entrada"
    case SenorTenPiedad => "Señor Ten Piedad"
    case Gloria => "Gloria"
    case Aleluya => "Aleluya"
    case PadreNuestro => "Padre Nuestro"
    case Ofertorio => "Ofertorio"
    case Santo => "Santo"
    case Cordero => "Cordero"
    case Salida => "Salida"
    case Extra => "Extra"
  }

  function SeasonKey(s: LiturgicalSeason): string {
    match s
    case Adviento => "adviento"
    case Navidad => "navidad"
    case Cuaresma => "cuaresma"
    case Pascua => "pascua"
    case TiempoOrdinario => "tiempo_ordinario"
  }

  /** `LITURGICAL_SEASON_LABELS`. */
  function SeasonLabel(s: LiturgicalSeason): (text: string)
    ensures |text| > 0
  {
    match s
    case Adviento => "Adviento"
    case Navidad => "Navidad"
    case Cuaresma => "Cuaresma"
    case Pascua => "Pascua"
    case TiempoOrdinario => "Tiempo Ordinario"
  }

  /** Reading a stored type string back; None for a string that is no type's key. */
  function ParseSongType(s: string): (r: Option<SongType>)
    ensures r.Some? ==> SongTypeKey(r.value) == s
  {
    if s == "entrada" then Some(Entrada)
    else if s == "senor_ten_piedad" then Some(SenorTenPiedad)
    else if s == "gloria" then Some(Gloria)
    else if s == "aleluya" then Some(Aleluya)
    else if s == "padre_nuestro" then Some(PadreNuestro)
    else if s == "ofertorio" then Some(Ofertorio)
    else if s == "santo" then Some(Santo)
    else if s == "cordero" then Some(Cordero)
    else if s == "salida" then Some(Salida)
    else if s == "extra" then Some(Extra)
    else None
  }

  /** Every key reads back as its type. */
  lemma ParseSongTypeKey(t: SongType)
    ensures ParseSongType(SongTypeKey(t)) == Some(t)
  {
  }

  /** Distinct types are stored under distinct keys. */
  lemma SongTypeKeysDistinct(a: SongType, b: SongType)
    requires SongTypeKey(a) == SongTypeKey(b)
    ensures a == b
  {
    ParseSongTypeKey(a);
    ParseSongTypeKey(b);
  }

  /** The song-type labels are pairwise distinct. */
  lemma SongTypeLabelsDistinct(a: SongType, b: SongType)
    requires SongTypeLabel(a) == SongTypeLabel(b)
    ensures a == b
  {
    var la := SongTypeLabel(a);
    var lb := SongTypeLabel(b);
    assert la[0] == lb[0] && |la| == |lb|;
    if |la| > 1 {
      assert la[1] == lb[1];
    }
  }

  /** The season keys are pairwise distinct. */
  lemma SeasonKeysDistinct(a: LiturgicalSeason, b: LiturgicalSeason)
    requires SeasonKey(a) == SeasonKey(b)
    ensures a == b
  {
    assert SeasonKey(a)[0] == SeasonKey(b)[0];
    assert |SeasonKey(a)| == |SeasonKey(b)|;
  }

  /** The season labels are pairwise distinct. */
  lemma SeasonLabelsDistinct(a: LiturgicalSeason, b: LiturgicalSeason)
    requires SeasonLabel(a) == SeasonLabel(b)
    ensures a == b
  {
    assert SeasonLabel(a)[0] == SeasonLabel(b)[0];
    assert |SeasonLabel(a)| == |SeasonLabel(b)|;
  }

  /** `SONG_TYPES_ORDER`: the parts of the mass in celebration order. */
  const SongTypesOrder: seq<SongType> :=
    [Entrada, SenorTenPiedad, Gloria, Aleluya, PadreNuestro, Ofertorio, Santo, Cordero, Salida]

  predicate NoDuplicates<T(==)>(s: seq<T>) {
    forall i, j :: 0 <= i < j < |s| ==> s[i] != s[j]
  }

  /** Nine distinct types: every type except `extra`. */
  lemma SongTypesOrderSpec()
    ensures |SongTypesOrder| == 9 && NoDuplicates(SongTypesOrder)
    ensures forall t: SongType :: t in SongTypesOrder <==> t != Extra
  {
  }

  /** The order followed by `extra`, the sections shown for a mass and the viewer's ranking. */
  const AllSongTypes: seq<SongType> := SongTypesOrder + [Extra]

  /** Each of the ten types appears, and none twice. */
  lemma AllSongTypesOnce()
    ensures |AllSongTypes| == 10 && NoDuplicates(AllSongTypes)
    ensures forall t: SongType :: t in AllSongTypes
  {
    SongTypesOrderSpec();
    forall i, j | 0 <= i < j < |AllSongTypes| ensures AllSongTypes[i] != AllSongTypes[j] {
      if j < 9 {
        assert AllSongTypes[i] == SongTypesOrder[i] && AllSongTypes[j] == SongTypesOrder[j];
      } else {
        assert AllSongTypes[i] == SongTypesOrder[i];
      }
    }
  }

  /** The keys of `AllSongTypes`, as compared against stored strings. */
  function AllSongTypeKeys(): (keys: seq<string>)
    ensures |keys| == |AllSongTypes|
    ensures forall i :: 0 <= i < |keys| ==> keys[i] == SongTypeKey(AllSongTypes[i])
  {
    seq(|AllSongTypes|, i requires 0 <= i < |AllSongTypes| => SongTypeKey(AllSongTypes[i]))
  }

  /** A stored string is among those keys exactly when it is some type's key. */
  lemma AllSongTypeKeysSpec(s: string)
    ensures s in AllSongTypeKeys() <==> ParseSongType(s).Some?
  {
    var keys := AllSongTypeKeys();
    if s in keys {
      var i :| 0 <= i < |keys| && keys[i] == s;
      ParseSongTypeKey(AllSongTypes[i]);
    }
    if ParseSongType(s).Some? {
      var t := ParseSongType(s).value;
      AllSongTypesOnce();
      assert t in AllSongTypes;
      var i :| 0 <= i < |AllSongTypes| && AllSongTypes[i] == t;
      assert keys[i] == s;
    }
  }

  // ---------------------------------------------------------------- records

  /** A song of the catalog. */
  datatype Canto = Canto(id: string, nombre: string, fotoUrl: Option<string>, audioUrl: Option<string>,
                         tipo: string, tiemposLiturgicos: Option<seq<string>>)

  /** A planned mass. */
  datatype Misa = Misa(id: string, fecha: string, descripcion: Option<string>, usuarioId: string)

  /** A song assigned to a mass part, at a position `orden` within that part. */
  datatype MisaCanto = MisaCanto(id: string, misaId: string, cantoId: string, tipo: string, orden: int,
                                 canto: Option<Canto>)

  /** The test `mc.tipo === tipo` on entries. */
  function TipoIs(tipo: string): MisaCanto -> bool {
    (e: MisaCanto) => e.tipo == tipo
  }
}
