/**
 * The dialog that creates or edits a song: its schema (name 1–200 characters, a type,
 * at least one season), the season checkboxes, the error map, the reset on opening, and
 * the save, which keeps the existing photo and audio URLs unless a new file is chosen.
 */
module CantoForm {
  import opened Wrappers
  import Lists
  import opened DatabaseTypes
  import opened FieldErrors

  const NombreRequired := "El nombre es requerido"
  const TipoRequired := "El tipo es requerido"
  const TiemposRequired := "Selecciona al menos un tiempo litúrgico"
  const NombreMax := 200
  /** The schema library's default message for the maximum length. */
  const NombreTooLong := "String must contain at most 200 character(s)"

  /** The keys the error map may hold. */
  const FormFields: set<string> := {"nombre", "tipo", "tiempos_liturgicos"}

  function NombreIssues(nombre: string): (issues: seq<Issue>)
    ensures forall k :: 0 <= k < |issues| ==> issues[k].path == "nombre"
  {
    (if |nombre| < 1 then [Issue("nombre", NombreRequired)] else [])
    + (if |nombre| > NombreMax then [Issue("nombre", NombreTooLong)] else [])
  }

  function TipoIssues(tipo: string): (issues: seq<Issue>)
    ensures forall k :: 0 <= k < |issues| ==> issues[k].path == "tipo"
  {
    if |tipo| < 1 then [Issue("tipo", TipoRequired)] else []
  }

  function TiemposIssues(tiempos: seq<string>): (issues: seq<Issue>)
    ensures forall k :: 0 <= k < |issues| ==> issues[k].path == "tiempos_liturgicos"
  {
    if |tiempos| < 1 then [Issue("tiempos_liturgicos", TiemposRequired)] else []
  }

  /** `cantoSchema`'s issues, fields in schema order, checks in declaration order. */
  function CantoIssues(nombre: string, tipo: string, tiempos: seq<string>): (issues: seq<Issue>)
    ensures issues == [] <==> 1 <= |nombre| <= NombreMax && |tipo| >= 1 && |tiempos| >= 1
    ensures forall k :: 0 <= k < |issues| ==> issues[k].path in FormFields
  {
    NombreIssues(nombre) + TipoIssues(tipo) + TiemposIssues(tiempos)
  }

  /** Each failing field shows its rule's message; a passing field shows nothing. */
  lemma CantoErrorsPerField(nombre: string, tipo: string, tiempos: seq<string>)
    ensures var e := ErrorMap(CantoIssues(nombre, tipo, tiempos), FormFields);
            ("nombre" in e <==> !(1 <= |nombre| <= NombreMax))
            && (|nombre| < 1 ==> e["nombre"] == NombreRequired)
            && (|nombre| > NombreMax ==> e["nombre"] == NombreTooLong)
            && ("tipo" in e <==> |tipo| < 1) && (|tipo| < 1 ==> e["tipo"] == TipoRequired)
            && ("tiempos_liturgicos" in e <==> |tiempos| < 1)
            && (|tiempos| < 1 ==> e["tiempos_liturgicos"] == TiemposRequired)
  {
    NombreErrors(nombre, tipo, tiempos);
    TipoErrors(nombre, tipo, tiempos);
    TiemposErrors(nombre, tipo, tiempos);
  }

  lemma NombreErrors(nombre: string, tipo: string, tiempos: seq<string>)
    ensures var e := ErrorMap(CantoIssues(nombre, tipo, tiempos), FormFields);
            ("nombre" in e <==> !(1 <= |nombre| <= NombreMax))
            && (|nombre| < 1 ==> e["nombre"] == NombreRequired)
            && (|nombre| > NombreMax ==> e["nombre"] == NombreTooLong)
  {
    var n, t, s := NombreIssues(nombre), TipoIssues(tipo), TiemposIssues(tiempos);
    assert CantoIssues(nombre, tipo, tiempos) == [] + n + (t + s);
    FieldBlock([], n, t + s, FormFields, "nombre");
    assert |nombre| < 1 ==> n == [Issue("nombre", NombreRequired)];
  }

  lemma TipoErrors(nombre: string, tipo: string, tiempos: seq<string>)
    ensures var e := ErrorMap(CantoIssues(nombre, tipo, tiempos), FormFields);
            ("tipo" in e <==> |tipo| < 1) && (|tipo| < 1 ==> e["tipo"] == TipoRequired)
  {
    var n, t, s := NombreIssues(nombre), TipoIssues(tipo), TiemposIssues(tiempos);
    FieldBlock(n, t, s, FormFields, "tipo");
  }

  lemma TiemposErrors(nombre: string, tipo: string, tiempos: seq<string>)
    ensures var e := ErrorMap(CantoIssues(nombre, tipo, tiempos), FormFields);
            ("tiempos_liturgicos" in e <==> |tiempos| < 1)
            && (|tiempos| < 1 ==> e["tiempos_liturgicos"] == TiemposRequired)
  {
    var n, t, s := NombreIssues(nombre), TipoIssues(tipo), TiemposIssues(tiempos);
    assert CantoIssues(nombre, tipo, tiempos) == n + t + s + [];
    FieldBlock(n + t, s, [], FormFields, "tiempos_liturgicos");
  }

  // ---------------------------------------------------------------- seasons

  function IsNot(t: string): string -> bool {
    (x: string) => x != t
  }

  /** `toggleTiempoLiturgico`: a selected season is removed (every occurrence), another is
      appended at the end. */
  function ToggleSeason(prev: seq<string>, t: string): (r: seq<string>)
    ensures t in prev ==> t !in r && forall x :: x != t ==> multiset(r)[x] == multiset(prev)[x]
    ensures t in prev ==> Lists.IsSubseq(r, prev)
    ensures t !in prev ==> r == prev + [t]
  {
    if t in prev then
      var r := Lists.Filter(prev, IsNot(t));
      Lists.FilterIsSubseq(prev, IsNot(t));
      assert forall x :: x != t ==> multiset(r)[x] == multiset(prev)[x] by {
        forall x | x != t ensures multiset(r)[x] == multiset(prev)[x] {
          Lists.FilterMultiplicity(prev, IsNot(t), x);
        }
      }
      r
    else prev + [t]
  }

  /** Ticking an unticked season and unticking it again restores the list exactly. */
  lemma ToggleTwiceRestores(prev: seq<string>, t: string)
    requires t !in prev
    ensures ToggleSeason(ToggleSeason(prev, t), t) == prev
  {
    var mid := prev + [t];
    assert t in mid;
    Lists.FilterAppend(prev, [t], IsNot(t));
    Lists.FilterAllPass(prev, IsNot(t));
    assert Lists.Filter([t], IsNot(t)) == [];
    assert prev + [] == prev;
  }

  /** Toggling keeps a duplicate-free list duplicate-free. */
  lemma ToggleKeepsNoDuplicates(prev: seq<string>, t: string)
    requires NoDuplicates(prev)
    ensures NoDuplicates(ToggleSeason(prev, t))
  {
    var r := ToggleSeason(prev, t);
    if t in prev {
      Lists.FilterIsSubseq(prev, IsNot(t));
      SubseqKeepsNoDuplicates(r, prev);
    } else {
      forall i, j | 0 <= i < j < |r| ensures r[i] != r[j] {
        if j == |prev| {
          assert r[i] == prev[i];
        } else {
          assert r[i] == prev[i] && r[j] == prev[j];
        }
      }
    }
  }

  lemma {:induction false} SubseqKeepsNoDuplicates(a: seq<string>, b: seq<string>)
    requires Lists.IsSubseq(a, b) && NoDuplicates(b)
    ensures NoDuplicates(a)
    decreases |b|
  {
    if |a| > 0 && |b| > 0 {
      assert forall j :: 1 <= j < |b| ==> b[j] == b[1..][j - 1];
      assert NoDuplicates(b[1..]);
      if a[0] == b[0] {
        assert Lists.IsSubseq(a[1..], b[1..]);
        SubseqKeepsNoDuplicates(a[1..], b[1..]);
        SubseqElements(a[1..], b[1..]);
        forall j | 1 <= j < |a| ensures a[0] != a[j] {
          assert a[1..][j - 1] == a[j];
          assert a[j] in b[1..];
          var m :| 0 <= m < |b[1..]| && b[1..][m] == a[j];
          assert b[m + 1] == a[j];
        }
        forall i, j | 0 <= i < j < |a| ensures a[i] != a[j] {
          if i > 0 { assert a[1..][i - 1] == a[i] && a[1..][j - 1] == a[j]; }
        }
      } else {
        assert Lists.IsSubseq(a, b[1..]);
        SubseqKeepsNoDuplicates(a, b[1..]);
      }
    }
  }

  lemma {:induction false} SubseqElements(a: seq<string>, b: seq<string>)
    requires Lists.IsSubseq(a, b)
    ensures forall x :: x in a ==> x in b
    decreases |b|
  {
    if |a| > 0 && |b| > 0 {
      if a[0] == b[0] {
        SubseqElements(a[1..], b[1..]);
        forall x | x in a ensures x in b {
          if x != a[0] {
            assert x in a[1..];
          }
        }
      } else {
        SubseqElements(a, b[1..]);
      }
    }
  }

  // ---------------------------------------------------------------- urls

  /** `canto?.foto_url || null`, replaced by the upload's result when a file was chosen
      (a failed upload gives null). */
  function ChosenUrl(existing: Option<string>, fileChosen: bool, upload: Option<string>): (u: Option<string>)
    ensures fileChosen ==> u == upload
    ensures !fileChosen ==> (u.Some? <==> existing.Some? && |existing.value| > 0) && (u.Some? ==> u == existing)
  {
    if fileChosen then upload
    else if existing.Some? && |existing.value| > 0 then existing
    else None
  }

  /** The record saved. */
  datatype CantoData = CantoData(nombre: string, tipo: string, tiempos: seq<string>,
                                 fotoUrl: Option<string>, audioUrl: Option<string>)

  /** An update of the edited song by id, or an insert. */
  datatype Save = UpdateById(id: string, data: CantoData) | Insert(data: CantoData)

  /** A chosen file (its content is not modelled). */
  datatype FileRef = FileRef(name: string)

  class CantoFormDialog {
    var editing: Option<Canto>
    var nombre: string
    var tipo: string
    var tiempos: seq<string>
    var fotoFile: Option<FileRef>
    var audioFile: Option<FileRef>
    var fotoPreview: Option<string>
    var errors: map<string, string>

    constructor()
      ensures editing == None && nombre == "" && tipo == "" && tiempos == []
      ensures fotoFile == None && audioFile == None && fotoPreview == None && errors == map[]
    {
      editing := None;
      nombre := "";
      tipo := "";
      tiempos := [];
      fotoFile := None;
      audioFile := None;
      fotoPreview := None;
      errors := map[];
    }

    /** The effect on `canto` / `open`: copy the song's fields, or clear them; the chosen
        files and the errors are cleared either way. */
    method Reset(canto: Option<Canto>)
      modifies this
      ensures editing == canto
      ensures canto.Some? ==> nombre == canto.value.nombre && tipo == canto.value.tipo
                              && tiempos == canto.value.tiemposLiturgicos.GetOr([])
                              && fotoPreview == canto.value.fotoUrl
      ensures canto.None? ==> nombre == "" && tipo == "" && tiempos == [] && fotoPreview == None
      ensures fotoFile == None && audioFile == None && errors == map[]
    {
      editing := canto;
      if canto.Some? {
        nombre := canto.value.nombre;
        tipo := canto.value.tipo;
        tiempos := canto.value.tiemposLiturgicos.GetOr([]);
        fotoPreview := canto.value.fotoUrl;
      } else {
        nombre := "";
        tipo := "";
        tiempos := [];
        fotoPreview := None;
      }
      fotoFile := None;
      audioFile := None;
      errors := map[];
    }

    method ToggleTiempo(t: string)
      modifies this
      ensures tiempos == ToggleSeason(old(tiempos), t)
      ensures nombre == old(nombre) && tipo == old(tipo) && errors == old(errors) && editing == old(editing)
      ensures fotoFile == old(fotoFile) && audioFile == old(audioFile) && fotoPreview == old(fotoPreview)
    {
      tiempos := ToggleSeason(tiempos, t);
    }

    /** `handleFotoChange` with a file; `preview` is its object URL. */
    method ChooseFoto(file: FileRef, preview: string)
      modifies this
      ensures fotoFile == Some(file) && fotoPreview == Some(preview)
      ensures nombre == old(nombre) && tipo == old(tipo) && tiempos == old(tiempos) && errors == old(errors)
      ensures editing == old(editing) && audioFile == old(audioFile)
    {
      fotoFile := Some(file);
      fotoPreview := Some(preview);
    }

    method ChooseAudio(file: FileRef)
      modifies this
      ensures audioFile == Some(file)
      ensures nombre == old(nombre) && tipo == old(tipo) && tiempos == old(tiempos) && errors == old(errors)
      ensures editing == old(editing) && fotoFile == old(fotoFile) && fotoPreview == old(fotoPreview)
    {
      audioFile := Some(file);
    }

    /** `validateForm`: the verdict, and the error map it leaves. */
    method Validate() returns (ok: bool)
      modifies this
      ensures ok <==> 1 <= |nombre| <= NombreMax && |tipo| >= 1 && |tiempos| >= 1
      ensures errors == ErrorMap(CantoIssues(nombre, tipo, tiempos), FormFields)
      ensures nombre == old(nombre) && tipo == old(tipo) && tiempos == old(tiempos) && editing == old(editing)
      ensures fotoFile == old(fotoFile) && audioFile == old(audioFile) && fotoPreview == old(fotoPreview)
    {
      var issues := CantoIssues(nombre, tipo, tiempos);
      if issues == [] {
        errors := map[];
        ok := true;
      } else {
        errors := CollectErrors(issues, FormFields);
        ok := false;
      }
    }

    /** `handleSubmit`; `fotoUpload` / `audioUpload` are what uploading the chosen file
        returns (None when it fails), used only when a file was chosen. */
    method HandleSubmit(fotoUpload: Option<string>, audioUpload: Option<string>) returns (save: Option<Save>)
      modifies this
      ensures errors == ErrorMap(CantoIssues(nombre, tipo, tiempos), FormFields)
      ensures save.Some? <==> 1 <= |nombre| <= NombreMax && |tipo| >= 1 && |tiempos| >= 1
      ensures save.Some? ==>
                var data := CantoData(nombre, tipo, tiempos,
                                      ChosenUrl(if editing.Some? then editing.value.fotoUrl else None, fotoFile.Some?, fotoUpload),
                                      ChosenUrl(if editing.Some? then editing.value.audioUrl else None, audioFile.Some?, audioUpload));
                save.value == if editing.Some? then UpdateById(editing.value.id, data) else Insert(data)
      ensures nombre == old(nombre) && tipo == old(tipo) && tiempos == old(tiempos) && editing == old(editing)
      ensures fotoFile == old(fotoFile) && audioFile == old(audioFile) && fotoPreview == old(fotoPreview)
    {
      var ok := Validate();
      if !ok {
        return None;
      }
      var fotoUrl := if editing.Some? && editing.value.fotoUrl.Some? && |editing.value.fotoUrl.value| > 0
                     then editing.value.fotoUrl else None;
      var audioUrl := if editing.Some? && editing.value.audioUrl.Some? && |editing.value.audioUrl.value| > 0
                      then editing.value.audioUrl else None;
      if fotoFile.Some? {
        fotoUrl := fotoUpload;
      }
      if audioFile.Some? {
        audioUrl := audioUpload;
      }
      var data := CantoData(nombre, tipo, tiempos, fotoUrl, audioUrl);
      if editing.Some? {
        save := Some(UpdateById(editing.value.id, data));
      } else {
        save := Some(Insert(data));
      }
    }
  }

  /** Saving an opened song without choosing files keeps its URLs (when non-empty). */
  lemma EditWithoutFilesKeepsUrls(c: Canto, fotoUpload: Option<string>, audioUpload: Option<string>)
    requires c.fotoUrl.Some? && |c.fotoUrl.value| > 0 && c.audioUrl.Some? && |c.audioUrl.value| > 0
    ensures ChosenUrl(c.fotoUrl, false, fotoUpload) == c.fotoUrl
    ensures ChosenUrl(c.audioUrl, false, audioUpload) == c.audioUrl
  {
  }
}
