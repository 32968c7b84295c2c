/**
 * The REST API's request handling up to the first store call: bearer-token extraction,
 * required-field checks, ownership gates, the upload folder and file-name rule, the
 * position given to a song added to a mass, and the readings endpoint's status mapping.
 * Request bodies are JavaScript values; a field is modelled as an optional string and
 * checked for truthiness. The store's answers (owner lookups, existing positions) are
 * inputs; what a handler would ask the store to do is its result.
 */
module ApiHandlers {
  import opened Wrappers
  import Text
  import Lists
  import opened DatabaseTypes
  import ReadingsApi

  /** A body field: absent/undefined, or a string. */
  type Field = Option<string>

  /** JavaScript truthiness of a string field: present and not empty. */
  predicate Truthy(f: Field) { f.Some? && |f.value| > 0 }

  /** The write or query a handler goes on to perform. */
  datatype StoreCall =
    | CreateUser(email: string, password: string, nombre: string)
    | SignIn(email: string, password: string)
    | InsertMisa(fecha: string, descripcion: Field, usuarioId: string)
    | UpdateMisa(id: string, newFecha: Field, newDescripcion: Field)
    | DeleteMisa(id: string)
    | UploadObject(fileName: string)
    | InsertCanto(nombre: string, tipo: string, tiempos: seq<string>, fotoUrl: Field, audioUrl: Field)
    | InsertMisaCanto(misaId: string, cantoId: string, tipo: string, orden: int)
    | DeleteMisaCanto(id: string)

  /** A handler either answers at once with an error status, or proceeds to the store. */
  datatype Outcome = Respond(status: nat, error: string) | Proceed(call: StoreCall)

  // ---------------------------------------------------------------- tokens

  /** The decoded token. */
  datatype Payload = Payload(userId: string, email: string)

  /** `authHeader?.split(' ')[1]`, kept only when truthy. */
  function ExtractToken(header: Option<string>): (t: Option<string>)
    ensures t.Some? ==> |t.value| > 0 && forall j :: 0 <= j < |t.value| ==> t.value[j] != ' '
  {
    if header.None? then None
    else
      var parts := Text.Split(header.value, ' ');
      Text.SplitPiecesFree(header.value, ' ');
      if |parts| >= 2 && |parts[1]| > 0 then Some(parts[1]) else None
  }

  /** The token of `Bearer <token>`, also when more words follow. */
  lemma ExtractBearer(scheme: string, token: string, rest: Option<string>)
    requires forall j :: 0 <= j < |scheme| ==> scheme[j] != ' '
    requires forall j :: 0 <= j < |token| ==> token[j] != ' '
    requires |token| > 0
    ensures var h := if rest.None? then scheme + " " + token else scheme + " " + token + " " + rest.value;
            ExtractToken(Some(h)) == Some(token)
  {
    if rest.Some? {
      var tail := token + [' '] + rest.value;
      assert scheme + " " + token + " " + rest.value == scheme + [' '] + tail;
      Text.SplitAfterPiece(scheme, ' ', tail);
      Text.SplitAfterPiece(token, ' ', rest.value);
    } else {
      assert scheme + " " + token == scheme + [' '] + token;
      Text.SplitAfterPiece(scheme, ' ', token);
      Text.SplitWithoutSeparator(token, ' ');
    }
  }

  /** A header without a space carries no token. */
  lemma SingleWordHeaderHasNoToken(h: string)
    requires forall j :: 0 <= j < |h| ==> h[j] != ' '
    ensures ExtractToken(Some(h)) == None
  {
    Text.SplitWithoutSeparator(h, ' ');
  }

  datatype AuthOutcome = Rejected(status: nat, error: string) | Authenticated(user: Payload)

  /** `verifyToken`; `verify` stands for `jwt.verify`, None when it throws. */
  function VerifyToken(header: Option<string>, verify: string -> Option<Payload>): (a: AuthOutcome)
    ensures a.Rejected? ==> a.status == 401
    ensures ExtractToken(header).None? ==> a == Rejected(401, "No token provided")
    ensures ExtractToken(header).Some? ==>
              a == (match verify(ExtractToken(header).value)
                    case None => Rejected(401, "Invalid token")
                    case Some(p) => Authenticated(p))
  {
    match ExtractToken(header)
    case None => Rejected(401, "No token provided")
    case Some(t) =>
      match verify(t)
      case None => Rejected(401, "Invalid token")
      case Some(p) => Authenticated(p)
  }

  /** Without a token the answer does not depend on the verifier: nothing is verified. */
  lemma NoTokenSkipsVerification(header: Option<string>, v1: string -> Option<Payload>, v2: string -> Option<Payload>)
    requires ExtractToken(header).None?
    ensures VerifyToken(header, v1) == VerifyToken(header, v2)
  {
  }

  /** A protected route: the handler runs only for an authenticated user. */
  function Protected(header: Option<string>, verify: string -> Option<Payload>, handler: Payload -> Outcome): (o: Outcome)
    ensures VerifyToken(header, verify).Rejected? ==> o.Respond? && o.status == 401
    ensures VerifyToken(header, verify).Authenticated? ==> o == handler(VerifyToken(header, verify).user)
  {
    match VerifyToken(header, verify)
    case Rejected(status, error) => Respond(status, error)
    case Authenticated(user) => handler(user)
  }

  // ---------------------------------------------------------------- required fields

  const MissingFields := "Missing required fields"

  function Signup(email: Field, password: Field, nombre: Field): (o: Outcome)
    ensures o.Proceed? <==> Truthy(email) && Truthy(password) && Truthy(nombre)
    ensures o.Respond? ==> o == Respond(400, MissingFields)
    ensures o.Proceed? ==> o.call == CreateUser(email.value, password.value, nombre.value)
  {
    if !Truthy(email) || !Truthy(password) || !Truthy(nombre) then Respond(400, MissingFields)
    else Proceed(CreateUser(email.value, password.value, nombre.value))
  }

  function Login(email: Field, password: Field): (o: Outcome)
    ensures o.Proceed? <==> Truthy(email) && Truthy(password)
    ensures o.Respond? ==> o == Respond(400, "Missing email or password")
    ensures o.Proceed? ==> o.call == SignIn(email.value, password.value)
  {
    if !Truthy(email) || !Truthy(password) then Respond(400, "Missing email or password")
    else Proceed(SignIn(email.value, password.value))
  }

  /** Creating a mass needs a `fecha`; the owner is the authenticated user. */
  function CreateMisa(user: Payload, fecha: Field, descripcion: Field): (o: Outcome)
    ensures o.Proceed? <==> Truthy(fecha)
    ensures o.Respond? ==> o == Respond(400, MissingFields)
    ensures o.Proceed? ==> o.call == InsertMisa(fecha.value, descripcion, user.userId)
  {
    if !Truthy(fecha) then Respond(400, MissingFields)
    else Proceed(InsertMisa(fecha.value, descripcion, user.userId))
  }

  /** Creating a song needs `nombre` and `tipo`; omitted seasons become the empty list. */
  function CreateCanto(nombre: Field, tipo: Field, tiempos: Option<seq<string>>, fotoUrl: Field, audioUrl: Field): (o: Outcome)
    ensures o.Proceed? <==> Truthy(nombre) && Truthy(tipo)
    ensures o.Respond? ==> o == Respond(400, MissingFields)
    ensures o.Proceed? ==> o.call.InsertCanto? && o.call.nombre == nombre.value && o.call.tipo == tipo.value
                           && o.call.fotoUrl == fotoUrl && o.call.audioUrl == audioUrl
    ensures o.Proceed? ==> o.call.tiempos == (if tiempos.None? then [] else tiempos.value)
  {
    if !Truthy(nombre) || !Truthy(tipo) then Respond(400, MissingFields)
    else Proceed(InsertCanto(nombre.value, tipo.value, tiempos.GetOr([]), fotoUrl, audioUrl))
  }

  // ---------------------------------------------------------------- ownership

  /** The owner lookup `select('usuario_id') … single()`: an error, or the row's owner. */
  datatype OwnerLookup = LookupFailed | OwnerRow(usuarioId: string)

  /** The ownership gate passes only for a found row owned by the requester. */
  predicate IsOwner(lookup: OwnerLookup, user: Payload): (b: bool)
    ensures b <==> lookup == OwnerRow(user.userId)
  {
    lookup.OwnerRow? && lookup.usuarioId == user.userId
  }

  const Unauthorized := "Unauthorized"

  function UpdateMisaHandler(user: Payload, id: string, fecha: Field, descripcion: Field, lookup: OwnerLookup): (o: Outcome)
    ensures o.Proceed? <==> IsOwner(lookup, user)
    ensures o.Respond? ==> o == Respond(403, Unauthorized)
    ensures o.Proceed? ==> o.call == UpdateMisa(id, fecha, descripcion)
  {
    if !IsOwner(lookup, user) then Respond(403, Unauthorized) else Proceed(UpdateMisa(id, fecha, descripcion))
  }

  function DeleteMisaHandler(user: Payload, id: string, lookup: OwnerLookup): (o: Outcome)
    ensures o.Proceed? <==> IsOwner(lookup, user)
    ensures o.Respond? ==> o == Respond(403, Unauthorized)
    ensures o.Proceed? ==> o.call == DeleteMisa(id)
  {
    if !IsOwner(lookup, user) then Respond(403, Unauthorized) else Proceed(DeleteMisa(id))
  }

  function RemoveMisaCanto(user: Payload, misaCantoId: string, lookup: OwnerLookup): (o: Outcome)
    ensures o.Proceed? <==> IsOwner(lookup, user)
    ensures o.Respond? ==> o == Respond(403, Unauthorized)
    ensures o.Proceed? ==> o.call == DeleteMisaCanto(misaCantoId)
  {
    if !IsOwner(lookup, user) then Respond(403, Unauthorized) else Proceed(DeleteMisaCanto(misaCantoId))
  }

  // ---------------------------------------------------------------- positions

  /** The largest element of a non-empty sequence. */
  function Max(s: seq<int>): (m: int)
    requires |s| > 0
    ensures m in s && forall i :: 0 <= i < |s| ==> s[i] <= m
  {
    if |s| == 1 then s[0]
    else
      var rest := Max(s[1..]);
      assert forall i :: 1 <= i < |s| ==> s[i] == s[1..][i - 1];
      if s[0] >= rest then s[0] else rest
  }

  /** `(existingCantos?.[0]?.orden ?? -1) + 1`, where the query returns the positions already
      used for that mass and type in descending order, limited to one; None when it errs. */
  function NextOrden(existing: Option<seq<int>>): (o: int)
    ensures existing.None? || existing.value == [] ==> o == 0
    ensures existing.Some? && existing.value != [] ==>
              (forall i :: 0 <= i < |existing.value| ==> existing.value[i] < o) && o - 1 in existing.value
  {
    if existing.None? || existing.value == [] then 0 else Max(existing.value) + 1
  }

  /** The positions used by entries of type `tipo`. */
  function OrdensOfTipo(entries: seq<MisaCanto>, tipo: string): (os: seq<int>)
    ensures |os| == |Lists.Filter(entries, TipoIs(tipo))|
  {
    var same := Lists.Filter(entries, TipoIs(tipo));
    seq(|same|, i requires 0 <= i < |same| => same[i].orden)
  }

  /** Adding a song to a mass needs `cantoId` and `tipo`, then ownership, then a position. */
  function AddMisaCanto(user: Payload, misaId: string, cantoId: Field, tipo: Field, lookup: OwnerLookup,
                        existing: Option<seq<int>>): (o: Outcome)
    ensures !(Truthy(cantoId) && Truthy(tipo)) ==> o == Respond(400, MissingFields)
    ensures Truthy(cantoId) && Truthy(tipo) && !IsOwner(lookup, user) ==> o == Respond(403, Unauthorized)
    ensures o.Proceed? <==> Truthy(cantoId) && Truthy(tipo) && IsOwner(lookup, user)
    ensures o.Proceed? ==> o.call == InsertMisaCanto(misaId, cantoId.value, tipo.value, NextOrden(existing))
  {
    if !Truthy(cantoId) || !Truthy(tipo) then Respond(400, MissingFields)
    else if !IsOwner(lookup, user) then Respond(403, Unauthorized)
    else Proceed(InsertMisaCanto(misaId, cantoId.value, tipo.value, NextOrden(existing)))
  }

  /** The client's rule: as many as there already are of that type. */
  function CountOfTipo(entries: seq<MisaCanto>, tipo: string): nat {
    |Lists.Filter(entries, TipoIs(tipo))|
  }

  /** The server's "largest + 1" and the client's "count" agree when the positions of that
      type are exactly 0 .. n-1. */
  lemma OrdenRulesAgree(entries: seq<MisaCanto>, tipo: string)
    requires var os := OrdensOfTipo(entries, tipo);
             forall k :: k in os <==> 0 <= k < |os|
    ensures NextOrden(Some(OrdensOfTipo(entries, tipo))) == CountOfTipo(entries, tipo)
  {
    var os := OrdensOfTipo(entries, tipo);
    if |os| > 0 {
      var m := Max(os);
      assert |os| - 1 in os;
      var i :| 0 <= i < |os| && os[i] == |os| - 1;
      assert m >= |os| - 1;
    }
  }

  /** When a position is skipped the rules may disagree: the server fills past the gap. */
  lemma OrdenRulesDifferAfterGap(a: MisaCanto)
    requires a.orden == 5
    ensures NextOrden(Some(OrdensOfTipo([a], a.tipo))) == 6
    ensures CountOfTipo([a], a.tipo) == 1
  {
    assert OrdensOfTipo([a], a.tipo) == [5];
  }

  // ---------------------------------------------------------------- upload

  /** `originalname.split('.').pop()`: the text after the last dot, or the whole name. */
  function FileExtension(name: string): (ext: string)
    ensures forall j :: 0 <= j < |ext| ==> ext[j] != '.'
  {
    var parts := Text.Split(name, '.');
    Text.SplitPiecesFree(name, '.');
    parts[|parts| - 1]
  }

  lemma FileExtensionAfterLastDot(base: string, ext: string)
    requires forall j :: 0 <= j < |ext| ==> ext[j] != '.'
    ensures FileExtension(base + "." + ext) == ext
  {
    assert base + "." + ext == base + ['.'] + ext;
    Text.SplitLastPiece(base, '.', ext);
  }

  lemma FileExtensionWithoutDot(name: string)
    requires forall j :: 0 <= j < |name| ==> name[j] != '.'
    ensures FileExtension(name) == name
  {
    Text.SplitWithoutSeparator(name, '.');
  }

  /** The folder test; the truthiness check is subsumed by the two names. */
  predicate AllowedFolder(folder: Field): (b: bool)
    ensures b <==> folder == Some("fotos") || folder == Some("audios")
  {
    Truthy(folder) && (folder.value == "fotos" || folder.value == "audios")
  }

  /** The upload handler; `unique` stands for the time-and-random part of the stored name. */
  function Upload(originalName: Option<string>, folder: Field, unique: string): (o: Outcome)
    ensures originalName.None? ==> o == Respond(400, "No file provided")
    ensures originalName.Some? && !AllowedFolder(folder) ==> o == Respond(400, "Invalid folder")
    ensures o.Proceed? <==> originalName.Some? && AllowedFolder(folder)
    ensures o.Proceed? ==>
              o.call == UploadObject(folder.value + "/" + unique + "." + FileExtension(originalName.value))
  {
    if originalName.None? then Respond(400, "No file provided")
    else if !AllowedFolder(folder) then Respond(400, "Invalid folder")
    else Proceed(UploadObject(folder.value + "/" + unique + "." + FileExtension(originalName.value)))
  }

  /** A stored file lives directly under its folder. */
  lemma UploadPathStartsWithFolder(originalName: string, folder: string, unique: string)
    requires folder == "fotos" || folder == "audios"
    ensures var o := Upload(Some(originalName), Some(folder), unique);
            o.Proceed? && o.call.fileName[..|folder| + 1] == folder + "/"
  {
  }

  // ---------------------------------------------------------------- readings

  /** `/api/lecturas/:fecha`: a failure envelope answers 400 with its error only;
      a success envelope is sent as it is. */
  datatype LecturasReply = ErrorReply(status: nat, error: string) | EnvelopeReply(env: ReadingsApi.Envelope)

  function LecturasEndpoint(env: ReadingsApi.Envelope): (r: LecturasReply)
    ensures env.Failure? <==> r.ErrorReply?
    ensures r.ErrorReply? ==> r.status == 400 && r.error == env.error
    ensures r.EnvelopeReply? ==> r.env == env
  {
    if env.Failure? then ErrorReply(400, env.error) else EnvelopeReply(env)
  }
}
