# Liturgy songs manager: a Dafny model of its core

The system helps a parish musician plan masses. It keeps a catalogue of songs (each with
a part of the mass and the liturgical seasons it fits), masses with an ordered list of
songs per part, a full-screen viewer that walks through a mass, and a scraper that
fetches the day's readings from Vatican News. This project models the logic behind
those features:

- **Readings scraper** (two variants). The date-to-URL segment, with the API variant
  moving the date one calendar day forward. The extraction of the liturgical indication,
  the first reading and the gospel from an already-parsed page. The success/failure
  envelope. In the server variant, a browser-connection pool with a 5-second cool-down
  (a class with the pooled handle and the last-error memo as fields), the one-shot
  local-browser fallback, page clean-up and the endpoint's defaults and status codes.
- **REST API handlers**: bearer-token extraction, required-field checks, the
  ownership gates, the upload folder whitelist and file-extension rule, the position
  (`orden`) of a new song in a mass, and the readings endpoint's status mapping.
- **Mass planning**: the type tables, grouping a mass's songs by part, the client's
  position rule (shown to agree with the server's when positions are contiguous), the
  viewer's sort and its two-phase navigation state (a class).
- **Catalogue and forms**: the three-way song filter, deletion's local update and the
  empty-state text, the song selector's suggested filter, and the three forms (song,
  sign-in/sign-up, mass). Each form is a class: its schema as an issue list, the
  error map built by a loop, its reset, and the record a valid submit saves.

Shared modules: `Wrappers` (Option, Result), `Text` (ASCII trim and lower-case,
substring search, split/join, decimal digits), `Lists` (filter and subsequences),
`Calendar` (Gregorian dates, next/previous day, `yyyy-MM-dd`), `FieldErrors`
(issue list to per-field error map).

`Cantos.handleDelete` and `MisaDetail.handleCantoSelected` return early before
their `try` block, so their `finally` clean-up does not run: without a delete target
or a token the target stays set, and without a mass id or a selected part the
selector stays open and the part stays selected.

## Model

| member | source | states |
|---|---|---|
| Calendar.NextDay | api/src/lecturas.ts:84-86 | the day after a valid date is a valid date (`setDate(getDate()+1)` with month and year rollover) |
| Calendar.NextDayIsOneDayLater | api/src/lecturas.ts:84-86 | the next day's day number is exactly one more than the date's |
| Calendar.NextPrevInverse | api/src/lecturas.ts:84-86 | next and previous day are inverse to each other |
| Calendar.DayNumberInjective | api/src/lecturas.ts:84-86 | distinct valid dates have distinct day numbers |
| Calendar.FebruaryRollover | api/src/lecturas.ts:84-86 | 28 February is followed by 29 February only in leap years, otherwise by 1 March |
| Calendar.YearRollover | api/src/lecturas.ts:84-86 | 31 December is followed by 1 January of the next year |
| Calendar.ParseFormatIso | src/components/misas/MisaFormDialog.tsx:82-84 | a date of years 0..9999 written as `yyyy-MM-dd` reads back as the same date |
| Calendar.FormatIso | src/components/misas/MisaFormDialog.tsx:83 | a valid date of years 0..9999 is written as ten characters, digits with `-` at positions 4 and 7 |
| Calendar.ParseIso | src/components/misas/MisaFormDialog.tsx:47 | a `yyyy-MM-dd` string is read only into a valid calendar date |
| ReadingsUrl.ReadingsPageUrl | api/src/lecturas.ts:92 | the URL is the fixed prefix, then exactly the date segment, then `.html` |
| ReadingsUrl.FormatDateForUrl | api/src/lecturas.ts:6-11 | the segment holds only digits and `/`, and for a valid date it is the year's digits plus six characters |
| ReadingsUrl.SegmentShape | api/src/lecturas.ts:6-11 | the segment is the unpadded year, `/`, the two-digit month, `/`, the two-digit day |
| ReadingsUrl.SegmentRoundTrip | api/src/lecturas.ts:6-11 | splitting the segment on `/` and reading the numbers gives back the date |
| ReadingsUrl.VariantsDifferByOneDay | server-lecturas.js:71-76 | the API variant requests the page of the next day, the server variant that of the date itself |
| Extractor.FirstIndicationIndex | api/src/lecturas.ts:31-34 | the index found is that of the first element whose class contains `indicazioneLiturgica`; none means no element has it |
| Extractor.IndicationSpec | api/src/lecturas.ts:31-34 | the indication is the trimmed text of the first matching element, and null exactly when none matches |
| Extractor.LastAssigning | api/src/lecturas.ts:37-70 | the position is that of the last section whose trimmed heading is the title and that has at least two paragraphs |
| Extractor.BuildBody | api/src/lecturas.ts:45-53 | the loop's text is the non-empty trimmed paragraphs from the third on, joined by single spaces |
| Extractor.ExtractReadings | api/src/lecturas.ts:16-77 | the loop over sections produces the indication and, for each of the two titles, the reading of the last assigning section |
| Extractor.NonAssigningSectionChangesNothing | api/src/lecturas.ts:37-70 | a section with another heading, or with fewer than two paragraphs, leaves the reading unchanged |
| Extractor.LastAssigningSectionWins | api/src/lecturas.ts:37-70 | a later assigning section replaces what earlier ones set |
| Extractor.TwoParagraphsGiveEmptyBody | api/src/lecturas.ts:45-53 | with exactly two paragraphs the body is the empty string, not null |
| Extractor.BodyPiecesAreTrimmedAndNonEmpty | api/src/lecturas.ts:45-53 | every piece of the body is a trimmed, non-empty paragraph |
| Extractor.OneParagraphLeavesNull | api/src/lecturas.ts:42-43 | a single-paragraph section sets neither citation nor body |
| Extractor.EmptyPageGivesNulls | api/src/lecturas.ts:16-77 | a page without the class and without matching sections gives all nulls |
| Extractor.FourParagraphExample | api/src/lecturas.ts:41-54 | four paragraphs give the second as the citation and the third and fourth joined by a space as the body |
| ReadingsApi.CaughtMessage | api/src/lecturas.ts:118-125 | a thrown Error gives its message, anything else `Error desconocido` |
| ReadingsApi.GetReadingsFromVatican | api/src/lecturas.ts:82-126 | the input date is echoed, a page is requested exactly when the date parses, and a success carries the requested URL |
| ReadingsApi.InvalidDateFails | api/src/lecturas.ts:87-89 | an unparseable date fails with the format message, requesting nothing |
| ReadingsApi.RequestsNextDay | api/src/lecturas.ts:84-92 | the requested URL is that of the next calendar day |
| ReadingsApi.SuccessIffOk | api/src/lecturas.ts:101-117 | the envelope is a success exactly when the date parses and the response status is 2xx |
| ReadingsApi.BadStatusMessage | api/src/lecturas.ts:101-103 | a non-2xx status fails with `Error al obtener la página: ` and the status |
| ReadingsApi.SuccessCarriesExtraction | api/src/lecturas.ts:105-117 | a success carries the extraction, with the indication field renamed |
| ReadingsApi.NetworkFailureMessage | api/src/lecturas.ts:118-125 | a failed fetch fails with the caught error's message |
| ServerLecturas.Acquire | server-lecturas.js:21-64 | a handle is returned exactly when one is pooled afterwards; a connect is tried only with a token and no live handle; a pooled handle always has an empty memo |
| ServerLecturas.BrowserPool.GetBrowserPool | server-lecturas.js:21-64 | the result and the new pooled handle and memo are those of `Acquire` on the old fields; the invariant is kept |
| ServerLecturas.ReuseLiveHandle | server-lecturas.js:24-27 | a pooled handle whose probe succeeds is returned unchanged, with no connect and no state change |
| ServerLecturas.FailedProbeClears | server-lecturas.js:28-31 | a failed probe empties the pool before anything else is tried |
| ServerLecturas.CooldownBlocks | server-lecturas.js:35-37 | an error less than 5000 ms old fails without connecting and keeps the memo |
| ServerLecturas.CooldownExpires | server-lecturas.js:35-37 | at 5000 ms or more, with a token, a connect is attempted |
| ServerLecturas.MissingTokenRecordsNothing | server-lecturas.js:39-42 | a missing token fails with `BROWSERLESS_TOKEN no configurado` and records nothing |
| ServerLecturas.ConnectTransitions | server-lecturas.js:48-63 | a successful connect pools the handle and clears the memo; a failure leaves the pool empty and records the message and time |
| ServerLecturas.FailureThenCooldown | server-lecturas.js:35-63 | after a failed connect, a call within 5000 ms is refused and a later one reconnects |
| ServerLecturas.GetReadingsFromVatican | server-lecturas.js:156-237 | every thrown error becomes a failure carrying its message and the hint: an invalid date fails without a browser; without a token a failed launch gives the launch's message; a token leads to the pool, a pool error to exactly one local launch, whose failure gives the fallback prefix and the pool error's message; a failed `newPage`, `goto` or `content` gives that step's message; the page opened is closed once; success needs a browser and a loaded page |
| ServerLecturas.RequestFecha | server-lecturas.js:245-251 | a non-empty query date is used as given |
| ServerLecturas.DefaultFechaIsToday | server-lecturas.js:248-251 | a missing query date is today's date as `yyyy-MM-dd` |
| ServerLecturas.EndpointStatus | server-lecturas.js:255-259 | the endpoint answers 200 exactly for a success and 404 otherwise |
| ApiHandlers.ExtractToken | api/src/index.ts:58-59 | a token found is non-empty and has no space |
| ApiHandlers.ExtractBearer | api/src/index.ts:58-59 | the token is the second space-separated word of the header |
| ApiHandlers.SingleWordHeaderHasNoToken | api/src/index.ts:58-63 | a header of one word has no token |
| ApiHandlers.VerifyToken | api/src/index.ts:57-72 | no token gives 401 `No token provided`; a token failing verification gives 401 `Invalid token`; otherwise the decoded user |
| ApiHandlers.NoTokenSkipsVerification | api/src/index.ts:61-63 | without a token the verifier is never consulted |
| ApiHandlers.Protected | api/src/index.ts:57-72 | a rejected request answers 401, an accepted one runs the handler with the decoded user |
| ApiHandlers.Signup | api/src/index.ts:81-83 | the account is created exactly when email, password and name are all non-empty, otherwise 400 |
| ApiHandlers.Login | api/src/index.ts:122-124 | sign-in proceeds exactly when email and password are non-empty, otherwise 400 |
| ApiHandlers.CreateMisa | api/src/index.ts:211-213 | a mass is inserted exactly when the date is non-empty, owned by the requester |
| ApiHandlers.CreateCanto | api/src/index.ts:348-357 | a song is inserted exactly when name and type are non-empty; omitted seasons become `[]` |
| ApiHandlers.UpdateMisaHandler | api/src/index.ts:244-246 | the update happens exactly when the owner lookup succeeds with the requester, otherwise 403 |
| ApiHandlers.IsOwner | api/src/index.ts:244 | the gate passes exactly for a found row whose owner is the requester |
| ApiHandlers.DeleteMisaHandler | api/src/index.ts:272-274 | the delete happens exactly when the requester owns the mass, otherwise 403 |
| ApiHandlers.RemoveMisaCanto | api/src/index.ts:475-477 | the removal happens exactly when the requester owns the mass, otherwise 403 |
| ApiHandlers.Max | api/src/index.ts:435-441 | the largest position is one of them and no smaller than any other |
| ApiHandlers.NextOrden | api/src/index.ts:443 | with no existing position the new one is 0, otherwise the largest plus one |
| ApiHandlers.AddMisaCanto | api/src/index.ts:419-443 | missing fields give 400, a non-owner 403, otherwise an insert at `NextOrden` |
| ApiHandlers.OrdenRulesAgree | api/src/index.ts:443 | when the positions of a part are exactly 0..n-1, the server's rule and the client's count agree |
| ApiHandlers.OrdenRulesDifferAfterGap | src/pages/MisaDetail.tsx:77 | after a gap the two rules differ (one entry at position 5: 6 against 1) |
| ApiHandlers.FileExtension | api/src/index.ts:302 | the extension contains no dot |
| ApiHandlers.FileExtensionAfterLastDot | api/src/index.ts:302 | the extension is the text after the last dot |
| ApiHandlers.FileExtensionWithoutDot | api/src/index.ts:302 | a name without a dot is its own extension |
| ApiHandlers.Upload | api/src/index.ts:293-303 | no file gives 400 `No file provided`, then a folder other than `fotos`/`audios` gives 400 `Invalid folder`, otherwise the upload path |
| ApiHandlers.AllowedFolder | api/src/index.ts:298 | a folder is accepted exactly when it is `fotos` or `audios` |
| ApiHandlers.UploadPathStartsWithFolder | api/src/index.ts:302-303 | the stored name is the folder, `/`, the unique part, `.` and the extension |
| ApiHandlers.LecturasEndpoint | api/src/index.ts:500-506 | a failure answers 400 with its error; a success is returned unchanged |
| DatabaseTypes.SongTypeLabel | src/types/database.ts:67-78 | every song type has a non-empty label |
| DatabaseTypes.SeasonLabel | src/types/database.ts:80-86 | every season has a non-empty label |
| DatabaseTypes.ParseSongType | src/types/database.ts:1-11 | a string read as a type is that type's key |
| DatabaseTypes.ParseSongTypeKey | src/types/database.ts:1-11 | reading a type's key gives back the type |
| DatabaseTypes.SongTypeKeysDistinct | src/types/database.ts:1-11 | types have distinct keys |
| DatabaseTypes.SongTypeLabelsDistinct | src/types/database.ts:67-78 | type labels are pairwise distinct |
| DatabaseTypes.SeasonKeysDistinct | src/types/database.ts:13-18 | seasons have distinct keys |
| DatabaseTypes.SeasonLabelsDistinct | src/types/database.ts:80-86 | season labels are pairwise distinct |
| DatabaseTypes.SongTypesOrderSpec | src/types/database.ts:88-98 | the order lists nine distinct types: every type except `extra` |
| DatabaseTypes.AllSongTypesOnce | src/pages/MisaDetail.tsx:203 | the order followed by `extra` holds each of the ten types exactly once |
| DatabaseTypes.AllSongTypeKeysSpec | src/types/database.ts:1-11 | a string is among the keys exactly when it names a type |
| MisaViewer.IndexOf | src/pages/MisaViewer.tsx:55-56 | the index of the first occurrence, or -1 exactly when absent |
| MisaViewer.TipoOrderIsAllSongTypes | src/pages/MisaViewer.tsx:53 | the viewer's order is the type order followed by `extra` |
| MisaViewer.RankSpec | src/pages/MisaViewer.tsx:53-57 | a known type ranks at its position in that order; an unknown one ranks -1 |
| MisaViewer.Insert | src/pages/MisaViewer.tsx:54-59 | inserting into a sorted list keeps it sorted and adds exactly that entry |
| MisaViewer.SortByTipoOrden | src/pages/MisaViewer.tsx:54-59 | the result is sorted by (type rank, position) and is a permutation of the rows |
| MisaViewer.UnknownTypesFirst | src/pages/MisaViewer.tsx:55-57 | in the sorted list nothing before an unknown type is known |
| MisaViewer.SameTypeByOrden | src/pages/MisaViewer.tsx:57-58 | entries of the same type appear by ascending position |
| MisaViewer.StepsKeepValid | src/pages/MisaViewer.tsx:74-92 | every step keeps the index within the list |
| MisaViewer.Previous | src/pages/MisaViewer.tsx:74-82 | the index stays; the step happens exactly after the first song and outside a transition, and then targets the previous index |
| MisaViewer.Next | src/pages/MisaViewer.tsx:84-92 | the index stays; the step happens exactly before the last song and outside a transition, and then targets the next index |
| MisaViewer.Jump | src/pages/MisaViewer.tsx:217-223 | the index stays; outside a transition the dot's index becomes the target, during one nothing changes |
| MisaViewer.Complete | src/pages/MisaViewer.tsx:77-80 | the pending index becomes current and the transition ends |
| MisaViewer.IgnoredWhileTransitioning | src/pages/MisaViewer.tsx:75-85 | moves requested during a transition change nothing |
| MisaViewer.MovesByOne | src/pages/MisaViewer.tsx:74-92 | next moves one on only before the last song, previous one back only after the first |
| MisaViewer.JumpLands | src/pages/MisaViewer.tsx:214-224 | a dot jump ends on that dot's index with no transition in progress |
| MisaViewer.IndexChangesOnlyOnCompletion | src/pages/MisaViewer.tsx:75-80 | requesting a move changes only the transition state; the index changes on completion |
| MisaViewer.View | src/pages/MisaViewer.tsx:106-136 | loading, the two empty screens, and otherwise the current song, its counter and the disabled buttons |
| MisaViewer.Viewer.Load | src/pages/MisaViewer.tsx:28-72 | the loaded rows are shown sorted, from the first song |
| MisaViewer.Viewer.HandlePrevious | src/pages/MisaViewer.tsx:74-82 | the navigation state moves as `Previous` says, nothing else changes |
| MisaViewer.Viewer.HandleNext | src/pages/MisaViewer.tsx:84-92 | the navigation state moves as `Next` says, nothing else changes |
| MisaViewer.Viewer.JumpTo | src/pages/MisaViewer.tsx:217-224 | the navigation state moves as `Jump` says |
| MisaViewer.Viewer.CompleteTransition | src/pages/MisaViewer.tsx:77-80 | the pending index becomes current and the transition ends |
| MisaDetail.CantosByTipo | src/pages/MisaDetail.tsx:134-136 | every entry returned has the part asked for |
| MisaDetail.CantosByTipoSpec | src/pages/MisaDetail.tsx:134-136 | the entries of that part, each as often as in the mass, in their order |
| MisaDetail.Sections | src/pages/MisaDetail.tsx:203 | ten sections, each part exactly once |
| MisaDetail.EntryInOneSection | src/pages/MisaDetail.tsx:134-136 | an entry of a known part is listed under that part and no other |
| MisaDetail.ClientOrden | src/pages/MisaDetail.tsx:77 | the new position is the number of entries of that part |
| MisaDetail.ClientMatchesServer | src/pages/MisaDetail.tsx:77 | with contiguous positions the client's rule gives the server's |
| MisaDetail.ReloadAdvancesOrden | src/pages/MisaDetail.tsx:77 | a reloaded list with one more row of a part gives that part the next position |
| MisaDetail.DetailPage.Load | src/pages/MisaDetail.tsx:30-66 | without a route id or after a thrown error the entries stay; otherwise they become the fetched rows, or `[]` for no data; the selector is untouched |
| MisaDetail.DetailPage.HandleAddCanto | src/pages/MisaDetail.tsx:68-71 | the part is selected and the selector opened |
| MisaDetail.DetailPage.HandleCantoSelected | src/pages/MisaDetail.tsx:73-107 | without mass id or part nothing happens; otherwise the row at the client position, then the selector closed and the part cleared |
| Catalog.FilteredCantos | src/pages/Cantos.tsx:98-104 | every song listed meets all three filters |
| Catalog.FilteredCantosSpec | src/pages/Cantos.tsx:98-104 | the list holds, in order, exactly the matching songs |
| Catalog.EmptyTermMatches | src/pages/Cantos.tsx:99 | an empty search term matches every name |
| Catalog.SearchIgnoresCase | src/pages/Cantos.tsx:99 | the search is insensitive to the case of the term and of the name |
| Catalog.NoFiltersShowAll | src/pages/Cantos.tsx:98-104 | with no term and both filters `all` the whole catalogue is shown |
| Catalog.FilteringTwiceIsFilteringOnce | src/pages/Cantos.tsx:98-104 | filtering is idempotent |
| Catalog.HandleDelete | src/pages/Cantos.tsx:65-96 | no target or token changes nothing; a successful delete removes that id; the target is cleared after an attempt |
| Catalog.DeleteRemovesOnlyThatId | src/pages/Cantos.tsx:72 | after a delete the list keeps every song with another id, in order and as often as before, and none with that id |
| Catalog.EmptyStateTitle | src/pages/Cantos.tsx:185-187 | `Sin resultados` exactly when a filter is active, else `No hay cantos registrados` |
| Catalog.EmptyStateIsTruthful | src/pages/Cantos.tsx:179-192 | the "no songs" title only shows when the catalogue is empty |
| CantoSelector.SuggestedFilterTipo | src/components/misas/CantoSelectorDialog.tsx:45-49 | a suggested part other than `extra` becomes the filter, otherwise `all` |
| CantoSelector.OnOpenChange | src/components/misas/CantoSelectorDialog.tsx:41-54 | opening fetches exactly with a token, sets the type filter and keeps the term and season filters |
| CantoSelector.SuggestedTypeNarrows | src/components/misas/CantoSelectorDialog.tsx:41-51 | after opening with a suggestion, every song listed is of that part |
| CantoSelector.Selected | src/components/misas/CantoSelectorDialog.tsx:72-78 | the song clicked is one of the catalogue's and meets the filters |
| FieldErrors.ErrorMapSpec | src/pages/Auth.tsx:59-63 | a field has an entry exactly when an issue names it, and the entry is the last such issue's message |
| FieldErrors.FieldBlock | src/components/cantos/CantoFormDialog.tsx:92-97 | when a field's issues sit together, its entry is the last of them and absent when there are none |
| FieldErrors.CollectErrors | src/components/cantos/CantoFormDialog.tsx:92-97 | the loop builds exactly that map |
| CantoForm.CantoIssues | src/components/cantos/CantoFormDialog.tsx:20-24 | no issue exactly when the name has 1 to 200 characters, the type is non-empty and a season is chosen |
| CantoForm.CantoErrorsPerField | src/components/cantos/CantoFormDialog.tsx:92-97 | each failing field shows its rule's message and a passing field nothing |
| CantoForm.ToggleSeason | src/components/cantos/CantoFormDialog.tsx:77-83 | a chosen season is removed in every occurrence, the others keep their counts and their order; another is appended at the end |
| CantoForm.ToggleTwiceRestores | src/components/cantos/CantoFormDialog.tsx:77-83 | toggling an unchosen season twice restores the list |
| CantoForm.ToggleKeepsNoDuplicates | src/components/cantos/CantoFormDialog.tsx:77-83 | toggling keeps a duplicate-free list duplicate-free |
| CantoForm.ChosenUrl | src/components/cantos/CantoFormDialog.tsx:132-141 | without a new file a non-empty existing URL is kept and an empty one becomes null; with a file, the upload's result (null on failure) |
| CantoForm.EditWithoutFilesKeepsUrls | src/components/cantos/CantoFormDialog.tsx:132-133 | saving a song without choosing files keeps both its URLs |
| CantoForm.CantoFormDialog.Reset | src/components/cantos/CantoFormDialog.tsx:45-60 | fields copied from the song or cleared; files and errors always cleared |
| CantoForm.CantoFormDialog.ToggleTiempo | src/components/cantos/CantoFormDialog.tsx:77-83 | the seasons become the toggled list, nothing else changes |
| CantoForm.CantoFormDialog.ChooseFoto | src/components/cantos/CantoFormDialog.tsx:62-68 | the chosen photo and its preview are stored; the fields, errors and audio are unchanged |
| CantoForm.CantoFormDialog.ChooseAudio | src/components/cantos/CantoFormDialog.tsx:70-75 | the chosen audio is stored; the fields, errors and photo are unchanged |
| CantoForm.CantoFormDialog.Validate | src/components/cantos/CantoFormDialog.tsx:85-102 | the verdict is the schema's, and the errors are the map of its issues |
| CantoForm.CantoFormDialog.HandleSubmit | src/components/cantos/CantoFormDialog.tsx:124-183 | an invalid form saves nothing; otherwise an update by id or an insert with the chosen URLs |
| AuthForm.LoginIssues | src/pages/Auth.tsx:11-14 | no issue exactly when the email passes the check and has at most 255 characters and the password has 6 to 100 |
| AuthForm.SignupIssues | src/pages/Auth.tsx:16-24 | no issue exactly when, in addition, the name has 2 to 100 characters and both passwords are equal |
| AuthForm.LoginReportsOnlyItsFields | src/pages/Auth.tsx:48-63 | sign-in errors name only the email and the password, each exactly when it fails |
| AuthForm.MismatchReportedUnderConfirm | src/pages/Auth.tsx:21-24 | a mismatch is reported under `confirmPassword` with its message, whatever else fails |
| AuthForm.PasswordMessages | src/pages/Auth.tsx:13 | a short password shows the minimum message, a long one the schema's maximum message |
| AuthForm.LoginErrorText | src/pages/Auth.tsx:83-85 | exactly `Invalid login credentials` is translated; anything else passes through |
| AuthForm.SignupErrorText | src/pages/Auth.tsx:99-102 | any message containing `User already registered` is replaced; others pass through |
| AuthForm.LoginMatchIsExact | src/pages/Auth.tsx:83-102 | a longer sign-in message is not translated, while the sign-up rule matches within a message |
| AuthForm.AfterCall | src/pages/Auth.tsx:77-115 | the page goes home exactly when the call succeeds; a failure notice carries the translated message |
| AuthForm.AuthPage.ToggleMode | src/pages/Auth.tsx:120-125 | the mode flips; errors, name and confirmation are cleared; email and password kept |
| AuthForm.AuthPage.SetFields | src/pages/Auth.tsx:167-232 | the four inputs take the typed values; mode and errors are unchanged |
| AuthForm.AuthPage.Validate | src/pages/Auth.tsx:48-68 | the verdict is the current mode's schema's, and the errors its map |
| AuthForm.AuthPage.HandleSubmit | src/pages/Auth.tsx:70-118 | an invalid form calls nothing; otherwise sign-in or sign-up with the form's values |
| MisaForm.MisaIssues | src/components/misas/MisaFormDialog.tsx:24-27 | no issue exactly when a date is present and the description has at most 500 characters |
| MisaForm.MisaErrorsPerField | src/components/misas/MisaFormDialog.tsx:56-72 | a missing date shows `La fecha es requerida`, an invalid one `Invalid date`, an overlong description its message |
| MisaForm.StoredDateAsWritten | src/components/misas/MisaFormDialog.tsx:47 | the stored date is read as UTC midnight and taken as the local day |
| MisaForm.EditShiftsDateWestOfUtc | src/components/misas/MisaFormDialog.tsx:47-83 | as written, west of UTC an unchanged mass is saved with a different date |
| MisaForm.StoredDate | src/components/misas/MisaFormDialog.tsx:46-47 | a well-formed stored date is read as that calendar day, anything else as an invalid date |
| MisaForm.EditKeepsDate | src/components/misas/MisaFormDialog.tsx:47-83 | read as a calendar day, an unchanged mass is saved with the date it had |
| MisaForm.RecordOf | src/components/misas/MisaFormDialog.tsx:82-86 | an empty description is saved as null, a non-empty one as given, with the user as owner |
| MisaForm.RecordDateReadsBack | src/components/misas/MisaFormDialog.tsx:83 | the saved `fecha` reads back as the picked day |
| MisaForm.MisaFormDialog.Reset | src/components/misas/MisaFormDialog.tsx:45-54 | date and description from the mass (null description as empty) or cleared; errors cleared |
| MisaForm.MisaFormDialog.PickDate | src/components/misas/MisaFormDialog.tsx:151 | the picked day becomes the date; description and errors are unchanged |
| MisaForm.MisaFormDialog.SetDescripcion | src/components/misas/MisaFormDialog.tsx:169 | the typed text becomes the description; date and errors are unchanged |
| MisaForm.MisaFormDialog.Validate | src/components/misas/MisaFormDialog.tsx:56-72 | the verdict is the schema's, and the errors the map of its issues |
| MisaForm.MisaFormDialog.HandleSubmit | src/components/misas/MisaFormDialog.tsx:74-107 | no save when invalid, without a user or without a date; otherwise an update by id or an insert of the record |

## Findings

| source | as written | input that shows it | evidently intended | confidence | as-written member | corrected member |
|---|---|---|---|---|---|---|
| src/components/misas/MisaFormDialog.tsx:47 | `new Date(misa.fecha)` reads `yyyy-MM-dd` as UTC midnight; the picker and `format` then use the local day | a mass dated 2024-03-10 edited in UTC-5 without touching the date is saved as 2024-03-09 | editing keeps the stored calendar day | medium, not executed | MisaForm.EditShiftsDateWestOfUtc | MisaForm.EditKeepsDate |

## Left out

- JavaScript `Date` parsing and time zones: both scrapers take the request date already parsed, or "invalid". Today's date and `Date.now()` are inputs. Only the mass form's reset reads a stored `yyyy-MM-dd` itself; its time-zone shift is the finding above.
- MisaForm.MisaFormDialog.Reset: reads the stored date with the corrected `MisaForm.StoredDate`, not the day-shifting reading of line 47 (`MisaForm.StoredDateAsWritten`); the shift west of UTC is the finding above.
- MisaForm.LocalDayOfUtcMidnight: the year 0 edge case is left unshifted, because the earliest calendar day has no previous day in the model.
- `toISOString()` for years of 10000 and more, which JavaScript writes with a sign and six digits.
- Unicode `trim` and `toLowerCase`: modelled on ASCII spaces and letters.
- String lengths count characters, not UTF-16 code units.
- The schema library's e-mail pattern is a parameter `isEmail`. Its issue order is written out as fields in shape order, checks in declaration order, and the object refinement last.
- Network and browser automation (`fetch`, `puppeteer.connect`/`launch`, `newPage`, `goto`, `content`, timeouts) are outcomes passed in. `page.close` is assumed to succeed.
- HTML parsing and CSS selectors are out: the page is given as its elements and sections.
- The store, storage, JWT verification, multer and the unique file-name part are inputs or plain data.
- Concurrent requests racing on the pool: calls are modelled one after another.
- The server endpoint's 500 branch: `getReadingsFromVatican` catches every error, so it cannot be reached in the modelled code.
- The file name built by the song form's own `uploadFile` and the upload itself: the form receives the upload's result.
- The refetch chained after an insert or delete: `MisaDetail.DetailPage.Load` models one fetch on its own, and `MisaDetail.ReloadAdvancesOrden` states its effect on the next position.
- The viewer's reload when the route id changes, loading flags, toasts, rendering, keyboard listeners and `setTimeout` delays. Only the two-phase transition state is kept.
- MisaViewer.SortByTipoOrden: the result is a sorted permutation; stability of the source's `sort` on equal keys is not stated.
- `src/components/AudioPlayer.tsx` (floating-point media time) and the plumbing and UI files (`src/integrations/api/client.ts`, `src/hooks/useAuth.tsx`, `src/components/misas/LecturasSection.tsx`, `src/pages/Index.tsx`, `src/components/layout/Header.tsx`, `src/App.tsx`, `capacitor.config.ts`) are not part of this model.
