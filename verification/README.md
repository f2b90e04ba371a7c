# NomNom Hub backend: a Dafny model of the webhook core

NomNom Hub is a chat bot backend for the LINE messaging platform. When the
bot is mentioned in a chat, its webhook takes the message text and finds
the strings that look like web links. It records the sender as a user and
each link as a "place" in a Postgres database. It fetches a preview of
every link and replies with one card per preview. Each card has three vote
buttons. A relational layer (users, places, votes, tags, place_tags)
holds what the bot records, and a tag operation attaches trimmed,
de-blanked tag names to a place inside one transaction. HTTP middleware
gives every request an id, takes the trace id from Google's trace header,
and writes a structured access log. That log keeps a capped copy of the
request and response bodies and masks the LINE signature.

The model has one module per part of the system:

- `Webhook` (webhook.dfy) holds the handler `LineWebhook` and the whole
  event loop. Every outside service is an oracle: the user lookup, the
  profile lookup, the upsert, the place batch insert, `uuid.New`, the
  preview fetch and the reply. An oracle's answer may depend on the calls
  made so far in the request. `LineWebhookSpec` is the reference
  definition. The method `LineWebhook` is the handler's own loop, proved
  equal to it.
- `Links` (links.dfy) holds `extractPossibleLinks`. It is a hand-written
  leftmost-first matcher for the regular expression
  `(?i)\b((?:[a-z0-9-]+\.)+[a-z]{2,}(?:/[^\s]*)?)`, with Go's RE2 meaning
  of `(?i)`, `\b` and `\s`. `IsHost` and `IsLink` describe the shape of
  a link without the matcher. Both directions are proved: every extracted
  link has that shape, and a host at a word boundary that no earlier link
  runs over begins an extracted link.
- `LinksExample` (links_example.dfy) works the message
  "check out foo.example.com and bar.example.org!!" through the matcher.
- `Flex` (flex.dfy) holds `BuildPreviewFlex`, `button` and `safeText`.
- `Text` (text.dfy) holds Go's `strings.TrimSpace` and `unicode.IsSpace`.
- `Model` (model.dfy) holds the rows of internal/model/db.go.
- `Storage` (storage.dfy) holds the SQL statements as functions on tables,
  plus a class `Store` whose methods change the tables in place:
  `WithTx`, `UpsertUserByLineID`, `CreatePlace` and `AddTagsToPlace`.
- `Sanitize` (sanitize.dfy) holds `mask` on bytes and `isSensitiveHeader`.
- `Logging` (logging.dfy) holds the capped `bodyLogWriter`, the request
  body preview and restore step, `toStr`, and the fields for the masked
  signature and the ids.
- `RequestId` (requestid.dfy) holds the `RequestID` middleware.
- `Config` (config.dfy) holds `DSN`, with a parser that inverts it.
- `Wrappers` and `Bytes` are small shared helpers.

The model keeps the handler's behaviour as written, including two quirks:

- `make([]model.Place, len(links))` followed by `append` puts one zero row
  per link ahead of the link rows.
- The `user` pointer stays nil after the first-sighting upsert. A message
  with a link from a new sender therefore dereferences nil. The recover
  middleware turns that into a 500.

## Model

| member | source | states |
|---|---|---|
| Webhook.LineWebhook | app/line_webhook/handler.go:41-164 | The handler's loop equals LineWebhookSpec. A bad signature answers 400 and another parse error 500, both with no calls. Otherwise each event is handled in turn, the first failure answers 500 and stops the loop, and 200 comes after the last event. |
| Webhook.HandleMessageEvent | app/line_webhook/handler.go:54-159 | One pass of the loop body equals HandleEvent, and its failure is never the signature failure. |
| Webhook.CreateAndReply | app/line_webhook/handler.go:107-158 | The links, the place insert inside WithTx, the fetches and the reply equal AfterUser. |
| Webhook.BuildPlaces | app/line_webhook/handler.go:110-122 | The build fails (nil dereference) exactly when there are links and the user record is nil. Otherwise it gives one zero row per link, then one row per link with a fresh id, an empty name and the sender as author. |
| Webhook.FetchPreviews | app/line_webhook/handler.go:137-145 | One fetch per link, in order, each recorded in the trace. The messages are the cards of the successful fetches, in order. |
| Webhook.StatusOf | app/line_webhook/handler.go:44-51 | The status is 400 exactly for an invalid signature, and 500 for every other failure. |
| Webhook.IsMentioned | app/line_webhook/handler.go:166-179 | True exactly when the message has a Mention and some mentionee is a user mentionee with IsSelf. |
| Webhook.SelfMentioned | app/line_webhook/handler.go:170-178 | The loop over the mentionees is true exactly when some mentionee is a user mentionee that is the bot. |
| Webhook.ParseFailureCallsNothing | app/line_webhook/handler.go:42-52 | A failed parse calls no outside service and answers 400 for a bad signature, else 500. |
| Webhook.EventFilter | app/line_webhook/handler.go:54-65 | An event leaves the trace unchanged and goes on exactly when it is not a message event, or is a text message that does not mention the bot. Non-text messages are not filtered. |
| Webhook.HandleEventExtends | app/line_webhook/handler.go:54-159 | Handling an event only appends calls. A completed event that passes the filter adds at least the lookup, the insert and the reply. |
| Webhook.HandleEventNeverBadSignature | app/line_webhook/handler.go:76-158 | No failure inside the loop is the signature failure, so every such failure answers 500. |
| Webhook.RunEventsOutcome | app/line_webhook/handler.go:54-163 | A parsed batch answers 200 exactly when no failure occurred, and 500 otherwise. Its calls extend the trace given. |
| Webhook.FailureStopsTheLoop | app/line_webhook/handler.go:54-163 | After a failing event, the events that follow are never looked at. |
| Webhook.SuccessComposes | app/line_webhook/handler.go:54-163 | A batch that succeeds hands its trace on to the events after it, so the loop over two batches is the loop over their concatenation. |
| Webhook.IgnoredBatchCallsNothing | app/line_webhook/handler.go:54-65 | A batch whose events are all filtered out calls nothing and answers 200. |
| Webhook.AfterUserReply | app/line_webhook/handler.go:107-158 | When the part after the user lookup completes, its last call is a successful reply carrying the cards of the previews it fetched. The links it fetched are the links extracted from the text. |
| Webhook.ReplyCarriesFetchedCards | app/line_webhook/handler.go:54-158 | An event that completes and calls out is a message event. Its last call is the reply with the cards of the previews it fetched, and the links it fetched are those of its text ("" for a non-text message). |
| Webhook.PlaceRowsShape | app/line_webhook/handler.go:111-122 | The batch has 2n rows for n links. The first n are zero rows with a nil id, url "" and no author. Then come the links in order, each with its own id, an empty name and the sender as author. |
| Webhook.ZeroRowsShareTheEmptyUrl | app/line_webhook/handler.go:111-122 | With two links or more, the batch holds two rows with the same empty url, and a zero row differs from the first link's row. |
| Webhook.CardsCount | app/line_webhook/handler.go:138-145 | There is one card per successful fetch. |
| Webhook.CardsInOrder | app/line_webhook/handler.go:138-145 | The card of the k-th fetch, when it succeeded, comes right after the cards of the successful fetches before it. |
| Webhook.CardsComeFromAnswers | app/line_webhook/handler.go:138-145 | Every card is the card of some successful fetch. |
| Webhook.FirstSightingWithLinksFails | app/line_webhook/handler.go:89-121 | A new sender whose mentioned message holds a link is looked up, fetched and upserted. The call then fails with a nil dereference, with no place insert and no reply. |
| Webhook.TwoLinksOneFetchFails | app/line_webhook/handler.go:107-158 | Two links from a known sender, where the first fetch succeeds and the second fails. The insert holds two zero rows and then the two link rows, both links are fetched in order, and the reply holds one card. |
| Flex.SafeText | app/line_webhook/handler.go:251-256 | The fallback when the text is all white space (empty once trimmed), otherwise the text unchanged. |
| Flex.BuildPreviewFlex | app/line_webhook/handler.go:187-238 | Fixed alt text. The hero image is present exactly when the preview has an image, and it links to the preview url. The body has the title (or the fallback when blank) and then the url. The footer has three message buttons sending the reject, meh and go texts, and only the last is primary. |
| Flex.FallbackTitleNotBlank | app/line_webhook/handler.go:204 | The fallback title is not blank. |
| Flex.CardTitleNeverBlank | app/line_webhook/handler.go:202-208 | A card's title line is never blank. |
| Flex.SafeTextIdempotent | app/line_webhook/handler.go:251-256 | With a non-blank fallback, applying safeText twice equals applying it once. |
| Flex.VoteButtonsSendTheirLabel | app/line_webhook/handler.go:217-221 | Each vote button's label ends with a space followed by exactly the text the button sends. |
| Links.ExtractPossibleLinks | app/line_webhook/handler.go:181-185 | One link per match span, in order. Each link is the text of the preferred (leftmost-first) match that starts at its span. |
| Links.MatchSpans | app/line_webhook/handler.go:181-185 | FindAllString's spans lie within the text, are non-empty, and are ordered and non-overlapping. |
| Links.MatchAt | app/line_webhook/handler.go:181 | A match at a position ends after it, within the text. |
| Links.HostEnd | app/line_webhook/handler.go:181 | The host part of a match consists only of label characters and dots. |
| Links.HostEndIsHost | app/line_webhook/handler.go:181 | The host part of a match is a host: dot-separated labels ending in a label of two or more letters. |
| Links.MatchAtIsLink | app/line_webhook/handler.go:181 | A match is a host, optionally followed by '/' and a path, with no white space. |
| Links.MatchIsLink | app/line_webhook/handler.go:181 | Every span the matcher returns is a well-shaped link. |
| Links.LinksAreWellShaped | app/line_webhook/handler.go:181-185 | Every extracted link has the host-and-path shape and holds no white space. |
| Links.SpansAreMatches | app/line_webhook/handler.go:181-185 | Each span is the leftmost-first match at its start, and no match starts at a position that no span covers. |
| Links.HostFound | app/line_webhook/handler.go:181 | Wherever the text holds a host, the host part of the matcher succeeds there and, being greedy, ends no earlier than that host. |
| Links.HostIsExtracted | app/line_webhook/handler.go:181-185 | A host at a word boundary is covered by some match span. When no earlier span runs past its start, a span starts there and reaches at least the host's end. |
| Links.HostBeginsALink | app/line_webhook/handler.go:181-185 | A host at a word boundary that no earlier link runs over is a prefix of one of the extracted links. |
| LinksExample.TwoHostMessageLinks | app/line_webhook/handler.go:181-185 | The links of "check out foo.example.com and bar.example.org!!" are exactly "foo.example.com" and "bar.example.org", in that order. |
| Links.NoDotNoLinks | app/line_webhook/handler.go:181-185 | A text without a dot has no links. |
| Text.TrimSpaceSlice | app/line_webhook/handler.go:252 | TrimSpace gives the slice of the input between a white-space prefix and a white-space suffix. That slice neither starts nor ends with white space. |
| Text.TrimSpaceEmptyIff | app/line_webhook/handler.go:252 | TrimSpace is empty exactly when the string is all white space. |
| Text.TrimSpaceIdempotent | app/storage.go:48 | Trimming twice equals trimming once. |
| Storage.NaturalKeysUnique | internal/model/db.go:14-56 | In consistent tables no two users share a line_id, no two places a url, and no two tags a name. |
| Storage.RowId | internal/model/db.go:13 | An inserted row's id is never nil: it is the id given, or the database default when the given one is nil. |
| Storage.UpsertUser | app/storage.go:26-34 | The upsert fails exactly when the line_id is new and the row's id is taken. An existing line_id keeps its row and id and takes the new display name. A new one gets a row. Other users and tables are unchanged, and the tables stay consistent. |
| Storage.UpsertUserIdempotent | app/storage.go:26-34 | Upserting the same user twice equals upserting once. |
| Storage.InsertPlace | app/storage.go:36-39 | The plain insert fails exactly when the url or the id is taken. Otherwise it adds exactly that row and changes nothing else. |
| Storage.Normalize | app/storage.go:46-53 | The normalised list is no longer than the input and holds no empty name. |
| Storage.NormalizeMembers | app/storage.go:46-53 | Every normalised name is the trimmed form of some input name, and every input name that is not blank once trimmed has its trimmed form kept. |
| Storage.NormalizeAppend | app/storage.go:46-53 | Normalising a concatenation concatenates the normalised parts. |
| Storage.NormalizeOne | app/storage.go:47-52 | A single name normalises to its trimmed form, or to nothing when it is blank. |
| Storage.InsertTagsSpec | app/storage.go:59-71 | After the tag upserts, every name has exactly one row, whose id is the one returned for it. Existing rows are reused unchanged, only new names get rows, and the other tables are untouched. |
| Storage.InsertPlaceTags | app/storage.go:73-82 | The association inserts add exactly the (place, tag) pairs and change nothing else; a pair already present is a no-op. |
| Storage.AddTagsEffect | app/storage.go:41-85 | A name list that is blank after normalising writes nothing. A successful AddTagsToPlace leaves consistent tables where each normalised name has a tag row (existing rows unchanged), and the place is paired with each of those tags. Nothing else changes. |
| Storage.InsertTagsExisting | app/storage.go:59-71 | When every name already has a row and no statement faults, the tag upserts succeed and change nothing. |
| Storage.InsertPlaceTagsNoFault | app/storage.go:73-82 | Without a faulting statement the association inserts succeed. |
| Storage.AddTagsIdempotent | app/storage.go:41-85 | Repeating a successful AddTagsToPlace either fails and is rolled back, or succeeds with the tables unchanged. Without faults it succeeds. |
| Storage.Store.BeginTx | app/storage.go:20-24 | Starting the transaction changes no table. A failing BEGIN is the result and opens nothing; otherwise a snapshot of the tables is recorded. |
| Storage.Store.FinishTx | app/storage.go:20-24 | When fn failed, the tables roll back to the snapshot and fn's error is the result. Otherwise the commit's error is the result: a commit that succeeds keeps fn's writes, one that fails keeps none. |
| Storage.Store.UpsertUserByLineID | app/storage.go:26-34 | The tables become UpsertUser's result, or stay as they were on an error. |
| Storage.Store.CreatePlace | app/storage.go:36-39 | The tables become InsertPlace's result, or stay as they were on an error. |
| Storage.Store.UpsertTagRows | app/storage.go:59-71 | The tag loop fails as the tag upserts do. Otherwise it leaves their tables and returns their ids. |
| Storage.Store.InsertPlaceTagRows | app/storage.go:73-82 | The association loop fails as the association inserts do, and otherwise leaves their tables. |
| Storage.AddTagsInTxAllOrNothing | app/storage.go:20-24 | The tag operation with its transaction gives AddTags' tables or an error. A blank list opens no transaction and writes nothing. With BEGIN and COMMIT succeeding it is exactly AddTags, and a failing BEGIN or COMMIT on a non-blank list is always an error. |
| Storage.Store.AddTagsToPlace | app/storage.go:41-85 | Succeeds exactly when the list is blank, or when BEGIN, every statement of AddTags and COMMIT succeed. The tables become AddTags' result on success and stay as they were on failure, and no transaction stays open. |
| Storage.NormalizeNames | app/storage.go:46-53 | The normalising loop computes Normalize. |
| Sanitize.Mask | internal/middleware/sanitize.go:5-13 | Empty stays empty. One to eight bytes become "****". Longer values become their first four bytes, "****" and their last four bytes. |
| Sanitize.MaskRevealsOnlyTheEnds | internal/middleware/sanitize.go:5-13 | Two values mask alike exactly when both are empty, both are short, or both are long and agree on their first and last four bytes. |
| Sanitize.MaskHidesTheMiddle | internal/middleware/sanitize.go:12 | Replacing the middle of a long value by any non-empty bytes leaves its mask unchanged. |
| Sanitize.LowerRune | internal/middleware/sanitize.go:23 | Lowering a rune maps A-Z to a-z. The result is an ASCII lower-case letter exactly when the input is an ASCII letter, U+0130 or the Kelvin sign. |
| Sanitize.ToLowerIdempotent | internal/middleware/sanitize.go:23 | Lowering twice equals lowering once. |
| Sanitize.SensitiveHeaderRuneByRune | internal/middleware/sanitize.go:16-25 | A header key is sensitive exactly when its rune-by-rune lower case is one of the three listed names. |
| Sanitize.SensitiveHeaderIgnoresCase | internal/middleware/sanitize.go:22-25 | A key and its lower case are equally sensitive. |
| Sanitize.LineSignatureIsSensitive | internal/middleware/sanitize.go:17 | X-Line-Signature is sensitive. |
| Sanitize.AuthorizationIsSensitive | internal/middleware/sanitize.go:18 | Authorization is sensitive. |
| Sanitize.KelvinSignApiKeyIsSensitive | internal/middleware/sanitize.go:19-23 | "X-API-" followed by the Kelvin sign and "EY" is sensitive, because Go lowers the Kelvin sign to 'k'. |
| Sanitize.ContentTypeIsNotSensitive | internal/middleware/sanitize.go:16-25 | Content-Type is not sensitive. |
| Logging.Capped | internal/middleware/logging.go:19-27 | The kept copy is a prefix of the bytes, at most 2048 long. It is the whole input exactly when the input has at most 2048 bytes, and exactly 2048 bytes otherwise. |
| Logging.CappedAppend | internal/middleware/logging.go:20-26 | Capping what was kept plus a new write's chunk equals capping everything written. |
| Logging.BodyLogWriter.Write | internal/middleware/logging.go:17-29 | The buffer stays the capped copy of everything written. Below the cap it grows by the chunk that fits, and at the cap it is unchanged. The write is passed on whole, and its result is returned. |
| Logging.BodyLogWriter.constructor | internal/middleware/logging.go:44 | The writer starts with an empty buffer over the response writer it wraps. |
| Logging.Request.PreviewBody | internal/middleware/logging.go:36-42 | With no body the preview is empty. Otherwise the preview is the first 2048 bytes, and the body is replaced by that preview. |
| Logging.RestoredBodyIsCut | internal/middleware/logging.go:38-41 | The restored body equals the original exactly when it has at most 2048 bytes. A longer body is cut to 2048 bytes. |
| Logging.LoggedLineSignature | internal/middleware/logging.go:57-60 | The logged signature is the mask of the X-Line-Signature header ("" when it is absent). |
| Logging.LoggedSignatureHidesTheSecret | internal/middleware/logging.go:57-60 | Requests whose long signatures agree on their first and last four bytes log the same value. Every short signature logs "****". |
| Logging.ToStr | internal/middleware/logging.go:94-102 | A string value gives itself; nil and any other value give "". |
| Logging.LoggedIds | internal/middleware/logging.go:53-64 | After RequestID the logged req_id is never empty and is the caller's X-Request-Id when one was sent. The logged trace_id is the one from the trace header, or "". |
| RequestId.SplitTwo | internal/middleware/requestid.go:22 | SplitN with n = 2 gives one part exactly when there is no separator, with that part the whole string. Otherwise it gives the part before the first separator and the rest, which join back to the input. |
| RequestId.TraceId | internal/middleware/requestid.go:20-26 | A trace id is set exactly when the header is non-empty and does not start with '/'. It is then the non-empty text before the first '/', or the whole header when there is no '/'. |
| RequestId.TraceIdOfSpanHeader | internal/middleware/requestid.go:19-26 | A header of the form TRACE_ID/SPAN gives TRACE_ID. |
| RequestId.RequestIdFor | internal/middleware/requestid.go:27-30 | The request id is never empty. It is the caller's header when present, otherwise the generated id. |
| RequestId.Context.RequestID | internal/middleware/requestid.go:17-35 | The context gets req_id and perhaps trace_id, and the response header X-Request-Id is set. The context's req_id is the string sent back in that header. |
| RequestId.ValuesAfterSpec | internal/middleware/requestid.go:20-32 | req_id is a non-empty string and is the caller's id when one was sent. trace_id is set exactly when the header yields one, and is otherwise left as it was. Every other key is unchanged. |
| Config.DecimalDigits | internal/config/config.go:47 | %d of a natural number is a non-empty run of digits with no leading zero. |
| Config.DecimalDigitsRoundTrip | internal/config/config.go:47 | Reading the digits back gives the number. |
| Config.FormatInt | internal/config/config.go:47 | %d of an integer starts with '-' exactly when the integer is negative, and is digits otherwise. |
| Config.FormatIntRoundTrip | internal/config/config.go:47-51 | Parsing %d of an integer gives the integer back. |
| Config.DSN | internal/config/config.go:45-55 | The DSN starts with "postgres://" and ends with "?sslmode=" followed by the SSL mode. |
| Config.DSNRoundTrip | internal/config/config.go:45-55 | When the user and host hold no ':', the password no '@' and the name no '?', the DSN parses back to the configuration. |
| Config.AtSignIsAmbiguous | internal/config/config.go:46-50 | Moving text after an '@' from the password to the front of the host gives the same DSN, because nothing is escaped. |

## Left out

- Strings: Go strings are bytes, and the model's `string` is a sequence of
  runes. `mask` and the body capture work on bytes (`seq<byte>`), as Go
  slices them. The other functions only compare, trim or scan, so runes
  give the same answers on valid UTF-8.
- Sanitize.ToLower: lowers A-Z, U+0130 and the Kelvin sign U+212A (the only
  runes whose lower case is ASCII) and leaves every other rune as it is.
  This decides `isSensitiveHeader` exactly, because the listed names are
  ASCII. It is not the full `unicode.ToLower` table.
- Request signature checking and JSON decoding (`webhook.ParseRequest`) are
  the LINE SDK's. The model starts from their result: the events, an
  invalid signature, or another error.
- `h.storage.GetUserByLineID`, `h.storage.CreatePlaces` and the method form
  of `h.storage.WithTx` that the handler calls are not defined in
  app/storage.go. They are oracles in Webhook, like `GetProfile`,
  `ReplyMessage`, `uuid.New` and `opengraph.FetchPreview`
  (internal/opengraph/opengraph.go is not part of this model). Each
  answer may depend on the calls made earlier in the request.
- The place batch's own database behaviour is not modelled. CreatePlaces
  inside WithTx is one oracle answer, because CreatePlaces is not in the
  storage file. Storage.InsertPlace models the plain insert that
  `CreatePlace` performs. The code does not make place creation an upsert
  on the url, so a repeated url is an error there.
- Storage.UpsertUser: the source passes the struct value `d` to bun's
  `Model` (app/storage.go:28), not a pointer `&d`. The model assumes the
  ORM runs the statement for a value argument. If bun rejects a
  non-pointer model, every call would return that error instead.
- Storage.Store.UpsertUserByLineID: the same assumption about the value
  `d` at app/storage.go:28.
- Storage.InsertPlace: the source passes the value `d` to `Model` at
  app/storage.go:37. The model assumes the ORM runs the insert for it.
  If bun rejects a non-pointer model, every call would fail instead.
- Storage.Store.CreatePlace: the same assumption about the value `d` at
  app/storage.go:37.
- Webhook's first-sighting upsert is an oracle answer. The fact that a
  known sender is never re-created is proved for the storage operation
  (Storage.UpsertUser keeps the row and id of an existing line_id, and
  Storage.UpsertUserIdempotent), not for each request's oracle.
- Votes: no operation of the core writes a vote. The vote table is kept in
  the tables. The intended vote values -1, 0 and 1 are only a comment in
  db.go and are not enforced, so `Model.IntendedVoteValue` is
  documentation only.
- `PlaceSummary` (a view computed by the database, with a floating-point
  score) is not modelled.
- Timestamps (`created_at`, `updated_at`) and the ORM relations (`Author`,
  `Votes`, `Tags`) are not modelled. Foreign keys are not checked: a
  place_tags row may name any place id, as no foreign key is declared in
  db.go.
- The `nullzero` display name: bun stores an empty display name as NULL.
  The model keeps "".
- Database errors other than key conflicts: in AddTagsToPlace, INSERT
  statement k fails when `fault(k)`, and BEGIN and COMMIT fail when
  `beginFails` and `commitFails` hold. For the user upsert and the place
  insert, a taken primary key is the only error.
- Generated ids (`uuid_generate_v4()`, `uuid.New`, `uuid.NewString`) are
  parameters. A generated id that collides with a stored one is an error,
  as the primary key would be.
- Flex.Button: a constructor of one SDK value; its content is stated
  through Flex.BuildPreviewFlex and Flex.VoteButtonsSendTheirLabel.
- Flex.SafeTextIdempotent: follows directly from SafeText's contract.
- Flex.BuildPreviewFlex: the Thai literals of the card in
  app/line_webhook/handler.go (lines 196, 204, 218-220 and 224) are stored
  mis-encoded: UTF-8 Thai that was decoded as Mac Roman and saved again.
  The program as written sends those mis-decoded characters. The model's
  constants (`OpenLinkLabel`, `FallbackTitle`, `CardAltText` and the vote
  texts) hold the recovered Thai instead. No proved property depends on
  the exact characters, beyond the fallback title's first rune not being
  white space, which holds of the as-written 'ü' too. Only the fields the
  handler sets are modelled.
- Logging: the latency, status, size, client IP, method, path and user
  agent fields, the zap logger, the `gin.Mode()` switch that adds the
  previews, and `c.Errors` are not modelled. Neither are `c.Next` and the
  handlers after each middleware, or the recover middleware, whose 500 is
  the NilUserDereference failure.
- Logging.Request.PreviewBody: an error from `io.ReadAll` is ignored by the
  source and is not modelled. The read is the whole capped body.
- Logging.ResponseWriter is a stand-in for gin's response writer: a write
  either appends all its bytes or fails with nothing written.
- Header names are looked up as given. Go's canonicalisation of header
  keys (`X-Request-Id`, `X-Cloud-Trace-Context`, `X-Line-Signature`) is not
  modelled.
- `config.Load` (environment parsing) and the logger set-up are not
  modelled. `DSN` is modelled for every field value, including values the
  environment tags would reject.
