# paper_fix — a Dafny model of the document lifecycle

paper_fix is a Next.js application that writes legal documents with a
language model. A user picks a template from a catalogue, answers its
questionnaire and gets a generated draft. The draft can be edited
through a chat assistant, auto-saved, finalized, downloaded as a PDF or
mailed. This project models the logic of that lifecycle and proves
properties about it:

- **The document repository.** `DocumentRepository.DocumentStore` is a
  class over the `documents` table: a map from id to `Document` record,
  a fresh-id counter and a `nat` clock. Its queries are pure functions
  in `DocumentQueries`. The companion `users` upsert is in
  `UserManagement`. The record follows `src/lib/supabase.ts` (module
  `Schema`).
- **The two AI routes.** `POST /api/generate` (`GenerateRoute`) and
  `POST /api/edit` (`EditRoute`) cover:
  - validation and status codes;
  - deterministic prompt construction;
  - the non-streaming candidate extraction (`Provider`);
  - the loop that relays provider chunks as server-sent events (`SseRelay`). The
    frame format is `data: …` followed by a blank line, as in section
    9.2 of the HTML Living Standard.
- **The PDF routes.** `POST /api/download` (`DownloadRoute`) and
  `POST /api/email` (`EmailRoute`) share the PDF layout, chunk
  concatenation and filename sanitisation (`PdfExport`).
- **Client pages as classes with fields and transition methods:**
  - the chat editor (`ChatEditor.ChatEditor`);
  - the preview page (`PreviewPage.PreviewPage`), together with its
    `safeDecodeURIComponent` fallback;
  - the my-documents list (`MyDocumentsPage.MyDocumentsPage`);
  - the registration form (`RegisterPage.RegisterForm`).
- **The template catalogue and the templates page.** The catalogue is
  `Templates`, the categories are `TemplateCategories` and the search
  and category filter is `TemplatesPage`.

These are inputs to the model, not parts of it:

- **Store errors** are boolean `fault` parameters on each store call.
- **Elapsed time** is an `elapsed: nat` parameter that advances the
  clock.
- **The language model provider's replies** are datatypes given as
  inputs.
- **Oracles.** The functions the code calls but the model does not define
  are function-typed parameters:
  - parsing one stream line and extracting its text (`string -> Option<string>`);
  - JSON string quoting (`string -> string`);
  - `decodeURIComponent` of ECMA-262 section 19.2.6.2, as a partial
    function `string -> Option<string>` over the percent-encoding of
    section 2.1 of RFC 3986;
  - rendering a PDF layout into data chunks;
  - the mail service's `send`.

Strings are sequences of Unicode scalar values, one `char` each; the
model agrees with the source's UTF-16 strings on text of the Basic
Multilingual Plane only.

The table's order on equal timestamps is unspecified, so the queries
break ties by the higher id, that is, the later insert. The two stamps
of one insert (`created_at` and `updated_at`) take one clock value.

Behaviour of the code that the contracts make explicit:

- **Duplicate drafts.** A failed draft lookup in `createDraftDocument`
  reads as "no draft" and inserts a second draft
  (`LookupFaultDuplicatesDraft`).
- **Missing ids.** `saveDocumentProgress` on an unknown id reports
  success and changes nothing. `finalizeDraftDocument` on an unknown id
  returns null.
- **`updateDocument`** may set `is_draft` back to true. It always
  overwrites `updated_at`.
- **Edit route.** Whitespace-only `content` and `instruction` pass the
  400 check. An empty edit is answered with 200 and an empty body.
- **Split objects.** A JSON object split across two reads of the
  stream is dropped (`SplitObjectIsLost`).
- **Stale drafts list.** Deleting a finalized document on the
  my-documents page also deletes that template's drafts in the store,
  but the page's `drafts` list is not refreshed.
- **Finalize drops unsaved edits.** "Save & Finalize" on an existing
  draft writes only `is_draft`, `updated_at` and the title
  (`DocumentRepository.Finalized`), yet the page then takes its unsaved
  text as the original and clears the change flag
  (`PreviewPage.PreviewPage.HandleSave`). An edit made after a failed
  auto-save, or within the auto-save delay, is therefore lost while the
  page reports success.
- **Uncatalogued category.** `privacy-policy` maps to the category
  `privacy`, which is no tab id. That template therefore appears only
  under "all".

## Model

| member | source | states |
|---|---|---|
| JsText.TrimStart | src/components/DocumentChatEditor.tsx:45 | the result is a suffix of the input; everything dropped is white space; the result does not start with white space |
| JsText.TrimEnd | src/components/DocumentChatEditor.tsx:45 | the result is a prefix of the input; everything dropped is white space; the result does not end with white space |
| JsText.TrimEmptyIffBlank | src/components/DocumentChatEditor.tsx:45 | `s.trim()` is empty exactly when every character of `s` is JavaScript white space |
| JsText.Includes | src/app/templates/page.tsx:27-28 | `hay.includes(needle)` holds exactly when `needle` occurs in `hay` at some position |
| JsText.Split | src/app/api/generate/route.ts:91 | `split('\n')` yields at least one piece and no piece contains the separator |
| JsText.JoinSplit | src/app/api/generate/route.ts:91 | joining the pieces of a split with the separator gives back the original string |
| JsText.SplitJoin | src/app/api/generate/route.ts:26-28 | splitting a join of separator-free pieces gives back the pieces |
| JsText.SplitNoSep | src/app/api/generate/route.ts:91 | a string without the separator splits into itself alone |
| JsText.SplitAppend | src/app/api/generate/route.ts:91 | a separator after a separator-free prefix starts a new piece |
| JsText.PieceOccursInJoin | src/app/api/generate/route.ts:26-28 | every piece occurs in the joined string |
| JsText.ReplaceChar | src/app/my-documents/page.tsx:121 | `replace(/c/g, d)` keeps the length and replaces exactly the occurrences of `c` |
| JsText.HyphensToSpaces | src/app/preview/page.tsx:128 | every `-` becomes a space, other characters are kept, and no `-` remains |
| JsText.AsciiLower | src/app/templates/page.tsx:27-28 | lower-casing keeps the length, leaves no ASCII upper-case letter and keeps every other character |
| JsText.NatToString | src/components/DocumentChatEditor.tsx:81 | a number's decimal text is a non-empty digit string, one digit long exactly below 10 |
| JsText.ParseNatToString | src/app/my-documents/page.tsx:46-54 | reading back a number's decimal text gives the number |
| DocumentQueries.RowsBelow | src/lib/document-repository.ts:129-144 | the matching rows below an id bound: every row matching the filters, each one a row of the table, in strictly descending id order |
| DocumentQueries.InsertSorted | src/lib/document-repository.ts:136 | inserting into a sequence sorted descending by a timestamp keeps it sorted and adds exactly the new row |
| DocumentQueries.SortDescending | src/lib/document-repository.ts:136 | `.order(key, { ascending: false })` yields the same rows, sorted descending by the key |
| DocumentQueries.Select | src/lib/document-repository.ts:176-194 | a filtered, ordered query returns exactly the table's rows that match its filters, sorted by its key |
| DocumentQueries.DraftsByTemplateId | src/lib/document-repository.ts:129-144 | exactly the user's drafts of the template, most recently updated first; an error gives the empty list |
| DocumentQueries.DocumentsByUser | src/lib/document-repository.ts:176-194 | exactly the user's rows, only non-drafts unless drafts are included, newest created first; an error gives the empty list |
| DocumentQueries.DraftDocuments | src/lib/document-repository.ts:197-211 | exactly the user's drafts, most recently updated first; an error gives the empty list |
| DocumentQueries.GetDocument | src/lib/document-repository.ts:214-227 | the row with the id, or null when it is absent or the query fails |
| DocumentQueries.FirstDraftIsMostRecent | src/lib/document-repository.ts:129-144 | when a user has a draft of a template, the first draft returned is at least as recent as it |
| DocumentQueries.AllDocumentsSplit | src/lib/document-repository.ts:176-194 | the user's whole list is exactly the union of the finalized list and the draft list |
| DocumentRepository.WithProgress | src/lib/document-repository.ts:106-113 | auto-save writes content and `updated_at`, writes the title only when it is non-empty, and keeps every other field |
| DocumentRepository.Finalized | src/lib/document-repository.ts:151-158 | finalizing clears `is_draft`, stamps `updated_at`, writes the title only when it is non-empty and keeps every other field |
| DocumentRepository.FinalizeIdempotent | src/lib/document-repository.ts:147-173 | finalizing twice with the same title is finalizing once at the later time |
| DocumentRepository.RefreshedDraft | src/lib/document-repository.ts:47-56 | refreshing a draft writes title, content, answers and `updated_at`; id, owner, template, draft flag and `created_at` are kept |
| DocumentRepository.Patched | src/lib/document-repository.ts:230-250 | every supplied field of the patch is written, every other field is kept, and `updated_at` is overwritten with the current time |
| DocumentRepository.WithoutDrafts | src/lib/document-repository.ts:269-283 | removing a user's drafts of a template removes exactly those rows and keeps the others unchanged |
| DocumentRepository.DraftUpsert | src/lib/document-repository.ts:37-92 | the table stays well formed and ids only grow; the result is null exactly when the write fails, and then nothing changes |
| DocumentRepository.DraftUpsertKeepsStamps | src/lib/document-repository.ts:37-92 | a draft upsert stamps no row later than the current time |
| DocumentRepository.DraftUpsertDraftSet | src/lib/document-repository.ts:45-84 | after a successful upsert the user's drafts of the template are the old ones, or the one new draft when there were none |
| DocumentRepository.DraftUpsertKeepsOneDraft | src/lib/document-repository.ts:45-84 | with a successful lookup, "at most one draft per user and template" is preserved |
| DocumentRepository.DraftUpsertRefreshesLatest | src/lib/document-repository.ts:45-67 | with an existing draft, the most recently updated one is refreshed in place and nothing is inserted |
| DocumentRepository.DraftUpsertFrame | src/lib/document-repository.ts:37-92 | a row that is not one of the user's drafts of the template is untouched |
| DocumentRepository.LookupFaultDuplicatesDraft | src/lib/document-repository.ts:44-47 | a failed lookup beside an existing draft makes a second draft of the same template |
| DocumentRepository.DraftTwiceLeavesOne | src/lib/document-repository.ts:37-92 | two draft saves in a row leave one draft, holding the second save's title, content and answers |
| DocumentRepository.DocumentStore.constructor | src/lib/supabase.ts:22-32 | the table starts empty, with the id supply and the clock at zero |
| DocumentRepository.DocumentStore.CreateDocument | src/lib/document-repository.ts:6-34 | inserts exactly one new finalized row under a fresh id, with both stamps at the current time, and never deduplicates; a store error gives null and changes nothing |
| DocumentRepository.DocumentStore.CreateDraftDocument | src/lib/document-repository.ts:37-92 | the new table, id supply and result are those of the draft upsert at the current time |
| DocumentRepository.DocumentStore.SaveDocumentProgress | src/lib/document-repository.ts:95-126 | applies the auto-save update to an existing row; true unless the store errors, and an unknown id changes nothing |
| DocumentRepository.DocumentStore.FinalizeDraftDocument | src/lib/document-repository.ts:147-173 | finalizes an existing row in place and returns it; an unknown id or an error gives null and changes nothing |
| DocumentRepository.DocumentStore.UpdateDocument | src/lib/document-repository.ts:230-250 | applies the patch to an existing row with `updated_at` set to now; an unknown id or an error gives null and changes nothing |
| DocumentRepository.DocumentStore.DeleteDocument | src/lib/document-repository.ts:253-304 | a fetch error returns false and deletes nothing; a finalized row first takes that user's drafts of the template with it, even when the delete then fails; a draft removes only itself |
| UserManagement.LookupUser | src/lib/user-management.ts:15-24 | the existing row is found exactly when the lookup does not fail and the id is present |
| UserManagement.Overwrite | src/lib/user-management.ts:30-36 | an optional field is written when it is given and kept when it is absent |
| UserManagement.UpsertLookupError | src/lib/user-management.ts:21-24 | a lookup error other than "not found" returns false and writes nothing |
| UserManagement.UpsertUpdatesExisting | src/lib/user-management.ts:26-42 | an existing row gets the new email and update time, takes `name`, `avatar_url` and `provider` when given and keeps them when absent, keeps `created_at`, and nothing is inserted |
| UserManagement.UpsertInsertsAbsent | src/lib/user-management.ts:43-60 | an absent row is inserted with the profile and both stamps at now |
| UserManagement.UpsertSuccessHoldsProfile | src/lib/user-management.ts:26-63 | after a true return the row holds the given profile fields and no other user's row changed |
| UserManagement.GetUserProfile | src/lib/user-management.ts:70-87 | the row, or null on error or when absent |
| UserManagement.UserStore.CreateOrUpdateUserProfile | src/lib/user-management.ts:12-67 | the new table and the returned flag are those of the upsert at the current time |
| Provider.FirstPartText | src/app/api/generate/route.ts:164 | the optional chain `candidates[0]?.content?.parts?.[0]?.text` is defined exactly when every link exists, and is then that text |
| SseRelay.TextFrame | src/app/api/generate/route.ts:100 | every text frame begins with `data: {` |
| SseRelay.DropBlankKeepsNonBlank | src/app/api/generate/route.ts:91 | the filter keeps exactly the lines that are not blank |
| SseRelay.ChunkLinesAreLines | src/app/api/generate/route.ts:91 | a chunk's lines are exactly its non-blank newline-separated pieces, none containing a newline |
| SseRelay.LineFrame | src/app/api/generate/route.ts:94-105 | a line writes at most one frame, and exactly one when it parses to a non-empty text |
| SseRelay.RelayChunk | src/app/api/generate/route.ts:88-106 | the inner loop writes the frames of the chunk's lines, in line order |
| SseRelay.Relay | src/app/api/generate/route.ts:82-116 | the relay loop writes the frames of every chunk in read order, then `[DONE]` unless the read failed |
| SseRelay.LineFramesAppend | src/app/api/generate/route.ts:93-106 | the frames of two runs of lines are the frames of each, in order |
| SseRelay.SkippedLineWritesNothing | src/app/api/generate/route.ts:103-105 | a line that fails to parse or carries no text writes nothing and does not stop later lines |
| SseRelay.TextLineWritesOneFrame | src/app/api/generate/route.ts:97-102 | a line with text writes exactly its frame between the frames of the lines around it |
| SseRelay.ChunksFramesAppend | src/app/api/generate/route.ts:84-107 | the frames of two runs of chunks are the frames of each, in order |
| SseRelay.ChunksFramesAreText | src/app/api/generate/route.ts:100 | every frame written for the chunks is a text frame |
| SseRelay.DoneOnceAndLast | src/app/api/generate/route.ts:109-111 | when the reads end normally, `[DONE]` is written exactly once, last |
| SseRelay.ReadErrorWritesNoDone | src/app/api/generate/route.ts:112-115 | a read error closes the stream with no `[DONE]` frame |
| SseRelay.TextFrameIsOneEvent | src/app/api/generate/route.ts:100 | a text frame is one event: it ends in a blank line and holds no other newline |
| SseRelay.SingleLineChunk | src/app/api/generate/route.ts:91 | a non-blank chunk without a newline is one line |
| SseRelay.OneLineFrames | src/app/api/generate/route.ts:93-106 | one line's frames are its own frame |
| SseRelay.SplitObjectIsLost | src/app/api/generate/route.ts:88-91 | an object split across two reads yields no text frame, though the same object in one read does |
| SseRelay.StreamResponse | src/app/api/generate/route.ts:36-129 | the streaming branch answers an event stream exactly when a key is set and the reply has an ok body; otherwise the route's 500 |
| SseRelay.Stream | src/app/api/generate/route.ts:36-129 | running the relay loop gives the streaming branch's response |
| GenerateRoute.AnswerText | src/app/api/generate/route.ts:27 | an answer is never empty: the given answer, or `N/A` when it is missing or empty |
| GenerateRoute.QuestionLines | src/app/api/generate/route.ts:26-27 | one `<question>: <answer>` line per question, in questionnaire order |
| GenerateRoute.PromptNamesTemplate | src/app/api/generate/route.ts:22-33 | the prompt names the template |
| GenerateRoute.PromptHasQuestionLine | src/app/api/generate/route.ts:26-28 | the prompt contains every question's line |
| GenerateRoute.QuestionBlockLines | src/app/api/generate/route.ts:26-28 | splitting the question block on newlines gives back the question lines, in order |
| GenerateRoute.AcmePrompt | src/app/api/generate/route.ts:26-28 | for the terms-of-service template with one answer, the prompt holds the answered line and an `N/A` line |
| GenerateRoute.BlockingResponse | src/app/api/generate/route.ts:135-177 | plain text exactly when the reply is ok, parses and has candidates; a non-ok reply is a 500 naming the status; the text is the first candidate's or empty |
| GenerateRoute.Prepare | src/app/api/generate/route.ts:9-33 | a prompt is built exactly for a catalogued template whose answers are present or not needed, and it is that template's prompt |
| GenerateRoute.Post | src/app/api/generate/route.ts:9-186 | the handler with its relay loop gives the route's outcome |
| GenerateRoute.UnknownTemplateIs404 | src/app/api/generate/route.ts:12-19 | an unknown or missing template id gives 404 `Template not found` and no provider request |
| GenerateRoute.KnownTemplateSendsPrompt | src/app/api/generate/route.ts:22-62 | a known template sends exactly its prompt to the provider |
| GenerateRoute.StreamingWithoutKeyFails | src/app/api/generate/route.ts:39-42 | streaming without an API key ends in 500 `Failed to generate document` with no request |
| GenerateRoute.StreamingRelaysFrames | src/app/api/generate/route.ts:119-125 | a streaming request with a key and an ok reply answers the relayed frames |
| GenerateRoute.BlockingWithoutTextIsEmpty | src/app/api/generate/route.ts:164-170 | a candidate without text gives 200 with an empty body |
| GenerateRoute.BlockingWithoutCandidatesFails | src/app/api/generate/route.ts:159-162 | no candidates gives a 500 carrying `No valid response from the AI model` |
| EditRoute.ContentBetweenDelimiters | src/app/api/edit/route.ts:19-29 | the content stands verbatim between the BEGIN and END lines, and the instruction appears in double quotes |
| EditRoute.EditedText | src/app/api/edit/route.ts:166 | no candidate list throws; an empty one gives the empty text |
| EditRoute.EditedTextIsFirstPart | src/app/api/edit/route.ts:166 | when extraction does not throw, it yields the first candidate's text or empty |
| EditRoute.BlockingResponse | src/app/api/edit/route.ts:138-176 | plain text exactly when the reply is ok, parses and extraction succeeds; every failure is 500 `Failed to edit document` |
| EditRoute.Prepare | src/app/api/edit/route.ts:10-29 | a prompt is built exactly when both parameters are non-empty; otherwise 400 `Missing required parameters` |
| EditRoute.Post | src/app/api/edit/route.ts:8-185 | the handler with its relay loop gives the route's outcome |
| EditRoute.MissingParameterIs400 | src/app/api/edit/route.ts:12-17 | a missing or empty parameter gives 400 before any provider request |
| EditRoute.BlankParametersPass | src/app/api/edit/route.ts:12-17 | whitespace-only parameters pass the check and are sent |
| EditRoute.BlockingNotOkFails | src/app/api/edit/route.ts:161-163 | a non-ok provider status gives 500 `Failed to edit document` |
| EditRoute.EmptyEditAccepted | src/app/api/edit/route.ts:166-171 | a candidate without text gives 200 with an empty body |
| PdfExport.Layout | src/app/api/download/route.ts:17-53 | the info title is the title or `Generated Document`, and a present title is written before the content |
| PdfExport.ConcatAppend | src/app/api/download/route.ts:36 | concatenating two runs of chunks is concatenating each |
| PdfExport.ChunkAtOffset | src/app/api/download/route.ts:36 | every chunk stands at its offset in the concatenation |
| PdfExport.CollectChunks | src/app/api/download/route.ts:25-37 | the collected bytes are the concatenation of the emitted chunks in arrival order |
| PdfExport.Sanitize | src/app/api/download/route.ts:69 | the length is kept, and every character outside `[A-Za-z0-9]` becomes `_` |
| PdfExport.SanitizeAlphabet | src/app/api/download/route.ts:69 | the sanitised stem holds only ASCII letters, digits and `_`, and keeps the letters and digits |
| PdfExport.SanitizeIdempotent | src/app/api/download/route.ts:69 | sanitising twice is sanitising once |
| PdfExport.SanitizeFixesAlnum | src/app/api/download/route.ts:69 | a stem of letters and digits is left as it is |
| PdfExport.AttachmentFilename | src/app/api/download/route.ts:69 | the name is as long as the title, or `document`, plus four, and ends in `.pdf` |
| PdfExport.AttachmentFilenameIsSafe | src/app/api/download/route.ts:69 | the name holds no quote, slash, backslash or control character |
| PdfExport.UntitledFilename | src/app/api/download/route.ts:69 | without a title the name is `document.pdf` |
| DownloadRoute.DownloadResponse | src/app/api/download/route.ts:5-79 | missing content is 400; a PDF is answered exactly for content the renderer accepts, with the sanitised name and the joined chunks; otherwise 500 |
| DownloadRoute.Post | src/app/api/download/route.ts:5-79 | running the collection loop gives the download response |
| EmailRoute.TitleInSubjectAndText | src/app/api/email/route.ts:64-65 | a given title appears in the subject and in the text |
| EmailRoute.Handle | src/app/api/email/route.ts:9-93 | a missing recipient or content is 400 with nothing sent; a sent message carries the recipient, the subject, the text, the attachment name and the joined chunks; a valid body whose PDF renders is always handed to the service; success is answered exactly when the service accepts, and a throwing service, an unreadable body or a failed render is 500 `Failed to process request` |
| EmailRoute.Post | src/app/api/email/route.ts:9-93 | running the collection loop gives the handler's outcome |
| EmailRoute.SendErrorIs500 | src/app/api/email/route.ts:74-80 | a service error gives 500 `Failed to send email` |
| EmailRoute.SendOkAnswers | src/app/api/email/route.ts:82-85 | a send that goes through answers `Email sent successfully` with the message id |
| ChatEditor.StatusError | src/components/DocumentChatEditor.tsx:79-81 | a non-ok answer's message is the body's `error`, else `Error <status>: <statusText>`, else `Unknown error` for an unreadable body |
| ChatEditor.ResultOf | src/components/DocumentChatEditor.tsx:59-113 | an update exactly for an ok, non-blank reply, with exactly the reply text; every other reply is a failure with its message |
| ChatEditor.BlankReplyFails | src/components/DocumentChatEditor.tsx:87-89 | a blank reply takes the error path |
| ChatEditor.AssistantReply | src/components/DocumentChatEditor.tsx:92-113 | the assistant's message is the update notice on success and the apology naming the error otherwise |
| ChatEditor.NoticeIsNotApology | src/components/DocumentChatEditor.tsx:92-113 | the update notice differs from every apology |
| ChatEditor.ChatEditor.constructor | src/components/DocumentChatEditor.tsx:22-31 | the log starts with exactly the assistant's greeting; input and error are empty and nothing is loading |
| ChatEditor.ChatEditor.SetInput | src/components/DocumentChatEditor.tsx:208 | typing sets the input and nothing else |
| ChatEditor.ChatEditor.Submit | src/components/DocumentChatEditor.tsx:42-57 | a blank input or a running request changes nothing; otherwise input and error clear, the untrimmed message is appended and loading starts |
| ChatEditor.ChatEditor.Complete | src/components/DocumentChatEditor.tsx:59-116 | exactly one assistant message is appended; the document update is exactly the reply text on success; the error is set otherwise; loading stops |
| PreviewPage.StrayPercentsEscaped | src/app/preview/page.tsx:28 | after the first rewrite every `%` starts a `%XX` escape |
| PreviewPage.NoPlusLeft | src/app/preview/page.tsx:29 | after the second rewrite no `+` remains |
| PreviewPage.PlusesEscaped | src/app/preview/page.tsx:29 | the second rewrite keeps every `%` an escape |
| PreviewPage.StrayPercentsKeepEscaped | src/app/preview/page.tsx:28 | the first rewrite leaves a well-escaped string as it is |
| PreviewPage.PlusesKeepPlain | src/app/preview/page.tsx:29 | the second rewrite leaves a string without `+` as it is |
| PreviewPage.FixUpIsEscaped | src/app/preview/page.tsx:27-29 | after the fix-up every `%` is followed by two hex digits and no `+` remains |
| PreviewPage.FixUpIdempotent | src/app/preview/page.tsx:27-29 | the fix-up is idempotent, and the identity on well-escaped strings without `+` |
| PreviewPage.SafeDecodeURIComponent | src/app/preview/page.tsx:15-38 | empty gives empty; otherwise the direct decode, else the decode of the fixed-up string, else the input unchanged |
| PreviewPage.DefaultTitle | src/app/preview/page.tsx:128 | the template id with hyphens turned to spaces, then ` - ` and the date |
| PreviewPage.SaveButtonLabelCases | src/app/preview/page.tsx:526-528 | outside a save: `Save Document` exactly without a user, `Save & Finalize` exactly for a user's draft, `Save to My Documents` exactly for a user's finalized document |
| PreviewPage.SavedRowIsFinal | src/app/preview/page.tsx:279-291 | a save finalizes the known document or inserts a new finalized one under the next id; every other row is unchanged |
| PreviewPage.PreviewPage.constructor | src/app/preview/page.tsx:43-57 | the page starts empty, as a draft with no id and no pending change |
| PreviewPage.PreviewPage.HandleContentChange | src/app/preview/page.tsx:81-85 | the content is set, and `contentChanged` is exactly whether it differs from the original |
| PreviewPage.PreviewPage.HandleTitleChange | src/app/preview/page.tsx:88-92 | the title is set, and `titleChanged` is exactly whether it differs from the original |
| PreviewPage.PreviewPage.AutoSave | src/app/preview/page.tsx:95-123 | a no-op without a user, an id or a change; on success the originals take the current values and the flags clear; on failure the flags stay; the stored row gets the auto-save update |
| PreviewPage.PreviewPage.Persist | src/app/preview/page.tsx:277-291 | finalizes the known id or creates a new finalized document, and the table becomes the saved table |
| PreviewPage.PreviewPage.HandleSave | src/app/preview/page.tsx:268-316 | without a user only the login prompt shows; a save finalizes or creates, then takes the id, clears the draft flag and both change flags; a failed save only raises the alert |
| MyDocumentsPage.OpenRouteCases | src/app/my-documents/page.tsx:46-54 | a draft opens in the preview whatever the mode; a finalized document opens in the AI editor only in `ai` mode, else in the viewer; the route ends with the id |
| MyDocumentsPage.OpenRouteKinds | src/app/my-documents/page.tsx:46-54 | different documents, or a draft and a finalized document, never share a route |
| MyDocumentsPage.WithoutId | src/app/my-documents/page.tsx:61-63 | filtering out an id keeps exactly the other documents |
| MyDocumentsPage.WithoutAbsentId | src/app/my-documents/page.tsx:61-63 | filtering out an id that is not listed changes nothing |
| MyDocumentsPage.CardPreview | src/app/my-documents/page.tsx:125 | the card shows at most the first 150 characters of the content, then `...` |
| MyDocumentsPage.TemplateLabel | src/app/my-documents/page.tsx:121 | the label keeps the id's length, turns every hyphen into a space and keeps every other character |
| MyDocumentsPage.MyDocumentsPage.constructor | src/app/my-documents/page.tsx:15-17 | both lists start empty and the page is loading |
| MyDocumentsPage.MyDocumentsPage.Load | src/app/my-documents/page.tsx:20-44 | without a user the page goes home; otherwise it loads the finalized documents with drafts excluded and the drafts separately |
| MyDocumentsPage.MyDocumentsPage.HandleDeleteDocument | src/app/my-documents/page.tsx:56-69 | an unconfirmed delete changes nothing; a successful one removes the id from its own list only; a failed one leaves both lists and raises the alert |
| RegisterPage.PasswordProblem | src/app/register/page.tsx:34-44 | no problem exactly when the passwords match and have at least 8 characters; a mismatch is reported as such |
| RegisterPage.MismatchReportedFirst | src/app/register/page.tsx:34-44 | a mismatch is reported before the length |
| RegisterPage.RegisterForm.constructor | src/app/register/page.tsx:14-20 | the form starts empty and not loading |
| RegisterPage.RegisterForm.Submit | src/app/register/page.tsx:29-46 | messages clear; a failed check sets its error and sends nothing; otherwise sign-up is requested with the form's email and password and loading starts |
| RegisterPage.RegisterForm.SignUpReturned | src/app/register/page.tsx:48-70 | an error sets its message; success sets the success message and clears the three fields; the page redirects exactly on a session; loading stops |
| Templates.GetTemplate | src/lib/templates.ts:118-120 | the template exactly for a catalogued id, and its `id` is the key; null otherwise |
| Templates.TemplatesArrayListsCatalogue | src/app/templates/page.tsx:22 | `Object.values(templates)` lists the catalogue, one entry per key |
| Templates.IdsMatchKeys | src/lib/templates.ts:17-116 | every entry's `id` equals its key |
| Templates.QuestionIdsDistinct | src/lib/templates.ts:17-116 | question ids are distinct within each template |
| Templates.ChoiceQuestionsHaveOptions | src/lib/templates.ts:17-116 | every select or radio question lists at least one option |
| Templates.OnlyAdditionalTermsOptional | src/lib/templates.ts:59-64 | `additionalTerms` is the only question not required |
| TemplateCategories.LookupOr | src/lib/template-categories.ts:26-28 | `map[key] \|\| default`: a present non-empty value, or the default for an absent key |
| TemplateCategories.GetTemplateCategory | src/lib/template-categories.ts:26-28 | the mapped category, or `miscellaneous` for an unmapped id |
| TemplateCategories.GetTemplateStyle | src/lib/template-categories.ts:31-38 | the id's style, or `from-accent/30 to-accent/5` by default |
| TemplateCategories.CategoryIdsDistinct | src/lib/template-categories.ts:4-16 | the tab ids are distinct and the first is `all` |
| TemplateCategories.CategoryOfCatalogue | src/lib/template-categories.ts:19-23 | terms-of-service is `legal`, a tab; privacy-policy is `privacy`, which is no tab |
| TemplateCategories.CategoryIsMappedOrDefault | src/lib/template-categories.ts:26-28 | every category is a mapped one or the default |
| TemplatesPage.FilterShown | src/app/templates/page.tsx:25-34 | the filter keeps exactly the shown templates, in their order |
| TemplatesPage.FilteredTemplates | src/app/templates/page.tsx:22-34 | the filtered list is a subsequence of the catalogue holding exactly the templates that match the search and the category |
| TemplatesPage.EmptyQueryMatchesAll | src/app/templates/page.tsx:27-28 | the empty query matches every template |
| TemplatesPage.AllTabListsCatalogue | src/app/templates/page.tsx:22-34 | the `all` tab with no query lists the whole catalogue |
| TemplatesPage.PrivacyPolicyOnlyUnderAll | src/lib/template-categories.ts:21 | no category tab but `all` shows the privacy policy |
| TemplatesPage.UploadCardOnAllTab | src/app/templates/page.tsx:37 | the upload card shows on the `all` tab with no query, and never on another tab |
| TemplatesPage.SelectTemplateRoute | src/app/templates/page.tsx:40-42 | selecting a template goes to `/onboarding/` followed by its id |
| TemplatesPage.SelectTemplateRouteInjective | src/app/templates/page.tsx:40-42 | different templates go to different routes |

## Left out

- **Network calls.** The calls to the generative language API, Supabase and the Resend mail
  service are not modelled. Their answers are inputs to the model: datatypes for the replies and
  booleans for store errors. Supabase client creation and auth (sign-in, Google sign-in, the auth
  context) sit outside the core.
- **Encodings.** `JSON.parse` and `JSON.stringify` are oracles. Neither is modelled. The same goes
  for UTF-8 stream decoding with `TextDecoder`/`TextEncoder` and for the base64 encoding of the
  attachment.
- **PDF output.** pdfkit layout, fonts and margins are abstracted to a renderer over the layout
  (title and content blocks).
- **Concurrency and timers.** None of these are modelled:
  - the background task that writes the stream;
  - the race between the draft lookup and the write;
  - React effect ordering;
  - the 2-second auto-save debounce and the status-clearing timeouts;
  - the 30-second chat timer, which throws inside a timer callback and never aborts the request.
  The chat timer is left out because it has no effect on state.
- **Preview page loading.** The page's initial document load and draft creation effect
  (`initializeDocument`) is not modelled. Only the handlers and pure helpers are.
- **Document ids** are natural numbers from a counter rather than database UUID strings. Routes
  write them in decimal.
- **Timestamps** are a monotone `nat` clock. Locale date formatting is a `date` string input to
  `DefaultTitle`.
- **Lookups.** Prototype-chain lookups such as `templates["constructor"]` are not modelled; maps
  are finite Dafny maps.
- **Case folding.** The search filter's `toLowerCase` is folded on ASCII letters only. The
  filename pattern `/[^a-z0-9]/gi` carries no `u` flag, so it too folds ASCII letters only, and
  that is exactly what `PdfExport.Sanitize` states.
- **Non-core files.** The rendering of the my-documents tabs and the rest of the pages' markup are
  not modelled. Neither are the non-core routes `update-document` and `generate-document`, whose
  imports do not resolve.
- MyDocumentsPage.MyDocumentsPage.HandleDeleteDocument: states only that a successful delete
  removes at least the id from the store. The exact set of removed rows is
  `DocumentRepository.DocumentStore.DeleteDocument`'s contract.
- SseRelay.TextFrame: states the frame's prefix, since the JSON quoting of the text is an oracle.
- EditRoute.EditedText: states its outcome only for an absent or empty candidate list. The
  remaining cases are `EditRoute.EditedTextIsFirstPart`, which is stated where extraction
  succeeds.
- TemplateCategories.LookupOr: says nothing for a key mapped to an empty string. No map of the
  source holds one.
- **Members of another JSON type.** A request member that is absent, `undefined` or `null` is
  `None`; a member of another JSON type is not modelled. The routes treat such members
  differently: in `generate` a number for `answers` reads every answer as missing (`N/A`); in
  `edit` a number for `content` is truthy and is sent; in `download` a number for `title` throws
  and gives 500; in `email` a number for `email` or `content` is truthy and passes the 400 check.
- **Characters outside the Basic Multilingual Plane.** The source counts UTF-16 code units, the
  model counts scalar values, so the two differ on astral characters such as emoji:
  `PdfExport.Sanitize` writes one `_` where the source writes two, `MyDocumentsPage.CardPreview`
  cuts its 150 characters at a different place, and `RegisterPage.PasswordProblem`'s length check
  of 8 counts each such character once rather than twice.
- DocumentRepository.DocumentPatch: has no `id` field, so a patch through `updateDocument` that
  changes a row's id, which `Partial<Document>` allows, is not modelled.
