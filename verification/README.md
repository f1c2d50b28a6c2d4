# Notes app: a Dafny model of the note editor, the summary relay and the dashboard

The notes app lets a signed-in user create, edit, view and delete short
notes, and asks a hosted summarisation model for a summary of a note's
content. This project models the parts of it that make decisions:

- the **note editor** (`NoteForm`): seeding from the note being edited, the
  validation gate, the user lookup, the decision to regenerate the summary
  when the content changed, the create-or-update call with its exact payload,
  and which toasts appear and whether `onSave` fires;
- the **summarisation relay** `POST /api/summarize` (`SummarizeRoute`): input
  validation with JavaScript truthiness, and the classification of the
  upstream reply into 400, 503, 200 or 500; plus `summarizeText`
  (`NotesApi.SummarizeText`), which turns the relay's response into what the
  editor sees;
- the **display helpers**: the card preview (`NoteCard`), the details dialog's
  paragraphs and summary visibility (`NoteDetail`);
- the **dashboard** (`Dashboard`): the creating/editing/viewing state and its
  transitions, the confirmed delete, which events invalidate the cached notes
  query, and which screen shows.

Everything is a pure function over immutable datatypes. Each collaborator the
code awaits (the session lookup, `summarizeText`, the store calls, the
upstream model, `window.confirm`) is a parameter holding the outcome it would
produce. A value thrown into a `catch` is `Js.Thrown`: an `Error` instance with
its message, or another value (a plain store error object) with an optional
`message` property. Strings are `seq<char>`. JavaScript's `length` and
`substring` count UTF-16 code units; a Dafny `char` cannot hold a lone
surrogate, so the model counts one unit per character and is faithful for
text inside the Basic Multilingual Plane (see "Left out").
`JsString.Trim` removes the ECMAScript WhiteSpace and LineTerminator code
points from both ends, as `String.prototype.trim` does.

Modules: `Wrappers` (Option), `Js` (values, truthiness, thrown values),
`JsString` (trim, split, join), `Types` (Note, Toast), `SummarizeRoute`,
`NotesApi`, `NoteForm`, `NoteCard`, `NoteDetail`, `Dashboard`, and `Workflow`
(properties that span components).

Behaviour of the code worth knowing, as the model states it:

- After a regeneration that was skipped (trimmed content under 50) or
  failed, the store receives `summary: undefined`, not the note's earlier
  summary (`NoteForm.SummaryStep`). Whether the store then keeps the old
  column value depends on how the client serialises `undefined`; that code
  is not part of this model.
- An upstream HTTP 503 (the model host's "loading" reply) is rejected by
  axios, so the handler answers 500
  (`SummarizeRoute.UpstreamUnavailableIsInternalError`). The 503 branch is
  reached only by an error object in a 2xx reply.
- An unparseable request body, or a body that is JSON `null`, throws inside
  the `try`, so the handler answers 500, not 400.
- The "Generate Summary" button checks the untrimmed length against 50,
  while `handleSummary` checks the trimmed length
  (`NoteForm.GenerateEnabledButRefused`). Whitespace-only text passes the
  relay's own validation.
- The summary a "Generate Summary" click fetches is discarded, although
  its toast says it will be added to the note; the next submit fetches
  again when the content changed (`NoteForm.ClickedSummaryIsDiscarded`).

## Model

| member | source | states |
|---|---|---|
| JsString.Trim | src/components/note/note-form.tsx:53 | `trim()` yields "" exactly when every character is whitespace, and is never longer than its input |
| JsString.TrimShape | src/components/note/note-form.tsx:32 | the trimmed text is the slice after the leading whitespace; only whitespace is dropped at either end, and it neither starts nor ends with whitespace |
| JsString.Split | src/components/note/note-detail.tsx:28 | `split('\n')` yields one more piece than there are separators, and no piece contains the separator |
| JsString.JoinSplit | src/components/note/note-detail.tsx:28 | joining the pieces of a split with the separator gives back the original string |
| JsString.SplitJoin | src/components/note/note-detail.tsx:28 | splitting the join of separator-free pieces gives back the pieces, so split and join are inverses |
| SummarizeRoute.FirstSummary | src/app/api/summarize/route.ts:36 | the 200 summary is the first element's non-empty `summary_text`, else "No summary generated"; it is never empty and later elements never matter |
| SummarizeRoute.Classify | src/app/api/summarize/route.ts:20-46 | 503 carrying the same error exactly for an error object in an accepted reply; 200 exactly for an accepted array, with the first element's summary as `FirstSummary` states, or another object, with "No summary generated"; every other outcome is 500 "Failed to summarize text" |
| SummarizeRoute.Post | src/app/api/summarize/route.ts:9-47 | 400 "Invalid input. Text is required." exactly when the parsed `text` is not a non-empty string, with no upstream call; any non-empty string is forwarded unchanged; an unparseable or `null` body gives 500; a forwarded request gets the classification of the upstream outcome |
| SummarizeRoute.UpstreamUnavailableIsInternalError | src/app/api/summarize/route.ts:20-46 | an upstream reply with HTTP 503 and an error object yields 500, not 503 |
| SummarizeRoute.WhitespaceTextIsForwarded | src/app/api/summarize/route.ts:13-22 | any non-empty whitespace-only text passes validation, is forwarded as it is, and gets the classification of the upstream outcome |
| NotesApi.SummarizeText | src/lib/api.ts:59-67 | `summarizeText` resolves exactly on a 2xx response, with the response's summary, and rejects otherwise |
| NoteForm.Seed | src/components/note/note-form.tsx:19-22 | the editor opens with the note's title and content, or empty fields for a new note, and with both busy flags off |
| NoteForm.Reseed | src/components/note/note-form.tsx:24-29 | a new note replaces the typed title and content as `Seed` would; a change to no note keeps what was typed; the busy flags are untouched |
| NoteForm.CaughtMessage | src/components/note/note-form.tsx:78-83 | a caught `Error` shows its message, or "Failed to save note" when the message is empty; any other thrown value shows "An unknown error occurred." |
| NoteForm.HandleSummary | src/components/note/note-form.tsx:31-48 | content whose trimmed length is under 50 is refused with no call; otherwise `summarizeText` gets the untrimmed content, and the result is its summary, or absent when it rejects; exactly one toast, a success only when a summary came back |
| Js.TruthyOrAbsent | src/components/note/note-form.tsx:66 | the `undefined` fallback keeps a present non-empty summary unchanged and turns an empty one into absent |
| NoteForm.SummaryStep | src/components/note/note-form.tsx:63-67 | unchanged content carries the stored summary over as it is, absent included; changed content is summarised iff its trimmed length is at least 50, and a short or failed attempt leaves no summary |
| NoteForm.GenerateEnabled | src/components/note/note-form.tsx:127 | the button is disabled while saving or summarising, and when idle enabled exactly for 50 characters or more, in particular whenever the trimmed content has 50 |
| NoteForm.GenerateClick | src/components/note/note-form.tsx:31-48 | a click keeps the typed title and content, sends the untrimmed content iff its trimmed length is at least 50, and shows one toast, the "will be added" success exactly when a summary came back |
| NoteForm.ClickedSummaryIsDiscarded | src/components/note/note-form.tsx:126 | whatever the click's request returned, the next submit behaves as without the click: unchanged content stores the note's old summary, changed content is summarised again |
| NoteForm.Trace | src/components/note/note-form.tsx:58-75 | a submit's calls are exactly the ones it made: the user lookup first, then the summary request if one was made, then the store call if one was made, and nothing else |
| NoteForm.StoreStep | src/components/note/note-form.tsx:69-75 | a note with a non-empty id is updated under that id; anything else is created for the signed-in user; title, content and summary are passed on unchanged |
| NoteForm.Submit | src/components/note/note-form.tsx:50-87 | blank title or content: no call, no `onSave`; signed out: only the user lookup; otherwise exactly one store call, preceded by a summary request iff the content changed and trims to 50 or more; the stored summary follows the rules of SummaryStep; `onSave` fires iff the store call succeeds, an error is reported otherwise; the typed input stays and both busy flags end false; a rejected store call ends with an error toast carrying `CaughtMessage` of what was thrown |
| NoteForm.GenerateEnabledWhenSummaryAllowed | src/components/note/note-form.tsx:127 | whenever `handleSummary` would go ahead, the idle editor's "Generate Summary" button is enabled |
| NoteForm.GenerateEnabledButRefused | src/components/note/note-form.tsx:127 | fifty spaces enable the button, yet `handleSummary` refuses them without calling anything |
| NoteCard.Truncate | src/components/note/note-card.tsx:26-28 | content of at most 100 characters is shown whole; longer content is cut to 103 characters ending in "..."; the preview begins with the first min(length, 100) characters |
| NoteCard.TruncateBoundary | src/components/note/note-card.tsx:26 | exactly 100 characters are not cut, 101 are |
| NoteCard.TruncateIdempotent | src/components/note/note-card.tsx:26-28 | previewing a preview changes nothing |
| NoteCard.Render | src/components/note/note-card.tsx:26-34 | the card shows the note's own title; content of up to 100 characters whole, longer content as its first 100 followed by "..." |
| NoteCard.Act | src/components/note/note-card.tsx:42-69 | Delete hands over exactly the note's id; View and "Read more" open the details and Edit edits, each with the note unchanged |
| NoteDetail.Paragraphs | src/components/note/note-detail.tsx:28 | one paragraph per line: line breaks plus one paragraphs, none containing a line break, joining back to the content |
| NoteDetail.CloseButton | src/components/note/note-detail.tsx:42-43 | "Close" and dismissing the dialog only close it |
| NoteDetail.EditButton | src/components/note/note-detail.tsx:45-48 | "Edit Note" closes the dialog first and then asks to edit the same note |
| NoteDetail.Render | src/components/note/note-detail.tsx:14-38 | a null note renders nothing; otherwise the dialog shows the title, paragraphs that join back to the content, and the summary under the visibility rule |
| Dashboard.StartCreating | src/app/dashboard/page.tsx:158-159 | from the grid, "New Note" opens a blank editor, leaving the dialog and the query alone |
| Dashboard.EditNote | src/app/dashboard/page.tsx:85-88 | the editor edits exactly the given note and is no longer creating; the dialog and the query are untouched |
| Dashboard.ViewNote | src/app/dashboard/page.tsx:90-93 | the dialog opens on the given note; the editor and the query are untouched |
| Dashboard.CloseView | src/app/dashboard/page.tsx:190 | closing only closes the dialog; the viewed note stays |
| Dashboard.SaveComplete | src/app/dashboard/page.tsx:95-100 | back to the grid and the notes query is invalidated once |
| Dashboard.Cancel | src/app/dashboard/page.tsx:102-105 | back to the grid without invalidating the notes query |
| Dashboard.Retry | src/app/dashboard/page.tsx:122 | "Try Again" invalidates the notes query and changes nothing else |
| Dashboard.RequestDelete | src/app/dashboard/page.tsx:79-83 | the delete runs iff the confirmation returns true, and with exactly the given id |
| Dashboard.DeleteSettled | src/app/dashboard/page.tsx:64-77 | a successful delete invalidates the notes query and shows a success toast; a failed one changes no state and shows the `DeleteFailedMessage` of the error |
| Dashboard.Delete | src/app/dashboard/page.tsx:64-83 | a delete request is made iff confirmed, with that id; the query is invalidated iff it was confirmed and succeeded; a confirmed delete shows the toast of its settled outcome, none otherwise |
| Dashboard.LoadErrorMessage | src/app/dashboard/page.tsx:121 | the error screen shows the error's own non-empty `message`, whether it is an `Error` or another value with a `message`, and "Something went wrong" otherwise |
| Dashboard.DeleteFailedMessage | src/app/dashboard/page.tsx:70-75 | a failed delete of an `Error` shows "Failed to delete note: " followed by its message; any other thrown value shows "Failed to delete note" |
| Dashboard.Render | src/app/dashboard/page.tsx:107-192 | loading wins over the error screen, which wins over the main screen; the editor shows iff creating or editing and gets the editing note, absent when creating; otherwise the grid shows iff notes were fetched and there is at least one, each note getting its card in order, and the "No notes yet" placeholder shows otherwise; the error screen carries `LoadErrorMessage` of the error; the dialog renders the viewed note |
| Dashboard.AfterSubmit | src/app/dashboard/page.tsx:148-152 | a submit that called `onSave` returns to the grid and invalidates once; any other leaves the page as it was |
| Dashboard.DetailEditOpensEditor | src/components/note/note-detail.tsx:45-48 | the dialog's Edit closes the dialog, keeping its note, and then opens the editor on that same note |
| Dashboard.StepKeepsValid | src/app/dashboard/page.tsx:85-105 | no offered event makes the page both create and edit, or open the dialog without a note |
| Dashboard.StepInvalidations | src/app/dashboard/page.tsx:64-122 | an event invalidates the notes query once if it is a completed save, a confirmed successful delete or "Try Again", otherwise not |
| Dashboard.RunKeepsValid | src/app/dashboard/page.tsx:85-105 | starting valid, any sequence of offered events keeps the page valid |
| Dashboard.RunInvalidations | src/app/dashboard/page.tsx:64-122 | over any run, the query is invalidated exactly once per completed save, per confirmed successful delete and per "Try Again" |
| Workflow.EditorTextPassesRelay | src/app/api/summarize/route.ts:13-22 | content the editor agrees to summarise always passes the relay's validation and is forwarded unchanged |
| Workflow.RegeneratedSummaryThroughRelay | src/components/note/note-form.tsx:63-75 | through the relay, a regenerated summary reaches the store iff the upstream reply was accepted and its body an array or another object, and it is then non-empty |
| Workflow.CreateScenario | src/components/note/note-form.tsx:58-77 | creating "Groceries" with sixty characters: user lookup, one summary request, one create carrying that summary, then `onSave` |
| Workflow.TitleOnlyEdit | src/components/note/note-form.tsx:63-71 | editing only the title makes no summary request and updates with the stored summary, absent or not |
| Workflow.SubmitThenDashboard | src/components/note/note-form.tsx:77-86 | a failed save leaves the editor open on the same note with the typed input; the page returns to the grid iff `onSave` fired |

## Left out

- The store wrappers in `src/lib/api.ts` (`getNotes`, `getNoteById`, `createNote`, `updateNote`, `deleteNote`) are outcome oracles (`NotesApi.StoreOutcome`). The `updated_at` override and the ordering of the list are store-side behaviour.
- `summarizeText` rewraps every failure as one generic error. The editor ignores it, so it is the bare tag `SummarizeRejected`.
- The session checks and redirects in `src/app/page.tsx`, `src/app/dashboard/page.tsx` and `src/app/auth/callback/page.tsx` are I/O over the identity library. The editor's user lookup is the `AuthOutcome` oracle. A lookup that rejects is not modelled.
- Date formatting through date-fns in the card and the dialog is a foreign library call.
- Toast rendering, spinners, React render scheduling and how `window.confirm` is drawn are UI. Toasts are recorded as kind and text, and the confirmation is a boolean.
- The transient `isSummarizing`/`isSaving` values while the awaits are pending are not modelled. Only their final values are.
- Double-submit prevention through disabled buttons and inputs is UI timing, and a sequential model cannot express it.
- The relay's upstream request headers and credential are not modelled. Its logging of the credential on failure is a side effect and a defect.
- SummarizeRoute.Classify: the upstream `error` value and the `summary_text` values are taken to be strings. A non-string truthy `summary_text`, which the code would pass through as the summary, is not modelled.
- Characters outside the Basic Multilingual Plane (an emoji, say) are two UTF-16 code units in JavaScript but cannot be one Dafny `char` per unit. `NoteCard.Truncate`, and the 50-character checks in `NoteForm.HandleSummary` and `NoteForm.GenerateEnabled`, are therefore modelled only for text inside the Basic Multilingual Plane; `substring(0, 100)` splitting a surrogate pair is not modelled.
- JavaScript BigInt values for `text` are not modelled. Numbers are reals, plus NaN.
- The dashboard's query lifecycle (the fetch and refetch completing) is not modelled. `Dashboard.Render` takes the query's state as input, and invalidations are counted.
