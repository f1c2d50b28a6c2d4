/** The note editor: its seeding from the note being edited, the
    "Generate Summary" action, and the submit workflow that validates,
    looks up the signed-in user, regenerates the summary when the content
    changed, and creates or updates the note.

    Each collaborator (the session lookup, `summarizeText`, the store call)
    is an oracle parameter holding the outcome it would produce. The toast
    texts are kept because they are what the user sees of each path. */
module NoteForm {
  import opened Wrappers
  import opened Js
  import opened JsString
  import opened Types
  import opened NotesApi

  /** The editor's local state. */
  datatype FormState = FormState(title: string, content: string, isSummarizing: bool, isSaving: bool)

  /** What the session lookup `supabase.auth.getUser()` reports. */
  datatype AuthOutcome = SignedIn(userId: string) | SignedOut

  /** The update payload `{ title, content, summary }`. */
  datatype NotePatch = NotePatch(title: string, content: string, summary: Option<string>)

  /** The insert payload `{ title, content, user_id, summary }`. */
  datatype NoteInsert = NoteInsert(title: string, content: string, userId: string, summary: Option<string>)

  /** The store call a submit makes, with its exact payload. */
  datatype StoreCall =
    | Update(id: string, patch: NotePatch)
    | Create(insert: NoteInsert)
  {
    /** The summary the call hands to the store. */
    function PayloadSummary(): Option<string> {
      if Update? then patch.summary else insert.summary
    }
  }

  /** One collaborator call, for the ordered trace of a submit. */
  datatype Call = GetUser | Summarize(text: string) | Store(call: StoreCall)

  /** Why a submit did not end in `onSave`. */
  datatype SubmitError =
    | IncompleteForm
    | NotAuthenticated
    | SaveFailed(thrown: Thrown)

  /** Everything one submit does. The collaborators are called in the
      order of the fields (see Trace): the user lookup, then `summarizeText`
      with the given text, then the store call; followed by the toasts in
      order, whether `onSave` fired, the error if any, and the editor state
      after the submit. */
  datatype SubmitOutcome = SubmitOutcome(
    lookedUpUser: bool,
    summarized: Option<string>,
    stored: Option<StoreCall>,
    toasts: seq<Toast>,
    onSaveCalled: bool,
    error: Option<SubmitError>,
    form: FormState)

  /** What one run of `handleSummary` does: the text sent to
      `summarizeText` if it was called, the toast, and the return value
      (None for `undefined` and `null`). */
  datatype SummaryAttempt = SummaryAttempt(sent: Option<string>, toasts: seq<Toast>, summary: Option<string>)

  const MinSummaryLength := 50

  const TooShortMessage := "Please add more content to generate a summary"
  const SummaryReadyMessage := "Summary is generated and will be added to your note automatically."
  const SummaryFailedMessage := "Failed to generate summary. Please try again later"
  const IncompleteMessage := "Please fill in both title and content"
  const NotAuthenticatedMessage := "Not authenticated"
  const UpdatedMessage := "Note updated successfully"
  const CreatedMessage := "Note created successfully"
  const SaveFailedFallback := "Failed to save note"
  const UnknownErrorMessage := "An unknown error occurred."

  /** The editor's state when it mounts: the note's title and content, or
      empty fields for a new note. */
  function Seed(note: Option<Note>): (f: FormState)
    ensures !f.isSaving && !f.isSummarizing
    ensures note.Some? ==> f.title == note.value.title && f.content == note.value.content
    ensures note.None? ==> f.title == "" && f.content == ""
  {
    match note
    case Some(n) => FormState(n.title, n.content, false, false)
    case None => FormState("", "", false, false)
  }

  /** The effect that runs when the `note` prop changes: a note replaces
      the typed title and content by its own; a change to no note keeps
      what was typed. The busy flags are left alone. */
  function Reseed(f: FormState, note: Option<Note>): (r: FormState)
    ensures note.None? ==> r == f
    ensures note.Some? ==> r == Seed(note).(isSummarizing := f.isSummarizing, isSaving := f.isSaving)
  {
    match note
    case Some(n) => f.(title := n.title, content := n.content)
    case None => f
  }

  /** The toast text for a value caught by the submit's `catch`. */
  function CaughtMessage(t: Thrown): (m: string)
    ensures m != ""
    ensures t.ErrorInstance? && t.message != "" ==> m == t.message
    ensures t.ErrorInstance? && t.message == "" ==> m == SaveFailedFallback
    ensures !t.ErrorInstance? ==> m == UnknownErrorMessage
  {
    match t
    case ErrorInstance(message) => OrElse(message, SaveFailedFallback)
    case OtherValue(_) => UnknownErrorMessage
  }

  /** `handleSummary`: refuses content whose trimmed length is under 50
      without calling anything; otherwise calls `summarizeText` with the
      untrimmed content and returns its summary, or null when it rejects. */
  function HandleSummary(content: string, summariser: SummaryOutcome): (a: SummaryAttempt)
    ensures a.sent.None? <==> |Trim(content)| < MinSummaryLength
    ensures a.sent.Some? ==> a.sent.value == content
    ensures |a.toasts| == 1
    ensures a.toasts[0].kind == SuccessToast <==> a.sent.Some? && summariser.Summarized?
    ensures a.summary.Some? ==> a.sent.Some? && summariser == Summarized(a.summary)
    ensures a.sent.Some? && summariser.Summarized? ==> a.summary == summariser.summary
  {
    if |Trim(content)| < MinSummaryLength then
      SummaryAttempt(None, [Toast(ErrorToast, TooShortMessage)], None)
    else
      match summariser
      case Summarized(s) => SummaryAttempt(Some(content), [Toast(SuccessToast, SummaryReadyMessage)], s)
      case SummarizeRejected => SummaryAttempt(Some(content), [Toast(ErrorToast, SummaryFailedMessage)], None)
  }

  /** Both fields have something besides whitespace. */
  predicate Filled(title: string, content: string) {
    !Blank(title) && !Blank(content)
  }

  /** `content !== note?.content`: always true for a new note. */
  predicate ContentChanged(note: Option<Note>, content: string) {
    note.None? || note.value.content != content
  }

  /** The summary decision inside `handleSubmit`: start from the note's
      stored summary and, when the content changed, replace it by
      `(await handleSummary()) || undefined`. */
  function SummaryStep(note: Option<Note>, content: string, summariser: SummaryOutcome): (a: SummaryAttempt)
    ensures a.sent.Some? <==> ContentChanged(note, content) && |Trim(content)| >= MinSummaryLength
    ensures a.sent.Some? ==> a.sent.value == content
    ensures !ContentChanged(note, content) ==> a.summary == note.value.summary && a.toasts == []
    ensures ContentChanged(note, content) ==> a.summary.None? || a.summary.value != ""
    ensures ContentChanged(note, content) && |Trim(content)| < MinSummaryLength ==> a.summary.None?
    ensures ContentChanged(note, content) && summariser.SummarizeRejected? ==> a.summary.None?
    ensures ContentChanged(note, content) && |Trim(content)| >= MinSummaryLength && summariser.Summarized? ==>
      a.summary == TruthyOrAbsent(summariser.summary)
  {
    if note.Some? && content == note.value.content then
      SummaryAttempt(None, [], note.value.summary)
    else
      var a := HandleSummary(content, summariser);
      a.(summary := TruthyOrAbsent(a.summary))
  }

  /** The store call inside `handleSubmit`: an update of a note whose id is
      non-empty, else a create for the signed-in user. */
  function StoreStep(note: Option<Note>, title: string, content: string, userId: string,
                     summary: Option<string>): (c: StoreCall)
    ensures c.PayloadSummary() == summary
    ensures note.Some? && note.value.id != "" ==>
      c.Update? && c.id == note.value.id && c.patch.title == title && c.patch.content == content
    ensures !(note.Some? && note.value.id != "") ==>
      c.Create? && c.insert.title == title && c.insert.content == content && c.insert.userId == userId
  {
    if note.Some? && note.value.id != "" then Update(note.value.id, NotePatch(title, content, summary))
    else Create(NoteInsert(title, content, userId, summary))
  }

  /** `handleSubmit`. Returns what the editor does for one submit of
      `title`/`content` while editing `note` (None for a new note). */
  function Submit(note: Option<Note>, title: string, content: string,
                  auth: AuthOutcome, summariser: SummaryOutcome, persist: StoreOutcome): (o: SubmitOutcome)
    // validation gate: nothing is called and onSave does not fire
    ensures !Filled(title, content) ==>
      !o.lookedUpUser && o.summarized.None? && o.stored.None? && !o.onSaveCalled && o.error == Some(IncompleteForm)
    // the user lookup precedes everything else; signed out, nothing else is called
    ensures o.summarized.Some? || o.stored.Some? ==> o.lookedUpUser
    ensures Filled(title, content) && auth.SignedOut? ==>
      o.lookedUpUser && o.summarized.None? && o.stored.None? && !o.onSaveCalled && o.error == Some(NotAuthenticated)
    // one store call exactly when validation and auth pass
    ensures o.stored.Some? <==> Filled(title, content) && auth.SignedIn?
    // summarisation is attempted, with the untrimmed content, iff it changed and is long enough
    ensures o.summarized.Some? <==>
      Filled(title, content) && auth.SignedIn? && ContentChanged(note, content) && |Trim(content)| >= MinSummaryLength
    ensures o.summarized.Some? ==> o.summarized.value == content
    // update a note that has an id, else create; title and content go untrimmed
    ensures o.stored.Some? && note.Some? && note.value.id != "" ==>
      var c := o.stored.value;
      c.Update? && c.id == note.value.id && c.patch.title == title && c.patch.content == content
    ensures o.stored.Some? && !(note.Some? && note.value.id != "") ==>
      var c := o.stored.value;
      c.Create? && c.insert.title == title && c.insert.content == content && c.insert.userId == auth.userId
    // the summary handed over
    ensures o.stored.Some? && !ContentChanged(note, content) ==>
      o.stored.value.PayloadSummary() == note.value.summary
    ensures o.stored.Some? && ContentChanged(note, content) ==>
      o.stored.value.PayloadSummary().None? || o.stored.value.PayloadSummary().value != ""
    ensures o.stored.Some? && ContentChanged(note, content) && |Trim(content)| < MinSummaryLength ==>
      o.stored.value.PayloadSummary().None?
    ensures o.stored.Some? && ContentChanged(note, content) && summariser.SummarizeRejected? ==>
      o.stored.value.PayloadSummary().None?
    ensures o.summarized.Some? && o.stored.Some? && summariser.Summarized? ==>
      o.stored.value.PayloadSummary() == TruthyOrAbsent(summariser.summary)
    // onSave fires once exactly when the store call succeeds; otherwise an error
    ensures o.onSaveCalled <==> Filled(title, content) && auth.SignedIn? && persist.StoreOk?
    ensures o.error.None? <==> o.onSaveCalled
    ensures Filled(title, content) && auth.SignedIn? && persist.StoreRejected? ==>
      o.error == Some(SaveFailed(persist.thrown))
    // the last toast reports the outcome
    ensures |o.toasts| > 0 && (o.toasts[|o.toasts| - 1].kind == SuccessToast <==> o.onSaveCalled)
    ensures Filled(title, content) && auth.SignedIn? && persist.StoreRejected? ==>
      o.toasts[|o.toasts| - 1] == Toast(ErrorToast, CaughtMessage(persist.thrown))
    // the typed input stays, and both busy flags end cleared
    ensures o.form == FormState(title, content, false, false)
  {
    var form := FormState(title, content, false, false);
    if Trim(title) == [] || Trim(content) == [] then
      SubmitOutcome(false, None, None, [Toast(ErrorToast, IncompleteMessage)], false, Some(IncompleteForm), form)
    else
      match auth
      case SignedOut =>
        var message := CaughtMessage(ErrorInstance(NotAuthenticatedMessage));
        SubmitOutcome(true, None, None, [Toast(ErrorToast, message)], false, Some(NotAuthenticated), form)
      case SignedIn(userId) =>
        var attempt := SummaryStep(note, content, summariser);
        var call := StoreStep(note, title, content, userId, attempt.summary);
        match persist
        case StoreOk =>
          var done := if call.Update? then UpdatedMessage else CreatedMessage;
          SubmitOutcome(true, attempt.sent, Some(call), attempt.toasts + [Toast(SuccessToast, done)], true, None, form)
        case StoreRejected(t) =>
          var failed := Toast(ErrorToast, CaughtMessage(t));
          SubmitOutcome(true, attempt.sent, Some(call), attempt.toasts + [failed], false, Some(SaveFailed(t)), form)
  }

  /** The collaborator calls of a submit, in the order they are made. */
  function Trace(o: SubmitOutcome): (calls: seq<Call>)
    ensures |calls| <= 3
    ensures calls != [] <==> o.lookedUpUser
    ensures o.lookedUpUser ==>
      |calls| == 1 + (if o.summarized.Some? then 1 else 0) + (if o.stored.Some? then 1 else 0)
    ensures calls != [] ==> calls[0] == GetUser
    ensures o.lookedUpUser && o.stored.Some? ==> calls[|calls| - 1] == Store(o.stored.value)
    ensures o.lookedUpUser && o.summarized.Some? ==> |calls| >= 2 && calls[1] == Summarize(o.summarized.value)
  {
    (if o.lookedUpUser then [GetUser] else [])
    + (if o.lookedUpUser && o.summarized.Some? then [Summarize(o.summarized.value)] else [])
    + (if o.lookedUpUser && o.stored.Some? then [Store(o.stored.value)] else [])
  }

  /** The "Generate Summary" button is enabled on the untrimmed length:
      never while busy, and when idle exactly for 50 characters or more,
      so in particular whenever the trimmed content has 50. */
  function GenerateEnabled(f: FormState): (b: bool)
    ensures b ==> !f.isSaving && !f.isSummarizing
    ensures !f.isSaving && !f.isSummarizing ==> (b <==> |f.content| >= MinSummaryLength)
    ensures !f.isSaving && !f.isSummarizing && |Trim(f.content)| >= MinSummaryLength ==> b
  {
    !f.isSaving && !f.isSummarizing && |f.content| >= MinSummaryLength
  }

  /** What a click on "Generate Summary" leaves behind: the editor state,
      the text sent to `summarizeText` if any, and the toast. The button's
      handler is `handleSummary` itself, so the summary it returns goes
      nowhere: the form keeps no summary field. */
  datatype ClickOutcome = ClickOutcome(form: FormState, sent: Option<string>, toasts: seq<Toast>)

  /** A click on "Generate Summary": the typed title and content stay, the
      summary request goes out under the same rule as in `handleSummary`,
      and the success toast is shown although nothing is kept. */
  function GenerateClick(f: FormState, summariser: SummaryOutcome): (c: ClickOutcome)
    ensures c.form.title == f.title && c.form.content == f.content && c.form.isSaving == f.isSaving
    ensures c.sent.None? <==> |Trim(f.content)| < MinSummaryLength
    ensures c.sent.None? ==> c.form == f
    ensures c.sent.Some? ==> c.sent.value == f.content && !c.form.isSummarizing
    ensures |c.toasts| == 1
    ensures c.toasts[0] == Toast(SuccessToast, SummaryReadyMessage) <==> c.sent.Some? && summariser.Summarized?
  {
    var a := HandleSummary(f.content, summariser);
    ClickOutcome(if a.sent.Some? then f.(isSummarizing := false) else f, a.sent, a.toasts)
  }

  /** A click's summary is never stored. Whatever the click's request
      returned, the next submit does exactly what it would have done
      without the click: with the content unchanged it stores the note's
      old summary, and with changed content it asks `summarizeText` again. */
  lemma ClickedSummaryIsDiscarded(note: Option<Note>, f: FormState, clicked: SummaryOutcome,
                                  auth: AuthOutcome, summariser: SummaryOutcome, persist: StoreOutcome)
    ensures var c := GenerateClick(f, clicked);
      Submit(note, c.form.title, c.form.content, auth, summariser, persist)
        == Submit(note, f.title, f.content, auth, summariser, persist)
    ensures var o := Submit(note, GenerateClick(f, clicked).form.title, GenerateClick(f, clicked).form.content,
                            auth, summariser, persist);
      Filled(f.title, f.content) && auth.SignedIn? && note.Some? && f.content == note.value.content ==>
        o.stored.Some? && o.stored.value.PayloadSummary() == note.value.summary
    ensures var o := Submit(note, GenerateClick(f, clicked).form.title, GenerateClick(f, clicked).form.content,
                            auth, summariser, persist);
      Filled(f.title, f.content) && auth.SignedIn? && ContentChanged(note, f.content)
        && GenerateClick(f, clicked).sent.Some? ==>
        o.summarized == Some(f.content)
  {
  }

  /** Whenever `handleSummary` would go ahead, the button is enabled (when
      the editor is idle): the trimmed length never exceeds the length. */
  lemma GenerateEnabledWhenSummaryAllowed(f: FormState)
    requires !f.isSaving && !f.isSummarizing
    requires |Trim(f.content)| >= MinSummaryLength
    ensures GenerateEnabled(f)
  {
  }

  /** The converse fails: fifty spaces enable the button, yet clicking it
      is refused without a call. */
  lemma GenerateEnabledButRefused(summariser: SummaryOutcome)
    ensures var f := FormState("", seq(50, _ => ' '), false, false);
      GenerateEnabled(f) && HandleSummary(f.content, summariser).sent.None?
  {
    var spaces: string := seq(50, _ => ' ');
    assert Blank(spaces);
  }
}
