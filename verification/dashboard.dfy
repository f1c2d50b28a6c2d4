/** The dashboard page: which screen shows (loading, error, the editor or
    the note grid), the editor/viewer state and its transitions, the
    confirmed delete, and which events invalidate the cached notes query.

    The session check and sign-out redirect are I/O over the identity
    library and are left out; the store calls are oracle outcomes. */
module Dashboard {
  import opened Wrappers
  import opened Js
  import opened Types
  import opened NotesApi
  import NoteCard
  import NoteDetail
  import NoteForm

  /** The page's state: the four React state variables, and the number of
      times the `['notes']` query has been invalidated. */
  datatype State = State(
    isCreating: bool,
    editingNote: Option<Note>,
    viewingNote: Option<Note>,
    isViewOpen: bool,
    invalidations: nat)

  const Initial := State(false, None, None, false, 0)

  /** What the editor area is doing, read off the state: an editing note
      wins over the creating flag, as the form receives `editingNote`. */
  datatype Mode = ListMode | CreateMode | EditMode(note: Note)

  function ModeOf(s: State): Mode {
    if s.editingNote.Some? then EditMode(s.editingNote.value)
    else if s.isCreating then CreateMode
    else ListMode
  }

  /** The state of the editor area. */
  function EditorState(s: State): (bool, Option<Note>) {
    (s.isCreating, s.editingNote)
  }

  /** The state of the details dialog. */
  function Dialog(s: State): (Option<Note>, bool) {
    (s.viewingNote, s.isViewOpen)
  }

  /** "New Note" / "Create Note". */
  function StartCreating(s: State): (r: State)
    ensures r.isCreating && r.editingNote == s.editingNote
    ensures ModeOf(s) == ListMode ==> ModeOf(r) == CreateMode
    ensures Dialog(r) == Dialog(s) && r.invalidations == s.invalidations
  {
    s.(isCreating := true)
  }

  /** `handleEditNote`. */
  function EditNote(s: State, note: Note): (r: State)
    ensures ModeOf(r) == EditMode(note) && !r.isCreating
    ensures Dialog(r) == Dialog(s) && r.invalidations == s.invalidations
  {
    s.(editingNote := Some(note), isCreating := false)
  }

  /** `handleViewNote`. */
  function ViewNote(s: State, note: Note): (r: State)
    ensures Dialog(r) == (Some(note), true)
    ensures EditorState(r) == EditorState(s) && r.invalidations == s.invalidations
  {
    s.(viewingNote := Some(note), isViewOpen := true)
  }

  /** The dialog's `onClose`: it closes, but the viewed note stays. */
  function CloseView(s: State): (r: State)
    ensures Dialog(r) == (s.viewingNote, false)
    ensures EditorState(r) == EditorState(s) && r.invalidations == s.invalidations
  {
    s.(isViewOpen := false)
  }

  /** `handleSaveComplete`: back to the list, and the notes are refetched. */
  function SaveComplete(s: State): (r: State)
    ensures ModeOf(r) == ListMode && !r.isCreating
    ensures r.invalidations == s.invalidations + 1
    ensures Dialog(r) == Dialog(s)
  {
    s.(isCreating := false, editingNote := None, invalidations := s.invalidations + 1)
  }

  /** `handleCancel`: back to the list, nothing refetched. */
  function Cancel(s: State): (r: State)
    ensures ModeOf(r) == ListMode && !r.isCreating
    ensures r.invalidations == s.invalidations
    ensures Dialog(r) == Dialog(s)
  {
    s.(isCreating := false, editingNote := None)
  }

  /** "Try Again" on the error screen refetches the notes. */
  function Retry(s: State): (r: State)
    ensures r.invalidations == s.invalidations + 1
    ensures EditorState(r) == EditorState(s) && Dialog(r) == Dialog(s)
  {
    s.(invalidations := s.invalidations + 1)
  }

  /** `handleDeleteNote`: the delete mutation runs with the given id only
      when the confirmation returns true. */
  function RequestDelete(id: string, confirmed: bool): (issued: Option<string>)
    ensures issued.Some? <==> confirmed
    ensures issued.Some? ==> issued.value == id
  {
    if confirmed then Some(id) else None
  }

  /** The delete mutation's `onSuccess`/`onError`: success invalidates the
      notes query; failure only reports. */
  function DeleteSettled(s: State, outcome: StoreOutcome): (r: (State, Toast))
    ensures outcome.StoreOk? ==> r.0.invalidations == s.invalidations + 1 && r.1.kind == SuccessToast
    ensures outcome.StoreRejected? ==> r.0 == s && r.1 == Toast(ErrorToast, DeleteFailedMessage(outcome.thrown))
    ensures EditorState(r.0) == EditorState(s) && Dialog(r.0) == Dialog(s)
  {
    match outcome
    case StoreOk =>
      (s.(invalidations := s.invalidations + 1), Toast(SuccessToast, DeletedMessage))
    case StoreRejected(t) =>
      (s, Toast(ErrorToast, DeleteFailedMessage(t)))
  }

  const DeletedMessage := "Your note has been successfully deleted"

  /** The failure toast: the error's message after a prefix for an `Error`,
      a fixed text otherwise. */
  function DeleteFailedMessage(t: Thrown): (m: string)
    ensures t.ErrorInstance? ==> m == "Failed to delete note: " + t.message
    ensures !t.ErrorInstance? ==> m == "Failed to delete note"
  {
    match t
    case ErrorInstance(m) => "Failed to delete note: " + m
    case OtherValue(_) => "Failed to delete note"
  }

  /** A delete from a card: ask, then (if confirmed) run the mutation whose
      outcome is `outcome`. Returns the state, the id deleted, the toast. */
  function Delete(s: State, id: string, confirmed: bool, outcome: StoreOutcome): (r: (State, Option<string>, Option<Toast>))
    ensures r.1.Some? <==> confirmed
    ensures r.1.Some? ==> r.1.value == id
    ensures r.0.invalidations == s.invalidations + (if confirmed && outcome.StoreOk? then 1 else 0)
    ensures EditorState(r.0) == EditorState(s) && Dialog(r.0) == Dialog(s)
    ensures r.2.Some? <==> confirmed
    ensures confirmed ==> r.2 == Some(DeleteSettled(s, outcome).1)
  {
    match RequestDelete(id, confirmed)
    case None => (s, None, None)
    case Some(deleting) =>
      var (t, toast) := DeleteSettled(s, outcome);
      (t, Some(deleting), Some(toast))
  }

  /** Runs the dialog's callbacks in order. */
  function ApplyDetail(s: State, acts: seq<NoteDetail.DetailAction>): State
    decreases |acts|
  {
    if acts == [] then s
    else
      var t := match acts[0]
        case CloseDialog => CloseView(s)
        case EditNote(n) => EditNote(s, n);
      ApplyDetail(t, acts[1..])
  }

  /** "Edit Note" in the dialog: the dialog closes (keeping its note) and
      the editor opens on that same note. */
  lemma DetailEditOpensEditor(s: State, note: Note)
    ensures var r := ApplyDetail(s, NoteDetail.EditButton(note));
      && Dialog(r) == (s.viewingNote, false) && ModeOf(r) == EditMode(note) && !r.isCreating
      && r.invalidations == s.invalidations
  {
    var acts := NoteDetail.EditButton(note);
    var closed := CloseView(s);
    assert ApplyDetail(s, acts) == ApplyDetail(closed, acts[1..]);
    assert acts[1..][1..] == [];
    assert ApplyDetail(closed, acts[1..]) == ApplyDetail(EditNote(closed, note), []);
  }

  /** The query behind the grid, as React Query reports it. */
  datatype Query = Query(isLoading: bool, isError: bool, error: Thrown, notes: Option<seq<Note>>)

  /** The editor area or the grid of cards (or the empty placeholder). */
  datatype MainView =
    | Editor(formNote: Option<Note>)
    | NoteGrid(cards: seq<NoteCard.CardView>)
    | NoNotes

  datatype Screen =
    | LoadingScreen
    | ErrorScreen(message: string)
    | MainScreen(main: MainView, detail: Option<NoteDetail.DetailView>)

  const LoadErrorFallback := "Something went wrong"

  /** The error screen's text: the error's message, or a fallback. */
  function LoadErrorMessage(t: Thrown): (m: string)
    ensures m != ""
    ensures t.ErrorInstance? && t.message != "" ==> m == t.message
    ensures t.OtherValue? && t.messageProperty.Some? && t.messageProperty.value != "" ==> m == t.messageProperty.value
    ensures !(t.ErrorInstance? && t.message != "") && !(t.OtherValue? && t.messageProperty.Some? && t.messageProperty.value != "") ==>
      m == LoadErrorFallback
  {
    match t
    case ErrorInstance(message) => OrElse(message, LoadErrorFallback)
    case OtherValue(Some(message)) => OrElse(message, LoadErrorFallback)
    case OtherValue(None) => LoadErrorFallback
  }

  /** What the page renders. Loading wins over an error, which wins over
      the main screen; the editor shows exactly when the page is creating
      or editing, and gets the editing note (None when creating); otherwise
      each note gets a card, in the order the query returned them. */
  function Render(s: State, q: Query): (scr: Screen)
    ensures q.isLoading ==> scr == LoadingScreen
    ensures !q.isLoading && q.isError ==> scr == ErrorScreen(LoadErrorMessage(q.error))
    ensures scr.MainScreen? <==> !q.isLoading && !q.isError
    ensures scr.MainScreen? ==> (scr.main.Editor? <==> ModeOf(s) != ListMode)
    ensures scr.MainScreen? && scr.main.Editor? ==>
      scr.main.formNote == (if ModeOf(s).EditMode? then Some(ModeOf(s).note) else None)
    ensures scr.MainScreen? && scr.main.NoteGrid? ==>
      q.notes.Some? && |scr.main.cards| == |q.notes.value| > 0 &&
      forall i :: 0 <= i < |q.notes.value| ==> scr.main.cards[i] == NoteCard.Render(q.notes.value[i])
    ensures scr.MainScreen? && ModeOf(s) == ListMode ==>
      (scr.main.NoteGrid? <==> q.notes.Some? && |q.notes.value| > 0)
    ensures scr.MainScreen? ==> scr.detail == NoteDetail.Render(s.viewingNote, s.isViewOpen)
  {
    if q.isLoading then LoadingScreen
    else if q.isError then ErrorScreen(LoadErrorMessage(q.error))
    else
      var main :=
        if s.isCreating || s.editingNote.Some? then Editor(s.editingNote)
        else if q.notes.Some? && |q.notes.value| > 0 then NoteGrid(seq(|q.notes.value|, i requires 0 <= i < |q.notes.value| => NoteCard.Render(q.notes.value[i])))
        else NoNotes;
      MainScreen(main, NoteDetail.Render(s.viewingNote, s.isViewOpen))
  }

  /** The form's `onSave`: a submit that saved returns to the list and
      refetches; one that did not leaves the editor open on the same note. */
  function AfterSubmit(s: State, o: NoteForm.SubmitOutcome): (r: State)
    ensures o.onSaveCalled ==> ModeOf(r) == ListMode && r.invalidations == s.invalidations + 1
    ensures !o.onSaveCalled ==> r == s
  {
    if o.onSaveCalled then SaveComplete(s) else s
  }

  /** A user event on the page. Card events carry the card action; a delete
      carries the confirmation answer and the mutation's outcome. */
  datatype Event =
    | NewNote
    | FromCard(note: Note, action: NoteCard.CardAction, confirmed: bool, outcome: StoreOutcome)
    | CloseDetail
    | EditFromDetail
    | FormSaved
    | FormCancelled
    | TryAgain

  /** Which events the rendered page offers: the grid's buttons only while
      the grid shows, the form's only while the editor shows, the dialog's
      only while it is open on a note. "Try Again" belongs to the error
      screen, which the query's state can bring up in any page state. */
  predicate Enabled(s: State, e: Event) {
    match e
    case NewNote => ModeOf(s) == ListMode
    case FromCard(_, _, _, _) => ModeOf(s) == ListMode
    case CloseDetail => s.isViewOpen && s.viewingNote.Some?
    case EditFromDetail => s.isViewOpen && s.viewingNote.Some?
    case FormSaved => ModeOf(s) != ListMode
    case FormCancelled => ModeOf(s) != ListMode
    case TryAgain => true
  }

  function Step(s: State, e: Event): State
    requires e.EditFromDetail? ==> s.viewingNote.Some?
  {
    match e
    case NewNote => StartCreating(s)
    case FromCard(note, action, confirmed, outcome) =>
      (match NoteCard.Act(note, action)
       case OnViewDetails(n) => ViewNote(s, n)
       case OnEdit(n) => EditNote(s, n)
       case OnDelete(id) => Delete(s, id, confirmed, outcome).0)
    case CloseDetail => ApplyDetail(s, NoteDetail.CloseButton())
    case EditFromDetail => ApplyDetail(s, NoteDetail.EditButton(s.viewingNote.value))
    case FormSaved => SaveComplete(s)
    case FormCancelled => Cancel(s)
    case TryAgain => Retry(s)
  }

  /** The page never creates and edits at once, and an open dialog always
      has a note to show. */
  predicate Valid(s: State) {
    && !(s.isCreating && s.editingNote.Some?)
    && (s.isViewOpen ==> s.viewingNote.Some?)
  }

  /** Whether an event invalidates the notes query. */
  predicate Invalidates(e: Event) {
    || e.FormSaved?
    || e.TryAgain?
    || (e.FromCard? && e.action == NoteCard.DeleteItem && e.confirmed && e.outcome.StoreOk?)
  }

  function InvalidatingCount(es: seq<Event>): nat {
    if es == [] then 0 else (if Invalidates(es[0]) then 1 else 0) + InvalidatingCount(es[1..])
  }

  /** Each event of `es` is offered by the page at the moment it happens. */
  predicate Feasible(s: State, es: seq<Event>)
    decreases |es|
  {
    es == [] || (Enabled(s, es[0]) && Feasible(Step(s, es[0]), es[1..]))
  }

  /** The state after a feasible sequence of events. */
  function Run(s: State, es: seq<Event>): State
    requires Feasible(s, es)
    decreases |es|
  {
    if es == [] then s else Run(Step(s, es[0]), es[1..])
  }

  /** One event keeps the page valid. */
  lemma StepKeepsValid(s: State, e: Event)
    requires Valid(s) && Enabled(s, e)
    ensures Valid(Step(s, e))
  {
    if e.EditFromDetail? {
      DetailEditOpensEditor(s, s.viewingNote.value);
    }
    if e.CloseDetail? {
      var acts := NoteDetail.CloseButton();
      assert acts[1..] == [];
      assert ApplyDetail(s, acts) == ApplyDetail(CloseView(s), []);
    }
  }

  /** One event invalidates the notes query once if it is a completed save
      or a confirmed, successful delete, and otherwise not at all. */
  lemma StepInvalidations(s: State, e: Event)
    requires Enabled(s, e)
    ensures Step(s, e).invalidations == s.invalidations + (if Invalidates(e) then 1 else 0)
  {
    if e.EditFromDetail? {
      DetailEditOpensEditor(s, s.viewingNote.value);
    }
    if e.CloseDetail? {
      var acts := NoteDetail.CloseButton();
      assert acts[1..] == [];
      assert ApplyDetail(s, acts) == ApplyDetail(CloseView(s), []);
    }
  }

  /** Starting valid, the page stays valid whatever the user does. */
  lemma {:induction false} RunKeepsValid(s: State, es: seq<Event>)
    requires Valid(s) && Feasible(s, es)
    ensures Valid(Run(s, es))
    decreases |es|
  {
    if es != [] {
      StepKeepsValid(s, es[0]);
      RunKeepsValid(Step(s, es[0]), es[1..]);
    }
  }

  /** Over any run, the notes query is invalidated exactly once per
      completed save, per confirmed, successful delete and per "Try Again". */
  lemma {:induction false} RunInvalidations(s: State, es: seq<Event>)
    requires Feasible(s, es)
    ensures Run(s, es).invalidations == s.invalidations + InvalidatingCount(es)
    decreases |es|
  {
    if es != [] {
      StepInvalidations(s, es[0]);
      RunInvalidations(Step(s, es[0]), es[1..]);
    }
  }
}
