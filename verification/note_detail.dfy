/** The note details dialog: nothing for a null note, otherwise the title,
    the content as one paragraph per line, the AI summary when there is a
    non-empty one, and Close/Edit buttons. The formatted date is left out. */
module NoteDetail {
  import opened Wrappers
  import opened Js
  import opened JsString
  import opened Types

  const LineBreak := '\n'

  /** What the dialog shows. */
  datatype DetailView = DetailView(
    title: string,
    paragraphs: seq<string>,
    summary: Option<string>,
    isOpen: bool)

  /** `content.split('\n')`: one paragraph per line. There is one more
      paragraph than line breaks, none contains a line break, and joining
      them with line breaks gives back the content. */
  function Paragraphs(content: string): (ps: seq<string>)
    ensures |ps| == multiset(content)[LineBreak] + 1
    ensures forall i :: 0 <= i < |ps| ==> LineBreak !in ps[i]
    ensures Join(ps, LineBreak) == content
  {
    JoinSplit(content, LineBreak);
    Split(content, LineBreak)
  }

  /** The rendered dialog; a null note renders nothing. */
  function Render(note: Option<Note>, isOpen: bool): (v: Option<DetailView>)
    ensures v.None? <==> note.None?
    ensures v.Some? ==> v.value.title == note.value.title && v.value.isOpen == isOpen
    ensures v.Some? ==> Join(v.value.paragraphs, LineBreak) == note.value.content
    ensures v.Some? ==> |v.value.paragraphs| == multiset(note.value.content)[LineBreak] + 1
    ensures v.Some? ==> (v.value.summary.Some? <==> note.value.summary.Some? && note.value.summary.value != "")
    ensures v.Some? && v.value.summary.Some? ==> v.value.summary == note.value.summary
  {
    match note
    case None => None
    case Some(n) => Some(DetailView(n.title, Paragraphs(n.content), TruthyOrAbsent(n.summary), isOpen))
  }

  /** The callbacks the dialog's buttons invoke, in order. */
  datatype DetailAction = CloseDialog | EditNote(note: Note)

  /** "Close", and dismissing the dialog, only close it. */
  function CloseButton(): (acts: seq<DetailAction>)
    ensures forall i :: 0 <= i < |acts| ==> acts[i] == CloseDialog
    ensures |acts| == 1
  {
    [CloseDialog]
  }

  /** "Edit Note" closes the dialog first, then asks to edit the same note. */
  function EditButton(note: Note): (acts: seq<DetailAction>)
    ensures |acts| == 2 && acts[0] == CloseDialog
    ensures acts[|acts| - 1] == EditNote(note)
  {
    [CloseDialog, EditNote(note)]
  }
}
