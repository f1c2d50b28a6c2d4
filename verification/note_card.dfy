/** One note in the dashboard grid: its title, its content cut to a
    preview, and the menu and footer actions that hand the note (or its id)
    to the dashboard. The formatted date is left out. */
module NoteCard {
  import opened Types

  const PreviewLength := 100
  const Ellipsis := "..."

  /** The preview text: content longer than 100 characters is cut to its
      first 100 followed by "...", shorter content is shown as it is. */
  function Truncate(content: string): (r: string)
    ensures |content| <= PreviewLength ==> r == content
    ensures |content| > PreviewLength ==> |r| == PreviewLength + |Ellipsis| && r[PreviewLength..] == Ellipsis
    ensures |r| <= PreviewLength + |Ellipsis|
    ensures var n := if |content| < PreviewLength then |content| else PreviewLength;
      n <= |r| && r[..n] == content[..n]
  {
    if |content| > PreviewLength then content[..PreviewLength] + Ellipsis else content
  }

  /** What a card shows. */
  datatype CardView = CardView(title: string, preview: string)

  /** A note's card: its own title and a preview that keeps content of up
      to 100 characters whole. */
  function Render(note: Note): (v: CardView)
    ensures v.title == note.title
    ensures |note.content| <= PreviewLength ==> v.preview == note.content
    ensures |v.preview| <= PreviewLength + |Ellipsis|
    ensures |note.content| > PreviewLength ==>
      |v.preview| == PreviewLength + |Ellipsis| && v.preview == note.content[..PreviewLength] + Ellipsis
  {
    CardView(note.title, Truncate(note.content))
  }

  /** The card's clickable actions. */
  datatype CardAction = ViewItem | EditItem | DeleteItem | ReadMore

  /** The callback a card action invokes, with its argument. */
  datatype Dispatch = OnViewDetails(note: Note) | OnEdit(note: Note) | OnDelete(id: string)

  /** View and "Read more" open the details, Edit edits, Delete hands over
      exactly the note's id; the note itself is passed on unchanged. */
  function Act(note: Note, action: CardAction): (d: Dispatch)
    ensures d.OnDelete? <==> action == DeleteItem
    ensures d.OnDelete? ==> d.id == note.id
    ensures d.OnViewDetails? <==> action == ViewItem || action == ReadMore
    ensures d.OnEdit? <==> action == EditItem
    ensures !d.OnDelete? ==> d.note == note
  {
    match action
    case ViewItem => OnViewDetails(note)
    case ReadMore => OnViewDetails(note)
    case EditItem => OnEdit(note)
    case DeleteItem => OnDelete(note.id)
  }

  /** The boundary: 100 characters are shown whole, 101 are cut. */
  lemma TruncateBoundary(s: string, c: char)
    requires |s| == PreviewLength
    ensures Truncate(s) == s
    ensures Truncate(s + [c]) == s + Ellipsis
  {
    assert (s + [c])[..PreviewLength] == s;
  }

  /** Previewing a preview changes nothing: a cut preview is exactly 103
      characters ending in "...", and cutting it again gives it back. */
  lemma TruncateIdempotent(content: string)
    ensures Truncate(Truncate(content)) == Truncate(content)
  {
    var r := Truncate(content);
    if |content| > PreviewLength {
      assert r[..PreviewLength] + Ellipsis == r;
    }
  }
}
