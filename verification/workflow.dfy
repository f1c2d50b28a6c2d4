/** The components together: the editor's summary request going through
    `summarizeText` and the relay, and the dashboard reacting to a submit. */
module Workflow {
  import opened Wrappers
  import opened Js
  import opened JsString
  import opened Types
  import opened NotesApi
  import opened NoteForm
  import SummarizeRoute
  import Dashboard

  /** The outcome `summarizeText(content)` has when the relay meets the
      upstream outcome `upstream`. */
  function Relayed(content: string, upstream: SummarizeRoute.Upstream): SummaryOutcome {
    SummarizeText(SummarizeRoute.Post(SummarizeRoute.Parsed(Str(content)), upstream).response)
  }

  /** Content the editor is willing to summarise always passes the relay's
      validation, and is forwarded upstream unchanged. */
  lemma EditorTextPassesRelay(content: string, upstream: SummarizeRoute.Upstream)
    requires |Trim(content)| >= MinSummaryLength
    ensures var h := SummarizeRoute.Post(SummarizeRoute.Parsed(Str(content)), upstream);
      h.response.status != 400 && h.forwarded == Some(content)
  {
  }

  /** Through the relay, a regenerated summary reaches the store exactly
      when the upstream reply was accepted and its body was an array or
      another object (the placeholder counts), and it is then never empty.
      An error object, a body that is no object, a rejected status or a
      transport failure all leave the summary out. */
  lemma RegeneratedSummaryThroughRelay(note: Option<Note>, title: string, content: string, userId: string,
                                       upstream: SummarizeRoute.Upstream, persist: StoreOutcome)
    requires Filled(title, content) && ContentChanged(note, content)
    requires |Trim(content)| >= MinSummaryLength
    ensures var o := Submit(note, title, content, SignedIn(userId), Relayed(content, upstream), persist);
      && o.stored.Some?
      && (o.stored.value.PayloadSummary().Some? <==>
          upstream.Replied? && SummarizeRoute.AxiosAccepts(upstream.status)
          && (upstream.data.SummaryArray? || upstream.data.OtherObject?))
      && (o.stored.value.PayloadSummary().Some? ==> o.stored.value.PayloadSummary().value != "")
  {
    var r := SummarizeRoute.Post(SummarizeRoute.Parsed(Str(content)), upstream).response;
    assert r == SummarizeRoute.Classify(upstream);
    var summariser := Relayed(content, upstream);
    var o := Submit(note, title, content, SignedIn(userId), summariser, persist);
    assert o.summarized.Some?;
    var accepted := upstream.Replied? && SummarizeRoute.AxiosAccepts(upstream.status);
    if !accepted {
      assert r.status == 500;
      assert summariser.SummarizeRejected?;
    } else if upstream.data.ErrorObject? {
      assert r.status == 503;
      assert summariser.SummarizeRejected?;
    } else if upstream.data.NotAnObject? {
      assert r.status == 500;
      assert summariser.SummarizeRejected?;
    } else {
      assert r.status == 200 && r.body.SummaryBody? && r.body.summary != "";
      assert summariser == Summarized(Some(r.body.summary));
    }
  }

  /** Creating "Groceries" with sixty letters of content, signed in, with the
      model answering one summary: the user is looked up, the content is
      summarised once, the note is created once with that summary, and
      `onSave` fires. */
  lemma CreateScenario(userId: string, summary: string)
    requires summary != ""
    ensures var content := seq(60, _ => 'a');
      var upstream := SummarizeRoute.Replied(200, SummarizeRoute.SummaryArray([Some(summary)]));
      var o := Submit(None, "Groceries", content, SignedIn(userId), Relayed(content, upstream), StoreOk);
      && Trace(o) == [GetUser, Summarize(content), Store(Create(NoteInsert("Groceries", content, userId, Some(summary))))]
      && o.onSaveCalled && o.error.None?
  {
    var content: string := seq(60, _ => 'a');
    assert SkipForward(content, 0) == 0;
    assert SkipBackward(content, 0, 60) == 60;
    assert Trim(content) == content;
    assert !Blank("Groceries") by { assert !IsWhitespace("Groceries"[0]); }
    var upstream := SummarizeRoute.Replied(200, SummarizeRoute.SummaryArray([Some(summary)]));
    assert Relayed(content, upstream) == Summarized(Some(summary));
    assert SummaryStep(None, content, Summarized(Some(summary))).summary == Some(summary);
  }

  /** Editing only the title: nothing is summarised, and the update keeps
      the stored summary, absent or not. */
  lemma TitleOnlyEdit(note: Note, title: string, userId: string, summariser: SummaryOutcome)
    requires note.id != "" && Filled(title, note.content)
    ensures var o := Submit(Some(note), title, note.content, SignedIn(userId), summariser, StoreOk);
      Trace(o) == [GetUser, Store(Update(note.id, NotePatch(title, note.content, note.summary)))]
  {
  }

  /** A failed save leaves the dashboard's editor open on the same note, so
      the typed title and content can be submitted again; a successful one
      returns to the list and refetches the notes. */
  lemma SubmitThenDashboard(s: Dashboard.State, title: string, content: string,
                            auth: AuthOutcome, summariser: SummaryOutcome, persist: StoreOutcome)
    requires Dashboard.ModeOf(s) != Dashboard.ListMode
    ensures var o := Submit(s.editingNote, title, content, auth, summariser, persist);
      var r := Dashboard.AfterSubmit(s, o);
      && (persist.StoreRejected? ==> Dashboard.ModeOf(r) == Dashboard.ModeOf(s) && o.form.title == title && o.form.content == content)
      && (o.onSaveCalled <==> Dashboard.ModeOf(r) == Dashboard.ListMode)
  {
  }
}
