/**
 * The note editor (`components/NoteForm.tsx`): the state it opens with, the
 * trimmed payload its submit saves, when the submit button is disabled, and
 * the `isSubmitting` flag around the save.
 */
module NoteFormModel {
  import opened Wrappers
  import opened Text
  import opened Http
  import opened Ledger
  import opened NotesRoute

  datatype FormData = FormData(title: string, content: string, tags: string, color: string)

  /** The state for a new note: empty texts and the first colour of the palette. */
  const Empty := FormData("", "", "", DefaultColor)

  /** The `useEffect` reset: the edited note's fields, absent ones as '', or the empty state. */
  function Loaded(note: Option<Note>): (f: FormData)
    ensures note.None? ==> f == Empty && f.color == "#3b82f6"
    ensures note.Some? ==> f.title == note.value.title && f.color == note.value.color
  {
    match note
    case None => Empty
    case Some(n) => FormData(n.title, n.content.GetOr(""), n.tags.GetOr(""), n.color)
  }

  /** What `onSave` receives. */
  datatype NotePayload = NotePayload(title: string, content: Option<string>, tags: Option<string>, color: string)

  /** Title, content and tags trimmed; content and tags left out when nothing remains; the colour as chosen. */
  function PayloadOf(f: FormData): (p: NotePayload)
    ensures p.color == f.color
  {
    NotePayload(Trim(f.title), NullIfEmpty(Trim(f.content)), NullIfEmpty(Trim(f.tags)), f.color)
  }

  /** A text as the form saves it: non-empty and without white space at either end. */
  predicate Clean(s: string) {
    s != "" && Trim(s) == s
  }

  /** Every text a submit saves is clean, and the empty inputs are exactly the ones left out. */
  lemma PayloadClean(f: FormData)
    requires !IsBlank(f.title)
    ensures var p := PayloadOf(f);
      && Clean(p.title)
      && (p.content.None? <==> IsBlank(f.content)) && (p.content.Some? ==> Clean(p.content.value))
      && (p.tags.None? <==> IsBlank(f.tags)) && (p.tags.Some? ==> Clean(p.tags.value))
  {
    TrimIdempotent(f.title);
    TrimIdempotent(f.content);
    TrimIdempotent(f.tags);
  }

  /** Saving what was saved, loaded back into the form, saves the same thing again. */
  lemma SaveIsStable(f: FormData)
    ensures var p := PayloadOf(f);
      PayloadOf(FormData(p.title, p.content.GetOr(""), p.tags.GetOr(""), p.color)) == p
  {
    TrimIdempotent(f.title);
    TrimIdempotent(f.content);
    TrimIdempotent(f.tags);
    assert Trim("") == "";
  }

  /** `disabled={!formData.title.trim() || isSubmitting}` */
  predicate SubmitDisabled(f: FormData, isSubmitting: bool) {
    IsBlank(f.title) || isSubmitting
  }

  /** The calls a submit makes, in order. */
  datatype Call = Save(payload: NotePayload) | Close

  /** `handleSubmit`, where `saved` is whether `onSave` succeeded: nothing for a blank title, else save, then close only after a successful save. */
  function SubmitCalls(f: FormData, saved: bool): (calls: seq<Call>)
    ensures calls == [] <==> IsBlank(f.title)
    ensures Close in calls <==> !IsBlank(f.title) && saved
  {
    if IsBlank(f.title) then [] else if saved then [Save(PayloadOf(f)), Close] else [Save(PayloadOf(f))]
  }

  /** The button is enabled exactly when a submit would save something. */
  lemma EnabledIffSaves(f: FormData, saved: bool)
    ensures !SubmitDisabled(f, false) <==> SubmitCalls(f, saved) != []
  {
  }

  /** The JSON body the server reads: a left-out field is absent, which it reads as ''. */
  function AsNewNote(p: NotePayload): NewNote {
    NewNote(p.title, p.content.GetOr(""), p.tags.GetOr(""), p.color)
  }

  /** Whatever the form saves, the server's POST accepts, and stores the trimmed title, content and tags. */
  lemma SavedNoteAccepted(f: FormData, user: nat, nextId: nat, now: Timestamp)
    requires !IsBlank(f.title)
    ensures PostReply(Some(user), AsNewNote(PayloadOf(f)), nextId) == Ok(nextId)
    ensures var n := StoredNote(user, AsNewNote(PayloadOf(f)), now);
      n.title == Trim(f.title) && n.content == PayloadOf(f).content && n.tags == PayloadOf(f).tags
  {
  }

  /** The editor's state. */
  class Form {
    var formData: FormData
    var isSubmitting: bool

    constructor (note: Option<Note>)
      ensures formData == Loaded(note) && !isSubmitting
    {
      formData := Loaded(note);
      isSubmitting := false;
    }

    /** The `useEffect` that runs when the edited note changes. */
    method Load(note: Option<Note>)
      modifies this
      ensures formData == Loaded(note) && isSubmitting == old(isSubmitting)
    {
      match note {
        case None =>
          formData := Empty;
        case Some(n) =>
          formData := FormData(n.title, n.content.GetOr(""), n.tags.GetOr(""), n.color);
      }
    }

    /**
     * `handleSubmit`: the calls of `SubmitCalls`; after a save, failed or
     * not, `isSubmitting` is false again, and a blank title leaves it alone.
     */
    method HandleSubmit(saved: bool) returns (calls: seq<Call>)
      modifies this
      ensures calls == SubmitCalls(old(formData), saved)
      ensures formData == old(formData)
      ensures isSubmitting == (IsBlank(formData.title) && old(isSubmitting))
    {
      var f := formData;
      if IsBlank(f.title) {
        return [];
      }
      isSubmitting := true;
      var payload := PayloadOf(f);
      calls := [Save(payload)];
      if saved {
        calls := calls + [Close];
      }
      isSubmitting := false;
    }
  }
}
