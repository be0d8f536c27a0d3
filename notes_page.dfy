/**
 * The notes page (`app/notes/page.tsx`): which fetched notes the search and
 * tag filters let through.
 */
module NotesPage {
  import opened Wrappers
  import opened Text
  import opened Listing
  import opened NotesRoute
  import NoteFilters

  /** An empty search, or a search found in the title or the content, ignoring case. */
  predicate MatchesSearch(n: Note, search: string) {
    search == "" || ContainsIgnoringCase(n.title, search)
    || (n.content.Some? && n.content.value != "" && ContainsIgnoringCase(n.content.value, search))
  }

  /** A tag of '' or 'all', or a tag found in the note's tags, ignoring case; a note without tags fails any other tag. */
  predicate MatchesTag(n: Note, tag: string) {
    tag == "" || tag == "all" || (n.tags.Some? && n.tags.value != "" && ContainsIgnoringCase(n.tags.value, tag))
  }

  /** `filteredNotes`: the notes matching both, in the fetched order. */
  function FilteredNotes(notes: seq<Note>, f: NoteFilters.Filters): (r: seq<Note>)
    ensures forall x :: x in r <==> x in notes && MatchesSearch(x, f.search) && MatchesTag(x, f.tag)
    ensures |r| <= |notes|
  {
    Filter(notes, (n: Note) => MatchesSearch(n, f.search) && MatchesTag(n, f.tag))
  }

  /** The filtered list keeps the fetched order. */
  lemma FilteredNotesInOrder(a: seq<Note>, b: seq<Note>, f: NoteFilters.Filters)
    ensures FilteredNotes(a + b, f) == FilteredNotes(a, f) + FilteredNotes(b, f)
  {
    FilterAppend(a, b, (n: Note) => MatchesSearch(n, f.search) && MatchesTag(n, f.tag));
  }

  /** When the filter panel shows no active filter, every note is listed. */
  lemma InactiveFiltersShowAll(notes: seq<Note>, f: NoteFilters.Filters)
    requires !NoteFilters.HasActiveFilters(f)
    ensures FilteredNotes(notes, f) == notes
  {
    FilterAll(notes, (n: Note) => MatchesSearch(n, f.search) && MatchesTag(n, f.tag));
  }

  /** A note without tags disappears as soon as a real tag is chosen. */
  lemma UntaggedNoteHidden(notes: seq<Note>, f: NoteFilters.Filters, n: Note)
    requires n.tags.None? || n.tags == Some("")
    requires f.tag != "" && f.tag != "all"
    ensures n !in FilteredNotes(notes, f)
  {
  }

  /**
   * On the notes the server lists for a search and a tag (`NotesRoute.ListNotes`),
   * the page's own filter with the same search and tag removes nothing.
   */
  lemma PageFilterAgreesWithServer(s: seq<Note>, user: nat, f: NoteFilters.Filters, x: Note)
    requires x in ListNotes(s, user, f.search, f.tag)
    ensures x in FilteredNotes(ListNotes(s, user, f.search, f.tag), f)
  {
    assert multiset(ListNotes(s, user, f.search, f.tag))[x] > 0;
    assert NoteListed(x, user, f.search, f.tag);
    if x.content.Some? && x.content.value == "" && f.search != "" {
      ContainsIgnoringCaseEmpty(f.search);
    }
  }

  /** A non-empty text is found in no empty text. */
  lemma ContainsIgnoringCaseEmpty(search: string)
    requires search != ""
    ensures !ContainsIgnoringCase("", search)
  {
    assert Lower("") == "";
  }
}
