/**
 * `/api/notes`: the `notes` table, searched by title or content and by tag,
 * most recently updated first, and created one at a time.
 */
module NotesRoute {
  import opened Wrappers
  import opened Text
  import opened Listing
  import opened Http
  import opened Ledger

  /** One row of `notes`. */
  datatype Note = Note(id: nat, userId: nat, title: string, content: Option<string>, tags: Option<string>,
                       color: string, createdAt: Timestamp, updatedAt: Timestamp)

  predicate NoteIdBefore(a: Note, b: Note) {
    a.id < b.id
  }

  class NoteTable {
    var rows: seq<Note>
    var nextId: nat

    ghost predicate Valid()
      reads this
    {
      SortedBy(rows, NoteIdBefore) && forall i :: 0 <= i < |rows| ==> rows[i].id < nextId
    }

    constructor ()
      ensures Valid() && rows == [] && nextId == 1
    {
      rows := [];
      nextId := 1;
    }

    /** `INSERT INTO notes`; the row takes the next id. */
    method Insert(n: Note) returns (id: nat)
      requires Valid()
      modifies this
      ensures Valid()
      ensures id == old(nextId) && nextId == id + 1
      ensures rows == old(rows) + [n.(id := id)]
    {
      id := nextId;
      rows := rows + [n.(id := id)];
      nextId := nextId + 1;
    }
  }

  // ------------------------------------------------------------------ GET

  /** `column LIKE '%x%'`: a NULL column never matches. */
  predicate ColumnLike(column: Option<string>, x: string) {
    column.Some? && ContainsIgnoringCase(column.value, x)
  }

  /** The WHERE clause: the caller's notes; a search matches title or content; a tag other than 'all' matches tags. */
  predicate NoteListed(n: Note, user: nat, search: string, tag: string) {
    && n.userId == user
    && (search == "" || ContainsIgnoringCase(n.title, search) || ColumnLike(n.content, search))
    && (tag == "" || tag == "all" || ColumnLike(n.tags, tag))
  }

  /** `ORDER BY updated_at DESC` */
  predicate RecentlyUpdatedFirst(a: Note, b: Note) {
    a.updatedAt >= b.updatedAt
  }

  function ListNotes(s: seq<Note>, user: nat, search: string, tag: string): (r: seq<Note>)
    ensures forall x :: multiset(r)[x] == if NoteListed(x, user, search, tag) then multiset(s)[x] else 0
    ensures SortedBy(r, RecentlyUpdatedFirst)
  {
    var keep := (x: Note) => NoteListed(x, user, search, tag);
    forall x ensures multiset(Filter(s, keep))[x] == if keep(x) then multiset(s)[x] else 0 {
      FilterMultiplicity(s, keep, x);
    }
    SortBySorted(Filter(s, keep), RecentlyUpdatedFirst);
    SortBy(Filter(s, keep), RecentlyUpdatedFirst)
  }

  function Get(user: Option<nat>, s: seq<Note>, search: string, tag: string): (r: Reply<seq<Note>>)
    ensures user.None? <==> r == Unauthorized(NotAuthenticated)
    ensures r.Ok? ==> r.body == ListNotes(s, user.value, search, tag)
  {
    if user.None? then Unauthorized(NotAuthenticated) else Ok(ListNotes(s, user.value, search, tag))
  }

  /** The listing holds only the caller's notes. */
  lemma ListNotesOwnRows(s: seq<Note>, user: nat, search: string, tag: string, x: Note)
    requires x in ListNotes(s, user, search, tag)
    ensures x in s && x.userId == user
  {
    assert multiset(ListNotes(s, user, search, tag))[x] > 0;
  }

  /** A search matches a note by its title even when its content is NULL. */
  lemma SearchMatchesTitle(s: seq<Note>, user: nat, search: string, x: Note)
    requires x in s && x.userId == user && ContainsIgnoringCase(x.title, search)
    ensures x in ListNotes(s, user, search, "all")
  {
    assert multiset(ListNotes(s, user, search, "all"))[x] == multiset(s)[x];
  }

  /** The tag 'all' is no tag at all. */
  lemma TagAllIsNoTag(s: seq<Note>, user: nat, search: string)
    ensures ListNotes(s, user, search, "all") == ListNotes(s, user, search, "")
  {
    FilterSameCondition(s, (x: Note) => NoteListed(x, user, search, "all"), (x: Note) => NoteListed(x, user, search, ""));
  }

  // ----------------------------------------------------------------- POST

  /** The JSON body; an absent field is "". */
  datatype NewNote = NewNote(title: string, content: string, tags: string, color: string)

  const MissingTitleError := "Título é obrigatório"
  const DefaultColor := "#3b82f6"

  /** The row a POST inserts, before it takes its id: falsy content and tags become NULL, an empty colour the default. */
  function StoredNote(user: nat, q: NewNote, now: Timestamp): (n: Note)
    ensures n.userId == user && n.title == q.title
    ensures n.content.None? <==> q.content == ""
    ensures n.tags.None? <==> q.tags == ""
    ensures n.color == if q.color == "" then DefaultColor else q.color
    ensures n.color != ""
  {
    Note(0, user, q.title, NullIfEmpty(q.content), NullIfEmpty(q.tags), if q.color == "" then DefaultColor else q.color, now, now)
  }

  function PostReply(user: Option<nat>, q: NewNote, nextId: nat): Reply<nat> {
    if user.None? then Unauthorized(NotAuthenticated)
    else if q.title == "" then BadRequest(MissingTitleError)
    else Ok(nextId)
  }

  method Post(table: NoteTable, user: Option<nat>, q: NewNote, now: Timestamp) returns (reply: Reply<nat>)
    requires table.Valid()
    modifies table
    ensures table.Valid()
    ensures reply == PostReply(user, q, old(table.nextId))
    ensures reply.Ok? ==> table.rows == old(table.rows) + [StoredNote(user.value, q, now).(id := reply.body)]
    ensures !reply.Ok? ==> table.rows == old(table.rows) && table.nextId == old(table.nextId)
  {
    if user.None? {
      return Unauthorized(NotAuthenticated);
    }
    if q.title == "" {
      return BadRequest(MissingTitleError);
    }
    var id := table.Insert(StoredNote(user.value, q, now));
    return Ok(id);
  }
}
