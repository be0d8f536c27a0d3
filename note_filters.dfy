/**
 * The filter panel of the notes page (`components/NoteFilters.tsx`): a
 * search text and a tag, changing one, clearing both, whether any is
 * active, and the text box that edits the tag.
 */
module NoteFilters {
  import TaskFilters

  datatype Filters = Filters(search: string, tag: string)

  datatype Key = Search | Tag

  /** `{ ...currentFilters, [key]: value }` */
  function WithFilter(f: Filters, key: Key, value: string): (g: Filters)
    ensures g.search == (if key == Search then value else f.search)
    ensures g.tag == (if key == Tag then value else f.tag)
  {
    match key
    case Search => f.(search := value)
    case Tag => f.(tag := value)
  }

  /** `clearFilters` */
  const Cleared := Filters("", "all")

  /** `search || (tag && tag !== 'all')`, read as a boolean. */
  predicate HasActiveFilters(f: Filters) {
    f.search != "" || (f.tag != "" && f.tag != "all")
  }

  /**
   * Clearing leaves nothing active, and the inactive states are exactly the
   * cleared one and the one whose tag is empty.
   */
  lemma ActiveIffFiltering(f: Filters)
    ensures !HasActiveFilters(Cleared)
    ensures !HasActiveFilters(f) <==> f == Cleared || f == Filters("", "")
  {
  }

  /**
   * The tag box works as on the tasks page (`TaskFilters.TagFromInput`):
   * emptying it with no search text leaves no filter active, and typing any
   * tag other than 'all' makes one active.
   */
  lemma TagBoxActivates(f: Filters, text: string)
    ensures f.search == "" ==>
      (HasActiveFilters(WithFilter(f, Tag, TaskFilters.TagFromInput(text))) <==> text != "" && text != "all")
  {
  }
}
