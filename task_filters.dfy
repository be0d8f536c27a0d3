/**
 * The filter panel of the tasks page (`components/TaskFilters.tsx`): the
 * four filter fields, changing one of them, clearing them all, whether any
 * is active, and the text box that edits the tag.
 */
module TaskFilters {

  /** The filters the tasks page keeps; 'all' means "do not filter" for the first three. */
  datatype Filters = Filters(status: string, priority: string, tag: string, search: string)

  /** The field a `handleFilterChange(key, value)` call names. */
  datatype Key = Status | Priority | Tag | Search

  /** `{ ...currentFilters, [key]: value }` */
  function WithFilter(f: Filters, key: Key, value: string): (g: Filters)
    ensures g.status == (if key == Status then value else f.status)
    ensures g.priority == (if key == Priority then value else f.priority)
    ensures g.tag == (if key == Tag then value else f.tag)
    ensures g.search == (if key == Search then value else f.search)
  {
    match key
    case Status => f.(status := value)
    case Priority => f.(priority := value)
    case Tag => f.(tag := value)
    case Search => f.(search := value)
  }

  /** Setting a field to the value it already has changes nothing; setting it twice keeps the last value. */
  lemma WithFilterLaws(f: Filters, key: Key, a: string, b: string)
    ensures WithFilter(f, key, Get(f, key)) == f
    ensures WithFilter(WithFilter(f, key, a), key, b) == WithFilter(f, key, b)
    ensures Get(WithFilter(f, key, a), key) == a
  {
  }

  function Get(f: Filters, key: Key): string {
    match key
    case Status => f.status
    case Priority => f.priority
    case Tag => f.tag
    case Search => f.search
  }

  /** `clearFilters`, which is also the page's initial state. */
  const Cleared := Filters("all", "all", "all", "")

  /** `hasActiveFilters` */
  predicate HasActiveFilters(f: Filters) {
    f.status != "all" || f.priority != "all" || f.tag != "all" || f.search != ""
  }

  /** A filter is active exactly when the state differs from the cleared one. */
  lemma ActiveIffNotCleared(f: Filters)
    ensures HasActiveFilters(f) <==> f != Cleared
  {
  }

  /** The tag box shows nothing for 'all'. */
  function TagInputText(tag: string): (shown: string)
    ensures shown == "" <==> tag == "all" || tag == ""
  {
    if tag == "all" then "" else tag
  }

  /** Emptying the tag box means 'all'. */
  function TagFromInput(text: string): (tag: string)
    ensures tag != ""
    ensures tag == "all" <==> text == "" || text == "all"
  {
    if text == "" then "all" else text
  }

  /**
   * The box and the filter agree: what is typed is shown back unless it is
   * 'all', and any tag the box can set is restored from what it shows.
   */
  lemma TagInputRoundTrip(text: string, tag: string)
    ensures text != "all" ==> TagInputText(TagFromInput(text)) == text
    ensures tag != "" ==> TagFromInput(TagInputText(tag)) == tag
  {
  }
}
