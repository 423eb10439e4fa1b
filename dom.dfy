/**
 * The browser page as the resolvers observe it.  The page itself is an
 * outside collaborator: it is given to the model as values and functions.
 */
module Dom {
  import opened Wrappers

  /** A live element handle; two handles are the same element when their ids are equal. */
  type ElementId = nat

  /** `page.locator(selector).all()`: the query either throws, with its error message, or yields its matches in document order. */
  datatype Query = Throws(error: string) | Matches(ids: seq<ElementId>)

  /**
   * What the healer reads from an element: its text content and the
   * `aria-label`, `placeholder`, `value` and `title` attributes.
   * `None` is an absent attribute (Python `None`).
   */
  datatype Attributes = Attributes(
    text: Option<string>,
    ariaLabel: Option<string>,
    placeholder: Option<string>,
    value: Option<string>,
    title: Option<string>)

  /** The elements a query yields; a query that throws yields none. */
  function MatchesOf(q: Query): seq<ElementId> {
    if q.Throws? then [] else q.ids
  }
}
