/** Small failure-carrying datatypes shared by the record model. */
module Wrappers {

  /** A value that may be absent: an empty form field, an unparsable date. */
  datatype Option<+T> = None | Some(value: T)

  /** What a mutation of the stored collection reports to the user:
      the collection was rewritten, or the targeted record does not exist
      (in which case nothing is written). */
  datatype Outcome = Saved | NotFound
}
