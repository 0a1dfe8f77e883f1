/** Writing a file through a temporary file and a rename. */
module Writes {

  /** The rename happened or not, and an error was reported or not. */
  datatype Write = Done | FailedBefore | FailedAfter

  predicate Applied(w: Write)
  {
    !w.FailedBefore?
  }
}
