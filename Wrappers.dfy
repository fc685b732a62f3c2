/** The optional value used wherever the source returns "nothing found" (a regex that did not
    match, a date that did not parse, a dictionary key that is absent). */
module Wrappers {

  datatype Option<+T> = None | Some(value: T)
}
