/** The optional value used wherever the scraper works with `null`. */
module Wrappers {

  datatype Option<+T> = None | Some(value: T)
}
