/** The optional value used for Swift optionals (`URL?`, `OfferData?`, a missing header). */
module Wrappers {

  datatype Option<+T> = None | Some(value: T)
}
