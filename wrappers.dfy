/** The optional value used for every `?` field, every `T | null` state slot and every
    `Array.prototype.find` result of the site. */
module Wrappers {

  datatype Option<+T> = None | Some(value: T)
}
