/** Python's `None`-or-value, as used by the bot for optional arguments and lookups. */
module Wrappers {

  datatype Option<+T> = None | Some(value: T)

}
