/** The conventional optional value, used for the C# `TryParse` results and for nullable snapshots. */
module Wrappers {

  datatype Option<+T> = None | Some(value: T)
}
