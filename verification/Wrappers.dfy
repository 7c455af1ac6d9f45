/** Optional values, byte strings and attributes, shared by every module of the project. */
module Wrappers {

  datatype Option<+T> = None | Some(value: T)

  newtype byte = x: int | 0 <= x < 256

  /** What JSON encoding produces, and files and RPC messages hold. */
  type Bytes = seq<byte>

  /** The attributes that a unit has on a relation. */
  type Attrs = map<string, string>

  function Bit(b: bool): nat {
    if b then 1 else 0
  }
}
