/** Option, and the 32-bit unique ids every part of the runtime is keyed by. */
module Prelude {

  datatype Option<+T> = None | Some(value: T)

  /** A sane unique id: neither MULLE_OBJC_NO_UNIQUEID nor MULLE_OBJC_INVALID_UNIQUEID. */
  type UniqueId = x: int | 0 < x < 0xFFFF_FFFF witness 1

  /** The elements of a sequence. */
  function Elems<T>(s: seq<T>): set<T> {
    set x | x in s
  }
}
