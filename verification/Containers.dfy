/** Containers that several parts of the model share. */
module Containers {

  datatype Option<T> = None | Some(value: T)

  /** The pieces of a stream put together. */
  function Concat<T>(chunks: seq<seq<T>>): (s: seq<T>)
  {
    if chunks == [] then [] else Concat(chunks[..|chunks| - 1]) + chunks[|chunks| - 1]
  }
}
