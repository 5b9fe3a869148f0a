/** Optional values and results with an error, used for the source's `None`
    defaults and for the exceptions it raises (KeyError, IndexError, ...). */
module Wrappers {
  datatype Option<T> = None | Some(value: T)

  datatype Result<T, E> = Success(value: T) | Failure(error: E)

  /** The text of a `KeyError` raised by a missing dictionary key. */
  function KeyError(key: string): string
  {
    "KeyError: '" + key + "'"
  }

  /** The text of an `IndexError` raised by indexing an empty list. */
  const INDEX_ERROR: string := "IndexError: list index out of range"
}
