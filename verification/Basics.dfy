/** What several modules share: optional values, C strings, and the sizes of kernel/param.h. */
module Basics {

  datatype Option<T> = None | Some(value: T)

  /** A C string without its terminator. */
  predicate NulFree(s: string) { forall i :: 0 <= i < |s| ==> s[i] != '\0' }

  const MAXOPBLOCKS := 10
  const LOGSIZE := MAXOPBLOCKS * 3
}
