/** Values that several parts of the system share. */
module Values {

  datatype Option<T> = None | Some(value: T)

  type Byte = x: int | 0 <= x < 256

  predicate NulFree(s: string) { forall i :: 0 <= i < |s| ==> s[i] != '\0' }
}
