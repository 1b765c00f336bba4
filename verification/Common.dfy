/** What several modules need: an optional value, and lists without repetition. */
module Common {
  datatype Option<T> = None | Some(value: T)

  predicate Distinct<T(==)>(values: seq<T>) {
    forall i, j | 0 <= i < j < |values| :: values[i] != values[j]
  }
}
