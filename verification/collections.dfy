/** Small notions shared by all models. */
module Collections {
  datatype Option<+T> = None | Some(value: T)

  /** No element occurs twice. */
  ghost predicate Distinct<T>(q: seq<T>) {
    forall x, y :: 0 <= x < y < |q| ==> q[x] != q[y]
  }
}
