/** Small notions that several parts share. */
module Common {

  datatype Option<+T> = None | Some(value: T)

  ghost predicate NoDup<T>(l: seq<T>) {
    forall i, j :: 0 <= i < j < |l| ==> l[i] != l[j]
  }
}
