/** Small vocabulary shared by the models: an optional value and facts about sequences. */
module Common {

  datatype Option<+T> = None | Some(value: T)

  /** The last element of a nonempty sequence. */
  function Last<T>(s: seq<T>): T
    requires |s| > 0
  {
    s[|s| - 1]
  }

  /** No two positions hold the same value. */
  ghost predicate Distinct<T(!new)>(s: seq<T>) {
    forall i, j :: 0 <= i < j < |s| ==> s[i] != s[j]
  }
}
