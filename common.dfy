/** Shared vocabulary of the stores and components: an optional value (a
    JavaScript `null`/`undefined` or a falsy response), the pagination record
    every list view keeps, and "is a subsequence of", the order-preservation
    relation that the `filter` calls of the source satisfy. */
module Common {

  datatype Option<+T> = None | Some(value: T) {
    /** The `??` operator of JavaScript: the value, or `default` when absent. */
    function GetOr(default: T): T {
      match this
      case Some(v) => v
      case None => default
    }
  }

  /** The `{ totalElements, totalPages, size, number }` record of a page envelope. */
  datatype Pagination = Pagination(totalElements: int, totalPages: int, size: int, number: int)

  /** `r` is obtained from `s` by deleting some elements, keeping the order of the rest. */
  ghost predicate Subseq<T>(r: seq<T>, s: seq<T>)
    decreases |s|
  {
    if r == [] then true
    else if s == [] then false
    else (r[0] == s[0] && Subseq(r[1..], s[1..])) || Subseq(r, s[1..])
  }

  /** Keeping or dropping the head of `s` on top of a subsequence of its tail. */
  lemma SubseqCons<T>(x: T, r: seq<T>, s: seq<T>)
    requires Subseq(r, s)
    ensures Subseq([x] + r, [x] + s) && Subseq(r, [x] + s)
  {
    assert ([x] + r)[1..] == r;
    assert ([x] + s)[1..] == s;
  }
}
