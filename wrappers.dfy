/** The optional value used where the Java code returns `null` or a matcher fails. */
module Wrappers {
  datatype Option<+T> = None | Some(value: T)

  /** What `if (found) list.add(v)` appends: [v] or nothing. */
  function OptionToSeq<T>(o: Option<T>): seq<T> {
    match o
    case Some(v) => [v]
    case None => []
  }

  lemma InOptionToSeq<T>(o: Option<T>, x: T)
    requires x in OptionToSeq(o)
    ensures o == Some(x)
  {
  }
}
