/** Taking a sequence apart at its end, as the folds over a transaction or activity list do. */
module Sequences {

  function Last<T>(s: seq<T>): T
    requires 0 < |s|
  {
    s[|s| - 1]
  }

  function Init<T>(s: seq<T>): seq<T>
    requires 0 < |s|
  {
    s[..|s| - 1]
  }

  /** Appending one element to a sequence: `Init` and `Last` take it apart again. */
  lemma InitLast<T>(s: seq<T>, x: T)
    ensures Init(s + [x]) == s && Last(s + [x]) == x
  {
    assert (s + [x])[..|s|] == s;
  }
}
