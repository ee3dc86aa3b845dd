/** What every module needs: optional values, both ends of a sequence, picking from a set. */
module Prelude {
  datatype Option<+T> = None | Some(value: T)

  function Last<T>(s: seq<T>): T
    requires s != []
  {
    s[|s| - 1]
  }

  function Init<T>(s: seq<T>): seq<T>
    requires s != []
  {
    s[..|s| - 1]
  }

  /** A witness that a set can be picked from. */
  ghost function AnElement<T>(s: set<T>): (x: T)
    requires s != {}
    ensures x in s
  {
    var x :| x in s;
    x
  }

  lemma Associative<T>(a: seq<T>, b: seq<T>, c: seq<T>)
    ensures a + (b + c) == (a + b) + c
  {
  }

  /** Only the right part of a concatenation loses its last element. */
  lemma InitOfConcat<T>(a: seq<T>, b: seq<T>)
    requires b != []
    ensures a + b != [] && Init(a + b) == a + Init(b) && Last(a + b) == Last(b)
  {
  }

  lemma SlicesOfSnoc<T>(s: seq<T>, x: T, j: nat)
    requires j <= |s|
    ensures (s + [x])[j..] == s[j..] + [x] && (s + [x])[..j] == s[..j]
  {
  }
}
