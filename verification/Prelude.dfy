/** What every component of the model shares. */
module Prelude {

  /** A value that may be absent: the source's optional fields and lookups. */
  datatype Option<+T> = None | Some(value: T) {
    function GetOr(default: T): T {
      if Some? then value else default
    }
  }

  function Min(a: nat, b: nat): nat {
    if a <= b then a else b
  }

  predicate NoRepeats<T(==)>(s: seq<T>) {
    forall i, j :: 0 <= i < j < |s| ==> s[i] != s[j]
  }

  lemma NoRepeatsGrows<T>(s: seq<T>, x: T)
    requires NoRepeats(s) && x !in s
    ensures NoRepeats(s + [x])
  {
  }

  /** Taking an appended sequence apart at its front. */
  lemma TailOfAppend<T>(a: seq<T>, b: seq<T>)
    requires a != []
    ensures (a + b)[0] == a[0] && (a + b)[1..] == a[1..] + b
  {
  }

  lemma AppendAssociates<T>(a: seq<T>, b: seq<T>, c: seq<T>)
    ensures a + (b + c) == a + b + c
  {
  }

  lemma NothingInFront<T>(a: seq<T>, b: seq<T>, c: seq<T>)
    requires a == []
    ensures a + b + c == b + c
  {
  }

  lemma EmptyAppend<T>(a: seq<T>)
    ensures [] + a == a == a + []
  {
  }

  lemma SliceOfSlice<T>(s: seq<T>, lo: nat, hi: nat, a: nat, b: nat)
    requires lo <= hi <= |s| && a <= b <= hi - lo
    ensures s[lo..hi][a..b] == s[lo + a..lo + b]
  {
    var u := s[lo..hi];
    assert forall k :: 0 <= k < b - a ==> u[a..b][k] == u[a + k];
    assert forall k :: 0 <= k < b - a ==> u[a..b][k] == s[lo + a..lo + b][k];
  }

  /** Taking an appended sequence apart at its end. */
  lemma InitOfSnoc<T>(a: seq<T>, x: T)
    ensures |a + [x]| == |a| + 1 && (a + [x])[..|a|] == a && (a + [x])[|a|] == x
  {
  }

  /** A sequence as its last element behind the others. */
  lemma LastApart<T>(s: seq<T>) returns (init: seq<T>, last: T)
    requires s != []
    ensures s == init + [last] && |init| == |s| - 1
  {
    init, last := s[..|s| - 1], s[|s| - 1];
  }

  lemma MoveFirst<T>(a: seq<T>, b: seq<T>)
    requires b != []
    ensures a + [b[0]] + b[1..] == a + b
  {
  }

  lemma CutInThree<T>(s: seq<T>, a: nat, b: nat, x: T)
    requires a <= b <= |s|
    ensures x in s <==> x in s[..a] || x in s[a..b] || x in s[b..]
  {
    assert s == s[..a] + s[a..b] + s[b..];
  }
}
