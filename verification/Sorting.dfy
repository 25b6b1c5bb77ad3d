/** The sorts the modules need: a finite set as a list in a given order. */
module Sorting {
  function Elements<T(==)>(s: seq<T>): (e: set<T>) {
    set x | x in s
  }

  ghost predicate Transitive<T(!new)>(before: (T, T) -> bool) {
    (forall x :: !before(x, x)) && forall x, y, z :: before(x, y) && before(y, z) ==> before(x, z)
  }

  /** Each element once, and none before its predecessor. */
  ghost predicate InOrder<T(!new)>(s: seq<T>, before: (T, T) -> bool) {
    forall i, j :: 0 <= i < j < |s| ==> s[i] != s[j] && !before(s[j], s[i])
  }

  /** Nothing in `rest` is placed yet or belongs before anything placed. */
  ghost predicate Follows<T(!new)>(rest: set<T>, placed: seq<T>, before: (T, T) -> bool) {
    forall i, x :: 0 <= i < |placed| && x in rest ==> placed[i] != x && !before(x, placed[i])
  }

  lemma Place<T(!new)>(placed: seq<T>, rest: set<T>, least: T, before: (T, T) -> bool)
    requires InOrder(placed, before) && Follows(rest, placed, before)
    requires least in rest && forall x :: x in rest ==> !before(x, least)
    ensures InOrder(placed + [least], before) && Follows(rest - {least}, placed + [least], before)
    ensures Elements(placed + [least]) == Elements(placed) + {least}
  {
  }

  method Sorted<T(==, !new)>(values: set<T>, before: (T, T) -> bool) returns (result: seq<T>)
    requires Transitive(before)
    ensures Elements(result) == values && |result| == |values|
    ensures InOrder(result, before)
  {
    result := [];
    var rest := values;
    while rest != {}
      invariant rest <= values && Elements(result) == values - rest && |result| + |rest| == |values|
      invariant InOrder(result, before) && Follows(rest, result, before)
      decreases |rest|
    {
      var least := Least(rest, before);
      Place(result, rest, least, before);
      result := result + [least];
      rest := rest - {least};
    }
  }

  ghost predicate Total<T(!new)>(before: (T, T) -> bool) {
    forall x, y :: x == y || before(x, y) || before(y, x)
  }

  lemma LeastOfBoth<T(!new)>(values: set<T>, x: T, least: T, before: (T, T) -> bool)
    requires Transitive(before) && x in values
    requires least in values - {x} && forall y :: y in values - {x} ==> !before(y, least)
    ensures exists l :: l in values && forall y :: y in values ==> !before(y, l)
  {
    var l := if before(x, least) then x else least;
    forall y | y in values
      ensures !before(y, l)
    {
      assert before(y, x) && before(x, least) ==> before(y, least);
    }
  }

  lemma {:induction false} LeastExists<T(!new)>(values: set<T>, before: (T, T) -> bool)
    requires Transitive(before) && values != {}
    ensures exists least :: least in values && forall x :: x in values ==> !before(x, least)
    decreases |values|
  {
    var x :| x in values;
    if values - {x} == {} {
      assert values == {x};
    } else {
      LeastExists(values - {x}, before);
      var least :| least in values - {x} && forall y :: y in values - {x} ==> !before(y, least);
      LeastOfBoth(values, x, least, before);
    }
  }

  /** The list a sort makes of a set. */
  ghost function Arranged<T(!new)>(values: set<T>, before: (T, T) -> bool): (s: seq<T>)
    requires Transitive(before)
    decreases |values|
  {
    if values == {} then []
    else
      LeastExists(values, before);
      var least :| least in values && forall x :: x in values ==> !before(x, least);
      [least] + Arranged(values - {least}, before)
  }

  /** In a total order there is only one. */
  lemma {:induction false} ArrangedIsUnique<T(!new)>(s: seq<T>, values: set<T>, before: (T, T) -> bool)
    requires Transitive(before) && Total(before)
    requires Elements(s) == values && InOrder(s, before)
    ensures s == Arranged(values, before)
    decreases |s|
  {
    if s != [] {
      assert s[0] in Elements(s);
      forall x | x in values
        ensures !before(x, s[0])
      {
        var j :| 0 <= j < |s| && s[j] == x;
      }
      LeastExists(values, before);
      var least :| least in values && forall x :: x in values ==> !before(x, least);
      assert Elements(s[1..]) == values - {s[0]};
      ArrangedIsUnique(s[1..], values - {s[0]}, before);
    } else {
      assert values == {};
    }
  }

  method Least<T(==, !new)>(values: set<T>, before: (T, T) -> bool) returns (least: T)
    requires Transitive(before) && values != {}
    ensures least in values && forall x :: x in values ==> !before(x, least)
  {
    least :| least in values;
    var rest := values - {least};
    while rest != {}
      invariant least in values && rest <= values
      invariant forall x :: x in values - rest ==> !before(x, least)
      decreases |rest|
    {
      var x :| x in rest;
      assert values - (rest - {x}) == (values - rest) + {x};
      if before(x, least) {
        forall y | y in values - rest
          ensures !before(y, x)
        {
          assert before(y, x) ==> before(y, least);
        }
        least := x;
      }
      rest := rest - {x};
    }
  }
}
