/** Adding up a weight over a sequence. */
module Totals {

  function Total<T>(s: seq<T>, weight: T -> nat): nat {
    if s == [] then 0 else weight(s[0]) + Total(s[1..], weight)
  }

  lemma {:induction false} TotalUpdate<T>(s: seq<T>, i: nat, x: T, weight: T -> nat)
    requires i < |s|
    ensures Total(s[i := x], weight) + weight(s[i]) == Total(s, weight) + weight(x)
  {
    if i == 0 {
      assert s[0 := x][1..] == s[1..];
    } else {
      assert s[i := x][1..] == s[1..][i - 1 := x];
      TotalUpdate(s[1..], i - 1, x, weight);
    }
  }

  lemma {:induction false} TotalPush<T>(s: seq<T>, x: T, weight: T -> nat)
    ensures Total(s + [x], weight) == Total(s, weight) + weight(x)
  {
    if s == [] {
      assert s + [x] == [x] && [x][1..] == [];
    } else {
      assert (s + [x])[1..] == s[1..] + [x];
      TotalPush(s[1..], x, weight);
    }
  }

  lemma {:induction false} TotalSum<T>(s: seq<T>, f: T -> nat, g: T -> nat, h: T -> nat)
    requires forall i :: 0 <= i < |s| ==> f(s[i]) == g(s[i]) + h(s[i])
    ensures Total(s, f) == Total(s, g) + Total(s, h)
  {
    if s != [] { TotalSum(s[1..], f, g, h); }
  }

  lemma {:induction false} TotalAtMost<T>(s: seq<T>, f: T -> nat, g: T -> nat)
    requires forall i :: 0 <= i < |s| ==> f(s[i]) <= g(s[i])
    ensures Total(s, f) <= Total(s, g)
  {
    if s != [] { TotalAtMost(s[1..], f, g); }
  }

  lemma {:induction false} TotalSame<T>(s: seq<T>, f: T -> nat, g: T -> nat)
    requires forall i :: 0 <= i < |s| ==> f(s[i]) == g(s[i])
    ensures Total(s, f) == Total(s, g)
  {
    if s != [] { TotalSame(s[1..], f, g); }
  }

  lemma {:induction false} TotalZero<T>(s: seq<T>, weight: T -> nat)
    requires forall i :: 0 <= i < |s| ==> weight(s[i]) == 0
    ensures Total(s, weight) == 0
  {
    if s != [] { TotalZero(s[1..], weight); }
  }

  /** No element weighs more than all together. */
  lemma {:induction false} TotalCovers<T>(s: seq<T>, i: nat, weight: T -> nat)
    requires i < |s|
    ensures weight(s[i]) <= Total(s, weight)
  {
    if i > 0 { TotalCovers(s[1..], i - 1, weight); }
  }

  /** Where something weighs, some element does. */
  lemma {:induction false} TotalSource<T>(s: seq<T>, weight: T -> nat) returns (i: nat)
    requires Total(s, weight) > 0
    ensures i < |s| && weight(s[i]) > 0
  {
    i := 0;
    if weight(s[0]) == 0 {
      i := TotalSource(s[1..], weight);
      i := i + 1;
    }
  }

  // ----- a total as a count ---------------------------------------------------------

  function Places(i: nat, size: nat): set<(nat, nat)> {
    set j: nat | j < size :: (i, j)
  }

  lemma {:induction false} PlacesSize(i: nat, size: nat)
    ensures |Places(i, size)| == size
  {
    if size > 0 {
      PlacesSize(i, size - 1);
      assert Places(i, size) == Places(i, size - 1) + {(i, size - 1)};
      assert (i, size - 1) !in Places(i, size - 1);
    } else {
      assert Places(i, 0) == {};
    }
  }

  function Units<T>(s: seq<T>, weight: T -> nat): set<(nat, nat)> {
    set i: nat, j: nat | i < |s| && j < weight(s[i]) :: (i, j)
  }

  /** A total is how many pairs there are of a place and a unit of what weighs there. */
  lemma {:induction false} TotalIsUnits<T>(s: seq<T>, weight: T -> nat)
    ensures Total(s, weight) == |Units(s, weight)|
  {
    if s == [] {
      assert Units(s, weight) == {};
    } else {
      var front, last := s[..|s| - 1], s[|s| - 1];
      assert s == front + [last];
      TotalIsUnits(front, weight);
      TotalPush(front, last, weight);
      PlacesSize(|front|, weight(last));
      UnitsPush(front, last, weight);
    }
  }

  lemma UnitsPush<T>(s: seq<T>, x: T, weight: T -> nat)
    ensures Units(s + [x], weight) == Units(s, weight) + Places(|s|, weight(x))
    ensures Units(s, weight) !! Places(|s|, weight(x))
  {
    var all, a, b := Units(s + [x], weight), Units(s, weight), Places(|s|, weight(x));
    forall u | u in all ensures u in a + b {
      if u.0 < |s| { assert (s + [x])[u.0] == s[u.0]; }
    }
    forall u | u in a + b ensures u in all {
      if u in a { assert (s + [x])[u.0] == s[u.0]; }
    }
  }
}
