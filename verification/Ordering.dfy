/**
 Sorting. `sorted` in the program is stable and is applied to names, to event
 numbers and to flows; this module gives the one insertion sort that models it
 and the facts the rest of the project needs about its result.
 */
module Ordering {

  /** A strict total order: what every sort key in the program is compared by. */
  ghost predicate StrictTotal<T(!new)>(less: (T, T) -> bool) {
    && (forall x :: !less(x, x))
    && (forall x, y :: x != y ==> less(x, y) || less(y, x))
    && (forall x, y, z :: less(x, y) && less(y, z) ==> less(x, z))
  }

  ghost predicate Ascending<T>(less: (T, T) -> bool, s: seq<T>) {
    forall i, j :: 0 <= i < j < |s| ==> less(s[i], s[j])
  }

  /** No element occurs twice. */
  ghost predicate Distinct<T>(s: seq<T>) {
    s == [] || (s[0] !in s[1..] && Distinct(s[1..]))
  }

  lemma {:induction false} DistinctPairs<T>(s: seq<T>)
    ensures Distinct(s) <==> forall i, j :: 0 <= i < j < |s| ==> s[i] != s[j]
  {
    if s != [] {
      DistinctPairs(s[1..]);
      if Distinct(s) {
        forall i, j | 0 <= i < j < |s| ensures s[i] != s[j] {
          assert s[j] == s[1..][j - 1];
          if i > 0 { assert s[i] == s[1..][i - 1]; }
        }
      }
      if forall i, j :: 0 <= i < j < |s| ==> s[i] != s[j] {
        forall i, j | 0 <= i < j < |s[1..]| ensures s[1..][i] != s[1..][j] {
          assert s[i + 1] != s[j + 1];
        }
      }
    }
  }

  lemma {:induction false} DistinctPush<T>(s: seq<T>, x: T)
    requires Distinct(s) && x !in s
    ensures Distinct(s + [x])
  {
    if s == [] {
      assert s + [x] == [x];
    } else {
      assert (s + [x])[1..] == s[1..] + [x];
      DistinctPush(s[1..], x);
    }
  }

  /** Two strictly ascending sequences over the same elements are the same sequence. */
  lemma {:induction false} AscendingUnique<T(!new)>(less: (T, T) -> bool, a: seq<T>, b: seq<T>)
    requires forall x :: !less(x, x)
    requires forall x, y, z :: less(x, y) && less(y, z) ==> less(x, z)
    requires Ascending(less, a) && Ascending(less, b)
    requires forall x :: x in a <==> x in b
    ensures a == b
  {
    assert forall i :: 0 <= i < |a| ==> a[i] in b;
    assert forall i :: 0 <= i < |b| ==> b[i] in a;
    if a != [] && b != [] {
      assert a[0] in b && b[0] in a;
      assert a[0] == b[0];
      forall x ensures x in a[1..] <==> x in b[1..] {
        assert x in a[1..] <==> x in a && x != a[0] by { assert a == [a[0]] + a[1..]; }
        assert x in b[1..] <==> x in b && x != b[0] by { assert b == [b[0]] + b[1..]; }
      }
      AscendingUnique(less, a[1..], b[1..]);
      assert a == [a[0]] + a[1..] && b == [b[0]] + b[1..];
    }
  }

  /** A set that is not empty has a least element; this one. */
  lemma {:induction false} LeastOf<T(!new)>(less: (T, T) -> bool, s: set<T>) returns (m: T)
    requires StrictTotal(less) && s != {}
    ensures m in s && forall x :: x in s && x != m ==> less(m, x)
  {
    m :| m in s;
    if s != {m} {
      var c, rest := m, s - {m};
      var n := LeastOf(less, rest);
      m := if less(c, n) then c else n;
      forall x | x in s && x != m ensures less(m, x) {
        if x != c && x != n { assert x in rest && less(n, x); }
      }
    }
  }

  /** Insert after every element `e` is not less than: equal keys keep their arrival order. */
  function Insert<T>(less: (T, T) -> bool, s: seq<T>, e: T): (r: seq<T>)
    ensures multiset(r) == multiset(s) + multiset{e}
  {
    if s == [] then [e]
    else
      var front, last := s[..|s| - 1], s[|s| - 1];
      assert s == front + [last];
      if less(e, last) then Insert(less, front, e) + [last] else s + [e]
  }

  /** `sorted(s, key=...)`: a stable insertion sort. */
  function SortBy<T>(less: (T, T) -> bool, s: seq<T>): (r: seq<T>)
    ensures multiset(r) == multiset(s)
  {
    if s == [] then []
    else
      assert s == s[..|s| - 1] + [s[|s| - 1]];
      Insert(less, SortBy(less, s[..|s| - 1]), s[|s| - 1])
  }

  /** No element is less than one before it. */
  ghost predicate Ordered<T>(less: (T, T) -> bool, s: seq<T>) {
    forall i, j :: 0 <= i < j < |s| ==> !less(s[j], s[i])
  }

  /** What a sort key must satisfy: "not greater than" is transitive, and `less` is asymmetric. */
  ghost predicate WeakOrder<T(!new)>(less: (T, T) -> bool) {
    && (forall x, y, z :: !less(y, x) && !less(z, y) ==> !less(z, x))
    && (forall x, y :: less(x, y) ==> !less(y, x))
  }

  /** Inserting keeps a sequence ordered. */
  lemma {:induction false} InsertOrdered<T(!new)>(less: (T, T) -> bool, s: seq<T>, e: T)
    requires WeakOrder(less) && Ordered(less, s)
    ensures Ordered(less, Insert(less, s, e))
  {
    if s != [] {
      var front, last := s[..|s| - 1], s[|s| - 1];
      if less(e, last) {
        InsertOrdered(less, front, e);
        var q := Insert(less, front, e);
        forall i | 0 <= i < |q| ensures !less(last, q[i]) {
          assert q[i] in multiset(q);
          if q[i] != e {
            assert q[i] in multiset(front);
            var k :| 0 <= k < |front| && front[k] == q[i];
            assert s[k] == q[i];
          }
        }
      } else {
        forall i | 0 <= i < |s| ensures !less(e, s[i]) {
          if i < |s| - 1 { assert !less(last, s[i]); }
        }
      }
    }
  }

  lemma {:induction false} SortByOrdered<T(!new)>(less: (T, T) -> bool, s: seq<T>)
    requires WeakOrder(less)
    ensures Ordered(less, SortBy(less, s))
  {
    if s != [] {
      SortByOrdered(less, s[..|s| - 1]);
      InsertOrdered(less, SortBy(less, s[..|s| - 1]), s[|s| - 1]);
    }
  }

  /** Python compares strings character by character. */
  predicate StrLt(a: string, b: string) {
    if b == "" then false
    else if a == "" then true
    else a[0] < b[0] || (a[0] == b[0] && StrLt(a[1..], b[1..]))
  }

  /** The first place where two texts differ decides, and a text comes before what it begins. */
  lemma {:induction false} StrLtIs(a: string, b: string)
    ensures StrLt(a, b) <==>
              exists k :: 0 <= k <= |a| && k < |b| && a[..k] == b[..k] && (k == |a| || a[k] < b[k])
  {
    forall k | 0 < k <= |a| && k < |b| && a[..k] == b[..k] ensures a[0] == b[0] {
      assert a[0] == a[..k][0];
    }
    if b != "" && a != "" && a[0] == b[0] {
      StrLtIs(a[1..], b[1..]);
      assert a == [a[0]] + a[1..] && b == [b[0]] + b[1..];
      if StrLt(a, b) {
        var k :| 0 <= k <= |a[1..]| && k < |b[1..]| && a[1..][..k] == b[1..][..k]
                 && (k == |a[1..]| || a[1..][k] < b[1..][k]);
        assert a[..k + 1] == [a[0]] + a[1..][..k] && b[..k + 1] == [b[0]] + b[1..][..k];
      }
      if k :| 0 <= k <= |a| && k < |b| && a[..k] == b[..k] && (k == |a| || a[k] < b[k]) {
        assert k > 0;
        assert a[1..][..k - 1] == a[..k][1..] && b[1..][..k - 1] == b[..k][1..];
      }
    } else if StrLt(a, b) {
      assert a[..0] == b[..0];
    }
  }

  const BY_TEXT: (string, string) -> bool := (a, b) => StrLt(a, b)

  lemma {:induction false} StrLtTotal(a: string, b: string)
    ensures !StrLt(a, a)
    ensures a != b ==> StrLt(a, b) || StrLt(b, a)
  {
    if a != "" { StrLtTotal(a[1..], a[1..]); }
    if a != "" && b != "" {
      StrLtTotal(a[1..], b[1..]);
      assert a == [a[0]] + a[1..] && b == [b[0]] + b[1..];
    }
  }

  lemma {:induction false} StrLtTransitive(a: string, b: string, c: string)
    requires StrLt(a, b) && StrLt(b, c)
    ensures StrLt(a, c)
  {
    if a != "" && a[0] == b[0] && b[0] == c[0] {
      StrLtTransitive(a[1..], b[1..], c[1..]);
    }
  }

  /** The order on names and run ids is a strict total order. */
  lemma ByTextTotal()
    ensures StrictTotal(BY_TEXT)
  {
    forall x: string, y: string ensures !BY_TEXT(x, x) && (x != y ==> BY_TEXT(x, y) || BY_TEXT(y, x)) {
      StrLtTotal(x, y);
    }
    forall x: string, y: string, z: string | BY_TEXT(x, y) && BY_TEXT(y, z) ensures BY_TEXT(x, z) {
      StrLtTransitive(x, y, z);
    }
  }

  // ----- enumerating a set in order -------------------------------------------------

  lemma LeastNameExists(s: set<string>)
    requires s != {}
    ensures exists m :: m in s && forall x :: x in s ==> x == m || StrLt(m, x)
  {
    ByTextTotal();
    var m := LeastOf(BY_TEXT, s);
    assert forall x :: x in s && x != m ==> BY_TEXT(m, x);
  }

  function LeastName(s: set<string>): (m: string)
    requires s != {}
    ensures m in s && forall x :: x in s && x != m ==> StrLt(m, x)
  {
    LeastNameExists(s);
    ByTextTotal();
    assert forall x: string, y: string :: BY_TEXT(x, y) == StrLt(x, y);
    var m :| m in s && forall x :: x in s ==> x == m || StrLt(m, x);
    m
  }

  /** `sorted(names)` for a set of names. */
  function SortedNames(s: set<string>): (r: seq<string>)
    ensures forall x :: x in r <==> x in s
    ensures |r| == |s|
  {
    if s == {} then [] else
      var m := LeastName(s);
      [m] + SortedNames(s - {m})
  }

  lemma {:induction false} SortedNamesAscend(s: set<string>)
    ensures Ascending(BY_TEXT, SortedNames(s))
    ensures Distinct(SortedNames(s))
  {
    if s != {} {
      var m := LeastName(s);
      SortedNamesAscend(s - {m});
      var rest := SortedNames(s - {m});
      assert ([m] + rest)[1..] == rest;
      forall j | 0 <= j < |rest| ensures StrLt(m, rest[j]) {
        assert rest[j] in rest;
      }
    }
  }

  const BY_NUMBER: (int, int) -> bool := (a, b) => a < b

  lemma LeastNumberExists(s: set<int>)
    requires s != {}
    ensures exists m :: m in s && forall x :: x in s ==> m <= x
  {
    assert StrictTotal(BY_NUMBER);
    var m := LeastOf(BY_NUMBER, s);
    assert forall x :: x in s ==> x == m || BY_NUMBER(m, x);
  }

  function LeastNumber(s: set<int>): (m: int)
    requires s != {}
    ensures m in s && forall x :: x in s ==> m <= x
  {
    LeastNumberExists(s);
    var m :| m in s && forall x :: x in s ==> m <= x;
    m
  }

  /** `order by` for a set of numbers. */
  function SortedNumbers(s: set<int>): (r: seq<int>)
    ensures forall x :: x in r <==> x in s
    ensures |r| == |s|
  {
    if s == {} then [] else
      var m := LeastNumber(s);
      [m] + SortedNumbers(s - {m})
  }

  lemma {:induction false} SortedNumbersAscend(s: set<int>)
    ensures forall i, j :: 0 <= i < j < |SortedNumbers(s)| ==> SortedNumbers(s)[i] < SortedNumbers(s)[j]
  {
    if s != {} {
      var m := LeastNumber(s);
      SortedNumbersAscend(s - {m});
      var rest := SortedNumbers(s - {m});
      forall j | 0 <= j < |rest| ensures m < rest[j] {
        assert rest[j] in rest;
      }
    }
  }
}
