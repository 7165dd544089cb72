/** A stable sort, the behaviour `Array.prototype.sort` guarantees. A
    comparator is read as a relation `le`: `le(a, b)` holds when the
    comparator does not ask for `b` to come before `a`. */
module Sorting {
  import Seqs

  /** `le` ranks any two values and is transitive: what a consistent
      comparator gives. */
  ghost predicate TotalPreorder<T(!new)>(le: (T, T) -> bool) {
    && (forall a, b :: le(a, b) || le(b, a))
    && (forall a, b, c :: le(a, b) && le(b, c) ==> le(a, c))
  }

  ghost predicate SortedBy<T>(s: seq<T>, le: (T, T) -> bool) {
    forall i, j | 0 <= i < j < |s| :: le(s[i], s[j])
  }

  /** Inserts `x` before the first element it does not rank after. */
  function Insert<T>(x: T, s: seq<T>, le: (T, T) -> bool): (r: seq<T>)
    ensures multiset(r) == multiset(s) + multiset{x}
  {
    if |s| == 0 then [x]
    else if le(x, s[0]) then [x] + s
    else
      assert s == [s[0]] + s[1..];
      [s[0]] + Insert(x, s[1..], le)
  }

  /** Insertion sort: each element is inserted, from the last to the first,
      into the sorted rest, so earlier elements precede equal later ones. */
  function InsertionSort<T>(s: seq<T>, le: (T, T) -> bool): (r: seq<T>)
    ensures multiset(r) == multiset(s)
  {
    if |s| == 0 then []
    else
      assert s == [s[0]] + s[1..];
      Insert(s[0], InsertionSort(s[1..], le), le)
  }

  lemma {:induction false} InsertSorted<T(!new)>(x: T, s: seq<T>, le: (T, T) -> bool)
    requires TotalPreorder(le)
    requires SortedBy(s, le)
    ensures SortedBy(Insert(x, s, le), le)
  {
    if |s| > 0 && !le(x, s[0]) {
      var rest := Insert(x, s[1..], le);
      InsertSorted(x, s[1..], le);
      assert le(s[0], x);
      forall k | 0 <= k < |rest| ensures le(s[0], rest[k]) {
        assert rest[k] in multiset(rest);
        assert rest[k] == x || rest[k] in multiset(s[1..]);
        if rest[k] != x {
          var m :| 0 <= m < |s[1..]| && s[1..][m] == rest[k];
          assert s[1..][m] == s[m + 1];
        }
      }
      var r := [s[0]] + rest;
      assert r == Insert(x, s, le);
      forall i, j | 0 <= i < j < |r| ensures le(r[i], r[j]) {
        if i == 0 {
          assert r[j] == rest[j - 1];
        } else {
          assert r[i] == rest[i - 1] && r[j] == rest[j - 1];
        }
      }
    }
  }

  lemma {:induction false} InsertionSortSorted<T(!new)>(s: seq<T>, le: (T, T) -> bool)
    requires TotalPreorder(le)
    ensures SortedBy(InsertionSort(s, le), le)
  {
    if |s| > 0 {
      InsertionSortSorted(s[1..], le);
      InsertSorted(s[0], InsertionSort(s[1..], le), le);
    }
  }

  /** `le` ranks `a` and `b` equal. */
  predicate Tied<T>(a: T, b: T, le: (T, T) -> bool) {
    le(a, b) && le(b, a)
  }

  /** The elements of `s` that `le` ranks equal to `k`, in order. */
  function Ties<T>(s: seq<T>, k: T, le: (T, T) -> bool): (r: seq<T>)
    ensures forall i | 0 <= i < |r| :: Tied(r[i], k, le)
  {
    if |s| == 0 then []
    else (if Tied(s[0], k, le) then [s[0]] else []) + Ties(s[1..], k, le)
  }

  /** Unfolds `Ties` on a sequence split into its head and the rest. */
  lemma TiesCons<T>(y: T, s: seq<T>, k: T, le: (T, T) -> bool)
    ensures Ties([y] + s, k, le) == (if Tied(y, k, le) then [y] else []) + Ties(s, k, le)
  {
    assert ([y] + s)[0] == y;
    assert ([y] + s)[1..] == s;
  }

  /** Unfolds `Insert` when `x` goes after the head of `s`. */
  lemma InsertPastHead<T>(x: T, s: seq<T>, le: (T, T) -> bool)
    requires |s| > 0 && !le(x, s[0])
    ensures Insert(x, s, le) == [s[0]] + Insert(x, s[1..], le)
  {
  }

  /** What transitivity says about `x` placed after `y`: `y` is not tied with
      anything `x` is tied with. */
  lemma AfterNotTied<T(!new)>(x: T, y: T, k: T, le: (T, T) -> bool)
    requires TotalPreorder(le)
    requires !le(x, y) && Tied(x, k, le)
    ensures !Tied(y, k, le)
  {
  }

  lemma {:induction false} InsertStable<T(!new)>(x: T, s: seq<T>, k: T, le: (T, T) -> bool)
    requires TotalPreorder(le)
    ensures Ties(Insert(x, s, le), k, le)
         == (if Tied(x, k, le) then [x] + Ties(s, k, le) else Ties(s, k, le))
  {
    if |s| == 0 || le(x, s[0]) {
      assert Insert(x, s, le) == [x] + s;
      TiesCons(x, s, k, le);
    } else {
      var rest := Insert(x, s[1..], le);
      InsertPastHead(x, s, le);
      TiesCons(s[0], rest, k, le);
      TiesCons(s[0], s[1..], k, le);
      assert [s[0]] + s[1..] == s;
      InsertStable(x, s[1..], k, le);
      if Tied(x, k, le) {
        AfterNotTied(x, s[0], k, le);
      }
    }
  }

  /** Stability: elements the order ranks equal keep their input order. */
  lemma {:induction false} InsertionSortStable<T(!new)>(s: seq<T>, k: T, le: (T, T) -> bool)
    requires TotalPreorder(le)
    ensures Ties(InsertionSort(s, le), k, le) == Ties(s, k, le)
  {
    if |s| > 0 {
      InsertionSortStable(s[1..], k, le);
      InsertStable(s[0], InsertionSort(s[1..], le), k, le);
    }
  }
}
