/** Text order, stable sorting, filtering and cutting: the ORDER BY, WHERE and LIMIT of the queries. */
module Sorting {

  /** Text compared by code point. */
  predicate StrLe(a: string, b: string) {
    a == [] || (b != [] && (a[0] < b[0] || (a[0] == b[0] && StrLe(a[1..], b[1..]))))
  }

  /** The texts agree up to `k`, where the first has the smaller character. */
  ghost predicate SmallerAt(a: string, b: string, k: nat) {
    k < |a| && k < |b| && a[..k] == b[..k] && a[k] < b[k]
  }

  /** Before: a beginning of the other, or smaller at the first difference. */
  lemma {:induction false} StrLeExactly(a: string, b: string)
    ensures StrLe(a, b) <==> a <= b || exists k :: SmallerAt(a, b, k)
  {
    if a != [] && b != [] {
      if a[0] == b[0] {
        StrLeExactly(a[1..], b[1..]);
        assert a == [a[0]] + a[1..] && b == [b[0]] + b[1..];
        assert a[1..] <= b[1..] <==> a <= b;
        if k: nat :| SmallerAt(a[1..], b[1..], k) {
          assert a[..k + 1] == [a[0]] + a[1..][..k] && b[..k + 1] == [b[0]] + b[1..][..k];
          assert SmallerAt(a, b, k + 1);
        }
        if k: nat :| SmallerAt(a, b, k) {
          assert a[1..][..k - 1] == a[..k][1..] && b[1..][..k - 1] == b[..k][1..];
          assert SmallerAt(a[1..], b[1..], k - 1);
        }
      } else if a[0] < b[0] {
        assert SmallerAt(a, b, 0);
      } else {
        forall k: nat ensures !SmallerAt(a, b, k) {
          if 0 < k <= |a| && k <= |b| {
            assert a[..k][0] == a[0] && b[..k][0] == b[0];
          }
        }
      }
    }
  }

  lemma {:induction false} StrLeReflexive(a: string)
    ensures StrLe(a, a)
  {
    if a != [] {
      StrLeReflexive(a[1..]);
    }
  }

  lemma {:induction false} StrLeTotal(a: string, b: string)
    ensures StrLe(a, b) || StrLe(b, a)
  {
    if a != [] && b != [] {
      StrLeTotal(a[1..], b[1..]);
    }
  }

  lemma {:induction false} StrLeAntisymmetric(a: string, b: string)
    requires StrLe(a, b) && StrLe(b, a)
    ensures a == b
  {
    if a != [] && b != [] {
      StrLeAntisymmetric(a[1..], b[1..]);
      assert a == [a[0]] + a[1..] && b == [b[0]] + b[1..];
    }
  }

  lemma {:induction false} StrLeTransitive(a: string, b: string, c: string)
    requires StrLe(a, b) && StrLe(b, c)
    ensures StrLe(a, c)
  {
    if a != [] && b != [] && c != [] && a[0] == b[0] == c[0] {
      StrLeTransitive(a[1..], b[1..], c[1..]);
    }
  }

  ghost predicate TotalOrder<T(!new)>(le: (T, T) -> bool) {
    && (forall x, y :: le(x, y) || le(y, x))
    && (forall x, y, z :: le(x, y) && le(y, z) ==> le(x, z))
  }

  ghost predicate Sorted<T>(le: (T, T) -> bool, s: seq<T>) {
    forall i, j :: 0 <= i < j < |s| ==> le(s[i], s[j])
  }

  function Insert<T>(le: (T, T) -> bool, x: T, s: seq<T>): seq<T> {
    if s == [] || le(x, s[0]) then [x] + s else [s[0]] + Insert(le, x, s[1..])
  }

  function Sort<T>(le: (T, T) -> bool, s: seq<T>): seq<T> {
    if s == [] then [] else Insert(le, s[0], Sort(le, s[1..]))
  }

  function Filter<T>(p: T -> bool, s: seq<T>): seq<T> {
    if s == [] then []
    else if p(s[0]) then [s[0]] + Filter(p, s[1..])
    else Filter(p, s[1..])
  }

  function Limit<T>(s: seq<T>, n: nat): seq<T> {
    if |s| <= n then s else s[..n]
  }

  lemma {:induction false} InsertPermutes<T>(le: (T, T) -> bool, x: T, s: seq<T>)
    ensures multiset(Insert(le, x, s)) == multiset{x} + multiset(s)
  {
    if s == [] || le(x, s[0]) {
    } else {
      InsertPermutes(le, x, s[1..]);
      assert s == [s[0]] + s[1..];
    }
  }

  lemma {:induction false} SortPermutes<T>(le: (T, T) -> bool, s: seq<T>)
    ensures multiset(Sort(le, s)) == multiset(s)
  {
    if s != [] {
      SortPermutes(le, s[1..]);
      InsertPermutes(le, s[0], Sort(le, s[1..]));
      assert s == [s[0]] + s[1..];
    }
  }

  lemma SortMembers<T>(le: (T, T) -> bool, s: seq<T>, x: T)
    ensures x in Sort(le, s) <==> x in s
    ensures |Sort(le, s)| == |s|
  {
    SortPermutes(le, s);
    assert x in multiset(s) <==> x in s;
    assert |multiset(Sort(le, s))| == |Sort(le, s)|;
  }

  lemma {:induction false} InsertSorted<T(!new)>(le: (T, T) -> bool, x: T, s: seq<T>)
    requires TotalOrder(le) && Sorted(le, s)
    ensures Sorted(le, Insert(le, x, s))
  {
    if s == [] || le(x, s[0]) {
    } else {
      InsertSorted(le, x, s[1..]);
      InsertPermutes(le, x, s[1..]);
      var r := Insert(le, x, s[1..]);
      forall j | 0 <= j < |r| ensures le(s[0], r[j]) {
        assert r[j] in multiset(r);
        assert r[j] == x || r[j] in s[1..];
      }
    }
  }

  lemma {:induction false} SortSorted<T(!new)>(le: (T, T) -> bool, s: seq<T>)
    requires TotalOrder(le)
    ensures Sorted(le, Sort(le, s))
  {
    if s != [] {
      SortSorted(le, s[1..]);
      InsertSorted(le, s[0], Sort(le, s[1..]));
    }
  }

  lemma {:induction false} FilterMembers<T>(p: T -> bool, s: seq<T>, x: T)
    ensures x in Filter(p, s) <==> x in s && p(x)
  {
    if s != [] {
      FilterMembers(p, s[1..], x);
    }
  }

  lemma {:induction false} FilterAppend<T>(p: T -> bool, a: seq<T>, b: seq<T>)
    ensures Filter(p, a + b) == Filter(p, a) + Filter(p, b)
  {
    if a == [] {
      assert a + b == b;
    } else {
      assert (a + b)[1..] == a[1..] + b;
      FilterAppend(p, a[1..], b);
    }
  }

  lemma {:induction false} FilterSame<T>(p: T -> bool, q: T -> bool, s: seq<T>)
    requires forall x :: x in s ==> p(x) == q(x)
    ensures Filter(p, s) == Filter(q, s)
  {
    if s != [] {
      FilterSame(p, q, s[1..]);
    }
  }

  lemma {:induction false} FilterAll<T>(p: T -> bool, s: seq<T>)
    requires forall x :: x in s ==> p(x)
    ensures Filter(p, s) == s
  {
    if s != [] {
      FilterAll(p, s[1..]);
    }
  }

  lemma {:induction false} FilterNone<T>(p: T -> bool, s: seq<T>)
    requires forall x :: x in s ==> !p(x)
    ensures Filter(p, s) == []
  {
    if s != [] {
      FilterNone(p, s[1..]);
    }
  }

  /** Where the condition holds exactly from `n` on, filtering is dropping. */
  lemma FilterSuffix<T>(p: T -> bool, s: seq<T>, n: nat)
    requires n <= |s| && (forall i :: 0 <= i < n ==> !p(s[i])) && (forall i :: n <= i < |s| ==> p(s[i]))
    ensures Filter(p, s) == s[n..]
  {
    assert s == s[..n] + s[n..];
    FilterAppend(p, s[..n], s[n..]);
    FilterNone(p, s[..n]);
    FilterAll(p, s[n..]);
  }

  lemma {:induction false} FilterFilter<T>(p: T -> bool, q: T -> bool, both: T -> bool, s: seq<T>)
    requires forall x :: x in s ==> both(x) == (q(x) && p(x))
    ensures Filter(p, Filter(q, s)) == Filter(both, s)
  {
    if s != [] {
      FilterFilter(p, q, both, s[1..]);
      if q(s[0]) {
        assert ([s[0]] + Filter(q, s[1..]))[1..] == Filter(q, s[1..]);
      }
    }
  }

  lemma {:induction false} FilterSorted<T>(le: (T, T) -> bool, p: T -> bool, s: seq<T>)
    requires Sorted(le, s)
    ensures Sorted(le, Filter(p, s))
  {
    if s != [] {
      FilterSorted(le, p, s[1..]);
      if p(s[0]) {
        var r := Filter(p, s[1..]);
        forall j | 0 <= j < |r| ensures le(s[0], r[j]) {
          FilterMembers(p, s[1..], r[j]);
          var k :| 0 <= k < |s[1..]| && s[1..][k] == r[j];
          assert s[k + 1] == r[j];
        }
      }
    }
  }

  lemma {:induction false} FilterInsert<T(!new)>(le: (T, T) -> bool, p: T -> bool, x: T, s: seq<T>)
    requires TotalOrder(le) && Sorted(le, s)
    ensures Filter(p, Insert(le, x, s)) == if p(x) then Insert(le, x, Filter(p, s)) else Filter(p, s)
  {
    if s == [] {
    } else if le(x, s[0]) {
      assert ([x] + s)[1..] == s;
      if p(x) {
        var r := Filter(p, s);
        if r != [] {
          FilterMembers(p, s, r[0]);
          var k :| 0 <= k < |s| && s[k] == r[0];
          assert le(x, r[0]);
        }
      }
    } else {
      var rest := Insert(le, x, s[1..]);
      assert ([s[0]] + rest)[1..] == rest;
      FilterInsert(le, p, x, s[1..]);
      if p(s[0]) && p(x) {
        assert ([s[0]] + Filter(p, s[1..]))[1..] == Filter(p, s[1..]);
      } else if p(x) {
        // `s[0]` is dropped, and `x` still goes where the rest of the order puts it.
      }
    }
  }

  /** Selecting rows and sorting them commute: the sort is stable. */
  lemma {:induction false} FilterSort<T(!new)>(le: (T, T) -> bool, p: T -> bool, s: seq<T>)
    requires TotalOrder(le)
    ensures Filter(p, Sort(le, s)) == Sort(le, Filter(p, s))
  {
    if s != [] {
      FilterSort(le, p, s[1..]);
      SortSorted(le, s[1..]);
      FilterInsert(le, p, s[0], Sort(le, s[1..]));
      if p(s[0]) {
        assert ([s[0]] + Filter(p, s[1..]))[1..] == Filter(p, s[1..]);
      }
    }
  }

  lemma {:induction false} InsertSame<T>(le: (T, T) -> bool, le': (T, T) -> bool, x: T, s: seq<T>)
    requires forall y :: y in s ==> le(x, y) == le'(x, y)
    ensures Insert(le, x, s) == Insert(le', x, s)
  {
    if s != [] && !le(x, s[0]) {
      InsertSame(le, le', x, s[1..]);
    }
  }

  /** Two orders that agree on the rows at hand sort them alike. */
  lemma {:induction false} SortSame<T>(le: (T, T) -> bool, le': (T, T) -> bool, s: seq<T>)
    requires forall x, y :: x in s && y in s ==> le(x, y) == le'(x, y)
    ensures Sort(le, s) == Sort(le', s)
  {
    if s != [] {
      SortSame(le, le', s[1..]);
      forall y | y in Sort(le, s[1..]) ensures le(s[0], y) == le'(s[0], y) {
        SortMembers(le, s[1..], y);
      }
      InsertSame(le, le', s[0], Sort(le, s[1..]));
    }
  }

  /** The elements of a finite set in text order. */
  ghost function Ascending(s: set<string>): (r: seq<string>)
    ensures forall x :: x in r <==> x in s
    ensures Sorted(StrLe, r)
    ensures |r| == |s|
  {
    if s == {} then [] else
      LeastExists(s);
      var m :| m in s && forall y :: y in s ==> StrLe(m, y);
      [m] + Ascending(s - {m})
  }

  lemma {:induction false} LeastExists(s: set<string>)
    requires s != {}
    ensures exists m :: m in s && forall y :: y in s ==> StrLe(m, y)
  {
    var x :| x in s;
    StrLeReflexive(x);
    if s == {x} {
      assert forall y :: y in s ==> StrLe(x, y);
    } else {
      LeastExists(s - {x});
      var m :| m in s - {x} && forall y :: y in s - {x} ==> StrLe(m, y);
      StrLeTotal(x, m);
      if StrLe(m, x) {
        assert forall y :: y in s ==> StrLe(m, y);
      } else {
        forall y | y in s ensures StrLe(x, y) {
          if y != x {
            StrLeTransitive(x, m, y);
          }
        }
      }
    }
  }

  lemma LeastIsUnique(s: set<string>, m: string, n: string)
    requires m in s && (forall y :: y in s ==> StrLe(m, y))
    requires n in s && (forall y :: y in s ==> StrLe(n, y))
    ensures m == n
  {
    StrLeAntisymmetric(m, n);
  }

  method Least(keys: set<string>) returns (m: string)
    requires keys != {}
    ensures m in keys && Ascending(keys) == [m] + Ascending(keys - {m})
  {
    LeastExists(keys);
    m :| m in keys && forall y :: y in keys ==> StrLe(m, y);
    FirstAscending(keys, m);
  }

  /** ORDER BY on a text key. */
  method OrderById(keys: set<string>) returns (ids: seq<string>)
    ensures ids == Ascending(keys)
  {
    hide Ascending, StrLe, Sorted;
    var rest := keys;
    ids := [];
    while rest != {}
      invariant Ascending(keys) == ids + Ascending(rest)
      decreases rest
    {
      var m := Least(rest);
      assert ids + ([m] + Ascending(rest - {m})) == (ids + [m]) + Ascending(rest - {m});
      ids := ids + [m];
      rest := rest - {m};
    }
  }

  lemma FirstAscending(s: set<string>, m: string)
    requires m in s && (forall y :: y in s ==> StrLe(m, y))
    ensures Ascending(s) == [m] + Ascending(s - {m})
  {
    LeastExists(s);
    var n := Ascending(s)[0];
    assert forall y :: y in s ==> StrLe(n, y);
    LeastIsUnique(s, m, n);
  }

  // ---- Sequences without repetition

  predicate NoDup<T(==)>(s: seq<T>) {
    forall i, j :: 0 <= i < j < |s| ==> s[i] != s[j]
  }

  lemma {:induction false} NoDupCount<T>(s: seq<T>)
    ensures NoDup(s) <==> forall x :: x in multiset(s) ==> multiset(s)[x] == 1
  {
    if s != [] {
      var rest := s[1..];
      NoDupCount(rest);
      assert s == [s[0]] + rest;
      assert multiset(s) == multiset{s[0]} + multiset(rest);
      if NoDup(s) {
        assert s[0] !in rest;
        assert forall i :: 0 <= i < |rest| ==> rest[i] == s[i + 1];
      } else if s[0] !in rest {
        assert !NoDup(rest);
        var x :| x in multiset(rest) && multiset(rest)[x] != 1;
        assert multiset(s)[x] >= 2;
      } else {
        assert multiset(s)[s[0]] >= 2;
      }
    }
  }

  lemma SortNoDup<T>(le: (T, T) -> bool, s: seq<T>)
    requires NoDup(s)
    ensures NoDup(Sort(le, s))
  {
    SortPermutes(le, s);
    NoDupCount(s);
    NoDupCount(Sort(le, s));
  }

  lemma {:induction false} FilterNoDup<T>(p: T -> bool, s: seq<T>)
    requires NoDup(s)
    ensures NoDup(Filter(p, s))
  {
    if s != [] {
      FilterNoDup(p, s[1..]);
      if p(s[0]) {
        FilterMembers(p, s[1..], s[0]);
        assert s[0] !in s[1..];
      }
    }
  }

  lemma SameSizeSubset<T>(a: set<T>, b: set<T>)
    requires a <= b && |a| == |b|
    ensures a == b
  {
    if a != b {
      var x :| x in b && x !in a;
      SubsetSize(a, b - {x});
    }
  }

  lemma {:induction false} SubsetSize<T>(a: set<T>, b: set<T>)
    requires a <= b
    ensures |a| <= |b|
  {
    if a != {} {
      var x :| x in a;
      SubsetSize(a - {x}, b - {x});
    }
  }

  lemma {:induction false} MembersCount<T>(s: seq<T>)
    ensures |set x | x in s| <= |s|
    ensures |set x | x in s| == |s| <==> NoDup(s)
  {
    if s != [] {
      var rest, whole := s[1..], (set x | x in s);
      MembersCount(rest);
      var part := set x | x in rest;
      assert whole == part + {s[0]};
      if s[0] in rest {
        assert whole == part;
        var k :| 0 <= k < |rest| && rest[k] == s[0];
        assert s[k + 1] == s[0];
      } else {
        assert |whole| == |part| + 1;
        if NoDup(s) {
          assert forall i :: 0 <= i < |rest| ==> rest[i] == s[i + 1];
        }
      }
    }
  }
}
