/**
 * Python's stable `list.sort(key=..., reverse=True)`: elements in descending order of a total
 * preorder, equivalent elements in their original order. Also the code-point order on strings
 * that Python uses to compare `str` values.
 */
module Sorting {

  /** `le` compares every two elements. */
  ghost predicate Total<T(!new)>(le: (T, T) -> bool) {
    forall a, b :: le(a, b) || le(b, a)
  }

  ghost predicate Transitive<T(!new)>(le: (T, T) -> bool) {
    forall a, b, c :: le(a, b) && le(b, c) ==> le(a, c)
  }

  ghost predicate Preorder<T(!new)>(le: (T, T) -> bool) {
    Total(le) && Transitive(le)
  }

  /** Every element is at least every later one. */
  predicate SortedDesc<T>(s: seq<T>, le: (T, T) -> bool) {
    forall i, j :: 0 <= i < j < |s| ==> le(s[j], s[i])
  }

  predicate Equiv<T>(le: (T, T) -> bool, a: T, b: T) {
    le(a, b) && le(b, a)
  }

  /** `x` placed after every element that is at least `x`. */
  function Insert<T>(x: T, s: seq<T>, le: (T, T) -> bool): (r: seq<T>)
    ensures multiset(r) == multiset(s) + multiset{x}
  {
    if |s| == 0 then [x]
    else if !le(x, s[0]) then [x] + s
    else
      assert s == [s[0]] + s[1..];
      [s[0]] + Insert(x, s[1..], le)
  }

  /** Insertion sort, taking the elements in their original order. */
  function SortDesc<T>(s: seq<T>, le: (T, T) -> bool): (r: seq<T>)
    ensures multiset(r) == multiset(s)
    ensures |r| == |s|
  {
    if |s| == 0 then []
    else
      assert s == s[..|s| - 1] + [s[|s| - 1]];
      var r := Insert(s[|s| - 1], SortDesc(s[..|s| - 1], le), le);
      assert |r| == |multiset(r)|;
      r
  }

  lemma {:induction false} InsertSorted<T(!new)>(x: T, s: seq<T>, le: (T, T) -> bool)
    requires Preorder(le) && SortedDesc(s, le)
    ensures SortedDesc(Insert(x, s, le), le)
    ensures |s| > 0 && le(x, s[0]) ==> Insert(x, s, le)[0] == s[0]
  {
    if |s| == 0 {
    } else if !le(x, s[0]) {
      assert le(s[0], x);
      forall j | 0 <= j < |s|
        ensures le(s[j], x)
      {
        if j > 0 {
          assert le(s[j], s[0]);
        }
      }
      ConsSorted(x, s, le);
    } else {
      InsertSorted(x, s[1..], le);
      var t := Insert(x, s[1..], le);
      assert multiset(t) == multiset(s[1..]) + multiset{x};
      forall j | 0 <= j < |t|
        ensures le(t[j], s[0])
      {
        assert t[j] in multiset(t);
        if t[j] != x {
          assert t[j] in multiset(s[1..]);
          var k :| 0 <= k < |s[1..]| && s[1..][k] == t[j];
          assert s[k + 1] == t[j];
        }
      }
      ConsSorted(s[0], t, le);
    }
  }

  /** An element at least every element of a sorted sequence, put in front, keeps it sorted. */
  lemma ConsSorted<T>(a: T, t: seq<T>, le: (T, T) -> bool)
    requires SortedDesc(t, le) && forall j :: 0 <= j < |t| ==> le(t[j], a)
    ensures SortedDesc([a] + t, le)
  {
    var r := [a] + t;
    forall i, j | 0 <= i < j < |r|
      ensures le(r[j], r[i])
    {
      assert r[j] == t[j - 1];
      if i > 0 {
        assert r[i] == t[i - 1];
      }
    }
  }

  lemma {:induction false} SortDescSorted<T(!new)>(s: seq<T>, le: (T, T) -> bool)
    requires Preorder(le)
    ensures SortedDesc(SortDesc(s, le), le)
  {
    if |s| > 0 {
      SortDescSorted(s[..|s| - 1], le);
      InsertSorted(s[|s| - 1], SortDesc(s[..|s| - 1], le), le);
    }
  }

  /** The first `m` elements of a descending sequence: still descending, and at least every element left out. */
  lemma TakeSorted<T>(s: seq<T>, m: nat, le: (T, T) -> bool)
    requires SortedDesc(s, le) && m <= |s|
    ensures SortedDesc(s[..m], le)
    ensures multiset(s[..m]) <= multiset(s)
    ensures forall f, g :: f in s && f !in s[..m] && g in s[..m] ==> le(f, g)
  {
    assert s == s[..m] + s[m..];
    assert multiset(s) == multiset(s[..m]) + multiset(s[m..]);
    forall f, g | f in s && f !in s[..m] && g in s[..m] ensures le(f, g) {
      var i :| 0 <= i < |s| && s[i] == f;
      var j :| 0 <= j < m && s[..m][j] == g;
      assert i >= m;
    }
  }

  /** The elements of `s` equivalent to `k`, in order. */
  function Ties<T>(s: seq<T>, k: T, le: (T, T) -> bool): (r: seq<T>)
    ensures |r| <= |s|
  {
    if |s| == 0 then []
    else (if Equiv(le, s[0], k) then [s[0]] else []) + Ties(s[1..], k, le)
  }

  lemma {:induction false} TiesAppend<T>(s: seq<T>, t: seq<T>, k: T, le: (T, T) -> bool)
    ensures Ties(s + t, k, le) == Ties(s, k, le) + Ties(t, k, le)
  {
    if |s| > 0 {
      assert (s + t)[1..] == s[1..] + t;
      TiesAppend(s[1..], t, k, le);
    } else {
      assert s + t == t;
    }
  }

  lemma {:induction false} TiesNone<T>(s: seq<T>, k: T, le: (T, T) -> bool)
    requires forall i :: 0 <= i < |s| ==> !le(k, s[i])
    ensures Ties(s, k, le) == []
  {
    if |s| > 0 {
      TiesNone(s[1..], k, le);
    }
  }

  /** Nothing in `s` is equivalent to something above its first element. */
  lemma AboveHeadNoTies<T(!new)>(x: T, s: seq<T>, k: T, le: (T, T) -> bool)
    requires Preorder(le) && SortedDesc(s, le)
    requires |s| > 0 && !le(x, s[0]) && Equiv(le, x, k)
    ensures Ties(s, k, le) == []
  {
    forall i | 0 <= i < |s|
      ensures !le(k, s[i])
    {
      BelowHead(x, s, k, le, i);
    }
    TiesNone(s, k, le);
  }

  lemma BelowHead<T(!new)>(x: T, s: seq<T>, k: T, le: (T, T) -> bool, i: nat)
    requires Preorder(le) && SortedDesc(s, le)
    requires i < |s| && !le(x, s[0]) && le(x, k)
    ensures !le(k, s[i])
  {
    var e, h := s[i], s[0];
    assert le(e, h) by {
      if i == 0 {
        assert le(h, h) || le(h, h);
      }
    }
    assert le(x, k) && le(e, h);
    assert le(k, e) ==> le(x, e);
    assert le(k, e) ==> le(x, h);
  }

  lemma TiesCons<T>(h: T, t: seq<T>, k: T, le: (T, T) -> bool)
    ensures Ties([h] + t, k, le) == (if Equiv(le, h, k) then [h] else []) + Ties(t, k, le)
  {
    assert ([h] + t)[1..] == t;
  }

  lemma {:induction false} InsertTies<T(!new)>(x: T, s: seq<T>, k: T, le: (T, T) -> bool)
    requires Preorder(le) && SortedDesc(s, le)
    ensures Ties(Insert(x, s, le), k, le) == Ties(s, k, le) + (if Equiv(le, x, k) then [x] else [])
  {
    if |s| == 0 {
      assert Insert(x, s, le) == [x] + s;
      TiesCons(x, s, k, le);
    } else if !le(x, s[0]) {
      assert Insert(x, s, le) == [x] + s;
      TiesCons(x, s, k, le);
      if Equiv(le, x, k) {
        AboveHeadNoTies(x, s, k, le);
      }
    } else {
      var t := s[1..];
      assert SortedDesc(t, le);
      InsertTies(x, t, k, le);
      assert Insert(x, s, le) == [s[0]] + Insert(x, t, le);
      TiesCons(s[0], Insert(x, t, le), k, le);
      TiesCons(s[0], t, k, le);
      assert s == [s[0]] + t;
    }
  }

  /** The sort is stable: the elements equivalent to any `k` keep their relative order. */
  lemma {:induction false} SortDescStable<T(!new)>(s: seq<T>, k: T, le: (T, T) -> bool)
    requires Preorder(le)
    ensures Ties(SortDesc(s, le), k, le) == Ties(s, k, le)
  {
    if |s| > 0 {
      var pre := s[..|s| - 1];
      assert s == pre + [s[|s| - 1]];
      SortDescStable(pre, k, le);
      SortDescSorted(pre, le);
      InsertTies(s[|s| - 1], SortDesc(pre, le), k, le);
      TiesAppend(pre, [s[|s| - 1]], k, le);
    }
  }

  // ---------------------------------------------------------------------------------------
  // string order

  /** Python's `a <= b` on strings: lexicographic by code point, a prefix first. */
  predicate StrLe(a: string, b: string)
    decreases |a|
  {
    |a| == 0 || (|b| > 0 && (a[0] < b[0] || (a[0] == b[0] && StrLe(a[1..], b[1..]))))
  }

  lemma {:induction false} StrLeTotal(a: string, b: string)
    ensures StrLe(a, b) || StrLe(b, a)
    decreases |a|
  {
    if |a| > 0 && |b| > 0 && a[0] == b[0] {
      StrLeTotal(a[1..], b[1..]);
    }
  }

  lemma {:induction false} StrLeTrans(a: string, b: string, c: string)
    requires StrLe(a, b) && StrLe(b, c)
    ensures StrLe(a, c)
    decreases |a|
  {
    if |a| > 0 && a[0] == b[0] && b[0] == c[0] {
      StrLeTrans(a[1..], b[1..], c[1..]);
    }
  }

  lemma StrLePreorder()
    ensures Preorder(StrLe)
  {
    forall a: string, b: string ensures StrLe(a, b) || StrLe(b, a) {
      StrLeTotal(a, b);
    }
    forall a: string, b: string, c: string | StrLe(a, b) && StrLe(b, c) ensures StrLe(a, c) {
      StrLeTrans(a, b, c);
    }
  }

  lemma {:induction false} StrLeAntisym(a: string, b: string)
    requires StrLe(a, b) && StrLe(b, a)
    ensures a == b
    decreases |a|
  {
    if |a| > 0 {
      StrLeAntisym(a[1..], b[1..]);
      assert a == [a[0]] + a[1..] && b == [b[0]] + b[1..];
    }
  }
}
