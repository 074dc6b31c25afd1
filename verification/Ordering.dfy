/** Sorting by a total order, and why its result is the only possible one. */
module Ordering {

  /** `le` orders the elements of `d` totally. */
  ghost predicate TotalOn<T(!new)>(le: (T, T) -> bool, d: multiset<T>) {
    && (forall x, y {:trigger le(x, y)} :: x in d && y in d ==> le(x, y) || le(y, x))
    && (forall x, y {:trigger le(x, y), le(y, x)} :: x in d && y in d && le(x, y) && le(y, x) ==> x == y)
    && (forall x, y, z {:trigger le(x, y), le(y, z)} :: x in d && y in d && z in d && le(x, y) && le(y, z) ==> le(x, z))
  }

  ghost predicate SortedBy<T(!new)>(le: (T, T) -> bool, s: seq<T>) {
    forall i, j :: 0 <= i < j < |s| ==> le(s[i], s[j])
  }

  function Insert<T>(le: (T, T) -> bool, x: T, s: seq<T>): (r: seq<T>)
    ensures multiset(r) == multiset(s) + multiset{x}
  {
    if s == [] || le(x, s[0]) then [x] + s
    else
      assert s == [s[0]] + s[1..];
      [s[0]] + Insert(le, x, s[1..])
  }

  function Sort<T>(le: (T, T) -> bool, s: seq<T>): (r: seq<T>)
    ensures multiset(r) == multiset(s) && |r| == |s|
  {
    if s == [] then []
    else
      assert s == [s[0]] + s[1..];
      var r := Insert(le, s[0], Sort(le, s[1..]));
      assert |r| == |multiset(r)| && |s| == |multiset(s)|;
      r
  }

  /** `x` comes before every element. */
  ghost predicate Before<T(!new)>(le: (T, T) -> bool, x: T, s: seq<T>) {
    forall j :: 0 <= j < |s| ==> le(x, s[j])
  }

  lemma SortedCons<T(!new)>(le: (T, T) -> bool, x: T, s: seq<T>)
    requires Before(le, x, s) && SortedBy(le, s)
    ensures SortedBy(le, [x] + s)
  {
  }

  lemma BeforeHead<T(!new)>(le: (T, T) -> bool, x: T, s: seq<T>)
    requires s != [] && TotalOn(le, multiset(s) + multiset{x}) && SortedBy(le, s) && le(x, s[0])
    ensures Before(le, x, s)
  {
    forall j | 0 <= j < |s|
      ensures le(x, s[j])
    {
      assert s[j] in multiset(s) && s[0] in multiset(s) && x in multiset(s) + multiset{x};
    }
  }

  lemma HeadBeforeInsert<T(!new)>(le: (T, T) -> bool, x: T, s: seq<T>)
    requires s != [] && TotalOn(le, multiset(s) + multiset{x}) && SortedBy(le, s) && !le(x, s[0])
    ensures Before(le, s[0], Insert(le, x, s[1..]))
  {
    var rest := Insert(le, x, s[1..]);
    assert s[0] in multiset(s) + multiset{x} && x in multiset(s) + multiset{x};
    forall j | 0 <= j < |rest|
      ensures le(s[0], rest[j])
    {
      assert rest[j] in multiset(rest);
      assert rest[j] == x || rest[j] in s[1..];
    }
  }

  lemma {:induction false} InsertSorted<T(!new)>(le: (T, T) -> bool, x: T, s: seq<T>)
    requires TotalOn(le, multiset(s) + multiset{x}) && SortedBy(le, s)
    ensures SortedBy(le, Insert(le, x, s))
  {
    if s == [] {
    } else if le(x, s[0]) {
      BeforeHead(le, x, s);
      SortedCons(le, x, s);
    } else {
      assert multiset(s) == multiset{s[0]} + multiset(s[1..]) by { assert s == [s[0]] + s[1..]; }
      InsertSorted(le, x, s[1..]);
      HeadBeforeInsert(le, x, s);
      SortedCons(le, s[0], Insert(le, x, s[1..]));
    }
  }

  lemma {:induction false} SortSorted<T(!new)>(le: (T, T) -> bool, s: seq<T>)
    requires TotalOn(le, multiset(s))
    ensures SortedBy(le, Sort(le, s))
  {
    if s != [] {
      assert s == [s[0]] + s[1..];
      assert multiset(s) == multiset(s[1..]) + multiset{s[0]};
      SortSorted(le, s[1..]);
      InsertSorted(le, s[0], Sort(le, s[1..]));
    }
  }

  /** The first element of a sorted list comes before all its elements. */
  lemma HeadFirst<T(!new)>(le: (T, T) -> bool, a: seq<T>, x: T)
    requires a != [] && SortedBy(le, a) && TotalOn(le, multiset(a)) && x in multiset(a)
    ensures le(a[0], x)
  {
    var i :| 0 <= i < |a| && a[i] == x;
    assert a[0] in multiset(a);
    if i == 0 {
      assert le(x, x) || le(x, x);
    }
  }

  lemma TailMultiset<T>(a: seq<T>)
    requires a != []
    ensures multiset(a[1..]) == multiset(a) - multiset{a[0]}
  {
    assert a == [a[0]] + a[1..];
  }

  lemma TailTotal<T(!new)>(le: (T, T) -> bool, a: seq<T>)
    requires a != [] && TotalOn(le, multiset(a))
    ensures TotalOn(le, multiset(a[1..]))
  {
    TailMultiset(a);
  }

  lemma SameHead<T(!new)>(le: (T, T) -> bool, a: seq<T>, b: seq<T>)
    requires a != [] && b != [] && multiset(a) == multiset(b) && TotalOn(le, multiset(a))
    requires SortedBy(le, a) && SortedBy(le, b)
    ensures a[0] == b[0]
  {
    assert a[0] in multiset(a) && b[0] in multiset(b);
    HeadFirst(le, a, b[0]);
    HeadFirst(le, b, a[0]);
  }

  lemma TailSorted<T(!new)>(le: (T, T) -> bool, a: seq<T>)
    requires a != [] && SortedBy(le, a)
    ensures SortedBy(le, a[1..])
  {
  }

  /** Two sorted arrangements of the same elements are the same list. */
  lemma {:induction false} SortedUnique<T(!new)>(le: (T, T) -> bool, a: seq<T>, b: seq<T>)
    requires multiset(a) == multiset(b) && TotalOn(le, multiset(a))
    requires SortedBy(le, a) && SortedBy(le, b)
    ensures a == b
  {
    assert |a| == |multiset(a)| == |multiset(b)| == |b|;
    if a != [] {
      assert a[1..] == b[1..] by {
        SameHead(le, a, b);
        TailMultiset(a);
        TailMultiset(b);
        TailTotal(le, a);
        TailSorted(le, a);
        TailSorted(le, b);
        SortedUnique(le, a[1..], b[1..]);
      }
      SameHead(le, a, b);
      assert a == [a[0]] + a[1..] && b == [b[0]] + b[1..];
    }
  }

  /** No element beyond a prefix of a sorted list comes before one inside it. */
  lemma PrefixBest<T(!new)>(le: (T, T) -> bool, s: seq<T>, n: nat, x: T, y: T)
    requires SortedBy(le, s) && n <= |s| && x in s[..n] && y in s[n..]
    ensures le(x, y)
  {
    var i :| 0 <= i < n && s[i] == x;
    var j :| 0 <= j < |s| - n && s[n..][j] == y;
    assert s[n + j] == y;
  }

  // --- Strings, by code point -------------------------------------------

  predicate StrLe(a: string, b: string) {
    a == [] || (b != [] && (a[0] < b[0] || (a[0] == b[0] && StrLe(a[1..], b[1..]))))
  }

  lemma {:induction false} StrLeTotal(a: string, b: string)
    ensures StrLe(a, b) || StrLe(b, a)
    ensures StrLe(a, b) && StrLe(b, a) ==> a == b
  {
    if a != [] && b != [] {
      StrLeTotal(a[1..], b[1..]);
      assert a == [a[0]] + a[1..] && b == [b[0]] + b[1..];
    }
  }

  /** One text is the other's beginning, or has the lower character where they first differ. */
  predicate DiffersAt(a: string, b: string, k: nat) {
    && k <= |a| && k <= |b| && a[..k] == b[..k]
    && (k == |a| || (k < |b| && a[k] < b[k]))
  }

  lemma {:induction false} StrLeIs(a: string, b: string)
    ensures StrLe(a, b) <==> exists k: nat :: DiffersAt(a, b, k)
  {
    if a == [] {
      assert DiffersAt(a, b, 0);
    } else if b != [] && a[0] == b[0] {
      StrLeIs(a[1..], b[1..]);
      if k: nat :| DiffersAt(a, b, k) {
        assert k > 0 && a[..k][1..] == a[1..][..k - 1] && b[..k][1..] == b[1..][..k - 1];
        assert DiffersAt(a[1..], b[1..], k - 1);
      }
      if k: nat :| DiffersAt(a[1..], b[1..], k) {
        assert a[..k + 1] == [a[0]] + a[1..][..k] && b[..k + 1] == [b[0]] + b[1..][..k];
        assert DiffersAt(a, b, k + 1);
      }
    } else if b != [] {
      assert a[0] < b[0] ==> DiffersAt(a, b, 0);
      assert forall k: nat :: DiffersAt(a, b, k) && k > 0 ==> a[..k][0] == b[..k][0];
    }
  }

  lemma {:induction false} StrLeTransitive(a: string, b: string, c: string)
    requires StrLe(a, b) && StrLe(b, c)
    ensures StrLe(a, c)
  {
    if a != [] && a[0] == b[0] == c[0] {
      StrLeTransitive(a[1..], b[1..], c[1..]);
    }
  }
}
