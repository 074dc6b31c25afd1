/**
 Dictionaries that accumulate amounts by name: what `d[name] = d.get(name, zero) + amount` builds,
 as a commutative monoid.
 */
module Tallies {
  import opened Wrappers

  /** The amounts of a dictionary: whole counts, or (count, milliseconds) pairs. */
  datatype Adder<!V(!new)> = Adder(zero: V, plus: (V, V) -> V)
  {
    ghost predicate Lawful() {
      && (forall a {:trigger plus(a, zero)} {:trigger plus(zero, a)} :: plus(a, zero) == a && plus(zero, a) == a)
      && (forall a, b {:trigger plus(a, b)} :: plus(a, b) == plus(b, a))
      && (forall a, b, c {:trigger plus(plus(a, b), c)} :: plus(plus(a, b), c) == plus(a, plus(b, c)))
    }
  }

  function Lookup<V(!new)>(ad: Adder<V>, m: map<string, V>, name: string): V {
    if name in m then m[name] else ad.zero
  }

  function Bump<V(!new)>(ad: Adder<V>, m: map<string, V>, name: string, amount: V): map<string, V> {
    m[name := ad.plus(Lookup(ad, m, name), amount)]
  }

  /** The pointwise sum. */
  function Merge<V(!new)>(ad: Adder<V>, a: map<string, V>, b: map<string, V>): map<string, V> {
    map n | n in a.Keys + b.Keys :: ad.plus(Lookup(ad, a, n), Lookup(ad, b, n))
  }

  /** Entries accumulated from left to right. */
  function Tally<V(!new)>(ad: Adder<V>, entries: seq<(string, V)>): map<string, V> {
    if entries == [] then map[]
    else
      var last := entries[|entries| - 1];
      Bump(ad, Tally(ad, entries[..|entries| - 1]), last.0, last.1)
  }

  lemma MergeNothing<V(!new)>(ad: Adder<V>, a: map<string, V>)
    requires ad.Lawful()
    ensures Merge(ad, a, map[]) == a && Merge(ad, map[], a) == a
  {
    assert forall n :: n in a ==> ad.plus(a[n], ad.zero) == a[n];
  }

  lemma MergeCommutes<V(!new)>(ad: Adder<V>, a: map<string, V>, b: map<string, V>)
    requires ad.Lawful()
    ensures Merge(ad, a, b) == Merge(ad, b, a)
  {
  }

  lemma MergeAssociates<V(!new)>(ad: Adder<V>, a: map<string, V>, b: map<string, V>, c: map<string, V>)
    requires ad.Lawful()
    ensures Merge(ad, Merge(ad, a, b), c) == Merge(ad, a, Merge(ad, b, c))
  {
    var l, r := Merge(ad, Merge(ad, a, b), c), Merge(ad, a, Merge(ad, b, c));
    assert l.Keys == r.Keys;
    forall n | n in l.Keys ensures l[n] == r[n] {
      var x, y, z := Lookup(ad, a, n), Lookup(ad, b, n), Lookup(ad, c, n);
      LookupMerge(ad, a, b, n);
      LookupMerge(ad, b, c, n);
      assert ad.plus(ad.plus(x, y), z) == ad.plus(x, ad.plus(y, z));
    }
  }

  lemma LookupMerge<V(!new)>(ad: Adder<V>, a: map<string, V>, b: map<string, V>, n: string)
    requires ad.Lawful()
    ensures Lookup(ad, Merge(ad, a, b), n) == ad.plus(Lookup(ad, a, n), Lookup(ad, b, n))
  {
    assert ad.plus(ad.zero, ad.zero) == ad.zero;
  }

  /** Accumulating one more entry into a merged dictionary is accumulating it into the second part. */
  lemma BumpMerge<V(!new)>(ad: Adder<V>, a: map<string, V>, b: map<string, V>, name: string, amount: V)
    requires ad.Lawful()
    ensures Bump(ad, Merge(ad, a, b), name, amount) == Merge(ad, a, Bump(ad, b, name, amount))
  {
    var l, r := Bump(ad, Merge(ad, a, b), name, amount), Merge(ad, a, Bump(ad, b, name, amount));
    LookupMerge(ad, a, b, name);
    var x, y := Lookup(ad, a, name), Lookup(ad, b, name);
    assert l[name] == ad.plus(ad.plus(x, y), amount);
    assert r[name] == ad.plus(x, ad.plus(y, amount));
    assert l.Keys == r.Keys;
    forall n | n in l && n != name ensures l[n] == r[n] {
      assert Lookup(ad, Bump(ad, b, name, amount), n) == Lookup(ad, b, n);
    }
  }

  /** Tallying is a homomorphism from concatenation to pointwise sum. */
  lemma {:induction false} TallyConcat<V(!new)>(ad: Adder<V>, a: seq<(string, V)>, b: seq<(string, V)>)
    requires ad.Lawful()
    ensures Tally(ad, a + b) == Merge(ad, Tally(ad, a), Tally(ad, b))
    decreases |b|
  {
    if b == [] {
      assert a + b == a;
      MergeNothing(ad, Tally(ad, a));
    } else {
      var init, last := b[..|b| - 1], b[|b| - 1];
      assert (a + b)[..|a + b| - 1] == a + init;
      TallyConcat(ad, a, init);
      BumpMerge(ad, Tally(ad, a), Tally(ad, init), last.0, last.1);
    }
  }

  // --- Totals -----------------------------------------------------------

  function SumEntries<V(!new)>(ad: Adder<V>, entries: seq<(string, V)>): V {
    if entries == [] then ad.zero
    else ad.plus(SumEntries(ad, entries[..|entries| - 1]), entries[|entries| - 1].1)
  }

  /** The entries list the dictionary: every name once, with its amount. */
  ghost predicate Lists<V(!new)>(entries: seq<(string, V)>, m: map<string, V>) {
    && (forall i, j :: 0 <= i < j < |entries| ==> entries[i].0 != entries[j].0)
    && (forall i :: 0 <= i < |entries| ==> entries[i].0 in m && m[entries[i].0] == entries[i].1)
    && (forall n :: n in m ==> (n, m[n]) in entries)
  }

  /** The sum of the entries with one name. */
  function SumOf<V(!new)>(ad: Adder<V>, entries: seq<(string, V)>, name: string): V {
    if entries == [] then ad.zero
    else
      var last, rest := entries[|entries| - 1], SumOf(ad, entries[..|entries| - 1], name);
      if last.0 == name then ad.plus(rest, last.1) else rest
  }

  /** Each name's amount is the sum of exactly its own entries. */
  lemma {:induction false} TallyIsSumByName<V(!new)>(ad: Adder<V>, entries: seq<(string, V)>, name: string)
    requires ad.Lawful()
    ensures Lookup(ad, Tally(ad, entries), name) == SumOf(ad, entries, name)
    ensures name in Tally(ad, entries) <==> exists i :: 0 <= i < |entries| && entries[i].0 == name
  {
    if entries != [] {
      var init := entries[..|entries| - 1];
      TallyIsSumByName(ad, init, name);
      assert forall i :: 0 <= i < |init| ==> init[i] == entries[i];
    }
  }

  lemma {:induction false} SumOfConcat<V(!new)>(ad: Adder<V>, a: seq<(string, V)>, b: seq<(string, V)>, name: string)
    requires ad.Lawful()
    ensures SumOf(ad, a + b, name) == ad.plus(SumOf(ad, a, name), SumOf(ad, b, name))
    decreases |b|
  {
    if b == [] {
      assert a + b == a;
    } else {
      var init, last := b[..|b| - 1], b[|b| - 1];
      assert (a + b)[..|a + b| - 1] == a + init;
      SumOfConcat(ad, a, init, name);
      var x, y := SumOf(ad, a, name), SumOf(ad, init, name);
      assert ad.plus(ad.plus(x, y), last.1) == ad.plus(x, ad.plus(y, last.1));
    }
  }

  lemma {:induction false} SumConcat<V(!new)>(ad: Adder<V>, a: seq<(string, V)>, b: seq<(string, V)>)
    requires ad.Lawful()
    ensures SumEntries(ad, a + b) == ad.plus(SumEntries(ad, a), SumEntries(ad, b))
    decreases |b|
  {
    if b == [] {
      assert a + b == a;
    } else {
      var init, last := b[..|b| - 1], b[|b| - 1];
      assert (a + b)[..|a + b| - 1] == a + init;
      SumConcat(ad, a, init);
      assert ad.plus(ad.plus(SumEntries(ad, a), SumEntries(ad, init)), last.1)
          == ad.plus(SumEntries(ad, a), ad.plus(SumEntries(ad, init), last.1));
    }
  }

  lemma SumOne<V(!new)>(ad: Adder<V>, e: (string, V))
    requires ad.Lawful()
    ensures SumEntries(ad, [e]) == e.1
  {
    assert [e][..0] == [];
    assert ad.plus(ad.zero, e.1) == e.1;
  }

  /** The part of a sum outside one position. */
  lemma SumAround<V(!new)>(ad: Adder<V>, entries: seq<(string, V)>, k: nat)
    requires ad.Lawful() && k < |entries|
    ensures SumEntries(ad, entries) == ad.plus(SumEntries(ad, entries[..k] + entries[k + 1..]), entries[k].1)
  {
    var a, e, b := entries[..k], [entries[k]], entries[k + 1..];
    assert entries == a + e + b;
    SumConcat(ad, a + e, b);
    SumConcat(ad, a, e);
    SumConcat(ad, a, b);
    SumOne(ad, entries[k]);
    var x, y, z := SumEntries(ad, a), entries[k].1, SumEntries(ad, b);
    assert ad.plus(ad.plus(x, y), z) == ad.plus(x, ad.plus(y, z));
    assert ad.plus(y, z) == ad.plus(z, y);
    assert ad.plus(ad.plus(x, z), y) == ad.plus(x, ad.plus(z, y));
  }

  /** Names other than one, each listed away from position `k`. */
  ghost predicate ListsOthers<V(!new)>(listing: seq<(string, V)>, m: map<string, V>, name: string, k: nat) {
    && (forall i, j :: 0 <= i < j < |listing| ==> listing[i].0 != listing[j].0)
    && (forall i :: 0 <= i < |listing| && i != k ==>
            listing[i].0 in m && listing[i].0 != name && m[listing[i].0] == listing[i].1)
    && (forall n :: n in m && n != name ==> exists i :: 0 <= i < |listing| && i != k && listing[i] == (n, m[n]))
  }

  lemma OthersListed<V(!new)>(ad: Adder<V>, m: map<string, V>, name: string, amount: V, listing: seq<(string, V)>,
          k: nat)
    requires Lists(listing, Bump(ad, m, name, amount)) && k < |listing| && listing[k].0 == name
    ensures ListsOthers(listing, m, name, k)
  {
    var after := Bump(ad, m, name, amount);
    forall n | n in m && n != name ensures exists i :: 0 <= i < |listing| && i != k && listing[i] == (n, m[n]) {
      assert n in after && (n, after[n]) in listing;
    }
  }

  /** Before an entry was added to a name already there, the listing had a smaller amount. */
  lemma ListingWithLess<V(!new)>(m: map<string, V>, name: string, listing: seq<(string, V)>, k: nat)
    requires ListsOthers(listing, m, name, k) && k < |listing| && listing[k].0 == name && name in m
    ensures Lists(listing[k := (name, m[name])], m)
  {
    var l := listing[k := (name, m[name])];
    forall n | n in m ensures (n, m[n]) in l {
      if n == name {
        assert l[k] == (n, m[n]);
      } else {
        var i :| 0 <= i < |listing| && i != k && listing[i] == (n, m[n]);
        assert l[i] == (n, m[n]);
      }
    }
  }

  function Skip(k: nat, i: nat): nat {
    if i < k then i else i + 1
  }

  /** Before the first entry of a name, the listing did not have it. */
  lemma ListingWithout<V(!new)>(m: map<string, V>, name: string, listing: seq<(string, V)>, k: nat, l: seq<(string, V)>)
    requires ListsOthers(listing, m, name, k) && k < |listing| && name !in m
    requires |l| == |listing| - 1 && forall i: nat {:trigger l[i]} :: i < |l| ==> l[i] == listing[Skip(k, i)]
    ensures Lists(l, m)
  {
    forall n | n in m ensures (n, m[n]) in l {
      var i :| 0 <= i < |listing| && i != k && listing[i] == (n, m[n]);
      assert l[if i < k then i else i - 1] == (n, m[n]);
    }
  }

  lemma WithoutIs<V(!new)>(listing: seq<(string, V)>, k: nat)
    requires k < |listing|
    ensures var l := listing[..k] + listing[k + 1..];
            |l| == |listing| - 1 && forall i: nat {:trigger l[i]} :: i < |l| ==> l[i] == listing[Skip(k, i)]
  {
  }

  /** Whatever order a dictionary is listed in, its total is the sum of all entries put into it. */
  lemma {:induction false} GrandTotal<V(!new)>(ad: Adder<V>, entries: seq<(string, V)>, listing: seq<(string, V)>)
    requires ad.Lawful() && Lists(listing, Tally(ad, entries))
    ensures SumEntries(ad, listing) == SumEntries(ad, entries)
    decreases |entries|
  {
    if entries == [] {
    } else {
      var init, last := entries[..|entries| - 1], entries[|entries| - 1];
      var m, name := Tally(ad, init), last.0;
      var after := Bump(ad, m, name, last.1);
      assert (name, after[name]) in listing;
      var k :| 0 <= k < |listing| && listing[k] == (name, after[name]);
      OthersListed(ad, m, name, last.1, listing, k);
      SumAround(ad, listing, k);
      var others := listing[..k] + listing[k + 1..];
      if name in m {
        var before := listing[k := (name, m[name])];
        ListingWithLess(m, name, listing, k);
        SumAround(ad, before, k);
        assert before[..k] + before[k + 1..] == others;
        GrandTotal(ad, init, before);
        assert ad.plus(ad.plus(SumEntries(ad, others), m[name]), last.1)
                == ad.plus(SumEntries(ad, others), ad.plus(m[name], last.1));
      } else {
        WithoutIs(listing, k);
        ListingWithout(m, name, listing, k, others);
        GrandTotal(ad, init, others);
        assert ad.plus(ad.zero, last.1) == last.1;
      }
    }
  }

  // --- Many dictionaries ------------------------------------------------

  /** The pointwise sum of one dictionary for each row. */
  function MergeAll<R, V(!new)>(ad: Adder<V>, part: R -> map<string, V>, rows: seq<R>): map<string, V> {
    if rows == [] then map[]
    else Merge(ad, MergeAll(ad, part, rows[..|rows| - 1]), part(rows[|rows| - 1]))
  }

  lemma {:induction false} MergeAllConcat<R, V(!new)>(ad: Adder<V>, part: R -> map<string, V>, a: seq<R>, b: seq<R>)
    requires ad.Lawful()
    ensures MergeAll(ad, part, a + b) == Merge(ad, MergeAll(ad, part, a), MergeAll(ad, part, b))
    decreases |b|
  {
    if b == [] {
      assert a + b == a;
      MergeNothing(ad, MergeAll(ad, part, a));
    } else {
      var init := b[..|b| - 1];
      assert (a + b)[..|a + b| - 1] == a + init;
      MergeAllConcat(ad, part, a, init);
      MergeAssociates(ad, MergeAll(ad, part, a), MergeAll(ad, part, init), part(b[|b| - 1]));
    }
  }

  lemma MergeOne<R, V(!new)>(ad: Adder<V>, part: R -> map<string, V>, r: R)
    requires ad.Lawful()
    ensures MergeAll(ad, part, [r]) == part(r)
  {
    assert [r][..0] == [];
    MergeNothing(ad, part(r));
  }

  /** The order of the rows does not matter. */
  lemma {:induction false} MergeAllPermutes<R, V(!new)>(ad: Adder<V>, part: R -> map<string, V>, a: seq<R>, b: seq<R>)
    requires ad.Lawful() && multiset(a) == multiset(b)
    ensures MergeAll(ad, part, a) == MergeAll(ad, part, b)
    decreases |a|
  {
    if a == [] {
      assert |b| == |multiset(b)| == |multiset(a)| == 0;
    } else {
      var init, last := a[..|a| - 1], a[|a| - 1];
      assert a == init + [last];
      assert last in multiset(b);
      var k :| 0 <= k < |b| && b[k] == last;
      var b1, b2 := b[..k], b[k + 1..];
      assert b == b1 + [last] + b2;
      assert multiset(a) == multiset(init) + multiset{last};
      assert multiset(b) == multiset(b1) + multiset{last} + multiset(b2);
      assert multiset(b1 + b2) == multiset(b1) + multiset(b2);
      assert multiset(init) == multiset(a) - multiset{last};
      MergeAllPermutes(ad, part, init, b1 + b2);
      MoveToEnd(ad, part, b1, last, b2);
    }
  }

  lemma MoveToEnd<R, V(!new)>(ad: Adder<V>, part: R -> map<string, V>, a: seq<R>, r: R, b: seq<R>)
    requires ad.Lawful()
    ensures MergeAll(ad, part, a + [r] + b) == Merge(ad, MergeAll(ad, part, a + b), part(r))
  {
    var x, y, z := MergeAll(ad, part, a), part(r), MergeAll(ad, part, b);
    MergeAllConcat(ad, part, a + [r], b);
    MergeAllConcat(ad, part, a, [r]);
    MergeAllConcat(ad, part, a, b);
    MergeOne(ad, part, r);
    MergeAssociates(ad, x, y, z);
    MergeCommutes(ad, y, z);
    MergeAssociates(ad, x, z, y);
  }

  /** The entries of many rows, one row after another. */
  function Flatten<R, V(!new)>(entries: R -> seq<(string, V)>, rows: seq<R>): seq<(string, V)> {
    if rows == [] then [] else Flatten(entries, rows[..|rows| - 1]) + entries(rows[|rows| - 1])
  }

  /** The sum of one amount for each row. */
  function SumRows<R, V(!new)>(ad: Adder<V>, part: R -> V, rows: seq<R>): V {
    if rows == [] then ad.zero else ad.plus(SumRows(ad, part, rows[..|rows| - 1]), part(rows[|rows| - 1]))
  }

  /** What rows have for one name is the sum of what each has for it. */
  lemma {:induction false} SumOfFlatten<R(!new), V(!new)>(ad: Adder<V>, entries: R -> seq<(string, V)>, part: R -> V,
          rows: seq<R>, name: string)
    requires ad.Lawful() && forall r :: SumOf(ad, entries(r), name) == part(r)
    ensures SumOf(ad, Flatten(entries, rows), name) == SumRows(ad, part, rows)
    decreases |rows|
  {
    if rows != [] {
      var init, last := rows[..|rows| - 1], rows[|rows| - 1];
      SumOfFlatten(ad, entries, part, init, name);
      SumOfConcat(ad, Flatten(entries, init), entries(last), name);
    }
  }

  function AsEntries<V(!new)>(e: Option<(string, V)>): seq<(string, V)> {
    match e case Some(x) => [x] case None => []
  }

  lemma SumOfOne<V(!new)>(ad: Adder<V>, e: (string, V), name: string)
    requires ad.Lawful()
    ensures SumOf(ad, AsEntries(Some(e)), name) == if e.0 == name then e.1 else ad.zero
  {
    assert [e][..0] == [];
    assert ad.plus(ad.zero, e.1) == e.1;
  }

  /** Merging one dictionary for each row is tallying all their entries. */
  lemma {:induction false} MergeAllIsTally<R, V(!new)>(ad: Adder<V>, entries: R -> seq<(string, V)>,
          part: R -> map<string, V>, rows: seq<R>)
    requires ad.Lawful() && forall r :: r in rows ==> part(r) == Tally(ad, entries(r))
    ensures MergeAll(ad, part, rows) == Tally(ad, Flatten(entries, rows))
    decreases |rows|
  {
    if rows != [] {
      var init, last := rows[..|rows| - 1], rows[|rows| - 1];
      MergeAllIsTally(ad, entries, part, init);
      TallyConcat(ad, Flatten(entries, init), entries(last));
    }
  }
}
