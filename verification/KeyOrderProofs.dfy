/** Sorting object fields by key: the order is total, and the sorted list depends only on which
    fields there are. */
module KeyOrderProofs {
  import opened JsonText
  import opened CanonicalText

  /** The texts agree up to n, where `a` ends or has the smaller unit. */
  predicate SmallerAt(a: Text, b: Text, n: nat) {
    n <= |a| && n < |b| && a[..n] == b[..n] && (n < |a| ==> a[n] < b[n])
  }

  /** `a` comes before `b` exactly when it is a proper prefix of it or has the smaller unit at the first place
      where they differ. */
  lemma {:induction false} BeforeMeans(a: Text, b: Text)
    ensures Before(a, b) <==> exists n: nat :: SmallerAt(a, b, n)
  {
    if a != [] && b != [] && a[0] == b[0] {
      BeforeMeans(a[1..], b[1..]);
      if Before(a, b) {
        var n: nat :| SmallerAt(a[1..], b[1..], n);
        SmallerBehind(a, b, n);
      }
      if n: nat :| SmallerAt(a, b, n) {
        assert n > 0;
        SmallerBehind(a, b, n - 1);
      }
    } else if a != [] && b != [] {
      forall n: nat | 0 < n <= |a| && n <= |b| ensures a[..n] != b[..n] {
        assert a[..n][0] == a[0] && b[..n][0] == b[0];
      }
      assert SmallerAt(a, b, 0) <==> a[0] < b[0];
    } else {
      assert a == [] && b != [] ==> SmallerAt(a, b, 0);
    }
  }

  lemma SmallerBehind(a: Text, b: Text, n: nat)
    requires a != [] && b != [] && a[0] == b[0]
    ensures SmallerAt(a, b, n + 1) <==> SmallerAt(a[1..], b[1..], n)
  {
    if n < |a| && n < |b| {
      assert a[..n + 1] == [a[0]] + a[1..][..n] && b[..n + 1] == [b[0]] + b[1..][..n];
      assert a[1..][..n] == a[..n + 1][1..] && b[1..][..n] == b[..n + 1][1..];
    }
  }

  lemma {:induction false} BeforeIrreflexive(a: Text)
    ensures !Before(a, a)
  {
    if a != [] { BeforeIrreflexive(a[1..]); }
  }

  lemma {:induction false} BeforeTransitive(a: Text, b: Text, c: Text)
    requires Before(a, b) && Before(b, c)
    ensures Before(a, c)
  {
    if a != [] && a[0] == b[0] == c[0] { BeforeTransitive(a[1..], b[1..], c[1..]); }
  }

  lemma {:induction false} BeforeTotal(a: Text, b: Text)
    ensures a == b || Before(a, b) || Before(b, a)
  {
    if a != [] && b != [] && a[0] == b[0] {
      BeforeTotal(a[1..], b[1..]);
      assert a == [a[0]] + a[1..] && b == [b[0]] + b[1..];
    }
  }

  ghost predicate SortedByKey<V(!new)>(entries: seq<(Text, V)>) {
    forall i, k :: 0 <= i < k < |entries| ==> Before(entries[i].0, entries[k].0)
  }

  lemma {:induction false} InsertKeepsEntries<V(!new)>(entry: (Text, V), sorted: seq<(Text, V)>)
    ensures multiset(InsertByKey(entry, sorted)) == multiset{entry} + multiset(sorted)
  {
    if sorted != [] && Before(sorted[0].0, entry.0) {
      InsertKeepsEntries(entry, sorted[1..]);
      assert sorted == [sorted[0]] + sorted[1..];
    }
  }

  lemma {:induction false} InsertKeepsOrder<V(!new)>(entry: (Text, V), sorted: seq<(Text, V)>)
    requires SortedByKey(sorted) && forall i :: 0 <= i < |sorted| ==> sorted[i].0 != entry.0
    ensures SortedByKey(InsertByKey(entry, sorted))
  {
    if sorted != [] {
      if Before(sorted[0].0, entry.0) {
        InsertKeepsOrder(entry, sorted[1..]);
        InsertKeepsEntries(entry, sorted[1..]);
        var tail := InsertByKey(entry, sorted[1..]);
        forall k | 0 <= k < |tail| ensures Before(sorted[0].0, tail[k].0) {
          assert tail[k] in multiset(tail);
          assert tail[k] == entry || tail[k] in sorted[1..];
        }
      } else {
        BeforeTotal(sorted[0].0, entry.0);
        forall k | 0 <= k < |sorted| ensures Before(entry.0, sorted[k].0) {
          if k > 0 { BeforeTransitive(entry.0, sorted[0].0, sorted[k].0); }
        }
      }
    }
  }

  /** The sorted list is a permutation. */
  lemma {:induction false} SortKeepsEntries<V(!new)>(entries: seq<(Text, V)>)
    ensures multiset(SortByKey(entries)) == multiset(entries)
    ensures forall e :: e in SortByKey(entries) <==> e in entries
  {
    if entries != [] {
      SortKeepsEntries(entries[1..]);
      InsertKeepsEntries(entries[0], SortByKey(entries[1..]));
      assert entries == [entries[0]] + entries[1..];
    }
    forall e ensures e in SortByKey(entries) <==> e in entries {
      assert e in SortByKey(entries) <==> e in multiset(SortByKey(entries));
      assert e in entries <==> e in multiset(entries);
    }
  }

  lemma {:induction false} SortSorts<V(!new)>(entries: seq<(Text, V)>)
    requires DistinctKeys(entries)
    ensures SortedByKey(SortByKey(entries))
  {
    if entries != [] {
      var tail := SortByKey(entries[1..]);
      SortSorts(entries[1..]);
      SortKeepsEntries(entries[1..]);
      forall i | 0 <= i < |tail| ensures tail[i].0 != entries[0].0 {
        assert tail[i] in entries[1..];
      }
      InsertKeepsOrder(entries[0], tail);
    }
  }

  lemma FirstOfSorted<V(!new)>(a: seq<(Text, V)>, b: seq<(Text, V)>)
    requires SortedByKey(a) && SortedByKey(b) && a != [] && b != []
    requires a[0] in b && b[0] in a
    ensures a[0] == b[0]
  {
    var i :| 0 <= i < |b| && b[i] == a[0];
    var k :| 0 <= k < |a| && a[k] == b[0];
    if i > 0 && k > 0 {
      BeforeTransitive(a[0].0, b[0].0, a[0].0);
      BeforeIrreflexive(a[0].0);
    }
  }

  lemma TailOfSorted<V(!new)>(a: seq<(Text, V)>, e: (Text, V))
    requires SortedByKey(a) && a != []
    ensures SortedByKey(a[1..]) && (e in a[1..] <==> e in a && e != a[0])
  {
    assert a == [a[0]] + a[1..];
    if e == a[0] && e in a[1..] {
      var k :| 0 <= k < |a[1..]| && a[1..][k] == e;
      assert Before(a[0].0, a[k + 1].0);
      BeforeIrreflexive(e.0);
    }
  }

  /** Sorted lists with the same entries are equal. */
  lemma {:induction false} SortedIsUnique<V(!new)>(a: seq<(Text, V)>, b: seq<(Text, V)>)
    requires SortedByKey(a) && SortedByKey(b)
    requires forall e :: e in a <==> e in b
    ensures a == b
  {
    if a == [] {
      assert forall i :: 0 <= i < |b| ==> b[i] in b;
    } else {
      assert a[0] in b;
      assert b != [] && b[0] in a;
      FirstOfSorted(a, b);
      forall e ensures e in a[1..] <==> e in b[1..] {
        TailOfSorted(a, e);
        TailOfSorted(b, e);
      }
      TailOfSorted(a, a[0]);
      TailOfSorted(b, b[0]);
      SortedIsUnique(a[1..], b[1..]);
      assert a == [a[0]] + a[1..] && b == [b[0]] + b[1..];
    }
  }

  /** Whatever order the fields come in, their sorted list is the same. */
  lemma SortForgetsOrder<V(!new)>(a: seq<(Text, V)>, b: seq<(Text, V)>)
    requires DistinctKeys(a) && DistinctKeys(b)
    requires forall e :: e in a <==> e in b
    ensures SortByKey(a) == SortByKey(b)
  {
    SortSorts(a);
    SortSorts(b);
    SortKeepsEntries(a);
    SortKeepsEntries(b);
    SortedIsUnique(SortByKey(a), SortByKey(b));
  }

  // ---- The map of a field list ----

  lemma {:induction false} MapOfEntries<V(!new)>(entries: seq<(Text, V)>)
    requires DistinctKeys(entries)
    ensures forall i :: 0 <= i < |entries| ==> entries[i].0 in MapOf(entries) && MapOf(entries)[entries[i].0] == entries[i].1
    ensures forall k :: k in MapOf(entries) ==> (k, MapOf(entries)[k]) in entries
  {
    if entries != [] {
      var tail := entries[1..];
      MapOfEntries(tail);
      assert entries == [entries[0]] + tail;
      forall i | 0 <= i < |entries| ensures entries[i].0 in MapOf(entries) && MapOf(entries)[entries[i].0] == entries[i].1 {
        if i > 0 { assert entries[i] == tail[i - 1]; }
      }
      forall k | k in MapOf(entries) ensures (k, MapOf(entries)[k]) in entries {
        if k == entries[0].0 {
          assert entries[0] == (k, MapOf(entries)[k]);
        } else {
          assert (k, MapOf(tail)[k]) in tail;
        }
      }
    }
  }

  /** Two field lists denote the same map exactly when they have the same entries. */
  lemma SameMapIffSameEntries<V(!new)>(a: seq<(Text, V)>, b: seq<(Text, V)>)
    requires DistinctKeys(a) && DistinctKeys(b)
    ensures MapOf(a) == MapOf(b) <==> forall e :: e in a <==> e in b
  {
    MapOfEntries(a);
    MapOfEntries(b);
    forall e ensures e in a <==> e.0 in MapOf(a) && MapOf(a)[e.0] == e.1 {
      if e.0 in MapOf(a) && MapOf(a)[e.0] == e.1 { assert e == (e.0, MapOf(a)[e.0]); }
    }
    forall e ensures e in b <==> e.0 in MapOf(b) && MapOf(b)[e.0] == e.1 {
      if e.0 in MapOf(b) && MapOf(b)[e.0] == e.1 { assert e == (e.0, MapOf(b)[e.0]); }
    }
    if forall e :: e in a <==> e in b {
      forall k ensures (k in MapOf(a) <==> k in MapOf(b)) && (k in MapOf(a) ==> MapOf(a)[k] == MapOf(b)[k]) {
        if k in MapOf(a) { assert (k, MapOf(a)[k]) in b; }
        if k in MapOf(b) { assert (k, MapOf(b)[k]) in a; }
      }
    }
  }
}
