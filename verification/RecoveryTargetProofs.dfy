/** Running `cycle` for every new backup leaves the same directory, file by file, as publishing all of them
    and pruning once. */
module RecoveryTargetProofs {
  import opened Common
  import opened RetentionSpec
  import opened RetentionProofs
  import RetentionMeaning
  import CanonicalText
  import KeyOrderProofs
  import opened RecoveryTargetSpec

  // ---- Sorting ----

  lemma {:induction false} InsertDescOrder(x: Backup, s: seq<Backup>)
    requires NewestFirst(s)
    ensures NewestFirst(InsertDesc(x, s))
    ensures multiset(InsertDesc(x, s)) == multiset(s) + multiset{x}
  {
    hide NewestFirst;
    if s == [] || x.published >= s[0].published {
      NewestAhead(x, s);
    } else {
      var rest := InsertDesc(x, s[1..]);
      OrderOfRest(s);
      InsertDescOrder(x, s[1..]);
      assert s == [s[0]] + s[1..];
      InsertedNotNewer(x, s, rest);
    }
  }

  lemma NewestAhead(x: Backup, s: seq<Backup>)
    requires NewestFirst(s) && (s == [] || x.published >= s[0].published)
    ensures NewestFirst([x] + s)
  {
  }

  lemma InsertedNotNewer(x: Backup, s: seq<Backup>, rest: seq<Backup>)
    requires s != [] && NewestFirst(s) && x.published < s[0].published
    requires NewestFirst(rest) && multiset(rest) == multiset(s[1..]) + multiset{x}
    ensures NewestFirst([s[0]] + rest)
  {
    forall i | 0 <= i < |rest| ensures s[0].published >= rest[i].published {
      assert rest[i] in multiset(rest);
      if rest[i] != x {
        assert rest[i] in multiset(s[1..]);
        var j :| 0 <= j < |s| - 1 && s[1..][j] == rest[i];
      }
    }
  }

  lemma {:induction false} SortDescOrder(items: seq<Backup>)
    ensures NewestFirst(SortDesc(items)) && multiset(SortDesc(items)) == multiset(items)
  {
    if items != [] {
      SortDescOrder(items[1..]);
      InsertDescOrder(items[0], SortDesc(items[1..]));
      assert items == [items[0]] + items[1..];
    }
  }

  /** The backups of one instant, in their order. */
  function OfInstant(items: seq<Backup>, at: Instant): seq<Backup> {
    if items == [] then []
    else (if items[0].published == at then [items[0]] else []) + OfInstant(items[1..], at)
  }

  lemma {:induction false} InsertKeepsTies(x: Backup, s: seq<Backup>, at: Instant)
    requires NewestFirst(s)
    ensures OfInstant(InsertDesc(x, s), at) == OfInstant([x] + s, at)
  {
    assert ([x] + s)[1..] == s;
    if s != [] && x.published < s[0].published {
      OrderOfRest(s);
      InsertKeepsTies(x, s[1..], at);
      assert ([s[0]] + InsertDesc(x, s[1..]))[1..] == InsertDesc(x, s[1..]);
      assert ([x] + s[1..])[1..] == s[1..];
    }
  }

  /** The sort is stable: backups of one instant keep the order in which the walk met them. */
  lemma {:induction false} SortIsStable(items: seq<Backup>, at: Instant)
    ensures OfInstant(SortDesc(items), at) == OfInstant(items, at)
  {
    if items != [] {
      SortIsStable(items[1..], at);
      SortDescOrder(items[1..]);
      InsertKeepsTies(items[0], SortDesc(items[1..]), at);
      assert ([items[0]] + SortDesc(items[1..]))[1..] == SortDesc(items[1..]);
    }
  }

  lemma {:induction false} WhereInsert(x: Backup, s: seq<Backup>, keys: set<ObjectKey>)
    requires NewestFirst(s)
    ensures Where(InsertDesc(x, s), keys) == if x.key in keys then InsertDesc(x, Where(s, keys)) else Where(s, keys)
  {
    if s == [] {
    } else if x.published >= s[0].published {
      assert ([x] + s)[1..] == s;
      WhereNotNewer(x, s, keys);
    } else {
      OrderOfRest(s);
      WhereInsert(x, s[1..], keys);
      assert ([s[0]] + InsertDesc(x, s[1..]))[1..] == InsertDesc(x, s[1..]);
      if s[0].key in keys {
        assert ([s[0]] + Where(s[1..], keys))[1..] == Where(s[1..], keys);
      }
    }
  }

  lemma {:induction false} WhereTakesFrom(s: seq<Backup>, keys: set<ObjectKey>)
    ensures forall b :: b in Where(s, keys) <==> b in s && b.key in keys
  {
    if s != [] {
      WhereTakesFrom(s[1..], keys);
      assert s == [s[0]] + s[1..];
    }
  }

  lemma WhereNotNewer(x: Backup, s: seq<Backup>, keys: set<ObjectKey>)
    requires forall i :: 0 <= i < |s| ==> x.published >= s[i].published
    ensures InsertDesc(x, Where(s, keys)) == [x] + Where(s, keys)
  {
    WhereTakesFrom(s, keys);
    if Where(s, keys) != [] {
      assert Where(s, keys)[0] in s;
    }
  }

  /** Sorting the backups left after a deletion gives the sorted list with the same ones deleted. */
  lemma {:induction false} SortOfWhere(items: seq<Backup>, keys: set<ObjectKey>)
    ensures SortDesc(Where(items, keys)) == Where(SortDesc(items), keys)
  {
    if items != [] {
      var rest := items[1..];
      SortOfWhere(rest, keys);
      SortDescOrder(rest);
      WhereInsert(items[0], SortDesc(rest), keys);
      if items[0].key in keys {
        assert ([items[0]] + Where(rest, keys))[1..] == Where(rest, keys);
      }
    }
  }

  /** A strictly newer backup comes first wherever the walk meets it. */
  lemma {:induction false} SortWithNewest(before: seq<Backup>, n: Backup, after: seq<Backup>)
    requires forall b :: b in before + after ==> b.published < n.published
    ensures SortDesc(before + [n] + after) == [n] + SortDesc(before + after)
  {
    hide SortDesc, InsertDesc;
    if before == [] {
      assert before + [n] + after == [n] + after && before + after == after;
      SortOfCons(n, after);
      SortDescOrder(after);
      InsertNewest(n, SortDesc(after));
    } else {
      var h, rest := before[0], before[1..];
      assert before == [h] + rest;
      assert h in before + after && forall b :: b in rest + after ==> b in before + after;
      assert before + [n] + after == [h] + (rest + [n] + after) && before + after == [h] + (rest + after);
      SortWithNewest(rest, n, after);
      SortOfCons(h, rest + [n] + after);
      SortOfCons(h, rest + after);
      InsertBehind(h, n, SortDesc(rest + after));
    }
  }

  lemma SortOfCons(h: Backup, rest: seq<Backup>)
    ensures SortDesc([h] + rest) == InsertDesc(h, SortDesc(rest))
  {
    assert ([h] + rest)[1..] == rest;
  }

  lemma InsertNewest(n: Backup, s: seq<Backup>)
    requires forall b :: b in multiset(s) ==> b.published < n.published
    ensures InsertDesc(n, s) == [n] + s
  {
    if s != [] { assert s[0] in multiset(s); }
  }

  lemma InsertBehind(h: Backup, n: Backup, s: seq<Backup>)
    requires h.published < n.published
    ensures InsertDesc(h, [n] + s) == [n] + InsertDesc(h, s)
  {
    assert ([n] + s)[1..] == s;
  }

  // ---- Verified backups ----

  lemma {:induction false} VerifiedAt(t: Target, resolve: Resolve, walk: seq<Path>, b: Backup)
    ensures b in Verified(t, resolve, walk)
       <==> resolve(b.key).Some? && resolve(b.key).value in walk && VerifyPair(t, resolve, resolve(b.key).value) == Some(b)
  {
    hide VerifyPair;
    if walk != [] {
      VerifiedAt(t, resolve, walk[1..], b);
      assert walk == [walk[0]] + walk[1..];
      var v := VerifyPair(t, resolve, walk[0]);
      if v.Some? { KeyNamesPath(t, resolve, walk[0]); }
    }
  }

  lemma KeyNamesPath(t: Target, resolve: Resolve, p: Path)
    ensures VerifyPair(t, resolve, p).Some? ==> resolve(VerifyPair(t, resolve, p).value.key) == Some(p)
  {
  }

  lemma {:induction false} VerifiedDistinct(t: Target, resolve: Resolve, walk: seq<Path>)
    requires Distinct(walk)
    ensures DistinctKeys(Verified(t, resolve, walk))
  {
    hide VerifyPair;
    if walk != [] {
      var rest := walk[1..];
      assert forall i :: 0 <= i < |rest| ==> rest[i] == walk[i + 1];
      VerifiedDistinct(t, resolve, rest);
      KeyNamesPath(t, resolve, walk[0]);
      var more := Verified(t, resolve, rest);
      forall i | 0 <= i < |more| ensures resolve(more[i].key) != Some(walk[0]) {
        VerifiedAt(t, resolve, rest, more[i]);
      }
    }
  }

  lemma DistinctAhead(h: Backup, s: seq<Backup>)
    requires DistinctKeys(s) && forall b :: b in s ==> b.key != h.key
    ensures DistinctKeys([h] + s)
  {
  }

  lemma HeadKeyDistinct(s: seq<Backup>)
    requires s != [] && DistinctKeys(s)
    ensures DistinctKeys(s[1..]) && (forall b :: b in s[1..] ==> b.key != s[0].key) && s == [s[0]] + s[1..]
  {
    OrderOfRest(s);
    forall b | b in s[1..] ensures b.key != s[0].key {
      var i :| 0 <= i < |s| - 1 && s[1..][i] == b;
      assert s[i + 1] == b;
    }
  }

  lemma {:induction false} InsertDescDistinct(x: Backup, s: seq<Backup>)
    requires DistinctKeys(s) && forall b :: b in s ==> b.key != x.key
    ensures DistinctKeys(InsertDesc(x, s))
    ensures forall b :: b in InsertDesc(x, s) <==> b == x || b in s
  {
    hide DistinctKeys;
    if s == [] || x.published >= s[0].published {
      DistinctAhead(x, s);
    } else {
      HeadKeyDistinct(s);
      InsertDescDistinct(x, s[1..]);
      DistinctAhead(s[0], InsertDesc(x, s[1..]));
    }
  }

  lemma {:induction false} SortDescDistinct(items: seq<Backup>)
    requires DistinctKeys(items)
    ensures DistinctKeys(SortDesc(items))
    ensures forall b :: b in SortDesc(items) <==> b in items
  {
    if items != [] {
      var rest := items[1..];
      OrderOfRest(items);
      assert items == [items[0]] + rest;
      assert forall i :: 0 <= i < |rest| ==> rest[i] == items[i + 1];
      SortDescDistinct(rest);
      InsertDescDistinct(items[0], SortDesc(rest));
    }
  }

  lemma SortedShape(t: Target, resolve: Resolve, walk: seq<Path>)
    requires Distinct(walk)
    ensures NewestFirst(Sorted(t, resolve, walk)) && DistinctKeys(Sorted(t, resolve, walk))
    ensures forall b :: b in Sorted(t, resolve, walk) <==> b in Verified(t, resolve, walk)
  {
    var items := Verified(t, resolve, walk);
    SortDescOrder(items);
    VerifiedDistinct(t, resolve, walk);
    SortDescDistinct(items);
  }

  function VerifiedPaths(t: Target, resolve: Resolve): set<Path> {
    set p | p in t.receipts && VerifyPair(t, resolve, p).Some?
  }

  lemma {:induction false} VerifiedOnWalk(t: Target, resolve: Resolve, walk: seq<Path>)
    requires Distinct(walk)
    ensures |Verified(t, resolve, walk)| == |set p | p in walk && VerifyPair(t, resolve, p).Some?|
  {
    hide VerifyPair;
    if walk != [] {
      DistinctRest(walk);
      VerifiedOnWalk(t, resolve, walk[1..]);
      VerifiedSetStep(t, resolve, walk[0], walk[1..]);
      assert walk == [walk[0]] + walk[1..];
    }
  }

  lemma VerifiedSetStep(t: Target, resolve: Resolve, h: Path, rest: seq<Path>)
    ensures (set p | p in [h] + rest && VerifyPair(t, resolve, p).Some?)
         == (if VerifyPair(t, resolve, h).Some? then {h} else {}) + set p | p in rest && VerifyPair(t, resolve, p).Some?
  {
    hide VerifyPair;
  }

  lemma DistinctRest(walk: seq<Path>)
    requires Distinct(walk) && walk != []
    ensures Distinct(walk[1..]) && walk[0] !in walk[1..]
  {
    assert forall i :: 0 <= i < |walk| - 1 ==> walk[1..][i] == walk[i + 1];
  }

  /** The number of verified receipts, whatever the walk. */
  lemma CountVerified(t: Target, resolve: Resolve, walk: seq<Path>)
    requires WalksAll(t, walk)
    ensures |Sorted(t, resolve, walk)| == |Verified(t, resolve, walk)| == |VerifiedPaths(t, resolve)|
  {
    hide VerifyPair, SortDesc, Verified;
    forall p ensures VerifyPair(t, resolve, p).Some? ==> p in t.receipts { ReceiptOfVerified(t, resolve, p); }
    assert VerifiedPaths(t, resolve) == set p | p in walk && VerifyPair(t, resolve, p).Some?;
    VerifiedOnWalk(t, resolve, walk);
    SortDescOrder(Verified(t, resolve, walk));
    assert |multiset(Sorted(t, resolve, walk))| == |multiset(Verified(t, resolve, walk))|;
  }

  lemma SuffixInjective(p: Path, q: Path)
    requires ReceiptName(p) == ReceiptName(q)
    ensures p == q
  {
    assert |p| == |q|;
    assert p == ReceiptName(p)[..|p|] && q == ReceiptName(q)[..|q|];
  }

  lemma {:induction false} UnverifiedOnWalk(t: Target, resolve: Resolve, walk: seq<Path>)
    requires Distinct(walk)
    ensures CanonicalText.DistinctKeys(Unverified(t, resolve, walk))
    ensures forall p, n :: (n, p) in Unverified(t, resolve, walk) <==>
                           p in walk && p in t.receipts && VerifyPair(t, resolve, p) == None && n == ReceiptName(p)
  {
    hide VerifyPair, ReceiptName;
    if walk != [] {
      var h, rest := walk[0], walk[1..];
      assert walk == [h] + rest;
      assert h !in rest && Distinct(rest) by { assert forall i :: 0 <= i < |rest| ==> rest[i] == walk[i + 1]; }
      UnverifiedOnWalk(t, resolve, rest);
      var more := Unverified(t, resolve, rest);
      forall i | 0 <= i < |more| ensures more[i].0 != ReceiptName(h) {
        assert more[i] in more;
        if more[i].0 == ReceiptName(h) { SuffixInjective(more[i].1, h); }
      }
    }
  }

  /** The ignored receipts: strictly in name order, and just the names of the receipts that do not verify. */
  lemma IgnoredMeans(t: Target, resolve: Resolve, walk: seq<Path>)
    requires WalksAll(t, walk)
    ensures var names := Ignored(t, resolve, walk);
            forall i, k :: 0 <= i < k < |names| ==> CanonicalText.Before(names[i], names[k])
    ensures forall p :: ReceiptName(p) in Ignored(t, resolve, walk) <==> p in t.receipts && VerifyPair(t, resolve, p) == None
    ensures forall n :: n in Ignored(t, resolve, walk) ==> exists p :: p in t.receipts && n == ReceiptName(p)
  {
    hide VerifyPair, ReceiptName, Unverified;
    var entries := Unverified(t, resolve, walk);
    var sorted := CanonicalText.SortByKey(entries);
    UnverifiedOnWalk(t, resolve, walk);
    KeyOrderProofs.SortSorts(entries);
    KeyOrderProofs.SortKeepsEntries(entries);
    forall n | n in Ignored(t, resolve, walk)
      ensures exists p :: p in t.receipts && n == ReceiptName(p) && VerifyPair(t, resolve, p) == None
    {
      var i :| 0 <= i < |sorted| && sorted[i].0 == n;
      assert sorted[i] in entries;
    }
    forall p ensures ReceiptName(p) in Ignored(t, resolve, walk) <==> p in t.receipts && VerifyPair(t, resolve, p) == None {
      if p in t.receipts && VerifyPair(t, resolve, p) == None {
        assert (ReceiptName(p), p) in sorted;
        var i :| 0 <= i < |sorted| && sorted[i] == (ReceiptName(p), p);
        assert Names(sorted)[i] == ReceiptName(p);
      }
      if ReceiptName(p) in Ignored(t, resolve, walk) {
        var q :| q in t.receipts && ReceiptName(p) == ReceiptName(q) && VerifyPair(t, resolve, q) == None;
        SuffixInjective(p, q);
      }
    }
  }

  // ---- One prune ----

  /** The directory without the verified pairs whose keys are not listed. */
  function Reduced(t: Target, resolve: Resolve, keys: set<ObjectKey>): Target {
    Without(t, set p | p in t.receipts && VerifyPair(t, resolve, p).Some? && VerifyPair(t, resolve, p).value.key !in keys)
  }

  lemma VerifyReduced(t: Target, resolve: Resolve, keys: set<ObjectKey>, p: Path)
    ensures VerifyPair(Reduced(t, resolve, keys), resolve, p)
         == if VerifyPair(t, resolve, p).Some? && VerifyPair(t, resolve, p).value.key in keys then VerifyPair(t, resolve, p) else None
  {
  }

  lemma {:induction false} VerifiedReduced(t: Target, resolve: Resolve, keys: set<ObjectKey>, walk: seq<Path>)
    ensures Verified(Reduced(t, resolve, keys), resolve, walk) == Where(Verified(t, resolve, walk), keys)
  {
    hide VerifyPair, Reduced;
    if walk != [] {
      var rest := Verified(t, resolve, walk[1..]);
      VerifiedReduced(t, resolve, keys, walk[1..]);
      VerifyReduced(t, resolve, keys, walk[0]);
      var v := VerifyPair(t, resolve, walk[0]);
      if v.Some? {
        assert ([v.value] + rest)[1..] == rest;
      }
    }
  }

  function PathsOf(resolve: Resolve, keys: seq<ObjectKey>): set<Path> {
    set k | k in keys && resolve(k).Some? :: resolve(k).value
  }

  /** The key names a verified pair. */
  predicate NamesVerified(t: Target, resolve: Resolve, key: ObjectKey) {
    && resolve(key).Some? && VerifyPair(t, resolve, resolve(key).value).Some?
    && VerifyPair(t, resolve, resolve(key).value).value.key == key
  }

  lemma ApplyStep(t: Target, resolve: Resolve, key: ObjectKey, rest: seq<ObjectKey>)
    ensures var keys := [key] + rest;
            if NamesVerified(t, resolve, key) then
              var (after, deleted) := ApplyPlan(Without(t, {resolve(key).value}), resolve, rest);
              ApplyPlan(t, resolve, keys) == (after, if deleted.Ok? then Ok(deleted.value + 1) else deleted)
            else ApplyPlan(t, resolve, keys).0 == t && ApplyPlan(t, resolve, keys).1.Err?
  {
    hide VerifyPair;
    assert ([key] + rest)[1..] == rest;
  }

  lemma PathsOfStep(t: Target, resolve: Resolve, key: ObjectKey, rest: seq<ObjectKey>)
    requires resolve(key).Some?
    ensures PathsOf(resolve, [key] + rest) == {resolve(key).value} + PathsOf(resolve, rest)
    ensures Without(Without(t, {resolve(key).value}), PathsOf(resolve, rest)) == Without(t, PathsOf(resolve, [key] + rest))
  {
    assert PathsOf(resolve, [key] + rest) == {resolve(key).value} + PathsOf(resolve, rest);
  }

  lemma NoPaths(t: Target, resolve: Resolve)
    ensures PathsOf(resolve, []) == {} && Without(t, {}) == t && ApplyPlan(t, resolve, []) == (t, Ok(0))
  {
  }

  /** A plan applied to any directory, however old the plan: the pairs of its first keys go, each verified just
      before, up to the first key that no longer names a verified pair; nothing else goes. */
  lemma {:induction false} ApplyStopsAtChange(t: Target, resolve: Resolve, keys: seq<ObjectKey>) returns (n: nat)
    ensures n <= |keys| && forall i :: 0 <= i < n ==> NamesVerified(t, resolve, keys[i])
    ensures var (after, deleted) := ApplyPlan(t, resolve, keys);
            && after == Without(t, PathsOf(resolve, keys[..n]))
            && (if n == |keys| then deleted == Ok(n) else deleted.Err? && !NamesVerified(after, resolve, keys[n]))
    decreases |keys|
  {
    hide VerifyPair, ApplyPlan, Without, PathsOf;
    n := 0;
    NoPaths(t, resolve);
    if keys != [] {
      var key, rest := keys[0], keys[1..];
      assert keys == [key] + rest;
      ApplyStep(t, resolve, key, rest);
      if NamesVerified(t, resolve, key) {
        var m := ApplyStopsAtChange(Without(t, {resolve(key).value}), resolve, rest);
        n := m + 1;
        assert keys[..n] == [key] + rest[..m];
        PathsOfStep(t, resolve, key, rest[..m]);
        forall i | 0 <= i < m ensures NamesVerified(t, resolve, rest[i]) {
          StillVerified(t, resolve, resolve(key).value, rest[i]);
        }
      }
    }
  }

  lemma StillVerified(t: Target, resolve: Resolve, p: Path, key: ObjectKey)
    ensures NamesVerified(Without(t, {p}), resolve, key) ==> NamesVerified(t, resolve, key)
  {
  }

  /** The keys all name verified pairs. */
  predicate Deletable(t: Target, resolve: Resolve, keys: seq<ObjectKey>) {
    forall k :: k in keys ==> NamesVerified(t, resolve, k)
  }

  lemma ApplyDeletes(t: Target, resolve: Resolve, keys: seq<ObjectKey>)
    requires Deletable(t, resolve, keys) && Distinct(keys)
    ensures ApplyPlan(t, resolve, keys) == (Without(t, PathsOf(resolve, keys)), Ok(|keys|))
  {
    hide ApplyPlan, Without, NamesVerified;
    var n := ApplyStopsAtChange(t, resolve, keys);
    if n < |keys| {
      assert keys[n] in keys && keys[n] !in keys[..n];
      forall k | k in keys[..n] ensures NamesVerified(t, resolve, k) { assert k in keys; }
      NotYetGone(t, resolve, keys[..n], keys[n]);
    }
    assert keys[..|keys|] == keys;
  }

  /** Deleting other verified pairs leaves a verified pair verified. */
  lemma NotYetGone(t: Target, resolve: Resolve, gone: seq<ObjectKey>, key: ObjectKey)
    requires NamesVerified(t, resolve, key) && key !in gone && forall k :: k in gone ==> NamesVerified(t, resolve, k)
    ensures NamesVerified(Without(t, PathsOf(resolve, gone)), resolve, key)
  {
    assert resolve(key).value !in PathsOf(resolve, gone);
  }

  lemma {:induction false} WhereDistinct(items: seq<Backup>, keys: set<ObjectKey>)
    requires DistinctKeys(items)
    ensures DistinctKeys(Where(items, keys)) && Distinct(KeyList(Where(items, keys)))
  {
    if items != [] {
      OrderOfRest(items);
      WhereDistinct(items[1..], keys);
      WhereTakesFrom(items[1..], keys);
      assert items == [items[0]] + items[1..];
      var more := Where(items[1..], keys);
      forall i | 0 <= i < |more| ensures more[i].key != items[0].key {
        assert more[i] in items[1..];
        var j :| 0 <= j < |items| - 1 && items[1..][j] == more[i];
        assert items[j + 1] == more[i];
      }
    }
  }

  lemma KeyListKeys(items: seq<Backup>, k: ObjectKey)
    ensures k in KeyList(items) <==> k in Keys(items)
  {
    if k in KeyList(items) {
      var i :| 0 <= i < |items| && KeyList(items)[i] == k;
      assert items[i] in items;
    }
    if k in Keys(items) {
      var i :| 0 <= i < |items| && items[i].key == k;
      assert KeyList(items)[i] == k;
    }
  }

  /** A plan splits the verified backups into kept and deleted ones. */
  lemma PlanPartitions(items: seq<Backup>, r: Retention, b: Backup)
    requires r.Valid() && NewestFirst(items) && DistinctKeys(items) && b in items
    ensures b.key in PlanFor(items, r).kept <==> b in Kept(items, r)
    ensures b.key in PlanFor(items, r).kept <==> b.key !in PlanFor(items, r).delete
    ensures |PlanFor(items, r).kept| + |PlanFor(items, r).delete| == |items|
  {
    var kept := Kept(items, r);
    var gone := Keys(items) - Keys(kept);
    KeyListKeys(kept, b.key);
    KeyListKeys(Where(items, gone), b.key);
    WhereTakesFrom(items, gone);
    WhereTakesFrom(items, Keys(Daily(items, r)) + Keys(Weekly(items, r)));
    SameKeySame(items, kept, b);
    KeptOnlyListed(items, r);
    WhereSplits(items, Keys(kept), gone);
  }

  lemma KeptOnlyListed(items: seq<Backup>, r: Retention)
    requires DistinctKeys(items)
    ensures Where(items, Keys(Kept(items, r))) == Kept(items, r)
  {
    WhereTakesFrom(items, Keys(Daily(items, r)) + Keys(Weekly(items, r)));
    forall b | b in items
      ensures b.key in Keys(Kept(items, r)) <==> b.key in Keys(Daily(items, r)) + Keys(Weekly(items, r))
    {
      SameKeySame(items, Kept(items, r), b);
    }
    WhereSame(items, Keys(Kept(items, r)), Keys(Daily(items, r)) + Keys(Weekly(items, r)));
  }

  lemma SameKeySame(items: seq<Backup>, some: seq<Backup>, b: Backup)
    requires DistinctKeys(items) && b in items && forall c :: c in some ==> c in items
    ensures b.key in Keys(some) <==> b in some
  {
  }

  lemma {:induction false} WhereSplits(items: seq<Backup>, some: set<ObjectKey>, others: set<ObjectKey>)
    requires forall b :: b in items ==> (b.key in some <==> b.key !in others)
    ensures |Where(items, some)| + |Where(items, others)| == |items|
  {
    if items != [] {
      assert items[0] in items;
      WhereSplits(items[1..], some, others);
    }
  }

  /** Right after planning, the deletions succeed and remove the pairs that are not kept and nothing else. */
  lemma PruneReduces(t: Target, resolve: Resolve, walk: seq<Path>, r: Retention)
    requires r.Valid() && WalksAll(t, walk)
    ensures var items := Sorted(t, resolve, walk); var delete := PlanFor(items, r).delete;
            ApplyPlan(t, resolve, delete) == (Reduced(t, resolve, Keys(Kept(items, r))), Ok(|delete|))
  {
    hide VerifyPair, Kept, NewestFirst, DistinctKeys, SortDesc, Verified;
    var items := Sorted(t, resolve, walk);
    var kept := Kept(items, r);
    var gone := Keys(items) - Keys(kept);
    var delete := PlanFor(items, r).delete;
    SortedShape(t, resolve, walk);
    WhereDistinct(items, gone);
    forall k | k in delete
      ensures k in gone && resolve(k).Some? && VerifyPair(t, resolve, resolve(k).value).Some?
           && VerifyPair(t, resolve, resolve(k).value).value.key == k
    {
      KeyListKeys(Where(items, gone), k);
      WhereTakesFrom(items, gone);
      var b :| b in items && b.key == k;
      VerifiedAt(t, resolve, walk, b);
    }
    ApplyDeletes(t, resolve, delete);
    var paths := set p | p in t.receipts && VerifyPair(t, resolve, p).Some? && VerifyPair(t, resolve, p).value.key !in Keys(kept);
    forall p | p in t.receipts && VerifyPair(t, resolve, p).Some? && VerifyPair(t, resolve, p).value.key !in Keys(kept)
      ensures p in PathsOf(resolve, delete)
    {
      var b := VerifyPair(t, resolve, p).value;
      KeyNamesPath(t, resolve, p);
      VerifiedAt(t, resolve, walk, b);
      assert b in items && b.key in gone;
      WhereTakesFrom(items, gone);
      KeyListKeys(Where(items, gone), b.key);
      assert b in Where(items, gone);
      assert b.key in delete;
    }
    forall p | p in PathsOf(resolve, delete) ensures p in paths {
      ReceiptOfVerified(t, resolve, p);
    }
    assert PathsOf(resolve, delete) == paths;
  }

  lemma ReceiptOfVerified(t: Target, resolve: Resolve, p: Path)
    ensures VerifyPair(t, resolve, p).Some? ==> p in t.receipts
  {
  }

  /** A prune leaves exactly the kept backups verified. */
  lemma SortedAfterPrune(t: Target, resolve: Resolve, walk: seq<Path>, r: Retention)
    requires r.Valid() && WalksAll(t, walk)
    ensures Pruned(t, resolve, walk, r) == Reduced(t, resolve, Keys(Kept(Sorted(t, resolve, walk), r)))
    ensures Sorted(Pruned(t, resolve, walk, r), resolve, walk) == Kept(Sorted(t, resolve, walk), r)
    ensures WalksAll(Pruned(t, resolve, walk, r), walk)
  {
    hide VerifyPair, Kept, NewestFirst, DistinctKeys, SortDesc, Verified, PlanFor, ApplyPlan;
    PruneReduces(t, resolve, walk, r);
    var items := Sorted(t, resolve, walk);
    var keys := Keys(Kept(items, r));
    VerifiedReduced(t, resolve, keys, walk);
    SortOfWhere(Verified(t, resolve, walk), keys);
    SortedShape(t, resolve, walk);
    KeptOnlyListed(items, r);
  }

  // ---- Damaged pairs ----

  /** The object beside the receipt has the size and the digest the receipt gives. */
  predicate Undamaged(t: Target, p: Path) {
    && p in t.receipts && p in t.objects
    && t.objects[p].size == t.receipts[p].encryptedBytes && t.objects[p].sha256 == t.receipts[p].encryptedSha256
  }

  /** A pair verifies exactly when its receipt is one of this project, for this path, with a date, and its object is
      undamaged. */
  lemma VerifiedMeans(t: Target, resolve: Resolve, p: Path)
    ensures VerifyPair(t, resolve, p).Some? <==>
            Undamaged(t, p) && t.receipts[p].lineage && resolve(t.receipts[p].objectKey) == Some(p) && t.receipts[p].publishedAt.Some?
    ensures VerifyPair(t, resolve, p).Some? ==>
            VerifyPair(t, resolve, p).value == Backup(t.receipts[p].objectKey, t.receipts[p].publishedAt.value)
  {
  }

  /** The same directory but for the object of one pair, which is gone or another one. */
  predicate DamagedAt(t: Target, u: Target, p: Path) {
    && u.receipts == t.receipts && u.objects - {p} == t.objects - {p}
    && p in t.objects && (p in u.objects ==> u.objects[p] != t.objects[p])
  }

  lemma DamageIsSeen(t: Target, u: Target, resolve: Resolve, p: Path, q: Path)
    requires VerifyPair(t, resolve, p).Some? && DamagedAt(t, u, p)
    ensures VerifyPair(u, resolve, q) == if q == p then None else VerifyPair(t, resolve, q)
    ensures VerifyPair(Without(t, {p}), resolve, q) == VerifyPair(u, resolve, q)
  {
    assert q != p ==> (q in u.objects <==> q in u.objects - {p}) && (q in t.objects <==> q in t.objects - {p});
    assert q != p && q in u.objects ==> u.objects[q] == (u.objects - {p})[q];
    assert q != p && q in t.objects ==> t.objects[q] == (t.objects - {p})[q];
  }

  lemma {:induction false} SameVerified(t: Target, u: Target, resolve: Resolve, walk: seq<Path>)
    requires forall p :: VerifyPair(t, resolve, p) == VerifyPair(u, resolve, p)
    ensures Verified(t, resolve, walk) == Verified(u, resolve, walk)
  {
    hide VerifyPair;
    if walk != [] { SameVerified(t, u, resolve, walk[1..]); }
  }

  /** Every planned key, kept or deleted, names a pair whose object has the size and digest of its receipt. */
  lemma PlannedPairsAreSound(t: Target, resolve: Resolve, walk: seq<Path>, r: Retention, key: ObjectKey)
    requires r.Valid() && WalksAll(t, walk)
    requires key in PlanFor(Sorted(t, resolve, walk), r).kept || key in PlanFor(Sorted(t, resolve, walk), r).delete
    ensures resolve(key).Some? && Undamaged(t, resolve(key).value) && t.receipts[resolve(key).value].objectKey == key
  {
    hide VerifyPair, Kept, NewestFirst, DistinctKeys, SortDesc, Verified;
    var items := Sorted(t, resolve, walk);
    var kept := Kept(items, r);
    var gone := Keys(items) - Keys(kept);
    SortedShape(t, resolve, walk);
    KeyListKeys(kept, key);
    KeyListKeys(Where(items, gone), key);
    WhereTakesFrom(items, gone);
    KeptListed(items, r);
    var b :| b in items && b.key == key;
    VerifiedAt(t, resolve, walk, b);
    VerifiedMeans(t, resolve, resolve(key).value);
  }

  lemma KeptListed(items: seq<Backup>, r: Retention)
    ensures forall b :: b in Kept(items, r) ==> b in items
  {
    WhereTakesFrom(items, Keys(Daily(items, r)) + Keys(Weekly(items, r)));
  }

  /** A pair whose object is missing or of another size or digest is ignored by name, neither kept nor deleted, and
      left where it is; the others are planned as if it were not there. */
  lemma DamagedPairIsLeftAlone(t: Target, u: Target, resolve: Resolve, walk: seq<Path>, r: Retention, p: Path)
    requires r.Valid() && WalksAll(t, walk) && VerifyPair(t, resolve, p).Some? && DamagedAt(t, u, p)
    ensures ReceiptName(p) in Ignored(u, resolve, walk)
    ensures PlanFor(Sorted(u, resolve, walk), r) == PlanFor(Sorted(Without(t, {p}), resolve, walk), r)
    ensures var plan := PlanFor(Sorted(u, resolve, walk), r); var key := t.receipts[p].objectKey; key !in plan.kept && key !in plan.delete
    ensures var after := Pruned(u, resolve, walk, r);
            p in after.receipts && (p in after.objects <==> p in u.objects) && (p in u.objects ==> after.objects[p] == u.objects[p])
  {
    hide VerifyPair, Kept, NewestFirst, DistinctKeys, SortDesc, Verified, Ignored, PlanFor, Pruned;
    forall q
      ensures VerifyPair(u, resolve, q) == if q == p then None else VerifyPair(t, resolve, q)
      ensures VerifyPair(Without(t, {p}), resolve, q) == VerifyPair(u, resolve, q)
    {
      DamageIsSeen(t, u, resolve, p, q);
    }
    SameVerified(Without(t, {p}), u, resolve, walk);
    ReceiptOfVerified(t, resolve, p);
    KeyNamesPath(t, resolve, p);
    VerifiedMeans(t, resolve, p);
    assert WalksAll(u, walk);
    IgnoredMeans(u, resolve, walk);
    NotPlanned(u, resolve, walk, r, t.receipts[p].objectKey, p);
    SortedAfterPrune(u, resolve, walk, r);
  }

  lemma NotPlanned(t: Target, resolve: Resolve, walk: seq<Path>, r: Retention, key: ObjectKey, p: Path)
    requires r.Valid() && WalksAll(t, walk) && resolve(key) == Some(p) && VerifyPair(t, resolve, p) == None
    ensures key !in PlanFor(Sorted(t, resolve, walk), r).kept && key !in PlanFor(Sorted(t, resolve, walk), r).delete
  {
    hide VerifyPair, Kept, NewestFirst, DistinctKeys, SortDesc, Verified;
    var items := Sorted(t, resolve, walk);
    var kept := Kept(items, r);
    var gone := Keys(items) - Keys(kept);
    SortedShape(t, resolve, walk);
    KeyListKeys(kept, key);
    KeyListKeys(Where(items, gone), key);
    WhereTakesFrom(items, gone);
    KeptListed(items, r);
    forall b | b in items ensures b.key != key { VerifiedAt(t, resolve, walk, b); }
  }

  // ---- Publishing ----

  /** A receipt that verifies against its object, filed at a path not used before and later on the walk. */
  predicate Publishable(t: Target, resolve: Resolve, walk: seq<Path>, n: Publication) {
    && n.path !in t.receipts && n.path in walk
    && n.receipt.lineage && resolve(n.receipt.objectKey) == Some(n.path) && n.receipt.publishedAt.Some?
    && n.stored == StoredObject(n.receipt.encryptedBytes, n.receipt.encryptedSha256)
  }

  function BackupOf(n: Publication): Backup
    requires n.receipt.publishedAt.Some?
  {
    Backup(n.receipt.objectKey, n.receipt.publishedAt.value)
  }

  lemma {:induction false} VerifiedAfterPublish(t: Target, resolve: Resolve, walk: seq<Path>, n: Publication) returns (i: nat)
    requires Distinct(walk) && n.path in walk && Publishable(t, resolve, walk, n)
    ensures var before := Verified(t, resolve, walk);
            i <= |before| && Verified(Publish(t, n), resolve, walk) == before[..i] + [BackupOf(n)] + before[i..]
  {
    hide VerifyPair;
    var rest := walk[1..];
    assert walk == [walk[0]] + rest;
    assert forall j :: 0 <= j < |rest| ==> rest[j] == walk[j + 1];
    var before := Verified(t, resolve, walk);
    VerifyPublished(t, resolve, walk, n, walk[0]);
    if walk[0] == n.path {
      i := 0;
      SameElsewhere(t, resolve, rest, n);
      assert before == Verified(t, resolve, rest);
      assert before[..0] + [BackupOf(n)] + before[0..] == [BackupOf(n)] + before;
    } else {
      var j := VerifiedAfterPublish(t, resolve, rest, n);
      var more := Verified(t, resolve, rest);
      var v := VerifyPair(t, resolve, walk[0]);
      if v.Some? {
        i := j + 1;
        assert before == [v.value] + more;
        assert before[..i] == [v.value] + more[..j] && before[i..] == more[j..];
        assert [v.value] + (more[..j] + [BackupOf(n)] + more[j..]) == before[..i] + [BackupOf(n)] + before[i..];
      } else {
        i := j;
      }
    }
  }

  lemma VerifyPublished(t: Target, resolve: Resolve, walk: seq<Path>, n: Publication, p: Path)
    requires Publishable(t, resolve, walk, n)
    ensures VerifyPair(t, resolve, n.path) == None
    ensures VerifyPair(Publish(t, n), resolve, p) == if p == n.path then Some(BackupOf(n)) else VerifyPair(t, resolve, p)
  {
  }

  lemma {:induction false} SameElsewhere(t: Target, resolve: Resolve, walk: seq<Path>, n: Publication)
    requires n.path !in walk
    ensures Verified(Publish(t, n), resolve, walk) == Verified(t, resolve, walk)
  {
    if walk != [] {
      assert walk == [walk[0]] + walk[1..];
      SameElsewhere(t, resolve, walk[1..], n);
    }
  }

  predicate NewerThanAll(b: Backup, items: seq<Backup>) {
    forall c :: c in items ==> c.published < b.published
  }

  lemma SortedAfterPublish(t: Target, resolve: Resolve, walk: seq<Path>, n: Publication)
    requires WalksAll(t, walk) && Publishable(t, resolve, walk, n)
    requires NewerThanAll(BackupOf(n), Sorted(t, resolve, walk))
    ensures Sorted(Publish(t, n), resolve, walk) == [BackupOf(n)] + Sorted(t, resolve, walk)
    ensures WalksAll(Publish(t, n), walk)
  {
    hide VerifyPair, SortDesc;
    SortedShape(t, resolve, walk);
    var i := VerifiedAfterPublish(t, resolve, walk, n);
    var items := Verified(t, resolve, walk);
    assert items[..i] + items[i..] == items;
    SortWithNewest(items[..i], BackupOf(n), items[i..]);
  }

  // ---- A history of publishes ----

  /** Each publication is new to the directory and strictly newer than all before it. */
  predicate InOrder(t: Target, resolve: Resolve, walk: seq<Path>, news: seq<Publication>) {
    news != [] ==>
      var before, n := news[..|news| - 1], news[|news| - 1];
      && InOrder(t, resolve, walk, before)
      && Publishable(PublishEach(t, before), resolve, walk, n)
      && NewerThanAll(BackupOf(n), Sorted(PublishEach(t, before), resolve, walk))
  }

  lemma {:induction false} WalkStays(t: Target, resolve: Resolve, walk: seq<Path>, news: seq<Publication>)
    requires WalksAll(t, walk) && InOrder(t, resolve, walk, news)
    ensures WalksAll(PublishEach(t, news), walk)
  {
    if news != [] {
      WalkStays(t, resolve, walk, news[..|news| - 1]);
    }
  }

  /** Publishing into a reduced directory is reducing the published one. */
  lemma PublishReduced(t: Target, resolve: Resolve, walk: seq<Path>, keys: set<ObjectKey>, n: Publication)
    requires Publishable(t, resolve, walk, n)
    ensures Publish(Reduced(t, resolve, keys), n) == Reduced(Publish(t, n), resolve, keys + {BackupOf(n).key})
    ensures Publishable(Reduced(t, resolve, keys), resolve, walk, n)
  {
    hide VerifyPair;
    var u := Publish(t, n);
    var gone := set p | p in t.receipts && VerifyPair(t, resolve, p).Some? && VerifyPair(t, resolve, p).value.key !in keys;
    var goneAfter := set p | p in u.receipts && VerifyPair(u, resolve, p).Some?
                               && VerifyPair(u, resolve, p).value.key !in keys + {BackupOf(n).key};
    forall p
      ensures VerifyPair(u, resolve, p) == if p == n.path then Some(BackupOf(n)) else VerifyPair(t, resolve, p)
      ensures VerifyPair(t, resolve, p).Some? ==> p != n.path && VerifyPair(t, resolve, p).value.key != BackupOf(n).key
    {
      VerifyPublished(t, resolve, walk, n, p);
      KeyNamesPath(t, resolve, p);
    }
    assert n.path !in gone;
    assert gone == goneAfter;
    assert Publish(Without(t, gone), n) == Without(u, gone);
  }

  lemma ReducedTwice(t: Target, resolve: Resolve, some: set<ObjectKey>, fewer: set<ObjectKey>)
    requires fewer <= some
    ensures Reduced(Reduced(t, resolve, some), resolve, fewer) == Reduced(t, resolve, fewer)
  {
    hide VerifyPair;
    var u := Reduced(t, resolve, some);
    forall p ensures VerifyPair(u, resolve, p)
      == if VerifyPair(t, resolve, p).Some? && VerifyPair(t, resolve, p).value.key in some then VerifyPair(t, resolve, p) else None
    {
      VerifyReduced(t, resolve, some, p);
    }
    var a := set p | p in t.receipts && VerifyPair(t, resolve, p).Some? && VerifyPair(t, resolve, p).value.key !in some;
    var b := set p | p in u.receipts && VerifyPair(u, resolve, p).Some? && VerifyPair(u, resolve, p).value.key !in fewer;
    var c := set p | p in t.receipts && VerifyPair(t, resolve, p).Some? && VerifyPair(t, resolve, p).value.key !in fewer;
    assert a + b == c;
    assert Without(Without(t, a), b) == Without(t, c);
  }

  /** One more cycle after a history of them. */
  lemma CycleStep(t: Target, resolve: Resolve, walk: seq<Path>, n: Publication, r: Retention)
    requires r.Valid() && WalksAll(t, walk) && Publishable(t, resolve, walk, n)
    requires NewerThanAll(BackupOf(n), Sorted(t, resolve, walk))
    ensures Pruned(Publish(Pruned(t, resolve, walk, r), n), resolve, walk, r) == Pruned(Publish(t, n), resolve, walk, r)
  {
    hide VerifyPair, Kept, NewestFirst, DistinctKeys, SortDesc, Verified, PlanFor, ApplyPlan, Pruned, Reduced, Sorted;
    var items := Sorted(t, resolve, walk);
    var b, kept := BackupOf(n), Kept(items, r);
    SortedAfterPrune(t, resolve, walk, r);
    SortedAfterPublish(t, resolve, walk, n);
    var some := Keys(kept);
    var pruned := Pruned(t, resolve, walk, r);
    PublishReduced(t, resolve, walk, some, n);
    KeptListed(items, r);
    SortedAfterPublish(pruned, resolve, walk, n);
    var all, cycle := Publish(t, n), Publish(pruned, n);
    SortedShape(all, resolve, walk);
    PruneBeforePublish(b, items, r);
    SortedAfterPrune(all, resolve, walk, r);
    SortedAfterPrune(cycle, resolve, walk, r);
    KeptListed([b] + kept, r);
    var fewer := Keys(Kept([b] + kept, r));
    assert fewer <= some + {b.key};
    ReducedTwice(all, resolve, some + {b.key}, fewer);
  }

  // ---- The order of the walk ----

  predicate DistinctInstants(items: seq<Backup>) {
    forall b, c :: b in items && c in items && b.published == c.published ==> b == c
  }

  lemma SameNewest(a: seq<Backup>, b: seq<Backup>)
    requires a != [] && NewestFirst(a) && NewestFirst(b) && DistinctInstants(a)
    requires forall c :: c in a <==> c in b
    ensures b != [] && b[0] == a[0]
  {
    BothEmpty(a, b);
    assert a[0] in b;
    assert b[0] in a;
  }

  lemma BothEmpty(a: seq<Backup>, b: seq<Backup>)
    requires forall c :: c in a <==> c in b
    ensures a == [] <==> b == []
  {
    if a != [] { assert a[0] in b; }
    if b != [] { assert b[0] in a; }
  }

  lemma RestOfDistinct(items: seq<Backup>)
    requires items != [] && DistinctKeys(items)
    ensures forall b :: b in items[1..] <==> b in items && b != items[0]
  {
    assert items == [items[0]] + items[1..];
  }

  /** Backups of distinct instants can be listed newest first in one way only. */
  lemma {:induction false} OneOrder(a: seq<Backup>, b: seq<Backup>)
    requires NewestFirst(a) && DistinctKeys(a) && NewestFirst(b) && DistinctKeys(b) && DistinctInstants(a)
    requires forall c :: c in a <==> c in b
    ensures a == b
  {
    hide NewestFirst, DistinctKeys;
    BothEmpty(a, b);
    if a != [] {
      SameNewest(a, b);
      OrderOfRest(a);
      OrderOfRest(b);
      RestOfDistinct(a);
      RestOfDistinct(b);
      OneOrder(a[1..], b[1..]);
      assert a == [a[0]] + a[1..] && b == [b[0]] + b[1..];
    }
  }

  /** While no two backups have the same instant, every walk finds the same sorted list. */
  lemma WalkDoesNotMatter(t: Target, resolve: Resolve, walk: seq<Path>, other: seq<Path>)
    requires WalksAll(t, walk) && WalksAll(t, other) && DistinctInstants(Sorted(t, resolve, walk))
    ensures Sorted(t, resolve, other) == Sorted(t, resolve, walk)
  {
    hide NewestFirst, DistinctKeys, SortDesc, Verified, VerifyPair, DistinctInstants;
    SortedShape(t, resolve, walk);
    SortedShape(t, resolve, other);
    forall b ensures b in Verified(t, resolve, walk) <==> b in Verified(t, resolve, other) {
      VerifiedAt(t, resolve, walk, b);
      VerifiedAt(t, resolve, other, b);
      if resolve(b.key).Some? { ReceiptOfVerified(t, resolve, resolve(b.key).value); }
    }
    OneOrder(Sorted(t, resolve, walk), Sorted(t, resolve, other));
  }

  /** The backups a prune keeps, and a strictly newer one, have distinct instants. */
  lemma KeptInstantsDistinct(items: seq<Backup>, n: Backup, r: Retention)
    requires NewestFirst(items) && DistinctKeys(items) && r.Valid() && NewerThanAll(n, items)
    ensures DistinctInstants([n] + Kept(items, r))
  {
    hide NewestFirst, DistinctKeys, Kept;
    KeptListed(items, r);
    forall b, c | b in Kept(items, r) && c in Kept(items, r) && b.published == c.published ensures b == c {
      var i :| 0 <= i < |items| && items[i] == b;
      var j :| 0 <= j < |items| && items[j] == c;
      if i < j { RetentionMeaning.KeptOncePerDay(items, i, j, r); }
      if j < i { RetentionMeaning.KeptOncePerDay(items, j, i, r); }
    }
  }

  lemma PruneFollowsOrder(t: Target, resolve: Resolve, walk: seq<Path>, other: seq<Path>, r: Retention)
    requires Sorted(t, resolve, walk) == Sorted(t, resolve, other)
    ensures Pruned(t, resolve, walk, r) == Pruned(t, resolve, other, r)
  {
  }

  /** After a first prune each further cycle may walk as it likes. */
  lemma LaterCycle(t: Target, resolve: Resolve, walk: seq<Path>, other: seq<Path>, n: Publication, r: Retention)
    requires r.Valid() && WalksAll(t, walk) && Publishable(t, resolve, walk, n)
    requires NewerThanAll(BackupOf(n), Sorted(t, resolve, walk))
    requires WalksAll(Publish(Pruned(t, resolve, walk, r), n), other)
    ensures Pruned(Publish(Pruned(t, resolve, walk, r), n), resolve, other, r) == Pruned(Publish(t, n), resolve, walk, r)
  {
    hide VerifyPair, Kept, NewestFirst, DistinctKeys, SortDesc, Verified, Pruned, Reduced, Sorted, WalksAll;
    var items, pruned := Sorted(t, resolve, walk), Pruned(t, resolve, walk, r);
    CycleStep(t, resolve, walk, n, r);
    SortedAfterPrune(t, resolve, walk, r);
    KeptListed(items, r);
    PublishReduced(t, resolve, walk, Keys(Kept(items, r)), n);
    SortedAfterPublish(pruned, resolve, walk, n);
    SortedOf(t, resolve, walk);
    KeptInstantsDistinct(items, BackupOf(n), r);
    WalkDoesNotMatter(Publish(pruned, n), resolve, walk, other);
    PruneFollowsOrder(Publish(pruned, n), resolve, walk, other, r);
  }

  lemma SortedOf(t: Target, resolve: Resolve, walk: seq<Path>)
    requires WalksAll(t, walk)
    ensures NewestFirst(Sorted(t, resolve, walk)) && DistinctKeys(Sorted(t, resolve, walk))
  {
    SortedShape(t, resolve, walk);
  }

  /** The first cycle: the walk decides between backups of the same instant. */
  lemma FirstCycle(t: Target, resolve: Resolve, walk: seq<Path>, first: seq<Path>, n: Publication, r: Retention)
    requires r.Valid() && WalksAll(t, walk) && Publishable(t, resolve, walk, n)
    requires NewerThanAll(BackupOf(n), Sorted(t, resolve, walk))
    requires WalksAll(Publish(t, n), first) && Sorted(t, resolve, first) == Sorted(t, resolve, walk)
    ensures Pruned(Publish(t, n), resolve, first, r) == Pruned(Publish(t, n), resolve, walk, r)
  {
    hide VerifyPair, Pruned, Sorted;
    assert n.path in Publish(t, n).receipts;
    assert forall p :: p in t.receipts ==> p in Publish(t, n).receipts;
    SortedAfterPublish(t, resolve, walk, n);
    SortedAfterPublish(t, resolve, first, n);
    PruneFollowsOrder(Publish(t, n), resolve, walk, first, r);
  }

  /** Running `cycle` for each of a series of ever newer backups leaves the directory, file by file, as
      publishing all of them and pruning once does. Every cycle may walk the directory in its own order; the
      one prune meets the old backups as the first cycle met them, which matters for equal instants only. */
  lemma {:induction false} CyclesArePruneOnce(
      t: Target, resolve: Resolve, walks: seq<seq<Path>>, walk: seq<Path>, news: seq<Publication>, r: Retention)
    requires r.Valid() && |walks| == |news| && news != []
    requires WalkEach(t, resolve, walks, news, r) && WalksAll(t, walk) && InOrder(t, resolve, walk, news)
    requires Sorted(t, resolve, walks[0]) == Sorted(t, resolve, walk)
    ensures CycleEach(t, resolve, walks, news, r) == Pruned(PublishEach(t, news), resolve, walk, r)
  {
    hide Pruned, Publishable, NewerThanAll, WalksAll, Sorted;
    var last := |news| - 1;
    var before, n := news[..last], news[last];
    WalkStays(t, resolve, walk, before);
    if before == [] {
      FirstCycle(t, resolve, walk, walks[0], n, r);
    } else {
      assert walks[..last][0] == walks[0];
      CyclesArePruneOnce(t, resolve, walks[..last], walk, before, r);
      LaterCycle(PublishEach(t, before), resolve, walk, walks[last], n, r);
    }
  }
}
