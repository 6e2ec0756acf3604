/** The backup directory as the scripts use it: verifying pairs, planning with two loops over the sorted
    backups, and deleting one pair after another. */
module RecoveryTarget {
  import opened Common
  import opened JsonText
  import opened RetentionSpec
  import opened RetentionProofs
  import RetentionMeaning
  import CanonicalText
  import opened RecoveryTargetSpec
  import opened RecoveryTargetProofs

  class Directory {
    const resolve: Resolve
    var objects: map<Path, StoredObject>
    var receipts: map<Path, Receipt>

    constructor (resolve: Resolve, objects: map<Path, StoredObject>, receipts: map<Path, Receipt>)
      ensures this.resolve == resolve && View() == Target(objects, receipts)
    {
      this.resolve, this.objects, this.receipts := resolve, objects, receipts;
    }

    function View(): Target
      reads this
    {
      Target(objects, receipts)
    }

    /** The first of the sorted days, if any. */
    static method Oldest(dates: seq<int>) returns (oldest: Option<int>)
      ensures dates == [] <==> oldest == None
      ensures oldest.Some? ==> oldest.value in dates && forall d :: d in dates ==> oldest.value <= d
    {
      oldest := None;
      for i := 0 to |dates|
        invariant oldest == None <==> i == 0
        invariant oldest.Some? ==> oldest.value in dates && forall j :: 0 <= j < i ==> oldest.value <= dates[j]
      {
        if oldest == None || dates[i] < oldest.value {
          oldest := Some(dates[i]);
        }
      }
    }

    static function DaysOf(items: seq<Backup>): seq<int> {
      seq(|items|, i requires 0 <= i < |items| => items[i].Day())
    }

    static lemma NewDay(dates: seq<int>, d: int)
      requires d !in dates
      ensures (set x | x in dates + [d]) == (set x | x in dates) + {d}
    {
    }

    /** The first loop: the newest backup of each of the newest days. */
    static method KeepDaily(items: seq<Backup>, r: Retention) returns (keep: set<ObjectKey>, dailyDates: seq<int>)
      ensures keep == Keys(Daily(items, r)) && dailyDates == DaysOf(Daily(items, r))
    {
      hide Backup.Day, DaysOf, FirstOfDays;
      dailyDates, keep := [], {};
      NoDays(r);
      assert items[0..] == items && (set d | d in dailyDates) == {};
      ghost var days: seq<Backup> := [];
      for i := 0 to |items|
        invariant Daily(items, r) == days + FirstOfDays(items[i..], (set d | d in dailyDates), r.daily)
        invariant keep == Keys(days) && dailyDates == DaysOf(days) && |set d | d in dailyDates| == |dailyDates|
      {
        var item := items[i];
        NextDay(items, i, (set d | d in dailyDates), r.daily);
        if item.Day() !in dailyDates && |dailyDates| < r.daily {
          NewDay(dailyDates, item.Day());
          DaysOfMore(days, item);
          dailyDates := dailyDates + [item.Day()];
          keep := keep + {item.key};
          days := days + [item];
        }
      }
      assert items[|items|..] == [] && Daily(items, r) == days;
    }

    static lemma NoDays(r: Retention)
      ensures DaysOf([]) == [] && forall seen: set<int> :: FirstOfDays([], seen, r.daily) == []
    {
    }

    static lemma DaysOfMore(days: seq<Backup>, b: Backup)
      ensures DaysOf(days + [b]) == DaysOf(days) + [b.Day()]
    {
    }

    static lemma NextDay(items: seq<Backup>, i: nat, seen: set<int>, limit: int)
      requires i < |items|
      ensures FirstOfDays(items[i..], seen, limit)
           == if items[i].Day() !in seen && |seen| < limit then [items[i]] + FirstOfDays(items[i + 1..], seen + {items[i].Day()}, limit)
              else FirstOfDays(items[i + 1..], seen, limit)
    {
      hide Backup.Day;
      assert items[i..][0] == items[i] && items[i..][1..] == items[i + 1..];
    }

    /** Both retention loops over backups sorted newest first: the second adds the newest backup of each of
        the newest weeks below the oldest daily one. */
    static method KeepSet(items: seq<Backup>, r: Retention) returns (keep: set<ObjectKey>)
      requires r.Valid() && NewestFirst(items)
      ensures keep == Keys(Daily(items, r)) + Keys(Weekly(items, r))
    {
      hide NewestFirst, Daily, Backup.Day, Backup.Week, DaysOf;
      var dailyDates;
      keep, dailyDates := KeepDaily(items, r);
      var oldest := Oldest(dailyDates);
      OldestIsLast(items, r, dailyDates, oldest);
      var weeklyKeys := {};
      ghost var weeks: seq<Backup> := [];
      ghost var before := LastDay(Daily(items, r), 0);
      for i := 0 to |items|
        invariant oldest.Some? ==> FirstOfWeeks(items, before, {}, r.weekly) == weeks + FirstOfWeeks(items[i..], before, weeklyKeys, r.weekly)
        invariant oldest == None ==> weeks == []
        invariant keep == Keys(Daily(items, r)) + Keys(weeks)
      {
        var item := items[i];
        assert items[i..][0] == item && items[i..][1..] == items[i + 1..];
        if oldest == None || item.Day() >= oldest.value {
          continue;
        }
        if item.Week() !in weeklyKeys && |weeklyKeys| < r.weekly {
          weeklyKeys := weeklyKeys + {item.Week()};
          keep := keep + {item.key};
          weeks := weeks + [item];
        }
      }
      assert Weekly(items, r) == weeks;
    }

    static lemma OldestIsLast(items: seq<Backup>, r: Retention, dates: seq<int>, oldest: Option<int>)
      requires NewestFirst(items) && dates == DaysOf(Daily(items, r))
      requires dates == [] <==> oldest == None
      requires oldest.Some? ==> oldest.value in dates && forall d :: d in dates ==> oldest.value <= d
      ensures oldest == None <==> Daily(items, r) == []
      ensures oldest.Some? ==> oldest.value == LastDay(Daily(items, r), 0)
    {
      var daily := Daily(items, r);
      RetentionMeaning.FirstOfDaysInOrder(items, {}, r.daily);
      if daily != [] {
        assert dates[|daily| - 1] == daily[|daily| - 1].Day();
        var i :| 0 <= i < |daily| && dates[i] == oldest.value;
        assert dates[|daily| - 1] in dates;
        assert daily[i].published >= daily[|daily| - 1].published;
      }
    }

    method VerifyRecoveryPair(p: Path) returns (b: Option<Backup>)
      ensures b == VerifyPair(View(), resolve, p)
      ensures b.Some? ==> p in receipts && p in objects && objects[p] == StoredObject(receipts[p].encryptedBytes, receipts[p].encryptedSha256)
    {
      b := None;
      if p !in receipts { return; }
      var receipt := receipts[p];
      var path := resolve(receipt.objectKey);
      if !receipt.lineage || path != Some(p) { return; }
      if receipt.publishedAt == None { return; }
      if p !in objects || objects[p].size != receipt.encryptedBytes || objects[p].sha256 != receipt.encryptedSha256 { return; }
      b := Some(Backup(receipt.objectKey, receipt.publishedAt.value));
    }

    /** Plans a prune of the pairs found on a walk of the directory; receipts that do not verify are left
        out of it and listed by name. */
    method PlanRecoveryRetention(walk: seq<Path>, r: Retention) returns (plan: Result<RetentionPlan, PlanError>)
      requires WalksAll(View(), walk)
      ensures plan.Ok? <==> r.Valid()
      ensures plan.Err? ==> plan.error == InvalidRetention
      ensures plan.Ok? ==> Plan(plan.value.kept, plan.value.delete) == PlanFor(Sorted(View(), resolve, walk), r)
      ensures plan.Ok? ==> plan.value.ignored == Ignored(View(), resolve, walk)
      ensures plan.Ok? ==> plan.value.verifiedReceipts == |VerifiedPaths(View(), resolve)|
    {
      hide VerifyPair, Kept, NewestFirst, DistinctKeys, SortDesc;
      if r.daily < 1 || r.weekly < 0 {
        return Err(InvalidRetention);
      }
      var verified, ignored := ReadReceipts(walk);
      SortedShape(View(), resolve, walk);
      CountVerified(View(), resolve, walk);
      verified := SortDesc(verified);
      var keep := KeepSet(verified, r);
      KeepSplits(verified, keep, r);
      plan := Ok(RetentionPlan(
        |verified|, KeyList(Where(verified, keep)), KeyList(Where(verified, Keys(verified) - keep)), Names(CanonicalText.SortByKey(ignored))));
    }

    /** The first loop over the walk: verified pairs and the receipts that are none. */
    method ReadReceipts(walk: seq<Path>) returns (verified: seq<Backup>, ignored: seq<(Text, Path)>)
      ensures verified == Verified(View(), resolve, walk) && ignored == Unverified(View(), resolve, walk)
    {
      hide VerifyPair, Verified, Unverified, ReceiptName;
      verified, ignored := [], [];
      for i := 0 to |walk|
        invariant Verified(View(), resolve, walk) == verified + Verified(View(), resolve, walk[i..])
        invariant Unverified(View(), resolve, walk) == ignored + Unverified(View(), resolve, walk[i..])
      {
        NextReceipt(View(), resolve, walk, i);
        var pair := VerifyRecoveryPair(walk[i]);
        if pair.Some? {
          verified := verified + [pair.value];
        } else {
          if walk[i] in receipts {
            ignored := ignored + [(ReceiptName(walk[i]), walk[i])];
          }
        }
      }
      assert walk[|walk|..] == [];
      NothingRead(View(), resolve);
    }

    static lemma NothingRead(t: Target, resolve: Resolve)
      ensures Verified(t, resolve, []) == [] && Unverified(t, resolve, []) == []
    {
    }

    static lemma NextReceipt(t: Target, resolve: Resolve, walk: seq<Path>, i: nat)
      requires i < |walk|
      ensures var pair := VerifyPair(t, resolve, walk[i]);
              && Verified(t, resolve, walk[i..]) == (if pair.Some? then [pair.value] else []) + Verified(t, resolve, walk[i + 1..])
              && Unverified(t, resolve, walk[i..])
                 == (if walk[i] in t.receipts && pair == None then [(ReceiptName(walk[i]), walk[i])] else []) + Unverified(t, resolve, walk[i + 1..])
    {
      hide VerifyPair, ReceiptName;
      assert walk[i..][0] == walk[i] && walk[i..][1..] == walk[i + 1..];
    }

    static lemma KeepSplits(items: seq<Backup>, keep: set<ObjectKey>, r: Retention)
      requires DistinctKeys(items) && keep == Keys(Daily(items, r)) + Keys(Weekly(items, r))
      ensures Where(items, keep) == Kept(items, r)
      ensures Where(items, Keys(items) - keep) == Where(items, Keys(items) - Keys(Kept(items, r)))
    {
      var kept := Kept(items, r);
      WhereTakesFrom(items, keep);
      forall b | b in items ensures b.key in keep <==> b.key in Keys(kept) {
        SameKeySame(items, kept, b);
      }
      WhereSame(items, Keys(items) - keep, Keys(items) - Keys(kept));
    }

    /** Re-verifies and deletes each pair of a plan; stops at the first that has changed. */
    method ApplyRecoveryRetention(delete: seq<ObjectKey>) returns (deleted: Result<nat, ApplyError>)
      modifies this
      ensures (View(), deleted) == ApplyPlan(old(View()), resolve, delete)
    {
      hide VerifyPair, ApplyPlan;
      var count := 0;
      ghost var start := View();
      for i := 0 to |delete|
        invariant ApplyPlan(start, resolve, delete).0 == ApplyPlan(View(), resolve, delete[i..]).0
        invariant ApplyPlan(start, resolve, delete).1 == Plus(ApplyPlan(View(), resolve, delete[i..]).1, count)
      {
        ApplyNext(View(), resolve, delete, i);
        var p := resolve(delete[i]);
        if p == None { return Err(EscapesRoot); }
        var pair := VerifyRecoveryPair(p.value);
        if pair == None { return Err(PairNotVerified); }
        if pair.value.key != delete[i] { return Err(ChangedAfterPlanning); }
        objects, receipts := objects - {p.value}, receipts - {p.value};
        count := count + 1;
      }
      ApplyNone(View(), resolve);
      assert delete[|delete|..] == [];
      deleted := Ok(count);
    }

    static lemma ApplyNone(t: Target, resolve: Resolve)
      ensures ApplyPlan(t, resolve, []) == (t, Ok(0))
    {
    }

    static lemma ApplyNext(t: Target, resolve: Resolve, delete: seq<ObjectKey>, i: nat)
      requires i < |delete|
      ensures var p, now := resolve(delete[i]), ApplyPlan(t, resolve, delete[i..]);
              if p == None then now == (t, Err(EscapesRoot))
              else
                var b := VerifyPair(t, resolve, p.value);
                if b == None then now == (t, Err(PairNotVerified))
                else if b.value.key != delete[i] then now == (t, Err(ChangedAfterPlanning))
                else
                  var next := ApplyPlan(Without(t, {p.value}), resolve, delete[i + 1..]);
                  now == (next.0, Plus(next.1, 1))
    {
      hide VerifyPair;
      assert delete[i..][0] == delete[i] && delete[i..][1..] == delete[i + 1..];
    }

    static function Plus(r: Result<nat, ApplyError>, n: nat): Result<nat, ApplyError> {
      if r.Ok? then Ok(r.value + n) else r
    }

    /** The `prune --apply` command: the plan is applied as made, and exactly the kept backups stay. */
    method Prune(walk: seq<Path>, r: Retention) returns (deleted: Option<Result<nat, ApplyError>>)
      requires WalksAll(View(), walk)
      modifies this
      ensures !r.Valid() ==> deleted == None && View() == old(View())
      ensures r.Valid() ==> View() == Pruned(old(View()), resolve, walk, r) && WalksAll(View(), walk)
      ensures r.Valid() ==>
        Sorted(View(), resolve, walk) == Kept(Sorted(old(View()), resolve, walk), r)
      ensures r.Valid() ==>
        deleted == Some(Ok(|Sorted(old(View()), resolve, walk)| - |Sorted(View(), resolve, walk)|))
    {
      hide VerifyPair, Kept, NewestFirst, SortDesc, Verified, ApplyPlan, WalksAll;
      var plan := PlanRecoveryRetention(walk, r);
      if plan.Err? { return None; }
      SortedAfterPrune(View(), resolve, walk, r);
      PruneReduces(View(), resolve, walk, r);
      PlanCounts(View(), resolve, walk, r);
      var count := ApplyRecoveryRetention(plan.value.delete);
      deleted := Some(count);
    }

    static lemma PlanCounts(t: Target, resolve: Resolve, walk: seq<Path>, r: Retention)
      requires r.Valid() && WalksAll(t, walk)
      ensures var items := Sorted(t, resolve, walk);
              |PlanFor(items, r).delete| == |items| - |Kept(items, r)|
    {
      var items := Sorted(t, resolve, walk);
      SortedShape(t, resolve, walk);
      if items != [] {
        PlanPartitions(items, r, items[0]);
      }
    }
  }
}
