/** Which backups a prune keeps, said without loops: the newest of each of the `daily` newest days, and
    below those the newest of each of the `weekly` newest weeks. */
module RetentionMeaning {
  import opened JsonText
  import opened RetentionSpec
  import opened RetentionProofs

  ghost function DaysBefore(items: seq<Backup>, i: nat): set<int>
    requires i <= |items|
  {
    set j | 0 <= j < i :: items[j].Day()
  }

  ghost function LaterDays(items: seq<Backup>, day: int): set<int> {
    set b | b in items && b.Day() > day :: b.Day()
  }

  /** A day that at least `daily` later days with backups follow. */
  ghost predicate BelowDaily(items: seq<Backup>, day: int, r: Retention) {
    |LaterDays(items, day)| >= r.daily
  }

  ghost function WeeksBefore(items: seq<Backup>, i: nat, before: int): set<Text>
    requires i <= |items|
  {
    set j | 0 <= j < i && items[j].Day() < before :: items[j].Week()
  }

  /** The weeks of the backups before i that lie below the daily ones. */
  ghost function LaterWeeks(items: seq<Backup>, i: nat, r: Retention): set<Text>
    requires i <= |items|
  {
    set j | 0 <= j < i && BelowDaily(items, items[j].Day(), r) :: items[j].Week()
  }

  ghost predicate NewestOfDay(items: seq<Backup>, i: nat)
    requires i < |items|
  {
    items[i].Day() !in DaysBefore(items, i)
  }

  lemma RestItems(items: seq<Backup>)
    requires items != []
    ensures forall i :: 0 <= i < |items| - 1 ==> items[1..][i] == items[i + 1]
  {
  }

  lemma DaysBeforeRest(items: seq<Backup>, i: nat)
    requires 0 < i <= |items|
    ensures DaysBefore(items, i) == {items[0].Day()} + DaysBefore(items[1..], i - 1)
  {
    var rest := items[1..];
    RestItems(items);
    forall d | d in DaysBefore(items, i) ensures d in {items[0].Day()} + DaysBefore(rest, i - 1) {
      var j :| 0 <= j < i && items[j].Day() == d;
      assert j > 0 ==> rest[j - 1].Day() == d;
    }
    forall d | d in DaysBefore(rest, i - 1) ensures d in DaysBefore(items, i) {
      var j :| 0 <= j < i - 1 && rest[j].Day() == d;
      assert items[j + 1].Day() == d;
    }
  }

  lemma {:induction false} FirstOfDaysTakesFrom(items: seq<Backup>, seen: set<int>, limit: int)
    ensures forall b :: b in FirstOfDays(items, seen, limit) ==> b in items
  {
    if items != [] {
      if items[0].Day() !in seen && |seen| < limit {
        FirstOfDaysTakesFrom(items[1..], seen + {items[0].Day()}, limit);
      } else {
        FirstOfDaysTakesFrom(items[1..], seen, limit);
      }
    }
  }

  lemma SeenGrows(a: set<int>, b: set<int>)
    ensures |a| <= |a + b|
  {
    SubsetIsSmaller(a, a + b);
  }

  lemma {:induction false} FirstOfDaysMeaning(items: seq<Backup>, seen: set<int>, limit: int, i: nat)
    requires i < |items| && DistinctKeys(items)
    ensures items[i] in FirstOfDays(items, seen, limit)
       <==> items[i].Day() !in seen + DaysBefore(items, i) && |seen + DaysBefore(items, i)| < limit
  {
    hide DaysBefore;
    var rest, h := items[1..], items[0];
    RestItems(items);
    OrderOfRest(items);
    SeenGrows(seen, DaysBefore(items, i));
    if |seen| >= limit {
      NoMoreDays(items, seen, limit);
    } else {
      var grown := seen + {h.Day()};
      FirstOfDaysTakesFrom(rest, grown, limit);
      FirstOfDaysTakesFrom(rest, seen, limit);
      assert h !in rest by { HeadDistinct(items); }
      var picked := if h.Day() !in seen then [h] else [];
      var more := FirstOfDays(rest, grown, limit);
      assert h.Day() in seen ==> grown == seen;
      assert FirstOfDays(items, seen, limit) == picked + more;
      if i == 0 {
        assert DaysBefore(items, 0) == {} by { NoDaysBefore(items); }
        assert seen + {} == seen;
      } else {
        DaysBeforeRest(items, i);
        assert seen + DaysBefore(items, i) == grown + DaysBefore(rest, i - 1);
        FirstOfDaysMeaning(rest, grown, limit, i - 1);
        assert items[i] == rest[i - 1] && rest[i - 1] in rest;
        assert items[i] !in picked;
      }
    }
  }

  lemma NoDaysBefore(items: seq<Backup>)
    ensures DaysBefore(items, 0) == {}
  {
  }

  lemma HeadDistinct(items: seq<Backup>)
    requires items != [] && DistinctKeys(items)
    ensures items[0] !in items[1..]
  {
    RestItems(items);
  }

  /** The daily backups: the newest of each of the `daily` newest days. */
  lemma DailyMeaning(items: seq<Backup>, i: nat, r: Retention)
    requires i < |items| && NewestFirst(items) && DistinctKeys(items)
    ensures items[i] in Daily(items, r) <==> NewestOfDay(items, i) && !BelowDaily(items, items[i].Day(), r)
  {
    FirstOfDaysMeaning(items, {}, r.daily, i);
    assert {} + DaysBefore(items, i) == DaysBefore(items, i);
    if NewestOfDay(items, i) {
      LaterDaysBefore(items, i);
    }
  }

  /** The days before the newest backup of a day are the later days. */
  lemma LaterDaysBefore(items: seq<Backup>, i: nat)
    requires i < |items| && NewestFirst(items) && NewestOfDay(items, i)
    ensures DaysBefore(items, i) == LaterDays(items, items[i].Day())
  {
    forall d | d in LaterDays(items, items[i].Day()) ensures d in DaysBefore(items, i) {
      var j :| 0 <= j < |items| && items[j].Day() == d;
      assert j < i;
    }
    forall d | d in DaysBefore(items, i) ensures d in LaterDays(items, items[i].Day()) {
      var j :| 0 <= j < i && items[j].Day() == d;
      assert items[j] in items;
    }
  }

  lemma {:induction false} NewestOfItsDay(items: seq<Backup>, i: nat) returns (j: nat)
    requires i < |items|
    ensures j <= i && items[j].Day() == items[i].Day() && NewestOfDay(items, j)
    decreases i
  {
    if NewestOfDay(items, i) {
      j := i;
    } else {
      var k :| 0 <= k < i && items[k].Day() == items[i].Day();
      j := NewestOfItsDay(items, k);
    }
  }

  /** The days below the oldest daily backup are those that `daily` later days with backups follow. */
  lemma BelowOldestDaily(items: seq<Backup>, i: nat, r: Retention)
    requires i < |items| && NewestFirst(items) && DistinctKeys(items) && r.Valid()
    ensures Daily(items, r) != []
    ensures items[i].Day() < LastDay(Daily(items, r), 0) <==> BelowDaily(items, items[i].Day(), r)
  {
    hide FirstOfDays, NewestFirst, DistinctKeys, BelowDaily;
    SomeDay(items, r);
    var daily := Daily(items, r);
    FirstOfDaysTakesFrom(items, {}, r.daily);
    var last := daily[|daily| - 1];
    assert last in items;
    var k :| 0 <= k < |items| && items[k] == last;
    DailyMeaning(items, k, r);
    assert last in daily;
    if items[i].Day() >= last.Day() {
      FewerLaterDays(items, last.Day(), items[i].Day(), r);
    } else {
      var j := NewestOfItsDay(items, i);
      DailyMeaning(items, j, r);
      if !BelowDaily(items, items[i].Day(), r) {
        LastIsOldest(items, r, items[j]);
      }
    }
  }

  lemma FewerLaterDays(items: seq<Backup>, low: int, high: int, r: Retention)
    requires low <= high
    ensures BelowDaily(items, high, r) ==> BelowDaily(items, low, r)
  {
    SubsetIsSmaller(LaterDays(items, high), LaterDays(items, low));
  }

  lemma LastIsOldest(items: seq<Backup>, r: Retention, b: Backup)
    requires NewestFirst(items) && b in Daily(items, r)
    ensures LastDay(Daily(items, r), 0) <= b.Day()
  {
    FirstOfDaysInOrder(items, {}, r.daily);
  }

  lemma {:induction false} FirstOfDaysInOrder(items: seq<Backup>, seen: set<int>, limit: int)
    requires NewestFirst(items)
    ensures NewestFirst(FirstOfDays(items, seen, limit))
  {
    if items != [] {
      var rest, h := items[1..], items[0];
      OrderOfRest(items);
      var more := FirstOfDays(rest, if h.Day() !in seen && |seen| < limit then seen + {h.Day()} else seen, limit);
      FirstOfDaysInOrder(rest, if h.Day() !in seen && |seen| < limit then seen + {h.Day()} else seen, limit);
      FirstOfDaysTakesFrom(rest, if h.Day() !in seen && |seen| < limit then seen + {h.Day()} else seen, limit);
      forall i | 0 <= i < |more| ensures h.published >= more[i].published {
        assert more[i] in rest;
        RestItems(items);
      }
    }
  }

  // ---- Weeks ----

  lemma WeeksBeforeRest(items: seq<Backup>, i: nat, before: int)
    requires 0 < i <= |items|
    ensures WeeksBefore(items, i, before)
         == (if items[0].Day() < before then {items[0].Week()} else {}) + WeeksBefore(items[1..], i - 1, before)
  {
    hide Backup.Week, Backup.Day;
    var rest := items[1..];
    RestItems(items);
    var all := (if items[0].Day() < before then {items[0].Week()} else {}) + WeeksBefore(rest, i - 1, before);
    forall w | w in WeeksBefore(items, i, before) ensures w in all {
      var j :| 0 <= j < i && items[j].Day() < before && items[j].Week() == w;
      assert j > 0 ==> rest[j - 1].Week() == w;
    }
    forall w | w in WeeksBefore(rest, i - 1, before) ensures w in WeeksBefore(items, i, before) {
      var j :| 0 <= j < i - 1 && rest[j].Day() < before && rest[j].Week() == w;
      assert items[j + 1].Week() == w;
    }
  }

  lemma {:induction false} FirstOfWeeksTakesFrom(items: seq<Backup>, before: int, seen: set<Text>, limit: int)
    ensures forall b :: b in FirstOfWeeks(items, before, seen, limit) ==> b in items
  {
    hide Backup.Week, Backup.Day;
    if items != [] {
      if items[0].Day() < before && items[0].Week() !in seen && |seen| < limit {
        FirstOfWeeksTakesFrom(items[1..], before, seen + {items[0].Week()}, limit);
      } else {
        FirstOfWeeksTakesFrom(items[1..], before, seen, limit);
      }
    }
  }

  lemma {:induction false} NoMoreWeeks(items: seq<Backup>, before: int, seen: set<Text>, limit: int)
    requires |seen| >= limit
    ensures FirstOfWeeks(items, before, seen, limit) == []
  {
    if items != [] {
      NoMoreWeeks(items[1..], before, seen, limit);
    }
  }

  lemma {:induction false} FirstOfWeeksMeaning(items: seq<Backup>, before: int, seen: set<Text>, limit: int, i: nat)
    requires i < |items| && DistinctKeys(items)
    ensures items[i] in FirstOfWeeks(items, before, seen, limit)
       <==> && items[i].Day() < before
            && items[i].Week() !in seen + WeeksBefore(items, i, before) && |seen + WeeksBefore(items, i, before)| < limit
  {
    hide WeeksBefore, Backup.Week, Backup.Day;
    var rest, h := items[1..], items[0];
    RestItems(items);
    OrderOfRest(items);
    SubsetIsSmaller(seen, seen + WeeksBefore(items, i, before));
    if |seen| >= limit {
      NoMoreWeeks(items, before, seen, limit);
    } else {
      var grown := if h.Day() < before then seen + {h.Week()} else seen;
      FirstOfWeeksTakesFrom(rest, before, grown, limit);
      assert h !in rest by { HeadDistinct(items); }
      var picked := if h.Day() < before && h.Week() !in seen then [h] else [];
      var more := FirstOfWeeks(rest, before, grown, limit);
      assert h.Week() in seen ==> grown == seen;
      assert FirstOfWeeks(items, before, seen, limit) == picked + more;
      if i == 0 {
        assert WeeksBefore(items, 0, before) == {} by { NoWeeksBefore(items, before); }
        assert seen + {} == seen;
      } else {
        WeeksBeforeRest(items, i, before);
        assert seen + WeeksBefore(items, i, before) == grown + WeeksBefore(rest, i - 1, before);
        FirstOfWeeksMeaning(rest, before, grown, limit, i - 1);
        assert items[i] == rest[i - 1] && rest[i - 1] in rest;
        assert items[i] !in picked;
      }
    }
  }

  lemma NoWeeksBefore(items: seq<Backup>, before: int)
    ensures WeeksBefore(items, 0, before) == {}
  {
  }

  /** The weekly backups: below the daily ones, the newest of each of the `weekly` newest weeks. */
  lemma WeeklyMeaning(items: seq<Backup>, i: nat, r: Retention)
    requires i < |items| && NewestFirst(items) && DistinctKeys(items) && r.Valid()
    ensures items[i] in Weekly(items, r)
       <==> && BelowDaily(items, items[i].Day(), r)
            && items[i].Week() !in LaterWeeks(items, i, r) && |LaterWeeks(items, i, r)| < r.weekly
  {
    hide FirstOfWeeks, Daily, NewestFirst, DistinctKeys, BelowDaily;
    var oldest := LastDay(Daily(items, r), 0);
    forall j | 0 <= j < |items| ensures items[j].Day() < oldest <==> BelowDaily(items, items[j].Day(), r) {
      BelowOldestDaily(items, j, r);
    }
    BelowOldestDaily(items, i, r);
    FirstOfWeeksMeaning(items, oldest, {}, r.weekly, i);
    assert {} + WeeksBefore(items, i, oldest) == LaterWeeks(items, i, r);
  }

  /** A prune keeps the newest backup of each of the `daily` newest days and, among the backups of the days
      before those, the newest of each of the `weekly` newest weeks; nothing else. */
  lemma KeptMeaning(items: seq<Backup>, i: nat, r: Retention)
    requires i < |items| && NewestFirst(items) && DistinctKeys(items) && r.Valid()
    ensures items[i] in Kept(items, r)
       <==> if BelowDaily(items, items[i].Day(), r)
            then items[i].Week() !in LaterWeeks(items, i, r) && |LaterWeeks(items, i, r)| < r.weekly
            else NewestOfDay(items, i)
  {
    hide Kept, Daily, Weekly, NewestFirst, DistinctKeys, BelowDaily, NewestOfDay;
    KeptInOnePass(items, r);
    DailyMeaning(items, i, r);
    WeeklyMeaning(items, i, r);
  }

  /** Of the backups of one day a prune keeps one at most. */
  lemma KeptOncePerDay(items: seq<Backup>, i: nat, j: nat, r: Retention)
    requires i < j < |items| && NewestFirst(items) && DistinctKeys(items) && r.Valid()
    requires items[i].Day() == items[j].Day() && items[i] in Kept(items, r)
    ensures items[j] !in Kept(items, r)
  {
    hide Kept, NewestFirst, DistinctKeys, BelowDaily, Backup.Day;
    KeptMeaning(items, i, r);
    KeptMeaning(items, j, r);
    if BelowDaily(items, items[j].Day(), r) {
      assert items[i].Week() == items[j].Week();
    }
  }
}
