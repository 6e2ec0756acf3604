/** Pruning after every publish keeps what pruning once at the end keeps, and what a single prune keeps. */
module RetentionProofs {
  import opened IsoWeek
  import opened JsonText
  import opened RetentionSpec

  // ---- One pass instead of two ----

  /** The oldest day kept so far, how many more days may be kept, and the weeks kept so far. */
  datatype Scan = Scan(oldest: int, left: nat, weeks: set<Text>)

  /** A day later than any other: nothing has been kept yet. */
  const NO_DAY := YearStart(10000)

  function Picks(b: Backup, s: Scan, weekly: int): bool {
    b.Day() != s.oldest && (s.left > 0 || (b.Week() !in s.weeks && |s.weeks| < weekly))
  }

  function After(b: Backup, s: Scan, weekly: int): Scan {
    if !Picks(b, s, weekly) then s
    else if s.left > 0 then Scan(b.Day(), s.left - 1, s.weeks)
    else s.(weeks := s.weeks + {b.Week()})
  }

  /** Newest to oldest: a day already kept is skipped; while days are left each new day is kept; after
      that each new week. */
  function Pass(items: seq<Backup>, s: Scan, weekly: int): seq<Backup> {
    if items == [] then []
    else (if Picks(items[0], s, weekly) then [items[0]] else []) + Pass(items[1..], After(items[0], s, weekly), weekly)
  }

  predicate From(items: seq<Backup>, day: int) {
    NewestFirst(items) && forall i :: 0 <= i < |items| ==> items[i].Day() <= day
  }

  lemma FromRest(items: seq<Backup>, day: int)
    requires From(items, day) && items != []
    ensures items[0].Day() <= day && From(items[1..], items[0].Day())
  {
    var rest := items[1..];
    assert forall i :: 0 <= i < |rest| ==> rest[i] == items[i + 1];
  }

  function Start(r: Retention): Scan
    requires r.Valid()
  {
    Scan(NO_DAY, r.daily, {})
  }

  lemma {:induction false} WeeksInOnePass(items: seq<Backup>, s: Scan, weekly: int)
    requires s.left == 0 && From(items, s.oldest)
    ensures Pass(items, s, weekly) == FirstOfWeeks(items, s.oldest, s.weeks, weekly)
  {
    if items != [] {
      FromRest(items, s.oldest);
      assert From(items[1..], s.oldest);
      WeeksInOnePass(items[1..], After(items[0], s, weekly), weekly);
    }
  }

  lemma {:induction false} NoMoreDays(items: seq<Backup>, seen: set<int>, limit: int)
    requires |seen| >= limit
    ensures FirstOfDays(items, seen, limit) == []
  {
    if items != [] {
      NoMoreDays(items[1..], seen, limit);
    }
  }

  function LastDay(days: seq<Backup>, otherwise: int): int {
    if days == [] then otherwise else days[|days| - 1].Day()
  }

  lemma {:induction false} LastDayIsOldest(items: seq<Backup>, day: int, seen: set<int>, limit: int)
    requires From(items, day)
    ensures LastDay(FirstOfDays(items, seen, limit), day) <= day
  {
    if items != [] {
      FromRest(items, day);
      if items[0].Day() !in seen && |seen| < limit {
        LastDayIsOldest(items[1..], items[0].Day(), seen + {items[0].Day()}, limit);
      } else {
        assert From(items[1..], day);
        LastDayIsOldest(items[1..], day, seen, limit);
      }
    }
  }

  predicate SeenDownTo(seen: set<int>, oldest: int) {
    (forall d :: d in seen ==> oldest <= d) && (oldest in seen || oldest == NO_DAY)
  }

  lemma {:induction false} DaysThenWeeks(items: seq<Backup>, seen: set<int>, s: Scan, limit: nat, weekly: int)
    requires From(items, s.oldest) && SeenDownTo(seen, s.oldest) && s.weeks == {} && s.left + |seen| == limit
    ensures var days := FirstOfDays(items, seen, limit);
            Pass(items, s, weekly) == days + FirstOfWeeks(items, LastDay(days, s.oldest), {}, weekly)
  {
    hide From, NewestFirst;
    if s.left == 0 {
      NoMoreDays(items, seen, limit);
      WeeksInOnePass(items, s, weekly);
    } else if items != [] {
      var rest, h := items[1..], items[0];
      FromRest(items, s.oldest);
      var t := After(h, s, weekly);
      InstantDay(h);
      var grown := if h.Day() in seen then seen else seen + {h.Day()};
      assert h.Day() in seen <==> h.Day() == s.oldest;
      DaysThenWeeks(rest, grown, t, limit, weekly);
      LastDayIsOldest(rest, h.Day(), grown, limit);
      var days := FirstOfDays(items, seen, limit);
      assert LastDay(days, s.oldest) == LastDay(FirstOfDays(rest, grown, limit), t.oldest);
    }
  }

  lemma InstantDay(b: Backup)
    ensures b.Day() < NO_DAY
  {
  }

  lemma {:induction false} PassTakesFrom(items: seq<Backup>, s: Scan, weekly: int)
    ensures forall b :: b in Pass(items, s, weekly) ==> b in items
  {
    if items != [] {
      PassTakesFrom(items[1..], After(items[0], s, weekly), weekly);
    }
  }

  lemma {:induction false} WhereSame(items: seq<Backup>, k: set<ObjectKey>, l: set<ObjectKey>)
    requires forall b :: b in items ==> (b.key in k <==> b.key in l)
    ensures Where(items, k) == Where(items, l)
  {
    if items != [] {
      assert items[0] in items;
      WhereSame(items[1..], k, l);
    }
  }

  lemma {:induction false} WherePassed(items: seq<Backup>, s: Scan, weekly: int)
    requires DistinctKeys(items)
    ensures Where(items, Keys(Pass(items, s, weekly))) == Pass(items, s, weekly)
  {
    if items != [] {
      var rest, h := items[1..], items[0];
      var picked, all := Pass(rest, After(h, s, weekly), weekly), Pass(items, s, weekly);
      WherePassed(rest, After(h, s, weekly), weekly);
      PassTakesFrom(rest, After(h, s, weekly), weekly);
      assert forall b :: b in rest ==> b.key != h.key by { assert forall i :: 0 <= i < |rest| ==> rest[i] == items[i + 1]; }
      assert Picks(h, s, weekly) ==> all[0] == h && h in all;
      assert forall b :: b in picked ==> b in all;
      WhereSame(rest, Keys(picked), Keys(all));
    }
  }

  lemma Ordered(items: seq<Backup>)
    requires NewestFirst(items)
    ensures From(items, NO_DAY)
    ensures items != [] ==> From(items[1..], items[0].Day())
  {
    forall i | 0 <= i < |items| ensures items[i].Day() <= NO_DAY { InstantDay(items[i]); }
    if items != [] { FromRest(items, NO_DAY); }
  }

  /** In a list sorted newest first, the two loops keep exactly what one pass picks. */
  lemma KeptInOnePass(items: seq<Backup>, r: Retention)
    requires r.Valid() && NewestFirst(items) && DistinctKeys(items)
    ensures Kept(items, r) == Pass(items, Start(r), r.weekly)
    ensures Kept(items, r) == Daily(items, r) + Weekly(items, r)
  {
    hide FirstOfDays, FirstOfWeeks, NewestFirst, From, DistinctKeys, Where, Pass;
    Ordered(items);
    DaysThenWeeks(items, {}, Start(r), r.daily, r.weekly);
    WherePassed(items, Start(r), r.weekly);
    var days, weeks := Daily(items, r), Weekly(items, r);
    SomeDay(items, r);
    assert Keys(days) + Keys(weeks) == Keys(days + weeks);
  }

  lemma SomeDay(items: seq<Backup>, r: Retention)
    requires r.Valid()
    ensures Daily(items, r) == [] ==> items == []
    ensures items == [] ==> FirstOfWeeks(items, NO_DAY, {}, r.weekly) == []
  {
    if items != [] {
      assert items[0].Day() !in {};
    }
  }

  // ---- Pruning a pruned list ----

  /** Scan `t` has come further than scan `s` over the same list: equal, one day ahead, or among the weeks
      with the oldest day of `s` already represented. */
  predicate Ahead(s: Scan, t: Scan, weekly: int) {
    || s == t
    || (s.weeks == t.weeks == {} && s.left == t.left + 1 && (s.oldest == t.oldest || s.oldest == NO_DAY))
    || (s.left == t.left == 0 && s.oldest < t.oldest
        && (|t.weeks| >= weekly || (s.weeks <= t.weeks && KeyOfDay(s.oldest) in t.weeks)))
  }

  function KeyOfDay(day: int): Text {
    if day < FIRST_DAY then [] else WeekKey(day)
  }

  lemma SubsetIsSmaller<T>(a: set<T>, b: set<T>)
    requires a <= b
    ensures |a| <= |b|
  {
    assert b == a + (b - a);
  }

  lemma AheadStays(b: Backup, s: Scan, t: Scan, weekly: int)
    requires Ahead(s, t, weekly) && b.Day() <= s.oldest && b.Day() <= t.oldest
    ensures Picks(b, t, weekly) ==> Picks(b, s, weekly)
    ensures Ahead(After(b, s, weekly), After(b, t, weekly), weekly)
  {
    hide WeekKey, DayOf;
    InstantDay(b);
    assert b.Week() == KeyOfDay(b.Day());
    if s.weeks <= t.weeks { SubsetIsSmaller(s.weeks, t.weeks); }
    if s.left == 1 && t.left == 0 && Picks(b, s, weekly) && b.Day() != t.oldest {
      assert weekly <= 0 || b.Week() in After(b, t, weekly).weeks;
    }
  }

  /** What the scan behind has dropped, the scan ahead would have dropped too. */
  lemma {:induction false} PassOfPass(items: seq<Backup>, s: Scan, t: Scan, weekly: int)
    requires Ahead(s, t, weekly) && From(items, s.oldest) && From(items, t.oldest)
    ensures Pass(Pass(items, s, weekly), t, weekly) == Pass(items, t, weekly)
  {
    hide Ahead, From, Picks;
    if items != [] {
      var rest, h := items[1..], items[0];
      FromRest(items, s.oldest);
      FromRest(items, t.oldest);
      var u, v := After(h, s, weekly), After(h, t, weekly);
      AheadStays(h, s, t, weekly);
      FromAfter(items, s, weekly);
      FromAfter(items, t, weekly);
      PassOfPass(rest, u, v, weekly);
      var inner := Pass(rest, u, weekly);
      if Picks(h, s, weekly) {
        assert Pass(items, s, weekly) == [h] + inner;
        assert ([h] + inner)[1..] == inner;
      } else {
        assert Pass(items, s, weekly) == inner;
      }
    }
  }

  lemma FromAfter(items: seq<Backup>, s: Scan, weekly: int)
    requires items != [] && From(items, s.oldest)
    ensures From(items[1..], After(items[0], s, weekly).oldest)
  {
    FromRest(items, s.oldest);
  }

  lemma {:induction false} PassKeepsOrder(items: seq<Backup>, s: Scan, weekly: int)
    ensures NewestFirst(items) ==> NewestFirst(Pass(items, s, weekly))
    ensures DistinctKeys(items) ==> DistinctKeys(Pass(items, s, weekly))
  {
    if items != [] {
      var rest := items[1..];
      var picked := Pass(rest, After(items[0], s, weekly), weekly);
      PassKeepsOrder(rest, After(items[0], s, weekly), weekly);
      PassTakesFrom(rest, After(items[0], s, weekly), weekly);
      assert forall b :: b in rest ==> exists i :: 0 < i < |items| && items[i] == b by {
        assert forall i :: 0 <= i < |rest| ==> rest[i] == items[i + 1];
      }
      forall i | 0 <= i < |picked|
        ensures NewestFirst(items) ==> items[0].published >= picked[i].published
        ensures DistinctKeys(items) ==> items[0].key != picked[i].key
      {
        assert picked[i] in rest;
      }
    }
  }

  /** One prune: a sublist in the same order that always holds the newest backup and at most daily + weekly
      of them, and that a second prune leaves alone. */
  lemma KeptShape(items: seq<Backup>, r: Retention)
    requires r.Valid() && NewestFirst(items) && DistinctKeys(items)
    ensures NewestFirst(Kept(items, r)) && DistinctKeys(Kept(items, r))
    ensures items != [] ==> Kept(items, r) != [] && Kept(items, r)[0] == items[0]
    ensures |Kept(items, r)| <= r.daily + r.weekly
    ensures Kept(Kept(items, r), r) == Kept(items, r)
  {
    KeptInOnePass(items, r);
    PassKeepsOrder(items, Start(r), r.weekly);
    KeptInOnePass(Kept(items, r), r);
    Ordered(items);
    PassOfPass(items, Start(r), Start(r), r.weekly);
    PassIsShort(items, Start(r), r.weekly);
    if items != [] {
      InstantDay(items[0]);
    }
  }

  lemma {:induction false} PassIsShort(items: seq<Backup>, s: Scan, weekly: int)
    requires |s.weeks| <= weekly
    ensures |Pass(items, s, weekly)| <= s.left + weekly - |s.weeks|
  {
    if items != [] {
      PassIsShort(items[1..], After(items[0], s, weekly), weekly);
    }
  }

  /** A backup published after all others: pruning before the publish makes no difference to pruning after it. */
  lemma PruneBeforePublish(n: Backup, items: seq<Backup>, r: Retention)
    requires r.Valid() && NewestFirst([n] + items) && DistinctKeys([n] + items)
    ensures NewestFirst([n] + Kept(items, r)) && DistinctKeys([n] + Kept(items, r))
    ensures Kept([n] + Kept(items, r), r) == Kept([n] + items, r)
  {
    hide Ahead, Picks, Kept, From;
    var all := [n] + items;
    assert all[1..] == items;
    OrderOfRest(all);
    KeptInOnePass(items, r);
    var kept := Pass(items, Start(r), r.weekly);
    PassKeepsOrder(items, Start(r), r.weekly);
    PassTakesFrom(items, Start(r), r.weekly);
    ConsKeepsOrder(n, items, kept);
    var pruned := [n] + kept;
    assert pruned[1..] == kept;
    Ordered(items);
    Ordered(all);
    var t := Scan(n.Day(), r.daily - 1, {});
    InstantDay(n);
    assert Ahead(Start(r), t, r.weekly) by { AheadOnceStarted(n, r); }
    PassOfPass(items, Start(r), t, r.weekly);
    assert Picks(n, Start(r), r.weekly) && After(n, Start(r), r.weekly) == t by { AheadOnceStarted(n, r); }
    KeptInOnePass(all, r);
    KeptInOnePass(pruned, r);
  }

  lemma AheadOnceStarted(n: Backup, r: Retention)
    requires r.Valid()
    ensures Picks(n, Start(r), r.weekly) && After(n, Start(r), r.weekly) == Scan(n.Day(), r.daily - 1, {})
    ensures Ahead(Start(r), Scan(n.Day(), r.daily - 1, {}), r.weekly)
  {
    InstantDay(n);
  }

  lemma OrderOfRest(all: seq<Backup>)
    requires all != []
    ensures NewestFirst(all) ==> NewestFirst(all[1..])
    ensures DistinctKeys(all) ==> DistinctKeys(all[1..])
  {
    assert forall i :: 0 <= i < |all| - 1 ==> all[1..][i] == all[i + 1];
  }

  lemma ConsKeepsOrder(n: Backup, items: seq<Backup>, kept: seq<Backup>)
    requires NewestFirst([n] + items) && DistinctKeys([n] + items) && NewestFirst(kept) && DistinctKeys(kept)
    requires forall b :: b in kept ==> b in items
    ensures NewestFirst([n] + kept) && DistinctKeys([n] + kept)
  {
    var all := [n] + items;
    forall b | b in items
      ensures n.published >= b.published && n.key != b.key
    {
      var i :| 0 <= i < |items| && items[i] == b;
      assert all[0] == n && all[i + 1] == b;
    }
    forall i | 0 <= i < |kept|
      ensures n.published >= kept[i].published && n.key != kept[i].key
    {
      assert kept[i] in items;
    }
  }

  // ---- A history of publishes ----

  /** The backups, newest first, after publishing `news` in order and pruning after each. */
  function PruneEach(items: seq<Backup>, news: seq<Backup>, r: Retention): seq<Backup> {
    if news == [] then items
    else Kept([news[|news| - 1]] + PruneEach(items, news[..|news| - 1], r), r)
  }

  function PublishAll(items: seq<Backup>, news: seq<Backup>): seq<Backup> {
    if news == [] then items else [news[|news| - 1]] + PublishAll(items, news[..|news| - 1])
  }

  /** Pruning after every publish keeps what pruning once at the end keeps. */
  lemma {:induction false} PruneEachIsPruneOnce(items: seq<Backup>, news: seq<Backup>, r: Retention)
    requires r.Valid() && NewestFirst(PublishAll(items, news)) && DistinctKeys(PublishAll(items, news))
    ensures news != [] ==> PruneEach(items, news, r) == Kept(PublishAll(items, news), r)
  {
    hide Kept, NewestFirst, DistinctKeys;
    if news != [] {
      var n, before := news[|news| - 1], news[..|news| - 1];
      var all := PublishAll(items, news);
      assert all[1..] == PublishAll(items, before);
      OrderOfRest(all);
      PruneEachIsPruneOnce(items, before, r);
      if before != [] {
        PruneBeforePublish(n, PublishAll(items, before), r);
      }
    }
  }
}
