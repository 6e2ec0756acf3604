/** Backup retention: which of the verified backups a prune keeps. */
module RetentionSpec {
  import opened IsoWeek
  import opened JsonText

  type ObjectKey = string

  /** Milliseconds since 1970, in the years 0 to 9999. */
  type Instant = ms: int | FIRST_DAY <= ms / MS_PER_DAY < YearStart(10000)

  datatype Backup = Backup(key: ObjectKey, published: Instant) {
    function Day(): (d: int)
      ensures FIRST_DAY <= d
    {
      DayOf(published)
    }

    function Week(): Text {
      WeekKey(Day())
    }
  }

  /** `daily` days and `weekly` weeks; the code refuses daily < 1 and weekly < 0. */
  datatype Retention = Retention(daily: int, weekly: int) {
    predicate Valid() {
      daily >= 1 && weekly >= 0
    }
  }

  datatype Plan = Plan(kept: seq<ObjectKey>, delete: seq<ObjectKey>)

  // ---- Newest first ----

  predicate NewestFirst(items: seq<Backup>) {
    forall i, j :: 0 <= i < j < |items| ==> items[i].published >= items[j].published
  }

  function InsertDesc(x: Backup, sorted: seq<Backup>): seq<Backup> {
    if sorted == [] || x.published >= sorted[0].published then [x] + sorted
    else [sorted[0]] + InsertDesc(x, sorted[1..])
  }

  /** A stable sort by descending instant. */
  function SortDesc(items: seq<Backup>): seq<Backup> {
    if items == [] then [] else InsertDesc(items[0], SortDesc(items[1..]))
  }

  // ---- What is kept ----

  function Keys(items: seq<Backup>): set<ObjectKey> {
    set b | b in items :: b.key
  }

  function Where(items: seq<Backup>, keys: set<ObjectKey>): seq<Backup> {
    if items == [] then []
    else if items[0].key in keys then [items[0]] + Where(items[1..], keys)
    else Where(items[1..], keys)
  }

  function KeyList(items: seq<Backup>): seq<ObjectKey> {
    seq(|items|, i requires 0 <= i < |items| => items[i].key)
  }

  /** The first backup of each new day, while fewer than `limit` days have been seen. */
  function FirstOfDays(items: seq<Backup>, seen: set<int>, limit: int): seq<Backup> {
    if items == [] then []
    else if items[0].Day() !in seen && |seen| < limit then
      [items[0]] + FirstOfDays(items[1..], seen + {items[0].Day()}, limit)
    else FirstOfDays(items[1..], seen, limit)
  }

  /** The same by weeks, among the backups of days before `before`. */
  function FirstOfWeeks(items: seq<Backup>, before: int, seen: set<Text>, limit: int): seq<Backup> {
    if items == [] then []
    else if items[0].Day() < before && items[0].Week() !in seen && |seen| < limit then
      [items[0]] + FirstOfWeeks(items[1..], before, seen + {items[0].Week()}, limit)
    else FirstOfWeeks(items[1..], before, seen, limit)
  }

  function Daily(items: seq<Backup>, r: Retention): seq<Backup> {
    FirstOfDays(items, {}, r.daily)
  }

  /** The day of the last of the daily backups: the oldest one in a list sorted newest first. */
  function Weekly(items: seq<Backup>, r: Retention): seq<Backup> {
    var daily := Daily(items, r);
    if daily == [] then [] else FirstOfWeeks(items, daily[|daily| - 1].Day(), {}, r.weekly)
  }

  function Kept(items: seq<Backup>, r: Retention): seq<Backup> {
    Where(items, Keys(Daily(items, r)) + Keys(Weekly(items, r)))
  }

  predicate DistinctKeys(items: seq<Backup>) {
    forall i, j :: 0 <= i < j < |items| ==> items[i].key != items[j].key
  }
}
