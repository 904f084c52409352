/** Backward paging through an exchange's history (internal/collector/poll/backfill.go).
    The exchange is modelled by the list of its record times; a page holds the newest
    `limit` records of [start, end], newest first. */
module PagedBackfill {
  import opened Numeric

  const KLINE_PAGE := 1000
  const FUNDING_PAGE := 200
  const MAX_RETRIES := 3
  /** 1 January 2020, in milliseconds. */
  const FUNDING_CUTOFF := 1577836800000

  ghost predicate Ascending(ts: seq<int>) {
    forall j, k :: 0 <= j < k < |ts| ==> ts[j] < ts[k]
  }

  /** How many records are stamped before `t`. */
  function CountBefore(ts: seq<int>, t: int): (n: nat)
    ensures n <= |ts|
  {
    if ts == [] then 0
    else CountBefore(ts[..|ts| - 1], t) + if ts[|ts| - 1] < t then 1 else 0
  }

  lemma {:induction false} AllBefore(ts: seq<int>, t: int)
    requires forall k :: 0 <= k < |ts| ==> ts[k] < t
    ensures CountBefore(ts, t) == |ts|
  {
    if ts != [] {
      AllBefore(ts[..|ts| - 1], t);
    }
  }

  lemma {:induction false} CountBeforeSplits(ts: seq<int>, t: int)
    requires Ascending(ts)
    ensures forall k :: 0 <= k < |ts| ==> (ts[k] < t <==> k < CountBefore(ts, t))
  {
    if ts != [] {
      var n := |ts| - 1;
      CountBeforeSplits(ts[..n], t);
      if ts[n] < t {
        AllBefore(ts[..n], t);
      }
    }
  }

  lemma CountBeforeElement(ts: seq<int>, at: nat)
    requires Ascending(ts) && at < |ts|
    ensures CountBefore(ts, ts[at]) == at
  {
    CountBeforeSplits(ts, ts[at]);
    if at > 0 {
      assert ts[at - 1] < ts[at];
    }
  }

  /** The records of [start, end], oldest first. */
  function InRange(ts: seq<int>, start: int, end: int): seq<int> {
    var lo, hi := CountBefore(ts, start), CountBefore(ts, end + 1);
    if lo <= hi then ts[lo..hi] else []
  }

  function Reverse(s: seq<int>): (r: seq<int>)
    ensures |r| == |s|
    ensures forall k :: 0 <= k < |s| ==> r[k] == s[|s| - 1 - k]
  {
    seq(|s|, k requires 0 <= k < |s| => s[|s| - 1 - k])
  }

  /** The page as the exchange returns it. */
  function Page(ts: seq<int>, start: int, end: int, limit: nat): seq<int> {
    var all := InRange(ts, start, end);
    Reverse(if |all| <= limit then all else all[|all| - limit..])
  }

  /** How one request ends. */
  datatype Attempt = Served | RateLimited | Failed

  datatype Outcome = Complete(total: nat) | Aborted

  /** The first of the tries that decides the page: three at most. */
  method FetchWithRetries(tries: nat -> Attempt) returns (served: bool)
    ensures served <==>
              exists a: nat ::
                a < 3 && tries(a) == Served && forall b: nat :: b < a ==> tries(b) == RateLimited
    ensures tries(0) == Served ==> served
  {
    for a := 0 to MAX_RETRIES
      invariant forall b: nat :: b < a ==> tries(b) == RateLimited
    {
      match tries(a) {
        case Served =>
          return true;
        case Failed =>
          return false;
        case RateLimited =>
      }
    }
    return false;
  }

  /** Sorting a newest-first page oldest first, as the caller does before storing it. */
  method SortPage(page: seq<int>) returns (sorted: seq<int>)
    ensures sorted == Reverse(page)
  {
    sorted := Reverse(page);
  }

  lemma Bounds(ts: seq<int>, start: int, end: int)
    requires Ascending(ts)
    ensures forall k :: 0 <= k < |ts| ==> (ts[k] in InRange(ts, start, end) <==> start <= ts[k] <= end)
    ensures Ascending(InRange(ts, start, end))
    ensures forall t :: t in InRange(ts, start, end) ==> t in ts && start <= t <= end
  {
    CountBeforeSplits(ts, start);
    CountBeforeSplits(ts, end + 1);
    var lo, hi := CountBefore(ts, start), CountBefore(ts, end + 1);
    forall k | 0 <= k < |ts|
      ensures ts[k] in InRange(ts, start, end) <==> start <= ts[k] <= end
    {
      if start <= ts[k] <= end {
        assert lo <= k < hi;
        assert ts[lo..hi][k - lo] == ts[k];
      }
    }
  }

  /** Stepping the cursor below a full page's oldest record splits the range there. */
  lemma PageSplitsRange(ts: seq<int>, start: int, end: int, limit: nat)
    requires Ascending(ts) && 0 < limit <= |InRange(ts, start, end)|
    ensures var page := Page(ts, start, end, limit);
            var oldest := page[|page| - 1];
            && |page| == limit && start <= oldest <= end
            && Reverse(page) == InRange(ts, oldest, end)
            && InRange(ts, start, end) == InRange(ts, start, oldest - 1) + Reverse(page)
  {
    hide CountBefore;
    var all := InRange(ts, start, end);
    var page := Page(ts, start, end, limit);
    var oldest := page[|page| - 1];
    var lo, hi := CountBefore(ts, start), CountBefore(ts, end + 1);
    CountBeforeSplits(ts, start);
    CountBeforeSplits(ts, end + 1);
    var at := hi - limit;
    assert oldest == all[|all| - limit] == ts[at];
    CountBeforeElement(ts, at);
    assert Reverse(page) == ts[at..hi];
    assert all == ts[lo..at] + ts[at..hi];
  }

  lemma {:induction false} CountBeforeGrows(ts: seq<int>, a: int, b: int)
    requires a <= b
    ensures CountBefore(ts, a) <= CountBefore(ts, b)
  {
    if ts != [] {
      CountBeforeGrows(ts[..|ts| - 1], a, b);
    }
  }

  lemma JoinRanges(ts: seq<int>, a: int, b: int, c: int)
    requires Ascending(ts) && a <= b + 1 <= c + 1
    ensures InRange(ts, a, b) + InRange(ts, b + 1, c) == InRange(ts, a, c)
  {
    CountBeforeSplits(ts, a);
    CountBeforeSplits(ts, b + 1);
    CountBeforeSplits(ts, c + 1);
    var x, y, z := CountBefore(ts, a), CountBefore(ts, b + 1), CountBefore(ts, c + 1);
    CountBeforeGrows(ts, a, b + 1);
    CountBeforeGrows(ts, b + 1, c + 1);
  }

  /** Newer pages are stored first; together they stay one contiguous newest block. */
  lemma PageExtendsStored(ts: seq<int>, start: int, end: int, last: int, limit: nat, stored: seq<int>)
    requires Ascending(ts) && start <= end <= last && 0 < limit <= |InRange(ts, start, end)|
    requires stored == InRange(ts, end + 1, last)
    ensures var page := Page(ts, start, end, limit);
            Reverse(page) + stored == InRange(ts, page[|page| - 1], last)
  {
    var page := Page(ts, start, end, limit);
    var oldest := page[|page| - 1];
    PageSplitsRange(ts, start, end, limit);
    JoinRanges(ts, oldest, end, last);
  }

  // ---- The record at the very start ----

  /** Paging stops as soon as the cursor reaches the start. So the record stamped exactly there
      is missed when the last full page ends one millisecond above it. */
  ghost predicate MissesStart(ts: seq<int>, start: int, end: int, limit: nat)
    requires limit > 0
  {
    start < end && start in ts && start + 1 in ts && |InRange(ts, start + 1, end)| % limit == 0
  }

  lemma StartAlone(ts: seq<int>, start: int)
    requires Ascending(ts)
    ensures InRange(ts, start, start) == if start in ts then [start] else []
  {
    CountBeforeSplits(ts, start);
    CountBeforeSplits(ts, start + 1);
    var lo, hi := CountBefore(ts, start), CountBefore(ts, start + 1);
    CountBeforeGrows(ts, start, start + 1);
    assert lo + 1 < |ts| ==> ts[lo] < ts[lo + 1];
  }

  lemma MultipleAway(gap: int, limit: nat)
    ensures gap >= 1 ==> gap * limit >= limit
    ensures gap <= -1 ==> gap * limit + limit <= 0
  {
    if gap >= 1 {
      assert (gap - 1) * limit >= 0;
    } else if gap <= -1 {
      assert (-1 - gap) * limit >= 0;
    }
  }

  lemma GapTimes(a: int, b: int, c: int)
    ensures (a - b) * c == a * c - b * c
  {
  }

  lemma SmallMultiple(small: nat, rest: nat, limit: nat)
    requires small < limit && rest % limit == 0 && (small + rest) % limit == 0
    ensures small == 0
  {
    var gap := (small + rest) / limit - rest / limit;
    GapTimes((small + rest) / limit, rest / limit, limit);
    assert gap * limit == small;
    MultipleAway(gap, limit);
  }

  /** A short page holds the start, and rules out that it was missed. */
  lemma ShortPageReachesStart(ts: seq<int>, start: int, cursor: int, end: int, limit: nat)
    requires Ascending(ts) && cursor <= end && (start < cursor || end <= start)
    requires |InRange(ts, start, cursor)| < limit && |InRange(ts, cursor + 1, end)| % limit == 0
    ensures !MissesStart(ts, start, end, limit)
  {
    hide InRange, Ascending;
    if MissesStart(ts, start, end, limit) {
      JoinRanges(ts, start + 1, cursor, end);
      JoinRanges(ts, start, start, cursor);
      StartAlone(ts, start);
      Bounds(ts, start + 1, cursor);
      SmallMultiple(|InRange(ts, start + 1, cursor)|, |InRange(ts, cursor + 1, end)|, limit);
      assert false;
    }
  }

  /** When the last page was full, the range is complete unless the start was missed. */
  lemma FullPageAtStart(ts: seq<int>, start: int, low: int, end: int, limit: nat)
    requires Ascending(ts) && limit > 1 && start <= low <= start + 1 && low <= end
    requires low in ts && |InRange(ts, low, end)| % limit == 0
    ensures InRange(ts, start, end)
            == (if MissesStart(ts, start, end, limit) then [start] else []) + InRange(ts, low, end)
  {
    hide InRange, Ascending;
    JoinRanges(ts, start, start, end);
    StartAlone(ts, start);
    if low == start {
      assert |InRange(ts, start, end)| == 1 + |InRange(ts, start + 1, end)|;
      if MissesStart(ts, start, end, limit) {
        SmallMultiple(1, |InRange(ts, start + 1, end)|, limit);
        assert false;
      }
    }
  }

  lemma UpToTheLast(ts: seq<int>, at: nat, end: int)
    requires Ascending(ts) && at < |ts| && ts[|ts| - 1] <= end
    ensures |InRange(ts, ts[at], end)| == |ts| - at
  {
    hide CountBefore;
    CountBeforeElement(ts, at);
    AllBefore(ts, end + 1);
  }

  lemma SelfDivides(limit: nat)
    requires limit >= 1
    ensures limit % limit == 0
  {
  }

  /** It does happen: with records at every millisecond from 0 to one page. */
  lemma StartCanBeMissed(ts: seq<int>, limit: nat)
    requires limit >= 1 && |ts| == limit + 1 && forall k :: 0 <= k < |ts| ==> ts[k] == k
    ensures Ascending(ts) && MissesStart(ts, 0, limit, limit)
  {
    hide InRange;
    UpToTheLast(ts, 1, limit);
    assert ts[0] == 0 && ts[1] == 1;
    SelfDivides(limit);
  }

  lemma EmptyRange(ts: seq<int>, low: int, end: int)
    requires low > end
    ensures InRange(ts, low, end) == []
  {
    CountBeforeGrows(ts, end + 1, low);
  }

  /** A page is short exactly when it holds the whole range. */
  lemma PageLength(ts: seq<int>, start: int, end: int, limit: nat)
    ensures |Page(ts, start, end, limit)| == MinInt(limit, |InRange(ts, start, end)|)
    ensures |Page(ts, start, end, limit)| < limit ==> Reverse(Page(ts, start, end, limit)) == InRange(ts, start, end)
  {
    if |Page(ts, start, end, limit)| < limit {
      assert Reverse(Reverse(InRange(ts, start, end))) == InRange(ts, start, end);
    }
  }

  lemma OldestInTable(ts: seq<int>, start: int, end: int, limit: nat)
    requires Ascending(ts) && 0 < limit <= |InRange(ts, start, end)|
    ensures |Page(ts, start, end, limit)| == limit && Page(ts, start, end, limit)[limit - 1] in ts
  {
    Bounds(ts, start, end);
  }

  /** The records of a range are those of the table stamped in it, in time order. */
  lemma Contents(ts: seq<int>, start: int, end: int)
    requires Ascending(ts)
    ensures Ascending(InRange(ts, start, end))
    ensures forall t :: t in InRange(ts, start, end) <==> t in ts && start <= t <= end
  {
    hide InRange;
    Bounds(ts, start, end);
    forall t | t in ts && start <= t <= end
      ensures t in InRange(ts, start, end)
    {
      var k :| 0 <= k < |ts| && ts[k] == t;
    }
  }

  /** Candle paging. A completed run stores every candle of (start, end] exactly once, and
      the one at the start, if any, unless the paging misses it; a fetch or an insert that
      fails ends the run, which leaves a contiguous newest block. The cursor strictly
      decreases. `stored` is in time order. */
  method BackfillSymbol(ts: seq<int>, start: int, end: int, tries: (nat, nat) -> Attempt, inserts: nat -> bool)
    returns (r: Outcome, stored: seq<int>)
    requires Ascending(ts)
    ensures exists low: int :: start <= low && stored == InRange(ts, low, end)
    ensures r.Complete? && start >= end ==> stored == []
    ensures r.Complete? && start < end ==>
              InRange(ts, start, end) == (if MissesStart(ts, start, end, 1000) then [start] else []) + stored
    ensures Ascending(stored) && forall t :: t in stored ==> t in ts && start <= t <= end
    ensures r.Complete? ==> forall t :: t in ts && start < t <= end ==> t in stored
    ensures r.Complete? ==> r.total == |stored|
    ensures (forall page: nat :: tries(page, 0) == Served && inserts(page)) ==> r.Complete?
  {
    hide InRange, Page, Reverse, Ascending, MissesStart;
    stored := [];
    var cursor, total := end, 0;
    ghost var low, short := MaxInt(start, end + 1), false;
    EmptyRange(ts, low, end);
    var pages: nat := 0;
    while cursor > start
      invariant cursor <= end && start <= low
      invariant low == MaxInt(start, cursor + 1)
      invariant low <= end ==> low in ts
      invariant start >= end ==> stored == []
      invariant stored == InRange(ts, low, end) && total == |stored|
      invariant !short && |stored| % KLINE_PAGE == 0
      decreases cursor - start
    {
      var p := pages;
      var served := FetchWithRetries((a: nat) => tries(p, a));
      if !served {
        assert tries(p, 0) != Served;
        Contents(ts, low, end);
        return Aborted, stored;
      }
      pages := pages + 1;
      var page := Page(ts, start, cursor, KLINE_PAGE);
      PageLength(ts, start, cursor, KLINE_PAGE);
      if |page| == 0 {
        JoinRanges(ts, start, cursor, end);
        ShortPageReachesStart(ts, start, cursor, end, KLINE_PAGE);
        low, short := start, true;
        break;
      }
      var candles := SortPage(page);
      if !inserts(p) {
        Contents(ts, low, end);
        return Aborted, stored;
      }
      var before := stored;
      stored := candles + stored;
      total := total + |candles|;
      if |candles| < KLINE_PAGE {
        JoinRanges(ts, start, cursor, end);
        ShortPageReachesStart(ts, start, cursor, end, KLINE_PAGE);
        low, short := start, true;
        break;
      }
      PageSplitsRange(ts, start, cursor, KLINE_PAGE);
      PageExtendsStored(ts, start, cursor, end, KLINE_PAGE, before);
      OldestInTable(ts, start, cursor, KLINE_PAGE);
      low := candles[0];
      cursor := candles[0] - 1;
    }
    if start < end && !short {
      FullPageAtStart(ts, start, low, end, KLINE_PAGE);
    }
    assert stored == InRange(ts, low, end);
    Contents(ts, low, end);
    Contents(ts, start, end);
    r := Complete(total);
  }

  function Recent(s: seq<int>): seq<int> {
    if s == [] then []
    else Recent(s[..|s| - 1]) + if s[|s| - 1] < FUNDING_CUTOFF then [] else [s[|s| - 1]]
  }

  lemma {:induction false} RecentConcat(a: seq<int>, b: seq<int>)
    ensures Recent(a + b) == Recent(a) + Recent(b)
  {
    if b == [] {
      assert a + b == a;
    } else {
      RecentConcat(a, b[..|b| - 1]);
      assert (a + b)[..|a + b| - 1] == a + b[..|b| - 1];
    }
  }

  lemma RecentOne(t: int)
    ensures Recent([t]) == if t < FUNDING_CUTOFF then [] else [t]
  {
    assert Recent([t][..0]) == [];
  }

  lemma ReverseGrows(page: seq<int>, k: nat)
    requires k < |page|
    ensures Reverse(page[..k + 1]) == [page[k]] + Reverse(page[..k])
  {
  }

  /** The records whose insert succeeds. */
  function Kept(s: seq<int>, inserts: int -> bool): seq<int> {
    if s == [] then []
    else Kept(s[..|s| - 1], inserts) + if inserts(s[|s| - 1]) then [s[|s| - 1]] else []
  }

  lemma {:induction false} KeptConcat(a: seq<int>, b: seq<int>, inserts: int -> bool)
    ensures Kept(a + b, inserts) == Kept(a, inserts) + Kept(b, inserts)
  {
    if b == [] {
      assert a + b == a;
    } else {
      KeptConcat(a, b[..|b| - 1], inserts);
      assert (a + b)[..|a + b| - 1] == a + b[..|b| - 1];
    }
  }

  lemma KeptOne(t: int, inserts: int -> bool)
    ensures Kept([t], inserts) == if inserts(t) then [t] else []
    ensures Kept([], inserts) == []
  {
    assert Kept([t][..0], inserts) == [];
  }

  /** When no insert fails, nothing is lost. */
  lemma {:induction false} AllKept(s: seq<int>, inserts: int -> bool)
    requires forall k :: 0 <= k < |s| ==> inserts(s[k])
    ensures Kept(s, inserts) == s
  {
    if s == [] {
      assert Kept(s, inserts) == [];
    } else {
      var n := |s| - 1;
      AllKept(s[..n], inserts);
      assert inserts(s[n]);
      assert Kept(s, inserts) == s[..n] + [s[n]];
    }
  }

  lemma NothingRecent()
    ensures Reverse([]) == [] && Recent([]) == []
  {
  }

  lemma KeptStep(page: seq<int>, k: nat, inserts: int -> bool)
    requires k < |page|
    ensures var t, before, now := page[k], Recent(Reverse(page[..k])), Recent(Reverse(page[..k + 1]));
            && now == (if t < FUNDING_CUTOFF then [] else [t]) + before
            && Kept(now, inserts) == (if t < FUNDING_CUTOFF || !inserts(t) then [] else [t]) + Kept(before, inserts)
  {
    hide Recent, Reverse, Kept;
    var t, before := page[k], Recent(Reverse(page[..k]));
    ReverseGrows(page, k);
    RecentConcat([t], Reverse(page[..k]));
    RecentOne(t);
    KeptConcat(if t < FUNDING_CUTOFF then [] else [t], before, inserts);
    KeptOne(t, inserts);
  }

  /** The inner loop over one page, newest first, skipping what is older than 2020. An insert
      that fails is logged and counted all the same. */
  method StorePage(page: seq<int>, stored: seq<int>, inserts: int -> bool) returns (after: seq<int>, count: nat)
    ensures after == Kept(Recent(Reverse(page)), inserts) + stored
    ensures count == |Recent(Reverse(page))|
  {
    hide Recent, Reverse, Kept;
    after, count := stored, 0;
    NothingRecent();
    KeptOne(0, inserts);
    for k := 0 to |page|
      invariant after == Kept(Recent(Reverse(page[..k])), inserts) + stored
      invariant count == |Recent(Reverse(page[..k]))|
    {
      KeptStep(page, k, inserts);
      if page[k] >= FUNDING_CUTOFF {
        if inserts(page[k]) {
          after := [page[k]] + after;
        }
        count := count + 1;
      }
    }
    assert page[..|page|] == page;
  }

  /** An empty rest of the range changes nothing. */
  lemma CoverEmptyRest(ts: seq<int>, start: int, cursor: int, end: int)
    requires Ascending(ts) && cursor <= end && InRange(ts, start, cursor) == []
    ensures InRange(ts, MaxInt(start, cursor + 1), end) == InRange(ts, start, end)
  {
    hide InRange;
    if start <= cursor {
      JoinRanges(ts, start, cursor, end);
    }
  }

  lemma NonEmptyRange(ts: seq<int>, start: int, end: int)
    requires InRange(ts, start, end) != []
    ensures start <= end
  {
    if start > end {
      EmptyRange(ts, start, end);
      assert false;
    }
  }

  lemma AppendAscends(s: seq<int>, last: int)
    requires Ascending(s) && forall t :: t in s ==> t < last
    ensures Ascending(s + [last]) && s + [] == s
  {
    forall k | 0 <= k < |s|
      ensures s[k] < last
    {
      assert s[k] in s;
    }
  }

  lemma {:induction false} RecentMeans(s: seq<int>)
    requires Ascending(s)
    ensures Ascending(Recent(s)) && forall t :: t in Recent(s) <==> t in s && t >= 1577836800000
  {
    if s != [] {
      var n := |s| - 1;
      RecentMeans(s[..n]);
      assert forall k :: 0 <= k < n ==> s[k] < s[n];
      AppendAscends(Recent(s[..n]), s[n]);
      assert forall t :: t in s <==> t in s[..n] || t == s[n];
    }
  }

  lemma {:induction false} KeptMeans(s: seq<int>, inserts: int -> bool)
    requires Ascending(s)
    ensures Ascending(Kept(s, inserts)) && forall t :: t in Kept(s, inserts) <==> t in s && inserts(t)
  {
    if s != [] {
      var n := |s| - 1;
      KeptMeans(s[..n], inserts);
      assert forall k :: 0 <= k < n ==> s[k] < s[n];
      AppendAscends(Kept(s[..n], inserts), s[n]);
      assert forall t :: t in s <==> t in s[..n] || t == s[n];
    }
  }

  lemma KeptContents(ts: seq<int>, start: int, end: int, inserts: int -> bool)
    requires Ascending(ts)
    ensures var stored := Kept(Recent(InRange(ts, start, end)), inserts);
            && Ascending(stored)
            && forall t :: t in stored <==> t in ts && start <= t <= end && t >= 1577836800000 && inserts(t)
  {
    hide InRange, Recent, Kept, Ascending;
    Contents(ts, start, end);
    RecentMeans(InRange(ts, start, end));
    KeptMeans(Recent(InRange(ts, start, end)), inserts);
  }

  /** Funding paging: every record of (start, end] not older than 2020 is inserted exactly once,
      and the one at the start, unless the paging misses it; a fetch that fails leaves a newest
      block of them. The total counts the attempts, so it is the number of records stored only
      if no insert fails. */
  method BackfillFundingRates(ts: seq<int>, start: int, end: int, serves: nat -> bool, inserts: int -> bool)
    returns (r: Outcome, stored: seq<int>)
    requires Ascending(ts)
    ensures exists low: int :: start <= low && stored == Kept(Recent(InRange(ts, low, end)), inserts)
    ensures r.Complete? ==>
              Kept(Recent(InRange(ts, start, end)), inserts)
              == (if MissesStart(ts, start, end, 200) then Kept(Recent([start]), inserts) else []) + stored
    ensures Ascending(stored)
    ensures forall t :: t in stored ==> t in ts && start <= t <= end && t >= 1577836800000 && inserts(t)
    ensures r.Complete? ==>
              forall t :: t in ts && start < t <= end && t >= 1577836800000 && inserts(t) ==> t in stored
    ensures r.Complete? ==>
              |Recent(InRange(ts, start, end))|
              == (if MissesStart(ts, start, end, 200) then |Recent([start])| else 0) + r.total
    ensures (forall page: nat :: serves(page)) ==> r.Complete?
  {
    hide InRange, Page, Recent, Reverse, Ascending, MissesStart, Kept;
    stored := [];
    var cursor, total := end, 0;
    var pages: nat := 0;
    ghost var low, short := MaxInt(start, end + 1), false;
    EmptyRange(ts, low, end);
    EmptyRange(ts, end + 1, end);
    NothingRecent();
    KeptOne(0, inserts);
    while true
      invariant cursor <= end && low == MaxInt(start, cursor + 1)
      invariant start < cursor || end == cursor <= start
      invariant !short && |InRange(ts, low, end)| % FUNDING_PAGE == 0
      invariant stored == Kept(Recent(InRange(ts, low, end)), inserts) && total == |Recent(InRange(ts, low, end))|
      decreases cursor - start
    {
      if !serves(pages) {
        KeptContents(ts, low, end, inserts);
        return Aborted, stored;
      }
      pages := pages + 1;
      var page := Page(ts, start, cursor, FUNDING_PAGE);
      PageLength(ts, start, cursor, FUNDING_PAGE);
      if |page| == 0 {
        CoverEmptyRest(ts, start, cursor, end);
        ShortPageReachesStart(ts, start, cursor, end, FUNDING_PAGE);
        low, short := start, true;
        break;
      }
      NonEmptyRange(ts, start, cursor);
      var count;
      RecentConcat(Reverse(page), InRange(ts, low, end));
      KeptConcat(Recent(Reverse(page)), Recent(InRange(ts, low, end)), inserts);
      stored, count := StorePage(page, stored, inserts);
      total := total + count;
      if |page| < FUNDING_PAGE {
        JoinRanges(ts, start, cursor, end);
        ShortPageReachesStart(ts, start, cursor, end, FUNDING_PAGE);
        low, short := start, true;
        break;
      }
      PageExtendsStored(ts, start, cursor, end, FUNDING_PAGE, InRange(ts, cursor + 1, end));
      PageSplitsRange(ts, start, cursor, FUNDING_PAGE);
      OldestInTable(ts, start, cursor, FUNDING_PAGE);
      low := page[|page| - 1];
      cursor := page[|page| - 1] - 1;
      if cursor <= start {
        break;
      }
    }
    if !short {
      FullPageAtStart(ts, start, low, end, FUNDING_PAGE);
      RecentConcat([start], InRange(ts, low, end));
      KeptConcat(Recent([start]), Recent(InRange(ts, low, end)), inserts);
      assert [] + InRange(ts, low, end) == InRange(ts, low, end);
    }
    KeptContents(ts, low, end, inserts);
    r := Complete(total);
  }
}
