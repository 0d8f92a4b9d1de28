/**
 * The admin dashboard: the analytics (accepted bookings per month over the
 * last six months, and the five most booked packages), the merged
 * notification feed, the quick approve/reject of a pending request, the CSV
 * export and the "send notification" guard.
 *
 * Months are month indices 0..11: the source keys its monthly map by the
 * short month name, which carries no year.
 */
module Dashboard {
  import opened Common

  /** A row of `select("id, date, status, bookings_package_id_fkey(name)")`. */
  datatype AnalyticsRow = AnalyticsRow(status: string, month: int, packageName: Option<string>)

  const Accepted: string := "accepted"

  // ---------------------------------------------------------------------------
  // Monthly bookings

  /** The month `5 - k` months before the current one: k = 0 is the oldest, k = 5 the current month. */
  function WindowMonth(today: int, k: int): int {
    (today - 5 + k) % 12
  }

  lemma WindowMonthsDistinct(today: int)
    ensures forall k1, k2 :: 0 <= k1 < k2 < 6 ==> WindowMonth(today, k1) != WindowMonth(today, k2)
  {
    forall k1, k2 | 0 <= k1 < k2 < 6 ensures WindowMonth(today, k1) != WindowMonth(today, k2) {
      var a := today - 5 + k1;
      var b := today - 5 + k2;
      assert a % 12 == a - 12 * (a / 12) && b % 12 == b - 12 * (b / 12);
    }
  }

  function AcceptedIn(m: int): AnalyticsRow -> bool {
    (r: AnalyticsRow) => r.status == Accepted && r.month == m
  }

  function IsAccepted(r: AnalyticsRow): bool {
    r.status == Accepted
  }

  /** The number of accepted bookings dated in month `m`. */
  function CountAcceptedIn(rows: seq<AnalyticsRow>, m: int): nat {
    CountWhere(rows, AcceptedIn(m))
  }

  datatype MonthCount = MonthCount(month: int, count: nat)

  /**
   * The monthly part of `fetchAnalytics`: six months set to 0, oldest first,
   * then one increment per accepted booking whose month is among them.
   */
  method MonthlyBookings(today: int, rows: seq<AnalyticsRow>) returns (monthly: seq<MonthCount>)
    ensures |monthly| == 6
    ensures forall k :: 0 <= k < 6 ==>
      monthly[k] == MonthCount(WindowMonth(today, k), CountAcceptedIn(rows, WindowMonth(today, k)))
  {
    var monthsMap, keys := ZeroMonths(today);
    monthsMap := CountMonths(rows, monthsMap);
    monthly := seq(|keys|, k requires 0 <= k < |keys| => MonthCount(keys[k], monthsMap[keys[k]]));
  }

  /**
   * The first loop of the monthly part: each of the six months, oldest
   * first, set to 0. `keys` is the map's insertion order, which
   * `Object.entries` follows.
   */
  method ZeroMonths(today: int) returns (monthsMap: map<int, nat>, keys: seq<int>)
    ensures |keys| == 6 && forall k :: 0 <= k < 6 ==> keys[k] == WindowMonth(today, k)
    ensures monthsMap.Keys == set k | 0 <= k < |keys| :: keys[k]
    ensures forall m :: m in monthsMap ==> monthsMap[m] == 0
  {
    WindowMonthsDistinct(today);
    monthsMap := map[];
    keys := [];
    var i := 5;
    while i >= 0
      invariant -1 <= i <= 5
      invariant |keys| == 5 - i
      invariant forall k :: 0 <= k < |keys| ==> keys[k] == WindowMonth(today, k)
      invariant monthsMap.Keys == set k | 0 <= k < |keys| :: keys[k]
      invariant forall m :: m in monthsMap ==> monthsMap[m] == 0
    {
      var m := (today - i) % 12;
      assert m == WindowMonth(today, 5 - i);
      if m !in monthsMap {
        keys := keys + [m];
      }
      monthsMap := monthsMap[m := 0];
      i := i - 1;
    }
  }

  /** The second loop: one increment per accepted booking whose month is a key of the map. */
  method CountMonths(rows: seq<AnalyticsRow>, zeroed: map<int, nat>) returns (monthsMap: map<int, nat>)
    requires forall m :: m in zeroed ==> zeroed[m] == 0
    ensures monthsMap.Keys == zeroed.Keys
    ensures forall m :: m in monthsMap ==> monthsMap[m] == CountAcceptedIn(rows, m)
  {
    monthsMap := zeroed;
    var j := 0;
    while j < |rows|
      invariant 0 <= j <= |rows|
      invariant monthsMap.Keys == zeroed.Keys
      invariant forall m :: m in monthsMap ==> monthsMap[m] == CountAcceptedIn(rows[..j], m)
    {
      var b := rows[j];
      assert rows[..j + 1] == rows[..j] + [b];
      CountMonthsStep(rows[..j], b, monthsMap);
      if b.status == Accepted && b.month in monthsMap {
        monthsMap := monthsMap[b.month := monthsMap[b.month] + 1];
      }
      j := j + 1;
    }
    assert rows[..j] == rows;
  }

  /** One more booking adds one to its month's count when it is accepted and its month is tracked. */
  lemma CountMonthsStep(front: seq<AnalyticsRow>, b: AnalyticsRow, counts: map<int, nat>)
    requires forall m :: m in counts ==> counts[m] == CountAcceptedIn(front, m)
    ensures var next := if b.status == Accepted && b.month in counts then counts[b.month := counts[b.month] + 1] else counts;
      forall m :: m in next ==> next[m] == CountAcceptedIn(front + [b], m)
  {
    forall m | m in counts
      ensures CountAcceptedIn(front + [b], m) == counts[m] + (if b.status == Accepted && b.month == m then 1 else 0)
    {
      CountWhereAppend(front, b, AcceptedIn(m));
    }
  }

  /** The sum of the counts of the months `ms`. */
  function SumCounts(rows: seq<AnalyticsRow>, ms: seq<int>): nat {
    if ms == [] then 0 else CountAcceptedIn(rows, ms[0]) + SumCounts(rows, ms[1..])
  }

  lemma {:induction false} SumCountsAppendRow(rows: seq<AnalyticsRow>, x: AnalyticsRow, ms: seq<int>)
    requires forall i, j :: 0 <= i < j < |ms| ==> ms[i] != ms[j]
    ensures SumCounts(rows + [x], ms) == SumCounts(rows, ms) + (if IsAccepted(x) && x.month in ms then 1 else 0)
  {
    if ms != [] {
      CountWhereAppend(rows, x, AcceptedIn(ms[0]));
      SumCountsAppendRow(rows, x, ms[1..]);
      if x.month == ms[0] {
        assert x.month !in ms[1..];
      }
    }
  }

  /** Over distinct months, the counts add up to at most the number of accepted bookings. */
  lemma {:induction false} SumCountsBounded(rows: seq<AnalyticsRow>, ms: seq<int>)
    requires forall i, j :: 0 <= i < j < |ms| ==> ms[i] != ms[j]
    ensures SumCounts(rows, ms) <= CountWhere(rows, IsAccepted)
  {
    if rows == [] {
      SumCountsEmpty(ms);
    } else {
      var front := rows[..|rows| - 1];
      var x := rows[|rows| - 1];
      assert rows == front + [x];
      SumCountsBounded(front, ms);
      SumCountsAppendRow(front, x, ms);
      CountWhereAppend(front, x, IsAccepted);
    }
  }

  lemma {:induction false} SumCountsEmpty(ms: seq<int>)
    ensures SumCounts([], ms) == 0
  {
    if ms != [] {
      SumCountsEmpty(ms[1..]);
    }
  }

  function Months(monthly: seq<MonthCount>): seq<int> {
    seq(|monthly|, k requires 0 <= k < |monthly| => monthly[k].month)
  }

  function TotalCount(monthly: seq<MonthCount>): nat {
    if monthly == [] then 0 else monthly[0].count + TotalCount(monthly[1..])
  }

  lemma {:induction false} TotalIsSumCounts(rows: seq<AnalyticsRow>, monthly: seq<MonthCount>)
    requires forall k :: 0 <= k < |monthly| ==> monthly[k].count == CountAcceptedIn(rows, monthly[k].month)
    ensures TotalCount(monthly) == SumCounts(rows, Months(monthly))
  {
    if monthly != [] {
      TotalIsSumCounts(rows, monthly[1..]);
      assert Months(monthly)[1..] == Months(monthly[1..]);
    }
  }

  /**
   * The chart shows six distinct months, current month last, and its bars
   * add up to at most the number of accepted bookings (those outside the
   * window are dropped).
   */
  lemma MonthlyChartSpec(today: int, rows: seq<AnalyticsRow>, monthly: seq<MonthCount>)
    requires |monthly| == 6
    requires forall k :: 0 <= k < 6 ==>
      monthly[k] == MonthCount(WindowMonth(today, k), CountAcceptedIn(rows, WindowMonth(today, k)))
    ensures forall k1, k2 :: 0 <= k1 < k2 < 6 ==> monthly[k1].month != monthly[k2].month
    ensures monthly[5].month == today % 12
    ensures TotalCount(monthly) <= CountWhere(rows, IsAccepted)
  {
    WindowMonthsDistinct(today);
    TotalIsSumCounts(rows, monthly);
    SumCountsBounded(rows, Months(monthly));
  }

  // ---------------------------------------------------------------------------
  // Top packages

  /** `b.bookings_package_id_fkey?.name || "N/A"`. */
  function PackageLabel(r: AnalyticsRow): string {
    if Truthy(r.packageName) then r.packageName.value else "N/A"
  }

  function AcceptedWithLabel(n: string): AnalyticsRow -> bool {
    (r: AnalyticsRow) => r.status == Accepted && PackageLabel(r) == n
  }

  function CountLabel(rows: seq<AnalyticsRow>, n: string): nat {
    CountWhere(rows, AcceptedWithLabel(n))
  }

  /** The labels of the accepted bookings in order of first appearance (the key order of `packageCountMap`). */
  function Labels(rows: seq<AnalyticsRow>): seq<string>
  {
    if rows == [] then []
    else
      var ls := Labels(rows[..|rows| - 1]);
      var x := rows[|rows| - 1];
      if x.status == Accepted && PackageLabel(x) !in ls then ls + [PackageLabel(x)] else ls
  }

  /** The labels are distinct, and a label is listed iff some accepted booking carries it. */
  lemma {:induction false} LabelsSpec(rows: seq<AnalyticsRow>)
    ensures forall i, j :: 0 <= i < j < |Labels(rows)| ==> Labels(rows)[i] != Labels(rows)[j]
    ensures forall n :: n in Labels(rows) <==> CountLabel(rows, n) > 0
  {
    if rows != [] {
      var front := rows[..|rows| - 1];
      var x := rows[|rows| - 1];
      assert rows == front + [x];
      LabelsSpec(front);
      LabelsSnoc(front, x);
      var ls := Labels(front);
      if x.status == Accepted && PackageLabel(x) !in ls {
        var r := ls + [PackageLabel(x)];
        forall i, j | 0 <= i < j < |r| ensures r[i] != r[j] {
          assert r[i] == ls[i];
          if j < |ls| {
            assert r[j] == ls[j];
          }
        }
      }
      forall n ensures n in Labels(rows) <==> CountLabel(rows, n) > 0 {
        CountLabelSnoc(front, x, n);
      }
    }
  }

  datatype PackageCount = PackageCount(name: string, count: nat)

  function Entries(rows: seq<AnalyticsRow>): seq<PackageCount> {
    var ls := Labels(rows);
    seq(|ls|, k requires 0 <= k < |ls| => PackageCount(ls[k], CountLabel(rows, ls[k])))
  }

  /** The tally of `fetchAnalytics`: one increment per accepted booking, under its label. */
  method TallyPackages(rows: seq<AnalyticsRow>) returns (entries: seq<PackageCount>)
    ensures entries == Entries(rows)
  {
    var counts: map<string, nat> := map[];
    var order: seq<string> := [];   // insertion order of `packageCountMap`
    var i := 0;
    while i < |rows|
      invariant 0 <= i <= |rows|
      invariant Tallied(rows[..i], order, counts)
    {
      var b := rows[i];
      assert rows[..i + 1] == rows[..i] + [b];
      TallyAdvance(rows[..i], b, order, counts);
      order, counts := CountOne(order, counts, b);
      i := i + 1;
    }
    assert rows[..i] == rows;
    entries := seq(|order|, k requires 0 <= k < |order| && order[k] in counts => PackageCount(order[k], counts[order[k]]));
    TalliedEntries(rows, order, counts, entries);
  }

  /** At the end of the loop, the labels in order with their counts are the tally's entries. */
  lemma TalliedEntries(rows: seq<AnalyticsRow>, order: seq<string>, counts: map<string, nat>, entries: seq<PackageCount>)
    requires Tallied(rows, order, counts)
    requires |entries| == |order| && forall k :: 0 <= k < |order| ==> entries[k] == PackageCount(order[k], counts[order[k]])
    ensures entries == Entries(rows)
  {
  }

  /** The tally loop's invariant: the labels so far in first-seen order, each with its count. */
  ghost predicate Tallied(rows: seq<AnalyticsRow>, order: seq<string>, counts: map<string, nat>) {
    && order == Labels(rows)
    && (forall n :: n in counts <==> n in order)
    && (forall n :: n in counts ==> counts[n] == CountLabel(rows, n))
  }

  /**
   * The loop body: an accepted booking adds one under its label, the label
   * joining the key order the first time it is seen.
   */
  method CountOne(order: seq<string>, counts: map<string, nat>, b: AnalyticsRow)
    returns (order': seq<string>, counts': map<string, nat>)
    ensures (order', counts') == Counted(order, counts, b)
  {
    order', counts' := order, counts;
    if b.status == Accepted {
      var name := PackageLabel(b);
      if name !in counts {
        order' := order' + [name];
      }
      counts' := counts'[name := (if name in counts then counts[name] else 0) + 1];
    }
  }

  /** The key order and the counts after one more booking. */
  function Counted(order: seq<string>, counts: map<string, nat>, x: AnalyticsRow): (seq<string>, map<string, nat>) {
    if x.status != Accepted then (order, counts)
    else
      var name := PackageLabel(x);
      (if name !in counts then order + [name] else order,
       counts[name := (if name in counts then counts[name] else 0) + 1])
  }

  /** One loop step of the tally keeps its invariant. */
  lemma TallyAdvance(front: seq<AnalyticsRow>, x: AnalyticsRow, order: seq<string>, counts: map<string, nat>)
    requires Tallied(front, order, counts)
    ensures Tallied(front + [x], Counted(order, counts, x).0, Counted(order, counts, x).1)
  {
    var (order', counts') := Counted(order, counts, x);
    LabelsSnoc(front, x);
    var name := PackageLabel(x);
    forall n | n in counts' ensures counts'[n] == CountLabel(front + [x], n) {
      CountLabelSnoc(front, x, n);
      if x.status == Accepted && n == name && name !in counts {
        LabelsSpec(front);
      }
    }
  }

  /** One more booking adds its label at the end when it is accepted and the label is new. */
  lemma LabelsSnoc(front: seq<AnalyticsRow>, x: AnalyticsRow)
    ensures Labels(front + [x]) ==
      if x.status == Accepted && PackageLabel(x) !in Labels(front) then Labels(front) + [PackageLabel(x)] else Labels(front)
  {
    assert (front + [x])[..|front|] == front;
  }

  /** One more booking adds one to its own label's count when it is accepted. */
  lemma CountLabelSnoc(front: seq<AnalyticsRow>, x: AnalyticsRow, n: string)
    ensures CountLabel(front + [x], n) == CountLabel(front, n) + (if x.status == Accepted && PackageLabel(x) == n then 1 else 0)
  {
    CountWhereAppend(front, x, AcceptedWithLabel(n));
  }

  function EntryCount(e: PackageCount): int {
    e.count
  }

  /** `.sort((a, b) => b.count - a.count).slice(0, 5)`. */
  function TopFive(entries: seq<PackageCount>): seq<PackageCount> {
    var sorted := SortDesc(entries, EntryCount);
    sorted[..Min(5, |sorted|)]
  }

  /**
   * At most five packages, most booked first, each a real tally entry and
   * none shown more often than it is tallied, and no package left out has a
   * higher count than one shown.
   */
  lemma TopFiveSpec(entries: seq<PackageCount>)
    ensures |TopFive(entries)| == Min(5, |entries|)
    ensures SortedDesc(TopFive(entries), EntryCount)
    ensures forall i :: 0 <= i < |TopFive(entries)| ==> TopFive(entries)[i] in entries
    ensures multiset(TopFive(entries)) <= multiset(entries)
    ensures forall e, i :: e in entries && e !in TopFive(entries) && 0 <= i < |TopFive(entries)| ==>
      TopFive(entries)[i].count >= e.count
  {
    var sorted := SortDesc(entries, EntryCount);
    var top := TopFive(entries);
    assert |sorted| == |entries| by {
      assert |multiset(sorted)| == |multiset(entries)|;
    }
    assert top == sorted[..|top|];
    assert sorted == top + sorted[|top|..];
    assert multiset(sorted) == multiset(top) + multiset(sorted[|top|..]);
    forall i | 0 <= i < |top| ensures top[i] in entries {
      PermutationKeeps(sorted, entries, i);
    }
    forall e, i | e in entries && e !in top && 0 <= i < |top| ensures top[i].count >= e.count {
      var j :| 0 <= j < |entries| && entries[j] == e;
      PermutationKeeps(entries, sorted, j);
      var k :| 0 <= k < |sorted| && sorted[k] == e;
      assert forall m :: 0 <= m < |top| ==> sorted[m] in top;
      assert EntryCount(sorted[i]) >= EntryCount(sorted[k]);
    }
  }

  // ---------------------------------------------------------------------------
  // Notification feed

  datatype RecentUser = RecentUser(id: string, username: string, createdAt: int)

  /** A pending request as `fetchRecentRequests` normalises it. */
  datatype Request = Request(id: string, fullName: string, date: string, time: string, status: string)

  datatype FeedItem = FeedItem(id: string, kind: string, message: string, createdAt: int)

  function UserItem(u: RecentUser): FeedItem {
    FeedItem("user-" + u.id, "new_user", "New user signed up: " + u.username, u.createdAt)
  }

  /** A request item is stamped with the time the feed is generated, not the request's own time. */
  function RequestItem(r: Request, now: int): FeedItem {
    FeedItem("booking-" + r.id, "booking_request", "New booking request from " + r.fullName, now)
  }

  function UserItems(users: seq<RecentUser>): (items: seq<FeedItem>)
    ensures |items| == |users| && forall k :: 0 <= k < |users| ==> items[k] == UserItem(users[k])
  {
    seq(|users|, k requires 0 <= k < |users| => UserItem(users[k]))
  }

  function RequestItems(requests: seq<Request>, now: int): (items: seq<FeedItem>)
    ensures |items| == |requests| && forall k :: 0 <= k < |requests| ==> items[k] == RequestItem(requests[k], now)
  {
    seq(|requests|, k requires 0 <= k < |requests| => RequestItem(requests[k], now))
  }

  function ItemTime(n: FeedItem): int {
    n.createdAt
  }

  /** `generateNotifications`: push one item per user, then one per request, then sort newest first. */
  method GenerateNotifications(users: seq<RecentUser>, requests: seq<Request>, now: int) returns (notif: seq<FeedItem>)
    ensures multiset(notif) == multiset(UserItems(users) + RequestItems(requests, now))
    ensures SortedDesc(notif, ItemTime)
  {
    notif := [];
    var i := 0;
    while i < |users|
      invariant 0 <= i <= |users|
      invariant notif == UserItems(users[..i])
    {
      notif := notif + [UserItem(users[i])];
      i := i + 1;
    }
    assert users[..i] == users;
    var j := 0;
    while j < |requests|
      invariant 0 <= j <= |requests|
      invariant notif == UserItems(users) + RequestItems(requests[..j], now)
    {
      notif := notif + [RequestItem(requests[j], now)];
      j := j + 1;
    }
    assert requests[..j] == requests;
    notif := SortDesc(notif, ItemTime);
  }

  /**
   * The feed has one item per user and one per request, with the "user-"
   * and "booking-" id prefixes; when every user signed up before `now`,
   * all request items come before all user items.
   */
  lemma FeedSpec(users: seq<RecentUser>, requests: seq<Request>, now: int, notif: seq<FeedItem>)
    requires multiset(notif) == multiset(UserItems(users) + RequestItems(requests, now))
    requires SortedDesc(notif, ItemTime)
    ensures |notif| == |users| + |requests|
    ensures forall k :: 0 <= k < |users| ==> UserItem(users[k]) in notif
    ensures forall k :: 0 <= k < |requests| ==> RequestItem(requests[k], now) in notif
    ensures (forall k :: 0 <= k < |users| ==> users[k].createdAt < now) ==>
      forall i, j :: 0 <= i < j < |notif| && notif[j].kind == "booking_request" ==> notif[i].kind == "booking_request"
  {
    var all := UserItems(users) + RequestItems(requests, now);
    assert |multiset(notif)| == |multiset(all)|;
    forall k | 0 <= k < |users| ensures UserItem(users[k]) in notif {
      assert all[k] == UserItem(users[k]);
      PermutationKeeps(all, notif, k);
    }
    forall k | 0 <= k < |requests| ensures RequestItem(requests[k], now) in notif {
      assert all[|users| + k] == RequestItem(requests[k], now);
      PermutationKeeps(all, notif, |users| + k);
    }
    if forall k :: 0 <= k < |users| ==> users[k].createdAt < now {
      forall i, j | 0 <= i < j < |notif| && notif[j].kind == "booking_request" ensures notif[i].kind == "booking_request" {
        ItemKindTime(users, requests, now, notif, i);
        ItemKindTime(users, requests, now, notif, j);
      }
    }
  }

  /** A request item carries `now`; a user item carries its user's time. */
  lemma ItemKindTime(users: seq<RecentUser>, requests: seq<Request>, now: int, notif: seq<FeedItem>, i: int)
    requires multiset(notif) == multiset(UserItems(users) + RequestItems(requests, now))
    requires 0 <= i < |notif|
    ensures notif[i].kind == "booking_request" ==> notif[i].createdAt == now
    ensures notif[i].kind != "booking_request" ==> exists k :: 0 <= k < |users| && notif[i].createdAt == users[k].createdAt
  {
    var all := UserItems(users) + RequestItems(requests, now);
    assert notif[i] in multiset(all);
    var m :| 0 <= m < |all| && all[m] == notif[i];
    if m >= |users| {
      assert all[m] == RequestItem(requests[m - |users|], now);
    } else {
      assert all[m] == UserItem(users[m]);
    }
  }

  // ---------------------------------------------------------------------------
  // Approving or rejecting a pending request

  datatype Pending = Pending(recentRequests: seq<Request>, pendingRequests: int)

  /** `handleUpdateStatus` once the store has answered. */
  function HandleUpdateStatus(p: Pending, id: string, storeFails: bool): Pending {
    if storeFails then p
    else Pending(Filter(p.recentRequests, (r: Request) => r.id != id), p.pendingRequests - 1)
  }

  /**
   * A successful update removes exactly the requests with the id (keeping
   * the others in order) and lowers the counter by exactly one, even below
   * zero; a failed one changes nothing.
   */
  lemma HandleUpdateStatusSpec(p: Pending, id: string, storeFails: bool)
    ensures storeFails ==> HandleUpdateStatus(p, id, storeFails) == p
    ensures !storeFails ==>
      var q := HandleUpdateStatus(p, id, storeFails);
      && q.pendingRequests == p.pendingRequests - 1
      && (forall k :: 0 <= k < |q.recentRequests| ==> q.recentRequests[k].id != id)
      && (forall k :: 0 <= k < |p.recentRequests| && p.recentRequests[k].id != id ==> p.recentRequests[k] in q.recentRequests)
      && IsSubsequence(q.recentRequests, p.recentRequests)
  {
    FilterIsSubsequence(p.recentRequests, (r: Request) => r.id != id);
  }

  /** The counter is not clamped: acting on a request when the counter is 0 shows -1. */
  lemma PendingCounterUnclamped(requests: seq<Request>, id: string)
    ensures HandleUpdateStatus(Pending(requests, 0), id, false).pendingRequests == -1
  {
  }

  // ---------------------------------------------------------------------------
  // CSV export

  datatype Field = Field(key: string, value: string)

  /** A row of `select("*")` with its columns in order; values are already rendered as text. */
  type Row = seq<Field>

  function Keys(row: Row): (r: seq<string>)
    ensures |r| == |row| && forall k :: 0 <= k < |row| ==> r[k] == row[k].key
  {
    seq(|row|, k requires 0 <= k < |row| => row[k].key)
  }

  function Values(row: Row): (r: seq<string>)
    ensures |r| == |row| && forall k :: 0 <= k < |row| ==> r[k] == row[k].value
  {
    seq(|row|, k requires 0 <= k < |row| => row[k].value)
  }

  function RowLines(data: seq<Row>): (r: seq<string>)
    ensures |r| == |data| && forall k :: 0 <= k < |data| ==> r[k] == Join(Values(data[k]), ",")
  {
    seq(|data|, k requires 0 <= k < |data| => Join(Values(data[k]), ","))
  }

  /** The text for non-empty data: the first row's keys, then one line of values per row. */
  function CsvText(data: seq<Row>): string
    requires data != []
  {
    Join([Join(Keys(data[0]), ",")] + RowLines(data), "\n")
  }

  datatype ExportOutcome = NoData | Crash | Csv(text: string)

  /**
   * The export button as written: `if (!data)` only catches a failed query;
   * an empty table reaches `Object.keys(data[0])` with `data[0]` undefined,
   * which throws.
   */
  function ExportAsWritten(data: Option<seq<Row>>): ExportOutcome {
    match data
    case None => NoData
    case Some(rows) => if rows == [] then Crash else Csv(CsvText(rows))
  }

  /** An empty table makes the export throw instead of reporting "No data to export". */
  lemma ExportEmptyTableCrashes()
    ensures ExportAsWritten(Some([])) == Crash
  {
  }

  /** The export as evidently intended: an empty table is reported like a failed query. */
  function Export(data: Option<seq<Row>>): (r: ExportOutcome)
    ensures r != Crash
    ensures r == NoData <==> data.None? || data.value == []
    ensures data.Some? && data.value != [] ==> r == ExportAsWritten(data)
  {
    match data
    case None => NoData
    case Some(rows) => if rows == [] then NoData else Csv(CsvText(rows))
  }

  /** Splits a CSV text back into its header and rows (the reading a spreadsheet does). */
  function ParseCsv(text: string): seq<seq<string>> {
    SplitEach(Split(text, '\n'))
  }

  /** Each line split at its commas. */
  function SplitEach(lines: seq<string>): (r: seq<seq<string>>)
    ensures |r| == |lines| && forall k :: 0 <= k < |lines| ==> r[k] == Split(lines[k], ',')
  {
    seq(|lines|, k requires 0 <= k < |lines| => Split(lines[k], ','))
  }

  predicate PlainCell(s: string) {
    ',' !in s && '\n' !in s
  }

  predicate PlainRow(row: Row) {
    forall k :: 0 <= k < |row| ==> PlainCell(row[k].key) && PlainCell(row[k].value)
  }

  /**
   * Round trip: when no key or value holds a comma or a line break and no
   * row is empty, reading the export back gives the header (the first row's
   * keys) followed by every row's values. Values are not quoted, so the
   * precondition is needed.
   */
  lemma ExportRoundTrip(data: seq<Row>)
    requires data != []
    requires PlainData(data)
    ensures Export(Some(data)).Csv?
    ensures ParseCsv(Export(Some(data)).text) == [Keys(data[0])] + AllValues(data)
  {
    assert Export(Some(data)).text == CsvText(data);
    CsvLines(data);
    LinesRoundTrip(data);
  }

  /** The header line and the row lines split at their commas give back the keys and the values. */
  lemma LinesRoundTrip(data: seq<Row>)
    requires data != []
    requires PlainData(data)
    ensures SplitEach([Join(Keys(data[0]), ",")] + RowLines(data)) == [Keys(data[0])] + AllValues(data)
  {
    var lines := [Join(Keys(data[0]), ",")] + RowLines(data);
    var parsed := SplitEach(lines);
    var expected := [Keys(data[0])] + AllValues(data);
    forall k | 0 <= k < |lines| ensures parsed[k] == expected[k] {
      if k == 0 {
        RowRoundTrip(data[0]);
      } else {
        assert lines[k] == Join(Values(data[k - 1]), ",");
        assert expected[k] == Values(data[k - 1]);
        RowRoundTrip(data[k - 1]);
      }
    }
  }

  /** No key or value holds a comma or a line break, and no row is empty. */
  predicate PlainData(data: seq<Row>) {
    forall k :: 0 <= k < |data| ==> PlainRow(data[k]) && |data[k]| >= 1
  }

  /** Every row's values, in order. */
  function AllValues(data: seq<Row>): (r: seq<seq<string>>)
    ensures |r| == |data| && forall k :: 0 <= k < |data| ==> r[k] == Values(data[k])
  {
    seq(|data|, k requires 0 <= k < |data| => Values(data[k]))
  }

  /** The export text splits at line breaks into the header line and one line per row. */
  lemma CsvLines(data: seq<Row>)
    requires data != []
    requires PlainData(data)
    ensures Split(CsvText(data), '\n') == [Join(Keys(data[0]), ",")] + RowLines(data)
  {
    var lines := [Join(Keys(data[0]), ",")] + RowLines(data);
    forall k | 0 <= k < |lines| ensures '\n' !in lines[k] {
      if k == 0 {
        JoinAvoids(Keys(data[0]), ",", '\n');
      } else {
        JoinAvoids(Values(data[k - 1]), ",", '\n');
      }
    }
    SplitJoin(lines, '\n');
  }

  /** One row's keys line and values line split back into the keys and the values. */
  lemma RowRoundTrip(row: Row)
    requires PlainRow(row) && |row| >= 1
    ensures Split(Join(Keys(row), ","), ',') == Keys(row)
    ensures Split(Join(Values(row), ","), ',') == Values(row)
  {
    SplitJoin(Keys(row), ',');
    SplitJoin(Values(row), ',');
  }

  // ---------------------------------------------------------------------------
  // Sending a notification

  datatype Compose = Compose(message: string, modalOpen: bool)

  /** `sendNotification`: a blank message is refused and nothing changes; otherwise the message is cleared and the modal closed. */
  function SendNotification(c: Compose): (r: (Compose, bool))
    ensures r.1 <==> !AllSpace(c.message)
    ensures !r.1 ==> r.0 == c
    ensures r.1 ==> r.0 == Compose("", false)
  {
    TrimEmptyIff(c.message);
    if Trim(c.message) == "" then (c, false) else (Compose("", false), true)
  }
}
