/** Read-only aggregations over one property's rooms, tenants and rents: the
    summary figures, the merged recent-activity feed and the month-by-month
    financial overview. The inputs are the records the store returns for the
    property. */
module DashboardService {
  import opened Entities
  import opened RentService
  import opened RoomsService
  import opened Sorting

  // ---------------------------------------------------------------------
  // Summary

  /** Number of tenants with the given status. */
  function CountTenants(tenants: seq<Tenant>, s: TenantStatus): (n: nat)
    ensures n <= |tenants|
  {
    if tenants == [] then 0
    else CountTenants(tenants[..|tenants| - 1], s) + (if tenants[|tenants| - 1].status == s then 1 else 0)
  }

  datatype Summary = Summary(
    totalRooms: nat,
    occupiedRooms: nat,
    vacantRooms: int,
    occupancyRate: real,
    activeTenants: nat,
    totalRent: Money,
    totalPaid: Money,
    totalPending: Money,
    collectionRate: real,
    pendingRents: nat
  )

  datatype DashboardSummary = DashboardSummary(property: Option<Property>, summary: Summary)

  /** The dashboard summary of a property (`property` is None when the store
      has no such property; the figures are then those of the empty lists). */
  function GetDashboardSummary(property: Option<Property>, rooms: seq<Room>, tenants: seq<Tenant>,
                               rents: seq<Rent>): (d: DashboardSummary)
    ensures d.property == property
    ensures d.summary.totalRooms == |rooms|
    ensures d.summary.occupiedRooms == CountRooms(rooms, Occupied)
    ensures d.summary.vacantRooms == d.summary.totalRooms - d.summary.occupiedRooms
    ensures d.summary.vacantRooms
            == CountRooms(rooms, Vacant) + CountRooms(rooms, Maintenance) + CountRooms(rooms, Reserved)
    ensures d.summary.activeTenants == CountTenants(tenants, Active)
    ensures d.summary.totalRent == TotalAmount(rents) && d.summary.totalPaid == TotalAmountPaid(rents)
    ensures d.summary.totalPending == d.summary.totalRent - d.summary.totalPaid
    ensures d.summary.occupancyRate == Percentage(d.summary.occupiedRooms, d.summary.totalRooms)
    ensures d.summary.collectionRate == Percentage(d.summary.totalPaid, d.summary.totalRent)
    ensures d.summary.pendingRents == CountStatus(rents, Pending) + CountStatus(rents, Overdue)
    ensures d.summary.pendingRents + CountStatus(rents, Partial) + CountStatus(rents, RentStatus.Paid) == |rents|
  {
    RoomCountsPartition(rooms);
    StatusCountsPartition(rents);
    var totalRooms := |rooms|;
    var occupiedRooms := CountRooms(rooms, Occupied);
    var totalRent := TotalAmount(rents);
    var totalPaid := TotalAmountPaid(rents);
    var occupancyRate := Percentage(occupiedRooms, totalRooms);
    var collectionRate := Percentage(totalPaid, totalRent);
    DashboardSummary(
      property,
      Summary(
        totalRooms,
        occupiedRooms,
        totalRooms - occupiedRooms,
        occupancyRate,
        CountTenants(tenants, Active),
        totalRent,
        totalPaid,
        totalRent - totalPaid,
        collectionRate,
        CountStatus(rents, Pending) + CountStatus(rents, Overdue)))
  }

  /** The rates of the summary: the occupancy rate is the percentage of
      rooms occupied, between 0 and 100 and 0 when there are no rooms; the
      collection rate is the percentage of the amount due that was paid, 0
      when nothing is due. */
  lemma {:induction false} SummaryRates(property: Option<Property>, rooms: seq<Room>, tenants: seq<Tenant>,
                                        rents: seq<Rent>)
    ensures var s := GetDashboardSummary(property, rooms, tenants, rents).summary;
            && IsRate(s.occupancyRate, s.occupiedRooms, s.totalRooms)
            && 0.0 <= s.occupancyRate <= 100.0
            && IsRate(s.collectionRate, s.totalPaid, s.totalRent)
  {
    var s := GetDashboardSummary(property, rooms, tenants, rents).summary;
    assert 0 <= s.occupiedRooms <= s.totalRooms;
    RateOf(s.occupiedRooms, s.totalRooms, s.occupancyRate);
    RateOf(s.totalPaid, s.totalRent, s.collectionRate);
  }

  /** `rate` is `part` as a percentage of `whole`, and 0 when `whole` is not
      positive. */
  ghost predicate IsRate(rate: real, part: int, whole: int) {
    && (whole <= 0 ==> rate == 0.0)
    && (whole > 0 ==> rate * (whole as real) == (part as real) * 100.0)
  }

  /** What `Percentage` promises, for a rate already computed. */
  lemma RateOf(part: int, whole: int, rate: real)
    requires rate == Percentage(part, whole)
    ensures IsRate(rate, part, whole)
    ensures 0 <= part <= whole ==> 0.0 <= rate <= 100.0
  {
  }

  /** The dashboard reports the same rates as the rent statistics and the
      occupancy statistics of the same records. */
  lemma SummaryAgreesWithStats(property: Option<Property>, rooms: seq<Room>, tenants: seq<Tenant>,
                               rents: seq<Rent>)
    ensures var s := GetDashboardSummary(property, rooms, tenants, rents).summary;
            var rs := GetRentStats(rents);
            var os := GetOccupancyStats(rooms);
            && s.collectionRate == rs.collectionRate
            && s.totalPending == rs.totalPending
            && s.pendingRents == rs.pending + rs.overdue
            && s.occupancyRate == os.occupancyRate
            && s.occupiedRooms == os.occupied
  {
  }

  // ---------------------------------------------------------------------
  // Recent activity

  datatype Action = Created | Paid | Updated

  /** One entry of the activity feed, tagged by the kind of record it shows. */
  datatype Activity =
    | TenantActivity(action: Action, description: string, timestamp: Timestamp, tenant: Tenant)
    | RentActivity(action: Action, timestamp: Timestamp, rent: Rent)
    | RoomActivity(action: Action, description: string, timestamp: Timestamp, room: Room)

  function RoomStatusName(s: RoomStatus): string {
    match s
    case Vacant => "vacant"
    case Occupied => "occupied"
    case Maintenance => "maintenance"
    case Reserved => "reserved"
  }

  function TenantActivityOf(t: Tenant): (a: Activity)
    ensures a.TenantActivity? && a.tenant == t
    ensures a.action == Created && a.timestamp == t.createdAt
  {
    TenantActivity(Created, t.firstName + " " + t.lastName + " added", t.createdAt, t)
  }

  function RentActivityOf(r: Rent): (a: Activity)
    ensures a.RentActivity? && a.rent == r
    ensures a.action == Action.Paid <==> r.status == RentStatus.Paid
    ensures a.action != Action.Paid ==> a.action == Updated
    ensures a.timestamp == if r.paidDate.Some? then r.paidDate.value else r.updatedAt
  {
    RentActivity(if r.status == RentStatus.Paid then Action.Paid else Updated,
                 r.paidDate.GetOr(r.updatedAt), r)
  }

  function RoomActivityOf(r: Room): (a: Activity)
    ensures a.RoomActivity? && a.room == r
    ensures a.action == Updated && a.timestamp == r.updatedAt
  {
    RoomActivity(Updated, "Room " + r.roomNumber + " status changed to " + RoomStatusName(r.status),
                 r.updatedAt, r)
  }

  function TenantActivities(ts: seq<Tenant>): (s: seq<Activity>)
    ensures |s| == |ts| && forall i :: 0 <= i < |ts| ==> s[i] == TenantActivityOf(ts[i])
  {
    seq(|ts|, i requires 0 <= i < |ts| => TenantActivityOf(ts[i]))
  }

  function RentActivities(rs: seq<Rent>): (s: seq<Activity>)
    ensures |s| == |rs| && forall i :: 0 <= i < |rs| ==> s[i] == RentActivityOf(rs[i])
  {
    seq(|rs|, i requires 0 <= i < |rs| => RentActivityOf(rs[i]))
  }

  function RoomActivities(rs: seq<Room>): (s: seq<Activity>)
    ensures |s| == |rs| && forall i :: 0 <= i < |rs| ==> s[i] == RoomActivityOf(rs[i])
  {
    seq(|rs|, i requires 0 <= i < |rs| => RoomActivityOf(rs[i]))
  }

  /** The sort key of the feed: `(a, b) => b.timestamp - a.timestamp` sorts
      ascending on the negated timestamp, that is newest first. */
  function NewestFirst(a: Activity): int {
    -a.timestamp
  }

  /** Newest first. */
  ghost predicate SortedByTimeDesc(s: seq<Activity>) {
    forall i, j :: 0 <= i < j < |s| ==> s[i].timestamp >= s[j].timestamp
  }

  /** The entries of `s` stamped `t`, in their order in `s`. */
  function AtTime(s: seq<Activity>, t: Timestamp): seq<Activity> {
    WithKey(s, NewestFirst, -t)
  }

  /** `arr.slice(0, limit)`: how many entries survive, a negative limit
      counting back from the end. */
  function SliceEnd(n: nat, limit: int): (k: nat)
    ensures k <= n
    ensures limit >= 0 ==> k == if limit < n then limit else n
    ensures limit < 0 ==> k == if n + limit > 0 then n + limit else 0
  {
    if limit >= 0 then (if limit < n then limit else n)
    else if n + limit > 0 then n + limit else 0
  }

  /** All activities of the three inputs, tenants first, then rents, then rooms. */
  function AllActivities(tenants: seq<Tenant>, rents: seq<Rent>, rooms: seq<Room>): seq<Activity> {
    TenantActivities(tenants) + RentActivities(rents) + RoomActivities(rooms)
  }

  /** The merged timeline before it is cut to size. */
  function Timeline(tenants: seq<Tenant>, rents: seq<Rent>, rooms: seq<Room>): (r: seq<Activity>)
    ensures multiset(r) == multiset(AllActivities(tenants, rents, rooms))
    ensures |r| == |tenants| + |rents| + |rooms|
    ensures SortedByTimeDesc(r)
  {
    SortBy(AllActivities(tenants, rents, rooms), NewestFirst)
  }

  /** The feed: the activities of the three (already size-capped) source
      lists, newest first, cut to `limit` entries. */
  function GetRecentActivity(tenants: seq<Tenant>, rents: seq<Rent>, rooms: seq<Room>, limit: int)
    : (feed: seq<Activity>)
    ensures limit >= 0 ==>
              |feed| == if limit < |tenants| + |rents| + |rooms| then limit else |tenants| + |rents| + |rooms|
    ensures limit < 0 ==>
              |feed| == if |tenants| + |rents| + |rooms| + limit > 0 then |tenants| + |rents| + |rooms| + limit else 0
    ensures multiset(feed) <= multiset(AllActivities(tenants, rents, rooms))
    ensures SortedByTimeDesc(feed)
    ensures var timeline := Timeline(tenants, rents, rooms);
            && |feed| <= |timeline| && feed == timeline[..|feed|]
            && forall i, j :: 0 <= i < |feed| <= j < |timeline| ==> timeline[j].timestamp <= feed[i].timestamp
  {
    var timeline := Timeline(tenants, rents, rooms);
    var k := SliceEnd(|timeline|, limit);
    PrefixOfSorted(timeline, NewestFirst, k);
    timeline[..k]
  }

  /** Every entry of the feed comes from one of the three source lists, with
      the shape its kind dictates. */
  lemma FeedEntriesFromSources(tenants: seq<Tenant>, rents: seq<Rent>, rooms: seq<Room>, limit: int, e: Activity)
    requires e in GetRecentActivity(tenants, rents, rooms, limit)
    ensures || (exists i :: 0 <= i < |tenants| && e == TenantActivityOf(tenants[i]))
            || (exists i :: 0 <= i < |rents| && e == RentActivityOf(rents[i]))
            || (exists i :: 0 <= i < |rooms| && e == RoomActivityOf(rooms[i]))
  {
    var feed := GetRecentActivity(tenants, rents, rooms, limit);
    var a, b, c := TenantActivities(tenants), RentActivities(rents), RoomActivities(rooms);
    assert e in multiset(feed);
    assert e in multiset(a + b + c);
    if e in a {
      var i :| 0 <= i < |a| && a[i] == e;
      assert e == TenantActivityOf(tenants[i]);
    } else if e in b {
      var i :| 0 <= i < |b| && b[i] == e;
      assert e == RentActivityOf(rents[i]);
    } else {
      assert e in c;
      var i :| 0 <= i < |c| && c[i] == e;
      assert e == RoomActivityOf(rooms[i]);
    }
  }

  /** Among entries with the same timestamp, the timeline lists tenant
      activities first, then rent activities, then room activities, each in
      its source order. */
  lemma FeedTieOrder(tenants: seq<Tenant>, rents: seq<Rent>, rooms: seq<Room>, t: Timestamp)
    ensures AtTime(Timeline(tenants, rents, rooms), t)
            == AtTime(TenantActivities(tenants), t) + AtTime(RentActivities(rents), t)
               + AtTime(RoomActivities(rooms), t)
  {
    TimelineTies(TenantActivities(tenants), RentActivities(rents), RoomActivities(rooms), t);
  }

  lemma TimelineTies(a: seq<Activity>, b: seq<Activity>, c: seq<Activity>, t: Timestamp)
    ensures AtTime(SortBy(a + b + c, NewestFirst), t) == AtTime(a, t) + AtTime(b, t) + AtTime(c, t)
  {
    SortTiesOfThree(a, b, c, NewestFirst, -t);
  }

  // ---------------------------------------------------------------------
  // Financial overview

  datatype MonthRow = MonthRow(month: int, expected: Money, received: Money)

  /** The month a rent is due in: the key `dueDate.toISOString().slice(0, 7)`
      groups by. */
  function DueMonth(r: Rent): int {
    MonthKey(r.dueDate)
  }

  /** The months of the rents, `monthOf` giving each rent's month. The
      grouping below is stated for any month key; the overview uses
      `DueMonth`. */
  function MonthsOf(rents: seq<Rent>, monthOf: Rent -> int): set<int> {
    if rents == [] then {} else MonthsOf(rents[..|rents| - 1], monthOf) + {monthOf(rents[|rents| - 1])}
  }

  /** The rents of month `m`, in input order. */
  function InMonth(rents: seq<Rent>, m: int, monthOf: Rent -> int): seq<Rent> {
    if rents == [] then []
    else InMonth(rents[..|rents| - 1], m, monthOf)
         + (if monthOf(rents[|rents| - 1]) == m then [rents[|rents| - 1]] else [])
  }

  /** The overview row of month `m`: what was due and what was paid. */
  function RowFor(rents: seq<Rent>, m: int, monthOf: Rent -> int): MonthRow {
    var due := InMonth(rents, m, monthOf);
    MonthRow(m, TotalAmount(due), TotalAmountPaid(due))
  }

  /** A month has rents due in it exactly when it is one of the rents' months. */
  lemma {:induction false} MonthsOfNonEmpty(rents: seq<Rent>, m: int, monthOf: Rent -> int)
    ensures m in MonthsOf(rents, monthOf) <==> InMonth(rents, m, monthOf) != []
  {
    if rents != [] {
      MonthsOfNonEmpty(rents[..|rents| - 1], m, monthOf);
    }
  }

  /** Appending one rent adds its month and extends that month's list. */
  lemma Snoc(rents: seq<Rent>, r: Rent, m: int, monthOf: Rent -> int)
    ensures MonthsOf(rents + [r], monthOf) == MonthsOf(rents, monthOf) + {monthOf(r)}
    ensures InMonth(rents + [r], m, monthOf) == InMonth(rents, m, monthOf) + (if monthOf(r) == m then [r] else [])
  {
    assert (rents + [r])[..|rents|] == rents;
  }

  /** Appending one rent adds its amounts to its own month's row only. */
  lemma RowForSnoc(rents: seq<Rent>, r: Rent, m: int, monthOf: Rent -> int)
    ensures RowFor(rents + [r], m, monthOf)
            == if monthOf(r) == m
               then RowFor(rents, m, monthOf).(expected := RowFor(rents, m, monthOf).expected + r.amount,
                                      received := RowFor(rents, m, monthOf).received + r.amountPaid)
               else RowFor(rents, m, monthOf)
  {
    var before := InMonth(rents, m, monthOf);
    var after := InMonth(rents + [r], m, monthOf);
    Snoc(rents, r, m, monthOf);
    if monthOf(r) == m {
      assert after == before + [r];
      TotalsAppend(before, [r]);
    } else {
      assert after == before + [];
      assert before + [] == before;
    }
  }

  function RowMonth(row: MonthRow): int {
    row.month
  }

  /** The months of a list of rows. */
  function MonthsIn(rows: seq<MonthRow>): set<int> {
    set row | row in rows :: row.month
  }

  /** `order` lists the keys `keys`, each once. */
  ghost predicate ListsKeys(order: seq<int>, keys: set<int>) {
    && (forall j :: 0 <= j < |order| ==> order[j] in keys)
    && (forall m :: m in keys ==> m in order)
    && (forall j, k :: 0 <= j < k < |order| ==> order[j] != order[k])
  }

  /** Recording a key: a new key goes to the end of the list. */
  lemma ListsKeysAdd(order: seq<int>, keys: set<int>, k: int)
    requires ListsKeys(order, keys)
    ensures k in keys ==> ListsKeys(order, keys + {k})
    ensures k !in keys ==> ListsKeys(order + [k], keys + {k})
  {
    if k !in keys {
      var o := order + [k];
      forall m | m in keys + {k} ensures m in o {
        if m != k {
          var j :| 0 <= j < |order| && order[j] == m;
          assert o[j] == m;
        }
      }
    }
  }

  /** The months of the rents in the order they first occur. */
  function FirstSeen(rents: seq<Rent>, monthOf: Rent -> int): seq<int> {
    if rents == [] then []
    else
      var seen := FirstSeen(rents[..|rents| - 1], monthOf);
      var m := monthOf(rents[|rents| - 1]);
      if m in seen then seen else seen + [m]
  }

  lemma FirstSeenSnoc(rents: seq<Rent>, rent: Rent, monthOf: Rent -> int)
    ensures var seen := FirstSeen(rents, monthOf);
            FirstSeen(rents + [rent], monthOf)
            == if monthOf(rent) in seen then seen else seen + [monthOf(rent)]
  {
    assert (rents + [rent])[..|rents|] == rents;
  }

  /** The months first seen are the rents' months, each listed once. */
  lemma {:induction false} FirstSeenListsMonths(rents: seq<Rent>, monthOf: Rent -> int)
    ensures ListsKeys(FirstSeen(rents, monthOf), MonthsOf(rents, monthOf))
  {
    if rents != [] {
      var init := rents[..|rents| - 1];
      FirstSeenListsMonths(init, monthOf);
      ListsKeysAdd(FirstSeen(init, monthOf), MonthsOf(init, monthOf), monthOf(rents[|rents| - 1]));
    }
  }

  /** A month is among those first seen exactly when some rent falls in it. */
  lemma FirstSeenHas(rents: seq<Rent>, m: int, monthOf: Rent -> int)
    ensures m in FirstSeen(rents, monthOf) <==> m in MonthsOf(rents, monthOf)
  {
    FirstSeenListsMonths(rents, monthOf);
  }

  /** A month keeps its place once it has been seen: the months first seen
      in a list of rents begin the months first seen in any longer list. */
  lemma {:induction false} FirstSeenGrows(rents: seq<Rent>, more: seq<Rent>, monthOf: Rent -> int)
    ensures FirstSeen(rents, monthOf) <= FirstSeen(rents + more, monthOf)
  {
    if more == [] {
      assert rents + more == rents;
    } else {
      var init := more[..|more| - 1];
      assert (rents + more)[..|rents + more| - 1] == rents + init;
      FirstSeenGrows(rents, init, monthOf);
    }
  }

  /** The `months` object the overview fills: one row per due month, keyed
      by the month, with `order` its keys in insertion order. */
  method GroupByMonth(rents: seq<Rent>, monthOf: Rent -> int) returns (months: map<int, MonthRow>, order: seq<int>)
    ensures months.Keys == MonthsOf(rents, monthOf)
    ensures forall m :: m in months ==> months[m] == RowFor(rents, m, monthOf)
    ensures ListsKeys(order, months.Keys)
    ensures order == FirstSeen(rents, monthOf)
  {
    months := map[];
    order := [];
    for i := 0 to |rents|
      invariant months.Keys == MonthsOf(rents[..i], monthOf)
      invariant forall m :: m in months ==> months[m] == RowFor(rents[..i], m, monthOf)
      invariant order == FirstSeen(rents[..i], monthOf)
    {
      var rent := rents[i];
      var month := monthOf(rent);
      FirstSeenHas(rents[..i], month, monthOf);
      FirstSeenSnoc(rents[..i], rent, monthOf);
      var row := MonthRow(month, 0, 0);
      if month in months {
        row := months[month];
      } else {
        order := order + [month];
      }
      ghost var prev := months;
      months := months[month := row.(expected := row.expected + rent.amount,
                                     received := row.received + rent.amountPaid)];
      TakeOneMore(rents, i);
      GroupStep(rents[..i], rent, prev, row, months, monthOf);
    }
    assert rents[..|rents|] == rents;
    FirstSeenListsMonths(rents, monthOf);
  }

  lemma TakeOneMore(rents: seq<Rent>, i: int)
    requires 0 <= i < |rents|
    ensures rents[..i + 1] == rents[..i] + [rents[i]]
  {
  }

  /** Adding one rent to its month's row (a fresh zero row when the month is
      new) keeps the table equal to the per-month rows of the longer list. */
  lemma GroupStep(rents: seq<Rent>, rent: Rent, prev: map<int, MonthRow>, row: MonthRow,
                  months: map<int, MonthRow>, monthOf: Rent -> int)
    requires prev.Keys == MonthsOf(rents, monthOf)
    requires forall m :: m in prev ==> prev[m] == RowFor(rents, m, monthOf)
    requires row == if monthOf(rent) in prev then prev[monthOf(rent)] else MonthRow(monthOf(rent), 0, 0)
    requires months == prev[monthOf(rent) := row.(expected := row.expected + rent.amount,
                                                  received := row.received + rent.amountPaid)]
    ensures months.Keys == MonthsOf(rents + [rent], monthOf)
    ensures forall m :: m in months ==> months[m] == RowFor(rents + [rent], m, monthOf)
  {
    var month := monthOf(rent);
    Snoc(rents, rent, month, monthOf);
    forall m | m in months ensures months[m] == RowFor(rents + [rent], m, monthOf) {
      GroupStepAt(rents, rent, prev, row, months, monthOf, m);
    }
  }

  /** The step of `GroupStep` for one month `m` of the table. */
  lemma GroupStepAt(rents: seq<Rent>, rent: Rent, prev: map<int, MonthRow>, row: MonthRow,
                    months: map<int, MonthRow>, monthOf: Rent -> int, m: int)
    requires prev.Keys == MonthsOf(rents, monthOf)
    requires forall m :: m in prev ==> prev[m] == RowFor(rents, m, monthOf)
    requires row == if monthOf(rent) in prev then prev[monthOf(rent)] else MonthRow(monthOf(rent), 0, 0)
    requires months == prev[monthOf(rent) := row.(expected := row.expected + rent.amount,
                                                  received := row.received + rent.amountPaid)]
    requires m in months
    ensures months[m] == RowFor(rents + [rent], m, monthOf)
  {
    var month := monthOf(rent);
    RowForSnoc(rents, rent, m, monthOf);
    if m != month {
      assert months[m] == prev[m];
    } else {
      if month !in prev {
        MonthsOfNonEmpty(rents, month, monthOf);
        assert InMonth(rents, month, monthOf) == [];
      }
      assert row == RowFor(rents, month, monthOf);
    }
  }

  /** Groups the rents by due month, summing what was due and what was paid,
      one row per month in ascending month order. */
  method GetFinancialOverview(rents: seq<Rent>) returns (rows: seq<MonthRow>)
    ensures forall i, j :: 0 <= i < j < |rows| ==> rows[i].month < rows[j].month
    ensures MonthsIn(rows) == MonthsOf(rents, DueMonth)
    ensures forall i :: 0 <= i < |rows| ==> rows[i] == RowFor(rents, rows[i].month, DueMonth)
    ensures forall i :: 0 <= i < |rows| ==> InMonth(rents, rows[i].month, DueMonth) != []
  {
    var months, order := GroupByMonth(rents, DueMonth);
    // Object.values(months).sort((a, b) => a.month.localeCompare(b.month))
    var values := TableValues(months, order, rents, DueMonth);
    rows := SortBy(values, RowMonth);
    SortStrict(values, RowMonth);
    OverviewRows(rents, months, order, values, rows, DueMonth);
  }

  /** The rows of the month table, in the order their months were first seen;
      their months are all different. */
  function TableValues(months: map<int, MonthRow>, order: seq<int>, ghost rents: seq<Rent>, ghost monthOf: Rent -> int)
    : (values: seq<MonthRow>)
    requires forall m :: m in months ==> months[m] == RowFor(rents, m, monthOf)
    requires ListsKeys(order, months.Keys)
    ensures |values| == |order| && forall j :: 0 <= j < |order| ==> values[j] == months[order[j]]
    ensures DistinctKeys(values, RowMonth)
  {
    var values := seq(|order|, j requires 0 <= j < |order| => months[order[j]]);
    forall j | 0 <= j < |values| ensures values[j].month == order[j] {
      assert order[j] in months.Keys;
      assert values[j] == RowFor(rents, order[j], monthOf);
    }
    values
  }

  /** What the sorted values of the month table are: each a month's row, and
      every month of the rents present. */
  lemma OverviewRows(rents: seq<Rent>, months: map<int, MonthRow>, order: seq<int>, values: seq<MonthRow>,
                     rows: seq<MonthRow>, monthOf: Rent -> int)
    requires months.Keys == MonthsOf(rents, monthOf)
    requires forall m :: m in months ==> months[m] == RowFor(rents, m, monthOf)
    requires ListsKeys(order, months.Keys)
    requires |values| == |order| && forall j :: 0 <= j < |order| ==> values[j] == months[order[j]]
    requires multiset(rows) == multiset(values)
    ensures MonthsIn(rows) == MonthsOf(rents, monthOf)
    ensures forall i :: 0 <= i < |rows| ==> rows[i] == RowFor(rents, rows[i].month, monthOf)
    ensures forall i :: 0 <= i < |rows| ==> InMonth(rents, rows[i].month, monthOf) != []
  {
    forall i | 0 <= i < |rows|
      ensures rows[i] == RowFor(rents, rows[i].month, monthOf) && rows[i].month in months
    {
      assert rows[i] in multiset(values);
      var j :| 0 <= j < |values| && values[j] == rows[i];
      assert order[j] in months;
      assert values[j] == RowFor(rents, order[j], monthOf);
    }
    forall m | m in MonthsOf(rents, monthOf) ensures m in MonthsIn(rows) {
      var j :| 0 <= j < |order| && order[j] == m;
      assert values[j] in multiset(rows);
    }
    forall i | 0 <= i < |rows| ensures InMonth(rents, rows[i].month, monthOf) != [] {
      MonthsOfNonEmpty(rents, rows[i].month, monthOf);
    }
  }

  /** Sum of `expected` over rows. */
  function SumExpected(rows: seq<MonthRow>): Money {
    if rows == [] then 0 else SumExpected(rows[..|rows| - 1]) + rows[|rows| - 1].expected
  }

  /** Sum of `received` over rows. */
  function SumReceived(rows: seq<MonthRow>): Money {
    if rows == [] then 0 else SumReceived(rows[..|rows| - 1]) + rows[|rows| - 1].received
  }

  /** The rents due in one of the months of `ms`, in input order. */
  function InMonths(rents: seq<Rent>, ms: set<int>, monthOf: Rent -> int): seq<Rent> {
    if rents == [] then []
    else InMonths(rents[..|rents| - 1], ms, monthOf)
         + (if monthOf(rents[|rents| - 1]) in ms then [rents[|rents| - 1]] else [])
  }

  lemma {:induction false} InMonthsSplit(rents: seq<Rent>, m: int, ms: set<int>, monthOf: Rent -> int)
    requires m !in ms
    ensures TotalAmount(InMonths(rents, ms + {m}, monthOf)) == TotalAmount(InMonth(rents, m, monthOf)) + TotalAmount(InMonths(rents, ms, monthOf))
    ensures TotalAmountPaid(InMonths(rents, ms + {m}, monthOf))
            == TotalAmountPaid(InMonth(rents, m, monthOf)) + TotalAmountPaid(InMonths(rents, ms, monthOf))
  {
    if rents != [] {
      var init, last := rents[..|rents| - 1], rents[|rents| - 1];
      InMonthsSplit(init, m, ms, monthOf);
      var k := monthOf(last);
      TotalsAppend(InMonths(init, ms + {m}, monthOf), if k in ms + {m} then [last] else []);
      TotalsAppend(InMonth(init, m, monthOf), if k == m then [last] else []);
      TotalsAppend(InMonths(init, ms, monthOf), if k in ms then [last] else []);
    }
  }

  lemma {:induction false} InAllMonths(rents: seq<Rent>, ms: set<int>, monthOf: Rent -> int)
    requires MonthsOf(rents, monthOf) <= ms
    ensures InMonths(rents, ms, monthOf) == rents
  {
    if rents != [] {
      InAllMonths(rents[..|rents| - 1], ms, monthOf);
    }
  }

  lemma {:induction false} RowSums(rents: seq<Rent>, rows: seq<MonthRow>, monthOf: Rent -> int)
    requires forall i, j :: 0 <= i < j < |rows| ==> rows[i].month < rows[j].month
    requires forall i :: 0 <= i < |rows| ==> rows[i] == RowFor(rents, rows[i].month, monthOf)
    ensures SumExpected(rows) == TotalAmount(InMonths(rents, MonthsIn(rows), monthOf))
    ensures SumReceived(rows) == TotalAmountPaid(InMonths(rents, MonthsIn(rows), monthOf))
  {
    if rows == [] {
      assert MonthsIn(rows) == {};
      InMonthsNone(rents, monthOf);
    } else {
      var init, last := rows[..|rows| - 1], rows[|rows| - 1];
      assert rows == init + [last];
      RowSums(rents, init, monthOf);
      MonthsInSnoc(init, last);
      var ms := MonthsIn(init);
      assert MonthsIn(rows) == ms + {last.month};
      InMonthsSplit(rents, last.month, ms, monthOf);
      assert last == RowFor(rents, last.month, monthOf);
    }
  }

  /** The months of rows that end in a strictly later month. */
  lemma MonthsInSnoc(init: seq<MonthRow>, last: MonthRow)
    requires forall i :: 0 <= i < |init| ==> init[i].month < last.month
    ensures MonthsIn(init + [last]) == MonthsIn(init) + {last.month}
    ensures last.month !in MonthsIn(init)
  {
    var rows := init + [last];
    forall row | row in rows ensures row in init || row == last {
    }
  }

  lemma {:induction false} InMonthsNone(rents: seq<Rent>, monthOf: Rent -> int)
    ensures InMonths(rents, {}, monthOf) == []
  {
    if rents != [] {
      InMonthsNone(rents[..|rents| - 1], monthOf);
    }
  }

  /** The overview's rows add up to the property's totals: every rent is
      counted in exactly one row. */
  lemma OverviewTotals(rents: seq<Rent>, rows: seq<MonthRow>, monthOf: Rent -> int)
    requires forall i, j :: 0 <= i < j < |rows| ==> rows[i].month < rows[j].month
    requires MonthsIn(rows) == MonthsOf(rents, monthOf)
    requires forall i :: 0 <= i < |rows| ==> rows[i] == RowFor(rents, rows[i].month, monthOf)
    ensures SumExpected(rows) == TotalAmount(rents)
    ensures SumReceived(rows) == TotalAmountPaid(rents)
  {
    RowSums(rents, rows, monthOf);
    InAllMonths(rents, MonthsOf(rents, monthOf), monthOf);
  }
}
