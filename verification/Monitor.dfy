/** The live monitor's one aggregate query, rebuilt as a relational expression over `Db`,
    and the conservation law its four outputs obey. */
module Monitor {
  import opened Checkin
  import opened Options

  /** The total order of `ORDER BY created_at DESC, id DESC`: `x` is listed at or before `y`. */
  predicate Newer(x: Action, y: Action) {
    x.at > y.at || (x.at == y.at && x.id >= y.id)
  }

  predicate StateRow(row: Action, e: EventId, a: AttendeeId) {
    row.event == e && row.attendee == a && row.kind != ReprintRow
  }

  /** `latest_state`: the first row of attendee `a` under that order. */
  function Latest(feed: seq<Action>, e: EventId, a: AttendeeId): (r: Option<Action>)
    ensures r.None? ==> forall i :: 0 <= i < |feed| ==> !StateRow(feed[i], e, a)
    ensures r.Some? ==> r.value in feed && StateRow(r.value, e, a)
                        && forall i :: 0 <= i < |feed| && StateRow(feed[i], e, a) ==> Newer(r.value, feed[i])
  {
    if feed == [] then None
    else
      var row := feed[|feed| - 1];
      var r := Latest(feed[..|feed| - 1], e, a);
      assert feed == feed[..|feed| - 1] + [row];
      if !StateRow(row, e, a) then r
      else if r.None? || Newer(row, r.value) then Some(row)
      else r
  }

  lemma LatestAppend(feed: seq<Action>, row: Action, e: EventId, a: AttendeeId)
    ensures var r := Latest(feed, e, a);
            Latest(feed + [row], e, a) ==
              if !StateRow(row, e, a) then r
              else if r.None? || Newer(row, r.value) then Some(row)
              else r
  {
    assert (feed + [row])[..|feed|] == feed;
  }

  /** `attributed`: the zone column of a checked-in attendee's row after the two LEFT JOINs. */
  function ZoneOf(db: Db, e: EventId, a: AttendeeId): Option<ZoneId>
    requires a in db.attendees
  {
    match Latest(db.feed, e, a)
    case None => None
    case Some(ls) =>
      if ls.station.Some? && ls.station.value in db.stations && ls.kind == CheckinRow
         && db.attendees[a].at.Some? && ls.at >= db.attendees[a].at.value
      then db.stations[ls.station.value].zone
      else None
  }

  /** `id` is the primary key of the feed. */
  ghost predicate KeyedFeed(feed: seq<Action>) {
    forall i, j :: 0 <= i < j < |feed| ==> feed[i].id != feed[j].id
  }

  /** By columns: `row` is a check-in of this attendee at a station that is in zone z now, not older
      than their current check-in, and no check-in or undo of theirs comes before it under
      created_at DESC, id DESC. */
  ghost predicate Places(db: Db, e: EventId, a: AttendeeId, row: Action, z: ZoneId)
    requires a in db.attendees
  {
    && row in db.feed && row.event == e && row.attendee == a && row.kind == CheckinRow
    && row.station.Some? && row.station.value in db.stations && db.stations[row.station.value].zone == Some(z)
    && db.attendees[a].at.Some? && row.at >= db.attendees[a].at.value
    && forall x :: x in db.feed && x.event == e && x.attendee == a && (x.kind == CheckinRow || x.kind == UndoRow) ==>
         !(x.at > row.at || (x.at == row.at && x.id > row.id))
  }

  /** For all tables: an attendee's zone is z if and only if some feed row places them there. */
  lemma ZoneOfExactly(db: Db, e: EventId, a: AttendeeId, z: ZoneId)
    requires a in db.attendees
    ensures ZoneOf(db, e, a) == Some(z) ==> exists row :: Places(db, e, a, row, z)
    ensures KeyedFeed(db.feed) ==> (ZoneOf(db, e, a) == Some(z) <==> exists row :: Places(db, e, a, row, z))
  {
    var newest := Latest(db.feed, e, a);
    if ZoneOf(db, e, a) == Some(z) {
      assert Places(db, e, a, newest.value, z);
    }
    if KeyedFeed(db.feed) {
      forall row | Places(db, e, a, row, z)
        ensures newest == Some(row)
      {
        assert newest.Some? && Newer(newest.value, row) && newest.value.id == row.id;
      }
    }
  }

  /** An overwrite that moves checked_in_at past all of an attendee's check-ins and undos, as a
      sync push of an attendee who is checked in already does, leaves them without a zone. */
  lemma OverwriteUnattributes(db: Db, a: AttendeeId, columns: Attendee)
    requires a in db.attendees && columns.status && !columns.deleted
    requires columns.at.Some? ==>
               forall x :: x in db.feed && x.attendee == a && x.kind != ReprintRow ==> x.at < columns.at.value
    ensures a in Unattributed(Apply(db, Overwrite(a, columns)), db.attendees[a].event)
  {
  }

  /** The row set of the `attributed` CTE. */
  function CheckedIn(db: Db, e: EventId): (s: set<AttendeeId>)
    ensures s <= db.attendees.Keys
  {
    set a | a in db.attendees && db.attendees[a].event == e && db.attendees[a].status && !db.attendees[a].deleted
  }

  function Live(db: Db, e: EventId): set<AttendeeId> {
    set a | a in db.attendees && db.attendees[a].event == e && !db.attendees[a].deleted
  }

  /** COUNT(attributed.attendee_id) of one `event_zones` row. */
  function ZoneMembers(db: Db, e: EventId, z: ZoneId): set<AttendeeId> {
    set a | a in CheckedIn(db, e) && ZoneOf(db, e, a) == Some(z)
  }

  function Unattributed(db: Db, e: EventId): set<AttendeeId> {
    set a | a in CheckedIn(db, e) && ZoneOf(db, e, a) == None
  }

  /** Attendees whose zone is not one of the event's: the rows the final
      LEFT JOIN FROM event_zones would drop. */
  function Foreign(db: Db, e: EventId): set<AttendeeId> {
    set a | a in CheckedIn(db, e)
            && var z := ZoneOf(db, e, a);
            z.Some? && (z.value !in db.zones || db.zones[z.value].event != e)
  }

  datatype Row =
    | ZoneRow(zone: ZoneId, name: string, count: nat)
    | UnattributedRow(count: nat)
    | TotalsRow(checkedIn: nat, total: nat)

  ghost predicate ZoneRowOk(db: Db, e: EventId, row: Row) {
    row.ZoneRow? ==>
      && row.zone in db.zones && db.zones[row.zone].event == e
      && row.name == db.zones[row.zone].name
      && row.count == |ZoneMembers(db, e, row.zone)|
  }

  /** The sort_key column: NULL for the two summary rows, and for a zone without an order. */
  function SortKey(db: Db, row: Row): Option<int> {
    if row.ZoneRow? && row.zone in db.zones then db.zones[row.zone].order else None
  }

  /** ORDER BY sort_key NULLS LAST. */
  predicate KeyAtMost(x: Option<int>, y: Option<int>) {
    y.None? || (x.Some? && x.value <= y.value)
  }

  /** `rows` is a result of the query: one row for each zone of the event, one unattributed
      row and one totals row, in the order of the sort key. */
  ghost predicate IsResult(db: Db, e: EventId, rows: seq<Row>) {
    && (forall i :: 0 <= i < |rows| ==> ZoneRowOk(db, e, rows[i]))
    && (forall i, j :: 0 <= i < j < |rows| && rows[i].ZoneRow? && rows[j].ZoneRow? ==> rows[i].zone != rows[j].zone)
    && (forall z :: z in db.zones && db.zones[z].event == e ==>
          exists i :: 0 <= i < |rows| && rows[i].ZoneRow? && rows[i].zone == z)
    && UnattributedRow(|Unattributed(db, e)|) in rows
    && (forall row :: row in rows && row.UnattributedRow? ==> row == UnattributedRow(|Unattributed(db, e)|))
    && TotalsRow(|CheckedIn(db, e)|, |Live(db, e)|) in rows
    && (forall row :: row in rows && row.TotalsRow? ==> row == TotalsRow(|CheckedIn(db, e)|, |Live(db, e)|))
    && (forall i, j :: 0 <= i < j < |rows| ==> KeyAtMost(SortKey(db, rows[i]), SortKey(db, rows[j])))
  }

  datatype ZoneCount = ZoneCount(zone: ZoneId, name: string, checkedIn: nat)

  function Sum(zones: seq<ZoneCount>): nat {
    if zones == [] then 0 else Sum(zones[..|zones| - 1]) + zones[|zones| - 1].checkedIn
  }

  /** The snapshot lists exactly the event's zones, each once, with its count. */
  ghost predicate Lists(db: Db, e: EventId, zones: seq<ZoneCount>) {
    && (forall i :: 0 <= i < |zones| ==>
          zones[i].zone in db.zones && db.zones[zones[i].zone].event == e
          && zones[i].checkedIn == |ZoneMembers(db, e, zones[i].zone)|)
    && (forall i, j :: 0 <= i < j < |zones| ==> zones[i].zone != zones[j].zone)
    && (forall z :: z in db.zones && db.zones[z].event == e ==> exists i :: 0 <= i < |zones| && zones[i].zone == z)
  }

  ghost function Covered(db: Db, e: EventId, zones: seq<ZoneCount>): set<AttendeeId> {
    set a | a in CheckedIn(db, e)
            && exists i :: 0 <= i < |zones| && ZoneOf(db, e, a) == Some(zones[i].zone)
  }

  lemma CoveredGrows(db: Db, e: EventId, zones: seq<ZoneCount>, last: ZoneCount)
    ensures Covered(db, e, zones + [last]) == Covered(db, e, zones) + ZoneMembers(db, e, last.zone)
  {
    var all := zones + [last];
    assert all[|zones|] == last;
    forall a | a in CheckedIn(db, e)
      ensures a in Covered(db, e, all) <==> a in Covered(db, e, zones) || a in ZoneMembers(db, e, last.zone)
    {
      if i :| 0 <= i < |zones| && ZoneOf(db, e, a) == Some(zones[i].zone) {
        assert ZoneOf(db, e, a) == Some(all[i].zone);
      }
      if i :| 0 <= i < |all| && ZoneOf(db, e, a) == Some(all[i].zone) {
        assert i < |zones| ==> ZoneOf(db, e, a) == Some(zones[i].zone);
      }
    }
  }

  lemma {:induction false} SumCovers(db: Db, e: EventId, zones: seq<ZoneCount>)
    requires forall i :: 0 <= i < |zones| ==> zones[i].checkedIn == |ZoneMembers(db, e, zones[i].zone)|
    requires forall i, j :: 0 <= i < j < |zones| ==> zones[i].zone != zones[j].zone
    ensures Sum(zones) == |Covered(db, e, zones)|
    decreases |zones|
  {
    if zones == [] {
      assert Covered(db, e, zones) == {};
    } else {
      var init, last := zones[..|zones| - 1], zones[|zones| - 1];
      SumCovers(db, e, init);
      assert zones == init + [last];
      CoveredGrows(db, e, init, last);
      assert Covered(db, e, init) !! ZoneMembers(db, e, last.zone);
    }
  }

  /** In every state whatever, the listed counts and the unattributed count fall short of
      checked_in by exactly the attendees attributed to a zone outside the event. */
  lemma Conservation(db: Db, e: EventId, zones: seq<ZoneCount>)
    requires Lists(db, e, zones)
    ensures Sum(zones) + |Unattributed(db, e)| + |Foreign(db, e)| == |CheckedIn(db, e)|
  {
    SumCovers(db, e, zones);
    var covered, un, foreign := Covered(db, e, zones), Unattributed(db, e), Foreign(db, e);
    forall a | a in CheckedIn(db, e) ensures a in covered || a in un || a in foreign {
      var z := ZoneOf(db, e, a);
      if z.Some? && z.value in db.zones && db.zones[z.value].event == e {
        var i :| 0 <= i < |zones| && zones[i].zone == z.value;
      }
    }
    ThreeWaySplit(covered, un, foreign, CheckedIn(db, e));
  }

  lemma ThreeWaySplit(x: set<AttendeeId>, y: set<AttendeeId>, z: set<AttendeeId>, all: set<AttendeeId>)
    requires x <= all && y <= all && z <= all
    requires forall a :: a in all ==> a in x || a in y || a in z
    requires x !! y && x !! z && y !! z
    ensures |x| + |y| + |z| == |all|
  {
    assert |x + y| == |x| + |y|;
    assert all == x + y + z;
    assert (x + y) !! z;
  }

  /** References that stay inside one event leave nobody attributed outside it. */
  lemma NoForeign(db: Db, e: EventId)
    requires Referential(db)
    ensures Foreign(db, e) == {}
  {
    forall a | a in CheckedIn(db, e) ensures a !in Foreign(db, e) {
      var ls := Latest(db.feed, e, a);
      if ls.Some? {
        var i :| 0 <= i < |db.feed| && db.feed[i] == ls.value;
        assert FeedOk(db, db.feed[i]);
      }
    }
  }

  /** Conservation over runs: from any state with consistent references, through any
      transactions, overwrites, re-registrations and zone deletions, the per-zone counts
      plus unattributed equal checked_in. */
  lemma RunConserves(db: Db, ops: seq<Op>, e: EventId, zones: seq<ZoneCount>)
    requires Referential(db) && Lists(Run(db, ops), e, zones)
    ensures Sum(zones) + |Unattributed(Run(db, ops), e)| == |CheckedIn(Run(db, ops), e)|
  {
    RunReferential(db, ops);
    NoForeign(Run(db, ops), e);
    Conservation(Run(db, ops), e, zones);
  }

  /** The zone rows of a result, in their order. */
  function ZoneCounts(rows: seq<Row>): seq<ZoneCount> {
    if rows == [] then []
    else
      var init, last := ZoneCounts(rows[..|rows| - 1]), rows[|rows| - 1];
      if last.ZoneRow? then init + [ZoneCount(last.zone, last.name, last.count)] else init
  }

  lemma ZoneCountsAppend(rows: seq<Row>, row: Row)
    ensures ZoneCounts(rows + [row]) ==
            ZoneCounts(rows) + if row.ZoneRow? then [ZoneCount(row.zone, row.name, row.count)] else []
  {
    assert (rows + [row])[..|rows|] == rows;
    assert ZoneCounts(rows) + [] == ZoneCounts(rows);
  }

  /** The row loop, on any rows in any order. */
  method ReadRows(rows: seq<Row>) returns (total: nat, checkedIn: nat, zones: seq<ZoneCount>, unattributed: nat)
    ensures zones == ZoneCounts(rows)
    ensures (exists row :: row in rows && row.UnattributedRow?) ==> UnattributedRow(unattributed) in rows
    ensures (exists row :: row in rows && row.TotalsRow?) ==> TotalsRow(checkedIn, total) in rows
  {
    total, checkedIn, zones, unattributed := 0, 0, [], 0;
    var n := 0;
    while n < |rows|
      invariant 0 <= n <= |rows| && zones == ZoneCounts(rows[..n])
      invariant (exists i :: 0 <= i < n && rows[i].UnattributedRow?) ==> UnattributedRow(unattributed) in rows
      invariant (exists i :: 0 <= i < n && rows[i].TotalsRow?) ==> TotalsRow(checkedIn, total) in rows
    {
      assert rows[..n + 1] == rows[..n] + [rows[n]];
      ZoneCountsAppend(rows[..n], rows[n]);
      match rows[n] {
        case ZoneRow(z, name, count) => zones := zones + [ZoneCount(z, name, count)];
        case UnattributedRow(count) => unattributed := count;
        case TotalsRow(c, t) => checkedIn, total := c, t;
      }
      n := n + 1;
    }
    assert rows[..n] == rows;
  }

  /** `row` is the row behind a listed count. */
  predicate Behind(row: Row, zone: ZoneCount) {
    row == ZoneRow(zone.zone, zone.name, zone.checkedIn)
  }

  /** Where the zone row at position i of a result ends up in the list. */
  lemma {:induction false} ZoneAt(rows: seq<Row>, i: nat) returns (k: nat)
    requires i < |rows| && rows[i].ZoneRow?
    ensures k < |ZoneCounts(rows)| && Behind(rows[i], ZoneCounts(rows)[k])
    decreases |rows|
  {
    var n := |rows| - 1;
    if i == n {
      k := |ZoneCounts(rows[..n])|;
    } else {
      k := ZoneAt(rows[..n], i);
    }
  }

  /** Which row of a result a listed count comes from; a later count comes from a later row. */
  lemma {:induction false} RowOf(rows: seq<Row>, k: nat) returns (i: nat)
    requires k < |ZoneCounts(rows)|
    ensures i < |rows| && Behind(rows[i], ZoneCounts(rows)[k])
    decreases |rows|
  {
    var n := |rows| - 1;
    if k < |ZoneCounts(rows[..n])| {
      i := RowOf(rows[..n], k);
    } else {
      i := n;
    }
  }

  lemma {:induction false} RowsOf(rows: seq<Row>, k: nat, l: nat) returns (i: nat, j: nat)
    requires k < l < |ZoneCounts(rows)|
    ensures i < j < |rows| && Behind(rows[i], ZoneCounts(rows)[k]) && Behind(rows[j], ZoneCounts(rows)[l])
    decreases |rows|
  {
    var n := |rows| - 1;
    if l < |ZoneCounts(rows[..n])| {
      i, j := RowsOf(rows[..n], k, l);
    } else {
      i := RowOf(rows[..n], k);
      j := n;
    }
  }

  /** Zones under their own names, in order_index order with the unordered ones last. */
  ghost predicate InOrder(db: Db, zones: seq<ZoneCount>) {
    && (forall i :: 0 <= i < |zones| ==> zones[i].zone in db.zones && zones[i].name == db.zones[zones[i].zone].name)
    && (forall i, j :: 0 <= i < j < |zones| ==>
          var x, y := db.zones[zones[i].zone].order, db.zones[zones[j].zone].order;
          y.Some? ==> x.Some? && x.value <= y.value)
  }

  lemma ZoneRowsList(db: Db, e: EventId, rows: seq<Row>)
    requires IsResult(db, e, rows)
    ensures Lists(db, e, ZoneCounts(rows)) && InOrder(db, ZoneCounts(rows))
  {
    var zones := ZoneCounts(rows);
    forall k | 0 <= k < |zones|
      ensures zones[k].zone in db.zones && db.zones[zones[k].zone].event == e
      ensures zones[k].name == db.zones[zones[k].zone].name
      ensures zones[k].checkedIn == |ZoneMembers(db, e, zones[k].zone)|
    {
      var i := RowOf(rows, k);
      assert ZoneRowOk(db, e, rows[i]);
    }
    forall k, l | 0 <= k < l < |zones|
      ensures zones[k].zone != zones[l].zone
      ensures KeyAtMost(db.zones[zones[k].zone].order, db.zones[zones[l].zone].order)
    {
      var i, j := RowsOf(rows, k, l);
      assert KeyAtMost(SortKey(db, rows[i]), SortKey(db, rows[j]));
    }
    forall z | z in db.zones && db.zones[z].event == e
      ensures exists k :: 0 <= k < |zones| && zones[k].zone == z
    {
      var i :| 0 <= i < |rows| && rows[i].ZoneRow? && rows[i].zone == z;
      var k := ZoneAt(rows, i);
    }
  }

  predicate CheckedInNow(db: Db, e: EventId, a: AttendeeId)
    requires a in db.attendees
  {
    db.attendees[a].event == e && db.attendees[a].status && !db.attendees[a].deleted
  }

  ghost predicate PlacedIn(db: Db, e: EventId, a: AttendeeId, z: ZoneId)
    requires a in db.attendees
  {
    exists row :: Places(db, e, a, row, z)
  }

  ghost predicate Unplaced(db: Db, e: EventId, a: AttendeeId)
    requires a in db.attendees
  {
    forall z: ZoneId :: !PlacedIn(db, e, a, z)
  }

  lemma NumbersByColumns(db: Db, e: EventId)
    ensures Live(db, e) == set a | a in db.attendees && db.attendees[a].event == e && !db.attendees[a].deleted
    ensures CheckedIn(db, e) == set a | a in db.attendees && CheckedInNow(db, e, a)
    ensures KeyedFeed(db.feed) ==>
              && (forall z :: ZoneMembers(db, e, z) == set a | a in db.attendees && CheckedInNow(db, e, a) && PlacedIn(db, e, a, z))
              && Unattributed(db, e) ==
                 set a | a in db.attendees && CheckedInNow(db, e, a) && Unplaced(db, e, a)
  {
    if KeyedFeed(db.feed) {
      forall a: AttendeeId, z: ZoneId | a in db.attendees
        ensures ZoneOf(db, e, a) == Some(z) <==> PlacedIn(db, e, a, z)
      {
        ZoneOfExactly(db, e, a, z);
      }
    }
  }

  /** GetMonitorOverview, on any result of the query. */
  method GetMonitorOverview(ghost db: Db, e: EventId, rows: seq<Row>)
    returns (total: nat, checkedIn: nat, zones: seq<ZoneCount>, unattributed: nat)
    requires Referential(db) && IsResult(db, e, rows)
    ensures total == |Live(db, e)| && checkedIn == |CheckedIn(db, e)|
    ensures unattributed == |Unattributed(db, e)|
    ensures Lists(db, e, zones) && InOrder(db, zones)
    ensures Sum(zones) + unattributed == checkedIn
    ensures total == |set a | a in db.attendees && db.attendees[a].event == e && !db.attendees[a].deleted|
    ensures checkedIn == |set a | a in db.attendees && CheckedInNow(db, e, a)|
    ensures KeyedFeed(db.feed) ==>
              && (forall zone :: zone in zones ==>
                    zone.checkedIn == |set a | a in db.attendees && CheckedInNow(db, e, a) && PlacedIn(db, e, a, zone.zone)|)
              && unattributed ==
                 |set a | a in db.attendees && CheckedInNow(db, e, a) && Unplaced(db, e, a)|
  {
    NumbersByColumns(db, e);
    total, checkedIn, zones, unattributed := ReadRows(rows);
    ZoneRowsList(db, e, rows);
    NoForeign(db, e);
    Conservation(db, e, zones);
  }
}
