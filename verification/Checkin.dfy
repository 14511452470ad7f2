/** The check-in tables and the transactions that change them.

    A value of `Db` is one committed state of the four tables the check-in engine
    works on.  An `Op` is one transaction (or single-statement write) of the store;
    `Apply` is its effect when it runs alone.  The three feed-writing transactions
    (`CheckIn`, `Undo`, `BatchCheckIn`) share one shape: a guarded UPDATE that hits
    (`Hits`) or misses, the row it writes (`Written`), and the feed row inserted in
    the same transaction (`Record`).
  */
module Checkin {
  import opened Options

  type AttendeeId = nat
  type EventId = nat
  type StationId = nat
  type ZoneId = nat
  type UserId = nat
  type ActionId = nat
  type Time = int

  /** The columns of `attendees` that the engine reads or writes. */
  datatype Attendee = Attendee(
    event: EventId,
    status: bool,
    at: Option<Time>,
    staff: Option<UserId>,
    device: Option<int>,
    point: Option<string>,
    blocked: bool,
    deleted: bool)

  datatype Kind = CheckinRow | UndoRow | ReprintRow

  /** A row of `checkin_actions`. */
  datatype Action = Action(
    id: ActionId,
    event: EventId,
    attendee: AttendeeId,
    station: Option<StationId>,
    kind: Kind,
    staff: Option<UserId>,
    at: Time)

  datatype Station = Station(event: EventId, name: string, zone: Option<ZoneId>)

  datatype Zone = Zone(event: EventId, name: string, order: Option<int>)

  datatype Db = Db(
    attendees: map<AttendeeId, Attendee>,
    stations: map<StationId, Station>,
    zones: map<ZoneId, Zone>,
    feed: seq<Action>)

  datatype Op =
    | CheckIn(event: EventId, attendee: AttendeeId, station: Option<StationId>, staff: UserId,
              point: string, now: Time, id: ActionId)
    | Undo(event: EventId, attendee: AttendeeId, station: Option<StationId>, staff: UserId,
           now: Time, id: ActionId)
    | BatchCheckIn(event: EventId, attendee: AttendeeId, staff: UserId, device: int,
                   pointName: Option<string>, itemAt: Time, id: ActionId)
    | FeedInsert(row: Action)
    | Transition(attendee: AttendeeId, target: bool, at: Option<Time>, staffUser: Option<UserId>)
    | Overwrite(attendee: AttendeeId, columns: Attendee)
    | CreateAttendee(attendee: AttendeeId, event: EventId, blocked: bool)
    | UpsertStation(event: EventId, name: string, zone: Option<ZoneId>, newId: StationId)
    | CreateZone(zone_: ZoneId, event: EventId, name: string, order: Option<int>)
    | DeleteZone(zone_: ZoneId)

  /** The transactions that flip a check-in status and append to the feed atomically. */
  predicate Writer(op: Op) {
    op.CheckIn? || op.Undo? || op.BatchCheckIn?
  }

  function Cleared(r: Attendee): Attendee {
    r.(status := false, at := None, staff := None, device := None, point := None)
  }

  /** Would the guarded UPDATE of `op` match a row of `db`? */
  predicate Hits(db: Db, op: Op)
    requires Writer(op)
  {
    && op.attendee in db.attendees
    && var r := db.attendees[op.attendee];
    && !r.deleted
    && match op {
         case CheckIn(e, _, _, _, _, _, _) => r.event == e && !r.status && !r.blocked
         case Undo(e, _, _, _, _, _) => r.event == e && r.status
         case BatchCheckIn(_, _, _, _, _, _, _) => !r.status
       }
  }

  /** The row the guarded UPDATE leaves behind. */
  function Written(op: Op, r: Attendee): Attendee
    requires Writer(op)
  {
    match op
    case CheckIn(_, _, _, staff, point, now, _) =>
      r.(status := true, at := Some(now), staff := Some(staff), device := None,
         point := if point == "" then None else Some(point))
    case Undo(_, _, _, _, _, _) => Cleared(r)
    case BatchCheckIn(_, _, staff, device, pointName, itemAt, _) =>
      r.(status := true, at := Some(itemAt), staff := Some(staff), device := Some(device), point := pointName)
  }

  /** The feed row inserted together with that UPDATE.  Both are stamped by the same
      transaction-stable now(), or by the item's own time for a batch check-in. */
  function Record(op: Op): Action
    requires Writer(op)
  {
    match op
    case CheckIn(e, a, station, staff, _, now, id) => Action(id, e, a, station, CheckinRow, Some(staff), now)
    case Undo(e, a, station, staff, now, id) => Action(id, e, a, station, UndoRow, Some(staff), now)
    case BatchCheckIn(e, a, staff, _, _, itemAt, id) => Action(id, e, a, None, CheckinRow, Some(staff), itemAt)
  }

  /** The composite foreign keys of `checkin_actions`. */
  predicate FeedOk(db: Db, row: Action) {
    && row.attendee in db.attendees
    && db.attendees[row.attendee].event == row.event
    && (row.station.Some? ==>
          row.station.value in db.stations && db.stations[row.station.value].event == row.event)
  }

  predicate Succeeds(db: Db, op: Op)
    requires Writer(op)
  {
    Hits(db, op) && FeedOk(db, Record(op))
  }

  function Commit(db: Db, op: Op): Db
    requires Writer(op) && Hits(db, op)
  {
    db.(attendees := db.attendees[op.attendee := Written(op, db.attendees[op.attendee])],
        feed := db.feed + [Record(op)])
  }

  /** `row` is the live row of attendee `a` of event `e`. */
  predicate LiveRow(db: Db, e: EventId, a: AttendeeId, row: Attendee) {
    a in db.attendees && db.attendees[a] == row && row.event == e && !row.deleted
  }

  /** A station may check the attendee in: live, in the event, not blocked and not checked in. */
  predicate FreeIn(db: Db, e: EventId, a: AttendeeId) {
    && a in db.attendees
    && db.attendees[a].event == e && !db.attendees[a].deleted
    && !db.attendees[a].blocked && !db.attendees[a].status
  }

  /** The state the guarded UPDATE of `op` is meant for, one kind of transaction at a time. */
  predicate Open(db: Db, op: Op)
    requires Writer(op)
  {
    match op
    case CheckIn(e, a, _, _, _, _, _) => FreeIn(db, e, a)
    case Undo(e, a, _, _, _, _) => a in db.attendees && LiveRow(db, e, a, db.attendees[a]) && db.attendees[a].status
    case BatchCheckIn(_, a, _, _, _, _, _) => a in db.attendees && !db.attendees[a].deleted && !db.attendees[a].status
  }

  /** A feed row may name a station only of its own event. */
  predicate StationIn(db: Db, e: EventId, station: Option<StationId>) {
    station.Some? ==> station.value in db.stations && db.stations[station.value].event == e
  }

  /** What a successful transaction changes, column by column: one attendee row, and one feed row. */
  predicate Enacts(before: Db, after: Db, op: Op)
    requires Writer(op)
  {
    && op.attendee in before.attendees
    && var was := before.attendees[op.attendee];
    && was.event == op.event && !was.deleted
    && match op
       case CheckIn(e, a, station, staff, point, now, id) =>
         && !was.status && !was.blocked && StationIn(before, e, station)
         && Rewrites(before, after, a,
                     Attendee(e, true, Some(now), Some(staff), None, if point == "" then None else Some(point), false, false),
                     Action(id, e, a, station, CheckinRow, Some(staff), now))
       case Undo(e, a, station, staff, now, id) =>
         && was.status && StationIn(before, e, station)
         && Rewrites(before, after, a, Attendee(e, false, None, None, None, None, was.blocked, false),
                     Action(id, e, a, station, UndoRow, Some(staff), now))
       case BatchCheckIn(e, a, staff, device, point, itemAt, id) =>
         && !was.status
         && Rewrites(before, after, a, Attendee(e, true, Some(itemAt), Some(staff), Some(device), point, was.blocked, false),
                     Action(id, e, a, None, CheckinRow, Some(staff), itemAt))
  }

  /** Attendee `a` has the row `row`, the feed ends in `action`, and nothing else has changed. */
  predicate Rewrites(before: Db, after: Db, a: AttendeeId, row: Attendee, action: Action) {
    && after.attendees == before.attendees[a := row]
    && after.feed == before.feed + [action]
    && after.stations == before.stations && after.zones == before.zones
  }

  /** The guard, the write and the feed row of each transaction are exactly these. */
  lemma CommitEnacts(db: Db, op: Op)
    requires Writer(op)
    ensures Hits(db, op) <==> Open(db, op)
    ensures Succeeds(db, op) <==> Open(db, op) && db.attendees[op.attendee].event == op.event
                                  && (op.BatchCheckIn? || StationIn(db, op.event, op.station))
    ensures Succeeds(db, op) ==> Enacts(db, Commit(db, op), op)
  {
  }

  /** The composite foreign key of `checkin_stations`. */
  predicate ZoneOk(db: Db, e: EventId, zone: Option<ZoneId>) {
    zone.Some? ==> zone.value in db.zones && db.zones[zone.value].event == e
  }

  /** The station already registered under (event, name), or the fresh id. */
  ghost function UpsertTarget(db: Db, e: EventId, name: string, newId: StationId): (s: StationId)
    ensures s in db.stations ==> s == newId || (db.stations[s].event == e && db.stations[s].name == name)
    ensures (exists k :: k in db.stations && db.stations[k].event == e && db.stations[k].name == name) ==>
              s in db.stations && db.stations[s].event == e && db.stations[s].name == name
  {
    if exists k :: k in db.stations && db.stations[k].event == e && db.stations[k].name == name
    then var k :| k in db.stations && db.stations[k].event == e && db.stations[k].name == name; k
    else newId
  }

  /** The effect of one committed transaction; one that is rejected or misses changes nothing. */
  ghost function Apply(db: Db, op: Op): Db {
    match op
    case CheckIn(_, _, _, _, _, _, _) => if Succeeds(db, op) then Commit(db, op) else db
    case Undo(_, _, _, _, _, _) => if Succeeds(db, op) then Commit(db, op) else db
    case BatchCheckIn(_, _, _, _, _, _, _) => if Succeeds(db, op) then Commit(db, op) else db
    case FeedInsert(row) => if FeedOk(db, row) then db.(feed := db.feed + [row]) else db
    case Transition(a, target, at, staffUser) =>
      if a !in db.attendees || db.attendees[a].deleted || db.attendees[a].status == target then db
      else if target then
        db.(attendees := db.attendees[a := db.attendees[a].(status := true, at := at, staff := staffUser)])
      else
        db.(attendees := db.attendees[a := db.attendees[a].(status := false, at := None, staff := None)])
    case Overwrite(a, columns) =>
      if a !in db.attendees then db
      else db.(attendees := db.attendees[a := columns.(event := db.attendees[a].event)])
    case CreateAttendee(a, e, blocked) =>
      if a in db.attendees then db
      else db.(attendees := db.attendees[a := Attendee(e, false, None, None, None, None, blocked, false)])
    case UpsertStation(e, name, zone, newId) =>
      var s := UpsertTarget(db, e, name, newId);
      if !ZoneOk(db, e, zone) || (s in db.stations && !(db.stations[s].event == e && db.stations[s].name == name))
      then db
      else db.(stations := db.stations[s := Station(e, name, zone)])
    case CreateZone(z, e, name, order) =>
      if z in db.zones then db else db.(zones := db.zones[z := Zone(e, name, order)])
    case DeleteZone(z) =>
      if z !in db.zones then db
      else db.(zones := db.zones - {z},
               stations := map s | s in db.stations ::
                 if db.stations[s].zone == Some(z) then db.stations[s].(zone := None) else db.stations[s])
  }

  /** The feed rows a transaction appends. */
  function Appended(db: Db, op: Op): seq<Action> {
    if Writer(op) && Succeeds(db, op) then [Record(op)]
    else if op.FeedInsert? && FeedOk(db, op.row) then [op.row]
    else []
  }

  lemma ApplyFeed(db: Db, op: Op)
    ensures Apply(db, op).feed == db.feed + Appended(db, op)
  {
  }

  ghost function Run(db: Db, ops: seq<Op>): Db
    decreases |ops|
  {
    if ops == [] then db else Apply(Run(db, ops[..|ops| - 1]), ops[|ops| - 1])
  }

  lemma {:induction false} RunAppend(db: Db, xs: seq<Op>, ys: seq<Op>)
    ensures Run(db, xs + ys) == Run(Run(db, xs), ys)
    decreases |ys|
  {
    if ys == [] {
      assert xs + ys == xs;
    } else {
      var zs := xs + ys;
      assert zs[..|zs| - 1] == xs + ys[..|ys| - 1];
      RunAppend(db, xs, ys[..|ys| - 1]);
    }
  }

  /** UNIQUE (event_id, name) of `checkin_stations` compares these two columns. */
  predicate SameKey(x: Station, y: Station) {
    x.event == y.event && x.name == y.name
  }

  /** A station's zone lies in its event, and (event, name) is unique. */
  ghost predicate StationsOk(db: Db) {
    && (forall s :: s in db.stations ==> ZoneOk(db, db.stations[s].event, db.stations[s].zone))
    && (forall s, t :: s in db.stations && t in db.stations && SameKey(db.stations[s], db.stations[t]) ==> s == t)
  }

  /** The rows the check-in engine's own foreign keys promise to keep consistent. */
  ghost predicate Referential(db: Db) {
    StationsOk(db) && forall i :: 0 <= i < |db.feed| ==> FeedOk(db, db.feed[i])
  }

  /** What no transaction ever takes away: attendees, stations and their events. */
  ghost predicate Extends(before: Db, after: Db) {
    && (forall a :: a in before.attendees ==> a in after.attendees && after.attendees[a].event == before.attendees[a].event)
    && (forall s :: s in before.stations ==> s in after.stations && after.stations[s].event == before.stations[s].event)
    && before.feed <= after.feed
  }

  lemma ApplyExtends(db: Db, op: Op)
    ensures Extends(db, Apply(db, op))
  {
  }

  /** A feed row stays consistent as long as nothing is taken away. */
  lemma FeedStaysOk(db: Db, db': Db, row: Action)
    requires Extends(db, db') && FeedOk(db, row)
    ensures FeedOk(db', row)
  {
  }

  lemma StationsStayOk(db: Db, op: Op)
    requires StationsOk(db)
    ensures StationsOk(Apply(db, op))
  {
  }

  /** One transaction keeps every cross-table reference inside its own event. */
  lemma ApplyReferential(db: Db, op: Op)
    requires Referential(db)
    ensures Referential(Apply(db, op))
  {
    var rows := Appended(db, op);
    ApplyExtends(db, op);
    ApplyFeed(db, op);
    StationsStayOk(db, op);
    forall i | 0 <= i < |db.feed + rows|
      ensures FeedOk(Apply(db, op), (db.feed + rows)[i])
    {
      if i < |db.feed| {
        FeedStaysOk(db, Apply(db, op), db.feed[i]);
      } else {
        FeedStaysOk(db, Apply(db, op), rows[i - |db.feed|]);
      }
    }
  }

  /** Over every run of transactions, legacy writers and overwrites included, a station's
      zone and an action's attendee and station stay in one event. */
  lemma {:induction false} RunReferential(db: Db, ops: seq<Op>)
    requires Referential(db)
    ensures Referential(Run(db, ops))
    decreases |ops|
  {
    if ops != [] {
      RunReferential(db, ops[..|ops| - 1]);
      ApplyReferential(Run(db, ops[..|ops| - 1]), ops[|ops| - 1]);
    }
  }
}
