/** The monitor's attribution refines the fact it has to reconstruct from history:
    which station performed an attendee's current check-in. */
module Attribution {
  import opened Checkin
  import opened CheckinHistory
  import opened Monitor
  import opened Options

  /** `op` is a successful writer transaction on `a`. */
  ghost predicate Writes(db: Db, op: Op, a: AttendeeId) {
    Writer(op) && op.attendee == a && Succeeds(db, op)
  }

  /** The station of a check-in; a batch item has none. */
  function StationOf(op: Op): Option<StationId> {
    if op.CheckIn? then op.station else None
  }

  /** The station that won `a`'s current check-in, read off the run itself; None for a
      check-in without a station. */
  ghost function Winner(db: Db, ops: seq<Op>, a: AttendeeId): Option<StationId>
    decreases |ops|
  {
    if ops == [] then None
    else
      var init, op := ops[..|ops| - 1], ops[|ops| - 1];
      if Writes(Run(db, init), op, a) then StationOf(op) else Winner(db, init, a)
  }

  /** The zone the monitor ought to show. */
  function ZoneOfStation(db: Db, s: Option<StationId>): Option<ZoneId> {
    if s.Some? && s.value in db.stations then db.stations[s.value].zone else None
  }

  /** All stamps of `a`'s own state rows lie before `clock`. */
  predicate RowsBefore(feed: seq<Action>, a: AttendeeId, clock: Time) {
    forall i :: 0 <= i < |feed| && feed[i].attendee == a && feed[i].kind != ReprintRow ==> feed[i].at < clock
  }

  /** A station transaction on `a` starts after every stamp in `a`'s history.  Batch items, and
      transactions on other attendees, may carry any stamp. */
  ghost predicate Timely(db: Db, op: Op, a: AttendeeId) {
    Writes(db, op, a) && !op.BatchCheckIn? ==> RowsBefore(db.feed, a, op.now)
  }

  ghost predicate TimelyRun(db: Db, ops: seq<Op>, a: AttendeeId) {
    forall k :: 0 <= k < |ops| ==> Timely(Run(db, ops[..k]), ops[k], a)
  }

  /** What the newest state row of `a` looks like after each commit. */
  ghost predicate Tracks(db: Db, w: Option<StationId>, a: AttendeeId) {
    a in db.attendees ==>
      var r, ls := db.attendees[a], Latest(db.feed, db.attendees[a].event, a);
      if r.status && w.Some? then
        ls.Some? && ls.value.kind == CheckinRow && ls.value.station == w && r.at == Some(ls.value.at)
      else if r.status then
        ls.None? || ls.value.kind == UndoRow || ls.value.station.None?
      else
        ls.None? || ls.value.kind == UndoRow
  }

  lemma StepTracks(db: Db, op: Op, w: Option<StationId>, a: AttendeeId)
    requires Referential(db) && Disciplined(db, op, a) && Timely(db, op, a) && Tracks(db, w, a)
    ensures Tracks(Apply(db, op), if Writes(db, op, a) then StationOf(op) else w, a)
  {
    if Writes(db, op, a) {
      LatestAppend(db.feed, Record(op), db.attendees[a].event, a);
    } else {
      QuietFacts(db, op, a);
      TracksCarried(db, Apply(db, op), w, a);
    }
  }

  lemma QuietLatest(db: Db, op: Op, a: AttendeeId, e: EventId)
    requires Referential(db) && Disciplined(db, op, a) && !Writes(db, op, a)
    ensures Latest(Apply(db, op).feed, e, a) == Latest(db.feed, e, a)
    ensures a !in db.attendees ==> Latest(db.feed, e, a).None?
  {
    ApplyFeed(db, op);
    LatestQuiet(db, op, a, e);
    if a !in db.attendees {
      NoStateRows(db, a, e);
    }
  }

  /** What a step that writes nothing of `a` leaves alone. */
  lemma QuietFacts(db: Db, op: Op, a: AttendeeId)
    requires Referential(db) && Disciplined(db, op, a) && !Writes(db, op, a)
    ensures Carried(db, Apply(db, op), a)
  {
    StepQuiet(db, op, a);
    ApplyExtends(db, op);
    forall e: EventId
      ensures Latest(Apply(db, op).feed, e, a) == Latest(db.feed, e, a)
      ensures a !in db.attendees ==> Latest(db.feed, e, a).None?
    {
      QuietLatest(db, op, a, e);
    }
  }

  ghost predicate Carried(db: Db, db': Db, a: AttendeeId) {
    && (a in db.attendees ==>
          a in db'.attendees
          && db'.attendees[a].event == db.attendees[a].event
          && db'.attendees[a].status == db.attendees[a].status
          && db'.attendees[a].at == db.attendees[a].at)
    && (a !in db.attendees && a in db'.attendees ==> !db'.attendees[a].status)
    && (forall e: EventId :: Latest(db'.feed, e, a) == Latest(db.feed, e, a))
    && (a !in db.attendees ==> forall e: EventId :: Latest(db.feed, e, a).None?)
  }

  lemma TracksCarried(db: Db, db': Db, w: Option<StationId>, a: AttendeeId)
    requires Carried(db, db', a) && Tracks(db, w, a)
    ensures Tracks(db', w, a)
  {
  }

  lemma LatestQuiet(db: Db, op: Op, a: AttendeeId, e: EventId)
    requires Disciplined(db, op, a)
    requires !Writes(db, op, a)
    ensures Latest(db.feed + Appended(db, op), e, a) == Latest(db.feed, e, a)
  {
    var rows := Appended(db, op);
    if rows == [] {
      assert db.feed + rows == db.feed;
    } else {
      LatestAppend(db.feed, rows[0], e, a);
      assert rows == [rows[0]];
    }
  }

  lemma NoStateRows(db: Db, a: AttendeeId, e: EventId)
    requires Referential(db) && a !in db.attendees
    ensures Latest(db.feed, e, a).None?
    ensures forall clock :: RowsBefore(db.feed, a, clock)
    ensures History(db.feed, a) == []
  {
    forall i | 0 <= i < |db.feed| ensures db.feed[i].attendee != a {
      assert FeedOk(db, db.feed[i]);
    }
    NoRows(db.feed, a);
  }

  lemma InitDisciplined(db: Db, ops: seq<Op>, a: AttendeeId)
    requires ops != [] && DisciplinedRun(db, ops, a)
    ensures DisciplinedRun(db, ops[..|ops| - 1], a)
    ensures Disciplined(Run(db, ops[..|ops| - 1]), ops[|ops| - 1], a)
  {
    var init := ops[..|ops| - 1];
    forall k | 0 <= k < |init|
      ensures Disciplined(Run(db, init[..k]), init[k], a)
    {
      assert init[..k] == ops[..k];
    }
  }

  lemma InitTimely(db: Db, ops: seq<Op>, a: AttendeeId)
    requires ops != [] && TimelyRun(db, ops, a)
    ensures TimelyRun(db, ops[..|ops| - 1], a)
    ensures Timely(Run(db, ops[..|ops| - 1]), ops[|ops| - 1], a)
  {
    var init := ops[..|ops| - 1];
    forall k | 0 <= k < |init|
      ensures Timely(Run(db, init[..k]), init[k], a)
    {
      assert init[..k] == ops[..k];
    }
  }

  lemma {:induction false} RunTracks(db: Db, ops: seq<Op>, a: AttendeeId)
    requires Referential(db) && a !in db.attendees
    requires TimelyRun(db, ops, a) && DisciplinedRun(db, ops, a)
    ensures Tracks(Run(db, ops), Winner(db, ops, a), a)
    decreases |ops|
  {
    if ops != [] {
      var init, last := ops[..|ops| - 1], ops[|ops| - 1];
      InitDisciplined(db, ops, a);
      InitTimely(db, ops, a);
      RunReferential(db, init);
      RunTracks(db, init, a);
      StepTracks(Run(db, init), last, Winner(db, init, a), a);
    }
  }

  /** Over every run of station check-ins, undos, batch check-ins, reprints, registrations
      and zone changes in which each station transaction on `a` starts after what it follows,
      the monitor places the checked-in `a` in the current zone of the station that won the
      current check-in, and in unattributed exactly when that check-in had no station or its
      station has no zone. */
  lemma RunAttribution(db: Db, ops: seq<Op>, a: AttendeeId)
    requires Referential(db) && a !in db.attendees
    requires TimelyRun(db, ops, a) && DisciplinedRun(db, ops, a)
    ensures var end := Run(db, ops);
            a in end.attendees && end.attendees[a].status ==>
              ZoneOf(end, end.attendees[a].event, a) == ZoneOfStation(end, Winner(db, ops, a))
  {
    RunTracks(db, ops, a);
    RunReferential(db, ops);
  }

  /** A transaction together with a server time at which it commits. */
  datatype Event = Event(op: Op, time: Time)

  function Ops(events: seq<Event>): (ops: seq<Op>)
    ensures |ops| == |events|
    ensures forall i :: 0 <= i < |events| ==> ops[i] == events[i].op
  {
    seq(|events|, i requires 0 <= i < |events| => events[i].op)
  }

  /** A writer transaction that names `a`. */
  predicate Concerns(op: Op, a: AttendeeId) {
    Writer(op) && op.attendee == a
  }

  /** Station transactions are stamped with the commit-ordered clock; a batch item's own
      time is not ahead of it. */
  predicate Stamped(event: Event)
    requires Writer(event.op)
  {
    if event.op.BatchCheckIn? then event.op.itemAt <= event.time else event.op.now == event.time
  }

  /** The transactions on `a` are stamped, at times that grow in commit order. */
  predicate WellTimed(events: seq<Event>, a: AttendeeId) {
    && (forall i :: 0 <= i < |events| && Concerns(events[i].op, a) ==> Stamped(events[i]))
    && (forall i, j :: 0 <= i < j < |events| && Concerns(events[i].op, a) && Concerns(events[j].op, a) ==>
          events[i].time < events[j].time)
  }

  lemma StampStep(db: Db, op: Op, a: AttendeeId, clock: Time)
    requires RowsBefore(db.feed, a, clock) && Disciplined(db, op, a)
    requires Writes(db, op, a) ==> Record(op).at < clock
    ensures RowsBefore(Apply(db, op).feed, a, clock)
  {
    ApplyFeed(db, op);
    var rows := Appended(db, op);
    assert forall i :: 0 <= i < |rows| ==> rows[i].attendee != a || rows[i].kind == ReprintRow || rows[i].at < clock;
  }

  lemma {:induction false} RowsStayBefore(db: Db, ops: seq<Op>, a: AttendeeId, clock: Time)
    requires RowsBefore(db.feed, a, clock) && DisciplinedRun(db, ops, a)
    requires forall i :: 0 <= i < |ops| && Concerns(ops[i], a) ==> Record(ops[i]).at < clock
    ensures RowsBefore(Run(db, ops).feed, a, clock)
    decreases |ops|
  {
    if ops != [] {
      var init, last := ops[..|ops| - 1], ops[|ops| - 1];
      InitDisciplined(db, ops, a);
      RowsStayBefore(db, init, a, clock);
      StampStep(Run(db, init), last, a, clock);
    }
  }

  lemma StampsBound(db: Db, events: seq<Event>, a: AttendeeId, clock: Time)
    requires RowsBefore(db.feed, a, clock) && DisciplinedRun(db, Ops(events), a)
    requires forall i :: 0 <= i < |events| && Concerns(events[i].op, a) ==> Stamped(events[i]) && events[i].time < clock
    ensures RowsBefore(Run(db, Ops(events)).feed, a, clock)
  {
    var ops := Ops(events);
    forall i | 0 <= i < |ops| && Concerns(ops[i], a)
      ensures Record(ops[i]).at < clock
    {
      assert Stamped(events[i]);
    }
    RowsStayBefore(db, ops, a, clock);
  }

  /** In particular the transactions start in time when their stamps grow in commit order. */
  lemma WellTimedIsTimely(db: Db, events: seq<Event>, a: AttendeeId)
    requires Referential(db) && a !in db.attendees
    requires WellTimed(events, a) && DisciplinedRun(db, Ops(events), a)
    ensures TimelyRun(db, Ops(events), a)
  {
    var ops := Ops(events);
    NoStateRows(db, a, 0);
    forall k | 0 <= k < |ops| && Concerns(ops[k], a)
      ensures Timely(Run(db, ops[..k]), ops[k], a)
    {
      assert ops[..k] == Ops(events[..k]);
      forall i | 0 <= i < k
        ensures Disciplined(Run(db, ops[..k][..i]), ops[..k][i], a)
      {
        assert ops[..k][..i] == ops[..i];
      }
      StampsBound(db, events[..k], a, events[k].time);
    }
  }

  /** The zone the query gives an attendee checked in at `since` whose newest row is `row`. */
  function Shown(db: Db, row: Action, since: Time): Option<ZoneId> {
    if row.kind == CheckinRow && row.at >= since then ZoneOfStation(db, row.station) else None
  }

  /** One winning check-in of any kind, after any history with any stamps: the monitor shows
      the zone of its station (none for a batch item) if and only if its feed row is the newest,
      or the newer row happens to show that same zone. */
  lemma CheckInAttributedExactly(db: Db, op: Op)
    requires Referential(db) && (op.CheckIn? || op.BatchCheckIn?) && Succeeds(db, op)
    ensures var prev := Latest(db.feed, op.event, op.attendee);
            ZoneOf(Commit(db, op), op.event, op.attendee) == ZoneOfStation(db, StationOf(op)) <==>
              || prev.None?
              || Newer(Record(op), prev.value)
              || Shown(db, prev.value, Record(op).at) == ZoneOfStation(db, StationOf(op))
  {
    LatestAppend(db.feed, Record(op), op.event, op.attendee);
  }

  /** While `a` is checked in, the last row of its history is the winner's. */
  ghost predicate LastIsWinner(db: Db, w: Option<StationId>, a: AttendeeId) {
    a in db.attendees && db.attendees[a].status ==>
      var h, r := History(db.feed, a), db.attendees[a];
      && h != []
      && h[|h| - 1] in db.feed
      && h[|h| - 1].station == w
      && r.at == Some(h[|h| - 1].at)
      && StateRow(h[|h| - 1], r.event, a)
      && h[|h| - 1].kind == CheckinRow
  }

  lemma StepLastIsWinner(db: Db, op: Op, w: Option<StationId>, a: AttendeeId)
    requires Referential(db) && Disciplined(db, op, a) && LastIsWinner(db, w, a)
    ensures LastIsWinner(Apply(db, op), if Writes(db, op, a) then StationOf(op) else w, a)
  {
    if Writes(db, op, a) {
      WriteLastIsWinner(db, op, a);
    } else {
      QuietLastIsWinner(db, op, w, a);
    }
  }

  lemma WriteLastIsWinner(db: Db, op: Op, a: AttendeeId)
    requires Writes(db, op, a)
    ensures LastIsWinner(Apply(db, op), StationOf(op), a)
  {
    var after, row := Commit(db, op), Record(op);
    assert Apply(db, op) == after;
    HistoryAppend(db.feed, row, a);
    assert after.feed[|db.feed|] == row && History(after.feed, a) == History(db.feed, a) + [row];
  }

  lemma QuietLastIsWinner(db: Db, op: Op, w: Option<StationId>, a: AttendeeId)
    requires Referential(db) && Disciplined(db, op, a) && LastIsWinner(db, w, a) && !Writes(db, op, a)
    ensures LastIsWinner(Apply(db, op), w, a)
  {
    ApplyExtends(db, op);
    StepQuiet(db, op, a);
  }

  lemma {:induction false} RunLastIsWinner(db: Db, ops: seq<Op>, a: AttendeeId)
    requires Referential(db) && a !in db.attendees && DisciplinedRun(db, ops, a)
    ensures LastIsWinner(Run(db, ops), Winner(db, ops, a), a)
    decreases |ops|
  {
    if ops != [] {
      var init, last := ops[..|ops| - 1], ops[|ops| - 1];
      InitDisciplined(db, ops, a);
      RunReferential(db, init);
      RunLastIsWinner(db, init, a);
      StepLastIsWinner(Run(db, init), last, Winner(db, init, a), a);
    }
  }

  /** Over every run, with any stamps: the monitor is right about a checked-in attendee if and
      only if the row of the winning check-in, the last of its history, is also the newest state
      row; or the newest is an undo and no zone is due; or it is a check-in at a station that is
      now in the same zone. */
  lemma RunAttributedExactly(db: Db, ops: seq<Op>, a: AttendeeId)
    requires Referential(db) && a !in db.attendees && DisciplinedRun(db, ops, a)
    ensures var end, w := Run(db, ops), Winner(db, ops, a);
            a in end.attendees && end.attendees[a].status ==>
              var h := History(end.feed, a);
              var newest := Latest(end.feed, end.attendees[a].event, a);
              && h != [] && h[|h| - 1].kind == CheckinRow && h[|h| - 1].station == w
              && newest.Some? && Newer(newest.value, h[|h| - 1])
              && (ZoneOf(end, end.attendees[a].event, a) == ZoneOfStation(end, w) <==>
                    || newest.value == h[|h| - 1]
                    || (newest.value.kind == UndoRow && ZoneOfStation(end, w) == None)
                    || (newest.value.kind == CheckinRow
                        && ZoneOfStation(end, newest.value.station) == ZoneOfStation(end, w)))
  {
    RunLastIsWinner(db, ops, a);
    RunReferential(db, ops);
  }

  /** A database with one event, two zones with a station each, and one attendee. */
  function Venue(): Db {
    Db(map[0 := Attendee(0, false, None, None, None, None, false, false)],
       map[1 := Station(0, "A", Some(1)), 2 := Station(0, "B", Some(2))],
       map[1 := Zone(0, "hall", Some(0)), 2 := Zone(0, "yard", Some(1))],
       [])
  }

  /** Stamps are transaction start times: a check-in that started before an undo but commits
      after it is attributed to nobody, although station 2 won it. */
  lemma StartOrderMisattributes()
    ensures var ops := [CheckIn(0, 0, Some(1), 7, "A", 1, 10), Undo(0, 0, Some(1), 7, 3, 11),
                        CheckIn(0, 0, Some(2), 7, "B", 2, 12)];
            var end := Run(Venue(), ops);
            && 0 in end.attendees && end.attendees[0].status
            && Winner(Venue(), ops, 0) == Some(2)
            && ZoneOfStation(end, Some(2)) == Some(2)
            && ZoneOf(end, 0, 0) == None
  {
    MisplacedRun(CheckIn(0, 0, Some(1), 7, "A", 1, 10), Undo(0, 0, Some(1), 7, 3, 11),
                 CheckIn(0, 0, Some(2), 7, "B", 2, 12));
  }

  /** A batch item stamped ahead of the clock hides the station check-in that follows it. */
  lemma FutureBatchMisattributes()
    ensures var ops := [BatchCheckIn(0, 0, 7, 3, None, 100, 10), Undo(0, 0, Some(1), 7, 3, 11),
                        CheckIn(0, 0, Some(2), 7, "B", 4, 12)];
            var end := Run(Venue(), ops);
            && 0 in end.attendees && end.attendees[0].status
            && Winner(Venue(), ops, 0) == Some(2)
            && ZoneOfStation(end, Some(2)) == Some(2)
            && ZoneOf(end, 0, 0) == None
  {
    MisplacedRun(BatchCheckIn(0, 0, 7, 3, None, 100, 10), Undo(0, 0, Some(1), 7, 3, 11),
                 CheckIn(0, 0, Some(2), 7, "B", 4, 12));
  }

  /** An offline check-in older than the history it follows: nobody's zone is due, but the
      monitor still shows the zone of the first check-in, which an undo that started before it
      has long taken back. */
  lemma OldBatchMisattributes()
    ensures var ops := [CheckIn(0, 0, Some(1), 7, "A", 10, 10), Undo(0, 0, Some(1), 7, 8, 11),
                        BatchCheckIn(0, 0, 7, 3, None, 5, 12)];
            var end := Run(Venue(), ops);
            && 0 in end.attendees && end.attendees[0].status
            && Winner(Venue(), ops, 0) == None
            && ZoneOf(end, 0, 0) == Some(1)
  {
    var x, y, c := CheckIn(0, 0, Some(1), 7, "A", 10, 10), Undo(0, 0, Some(1), 7, 8, 11),
                   BatchCheckIn(0, 0, 7, 3, None, 5, 12);
    EndOfThree(x, y, c);
    LatestAppend([], Record(x), 0, 0);
    LatestAppend([] + [Record(x)], Record(y), 0, 0);
    LatestAppend([] + [Record(x)] + [Record(y)], Record(c), 0, 0);
    assert [] + [Record(x)] + [Record(y)] + [Record(c)] == [Record(x), Record(y), Record(c)];
  }

  /** A check-in, an undo and another check-in of the one attendee all commit. */
  lemma EndOfThree(x: Op, y: Op, c: Op)
    requires (x.CheckIn? && x.station == Some(1)) || x.BatchCheckIn?
    requires y.Undo? && y.station == Some(1)
    requires (c.CheckIn? && c.station == Some(2)) || c.BatchCheckIn?
    requires x.attendee == y.attendee == c.attendee == 0 && x.event == y.event == c.event == 0
    ensures var end := Run(Venue(), [x, y, c]);
            && end == Commit(Commit(Commit(Venue(), x), y), c)
            && end.feed == [Record(x), Record(y), Record(c)]
            && Winner(Venue(), [x, y, c], 0) == StationOf(c)
  {
    var v := Venue();
    var v1 := Commit(v, x);
    var v2 := Commit(v1, y);
    RunThree(v, x, y, c);
    assert Apply(v, x) == v1 && Apply(v1, y) == v2 && Apply(v2, c) == Commit(v2, c);
  }

  lemma MisplacedRun(x: Op, y: Op, c: Op)
    requires y.Undo? && y.station == Some(1) && c.CheckIn? && c.station == Some(2)
    requires x.BatchCheckIn? || (x.CheckIn? && x.station == Some(1) && x.now < y.now && c.now < y.now)
    requires x.attendee == y.attendee == c.attendee == 0 && x.event == y.event == c.event == 0
    requires x.BatchCheckIn? ==> c.now < x.itemAt
    ensures var end := Run(Venue(), [x, y, c]);
            && 0 in end.attendees && end.attendees[0].status
            && Winner(Venue(), [x, y, c], 0) == Some(2)
            && ZoneOfStation(end, Some(2)) == Some(2)
            && ZoneOf(end, 0, 0) == None
  {
    EndOfThree(x, y, c);
    LatestOfThree(Record(x), Record(y), Record(c));
  }

  lemma RunThree(db: Db, x: Op, y: Op, c: Op)
    requires Writer(c)
    ensures Run(db, [x, y, c]) == Apply(Apply(Apply(db, x), y), c)
    ensures Succeeds(Apply(Apply(db, x), y), c) ==>
              Winner(db, [x, y, c], c.attendee) == StationOf(c)
  {
    assert [x, y, c][..2] == [x, y] && [x, y][..1] == [x] && [x][..0] == [];
    assert Run(db, []) == db;
    assert Run(db, [x]) == Apply(db, x);
    assert Run(db, [x, y]) == Apply(Apply(db, x), y);
  }

  lemma LatestOfThree(x: Action, y: Action, c: Action)
    requires StateRow(x, 0, 0) && StateRow(y, 0, 0) && StateRow(c, 0, 0)
    requires y.kind == UndoRow
    requires if x.station.None? then c.at < x.at else x.at < y.at && c.at < y.at
    ensures var ls := Latest([x, y, c], 0, 0);
            ls.Some? && (ls.value.kind == UndoRow || ls.value.station.None?)
  {
    LatestAppend([], x, 0, 0);
    LatestAppend([] + [x], y, 0, 0);
    LatestAppend([] + [x] + [y], c, 0, 0);
    assert [] + [x] + [y] + [c] == [x, y, c];
  }
}
