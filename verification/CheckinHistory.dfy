/** What the feed says about one attendee over every run of transactions. */
module CheckinHistory {
  import opened Checkin
  import opened Options

  /** The state-changing feed rows of attendee `a`, in commit order. */
  ghost function History(feed: seq<Action>, a: AttendeeId): (h: seq<Action>)
    ensures |h| <= |feed|
  {
    if feed == [] then []
    else
      var last := feed[|feed| - 1];
      History(feed[..|feed| - 1], a) +
      (if last.attendee == a && last.kind != ReprintRow then [last] else [])
  }

  lemma HistoryAppend(feed: seq<Action>, row: Action, a: AttendeeId)
    ensures History(feed + [row], a) ==
            History(feed, a) + (if row.attendee == a && row.kind != ReprintRow then [row] else [])
  {
    assert (feed + [row])[..|feed|] == feed;
  }

  ghost predicate Alternates(rows: seq<Action>) {
    forall i :: 0 <= i < |rows| ==> rows[i].kind == if i % 2 == 0 then CheckinRow else UndoRow
  }

  lemma AlternatesAppend(rows: seq<Action>, row: Action)
    requires Alternates(rows) && row.kind == if |rows| % 2 == 0 then CheckinRow else UndoRow
    ensures Alternates(rows + [row])
  {
  }

  function Count(rows: seq<Action>, kind: Kind): nat {
    if rows == [] then 0
    else Count(rows[..|rows| - 1], kind) + if rows[|rows| - 1].kind == kind then 1 else 0
  }

  /** Two rows of the same attendee describe the same first scan. */
  predicate SameScan(r: Attendee, q: Attendee) {
    r.at == q.at && r.staff == q.staff && r.device == q.device && r.point == q.point
  }

  /** The feed and the row of `a` tell the same story. */
  ghost predicate Balanced(db: Db, a: AttendeeId) {
    var h := History(db.feed, a);
    if a !in db.attendees then h == []
    else
      var r := db.attendees[a];
      && Alternates(h)
      && (r.status <==> |h| % 2 == 1)
      && (r.status ==> r.at == Some(h[|h| - 1].at) && r.staff == h[|h| - 1].staff)
      && (!r.status ==> r == Cleared(r))
  }

  /** An attendee that does not exist yet has no rows, so its story starts balanced. */
  lemma UnknownBalanced(db: Db, a: AttendeeId)
    requires Referential(db) && a !in db.attendees
    ensures Balanced(db, a)
  {
    NoRows(db.feed, a);
  }

  lemma {:induction false} NoRows(feed: seq<Action>, a: AttendeeId)
    requires forall i :: 0 <= i < |feed| ==> feed[i].attendee != a
    ensures History(feed, a) == []
    decreases |feed|
  {
    if feed != [] {
      NoRows(feed[..|feed| - 1], a);
    }
  }

  /** `op` leaves the check-in columns of `a` to the three feed-writing transactions:
      a full-row overwrite of `a` must write back the check-in columns it finds. */
  ghost predicate Disciplined(db: Db, op: Op, a: AttendeeId) {
    match op
    case FeedInsert(row) => row.attendee != a || row.kind == ReprintRow
    case Transition(b, _, _, _) => b != a
    case Overwrite(b, columns) =>
      b != a || a !in db.attendees
      || (columns.status == db.attendees[a].status && SameScan(columns, db.attendees[a]))
    case _ => true
  }

  ghost predicate DisciplinedRun(db: Db, ops: seq<Op>, a: AttendeeId) {
    forall k :: 0 <= k < |ops| ==> Disciplined(Run(db, ops[..k]), ops[k], a)
  }

  lemma QuietHistory(db: Db, op: Op, a: AttendeeId)
    requires Disciplined(db, op, a)
    requires Writer(op) ==> op.attendee != a || !Succeeds(db, op)
    ensures History(Apply(db, op).feed, a) == History(db.feed, a)
  {
    ApplyFeed(db, op);
    var rows := Appended(db, op);
    if rows == [] {
      assert db.feed + rows == db.feed;
    } else {
      HistoryAppend(db.feed, rows[0], a);
    }
  }

  /** `a`'s own feed rows and check-in columns before and after a step that is not a
      successful writer transaction on `a`. */
  lemma StepQuiet(db: Db, op: Op, a: AttendeeId)
    requires Disciplined(db, op, a)
    requires Writer(op) ==> op.attendee != a || !Succeeds(db, op)
    ensures History(Apply(db, op).feed, a) == History(db.feed, a)
    ensures a in db.attendees ==>
              var r, q := db.attendees[a], Apply(db, op).attendees[a];
              q.status == r.status && SameScan(q, r)
    ensures a !in db.attendees && a in Apply(db, op).attendees ==>
              Apply(db, op).attendees[a] == Cleared(Apply(db, op).attendees[a])
  {
    QuietHistory(db, op, a);
  }

  /** A successful writer transaction on `a` appends the one row that keeps the alternation. */
  lemma StepWrites(db: Db, op: Op, a: AttendeeId)
    requires Balanced(db, a) && Writer(op) && op.attendee == a && Succeeds(db, op)
    ensures Balanced(Commit(db, op), a)
  {
    var h, row := History(db.feed, a), Record(op);
    HistoryAppend(db.feed, row, a);
    assert row.kind == CheckinRow <==> !db.attendees[a].status;
    AlternatesAppend(h, row);
    assert History(Commit(db, op).feed, a) == h + [row] && (h + [row])[|h|] == row;
  }

  lemma StepBalanced(db: Db, op: Op, a: AttendeeId)
    requires Balanced(db, a) && Disciplined(db, op, a)
    ensures Balanced(Apply(db, op), a)
  {
    if Writer(op) && op.attendee == a && Succeeds(db, op) {
      StepWrites(db, op, a);
    } else {
      StepQuiet(db, op, a);
      ApplyExtends(db, op);
    }
  }

  /** Over every disciplined run the rows of `a` alternate, starting with a check-in; the
      last one is a check-in exactly while the row says checked in, and then it carries the
      row's own time and staff member; and all four check-in columns are clear otherwise. */
  lemma {:induction false} RunBalanced(db: Db, ops: seq<Op>, a: AttendeeId)
    requires Balanced(db, a) && DisciplinedRun(db, ops, a)
    ensures Balanced(Run(db, ops), a)
    decreases |ops|
  {
    if ops != [] {
      var init := ops[..|ops| - 1];
      forall k | 0 <= k < |init| ensures Disciplined(Run(db, init[..k]), init[k], a) {
        assert init[..k] == ops[..k];
      }
      RunBalanced(db, init, a);
      StepBalanced(Run(db, init), ops[|ops| - 1], a);
    }
  }

  lemma {:induction false} AlternatingCount(rows: seq<Action>)
    requires Alternates(rows)
    ensures Count(rows, CheckinRow) - Count(rows, UndoRow) == |rows| % 2
    decreases |rows|
  {
    if rows != [] {
      AlternatingCount(rows[..|rows| - 1]);
    }
  }

  /** #checkin - #undo is 1 for a checked-in attendee and 0 otherwise, whatever the run. */
  lemma RunBalance(db: Db, ops: seq<Op>, a: AttendeeId)
    requires Balanced(db, a) && DisciplinedRun(db, ops, a)
    ensures var end := Run(db, ops);
            a in end.attendees ==>
              Count(History(end.feed, a), CheckinRow) - Count(History(end.feed, a), UndoRow)
              == if end.attendees[a].status then 1 else 0
  {
    RunBalanced(db, ops, a);
    if a in Run(db, ops).attendees {
      AlternatingCount(History(Run(db, ops).feed, a));
    }
  }

  lemma FirstScanStep(db: Db, op: Op, a: AttendeeId)
    requires Disciplined(db, op, a)
    requires a in db.attendees && db.attendees[a].status
    requires a in Apply(db, op).attendees && Apply(db, op).attendees[a].status
    ensures SameScan(db.attendees[a], Apply(db, op).attendees[a])
  {
    if Writer(op) && op.attendee == a && Succeeds(db, op) {
    } else {
      StepQuiet(db, op, a);
    }
  }

  /** First-scan metadata never changes while the attendee stays checked in. */
  lemma {:induction false} FirstScanKept(db: Db, ops: seq<Op>, a: AttendeeId)
    requires DisciplinedRun(db, ops, a)
    requires forall k :: 0 <= k <= |ops| ==>
               a in Run(db, ops[..k]).attendees && Run(db, ops[..k]).attendees[a].status
    ensures a in db.attendees && a in Run(db, ops).attendees
    ensures SameScan(db.attendees[a], Run(db, ops).attendees[a])
    decreases |ops|
  {
    assert ops[..0] == [] && ops[..|ops|] == ops;
    if ops != [] {
      var init := ops[..|ops| - 1];
      forall k | 0 <= k <= |init|
        ensures a in Run(db, init[..k]).attendees && Run(db, init[..k]).attendees[a].status
        ensures k < |init| ==> Disciplined(Run(db, init[..k]), init[k], a)
      {
        assert init[..k] == ops[..k];
      }
      FirstScanKept(db, init, a);
      FirstScanStep(Run(db, init), ops[|ops| - 1], a);
    }
  }

  lemma StaysUntil(db: Db, ops: seq<Op>, a: AttendeeId, k: nat)
    requires k < |ops| && DisciplinedRun(db, ops, a)
    requires a in Run(db, ops[..k]).attendees && Run(db, ops[..k]).attendees[a].status
    requires !UndoneBy(Run(db, ops[..k]), ops[k], a)
    ensures a in Run(db, ops[..k + 1]).attendees && Run(db, ops[..k + 1]).attendees[a].status
  {
    assert ops[..k + 1][..k] == ops[..k];
    StaysCheckedIn(Run(db, ops[..k]), ops[k], a);
  }

  lemma {:induction false} RemainsCheckedIn(db: Db, ops: seq<Op>, a: AttendeeId, i: nat, j: nat)
    requires i <= j <= |ops| && DisciplinedRun(db, ops, a)
    requires a in Run(db, ops[..i]).attendees && Run(db, ops[..i]).attendees[a].status
    requires forall k :: i <= k < j ==> !UndoneBy(Run(db, ops[..k]), ops[k], a)
    ensures a in Run(db, ops[..j]).attendees && Run(db, ops[..j]).attendees[a].status
    decreases j - i
  {
    if i < j {
      StaysUntil(db, ops, a, i);
      RemainsCheckedIn(db, ops, a, i + 1, j);
    }
  }

  lemma WinAt(db: Db, ops: seq<Op>, a: AttendeeId, i: nat)
    requires i < |ops| && WinsFor(Run(db, ops[..i]), ops[i], a)
    ensures a in Run(db, ops[..i]).attendees && !Run(db, ops[..i]).attendees[a].status
    ensures a in Run(db, ops[..i + 1]).attendees && Run(db, ops[..i + 1]).attendees[a].status
  {
    assert ops[..i + 1][..i] == ops[..i];
    WinFlips(Run(db, ops[..i]), ops[i], a);
  }

  /** Exactly once: between two winning check-ins of the same attendee, by whatever stations
      or devices, an undo of that attendee committed. */
  lemma ExactlyOnce(db: Db, ops: seq<Op>, a: AttendeeId, i: nat, j: nat)
    requires DisciplinedRun(db, ops, a) && i < j < |ops|
    requires WinsFor(Run(db, ops[..i]), ops[i], a) && WinsFor(Run(db, ops[..j]), ops[j], a)
    ensures exists k :: i < k < j && UndoneBy(Run(db, ops[..k]), ops[k], a)
  {
    WinAt(db, ops, a, i);
    WinAt(db, ops, a, j);
    if forall k :: i < k < j ==> !UndoneBy(Run(db, ops[..k]), ops[k], a) {
      RemainsCheckedIn(db, ops, a, i + 1, j);
    }
  }

  /** `op` is a check-in, from a station or from a batch, that wins the row of `a`. */
  ghost predicate WinsFor(db: Db, op: Op, a: AttendeeId) {
    (op.CheckIn? || op.BatchCheckIn?) && op.attendee == a && Succeeds(db, op)
  }

  lemma WinFlips(db: Db, op: Op, a: AttendeeId)
    requires WinsFor(db, op, a)
    ensures a in db.attendees && !db.attendees[a].status
    ensures a in Apply(db, op).attendees && Apply(db, op).attendees[a].status
  {
  }

  ghost predicate UndoneBy(db: Db, op: Op, a: AttendeeId) {
    op.Undo? && op.attendee == a && Succeeds(db, op)
  }

  lemma StaysCheckedIn(db: Db, op: Op, a: AttendeeId)
    requires Disciplined(db, op, a) && !UndoneBy(db, op, a)
    requires a in db.attendees && db.attendees[a].status
    ensures a in Apply(db, op).attendees && Apply(db, op).attendees[a].status
  {
    ApplyExtends(db, op);
    if !(Writer(op) && op.attendee == a && Succeeds(db, op)) {
      StepQuiet(db, op, a);
    }
  }

  /** The legacy transition is not one of the disciplined writers: it leaves the device and
      point columns of a batch check-in behind on a row that is no longer checked in. */
  lemma TransitionLeavesScanBehind(db: Db, a: AttendeeId)
    requires a in db.attendees && !db.attendees[a].deleted && db.attendees[a].status
    ensures var after := Apply(db, Transition(a, false, None, None)).attendees[a];
            (after == Cleared(after)) <==> (db.attendees[a].device.None? && db.attendees[a].point.None?)
  {
  }
}
