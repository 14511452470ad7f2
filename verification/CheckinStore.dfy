/** The store's check-in methods and the two handlers on top of them, statement by statement. */
module CheckinStore {
  import opened Checkin
  import opened CheckinHistory
  import opened CheckinRace
  import opened Batch
  import opened Text
  import opened Answers
  import opened Options

  /** Other transactions may have committed between two states. */
  ghost predicate Reaches(before: Db, after: Db) {
    exists ops :: after == Run(before, ops)
  }

  datatype Registered = Ok(station: StationId) | EmptyName | ZoneNotInEvent | RegisterFailed

  /** What BatchCheckin returns for a list of items, each with its own feed id and faults. */
  function Verdicts(st: Store, event: EventId, staff: UserId, items: seq<Item>, ids: seq<ActionId>, fs: seq<Faults>)
    : (Store, seq<Status>)
    requires |items| == |ids| == |fs|
  {
    if items == [] then (st, [])
    else
      var n := |items| - 1;
      var (mid, vs) := Verdicts(st, event, staff, items[..n], ids[..n], fs[..n]);
      var (end, v) := Verdict(mid, event, staff, items[n], ids[n], fs[n]);
      (end, vs + [v])
  }

  /** The store that item i of a batch finds. */
  function StateAt(st: Store, event: EventId, staff: UserId, items: seq<Item>, ids: seq<ActionId>, fs: seq<Faults>, i: nat): Store
    requires i <= |items| == |ids| == |fs|
  {
    Verdicts(st, event, staff, items[..i], ids[..i], fs[..i]).0
  }

  /** Item i commits its check-in, and the handler hears of that and of its log row, or not. */
  predicate CommitsAt(st: Store, event: EventId, staff: UserId, items: seq<Item>, ids: seq<ActionId>, fs: seq<Faults>,
                      i: int, heard: bool)
    requires |items| == |ids| == |fs|
  {
    && 0 <= i < |items|
    && Commits(StateAt(st, event, staff, items, ids, fs, i), event, items[i], fs[i])
    && (heard <==> !fs[i].lost && fs[i].log.Answered?)
  }

  lemma StateAtPrefix(st: Store, event: EventId, staff: UserId, items: seq<Item>, ids: seq<ActionId>, fs: seq<Faults>,
                      n: nat, i: nat)
    requires i <= n <= |items| == |ids| == |fs|
    ensures StateAt(st, event, staff, items[..n], ids[..n], fs[..n], i) == StateAt(st, event, staff, items, ids, fs, i)
  {
    assert items[..n][..i] == items[..i] && ids[..n][..i] == ids[..i] && fs[..n][..i] == fs[..i];
  }

  lemma StateStep(st: Store, event: EventId, staff: UserId, items: seq<Item>, ids: seq<ActionId>, fs: seq<Faults>, i: nat)
    requires i < |items| == |ids| == |fs|
    ensures StateAt(st, event, staff, items, ids, fs, i + 1)
            == Verdict(StateAt(st, event, staff, items, ids, fs, i), event, staff, items[i], ids[i], fs[i]).0
  {
    StateAtPrefix(st, event, staff, items, ids, fs, i + 1, i);
  }

  /** Each verdict is the one its item gets in the store it finds. */
  lemma {:induction false} VerdictsAt(st: Store, event: EventId, staff: UserId, items: seq<Item>, ids: seq<ActionId>,
                                      fs: seq<Faults>, i: nat)
    requires i < |items| == |ids| == |fs|
    ensures var vs := Verdicts(st, event, staff, items, ids, fs).1;
            |vs| == |items|
            && vs[i] == Verdict(StateAt(st, event, staff, items, ids, fs, i), event, staff, items[i], ids[i], fs[i]).1
    decreases |items|
  {
    var n := |items| - 1;
    VerdictsLength(st, event, staff, items[..n], ids[..n], fs[..n]);
    if i < n {
      VerdictsAt(st, event, staff, items[..n], ids[..n], fs[..n], i);
      StateAtPrefix(st, event, staff, items, ids, fs, n, i);
    }
  }

  lemma {:induction false} VerdictsLength(st: Store, event: EventId, staff: UserId, items: seq<Item>, ids: seq<ActionId>,
                                          fs: seq<Faults>)
    requires |items| == |ids| == |fs|
    ensures |Verdicts(st, event, staff, items, ids, fs).1| == |items|
    decreases |items|
  {
    if items != [] {
      var n := |items| - 1;
      VerdictsLength(st, event, staff, items[..n], ids[..n], fs[..n]);
    }
  }

  lemma {:induction false} ChangedExactly(st: Store, event: EventId, staff: UserId, items: seq<Item>, ids: seq<ActionId>,
                                          fs: seq<Faults>, n: nat)
    requires n <= |items| == |ids| == |fs|
    ensures var now := StateAt(st, event, staff, items, ids, fs, n);
            && |now.db.feed| >= |st.db.feed|
            && (now.db != st.db <==> |now.db.feed| > |st.db.feed|)
            && (now.db != st.db <==> exists i, heard :: i < n && CommitsAt(st, event, staff, items, ids, fs, i, heard))
  {
    if n > 0 {
      var k := n - 1;
      var before := StateAt(st, event, staff, items, ids, fs, k);
      ChangedExactly(st, event, staff, items, ids, fs, k);
      StateStep(st, event, staff, items, ids, fs, k);
      VerdictExact(before, event, staff, items[k], ids[k], fs[k]);
      if Commits(before, event, items[k], fs[k]) {
        assert CommitsAt(st, event, staff, items, ids, fs, k, !fs[k].lost && fs[k].log.Answered?);
      }
    }
  }

  /** Publishing, and missing a publish, from the items alone: the batch is published if and
      only if some check-in commits and the handler hears of that and of its log row; and it
      changes what the monitor shows without a publish if and only if some check-in commits, but
      of none the handler hears. */
  lemma PublishExactly(st: Store, event: EventId, staff: UserId, items: seq<Item>, ids: seq<ActionId>, fs: seq<Faults>)
    requires |items| == |ids| == |fs|
    ensures var (end, vs) := Verdicts(st, event, staff, items, ids, fs);
            && |vs| == |items|
            && (forall i :: 0 <= i < |items| ==>
                  (vs[i].StatusCreated? && items[i].kind.CheckinItem? <==> CommitsAt(st, event, staff, items, ids, fs, i, true)))
            && (end.db != st.db <==> |end.db.feed| > |st.db.feed|)
            && (end.db != st.db <==> exists i, heard :: CommitsAt(st, event, staff, items, ids, fs, i, heard))
  {
    var n := |items|;
    assert items[..n] == items && ids[..n] == ids && fs[..n] == fs;
    ChangedExactly(st, event, staff, items, ids, fs, n);
    VerdictsLength(st, event, staff, items, ids, fs);
    forall i | 0 <= i < n
      ensures var v := Verdicts(st, event, staff, items, ids, fs).1[i];
              v.StatusCreated? && items[i].kind.CheckinItem? <==> CommitsAt(st, event, staff, items, ids, fs, i, true)
    {
      VerdictsAt(st, event, staff, items, ids, fs, i);
      VerdictExact(StateAt(st, event, staff, items, ids, fs, i), event, staff, items[i], ids[i], fs[i]);
    }
  }

  /** Item i of a batch finds states[i], leaves states[i + 1] and is answered results[i]; nothing
      else happens to the store from `first` to `end`. */
  ghost predicate HandledInTurn(states: seq<Store>, first: Store, end: Store, results: seq<Status>, event: EventId, staff: UserId,
                                items: seq<Item>, ids: seq<ActionId>, fs: seq<Faults>)
    requires |items| == |ids| == |fs|
  {
    && |results| == |items| && |states| == |items| + 1 && states[0] == first && states[|items|] == end
    && forall i :: 0 <= i < |items| ==>
         Handled(states[i], states[i + 1], results[i], event, staff, items[i], ids[i], fs[i])
  }

  lemma HandlesEach(st: Store, event: EventId, staff: UserId, items: seq<Item>, ids: seq<ActionId>, fs: seq<Faults>)
    returns (states: seq<Store>)
    requires |items| == |ids| == |fs|
    ensures var (end, vs) := Verdicts(st, event, staff, items, ids, fs);
            HandledInTurn(states, st, end, vs, event, staff, items, ids, fs)
  {
    var n := |items|;
    states := seq(n + 1, i requires 0 <= i <= n => StateAt(st, event, staff, items, ids, fs, i));
    VerdictsLength(st, event, staff, items, ids, fs);
    assert items[..n] == items && ids[..n] == ids && fs[..n] == fs;
    assert items[..0] == [];
    forall i | 0 <= i < n
      ensures Handled(states[i], states[i + 1], Verdicts(st, event, staff, items, ids, fs).1[i], event, staff,
                      items[i], ids[i], fs[i])
    {
      StateStep(st, event, staff, items, ids, fs, i);
      VerdictsAt(st, event, staff, items, ids, fs, i);
      VerdictAnswers(states[i], event, staff, items[i], ids[i], fs[i]);
    }
  }

  lemma VerdictsGrow(st: Store, event: EventId, staff: UserId, items: seq<Item>, ids: seq<ActionId>, fs: seq<Faults>, n: nat)
    requires n < |items| == |ids| == |fs|
    ensures var (mid, vs) := Verdicts(st, event, staff, items[..n], ids[..n], fs[..n]);
            var (end, v) := Verdict(mid, event, staff, items[n], ids[n], fs[n]);
            Verdicts(st, event, staff, items[..n + 1], ids[..n + 1], fs[..n + 1]) == (end, vs + [v])
  {
    assert items[..n + 1][..n] == items[..n] && ids[..n + 1][..n] == ids[..n] && fs[..n + 1][..n] == fs[..n];
  }

  /** Some verdict is that of a created check-in. */
  ghost predicate AnyCreated(results: seq<Status>, items: seq<Item>)
    requires |results| <= |items|
  {
    exists i :: 0 <= i < |results| && results[i].StatusCreated? && items[i].kind.CheckinItem?
  }

  lemma AnyCreatedGrows(results: seq<Status>, items: seq<Item>, v: Status)
    requires |results| < |items|
    ensures AnyCreated(results + [v], items) <==>
              AnyCreated(results, items) || (v.StatusCreated? && items[|results|].kind.CheckinItem?)
  {
    var more := results + [v];
    assert more[|results|] == v;
    if AnyCreated(results, items) {
      var i :| 0 <= i < |results| && results[i].StatusCreated? && items[i].kind.CheckinItem?;
      assert more[i] == results[i];
    }
  }

  /** One attempt: its UPDATE found the row free, or its SELECT read what it reports. */
  ghost predicate Attempted(first: Db, read: seq<Db>, op: Op, outcome: Outcome)
    requires op.CheckIn?
  {
    && 1 <= |read| <= 2 && Reaches(first, read[0])
    && (|read| == 1 <==> FreeIn(read[0], op.event, op.attendee))
    && (outcome.Wrote? <==> |read| == 1)
    && (|read| == 2 ==> Reaches(read[0], read[1]) && TrueOf(read[1], op, outcome))
  }

  /** The states read by the attempts so far, of which all but the last ended in a conflict. */
  ghost predicate Tried(first: Db, seen: seq<Db>, now: Db, op: Op, outcome: Outcome)
    requires op.CheckIn?
  {
    && (if seen == [] then now == first && outcome.Conflict? else Reaches(first, seen[0]) && now == seen[|seen| - 1])
    && (forall i :: 0 <= i < |seen| - 1 ==> Reaches(seen[i], seen[i + 1]))
    && (forall i :: 0 <= i < |seen| && i % 2 == 0 ==> (FreeIn(seen[i], op.event, op.attendee) <==> i == |seen| - 1))
    && (outcome.Wrote? <==> |seen| % 2 == 1)
    && (|seen| > 0 && |seen| % 2 == 0 ==> TrueOf(now, op, outcome))
    && (|seen| > 2 ==> FreeIn(seen[1], op.event, op.attendee))
  }

  lemma TriedNext(first: Db, seen: seq<Db>, op: Op, read: seq<Db>, outcome: Outcome)
    requires op.CheckIn? && (|seen| == 0 || |seen| == 2)
    requires Tried(first, seen, if seen == [] then first else seen[|seen| - 1], op, Conflict)
    requires Attempted(if seen == [] then first else seen[|seen| - 1], read, op, outcome)
    ensures Tried(first, seen + read, read[|read| - 1], op, outcome)
  {
  }

  /** The columns a winning check-in saw and left. */
  lemma WroteColumns(hit: Db, mid: Db, after: Db, op: Op)
    requires op.CheckIn? && PGStore.SameRow(hit, mid, op.attendee) && Enacts(mid, after, op)
    ensures var was := hit.attendees[op.attendee];
            && was.event == op.event && !was.deleted && !was.blocked && !was.status
            && op.attendee in after.attendees
            && after.attendees[op.attendee] ==
               Attendee(op.event, true, Some(op.now), Some(op.staff), None,
                        if op.point == "" then None else Some(op.point), false, false)
            && after.feed != []
            && after.feed[|after.feed| - 1] ==
               Action(op.id, op.event, op.attendee, op.station, CheckinRow, Some(op.staff), op.now)
  {
  }

  class PGStore {
    var db: Db
    var log: set<ClientId>
    var entries: seq<Entry>

    function State(): Store
      reads this
    {
      Store(db, log, entries)
    }

    constructor (db: Db)
      requires Referential(db)
      ensures State() == Store(db, {}, []) && Referential(this.db)
    {
      this.db, log, entries := db, {}, [];
    }

    /** Any number of other transactions commit here. */
    method Interfere()
      modifies this`db
      ensures Reaches(old(db), db)
    {
      assert db == Run(db, []);
    }

    /** The same while this transaction holds the row lock of `a`. */
    method InterfereLocked(a: AttendeeId)
      requires a in db.attendees
      modifies this`db
      ensures Reaches(old(db), db) && a in db.attendees && db.attendees[a] == old(db.attendees[a])
    {
      assert db == Run(db, []);
    }

    /** The row lock keeps the row as the UPDATE saw it. */
    static predicate SameRow(x: Db, y: Db, a: AttendeeId) {
      a in x.attendees && a in y.attendees && x.attendees[a] == y.attendees[a]
    }

    /** This call's one write, on the row that `hit` matched. */
    ghost predicate CommittedOnce(op: Op, hit: Db)
      requires Writer(op)
      reads this`db
    {
      && Hits(hit, op)
      && exists mid :: Reaches(hit, mid) && SameRow(hit, mid, op.attendee) && Enacts(mid, db, op)
                       && Succeeds(mid, op) && db == Commit(mid, op)
    }

    /** CheckInAttendee: the guarded UPDATE, its fallback SELECT and the bounded retry, with
        other transactions committing between any two statements.  `seen` lists the
        committed states its statements read; `answer` is how the transaction ends, and
        `committed` whether it wrote.  It writes only when the row its UPDATE saw was free. */
    method CheckInAttendee(op: Op, answer: Answer) returns (outcome: Outcome, ghost seen: seq<Db>, ghost committed: bool)
      requires op.CheckIn?
      modifies this`db
      ensures 1 <= |seen| <= 4 && Reaches(old(db), seen[0])
      ensures forall i :: 0 <= i < |seen| - 1 ==> Reaches(seen[i], seen[i + 1])
      ensures forall i :: 0 <= i < |seen| && i % 2 == 0 ==> (FreeIn(seen[i], op.event, op.attendee) <==> i == |seen| - 1)
      ensures committed ==> |seen| % 2 == 1 && CommittedOnce(op, seen[|seen| - 1])
      ensures committed ==>
                var last := seen[|seen| - 1];
                && op.attendee in last.attendees
                && var was := last.attendees[op.attendee];
                && was.event == op.event && !was.deleted && !was.blocked && !was.status
                && op.attendee in db.attendees
                && db.attendees[op.attendee] ==
                   Attendee(op.event, true, Some(op.now), Some(op.staff), None,
                            if op.point == "" then None else Some(op.point), false, false)
                && db.feed != []
                && db.feed[|db.feed| - 1] ==
                   Action(op.id, op.event, op.attendee, op.station, CheckinRow, Some(op.staff), op.now)
      ensures committed ==> outcome == if answer.Lost? then Failed else Wrote
      ensures !committed ==> Reaches(seen[|seen| - 1], db)
      ensures var last := seen[|seen| - 1];
              match outcome
              case Wrote => committed
              case Failed =>
                || committed || !answer.Answered?
                || (FreeIn(last, op.event, op.attendee) && !StationIn(db, op.event, op.station))
              case Conflict =>
                && |seen| == 4 && db == last
                && FreeIn(seen[1], op.event, op.attendee) && FreeIn(last, op.event, op.attendee)
              case AlreadyCheckedIn(row) =>
                |seen| % 2 == 0 && db == last && LiveRow(last, op.event, op.attendee, row) && row.status
              case Blocked(row) =>
                && |seen| % 2 == 0 && db == last
                && LiveRow(last, op.event, op.attendee, row) && !row.status && row.blocked
              case NotFound =>
                |seen| % 2 == 0 && db == last && forall row :: !LiveRow(last, op.event, op.attendee, row)
              case _ => false
    {
      seen, committed := [], false;
      var attempt := 0;
      outcome := Conflict;
      while attempt < MAX_ATTEMPTS && outcome == Conflict
        invariant 0 <= attempt <= MAX_ATTEMPTS && |seen| == 2 * attempt - if outcome.Wrote? then 1 else 0
        invariant Tried(old(db), seen, db, op, outcome)
        decreases MAX_ATTEMPTS - attempt
      {
        ghost var read;
        outcome, read := CheckInAttendeeAttempt(op);
        TriedNext(old(db), seen, op, read, outcome);
        seen := seen + read;
        attempt := attempt + 1;
      }
      if outcome.Wrote? {
        ghost var hit := db;
        var row := Written(op, db.attendees[op.attendee]);
        InterfereLocked(op.attendee);
        CommitEnacts(db, op);
        if !FeedOk(db, Record(op)) || answer.RolledBack? {
          return Failed, seen, false;
        }
        ghost var mid := db;
        db := db.(attendees := db.attendees[op.attendee := row], feed := db.feed + [Record(op)]);
        assert db == Commit(mid, op);
        WroteColumns(hit, mid, db, op);
        return if answer.Lost? then Failed else Wrote, seen, true;
      }
      assert db == Run(db, []);
      if !outcome.Conflict? && !outcome.NotFound? && !answer.Answered? {
        outcome := Failed;
      }
    }

    /** checkInAttendeeAttempt: the guarded UPDATE, and when it misses the fallback SELECT. */
    method CheckInAttendeeAttempt(op: Op) returns (outcome: Outcome, ghost read: seq<Db>)
      requires op.CheckIn?
      modifies this`db
      ensures Attempted(old(db), read, op, outcome) && db == read[|read| - 1]
    {
      Interfere();
      read := [db];
      CommitEnacts(db, op);
      if Hits(db, op) {
        return Wrote, read;
      }
      Interfere();
      read := read + [db];
      ClassifyTrue(db, op);
      outcome := Classify(db, op);
    }

    /** UndoCheckin: clears a checked-in row with its feed row, or reports the row it found. */
    method UndoCheckin(op: Op, answer: Answer) returns (outcome: Outcome, ghost seen: seq<Db>, ghost committed: bool)
      requires op.Undo?
      modifies this`db
      ensures 1 <= |seen| <= 2 && Reaches(old(db), seen[0])
      ensures |seen| == 2 <==> forall row :: LiveRow(seen[0], op.event, op.attendee, row) ==> !row.status
      ensures |seen| == 2 ==> Reaches(seen[0], seen[1])
      ensures committed ==> |seen| == 1 && CommittedOnce(op, seen[0])
      ensures committed ==>
                && op.attendee in seen[0].attendees
                && var was := seen[0].attendees[op.attendee];
                && was.event == op.event && !was.deleted && was.status
                && op.attendee in db.attendees
                && db.attendees[op.attendee] == Attendee(op.event, false, None, None, None, None, was.blocked, false)
                && db.feed != []
                && db.feed[|db.feed| - 1] ==
                   Action(op.id, op.event, op.attendee, op.station, UndoRow, Some(op.staff), op.now)
      ensures committed ==> outcome == if answer.Lost? then Failed else Wrote
      ensures !committed ==> Reaches(seen[|seen| - 1], db)
      ensures var last := seen[|seen| - 1];
              match outcome
              case Wrote => committed
              case Failed =>
                || committed || !answer.Answered?
                || (|seen| == 1 && !StationIn(db, op.event, op.station))
              case NotCheckedIn(row) => |seen| == 2 && db == last && LiveRow(last, op.event, op.attendee, row)
              case NotFound =>
                |seen| == 2 && db == last && forall row :: !LiveRow(last, op.event, op.attendee, row)
              case _ => false
    {
      Interfere();
      seen, committed := [db], false;
      CommitEnacts(db, op);
      if Hits(db, op) {
        var row := Written(op, db.attendees[op.attendee]);
        InterfereLocked(op.attendee);
        if !FeedOk(db, Record(op)) || answer.RolledBack? {
          return Failed, seen, false;
        }
        ghost var mid := db;
        CommitEnacts(mid, op);
        db := db.(attendees := db.attendees[op.attendee := row], feed := db.feed + [Record(op)]);
        assert db == Commit(mid, op);
        return if answer.Lost? then Failed else Wrote, seen, true;
      }
      Interfere();
      seen := seen + [db];
      assert db == Run(db, []);
      outcome := if !Found(db, op) then NotFound
                 else if !answer.Answered? then Failed
                 else NotCheckedIn(db.attendees[op.attendee]);
    }

    /** ApplyBatchCheckin, one item alone, with the failures of `f`. */
    method ApplyBatchCheckin(event: EventId, staff: UserId, item: Item, id: ActionId, f: Faults) returns (r: Result)
      modifies this
      ensures (State(), r) == ApplyItem(old(State()), event, staff, item, id, f)
      ensures Applied(old(State()), State(), r, event, staff, item, id, f)
    {
      ApplyExactly(State(), event, staff, item, id, f);
      if f.lookup {
        return Error;
      }
      if item.client in log {
        return DuplicateClient;
      }
      r := Created;
      match item.kind {
        case CheckinItem =>
          if !AttendeeLive(db, item.attendee) || f.tx {
            return Error;
          }
          var op := ItemOp(event, staff, item, id);
          if Hits(db, op) {
            if !FeedOk(db, Record(op)) {
              return Error;
            }
            db := db.(attendees := db.attendees[item.attendee := Written(op, db.attendees[item.attendee])],
                      feed := db.feed + [Record(op)]);
          } else {
            r := Result.AlreadyCheckedIn;
          }
          if f.lost {
            return Error;
          }
        case ZoneEntryItem =>
          if item.zone.None? {
            return Error;
          }
          var z, day := item.zone.value, Day(item.at);
          if !HasEntry(entries, item.attendee, z, day) {
            if f.tx || z !in db.zones || item.attendee !in db.attendees {
              return Error;
            }
            entries := entries + [Entry(item.attendee, z, day, if f.rival.Some? then f.rival.value else staff)];
            if f.rival.Some? || f.lost {
              return Error;
            }
          }
        case UnknownItem =>
          return Error;
      }
      if f.log.RolledBack? {
        return Error;
      }
      log := log + {item.client};
      if f.log.Lost? {
        return Error;
      }
    }

    /** BatchCheckin: one verdict per item and one publish for the whole batch. */
    method BatchCheckin(event: EventId, staff: UserId, items: seq<Item>, ids: seq<ActionId>, fs: seq<Faults>)
      returns (results: seq<Status>, publish: bool)
      requires |items| == |ids| == |fs|
      modifies this
      ensures |results| == |items|
      ensures (State(), results) == Verdicts(old(State()), event, staff, items, ids, fs)
      ensures publish <==> exists i :: 0 <= i < |results| && results[i].StatusCreated? && items[i].kind.CheckinItem?
      ensures publish <==> exists i :: CommitsAt(old(State()), event, staff, items, ids, fs, i, true)
      ensures db != old(db) && !publish <==>
                && (forall i :: !CommitsAt(old(State()), event, staff, items, ids, fs, i, true))
                && (exists i :: CommitsAt(old(State()), event, staff, items, ids, fs, i, false))
      ensures publish ==> |db.feed| > |old(db.feed)|
      ensures exists states :: HandledInTurn(states, old(State()), State(), results, event, staff, items, ids, fs)
    {
      ghost var start := State();
      results, publish := [], false;
      var n := 0;
      while n < |items|
        invariant 0 <= n <= |items| && |results| == n
        invariant (State(), results) == Verdicts(start, event, staff, items[..n], ids[..n], fs[..n])
        invariant publish <==> AnyCreated(results, items)
      {
        VerdictsGrow(start, event, staff, items, ids, fs, n);
        var v := CheckOne(event, staff, items[n], ids[n], fs[n]);
        AnyCreatedGrows(results, items, v);
        results := results + [v];
        publish := publish || (v.StatusCreated? && items[n].kind.CheckinItem?);
        n := n + 1;
      }
      assert items[..n] == items && ids[..n] == ids && fs[..n] == fs;
      PublishExactly(start, event, staff, items, ids, fs);
      ghost var states := HandlesEach(start, event, staff, items, ids, fs);
    }

    method CheckOne(event: EventId, staff: UserId, item: Item, id: ActionId, f: Faults) returns (v: Status)
      modifies this
      ensures (State(), v) == Verdict(old(State()), event, staff, item, id, f)
      ensures Handled(old(State()), State(), v, event, staff, item, id, f)
    {
      VerdictAnswers(State(), event, staff, item, id, f);
      if f.lookup || !AttendeeLive(db, item.attendee) || db.attendees[item.attendee].event != event {
        return StatusError;
      }
      if item.kind.ZoneEntryItem? {
        if item.zone.None? || item.zone.value !in db.zones || db.zones[item.zone.value].event != event {
          return StatusError;
        }
      } else if item.kind.UnknownItem? {
        return StatusError;
      }
      var r := ApplyBatchCheckin(event, staff, item, id, f);
      match r {
        case Created => v := StatusCreated;
        case AlreadyCheckedIn => v := StatusExists;
        case DuplicateClient => v := StatusExists;
        case Error => v := StatusError;
      }
    }

    /** The conflict target of the upsert: the row under the same (event, name), or the new id. */
    method FindStation(row: Station, newId: StationId) returns (target: StationId)
      requires newId !in db.stations
      ensures target == newId ==> forall s :: s in db.stations ==> !SameKey(db.stations[s], row)
      ensures target != newId ==> target in db.stations && SameKey(db.stations[target], row)
    {
      target := newId;
      var rest := db.stations.Keys;
      while rest != {} && target == newId
        invariant rest <= db.stations.Keys
        invariant target == newId ==> forall s :: s in db.stations && s !in rest ==> !SameKey(db.stations[s], row)
        invariant target != newId ==> target in db.stations && SameKey(db.stations[target], row)
        decreases |rest|
      {
        var s :| s in rest;
        if SameKey(db.stations[s], row) {
          target := s;
        }
        rest := rest - {s};
      }
    }

    /** RegisterCheckinStation and UpsertCheckinStation: the trimmed name keys the row, a zone
        of another event is refused, and re-registering only replaces the zone. */
    method RegisterCheckinStation(event: EventId, name: string, zone: Option<ZoneId>, newId: StationId, lookupFails: bool,
                                  answer: Answer)
      returns (r: Registered)
      requires Referential(db) && newId !in db.stations
      modifies this`db
      ensures Referential(db)
      ensures r.EmptyName? <==> Blank(name)
      ensures r.ZoneNotInEvent? <==> !Blank(name) && !(zone.Some? && lookupFails) && !ZoneOk(old(db), event, zone)
      ensures r.RegisterFailed? <==>
                !Blank(name) && ((zone.Some? && lookupFails) || (ZoneOk(old(db), event, zone) && !answer.Answered?))
      ensures db == if r.Ok? || (r.RegisterFailed? && !(zone.Some? && lookupFails) && answer.Lost?)
                    then Apply(old(db), UpsertStation(event, TrimSpace(name), zone, newId)) else old(db)
      ensures r.Ok? ==>
                && db == old(db).(stations := old(db).stations[r.station := Station(event, TrimSpace(name), zone)])
                && (forall s :: s in old(db).stations && s != r.station ==>
                      !SameKey(old(db).stations[s], db.stations[r.station]))
    {
      var trimmed := TrimSpace(name);
      TrimmedIsBlank(name);
      if trimmed == "" {
        return EmptyName;
      }
      if zone.Some? && lookupFails {
        return RegisterFailed;
      }
      if !ZoneOk(db, event, zone) {
        return ZoneNotInEvent;
      }
      if answer.RolledBack? {
        return RegisterFailed;
      }
      var row := Station(event, trimmed, zone);
      var target := FindStation(row, newId);
      assert UpsertTarget(db, event, trimmed, newId) == target;
      ApplyReferential(db, UpsertStation(event, trimmed, zone, newId));
      db := db.(stations := db.stations[target := row]);
      return if answer.Lost? then RegisterFailed else Ok(target);
    }
  }
}
