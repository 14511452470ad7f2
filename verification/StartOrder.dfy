/** Attribution under interleavings.  Runs whose station transactions start in time are attributed
    correctly however their statements interleave.  But the protocol does not make them start in
    time: now() is the start of a transaction, and transactions may start in one order and commit
    in another. */
module StartOrder {
  import opened Checkin
  import opened CheckinHistory
  import opened Monitor
  import opened CheckinRace
  import opened Options
  import Attribution

  lemma CleanPrefix(s: Sys, evs: seq<Event>, a: AttendeeId)
    requires evs != [] && CleanWorld(s, evs, a)
    ensures CleanWorld(s, evs[..|evs| - 1], a)
  {
    var init := evs[..|evs| - 1];
    forall k | 0 <= k < |init| && init[k].World?
      ensures Disciplined(Exec(s, init[..k]).db, init[k].write, a)
    {
      assert init[..k] == evs[..k];
    }
  }

  lemma DisciplinedAppend(db: Db, ops: seq<Op>, op: Op, a: AttendeeId)
    requires DisciplinedRun(db, ops, a) && Disciplined(Run(db, ops), op, a)
    ensures DisciplinedRun(db, ops + [op], a)
  {
    var all := ops + [op];
    forall k | 0 <= k < |all|
      ensures Disciplined(Run(db, all[..k]), all[k], a)
    {
      assert all[..k] == ops[..k];
      assert k == |ops| ==> ops[..k] == ops;
    }
  }

  /** The commit order of a run with a clean outside world is a disciplined run. */
  lemma {:induction false} CommitOrderDisciplined(s: Sys, evs: seq<Event>, a: AttendeeId)
    requires Inv(s) && ValidRun(s, evs) && CleanWorld(s, evs, a)
    ensures DisciplinedRun(s.db, CommitOrder(s, evs), a)
    decreases |evs|
  {
    if evs != [] {
      var init, last := evs[..|evs| - 1], evs[|evs| - 1];
      ValidPrefix(s, evs);
      CleanPrefix(s, evs, a);
      CommitOrderDisciplined(s, init, a);
      InvRun(s, init);
      Refines(s, init);
      var added := Atomic(Exec(s, init), last);
      if added == [] {
        assert CommitOrder(s, init) + added == CommitOrder(s, init);
      } else {
        DisciplinedAppend(s.db, CommitOrder(s, init), added[0], a);
        assert added == [added[0]];
      }
    }
  }

  /** Under any interleaving of statements, if the committed station transactions on `a` start
      in time, the monitor shows the zone of the station that won. */
  lemma InterleavedAttribution(s: Sys, evs: seq<Event>, a: AttendeeId)
    requires Inv(s) && ValidRun(s, evs) && CleanWorld(s, evs, a)
    requires Referential(s.db) && a !in s.db.attendees
    requires Attribution.TimelyRun(s.db, CommitOrder(s, evs), a)
    ensures var end := Exec(s, evs).db;
            a in end.attendees && end.attendees[a].status ==>
              ZoneOf(end, end.attendees[a].event, a)
              == Attribution.ZoneOfStation(end, Attribution.Winner(s.db, CommitOrder(s, evs), a))
  {
    CommitOrderDisciplined(s, evs, a);
    Refines(s, evs);
    Attribution.RunAttribution(s.db, CommitOrder(s, evs), a);
  }

  lemma {:induction false} ExecAppend(s: Sys, xs: seq<Event>, ys: seq<Event>)
    ensures Exec(s, xs + ys) == Exec(Exec(s, xs), ys)
    decreases |ys|
  {
    var all := xs + ys;
    if ys == [] {
      assert all == xs;
    } else {
      assert all[..|all| - 1] == xs + ys[..|ys| - 1];
      ExecAppend(s, xs, ys[..|ys| - 1]);
    }
  }

  lemma ValidAppend(s: Sys, xs: seq<Event>, ys: seq<Event>)
    requires ValidRun(s, xs) && ValidRun(Exec(s, xs), ys)
    ensures ValidRun(s, xs + ys)
  {
    forall k | 0 <= k < |xs + ys|
      ensures Enabled(Exec(s, (xs + ys)[..k]), (xs + ys)[k])
    {
      EnabledAppend(s, xs, ys, k);
    }
  }

  lemma EnabledAppend(s: Sys, xs: seq<Event>, ys: seq<Event>, k: nat)
    requires ValidRun(s, xs) && ValidRun(Exec(s, xs), ys) && k < |xs + ys|
    ensures Enabled(Exec(s, (xs + ys)[..k]), (xs + ys)[k])
  {
    if k < |xs| {
      EnabledFirst(s, xs, ys, k);
    } else {
      EnabledLater(s, xs, ys, k - |xs|);
    }
  }

  lemma EnabledFirst(s: Sys, xs: seq<Event>, ys: seq<Event>, k: nat)
    requires ValidRun(s, xs) && k < |xs|
    ensures Enabled(Exec(s, (xs + ys)[..k]), (xs + ys)[k])
  {
    assert (xs + ys)[..k] == xs[..k];
  }

  lemma EnabledLater(s: Sys, xs: seq<Event>, ys: seq<Event>, j: nat)
    requires ValidRun(Exec(s, xs), ys) && j < |ys|
    ensures Enabled(Exec(s, (xs + ys)[..|xs| + j]), (xs + ys)[|xs| + j])
  {
    ExecLater(s, xs, ys, j);
    assert (xs + ys)[|xs| + j] == ys[j];
  }

  lemma ExecLater(s: Sys, xs: seq<Event>, ys: seq<Event>, j: nat)
    requires j <= |ys|
    ensures Exec(s, (xs + ys)[..|xs| + j]) == Exec(Exec(s, xs), ys[..j])
  {
    assert (xs + ys)[..|xs| + j] == xs + ys[..j];
    ExecAppend(s, xs, ys[..j]);
  }

  lemma OneStep(s: Sys, ev: Event)
    requires Enabled(s, ev)
    ensures ValidRun(s, [ev]) && Exec(s, [ev]) == Next(s, ev)
  {
    assert [ev][..0] == [];
    assert Exec(s, []) == s;
  }

  function Finish(t: TxId): seq<Event> {
    [Update(t)] + [Insert(t)] + [CommitTx(t, true)]
  }

  /** A started transaction that nobody blocks runs through to its commit. */
  lemma Finishes(s: Sys, t: TxId)
    requires t in s.txs && s.txs[t].Trying? && Writer(s.txs[t].op) && Succeeds(s.db, s.txs[t].op)
    requires forall u :: u in s.txs ==> !Locks(s.txs[u], s.txs[t].op.attendee)
    ensures ValidRun(s, Finish(t))
    ensures Exec(s, Finish(t)) == Sys(Commit(s.db, s.txs[t].op), s.clock, s.txs[t := Done(s.txs[t].op, Wrote)])
  {
    var op := s.txs[t].op;
    OneStep(s, Update(t));
    var s1 := Next(s, Update(t));
    assert s1 == Sys(s.db, s.clock, s.txs[t := Holding(op, Written(op, s.db.attendees[op.attendee]))]);
    OneStep(s1, Insert(t));
    var s2 := Next(s1, Insert(t));
    assert s2 == Sys(s.db, s.clock, s.txs[t := Inserted(op, Written(op, s.db.attendees[op.attendee]))]);
    OneStep(s2, CommitTx(t, true));
    ValidAppend(s, [Update(t)], [Insert(t)]);
    ExecAppend(s, [Update(t)], [Insert(t)]);
    ValidAppend(s, [Update(t)] + [Insert(t)], [CommitTx(t, true)]);
    ExecAppend(s, [Update(t)] + [Insert(t)], [CommitTx(t, true)]);
  }

  lemma Began(s: Sys, t: TxId, op: Op)
    requires Enabled(s, Begin(t, op))
    ensures ValidRun(s, [Begin(t, op)])
    ensures Exec(s, [Begin(t, op)]) == Sys(s.db, s.clock, s.txs[t := Trying(op, 0)])
  {
    OneStep(s, Begin(t, op));
  }

  lemma Ticked(s: Sys)
    ensures ValidRun(s, [Tick]) && Exec(s, [Tick]) == s.(clock := s.clock + 1)
  {
    OneStep(s, Tick);
  }

  const FIRST: Op := CheckIn(0, 0, Some(1), 7, "A", 1, 10)
  const UNDO: Op := Undo(0, 0, Some(1), 7, 3, 11)
  const LATE: Op := CheckIn(0, 0, Some(2), 7, "B", 2, 12)

  /** Station 2 begins its check-in while the attendee is still checked in at station 1; an undo
      starts and commits before station 2's UPDATE runs. */
  const SCHEDULE: seq<Event> :=
    [Begin(1, FIRST)] + Finish(1) + [Tick] + [Begin(3, LATE)] + [Tick] + [Begin(2, UNDO)] + Finish(2) + Finish(3)

  lemma Extended(s: Sys, xs: seq<Event>, mid: Sys, ys: seq<Event>, end: Sys)
    requires ValidRun(s, xs) && Exec(s, xs) == mid && ValidRun(mid, ys) && Exec(mid, ys) == end
    ensures ValidRun(s, xs + ys) && Exec(s, xs + ys) == end
  {
    ValidAppend(s, xs, ys);
    ExecAppend(s, xs, ys);
  }

  lemma ScheduleRuns()
    ensures var s := Sys(Attribution.Venue(), 1, map[]);
            && ValidRun(s, SCHEDULE)
            && Exec(s, SCHEDULE).db == Commit(Commit(Commit(Attribution.Venue(), FIRST), UNDO), LATE)
  {
    var v := Attribution.Venue();
    var s0 := Sys(v, 1, map[]);
    var s1 := Sys(v, 1, map[1 := Trying(FIRST, 0)]);
    Began(s0, 1, FIRST);
    var s2 := Sys(Commit(v, FIRST), 1, map[1 := Done(FIRST, Wrote)]);
    Finishes(s1, 1);
    var s3 := s2.(clock := 2);
    Ticked(s2);
    var s4 := s3.(txs := s3.txs[3 := Trying(LATE, 0)]);
    Began(s3, 3, LATE);
    var s5 := s4.(clock := 3);
    Ticked(s4);
    var s6 := s5.(txs := s5.txs[2 := Trying(UNDO, 0)]);
    Began(s5, 2, UNDO);
    var s7 := Sys(Commit(s6.db, UNDO), 3, s6.txs[2 := Done(UNDO, Wrote)]);
    Finishes(s6, 2);
    var s8 := Sys(Commit(s7.db, LATE), 3, s7.txs[3 := Done(LATE, Wrote)]);
    Finishes(s7, 3);
    var e := [Begin(1, FIRST)];
    Extended(s0, e, s1, Finish(1), s2);
    Extended(s0, e + Finish(1), s2, [Tick], s3);
    Extended(s0, e + Finish(1) + [Tick], s3, [Begin(3, LATE)], s4);
    Extended(s0, e + Finish(1) + [Tick] + [Begin(3, LATE)], s4, [Tick], s5);
    Extended(s0, e + Finish(1) + [Tick] + [Begin(3, LATE)] + [Tick], s5, [Begin(2, UNDO)], s6);
    Extended(s0, e + Finish(1) + [Tick] + [Begin(3, LATE)] + [Tick] + [Begin(2, UNDO)], s6, Finish(2), s7);
    Extended(s0, e + Finish(1) + [Tick] + [Begin(3, LATE)] + [Tick] + [Begin(2, UNDO)] + Finish(2), s7, Finish(3), s8);
  }

  /** So a valid interleaving of three station transactions, each stamped by the server clock,
      ends with the attendee checked in by station 2 of zone 2 and shown in no zone. */
  lemma ReachableMisattribution()
    ensures var s := Sys(Attribution.Venue(), 1, map[]);
            var end := Exec(s, SCHEDULE).db;
            && Inv(s) && ValidRun(s, SCHEDULE)
            && 0 in end.attendees && end.attendees[0].status
            && Attribution.Winner(Attribution.Venue(), [FIRST, UNDO, LATE], 0) == Some(2)
            && Attribution.ZoneOfStation(end, Some(2)) == Some(2)
            && ZoneOf(end, 0, 0) == None
  {
    ScheduleRuns();
    Attribution.StartOrderMisattributes();
    Attribution.RunThree(Attribution.Venue(), FIRST, UNDO, LATE);
  }
}
