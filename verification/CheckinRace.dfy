/** The three writer transactions at statement level, under READ COMMITTED.

    Each statement sees the latest committed state.  A guarded UPDATE that matches takes the
    row lock and keeps it until its transaction ends; one whose row does not match returns
    zero rows at once, even while another transaction holds the lock.  Anything else may
    commit between two statements. */
module CheckinRace {
  import opened Checkin
  import opened CheckinHistory
  import opened Monitor
  import opened Options

  type TxId = nat

  datatype Outcome =
    | Wrote                              // "checked_in", an undo that cleared, a created batch item
    | AlreadyCheckedIn(row: Attendee)
    | Blocked(row: Attendee)
    | NotCheckedIn(row: Attendee)        // the idempotent no-op of an undo
    | NothingMatched                     // a batch item whose UPDATE matched no row
    | NotFound
    | Conflict
    | Failed

  datatype Tx =
    | Trying(op: Op, attempt: nat)       // next: the guarded UPDATE
    | Missed(op: Op, attempt: nat)       // zero rows; next: the fallback SELECT
    | Holding(op: Op, row: Attendee)     // the UPDATE won and wrote `row`; next: the feed INSERT
    | Inserted(op: Op, row: Attendee)    // next: COMMIT
    | Settled(op: Op, outcome: Outcome)  // nothing written; next: COMMIT
    | Done(op: Op, outcome: Outcome)

  datatype Sys = Sys(db: Db, clock: Time, txs: map<TxId, Tx>)

  datatype Event =
    | Begin(tx: TxId, op: Op)
    | Update(tx: TxId)
    | Select(tx: TxId)
    | Insert(tx: TxId)
    | CommitTx(tx: TxId, acked: bool)    // a COMMIT whose answer is lost reads as an error
    | Fail(tx: TxId)
    | World(write: Op)                   // any other writer's single-statement commit
    | Tick

  const MAX_ATTEMPTS: nat := 2

  predicate Locks(tx: Tx, a: AttendeeId) {
    (tx.Holding? || tx.Inserted?) && Writer(tx.op) && tx.op.attendee == a
  }

  ghost predicate LockedByOther(s: Sys, a: AttendeeId, tx: TxId) {
    exists t :: t in s.txs && t != tx && Locks(s.txs[t], a)
  }

  ghost predicate Unlocked(s: Sys, a: AttendeeId) {
    forall t :: t in s.txs ==> !Locks(s.txs[t], a)
  }

  /** The attendee row a single-statement write updates, if it updates one. */
  function Target(op: Op): Option<AttendeeId> {
    match op
    case Transition(a, _, _, _) => Some(a)
    case Overwrite(a, _) => Some(a)
    case CreateAttendee(a, _, _) => Some(a)
    case _ => None
  }

  ghost predicate Enabled(s: Sys, ev: Event) {
    match ev
    case Begin(t, op) =>
      && t !in s.txs && Writer(op)
      && (op.CheckIn? ==> op.now == s.clock)
      && (op.Undo? ==> op.now == s.clock)
    case Update(t) =>
      t in s.txs && s.txs[t].Trying? && Writer(s.txs[t].op)
      && (!Hits(s.db, s.txs[t].op) || !LockedByOther(s, s.txs[t].op.attendee, t))
    case Select(t) => t in s.txs && s.txs[t].Missed?
    case Insert(t) => t in s.txs && s.txs[t].Holding?
    case CommitTx(t, _) => t in s.txs && (s.txs[t].Inserted? || s.txs[t].Settled?)
    case Fail(t) => t in s.txs && !s.txs[t].Done?
    case World(op) => !Writer(op) && (Target(op).Some? ==> Unlocked(s, Target(op).value))
    case Tick => true
  }

  /** The row the fallback SELECT of `op` returns. */
  predicate Found(db: Db, op: Op)
    requires Writer(op)
  {
    op.attendee in db.attendees && db.attendees[op.attendee].event == op.event && !db.attendees[op.attendee].deleted
  }

  /** Classification of what the fallback SELECT saw. */
  function Classify(db: Db, op: Op): Outcome
    requires Writer(op)
  {
    if !Found(db, op) then NotFound
    else
      var row := db.attendees[op.attendee];
      if op.Undo? then NotCheckedIn(row)
      else if !row.status && row.blocked then Blocked(row)
      else if !row.status && !row.blocked then Conflict
      else AlreadyCheckedIn(row)
  }

  ghost function NextTx(s: Sys, ev: Event, tx: Tx): Tx
    requires Writer(tx.op)
  {
    match ev
    case Update(_) =>
      if !tx.Trying? then tx
      else if Hits(s.db, tx.op) then Holding(tx.op, Written(tx.op, s.db.attendees[tx.op.attendee]))
      else if tx.op.BatchCheckIn? then Settled(tx.op, NothingMatched)
      else Missed(tx.op, tx.attempt)
    case Select(_) =>
      if !tx.Missed? then tx
      else
        var seen := Classify(s.db, tx.op);
        if seen.NotFound? then Done(tx.op, NotFound)
        else if !seen.Conflict? then Settled(tx.op, seen)
        else if tx.attempt + 1 < MAX_ATTEMPTS then Trying(tx.op, tx.attempt + 1)
        else Done(tx.op, Conflict)
    case Insert(_) =>
      if !tx.Holding? then tx
      else if FeedOk(s.db, Record(tx.op)) then Inserted(tx.op, tx.row)
      else Done(tx.op, Failed)
    case CommitTx(_, acked) => Done(tx.op, if !acked then Failed else if tx.Settled? then tx.outcome else Wrote)
    case Fail(_) => Done(tx.op, Failed)
    case _ => tx
  }

  /** The committed effect of one event, as transactions run alone. */
  function Atomic(s: Sys, ev: Event): seq<Op> {
    match ev
    case CommitTx(t, _) => if t in s.txs && s.txs[t].Inserted? then [s.txs[t].op] else []
    case World(op) => [op]
    case _ => []
  }

  /** The new committed tables: a COMMIT publishes the row its UPDATE wrote, back when it
      ran, together with the feed row. */
  ghost function NextDb(s: Sys, ev: Event): Db {
    match ev
    case CommitTx(t, _) =>
      if t in s.txs && s.txs[t].Inserted? && Writer(s.txs[t].op) then
        s.db.(attendees := s.db.attendees[s.txs[t].op.attendee := s.txs[t].row],
              feed := s.db.feed + [Record(s.txs[t].op)])
      else s.db
    case World(op) => Apply(s.db, op)
    case _ => s.db
  }

  ghost function Next(s: Sys, ev: Event): Sys {
    match ev
    case Begin(t, op) => s.(txs := s.txs[t := Trying(op, 0)])
    case World(op) => s.(db := NextDb(s, ev))
    case Tick => s.(clock := s.clock + 1)
    case _ =>
      if ev.tx !in s.txs || !Writer(s.txs[ev.tx].op) then s
      else Sys(NextDb(s, ev), s.clock, s.txs[ev.tx := NextTx(s, ev, s.txs[ev.tx])])
  }

  ghost function Exec(s: Sys, evs: seq<Event>): Sys
    decreases |evs|
  {
    if evs == [] then s else Next(Exec(s, evs[..|evs| - 1]), evs[|evs| - 1])
  }

  ghost predicate ValidRun(s: Sys, evs: seq<Event>) {
    forall k :: 0 <= k < |evs| ==> Enabled(Exec(s, evs[..k]), evs[k])
  }

  /** The row lock is exclusive, and what the winning UPDATE matched still matches. */
  ghost predicate Inv(s: Sys) {
    && (forall t :: t in s.txs ==> Writer(s.txs[t].op))
    && (forall t :: t in s.txs && (s.txs[t].Holding? || s.txs[t].Inserted?) ==>
          Hits(s.db, s.txs[t].op) && s.txs[t].row == Written(s.txs[t].op, s.db.attendees[s.txs[t].op.attendee]))
    && (forall t :: t in s.txs && s.txs[t].Inserted? ==> FeedOk(s.db, Record(s.txs[t].op)))
    && (forall t, u :: t in s.txs && u in s.txs && t != u && Locks(s.txs[t], s.txs[t].op.attendee)
          ==> !Locks(s.txs[u], s.txs[t].op.attendee))
    && (forall t :: t in s.txs && s.txs[t].Missed? ==> !s.txs[t].op.BatchCheckIn? && s.txs[t].attempt < MAX_ATTEMPTS)
    && (forall t :: t in s.txs && s.txs[t].Trying? ==> s.txs[t].attempt < MAX_ATTEMPTS)
  }

  lemma WorldKeepsRow(db: Db, op: Op, a: AttendeeId)
    requires !Writer(op) && Target(op) != Some(a) && a in db.attendees
    ensures a in Apply(db, op).attendees && Apply(db, op).attendees[a] == db.attendees[a]
  {
  }

  /** Other writers may do anything to the tables but the locked rows. */
  lemma InvNewDb(s: Sys, db': Db)
    requires Inv(s) && Extends(s.db, db')
    requires forall t :: t in s.txs && (s.txs[t].Holding? || s.txs[t].Inserted?) && Writer(s.txs[t].op) ==>
               s.txs[t].op.attendee in s.db.attendees
               && db'.attendees[s.txs[t].op.attendee] == s.db.attendees[s.txs[t].op.attendee]
    ensures Inv(s.(db := db'))
  {
  }

  lemma InvWorld(s: Sys, op: Op)
    requires Inv(s) && Enabled(s, World(op))
    ensures Inv(Next(s, World(op)))
  {
    ApplyExtends(s.db, op);
    forall t | t in s.txs && (s.txs[t].Holding? || s.txs[t].Inserted?) && Writer(s.txs[t].op)
      ensures s.txs[t].op.attendee in s.db.attendees
      ensures Apply(s.db, op).attendees[s.txs[t].op.attendee] == s.db.attendees[s.txs[t].op.attendee]
    {
      assert Locks(s.txs[t], s.txs[t].op.attendee);
      WorldKeepsRow(s.db, op, s.txs[t].op.attendee);
    }
    InvNewDb(s, Apply(s.db, op));
  }

  lemma CommitExtends(db: Db, op: Op)
    requires Writer(op) && Hits(db, op)
    ensures Extends(db, Commit(db, op))
  {
  }

  lemma InvCommit(s: Sys, t: TxId, acked: bool)
    requires Inv(s) && Enabled(s, CommitTx(t, acked))
    ensures Inv(Next(s, CommitTx(t, acked)))
  {
    var tx := s.txs[t];
    var done := s.(txs := s.txs[t := NextTx(s, CommitTx(t, acked), tx)]);
    InvReplace(s, t, done.txs[t]);
    if tx.Inserted? {
      assert Locks(tx, tx.op.attendee);
      assert forall u :: u in s.txs && u != t ==> !Locks(s.txs[u], tx.op.attendee);
      CommitExtends(s.db, tx.op);
      InvNewDb(done, Commit(s.db, tx.op));
    }
  }

  lemma InvBegin(s: Sys, t: TxId, op: Op)
    requires Inv(s) && Enabled(s, Begin(t, op))
    ensures Inv(Next(s, Begin(t, op)))
  {
  }

  lemma InvUpdate(s: Sys, t: TxId)
    requires Inv(s) && Enabled(s, Update(t))
    ensures Inv(Next(s, Update(t)))
  {
    if Hits(s.db, s.txs[t].op) {
      assert forall u :: u in s.txs && u != t ==> !Locks(s.txs[u], s.txs[t].op.attendee);
    }
  }

  lemma InvInsert(s: Sys, t: TxId)
    requires Inv(s) && Enabled(s, Insert(t))
    ensures Inv(Next(s, Insert(t)))
  {
    assert Locks(s.txs[t], s.txs[t].op.attendee);
  }

  lemma InvSelect(s: Sys, t: TxId)
    requires Inv(s) && Enabled(s, Select(t))
    ensures Inv(Next(s, Select(t)))
  {
    InvReplace(s, t, NextTx(s, Select(t), s.txs[t]));
  }

  lemma InvFail(s: Sys, t: TxId)
    requires Inv(s) && Enabled(s, Fail(t))
    ensures Inv(Next(s, Fail(t)))
  {
    InvReplace(s, t, NextTx(s, Fail(t), s.txs[t]));
  }

  /** Dropping a lock, or never having had one, disturbs nobody. */
  lemma InvReplace(s: Sys, t: TxId, tx: Tx)
    requires Inv(s) && t in s.txs && tx.op == s.txs[t].op && !tx.Holding? && !tx.Inserted?
    requires (tx.Trying? || tx.Missed?) ==> tx.attempt < MAX_ATTEMPTS && (tx.Missed? ==> !tx.op.BatchCheckIn?)
    ensures Inv(s.(txs := s.txs[t := tx]))
  {
  }

  lemma InvStep(s: Sys, ev: Event)
    requires Inv(s) && Enabled(s, ev)
    ensures Inv(Next(s, ev))
  {
    match ev
    case World(op) => InvWorld(s, op);
    case CommitTx(t, acked) => InvCommit(s, t, acked);
    case Begin(t, op) => InvBegin(s, t, op);
    case Update(t) => InvUpdate(s, t);
    case Insert(t) => InvInsert(s, t);
    case Select(t) => InvSelect(s, t);
    case Fail(t) => InvFail(s, t);
    case Tick =>
  }

  lemma ValidPrefix(s: Sys, evs: seq<Event>)
    requires evs != [] && ValidRun(s, evs)
    ensures ValidRun(s, evs[..|evs| - 1])
    ensures Enabled(Exec(s, evs[..|evs| - 1]), evs[|evs| - 1])
  {
    var init := evs[..|evs| - 1];
    forall k | 0 <= k < |init| ensures Enabled(Exec(s, init[..k]), init[k]) {
      assert init[..k] == evs[..k];
    }
  }

  lemma {:induction false} InvRun(s: Sys, evs: seq<Event>)
    requires Inv(s) && ValidRun(s, evs)
    ensures Inv(Exec(s, evs))
    decreases |evs|
  {
    if evs != [] {
      ValidPrefix(s, evs);
      InvRun(s, evs[..|evs| - 1]);
      InvStep(Exec(s, evs[..|evs| - 1]), evs[|evs| - 1]);
    }
  }

  /** The transactions of a run in commit order. */
  ghost function CommitOrder(s: Sys, evs: seq<Event>): seq<Op>
    decreases |evs|
  {
    if evs == [] then []
    else CommitOrder(s, evs[..|evs| - 1]) + Atomic(Exec(s, evs[..|evs| - 1]), evs[|evs| - 1])
  }

  /** Refinement: any interleaving of statements commits exactly what the winning
      transactions would have committed one after another, in commit order. */
  lemma {:induction false} Refines(s: Sys, evs: seq<Event>)
    requires Inv(s) && ValidRun(s, evs)
    ensures Exec(s, evs).db == Run(s.db, CommitOrder(s, evs))
    decreases |evs|
  {
    if evs != [] {
      var init, last := evs[..|evs| - 1], evs[|evs| - 1];
      ValidPrefix(s, evs);
      Refines(s, init);
      InvRun(s, init);
      var mid := Exec(s, init);
      StepRefines(mid, last);
      RunAppend(s.db, CommitOrder(s, init), Atomic(mid, last));
    }
  }

  /** Only a commit changes the database, as its transaction alone would. */
  lemma StepRefines(s: Sys, ev: Event)
    requires Inv(s) && Enabled(s, ev)
    ensures Next(s, ev).db == Run(s.db, Atomic(s, ev))
  {
    RunOne(s.db, Atomic(s, ev));
  }

  lemma RunOne(db: Db, ops: seq<Op>)
    requires |ops| <= 1
    ensures Run(db, ops) == if ops == [] then db else Apply(db, ops[0])
  {
    if ops != [] {
      assert ops[..0] == [];
      assert Run(db, []) == db;
    }
  }

  /** Outside writers keep off the check-in columns of `a`. */
  ghost predicate CleanWorld(s: Sys, evs: seq<Event>, a: AttendeeId) {
    forall k :: 0 <= k < |evs| && evs[k].World? ==> Disciplined(Exec(s, evs[..k]).db, evs[k].write, a)
  }

  /** So the feed alternates and balances under any interleaving of statements, too. */
  lemma {:induction false} InterleavedBalanced(s: Sys, evs: seq<Event>, a: AttendeeId)
    requires Inv(s) && ValidRun(s, evs) && CleanWorld(s, evs, a) && Balanced(s.db, a)
    ensures Balanced(Exec(s, evs).db, a)
    decreases |evs|
  {
    if evs != [] {
      var init, last := evs[..|evs| - 1], evs[|evs| - 1];
      ValidPrefix(s, evs);
      forall k | 0 <= k < |init| && init[k].World? ensures Disciplined(Exec(s, init[..k]).db, init[k].write, a) {
        assert init[..k] == evs[..k];
      }
      InterleavedBalanced(s, init, a);
      InvRun(s, init);
      var mid := Exec(s, init);
      if Atomic(mid, last) != [] {
        StepBalanced(mid.db, Atomic(mid, last)[0], a);
      }
    }
  }

  /** And every snapshot the monitor can read adds up. */
  lemma InterleavedConserves(s: Sys, evs: seq<Event>, e: EventId, zones: seq<ZoneCount>)
    requires Inv(s) && ValidRun(s, evs) && Referential(s.db) && Lists(Exec(s, evs).db, e, zones)
    ensures Sum(zones) + |Unattributed(Exec(s, evs).db, e)| == |CheckedIn(Exec(s, evs).db, e)|
  {
    Refines(s, evs);
    RunConserves(s.db, CommitOrder(s, evs), e, zones);
  }

  /** What each outcome but a write or an error says about the state that was read. */
  ghost predicate TrueOf(db: Db, op: Op, outcome: Outcome)
    requires Writer(op)
  {
    match outcome
    case AlreadyCheckedIn(row) => op.CheckIn? && LiveRow(db, op.event, op.attendee, row) && row.status
    case Blocked(row) => op.CheckIn? && LiveRow(db, op.event, op.attendee, row) && !row.status && row.blocked
    case Conflict => op.CheckIn? && FreeIn(db, op.event, op.attendee)
    case NotCheckedIn(row) => op.Undo? && LiveRow(db, op.event, op.attendee, row)
    case NotFound => !op.BatchCheckIn? && forall row :: !LiveRow(db, op.event, op.attendee, row)
    case NothingMatched => op.BatchCheckIn? && !Open(db, op)
    case _ => false
  }

  /** The fallback SELECT reports what it saw. */
  lemma ClassifyTrue(db: Db, op: Op)
    requires Writer(op) && !op.BatchCheckIn?
    ensures TrueOf(db, op, Classify(db, op))
  {
  }

  /** Event `k` is a statement of `t` whose read justifies `outcome`. */
  ghost predicate ReadAt(s: Sys, evs: seq<Event>, k: int, t: TxId, op: Op, outcome: Outcome) {
    && 0 <= k < |evs| && Writer(op)
    && evs[k] == (if outcome.NothingMatched? then Update(t) else Select(t))
    && TrueOf(Exec(s, evs[..k]).db, op, outcome)
  }

  /** Event `k` is the UPDATE of `t` that found the row open. */
  ghost predicate MatchedAt(s: Sys, evs: seq<Event>, k: int, t: TxId, op: Op) {
    0 <= k < |evs| && Writer(op) && evs[k] == Update(t) && Open(Exec(s, evs[..k]).db, op)
  }

  /** How many transactions of `t` committed a write. */
  ghost function Writes(s: Sys, evs: seq<Event>, t: TxId): nat
    decreases |evs|
  {
    if evs == [] then 0
    else
      var init, last := evs[..|evs| - 1], evs[|evs| - 1];
      Writes(s, init, t)
      + if last.CommitTx? && last.tx == t && Atomic(Exec(s, init), last) != [] then 1 else 0
  }

  ghost predicate WonAt(s: Sys, evs: seq<Event>, k: int, t: TxId, op: Op) {
    && 0 <= k < |evs| && evs[k].CommitTx? && evs[k].tx == t && Writer(op)
    && var before := Exec(s, evs[..k]).db;
    && Succeeds(before, op)
    && Exec(s, evs[..k + 1]).db == Commit(before, op)
    && Enacts(before, Exec(s, evs[..k + 1]).db, op)
  }

  ghost predicate TwoFreeReads(s: Sys, evs: seq<Event>, t: TxId, op: Op) {
    exists j, k :: j < k && ReadAt(s, evs, j, t, op, Conflict) && ReadAt(s, evs, k, t, op, Conflict)
  }

  /** What the record of a transaction's past says at each of its states. */
  ghost predicate Story(s: Sys, evs: seq<Event>, t: TxId) {
    t in Exec(s, evs).txs ==>
      var tx := Exec(s, evs).txs[t];
      && Writes(s, evs, t) <= 1
      && (Writes(s, evs, t) == 1 ==> tx.Done? && (tx.outcome.Wrote? || tx.outcome.Failed?))
      && (Writes(s, evs, t) == 1 ==> exists k :: WonAt(s, evs, k, t, tx.op))
      && (tx.Holding? || tx.Inserted? || Writes(s, evs, t) == 1 ==> exists k :: MatchedAt(s, evs, k, t, tx.op))
      && ((tx.Trying? || tx.Missed?) && tx.attempt > 0 ==> exists k :: ReadAt(s, evs, k, t, tx.op, Conflict))
      && (tx.Settled? ==>
            && !tx.outcome.Wrote? && !tx.outcome.Conflict? && !tx.outcome.Failed?
            && exists k :: ReadAt(s, evs, k, t, tx.op, tx.outcome))
      && (tx.Done? ==>
            match tx.outcome
            case Wrote => Writes(s, evs, t) == 1
            case Conflict => TwoFreeReads(s, evs, t, tx.op)
            case Failed => true
            case _ => exists k :: ReadAt(s, evs, k, t, tx.op, tx.outcome))
  }

  lemma ReadKept(s: Sys, evs: seq<Event>, k: int, t: TxId, op: Op, outcome: Outcome)
    requires evs != [] && ReadAt(s, evs[..|evs| - 1], k, t, op, outcome)
    ensures ReadAt(s, evs, k, t, op, outcome)
  {
    assert evs[..|evs| - 1][..k] == evs[..k];
  }

  lemma {:induction false} NoWrites(s: Sys, evs: seq<Event>, t: TxId)
    requires t !in Exec(s, evs).txs
    ensures Writes(s, evs, t) == 0
    decreases |evs|
  {
    if evs != [] {
      NoWrites(s, evs[..|evs| - 1], t);
    }
  }

  /** One step of another party leaves `t` and its record as they were. */
  lemma StoryOther(s: Sys, evs: seq<Event>, t: TxId)
    requires evs != [] && Story(s, evs[..|evs| - 1], t)
    requires t in Exec(s, evs[..|evs| - 1]).txs
    requires Exec(s, evs).txs[t] == Exec(s, evs[..|evs| - 1]).txs[t]
    requires Writes(s, evs, t) == Writes(s, evs[..|evs| - 1], t)
    ensures Story(s, evs, t)
  {
    var init := evs[..|evs| - 1];
    var tx := Exec(s, init).txs[t];
    forall k, o | ReadAt(s, init, k, t, tx.op, o) ensures ReadAt(s, evs, k, t, tx.op, o) {
      ReadKept(s, evs, k, t, tx.op, o);
    }
    forall k | WonAt(s, init, k, t, tx.op) ensures WonAt(s, evs, k, t, tx.op) {
      assert init[..k] == evs[..k] && init[..k + 1] == evs[..k + 1];
    }
    forall k | MatchedAt(s, init, k, t, tx.op) ensures MatchedAt(s, evs, k, t, tx.op) {
      assert init[..k] == evs[..k];
    }
  }

  lemma StoryOwn(s: Sys, evs: seq<Event>, t: TxId)
    requires evs != [] && Story(s, evs[..|evs| - 1], t)
    requires var mid := Exec(s, evs[..|evs| - 1]);
             Inv(mid) && Enabled(mid, evs[|evs| - 1]) && t in mid.txs
    requires var last := evs[|evs| - 1];
             !last.Begin? && !last.World? && !last.Tick? && last.tx == t
    ensures Story(s, evs, t)
  {
    var init, last := evs[..|evs| - 1], evs[|evs| - 1];
    var mid, n := Exec(s, init), |evs| - 1;
    var tx := mid.txs[t];
    assert evs[..n] == init && evs[..n + 1] == evs;
    forall k, o | ReadAt(s, init, k, t, tx.op, o) ensures ReadAt(s, evs, k, t, tx.op, o) {
      ReadKept(s, evs, k, t, tx.op, o);
    }
    forall k | MatchedAt(s, init, k, t, tx.op) ensures MatchedAt(s, evs, k, t, tx.op) {
      assert init[..k] == evs[..k];
    }
    CommitEnacts(mid.db, tx.op);
    match last {
      case CommitTx(_, _) =>
        if tx.Inserted? {
          assert WonAt(s, evs, n, t, tx.op);
        }
      case Select(_) =>
        ClassifyTrue(mid.db, tx.op);
        assert ReadAt(s, evs, n, t, tx.op, Classify(mid.db, tx.op));
      case Update(_) =>
        if Hits(mid.db, tx.op) {
          assert MatchedAt(s, evs, n, t, tx.op);
        } else if tx.op.BatchCheckIn? {
          assert ReadAt(s, evs, n, t, tx.op, NothingMatched);
        }
      case _ =>
    }
  }

  lemma {:induction false} RunStory(s: Sys, evs: seq<Event>, t: TxId)
    requires Inv(s) && ValidRun(s, evs) && t !in s.txs
    ensures Story(s, evs, t)
    decreases |evs|
  {
    if evs != [] {
      var init, last := evs[..|evs| - 1], evs[|evs| - 1];
      ValidPrefix(s, evs);
      RunStory(s, init, t);
      InvRun(s, init);
      if t !in Exec(s, init).txs {
        NoWrites(s, init, t);
      } else if last.Begin? || last.World? || last.Tick? || last.tx != t {
        StoryOther(s, evs, t);
      } else {
        StoryOwn(s, evs, t);
      }
    }
  }

  /** Outcomes are true, for any interleaving: "checked_in" only when this call's own UPDATE
      flipped a live, unblocked row, and exactly one feed row was committed with it; an error
      leaves open whether it did, because the answer to a COMMIT can be lost, but it did at most
      once; every other outcome wrote nothing and reports a state of the row that held at a
      moment inside the call; the conflict error needs two attempts that both read a free row. */
  lemma OutcomesHold(s: Sys, evs: seq<Event>, t: TxId)
    requires Inv(s) && ValidRun(s, evs) && t !in s.txs
    requires t in Exec(s, evs).txs && Exec(s, evs).txs[t].Done?
    ensures var tx := Exec(s, evs).txs[t];
            && (Writes(s, evs, t) == 0 || Writes(s, evs, t) == 1)
            && (tx.outcome.Wrote? ==> Writes(s, evs, t) == 1)
            && (Writes(s, evs, t) == 1 ==> tx.outcome.Wrote? || tx.outcome.Failed?)
            && (Writes(s, evs, t) == 1 ==> exists k :: WonAt(s, evs, k, t, tx.op))
            && (Writes(s, evs, t) == 1 ==> exists k :: MatchedAt(s, evs, k, t, tx.op))
            && (tx.outcome.Conflict? ==> TwoFreeReads(s, evs, t, tx.op))
            && (!tx.outcome.Wrote? && !tx.outcome.Conflict? && !tx.outcome.Failed? ==>
                  exists k :: ReadAt(s, evs, k, t, tx.op, tx.outcome))
  {
    RunStory(s, evs, t);
  }
}
