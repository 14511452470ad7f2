/** Sync push: the mobile client's overwrites and offline creations, the plan's attendee limit
    per event, and the monitor notifications owed afterwards. */
module SyncPush {
  import opened Answers
  import opened Options
  import opened Checkin
  import opened Monitor
  import CheckinStore

  datatype LimitValue = Number(x: real) | NotNumber

  /** The attendees_per_event entries of a tenant's subscription and of its plan. */
  datatype Subscription = Subscription(custom: Option<LimitValue>, plan: Option<LimitValue>)

  datatype Limit = Unknown | Unlimited | AtMost(n: int)

  /** resolveTenantLimit: None is an error; a custom 0 counts as absent. */
  function ResolveTenantLimit(sub: Option<Subscription>): Option<real> {
    if sub.None? || sub.value.custom == Some(NotNumber) then None
    else
      var custom := if sub.value.custom.Some? then sub.value.custom.value.x else 0.0;
      if custom != 0.0 || sub.value.plan.None? then Some(custom)
      else if sub.value.plan.value.NotNumber? then None
      else Some(sub.value.plan.value.x)
  }

  /** A Go float-to-int conversion truncates toward zero. */
  function Truncated(x: real): int {
    if x >= 0.0 then x.Floor else -((-x).Floor)
  }

  function AttendeeLimit(sub: Option<Subscription>): Limit {
    var limit := ResolveTenantLimit(sub);
    if limit.None? then Unknown
    else if limit.value == -1.0 then Unlimited
    else AtMost(Truncated(limit.value))
  }

  /** CheckAttendeeLimit, failing closed: an error in either query blocks. */
  ghost predicate Allowed(db: Db, limit: Limit, countFails: bool, e: EventId, adding: nat) {
    match limit
    case Unknown => false
    case Unlimited => true
    case AtMost(n) => !countFails && |Live(db, e)| + adding <= n
  }

  /** The promise of a limit over one push. */
  predicate Within(limit: Limit, before: nat, after: nat) {
    after <= before || limit.Unlimited? || (limit.AtMost? && after <= limit.n)
  }

  /** The entries of a subscription let an event have n attendees: a custom number other than 0
      decides; without one, or with 0, the plan's number does, and no entry at all is 0.  -1 is
      no limit.  A missing subscription and an entry that is no number let nothing in. */
  predicate Grants(sub: Option<Subscription>, n: nat) {
    match sub
    case None => false
    case Some(Subscription(custom, plan)) =>
      match custom {
        case Some(NotNumber) => false
        case Some(Number(x)) => if x == 0.0 then PlanGrants(plan, n) else x == -1.0 || n as real <= x
        case None => PlanGrants(plan, n)
      }
  }

  predicate PlanGrants(plan: Option<LimitValue>, n: nat) {
    match plan
    case None => n == 0
    case Some(NotNumber) => false
    case Some(Number(y)) => y == -1.0 || n as real <= y
  }

  /** No count is taken at all when the number that decides is -1. */
  predicate NoLimit(sub: Option<Subscription>) {
    && sub.Some?
    && (sub.value.custom == Some(Number(-1.0))
        || ((sub.value.custom == None || sub.value.custom == Some(Number(0.0))) && sub.value.plan == Some(Number(-1.0))))
  }

  /** Some creation is refused: the limit check of this many at once fails. */
  predicate Refuses(sub: Option<Subscription>, countFails: bool, live: nat, adding: nat) {
    !NoLimit(sub) && (countFails || !Grants(sub, live + adding))
  }

  lemma TruncatedAtMost(n: nat, x: real)
    ensures n > 0 ==> (n <= Truncated(x) <==> n as real <= x)
    ensures n <= Truncated(x) ==> n == 0 || n as real <= x
  {
  }

  /** The limit check, and the promise of the limit, in terms of the entries. */
  lemma LimitByEntries(sub: Option<Subscription>, db: Db, countFails: bool, e: EventId, adding: nat, before: nat, after: nat)
    ensures adding > 0 ==> (Allowed(db, AttendeeLimit(sub), countFails, e, adding) <==>
                              !Refuses(sub, countFails, |Live(db, e)|, adding))
    ensures Within(AttendeeLimit(sub), before, after) <==> after <= before || Grants(sub, after)
  {
    if sub.Some? {
      match sub.value.custom {
        case Some(Number(x)) => TruncatedAtMost(|Live(db, e)| + adding, x); TruncatedAtMost(after, x);
        case _ =>
      }
      match sub.value.plan {
        case Some(Number(y)) => TruncatedAtMost(|Live(db, e)| + adding, y); TruncatedAtMost(after, y);
        case _ =>
      }
    }
  }

  /** Faults of the five store calls made for one updated attendee. */
  datatype Faults = Faults(lookup: bool, event: bool, transition: Answer, feed: Answer, update: Answer)

  datatype Update = Update(attendee: AttendeeId, columns: Attendee, feedId: ActionId, now: Time, faults: Faults)

  /** The update reaches a live attendee of one of the tenant's events. */
  predicate Reached(db: Db, u: Update, owned: set<EventId>) {
    && !u.faults.lookup && !u.faults.event
    && u.attendee in db.attendees && !db.attendees[u.attendee].deleted
    && db.attendees[u.attendee].event in owned
  }

  /** Its guarded UPDATE flips the check-in status. */
  predicate Flips(db: Db, u: Update, owned: set<EventId>) {
    Reached(db, u, owned) && u.faults.transition.Answered? && db.attendees[u.attendee].status != u.columns.status
  }

  /** The update changes its row behind an error that makes the loop go on to the next one: a
      flip whose answer is lost, or, without a flip, an overwrite whose answer is lost. */
  predicate SilentUpdate(db: Db, u: Update, owned: set<EventId>) {
    && Reached(db, u, owned)
    && var row := db.attendees[u.attendee];
       || (u.faults.transition.Lost? && row.status != u.columns.status)
       || (u.faults.transition.Answered? && row.status == u.columns.status && u.faults.update.Lost?
           && row != u.columns.(event := row.event))
  }

  /** The update marks its event for a publish: its flip, or its overwrite, is answered. */
  predicate MarksUpdate(db: Db, u: Update, owned: set<EventId>) {
    Reached(db, u, owned) && u.faults.transition.Answered? && (Flips(db, u, owned) || u.faults.update.Answered?)
  }

  predicate MarksCreation(db: Db, c: Creation, blocked: set<EventId>) {
    c.event !in blocked && c.stored.Answered? && c.newId !in db.attendees
  }

  /** The creation is stored behind an error. */
  predicate SilentCreation(db: Db, c: Creation, blocked: set<EventId>) {
    c.event !in blocked && c.stored.Lost? && c.newId !in db.attendees
  }

  /** In the state it met, some update of event e was silent, or marked the event. */
  ghost predicate Updated(seen: seq<Db>, updates: seq<Update>, owned: set<EventId>, silent: bool, e: EventId)
    requires |seen| >= |updates|
  {
    exists i :: 0 <= i < |updates| && UpdateIs(seen[i], updates[i], owned, silent, e)
  }

  ghost predicate UpdateIs(db: Db, u: Update, owned: set<EventId>, silent: bool, e: EventId) {
    (if silent then SilentUpdate(db, u, owned) else MarksUpdate(db, u, owned)) && db.attendees[u.attendee].event == e
  }

  /** The same for creations. */
  ghost predicate Created(seen: seq<Db>, pending: seq<Creation>, blocked: set<EventId>, silent: bool, e: EventId)
    requires |seen| >= |pending|
  {
    exists i :: 0 <= i < |pending| && CreationIs(seen[i], pending[i], blocked, silent, e)
  }

  ghost predicate CreationIs(db: Db, c: Creation, blocked: set<EventId>, silent: bool, e: EventId) {
    (if silent then SilentCreation(db, c, blocked) else MarksCreation(db, c, blocked)) && c.event == e
  }

  /** Such an update does change what the monitor of its event shows. */
  lemma SilentUpdateShows(db: Db, u: Update, owned: set<EventId>)
    requires SilentUpdate(db, u, owned)
    ensures var op := if u.faults.transition.Lost? then Transition(u.attendee, u.columns.status, u.columns.at, u.columns.staff)
                      else Overwrite(u.attendee, u.columns);
            !SameEvent(db, Apply(db, op), db.attendees[u.attendee].event)
  {
  }

  lemma SilentCreationShows(db: Db, c: Creation, blocked: set<EventId>)
    requires SilentCreation(db, c, blocked)
    ensures !SameEvent(db, Apply(db, Op.CreateAttendee(c.newId, c.event, c.blocked)), c.event)
  {
    assert c.newId in Apply(db, Op.CreateAttendee(c.newId, c.event, c.blocked)).attendees;
  }

  /** The feed row of a flip: stamped with the time the row got, or now when it got none. */
  function FlipRow(u: Update, event: EventId, user: Option<UserId>): Action {
    Action(u.feedId, event, u.attendee, None, if u.columns.status then CheckinRow else UndoRow, user,
           if u.columns.status && u.columns.at.Some? then u.columns.at.value else u.now)
  }

  /** The tables after one overwrite: the transition, the row of its flip, and the full row, as far
      as they get. */
  ghost function Pushed(db: Db, u: Update, owned: set<EventId>, user: Option<UserId>): Db {
    if !Reached(db, u, owned) || u.faults.transition.RolledBack? then db
    else
      var claimed := Apply(db, Transition(u.attendee, u.columns.status, u.columns.at, u.columns.staff));
      if u.faults.transition.Lost? then claimed
      else
        var fed := if !Flips(db, u, owned) || u.faults.feed.RolledBack? then claimed
                   else Apply(claimed, FeedInsert(FlipRow(u, db.attendees[u.attendee].event, user)));
        if u.faults.update.RolledBack? then fed else Apply(fed, Overwrite(u.attendee, u.columns))
  }

  /** The same by columns. */
  lemma PushedColumns(db: Db, u: Update, owned: set<EventId>, user: Option<UserId>)
    ensures var after := Pushed(db, u, owned, user);
            && after.stations == db.stations && after.zones == db.zones
            && after.attendees == PushedRows(db, u, owned)
            && after.feed == db.feed + if Flips(db, u, owned) && !u.faults.feed.RolledBack?
                                       then [FlipRow(u, db.attendees[u.attendee].event, user)] else []
  {
    assert db.feed + [] == db.feed;
    if Reached(db, u, owned) {
      ClaimColumns(db, u);
      var claimed := Apply(db, Transition(u.attendee, u.columns.status, u.columns.at, u.columns.staff));
      assert claimed.attendees[u.attendee := u.columns] == db.attendees[u.attendee := u.columns];
      assert FeedOk(claimed, FlipRow(u, db.attendees[u.attendee].event, user));
    }
  }

  lemma ClaimColumns(db: Db, u: Update)
    requires u.attendee in db.attendees && !db.attendees[u.attendee].deleted
    ensures var after := Apply(db, Transition(u.attendee, u.columns.status, u.columns.at, u.columns.staff));
            var was := db.attendees[u.attendee];
            && after == db.(attendees := after.attendees)
            && after.attendees == db.attendees[u.attendee :=
                 if was.status == u.columns.status then was
                 else if u.columns.status then was.(status := true, at := u.columns.at, staff := u.columns.staff)
                 else was.(status := false, at := None, staff := None)]
  {
    assert db.attendees[u.attendee := db.attendees[u.attendee]] == db.attendees;
  }

  /** An overwrite shows in no event but its own, which it marks or changes silently. */
  lemma PushedProgress(start: Db, db: Db, touched: set<EventId>, u: Update, owned: set<EventId>, user: Option<UserId>)
    requires Progress(start, db, touched)
    ensures Progress(start, Pushed(db, u, owned, user),
                     touched + if MarksUpdate(db, u, owned) || SilentUpdate(db, u, owned) then {db.attendees[u.attendee].event} else {})
  {
    if !Reached(db, u, owned) || u.faults.transition.RolledBack? {
      assert touched + {} == touched;
      return;
    }
    var event := db.attendees[u.attendee].event;
    var more := touched + if MarksUpdate(db, u, owned) || SilentUpdate(db, u, owned) then {event} else {};
    var claim := Transition(u.attendee, u.columns.status, u.columns.at, u.columns.staff);
    var claimed := Apply(db, claim);
    WriteOne(start, db, touched, more, claim, event);
    ClaimColumns(db, u);
    if u.faults.transition.Answered? {
      var row := FlipRow(u, event, user);
      var fed := if !Flips(db, u, owned) || u.faults.feed.RolledBack? then claimed else Apply(claimed, FeedInsert(row));
      if Flips(db, u, owned) {
        WriteOne(start, claimed, more, more, FeedInsert(row), event);
      }
      if !u.faults.update.RolledBack? {
        assert event in more || fed.attendees[u.attendee := u.columns.(event := event)] == fed.attendees;
        WriteOne(start, fed, more, more, Overwrite(u.attendee, u.columns), event);
      }
    }
  }

  /** The client's row but for its event when the full row is written; otherwise status, time and
      staff member of a flip, and nothing when the status was the same. */
  function PushedRows(db: Db, u: Update, owned: set<EventId>): map<AttendeeId, Attendee> {
    if !Reached(db, u, owned) || u.faults.transition.RolledBack? then db.attendees
    else
      var was := db.attendees[u.attendee];
      db.attendees[u.attendee :=
        if u.faults.transition.Answered? && !u.faults.update.RolledBack? then u.columns.(event := was.event)
        else if was.status == u.columns.status then was
        else if u.columns.status then was.(status := true, at := u.columns.at, staff := u.columns.staff)
        else was.(status := false, at := None, staff := None)]
  }

  /** `found` says whether the event lookup goes through, `stored` how the INSERT ends. */
  datatype Creation = Creation(event: EventId, blocked: bool, newId: AttendeeId, found: bool, stored: Answer)

  function PendingOf(creations: seq<Creation>, owned: set<EventId>): seq<Creation> {
    if creations == [] then []
    else
      var c := creations[|creations| - 1];
      PendingOf(creations[..|creations| - 1], owned) + if c.found && c.event in owned then [c] else []
  }

  function Adding(pending: seq<Creation>, e: EventId): nat {
    if pending == [] then 0
    else Adding(pending[..|pending| - 1], e) + if pending[|pending| - 1].event == e then 1 else 0
  }

  /** Nothing the monitor of event e shows has changed. */
  ghost predicate SameEvent(before: Db, after: Db, e: EventId) {
    && Extends(before, after)
    && (forall a :: a in before.attendees && before.attendees[a].event == e ==> after.attendees[a] == before.attendees[a])
    && (forall a :: a in after.attendees && after.attendees[a].event == e ==> a in before.attendees)
    && (forall i :: |before.feed| <= i < |after.feed| ==> after.feed[i].event != e)
    && before.stations == after.stations && before.zones == after.zones
  }

  lemma SameEventTransitive(x: Db, y: Db, z: Db, e: EventId)
    requires SameEvent(x, y, e) && SameEvent(y, z, e)
    ensures SameEvent(x, z, e)
  {
  }

  lemma ReachesStep(x: Db, y: Db, op: Op)
    requires CheckinStore.Reaches(x, y)
    ensures CheckinStore.Reaches(x, Apply(y, op))
  {
    var ops :| y == Run(x, ops);
    var more := ops + [op];
    assert more[..|more| - 1] == ops;
    assert Apply(y, op) == Run(x, more);
  }

  /** What a push may have done so far, when `touched` are the events written to: no event has
      gained a live attendee, and no other event shows any difference. */
  ghost predicate Progress(start: Db, now: Db, touched: set<EventId>) {
    && CheckinStore.Reaches(start, now)
    && (forall e: EventId :: Live(now, e) <= Live(start, e))
    && (forall e: EventId :: e !in touched ==> SameEvent(start, now, e))
  }

  /** The writes of the update loop, all of them on a row or feed of event e. */
  predicate WritesOnly(db: Db, op: Op, e: EventId) {
    match op
    case Transition(a, _, _, _) => a in db.attendees && db.attendees[a].event == e
    case FeedInsert(row) => row.event == e
    case Overwrite(a, _) => a in db.attendees && db.attendees[a].event == e && !db.attendees[a].deleted
    case _ => false
  }

  lemma WriteTouches(db: Db, op: Op, e: EventId)
    requires WritesOnly(db, op, e)
    ensures forall f: EventId :: Live(Apply(db, op), f) <= Live(db, f)
    ensures forall f: EventId :: f != e ==> SameEvent(db, Apply(db, op), f)
  {
  }

  lemma ProgressStep(start: Db, now: Db, touched: set<EventId>, op: Op, e: EventId)
    requires Progress(start, now, touched) && WritesOnly(now, op, e)
    ensures Progress(start, Apply(now, op), touched + {e})
    ensures Apply(now, op) == now ==> Progress(start, Apply(now, op), touched)
  {
    WriteTouches(now, op, e);
    ReachesStep(start, now, op);
    forall f: EventId | f !in touched + {e}
      ensures SameEvent(start, Apply(now, op), f)
    {
      SameEventTransitive(start, now, Apply(now, op), f);
    }
  }

  /** One push with everything it meets: the tenant's events, the subscription each limit check
      reads, and whether its count query fails. */
  datatype Push = Push(
    updates: seq<Update>,
    creations: seq<Creation>,
    owned: set<EventId>,
    user: Option<UserId>,
    subs: EventId -> Option<Subscription>,
    countFails: EventId -> bool)

  /** No push of the run lets event e have more than `top` attendees. */
  ghost predicate Capped(pushes: seq<Push>, e: EventId, top: int) {
    forall i, n: nat :: 0 <= i < |pushes| && n > top ==> !Grants(pushes[i].subs(e), n)
  }

  /** Creations that may have been added to event e after the entries `done`. */
  function Room(done: seq<Creation>, blocked: set<EventId>, e: EventId): nat {
    if e in blocked then 0 else Adding(done, e)
  }

  /** What the creation loop may have done so far. */
  ghost predicate Grown(start: Db, mid: Db, now: Db, touched: set<EventId>, done: seq<Creation>, blocked: set<EventId>) {
    && CheckinStore.Reaches(start, now)
    && (forall e: EventId :: |Live(now, e)| <= |Live(mid, e)| + Room(done, blocked, e))
    && (forall e: EventId :: e !in touched ==> SameEvent(start, now, e))
  }

  lemma CreationTouches(db: Db, c: Creation)
    requires c.newId !in db.attendees
    ensures var after := Apply(db, Op.CreateAttendee(c.newId, c.event, c.blocked));
            && Live(after, c.event) == Live(db, c.event) + {c.newId}
            && forall e: EventId :: e != c.event ==> Live(after, e) == Live(db, e) && SameEvent(db, after, e)
  {
  }

  lemma RoomGrows(done: seq<Creation>, blocked: set<EventId>, c: Creation)
    ensures forall e: EventId :: Room(done + [c], blocked, e) ==
              Room(done, blocked, e) + if e == c.event && e !in blocked then 1 else 0
  {
    var more := done + [c];
    assert more[..|more| - 1] == done;
  }

  lemma GrownSkip(start: Db, mid: Db, now: Db, touched: set<EventId>, done: seq<Creation>, blocked: set<EventId>, c: Creation)
    requires Grown(start, mid, now, touched, done, blocked)
    ensures Grown(start, mid, now, touched, done + [c], blocked)
  {
    RoomGrows(done, blocked, c);
  }

  lemma GrownStore(start: Db, mid: Db, now: Db, touched: set<EventId>, done: seq<Creation>, blocked: set<EventId>, c: Creation)
    requires Grown(start, mid, now, touched, done, blocked) && c.event !in blocked && c.newId !in now.attendees
    ensures Grown(start, mid, Apply(now, Op.CreateAttendee(c.newId, c.event, c.blocked)), touched + {c.event}, done + [c], blocked)
  {
    var after := Apply(now, Op.CreateAttendee(c.newId, c.event, c.blocked));
    RoomGrows(done, blocked, c);
    CreationTouches(now, c);
    ReachesStep(start, now, Op.CreateAttendee(c.newId, c.event, c.blocked));
    forall e: EventId | e !in touched + {c.event}
      ensures SameEvent(start, after, e)
    {
      SameEventTransitive(start, now, after, e);
    }
  }

  ghost predicate Counted(pending: seq<Creation>, count: map<EventId, nat>) {
    forall e: EventId :: (e in count <==> Adding(pending, e) > 0) && (e in count ==> count[e] == Adding(pending, e))
  }

  lemma CountedStep(pending: seq<Creation>, count: map<EventId, nat>, c: Creation)
    requires Counted(pending, count)
    ensures Counted(pending + [c], count[c.event := (if c.event in count then count[c.event] else 0) + 1])
  {
    var more := pending + [c];
    assert more[..|more| - 1] == pending;
    assert forall e :: Adding(more, e) == Adding(pending, e) + if c.event == e then 1 else 0;
  }

  /** The live count of every event stays within its limit, whatever was stored. */
  lemma QuotaKept(start: Db, mid: Db, now: Db, updated: set<EventId>, touched: set<EventId>, pending: seq<Creation>,
                  blocked: set<EventId>, limit: Limit, countFails: bool, e: EventId)
    requires Progress(start, mid, updated) && Grown(start, mid, now, touched, pending, blocked)
    requires Adding(pending, e) > 0 && e !in blocked ==> Allowed(mid, limit, countFails, e, Adding(pending, e))
    ensures Within(limit, |Live(start, e)|, |Live(now, e)|)
  {
    Smaller(Live(mid, e), Live(start, e));
  }

  lemma {:induction false} Smaller(x: set<AttendeeId>, y: set<AttendeeId>)
    requires x <= y
    ensures |x| <= |y|
  {
    assert y == x + (y - x);
  }

  lemma UpdatedGrows(seen: seq<Db>, now: Db, updates: seq<Update>, owned: set<EventId>, i: nat, silent: bool)
    requires |seen| == i + 1 && i < |updates|
    ensures forall e: EventId :: Updated(seen + [now], updates[..i + 1], owned, silent, e) <==>
              Updated(seen, updates[..i], owned, silent, e) || UpdateIs(seen[i], updates[i], owned, silent, e)
  {
    var init, more, states := updates[..i], updates[..i + 1], seen + [now];
    forall e: EventId
      ensures Updated(states, more, owned, silent, e) <==>
                Updated(seen, init, owned, silent, e) || UpdateIs(seen[i], updates[i], owned, silent, e)
    {
      if k :| 0 <= k < i && UpdateIs(seen[k], init[k], owned, silent, e) {
        assert UpdateIs(states[k], more[k], owned, silent, e);
      }
      if UpdateIs(seen[i], updates[i], owned, silent, e) {
        assert UpdateIs(states[i], more[i], owned, silent, e);
      }
      if k :| 0 <= k < i + 1 && UpdateIs(states[k], more[k], owned, silent, e) {
        assert k < i ==> UpdateIs(seen[k], init[k], owned, silent, e);
      }
    }
  }

  /** `marked` are the events that the updates, made in those states, concern. */
  ghost predicate Marks(marked: set<EventId>, seen: seq<Db>, updates: seq<Update>, owned: set<EventId>, silent: bool)
    requires |seen| >= |updates|
  {
    forall e: EventId :: e in marked <==> Updated(seen, updates, owned, silent, e)
  }

  lemma MarksStep(was: set<EventId>, marked: set<EventId>, seen: seq<Db>, now: Db, updates: seq<Update>,
                  owned: set<EventId>, i: nat, silent: bool)
    requires |seen| == i + 1 && i < |updates|
    requires Marks(was, seen, updates[..i], owned, silent)
    requires forall e: EventId :: e in marked <==> e in was || UpdateIs(seen[i], updates[i], owned, silent, e)
    ensures Marks(marked, seen + [now], updates[..i + 1], owned, silent)
  {
    UpdatedGrows(seen, now, updates, owned, i, silent);
  }

  lemma CreatedGrows(seen: seq<Db>, now: Db, pending: seq<Creation>, blocked: set<EventId>, i: nat, silent: bool)
    requires |seen| == i + 1 && i < |pending|
    ensures forall e: EventId :: Created(seen + [now], pending[..i + 1], blocked, silent, e) <==>
              Created(seen, pending[..i], blocked, silent, e) || CreationIs(seen[i], pending[i], blocked, silent, e)
  {
    var init, more, states := pending[..i], pending[..i + 1], seen + [now];
    forall e: EventId
      ensures Created(states, more, blocked, silent, e) <==>
                Created(seen, init, blocked, silent, e) || CreationIs(seen[i], pending[i], blocked, silent, e)
    {
      if k :| 0 <= k < i && CreationIs(seen[k], init[k], blocked, silent, e) {
        assert CreationIs(states[k], more[k], blocked, silent, e);
      }
      if CreationIs(seen[i], pending[i], blocked, silent, e) {
        assert CreationIs(states[i], more[i], blocked, silent, e);
      }
      if k :| 0 <= k < i + 1 && CreationIs(states[k], more[k], blocked, silent, e) {
        assert k < i ==> CreationIs(seen[k], init[k], blocked, silent, e);
      }
    }
  }

  /** `after` is `before` with the events that the creations made in those states concern. */
  ghost predicate Adds(before: set<EventId>, after: set<EventId>, seen: seq<Db>, pending: seq<Creation>,
                       blocked: set<EventId>, silent: bool)
    requires |seen| >= |pending|
  {
    forall e: EventId :: e in after <==> e in before || Created(seen, pending, blocked, silent, e)
  }

  lemma AddsStep(before: set<EventId>, was: set<EventId>, after: set<EventId>, seen: seq<Db>, now: Db,
                 pending: seq<Creation>, blocked: set<EventId>, i: nat, silent: bool)
    requires |seen| == i + 1 && i < |pending|
    requires Adds(before, was, seen, pending[..i], blocked, silent)
    requires forall e: EventId :: e in after <==> e in was || CreationIs(seen[i], pending[i], blocked, silent, e)
    ensures Adds(before, after, seen + [now], pending[..i + 1], blocked, silent)
  {
    CreatedGrows(seen, now, pending, blocked, i, silent);
  }

  /** Every creation that is not blocked, and whose INSERT was not rolled back, has its row. */
  predicate InPlace(db: Db, pending: seq<Creation>, blocked: set<EventId>) {
    forall i :: 0 <= i < |pending| && pending[i].event !in blocked && !pending[i].stored.RolledBack? ==>
      pending[i].newId in db.attendees
  }

  lemma InPlaceStep(was: Db, now: Db, pending: seq<Creation>, blocked: set<EventId>, i: nat)
    requires i < |pending| && InPlace(was, pending[..i], blocked) && was.attendees.Keys <= now.attendees.Keys
    requires pending[i].event !in blocked && !pending[i].stored.RolledBack? ==> pending[i].newId in now.attendees
    ensures InPlace(now, pending[..i + 1], blocked)
  {
    forall k | 0 <= k < i + 1 && pending[k].event !in blocked && !pending[k].stored.RolledBack?
      ensures pending[k].newId in now.attendees
    {
      if k < i {
        assert pending[..i][k] == pending[k];
        assert pending[k].newId in was.attendees.Keys;
      }
    }
  }

  lemma {:induction false} AddingCounts(pending: seq<Creation>, i: nat)
    requires i < |pending|
    ensures Adding(pending, pending[i].event) > 0
    decreases |pending|
  {
    if i < |pending| - 1 {
      AddingCounts(pending[..|pending| - 1], i);
    }
  }

  lemma CreatedIsPending(seen: seq<Db>, pending: seq<Creation>, blocked: set<EventId>, silent: bool, e: EventId)
    requires |pending| <= |seen|
    ensures Created(seen, pending, blocked, silent, e) ==> Adding(pending, e) > 0
  {
    if i :| 0 <= i < |pending| && CreationIs(seen[i], pending[i], blocked, silent, e) {
      AddingCounts(pending, i);
    }
  }

  /** A write to event e, which `more` lists, or one that changes nothing. */
  lemma WriteOne(start: Db, now: Db, touched: set<EventId>, more: set<EventId>, op: Op, e: EventId)
    requires Progress(start, now, touched) && WritesOnly(now, op, e) && touched <= more
    requires e in more || Apply(now, op) == now
    ensures Progress(start, Apply(now, op), more)
  {
    ProgressStep(start, now, touched, op, e);
  }

  class Handler {
    var db: Db

    constructor (db: Db)
      ensures this.db == db
    {
      this.db := db;
    }

    method TransitionAttendeeCheckinStatus(a: AttendeeId, target: bool, at: Option<Time>, staff: Option<UserId>)
      returns (flipped: bool)
      modifies this
      ensures db == Apply(old(db), Transition(a, target, at, staff))
      ensures flipped <==> db != old(db)
    {
      flipped := a in db.attendees && !db.attendees[a].deleted && db.attendees[a].status != target;
      if flipped {
        var row := db.attendees[a];
        row := if target then row.(status := true, at := at, staff := staff) else row.(status := false, at := None, staff := None);
        db := db.(attendees := db.attendees[a := row]);
        assert db.attendees[a] != old(db).attendees[a];
      }
    }

    method InsertCheckinActionAt(row: Action)
      modifies this
      ensures db == Apply(old(db), FeedInsert(row))
    {
      if FeedOk(db, row) {
        db := db.(feed := db.feed + [row]);
      }
    }

    method UpdateAttendee(a: AttendeeId, columns: Attendee)
      modifies this
      ensures db == Apply(old(db), Overwrite(a, columns))
    {
      if a in db.attendees {
        db := db.(attendees := db.attendees[a := columns.(event := db.attendees[a].event)]);
      }
    }

    method CreateAttendee(c: Creation) returns (ok: bool)
      modifies this
      ensures db == if !c.stored.RolledBack? && c.newId !in old(db).attendees
                    then Apply(old(db), Op.CreateAttendee(c.newId, c.event, c.blocked)) else old(db)
      ensures ok <==> c.stored.Answered? && c.newId !in old(db).attendees
      ensures db == if c.stored.RolledBack? || c.newId in old(db).attendees then old(db)
                    else old(db).(attendees := old(db).attendees[c.newId :=
                                    Attendee(c.event, false, None, None, None, None, c.blocked, false)])
    {
      ok := false;
      if !c.stored.RolledBack? && c.newId !in db.attendees {
        db := db.(attendees := db.attendees[c.newId := Attendee(c.event, false, None, None, None, None, c.blocked, false)]);
        ok := c.stored.Answered?;
      }
    }

    /** One entry of the updated list.  The result is the set of events to publish; `silent'` adds
        the event of a row changed behind an error. */
    method PushUpdate(u: Update, owned: set<EventId>, user: Option<UserId>, ghost start: Db, affected: set<EventId>,
                      ghost silent: set<EventId>)
      returns (grown: set<EventId>, ghost silent': set<EventId>)
      requires Progress(start, db, affected + silent) && affected <= owned && silent <= owned
      modifies this
      ensures Progress(start, db, grown + silent') && affected <= grown <= owned
      ensures silent' == silent + if SilentUpdate(old(db), u, owned) then {old(db).attendees[u.attendee].event} else {}
      ensures grown == affected + if MarksUpdate(old(db), u, owned) then {old(db).attendees[u.attendee].event} else {}
      ensures db.feed == old(db).feed + if Flips(old(db), u, owned) && !u.faults.feed.RolledBack?
                                        then [FlipRow(u, old(db).attendees[u.attendee].event, user)] else []
      ensures Flips(old(db), u, owned) && !u.faults.feed.RolledBack? ==>
                && |db.feed| == |old(db).feed| + 1
                && var row := db.feed[|old(db).feed|];
                && row.event == old(db).attendees[u.attendee].event && row.attendee == u.attendee
                && row.station == None && row.staff == user && row.id == u.feedId
                && (u.columns.status ==>
                      && row.kind == CheckinRow
                      && row.at == if u.columns.at.Some? then u.columns.at.value else u.now)
                && (!u.columns.status ==> row.kind == UndoRow && row.at == u.now)
      ensures db.stations == old(db).stations && db.zones == old(db).zones
      ensures db == Pushed(old(db), u, owned, user) && db.attendees == PushedRows(old(db), u, owned)
      ensures u.faults.lookup || u.faults.event || u.attendee !in old(db).attendees || old(db).attendees[u.attendee].deleted ==>
                db == old(db) && grown == affected
    {
      grown, silent' := affected, silent;
      PushedColumns(db, u, owned, user);
      PushedProgress(start, db, affected + silent, u, owned, user);
      if u.faults.lookup || u.attendee !in db.attendees || db.attendees[u.attendee].deleted {
        return;
      }
      var event := db.attendees[u.attendee].event;
      if u.faults.event || event !in owned || u.faults.transition.RolledBack? {
        return;
      }
      if SilentUpdate(db, u, owned) {
        silent' := silent + {event};
      }
      var target := u.columns.status;
      var flipped := TransitionAttendeeCheckinStatus(u.attendee, target, u.columns.at, u.columns.staff);
      if u.faults.transition.Lost? {
        return;
      }
      if flipped {
        grown := affected + {event};
        if !u.faults.feed.RolledBack? {
          InsertCheckinActionAt(FlipRow(u, event, user));
        }
      }
      if u.faults.update.RolledBack? {
        return;
      }
      UpdateAttendee(u.attendee, u.columns);
      if u.faults.update.Answered? {
        grown := grown + {event};
      }
    }

    /** The update loop; `seen` are the states its entries meet, and the one after the last. */
    method PushUpdates(updates: seq<Update>, owned: set<EventId>, user: Option<UserId>)
      returns (affected: set<EventId>, ghost silent: set<EventId>, ghost seen: seq<Db>)
      modifies this
      ensures Progress(old(db), db, affected + silent) && affected <= owned && silent <= owned
      ensures |seen| == |updates| + 1 && seen[0] == old(db) && seen[|updates|] == db
      ensures Marks(silent, seen, updates, owned, true) && Marks(affected, seen, updates, owned, false)
    {
      affected, silent, seen := {}, {}, [db];
      assert db == Run(db, []);
      var i := 0;
      while i < |updates|
        invariant 0 <= i <= |updates| && |seen| == i + 1 && seen[0] == old(db) && seen[i] == db
        invariant Progress(old(db), db, affected + silent) && affected <= owned && silent <= owned
        invariant Marks(silent, seen, updates[..i], owned, true) && Marks(affected, seen, updates[..i], owned, false)
      {
        ghost var wasAffected, wasSilent := affected, silent;
        affected, silent := PushUpdate(updates[i], owned, user, old(db), affected, silent);
        MarksStep(wasSilent, silent, seen, db, updates, owned, i, true);
        MarksStep(wasAffected, affected, seen, db, updates, owned, i, false);
        seen := seen + [db];
        i := i + 1;
      }
      assert updates[..i] == updates;
    }

    static method GroupCreations(creations: seq<Creation>, owned: set<EventId>) returns (pending: seq<Creation>, count: map<EventId, nat>)
      ensures pending == PendingOf(creations, owned) && Counted(pending, count)
      ensures forall c :: multiset(pending)[c] == if c.found && c.event in owned then multiset(creations)[c] else 0
      ensures forall e: EventId :: (if e in count then count[e] else 0) == |set i | 0 <= i < |pending| && pending[i].event == e|
    {
      pending, count := [], map[];
      var i := 0;
      while i < |creations|
        invariant 0 <= i <= |creations|
        invariant pending == PendingOf(creations[..i], owned) && Counted(pending, count)
      {
        var c := creations[i];
        assert creations[..i + 1][..i] == creations[..i];
        if c.found && c.event in owned {
          CountedStep(pending, count, c);
          pending := pending + [c];
          count := count[c.event := (if c.event in count then count[c.event] else 0) + 1];
        }
        i := i + 1;
      }
      assert creations[..i] == creations;
      PendingExactly(creations, owned);
      forall e: EventId ensures Adding(pending, e) == |set i | 0 <= i < |pending| && pending[i].event == e| {
        AddingExactly(pending, e);
      }
    }

    /** One limit check per event with creations, for all of them at once. */
    method BlockedEvents(count: map<EventId, nat>, subs: EventId -> Option<Subscription>, countFails: EventId -> bool)
      returns (blocked: set<EventId>)
      ensures forall e :: e in blocked <==> e in count && !Allowed(db, AttendeeLimit(subs(e)), countFails(e), e, count[e])
      ensures forall e :: e in count && count[e] > 0 ==>
                (e in blocked <==> Refuses(subs(e), countFails(e), |Live(db, e)|, count[e]))
    {
      forall e | e in count && count[e] > 0
        ensures Allowed(db, AttendeeLimit(subs(e)), countFails(e), e, count[e])
                <==> !Refuses(subs(e), countFails(e), |Live(db, e)|, count[e])
      {
        LimitByEntries(subs(e), db, countFails(e), e, count[e], 0, 0);
      }
      blocked := {};
      var left := count.Keys;
      while left != {}
        invariant left <= count.Keys
        invariant forall e :: e in blocked <==>
                    e in count && e !in left && !Allowed(db, AttendeeLimit(subs(e)), countFails(e), e, count[e])
        decreases |left|
      {
        var e: EventId :| e in left;
        var limit := AttendeeLimit(subs(e));
        var allowed := limit.Unlimited? || (limit.AtMost? && !countFails(e) && |Live(db, e)| + count[e] <= limit.n);
        if !allowed {
          blocked := blocked + {e};
        }
        left := left - {e};
      }
    }

    method CreatePending(pending: seq<Creation>, blocked: set<EventId>, ghost start: Db, affected: set<EventId>,
                         ghost silent: set<EventId>)
      returns (grown: set<EventId>, ghost silent': set<EventId>, ghost seen: seq<Db>)
      requires Grown(start, db, db, affected + silent, [], blocked)
      modifies this
      ensures Grown(start, old(db), db, grown + silent', pending, blocked)
      ensures |seen| == |pending| + 1 && seen[0] == old(db) && seen[|pending|] == db
      ensures Adds(silent, silent', seen, pending, blocked, true)
      ensures Adds(affected, grown, seen, pending, blocked, false)
      ensures InPlace(db, pending, blocked)
    {
      grown, silent', seen := affected, silent, [db];
      var i := 0;
      while i < |pending|
        invariant 0 <= i <= |pending| && |seen| == i + 1 && seen[0] == old(db) && seen[i] == db
        invariant Grown(start, old(db), db, grown + silent', pending[..i], blocked)
        invariant Adds(silent, silent', seen, pending[..i], blocked, true)
        invariant Adds(affected, grown, seen, pending[..i], blocked, false)
        invariant InPlace(db, pending[..i], blocked)
      {
        ghost var was, wasGrown, wasSilent := db, grown, silent';
        grown, silent' := CreateOne(pending[i], blocked, start, old(db), pending[..i], grown, silent');
        InPlaceStep(was, db, pending, blocked, i);
        AddsStep(silent, wasSilent, silent', seen, db, pending, blocked, i, true);
        AddsStep(affected, wasGrown, grown, seen, db, pending, blocked, i, false);
        assert pending[..i + 1] == pending[..i] + [pending[i]];
        seen := seen + [db];
        i := i + 1;
      }
      assert pending[..i] == pending;
    }

    method CreateOne(c: Creation, blocked: set<EventId>, ghost start: Db, ghost mid: Db, ghost done: seq<Creation>,
                     affected: set<EventId>, ghost silent: set<EventId>)
      returns (grown: set<EventId>, ghost silent': set<EventId>)
      requires Grown(start, mid, db, affected + silent, done, blocked)
      modifies this
      ensures Grown(start, mid, db, grown + silent', done + [c], blocked)
      ensures grown == affected + if MarksCreation(old(db), c, blocked) then {c.event} else {}
      ensures silent' == silent + if SilentCreation(old(db), c, blocked) then {c.event} else {}
      ensures old(db).attendees.Keys <= db.attendees.Keys
      ensures db == if c.event in blocked || c.stored.RolledBack? || c.newId in old(db).attendees then old(db)
                    else old(db).(attendees := old(db).attendees[c.newId :=
                                    Attendee(c.event, false, None, None, None, None, c.blocked, false)])
      ensures c.event !in blocked && !c.stored.RolledBack? ==> c.newId in db.attendees
    {
      grown, silent' := affected, silent;
      if c.event in blocked || c.stored.RolledBack? || c.newId in db.attendees {
        GrownSkip(start, mid, db, affected + silent, done, blocked, c);
        if c.event !in blocked {
          var ok := CreateAttendee(c);
        }
        return;
      }
      GrownStore(start, mid, db, affected + silent, done, blocked, c);
      var ok := CreateAttendee(c);
      if ok {
        grown := affected + {c.event};
        assert grown + silent == affected + silent + {c.event};
      } else {
        silent' := silent + {c.event};
        assert affected + silent' == affected + silent + {c.event};
      }
    }

    /** SyncPush.  `owned` are the tenant's events and `published` the events notified at the
        end: those that some update or creation marked.  An event with a visible change is
        published, unless all its changes went in behind errors: those events are `silent`.
        Both sets are given by the states `seen` and `made` that the items meet. */
    method SyncPush(updates: seq<Update>, creations: seq<Creation>, owned: set<EventId>, user: Option<UserId>,
                    subs: EventId -> Option<Subscription>, countFails: EventId -> bool)
      returns (published: set<EventId>, ghost silent: set<EventId>, ghost blocked: set<EventId>, ghost seen: seq<Db>,
               ghost made: seq<Db>)
      modifies this
      ensures CheckinStore.Reaches(old(db), db)
      ensures forall e: EventId :: |Live(db, e)| <= |Live(old(db), e)| || Grants(subs(e), |Live(db, e)|)
      ensures forall e: EventId :: e !in published && e !in silent ==> SameEvent(old(db), db, e)
      ensures (forall e: EventId :: !SameEvent(old(db), db, e) ==> e in published) <==>
                (forall e: EventId :: e in silent ==> e in published || SameEvent(old(db), db, e))
      ensures published <= owned && silent <= owned
      ensures var pending := PendingOf(creations, owned);
              && |seen| == |updates| + 1 && seen[0] == old(db)
              && |made| == |pending| + 1 && made[0] == seen[|updates|] && made[|pending|] == db
              && (forall e: EventId :: e in published <==>
                    Updated(seen, updates, owned, false, e) || Created(made, pending, blocked, false, e))
              && (forall e: EventId :: e in silent <==>
                    Updated(seen, updates, owned, true, e) || Created(made, pending, blocked, true, e))
              && (forall e: EventId :: e in blocked <==>
                    Adding(pending, e) > 0 && Refuses(subs(e), countFails(e), |Live(made[0], e)|, Adding(pending, e)))
              && InPlace(db, pending, blocked)
    {
      ghost var start := db;
      published, silent, seen := PushUpdates(updates, owned, user);
      ghost var mid, updated := db, published + silent;
      var pending, count := GroupCreations(creations, owned);
      var stopped := BlockedEvents(count, subs, countFails);
      blocked := stopped;
      published, silent, made := CreatePending(pending, stopped, start, published, silent);
      forall e: EventId
        ensures |Live(db, e)| <= |Live(start, e)| || Grants(subs(e), |Live(db, e)|)
      {
        LimitByEntries(subs(e), mid, countFails(e), e, Adding(pending, e), |Live(start, e)|, |Live(db, e)|);
        QuotaKept(start, mid, db, updated, published + silent, pending, stopped, AttendeeLimit(subs(e)), countFails(e), e);
      }
      forall e: EventId
        ensures e in published || e in silent ==> e in owned
      {
        PendingOwned(creations, owned, e);
        CreatedIsPending(made, pending, stopped, true, e);
        CreatedIsPending(made, pending, stopped, false, e);
      }
    }

    /** A serial run of pushes never takes an event above the larger of its first count and the
        highest limit in force during any of them. */
    method SyncPushes(pushes: seq<Push>)
      modifies this
      ensures forall e: EventId, top: int :: Capped(pushes, e, top) ==>
                |Live(db, e)| <= |Live(old(db), e)| || |Live(db, e)| <= top
    {
      var n := 0;
      while n < |pushes|
        invariant 0 <= n <= |pushes|
        invariant forall e: EventId, top: int :: Capped(pushes, e, top) ==>
                    |Live(db, e)| <= |Live(old(db), e)| || |Live(db, e)| <= top
      {
        ghost var was := db;
        var p := pushes[n];
        var published, silent, blocked, seen, made := SyncPush(p.updates, p.creations, p.owned, p.user, p.subs, p.countFails);
        forall e: EventId, top: int | Capped(pushes, e, top)
          ensures |Live(db, e)| <= |Live(old(db), e)| || |Live(db, e)| <= top
        {
          CappedStep(pushes, n, e, top, |Live(old(db), e)|, |Live(was, e)|, |Live(db, e)|);
        }
        n := n + 1;
      }
    }
  }

  /** Pending are the creations whose event was found among the tenant's, as often as they were sent. */
  lemma {:induction false} PendingExactly(creations: seq<Creation>, owned: set<EventId>)
    ensures forall c :: multiset(PendingOf(creations, owned))[c] ==
              if c.found && c.event in owned then multiset(creations)[c] else 0
    decreases |creations|
  {
    if creations != [] {
      var n := |creations| - 1;
      PendingExactly(creations[..n], owned);
      assert creations == creations[..n] + [creations[n]];
    }
  }

  lemma {:induction false} AddingExactly(pending: seq<Creation>, e: EventId)
    ensures Adding(pending, e) == |set i | 0 <= i < |pending| && pending[i].event == e|
    decreases |pending|
  {
    var all := set i | 0 <= i < |pending| && pending[i].event == e;
    if pending == [] {
      assert all == {};
    } else {
      var n := |pending| - 1;
      AddingExactly(pending[..n], e);
      var init := set i | 0 <= i < n && pending[..n][i].event == e;
      assert all == init + if pending[n].event == e then {n} else {};
    }
  }

  lemma CappedStep(pushes: seq<Push>, n: nat, e: EventId, top: int, first: nat, before: nat, after: nat)
    requires n < |pushes| && Capped(pushes, e, top)
    requires before <= first || before <= top
    requires after <= before || Grants(pushes[n].subs(e), after)
    ensures after <= first || after <= top
  {
  }

  lemma {:induction false} PendingOwned(creations: seq<Creation>, owned: set<EventId>, e: EventId)
    ensures Adding(PendingOf(creations, owned), e) > 0 ==> e in owned
  {
    if creations != [] {
      var n := |creations| - 1;
      PendingOwned(creations[..n], owned, e);
      var c := creations[n];
      var rest := PendingOf(creations[..n], owned);
      assert (rest + [c])[..|rest|] == rest && rest + [] == rest;
    }
  }
}
