/** Several batch requests in flight at once: the log lookup, the writes and the log INSERT of an
    item are separate statements, and anything may commit between them. */
module BatchFlight {
  import opened Checkin
  import opened CheckinHistory
  import opened Batch
  import opened Options
  import opened Answers

  type RequestId = nat

  /** An item that was not logged when it was looked up, before and after its writes. */
  datatype Phase = LookedUp(item: Item) | Written(item: Item)

  datatype Flight = Flight(store: Store, requests: map<RequestId, Phase>)

  datatype Step =
    | Lookup(r: RequestId, item: Item)
    | Write(r: RequestId, event: EventId, staff: UserId, id: ActionId, faults: Faults)
    | Log(r: RequestId)
    | Drop(r: RequestId)   // any failure, or the verdict of a logged item
    | World(op: Op)

  ghost function Next(fl: Flight, s: Step): Flight {
    match s
    case Lookup(r, item) =>
      if r in fl.requests || item.client in fl.store.log then fl
      else fl.(requests := fl.requests[r := LookedUp(item)])
    case Write(r, event, staff, id, f) =>
      if r !in fl.requests || !fl.requests[r].LookedUp? then fl
      else
        var item := fl.requests[r].item;
        var (st, result) := WriteItem(fl.store, event, staff, item, id, f);
        Flight(st, if result.Error? then fl.requests - {r} else fl.requests[r := Written(item)])
    case Log(r) =>
      if r !in fl.requests || !fl.requests[r].Written? then fl
      else Flight(fl.store.(log := fl.store.log + {fl.requests[r].item.client}), fl.requests - {r})
    case Drop(r) => fl.(requests := fl.requests - {r})
    case World(op) => fl.(store := After(fl.store, Other(op)))
  }

  ghost function Fly(fl: Flight, steps: seq<Step>): Flight
    decreases |steps|
  {
    if steps == [] then fl else Next(Fly(fl, steps[..|steps| - 1]), steps[|steps| - 1])
  }

  lemma FlyStep(fl: Flight, steps: seq<Step>, k: nat)
    requires k < |steps|
    ensures Fly(fl, steps[..k + 1]) == Next(Fly(fl, steps[..k]), steps[k])
  {
    assert steps[..k + 1][..k] == steps[..k];
  }

  /** A request that runs alone, from its lookup to its log INSERT. */
  ghost function Alone(fl: Flight, r: RequestId, event: EventId, staff: UserId, item: Item, id: ActionId, f: Faults): Flight {
    if f.lookup then fl
    else
      var written := Next(Next(fl, Lookup(r, item)), Write(r, event, staff, id, f));
      Next(written, if f.log.RolledBack? then Drop(r) else Log(r))
  }

  /** It is ApplyBatchCheckin, whatever fails, and leaves no request behind. */
  lemma AloneIsApplyItem(fl: Flight, r: RequestId, event: EventId, staff: UserId, item: Item, id: ActionId, f: Faults)
    requires r !in fl.requests
    ensures Alone(fl, r, event, staff, item, id, f).store == ApplyItem(fl.store, event, staff, item, id, f).0
    ensures Alone(fl, r, event, staff, item, id, f).requests == fl.requests
  {
  }

  /** Step `s` changes something for `item`. */
  ghost predicate Hit(fl: Flight, s: Step, item: Item) {
    && s.Write? && s.r in fl.requests && fl.requests[s.r] == LookedUp(item)
    && Next(fl, s).store != fl.store
  }

  ghost predicate Undone(fl: Flight, s: Step, item: Item) {
    s.World? && TakesBack(fl.store, Other(s.op), item)
  }

  ghost predicate CleanFlight(fl: Flight, steps: seq<Step>, a: AttendeeId) {
    forall k :: 0 <= k < |steps| && steps[k].World? ==> Disciplined(Fly(fl, steps[..k]).store.db, steps[k].op, a)
  }

  lemma KeepsInPlace(fl: Flight, s: Step, item: Item)
    requires InPlace(fl.store, item) && !Undone(fl, s, item)
    requires s.World? ==> Disciplined(fl.store.db, s.op, item.attendee)
    ensures InPlace(Next(fl, s).store, item)
  {
    match s {
      case World(op) => StaysInPlace(fl.store, Other(op), item);
      case Write(r, event, staff, id, f) =>
        if r in fl.requests && fl.requests[r].LookedUp? {
          WriteItemKeeps(fl.store, event, staff, fl.requests[r].item, id, f, item);
        }
      case _ =>
    }
  }

  lemma {:induction false} KeptInPlace(fl: Flight, steps: seq<Step>, item: Item, i: nat, j: nat)
    requires i <= j <= |steps| && CleanFlight(fl, steps, item.attendee)
    requires InPlace(Fly(fl, steps[..i]).store, item)
    requires forall k :: i <= k < j ==> !Undone(Fly(fl, steps[..k]), steps[k], item)
    ensures InPlace(Fly(fl, steps[..j]).store, item)
    decreases j - i
  {
    if i < j {
      FlyStep(fl, steps, i);
      KeepsInPlace(Fly(fl, steps[..i]), steps[i], item);
      KeptInPlace(fl, steps, item, i + 1, j);
    }
  }

  lemma LogStep(fl: Flight, s: Step)
    ensures fl.store.log <= Next(fl, s).store.log
  {
    if s.Write? && s.r in fl.requests {
      WriteItemPuts(fl.store, s.event, s.staff, fl.requests[s.r].item, s.id, s.faults);
    }
  }

  lemma {:induction false} LogGrows(fl: Flight, steps: seq<Step>, i: nat, j: nat)
    requires i <= j <= |steps|
    ensures Fly(fl, steps[..i]).store.log <= Fly(fl, steps[..j]).store.log
    decreases j - i
  {
    if i < j {
      FlyStep(fl, steps, i);
      LogStep(Fly(fl, steps[..i]), steps[i]);
      LogGrows(fl, steps, i + 1, j);
    }
  }

  ghost predicate Waiting(fl: Flight, r: RequestId, item: Item) {
    r in fl.requests && fl.requests[r] == LookedUp(item)
  }

  lemma WaitingStep(fl: Flight, s: Step, r: RequestId, item: Item)
    requires Waiting(Next(fl, s), r, item)
    ensures Waiting(fl, r, item) || (s == Lookup(r, item) && item.client !in fl.store.log)
  {
  }

  /** A request that is about to write has looked the item up, and found it not logged. */
  lemma {:induction false} LookedUpAt(fl: Flight, steps: seq<Step>, j: nat, r: RequestId, item: Item) returns (l: nat)
    requires j <= |steps| && fl.requests == map[] && Waiting(Fly(fl, steps[..j]), r, item)
    ensures l < j && steps[l] == Lookup(r, item) && item.client !in Fly(fl, steps[..l]).store.log
    decreases j
  {
    assert steps[..0] == [];
    assert j > 0;
    FlyStep(fl, steps, j - 1);
    WaitingStep(Fly(fl, steps[..j - 1]), steps[j - 1], r, item);
    if Waiting(Fly(fl, steps[..j - 1]), r, item) {
      l := LookedUpAt(fl, steps, j - 1, r, item);
    } else {
      l := j - 1;
    }
  }

  /** Exactly when a write step changes something for a check-in item: its request has looked it up
      and not written yet, and the attendee is live, in the event and not checked in. */
  lemma CheckinHitsExactly(fl: Flight, r: RequestId, event: EventId, staff: UserId, id: ActionId, f: Faults, item: Item)
    requires item.kind.CheckinItem?
    ensures Hit(fl, Write(r, event, staff, id, f), item) <==>
              && Waiting(fl, r, item) && !f.tx
              && AttendeeLive(fl.store.db, item.attendee)
              && fl.store.db.attendees[item.attendee].event == event
              && !fl.store.db.attendees[item.attendee].status
  {
    if Waiting(fl, r, item) {
      WriteItemPuts(fl.store, event, staff, item, id, f);
      var op := ItemOp(event, staff, item, id);
      assert Hits(fl.store.db, op) && FeedOk(fl.store.db, Record(op)) ==>
          |Commit(fl.store.db, op).feed| > |fl.store.db.feed|;
    }
  }

  /** And for a zone entry: zone and attendee exist, and the day has no entry yet. */
  lemma ZoneEntryHitsExactly(fl: Flight, r: RequestId, event: EventId, staff: UserId, id: ActionId, f: Faults, item: Item)
    requires item.kind.ZoneEntryItem?
    ensures Hit(fl, Write(r, event, staff, id, f), item) <==>
              && Waiting(fl, r, item) && !f.tx && item.zone.Some?
              && item.zone.value in fl.store.db.zones && item.attendee in fl.store.db.attendees
              && !HasEntry(fl.store.entries, item.attendee, item.zone.value, Day(item.at))
  {
    if Waiting(fl, r, item) && item.zone.Some? {
      var entry := Entry(item.attendee, item.zone.value, Day(item.at), if f.rival.Some? then f.rival.value else staff);
      assert |fl.store.entries + [entry]| > |fl.store.entries|;
    }
  }

  /** The guard of an item's write in the store it meets. */
  predicate WouldWrite(st: Store, event: EventId, item: Item) {
    match item.kind
    case CheckinItem =>
      && AttendeeLive(st.db, item.attendee)
      && st.db.attendees[item.attendee].event == event
      && !st.db.attendees[item.attendee].status
    case ZoneEntryItem =>
      && item.zone.Some? && item.zone.value in st.db.zones && item.attendee in st.db.attendees
      && !HasEntry(st.entries, item.attendee, item.zone.value, Day(item.at))
    case UnknownItem => false
  }

  /** A logged item is written again if and only if a request that looked it up before it was
      logged has not written yet, and the guard of its write holds. */
  lemma LoggedWritesExactly(fl: Flight, steps: seq<Step>, r: RequestId, event: EventId, staff: UserId, id: ActionId, f: Faults,
                            item: Item)
    requires fl.requests == map[] && item.client in Fly(fl, steps).store.log
    ensures Hit(Fly(fl, steps), Write(r, event, staff, id, f), item) <==>
              Waiting(Fly(fl, steps), r, item) && !f.tx && WouldWrite(Fly(fl, steps).store, event, item)
    ensures Waiting(Fly(fl, steps), r, item) ==>
              exists l :: LookedUpBefore(fl, steps, l, r, item)
  {
    var now := Fly(fl, steps);
    assert steps[..|steps|] == steps;
    match item.kind {
      case CheckinItem => CheckinHitsExactly(now, r, event, staff, id, f, item);
      case ZoneEntryItem => ZoneEntryHitsExactly(now, r, event, staff, id, f, item);
      case UnknownItem =>
    }
    if Waiting(now, r, item) {
      var l := LookedUpAt(fl, steps, |steps|, r, item);
      forall m | 0 <= m <= |steps| && item.client in Fly(fl, steps[..m]).store.log
        ensures l < m
      {
        if m <= l {
          LogGrows(fl, steps, m, l);
        }
      }
      assert LookedUpBefore(fl, steps, l, r, item);
    }
  }

  /** Step l looked the item up for request r, before every point at which it was logged. */
  ghost predicate LookedUpBefore(fl: Flight, steps: seq<Step>, l: int, r: RequestId, item: Item) {
    && 0 <= l < |steps| && steps[l] == Lookup(r, item)
    && forall m :: 0 <= m <= |steps| && item.client in Fly(fl, steps[..m]).store.log ==> l < m
  }

  /** Over any interleaving of requests with any failures: if two steps both write for one item,
      what the first put in place was taken back in between; and if the item was logged at any
      point before the second, the second request had looked it up before that. */
  lemma SecondWrite(fl: Flight, steps: seq<Step>, item: Item, i: nat, j: nat)
    requires i < j < |steps| && fl.requests == map[] && CleanFlight(fl, steps, item.attendee)
    requires Hit(Fly(fl, steps[..i]), steps[i], item) && Hit(Fly(fl, steps[..j]), steps[j], item)
    ensures exists k :: i < k < j && Undone(Fly(fl, steps[..k]), steps[k], item)
    ensures exists l :: 0 <= l < j && steps[l] == Lookup(steps[j].r, item)
                        && forall m :: 0 <= m <= j && item.client in Fly(fl, steps[..m]).store.log ==> l < m
  {
    var first, second := Fly(fl, steps[..i]), Fly(fl, steps[..j]);
    WriteItemPuts(first.store, steps[i].event, steps[i].staff, item, steps[i].id, steps[i].faults);
    WriteItemPuts(second.store, steps[j].event, steps[j].staff, item, steps[j].id, steps[j].faults);
    FlyStep(fl, steps, i);
    if forall k :: i < k < j ==> !Undone(Fly(fl, steps[..k]), steps[k], item) {
      KeptInPlace(fl, steps, item, i + 1, j);
    }
    var l := LookedUpAt(fl, steps, j, steps[j].r, item);
    forall m | 0 <= m <= j && item.client in Fly(fl, steps[..m]).store.log
      ensures l < m
    {
      if m <= l {
        LogGrows(fl, steps, m, l);
      }
    }
  }

  /** So the log alone does not stop a second copy of a request: it looked the item up first,
      the other copy wrote and logged it, an undo committed, and the item is written again. */
  lemma LoggedItemWritesAgain(db: Db, item: Item, staff: UserId, now: Time)
    requires item.kind.CheckinItem? && AttendeeLive(db, item.attendee) && !db.attendees[item.attendee].status
    ensures var e, ok := db.attendees[item.attendee].event, Faults(false, false, false, None, Answered);
            var steps := [Lookup(1, item), Lookup(2, item), Write(1, e, staff, 10, ok), Log(1),
                          World(Undo(e, item.attendee, None, staff, now, 11)), Write(2, e, staff, 12, ok)];
            var fl := Flight(Store(db, {}, []), map[]);
            && item.client in Fly(fl, steps[..5]).store.log
            && Hit(Fly(fl, steps[..5]), steps[5], item)
  {
    var e, ok := db.attendees[item.attendee].event, Faults(false, false, false, None, Answered);
    var write, undo := Write(1, e, staff, 10, ok), World(Undo(e, item.attendee, None, staff, now, 11));
    var f0 := Flight(Store(db, {}, []), map[]);
    var f2 := Flight(f0.store, map[1 := LookedUp(item), 2 := LookedUp(item)]);
    FlyFive(f0, Lookup(1, item), Lookup(2, item), write, Log(1), undo, Write(2, e, staff, 12, ok));
    assert Next(Next(f0, Lookup(1, item)), Lookup(2, item)) == f2;
    FirstCopy(f2, item, e, staff, ok);
    SecondCopy(Next(Next(f2, write), Log(1)), item, e, staff, now, ok);
  }

  lemma FlyFive(fl: Flight, a: Step, b: Step, c: Step, d: Step, e: Step, f: Step)
    ensures Fly(fl, [a, b, c, d, e, f][..5]) == Next(Next(Next(Next(Next(fl, a), b), c), d), e)
  {
    var steps := [a, b, c, d, e, f];
    assert steps[..0] == [];
    FlyStep(fl, steps, 0);
    FlyStep(fl, steps, 1);
    FlyStep(fl, steps, 2);
    FlyStep(fl, steps, 3);
    FlyStep(fl, steps, 4);
  }

  lemma FirstCopy(fl: Flight, item: Item, e: EventId, staff: UserId, ok: Faults)
    requires item.kind.CheckinItem? && AttendeeLive(fl.store.db, item.attendee) && ok == Faults(false, false, false, None, Answered)
    requires !fl.store.db.attendees[item.attendee].status && fl.store.db.attendees[item.attendee].event == e
    requires fl.requests == map[1 := LookedUp(item), 2 := LookedUp(item)]
    ensures var after := Next(Next(fl, Write(1, e, staff, 10, ok)), Log(1));
            && item.client in after.store.log
            && after.requests == map[2 := LookedUp(item)]
            && AttendeeLive(after.store.db, item.attendee)
            && after.store.db.attendees[item.attendee].status && after.store.db.attendees[item.attendee].event == e
  {
  }

  lemma SecondCopy(fl: Flight, item: Item, e: EventId, staff: UserId, now: Time, ok: Faults)
    requires item.kind.CheckinItem? && AttendeeLive(fl.store.db, item.attendee) && ok == Faults(false, false, false, None, Answered)
    requires fl.store.db.attendees[item.attendee].status && fl.store.db.attendees[item.attendee].event == e
    requires item.client in fl.store.log && Waiting(fl, 2, item)
    ensures var undone := Next(fl, World(Undo(e, item.attendee, None, staff, now, 11)));
            item.client in undone.store.log && Hit(undone, Write(2, e, staff, 12, ok), item)
  {
    var undo := Undo(e, item.attendee, None, staff, now, 11);
    var undone := Next(fl, World(undo));
    assert undone.store.db == Commit(fl.store.db, undo);
    var op := ItemOp(e, staff, item, 12);
    assert Hits(undone.store.db, op) && FeedOk(undone.store.db, Record(op));
    assert |Commit(undone.store.db, op).feed| > |undone.store.db.feed|;
  }
}
