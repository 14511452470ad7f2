/** The offline queue: one item applied under any combination of failures, and what
    replaying items can and cannot do over a run. */
module Batch {
  import opened Checkin
  import opened CheckinHistory
  import opened Options
  import opened Answers

  type ClientId = nat

  const DAY: int := 86_400_000_000_000  // nanoseconds

  datatype ItemKind = CheckinItem | ZoneEntryItem | UnknownItem

  datatype Item = Item(
    client: ClientId,
    attendee: AttendeeId,
    at: Time,
    device: int,
    kind: ItemKind,
    zone: Option<ZoneId>,
    point: Option<string>)

  /** A row of `zone_checkins`. */
  datatype Entry = Entry(attendee: AttendeeId, zone: ZoneId, day: int, staff: UserId)

  datatype Store = Store(db: Db, log: set<ClientId>, entries: seq<Entry>)

  datatype Result = Created | AlreadyCheckedIn | DuplicateClient | Error

  /** What may go wrong while one item is applied.
      `lookup`: a read fails.  `tx`: the write fails and is rolled back.  `lost`: the write's
      COMMIT goes through but its acknowledgement does not arrive.  `rival`: another request, by that staff
      member, inserts the same zone entry between the check and the INSERT.  `log`: how the log INSERT ends. */
  datatype Faults = Faults(lookup: bool, tx: bool, lost: bool, rival: Option<UserId>, log: Answer)

  function Day(at: Time): int {
    at / DAY
  }

  predicate HasEntry(entries: seq<Entry>, a: AttendeeId, z: ZoneId, day: int) {
    exists i :: 0 <= i < |entries| && entries[i].attendee == a && entries[i].zone == z && entries[i].day == day
  }

  function ItemOp(event: EventId, staff: UserId, item: Item, id: ActionId): Op {
    BatchCheckIn(event, item.attendee, staff, item.device, item.point, item.at, id)
  }

  predicate AttendeeLive(db: Db, a: AttendeeId) {
    a in db.attendees && !db.attendees[a].deleted
  }

  /** The writes of ApplyBatchCheckin between its log lookup and its log INSERT. */
  function WriteItem(st: Store, event: EventId, staff: UserId, item: Item, id: ActionId, f: Faults): (Store, Result) {
    match item.kind
    case CheckinItem =>
      var op := ItemOp(event, staff, item, id);
      if !AttendeeLive(st.db, item.attendee) || f.tx then (st, Error)
      else if !Hits(st.db, op) then (st, if f.lost then Error else AlreadyCheckedIn)
      else if !FeedOk(st.db, Record(op)) then (st, Error)
      else (st.(db := Commit(st.db, op)), if f.lost then Error else Created)
    case ZoneEntryItem =>
      if item.zone.None? then (st, Error)
      else
        var z, day := item.zone.value, Day(item.at);
        if HasEntry(st.entries, item.attendee, z, day) then (st, Created)
        else if f.tx || z !in st.db.zones || item.attendee !in st.db.attendees then (st, Error)
        else
          var entry := Entry(item.attendee, z, day, if f.rival.Some? then f.rival.value else staff);
          (st.(entries := st.entries + [entry]), if f.rival.Some? || f.lost then Error else Created)
    case UnknownItem => (st, Error)
  }

  /** ApplyBatchCheckin. */
  function ApplyItem(st: Store, event: EventId, staff: UserId, item: Item, id: ActionId, f: Faults): (Store, Result) {
    if f.lookup then (st, Error)
    else if item.client in st.log then (st, DuplicateClient)
    else
      var (written, r) := WriteItem(st, event, staff, item, id, f);
      if r.Error? then (written, Error) else LogItem(written, item, f, r)
  }

  function LogItem(st: Store, item: Item, f: Faults, r: Result): (Store, Result) {
    match f.log
    case Answered => (st.(log := st.log + {item.client}), r)
    case RolledBack => (st, Error)
    case Lost => (st.(log := st.log + {item.client}), Error)
  }

  /** One step of the store's life: an item of some batch, or any other transaction.
      Deleting a zone takes its entries along. */
  datatype Act =
    | Submit(event: EventId, staff: UserId, item: Item, id: ActionId, faults: Faults)
    | Other(op: Op)

  ghost function After(st: Store, act: Act): Store {
    match act
    case Submit(e, staff, item, id, f) => ApplyItem(st, e, staff, item, id, f).0
    case Other(op) =>
      Store(Apply(st.db, op), st.log,
            if op.DeleteZone? && op.zone_ in st.db.zones then WithoutZone(st.entries, op.zone_) else st.entries)
  }

  function WithoutZone(entries: seq<Entry>, z: ZoneId): (r: seq<Entry>)
    ensures forall a, y, day :: HasEntry(r, a, y, day) <==> y != z && HasEntry(entries, a, y, day)
    ensures |r| <= |entries|
  {
    if entries == [] then []
    else
      var last := entries[|entries| - 1];
      var r := WithoutZone(entries[..|entries| - 1], z);
      HasEntryAppend(entries[..|entries| - 1], last);
      HasEntryAppend(r, last);
      assert entries == entries[..|entries| - 1] + [last];
      if last.zone == z then r else r + [last]
  }

  lemma HasEntryAppend(entries: seq<Entry>, x: Entry)
    ensures forall a, z, day :: HasEntry(entries + [x], a, z, day) <==>
              (HasEntry(entries, a, z, day) || (x.attendee == a && x.zone == z && x.day == day))
  {
    forall a, z, day | HasEntry(entries, a, z, day) ensures HasEntry(entries + [x], a, z, day) {
      var i :| 0 <= i < |entries| && entries[i].attendee == a && entries[i].zone == z && entries[i].day == day;
      assert (entries + [x])[i] == entries[i];
    }
    assert (entries + [x])[|entries|] == x;
  }

  ghost function Trace(st: Store, acts: seq<Act>): Store
    decreases |acts|
  {
    if acts == [] then st else After(Trace(st, acts[..|acts| - 1]), acts[|acts| - 1])
  }

  /** The act is an application of `item` that changes a check-in row or adds a zone entry. */
  ghost predicate WritesItem(st: Store, act: Act, item: Item) {
    && act.Submit? && act.item == item
    && (After(st, act).db != st.db || |After(st, act).entries| > |st.entries|)
  }

  /** A logged item never writes again, whatever has happened since. */
  lemma LoggedIsInert(st: Store, act: Act)
    requires act.Submit? && act.item.client in st.log
    ensures After(st, act) == st
    ensures !act.faults.lookup ==> ApplyItem(st, act.event, act.staff, act.item, act.id, act.faults).1 == DuplicateClient
  {
  }

  lemma {:induction false} LogOnlyGrows(st: Store, acts: seq<Act>, k: nat)
    requires k <= |acts|
    ensures Trace(st, acts[..k]).log <= Trace(st, acts).log
    decreases |acts| - k
  {
    assert acts[..|acts|] == acts;
    if k < |acts| {
      assert acts[..k + 1][..k] == acts[..k];
      LogOnlyGrows(st, acts, k + 1);
    }
  }

  /** The check-in, or the zone entry, that `item` asks for is there. */
  predicate InPlace(st: Store, item: Item) {
    match item.kind
    case CheckinItem => item.attendee in st.db.attendees && st.db.attendees[item.attendee].status
    case ZoneEntryItem => item.zone.Some? && HasEntry(st.entries, item.attendee, item.zone.value, Day(item.at))
    case UnknownItem => false
  }

  /** The write part of an item changes something exactly by putting its own request in place. */
  lemma WriteItemPuts(st: Store, event: EventId, staff: UserId, item: Item, id: ActionId, f: Faults)
    ensures var after := WriteItem(st, event, staff, item, id, f).0;
            && after.log == st.log
            && (after != st ==> InPlace(after, item) && !InPlace(st, item))
            && (after != st <==> after.db != st.db || |after.entries| > |st.entries|)
  {
    if item.kind.ZoneEntryItem? && item.zone.Some? {
      HasEntryAppend(st.entries, Entry(item.attendee, item.zone.value, Day(item.at), if f.rival.Some? then f.rival.value else staff));
    }
  }

  /** And takes nothing away that another item asked for. */
  lemma WriteItemKeeps(st: Store, event: EventId, staff: UserId, item: Item, id: ActionId, f: Faults, other: Item)
    requires InPlace(st, other)
    ensures InPlace(WriteItem(st, event, staff, item, id, f).0, other)
  {
    if item.kind.ZoneEntryItem? && item.zone.Some? {
      HasEntryAppend(st.entries, Entry(item.attendee, item.zone.value, Day(item.at), if f.rival.Some? then f.rival.value else staff));
    }
  }

  lemma WritePutsInPlace(st: Store, act: Act, item: Item)
    requires WritesItem(st, act, item)
    ensures InPlace(After(st, act), item) && !InPlace(st, item)
    ensures item.client !in st.log
  {
    WriteItemPuts(st, act.event, act.staff, item, act.id, act.faults);
  }

  /** The act takes back what `item` asked for: an undo of its attendee, or the deletion of
      its zone. */
  ghost predicate TakesBack(st: Store, act: Act, item: Item) {
    && act.Other?
    && match item.kind
       case CheckinItem => UndoneBy(st.db, act.op, item.attendee)
       case ZoneEntryItem => item.zone.Some? && act.op == DeleteZone(item.zone.value)
       case UnknownItem => false
  }

  ghost predicate CleanActs(st: Store, acts: seq<Act>, a: AttendeeId) {
    forall k :: 0 <= k < |acts| && acts[k].Other? ==> Disciplined(Trace(st, acts[..k]).db, acts[k].op, a)
  }

  lemma StaysInPlace(st: Store, act: Act, item: Item)
    requires InPlace(st, item) && !TakesBack(st, act, item)
    requires act.Other? ==> Disciplined(st.db, act.op, item.attendee)
    ensures InPlace(After(st, act), item)
  {
    if act.Submit? {
      WriteItemKeeps(st, act.event, act.staff, act.item, act.id, act.faults, item);
    } else if item.kind.CheckinItem? {
      StaysCheckedIn(st.db, act.op, item.attendee);
    }
  }

  lemma StaysAt(st: Store, acts: seq<Act>, item: Item, k: nat)
    requires k < |acts| && CleanActs(st, acts, item.attendee)
    requires InPlace(Trace(st, acts[..k]), item) && !TakesBack(Trace(st, acts[..k]), acts[k], item)
    ensures InPlace(Trace(st, acts[..k + 1]), item)
  {
    assert acts[..k + 1][..k] == acts[..k];
    StaysInPlace(Trace(st, acts[..k]), acts[k], item);
  }

  lemma {:induction false} RemainsInPlace(st: Store, acts: seq<Act>, item: Item, i: nat, j: nat)
    requires i <= j <= |acts| && CleanActs(st, acts, item.attendee)
    requires InPlace(Trace(st, acts[..i]), item)
    requires forall k :: i <= k < j ==> !TakesBack(Trace(st, acts[..k]), acts[k], item)
    ensures InPlace(Trace(st, acts[..j]), item)
    decreases j - i
  {
    if i < j {
      StaysAt(st, acts, item, i);
      RemainsInPlace(st, acts, item, i + 1, j);
    }
  }

  lemma WriteAt(st: Store, acts: seq<Act>, item: Item, i: nat)
    requires i < |acts| && WritesItem(Trace(st, acts[..i]), acts[i], item)
    ensures InPlace(Trace(st, acts[..i + 1]), item)
    ensures !InPlace(Trace(st, acts[..i]), item) && item.client !in Trace(st, acts[..i]).log
  {
    assert acts[..i + 1][..i] == acts[..i];
    WritePutsInPlace(Trace(st, acts[..i]), acts[i], item);
  }

  /** Replay safety.  Over any run in which failures may drop any log rows: if two acts both
      write for the same item, the first was not logged, and what it had put in place was
      taken back in between. */
  lemma ReplayIsInert(st: Store, acts: seq<Act>, item: Item, i: nat, j: nat)
    requires i < j < |acts| && CleanActs(st, acts, item.attendee)
    requires WritesItem(Trace(st, acts[..i]), acts[i], item) && WritesItem(Trace(st, acts[..j]), acts[j], item)
    ensures exists k :: i < k < j && TakesBack(Trace(st, acts[..k]), acts[k], item)
    ensures item.client !in Trace(st, acts[..i + 1]).log
  {
    WriteAt(st, acts, item, i);
    WriteAt(st, acts, item, j);
    assert acts[..j][..i + 1] == acts[..i + 1];
    LogOnlyGrows(st, acts[..j], i + 1);
    if forall k :: i < k < j ==> !TakesBack(Trace(st, acts[..k]), acts[k], item) {
      RemainsInPlace(st, acts, item, i + 1, j);
    }
  }

  /** Applying items only, nothing is ever taken back: each item writes at most once, however
      often and in whatever order the batches are replayed. */
  lemma ItemsWriteOnce(st: Store, acts: seq<Act>, item: Item, i: nat, j: nat)
    requires i < j < |acts| && forall k :: 0 <= k < |acts| ==> acts[k].Submit?
    requires WritesItem(Trace(st, acts[..i]), acts[i], item)
    ensures !WritesItem(Trace(st, acts[..j]), acts[j], item)
  {
    if WritesItem(Trace(st, acts[..j]), acts[j], item) {
      ReplayIsInert(st, acts, item, i, j);
    }
  }

  ghost predicate OneEntryPerDay(entries: seq<Entry>) {
    forall i, j :: 0 <= i < j < |entries| ==>
      !(entries[i].attendee == entries[j].attendee && entries[i].zone == entries[j].zone && entries[i].day == entries[j].day)
  }

  lemma {:induction false} WithoutZoneUnique(entries: seq<Entry>, z: ZoneId)
    requires OneEntryPerDay(entries)
    ensures OneEntryPerDay(WithoutZone(entries, z))
    decreases |entries|
  {
    if entries != [] {
      var init, last := entries[..|entries| - 1], entries[|entries| - 1];
      WithoutZoneUnique(init, z);
      if last.zone != z {
        assert !HasEntry(init, last.attendee, last.zone, last.day);
        assert !HasEntry(WithoutZone(init, z), last.attendee, last.zone, last.day);
      }
    }
  }

  /** Each attendee, zone and UTC day has at most one zone entry, over every run. */
  lemma {:induction false} EntriesStayUnique(st: Store, acts: seq<Act>)
    requires OneEntryPerDay(st.entries)
    ensures OneEntryPerDay(Trace(st, acts).entries)
    decreases |acts|
  {
    if acts != [] {
      var mid, act := Trace(st, acts[..|acts| - 1]), acts[|acts| - 1];
      EntriesStayUnique(st, acts[..|acts| - 1]);
      if act.Other? && act.op.DeleteZone? {
        WithoutZoneUnique(mid.entries, act.op.zone_);
      } else if act.Submit? && After(mid, act).entries != mid.entries {
        assert !HasEntry(mid.entries, act.item.attendee, act.item.zone.value, Day(act.item.at));
      }
    }
  }

  datatype Status = StatusCreated | StatusExists | StatusError

  /** The per-item verdict of the BatchCheckin handler. */
  function Verdict(st: Store, event: EventId, staff: UserId, item: Item, id: ActionId, f: Faults): (Store, Status) {
    if f.lookup || !AttendeeLive(st.db, item.attendee) || st.db.attendees[item.attendee].event != event
    then (st, StatusError)
    else if item.kind.ZoneEntryItem?
            && (item.zone.None? || item.zone.value !in st.db.zones || st.db.zones[item.zone.value].event != event)
    then (st, StatusError)
    else if item.kind.UnknownItem? then (st, StatusError)
    else
      var (st', r) := ApplyItem(st, event, staff, item, id, f);
      (st', match r
            case Created => StatusCreated
            case AlreadyCheckedIn => StatusExists
            case DuplicateClient => StatusExists
            case Error => StatusError)
  }

  /** A created check-in flipped its row; any other verdict but an error left the tables alone. */
  lemma VerdictHonest(st: Store, event: EventId, staff: UserId, item: Item, id: ActionId, f: Faults)
    ensures var (st', v) := Verdict(st, event, staff, item, id, f);
            && (item.kind.CheckinItem? && v.StatusCreated? ==> |st'.db.feed| == |st.db.feed| + 1)
            && (v.StatusExists? || (item.kind.ZoneEntryItem? && !v.StatusError?) ==> st'.db == st.db)
            && |st'.db.feed| >= |st.db.feed|
            && (v.StatusCreated? ==> InPlace(st', item) && item.client in st'.log)
  {
    if item.kind.ZoneEntryItem? && item.zone.Some? {
      HasEntryAppend(st.entries, Entry(item.attendee, item.zone.value, Day(item.at), if f.rival.Some? then f.rival.value else staff));
    }
  }

  /** The guarded UPDATE of this check-in item matches, and its transaction goes through. */
  predicate Commits(st: Store, event: EventId, item: Item, f: Faults) {
    && item.kind.CheckinItem? && !f.lookup && !f.tx && item.client !in st.log
    && AttendeeLive(st.db, item.attendee)
    && st.db.attendees[item.attendee].event == event
    && !st.db.attendees[item.attendee].status
  }

  /** An item is counted as a created check-in exactly when it commits and every answer arrives,
      and it commits behind the handler's back exactly when the acknowledgement of the write or
      of the log INSERT does not.  Nothing else changes the engine's tables. */
  lemma VerdictExact(st: Store, event: EventId, staff: UserId, item: Item, id: ActionId, f: Faults)
    ensures var (st', v) := Verdict(st, event, staff, item, id, f);
            && (item.kind.CheckinItem? && v.StatusCreated? <==> Commits(st, event, item, f) && !f.lost && f.log.Answered?)
            && (st'.db != st.db && !v.StatusCreated? <==> Commits(st, event, item, f) && (f.lost || !f.log.Answered?))
            && (st'.db != st.db <==> Commits(st, event, item, f))
            && |st'.db.feed| == |st.db.feed| + if Commits(st, event, item, f) then 1 else 0
  {
  }

  /** The zone entries hold one of this attendee, for the zone of the item and the UTC day of its
      time: entry days count whole days of 86 400 seconds. */
  ghost predicate Entered(entries: seq<Entry>, item: Item) {
    exists x :: x in entries && SameVisit(x, item)
  }

  predicate SameVisit(x: Entry, item: Item) {
    && x.attendee == item.attendee && item.zone == Some(x.zone)
    && x.day * 86_400_000_000_000 <= item.at < (x.day + 1) * 86_400_000_000_000
  }

  lemma EnteredExactly(entries: seq<Entry>, item: Item)
    requires item.zone.Some?
    ensures HasEntry(entries, item.attendee, item.zone.value, Day(item.at)) <==> Entered(entries, item)
    ensures forall staff :: SameVisit(Entry(item.attendee, item.zone.value, Day(item.at), staff), item)
  {
    forall x | x in entries
      ensures SameVisit(x, item) <==> x.attendee == item.attendee && x.zone == item.zone.value && x.day == Day(item.at)
    {
      DayExactly(item.at, x.day);
    }
    DayExactly(item.at, Day(item.at));
  }

  lemma DayExactly(at: Time, day: int)
    ensures Day(at) == day <==> day * 86_400_000_000_000 <= at < (day + 1) * 86_400_000_000_000
  {
  }

  /** Two times have one day exactly when midnight UTC does not lie between them. */
  lemma SameDayExactly(x: Time, y: Time)
    requires x <= y
    ensures Day(x) == Day(y) <==> forall n: int :: !(x < n * 86_400_000_000_000 <= y)
  {
    DayExactly(x, Day(x));
    DayExactly(y, Day(y));
    var next := (Day(x) + 1) * 86_400_000_000_000;
    if Day(x) == Day(y) {
      forall n: int ensures !(x < n * 86_400_000_000_000 <= y) {
        assert n <= Day(x) || n >= Day(x) + 1;
      }
    } else {
      assert x < next <= y;
    }
  }

  /** Everything the store does with one item, from the item, its faults and the columns: a logged
      item is a duplicate; a check-in is created exactly when the row is live, in the event and
      not checked in; a checked-in attendee is reported as such; a zone entry is created, or found
      to be there; and the item is logged exactly in these cases, if its log INSERT goes through. */
  ghost predicate Applied(st: Store, after: Store, r: Result, event: EventId, staff: UserId, item: Item, id: ActionId,
                          f: Faults)
  {
    var open := !f.lookup && item.client !in st.log;
    var live := item.attendee in st.db.attendees && !st.db.attendees[item.attendee].deleted;
    var flips := live && !st.db.attendees[item.attendee].status && st.db.attendees[item.attendee].event == event;
    var visits := item.zone.Some? && item.zone.value in st.db.zones && item.attendee in st.db.attendees;
    var already := open && item.kind.CheckinItem? && live && st.db.attendees[item.attendee].status && !f.tx && !f.lost;
    var created :=
      && open
      && ((item.kind.CheckinItem? && flips && !f.tx && !f.lost)
          || (item.kind.ZoneEntryItem?
              && (Entered(st.entries, item) || (visits && !f.tx && f.rival.None? && !f.lost))));
    && (r.DuplicateClient? <==> !f.lookup && item.client in st.log)
    && (r.AlreadyCheckedIn? <==> already && f.log.Answered?)
    && (r.Created? <==> created && f.log.Answered?)
    && after.log == st.log + (if (already || created) && !f.log.RolledBack? then {item.client} else {})
    && (if open && item.kind.CheckinItem? && flips && !f.tx
        then Enacts(st.db, after.db, BatchCheckIn(event, item.attendee, staff, item.device, item.point, item.at, id))
        else after.db == st.db)
    && (if open && item.kind.ZoneEntryItem? && visits && !Entered(st.entries, item) && !f.tx
        then Visits(st.entries, after.entries, item, if f.rival.Some? then f.rival.value else staff)
        else after.entries == st.entries)
  }

  /** One entry for the item's own visit is appended. */
  ghost predicate Visits(before: seq<Entry>, after: seq<Entry>, item: Item, staff: UserId) {
    && |after| == |before| + 1 && before <= after
    && SameVisit(after[|before|], item) && after[|before|].staff == staff
  }

  lemma ApplyExactly(st: Store, event: EventId, staff: UserId, item: Item, id: ActionId, f: Faults)
    ensures var (after, r) := ApplyItem(st, event, staff, item, id, f);
            Applied(st, after, r, event, staff, item, id, f)
  {
    if item.zone.Some? {
      EnteredExactly(st.entries, item);
    }
    CommitEnacts(st.db, ItemOp(event, staff, item, id));
  }

  /** The handler's own checks: the attendee is live in the event, and a zone entry names a zone of
      the event. */
  predicate Admitted(st: Store, event: EventId, item: Item, f: Faults) {
    && !f.lookup && item.attendee in st.db.attendees
    && st.db.attendees[item.attendee].event == event && !st.db.attendees[item.attendee].deleted
    && match item.kind
       case CheckinItem => true
       case ZoneEntryItem =>
         item.zone.Some? && item.zone.value in st.db.zones && st.db.zones[item.zone.value].event == event
       case UnknownItem => false
  }

  /** Some statement of the store call for this item fails before the log INSERT. */
  ghost predicate Fails(st: Store, item: Item, f: Faults) {
    || match item.kind
       case CheckinItem => f.tx || f.lost
       case ZoneEntryItem => !Entered(st.entries, item) && (f.tx || f.rival.Some? || f.lost)
       case UnknownItem => false
  }

  /** Everything the handler answers and writes for one item, in the same terms. */
  ghost predicate Handled(st: Store, after: Store, v: Status, event: EventId, staff: UserId, item: Item, id: ActionId,
                          f: Faults)
  {
    var known := Admitted(st, event, item, f);
    var logged := item.client in st.log;
    var there := known && item.kind.CheckinItem? && st.db.attendees[item.attendee].status;
    var failed := Fails(st, item, f);
    && (v.StatusExists? <==> known && (logged || (there && !failed && f.log.Answered?)))
    && (v.StatusCreated? <==> known && !logged && !there && !failed && f.log.Answered?)
    && (v.StatusError? <==> !known || (!logged && (failed || !f.log.Answered?)))
    && after.log == st.log + (if known && !logged && !failed && !f.log.RolledBack? then {item.client} else {})
    && (if known && !logged && item.kind.CheckinItem? && !there && !f.tx
        then Enacts(st.db, after.db, BatchCheckIn(event, item.attendee, staff, item.device, item.point, item.at, id))
        else after.db == st.db)
    && (if known && !logged && item.kind.ZoneEntryItem? && !Entered(st.entries, item) && !f.tx
        then Visits(st.entries, after.entries, item, if f.rival.Some? then f.rival.value else staff)
        else after.entries == st.entries)
  }

  lemma VerdictAnswers(st: Store, event: EventId, staff: UserId, item: Item, id: ActionId, f: Faults)
    ensures var (after, v) := Verdict(st, event, staff, item, id, f);
            Handled(st, after, v, event, staff, item, id, f)
  {
    ApplyExactly(st, event, staff, item, id, f);
  }

  /** So an entry of the same attendee and zone on another UTC day does not stand in the way: the
      item of a later day adds its own. */
  lemma LaterDayEnters(st: Store, event: EventId, staff: UserId, item: Item, id: ActionId)
    requires var ok := Faults(false, false, false, None, Answered);
             Admitted(st, event, item, ok) && item.kind.ZoneEntryItem? && item.client !in st.log
    requires forall x :: x in st.entries && x.attendee == item.attendee && item.zone == Some(x.zone) ==>
               (x.day + 1) * 86_400_000_000_000 <= item.at
    ensures var (after, v) := Verdict(st, event, staff, item, id, Faults(false, false, false, None, Answered));
            v.StatusCreated? && Visits(st.entries, after.entries, item, staff)
  {
    VerdictAnswers(st, event, staff, item, id, Faults(false, false, false, None, Answered));
  }

  lemma InPlaceNotCreated(st: Store, event: EventId, staff: UserId, item: Item, id: ActionId, f: Faults)
    requires item.kind.CheckinItem? && InPlace(st, item)
    ensures var (after, v) := Verdict(st, event, staff, item, id, f);
            !v.StatusCreated? && after.db == st.db
  {
    VerdictExact(st, event, staff, item, id, f);
  }

  /** The retry does not make up for it: once the item has written, and until it is taken back,
      no replay of it under any circumstances counts as created or changes the tables. */
  lemma ReplayNeverPublishes(st: Store, acts: seq<Act>, item: Item, i: nat, event: EventId, staff: UserId, id: ActionId, f: Faults)
    requires i < |acts| && CleanActs(st, acts, item.attendee) && item.kind.CheckinItem?
    requires WritesItem(Trace(st, acts[..i]), acts[i], item)
    requires forall k :: i < k < |acts| ==> !TakesBack(Trace(st, acts[..k]), acts[k], item)
    ensures var now := Trace(st, acts);
            var (after, v) := Verdict(now, event, staff, item, id, f);
            !v.StatusCreated? && after.db == now.db
  {
    WriteAt(st, acts, item, i);
    RemainsInPlace(st, acts, item, i + 1, |acts|);
    assert acts[..|acts|] == acts;
    InPlaceNotCreated(Trace(st, acts), event, staff, item, id, f);
  }
}
