/** The retention purge: hard deletion of tenants archived for longer than the retention
    period, and which users go with them.

    Transactions take effect one at a time.  `began` is NOW() in a transaction, the moment it
    started; `at` is the moment it committed. */
module Retention {
  import opened Answers
  import opened Options

  type TenantId = nat
  type UserId = nat
  type Time = int   // seconds

  const DAY := 86400

  datatype Status = Active | Suspended | Archived

  datatype Tenant = Tenant(name: string, status: Status, archivedAt: Option<Time>)

  datatype User = User(home: Option<TenantId>, isSuper: bool)

  datatype Note = PurgeNote(tenant: TenantId, name: string, archivedAt: Option<Time>, days: int) | OtherNote

  datatype Audit = Audit(actor: Option<UserId>, note: Note)

  datatype Db = Db(
    tenants: map<TenantId, Tenant>,
    users: map<UserId, User>,
    members: set<(UserId, TenantId)>,
    audit: seq<Audit>)

  /** The foreign keys between these tables. */
  predicate Referential(db: Db) {
    && (forall u :: u in db.users && db.users[u].home.Some? ==> db.users[u].home.value in db.tenants)
    && (forall m :: m in db.members ==> m.0 in db.users && m.1 in db.tenants)
    && (forall i :: 0 <= i < |db.audit| && db.audit[i].actor.Some? ==> db.audit[i].actor.value in db.users)
  }

  predicate HasAudit(db: Db, u: UserId) {
    exists i :: 0 <= i < |db.audit| && db.audit[i].actor == Some(u)
  }

  predicate MemberElsewhere(db: Db, u: UserId, t: TenantId) {
    exists m :: m in db.members && m.0 == u && m.1 != t
  }

  predicate AtHome(db: Db, u: UserId, t: TenantId) {
    u in db.users && db.users[u].home == Some(t)
  }

  predicate MustSurvive(db: Db, u: UserId, t: TenantId) {
    u in db.users && (db.users[u].isSuper || MemberElsewhere(db, u, t) || HasAudit(db, u))
  }

  /** The users the first statement of the purge detaches. */
  function Detached(db: Db, t: TenantId): set<UserId> {
    set u | u in db.users && AtHome(db, u, t) && MustSurvive(db, u, t)
  }

  predicate Eligible(db: Db, t: TenantId, days: int, now: Time) {
    && t in db.tenants
    && db.tenants[t].status == Archived
    && db.tenants[t].archivedAt.Some?
    && db.tenants[t].archivedAt.value < now - days * DAY
  }

  /** Users that the cascade from tenant t reaches when `kept` have been detached. */
  function Doomed(db: Db, t: TenantId, kept: set<UserId>): set<UserId> {
    set u | u in db.users && AtHome(db, u, t) && u !in kept
  }

  /** The purge transaction takes effect at its DELETE.  The users `kept` were detached, and
      are row-locked since.  An audit row of a doomed user makes the cascade fail. */
  function Purged(db: Db, t: TenantId, days: int, now: Time, kept: set<UserId>, note: Note): Db {
    var doomed := Doomed(db, t, kept);
    if !Eligible(db, t, days, now) || (exists u :: u in doomed && HasAudit(db, u)) then db
    else Db(
           db.tenants - {t},
           map u | u in db.users && u !in doomed ::
             if AtHome(db, u, t) then db.users[u].(home := None) else db.users[u],
           (set m | m in db.members && m.0 !in doomed && m.1 != t),
           db.audit + [Audit(None, note)])
  }

  /** A user is deleted exactly when the tenant is their home, they are not a super admin, belong
      to no other tenant and have no audit rows; everyone else is kept as they were, without
      their tie to this tenant.  The survivors' audit rows never block the delete. */
  lemma {:induction false} PurgeExact(db: Db, t: TenantId, days: int, now: Time, note: Note)
    requires Referential(db)
    ensures var after := Purged(db, t, days, now, Detached(db, t), note);
            && Referential(after)
            && (t in db.tenants ==> (t !in after.tenants <==> Eligible(db, t, days, now)))
            && (!Eligible(db, t, days, now) ==> after == db)
            && (Eligible(db, t, days, now) ==>
                  && after.tenants == db.tenants - {t}
                  && after.audit == db.audit + [Audit(None, note)]
                  && (forall u :: u in after.users ==> u in db.users)
                  && (forall u :: u in db.users ==>
                        (u !in after.users <==> AtHome(db, u, t) && !db.users[u].isSuper
                                                && !MemberElsewhere(db, u, t) && !HasAudit(db, u)))
                  && (forall u :: u in after.users ==>
                        after.users[u] == if AtHome(db, u, t) then db.users[u].(home := None) else db.users[u])
                  && (forall m :: m in after.members <==> m in db.members && m.1 != t))
  {
    var kept := Detached(db, t);
    var doomed := Doomed(db, t, kept);
    forall u | u in doomed
      ensures !HasAudit(db, u) && !MemberElsewhere(db, u, t)
    {
    }
    if Eligible(db, t, days, now) {
      var after := Purged(db, t, days, now, kept, note);
      forall m | m in db.members && m.1 != t
        ensures m in after.members
      {
        if m.0 in doomed {
          assert MemberElsewhere(db, m.0, t);
        }
      }
      forall i | 0 <= i < |db.audit| && db.audit[i].actor.Some?
        ensures db.audit[i].actor.value in after.users
      {
        assert HasAudit(db, db.audit[i].actor.value);
      }
    }
  }

  /** Under a concurrent join the rule holds of the membership the first statement saw: someone
      who joins another tenant between the detach and the DELETE is deleted with this one. */
  lemma JoinDuringPurgeIsLost(t: TenantId, other: TenantId, u: UserId, note: Note)
    requires t != other
    ensures var before := Db(map[t := Tenant("a", Archived, Some(0)), other := Tenant("b", Active, None)],
                             map[u := User(Some(t), false)], {(u, t)}, []);
            var joined := before.(members := before.members + {(u, other)});
            && Referential(joined)
            && MustSurvive(joined, u, t)
            && u !in Purged(joined, t, 1, 2 * DAY, Detached(before, t), note).users
  {
    var before := Db(map[t := Tenant("a", Archived, Some(0)), other := Tenant("b", Active, None)],
                     map[u := User(Some(t), false)], {(u, t)}, []);
    var joined := before.(members := before.members + {(u, other)});
    assert (u, other) in joined.members;
    assert !MustSurvive(before, u, t);
    assert Doomed(joined, t, Detached(before, t)) == {u};
  }

  /** A tenant is purged, in any interleaving, if and only if it exists, is archived and was stamped
      more than the period before, and no user at home in it who was not detached has audit rows. */
  lemma PurgedExactly(first: Db, db: Db, t: TenantId, days: int, now: Time, note: Note)
    ensures var kept := Detached(first, t);
            t in db.tenants ==>
              (t !in Purged(db, t, days, now, kept, note).tenants <==>
                 && db.tenants[t].status == Archived
                 && db.tenants[t].archivedAt.Some? && now - db.tenants[t].archivedAt.value > days * 86400
                 && forall u :: u in db.users && db.users[u].home == Some(t) && u !in kept ==> !HasAudit(db, u))
  {
    var kept := Detached(first, t);
    forall u ensures u in Doomed(db, t, kept) <==> u in db.users && db.users[u].home == Some(t) && u !in kept {
    }
  }

  /** In any interleaving: who is deleted depends on the two snapshots only.  A user at home in
      both is treated by the rule if and only if their reasons to survive agree in both; one who
      only arrived in between is deleted whatever their reasons. */
  lemma RaceExact(first: Db, db: Db, t: TenantId, days: int, now: Time, note: Note, u: UserId)
    requires Referential(db) && u in db.users
    requires forall k :: k in Detached(first, t) ==> k in db.users
    requires var after := Purged(db, t, days, now, Detached(first, t), note); t in db.tenants && t !in after.tenants
    ensures var after := Purged(db, t, days, now, Detached(first, t), note);
            && (u !in after.users <==> AtHome(db, u, t) && u !in Detached(first, t))
            && (u !in after.users ==> !HasAudit(db, u))
            && (AtHome(first, u, t) && AtHome(db, u, t) ==>
                  ((u !in after.users <==> !MustSurvive(db, u, t)) <==> MustSurvive(first, u, t) == MustSurvive(db, u, t)))
            && (!AtHome(first, u, t) && AtHome(db, u, t) ==> u !in after.users)
  {
  }

  datatype Op =
    | NewTenant(tenant: TenantId, name: string)
    | Rename(tenant: TenantId, name: string)
    | SetStatus(tenant: TenantId, status: Status)
    | Others(users: map<UserId, User>, members: set<(UserId, TenantId)>, audit: seq<Audit>)
    | Purge(tenant: TenantId, days: int, kept: set<UserId>, note: Note)

  datatype Event = Event(op: Op, began: Time, at: Time)

  /** UpdateTenantStatus. */
  function WithStatus(db: Db, t: TenantId, status: Status, now: Time): Db {
    if t !in db.tenants then db
    else db.(tenants := db.tenants[t := db.tenants[t].(status := status,
                                                       archivedAt := if status == Archived then Some(now) else None)])
  }

  function Apply(db: Db, e: Event): Db {
    match e.op
    case NewTenant(t, name) => if t in db.tenants then db else db.(tenants := db.tenants[t := Tenant(name, Active, None)])
    case Rename(t, name) => if t !in db.tenants then db else db.(tenants := db.tenants[t := db.tenants[t].(name := name)])
    case SetStatus(t, status) => WithStatus(db, t, status, e.began)
    case Others(users, members, audit) =>
      var next := db.(users := users, members := members, audit := audit);
      if Referential(next) then next else db
    case Purge(t, days, kept, note) => if days <= 0 then db else Purged(db, t, days, e.began, kept, note)
  }

  function After(events: seq<Event>): Db {
    if events == [] then Db(map[], map[], {}, []) else Apply(After(events[..|events| - 1]), events[|events| - 1])
  }

  predicate WellTimed(events: seq<Event>) {
    && (forall i :: 0 <= i < |events| ==> events[i].began <= events[i].at)
    && (forall i, j :: 0 <= i < j < |events| ==> events[i].at <= events[j].at)
  }

  /** Event k archived tenant t, and it has stayed archived with that stamp ever since. */
  ghost predicate ArchivedBy(events: seq<Event>, t: TenantId, k: nat) {
    && k < |events|
    && events[k].op == SetStatus(t, Archived)
    && forall j :: k < j <= |events| ==>
         && t in After(events[..j]).tenants
         && After(events[..j]).tenants[t].status == Archived
         && After(events[..j]).tenants[t].archivedAt == Some(events[k].began)
  }

  lemma ArchivalStep(db: Db, e: Event, t: TenantId)
    requires t in Apply(db, e).tenants && Apply(db, e).tenants[t].status == Archived
    ensures e.op == SetStatus(t, Archived) ==> Apply(db, e).tenants[t].archivedAt == Some(e.began)
    ensures e.op != SetStatus(t, Archived) ==>
              && t in db.tenants
              && db.tenants[t].status == Archived
              && db.tenants[t].archivedAt == Apply(db, e).tenants[t].archivedAt
  {
  }

  lemma {:induction false} ArchivedHasEvent(events: seq<Event>, t: TenantId) returns (k: nat)
    requires t in After(events).tenants && After(events).tenants[t].status == Archived
    ensures ArchivedBy(events, t, k)
  {
    var n := |events| - 1;
    assert events[..n + 1] == events;
    ArchivalStep(After(events[..n]), events[n], t);
    if events[n].op == SetStatus(t, Archived) {
      k := n;
    } else {
      k := ArchivedHasEvent(events[..n], t);
      forall j | k < j <= n
        ensures events[..n][..j] == events[..j]
      {
      }
    }
  }

  /** A tenant disappears only in a purge, and then it had been archived without interruption,
      since a status change that started more than the retention period before the purge did. */
  lemma {:induction false} DeletedOnlyAfterRetention(events: seq<Event>, e: Event, t: TenantId) returns (k: nat)
    requires t in After(events).tenants && t !in Apply(After(events), e).tenants
    requires WellTimed(events + [e])
    ensures e.op.Purge? && e.op.tenant == t && e.op.days > 0
    ensures ArchivedBy(events, t, k)
    ensures e.began - events[k].began > e.op.days * DAY
    ensures e.at - events[k].at > e.op.days * DAY - (events[k].at - events[k].began)
  {
    k := ArchivedHasEvent(events, t);
    assert events[..|events|] == events;
    assert (events + [e])[|events|] == e;
  }

  datatype StatusResult = Set | NotFound | Errored

  datatype Outcome = Gone | NoLongerEligible | Failed

  /** Which statement of a purge transaction fails; `AnswerLost` is a COMMIT that went through
      although its caller sees an error. */
  datatype Fault = NoFault | DetachFails | DeleteFails | AuditOrCommitFails | AnswerLost

  datatype Clock = Clock(began: Time, at: Time)

  datatype Candidate = Candidate(tenant: TenantId, name: string, archivedAt: Option<Time>)

  /** The events other sessions commit before candidate i's DELETE, for all candidates. */
  function Total(others: nat -> seq<Event>, n: nat): nat {
    if n == 0 then 0 else Total(others, n - 1) + |others(n - 1)|
  }

  /** Event k removed tenant t. */
  ghost predicate Removed(events: seq<Event>, k: nat, t: TenantId) {
    && k < |events|
    && events[k].op.Purge? && events[k].op.tenant == t
    && t in After(events[..k]).tenants
    && t !in After(events[..k + 1]).tenants
  }

  lemma RemovedKept(events: seq<Event>, more: seq<Event>, k: nat, t: TenantId)
    requires Removed(events, k, t) && events <= more
    ensures Removed(more, k, t)
  {
    assert more[..k] == events[..k] && more[..k + 1] == events[..k + 1];
  }

  /** purgeTenant, when the detach sees `first` and the DELETE sees `db`. */
  function PurgeRound(first: Db, db: Db, c: Candidate, days: int, now: Time, fault: Fault): (Db, Outcome) {
    var kept := Detached(first, c.tenant);
    if fault == DetachFails || fault == DeleteFails then (db, Failed)
    else if !Eligible(db, c.tenant, days, now) then (db, NoLongerEligible)
    else if fault == AuditOrCommitFails || exists u :: u in Doomed(db, c.tenant, kept) && HasAudit(db, u) then (db, Failed)
    else
      (Purged(db, c.tenant, days, now, kept, PurgeNote(c.tenant, c.name, c.archivedAt, days)),
       if fault == AnswerLost then Failed else Gone)
  }

  /** When the answer to its COMMIT is lost, an eligible tenant is deleted with its audit row,
      and reported as a failure. */
  lemma LostAnswerUnlisted(db: Db, c: Candidate, days: int, now: Time)
    requires Referential(db) && Eligible(db, c.tenant, days, now)
    ensures var (after, outcome) := PurgeRound(db, db, c, days, now, AnswerLost);
            && outcome == Failed
            && c.tenant !in after.tenants
            && after.audit == db.audit + [Audit(None, PurgeNote(c.tenant, c.name, c.archivedAt, days))]
  {
    PurgeExact(db, c.tenant, days, now, PurgeNote(c.tenant, c.name, c.archivedAt, days));
  }

  /** The chosen candidates, in the order they were tried. */
  function Chosen(candidates: seq<Candidate>, gone: seq<bool>): seq<(TenantId, string)>
    requires |candidates| == |gone|
  {
    if candidates == [] then []
    else
      var n := |candidates| - 1;
      Chosen(candidates[..n], gone[..n]) + if gone[n] then [(candidates[n].tenant, candidates[n].name)] else []
  }

  /** The candidates whose commit the caller hears of. */
  function Heard(committed: seq<bool>, faults: nat -> Fault): seq<bool> {
    seq(|committed|, i requires 0 <= i < |committed| => committed[i] && faults(i) != AnswerLost)
  }

  /** Fewer chosen candidates make the same list only if none is missing. */
  lemma {:induction false} ChosenSame(candidates: seq<Candidate>, some: seq<bool>, all: seq<bool>)
    requires |candidates| == |some| == |all| && forall i :: 0 <= i < |some| && some[i] ==> all[i]
    ensures |Chosen(candidates, some)| <= |Chosen(candidates, all)|
    ensures |Chosen(candidates, some)| == |Chosen(candidates, all)| ==> some == all
    decreases |candidates|
  {
    if candidates != [] {
      var n := |candidates| - 1;
      ChosenSame(candidates[..n], some[..n], all[..n]);
      assert some == some[..n] + [some[n]] && all == all[..n] + [all[n]];
    }
  }

  lemma ChosenGrows(candidates: seq<Candidate>, gone: seq<bool>, c: Candidate, g: bool)
    requires |candidates| == |gone|
    ensures Chosen(candidates + [c], gone + [g]) == Chosen(candidates, gone) + if g then [(c.tenant, c.name)] else []
  {
    assert (candidates + [c])[..|candidates|] == candidates && (gone + [g])[..|gone|] == gone;
  }

  /** Each tenant eligible in `db` exactly once, as it was listed. */
  ghost predicate Lists(db: Db, candidates: seq<Candidate>, days: int, now: Time) {
    && (forall c :: c in candidates ==>
          Eligible(db, c.tenant, days, now) && c == Candidate(c.tenant, db.tenants[c.tenant].name, db.tenants[c.tenant].archivedAt))
    && (forall t :: Eligible(db, t, days, now) ==> exists i :: 0 <= i < |candidates| && candidates[i].tenant == t)
    && (forall i, j :: 0 <= i < j < |candidates| ==> candidates[i].tenant != candidates[j].tenant)
  }

  /** The list is exactly the archived tenants stamped more than `days` whole days ago. */
  lemma ListsByColumns(db: Db, candidates: seq<Candidate>, days: int, now: Time)
    requires Lists(db, candidates, days, now)
    ensures forall t, name, at :: Candidate(t, name, at) in candidates <==> Expired(db, t, name, at, days, now)
  {
    forall t, name, at
      ensures Candidate(t, name, at) in candidates <==> Expired(db, t, name, at, days, now)
    {
      if Expired(db, t, name, at, days, now) {
        assert Eligible(db, t, days, now);
        var i :| 0 <= i < |candidates| && candidates[i].tenant == t;
        assert candidates[i] in candidates;
      }
    }
  }

  predicate Expired(db: Db, t: TenantId, name: string, at: Option<Time>, days: int, now: Time) {
    Due(db, t, days, now) && db.tenants[t].name == name && db.tenants[t].archivedAt == at
  }

  /** By columns: the tenant is archived, and was stamped more than `days` whole days ago. */
  predicate Due(db: Db, t: TenantId, days: int, now: Time) {
    && t in db.tenants && db.tenants[t].status == Archived
    && db.tenants[t].archivedAt.Some? && now - db.tenants[t].archivedAt.value > days * 86400
  }

  /** Why a candidate's transaction ended as it did, told by a state on the way to `events`. */
  ghost predicate Reason(events: seq<Event>, c: Candidate, days: int, began: Time, fault: Fault, outcome: Outcome, committed: bool) {
    match outcome
    case Gone => committed && fault != AnswerLost
    case NoLongerEligible => !committed && exists k :: 0 <= k <= |events| && !Due(After(events[..k]), c.tenant, days, began)
    case Failed =>
      if committed then fault == AnswerLost
      else
        || fault == DetachFails || fault == DeleteFails || fault == AuditOrCommitFails
        || exists k, u :: 0 <= k <= |events| && KeepsBack(After(events[..k]), u, c.tenant)
  }

  /** A user at home in the tenant whose audit rows block its deletion. */
  predicate KeepsBack(db: Db, u: UserId, t: TenantId) {
    u in db.users && db.users[u].home == Some(t) && HasAudit(db, u)
  }

  lemma ReasonKept(events: seq<Event>, more: seq<Event>, c: Candidate, days: int, began: Time, fault: Fault, outcome: Outcome,
                   committed: bool)
    requires Reason(events, c, days, began, fault, outcome, committed) && events <= more
    ensures Reason(more, c, days, began, fault, outcome, committed)
  {
    assert forall k :: 0 <= k <= |events| ==> more[..k] == events[..k];
  }

  /** Each candidate's outcome has its reason. */
  ghost predicate Reasons(events: seq<Event>, candidates: seq<Candidate>, days: int, clocks: nat -> Clock, faults: nat -> Fault,
                          outcomes: seq<Outcome>, committed: seq<bool>)
  {
    && |outcomes| == |committed| == |candidates|
    && forall i :: 0 <= i < |candidates| ==> ReasonAt(events, candidates, days, clocks, faults, outcomes, committed, i)
  }

  ghost predicate ReasonAt(events: seq<Event>, candidates: seq<Candidate>, days: int, clocks: nat -> Clock,
                           faults: nat -> Fault, outcomes: seq<Outcome>, committed: seq<bool>, i: nat)
    requires i < |candidates| == |outcomes| == |committed|
  {
    Reason(events, candidates[i], days, clocks(i).began, faults(i), outcomes[i], committed[i])
  }

  lemma ReasonsGrow(events: seq<Event>, more: seq<Event>, candidates: seq<Candidate>, days: int, clocks: nat -> Clock,
                    faults: nat -> Fault, outcomes: seq<Outcome>, committed: seq<bool>, c: Candidate, o: Outcome, g: bool)
    requires Reasons(events, candidates, days, clocks, faults, outcomes, committed) && events <= more
    requires Reason(more, c, days, clocks(|candidates|).began, faults(|candidates|), o, g)
    ensures Reasons(more, candidates + [c], days, clocks, faults, outcomes + [o], committed + [g])
  {
    forall i | 0 <= i < |candidates|
      ensures Reason(more, candidates[i], days, clocks(i).began, faults(i), outcomes[i], committed[i])
    {
      assert ReasonAt(events, candidates, days, clocks, faults, outcomes, committed, i);
      ReasonKept(events, more, candidates[i], days, clocks(i).began, faults(i), outcomes[i], committed[i]);
    }
  }

  /** The events `own` removed the tenants of `purged`, in that order. */
  ghost predicate Ledger(events: seq<Event>, base: nat, own: seq<nat>, purged: seq<(TenantId, string)>) {
    && |own| == |purged|
    && (forall i :: 0 <= i < |own| ==> base <= own[i] && Removed(events, own[i], purged[i].0))
    && (forall i, j :: 0 <= i < j < |own| ==> own[i] < own[j])
  }

  lemma LedgerKept(events: seq<Event>, more: seq<Event>, base: nat, own: seq<nat>, purged: seq<(TenantId, string)>)
    requires Ledger(events, base, own, purged) && events <= more
    ensures Ledger(more, base, own, purged)
  {
    forall i | 0 <= i < |own|
      ensures Removed(more, own[i], purged[i].0)
    {
      RemovedKept(events, more, own[i], purged[i].0);
    }
  }

  lemma LedgerExtended(events: seq<Event>, more: seq<Event>, base: nat, own: seq<nat>, purged: seq<(TenantId, string)>,
                       id: TenantId, name: string)
    requires Ledger(events, base, own, purged) && events <= more && base <= |events| < |more|
    requires Removed(more, |more| - 1, id)
    ensures Ledger(more, base, own + [|more| - 1], purged + [(id, name)])
  {
    LedgerKept(events, more, base, own, purged);
    assert forall i :: 0 <= i < |own| ==> Removed(events, own[i], purged[i].0);
  }

  /** The ledger after one candidate. */
  lemma LedgerNext(events: seq<Event>, more: seq<Event>, base: nat, own: seq<nat>, purged: seq<(TenantId, string)>,
                   c: Candidate, committed: bool)
    requires Ledger(events, base, own, purged) && events <= more && base <= |events|
    requires committed ==> |events| < |more| && Removed(more, |more| - 1, c.tenant)
    ensures Ledger(more, base, own + (if committed then [|more| - 1] else []),
                   purged + if committed then [(c.tenant, c.name)] else [])
  {
    if committed {
      LedgerExtended(events, more, base, own, purged, c.tenant, c.name);
    } else {
      LedgerKept(events, more, base, own, purged);
      assert own + [] == own && purged + [] == purged;
    }
  }

  class PGStore {
    var db: Db
    ghost var events: seq<Event>

    ghost predicate Valid()
      reads this
    {
      db == After(events)
    }

    constructor ()
      ensures Valid() && events == []
    {
      db, events := Db(map[], map[], {}, []), [];
    }

    method Commit(e: Event)
      requires Valid()
      modifies this
      ensures Valid() && events == old(events) + [e]
    {
      db, events := Apply(db, e), events + [e];
      assert events[..|events| - 1] == old(events);
    }

    /** Transactions of other sessions. */
    method Interfere(others: seq<Event>)
      requires Valid()
      modifies this
      ensures Valid() && events == old(events) + others
    {
      var n := 0;
      while n < |others|
        invariant 0 <= n <= |others| && Valid() && events == old(events) + others[..n]
      {
        Commit(others[n]);
        n := n + 1;
      }
      assert others[..n] == others;
    }

    method UpdateTenantStatus(t: TenantId, status: Status, clock: Clock, answer: Answer) returns (r: StatusResult)
      requires Valid()
      modifies this
      ensures Valid()
      ensures answer.Answered? ==> (r == Set <==> t in old(db).tenants) && r != Errored
      ensures !answer.Answered? ==> r == Errored
      ensures if t in old(db).tenants && !answer.RolledBack? then
                && events == old(events) + [Event(SetStatus(t, status), clock.began, clock.at)]
                && t in db.tenants && db.tenants[t].status == status
                && db.tenants[t].archivedAt == if status == Archived then Some(clock.began) else None
              else events == old(events)
    {
      if answer.RolledBack? {
        return Errored;
      }
      var found := t in db.tenants;
      if found {
        Commit(Event(SetStatus(t, status), clock.began, clock.at));
        assert events[..|events| - 1] == old(events);
      }
      r := if answer.Lost? then Errored else if found then Set else NotFound;
    }

    /** purgeTenant: detach, guarded DELETE, audit row, commit.  Other sessions commit between
        the detach and the DELETE. */
    method PurgeTenant(c: Candidate, days: int, clock: Clock, fault: Fault, others: seq<Event>)
      returns (outcome: Outcome, ghost committed: bool)
      requires Valid() && days > 0
      modifies this
      ensures Valid()
      ensures (db, outcome) == PurgeRound(old(db), After(old(events) + others), c, days, clock.began, fault)
      ensures !committed ==> events == old(events) + others && outcome != Gone
      ensures committed ==>
                && |events| == |old(events)| + |others| + 1
                && old(events) + others <= events
                && Removed(events, |events| - 1, c.tenant)
                && events[|events| - 1] == Event(Purge(c.tenant, days, Detached(old(db), c.tenant),
                                                       PurgeNote(c.tenant, c.name, c.archivedAt, days)),
                                                 clock.began, clock.at)
                && outcome == if fault == AnswerLost then Failed else Gone
      ensures var found := After(old(events) + others);
              && (outcome == NoLongerEligible <==>
                    fault != DetachFails && fault != DeleteFails && !Due(found, c.tenant, days, clock.began))
              && (committed <==>
                    && (fault == NoFault || fault == AnswerLost) && Due(found, c.tenant, days, clock.began)
                    && forall u :: KeepsBack(found, u, c.tenant) ==> u in Detached(old(db), c.tenant))
      ensures committed ==> c.tenant !in db.tenants
      ensures Reason(events, c, days, clock.began, fault, outcome, committed)
      ensures outcome == Failed && !committed && (fault == NoFault || fault == AnswerLost) ==>
                exists u :: AtHome(db, u, c.tenant) && HasAudit(db, u)
    {
      var kept := Detached(db, c.tenant);
      Interfere(others);
      assert events[..|events|] == events;
      committed := false;
      if fault == DetachFails || fault == DeleteFails {
        return Failed, false;
      }
      if !Eligible(db, c.tenant, days, clock.began) {
        return NoLongerEligible, false;
      }
      var doomed := Doomed(db, c.tenant, kept);
      if (exists u :: u in doomed && HasAudit(db, u)) || fault == AuditOrCommitFails {
        return Failed, false;
      }
      ghost var was := events;
      var note := PurgeNote(c.tenant, c.name, c.archivedAt, days);
      Commit(Event(Purge(c.tenant, days, kept, note), clock.began, clock.at));
      assert events[..|events| - 1] == was && events[..|events|] == events;
      return if fault == AnswerLost then Failed else Gone, true;
    }

    method ListExpired(days: int, now: Time) returns (candidates: seq<Candidate>)
      ensures Lists(db, candidates, days, now)
      ensures forall t, name, at :: Candidate(t, name, at) in candidates <==> Expired(db, t, name, at, days, now)
      ensures forall i, j :: 0 <= i < j < |candidates| ==> candidates[i].tenant != candidates[j].tenant
    {
      candidates := [];
      var left: set<TenantId> := set t: TenantId | t in db.tenants && Eligible(db, t, days, now);
      while left != {}
        invariant forall t :: t in left ==> Eligible(db, t, days, now)
        invariant forall c :: c in candidates ==>
                    && Eligible(db, c.tenant, days, now)
                    && c == Candidate(c.tenant, db.tenants[c.tenant].name, db.tenants[c.tenant].archivedAt)
                    && c.tenant !in left
        invariant forall t :: Eligible(db, t, days, now) && t !in left ==> exists i :: 0 <= i < |candidates| && candidates[i].tenant == t
        invariant forall i, j :: 0 <= i < j < |candidates| ==> candidates[i].tenant != candidates[j].tenant
        decreases |left|
      {
        var t :| t in left;
        ghost var was := candidates;
        candidates := candidates + [Candidate(t, db.tenants[t].name, db.tenants[t].archivedAt)];
        assert candidates[|was|].tenant == t;
        assert forall i :: 0 <= i < |was| ==> candidates[i] == was[i];
        left := left - {t};
      }
      ListsByColumns(db, candidates, days, now);
    }

    /** One round of the candidate loop. */
    method PurgeNext(c: Candidate, days: int, clock: Clock, fault: Fault, others: seq<Event>,
                     purged: seq<(TenantId, string)>, errs: nat)
      returns (purged': seq<(TenantId, string)>, errs': nat, ghost outcome: Outcome, ghost committed: bool)
      requires Valid() && days > 0
      modifies this
      ensures Valid() && old(events) <= events
      ensures |events| == |old(events)| + |others| + if committed then 1 else 0
      ensures committed ==> Removed(events, |events| - 1, c.tenant)
      ensures purged' == purged + if committed && fault != AnswerLost then [(c.tenant, c.name)] else []
      ensures errs' == errs + if outcome == Failed then 1 else 0
      ensures Reason(events, c, days, clock.began, fault, outcome, committed)
    {
      var result;
      result, committed := PurgeTenant(c, days, clock, fault, others);
      outcome := result;
      purged', errs' := purged, errs;
      if result == Gone {
        purged' := purged + [(c.tenant, c.name)];
      } else if result == Failed {
        errs' := errs + 1;
      }
    }

    /** PurgeExpiredTenants.  Of the candidates whose transaction of this call committed, `own` are
        the events that removed them; nothing else of this call reaches the database.  The
        returned list is those whose commit was heard of, in order: all of them if and only if no
        COMMIT that went through lost its answer. */
    method PurgeExpiredTenants(days: int, now: Time, listFails: bool, clocks: nat -> Clock, faults: nat -> Fault,
                               others: nat -> seq<Event>)
      returns (purged: seq<(TenantId, string)>, errs: nat, ghost own: seq<nat>, ghost candidates: seq<Candidate>,
               ghost outcomes: seq<Outcome>, ghost committed: seq<bool>)
      requires Valid()
      modifies this
      ensures Valid() && old(events) <= events
      ensures days <= 0 || listFails ==> candidates == [] && events == old(events)
      ensures days > 0 && !listFails ==> Lists(old(db), candidates, days, now)
      ensures days > 0 && !listFails ==>
                forall t, name, at :: Candidate(t, name, at) in candidates <==> Expired(old(db), t, name, at, days, now)
      ensures |committed| == |candidates| && Ledger(events, |old(events)|, own, Chosen(candidates, committed))
      ensures |events| == |old(events)| + Total(others, |candidates|) + |own|
      ensures purged == Chosen(candidates, Heard(committed, faults))
      ensures Reasons(events, candidates, days, clocks, faults, outcomes, committed)
      ensures errs == multiset(outcomes)[Failed] + if listFails && days > 0 then 1 else 0
      ensures |purged| + errs <= |candidates| + if listFails then 1 else 0
      ensures purged == Chosen(candidates, committed) <==>
                forall i :: 0 <= i < |committed| && committed[i] ==> faults(i) != AnswerLost
    {
      purged, errs, own, candidates, outcomes, committed := [], 0, [], [], [], [];
      if days <= 0 {
        return;
      }
      if listFails {
        errs := 1;
        return;
      }
      var listed := ListExpired(days, now);
      candidates := listed;
      purged, errs, own, outcomes, committed := PurgeAll(listed, days, clocks, faults, others);
      WorkedCounts(old(events), events, listed, days, clocks, faults, others, purged, errs, own, outcomes, committed);
      ghost var heard := Heard(committed, faults);
      ChosenSame(listed, heard, committed);
      assert heard == committed <==> forall i :: 0 <= i < |committed| && committed[i] ==> faults(i) != AnswerLost;
    }

    /** The candidate loop. */
    method PurgeAll(listed: seq<Candidate>, days: int, clocks: nat -> Clock, faults: nat -> Fault, others: nat -> seq<Event>)
      returns (purged: seq<(TenantId, string)>, errs: nat, ghost own: seq<nat>, ghost outcomes: seq<Outcome>,
               ghost committed: seq<bool>)
      requires Valid() && days > 0
      modifies this
      ensures Valid() && old(events) <= events
      ensures Worked(old(events), events, listed, days, clocks, faults, others, purged, errs, own, outcomes, committed)
    {
      WorkedStart(events, days, clocks, faults, others);
      purged, errs, own, outcomes, committed := [], 0, [], [], [];
      var i := 0;
      while i < |listed|
        invariant 0 <= i <= |listed| && Valid() && old(events) <= events
        invariant Worked(old(events), events, listed[..i], days, clocks, faults, others, purged, errs, own, outcomes, committed)
      {
        ghost var o, g;
        ghost var was, wasPurged, wasErrs := events, purged, errs;
        var c := listed[i];
        purged, errs, o, g := PurgeNext(c, days, clocks(i), faults(i), others(i), purged, errs);
        own, outcomes, committed := WorkedNext(old(events), was, events, listed, i, days, clocks, faults, others, wasPurged,
                                               wasErrs, own, outcomes, committed, o, g, purged, errs);
        i := i + 1;
      }
      assert listed[..i] == listed;
    }
  }

  /** What the candidate loop has done so far. */
  ghost predicate Worked(first: seq<Event>, events: seq<Event>, candidates: seq<Candidate>, days: int, clocks: nat -> Clock,
                         faults: nat -> Fault, others: nat -> seq<Event>, purged: seq<(TenantId, string)>, errs: nat,
                         own: seq<nat>, outcomes: seq<Outcome>, committed: seq<bool>)
  {
    && |events| == |first| + Total(others, |candidates|) + |own|
    && Reasons(events, candidates, days, clocks, faults, outcomes, committed)
    && Ledger(events, |first|, own, Chosen(candidates, committed))
    && purged == Chosen(candidates, Heard(committed, faults))
    && errs == multiset(outcomes)[Failed]
  }

  lemma WorkedStart(events: seq<Event>, days: int, clocks: nat -> Clock, faults: nat -> Fault, others: nat -> seq<Event>)
    ensures Worked(events, events, [], days, clocks, faults, others, [], 0, [], [], [])
  {
  }

  lemma WorkedNext(first: seq<Event>, was: seq<Event>, events: seq<Event>, listed: seq<Candidate>, n: nat, days: int,
                   clocks: nat -> Clock, faults: nat -> Fault, others: nat -> seq<Event>,
                   purged: seq<(TenantId, string)>, errs: nat, own: seq<nat>, outcomes: seq<Outcome>, committed: seq<bool>,
                   o: Outcome, g: bool, purged': seq<(TenantId, string)>, errs': nat)
    returns (own': seq<nat>, outcomes': seq<Outcome>, committed': seq<bool>)
    requires n < |listed|
    requires Worked(first, was, listed[..n], days, clocks, faults, others, purged, errs, own, outcomes, committed)
    requires first <= was <= events && |events| == |was| + |others(n)| + if g then 1 else 0
    requires g ==> Removed(events, |events| - 1, listed[n].tenant)
    requires Reason(events, listed[n], days, clocks(n).began, faults(n), o, g)
    requires purged' == purged + if g && faults(n) != AnswerLost then [(listed[n].tenant, listed[n].name)] else []
    requires errs' == errs + if o == Failed then 1 else 0
    ensures Worked(first, events, listed[..n + 1], days, clocks, faults, others, purged', errs', own', outcomes', committed')
  {
    var candidates, c := listed[..n], listed[n];
    assert listed[..n + 1] == candidates + [c];
    own', outcomes', committed' := own + (if g then [|events| - 1] else []), outcomes + [o], committed + [g];
    ReasonsGrow(was, events, candidates, days, clocks, faults, outcomes, committed, c, o, g);
    LedgerGrows(was, events, |first|, own, candidates, committed, c, g);
    HeardTally(candidates, committed, faults, c, g);
    assert multiset(outcomes + [o])[Failed] == multiset(outcomes)[Failed] + if o == Failed then 1 else 0;
  }

  lemma LedgerGrows(was: seq<Event>, events: seq<Event>, base: nat, own: seq<nat>, candidates: seq<Candidate>,
                    committed: seq<bool>, c: Candidate, g: bool)
    requires |committed| == |candidates| && base <= |was| && was <= events
    requires Ledger(was, base, own, Chosen(candidates, committed))
    requires g ==> |was| < |events| && Removed(events, |events| - 1, c.tenant)
    ensures Ledger(events, base, own + (if g then [|events| - 1] else []), Chosen(candidates + [c], committed + [g]))
  {
    LedgerNext(was, events, base, own, Chosen(candidates, committed), c, g);
    ChosenGrows(candidates, committed, c, g);
  }

  lemma HeardTally(candidates: seq<Candidate>, committed: seq<bool>, faults: nat -> Fault, c: Candidate, g: bool)
    requires |committed| == |candidates|
    ensures Chosen(candidates + [c], Heard(committed + [g], faults)) ==
            Chosen(candidates, Heard(committed, faults))
            + if g && faults(|candidates|) != AnswerLost then [(c.tenant, c.name)] else []
  {
    HeardGrows(committed, faults, g);
    ChosenGrows(candidates, Heard(committed, faults), c, g && faults(|candidates|) != AnswerLost);
  }

  lemma WorkedCounts(first: seq<Event>, events: seq<Event>, candidates: seq<Candidate>, days: int, clocks: nat -> Clock,
                     faults: nat -> Fault, others: nat -> seq<Event>, purged: seq<(TenantId, string)>, errs: nat,
                     own: seq<nat>, outcomes: seq<Outcome>, committed: seq<bool>)
    requires Worked(first, events, candidates, days, clocks, faults, others, purged, errs, own, outcomes, committed)
    ensures |purged| + errs <= |candidates|
  {
    var heard := Heard(committed, faults);
    forall i | 0 <= i < |heard| && heard[i]
      ensures outcomes[i] != Failed
    {
      assert ReasonAt(events, candidates, days, clocks, faults, outcomes, committed, i);
    }
    OutcomesCounted(candidates, heard, outcomes);
  }

  /** No candidate is both reported and counted as an error. */
  lemma {:induction false} OutcomesCounted(candidates: seq<Candidate>, heard: seq<bool>, outcomes: seq<Outcome>)
    requires |candidates| == |heard| == |outcomes| && forall i :: 0 <= i < |heard| && heard[i] ==> outcomes[i] != Failed
    ensures |Chosen(candidates, heard)| + multiset(outcomes)[Failed] <= |candidates|
    decreases |candidates|
  {
    if candidates != [] {
      var n := |candidates| - 1;
      OutcomesCounted(candidates[..n], heard[..n], outcomes[..n]);
      assert outcomes == outcomes[..n] + [outcomes[n]];
    }
  }

  lemma HeardGrows(committed: seq<bool>, faults: nat -> Fault, g: bool)
    ensures Heard(committed + [g], faults) == Heard(committed, faults) + [g && faults(|committed|) != AnswerLost]
  {
  }
}
