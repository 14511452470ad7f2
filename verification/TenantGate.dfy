/** The tenant gate: a per-tenant decision cache in front of two database reads.

    A database read is a function of the moment it runs, so any other activity is covered.
    Between a request's own steps other requests may store any number of decisions. */
module TenantGate {
  import opened Options

  type Time = int
  type Duration = int
  type TenantId = nat
  type Claim = string   // the tenant as the token spells it, which is also the cache key

  const MAX_ENTRIES := 1024

  datatype Read<+T> = Got(value: T) | Failed

  datatype Subscription = Subscription(status: string, end: Option<Time>)

  datatype World = World(
    status: (TenantId, Time) -> Read<string>,
    subscription: (TenantId, Time) -> Read<Option<Subscription>>)

  datatype Verdict = Blocked | Open | Unknown

  datatype Entry = Entry(blocked: bool, expires: Time)

  type Cache = map<Claim, Entry>

  function IsTenantBlocked(status: Read<string>, subscription: Read<Option<Subscription>>, now: Time): Verdict {
    if status.Failed? then Unknown
    else if status.value != "active" then Blocked
    else if subscription.Failed? || subscription.value.None? then Open
    else
      var sub := subscription.value.value;
      if sub.status == "expired" || sub.status == "cancelled" then Blocked
      else if sub.end.Some? && now > sub.end.value && sub.status != "active" then Blocked
      else Open
  }

  /** One uncached decision: when its two reads and its clock reading took place, and when it
      was stored. */
  datatype Reading = Reading(
    claim: Claim, tenant: TenantId, blocked: bool, statusAt: Time, subAt: Time, clockAt: Time, storedAt: Time)

  predicate Honest(w: World, rd: Reading) {
    && rd.statusAt <= rd.subAt <= rd.clockAt <= rd.storedAt
    && IsTenantBlocked(w.status(rd.tenant, rd.statusAt), w.subscription(rd.tenant, rd.subAt), rd.clockAt)
       == (if rd.blocked then Blocked else Open)
  }

  /** The decision the cache gives at time t, if it gives one. */
  function Cached(cache: Cache, claim: Claim, t: Time): Option<bool> {
    if claim in cache && t < cache[claim].expires then Some(cache[claim].blocked) else None
  }

  function Swept(cache: Cache, now: Time): Cache {
    map k | k in cache && now <= cache[k].expires :: cache[k]
  }

  /** The locked section that stores a decision; without a limit nothing is ever swept. */
  function Stored(cache: Cache, claim: Claim, entry: Entry, sweepAt: Time, limit: Option<nat>): Cache {
    var kept := if limit.Some? && |cache| >= limit.value then Swept(cache, sweepAt) else cache;
    kept[claim := entry]
  }

  /** Sweeping at `now` changes no decision from then on, and leaves only unexpired entries:
      the cache outgrows its limit only by decisions that are still in force. */
  lemma {:induction false} SweepChangesNothing(cache: Cache, now: Time, claim: Claim, entry: Entry, limit: nat)
    ensures forall k, t :: now <= t ==> Cached(Swept(cache, now), k, t) == Cached(cache, k, t)
    ensures forall k :: k in Swept(cache, now) <==> k in cache && !(now > cache[k].expires)
    ensures var after := Stored(cache, claim, entry, now, Some(limit));
            |after| <= limit || |after| <= |Swept(cache, now)| + 1
  {
    var after := Stored(cache, claim, entry, now, Some(limit));
    var kept := if |cache| >= limit then Swept(cache, now) else cache;
    assert after.Keys == kept.Keys + {claim};
  }

  datatype Op =
    | Lookup(claim: Claim, at: Time)
    | Remember(claim: Claim, entry: Entry, at: Time)

  /** Lock sections in the order they run.  A store reads the clock inside its section; a lookup
      reads it after its own, so its time may lie after any number of later sections. */
  predicate InOrder(ops: seq<Op>) {
    forall i, j :: 0 <= i < j < |ops| && ops[i].Remember? ==> ops[i].at <= ops[j].at
  }

  function CacheAfter(ops: seq<Op>, limit: Option<nat>): Cache {
    if ops == [] then map[]
    else
      var cache := CacheAfter(ops[..|ops| - 1], limit);
      match ops[|ops| - 1]
      case Lookup(_, _) => cache
      case Remember(claim, entry, at) => Stored(cache, claim, entry, at, limit)
  }

  ghost predicate Shadows(small: Cache, big: Cache, now: Time) {
    && small.Keys <= big.Keys
    && (forall k :: k in small ==> small[k] == big[k])
    && (forall k :: k in big && k !in small ==> big[k].expires < now)
  }

  lemma {:induction false} BoundedShadows(ops: seq<Op>, limit: nat, now: Time)
    requires InOrder(ops) && forall i :: 0 <= i < |ops| && ops[i].Remember? ==> ops[i].at <= now
    ensures Shadows(CacheAfter(ops, Some(limit)), CacheAfter(ops, None), now)
  {
    if ops != [] {
      var n := |ops| - 1;
      BoundedShadows(ops[..n], limit, if ops[n].Remember? then ops[n].at else now);
    }
  }

  /** Over any run of lookups and stores the swept cache answers exactly as one that never
      forgets anything. */
  lemma {:induction false} BoundedCacheRefines(ops: seq<Op>, limit: nat, claim: Claim, t: Time)
    requires InOrder(ops + [Lookup(claim, t)])
    ensures Cached(CacheAfter(ops, Some(limit)), claim, t) == Cached(CacheAfter(ops, None), claim, t)
  {
    var all := ops + [Lookup(claim, t)];
    assert all[|ops|] == Lookup(claim, t);
    assert forall i :: 0 <= i < |ops| ==> all[i] == ops[i];
    BoundedShadows(ops, limit, t);
  }

  datatype Request = Exempt | NoClaims | Gated(claim: Claim)

  datatype Answer = Through | Suspended | InvalidToken | CheckFailed

  class Gate {
    const ttl: Duration
    const parse: Claim -> Option<TenantId>
    ghost const world: World
    var cache: Cache
    ghost var source: map<Claim, Reading>   // the reading behind each entry

    ghost predicate Valid()
      reads this
    {
      && (ttl <= 0 ==> cache == map[])
      && forall k :: k in cache ==>
           && k in source
           && Honest(world, source[k])
           && source[k].claim == k
           && parse(k) == Some(source[k].tenant)
           && cache[k] == Entry(source[k].blocked, source[k].storedAt + ttl)
    }

    constructor (ttl: Duration, parse: Claim -> Option<TenantId>, ghost world: World)
      ensures Valid() && cache == map[] && this.ttl == ttl && this.parse == parse && this.world == world
    {
      this.ttl, this.parse, this.world, cache, source := ttl, parse, world, map[], map[];
    }

    method SweepExpiredLocked(now: Time)
      modifies this`cache
      ensures cache == Swept(old(cache), now)
    {
      var keys := cache.Keys;
      while keys != {}
        invariant keys <= old(cache).Keys && cache.Keys <= old(cache).Keys
        invariant forall k :: k in cache ==> cache[k] == old(cache)[k]
        invariant keys <= cache.Keys
        invariant forall k :: k in old(cache) && k !in keys ==> (k in cache <==> now <= old(cache)[k].expires)
        decreases |keys|
      {
        var k :| k in keys;
        if now > cache[k].expires {
          cache := cache - {k};
        }
        keys := keys - {k};
      }
    }

    /** The write-locked section: it reads the clock for the sweep, then for the expiry. */
    method Remember(claim: Claim, blocked: bool, sweepAt: Time, storedAt: Time, ghost rd: Reading)
      requires Valid() && ttl > 0 && parse(claim) == Some(rd.tenant)
      requires Honest(world, rd) && rd.claim == claim && rd.blocked == blocked && rd.storedAt == storedAt
      modifies this`cache, this`source
      ensures Valid()
      ensures cache == Stored(old(cache), claim, Entry(blocked, storedAt + ttl), sweepAt, Some(MAX_ENTRIES))
    {
      if |cache| >= MAX_ENTRIES {
        SweepExpiredLocked(sweepAt);
      }
      cache := cache[claim := Entry(blocked, storedAt + ttl)];
      source := source[claim := rd];
    }

    /** Other requests store their own decisions, in any number and for any tenant. */
    method Interfere(others: seq<Reading>)
      requires Valid() && forall i :: 0 <= i < |others| ==> Honest(world, others[i])
      modifies this`cache, this`source
      ensures Valid()
    {
      var n := 0;
      while n < |others|
        invariant 0 <= n <= |others| && Valid()
      {
        var rd := others[n];
        if ttl > 0 && parse(rd.claim) == Some(rd.tenant) {
          Remember(rd.claim, rd.blocked, rd.clockAt, rd.storedAt, rd);
        }
        n := n + 1;
      }
    }

    /** One request through the gate.  It reads the clock for the lookup at `lookAt` and, on a
        miss, runs its reads at the moments of `own`.  Its decision is that of an honest
        uncached reading for its tenant: its own, or one stored less than a TTL before. */
    method Handle(req: Request, lookAt: Time, own: Reading, sweepAt: Time, others: seq<Reading>,
                  status: Read<string>, subscription: Read<Option<Subscription>>)
      returns (answer: Answer, ghost used: Option<Reading>)
      requires Valid() && forall i :: 0 <= i < |others| ==> Honest(world, others[i])
      requires lookAt <= own.statusAt <= own.subAt <= own.clockAt <= sweepAt <= own.storedAt
      requires status == world.status(own.tenant, own.statusAt)
      requires subscription == world.subscription(own.tenant, own.subAt)
      requires req.Gated? && parse(req.claim).Some? ==> own.tenant == parse(req.claim).value
      modifies this`cache, this`source
      ensures Valid()
      ensures !req.Gated? ==> answer == Through && used == None && cache == old(cache)
      ensures req.Gated? ==>
                match answer
                case InvalidToken => parse(req.claim) == None && used == None && cache == old(cache)
                case CheckFailed => status.Failed? && used == None
                case _ =>
                  && used.Some?
                  && Honest(world, used.value)
                  && used.value.claim == req.claim
                  && Some(used.value.tenant) == parse(req.claim)
                  && (answer == Suspended <==> used.value.blocked)
                  && (used.value.statusAt == own.statusAt
                      || (ttl > 0 && used.value.statusAt > lookAt - ttl - (used.value.storedAt - used.value.statusAt)))
      ensures req.Gated? && Cached(old(cache), req.claim, lookAt).Some? ==>
                cache == old(cache) && answer == if Cached(old(cache), req.claim, lookAt).value then Suspended else Through
      ensures req.Gated? && ttl > 0 && Cached(old(cache), req.claim, lookAt) == None && answer in {Through, Suspended} ==>
                req.claim in cache && cache[req.claim] == Entry(answer == Suspended, own.storedAt + ttl)
    {
      used := None;
      if !req.Gated? {
        return Through, None;
      }
      if ttl > 0 && req.claim in cache {
        var entry := cache[req.claim];
        if lookAt < entry.expires {
          return if entry.blocked then Suspended else Through, Some(source[req.claim]);
        }
      }
      if parse(req.claim).None? {
        return InvalidToken, None;
      }
      var verdict := IsTenantBlocked(status, subscription, own.clockAt);
      Interfere(others);
      if verdict.Unknown? {
        return CheckFailed, None;
      }
      var blocked := verdict.Blocked?;
      ghost var rd := own.(claim := req.claim, blocked := blocked);
      if ttl > 0 {
        Remember(req.claim, blocked, sweepAt, own.storedAt, rd);
      }
      return if blocked then Suspended else Through, Some(rd);
    }
  }

  /** What the gate would decide from one snapshot of the database. */
  function AtOnce(w: World, id: TenantId, t: Time): Verdict {
    IsTenantBlocked(w.status(id, t), w.subscription(id, t), t)
  }

  /** The subscription part of the decision: an expired or cancelled one blocks, and so does one
      that is not active once its end date has passed. */
  predicate BlockedBySubscription(subscription: Read<Option<Subscription>>, now: Time) {
    && subscription.Got? && subscription.value.Some?
    && var sub := subscription.value.value;
       || sub.status == "expired"
       || sub.status == "cancelled"
       || (sub.status != "active" && sub.end.Some? && sub.end.value < now)
  }

  /** The end date of a subscription that counts passes after `from` and before `until`. */
  predicate EndsBetween(subscription: Read<Option<Subscription>>, from: Time, until: Time) {
    && subscription.Got? && subscription.value.Some?
    && subscription.value.value.status != "active"
    && subscription.value.value.end.Some?
    && from <= subscription.value.value.end.value < until
  }

  predicate Inactive(status: Read<string>) {
    status.Got? && status.value != "active"
  }

  /** The decision is that of the one moment of the second read if and only if the status could
      be read then too, and either the subscription blocks at that moment, or whether the status
      is active has not changed since the first read, except that an end date passing just
      before the clock was read counts as having turned inactive. */
  lemma ReadingExact(w: World, rd: Reading)
    requires Honest(w, rd)
    ensures var first, second := w.status(rd.tenant, rd.statusAt), w.status(rd.tenant, rd.subAt);
            var sub := w.subscription(rd.tenant, rd.subAt);
            AtOnce(w, rd.tenant, rd.subAt) == (if rd.blocked then Blocked else Open) <==>
              && second.Got?
              && (BlockedBySubscription(sub, rd.subAt)
                  || (Inactive(second) <==> Inactive(first) || EndsBetween(sub, rd.subAt, rd.clockAt)))
  {
    SubscriptionBlocks(w.status(rd.tenant, rd.statusAt), w.subscription(rd.tenant, rd.subAt), rd.clockAt);
    SubscriptionBlocks(w.status(rd.tenant, rd.subAt), w.subscription(rd.tenant, rd.subAt), rd.subAt);
  }

  /** For the moment of the first read: the status alone blocks, or whether the subscription
      blocks is the same then as when it was read, at the clock reading. */
  lemma FirstReadExact(w: World, rd: Reading)
    requires Honest(w, rd)
    ensures AtOnce(w, rd.tenant, rd.statusAt) == (if rd.blocked then Blocked else Open) <==>
              || Inactive(w.status(rd.tenant, rd.statusAt))
              || (BlockedBySubscription(w.subscription(rd.tenant, rd.statusAt), rd.statusAt)
                  <==> BlockedBySubscription(w.subscription(rd.tenant, rd.subAt), rd.clockAt))
  {
    SubscriptionBlocks(w.status(rd.tenant, rd.statusAt), w.subscription(rd.tenant, rd.subAt), rd.clockAt);
    SubscriptionBlocks(w.status(rd.tenant, rd.statusAt), w.subscription(rd.tenant, rd.statusAt), rd.statusAt);
  }

  /** The decision is one a snapshot would have given whenever only one of the two rows changes
      between the reads, and no end date passes before the clock reading. */
  lemma OneRowChanges(w: World, rd: Reading)
    requires Honest(w, rd)
    requires !EndsBetween(w.subscription(rd.tenant, rd.subAt), rd.statusAt, rd.clockAt)
    requires w.status(rd.tenant, rd.statusAt) == w.status(rd.tenant, rd.subAt)
             || w.subscription(rd.tenant, rd.statusAt) == w.subscription(rd.tenant, rd.subAt)
    ensures exists t :: rd.statusAt <= t <= rd.subAt && AtOnce(w, rd.tenant, t) == if rd.blocked then Blocked else Open
  {
    ReadingExact(w, rd);
    FirstReadExact(w, rd);
  }

  lemma SubscriptionBlocks(status: Read<string>, subscription: Read<Option<Subscription>>, now: Time)
    ensures IsTenantBlocked(status, subscription, now) ==
            if status.Failed? then Unknown
            else if Inactive(status) || BlockedBySubscription(subscription, now) then Blocked
            else Open
  {
  }

  /** When they fall apart the gate can let a tenant through that was blocked at every moment: the
      lapsed subscription is renewed and the tenant suspended between the two reads. */
  lemma LetThroughThoughAlwaysBlocked(w: World, id: TenantId)
    requires forall t :: w.status(id, t) == Got(if t < 2 then "active" else "suspended")
    requires forall t :: w.subscription(id, t)
                         == Got(Some(Subscription(if t < 2 then "expired" else "active", None)))
    ensures Honest(w, Reading("", id, false, 1, 2, 2, 2))
    ensures forall t :: AtOnce(w, id, t) == Blocked
  {
    assert w.status(id, 1) == Got("active");
    assert w.subscription(id, 2) == Got(Some(Subscription("active", None)));
  }
}
