/** The in-process broker: one-slot channels grouped by event. */
module MemBroker {
  type EventId = nat
  type ChanId = nat

  /** `subs` is the fan-out map; `slot[c]` says whether channel `c` holds an unread signal. */
  datatype Mem = Mem(subs: map<EventId, set<ChanId>>, slot: map<ChanId, bool>)

  ghost predicate Valid(m: Mem) {
    && (forall e :: e in m.subs ==> m.subs[e] != {} && m.subs[e] <= m.slot.Keys)
    && (forall e, d, c :: e in m.subs && d in m.subs && c in m.subs[e] && c in m.subs[d] ==> e == d)
  }

  function Subscribers(m: Mem, e: EventId): set<ChanId> {
    if e in m.subs then m.subs[e] else {}
  }

  ghost predicate SubscribedAnywhere(m: Mem, c: ChanId) {
    exists e :: e in m.subs && c in m.subs[e]
  }

  /** A non-blocking send to each channel of `cs`: an unread signal absorbs the new one. */
  function Fill(slot: map<ChanId, bool>, cs: set<ChanId>): map<ChanId, bool> {
    map c | c in slot :: slot[c] || c in cs
  }

  function Published(m: Mem, e: EventId): Mem {
    m.(slot := Fill(m.slot, Subscribers(m, e)))
  }

  ghost function Broadcast(m: Mem): Mem {
    m.(slot := map c | c in m.slot :: m.slot[c] || SubscribedAnywhere(m, c))
  }

  function Subscribed(m: Mem, e: EventId, c: ChanId): Mem {
    Mem(m.subs[e := Subscribers(m, e) + {c}], m.slot[c := false])
  }

  function Unsubscribed(m: Mem, e: EventId, c: ChanId): Mem {
    var left := Subscribers(m, e) - {c};
    m.(subs := if left == {} then m.subs - {e} else m.subs[e := left])
  }

  /** The value returned to a subscriber together with its channel. */
  class Subscription {
    const event: EventId
    const chan: ChanId
    var done: bool

    constructor (event: EventId, chan: ChanId)
      ensures this.event == event && this.chan == chan && !done
    {
      this.event, this.chan, done := event, chan, false;
    }
  }

  class Broker {
    var subs: map<EventId, set<ChanId>>
    var slot: map<ChanId, bool>

    function Value(): Mem
      reads this
    {
      Mem(subs, slot)
    }

    constructor ()
      ensures Value() == Mem(map[], map[]) && Valid(Value())
    {
      subs, slot := map[], map[];
    }

    method TrySend(c: ChanId)
      requires c in slot
      modifies this`slot
      ensures slot == old(slot)[c := true]
    {
      if !slot[c] {
        slot := slot[c := true];
      }
    }

    method SendAll(cs: set<ChanId>)
      requires cs <= slot.Keys
      modifies this`slot
      ensures slot == Fill(old(slot), cs)
    {
      var rest := cs;
      while rest != {}
        invariant rest <= cs && slot == Fill(old(slot), cs - rest)
        decreases |rest|
      {
        var c :| c in rest;
        TrySend(c);
        rest := rest - {c};
      }
    }

    method Publish(e: EventId)
      requires Valid(Value())
      modifies this`slot
      ensures Valid(Value()) && Value() == Published(old(Value()), e)
      ensures slot.Keys == old(slot).Keys
      ensures forall c :: c in slot ==> (slot[c] <==> old(slot)[c] || (e in subs && c in subs[e]))
    {
      if e in subs {
        SendAll(subs[e]);
      } else {
        assert slot == Fill(slot, {});
      }
    }

    method BroadcastAll()
      requires Valid(Value())
      modifies this`slot
      ensures Valid(Value()) && Value() == Broadcast(old(Value()))
      ensures slot.Keys == old(slot).Keys
      ensures forall c :: c in slot ==> (slot[c] <==> old(slot)[c] || exists e :: e in subs && c in subs[e])
    {
      var rest := subs.Keys;
      ghost var was := slot;
      while rest != {}
        invariant rest <= subs.Keys && slot.Keys == was.Keys
        invariant forall c :: c in was ==>
                    (slot[c] <==> was[c] || exists e :: e in subs && e !in rest && c in subs[e])
        decreases |rest|
      {
        var e :| e in rest;
        SendAll(subs[e]);
        rest := rest - {e};
      }
    }

    method Subscribe(e: EventId, c: ChanId) returns (s: Subscription)
      requires Valid(Value()) && c !in slot
      modifies this
      ensures Valid(Value()) && Value() == Subscribed(old(Value()), e, c)
      ensures fresh(s) && s.event == e && s.chan == c && !s.done
      ensures slot == old(slot)[c := false]
      ensures forall d, o :: (d in subs && o in subs[d]) <==> ((d in old(subs) && o in old(subs)[d]) || (d == e && o == c))
    {
      if e !in subs {
        subs := subs[e := {}];
      }
      subs, slot := subs[e := subs[e] + {c}], slot[c := false];
      s := new Subscription(e, c);
    }

    /** The unsubscribe function: only its first call has an effect. */
    method Unsubscribe(s: Subscription)
      requires Valid(Value())
      modifies this`subs, s`done
      ensures Valid(Value()) && s.done
      ensures Value() == if old(s.done) || s.event !in old(subs) then old(Value())
                         else Unsubscribed(old(Value()), s.event, s.chan)
      ensures forall d, o :: (d in subs && o in subs[d]) <==>
                d in old(subs) && o in old(subs)[d] && (old(s.done) || d != s.event || o != s.chan)
    {
      if s.done {
        return;
      }
      s.done := true;
      if s.event in subs {
        var left := subs[s.event] - {s.chan};
        subs := subs[s.event := left];
        if left == {} {
          assert forall o :: o in old(subs)[s.event] ==> o in left || o == s.chan;
          subs := subs - {s.event};
        }
      }
    }
  }

  /** Signals coalesce: any number of publishes with no read in between leave exactly the
      slots that one publish fills, so a subscriber never blocks and never queues. */
  lemma PublishCoalesces(m: Mem, e: EventId)
    ensures Published(Published(m, e), e) == Published(m, e)
  {
  }

  /** A subscriber that leaves takes nobody else's subscription or pending signal along. */
  lemma UnsubscribeLeavesOthers(m: Mem, e: EventId, c: ChanId, d: EventId, o: ChanId)
    requires Valid(m) && c in Subscribers(m, e) && !(d == e && o == c)
    ensures Valid(Unsubscribed(m, e, c))
    ensures o in Subscribers(m, d) <==> o in Subscribers(Unsubscribed(m, e, c), d)
    ensures Unsubscribed(m, e, c).slot == m.slot
  {
    var m' := Unsubscribed(m, e, c);
    assert forall x :: x in m'.subs ==> m'.subs[x] <= m.subs[x];
  }

  /** A new subscriber joins with an empty slot and disturbs nobody. */
  lemma SubscribeLeavesOthers(m: Mem, e: EventId, c: ChanId)
    requires Valid(m) && c !in m.slot
    ensures Valid(Subscribed(m, e, c)) && c in Subscribers(Subscribed(m, e, c), e)
    ensures forall d, o :: o in Subscribers(m, d) ==>
              o != c && o in Subscribers(Subscribed(m, e, c), d)
              && o in m.slot && Subscribed(m, e, c).slot[o] == m.slot[o]
  {
    var m' := Subscribed(m, e, c);
    assert forall d :: d in m.subs ==> m.subs[d] <= m.slot.Keys;
    forall d | d in m'.subs ensures m'.subs[d] <= m'.slot.Keys && m'.subs[d] != {} {
      assert d != e ==> m'.subs[d] == m.subs[d];
    }
  }
}
