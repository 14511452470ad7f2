/** The lock-free heartbeat throttle of one event.

    `shouldPublishHeartbeat` is a LoadOrStore / CompareAndSwap loop on one shared cell.  Each
    atomic operation is a method; between two of them other heartbeats may run to completion
    any number of times (`Interfere`). */
module Heartbeat {
  type Time = int

  datatype Cell = Empty | Stamp(at: Time)

  /** The publish times granted so far are at least one throttle apart, and the last one is
      what the cell holds. */
  ghost predicate Spaced(grants: seq<Time>, throttle: nat) {
    forall i :: 0 < i < |grants| ==> grants[i] - grants[i - 1] >= throttle
  }

  ghost predicate Consistent(cell: Cell, grants: seq<Time>, throttle: nat) {
    && Spaced(grants, throttle)
    && (cell.Empty? <==> grants == [])
    && (cell.Stamp? ==> cell.at == grants[|grants| - 1])
  }

  lemma {:induction false} SpacedApart(grants: seq<Time>, throttle: nat, i: nat, j: nat)
    requires Spaced(grants, throttle) && i <= j < |grants|
    ensures grants[j] - grants[i] >= (j - i) * throttle
    decreases j
  {
    if i < j {
      SpacedApart(grants, throttle, i, j - 1);
      assert (j - i) * throttle == (j - 1 - i) * throttle + throttle;
    }
  }

  lemma MulFits(n: nat, d: nat, span: nat)
    requires d > 0 && n * d <= span
    ensures n <= span / d
  {
    var q := span / d;
    assert span < (q + 1) * d;
    assert n > q ==> n * d >= (q + 1) * d;
  }

  /** Any two granted publishes are at least one throttle apart, and any span of length `span`
      holds at most span / throttle + 1 of them. */
  lemma GrantsAreRare(grants: seq<Time>, throttle: nat, i: nat, j: nat, span: nat)
    requires Spaced(grants, throttle) && throttle > 0 && i < j < |grants|
    ensures grants[j] - grants[i] >= throttle
    ensures grants[j] - grants[i] <= span ==> j - i + 1 <= span / throttle + 1
  {
    SpacedApart(grants, throttle, i, j);
    SpacedApart(grants, throttle, i, j - 1);
    assert grants[j] - grants[j - 1] >= throttle;
    assert (j - 1 - i) * throttle >= 0;
    if grants[j] - grants[i] <= span {
      MulFits(j - i, throttle, span);
    }
  }

  class Throttle {
    const throttle: nat
    var cell: Cell
    ghost var grants: seq<Time>

    ghost predicate Valid()
      reads this
    {
      throttle > 0 && Consistent(cell, grants, throttle)
    }

    constructor (throttle: nat)
      requires throttle > 0
      ensures Valid() && cell == Empty && this.throttle == throttle
    {
      this.throttle, cell, grants := throttle, Empty, [];
    }

    /** What any number of complete heartbeats do to the cell: nothing, or they raise it by at
        least one throttle; grants are only ever appended. */
    twostate predicate Rely()
      reads this
    {
      && old(grants) <= grants
      && (grants == old(grants) ==> cell == old(cell))
      && (old(cell).Stamp? && cell != old(cell) ==> cell.Stamp? && cell.at >= old(cell).at + throttle)
      && (old(cell).Stamp? ==> cell.Stamp?)
    }

    /** The map operation LoadOrStore. */
    method LoadOrStore(now: Time) returns (v: Time, loaded: bool)
      requires Valid()
      modifies this
      ensures Valid() && Rely()
      ensures loaded <==> old(cell).Stamp?
      ensures loaded ==> v == old(cell).at && cell == old(cell) && grants == old(grants)
      ensures !loaded ==> v == now && cell == Stamp(now) && grants == old(grants) + [now]
    {
      if cell.Stamp? {
        return cell.at, true;
      }
      cell, grants := Stamp(now), grants + [now];
      return now, false;
    }

    /** The map operation CompareAndSwap. */
    method CompareAndSwap(last: Time, now: Time) returns (swapped: bool)
      requires Valid() && now - last >= throttle
      modifies this
      ensures Valid() && Rely()
      ensures swapped <==> old(cell) == Stamp(last)
      ensures swapped ==> cell == Stamp(now) && grants == old(grants) + [now]
      ensures !swapped ==> cell == old(cell) && grants == old(grants)
    {
      if cell == Stamp(last) {
        cell, grants := Stamp(now), grants + [now];
        return true;
      }
      return false;
    }

    /** Other heartbeats of the same event run here, any number of them with any clock readings. */
    method Interfere(others: seq<Time>)
      requires Valid()
      modifies this
      ensures Valid() && Rely()
    {
      var n := 0;
      while n < |others|
        invariant 0 <= n <= |others| && Valid() && Rely()
      {
        label before:
        var v, loaded := LoadOrStore(others[n]);
        if loaded && others[n] - v >= throttle {
          var swapped := CompareAndSwap(v, others[n]);
        }
        n := n + 1;
      }
    }

    /** One round of the loop: load or store, and a swap before which `others` run; after a lost
        swap `later` run before the next round.  It is lost only after the stored time has risen
        by a whole throttle. */
    method Round(now: Time, others: seq<Time>, later: seq<Time>) returns (done: bool, ok: bool)
      requires Valid()
      modifies this
      ensures Valid() && Rely()
      ensures ok ==> done && cell == Stamp(now) && |grants| > |old(grants)| && grants[|grants| - 1] == now
      ensures ok ==> old(cell).Empty? || now - old(cell).at >= throttle
      ensures done && !ok ==> old(cell).Stamp? && now - old(cell).at < throttle && cell == old(cell) && grants == old(grants)
      ensures !done ==> old(cell).Stamp? && cell.Stamp? && throttle <= now - old(cell).at && old(cell).at + throttle <= cell.at
    {
      var last, loaded := LoadOrStore(now);
      if !loaded {
        return true, true;
      }
      if now - last < throttle {
        return true, false;
      }
      Interfere(others);
      ok := CompareAndSwap(last, now);
      done := ok;
      if !done {
        Interfere(later);
      }
    }

    /** shouldPublishHeartbeat.  `others(k)` are the heartbeats that run before our k-th
        CompareAndSwap, and `later(k)` those between it, when it is lost, and our next load.
        Every lost swap has seen the stored time rise by a whole throttle, so the loop ends
        whatever the others do. */
    method ShouldPublish(now: Time, others: nat -> seq<Time>, later: nat -> seq<Time>) returns (ok: bool, rounds: nat)
      requires Valid()
      modifies this
      ensures Valid() && old(grants) <= grants
      ensures ok ==> |grants| > |old(grants)| && grants[|grants| - 1] == now && cell == Stamp(now)
      ensures !ok ==> cell.Stamp? && now - cell.at < throttle
      ensures old(cell).Empty? ==> rounds == 1 && ok
      ensures old(cell).Stamp? && now - old(cell).at >= throttle ==> Lost(rounds - 1, throttle, now - old(cell).at)
      ensures old(cell).Stamp? && now - old(cell).at < throttle ==> rounds == 1 && !ok && grants == old(grants)
    {
      rounds := 0;
      ok := false;
      var done := false;
      while !done
        invariant Valid() && old(grants) <= grants
        invariant ok ==> done && |grants| > |old(grants)| && grants[|grants| - 1] == now && cell == Stamp(now)
        invariant done && !ok ==> cell.Stamp? && now - cell.at < throttle
        invariant rounds == 0 ==> !done && cell == old(cell) && grants == old(grants)
        invariant rounds > 0 && old(cell).Empty? ==> done && ok && rounds == 1
        invariant rounds > 0 && old(cell).Stamp? && now - old(cell).at < throttle ==>
                    done && !ok && rounds == 1 && grants == old(grants)
        invariant rounds > 0 && !done ==>
                    cell.Stamp? && Lost(rounds, throttle, cell.at - old(cell).at) && Lost(rounds, throttle, now - old(cell).at)
        invariant rounds > 0 && old(cell).Stamp? && now - old(cell).at >= throttle ==>
                    Lost(rounds - 1, throttle, now - old(cell).at)
        decreases !done, if cell.Stamp? then now - cell.at else 0
      {
        ghost var before := cell;
        done, ok := Round(now, others(rounds), later(rounds));
        if !done {
          OneMoreLost(rounds, throttle, before.at - old(cell).at, cell.at - old(cell).at);
          OneMoreLost(rounds, throttle, before.at - old(cell).at, now - old(cell).at);
        }
        rounds := rounds + 1;
      }
    }
  }

  /** n lost swaps, each worth a throttle, fit into `span`. */
  predicate Lost(n: int, throttle: int, span: int) {
    n * throttle <= span
  }

  lemma OneMoreLost(n: nat, throttle: nat, span: int, more: int)
    requires Lost(n, throttle, span) && span + throttle <= more
    ensures Lost(n + 1, throttle, more)
  {
    assert (n + 1) * throttle == n * throttle + throttle;
  }
}
