/** The stream handler: subscribe, hello, then the select loop until the client is gone. */
module MonitorStream {
  import opened MemBroker

  /** What happens next around the handler: other goroutines signal the broker, or one of its
      own select cases fires.  `ok` says whether the frame could still be written. */
  datatype Wake =
    | Publish(event: EventId)
    | BroadcastAll
    | Signal(ok: bool)
    | Ping(ok: bool)
    | Cancelled

  datatype Frame = HelloFrame | UpdateFrame | PingFrame

  datatype Stream = Stream(frames: seq<Frame>, pending: bool, open: bool)

  predicate Signals(wake: Wake, e: EventId) {
    wake == Publish(e) || wake == BroadcastAll
  }

  function Woken(st: Stream, wake: Wake, e: EventId): Stream {
    if !st.open then st
    else if Signals(wake, e) then st.(pending := true)
    else match wake
    case Publish(_) => st
    case BroadcastAll => st
    case Signal(ok) =>
      if !st.pending then st
      else if ok then st.(frames := st.frames + [UpdateFrame], pending := false)
      else st.(pending := false, open := false)
    case Ping(ok) => if ok then st.(frames := st.frames + [PingFrame]) else st.(open := false)
    case Cancelled => st.(open := false)
  }

  /** The stream after the hello frame and the wakes of `script`. */
  function After(script: seq<Wake>, e: EventId): Stream {
    if script == [] then Stream([HelloFrame], false, true)
    else Woken(After(script[..|script| - 1], e), script[|script| - 1], e)
  }

  function Updates(frames: seq<Frame>): nat {
    if frames == [] then 0 else Updates(frames[..|frames| - 1]) + if frames[|frames| - 1].UpdateFrame? then 1 else 0
  }

  function SignalCount(script: seq<Wake>, e: EventId): nat {
    if script == [] then 0 else SignalCount(script[..|script| - 1], e) + if Signals(script[|script| - 1], e) then 1 else 0
  }

  lemma UpdatesAppend(frames: seq<Frame>, f: Frame)
    ensures Updates(frames + [f]) == Updates(frames) + if f.UpdateFrame? then 1 else 0
  {
    assert (frames + [f])[..|frames|] == frames;
  }

  lemma StreamStep(st: Stream, wake: Wake, e: EventId)
    ensures var next := Woken(st, wake, e);
            && Updates(st.frames) <= Updates(next.frames) <= Updates(st.frames) + 1
            && (st.pending && next.open && !next.pending ==> Updates(next.frames) > Updates(st.frames))
            && (Updates(next.frames) > Updates(st.frames) ==> st.pending && !next.pending)
            && (next.open ==> st.open)
  {
    if wake.Signal? {
      UpdatesAppend(st.frames, UpdateFrame);
    } else if wake.Ping? {
      UpdatesAppend(st.frames, PingFrame);
    }
  }

  /** No signal after the subscription is lost: while the stream is open, an update frame is
      written after it or its signal is still in the slot.  And no update comes unprompted. */
  lemma {:induction false} SignalNotLost(script: seq<Wake>, e: EventId, i: nat)
    requires i < |script| && Signals(script[i], e) && After(script, e).open
    ensures After(script, e).pending || Updates(After(script, e).frames) > Updates(After(script[..i + 1], e).frames)
    ensures Updates(After(script, e).frames) >= Updates(After(script[..i + 1], e).frames)
    decreases |script|
  {
    var n := |script| - 1;
    StreamStep(After(script[..n], e), script[n], e);
    if i < n {
      assert script[..n][..i + 1] == script[..i + 1];
      SignalNotLost(script[..n], e, i);
    } else {
      assert script[..n + 1] == script;
    }
  }

  lemma {:induction false} UpdatesAreSignalled(script: seq<Wake>, e: EventId)
    ensures Updates(After(script, e).frames) + (if After(script, e).pending then 1 else 0) <= SignalCount(script, e)
    decreases |script|
  {
    if script == [] {
      assert Updates([HelloFrame]) == 0 by {
        UpdatesAppend([], HelloFrame);
        assert [] + [HelloFrame] == [HelloFrame];
      }
    } else {
      var n := |script| - 1;
      UpdatesAreSignalled(script[..n], e);
      StreamStep(After(script[..n], e), script[n], e);
    }
  }

  /** Some signal before wake i has not been read since. */
  ghost predicate Unread(script: seq<Wake>, e: EventId, i: nat)
    requires i <= |script|
  {
    exists k :: 0 <= k < i && Signals(script[k], e) && forall j :: k < j < i ==> !script[j].Signal?
  }

  /** Wake i is what ends the handler: the client is gone, or a frame cannot be written. */
  ghost predicate Ends(script: seq<Wake>, e: EventId, i: nat)
    requires i < |script|
  {
    script[i] == Cancelled || script[i] == Ping(false) || (script[i] == Signal(false) && Unread(script, e, i))
  }

  /** What wake i writes if the stream is still open then. */
  ghost function WrittenAt(script: seq<Wake>, e: EventId, i: nat): seq<Frame>
    requires i < |script|
  {
    if exists j :: 0 <= j < i && Ends(script, e, j) then []
    else if script[i] == Ping(true) then [PingFrame]
    else if script[i] == Signal(true) && Unread(script, e, i) then [UpdateFrame]
    else []
  }

  lemma PrefixSame(script: seq<Wake>, e: EventId, n: nat)
    requires n <= |script|
    ensures forall i: nat :: i <= n ==> (Unread(script[..n], e, i) <==> Unread(script, e, i))
    ensures forall i: nat :: i < n ==> (Ends(script[..n], e, i) <==> Ends(script, e, i))
  {
    var init := script[..n];
    forall i: nat | i <= n
      ensures Unread(init, e, i) <==> Unread(script, e, i)
    {
      if Unread(init, e, i) {
        var k :| 0 <= k < i && Signals(init[k], e) && forall j :: k < j < i ==> !init[j].Signal?;
        assert forall j :: k < j < i ==> init[j] == script[j];
        assert Signals(script[k], e);
      }
      if Unread(script, e, i) {
        var k :| 0 <= k < i && Signals(script[k], e) && forall j :: k < j < i ==> !script[j].Signal?;
        assert forall j :: k < j < i ==> init[j] == script[j];
        assert Signals(init[k], e);
      }
    }
  }

  lemma UnreadNext(script: seq<Wake>, e: EventId, n: nat)
    requires n < |script|
    ensures Unread(script, e, n + 1) <==> Signals(script[n], e) || (!script[n].Signal? && Unread(script, e, n))
  {
  }

  /** The stream from the history alone: it is open until the client is gone or a write fails, the
      slot is full exactly while a signal has not been read, and each ping and each read of a
      full slot writes its one frame. */
  lemma {:induction false} StreamExactly(script: seq<Wake>, e: EventId)
    ensures After([], e) == Stream([HelloFrame], false, true)
    ensures var st := After(script, e);
            && (st.open <==> forall i: nat :: i < |script| ==> !Ends(script, e, i))
            && (st.open ==> (st.pending <==> Unread(script, e, |script|)))
            && (script != [] ==>
                  st.frames == After(script[..|script| - 1], e).frames + WrittenAt(script, e, |script| - 1))
    decreases |script|
  {
    if script != [] {
      var n := |script| - 1;
      var init := script[..n];
      StreamExactly(init, e);
      PrefixSame(script, e, n);
      UnreadNext(script, e, n);
      assert After(init, e).open <==> forall i: nat :: i < n ==> !Ends(script, e, i);
      assert After(script, e).open <==> After(init, e).open && !Ends(script, e, n);
      assert After(init, e).frames + [] == After(init, e).frames;
    }
  }

  /** A subscription that is taken back leaves the fan-out map exactly as it was. */
  lemma LeavesNoTrace(m: Mem, e: EventId, c: ChanId)
    requires Valid(m) && c !in m.slot
    ensures Unsubscribed(Subscribed(m, e, c), e, c).subs == m.subs
  {
    assert Subscribers(m, e) + {c} - {c} == Subscribers(m, e);
  }

  /** One round of the select loop, or of somebody else's signalling, around channel c. */
  method Round(b: Broker, e: EventId, c: ChanId, wake: Wake, frames: seq<Frame>) returns (frames': seq<Frame>, open: bool)
    requires Valid(b.Value()) && c in b.slot && e in b.subs && c in b.subs[e]
    modifies b`slot
    ensures Valid(b.Value()) && b.slot.Keys == old(b.slot).Keys
    ensures Stream(frames', b.slot[c], open) == Woken(Stream(frames, old(b.slot)[c], true), wake, e)
  {
    frames', open := frames, true;
    match wake {
      case Publish(d) =>
        assert d != e && d in b.subs ==> c !in b.subs[d];
        b.Publish(d);
      case BroadcastAll =>
        assert SubscribedAnywhere(b.Value(), c);
        b.BroadcastAll();
      case Signal(ok) =>
        if b.slot[c] {
          b.slot := b.slot[c := false];
          frames' := if ok then frames + [UpdateFrame] else frames;
          open := ok;
        }
      case Ping(ok) =>
        frames' := if ok then frames + [PingFrame] else frames;
        open := ok;
      case Cancelled => open := false;
    }
  }

  /** The select loop, until the client is gone or `script` ends. */
  method Serve(b: Broker, e: EventId, c: ChanId, script: seq<Wake>) returns (frames: seq<Frame>, ghost lived: seq<Wake>)
    requires Valid(b.Value()) && c in b.slot && e in b.subs && c in b.subs[e] && !b.slot[c]
    modifies b`slot
    ensures Valid(b.Value()) && b.slot.Keys == old(b.slot).Keys
    ensures lived <= script && frames == After(lived, e).frames && b.slot[c] == After(lived, e).pending
    ensures lived == script || !After(lived, e).open
  {
    frames := [HelloFrame];
    var open, n := true, 0;
    while n < |script| && open
      invariant 0 <= n <= |script| && Valid(b.Value()) && b.slot.Keys == old(b.slot).Keys
      invariant Stream(frames, b.slot[c], open) == After(script[..n], e)
    {
      assert script[..n + 1][..n] == script[..n];
      frames, open := Round(b, e, c, script[n], frames);
      n := n + 1;
    }
    lived := script[..n];
    assert n == |script| ==> lived == script;
  }

  /** GetEventMonitorStream.  The subscription is live before the hello frame, and is gone again
      when the handler returns: no subscriber is leaked and nobody else's is touched. */
  method GetEventMonitorStream(b: Broker, e: EventId, c: ChanId, hello: bool, script: seq<Wake>)
    returns (frames: seq<Frame>, ghost lived: seq<Wake>)
    requires Valid(b.Value()) && c !in b.slot
    modifies b
    ensures Valid(b.Value()) && b.subs == old(b.subs)
    ensures lived <= script && (hello ==> frames == After(lived, e).frames)
    ensures hello ==> lived == script || !After(lived, e).open
    ensures !hello ==> frames == [] && lived == []
    ensures c in b.slot && (hello ==> b.slot[c] == After(lived, e).pending)
  {
    LeavesNoTrace(b.Value(), e, c);
    var subscription := b.Subscribe(e, c);
    frames, lived := [], [];
    if hello {
      frames, lived := Serve(b, e, c, script);
    }
    b.Unsubscribe(subscription);
  }
}
