/** LISTEN/NOTIFY fan-out over several replicas, up to the monitor page that re-fetches.

    Each replica forwards the notifications of one LISTEN connection into its own in-process
    broker.  The connection can die, losing what it had not delivered and everything sent
    until LISTEN is issued again; a broadcast follows every reconnect.  A monitor page
    re-fetches after the hello frame and after update frames, through a coalescing timer. */
module Fanout {
  import opened MemBroker

  type ReplicaId = nat
  type PageId = nat

  datatype Payload = ForEvent(e: EventId) | Malformed

  datatype Link =
    | Live
    | Broken       // dead, not noticed yet; buffered notifications may still arrive
    | Down         // noticed; the reconnect loop is running
    | Relistened   // LISTEN issued again; the broadcast has not run yet

  datatype Replica = Replica(mem: Mem, queue: seq<Payload>, link: Link)

  /** One attached monitor page and the stream handler that serves it. */
  datatype Page = Page(
    replica: ReplicaId,
    event: EventId,
    chan: ChanId,
    hello: bool,    // subscribed, hello frame not written yet
    frames: nat,    // hello and update frames written, not read by the page yet
    timer: bool,    // the page has a re-fetch scheduled
    fetched: nat,   // version of the snapshot it shows
    tried: nat,     // newest published change when it last attempted a re-fetch
    failed: bool)   // that attempt failed; the page keeps the old snapshot

  datatype World = World(
    committed: map<EventId, nat>,   // changes committed so far
    published: map<EventId, nat>,   // newest change whose NOTIFY succeeded
    replicas: map<ReplicaId, Replica>,
    pages: map<PageId, Page>)

  datatype Step =
    | Change(e: EventId)
    | Notify(e: EventId, version: nat)
    | NotifyMalformed
    | Deliver(r: ReplicaId)
    | Break(r: ReplicaId, keep: nat)
    | Detect(r: ReplicaId)
    | Relisten(r: ReplicaId)
    | Rebroadcast(r: ReplicaId)
    | Attach(p: PageId, r: ReplicaId, e: EventId, c: ChanId, fetched: nat)
    | WriteHello(p: PageId)
    | WriteUpdate(p: PageId)
    | ReadFrame(p: PageId)
    | Fetch(p: PageId)
    | FetchFails(p: PageId)
    | Start(r: ReplicaId)
    | Detach(p: PageId)

  function Version(m: map<EventId, nat>, e: EventId): nat {
    if e in m then m[e] else 0
  }

  predicate Enabled(w: World, s: Step) {
    match s
    case Change(e) => true
    case Notify(e, v) => v <= Version(w.committed, e)
    case NotifyMalformed => true
    case Deliver(r) => r in w.replicas && w.replicas[r].queue != [] && (w.replicas[r].link.Live? || w.replicas[r].link.Broken?)
    case Break(r, keep) =>
      r in w.replicas && (w.replicas[r].link.Live? || w.replicas[r].link.Relistened?) && keep <= |w.replicas[r].queue|
    case Detect(r) => r in w.replicas && w.replicas[r].link.Broken?
    case Relisten(r) => r in w.replicas && w.replicas[r].link.Down?
    case Rebroadcast(r) => r in w.replicas && w.replicas[r].link.Relistened?
    case Attach(p, r, e, c, fetched) =>
      p !in w.pages && r in w.replicas && c !in w.replicas[r].mem.slot && fetched <= Version(w.committed, e)
    case WriteHello(p) => p in w.pages && w.pages[p].hello
    case WriteUpdate(p) =>
      p in w.pages && !w.pages[p].hello && w.pages[p].replica in w.replicas
      && w.pages[p].chan in w.replicas[w.pages[p].replica].mem.slot
      && w.replicas[w.pages[p].replica].mem.slot[w.pages[p].chan]
    case ReadFrame(p) => p in w.pages && w.pages[p].frames > 0
    case Fetch(p) => p in w.pages && w.pages[p].timer
    case FetchFails(p) => p in w.pages && w.pages[p].timer
    case Start(r) => r !in w.replicas
    case Detach(p) => p in w.pages && w.pages[p].replica in w.replicas
  }

  function Hears(rep: Replica): bool {
    rep.link.Live? || rep.link.Relistened?
  }

  function Enqueue(rep: Replica, x: Payload): Replica {
    if Hears(rep) then rep.(queue := rep.queue + [x]) else rep
  }

  /** handleNotification: a malformed payload is skipped. */
  function Forward(m: Mem, x: Payload): Mem {
    match x
    case ForEvent(e) => Published(m, e)
    case Malformed => m
  }

  ghost function Next(w: World, s: Step): World
    requires Enabled(w, s)
  {
    match s
    case Change(e) => w.(committed := w.committed[e := Version(w.committed, e) + 1])
    case Notify(e, v) =>
      w.(published := w.published[e := if v > Version(w.published, e) then v else Version(w.published, e)],
         replicas := map r | r in w.replicas :: Enqueue(w.replicas[r], ForEvent(e)))
    case NotifyMalformed => w.(replicas := map r | r in w.replicas :: Enqueue(w.replicas[r], Malformed))
    case Deliver(r) =>
      var rep := w.replicas[r];
      w.(replicas := w.replicas[r := rep.(mem := Forward(rep.mem, rep.queue[0]), queue := rep.queue[1..])])
    case Break(r, keep) =>
      w.(replicas := w.replicas[r := w.replicas[r].(link := Broken, queue := w.replicas[r].queue[..keep])])
    case Detect(r) => w.(replicas := w.replicas[r := w.replicas[r].(link := Down, queue := [])])
    case Relisten(r) => w.(replicas := w.replicas[r := w.replicas[r].(link := Relistened)])
    case Rebroadcast(r) =>
      w.(replicas := w.replicas[r := w.replicas[r].(link := Live, mem := Broadcast(w.replicas[r].mem))])
    case Attach(p, r, e, c, fetched) =>
      w.(replicas := w.replicas[r := w.replicas[r].(mem := Subscribed(w.replicas[r].mem, e, c))],
         pages := w.pages[p := Page(r, e, c, true, 0, false, fetched, 0, false)])
    case WriteHello(p) => w.(pages := w.pages[p := w.pages[p].(hello := false, frames := w.pages[p].frames + 1)])
    case WriteUpdate(p) =>
      var pg := w.pages[p];
      var mem := w.replicas[pg.replica].mem;
      w.(replicas := w.replicas[pg.replica := w.replicas[pg.replica].(mem := mem.(slot := mem.slot[pg.chan := false]))],
         pages := w.pages[p := pg.(frames := pg.frames + 1)])
    case ReadFrame(p) => w.(pages := w.pages[p := w.pages[p].(frames := w.pages[p].frames - 1, timer := true)])
    case Fetch(p) =>
      var e := w.pages[p].event;
      w.(pages := w.pages[p := w.pages[p].(timer := false, failed := false,
                                           fetched := Version(w.committed, e), tried := Version(w.published, e))])
    case FetchFails(p) =>
      w.(pages := w.pages[p := w.pages[p].(timer := false, failed := true, tried := Version(w.published, w.pages[p].event))])
    case Start(r) => w.(replicas := w.replicas[r := Replica(Mem(map[], map[]), [], Live)])
    case Detach(p) =>
      var pg := w.pages[p];
      w.(replicas := w.replicas[pg.replica := w.replicas[pg.replica].(mem := Unsubscribed(w.replicas[pg.replica].mem, pg.event, pg.chan))],
         pages := w.pages - {p})
  }

  /** Some part of the machinery still owes this page a re-fetch. */
  predicate Owed(w: World, pg: Page)
    requires pg.replica in w.replicas && pg.chan in w.replicas[pg.replica].mem.slot
  {
    var rep := w.replicas[pg.replica];
    || pg.hello || pg.frames > 0 || pg.timer
    || rep.mem.slot[pg.chan]
    || ForEvent(pg.event) in rep.queue
    || !rep.link.Live?
  }

  ghost predicate Attached(w: World, pg: Page) {
    && pg.replica in w.replicas
    && pg.chan in Subscribers(w.replicas[pg.replica].mem, pg.event)
    && pg.chan in w.replicas[pg.replica].mem.slot
  }

  /** A change published since the page's last attempt is owed to it, and an attempt that did not
      fail has brought everything published by then. */
  ghost predicate Fresh(w: World, pg: Page)
    requires Attached(w, pg)
  {
    && pg.tried <= Version(w.published, pg.event)
    && (pg.tried < Version(w.published, pg.event) ==> Owed(w, pg))
    && (!pg.failed ==> pg.tried <= pg.fetched)
  }

  ghost predicate Inv(w: World) {
    && (forall e :: Version(w.published, e) <= Version(w.committed, e))
    && (forall r :: r in w.replicas ==> Valid(w.replicas[r].mem))
    && (forall p :: p in w.pages ==> Attached(w, w.pages[p]) && Fresh(w, w.pages[p]))
    && (forall p, q :: p in w.pages && q in w.pages && p != q && w.pages[p].replica == w.pages[q].replica
          ==> w.pages[p].chan != w.pages[q].chan)
  }

  ghost predicate Init(w: World) {
    && (forall e :: Version(w.published, e) <= Version(w.committed, e))
    && (forall r :: r in w.replicas ==> w.replicas[r] == Replica(Mem(map[], map[]), [], Live))
    && w.pages == map[]
  }

  /** A replica update that only fills slots, and keeps every queued event or fills its slots. */
  ghost predicate Gentle(before: Replica, after: Replica, e: EventId, c: ChanId) {
    && after.mem.subs == before.mem.subs && after.mem.slot.Keys == before.mem.slot.Keys
    && (c in before.mem.slot && before.mem.slot[c] ==> after.mem.slot[c])
    && (!before.link.Live? ==> !after.link.Live? || (c in after.mem.slot && after.mem.slot[c]))
    && (ForEvent(e) in before.queue ==>
          ForEvent(e) in after.queue || !after.link.Live? || (c in after.mem.slot && after.mem.slot[c]))
  }

  lemma GentleDeliver(rep: Replica, e: EventId, c: ChanId)
    requires rep.queue != [] && c in Subscribers(rep.mem, e) && c in rep.mem.slot
    ensures Gentle(rep, rep.(mem := Forward(rep.mem, rep.queue[0]), queue := rep.queue[1..]), e, c)
  {
    assert rep.queue == [rep.queue[0]] + rep.queue[1..];
  }

  lemma InvReplica(w: World, r: ReplicaId, rep: Replica)
    requires Inv(w) && r in w.replicas
    requires rep.mem.subs == w.replicas[r].mem.subs && rep.mem.slot.Keys == w.replicas[r].mem.slot.Keys
    requires forall p :: p in w.pages && w.pages[p].replica == r ==>
               Gentle(w.replicas[r], rep, w.pages[p].event, w.pages[p].chan)
    ensures Inv(w.(replicas := w.replicas[r := rep]))
  {
    var w' := w.(replicas := w.replicas[r := rep]);
    forall p | p in w'.pages ensures Attached(w', w'.pages[p]) && Fresh(w', w'.pages[p]) {
      assert Attached(w, w.pages[p]) && Fresh(w, w.pages[p]);
    }
  }

  lemma InvDeliver(w: World, r: ReplicaId)
    requires Inv(w) && Enabled(w, Deliver(r))
    ensures Inv(Next(w, Deliver(r)))
  {
    var rep := w.replicas[r];
    forall p | p in w.pages && w.pages[p].replica == r
      ensures Gentle(rep, rep.(mem := Forward(rep.mem, rep.queue[0]), queue := rep.queue[1..]), w.pages[p].event, w.pages[p].chan)
    {
      assert Attached(w, w.pages[p]);
      GentleDeliver(rep, w.pages[p].event, w.pages[p].chan);
    }
    InvReplica(w, r, rep.(mem := Forward(rep.mem, rep.queue[0]), queue := rep.queue[1..]));
  }

  lemma InvRebroadcast(w: World, r: ReplicaId)
    requires Inv(w) && Enabled(w, Rebroadcast(r))
    ensures Inv(Next(w, Rebroadcast(r)))
  {
    var rep := w.replicas[r];
    var rep' := rep.(link := Live, mem := Broadcast(rep.mem));
    forall p | p in w.pages && w.pages[p].replica == r ensures Gentle(rep, rep', w.pages[p].event, w.pages[p].chan) {
      assert Attached(w, w.pages[p]);
      assert SubscribedAnywhere(rep.mem, w.pages[p].chan);
    }
    InvReplica(w, r, rep');
  }

  lemma InvLink(w: World, s: Step)
    requires Inv(w) && Enabled(w, s) && (s.Break? || s.Detect? || s.Relisten?)
    ensures Inv(Next(w, s))
  {
    InvReplica(w, s.r, Next(w, s).replicas[s.r]);
  }

  /** What a page has stays what it has when only other pages change. */
  lemma Unmoved(w: World, w': World, pg: Page)
    requires Attached(w, pg) && Fresh(w, pg) && w'.replicas == w.replicas && w'.published == w.published
    ensures Attached(w', pg) && Fresh(w', pg)
  {
  }

  lemma NotifyKeepsPage(w: World, s: Step, p: PageId)
    requires Inv(w) && Enabled(w, s) && (s.Notify? || s.NotifyMalformed?) && p in w.pages
    ensures Attached(Next(w, s), w.pages[p]) && Fresh(Next(w, s), w.pages[p])
  {
    var w', pg := Next(w, s), w.pages[p];
    assert Attached(w, pg) && Fresh(w, pg);
    var rep, rep' := w.replicas[pg.replica], w'.replicas[pg.replica];
    QueueGrows(w, s, pg.replica, pg.event);
  }

  /** A notification reaches the queue of every replica that hears it, and takes nothing away. */
  lemma QueueGrows(w: World, s: Step, r: ReplicaId, e: EventId)
    requires Enabled(w, s) && (s.Notify? || s.NotifyMalformed?) && r in w.replicas
    ensures var rep, rep' := w.replicas[r], Next(w, s).replicas[r];
            && rep'.mem == rep.mem && rep'.link == rep.link
            && (ForEvent(e) in rep.queue ==> ForEvent(e) in rep'.queue)
            && (s.Notify? && s.e == e && rep.link.Live? ==> ForEvent(e) in rep'.queue)
  {
  }

  lemma InvNotify(w: World, s: Step)
    requires Inv(w) && Enabled(w, s) && (s.Notify? || s.NotifyMalformed?)
    ensures Inv(Next(w, s))
  {
    forall p | p in w.pages
      ensures Attached(Next(w, s), w.pages[p]) && Fresh(Next(w, s), w.pages[p])
    {
      NotifyKeepsPage(w, s, p);
    }
  }

  /** A channel nobody uses yet, with its subscription. */
  lemma InvSubscribe(w: World, r: ReplicaId, e: EventId, c: ChanId)
    requires Inv(w) && r in w.replicas && c !in w.replicas[r].mem.slot
    ensures var rep := w.replicas[r];
            Inv(w.(replicas := w.replicas[r := rep.(mem := Subscribed(rep.mem, e, c))]))
  {
    var rep := w.replicas[r];
    var w' := w.(replicas := w.replicas[r := rep.(mem := Subscribed(rep.mem, e, c))]);
    SubscribeLeavesOthers(rep.mem, e, c);
    forall q | q in w.pages
      ensures Attached(w', w.pages[q]) && Fresh(w', w.pages[q])
    {
      assert Attached(w, w.pages[q]) && Fresh(w, w.pages[q]);
    }
  }

  /** A new page that takes over such a channel starts with its hello frame owed. */
  lemma InvNewPage(w: World, p: PageId, pg: Page)
    requires Inv(w) && p !in w.pages && pg.hello && pg.tried == 0 && Attached(w, pg)
    requires forall q :: q in w.pages && w.pages[q].replica == pg.replica ==> w.pages[q].chan != pg.chan
    ensures Inv(w.(pages := w.pages[p := pg]))
  {
    var w' := w.(pages := w.pages[p := pg]);
    forall q | q in w'.pages
      ensures Attached(w', w'.pages[q]) && Fresh(w', w'.pages[q])
    {
      Unmoved(w, w', w'.pages[q]);
    }
  }

  lemma InvAttach(w: World, p: PageId, r: ReplicaId, e: EventId, c: ChanId, fetched: nat)
    requires Inv(w) && Enabled(w, Attach(p, r, e, c, fetched))
    ensures Inv(Next(w, Attach(p, r, e, c, fetched)))
  {
    var rep := w.replicas[r];
    var subscribed := w.(replicas := w.replicas[r := rep.(mem := Subscribed(rep.mem, e, c))]);
    InvSubscribe(w, r, e, c);
    forall q | q in w.pages && w.pages[q].replica == r
      ensures w.pages[q].chan != c
    {
      assert Attached(w, w.pages[q]);
    }
    InvNewPage(subscribed, p, Page(r, e, c, true, 0, false, fetched, 0, false));
  }

  lemma DetachKeepsPage(w: World, p: PageId, q: PageId)
    requires Inv(w) && Enabled(w, Detach(p)) && q in w.pages && q != p
    ensures Attached(Next(w, Detach(p)), w.pages[q]) && Fresh(Next(w, Detach(p)), w.pages[q])
  {
    var pg := w.pages[p];
    assert Attached(w, pg) && Attached(w, w.pages[q]) && Fresh(w, w.pages[q]);
    if w.pages[q].replica == pg.replica {
      UnsubscribeLeavesOthers(w.replicas[pg.replica].mem, pg.event, pg.chan, w.pages[q].event, w.pages[q].chan);
    }
  }

  lemma InvDetach(w: World, p: PageId)
    requires Inv(w) && Enabled(w, Detach(p))
    ensures Inv(Next(w, Detach(p)))
  {
    var w', pg := Next(w, Detach(p)), w.pages[p];
    assert Attached(w, pg);
    UnsubscribeLeavesOthers(w.replicas[pg.replica].mem, pg.event, pg.chan, pg.event, pg.chan + 1);
    forall q | q in w'.pages
      ensures Attached(w', w'.pages[q]) && Fresh(w', w'.pages[q])
    {
      DetachKeepsPage(w, p, q);
    }
  }

  lemma WriteUpdateKeepsPage(w: World, p: PageId, q: PageId)
    requires Inv(w) && Enabled(w, WriteUpdate(p)) && q in w.pages
    ensures var w' := Next(w, WriteUpdate(p));
            Attached(w', w'.pages[q]) && Fresh(w', w'.pages[q])
  {
    assert Attached(w, w.pages[q]) && Fresh(w, w.pages[q]);
  }

  lemma InvWriteUpdate(w: World, p: PageId)
    requires Inv(w) && Enabled(w, WriteUpdate(p))
    ensures Inv(Next(w, WriteUpdate(p)))
  {
    var w' := Next(w, WriteUpdate(p));
    forall q | q in w'.pages ensures Attached(w', w'.pages[q]) && Fresh(w', w'.pages[q]) {
      WriteUpdateKeepsPage(w, p, q);
    }
  }

  lemma InvChange(w: World, e: EventId)
    requires Inv(w)
    ensures Inv(Next(w, Change(e)))
  {
    var w' := Next(w, Change(e));
    forall q | q in w'.pages ensures Attached(w', w'.pages[q]) && Fresh(w', w'.pages[q]) {
      assert Attached(w, w.pages[q]) && Fresh(w, w.pages[q]);
    }
  }

  /** A page step that keeps its identity and leaves it owed, or has just attempted a re-fetch. */
  lemma InvPage(w: World, p: PageId, pg: Page)
    requires Inv(w) && p in w.pages
    requires pg.replica == w.pages[p].replica && pg.event == w.pages[p].event && pg.chan == w.pages[p].chan
    requires pg.tried <= Version(w.published, pg.event) && (!pg.failed ==> pg.tried <= pg.fetched)
    requires pg.hello || pg.frames > 0 || pg.timer || pg.tried == Version(w.published, pg.event)
    ensures Inv(w.(pages := w.pages[p := pg]))
  {
    var w' := w.(pages := w.pages[p := pg]);
    assert Attached(w, w.pages[p]) && Attached(w, pg) && Fresh(w, pg);
    forall q | q in w'.pages ensures Attached(w', w'.pages[q]) && Fresh(w', w'.pages[q]) {
      Unmoved(w, w', w'.pages[q]);
    }
  }

  lemma InvStart(w: World, r: ReplicaId)
    requires Inv(w) && r !in w.replicas
    ensures Inv(Next(w, Start(r)))
  {
    var w' := Next(w, Start(r));
    forall q | q in w'.pages ensures Attached(w', w'.pages[q]) && Fresh(w', w'.pages[q]) {
      assert Attached(w, w.pages[q]) && Fresh(w, w.pages[q]);
    }
  }

  lemma InvStep(w: World, s: Step)
    requires Inv(w) && Enabled(w, s)
    ensures Inv(Next(w, s))
  {
    match s
    case Deliver(r) => InvDeliver(w, r);
    case Rebroadcast(r) => InvRebroadcast(w, r);
    case Notify(_, _) => InvNotify(w, s);
    case NotifyMalformed => InvNotify(w, s);
    case Attach(p, r, e, c, fetched) => InvAttach(w, p, r, e, c, fetched);
    case Detach(p) => InvDetach(w, p);
    case WriteUpdate(p) => InvWriteUpdate(w, p);
    case Break(_, _) => InvLink(w, s);
    case Detect(_) => InvLink(w, s);
    case Relisten(_) => InvLink(w, s);
    case Change(e) => InvChange(w, e);
    case WriteHello(p) =>
      assert Attached(w, w.pages[p]) && Fresh(w, w.pages[p]);
      InvPage(w, p, Next(w, s).pages[p]);
    case ReadFrame(p) =>
      assert Attached(w, w.pages[p]) && Fresh(w, w.pages[p]);
      InvPage(w, p, Next(w, s).pages[p]);
    case Fetch(p) =>
      assert Attached(w, w.pages[p]) && Fresh(w, w.pages[p]);
      InvPage(w, p, Next(w, s).pages[p]);
    case FetchFails(p) =>
      assert Attached(w, w.pages[p]) && Fresh(w, w.pages[p]);
      InvPage(w, p, Next(w, s).pages[p]);
    case Start(r) => InvStart(w, r);
  }

  /** `w` is reached from an initial world by the steps of `run`. */
  ghost predicate Reaches(run: seq<World>, steps: seq<Step>) {
    && |run| == |steps| + 1 && Init(run[0])
    && forall i :: 0 <= i < |steps| ==> Enabled(run[i], steps[i]) && run[i + 1] == Next(run[i], steps[i])
  }

  lemma {:induction false} RunInv(run: seq<World>, steps: seq<Step>, n: nat)
    requires Reaches(run, steps) && n < |run|
    ensures Inv(run[n])
  {
    if n > 0 {
      RunInv(run, steps, n - 1);
      InvStep(run[n - 1], steps[n - 1]);
    }
  }

  /** No silent staleness: in every reachable world a change published after a page's last attempt
      to re-fetch is still owed to it, whether or not earlier attempts failed.  So a page with
      nothing outstanding has attempted a re-fetch since the newest published change; it shows
      less than that change if and only if this attempt failed and its snapshot is older. */
  lemma NeverSilentlyStale(run: seq<World>, steps: seq<Step>, p: PageId)
    requires Reaches(run, steps) && p in run[|run| - 1].pages
    ensures var w := run[|run| - 1];
            var pg := w.pages[p];
            var newest := Version(w.published, pg.event);
            && Attached(w, pg)
            && (pg.tried < newest ==> Owed(w, pg))
            && (pg.fetched < newest && !pg.failed ==> Owed(w, pg))
            && (!Owed(w, pg) ==> pg.tried == newest && (pg.fetched < newest <==> pg.failed && pg.fetched < pg.tried))
            && (w.replicas[pg.replica].link.Live? && w.replicas[pg.replica].queue == []
                && !pg.hello && pg.frames == 0 && !pg.timer && !w.replicas[pg.replica].mem.slot[pg.chan]
                ==> !Owed(w, pg))
  {
    RunInv(run, steps, |run| - 1);
    assert Fresh(run[|run| - 1], run[|run| - 1].pages[p]);
  }

  /** A failed attempt leaves a page stale with nothing outstanding exactly when its snapshot is
      older than the newest published change and nothing else was outstanding; and the next
      change published for its event makes it owed again. */
  lemma FailureAndRecovery(run: seq<World>, steps: seq<Step>, p: PageId, v: nat)
    requires Reaches(run, steps) && p in run[|run| - 1].pages
    ensures var w := run[|run| - 1];
            var pg := w.pages[p];
            && Attached(w, pg)
            && (Enabled(w, FetchFails(p)) ==>
                  (StaleAndQuiet(Next(w, FetchFails(p)), p) <==>
                     !Owed(w, pg.(timer := false)) && pg.fetched < Version(w.published, pg.event)))
            && (Enabled(w, Notify(pg.event, v)) && v > Version(w.published, pg.event) ==>
                  var next := Next(w, Notify(pg.event, v));
                  && Attached(next, next.pages[p])
                  && Owed(next, next.pages[p]))
  {
    var w := run[|run| - 1];
    RunInv(run, steps, |run| - 1);
    AfterFailure(w, p);
    NextChangeOwed(w, p, v);
  }

  lemma AfterFailure(w: World, p: PageId)
    requires Inv(w) && p in w.pages
    ensures Attached(w, w.pages[p])
    ensures var pg := w.pages[p];
            Enabled(w, FetchFails(p)) ==>
              (StaleAndQuiet(Next(w, FetchFails(p)), p) <==>
                 !Owed(w, pg.(timer := false)) && pg.fetched < Version(w.published, pg.event))
  {
    assert Attached(w, w.pages[p]);
  }

  lemma NextChangeOwed(w: World, p: PageId, v: nat)
    requires Inv(w) && p in w.pages
    ensures var pg := w.pages[p];
            Enabled(w, Notify(pg.event, v)) && v > Version(w.published, pg.event) ==>
              var next := Next(w, Notify(pg.event, v));
              && Attached(next, next.pages[p])
              && Owed(next, next.pages[p])
  {
    var pg := w.pages[p];
    assert Attached(w, pg) && Fresh(w, pg);
    if Enabled(w, Notify(pg.event, v)) && v > Version(w.published, pg.event) {
      NotifyKeepsPage(w, Notify(pg.event, v), p);
    }
  }

  ghost predicate StaleAndQuiet(w: World, p: PageId) {
    && p in w.pages && Attached(w, w.pages[p])
    && !Owed(w, w.pages[p])
    && w.pages[p].fetched < Version(w.published, w.pages[p].event)
  }

  const UNREFRESHED: seq<Step> :=
    [Attach(0, 0, 5, 9, 0), WriteHello(0), Change(5), Notify(5, 1), Deliver(0), WriteUpdate(0), ReadFrame(0), ReadFrame(0),
     FetchFails(0)]

  /** A world with one page on one replica. */
  function OnePage(committed: map<EventId, nat>, published: map<EventId, nat>, queue: seq<Payload>, signal: bool,
                   hello: bool, frames: nat, timer: bool, failed: bool): World {
    World(committed, published,
          map[0 := Replica(Mem(map[5 := {9}], map[9 := signal]), queue, Live)],
          map[0 := Page(0, 5, 9, hello, frames, timer, 0, if failed then 1 else 0, failed)])
  }

  /** And a failed re-fetch does leave a page stale with nothing outstanding, until something
      else happens to the event or the page reconnects. */
  lemma FailedRefetchStaysStale()
    ensures exists run: seq<World> :: Reaches(run, UNREFRESHED) && StaleAndQuiet(run[|run| - 1], 0)
  {
    var w0 := World(map[], map[], map[0 := Replica(Mem(map[], map[]), [], Live)], map[]);
    assert Reaches([w0], []);
    var opening, signalling := [Attach(0, 0, 5, 9, 0), WriteHello(0)], [Change(5), Notify(5, 1), Deliver(0)];
    var updating, failing := [WriteUpdate(0), ReadFrame(0)], [ReadFrame(0), FetchFails(0)];
    var run := PageOpens([w0], []);
    assert [] + opening == opening;
    run := PageSignalled(run, opening);
    run := PageUpdated(run, opening + signalling);
    run := PageFails(run, opening + signalling + updating);
    assert opening + signalling + updating + failing == UNREFRESHED;
    assert StaleAndQuiet(run[|run| - 1], 0);
  }

  ghost predicate StepTo(w: World, s: Step, next: World) {
    Enabled(w, s) && Next(w, s) == next
  }

  lemma Longer(run: seq<World>, steps: seq<Step>, s: Step, next: World) returns (more: seq<World>)
    requires Reaches(run, steps) && StepTo(run[|run| - 1], s, next)
    ensures Reaches(more, steps + [s]) && more[|more| - 1] == next
  {
    more := run + [next];
  }

  lemma PageOpens(run: seq<World>, steps: seq<Step>) returns (more: seq<World>)
    requires Reaches(run, steps)
    requires run[|run| - 1] == World(map[], map[], map[0 := Replica(Mem(map[], map[]), [], Live)], map[])
    ensures Reaches(more, steps + [Attach(0, 0, 5, 9, 0), WriteHello(0)])
    ensures more[|more| - 1] == OnePage(map[], map[], [], false, false, 1, false, false)
  {
    var m := Mem(map[], map[]);
    assert Subscribers(m, 5) + {9} == {9};
    assert m.subs[5 := {9}] == map[5 := {9}] && m.slot[9 := false] == map[9 := false];
    more := Longer(run, steps, Attach(0, 0, 5, 9, 0), OnePage(map[], map[], [], false, true, 0, false, false));
    more := Longer(more, steps + [Attach(0, 0, 5, 9, 0)], WriteHello(0), OnePage(map[], map[], [], false, false, 1, false, false));
    assert steps + [Attach(0, 0, 5, 9, 0)] + [WriteHello(0)] == steps + [Attach(0, 0, 5, 9, 0), WriteHello(0)];
  }

  lemma NotifyStep(one: map<EventId, nat>)
    requires one == map[5 := 1]
    ensures StepTo(OnePage(map[], map[], [], false, false, 1, false, false), Change(5),
                   OnePage(one, map[], [], false, false, 1, false, false))
    ensures StepTo(OnePage(one, map[], [], false, false, 1, false, false), Notify(5, 1),
                   OnePage(one, one, [ForEvent(5)], false, false, 1, false, false))
  {
    assert [] + [ForEvent(5)] == [ForEvent(5)];
  }

  lemma DeliverStep(one: map<EventId, nat>)
    requires one == map[5 := 1]
    ensures StepTo(OnePage(one, one, [ForEvent(5)], false, false, 1, false, false), Deliver(0),
                   OnePage(one, one, [], true, false, 1, false, false))
  {
    var mem := Mem(map[5 := {9}], map[9 := false]);
    assert Published(mem, 5) == Mem(map[5 := {9}], map[9 := true]);
    assert [ForEvent(5)][1..] == [];
  }

  lemma UpdateStep()
    ensures var one := map[5 := 1];
            StepTo(OnePage(one, one, [], true, false, 1, false, false), WriteUpdate(0),
                   OnePage(one, one, [], false, false, 2, false, false))
  {
    var before, after := Mem(map[5 := {9}], map[9 := true]), Mem(map[5 := {9}], map[9 := false]);
    assert before.(slot := before.slot[9 := false]) == after;
    assert map[0 := Replica(before, [], Live)][0 := Replica(after, [], Live)] == map[0 := Replica(after, [], Live)];
  }

  lemma ReadStep(one: map<EventId, nat>, frames: nat, timer: bool)
    requires frames > 0
    ensures StepTo(OnePage(one, one, [], false, false, frames, timer, false), ReadFrame(0),
                   OnePage(one, one, [], false, false, frames - 1, true, false))
  {
  }

  lemma FailStep(one: map<EventId, nat>)
    requires one == map[5 := 1]
    ensures StepTo(OnePage(one, one, [], false, false, 0, true, false), FetchFails(0),
                   OnePage(one, one, [], false, false, 0, false, true))
  {
  }

  lemma PageSignalled(run: seq<World>, steps: seq<Step>) returns (more: seq<World>)
    requires Reaches(run, steps) && run[|run| - 1] == OnePage(map[], map[], [], false, false, 1, false, false)
    ensures Reaches(more, steps + [Change(5), Notify(5, 1), Deliver(0)])
    ensures more[|more| - 1] == OnePage(map[5 := 1], map[5 := 1], [], true, false, 1, false, false)
  {
    var one := map[5 := 1];
    NotifyStep(one);
    DeliverStep(one);
    more := Longer(run, steps, Change(5), OnePage(one, map[], [], false, false, 1, false, false));
    more := Longer(more, steps + [Change(5)], Notify(5, 1), OnePage(one, one, [ForEvent(5)], false, false, 1, false, false));
    more := Longer(more, steps + [Change(5)] + [Notify(5, 1)], Deliver(0), OnePage(one, one, [], true, false, 1, false, false));
    assert steps + [Change(5)] + [Notify(5, 1)] + [Deliver(0)] == steps + [Change(5), Notify(5, 1), Deliver(0)];
  }

  lemma PageUpdated(run: seq<World>, steps: seq<Step>) returns (more: seq<World>)
    requires Reaches(run, steps) && run[|run| - 1] == OnePage(map[5 := 1], map[5 := 1], [], true, false, 1, false, false)
    ensures Reaches(more, steps + [WriteUpdate(0), ReadFrame(0)])
    ensures more[|more| - 1] == OnePage(map[5 := 1], map[5 := 1], [], false, false, 1, true, false)
  {
    var one := map[5 := 1];
    UpdateStep();
    ReadStep(one, 2, false);
    more := Longer(run, steps, WriteUpdate(0), OnePage(one, one, [], false, false, 2, false, false));
    more := Longer(more, steps + [WriteUpdate(0)], ReadFrame(0), OnePage(one, one, [], false, false, 1, true, false));
    assert steps + [WriteUpdate(0)] + [ReadFrame(0)] == steps + [WriteUpdate(0), ReadFrame(0)];
  }

  lemma PageFails(run: seq<World>, steps: seq<Step>) returns (more: seq<World>)
    requires Reaches(run, steps) && run[|run| - 1] == OnePage(map[5 := 1], map[5 := 1], [], false, false, 1, true, false)
    ensures Reaches(more, steps + [ReadFrame(0), FetchFails(0)])
    ensures more[|more| - 1] == OnePage(map[5 := 1], map[5 := 1], [], false, false, 0, false, true)
  {
    var one := map[5 := 1];
    ReadStep(one, 1, true);
    FailStep(one);
    more := Longer(run, steps, ReadFrame(0), OnePage(one, one, [], false, false, 0, true, false));
    more := Longer(more, steps + [ReadFrame(0)], FetchFails(0), OnePage(one, one, [], false, false, 0, false, true));
    assert steps + [ReadFrame(0)] + [FetchFails(0)] == steps + [ReadFrame(0), FetchFails(0)];
  }

  const BACKOFF_INITIAL: nat := 1_000
  const BACKOFF_MAX: nat := 30_000

  function NextBackoff(cur: nat): nat {
    if cur * 2 > BACKOFF_MAX then BACKOFF_MAX else cur * 2
  }

  function Pow2(n: nat): nat {
    if n == 0 then 1 else 2 * Pow2(n - 1)
  }

  function Capped(n: nat): nat {
    if BACKOFF_INITIAL * Pow2(n) > BACKOFF_MAX then BACKOFF_MAX else BACKOFF_INITIAL * Pow2(n)
  }

  datatype Attempt = ConnectFails | ListenFails | Succeeds

  /** The reconnect loop on the outcomes of its attempts: it waits the capped powers of two,
      gives up on none of the failures, and stops at the first success. */
  method Reconnect(attempts: seq<Attempt>) returns (waits: seq<nat>, ok: bool)
    ensures |waits| <= |attempts| && (ok <==> Succeeds in attempts)
    ensures forall i :: 0 <= i < |waits| ==> waits[i] == Capped(i)
    ensures forall i :: 0 <= i < |waits| ==>
              waits[i] == if i == 0 then 1_000 else if 2 * waits[i - 1] > 30_000 then 30_000 else 2 * waits[i - 1]
    ensures ok ==> |waits| > 0 && attempts[|waits| - 1].Succeeds?
    ensures forall i :: 0 <= i < |waits| - (if ok then 1 else 0) ==> !attempts[i].Succeeds?
    ensures !ok ==> |waits| == |attempts|
  {
    var backoff := BACKOFF_INITIAL;
    waits, ok := [], false;
    var n := 0;
    while n < |attempts|
      invariant 0 <= n <= |attempts| && |waits| == n
      invariant backoff == Capped(n)
      invariant n > 0 ==> backoff == if 2 * waits[n - 1] > 30_000 then 30_000 else 2 * waits[n - 1]
      invariant forall i :: 0 <= i < n ==> waits[i] == Capped(i) && !attempts[i].Succeeds?
      invariant forall i :: 0 <= i < n ==>
                  waits[i] == if i == 0 then 1_000 else if 2 * waits[i - 1] > 30_000 then 30_000 else 2 * waits[i - 1]
    {
      waits := waits + [backoff];
      if attempts[n].Succeeds? {
        return waits, true;
      }
      backoff := NextBackoff(backoff);
      n := n + 1;
    }
  }

  /** What WaitForNotification returns to the loop; a lost connection comes with the outcomes
      of the reconnect attempts that follow, up to a shutdown. */
  datatype Signal = Notification(x: Payload) | ConnectionLost(attempts: seq<Attempt>)

  /** The broker after the loop has worked through `script`: an unanswered reconnect ends it. */
  ghost function Heard(m: Mem, script: seq<Signal>): Mem
    decreases |script|
  {
    if script == [] then m
    else match script[0]
    case Notification(x) => Heard(Forward(m, x), script[1..])
    case ConnectionLost(attempts) => if Succeeds in attempts then Heard(Broadcast(m), script[1..]) else m
  }

  /** The loop gets to signal i: every reconnect before it succeeded. */
  ghost predicate Gets(script: seq<Signal>, i: int) {
    0 <= i < |script| && forall j :: 0 <= j < i && script[j].ConnectionLost? ==> Succeeds in script[j].attempts
  }

  /** Signal i of the script is for a subscriber of event e: its own notification, or the broadcast
      after a reconnect. */
  ghost predicate Signals(script: seq<Signal>, i: int, e: EventId) {
    && Gets(script, i)
    && (script[i] == Notification(ForEvent(e)) || (script[i].ConnectionLost? && Succeeds in script[i].attempts))
  }

  lemma SignalsNext(script: seq<Signal>, e: EventId)
    requires script != [] && (script[0].ConnectionLost? ==> Succeeds in script[0].attempts)
    ensures (exists i :: Signals(script, i, e)) <==> Signals(script, 0, e) || exists i :: Signals(script[1..], i, e)
  {
    var rest := script[1..];
    forall i | Signals(rest, i, e) ensures Signals(script, i + 1, e) {
      forall j | 0 <= j < i + 1 && script[j].ConnectionLost? ensures Succeeds in script[j].attempts {
        assert j > 0 ==> rest[j - 1] == script[j];
      }
    }
    forall i | Signals(script, i, e) && i > 0 ensures Signals(rest, i - 1, e) {
      assert forall j :: 0 <= j < i - 1 ==> rest[j] == script[j + 1];
    }
  }

  /** A subscriber's slot is full afterwards if and only if it was full before, or the loop got to a
      notification of its event or to a successful reconnect; nothing else of the broker changes. */
  lemma {:induction false} HeardExactly(m: Mem, script: seq<Signal>, e: EventId, c: ChanId)
    requires Valid(m) && c in Subscribers(m, e)
    ensures var after := Heard(m, script);
            && after.subs == m.subs && after.slot.Keys == m.slot.Keys
            && c in m.slot
            && (after.slot[c] <==> m.slot[c] || exists i :: Signals(script, i, e))
    decreases |script|
  {
    if script != [] {
      match script[0] {
        case Notification(x) =>
          var next := Forward(m, x);
          ForwardFills(m, x, e, c);
          HeardExactly(next, script[1..], e, c);
          SignalsNext(script, e);
          assert Heard(m, script) == Heard(next, script[1..]);
        case ConnectionLost(attempts) =>
          if Succeeds in attempts {
            BroadcastFills(m, e, c);
            HeardExactly(Broadcast(m), script[1..], e, c);
            assert Signals(script, 0, e);
          }
      }
    }
  }

  /** A notification reaches the subscribers of its own event only. */
  lemma ForwardFills(m: Mem, x: Payload, e: EventId, c: ChanId)
    requires Valid(m) && c in Subscribers(m, e)
    ensures Valid(Forward(m, x)) && c in m.slot && Forward(m, x).subs == m.subs && Forward(m, x).slot.Keys == m.slot.Keys
    ensures Forward(m, x).slot[c] <==> m.slot[c] || x == ForEvent(e)
  {
  }

  lemma BroadcastFills(m: Mem, e: EventId, c: ChanId)
    requires Valid(m) && c in Subscribers(m, e)
    ensures Valid(Broadcast(m)) && c in m.slot && Broadcast(m).subs == m.subs && Broadcast(m).slot.Keys == m.slot.Keys
    ensures Broadcast(m).slot[c]
  {
    assert SubscribedAnywhere(m, c);
  }

  /** `steps` lead from w to w', all of them enabled. */
  ghost predicate Leads(w: World, steps: seq<Step>, w': World)
    decreases |steps|
  {
    if steps == [] then w' == w else Enabled(w, steps[0]) && Leads(Next(w, steps[0]), steps[1..], w')
  }

  lemma {:induction false} LeadsOn(w: World, xs: seq<Step>, mid: World, ys: seq<Step>, w': World)
    requires Leads(w, xs, mid) && Leads(mid, ys, w')
    ensures Leads(w, xs + ys, w')
    decreases |xs|
  {
    if xs == [] {
      assert xs + ys == ys;
    } else {
      assert (xs + ys)[1..] == xs[1..] + ys;
      LeadsOn(Next(w, xs[0]), xs[1..], mid, ys, w');
    }
  }

  /** A connected replica with nothing queued. */
  predicate Idle(w: World, r: ReplicaId) {
    r in w.replicas && w.replicas[r].link.Live? && w.replicas[r].queue == []
  }

  lemma OneStepLeads(w: World, s: Step)
    requires Enabled(w, s)
    ensures Leads(w, [s], Next(w, s))
  {
    assert [s][1..] == [];
  }

  /** A notification is a NOTIFY that this replica hears and delivers. */
  lemma NotificationSteps(w: World, r: ReplicaId, x: Payload) returns (steps: seq<Step>, w': World)
    requires Idle(w, r)
    ensures Leads(w, steps, w') && Idle(w', r) && w'.replicas[r].mem == Forward(w.replicas[r].mem, x)
  {
    var s := match x case ForEvent(e) => Notify(e, 0) case Malformed => NotifyMalformed;
    var sent := Next(w, s);
    assert sent.replicas[r].queue == [x];
    w' := Next(sent, Deliver(r));
    OneStepLeads(w, s);
    OneStepLeads(sent, Deliver(r));
    steps := [s] + [Deliver(r)];
    LeadsOn(w, [s], sent, [Deliver(r)], w');
  }

  /** A lost connection is detected; a reconnect issues LISTEN again and broadcasts. */
  lemma ReconnectSteps(w: World, r: ReplicaId) returns (steps: seq<Step>, w': World)
    requires Idle(w, r)
    ensures Leads(w, steps, w') && Idle(w', r) && w'.replicas[r].mem == Broadcast(w.replicas[r].mem)
  {
    var broken := Next(w, Break(r, 0));
    var down := Next(broken, Detect(r));
    var again := Next(down, Relisten(r));
    w' := Next(again, Rebroadcast(r));
    OneStepLeads(w, Break(r, 0));
    OneStepLeads(broken, Detect(r));
    OneStepLeads(down, Relisten(r));
    OneStepLeads(again, Rebroadcast(r));
    LeadsOn(w, [Break(r, 0)], broken, [Detect(r)], down);
    LeadsOn(w, [Break(r, 0)] + [Detect(r)], down, [Relisten(r)], again);
    LeadsOn(w, [Break(r, 0)] + [Detect(r)] + [Relisten(r)], again, [Rebroadcast(r)], w');
    steps := [Break(r, 0)] + [Detect(r)] + [Relisten(r)] + [Rebroadcast(r)];
  }

  /** The listen loop is a replica of the system: whatever it hears, its broker is the memory that
      enabled steps of the replicated system lead to. */
  lemma {:induction false} LoopIsReplica(w: World, r: ReplicaId, script: seq<Signal>) returns (steps: seq<Step>, w': World)
    requires Idle(w, r)
    ensures Leads(w, steps, w') && r in w'.replicas
    ensures w'.replicas[r].mem == Heard(w.replicas[r].mem, script)
    decreases |script|
  {
    steps, w' := [], w;
    if script != [] && (script[0].ConnectionLost? ==> Succeeds in script[0].attempts) {
      var mid;
      if script[0].Notification? {
        steps, mid := NotificationSteps(w, r, script[0].x);
      } else {
        steps, mid := ReconnectSteps(w, r);
      }
      var more;
      more, w' := LoopIsReplica(mid, r, script[1..]);
      LeadsOn(w, steps, mid, more, w');
      steps := steps + more;
    }
  }

  method HandleNotification(b: Broker, x: Payload)
    requires Valid(b.Value())
    modifies b`slot
    ensures Valid(b.Value()) && b.Value() == Forward(old(b.Value()), x)
  {
    match x {
      case ForEvent(e) => b.Publish(e);
      case Malformed =>
    }
  }

  /** listenLoop: forwards each notification, and broadcasts once after each reconnect. */
  method ListenLoop(b: Broker, script: seq<Signal>)
    requires Valid(b.Value())
    modifies b`slot
    ensures Valid(b.Value()) && b.Value() == Heard(old(b.Value()), script)
    ensures b.subs == old(b.subs)
    ensures forall e, c :: e in b.subs && c in b.subs[e] ==>
              && c in b.slot && c in old(b.slot)
              && (b.slot[c] <==> old(b.slot[c]) || exists i :: Signals(script, i, e))
  {
    forall e, c | e in b.subs && c in b.subs[e]
      ensures var after := Heard(b.Value(), script);
              && c in after.slot && c in b.slot
              && (after.slot[c] <==> b.slot[c] || exists i :: Signals(script, i, e))
    {
      HeardExactly(b.Value(), script, e, c);
    }
    var n := 0;
    while n < |script|
      invariant 0 <= n <= |script| && Valid(b.Value())
      invariant Heard(b.Value(), script[n..]) == Heard(old(b.Value()), script)
    {
      assert script[n..][1..] == script[n + 1..];
      match script[n] {
        case Notification(x) => HandleNotification(b, x);
        case ConnectionLost(attempts) =>
          var waits, ok := Reconnect(attempts);
          if !ok {
            return;
          }
          b.BroadcastAll();
      }
      n := n + 1;
    }
  }
}
