/** The state of the event loop as one consistent whole, and what its operations do to it. */
module LoopState {

  import opened Watchers
  import opened Heap
  import opened Pending
  import A = WatcherArray
  import F = FdInterest

  /** Where active watchers are kept: two heaps, the arrays, and the lists of the fds, some of which wait for fd_reify. */
  datatype Parts = Parts(
    timers: seq<Node>,
    periodics: seq<Node>,
    arrays: map<Kind, A.Slots>,
    anfds: seq<F.Anfd>,
    lists: seq<seq<W>>,
    changes: seq<nat>)
  {
    function Heap(kind: Kind): seq<Node> { if kind == Timer then timers else periodics }

    function WithHeap(kind: Kind, v: seq<Node>): Parts {
      if kind == Timer then this.(timers := v) else this.(periodics := v)
    }
  }

  /** How the loop was built, and the priorities of its watchers, which do not change. */
  datatype Setup = Setup(four: bool, priorities: map<W, nat>)

  function HeapOf(c: Setup, kind: Kind): Shape { if c.four then Four(kind) else Two(kind) }

  predicate InHeaps(kind: Kind) { kind.Timer? || kind.Periodic? }

  predicate InArrays(kind: Kind) {
    kind.Prepare? || kind.Check? || kind.Fork? || kind.Cleanup? || kind.Async? || (kind.Idle? && kind.pri < NUMPRI)
  }

  ghost predicate ArraysRight(arrays: map<Kind, A.Slots>, ws: Store) {
    forall kind | InArrays(kind) :: kind in arrays && A.IsArray(kind, arrays[kind], ws)
  }

  ghost predicate FdsRight(anfds: seq<F.Anfd>, lists: seq<seq<W>>, changes: seq<nat>, ws: Store) {
    && F.Filed(anfds, lists, F.Ios(ws)) && F.Tracked(anfds, lists, F.Ios(ws), changes)
    && forall w <- ws :: ws[w].kind == Io ==> ws[w].active <= 1
  }

  /** What ev_verify asserts of the places of active watchers. */
  ghost predicate Placed(c: Setup, p: Parts, ws: Store) {
    && IsHeap(HeapOf(c, Timer), p.timers, ws)
    && IsHeap(HeapOf(c, Periodic), p.periodics, ws)
    && ArraysRight(p.arrays, ws)
    && FdsRight(p.anfds, p.lists, p.changes, ws)
  }

  /** What it asserts of pending watchers, and that the queues hold just what the history leaves to be delivered. */
  ghost predicate Delivers(ws: Store, q: Queues, h: seq<Event>) {
    && IsPending(q, ws)
    && Accounted(h, q, ws)
    && AllInTurn(h, ws)
    && Fair(h, ws)
    && forall w <- ws :: ws[w].kind.Idle? ==> ws[w].kind.pri == ws[w].pri
  }

  ghost predicate Consistent(c: Setup, p: Parts, ws: Store, q: Queues, h: seq<Event>) {
    && Placed(c, p, ws)
    && Delivers(ws, q, h)
    && DUMMY in ws && ws[DUMMY].kind == Prepare && ws[DUMMY].active == 0
    && Prioritised(c, ws)
  }

  predicate Prioritised(c: Setup, ws: Store) {
    ws.Keys == c.priorities.Keys && forall w <- ws :: ws[w].pri == c.priorities[w]
  }

  // ---- parts do not disturb each other ----

  lemma HeapUntouched(d: Shape, v: seq<Node>, before: Store, after: Store, kind: Kind)
    requires IsHeap(d, v, before) && OnlyKind(kind, before, after) && kind != d.kind
    ensures IsHeap(d, v, after)
  {
    forall n | n in Ns(d, v) ensures n.w in after && after[n.w] == before[n.w] {
    }
  }

  lemma IosUntouched(before: Store, after: Store, kind: Kind)
    requires OnlyKind(kind, before, after) && kind != Io
    ensures F.Ios(after) == F.Ios(before)
    ensures (forall w <- before :: before[w].kind == Io ==> before[w].active <= 1)
            ==> forall w <- after :: after[w].kind == Io ==> after[w].active <= 1
  {
  }

  lemma FdsUntouched(p: Parts, before: Store, after: Store, kind: Kind)
    requires FdsRight(p.anfds, p.lists, p.changes, before) && OnlyKind(kind, before, after) && kind != Io
    ensures FdsRight(p.anfds, p.lists, p.changes, after)
  {
    hide F.Ios, OnlyKind;
    IosUntouched(before, after, kind);
  }

  lemma ArraysUntouched(arrays: map<Kind, A.Slots>, before: Store, after: Store, kind: Kind)
    requires ArraysRight(arrays, before) && OnlyKind(kind, before, after)
    ensures forall k | InArrays(k) && k != kind :: k in arrays && A.IsArray(k, arrays[k], after)
  {
    hide A.IsArray, OnlyKind;
    forall k | InArrays(k) && k != kind ensures A.IsArray(k, arrays[k], after) {
      A.ArrayKept(k, arrays[k], before, after, kind);
    }
  }

  /** An operation on the watchers of one kind keeps all parts but the one of that kind. */
  lemma Untouched(c: Setup, p: Parts, before: Store, after: Store, kind: Kind)
    requires Placed(c, p, before) && OnlyKind(kind, before, after)
    ensures kind != Timer ==> IsHeap(HeapOf(c, Timer), p.timers, after)
    ensures kind != Periodic ==> IsHeap(HeapOf(c, Periodic), p.periodics, after)
    ensures forall k | InArrays(k) && k != kind :: k in p.arrays && A.IsArray(k, p.arrays[k], after)
    ensures kind != Io ==> FdsRight(p.anfds, p.lists, p.changes, after)
  {
    hide IsHeap, A.IsArray, FdsRight, OnlyKind, ArraysRight;
    if kind != Timer {
      HeapUntouched(HeapOf(c, Timer), p.timers, before, after, kind);
    }
    if kind != Periodic {
      HeapUntouched(HeapOf(c, Periodic), p.periodics, before, after, kind);
    }
    ArraysUntouched(p.arrays, before, after, kind);
    if kind != Io {
      FdsUntouched(p, before, after, kind);
    }
  }

  lemma HeapKept(d: Shape, v: seq<Node>, before: Store, after: Store)
    requires IsHeap(d, v, before) && OnlyPending(before, after)
    ensures IsHeap(d, v, after)
  {
  }

  lemma IosKept(before: Store, after: Store)
    requires OnlyPending(before, after)
    ensures F.Ios(after) == F.Ios(before)
  {
  }

  /** Operations on the queues change pending fields only, which no part depends on. */
  lemma PlacesKept(c: Setup, p: Parts, before: Store, after: Store)
    requires Placed(c, p, before) && OnlyPending(before, after)
    ensures Placed(c, p, after)
  {
    hide IsHeap, F.Ios, F.Filed, F.Tracked;
    HeapKept(HeapOf(c, Timer), p.timers, before, after);
    HeapKept(HeapOf(c, Periodic), p.periodics, before, after);
    IosKept(before, after);
    forall kind | InArrays(kind) ensures kind in p.arrays && A.IsArray(kind, p.arrays[kind], after) {
      assert A.IsArray(kind, p.arrays[kind], before);
    }
  }

  ghost predicate SamePending(before: Store, after: Store) {
    && before.Keys == after.Keys
    && forall w | w in before ::
         after[w].pri == before[w].pri && after[w].pending == before[w].pending && after[w].kind == before[w].kind
  }

  lemma QueuesKept(q: Queues, before: Store, after: Store, h: seq<Event>)
    requires Delivers(before, q, h) && SamePending(before, after)
    ensures Delivers(after, q, h)
  {
    hide Owed, QueuedAt, Fair;
    assert IsPending(q, after) by { PendingKept(q, before, after); }
    FairKeeps(h, before, after);
    forall w | w in after && w != DUMMY ensures DueOf(q, after, w) == Owed(h, w) {
      assert DueOf(q, before, w) == Owed(h, w);
    }
    forall x, y ensures InTurn(h, after, x, y) {
      assert InTurn(h, before, x, y);
    }
  }

  lemma PendingKept(q: Queues, before: Store, after: Store)
    requires IsPending(q, before) && SamePending(before, after)
    ensures IsPending(q, after)
  {
    forall w | w in after && after[w].pending != 0 ensures AtHome(q, after, w) {
      assert AtHome(q, before, w);
    }
    forall pri: nat, j: nat | pri < NUMPRI && j < |q[pri]| ensures Claimed(after, q[pri][j].w, pri, j) {
      assert Claimed(before, q[pri][j].w, pri, j);
    }
  }

  /** A heap was changed, and only watchers of its kind. */
  lemma HeapChanged(c: Setup, p: Parts, before: Store, kind: Kind, v: seq<Node>, after: Store, q: Queues, h: seq<Event>)
    requires Consistent(c, p, before, q, h) && InHeaps(kind) && IsHeap(HeapOf(c, kind), v, after)
    requires OnlyKind(kind, before, after) && SamePending(before, after)
    ensures Consistent(c, p.WithHeap(kind, v), after, q, h)
  {
    hide IsHeap, A.IsArray, FdsRight, Delivers;
    Untouched(c, p, before, after, kind);
    QueuesKept(q, before, after, h);
  }

  /** An array was changed, and only watchers of its kind. */
  lemma ArrayChanged(c: Setup, p: Parts, before: Store, kind: Kind, a: A.Slots, after: Store, q: Queues, h: seq<Event>)
    requires Consistent(c, p, before, q, h) && InArrays(kind) && A.IsArray(kind, a, after)
    requires OnlyKind(kind, before, after) && SamePending(before, after) && after[DUMMY].active == 0
    ensures Consistent(c, p.(arrays := p.arrays[kind := a]), after, q, h)
  {
    hide IsHeap, A.IsArray, FdsRight, Delivers;
    Untouched(c, p, before, after, kind);
    QueuesKept(q, before, after, h);
  }

  /** The lists of the fds were changed, and only io watchers. */
  lemma FdsChanged(c: Setup, p: Parts, before: Store, anfds: seq<F.Anfd>, lists: seq<seq<W>>, changes: seq<nat>,
                   after: Store, q: Queues, h: seq<Event>)
    requires Consistent(c, p, before, q, h) && FdsRight(anfds, lists, changes, after)
    requires OnlyKind(Io, before, after) && SamePending(before, after)
    ensures Consistent(c, p.(anfds := anfds, lists := lists, changes := changes), after, q, h)
  {
    hide IsHeap, A.IsArray, FdsRight, Delivers;
    Untouched(c, p, before, after, Io);
    QueuesKept(q, before, after, h);
  }

  /** The queues were changed. */
  lemma QueuesChanged(c: Setup, p: Parts, before: Store, after: Store, q: Queues, h: seq<Event>, r: Queues, g: seq<Event>)
    requires Consistent(c, p, before, q, h) && OnlyPending(before, after)
    requires IsPending(r, after) && Accounted(g, r, after) && AllInTurn(g, after) && Fair(g, after)
    ensures Consistent(c, p, after, r, g)
  {
    hide IsPending, Accounted, AllInTurn, Fair, Placed;
    PlacesKept(c, p, before, after);
  }

  lemma FeedWorks(c: Setup, p: Parts, ws: Store, q: Queues, h: seq<Event>, w: W, events: Events)
    requires Consistent(c, p, ws, q, h) && w in ws && w != DUMMY
    ensures IsPending(q, ws)
    ensures var r := Feed(q, ws, w, events);
            Consistent(c, p, r.ws, r.q, h + [Fed(w, events)]) && OnlyPending(ws, r.ws)
  {
    hide IsPending, Accounted, AllInTurn, Fair, Placed, Feed;
    FeedKeeps(q, ws, w, events);
    FeedAccounted(h, q, ws, w, events);
    FeedInTurn(h, q, ws, w, events);
    QueuesChanged(c, p, ws, Feed(q, ws, w, events).ws, q, h, Feed(q, ws, w, events).q, h + [Fed(w, events)]);
  }

  lemma ClearWorks(c: Setup, p: Parts, ws: Store, q: Queues, h: seq<Event>, w: W)
    requires Consistent(c, p, ws, q, h) && w in ws && w != DUMMY
    ensures IsPending(q, ws) && DueOf(q, ws, w) == Owed(h, w)
    ensures var r := Clear(q, ws, w);
            Consistent(c, p, r.ws, r.q, h + [Cleared(w)]) && OnlyPending(ws, r.ws) && SameSizes(q, r.q)
  {
    hide IsPending, AllInTurn, Fair, Placed, Clear, DueOf, Owed;
    ClearKeeps(q, ws, w);
    ClearSizes(q, ws, w);
    ClearAccounted(h, q, ws, w);
    ClearInTurn(h, q, ws, w);
    QueuesChanged(c, p, ws, Clear(q, ws, w).ws, q, h, Clear(q, ws, w).q, h + [Cleared(w)]);
  }

  lemma PopWorks(c: Setup, p: Parts, ws: Store, q: Queues, h: seq<Event>, pri: nat)
    requires Consistent(c, p, ws, q, h) && |q| == NUMPRI && pri < NUMPRI && |q[pri]| > 0
    requires forall i: nat :: pri < i < NUMPRI ==> q[i] == []
    ensures IsPending(q, ws)
    ensures var r, e := Pop(q, ws, pri), q[pri][|q[pri]| - 1];
            Consistent(c, p, r.ws, r.q, h + [Invoked(e.w, e.events)]) && e.w in ws && OnlyPending(ws, r.ws)
  {
    hide IsPending, Accounted, AllInTurn, Fair, Placed, Pop;
    var e := q[pri][|q[pri]| - 1];
    PopKeeps(q, ws, pri);
    PopDue(q, ws, pri, DUMMY);
    PopAccounted(h, q, ws, pri);
    PopInTurn(h, q, ws, pri);
    QueuesChanged(c, p, ws, Pop(q, ws, pri).ws, q, h, Pop(q, ws, pri).q, h + [Invoked(e.w, e.events)]);
  }

  // ---- one heap ----

  /** Apart from the indices of watchers of its kind, only the time of w differs, and it is t. */
  ghost predicate Retimed(before: Store, after: Store, w: W, t: Tstamp) {
    && before.Keys == after.Keys && w in before
    && forall x | x in before ::
         && after[x] == before[x].(active := after[x].active, at := if x == w then t else before[x].at)
         && (before[x].kind != before[w].kind ==> after[x] == before[x])
  }

  lemma RetimedOnly(before: Store, after: Store, w: W, t: Tstamp)
    requires Retimed(before, after, w, t)
    ensures OnlyKind(before[w].kind, before, after) && SamePending(before, after)
  {
  }

  function SetTime(ws: Store, w: W, t: Tstamp): Store
    requires w in ws
  {
    ws[w := ws[w].(at := t)]
  }

  lemma TimeOutsideHeap(d: Shape, v: seq<Node>, before: Store, w: W, t: Tstamp)
    requires IsHeap(d, v, before) && w in before && before[w].kind == d.kind && before[w].active == 0
    ensures IsHeap(d, v, SetTime(before, w, t))
  {
    var after := SetTime(before, w, t);
    ActiveInHeap(d, v, before, w);
    forall n | n in Ns(d, v) ensures n.w in after && n.at == after[n.w].at {
      assert n.w in Ws(d, v);
    }
  }

  lemma HeapStored(d: Shape, v: seq<Node>, ws: Store)
    requires IsHeap(d, v, ws)
    ensures Stored(d, v, ws) && |v| >= d.Root()
  {
  }

  /** The heap that w belongs to. */
  lemma ItsHeap(c: Setup, p: Parts, ws: Store, q: Queues, h: seq<Event>, kind: Kind)
    requires Consistent(c, p, ws, q, h) && InHeaps(kind)
    ensures IsHeap(HeapOf(c, kind), p.Heap(kind), ws) && HeapOf(c, kind).kind == kind
    ensures DUMMY !in Ws(HeapOf(c, kind), p.Heap(kind)) && IsPending(q, ws) && |q| == NUMPRI
  {
    hide A.IsArray, FdsRight, IsPending;
    var d, v := HeapOf(c, kind), p.Heap(kind);
    if DUMMY in Ws(d, v) {
      var j := MemberAt(d, v, DUMMY);
    }
    assert |q| == NUMPRI by { PendingSizes(q, ws); }
  }

  lemma PendingSizes(q: Queues, ws: Store)
    requires IsPending(q, ws)
    ensures |q| == NUMPRI
  {
  }

  /** w has joined the heap, with time t. */
  ghost predicate Started(d: Shape, v: seq<Node>, before: Store, u: seq<Node>, after: Store, w: W, t: Tstamp) {
    Ws(d, u) == Ws(d, v) + {w} && Retimed(before, after, w, t)
  }

  lemma StartWorks(c: Setup, p: Parts, before: Store, kind: Kind, w: W, t: Tstamp, q: Queues, h: seq<Event>)
    requires Consistent(c, p, before, q, h) && InHeaps(kind)
    requires w in before && before[w].kind == kind && before[w].active == 0
    ensures var d, v := HeapOf(c, kind), p.Heap(kind);
            && |v| >= d.Root() && Stored(d, v, SetTime(before, w, t))
            && var r := Insert(d, v, SetTime(before, w, t), w);
               Consistent(c, p.WithHeap(kind, r.v), r.ws, q, h) && Started(d, v, before, r.v, r.ws, w, t)
  {
    hide Insert, Consistent, IsHeap;
    var d, v, ws := HeapOf(c, kind), p.Heap(kind), SetTime(before, w, t);
    ItsHeap(c, p, before, q, h, kind);
    TimeOutsideHeap(d, v, before, w, t);
    HeapStored(d, v, ws);
    InsertWorks(d, v, ws, w);
    var r := Insert(d, v, ws, w);
    InsertRetimes(d, before, ws, r.ws, w, t);
    RetimedOnly(before, r.ws, w, t);
    HeapChanged(c, p, before, kind, r.v, r.ws, q, h);
  }

  lemma InsertRetimes(d: Shape, before: Store, ws: Store, after: Store, w: W, t: Tstamp)
    requires w in before && before[w].kind == d.kind && ws == SetTime(before, w, t) && OnlyActive(d, ws, after)
    ensures Retimed(before, after, w, t)
  {
  }

  /** w has left the heap, with time t. */
  ghost predicate Stopped(d: Shape, v: seq<Node>, before: Store, u: seq<Node>, after: Store, w: W, t: Tstamp) {
    Ws(d, u) == Ws(d, v) - {w} && Retimed(before, after, w, t) && after[w].active == 0
  }

  lemma StopWorks(c: Setup, p: Parts, before: Store, kind: Kind, w: W, t: Tstamp, q: Queues, h: seq<Event>)
    requires Consistent(c, p, before, q, h) && InHeaps(kind)
    requires w in before && before[w].kind == kind && before[w].active != 0
    ensures var d, v := HeapOf(c, kind), p.Heap(kind);
            && Stored(d, v, before) && InHeap(d, |v|, before[w].active) && w in Remove(d, v, before, w).ws
            && var r := Remove(d, v, before, w);
               var after := SetTime(r.ws, w, t);
               Consistent(c, p.WithHeap(kind, r.v), after, q, h) && Stopped(d, v, before, r.v, after, w, t)
  {
    hide Remove, Consistent, IsHeap;
    var d, v := HeapOf(c, kind), p.Heap(kind);
    ItsHeap(c, p, before, q, h, kind);
    RemoveWorks(d, v, before, w);
    var r := Remove(d, v, before, w);
    OnlyActiveKind(d, before, r.ws, w);
    TimeOutsideHeap(d, r.v, r.ws, w, t);
    RemoveRetimes(d, before, r.ws, w, t);
    RetimedOnly(before, SetTime(r.ws, w, t), w, t);
    HeapChanged(c, p, before, kind, r.v, SetTime(r.ws, w, t), q, h);
  }

  lemma OnlyActiveKind(d: Shape, before: Store, after: Store, w: W)
    requires OnlyActive(d, before, after) && w in before
    ensures w in after && after[w].kind == before[w].kind
  {
  }

  lemma RemoveRetimes(d: Shape, before: Store, ws: Store, w: W, t: Tstamp)
    requires w in before && before[w].kind == d.kind && OnlyActive(d, before, ws) && ws[w].active == 0
    ensures Retimed(before, SetTime(ws, w, t), w, t) && SetTime(ws, w, t)[w].active == 0
  {
  }

  lemma ClearKeepsTimes(c: Setup, p: Parts, ws: Store, q: Queues, h: seq<Event>, w: W)
    requires Consistent(c, p, ws, q, h) && w in ws
    ensures IsPending(q, ws)
    ensures var r := Clear(q, ws, w); w in r.ws && r.ws[w] == ws[w].(pending := 0)
  {
  }

  lemma NotDummy(c: Setup, p: Parts, ws: Store, q: Queues, h: seq<Event>, w: W)
    requires Consistent(c, p, ws, q, h) && w in ws
    ensures ws[w].kind != Prepare ==> w != DUMMY
  {
  }

  lemma QueuesOf(c: Setup, p: Parts, ws: Store, q: Queues, h: seq<Event>)
    requires Consistent(c, p, ws, q, h)
    ensures IsPending(q, ws) && |q| == NUMPRI
  {
  }

  lemma ClearTwice(q: Queues, ws: Store, w: W)
    requires IsPending(q, ws) && w in ws && ws[w].pending == 0
    ensures Clear(q, ws, w) == Queued(q, ws)
  {
  }

  lemma ActiveIsMember(c: Setup, p: Parts, ws: Store, q: Queues, h: seq<Event>, kind: Kind, w: W)
    requires Consistent(c, p, ws, q, h) && InHeaps(kind) && w in ws && ws[w].kind == kind
    ensures ws[w].active != 0 <==> w in Ws(HeapOf(c, kind), p.Heap(kind))
  {
    hide Consistent;
    ItsHeap(c, p, ws, q, h, kind);
    ActiveInHeap(HeapOf(c, kind), p.Heap(kind), ws, w);
  }

  lemma RetimedWorks(c: Setup, p: Parts, before: Store, kind: Kind, w: W, t: Tstamp, q: Queues, h: seq<Event>)
    requires Consistent(c, p, before, q, h) && InHeaps(kind)
    requires w in before && before[w].kind == kind && before[w].active != 0
    ensures var d, v, ws := HeapOf(c, kind), p.Heap(kind), SetTime(before, w, t);
            && InHeap(d, |v|, ws[w].active) && Stored(d, v, ws)
            && Stored(d, v[ws[w].active := Node(ws[w].at, w)], ws)
            && var r := Retime(d, v, ws, w);
               && |r.v| == |v| && Ws(d, r.v) == Ws(d, v)
               && Consistent(c, p.WithHeap(kind, r.v), r.ws, q, h) && Retimed(before, r.ws, w, t)
  {
    hide Up, Down, Consistent;
    var d, v, ws := HeapOf(c, kind), p.Heap(kind), SetTime(before, w, t);
    ItsHeap(c, p, before, q, h, kind);
    RetimeWorks(d, v, before, ws, w);
    var r := Retime(d, v, ws, w);
    InsertRetimes(d, before, ws, r.ws, w, t);
    RetimedOnly(before, r.ws, w, t);
    HeapChanged(c, p, before, kind, r.v, r.ws, q, h);
  }

  lemma RetimedFirstWorks(c: Setup, p: Parts, before: Store, kind: Kind, t: Tstamp, q: Queues, h: seq<Event>)
    requires Consistent(c, p, before, q, h) && InHeaps(kind) && |p.Heap(kind)| > HeapOf(c, kind).Root()
    ensures var d, v := HeapOf(c, kind), p.Heap(kind);
            var w := v[d.Root()].w;
            && w in before && before[w].kind == kind
            && var ws := SetTime(before, w, t);
            && Stored(d, v, ws) && Stored(d, v[d.Root() := Node(ws[w].at, w)], ws)
            && var r := RetimeRoot(d, v, ws);
               && |r.v| == |v| && Ws(d, r.v) == Ws(d, v)
               && Consistent(c, p.WithHeap(kind, r.v), r.ws, q, h) && Retimed(before, r.ws, w, t)
  {
    hide Down, Consistent, Retimed, OnlyKind, SamePending, IsHeap;
    var d, v := HeapOf(c, kind), p.Heap(kind);
    ItsHeap(c, p, before, q, h, kind);
    FirstOfHeap(d, v, before);
    var w := v[d.Root()].w;
    var ws := SetTime(before, w, t);
    RetimeRootWorks(d, v, before, ws);
    var r := RetimeRoot(d, v, ws);
    InsertRetimes(d, before, ws, r.ws, w, t);
    RetimedOnly(before, r.ws, w, t);
    HeapChanged(c, p, before, kind, r.v, r.ws, q, h);
  }

  lemma FirstOfHeap(d: Shape, v: seq<Node>, ws: Store)
    requires IsHeap(d, v, ws) && |v| > d.Root()
    ensures v[d.Root()].w in Ws(d, v) && v[d.Root()].w in ws && ws[v[d.Root()].w].kind == d.kind
  {
    assert v[d.Root()] in Ns(d, v);
  }

  /** The settings of a stopped watcher do not matter. */
  lemma RelativeTime(c: Setup, p: Parts, before: Store, kind: Kind, w: W, t: Tstamp, q: Queues, h: seq<Event>)
    requires Consistent(c, p, before, q, h) && InHeaps(kind)
    requires w in before && before[w].kind == kind && before[w].active == 0
    ensures Consistent(c, p, SetTime(before, w, t), q, h)
  {
    hide Consistent;
    ItsHeap(c, p, before, q, h, kind);
    TimeOutsideHeap(HeapOf(c, kind), p.Heap(kind), before, w, t);
    RetimedOnly(before, SetTime(before, w, t), w, t);
    HeapChanged(c, p, before, kind, p.Heap(kind), SetTime(before, w, t), q, h);
    assert p.WithHeap(kind, p.Heap(kind)) == p;
  }

  // ---- giving all watchers in the heap new times ----

  /** The nodes below i and their watchers have the new times; order apart, nothing else changed. */
  ghost predicate Rescheduled(d: Shape, v0: seq<Node>, ws0: Store, v: seq<Node>, ws: Store, times: map<W, Tstamp>, i: nat) {
    && |v| == |v0| && ws.Keys == ws0.Keys && Indexed(d, v0, ws0)
    && (forall w | w in Ws(d, v0) :: w in times && w in ws0)
    && (forall j: nat :: d.Root() <= j < |v| ==>
          v[j].w == v0[j].w && v[j].w in ws && v[j].w in times && v[j].at == ws[v[j].w].at)
    && (forall w | w in ws0 ::
          ws[w] == ws0[w].(at := if w in Ws(d, v0) && w in times && ws0[w].active < i then times[w] else ws0[w].at))
  }

  lemma NothingRescheduled(d: Shape, v: seq<Node>, ws: Store, times: map<W, Tstamp>)
    requires IsHeap(d, v, ws) && forall w | w in Ws(d, v) :: w in times
    ensures |v| >= d.Root() && Rescheduled(d, v, ws, v, ws, times, d.Root())
  {
    forall j: nat | d.Root() <= j < |v|
      ensures v[j].w in ws && v[j].w in times && v[j].at == ws[v[j].w].at
    {
      assert v[j] in Ns(d, v);
    }
    forall w | w in Ws(d, v) ensures w in ws && ws[w].active >= d.Root() {
      var j := MemberAt(d, v, w);
    }
  }

  lemma RescheduleOne(d: Shape, v0: seq<Node>, ws0: Store, v: seq<Node>, ws: Store, times: map<W, Tstamp>, i: nat)
    requires Rescheduled(d, v0, ws0, v, ws, times, i) && InHeap(d, |v|, i)
    ensures v[i].w in ws && v[i].w in times
    ensures var w := v[i].w;
            Rescheduled(d, v0, ws0, v[i := Node(times[w], w)], SetTime(ws, w, times[w]), times, i + 1)
  {
    var w := v[i].w;
    assert v0[i] in Ns(d, v0);
    forall x | x in Ws(d, v0) && x in ws0 && ws0[x].active == i ensures x == w {
      var j := MemberAt(d, v0, x);
    }
  }

  /** The time of a watcher is settled when it is its turn. */
  lemma TimeChosen(d: Shape, v0: seq<Node>, ws0: Store, v: seq<Node>, ws: Store, times: map<W, Tstamp>, i: nat, t: Tstamp)
    requires Rescheduled(d, v0, ws0, v, ws, times, i) && InHeap(d, |v|, i)
    ensures v[i].w in ws && v[i].w in ws0 && ws[v[i].w] == ws0[v[i].w] && v[i].w in Ws(d, v0)
    ensures Rescheduled(d, v0, ws0, v, ws, times[v[i].w := t], i)
  {
    assert v0[i] in Ns(d, v0);
  }

  lemma SameWatchers(d: Shape, v: seq<Node>, u: seq<Node>)
    requires |u| == |v| && forall j: nat :: d.Root() <= j < |v| ==> u[j].w == v[j].w
    ensures Ws(d, u) == Ws(d, v)
  {
    forall w | w in Ws(d, v) ensures w in Ws(d, u) {
      var j := MemberAt(d, v, w);
      assert u[j] in Ns(d, u);
    }
    forall w | w in Ws(d, u) ensures w in Ws(d, v) {
      var j := MemberAt(d, u, w);
      assert v[j] in Ns(d, v);
    }
  }

  /** Indices apart, the watchers in the heap have the new times and nothing else changed. */
  ghost predicate NewTimes(d: Shape, v0: seq<Node>, ws0: Store, ws: Store, times: map<W, Tstamp>) {
    && ws.Keys == ws0.Keys
    && forall w | w in ws0 ::
         ws[w] == ws0[w].(active := if ws0[w].kind == d.kind then ws[w].active else ws0[w].active,
                          at := if w in Ws(d, v0) && w in times then times[w] else ws0[w].at)
  }

  /** With all nodes done, the heap only lacks its order. */
  lemma AllRescheduled(d: Shape, v0: seq<Node>, ws0: Store, v: seq<Node>, ws: Store, times: map<W, Tstamp>)
    requires Rescheduled(d, v0, ws0, v, ws, times, |v|) && IsHeap(d, v0, ws0)
    ensures Indexed(d, v, ws) && Cached(d, v, ws) && Ws(d, v) == Ws(d, v0)
    ensures forall w | w in ws && ws[w].kind == d.kind && w !in Ws(d, v) :: ws[w].active == 0
    ensures NewTimes(d, v0, ws0, ws, times)
    ensures forall j: nat :: d.Root() <= j < |v| ==> v[j].w in times && v[j].at == times[v[j].w]
  {
    SameWatchers(d, v0, v);
    forall w | w in Ws(d, v0) ensures w in ws0 && ws0[w].active < |v| {
      var j := MemberAt(d, v0, w);
    }
    forall j: nat | d.Root() <= j < |v| ensures v[j].w in Ws(d, v0) {
      assert v0[j] in Ns(d, v0);
    }
    forall n | n in Ns(d, v) ensures n.w in ws && ws[n.w].kind == d.kind {
      var j: nat :| d.Root() <= j < |v| && v[j] == n;
      assert v0[j] in Ns(d, v0);
    }
  }

  lemma RescheduledWorks(c: Setup, p: Parts, ws0: Store, kind: Kind, v: seq<Node>, ws: Store, times: map<W, Tstamp>,
                         q: Queues, h: seq<Event>)
    requires Consistent(c, p, ws0, q, h) && InHeaps(kind)
    requires Rescheduled(HeapOf(c, kind), p.Heap(kind), ws0, v, ws, times, |v|)
    ensures var d, v0 := HeapOf(c, kind), p.Heap(kind);
            && |v| == |v0| >= d.Root() && Stored(d, v, ws)
            && var r := Rebuilt(d, v, ws, |v| - d.Root());
               && |r.v| == |v| && Consistent(c, p.WithHeap(kind, r.v), r.ws, q, h)
               && Ws(d, r.v) == Ws(d, v0) && NewTimes(d, v0, ws0, r.ws, times)
  {
    hide Rebuilt, Up, Ws, Rescheduled, Consistent, IsHeap;
    var d, v0 := HeapOf(c, kind), p.Heap(kind);
    ItsHeap(c, p, ws0, q, h, kind);
    HeapStored(d, v0, ws0);
    AllRescheduled(d, v0, ws0, v, ws, times);
    SameLength(d, v0, ws0, v, ws, times);
    var r := Rebuilt(d, v, ws, |v| - d.Root());
    RebuildWorks(d, v, ws, r);
    TimesKept(d, v0, ws0, ws, r.ws, times);
    TimesOnly(d, v0, ws0, r.ws, times);
    HeapChanged(c, p, ws0, kind, r.v, r.ws, q, h);
  }

  lemma SameLength(d: Shape, v0: seq<Node>, ws0: Store, v: seq<Node>, ws: Store, times: map<W, Tstamp>)
    requires Rescheduled(d, v0, ws0, v, ws, times, |v|)
    ensures |v| == |v0| && forall j: nat :: d.Root() <= j < |v| ==> v[j].w == v0[j].w
  {
  }

  lemma TimesKept(d: Shape, v0: seq<Node>, ws0: Store, ws: Store, after: Store, times: map<W, Tstamp>)
    requires NewTimes(d, v0, ws0, ws, times) && OnlyActive(d, ws, after)
    ensures NewTimes(d, v0, ws0, after, times)
  {
  }

  lemma TimesOnly(d: Shape, v0: seq<Node>, ws0: Store, ws: Store, times: map<W, Tstamp>)
    requires NewTimes(d, v0, ws0, ws, times) && IsHeap(d, v0, ws0)
    ensures OnlyKind(d.kind, ws0, ws) && SamePending(ws0, ws)
  {
    forall w | w in Ws(d, v0) ensures w in ws0 && ws0[w].kind == d.kind {
      var n :| n in Ns(d, v0) && n.w == w;
    }
  }

  /** All times moved by the same amount. */
  function Moved(ws0: Store, adjust: Tstamp): map<W, Tstamp> {
    map w | w in ws0 :: ws0[w].at + adjust
  }

  lemma MovedWorks(c: Setup, p: Parts, ws0: Store, kind: Kind, v: seq<Node>, ws: Store, adjust: Tstamp,
                   q: Queues, h: seq<Event>)
    requires Consistent(c, p, ws0, q, h) && InHeaps(kind)
    requires Rescheduled(HeapOf(c, kind), p.Heap(kind), ws0, v, ws, Moved(ws0, adjust), |v|)
    ensures var d, v0 := HeapOf(c, kind), p.Heap(kind);
            && Consistent(c, p.WithHeap(kind, v), ws, q, h) && Ws(d, v) == Ws(d, v0) && |v| == |v0|
            && NewTimes(d, v0, ws0, ws, Moved(ws0, adjust))
  {
    hide Ws, Rescheduled, Consistent, IsHeap;
    var d, v0, times := HeapOf(c, kind), p.Heap(kind), Moved(ws0, adjust);
    ItsHeap(c, p, ws0, q, h, kind);
    AllRescheduled(d, v0, ws0, v, ws, times);
    SameLength(d, v0, ws0, v, ws, times);
    HeapStored(d, v0, ws0);
    MovedInOrder(d, v0, ws0, v, times, adjust);
    MakesHeap(d, v, ws);
    TimesOnly(d, v0, ws0, ws, times);
    HeapChanged(c, p, ws0, kind, v, ws, q, h);
  }

  lemma MakesHeap(d: Shape, v: seq<Node>, ws: Store)
    requires |v| >= d.Root() && Ordered(d, v, |v|) && Indexed(d, v, ws) && Cached(d, v, ws)
    requires forall w | w in ws && ws[w].kind == d.kind && w !in Ws(d, v) :: ws[w].active == 0
    ensures IsHeap(d, v, ws)
  {
  }

  lemma MovedKnown(ws: Store, adjust: Tstamp)
    ensures forall w <- ws :: w in Moved(ws, adjust)
  {
  }

  lemma MovedInOrder(d: Shape, v0: seq<Node>, ws0: Store, v: seq<Node>, times: map<W, Tstamp>, adjust: Tstamp)
    requires IsHeap(d, v0, ws0) && times == Moved(ws0, adjust) && |v| == |v0|
    requires forall j: nat :: d.Root() <= j < |v| ==> v[j].w == v0[j].w && v[j].w in times && v[j].at == times[v[j].w]
    ensures Ordered(d, v, |v|)
  {
    forall j: nat | d.Root() <= j < |v| ensures v[j].at == v0[j].at + adjust {
      assert v0[j] in Ns(d, v0);
    }
    forall j: nat | d.Root() < j < |v| ensures d.Parent(j) < j && v[d.Parent(j)].at <= v[j].at {
      d.ParentAbove(j);
    }
  }

  lemma MembersKnown(d: Shape, v: seq<Node>, ws: Store)
    requires IsHeap(d, v, ws)
    ensures forall w | w in Ws(d, v) :: w in ws && ws[w].kind == d.kind
  {
    forall w | w in Ws(d, v) ensures w in ws && ws[w].kind == d.kind {
      var n :| n in Ns(d, v) && n.w == w;
    }
  }

  lemma StillToMove(d: Shape, v0: seq<Node>, ws0: Store, v: seq<Node>, ws: Store, i: nat, adjust: Tstamp)
    requires Rescheduled(d, v0, ws0, v, ws, Moved(ws0, adjust), i) && InHeap(d, |v|, i)
    ensures v[i].w in ws && v[i].w in Moved(ws0, adjust) && Moved(ws0, adjust)[v[i].w] == ws[v[i].w].at + adjust
  {
  }

  // ---- io watchers ----

  lemma ItsFds(c: Setup, p: Parts, ws: Store, q: Queues, h: seq<Event>)
    requires Consistent(c, p, ws, q, h)
    ensures FdsRight(p.anfds, p.lists, p.changes, ws) && |p.lists| == |p.anfds|
    ensures F.Filed(p.anfds, p.lists, F.Ios(ws)) && F.Tracked(p.anfds, p.lists, F.Ios(ws), p.changes)
  {
  }

  lemma MakeFds(anfds: seq<F.Anfd>, lists: seq<seq<W>>, changes: seq<nat>, ws: Store)
    requires F.Filed(anfds, lists, F.Ios(ws)) && F.Tracked(anfds, lists, F.Ios(ws), changes)
    requires forall w <- ws :: ws[w].kind == Io ==> ws[w].active <= 1
    ensures FdsRight(anfds, lists, changes, ws)
  {
  }

  /** ev_start and the link of wlist_add */
  function IoStarted(ws: Store, w: W, head: Link): Store
    requires w in ws
  {
    ws[w := ws[w].(active := 1, io := ws[w].io.(fdset := false, next := head))]
  }

  lemma IoStartedView(ws: Store, w: W, head: Link)
    requires w in ws && ws[w].kind == Io && forall x <- ws :: ws[x].kind == Io ==> ws[x].active <= 1
    ensures w in F.Ios(ws) && F.Ios(IoStarted(ws, w, head)) == F.Started(F.Ios(ws), w, head)
    ensures OnlyKind(Io, ws, IoStarted(ws, w, head)) && SamePending(ws, IoStarted(ws, w, head))
    ensures forall x <- IoStarted(ws, w, head) :: IoStarted(ws, w, head)[x].kind == Io ==> IoStarted(ws, w, head)[x].active <= 1
  {
  }

  /** Waiting fds after fd_change. */
  function Changed(anfds: seq<F.Anfd>, changes: seq<nat>, f: nat): seq<nat>
    requires f < |anfds|
  {
    if anfds[f].reify.Any() then changes else changes + [f]
  }

  lemma IoStartWorks(c: Setup, p: Parts, ws: Store, q: Queues, h: seq<Event>, w: W, r: F.Reify)
    requires Consistent(c, p, ws, q, h) && r.Any()
    requires w in ws && ws[w].kind == Io && ws[w].active == 0 && 0 <= ws[w].io.fd < |p.anfds|
    ensures |p.lists| == |p.anfds| && F.Listed(p.anfds, p.changes)
    ensures var f := ws[w].io.fd;
            var anfds := F.Flagged(F.Headed(p.anfds, f, To(w)), f, r);
            F.Listed(F.Headed(p.anfds, f, To(w)), p.changes)
            && Consistent(c, p.(anfds := anfds, lists := p.lists[f := [w] + p.lists[f]], changes := Changed(p.anfds, p.changes, f)),
                          IoStarted(ws, w, p.anfds[f].head), q, h)
  {
    hide Consistent, F.Ios, F.Filed, F.Started, F.UpToDate, F.Listed, OnlyKind, IoStarted;
    ItsFds(c, p, ws, q, h);
    IosActive(p.anfds, p.lists, p.changes, ws);
    var f: nat := ws[w].io.fd;
    var headed, ls := F.Headed(p.anfds, f, To(w)), p.lists[f := [w] + p.lists[f]];
    IoViewOf(ws, w);
    IoStartedView(ws, w, p.anfds[f].head);
    F.StartWorks(p.anfds, p.lists, F.Ios(ws), p.changes, w, r);
    F.FlaggedListed(headed, p.changes, f, r);
    var after := IoStarted(ws, w, p.anfds[f].head);
    MakeFds(F.Flagged(headed, f, r), ls, Changed(p.anfds, p.changes, f), after);
    FdsChanged(c, p, ws, F.Flagged(headed, f, r), ls, Changed(p.anfds, p.changes, f), after, q, h);
  }

  lemma IosActive(anfds: seq<F.Anfd>, lists: seq<seq<W>>, changes: seq<nat>, ws: Store)
    requires FdsRight(anfds, lists, changes, ws)
    ensures forall x <- ws :: ws[x].kind == Io ==> ws[x].active <= 1
  {
  }

  lemma IoViewOf(ws: Store, w: W)
    requires w in ws
    ensures ws[w].kind == Io <==> w in F.Ios(ws)
    ensures ws[w].kind == Io ==>
              F.Ios(ws)[w] == F.IoView(ws[w].io.fd, ws[w].io.events, ws[w].io.fdset, ws[w].active == 1, ws[w].io.next)
  {
  }

  /** The link of wlist_del, if w is not the first of its list. */
  function Linked(ws: Store, x: W, next: Link): Store
    requires x in ws
  {
    ws[x := ws[x].(io := ws[x].io.(next := next))]
  }

  /** wlist_del on the watcher at position i, and ev_stop */
  function IoStopped(ws: Store, list: seq<W>, i: nat): Store
    requires i < |list| && forall v <- list :: v in ws
  {
    var w := list[i];
    var ys := if i == 0 then ws else Linked(ws, list[i - 1], ws[w].io.next);
    Ended(ys, w)
  }

  /** ev_stop */
  function Ended(ws: Store, w: W): Store
    requires w in ws
  {
    ws[w := ws[w].(active := 0)]
  }

  /** What a change of io watchers must be like. */
  ghost predicate IoOnly(before: Store, after: Store) {
    && OnlyKind(Io, before, after) && SamePending(before, after)
    && forall x <- after :: after[x].kind == Io ==> after[x].active <= 1
  }

  lemma LinkedView(ws: Store, x: W, next: Link)
    requires x in ws && ws[x].kind == Io && forall x <- ws :: ws[x].kind == Io ==> ws[x].active <= 1
    ensures x in F.Ios(ws) && F.Ios(Linked(ws, x, next)) == F.Ios(ws)[x := F.Ios(ws)[x].(next := next)]
    ensures IoOnly(ws, Linked(ws, x, next))
  {
  }

  lemma EndedView(ws: Store, w: W)
    requires w in ws && ws[w].kind == Io && forall x <- ws :: ws[x].kind == Io ==> ws[x].active <= 1
    ensures w in F.Ios(ws) && F.Ios(Ended(ws, w)) == F.Stopped(F.Ios(ws), w)
    ensures IoOnly(ws, Ended(ws, w))
  {
  }

  lemma IoOnlyTwice(first: Store, before: Store, after: Store)
    requires IoOnly(first, before) && IoOnly(before, after)
    ensures IoOnly(first, after)
  {
  }

  lemma IoStoppedView(ws: Store, list: seq<W>, i: nat)
    requires i < |list| && forall v <- list :: v in ws && ws[v].kind == Io
    requires forall x <- ws :: ws[x].kind == Io ==> ws[x].active <= 1
    ensures forall v <- list :: v in F.Ios(ws)
    ensures F.Ios(IoStopped(ws, list, i)) == F.Stopped(F.Unlinked(F.Ios(ws), list, i), list[i])
    ensures IoOnly(ws, IoStopped(ws, list, i))
  {
    hide F.Ios, F.Stopped, Linked, Ended, IoOnly;
    forall v | v in list ensures v in F.Ios(ws) { IoViewOf(ws, v); }
    IoViewOf(ws, list[i]);
    if i == 0 {
      EndedView(ws, list[0]);
    } else {
      var ys := Linked(ws, list[i - 1], ws[list[i]].io.next);
      LinkedView(ws, list[i - 1], ws[list[i]].io.next);
      assert list[i] in ys && ys[list[i]].kind == Io && forall x <- ys :: ys[x].kind == Io ==> ys[x].active <= 1 by {
        IoOnlySays(ws, ys, list[i]);
      }
      EndedView(ys, list[i]);
      IoOnlyTwice(ws, ys, Ended(ys, list[i]));
    }
  }

  lemma IoOnlySays(before: Store, after: Store, w: W)
    requires IoOnly(before, after) && w in before
    ensures w in after && after[w].kind == before[w].kind
    ensures forall x <- after :: after[x].kind == Io ==> after[x].active <= 1
    ensures OnlyKind(Io, before, after) && SamePending(before, after)
  {
  }

  lemma ListedIos(anfds: seq<F.Anfd>, lists: seq<seq<W>>, ws: Store, f: nat)
    requires F.Filed(anfds, lists, F.Ios(ws)) && f < |anfds|
    ensures |lists| == |anfds| && F.IsList(F.Ios(ws), anfds[f].head, lists[f])
    ensures forall v <- lists[f] :: v in ws && ws[v].kind == Io && v in F.Ios(ws) && F.Ios(ws)[v].fd == f && ws[v].active == 1
  {
  }

  lemma IoStopWorks(c: Setup, p: Parts, ws: Store, q: Queues, h: seq<Event>, f: nat, i: nat, r: F.Reify)
    requires Consistent(c, p, ws, q, h) && r.Any() && f < |p.anfds| && f < |p.lists| && i < |p.lists[f]|
    ensures forall v <- p.lists[f] :: v in ws && v in F.Ios(ws)
    ensures var headed := F.Headed(p.anfds, f, F.UnlinkedHead(F.Ios(ws), p.anfds[f].head, p.lists[f], i));
            F.Listed(headed, p.changes)
            && Consistent(c, p.(anfds := F.Flagged(headed, f, r), lists := p.lists[f := F.Cut(p.lists[f], i)],
                                   changes := Changed(p.anfds, p.changes, f)),
                          IoStopped(ws, p.lists[f], i), q, h)
  {
    hide Consistent, F.Ios, F.Filed, F.Stopped, F.UpToDate, F.Listed, OnlyKind, IoStopped, F.Unlinked, F.UnlinkedHead, F.Cut;
    ItsFds(c, p, ws, q, h);
    IosActive(p.anfds, p.lists, p.changes, ws);
    ListedIos(p.anfds, p.lists, ws, f);
    IoStoppedView(ws, p.lists[f], i);
    IoOnlySays(ws, IoStopped(ws, p.lists[f], i), p.lists[f][i]);
    F.StopWorks(p.anfds, p.lists, F.Ios(ws), p.changes, f, i, r);
    var headed := F.Headed(p.anfds, f, F.UnlinkedHead(F.Ios(ws), p.anfds[f].head, p.lists[f], i));
    var ls, after := p.lists[f := F.Cut(p.lists[f], i)], IoStopped(ws, p.lists[f], i);
    F.FlaggedListed(headed, p.changes, f, r);
    MakeFds(F.Flagged(headed, f, r), ls, Changed(p.anfds, p.changes, f), after);
    FdsChanged(c, p, ws, F.Flagged(headed, f, r), ls, Changed(p.anfds, p.changes, f), after, q, h);
  }

  lemma GrownWorks(c: Setup, p: Parts, ws: Store, q: Queues, h: seq<Event>, n: nat)
    requires Consistent(c, p, ws, q, h)
    ensures Consistent(c, p.(anfds := p.anfds + seq(n, _ => F.NO_ANFD), lists := p.lists + seq(n, _ => [])), ws, q, h)
  {
    hide Consistent, F.Ios, F.Filed, F.Tracked;
    ItsFds(c, p, ws, q, h);
    IosActive(p.anfds, p.lists, p.changes, ws);
    F.GrownWorks(p.anfds, p.lists, F.Ios(ws), p.changes, n);
    MakeFds(p.anfds + seq(n, _ => F.NO_ANFD), p.lists + seq(n, _ => []), p.changes, ws);
    FdsChanged(c, p, ws, p.anfds + seq(n, _ => F.NO_ANFD), p.lists + seq(n, _ => []), p.changes, ws, q, h);
  }

  lemma ReifiedWorks(c: Setup, p: Parts, ws: Store, q: Queues, h: seq<Event>)
    requires Consistent(c, p, ws, q, h) && p.changes != []
    ensures var f := p.changes[0];
            && f < |p.anfds| == |p.lists| && (forall v <- p.lists[f] :: v in F.Ios(ws))
            && F.IsList(F.Ios(ws), p.anfds[f].head, p.lists[f])
            && var anfd := p.anfds[f].(reify := F.NO_REIFY, events := F.Union(F.Ios(ws), p.lists[f]));
               Consistent(c, p.(anfds := p.anfds[f := anfd], changes := p.changes[1..]), ws, q, h)
  {
    hide Consistent, F.Ios, F.UpToDate, F.Union, F.Linked;
    ItsFds(c, p, ws, q, h);
    IosActive(p.anfds, p.lists, p.changes, ws);
    var f := p.changes[0];
    F.ReifiedWorks(p.anfds, p.lists, F.Ios(ws), p.changes);
    ListedIos(p.anfds, p.lists, ws, f);
    var anfd := p.anfds[f].(reify := F.NO_REIFY, events := F.Union(F.Ios(ws), p.lists[f]));
    MakeFds(p.anfds[f := anfd], p.lists, p.changes[1..], ws);
    FdsChanged(c, p, ws, p.anfds[f := anfd], p.lists, p.changes[1..], ws, q, h);
  }

  // ---- arrays ----

  lemma ItsArray(c: Setup, p: Parts, ws: Store, q: Queues, h: seq<Event>, kind: Kind)
    requires Consistent(c, p, ws, q, h) && InArrays(kind)
    ensures kind in p.arrays && A.IsArray(kind, p.arrays[kind], ws) && p.arrays[kind].cnt <= |p.arrays[kind].entries|
    ensures DUMMY in ws && ws[DUMMY].active == 0 && DUMMY !in A.InUse(p.arrays[kind])
  {
    var a := p.arrays[kind];
    forall i | 0 <= i < a.cnt ensures A.InUse(a)[i] == a.entries[i] {
    }
  }

  lemma ArrayRoomWorks(c: Setup, p: Parts, ws: Store, q: Queues, h: seq<Event>, kind: Kind, more: seq<W>)
    requires Consistent(c, p, ws, q, h) && InArrays(kind)
    ensures kind in p.arrays
    ensures Consistent(c, p.(arrays := p.arrays[kind := A.Slots(p.arrays[kind].entries + more, p.arrays[kind].cnt)]), ws, q, h)
  {
    hide Consistent, A.IsArray;
    ItsArray(c, p, ws, q, h, kind);
    A.MoreRoom(kind, p.arrays[kind], ws, more);
    ArrayChanged(c, p, ws, kind, A.Slots(p.arrays[kind].entries + more, p.arrays[kind].cnt), ws, q, h);
  }

  lemma NumberedPending(ws: Store, w: W, k: nat)
    requires w in ws
    ensures SamePending(ws, A.Numbered(ws, w, k))
  {
  }

  lemma ArrayStartWorks(c: Setup, p: Parts, ws: Store, q: Queues, h: seq<Event>, kind: Kind, w: W)
    requires Consistent(c, p, ws, q, h) && InArrays(kind) && w != DUMMY
    requires w in ws && ws[w].kind == kind && ws[w].active == 0
    requires kind in p.arrays ==> p.arrays[kind].cnt < |p.arrays[kind].entries|
    ensures kind in p.arrays
    ensures var a := p.arrays[kind];
            Consistent(c, p.(arrays := p.arrays[kind := A.StartAt(a, w)]), A.Numbered(ws, w, a.cnt + 1), q, h)
  {
    hide Consistent, A.IsArray, OnlyKind, SamePending;
    ItsArray(c, p, ws, q, h, kind);
    var a := p.arrays[kind];
    A.StartWorks(kind, a, ws, w);
    NumberedPending(ws, w, a.cnt + 1);
    ArrayChanged(c, p, ws, kind, A.StartAt(a, w), A.Numbered(ws, w, a.cnt + 1), q, h);
  }

  lemma ArrayStopWorks(c: Setup, p: Parts, ws: Store, q: Queues, h: seq<Event>, kind: Kind, w: W)
    requires Consistent(c, p, ws, q, h) && InArrays(kind)
    requires w in ws && ws[w].kind == kind && ws[w].active != 0
    ensures kind in p.arrays
    ensures var a := p.arrays[kind];
            && 0 < ws[w].active <= a.cnt <= |a.entries| && a.entries[a.cnt - 1] in ws && a.entries[ws[w].active - 1] == w
            && Consistent(c, p.(arrays := p.arrays[kind := A.StopAt(a, ws[w].active)]),
                          A.Unplaced(a, ws, w), q, h)
  {
    hide Consistent, A.IsArray, OnlyKind, SamePending;
    ItsArray(c, p, ws, q, h, kind);
    var a := p.arrays[kind];
    A.StopWorks(kind, a, ws, w);
    UnplacedPending(a, ws, w);
    LastInUse(a);
    A.UnplacedAt(a, ws, w, DUMMY);
    ArrayChanged(c, p, ws, kind, A.StopAt(a, ws[w].active), A.Unplaced(a, ws, w), q, h);
  }

  lemma LastInUse(a: A.Slots)
    requires 0 < a.cnt <= |a.entries|
    ensures a.entries[a.cnt - 1] in A.InUse(a)
  {
    assert A.InUse(a)[a.cnt - 1] == a.entries[a.cnt - 1];
  }

  lemma UnplacedPending(a: A.Slots, ws: Store, w: W)
    requires w in ws && 0 < a.cnt <= |a.entries| && a.entries[a.cnt - 1] in ws
    ensures SamePending(ws, A.Unplaced(a, ws, w))
  {
    hide A.Unplaced;
    forall x | x in ws ensures A.Unplaced(a, ws, w).Keys == ws.Keys && A.Unplaced(a, ws, w)[x] == ws[x].(active := A.Unplaced(a, ws, w)[x].active) {
      A.UnplacedAt(a, ws, w, x);
    }
    A.UnplacedAt(a, ws, w, w);
  }

  // ---- settings of stopped watchers ----

  /** ev_timer_set, ev_periodic_set and ev_io_set: what they do not change. */
  predicate Resettable(x: Watcher, y: Watcher) {
    x.active == 0 == y.active && y.kind == x.kind && y.pri == x.pri && y.pending == x.pending
  }

  lemma HeapIgnores(d: Shape, v: seq<Node>, ws: Store, w: W, x: Watcher)
    requires IsHeap(d, v, ws) && w in ws && ws[w].kind == d.kind && Resettable(ws[w], x)
    ensures IsHeap(d, v, ws[w := x])
  {
    ActiveInHeap(d, v, ws, w);
    forall n | n in Ns(d, v) ensures n.w != w {
      assert n.w in Ws(d, v);
    }
  }

  lemma ArrayIgnores(kind: Kind, a: A.Slots, ws: Store, w: W, x: Watcher)
    requires A.IsArray(kind, a, ws) && w in ws && ws[w].kind == kind && Resettable(ws[w], x)
    ensures A.IsArray(kind, a, ws[w := x])
  {
  }

  lemma ResetOnly(ws: Store, w: W, x: Watcher)
    requires w in ws && Resettable(ws[w], x)
    ensures OnlyKind(ws[w].kind, ws, ws[w := x]) && SamePending(ws, ws[w := x])
    ensures ws[w].kind == Io ==> w in F.Ios(ws) && !F.Ios(ws)[w].active
    ensures ws[w].kind == Io ==>
      F.Ios(ws[w := x]) == F.Ios(ws)[w := F.IoView(x.io.fd, x.io.events, x.io.fdset, false, x.io.next)]
  {
  }

  lemma FdsIgnore(p: Parts, ws: Store, w: W, x: Watcher)
    requires FdsRight(p.anfds, p.lists, p.changes, ws) && w in ws && ws[w].kind == Io && Resettable(ws[w], x)
    ensures FdsRight(p.anfds, p.lists, p.changes, ws[w := x])
  {
    hide F.Ios, F.Filed, F.Tracked;
    ResetOnly(ws, w, x);
    F.SetWorks(p.anfds, p.lists, F.Ios(ws), p.changes, w, F.IoView(x.io.fd, x.io.events, x.io.fdset, false, x.io.next));
  }

  lemma ResetWorks(c: Setup, p: Parts, ws: Store, q: Queues, h: seq<Event>, w: W, x: Watcher)
    requires Consistent(c, p, ws, q, h) && w in ws && w != DUMMY && Resettable(ws[w], x)
    ensures Consistent(c, p, ws[w := x], q, h)
  {
    hide Consistent, IsHeap, A.IsArray, FdsRight, OnlyKind, SamePending;
    var kind, after := ws[w].kind, ws[w := x];
    ResetOnly(ws, w, x);
    if InHeaps(kind) {
      ItsHeap(c, p, ws, q, h, kind);
      HeapIgnores(HeapOf(c, kind), p.Heap(kind), ws, w, x);
      HeapChanged(c, p, ws, kind, p.Heap(kind), after, q, h);
      assert p.WithHeap(kind, p.Heap(kind)) == p;
    } else if InArrays(kind) {
      ItsArray(c, p, ws, q, h, kind);
      ArrayIgnores(kind, p.arrays[kind], ws, w, x);
      ArrayChanged(c, p, ws, kind, p.arrays[kind], after, q, h);
      assert p.arrays[kind := p.arrays[kind]] == p.arrays;
    } else if kind == Io {
      ItsFds(c, p, ws, q, h);
      FdsIgnore(p, ws, w, x);
      FdsChanged(c, p, ws, p.anfds, p.lists, p.changes, after, q, h);
    } else {
      OtherChanged(c, p, ws, kind, after, q, h);
    }
  }

  /** Watchers that are kept elsewhere were changed. */
  lemma OtherChanged(c: Setup, p: Parts, before: Store, kind: Kind, after: Store, q: Queues, h: seq<Event>)
    requires Consistent(c, p, before, q, h) && !InHeaps(kind) && !InArrays(kind) && kind != Io
    requires OnlyKind(kind, before, after) && SamePending(before, after)
    ensures Consistent(c, p, after, q, h)
  {
    hide IsHeap, A.IsArray, FdsRight, Delivers;
    Untouched(c, p, before, after, kind);
    QueuesKept(q, before, after, h);
  }
}
