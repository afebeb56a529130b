/** The event loop object: its heaps, arrays, fd lists and pending queues, and the watchers that they share.

    The methods of Loop work in place as the program does, and each keeps Valid, which implies all that ev_verify asserts
    (EvVerify). Most are proved in two layers: a part that moves entries and fields, against a function of the state
    before it, and the operation itself, which uses what LoopState and LoopFacts prove about that function. What
    callbacks do comes from script; what the system says (clocks, ready fds) comes from arguments. The last section has
    a turn of ev_run, cut where it waits: before, the backend is told what all watchers want; after, all that has
    happened is fed and invoked, in an order that the program promises and AfterWait states. */
module EventLoop {

  import opened Basics
  import opened IoEvents
  import opened Watchers
  import opened Heap
  import opened Pending
  import opened LoopState
  import opened LoopFacts
  import opened Expiry
  import opened Periodics
  import PollBackend
  import SelectBackend
  import A = WatcherArray
  import F = FdInterest
  import ArraySize

  /** What a callback may do to the loop. */
  datatype Action =
    | DoFeed(w: W, revents: Events)
    | DoFeedFd(fd: nat, mask: Mask)
    | DoClear(w: W)
    | DoSet(w: W, x: Watcher)
    | DoStart(w: W)
    | DoStop(w: W)
    | DoAgain(w: W)
    | Reenter            // run the pending callbacks from within
    | Return

  /** What the callbacks of a script do to the loop themselves. */
  function Deeds(script: seq<Action>): seq<Action> {
    if script == [] then []
    else (if script[0].Reenter? || script[0].Return? then [] else [script[0]]) + Deeds(script[1..])
  }

  lemma DeedsMore(done: seq<Action>, script: seq<Action>)
    requires script != []
    ensures done + Deeds(script) ==
      if script[0].Reenter? || script[0].Return? then done + Deeds(script[1..]) else done + [script[0]] + Deeds(script[1..])
  {
    assert [] + Deeds(script[1..]) == Deeds(script[1..]);
    Assoc(done, [script[0]], Deeds(script[1..]));
  }

  /** The active watchers of a kind, in the order of its array. */
  function FilledIn(arrays: map<Kind, A.Slots>, kind: Kind): seq<W> {
    if kind in arrays && arrays[kind].cnt <= |arrays[kind].entries| then A.InUse(arrays[kind]) else []
  }

  /** With these queues an idle watcher of priority p would be called: none is of a higher one, and nothing else is
      pending that would be called before it. */
  ghost predicate IdleTurn(arrays: map<Kind, A.Slots>, queues: Queues, p: nat) {
    && p < NUMPRI == |queues| && FilledIn(arrays, Idle(p)) != []
    && forall r: nat | p <= r < NUMPRI :: queues[r] == [] && (r > p ==> FilledIn(arrays, Idle(r)) == [])
  }

  lemma NoTurn(arrays: map<Kind, A.Slots>, queues: Queues, pri: nat)
    requires pri < NUMPRI == |queues| && queues[pri] != []
    requires forall r: nat | pri < r < NUMPRI :: FilledIn(arrays, Idle(r)) == []
    ensures forall p: nat :: !IdleTurn(arrays, queues, p)
  {
    hide FilledIn;
  }

  lemma TurnIsOnly(arrays: map<Kind, A.Slots>, queues: Queues, pri: nat)
    requires pri < NUMPRI == |queues| && FilledIn(arrays, Idle(pri)) != []
    requires forall r: nat | pri <= r < NUMPRI :: queues[r] == [] && (r > pri ==> FilledIn(arrays, Idle(r)) == [])
    ensures IdleTurn(arrays, queues, pri) && forall p: nat :: IdleTurn(arrays, queues, p) ==> p == pri
  {
    hide FilledIn;
  }

  lemma NoneToCall(arrays: map<Kind, A.Slots>, queues: Queues)
    requires forall r: nat | r < NUMPRI :: FilledIn(arrays, Idle(r)) == []
    ensures forall p: nat :: !IdleTurn(arrays, queues, p)
  {
    hide FilledIn;
  }

  class Loop {
    const c: Setup
    const usesPoll: bool
    const poll: PollBackend.Poll
    const select: SelectBackend.Select
    var ws: Store                // the watchers
    var timers: seq<Node>        // with the unused entries below HEAP0, like periodics
    var timermax: nat
    var periodics: seq<Node>
    var periodicmax: nat
    var arrays: map<Kind, A.Slots>
    var idleall: nat
    var anfds: seq<F.Anfd>
    ghost var lists: seq<seq<W>>
    var fdchanges: seq<nat>
    var fdchangemax: nat
    var pendings: Queues
    var pendingmax: seq<nat>
    var pendingpri: nat
    var rfeeds: seq<W>           // watchers to be fed, last one first
    var rfeedmax: nat
    var activecnt: int
    var mnNow: Tstamp
    var rtNow: Tstamp
    var nowFloor: Tstamp
    var rtmnDiff: Tstamp
    ghost var history: seq<Event>
    var script: seq<Action>      // all that callbacks are going to do, in order
    ghost var performed: seq<Action>

    // ---- the invariant ----

    ghost function Here(): Parts
      reads `timers, `periodics, `arrays, `anfds, `lists, `fdchanges
    {
      Parts(timers, periodics, arrays, anfds, lists, fdchanges)
    }

    /** The events the backend is asked to report on f. */
    ghost function Kernel(f: nat): Mask
      reads poll, select
    {
      if usesPoll then poll.Interest(f) else select.Interest(f)
    }

    /** The backend was told the events noted in anfds, and is sound itself. */
    ghost predicate Told()
      reads `anfds, poll, select
    {
      && poll.Valid() && select.Valid()
      && forall f: nat :: Kernel(f) == if f < |anfds| then anfds[f].events else NONE
    }

    ghost predicate HeapRoom()
      reads `timers, `timermax, `periodics, `periodicmax
    {
      |timers| <= timermax && |periodics| <= periodicmax
    }

    ghost predicate QueueRoom()
      reads `pendings, `pendingmax
    {
      Roomy(pendings, pendingmax)
    }

    ghost predicate ListRoom()
      reads `fdchanges, `fdchangemax, `rfeeds, `rfeedmax
    {
      |fdchanges| <= fdchangemax && |rfeeds| <= rfeedmax
    }

    ghost predicate IdleRight()
      reads `arrays, `idleall
    {
      idleall == Idles(arrays, NUMPRI)
    }

    ghost predicate Valid()
      reads `timers, `timermax, `periodics, `periodicmax, `arrays, `idleall, `anfds, `lists, `fdchanges, `fdchangemax,
            `ws, `pendings, `pendingmax, `rfeeds, `rfeedmax, `history, poll, select
    {
      && Consistent(c, Here(), ws, pendings, history)
      && Told() && HeapRoom() && QueueRoom() && ListRoom() && IdleRight()
    }

    /** What verify_watcher asserts. */
    ghost predicate VerifyWatcher(w: W)
      reads this
    {
      && w in ws && ws[w].pri < NUMPRI
      && (ws[w].pending > 0 ==>
            && |pendings| == NUMPRI && ws[w].pending <= |pendings[ws[w].pri]|
            && pendings[ws[w].pri][ws[w].pending - 1].w == w)
    }

    /** What verify_heap asserts. */
    ghost predicate VerifyHeap(d: Shape, heap: seq<Node>)
      reads this
    {
      forall i: nat | d.Root() <= i < |heap| ::
        && heap[i].w in ws && ws[heap[i].w].active == i
        && (i > d.Root() ==> d.Parent(i) < |heap| && heap[d.Parent(i)].at <= heap[i].at)
        && heap[i].at == ws[heap[i].w].at
        && VerifyWatcher(heap[i].w)
    }

    /** What array_verify asserts. */
    ghost predicate VerifyArray(a: A.Slots)
      reads this
    {
      && a.cnt <= |a.entries|
      && forall i | 0 <= i < a.cnt :: a.entries[i] in ws && ws[a.entries[i]].active == i + 1 && VerifyWatcher(a.entries[i])
    }

    /** What ev_verify asserts of the list of an fd, which is list. */
    ghost predicate VerifyList(f: nat, list: seq<W>)
      requires f < |anfds|
      reads this
    {
      && anfds[f].head == F.At(list, 0)
      && forall i {:trigger list[i]} | 0 <= i < |list| ::
           && VerifyWatcher(list[i]) && ws[list[i]].io.next == F.At(list, i + 1)
           && ws[list[i]].active == 1 && ws[list[i]].io.fd == f
    }

    /** ev_verify, but that activecnt, which ev_ref and ev_unref change at will, is not below -1 */
    ghost predicate Verified()
      reads this
    {
      && |fdchanges| <= fdchangemax
      && |lists| == |anfds| && (forall f | 0 <= f < |anfds| :: VerifyList(f, lists[f]))
      && |timers| <= timermax && VerifyHeap(HeapOf(c, Timer), timers)
      && |periodics| <= periodicmax && VerifyHeap(HeapOf(c, Periodic), periodics)
      && |pendings| == NUMPRI == |pendingmax| && (forall p | 0 <= p < NUMPRI :: |pendings[p]| <= pendingmax[p])
      && (forall kind | InArrays(kind) :: kind in arrays && VerifyArray(arrays[kind]))
    }

    /** The invariant implies all that the program can assert of itself. */
    lemma EvVerify()
      requires Valid()
      ensures Verified()
    {
      hide Consistent;
      PendingOk();
      HeapOk(Timer);
      HeapOk(Periodic);
      forall kind | InArrays(kind) ensures kind in arrays && VerifyArray(arrays[kind]) {
        ArrayOk(kind);
      }
      ItsFds(c, Here(), ws, pendings, history);
      forall f | 0 <= f < |anfds| ensures VerifyList(f, lists[f]) {
        ListOk(f);
      }
    }

    lemma PendingOk()
      requires Valid()
      ensures forall w <- ws :: VerifyWatcher(w)
    {
      forall w | w in ws ensures VerifyWatcher(w) {
        Home(pendings, ws, w);
      }
    }

    lemma HeapOk(kind: Kind)
      requires Valid() && InHeaps(kind)
      ensures VerifyHeap(HeapOf(c, kind), Here().Heap(kind))
    {
      hide Consistent;
      PendingOk();
      ItsHeap(c, Here(), ws, pendings, history, kind);
      var d, heap := HeapOf(c, kind), Here().Heap(kind);
      forall i: nat | d.Root() <= i < |heap| ensures heap[i].w in ws && heap[i].at == ws[heap[i].w].at {
        assert heap[i] in Ns(d, heap);
      }
    }

    lemma ArrayOk(kind: Kind)
      requires Valid() && InArrays(kind)
      ensures kind in arrays && VerifyArray(arrays[kind])
    {
      hide Consistent;
      PendingOk();
      ItsArray(c, Here(), ws, pendings, history, kind);
    }

    lemma ListOk(f: nat)
      requires Valid() && f < |anfds| == |lists|
      ensures VerifyList(f, lists[f])
    {
      hide Consistent;
      PendingOk();
      ItsFds(c, Here(), ws, pendings, history);
      ListedIos(anfds, lists, ws, f);
      forall i {:trigger lists[f][i]} | 0 <= i < |lists[f]|
        ensures VerifyWatcher(lists[f][i]) && ws[lists[f][i]].io.next == F.At(lists[f], i + 1)
      {
        assert lists[f][i] in lists[f];
        IoViewOf(ws, lists[f][i]);
      }
    }

    /** A loop with watchers that are all stopped, like pending_w. */
    constructor (four: bool, usesPoll: bool, ws: Store, now: Reading, script: seq<Action>)
      requires DUMMY in ws && ws[DUMMY].kind == Prepare
      requires forall w <- ws :: ws[w].pri < NUMPRI && ws[w].active == 0 && ws[w].pending == 0
      requires forall w <- ws :: ws[w].kind.Idle? ==> ws[w].kind.pri == ws[w].pri
      ensures Valid() && fresh(poll) && fresh(select)
      ensures c.four == four && this.usesPoll == usesPoll && this.ws == ws && this.script == script
      ensures mnNow == now.mn && rtNow == now.rt && rfeeds == [] && history == [] && pendings == seq(NUMPRI, _ => [])
      ensures Members(Timer) == {} == Members(Periodic) && anfds == []
      ensures forall kind | InArrays(kind) :: kind in arrays && A.InUse(arrays[kind]) == []
    {
      hide Consistent, Ws, Idles, EmptyArrays, InArrays;
      c := Setup(four, map w | w in ws :: ws[w].pri);
      this.usesPoll := usesPoll;
      poll := new PollBackend.Poll();
      select := new SelectBackend.Select();
      this.ws, this.script := ws, script;
      mnNow, rtNow, nowFloor, rtmnDiff := now.mn, now.rt, now.mn, now.rt - now.mn;
      var none := if four then 3 else 1;
      timers, timermax := seq(none, _ => Node(0.0, DUMMY)), none;
      periodics, periodicmax := seq(none, _ => Node(0.0, DUMMY)), none;
      arrays, idleall := EmptyArrays(), 0;
      anfds, lists, fdchanges, fdchangemax := [], [], [], 0;
      pendings, pendingmax, pendingpri := seq(NUMPRI, _ => []), seq(NUMPRI, _ => 0), 0;
      rfeeds, rfeedmax, activecnt, history := [], 0, 0, [];
      new;
      NoIdles(NUMPRI);
      NothingYet(c, ws);
      AllEmpty();
    }

    ghost function Members(kind: Kind): set<W>
      reads `timers, `periodics
    {
      Ws(HeapOf(c, kind), if kind == Timer then timers else periodics)
    }

    function Now(kind: Kind): Tstamp
      reads `mnNow, `rtNow
    {
      if kind == Timer then mnNow else rtNow
    }

    // ---- the heap functions ----

    /** upheap */
    method UpHeap(d: Shape, heap: seq<Node>, k: nat) returns (nodes: seq<Node>)
      requires InHeap(d, |heap|, k) && Stored(d, heap, ws)
      modifies `ws
      ensures Sifted(nodes, ws) == Up(d, heap, old(ws), k)
    {
      nodes := heap;
      var he, i := nodes[k], k;
      ghost var v := nodes;
      while !d.UpDone(d.Parent(i), i) && he.at < nodes[d.Parent(i)].at
        invariant InHeap(d, |nodes|, i) && nodes[i := he] == v && Stored(d, v, ws)
        invariant Up(d, v, ws, i) == Up(d, heap, old(ws), k)
        decreases i
      {
        var p := d.Parent(i);
        HoleSteps(nodes, v, i, p);
        nodes := nodes[i := nodes[p]];
        ws := SetActive(ws, nodes[i].w, i);
        v := Swap(v, i, p);
        i := p;
      }
      nodes := nodes[i := he];
      ws := SetActive(ws, he.w, i);
    }

    /** The 4-heap's search for the earliest of the nodes from pos on, with a path for four of them. */
    static method EarliestOfFour(nodes: seq<Node>, pos: nat, ghost v: seq<Node>) returns (m: nat)
      requires pos < |nodes| == |v| && forall j: nat :: pos <= j < |v| ==> nodes[j] == v[j]
      ensures m == Earliest(v, pos, if pos + 4 < |v| then pos + 4 else |v|)
    {
      var e := |nodes|;
      m := pos;
      if pos + 3 < e {
        if nodes[pos + 1].at < nodes[m].at { m := pos + 1; }
        assert m == Earliest(v, pos, pos + 2);
        if nodes[pos + 2].at < nodes[m].at { m := pos + 2; }
        assert m == Earliest(v, pos, pos + 3);
        if nodes[pos + 3].at < nodes[m].at { m := pos + 3; }
      } else {
        if pos + 1 < e && nodes[pos + 1].at < nodes[m].at { m := pos + 1; }
        assert pos + 1 < e ==> m == Earliest(v, pos, pos + 2);
        if pos + 2 < e && nodes[pos + 2].at < nodes[m].at { m := pos + 2; }
        // a test of pos + 3 could not succeed here
      }
    }

    /** The search of downheap for the earliest child of k, the hole of v. */
    static method EarliestOfChildren(d: Shape, nodes: seq<Node>, k: nat, ghost v: seq<Node>) returns (m: nat)
      requires InHeap(d, |nodes|, k) && |v| == |nodes| && d.FirstChild(k) < |nodes|
      requires nodes[k := v[k]] == v
      ensures m == Earliest(v, d.FirstChild(k), LastChild(d, |nodes|, k))
      ensures k < m < |nodes| && nodes[m] == v[m]
    {
      assert forall j: nat :: k < j < |v| ==> nodes[j] == v[j];
      m := d.FirstChild(k);
      if d.Two? {
        if m + 1 < |nodes| && nodes[m].at > nodes[m + 1].at { m := m + 1; }
      } else {
        m := EarliestOfFour(nodes, m, v);
      }
    }

    /** downheap */
    method DownHeap(d: Shape, heap: seq<Node>, k: nat) returns (nodes: seq<Node>)
      requires InHeap(d, |heap|, k) && Stored(d, heap, ws)
      modifies `ws
      ensures Sifted(nodes, ws) == Down(d, heap, old(ws), k)
    {
      hide Down, Earliest, Swap, SetActive;
      nodes := heap;
      var he, i := nodes[k], k;
      ghost var v := nodes;
      assert nodes[i := he] == nodes;
      while d.FirstChild(i) < |nodes|
        invariant InHeap(d, |nodes|, i) && nodes[i := he] == v && Stored(d, v, ws)
        invariant Down(d, v, ws, i) == Down(d, heap, old(ws), k)
        decreases |nodes| - i
      {
        DownUnfolds(d, v, ws, i);
        var m := EarliestOfChildren(d, nodes, i, v);
        if he.at <= nodes[m].at {
          break;
        }
        HoleSteps(nodes, v, i, m);
        nodes := nodes[i := nodes[m]];
        ws := SetActive(ws, nodes[i].w, i);
        v := Swap(v, i, m);
        i := m;
      }
      DownUnfolds(d, v, ws, i);
      nodes := nodes[i := he];
      ws := SetActive(ws, he.w, i);
    }

    /** adjustheap */
    method AdjustHeap(d: Shape, heap: seq<Node>, k: nat) returns (nodes: seq<Node>)
      requires InHeap(d, |heap|, k) && Stored(d, heap, ws)
      modifies `ws
      ensures Sifted(nodes, ws) == Adjust(d, heap, old(ws), k)
    {
      if k > d.Root() && heap[k].at <= heap[d.Parent(k)].at {
        nodes := UpHeap(d, heap, k);
      } else {
        nodes := DownHeap(d, heap, k);
      }
    }

    /** reheap */
    method ReHeap(d: Shape, heap: seq<Node>) returns (nodes: seq<Node>)
      requires d.Root() <= |heap| && Stored(d, heap, ws)
      modifies `ws
      ensures Sifted(nodes, ws) == Rebuilt(d, heap, old(ws), |heap| - d.Root())
    {
      nodes := heap;
      for i := 0 to |heap| - d.Root()
        invariant |nodes| == |heap|
        invariant Sifted(nodes, ws) == Rebuilt(d, heap, old(ws), i)
      {
        nodes := UpHeap(d, nodes, i + d.Root());
      }
    }

    // ---- pending events ----

    /** array_needsize (pendings) */
    method NeedPending(pri: nat, n: nat)
      requires QueueRoom() && pri < NUMPRI
      modifies `pendingmax
      ensures QueueRoom() && |pendingmax| == NUMPRI && n <= pendingmax[pri]
    {
      if n > pendingmax[pri] {
        var size := ArraySize.NextSize(16, pendingmax[pri], n);
        pendingmax := pendingmax[pri := size];
      }
    }

    /** The queue part of ev_feed_event. */
    method Enqueue(w: W, revents: Events)
      requires IsPending(pendings, ws) && w in ws && w != DUMMY && QueueRoom()
      modifies `pendings, `pendingmax, `ws
      ensures QueueRoom() && Queued(pendings, ws) == Feed(old(pendings), old(ws), w, revents)
    {
      hide IsPending, Both, Roomy;
      Home(pendings, ws, w);
      var pri := ws[w].pri;
      RoomySays(pendings, pendingmax, pri);
      if ws[w].pending != 0 {
        var j := ws[w].pending - 1;
        RoomyWith(pendings, pendingmax, pri, pendings[pri][j := Entry(w, Both(pendings[pri][j].events, revents))]);
        var entry := Entry(w, Both(pendings[pri][j].events, revents));
        pendings := pendings[pri := pendings[pri][j := entry]];
      } else {
        var pendingcnt := |pendings[pri]| + 1;
        ws := SetPending(ws, w, pendingcnt);
        NeedPending(pri, pendingcnt);
        RoomyWith(pendings, pendingmax, pri, pendings[pri] + [Entry(w, revents)]);
        pendings := pendings[pri := pendings[pri] + [Entry(w, revents)]];
      }
    }

    /** ev_feed_event */
    method FeedEvent(w: W, revents: Events)
      requires Valid() && w in ws && w != DUMMY
      modifies `pendings, `pendingmax, `ws, `pendingpri, `history
      ensures Valid() && pendingpri == NUMPRI - 1
      ensures Queued(pendings, ws) == Feed(old(pendings), old(ws), w, revents) && OnlyPending(old(ws), ws)
      ensures history == old(history) + [Fed(w, revents)]
    {
      hide Consistent, IsPending, OnlyPending, Told, HeapRoom, ListRoom, IdleRight, Feed;
      FeedWorks(c, Here(), ws, pendings, history, w, revents);
      Enqueue(w, revents);
      pendingpri := NUMPRI - 1;
      history := history + [Fed(w, revents)];
    }

    /** ev_clear_pending; clear_pending is the same without the result. */
    method ClearPending(w: W) returns (revents: Events)
      requires Valid() && w in ws && w != DUMMY
      modifies `pendings, `ws, `history
      ensures Valid()
      ensures Queued(pendings, ws) == Clear(old(pendings), old(ws), w) && OnlyPending(old(ws), ws)
      ensures history == old(history) + [Cleared(w)]
      ensures SameSizes(old(pendings), pendings)
      ensures revents == match Owed(old(history), w) case Due(events) => events case NotDue => 0
    {
      hide Consistent, IsPending, OnlyPending, Told, HeapRoom, ListRoom, IdleRight;
      ClearWorks(c, Here(), ws, pendings, history, w);
      Home(pendings, ws, w);
      revents := 0;
      if ws[w].pending != 0 {
        var pri, j := ws[w].pri, ws[w].pending - 1;
        revents := pendings[pri][j].events;
        pendings := pendings[pri := pendings[pri][j := pendings[pri][j].(w := DUMMY)]];
        ws := SetPending(ws, w, 0);
      }
      history := history + [Cleared(w)];
    }

    // ---- timers and periodics ----

    /** array_needsize (timers) or (periodics) */
    method NeedHeap(kind: Kind, size: nat)
      modifies `timermax, `periodicmax
      ensures timermax >= old(timermax) && periodicmax >= old(periodicmax)
      ensures (if kind == Timer then timermax else periodicmax) >= size
    {
      if kind == Timer {
        if size > timermax {
          timermax := ArraySize.NextSize(16, timermax, size);
        }
      } else if size > periodicmax {
        periodicmax := ArraySize.NextSize(16, periodicmax, size);
      }
    }

    function HeapNow(kind: Kind): seq<Node>
      reads `timers, `periodics
    {
      if kind == Timer then timers else periodics
    }

    method SetHeap(kind: Kind, v: seq<Node>)
      modifies `timers, `periodics
      ensures Here() == old(Here()).WithHeap(kind, v)
    {
      if kind == Timer {
        timers := v;
      } else {
        periodics := v;
      }
    }

    /** The heap part of ev_timer_start and ev_periodic_start. */
    method Append(kind: Kind, w: W)
      requires |HeapNow(kind)| >= HeapOf(c, kind).Root() && Stored(HeapOf(c, kind), HeapNow(kind), ws) && w in ws && HeapRoom()
      modifies `timers, `timermax, `periodics, `periodicmax, `ws
      ensures HeapRoom() && Here() == old(Here()).WithHeap(kind, HeapNow(kind))
      ensures Sifted(HeapNow(kind), ws) == Insert(HeapOf(c, kind), old(HeapNow(kind)), old(ws), w)
    {
      hide Up;
      var d, heap := HeapOf(c, kind), HeapNow(kind);
      var k := |heap|;
      ws := SetActive(ws, w, k);
      NeedHeap(kind, k + 1);
      heap := heap + [Node(ws[w].at, w)];
      heap := UpHeap(d, heap, k);
      SetHeap(kind, heap);
    }

    /** ev_timer_start and ev_periodic_start, of a stopped watcher */
    method StartStopped(kind: Kind, w: W, t: Tstamp)
      requires Valid() && InHeaps(kind) && w in ws && ws[w].kind == kind && ws[w].active == 0
      modifies `timers, `timermax, `periodics, `periodicmax, `ws, `activecnt
      ensures Valid() && activecnt == old(activecnt) + 1
      ensures Here() == old(Here()).WithHeap(kind, HeapNow(kind))
      ensures Started(HeapOf(c, kind), old(HeapNow(kind)), old(ws), HeapNow(kind), ws, w, t)
    {
      hide Consistent, Started, Insert;
      ghost var p, v, before := Here(), HeapNow(kind), ws;
      StartWorks(c, p, ws, kind, w, t, pendings, history);
      activecnt := activecnt + 1;
      ws := SetTime(ws, w, t);
      ghost var r := Insert(HeapOf(c, kind), v, ws, w);
      assert Consistent(c, p.WithHeap(kind, r.v), r.ws, pendings, history);
      assert Started(HeapOf(c, kind), v, before, r.v, r.ws, w, t);
      Append(kind, w);
    }

    /** ev_timer_start */
    method TimerStart(w: W)
      requires Valid() && w in ws && ws[w].kind == Timer
      modifies `timers, `timermax, `periodics, `periodicmax, `ws, `activecnt
      ensures Valid()
      ensures old(ws[w].active) != 0 ==> unchanged(this)
      ensures old(ws[w].active) == 0 ==>
        && Here() == old(Here()).(timers := timers) && activecnt == old(activecnt) + 1
        && Started(HeapOf(c, Timer), old(timers), old(ws), timers, ws, w, old(ws[w].at) + mnNow)
    {
      hide Consistent, Started;
      if ws[w].active == 0 {
        StartStopped(Timer, w, ws[w].at + mnNow);
      }
    }

    /** The time of a periodic that is started, chosen by its callback if it has one. */
    method ChooseFirstTime(w: W) returns (t: Tstamp)
      requires w in ws && ws[w].kind == Periodic && ws[w].Forward()
      ensures FirstTime(ws[w], rtNow, t)
    {
      hide IsNext;
      if ws[w].custom {
        t := *;
      } else if ws[w].repeat != 0.0 {
        t := Recalc(ws[w].offset, ws[w].repeat, rtNow);
      } else {
        t := ws[w].offset;
      }
    }

    /** ev_periodic_start */
    method PeriodicStart(w: W) returns (ghost t: Tstamp)
      requires Valid() && w in ws && ws[w].kind == Periodic && ws[w].Forward()
      modifies `timers, `timermax, `periodics, `periodicmax, `ws, `activecnt
      ensures Valid()
      ensures old(ws[w].active) != 0 ==> unchanged(this)
      ensures old(ws[w].active) == 0 ==>
        && FirstTime(old(ws[w]), rtNow, t)
        && Here() == old(Here()).(periodics := periodics) && activecnt == old(activecnt) + 1
        && Started(HeapOf(c, Periodic), old(periodics), old(ws), periodics, ws, w, t)
    {
      hide Consistent, Started, IsNext;
      t := 0.0;
      if ws[w].active == 0 {
        var at := ChooseFirstTime(w);
        t := at;
        StartStopped(Periodic, w, at);
      }
    }

    /** The heap part of ev_timer_stop and ev_periodic_stop. */
    method Detach(kind: Kind, w: W)
      requires Stored(HeapOf(c, kind), HeapNow(kind), ws) && w in ws && InHeap(HeapOf(c, kind), |HeapNow(kind)|, ws[w].active)
      requires HeapRoom()
      modifies `timers, `periodics, `ws
      ensures HeapRoom() && Here() == old(Here()).WithHeap(kind, HeapNow(kind))
      ensures Sifted(HeapNow(kind), ws) == Remove(HeapOf(c, kind), old(HeapNow(kind)), old(ws), w)
    {
      hide Up, Down;
      var d, heap := HeapOf(c, kind), HeapNow(kind);
      var k, last := ws[w].active, |heap| - 1;
      var moved := heap[last];
      heap := heap[..last];
      if k < last {
        heap := heap[k := moved];
        heap := AdjustHeap(d, heap, k);
      }
      SetHeap(kind, heap);
      ws := SetActive(ws, w, 0);
    }

    /** Stopping an active watcher that is not pending; it is left with the time t. */
    method StopActive(kind: Kind, w: W, t: Tstamp)
      requires Valid() && InHeaps(kind) && w in ws && ws[w].kind == kind && ws[w].active != 0
      modifies `timers, `periodics, `ws, `activecnt
      ensures Valid() && activecnt == old(activecnt) - 1
      ensures Here() == old(Here()).WithHeap(kind, HeapNow(kind))
      ensures Stopped(HeapOf(c, kind), old(HeapNow(kind)), old(ws), HeapNow(kind), ws, w, t)
    {
      hide Consistent, Stopped, Remove;
      ghost var p, v, before := Here(), HeapNow(kind), ws;
      StopWorks(c, p, ws, kind, w, t, pendings, history);
      ghost var r := Remove(HeapOf(c, kind), v, ws, w);
      assert Consistent(c, p.WithHeap(kind, r.v), SetTime(r.ws, w, t), pendings, history);
      assert Stopped(HeapOf(c, kind), v, before, r.v, SetTime(r.ws, w, t), w, t);
      Detach(kind, w);
      ws := SetTime(ws, w, t);
      activecnt := activecnt - 1;
    }

    /** ev_timer_stop and ev_periodic_stop, up to the time that is left. */
    method StopWith(kind: Kind, w: W, t: Tstamp)
      requires Valid() && InHeaps(kind) && w in ws && ws[w].kind == kind
      modifies `timers, `periodics, `ws, `activecnt, `pendings, `history
      ensures Valid()
      ensures pendings == Clear(old(pendings), old(ws), w).q && history == old(history) + [Cleared(w)]
      ensures Here() == old(Here()).WithHeap(kind, HeapNow(kind))
      ensures old(ws[w].active) == 0 ==>
        HeapNow(kind) == old(HeapNow(kind)) && activecnt == old(activecnt) && ws == Clear(old(pendings), old(ws), w).ws
      ensures old(ws[w].active) != 0 ==>
        && activecnt == old(activecnt) - 1
        && Stopped(HeapOf(c, kind), old(HeapNow(kind)), Clear(old(pendings), old(ws), w).ws, HeapNow(kind), ws, w, t)
      ensures w in ws && ws[w].active == 0 && ws[w].pending == 0
      ensures SameSizes(old(pendings), pendings)
    {
      hide Consistent, Clear;
      NotDummy(c, Here(), ws, pendings, history, w);
      ClearKeepsTimes(c, Here(), ws, pendings, history, w);
      var _ := ClearPending(w);
      if ws[w].active != 0 {
        StopActive(kind, w, t);
      }
    }

    /** ev_timer_stop: a timer is left with the time it had still to wait. */
    method TimerStop(w: W)
      requires Valid() && w in ws && ws[w].kind == Timer
      modifies `timers, `periodics, `ws, `activecnt, `pendings, `history
      ensures Valid()
      ensures pendings == Clear(old(pendings), old(ws), w).q && history == old(history) + [Cleared(w)]
      ensures Here() == old(Here()).(timers := timers)
      ensures old(ws[w].active) == 0 ==>
        timers == old(timers) && activecnt == old(activecnt) && ws == Clear(old(pendings), old(ws), w).ws
      ensures old(ws[w].active) != 0 ==>
        && activecnt == old(activecnt) - 1
        && Stopped(HeapOf(c, Timer), old(timers), Clear(old(pendings), old(ws), w).ws, timers, ws, w, old(ws[w].at) - mnNow)
      ensures w in ws && ws[w].active == 0 && ws[w].pending == 0
      ensures SameSizes(old(pendings), pendings)
    {
      hide Consistent, Clear, Stopped;
      StopWith(Timer, w, ws[w].at - mnNow);
    }

    /** ev_periodic_stop: a periodic keeps its time. */
    method PeriodicStop(w: W)
      requires Valid() && w in ws && ws[w].kind == Periodic
      modifies `timers, `periodics, `ws, `activecnt, `pendings, `history
      ensures Valid()
      ensures pendings == Clear(old(pendings), old(ws), w).q && history == old(history) + [Cleared(w)]
      ensures Here() == old(Here()).(periodics := periodics)
      ensures old(ws[w].active) == 0 ==>
        periodics == old(periodics) && activecnt == old(activecnt) && ws == Clear(old(pendings), old(ws), w).ws
      ensures old(ws[w].active) != 0 ==>
        && activecnt == old(activecnt) - 1
        && Stopped(HeapOf(c, Periodic), old(periodics), Clear(old(pendings), old(ws), w).ws, periodics, ws, w, old(ws[w].at))
      ensures w in ws && ws[w].active == 0 && ws[w].pending == 0
      ensures SameSizes(old(pendings), pendings)
    {
      hide Consistent, Clear, Stopped;
      StopWith(Periodic, w, ws[w].at);
    }

    /** An active timer gets the time t: ANHE_at_cache and adjustheap. */
    method RetimeActive(w: W, t: Tstamp)
      requires Valid() && w in ws && ws[w].kind == Timer && ws[w].active != 0
      modifies `timers, `periodics, `ws
      ensures Valid() && Members(Timer) == old(Members(Timer)) && Here() == old(Here()).(timers := timers)
      ensures Retimed(old(ws), ws, w, t)
    {
      hide Consistent, Retimed, Ws, Adjust;
      ghost var p, before := Here(), ws;
      var d := HeapOf(c, Timer);
      RetimedWorks(c, p, ws, Timer, w, t, pendings, history);
      ws := SetTime(ws, w, t);
      ghost var r := Retime(d, timers, ws, w);
      assert Consistent(c, p.WithHeap(Timer, r.v), r.ws, pendings, history);
      assert Retimed(before, r.ws, w, t) && Ws(d, r.v) == Ws(d, timers);
      var k := ws[w].active;
      timers := timers[k := Node(ws[w].at, w)];
      timers := AdjustHeap(d, timers, k);
    }

    /** The first watcher of a heap gets the time t: ANHE_at_cache and downheap. */
    method RetimeFirst(kind: Kind, t: Tstamp)
      requires Valid() && InHeaps(kind) && |HeapNow(kind)| > HeapOf(c, kind).Root()
      modifies `timers, `periodics, `ws
      ensures Valid() && Members(kind) == old(Members(kind))
      ensures Here() == old(Here()).WithHeap(kind, HeapNow(kind))
      ensures Retimed(old(ws), ws, old(HeapNow(kind)[HeapOf(c, kind).Root()].w), t)
    {
      hide Consistent, Retimed, Ws, Down;
      ghost var p, before := Here(), ws;
      var d, heap := HeapOf(c, kind), HeapNow(kind);
      var w := heap[d.Root()].w;
      RetimedFirstWorks(c, p, ws, kind, t, pendings, history);
      ws := SetTime(ws, w, t);
      ghost var r := RetimeRoot(d, heap, ws);
      assert Consistent(c, p.WithHeap(kind, r.v), r.ws, pendings, history);
      assert Retimed(before, r.ws, w, t) && Ws(d, r.v) == Ws(d, heap);
      heap := heap[d.Root() := Node(ws[w].at, w)];
      heap := DownHeap(d, heap, d.Root());
      SetHeap(kind, heap);
    }

    /** ev_timer_again, of a stopped timer that repeats */
    method AgainFromStopped(w: W)
      requires Valid() && w in ws && ws[w].kind == Timer && ws[w].active == 0
      modifies `timers, `timermax, `periodics, `periodicmax, `ws, `activecnt
      ensures Valid() && Members(Timer) == old(Members(Timer)) + {w} && activecnt == old(activecnt) + 1
      ensures Here() == old(Here()).(timers := timers)
      ensures Retimed(old(ws), ws, w, mnNow + old(ws[w].repeat))
    {
      hide Consistent;
      ghost var before := ws;
      RelativeTime(c, Here(), ws, Timer, w, ws[w].repeat, pendings, history);
      ws := SetTime(ws, w, ws[w].repeat);
      TimerStart(w);
    }

    /** ev_timer_again, after clear_pending, of an active timer */
    method AgainFromActive(w: W)
      requires Valid() && w in ws && ws[w].kind == Timer && ws[w].active != 0 && ws[w].pending == 0
      modifies `timers, `periodics, `ws, `activecnt, `pendings, `history
      ensures Valid() && Here() == old(Here()).(timers := timers) && pendings == old(pendings) && old(history) <= history
      ensures Members(Timer) == if old(ws[w].repeat) != 0.0 then old(Members(Timer)) else old(Members(Timer)) - {w}
      ensures old(ws[w].repeat) != 0.0 ==> Retimed(old(ws), ws, w, mnNow + old(ws[w].repeat)) && activecnt == old(activecnt)
      ensures old(ws[w].repeat) == 0.0 ==>
        Stopped(HeapOf(c, Timer), old(timers), old(ws), timers, ws, w, old(ws[w].at) - mnNow) && activecnt == old(activecnt) - 1
      ensures w in ws && ws[w].pending == 0
    {
      hide Consistent, Clear, Told, HeapRoom, ListRoom, IdleRight, QueueRoom, SameSizes, Stopped, Retimed, Ws;
      ghost var v, before := timers, ws;
      if ws[w].repeat != 0.0 {
        RetimeActive(w, mnNow + ws[w].repeat);
        RetimedFields(before, ws, w, mnNow + old(ws[w].repeat));
      } else {
        QueuesOf(c, Here(), ws, pendings, history);
        ClearTwice(pendings, ws, w);
        TimerStop(w);
        StoppedMembers(HeapOf(c, Timer), v, before, timers, ws, w, old(ws[w].at) - mnNow);
      }
    }

    /** ev_timer_again */
    method TimerAgain(w: W)
      requires Valid() && w in ws && ws[w].kind == Timer
      modifies `timers, `timermax, `periodics, `periodicmax, `ws, `activecnt, `pendings, `history
      ensures Valid() && Here() == old(Here()).(timers := timers)
      ensures Members(Timer) == if old(ws[w].repeat) != 0.0 then old(Members(Timer)) + {w} else old(Members(Timer)) - {w}
      ensures old(ws[w].repeat) != 0.0 ==> Retimed(Clear(old(pendings), old(ws), w).ws, ws, w, mnNow + old(ws[w].repeat))
      ensures old(ws[w].repeat) == 0.0 && old(ws[w].active) != 0 ==>
        Stopped(HeapOf(c, Timer), old(timers), Clear(old(pendings), old(ws), w).ws, timers, ws, w, old(ws[w].at) - mnNow)
      ensures old(ws[w].repeat) == 0.0 && old(ws[w].active) == 0 ==>
        timers == old(timers) && ws == Clear(old(pendings), old(ws), w).ws
      ensures pendings == Clear(old(pendings), old(ws), w).q
      ensures activecnt == old(activecnt) + (if old(ws[w].repeat) != 0.0 then 1 else 0) - (if old(ws[w].active) != 0 then 1 else 0)
      ensures w in ws && ws[w].pending == 0
      ensures SameSizes(old(pendings), pendings) && old(history) + [Cleared(w)] <= history
    {
      hide Consistent, Clear, Told, HeapRoom, ListRoom, IdleRight, QueueRoom, SameSizes, Stopped, Retimed, Ws;
      NotDummy(c, Here(), ws, pendings, history, w);
      ClearKeepsTimes(c, Here(), ws, pendings, history, w);
      ActiveIsMember(c, Here(), ws, pendings, history, Timer, w);
      var _ := ClearPending(w);
      if ws[w].active != 0 {
        AgainFromActive(w);
      } else if ws[w].repeat != 0.0 {
        ghost var before := ws;
        AgainFromStopped(w);
        RetimedFields(before, ws, w, mnNow + old(ws[w].repeat));
      }
    }

    /** ev_periodic_again */
    method PeriodicAgain(w: W) returns (ghost t: Tstamp)
      requires Valid() && w in ws && ws[w].kind == Periodic && ws[w].Forward()
      modifies `timers, `timermax, `periodics, `periodicmax, `ws, `activecnt, `pendings, `history
      ensures Valid() && Here() == old(Here()).(periodics := periodics)
      ensures w in Members(Periodic) && Members(Periodic) == old(Members(Periodic)) + {w}
      ensures FirstTime(old(ws[w]), rtNow, t) && Retimed(Clear(old(pendings), old(ws), w).ws, ws, w, t)
      ensures pendings == Clear(old(pendings), old(ws), w).q && history == old(history) + [Cleared(w)]
      ensures SameSizes(old(pendings), pendings)
    {
      hide Consistent, Clear, IsNext, Ws, Retimed, Told, HeapRoom, ListRoom, IdleRight, QueueRoom;
      ClearKeepsTimes(c, Here(), ws, pendings, history, w);
      ActiveIsMember(c, Here(), ws, pendings, history, Periodic, w);
      ghost var cleared, at := Clear(pendings, ws, w).ws, ws[w].at;
      RetimedToItself(cleared, w);
      PeriodicStop(w);
      ghost var stopped := ws;
      RetimedSays(cleared, stopped, w, at);
      t := PeriodicStart(w);
      RetimedTwice(cleared, stopped, ws, w, at, t);
    }

    // ---- clock jumps ----

    /** The time of a periodic after a clock jump. */
    method ChooseTimeAfterJump(w: W) returns (t: Tstamp)
      requires w in ws && ws[w].kind == Periodic && ws[w].Forward()
      ensures TimeAfterJump(ws[w], rtNow, t)
    {
      hide IsNext;
      if ws[w].custom {
        t := *;
      } else if ws[w].repeat != 0.0 {
        t := Recalc(ws[w].offset, ws[w].repeat, rtNow);
      } else {
        t := ws[w].at;
      }
    }

    /** The loop of periodics_reschedule. */
    method Recalculate() returns (ghost times: Times)
      requires IsHeap(HeapOf(c, Periodic), periodics, ws) && forall w <- Members(Periodic) :: w in ws && ws[w].Forward()
      modifies `periodics, `ws
      ensures Rescheduled(HeapOf(c, Periodic), old(periodics), old(ws), periodics, ws, times, |periodics|)
      ensures SettledTo(HeapOf(c, Periodic), old(periodics), old(ws), times, rtNow, |old(periodics)|)
    {
      hide Rescheduled, Ws, IsHeap, TimeAfterJump, SettledTo;
      ghost var v0, ws0 := periodics, ws;
      var d := HeapOf(c, Periodic);
      MembersKnown(d, periodics, ws);
      HeapStored(d, periodics, ws);
      times := OldTimes(ws);
      NothingRescheduled(d, periodics, ws, times);
      NothingSettled(d, v0, ws0, times, rtNow);
      for i := d.Root() to |periodics|
        invariant |periodics| == |v0| && ws.Keys == ws0.Keys
        invariant Rescheduled(d, v0, ws0, periodics, ws, times, i)
        invariant SettledTo(d, v0, ws0, times, rtNow, i)
      {
        TimeChosen(d, v0, ws0, periodics, ws, times, i, 0.0);
        StillDistinct(d, v0, ws0, periodics, ws, times, i);
        var w := periodics[i].w;
        var t := ChooseTimeAfterJump(w);
        TimeChosen(d, v0, ws0, periodics, ws, times, i, t);
        SettleOne(d, v0, ws0, times, rtNow, i, w, t);
        times := times[w := t];
        RescheduleOne(d, v0, ws0, periodics, ws, times, i);
        ws := SetTime(ws, w, t);
        periodics := periodics[i := Node(t, w)];
      }
    }

    /** periodics_reschedule: every periodic gets the time calculated for it; reheap then restores the order. */
    method Reschedule() returns (ghost times: Times)
      requires Valid() && forall w <- Members(Periodic) :: w in ws && ws[w].Forward()
      modifies `periodics, `ws
      ensures Valid() && Members(Periodic) == old(Members(Periodic))
      ensures NewTimes(HeapOf(c, Periodic), old(periodics), old(ws), ws, times)
      ensures forall w <- old(Members(Periodic)) :: w in times && w in old(ws) && TimeAfterJump(old(ws)[w], rtNow, times[w])
    {
      hide Consistent, Rescheduled, Ws, Rebuilt, NewTimes, Stored, IsHeap, TimeAfterJump, Told, ListRoom, QueueRoom, IdleRight, SettledTo;
      ghost var p, v0, ws0 := Here(), periodics, ws;
      var d := HeapOf(c, Periodic);
      ItsHeap(c, p, ws, pendings, history, Periodic);
      times := Recalculate();
      AllSettled(d, v0, ws0, times, rtNow);
      RescheduledWorks(c, p, ws0, Periodic, periodics, ws, times, pendings, history);
      ghost var r := Rebuilt(d, periodics, ws, |periodics| - d.Root());
      assert Consistent(c, p.WithHeap(Periodic, r.v), r.ws, pendings, history) && NewTimes(d, v0, ws0, r.ws, times);
      periodics := ReHeap(d, periodics);
    }

    /** timers_reschedule: all timers move by the same amount and stay in order. */
    method TimersReschedule(adjust: Tstamp)
      requires Valid()
      modifies `timers, `ws
      ensures Valid() && Members(Timer) == old(Members(Timer))
      ensures NewTimes(HeapOf(c, Timer), old(timers), old(ws), ws, Moved(old(ws), adjust))
    {
      hide Consistent, Rescheduled, Ws, NewTimes, Moved, IsHeap;
      ghost var p, v0, ws0, times := Here(), timers, ws, Moved(ws, adjust);
      var d := HeapOf(c, Timer);
      ItsHeap(c, p, ws, pendings, history, Timer);
      MembersKnown(d, timers, ws);
      MovedKnown(ws, adjust);
      NothingRescheduled(d, timers, ws, times);
      for i := d.Root() to |timers|
        invariant |timers| == |v0|
        invariant Rescheduled(d, v0, ws0, timers, ws, times, i)
      {
        RescheduleOne(d, v0, ws0, timers, ws, times, i);
        var w := timers[i].w;
        StillToMove(d, v0, ws0, timers, ws, i, adjust);
        ws := SetTime(ws, w, ws[w].at + adjust);
        timers := timers[i := Node(ws[w].at, w)];
      }
      MovedWorks(c, p, ws0, Timer, timers, ws, adjust, pendings, history);
    }

    // ---- idle, prepare, check, fork, cleanup and async watchers ----

    /** The active watchers of a kind, in the order of its array. */
    function Filled(kind: Kind): seq<W>
      reads `arrays
    {
      FilledIn(arrays, kind)
    }

    /** array_needsize for the array of a kind, the new part left as it comes */
    method NeedSlots(kind: Kind, n: nat)
      requires Valid() && InArrays(kind)
      modifies `arrays
      ensures Valid() && kind in arrays && n <= |arrays[kind].entries|
      ensures Filled(kind) == old(Filled(kind)) && arrays[kind].cnt == |Filled(kind)|
      ensures forall k | k != kind :: Filled(k) == old(Filled(k))
    {
      hide Consistent, Told, HeapRoom, ListRoom, QueueRoom, Idles;
      ItsArray(c, Here(), ws, pendings, history, kind);
      var a := arrays[kind];
      if n > |a.entries| {
        var size := ArraySize.NextSize(8, |a.entries|, n);
        assert |seq(size - |a.entries|, _ => DUMMY)| == size - |a.entries|;
        var raw: seq<W> :| |raw| == size - |a.entries|;
        ArrayRoomWorks(c, Here(), ws, pendings, history, kind, raw);
        A.MoreRoom(kind, a, ws, raw);
        IdlesChange(arrays, kind, A.Slots(a.entries + raw, a.cnt), NUMPRI);
        arrays := arrays[kind := A.Slots(a.entries + raw, a.cnt)];
      }
    }

    /** A watcher is appended to its array. */
    method PutIn(kind: Kind, w: W)
      requires kind in arrays && InArrays(kind) && IdleRight() && w in ws && arrays[kind].cnt < |arrays[kind].entries|
      modifies `arrays, `idleall, `ws, `activecnt
      ensures activecnt == old(activecnt) + 1 && IdleRight() && ws == A.Numbered(old(ws), w, old(arrays[kind].cnt) + 1)
      ensures arrays == old(arrays[kind := A.StartAt(arrays[kind], w)])
    {
      hide Idles, A.Numbered;
      var a := arrays[kind];
      IdlesChange(arrays, kind, A.Slots(a.entries[a.cnt := w], a.cnt + 1), NUMPRI);
      if kind.Idle? {
        idleall := idleall + 1;
      }
      activecnt := activecnt + 1;
      ws := A.Numbered(ws, w, a.cnt + 1);
      arrays := arrays[kind := A.Slots(a.entries[a.cnt := w], a.cnt + 1)];
    }

    /** ev_idle_start, ev_prepare_start and the like, of a stopped watcher */
    method StartInArray(kind: Kind, w: W)
      requires Valid() && InArrays(kind) && w in ws && ws[w].kind == kind && ws[w].active == 0 && w != DUMMY
      modifies `arrays, `idleall, `ws, `activecnt
      ensures Valid() && activecnt == old(activecnt) + 1 && ws == A.Numbered(old(ws), w, |Filled(kind)|)
      ensures Filled(kind) == old(Filled(kind)) + [w] && forall k | k != kind :: Filled(k) == old(Filled(k))
    {
      hide Consistent, Told, HeapRoom, ListRoom, QueueRoom, IdleRight, Idles, InArrays, A.Numbered;
      ItsArray(c, Here(), ws, pendings, history, kind);
      NeedSlots(kind, arrays[kind].cnt + 1);
      ArrayStartWorks(c, Here(), ws, pendings, history, kind, w);
      PutIn(kind, w);
    }

    method ArrayStart(w: W)
      requires Valid() && w in ws && InArrays(ws[w].kind) && w != DUMMY
      modifies `arrays, `idleall, `ws, `activecnt
      ensures Valid()
      ensures old(ws[w].active) != 0 ==> unchanged(this)
      ensures old(ws[w].active) == 0 ==>
        && activecnt == old(activecnt) + 1 && Filled(old(ws[w].kind)) == old(Filled(ws[w].kind)) + [w]
        && (forall k | k != old(ws[w].kind) :: Filled(k) == old(Filled(k)))
        && ws == A.Numbered(old(ws), w, |Filled(old(ws[w].kind))|)
    {
      hide Consistent, Told, HeapRoom, ListRoom, QueueRoom, Idles, A.Numbered;
      if ws[w].active == 0 {
        StartInArray(ws[w].kind, w);
      }
    }

    /** The last watcher takes the place of one that is stopped. */
    method TakeOut(kind: Kind, w: W)
      requires kind in arrays && InArrays(kind) && IdleRight() && w in ws && arrays[kind].cnt <= |arrays[kind].entries|
      requires 0 < ws[w].active <= arrays[kind].cnt && arrays[kind].entries[arrays[kind].cnt - 1] in ws
      modifies `arrays, `idleall, `ws, `activecnt
      ensures activecnt == old(activecnt) - 1 && IdleRight() && ws == A.Unplaced(old(arrays[kind]), old(ws), w)
      ensures arrays == old(arrays[kind := A.StopAt(arrays[kind], ws[w].active)])
    {
      hide Idles, A.Numbered, A.Unplaced;
      var a, k := arrays[kind], ws[w].active;
      var b := A.Slots(a.entries[k - 1 := a.entries[a.cnt - 1]], a.cnt - 1);
      IdlesChange(arrays, kind, b, NUMPRI);
      if kind.Idle? {
        idleall := idleall - 1;
      }
      arrays := arrays[kind := b];
      A.UnplacedSteps(a, ws, w);
      ws := A.Numbered(ws, b.entries[k - 1], k);
      activecnt := activecnt - 1;
      ws := A.Numbered(ws, w, 0);
    }

    /** ev_idle_stop, ev_prepare_stop and the like, of an active watcher that is not pending */
    method StopInArray(kind: Kind, w: W)
      requires Valid() && InArrays(kind) && w in ws && ws[w].kind == kind && ws[w].active != 0
      modifies `arrays, `idleall, `ws, `activecnt
      ensures Valid() && activecnt == old(activecnt) - 1
      ensures 0 < old(ws[w].active) <= |old(Filled(kind))| && old(Filled(kind))[old(ws[w].active) - 1] == w
      ensures Filled(kind) == A.Closed(old(Filled(kind)), old(ws[w].active) - 1)
      ensures forall k | k != kind :: Filled(k) == old(Filled(k))
      ensures A.Renumbered(kind, old(ws), ws) && w in ws && ws[w].active == 0 && ws[w].pending == old(ws[w].pending)
    {
      hide Consistent, Told, HeapRoom, ListRoom, QueueRoom, IdleRight, Idles, InArrays,
           A.Numbered, A.Unplaced, A.Renumbered, A.IsArray, A.Closed, A.InUse;
      ItsArray(c, Here(), ws, pendings, history, kind);
      ArrayStopWorks(c, Here(), ws, pendings, history, kind, w);
      A.UnplacedRenumbers(kind, arrays[kind], ws, w);
      A.UnplacedAt(arrays[kind], ws, w, w);
      A.StopCloses(arrays[kind], ws[w].active);
      TakeOut(kind, w);
    }

    method ArrayStop(w: W)
      requires Valid() && w in ws && InArrays(ws[w].kind) && w != DUMMY
      modifies `arrays, `idleall, `ws, `activecnt, `pendings, `history
      ensures Valid() && w in ws && ws[w].active == 0 && ws[w].pending == 0
      ensures pendings == Clear(old(pendings), old(ws), w).q && history == old(history) + [Cleared(w)]
      ensures old(ws[w].active) == 0 ==>
        arrays == old(arrays) && activecnt == old(activecnt) && ws == Clear(old(pendings), old(ws), w).ws
      ensures old(ws[w].active) != 0 ==>
        && activecnt == old(activecnt) - 1
        && 0 < old(ws[w].active) <= |old(Filled(ws[w].kind))|
        && Filled(old(ws[w].kind)) == A.Closed(old(Filled(ws[w].kind)), old(ws[w].active) - 1)
        && (forall k | k != old(ws[w].kind) :: Filled(k) == old(Filled(k)))
        && A.Renumbered(old(ws[w].kind), Clear(old(pendings), old(ws), w).ws, ws)
      ensures SameSizes(old(pendings), pendings)
    {
      hide Consistent, Told, HeapRoom, ListRoom, QueueRoom, Idles, Clear, A.Renumbered, A.Closed;
      ClearKeepsTimes(c, Here(), ws, pendings, history, w);
      var _ := ClearPending(w);
      if ws[w].active != 0 {
        StopInArray(ws[w].kind, w);
      }
    }

    /** queue_events for the watchers of a kind: all active ones, and only they, are owed the events more. */
    method QueueEvents(kind: Kind, events: Events)
      requires Valid() && InArrays(kind)
      modifies `pendings, `pendingmax, `ws, `pendingpri, `history
      ensures Valid() && OnlyPending(old(ws), ws) && history == old(history) + Feeds(Each(Filled(kind), events))
      ensures OwedMore(old(history), history, Filled(kind), events)
    {
      hide Consistent, IsPending, OnlyPending, Told, HeapRoom, ListRoom, QueueRoom, IdleRight, Feed, Feeds, OwedMore, A.IsArray, InArrays;
      ghost var h0, ws0, list := history, ws, Filled(kind);
      ArrayMembers(kind);
      NothingQueued(ws, h0);
      var i := 0;
      while i < arrays[kind].cnt
        invariant i <= |list| && Valid() && OnlyPending(ws0, ws)
        invariant history == h0 + Feeds(Each(list[..i], events))
      {
        ghost var before := ws;
        OnlyPendingKeys(ws0, ws);
        OneFeedMore(h0, Each(list[..i], events), list[i], events);
        EachOneMore(list, i, events);
        FeedEvent(arrays[kind].entries[i], events);
        OnlyPendingTwice(ws0, before, ws);
        i := i + 1;
      }
      assert list[..i] == list;
      EachOwed(h0, list, events);
    }

    lemma ArrayMembers(kind: Kind)
      requires Valid() && InArrays(kind)
      ensures kind in arrays && |Filled(kind)| == arrays[kind].cnt <= |arrays[kind].entries|
      ensures forall i :: 0 <= i < |Filled(kind)| ==> Filled(kind)[i] == arrays[kind].entries[i]
      ensures forall w <- Filled(kind) :: w in ws && w != DUMMY
      ensures Distinct(Filled(kind))
    {
      hide Consistent;
      ItsArray(c, Here(), ws, pendings, history, kind);
    }

    /** idle_reify */
    method IdleReify() returns (ghost fed: seq<W>)
      requires Valid()
      modifies `pendings, `pendingmax, `ws, `pendingpri, `history
      ensures Valid() && OnlyPending(old(ws), ws) && history == old(history) + Feeds(Each(fed, EV_IDLE))
      ensures OwedMore(old(history), history, fed, EV_IDLE) && (old(Forwards()) ==> Forwards())
      ensures forall p: nat :: IdleTurn(arrays, old(pendings), p) ==> fed == Filled(Idle(p))
      ensures fed != [] ==> exists p: nat :: IdleTurn(arrays, old(pendings), p)
      ensures forall w <- fed :: w in ws && w != DUMMY
    {
      hide Valid, OnlyPending, Feeds, OwedMore, GoForward, IdleTurn;
      NothingQueued(ws, history);
      NothingOwed(history, EV_IDLE);
      fed := [];
      if idleall == 0 {
        NoneIdle();
        return;
      }
      QueuesRight();
      var pri := NUMPRI;
      while pri > 0
        invariant 0 <= pri <= NUMPRI && Valid() && unchanged(this)
        invariant forall r: nat | pri <= r < NUMPRI :: pendings[r] == [] && Filled(Idle(r)) == []
        invariant pri == 0 ==> forall p: nat :: !IdleTurn(arrays, pendings, p)
      {
        pri := pri - 1;
        if |pendings[pri]| > 0 {
          NoTurn(arrays, pendings, pri);
          break;
        }
        ArrayMembers(Idle(pri));
        if arrays[Idle(pri)].cnt > 0 {
          TurnIsOnly(arrays, pendings, pri);
          fed := Filled(Idle(pri));
          QueueEvents(Idle(pri), EV_IDLE);
          ArrayMembers(Idle(pri));
          PendingForward(Members(Timer), old(ws), ws);
          PendingForward(Members(Periodic), old(ws), ws);
          break;
        }
        if pri == 0 {
          NoneToCall(arrays, pendings);
        }
      }
    }

    lemma QueuesRight()
      requires Valid()
      ensures IsPending(pendings, ws) && |pendings| == NUMPRI
    {
    }

    lemma NoneIdle()
      requires Valid() && idleall == 0
      ensures forall p: nat :: !IdleTurn(arrays, pendings, p)
    {
      forall p: nat ensures !IdleTurn(arrays, pendings, p) {
        if p < NUMPRI {
          IdlesBound(arrays, p, NUMPRI);
        }
      }
    }

    // ---- io watchers ----

    /** array_needsize (anfds), the new part zeroed */
    method NeedAnfds(cnt: nat)
      requires Valid()
      modifies `anfds, `lists
      ensures Valid() && cnt <= |anfds| && old(anfds) <= anfds
    {
      hide Consistent, HeapRoom, ListRoom, QueueRoom, IdleRight;
      if cnt > |anfds| {
        var max := ArraySize.NextSize(F.SIZEOF_ANFD, |anfds|, cnt);
        var n := max - |anfds|;
        GrownWorks(c, Here(), ws, pendings, history, n);
        anfds, lists := anfds + seq(n, _ => F.NO_ANFD), lists + seq(n, _ => []);
        assert forall f: nat :: Kernel(f) == old(Kernel(f));
      }
    }

    /** fd_change */
    method FdChange(fd: nat, flags: F.Reify)
      requires ListRoom() && fd < |anfds|
      modifies `anfds, `fdchanges, `fdchangemax
      ensures ListRoom() && anfds == F.Flagged(old(anfds), fd, flags) && fdchanges == Changed(old(anfds), old(fdchanges), fd)
    {
      var reify := anfds[fd].reify;
      anfds := anfds[fd := anfds[fd].(reify := anfds[fd].reify.Or(flags))];
      if !reify.Any() {
        if |fdchanges| + 1 > fdchangemax {
          fdchangemax := ArraySize.NextSize(4, fdchangemax, |fdchanges| + 1);
        }
        fdchanges := fdchanges + [fd];
      }
    }

    /** The steps of ev_io_start, when anfds is large enough. */
    method Attach(w: W)
      requires ListRoom() && w in ws && 0 <= ws[w].io.fd < |anfds|
      modifies `anfds, `fdchanges, `fdchangemax, `ws, `activecnt
      ensures ListRoom() && activecnt == old(activecnt) + 1
      ensures ws == IoStarted(old(ws), w, old(anfds[ws[w].io.fd].head))
      ensures anfds == old(F.Flagged(F.Headed(anfds, ws[w].io.fd, To(w)), ws[w].io.fd, F.Reify(true, ws[w].io.fdset)))
      ensures fdchanges == old(Changed(anfds, fdchanges, ws[w].io.fd))
    {
      var fd: nat := ws[w].io.fd;
      activecnt := activecnt + 1;
      ws := ws[w := ws[w].(active := 1, io := ws[w].io.(next := anfds[fd].head))];
      anfds := anfds[fd := anfds[fd].(head := To(w))];
      FdChange(fd, F.Reify(true, ws[w].io.fdset));
      ws := ws[w := ws[w].(io := ws[w].io.(fdset := false))];
    }

    method IoStartStopped(w: W)
      requires Valid() && w in ws && ws[w].kind == Io && ws[w].active == 0 && 0 <= ws[w].io.fd < |anfds|
      modifies `anfds, `lists, `fdchanges, `fdchangemax, `ws, `activecnt
      ensures Valid() && activecnt == old(activecnt) + 1 && ws == IoStarted(old(ws), w, old(anfds[ws[w].io.fd].head))
      ensures |lists| == |old(lists)| == |anfds| == |old(anfds)|
      ensures lists == old(lists)[old(ws[w].io.fd) := [w] + old(lists)[old(ws[w].io.fd)]]
    {
      hide Consistent, HeapRoom, QueueRoom, IdleRight, IoStarted, Changed, F.Listed;
      var fd: nat := ws[w].io.fd;
      ghost var p, r, before := Here(), F.Reify(true, ws[w].io.fdset), ws;
      IoStartWorks(c, p, ws, pendings, history, w, r);
      lists := lists[fd := [w] + lists[fd]];
      Attach(w);
      assert Here() == p.(anfds := F.Flagged(F.Headed(p.anfds, fd, To(w)), fd, r), lists := p.lists[fd := [w] + p.lists[fd]],
                          changes := Changed(p.anfds, p.changes, fd));
      assert forall f: nat :: Kernel(f) == old(Kernel(f));
    }

    /** ev_io_start */
    method IoStart(w: W)
      requires Valid() && w in ws && ws[w].kind == Io && ws[w].io.fd >= 0
      modifies `anfds, `lists, `fdchanges, `fdchangemax, `ws, `activecnt
      ensures Valid()
      ensures old(ws[w].active) != 0 ==> unchanged(this)
      ensures old(ws[w].active) == 0 ==>
        && activecnt == old(activecnt) + 1 && ws.Keys == old(ws.Keys)
        && (forall x <- ws :: x != w ==> ws[x] == old(ws)[x])
        && ws[w] == old(ws[w]).(active := 1, io := old(ws[w].io).(fdset := false, next := ws[w].io.next))
    {
      hide Consistent, HeapRoom, QueueRoom, IdleRight, ListRoom, Told;
      if ws[w].active != 0 {
        return;
      }
      NeedAnfds(ws[w].io.fd + 1);
      IoStartStopped(w);
    }

    /** wlist_del, on a list that holds w at p */
    method WlistDel(fd: nat, w: W, ghost p: nat)
      requires fd < |anfds| == |lists| && F.IsList(F.Ios(ws), anfds[fd].head, lists[fd]) && p < |lists[fd]| && lists[fd][p] == w
      requires forall v <- lists[fd] :: v in ws && v in F.Ios(ws)
      modifies `anfds, `ws
      ensures ws == if p == 0 then old(ws) else Linked(old(ws), lists[fd][p - 1], old(ws)[w].io.next)
      ensures anfds == F.Headed(old(anfds), fd, F.UnlinkedHead(F.Ios(old(ws)), old(anfds[fd].head), lists[fd], p))
    {
      hide F.IsList, F.At, F.Ios;
      F.HeadOf(F.Ios(ws), anfds[fd].head, lists[fd]);
      F.AtEnd(lists[fd], 0);
      var at, cur := Null, anfds[fd].head;     // at is the watcher whose next is *head, if any
      ghost var i: nat := 0;
      while cur != Null
        invariant anfds == old(anfds) && ws == old(ws) && lists == old(lists)
        invariant i <= p && cur == F.At(lists[fd], i) && cur != Null
        invariant at == if i == 0 then Null else To(lists[fd][i - 1])
        decreases p - i
      {
        F.NextOf(F.Ios(ws), anfds[fd].head, lists[fd], i);
        IoViewOf(ws, lists[fd][i]);
        if cur == To(w) {
          if at == Null {
            anfds := anfds[fd := anfds[fd].(head := ws[w].io.next)];
          } else {
            ws := Linked(ws, at.w, ws[w].io.next);
          }
          break;
        }
        at, cur := cur, ws[cur.w].io.next;
        i := i + 1;
        F.AtEnd(lists[fd], i);
      }
    }

    /** The steps of ev_io_stop, of an active watcher. */
    method Release(fd: nat, w: W, ghost p: nat)
      requires ListRoom() && fd < |anfds| == |lists| && F.IsList(F.Ios(ws), anfds[fd].head, lists[fd])
      requires p < |lists[fd]| && lists[fd][p] == w && forall v <- lists[fd] :: v in ws && v in F.Ios(ws)
      modifies `anfds, `fdchanges, `fdchangemax, `ws, `activecnt
      ensures ListRoom() && ws == IoStopped(old(ws), lists[fd], p) && activecnt == old(activecnt) - 1
      ensures anfds == F.Flagged(F.Headed(old(anfds), fd, F.UnlinkedHead(F.Ios(old(ws)), old(anfds[fd].head), lists[fd], p)),
                                 fd, F.Reify(true, false))
      ensures fdchanges == Changed(old(anfds), old(fdchanges), fd)
    {
      hide F.IsList, F.Ios, F.UnlinkedHead;
      WlistDel(fd, w, p);
      activecnt := activecnt - 1;
      ws := ws[w := ws[w].(active := 0)];
      FdChange(fd, F.Reify(true, false));
    }

    /** Where an active watcher is. */
    lemma ActiveListed(w: W) returns (fd: nat, p: nat)
      requires Valid() && w in ws && ws[w].kind == Io && ws[w].active != 0
      ensures fd < |anfds| == |lists| && p < |lists[fd]| && lists[fd][p] == w && ws[w].io.fd == fd
      ensures F.IsList(F.Ios(ws), anfds[fd].head, lists[fd])
      ensures forall v <- lists[fd] :: v in ws && v in F.Ios(ws)
    {
      hide Consistent;
      ItsFds(c, Here(), ws, pendings, history);
      IoViewOf(ws, w);
      fd := ws[w].io.fd;
      ListedIos(anfds, lists, ws, fd);
      p :| p < |lists[fd]| && lists[fd][p] == w;
    }

    /** The same with the list, and what the backend was told is still right. */
    method Unlist(fd: nat, w: W, ghost p: nat)
      requires ListRoom() && Told() && fd < |anfds| == |lists| && F.IsList(F.Ios(ws), anfds[fd].head, lists[fd])
      requires p < |lists[fd]| && lists[fd][p] == w && forall v <- lists[fd] :: v in ws && v in F.Ios(ws)
      modifies `anfds, `lists, `fdchanges, `fdchangemax, `ws, `activecnt
      ensures ListRoom() && Told() && activecnt == old(activecnt) - 1 && ws == IoStopped(old(ws), old(lists)[fd], p)
      ensures |anfds| == |old(anfds)|
      ensures var headed := F.Headed(old(anfds), fd, F.UnlinkedHead(F.Ios(old(ws)), old(anfds[fd].head), old(lists)[fd], p));
              Here() == old(Here()).(anfds := F.Flagged(headed, fd, F.Reify(true, false)),
                                     lists := old(lists)[fd := F.Cut(old(lists)[fd], p)],
                                     changes := Changed(old(anfds), old(fdchanges), fd))
    {
      hide F.IsList, F.Ios, F.UnlinkedHead, F.Cut, IoStopped, Changed;
      Release(fd, w, p);
      lists := lists[fd := F.Cut(lists[fd], p)];
      assert forall f: nat :: Kernel(f) == old(Kernel(f));
    }

    method IoStopActive(w: W)
      requires Valid() && w in ws && ws[w].kind == Io && ws[w].active != 0
      modifies `anfds, `lists, `fdchanges, `fdchangemax, `ws, `activecnt
      ensures Valid() && activecnt == old(activecnt) - 1 && ws.Keys == old(ws.Keys) && |anfds| == |old(anfds)|
      ensures forall x <- ws :: ws[x] == old(ws)[x].(active := if x == w then 0 else old(ws)[x].active,
                                                     io := old(ws)[x].io.(next := ws[x].io.next))
    {
      hide Consistent, Told, HeapRoom, QueueRoom, ListRoom, IdleRight, IoStopped, Changed, F.Listed, F.Ios, F.IsList,
           F.UnlinkedHead, F.Cut, F.Headed, F.Flagged;
      ghost var f, i := ActiveListed(w);
      var fd: nat := ws[w].io.fd;
      IoStopWorks(c, Here(), ws, pendings, history, fd, i, F.Reify(true, false));
      IoStoppedFields(ws, lists[fd], i);
      Unlist(fd, w, i);
    }

    /** ev_io_stop */
    method IoStop(w: W)
      requires Valid() && w in ws && ws[w].kind == Io
      modifies `anfds, `lists, `fdchanges, `fdchangemax, `ws, `activecnt, `pendings, `history
      ensures Valid() && ws.Keys == old(ws.Keys) && w in ws && ws[w].active == 0 && ws[w].pending == 0 && |anfds| == |old(anfds)|
      ensures pendings == Clear(old(pendings), old(ws), w).q && history == old(history) + [Cleared(w)]
      ensures activecnt == old(activecnt) - (if old(ws[w].active) != 0 then 1 else 0)
      ensures forall x <- ws :: ws[x] == old(ws)[x].(active := if x == w then 0 else old(ws)[x].active,
                                                     pending := if x == w then 0 else old(ws)[x].pending,
                                                     io := old(ws)[x].io.(next := ws[x].io.next))
      ensures SameSizes(old(pendings), pendings)
    {
      hide Consistent, HeapRoom, QueueRoom, IdleRight, ListRoom, Told, Clear;
      NotDummy(c, Here(), ws, pendings, history, w);
      QueuesOf(c, Here(), ws, pendings, history);
      ClearFields(pendings, ws, w);
      var _ := ClearPending(w);
      if ws[w].active != 0 {
        IoStopActive(w);
      }
    }

    /** backend_modify */
    method BackendModify(fd: nat, oev: Mask, nev: Mask)
      requires poll.Valid() && select.Valid() && oev == Kernel(fd)
      modifies poll, select
      ensures poll.Valid() && select.Valid()
      ensures forall f: nat :: Kernel(f) == if f == fd then nev else old(Kernel(f))
    {
      if usesPoll {
        poll.Modify(fd, oev, nev);
      } else {
        select.Modify(fd, oev, nev);
      }
    }

    /** The events that the watchers of an fd want. */
    method Wanted(fd: nat) returns (events: Mask)
      requires fd < |anfds| == |lists| && F.IsList(F.Ios(ws), anfds[fd].head, lists[fd])
      requires forall v <- lists[fd] :: v in ws && v in F.Ios(ws)
      ensures events == F.Union(F.Ios(ws), lists[fd])
    {
      hide F.IsList, F.Union, F.At, F.Ios;
      ghost var list := lists[fd];
      F.HeadOf(F.Ios(ws), anfds[fd].head, list);
      events := NONE;
      var w := anfds[fd].head;
      ghost var i: nat := 0;
      F.UnionFrom(F.Ios(ws), list, 0);
      while w != Null
        invariant i <= |list| && w == F.At(list, i)
        invariant events.Or(F.Union(F.Ios(ws), list[i..])) == F.Union(F.Ios(ws), list)
        decreases |list| - i
      {
        F.AtEnd(list, i);
        F.NextOf(F.Ios(ws), anfds[fd].head, list, i);
        F.UnionFrom(F.Ios(ws), list, i);
        IoViewOf(ws, list[i]);
        events := events.Or(ws[w.w].io.events);
        w := ws[w.w].io.next;
        i := i + 1;
      }
      F.AtEnd(list, i);
      F.UnionFrom(F.Ios(ws), list, i);
    }

    /** The body of the loop in fd_reify, for the first of the fds still to come. */
    method ReifyOne(fd: nat, ghost rest: seq<nat>)
      requires Told() && Consistent(c, Here().(changes := rest), ws, pendings, history) && rest != [] && rest[0] == fd
      modifies `anfds, poll, select
      ensures Told() && Consistent(c, Here().(changes := rest[1..]), ws, pendings, history)
    {
      hide Consistent, F.IsList, F.Union, F.Ios;
      ghost var p := Here().(changes := rest);
      ReifiedWorks(c, p, ws, pendings, history);
      ItsFds(c, p, ws, pendings, history);
      ListedIos(anfds, lists, ws, fd);
      var oevents, oreify := anfds[fd].events, anfds[fd].reify;
      var events := Wanted(fd);
      anfds := anfds[fd := anfds[fd].(reify := F.NO_REIFY, events := events)];
      assert Here().(changes := rest[1..]) == p.(anfds := anfds, changes := rest[1..]);
      assert forall f: nat :: Kernel(f) == old(Kernel(f));
      if oevents != events {
        oreify := F.Reify(false, true);
      }
      if oreify.fdset {
        BackendModify(fd, oevents, events);
      }
    }

    /** The backend is asked for just what the active watchers want. */
    ghost predicate InStep()
      reads `ws, poll, select
    {
      forall f: nat ::
        && (Kernel(f).read <==> exists w <- ws :: Watches(ws, w, f) && ws[w].io.events.read)
        && (Kernel(f).write <==> exists w <- ws :: Watches(ws, w, f) && ws[w].io.events.write)
    }

    /** fd_reify: everything the watchers want is passed to the backend. */
    method FdReify()
      requires Valid()
      modifies `anfds, `fdchanges, poll, select
      ensures Valid() && fdchanges == []
      ensures InStep()
    {
      hide Consistent, HeapRoom, QueueRoom, IdleRight, Told;
      var i := 0;
      assert Here().(changes := fdchanges[i..]) == Here();
      while i < |fdchanges|
        invariant 0 <= i <= |fdchanges| && fdchanges == old(fdchanges)
        invariant Told() && Consistent(c, Here().(changes := fdchanges[i..]), ws, pendings, history)
      {
        ReifyOne(fdchanges[i], fdchanges[i..]);
        assert fdchanges[i..][1..] == fdchanges[i + 1..];
        i := i + 1;
      }
      assert fdchanges[i..] == [];
      ghost var p := Here().(changes := []);
      fdchanges := [];
      assert Here() == p;
      InSync();
    }

    /** With no fd waiting for fd_reify, backend and watchers agree. */
    lemma InSync()
      requires Valid() && fdchanges == []
      ensures InStep()
    {
      hide Consistent, F.Filed, F.Tracked, F.Ios, F.Union;
      ItsFds(c, Here(), ws, pendings, history);
      forall f: nat
        ensures Kernel(f).read <==> exists w <- ws :: Watches(ws, w, f) && ws[w].io.events.read
        ensures Kernel(f).write <==> exists w <- ws :: Watches(ws, w, f) && ws[w].io.events.write
      {
        NotedWanted(anfds, lists, ws, f);
      }
    }

    /** One watcher of an fd is fed, if there is something for it. */
    method FeedHit(w: W, ev: Mask, ghost ws0: Store, ghost h0: seq<Event>, ghost hits: seq<(W, Mask)>)
      requires Valid() && w in ws && ws[w].kind == Io && OnlyPending(ws0, ws) && F.Ios(ws) == F.Ios(ws0)
      requires history == h0 + Feeds(Bitted(hits))
      modifies `pendings, `pendingmax, `ws, `pendingpri, `history
      ensures Valid() && OnlyPending(ws0, ws) && F.Ios(ws) == F.Ios(ws0)
      ensures history == h0 + Feeds(Bitted(if ev.Any() then hits + [(w, ev)] else hits))
      ensures pendingpri == NUMPRI - 1 || unchanged(`pendings, `pendingpri)
    {
      hide Consistent, IsPending, OnlyPending, Told, HeapRoom, ListRoom, QueueRoom, IdleRight, Feed, Feeds, F.Ios, Bitted, Bits;
      if ev.Any() {
        ghost var before := ws;
        BittedOneMore(hits, w, ev);
        OneFeedMore(h0, Bitted(hits), w, Bits(ev));
        NotDummy(c, Here(), ws, pendings, history, w);
        FeedEvent(w, Bits(ev));
        IosKept(before, ws);
        OnlyPendingTwice(ws0, before, ws);
      }
    }

    /** fd_event_nocheck: every watcher of the fd that waits for one of the events is fed those it waits for. */
    method FdEventNocheck(fd: nat, revents: Mask)
      requires Valid() && fd < |anfds|
      modifies `pendings, `pendingmax, `ws, `pendingpri, `history
      ensures Valid() && OnlyPending(old(ws), ws) && |lists| == |anfds| && forall v <- lists[fd] :: v in F.Ios(old(ws))
      ensures history == old(history) + Feeds(Bitted(F.Hits(F.Ios(old(ws)), lists[fd], revents)))
      ensures pendingpri == NUMPRI - 1 || unchanged(`pendings, `pendingpri)
    {
      hide Consistent, IsPending, OnlyPending, Told, HeapRoom, ListRoom, QueueRoom, IdleRight, Feed, Feeds,
           F.Hits, F.Ios, F.IsList, F.At, Owed, OwedByFd, FdsRight, Bitted, Bits, Watches, HitsUpTo;
      ghost var h0, ws0, list := history, ws, if fd < |lists| then lists[fd] else [];
      ItsFds(c, Here(), ws, pendings, history);
      ListedIos(anfds, lists, ws, fd);
      F.HeadOf(F.Ios(ws), anfds[fd].head, list);
      NoHitsYet(ws, list, revents);
      NothingHit(ws, h0);
      ghost var hits: seq<(W, Mask)> := [];
      var w := anfds[fd].head;
      ghost var i: nat := 0;
      while w != Null
        invariant i <= |list| && w == F.At(list, i) && lists[fd] == list
        invariant Valid() && OnlyPending(ws0, ws) && history == h0 + Feeds(Bitted(hits))
        invariant pendingpri == NUMPRI - 1 || unchanged(`pendings, `pendingpri)
        invariant F.Ios(ws) == F.Ios(ws0) && HitsUpTo(ws0, list, i, revents, hits)
        decreases |list| - i
      {
        HitStep(ws, ws0, anfds[fd].head, list, i, revents, hits);
        var ev, next := ws[w.w].io.events.And(revents), ws[w.w].io.next;
        FeedHit(w.w, ev, ws0, h0, hits);
        hits := if ev.Any() then hits + [(w.w, ev)] else hits;
        w := next;
        i := i + 1;
      }
      AllHits(ws0, list, i, revents, hits);
    }

    /** fd_event: nothing for an fd whose interest changed since the backend was told */
    method FdEvent(fd: nat, revents: Mask)
      requires Valid() && fd < |anfds|
      modifies `pendings, `pendingmax, `ws, `pendingpri, `history
      ensures Valid() && OnlyPending(old(ws), ws) && old(history) <= history
      ensures anfds[fd].reify.Any() ==> unchanged(this)
      ensures !anfds[fd].reify.Any() ==> OwedByFd(old(history), history, ws, fd, revents)
    {
      hide Consistent, IsPending, OnlyPending, Told, HeapRoom, ListRoom, QueueRoom, IdleRight,
           F.Hits, F.Ios, Owed, Bitted, Bits, Watches;
      NothingHit(ws, history);
      if !anfds[fd].reify.Any() {
        ghost var h0, ws0 := history, ws;
        ItsFds(c, Here(), ws, pendings, history);
        FdEventNocheck(fd, revents);
        HitsOwed(anfds, lists, fdchanges, ws0, ws, fd, revents, h0);
      }
    }

    /** ev_feed_fd_event */
    method FeedFdEvent(fd: int, revents: Mask)
      requires Valid()
      modifies `pendings, `pendingmax, `ws, `pendingpri, `history
      ensures Valid() && OnlyPending(old(ws), ws) && old(history) <= history
      ensures pendingpri == NUMPRI - 1 || unchanged(`pendings, `pendingpri)
      ensures OwedByFd(old(history), history, ws, fd, revents)
    {
      hide Consistent, IsPending, OnlyPending, Told, HeapRoom, ListRoom, QueueRoom, IdleRight,
           F.Hits, F.Ios, Owed, Bitted, Bits;
      NothingHit(ws, history);
      if 0 <= fd < |anfds| {
        ghost var h0, ws0 := history, ws;
        ItsFds(c, Here(), ws, pendings, history);
        FdEventNocheck(fd, revents);
        HitsOwed(anfds, lists, fdchanges, ws0, ws, fd, revents, h0);
      } else {
        WatchedFds(fd);
      }
    }

    lemma WatchedFds(fd: int)
      requires Valid()
      ensures forall w <- ws :: Watches(ws, w, fd) ==> 0 <= fd < |anfds|
    {
      hide Consistent;
      forall w | w in ws && Watches(ws, w, fd) ensures 0 <= fd < |anfds| {
        var _, _ := ActiveListed(w);
      }
    }

    /** fd_kill: the watchers of an unusable fd are stopped, and they and nobody else are told. */
    method FdKill(fd: nat)
      requires Valid() && fd < |anfds|
      modifies `anfds, `lists, `fdchanges, `fdchangemax, `ws, `activecnt, `pendings, `pendingmax, `pendingpri, `history
      ensures Valid() && ws.Keys == old(ws.Keys) && Watching(ws, fd) == {}
      ensures OwedByKill(old(history), history, Watching(old(ws), fd))
    {
      hide Consistent, IsPending, OnlyPending, Told, HeapRoom, ListRoom, QueueRoom, IdleRight, Feed, Clear, Owed, OwedByKill,
           Watching, FdsRight;
      ghost var killed: set<W>, ws0 := {}, ws;
      NoneKilled(history);
      ItsFds(c, Here(), ws, pendings, history);
      HeadWatches(anfds, lists, fdchanges, ws, fd);
      while anfds[fd].head != Null
        invariant Valid() && fd < |anfds| && ws.Keys == ws0.Keys
        invariant OwedByKill(old(history), history, killed)
        invariant Watching(ws, fd) + killed == Watching(ws0, fd)
        invariant if anfds[fd].head == Null then Watching(ws, fd) == {} else anfds[fd].head.w in Watching(ws, fd)
        decreases Watching(ws, fd)
      {
        var w := anfds[fd].head.w;
        KillOne(fd, w, killed, old(history));
        killed := killed + {w};
      }
    }

    method KillOne(fd: nat, w: W, ghost killed: set<W>, ghost h0: seq<Event>)
      requires Valid() && fd < |anfds| && w in Watching(ws, fd) && OwedByKill(h0, history, killed)
      modifies `anfds, `lists, `fdchanges, `fdchangemax, `ws, `activecnt, `pendings, `pendingmax, `pendingpri, `history
      ensures Valid() && fd < |anfds| && ws.Keys == old(ws.Keys) && OwedByKill(h0, history, killed + {w})
      ensures Watching(ws, fd) == Watching(old(ws), fd) - {w}
      ensures if anfds[fd].head == Null then Watching(ws, fd) == {} else anfds[fd].head.w in Watching(ws, fd)
    {
      hide Consistent, IsPending, OnlyPending, Told, HeapRoom, ListRoom, QueueRoom, IdleRight, Feed, Clear, Owed, OwedByKill, FdsRight;
      ghost var before, h := ws, history;
      NotDummy(c, Here(), ws, pendings, history, w);
      IoStop(w);
      ghost var middle := ws;
      FeedEvent(w, EV_KILLED);
      StoppedWatching(before, middle, ws, fd, w);
      OneMoreKilled(h0, h, killed, w);
      ItsFds(c, Here(), ws, pendings, history);
      HeadWatches(anfds, lists, fdchanges, ws, fd);
    }

    /** ev_io_set, ev_timer_set and ev_periodic_set, on a watcher that is not active; for an ev_io EV__IOFDSET is set */
    method Set(w: W, at: Tstamp, repeat: Tstamp, offset: Tstamp, custom: bool, fd: int, events: Mask)
      requires Valid() && w in ws && ws[w].active == 0 && w != DUMMY
      modifies `ws
      ensures Valid()
      ensures ws == old(ws)[w := old(ws)[w].(at := at, repeat := repeat, offset := offset, custom := custom,
                                             io := IoFields(fd, events, true, old(ws)[w].io.next))]
    {
      hide Consistent, HeapRoom, ListRoom, QueueRoom, IdleRight, Told;
      var x := ws[w].(at := at, repeat := repeat, offset := offset, custom := custom,
                      io := IoFields(fd, events, true, ws[w].io.next));
      ResetWorks(c, Here(), ws, pendings, history, w, x);
      ws := ws[w := x];
    }

    // ---- expiring timers and periodics ----

    /** feed_reverse */
    method FeedReverse(w: W)
      requires ListRoom()
      modifies `rfeeds, `rfeedmax
      ensures ListRoom() && rfeeds == old(rfeeds) + [w]
    {
      if |rfeeds| + 1 > rfeedmax {
        rfeedmax := ArraySize.NextSize(8, rfeedmax, |rfeeds| + 1);
      }
      rfeeds := rfeeds + [w];
    }

    /** feed_reverse_done */
    method FeedReverseDone(revents: Events)
      requires Valid() && Distinct(rfeeds)
      requires forall w | w in rfeeds :: w in ws && w != DUMMY
      modifies `rfeeds, `pendings, `pendingmax, `ws, `pendingpri, `history
      ensures Valid() && rfeeds == [] && old(history) <= history
      ensures FedFrom(old(ws), ws, old(rfeeds), 0)
      ensures OwedFrom(old(history), history, old(rfeeds), 0, revents)
    {
      hide Consistent, FedFrom, OwedFrom, Feed, Told, HeapRoom, QueueRoom, IdleRight, OnlyPending, IsPending;
      ghost var all, ws0 := rfeeds, ws;
      NothingFed(ws0, history, all, revents);
      while |rfeeds| > 0
        invariant Valid() && rfeeds <= all && old(history) <= history
        invariant FedFrom(ws0, ws, all, |rfeeds|) && OwedFrom(old(history), history, all, |rfeeds|, revents)
        invariant ws.Keys == ws0.Keys
      {
        var n := |rfeeds| - 1;
        var w := rfeeds[n];
        assert w in all;
        ghost var before := ws;
        QueuesOf(c, Here(), ws, pendings, history);
        FeedOneMore(pendings, ws0, ws, all, |rfeeds|, revents);
        OwedOneMore(old(history), history, all, |rfeeds|, revents);
        rfeeds := rfeeds[..n];
        FeedEvent(w, revents);
        OnlyPendingKeys(before, ws);
      }
    }

    /** One round of timers_reify or periodics_reify: the first watcher is rescheduled to t, or stopped and left with
        that time, and noted for feeding. */
    method ExpireFirst(kind: Kind, t: Tstamp, ghost v0: seq<Node>, ghost ws0: Store, ghost h0: seq<Event>, ghost times: Times)
      requires Valid() && InHeaps(kind) && Onward(HeapOf(c, kind), v0, ws0, times, Now(kind))
      requires Reified(HeapOf(c, kind), v0, ws0, HeapNow(kind), ws, rfeeds, times, Now(kind))
      requires OwedAfterStops(h0, history, ws0, rfeeds)
      requires |HeapNow(kind)| > HeapOf(c, kind).Root() && HeapNow(kind)[HeapOf(c, kind).Root()].at < Now(kind)
      requires HeapNow(kind)[HeapOf(c, kind).Root()].w in times && t == times[HeapNow(kind)[HeapOf(c, kind).Root()].w]
      modifies `timers, `periodics, `ws, `activecnt, `pendings, `history, `rfeeds, `rfeedmax
      ensures Valid() && rfeeds == old(rfeeds) + [old(HeapNow(kind)[HeapOf(c, kind).Root()].w)] && old(history) <= history
      ensures Here() == old(Here()).WithHeap(kind, HeapNow(kind)) && SameSizes(old(pendings), pendings)
      ensures Reified(HeapOf(c, kind), v0, ws0, HeapNow(kind), ws, rfeeds, times, Now(kind))
      ensures OwedAfterStops(h0, history, ws0, rfeeds)
    {
      hide Consistent, Reified, FiredInOrder, RestIsLater, FiredFields, StillActive, Retimed, Stopped, Clear,
           OwedAfterStops, Onward, Told, HeapRoom, QueueRoom, IdleRight, Ws, IsHeap, IsPending;
      var d := HeapOf(c, kind);
      ghost var v1, ws1, fired := HeapNow(kind), ws, rfeeds;
      ItsHeap(c, Here(), ws, pendings, history, kind);
      FirstIsKnown(d, v0, ws0, v1, ws, rfeeds, times, Now(kind));
      var w := HeapNow(kind)[d.Root()].w;
      StopsAnother(h0, history, ws0, rfeeds, w);
      if ws[w].Repeats() {
        RetimeFirst(kind, t);
        RepeatFires(d, v0, ws0, v1, ws1, fired, times, Now(kind), HeapNow(kind), ws, w);
        SameAsItself(pendings);
      } else {
        ClearIsForgetting(pendings, ws, w);
        StopWith(kind, w, t);
        LastFires(d, v0, ws0, v1, ws1, fired, times, Now(kind), HeapNow(kind), ws, w);
      }
      FeedReverse(w);
    }

    /** The time that timers_reify gives an expired timer. */
    method TimerTime(w: W) returns (t: Tstamp)
      requires w in ws && ws[w].kind == Timer
      ensures t == NextTime(ws[w], mnNow)
    {
      if ws[w].repeat != 0.0 {
        t := ws[w].at + ws[w].repeat;
        if t < mnNow {
          t := mnNow;
        }
      } else {
        t := ws[w].at - mnNow;
      }
    }

    /** The end of a pass: what has fired is fed. */
    method FeedFired(kind: Kind, revents: Events, ghost v0: seq<Node>, ghost ws0: Store, ghost h0: seq<Event>, ghost times: Times)
      requires Valid() && InHeaps(kind) && Onward(HeapOf(c, kind), v0, ws0, times, Now(kind)) && DUMMY !in Ws(HeapOf(c, kind), v0)
      requires Reified(HeapOf(c, kind), v0, ws0, HeapNow(kind), ws, rfeeds, times, Now(kind))
      requires OwedAfterStops(h0, history, ws0, rfeeds)
      requires |HeapNow(kind)| > HeapOf(c, kind).Root() ==> HeapNow(kind)[HeapOf(c, kind).Root()].at >= Now(kind)
      modifies `rfeeds, `pendings, `pendingmax, `ws, `pendingpri, `history
      ensures Valid() && rfeeds == [] && old(history) <= history
      ensures Expired(HeapOf(c, kind), v0, ws0, HeapNow(kind), ws, old(rfeeds), times, Now(kind))
      ensures OwedAfterPass(h0, history, ws0, old(rfeeds), revents)
    {
      hide Consistent, Reified, Expired, OwedAfterStops, OwedAfterPass, FedFrom, OwedFrom, Onward, Ws, IsHeap, IsPending,
           Told, HeapRoom, QueueRoom, IdleRight, ListRoom;
      var d := HeapOf(c, kind);
      ghost var ws1, h1, fired := ws, history, rfeeds;
      ItsHeap(c, Here(), ws, pendings, history, kind);
      FiredAreKnown(d, v0, ws0, HeapNow(kind), ws, rfeeds, times, Now(kind));
      FeedReverseDone(revents);
      PassDone(d, v0, ws0, HeapNow(kind), ws1, ws, fired, times, Now(kind));
      OwedInAll(h0, h1, history, ws0, fired, revents);
    }

    /** timers_reify */
    method TimersReify() returns (ghost fired: seq<W>)
      requires Valid() && rfeeds == [] && RepeatsForward(HeapOf(c, Timer), timers, ws)
      modifies `timers, `periodics, `ws, `activecnt, `pendings, `pendingmax, `pendingpri, `history, `rfeeds, `rfeedmax
      ensures Valid() && rfeeds == [] && old(history) <= history && Here() == old(Here()).(timers := timers)
      ensures Expired(HeapOf(c, Timer), old(timers), old(ws), timers, ws, fired, TimerTimes(old(ws), mnNow), mnNow)
      ensures AllRepeated(old(ws), ws, fired, mnNow)
      ensures OwedAfterPass(old(history), history, old(ws), fired, EV_TIMER)
    {
      hide AllRepeated, Consistent, Reified, Expired, OwedAfterStops, OwedAfterPass, RepeatsForward, Onward, IsHeap, Ws, IsPending,
           Told, HeapRoom, QueueRoom, IdleRight, ListRoom, SameSizes;
      var d := HeapOf(c, Timer);
      ghost var p, v0, ws0, h0 := Here(), timers, ws, history;
      ghost var times := TimerTimes(ws, mnNow);
      TimersOnward(d, timers, ws, mnNow);
      NothingFired(d, timers, ws, history, times, mnNow);
      ItsHeap(c, p, ws, pendings, history, Timer);
      while |timers| > d.Root() && timers[d.Root()].at < mnNow
        invariant Valid() && h0 <= history && Here() == p.(timers := timers)
        invariant Reified(d, v0, ws0, timers, ws, rfeeds, times, mnNow) && OwedAfterStops(h0, history, ws0, rfeeds)
        decreases Unfired(d, v0, rfeeds)
      {
        ItsHeap(c, Here(), ws, pendings, history, Timer);
        UnfiredShrinks(d, v0, ws0, timers, ws, rfeeds, times, mnNow);
        FirstIsKnown(d, v0, ws0, timers, ws, rfeeds, times, mnNow);
        var t := TimerTime(timers[d.Root()].w);
        ExpireFirst(Timer, t, v0, ws0, h0, times);
      }
      fired := rfeeds;
      FeedFired(Timer, EV_TIMER, v0, ws0, h0, times);
      ItsHeap(c, Here(), ws, pendings, history, Timer);
      TimersRepeated(d, v0, ws0, timers, ws, fired, mnNow);
    }

    /** The time that periodics_reify gives an expired periodic. */
    method PeriodicTime(w: W) returns (t: Tstamp)
      requires w in ws && ws[w].kind == Periodic && ws[w].Forward()
      ensures TimeAfterFiring(ws[w], rtNow, t) && (ws[w].Repeats() ==> t >= rtNow)
    {
      if ws[w].custom {
        t := *;        // what reschedule_cb returns, which must not be in the past
        if t < rtNow {
          t := rtNow;
        }
      } else if ws[w].repeat != 0.0 {
        t := Recalc(ws[w].offset, ws[w].repeat, rtNow);
      } else {
        t := ws[w].at;
      }
    }

    /** periodics_reify. Its outer loop has one turn, as no periodic is due after it. */
    method PeriodicsReify() returns (ghost fired: seq<W>, ghost times: Times)
      requires Valid() && rfeeds == [] && forall w <- Members(Periodic) :: w in ws && ws[w].Forward()
      modifies `timers, `periodics, `ws, `activecnt, `pendings, `pendingmax, `pendingpri, `history, `rfeeds, `rfeedmax
      ensures Valid() && rfeeds == [] && old(history) <= history && Here() == old(Here()).(periodics := periodics)
      ensures Expired(HeapOf(c, Periodic), old(periodics), old(ws), periodics, ws, fired, times, rtNow)
      ensures SettledTimes(old(ws), fired, times, rtNow)
      ensures OwedAfterPass(old(history), history, old(ws), fired, EV_PERIODIC)
    {
      hide Consistent, Reified, Expired, OwedAfterStops, OwedAfterPass, Onward, IsHeap, Ws, IsPending,
           Told, HeapRoom, QueueRoom, IdleRight, ListRoom, SameSizes, SettledTimes, TimeAfterFiring;
      var d := HeapOf(c, Periodic);
      ghost var p, v0, ws0, h0 := Here(), periodics, ws, history;
      times := NoTimesYet(ws, rtNow);
      ItsHeap(c, p, ws, pendings, history, Periodic);
      NoTimesOnward(d, periodics, ws, rtNow);
      NothingFired(d, periodics, ws, history, times, rtNow);
      NoneSettled(ws, times, rtNow);
      while |periodics| > d.Root() && periodics[d.Root()].at < rtNow
        invariant Valid() && h0 <= history && Here() == p.(periodics := periodics)
        invariant Reified(d, v0, ws0, periodics, ws, rfeeds, times, rtNow) && OwedAfterStops(h0, history, ws0, rfeeds)
        invariant Onward(d, v0, ws0, times, rtNow) && SettledTimes(ws0, rfeeds, times, rtNow)
        decreases Unfired(d, v0, rfeeds)
      {
        ItsHeap(c, Here(), ws, pendings, history, Periodic);
        UnfiredShrinks(d, v0, ws0, periodics, ws, rfeeds, times, rtNow);
        FirstIsKnown(d, v0, ws0, periodics, ws, rfeeds, times, rtNow);
        var w := periodics[d.Root()].w;
        var t := PeriodicTime(w);
        TimeSettled(d, v0, ws0, periodics, ws, rfeeds, times, rtNow, w, t);
        OneMoreSettled(ws0, ws, rfeeds, times, rtNow, w, t);
        times := times[w := t];
        ExpireFirst(Periodic, t, v0, ws0, h0, times);
      }
      fired := rfeeds;
      FeedFired(Periodic, EV_PERIODIC, v0, ws0, h0, times);
    }

    // ---- what callbacks do ----

    /** Active timers and periodics have no negative repeat or interval. */
    ghost predicate Forwards()
      reads `timers, `periodics, `ws
    {
      GoForward(Members(Timer), ws) && GoForward(Members(Periodic), ws)
    }

    method StartHeaped(w: W)
      requires Valid() && w in ws && InHeaps(ws[w].kind)
      modifies `timers, `timermax, `periodics, `periodicmax, `ws, `activecnt
      ensures Valid() && (old(Forwards()) ==> Forwards())
      ensures old(ws[w].Forward()) ==> w in ws && ws[w].active != 0
    {
      hide Consistent, Told, HeapRoom, IdleRight, ListRoom, QueueRoom, Started, Ws, GoForward, IsPending, IsHeap;
      ghost var v, u, before := timers, periodics, ws;
      if !ws[w].Forward() || ws[w].active != 0 {
        return;      // an assertion would fail, or nothing happens
      }
      if ws[w].kind == Timer {
        TimerStart(w);
        ItsHeap(c, Here(), ws, pendings, history, Timer);
        StartedIsActive(HeapOf(c, Timer), v, before, timers, ws, w, before[w].at + mnNow);
        StartedForward(HeapOf(c, Timer), v, before, timers, ws, w, before[w].at + mnNow, Members(Periodic));
      } else {
        ghost var t := PeriodicStart(w);
        ItsHeap(c, Here(), ws, pendings, history, Periodic);
        StartedIsActive(HeapOf(c, Periodic), u, before, periodics, ws, w, t);
        StartedForward(HeapOf(c, Periodic), u, before, periodics, ws, w, t, Members(Timer));
      }
    }

    method StartOthers(w: W)
      requires Valid() && w in ws && w != DUMMY
      modifies `arrays, `idleall, `anfds, `lists, `fdchanges, `fdchangemax, `ws, `activecnt
      ensures Valid() && SameSettings(old(ws), ws)
      ensures (old(ws[w].kind) == Io && old(ws[w].io.fd) >= 0) || InArrays(old(ws[w].kind)) ==> w in ws && ws[w].active != 0
    {
      hide Consistent, Told, HeapRoom, IdleRight, ListRoom, QueueRoom;
      if ws[w].kind == Io {
        if ws[w].io.fd >= 0 {
          IoStart(w);
        }
      } else if InArrays(ws[w].kind) {
        NumberedSettings(ws, w);
        ArrayStart(w);
      }
    }

    /** What the start functions assert: no negative repeat, interval or fd. Other kinds are not modelled. */
    ghost predicate Startable(w: W)
      requires w in ws
      reads `ws
    {
      || (ws[w].kind == Timer && ws[w].repeat >= 0.0) || (ws[w].kind == Periodic && (ws[w].custom || ws[w].repeat >= 0.0))
      || InArrays(ws[w].kind) || (ws[w].kind == Io && ws[w].io.fd >= 0)
    }

    /** The start function of a watcher, unless it would fail an assertion. */
    method Start(w: W)
      requires Valid() && w in ws && w != DUMMY
      modifies `timers, `timermax, `periodics, `periodicmax, `arrays, `idleall, `anfds, `lists, `fdchanges, `fdchangemax,
               `ws, `activecnt
      ensures Valid() && (old(Forwards()) ==> Forwards())
      ensures old(Startable(w)) ==> w in ws && ws[w].active != 0
    {
      hide Consistent, Told, HeapRoom, IdleRight, ListRoom, QueueRoom, Ws, GoForward, SameSettings;
      ghost var before := ws;
      if InHeaps(ws[w].kind) {
        StartHeaped(w);
      } else {
        StartOthers(w);
        SettingsKept(Members(Timer), before, ws);
        SettingsKept(Members(Periodic), before, ws);
      }
    }

    method StopHeaped(w: W)
      requires Valid() && w in ws && InHeaps(ws[w].kind)
      modifies `timers, `periodics, `ws, `activecnt, `pendings, `history
      ensures Valid() && (old(Forwards()) ==> Forwards())
      ensures history == old(history) + [Cleared(w)] && SameSizes(old(pendings), pendings)
      ensures w in ws && ws[w].active == 0 && ws[w].pending == 0
    {
      hide Consistent, Told, HeapRoom, IdleRight, ListRoom, QueueRoom, Stopped, Ws, GoForward, Clear, SameSizes;
      ghost var kind, t, p, before := ws[w].kind, ws[w].at, Here(), ws;
      QueuesOf(c, Here(), ws, pendings, history);
      ghost var cleared := Clear(pendings, ws, w).ws;
      ClearSettings(pendings, ws, w);
      if ws[w].kind == Timer {
        t := ws[w].at - mnNow;
        TimerStop(w);
      } else {
        PeriodicStop(w);
      }
      if before[w].active != 0 {
        StoppedForward(HeapOf(c, kind), p.Heap(kind), cleared, HeapNow(kind), ws, w, t, Ws(HeapOf(c, Timer), p.timers));
        StoppedForward(HeapOf(c, kind), p.Heap(kind), cleared, HeapNow(kind), ws, w, t, Ws(HeapOf(c, Periodic), p.periodics));
      }
      forall m: set<W> ensures GoForward(m, before) ==> GoForward(m, cleared) {
        SettingsKept(m, before, cleared);
      }
    }

    method StopOthers(w: W)
      requires Valid() && w in ws && w != DUMMY
      modifies `arrays, `idleall, `anfds, `lists, `fdchanges, `fdchangemax, `ws, `activecnt, `pendings, `history
      ensures Valid() && SameSettings(old(ws), ws)
      ensures old(history) <= history && SameSizes(old(pendings), pendings)
      ensures old(ws[w].kind) == Io || InArrays(old(ws[w].kind)) ==>
        w in ws && ws[w].active == 0 && ws[w].pending == 0 && history == old(history) + [Cleared(w)]
    {
      hide Consistent, Told, HeapRoom, IdleRight, ListRoom, QueueRoom, Clear, InArrays, A.Renumbered, A.Closed;
      QueuesOf(c, Here(), ws, pendings, history);
      ClearSettings(pendings, ws, w);
      ClearSizes(pendings, ws, w);
      SameAsItself(pendings);
      ghost var before, cleared := ws, Clear(pendings, ws, w).ws;
      if ws[w].kind == Io {
        IoStop(w);
      } else if InArrays(ws[w].kind) {
        ArrayStop(w);
        if before[w].active != 0 {
          RenumberedSettings(before[w].kind, cleared, ws);
        }
      }
    }

    /** The stop function of a watcher. */
    method Stop(w: W)
      requires Valid() && w in ws && w != DUMMY
      modifies `timers, `periodics, `arrays, `idleall, `anfds, `lists, `fdchanges, `fdchangemax, `ws, `activecnt, `pendings, `history
      ensures Valid() && (old(Forwards()) ==> Forwards())
      ensures old(history) <= history && SameSizes(old(pendings), pendings)
      ensures InHeaps(old(ws[w].kind)) || old(ws[w].kind) == Io || InArrays(old(ws[w].kind)) ==>
        w in ws && ws[w].active == 0 && ws[w].pending == 0 && history == old(history) + [Cleared(w)]
    {
      hide Consistent, Told, HeapRoom, IdleRight, ListRoom, QueueRoom, Ws, GoForward, SameSettings, SameSizes;
      ghost var before := ws;
      if InHeaps(ws[w].kind) {
        StopHeaped(w);
      } else {
        StopOthers(w);
        SettingsKept(Members(Timer), before, ws);
        SettingsKept(Members(Periodic), before, ws);
      }
    }

    /** ev_timer_again or ev_periodic_again */
    method Again(w: W)
      requires Valid() && w in ws && InHeaps(ws[w].kind) && ws[w].Forward()
      modifies `timers, `timermax, `periodics, `periodicmax, `ws, `activecnt, `pendings, `history
      ensures Valid() && (old(Forwards()) ==> Forwards())
      ensures old(history) + [Cleared(w)] <= history && SameSizes(old(pendings), pendings)
      ensures w in ws && ws[w].pending == 0
      ensures ws[w].active != 0 <==> old(ws[w].kind) == Periodic || old(ws[w].repeat) != 0.0
    {
      hide Consistent, Told, HeapRoom, IdleRight, ListRoom, QueueRoom, Stopped, Retimed, Ws, GoForward, Clear, SameSizes, IsNext, IsPending, IsHeap;
      ghost var m, n, before := Members(Timer), Members(Periodic), ws;
      QueuesOf(c, Here(), ws, pendings, history);
      ghost var cleared := Clear(pendings, ws, w).ws;
      ClearSettings(pendings, ws, w);
      SettingsKept(m, before, cleared);
      SettingsKept(n, before, cleared);
      ClearKeepsTimes(c, Here(), ws, pendings, history, w);
      ClearFields(pendings, ws, w);
      if ws[w].kind == Timer {
        TimerAgain(w);
        ItsHeap(c, Here(), ws, pendings, history, Timer);
        if before[w].repeat != 0.0 {
          NowActive(HeapOf(c, Timer), cleared, timers, ws, w, mnNow + before[w].repeat);
          RetimedForward(cleared, ws, w, mnNow + before[w].repeat, m, n);
        } else if before[w].active != 0 {
          StoppedForward(HeapOf(c, Timer), old(timers), cleared, timers, ws, w, before[w].at - mnNow, n);
          StoppedInactive(HeapOf(c, Timer), old(timers), cleared, timers, ws, w, before[w].at - mnNow);
        } else {
          FewerForward(m, w, ws);
        }
      } else {
        ghost var t := PeriodicAgain(w);
        RetimedForward(cleared, ws, w, t, n, m);
        ItsHeap(c, Here(), ws, pendings, history, Periodic);
        NowActive(HeapOf(c, Periodic), cleared, periodics, ws, w, t);
      }
    }

    /** What is pending above pendingpri is none, after an operation on the queues. */
    ghost predicate EmptyAbove()
      reads `pendings, `pendingpri
    {
      pendingpri < NUMPRI == |pendings| && forall p: nat :: pendingpri < p < NUMPRI ==> |pendings[p]| == 0
    }

    /** Take the last entry of the current queue. */
    method Take() returns (e: Entry)
      requires Valid() && EmptyAbove() && |pendings[pendingpri]| > 0
      modifies `pendings, `ws, `history
      ensures Valid() && EmptyAbove() && e == old(pendings[pendingpri][|pendings[pendingpri]| - 1])
      ensures history == old(history) + [Invoked(e.w, e.events)] && OnlyPending(old(ws), ws)
      ensures pendings == old(pendings)[pendingpri := old(pendings)[pendingpri][..|old(pendings)[pendingpri]| - 1]]
    {
      hide Consistent, Told, HeapRoom, IdleRight, ListRoom, OnlyPending, IsPending;
      var n := |pendings[pendingpri]| - 1;
      PopWorks(c, Here(), ws, pendings, history, pendingpri);
      e := pendings[pendingpri][n];
      TakenRoom(pendings, pendingmax, pendingpri);
      pendings := pendings[pendingpri := pendings[pendingpri][..n]];
      ws := SetPending(ws, e.w, 0);
      history := history + [Invoked(e.w, e.events)];
    }

    lemma StoppedIsNoMember(w: W)
      requires Valid() && w in ws && ws[w].active == 0
      ensures w !in Members(Timer) && w !in Members(Periodic)
    {
      hide Consistent, Ws;
      ItsHeap(c, Here(), ws, pendings, history, Timer);
      MembersKnown(HeapOf(c, Timer), timers, ws);
      ItsHeap(c, Here(), ws, pendings, history, Periodic);
      MembersKnown(HeapOf(c, Periodic), periodics, ws);
      if ws[w].kind == Timer {
        ActiveIsMember(c, Here(), ws, pendings, history, Timer, w);
      } else if ws[w].kind == Periodic {
        ActiveIsMember(c, Here(), ws, pendings, history, Periodic, w);
      }
    }

    /** Feeds, clears and settings by a callback. */
    method PerformSimple(a: Action)
      requires Valid() && EmptyAbove() && !a.DoStart? && !a.DoStop? && !a.DoAgain?
      modifies `ws, `pendings, `pendingmax, `pendingpri, `history
      ensures Valid() && EmptyAbove() && old(history) <= history && (old(Forwards()) ==> Forwards())
      ensures a.DoFeedFd? ==> OwedByFd(old(history), history, ws, a.fd, a.mask)
      ensures (a.DoFeed? || a.DoClear?) && a.w in old(ws) && a.w != DUMMY ==>
                history == old(history) + [if a.DoFeed? then Fed(a.w, a.revents) else Cleared(a.w)]
      ensures a.DoSet? && a.w in old(ws) && a.w != DUMMY && old(ws)[a.w].active == 0 ==>
        && a.w in ws && ws[a.w].at == a.x.at && ws[a.w].repeat == a.x.repeat && ws[a.w].offset == a.x.offset
        && ws[a.w].custom == a.x.custom && ws[a.w].io.fd == a.x.io.fd && ws[a.w].io.events == a.x.io.events && ws[a.w].io.fdset
    {
      hide Consistent, Told, HeapRoom, IdleRight, ListRoom, QueueRoom, Ws, Clear, Feed, OnlyPending, OwedByFd, IsPending;
      ghost var before := ws;
      QueuesOf(c, Here(), ws, pendings, history);
      if a.DoFeed? && a.w in ws && a.w != DUMMY {
        FeedEvent(a.w, a.revents);
        PendingSettings(before, ws);
        QueuesOf(c, Here(), ws, pendings, history);
      } else if a.DoFeedFd? {
        FeedFdEvent(a.fd, a.mask);
        PendingSettings(before, ws);
        QueuesOf(c, Here(), ws, pendings, history);
      } else if a.DoClear? && a.w in ws && a.w != DUMMY {
        var _ := ClearPending(a.w);
        PendingSettings(before, ws);
      } else if a.DoSet? && a.w in ws && a.w != DUMMY && ws[a.w].active == 0 {
        StoppedIsNoMember(a.w);
        Set(a.w, a.x.at, a.x.repeat, a.x.offset, a.x.custom, a.x.io.fd, a.x.io.events);
      }
    }

    /** A feed, a clear, a setting, a start, a stop or another start by a callback. */
    method PerformOne(a: Action)
      requires Valid() && EmptyAbove()
      modifies `timers, `timermax, `periodics, `periodicmax, `arrays, `idleall, `anfds, `lists, `fdchanges, `fdchangemax,
               `ws, `activecnt, `pendings, `pendingmax, `pendingpri, `history, `performed
      ensures Valid() && EmptyAbove() && old(history) <= history && (old(Forwards()) ==> Forwards())
      ensures performed == old(performed) + [a]
      ensures a.DoFeedFd? ==> OwedByFd(old(history), history, ws, a.fd, a.mask)
      ensures (a.DoFeed? || a.DoClear?) && a.w in old(ws) && a.w != DUMMY ==>
                history == old(history) + [if a.DoFeed? then Fed(a.w, a.revents) else Cleared(a.w)]
      ensures a.DoSet? && a.w in old(ws) && a.w != DUMMY && old(ws)[a.w].active == 0 ==>
        && a.w in ws && ws[a.w].at == a.x.at && ws[a.w].repeat == a.x.repeat && ws[a.w].offset == a.x.offset
        && ws[a.w].custom == a.x.custom && ws[a.w].io.fd == a.x.io.fd && ws[a.w].io.events == a.x.io.events && ws[a.w].io.fdset
      ensures a.DoStart? && a.w in old(ws) && a.w != DUMMY && old(Startable(a.w)) ==> a.w in ws && ws[a.w].active != 0
      ensures a.DoStop? && a.w in old(ws) && a.w != DUMMY
              && (InHeaps(old(ws)[a.w].kind) || InArrays(old(ws)[a.w].kind) || old(ws)[a.w].kind == Io) ==>
        a.w in ws && ws[a.w].active == 0 && ws[a.w].pending == 0 && history == old(history) + [Cleared(a.w)]
      ensures a.DoAgain? && a.w in old(ws) && InHeaps(old(ws)[a.w].kind) && old(ws)[a.w].Forward() ==>
        && a.w in ws && ws[a.w].pending == 0 && old(history) + [Cleared(a.w)] <= history
        && (ws[a.w].active != 0 <==> old(ws)[a.w].kind == Periodic || old(ws)[a.w].repeat != 0.0)
    {
      hide Valid, Forwards, InHeaps, InArrays, Startable, OwedByFd;
      performed := performed + [a];
      if a.DoStart? {
        if a.w in ws && a.w != DUMMY { Start(a.w); }
      } else if a.DoStop? {
        if a.w in ws && a.w != DUMMY { Stop(a.w); }
      } else if a.DoAgain? {
        if a.w in ws && InHeaps(ws[a.w].kind) && ws[a.w].Forward() { Again(a.w); }
      } else {
        PerformSimple(a);
      }
    }

    ghost predicate NothingPending()
      reads `pendings
    {
      |pendings| == NUMPRI && forall p: nat :: p < NUMPRI ==> pendings[p] == []
    }

    /** A callback performs the script up to its next Return. */
    method RunCallback()
      requires Valid() && EmptyAbove()
      modifies `timers, `timermax, `periodics, `periodicmax, `arrays, `idleall, `anfds, `lists, `fdchanges, `fdchangemax,
               `ws, `activecnt, `pendings, `pendingmax, `pendingpri, `history, `script, `performed
      ensures Valid() && EmptyAbove() && old(history) <= history && (old(Forwards()) ==> Forwards())
      ensures old(script) == [] ==> unchanged(this)
      ensures old(script) != [] ==> |script| < |old(script)|
      ensures old(script) == [Reenter] ==> NothingPending()
      ensures performed + Deeds(script) == old(performed + Deeds(script))
      decreases |script|, 0
    {
      hide Valid, Forwards, Deeds;
      while |script| > 0 && script[0] != Return
        invariant Valid() && EmptyAbove() && old(history) <= history && |script| <= |old(script)|
        invariant old(Forwards()) ==> Forwards()
        invariant |script| == |old(script)| ==> unchanged(this)
        invariant old(script) == [Reenter] && script == [] ==> NothingPending()
        invariant performed + Deeds(script) == old(performed + Deeds(script))
        decreases |script|
      {
        var a := script[0];
        DeedsMore(performed, script);
        script := script[1..];
        if a.Reenter? {
          InvokePending();
        } else {
          PerformOne(a);
        }
      }
      if |script| > 0 {
        DeedsMore(performed, script);
        script := script[1..];
      }
    }

    /** ev_invoke_pending: each invocation is Fair (see Valid), and nothing is left. */
    method InvokePending()
      requires Valid()
      modifies `timers, `timermax, `periodics, `periodicmax, `arrays, `idleall, `anfds, `lists, `fdchanges, `fdchangemax,
               `ws, `activecnt, `pendings, `pendingmax, `pendingpri, `history, `script, `performed
      ensures Valid() && EmptyAbove() && old(history) <= history && (old(Forwards()) ==> Forwards())
      ensures pendingpri == 0 && |pendings| == NUMPRI && forall p: nat :: p < NUMPRI ==> pendings[p] == []
      ensures |script| <= |old(script)| && performed + Deeds(script) == old(performed + Deeds(script))
      ensures old(script) == [] ==> history == old(history) + Drain(old(pendings), NUMPRI)
      decreases |script|, 2
    {
      hide Deeds, Consistent, Drain, Total, Told, HeapRoom, IdleRight, ListRoom, QueueRoom, Forwards, OnlyPending, IsPending;
      QueuesOf(c, Here(), ws, pendings, history);
      ghost var all := history + Drain(pendings, NUMPRI);
      pendingpri := NUMPRI;
      while pendingpri > 0
        invariant Valid() && pendingpri <= NUMPRI == |pendings|
        invariant forall p: nat :: pendingpri <= p < NUMPRI ==> pendings[p] == []
        invariant old(history) <= history && |script| <= |old(script)| && (old(Forwards()) ==> Forwards())
        invariant performed + Deeds(script) == old(performed + Deeds(script))
        invariant old(script) == [] ==> history + Drain(pendings, pendingpri) == all
        decreases |script|, Total(pendings), pendingpri
      {
        pendingpri := pendingpri - 1;
        ghost var script0, total0, pri0 := |script|, Total(pendings), pendingpri;
        while |pendings[pendingpri]| > 0
          invariant Valid() && EmptyAbove()
          invariant old(history) <= history && |script| <= |old(script)| && (old(Forwards()) ==> Forwards())
          invariant performed + Deeds(script) == old(performed + Deeds(script))
          invariant old(script) == [] ==> history + Drain(pendings, pendingpri + 1) == all
          invariant |script| < script0
                    || (|script| == script0 && (Total(pendings) < total0
                                                || (Total(pendings) == total0 && pendingpri == pri0)))
          decreases |script|, Total(pendings)
        {
          DrainPop(pendings, pendingpri);
          TotalShrinks(pendings, pendingpri, pendings[pendingpri][..|pendings[pendingpri]| - 1]);
          ghost var h, r := history, Drain(pendings, pendingpri + 1);
          ghost var _ := InvokeOne();
          if old(script) == [] {
            assert h + r == history + Drain(pendings, pendingpri + 1);
          }
        }
        DrainEmpty(pendings, pendingpri);
      }
      DrainNone(pendings);
    }

    /** The last entry of the current queue is taken and, unless it is for the dummy, its callback runs. */
    method InvokeOne() returns (ghost e: Entry)
      requires Valid() && EmptyAbove() && |pendings[pendingpri]| > 0
      modifies `timers, `timermax, `periodics, `periodicmax, `arrays, `idleall, `anfds, `lists, `fdchanges, `fdchangemax,
               `ws, `activecnt, `pendings, `pendingmax, `pendingpri, `history, `script, `performed
      ensures Valid() && EmptyAbove() && old(history) <= history && (old(Forwards()) ==> Forwards())
      ensures |script| <= |old(script)| && performed + Deeds(script) == old(performed + Deeds(script))
      ensures if e.w == DUMMY || old(script) == [] then script == old(script) else |script| < |old(script)|
      ensures |script| == |old(script)| ==>
        && pendingpri == old(pendingpri)
        && pendings == old(pendings)[pendingpri := old(pendings)[pendingpri][..|old(pendings)[pendingpri]| - 1]]
      ensures e == old(pendings[pendingpri][|pendings[pendingpri]| - 1])
      ensures old(script) == [] ==> script == [] && history == old(history) + [Invoked(e.w, e.events)]
      decreases |script|, 1
    {
      hide Deeds, Consistent, Told, HeapRoom, IdleRight, ListRoom, QueueRoom, GoForward, OnlyPending, IsPending, SameSettings;
      ghost var before := ws;
      var taken := Take();
      e := taken;
      PendingForward(Members(Timer), before, ws);
      PendingForward(Members(Periodic), before, ws);
      if taken.w != DUMMY {
        RunCallback();
      }
    }

    // ---- a turn of the loop ----

    function ClocksNow(): Clocks
      reads `mnNow, `rtNow, `nowFloor, `rtmnDiff
    {
      Clocks(mnNow, rtNow, nowFloor, rtmnDiff)
    }

    /** The clocks are read, again and again if one of them seems to have jumped. */
    method ReadClocks(readings: seq<Reading>) returns (jumped: bool)
      requires |readings| == 4
      modifies `mnNow, `rtNow, `nowFloor, `rtmnDiff
      ensures ClocksRead(old(ClocksNow()), readings, ClocksNow(), jumped)
    {
      var odiff := rtmnDiff;
      mnNow := readings[0].mn;
      if mnNow - nowFloor < MIN_TIMEJUMP * 0.5 {
        rtNow := rtmnDiff + mnNow;
        return false;
      }
      nowFloor := mnNow;
      rtNow := readings[0].rt;
      for i := 1 to 4
        invariant forall k: nat :: k < i - 1 ==> !Settles(odiff, readings[k])
        invariant ClocksNow() == Clocks(readings[i - 1].mn, readings[i - 1].rt, readings[i - 1].mn,
                                        if i == 1 then odiff else readings[i - 2].rt - readings[i - 2].mn)
      {
        rtmnDiff := rtNow - mnNow;
        if Near(odiff, rtmnDiff) {
          assert Settles(odiff, readings[i - 1]);
          return false;
        }
        rtNow := readings[i].rt;
        mnNow := readings[i].mn;
        nowFloor := mnNow;
      }
      return true;
    }

    /** time_update with a monotonic clock: a jump of the other clock gives the periodics new times. */
    method TimeUpdate(readings: seq<Reading>) returns (jumped: bool, ghost times: Times)
      requires Valid() && Forwards() && |readings| == 4
      modifies `mnNow, `rtNow, `nowFloor, `rtmnDiff, `periodics, `ws
      ensures Valid() && Forwards() && Members(Periodic) == old(Members(Periodic))
      ensures ClocksRead(old(ClocksNow()), readings, ClocksNow(), jumped)
      ensures jumped <==> !Near(old(rtmnDiff), rtmnDiff)
      ensures !jumped ==> unchanged(`periodics, `ws)
      ensures jumped ==>
        && NewTimes(HeapOf(c, Periodic), old(periodics), old(ws), ws, times)
        && forall w <- old(Members(Periodic)) :: w in times && w in old(ws) && TimeAfterJump(old(ws)[w], rtNow, times[w])
      ensures SameActive(Timer, old(ws), ws) && ws.Keys == old(ws.Keys)
      ensures if jumped then Jumped(old(ws), ws, rtNow) else SameActive(Periodic, old(ws), ws)
    {
      hide Consistent, Told, HeapRoom, IdleRight, ListRoom, QueueRoom, Ws, NewTimes, TimeAfterJump, Near,
           ClocksRead, SameActive, Jumped, IsHeap;
      times := map[];
      ghost var clocks := ClocksNow();
      jumped := ReadClocks(readings);
      NotBeforeFirst(clocks, readings, ClocksNow(), jumped);
      NothingMoved(ws);
      if jumped {
        ghost var v0, ws0 := periodics, ws;
        ItsHeap(c, Here(), ws, pendings, history, Periodic);
        times := Reschedule();
        ItsHeap(c, Here(), ws, pendings, history, Periodic);
        NewTimesSettings(HeapOf(c, Periodic), v0, ws0, ws, times);
        NewTimesOthers(HeapOf(c, Periodic), v0, ws0, ws, times, Timer);
        AllJumped(HeapOf(c, Periodic), v0, ws0, periodics, ws, times, rtNow);
        SettingsKept(Members(Timer), ws0, ws);
        SettingsKept(Members(Periodic), ws0, ws);
      }
    }

    /** timers_reify, as what fired of the timers there were. */
    method TimersPass() returns (ghost pass: Pass)
      requires Valid() && rfeeds == [] && Forwards()
      modifies `timers, `periodics, `ws, `activecnt, `pendings, `pendingmax, `pendingpri, `history, `rfeeds, `rfeedmax
      ensures Valid() && rfeeds == [] && Forwards() && old(history) <= history && ws.Keys == old(ws.Keys)
      ensures Prioritised(c, pass.before) && pass.before == old(ws) && pass.since == |history| && FiredAll(Timer, pass, mnNow)
      ensures AllRepeated(old(ws), ws, pass.fired, mnNow) && SameActive(Periodic, old(ws), ws)
      ensures OwedAfterPass(old(history), history, old(ws), pass.fired, EV_TIMER)
      ensures QueuedInOrder(pass.before, pass.fired, history) && DUMMY !in pass.fired
    {
      hide Consistent, Told, HeapRoom, IdleRight, ListRoom, QueueRoom, Ws, Expired, OwedAfterPass, QueuedInOrder, TimerTimes,
           IsHeap, Prioritised, AllRepeated, SameActive, FiredAll, IsPending;
      ghost var v0, ws0, h0 := timers, ws, history;
      var d := HeapOf(c, Timer);
      ItsHeap(c, Here(), ws, pendings, history, Timer);
      ItsHeap(c, Here(), ws, pendings, history, Periodic);
      KeptPriorities(c, Here(), ws, pendings, history);
      TimersForward(d, timers, ws);
      ghost var fired := TimersReify();
      QueuesDeliver(c, Here(), ws, pendings, history);
      PassQueues(d, v0, ws0, timers, ws, fired, TimerTimes(ws0, mnNow), mnNow, h0, history, pendings, EV_TIMER);
      pass := Pass(ws0, fired, |history|);
      NoDummyFired(ws0, fired, history);
      AllDueFired(d, v0, ws0, timers, ws, fired, TimerTimes(ws0, mnNow), mnNow, |history|);
      PassForward(d, v0, ws0, timers, ws, fired, TimerTimes(ws0, mnNow), mnNow, Members(Periodic));
      ItsHeap(c, Here(), ws, pendings, history, Periodic);
      ExpiredOthers(d, v0, ws0, timers, ws, fired, TimerTimes(ws0, mnNow), mnNow, HeapOf(c, Periodic), periodics);
    }

    /** periodics_reify likewise. */
    method PeriodicsPass() returns (ghost pass: Pass)
      requires Valid() && rfeeds == [] && Forwards()
      modifies `timers, `periodics, `ws, `activecnt, `pendings, `pendingmax, `pendingpri, `history, `rfeeds, `rfeedmax
      ensures Valid() && rfeeds == [] && Forwards() && old(history) <= history && ws.Keys == old(ws.Keys)
      ensures Prioritised(c, pass.before) && pass.before == old(ws) && pass.since == |history| && FiredAll(Periodic, pass, rtNow)
      ensures OwedAfterPass(old(history), history, old(ws), pass.fired, EV_PERIODIC)
      ensures QueuedInOrder(pass.before, pass.fired, history) && DUMMY !in pass.fired
    {
      hide Consistent, Told, HeapRoom, IdleRight, ListRoom, QueueRoom, Ws, Expired, OwedAfterPass, QueuedInOrder, SettledTimes,
           IsHeap, Prioritised, SameActive, FiredAll, IsPending;
      ghost var v0, ws0, h0 := periodics, ws, history;
      var d := HeapOf(c, Periodic);
      ItsHeap(c, Here(), ws, pendings, history, Periodic);
      ItsHeap(c, Here(), ws, pendings, history, Timer);
      KeptPriorities(c, Here(), ws, pendings, history);
      ghost var fired, times := PeriodicsReify();
      QueuesDeliver(c, Here(), ws, pendings, history);
      PassQueues(d, v0, ws0, periodics, ws, fired, times, rtNow, h0, history, pendings, EV_PERIODIC);
      pass := Pass(ws0, fired, |history|);
      NoDummyFired(ws0, fired, history);
      AllDueFired(d, v0, ws0, periodics, ws, fired, times, rtNow, |history|);
      PassForward(d, v0, ws0, periodics, ws, fired, times, rtNow, Members(Timer));
      ItsHeap(c, Here(), ws, pendings, history, Timer);
      ExpiredOthers(d, v0, ws0, periodics, ws, fired, times, rtNow, HeapOf(c, Timer), timers);
    }

    /** The time that ev_run gives the backend to wait, at least the given one. */
    method WaitTime(nowait: bool, least: Tstamp) returns (wait: Tstamp)
      requires Valid()
      ensures RightWait(wait, nowait, least)
    {
      hide Consistent, Told, HeapRoom, IdleRight, ListRoom, QueueRoom, Ws, IsHeap;
      if nowait || idleall > 0 || activecnt == 0 {
        return 0.0;
      }
      FirstAreDueFirst(Timer);
      FirstAreDueFirst(Periodic);
      var d := HeapOf(c, Timer);
      wait := MAX_BLOCKTIME;
      if |timers| > d.Root() && wait > timers[d.Root()].at - mnNow {
        wait := timers[d.Root()].at - mnNow;
      }
      if |periodics| > d.Root() && wait > periodics[d.Root()].at - rtNow {
        wait := periodics[d.Root()].at - rtNow;
      }
      if wait < least {
        wait := least;
      }
    }

    lemma FirstAreDueFirst(kind: Kind)
      requires Valid() && InHeaps(kind)
      ensures var heap, root := HeapNow(kind), HeapOf(c, Timer).Root();
        && (|heap| > root ==> heap[root].w in ws && ws[heap[root].w].kind == kind && ws[heap[root].w].active != 0
                              && ws[heap[root].w].at == heap[root].at)
        && forall w <- ws :: ws[w].kind == kind && ws[w].active != 0 ==> |heap| > root && heap[root].at <= ws[w].at
    {
      hide Consistent, Told, HeapRoom, IdleRight, ListRoom, QueueRoom, Ws, IsHeap;
      var d, heap := HeapOf(c, kind), HeapNow(kind);
      ItsHeap(c, Here(), ws, pendings, history, kind);
      forall w | w in ws && ws[w].kind == kind && ws[w].active != 0
        ensures |heap| > d.Root() && heap[d.Root()].at <= ws[w].at
      {
        ActiveInHeap(d, heap, ws, w);
        RootIsDueFirst(d, heap, ws, w);
      }
      if |heap| > d.Root() {
        FirstOfHeap(d, heap, ws);
        ActiveInHeap(d, heap, ws, heap[d.Root()].w);
        RootIsDueFirst(d, heap, ws, heap[d.Root()].w);
      }
    }

    /** One fd is passed on; the program does nothing for an fd that changed since the backend was told. */
    method PassOne(r: (nat, Mask), ghost ws0: Store, ghost h0: seq<Event>, ghost ready: seq<(nat, Mask)>, ghost i: nat)
      requires Valid() && OnlyPending(ws0, ws) && i < |ready| && ready[i] == r && FdsOwed(h0, history, anfds, ws0, ready[..i])
      modifies `pendings, `pendingmax, `ws, `pendingpri, `history
      ensures Valid() && OnlyPending(ws0, ws) && old(history) <= history && FdsOwed(h0, history, anfds, ws0, ready[..i + 1])
    {
      hide Valid, OnlyPending, OwedByFd, FdsOwed;
      ghost var before, h := ws, history;
      if r.0 < |anfds| {
        FdEvent(r.0, r.1);
        OnlyPendingTwice(ws0, before, ws);
      }
      OneReportMore(h0, h, history, anfds, ws0, ws, ready, i);
    }

    /** What the backend reports is passed on. */
    method PassOn(ready: seq<(nat, Mask)>)
      requires Valid()
      modifies `pendings, `pendingmax, `ws, `pendingpri, `history
      ensures Valid() && OnlyPending(old(ws), ws) && old(history) <= history && (old(Forwards()) ==> Forwards())
      ensures FdsOwed(old(history), history, anfds, old(ws), ready)
    {
      hide Valid, OnlyPending, OwedByFd, GoForward, FdsOwed;
      NothingHit(ws, history);
      NothingReported(history, anfds, ws);
      assert ready[..0] == [];
      for i := 0 to |ready|
        invariant Valid() && OnlyPending(old(ws), ws) && old(history) <= history
        invariant FdsOwed(old(history), history, anfds, old(ws), ready[..i])
      {
        PassOne(ready[i], old(ws), old(history), ready, i);
      }
      assert ready[..|ready|] == ready;
      PendingForward(Members(Timer), old(ws), ws);
      PendingForward(Members(Periodic), old(ws), ws);
    }

    /** Prepare or check watchers are queued: all active ones. */
    method QueueAll(kind: Kind, events: Events)
      requires Valid() && InArrays(kind) && Forwards()
      modifies `pendings, `pendingmax, `ws, `pendingpri, `history
      ensures Valid() && Forwards() && old(history) <= history && OnlyPending(old(ws), ws)
      ensures OwedMore(old(history), history, Filled(kind), events)
    {
      hide Valid, OnlyPending, OwedMore, GoForward, SameSettings, A.IsArray;
      ArrayMembers(kind);
      NothingQueued(ws, history);
      NothingOwed(history, events);
      if arrays[kind].cnt > 0 {
        ghost var before := ws;
        QueueEvents(kind, events);
        PendingForward(Members(Timer), before, ws);
        PendingForward(Members(Periodic), before, ws);
      }
    }

    /** The active watchers of a kind are those in its array. */
    lemma FilledIs(kind: Kind)
      requires Valid() && InArrays(kind)
      ensures forall w <- ws :: ws[w].kind == kind && ws[w].active != 0 <==> w in Filled(kind)
    {
      hide Consistent;
      ItsArray(c, Here(), ws, pendings, history, kind);
      forall w | w in ws ensures ws[w].kind == kind && ws[w].active != 0 <==> w in Filled(kind) {
        if ws[w].kind == kind {
          A.ActiveIsMember(kind, arrays[kind], ws, w);
        }
      }
    }

    /** Prepare watchers run. */
    method RunPrepared()
      requires Valid() && rfeeds == [] && Forwards()
      modifies `timers, `timermax, `periodics, `periodicmax, `arrays, `idleall, `anfds, `lists, `fdchanges, `fdchangemax,
               `ws, `activecnt, `pendings, `pendingmax, `pendingpri, `history, `script, `performed
      ensures Valid() && Forwards() && old(history) <= history
      ensures KindAnswered(history, |old(history)|, old(ws), Prepare, EV_PREPARE)
      ensures performed + Deeds(script) == old(performed + Deeds(script))
    {
      hide Deeds, Consistent, Told, HeapRoom, IdleRight, ListRoom, QueueRoom, GoForward, KindAnswered,
           OwedMore, OnlyPending, Owed, IsPending, Prioritised;
      ArrayMembers(Prepare);
      FilledIs(Prepare);
      KeptPriorities(c, Here(), ws, pendings, history);
      ghost var h0, ws0, list := history, ws, Filled(Prepare);
      if arrays[Prepare].cnt > 0 {
        QueueAll(Prepare, EV_PREPARE);
        ghost var h1 := history;
        InvokePending();
        NobodyOwed(c, Here(), ws, pendings, history);
        KindGetsAnswered(c, Here(), ws, pendings, history, h0, h1, ws0, list, Prepare, EV_PREPARE);
      } else {
        NoneOfKind(history, ws0, list, Prepare, EV_PREPARE);
      }
    }

    /** The time to wait: none if the caller does not want to wait, an idle watcher is active or no watcher is; else until the
        first timer or periodic is due, but not longer than MAX_BLOCKTIME and not shorter than the given time. */
    ghost predicate RightWait(wait: Tstamp, nowait: bool, least: Tstamp)
      reads `idleall, `activecnt, `ws, `mnNow, `rtNow
    {
      && (nowait || idleall > 0 || activecnt == 0 ==> wait == 0.0)
      && (!(nowait || idleall > 0 || activecnt == 0) ==>
            && least <= wait && (wait == least || wait <= MAX_BLOCKTIME)
            && (forall w <- ws :: InHeaps(ws[w].kind) && ws[w].active != 0 ==> wait == least || wait <= ws[w].at - Now(ws[w].kind))
            && (wait == least || wait == MAX_BLOCKTIME
                || exists w <- ws :: InHeaps(ws[w].kind) && ws[w].active != 0 && wait == ws[w].at - Now(ws[w].kind)))
    }

    /** A turn of ev_run until it waits: prepare watchers run, the backend is told what all watchers want, and the clocks are
        read. */
    method BeforeWait(readings: seq<Reading>, nowait: bool, least: Tstamp) returns (wait: Tstamp, ghost jumped: bool)
      requires Valid() && rfeeds == [] && Forwards() && |readings| == 4
      modifies this, poll, select
      ensures Valid() && rfeeds == [] && Forwards() && old(history) <= history && InStep() && fdchanges == []
      ensures KindAnswered(history, |old(history)|, old(ws), Prepare, EV_PREPARE)
      ensures ClocksRead(old(ClocksNow()), readings, ClocksNow(), jumped)
      ensures RightWait(wait, nowait, least)
      ensures performed + Deeds(script) == old(performed + Deeds(script))
    {
      hide Deeds, Valid, GoForward, NewTimes, Near, TimeAfterJump, InStep, ClocksRead, SameActive, Jumped, KindAnswered, RightWait;
      RunPrepared();
      FdReify();
      ghost var times;
      jumped, times := TimeUpdate(readings);
      wait := WaitTime(nowait, least);
      InSync();
    }

    /** Timers and periodics: the clocks are read and what is due fires. */
    method FeedTimed(readings: seq<Reading>) returns (ghost jumped: bool, ghost t: Pass, ghost ht: seq<Event>, ghost p: Pass)
      requires Valid() && rfeeds == [] && Forwards() && |readings| == 4
      modifies `mnNow, `rtNow, `nowFloor, `rtmnDiff, `timers, `periodics, `ws, `activecnt, `pendings, `pendingmax, `pendingpri,
               `history, `rfeeds, `rfeedmax
      ensures Valid() && rfeeds == [] && Forwards() && old(history) <= ht <= history && ws.Keys == old(ws.Keys)
      ensures ClocksRead(old(ClocksNow()), readings, ClocksNow(), jumped)
      ensures |ht| == t.since && |history| == p.since && FiredAll(Timer, t, mnNow) && FiredAll(Periodic, p, rtNow)
      ensures SameActive(Timer, old(ws), t.before)
      ensures if jumped then Jumped(old(ws), p.before, rtNow) else SameActive(Periodic, old(ws), p.before)
      ensures AllRepeated(t.before, p.before, t.fired, mnNow)
      ensures OwedAfterPass(old(history), ht, t.before, t.fired, EV_TIMER)
      ensures OwedAfterPass(ht, history, p.before, p.fired, EV_PERIODIC)
      ensures QueuedInOrder(t.before, t.fired, ht) && QueuedInOrder(p.before, p.fired, history)
      ensures Prioritised(c, t.before) && Prioritised(c, p.before)
      ensures DUMMY !in t.fired && DUMMY !in p.fired && t.before.Keys == p.before.Keys == old(ws.Keys)
    {
      hide Valid, Forwards, NewTimes, Near, TimeAfterJump, FiredAll, QueuedInOrder, Prioritised, OwedAfterPass, ClocksRead, AllRepeated,
           SameActive, Jumped;
      ghost var ws0, times := ws, map[];
      jumped, times := TimeUpdate(readings);
      t := TimersPass();
      ht := history;
      p := PeriodicsPass();
      if jumped {
        JumpedKept(ws0, t.before, p.before, rtNow);
      } else {
        ActiveTwice(Periodic, ws0, t.before, p.before);
      }
    }

    /** Feeding all that has happened: fds, timers, periodics, idle and check watchers. */
    method FeedAll(ready: seq<(nat, Mask)>, readings: seq<Reading>) returns (ghost t: Turn)
      requires Valid() && rfeeds == [] && Forwards() && |readings| == 4
      modifies `mnNow, `rtNow, `nowFloor, `rtmnDiff, `timers, `periodics, `ws, `activecnt, `pendings, `pendingmax, `pendingpri,
               `history, `rfeeds, `rfeedmax
      ensures Valid() && rfeeds == [] && Forwards() && ws.Keys == old(ws.Keys) && t.all == history
      ensures ClocksRead(old(ClocksNow()), readings, ClocksNow(), t.jumped)
      ensures AllFed(old(history), t, anfds, old(ws), ready, Filled(Check))
      ensures OnTime(old(ws), t, mnNow, rtNow)
      ensures forall p: nat :: IdleTurn(arrays, t.queues, p) ==> t.idle == Filled(Idle(p))
      ensures t.idle != [] ==> exists p: nat :: IdleTurn(arrays, t.queues, p)
      ensures forall w <- t.idle + Filled(Check) :: w in ws && w != DUMMY
      ensures QueuedInOrder(t.timers.before, t.timers.fired, t.afterTimers)
      ensures QueuedInOrder(t.periodics.before, t.periodics.fired, t.afterPeriodics)
      ensures Prioritised(c, t.timers.before) && Prioritised(c, t.periodics.before)
    {
      hide Valid, Forwards, OnlyPending, FiredAll, QueuedInOrder, Prioritised, OwedMore, OwedAfterPass, FdsOwed, Feeds, ClocksRead,
           AllRepeated, SameActive, Jumped;
      ghost var ws0 := ws;
      PassOn(ready);
      ghost var fds, ws1 := history, ws;
      ghost var jumped, timers, afterTimers, periodics := FeedTimed(readings);
      ghost var afterPeriodics, queues, ws2 := history, pendings, ws;
      ghost var idle := IdleReify();
      ghost var afterIdle, ws3 := history, ws;
      QueueAll(Check, EV_CHECK);
      ArrayMembers(Check);
      OnlyPendingKeys(ws0, ws1);
      OnlyPendingKeys(ws2, ws3);
      OnlyPendingKeys(ws3, ws);
      t := Turn(fds, jumped, timers, afterTimers, periodics, afterPeriodics, queues, idle, afterIdle, history);
      StillOnTime(ws0, ws1, t, mnNow, rtNow);
    }

    /** The rest of a turn of ev_run. All that has happened is delivered, unless a callback clears it, whatever else the
        callbacks do; of expired watchers of one priority that were not pending before the earlier one runs first; and in the
        end nothing is left. */
    method AfterWait(ready: seq<(nat, Mask)>, readings: seq<Reading>) returns (ghost t: Turn)
      requires Valid() && rfeeds == [] && Forwards() && |readings| == 4
      modifies this
      ensures Valid() && rfeeds == [] && Forwards() && old(history) <= t.all <= history
      ensures ClocksRead(old(ClocksNow()), readings, ClocksNow(), t.jumped) && OnTime(old(ws), t, mnNow, rtNow)
      ensures AllFed(old(history), t, old(anfds), old(ws), ready, old(Filled(Check)))
      ensures AllAnswered(t, old(anfds), old(ws), ready, history)
      ensures Rising(readings) ==> TimersDue(old(ws), t, readings[0].mn, history)
      ensures RunsInOrder(t.timers.before, t.timers.fired, history, t.timers.since)
      ensures RunsInOrder(t.periodics.before, t.periodics.fired, history, t.periodics.since)
      ensures BothInOrder(t.timers.before, t.timers.fired, history, t.timers.since)
      ensures BothInOrder(t.periodics.before, t.periodics.fired, history, t.periodics.since)
      ensures forall w <- ws :: w != DUMMY ==> Owed(history, w) == NotDue
      ensures performed + Deeds(script) == old(performed + Deeds(script))
    {
      hide Deeds, Consistent, Told, HeapRoom, IdleRight, ListRoom, QueueRoom, GoForward, QueuedInOrder, Prioritised,
           RunsInOrder, BothInOrder, Owed, ClocksRead, OnTime, AllFed, AllAnswered, TimersDue, Rising, IsPending;
      FilledIs(Check);
      KeptPriorities(c, Here(), ws, pendings, history);
      ghost var h0, ws0, fds, clocks, checks := history, ws, anfds, ClocksNow(), Filled(Check);
      t := FeedAll(ready, readings);
      InvokePending();
      NobodyOwed(c, Here(), ws, pendings, history);
      OnTimeSince(ws0, t, mnNow, rtNow);
      AllFedGrows(h0, t, fds, ws0, ready, checks);
      TurnAnswered(c, Here(), ws, pendings, history, h0, t, fds, ws0, ready, checks, mnNow, rtNow);
      NotBeforeFirst(clocks, readings, ClocksNow(), t.jumped);
      TimersAnswered(ws0, t, mnNow, rtNow, readings[0].mn, fds, ready, history);
      DoneInOrder(c, Here(), ws, pendings, history, t.timers, t.afterTimers);
      DoneInOrder(c, Here(), ws, pendings, history, t.periodics, t.afterPeriodics);
    }
  }
}
