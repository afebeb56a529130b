/** What the event loop's methods need to know about its state: the small steps between the state as a whole
    (LoopState), a pass over the timers (Expiry) and the methods of the loop. These are what holds of a loop without
    active watchers, what happens to queues, heaps and lists when one entry of them changes, who is owed what after
    an event on an fd, and that active watchers keep going forward. The consequences for whole turns of the loop are
    drawn by its methods. */
module LoopFacts {

  import opened Basics
  import opened IoEvents
  import opened Watchers
  import opened Heap
  import opened Pending
  import opened LoopState
  import opened Expiry
  import opened Periodics
  import A = WatcherArray
  import F = FdInterest

  const EV_KILLED: Events := 0x80000003    // EV_ERROR | EV_READ | EV_WRITE
  const EV_IDLE: Events := 0x2000
  const EV_PREPARE: Events := 0x4000
  const EV_CHECK: Events := 0x8000
  const MIN_TIMEJUMP: Tstamp := 1.0
  const MAX_BLOCKTIME: Tstamp := 59.743

  /** What the monotonic and the other clock say. */
  datatype Reading = Reading(mn: Tstamp, rt: Tstamp)

  predicate Near(a: Tstamp, b: Tstamp) {
    -MIN_TIMEJUMP < a - b < MIN_TIMEJUMP
  }

  /** The times of a loop: mn_now, ev_rt_now, now_floor and rtmn_diff. */
  datatype Clocks = Clocks(mn: Tstamp, rt: Tstamp, floor: Tstamp, diff: Tstamp)

  /** A reading that the other clock did not jump to, as far as the difference of the clocks was diff. */
  predicate Settles(diff: Tstamp, r: Reading) {
    diff - MIN_TIMEJUMP < r.rt - r.mn < diff + MIN_TIMEJUMP
  }

  /** The times after reading the clocks up to four times: the other clock is not looked at for half the time of a jump;
      else the first reading that settles it is taken, or the last one after a jump. */
  ghost predicate ClocksRead(a: Clocks, rs: seq<Reading>, b: Clocks, jumped: bool)
    requires |rs| == 4
  {
    if rs[0].mn - a.floor < MIN_TIMEJUMP * 0.5 then
      !jumped && b == Clocks(rs[0].mn, a.diff + rs[0].mn, a.floor, a.diff)
    else if jumped then
      && (forall k: nat :: k < 3 ==> !Settles(a.diff, rs[k]))
      && b == Clocks(rs[3].mn, rs[3].rt, rs[3].mn, rs[2].rt - rs[2].mn)
    else
      exists k: nat :: k < 3 && Settles(a.diff, rs[k]) && (forall j: nat :: j < k ==> !Settles(a.diff, rs[j]))
                       && b == Clocks(rs[k].mn, rs[k].rt, rs[k].mn, rs[k].rt - rs[k].mn)
  }

  /** A monotonic clock does not go back. */
  predicate Rising(rs: seq<Reading>) {
    forall i, j :: 0 <= i < j < |rs| ==> rs[i].mn <= rs[j].mn
  }

  lemma NotBeforeFirst(a: Clocks, rs: seq<Reading>, b: Clocks, jumped: bool)
    requires |rs| == 4 && ClocksRead(a, rs, b, jumped)
    ensures Rising(rs) ==> b.mn >= rs[0].mn
    ensures jumped <==> !Near(a.diff, b.diff)
  {
  }

  /** A pass over the timers or periodics: the watchers before it, which of them fired, and how long the history was
      after it. */
  datatype Pass = Pass(before: Store, fired: seq<W>, since: nat)

  /** Just those that were active and due have fired, the earliest first. */
  ghost predicate FiredAll(kind: Kind, pass: Pass, now: Tstamp) {
    && (forall w <- pass.before :: pass.before[w].kind == kind && pass.before[w].active != 0 ==>
          (w in pass.fired <==> pass.before[w].at < now))
    && (forall w <- pass.fired :: w in pass.before && pass.before[w].kind == kind && pass.before[w].active != 0)
    && (forall i: nat, j: nat :: i < j < |pass.fired| ==>
          && pass.fired[i] in pass.before && pass.fired[j] in pass.before
          && pass.before[pass.fired[i]].at <= pass.before[pass.fired[j]].at)
  }

  // ---- a loop without active or pending watchers ----

  function EmptyArrays(): map<Kind, A.Slots> {
    map[Prepare := A.Slots([], 0), Check := A.Slots([], 0), Fork := A.Slots([], 0), Cleanup := A.Slots([], 0),
        Async := A.Slots([], 0), Idle(0) := A.Slots([], 0), Idle(1) := A.Slots([], 0), Idle(2) := A.Slots([], 0),
        Idle(3) := A.Slots([], 0), Idle(4) := A.Slots([], 0)]
  }

  lemma AllEmpty()
    ensures forall kind | InArrays(kind) :: kind in EmptyArrays() && EmptyArrays()[kind] == A.Slots([], 0)
  {
    forall kind | InArrays(kind) ensures kind in EmptyArrays() && EmptyArrays()[kind] == A.Slots([], 0) {
      if kind.Idle? {
        assert kind == Idle(kind.pri);
      }
    }
  }

  /** Idle watchers in the arrays of the priorities below n. */
  function Idles(arrays: map<Kind, A.Slots>, n: nat): nat {
    if n == 0 then 0 else Idles(arrays, n - 1) + if Idle(n - 1) in arrays then arrays[Idle(n - 1)].cnt else 0
  }

  lemma {:induction false} NoIdles(n: nat)
    ensures Idles(EmptyArrays(), n) == 0
  {
    if n > 0 {
      NoIdles(n - 1);
    }
  }

  lemma {:induction false} IdlesChange(arrays: map<Kind, A.Slots>, kind: Kind, a: A.Slots, n: nat)
    requires kind in arrays
    ensures Idles(arrays[kind := a], n) ==
      Idles(arrays, n) + if kind.Idle? && kind.pri < n then a.cnt - arrays[kind].cnt else 0
  {
    if n > 0 {
      IdlesChange(arrays, kind, a, n - 1);
    }
  }

  lemma {:induction false} IdlesBound(arrays: map<Kind, A.Slots>, p: nat, n: nat)
    requires p < n && Idle(p) in arrays
    ensures Idles(arrays, n) >= arrays[Idle(p)].cnt
  {
    if p < n - 1 {
      IdlesBound(arrays, p, n - 1);
    }
  }

  lemma NoHeap(d: Shape, v: seq<Node>, ws: Store)
    requires |v| == d.Root() && forall w <- ws :: ws[w].active == 0
    ensures IsHeap(d, v, ws) && Ws(d, v) == {}
  {
  }

  lemma NoArrays(ws: Store)
    requires forall w <- ws :: ws[w].active == 0
    ensures ArraysRight(EmptyArrays(), ws)
  {
    hide InArrays, EmptyArrays;
    AllEmpty();
  }

  lemma NoFds(ws: Store)
    requires forall w <- ws :: ws[w].active == 0
    ensures FdsRight([], [], [], ws)
  {
  }

  lemma NoQueues(ws: Store)
    requires DUMMY in ws && forall w <- ws :: ws[w].pri < NUMPRI && ws[w].pending == 0
    requires forall w <- ws :: ws[w].kind.Idle? ==> ws[w].kind.pri == ws[w].pri
    ensures Delivers(ws, seq(NUMPRI, _ => []), [])
  {
  }

  lemma NothingYet(c: Setup, ws: Store)
    requires DUMMY in ws && ws[DUMMY].kind == Prepare && c.priorities == map w | w in ws :: ws[w].pri
    requires forall w <- ws :: ws[w].pri < NUMPRI && ws[w].active == 0 && ws[w].pending == 0
    requires forall w <- ws :: ws[w].kind.Idle? ==> ws[w].kind.pri == ws[w].pri
    ensures var none := if c.four then 3 else 1;
            var v := seq(none, _ => Node(0.0, DUMMY));
            && Consistent(c, Parts(v, v, EmptyArrays(), [], [], []), ws, seq(NUMPRI, _ => []), [])
            && Ws(HeapOf(c, Timer), v) == {} == Ws(HeapOf(c, Periodic), v)
  {
    var none := if c.four then 3 else 1;
    var v := seq(none, _ => Node(0.0, DUMMY));
    NoHeap(HeapOf(c, Timer), v, ws);
    NoHeap(HeapOf(c, Periodic), v, ws);
    NoArrays(ws);
    NoFds(ws);
    NoQueues(ws);
  }

  // ---- queues ----

  /** pendingcnt [pri] <= pendingmax [pri] */
  predicate Roomy(q: Queues, max: seq<nat>) {
    |q| == NUMPRI == |max| && forall p: nat :: p < NUMPRI ==> |q[p]| <= max[p]
  }

  lemma RoomyWith(q: Queues, max: seq<nat>, pri: nat, s: seq<Entry>)
    requires Roomy(q, max) && pri < NUMPRI && |s| <= max[pri]
    ensures |q| == |max| == NUMPRI && Roomy(q[pri := s], max)
  {
  }

  lemma RoomySays(q: Queues, max: seq<nat>, pri: nat)
    requires Roomy(q, max) && pri < NUMPRI
    ensures |q| == |max| == NUMPRI && |q[pri]| <= max[pri]
  {
  }

  lemma TakenRoom(q: Queues, max: seq<nat>, pri: nat)
    requires Roomy(q, max) && pri < NUMPRI && |q[pri]| > 0
    ensures Roomy(q[pri := q[pri][..|q[pri]| - 1]], max)
  {
  }

  lemma SameAsItself(q: Queues)
    ensures SameSizes(q, q)
  {
  }

  lemma OnlyPendingKeys(before: Store, after: Store)
    requires OnlyPending(before, after)
    ensures after.Keys == before.Keys
  {
  }

  lemma OnlyPendingTwice(first: Store, before: Store, after: Store)
    requires OnlyPending(first, before) && OnlyPending(before, after)
    ensures OnlyPending(first, after)
  {
  }

  lemma ClearFields(q: Queues, ws: Store, w: W)
    requires IsPending(q, ws) && w in ws
    ensures Clear(q, ws, w).ws == ws[w := ws[w].(pending := 0)]
  {
  }

  lemma NothingQueued(ws: Store, h: seq<Event>)
    ensures OnlyPending(ws, ws) && forall list: seq<(W, Events)> :: list == [] ==> h == h + Feeds(list)
  {
  }

  lemma NothingOwed(h: seq<Event>, events: Events)
    ensures OwedMore(h, h, [], events)
  {
  }

  lemma NobodyOwed(c: Setup, p: Parts, ws: Store, q: Queues, h: seq<Event>)
    requires Consistent(c, p, ws, q, h) && |q| == NUMPRI && forall p: nat :: p < NUMPRI ==> q[p] == []
    ensures forall w <- ws :: w != DUMMY ==> Owed(h, w) == NotDue
  {
    hide IsPending, Placed, AllInTurn, Fair, Prioritised;
    forall w | w in ws && w != DUMMY ensures Owed(h, w) == NotDue {
      AllDelivered(h, q, ws, w);
    }
  }

  lemma KeptPriorities(c: Setup, p: Parts, ws: Store, q: Queues, h: seq<Event>)
    requires Consistent(c, p, ws, q, h)
    ensures Prioritised(c, ws)
  {
  }

  lemma QueuesDeliver(c: Setup, p: Parts, ws: Store, q: Queues, h: seq<Event>)
    requires Consistent(c, p, ws, q, h)
    ensures Delivers(ws, q, h)
  {
  }

  // ---- heaps ----

  /** The hole moves from k to p in u, which is v but for the hole. */
  lemma HoleSteps(u: seq<Node>, v: seq<Node>, k: nat, p: nat)
    requires k < |u| && p < |u| && |u| == |v| && p != k && u[k := v[k]] == v
    ensures u[p] == v[p] && u[k := v[p]][p := v[k]] == Swap(v, k, p)
  {
    assert u[p] == u[k := v[k]][p];
  }

  lemma DownUnfolds(d: Shape, v: seq<Node>, ws: Store, k: nat)
    requires InHeap(d, |v|, k) && Stored(d, v, ws)
    ensures d.FirstChild(k) < |v| ==>
      var m := Earliest(v, d.FirstChild(k), LastChild(d, |v|, k));
      k < m < |v| && v[m].w in ws && |Swap(v, k, m)| == |v|
      && Stored(d, Swap(v, k, m), SetActive(ws, v[m].w, k)) && Swap(v, k, m)[m] == v[k]
      && (v[k].at > v[m].at ==> Down(d, v, ws, k) == Down(d, Swap(v, k, m), SetActive(ws, v[m].w, k), m))
    ensures d.FirstChild(k) >= |v| || v[k].at <= v[Earliest(v, d.FirstChild(k), LastChild(d, |v|, k))].at ==>
      Down(d, v, ws, k) == Sifted(v, SetActive(ws, v[k].w, k))
  {
  }

  lemma StoppedMembers(d: Shape, v: seq<Node>, before: Store, u: seq<Node>, after: Store, w: W, t: Tstamp)
    requires Stopped(d, v, before, u, after, w, t)
    ensures Ws(d, u) == Ws(d, v) - {w} && after.Keys == before.Keys
    ensures forall x <- before :: after[x].pending == before[x].pending
  {
  }

  lemma RetimedFields(before: Store, after: Store, w: W, t: Tstamp)
    requires Retimed(before, after, w, t)
    ensures after.Keys == before.Keys && forall x <- before :: after[x].pending == before[x].pending
  {
  }

  lemma RetimedToItself(ws: Store, w: W)
    requires w in ws
    ensures Retimed(ws, ws, w, ws[w].at)
  {
  }

  lemma RetimedSays(before: Store, after: Store, w: W, t: Tstamp)
    requires Retimed(before, after, w, t)
    ensures w in before && w in after && after[w] == before[w].(active := after[w].active, at := t)
  {
  }

  lemma RetimedTwice(first: Store, before: Store, after: Store, w: W, s: Tstamp, t: Tstamp)
    requires Retimed(first, before, w, s) && Retimed(before, after, w, t)
    ensures Retimed(first, after, w, t)
  {
  }

  function OldTimes(ws: Store): Times {
    map w | w in ws :: ws[w].at
  }

  /** The node at j has got a time as it should. */
  predicate Known(v0: seq<Node>, ws0: Store, times: Times, j: nat) {
    j < |v0| && v0[j].w in ws0 && v0[j].w in times
  }

  ghost predicate Settled(v0: seq<Node>, ws0: Store, times: Times, now: Tstamp, j: nat) {
    Known(v0, ws0, times, j) && TimeAfterJump(ws0[v0[j].w], now, times[v0[j].w])
  }

  ghost predicate SettledTo(d: Shape, v0: seq<Node>, ws0: Store, times: Times, now: Tstamp, i: nat) {
    forall j: nat :: d.Root() <= j < i ==> Settled(v0, ws0, times, now, j)
  }

  lemma NothingSettled(d: Shape, v0: seq<Node>, ws0: Store, times: Times, now: Tstamp)
    ensures SettledTo(d, v0, ws0, times, now, d.Root())
  {
  }

  lemma SettleOne(d: Shape, v0: seq<Node>, ws0: Store, times: Times, now: Tstamp, i: nat, w: W, t: Tstamp)
    requires SettledTo(d, v0, ws0, times, now, i) && i < |v0| && v0[i].w == w && w in ws0
    requires TimeAfterJump(ws0[w], now, t) && forall j: nat :: d.Root() <= j < i ==> v0[j].w != v0[i].w
    ensures SettledTo(d, v0, ws0, times[w := t], now, i + 1)
  {
    hide TimeAfterJump;
    var after := times[w := t];
    forall j: nat | d.Root() <= j < i + 1 ensures Settled(v0, ws0, after, now, j) {
      if j < i {
        assert Settled(v0, ws0, times, now, j);
      }
    }
  }

  lemma StillDistinct(d: Shape, v0: seq<Node>, ws0: Store, v: seq<Node>, ws: Store, times: Times, i: nat)
    requires Rescheduled(d, v0, ws0, v, ws, times, i) && InHeap(d, |v|, i)
    ensures |v0| == |v| && v0[i].w == v[i].w && forall j: nat :: d.Root() <= j < i ==> v0[j].w != v0[i].w
  {
  }

  lemma AllSettled(d: Shape, v0: seq<Node>, ws0: Store, times: Times, now: Tstamp)
    requires SettledTo(d, v0, ws0, times, now, |v0|)
    ensures forall w <- Ws(d, v0) :: w in times && w in ws0 && TimeAfterJump(ws0[w], now, times[w])
  {
    hide TimeAfterJump;
    forall w | w in Ws(d, v0) ensures w in times && w in ws0 && TimeAfterJump(ws0[w], now, times[w]) {
      var j := MemberAt(d, v0, w);
      assert Settled(v0, ws0, times, now, j);
    }
  }

  // ---- io watchers and their events ----

  lemma IoStoppedFields(ws: Store, list: seq<W>, i: nat)
    requires i < |list| && forall v <- list :: v in ws
    ensures IoStopped(ws, list, i).Keys == ws.Keys
    ensures forall x <- ws ::
      IoStopped(ws, list, i)[x] == ws[x].(active := if x == list[i] then 0 else ws[x].active,
                                          io := ws[x].io.(next := IoStopped(ws, list, i)[x].io.next))
  {
  }

  /** An active ev_io on this fd. */
  predicate Watches(ws: Store, w: W, fd: int)
    requires w in ws
  {
    ws[w].kind == Io && ws[w].active != 0 && ws[w].io.fd == fd
  }

  lemma IosIn(ws: Store, w: W)
    requires w in F.Ios(ws)
    ensures w in ws && F.Ios(ws)[w].events == ws[w].io.events
  {
  }

  /** The list of an fd holds just its active watchers. */
  lemma ListIs(anfds: seq<F.Anfd>, lists: seq<seq<W>>, changes: seq<nat>, ws: Store, f: int)
    requires FdsRight(anfds, lists, changes, ws)
    ensures |lists| == |anfds|
    ensures 0 <= f < |anfds| ==> Distinct(lists[f])
    ensures 0 <= f < |anfds| ==>
      forall w <- lists[f] :: w in ws && w in F.Ios(ws) && F.Ios(ws)[w].events == ws[w].io.events
    ensures forall w <- ws :: Watches(ws, w, f) <==> 0 <= f < |anfds| && w in lists[f]
  {
    hide F.Ios;
    var ios := F.Ios(ws);
    forall w | w in ws ensures Watches(ws, w, f) <==> 0 <= f < |lists| && w in lists[f] {
      IoViewOf(ws, w);
    }
    if 0 <= f < |lists| {
      assert F.IsList(ios, anfds[f].head, lists[f]);
      forall w | w in lists[f] ensures w in ws && w in ios && ios[w].events == ws[w].io.events {
        IosIn(ws, w);
      }
    }
  }

  /** What is noted for an fd that is up to date. */
  lemma NotedWanted(anfds: seq<F.Anfd>, lists: seq<seq<W>>, ws: Store, f: nat)
    requires FdsRight(anfds, lists, [], ws) && |lists| == |anfds|
    ensures var noted := if f < |anfds| then anfds[f].events else NONE;
            && (noted.read <==> exists w <- ws :: Watches(ws, w, f) && ws[w].io.events.read)
            && (noted.write <==> exists w <- ws :: Watches(ws, w, f) && ws[w].io.events.write)
  {
    ListIs(anfds, lists, [], ws, f);
    var ios := F.Ios(ws);
    forall w | w in ws ensures Watches(ws, w, f) ==> w in ios && ios[w].events == ws[w].io.events {
      IoViewOf(ws, w);
    }
    hide F.Ios, F.Filed;
    if f < |anfds| {
      assert f !in [];
      assert F.UpToDate(anfds, lists, ios, f);
      F.UnionIs(ios, lists[f]);
    }
  }

  const EV_READ: Events := 0x1
  const EV_WRITE: Events := 0x2

  function Bits(m: Mask): Events {
    if m.read then if m.write then 3 else 1 else if m.write then 2 else 0
  }

  function Bitted(hits: seq<(W, Mask)>): (fed: seq<(W, Events)>)
    ensures |fed| == |hits| && forall i :: 0 <= i < |hits| ==> fed[i] == (hits[i].0, Bits(hits[i].1))
  {
    seq(|hits|, i requires 0 <= i < |hits| => (hits[i].0, Bits(hits[i].1)))
  }

  lemma NothingHit(ws: Store, h: seq<Event>)
    ensures OnlyPending(ws, ws) && h == h + Feeds(Bitted([]))
  {
  }

  lemma BittedOneMore(hits: seq<(W, Mask)>, w: W, m: Mask)
    ensures Bitted(hits + [(w, m)]) == Bitted(hits) + [(w, Bits(m))]
  {
  }

  /** The watchers in killed are owed EV_KILLED, and the others what they were. */
  ghost predicate OwedByKill(h0: seq<Event>, h: seq<Event>, killed: set<W>) {
    forall w :: Owed(h, w) == if w in killed then Due(EV_KILLED) else Owed(h0, w)
  }

  lemma NoneKilled(h: seq<Event>)
    ensures OwedByKill(h, h, {})
  {
  }

  lemma OneMoreKilled(h0: seq<Event>, h: seq<Event>, killed: set<W>, w: W)
    requires OwedByKill(h0, h, killed)
    ensures OwedByKill(h0, h + [Cleared(w)] + [Fed(w, EV_KILLED)], killed + {w})
  {
    var g := h + [Cleared(w)];
    assert g[..|h|] == h && (g + [Fed(w, EV_KILLED)])[..|g|] == g;
  }

  /** The active watchers of an fd. */
  ghost function Watching(ws: Store, fd: int): set<W> {
    set w | w in ws && Watches(ws, w, fd)
  }

  lemma HeadWatches(anfds: seq<F.Anfd>, lists: seq<seq<W>>, changes: seq<nat>, ws: Store, fd: nat)
    requires FdsRight(anfds, lists, changes, ws) && fd < |anfds|
    ensures anfds[fd].head == Null ==> Watching(ws, fd) == {}
    ensures anfds[fd].head != Null ==> anfds[fd].head.w in Watching(ws, fd)
  {
    hide Watches;
    ListIs(anfds, lists, changes, ws, fd);
    assert F.IsList(F.Ios(ws), anfds[fd].head, lists[fd]);
  }

  /** One watcher was stopped and fed. */
  lemma StoppedWatching(before: Store, middle: Store, after: Store, fd: int, w: W)
    requires w in before && middle.Keys == before.Keys && OnlyPending(middle, after)
    requires forall x <- middle :: middle[x] == before[x].(active := if x == w then 0 else before[x].active,
                                                           pending := if x == w then 0 else before[x].pending,
                                                           io := before[x].io.(next := middle[x].io.next))
    ensures after.Keys == before.Keys && Watching(after, fd) == Watching(before, fd) - {w}
  {
  }

  /** What was found of the first i watchers of a list. */
  ghost predicate HitsUpTo(ws: Store, list: seq<W>, i: nat, revents: Mask, hits: seq<(W, Mask)>) {
    && i <= |list| && (forall v <- list :: v in F.Ios(ws))
    && hits + F.Hits(F.Ios(ws), list[i..], revents) == F.Hits(F.Ios(ws), list, revents)
  }

  lemma NoHitsYet(ws: Store, list: seq<W>, revents: Mask)
    requires forall v <- list :: v in F.Ios(ws)
    ensures HitsUpTo(ws, list, 0, revents, [])
  {
    F.HitsEnd(F.Ios(ws), list, revents);
  }

  lemma AllHits(ws: Store, list: seq<W>, i: nat, revents: Mask, hits: seq<(W, Mask)>)
    requires HitsUpTo(ws, list, i, revents, hits) && F.At(list, i) == Null
    ensures hits == F.Hits(F.Ios(ws), list, revents)
  {
    F.AtEnd(list, i);
    F.HitsEnd(F.Ios(ws), list, revents);
  }

  /** The next watcher of a list. */
  lemma HitStep(ws: Store, ws0: Store, head: Link, list: seq<W>, i: nat, revents: Mask, hits: seq<(W, Mask)>)
    requires F.IsList(F.Ios(ws), head, list) && F.Ios(ws) == F.Ios(ws0) && HitsUpTo(ws0, list, i, revents, hits)
    requires F.At(list, i) != Null
    ensures i < |list| && F.At(list, i) == To(list[i]) && list[i] in ws && ws[list[i]].kind == Io
    ensures ws[list[i]].io.next == F.At(list, i + 1)
    ensures var m := ws[list[i]].io.events.And(revents);
            HitsUpTo(ws0, list, i + 1, revents, if m.Any() then hits + [(list[i], m)] else hits)
  {
    hide F.IsList, F.Hits, F.Ios;
    F.AtEnd(list, i);
    F.NextOf(F.Ios(ws), head, list, i);
    IosIn(ws, list[i]);
    IoViewOf(ws, list[i]);
    F.HitsStep(F.Ios(ws), list, i, revents);
    F.Joined(hits, (list[i], ws[list[i]].io.events.And(revents)), F.Hits(F.Ios(ws), list[i + 1..], revents));
  }

  /** What a watcher is owed after an event on an fd, if it was owed d. */
  function OwedBy(d: Due, ws: Store, w: W, fd: int, revents: Mask): Due
    requires w in ws
  {
    var m := ws[w].io.events.And(revents);
    if Watches(ws, w, fd) && m.Any() then Or(d, Bits(m)) else d
  }

  ghost predicate OwedByFd(h0: seq<Event>, h: seq<Event>, ws: Store, fd: int, revents: Mask) {
    forall w <- ws :: Owed(h, w) == OwedBy(Owed(h0, w), ws, w, fd, revents)
  }

  lemma HitOnce(ios: F.IoStore, list: seq<W>, revents: Mask)
    requires (forall v <- list :: v in ios) && Distinct(list)
    ensures FedOnce(Bitted(F.Hits(ios, list, revents)))
  {
    F.HitsAre(ios, list, revents, 0, NONE);
  }

  lemma NotHit(ios: F.IoStore, list: seq<W>, revents: Mask, w: W)
    requires (forall v <- list :: v in ios) && Distinct(list)
    requires w in list ==> !ios[w].events.And(revents).Any()
    ensures forall i :: 0 <= i < |Bitted(F.Hits(ios, list, revents))| ==> Bitted(F.Hits(ios, list, revents))[i].0 != w
  {
    var hits := F.Hits(ios, list, revents);
    forall i | 0 <= i < |hits| ensures hits[i].0 != w {
      F.HitsAre(ios, list, revents, hits[i].0, hits[i].1);
    }
  }

  lemma WatchesKept(before: Store, after: Store, w: W, fd: int)
    requires OnlyPending(before, after) && w in after
    ensures w in before && Watches(after, w, fd) == Watches(before, w, fd) && after[w].io == before[w].io
  {
  }

  /** What the watchers of an fd are owed after an event on it. */
  lemma HitsOwed(anfds: seq<F.Anfd>, lists: seq<seq<W>>, changes: seq<nat>, ws0: Store, ws: Store, fd: nat, revents: Mask, h: seq<Event>)
    requires FdsRight(anfds, lists, changes, ws0) && OnlyPending(ws0, ws) && |lists| == |anfds| && fd < |anfds|
    ensures forall v <- lists[fd] :: v in F.Ios(ws0)
    ensures OwedByFd(h, h + Feeds(Bitted(F.Hits(F.Ios(ws0), lists[fd], revents))), ws, fd, revents)
  {
    hide FdsRight, F.Ios, F.Hits, Owed, Feeds, EventsFor, Bits, Bitted, Or, Watches, Distinct, FedOnce;
    ListIs(anfds, lists, changes, ws0, fd);
    var hits := F.Hits(F.Ios(ws0), lists[fd], revents);
    var fed := Bitted(hits);
    forall w | w in ws ensures Owed(h + Feeds(fed), w) == OwedBy(Owed(h, w), ws, w, fd, revents) {
      var m := ws[w].io.events.And(revents);
      HitOnce(F.Ios(ws0), lists[fd], revents);
      OwedAfterFeeds(h, fed, w);
      EventsForIs(fed, w);
      WatchesKept(ws0, ws, w, fd);
      if w in lists[fd] {
        F.HitsAre(F.Ios(ws0), lists[fd], revents, w, m);
        if m.Any() {
          var i :| 0 <= i < |hits| && hits[i] == (w, m);
          assert fed[i] == (w, Bits(m));
        } else {
          NotHit(F.Ios(ws0), lists[fd], revents, w);
        }
      } else {
        NotHit(F.Ios(ws0), lists[fd], revents, w);
      }
    }
  }

  // ---- what the backend reports ----

  lemma BitsHas(m: Mask)
    ensures Has(Bits(m), EV_READ) <==> m.read
    ensures Has(Bits(m), EV_WRITE) <==> m.write
    ensures !Has(Bits(m), 0xffff_fffc)
  {
    assert Common(3, 1) == 1 && Common(3, 2) == 2 && Common(1, 2) == 0 && Common(2, 1) == 0 && Common(1, 1) == 1 && Common(2, 2) == 2;
    assert Common(0, 1) == 0 && Common(0, 2) == 0;
    assert Common(3, 0xffff_fffc) == 0 && Common(1, 0xffff_fffc) == 0 && Common(2, 0xffff_fffc) == 0 && Common(0, 0xffff_fffc) == 0;
  }

  /** What an active ev_io is going to get of what the backend reports: the events it waits for among those reported of its
      fd, unless the interest in that fd changed since the backend was told. */
  ghost function Gets(anfds: seq<F.Anfd>, ws: Store, w: W, ready: seq<(nat, Mask)>): Mask
    requires w in ws
  {
    var x := ws[w];
    if x.kind == Io && x.active != 0 && 0 <= x.io.fd < |anfds| && !anfds[x.io.fd].reify.Any() then
      Mask(x.io.events.read && exists r <- ready :: r.0 == x.io.fd && r.1.read,
           x.io.events.write && exists r <- ready :: r.0 == x.io.fd && r.1.write)
    else NONE
  }

  /** What a watcher is owed with these io events more. */
  function WithBits(d: Due, m: Mask): Due {
    if m.Any() then Or(d, Bits(m)) else d
  }

  /** Every watcher is owed what it gets of that report, on top of what it was owed before. */
  ghost predicate FdsOwed(h0: seq<Event>, h: seq<Event>, anfds: seq<F.Anfd>, ws: Store, ready: seq<(nat, Mask)>) {
    forall w <- ws :: Owed(h, w) == WithBits(Owed(h0, w), Gets(anfds, ws, w, ready))
  }

  lemma NothingReported(h: seq<Event>, anfds: seq<F.Anfd>, ws: Store)
    ensures FdsOwed(h, h, anfds, ws, [])
  {
  }

  lemma BothAssoc(a: Events, b: Events, c: Events)
    ensures Both(Both(a, b), c) == Both(a, Both(b, c))
  {
  }

  lemma BitsOfBoth(a: Mask, b: Mask)
    ensures Both(Bits(a), Bits(b)) == Bits(Mask(a.read || b.read, a.write || b.write))
  {
    assert Both(1, 2) == 3 && Both(2, 1) == 3 && Both(3, 1) == 3 && Both(1, 3) == 3 && Both(3, 2) == 3 && Both(2, 3) == 3;
    assert Both(1, 1) == 1 && Both(2, 2) == 2 && Both(3, 3) == 3 && Both(0, 0) == 0;
    assert Both(0, 1) == 1 && Both(1, 0) == 1 && Both(0, 2) == 2 && Both(2, 0) == 2 && Both(0, 3) == 3 && Both(3, 0) == 3;
  }

  lemma MoreBits(d: Due, a: Mask, b: Mask)
    ensures WithBits(WithBits(d, a), b) == WithBits(d, Mask(a.read || b.read, a.write || b.write))
  {
    hide Both, Bits;
    if a.Any() && b.Any() {
      BitsOfBoth(a, b);
      if d.Due? {
        BothAssoc(d.events, Bits(a), Bits(b));
      }
    }
  }

  /** One more report is passed on. */
  lemma OneReportMore(h0: seq<Event>, h: seq<Event>, g: seq<Event>, anfds: seq<F.Anfd>, ws0: Store, ws: Store,
                      ready: seq<(nat, Mask)>, i: nat)
    requires i < |ready| && FdsOwed(h0, h, anfds, ws0, ready[..i]) && OnlyPending(ws0, ws)
    requires var fd := ready[i].0;
             if fd < |anfds| && !anfds[fd].reify.Any() then OwedByFd(h, g, ws, fd, ready[i].1) else g == h
    ensures FdsOwed(h0, g, anfds, ws0, ready[..i + 1])
  {
    hide Owed, Bits, Or;
    var old1, new1, r := ready[..i], ready[..i + 1], ready[i];
    assert new1 == old1 + [r];
    forall w | w in ws0 ensures Owed(g, w) == WithBits(Owed(h0, w), Gets(anfds, ws0, w, new1)) {
      var a, x := Gets(anfds, ws0, w, old1), ws0[w];
      assert ws[w].io == x.io && ws[w].kind == x.kind && ws[w].active == x.active;
      if x.kind == Io && x.active != 0 && x.io.fd == r.0 && r.0 < |anfds| && !anfds[r.0].reify.Any() {
        assert OwedBy(Owed(h, w), ws, w, r.0, r.1) == WithBits(Owed(h, w), x.io.events.And(r.1));
        MoreBits(Owed(h0, w), a, x.io.events.And(r.1));
      }
    }
  }

  // ---- a turn of the loop ----

  /** What happens in a turn of ev_run after the wait: the history after the fds; whether the clock jumped; the timers and
      periodics that fire; the queues when idle watchers are looked at, and those that are fed; the history after all
      that, before callbacks run. */
  datatype Turn = Turn(fds: seq<Event>, jumped: bool, timers: Pass, afterTimers: seq<Event>, periodics: Pass,
                       afterPeriodics: seq<Event>, queues: Queues, idle: seq<W>, afterIdle: seq<Event>, all: seq<Event>)

  /** Everyone is owed just what has happened for it. */
  ghost predicate AllFed(h0: seq<Event>, t: Turn, anfds: seq<F.Anfd>, ws0: Store, ready: seq<(nat, Mask)>, checks: seq<W>) {
    && h0 <= t.fds <= t.afterTimers <= t.afterPeriodics <= t.afterIdle <= t.all
    && FdsOwed(h0, t.fds, anfds, ws0, ready)
    && OwedAfterPass(t.fds, t.afterTimers, t.timers.before, t.timers.fired, EV_TIMER)
    && OwedAfterPass(t.afterTimers, t.afterPeriodics, t.periodics.before, t.periodics.fired, EV_PERIODIC)
    && OwedMore(t.afterPeriodics, t.afterIdle, t.idle, EV_IDLE)
    && OwedMore(t.afterIdle, t.all, checks, EV_CHECK)
  }

  lemma AllFedGrows(h0: seq<Event>, t: Turn, anfds: seq<F.Anfd>, ws0: Store, ready: seq<(nat, Mask)>, checks: seq<W>)
    requires AllFed(h0, t, anfds, ws0, ready, checks)
    ensures h0 <= t.all && t.afterTimers <= t.all && t.afterPeriodics <= t.all
  {
  }

  lemma OnTimeSince(ws0: Store, t: Turn, mnNow: Tstamp, rtNow: Tstamp)
    requires OnTime(ws0, t, mnNow, rtNow)
    ensures |t.afterTimers| == t.timers.since && |t.afterPeriodics| == t.periodics.since
  {
  }

  /** All of them are invoked with the events, or cleared, from n on. */
  ghost predicate ListAnswered(h: seq<Event>, n: nat, list: seq<W>, e: Events) {
    forall w <- list :: Answered(h, n, w, e)
  }

  ghost predicate OwedAtLeast(h: seq<Event>, w: W, e: Events) {
    Owed(h, w).Due? && Covers(Owed(h, w).events, e)
  }

  lemma OrCovers(d: Due, e: Events)
    ensures Or(d, e).Due? && Covers(Or(d, e).events, e)
  {
    hide Both, Has;
    if d.Due? {
      BothCovers(d.events, e);
    }
  }

  lemma ListGetsAnswered(ws: Store, h0: seq<Event>, h: seq<Event>, list: seq<W>, e: Events)
    requires h0 <= h && Fair(h, ws) && forall w <- list :: w != DUMMY && OwedAtLeast(h0, w, e) && Owed(h, w) == NotDue
    ensures ListAnswered(h, |h0|, list, e)
  {
    hide Owed, Fair, Covers, Answered;
    forall w | w in list ensures Answered(h, |h0|, w, e) {
      GetsAnswered(h0, h, ws, w, e);
    }
  }

  lemma MoreIsAtLeast(h0: seq<Event>, h: seq<Event>, list: seq<W>, e: Events)
    requires OwedMore(h0, h, list, e)
    ensures forall w <- list :: OwedAtLeast(h, w, e)
  {
    hide Owed, Or, Covers;
    forall w | w in list ensures OwedAtLeast(h, w, e) {
      OrCovers(Owed(h0, w), e);
    }
  }

  lemma PassIsAtLeast(h0: seq<Event>, h: seq<Event>, ws0: Store, fired: seq<W>, e: Events)
    requires OwedAfterPass(h0, h, ws0, fired, e) && forall w <- fired :: w in ws0 && w != DUMMY
    ensures forall w <- fired :: OwedAtLeast(h, w, e)
  {
    hide Owed, Or, Covers;
    forall w | w in fired ensures OwedAtLeast(h, w, e) {
      OrCovers(Owed(h0, w), e);
      OrCovers(NotDue, e);
      OrNothing(e);
    }
  }

  lemma OrNothing(e: Events)
    ensures Or(NotDue, e) == Due(e)
  {
  }

  /** Whatever io events a watcher got are delivered, unless it is cleared. */
  ghost predicate FdsAnswered(h: seq<Event>, n: nat, anfds: seq<F.Anfd>, ws: Store, ready: seq<(nat, Mask)>) {
    forall w <- ws :: w != DUMMY && Gets(anfds, ws, w, ready).Any() ==> Answered(h, n, w, Bits(Gets(anfds, ws, w, ready)))
  }

  lemma FdsGetAnswered(ws: Store, h0: seq<Event>, h1: seq<Event>, h: seq<Event>, anfds: seq<F.Anfd>, ws0: Store, ready: seq<(nat, Mask)>)
    requires h1 <= h && Fair(h, ws) && FdsOwed(h0, h1, anfds, ws0, ready) && forall w <- ws0 :: w != DUMMY ==> Owed(h, w) == NotDue
    ensures FdsAnswered(h, |h1|, anfds, ws0, ready)
  {
    hide Owed, Fair, Covers, Answered, Gets, Bits, Or;
    forall w | w in ws0 && w != DUMMY && Gets(anfds, ws0, w, ready).Any()
      ensures Answered(h, |h1|, w, Bits(Gets(anfds, ws0, w, ready)))
    {
      OrCovers(Owed(h0, w), Bits(Gets(anfds, ws0, w, ready)));
      GetsAnswered(h1, h, ws, w, Bits(Gets(anfds, ws0, w, ready)));
    }
  }

  /** All watchers of the kind that were active are invoked with the events, or cleared, from n on. */
  ghost predicate KindAnswered(h: seq<Event>, n: nat, ws0: Store, kind: Kind, e: Events) {
    forall w <- ws0 :: ws0[w].kind == kind && ws0[w].active != 0 ==> Answered(h, n, w, e)
  }

  lemma KindGetsAnswered(c: Setup, p: Parts, ws: Store, q: Queues, h: seq<Event>, h0: seq<Event>, h1: seq<Event>,
                         ws0: Store, list: seq<W>, kind: Kind, e: Events)
    requires Consistent(c, p, ws, q, h) && h0 <= h1 <= h && OwedMore(h0, h1, list, e)
    requires forall w <- ws :: w != DUMMY ==> Owed(h, w) == NotDue
    requires Prioritised(c, ws0) && forall w <- list :: w in ws0 && w != DUMMY
    requires forall w <- ws0 :: ws0[w].kind == kind && ws0[w].active != 0 <==> w in list
    ensures KindAnswered(h, |h0|, ws0, kind, e)
  {
    hide IsPending, Placed, AllInTurn, Fair, Accounted, Owed, OwedMore, Answered, OwedAtLeast;
    MoreIsAtLeast(h0, h1, list, e);
    ListGetsAnswered(ws, h1, h, list, e);
    forall w | w in list ensures Answered(h, |h0|, w, e) {
      AnsweredSooner(h, |h0|, |h1|, w, e);
    }
  }

  lemma AnsweredSooner(h: seq<Event>, m: nat, n: nat, w: W, e: Events)
    requires Answered(h, n, w, e) && m <= n
    ensures Answered(h, m, w, e)
  {
  }

  lemma NoneOfKind(h: seq<Event>, ws0: Store, list: seq<W>, kind: Kind, e: Events)
    requires list == [] && forall w <- ws0 :: ws0[w].kind == kind && ws0[w].active != 0 <==> w in list
    ensures KindAnswered(h, |h|, ws0, kind, e)
  {
  }

  /** Everything that has happened in a turn is delivered, unless a watcher is cleared. */
  ghost predicate AllAnswered(t: Turn, anfds: seq<F.Anfd>, ws0: Store, ready: seq<(nat, Mask)>, h: seq<Event>) {
    && FdsAnswered(h, |t.fds|, anfds, ws0, ready)
    && ListAnswered(h, |t.afterTimers|, t.timers.fired, EV_TIMER)
    && ListAnswered(h, |t.afterPeriodics|, t.periodics.fired, EV_PERIODIC)
    && ListAnswered(h, |t.afterIdle|, t.idle, EV_IDLE)
    && KindAnswered(h, |t.afterIdle|, ws0, Check, EV_CHECK)
  }

  lemma TurnAnswered(c: Setup, p: Parts, ws: Store, q: Queues, h: seq<Event>, h0: seq<Event>, t: Turn, anfds: seq<F.Anfd>, ws0: Store,
                     ready: seq<(nat, Mask)>, checks: seq<W>, mnNow: Tstamp, rtNow: Tstamp)
    requires Consistent(c, p, ws, q, h) && t.all <= h && AllFed(h0, t, anfds, ws0, ready, checks) && OnTime(ws0, t, mnNow, rtNow)
    requires forall w <- ws :: w != DUMMY ==> Owed(h, w) == NotDue
    requires Prioritised(c, ws0) && forall w <- t.idle + checks :: w in ws0 && w != DUMMY
    requires forall w <- ws0 :: ws0[w].kind == Check && ws0[w].active != 0 <==> w in checks
    ensures AllAnswered(t, anfds, ws0, ready, h)
  {
    hide IsPending, Placed, AllInTurn, Fair, Accounted, Owed, FdsOwed, OwedAfterPass, OwedMore, FdsAnswered, ListAnswered, OwedAtLeast,
         KindAnswered, SameActive, Jumped, AllRepeated;
    FdsGetAnswered(ws, h0, t.fds, h, anfds, ws0, ready);
    PassIsAtLeast(t.fds, t.afterTimers, t.timers.before, t.timers.fired, EV_TIMER);
    ListGetsAnswered(ws, t.afterTimers, h, t.timers.fired, EV_TIMER);
    PassIsAtLeast(t.afterTimers, t.afterPeriodics, t.periodics.before, t.periodics.fired, EV_PERIODIC);
    ListGetsAnswered(ws, t.afterPeriodics, h, t.periodics.fired, EV_PERIODIC);
    MoreIsAtLeast(t.afterPeriodics, t.afterIdle, t.idle, EV_IDLE);
    ListGetsAnswered(ws, t.afterIdle, h, t.idle, EV_IDLE);
    KindGetsAnswered(c, p, ws, q, h, t.afterIdle, t.all, ws0, checks, Check, EV_CHECK);
  }

  // ---- active watchers keep going forward ----

  ghost predicate GoForward(members: set<W>, ws: Store) {
    forall w <- members :: w in ws && ws[w].Forward()
  }

  /** Watchers keep what Forward depends on. */
  ghost predicate SameSettings(before: Store, after: Store) {
    && after.Keys == before.Keys
    && forall w <- before ::
         after[w].kind == before[w].kind && after[w].repeat == before[w].repeat && after[w].custom == before[w].custom
  }

  lemma SettingsKept(members: set<W>, before: Store, after: Store)
    requires SameSettings(before, after)
    ensures GoForward(members, before) ==> GoForward(members, after)
  {
  }

  lemma StartedForward(d: Shape, v: seq<Node>, before: Store, u: seq<Node>, after: Store, w: W, t: Tstamp, others: set<W>)
    requires Started(d, v, before, u, after, w, t) && w in before && before[w].Forward()
    ensures GoForward(Ws(d, v), before) ==> GoForward(Ws(d, u), after)
    ensures GoForward(others, before) ==> GoForward(others, after)
  {
    hide Ws;
  }

  lemma StartedIsActive(d: Shape, v: seq<Node>, before: Store, u: seq<Node>, after: Store, w: W, t: Tstamp)
    requires Started(d, v, before, u, after, w, t) && IsHeap(d, u, after) && w in before && before[w].kind == d.kind
    ensures w in after && after[w].active != 0
  {
    hide Ws, IsHeap;
    ActiveInHeap(d, u, after, w);
  }

  lemma NowActive(d: Shape, before: Store, v: seq<Node>, after: Store, w: W, t: Tstamp)
    requires Retimed(before, after, w, t) && IsHeap(d, v, after) && w in Ws(d, v) && w in before && before[w].kind == d.kind
    ensures w in after && after[w].active != 0 && after[w].pending == before[w].pending
  {
    hide Ws, IsHeap;
    ActiveInHeap(d, v, after, w);
  }

  lemma StoppedInactive(d: Shape, v: seq<Node>, before: Store, u: seq<Node>, after: Store, w: W, t: Tstamp)
    requires Stopped(d, v, before, u, after, w, t)
    ensures w in after && after[w].active == 0
  {
    hide Ws;
  }

  lemma StoppedForward(d: Shape, v: seq<Node>, before: Store, u: seq<Node>, after: Store, w: W, t: Tstamp, others: set<W>)
    requires Stopped(d, v, before, u, after, w, t)
    ensures GoForward(Ws(d, v), before) ==> GoForward(Ws(d, u), after)
    ensures GoForward(others, before) ==> GoForward(others, after)
  {
    hide Ws;
  }

  lemma RetimedForward(before: Store, after: Store, w: W, t: Tstamp, members: set<W>, others: set<W>)
    requires Retimed(before, after, w, t) && before[w].Forward()
    ensures GoForward(members, before) ==> GoForward(members + {w}, after)
    ensures GoForward(others, before) ==> GoForward(others, after)
  {
  }

  lemma FewerForward(members: set<W>, w: W, ws: Store)
    ensures GoForward(members, ws) ==> GoForward(members - {w}, ws)
  {
  }

  lemma NumberedSettings(ws: Store, w: W)
    requires w in ws
    ensures forall k: nat :: SameSettings(ws, A.Numbered(ws, w, k))
  {
  }

  lemma RenumberedSettings(kind: Kind, before: Store, after: Store)
    requires A.Renumbered(kind, before, after)
    ensures SameSettings(before, after)
  {
  }

  lemma ClearSettings(q: Queues, ws: Store, w: W)
    requires IsPending(q, ws) && w in ws
    ensures SameSettings(ws, Clear(q, ws, w).ws)
  {
  }

  lemma PendingSettings(before: Store, after: Store)
    requires OnlyPending(before, after)
    ensures SameSettings(before, after)
  {
  }

  lemma PendingForward(members: set<W>, before: Store, after: Store)
    requires OnlyPending(before, after)
    ensures GoForward(members, before) ==> GoForward(members, after)
  {
    PendingSettings(before, after);
  }

  lemma NewTimesSettings(d: Shape, v0: seq<Node>, ws0: Store, ws: Store, times: Times)
    requires NewTimes(d, v0, ws0, ws, times)
    ensures SameSettings(ws0, ws) && ws.Keys == ws0.Keys
  {
    hide Ws;
  }

  lemma TimersForward(d: Shape, v: seq<Node>, ws: Store)
    requires GoForward(Ws(d, v), ws) && IsHeap(d, v, ws) && d.kind == Timer
    ensures RepeatsForward(d, v, ws)
  {
    hide Ws, IsHeap;
    MembersKnown(d, v, ws);
  }

  // ---- passes over the timers and periodics ----

  /** Periodics that have fired got their times as they should. */
  ghost predicate SettledTimes(ws0: Store, fired: seq<W>, times: Times, now: Tstamp) {
    forall w <- fired :: w in ws0 && w in times && TimeAfterFiring(ws0[w], now, times[w])
  }

  lemma NoneSettled(ws0: Store, times: Times, now: Tstamp)
    ensures SettledTimes(ws0, [], times, now)
  {
  }

  lemma OneMoreSettled(ws0: Store, ws: Store, fired: seq<W>, times: Times, now: Tstamp, w: W, t: Tstamp)
    requires SettledTimes(ws0, fired, times, now) && w in ws && w in ws0 && ws[w] == ws0[w].(active := ws[w].active)
    requires TimeAfterFiring(ws[w], now, t) && w !in fired
    ensures SettledTimes(ws0, fired + [w], times[w := t], now)
  {
    hide IsNext;
  }

  lemma AllDueFired(d: Shape, v0: seq<Node>, ws0: Store, v: seq<Node>, ws: Store, fired: seq<W>, times: Times, now: Tstamp, n: nat)
    requires Expired(d, v0, ws0, v, ws, fired, times, now) && IsHeap(d, v0, ws0)
    ensures FiredAll(d.kind, Pass(ws0, fired, n), now)
  {
    hide Ws, IsHeap, FirstOnTop, StillActive;
    MembersKnown(d, v0, ws0);
    forall w | w in ws0 && ws0[w].kind == d.kind ensures ws0[w].active != 0 <==> w in Ws(d, v0) {
      ActiveInHeap(d, v0, ws0, w);
    }
  }

  lemma PassForward(d: Shape, v0: seq<Node>, ws0: Store, v: seq<Node>, ws: Store, fired: seq<W>, times: Times, now: Tstamp,
                    others: set<W>)
    requires Expired(d, v0, ws0, v, ws, fired, times, now)
    ensures GoForward(Ws(d, v0), ws0) ==> GoForward(Ws(d, v), ws)
    ensures GoForward(others, ws0) ==> GoForward(others, ws)
  {
    hide Ws, FiredInOrder, FirstOnTop;
  }

  // ---- what a turn does to the times before the passes ----

  /** The watchers of that kind are active and due as before. */
  ghost predicate SameActive(kind: Kind, before: Store, after: Store) {
    forall w <- before :: before[w].kind == kind ==>
      && w in after && after[w].kind == kind && after[w].at == before[w].at && (after[w].active != 0 <==> before[w].active != 0)
  }

  /** Active periodics are due as they should be after a jump. */
  ghost predicate Jumped(before: Store, after: Store, now: Tstamp) {
    forall w <- before :: before[w].kind == Periodic ==>
      && w in after && after[w].kind == Periodic && (after[w].active != 0 <==> before[w].active != 0)
      && (before[w].active != 0 ==> TimeAfterJump(before[w], now, after[w].at))
  }

  lemma PendingActive(kind: Kind, before: Store, after: Store)
    requires OnlyPending(before, after)
    ensures SameActive(kind, before, after)
  {
  }

  lemma NothingMoved(ws: Store)
    ensures SameActive(Timer, ws, ws) && SameActive(Periodic, ws, ws)
  {
  }

  lemma ActiveTwice(kind: Kind, first: Store, before: Store, after: Store)
    requires SameActive(kind, first, before) && SameActive(kind, before, after)
    ensures SameActive(kind, first, after)
  {
  }

  lemma JumpedThen(first: Store, before: Store, after: Store, now: Tstamp)
    requires OnlyPending(first, before) && Jumped(before, after, now)
    ensures Jumped(first, after, now)
  {
    hide IsNext;
  }

  lemma JumpedKept(first: Store, before: Store, after: Store, now: Tstamp)
    requires Jumped(first, before, now) && SameActive(Periodic, before, after)
    ensures Jumped(first, after, now)
  {
    hide TimeAfterJump;
  }

  lemma NewTimesOthers(d: Shape, v0: seq<Node>, ws0: Store, ws: Store, times: Times, kind: Kind)
    requires NewTimes(d, v0, ws0, ws, times) && IsHeap(d, v0, ws0) && kind != d.kind
    ensures SameActive(kind, ws0, ws)
  {
    hide Ws, IsHeap;
    MembersKnown(d, v0, ws0);
  }

  lemma AllJumped(d: Shape, v0: seq<Node>, ws0: Store, v: seq<Node>, ws: Store, times: Times, now: Tstamp)
    requires NewTimes(d, v0, ws0, ws, times) && IsHeap(d, v0, ws0) && IsHeap(d, v, ws) && Ws(d, v) == Ws(d, v0)
    requires d.kind == Periodic && forall w <- Ws(d, v0) :: w in times && w in ws0 && TimeAfterJump(ws0[w], now, times[w])
    ensures Jumped(ws0, ws, now)
  {
    hide Ws, IsHeap, TimeAfterJump;
    MembersKnown(d, v0, ws0);
    MembersKnown(d, v, ws);
    forall w | w in ws0 && ws0[w].kind == d.kind
      ensures (ws0[w].active != 0 <==> w in Ws(d, v0)) && (ws[w].active != 0 <==> w in Ws(d, v))
    {
      ActiveInHeap(d, v0, ws0, w);
      ActiveInHeap(d, v, ws, w);
    }
  }

  /** A pass leaves the watchers of the other heap as they are. */
  lemma ExpiredOthers(d: Shape, v0: seq<Node>, ws0: Store, v: seq<Node>, ws: Store, fired: seq<W>, times: Times, now: Tstamp,
                      e: Shape, u: seq<Node>)
    requires Expired(d, v0, ws0, v, ws, fired, times, now) && IsHeap(d, v0, ws0) && e.kind != d.kind
    requires IsHeap(e, u, ws0) && IsHeap(e, u, ws)
    ensures SameActive(e.kind, ws0, ws) && ws.Keys == ws0.Keys
  {
    hide Ws, IsHeap, FirstOnTop, StillActive;
    MembersKnown(d, v0, ws0);
    forall w | w in ws0 && ws0[w].kind == e.kind ensures ws0[w].active != 0 <==> ws[w].active != 0 {
      ActiveInHeap(e, u, ws0, w);
      ActiveInHeap(e, u, ws, w);
    }
  }

  /** The timers and periodics that fire are those that are due by the times just read, those of the periodics being settled
      anew after a jump. */
  ghost predicate OnTime(ws0: Store, t: Turn, mnNow: Tstamp, rtNow: Tstamp) {
    && t.timers.before.Keys == ws0.Keys == t.periodics.before.Keys
    && DUMMY !in t.timers.fired && DUMMY !in t.periodics.fired
    && |t.afterTimers| == t.timers.since && |t.afterPeriodics| == t.periodics.since
    && FiredAll(Timer, t.timers, mnNow) && FiredAll(Periodic, t.periodics, rtNow)
    && SameActive(Timer, ws0, t.timers.before)
    && (if t.jumped then Jumped(ws0, t.periodics.before, rtNow) else SameActive(Periodic, ws0, t.periodics.before))
    && AllRepeated(t.timers.before, t.periodics.before, t.timers.fired, mnNow)
  }

  /** Timers that were due at that time have fired, and were invoked or cleared. */
  ghost predicate TimersDue(ws0: Store, t: Turn, first: Tstamp, h: seq<Event>) {
    forall w <- ws0 :: ws0[w].kind == Timer && ws0[w].active != 0 && ws0[w].at < first ==>
      w in t.timers.fired && Answered(h, |t.afterTimers|, w, EV_TIMER)
  }

  lemma TimersAnswered(ws0: Store, t: Turn, mnNow: Tstamp, rtNow: Tstamp, first: Tstamp, anfds: seq<F.Anfd>, ready: seq<(nat, Mask)>,
                       h: seq<Event>)
    requires OnTime(ws0, t, mnNow, rtNow) && AllAnswered(t, anfds, ws0, ready, h)
    ensures first <= mnNow ==> TimersDue(ws0, t, first, h)
  {
    hide Answered, FdsAnswered, KindAnswered, AllRepeated, Jumped;
  }

  lemma NoDummyFired(ws0: Store, fired: seq<W>, h: seq<Event>)
    requires QueuedInOrder(ws0, fired, h)
    ensures DUMMY !in fired
  {
  }

  lemma StillOnTime(first: Store, ws0: Store, t: Turn, mnNow: Tstamp, rtNow: Tstamp)
    requires OnlyPending(first, ws0) && OnTime(ws0, t, mnNow, rtNow)
    ensures OnTime(first, t, mnNow, rtNow)
  {
    hide FiredAll, AllRepeated, SameActive, Jumped;
    PendingActive(Timer, first, ws0);
    PendingActive(Periodic, first, ws0);
    ActiveTwice(Timer, first, ws0, t.timers.before);
    if t.jumped {
      JumpedThen(first, ws0, t.periodics.before, rtNow);
    } else {
      ActiveTwice(Periodic, first, ws0, t.periodics.before);
    }
  }

  lemma DoneInOrder(c: Setup, p: Parts, ws: Store, q: Queues, h: seq<Event>, pass: Pass, h1: seq<Event>)
    requires Consistent(c, p, ws, q, h) && h1 <= h && |h1| == pass.since && Prioritised(c, pass.before)
    requires QueuedInOrder(pass.before, pass.fired, h1) && forall w <- ws :: w != DUMMY ==> Owed(h, w) == NotDue
    ensures RunsInOrder(pass.before, pass.fired, h, pass.since) && BothInOrder(pass.before, pass.fired, h, pass.since)
  {
    hide IsPending, Placed, AllInTurn, Fair, Accounted, RunsInOrder, BothInOrder, Owed, QueuedAt;
    RunInOrder(pass.before, pass.fired, h1, h, ws);
    AllRun(pass.before, pass.fired, h1, h);
  }
}
