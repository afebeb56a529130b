/** A whole pass of timers_reify or periodics_reify: which watchers fire, in which order, what becomes of them. */
module Expiry {

  import opened Basics
  import opened Watchers
  import opened Heap
  import opened Pending
  import opened LoopState

  const EV_TIMER: Events := 0x100
  const EV_PERIODIC: Events := 0x200

  /** The times that watchers get when they fire. */
  type Times = map<W, Tstamp>

  /** The time of a timer after it fired at now: repeating ones are rescheduled, the others stopped. */
  function NextTime(x: Watcher, now: Tstamp): Tstamp {
    if !x.Repeats() then x.at - now
    else if x.at + x.repeat < now then now
    else x.at + x.repeat
  }

  function TimerTimes(ws0: Store, now: Tstamp): Times {
    map w | w in ws0 :: NextTime(ws0[w], now)
  }

  /** A repeating timer that fired is due once more after its repeat, or now if that is over already; another one is left
      with the time it was late by. */
  predicate RepeatTime(x: Watcher, now: Tstamp, at: Tstamp) {
    if x.repeat == 0.0 then at == x.at - now
    else && at >= now && at >= x.at + x.repeat && (at == now || at == x.at + x.repeat)
  }

  ghost predicate AllRepeated(ws0: Store, ws: Store, fired: seq<W>, now: Tstamp) {
    forall w <- fired :: w in ws0 && w in ws && RepeatTime(ws0[w], now, ws[w].at) && (ws[w].active != 0 <==> ws0[w].repeat != 0.0)
  }

  /** Every watcher's fields after the timers in fired have fired, from ws0. */
  ghost predicate FiredFields(ws0: Store, ws: Store, fired: seq<W>, times: Times) {
    && ws.Keys == ws0.Keys
    && forall w | w in ws0 ::
         && w in times
         && ws[w] == ws0[w].(active := ws[w].active,
                             at := if w in fired then times[w] else ws0[w].at,
                             pending := if w in fired && !ws0[w].Repeats() then 0 else ws0[w].pending)
  }

  /** The fired timers were active and due, and are listed by expiry, each once. */
  ghost predicate FiredInOrder(d: Shape, v0: seq<Node>, ws0: Store, fired: seq<W>, now: Tstamp) {
    && (forall x | x in fired :: x in Ws(d, v0) && x in ws0 && ws0[x].at < now)
    && (forall i: nat, j: nat :: i < j < |fired| ==>
          fired[i] in ws0 && fired[j] in ws0 && fired[i] != fired[j] && ws0[fired[i]].at <= ws0[fired[j]].at)
  }

  /** No timer yet to fire was due before one that has. */
  ghost predicate RestIsLater(d: Shape, v0: seq<Node>, ws0: Store, fired: seq<W>) {
    forall w, x | w in Ws(d, v0) && w !in fired && x in fired && w in ws0 && x in ws0 :: ws0[x].at <= ws0[w].at
  }

  /** The timers still active: all but the fired ones that do not repeat. */
  ghost function StillActive(d: Shape, v0: seq<Node>, ws0: Store, fired: seq<W>): set<W> {
    set w | w in Ws(d, v0) && !(w in fired && w in ws0 && !ws0[w].Repeats())
  }

  ghost predicate Reified(d: Shape, v0: seq<Node>, ws0: Store, v: seq<Node>, ws: Store, fired: seq<W>,
                          times: Times, now: Tstamp) {
    && FiredFields(ws0, ws, fired, times)
    && FiredInOrder(d, v0, ws0, fired, now)
    && RestIsLater(d, v0, ws0, fired)
    && Ws(d, v) == StillActive(d, v0, ws0, fired)
  }

  ghost predicate RepeatsForward(d: Shape, v0: seq<Node>, ws0: Store) {
    forall w | w in Ws(d, v0) :: w in ws0 && ws0[w].repeat >= 0.0
  }

  /** Watchers are never rescheduled to the past. */
  ghost predicate Onward(d: Shape, v0: seq<Node>, ws0: Store, times: Times, now: Tstamp) {
    forall w | w in Ws(d, v0) :: w in ws0 && w in times && (ws0[w].Repeats() ==> times[w] >= now)
  }

  lemma TimersOnward(d: Shape, v0: seq<Node>, ws0: Store, now: Tstamp)
    requires RepeatsForward(d, v0, ws0)
    ensures Onward(d, v0, ws0, TimerTimes(ws0, now), now)
  {
  }

  /** Times of periodics before any of them has fired: the final one of those that do not repeat. */
  function NoTimesYet(ws0: Store, now: Tstamp): Times {
    map w | w in ws0 :: if ws0[w].Repeats() then now else ws0[w].at
  }

  lemma NoTimesOnward(d: Shape, v0: seq<Node>, ws0: Store, now: Tstamp)
    requires IsHeap(d, v0, ws0)
    ensures Onward(d, v0, ws0, NoTimesYet(ws0, now), now)
  {
    forall w | w in Ws(d, v0) ensures w in ws0 {
      HeapKnown(d, v0, ws0, w);
    }
  }

  /** The time of a watcher is settled when it fires. */
  lemma TimeSettled(d: Shape, v0: seq<Node>, ws0: Store, v: seq<Node>, ws: Store, fired: seq<W>, times: Times, now: Tstamp, w: W, t: Tstamp)
    requires Reified(d, v0, ws0, v, ws, fired, times, now) && Onward(d, v0, ws0, times, now)
    requires w in ws0 && w !in fired && (ws0[w].Repeats() ==> t >= now)
    ensures Reified(d, v0, ws0, v, ws, fired, times[w := t], now) && Onward(d, v0, ws0, times[w := t], now)
  {
  }

  lemma HeapKnown(d: Shape, v: seq<Node>, ws: Store, w: W)
    requires IsHeap(d, v, ws) && w in Ws(d, v)
    ensures w in ws
  {
    var j := MemberAt(d, v, w);
  }

  /** The first timer, if it is due, has not fired yet and is next in the order. */
  lemma FirstIsNext(d: Shape, v0: seq<Node>, ws0: Store, v: seq<Node>, ws: Store, fired: seq<W>, times: Times, now: Tstamp)
    requires Reified(d, v0, ws0, v, ws, fired, times, now) && IsHeap(d, v, ws) && Onward(d, v0, ws0, times, now)
    requires |v| > d.Root() && v[d.Root()].at < now
    ensures var w := v[d.Root()].w;
            && w in ws && w in ws0 && ws[w].at == ws0[w].at < now && w !in fired && w in Ws(d, v0)
            && ws[w].Repeats() == ws0[w].Repeats() && ws[w].active != 0
            && FiredInOrder(d, v0, ws0, fired + [w], now)
            && RestIsLater(d, v0, ws0, fired + [w])
  {
    var w := v[d.Root()].w;
    assert v[d.Root()] in Ns(d, v);
    ActiveInHeap(d, v, ws, w);
    assert w in StillActive(d, v0, ws0, fired);
    forall u, x | u in Ws(d, v0) && u !in fired + [w] && x in fired + [w] && u in ws0 && x in ws0
      ensures ws0[x].at <= ws0[u].at
    {
      if x == w {
        assert u in StillActive(d, v0, ws0, fired);
        RootIsDueFirst(d, v, ws, u);
      }
    }
  }

  lemma RepeatFields(ws0: Store, ws: Store, fired: seq<W>, times: Times, w: W, after: Store)
    requires FiredFields(ws0, ws, fired, times) && w in ws && w !in fired && ws[w].Repeats()
    requires w in times && Retimed(ws, after, w, times[w])
    ensures FiredFields(ws0, after, fired + [w], times)
  {
  }

  lemma LastFields(ws0: Store, ws: Store, fired: seq<W>, times: Times, w: W, after: Store)
    requires FiredFields(ws0, ws, fired, times) && w in ws && w !in fired && !ws[w].Repeats()
    requires w in times && Retimed(SetPending(ws, w, 0), after, w, times[w])
    ensures FiredFields(ws0, after, fired + [w], times)
  {
  }

  lemma ActiveStep(d: Shape, v0: seq<Node>, ws0: Store, fired: seq<W>, w: W)
    requires w in ws0
    ensures StillActive(d, v0, ws0, fired + [w])
            == StillActive(d, v0, ws0, fired) - if !ws0[w].Repeats() then {w} else {}
  {
  }

  /** A repeating timer fires: it is rescheduled and stays. */
  lemma RepeatFires(d: Shape, v0: seq<Node>, ws0: Store, v: seq<Node>, ws: Store, fired: seq<W>, times: Times, now: Tstamp,
                    u: seq<Node>, after: Store, w: W)
    requires Reified(d, v0, ws0, v, ws, fired, times, now) && IsHeap(d, v, ws) && Onward(d, v0, ws0, times, now)
    requires |v| > d.Root() && v[d.Root()].at < now && w == v[d.Root()].w
    requires w in ws && ws[w].Repeats()
    requires w in times && Retimed(ws, after, w, times[w]) && Ws(d, u) == Ws(d, v)
    ensures Reified(d, v0, ws0, u, after, fired + [w], times, now)
  {
    hide FiredInOrder, RestIsLater, FiredFields, StillActive, IsHeap, Ws, Retimed, Onward;
    FirstIsNext(d, v0, ws0, v, ws, fired, times, now);
    RepeatFields(ws0, ws, fired, times, w, after);
    ActiveStep(d, v0, ws0, fired, w);
  }

  /** A timer that does not repeat fires: it is cleared and stopped. */
  lemma LastFires(d: Shape, v0: seq<Node>, ws0: Store, v: seq<Node>, ws: Store, fired: seq<W>, times: Times, now: Tstamp,
                  u: seq<Node>, after: Store, w: W)
    requires Reified(d, v0, ws0, v, ws, fired, times, now) && IsHeap(d, v, ws) && Onward(d, v0, ws0, times, now)
    requires |v| > d.Root() && v[d.Root()].at < now && w == v[d.Root()].w
    requires w in ws && !ws[w].Repeats()
    requires w in times && Stopped(d, v, SetPending(ws, w, 0), u, after, w, times[w])
    ensures Reified(d, v0, ws0, u, after, fired + [w], times, now)
  {
    hide FiredInOrder, RestIsLater, FiredFields, StillActive, IsHeap, Ws, Retimed, Onward;
    FirstIsNext(d, v0, ws0, v, ws, fired, times, now);
    LastFields(ws0, ws, fired, times, w, after);
    ActiveStep(d, v0, ws0, fired, w);
  }

  /** When the first timer is not due, all that were due have fired and the rest is in the future. */
  lemma AllFired(d: Shape, v0: seq<Node>, ws0: Store, v: seq<Node>, ws: Store, fired: seq<W>, times: Times, now: Tstamp)
    requires Reified(d, v0, ws0, v, ws, fired, times, now) && IsHeap(d, v, ws) && Onward(d, v0, ws0, times, now)
    requires |v| > d.Root() ==> v[d.Root()].at >= now
    ensures forall w | w in Ws(d, v) :: w in ws && ws[w].at >= now
    ensures forall w | w in Ws(d, v0) && w in ws0 :: w in fired <==> ws0[w].at < now
  {
    forall w | w in Ws(d, v) ensures w in ws && ws[w].at >= now {
      RootIsDueFirst(d, v, ws, w);
    }
    forall w | w in Ws(d, v0) && w in ws0 && w !in fired ensures ws0[w].at >= now {
      assert w in StillActive(d, v0, ws0, fired);
    }
  }

  // ---- feeding them back, last expired first ----

  /** Two watchers of one priority, neither of them pending. */
  predicate Peers(ws0: Store, x: W, y: W) {
    x in ws0 && y in ws0 && ws0[x].pri == ws0[y].pri && ws0[x].pending == 0 && ws0[y].pending == 0
  }

  /** Of two peers in rfeeds, from n on, the first is nearer to the end of the queue, which is served first. */
  ghost predicate FirstOnTop(ws0: Store, ws: Store, rfeeds: seq<W>, n: nat) {
    forall i: nat, j: nat | n <= i < j < |rfeeds| && Peers(ws0, rfeeds[i], rfeeds[j]) ::
      rfeeds[i] in ws && rfeeds[j] in ws && ws[rfeeds[i]].pending > ws[rfeeds[j]].pending
  }

  /** rfeeds[n..] have been fed, from ws0. */
  ghost predicate FedFrom(ws0: Store, ws: Store, rfeeds: seq<W>, n: nat)
    requires n <= |rfeeds|
  {
    && OnlyPending(ws0, ws)
    && (forall w | w in ws0 && (ws0[w].pending != 0 || w !in rfeeds[n..]) :: ws[w].pending == ws0[w].pending)
    && FirstOnTop(ws0, ws, rfeeds, n)
  }

  /** A newly queued watcher is behind all others of its priority. */
  lemma QueuedLast(q: Queues, ws: Store, w: W, events: Events, x: W)
    requires IsPending(q, ws) && w in ws && w != DUMMY && ws[w].pending == 0 && x in ws && x != w && ws[x].pri == ws[w].pri
    ensures var after := Feed(q, ws, w, events).ws;
            x in after && w in after && after[x] == ws[x] && after[w].pending > after[x].pending
  {
    Home(q, ws, x);
  }

  lemma FeedTouches(q: Queues, ws: Store, w: W, events: Events)
    requires IsPending(q, ws) && w in ws && w != DUMMY
    ensures var after := Feed(q, ws, w, events).ws;
            OnlyPending(ws, after) && forall x | x in ws && (x != w || ws[x].pending != 0) :: after[x] == ws[x]
  {
    FeedKeeps(q, ws, w, events);
  }

  lemma FeedOneMore(q: Queues, ws0: Store, ws: Store, rfeeds: seq<W>, n: nat, events: Events)
    requires IsPending(q, ws) && 0 < n <= |rfeeds| && Distinct(rfeeds) && FedFrom(ws0, ws, rfeeds, n)
    requires rfeeds[n - 1] in ws && rfeeds[n - 1] != DUMMY
    ensures FedFrom(ws0, Feed(q, ws, rfeeds[n - 1], events).ws, rfeeds, n - 1)
  {
    hide IsPending, Feed, FirstOnTop, Distinct;
    FeedTouches(q, ws, rfeeds[n - 1], events);
    FeedOrder(q, ws0, ws, rfeeds, n, events);
    assert rfeeds[n - 1..] == [rfeeds[n - 1]] + rfeeds[n..];
  }

  lemma FeedOrder(q: Queues, ws0: Store, ws: Store, rfeeds: seq<W>, n: nat, events: Events)
    requires IsPending(q, ws) && 0 < n <= |rfeeds| && Distinct(rfeeds) && FedFrom(ws0, ws, rfeeds, n)
    requires rfeeds[n - 1] in ws && rfeeds[n - 1] != DUMMY
    ensures FirstOnTop(ws0, Feed(q, ws, rfeeds[n - 1], events).ws, rfeeds, n - 1)
  {
    hide IsPending;
    var w := rfeeds[n - 1];
    assert w !in rfeeds[n..];
    forall i: nat, j: nat | n - 1 <= i < j < |rfeeds| && Peers(ws0, rfeeds[i], rfeeds[j])
      ensures var after := Feed(q, ws, w, events).ws;
              rfeeds[i] in after && rfeeds[j] in after && after[rfeeds[i]].pending > after[rfeeds[j]].pending
    {
      if i == n - 1 {
        QueuedLast(q, ws, w, events, rfeeds[j]);
      }
    }
  }

  ghost predicate OwedFrom(h0: seq<Event>, h: seq<Event>, rfeeds: seq<W>, n: nat, events: Events)
    requires n <= |rfeeds|
  {
    forall w | w != DUMMY :: Owed(h, w) == if w in rfeeds[n..] then Or(Owed(h0, w), events) else Owed(h0, w)
  }

  lemma NothingFed(ws0: Store, h0: seq<Event>, rfeeds: seq<W>, events: Events)
    ensures FedFrom(ws0, ws0, rfeeds, |rfeeds|) && OwedFrom(h0, h0, rfeeds, |rfeeds|, events)
  {
  }

  lemma OwedOneMore(h0: seq<Event>, h: seq<Event>, rfeeds: seq<W>, n: nat, events: Events)
    requires 0 < n <= |rfeeds| && Distinct(rfeeds) && OwedFrom(h0, h, rfeeds, n, events)
    ensures OwedFrom(h0, h + [Fed(rfeeds[n - 1], events)], rfeeds, n - 1, events)
  {
    hide Or;
    var g := h + [Fed(rfeeds[n - 1], events)];
    assert g[..|h|] == h;
    assert rfeeds[n - 1..] == [rfeeds[n - 1]] + rfeeds[n..];
  }

  // ---- the whole pass ----

  /** What the stopped timers were pending for is forgotten. */
  ghost predicate OwedAfterStops(h0: seq<Event>, h: seq<Event>, ws0: Store, fired: seq<W>) {
    forall w | w in ws0 && w != DUMMY ::
      Owed(h, w) == if w in fired && !ws0[w].Repeats() then NotDue else Owed(h0, w)
  }

  /** Fired timers are owed the events, on top of what repeating ones were pending for already. */
  ghost predicate OwedAfterPass(h0: seq<Event>, h: seq<Event>, ws0: Store, fired: seq<W>, events: Events) {
    forall w | w in ws0 && w != DUMMY ::
      Owed(h, w) == if w !in fired then Owed(h0, w)
                    else if !ws0[w].Repeats() then Due(events) else Or(Owed(h0, w), events)
  }

  lemma StopsAnother(h0: seq<Event>, h: seq<Event>, ws0: Store, fired: seq<W>, w: W)
    requires OwedAfterStops(h0, h, ws0, fired) && w in ws0
    ensures !ws0[w].Repeats() ==> OwedAfterStops(h0, h + [Cleared(w)], ws0, fired + [w])
    ensures ws0[w].Repeats() ==> OwedAfterStops(h0, h, ws0, fired + [w])
  {
    assert (h + [Cleared(w)])[..|h|] == h;
  }

  lemma OwedInAll(h0: seq<Event>, h1: seq<Event>, h: seq<Event>, ws0: Store, fired: seq<W>, events: Events)
    requires OwedAfterStops(h0, h1, ws0, fired) && OwedFrom(h1, h, fired, 0, events)
    ensures OwedAfterPass(h0, h, ws0, fired, events)
  {
    assert fired[0..] == fired;
  }

  /** What a pass leaves behind. */
  ghost predicate Expired(d: Shape, v0: seq<Node>, ws0: Store, v: seq<Node>, ws: Store, fired: seq<W>,
                          times: Times, now: Tstamp) {
    && FiredInOrder(d, v0, ws0, fired, now)
    && (forall w | w in Ws(d, v0) && w in ws0 :: w in fired <==> ws0[w].at < now)
    && Ws(d, v) == StillActive(d, v0, ws0, fired)
    && (forall w | w in Ws(d, v) :: w in ws && ws[w].at >= now)
    && ws.Keys == ws0.Keys
    && (forall w | w in ws0 :: w in times && ws[w] == ws0[w].(active := ws[w].active, pending := ws[w].pending,
                                                              at := if w in fired then times[w] else ws0[w].at))
    && FirstOnTop(Forgotten(ws0), ws, fired, 0)
  }

  /** The watchers with what one-shot timers were pending for forgotten. */
  function Forgotten(ws0: Store): Store {
    map w | w in ws0 :: if !ws0[w].Repeats() then ws0[w].(pending := 0) else ws0[w]
  }

  /** Fired timers that were not pending before the pass were not when the feeding began. */
  lemma OrderCarries(ws0: Store, ws1: Store, ws: Store, fired: seq<W>, times: Times)
    requires FiredFields(ws0, ws1, fired, times) && FirstOnTop(ws1, ws, fired, 0)
    ensures FirstOnTop(Forgotten(ws0), ws, fired, 0)
  {
    forall i: nat, j: nat | 0 <= i < j < |fired| && Peers(Forgotten(ws0), fired[i], fired[j])
      ensures Peers(ws1, fired[i], fired[j])
    {
    }
  }

  lemma PassDone(d: Shape, v0: seq<Node>, ws0: Store, v: seq<Node>, ws1: Store, ws: Store, fired: seq<W>, times: Times, now: Tstamp)
    requires Reified(d, v0, ws0, v, ws1, fired, times, now) && IsHeap(d, v, ws1) && Onward(d, v0, ws0, times, now)
    requires |v| > d.Root() ==> v[d.Root()].at >= now
    requires FedFrom(ws1, ws, fired, 0)
    ensures Expired(d, v0, ws0, v, ws, fired, times, now)
  {
    hide FiredInOrder, RestIsLater, StillActive, Ws, IsHeap, Onward, FirstOnTop;
    AllFired(d, v0, ws0, v, ws1, fired, times, now);
    OrderCarries(ws0, ws1, ws, fired, times);
  }

  lemma TimersRepeated(d: Shape, v0: seq<Node>, ws0: Store, v: seq<Node>, ws: Store, fired: seq<W>, now: Tstamp)
    requires Expired(d, v0, ws0, v, ws, fired, TimerTimes(ws0, now), now) && d.kind == Timer
    requires IsHeap(d, v0, ws0) && IsHeap(d, v, ws)
    ensures AllRepeated(ws0, ws, fired, now)
  {
    hide Ws, IsHeap, FirstOnTop;
    MembersKnown(d, v0, ws0);
    forall w | w in fired
      ensures w in ws0 && w in ws && RepeatTime(ws0[w], now, ws[w].at) && (ws[w].active != 0 <==> ws0[w].repeat != 0.0)
    {
      ActiveInHeap(d, v, ws, w);
    }
  }

  // ---- what the loop of timers_reify needs from its invariant ----

  lemma NothingFired(d: Shape, v0: seq<Node>, ws0: Store, h0: seq<Event>, times: Times, now: Tstamp)
    requires forall w | w in ws0 :: w in times
    ensures Reified(d, v0, ws0, v0, ws0, [], times, now) && OwedAfterStops(h0, h0, ws0, [])
  {
  }

  lemma FirstIsKnown(d: Shape, v0: seq<Node>, ws0: Store, v: seq<Node>, ws: Store, fired: seq<W>, times: Times, now: Tstamp)
    requires Reified(d, v0, ws0, v, ws, fired, times, now) && IsHeap(d, v, ws) && DUMMY !in Ws(d, v)
    requires Onward(d, v0, ws0, times, now) && |v| > d.Root() && v[d.Root()].at < now
    ensures var w := v[d.Root()].w;
            && w in ws && w in ws0 && w != DUMMY && w in times && w !in fired && ws[w].kind == d.kind && w in Ws(d, v0)
            && ws[w].active != 0 && ws[w] == ws0[w].(active := ws[w].active)
  {
    FirstIsNext(d, v0, ws0, v, ws, fired, times, now);
    assert v[d.Root()] in Ns(d, v);
  }

  lemma ClearIsForgetting(q: Queues, ws: Store, w: W)
    requires IsPending(q, ws) && w in ws
    ensures Clear(q, ws, w).ws == SetPending(ws, w, 0)
  {
  }

  ghost function Unfired(d: Shape, v0: seq<Node>, fired: seq<W>): set<W> {
    set w | w in Ws(d, v0) && w !in fired
  }

  lemma UnfiredShrinks(d: Shape, v0: seq<Node>, ws0: Store, v: seq<Node>, ws: Store, fired: seq<W>, times: Times, now: Tstamp)
    requires Reified(d, v0, ws0, v, ws, fired, times, now) && IsHeap(d, v, ws) && Onward(d, v0, ws0, times, now)
    requires |v| > d.Root() && v[d.Root()].at < now
    ensures Unfired(d, v0, fired + [v[d.Root()].w]) < Unfired(d, v0, fired)
  {
    FirstIsNext(d, v0, ws0, v, ws, fired, times, now);
    var w := v[d.Root()].w;
    assert w in Unfired(d, v0, fired) && w !in Unfired(d, v0, fired + [w]);
  }

  lemma FiredAreKnown(d: Shape, v0: seq<Node>, ws0: Store, v: seq<Node>, ws: Store, fired: seq<W>, times: Times, now: Tstamp)
    requires Reified(d, v0, ws0, v, ws, fired, times, now) && DUMMY !in Ws(d, v0)
    ensures Distinct(fired) && forall w | w in fired :: w in ws && w != DUMMY
  {
  }

  /** Of two peers that have fired the first was queued later, so that it goes first. */
  ghost predicate QueuedInOrder(ws0: Store, fired: seq<W>, h: seq<Event>) {
    && (forall x <- fired :: x in ws0 && x != DUMMY && Owed(h, x) != NotDue)
    && (forall i: nat, j: nat | i < j < |fired| && Peers(Forgotten(ws0), fired[i], fired[j]) ::
          fired[i] != fired[j] && QueuedAt(h, fired[j]) < QueuedAt(h, fired[i]))
  }

  lemma PassQueues(d: Shape, v0: seq<Node>, ws0: Store, v: seq<Node>, ws: Store, fired: seq<W>, times: Times, now: Tstamp,
                   h0: seq<Event>, h: seq<Event>, q: Queues, events: Events)
    requires Expired(d, v0, ws0, v, ws, fired, times, now) && OwedAfterPass(h0, h, ws0, fired, events)
    requires Delivers(ws, q, h) && DUMMY !in Ws(d, v0)
    ensures QueuedInOrder(ws0, fired, h)
  {
    hide Ws, Fair, Owed, QueuedAt;
    forall x | x in fired ensures x in ws0 && x in ws && x != DUMMY && ws[x].pending > 0 && Owed(h, x) != NotDue {
      FiredIsPending(d, v0, ws0, v, ws, fired, times, now, h0, h, q, x, events);
    }
    forall i: nat, j: nat | i < j < |fired| && Peers(Forgotten(ws0), fired[i], fired[j])
      ensures fired[i] != fired[j] && QueuedAt(h, fired[j]) < QueuedAt(h, fired[i])
    {
      assert InTurn(h, ws, fired[j], fired[i]);
    }
  }

  /** From n on, of watchers of one priority, none is invoked before one that expired earlier, unless that one was
      cleared or it was itself cleared meanwhile. */
  ghost predicate RunsInOrder(ws0: Store, fired: seq<W>, h: seq<Event>, n: nat) {
    forall i: nat, j: nat | i < j < |fired| && Peers(Forgotten(ws0), fired[i], fired[j]) ::
      WaitsFor(h, n, fired[i], fired[j])
  }

  /** Whatever happens after the pass: the later of two is not invoked before the earlier one. */
  lemma RunInOrder(ws0: Store, fired: seq<W>, h1: seq<Event>, h: seq<Event>, ws: Store)
    requires QueuedInOrder(ws0, fired, h1) && h1 <= h && Fair(h, ws) && SamePriorities(ws0, ws)
    ensures RunsInOrder(ws0, fired, h, |h1|)
  {
    hide Fair, Owed, QueuedAt;
    forall i: nat, j: nat | i < j < |fired| && Peers(Forgotten(ws0), fired[i], fired[j])
      ensures WaitsFor(h, |h1|, fired[i], fired[j])
    {
      LaterFirst(h1, h, ws, fired[i], fired[j]);
    }
  }

  ghost predicate NotCleared(h: seq<Event>, n: nat, x: W) {
    forall k: nat :: n <= k < |h| && h[k].w == x ==> !h[k].Cleared?
  }

  ghost predicate InvokedInOrder(h: seq<Event>, n: nat, x: W, y: W) {
    exists i: nat, j: nat :: n <= i < j < |h| && h[i].Invoked? && h[j].Invoked? && h[i].w == x && h[j].w == y
  }

  /** With all delivered and neither of them cleared, both run, the earlier one first. */
  lemma BothRun(h0: seq<Event>, h: seq<Event>, x: W, y: W)
    requires h0 <= h && WaitsFor(h, |h0|, x, y) && Owed(h0, y) != NotDue && Owed(h, y) == NotDue
    requires NotCleared(h, |h0|, x) && NotCleared(h, |h0|, y)
    ensures InvokedInOrder(h, |h0|, x, y)
  {
    assert h[..|h0|] == h0 && h[..|h|] == h;
    if forall k: nat :: |h0| <= k < |h| && h[k].w == y ==> h[k].Fed? {
      StillQueued(h, |h0|, |h|, y);
    } else {
      var j: nat :| |h0| <= j < |h| && h[j].w == y && !h[j].Fed?;
      var i: nat :| |h0| <= i < j && Yields(h[i], x, y);
      assert h[i].Invoked?;
    }
  }

  ghost predicate BothInOrder(ws0: Store, fired: seq<W>, h: seq<Event>, n: nat) {
    forall i: nat, j: nat | i < j < |fired| && Peers(Forgotten(ws0), fired[i], fired[j])
                            && NotCleared(h, n, fired[i]) && NotCleared(h, n, fired[j]) ::
      InvokedInOrder(h, n, fired[i], fired[j])
  }

  lemma AllRun(ws0: Store, fired: seq<W>, h1: seq<Event>, h: seq<Event>)
    requires QueuedInOrder(ws0, fired, h1) && RunsInOrder(ws0, fired, h, |h1|) && h1 <= h
    requires forall w <- fired :: Owed(h, w) == NotDue
    ensures BothInOrder(ws0, fired, h, |h1|)
  {
    hide WaitsFor, NotCleared, InvokedInOrder, Owed, QueuedAt;
    forall i: nat, j: nat | i < j < |fired| && Peers(Forgotten(ws0), fired[i], fired[j])
                            && NotCleared(h, |h1|, fired[i]) && NotCleared(h, |h1|, fired[j])
      ensures InvokedInOrder(h, |h1|, fired[i], fired[j])
    {
      BothRun(h1, h, fired[i], fired[j]);
    }
  }

  lemma FiredIsPending(d: Shape, v0: seq<Node>, ws0: Store, v: seq<Node>, ws: Store, fired: seq<W>, times: Times, now: Tstamp,
                       h0: seq<Event>, h1: seq<Event>, q: Queues, x: W, events: Events)
    requires Expired(d, v0, ws0, v, ws, fired, times, now) && OwedAfterPass(h0, h1, ws0, fired, events)
    requires Delivers(ws, q, h1) && x in fired && DUMMY !in Ws(d, v0)
    ensures x in ws && x != DUMMY && ws[x].pending > 0 && Owed(h1, x) != NotDue
  {
    assert x != DUMMY && x in ws0;
    assert DueOf(q, ws, x) == Owed(h1, x);
  }

}
