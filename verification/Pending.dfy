/** The pending queues of the event loop: one per priority, pending watchers holding the positions of their entries. */
module Pending {

  import opened Basics
  import opened Watchers

  const NUMPRI: nat := 5   // EV_MAXPRI - EV_MINPRI + 1
  const DUMMY: W := 0      // pending_w, which takes the place of cleared watchers

  type Events = bv32

  function Both(a: Events, b: Events): Events { a | b }

  function Common(a: Events, b: Events): Events { a & b }

  /** Whether events has one of the bits of x. */
  predicate Has(events: Events, x: Events) { Common(events, x) != 0 }

  lemma CommonOfBoth(a: Events, b: Events, x: Events)
    ensures Common(Both(a, b), x) == Both(Common(a, x), Common(b, x))
  {
  }

  lemma BothZero(a: Events, b: Events)
    ensures Both(a, b) == 0 <==> a == 0 && b == 0
  {
  }

  lemma BothHas(a: Events, b: Events, x: Events)
    ensures Has(Both(a, b), x) <==> Has(a, x) || Has(b, x)
  {
    hide Both, Common;
    CommonOfBoth(a, b, x);
    BothZero(Common(a, x), Common(b, x));
  }

  /** All bits of e are in events. */
  ghost predicate Covers(events: Events, e: Events) {
    forall x: Events :: Has(e, x) ==> Has(events, x)
  }

  lemma BothCovers(a: Events, b: Events)
    ensures Covers(Both(a, b), a) && Covers(Both(a, b), b)
  {
    hide Both, Has;
    forall x: Events ensures Has(a, x) || Has(b, x) <==> Has(Both(a, b), x) {
      BothHas(a, b, x);
    }
  }

  /** ANPENDING */
  datatype Entry = Entry(w: W, events: Events)

  type Queues = seq<seq<Entry>>

  datatype Queued = Queued(q: Queues, ws: Store)

  /** What verify_watcher asserts of every watcher, and that nothing else is queued. */
  ghost predicate IsPending(q: Queues, ws: Store) {
    && |q| == NUMPRI
    && DUMMY in ws && ws[DUMMY].pending == 0
    && (forall w | w in ws :: ws[w].pri < NUMPRI && (ws[w].pending != 0 ==> AtHome(q, ws, w)))
    && (forall pri: nat, j: nat :: pri < NUMPRI && j < |q[pri]| ==> Claimed(ws, q[pri][j].w, pri, j))
  }

  /** A pending watcher is at its position in the queue of its priority. */
  predicate AtHome(q: Queues, ws: Store, w: W)
    requires w in ws && |q| == NUMPRI
  {
    ws[w].pri < NUMPRI && 0 < ws[w].pending <= |q[ws[w].pri]| && q[ws[w].pri][ws[w].pending - 1].w == w
  }

  /** A queued watcher is the dummy or knows that it is there. */
  predicate Claimed(ws: Store, w: W, pri: nat, j: nat) {
    w == DUMMY || (w in ws && ws[w].pri == pri && ws[w].pending == j + 1)
  }

  lemma Home(q: Queues, ws: Store, w: W)
    requires IsPending(q, ws) && w in ws
    ensures |q| == NUMPRI && ws[w].pri < NUMPRI && (ws[w].pending != 0 ==> AtHome(q, ws, w))
  {
  }

  function SetPending(ws: Store, w: W, p: nat): Store
    requires w in ws
  {
    ws[w := ws[w].(pending := p)]
  }

  /** ev_feed_event */
  function Feed(q: Queues, ws: Store, w: W, events: Events): Queued
    requires IsPending(q, ws) && w in ws
  {
    var pri, p := ws[w].pri, ws[w].pending;
    if p != 0 then
      Queued(q[pri := q[pri][p - 1 := Entry(w, Both(q[pri][p - 1].events, events))]], ws)
    else
      Queued(q[pri := q[pri] + [Entry(w, events)]], SetPending(ws, w, |q[pri]| + 1))
  }

  /** clear_pending and ev_clear_pending: the entry stays, for the dummy. */
  function Clear(q: Queues, ws: Store, w: W): Queued
    requires IsPending(q, ws) && w in ws
  {
    var pri, p := ws[w].pri, ws[w].pending;
    if p != 0 then
      Queued(q[pri := q[pri][p - 1 := q[pri][p - 1].(w := DUMMY)]], SetPending(ws, w, 0))
    else Queued(q, ws)
  }

  /** ev_invoke_pending taking the last entry of a queue. */
  function Pop(q: Queues, ws: Store, pri: nat): Queued
    requires IsPending(q, ws) && pri < NUMPRI && |q[pri]| > 0
  {
    var n := |q[pri]| - 1;
    var w := q[pri][n].w;
    assert Claimed(ws, w, pri, n);
    Queued(q[pri := q[pri][..n]], SetPending(ws, w, 0))
  }

  /** The events a watcher is pending for, none if it is not pending. */
  datatype Due = NotDue | Due(events: Events)

  function DueOf(q: Queues, ws: Store, w: W): Due
    requires IsPending(q, ws) && w in ws
  {
    if ws[w].pending == 0 then NotDue else Due(q[ws[w].pri][ws[w].pending - 1].events)
  }

  function Or(d: Due, events: Events): Due {
    match d
    case NotDue => Due(events)
    case Due(e) => Due(Both(e, events))
  }

  // ---- every operation keeps the queues right, and what it does to each watcher ----

  /** Only pending fields differ. */
  ghost predicate OnlyPending(before: Store, after: Store) {
    && after.Keys == before.Keys
    && forall w | w in before :: after[w] == before[w].(pending := after[w].pending)
  }

  lemma FeedKeeps(q: Queues, ws: Store, w: W, events: Events)
    requires IsPending(q, ws) && w in ws && w != DUMMY
    ensures var r := Feed(q, ws, w, events); IsPending(r.q, r.ws) && OnlyPending(ws, r.ws)
  {
    var r := Feed(q, ws, w, events);
    var pri := ws[w].pri;
    forall x | x in r.ws && r.ws[x].pending != 0 ensures AtHome(r.q, r.ws, x) {
      assert x != w ==> AtHome(q, ws, x);
    }
    forall p: nat, j: nat | p < NUMPRI && j < |r.q[p]| ensures Claimed(r.ws, r.q[p][j].w, p, j) {
      if p != pri || j < |q[p]| {
        assert Claimed(ws, q[p][j].w, p, j);
      }
    }
  }

  lemma FeedDueSelf(q: Queues, ws: Store, w: W, events: Events)
    requires IsPending(q, ws) && w in ws && w != DUMMY
    requires IsPending(Feed(q, ws, w, events).q, Feed(q, ws, w, events).ws)
    ensures var r := Feed(q, ws, w, events);
            DueOf(r.q, r.ws, w) == Or(DueOf(q, ws, w), events)
  {
    assert ws[w].pending != 0 ==> AtHome(q, ws, w);
  }

  lemma FeedDueOther(q: Queues, ws: Store, w: W, events: Events, x: W)
    requires IsPending(q, ws) && w in ws && w != DUMMY && x in ws && x != w
    requires IsPending(Feed(q, ws, w, events).q, Feed(q, ws, w, events).ws)
    ensures var r := Feed(q, ws, w, events);
            DueOf(r.q, r.ws, x) == DueOf(q, ws, x)
  {
    assert ws[x].pending != 0 ==> AtHome(q, ws, x);
    assert ws[w].pending != 0 ==> AtHome(q, ws, w);
  }

  lemma ClearKeeps(q: Queues, ws: Store, w: W)
    requires IsPending(q, ws) && w in ws && w != DUMMY
    ensures var r := Clear(q, ws, w); IsPending(r.q, r.ws) && OnlyPending(ws, r.ws)
  {
    var r := Clear(q, ws, w);
    forall x | x in r.ws && r.ws[x].pending != 0 ensures AtHome(r.q, r.ws, x) {
      assert AtHome(q, ws, x);
    }
    forall p: nat, j: nat | p < NUMPRI && j < |r.q[p]| ensures Claimed(r.ws, r.q[p][j].w, p, j) {
      assert Claimed(ws, q[p][j].w, p, j);
    }
  }

  lemma ClearDue(q: Queues, ws: Store, w: W, x: W)
    requires IsPending(q, ws) && w in ws && w != DUMMY && x in ws
    requires IsPending(Clear(q, ws, w).q, Clear(q, ws, w).ws)
    ensures var r := Clear(q, ws, w);
            DueOf(r.q, r.ws, x) == if x == w then NotDue else DueOf(q, ws, x)
  {
    assert ws[x].pending != 0 ==> AtHome(q, ws, x);
    assert ws[w].pending != 0 ==> AtHome(q, ws, w);
  }

  lemma PopKeeps(q: Queues, ws: Store, pri: nat)
    requires IsPending(q, ws) && pri < NUMPRI && |q[pri]| > 0
    ensures var r := Pop(q, ws, pri); IsPending(r.q, r.ws) && OnlyPending(ws, r.ws)
  {
    var r := Pop(q, ws, pri);
    assert Claimed(ws, q[pri][|q[pri]| - 1].w, pri, |q[pri]| - 1);
    forall x | x in r.ws && r.ws[x].pending != 0 ensures AtHome(r.q, r.ws, x) {
      assert AtHome(q, ws, x);
    }
    forall p: nat, j: nat | p < NUMPRI && j < |r.q[p]| ensures Claimed(r.ws, r.q[p][j].w, p, j) {
      assert Claimed(ws, q[p][j].w, p, j);
    }
  }

  /** What is taken from a queue is the dummy, or a watcher with all it was pending for. */
  lemma PopDue(q: Queues, ws: Store, pri: nat, x: W)
    requires IsPending(q, ws) && pri < NUMPRI && |q[pri]| > 0 && x in ws
    requires IsPending(Pop(q, ws, pri).q, Pop(q, ws, pri).ws)
    ensures var r, e := Pop(q, ws, pri), q[pri][|q[pri]| - 1];
            && e.w in ws
            && (e.w != DUMMY ==> DueOf(q, ws, e.w) == Due(e.events) && ws[e.w].pri == pri)
            && DueOf(r.q, r.ws, x) == if x == e.w then NotDue else DueOf(q, ws, x)
  {
    assert Claimed(ws, q[pri][|q[pri]| - 1].w, pri, |q[pri]| - 1);
    assert ws[x].pending != 0 ==> AtHome(q, ws, x);
  }

  // ---- the history of feeds, clears and invocations ----

  datatype Event = Fed(w: W, events: Events) | Cleared(w: W) | Invoked(w: W, events: Events)

  /** What a watcher is owed after a history: all it was fed since it was last invoked or cleared. */
  function Owed(h: seq<Event>, w: W): Due {
    if |h| == 0 then NotDue
    else
      var before, last := h[..|h| - 1], h[|h| - 1];
      if last.w != w then Owed(before, w)
      else match last
        case Fed(_, events) => Or(Owed(before, w), events)
        case Cleared(_) => NotDue
        case Invoked(_, _) => NotDue
  }

  /** The j-th event feeds w, and w was neither invoked nor cleared since. */
  predicate Outstanding(h: seq<Event>, w: W, j: nat) {
    j < |h| && h[j].w == w && h[j].Fed? && forall k: nat :: j < k < |h| && h[k].w == w ==> h[k].Fed?
  }

  /** A watcher is owed just those bits that it was fed since it was last invoked or cleared. */
  lemma {:induction false} OwedHas(h: seq<Event>, w: W, x: Events)
    ensures Owed(h, w).Due? <==> exists j: nat :: Outstanding(h, w, j)
    ensures Owed(h, w).Due? && Has(Owed(h, w).events, x) <==> exists j: nat :: Outstanding(h, w, j) && Has(h[j].events, x)
  {
    hide Both, Has;
    if h != [] {
      var n := |h| - 1;
      var before, last := h[..n], h[n];
      OwedHas(before, w, x);
      forall j: nat ensures Outstanding(h, w, j) <==>
                            if j == n then last.w == w && last.Fed? else Outstanding(before, w, j) && (last.w == w ==> last.Fed?)
      {
        assert j < n ==> forall k: nat :: j < k < n ==> h[k] == before[k];
      }
      if last.w == w && last.Fed? {
        if Owed(before, w).Due? {
          BothHas(Owed(before, w).events, last.events, x);
        }
        assert Outstanding(h, w, n);
      }
    }
  }

  /** When a watcher that is owed something was queued: at the first feed since it was last invoked or cleared. */
  function QueuedAt(h: seq<Event>, w: W): nat {
    if |h| == 0 then 0
    else
      var before, last := h[..|h| - 1], h[|h| - 1];
      if last.w != w then QueuedAt(before, w)
      else if !last.Fed? then 0
      else if Owed(before, w) == NotDue then |h| - 1
      else QueuedAt(before, w)
  }

  lemma {:induction false} QueuedBefore(h: seq<Event>, w: W)
    requires Owed(h, w) != NotDue
    ensures QueuedAt(h, w) < |h|
  {
    var before, last := h[..|h| - 1], h[|h| - 1];
    if last.w != w || Owed(before, w) != NotDue {
      QueuedBefore(before, w);
    }
  }

  /** Of two pending watchers of one priority the one further back was queued later. */
  predicate InTurn(h: seq<Event>, ws: Store, x: W, y: W) {
    x in ws && y in ws && ws[x].pri == ws[y].pri && 0 < ws[x].pending < ws[y].pending ==> QueuedAt(h, x) < QueuedAt(h, y)
  }

  ghost predicate AllInTurn(h: seq<Event>, ws: Store) {
    forall x, y :: InTurn(h, ws, x, y)
  }

  /** The queues hold for every watcher exactly what it is owed. */
  ghost predicate Accounted(h: seq<Event>, q: Queues, ws: Store)
    requires IsPending(q, ws)
  {
    forall w | w in ws && w != DUMMY :: DueOf(q, ws, w) == Owed(h, w)
  }

  /** y may be invoked before x: x is owed nothing, or has a lower priority, or the same one and was queued earlier. */
  predicate Precedes(h: seq<Event>, ws: Store, y: W, x: W)
    requires y in ws && x in ws
  {
    || Owed(h, x) == NotDue
    || ws[x].pri < ws[y].pri
    || (ws[x].pri == ws[y].pri && (x == y || QueuedAt(h, x) < QueuedAt(h, y)))
  }

  /** The i-th event, if it invokes a watcher, gives it exactly what it is owed by then, and no
      watcher of a higher priority is owed anything, nor one of the same priority that was queued later. */
  ghost predicate Deserved(h: seq<Event>, i: nat, ws: Store)
    requires i < |h|
  {
    h[i].Invoked? && h[i].w != DUMMY ==>
      && h[i].w in ws
      && Owed(h[..i], h[i].w) == Due(h[i].events)
      && forall x | x in ws && x != DUMMY :: Precedes(h[..i], ws, h[i].w, x)
  }

  ghost predicate Fair(h: seq<Event>, ws: Store) {
    forall i: nat | i < |h| :: Deserved(h, i, ws)
  }

  lemma FairGrows(h: seq<Event>, e: Event, ws: Store)
    requires Fair(h, ws) && Deserved(h + [e], |h|, ws)
    ensures Fair(h + [e], ws)
  {
    forall i: nat | i < |h| + 1 ensures Deserved(h + [e], i, ws) {
      if i < |h| {
        assert Deserved(h, i, ws);
        assert (h + [e])[..i] == h[..i];
      }
    }
  }

  ghost predicate SamePriorities(before: Store, after: Store) {
    before.Keys == after.Keys && forall w | w in before :: before[w].pri == after[w].pri
  }

  lemma FairKeeps(h: seq<Event>, before: Store, after: Store)
    requires Fair(h, before) && SamePriorities(before, after)
    ensures Fair(h, after)
  {
    forall i: nat | i < |h| ensures Deserved(h, i, after) {
      assert Deserved(h, i, before);
      forall x | x in after && x != DUMMY && h[i].Invoked? && h[i].w != DUMMY ensures Precedes(h[..i], after, h[i].w, x) {
        assert Precedes(h[..i], before, h[i].w, x);
      }
    }
  }

  lemma FeedAccounted(h: seq<Event>, q: Queues, ws: Store, w: W, events: Events)
    requires IsPending(q, ws) && w in ws && w != DUMMY && Accounted(h, q, ws) && Fair(h, ws)
    ensures var r, g := Feed(q, ws, w, events), h + [Fed(w, events)];
            IsPending(r.q, r.ws) && Accounted(g, r.q, r.ws) && Fair(g, r.ws)
  {
    var r, g := Feed(q, ws, w, events), h + [Fed(w, events)];
    FeedKeeps(q, ws, w, events);
    assert g[..|h|] == h;
    forall x | x in r.ws && x != DUMMY ensures DueOf(r.q, r.ws, x) == Owed(g, x) {
      if x == w {
        FeedDueSelf(q, ws, w, events);
      } else {
        FeedDueOther(q, ws, w, events, x);
      }
    }
    FairGrows(h, Fed(w, events), ws);
    FairKeeps(g, ws, r.ws);
  }

  /** A feed queues a watcher behind all others of its priority, unless it is pending already. */
  lemma FeedInTurn(h: seq<Event>, q: Queues, ws: Store, w: W, events: Events)
    requires IsPending(q, ws) && w in ws && w != DUMMY && Accounted(h, q, ws) && AllInTurn(h, ws)
    ensures AllInTurn(h + [Fed(w, events)], Feed(q, ws, w, events).ws)
  {
    hide QueuedAt, Owed, Both;
    var r, g := Feed(q, ws, w, events), h + [Fed(w, events)];
    forall x, y ensures InTurn(g, r.ws, x, y) {
      if x in ws && y in ws && ws[x].pri == ws[y].pri && 0 < r.ws[x].pending < r.ws[y].pending {
        assert InTurn(h, ws, x, y);
        FeedQueuedAt(h, q, ws, w, events, x);
        FeedQueuedAt(h, q, ws, w, events, y);
        Home(q, ws, x);
        Home(q, ws, y);
        Home(q, ws, w);
      }
    }
  }

  lemma FeedQueuedAt(h: seq<Event>, q: Queues, ws: Store, w: W, events: Events, x: W)
    requires IsPending(q, ws) && w in ws && w != DUMMY && x in ws && Accounted(h, q, ws)
    ensures var g := h + [Fed(w, events)];
            QueuedAt(g, x) == if x == w && ws[w].pending == 0 then |h| else QueuedAt(h, x)
    ensures ws[x].pending != 0 ==> QueuedAt(h, x) < |h|
  {
    assert (h + [Fed(w, events)])[..|h|] == h;
    if x != DUMMY {
      assert DueOf(q, ws, x) == Owed(h, x);
      if ws[x].pending != 0 {
        QueuedBefore(h, x);
      }
    }
  }

  lemma RemovedInTurn(h: seq<Event>, ws: Store, w: W, e: Event, after: Store)
    requires AllInTurn(h, ws) && w in ws && e.w == w && !e.Fed? && OnlyPending(ws, after)
    requires after[w].pending == 0 && forall x | x in ws && x != w :: after[x].pending == ws[x].pending
    ensures AllInTurn(h + [e], after)
  {
    hide Owed;
    assert (h + [e])[..|h|] == h;
    forall x, y ensures InTurn(h + [e], after, x, y) {
      assert InTurn(h, ws, x, y);
    }
  }

  lemma ClearInTurn(h: seq<Event>, q: Queues, ws: Store, w: W)
    requires IsPending(q, ws) && w in ws && w != DUMMY && AllInTurn(h, ws)
    ensures AllInTurn(h + [Cleared(w)], Clear(q, ws, w).ws)
  {
    ClearKeeps(q, ws, w);
    RemovedInTurn(h, ws, w, Cleared(w), Clear(q, ws, w).ws);
  }

  lemma PopInTurn(h: seq<Event>, q: Queues, ws: Store, pri: nat)
    requires IsPending(q, ws) && pri < NUMPRI && |q[pri]| > 0 && AllInTurn(h, ws)
    ensures var e := q[pri][|q[pri]| - 1]; AllInTurn(h + [Invoked(e.w, e.events)], Pop(q, ws, pri).ws)
  {
    var e := q[pri][|q[pri]| - 1];
    assert Claimed(ws, e.w, pri, |q[pri]| - 1);
    PopKeeps(q, ws, pri);
    RemovedInTurn(h, ws, e.w, Invoked(e.w, e.events), Pop(q, ws, pri).ws);
  }

  lemma ClearAccounted(h: seq<Event>, q: Queues, ws: Store, w: W)
    requires IsPending(q, ws) && w in ws && w != DUMMY && Accounted(h, q, ws) && Fair(h, ws)
    ensures var r, g := Clear(q, ws, w), h + [Cleared(w)];
            IsPending(r.q, r.ws) && Accounted(g, r.q, r.ws) && Fair(g, r.ws)
  {
    var r, g := Clear(q, ws, w), h + [Cleared(w)];
    ClearKeeps(q, ws, w);
    assert g[..|h|] == h;
    forall x | x in r.ws && x != DUMMY ensures DueOf(r.q, r.ws, x) == Owed(g, x) {
      ClearDue(q, ws, w, x);
    }
    FairGrows(h, Cleared(w), ws);
    FairKeeps(g, ws, r.ws);
  }

  lemma PopDeserved(h: seq<Event>, q: Queues, ws: Store, pri: nat)
    requires IsPending(q, ws) && pri < NUMPRI && |q[pri]| > 0 && Accounted(h, q, ws) && AllInTurn(h, ws)
    requires forall p: nat :: pri < p < NUMPRI ==> q[p] == []
    ensures var e := q[pri][|q[pri]| - 1]; Deserved(h + [Invoked(e.w, e.events)], |h|, ws)
  {
    hide Owed, QueuedAt;
    var e := q[pri][|q[pri]| - 1];
    var g := h + [Invoked(e.w, e.events)];
    assert g[..|h|] == h;
    if e.w != DUMMY {
      PopKeeps(q, ws, pri);
      PopDue(q, ws, pri, e.w);
      assert Claimed(ws, e.w, pri, |q[pri]| - 1);
      forall x | x in ws && x != DUMMY ensures Precedes(h, ws, e.w, x) {
        assert DueOf(q, ws, x) == Owed(h, x);
        Home(q, ws, x);
        assert InTurn(h, ws, x, e.w);
      }
    }
  }

  lemma PopAccounted(h: seq<Event>, q: Queues, ws: Store, pri: nat)
    requires IsPending(q, ws) && pri < NUMPRI && |q[pri]| > 0 && Accounted(h, q, ws) && AllInTurn(h, ws) && Fair(h, ws)
    requires forall p: nat :: pri < p < NUMPRI ==> q[p] == []
    ensures var r, e := Pop(q, ws, pri), q[pri][|q[pri]| - 1];
            var g := h + [Invoked(e.w, e.events)];
            IsPending(r.q, r.ws) && Accounted(g, r.q, r.ws) && Fair(g, r.ws)
  {
    var r, e := Pop(q, ws, pri), q[pri][|q[pri]| - 1];
    var g := h + [Invoked(e.w, e.events)];
    PopKeeps(q, ws, pri);
    PopDeserved(h, q, ws, pri);
    FairGrows(h, Invoked(e.w, e.events), ws);
    FairKeeps(g, ws, r.ws);
    assert g[..|h|] == h;
    forall x | x in r.ws && x != DUMMY ensures DueOf(r.q, r.ws, x) == Owed(g, x) {
      PopDue(q, ws, pri, x);
    }
  }

  /** With the queues empty nobody is owed anything. */
  lemma AllDelivered(h: seq<Event>, q: Queues, ws: Store, w: W)
    requires IsPending(q, ws) && Accounted(h, q, ws) && w in ws && w != DUMMY
    requires forall p: nat :: p < NUMPRI ==> q[p] == []
    ensures Owed(h, w) == NotDue
  {
    assert q[ws[w].pri] == [];
  }

  // ---- several feeds ----

  /** The feeds of watchers, each with its events. */
  function Feeds(fed: seq<(W, Events)>): (h: seq<Event>)
    ensures |h| == |fed|
  {
    if fed == [] then [] else Feeds(fed[..|fed| - 1]) + [Fed(fed[|fed| - 1].0, fed[|fed| - 1].1)]
  }

  lemma OneFeedMore(h: seq<Event>, fed: seq<(W, Events)>, w: W, events: Events)
    ensures h + Feeds(fed + [(w, events)]) == h + Feeds(fed) + [Fed(w, events)]
  {
    assert (fed + [(w, events)])[..|fed|] == fed;
  }

  predicate FedOnce(fed: seq<(W, Events)>) {
    forall i, j :: 0 <= i < j < |fed| ==> fed[i].0 != fed[j].0
  }

  /** What a watcher is fed among them. */
  function EventsFor(fed: seq<(W, Events)>, w: W): Due {
    if fed == [] then NotDue
    else if fed[|fed| - 1].0 == w then Due(fed[|fed| - 1].1)
    else EventsFor(fed[..|fed| - 1], w)
  }

  lemma {:induction false} EventsForIs(fed: seq<(W, Events)>, w: W)
    requires FedOnce(fed)
    ensures forall i :: 0 <= i < |fed| && fed[i].0 == w ==> EventsFor(fed, w) == Due(fed[i].1)
    ensures (forall i :: 0 <= i < |fed| ==> fed[i].0 != w) ==> EventsFor(fed, w) == NotDue
  {
    if fed != [] {
      var n := |fed| - 1;
      EventsForIs(fed[..n], w);
      assert forall i :: 0 <= i < n ==> fed[..n][i] == fed[i];
    }
  }

  function Plus(d: Due, e: Due): Due {
    match e
    case NotDue => d
    case Due(events) => Or(d, events)
  }

  /** What a watcher is owed after them, if each was fed once. */
  lemma {:induction false} OwedAfterFeeds(h: seq<Event>, fed: seq<(W, Events)>, w: W)
    requires FedOnce(fed)
    ensures Owed(h + Feeds(fed), w) == Plus(Owed(h, w), EventsFor(fed, w))
  {
    hide Or, FedOnce;
    if fed == [] {
      assert h + [] == h;
    } else {
      var n := |fed| - 1;
      var x, e := fed[n].0, fed[n].1;
      assert FedOnce(fed[..n]) && (x == w ==> EventsFor(fed[..n], w) == NotDue) by { LastFedOnce(fed, w); }
      OwedAfterFeeds(h, fed[..n], w);
      var g := h + Feeds(fed[..n]);
      assert h + Feeds(fed) == g + [Fed(x, e)];
      assert (g + [Fed(x, e)])[..|g|] == g;
    }
  }

  lemma LastFedOnce(fed: seq<(W, Events)>, w: W)
    requires FedOnce(fed) && fed != []
    ensures FedOnce(fed[..|fed| - 1]) && (fed[|fed| - 1].0 == w ==> EventsFor(fed[..|fed| - 1], w) == NotDue)
  {
    EventsForIs(fed[..|fed| - 1], w);
  }

  /** Those in list are owed these events more, and nobody else. */
  ghost predicate OwedMore(h0: seq<Event>, h: seq<Event>, list: seq<W>, events: Events) {
    forall w :: Owed(h, w) == if w in list then Or(Owed(h0, w), events) else Owed(h0, w)
  }

  /** All of the same events. */
  function Each(list: seq<W>, events: Events): (fed: seq<(W, Events)>)
    ensures |fed| == |list| && forall i :: 0 <= i < |list| ==> fed[i] == (list[i], events)
  {
    seq(|list|, i requires 0 <= i < |list| => (list[i], events))
  }

  lemma EachOneMore(list: seq<W>, i: nat, events: Events)
    requires i < |list|
    ensures Each(list[..i + 1], events) == Each(list[..i], events) + [(list[i], events)]
  {
  }

  lemma EachOwed(h: seq<Event>, list: seq<W>, events: Events)
    requires Distinct(list)
    ensures OwedMore(h, h + Feeds(Each(list, events)), list, events)
  {
    hide Owed, Or, Feeds, EventsFor;
    var fed := Each(list, events);
    forall w ensures Owed(h + Feeds(fed), w) == if w in list then Or(Owed(h, w), events) else Owed(h, w) {
      OwedAfterFeeds(h, fed, w);
      EventsForIs(fed, w);
      if w in list {
        var i :| 0 <= i < |list| && list[i] == w;
        assert fed[i] == (w, events);
      }
    }
  }

  // ---- sizes, and the order of invocation ----

  ghost predicate SameSizes(q: Queues, r: Queues) {
    |q| == |r| && forall p: nat :: p < |q| ==> |q[p]| == |r[p]|
  }

  lemma ClearSizes(q: Queues, ws: Store, w: W)
    requires IsPending(q, ws) && w in ws
    ensures SameSizes(q, Clear(q, ws, w).q)
  {
  }

  /** Entries in all queues. */
  function Total(q: Queues): nat {
    if |q| == 0 then 0 else Total(q[..|q| - 1]) + |q[|q| - 1]|
  }

  lemma {:induction false} TotalShrinks(q: Queues, p: nat, s: seq<Entry>)
    requires p < |q| && |s| + 1 == |q[p]|
    ensures Total(q[p := s]) == Total(q) - 1
  {
    var n := |q| - 1;
    if p < n {
      TotalShrinks(q[..n], p, s);
      assert q[p := s][..n] == q[..n][p := s];
    } else {
      assert q[p := s][..n] == q[..n];
    }
  }

  /** The invocations of one queue that nobody disturbs: last entry first. */
  function DrainOne(s: seq<Entry>): seq<Event> {
    if |s| == 0 then []
    else [Invoked(s[|s| - 1].w, s[|s| - 1].events)] + DrainOne(s[..|s| - 1])
  }

  /** The invocations of the queues below priority p that nobody disturbs. */
  function Drain(q: Queues, p: nat): seq<Event>
    requires p <= |q|
  {
    if p == 0 then [] else DrainOne(q[p - 1]) + Drain(q, p - 1)
  }

  lemma {:induction false} DrainBelow(q: Queues, r: Queues, p: nat)
    requires p <= |q| && p <= |r| && q[..p] == r[..p]
    ensures Drain(q, p) == Drain(r, p)
  {
    if p > 0 {
      assert q[p - 1] == q[..p][p - 1] == r[..p][p - 1] == r[p - 1];
      assert q[..p - 1] == q[..p][..p - 1] == r[..p][..p - 1] == r[..p - 1];
      DrainBelow(q, r, p - 1);
    }
  }

  lemma DrainPop(q: Queues, p: nat)
    requires p < |q| && |q[p]| > 0
    ensures var e, s := q[p][|q[p]| - 1], q[p][..|q[p]| - 1];
            Drain(q, p + 1) == [Invoked(e.w, e.events)] + Drain(q[p := s], p + 1)
  {
    var e, s := q[p][|q[p]| - 1], q[p][..|q[p]| - 1];
    var r := q[p := s];
    DrainBelow(q, r, p);
    assert Drain(r, p + 1) == DrainOne(s) + Drain(q, p);
    assert Drain(q, p + 1) == [Invoked(e.w, e.events)] + DrainOne(s) + Drain(q, p);
  }

  lemma DrainEmpty(q: Queues, p: nat)
    requires p < |q| && q[p] == []
    ensures Drain(q, p + 1) == Drain(q, p)
  {
  }

  lemma DrainNone(q: Queues)
    ensures Drain(q, 0) == []
  {
  }

  lemma {:induction false} DrainOneAt(s: seq<Entry>, k: nat)
    requires k < |s|
    ensures |DrainOne(s)| == |s| && DrainOne(s)[|s| - 1 - k] == Invoked(s[k].w, s[k].events)
  {
    var t := s[..|s| - 1];
    if k < |s| - 1 {
      DrainOneAt(t, k);
      assert DrainOne(s)[|s| - 1 - k] == DrainOne(t)[|t| - 1 - k];
    } else if |s| > 1 {
      DrainOneAt(t, 0);
    }
  }

  /** Invocations that come before those of queue pri. */
  function Ahead(q: Queues, p: nat, pri: nat): nat
    requires pri < p <= |q|
  {
    if pri == p - 1 then 0 else |q[p - 1]| + Ahead(q, p - 1, pri)
  }

  lemma {:induction false} DrainAt(q: Queues, p: nat, pri: nat, k: nat)
    requires pri < p <= |q| && k < |q[pri]|
    ensures var i := Ahead(q, p, pri) + |q[pri]| - 1 - k;
            i < |Drain(q, p)| && Drain(q, p)[i] == Invoked(q[pri][k].w, q[pri][k].events)
  {
    if pri == p - 1 {
      DrainOneAt(q[pri], k);
    } else {
      DrainAt(q, p - 1, pri, k);
      if |q[p - 1]| > 0 {
        DrainOneAt(q[p - 1], 0);
      }
    }
  }

  ghost predicate InvokedBefore(h: seq<Event>, x: W, y: W) {
    exists i: nat, j: nat :: i < j < |h| && h[i].Invoked? && h[j].Invoked? && h[i].w == x && h[j].w == y
  }

  /** Of two watchers in one queue the one nearer to its end is invoked first. */
  lemma NearerEndFirst(q: Queues, ws: Store, x: W, y: W)
    requires IsPending(q, ws) && x in ws && y in ws && ws[x].pri == ws[y].pri
    requires ws[x].pending > ws[y].pending > 0
    ensures InvokedBefore(Drain(q, NUMPRI), x, y)
  {
    hide IsPending, Drain, Ahead;
    var pri := ws[x].pri;
    Home(q, ws, x);
    Home(q, ws, y);
    DrainAt(q, NUMPRI, pri, ws[x].pending - 1);
    DrainAt(q, NUMPRI, pri, ws[y].pending - 1);
    var i := Ahead(q, NUMPRI, pri) + |q[pri]| - ws[x].pending;
    var j := Ahead(q, NUMPRI, pri) + |q[pri]| - ws[y].pending;
    assert i < j && Drain(q, NUMPRI)[i].w == x && Drain(q, NUMPRI)[j].w == y;
  }

  // ---- what a fair history says ----

  /** Something owed was fed, and neither cleared nor delivered since. */
  lemma {:induction false} OwedWasFed(h: seq<Event>, w: W) returns (j: nat)
    requires Owed(h, w) != NotDue
    ensures j < |h| && h[j].w == w && h[j].Fed?
    ensures forall k: nat :: j < k < |h| && h[k].w == w ==> h[k].Fed?
  {
    var n := |h| - 1;
    if h[n].w == w {
      j := n;
    } else {
      j := OwedWasFed(h[..n], w);
    }
  }

  /** Between two invocations of a watcher there is a new feed, not cleared before the second. */
  lemma DeliveredOnce(h: seq<Event>, ws: Store, i: nat, k: nat) returns (j: nat)
    requires Fair(h, ws) && i < k < |h|
    requires h[i].Invoked? && h[k].Invoked? && h[i].w == h[k].w != DUMMY
    ensures i < j < k && h[j].w == h[k].w && h[j].Fed?
    ensures forall m: nat :: j < m < k && h[m].w == h[k].w ==> h[m].Fed?
  {
    assert Deserved(h, k, ws);
    j := OwedWasFed(h[..k], h[k].w);
    assert h[..k][i] == h[i];
    forall m: nat | j < m < k && h[m].w == h[k].w ensures h[m].Fed? {
      assert h[..k][m] == h[m];
    }
  }

  /** A feed that is not owed any more was delivered or cleared. */
  lemma {:induction false} AnsweredFeed(h: seq<Event>, w: W, j: nat) returns (k: nat)
    requires j < |h| && h[j].w == w && h[j].Fed? && Owed(h, w) == NotDue
    ensures j < k < |h| && h[k].w == w && !h[k].Fed?
  {
    var n := |h| - 1;
    if h[n].w == w {
      k := n;
    } else {
      assert h[..n][j] == h[j];
      k := AnsweredFeed(h[..n], w, j);
    }
  }

  /** From n on, w is invoked with all of these events, or it is cleared. */
  ghost predicate Answered(h: seq<Event>, n: nat, w: W, e: Events) {
    exists k: nat :: n <= k < |h| && h[k].w == w && (h[k].Cleared? || (h[k].Invoked? && Covers(h[k].events, e)))
  }

  lemma {:induction false} StillOwed(h: seq<Event>, n: nat, k: nat, w: W)
    requires n <= k <= |h| && Owed(h[..n], w).Due? && forall m: nat :: n <= m < k && h[m].w == w ==> h[m].Fed?
    ensures Owed(h[..k], w).Due? && Covers(Owed(h[..k], w).events, Owed(h[..n], w).events)
    decreases k - n
  {
    hide Both, Has;
    if n < k {
      StillOwed(h, n, k - 1, w);
      assert h[..k][..k - 1] == h[..k - 1] && h[..k][k - 1] == h[k - 1];
      if h[k - 1].w == w {
        BothCovers(Owed(h[..k - 1], w).events, h[k - 1].events);
      }
    }
  }

  lemma FirstAnswer(h: seq<Event>, n: nat, w: W) returns (k: nat)
    requires n <= |h| && exists k: nat :: n <= k < |h| && h[k].w == w && !h[k].Fed?
    ensures n <= k < |h| && h[k].w == w && !h[k].Fed? && forall m: nat :: n <= m < k && h[m].w == w ==> h[m].Fed?
    decreases |h| - n
  {
    if h[n].w == w && !h[n].Fed? {
      k := n;
    } else {
      k := FirstAnswer(h, n + 1, w);
    }
  }

  /** Whatever was owed and is not owed any more was delivered or cleared. */
  lemma GetsAnswered(h0: seq<Event>, h: seq<Event>, ws: Store, w: W, e: Events)
    requires h0 <= h && Fair(h, ws) && w != DUMMY
    requires Owed(h0, w).Due? && Covers(Owed(h0, w).events, e) && Owed(h, w) == NotDue
    ensures Answered(h, |h0|, w, e)
  {
    hide Owed, Has, Precedes;
    assert h[..|h0|] == h0 && h[..|h|] == h;
    if forall k: nat :: |h0| <= k < |h| && h[k].w == w ==> h[k].Fed? {
      StillOwed(h, |h0|, |h|, w);
    } else {
      var k := FirstAnswer(h, |h0|, w);
      StillOwed(h, |h0|, k, w);
      assert Deserved(h, k, ws);
    }
  }

  // ---- the order of two watchers of one priority, whatever happens in between ----

  /** Something other than a feed happens to x, or y is cleared. */
  predicate Yields(e: Event, x: W, y: W) {
    (e.w == x && !e.Fed?) || (e.w == y && e.Cleared?)
  }

  /** From n on y is not invoked before x was invoked or cleared, or y was cleared. */
  ghost predicate WaitsFor(h: seq<Event>, n: nat, x: W, y: W) {
    forall k: nat | n <= k < |h| && h[k].w == y && h[k].Invoked? :: exists m: nat :: n <= m < k && Yields(h[m], x, y)
  }

  lemma {:induction false} StillQueued(h: seq<Event>, n: nat, k: nat, w: W)
    requires n <= k <= |h| && Owed(h[..n], w) != NotDue && forall m: nat :: n <= m < k && h[m].w == w ==> h[m].Fed?
    ensures Owed(h[..k], w) != NotDue && QueuedAt(h[..k], w) == QueuedAt(h[..n], w)
    decreases k - n
  {
    if n < k {
      StillQueued(h, n, k - 1, w);
      assert h[..k][..k - 1] == h[..k - 1] && h[..k][k - 1] == h[k - 1];
    }
  }

  /** The one queued later goes first, in every history that goes on fairly. */
  lemma {:induction false} NotBefore(h: seq<Event>, n: nat, k: nat, ws: Store, x: W, y: W)
    requires Fair(h, ws) && n <= k < |h| && x in ws && y in ws && x != DUMMY && y != DUMMY && x != y && ws[x].pri == ws[y].pri
    requires Owed(h[..n], x) != NotDue && Owed(h[..n], y) != NotDue && QueuedAt(h[..n], y) < QueuedAt(h[..n], x)
    requires h[k].w == y && h[k].Invoked?
    ensures exists m: nat :: n <= m < k && Yields(h[m], x, y)
    decreases k
  {
    hide Owed, QueuedAt;
    assert Deserved(h, k, ws);
    assert Precedes(h[..k], ws, y, x);
    if forall m: nat :: n <= m < k ==> !Yields(h[m], x, y) {
      forall m: nat | n <= m < k && h[m].w == y ensures h[m].Fed? {
        if h[m].Invoked? {
          NotBefore(h, n, m, ws, x, y);
        }
      }
      StillQueued(h, n, k, y);
      StillQueued(h, n, k, x);      // then x was to go first
    }
  }

  lemma LaterFirst(h0: seq<Event>, h: seq<Event>, ws: Store, x: W, y: W)
    requires Fair(h, ws) && h0 <= h && x in ws && y in ws && x != DUMMY && y != DUMMY && x != y && ws[x].pri == ws[y].pri
    requires Owed(h0, x) != NotDue && Owed(h0, y) != NotDue && QueuedAt(h0, y) < QueuedAt(h0, x)
    ensures WaitsFor(h, |h0|, x, y)
  {
    forall k: nat | |h0| <= k < |h| && h[k].w == y && h[k].Invoked? ensures exists m: nat :: |h0| <= m < k && Yields(h[m], x, y) {
      assert h[..|h0|] == h0;
      NotBefore(h, |h0|, k, ws, x, y);
    }
  }
}
