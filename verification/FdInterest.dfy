/** Which events of which fds the watchers want, and telling the backend about it no sooner than needed. */
module FdInterest {

  import opened Basics
  import opened IoEvents
  import opened Watchers

  /** An ev_io, as far as it matters here. */
  datatype IoView = IoView(fd: int, events: Mask, fdset: bool, active: bool, next: Link)

  type IoStore = map<W, IoView>

  /** The io watchers of a loop. */
  function Ios(ws: Store): IoStore {
    map w | w in ws && ws[w].kind == Io ::
      IoView(ws[w].io.fd, ws[w].io.events, ws[w].io.fdset, ws[w].active == 1, ws[w].io.next)
  }

  /** The reify flags: EV_ANFD_REIFY and EV__IOFDSET. */
  datatype Reify = Reify(anfd: bool, fdset: bool) {
    predicate Any() { anfd || fdset }
    function Or(r: Reify): Reify { Reify(anfd || r.anfd, fdset || r.fdset) }
  }

  datatype Anfd = Anfd(head: Link, events: Mask, reify: Reify)

  const NO_REIFY := Reify(false, false)
  const NO_ANFD := Anfd(Null, NONE, NO_REIFY)
  const SIZEOF_ANFD := 16

  function At(list: seq<W>, i: nat): Link {
    if i < |list| then To(list[i]) else Null
  }

  /** Following next from head gives list. */
  predicate IsList(ws: IoStore, head: Link, list: seq<W>) {
    && head == At(list, 0)
    && (forall i {:trigger list[i]} :: 0 <= i < |list| ==> list[i] in ws && ws[list[i]].next == At(list, i + 1))
    && Distinct(list)
  }

  predicate Linked(anfds: seq<Anfd>, lists: seq<seq<W>>, ws: IoStore) {
    && |lists| == |anfds|
    && (forall f {:trigger lists[f]} :: 0 <= f < |lists| ==> IsList(ws, anfds[f].head, lists[f]))
  }

  /** The active watchers, each under its own fd. */
  ghost predicate Sorted(lists: seq<seq<W>>, ws: IoStore) {
    && (forall f: nat, w: W :: f < |lists| && w in lists[f] ==> w in ws && ws[w].active && ws[w].fd == f)
    && (forall w <- ws :: ws[w].active ==> 0 <= ws[w].fd < |lists| && w in lists[ws[w].fd] && !ws[w].fdset)
  }

  /** The lists of the anfds hold the active watchers. */
  ghost predicate Filed(anfds: seq<Anfd>, lists: seq<seq<W>>, ws: IoStore) {
    Linked(anfds, lists, ws) && Sorted(lists, ws)
  }

  /** All events wanted by the watchers of a list. */
  function Union(ws: IoStore, list: seq<W>): Mask
    requires forall w <- list :: w in ws
  {
    if list == [] then NONE else ws[list[0]].events.Or(Union(ws, list[1..]))
  }

  lemma {:induction false} UnionIs(ws: IoStore, list: seq<W>)
    requires forall w <- list :: w in ws
    ensures Union(ws, list).read <==> exists w <- list :: ws[w].events.read
    ensures Union(ws, list).write <==> exists w <- list :: ws[w].events.write
  {
    if list != [] {
      UnionIs(ws, list[1..]);
      assert list == [list[0]] + list[1..];
    }
  }

  lemma UnionFrom(ws: IoStore, list: seq<W>, i: nat)
    requires i <= |list| && forall w <- list :: w in ws
    ensures list[0..] == list
    ensures Union(ws, list[i..]) == if i == |list| then NONE else ws[list[i]].events.Or(Union(ws, list[i + 1..]))
  {
    assert i < |list| ==> list[i..][0] == list[i] && list[i..][1..] == list[i + 1..];
  }

  lemma {:induction false} UnionKept(ws: IoStore, xs: IoStore, list: seq<W>)
    requires forall w <- list :: w in ws && w in xs && xs[w].events == ws[w].events
    ensures Union(xs, list) == Union(ws, list)
  {
    if list != [] {
      UnionKept(ws, xs, list[1..]);
    }
  }

  /** The fds that wait in changes, once each, are those with a reify flag set. */
  ghost predicate Listed(anfds: seq<Anfd>, changes: seq<nat>) {
    && Distinct(changes)
    && (forall f: nat :: f in changes <==> f < |anfds| && anfds[f].reify.Any())
  }

  /** The events noted for f are those its watchers want, unless it is flagged. */
  predicate UpToDate(anfds: seq<Anfd>, lists: seq<seq<W>>, ws: IoStore, f: nat)
    requires f < |anfds| == |lists|
  {
    || anfds[f].reify.Any()
    || ((forall w <- lists[f] :: w in ws) && anfds[f].events == Union(ws, lists[f]))
  }

  ghost predicate Tracked(anfds: seq<Anfd>, lists: seq<seq<W>>, ws: IoStore, changes: seq<nat>) {
    && |lists| == |anfds|
    && Listed(anfds, changes)
    && (forall f: nat :: f < |anfds| ==> UpToDate(anfds, lists, ws, f))
  }

  // ---- fd_change ----

  function Flagged(anfds: seq<Anfd>, f: nat, flags: Reify): seq<Anfd>
    requires f < |anfds|
  {
    anfds[f := anfds[f].(reify := anfds[f].reify.Or(flags))]
  }

  /** The fd is appended unless it waits already. */
  lemma FlaggedListed(anfds: seq<Anfd>, changes: seq<nat>, f: nat, flags: Reify)
    requires Listed(anfds, changes) && f < |anfds| && flags.Any()
    ensures Listed(Flagged(anfds, f, flags), if anfds[f].reify.Any() then changes else changes + [f])
  {
    var after := Flagged(anfds, f, flags);
    assert after[f].reify.Any();
    if !anfds[f].reify.Any() {
      assert f !in changes;
      assert forall g :: g in changes + [f] <==> g in changes || g == f;
    }
  }

  // ---- ev_io_start and ev_io_stop ----

  function Started(ws: IoStore, w: W, head: Link): IoStore
    requires w in ws
  {
    ws[w := ws[w].(active := true, fdset := false, next := head)]
  }

  function Headed(anfds: seq<Anfd>, f: nat, head: Link): seq<Anfd>
    requires f < |anfds|
  {
    anfds[f := anfds[f].(head := head)]
  }

  lemma StartedList(ws: IoStore, head: Link, list: seq<W>, w: W)
    requires IsList(ws, head, list) && w in ws && w !in list
    ensures IsList(Started(ws, w, head), To(w), [w] + list)
  {
    var xs, l := Started(ws, w, head), [w] + list;
    forall i {:trigger l[i]} | 0 <= i < |l| ensures l[i] in xs && xs[l[i]].next == At(l, i + 1) {
      if i > 0 {
        assert l[i] == list[i - 1];
      }
    }
  }

  lemma ListKept(ws: IoStore, xs: IoStore, head: Link, list: seq<W>)
    requires IsList(ws, head, list) && forall v <- list :: v in xs && xs[v].next == ws[v].next
    ensures IsList(xs, head, list)
  {
    forall i {:trigger list[i]} | 0 <= i < |list| ensures list[i] in xs && xs[list[i]].next == At(list, i + 1) {
      assert list[i] in list;
    }
  }

  lemma StartedFiled(anfds: seq<Anfd>, lists: seq<seq<W>>, ws: IoStore, w: W)
    requires Filed(anfds, lists, ws) && w in ws && !ws[w].active && 0 <= ws[w].fd < |anfds|
    ensures var f := ws[w].fd;
            Filed(Headed(anfds, f, To(w)), lists[f := [w] + lists[f]], Started(ws, w, anfds[f].head))
  {
    hide IsList;
    var f: nat := ws[w].fd;
    var xs, ls := Started(ws, w, anfds[f].head), lists[f := [w] + lists[f]];
    forall g {:trigger ls[g]} | 0 <= g < |ls| ensures IsList(xs, Headed(anfds, f, To(w))[g].head, ls[g]) {
      if g == f {
        StartedList(ws, anfds[f].head, lists[f], w);
      } else {
        ListKept(ws, xs, anfds[g].head, lists[g]);
      }
    }
  }

  /** The store after list[p] was taken out of its list: its predecessor, if any, points past it. */
  function Unlinked(ws: IoStore, list: seq<W>, p: nat): IoStore
    requires p < |list| && forall v <- list :: v in ws
  {
    if p == 0 then ws else ws[list[p - 1] := ws[list[p - 1]].(next := ws[list[p]].next)]
  }

  function UnlinkedHead(ws: IoStore, head: Link, list: seq<W>, p: nat): Link
    requires p < |list| && forall v <- list :: v in ws
  {
    if p == 0 then ws[list[0]].next else head
  }

  function Cut(list: seq<W>, p: nat): seq<W>
    requires p < |list|
  {
    list[..p] + list[p + 1..]
  }

  lemma CutIs(list: seq<W>, p: nat)
    requires p < |list| && Distinct(list)
    ensures Distinct(Cut(list, p)) && forall v :: v in Cut(list, p) <==> v in list && v != list[p]
  {
    var l := Cut(list, p);
    assert forall i :: 0 <= i < |l| ==> l[i] == if i < p then list[i] else list[i + 1];
    assert list == list[..p] + [list[p]] + list[p + 1..];
  }

  lemma UnlinkedList(ws: IoStore, head: Link, list: seq<W>, p: nat)
    requires IsList(ws, head, list) && p < |list|
    ensures IsList(Unlinked(ws, list, p), UnlinkedHead(ws, head, list, p), Cut(list, p))
  {
    var xs, l := Unlinked(ws, list, p), Cut(list, p);
    CutIs(list, p);
    forall i {:trigger l[i]} | 0 <= i < |l| ensures l[i] in xs && xs[l[i]].next == At(l, i + 1) {
      assert l[i] == list[if i < p then i else i + 1];
    }
  }

  function Stopped(ws: IoStore, w: W): IoStore
    requires w in ws
  {
    ws[w := ws[w].(active := false)]
  }

  lemma ListDistinct(ws: IoStore, head: Link, list: seq<W>)
    requires IsList(ws, head, list)
    ensures Distinct(list)
  {
  }

  lemma StoppedFiled(anfds: seq<Anfd>, lists: seq<seq<W>>, ws: IoStore, f: nat, p: nat)
    requires Filed(anfds, lists, ws) && f < |anfds| && p < |lists[f]|
    ensures Filed(Headed(anfds, f, UnlinkedHead(ws, anfds[f].head, lists[f], p)), lists[f := Cut(lists[f], p)],
                  Stopped(Unlinked(ws, lists[f], p), lists[f][p]))
  {
    hide IsList;
    var list := lists[f];
    var ys, ls := Unlinked(ws, list, p), lists[f := Cut(list, p)];
    var xs := Stopped(ys, list[p]);
    UnlinkedList(ws, anfds[f].head, list, p);
    ListDistinct(ws, anfds[f].head, list);
    CutIs(list, p);
    forall g {:trigger ls[g]} | 0 <= g < |ls|
      ensures IsList(xs, Headed(anfds, f, UnlinkedHead(ws, anfds[f].head, list, p))[g].head, ls[g])
    {
      if g == f {
        ListKept(ys, xs, UnlinkedHead(ws, anfds[f].head, list, p), Cut(list, p));
      } else {
        assert forall v <- lists[g] :: v !in list;
        ListKept(ws, xs, anfds[g].head, lists[g]);
      }
    }
  }

  /** What the other fds' watchers want does not change. */
  lemma OthersUpToDate(anfds: seq<Anfd>, lists: seq<seq<W>>, ws: IoStore, bnfds: seq<Anfd>, mists: seq<seq<W>>, xs: IoStore, g: nat)
    requires Filed(anfds, lists, ws) && Filed(bnfds, mists, xs) && g < |anfds| == |bnfds| && lists[g] == mists[g]
    requires anfds[g].events == bnfds[g].events && anfds[g].reify == bnfds[g].reify
    requires UpToDate(anfds, lists, ws, g) && forall w <- lists[g] :: w in ws && w in xs ==> ws[w].events == xs[w].events
    ensures UpToDate(bnfds, mists, xs, g)
  {
    UnionKept(ws, xs, lists[g]);
  }

  lemma SetWorks(anfds: seq<Anfd>, lists: seq<seq<W>>, ws: IoStore, changes: seq<nat>, w: W, io: IoView)
    requires Filed(anfds, lists, ws) && Tracked(anfds, lists, ws, changes) && (w in ws ==> !ws[w].active) && !io.active
    ensures Filed(anfds, lists, ws[w := io]) && Tracked(anfds, lists, ws[w := io], changes)
  {
    var xs := ws[w := io];
    forall f: nat | f < |lists| ensures IsList(xs, anfds[f].head, lists[f]) && UpToDate(anfds, lists, xs, f) {
      assert w !in lists[f] && UpToDate(anfds, lists, ws, f);
      ListKept(ws, xs, anfds[f].head, lists[f]);
      if !anfds[f].reify.Any() {
        UnionKept(ws, xs, lists[f]);
      }
    }
  }

  lemma StartWorks(anfds: seq<Anfd>, lists: seq<seq<W>>, ws: IoStore, changes: seq<nat>, w: W, r: Reify)
    requires Filed(anfds, lists, ws) && Tracked(anfds, lists, ws, changes) && r.Any()
    requires w in ws && !ws[w].active && 0 <= ws[w].fd < |anfds|
    ensures var f := ws[w].fd;
            var xs, headed, ls := Started(ws, w, anfds[f].head), Headed(anfds, f, To(w)), lists[f := [w] + lists[f]];
            && Listed(headed, changes) && Filed(Flagged(headed, f, r), ls, xs)
            && forall g: nat :: g < |anfds| ==> UpToDate(Flagged(headed, f, r), ls, xs, g)
  {
    StartedFiled(anfds, lists, ws, w);
    var f := ws[w].fd;
    var xs, headed, ls := Started(ws, w, anfds[f].head), Headed(anfds, f, To(w)), lists[f := [w] + lists[f]];
    FlaggedUpToDate(anfds, lists, ws, headed, ls, xs, f, r);
  }

  /** A change at f leaves everything up to date, if f is flagged. */
  lemma FlaggedUpToDate(anfds: seq<Anfd>, lists: seq<seq<W>>, ws: IoStore,
                        headed: seq<Anfd>, ls: seq<seq<W>>, xs: IoStore, f: nat, r: Reify)
    requires Filed(anfds, lists, ws) && Filed(headed, ls, xs) && f < |anfds| == |headed| && r.Any()
    requires forall g: nat :: g < |anfds| ==> UpToDate(anfds, lists, ws, g)
    requires forall g: nat :: g < |anfds| && g != f ==> headed[g] == anfds[g] && ls[g] == lists[g]
    requires forall v <- ws :: v in xs && xs[v].events == ws[v].events
    ensures Filed(Flagged(headed, f, r), ls, xs)
    ensures forall g: nat :: g < |anfds| ==> UpToDate(Flagged(headed, f, r), ls, xs, g)
  {
    var after := Flagged(headed, f, r);
    assert forall g: nat :: g < |anfds| ==> after[g].head == headed[g].head;
    assert after[f].reify.Any();
    forall g: nat | g < |anfds| ensures UpToDate(after, ls, xs, g) {
      if g != f {
        assert after[g] == anfds[g];
        OthersUpToDate(anfds, lists, ws, after, ls, xs, g);
      }
    }
  }

  lemma StopWorks(anfds: seq<Anfd>, lists: seq<seq<W>>, ws: IoStore, changes: seq<nat>, f: nat, p: nat, r: Reify)
    requires Filed(anfds, lists, ws) && Tracked(anfds, lists, ws, changes) && r.Any()
    requires f < |anfds| && p < |lists[f]|
    ensures forall v <- lists[f] :: v in ws
    ensures var headed, ls := Headed(anfds, f, UnlinkedHead(ws, anfds[f].head, lists[f], p)), lists[f := Cut(lists[f], p)];
            var xs := Stopped(Unlinked(ws, lists[f], p), lists[f][p]);
            && Listed(headed, changes) && Filed(Flagged(headed, f, r), ls, xs)
            && forall g: nat :: g < |anfds| ==> UpToDate(Flagged(headed, f, r), ls, xs, g)
  {
    StoppedFiled(anfds, lists, ws, f, p);
    var headed, ls := Headed(anfds, f, UnlinkedHead(ws, anfds[f].head, lists[f], p)), lists[f := Cut(lists[f], p)];
    var xs := Stopped(Unlinked(ws, lists[f], p), lists[f][p]);
    FlaggedUpToDate(anfds, lists, ws, headed, ls, xs, f, r);
  }

  // ---- fd_reify ----

  lemma ReifiedWorks(anfds: seq<Anfd>, lists: seq<seq<W>>, ws: IoStore, rest: seq<nat>)
    requires Filed(anfds, lists, ws) && Tracked(anfds, lists, ws, rest) && rest != []
    ensures var f := rest[0];
            && f < |anfds| && (forall v <- lists[f] :: v in ws)
            && var after := anfds[f := anfds[f].(reify := NO_REIFY, events := Union(ws, lists[f]))];
               Filed(after, lists, ws) && Tracked(after, lists, ws, rest[1..])
  {
    var f := rest[0];
    assert f in rest;
    assert IsList(ws, anfds[f].head, lists[f]);
    var after := anfds[f := anfds[f].(reify := NO_REIFY, events := Union(ws, lists[f]))];
    assert forall g :: g in rest[1..] <==> g in rest && g != f by {
      assert rest == [f] + rest[1..];
    }
    forall g: nat | g < |anfds| ensures UpToDate(after, lists, ws, g) {
      assert UpToDate(anfds, lists, ws, g);
    }
  }

  /** New, zeroed anfds. */
  lemma GrownWorks(anfds: seq<Anfd>, lists: seq<seq<W>>, ws: IoStore, changes: seq<nat>, n: nat)
    requires Filed(anfds, lists, ws) && Tracked(anfds, lists, ws, changes)
    ensures var more, none := anfds + seq(n, _ => NO_ANFD), lists + seq(n, _ => []);
            Filed(more, none, ws) && Tracked(more, none, ws, changes)
  {
    var more, none := anfds + seq(n, _ => NO_ANFD), lists + seq(n, _ => []);
    assert forall f :: 0 <= f < |anfds| ==> more[f] == anfds[f] && none[f] == lists[f];
    assert forall f :: |anfds| <= f < |more| ==> more[f] == NO_ANFD && none[f] == [];
    forall f: nat | f < |more| ensures UpToDate(more, none, ws, f) {
      if f < |anfds| {
        assert UpToDate(anfds, lists, ws, f);
      }
    }
  }

  // ---- fd_event ----

  /** The watchers of a list that are fed when revents happen, with what they are fed. */
  function Hits(ws: IoStore, list: seq<W>, revents: Mask): seq<(W, Mask)>
    requires forall w <- list :: w in ws
  {
    if list == [] then []
    else var m := ws[list[0]].events.And(revents);
         (if m.Any() then [(list[0], m)] else []) + Hits(ws, list[1..], revents)
  }

  lemma HitsStep(ws: IoStore, list: seq<W>, i: nat, revents: Mask)
    requires i < |list| && forall w <- list :: w in ws
    ensures var m := ws[list[i]].events.And(revents);
            Hits(ws, list[i..], revents) == (if m.Any() then [(list[i], m)] else []) + Hits(ws, list[i + 1..], revents)
  {
    assert list[i..][0] == list[i] && list[i..][1..] == list[i + 1..];
  }

  lemma Joined(fed: seq<(W, Mask)>, hit: (W, Mask), rest: seq<(W, Mask)>)
    ensures fed + ([hit] + rest) == (fed + [hit]) + rest && fed + ([] + rest) == fed + rest
  {
  }

  lemma HitsEnd(ws: IoStore, list: seq<W>, revents: Mask)
    requires forall w <- list :: w in ws
    ensures Hits(ws, list[|list|..], revents) == [] && list[0..] == list
  {
  }

  /** A watcher is fed just those events it waits for, and once. */
  lemma {:induction false} HitsAre(ws: IoStore, list: seq<W>, revents: Mask, w: W, m: Mask)
    requires (forall v <- list :: v in ws) && Distinct(list)
    ensures (w, m) in Hits(ws, list, revents) <==> w in list && m == ws[w].events.And(revents) && m.Any()
    ensures forall i, j :: 0 <= i < j < |Hits(ws, list, revents)| ==> Hits(ws, list, revents)[i].0 != Hits(ws, list, revents)[j].0
    ensures forall h <- Hits(ws, list, revents) :: h.0 in list
  {
    if list != [] {
      HitsAre(ws, list[1..], revents, w, m);
      assert list == [list[0]] + list[1..];
      assert list[0] !in list[1..];
    }
  }

  lemma HeadOf(ws: IoStore, head: Link, list: seq<W>)
    requires IsList(ws, head, list)
    ensures head == At(list, 0) && forall w <- list :: w in ws
  {
  }

  lemma AtEnd(list: seq<W>, i: nat)
    ensures At(list, i) == Null <==> i >= |list|
    ensures At(list, i) != Null ==> At(list, i) == To(list[i])
  {
  }

  /** A watcher of a list, the one after it, and where else it is. */
  lemma NextOf(ws: IoStore, head: Link, list: seq<W>, i: nat)
    requires IsList(ws, head, list) && i < |list|
    ensures At(list, i) == To(list[i]) && list[i] in ws && ws[list[i]].next == At(list, i + 1)
    ensures forall j: nat :: j < |list| && list[j] == list[i] ==> j == i
    ensures i > 0 ==> list[i - 1] in ws
  {
    if i > 0 {
      assert list[i - 1] in list;
    }
  }
}
