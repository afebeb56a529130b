/** The timer heap: nodes of (cached time, watcher) in heap order, each watcher holding the index of its node. */
module Heap {

  import opened Watchers

  /** ANHE: a heap node, caching the time of its watcher. */
  datatype Node = Node(at: Tstamp, w: W)

  /** A heap: its arity and the kind of its watchers. */
  datatype Shape = Two(kind: Kind) | Four(kind: Kind) {
    /** HEAP0, the index of the root. */
    function Root(): nat { if Two? then 1 else 3 }

    /** HPARENT.  C division truncates, so the root of the 4-heap is its own parent. */
    function Parent(k: nat): nat
      requires k >= Root()
    {
      if Two? then k / 2 else if k == 3 then 3 else (k - 4) / 4 + 3
    }

    /** UPHEAP_DONE: k is the root, told by its parent p. */
    predicate UpDone(p: nat, k: nat) { if Two? then p == 0 else p == k }

    /** DHEAP * (k - HEAP0) + HEAP0 + 1; for the 2-heap k << 1. */
    function FirstChild(k: nat): nat
      requires k >= Root()
    {
      if Two? then 2 * k else 4 * (k - 3) + 4
    }

    /** DHEAP */
    function Degree(): nat { if Two? then 2 else 4 }

    lemma ParentAbove(k: nat)
      requires k > Root()
      ensures Root() <= Parent(k) < k && !UpDone(Parent(k), k)
      ensures UpDone(Parent(Root()), Root())
    {
    }

    lemma ChildrenOf(k: nat, j: nat)
      requires k >= Root() && j > Root()
      ensures Parent(j) == k <==> FirstChild(k) <= j < FirstChild(k) + Degree()
    {
    }
  }

  // ---- heap order ----

  predicate InHeap(d: Shape, hi: nat, j: nat) { d.Root() <= j < hi }

  ghost predicate Ordered(d: Shape, v: seq<Node>, hi: nat)
    requires hi <= |v|
  {
    forall j: nat {:trigger d.Parent(j)} :: d.Root() < j < hi ==> d.Parent(j) < j && v[d.Parent(j)].at <= v[j].at
  }

  /** Children of k fit under the parent of k. */
  ghost predicate Bypassed(d: Shape, v: seq<Node>, hi: nat, k: nat)
    requires hi <= |v|
  {
    forall j: nat {:trigger d.Parent(j)} :: d.Root() < j < hi && d.Parent(j) == k && k > d.Root() ==>
      d.Parent(k) < k < hi && v[d.Parent(k)].at <= v[j].at
  }

  /** Heap order except that the node at k may be too early. */
  ghost predicate OrderedBelow(d: Shape, v: seq<Node>, hi: nat, k: nat)
    requires hi <= |v|
  {
    && (forall j: nat {:trigger d.Parent(j)} :: d.Root() < j < hi ==>
          d.Parent(j) < j && (j != k ==> v[d.Parent(j)].at <= v[j].at))
    && Bypassed(d, v, hi, k)
  }

  /** Heap order except that the node at k may be too late. */
  ghost predicate OrderedAbove(d: Shape, v: seq<Node>, hi: nat, k: nat)
    requires hi <= |v|
  {
    && (forall j: nat {:trigger d.Parent(j)} :: d.Root() < j < hi ==>
          d.Parent(j) < j && (d.Parent(j) != k ==> v[d.Parent(j)].at <= v[j].at))
    && Bypassed(d, v, hi, k)
  }

  /** Heap order except at k. */
  ghost predicate OrderedAround(d: Shape, v: seq<Node>, hi: nat, k: nat)
    requires hi <= |v|
  {
    && (forall j: nat {:trigger d.Parent(j)} :: d.Root() < j < hi ==>
          d.Parent(j) < j && (j != k && d.Parent(j) != k ==> v[d.Parent(j)].at <= v[j].at))
    && Bypassed(d, v, hi, k)
  }

  lemma {:induction false} RootIsMinimum(d: Shape, v: seq<Node>, hi: nat, k: nat)
    requires hi <= |v| && Ordered(d, v, hi) && InHeap(d, hi, k)
    ensures v[d.Root()].at <= v[k].at
  {
    if k > d.Root() {
      RootIsMinimum(d, v, hi, d.Parent(k));
    }
  }

  // ---- contents and back-pointers ----

  /** The nodes of a heap, as a set. */
  ghost function Ns(d: Shape, v: seq<Node>): set<Node> {
    set j: nat | d.Root() <= j < |v| :: v[j]
  }

  ghost function WatchersOf(ns: set<Node>): set<W> {
    set n | n in ns :: n.w
  }

  /** The watchers in a heap. */
  ghost function Ws(d: Shape, v: seq<Node>): set<W> {
    WatchersOf(Ns(d, v))
  }

  /** Every watcher's active is the index of its node, but for the one at k, which is at no other. */
  ghost predicate IndexedBut(d: Shape, v: seq<Node>, k: nat, ws: Store)
    requires k < |v|
  {
    forall j: nat :: d.Root() <= j < |v| ==>
      v[j].w in ws && (j != k ==> ws[v[j].w].active == j && v[j].w != v[k].w)
  }

  ghost predicate Indexed(d: Shape, v: seq<Node>, ws: Store) {
    forall j: nat :: d.Root() <= j < |v| ==> v[j].w in ws && ws[v[j].w].active == j
  }

  ghost predicate Cached(d: Shape, v: seq<Node>, ws: Store) {
    forall n | n in Ns(d, v) :: n.w in ws && ws[n.w].kind == d.kind && n.at == ws[n.w].at
  }

  /** What verify_heap asserts, and that watchers of this kind outside the heap are not active. */
  ghost predicate IsHeap(d: Shape, v: seq<Node>, ws: Store) {
    && |v| >= d.Root()
    && Ordered(d, v, |v|)
    && Indexed(d, v, ws)
    && Cached(d, v, ws)
    && (forall w | w in ws && ws[w].kind == d.kind && w !in Ws(d, v) :: ws[w].active == 0)
  }

  lemma MemberAt(d: Shape, v: seq<Node>, w: W) returns (j: nat)
    requires w in Ws(d, v)
    ensures d.Root() <= j < |v| && v[j].w == w
  {
    var n :| n in Ns(d, v) && n.w == w;
    j :| d.Root() <= j < |v| && v[j] == n;
  }

  lemma ActiveInHeap(d: Shape, v: seq<Node>, ws: Store, w: W)
    requires IsHeap(d, v, ws) && w in ws && ws[w].kind == d.kind
    ensures ws[w].active != 0 <==> w in Ws(d, v)
    ensures ws[w].active != 0 ==> InHeap(d, |v|, ws[w].active) && v[ws[w].active] == Node(ws[w].at, w)
  {
    if w in Ws(d, v) {
      var j := MemberAt(d, v, w);
      assert v[j] in Ns(d, v);
    }
  }

  lemma RootIsDueFirst(d: Shape, v: seq<Node>, ws: Store, w: W)
    requires IsHeap(d, v, ws) && w in Ws(d, v)
    ensures |v| > d.Root() && v[d.Root()].w in Ws(d, v) && v[d.Root()].w in ws && w in ws
    ensures v[d.Root()].at == ws[v[d.Root()].w].at <= ws[w].at
  {
    var j := MemberAt(d, v, w);
    RootIsMinimum(d, v, |v|, j);
    assert v[j] in Ns(d, v) && v[d.Root()] in Ns(d, v);
  }

  function Swap(v: seq<Node>, i: nat, j: nat): seq<Node>
    requires i < |v| && j < |v|
  {
    v[i := v[j]][j := v[i]]
  }

  lemma SwapIncludes(d: Shape, v: seq<Node>, i: nat, j: nat)
    requires InHeap(d, |v|, i) && InHeap(d, |v|, j)
    ensures Ns(d, v) <= Ns(d, Swap(v, i, j))
  {
    var u := Swap(v, i, j);
    forall n | n in Ns(d, v) ensures n in Ns(d, u) {
      var k: nat :| d.Root() <= k < |v| && v[k] == n;
      var m := if k == i then j else if k == j then i else k;
      assert u[m] == n;
    }
  }

  lemma SwapKeepsNodes(d: Shape, v: seq<Node>, i: nat, j: nat)
    requires InHeap(d, |v|, i) && InHeap(d, |v|, j)
    ensures Ns(d, Swap(v, i, j)) == Ns(d, v)
  {
    SwapIncludes(d, v, i, j);
    SwapIncludes(d, Swap(v, i, j), i, j);
    assert Swap(Swap(v, i, j), i, j) == v;
  }

  // ---- the sifts ----

  /** ev_active (w) = k */
  function SetActive(ws: Store, w: W, k: nat): Store
    requires w in ws
  {
    ws[w := ws[w].(active := k)]
  }

  datatype Sifted = Sifted(v: seq<Node>, ws: Store)

  predicate Stored(d: Shape, v: seq<Node>, ws: Store) {
    forall j: nat :: d.Root() <= j < |v| ==> v[j].w in ws
  }

  /** upheap: move the node at k towards the root while its parent is later. */
  function Up(d: Shape, v: seq<Node>, ws: Store, k: nat): (r: Sifted)
    requires InHeap(d, |v|, k) && Stored(d, v, ws)
    ensures |r.v| == |v| && r.ws.Keys == ws.Keys && Stored(d, r.v, r.ws)
    decreases k
  {
    if k > d.Root() then
      d.ParentAbove(k);
      var p := d.Parent(k);
      if v[p].at <= v[k].at then Sifted(v, SetActive(ws, v[k].w, k))
      else Up(d, Swap(v, k, p), SetActive(ws, v[p].w, k), p)
    else Sifted(v, SetActive(ws, v[k].w, k))
  }

  /** The first of the earliest nodes in a stretch. */
  function Earliest(v: seq<Node>, lo: nat, hi: nat): (m: nat)
    requires lo < hi <= |v|
    ensures lo <= m < hi
    ensures forall j: nat :: lo <= j < hi ==> v[m].at <= v[j].at
  {
    if hi == lo + 1 then lo
    else
      var m := Earliest(v, lo, hi - 1);
      if v[hi - 1].at < v[m].at then hi - 1 else m
  }

  function LastChild(d: Shape, hi: nat, k: nat): nat
    requires k >= d.Root()
  {
    if d.FirstChild(k) + d.Degree() < hi then d.FirstChild(k) + d.Degree() else hi
  }

  /** downheap: move the node at k away from the root while its earliest child is earlier. */
  function Down(d: Shape, v: seq<Node>, ws: Store, k: nat): (r: Sifted)
    requires InHeap(d, |v|, k) && Stored(d, v, ws)
    ensures |r.v| == |v| && r.ws.Keys == ws.Keys && Stored(d, r.v, r.ws)
    decreases |v| - k
  {
    if d.FirstChild(k) < |v| then
      var c := Earliest(v, d.FirstChild(k), LastChild(d, |v|, k));
      if v[k].at <= v[c].at then Sifted(v, SetActive(ws, v[k].w, k))
      else Down(d, Swap(v, k, c), SetActive(ws, v[c].w, k), c)
    else Sifted(v, SetActive(ws, v[k].w, k))
  }

  /** adjustheap: the node at k may be too early or too late. */
  function Adjust(d: Shape, v: seq<Node>, ws: Store, k: nat): Sifted
    requires InHeap(d, |v|, k) && Stored(d, v, ws)
  {
    if k > d.Root() && v[k].at <= v[d.Parent(k)].at then Up(d, v, ws, k) else Down(d, v, ws, k)
  }

  // ---- what the sifts do to the order ----

  lemma UpStep(d: Shape, v: seq<Node>, hi: nat, k: nat)
    requires hi <= |v| && d.Root() < k < hi && OrderedBelow(d, v, hi, k)
    requires v[k].at < v[d.Parent(k)].at
    ensures OrderedBelow(d, Swap(v, k, d.Parent(k)), hi, d.Parent(k))
  {
    var p := d.Parent(k);
    var u := Swap(v, k, p);
    forall j: nat | d.Root() < j < hi && j != p ensures u[d.Parent(j)].at <= u[j].at {
      if d.Parent(j) == k {
        assert v[p].at <= v[j].at;
      }
    }
    forall j: nat | d.Root() < j < hi && d.Parent(j) == p && p > d.Root() ensures u[d.Parent(p)].at <= u[j].at {
      assert v[d.Parent(p)].at <= v[p].at;
    }
  }

  lemma {:induction false} UpSorts(d: Shape, v: seq<Node>, ws: Store, hi: nat, k: nat)
    requires hi <= |v| && InHeap(d, hi, k) && OrderedBelow(d, v, hi, k) && Stored(d, v, ws)
    ensures Ordered(d, Up(d, v, ws, k).v, hi)
    decreases k
  {
    if k > d.Root() && v[k].at < v[d.Parent(k)].at {
      d.ParentAbove(k);
      UpStep(d, v, hi, k);
      UpSorts(d, Swap(v, k, d.Parent(k)), SetActive(ws, v[d.Parent(k)].w, k), hi, d.Parent(k));
    }
  }

  lemma DownStep(d: Shape, v: seq<Node>, k: nat, c: nat)
    requires InHeap(d, |v|, k) && OrderedAbove(d, v, |v|, k)
    requires k < c < |v| && d.Parent(c) == k && v[c].at < v[k].at
    requires forall j: nat {:trigger d.Parent(j)} :: d.Root() < j < |v| && d.Parent(j) == k ==> v[c].at <= v[j].at
    ensures OrderedAbove(d, Swap(v, k, c), |v|, c)
  {
    var u := Swap(v, k, c);
    forall j: nat | d.Root() < j < |v| && d.Parent(j) != c ensures u[d.Parent(j)].at <= u[j].at {
      if j == k {
        assert v[d.Parent(k)].at <= v[c].at;
      }
    }
    forall j: nat | d.Root() < j < |v| && d.Parent(j) == c ensures u[d.Parent(c)].at <= u[j].at {
      assert v[c].at <= v[j].at;
    }
  }

  lemma EarliestChild(d: Shape, v: seq<Node>, k: nat)
    requires InHeap(d, |v|, k) && d.FirstChild(k) < |v|
    ensures var c := Earliest(v, d.FirstChild(k), LastChild(d, |v|, k));
            && k < c < |v| && d.Parent(c) == k
            && (forall j: nat {:trigger d.Parent(j)} :: d.Root() < j < |v| && d.Parent(j) == k ==> v[c].at <= v[j].at)
  {
    var c := Earliest(v, d.FirstChild(k), LastChild(d, |v|, k));
    d.ChildrenOf(k, c);
    forall j: nat | d.Root() < j < |v| && d.Parent(j) == k ensures v[c].at <= v[j].at {
      d.ChildrenOf(k, j);
    }
  }

  lemma {:induction false} DownSorts(d: Shape, v: seq<Node>, ws: Store, k: nat)
    requires InHeap(d, |v|, k) && OrderedAbove(d, v, |v|, k) && Stored(d, v, ws)
    ensures Ordered(d, Down(d, v, ws, k).v, |v|)
    decreases |v| - k
  {
    if d.FirstChild(k) >= |v| {
      LeafIsLast(d, v, k);
    } else {
      EarliestChild(d, v, k);
      var c := Earliest(v, d.FirstChild(k), LastChild(d, |v|, k));
      if v[c].at < v[k].at {
        DownStep(d, v, k, c);
        var u, ws1 := Swap(v, k, c), SetActive(ws, v[c].w, k);
        assert Stored(d, u, ws1) && Down(d, v, ws, k) == Down(d, u, ws1, c);
        DownSorts(d, u, ws1, c);
      } else {
        assert Down(d, v, ws, k).v == v;
      }
    }
  }

  lemma LeafIsLast(d: Shape, v: seq<Node>, k: nat)
    requires InHeap(d, |v|, k) && OrderedAbove(d, v, |v|, k) && d.FirstChild(k) >= |v|
    ensures Ordered(d, v, |v|)
  {
    forall j: nat | d.Root() < j < |v| ensures d.Parent(j) != k {
      d.ChildrenOf(k, j);
    }
  }

  lemma AdjustSorts(d: Shape, v: seq<Node>, ws: Store, k: nat)
    requires InHeap(d, |v|, k) && OrderedAround(d, v, |v|, k) && Stored(d, v, ws)
    ensures Ordered(d, Adjust(d, v, ws, k).v, |v|)
  {
    hide Up, Down;
    if k > d.Root() && v[k].at <= v[d.Parent(k)].at {
      UpSorts(d, v, ws, |v|, k);
    } else {
      DownSorts(d, v, ws, k);
    }
  }

  // ---- what they do to contents and back-pointers ----

  /** r holds the same nodes as v, all indexed, and only active fields of their watchers changed. */
  ghost predicate Resifted(d: Shape, v: seq<Node>, ws: Store, r: Sifted) {
    && Ns(d, r.v) == Ns(d, v)
    && Indexed(d, r.v, r.ws)
    && r.ws.Keys == ws.Keys
    && (forall w | w in ws :: r.ws[w] == ws[w].(active := r.ws[w].active))
    && (forall w | w in ws && w !in Ws(d, v) :: r.ws[w] == ws[w])
  }

  lemma HoleMoves(d: Shape, v: seq<Node>, k: nat, p: nat, ws: Store)
    requires InHeap(d, |v|, k) && InHeap(d, |v|, p) && p != k && IndexedBut(d, v, k, ws)
    ensures IndexedBut(d, Swap(v, k, p), p, SetActive(ws, v[p].w, k))
  {
    var u := Swap(v, k, p);
    forall j: nat | d.Root() <= j < |v| && j != p
      ensures SetActive(ws, v[p].w, k)[u[j].w].active == j && u[j].w != u[p].w
    {
      var m := if j == k then p else j;
      assert v[m] == u[j];
    }
  }

  lemma HoleFills(d: Shape, v: seq<Node>, k: nat, ws: Store)
    requires InHeap(d, |v|, k) && IndexedBut(d, v, k, ws)
    ensures Resifted(d, v, ws, Sifted(v, SetActive(ws, v[k].w, k)))
  {
    assert v[k] in Ns(d, v);
  }

  lemma OneSiftMore(d: Shape, v: seq<Node>, ws: Store, k: nat, p: nat, r: Sifted)
    requires InHeap(d, |v|, k) && InHeap(d, |v|, p) && IndexedBut(d, v, k, ws)
    requires Resifted(d, Swap(v, k, p), SetActive(ws, v[p].w, k), r)
    ensures Resifted(d, v, ws, r)
  {
    SwapKeepsNodes(d, v, k, p);
    assert v[p] in Ns(d, v);
  }

  lemma {:induction false} UpResifts(d: Shape, v: seq<Node>, ws: Store, k: nat)
    requires InHeap(d, |v|, k) && IndexedBut(d, v, k, ws)
    ensures Resifted(d, v, ws, Up(d, v, ws, k))
    decreases k
  {
    if k > d.Root() && v[k].at < v[d.Parent(k)].at {
      var p := d.Parent(k);
      d.ParentAbove(k);
      HoleMoves(d, v, k, p, ws);
      UpResifts(d, Swap(v, k, p), SetActive(ws, v[p].w, k), p);
      OneSiftMore(d, v, ws, k, p, Up(d, v, ws, k));
    } else {
      HoleFills(d, v, k, ws);
    }
  }

  lemma {:induction false} DownResifts(d: Shape, v: seq<Node>, ws: Store, k: nat)
    requires InHeap(d, |v|, k) && IndexedBut(d, v, k, ws)
    ensures Resifted(d, v, ws, Down(d, v, ws, k))
    decreases |v| - k
  {
    if d.FirstChild(k) < |v| && v[Earliest(v, d.FirstChild(k), LastChild(d, |v|, k))].at < v[k].at {
      EarliestChild(d, v, k);
      var c := Earliest(v, d.FirstChild(k), LastChild(d, |v|, k));
      HoleMoves(d, v, k, c, ws);
      DownResifts(d, Swap(v, k, c), SetActive(ws, v[c].w, k), c);
      OneSiftMore(d, v, ws, k, c, Down(d, v, ws, k));
    } else {
      HoleFills(d, v, k, ws);
    }
  }

  // ---- inserting, removing and retiming a watcher ----

  /** Only active fields of watchers of the heap's kind differ. */
  ghost predicate OnlyActive(d: Shape, before: Store, after: Store) {
    && after.Keys == before.Keys
    && forall w | w in before ::
         after[w] == before[w].(active := after[w].active) && (before[w].kind != d.kind ==> after[w] == before[w])
  }

  /** The heap part of ev_timer_start: a new last node, moved up. */
  function Insert(d: Shape, v: seq<Node>, ws: Store, w: W): Sifted
    requires |v| >= d.Root() && Stored(d, v, ws) && w in ws
  {
    Up(d, v + [Node(ws[w].at, w)], SetActive(ws, w, |v|), |v|)
  }

  /** The heap part of ev_timer_stop: the last node takes the place of the removed one. */
  function Remove(d: Shape, v: seq<Node>, ws: Store, w: W): (r: Sifted)
    requires Stored(d, v, ws) && w in ws && InHeap(d, |v|, ws[w].active)
    ensures |r.v| == |v| - 1
  {
    var k, last := ws[w].active, |v| - 1;
    if k < last then
      var r := Adjust(d, v[..last][k := v[last]], ws, k);
      Sifted(r.v, SetActive(r.ws, w, 0))
    else Sifted(v[..last], SetActive(ws, w, 0))
  }

  /** A watcher in the heap has got a new time: cache it and adjust. */
  function Retime(d: Shape, v: seq<Node>, ws: Store, w: W): Sifted
    requires Stored(d, v, ws) && w in ws && InHeap(d, |v|, ws[w].active)
  {
    Adjust(d, v[ws[w].active := Node(ws[w].at, w)], ws, ws[w].active)
  }

  /** The same for the root, which only moves down, as in timers_reify. */
  function RetimeRoot(d: Shape, v: seq<Node>, ws: Store): Sifted
    requires Stored(d, v, ws) && InHeap(d, |v|, d.Root())
  {
    var w := v[d.Root()].w;
    Down(d, v[d.Root() := Node(ws[w].at, w)], ws, d.Root())
  }

  /** reheap: upheap each of the first n nodes in turn. */
  function Rebuilt(d: Shape, v: seq<Node>, ws: Store, n: nat): (r: Sifted)
    requires d.Root() + n <= |v| && Stored(d, v, ws)
    ensures |r.v| == |v| && r.ws.Keys == ws.Keys && Stored(d, r.v, r.ws)
  {
    if n == 0 then Sifted(v, ws)
    else
      var r := Rebuilt(d, v, ws, n - 1);
      Up(d, r.v, r.ws, d.Root() + n - 1)
  }

  lemma AppendKeepsOrder(d: Shape, v: seq<Node>, k: nat)
    requires d.Root() <= k < |v| && Ordered(d, v, k)
    ensures OrderedBelow(d, v, k + 1, k)
  {
    forall j: nat | d.Root() < j < k + 1 ensures d.Parent(j) < j {
      d.ParentAbove(j);
    }
  }

  lemma ReplaceKeepsOrder(d: Shape, v: seq<Node>, k: nat, n: Node)
    requires InHeap(d, |v|, k) && Ordered(d, v, |v|)
    ensures OrderedAround(d, v[k := n], |v|, k)
    ensures k == d.Root() ==> OrderedAbove(d, v[k := n], |v|, k)
  {
    forall j: nat | d.Root() < j < |v| && d.Parent(j) == k && k > d.Root()
      ensures d.Parent(k) < k < |v| && v[k := n][d.Parent(k)].at <= v[k := n][j].at
    {
      assert v[d.Parent(k)].at <= v[k].at;
    }
  }

  lemma AppendNode(d: Shape, v: seq<Node>, n: Node)
    requires |v| >= d.Root()
    ensures Ns(d, v + [n]) == Ns(d, v) + {n}
  {
    var u := v + [n];
    forall m | m in Ns(d, v) ensures m in Ns(d, u) {
      var j: nat :| d.Root() <= j < |v| && v[j] == m;
      assert u[j] == m;
    }
    assert u[|v|] == n;
  }

  lemma ReplaceNode(d: Shape, v: seq<Node>, k: nat, n: Node)
    requires InHeap(d, |v|, k)
    requires forall j: nat :: d.Root() <= j < |v| && j != k ==> v[j] != v[k]
    ensures Ns(d, v[k := n]) == Ns(d, v) - {v[k]} + {n}
  {
    var u := v[k := n];
    forall m | m in Ns(d, v) - {v[k]} ensures m in Ns(d, u) {
      var j: nat :| d.Root() <= j < |v| && v[j] == m;
      assert u[j] == m;
    }
    assert u[k] == n;
  }

  lemma DropLast(d: Shape, v: seq<Node>)
    requires |v| > d.Root()
    requires forall j: nat :: d.Root() <= j < |v| - 1 ==> v[j] != v[|v| - 1]
    ensures Ns(d, v[..|v| - 1]) == Ns(d, v) - {v[|v| - 1]}
  {
    var u := v[..|v| - 1];
    forall m | m in Ns(d, v) - {v[|v| - 1]} ensures m in Ns(d, u) {
      var j: nat :| d.Root() <= j < |v| && v[j] == m;
      assert u[j] == m;
    }
  }

  /** A sift of nodes that are right but for order and one index makes a heap of them. */
  lemma SiftMakesHeap(d: Shape, v: seq<Node>, ws: Store, r: Sifted)
    requires |r.v| >= d.Root() && Resifted(d, v, ws, r) && Ordered(d, r.v, |r.v|) && Cached(d, v, ws)
    requires forall w | w in ws && ws[w].kind == d.kind && w !in Ws(d, v) :: ws[w].active == 0
    ensures IsHeap(d, r.v, r.ws) && Ws(d, r.v) == Ws(d, v) && OnlyActive(d, ws, r.ws)
  {
    forall n | n in Ns(d, r.v) ensures n.w in r.ws && n.at == r.ws[n.w].at {
      assert r.ws[n.w] == ws[n.w].(active := r.ws[n.w].active);
    }
  }

  /** Nodes that a sift from k makes a heap of: right but for order and the index of the one at k. */
  ghost predicate Ready(d: Shape, v: seq<Node>, ws: Store, k: nat) {
    && InHeap(d, |v|, k)
    && IndexedBut(d, v, k, ws)
    && Cached(d, v, ws)
    && (forall w | w in ws && ws[w].kind == d.kind && w !in Ws(d, v) :: ws[w].active == 0)
  }

  lemma InsertReady(d: Shape, v: seq<Node>, ws: Store, w: W)
    requires IsHeap(d, v, ws) && w in ws && ws[w].kind == d.kind && ws[w].active == 0
    ensures var u := v + [Node(ws[w].at, w)];
            && Ready(d, u, SetActive(ws, w, |v|), |v|)
            && Ws(d, u) == Ws(d, v) + {w}
  {
    var n := Node(ws[w].at, w);
    AppendNode(d, v, n);
    assert Ws(d, v + [n]) == Ws(d, v) + {w} by {
      assert forall m :: m in Ns(d, v) ==> m in Ns(d, v) + {n};
      assert n in Ns(d, v) + {n};
    }
  }

  lemma UpFromReady(d: Shape, v: seq<Node>, ws: Store, k: nat)
    requires Ready(d, v, ws, k) && OrderedBelow(d, v, |v|, k)
    ensures var r := Up(d, v, ws, k);
            IsHeap(d, r.v, r.ws) && Ws(d, r.v) == Ws(d, v) && OnlyActive(d, ws, r.ws)
  {
    hide Up, Down;
    UpSorts(d, v, ws, |v|, k);
    UpResifts(d, v, ws, k);
    SiftMakesHeap(d, v, ws, Up(d, v, ws, k));
  }

  lemma AdjustFromReady(d: Shape, v: seq<Node>, ws: Store, k: nat)
    requires Ready(d, v, ws, k) && OrderedAround(d, v, |v|, k)
    ensures var r := Adjust(d, v, ws, k);
            IsHeap(d, r.v, r.ws) && Ws(d, r.v) == Ws(d, v) && OnlyActive(d, ws, r.ws)
  {
    hide Up, Down;
    AdjustSorts(d, v, ws, k);
    UpResifts(d, v, ws, k);
    DownResifts(d, v, ws, k);
    SiftMakesHeap(d, v, ws, Adjust(d, v, ws, k));
  }

  lemma DownFromReady(d: Shape, v: seq<Node>, ws: Store, k: nat)
    requires Ready(d, v, ws, k) && OrderedAbove(d, v, |v|, k)
    ensures var r := Down(d, v, ws, k);
            IsHeap(d, r.v, r.ws) && Ws(d, r.v) == Ws(d, v) && OnlyActive(d, ws, r.ws)
  {
    hide Up, Down;
    DownSorts(d, v, ws, k);
    DownResifts(d, v, ws, k);
    SiftMakesHeap(d, v, ws, Down(d, v, ws, k));
  }

  lemma OnlyActiveTwice(d: Shape, first: Store, before: Store, after: Store)
    requires OnlyActive(d, first, before) && OnlyActive(d, before, after)
    ensures OnlyActive(d, first, after)
  {
  }

  lemma AppendedBelow(d: Shape, v: seq<Node>, n: Node)
    requires |v| >= d.Root() && Ordered(d, v, |v|)
    ensures OrderedBelow(d, v + [n], |v| + 1, |v|)
  {
    assert Ordered(d, v + [n], |v|);
    AppendKeepsOrder(d, v + [n], |v|);
  }

  /** ev_timer_start keeps the heap and adds exactly w to it. */
  lemma InsertWorks(d: Shape, v: seq<Node>, ws: Store, w: W)
    requires IsHeap(d, v, ws) && w in ws && ws[w].kind == d.kind && ws[w].active == 0
    ensures var r := Insert(d, v, ws, w);
            IsHeap(d, r.v, r.ws) && Ws(d, r.v) == Ws(d, v) + {w} && OnlyActive(d, ws, r.ws)
  {
    hide Up, Ns, WatchersOf, Bypassed;
    var n, ws1 := Node(ws[w].at, w), SetActive(ws, w, |v|);
    InsertReady(d, v, ws, w);
    AppendedBelow(d, v, n);
    UpFromReady(d, v + [n], ws1, |v|);
    assert Insert(d, v, ws, w) == Up(d, v + [n], ws1, |v|);
    assert OnlyActive(d, ws, ws1);
    OnlyActiveTwice(d, ws, ws1, Insert(d, v, ws, w).ws);
  }

  /** ev_timer_stop keeps the heap and takes exactly w out of it. */
  lemma RemoveWorks(d: Shape, v: seq<Node>, ws: Store, w: W)
    requires IsHeap(d, v, ws) && w in ws && ws[w].kind == d.kind && ws[w].active != 0
    ensures w in Ws(d, v) && Stored(d, v, ws) && InHeap(d, |v|, ws[w].active)
    ensures var r := Remove(d, v, ws, w);
            IsHeap(d, r.v, r.ws) && Ws(d, r.v) == Ws(d, v) - {w} && OnlyActive(d, ws, r.ws) && r.ws[w].active == 0
  {
    ActiveInHeap(d, v, ws, w);
    var k, last := ws[w].active, |v| - 1;
    DropLastWorks(d, v, ws);
    if k < last {
      LastReplaces(d, v, ws, w);
    }
  }

  /** A sift does not touch a watcher that is not in the nodes. */
  lemma {:induction false} UpIgnores(d: Shape, v: seq<Node>, ws: Store, k: nat, w: W, a: nat)
    requires InHeap(d, |v|, k) && Stored(d, v, ws) && w in ws
    requires forall j: nat :: d.Root() <= j < |v| ==> v[j].w != w
    ensures Up(d, v, SetActive(ws, w, a), k) == Sifted(Up(d, v, ws, k).v, SetActive(Up(d, v, ws, k).ws, w, a))
    decreases k
  {
    if k > d.Root() && v[k].at < v[d.Parent(k)].at {
      var p := d.Parent(k);
      d.ParentAbove(k);
      ActiveCommutes(ws, v[p].w, k, w, a);
      UpIgnores(d, Swap(v, k, p), SetActive(ws, v[p].w, k), p, w, a);
    } else {
      ActiveCommutes(ws, v[k].w, k, w, a);
    }
  }

  lemma {:induction false} DownIgnores(d: Shape, v: seq<Node>, ws: Store, k: nat, w: W, a: nat)
    requires InHeap(d, |v|, k) && Stored(d, v, ws) && w in ws
    requires forall j: nat :: d.Root() <= j < |v| ==> v[j].w != w
    ensures Down(d, v, SetActive(ws, w, a), k) == Sifted(Down(d, v, ws, k).v, SetActive(Down(d, v, ws, k).ws, w, a))
    decreases |v| - k
  {
    if d.FirstChild(k) < |v| && v[Earliest(v, d.FirstChild(k), LastChild(d, |v|, k))].at < v[k].at {
      var c := Earliest(v, d.FirstChild(k), LastChild(d, |v|, k));
      ActiveCommutes(ws, v[c].w, k, w, a);
      DownIgnores(d, Swap(v, k, c), SetActive(ws, v[c].w, k), c, w, a);
    } else {
      ActiveCommutes(ws, v[k].w, k, w, a);
    }
  }

  lemma ActiveCommutes(ws: Store, x: W, k: nat, w: W, a: nat)
    requires x in ws && w in ws && x != w
    ensures SetActive(SetActive(ws, x, k), w, a) == SetActive(SetActive(ws, w, a), x, k)
  {
  }

  lemma AdjustIgnores(d: Shape, v: seq<Node>, ws: Store, k: nat, w: W, a: nat)
    requires InHeap(d, |v|, k) && Stored(d, v, ws) && w in ws && w !in Ws(d, v)
    ensures Adjust(d, v, SetActive(ws, w, a), k) == Sifted(Adjust(d, v, ws, k).v, SetActive(Adjust(d, v, ws, k).ws, w, a))
  {
    hide Up, Down;
    forall j: nat | d.Root() <= j < |v| ensures v[j].w != w {
      assert v[j] in Ns(d, v);
    }
    UpIgnores(d, v, ws, k, w, a);
    DownIgnores(d, v, ws, k, w, a);
  }

  lemma LastReady(d: Shape, v: seq<Node>, ws: Store, w: W)
    requires IsHeap(d, v, ws) && w in ws && ws[w].kind == d.kind && InHeap(d, |v| - 1, ws[w].active) && v[ws[w].active].w == w
    ensures var k, last := ws[w].active, |v| - 1;
            var u := v[..last][k := v[last]];
            && Ready(d, u, SetActive(ws, w, 0), k)
            && OrderedAround(d, u, |u|, k)
            && Ws(d, u) == Ws(d, v) - {w}
  {
    var k, last := ws[w].active, |v| - 1;
    var x := v[last].w;
    var u, ws0 := v[..last], SetActive(ws, x, 0);
    DropLastWorks(d, v, ws);
    assert v[last] in Ns(d, v);
    ReplaceReady(d, u, ws0, k, SetActive(ws, w, 0), x);
    ReplaceKeepsOrder(d, u, k, v[last]);
  }

  lemma LastReplaces(d: Shape, v: seq<Node>, ws: Store, w: W)
    requires IsHeap(d, v, ws) && w in ws && ws[w].kind == d.kind && InHeap(d, |v| - 1, ws[w].active)
    requires Stored(d, v, ws) && v[ws[w].active].w == w
    ensures var r := Remove(d, v, ws, w);
            IsHeap(d, r.v, r.ws) && Ws(d, r.v) == Ws(d, v) - {w} && OnlyActive(d, ws, r.ws) && r.ws[w].active == 0
  {
    hide Up, Down;
    var k, last := ws[w].active, |v| - 1;
    var u, ws1 := v[..last][k := v[last]], SetActive(ws, w, 0);
    LastReady(d, v, ws, w);
    AdjustFromReady(d, u, ws1, k);
    AdjustIgnores(d, u, ws, k, w, 0);
    OnlyActiveTwice(d, ws, ws1, Adjust(d, u, ws1, k).ws);
  }

  /** Without the last node it is still a heap, of all but the watcher there. */
  lemma DropLastWorks(d: Shape, v: seq<Node>, ws: Store)
    requires IsHeap(d, v, ws) && |v| > d.Root()
    ensures var w := v[|v| - 1].w;
            && IsHeap(d, v[..|v| - 1], SetActive(ws, w, 0))
            && Ws(d, v[..|v| - 1]) == Ws(d, v) - {w}
  {
    var n := v[|v| - 1];
    DropLast(d, v);
    WithoutNode(d, v, ws, |v| - 1);
    assert Ordered(d, v[..|v| - 1], |v| - 1);
  }

  /** Nodes of a heap have different watchers. */
  lemma WithoutNode(d: Shape, v: seq<Node>, ws: Store, k: nat)
    requires Indexed(d, v, ws) && InHeap(d, |v|, k)
    ensures WatchersOf(Ns(d, v) - {v[k]}) == Ws(d, v) - {v[k].w}
    ensures v[k] in Ns(d, v)
  {
    forall n | n in Ns(d, v) && n != v[k] ensures n.w != v[k].w {
      var j: nat :| d.Root() <= j < |v| && v[j] == n;
    }
    forall w | w in Ws(d, v) && w != v[k].w ensures w in WatchersOf(Ns(d, v) - {v[k]}) {
      var n :| n in Ns(d, v) && n.w == w;
      assert n in Ns(d, v) - {v[k]};
    }
  }

  /** With the node at k replaced by one for w, that is not elsewhere in it. */
  lemma ReplaceReady(d: Shape, v: seq<Node>, ws: Store, k: nat, ws1: Store, w: W)
    requires IsHeap(d, v, ws) && InHeap(d, |v|, k) && w in ws && (w in Ws(d, v) ==> w == v[k].w)
    requires ws1.Keys == ws.Keys && ws1[w].kind == d.kind
    requires forall x | x in ws && x != w && x != v[k].w :: ws1[x] == ws[x]
    requires v[k].w != w ==> ws1[v[k].w].active == 0
    ensures var u := v[k := Node(ws1[w].at, w)];
            && Ready(d, u, ws1, k)
            && Ws(d, u) == Ws(d, v) - {v[k].w} + {w}
  {
    var n := Node(ws1[w].at, w);
    ReplaceNode(d, v, k, n);
    WithoutNode(d, v, ws, k);
    assert Ws(d, v[k := n]) == Ws(d, v) - {v[k].w} + {w} by {
      assert WatchersOf(Ns(d, v) - {v[k]} + {n}) == WatchersOf(Ns(d, v) - {v[k]}) + {w};
    }
    forall m | m in Ns(d, v) - {v[k]} ensures m.w in ws && m.w != v[k].w && m.w != w {
      assert m.w in WatchersOf(Ns(d, v) - {v[k]});
    }
  }

  /** Only the time of w differs. */
  ghost predicate OnlyTime(before: Store, after: Store, w: W) {
    && after.Keys == before.Keys && w in before
    && after[w] == before[w].(at := after[w].at)
    && forall x | x in before && x != w :: after[x] == before[x]
  }

  lemma RetimeReady(d: Shape, v: seq<Node>, before: Store, ws: Store, w: W)
    requires IsHeap(d, v, before) && OnlyTime(before, ws, w) && ws[w].kind == d.kind && ws[w].active != 0
    ensures InHeap(d, |v|, ws[w].active) && v[ws[w].active].w == w && Stored(d, v, ws)
    ensures var k := ws[w].active;
            var u := v[k := Node(ws[w].at, w)];
            && Ready(d, u, ws, k)
            && OrderedAround(d, u, |u|, k)
            && (k == d.Root() ==> OrderedAbove(d, u, |u|, k))
            && Ws(d, u) == Ws(d, v)
  {
    var k := ws[w].active;
    ActiveInHeap(d, v, before, w);
    ReplaceReady(d, v, before, k, ws, w);
    ReplaceKeepsOrder(d, v, k, Node(ws[w].at, w));
  }

  lemma RetimeWorks(d: Shape, v: seq<Node>, before: Store, ws: Store, w: W)
    requires IsHeap(d, v, before) && OnlyTime(before, ws, w) && ws[w].kind == d.kind && ws[w].active != 0
    ensures InHeap(d, |v|, ws[w].active) && Stored(d, v, ws)
    ensures var r := Retime(d, v, ws, w);
            IsHeap(d, r.v, r.ws) && Ws(d, r.v) == Ws(d, v) && OnlyActive(d, ws, r.ws)
  {
    hide Up, Down;
    RetimeReady(d, v, before, ws, w);
    AdjustFromReady(d, v[ws[w].active := Node(ws[w].at, w)], ws, ws[w].active);
  }

  lemma RetimeRootWorks(d: Shape, v: seq<Node>, before: Store, ws: Store)
    requires IsHeap(d, v, before) && |v| > d.Root() && OnlyTime(before, ws, v[d.Root()].w)
    ensures Stored(d, v, ws)
    ensures var r := RetimeRoot(d, v, ws);
            IsHeap(d, r.v, r.ws) && Ws(d, r.v) == Ws(d, v) && OnlyActive(d, ws, r.ws)
  {
    hide Up, Down;
    var w := v[d.Root()].w;
    RetimeReady(d, v, before, ws, w);
    DownFromReady(d, v[d.Root() := Node(ws[w].at, w)], ws, d.Root());
  }

  lemma ResiftedTwice(d: Shape, v: seq<Node>, ws: Store, r: Sifted, q: Sifted)
    requires Resifted(d, v, ws, r) && Resifted(d, r.v, r.ws, q)
    ensures Resifted(d, v, ws, q)
  {
  }

  lemma {:induction false} RebuildSorts(d: Shape, v: seq<Node>, ws: Store, n: nat, r: Sifted)
    requires d.Root() + n <= |v| && Indexed(d, v, ws) && r == Rebuilt(d, v, ws, n)
    ensures Ordered(d, r.v, d.Root() + n)
    ensures Resifted(d, v, ws, r)
  {
    if n > 0 {
      var q, k := Rebuilt(d, v, ws, n - 1), d.Root() + n - 1;
      hide Up;
      RebuildSorts(d, v, ws, n - 1, q);
      OneMoreUp(d, v, ws, q, k, r);
    }
  }

  lemma OneMoreUp(d: Shape, v: seq<Node>, ws: Store, q: Sifted, k: nat, r: Sifted)
    requires InHeap(d, |q.v|, k) && Resifted(d, v, ws, q) && Ordered(d, q.v, k)
    requires Stored(d, q.v, q.ws) && r == Up(d, q.v, q.ws, k)
    ensures Ordered(d, r.v, k + 1) && Resifted(d, v, ws, r)
  {
    hide Up, Down;
    AppendKeepsOrder(d, q.v, k);
    UpSorts(d, q.v, q.ws, k + 1, k);
    UpResifts(d, q.v, q.ws, k);
    ResiftedTwice(d, v, ws, q, r);
  }

  /** reheap makes a heap of the same watchers whatever their times have become. */
  lemma RebuildWorks(d: Shape, v: seq<Node>, ws: Store, r: Sifted)
    requires |v| >= d.Root() && Indexed(d, v, ws) && Cached(d, v, ws)
    requires forall w | w in ws && ws[w].kind == d.kind && w !in Ws(d, v) :: ws[w].active == 0
    requires r == Rebuilt(d, v, ws, |v| - d.Root())
    ensures IsHeap(d, r.v, r.ws) && Ws(d, r.v) == Ws(d, v) && OnlyActive(d, ws, r.ws)
  {
    hide Rebuilt, Up;
    RebuildSorts(d, v, ws, |v| - d.Root(), r);
    SiftMakesHeap(d, v, ws, r);
  }
}
