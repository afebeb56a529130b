/** The arrays of idle, prepare, check, fork, cleanup and async watchers: without holes, positions known. */
module WatcherArray {

  import opened Watchers

  /** An array: cnt of its entries are in use. */
  datatype Slots = Slots(entries: seq<W>, cnt: nat)

  /** What array_verify asserts, and that watchers of this kind outside the array are not active. */
  predicate IsArray(kind: Kind, a: Slots, ws: Store) {
    && a.cnt <= |a.entries|
    && (forall i {:trigger a.entries[i]} :: 0 <= i < a.cnt ==>
          a.entries[i] in ws && ws[a.entries[i]].kind == kind && ws[a.entries[i]].active == i + 1)
    && (forall w <- ws :: ws[w].kind == kind && ws[w].active != 0 ==>
          ws[w].active <= a.cnt && a.entries[ws[w].active - 1] == w)
  }

  function InUse(a: Slots): seq<W>
    requires a.cnt <= |a.entries|
  {
    a.entries[..a.cnt]
  }

  /** A watcher is in the array at most once, and exactly if it is active. */
  lemma ActiveIsMember(kind: Kind, a: Slots, ws: Store, w: W)
    requires IsArray(kind, a, ws) && w in ws && ws[w].kind == kind
    ensures ws[w].active != 0 <==> w in InUse(a)
    ensures forall i, j :: 0 <= i < a.cnt && 0 <= j < a.cnt && a.entries[i] == a.entries[j] ==> i == j
  {
    if ws[w].active != 0 {
      assert InUse(a)[ws[w].active - 1] == w;
    }
  }

  function Numbered(ws: Store, w: W, k: nat): Store
    requires w in ws
  {
    ws[w := ws[w].(active := k)]
  }

  lemma StartWorks(kind: Kind, a: Slots, ws: Store, w: W)
    requires IsArray(kind, a, ws) && a.cnt < |a.entries| && w in ws && ws[w].kind == kind && ws[w].active == 0
    ensures IsArray(kind, StartAt(a, w), Numbered(ws, w, a.cnt + 1))
    ensures OnlyKind(kind, ws, Numbered(ws, w, a.cnt + 1))
  {
  }

  function StartAt(a: Slots, w: W): Slots
    requires a.cnt < |a.entries|
  {
    Slots(a.entries[a.cnt := w], a.cnt + 1)
  }

  function StopAt(a: Slots, k: nat): Slots
    requires 0 < k <= a.cnt <= |a.entries|
  {
    Slots(a.entries[k - 1 := a.entries[a.cnt - 1]], a.cnt - 1)
  }

  /** The last watcher takes the place of the one that is stopped. */
  function Unplaced(a: Slots, ws: Store, w: W): Store
    requires w in ws && 0 < a.cnt <= |a.entries| && a.entries[a.cnt - 1] in ws
  {
    Numbered(Numbered(ws, a.entries[a.cnt - 1], ws[w].active), w, 0)
  }

  lemma UnplacedAt(a: Slots, ws: Store, w: W, x: W)
    requires w in ws && 0 < a.cnt <= |a.entries| && a.entries[a.cnt - 1] in ws && x in ws
    ensures Unplaced(a, ws, w).Keys == ws.Keys
    ensures Unplaced(a, ws, w)[x] ==
      ws[x].(active := if x == w then 0 else if x == a.entries[a.cnt - 1] then ws[w].active else ws[x].active)
  {
  }

  lemma LastMoves(kind: Kind, a: Slots, ws: Store, w: W)
    requires IsArray(kind, a, ws) && w in ws && ws[w].kind == kind && ws[w].active != 0
    ensures ws[w].active <= a.cnt && a.entries[a.cnt - 1] in ws && a.entries[ws[w].active - 1] == w
    ensures IsArray(kind, Slots(a.entries[ws[w].active - 1 := a.entries[a.cnt - 1]], a.cnt - 1), Unplaced(a, ws, w))
    ensures OnlyKind(kind, ws, Unplaced(a, ws, w))
  {
    hide Unplaced, Numbered;
    var k, last, xs := ws[w].active - 1, a.entries[a.cnt - 1], Unplaced(a, ws, w);
    UnplacedAt(a, ws, w, w);
    forall i {:trigger a.entries[i]} | 0 <= i < a.cnt - 1
      ensures var x := if i == k then last else a.entries[i]; x in xs && xs[x].kind == kind && xs[x].active == i + 1
    {
      UnplacedAt(a, ws, w, if i == k then last else a.entries[i]);
    }
    forall x | x in xs
      ensures xs[x].kind == ws[x].kind && (ws[x].kind != kind ==> xs[x] == ws[x])
      ensures xs[x].kind == kind && xs[x].active != 0 ==>
                xs[x].active < a.cnt && x == if xs[x].active - 1 == k then last else a.entries[xs[x].active - 1]
    {
      UnplacedAt(a, ws, w, x);
    }
  }

  lemma StopWorks(kind: Kind, a: Slots, ws: Store, w: W)
    requires IsArray(kind, a, ws) && w in ws && ws[w].kind == kind && ws[w].active != 0
    ensures ws[w].active <= a.cnt && a.entries[a.cnt - 1] in ws && a.entries[ws[w].active - 1] == w
    ensures IsArray(kind, StopAt(a, ws[w].active), Unplaced(a, ws, w))
    ensures OnlyKind(kind, ws, Unplaced(a, ws, w))
  {
    hide IsArray, Unplaced, OnlyKind;
    LastMoves(kind, a, ws, w);
  }

  lemma UnplacedSteps(a: Slots, ws: Store, w: W)
    requires w in ws && 0 < a.cnt <= |a.entries| && a.entries[a.cnt - 1] in ws
    ensures w in Numbered(ws, a.entries[a.cnt - 1], ws[w].active)
    ensures Unplaced(a, ws, w) == Numbered(Numbered(ws, a.entries[a.cnt - 1], ws[w].active), w, 0)
  {
  }

  /** Only watchers of this kind have got other positions. */
  ghost predicate Renumbered(kind: Kind, before: Store, after: Store) {
    && after.Keys == before.Keys
    && forall w <- before ::
         && after[w] == before[w].(active := after[w].active)
         && (before[w].kind != kind ==> after[w] == before[w])
  }

  lemma UnplacedRenumbers(kind: Kind, a: Slots, ws: Store, w: W)
    requires IsArray(kind, a, ws) && w in ws && ws[w].kind == kind && ws[w].active != 0
    ensures 0 < a.cnt <= |a.entries| && a.entries[a.cnt - 1] in ws && Renumbered(kind, ws, Unplaced(a, ws, w))
  {
  }

  /** The last one takes the place of the one at k. */
  function Closed(list: seq<W>, k: nat): seq<W>
    requires k < |list|
  {
    list[k := list[|list| - 1]][..|list| - 1]
  }

  /** Just the one at k is missing afterwards. */
  lemma ClosedMembers(list: seq<W>, k: nat)
    requires k < |list|
    ensures multiset(Closed(list, k)) == multiset(list) - multiset{list[k]}
  {
    var last := list[|list| - 1];
    assert list[k := last] == Closed(list, k) + [last];
    var m, x := multiset(Closed(list, k)), multiset(list) - multiset{list[k]};
    assert m + multiset{last} == multiset(list[k := last]) == x + multiset{last};
    assert m == m + multiset{last} - multiset{last} == x;
  }

  lemma StopCloses(a: Slots, k: nat)
    requires 0 < k <= a.cnt <= |a.entries|
    ensures |InUse(a)| == a.cnt && InUse(a)[k - 1] == a.entries[k - 1]
    ensures InUse(StopAt(a, k)) == Closed(InUse(a), k - 1)
  {
  }

  lemma ArrayKept(kind: Kind, a: Slots, before: Store, after: Store, other: Kind)
    requires IsArray(kind, a, before) && OnlyKind(other, before, after) && other != kind
    ensures IsArray(kind, a, after)
  {
  }

  lemma MoreRoom(kind: Kind, a: Slots, ws: Store, more: seq<W>)
    requires IsArray(kind, a, ws)
    ensures IsArray(kind, Slots(a.entries + more, a.cnt), ws) && InUse(Slots(a.entries + more, a.cnt)) == InUse(a)
  {
    var b := Slots(a.entries + more, a.cnt);
    forall i | 0 <= i < b.cnt ensures b.entries[i] == a.entries[i] {
    }
  }
}
