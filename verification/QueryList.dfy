/** The doubly linked list of active queries. */
module QueryList {

  import opened Basics

  type Q = nat                   // identity of a query
  datatype Link = Null | To(q: Q)
  datatype Links = Links(next: Link, prev: Link)

  /** A struct dns_qlist with the links of the queries. */
  datatype Ends = Ends(links: map<Q, Links>, head: Link, tail: Link)

  function At(list: seq<Q>, i: int): Link {
    if 0 <= i < |list| then To(list[i]) else Null
  }

  /** The neighbours of list[i]. */
  predicate LinkedAt(e: Ends, list: seq<Q>, i: nat) {
    i < |list| ==> list[i] in e.links && e.links[list[i]] == Links(At(list, i + 1), At(list, i - 1))
  }

  /** Going on from head, or back from tail, gives list. */
  ghost predicate Linked(e: Ends, list: seq<Q>) {
    && e.head == At(list, 0) && e.tail == At(list, |list| - 1) && Distinct(list)
    && (forall i: nat :: LinkedAt(e, list, i))
  }

  function SetNext(m: map<Q, Links>, q: Q, next: Link): map<Q, Links>
    requires q in m
  {
    m[q := m[q].(next := next)]
  }

  function SetPrev(m: map<Q, Links>, q: Q, prev: Link): map<Q, Links>
    requires q in m
  {
    m[q := m[q].(prev := prev)]
  }

  function Cut(list: seq<Q>, p: nat): seq<Q>
    requires p < |list|
  {
    list[..p] + list[p + 1..]
  }

  function Put(list: seq<Q>, p: nat, q: Q): seq<Q>
    requires p <= |list|
  {
    list[..p] + [q] + list[p..]
  }

  /** qlist_remove */
  function Removed(e: Ends, q: Q): Ends
    requires CanRemove(e, q)
  {
    var l := e.links[q];
    var e1 := if l.prev.To? then e.(links := SetNext(e.links, l.prev.q, l.next)) else e.(head := l.next);
    if l.next.To? then e1.(links := SetPrev(e1.links, l.next.q, l.prev)) else e1.(tail := l.prev)
  }

  /** qlist_add_head */
  function HeadAdded(e: Ends, q: Q): Ends
    requires e.head.To? ==> e.head.q in e.links
  {
    var m := e.links[q := Links(e.head, Null)];
    if e.head.To? then Ends(SetPrev(m, e.head.q, To(q)), To(q), e.tail) else Ends(m, To(q), To(q))
  }

  /** qlist_insert_after */
  function InsertedAfter(e: Ends, q: Q, prev: Link): Ends
    requires CanInsert(e, q, prev)
  {
    if prev.Null? then HeadAdded(e, q)
    else
      var next := e.links[prev.q].next;
      var m := e.links[q := Links(next, prev)];
      var e1 := if next.To? then e.(links := SetPrev(m, next.q, To(q))) else e.(links := m, tail := To(q));
      e1.(links := SetNext(e1.links, prev.q, To(q)))
  }

  lemma LinksOf(e: Ends, list: seq<Q>, p: nat)
    requires Linked(e, list) && p < |list|
    ensures list[p] in e.links && e.links[list[p]] == Links(At(list, p + 1), At(list, p - 1))
    ensures p + 1 < |list| ==> list[p + 1] in e.links && list[p + 1] != list[p]
    ensures p > 0 ==> list[p - 1] in e.links && list[p - 1] != list[p]
  {
    assert LinkedAt(e, list, p) && LinkedAt(e, list, p + 1);
    if p > 0 {
      assert LinkedAt(e, list, p - 1);
    }
  }

  lemma Different(list: seq<Q>, i: nat, j: nat)
    requires Distinct(list) && i < |list| && j < |list|
    ensures list[i] == list[j] <==> i == j
  {
    if i < j { assert list[i] != list[j]; }
    if j < i { assert list[j] != list[i]; }
  }

  // ---- removing ----

  lemma CutDistinct(list: seq<Q>, p: nat)
    requires p < |list| && Distinct(list)
    ensures Distinct(Cut(list, p)) && forall v :: v in Cut(list, p) <==> v in list && v != list[p]
  {
    var c := Cut(list, p);
    forall i, j | 0 <= i < j < |c| ensures c[i] != c[j] {
      Different(list, if i < p then i else i + 1, if j < p then j else j + 1);
    }
    forall v | v in list && v != list[p] ensures v in c {
      var i :| 0 <= i < |list| && list[i] == v;
      assert c[if i < p then i else i - 1] == v;
    }
    forall i | 0 <= i < |c| ensures c[i] != list[p] {
      Different(list, if i < p then i else i + 1, p);
    }
  }

  lemma CutAt(list: seq<Q>, p: nat, i: int)
    requires p < |list|
    ensures At(Cut(list, p), i) == if i < p then At(list, i) else At(list, i + 1)
  {
  }

  predicate CanRemove(e: Ends, q: Q) {
    && q in e.links
    && (e.links[q].next.To? ==> e.links[q].next.q in e.links)
    && (e.links[q].prev.To? ==> e.links[q].prev.q in e.links)
  }

  lemma RemovedEnds(e: Ends, list: seq<Q>, p: nat)
    requires Linked(e, list) && p < |list|
    ensures CanRemove(e, list[p])
    ensures var f, c := Removed(e, list[p]), Cut(list, p);
            f.head == At(c, 0) && f.tail == At(c, |c| - 1) && f.links.Keys == e.links.Keys
  {
    LinksOf(e, list, p);
    CutAt(list, p, 0);
    CutAt(list, p, |list| - 2);
  }

  lemma RemovedAt(e: Ends, list: seq<Q>, p: nat, i: nat)
    requires Linked(e, list) && p < |list| && i + 1 < |list| && CanRemove(e, list[p])
    ensures LinkedAt(Removed(e, list[p]), Cut(list, p), i)
  {
    hide Linked;
    var k := if i < p then i else i + 1;
    LinksOf(e, list, p);
    LinksOf(e, list, k);
    CutAt(list, p, i - 1);
    CutAt(list, p, i + 1);
    assert Cut(list, p)[i] == list[k];
    assert Distinct(list) by { AllDistinct(e, list); }
    if p + 1 < |list| { Different(list, p + 1, k); }
    if p > 0 { Different(list, p - 1, k); }
  }

  lemma AllDistinct(e: Ends, list: seq<Q>)
    requires Linked(e, list)
    ensures Distinct(list)
  {
  }

  lemma RemovedWorks(e: Ends, list: seq<Q>, p: nat)
    requires Linked(e, list) && p < |list|
    ensures CanRemove(e, list[p])
    ensures Linked(Removed(e, list[p]), Cut(list, p)) && Removed(e, list[p]).links.Keys == e.links.Keys
  {
    hide Removed, LinkedAt;
    RemovedEnds(e, list, p);
    CutDistinct(list, p);
    var c, f := Cut(list, p), Removed(e, list[p]);
    forall i: nat ensures LinkedAt(f, c, i) {
      if i + 1 < |list| {
        RemovedAt(e, list, p, i);
      } else {
        Beyond(f, c, i);
      }
    }
  }

  lemma Beyond(e: Ends, list: seq<Q>, i: nat)
    requires i >= |list|
    ensures LinkedAt(e, list, i)
  {
  }

  // ---- inserting ----

  lemma PutDistinct(list: seq<Q>, p: nat, q: Q)
    requires p <= |list| && Distinct(list) && q !in list
    ensures Distinct(Put(list, p, q)) && forall v :: v in Put(list, p, q) <==> v in list || v == q
  {
    var c := Put(list, p, q);
    forall i, j | 0 <= i < j < |c| ensures c[i] != c[j] {
      if i != p && j != p {
        Different(list, if i < p then i else i - 1, if j < p then j else j - 1);
      }
    }
    assert list == list[..p] + list[p..];
  }

  lemma PutAt(list: seq<Q>, p: nat, q: Q, i: int)
    requires p <= |list|
    ensures At(Put(list, p, q), i) == if i < p then At(list, i) else if i == p then To(q) else At(list, i - 1)
  {
  }

  predicate CanInsert(e: Ends, q: Q, prev: Link) {
    && (e.head.To? ==> e.head.q in e.links)
    && (prev.To? ==> prev.q in e.links && prev.q != q && (e.links[prev.q].next.To? ==> e.links[prev.q].next.q in e.links))
  }

  lemma InsertedEnds(e: Ends, list: seq<Q>, q: Q, p: nat)
    requires Linked(e, list) && q !in list && p <= |list|
    ensures CanInsert(e, q, At(list, p - 1))
    ensures var f, c := InsertedAfter(e, q, At(list, p - 1)), Put(list, p, q);
            f.head == At(c, 0) && f.tail == At(c, |c| - 1) && f.links.Keys == e.links.Keys + {q}
            && LinkedAt(f, c, p)
  {
    if list != [] { LinksOf(e, list, 0); }
    if p > 0 { LinksOf(e, list, p - 1); }
    PutAt(list, p, q, 0);
    PutAt(list, p, q, |list|);
    PutAt(list, p, q, p - 1);
    PutAt(list, p, q, p + 1);
  }

  lemma InsertedAt(e: Ends, list: seq<Q>, q: Q, p: nat, i: nat)
    requires Linked(e, list) && q !in list && p <= |list| && i <= |list| && i != p && CanInsert(e, q, At(list, p - 1))
    ensures LinkedAt(InsertedAfter(e, q, At(list, p - 1)), Put(list, p, q), i)
  {
    hide Linked;
    var k := if i < p then i else i - 1;
    LinksOf(e, list, k);
    PutAt(list, p, q, i - 1);
    PutAt(list, p, q, i + 1);
    assert Put(list, p, q)[i] == list[k];
    AllDistinct(e, list);
    HeadIs(e, list);
    if p > 0 { LinksOf(e, list, p - 1); Different(list, p - 1, k); }
    if p < |list| { Different(list, p, k); }
  }

  lemma HeadIs(e: Ends, list: seq<Q>)
    requires Linked(e, list)
    ensures e.head == At(list, 0) && e.tail == At(list, |list| - 1)
  {
  }

  lemma InsertedAfterWorks(e: Ends, list: seq<Q>, q: Q, p: nat)
    requires Linked(e, list) && q !in list && p <= |list|
    ensures CanInsert(e, q, At(list, p - 1))
    ensures Linked(InsertedAfter(e, q, At(list, p - 1)), Put(list, p, q))
    ensures InsertedAfter(e, q, At(list, p - 1)).links.Keys == e.links.Keys + {q}
  {
    hide InsertedAfter, LinkedAt;
    InsertedEnds(e, list, q, p);
    PutDistinct(list, p, q);
    var c, f := Put(list, p, q), InsertedAfter(e, q, At(list, p - 1));
    forall i: nat ensures LinkedAt(f, c, i) {
      if i > |list| {
        Beyond(f, c, i);
      } else if i != p {
        InsertedAt(e, list, q, p, i);
      }
    }
  }

  // ---- the list as the program keeps it ----

  class QList {
    var links: map<Q, Links>
    var head: Link
    var tail: Link
    ghost var list: seq<Q>

    ghost function Now(): Ends
      reads this
    {
      Ends(links, head, tail)
    }

    ghost predicate Valid()
      reads this
    {
      Linked(Now(), list)
    }

    /** qlist_init */
    constructor ()
      ensures Valid() && list == []
    {
      links, head, tail, list := map[], Null, Null, [];
    }

    /** qlist_remove */
    method Remove(q: Q, ghost p: nat)
      requires Valid() && p < |list| && list[p] == q
      modifies this
      ensures Valid() && list == Cut(old(list), p)
    {
      hide Linked;
      RemovedWorks(Now(), list, p);
      ghost var e := Now();
      var l := links[q];
      if l.prev.To? {
        links := SetNext(links, l.prev.q, l.next);
      } else {
        head := l.next;
      }
      if l.next.To? {
        links := SetPrev(links, l.next.q, l.prev);
      } else {
        tail := l.prev;
      }
      list := Cut(list, p);
      assert Now() == Removed(e, q);
    }

    /** qlist_add_head */
    method AddHead(q: Q)
      requires Valid() && q !in list
      modifies this
      ensures Valid() && list == Put(old(list), 0, q)
    {
      hide Linked;
      InsertedAfterWorks(Now(), list, q, 0);
      ghost var e := Now();
      links := links[q := Links(head, Null)];
      if head.To? {
        links := SetPrev(links, head.q, To(q));
      } else {
        tail := To(q);
      }
      head := To(q);
      list := Put(list, 0, q);
      assert Now() == HeadAdded(e, q);
    }

    /** qlist_insert_after */
    method InsertAfter(q: Q, prev: Link, ghost p: nat)
      requires Valid() && q !in list && p <= |list| && prev == At(list, p - 1)
      modifies this
      ensures Valid() && list == Put(old(list), p, q)
    {
      hide Linked;
      InsertedAfterWorks(Now(), list, q, p);
      ghost var e := Now();
      if prev.To? {
        var next := links[prev.q].next;
        links := links[q := Links(next, prev)];
        if next.To? {
          links := SetPrev(links, next.q, To(q));
        } else {
          tail := To(q);
        }
        links := SetNext(links, prev.q, To(q));
        list := Put(list, p, q);
        assert Now() == InsertedAfter(e, q, prev);
      } else {
        AddHead(q);
      }
    }
  }
}
