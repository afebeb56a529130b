/** The resolver: its active queries, their deadlines, and what replies and timeouts do to them. */
module Resolver {

  import opened Basics
  import opened Buffers
  import opened DnsName
  import opened Query
  import opened QueryList

  type Store = map<Q, Query>

  /** The active list holds the queries of the store. */
  ghost predicate Holds(list: seq<Q>, qs: Store) {
    forall q :: q in list <==> q in qs
  }

  predicate ByDeadline(list: seq<Q>, qs: Store) {
    && (forall i :: 0 <= i < |list| ==> list[i] in qs)
    && (forall i, j :: 0 <= i <= j < |list| ==> qs[list[i]].deadline <= qs[list[j]].deadline)
  }

  ghost predicate Filed(list: seq<Q>, qs: Store) {
    Holds(list, qs) && ByDeadline(list, qs)
  }

  lemma CutByDeadline(list: seq<Q>, qs: Store, p: nat)
    requires ByDeadline(list, qs) && Distinct(list) && p < |list|
    ensures ByDeadline(Cut(list, p), qs - {list[p]})
  {
    var l, ws := Cut(list, p), qs - {list[p]};
    forall i | 0 <= i < |l| ensures l[i] in ws && l[i] == list[if i < p then i else i + 1] {
      Different(list, if i < p then i else i + 1, p);
    }
  }

  lemma CutFiled(list: seq<Q>, qs: Store, p: nat)
    requires Filed(list, qs) && Distinct(list) && p < |list|
    ensures Distinct(Cut(list, p)) && list[p] !in Cut(list, p) && Filed(Cut(list, p), qs - {list[p]})
  {
    hide ByDeadline;
    CutDistinct(list, p);
    CutByDeadline(list, qs, p);
  }

  lemma LessThanAll(list: seq<Q>, qs: Store, i: nat, j: nat)
    requires ByDeadline(list, qs) && i <= j < |list|
    ensures list[i] in qs && list[j] in qs && qs[list[i]].deadline <= qs[list[j]].deadline
  {
  }

  lemma PutByDeadline(list: seq<Q>, qs: Store, p: nat, q: Q, v: Query, i: nat, j: nat)
    requires ByDeadline(list, qs) && p <= |list| && q !in qs && i <= j <= |list|
    requires p > 0 ==> list[p - 1] in qs && qs[list[p - 1]].deadline <= v.deadline
    requires p < |list| ==> list[p] in qs && v.deadline <= qs[list[p]].deadline
    ensures var l, ws := Put(list, p, q), qs[q := v]; l[i] in ws && l[j] in ws && ws[l[i]].deadline <= ws[l[j]].deadline
  {
    hide ByDeadline;
    var l := Put(list, p, q);
    assert l[i] == if i < p then list[i] else if i == p then q else list[i - 1];
    assert l[j] == if j < p then list[j] else if j == p then q else list[j - 1];
    if i != p { LessThanAll(list, qs, if i < p then i else i - 1, if i < p then i else i - 1); }
    if j != p { LessThanAll(list, qs, if j < p then j else j - 1, if j < p then j else j - 1); }
    if i != p && j != p {
      LessThanAll(list, qs, if i < p then i else i - 1, if j < p then j else j - 1);
    } else if i < p == j {
      LessThanAll(list, qs, i, p - 1);
    } else if i == p < j {
      LessThanAll(list, qs, p, j - 1);
    }
  }

  lemma PutFiled(list: seq<Q>, qs: Store, p: nat, q: Q, v: Query)
    requires Filed(list, qs) && Distinct(list) && p <= |list| && q !in qs
    requires p > 0 ==> list[p - 1] in qs && qs[list[p - 1]].deadline <= v.deadline
    requires p < |list| ==> list[p] in qs && v.deadline <= qs[list[p]].deadline
    ensures Filed(Put(list, p, q), qs[q := v])
  {
    PutDistinct(list, p, q);
    forall i: nat, j: nat | i <= j <= |list|
      ensures var l, ws := Put(list, p, q), qs[q := v]; l[i] in ws && l[j] in ws && ws[l[i]].deadline <= ws[l[j]].deadline
    {
      PutByDeadline(list, qs, p, q, v, i, j);
    }
  }

  // ---- the queries that ended ----

  /** How a query ended, what it went through, and the reply that ended it, if it was one. */
  datatype Ended = Ended(q: Q, status: Status, order: seq<Labels>, log: Log, last: RCode)

  /** NXDOMAIN and NODATA are only reported when every name of the search was tried and got a definitive reply,
      NXDOMAIN when all of these were NXDOMAIN, and NODATA otherwise. */
  predicate Fair(c: Config, e: Ended) {
    && e.log.tried <= e.order && e.log.sent <= Limit(c)
    && (e.status == NxDomain ==> e.log.tried == e.order && e.last == NxDom && forall v <- e.log.verdicts :: v == NxDom)
    && (e.status == NoData ==> e.log.tried == e.order && (e.last == NoError || NoError in e.log.verdicts))
  }

  // ---- how long dns_timeouts can go on ----

  ghost function Some(qs: Store): (q: Q)
    requires qs != map[]
    ensures q in qs
  {
    assert exists q :: q in qs;
    var q :| q in qs;
    q
  }

  lemma Smaller(qs: Store, q: Q)
    requires q in qs
    ensures |qs - {q}| < |qs|
  {
    assert qs == (qs - {q})[q := qs[q]];
  }

  predicate AllValid(c: Config, qs: Store) {
    forall q <- qs :: qs[q].Valid(c)
  }

  lemma OthersValid(c: Config, qs: Store, q: Q)
    requires AllValid(c, qs)
    ensures AllValid(c, qs - {q}) && (q in qs ==> qs[q].Valid(c))
  {
  }

  /** The sends left for all queries, and their ends. */
  ghost function Total(c: Config, qs: Store): nat
    requires c.Valid() && AllValid(c, qs)
    decreases |qs|
  {
    if qs == map[] then 0
    else
      Smaller(qs, Some(qs));
      Budget(c, qs[Some(qs)]) + 1 + Total(c, qs - {Some(qs)})
  }

  lemma TotalOf(c: Config, qs: Store)
    requires c.Valid() && AllValid(c, qs) && qs != map[]
    ensures var q := Some(qs); qs[q].Valid(c) && AllValid(c, qs - {q}) && Total(c, qs) == Budget(c, qs[q]) + 1 + Total(c, qs - {q})
  {
    hide Budget;
  }

  lemma {:induction false} TotalSplit(c: Config, qs: Store, q: Q)
    requires c.Valid() && AllValid(c, qs) && q in qs
    ensures qs[q].Valid(c) && AllValid(c, qs - {q}) && Total(c, qs) == Budget(c, qs[q]) + 1 + Total(c, qs - {q})
    decreases |qs|
  {
    hide Budget, AllValid, Total;
    TotalOf(c, qs);
    OthersValid(c, qs, q);
    var r := Some(qs);
    if q != r {
      Smaller(qs, r);
      Smaller(qs, q);
      TotalSplit(c, qs - {r}, q);
      TotalSplit(c, qs - {q}, r);
      assert qs - {r} - {q} == qs - {q} - {r};
    }
  }

  lemma TotalLess(c: Config, qs: Store, q: Q, v: Query)
    requires c.Valid() && AllValid(c, qs) && q in qs && v.Valid(c)
    ensures AllValid(c, qs - {q}) && Total(c, qs - {q}) < Total(c, qs)
    ensures AllValid(c, qs[q := v]) && qs[q].Valid(c) && (Budget(c, v) < Budget(c, qs[q]) ==> Total(c, qs[q := v]) < Total(c, qs))
  {
    hide Budget, Total;
    TotalSplit(c, qs, q);
    TotalSplit(c, qs[q := v], q);
    assert qs[q := v] - {q} == qs - {q};
  }

  // ---- the resolver context ----

  ghost predicate Accounted(c: Config, qs: Store, log: map<Q, Log>, order: map<Q, seq<Labels>>, ended: seq<Ended>) {
    && c.Valid() && AllValid(c, qs)
    && (forall q <- qs :: q in log && q in order && qs[q].Valid(c) && Tracks(c, order[q], qs[q], log[q]))
    && (forall e <- ended :: Fair(c, e))
  }

  lemma AccountOf(c: Config, qs: Store, log: map<Q, Log>, order: map<Q, seq<Labels>>, ended: seq<Ended>, q: Q)
    requires Accounted(c, qs, log, order, ended) && q in qs
    ensures c.Valid() && qs[q].Valid(c) && q in log && q in order && Tracks(c, order[q], qs[q], log[q])
  {
  }

  lemma AccountWith(c: Config, qs: Store, log: map<Q, Log>, order: map<Q, seq<Labels>>, ended: seq<Ended>, q: Q, v: Query, g: Log, o: seq<Labels>)
    requires Accounted(c, qs, log, order, ended) && c.Valid() && v.Valid(c) && Tracks(c, o, v, g)
    ensures Accounted(c, qs[q := v], log[q := g], order[q := o], ended)
  {
    hide Tracks, Fair;
  }

  lemma AccountWithout(c: Config, qs: Store, log: map<Q, Log>, order: map<Q, seq<Labels>>, ended: seq<Ended>, q: Q, e: Ended)
    requires Accounted(c, qs, log, order, ended) && Fair(c, e)
    ensures Accounted(c, qs - {q}, log, order, ended) && Accounted(c, qs - {q}, log, order, ended + [e])
  {
    hide Tracks, Fair;
  }

  // ---- several replies, if callbacks do nothing ----

  /** The queries after a reply. */
  function AfterReply(c: Config, qs: Store, q: Q, r: Reply, env: Env): Store {
    if q in qs && r.s in qs[q].wait && c.Valid() && qs[q].Valid(c) && env.undefinedShift < WORD32 then
      match Answer(c, qs[q], r, env)
      case Goes(t) => qs[q := t]
      case End(_) => qs - {q}
    else qs
  }

  function AfterReplies(c: Config, qs: Store, replies: seq<(Q, Reply)>, envs: seq<Env>): Store
    requires |envs| == |replies|
  {
    if replies == [] then qs
    else
      var n := |replies| - 1;
      AfterReply(c, AfterReplies(c, qs, replies[..n], envs[..n]), replies[n].0, replies[n].1, envs[n])
  }

  lemma OneReplyMore(c: Config, qs: Store, replies: seq<(Q, Reply)>, i: nat, envs: seq<Env>, env: Env)
    requires i < |replies| && |envs| == i
    ensures AfterReplies(c, qs, replies[..i + 1], envs + [env])
            == AfterReply(c, AfterReplies(c, qs, replies[..i], envs), replies[i].0, replies[i].1, env)
  {
    hide AfterReply;
    assert replies[..i + 1][..i] == replies[..i] && (envs + [env])[..i] == envs;
  }

  // ---- what timeouts do, if callbacks do nothing ----

  /** Under the same name, the query was sent again at that time. */
  predicate SentAgain(c: Config, before: Query, after: Query, now: int) {
    && c.Valid() && before.Valid(c) && after.Valid(c)
    && SameSearch(before, after) && Budget(c, after) < Budget(c, before) && Scheduled(c, after, now)
    && before.skip == after.skip && before.noEdns == after.noEdns && before.wait <= after.wait
  }

  lemma SentTwice(c: Config, a: Query, b: Query, d: Query, now: int)
    requires (a == b || SentAgain(c, a, b, now)) && SentAgain(c, b, d, now)
    ensures SentAgain(c, a, d, now)
  {
    hide Budget, Scheduled;
  }

  /** No query is new, those that are not due stay as they are, and the others were sent again or are still to be. */
  predicate OnlyTimedOut(c: Config, before: Store, after: Store, now: int) {
    && after.Keys <= before.Keys
    && (forall q <- before :: before[q].deadline > now ==> q in after && after[q] == before[q])
    && (forall q <- after :: q in before && (after[q] == before[q] || SentAgain(c, before[q], after[q], now)))
  }

  /** Every query that is gone was reported as failed. */
  predicate AllReported(before: Store, after: Store, ended: seq<Ended>) {
    forall q <- before :: q in after || exists e <- ended :: e.q == q && e.status == TempFail
  }

  lemma TimedOutMore(c: Config, before: Store, qs: Store, after: Store, now: int, q: Q)
    requires OnlyTimedOut(c, before, qs, now) && q in qs && qs[q].deadline <= now
    requires after - {q} == qs - {q} && (q in after ==> SentAgain(c, qs[q], after[q], now))
    ensures OnlyTimedOut(c, before, after, now)
  {
    hide SentAgain;
    forall x | x in before && before[x].deadline > now ensures x in after && after[x] == before[x] {
      assert x != q;
      assert x in qs - {q};
    }
    forall x | x in after ensures x in before && (after[x] == before[x] || SentAgain(c, before[x], after[x], now)) {
      if x == q {
        SentTwice(c, before[q], qs[q], after[q], now);
      } else {
        assert x in after - {q};
      }
    }
  }

  lemma ReportedMore(before: Store, qs: Store, after: Store, ended: seq<Ended>, more: seq<Ended>, q: Q)
    requires AllReported(before, qs, ended) && after - {q} == qs - {q} && ended <= more
    requires q in after || exists e <- more :: e.q == q && e.status == TempFail
    ensures AllReported(before, after, more)
  {
    forall x | x in before ensures x in after || exists e <- more :: e.q == x && e.status == TempFail {
      if x != q && x !in after {
        assert x !in after - {q};
        var e :| e in ended && e.q == x && e.status == TempFail;
        assert e in more;
      }
    }
  }

  predicate DueSentAgain(c: Config, before: Store, after: Store, now: int) {
    forall q <- after :: q in before && (before[q].deadline <= now ==> SentAgain(c, before[q], after[q], now))
  }

  lemma NoneDue(c: Config, before: Store, after: Store, now: int)
    requires forall q <- after :: after[q].deadline > now
    ensures OnlyTimedOut(c, before, after, now) ==> DueSentAgain(c, before, after, now)
  {
    hide SentAgain;
  }

  lemma AllThere(c: Config, qs: Store, now: int)
    ensures OnlyTimedOut(c, qs, qs, now) && forall ended: seq<Ended> :: AllReported(qs, qs, ended)
  {
  }

  /** What callbacks do. */
  datatype Action = DoSubmit(q: Q, orig: Labels, nosrch: bool) | DoCancel(q: Q) | Return

  /** The queries, and the rest of the script, after a callback: it performs the script up to its next Return. */
  function Performed(c: Config, qs: Store, script: seq<Action>): (Store, seq<Action>)
    requires c.Valid()
    decreases |script|
  {
    if script == [] then (qs, [])
    else match script[0]
      case Return => (qs, script[1..])
      case DoCancel(q) => Performed(c, qs - {q}, script[1..])
      case DoSubmit(q, orig, nosrch) =>
        Performed(c, if q !in qs && GoodName(orig) then qs[q := Submitted(c, orig, nosrch)] else qs, script[1..])
  }

  // ---- how long to wait ----

  const INT_LIMIT := 0x8000_0000

  /** A wide integer as an int of 32 bits. */
  function ToInt(x: int): int {
    (x + INT_LIMIT) % WORD32 - INT_LIMIT
  }

  /** The wait for a deadline is what it should be exactly if it is shorter than 2^31 seconds; else it is too short, and
      negative if it is shorter than 2^32 seconds, as if no query were left. */
  lemma NarrowExactly(d: int)
    requires d > 0
    ensures ToInt(d) == d <==> d < INT_LIMIT
    ensures ToInt(d) <= d
    ensures d < WORD32 ==> (ToInt(d) < 0 <==> d >= INT_LIMIT)
  {
  }

  /** Such a wait comes about with a timeout of 1 second, doubled 31 times. */
  lemma NarrowExample(c: Config)
    requires c.timeout == 1
    ensures ToInt(Patience(c, 31, 0)) < 0
  {
    assert Pow2(31) == INT_LIMIT by {
      assert Pow2(8) == 256;
      assert Pow2(16) == 65536;
      assert Pow2(24) == 256 * 65536;
    }
  }

  function Shorter(maxwait: int, w: int): int {
    if maxwait < 0 || maxwait > w then w else maxwait
  }

  predicate Earliest(qs: Store, q: Q) {
    q in qs && forall x <- qs :: qs[q].deadline <= qs[x].deadline
  }

  lemma NoLongerThan(qs: Store, q: Q, now: int, maxwait: int)
    requires Earliest(qs, q) && qs[q].deadline > now
    ensures forall x <- qs :: qs[x].deadline > now && Shorter(maxwait, ToInt(qs[q].deadline - now)) <= qs[x].deadline - now
  {
    NarrowExactly(qs[q].deadline - now);
  }

  class Context {
    const c: Config
    const qactive: QList
    var qs: Store
    var nactive: int
    var script: seq<Action>      // what the callbacks are going to do, in order
    ghost var log: map<Q, Log>
    ghost var order: map<Q, seq<Labels>>
    ghost var ended: seq<Ended>

    /** dns_assert_ctx and more */
    ghost predicate Valid()
      reads this, qactive
    {
      && qactive.Valid() && Filed(qactive.list, qs) && nactive == |qactive.list|
      && Accounted(c, qs, log, order, ended)
    }

    constructor (c: Config, script: seq<Action>)
      requires c.Valid()
      ensures Valid() && fresh(qactive) && qs == map[] && ended == [] && this.c == c && this.script == script
    {
      this.c, this.script := c, script;
      qactive := new QList();
      qs, nactive, log, order, ended := map[], 0, map[], map[], [];
    }

    // ---- on a query that is being worked on ----

    /** dns_find_serv */
    method FindServer(x: Query) returns (y: Query, found: bool)
      requires x.servi <= c.nserv
      ensures y == x.(servi := FindServ(x.skip, x.servi, c.nserv)) && (found <==> y.servi < c.nserv)
    {
      y := x;
      while y.servi < c.nserv
        invariant y.servi <= c.nserv && y == x.(servi := y.servi)
        invariant FindServ(y.skip, y.servi, c.nserv) == FindServ(x.skip, x.servi, c.nserv)
        decreases c.nserv - y.servi
      {
        if y.servi !in y.skip {
          return y, true;
        }
        y := y.(servi := y.servi + 1);
      }
      found := false;
    }

    /** dns_next_srch */
    method NextName(x: Query) returns (t: Step)
      requires c.Valid() && x.Valid(c)
      ensures t == NextSrch(c, x)
    {
      hide GoodLabels, Wire, Wire0;
      var y := x;
      while true
        invariant y.Valid(c) && NextSrch(c, y) == NextSrch(c, x)
        decreases |c.srch| + 1 - y.nxt
      {
        if y.nxt > |c.srch| {
          return End(NxDomain);
        }
        if Usable(c, y.orig, y.nxt, y.asis) {
          break;
        }
        y := y.(nxt := y.nxt + 1);
      }
      var suffix := Suffix(c, y.nxt);
      t := Goes(Renamed(y, y.orig + suffix, y.nxt + 1, y.asis || suffix == []));
    }

    // ---- the list ----

    ghost function Position(q: Q): (p: nat)
      requires qactive.Valid() && Filed(qactive.list, qs) && q in qs
      reads this, qactive
      ensures p < |qactive.list| && qactive.list[p] == q
    {
      assert q in qactive.list;
      var p :| 0 <= p < |qactive.list| && qactive.list[p] == q;
      p
    }

    /** From the tail on: the last query with a deadline not after this one. */
    method FindPlace(deadline: int) returns (at: Link, ghost k: nat)
      requires qactive.Valid() && forall x <- qactive.list :: x in qs
      ensures k <= |qactive.list| && at == At(qactive.list, k - 1)
      ensures k > 0 ==> qs[qactive.list[k - 1]].deadline <= deadline
      ensures k < |qactive.list| ==> deadline < qs[qactive.list[k]].deadline
      ensures at.To? ==> at.q in qactive.list && qs[at.q].deadline <= deadline
      ensures at.Null? && qactive.list != [] ==> deadline < qs[qactive.list[0]].deadline
    {
      hide Linked, Distinct;
      ghost var l := qactive.list;
      HeadIs(qactive.Now(), l);
      at, k := qactive.tail, |l|;
      while at.To?
        invariant k <= |l| && at == At(l, k - 1)
        invariant k < |l| ==> deadline < qs[l[k]].deadline
        decreases k
      {
        assert l[k - 1] in l;
        LinksOf(qactive.Now(), l, k - 1);
        if qs[at.q].deadline <= deadline {
          break;
        }
        at, k := qactive.links[at.q].prev, k - 1;
      }
    }

    lemma HoldsAll(list: seq<Q>, was: Store, q: Q)
      requires Filed(list, was) && q !in list
      ensures forall x <- list :: x in was && x != q
    {
    }

    /** The query goes to its place according to its new deadline. */
    method Reposition(q: Q, v: Query)
      requires qactive.Valid() && Filed(qactive.list, qs) && q in qs
      modifies this`qs, qactive
      ensures qactive.Valid() && qs == old(qs)[q := v] && Filed(qactive.list, qs) && |qactive.list| == |old(qactive.list)|
    {
      hide Linked, Filed, Distinct;
      ghost var p, was := Position(q), qs;
      AllDistinct(qactive.Now(), qactive.list);
      CutFiled(qactive.list, qs, p);
      qs := qs[q := v];
      qactive.Remove(q, p);
      ghost var l := qactive.list;
      HoldsAll(l, was - {q}, q);
      var at, k := FindPlace(v.deadline);
      AllDistinct(qactive.Now(), l);
      PutFiled(l, was - {q}, k, q, v);
      qactive.InsertAfter(q, at, k);
      assert qs == (was - {q})[q := v];
    }

    // ---- ending ----

    /** dns_cancel, of a query of this context */
    method Cancel(q: Q)
      requires Valid() && q in qs
      modifies this, qactive
      ensures Valid() && qs == old(qs) - {q} && ended == old(ended) && script == old(script) && log == old(log) && order == old(order)
    {
      hide Linked, Filed, Accounted;
      AccountDrop(c, qs, log, order, ended, q);
      Detach(q);
    }

    /** qlist_remove and the count */
    method Detach(q: Q)
      requires qactive.Valid() && Filed(qactive.list, qs) && nactive == |qactive.list| && q in qs
      modifies this`nactive, this`qs, qactive
      ensures qactive.Valid() && qs == old(qs) - {q} && Filed(qactive.list, qs) && nactive == |qactive.list|
    {
      hide Linked, ByDeadline, Distinct;
      ghost var p := Position(q);
      AllDistinct(qactive.Now(), qactive.list);
      CutFiled(qactive.list, qs, p);
      qactive.Remove(q, p);
      nactive := nactive - 1;
      qs := qs - {q};
    }

    /** dns_end_query */
    method EndQuery(q: Q, status: Status, ghost last: RCode)
      requires Valid() && q in qs
      requires Fair(c, Ended(q, status, order[q], log[q], last))
      modifies this, qactive
      ensures Valid() && (script == old(script) || |script| < |old(script)|)
      ensures script == old(script) ==> qs == old(qs) - {q}
      ensures ended == old(ended) + [Ended(q, status, old(order[q]), old(log[q]), last)]
      ensures c.Valid() && (qs, script) == Performed(c, old(qs) - {q}, old(script))
    {
      hide Linked, Filed, Accounted, Fair, Performed;
      AccountOf(c, qs, log, order, ended, q);
      ghost var e := Ended(q, status, order[q], log[q], last);
      AccountWithout(c, qs, log, order, ended, q, e);
      Detach(q);
      ended := ended + [e];
      Callback();
    }

    /** A callback submits and cancels queries. */
    method Callback()
      requires Valid()
      modifies this, qactive
      ensures Valid() && (script == old(script) || |script| < |old(script)|) && ended == old(ended)
      ensures script == old(script) ==> qs == old(qs)
      ensures c.Valid() && (qs, script) == Performed(c, old(qs), old(script))
    {
      hide Linked, Filed, Accounted, GoodName, Submitted;
      ValidConfig();
      while script != []
        invariant Valid() && (script == old(script) || |script| < |old(script)|) && ended == old(ended)
        invariant script == old(script) ==> qs == old(qs)
        invariant c.Valid() && Performed(c, qs, script) == Performed(c, old(qs), old(script))
        decreases |script|
      {
        var a := script[0];
        script := script[1..];
        match a
        case Return =>
          return;
        case DoCancel(q) =>
          assert q !in qs ==> qs - {q} == qs;
          if q in qs {
            Cancel(q);
          }
        case DoSubmit(q, orig, nosrch) =>
          if q !in qs && GoodName(orig) {
            SubmitDn(q, orig, nosrch);
          }
      }
    }

    // ---- submitting ----

    /** dns_submit_dn: the new query, at the address q, is put first, to be sent by dns_timeouts. */
    method SubmitDn(q: Q, orig: Labels, nosrch: bool)
      requires Valid() && q !in qs && GoodName(orig)
      modifies this, qactive
      ensures Valid() && qs == old(qs)[q := Submitted(c, orig, nosrch)] && order == old(order)[q := Order(c, orig, nosrch)]
      ensures script == old(script) && ended == old(ended)
    {
      hide Linked, ByDeadline, Distinct, Accounted, GoodName, Tracks;
      ValidConfig();
      NameParts(orig);
      SubmittedTracks(c, orig, nosrch);
      var x := Fresh(orig, nosrch);
      AccountWith(c, qs, log, order, ended, q, x, Log([x.name], [], 0), Order(c, orig, nosrch));
      log, order := log[q := Log([x.name], [], 0)], order[q := Order(c, orig, nosrch)];
      AllDistinct(qactive.Now(), qactive.list);
      FirstLatest(c, qactive.list, qs);
      PutFiled(qactive.list, qs, 0, q, x);
      qactive.AddHead(q);
      qs := qs[q := x];
      nactive := nactive + 1;
    }

    lemma ValidConfig()
      requires Valid()
      ensures c.Valid() && AllValid(c, qs)
    {
    }

    /** The query as dns_submit_dn fills it in. */
    method Fresh(orig: Labels, nosrch: bool) returns (x: Query)
      requires c.Valid() && GoodLabels(orig)
      ensures x == Submitted(c, orig, nosrch)
    {
      x := Query(orig, orig, 0, false, false, 0, {}, {}, {}, 0, 0);
      if nosrch || |orig| > c.ndots {
        x := x.(nxt := if nosrch then |c.srch| else 0, asis := true);
      } else {
        var t := NextName(x);
        if t.Goes? {
          x := t.q;
        }
      }
    }

    // ---- sending ----

    /** sendto, with up to ten attempts; whether one of them succeeds is up to the system */
    method SendTo() returns (sent: bool)
    {
      var tries := 10;
      while true
        invariant tries > 0
        decreases tries
      {
        var ok: bool := *;
        if ok {
          return true;
        }
        tries := tries - 1;
        if tries == 0 {
          return false;
        }
      }
    }

    /** timeout << try; the result of a shift that C does not define is any value of 32 bits */
    method Shift(try: nat) returns (wait: nat, ghost undefinedShift: nat)
      ensures undefinedShift < WORD32 && wait == Patience(c, try, undefinedShift)
    {
      var any: nat :| any < WORD32;
      undefinedShift := any;
      wait := if try < 32 then c.timeout * Pow2(try) % WORD32 else any;
    }

    /** What the state is after a query took a step. */
    twostate predicate Stepped(q: Q, t: Step, g: Log)
      reads this
    {
      && (script == old(script) || |script| < |old(script)|)
      && (t.Goes? ==>
            && script == old(script) && qs == old(qs)[q := t.q] && log == old(log)[q := g] && order == old(order)
            && ended == old(ended))
      && (t.End? ==>
            && c.Valid() && (qs, script) == Performed(c, old(qs) - {q}, old(script))
            && (script == old(script) ==> qs == old(qs) - {q})
            && |ended| == |old(ended)| + 1 && ended[..|old(ended)|] == old(ended)
            && ended[|old(ended)|].q == q && ended[|old(ended)|].status == t.status)
    }

    /** dns_send_this; the log already has this sending */
    method SendThisServer(q: Q, s: nat, now: nat) returns (ghost env: Env)
      requires Valid() && q in qs && s < c.nserv && c.Valid() && qs[q].Valid(c) && q in log
      modifies this, qactive
      ensures Valid() && env.now == now && env.undefinedShift < WORD32
      ensures Stepped(q, SendThis(c, old(qs[q]), s, env), old(log[q]))
      ensures ended == old(ended) ==> q in qs && AskedServer(c, old(qs[q]), s, qs[q], now) && qs[q].try == old(qs[q]).try
    {
      hide Linked, Filed, Accounted, Fair, Performed, Tracks, GoodLabels, FindServ, Patience, Budget, AskedServer;
      SendThisAsks(c, qs[q], s, now);
      AccountOf(c, qs, log, order, ended, q);
      var sent := SendTo();
      if !sent {
        env := Env(now, false, 0);
        Unfinished(c, q, TempFail, order[q], log[q], qs[q], Other);
        EndQuery(q, TempFail, Other);
        return;
      }
      var x := qs[q];
      x := x.(wait := x.wait + {s});
      var y, more := FindServer(x);
      var wait, undefinedShift := Shift(x.try);
      env := Env(now, true, undefinedShift);
      y := y.(deadline := now + if more then 1 else wait);
      SendThisCost(c, qs[q], s, env);
      TracksSame(c, order[q], qs[q], log[q], y, log[q].sent);
      AccountWith(c, qs, log, order, ended, q, y, log[q], order[q]);
      Reposition(q, y);
      assert log[q := log[q]] == log && order[q := order[q]] == order;
    }

    /** Fields of a query are changed, but not its deadline. */
    method Update(q: Q, y: Query, ghost g: Log)
      requires Valid() && q in qs && q in order && c.Valid() && y.Valid(c) && Tracks(c, order[q], y, g) && y.deadline == qs[q].deadline
      modifies this`qs, this`log
      ensures Valid() && qs == old(qs)[q := y] && log == old(log)[q := g]
    {
      hide Linked, Filed, Accounted, Tracks, GoodLabels;
      AccountWith(c, qs, log, order, ended, q, y, g, order[q]);
      FiledSame(qactive.list, qs, q, y);
      assert order[q := order[q]] == order;
      qs, log := qs[q := y], log[q := g];
    }

    /** dns_send */
    method SendQuery(q: Q, now: nat) returns (ghost env: Env)
      requires Valid() && q in qs && c.Valid() && qs[q].Valid(c) && q in log
      modifies this, qactive
      ensures Valid() && env.now == now && env.undefinedShift < WORD32
      ensures Stepped(q, Send(c, old(qs[q]), env), old(log[q]).(sent := old(log[q]).sent + 1))
      ensures ended == old(ended) ==> q in qs && AskedNext(c, old(qs[q]), qs[q], now)
    {
      hide Linked, Filed, Accounted, Fair, Performed, Tracks, GoodLabels, FindServ, SendThis, Budget, AskedNext;
      SendAsks(c, qs[q], now);
      AccountOf(c, qs, log, order, ended, q);
      var x, again := qs[q], false;
      var y, found := FindServer(x);
      if !found {
        again := true;
        y := y.(servi := 0, try := y.try + 1);
        if y.try < c.ntries {
          y, found := FindServer(y);
        }
        if y.try >= c.ntries || !found {
          env := Env(now, true, 0);
          Unfinished(c, q, TempFail, order[q], log[q], x, Other);
          EndQuery(q, TempFail, Other);
          return;
        }
      }
      var s := y.servi;
      y := y.(servi := y.servi + 1);
      NextServer(c, x, s, again);
      ghost var g := log[q].(sent := log[q].sent + 1);
      TracksSame(c, order[q], x, log[q], y, g.sent);
      Update(q, y, g);
      env := SendThisServer(q, s, now);
      TwiceUpdated(old(qs), q, y, SendThis(c, y, s, env));
      TwiceLogged(old(log), q, g, g);
    }

    // ---- replies ----

    /** The part of dns_ioevent for one reply. A reply that is not awaited changes nothing. */
    method HandleReply(q: Q, r: Reply, now: nat) returns (accepted: bool, ghost env: Env)
      requires Valid()
      modifies this, qactive
      ensures Valid() && c.Valid()
      ensures accepted <==> q in old(qs) && r.s in old(qs[q]).wait
      ensures env.now == now && env.undefinedShift < WORD32
      ensures !accepted ==> qs == old(qs) && script == old(script) && ended == old(ended) && log == old(log)
      ensures accepted ==> old(qs[q]).Valid(c) && q in old(log)
      ensures accepted ==>
                var t := Answer(c, old(qs[q]), r, env);
                Stepped(q, t, if t.Goes? then LogAfter(old(log[q]), old(qs[q]), r, t.q) else old(log[q]))
    {
      hide Linked, Filed, Accounted, Fair, Performed, Tracks, GoodLabels, Send, SendThis, NextSrch, Budget;
      ValidConfig();
      env := Env(now, true, 0);
      if q !in qs || r.s !in qs[q].wait {
        return false, env;
      }
      accepted := true;
      AccountOf(c, qs, log, order, ended, q);
      if r.rcode == NoError && !r.truncated && r.answers > 0 {
        Positive(c, q, order[q], log[q], qs[q]);
        EndQuery(q, Parsed, r.rcode);
      } else if (r.rcode == NoError && !r.truncated) || r.rcode == NxDom {
        env := Definitive(q, r, now);
      } else if (r.rcode == FormErr || r.rcode == NotImpl) && c.edns && r.s !in qs[q].noEdns {
        env := WithoutEdns(q, r, now);
      } else {
        env := SkipServer(q, r, now);
      }
    }

    /** NODATA and NXDOMAIN */
    method Definitive(q: Q, r: Reply, now: nat) returns (ghost env: Env)
      requires Valid() && q in qs && c.Valid() && qs[q].Valid(c) && q in log && q in order && r.s in qs[q].wait
      requires (r.rcode == NoError && !r.truncated && r.answers == 0) || r.rcode == NxDom
      modifies this, qactive
      ensures Valid() && env.now == now && env.undefinedShift < WORD32
      ensures var t := Answer(c, old(qs[q]), r, env);
              Stepped(q, t, if t.Goes? then LogAfter(old(log[q]), old(qs[q]), r, t.q) else old(log[q]))
    {
      hide Linked, Filed, Accounted, Fair, Performed, Tracks, GoodLabels, Send, SendThis, NextSrch, Budget;
      AccountOf(c, qs, log, order, ended, q);
      var x := qs[q].(wait := qs[q].wait - {r.s});
      env := Env(now, true, 0);
      var nodata := x.nodata || r.rcode == NoError;
      var n := NextName(x);
      if n.End? {
        var status := if nodata then NoData else NxDomain;
        Final(c, q, order[q], log[q], qs[q], r.s, r.rcode);
        EndQuery(q, status, r.rcode);
      } else {
        var y := n.q.(nodata := nodata);
        ghost var g := Log(log[q].tried + [y.name], log[q].verdicts + [r.rcode], 0);
        NewName(c, order[q], qs[q], log[q], r.rcode, r.s);
        Update(q, y, g);
        env := SendQuery(q, now);
        SendCosts(c, y, env);
        TwiceUpdated(old(qs), q, y, Send(c, y, env));
        TwiceLogged(old(log), q, g, g.(sent := 1));
      }
    }

    /** A server that refused EDNS0 is asked again without it. */
    method WithoutEdns(q: Q, r: Reply, now: nat) returns (ghost env: Env)
      requires Valid() && q in qs && c.Valid() && qs[q].Valid(c) && q in log && q in order && r.s in qs[q].wait
      requires (r.rcode == FormErr || r.rcode == NotImpl) && c.edns && r.s !in qs[q].noEdns
      modifies this, qactive
      ensures Valid() && env.now == now && env.undefinedShift < WORD32
      ensures var t := Answer(c, old(qs[q]), r, env);
              Stepped(q, t, if t.Goes? then LogAfter(old(log[q]), old(qs[q]), r, t.q) else old(log[q]))
      ensures ended == old(ended) ==> q in qs && qs[q].noEdns == old(qs[q]).noEdns + {r.s} && r.s in qs[q].wait
                                      && qs[q].try == old(qs[q]).try && Scheduled(c, qs[q], now)
    {
      hide Linked, Filed, Accounted, Fair, Performed, Tracks, GoodLabels, Send, SendThis, NextSrch, Budget, Scheduled;
      AccountOf(c, qs, log, order, ended, q);
      var x := qs[q];
      var y := x.(wait := x.wait - {r.s}, noEdns := x.noEdns + {r.s});
      ghost var g := log[q].(sent := log[q].sent + 1);
      RefusalCosts(c, x, y, r.s);
      TracksSame(c, order[q], x, log[q], y, g.sent);
      Update(q, y, g);
      env := SendThisServer(q, r.s, now);
      SendThisKeeps(c, y, r.s, env);
      TwiceUpdated(old(qs), q, y, SendThis(c, y, r.s, env));
      TwiceLogged(old(log), q, g, g);
    }

    /** A server that failed is not asked again; the next one is, if no reply is awaited any more. */
    method SkipServer(q: Q, r: Reply, now: nat) returns (ghost env: Env)
      requires Valid() && q in qs && c.Valid() && qs[q].Valid(c) && q in log && q in order && r.s in qs[q].wait
      requires !(r.rcode == NoError && !r.truncated) && r.rcode != NxDom
      requires !((r.rcode == FormErr || r.rcode == NotImpl) && c.edns && r.s !in qs[q].noEdns)
      modifies this, qactive
      ensures Valid() && env.now == now && env.undefinedShift < WORD32
      ensures var t := Answer(c, old(qs[q]), r, env);
              Stepped(q, t, if t.Goes? then LogAfter(old(log[q]), old(qs[q]), r, t.q) else old(log[q]))
    {
      hide Linked, Filed, Accounted, Fair, Performed, Tracks, GoodLabels, Send, SendThis, NextSrch, Budget;
      AccountOf(c, qs, log, order, ended, q);
      var x := qs[q];
      var y := x.(wait := x.wait - {r.s}, skip := x.skip + {r.s});
      env := Env(now, true, 0);
      SameBudget(c, x, y);
      TracksSame(c, order[q], x, log[q], y, log[q].sent);
      Update(q, y, log[q]);
      if y.wait == {} {
        env := SendQuery(q, now);
        SendCosts(c, y, env);
        SendKeepsEdns(c, y, env);
        TwiceUpdated(old(qs), q, y, Send(c, y, env));
        TwiceLogged(old(log), q, old(log[q]), old(log[q]).(sent := old(log[q]).sent + 1));
      }
    }

    /** dns_ioevent: all replies that have come, each with the query whose ID it has. */
    method IoEvent(replies: seq<(Q, Reply)>, now: nat) returns (ghost envs: seq<Env>)
      requires Valid()
      modifies this, qactive
      ensures Valid() && old(ended) <= ended
      ensures |envs| == |replies| && forall e <- envs :: e.now == now && e.undefinedShift < WORD32
      ensures old(script) == [] ==> qs == AfterReplies(c, old(qs), replies, envs)
    {
      hide Linked, Filed, Accounted, Performed, Answer, GoodLabels;
      envs := [];
      for i := 0 to |replies|
        invariant Valid() && old(ended) <= ended
        invariant |envs| == i && forall e <- envs :: e.now == now && e.undefinedShift < WORD32
        invariant old(script) == [] ==> script == [] && qs == AfterReplies(c, old(qs), replies[..i], envs)
      {
        var accepted, env := HandleReply(replies[i].0, replies[i].1, now);
        OneReplyMore(c, old(qs), replies, i, envs, env);
        envs := envs + [env];
      }
      assert replies[..|replies|] == replies;
    }

    // ---- timeouts ----

    /** One query is due: dns_send, which leaves less for all queries together, unless callbacks intervene. */
    method TimeOne(q: Q, now: nat, ghost qs0: Store, ghost ended0: seq<Ended>, ghost quiet: bool)
      requires Valid() && q in qs && qs[q].deadline <= now && ended0 <= ended && c.Valid() && AllValid(c, qs)
      requires quiet ==> script == [] && OnlyTimedOut(c, qs0, qs, now) && AllReported(qs0, qs, ended[|ended0|..])
      modifies this, qactive
      ensures Valid() && ended0 <= ended && AllValid(c, qs)
      ensures |script| < |old(script)| || (script == old(script) && Total(c, qs) < Total(c, old(qs)))
      ensures quiet ==> script == [] && OnlyTimedOut(c, qs0, qs, now) && AllReported(qs0, qs, ended[|ended0|..])
    {
      hide Linked, Filed, Accounted, Performed, Send, Budget, Tracks, GoodLabels, OnlyTimedOut, AllReported;
      ghost var before, was := qs, ended;
      AccountOf(c, qs, log, order, ended, q);
      var env := SendQuery(q, now);
      SendCosts(c, before[q], env);
      SendEnds(c, before[q], env);
      ValidConfig();
      TotalLess(c, before, q, if Send(c, before[q], env).Goes? then Send(c, before[q], env).q else before[q]);
      if quiet {
        assert qs - {q} == before - {q};
        SentOnce(c, before[q], env, now);
        TimedOutMore(c, qs0, before, qs, now, q);
        Prefixes(ended0, was, ended);
        assert q in qs || ended[|was|] in ended[|ended0|..];
        ReportedMore(qs0, before, qs, was[|ended0|..], ended[|ended0|..], q);
      }
    }

    lemma Prefixes(a: seq<Ended>, b: seq<Ended>, e: seq<Ended>)
      requires a <= b <= e
      ensures b[|a|..] <= e[|a|..] && (|b| < |e| ==> e[|a|..][|b| - |a|] == e[|b|])
    {
    }

    /** dns_timeouts: all queries whose deadline has passed are sent again or ended; returned is how long to wait
        for the next deadline, as an int, but no longer than maxwait. */
    method Timeouts(maxwait: int, now: nat) returns (wait: int)
      requires Valid()
      modifies this, qactive
      ensures Valid() && forall q <- qs :: qs[q].deadline > now
      ensures old(ended) <= ended
      ensures old(script) == [] ==> OnlyTimedOut(c, old(qs), qs, now) && AllReported(old(qs), qs, ended[|old(ended)|..])
      ensures old(script) == [] ==> DueSentAgain(c, old(qs), qs, now)
      ensures forall q <- qs :: wait <= qs[q].deadline - now
      ensures maxwait >= 0 ==> wait <= maxwait
      ensures qs == map[] ==> wait == maxwait
      ensures qs != map[] ==> exists q <- qs :: Earliest(qs, q) && wait == Shorter(maxwait, ToInt(qs[q].deadline - now))
    {
      hide Linked, Filed, Accounted, Tracks, GoodLabels, OnlyTimedOut, AllReported, ToInt, Earliest, DueSentAgain;
      wait := maxwait;
      ValidConfig();
      AllThere(c, qs, now);
      while qactive.head.To?
        invariant Valid() && wait == maxwait && c.Valid() && AllValid(c, qs) && old(ended) <= ended
        invariant old(script) == [] ==>
          script == [] && OnlyTimedOut(c, old(qs), qs, now) && AllReported(old(qs), qs, ended[|old(ended)|..])
        decreases |script|, Total(c, qs)
      {
        HeadOf();
        var q := qactive.head.q;
        if qs[q].deadline > now {
          NoLongerThan(qs, q, now, maxwait);
          NoneDue(c, old(qs), qs, now);
          var w := ToInt(qs[q].deadline - now);
          if wait < 0 || wait > w {
            wait := w;
          }
          return;
        }
        TimeOne(q, now, old(qs), old(ended), old(script) == []);
      }
      NoneLeft();
      NoneDue(c, old(qs), qs, now);
    }

    /** The head of the list has the earliest deadline. */
    lemma HeadOf()
      requires Valid() && qactive.head.To?
      ensures qactive.head.q in qs && Earliest(qs, qactive.head.q)
    {
      HeadIs(qactive.Now(), qactive.list);
      forall q | q in qs ensures qactive.head.q in qs && qs[qactive.head.q].deadline <= qs[q].deadline {
        assert q in qactive.list;
      }
      assert qactive.list[0] in qactive.list;
    }

    lemma NoneLeft()
      requires Valid() && qactive.head.Null?
      ensures qs == map[]
    {
      HeadIs(qactive.Now(), qactive.list);
      assert qactive.list == [];
      assert forall q :: q !in qs;
    }
  }

  lemma SentOnce(c: Config, q: Query, env: Env, now: int)
    requires c.Valid() && q.Valid(c) && env.undefinedShift < WORD32 && env.now == now
    ensures var t := Send(c, q, env); t.Goes? ==> SentAgain(c, q, t.q, now)
  {
    hide Send, Budget, GoodLabels, Scheduled;
    SendCosts(c, q, env);
    SendIs(c, q, env);
  }

  lemma SendThisAsks(c: Config, q: Query, s: nat, now: nat)
    requires c.Valid() && q.Valid(c) && s < c.nserv
    ensures forall env: Env :: env.undefinedShift < WORD32 && env.now == now && SendThis(c, q, s, env).Goes? ==>
              AskedServer(c, q, s, SendThis(c, q, s, env).q, now) && SendThis(c, q, s, env).q.try == q.try
  {
    hide SendThis, AskedServer, GoodLabels;
    forall env: Env | env.undefinedShift < WORD32 && env.now == now && SendThis(c, q, s, env).Goes?
      ensures AskedServer(c, q, s, SendThis(c, q, s, env).q, now) && SendThis(c, q, s, env).q.try == q.try
    {
      SendThisIs(c, q, s, env);
    }
  }

  lemma SendAsks(c: Config, q: Query, now: nat)
    requires c.Valid() && q.Valid(c)
    ensures forall env: Env :: env.undefinedShift < WORD32 && env.now == now && Send(c, q, env).Goes? ==>
              AskedNext(c, q, Send(c, q, env).q, now)
  {
    hide Send, AskedNext, GoodLabels;
    forall env: Env | env.undefinedShift < WORD32 && env.now == now && Send(c, q, env).Goes?
      ensures AskedNext(c, q, Send(c, q, env).q, now)
    {
      SendIs(c, q, env);
    }
  }

  lemma TwiceUpdated(qs: Store, q: Q, y: Query, t: Step)
    requires q in qs
    ensures t.Goes? ==> qs[q := y][q := t.q] == qs[q := t.q]
    ensures qs[q := y] - {q} == qs - {q}
  {
    assert (qs[q := y] - {q}).Keys == (qs - {q}).Keys;
  }

  lemma TwiceLogged(log: map<Q, Log>, q: Q, g: Log, h: Log)
    ensures log[q := g][q := h] == log[q := h]
  {
  }

  lemma FiledSame(list: seq<Q>, qs: Store, q: Q, y: Query)
    requires Filed(list, qs) && q in qs && y.deadline == qs[q].deadline
    ensures Filed(list, qs[q := y])
  {
  }

  lemma Positive(c: Config, q: Q, order: seq<Labels>, log: Log, x: Query)
    requires c.Valid() && x.Valid(c) && Tracks(c, order, x, log)
    ensures Fair(c, Ended(q, Parsed, order, log, NoError))
  {
    SentAtMost(c, order, x, log);
  }

  lemma Final(c: Config, q: Q, order: seq<Labels>, log: Log, x: Query, s: nat, v: RCode)
    requires c.Valid() && x.Valid(c) && Tracks(c, order, x, log) && (v == NoError || v == NxDom)
    requires NextSrch(c, x.(wait := x.wait - {s})).End?
    ensures Fair(c, Ended(q, if x.nodata || v == NoError then NoData else NxDomain, order, log, v))
  {
    SentAtMost(c, order, x, log);
    NextIsPlanned(c, x.(wait := x.wait - {s}));
  }

  lemma NewName(c: Config, order: seq<Labels>, x: Query, log: Log, v: RCode, s: nat)
    requires c.Valid() && x.Valid(c) && Tracks(c, order, x, log) && (v == NoError || v == NxDom)
    requires NextSrch(c, x.(wait := x.wait - {s})).Goes?
    ensures var n := NextSrch(c, x.(wait := x.wait - {s})).q;
            var y := n.(nodata := x.nodata || v == NoError);
            && y.Valid(c) && y.deadline == x.deadline && y.nxt > x.nxt
            && Tracks(c, order, y, Log(log.tried + [y.name], log.verdicts + [v], 0))
  {
    hide Usable, GoodLabels, Budget, Limit, Plan, NextSrch;
    var p := x.(wait := x.wait - {s});
    NextSrchValid(c, p);
    NextIsPlanned(c, p);
    NextSrchDeadline(c, p);
    var n := NextSrch(c, p).q;
    var y := n.(nodata := x.nodata || v == NoError);
    NewBudget(c, y);
    var rest := Plan(c, n.orig, n.nxt, n.asis);
    assert log.tried + ([n.name] + rest) == log.tried + [n.name] + rest;
  }

  lemma Unfinished(c: Config, q: Q, status: Status, order: seq<Labels>, log: Log, x: Query, last: RCode)
    requires c.Valid() && x.Valid(c) && Tracks(c, order, x, log) && status == TempFail
    ensures Fair(c, Ended(q, status, order, log, last))
  {
    SentAtMost(c, order, x, log);
  }

  lemma AccountDrop(c: Config, qs: Store, log: map<Q, Log>, order: map<Q, seq<Labels>>, ended: seq<Ended>, q: Q)
    requires Accounted(c, qs, log, order, ended)
    ensures Accounted(c, qs - {q}, log, order, ended)
  {
    hide Tracks, Fair;
  }

  lemma NameParts(orig: Labels)
    requires GoodName(orig)
    ensures GoodLabels(orig) && |Wire(orig)| <= MAXDN
  {
  }

  /** No deadline is before 0. */
  lemma FirstLatest(c: Config, list: seq<Q>, qs: Store)
    requires Filed(list, qs) && AllValid(c, qs)
    ensures list != [] ==> list[0] in qs && 0 <= qs[list[0]].deadline
  {
  }
}
