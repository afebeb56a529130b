/** What happens to a single query of the resolver: servers, retries and the search for a name. */
module Query {

  import opened Basics
  import opened Buffers
  import opened DnsName

  const WORD32 := 0x1_0000_0000

  /** The settings of a context. */
  datatype Config = Config(
    nserv: nat,
    ntries: nat,
    timeout: nat,                // in seconds
    ndots: nat,
    edns: bool,                  // the UDP buffer is larger than DNS_MAXPACKET
    srch: seq<Labels>            // the search list
  ) {
    predicate Valid() {
      nserv >= 1 && ntries >= 1 && forall s <- srch :: GoodLabels(s)
    }
  }

  /** A struct dns_query; the bit masks of servers are sets. */
  datatype Query = Query(
    orig: Labels,                // the name asked for
    name: Labels,                // dnsq_dn, the name tried now
    nxt: nat,                    // dnsq_nxtsrch: the next entry of the search list
    asis: bool,                  // DNS_ASIS_DONE
    nodata: bool,                // DNS_SEEN_NODATA
    servi: nat,
    wait: set<nat>,
    skip: set<nat>,
    noEdns: set<nat>,
    try: nat,
    deadline: int
  ) {
    predicate Valid(c: Config) {
      && servi <= c.nserv && try < c.ntries
      && (forall s <- wait :: s < c.nserv) && (forall s <- skip :: s < c.nserv) && (forall s <- noEdns :: s < c.nserv)
      && GoodLabels(orig) && 0 <= deadline
    }
  }

  datatype Status = TempFail | NoData | NxDomain | Parsed

  /** A query goes on or ends. */
  datatype Step = End(status: Status) | Goes(q: Query)

  // ---- sending ----

  /** dns_find_serv: the first server from servi on that is not to be skipped, or nserv. */
  function FindServ(skip: set<nat>, servi: nat, nserv: nat): (f: nat)
    requires servi <= nserv
    ensures servi <= f <= nserv && (f < nserv ==> f !in skip)
    ensures forall s :: servi <= s < f ==> s in skip
    decreases nserv - servi
  {
    if servi == nserv || servi !in skip then servi else FindServ(skip, servi + 1, nserv)
  }

  /** timeout << try, in 32 bits; what a shift by 32 or more gives is not defined, but some value of 32 bits. */
  function Patience(c: Config, try: nat, undefinedShift: nat): nat
    requires undefinedShift < WORD32
  {
    if try < 32 then c.timeout * Pow2(try) % WORD32 else undefinedShift
  }

  /** What the environment adds to an event: the time, whether sendto succeeds, and an undefined shift. */
  datatype Env = Env(now: nat, sent: bool, undefinedShift: nat)

  /** dns_send_this: q is sent to a server, and the wait is one second if there are others to try. */
  function SendThis(c: Config, q: Query, s: nat, env: Env): Step
    requires c.Valid() && q.Valid(c) && s < c.nserv && env.undefinedShift < WORD32
  {
    if !env.sent then End(TempFail)
    else
      var servi := FindServ(q.skip, q.servi, c.nserv);
      Goes(q.(wait := q.wait + {s}, servi := servi,
              deadline := env.now + if servi < c.nserv then 1 else Patience(c, q.try, env.undefinedShift)))
  }

  /** dns_send: to the next server, in the next round if there is none left in this one. */
  function Send(c: Config, q: Query, env: Env): Step
    requires c.Valid() && q.Valid(c) && env.undefinedShift < WORD32
  {
    var f := FindServ(q.skip, q.servi, c.nserv);
    if f < c.nserv then SendThis(c, q.(servi := f + 1), f, env)
    else if q.try + 1 >= c.ntries then End(TempFail)
    else
      var g := FindServ(q.skip, 0, c.nserv);
      if g == c.nserv then End(TempFail)
      else SendThis(c, q.(servi := g + 1, try := q.try + 1), g, env)
  }

  // ---- searching ----

  /** An entry of the search list; behind the last one the name is tried as it is. */
  function Suffix(c: Config, i: nat): Labels
    requires i <= |c.srch|
  {
    if i < |c.srch| then c.srch[i] else []
  }

  /** Whether entry i is tried: it must fit, and the name as it is is not tried twice. */
  predicate Usable(c: Config, orig: Labels, i: nat, asis: bool)
    requires c.Valid() && i <= |c.srch| && GoodLabels(orig)
  {
    |Wire(Suffix(c, i))| + |Wire0(orig)| <= MAXDN && (Suffix(c, i) != [] || !asis)
  }

  /** A new name: dns_newid resets what belongs to the one before. */
  function Renamed(q: Query, name: Labels, nxt: nat, asis: bool): Query {
    q.(name := name, nxt := nxt, asis := asis, try := 0, servi := 0, wait := {}, skip := {}, noEdns := {})
  }

  /** dns_next_srch */
  function NextSrch(c: Config, q: Query): Step
    requires c.Valid() && q.Valid(c)
    decreases |c.srch| + 1 - q.nxt
  {
    if q.nxt > |c.srch| then End(NxDomain)
    else if Usable(c, q.orig, q.nxt, q.asis) then
      Goes(Renamed(q, q.orig + Suffix(c, q.nxt), q.nxt + 1, q.asis || Suffix(c, q.nxt) == []))
    else NextSrch(c, q.(nxt := q.nxt + 1))
  }

  // ---- replies ----

  datatype RCode = NoError | FormErr | NotImpl | NxDom | Other     // Other is SERVFAIL, REFUSED and whatever else

  /** A reply that belongs to the query, from server s. */
  datatype Reply = Reply(s: nat, rcode: RCode, truncated: bool, answers: nat)

  /** The part of dns_ioevent behind the checks. */
  function Answer(c: Config, q0: Query, r: Reply, env: Env): Step
    requires c.Valid() && q0.Valid(c) && r.s in q0.wait && env.undefinedShift < WORD32
  {
    var q := q0.(wait := q0.wait - {r.s});
    if r.rcode == NoError && !r.truncated && r.answers > 0 then End(Parsed)
    else if (r.rcode == NoError && !r.truncated) || r.rcode == NxDom then
      var n := NextSrch(c, q);
      var nodata := q.nodata || r.rcode == NoError;
      if n.End? then End(if nodata then NoData else NxDomain)
      else
        NextSrchValid(c, q);
        Send(c, n.q.(nodata := nodata), env)
    else if (r.rcode == FormErr || r.rcode == NotImpl) && c.edns && r.s !in q.noEdns then
      SendThis(c, q.(noEdns := q.noEdns + {r.s}), r.s, env)
    else
      var t := q.(skip := q.skip + {r.s});
      if t.wait == {} then Send(c, t, env) else Goes(t)
  }

  lemma {:induction false} NextSrchValid(c: Config, q: Query)
    requires c.Valid() && q.Valid(c)
    ensures var n := NextSrch(c, q);
            n.Goes? ==> n.q.Valid(c) && q.nxt < n.q.nxt <= |c.srch| + 1 && n.q.orig == q.orig && n.q.nodata == q.nodata
                        && n.q.try == 0 && n.q.servi == 0 && n.q.noEdns == {}
    decreases |c.srch| + 1 - q.nxt
  {
    if q.nxt <= |c.srch| && !Usable(c, q.orig, q.nxt, q.asis) {
      NextSrchValid(c, q.(nxt := q.nxt + 1));
    }
  }

  // ---- every query ends ----

  /** What is left: entries of the search list, tries, servers in this round, servers that did not refuse EDNS0
      yet, and servers to wait for. */
  datatype Left = Left(names: nat, tries: nat, servers: nat, edns: nat, waits: nat)

  function LeftOf(c: Config, q: Query): Left
    requires c.Valid() && q.Valid(c)
  {
    Bounded(q.noEdns, c.nserv);
    Left(if q.nxt <= |c.srch| then |c.srch| + 1 - q.nxt else 0, c.ntries - q.try, c.nserv - q.servi,
         c.nserv - |q.noEdns|, |q.wait|)
  }

  predicate Less(a: Left, b: Left) {
    || a.names < b.names
    || (a.names == b.names
        && (|| a.tries < b.tries
            || (a.tries == b.tries
                && (|| a.servers < b.servers
                    || (a.servers == b.servers
                        && (a.edns < b.edns || (a.edns == b.edns && a.waits < b.waits)))))))
  }

  function Range(n: nat): (s: set<nat>)
    ensures |s| == n && forall i :: i in s <==> 0 <= i < n
  {
    if n == 0 then {} else Range(n - 1) + {n - 1}
  }

  lemma {:induction false} SubsetSize(s: set<nat>, t: set<nat>)
    requires s <= t
    ensures |s| <= |t|
  {
    if s != {} {
      var x :| x in s;
      SubsetSize(s - {x}, t - {x});
    }
  }

  lemma Bounded(s: set<nat>, n: nat)
    requires forall x <- s :: x < n
    ensures |s| <= n
  {
    SubsetSize(s, Range(n));
  }

  lemma SendThisKeeps(c: Config, q: Query, s: nat, env: Env)
    requires c.Valid() && q.Valid(c) && s < c.nserv && env.undefinedShift < WORD32
    ensures var t := SendThis(c, q, s, env);
            t.Goes? ==> t.q.Valid(c) && t.q.servi >= q.servi
                        && t.q == q.(wait := q.wait + {s}, servi := t.q.servi, deadline := t.q.deadline)
  {
    hide FindServ, GoodLabels, Pow2;
  }

  // ---- which server is asked, and how long it has to reply ----

  predicate IsFirst(c: Config, q: Query, from: nat, s: nat) {
    from <= s < c.nserv && s !in q.skip && forall x: nat :: from <= x < s ==> x in q.skip
  }

  /** All servers from there on are to be skipped. */
  predicate NoneFrom(c: Config, q: Query, from: nat) {
    forall s: nat :: from <= s < c.nserv ==> s in q.skip
  }

  /** A second, if there are other servers to try in this round; else the timeout, doubled for each round before, as
      long as that fits 32 bits. */
  predicate Scheduled(c: Config, q: Query, now: int) {
    if exists s: nat :: q.servi <= s < c.nserv && s !in q.skip then q.deadline == now + 1
    else q.try < 32 && c.timeout * Pow2(q.try) < WORD32 ==> q.deadline == now + c.timeout * Pow2(q.try)
  }

  /** Server s was asked: t waits for it as well and goes on with later ones. */
  predicate AskedServer(c: Config, q: Query, s: nat, t: Query, now: int) {
    && t == q.(wait := q.wait + {s}, servi := t.servi, try := t.try, deadline := t.deadline)
    && Scheduled(c, t, now)
  }

  /** The next server of this round was asked, or else the first one of the next round. */
  predicate AskedNext(c: Config, q: Query, t: Query, now: int) {
    exists s: nat :: s < t.servi <= c.nserv && AskedServer(c, q, s, t, now)
      && if NoneFrom(c, q, q.servi) then IsFirst(c, q, 0, s) && t.try == q.try + 1 < c.ntries
         else IsFirst(c, q, q.servi, s) && t.try == q.try
  }

  lemma SendThisIs(c: Config, q: Query, s: nat, env: Env)
    requires c.Valid() && q.Valid(c) && s < c.nserv && env.undefinedShift < WORD32
    ensures var t := SendThis(c, q, s, env);
            && (t.Goes? <==> env.sent)
            && (t.Goes? ==> AskedServer(c, q, s, t.q, env.now) && q.servi <= t.q.servi <= c.nserv && t.q.try == q.try)
  {
    hide GoodLabels, Pow2;
  }

  lemma AskedIs(c: Config, q: Query, s: nat, t: Query, now: int)
    requires s < t.servi <= c.nserv && AskedServer(c, q, s, t, now)
    requires if NoneFrom(c, q, q.servi) then IsFirst(c, q, 0, s) && t.try == q.try + 1 < c.ntries
             else IsFirst(c, q, q.servi, s) && t.try == q.try
    ensures AskedNext(c, q, t, now)
  {
    hide AskedServer, NoneFrom, IsFirst;
  }

  /** A query goes on exactly if there is a server to ask and it can be sent to; then that one is asked. */
  lemma SendIs(c: Config, q: Query, env: Env)
    requires c.Valid() && q.Valid(c) && env.undefinedShift < WORD32
    ensures var t := Send(c, q, env);
            && (t.Goes? <==> env.sent && (!NoneFrom(c, q, q.servi) || (q.try + 1 < c.ntries && !NoneFrom(c, q, 0))))
            && (t.Goes? ==> AskedNext(c, q, t.q, env.now))
            && (t.End? ==> t.status == TempFail)
  {
    hide GoodLabels, SendThis, Scheduled, AskedNext;
    var f := FindServ(q.skip, q.servi, c.nserv);
    var t := Send(c, q, env);
    if f < c.nserv {
      SendThisIs(c, q.(servi := f + 1), f, env);
      SendThisEnds(c, q.(servi := f + 1), f, env);
      if t.Goes? {
        AskedIs(c, q, f, t.q, env.now);
      }
    } else if q.try + 1 < c.ntries {
      var g := FindServ(q.skip, 0, c.nserv);
      if g < c.nserv {
        SendThisIs(c, q.(servi := g + 1, try := q.try + 1), g, env);
        SendThisEnds(c, q.(servi := g + 1, try := q.try + 1), g, env);
        if t.Goes? {
          AskedIs(c, q, g, t.q, env.now);
        }
      }
    }
  }

  /** With a single server, the waits double from one timeout to the next. */
  lemma WaitsDouble(c: Config, q: Query, first: Env, second: Env)
    requires c.Valid() && q.Valid(c) && c.nserv == 1 && 0 !in q.skip && q.servi == 1 && q.try + 2 < c.ntries
    requires first.sent && second.sent && first.undefinedShift < WORD32 && second.undefinedShift < WORD32
    requires q.try + 2 < 32 && c.timeout * Pow2(q.try + 2) < WORD32
    ensures var t := Send(c, q, first);
            && t.Goes? && t.q.Valid(c)
            && var u := Send(c, t.q, second);
               u.Goes? && u.q.deadline - second.now == 2 * (t.q.deadline - first.now) == 4 * (c.timeout * Pow2(q.try))
  {
    hide Send, GoodLabels;
    SendIs(c, q, first);
    assert 0 !in q.skip;
    SendLowers(c, q, first);
    var t := Send(c, q, first).q;
    assert t.try == q.try + 1 && t.servi == 1;
    SendIs(c, t, second);
    var a, b, d := Pow2(q.try), Pow2(q.try + 1), Pow2(q.try + 2);
    assert b == 2 * a && d == 2 * b;
    Doubled(c.timeout, a);
    Doubled(c.timeout, b);
  }

  lemma Doubled(x: nat, a: nat)
    ensures x * (2 * a) == 2 * (x * a)
  {
  }

  /** A query that is just submitted gives its only server the timeout as it is. */
  lemma FirstWait(c: Config, q: Query, env: Env)
    requires c.Valid() && q.Valid(c) && c.nserv == 1 && q.skip == {} && q.servi == 0 && q.try == 0
    requires env.sent && env.undefinedShift < WORD32 && c.timeout < WORD32
    ensures var t := Send(c, q, env); t.Goes? && t.q.deadline == env.now + c.timeout && t.q.wait == q.wait + {0}
  {
    hide Send, GoodLabels;
    SendIs(c, q, env);
    assert 0 !in q.skip;
    assert Pow2(0) == 1;
  }

  /** A reply that cannot be used: without EDNS0 the same server is asked again; else it is skipped from now on, and if no
      other one is waited for, the next one is asked. A skipped server is never asked (SendIs). */
  lemma RefusalIs(c: Config, q: Query, r: Reply, env: Env)
    requires c.Valid() && q.Valid(c) && r.s in q.wait && env.undefinedShift < WORD32
    requires r.rcode != NxDom && (r.rcode == NoError ==> r.truncated)
    ensures var t, retry := Answer(c, q, r, env), (r.rcode == FormErr || r.rcode == NotImpl) && c.edns && r.s !in q.noEdns;
            && (t.End? ==> t.status == TempFail)
            && (retry ==> (t.Goes? <==> env.sent)
                          && (t.Goes? ==> t.q.wait == q.wait && t.q.skip == q.skip && t.q.noEdns == q.noEdns + {r.s}
                                          && t.q.try == q.try && Scheduled(c, t.q, env.now)))
            && (!retry && t.Goes? ==> t.q.skip == q.skip + {r.s} && t.q.noEdns == q.noEdns)
            && (!retry && q.wait != {r.s} ==> t == Goes(q.(wait := q.wait - {r.s}, skip := q.skip + {r.s})))
            && (!retry && q.wait == {r.s} && t.Goes? ==> AskedNext(c, q.(wait := {}, skip := q.skip + {r.s}), t.q, env.now))
  {
    hide GoodLabels, Send, SendThis, Scheduled;
    var p := q.(wait := q.wait - {r.s});
    if (r.rcode == FormErr || r.rcode == NotImpl) && c.edns && r.s !in p.noEdns {
      var m := p.(noEdns := p.noEdns + {r.s});
      SendThisIs(c, m, r.s, env);
      SendThisEnds(c, m, r.s, env);
      assert q.wait - {r.s} + {r.s} == q.wait;
    } else {
      var m := p.(skip := p.skip + {r.s});
      assert q.wait - {r.s} == {} <==> q.wait == {r.s};
      SendIs(c, m, env);
    }
  }

  /** A reply with answers ends the query; a definitive one moves it to the next planned name, of which the first server is
      asked, or ends it. */
  lemma DefinitiveIs(c: Config, q: Query, r: Reply, env: Env)
    requires c.Valid() && q.Valid(c) && r.s in q.wait && env.undefinedShift < WORD32
    requires (r.rcode == NoError && !r.truncated) || r.rcode == NxDom
    ensures var t, plan, nodata := Answer(c, q, r, env), Plan(c, q.orig, q.nxt, q.asis), q.nodata || r.rcode == NoError;
            if r.rcode == NoError && r.answers > 0 then t == End(Parsed)
            else if plan == [] then t == End(if nodata then NoData else NxDomain)
            else if !env.sent then t == End(TempFail)
            else && t.Goes? && [t.q.name] + Plan(c, q.orig, t.q.nxt, t.q.asis) == plan && t.q.orig == q.orig
                 && t.q.nodata == nodata && t.q.wait == {0} && t.q.skip == {} && t.q.noEdns == {} && t.q.try == 0
                 && Scheduled(c, t.q, env.now)
  {
    hide GoodLabels, Send, SendThis, Scheduled, Usable, Plan, NextSrch;
    var p := q.(wait := q.wait - {r.s});
    NextSrchValid(c, p);
    NextSrchFresh(c, p);
    NextIsPlanned(c, p);
    var n := NextSrch(c, p);
    if n.Goes? {
      var m := n.q.(nodata := q.nodata || r.rcode == NoError);
      SendIs(c, m, env);
      assert 0 !in m.skip;
    }
  }

  lemma {:induction false} NextSrchFresh(c: Config, q: Query)
    requires c.Valid() && q.Valid(c)
    ensures var n := NextSrch(c, q); n.Goes? ==> n.q.wait == {} && n.q.skip == {}
    decreases |c.srch| + 1 - q.nxt
  {
    hide Usable, GoodLabels;
    if q.nxt <= |c.srch| && !Usable(c, q.orig, q.nxt, q.asis) {
      NextSrchFresh(c, q.(nxt := q.nxt + 1));
    }
  }

  /** A timeout ends the query, or leaves fewer servers in this round or fewer tries. */
  lemma SendLowers(c: Config, q: Query, env: Env)
    requires c.Valid() && q.Valid(c) && env.undefinedShift < WORD32
    ensures var t := Send(c, q, env); t.Goes? ==> t.q.Valid(c) && Less(LeftOf(c, t.q), LeftOf(c, q))
  {
    hide GoodLabels, SendThis, FindServ;
    var f := FindServ(q.skip, q.servi, c.nserv);
    if f < c.nserv {
      SendThisKeeps(c, q.(servi := f + 1), f, env);
    } else if q.try + 1 < c.ntries {
      var g := FindServ(q.skip, 0, c.nserv);
      if g < c.nserv {
        SendThisKeeps(c, q.(servi := g + 1, try := q.try + 1), g, env);
      }
    }
  }

  /** Every accepted reply ends the query or leaves less to do. */
  lemma AnswerLowers(c: Config, q: Query, r: Reply, env: Env)
    requires c.Valid() && q.Valid(c) && r.s in q.wait && env.undefinedShift < WORD32
    ensures var t := Answer(c, q, r, env); t.Goes? ==> t.q.Valid(c) && Less(LeftOf(c, t.q), LeftOf(c, q))
  {
    hide GoodLabels, SendThis, Send, NextSrch, Less, LeftOf;
    assert |q.wait - {r.s}| < |q.wait|;
    var p := q.(wait := q.wait - {r.s});
    if r.rcode == NoError && !r.truncated && r.answers > 0 {
    } else if (r.rcode == NoError && !r.truncated) || r.rcode == NxDom {
      var n := NextSrch(c, p);
      NextSrchValid(c, p);
      if n.Goes? {
        var m := n.q.(nodata := p.nodata || r.rcode == NoError);
        SendLowers(c, m, env);
        FewerNames(c, q, m, Send(c, m, env));
      }
    } else if (r.rcode == FormErr || r.rcode == NotImpl) && c.edns && r.s !in p.noEdns {
      var m := p.(noEdns := p.noEdns + {r.s});
      SendThisKeeps(c, m, r.s, env);
      LessEdns(c, q, r.s, SendThis(c, m, r.s, env));
    } else {
      var t := p.(skip := p.skip + {r.s});
      if t.wait == {} {
        SendLowers(c, t, env);
        LessServers(c, q, t, Send(c, t, env));
      } else {
        LessWaits(c, q, t);
      }
    }
  }

  lemma FewerNames(c: Config, q: Query, m: Query, t: Step)
    requires c.Valid() && q.Valid(c) && m.Valid(c) && q.nxt < m.nxt <= |c.srch| + 1
    requires t.Goes? ==> t.q.Valid(c) && Less(LeftOf(c, t.q), LeftOf(c, m))
    ensures t.Goes? ==> Less(LeftOf(c, t.q), LeftOf(c, q))
  {
  }

  lemma LessEdns(c: Config, q: Query, s: nat, t: Step)
    requires c.Valid() && q.Valid(c) && s !in q.noEdns
    requires t.Goes? ==> t.q.Valid(c) && t.q.nxt == q.nxt && t.q.try == q.try && t.q.servi >= q.servi && t.q.noEdns == q.noEdns + {s}
    ensures t.Goes? ==> Less(LeftOf(c, t.q), LeftOf(c, q))
  {
  }

  lemma LessServers(c: Config, q: Query, m: Query, t: Step)
    requires c.Valid() && q.Valid(c) && m.Valid(c)
    requires m.nxt == q.nxt && m.try == q.try && m.servi == q.servi && m.noEdns == q.noEdns && |m.wait| < |q.wait|
    requires t.Goes? ==> t.q.Valid(c) && Less(LeftOf(c, t.q), LeftOf(c, m))
    ensures t.Goes? ==> Less(LeftOf(c, t.q), LeftOf(c, q))
  {
  }

  lemma LessWaits(c: Config, q: Query, m: Query)
    requires c.Valid() && q.Valid(c) && m.Valid(c)
    requires m.nxt == q.nxt && m.try == q.try && m.servi == q.servi && m.noEdns == q.noEdns && |m.wait| < |q.wait|
    ensures Less(LeftOf(c, m), LeftOf(c, q))
  {
  }

  // ---- how long a query can last ----

  /** What may happen to a query: its deadline passes, or a reply is accepted. */
  datatype Event = Timeout(env: Env) | Replied(r: Reply, env: Env)

  predicate Accepted(q: Query, e: Event) {
    e.env.undefinedShift < WORD32 && (e.Replied? ==> e.r.s in q.wait)
  }

  function StepOf(c: Config, q: Query, e: Event): Step
    requires c.Valid() && q.Valid(c) && Accepted(q, e)
  {
    match e
    case Timeout(env) => Send(c, q, env)
    case Replied(r, env) => Answer(c, q, r, env)
  }

  function Times(k: nat, n: nat): nat { k * n }

  function Pair(a: nat, n: nat, x: nat): nat { a * n + x }

  /** An upper bound for the number of events. */
  function Rank(c: Config, l: Left): nat {
    var n := c.nserv + 1;
    Pair(Pair(Pair(Pair(l.names, c.ntries + 1, l.tries), n, l.servers), n, l.edns), n, l.waits)
  }

  lemma Mixed(a: nat, b: nat, x: nat, y: nat, n: nat)
    requires x < n && y < n && (a < b || (a == b && x < y))
    ensures Pair(a, n, x) < Pair(b, n, y)
  {
    if a < b {
      assert (a + 1) * n <= b * n;
      assert (a + 1) * n == a * n + n;
    }
  }

  lemma RankLess(c: Config, a: Left, b: Left)
    requires Less(a, b) && a.tries <= c.ntries && b.tries <= c.ntries
    requires a.servers <= c.nserv && a.edns <= c.nserv && a.waits <= c.nserv
    requires b.servers <= c.nserv && b.edns <= c.nserv && b.waits <= c.nserv
    ensures Rank(c, a) < Rank(c, b)
  {
    hide Pair;
    var n, t := c.nserv + 1, c.ntries + 1;
    var a1, b1 := Pair(a.names, t, a.tries), Pair(b.names, t, b.tries);
    var a2, b2 := Pair(a1, n, a.servers), Pair(b1, n, b.servers);
    var a3, b3 := Pair(a2, n, a.edns), Pair(b2, n, b.edns);
    if a.names < b.names || (a.names == b.names && a.tries < b.tries) { Mixed(a.names, b.names, a.tries, b.tries, t); }
    if a1 < b1 || (a1 == b1 && a.servers < b.servers) { Mixed(a1, b1, a.servers, b.servers, n); }
    if a2 < b2 || (a2 == b2 && a.edns < b.edns) { Mixed(a2, b2, a.edns, b.edns, n); }
    Mixed(a3, b3, a.waits, b.waits, n);
  }

  /** A run of a query: every event was accepted and the query went on. */
  predicate Run(c: Config, q: Query, events: seq<Event>)
    requires c.Valid() && q.Valid(c)
    decreases |events|
  {
    events == [] ||
      (Accepted(q, events[0])
       && var t := StepOf(c, q, events[0]);
          t.Goes? && t.q.Valid(c) && Run(c, t.q, events[1..]))
  }

  lemma LeftBounds(c: Config, q: Query)
    requires c.Valid() && q.Valid(c)
    ensures var l := LeftOf(c, q); l.tries <= c.ntries && l.servers <= c.nserv && l.edns <= c.nserv && l.waits <= c.nserv
  {
    Bounded(q.wait, c.nserv);
  }

  /** Every query finishes: no run is longer than the rank of what is left at its start. */
  lemma {:induction false} EveryQueryEnds(c: Config, q: Query, events: seq<Event>)
    requires c.Valid() && q.Valid(c) && Run(c, q, events)
    ensures |events| <= Rank(c, LeftOf(c, q))
    decreases |events|
  {
    hide Rank, LeftOf, Less, Send, Answer;
    if events != [] {
      var t := StepOf(c, q, events[0]);
      match events[0] {
        case Timeout(env) => SendLowers(c, q, env);
        case Replied(r, env) => AnswerLowers(c, q, r, env);
      }
      LeftBounds(c, q);
      LeftBounds(c, t.q);
      RankLess(c, LeftOf(c, t.q), LeftOf(c, q));
      EveryQueryEnds(c, t.q, events[1..]);
    }
  }

  // ---- how often a query is sent ----

  /** How many times q can still be sent under its present name. */
  function Budget(c: Config, q: Query): nat
    requires c.Valid() && q.Valid(c)
  {
    Bounded(q.noEdns, c.nserv);
    Times(c.ntries - 1 - q.try, c.nserv) + (c.nserv - q.servi) + (c.nserv - |q.noEdns|)
  }

  /** At most so often for each name. */
  function Limit(c: Config): nat { Times(c.ntries + 1, c.nserv) }

  predicate SameSearch(q: Query, t: Query) {
    t.nxt == q.nxt && t.name == q.name && t.orig == q.orig && t.asis == q.asis && t.nodata == q.nodata
  }

  lemma SendThisCost(c: Config, q: Query, s: nat, env: Env)
    requires c.Valid() && q.Valid(c) && s < c.nserv && env.undefinedShift < WORD32
    ensures var t := SendThis(c, q, s, env); t.Goes? ==> t.q.Valid(c) && Budget(c, t.q) <= Budget(c, q) && SameSearch(q, t.q)
  {
    hide SendThis, Times, FindServ, GoodLabels;
    SendThisKeeps(c, q, s, env);
  }

  lemma NextServer(c: Config, q: Query, f: nat, again: bool)
    requires c.Valid() && q.Valid(c) && f < c.nserv && (again ==> q.try + 1 < c.ntries) && (!again ==> f >= q.servi)
    ensures var p := q.(servi := f + 1, try := q.try + if again then 1 else 0);
            p.Valid(c) && Budget(c, p) + 1 <= Budget(c, q) && SameSearch(q, p)
  {
    hide Times, GoodLabels;
    if again {
      NextRound(c.ntries - 1 - q.try, c.nserv);
    }
  }

  /** Every time q is sent, its budget falls. */
  lemma SendCosts(c: Config, q: Query, env: Env)
    requires c.Valid() && q.Valid(c) && env.undefinedShift < WORD32
    ensures var t := Send(c, q, env); t.Goes? ==> t.q.Valid(c) && Budget(c, t.q) + 1 <= Budget(c, q) && SameSearch(q, t.q)
  {
    hide GoodLabels, SendThis, Budget, FindServ;
    var f := FindServ(q.skip, q.servi, c.nserv);
    if f < c.nserv {
      NextServer(c, q, f, false);
      SendThisCost(c, q.(servi := f + 1), f, env);
    } else if q.try + 1 < c.ntries {
      var g := FindServ(q.skip, 0, c.nserv);
      if g < c.nserv {
        NextServer(c, q, g, true);
        SendThisCost(c, q.(servi := g + 1, try := q.try + 1), g, env);
      }
    }
  }

  lemma NextRound(k: nat, n: nat)
    requires k > 0
    ensures Times(k - 1, n) + n == Times(k, n)
  {
  }

  // ---- the search ----

  /** The names still to be tried. */
  function Plan(c: Config, orig: Labels, i: nat, asis: bool): seq<Labels>
    requires c.Valid() && GoodLabels(orig)
    decreases |c.srch| + 1 - i
  {
    if i > |c.srch| then []
    else if Usable(c, orig, i, asis) then [orig + Suffix(c, i)] + Plan(c, orig, i + 1, asis || Suffix(c, i) == [])
    else Plan(c, orig, i + 1, asis)
  }

  lemma {:induction false} NextIsPlanned(c: Config, q: Query)
    requires c.Valid() && q.Valid(c)
    ensures var n, plan := NextSrch(c, q), Plan(c, q.orig, q.nxt, q.asis);
            && (n.End? <==> plan == [])
            && (n.Goes? ==> plan == [n.q.name] + Plan(c, q.orig, n.q.nxt, n.q.asis))
    decreases |c.srch| + 1 - q.nxt
  {
    hide Usable, GoodLabels;
    if q.nxt <= |c.srch| && !Usable(c, q.orig, q.nxt, q.asis) {
      NextIsPlanned(c, q.(nxt := q.nxt + 1));
    }
  }

  /** The suffixes of the search list that fit, put behind the name. */
  function Suffixed(orig: Labels, srch: seq<Labels>): seq<Labels>
    requires GoodLabels(orig) && forall s <- srch :: GoodLabels(s)
  {
    if srch == [] then []
    else (if srch[0] != [] && |Wire(srch[0])| + |Wire0(orig)| <= MAXDN then [orig + srch[0]] else []) + Suffixed(orig, srch[1..])
  }

  /** Once the name was tried as it is, only suffixes follow, in the order of the list. */
  lemma {:induction false} PlanSuffixes(c: Config, orig: Labels, i: nat)
    requires c.Valid() && GoodLabels(orig) && i <= |c.srch|
    ensures Plan(c, orig, i, true) == Suffixed(orig, c.srch[i..])
    decreases |c.srch| - i
  {
    hide GoodLabels, Wire, Wire0;
    if i < |c.srch| {
      PlanSuffixes(c, orig, i + 1);
      assert c.srch[i..][1..] == c.srch[i + 1..];
    } else {
      assert c.srch[i..] == [];
      PlanEnd(c, orig, true);
    }
  }

  lemma PlanEnd(c: Config, orig: Labels, asis: bool)
    requires c.Valid() && GoodLabels(orig)
    ensures Plan(c, orig, |c.srch| + 1, asis) == []
    ensures asis ==> Plan(c, orig, |c.srch|, asis) == []
    ensures !asis && |Wire(orig)| <= MAXDN ==> Plan(c, orig, |c.srch|, asis) == [orig]
  {
    assert orig + [] == orig;
    assert Plan(c, orig, |c.srch| + 1, true) == [] == Plan(c, orig, |c.srch| + 1, false);
  }

  /** Otherwise it is tried as it is once: where the list has an empty suffix first, or at its end. */
  function AsIsAt(srch: seq<Labels>): (k: nat)
    ensures k <= |srch|
  {
    if srch == [] || srch[0] == [] then 0 else 1 + AsIsAt(srch[1..])
  }

  /** What one suffix adds. */
  function OneSuffixed(orig: Labels, s: Labels): seq<Labels>
    requires GoodLabels(orig) && GoodLabels(s)
  {
    if s != [] && |Wire(s)| + |Wire0(orig)| <= MAXDN then [orig + s] else []
  }

  lemma PlanStep(c: Config, orig: Labels, i: nat)
    requires c.Valid() && GoodLabels(orig) && i < |c.srch| && c.srch[i] != []
    ensures GoodLabels(c.srch[i]) && Plan(c, orig, i, false) == OneSuffixed(orig, c.srch[i]) + Plan(c, orig, i + 1, false)
  {
    hide Wire, Wire0, GoodLabels;
  }

  lemma PlanAtEmpty(c: Config, orig: Labels, i: nat)
    requires c.Valid() && GoodLabels(orig) && |Wire(orig)| <= MAXDN && i < |c.srch| && c.srch[i] == []
    ensures Plan(c, orig, i, false) == [orig] + Plan(c, orig, i + 1, true)
  {
    AsIsFits(orig);
    assert orig + [] == orig;
  }

  lemma SuffixedStep(orig: Labels, srch: seq<Labels>)
    requires GoodLabels(orig) && srch != [] && forall s <- srch :: GoodLabels(s)
    ensures Suffixed(orig, srch) == OneSuffixed(orig, srch[0]) + Suffixed(orig, srch[1..])
  {
  }

  lemma {:induction false} PlanAsIsOnce(c: Config, orig: Labels, i: nat)
    requires c.Valid() && GoodLabels(orig) && |Wire(orig)| <= MAXDN && i <= |c.srch|
    ensures var srch := c.srch[i..];
            var k := AsIsAt(srch);
            && (forall s <- srch[..k] :: GoodLabels(s) && s != []) && (forall s <- srch[k..] :: GoodLabels(s))
            && Plan(c, orig, i, false) == Suffixed(orig, srch[..k]) + [orig] + Suffixed(orig, srch[k..])
    decreases |c.srch| - i
  {
    hide GoodLabels, Wire, Wire0, Plan, OneSuffixed;
    var srch := c.srch[i..];
    var k := AsIsAt(srch);
    if i == |c.srch| {
      PlanEnd(c, orig, false);
      assert srch == [] && srch[..0] == [] && srch[0..] == [];
    } else if srch[0] == [] {
      assert srch[..0] == [] && srch[0..] == srch && srch[1..] == c.srch[i + 1..];
      PlanAtEmpty(c, orig, i);
      PlanSuffixes(c, orig, i + 1);
    } else {
      assert srch[1..] == c.srch[i + 1..];
      PlanAsIsOnce(c, orig, i + 1);
      PlanStep(c, orig, i);
      assert srch[..k][1..] == srch[1..][..k - 1] && srch[k..] == srch[1..][k - 1..] && srch[..k][0] == srch[0];
      SuffixedStep(orig, srch[..k]);
      Joined(OneSuffixed(orig, srch[0]), Suffixed(orig, srch[..k][1..]), [orig], Suffixed(orig, srch[k..]));
    }
  }

  lemma AsIsFits(orig: Labels)
    requires GoodLabels(orig) && |Wire(orig)| <= MAXDN
    ensures GoodLabels([]) && |Wire([])| + |Wire0(orig)| <= MAXDN
  {
  }

  lemma Joined(a: seq<Labels>, b: seq<Labels>, c: seq<Labels>, d: seq<Labels>)
    ensures a + (b + c + d) == (a + b) + c + d
  {
  }

  // ---- what a query went through ----

  /** The names tried, the definitive replies to all of them but the last, and how often that one was sent. */
  datatype Log = Log(tried: seq<Labels>, verdicts: seq<RCode>, sent: nat)

  /** The names are tried in order, each one sent not too often, and NODATA is remembered. */
  predicate Tracks(c: Config, order: seq<Labels>, q: Query, log: Log)
    requires c.Valid() && q.Valid(c)
  {
    && log.tried + Plan(c, q.orig, q.nxt, q.asis) == order
    && |log.tried| == |log.verdicts| + 1 && log.tried[|log.verdicts|] == q.name
    && (forall v <- log.verdicts :: v == NoError || v == NxDom)
    && (q.nodata <==> NoError in log.verdicts)
    && log.sent + Budget(c, q) <= Limit(c)
  }

  /** The order of the names: as it is first if it has more labels than ndots, or alone if no search is wanted. */
  function Order(c: Config, orig: Labels, nosrch: bool): seq<Labels>
    requires c.Valid() && GoodLabels(orig)
  {
    if nosrch then [orig]
    else if |orig| > c.ndots then [orig] + Plan(c, orig, 0, true)
    else Plan(c, orig, 0, false)
  }

  /** The query that dns_submit_dn makes. */
  function Submitted(c: Config, orig: Labels, nosrch: bool): Query
    requires c.Valid() && GoodLabels(orig)
  {
    var q := Query(orig, orig, 0, false, false, 0, {}, {}, {}, 0, 0);
    if nosrch || |orig| > c.ndots then q.(nxt := if nosrch then |c.srch| else 0, asis := true)
    else
      var n := NextSrch(c, q);
      if n.Goes? then n.q else q
  }

  lemma SubmittedTracks(c: Config, orig: Labels, nosrch: bool)
    requires c.Valid() && GoodLabels(orig) && |Wire(orig)| <= MAXDN
    ensures var q := Submitted(c, orig, nosrch);
            q.Valid(c) && q.deadline == 0 && Tracks(c, Order(c, orig, nosrch), q, Log([q.name], [], 0))
  {
    hide Usable, GoodLabels, Wire, NextSrch;
    var q := Query(orig, orig, 0, false, false, 0, {}, {}, {}, 0, 0);
    FullBudget(c);
    if nosrch || |orig| > c.ndots {
      PlanEnd(c, orig, true);
    } else {
      NextSrchValid(c, q);
      NextIsPlanned(c, q);
      PlanAsIsOnce(c, orig, 0);
      NextSrchDeadline(c, q);
    }
  }

  lemma {:induction false} NextSrchDeadline(c: Config, q: Query)
    requires c.Valid() && q.Valid(c)
    ensures NextSrch(c, q).Goes? ==> NextSrch(c, q).q.deadline == q.deadline
    decreases |c.srch| + 1 - q.nxt
  {
    hide Usable;
    if q.nxt <= |c.srch| && !Usable(c, q.orig, q.nxt, q.asis) {
      NextSrchDeadline(c, q.(nxt := q.nxt + 1));
    }
  }

  lemma FullBudget(c: Config)
    requires c.Valid()
    ensures Times(c.ntries - 1, c.nserv) + c.nserv + c.nserv == Limit(c)
  {
    NextRound(c.ntries, c.nserv);
    NextRound(c.ntries + 1, c.nserv);
  }

  /** The log after a reply. */
  function LogAfter(log: Log, q: Query, r: Reply, t: Query): Log {
    if t.nxt != q.nxt then Log(log.tried + [t.name], log.verdicts + [r.rcode], 1)
    else log.(sent := log.sent + if (r.rcode == FormErr || r.rcode == NotImpl) && r.s in t.noEdns && r.s !in q.noEdns then 1
                                 else if q.wait == {r.s} then 1 else 0)
  }

  lemma TracksSame(c: Config, order: seq<Labels>, q: Query, log: Log, t: Query, sent: nat)
    requires c.Valid() && q.Valid(c) && t.Valid(c) && Tracks(c, order, q, log)
    requires SameSearch(q, t) && sent + Budget(c, t) <= log.sent + Budget(c, q)
    ensures Tracks(c, order, t, log.(sent := sent))
  {
    hide Budget, Plan, Limit;
  }

  lemma TracksNew(c: Config, order: seq<Labels>, q: Query, log: Log, v: RCode, n: Query, t: Query)
    requires c.Valid() && q.Valid(c) && n.Valid(c) && t.Valid(c) && Tracks(c, order, q, log)
    requires Plan(c, q.orig, q.nxt, q.asis) == [n.name] + Plan(c, n.orig, n.nxt, n.asis) && n.nodata == (q.nodata || v == NoError)
    requires (v == NoError || v == NxDom) && SameSearch(n, t) && Budget(c, t) + 1 <= Budget(c, n) <= Limit(c)
    ensures Tracks(c, order, t, Log(log.tried + [n.name], log.verdicts + [v], 1))
  {
    hide Budget, Plan, Limit;
    var rest := Plan(c, n.orig, n.nxt, n.asis);
    assert log.tried + ([n.name] + rest) == log.tried + [n.name] + rest;
  }

  lemma NewBudget(c: Config, n: Query)
    requires c.Valid() && n.Valid(c) && n.try == 0 && n.servi == 0 && n.noEdns == {}
    ensures Budget(c, n) == Limit(c)
  {
    FullBudget(c);
  }

  lemma RefusalCosts(c: Config, q: Query, m: Query, s: nat)
    requires c.Valid() && q.Valid(c) && m.Valid(c) && s !in q.noEdns
    requires m.try == q.try && m.servi == q.servi && m.noEdns == q.noEdns + {s}
    ensures Budget(c, m) + 1 <= Budget(c, q)
  {
    hide Times;
  }

  lemma SameBudget(c: Config, q: Query, m: Query)
    requires c.Valid() && q.Valid(c) && m.Valid(c) && m.try == q.try && m.servi == q.servi && m.noEdns == q.noEdns
    ensures Budget(c, m) == Budget(c, q)
  {
    hide Times;
  }

  /** A definitive reply: the next name, or the end. */
  lemma NextTracks(c: Config, order: seq<Labels>, q: Query, log: Log, v: RCode, s: nat, env: Env)
    requires c.Valid() && q.Valid(c) && env.undefinedShift < WORD32 && Tracks(c, order, q, log) && (v == NoError || v == NxDom)
    ensures var p := q.(wait := q.wait - {s});
            var n := NextSrch(c, p);
            if n.End? then log.tried == order
            else
              var m := n.q.(nodata := p.nodata || v == NoError);
              m.Valid(c) && var t := Send(c, m, env);
              if t.End? then t.status == TempFail
              else t.q.Valid(c) && t.q.nxt > q.nxt && Tracks(c, order, t.q, Log(log.tried + [t.q.name], log.verdicts + [v], 1))
  {
    hide Usable, GoodLabels, Send, Budget, Limit, Plan;
    var p := q.(wait := q.wait - {s});
    var n := NextSrch(c, p);
    NextSrchValid(c, p);
    NextIsPlanned(c, p);
    if n.Goes? {
      var m := n.q.(nodata := p.nodata || v == NoError);
      NewBudget(c, m);
      SendCosts(c, m, env);
      var t := Send(c, m, env);
      if t.Goes? {
        TracksNew(c, order, q, log, v, m, t.q);
      } else {
        SendEnds(c, m, env);
      }
    }
  }

  /** NXDOMAIN means that every name of the order got NXDOMAIN, and NODATA that every name got a definitive reply,
      one of them without data; otherwise the names tried stay a prefix of the order. */
  lemma AnswerTracks(c: Config, order: seq<Labels>, q: Query, log: Log, r: Reply, env: Env)
    requires c.Valid() && q.Valid(c) && r.s in q.wait && env.undefinedShift < WORD32 && Tracks(c, order, q, log)
    ensures var t := Answer(c, q, r, env);
            match t
            case Goes(p) => p.Valid(c) && Tracks(c, order, p, LogAfter(log, q, r, p))
            case End(NxDomain) => log.tried == order && r.rcode == NxDom && forall v <- log.verdicts :: v == NxDom
            case End(NoData) => log.tried == order && (r.rcode == NoError || NoError in log.verdicts)
            case End(Parsed) => r.rcode == NoError && r.answers > 0
            case End(TempFail) => true
  {
    hide GoodLabels, Send, SendThis, NextSrch, Budget, Limit, Plan;
    var p := q.(wait := q.wait - {r.s});
    if r.rcode == NoError && !r.truncated && r.answers > 0 {
    } else if (r.rcode == NoError && !r.truncated) || r.rcode == NxDom {
      NextTracks(c, order, q, log, r.rcode, r.s, env);
    } else if (r.rcode == FormErr || r.rcode == NotImpl) && c.edns && r.s !in p.noEdns {
      var m := p.(noEdns := p.noEdns + {r.s});
      SendThisCost(c, m, r.s, env);
      SendThisKeeps(c, m, r.s, env);
      RefusalCosts(c, q, m, r.s);
      var t := SendThis(c, m, r.s, env);
      SendThisEnds(c, m, r.s, env);
      if t.Goes? {
        TracksSame(c, order, q, log, t.q, log.sent + 1);
      }
    } else {
      var m := p.(skip := p.skip + {r.s});
      SameBudget(c, q, m);
      if m.wait == {} {
        SendCosts(c, m, env);
        SendKeepsEdns(c, m, env);
        SendEnds(c, m, env);
        var t := Send(c, m, env);
        if t.Goes? {
          TracksSame(c, order, q, log, t.q, log.sent + 1);
        }
      } else {
        TracksSame(c, order, q, log, m, log.sent);
      }
    }
  }

  lemma SendKeepsEdns(c: Config, q: Query, env: Env)
    requires c.Valid() && q.Valid(c) && env.undefinedShift < WORD32
    ensures var t := Send(c, q, env); t.Goes? ==> t.q.noEdns == q.noEdns
  {
    hide GoodLabels, FindServ;
  }

  /** A timeout does not change the name. */
  lemma TimeoutTracks(c: Config, order: seq<Labels>, q: Query, log: Log, env: Env)
    requires c.Valid() && q.Valid(c) && env.undefinedShift < WORD32 && Tracks(c, order, q, log)
    ensures var t := Send(c, q, env);
            if t.Goes? then t.q.Valid(c) && Tracks(c, order, t.q, log.(sent := log.sent + 1)) else t.status == TempFail
  {
    hide GoodLabels, SendThis, Budget, Limit, Plan;
    SendCosts(c, q, env);
    var t := Send(c, q, env);
    if t.Goes? {
      TracksSame(c, order, q, log, t.q, log.sent + 1);
    } else {
      SendEnds(c, q, env);
    }
  }

  lemma SendThisEnds(c: Config, q: Query, s: nat, env: Env)
    requires c.Valid() && q.Valid(c) && s < c.nserv && env.undefinedShift < WORD32
    ensures var t := SendThis(c, q, s, env); t.End? ==> t.status == TempFail
  {
  }

  lemma SendEnds(c: Config, q: Query, env: Env)
    requires c.Valid() && q.Valid(c) && env.undefinedShift < WORD32
    ensures var t := Send(c, q, env); t.End? ==> t.status == TempFail
  {
    hide GoodLabels, FindServ;
  }

  /** A query is sent at most (ntries + 1) * nserv times for each name. */
  lemma SentAtMost(c: Config, order: seq<Labels>, q: Query, log: Log)
    requires c.Valid() && q.Valid(c) && Tracks(c, order, q, log)
    ensures log.sent <= (c.ntries + 1) * c.nserv
    ensures log.tried <= order
  {
    assert log.tried <= log.tried + Plan(c, q.orig, q.nxt, q.asis);
  }
}
