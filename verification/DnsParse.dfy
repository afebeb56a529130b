/** Going through the answer section of a packet. */
module DnsParse {

  import opened Basics
  import opened Buffers
  import opened DnsName
  import opened DnsPacket

  const T_CNAME := 5
  const ANY := 255               // DNS_T_ANY and DNS_C_ANY
  const MAX_TTL := 0xffff_ffff

  function Get16(pkt: Packet, at: nat): nat
    requires at + 2 <= |pkt|
  {
    256 * (pkt[at] as int) + pkt[at + 1] as int
  }

  function Get32(pkt: Packet, at: nat): nat
    requires at + 4 <= |pkt|
  {
    0x1_0000 * Get16(pkt, at) + Get16(pkt, at + 2)
  }

  /** A resource record: section 4.1.3 of RFC 1035. Its data is pkt[dptr..dend]. */
  datatype Rr = Rr(name: Labels, typ: nat, cls: nat, ttl: nat, dptr: nat, dend: nat)

  /** Something read from a packet, which may be malformed, or overrun the buffer for its name. */
  datatype Read<T> = Wrong | Overrun | Right(value: T)

  function RrAt(pkt: Packet, cur: nat): (r: Read<Rr>)
    ensures r.Right? ==> cur < r.value.dptr <= r.value.dend <= |pkt| && GoodName(r.value.name)
  {
    ExpandedIsGood(pkt, cur, 0, 0, [], MAXDN);
    match Expand(pkt, cur, MAXDN)
    case Expanded(ls, n) =>
      if n + 10 > |pkt| || n + 10 + Get16(pkt, n + 8) > |pkt| then Wrong
      else Right(Rr(ls, Get16(pkt, n), Get16(pkt, n + 2), Get32(pkt, n + 4), n + 10, n + 10 + Get16(pkt, n + 8)))
    case Overruns(_, _) => Overrun
    case _ => Wrong
  }

  /** The name at a place in the data of a record; it must end the data. */
  function NameAt(pkt: Packet, at: nat, rr: Rr): (n: Read<Labels>)
    ensures n.Right? ==> GoodName(n.value)
  {
    ExpandedIsGood(pkt, at, 0, 0, [], MAXDN);
    match Expand(pkt, at, MAXDN)
    case Expanded(ls, n) => if n == rr.dend then Right(ls) else Wrong
    case Overruns(_, _) => Overrun
    case _ => Wrong
  }

  /** The name a CNAME record stands for. */
  function CnameAt(pkt: Packet, rr: Rr): Read<Labels> {
    NameAt(pkt, rr.dptr, rr)
  }

  /** What is asked for: a type and a class, where 0 stands for any, and a name, if any. */
  datatype Query = Query(typ: nat, cls: nat)

  predicate Matches(rr: Rr, q: Query) {
    (q.cls == 0 || q.cls == rr.cls) && (q.typ == 0 || q.typ == rr.typ)
  }

  predicate Owns(name: Option<Labels>, rr: Rr) {
    name.None? || SameName(name.value, rr.name)
  }

  function Least(a: nat, b: nat): nat { if a > b then b else a }

  /** The parser between two records: where it is, how many records are left, how many were found,
      the TTL so far, the name that is sought now and whether that one was read from a CNAME. */
  datatype State = State(cur: nat, left: nat, nrr: nat, ttl: nat, name: Option<Labels>, moved: bool)

  // ---- the answer as a whole ----

  /** How going through the records ends: with the last one, or with one that is malformed or overruns a buffer. */
  datatype End = Complete | Failed(overrun: bool)

  /** The records found, those CNAMEs that were followed, the final name and TTL, and how it ended. */
  datatype Answer = Answer(found: seq<Rr>, followed: seq<Rr>, name: Option<Labels>, ttl: nat, end: End)

  /** A fold over the records: one that has the name and matches is found; a CNAME that has the name is followed,
      as long as nothing was found. */
  function Fold(pkt: Packet, s: State, q: Query): Answer
    decreases s.left
  {
    if s.left == 0 then Answer([], [], s.name, s.ttl, Complete)
    else match RrAt(pkt, s.cur)
      case Wrong => Answer([], [], s.name, s.ttl, Failed(false))
      case Overrun => Answer([], [], s.name, s.ttl, Failed(true))
      case Right(rr) =>
        var t := s.(cur := rr.dend, left := s.left - 1);
        if !Owns(s.name, rr) then Fold(pkt, t, q)
        else if Matches(rr, q) then
          var a := Fold(pkt, t.(nrr := s.nrr + 1, ttl := Least(s.ttl, rr.ttl)), q);
          a.(found := [rr] + a.found)
        else if s.name.Some? && rr.typ == T_CNAME && s.nrr == 0 then
          match CnameAt(pkt, rr)
          case Wrong => Answer([], [], s.name, s.ttl, Failed(false))
          case Overrun => Answer([], [], s.name, s.ttl, Failed(true))
          case Right(name) =>
            var a := Fold(pkt, t.(name := Some(name), moved := true, ttl := Least(s.ttl, rr.ttl)), q);
            a.(followed := [rr] + a.followed)
        else Fold(pkt, t, q)
  }

  function MinTtl(rrs: seq<Rr>): nat {
    if rrs == [] then MAX_TTL else Least(rrs[0].ttl, MinTtl(rrs[1..]))
  }

  predicate InOrder(rrs: seq<Rr>, from: nat) {
    rrs == [] || (rrs[0].dptr > from && InOrder(rrs[1..], rrs[0].dend))
  }

  /** CNAMEs that lead from one name to another, each owned by the name that the one before stands for. */
  predicate Chain(pkt: Packet, from: Option<Labels>, cnames: seq<Rr>, to: Option<Labels>)
    decreases |cnames|
  {
    if cnames == [] then to == from
    else
      && from.Some? && Owns(from, cnames[0]) && cnames[0].typ == T_CNAME
      && CnameAt(pkt, cnames[0]).Right? && Chain(pkt, Some(CnameAt(pkt, cnames[0]).value), cnames[1..], to)
  }

  /** What the answer says about itself. */
  predicate Sound(pkt: Packet, a: Answer, s: State, q: Query) {
    && Chain(pkt, s.name, a.followed, a.name)
    && (forall rr <- a.found :: Owns(a.name, rr) && Matches(rr, q))
    && InOrder(a.found, s.cur)
    && (s.nrr > 0 ==> a.followed == [])
    && a.ttl == Least(s.ttl, Least(MinTtl(a.found), MinTtl(a.followed)))
    && (a.name.None? <==> s.name.None?)
  }

  /** Whatever is found belongs to the final name and matches, in the order of the packet; nothing is followed
      any more once something is found; the TTL is the least of the records used. */
  lemma {:induction false} FoldIs(pkt: Packet, s: State, q: Query)
    requires s.ttl <= MAX_TTL
    ensures Sound(pkt, Fold(pkt, s, q), s, q)
    decreases s.left
  {
    hide RrAt, CnameAt, Owns, Matches, MinTtl, Sound, Expand;
    if s.left > 0 && RrAt(pkt, s.cur).Right? {
      var rr := RrAt(pkt, s.cur).value;
      var t := s.(cur := rr.dend, left := s.left - 1);
      var found := t.(nrr := s.nrr + 1, ttl := Least(s.ttl, rr.ttl));
      TtlBound(pkt, s.cur);
      if !Owns(s.name, rr) {
        FoldIs(pkt, t, q);
        SoundLater(pkt, Fold(pkt, t, q), s, t, q);
      } else if Matches(rr, q) {
        FoldIs(pkt, found, q);
        SoundFound(pkt, Fold(pkt, found, q), s, rr, found, q);
      } else if s.name.Some? && rr.typ == T_CNAME && s.nrr == 0 {
        if CnameAt(pkt, rr).Right? {
          var u := t.(name := Some(CnameAt(pkt, rr).value), moved := true, ttl := Least(s.ttl, rr.ttl));
          FoldIs(pkt, u, q);
          SoundFollowed(pkt, Fold(pkt, u, q), s, rr, u, q);
        } else {
          SoundEnd(pkt, s, q);
        }
      } else {
        FoldIs(pkt, t, q);
        SoundLater(pkt, Fold(pkt, t, q), s, t, q);
      }
    } else {
      SoundEnd(pkt, s, q);
    }
  }

  lemma TtlBound(pkt: Packet, cur: nat)
    ensures RrAt(pkt, cur).Right? ==> RrAt(pkt, cur).value.ttl <= MAX_TTL && RrAt(pkt, cur).value.dend > cur
  {
  }

  lemma SoundEnd(pkt: Packet, s: State, q: Query)
    requires s.ttl <= MAX_TTL
    ensures forall end: End :: Sound(pkt, Answer([], [], s.name, s.ttl, end), s, q)
  {
  }

  lemma SoundLater(pkt: Packet, a: Answer, s: State, t: State, q: Query)
    requires Sound(pkt, a, t, q) && s.cur <= t.cur && t == s.(cur := t.cur, left := t.left)
    ensures Sound(pkt, a, s, q)
  {
    hide Owns, Matches, MinTtl;
  }

  lemma SoundFound(pkt: Packet, a: Answer, s: State, rr: Rr, t: State, q: Query)
    requires t.nrr == s.nrr + 1 && t.name == s.name && t.ttl == Least(s.ttl, rr.ttl) && t.cur == rr.dend && s.cur < rr.dptr
    requires Sound(pkt, a, t, q) && Owns(s.name, rr) && Matches(rr, q)
    ensures Sound(pkt, a.(found := [rr] + a.found), s, q)
  {
    hide Owns, Matches;
    assert ([rr] + a.found)[1..] == a.found;
  }

  lemma SoundFollowed(pkt: Packet, a: Answer, s: State, rr: Rr, t: State, q: Query)
    requires s.nrr == 0 == t.nrr && s.name.Some? && t.ttl == Least(s.ttl, rr.ttl) && t.cur > s.cur
    requires Owns(s.name, rr) && rr.typ == T_CNAME && CnameAt(pkt, rr).Right? && t.name == Some(CnameAt(pkt, rr).value)
    requires Sound(pkt, a, t, q)
    ensures Sound(pkt, a.(followed := [rr] + a.followed), s, q)
  {
    hide Owns, Matches;
    assert ([rr] + a.followed)[1..] == a.followed;
  }

  lemma {:induction false} FoundInPacket(pkt: Packet, s: State, q: Query)
    ensures forall rr <- Fold(pkt, s, q).found :: rr.dptr <= rr.dend <= |pkt|
    decreases s.left
  {
    hide RrAt, CnameAt, Owns, Matches;
    if s.left > 0 && RrAt(pkt, s.cur).Right? {
      var rr := RrAt(pkt, s.cur).value;
      var t := s.(cur := rr.dend, left := s.left - 1);
      if !Owns(s.name, rr) {
        FoundInPacket(pkt, t, q);
      } else if Matches(rr, q) {
        FoundInPacket(pkt, t.(nrr := s.nrr + 1, ttl := Least(s.ttl, rr.ttl)), q);
      } else if s.name.Some? && rr.typ == T_CNAME && s.nrr == 0 {
        if CnameAt(pkt, rr).Right? {
          FoundInPacket(pkt, t.(name := Some(CnameAt(pkt, rr).value), moved := true, ttl := Least(s.ttl, rr.ttl)), q);
        }
      } else {
        FoundInPacket(pkt, t, q);
      }
    }
  }

  // ---- record by record ----

  datatype Next = Error(overrun: bool) | Done(after: State) | Found(rr: Rr, after: State)

  /** What dns_nextrr does. */
  function NextFrom(pkt: Packet, s: State, q: Query): Next
    decreases s.left
  {
    if s.left == 0 then Done(s)
    else match RrAt(pkt, s.cur)
      case Wrong => Error(false)
      case Overrun => Error(true)
      case Right(rr) =>
        var t := s.(cur := rr.dend, left := s.left - 1);
        if !Owns(s.name, rr) then NextFrom(pkt, t, q)
        else if Matches(rr, q) then Found(rr, t.(nrr := s.nrr + 1, ttl := Least(s.ttl, rr.ttl)))
        else if s.name.Some? && rr.typ == T_CNAME && s.nrr == 0 then
          match CnameAt(pkt, rr)
          case Wrong => Error(false)
          case Overrun => Error(true)
          case Right(name) => NextFrom(pkt, t.(name := Some(name), moved := true, ttl := Least(s.ttl, rr.ttl)), q)
        else NextFrom(pkt, t, q)
  }

  /** dns_nextrr, called again and again, goes through the fold. */
  lemma {:induction false} NextIsFold(pkt: Packet, s: State, q: Query)
    ensures var a := Fold(pkt, s, q);
            match NextFrom(pkt, s, q)
            case Error(overrun) => a.found == [] && a.end == Failed(overrun)
            case Done(t) =>
              && a.found == [] && a.end == Complete && a.name == t.name && a.ttl == t.ttl && t.left == 0 && t.nrr == s.nrr
              && t.moved == (s.moved || a.followed != [])
            case Found(rr, t) =>
              var b := Fold(pkt, t, q);
              && t.left < s.left && t.nrr == s.nrr + 1
              && (t.moved || b.followed != [] <==> s.moved || a.followed != [])
              && a.found == [rr] + b.found && a.end == b.end && a.name == b.name && a.ttl == b.ttl
    decreases s.left
  {
    if s.left > 0 && RrAt(pkt, s.cur).Right? {
      var rr := RrAt(pkt, s.cur).value;
      var t := s.(cur := rr.dend, left := s.left - 1);
      if !Owns(s.name, rr) {
        NextIsFold(pkt, t, q);
      } else if Matches(rr, q) {
      } else if s.name.Some? && rr.typ == T_CNAME && s.nrr == 0 {
        if CnameAt(pkt, rr).Right? {
          NextIsFold(pkt, t.(name := Some(CnameAt(pkt, rr).value), moved := true, ttl := Least(s.ttl, rr.ttl)), q);
        }
      } else {
        NextIsFold(pkt, t, q);
      }
    }
  }

  // ---- with the name settled ----

  /** The records of the section, as far as they are well-formed. */
  function Records(pkt: Packet, cur: nat, n: nat): seq<Rr>
    decreases n
  {
    if n == 0 || !RrAt(pkt, cur).Right? then []
    else [RrAt(pkt, cur).value] + Records(pkt, RrAt(pkt, cur).value.dend, n - 1)
  }

  function Selected(rrs: seq<Rr>, name: Option<Labels>, q: Query): seq<Rr> {
    if rrs == [] then []
    else (if Owns(name, rrs[0]) && Matches(rrs[0], q) then [rrs[0]] else []) + Selected(rrs[1..], name, q)
  }

  /** From the first match on, and if no name is sought, all records that have the name and match are found. */
  lemma {:induction false} FoundAll(pkt: Packet, s: State, q: Query)
    requires s.nrr > 0 || s.name.None?
    ensures Fold(pkt, s, q).found == Selected(Records(pkt, s.cur, s.left), s.name, q)
    ensures Fold(pkt, s, q).followed == [] && Fold(pkt, s, q).name == s.name
    decreases s.left
  {
    hide Owns, Matches, RrAt, CnameAt, Least, Selected, Records;
    OneMore(pkt, s.cur, s.left, s.name, q);
    if s.left > 0 && RrAt(pkt, s.cur).Right? {
      var rr := RrAt(pkt, s.cur).value;
      var t := s.(cur := rr.dend, left := s.left - 1);
      if Owns(s.name, rr) && Matches(rr, q) {
        FoundAll(pkt, t.(nrr := s.nrr + 1, ttl := Least(s.ttl, rr.ttl)), q);
      } else {
        FoundAll(pkt, t, q);
      }
    }
  }

  lemma OneMore(pkt: Packet, cur: nat, n: nat, name: Option<Labels>, q: Query)
    ensures Selected(Records(pkt, cur, n), name, q) ==
      if n == 0 || !RrAt(pkt, cur).Right? then []
      else
        var rr := RrAt(pkt, cur).value;
        (if Owns(name, rr) && Matches(rr, q) then [rr] else []) + Selected(Records(pkt, rr.dend, n - 1), name, q)
  {
    hide Owns, Matches, RrAt;
    if n > 0 && RrAt(pkt, cur).Right? {
      var rr := RrAt(pkt, cur).value;
      assert ([rr] + Records(pkt, rr.dend, n - 1))[1..] == Records(pkt, rr.dend, n - 1);
    }
  }

  /** Behind the first k records, the last of which is the last CNAME followed, just those that have the final name and
      match are found; the first of them, if a name read for a CNAME is malformed or overruns. */
  predicate FoundFrom(a: Answer, rrs: seq<Rr>, name: Option<Labels>, q: Query, k: nat) {
    && k <= |rrs| && a.found <= Selected(rrs[k..], a.name, q)
    && (a.end.Complete? ==> a.found == Selected(rrs[k..], a.name, q))
    && (if a.followed == [] then k == 0 && a.name == name else k > 0 && rrs[k - 1] == a.followed[|a.followed| - 1])
  }

  lemma NothingSelected(name: Option<Labels>, q: Query)
    ensures Selected([], name, q) == []
  {
  }

  lemma FromStart(a: Answer, name: Option<Labels>, q: Query, rrs: seq<Rr>)
    requires a.followed == [] && a.name == name
    requires a.found == Selected(rrs, name, q) || (a.found == [] && !a.end.Complete?)
    ensures FoundFrom(a, rrs, name, q, 0)
  {
    assert rrs[0..] == rrs;
  }

  /** One record more in front, which is not found. */
  lemma FromNext(a: Answer, rr: Rr, rest: seq<Rr>, name: Option<Labels>, q: Query, j: nat)
    requires FoundFrom(a, rest, name, q, j) && !(Owns(name, rr) && Matches(rr, q))
    ensures FoundFrom(a, [rr] + rest, name, q, if a.followed == [] then 0 else j + 1)
  {
    hide Owns, Matches;
    var rrs := [rr] + rest;
    assert rrs[1..] == rest && rrs[0..] == rrs && rest[0..] == rest && rrs[j + 1..] == rest[j..];
  }

  lemma FromFollowed(a: Answer, rr: Rr, rest: seq<Rr>, name: Option<Labels>, to: Option<Labels>, q: Query, j: nat)
    requires FoundFrom(a, rest, to, q, j)
    ensures FoundFrom(a.(followed := [rr] + a.followed), [rr] + rest, name, q, j + 1)
  {
    hide Owns, Matches, Selected;
    assert ([rr] + rest)[j + 1..] == rest[j..];
  }

  lemma {:induction false} FoundBehind(pkt: Packet, s: State, q: Query) returns (k: nat)
    ensures FoundFrom(Fold(pkt, s, q), Records(pkt, s.cur, s.left), s.name, q, k)
    decreases s.left
  {
    hide Owns, Matches, RrAt, CnameAt, FoundFrom, Selected;
    k := 0;
    if s.left == 0 || !RrAt(pkt, s.cur).Right? {
      NothingSelected(s.name, q);
      FromStart(Fold(pkt, s, q), s.name, q, []);
    } else {
      var rr := RrAt(pkt, s.cur).value;
      var t := s.(cur := rr.dend, left := s.left - 1);
      var rest := Records(pkt, rr.dend, s.left - 1);
      if Owns(s.name, rr) && Matches(rr, q) {
        MatchFound(pkt, s, q);
        FromStart(Fold(pkt, s, q), s.name, q, [rr] + rest);
      } else if Owns(s.name, rr) && s.name.Some? && rr.typ == T_CNAME && s.nrr == 0 {
        if CnameAt(pkt, rr).Right? {
          var u := t.(name := Some(CnameAt(pkt, rr).value), moved := true, ttl := Least(s.ttl, rr.ttl));
          var j := FoundBehind(pkt, u, q);
          FromFollowed(Fold(pkt, u, q), rr, rest, s.name, u.name, q, j);
          k := j + 1;
        } else {
          FromStart(Fold(pkt, s, q), s.name, q, [rr] + rest);
        }
      } else {
        var j := FoundBehind(pkt, t, q);
        FromNext(Fold(pkt, t, q), rr, rest, s.name, q, j);
        k := if Fold(pkt, t, q).followed == [] then 0 else j + 1;
      }
    }
  }

  lemma MatchFound(pkt: Packet, s: State, q: Query)
    requires s.left > 0 && RrAt(pkt, s.cur).Right? && Owns(s.name, RrAt(pkt, s.cur).value) && Matches(RrAt(pkt, s.cur).value, q)
    ensures var a := Fold(pkt, s, q);
            a.followed == [] && a.name == s.name && a.found == Selected(Records(pkt, s.cur, s.left), s.name, q)
  {
    hide Owns, Matches, RrAt, CnameAt;
    var rr := RrAt(pkt, s.cur).value;
    var u := s.(cur := rr.dend, left := s.left - 1, nrr := s.nrr + 1, ttl := Least(s.ttl, rr.ttl));
    FoundAll(pkt, u, q);
    assert ([rr] + Records(pkt, rr.dend, s.left - 1))[1..] == Records(pkt, rr.dend, s.left - 1);
  }

  // ---- packets that were encoded ----

  function Put16(n: nat): (s: seq<Byte>)
    requires n < 0x1_0000
    ensures |s| == 2
  {
    [n / 0x100, n % 0x100]
  }

  function Put32(n: nat): (s: seq<Byte>)
    requires n < 0x1_0000_0000
    ensures |s| == 4
  {
    [n / 0x100_0000, n / 0x1_0000 % 0x100, n / 0x100 % 0x100, n % 0x100]
  }

  /** A resource record before it is encoded. */
  datatype Record = Record(name: Labels, typ: nat, cls: nat, ttl: nat, data: seq<Byte>) {
    predicate Valid() {
      GoodName(name) && typ < 0x1_0000 && cls < 0x1_0000 && ttl < 0x1_0000_0000 && |data| < 0x1_0000
    }

    /** What comes behind the owner. */
    function Bytes(): (s: seq<Byte>)
      requires Valid()
      ensures |s| == 10 + |data|
    {
      Put16(typ) + Put16(cls) + Put32(ttl) + Put16(|data|) + data
    }
  }

  lemma Got16(pkt: Packet, at: nat, n: nat)
    requires n < 0x1_0000 && at <= |pkt| && Put16(n) <= pkt[at..]
    ensures at + 2 <= |pkt| && Get16(pkt, at) == n
  {
    assert pkt[at..][0] == Put16(n)[0] && pkt[at..][1] == Put16(n)[1];
  }

  lemma Got32(pkt: Packet, at: nat, n: nat)
    requires n < 0x1_0000_0000 && at <= |pkt| && Put32(n) <= pkt[at..]
    ensures at + 4 <= |pkt| && Get32(pkt, at) == n
  {
    hide Put32;
    Halves(n);
    Further(pkt, at, Put16(n / 0x1_0000), Put16(n % 0x1_0000));
    Got16(pkt, at, n / 0x1_0000);
    Got16(pkt, at + 2, n % 0x1_0000);
  }

  lemma Halves(n: nat)
    requires n < 0x1_0000_0000
    ensures n / 0x1_0000 < 0x1_0000 && Put32(n) == Put16(n / 0x1_0000) + Put16(n % 0x1_0000)
  {
    var h, l := n / 0x1_0000, n % 0x1_0000;
    assert n == 0x1_0000 * h + l;
    assert h / 0x100 == n / 0x100_0000 && l % 0x100 == n % 0x100;
    assert l / 0x100 == n / 0x100 % 0x100;
  }

  /** Of what stands at some place, the part behind a. */
  lemma Further(pkt: Packet, at: nat, a: seq<Byte>, b: seq<Byte>)
    requires at <= |pkt| && a + b <= pkt[at..]
    ensures a <= pkt[at..] && at + |a| <= |pkt| && b <= pkt[at + |a|..]
  {
    FirstPart(pkt[at..], a, b);
  }

  predicate ReadAs(pkt: Packet, rr: Rr, r: Record) {
    && rr.name == r.name && rr.typ == r.typ && rr.cls == r.cls && rr.ttl == r.ttl
    && rr.dptr <= rr.dend <= |pkt| && pkt[rr.dptr..rr.dend] == r.data
  }

  /** An encoded record is read back; its owner may be compressed. */
  lemma RrReadBack(pkt: Packet, cur: nat, r: Record, n: nat)
    requires r.Valid() && Denotes(pkt, cur, r.name, n) && n <= |pkt| && r.Bytes() <= pkt[n..]
    ensures var rr := Rr(r.name, r.typ, r.cls, r.ttl, n + 10, n + 10 + |r.data|);
            RrAt(pkt, cur) == Right(rr) && ReadAs(pkt, rr, r)
  {
    hide Denotes, Expand, Get16, Get32, Put16, Put32, Wire0;
    NameIsGood(r.name);
    ExpandedExactly(pkt, cur, MAXDN, r.name, n);
    var a, b, d, e := Put16(r.typ), Put16(r.cls), Put32(r.ttl), Put16(|r.data|);
    Further(pkt, n, a + b + d + e, r.data);
    Further(pkt, n, a + b + d, e);
    Further(pkt, n, a + b, d);
    Further(pkt, n, a, b);
    Got16(pkt, n, r.typ);
    Got16(pkt, n + 2, r.cls);
    Got32(pkt, n + 4, r.ttl);
    Got16(pkt, n + 8, |r.data|);
    assert pkt[n + 10..n + 10 + |r.data|] == pkt[n + 10..][..|r.data|];
  }

  /** Encoded records one after the other; starts are the places behind their owners. */
  ghost predicate Section(pkt: Packet, cur: nat, rs: seq<Record>, starts: seq<nat>)
    decreases |rs|
  {
    && |starts| == |rs|
    && (rs != [] ==> starts[0] <= |pkt| && InSection(pkt, cur, rs[0], starts[0])
                     && Section(pkt, starts[0] + 10 + |rs[0].data|, rs[1..], starts[1..]))
  }

  ghost predicate InSection(pkt: Packet, cur: nat, r: Record, start: nat)
    requires start <= |pkt|
  {
    r.Valid() && Denotes(pkt, cur, r.name, start) && r.Bytes() <= pkt[start..]
  }

  /** All records of an encoded section are read back. */
  lemma {:induction false} SectionReadBack(pkt: Packet, cur: nat, rs: seq<Record>, starts: seq<nat>)
    requires Section(pkt, cur, rs, starts)
    ensures var rrs := Records(pkt, cur, |rs|); |rrs| == |rs| && forall i :: 0 <= i < |rs| ==> ReadAs(pkt, rrs[i], rs[i])
    decreases |rs|
  {
    hide RrAt, ReadAs, Denotes, Put16, Put32, GoodName;
    if rs != [] {
      var r, n := rs[0], starts[0];
      RrReadBack(pkt, cur, r, n);
      SectionReadBack(pkt, n + 10 + |r.data|, rs[1..], starts[1..]);
      var rest := Records(pkt, n + 10 + |r.data|, |rs| - 1);
      var rrs := Records(pkt, cur, |rs|);
      assert rrs[0] == RrAt(pkt, cur).value && rrs[1..] == rest;
      forall i | 0 <= i < |rs| ensures ReadAs(pkt, rrs[i], rs[i]) {
        if i > 0 {
          assert rrs[i] == rest[i - 1] && rs[i] == rs[1..][i - 1];
        }
      }
    }
  }

  /** A packet with one question and encoded answers: section 4.1 of RFC 1035. */
  ghost predicate Reply(pkt: Packet, counts: seq<Byte>, question: Labels, typ: nat, cls: nat, rs: seq<Record>, starts: seq<nat>) {
    && |counts| == 4 && GoodName(question) && typ < 0x1_0000 && cls < 0x1_0000 && |rs| < 0x1_0000
    && HSIZE <= |pkt| && Put16(1) + Put16(|rs|) + counts <= pkt[4..]
    && Wire(question) + Put16(typ) + Put16(cls) <= pkt[HSIZE..]
    && Section(pkt, HSIZE + |Wire(question)| + 4, rs, starts)
  }

  /** It is parsed as it was encoded: the question, what is asked for, and all records. */
  lemma ReplyReadBack(pkt: Packet, counts: seq<Byte>, question: Labels, typ: nat, cls: nat, rs: seq<Record>, starts: seq<nat>,
                      name: Option<Labels>)
    requires Reply(pkt, counts, question, typ, cls, rs, starts)
    ensures GoodLabels(question) && HSIZE + |Wire(question)| + 4 <= |pkt|
    ensures var cur := HSIZE + |Wire(question)|;
            && Expand(pkt, HSIZE, MAXDN) == Expanded(question, cur)
            && (forall rr :: Matches(rr, Asked(pkt, cur)) <==>
                               (typ == 255 || typ == 0 || rr.typ == typ) && (cls == 255 || cls == 0 || rr.cls == cls))
            && var s := Initial(pkt, cur + 4, name);
               && s.name == name && s.nrr == 0 && s.ttl == 0xffff_ffff
               && var rrs := Records(pkt, s.cur, s.left);
                  |rrs| == |rs| && forall i :: 0 <= i < |rs| ==> ReadAs(pkt, rrs[i], rs[i])
  {
    hide Expand, Wire, Wire0, Put16, Get16, Section, ReadAs, Records, GoodLabels;
    NameIsGood(question);
    var cur := HSIZE + |Wire(question)|;
    Further(pkt, 4, Put16(1) + Put16(|rs|), counts);
    Further(pkt, 4, Put16(1), Put16(|rs|));
    Got16(pkt, 6, |rs|);
    Further(pkt, HSIZE, Wire(question) + Put16(typ), Put16(cls));
    Further(pkt, HSIZE, Wire(question), Put16(typ));
    Got16(pkt, cur, typ);
    Got16(pkt, cur + 2, cls);
    QuestionIs(pkt, question);
    SectionReadBack(pkt, cur + 4, rs, starts);
  }

  lemma QuestionIs(pkt: Packet, question: Labels)
    requires GoodName(question) && HSIZE <= |pkt| && Wire(question) <= pkt[HSIZE..]
    ensures Expand(pkt, HSIZE, MAXDN) == Expanded(question, HSIZE + |Wire(question)|)
  {
    hide ExpandFrom;
    Uncompressed(pkt, HSIZE, [], question, MAXDN);
    assert [] + question == question;
  }

  /** The TTL is that of some record, or the greatest there is if there are none, and no record has a smaller one. */
  lemma {:induction false} MinTtlIs(rrs: seq<Rr>)
    ensures forall rr <- rrs :: MinTtl(rrs) <= rr.ttl
    ensures MinTtl(rrs) == 0xffff_ffff || exists rr <- rrs :: rr.ttl == MinTtl(rrs)
    ensures MinTtl(rrs) <= 0xffff_ffff
  {
    if rrs != [] {
      MinTtlIs(rrs[1..]);
      assert rrs[0] in rrs;
    }
  }

  // ---- the program ----

  lemma NameIsGood(ls: Labels)
    ensures GoodName(ls) ==> GoodLabels(ls)
  {
  }

  /** A struct dns_rr: the owner is in wire form. */
  datatype RawRr = RawRr(owner: seq<Byte>, typ: nat, cls: nat, ttl: nat, dptr: nat, dend: nat)

  function Raw(rr: Rr): RawRr
    requires GoodLabels(rr.name)
  {
    RawRr(Wire(rr.name), rr.typ, rr.cls, rr.ttl, rr.dptr, rr.dend)
  }

  /** The fixed part of a record. */
  method ReadRr(pkt: Packet, cur: nat) returns (e: Read<RawRr>)
    ensures match RrAt(pkt, cur)
            case Wrong => e == Wrong
            case Overrun => e == Overrun
            case Right(rr) => e == Right(Raw(rr))
  {
    hide Expand, GoodName, Wire, Wire0;
    var dn := new Byte[MAXDN];
    var r, at, overrun := GetDn(pkt, cur, dn);
    if overrun {
      return Overrun;
    }
    if r <= 0 || at + 10 > |pkt| {
      return Wrong;
    }
    var dsz := Get16(pkt, at + 8);
    var rr := RawRr(dn[..r], Get16(pkt, at), Get16(pkt, at + 2), Get32(pkt, at + 4), at + 10, at + 10 + dsz);
    e := if rr.dend <= |pkt| then Right(rr) else Wrong;
  }

  /** A name that ends the data of a record, in wire form. */
  method ReadName(pkt: Packet, at: nat, dend: nat, ghost rr: Rr) returns (e: Read<seq<Byte>>)
    requires rr.dend == dend
    ensures match NameAt(pkt, at, rr)
            case Wrong => e == Wrong
            case Overrun => e == Overrun
            case Right(ls) => e == Right(Wire(ls))
  {
    hide Expand, GoodName, Wire, Wire0;
    var dn := new Byte[MAXDN];
    var r, next, overrun := GetDn(pkt, at, dn);
    if overrun {
      return Overrun;
    }
    e := if r <= 0 || next != dend then Wrong else Right(dn[..r]);
  }

  /** The target of a CNAME. */
  method ReadTarget(pkt: Packet, dptr: nat, dend: nat, ghost rr: Rr) returns (e: Read<seq<Byte>>)
    requires rr.dptr == dptr && rr.dend == dend
    ensures match CnameAt(pkt, rr)
            case Wrong => e == Wrong
            case Overrun => e == Overrun
            case Right(ls) => GoodName(ls) && e == Right(Wire(ls))
  {
    hide NameAt, GoodName, Wire;
    e := ReadName(pkt, dptr, dend, rr);
  }

  /** A struct dns_parse. */
  class Parser {
    const pkt: Packet
    const q: Query
    const ans: nat
    var cur: nat
    var rrl: nat
    var nrr: nat
    var ttl: nat
    var qdn: Option<seq<Byte>>   // in wire form
    var moved: bool              // whether qdn is dnbuf
    ghost var name: Option<Labels>

    ghost predicate Valid()
      reads this
    {
      && (qdn.Some? <==> name.Some?)
      && (name.Some? ==> GoodName(name.value) && qdn.value == Wire(name.value))
    }

    ghost function Now(): State
      reads this
    {
      State(cur, rrl, nrr, ttl, name, moved)
    }

    /** dns_initparse; cur is where the type and class of the question are */
    constructor (pkt: Packet, cur: nat, qdn: Option<seq<Byte>>, ghost name: Option<Labels>)
      requires cur + 4 <= |pkt| && |pkt| >= HSIZE
      requires (qdn.Some? <==> name.Some?) && (name.Some? ==> GoodName(name.value) && qdn.value == Wire(name.value))
      ensures Valid() && this.pkt == pkt && ans == cur + 4
      ensures q == Asked(pkt, cur) && Now() == Initial(pkt, cur + 4, name)
    {
      this.pkt := pkt;
      var typ, cls := Get16(pkt, cur), Get16(pkt, cur + 2);
      q := Query(if typ == ANY then 0 else typ, if cls == ANY then 0 else cls);
      ans, this.cur := cur + 4, cur + 4;
      rrl, nrr, ttl := Get16(pkt, 6), 0, MAX_TTL;
      this.qdn, this.name, moved := qdn, name, false;
    }

    /** dns_rewind */
    method Rewind(qdn: Option<seq<Byte>>, ghost name: Option<Labels>)
      requires |pkt| >= HSIZE
      requires (qdn.Some? <==> name.Some?) && (name.Some? ==> GoodName(name.value) && qdn.value == Wire(name.value))
      modifies this
      ensures Valid() && Now() == Initial(pkt, ans, name)
    {
      cur, rrl, ttl, nrr := ans, Get16(pkt, 6), MAX_TTL, 0;
      this.qdn, this.name, moved := qdn, name, false;
    }

    /** dns_nextrr, up to the first name that overruns its buffer */
    method NextRr() returns (r: int, rr: RawRr, overrun: bool)
      requires Valid()
      modifies this
      ensures match NextFrom(pkt, old(Now()), q)
              case Error(over) => overrun == over && r == -1
              case Done(t) => !overrun && r == 0 && Valid() && Now() == t
              case Found(g, t) => !overrun && r == 1 && Valid() && Now() == t && GoodName(g.name) && rr == Raw(g)
    {
      hide RrAt, CnameAt, NameAt, Wire, GoodName, GoodLabels, SameName;
      var at := cur;
      rr, overrun := RawRr([], 0, 0, 0, 0, 0), false;
      ghost var s := Now();
      while rrl > 0
        invariant Valid() && nrr == old(nrr) && s == State(at, rrl, nrr, ttl, name, moved)
        invariant !overrun && NextFrom(pkt, s, q) == NextFrom(pkt, old(Now()), q)
        decreases rrl
      {
        rrl := rrl - 1;
        var e := ReadRr(pkt, at);
        if !e.Right? {
          return -1, rr, e.Overrun?;
        }
        ghost var g := RrAt(pkt, at).value;
        rr := e.value;
        at := rr.dend;
        NameIsGood(g.name);
        if qdn.Some? {
          NameIsGood(name.value);
          var same := DnEqual(qdn.value, rr.owner, name.value, g.name);
          if same == 0 {
            s := State(at, rrl, nrr, ttl, name, moved);
            continue;
          }
        }
        if (q.cls == 0 || q.cls == rr.cls) && (q.typ == 0 || q.typ == rr.typ) {
          cur := at;
          nrr := nrr + 1;
          ttl := Least(ttl, rr.ttl);
          return 1, rr, false;
        }
        if qdn.Some? && rr.typ == T_CNAME && nrr == 0 {
          var f := ReadTarget(pkt, rr.dptr, rr.dend, g);
          if !f.Right? {
            return -1, rr, f.Overrun?;
          }
          qdn, name, moved := Some(f.value), Some(CnameAt(pkt, g).value), true;
          ttl := Least(ttl, rr.ttl);
        }
        s := State(at, rrl, nrr, ttl, name, moved);
      }
      cur := at;
      r := 0;
    }
  }

  /** The type and class of the question at cur. */
  function Asked(pkt: Packet, cur: nat): Query
    requires cur + 4 <= |pkt|
  {
    var typ, cls := Get16(pkt, cur), Get16(pkt, cur + 2);
    Query(if typ == ANY then 0 else typ, if cls == ANY then 0 else cls)
  }

  function Initial(pkt: Packet, ans: nat, name: Option<Labels>): State
    requires |pkt| >= HSIZE
  {
    State(ans, Get16(pkt, 6), 0, MAX_TTL, name, false)
  }
}
