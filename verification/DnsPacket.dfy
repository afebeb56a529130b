/** Compressed names in a packet: expanding and skipping them. */
module DnsPacket {

  import opened Basics
  import opened Buffers
  import opened DnsName

  const HSIZE := 12
  const JUMPS := 100     // the first jump and those that the loop counter allows

  type Packet = seq<Byte>

  /** How expanding a name ends; next is where the packet goes on after it. When it Overruns, the labels fill the room,
      and the end of the name is stored behind it nevertheless. */
  datatype Expanded = Malformed | Full | Overruns(labels: Labels, next: nat) | Expanded(labels: Labels, next: nat)

  /** A byte with one of its upper two bits set: a jump. */
  predicate IsJump(c: Byte) {
    c / 64 != 0
  }

  function Target(c: Byte, d: Byte): nat {
    256 * (c % 64) + d
  }

  /** The end of a name after the labels ls: there must be some room, but it may be used up. */
  function EndOfName(ls: Labels, next: nat, room: nat): (r: Expanded)
    requires GoodLabels(ls)
    ensures r.Expanded? || r.Overruns? ==> r.labels == ls && r.next == next
  {
    if room == 0 then Full
    else if |Wire0(ls)| >= room then Overruns(ls, next)
    else Expanded(ls, next)
  }

  /** The name at pp, after the labels ls and some jumps; after is where the packet goes on after the first
      jump. Section 4.1.4 of RFC 1035. */
  function ExpandFrom(pkt: Packet, pp: nat, jumps: nat, after: nat, ls: Labels, room: nat): (r: Expanded)
    requires jumps <= JUMPS && GoodLabels(ls)
    ensures r.Expanded? || r.Overruns? ==> GoodLabels(r.labels)
    decreases JUMPS - jumps, |pkt| - pp
  {
    if pp >= |pkt| then Malformed
    else
      var c := pkt[pp];
      if c == 0 then EndOfName(ls, if jumps == 0 then pp + 1 else after, room)
      else if IsJump(c) then
        if pp + 1 >= |pkt| || jumps == JUMPS || Target(c, pkt[pp + 1]) < HSIZE then Malformed
        else ExpandFrom(pkt, Target(c, pkt[pp + 1]), jumps + 1, if jumps == 0 then pp + 2 else after, ls, room)
      else if pp + 1 + c > |pkt| then Malformed
      else if |Wire0(ls)| + c + 1 > room then Full
      else ExpandFrom(pkt, pp + 1 + c, jumps, after, ls + [pkt[pp + 1..pp + 1 + c]], room)
  }

  /** The room for a name in a buffer of that size. */
  function NameRoom(size: nat): nat {
    if size < MAXDN then size else MAXDN
  }

  function Expand(pkt: Packet, cur: nat, size: nat): Expanded {
    ExpandFrom(pkt, cur, 0, 0, [], NameRoom(size))
  }

  lemma {:induction false} ExpandedIsGood(pkt: Packet, pp: nat, jumps: nat, after: nat, ls: Labels, room: nat)
    requires jumps <= JUMPS && GoodLabels(ls) && |Wire0(ls)| <= room && (jumps == 0 || after <= |pkt|)
    ensures var r := ExpandFrom(pkt, pp, jumps, after, ls, room);
            r.Expanded? || r.Overruns? ==>
              && GoodLabels(r.labels) && |Wire0(r.labels)| <= room && r.next <= |pkt|
              && (r.Overruns? <==> |Wire0(r.labels)| == room) && r.next > if jumps == 0 then pp else after - 1
    decreases JUMPS - jumps, |pkt| - pp
  {
    hide Wire0, GoodLabels, Target, EndOfName;
    ExpandStep(pkt, pp, jumps, after, ls, room);
    if pp < |pkt| && pkt[pp] == 0 {
      AtEndOfName(ls, if jumps == 0 then pp + 1 else after, room);
    } else if pp < |pkt| {
      var c := pkt[pp];
      if IsJump(c) {
        if !(pp + 1 >= |pkt| || jumps == JUMPS || Target(c, pkt[pp + 1]) < HSIZE) {
          ExpandedIsGood(pkt, Target(c, pkt[pp + 1]), jumps + 1, if jumps == 0 then pp + 2 else after, ls, room);
        }
      } else if pp + 1 + c <= |pkt| && |Wire0(ls)| + c + 1 <= room {
        var l := pkt[pp + 1..pp + 1 + c];
        Stored(ls, l);
        ExpandedIsGood(pkt, pp + 1 + c, jumps, after, ls + [l], room);
      }
    }
  }

  lemma EndsInRoom(ls: Labels, next: nat, room: nat)
    requires GoodLabels(ls) && |Wire0(ls)| <= room && room > 0
    ensures EndOfName(ls, next, room) == if |Wire0(ls)| == room then Overruns(ls, next) else Expanded(ls, next)
    ensures EndOfName(ls, next, room + 1) == Expanded(ls, next)
  {
  }

  /** With one more byte of room, a name that overruns is expanded. */
  lemma {:induction false} OneByteMore(pkt: Packet, pp: nat, jumps: nat, after: nat, ls: Labels, room: nat)
    requires jumps <= JUMPS && GoodLabels(ls) && |Wire0(ls)| <= room && room > 0
    ensures var r, more := ExpandFrom(pkt, pp, jumps, after, ls, room), ExpandFrom(pkt, pp, jumps, after, ls, room + 1);
            && (r.Overruns? <==> more.Expanded? && |Wire0(more.labels)| == room)
            && (r.Overruns? ==> more == Expanded(r.labels, r.next))
    decreases JUMPS - jumps, |pkt| - pp
  {
    hide Wire0, GoodLabels, Target, EndOfName;
    ExpandStep(pkt, pp, jumps, after, ls, room);
    ExpandStep(pkt, pp, jumps, after, ls, room + 1);
    if pp < |pkt| && pkt[pp] == 0 {
      EndsInRoom(ls, if jumps == 0 then pp + 1 else after, room);
    } else if pp < |pkt| {
      var c := pkt[pp];
      if IsJump(c) {
        if !(pp + 1 >= |pkt| || jumps == JUMPS || Target(c, pkt[pp + 1]) < HSIZE) {
          OneByteMore(pkt, Target(c, pkt[pp + 1]), jumps + 1, if jumps == 0 then pp + 2 else after, ls, room);
        }
      } else if pp + 1 + c <= |pkt| {
        var l := pkt[pp + 1..pp + 1 + c];
        Stored(ls, l);
        if |Wire0(ls)| + c + 1 <= room {
          OneByteMore(pkt, pp + 1 + c, jumps, after, ls + [l], room);
        } else if |Wire0(ls)| + c == room {
          LabelsFill(pkt, pp + 1 + c, jumps, after, ls + [l], room + 1);
        }
      }
    }
  }

  lemma {:induction false} LabelsFill(pkt: Packet, pp: nat, jumps: nat, after: nat, ls: Labels, room: nat)
    requires jumps <= JUMPS && GoodLabels(ls) && |Wire0(ls)| == room > 0
    ensures !ExpandFrom(pkt, pp, jumps, after, ls, room).Expanded?
    decreases JUMPS - jumps
  {
    hide Wire0, GoodLabels, Target;
    ExpandStep(pkt, pp, jumps, after, ls, room);
    if pp + 1 < |pkt| && pkt[pp] != 0 && IsJump(pkt[pp]) && jumps < JUMPS && Target(pkt[pp], pkt[pp + 1]) >= HSIZE {
      LabelsFill(pkt, Target(pkt[pp], pkt[pp + 1]), jumps + 1, if jumps == 0 then pp + 2 else after, ls, room);
    }
  }

  /** The end of a name is stored behind its room exactly if there is some room and the labels of the name fill it. */
  lemma OverrunExactly(pkt: Packet, cur: nat, size: nat)
    ensures var r, more := Expand(pkt, cur, size), ExpandFrom(pkt, cur, 0, 0, [], NameRoom(size) + 1);
            r.Overruns? <==> size > 0 && more.Expanded? && |Wire0(more.labels)| == NameRoom(size)
  {
    NoLabels();
    if size > 0 {
      OneByteMore(pkt, cur, 0, 0, [], NameRoom(size));
    } else {
      NoRoom(pkt, cur, 0, 0);
    }
  }

  lemma {:induction false} NoRoom(pkt: Packet, pp: nat, jumps: nat, after: nat)
    requires jumps <= JUMPS
    ensures var r := ExpandFrom(pkt, pp, jumps, after, [], 0); r == Full || r == Malformed
    decreases JUMPS - jumps
  {
    NoLabels();
    ExpandStep(pkt, pp, jumps, after, [], 0);
    if pp + 1 < |pkt| && pkt[pp] != 0 && IsJump(pkt[pp]) && jumps < JUMPS && Target(pkt[pp], pkt[pp + 1]) >= HSIZE {
      NoRoom(pkt, Target(pkt[pp], pkt[pp + 1]), jumps + 1, if jumps == 0 then pp + 2 else after);
    }
  }

  // ---- what a compressed name means ----

  /** A pointer to an offset behind the header: two bytes, the offset with some tag above its 14 bits. */
  predicate PointsTo(pkt: Packet, at: nat, t: nat) {
    HSIZE <= t < 0x4000 && at + 1 < |pkt| && pkt[at + 1] == t % 256
    && (pkt[at] == 192 + t / 256 || pkt[at] == 128 + t / 256 || pkt[at] == 64 + t / 256)
  }

  function Flat(ps: seq<Labels>): Labels {
    if ps == [] then [] else ps[0] + Flat(ps[1..])
  }

  /** At pp stands the first piece of a name, in wire form; behind it is a pointer to where the next piece stands, and so
      on. The last piece has the end of the name behind it. */
  predicate Stands(pkt: Packet, pp: nat, ps: seq<Labels>, ts: seq<nat>)
    decreases |ts|
  {
    && |ps| == |ts| + 1 && GoodLabels(ps[0]) && pp <= |pkt|
    && if ts == [] then Wire(ps[0]) <= pkt[pp..]
       else && Wire0(ps[0]) <= pkt[pp..] && PointsTo(pkt, pp + |Wire0(ps[0])|, ts[0])
            && Stands(pkt, ts[0], ps[1..], ts[1..])
  }

  /** Where the packet goes on after the name: behind its end, or behind the first pointer. */
  function Behind(pp: nat, ps: seq<Labels>, ts: seq<nat>): nat
    requires ps != [] && GoodLabels(ps[0])
  {
    pp + |Wire0(ps[0])| + if ts == [] then 1 else 2
  }

  /** The name ls stands at pp, with not too many pointers in it. */
  ghost predicate Denotes(pkt: Packet, pp: nat, ls: Labels, next: nat) {
    exists ps: seq<Labels>, ts: seq<nat> ::
      Stands(pkt, pp, ps, ts) && |ts| <= JUMPS && ls == Flat(ps) && next == Behind(pp, ps, ts)
  }

  lemma {:induction false} FlatGood(pkt: Packet, pp: nat, ps: seq<Labels>, ts: seq<nat>)
    requires Stands(pkt, pp, ps, ts)
    ensures GoodLabels(Flat(ps)) && GoodLabels(ps[0]) && |Wire0(ps[0])| <= |Wire0(Flat(ps))|
    ensures GoodLabels(Flat(ps[1..])) && Flat(ps) == ps[0] + Flat(ps[1..])
    ensures ts == [] ==> Flat(ps) == ps[0]
    decreases |ts|
  {
    hide Wire0, Wire;
    if ts == [] {
      assert ps[1..] == [] && ps[0] + [] == ps[0];
    } else {
      FlatGood(pkt, ts[0], ps[1..], ts[1..]);
    }
    WireConcat(ps[0], Flat(ps[1..]));
  }

  lemma JumpIs(pkt: Packet, at: nat, t: nat)
    ensures PointsTo(pkt, at, t) <==> at + 1 < |pkt| && IsJump(pkt[at]) && HSIZE <= t && Target(pkt[at], pkt[at + 1]) == t
  {
  }

  /** Labels in wire form are added one after the other, as far as there is room. */
  lemma {:induction false} Piece(pkt: Packet, pp: nat, jumps: nat, after: nat, done: Labels, ls: Labels, room: nat)
    requires jumps <= JUMPS && GoodLabels(done) && GoodLabels(ls) && pp <= |pkt| && Wire0(ls) <= pkt[pp..]
    requires |Wire0(done)| <= room
    ensures GoodLabels(done + ls) && pp + |Wire0(ls)| <= |pkt|
    ensures ExpandFrom(pkt, pp, jumps, after, done, room) ==
      if |Wire0(done)| + |Wire0(ls)| > room then Full
      else ExpandFrom(pkt, pp + |Wire0(ls)|, jumps, after, done + ls, room)
    decreases |ls|
  {
    hide Wire, Wire0, GoodLabels, Target, EndOfName;
    WireSizes(ls);
    if ls == [] {
      assert done + [] == done;
    } else {
      ExpandStep(pkt, pp, jumps, after, done, room);
      LabelInFront(pkt, pp, ls);
      FirstGood(ls);
      Stored(done, ls[0]);
      if |Wire0(done)| + 1 + |ls[0]| <= room {
        Piece(pkt, pp + 1 + |ls[0]|, jumps, after, done + [ls[0]], ls[1..], room);
        assert done + [ls[0]] + ls[1..] == done + ls;
      }
      WireConcat(done, ls);
    }
  }

  lemma LabelInFront(pkt: Packet, pp: nat, ls: Labels)
    requires GoodLabels(ls) && ls != [] && pp <= |pkt| && Wire0(ls) <= pkt[pp..]
    ensures var n := |ls[0]|;
            && 1 <= n <= MAXLABEL && pp + 1 + n <= |pkt| && pkt[pp] == n && pkt[pp + 1..pp + 1 + n] == ls[0]
            && !IsJump(pkt[pp]) && GoodLabels(ls[1..]) && Wire0(ls[1..]) <= pkt[pp + 1 + n..]
  {
    hide Wire0, GoodLabels;
    FirstGood(ls);
    var l, w := ls[0], Wire0(ls[1..]);
    InFront(pkt, pp, |l|, l, w);
  }

  /** A length, that many bytes, and more. */
  lemma InFront(pkt: Packet, pp: nat, n: Byte, l: Label, w: seq<Byte>)
    requires pp <= |pkt| && [n] + l + w <= pkt[pp..]
    ensures pp + 1 + |l| <= |pkt| && pkt[pp] == n && pkt[pp + 1..pp + 1 + |l|] == l && w <= pkt[pp + 1 + |l|..]
  {
    FirstPart(pkt[pp..], [n] + l, w);
    assert pkt[pp..][0] == ([n] + l)[0];
    assert pkt[pp + 1..pp + 1 + |l|] == pkt[pp..][..1 + |l|][1..] == ([n] + l)[1..] == l;
  }

  lemma FirstPart(s: seq<Byte>, a: seq<Byte>, b: seq<Byte>)
    requires a + b <= s
    ensures |a| <= |s| && s[..|a|] == a && b <= s[|a|..]
  {
    assert s[..|a|] == (a + b)[..|a|] == a;
    assert s[|a|..][..|b|] == s[..|a| + |b|][|a|..] == (a + b)[|a|..] == b;
  }

  lemma EndIs(pkt: Packet, pp: nat, ls: Labels)
    requires GoodLabels(ls) && pp <= |pkt| && Wire(ls) <= pkt[pp..]
    ensures Wire0(ls) <= pkt[pp..] && pp + |Wire0(ls)| < |pkt| && pkt[pp + |Wire0(ls)|] == 0
  {
    var w := Wire(ls);
    assert pkt[pp..][..|w|] == w && w[|Wire0(ls)|] == 0;
    assert pkt[pp..][..|Wire0(ls)|] == w[..|Wire0(ls)|];
  }

  /** A name is read as it stands, whatever pointers are in it: if it fits, and unless these are too many. */
  lemma {:induction false} ReadAsStands(pkt: Packet, pp: nat, jumps: nat, after: nat, done: Labels, ps: seq<Labels>, ts: seq<nat>,
                                        room: nat)
    requires jumps <= JUMPS && GoodLabels(done) && Stands(pkt, pp, ps, ts) && |Wire0(done)| <= room
    ensures GoodLabels(Flat(ps)) && GoodLabels(ps[0])
    ensures var r, n := ExpandFrom(pkt, pp, jumps, after, done, room), |Wire0(done)| + |Wire0(Flat(ps))|;
            if jumps + |ts| > JUMPS then r == Malformed || r == Full
            else r == if n > room || room == 0 then Full
                      else if n == room then Overruns(done + Flat(ps), if jumps == 0 then Behind(pp, ps, ts) else after)
                      else Expanded(done + Flat(ps), if jumps == 0 then Behind(pp, ps, ts) else after)
    decreases |ts|
  {
    hide Wire, Wire0, GoodLabels, EndOfName, PointsTo, ExpandFrom, Flat;
    FlatGood(pkt, pp, ps, ts);
    if ts == [] {
      LastPiece(pkt, pp, jumps, after, done, ps[0], room);
    } else {
      FirstPiece(pkt, pp, jumps, after, done, ps[0], Flat(ps[1..]), ts[0], room);
      if |Wire0(done)| + |Wire0(ps[0])| <= room && jumps < JUMPS {
        ReadAsStands(pkt, ts[0], jumps + 1, if jumps == 0 then Behind(pp, ps, ts) else after, done + ps[0], ps[1..], ts[1..], room);
      }
    }
  }

  /** The labels in front of a pointer, and the jump. */
  lemma FirstPiece(pkt: Packet, pp: nat, jumps: nat, after: nat, done: Labels, ls: Labels, more: Labels, t: nat, room: nat)
    requires jumps <= JUMPS && GoodLabels(done) && |Wire0(done)| <= room
    requires GoodLabels(ls) && GoodLabels(more) && pp <= |pkt| && Wire0(ls) <= pkt[pp..] && PointsTo(pkt, pp + |Wire0(ls)|, t)
    ensures ExpandFrom(pkt, pp, jumps, after, done, room) ==
      if |Wire0(done)| + |Wire0(ls)| > room then Full
      else if jumps == JUMPS then Malformed
      else ExpandFrom(pkt, t, jumps + 1, if jumps == 0 then pp + |Wire0(ls)| + 2 else after, done + ls, room)
    ensures GoodLabels(done + ls) && |Wire0(done + ls)| == |Wire0(done)| + |Wire0(ls)|
    ensures GoodLabels(ls + more) && |Wire0(ls + more)| == |Wire0(ls)| + |Wire0(more)| && done + ls + more == done + (ls + more)
  {
    hide Wire, Wire0, GoodLabels, EndOfName, PointsTo, ExpandFrom;
    WireConcat(ls, more);
    WireConcat(done, ls);
    Piece(pkt, pp, jumps, after, done, ls, room);
    if |Wire0(done)| + |Wire0(ls)| <= room {
      Jump(pkt, pp + |Wire0(ls)|, jumps, after, done + ls, t, room);
    }
  }

  lemma LastPiece(pkt: Packet, pp: nat, jumps: nat, after: nat, done: Labels, ls: Labels, room: nat)
    requires jumps <= JUMPS && GoodLabels(done) && |Wire0(done)| <= room
    requires GoodLabels(ls) && pp <= |pkt| && Wire(ls) <= pkt[pp..]
    ensures var n, next := |Wire0(done)| + |Wire0(ls)|, if jumps == 0 then pp + |Wire0(ls)| + 1 else after;
            ExpandFrom(pkt, pp, jumps, after, done, room) == if n > room || room == 0 then Full
                                                             else if n == room then Overruns(done + ls, next)
                                                             else Expanded(done + ls, next)
  {
    hide Wire, Wire0, GoodLabels, Target, EndOfName;
    EndIs(pkt, pp, ls);
    Piece(pkt, pp, jumps, after, done, ls, room);
    WireConcat(done, ls);
    var at := pp + |Wire0(ls)|;
    if |Wire0(done)| + |Wire0(ls)| <= room {
      ExpandStep(pkt, at, jumps, after, done + ls, room);
      AtEndOfName(done + ls, if jumps == 0 then at + 1 else after, room);
    }
  }

  lemma Jump(pkt: Packet, at: nat, jumps: nat, after: nat, done: Labels, t: nat, room: nat)
    requires jumps <= JUMPS && GoodLabels(done) && PointsTo(pkt, at, t)
    ensures ExpandFrom(pkt, at, jumps, after, done, room) ==
      if jumps == JUMPS then Malformed
      else ExpandFrom(pkt, t, jumps + 1, if jumps == 0 then at + 2 else after, done, room)
  {
    hide Wire0, GoodLabels, Target, EndOfName, PointsTo;
    JumpIs(pkt, at, t);
    NotTheEnd(pkt[at]);
    ExpandStep(pkt, at, jumps, after, done, room);
  }

  lemma NotTheEnd(c: Byte)
    ensures IsJump(c) ==> c != 0
  {
  }

  /** A name is expanded exactly if it stands there, with at most 100 pointers, and fits. */
  lemma ExpandedExactly(pkt: Packet, cur: nat, size: nat, ls: Labels, next: nat)
    ensures Expand(pkt, cur, size) == Expanded(ls, next) <==>
              Denotes(pkt, cur, ls, next) && GoodLabels(ls) && |Wire0(ls)| < NameRoom(size)
  {
    hide Wire, Wire0, GoodLabels, ExpandFrom;
    NoLabels();
    if Denotes(pkt, cur, ls, next) {
      var ps: seq<Labels>, ts: seq<nat> :|
        Stands(pkt, cur, ps, ts) && |ts| <= JUMPS && ls == Flat(ps) && next == Behind(cur, ps, ts);
      ReadAsStands(pkt, cur, 0, 0, [], ps, ts, NameRoom(size));
      assert [] + ls == ls;
    }
    if Expand(pkt, cur, size) == Expanded(ls, next) {
      ExpandedIsGood(pkt, cur, 0, 0, [], NameRoom(size));
      var ps, ts := PiecesOf(pkt, cur, 0, 0, [], NameRoom(size));
      assert [] + Flat(ps) == Flat(ps);
    }
  }

  lemma {:induction false} PiecesOf(pkt: Packet, pp: nat, jumps: nat, after: nat, done: Labels, room: nat)
    returns (ps: seq<Labels>, ts: seq<nat>)
    requires jumps <= JUMPS && GoodLabels(done) && ExpandFrom(pkt, pp, jumps, after, done, room).Expanded?
    ensures Stands(pkt, pp, ps, ts) && jumps + |ts| <= JUMPS
    ensures var r := ExpandFrom(pkt, pp, jumps, after, done, room);
            r.labels == done + Flat(ps) && r.next == if jumps == 0 then Behind(pp, ps, ts) else after
    decreases JUMPS - jumps, |pkt| - pp
  {
    hide Wire, Wire0, GoodLabels, Target, EndOfName, PointsTo, ExpandFrom, Stands, Flat, Behind;
    ExpandStep(pkt, pp, jumps, after, done, room);
    var c := pkt[pp];
    if c == 0 {
      ps, ts := [[]], [];
      EndStands(pkt, pp);
      EndsAt(done, if jumps == 0 then pp + 1 else after, room);
      assert done + [] == done;
    } else if IsJump(c) {
      var t := Target(c, pkt[pp + 1]);
      JumpIs(pkt, pp, t);
      var ps1, ts1 := PiecesOf(pkt, t, jumps + 1, if jumps == 0 then pp + 2 else after, done, room);
      ps, ts := [[]] + ps1, [t] + ts1;
      PointerStands(pkt, pp, t, ps1, ts1);
    } else {
      var l := pkt[pp + 1..pp + 1 + c];
      var ps1, ts1 := PiecesOf(pkt, pp + 1 + c, jumps, after, done + [l], room);
      StandsFirst(pkt, pp + 1 + c, ps1, ts1);
      ps, ts := [[l] + ps1[0]] + ps1[1..], ts1;
      LabelStands(pkt, pp, l, ps1, ts1);
      Assoc(done, [l], Flat(ps1));
    }
  }

  lemma EndStands(pkt: Packet, pp: nat)
    requires pp < |pkt| && pkt[pp] == 0
    ensures Stands(pkt, pp, [[]], []) && Flat([[]]) == [] && Behind(pp, [[]], []) == pp + 1
  {
    assert Wire([]) == [0];
    var ps: seq<Labels> := [[]];
    assert ps[1..] == [] && ps[0] + [] == [];
  }

  lemma PointerStands(pkt: Packet, pp: nat, t: nat, ps: seq<Labels>, ts: seq<nat>)
    requires PointsTo(pkt, pp, t) && Stands(pkt, t, ps, ts)
    ensures var qs, us := [[]] + ps, [t] + ts; Stands(pkt, pp, qs, us) && Flat(qs) == Flat(ps) && Behind(pp, qs, us) == pp + 2
  {
    NoLabels();
    var qs, us := [[]] + ps, [t] + ts;
    assert qs[0] == [] && qs[1..] == ps && us[0] == t && us[1..] == ts;
    assert Flat(qs) == [] + Flat(ps);
  }

  lemma EndsAt(ls: Labels, next: nat, room: nat)
    requires GoodLabels(ls) && EndOfName(ls, next, room).Expanded?
    ensures EndOfName(ls, next, room) == Expanded(ls, next)
  {
  }

  lemma StandsFirst(pkt: Packet, pp: nat, ps: seq<Labels>, ts: seq<nat>)
    requires Stands(pkt, pp, ps, ts)
    ensures ps != [] && GoodLabels(ps[0])
  {
  }

  lemma LabelStands(pkt: Packet, pp: nat, l: Label, ps: seq<Labels>, ts: seq<nat>)
    requires 1 <= |l| <= MAXLABEL && pp + 1 + |l| <= |pkt| && pkt[pp] == |l| && l == pkt[pp + 1..pp + 1 + |l|]
    requires Stands(pkt, pp + 1 + |l|, ps, ts)
    ensures var qs := [[l] + ps[0]] + ps[1..];
            && Stands(pkt, pp, qs, ts) && Flat(qs) == [l] + Flat(ps)
            && Behind(pp, qs, ts) == Behind(pp + 1 + |l|, ps, ts)
  {
    hide PointsTo, GoodLabels;
    var qs := [[l] + ps[0]] + ps[1..];
    OneLabel(l);
    WireConcat([l], ps[0]);
    assert qs[1..] == ps[1..] && qs[0] == [l] + ps[0];
    Assoc([l], ps[0], Flat(ps[1..]));
    Joins(pkt, pp, Wire0([l]), if ts == [] then Wire(ps[0]) else Wire0(ps[0]));
    Assoc(Wire0([l]), Wire0(ps[0]), [0]);
  }

  lemma Joins(pkt: Packet, pp: nat, a: seq<Byte>, b: seq<Byte>)
    requires pp + |a| <= |pkt| && pkt[pp..pp + |a|] == a && b <= pkt[pp + |a|..]
    ensures a + b <= pkt[pp..]
  {
    assert pkt[pp..][..|a| + |b|] == pkt[pp..pp + |a|] + pkt[pp + |a|..][..|b|];
  }

  /** A name that stands in the packet without jumps is read as it is. */
  lemma Uncompressed(pkt: Packet, pp: nat, done: Labels, ls: Labels, room: nat)
    requires GoodLabels(done) && GoodLabels(ls) && pp <= |pkt| && Wire(ls) <= pkt[pp..]
    requires |Wire0(done)| + |Wire0(ls)| <= room && room > 0
    ensures ExpandFrom(pkt, pp, 0, 0, done, room) ==
      if |Wire0(done)| + |Wire0(ls)| < room then Expanded(done + ls, pp + |Wire(ls)|) else Overruns(done + ls, pp + |Wire(ls)|)
  {
    hide Wire, Wire0, GoodLabels, ExpandFrom;
    WireSizes(ls);
    assert [ls][1..] == [] && Flat([ls]) == ls + Flat([]) == ls;
    ReadAsStands(pkt, pp, 0, 0, done, [ls], [], room);
  }

  /** With one pointer: the labels here, and the name at its offset. */
  lemma OnePointer(pkt: Packet, pp: nat, ls: Labels, t: nat, more: Labels, size: nat)
    requires GoodLabels(ls) && GoodLabels(more) && pp <= |pkt| && HSIZE <= t < 0x4000 && t <= |pkt|
    requires Wire0(ls) + [192 + t / 256, t % 256] <= pkt[pp..] && Wire(more) <= pkt[t..]
    requires |Wire0(ls)| + |Wire0(more)| < NameRoom(size)
    ensures Expand(pkt, pp, size) == Expanded(ls + more, pp + |Wire0(ls)| + 2)
  {
    hide Wire, Wire0, GoodLabels, ExpandFrom;
    var w := Wire0(ls) + [192 + t / 256, t % 256];
    assert pkt[pp..][..|w|] == w && pkt[pp..][|w| - 2] == w[|w| - 2] && pkt[pp..][|w| - 1] == w[|w| - 1];
    assert pkt[pp..][..|w| - 2] == w[..|w| - 2] == Wire0(ls);
    assert [ls, more][1..] == [more] && [t][1..] == [] && [more][1..] == [];
    assert Flat([more]) == more + Flat([]) == more;
    assert Flat([ls, more]) == ls + more;
    assert Stands(pkt, t, [more], []);
    NoLabels();
    ReadAsStands(pkt, pp, 0, 0, [], [ls, more], [t], NameRoom(size));
    WireConcat(ls, more);
    assert [] + (ls + more) == ls + more;
  }

  lemma FirstGood(ls: Labels)
    requires GoodLabels(ls) && ls != []
    ensures 1 <= |ls[0]| <= MAXLABEL && GoodLabels(ls[1..])
    ensures |Wire0(ls)| == 1 + |ls[0]| + |Wire0(ls[1..])| && Wire0(ls) == [|ls[0]|] + ls[0] + Wire0(ls[1..])
  {
  }

  lemma WireSizes(ls: Labels)
    requires GoodLabels(ls)
    ensures |Wire(ls)| == |Wire0(ls)| + 1 && (ls == [] ==> |Wire0(ls)| == 0)
  {
  }

  /** A name that overruns: labels of 255 bytes in all, as their lengths count too. */
  lemma OverrunExample(header: seq<Byte>, a: Label, b: Label)
    requires |header| == HSIZE && |a| == 63 && |b| == 62
    ensures GoodLabels([a, a, a, b]) && Expand(header + Wire([a, a, a, b]), HSIZE, MAXDN).Overruns?
  {
    var ls := [a, a, a, b];
    assert ls[1..] == [a, a, b] && ls[1..][1..] == [a, b] && ls[1..][1..][1..] == [b];
    FirstGood(ls);
    FirstGood(ls[1..]);
    FirstGood(ls[1..][1..]);
    FirstGood([b]);
    WireSizes([]);
    var pkt := header + Wire(ls);
    assert pkt[HSIZE..] == Wire(ls);
    Uncompressed(pkt, HSIZE, [], ls, MAXDN);
    assert [] + ls == ls;
  }

  /** dns_getdn. A store behind the room for the name, which is behind the buffer unless that is larger than DNS_MAXDN,
      is reported. */
  method GetDn(pkt: Packet, cur: nat, dn: array<Byte>) returns (r: int, next: nat, overrun: bool)
    modifies dn
    ensures match Expand(pkt, cur, dn.Length)
            case Malformed => r == -1 && !overrun
            case Full => r == (if dn.Length < MAXDN then 0 else -1) && !overrun
            case Overruns(ls, n) =>
              && overrun && |Wire0(ls)| == NameRoom(dn.Length) && r == |Wire(ls)| && next == n <= |pkt| && n > cur
              && (if dn.Length <= MAXDN then dn[..] == Wire0(ls) else dn[..r] == Wire(ls))
            case Expanded(ls, n) =>
              && !overrun && GoodName(ls) && 1 <= r <= dn.Length && dn[..r] == Wire(ls) && next == n <= |pkt| && n > cur
    ensures dn.Length == 0 ==> r <= 0 && !overrun
    ensures forall ls: Labels, n: nat :: Denotes(pkt, cur, ls, n) && GoodLabels(ls) && |Wire0(ls)| < NameRoom(dn.Length) ==>
              !overrun && r == |Wire(ls)| && dn[..r] == Wire(ls) && next == n
    ensures r > 0 && !overrun ==> exists ls: Labels :: Denotes(pkt, cur, ls, next) && GoodLabels(ls) && dn[..r] == Wire(ls)
  {
    hide GoodLabels, Wire0, Wire, ExpandFrom, Target, IsJump, EndOfName, Denotes;
    AllExact(pkt, cur, dn.Length);
    var de := NameRoom(dn.Length);
    var pp: nat, dp: nat, loop: nat := cur, 0, JUMPS;
    var jump: Option<nat> := None;
    ghost var ls: Labels := [];
    NoLabels();
    ExpandedIsGood(pkt, cur, 0, 0, [], de);
    OverrunExactly(pkt, cur, dn.Length);
    next, overrun := 0, false;
    while true
      invariant 1 <= loop <= JUMPS && (jump.None? ==> loop == JUMPS)
      invariant GoodLabels(ls) && dp == |Wire0(ls)| <= de && dn[..dp] == Wire0(ls)
      invariant var j, a := Jumps(jump, loop), After(jump);
        Expand(pkt, cur, dn.Length) == ExpandFrom(pkt, pp, j, a, ls, de)
      decreases JUMPS - Jumps(jump, loop), |pkt| - pp
    {
      ExpandStep(pkt, pp, Jumps(jump, loop), After(jump), ls, de);
      if pp >= |pkt| {
        return -1, next, false;
      }
      var c := pkt[pp];
      pp := pp + 1;
      if c == 0 {
        AtEndOfName(ls, if jump.Some? then jump.value else pp, de);
        if de == 0 {
          return if dn.Length < MAXDN then 0 else -1, next, false;
        }
        if dp < dn.Length {
          dn[dp] := 0;
          assert dn[..dp + 1] == dn[..dp] + [0];
        } else {
          assert dn[..dp] == dn[..];
        }
        next := if jump.Some? then jump.value else pp;
        return dp + 1, next, dp >= de;
      }
      if IsJump(c) {
        if pp >= |pkt| {
          return -1, next, false;
        }
        if jump.None? {
          jump := Some(pp + 1);
        } else {
          loop := loop - 1;
          if loop == 0 {
            return -1, next, false;
          }
        }
        if Target(c, pkt[pp]) < HSIZE {
          return -1, next, false;
        }
        pp := Target(c, pkt[pp]);
        continue;
      }
      if c > MAXLABEL || pp + c > |pkt| {
        return -1, next, false;
      }
      if dp + c + 1 > de {
        return if dn.Length < MAXDN then 0 else -1, next, false;
      }
      StoreLabel(dn, dp, pkt, pp, c, ls);
      ls := ls + [pkt[pp..pp + c]];
      dp, pp := dp + 1 + c, pp + c;
    }
  }

  lemma AllExact(pkt: Packet, cur: nat, size: nat)
    ensures forall ls: Labels, n: nat :: Denotes(pkt, cur, ls, n) && GoodLabels(ls) && |Wire0(ls)| < NameRoom(size) ==>
              Expand(pkt, cur, size) == Expanded(ls, n)
    ensures var r := Expand(pkt, cur, size); r.Expanded? ==> Denotes(pkt, cur, r.labels, r.next)
  {
    hide GoodLabels, Wire0, ExpandFrom, Denotes;
    var r := Expand(pkt, cur, size);
    if r.Expanded? {
      ExpandedExactly(pkt, cur, size, r.labels, r.next);
    }
    forall ls: Labels, n: nat | Denotes(pkt, cur, ls, n) && GoodLabels(ls) && |Wire0(ls)| < NameRoom(size)
      ensures Expand(pkt, cur, size) == Expanded(ls, n)
    {
      ExpandedExactly(pkt, cur, size, ls, n);
    }
  }

  function Jumps(jump: Option<nat>, loop: nat): nat
    requires loop <= JUMPS
  {
    if jump.None? then 0 else 1 + (JUMPS - loop)
  }

  function After(jump: Option<nat>): nat {
    if jump.None? then 0 else jump.value
  }

  lemma AtEndOfName(ls: Labels, next: nat, room: nat)
    requires GoodLabels(ls) && |Wire0(ls)| <= room
    ensures EndOfName(ls, next, room) ==
      if room == 0 then Full else if |Wire0(ls)| == room then Overruns(ls, next) else Expanded(ls, next)
    ensures Wire(ls) == Wire0(ls) + [0] && (|Wire0(ls)| < room <= MAXDN ==> GoodName(ls))
  {
  }

  lemma NoLabels()
    ensures GoodLabels([]) && Wire0([]) == []
  {
  }

  lemma Stored(ls: Labels, l: Label)
    requires GoodLabels(ls) && 1 <= |l| <= MAXLABEL
    ensures GoodLabels(ls + [l]) && Wire0(ls + [l]) == Wire0(ls) + ([|l|] + l)
  {
    WireConcat(ls, [l]);
    OneLabel(l);
  }

  /** The length of a label and the label itself. */
  method StoreLabel(dn: array<Byte>, dp: nat, pkt: Packet, pp: nat, c: Byte, ghost ls: Labels)
    requires 1 <= c <= MAXLABEL && dp + 1 + c <= dn.Length && pp + c <= |pkt|
    requires GoodLabels(ls) && dn[..dp] == Wire0(ls)
    modifies dn
    ensures var all := ls + [pkt[pp..pp + c]]; GoodLabels(all) && dn[..dp + 1 + c] == Wire0(all) && |Wire0(all)| == dp + 1 + c
  {
    hide GoodLabels, Wire0;
    Stored(ls, pkt[pp..pp + c]);
    dn[dp] := c;
    assert dn[..dp] == Wire0(ls);
    CopyBytes(dn, dp + 1, pkt, pp, c);
    assert dn[..dp + 1] == Wire0(ls) + [c];
    assert dn[..dp + 1 + c] == dn[..dp + 1] + dn[dp + 1..dp + 1 + c];
    Assoc(Wire0(ls), [c], pkt[pp..pp + c]);
  }

  /** memcpy */
  method CopyBytes(dn: array<Byte>, at: nat, pkt: Packet, from: nat, n: nat)
    requires at + n <= dn.Length && from + n <= |pkt|
    modifies dn
    ensures dn[..at] == old(dn[..at]) && dn[at..at + n] == pkt[from..from + n] && dn[at + n..] == old(dn[at + n..])
  {
    for i := 0 to n
      invariant dn[..at] == old(dn[..at]) && dn[at..at + i] == pkt[from..from + i] && dn[at + n..] == old(dn[at + n..])
    {
      dn[at + i] := pkt[from + i];
      assert dn[at..at + i + 1] == dn[at..at + i] + [pkt[from + i]];
    }
  }

  /** One label or jump of ExpandFrom. */
  lemma ExpandStep(pkt: Packet, pp: nat, jumps: nat, after: nat, ls: Labels, room: nat)
    requires jumps <= JUMPS && GoodLabels(ls)
    ensures pp < |pkt| && pkt[pp] != 0 && !IsJump(pkt[pp]) ==> 1 <= pkt[pp] <= MAXLABEL
    ensures pp < |pkt| && pkt[pp] != 0 && !IsJump(pkt[pp]) && pp + 1 + pkt[pp] <= |pkt| ==>
              GoodLabels(ls + [pkt[pp + 1..pp + 1 + pkt[pp]]])
    ensures ExpandFrom(pkt, pp, jumps, after, ls, room) ==
      if pp >= |pkt| then Malformed
      else
        var c := pkt[pp];
        if c == 0 then EndOfName(ls, if jumps == 0 then pp + 1 else after, room)
        else if IsJump(c) then
          if pp + 1 >= |pkt| || jumps == JUMPS || Target(c, pkt[pp + 1]) < HSIZE then Malformed
          else ExpandFrom(pkt, Target(c, pkt[pp + 1]), jumps + 1, if jumps == 0 then pp + 2 else after, ls, room)
        else if pp + 1 + c > |pkt| then Malformed
        else if |Wire0(ls)| + c + 1 > room then Full
        else ExpandFrom(pkt, pp + 1 + c, jumps, after, ls + [pkt[pp + 1..pp + 1 + c]], room)
  {
    hide Wire0, EndOfName;
  }

  // ---- skipping ----

  function Skip(pkt: Packet, cur: nat): Option<nat>
    decreases |pkt| - cur
  {
    if cur >= |pkt| then None
    else
      var c := pkt[cur];
      if c == 0 then Some(cur + 1)
      else if IsJump(c) then if cur + 2 >= |pkt| then None else Some(cur + 2)
      else Skip(pkt, cur + 1 + c)
  }

  /** From pp on there are labels up to at. */
  predicate LabelsTo(pkt: Packet, pp: nat, ls: Labels, at: nat) {
    GoodLabels(ls) && pp <= |pkt| && Wire0(ls) <= pkt[pp..] && at == pp + |Wire0(ls)|
  }

  /** Behind some labels the name ends, or has a pointer, which must not be the end of the packet. */
  predicate EndsBehind(pkt: Packet, at: nat, n: nat) {
    (at < |pkt| && pkt[at] == 0 && n == at + 1) || (at + 2 < |pkt| && pkt[at] >= 64 && n == at + 2)
  }

  /** A name is skipped if and only if it consists of labels up to its end or its first pointer. */
  lemma SkipExactly(pkt: Packet, pp: nat, n: nat)
    ensures Skip(pkt, pp) == Some(n) <==> exists ls: Labels, at: nat :: LabelsTo(pkt, pp, ls, at) && EndsBehind(pkt, at, n)
  {
    hide Skip, LabelsTo, EndsBehind;
    if Skip(pkt, pp) == Some(n) {
      var ls, at := Skipped(pkt, pp);
    }
    if ls: Labels, at: nat :| LabelsTo(pkt, pp, ls, at) && EndsBehind(pkt, at, n) {
      SkipLabels(pkt, pp, ls, at, n);
    }
  }

  lemma {:induction false} Skipped(pkt: Packet, pp: nat) returns (ls: Labels, at: nat)
    requires Skip(pkt, pp).Some?
    ensures LabelsTo(pkt, pp, ls, at) && EndsBehind(pkt, at, Skip(pkt, pp).value)
    decreases |pkt| - pp
  {
    hide Wire0, GoodLabels;
    var c := pkt[pp];
    NoLabels();
    if c == 0 || IsJump(c) {
      ls, at := [], pp;
    } else {
      var l := if pp + 1 + c <= |pkt| then pkt[pp + 1..pp + 1 + c] else [];
      var more;
      more, at := Skipped(pkt, pp + 1 + c);
      ls := [l] + more;
      OneLabel(l);
      WireConcat([l], more);
      Joins(pkt, pp, Wire0([l]), Wire0(more));
    }
  }

  lemma {:induction false} SkipLabels(pkt: Packet, pp: nat, ls: Labels, at: nat, n: nat)
    requires LabelsTo(pkt, pp, ls, at) && EndsBehind(pkt, at, n)
    ensures Skip(pkt, pp) == Some(n)
    decreases |ls|
  {
    hide Wire0, GoodLabels;
    if ls == [] {
      NoLabels();
    } else {
      LabelInFront(pkt, pp, ls);
      FirstGood(ls);
      SkipLabels(pkt, pp + 1 + |ls[0]|, ls[1..], at, n);
    }
  }

  /** dns_skipdn */
  method SkipDn(pkt: Packet, from: nat) returns (r: Option<nat>)
    ensures r == Skip(pkt, from)
  {
    var cur := from;
    while true
      invariant Skip(pkt, cur) == Skip(pkt, from)
      decreases |pkt| - cur
    {
      if cur >= |pkt| {
        return None;
      }
      var c := pkt[cur];
      cur := cur + 1;
      if c == 0 {
        return Some(cur);
      }
      if IsJump(c) {
        return if cur + 1 >= |pkt| then None else Some(cur + 1);
      }
      cur := cur + c;
    }
  }

  /** If a name can be both expanded and skipped, the packet goes on at the same place. */
  lemma {:induction false} SkipAgrees(pkt: Packet, pp: nat, ls: Labels, room: nat)
    requires GoodLabels(ls)
    ensures var r := ExpandFrom(pkt, pp, 0, 0, ls, room);
            (r.Expanded? || r.Overruns?) && Skip(pkt, pp).Some? ==> r.next == Skip(pkt, pp).value
    decreases |pkt| - pp
  {
    if pp < |pkt| && pkt[pp] != 0 {
      var c := pkt[pp];
      if IsJump(c) {
        if pp + 1 < |pkt| && Target(c, pkt[pp + 1]) >= HSIZE {
          AfterJump(pkt, Target(c, pkt[pp + 1]), 1, pp + 2, ls, room);
        }
      } else if pp + 1 + c <= |pkt| && |Wire0(ls)| + c + 1 <= room {
        SkipAgrees(pkt, pp + 1 + c, ls + [pkt[pp + 1..pp + 1 + c]], room);
      }
    }
  }

  lemma {:induction false} AfterJump(pkt: Packet, pp: nat, jumps: nat, after: nat, ls: Labels, room: nat)
    requires 0 < jumps <= JUMPS && GoodLabels(ls)
    ensures var r := ExpandFrom(pkt, pp, jumps, after, ls, room); r.Expanded? || r.Overruns? ==> r.next == after
    decreases JUMPS - jumps, |pkt| - pp
  {
    if pp < |pkt| && pkt[pp] != 0 {
      var c := pkt[pp];
      if IsJump(c) {
        if !(pp + 1 >= |pkt| || jumps == JUMPS || Target(c, pkt[pp + 1]) < HSIZE) {
          AfterJump(pkt, Target(c, pkt[pp + 1]), jumps + 1, after, ls, room);
        }
      } else if pp + 1 + c <= |pkt| && |Wire0(ls)| + c + 1 <= room {
        AfterJump(pkt, pp + 1 + c, jumps, after, ls + [pkt[pp + 1..pp + 1 + c]], room);
      }
    }
  }
}
