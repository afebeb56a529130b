/** Decoding whole answers in two passes: the first one sizes the string area, the second one fills it. */
module DnsRecords {

  import opened Basics
  import opened Buffers
  import opened DnsName
  import opened DnsPacket
  import opened DnsParse

  /** dns_parse_mx, dns_parse_txt and dns_parse_naptr differ in the data of their records. */
  datatype Kind = Mx | Txt | Naptr

  // ---- the data of one record ----

  /** A string behind its length, and where the next one is. */
  datatype Str = Str(text: seq<Byte>, next: nat)

  function StrAt(pkt: Packet, cp: nat, ep: nat): Option<Str>
    requires ep <= |pkt|
  {
    if cp >= ep || cp + 1 + pkt[cp] > ep then None
    else Some(Str(pkt[cp + 1..cp + 1 + pkt[cp]], cp + 1 + pkt[cp]))
  }

  /** The strings that fill pkt[cp..ep], one after the other. */
  function Strings(pkt: Packet, cp: nat, ep: nat): Option<seq<Byte>>
    requires ep <= |pkt|
    decreases ep - cp
  {
    if cp >= ep then Some([])
    else
      var s := StrAt(pkt, cp, ep);
      if s.None? then None
      else
        var rest := Strings(pkt, s.value.next, ep);
        if rest.None? then None else Some(s.value.text + rest.value)
  }

  function Asciiz(ls: Labels): seq<Byte> {
    Text(ls) + [0]
  }

  /** Where the name in the data of a record is, behind three strings in a NAPTR record. */
  function NamePos(kind: Kind, pkt: Packet, rr: Rr): Option<nat>
    requires rr.dend <= |pkt|
  {
    match kind
    case Mx => Some(rr.dptr + 2)
    case Txt => None
    case Naptr =>
      var a := StrAt(pkt, rr.dptr + 4, rr.dend);
      if a.None? then None
      else
        var b := StrAt(pkt, a.value.next, rr.dend);
        if b.None? then None
        else
          var c := StrAt(pkt, b.value.next, rr.dend);
          if c.None? then None else Some(c.value.next)
  }

  /** The three strings of a NAPTR record, each with a zero byte. */
  function ThreeStrings(pkt: Packet, rr: Rr): (s: seq<Byte>)
    requires rr.dend <= |pkt| && NamePos(Naptr, pkt, rr).Some?
  {
    var a := StrAt(pkt, rr.dptr + 4, rr.dend).value;
    var b := StrAt(pkt, a.next, rr.dend).value;
    var c := StrAt(pkt, b.next, rr.dend).value;
    (a.text + [0]) + (b.text + [0]) + (c.text + [0])
  }

  /** What a record puts into the string area, unless its data is malformed or the name in it overruns its buffer. */
  function Item(kind: Kind, pkt: Packet, rr: Rr): Read<seq<Byte>>
    requires rr.dend <= |pkt|
  {
    match kind
    case Mx => WithName([], NameAt(pkt, rr.dptr + 2, rr))
    case Txt =>
      var s := Strings(pkt, rr.dptr, rr.dend);
      if s.None? then Wrong else Right(s.value + [0])
    case Naptr =>
      var at := NamePos(kind, pkt, rr);
      if at.None? then Wrong else WithName(ThreeStrings(pkt, rr), NameAt(pkt, at.value, rr))
  }

  function WithName(strings: seq<Byte>, name: Read<Labels>): (r: Read<seq<Byte>>)
    ensures (r.Right? <==> name.Right?) && (r.Overrun? <==> name.Overrun?)
  {
    match name
    case Wrong => Wrong
    case Overrun => Overrun
    case Right(ls) => Right(strings + Asciiz(ls))
  }

  /** An entry of the result; the strings are given by their offsets in the area. */
  datatype Entry =
    | MxEntry(priority: nat, name: nat)
    | TxtEntry(len: nat, txt: nat)
    | NaptrEntry(order: nat, preference: nat, flags: nat, service: nat, regexp: nat, replacement: nat)

  function EntryOf(kind: Kind, pkt: Packet, rr: Rr, sp: nat): Entry
    requires rr.dend <= |pkt| && Item(kind, pkt, rr).Right?
  {
    match kind
    case Mx => MxEntry(Priority(pkt, rr), sp)
    case Txt => TxtEntry(|Strings(pkt, rr.dptr, rr.dend).value|, sp)
    case Naptr => NaptrOf(pkt, rr, sp)
  }

  function NaptrOf(pkt: Packet, rr: Rr, sp: nat): Entry
    requires rr.dend <= |pkt| && NamePos(Naptr, pkt, rr).Some?
  {
    var a := StrAt(pkt, rr.dptr + 4, rr.dend).value;
    var b := StrAt(pkt, a.next, rr.dend).value;
    var c := StrAt(pkt, b.next, rr.dend).value;
    var service := sp + |a.text| + 1;
    var regexp := service + |b.text| + 1;
    NaptrEntry(Get16(pkt, rr.dptr), Get16(pkt, rr.dptr + 2), sp, service, regexp, regexp + |c.text| + 1)
  }

  function Priority(pkt: Packet, rr: Rr): nat
    requires rr.dend <= |pkt| && NameAt(pkt, rr.dptr + 2, rr).Right?
  {
    ExpandedIsGood(pkt, rr.dptr + 2, 0, 0, [], MAXDN);
    Get16(pkt, rr.dptr)
  }

  // ---- records that were encoded ----

  /** A string behind its length: section 3.3 of RFC 1035. */
  function Counted(text: seq<Byte>): (s: seq<Byte>)
    requires |text| < 256
    ensures |s| == 1 + |text|
  {
    [|text|] + text
  }

  predicate AllShort(texts: seq<seq<Byte>>) {
    forall t <- texts :: |t| < 256
  }

  function CountedAll(texts: seq<seq<Byte>>): seq<Byte>
    requires AllShort(texts)
  {
    if texts == [] then [] else Counted(texts[0]) + CountedAll(texts[1..])
  }

  lemma StrIs(pkt: Packet, cp: nat, ep: nat, text: seq<Byte>)
    requires |text| < 256 && cp <= ep <= |pkt| && Counted(text) <= pkt[cp..ep]
    ensures StrAt(pkt, cp, ep) == Some(Str(text, cp + 1 + |text|)) && cp + 1 + |text| <= ep
  {
    var w, c := pkt[cp..ep], Counted(text);
    assert w[0] == c[0] == |text| && w[..|c|] == c;
    assert pkt[cp + 1..cp + 1 + |text|] == w[..|c|][1..] == text;
  }

  lemma Beyond(pkt: Packet, cp: nat, ep: nat, a: seq<Byte>, b: seq<Byte>)
    requires cp <= ep <= |pkt| && a + b <= pkt[cp..ep]
    ensures cp + |a| <= ep && a <= pkt[cp..ep] && b <= pkt[cp + |a|..ep] && a <= pkt[cp..]
  {
    FirstPart(pkt[cp..ep], a, b);
    assert pkt[cp..ep][|a|..] == pkt[cp + |a|..ep];
    assert pkt[cp..][..|a|] == pkt[cp..ep][..|a|];
  }

  /** The strings of a TXT record are joined. */
  lemma {:induction false} StringsAre(pkt: Packet, cp: nat, ep: nat, texts: seq<seq<Byte>>)
    requires AllShort(texts) && cp <= ep <= |pkt| && pkt[cp..ep] == CountedAll(texts)
    ensures Strings(pkt, cp, ep) == Some(Concat(texts))
    decreases |texts|
  {
    hide Counted, StrAt;
    if texts != [] {
      var t, n := texts[0], 1 + |texts[0]|;
      assert t in texts;
      Beyond(pkt, cp, ep, Counted(t), CountedAll(texts[1..]));
      StrIs(pkt, cp, ep, t);
      assert pkt[cp + n..ep] == pkt[cp..ep][n..] == CountedAll(texts[1..]);
      StringsAre(pkt, cp + n, ep, texts[1..]);
    }
  }

  lemma TxtReadBack(pkt: Packet, rr: Rr, texts: seq<seq<Byte>>, sp: nat)
    requires AllShort(texts) && rr.dptr <= rr.dend <= |pkt| && pkt[rr.dptr..rr.dend] == CountedAll(texts)
    ensures Item(Txt, pkt, rr) == Right(Concat(texts) + [0])
    ensures EntryOf(Txt, pkt, rr, sp) == TxtEntry(|Concat(texts)|, sp)
  {
    hide Strings, CountedAll;
    StringsAre(pkt, rr.dptr, rr.dend, texts);
  }

  lemma NameReadBack(pkt: Packet, at: nat, rr: Rr, ls: Labels)
    requires GoodName(ls) && Denotes(pkt, at, ls, rr.dend)
    ensures NameAt(pkt, at, rr) == Right(ls)
  {
    hide Denotes, Expand, Wire0;
    ExpandedExactly(pkt, at, MAXDN, ls, rr.dend);
  }

  /** A priority and a name, which may be compressed: section 3.3.9 of RFC 1035. */
  lemma MxReadBack(pkt: Packet, rr: Rr, priority: nat, ls: Labels, sp: nat)
    requires priority < 0x1_0000 && rr.dptr <= rr.dend <= |pkt| && Put16(priority) <= pkt[rr.dptr..]
    requires GoodName(ls) && Denotes(pkt, rr.dptr + 2, ls, rr.dend)
    ensures Item(Mx, pkt, rr) == Right(Text(ls) + [0]) && EntryOf(Mx, pkt, rr, sp) == MxEntry(priority, sp)
  {
    hide Denotes, NameAt, Get16, Put16, GoodName;
    NameReadBack(pkt, rr.dptr + 2, rr, ls);
    Got16(pkt, rr.dptr, priority);
    assert [] + Asciiz(ls) == Asciiz(ls);
  }

  /** Order, preference, three strings and a name: section 4.1 of RFC 3403. */
  lemma NaptrReadBack(pkt: Packet, rr: Rr, order: nat, preference: nat, flags: seq<Byte>, service: seq<Byte>,
                      regexp: seq<Byte>, ls: Labels, sp: nat)
    requires order < 0x1_0000 && preference < 0x1_0000 
    requires |flags| < 256 && |service| < 256 && |regexp| < 256 && rr.dptr <= rr.dend <= |pkt|
    requires Put16(order) + Put16(preference) + Counted(flags) + Counted(service) + Counted(regexp) <= pkt[rr.dptr..rr.dend]
    requires GoodName(ls) && Denotes(pkt, rr.dptr + 7 + |flags| + |service| + |regexp|, ls, rr.dend)
    ensures Item(Naptr, pkt, rr) == Right(flags + [0] + (service + [0]) + (regexp + [0]) + (Text(ls) + [0]))
    ensures var s := sp + |flags| + 1;
            var r := s + |service| + 1;
            EntryOf(Naptr, pkt, rr, sp) == NaptrEntry(order, preference, sp, s, r, r + |regexp| + 1)
  {
    hide Denotes, NameAt, Get16, Put16, GoodName, StrAt, Counted;
    var a, b, c, d, e := Put16(order), Put16(preference), Counted(flags), Counted(service), Counted(regexp);
    var at := rr.dptr;
    Beyond(pkt, at, rr.dend, a + b + c + d, e);
    Beyond(pkt, at, rr.dend, a + b + c, d);
    Beyond(pkt, at, rr.dend, a + b, c);
    Beyond(pkt, at, rr.dend, a, b);
    Beyond(pkt, at + 2, rr.dend, b, []);
    Got16(pkt, at, order);
    Got16(pkt, at + 2, preference);
    StrIs(pkt, at + 4, rr.dend, flags);
    StrIs(pkt, at + 5 + |flags|, rr.dend, service);
    StrIs(pkt, at + 6 + |flags| + |service|, rr.dend, regexp);
    NameReadBack(pkt, at + 7 + |flags| + |service| + |regexp|, rr, ls);
  }

  // ---- all records ----

  predicate WellFormed(kind: Kind, pkt: Packet, rrs: seq<Rr>) {
    forall rr <- rrs :: rr.dend <= |pkt| && Item(kind, pkt, rr).Right?
  }

  function Area(kind: Kind, pkt: Packet, rrs: seq<Rr>): seq<Byte>
    requires WellFormed(kind, pkt, rrs)
  {
    if rrs == [] then []
    else Area(kind, pkt, rrs[..|rrs| - 1]) + Item(kind, pkt, rrs[|rrs| - 1]).value
  }

  /** The entries, in order, each with the place of its strings. */
  predicate EntriesAre(kind: Kind, pkt: Packet, rrs: seq<Rr>, entries: seq<Entry>)
    requires WellFormed(kind, pkt, rrs)
  {
    && |entries| == |rrs|
    && forall i :: 0 <= i < |rrs| ==> entries[i] == EntryOf(kind, pkt, rrs[i], |Area(kind, pkt, rrs[..i])|)
  }

  lemma AreaMore(kind: Kind, pkt: Packet, rrs: seq<Rr>, rr: Rr)
    requires WellFormed(kind, pkt, rrs) && rr.dend <= |pkt| && Item(kind, pkt, rr).Right?
    ensures WellFormed(kind, pkt, rrs + [rr])
    ensures Area(kind, pkt, rrs + [rr]) == Area(kind, pkt, rrs) + Item(kind, pkt, rr).value
  {
    hide Item;
    assert (rrs + [rr])[..|rrs|] == rrs;
  }

  /** The strings of every record are in the area where its entry says. */
  lemma {:induction false} ItemPlaced(kind: Kind, pkt: Packet, rrs: seq<Rr>, i: nat)
    requires WellFormed(kind, pkt, rrs) && i < |rrs|
    ensures WellFormed(kind, pkt, rrs[..i])
    ensures var at, item := |Area(kind, pkt, rrs[..i])|, Item(kind, pkt, rrs[i]).value;
            at + |item| <= |Area(kind, pkt, rrs)| && Area(kind, pkt, rrs)[at..at + |item|] == item
    decreases |rrs|
  {
    hide Item, Area;
    var n := |rrs| - 1;
    AreaMore(kind, pkt, rrs[..n], rrs[n]);
    assert rrs[..n] + [rrs[n]] == rrs;
    var all, last, at := Area(kind, pkt, rrs[..n]), Item(kind, pkt, rrs[n]).value, |Area(kind, pkt, rrs[..i])|;
    if i < n {
      ItemPlaced(kind, pkt, rrs[..n], i);
      assert rrs[..n][..i] == rrs[..i];
      Inside(all, last, at, |Item(kind, pkt, rrs[i]).value|);
    } else {
      assert (all + last)[at..] == last;
    }
  }

  lemma Inside(a: seq<Byte>, b: seq<Byte>, at: nat, n: nat)
    requires at + n <= |a|
    ensures (a + b)[at..at + n] == a[at..at + n]
  {
  }

  /** The zero-terminated text t stands at offset at. */
  predicate TextAt(area: seq<Byte>, at: nat, t: seq<Byte>) {
    at + |t| < |area| && area[at..at + |t|] == t && area[at + |t|] == 0
  }

  lemma TailPlaced(items: seq<Byte>, name: Labels, question: Labels, same: bool)
    ensures var area := items + Tail(name, question, same);
            && TextAt(area, |items|, Text(name))
            && (!same ==> TextAt(area, |items| + |Text(name)| + 1, Text(question)))
  {
    hide Text;
    var a, b := Text(name), Text(question);
    var area := items + Tail(name, question, same);
    assert area[|items|..|items| + |a|] == a;
    if !same {
      assert area == items + a + [0] + b + [0];
      assert area[|items| + |a| + 1..|items| + |a| + 1 + |b|] == b;
    }
  }

  /** dns_stdrr_finish puts the final name behind the items, and then the name asked for, unless it is the same. */
  function Tail(name: Labels, question: Labels, same: bool): seq<Byte> {
    Asciiz(name) + if same then [] else Asciiz(question)
  }

  // ---- names and strings, sized and filled in ----

  /** dns_getdn and dns_dntop_size for the name that ends the data of a record. */
  method SizeName(pkt: Packet, at: nat, dend: nat, ghost rr: Rr) returns (e: Read<nat>)
    requires rr.dend == dend
    ensures match NameAt(pkt, at, rr)
            case Wrong => e == Wrong
            case Overrun => e == Overrun
            case Right(ls) => e == Right(|Asciiz(ls)|)
  {
    hide NameAt, Wire, GoodLabels, Text, Wire0;
    var dn := ReadName(pkt, at, dend, rr);
    if dn.Right? {
      ghost var ls := NameAt(pkt, at, rr).value;
      TextFits(ls);
      var size := DnToPSize(dn.value, ls);
      e := Right(size);
    } else {
      e := if dn.Wrong? then Wrong else Overrun;
    }
  }

  /** dns_getdn and dns_dntop for such a name, which is known to be well-formed now. */
  method FillName(pkt: Packet, at: nat, area: array<Byte>, sp: nat, ghost rr: Rr) returns (next: nat)
    requires NameAt(pkt, at, rr).Right?
    requires sp + |Asciiz(NameAt(pkt, at, rr).value)| <= area.Length
    modifies area
    ensures next == sp + |Asciiz(NameAt(pkt, at, rr).value)| <= area.Length
    ensures area[..next] == old(area[..sp]) + Asciiz(NameAt(pkt, at, rr).value)
  {
    hide Expand, Wire, GoodLabels, Text, Wire0;
    var dn := new Byte[MAXDN];
    var r, after, _ := GetDn(pkt, at, dn);
    ghost var ls := NameAt(pkt, at, rr).value;
    TextFits(ls);
    next := PrintName(dn[..r], area, sp, ls);
  }

  /** dns_dntop to the area, with the bound DNS_MAXNAME whatever room is left */
  method PrintName(dn: seq<Byte>, area: array<Byte>, sp: nat, ghost ls: Labels) returns (next: nat)
    requires GoodName(ls) && dn == Wire(ls) && sp + |Asciiz(ls)| <= area.Length
    modifies area
    ensures next == sp + |Asciiz(ls)| <= area.Length && area[..next] == old(area[..sp]) + Asciiz(ls)
  {
    hide Wire, GoodLabels, Text, Wire0;
    TextFits(ls);
    NameIsGood(ls);
    var r := DnToP(dn, area, sp, MAXNAME, ls);
    next := sp + r;
  }

  /** dns_getstr without a buffer; the length may be read from behind the data, and then does not matter */
  method GetStr(pkt: Packet, cur: nat, ep: nat) returns (r: int, next: nat)
    requires ep <= |pkt|
    ensures match StrAt(pkt, cur, ep)
            case None => r < 0
            case Some(s) => r == |s.text| + 1 && next == s.next
  {
    var behind: Byte :| 0 <= behind < 256;
    var l := if cur < |pkt| then pkt[cur] else behind;
    var cp: nat := cur + 1;
    next := cp;
    if cp + l > ep {
      return -1, next;
    }
    cp := cp + l;
    next := cp;
    r := l + 1;
  }

  /** dns_getstr with a buffer, with the end of the packet as bound */
  method FillStr(pkt: Packet, cur: nat, ghost ep: nat, area: array<Byte>, sp: nat) returns (r: nat, next: nat)
    requires ep <= |pkt| && StrAt(pkt, cur, ep).Some? && sp + |StrAt(pkt, cur, ep).value.text| + 1 <= area.Length
    modifies area
    ensures var s := StrAt(pkt, cur, ep).value;
            && r == |s.text| + 1 && next == s.next && sp + r <= area.Length
            && area[..sp + r] == old(area[..sp]) + (s.text + [0])
  {
    var l: nat := pkt[cur];
    ghost var pre := area[..sp];
    CopyBytes(area, sp, pkt, cur + 1, l);
    assert area[..sp + l] == pre + pkt[cur + 1..cur + 1 + l];
    PutByte(area, sp + l, 0);
    Assoc(pre, pkt[cur + 1..cur + 1 + l], [0]);
    r, next := l + 1, cur + 1 + l;
  }

  // ---- the bodies of the loops ----

  /** A record of the first pass. */
  method SizeItem(kind: Kind, pkt: Packet, dptr: nat, dend: nat, ghost rr: Rr) returns (e: Read<nat>)
    requires rr.dptr == dptr <= rr.dend == dend <= |pkt|
    ensures match Item(kind, pkt, rr)
            case Wrong => e == Wrong
            case Overrun => e == Overrun
            case Right(bytes) => e == Right(|bytes|)
  {
    hide NameAt, StrAt;
    if kind.Mx? {
      e := SizeName(pkt, dptr + 2, dend, rr);
    } else if kind.Txt? {
      e := SizeStrings(pkt, dptr, dend);
    } else {
      e := SizeNaptr(pkt, dptr, dend, rr);
    }
  }

  method SizeNaptr(pkt: Packet, dptr: nat, dend: nat, ghost rr: Rr) returns (e: Read<nat>)
    requires rr.dptr == dptr <= rr.dend == dend <= |pkt|
    ensures match Item(Naptr, pkt, rr)
            case Wrong => e == Wrong
            case Overrun => e == Overrun
            case Right(bytes) => e == Right(|bytes|)
  {
    hide NameAt, StrAt;
    var r, cur, l := 0, dptr + 4, 0;
    r, cur := GetStr(pkt, cur, dend);
    if r < 0 { return Wrong; }
    l := l + r;
    r, cur := GetStr(pkt, cur, dend);
    if r < 0 { return Wrong; }
    l := l + r;
    r, cur := GetStr(pkt, cur, dend);
    if r < 0 { return Wrong; }
    l := l + r;
    e := SizeName(pkt, cur, dend, rr);
    if e.Right? {
      e := Right(l + e.value);
    }
  }

  /** The strings of a TXT record and the zero byte behind them. */
  method SizeStrings(pkt: Packet, dptr: nat, ep: nat) returns (e: Read<nat>)
    requires ep <= |pkt|
    ensures e == if Strings(pkt, dptr, ep).None? then Wrong else Right(|Strings(pkt, dptr, ep).value| + 1)
  {
    var cp, l: nat := dptr, 0;
    while cp < ep
      invariant var all, rest := Strings(pkt, dptr, ep), Strings(pkt, cp, ep);
                (all.Some? <==> rest.Some?) && (all.Some? ==> |all.value| == l + |rest.value|)
      decreases ep - cp
    {
      var r := pkt[cp];
      cp := cp + 1;
      if cp + r > ep {
        return Wrong;
      }
      l := l + r;
      cp := cp + r;
    }
    e := Right(l + 1);
  }

  lemma BeforeName(pkt: Packet, at: nat, rr: Rr)
    requires NameAt(pkt, at, rr).Right?
    ensures at <= |pkt|
  {
    ExpandedIsGood(pkt, at, 0, 0, [], MAXDN);
  }

  lemma BeforeString(pkt: Packet, cp: nat, ep: nat)
    requires ep <= |pkt| && StrAt(pkt, cp, ep).Some?
    ensures cp < ep
  {
  }

  lemma FirstString(pkt: Packet, cp: nat, ep: nat)
    requires cp < ep <= |pkt| && Strings(pkt, cp, ep).Some?
    ensures var next := cp + 1 + pkt[cp];
            && next <= ep && Strings(pkt, next, ep).Some?
            && Strings(pkt, cp, ep).value == pkt[cp + 1..next] + Strings(pkt, next, ep).value
  {
  }

  lemma NoString(pkt: Packet, cp: nat, ep: nat)
    requires ep <= cp && ep <= |pkt|
    ensures Strings(pkt, cp, ep) == Some([])
  {
  }

  method FillStrings(pkt: Packet, dptr: nat, ep: nat, area: array<Byte>, start: nat) returns (sp: nat)
    requires ep <= |pkt| && Strings(pkt, dptr, ep).Some? && start + |Strings(pkt, dptr, ep).value| + 1 <= area.Length
    modifies area
    ensures sp == start + |Strings(pkt, dptr, ep).value| + 1 <= area.Length
    ensures area[..sp] == old(area[..start]) + (Strings(pkt, dptr, ep).value + [0])
  {
    hide Strings;
    var cp := dptr;
    sp := start;
    ghost var pre, done: seq<Byte>, all := area[..start], [], Strings(pkt, dptr, ep).value;
    assert pre + [] == pre && [] + all == all;
    while cp < ep
      invariant Strings(pkt, cp, ep).Some? && done + Strings(pkt, cp, ep).value == all
      invariant sp == start + |done| < area.Length && area[..sp] == pre + done
      decreases ep - cp
    {
      FirstString(pkt, cp, ep);
      var l: nat := pkt[cp];
      cp := cp + 1;
      ghost var text := pkt[cp..cp + l];
      Assoc(done, text, Strings(pkt, cp + l, ep).value);
      CopyBytes(area, sp, pkt, cp, l);
      assert area[..sp + l] == (pre + done) + text;
      Assoc(pre, done, text);
      sp, cp := sp + l, cp + l;
      done := done + text;
    }
    NoString(pkt, cp, ep);
    assert done + [] == done;
    PutByte(area, sp, 0);
    Assoc(pre, done, [0]);
    sp := sp + 1;
  }

  method FillNaptr(pkt: Packet, dptr: nat, dend: nat, area: array<Byte>, start: nat, ghost rr: Rr)
    returns (sp: nat, entry: Entry)
    requires rr.dptr == dptr <= rr.dend == dend <= |pkt| && Item(Naptr, pkt, rr).Right?
    requires start + |Item(Naptr, pkt, rr).value| <= area.Length
    modifies area
    ensures sp == start + |Item(Naptr, pkt, rr).value| <= area.Length
    ensures area[..sp] == old(area[..start]) + Item(Naptr, pkt, rr).value
    ensures entry == EntryOf(Naptr, pkt, rr, start)
  {
    hide NameAt, ThreeStrings, NamePos, NaptrOf;
    ghost var pre := area[..start];
    var cur, replacement;
    cur, replacement, entry := FillThree(pkt, dptr, dend, area, start, rr);
    sp := FillName(pkt, cur, area, replacement, rr);
    Assoc(pre, ThreeStrings(pkt, rr), Asciiz(NameAt(pkt, cur, rr).value));
  }

  /** The numbers and the three strings. */
  method FillThree(pkt: Packet, dptr: nat, dend: nat, area: array<Byte>, start: nat, ghost rr: Rr)
    returns (cur: nat, sp: nat, entry: Entry)
    requires rr.dptr == dptr <= rr.dend == dend <= |pkt| && NamePos(Naptr, pkt, rr).Some?
    requires start + |ThreeStrings(pkt, rr)| <= area.Length
    modifies area
    ensures cur == NamePos(Naptr, pkt, rr).value && sp == start + |ThreeStrings(pkt, rr)| <= area.Length
    ensures area[..sp] == old(area[..start]) + ThreeStrings(pkt, rr)
    ensures entry == NaptrOf(pkt, rr, start)
  {
    hide StrAt;
    BeforeString(pkt, dptr + 4, dend);
    ghost var pre := area[..start];
    ghost var a := StrAt(pkt, dptr + 4, dend).value;
    ghost var b := StrAt(pkt, a.next, dend).value;
    ghost var c := StrAt(pkt, b.next, dend).value;
    cur := dptr;
    var order := Get16(pkt, cur);
    var preference := Get16(pkt, cur + 2);
    cur := cur + 4;
    var r;
    r, cur := FillStr(pkt, cur, dend, area, start);
    var service := start + r;
    r, cur := FillStr(pkt, cur, dend, area, service);
    var regexp := service + r;
    Assoc(pre, a.text + [0], b.text + [0]);
    r, cur := FillStr(pkt, cur, dend, area, regexp);
    sp := regexp + r;
    Assoc(pre, (a.text + [0]) + (b.text + [0]), c.text + [0]);
    entry := NaptrEntry(order, preference, start, service, regexp, sp);
  }

  method FillMx(pkt: Packet, dptr: nat, area: array<Byte>, sp: nat, ghost rr: Rr) returns (next: nat, entry: Entry)
    requires rr.dptr == dptr <= rr.dend <= |pkt| && Item(Mx, pkt, rr).Right?
    requires sp + |Item(Mx, pkt, rr).value| <= area.Length
    modifies area
    ensures next == sp + |Item(Mx, pkt, rr).value| <= area.Length
    ensures area[..next] == old(area[..sp]) + Item(Mx, pkt, rr).value
    ensures entry == EntryOf(Mx, pkt, rr, sp)
  {
    hide NameAt, Text;
    BeforeName(pkt, dptr + 2, rr);
    entry := MxEntry(Get16(pkt, dptr), sp);
    assert [] + Asciiz(NameAt(pkt, dptr + 2, rr).value) == Asciiz(NameAt(pkt, dptr + 2, rr).value);
    next := FillName(pkt, dptr + 2, area, sp, rr);
  }

  method FillTxt(pkt: Packet, dptr: nat, dend: nat, area: array<Byte>, sp: nat, ghost rr: Rr) returns (next: nat, entry: Entry)
    requires rr.dptr == dptr <= rr.dend == dend <= |pkt| && Item(Txt, pkt, rr).Right?
    requires sp + |Item(Txt, pkt, rr).value| <= area.Length
    modifies area
    ensures next == sp + |Item(Txt, pkt, rr).value| <= area.Length
    ensures area[..next] == old(area[..sp]) + Item(Txt, pkt, rr).value
    ensures entry == EntryOf(Txt, pkt, rr, sp)
  {
    hide Strings;
    next := FillStrings(pkt, dptr, dend, area, sp);
    entry := TxtEntry(next - sp - 1, sp);
  }

  /** A record of the second pass. */
  method FillItem(kind: Kind, pkt: Packet, dptr: nat, dend: nat, area: array<Byte>, sp: nat, ghost rr: Rr)
    returns (next: nat, entry: Entry)
    requires rr.dptr == dptr <= rr.dend == dend <= |pkt| && Item(kind, pkt, rr).Right?
    requires sp + |Item(kind, pkt, rr).value| <= area.Length
    modifies area
    ensures next == sp + |Item(kind, pkt, rr).value| <= area.Length
    ensures area[..next] == old(area[..sp]) + Item(kind, pkt, rr).value
    ensures entry == EntryOf(kind, pkt, rr, sp)
  {
    hide Item, EntryOf;
    match kind
    case Mx => next, entry := FillMx(pkt, dptr, area, sp, rr);
    case Txt => next, entry := FillTxt(pkt, dptr, dend, area, sp, rr);
    case Naptr => next, entry := FillNaptr(pkt, dptr, dend, area, sp, rr);
  }

  // ---- the two passes ----

  /** How validating the data of records ends: with the first that is malformed or overruns a buffer, if any. */
  function Checked(kind: Kind, pkt: Packet, rrs: seq<Rr>): End
    requires forall rr <- rrs :: rr.dend <= |pkt|
  {
    if rrs == [] then Complete
    else match Item(kind, pkt, rrs[0])
      case Wrong => Failed(false)
      case Overrun => Failed(true)
      case Right(_) => Checked(kind, pkt, rrs[1..])
  }

  /** How the first pass ends. */
  function Verdict(kind: Kind, pkt: Packet, a: Answer): End
    requires forall rr <- a.found :: rr.dend <= |pkt|
  {
    var e := Checked(kind, pkt, a.found);
    if e.Complete? then a.end else e
  }

  lemma {:induction false} FirstWrong(kind: Kind, pkt: Packet, rrs: seq<Rr>) returns (i: nat)
    requires forall rr <- rrs :: rr.dend <= |pkt|
    ensures i <= |rrs| && WellFormed(kind, pkt, rrs[..i]) && (i == |rrs| ==> WellFormed(kind, pkt, rrs))
    ensures if i == |rrs| then Checked(kind, pkt, rrs) == Complete
            else !Item(kind, pkt, rrs[i]).Right? && Checked(kind, pkt, rrs) == Failed(Item(kind, pkt, rrs[i]).Overrun?)
  {
    hide Item;
    i := 0;
    if rrs != [] && Item(kind, pkt, rrs[0]).Right? {
      var j := FirstWrong(kind, pkt, rrs[1..]);
      i := j + 1;
      assert rrs[..i] == [rrs[0]] + rrs[1..][..j] && rrs == [rrs[0]] + rrs[1..];
    }
  }

  /** The first pass fails for the first record that is not well-formed; if there is none, it ends like the search for records. */
  lemma VerdictIs(kind: Kind, pkt: Packet, a: Answer) returns (i: nat)
    requires forall rr <- a.found :: rr.dend <= |pkt|
    ensures i <= |a.found| && WellFormed(kind, pkt, a.found[..i]) && (i == |a.found| ==> WellFormed(kind, pkt, a.found))
    ensures if i == |a.found| then Verdict(kind, pkt, a) == a.end
            else !Item(kind, pkt, a.found[i]).Right? && Verdict(kind, pkt, a) == Failed(Item(kind, pkt, a.found[i]).Overrun?)
  {
    hide Item, Checked, WellFormed;
    i := FirstWrong(kind, pkt, a.found);
  }

  lemma {:induction false} CheckedIs(kind: Kind, pkt: Packet, rrs: seq<Rr>)
    requires forall rr <- rrs :: rr.dend <= |pkt|
    ensures Checked(kind, pkt, rrs).Complete? <==> WellFormed(kind, pkt, rrs)
  {
    hide Item;
    if rrs != [] {
      CheckedIs(kind, pkt, rrs[1..]);
      assert rrs == [rrs[0]] + rrs[1..];
    }
  }

  lemma {:induction false} CheckedMore(kind: Kind, pkt: Packet, done: seq<Rr>, rest: seq<Rr>)
    requires WellFormed(kind, pkt, done) && forall rr <- rest :: rr.dend <= |pkt|
    ensures Checked(kind, pkt, done + rest) == Checked(kind, pkt, rest)
  {
    hide Item;
    if done == [] {
      assert done + rest == rest;
    } else {
      assert (done + rest)[1..] == done[1..] + rest;
      CheckedMore(kind, pkt, done[1..], rest);
    }
  }

  /** Where a pass is: it has met the records done of the answer a, and goes on from s. */
  ghost predicate Midway(pkt: Packet, s: State, q: Query, a: Answer, done: seq<Rr>) {
    var b := Fold(pkt, s, q);
    && a.found == done + b.found && a.end == b.end && a.name == b.name && a.ttl == b.ttl
    && (a.followed != [] <==> s.moved || b.followed != [])
    && s.nrr == |done|
    && (forall rr <- a.found :: rr.dptr <= rr.dend <= |pkt|)
  }

  lemma MidwayStart(pkt: Packet, s: State, q: Query)
    requires s.nrr == 0 && !s.moved
    ensures Midway(pkt, s, q, Fold(pkt, s, q), [])
  {
    FoundInPacket(pkt, s, q);
    assert [] + Fold(pkt, s, q).found == Fold(pkt, s, q).found;
  }

  /** The next record, or the end, of the answer. */
  lemma MidwayNext(pkt: Packet, s: State, q: Query, a: Answer, done: seq<Rr>)
    requires Midway(pkt, s, q, a, done)
    ensures NextFrom(pkt, s, q).Error? ==> a.found == done && a.end == Failed(NextFrom(pkt, s, q).overrun)
    ensures NextFrom(pkt, s, q).Done? ==>
              var t := NextFrom(pkt, s, q).after;
              a.found == done && a.end.Complete? && a.name == t.name && a.ttl == t.ttl && (t.moved <==> a.followed != []) && t.nrr == |done|
    ensures NextFrom(pkt, s, q).Found? ==>
              var t, rr := NextFrom(pkt, s, q).after, NextFrom(pkt, s, q).rr;
              Midway(pkt, t, q, a, done + [rr]) && t.left < s.left && rr in a.found && done + [rr] <= a.found
  {
    hide Fold, NextFrom;
    NextIsFold(pkt, s, q);
    if NextFrom(pkt, s, q).Found? {
      var t, rr := NextFrom(pkt, s, q).after, NextFrom(pkt, s, q).rr;
      assert a.found == (done + [rr]) + Fold(pkt, t, q).found;
    }
  }

  /** The first pass: whether all is in order, and how many bytes of strings there are. */
  method FirstPass(kind: Kind, p: Parser, ghost a: Answer) returns (end: End, l: nat)
    requires p.Valid() && Midway(p.pkt, p.Now(), p.q, a, []) && forall rr <- a.found :: rr.dend <= |p.pkt|
    modifies p
    ensures end == Verdict(kind, p.pkt, a)
    ensures end.Complete? ==> p.Valid() && p.nrr == |a.found| && p.name == a.name && p.ttl == a.ttl && (p.moved <==> a.followed != [])
    ensures end.Complete? ==> WellFormed(kind, p.pkt, a.found) && l == |Area(kind, p.pkt, a.found)|
  {
    hide Item, Midway, Fold, NextFrom, Wire, GoodName, Area, Checked, WellFormed;
    l := 0;
    ghost var done: seq<Rr> := [];
    NothingYet(kind, p.pkt);
    while true
      invariant p.Valid() && Midway(p.pkt, p.Now(), p.q, a, done)
      invariant WellFormed(kind, p.pkt, done) && l == |Area(kind, p.pkt, done)|
      decreases p.rrl
    {
      ghost var s := p.Now();
      MidwayNext(p.pkt, s, p.q, a, done);
      var r, rr, overrun := p.NextRr();
      if r < 0 {
        CheckedIs(kind, p.pkt, done);
        return Failed(overrun), l;
      }
      if r == 0 {
        CheckedIs(kind, p.pkt, done);
        return Complete, l;
      }
      ghost var g := NextFrom(p.pkt, s, p.q).rr;
      InBounds(p.pkt, p.Now(), p.q, a, done + [g], g);
      var e := SizeItem(kind, p.pkt, rr.dptr, rr.dend, g);
      if !e.Right? {
        FirstFailure(kind, p.pkt, done, g, a.found);
        return Failed(e.Overrun?), l;
      }
      AreaMore(kind, p.pkt, done, g);
      l := l + e.value;
      done := done + [g];
    }
  }

  lemma FirstFailure(kind: Kind, pkt: Packet, done: seq<Rr>, rr: Rr, all: seq<Rr>)
    requires WellFormed(kind, pkt, done) && done + [rr] <= all && (forall x <- all :: x.dend <= |pkt|) && rr.dend <= |pkt|
    requires !Item(kind, pkt, rr).Right?
    ensures Checked(kind, pkt, all) == Failed(Item(kind, pkt, rr).Overrun?)
  {
    hide Item;
    var rest := all[|done|..];
    assert all == done + rest && rest[0] == all[|done|] == (done + [rr])[|done|] == rr;
    CheckedMore(kind, pkt, done, rest);
  }

  lemma NothingYet(kind: Kind, pkt: Packet)
    ensures WellFormed(kind, pkt, []) && Area(kind, pkt, []) == []
  {
  }

  lemma InBounds(pkt: Packet, s: State, q: Query, a: Answer, done: seq<Rr>, rr: Rr)
    requires Midway(pkt, s, q, a, done) && rr in a.found
    ensures rr.dptr <= rr.dend <= |pkt|
  {
  }

  /** The items of the first records take no more than those of all. */
  lemma {:induction false} AreaGrows(kind: Kind, pkt: Packet, done: seq<Rr>, all: seq<Rr>)
    requires done <= all && WellFormed(kind, pkt, all)
    ensures WellFormed(kind, pkt, done) && |Area(kind, pkt, done)| <= |Area(kind, pkt, all)|
    decreases |all|
  {
    hide Item;
    if |done| < |all| {
      AreaGrows(kind, pkt, done, all[..|all| - 1]);
    } else {
      assert done == all;
    }
  }

  lemma EntriesMore(kind: Kind, pkt: Packet, done: seq<Rr>, entries: seq<Entry>, rr: Rr)
    requires WellFormed(kind, pkt, done + [rr]) && WellFormed(kind, pkt, done) && rr.dend <= |pkt| && Item(kind, pkt, rr).Right?
    requires EntriesAre(kind, pkt, done, entries)
    ensures EntriesAre(kind, pkt, done + [rr], entries + [EntryOf(kind, pkt, rr, |Area(kind, pkt, done)|)])
  {
    hide Item, EntryOf, Area;
    var all := done + [rr];
    forall i | 0 <= i < |all| ensures all[..i] == (if i < |done| then done[..i] else done) {
    }
  }

  /** The second pass: the same records, and their strings into the area. */
  method SecondPass(kind: Kind, p: Parser, area: array<Byte>, ghost a: Answer) returns (entries: seq<Entry>, sp: nat)
    requires p.Valid() && Midway(p.pkt, p.Now(), p.q, a, []) && a.end.Complete? && WellFormed(kind, p.pkt, a.found)
    requires |Area(kind, p.pkt, a.found)| <= area.Length
    modifies p, area
    ensures sp == |Area(kind, p.pkt, a.found)| && area[..sp] == Area(kind, p.pkt, a.found)
    ensures EntriesAre(kind, p.pkt, a.found, entries)
    ensures p.Valid() && p.nrr == |a.found| && p.name == a.name && p.ttl == a.ttl && (p.moved <==> a.followed != [])
  {
    hide Item, EntryOf, EntriesAre, Midway, Fold, NextFrom, Wire, GoodName, Area;
    entries, sp := [], 0;
    ghost var done: seq<Rr> := [];
    NothingYet(kind, p.pkt);
    NoEntries(kind, p.pkt);
    while true
      invariant p.Valid() && Midway(p.pkt, p.Now(), p.q, a, done)
      invariant WellFormed(kind, p.pkt, done) && sp == |Area(kind, p.pkt, done)| <= area.Length
      invariant area[..sp] == Area(kind, p.pkt, done) && EntriesAre(kind, p.pkt, done, entries)
      decreases p.rrl
    {
      ghost var s := p.Now();
      MidwayNext(p.pkt, s, p.q, a, done);
      var r, rr, _ := p.NextRr();
      if r == 0 {
        return;
      }
      ghost var g := NextFrom(p.pkt, s, p.q).rr;
      InBounds(p.pkt, p.Now(), p.q, a, done + [g], g);
      AreaMore(kind, p.pkt, done, g);
      AreaGrows(kind, p.pkt, done + [g], a.found);
      EntriesMore(kind, p.pkt, done, entries, g);
      var next, entry := FillItem(kind, p.pkt, rr.dptr, rr.dend, area, sp, g);
      sp, entries := next, entries + [entry];
      done := done + [g];
    }
  }

  lemma NoEntries(kind: Kind, pkt: Packet)
    ensures WellFormed(kind, pkt, []) && EntriesAre(kind, pkt, [], [])
  {
  }

  datatype Status = Protocol | Overran | NoData | Answered

  /** dns_parse_mx, dns_parse_txt and dns_parse_naptr. The string area has just the size that the first pass found,
      and the second pass fills it. When a name overruns its buffer, that is reported and nothing is said of what comes
      after it. */
  method ParseAnswer(kind: Kind, pkt: Packet, cur: nat, qdn: seq<Byte>, atPayload: bool, ghost name: Labels, ghost question: Labels)
    returns (status: Status, entries: seq<Entry>, cname: nat, qname: nat, ttl: nat, area: array<Byte>)
    requires |pkt| >= HSIZE && cur + 4 <= |pkt|
    requires GoodName(name) && qdn == Wire(name)
    requires GoodName(question) && Wire(question) <= pkt[HSIZE..] && (atPayload ==> name == question)
    ensures var a := AnswerFor(pkt, cur, name);
            && (forall rr <- a.found :: rr.dend <= |pkt|)
            && (status == Protocol <==> Verdict(kind, pkt, a) == Failed(false))
            && (status == Overran <==> Verdict(kind, pkt, a) == Failed(true))
            && (status == NoData <==> a.end.Complete? && a.found == [])
            && (status == Answered ==>
                  && a.name.Some? && WellFormed(kind, pkt, a.found) && EntriesAre(kind, pkt, a.found, entries) && ttl == a.ttl
                  && var same := atPayload && a.followed == [];
                     && area[..] == Area(kind, pkt, a.found) + Tail(a.name.value, question, same)
                     && cname == |Area(kind, pkt, a.found)|
                     && (qname == if same then cname else cname + |Asciiz(a.name.value)|)
                     && TextAt(area[..], cname, Text(a.name.value)) && (!same ==> TextAt(area[..], qname, Text(question))))
  {
    hide TextAt, Item, EntryOf, EntriesAre, Midway, Fold, NextFrom, Wire, GoodName, Area, Text;
    entries, cname, qname, ttl, area := [], 0, 0, 0, new Byte[0];
    ghost var a := AnswerFor(pkt, cur, name);
    MidwayStart(pkt, Initial(pkt, cur + 4, Some(name)), Asked(pkt, cur));
    NameStays(pkt, Initial(pkt, cur + 4, Some(name)), Asked(pkt, cur));
    var p := new Parser(pkt, cur, Some(qdn), Some(name));
    InAnswer(pkt, cur, name);
    var end, l := FirstPass(kind, p, a);
    if !end.Complete? {
      status := if end.overrun then Overran else Protocol;
      return;
    }
    if p.nrr == 0 {
      NothingYet(kind, pkt);
      status := NoData;
      return;
    }
    var tail := TailSize(p, atPayload, question);
    area := new Byte[l + tail];
    p.Rewind(Some(qdn), Some(name));
    var sp;
    entries, sp := SecondPass(kind, p, area, a);
    cname, qname, ttl := Finish(p, area, sp, atPayload, question);
    assert area[..area.Length] == area[..];
    TailPlaced(Area(kind, pkt, a.found), a.name.value, question, atPayload && a.followed == []);
    status := Answered;
  }

  function AnswerFor(pkt: Packet, cur: nat, name: Labels): Answer
    requires |pkt| >= HSIZE && cur + 4 <= |pkt|
  {
    Fold(pkt, Initial(pkt, cur + 4, Some(name)), Asked(pkt, cur))
  }

  lemma InAnswer(pkt: Packet, cur: nat, name: Labels)
    requires |pkt| >= HSIZE && cur + 4 <= |pkt|
    ensures forall rr <- AnswerFor(pkt, cur, name).found :: rr.dend <= |pkt|
  {
    FoundInPacket(pkt, Initial(pkt, cur + 4, Some(name)), Asked(pkt, cur));
  }

  lemma NameStays(pkt: Packet, s: State, q: Query)
    requires s.ttl <= MAX_TTL && s.name.Some?
    ensures Fold(pkt, s, q).name.Some?
  {
    FoldIs(pkt, s, q);
  }

  /** The question as dns_payload points to it. */
  method Payload(pkt: Packet, ghost question: Labels) returns (dn: seq<Byte>)
    requires |pkt| >= HSIZE && GoodName(question) && Wire(question) <= pkt[HSIZE..]
    ensures dn == Wire(question)
  {
    var n := DnLen(pkt, HSIZE, question);
    dn := pkt[HSIZE..HSIZE + n];
    assert dn == pkt[HSIZE..][..n];
  }

  /** dns_stdrr_size */
  method TailSize(p: Parser, atPayload: bool, ghost question: Labels) returns (size: nat)
    requires p.Valid() && p.name.Some? && |p.pkt| >= HSIZE && GoodName(question) && Wire(question) <= p.pkt[HSIZE..]
    ensures size == |Tail(p.name.value, question, atPayload && !p.moved)|
  {
    hide Wire, GoodName, Text;
    NameIsGood(p.name.value);
    NameIsGood(question);
    TextFits(p.name.value);
    TextFits(question);
    size := DnToPSize(p.qdn.value, p.name.value);
    if !(atPayload && !p.moved) {
      var payload := Payload(p.pkt, question);
      var more := DnToPSize(payload, question);
      size := size + more;
    }
  }

  /** dns_stdrr_finish */
  method Finish(p: Parser, area: array<Byte>, sp: nat, atPayload: bool, ghost question: Labels)
    returns (cname: nat, qname: nat, ttl: nat)
    requires p.Valid() && p.name.Some? && |p.pkt| >= HSIZE && GoodName(question) && Wire(question) <= p.pkt[HSIZE..]
    requires sp + |Tail(p.name.value, question, atPayload && !p.moved)| == area.Length
    modifies area
    ensures area[..area.Length] == old(area[..sp]) + Tail(p.name.value, question, atPayload && !p.moved)
    ensures cname == sp && ttl == p.ttl
    ensures qname == if atPayload && !p.moved then cname else cname + |Asciiz(p.name.value)|
  {
    hide Wire, GoodName, Text;
    cname, ttl := sp, p.ttl;
    ghost var pre := area[..sp];
    var next := PrintName(p.qdn.value, area, sp, p.name.value);
    if atPayload && !p.moved {
      qname := cname;
      assert Asciiz(p.name.value) + [] == Asciiz(p.name.value);
    } else {
      qname := next;
      var payload := Payload(p.pkt, question);
      next := PrintName(payload, area, next, question);
      Assoc(pre, Asciiz(p.name.value), Asciiz(question));
    }
  }
}
