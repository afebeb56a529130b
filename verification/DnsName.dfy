/** Domain names: their wire form and their text. */
module DnsName {

  import opened Basics
  import opened Buffers

  const MAXDN := 255
  const MAXLABEL := 63
  const MAXNAME := 1024

  const DOT: Byte := 46
  const BACKSLASH: Byte := 92
  const ZERO: Byte := 48
  const NINE: Byte := 57

  type Label = seq<Byte>
  type Labels = seq<Label>

  // ---- wire form: section 3.1 of RFC 1035 ----

  predicate GoodLabels(ls: Labels) {
    forall l <- ls :: 1 <= |l| <= MAXLABEL
  }

  /** The labels, each behind its length. */
  function Wire0(ls: Labels): seq<Byte>
    requires GoodLabels(ls)
  {
    if ls == [] then [] else [|ls[0]|] + ls[0] + Wire0(ls[1..])
  }

  /** A well-formed name has labels of 1 to 63 bytes and 255 bytes at most. */
  predicate GoodName(ls: Labels) {
    GoodLabels(ls) && |Wire0(ls)| + 1 <= MAXDN
  }

  function Wire(ls: Labels): seq<Byte>
    requires GoodLabels(ls)
  {
    Wire0(ls) + [0]
  }

  lemma {:induction false} WireConcat(a: Labels, b: Labels)
    requires GoodLabels(a) && GoodLabels(b)
    ensures GoodLabels(a + b) && Wire0(a + b) == Wire0(a) + Wire0(b)
  {
    if a == [] {
      assert a + b == b;
    } else {
      assert (a + b)[1..] == a[1..] + b;
      WireConcat(a[1..], b);
      Assoc([|a[0]|] + a[0], Wire0(a[1..]), Wire0(b));
    }
  }

  // ---- text: section 5.1 of RFC 1035 ----

  predicate Special(b: Byte) {
    b == DOT || b == BACKSLASH || b == 34 || b == 59 || b == 64 || b == 36   // . \ " ; @ $
  }

  predicate Printable(b: Byte) {
    0x20 < b < 0x7f
  }

  function ByteText(b: Byte): (t: seq<Byte>)
    ensures 1 <= |t| <= 4
  {
    if Special(b) then [BACKSLASH, b]
    else if !Printable(b) then [BACKSLASH, ZERO + b / 100, ZERO + b % 100 / 10, ZERO + b % 10]
    else [b]
  }

  function LabelText(l: Label): (t: seq<Byte>)
    ensures |l| <= |t| <= 4 * |l|
  {
    if l == [] then [] else ByteText(l[0]) + LabelText(l[1..])
  }

  /** A label behind a dot, unless it is the first one. */
  function ItemText(l: Label, first: bool): seq<Byte> {
    if first then LabelText(l) else [DOT] + LabelText(l)
  }

  /** The labels with dots between them, and one in front unless they are the first. */
  function TextFrom(ls: Labels, first: bool): seq<Byte> {
    if ls == [] then [] else ItemText(ls[0], first) + TextFrom(ls[1..], false)
  }

  function Text(ls: Labels): seq<Byte> {
    TextFrom(ls, true)
  }

  lemma {:induction false} TextBound(ls: Labels, first: bool)
    requires GoodLabels(ls)
    ensures |TextFrom(ls, first)| <= 4 * |Wire0(ls)|
  {
    if ls != [] {
      TextBound(ls[1..], false);
    }
  }

  /** Text is put together byte by byte and label by label, with a dot between labels only. */
  lemma {:induction false} LabelTextJoins(a: Label, b: Label)
    ensures LabelText(a + b) == LabelText(a) + LabelText(b)
  {
    if a == [] {
      assert a + b == b;
    } else {
      assert (a + b)[1..] == a[1..] + b;
      LabelTextJoins(a[1..], b);
      Assoc(ByteText(a[0]), LabelText(a[1..]), LabelText(b));
    }
  }

  lemma {:induction false} TextJoins(a: Labels, b: Labels, first: bool)
    requires a != []
    ensures TextFrom(a + b, first) == TextFrom(a, first) + TextFrom(b, false)
    ensures |a| == 1 ==> TextFrom(a, first) == (if first then [] else [46]) + LabelText(a[0])
  {
    hide ByteText, LabelText;
    assert (a + b)[1..] == a[1..] + b;
    if |a| == 1 {
      assert a[1..] + b == b;
    } else {
      TextJoins(a[1..], b, false);
      Assoc(ItemText(a[0], first), TextFrom(a[1..], false), TextFrom(b, false));
    }
  }

  /** The characters . \ " ; @ $ are escaped as they are, and what is not printable by three digits. */
  lemma ByteTextIs(b: Byte)
    ensures var t := ByteText(b);
            if b in [46, 92, 34, 59, 64, 36] then t == [92, b]
            else if 0x20 < b < 0x7f then t == [b]
            else |t| == 4 && t[0] == 92 && (forall i :: 1 <= i < 4 ==> 48 <= t[i] <= 57)
                 && 100 * (t[1] - 48) + 10 * (t[2] - 48) + (t[3] - 48) == b
  {
  }

  /** The text of a well-formed name, with its end, fits DNS_MAXNAME. */
  lemma TextFits(ls: Labels)
    requires GoodName(ls)
    ensures 1 <= |Text(ls)| + 1 <= MAXNAME
  {
    TextBound(ls, true);
  }

  // ---- what dns_ptodn reads ----

  datatype Parsed = Bad | NoRoom | Name(labels: Labels, isabs: bool)

  predicate Digit(b: Byte) {
    ZERO <= b <= NINE
  }

  function DigitValue(b: Byte): nat
    requires Digit(b)
  {
    b - ZERO
  }

  function Number(d: seq<Byte>): nat
    requires forall i :: 0 <= i < |d| ==> Digit(d[i])
  {
    if d == [] then 0 else 10 * Number(d[..|d| - 1]) + DigitValue(d[|d| - 1])
  }

  /** How many digits follow a backslash: three at most. */
  function Digits(t: seq<Byte>): (n: nat)
    ensures n <= 3 && n <= |t| && forall i :: 0 <= i < n ==> Digit(t[i])
  {
    if t == [] || !Digit(t[0]) then 0
    else if |t| == 1 || !Digit(t[1]) then 1
    else if |t| == 2 || !Digit(t[2]) then 2
    else 3
  }

  /** What stands for one byte at the start of t: the byte and the length, or a bad escape. */
  datatype Unit = BadEscape | Unit(value: Byte, used: nat)

  function ReadUnit(t: seq<Byte>): (u: Unit)
    requires t != []
    ensures u.Unit? ==> 1 <= u.used <= |t|
  {
    if t[0] != BACKSLASH then Unit(t[0], 1)
    else if |t| == 1 then BadEscape
    else
      var n := Digits(t[1..]);
      if n == 0 then Unit(t[1], 2)
      else if Number(t[1..1 + n]) > 255 then BadEscape
      else Unit(Number(t[1..1 + n]), 1 + n)
  }

  /** The first used bytes of t stand for the byte v: itself; or itself behind a backslash, if it is no digit; or one to three
      decimal digits there, as many as there are. */
  predicate Spells(t: seq<Byte>, v: nat, used: nat) {
    && 1 <= used <= |t| && v < 256
    && if t[0] != 92 then used == 1 && v == t[0]
       else && used >= 2
            && if !Digit(t[1]) then used == 2 && v == t[1]
               else && used <= 4 && (forall i :: 1 <= i < used ==> Digit(t[i])) && (used < 4 && used < |t| ==> !Digit(t[used]))
                    && v == if used == 2 then DigitValue(t[1])
                            else if used == 3 then 10 * DigitValue(t[1]) + DigitValue(t[2])
                            else 100 * DigitValue(t[1]) + 10 * DigitValue(t[2]) + DigitValue(t[3])
  }

  lemma UnitIs(t: seq<Byte>, v: Byte, used: nat)
    requires t != []
    ensures ReadUnit(t) == Unit(v, used) <==> Spells(t, v, used)
  {
    hide Number;
    if t[0] == BACKSLASH && |t| > 1 {
      var d := Digits(t[1..]);
      DigitsAre(t);
      var w := t[1..1 + d];
      assert (d > 0 ==> w[0] == t[1]) && (d > 1 ==> w[1] == t[2]) && (d > 2 ==> w[2] == t[3]);
      NumberIs(w);
    }
  }

  lemma DigitsAre(t: seq<Byte>)
    requires |t| > 1
    ensures var d := Digits(t[1..]);
            && d <= 3 && 1 + d <= |t| && (forall i :: 1 <= i < 1 + d ==> Digit(t[i])) && (d < 3 && 1 + d < |t| ==> !Digit(t[1 + d]))
  {
    var d := Digits(t[1..]);
    assert forall i :: 1 <= i < 1 + d ==> t[i] == t[1..][i - 1];
    assert d < |t[1..]| ==> t[1 + d] == t[1..][d];
  }

  lemma NumberIs(d: seq<Byte>)
    requires |d| <= 3 && forall i :: 0 <= i < |d| ==> Digit(d[i])
    ensures |d| == 1 ==> Number(d) == DigitValue(d[0])
    ensures |d| == 2 ==> Number(d) == 10 * DigitValue(d[0]) + DigitValue(d[1])
    ensures |d| == 3 ==> Number(d) == 100 * DigitValue(d[0]) + 10 * DigitValue(d[1]) + DigitValue(d[2])
    decreases |d|
  {
    if d != [] {
      NumberIs(d[..|d| - 1]);
      assert Number([]) == 0;
    }
  }

  /** t read on, after the complete labels ls and the bytes cur of the next one; room is for the labels. */
  function ReadFrom(t: seq<Byte>, ls: Labels, cur: Label, room: int): Parsed
    requires GoodLabels(ls)
    decreases |t|
  {
    if t == [] then
      if |cur| > MAXLABEL then Bad else Name(if cur == [] then ls else ls + [cur], cur == [])
    else if t[0] == DOT then
      if cur == [] then if ls == [] && |t| == 1 then Name([], true) else Bad
      else if |cur| > MAXLABEL then Bad
      else ReadFrom(t[1..], ls + [cur], [], room)
    else if |Wire0(ls)| + 1 + |cur| >= room then NoRoom
    else
      var u := ReadUnit(t);
      if u.BadEscape? then Bad else ReadFrom(t[u.used..], ls, cur + [u.value], room)
  }

  /** de - dn for a buffer of that size */
  function Room(size: nat): int {
    (if size >= MAXDN then MAXDN else size) - 1
  }

  /** Whatever is read is a well-formed name that fits. */
  lemma {:induction false} ReadIsGood(t: seq<Byte>, ls: Labels, cur: Label, room: int)
    requires GoodLabels(ls)
    requires |Wire0(ls)| + 1 + |cur| <= room + (if cur == [] then 1 else 0)
    ensures var r := ReadFrom(t, ls, cur, room);
            r.Name? ==> GoodLabels(r.labels) && |Wire0(r.labels)| <= room
    decreases |t|
  {
    if t == [] {
      if 1 <= |cur| <= MAXLABEL {
        WireConcat(ls, [cur]);
      }
    } else if t[0] == DOT {
      if cur != [] && |cur| <= MAXLABEL {
        WireConcat(ls, [cur]);
        ReadIsGood(t[1..], ls + [cur], [], room);
      }
    } else if |Wire0(ls)| + 1 + |cur| < room {
      var u := ReadUnit(t);
      if u.Unit? {
        ReadIsGood(t[u.used..], ls, cur + [u.value], room);
      }
    }
  }

  // ---- reading back what was printed ----

  lemma ReadByteText(b: Byte, rest: seq<Byte>)
    ensures ByteText(b) + rest != [] && (ByteText(b) + rest)[0] != DOT
    ensures var t := ByteText(b) + rest; ReadUnit(t) == Unit(b, |ByteText(b)|) && t[|ByteText(b)|..] == rest
  {
    var t := ByteText(b) + rest;
    assert t[|ByteText(b)|..] == rest;
    if !Special(b) && !Printable(b) {
      var d := [ZERO + b / 100, ZERO + b % 100 / 10, ZERO + b % 10];
      assert t[1..1 + 3] == d;
      assert t[1] == d[0] && t[2] == d[1] && t[3] == d[2];
      assert Digits(t[1..]) == 3;
      assert d[..2] == [d[0], d[1]] && d[..2][..1] == [d[0]] && d[..2][..1][..0] == [];
      assert Number([]) == 0;
      assert Number(d[..2][..1]) == b / 100;
      assert Number(d[..2]) == b / 10;
      assert Number(d) == b;
    }
  }

  lemma ReadByte(b: Byte, rest: seq<Byte>, ls: Labels, cur: Label, room: int)
    requires GoodLabels(ls) && |Wire0(ls)| + 1 + |cur| < room
    ensures ReadFrom(ByteText(b) + rest, ls, cur, room) == ReadFrom(rest, ls, cur + [b], room)
  {
    hide ByteText, ReadUnit, GoodLabels, Wire0;
    ReadByteText(b, rest);
  }

  lemma {:induction false} ReadLabelText(l: Label, rest: seq<Byte>, ls: Labels, cur: Label, room: int)
    requires GoodLabels(ls) && |Wire0(ls)| + 1 + |cur| + |l| <= room
    ensures ReadFrom(LabelText(l) + rest, ls, cur, room) == ReadFrom(rest, ls, cur + l, room)
    decreases |l|
  {
    hide ByteText, ReadFrom, GoodLabels, Wire0;
    if l == [] {
      assert [] + rest == rest && cur + [] == cur;
    } else {
      var more := LabelText(l[1..]) + rest;
      assert LabelText(l) + rest == ByteText(l[0]) + more;
      ReadByte(l[0], more, ls, cur, room);
      ReadLabelText(l[1..], rest, ls, cur + [l[0]], room);
      assert cur + [l[0]] + l[1..] == cur + l;
    }
  }

  lemma ReadDot(t: seq<Byte>, ls: Labels, cur: Label, room: int)
    requires GoodLabels(ls) && 1 <= |cur| <= MAXLABEL
    ensures GoodLabels(ls + [cur])
    ensures ReadFrom([DOT] + t, ls, cur, room) == ReadFrom(t, ls + [cur], [], room)
    ensures ReadFrom([], ls, cur, room) == Name(ls + [cur], false)
  {
    assert ([DOT] + t)[1..] == t;
  }

  lemma TextEnd()
    ensures TextFrom([], false) == [] && Text([]) == []
  {
  }

  lemma TextOf(ls: Labels)
    requires ls != []
    ensures TextFrom(ls, false) == [DOT] + (LabelText(ls[0]) + TextFrom(ls[1..], false))
    ensures Text(ls) == LabelText(ls[0]) + TextFrom(ls[1..], false)
  {
    hide LabelText;
    Assoc([DOT], LabelText(ls[0]), TextFrom(ls[1..], false));
  }

  /** The rest of a name, after the labels done and cur. */
  lemma {:induction false} ReadText(ls: Labels, done: Labels, cur: Label, room: int)
    requires GoodLabels(done) && GoodLabels(ls) && 1 <= |cur| <= MAXLABEL
    requires |Wire0(done)| + 1 + |cur| + |Wire0(ls)| <= room
    ensures ReadFrom(TextFrom(ls, false), done, cur, room) == Name(done + [cur] + ls, false)
    decreases |ls|
  {
    hide ReadFrom, LabelText, TextFrom;
    TextEnd();
    ReadDot([], done, cur, room);
    assert GoodLabels([cur]) && |Wire0([cur])| == 1 + |cur|;
    if ls == [] {
      assert done + [cur] + [] == done + [cur];
    } else {
      var rest := TextFrom(ls[1..], false);
      TextOf(ls);
      ReadDot(LabelText(ls[0]) + rest, done, cur, room);
      WireConcat(done, [cur]);
      ReadLabelText(ls[0], rest, done + [cur], [], room);
      assert [] + ls[0] == ls[0];
      ReadText(ls[1..], done + [cur], ls[0], room);
      assert done + [cur] + [ls[0]] + ls[1..] == done + [cur] + ls;
    }
  }

  /** Printing a well-formed name and reading it back gives that name. */
  lemma RoundTrip(ls: Labels)
    requires GoodName(ls)
    ensures ReadFrom(Text(ls), [], [], Room(MAXDN)) == Name(ls, ls == [])
  {
    hide LabelText;
    if ls != [] {
      var rest := TextFrom(ls[1..], false);
      TextOf(ls);
      assert [] + ls[0] == ls[0];
      ReadLabelText(ls[0], rest, [], [], Room(MAXDN));
      ReadText(ls[1..], [], ls[0], Room(MAXDN));
      assert [] + [ls[0]] + ls[1..] == ls;
    }
  }

  // ---- dns_ptodn ----

  /** The escape handling of dns_ptodn: the byte at np, or what a backslash there stands for. */
  method Escape(name: seq<Byte>, np0: nat) returns (ok: bool, c: nat, np: nat)
    requires np0 < |name|
    ensures var u := ReadUnit(name[np0..]);
            if u.BadEscape? then !ok else ok && c == u.value && np == np0 + u.used <= |name|
  {
    ok, np := true, np0;
    assert name[np0..][0] == name[np0];
    if name[np] != BACKSLASH {
      return true, name[np], np + 1;
    }
    np := np + 1;
    if np == |name| {
      return false, 0, np;
    }
    EscapeDigits(name, np0);
    ghost var d := Digits(name[np..]);
    if Digit(name[np]) {
      c, np := name[np] - ZERO, np + 1;
      if np < |name| && Digit(name[np]) {
        c, np := c * 10 + name[np] - ZERO, np + 1;
        if np < |name| && Digit(name[np]) {
          c, np := c * 10 + name[np] - ZERO, np + 1;
          assert d == 3 && c == Value(name[np0 + 1..np0 + 4]);
          if c > 255 {
            ok := false;
          }
        }
      }
    } else {
      c, np := name[np], np + 1;
    }
  }

  function Value(d: seq<Byte>): nat
    requires |d| <= 3 && forall i :: 0 <= i < |d| ==> Digit(d[i])
  {
    if |d| == 0 then 0
    else if |d| == 1 then DigitValue(d[0])
    else if |d| == 2 then 10 * DigitValue(d[0]) + DigitValue(d[1])
    else 10 * (10 * DigitValue(d[0]) + DigitValue(d[1])) + DigitValue(d[2])
  }

  lemma ValueIs(d: seq<Byte>)
    requires |d| <= 3 && forall i :: 0 <= i < |d| ==> Digit(d[i])
    ensures Number(d) == Value(d)
    decreases |d|
  {
    if d != [] {
      ValueIs(d[..|d| - 1]);
    }
  }

  lemma EscapeDigits(name: seq<Byte>, np: nat)
    requires np + 1 < |name| && name[np] == BACKSLASH
    ensures var d := Digits(name[np + 1..]);
            && np + 1 + d <= |name|
            && (forall i :: np + 1 <= i < np + 1 + d ==> Digit(name[i]))
            && (d < 3 && np + 1 + d < |name| ==> !Digit(name[np + 1 + d]))
            && ReadUnit(name[np..]) ==
                 if d == 0 then Unit(name[np + 1], 2)
                 else if Value(name[np + 1..np + 1 + d]) > 255 then BadEscape
                 else Unit(Value(name[np + 1..np + 1 + d]), 1 + d)
  {
    var t := name[np..];
    assert t[1..] == name[np + 1..];
    var d := Digits(t[1..]);
    assert t[1..1 + d] == name[np + 1..np + 1 + d];
    ValueIs(t[1..1 + d]);
  }

  /** How the buffer looks: the complete labels, a length byte still to be set, and the bytes of the next label. */
  ghost predicate Filling(dn: seq<Byte>, ls: Labels, cur: Label, llab: nat, dp: nat) {
    && GoodLabels(ls) && llab == |Wire0(ls)| + 1 && dp == llab + |cur|
    && llab <= |dn| && dn[..llab - 1] == Wire0(ls)
    && (cur != [] ==> dp <= |dn| && dn[llab..dp] == cur)
  }

  lemma FillByte(dn: seq<Byte>, ls: Labels, cur: Label, llab: nat, dp: nat, c: Byte)
    requires Filling(dn, ls, cur, llab, dp) && dp < |dn|
    ensures Filling(dn[dp := c], ls, cur + [c], llab, dp + 1)
  {
    hide GoodLabels, Wire0;
  }

  lemma FillLength(dn: seq<Byte>, ls: Labels, cur: Label, llab: nat, dp: nat)
    requires Filling(dn, ls, cur, llab, dp) && 1 <= |cur| <= MAXLABEL
    ensures dp <= |dn| && GoodLabels(ls + [cur])
    ensures dn[llab - 1 := |cur|][..dp] == Wire0(ls + [cur]) && |Wire0(ls + [cur])| == dp
    ensures dp < |dn| ==> Filling(dn[llab - 1 := |cur|], ls + [cur], [], dp + 1, dp + 1)
  {
    WireConcat(ls, [cur]);
    hide GoodLabels, Wire0;
    OneLabel(cur);
    var after := dn[llab - 1 := |cur|];
    assert after[..dp] == after[..llab - 1] + [after[llab - 1]] + after[llab..dp];
    assert after[..llab - 1] == Wire0(ls) && after[llab..dp] == cur;
    Assoc(Wire0(ls), [|cur|], cur);
  }

  lemma FillBounds(dn: seq<Byte>, ls: Labels, cur: Label, llab: nat, dp: nat)
    requires Filling(dn, ls, cur, llab, dp)
    ensures GoodLabels(ls) && 1 <= llab <= |dn| && dp == llab + |cur| == |Wire0(ls)| + 1 + |cur|
  {
  }

  lemma FillStart(dn: seq<Byte>)
    requires |dn| > 0
    ensures Filling(dn, [], [], 1, 1)
  {
  }

  // One step of ReadFrom.

  lemma ReadEnd(ls: Labels, cur: Label, room: int)
    requires GoodLabels(ls)
    ensures ReadFrom([], ls, cur, room) == if |cur| > MAXLABEL then Bad else Name(if cur == [] then ls else ls + [cur], cur == [])
  {
  }

  lemma ReadADot(t: seq<Byte>, ls: Labels, cur: Label, room: int)
    requires GoodLabels(ls) && t != [] && t[0] == DOT
    ensures ReadFrom(t, ls, cur, room) ==
              if cur == [] then if ls == [] && |t| == 1 then Name([], true) else Bad
              else if |cur| > MAXLABEL then Bad
              else ReadFrom(t[1..], ls + [cur], [], room)
  {
  }

  lemma ReadAUnit(t: seq<Byte>, ls: Labels, cur: Label, room: int)
    requires GoodLabels(ls) && t != [] && t[0] != DOT
    ensures ReadFrom(t, ls, cur, room) ==
              if |Wire0(ls)| + 1 + |cur| >= room then NoRoom
              else if ReadUnit(t).BadEscape? then Bad
              else ReadFrom(t[ReadUnit(t).used..], ls, cur + [ReadUnit(t).value], room)
  {
  }

  lemma OneLabel(l: Label)
    requires 1 <= |l| <= MAXLABEL
    ensures GoodLabels([l]) && Wire0([l]) == [|l|] + l
  {
  }

  /** dns_ptodn: what it returns, and what it leaves in dn. */
  method PToDn(name: seq<Byte>, dn: array<Byte>) returns (r: int, isabs: bool)
    modifies dn
    ensures dn.Length == 0 ==> r == 0
    ensures dn.Length > 0 ==>
              match ReadFrom(name, [], [], Room(dn.Length))
              case Bad => r == -1
              case NoRoom => r == if dn.Length >= MAXDN then -1 else 0
              case Name(ls, abs) => GoodName(ls) && 1 <= r <= dn.Length && dn[..r] == Wire(ls) && isabs == abs
  {
    hide GoodLabels, Wire0, ReadUnit, ReadFrom, Filling;
    r, isabs := 0, false;
    if dn.Length == 0 {
      return;
    }
    var de: int := Room(dn.Length);
    var np: nat, dp: nat, llab: nat := 0, 1, 1;
    ghost var ls: Labels, cur: Label := [], [];
    FillStart(dn[..]);
    FillBounds(dn[..], ls, cur, llab, dp);
    assert name[0..] == name;
    while np < |name|
      invariant np <= |name| && Filling(dn[..], ls, cur, llab, dp) && GoodLabels(ls)
      invariant dp <= de + (if cur == [] then 1 else 0)
      invariant np == 0 <==> ls == [] && cur == []
      invariant ReadFrom(name, [], [], de) == ReadFrom(name[np..], ls, cur, de)
    {
      FillBounds(dn[..], ls, cur, llab, dp);
      assert name[np..][0] == name[np] && name[np..][1..] == name[np + 1..];
      if name[np] == DOT {
        ReadADot(name[np..], ls, cur, de);
        var c := dp - llab;
        if c == 0 {
          if np == 0 && np + 1 == |name| {
            np := np + 1;
            ReadEnd([], [], de);
            assert name[np..] == [];
            break;
          }
          return -1, false;
        }
        if c > MAXLABEL {
          return -1, false;
        }
        FillLength(dn[..], ls, cur, llab, dp);
        dn[llab - 1] := c;
        ls, cur := ls + [cur], [];
        dp := dp + 1;
        llab := dp;
        np := np + 1;
      } else {
        ReadAUnit(name[np..], ls, cur, de);
        if dp >= de {
          return if dn.Length >= MAXDN then -1 else 0, false;
        }
        var ok, c, next := Escape(name, np);
        if !ok {
          return -1, false;
        }
        assert name[np..][next - np..] == name[next..];
        FillByte(dn[..], ls, cur, llab, dp, c);
        dn[dp] := c;
        cur := cur + [c];
        dp, np := dp + 1, next;
      }
    }
    assert name[np..] == [];
    FillBounds(dn[..], ls, cur, llab, dp);
    ReadEnd(ls, cur, de);
    r, isabs := Finish(dn, llab, dp, ls, cur);
  }

  /** The last label and the end of the name. */
  method Finish(dn: array<Byte>, llab: nat, dp: nat, ghost ls: Labels, ghost cur: Label) returns (r: int, isabs: bool)
    requires Filling(dn[..], ls, cur, llab, dp) && GoodLabels(ls)
    requires dp <= Room(dn.Length) + (if cur == [] then 1 else 0)
    modifies dn
    ensures |cur| > MAXLABEL ==> r == -1
    ensures |cur| <= MAXLABEL ==>
              var all := if cur == [] then ls else ls + [cur];
              GoodName(all) && 1 <= r <= dn.Length && dn[..r] == Wire(all) && isabs == (cur == [])
  {
    hide GoodLabels, Wire0, Filling;
    FillBounds(dn[..], ls, cur, llab, dp);
    var c := dp - llab;
    if c > MAXLABEL {
      return -1, false;
    }
    if c != 0 {
      FillLength(dn[..], ls, cur, llab, dp);
      dn[llab - 1] := c;
      dn[dp] := 0;
      assert dn[..dp + 1] == dn[..dp] + [0];
      r, isabs := dp + 1, false;
    } else {
      FillEmpty(dn[..], ls, llab);
      dn[llab - 1] := c;
      r, isabs := dp, true;
    }
  }

  lemma FillEmpty(dn: seq<Byte>, ls: Labels, llab: nat)
    requires Filling(dn, ls, [], llab, llab)
    ensures GoodLabels(ls) && dn[llab - 1 := 0][..llab] == Wire(ls)
  {
    hide Wire0, GoodLabels;
  }

  // ---- dns_dntop_size and dns_dntop ----

  /** dns_dntop_size, for a name in wire form; TextFits says when it is not zero */
  method DnToPSize(dn: seq<Byte>, ghost ls: Labels) returns (size: nat)
    requires GoodLabels(ls) && dn == Wire(ls)
    ensures size == if |Text(ls)| + 1 > MAXNAME then 0 else |Text(ls)| + 1
  {
    hide LabelText, GoodLabels, Wire0;
    size := 0;
    var p: nat := 0;
    ghost var rest := ls;
    while dn[p] != 0
      invariant p < |dn| && GoodLabels(rest) && dn[p..] == Wire(rest)
      invariant size + |TextFrom(rest, size == 0)| == |Text(ls)|
      decreases |rest|
    {
      FirstLabel(dn, p, rest);
      if size > 0 {
        size := size + 1;
      }
      var le := p + dn[p] + 1;
      var n := LabelSize(dn, p + 1, le);
      size, p := size + n, le;
      rest := rest[1..];
    }
    LastLabel(dn, p, rest);
    size := size + 1;
    size := if size > MAXNAME then 0 else size;
  }

  /** The text of one label. */
  method LabelSize(dn: seq<Byte>, from: nat, le: nat) returns (size: nat)
    requires from <= le <= |dn|
    ensures size == |LabelText(dn[from..le])|
  {
    hide ByteText, LabelText;
    size := 0;
    var p := from;
    while p < le
      invariant from <= p <= le
      invariant size + |LabelText(dn[p..le])| == |LabelText(dn[from..le])|
    {
      LabelStep(dn, p, le);
      var b := dn[p];
      if Special(b) {
        size := size + 2;
      } else if b <= 0x20 || b >= 0x7f {
        size := size + 4;
      } else {
        size := size + 1;
      }
      p := p + 1;
    }
    EmptyLabel(dn, le);
  }

  /** dns_dntop, to offset at, with namesiz bytes for the name: it is printed just when it fits with its end.
      The array may be shorter if the name does not need so many bytes. */
  method DnToP(dn: seq<Byte>, name: array<Byte>, at: nat, namesiz: nat, ghost ls: Labels) returns (r: int)
    requires GoodLabels(ls) && dn == Wire(ls)
    requires at <= name.Length && (at + namesiz <= name.Length || at + |Text(ls)| + 1 <= name.Length)
    modifies name
    ensures name[..at] == old(name[..at])
    ensures namesiz >= |Text(ls)| + 1 ==> r == |Text(ls)| + 1 && name[..at + r] == old(name[..at]) + (Text(ls) + [0])
    ensures namesiz < |Text(ls)| + 1 ==> r == if namesiz >= MAXNAME then -1 else 0
  {
    hide LabelText, GoodLabels, Wire0, TextFrom, ItemText;
    var p: nat, np: nat, ne := 0, at, at + namesiz;
    ghost var rest, done: seq<Byte>, pre := ls, [], name[..at];
    assert pre + [] == pre && [] + Text(ls) == Text(ls);
    while dn[p] != 0
      invariant p < |dn| && GoodLabels(rest) && dn[p..] == Wire(rest)
      invariant np == at + |done| <= ne && np <= name.Length && name[..np] == pre + done
      invariant done + TextFrom(rest, np == at) == Text(ls)
      decreases |rest|
    {
      FirstLabel(dn, p, rest);
      var le := p + dn[p] + 1;
      ghost var item := ItemText(rest[0], np == at);
      Appended(done, item, TextFrom(rest[1..], false), pre);
      var ok, next := DotAndLabel(dn, p + 1, le, name, np, ne, np == at);
      if !ok {
        Kept(name[..], pre, done);
        return if namesiz >= MAXNAME then -1 else 0;
      }
      np, p := next, le;
      rest, done := rest[1..], done + item;
    }
    LastLabel(dn, p, rest);
    assert done + [] == done;
    Kept(name[..], pre, done);
    if np >= ne {
      return if namesiz >= MAXNAME then -1 else 0;
    }
    PutByte(name, np, 0);
    r := np - at + 1;
    Assoc(pre, done, [0]);
    Kept(name[..], pre, done + [0]);
  }

  lemma Kept(name: seq<Byte>, pre: seq<Byte>, done: seq<Byte>)
    requires pre + done <= name
    ensures name[..|pre|] == pre
  {
  }

  lemma Appended(done: seq<Byte>, item: seq<Byte>, rest: seq<Byte>, pre: seq<Byte>)
    ensures done + (item + rest) == (done + item) + rest && (pre + done) + item == pre + (done + item)
  {
  }

  /** A label, behind a dot unless it is the first one. */
  method DotAndLabel(dn: seq<Byte>, from: nat, le: nat, name: array<Byte>, start: nat, ne: nat, first: bool)
    returns (ok: bool, np: nat)
    requires from < le <= |dn| && start <= ne && start <= name.Length
    requires ne <= name.Length || start + |ItemText(dn[from..le], first)| <= name.Length
    modifies name
    ensures name[..start] == old(name[..start])
    ensures var item := ItemText(dn[from..le], first);
            if ok then np <= ne && np <= name.Length && name[..np] == old(name[..start]) + item
            else start + |item| >= ne
  {
    hide LabelText;
    ghost var pre := name[..start];
    np := start;
    if !first {
      if np >= ne {
        return false, np;
      }
      PutByte(name, np, DOT);
      np := np + 1;
      Kept(name[..], pre, [DOT]);
    }
    ghost var dotted := name[..np];
    assert dotted == pre + if first then [] else [DOT];
    ok, np := LabelToP(dn, from, le, name, np, ne);
    Assoc(pre, if first then [] else [DOT], LabelText(dn[from..le]));
    Kept(name[..], pre, if first then [] else [DOT]);
  }

  /** One label, if there is room for it and one more byte. */
  method LabelToP(dn: seq<Byte>, from: nat, le: nat, name: array<Byte>, start: nat, ne: nat) returns (ok: bool, np: nat)
    requires from <= le <= |dn| && start <= ne && start <= name.Length
    requires ne <= name.Length || start + |LabelText(dn[from..le])| <= name.Length
    modifies name
    ensures name[..start] == old(name[..start])
    ensures ok ==> np <= ne && np <= name.Length && name[..np] == old(name[..start]) + LabelText(dn[from..le])
    ensures !ok ==> start + |LabelText(dn[from..le])| >= ne
  {
    hide LabelText;
    var p := from;
    np := start;
    ghost var before := name[..start];
    ghost var done: seq<Byte> := [];
    while p < le
      invariant from <= p <= le && np == start + |done| <= ne && np <= name.Length
      invariant name[..np] == before + done && done + LabelText(dn[p..le]) == LabelText(dn[from..le])
    {
      LabelStep(dn, p, le);
      Assoc(done, ByteText(dn[p]), LabelText(dn[p + 1..le]));
      ok, np := ByteToP(dn[p], name, np, ne);
      if !ok {
        Kept(name[..], before, done);
        return;
      }
      Assoc(before, done, ByteText(dn[p]));
      done := done + ByteText(dn[p]);
      p := p + 1;
    }
    EmptyLabel(dn, le);
    assert done + [] == done;
    Kept(name[..], before, done);
    ok := true;
  }

  method PutByte(name: array<Byte>, np: nat, b: Byte)
    requires np < name.Length
    modifies name
    ensures name[..np + 1] == old(name[..np]) + [b]
  {
    name[np] := b;
  }

  /** The decimal escape. */
  method Decimal(b: Byte, name: array<Byte>, np: nat)
    requires np + 4 <= name.Length
    modifies name
    ensures name[..np] == old(name[..np])
    ensures name[np..np + 4] == [BACKSLASH, ZERO + b / 100, ZERO + b % 100 / 10, ZERO + b % 10]
  {
    name[np] := BACKSLASH;
    name[np + 1] := ZERO + b / 100;
    name[np + 2] := ZERO + b % 100 / 10;
    name[np + 3] := ZERO + b % 10;
  }

  method ByteToP(b: Byte, name: array<Byte>, start: nat, ne: nat) returns (ok: bool, np: nat)
    requires start <= ne && start <= name.Length && (ne <= name.Length || start + |ByteText(b)| <= name.Length)
    modifies name
    ensures name[..start] == old(name[..start])
    ensures ok ==> np == start + |ByteText(b)| <= ne && np <= name.Length && name[..np] == old(name[..start]) + ByteText(b)
    ensures !ok ==> np == start && start + |ByteText(b)| >= ne
  {
    ok, np := true, start;
    ghost var before := name[..start];
    if Special(b) {
      if np + 2 > ne {
        return false, np;
      }
      name[np] := BACKSLASH;
      name[np + 1] := b;
      np := np + 2;
    } else if b <= 0x20 || b >= 0x7f {
      if np + 4 >= ne {
        return false, np;
      }
      Decimal(b, name, np);
      np := np + 4;
    } else {
      if np >= ne {
        return false, np;
      }
      name[np] := b;
      np := np + 1;
    }
    assert name[..start] == before;
    assert name[..np] == name[..start] + name[start..np];
  }

  lemma WireParts(ls: Labels)
    requires GoodLabels(ls) && ls != []
    ensures GoodLabels(ls[1..]) && Wire(ls) == [|ls[0]|] + ls[0] + Wire(ls[1..])
  {
  }

  lemma FirstLabel(dn: seq<Byte>, p: nat, rest: Labels)
    requires p < |dn| && GoodLabels(rest) && dn[p..] == Wire(rest) && dn[p] != 0
    ensures rest != [] && GoodLabels(rest[1..])
    ensures var le := p + dn[p] + 1; le < |dn| && rest[0] == dn[p + 1..le] && dn[le..] == Wire(rest[1..])
    ensures forall first: bool :: TextFrom(rest, first) == ItemText(rest[0], first) + TextFrom(rest[1..], false)
    ensures forall first: bool :: |ItemText(rest[0], first)| == |LabelText(rest[0])| + (if first then 0 else 1)
    ensures |LabelText(rest[0])| > 0
  {
    assert dn[p..][0] == dn[p];
    assert rest != [];
    var l, w := rest[0], dn[p..];
    WireParts(rest);
    assert w[1..1 + |l|] == l;
    assert w[1 + |l|..] == Wire(rest[1..]);
    assert dn[p + 1..p + 1 + |l|] == w[1..1 + |l|];
    assert dn[p + 1 + |l|..] == w[1 + |l|..];
  }

  lemma LastLabel(dn: seq<Byte>, p: nat, rest: Labels)
    requires p < |dn| && GoodLabels(rest) && dn[p..] == Wire(rest) && dn[p] == 0
    ensures rest == [] && TextFrom(rest, false) == [] == TextFrom(rest, true)
  {
    assert dn[p..][0] == dn[p];
  }

  lemma LabelStep(dn: seq<Byte>, p: nat, le: nat)
    requires p < le <= |dn|
    ensures LabelText(dn[p..le]) == ByteText(dn[p]) + LabelText(dn[p + 1..le])
    ensures |ByteText(dn[p])| == if Special(dn[p]) then 2 else if dn[p] <= 0x20 || dn[p] >= 0x7f then 4 else 1
  {
    assert dn[p..le][1..] == dn[p + 1..le];
  }

  lemma EmptyLabel(dn: seq<Byte>, le: nat)
    requires le <= |dn|
    ensures LabelText(dn[le..le]) == []
  {
  }

  // ---- dns_dnlen and dns_dnequal ----

  /** dns_dnlen */
  method DnLen(dn: seq<Byte>, at: nat, ghost ls: Labels) returns (n: nat)
    requires at <= |dn| && GoodLabels(ls) && Wire(ls) <= dn[at..]
    ensures n == |Wire(ls)|
  {
    var p := at;
    ghost var rest := ls;
    while dn[p] != 0
      invariant at <= p < |dn| && GoodLabels(rest) && Wire(rest) <= dn[p..]
      invariant p - at + |Wire(rest)| == |Wire(ls)|
      decreases |rest|
    {
      SkipLabel(dn, p, rest);
      p := p + 1 + dn[p];
      rest := rest[1..];
    }
    n := p - at + 1;
  }

  lemma SkipLabel(dn: seq<Byte>, p: nat, rest: Labels)
    requires p < |dn| && GoodLabels(rest) && Wire(rest) <= dn[p..] && dn[p] != 0
    ensures rest != [] && GoodLabels(rest[1..]) && |rest[0]| == dn[p]
    ensures var le := p + dn[p] + 1; le < |dn| && rest[0] == dn[p + 1..le] && Wire(rest[1..]) <= dn[le..]
    ensures |Wire(rest)| == 1 + |rest[0]| + |Wire(rest[1..])|
  {
    assert dn[p..][0] == dn[p] == Wire(rest)[0];
    assert rest != [];
    var l, w := rest[0], dn[p..];
    WireParts(rest);
    assert w[1..1 + |l|] == Wire(rest)[1..1 + |l|] == l;
    assert Wire(rest)[1 + |l|..] == Wire(rest[1..]);
    assert dn[p + 1..p + 1 + |l|] == w[1..1 + |l|];
    assert dn[p + 1 + |l|..] == w[1 + |l|..];
  }

  function Lower(b: Byte): Byte {
    if 65 <= b <= 90 then b - 65 + 97 else b
  }

  /** The same letters, whatever their case. */
  predicate SameLabel(a: Label, b: Label) {
    |a| == |b| && forall i :: 0 <= i < |a| ==> Lower(a[i]) == Lower(b[i])
  }

  predicate SameName(a: Labels, b: Labels) {
    if a == [] || b == [] then a == b else SameLabel(a[0], b[0]) && SameName(a[1..], b[1..])
  }

  /** Equal bytes, or the two cases of one of 26 letters. */
  predicate SameCase(a: Byte, b: Byte) {
    a == b || (65 <= a < 65 + 26 && b == a + 32) || (65 <= b < 65 + 26 && a == b + 32)
  }

  lemma LowerIs(a: Byte, b: Byte)
    ensures Lower(a) == Lower(b) <==> SameCase(a, b)
  {
  }

  lemma SameLabelIs(a: Label, b: Label)
    ensures SameLabel(a, b) <==> |a| == |b| && forall i :: 0 <= i < |a| ==> SameCase(a[i], b[i])
  {
    hide Lower, SameCase;
    forall x: Byte, y: Byte ensures Lower(x) == Lower(y) <==> SameCase(x, y) {
      LowerIs(x, y);
    }
  }

  /** Names are the same if they have as many labels, as long ones, and the same bytes but for the case of letters. */
  lemma {:induction false} SameNameIs(a: Labels, b: Labels)
    ensures SameName(a, b) <==>
              |a| == |b| && forall i :: 0 <= i < |a| ==>
                |a[i]| == |b[i]| && forall j :: 0 <= j < |a[i]| ==> SameCase(a[i][j], b[i][j])
  {
    hide SameLabel, SameCase;
    if a != [] && b != [] {
      SameLabelIs(a[0], b[0]);
      SameNameIs(a[1..], b[1..]);
      assert a == [a[0]] + a[1..] && b == [b[0]] + b[1..];
    }
  }

  /** dns_dnequal: the length of the name if both are the same, and 0 otherwise */
  method DnEqual(dn1: seq<Byte>, dn2: seq<Byte>, ghost a: Labels, ghost b: Labels) returns (n: nat)
    requires GoodLabels(a) && GoodLabels(b) && Wire(a) <= dn1 && Wire(b) <= dn2
    ensures n > 0 <==> SameName(a, b)
    ensures n > 0 ==> n == |Wire(a)| == |Wire(b)|
  {
    hide SameLabel, Wire, GoodLabels;
    var p: nat := 0;
    ghost var ra, rb := a, b;
    assert dn1[0..] == dn1 && dn2[0..] == dn2;
    WireSome(a);
    WireSome(b);
    while true
      invariant GoodLabels(ra) && GoodLabels(rb) && (SameName(a, b) <==> SameName(ra, rb))
      invariant p < |dn1| && p < |dn2| && Wire(ra) <= dn1[p..] && Wire(rb) <= dn2[p..]
      invariant p + |Wire(ra)| == |Wire(a)| && p + |Wire(rb)| == |Wire(b)|
      decreases |ra|
    {
      var c := dn1[p];
      LabelLengths(dn1, p, ra);
      LabelLengths(dn2, p, rb);
      if c != dn2[p] {
        if ra != [] && rb != [] {
          SameLengths(ra[0], rb[0]);
        }
        return 0;
      }
      if c == 0 {
        return p + 1;
      }
      SkipLabel(dn1, p, ra);
      SkipLabel(dn2, p, rb);
      var same := EqualBytes(dn1, dn2, p + 1, p + 1 + c);
      if !same {
        return 0;
      }
      p := p + 1 + c;
      ra, rb := ra[1..], rb[1..];
    }
  }

  lemma WireSome(ls: Labels)
    requires GoodLabels(ls)
    ensures |Wire(ls)| > 0
  {
  }

  lemma SameLengths(a: Label, b: Label)
    ensures SameLabel(a, b) ==> |a| == |b|
  {
  }

  lemma LabelLengths(dn: seq<Byte>, p: nat, rest: Labels)
    requires p < |dn| && GoodLabels(rest) && Wire(rest) <= dn[p..]
    ensures dn[p] == if rest == [] then 0 else |rest[0]|
    ensures rest != [] ==> dn[p] != 0
    ensures rest == [] ==> |Wire(rest)| == 1
  {
    assert dn[p..][0] == dn[p] == Wire(rest)[0];
  }

  method EqualBytes(dn1: seq<Byte>, dn2: seq<Byte>, from: nat, to: nat) returns (same: bool)
    requires from <= to <= |dn1| && to <= |dn2|
    ensures same <==> SameLabel(dn1[from..to], dn2[from..to])
  {
    var p := from;
    while p < to
      invariant from <= p <= to && forall k :: from <= k < p ==> Lower(dn1[k]) == Lower(dn2[k])
    {
      if Lower(dn1[p]) != Lower(dn2[p]) {
        assert dn1[from..to][p - from] == dn1[p] && dn2[from..to][p - from] == dn2[p];
        return false;
      }
      p := p + 1;
    }
    same := true;
  }
}
