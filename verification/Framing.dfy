/** The frames of auth_sha1_v4 and auth_aes128_sha1: length, check, padding, data and a checksum of it all. */
module Framing {

  import opened Basics
  import opened Buffers
  import Adler32

  const WORD32 := 0x1_0000_0000
  const UNIT := 2000             // auth_simple_pack_unit_size
  const RECV := 16384            // the size of recv_buffer
  const LONGEST := 2009          // no frame that the packers make is longer

  type Id = x: int | 0 <= x < WORD32
  type Two = s: seq<Byte> | |s| == 2 witness [0, 0]
  type Hash = s: seq<Byte> | |s| == 20 witness seq(20, _ => 0)

  /** V4 has the low half of a CRC of the length, and Adler-32; Aes has a keyed hash, which counts the frames. */
  datatype Codec = V4(crc: Two -> Two) | Aes(hmac: (Id, seq<Byte>) -> Hash)

  /** The length in the first two bytes. */
  function LengthBytes(c: Codec, n: nat): Two {
    if c.V4? then [n / 256 % 256, n % 256] else [n % 256, n / 256 % 256]
  }

  function Length(c: Codec, a: Byte, b: Byte): nat {
    if c.V4? then 256 * (a as int) + b as int else 256 * (b as int) + a as int
  }

  function Check(c: Codec, id: Id, head: Two): Two {
    match c
    case V4(crc) => crc(head)
    case Aes(hmac) => hmac(id, head)[..2]
  }

  function Trailer(c: Codec, id: Id, body: seq<Byte>): (t: seq<Byte>)
    ensures |t| == 4
  {
    match c
    case V4(_) => AdlerBytes(body)
    case Aes(hmac) => hmac(id, body)[..4]
  }

  function AdlerBytes(body: seq<Byte>): (t: seq<Byte>)
    ensures |t| == 4
  {
    var a := Adler32.Adler(body);
    assert a < WORD32;
    Adler32.Bytes(a)
  }

  function Shortest(c: Codec): nat { if c.V4? then 7 else 8 }

  function Next(c: Codec, id: Id): Id { if c.V4? then id else (id + 1) % WORD32 }

  /** The padding, with its own length in its first byte, or in the two bytes behind a 255. */
  function Marked(c: Codec, pad: seq<Byte>): (m: seq<Byte>)
    requires 1 <= |pad| <= 1024
    ensures |m| == |pad|
  {
    if |pad| < 128 then pad[0 := |pad|]
    else pad[0 := 255][1 := LengthBytes(c, |pad|)[0]][2 := LengthBytes(c, |pad|)[1]]
  }

  function Body(c: Codec, id: Id, pad: seq<Byte>, data: seq<Byte>): (b: seq<Byte>)
    requires 1 <= |pad| <= 1024
    ensures |b| == 4 + |pad| + |data|
  {
    var head := LengthBytes(c, |pad| + |data| + 8);
    head + Check(c, id, head) + Marked(c, pad) + data
  }

  function Frame(c: Codec, id: Id, pad: seq<Byte>, data: seq<Byte>): (f: seq<Byte>)
    requires 1 <= |pad| <= 1024
    ensures |f| == |pad| + |data| + 8
  {
    var body := Body(c, id, pad, data);
    body + Trailer(c, id, body)
  }

  /** A number of two bytes, the more significant one first for V4 and last for Aes. */
  predicate IsNumber(c: Codec, a: Byte, b: Byte, n: nat) {
    if c.V4? then a == n / 256 && b == n % 256 else b == n / 256 && a == n % 256
  }

  /** A frame byte by byte: its length, the check of that, the length of the padding and the rest of it, the data, and the
      trailer, which covers all of it. */
  predicate IsFrame(c: Codec, id: Id, pad: seq<Byte>, data: seq<Byte>, f: seq<Byte>) {
    var n, p := |f|, |pad|;
    && n == p + |data| + 8 && p >= 1 && IsNumber(c, f[0], f[1], n)
    && f[2..4] == (if c.V4? then c.crc(f[..2]) else c.hmac(id, f[..2])[..2])
    && (if p < 128 then f[4] == p && f[5..4 + p] == pad[1..]
        else f[4] == 255 && IsNumber(c, f[5], f[6], p) && f[7..4 + p] == pad[3..])
    && f[4 + p..n - 4] == data
    && f[n - 4..] == (if c.V4? then AdlerBytes(f[..n - 4]) else c.hmac(id, f[..n - 4])[..4])
  }

  lemma FrameIs(c: Codec, id: Id, pad: seq<Byte>, data: seq<Byte>)
    requires 1 <= |pad| <= 1024 && |pad| + |data| + 8 < 0x1_0000
    ensures IsFrame(c, id, pad, data, Frame(c, id, pad, data))
  {
    hide AdlerBytes, Marked, LengthBytes, Check, Trailer, IsNumber;
    var body, f := Body(c, id, pad, data), Frame(c, id, pad, data);
    var head, m := LengthBytes(c, |f|), Marked(c, pad);
    FrameParts(head, Check(c, id, head), m, data, Trailer(c, id, body));
    assert f[..|f| - 4] == body;
    LengthIs(c, |f|);
    CheckIs(c, id, head);
    TrailerIs(c, id, body);
    MarkedIs(c, pad);
    assert f[4] == m[0] && (|pad| >= 128 ==> f[5] == m[1] && f[6] == m[2]);
    if |pad| < 128 {
      assert f[5..4 + |pad|] == f[4..4 + |pad|][1..];
    } else {
      assert f[7..4 + |pad|] == f[4..4 + |pad|][3..];
    }
  }

  lemma LengthIs(c: Codec, n: nat)
    requires n < 0x1_0000
    ensures var l := LengthBytes(c, n); IsNumber(c, l[0], l[1], n)
  {
  }

  lemma CheckIs(c: Codec, id: Id, head: Two)
    ensures Check(c, id, head) == if c.V4? then c.crc(head) else c.hmac(id, head)[..2]
  {
  }

  lemma TrailerIs(c: Codec, id: Id, body: seq<Byte>)
    ensures Trailer(c, id, body) == if c.V4? then AdlerBytes(body) else c.hmac(id, body)[..4]
  {
  }

  lemma FrameParts(head: Two, check: Two, m: seq<Byte>, data: seq<Byte>, t: seq<Byte>)
    ensures var f := head + check + m + data + t;
            && f[0] == head[0] && f[1] == head[1]
            && f[..2] == head && f[2..4] == check && f[4..4 + |m|] == m && f[4 + |m|..4 + |m| + |data|] == data
            && f[4 + |m| + |data|..] == t && (forall i :: 0 <= i < |m| ==> f[4 + i] == m[i])
  {
  }

  lemma MarkedIs(c: Codec, pad: seq<Byte>)
    requires 1 <= |pad| <= 1024
    ensures var m := Marked(c, pad);
            if |pad| < 128 then m[0] == |pad| && m[1..] == pad[1..]
            else m[0] == 255 && IsNumber(c, m[1], m[2], |pad|) && m[3..] == pad[3..]
  {
  }

  // ---- the first packet ----

  /** An address in the form that a request begins with. */
  datatype Address = Ip4(host: seq<Byte>, port: Two) | Ip6(host: seq<Byte>, port: Two) | Domain(host: seq<Byte>, port: Two) {
    predicate Valid() {
      if Ip4? then |host| == 4 else if Ip6? then |host| == 16 else |host| < 256
    }

    function Bytes(): seq<Byte>
      requires Valid()
    {
      (if Ip4? then [1] else if Ip6? then [4] else [3, |host|]) + host + port
    }
  }

  /** A char, which is signed. */
  function Signed(b: Byte): int { if b < 128 then b else b - 256 }

  /** get_head_size */
  function HeadSize(plain: seq<Byte>, default: nat): int {
    if |plain| < 2 then default
    else if plain[0] % 8 == 1 then 7
    else if plain[0] % 8 == 4 then 19
    else if plain[0] % 8 == 3 then 4 + Signed(plain[1])
    else default
  }

  /** The head is the address, whatever flags are in the five upper bits of its type, exactly if that is not a domain of 128
      bytes or more. Then it is 256 bytes shorter, and its size is negative unless the domain has 252 bytes or more. */
  lemma HeadIsAddress(a: Address, flags: nat, more: seq<Byte>, default: nat)
    requires a.Valid() && flags < 32
    ensures var b := a.Bytes();
            b[0] < 8 && var plain, n := [8 * flags + b[0]] + b[1..] + more, |b|;
            && (HeadSize(plain, default) == n <==> !(a.Domain? && |a.host| >= 128))
            && (a.Domain? && |a.host| >= 128 ==> HeadSize(plain, default) == n - 256)
            && (HeadSize(plain, default) < 0 <==> a.Domain? && 128 <= |a.host| < 252)
  {
    var b := a.Bytes();
    var plain := [8 * flags + b[0]] + b[1..] + more;
    assert plain[0] == 8 * flags + b[0] && plain[1] == b[1];
    assert plain[0] % 8 == b[0];
  }

  /** What is no address. */
  lemma NoAddress(plain: seq<Byte>, flags: nat, t: nat, default: nat)
    requires |plain| <= 1 || (plain[0] == 8 * flags + t && t in [0, 2, 5, 6, 7])
    ensures HeadSize(plain, default) == default
  {
  }

  /** A domain of 130 bytes. */
  lemma HeadSizeExample(host: seq<Byte>, port: Two)
    requires |host| == 130
    ensures Domain(host, port).Valid() && HeadSize(Domain(host, port).Bytes(), 30) == -122
  {
    var b := Domain(host, port).Bytes();
    HeadIsAddress(Domain(host, port), 0, [], 30);
    assert [8 * 0 + b[0]] + b[1..] + [] == b;
  }

  /** What the first packet is made with: the keyed checks of its length and of all of it; the time, client and connection as
      they are sent, for Aes encrypted together with the length and the padding. */
  datatype Keys = Keys(crc: Two -> seq<Byte>, mac: seq<Byte> -> Hash, user: seq<Byte> -> Hash, stamp: (nat, nat) -> seq<Byte>) {
    ghost predicate Valid(c: Codec) {
      (forall l: Two :: |crc(l)| == 4) && forall n: nat, r: nat :: |stamp(n, r)| == if c.V4? then 12 else 24
    }
  }

  /** The first packet, byte by byte. */
  ghost predicate IsFirst(c: Codec, k: Keys, pad: seq<Byte>, data: seq<Byte>, f: seq<Byte>) {
    var n, p := |f|, |pad|;
    if c.V4? then
      && n == p + |data| + 28 && p >= 1 && Allowed(c, 1, |data|, p)
      && IsNumber(c, f[0], f[1], n) && f[2..6] == k.crc(f[..2])
      && (if p < 128 then f[6] == p && f[7..6 + p] == pad[1..]
          else f[6] == 255 && IsNumber(c, f[7], f[8], p) && f[9..6 + p] == pad[3..])
      && f[6 + p..18 + p] == k.stamp(n, p) && f[18 + p..n - 10] == data && f[n - 10..] == k.mac(f[..n - 10])[..10]
    else
      && n == p + |data| + 35 && (p == 0 || p == if |data| > 400 then 0x200 else 0x400)
      && f[1..7] == k.mac(f[..1])[..6] && f[7..31] == k.stamp(n, p) && f[31..31 + p] == pad
      && f[31 + p..n - 4] == data && f[n - 4..] == k.user(f[..n - 4])[..4]
  }

  // ---- reading ----

  /** Data and what is left over; or a wrong check; or a padding that reaches behind the frame, which is not caught. */
  datatype Parsed = Parsed(out: seq<Byte>, rest: seq<Byte>, id: Id) | Bad | Fault

  function After(out: seq<Byte>, r: Parsed): Parsed {
    if r.Parsed? then Parsed(out + r.out, r.rest, r.id) else r
  }

  /** Where the data of a frame begins. */
  function Position(c: Codec, buf: seq<Byte>): nat
    requires |buf| >= 7
  {
    4 + if buf[4] < 255 then buf[4] as int else Length(c, buf[5], buf[6])
  }

  predicate HeadOk(c: Codec, buf: seq<Byte>, id: Id)
    requires |buf| > 4
  {
    buf[2..4] == Check(c, id, buf[..2]) && Shortest(c) <= Length(c, buf[0], buf[1]) < 8192
  }

  function Parse(c: Codec, buf: seq<Byte>, id: Id): Parsed
    decreases |buf|
  {
    if |buf| <= 4 then Parsed([], buf, id)
    else if !HeadOk(c, buf, id) then Bad
    else
      var n := Length(c, buf[0], buf[1]);
      if n > |buf| then Parsed([], buf, id)
      else if buf[n - 4..n] != Trailer(c, id, buf[..n - 4]) then Bad
      else if Position(c, buf) + 4 > n then Fault
      else After(buf[Position(c, buf)..n - 4], Parse(c, buf[n..], Next(c, id)))
  }

  function ParseOn(c: Codec, r: Parsed, more: seq<Byte>): Parsed {
    if r.Parsed? then After(r.out, Parse(c, r.rest + more, r.id)) else r
  }

  lemma AfterBoth(a: seq<Byte>, b: seq<Byte>, r: Parsed)
    ensures After(a, After(b, r)) == After(a + b, r) && After([], r) == r
  {
    if r.Parsed? {
      assert a + (b + r.out) == (a + b) + r.out;
    }
  }

  lemma SamePrefix(c: Codec, a: seq<Byte>, b: seq<Byte>, id: Id)
    requires |a| > 4
    ensures HeadOk(c, a + b, id) == HeadOk(c, a, id)
    ensures var n := Length(c, a[0], a[1]);
            7 <= n <= |a| ==> (a + b)[n - 4..n] == a[n - 4..n] && (a + b)[..n - 4] == a[..n - 4] && (a + b)[n..] == a[n..] + b
                              && Position(c, a + b) == Position(c, a)
  {
    assert (a + b)[..2] == a[..2] && (a + b)[2..4] == a[2..4];
  }

  /** The same bytes in two pieces. */
  lemma {:induction false} ParseSplit(c: Codec, a: seq<Byte>, b: seq<Byte>, id: Id)
    ensures Parse(c, a + b, id) == ParseOn(c, Parse(c, a, id), b)
    decreases |a|
  {
    hide HeadOk, Trailer, Position, Length;
    if |a| <= 4 {
      AfterBoth([], [], Parse(c, a + b, id));
    } else {
      SamePrefix(c, a, b, id);
      var n := Length(c, a[0], a[1]);
      if HeadOk(c, a, id) {
        HeadLength(c, a, id);
        if n > |a| {
          AfterBoth([], [], Parse(c, a + b, id));
        } else if a[n - 4..n] == Trailer(c, id, a[..n - 4]) && Position(c, a) + 4 <= n {
          SameData(a, b, Position(c, a), n - 4);
          ParseSplit(c, a[n..], b, Next(c, id));
          var r := Parse(c, a[n..], Next(c, id));
          if r.Parsed? {
            AfterBoth(a[Position(c, a)..n - 4], r.out, Parse(c, r.rest + b, r.id));
          }
        }
      }
    }
  }

  lemma SameData(a: seq<Byte>, b: seq<Byte>, i: nat, j: nat)
    requires i <= j <= |a|
    ensures (a + b)[i..j] == a[i..j]
  {
  }

  lemma PartOf(s: seq<Byte>, m: nat, i: nat, j: nat)
    requires i <= j <= m <= |s|
    ensures s[..m][i..j] == s[i..j]
  {
  }

  lemma HeadLength(c: Codec, buf: seq<Byte>, id: Id)
    requires |buf| > 4 && HeadOk(c, buf, id)
    ensures 7 <= Length(c, buf[0], buf[1]) < 8192
  {
  }

  // ---- what is packed ----

  /** One frame: its data, and its padding. */
  datatype Item = Item(pad: seq<Byte>, data: seq<Byte>)

  /** The lengths of padding that the random choice allows. */
  predicate Allowed(c: Codec, id: Id, n: nat, r: nat) {
    match c
    case V4(_) => if n > 1300 then r == 1 else if n > 400 then 1 <= r <= 128 else 1 <= r <= 1024
    case Aes(_) =>
      if n > 1200 then r == 1 else if id > 4 then r == 1 || r == 33 else if n > 900 then r == 1 || r == 129 else r == 1 || r == 513
  }

  predicate GoodItem(c: Codec, id: Id, item: Item) {
    1 <= |item.data| <= UNIT && Allowed(c, id, |item.data|, |item.pad|)
  }

  predicate GoodItems(c: Codec, id: Id, items: seq<Item>)
    decreases |items|
  {
    items == [] || (GoodItem(c, id, items[0]) && GoodItems(c, Next(c, id), items[1..]))
  }

  function Stream(c: Codec, id: Id, items: seq<Item>): seq<Byte>
    requires GoodItems(c, id, items)
    decreases |items|
  {
    if items == [] then [] else Frame(c, id, items[0].pad, items[0].data) + Stream(c, Next(c, id), items[1..])
  }

  function Data(items: seq<Item>): seq<Byte> {
    if items == [] then [] else items[0].data + Data(items[1..])
  }

  function Later(c: Codec, id: Id, n: nat): Id
  {
    if c.V4? then id else (id + n) % WORD32
  }

  lemma FrameBounds(c: Codec, id: Id, item: Item)
    requires GoodItem(c, id, item)
    ensures 1 <= |item.pad| <= 1024
    ensures 10 <= |Frame(c, id, item.pad, item.data)| <= LONGEST && |Frame(c, id, item.pad, item.data)| <= 2 * |item.data| + 1040
    ensures |item.data| == UNIT ==> |Frame(c, id, item.pad, item.data)| <= 2 * UNIT
  {
  }

  lemma LengthOf(c: Codec, n: nat)
    requires n < 0x1_0000
    ensures var l := LengthBytes(c, n); Length(c, l[0], l[1]) == n
  {
  }

  /** What the head of a frame says. */
  lemma FrameHead(c: Codec, id: Id, item: Item, more: seq<Byte>)
    requires GoodItem(c, id, item)
    ensures 1 <= |item.pad| <= 1024
    ensures var f := Frame(c, id, item.pad, item.data);
            |f| > 4 && HeadOk(c, f + more, id) && Length(c, f[0], f[1]) == |f| && Position(c, f + more) == 4 + |item.pad|
            && f[|f| - 4..] == Trailer(c, id, f[..|f| - 4]) && f[4 + |item.pad|..|f| - 4] == item.data
  {
    hide Trailer, Check;
    FrameBounds(c, id, item);
    var f, body := Frame(c, id, item.pad, item.data), Body(c, id, item.pad, item.data);
    assert f[..|f| - 4] == body;
    var head := LengthBytes(c, |f|);
    LengthOf(c, |f|);
    LengthOf(c, |item.pad|);
    assert body[..2] == head && body[2..4] == Check(c, id, head);
    assert (f + more)[..2] == head && (f + more)[2..4] == Check(c, id, head);
    var m := Marked(c, item.pad);
    assert body[4..4 + |m|] == m && body[4 + |m|..] == item.data;
    assert (f + more)[4] == m[0] && (|m| >= 128 ==> (f + more)[5] == m[1] && (f + more)[6] == m[2]);
  }

  lemma ParseFrame(c: Codec, id: Id, item: Item, more: seq<Byte>)
    requires GoodItem(c, id, item)
    ensures 1 <= |item.pad| <= 1024
    ensures Parse(c, Frame(c, id, item.pad, item.data) + more, id) == After(item.data, Parse(c, more, Next(c, id)))
  {
    hide HeadOk, Trailer, Position, Length, Frame, GoodItem, Check;
    FrameBounds(c, id, item);
    FrameHead(c, id, item, more);
    var f := Frame(c, id, item.pad, item.data);
    var buf, n := f + more, |f|;
    assert buf[0] == f[0] && buf[1] == f[1] && buf[n - 4..n] == f[n - 4..] && buf[..n - 4] == f[..n - 4] && buf[n..] == more;
    SameData(f, more, 4 + |item.pad|, n - 4);
  }

  lemma ParseNothing(c: Codec, id: Id)
    ensures Parse(c, [], id) == Parsed([], [], id)
  {
  }

  lemma {:induction false} ParseStream(c: Codec, id: Id, items: seq<Item>)
    requires GoodItems(c, id, items)
    ensures Parse(c, Stream(c, id, items), id) == Parsed(Data(items), [], Later(c, id, |items|))
    decreases |items|
  {
    hide Parse, Frame, GoodItem, Next, Later;
    LaterOn(c, id, 0, if items == [] then 0 else |items| - 1);
    if items == [] {
      ParseNothing(c, id);
    } else {
      ParseFrame(c, id, items[0], Stream(c, Next(c, id), items[1..]));
      ParseStream(c, Next(c, id), items[1..]);
    }
  }

  /** A part of a frame is kept. */
  lemma ParsePart(c: Codec, id: Id, item: Item, part: seq<Byte>)
    requires GoodItem(c, id, item)
    ensures 1 <= |item.pad| <= 1024
    ensures part < Frame(c, id, item.pad, item.data) ==> Parse(c, part, id) == Parsed([], part, id)
  {
    hide HeadOk, Trailer, Position, Length, Frame, GoodItem, Check;
    FrameBounds(c, id, item);
    var f := Frame(c, id, item.pad, item.data);
    if part < f && |part| > 4 {
      FrameHead(c, id, item, []);
      assert f + [] == f;
      assert part + f[|part|..] == f;
      SamePrefix(c, part, f[|part|..], id);
      assert part[0] == f[0] && part[1] == f[1];
    }
  }

  /** No prefix of a stream is refused, and less than a frame is left over. */
  lemma {:induction false} ParsePrefix(c: Codec, id: Id, items: seq<Item>, part: seq<Byte>)
    requires GoodItems(c, id, items) && part <= Stream(c, id, items)
    ensures var r := Parse(c, part, id); r.Parsed? && |r.rest| < LONGEST
    decreases |items|
  {
    hide Parse, Frame, GoodItem;
    if items == [] {
      ParseNothing(c, id);
    } else {
      FrameBounds(c, id, items[0]);
      var f, rest := Frame(c, id, items[0].pad, items[0].data), Stream(c, Next(c, id), items[1..]);
      if |part| < |f| {
        assert part < f;
        ParsePart(c, id, items[0], part);
      } else {
        var more := part[|f|..];
        assert part[..|f|] == (f + rest)[..|f|] == f;
        assert part == f + more;
        assert more == rest[..|more|];
        ParseFrame(c, id, items[0], more);
        ParsePrefix(c, Next(c, id), items[1..], more);
      }
    }
  }

  // ---- a receiver that gets the stream in pieces ----

  /** What a client_post_decrypt call for every piece gives, all together. */
  function Deliver(c: Codec, pending: seq<Byte>, id: Id, pieces: seq<seq<Byte>>): Parsed
    decreases |pieces|
  {
    if pieces == [] then Parsed([], pending, id)
    else if |pending| + |pieces[0]| > RECV then Bad
    else
      var r := Parse(c, pending + pieces[0], id);
      if r.Parsed? then After(r.out, Deliver(c, r.rest, r.id, pieces[1..])) else r
  }

  lemma {:induction false} DeliverAll(c: Codec, first: Id, items: seq<Item>, before: seq<Byte>, pieces: seq<seq<Byte>>)
    requires GoodItems(c, first, items) && before + Concat(pieces) == Stream(c, first, items)
    requires forall p <- pieces :: |p| <= RECV - LONGEST + 1
    ensures var r := Parse(c, before, first);
            r.Parsed? && After(r.out, Deliver(c, r.rest, r.id, pieces)) == Parse(c, Stream(c, first, items), first)
    decreases |pieces|
  {
    hide Parse, Stream, GoodItem;
    assert before <= Stream(c, first, items);
    ParsePrefix(c, first, items, before);
    var r := Parse(c, before, first);
    if pieces == [] {
      assert before + [] == before && r.out + [] == r.out;
    } else {
      var now := before + pieces[0];
      assert now + Concat(pieces[1..]) == before + Concat(pieces);
      DeliverAll(c, first, items, now, pieces[1..]);
      ParseSplit(c, before, pieces[0], first);
      var q := Parse(c, r.rest + pieces[0], r.id);
      if q.Parsed? {
        AfterBoth(r.out, q.out, Deliver(c, q.rest, q.id, pieces[1..]));
      }
    }
  }

  /** Whatever was packed and however the stream is cut into pieces of at most 14376 bytes, the receiver gets just the
      data, without an error, and counts the frames like the sender. */
  lemma RoundTrip(c: Codec, id: Id, items: seq<Item>, pieces: seq<seq<Byte>>)
    requires GoodItems(c, id, items) && Concat(pieces) == Stream(c, id, items)
    requires forall p <- pieces :: |p| <= 14376
    ensures Deliver(c, [], id, pieces) == Parsed(Data(items), [], Later(c, id, |items|))
  {
    hide Parse, GoodItem;
    assert [] + Concat(pieces) == Concat(pieces);
    DeliverAll(c, id, items, [], pieces);
    ParseNothing(c, id);
    AfterBoth([], [], Deliver(c, [], id, pieces));
    ParseStream(c, id, items);
  }

  lemma LaterOn(c: Codec, id: Id, m: nat, n: nat)
    ensures Later(c, Next(c, id), n) == Later(c, id, n + 1)
    ensures Later(c, Later(c, id, m), n) == Later(c, id, m + n)
    ensures Later(c, id, 0) == id
  {
    Reduced(id + 1, n);
    Reduced(id + m, n);
  }

  lemma Reduced(a: nat, b: nat)
    ensures (a % WORD32 + b) % WORD32 == (a + b) % WORD32
  {
    var q, r := a / WORD32, a % WORD32;
    assert a + b == WORD32 * q + (r + b);
  }

  /** One stream goes on where another one ended. */
  lemma {:induction false} StreamConcat(c: Codec, id: Id, a: seq<Item>, b: seq<Item>)
    requires GoodItems(c, id, a) && GoodItems(c, Later(c, id, |a|), b)
    ensures GoodItems(c, id, a + b) && Stream(c, id, a + b) == Stream(c, id, a) + Stream(c, Later(c, id, |a|), b)
    decreases |a|
  {
    hide Frame, GoodItem, Next, Later;
    LaterOn(c, id, 0, |a|);
    if a == [] {
      assert a + b == b;
    } else {
      LaterOn(c, id, 0, |a| - 1);
      assert (a + b)[1..] == a[1..] + b;
      StreamConcat(c, Next(c, id), a[1..], b);
      FrameBounds(c, id, a[0]);
      Assoc(Frame(c, id, a[0].pad, a[0].data), Stream(c, Next(c, id), a[1..]), Stream(c, Later(c, id, |a|), b));
    }
  }

  lemma {:induction false} DataConcat(a: seq<Item>, b: seq<Item>)
    ensures Data(a + b) == Data(a) + Data(b)
  {
    if a == [] {
      assert a + b == b;
    } else {
      assert (a + b)[1..] == a[1..] + b;
      DataConcat(a[1..], b);
      Assoc(a[0].data, Data(a[1..]), Data(b));
    }
  }

  // ---- the program ----

  /** The room that a frame for n bytes of data may need. */
  function Room(n: nat): nat {
    if n == UNIT then 2 * UNIT else 2 * n + 1040
  }

  lemma AllowedBounds(c: Codec, id: Id, n: nat, r: nat)
    requires Allowed(c, id, n, r)
    ensures 1 <= r <= 1024 && (n <= UNIT ==> r + n + 8 <= Room(n))
  {
  }

  /** memcpy behind the first at bytes */
  method Append(a: array<Byte>, at: nat, s: seq<Byte>)
    requires at + |s| <= a.Length
    modifies a
    ensures a[..at + |s|] == old(a[..at]) + s && a[at + |s|..] == old(a[at + |s|..])
  {
    for i := 0 to |s|
      invariant a[..at + i] == old(a[..at]) + s[..i] && a[at + i..] == old(a[at + i..])
    {
      a[at + i] := s[i];
      assert a[..at + i + 1] == a[..at + i] + [s[i]];
    }
    assert s[..|s|] == s;
  }

  /** One connection: an auth_simple_local_data. */
  class Local {
    const c: Codec
    const keys: Keys
    const recv: array<Byte>
    var recvSize: nat
    var recvId: Id
    var packId: Id
    var sentHeader: bool

    ghost predicate Valid()
      reads this
    {
      recv.Length == RECV && recvSize <= RECV
    }

    ghost function Pending(): seq<Byte>
      requires Valid()
      reads this, recv
    {
      recv[..recvSize]
    }

    /** auth_simple_local_data_init */
    constructor (c: Codec, keys: Keys)
      ensures Valid() && fresh(recv) && Pending() == [] && recvId == packId == 1 && !sentHeader && this.c == c && this.keys == keys
    {
      this.c, this.keys := c, keys;
      recv := new Byte[RECV];
      recvSize, recvId, packId, sentHeader := 0, 1, 1, false;
    }

    // ---- sending ----

    /** The length of the padding, from one random number */
    method RandLen(n: nat) returns (rand: nat)
      ensures Allowed(c, packId, n, rand)
    {
      var random: nat := *;
      if c.V4? {
        rand := (if n > 1300 then 0 else if n > 400 then random % 0x80 else random % 0x400) + 1;
      } else {
        var bit := if n > 1200 then 0 else if packId > 4 then 0x20 else if n > 900 then 0x80 else 0x200;
        rand := (if random % 2 == 1 then bit else 0) + 1;
      }
    }

    /** The padding of rand bytes: what was in the buffer (V4) or random bytes, marked with its length. */
    method Padding(out: array<Byte>, k: nat, rand: nat) returns (ghost pad: seq<Byte>)
      requires 1 <= rand <= 1024 && k + rand <= out.Length
      modifies out
      ensures |pad| == rand && out[..k + rand] == old(out[..k]) + Marked(c, pad)
    {
      ghost var pre := out[..k];
      if c.Aes? {
        assert |seq(rand, _ => 0 as Byte)| == rand;
        var rnd: seq<Byte> :| |rnd| == rand;
        Append(out, k, rnd);
      }
      pad := out[k..k + rand];
      assert out[..k + rand] == pre + pad;
      if rand < 128 {
        out[k] := rand;
      } else {
        var l := LengthBytes(c, rand);
        out[k], out[k + 1], out[k + 2] := 255, l[0], l[1];
      }
      assert out[k..k + rand] == Marked(c, pad);
      assert out[..k + rand] == out[..k] + out[k..k + rand];
      assert out[..k] == pre;
    }

    /** auth_sha1_v4_pack_data and auth_aes128_sha1_pack_data */
    method PackData(data: seq<Byte>, out: array<Byte>, at: nat) returns (size: nat, ghost item: Item)
      requires 1 <= |data| <= UNIT && at + Room(|data|) <= out.Length
      modifies out, this`packId
      ensures GoodItem(c, old(packId), item) && item.data == data && 1 <= |item.pad| <= 1024
      ensures var f := Frame(c, old(packId), item.pad, data);
              size == |f| && at + size <= out.Length && size <= Room(|data|) && out[..at + size] == old(out[..at]) + f
      ensures packId == Next(c, old(packId))
    {
      hide Trailer, Body, GoodItem, Allowed;
      var rand := RandLen(|data|);
      AllowedBounds(c, packId, |data|, rand);
      ghost var pre, id := out[..at], packId;
      size := rand + |data| + 8;
      ghost var pad := PackBody(data, rand, out, at);
      item := Item(pad, data);
      IsGood(c, id, item);
      ghost var body := Body(c, id, pad, data);
      assert out[at..at + size - 4] == body;
      var trailer := Trailer(c, packId, out[at..at + size - 4]);
      Append(out, at + size - 4, trailer);
      Assoc(pre, body, trailer);
      packId := Next(c, packId);
    }

    /** A frame up to its trailer. */
    method PackBody(data: seq<Byte>, rand: nat, out: array<Byte>, at: nat) returns (ghost pad: seq<Byte>)
      requires 1 <= rand <= 1024 && at + 4 + rand + |data| <= out.Length
      modifies out
      ensures |pad| == rand && out[..at + 4 + rand + |data|] == old(out[..at]) + Body(c, packId, pad, data)
    {
      hide Marked, Check, LengthBytes, Body;
      ghost var pre := out[..at];
      var head := LengthBytes(c, rand + |data| + 8);
      Append(out, at, head);
      Append(out, at + 2, Check(c, packId, head));
      pad := Padding(out, at + 4, rand);
      Append(out, at + 4 + rand, data);
      BodyBehind(c, packId, pad, data, pre);
    }

    /** The first packet of auth_sha1_v4 but for its hash. */
    method PackFirstBody(data: seq<Byte>, rand: nat, out: array<Byte>) returns (ghost pad: seq<Byte>)
      requires keys.Valid(c) && c.V4? && 1 <= rand <= 1024 && |data| + rand + 28 <= out.Length
      modifies out
      ensures |pad| == rand
      ensures var n := |data| + rand + 28;
              var head := LengthBytes(c, n);
              out[..n - 10] == [] + head + keys.crc(head) + Marked(c, pad) + keys.stamp(n, rand) + data
    {
      hide Marked, LengthBytes;
      var size := rand + 4 + 2 + |data| + 12 + 10;
      var head := LengthBytes(c, size);
      assert out[..0] == [];
      Append(out, 0, head);
      Append(out, 2, keys.crc(head));
      pad := Padding(out, 6, rand);
      Append(out, 6 + rand, keys.stamp(size, rand));
      Append(out, 18 + rand, data);
    }

    /** auth_sha1_v4_pack_auth_data */
    method PackFirstV4(data: seq<Byte>, out: array<Byte>) returns (size: nat, ghost pad: seq<Byte>)
      requires keys.Valid(c) && c.V4? && |data| <= 0x8000 && |data| + 1059 <= out.Length
      modifies out
      ensures |data| < size <= |data| + 1059 && size <= out.Length && IsFirst(c, keys, pad, data, out[..size])
    {
      hide Marked, Allowed, LengthBytes, IsFirst, IsNumber;
      var rand := RandLen(|data|);
      AllowedV4(c, packId, |data|, rand);
      AllowedBounds(c, 1, |data|, rand);
      size := |data| + rand + 28;
      pad := PackFirstBody(data, rand, out);
      ghost var body := out[..size - 10];
      Append(out, size - 10, keys.mac(out[..size - 10])[..10]);
      FirstV4(c, keys, pad, data, LengthBytes(c, size), body, out[..size]);
    }

    /** auth_aes128_sha1_pack_auth_data */
    method PackFirstAes(data: seq<Byte>, out: array<Byte>) returns (size: nat, ghost pad: seq<Byte>)
      requires keys.Valid(c) && c.Aes? && |data| + 1059 <= out.Length
      modifies out
      ensures |data| < size <= |data| + 1059 && size <= out.Length && IsFirst(c, keys, pad, data, out[..size])
    {
      hide IsFirst;
      var wide: bool := *;
      var rand: nat := if !wide then 0 else if |data| > 400 then 0x200 else 0x400;
      size := rand + 16 + 4 + 4 + 7 + |data| + 4;
      var first: Byte := *;
      assert |seq(rand, _ => 0 as Byte)| == rand;
      var rnd: seq<Byte> :| |rnd| == rand;
      pad := rnd;
      Append(out, 0, [first]);
      var tag := keys.mac([first]);
      HashSize(tag);
      Append(out, 1, tag[..6]);
      Append(out, 7, keys.stamp(size, rand));
      Append(out, 31, rnd);
      Append(out, 31 + rand, data);
      ghost var body := out[..size - 4];
      Append(out, size - 4, keys.user(out[..size - 4])[..4]);
      assert out[..0] == [];
      FirstAes(c, keys, pad, data, first, body, out[..size]);
    }

    method PackAuthData(data: seq<Byte>, out: array<Byte>) returns (size: nat, ghost pad: seq<Byte>)
      requires keys.Valid(c) && |data| <= 0x8000 && |data| + 1059 <= out.Length
      modifies out
      ensures |data| < size <= |data| + 1059 && size <= out.Length && IsFirst(c, keys, pad, data, out[..size])
    {
      if c.V4? {
        size, pad := PackFirstV4(data, out);
      } else {
        size, pad := PackFirstAes(data, out);
      }
    }

    /** The size of the head of the first packet, which may be negative for V4. */
    method SizeOfHead(plain: seq<Byte>) returns (at: int)
      ensures at == (var h := if c.V4? then HeadSize(plain, 30) else 1200; if h > |plain| then |plain| else h)
    {
      at := 1200;
      if c.V4? {
        at := 30;
        if |plain| >= 2 {
          var typ := plain[0] % 8;
          if typ == 1 {
            at := 7;
          } else if typ == 4 {
            at := 19;
          } else if typ == 3 {
            at := 4 + Signed(plain[1]);
          }
        }
      }
      if at > |plain| {
        at := |plain|;
      }
    }

    /** client_pre_encrypt: the first packet of a connection carries the head of the data, and frames carry the rest. A head of
        negative size is reported as a fault, before anything is packed. */
    method PreEncrypt(plain: seq<Byte>)
      returns (out: array<Byte>, len: nat, fault: bool, ghost header: seq<Byte>, ghost pad: seq<Byte>, ghost head: nat,
               ghost items: seq<Item>)
      requires Valid() && keys.Valid(c)
      modifies this
      ensures Valid() && fresh(out) && out.Length == 2 * |plain| + 4096
      ensures var first, size := !old(sentHeader) && |plain| > 0, if c.V4? then HeadSize(plain, 30) else 1200;
              && (fault <==> first && size < 0)
              && (!fault ==>
                    && head == (if !first then 0 else if size > |plain| then |plain| else size)
                    && if first then IsFirst(c, keys, pad, plain[..head], header) else header == [])
      ensures !fault ==>
        && len <= out.Length && GoodItems(c, old(packId), items) && Data(items) == plain[head..]
        && out[..len] == header + Stream(c, old(packId), items)
        && packId == Later(c, old(packId), |items|) && sentHeader == (old(sentHeader) || |plain| > 0)
      ensures fault ==> packId == old(packId) && sentHeader == old(sentHeader)
      ensures recvSize == old(recvSize) && recvId == old(recvId)
    {
      hide GoodItems, Stream, Data, Later, IsFirst;
      out := new Byte[2 * |plain| + 4096];
      header, pad, head, items, fault, len := [], [], 0, [], false, 0;
      var at: int, k: nat := 0, 0;
      if |plain| > 0 && !sentHeader {
        at := SizeOfHead(plain);
        if at < 0 {
          fault := true;
          return;
        }
        k, pad := PackAuthData(plain[..at], out);
        sentHeader := true;
      }
      header, head := out[..k], at;
      len, items := PackUnits(plain, at, out, k);
    }

    /** The units of plain from offset start on, as frames behind the first k0 bytes. */
    method PackUnits(plain: seq<Byte>, start: nat, out: array<Byte>, k0: nat) returns (k: nat, ghost items: seq<Item>)
      requires start <= |plain| && k0 <= 2 * start + 1059 && out.Length == 2 * |plain| + 4096
      modifies out, this`packId
      ensures GoodItems(c, old(packId), items) && Data(items) == plain[start..] && k0 <= k <= out.Length
      ensures out[..k] == old(out[..k0]) + Stream(c, old(packId), items)
      ensures packId == Later(c, old(packId), |items|)
    {
      hide Frame, GoodItem, GoodItems, Stream, Data, Next, Later;
      var at := start;
      k, items := k0, [];
      ghost var id, header := packId, out[..k0];
      LaterOn(c, id, 0, 0);
      NoItems(c, id);
      assert header + [] == header && plain[start..start] == [];
      while |plain| - at > UNIT
        invariant start <= at <= |plain| && k0 <= k <= 2 * at + 1059
        invariant GoodItems(c, id, items) && Data(items) == plain[start..at] && packId == Later(c, id, |items|)
        invariant out[..k] == header + Stream(c, id, items)
      {
        var size, item := PackData(plain[at..at + UNIT], out, k);
        OneMore(c, id, items, item, header);
        Slices(plain, start, at, at + UNIT);
        items := items + [item];
        at, k := at + UNIT, k + size;
      }
      if |plain| > at {
        var size, item := PackData(plain[at..|plain|], out, k);
        OneMore(c, id, items, item, header);
        Slices(plain, start, at, |plain|);
        items := items + [item];
        k := k + size;
      }
      assert plain[start..|plain|] == plain[start..];
    }

    // ---- receiving ----

    /** client_post_decrypt: -1, or the number of bytes of data, which are in out. A piece for which there is no room
        is refused, and a stream with a wrong check is dropped. A frame whose padding reaches behind it, so that its data
        would have a negative size, is reported as a fault. */
    method PostDecrypt(piece: seq<Byte>) returns (len: int, out: seq<Byte>, fault: bool)
      requires Valid()
      modifies recv, this`recvSize, this`recvId
      ensures Valid()
      ensures old(recvSize) + |piece| > RECV ==> len == -1 && !fault && Pending() == old(Pending()) && recvId == old(recvId)
      ensures old(recvSize) + |piece| <= RECV ==>
                var r := Parse(c, old(Pending()) + piece, old(recvId));
                && (fault <==> r.Fault?)
                && if r.Parsed? then len == |out| && r == Parsed(out, Pending(), recvId) else r.Bad? ==> len == -1 && recvSize == 0
    {
      hide Parse, HeadOk, Position, Length, Trailer;
      out, fault := [], false;
      if recvSize + |piece| > RECV {
        return -1, out, false;
      }
      ghost var all, first := Pending() + piece, recvId;
      Append(recv, recvSize, piece);
      recvSize := recvSize + |piece|;
      assert Pending() == all;
      AfterBoth([], [], Parse(c, all, first));
      while recvSize > 4
        invariant Valid()
        invariant Parse(c, all, first) == After(out, Parse(c, Pending(), recvId))
        decreases recvSize
      {
        ParseStep(c, Pending(), recvId);
        var n, ok := FrameLength();
        if !ok {
          recvSize := 0;
          return -1, [], false;
        }
        if n > recvSize {
          break;
        }
        var pos := Position(c, recv[..recvSize]);
        if pos + 4 > n {
          return -1, [], true;      // the size of the data would be negative
        }
        ghost var buf, id := Pending(), recvId;
        AfterBoth(out, buf[pos..n - 4], Parse(c, buf[n..], Next(c, id)));
        PartOf(recv[..], recvSize, pos, n - 4);
        assert recv[..][..recvSize] == buf;
        out := out + recv[pos..n - 4];
        MoveDown(n);
        recvId := Next(c, recvId);
      }
      ParseShort(c, Pending(), recvId);
      assert out + [] == out;
      len := |out|;
    }

    /** The checks of one frame: wrong, or its length, which may be more than what is there. */
    method FrameLength() returns (n: nat, ok: bool)
      requires Valid() && recvSize > 4
      ensures n == Length(c, recv[0], recv[1])
      ensures ok <==> HeadOk(c, Pending(), recvId)
                      && (n <= recvSize ==> n >= 4 && Pending()[n - 4..n] == Trailer(c, recvId, Pending()[..n - 4]))
      ensures ok ==> n >= 7
      ensures ok <==> recv[2..4] == Check(c, recvId, recv[..2]) && (if c.V4? then 7 else 8) <= n < 8192
                      && (n <= recvSize ==> recv[n - 4..n] == Trailer(c, recvId, recv[..n - 4]))
    {
      hide Trailer, Check;
      n := Length(c, recv[0], recv[1]);
      assert recv[..2] == Pending()[..2] && recv[2..4] == Pending()[2..4];
      if recv[2..4] != Check(c, recvId, recv[..2]) {
        return n, false;
      }
      if n >= 8192 || n < Shortest(c) {
        return n, false;
      }
      if n <= recvSize {
        ghost var all := recv[..];
        assert Pending() == all[..recvSize];
        PartOf(all, recvSize, n - 4, n);
        PartOf(all, recvSize, 0, n - 4);
        return n, recv[n - 4..n] == Trailer(c, recvId, recv[..n - 4]);
      }
      ok := true;
    }

    /** memmove of what is behind the first n bytes */
    method MoveDown(n: nat)
      requires Valid() && n <= recvSize
      modifies recv, this`recvSize
      ensures Valid() && Pending() == old(Pending())[n..]
    {
      recvSize := recvSize - n;
      forall i | 0 <= i < recvSize {
        recv[i] := recv[n + i];
      }
    }
  }

  lemma ParseStep(c: Codec, buf: seq<Byte>, id: Id)
    requires |buf| > 4
    ensures var n := Length(c, buf[0], buf[1]);
            Parse(c, buf, id) ==
              if !HeadOk(c, buf, id) then Bad
              else if n > |buf| then Parsed([], buf, id)
              else if n < 4 || buf[n - 4..n] != Trailer(c, id, buf[..n - 4]) then Bad
              else if n < 7 || Position(c, buf) + 4 > n then Fault
              else After(buf[Position(c, buf)..n - 4], Parse(c, buf[n..], Next(c, id)))
  {
    hide Trailer, Position;
  }

  /** Nothing more can be read. */
  lemma ParseShort(c: Codec, buf: seq<Byte>, id: Id)
    ensures |buf| <= 4 || (HeadOk(c, buf, id) && Length(c, buf[0], buf[1]) > |buf|) ==> Parse(c, buf, id) == Parsed([], buf, id)
  {
  }

  lemma FirstV4(c: Codec, k: Keys, pad: seq<Byte>, data: seq<Byte>, head: Two, body: seq<Byte>, f: seq<Byte>)
    requires c.V4? && k.Valid(c) && 1 <= |pad| <= 1024 && Allowed(c, 1, |data|, |pad|) && |data| + |pad| + 28 < 0x1_0000
    requires head == LengthBytes(c, |data| + |pad| + 28)
    requires body == [] + head + k.crc(head) + Marked(c, pad) + k.stamp(|data| + |pad| + 28, |pad|) + data
    requires f == body + k.mac(body)[..10]
    ensures IsFirst(c, k, pad, data, f)
  {
    hide Marked, Allowed;
    var n, p, m := |f|, |pad|, Marked(c, pad);
    MarkedIs(c, pad);
    assert f[..n - 10] == body && f[..2] == head && f[2..6] == k.crc(head) && f[6..6 + p] == m;
    assert f[6 + p..18 + p] == k.stamp(n, p) && f[18 + p..n - 10] == data;
    assert f[6] == f[6..6 + p][0];
    if p < 128 {
      assert f[7..6 + p] == f[6..6 + p][1..];
    } else {
      assert f[7] == f[6..6 + p][1] && f[8] == f[6..6 + p][2] && f[9..6 + p] == f[6..6 + p][3..];
    }
  }

  lemma FirstAes(c: Codec, k: Keys, pad: seq<Byte>, data: seq<Byte>, first: Byte, body: seq<Byte>, f: seq<Byte>)
    requires c.Aes? && k.Valid(c) && (|pad| == 0 || |pad| == if |data| > 400 then 0x200 else 0x400)
    requires body == [] + [first] + k.mac([first])[..6] + k.stamp(|data| + |pad| + 35, |pad|) + pad + data
    requires f == body + k.user(body)[..4]
    ensures IsFirst(c, k, pad, data, f)
  {
    var n, p := |f|, |pad|;
    assert f[..n - 4] == body && f[..1] == [first] && f[1..7] == k.mac([first])[..6];
    assert f[7..31] == k.stamp(n, p) && f[31..31 + p] == pad && f[31 + p..n - 4] == data;
  }

  lemma HashSize(h: Hash)
    ensures |h| == 20
  {
  }

  lemma AllowedV4(c: Codec, id: Id, n: nat, r: nat)
    requires c.V4? && Allowed(c, id, n, r)
    ensures Allowed(c, 1, n, r)
  {
  }

  lemma IsGood(c: Codec, id: Id, item: Item)
    requires 1 <= |item.data| <= UNIT && Allowed(c, id, |item.data|, |item.pad|)
    ensures GoodItem(c, id, item)
  {
  }

  lemma BodyBehind(c: Codec, id: Id, pad: seq<Byte>, data: seq<Byte>, pre: seq<Byte>)
    requires 1 <= |pad| <= 1024
    ensures var head := LengthBytes(c, |pad| + |data| + 8);
            (((pre + head) + Check(c, id, head)) + Marked(c, pad)) + data == pre + Body(c, id, pad, data)
  {
    hide Marked, Check, LengthBytes;
  }

  lemma NoItems(c: Codec, id: Id)
    ensures GoodItems(c, id, []) && Stream(c, id, []) == [] && Data([]) == []
  {
  }

  lemma Slices(s: seq<Byte>, i: nat, j: nat, k: nat)
    requires i <= j <= k <= |s|
    ensures s[i..j] + s[j..k] == s[i..k]
  {
  }

  lemma OneMore(c: Codec, id: Id, items: seq<Item>, item: Item, header: seq<Byte>)
    requires GoodItems(c, id, items) && GoodItem(c, Later(c, id, |items|), item)
    ensures 1 <= |item.pad| <= 1024 && GoodItems(c, id, items + [item]) && Data(items + [item]) == Data(items) + item.data
    ensures var now := Later(c, id, |items|);
            && (header + Stream(c, id, items)) + Frame(c, now, item.pad, item.data) == header + Stream(c, id, items + [item])
            && Next(c, now) == Later(c, id, |items| + 1)
  {
    hide Frame, GoodItem, Next, Later;
    var now := Later(c, id, |items|);
    FrameBounds(c, now, item);
    OneItem(c, now, item);
    StreamConcat(c, id, items, [item]);
    DataConcat(items, [item]);
    Assoc(header, Stream(c, id, items), Frame(c, now, item.pad, item.data));
    LaterOn(c, id, |items|, 1);
    LaterOn(c, now, 0, 0);
    LaterOn(c, Next(c, now), 0, 0);
  }

  lemma OneItem(c: Codec, id: Id, item: Item)
    requires GoodItem(c, id, item)
    ensures GoodItems(c, id, [item]) && 1 <= |item.pad| <= 1024 && Stream(c, id, [item]) == Frame(c, id, item.pad, item.data)
    ensures Data([item]) == item.data
  {
    hide Frame;
    FrameBounds(c, id, item);
    assert [item][1..] == [];
    assert Stream(c, Next(c, id), [item][1..]) == [];
    assert Data([item][1..]) == [];
  }
}
