/** One-time authentication of a stream: every chunk is its length, a keyed hash and its payload. */
module ChunkHash {

  import opened Buffers

  const CLEN_BYTES := 2
  const ONETIMEAUTH_BYTES := 10
  const AUTH_BYTES := ONETIMEAUTH_BYTES + CLEN_BYTES
  const WORD32 := 0x1_0000_0000

  type Counter = x: int | 0 <= x < WORD32
  type Tag = t: seq<Byte> | |t| == ONETIMEAUTH_BYTES witness seq(ONETIMEAUTH_BYTES, _ => 0)

  /** The keyed hash of a payload, under the initialisation vector and the number of the chunk. */
  type Hmac = (Counter, seq<Byte>) -> Tag

  function Next(c: Counter): Counter { (c + 1) % WORD32 }

  function Clen(data: seq<Byte>): nat
    requires |data| >= CLEN_BYTES
  {
    256 * (data[0] as int) + data[1] as int
  }

  /** What ss_gen_hash makes of a payload; only 16 bits of the length are kept. */
  function Chunk(h: Hmac, c: Counter, payload: seq<Byte>): seq<Byte> {
    [|payload| / 256 % 256, |payload| % 256] + h(c, payload) + payload
  }

  /** A chunk byte by byte: the length of the payload, the more significant byte first, its keyed hash, and the payload. */
  predicate IsChunk(h: Hmac, c: Counter, payload: seq<Byte>, d: seq<Byte>) {
    && |d| == |payload| + 12 && d[0] == |payload| / 256 % 256 && d[1] == |payload| % 256
    && d[2..12] == h(c, payload) && d[12..] == payload
  }

  lemma ChunkIs(h: Hmac, c: Counter, payload: seq<Byte>)
    ensures IsChunk(h, c, payload, Chunk(h, c, payload))
  {
  }

  function Chunks(h: Hmac, c: Counter, payloads: seq<seq<Byte>>): seq<Byte>
    decreases |payloads|
  {
    if payloads == [] then [] else Chunk(h, c, payloads[0]) + Chunks(h, Next(c), payloads[1..])
  }

  /** What a receiver makes of a stream: the payloads of its complete chunks and the bytes left over, or a bad hash. */
  datatype Parsed = Parsed(out: seq<Byte>, rest: seq<Byte>, counter: Counter) | Bad

  /** A chunk that is not complete. */
  predicate Partial(data: seq<Byte>) {
    |data| < CLEN_BYTES || |data| < Clen(data) + AUTH_BYTES
  }

  function After(out: seq<Byte>, r: Parsed): Parsed {
    if r.Bad? then Bad else Parsed(out + r.out, r.rest, r.counter)
  }

  function Payload(data: seq<Byte>): seq<Byte>
    requires !Partial(data)
  {
    data[AUTH_BYTES..AUTH_BYTES + Clen(data)]
  }

  function Parse(h: Hmac, data: seq<Byte>, c: Counter): Parsed
    decreases |data|
  {
    if Partial(data) then Parsed([], data, c)
    else if h(c, Payload(data)) != data[CLEN_BYTES..AUTH_BYTES] then Bad
    else After(Payload(data), Parse(h, data[AUTH_BYTES + Clen(data)..], Next(c)))
  }

  /** The same bytes in two pieces. */
  function ParseOn(h: Hmac, r: Parsed, more: seq<Byte>): Parsed {
    if r.Bad? then Bad else After(r.out, Parse(h, r.rest + more, r.counter))
  }

  lemma AfterBoth(a: seq<Byte>, b: seq<Byte>, r: Parsed)
    ensures After(a, After(b, r)) == After(a + b, r) && After([], r) == r
  {
    if !r.Bad? {
      assert a + (b + r.out) == (a + b) + r.out;
    }
  }

  lemma {:induction false} ParseSplit(h: Hmac, a: seq<Byte>, b: seq<Byte>, c: Counter)
    ensures Parse(h, a + b, c) == ParseOn(h, Parse(h, a, c), b)
    decreases |a|
  {
    if Partial(a) {
      AfterBoth([], [], Parse(h, a + b, c));
    } else {
      var n := AUTH_BYTES + Clen(a);
      assert (a + b)[n..] == a[n..] + b;
      assert Payload(a + b) == Payload(a) && (a + b)[CLEN_BYTES..AUTH_BYTES] == a[CLEN_BYTES..AUTH_BYTES];
      ParseSplit(h, a[n..], b, Next(c));
      var r := Parse(h, a[n..], Next(c));
      if !r.Bad? {
        AfterBoth(Payload(a), r.out, Parse(h, r.rest + b, r.counter));
      }
    }
  }

  function ParsePieces(h: Hmac, r: Parsed, pieces: seq<seq<Byte>>): Parsed
    decreases |pieces|
  {
    if pieces == [] then r else ParsePieces(h, ParseOn(h, r, pieces[0]), pieces[1..])
  }

  /** However a stream is cut, the receiver gets the same. */
  lemma {:induction false} AnyPieces(h: Hmac, before: seq<Byte>, pieces: seq<seq<Byte>>, c: Counter)
    ensures ParsePieces(h, Parse(h, before, c), pieces) == Parse(h, before + Concat(pieces), c)
    decreases |pieces|
  {
    hide Parse, ParseOn;
    if pieces == [] {
      assert before + [] == before;
    } else {
      ParseSplit(h, before, pieces[0], c);
      AnyPieces(h, before + pieces[0], pieces[1..], c);
      assert before + pieces[0] + Concat(pieces[1..]) == before + Concat(pieces);
    }
  }

  /** A chunk made for a payload of at most 65535 bytes. */
  lemma ParseChunk(h: Hmac, c: Counter, payload: seq<Byte>, more: seq<Byte>)
    requires |payload| < 0x1_0000
    ensures Parse(h, Chunk(h, c, payload) + more, c) == After(payload, Parse(h, more, Next(c)))
  {
    var data := Chunk(h, c, payload) + more;
    assert Clen(data) == |payload|;
    assert data[CLEN_BYTES..AUTH_BYTES] == h(c, payload);
    assert Payload(data) == payload;
    assert data[AUTH_BYTES + |payload|..] == more;
  }

  lemma ParseNothing(h: Hmac, c: Counter)
    ensures Parse(h, [], c) == Parsed([], [], c)
  {
  }

  function Later(c: Counter, n: nat): Counter { (c + n) % WORD32 }

  lemma {:induction false} ParseChunks(h: Hmac, c: Counter, payloads: seq<seq<Byte>>)
    requires forall p <- payloads :: |p| < 0x1_0000
    ensures Parse(h, Chunks(h, c, payloads), c) == Parsed(Concat(payloads), [], Later(c, |payloads|))
    decreases |payloads|
  {
    hide Parse, Chunk;
    if payloads == [] {
      ParseNothing(h, c);
    } else {
      ParseChunk(h, c, payloads[0], Chunks(h, Next(c), payloads[1..]));
      ParseChunks(h, Next(c), payloads[1..]);
    }
  }

  /** Any payloads, sent as chunks and received in any pieces, arrive, and both ends count alike. */
  lemma RoundTrip(h: Hmac, c: Counter, payloads: seq<seq<Byte>>, pieces: seq<seq<Byte>>)
    requires forall p <- payloads :: |p| < 0x1_0000
    requires Concat(pieces) == Chunks(h, c, payloads)
    ensures ParsePieces(h, Parsed([], [], c), pieces) == Parsed(Concat(payloads), [], Later(c, |payloads|))
  {
    ParseNothing(h, c);
    AnyPieces(h, [], pieces, c);
    assert [] + Concat(pieces) == Concat(pieces);
    ParseChunks(h, c, payloads);
  }

  /** Every chunk costs its header. */
  lemma {:induction false} Shrinks(h: Hmac, data: seq<Byte>, c: Counter)
    ensures var r := Parse(h, data, c); r.Parsed? ==> |r.out| + |r.rest| <= |data| && (r.rest == [] != data ==> |r.out| < |data|)
    decreases |data|
  {
    if !Partial(data) {
      Shrinks(h, data[AUTH_BYTES + Clen(data)..], Next(c));
    }
  }

  /** The length field has 16 bits: exactly the payloads that fit it come back. */
  lemma FitsExactly(h: Hmac, c: Counter, payload: seq<Byte>)
    ensures Parse(h, Chunk(h, c, payload), c) == Parsed(payload, [], Next(c)) <==> |payload| < 0x1_0000
  {
    var data := Chunk(h, c, payload);
    if |payload| < 0x1_0000 {
      ParseChunk(h, c, payload, []);
      assert data + [] == data;
      assert payload + [] == payload;
    } else {
      assert Clen(data) == |payload| % 0x1_0000;
      Shrinks(h, data[AUTH_BYTES + Clen(data)..], Next(c));
    }
  }

  lemma Framed(bytes: seq<Byte>, n: nat, head: seq<Byte>, hash: Tag)
    requires AUTH_BYTES + n <= |bytes| && |head| == CLEN_BYTES
    ensures Copied(Copied(Moved(bytes, AUTH_BYTES, 0, n), CLEN_BYTES, hash), 0, head)[..AUTH_BYTES + n] == head + hash + bytes[..n]
  {
    var a := Moved(bytes, AUTH_BYTES, 0, n);
    assert a[AUTH_BYTES..AUTH_BYTES + n] == bytes[..n];
    var b := Copied(a, CLEN_BYTES, hash);
    assert b[CLEN_BYTES..AUTH_BYTES + n] == hash + bytes[..n];
  }

  /** ss_gen_hash: the data of b becomes a chunk, in place. */
  method GenHash(b: Buffer, counter: Counter, h: Hmac, capacity: nat) returns (next: Counter)
    requires b.Valid()
    modifies b
    ensures b.Valid() && b.Data() == Chunk(h, counter, old(b.Data())) && next == Next(counter)
    ensures IsChunk(h, counter, old(b.Data()), b.Data()) && next == if counter == 0xffff_ffff then 0 else counter + 1
  {
    hide IsChunk;
    ChunkIs(h, counter, b.Data());
    var blen := b.len;
    ghost var payload := b.Data();
    b.Realloc(AUTH_BYTES + blen, capacity);
    var hash := h(counter, b.bytes[..blen]);
    assert b.bytes[..blen] == payload;
    Framed(b.bytes, blen, [blen / 256 % 256, blen % 256], hash);
    b.bytes := Moved(b.bytes, AUTH_BYTES, 0, blen);
    b.bytes := Copied(b.bytes, CLEN_BYTES, hash);
    b.bytes := Copied(b.bytes, 0, [blen / 256 % 256, blen % 256]);
    next := Next(counter);
    b.len := blen + AUTH_BYTES;
  }

  // ---- the receiver's loop, byte by byte ----

  /** The chunk being collected: its first idx bytes are in bytes, which have room for all of it. */
  predicate Collecting(bytes: seq<Byte>, idx: nat, len: nat) {
    && CLEN_BYTES <= |bytes| && idx <= |bytes|
    && Partial(bytes[..idx])
    && (idx >= CLEN_BYTES ==> len == Clen(bytes) && len + AUTH_BYTES <= |bytes|)
  }

  /** One more byte is collected; the chunk then may be complete. */
  lemma CollectOne(bytes: seq<Byte>, idx: nat, len: nat, b: Byte)
    requires Collecting(bytes, idx, len)
    ensures idx < |bytes|
    ensures var after := bytes[idx := b]; after[..idx + 1] == bytes[..idx] + [b] && (idx >= CLEN_BYTES ==> Clen(after) == len)
  {
  }

  lemma CompleteOne(h: Hmac, out: seq<Byte>, chunk: seq<Byte>, more: seq<Byte>, c: Counter)
    requires |chunk| >= CLEN_BYTES && |chunk| == Clen(chunk) + AUTH_BYTES
    ensures var payload := chunk[AUTH_BYTES..];
            After(out, Parse(h, chunk + more, c)) ==
              if h(c, payload) != chunk[CLEN_BYTES..AUTH_BYTES] then Bad
              else After(out + payload, Parse(h, more, Next(c)))
  {
    var data := chunk + more;
    assert Payload(data) == chunk[AUTH_BYTES..] && data[CLEN_BYTES..AUTH_BYTES] == chunk[CLEN_BYTES..AUTH_BYTES];
    assert data[|chunk|..] == more;
    var r := Parse(h, more, Next(c));
    if !r.Bad? {
      assert out + (Payload(data) + r.out) == (out + Payload(data)) + r.out;
    }
  }

  /** The payload is put behind the output, the bytes still to be read behind the payload. */
  function Compacted(bytes: seq<Byte>, j: nat, k: nat, n: nat, payload: seq<Byte>): (b: seq<Byte>)
    requires k + n <= |bytes| && j + |payload| + n <= |bytes|
    ensures |b| == |bytes|
    ensures b[..j + |payload|] == bytes[..j] + payload && b[j + |payload|..j + |payload| + n] == bytes[k..k + n]
  {
    var m := Moved(bytes, j + |payload|, k, n);
    var b := Copied(m, j, payload);
    assert m[..j] == m[..j + |payload|][..j];
    assert b[..j + |payload|] == b[..j] + b[j..j + |payload|];
    assert b[j + |payload|..j + |payload| + n] == b[j + |payload|..][..n] == m[j + |payload|..][..n];
    b
  }

  /** How far the loop got: the output is in bytes[..j], the n bytes still to be read are at k, and spare tells
      how much of the room for them is left. */
  predicate Reading(bytes: seq<Byte>, j: nat, k: nat, rest: seq<Byte>, cidx: nat) {
    && j <= k && k + |rest| <= |bytes| && bytes[k..k + |rest|] == rest
    && j + |rest| + cidx <= |bytes| + AUTH_BYTES
  }

  lemma ReadOne(bytes: seq<Byte>, j: nat, k: nat, rest: seq<Byte>, cidx: nat)
    requires Reading(bytes, j, k, rest, cidx) && rest != []
    ensures k < |bytes| && bytes[k] == rest[0] && Reading(bytes, j, k + 1, rest[1..], cidx + 1)
  {
  }

  lemma NextByte(chunk: seq<Byte>, data: seq<Byte>, i: nat)
    requires i < |data|
    ensures chunk + data[i..] == (chunk + [data[i]]) + data[i + 1..] && data[i..][0] == data[i] && data[i..][1..] == data[i + 1..]
  {
  }

  lemma ReadChunk(bytes: seq<Byte>, j: nat, k: nat, rest: seq<Byte>, payload: seq<Byte>)
    requires Reading(bytes, j, k, rest, |payload| + AUTH_BYTES)
    ensures k + |rest| <= |bytes| && j + |payload| + |rest| <= |bytes|
    ensures Reading(Compacted(bytes, j, k, |rest|, payload), j + |payload|, j + |payload|, rest, 0)
  {
  }

  lemma ReadAll(h: Hmac, bytes: seq<Byte>, j: nat, k: nat, chunk: seq<Byte>, idx: nat, len: nat, c: Counter)
    requires Reading(bytes, j, k, [], idx) && Collecting(chunk, idx, len)
    ensures j <= |bytes| && idx <= |chunk|
    ensures After(bytes[..j], Parse(h, chunk[..idx] + [], c)) == Parsed(bytes[..j], chunk[..idx], c)
  {
    assert chunk[..idx] + [] == chunk[..idx] && bytes[..j] + [] == bytes[..j];
  }

  lemma CollectAnew(bytes: seq<Byte>, len: nat)
    requires CLEN_BYTES <= |bytes|
    ensures Collecting(bytes, 0, len)
  {
  }

  /** A chunk_t. */
  class Receiver {
    var idx: nat
    var len: nat
    var counter: Counter
    const buf: Buffer

    ghost predicate Valid()
      reads this, buf
    {
      idx == 0 || Collecting(buf.bytes, idx, len)
    }

    /** The bytes of the incomplete chunk. */
    ghost function Pending(): seq<Byte>
      requires Valid()
      reads this, buf
    {
      if idx == 0 then [] else buf.bytes[..idx]
    }

    constructor ()
      ensures Valid() && fresh(buf) && Pending() == [] && counter == 0
    {
      idx, len, counter := 0, 0, 0;
      buf := new Buffer(0);
    }

    /** ss_check_hash: the data of b is replaced, in place, by the payloads it completes. */
    method CheckHash(b: Buffer, h: Hmac, capacity: nat) returns (ok: bool)
      requires Valid() && b.Valid() && b != buf && capacity >= CLEN_BYTES
      modifies this, buf, b
      ensures ok <==> !Parse(h, old(Pending() + b.Data()), old(counter)).Bad?
      ensures ok ==> Valid() && b.Valid()
      ensures ok ==> Parse(h, old(Pending() + b.Data()), old(counter)) == Parsed(b.Data(), Pending(), counter)
    {
      hide Parse, Clen, Reading, Collecting, After;
      var blen: nat, cidx: nat := b.len, idx;
      ghost var data, total, first := b.Data(), Pending() + b.Data(), counter;
      Prepare(b, capacity);
      var i: nat, j: nat, k: nat := 0, 0, 0;
      AfterBoth(b.bytes[..0], [], Parse(h, total, first));
      assert data[0..] == data;
      while i < blen
        invariant i <= blen == |data| && j <= |b.bytes| && cidx <= |buf.bytes|
        invariant Collecting(buf.bytes, cidx, len) && Reading(b.bytes, j, k, data[i..], cidx)
        invariant Parse(h, total, first) == After(b.bytes[..j], Parse(h, buf.bytes[..cidx] + data[i..], counter))
      {
        ReadOne(b.bytes, j, k, data[i..], cidx);
        NextByte(buf.bytes[..cidx], data, i);
        Collect(b.bytes[k], cidx, capacity);
        cidx, k, i := cidx + 1, k + 1, i + 1;
        if cidx == len + AUTH_BYTES {
          ok := Finish(b, j, k, blen - i, cidx, h, data[i..]);
          if !ok {
            return;
          }
          j := j + len;
          k, cidx := j, 0;
        }
      }
      assert data[i..] == [];
      ReadAll(h, b.bytes, j, k, buf.bytes, cidx, len, counter);
      b.len := j;
      idx := cidx;
      ok := true;
    }

    /** The chunk is complete: its hash is compared and its payload copied back. */
    method Finish(b: Buffer, j: nat, k: nat, n: nat, cidx: nat, h: Hmac, ghost rest: seq<Byte>) returns (ok: bool)
      requires b != buf && Reading(b.bytes, j, k, rest, cidx) && |rest| == n && j <= |b.bytes|
      requires cidx == len + AUTH_BYTES <= |buf.bytes| && len == Clen(buf.bytes[..cidx])
      modifies `counter, b`bytes
      ensures |b.bytes| == |old(b.bytes)|
      ensures var r := old(After(b.bytes[..j], Parse(h, buf.bytes[..cidx] + rest, counter)));
              if ok then j + len <= |b.bytes| && r == After(b.bytes[..j + len], Parse(h, buf.bytes[..0] + rest, counter)) else r == Bad
      ensures ok ==> Reading(b.bytes, j + len, j + len, rest, 0) && Collecting(buf.bytes, 0, len)
    {
      hide Parse, Clen, Reading, Collecting, After;
      var payload := buf.bytes[AUTH_BYTES..cidx];
      CompleteOne(h, b.bytes[..j], buf.bytes[..cidx], rest, counter);
      if h(counter, payload) != buf.bytes[CLEN_BYTES..AUTH_BYTES] {
        return false;
      }
      ReadChunk(b.bytes, j, k, rest, payload);
      CollectAnew(buf.bytes, len);
      b.bytes := Compacted(b.bytes, j, k, n, payload);
      counter := Next(counter);
      assert buf.bytes[..0] + rest == rest;
      ok := true;
    }

    /** Room to collect the chunk and to rewrite the data. */
    method Prepare(b: Buffer, capacity: nat)
      requires Valid() && b.Valid() && b != buf && capacity >= CLEN_BYTES
      modifies buf, b
      ensures b.len == old(b.len) && Collecting(buf.bytes, idx, len) && buf.bytes[..idx] == old(Pending())
      ensures Reading(b.bytes, 0, 0, old(b.Data()), idx)
    {
      buf.Realloc(len + b.len, capacity);
      b.Realloc(len + b.len, capacity);
    }

    /** One byte is collected; the second one completes the length. */
    method Collect(byte: Byte, cidx: nat, capacity: nat)
      requires Collecting(buf.bytes, cidx, len)
      modifies `len, buf
      ensures cidx + 1 <= |buf.bytes| && CLEN_BYTES <= |buf.bytes| && buf.bytes[..cidx + 1] == old(buf.bytes[..cidx]) + [byte]
      ensures cidx + 1 == len + AUTH_BYTES ==> len == Clen(buf.bytes[..cidx + 1])
      ensures cidx + 1 != len + AUTH_BYTES ==> Collecting(buf.bytes, cidx + 1, len)
    {
      CollectOne(buf.bytes, cidx, len, byte);
      buf.bytes := buf.bytes[cidx := byte];
      if cidx + 1 == CLEN_BYTES {
        var clen := Clen(buf.bytes);
        buf.Realloc(clen + AUTH_BYTES, capacity);
        len := clen;
      }
    }
  }
}
