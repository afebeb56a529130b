/** The stream ciphers: a keystream in blocks, resumed in the middle of a block by padding. */
module StreamCipher {

  import opened Basics
  import opened Buffers

  const BLOCK := 64     // SODIUM_BLOCK_SIZE

  type Iv = seq<Byte>

  /** The keystream of the configured key and method under an IV, byte by byte. */
  type Keystream = (Iv, nat) -> Byte

  // ---- exclusive or, bit by bit ----

  function XorBits(a: nat, b: nat, bits: nat): (r: nat)
    ensures r < Pow2(bits)
  {
    if bits == 0 then 0 else (a + b) % 2 + 2 * XorBits(a / 2, b / 2, bits - 1)
  }

  lemma LowBit(a: nat, b: nat, high: nat)
    ensures var r := (a + b) % 2 + 2 * high; r / 2 == high && (r + b) % 2 + 2 * (a / 2) == a
  {
  }

  lemma {:induction false} XorBitsTwice(a: nat, b: nat, bits: nat)
    requires a < Pow2(bits)
    ensures XorBits(XorBits(a, b, bits), b, bits) == a
  {
    if bits > 0 {
      XorBitsTwice(a / 2, b / 2, bits - 1);
      LowBit(a, b, XorBits(a / 2, b / 2, bits - 1));
    }
  }

  function Xor(a: Byte, b: Byte): Byte {
    assert Pow2(8) == 256;
    XorBits(a, b, 8)
  }

  lemma XorTwice(a: Byte, b: Byte)
    ensures Xor(Xor(a, b), b) == a
  {
    assert Pow2(8) == 256;
    XorBitsTwice(a, b, 8);
  }

  /** The bits of a number, from the lowest on. */
  function Bit(n: nat, k: nat): nat {
    if k == 0 then n % 2 else Bit(n / 2, k - 1)
  }

  /** c is the exclusive or of a and b: it has just the bits in which they differ. */
  predicate IsXor(c: Byte, a: Byte, b: Byte) {
    forall k :: 0 <= k < 8 ==> Bit(c, k) == if Bit(a, k) == Bit(b, k) then 0 else 1
  }

  lemma {:induction false} XorBitsAt(a: nat, b: nat, bits: nat, k: nat)
    requires k < bits
    ensures Bit(XorBits(a, b, bits), k) == if Bit(a, k) == Bit(b, k) then 0 else 1
  {
    var high := XorBits(a / 2, b / 2, bits - 1);
    LowBit(a, b, high);
    if k > 0 {
      XorBitsAt(a / 2, b / 2, bits - 1, k - 1);
    }
  }

  lemma {:induction false} SameBits(a: nat, b: nat, bits: nat)
    requires a < Pow2(bits) && b < Pow2(bits) && forall k :: 0 <= k < bits ==> Bit(a, k) == Bit(b, k)
    ensures a == b
  {
    if bits > 0 {
      assert Bit(a, 0) == Bit(b, 0);
      forall k | 0 <= k < bits - 1 ensures Bit(a / 2, k) == Bit(b / 2, k) {
        assert Bit(a, k + 1) == Bit(b, k + 1);
      }
      SameBits(a / 2, b / 2, bits - 1);
    }
  }

  /** There is just one such byte. */
  lemma XorExactly(c: Byte, a: Byte, b: Byte)
    ensures c == Xor(a, b) <==> IsXor(c, a, b)
  {
    assert Pow2(8) == 256;
    forall k | 0 <= k < 8 ensures Bit(Xor(a, b), k) == if Bit(a, k) == Bit(b, k) then 0 else 1 {
      XorBitsAt(a, b, 8, k);
    }
    if IsXor(c, a, b) {
      SameBits(c, Xor(a, b), 8);
    }
  }

  /** Byte by byte, c is the exclusive or of m and the keystream from position at on. */
  predicate UnderKeystream(ks: Keystream, iv: Iv, m: seq<Byte>, at: nat, c: seq<Byte>) {
    |c| == |m| && forall i :: 0 <= i < |m| ==> IsXor(c[i], m[i], ks(iv, at + i))
  }

  /** m under the keystream from position at on */
  function Xored(ks: Keystream, iv: Iv, m: seq<Byte>, at: nat): (c: seq<Byte>)
    ensures |c| == |m|
  {
    seq(|m|, i requires 0 <= i < |m| => Xor(m[i], ks(iv, at + i)))
  }

  lemma XoredIs(ks: Keystream, iv: Iv, m: seq<Byte>, at: nat)
    ensures UnderKeystream(ks, iv, m, at, Xored(ks, iv, m, at))
  {
    hide Xor, IsXor;
    var c := Xored(ks, iv, m, at);
    forall i | 0 <= i < |m| ensures IsXor(c[i], m[i], ks(iv, at + i)) {
      XorExactly(c[i], m[i], ks(iv, at + i));
    }
  }

  lemma XoredTwice(ks: Keystream, iv: Iv, m: seq<Byte>, at: nat)
    ensures Xored(ks, iv, Xored(ks, iv, m, at), at) == m
  {
    hide Xor;
    forall i | 0 <= i < |m| ensures Xor(Xor(m[i], ks(iv, at + i)), ks(iv, at + i)) == m[i] {
      XorTwice(m[i], ks(iv, at + i));
    }
  }

  lemma XoredSplit(ks: Keystream, iv: Iv, a: seq<Byte>, b: seq<Byte>, at: nat)
    ensures Xored(ks, iv, a + b, at) == Xored(ks, iv, a, at) + Xored(ks, iv, b, at + |a|)
  {
    hide Xor;
  }

  /** crypto_stream_xor_ic: the keystream starts with block ic */
  function XorIc(ks: Keystream, iv: Iv, m: seq<Byte>, ic: nat): (c: seq<Byte>)
    ensures |c| == |m|
  {
    Xored(ks, iv, m, BLOCK * ic)
  }

  /** Padding in front, dropped afterwards, gives the keystream from any position. */
  lemma PaddingSkips(ks: Keystream, iv: Iv, pad: seq<Byte>, m: seq<Byte>, counter: nat)
    requires |pad| == counter % BLOCK
    ensures XorIc(ks, iv, pad + m, counter / BLOCK)[|pad|..] == Xored(ks, iv, m, counter)
  {
    XoredSplit(ks, iv, pad, m, BLOCK * (counter / BLOCK));
  }

  // ---- whole streams ----

  /** An enc_ctx_t. */
  datatype Ctx = Ctx(init: bool, counter: nat, iv: Iv)

  function Start(s: Ctx): nat {
    if s.init then s.counter else 0
  }

  /** What ss_encrypt makes of one piece. */
  function Encrypted(ks: Keystream, s: Ctx, m: seq<Byte>): seq<Byte> {
    (if s.init then [] else s.iv) + Xored(ks, s.iv, m, Start(s))
  }

  function AfterEncrypt(s: Ctx, m: seq<Byte>): Ctx {
    Ctx(true, Start(s) + |m|, s.iv)
  }

  function EncryptAll(ks: Keystream, s: Ctx, pieces: seq<seq<Byte>>): seq<Byte>
    decreases |pieces|
  {
    if pieces == [] then []
    else Encrypted(ks, s, pieces[0]) + EncryptAll(ks, AfterEncrypt(s, pieces[0]), pieces[1..])
  }

  /** What ss_decrypt makes of one piece; the first one begins with the whole IV, of n bytes. */
  function DecIv(s: Ctx, n: nat, c: seq<Byte>): Iv
    requires s.init || n <= |c|
  {
    if s.init then s.iv else c[..n]
  }

  function DecBody(s: Ctx, n: nat, c: seq<Byte>): seq<Byte>
    requires s.init || n <= |c|
  {
    if s.init then c else c[n..]
  }

  function Decrypted(ks: Keystream, s: Ctx, n: nat, c: seq<Byte>): seq<Byte>
    requires s.init || n <= |c|
  {
    Xored(ks, DecIv(s, n, c), DecBody(s, n, c), Start(s))
  }

  function AfterDecrypt(s: Ctx, n: nat, c: seq<Byte>): Ctx
    requires s.init || n <= |c|
  {
    Ctx(true, Start(s) + |DecBody(s, n, c)|, DecIv(s, n, c))
  }

  function DecryptAll(ks: Keystream, s: Ctx, n: nat, pieces: seq<seq<Byte>>): seq<Byte>
    requires s.init || pieces == [] || n <= |pieces[0]|
    decreases |pieces|
  {
    if pieces == [] then []
    else Decrypted(ks, s, n, pieces[0]) + DecryptAll(ks, AfterDecrypt(s, n, pieces[0]), n, pieces[1..])
  }

  /** However the plaintext is cut, the IV is sent once and then the plaintext under the keystream. */
  lemma {:induction false} EncryptAny(ks: Keystream, s: Ctx, pieces: seq<seq<Byte>>)
    requires pieces != [] || s.init
    ensures EncryptAll(ks, s, pieces) == Encrypted(ks, s, Concat(pieces))
    decreases |pieces|
  {
    hide Xored;
    if pieces == [] {
      NothingXored(ks, s.iv, s.counter);
    } else {
      EncryptAny(ks, AfterEncrypt(s, pieces[0]), pieces[1..]);
      XoredSplit(ks, s.iv, pieces[0], Concat(pieces[1..]), Start(s));
    }
  }

  /** What is sent, byte by byte: the IV, unless it was sent before, and the plaintext under the keystream, which goes on
      where it was. */
  predicate Ciphertext(ks: Keystream, s: Ctx, m: seq<Byte>, c: seq<Byte>) {
    if s.init then UnderKeystream(ks, s.iv, m, s.counter, c)
    else s.iv <= c && UnderKeystream(ks, s.iv, m, 0, c[|s.iv|..])
  }

  lemma EncryptedIs(ks: Keystream, s: Ctx, m: seq<Byte>)
    ensures Ciphertext(ks, s, m, Encrypted(ks, s, m))
  {
    hide Xored, UnderKeystream;
    XoredIs(ks, s.iv, m, Start(s));
    var x := Xored(ks, s.iv, m, Start(s));
    assert [] + x == x && (s.iv + x)[|s.iv|..] == x;
  }

  lemma EncryptedAnyIs(ks: Keystream, s: Ctx, pieces: seq<seq<Byte>>)
    requires pieces != [] || s.init
    ensures Ciphertext(ks, s, Concat(pieces), EncryptAll(ks, s, pieces))
  {
    hide EncryptAll, Encrypted, Ciphertext;
    EncryptAny(ks, s, pieces);
    EncryptedIs(ks, s, Concat(pieces));
  }

  /** What is received, byte by byte, for any cut of the stream: the IV is what comes first. */
  lemma DecryptedAnyIs(ks: Keystream, s: Ctx, n: nat, pieces: seq<seq<Byte>>)
    requires s.init || (pieces != [] && n <= |pieces[0]|)
    ensures var c := Concat(pieces);
            if s.init then UnderKeystream(ks, s.iv, c, s.counter, DecryptAll(ks, s, n, pieces))
            else n <= |c| && UnderKeystream(ks, c[..n], c[n..], 0, DecryptAll(ks, s, n, pieces))
  {
    hide Xored, DecryptAll, UnderKeystream;
    DecryptAny(ks, s, n, pieces);
    var c := Concat(pieces);
    XoredIs(ks, DecIv(s, n, c), DecBody(s, n, c), Start(s));
  }

  lemma NothingXored(ks: Keystream, iv: Iv, at: nat)
    ensures Xored(ks, iv, [], at) == []
  {
  }

  lemma {:induction false} DecryptAny(ks: Keystream, s: Ctx, n: nat, pieces: seq<seq<Byte>>)
    requires s.init || (pieces != [] && n <= |pieces[0]|)
    ensures s.init || n <= |Concat(pieces)|
    ensures DecryptAll(ks, s, n, pieces) == Decrypted(ks, s, n, Concat(pieces))
    decreases |pieces|
  {
    hide Xored;
    if pieces == [] {
      NothingXored(ks, s.iv, s.counter);
    } else {
      var after := AfterDecrypt(s, n, pieces[0]);
      DecryptAny(ks, after, n, pieces[1..]);
      XoredSplit(ks, after.iv, DecBody(s, n, pieces[0]), Concat(pieces[1..]), Start(s));
      assert DecBody(s, n, Concat(pieces)) == DecBody(s, n, pieces[0]) + Concat(pieces[1..]);
      assert DecIv(s, n, Concat(pieces)) == after.iv;
    }
  }

  /** Whatever way the plaintext is cut by the sender and the ciphertext by the network. */
  lemma RoundTrip(ks: Keystream, s: Ctx, r: Ctx, plain: seq<seq<Byte>>, cut: seq<seq<Byte>>)
    requires !s.init && !r.init && plain != []
    requires Concat(cut) == EncryptAll(ks, s, plain)
    requires cut != [] && |s.iv| <= |cut[0]|
    ensures DecryptAll(ks, r, |s.iv|, cut) == Concat(plain)
  {
    hide Xored;
    EncryptAny(ks, s, plain);
    DecryptAny(ks, r, |s.iv|, cut);
    var c := Concat(cut);
    assert c[..|s.iv|] == s.iv && c[|s.iv|..] == Xored(ks, s.iv, Concat(plain), 0);
    XoredTwice(ks, s.iv, Concat(plain), 0);
  }

  // ---- the two directions of a connection, in place ----

  function Zeros(n: nat): (z: seq<Byte>)
    ensures |z| == n
  {
    seq(n, _ => 0)
  }

  /** m with padding in front */
  lemma Padded(bytes: seq<Byte>, at: nat, n: nat, pad: nat)
    requires at + pad + n <= |bytes|
    ensures Copied(Moved(bytes, at + pad, at, n), at, Zeros(pad))[at..at + pad + n] == Zeros(pad) + bytes[at..at + n]
  {
    var m := Moved(bytes, at + pad, at, n);
    var c := Copied(m, at, Zeros(pad));
    assert c[at + pad..at + pad + n] == c[at + pad..][..n] == m[at + pad..][..n] == bytes[at..at + n];
    assert c[at..at + pad + n] == c[at..at + pad] + c[at + pad..at + pad + n];
  }

  /** The output of crypto_stream_xor_ic, moved back over its padding. */
  lemma Unpadded(bytes: seq<Byte>, at: nat, pad: nat, x: seq<Byte>)
    requires at + |x| <= |bytes| && pad <= |x|
    ensures Moved(Copied(bytes, at, x), at, at + pad, |x| - pad)[..at + |x| - pad] == bytes[..at] + x[pad..]
  {
    var c := Copied(bytes, at, x);
    var m := Moved(c, at, at + pad, |x| - pad);
    assert m[..at + |x| - pad] == m[..at] + m[at..at + (|x| - pad)];
    assert c[at + pad..at + |x|] == c[at..at + |x|][pad..];
  }

  /** The enc_ctx_t of one direction, with the scratch buffer. */
  class Cipher {
    const ks: Keystream
    const ivLen: nat             // enc_iv_len
    var init: bool
    var counter: nat
    var iv: Iv
    const tmp: Buffer

    ghost predicate Valid()
      reads this
    {
      |iv| == ivLen
    }

    ghost function State(): Ctx
      reads this
    {
      Ctx(init, counter, iv)
    }

    /** enc_ctx_init, with the IV for sending */
    constructor (ks: Keystream, iv: Iv)
      ensures Valid() && fresh(tmp) && State() == Ctx(false, 0, iv) && this.ks == ks && ivLen == |iv|
    {
      this.ks, this.iv, ivLen := ks, iv, |iv|;
      init, counter := false, 0;
      tmp := new Buffer(0);
    }

    /** ss_encrypt with a method from SALSA20 on */
    method Encrypt(plain: Buffer, capacity: nat)
      requires Valid() && plain.Valid() && plain != tmp
      modifies `init, `counter, plain, tmp
      ensures Valid() && plain.Valid()
      ensures plain.Data() == Encrypted(ks, old(State()), old(plain.Data()))
      ensures State() == AfterEncrypt(old(State()), old(plain.Data()))
      ensures Ciphertext(ks, old(State()), old(plain.Data()), plain.Data())
      ensures init && iv == old(iv) && counter == (if old(init) then old(counter) else 0) + |old(plain.Data())|
    {
      hide Xored, Ciphertext;
      EncryptedIs(ks, State(), plain.Data());
      var head := if init then 0 else ivLen;
      tmp.Realloc(head + plain.len, capacity);
      tmp.len := plain.len;
      if !init {
        tmp.bytes := Copied(tmp.bytes, 0, iv);
        counter := 0;
        init := true;
      }
      EncryptBody(plain, head, capacity);
      plain.Realloc(head + tmp.len, capacity);
      plain.bytes := Copied(plain.bytes, 0, tmp.bytes[..head + tmp.len]);
      plain.len := head + tmp.len;
    }

    /** The keystream part of ss_encrypt: the ciphertext goes behind the first head bytes of tmp. */
    method EncryptBody(plain: Buffer, head: nat, capacity: nat)
      requires plain.Valid() && plain != tmp && init && tmp.len == plain.len && head <= |tmp.bytes|
      modifies `counter, plain, tmp
      ensures tmp.len == old(tmp.len) && head + tmp.len <= |tmp.bytes|
      ensures tmp.bytes[..head + tmp.len] == old(tmp.bytes[..head]) + Xored(ks, iv, old(plain.Data()), old(counter))
      ensures counter == old(counter) + old(plain.len)
    {
      hide Xored, XorIc;
      ghost var m := plain.Data();
      var padding := counter % BLOCK;
      tmp.Realloc(head + (padding + tmp.len) * 2, capacity);
      Pad(plain, 0, plain.len, padding, capacity);
      PaddingSkips(ks, iv, Zeros(padding), m, counter);
      Place(head, padding, XorIc(ks, iv, plain.bytes[0..plain.len + padding], counter / BLOCK));
      counter := counter + plain.len;
    }

    /** The n bytes at offset at are moved up, behind padding. */
    method Pad(b: Buffer, at: nat, n: nat, padding: nat, capacity: nat)
      requires b.Valid() && b != tmp && at + n == b.len
      modifies b
      ensures b.len == old(b.len) && at + padding + n <= |b.bytes|
      ensures b.bytes[at..b.len + padding] == Zeros(padding) + old(b.bytes[at..b.len])
    {
      hide Zeros, Copied, Moved;
      ghost var m := b.bytes[at..b.len];
      if padding > 0 {
        b.Realloc(b.len + padding, capacity);
        assert b.bytes[at..at + n] == m;
        Padded(b.bytes, at, n, padding);
        b.bytes := Moved(b.bytes, at + padding, at, n);
        b.bytes := Copied(b.bytes, at, Zeros(padding));
      } else {
        assert Zeros(0) + m == m;
      }
    }

    /** The output of the keystream, without its padding, goes to tmp. */
    method Place(head: nat, padding: nat, out: seq<Byte>)
      requires head + |out| <= |tmp.bytes| && padding <= |out|
      modifies tmp
      ensures tmp.len == old(tmp.len) && |tmp.bytes| == |old(tmp.bytes)|
      ensures tmp.bytes[..head + (|out| - padding)] == old(tmp.bytes[..head]) + out[padding..]
    {
      Unpadded(tmp.bytes, head, padding, out);
      tmp.bytes := Copied(tmp.bytes, head, out);
      if padding > 0 {
        tmp.bytes := Moved(tmp.bytes, head, head + padding, |out| - padding);
      }
    }

    /** ss_decrypt with a method from SALSA20 on; seen are the IVs of the cache. An IV that was seen before is refused. */
    method Decrypt(cipher: Buffer, seen: set<Iv>, capacity: nat) returns (ok: bool, cache: set<Iv>)
      requires Valid() && cipher.Valid() && cipher != tmp && (init || ivLen <= cipher.len)
      modifies `init, `counter, `iv, cipher, tmp
      ensures Valid() && cipher.Valid()
      ensures ok <==> old(init) || old(cipher.Data())[..ivLen] !in seen
      ensures ok ==> cipher.Data() == Decrypted(ks, old(State()), ivLen, old(cipher.Data()))
      ensures ok ==> State() == AfterDecrypt(old(State()), ivLen, old(cipher.Data()))
      ensures var c := old(cipher.Data());
              ok ==> if old(init) then UnderKeystream(ks, old(iv), c, old(counter), cipher.Data())
                     else UnderKeystream(ks, c[..ivLen], c[ivLen..], 0, cipher.Data())
      ensures !ok ==> cipher.Data() == []
      ensures cache == if ok && !old(init) then seen + {iv} else seen
    {
      hide Xored, UnderKeystream;
      XoredIs(ks, DecIv(State(), ivLen, cipher.Data()), DecBody(State(), ivLen, cipher.Data()), Start(State()));
      var head := if init then 0 else ivLen;
      cache := seen;
      tmp.Realloc(cipher.len, capacity);
      tmp.len := cipher.len - head;
      if !init {
        assert cipher.bytes[..ivLen] == cipher.Data()[..ivLen];
        iv := cipher.bytes[..ivLen];
        counter := 0;
        init := true;
        if iv in seen {
          cipher.bytes, cipher.len := [], 0;
          return false, cache;
        }
        cache := seen + {iv};
      }
      assert cipher.Data()[head..] == cipher.bytes[head..cipher.len];
      DecryptBody(cipher, head, capacity);
      cipher.Realloc(tmp.len, capacity);
      cipher.bytes := Copied(cipher.bytes, 0, tmp.bytes[..tmp.len]);
      cipher.len := tmp.len;
      ok := true;
    }

    /** The keystream part of ss_decrypt: the plaintext of what follows the first head bytes goes to tmp. */
    method DecryptBody(cipher: Buffer, head: nat, capacity: nat)
      requires cipher.Valid() && cipher != tmp && init && head <= cipher.len && tmp.len == cipher.len - head
      modifies `counter, cipher, tmp
      ensures tmp.len == old(tmp.len) <= |tmp.bytes|
      ensures tmp.bytes[..tmp.len] == Xored(ks, iv, old(cipher.bytes[head..cipher.len]), old(counter))
      ensures counter == old(counter) + old(cipher.len) - head
    {
      hide Xored, XorIc;
      ghost var c := cipher.bytes[head..cipher.len];
      var padding := counter % BLOCK;
      tmp.Realloc((tmp.len + padding) * 2, capacity);
      Pad(cipher, head, cipher.len - head, padding, capacity);
      PaddingSkips(ks, iv, Zeros(padding), c, counter);
      Place(0, padding, XorIc(ks, iv, cipher.bytes[head..cipher.len + padding], counter / BLOCK));
      counter := counter + (cipher.len - head);
    }
  }
}
