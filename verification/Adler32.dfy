/** Adler-32 with deferred reductions. */
module Adler32 {

  import opened Buffers

  const BASE := 65521
  const NMAX := 5552
  const WORD32 := 0x1_0000_0000

  /** The two sums, reduced after every byte: section 2.2 of RFC 1950. */
  datatype Sums = Sums(a: nat, b: nat)

  function Sum(s: Sums, m: seq<Byte>): (r: Sums)
    requires s.a < BASE && s.b < BASE
    ensures r.a < BASE && r.b < BASE
    decreases |m|
  {
    if m == [] then s
    else
      var a := (s.a + m[0]) % BASE;
      Sum(Sums(a, (s.b + a) % BASE), m[1..])
  }

  function Adler(m: seq<Byte>): nat {
    var r := Sum(Sums(1, 0), m);
    65536 * r.b + r.a
  }

  /** The checksum of the letters abc. */
  lemma AdlerExample()
    ensures Adler([97, 98, 99]) == 0x24d_0127 && Bytes(0x24d_0127) == [0x27, 0x01, 0x4d, 0x02]
  {
    hide Sum;
    var m: seq<Byte>, n: seq<Byte>, l: seq<Byte> := [97, 98, 99], [98, 99], [99];
    SumFirst(Sums(1, 0), m);
    SumFirst(Sums(98, 98), n);
    SumFirst(Sums(196, 294), l);
    assert m[1..] == n && n[1..] == l && l[1..] == [];
    assert Sum(Sums(1, 0), m) == Sums(295, 589);
  }

  lemma SumFirst(s: Sums, m: seq<Byte>)
    requires s.a < BASE && s.b < BASE && m != []
    ensures var a := (s.a + m[0]) % BASE; Sum(s, m) == Sum(Sums(a, (s.b + a) % BASE), m[1..])
    ensures Sum(Sums(295, 589), []) == Sums(295, 589)
  {
  }

  lemma {:induction false} SumConcat(s: Sums, m: seq<Byte>, n: seq<Byte>)
    requires s.a < BASE && s.b < BASE
    ensures Sum(s, m + n) == Sum(Sum(s, m), n)
    decreases |m|
  {
    if m == [] {
      assert m + n == n;
    } else {
      assert (m + n)[1..] == m[1..] + n;
      var a := (s.a + m[0]) % BASE;
      SumConcat(Sums(a, (s.b + a) % BASE), m[1..], n);
    }
  }

  // ---- how long a reduction may wait ----

  function Triangle(n: nat): nat {
    if n == 0 then 0 else n + Triangle(n - 1)
  }

  /** The most that the two sums can reach n bytes after a reduction. */
  function MostA(n: nat): nat { BASE - 1 + 255 * n }
  function MostB(n: nat): nat { BASE - 1 + (BASE - 1) * n + 255 * Triangle(n) }

  lemma {:induction false} TriangleIs(n: nat)
    ensures 2 * Triangle(n) == n * (n + 1)
  {
    if n > 0 {
      TriangleIs(n - 1);
    }
  }

  lemma {:induction false} MostGrows(m: nat, n: nat)
    requires m <= n
    ensures MostA(m) <= MostA(n) && MostB(m) <= MostB(n)
    decreases n - m
  {
    if m < n {
      MostGrows(m, n - 1);
    }
  }

  lemma MostWithinWord(n: nat)
    ensures MostA(n) < WORD32 && MostB(n) < WORD32 <==> n <= NMAX
  {
    TriangleIs(NMAX);
    TriangleIs(NMAX + 1);
    if n <= NMAX {
      MostGrows(n, NMAX);
    } else {
      MostGrows(NMAX + 1, n);
    }
  }

  /** The sums without any reduction. */
  function Unreduced(s: Sums, m: seq<Byte>): Sums {
    if m == [] then s
    else
      var r := Unreduced(s, m[..|m| - 1]);
      var a := r.a + m[|m| - 1];
      Sums(a, r.b + a)
  }

  lemma {:induction false} AtMost(s: Sums, m: seq<Byte>)
    requires s.a < BASE && s.b < BASE
    ensures Unreduced(s, m).a <= MostA(|m|) && Unreduced(s, m).b <= MostB(|m|)
  {
    if m != [] {
      AtMost(s, m[..|m| - 1]);
    }
  }

  /** The most is reached by bytes of 255, from the greatest sums there are after a reduction. */
  lemma {:induction false} MostIsReached(n: nat)
    ensures Unreduced(Sums(BASE - 1, BASE - 1), seq(n, _ => 255)) == Sums(MostA(n), MostB(n))
  {
    if n > 0 {
      MostIsReached(n - 1);
      var m: seq<Byte> := seq(n, _ => 255);
      assert m[..n - 1] == seq(n - 1, _ => 255) && m[n - 1] == 255;
    }
  }

  /** After a reduction, n bytes cannot make the sums overflow 32 bits, whatever they are. */
  ghost predicate NeverOverflows(n: nat) {
    forall s: Sums, m: seq<Byte> | s.a < BASE && s.b < BASE && |m| == n ::
      Unreduced(s, m).a < WORD32 && Unreduced(s, m).b < WORD32
  }

  /** NMAX is the greatest such number: more bytes can overflow. */
  lemma NmaxIsGreatest(n: nat)
    ensures NeverOverflows(n) <==> n <= NMAX
  {
    hide Unreduced, MostA, MostB;
    MostWithinWord(n);
    if n <= NMAX {
      forall s: Sums, m: seq<Byte> | s.a < BASE && s.b < BASE && |m| == n
        ensures Unreduced(s, m).a < WORD32 && Unreduced(s, m).b < WORD32
      {
        AtMost(s, m);
      }
    } else {
      var m: seq<Byte> := seq(n, _ => 255);
      MostIsReached(n);
      assert |m| == n;
    }
  }

  /** The sums as the loop has them before they are reduced. */
  predicate Deferred(a: nat, b: nat, n: nat, r: Sums) {
    a <= MostA(n) && b <= MostB(n) && a % BASE == r.a && b % BASE == r.b
  }

  lemma ModLeft(a: nat, b: nat)
    ensures (a + b) % BASE == (a % BASE + b) % BASE
  {
    var q, r := a / BASE, a % BASE;
    assert a + b == BASE * q + (r + b);
  }

  lemma SameMod(a: nat, b: nat, c: nat, d: nat)
    requires a % BASE == c % BASE && b % BASE == d % BASE
    ensures (a + b) % BASE == (c + d) % BASE
  {
    ModLeft(a, b);
    ModLeft(c, d);
    ModLeft(b, a % BASE);
    ModLeft(d, a % BASE);
  }

  lemma OneMore(a: nat, b: nat, n: nat, x: Byte)
    requires a <= MostA(n) && b <= MostB(n) && n < NMAX
    ensures a + x <= MostA(n + 1) < WORD32 && b + (a + x) <= MostB(n + 1) < WORD32
  {
    MostWithinWord(n + 1);
  }

  lemma DeferOne(a: nat, b: nat, n: nat, r: Sums, x: Byte)
    requires Deferred(a, b, n, r) && n < NMAX && r.a < BASE && r.b < BASE
    ensures var c := (a + x) % WORD32;
            var d := (b + c) % WORD32;
            var s := (r.a + x) % BASE;
            c == a + x && d == b + c && Deferred(c, d, n + 1, Sums(s, (r.b + s) % BASE))
  {
    OneMore(a, b, n, x);
    hide MostA, MostB;
    SameMod(a, x, r.a, x);
    SameMod(b, a + x, r.b, (r.a + x) % BASE);
  }

  // ---- the program ----

  lemma SumOne(s: Sums, m: seq<Byte>, i: nat)
    requires s.a < BASE && s.b < BASE && i < |m|
    ensures var r := Sum(s, m[..i]);
            var a := (r.a + m[i]) % BASE;
            Sum(s, m[..i + 1]) == Sums(a, (r.b + a) % BASE)
  {
    assert m[..i + 1] == m[..i] + [m[i]];
    SumConcat(s, m[..i], [m[i]]);
    assert [m[i]][1..] == [];
  }

  /** adler32_short: additions of 32 bits, with one reduction at the end */
  method Short(buffer: seq<Byte>, a0: nat, b0: nat) returns (a: nat, b: nat)
    requires |buffer| <= NMAX && a0 < BASE && b0 < BASE
    ensures Sums(a, b) == Sum(Sums(a0, b0), buffer)
  {
    hide Deferred;
    a, b := a0, b0;
    ghost var s := Sums(a0, b0);
    DeferNone(s);
    var i := 0;
    while i < |buffer|
      invariant 0 <= i <= |buffer|
      invariant Deferred(a, b, i, Sum(s, buffer[..i]))
    {
      DeferOne(a, b, i, Sum(s, buffer[..i]), buffer[i]);
      SumOne(s, buffer, i);
      a := (a + buffer[i]) % WORD32;
      b := (b + a) % WORD32;
      i := i + 1;
    }
    assert buffer[..i] == buffer;
    Reduced(a, b, i, Sum(s, buffer));
    a, b := a % BASE, b % BASE;
  }

  lemma DeferNone(s: Sums)
    requires s.a < BASE && s.b < BASE
    ensures forall m: seq<Byte> :: m == [] ==> Deferred(s.a, s.b, 0, Sum(s, m))
  {
  }

  lemma Reduced(a: nat, b: nat, n: nat, r: Sums)
    requires Deferred(a, b, n, r)
    ensures Sums(a % BASE, b % BASE) == r
  {
  }

  /** adler32 */
  method Compute(buffer: seq<Byte>) returns (checksum: nat)
    ensures checksum == Adler(buffer) < WORD32
  {
    var a, b, done := 1, 0, 0;
    ghost var s := Sums(1, 0);
    while |buffer| - done >= NMAX
      invariant 0 <= done <= |buffer| && Sums(a, b) == Sum(s, buffer[..done])
    {
      a, b := Short(buffer[done..done + NMAX], a, b);
      SumConcat(s, buffer[..done], buffer[done..done + NMAX]);
      assert buffer[..done] + buffer[done..done + NMAX] == buffer[..done + NMAX];
      done := done + NMAX;
    }
    a, b := Short(buffer[done..], a, b);
    SumConcat(s, buffer[..done], buffer[done..]);
    assert buffer[..done] + buffer[done..] == buffer;
    checksum := 65536 * b + a;
  }

  /** The bytes of a 32-bit word, the lowest first. */
  function Bytes(w: nat): (s: seq<Byte>)
    requires w < WORD32
    ensures |s| == 4
  {
    [w % 256, w / 256 % 256, w / 65536 % 256, w / 16777216]
  }

  function Packed(s: seq<Byte>): nat
    requires |s| == 4
  {
    16777216 * (s[3] as int) + 65536 * (s[2] as int) + 256 * (s[1] as int) + s[0] as int
  }

  /** The lowest byte and the rest. */
  lemma LowByte(a: nat, x: Byte, y: nat)
    ensures a == 256 * y + x <==> a % 256 == x && a / 256 == y
  {
  }

  lemma PackedBytes(w: nat, s: seq<Byte>)
    requires w < WORD32 && |s| == 4
    ensures Packed(s) == w <==> s == Bytes(w)
  {
    var high: nat, higher: nat := 256 * (s[3] as int) + s[2] as int, s[3] as int;
    LowByte(w, s[0], 256 * high + s[1] as int);
    LowByte(w / 256, s[1], high);
    LowByte(w / 256 / 256, s[2], higher);
    DividedTwice(w);
    assert s == [s[0], s[1], s[2], s[3]];
  }

  lemma DividedTwice(w: nat)
    ensures w / 256 / 256 == w / 65536 && w / 65536 / 256 == w / 16777216
  {
  }

  /** filladler32 */
  method Fill(buffer: array<Byte>, size: nat)
    requires 4 <= size <= buffer.Length
    modifies buffer
    ensures buffer[..size - 4] == old(buffer[..size - 4]) && buffer[size..] == old(buffer[size..])
    ensures buffer[size - 4..size] == Bytes(Adler(buffer[..size - 4]))
  {
    hide Adler;
    var n := size - 4;
    var checksum := Compute(buffer[..n]);
    ghost var m := buffer[..n];
    buffer[n] := checksum % 256;
    buffer[n + 1] := checksum / 256 % 256;
    buffer[n + 2] := checksum / 65536 % 256;
    buffer[n + 3] := checksum / 16777216;
    assert buffer[..n] == m;
  }

  /** checkadler32: accepts exactly what filladler32 fills in */
  method Check(buffer: seq<Byte>) returns (ok: bool)
    requires |buffer| >= 4
    ensures Adler(buffer[..|buffer| - 4]) < WORD32
    ensures ok <==> buffer[|buffer| - 4..] == Bytes(Adler(buffer[..|buffer| - 4]))
  {
    var n := |buffer| - 4;
    var checksum := Compute(buffer[..n]);
    PackedBytes(checksum, buffer[n..]);
    ok := checksum == Packed(buffer[n..]);
  }
}
