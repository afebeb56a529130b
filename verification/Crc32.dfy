/** The 32-bit cyclic redundancy check, by table and bit by bit. */
module Crc32 {

  type Byte = bv8
  type Word = bv32

  const POLY: Word := 0xedb88320
  const ONES: Word := 0xFFFF_FFFF

  function Plus(a: Word, b: Word): Word { a ^ b }
  function Half(a: Word): Word { a >> 1 }
  predicate Odd(a: Word) { a & 1 == 1 }
  function Low(w: Word): Word { w & 0xFF }
  function High(w: Word): Word { w & 0xFFFF_FF00 }
  function Shifted(w: Word): Word { w >> 8 }
  function Wide(b: Byte): Word { b as Word }

  // ---- the bit-serial definition ----

  /** The register takes in one bit. */
  function TakeBit(reg: Word, bit: Word): Word {
    if Odd(reg) != Odd(bit) then Plus(POLY, Half(reg)) else Half(reg)
  }

  /** The lowest n bits of b, the lowest one first. */
  function TakeBits(reg: Word, b: Word, n: nat): Word
    decreases n
  {
    if n == 0 then reg else TakeBits(TakeBit(reg, b), Half(b), n - 1)
  }

  /** The register after a message. */
  function Register(reg: Word, m: seq<Byte>): Word
    decreases |m|
  {
    if m == [] then reg else Register(TakeBits(reg, Wide(m[0]), 8), m[1..])
  }

  /** The CRC of a message, section 8 of RFC 1952. */
  function Crc(m: seq<Byte>): Word {
    Plus(Register(ONES, m), ONES)
  }

  lemma OneBit(reg: Word, b: Word, next: Word, rest: Word, n: nat)
    requires TakeBit(reg, b) == next && Half(b) == rest
    ensures TakeBits(reg, b, n + 1) == TakeBits(next, rest, n)
  {
    hide TakeBit, Half;
  }

  /** The CRC of one letter a. */
  lemma CrcExample()
    ensures Crc([0x61]) == 0xe8b7_be43 && Bytes(0xe8b7_be43) == [0x43, 0xbe, 0xb7, 0xe8]
  {
    hide TakeBits;
    OneBit(0xffffffff, 0x61, 0x7fffffff, 0x30, 7);
    OneBit(0x7fffffff, 0x30, 0xd2477cdf, 0x18, 6);
    OneBit(0xd2477cdf, 0x18, 0x849b3d4f, 0xc, 5);
    OneBit(0x849b3d4f, 0xc, 0xaff51d87, 0x6, 4);
    OneBit(0xaff51d87, 0x6, 0xba420de3, 0x3, 3);
    OneBit(0xba420de3, 0x3, 0x5d2106f1, 0x1, 2);
    OneBit(0x5d2106f1, 0x1, 0x2e908378, 0x0, 1);
    OneBit(0x2e908378, 0x0, 0x174841bc, 0x0, 0);
    NoBits(0x174841bc, 0);
    OneByte(0x61);
  }

  lemma NoBits(reg: Word, b: Word)
    ensures TakeBits(reg, b, 0) == reg
  {
  }

  lemma OneByte(b: Byte)
    ensures Register(ONES, [b]) == TakeBits(ONES, Wide(b), 8)
  {
    hide TakeBits;
    assert [b][1..] == [];
  }

  // ---- shifting several bits at once ----

  /** One turn of the loop that fills the table. */
  function Step(c: Word): Word {
    if Odd(c) then Plus(POLY, Half(c)) else Half(c)
  }

  function Steps(c: Word, n: nat): Word
    decreases n
  {
    if n == 0 then c else Steps(Step(c), n - 1)
  }

  function Halves(b: Word, n: nat): Word
    decreases n
  {
    if n == 0 then b else Halves(Half(b), n - 1)
  }

  lemma HalfPlus(a: Word, b: Word)
    ensures Half(Plus(a, b)) == Plus(Half(a), Half(b))
  {
  }

  lemma OddPlus(a: Word, b: Word)
    ensures Odd(Plus(a, b)) <==> Odd(a) != Odd(b)
  {
    assert (a ^ b) & 1 == (a & 1) ^ (b & 1);
    assert a & 1 == 0 || a & 1 == 1;
    assert b & 1 == 0 || b & 1 == 1;
  }

  lemma Assoc(p: Word, a: Word, b: Word)
    ensures Plus(Plus(p, a), b) == Plus(p, Plus(a, b))
  {
  }

  lemma Commute(a: Word, b: Word)
    ensures Plus(a, b) == Plus(b, a)
  {
  }

  lemma Cancel(a: Word)
    ensures Plus(a, a) == 0 && Plus(0, a) == a && Plus(a, 0) == a
  {
  }

  lemma PlusTwice(p: Word, a: Word, b: Word)
    ensures Plus(Plus(p, a), b) == Plus(p, Plus(a, b))
    ensures Plus(a, Plus(p, b)) == Plus(p, Plus(a, b))
    ensures Plus(Plus(p, a), Plus(p, b)) == Plus(a, b)
  {
    hide Plus;
    Assoc(p, a, b);
    Commute(a, Plus(p, b));
    Assoc(p, b, a);
    Commute(a, b);
    Assoc(p, a, Plus(p, b));
    Assoc(p, p, Plus(a, b));
    Cancel(p);
    Cancel(Plus(a, b));
  }

  lemma StepLinear(a: Word, b: Word)
    ensures Step(Plus(a, b)) == Plus(Step(a), Step(b))
  {
    hide Plus, Half, Odd;
    HalfPlus(a, b);
    OddPlus(a, b);
    PlusTwice(POLY, Half(a), Half(b));
  }

  lemma {:induction false} StepsLinear(a: Word, b: Word, n: nat)
    ensures Steps(Plus(a, b), n) == Plus(Steps(a, n), Steps(b, n))
    decreases n
  {
    hide Step, Plus;
    if n > 0 {
      StepLinear(a, b);
      StepsLinear(Step(a), Step(b), n - 1);
    }
  }

  lemma TakeBitIs(reg: Word, b: Word)
    ensures Step(Plus(reg, b)) == Plus(TakeBit(reg, b), Half(b))
  {
    hide Plus, Half, Odd;
    HalfPlus(reg, b);
    OddPlus(reg, b);
    PlusTwice(POLY, Half(reg), Half(b));
  }

  /** Bits taken in one at a time, or all at once. */
  lemma {:induction false} TakeBitsAtOnce(reg: Word, b: Word, n: nat)
    ensures Steps(Plus(reg, b), n) == Plus(TakeBits(reg, b, n), Halves(b, n))
    decreases n
  {
    hide Step, Plus, TakeBit, Half;
    if n > 0 {
      TakeBitIs(reg, b);
      TakeBitsAtOnce(TakeBit(reg, b), Half(b), n - 1);
    }
  }

  lemma EightHalves(b: Word)
    ensures Half(Half(Half(Half(Half(Half(Half(Half(b)))))))) == Shifted(b)
  {
  }

  lemma HalvesAre(b: Word)
    ensures Halves(b, 8) == Shifted(b)
  {
    hide Half, Shifted;
    var b4 := Half(Half(Half(Half(b))));
    assert Halves(b, 8) == Halves(Half(b), 7) == Halves(Half(Half(b)), 6) == Halves(Half(Half(Half(b))), 5) == Halves(b4, 4);
    assert Halves(b4, 4) == Halves(Half(b4), 3) == Halves(Half(Half(b4)), 2) == Halves(Half(Half(Half(b4))), 1);
    assert Halves(Half(Half(Half(b4))), 1) == Half(Half(Half(Half(b4))));
    EightHalves(b);
  }

  predicate LowZeros(b: Word, n: nat)
    decreases n
  {
    n == 0 || (!Odd(b) && LowZeros(Half(b), n - 1))
  }

  lemma {:induction false} TakeZeros(b: Word, n: nat)
    requires LowZeros(b, n)
    ensures TakeBits(0, b, n) == 0
    decreases n
  {
    if n > 0 {
      TakeZeros(Half(b), n - 1);
    }
  }

  lemma EightZeros(x: Word)
    ensures var h := High(x); !Odd(h) && !Odd(Half(h)) && !Odd(Half(Half(h))) && !Odd(Half(Half(Half(h))))
    ensures var h := Half(Half(Half(Half(High(x))))); !Odd(h) && !Odd(Half(h)) && !Odd(Half(Half(h))) && !Odd(Half(Half(Half(h))))
  {
  }

  lemma HighZeros(x: Word)
    ensures LowZeros(High(x), 8)
  {
    hide Half, Odd;
    EightZeros(x);
    var h := Half(Half(Half(Half(High(x)))));
    assert LowZeros(h, 4) by {
      assert LowZeros(Half(Half(h)), 2);
    }
    assert LowZeros(Half(Half(High(x))), 6);
  }

  lemma ShiftedHigh(x: Word)
    ensures Shifted(High(x)) == Shifted(x) && Plus(Low(x), High(x)) == x
  {
  }

  lemma HighSteps(x: Word)
    ensures Steps(High(x), 8) == Shifted(x)
  {
    hide Plus, High, Shifted, Steps, TakeBits, Halves;
    HighZeros(x);
    TakeZeros(High(x), 8);
    TakeBitsAtOnce(0, High(x), 8);
    HalvesAre(High(x));
    ShiftedHigh(x);
    Cancel(High(x));
    Cancel(Shifted(x));
  }

  lemma ShiftedByte(c: Word, b: Byte)
    ensures Shifted(Wide(b)) == 0 && Shifted(Plus(c, Wide(b))) == Shifted(c)
  {
  }

  lemma ByteAtOnce(c: Word, b: Byte)
    ensures TakeBits(c, Wide(b), 8) == Steps(Plus(c, Wide(b)), 8)
  {
    hide Plus, Shifted, Wide, Steps, TakeBits, Halves;
    TakeBitsAtOnce(c, Wide(b), 8);
    HalvesAre(Wide(b));
    ShiftedByte(c, b);
    Cancel(TakeBits(c, Wide(b), 8));
  }

  /** One look into the table does the work of eight bits. */
  lemma TableStep(c: Word, b: Byte)
    ensures TakeBits(c, Wide(b), 8) == Plus(Steps(Low(Plus(c, Wide(b))), 8), Shifted(c))
  {
    hide Plus, Shifted, Wide, Low, High, Steps, TakeBits;
    var x := Plus(c, Wide(b));
    ByteAtOnce(c, b);
    ShiftedHigh(x);
    StepsLinear(Low(x), High(x), 8);
    HighSteps(x);
    ShiftedByte(c, b);
  }

  // ---- what makes the register zero ----

  lemma StepZero(x: Word)
    requires Step(x) == 0
    ensures x == 0
  {
  }

  lemma {:induction false} StepsZero(x: Word, n: nat)
    ensures Steps(x, n) == 0 <==> x == 0
    decreases n
  {
    hide Step;
    if n > 0 {
      StepsZero(Step(x), n - 1);
      if Step(x) == 0 {
        StepZero(x);
      }
      assert Step(0) == 0 by { ZeroStep(); }
    }
  }

  lemma ZeroStep()
    ensures Step(0) == 0
  {
  }

  function Up(x: Word): Word { x << 8 }

  lemma UpShifted(x: Word)
    requires x < 0x100_0000
    ensures High(Up(x)) == Up(x) && Shifted(Up(x)) == x
  {
  }

  lemma PlusZero(a: Word, b: Word)
    ensures Plus(a, b) == 0 <==> a == b
  {
    hide Plus;
    Assoc(a, b, b);
    Cancel(b);
    Cancel(a);
  }

  /** The only register from which a byte leads to next. */
  lemma Before(c: Word, b: Byte, next: Word)
    requires next < 0x100_0000
    ensures TakeBits(c, Wide(b), 8) == next <==> c == Plus(Wide(b), Up(next))
  {
    hide Plus, Shifted, Wide, Low, High, Steps, TakeBits, Up;
    var x := Plus(c, Wide(b));
    ByteAtOnce(c, b);
    UpShifted(next);
    HighSteps(Up(next));
    StepsLinear(x, Up(next), 8);
    PlusZero(Steps(x, 8), next);
    StepsZero(Plus(x, Up(next)), 8);
    PlusZero(x, Up(next));
    Assoc(c, Wide(b), Up(next));
    PlusZero(c, Plus(Wide(b), Up(next)));
  }

  function Byte0(w: Word): Byte { (w & 0xFF) as Byte }
  function Byte1(w: Word): Byte { ((w >> 8) & 0xFF) as Byte }
  function Byte2(w: Word): Byte { ((w >> 16) & 0xFF) as Byte }
  function Byte3(w: Word): Byte { ((w >> 24) & 0xFF) as Byte }

  /** The bytes of a word, the lowest first. */
  function Bytes(w: Word): seq<Byte> {
    [Byte0(w), Byte1(w), Byte2(w), Byte3(w)]
  }

  function Packed2(a: Byte, b: Byte): Word { Plus(Wide(a), Up(Wide(b))) }
  function Packed3(a: Byte, b: Byte, c: Byte): Word { Plus(Wide(a), Up(Packed2(b, c))) }
  function Packed4(a: Byte, b: Byte, c: Byte, d: Byte): Word { Plus(Wide(a), Up(Packed3(b, c, d))) }

  lemma PackedBounds(a: Byte, b: Byte, c: Byte)
    ensures Wide(a) < 0x100_0000 && Packed2(a, b) < 0x100_0000 && Packed3(a, b, c) < 0x100_0000 && Plus(Wide(a), Up(0)) == Wide(a)
  {
  }

  lemma LowPart(w: Word, a: Byte)
    ensures Wide(a) == Low(w) <==> a == Byte0(w)
  {
  }

  lemma Parts(w: Word)
    ensures w == Plus(Low(w), Up(Shifted(w)))
  {
  }

  lemma JoinedParts(x: Word, rest: Word)
    requires x < 0x100 && rest < 0x100_0000
    ensures Low(Plus(x, Up(rest))) == x && Shifted(Plus(x, Up(rest))) == rest
  {
  }

  lemma WideBound(a: Byte)
    ensures Wide(a) < 0x100
  {
  }

  lemma Unpack(w: Word, a: Byte, rest: Word)
    requires rest < 0x100_0000
    ensures w == Plus(Wide(a), Up(rest)) <==> a == Byte0(w) && rest == Shifted(w)
  {
    hide Plus, Wide, Up, Shifted, Low, Byte0;
    LowPart(w, a);
    Parts(w);
    WideBound(a);
    JoinedParts(Wide(a), rest);
  }

  lemma TopByte(w: Word, d: Byte)
    ensures Wide(d) == Shifted(Shifted(Shifted(w))) <==> d == Byte3(w)
  {
  }

  lemma LaterBytes(w: Word)
    ensures Byte1(w) == Byte0(Shifted(w)) && Byte2(w) == Byte0(Shifted(Shifted(w)))
  {
  }

  lemma PackedBytes(w: Word, a: Byte, b: Byte, c: Byte, d: Byte)
    ensures w == Packed4(a, b, c, d) <==> a == Byte0(w) && b == Byte1(w) && c == Byte2(w) && d == Byte3(w)
  {
    hide Plus, Wide, Up, Shifted, Byte0, Byte1, Byte2, Byte3;
    PackedBounds(b, c, d);
    PackedBounds(c, d, d);
    PackedBounds(d, d, d);
    Unpack(w, a, Packed3(b, c, d));
    Unpack(Shifted(w), b, Packed2(c, d));
    Unpack(Shifted(Shifted(w)), c, Wide(d));
    TopByte(w, d);
    LaterBytes(w);
  }

  lemma {:induction false} RegisterMore(reg: Word, m: seq<Byte>, b: Byte)
    ensures Register(reg, m + [b]) == TakeBits(Register(reg, m), Wide(b), 8)
    decreases |m|
  {
    hide TakeBits, Wide;
    if m == [] {
      assert [b][1..] == [];
    } else {
      assert (m + [b])[1..] == m[1..] + [b];
      RegisterMore(TakeBits(reg, Wide(m[0]), 8), m[1..], b);
    }
  }

  /** A message is accepted just when it ends with its own register. */
  lemma AcceptedExactly(m: seq<Byte>, tail: seq<Byte>)
    requires |tail| == 4
    ensures Crc(m + tail) == ONES <==> tail == Bytes(Register(ONES, m))
  {
    hide TakeBits, Wide, Plus, Up, Register, Byte0, Byte1, Byte2, Byte3, Packed2, Packed3, Packed4;
    var r0 := Register(ONES, m);
    var r1, m1 := TakeBits(r0, Wide(tail[0]), 8), m + [tail[0]];
    var r2, m2 := TakeBits(r1, Wide(tail[1]), 8), m1 + [tail[1]];
    var r3, m3 := TakeBits(r2, Wide(tail[2]), 8), m2 + [tail[2]];
    var r4 := TakeBits(r3, Wide(tail[3]), 8);
    assert m + tail == m3 + [tail[3]];
    RegisterMore(ONES, m, tail[0]);
    RegisterMore(ONES, m1, tail[1]);
    RegisterMore(ONES, m2, tail[2]);
    RegisterMore(ONES, m3, tail[3]);
    ZeroRegister(r4);
    FourBefore(r0, tail[0], tail[1], tail[2], tail[3]);
    PackedBytes(r0, tail[0], tail[1], tail[2], tail[3]);
    assert tail == [tail[0], tail[1], tail[2], tail[3]];
  }

  lemma ZeroRegister(r: Word)
    ensures Plus(r, ONES) == ONES <==> r == 0
  {
  }

  lemma FourBefore(r0: Word, a: Byte, b: Byte, c: Byte, d: Byte)
    ensures (TakeBits(TakeBits(TakeBits(TakeBits(r0, Wide(a), 8), Wide(b), 8), Wide(c), 8), Wide(d), 8) == 0)
            <==> (r0 == Packed4(a, b, c, d))
  {
    hide TakeBits, Wide, Plus, Up;
    var r1 := TakeBits(r0, Wide(a), 8);
    var r2 := TakeBits(r1, Wide(b), 8);
    var r3 := TakeBits(r2, Wide(c), 8);
    PackedBounds(d, d, d);
    PackedBounds(c, d, d);
    PackedBounds(b, c, d);
    Before(r3, d, 0);
    Before(r2, c, Wide(d));
    Before(r1, b, Packed2(c, d));
    Before(r0, a, Packed3(b, c, d));
  }

  // ---- the program ----

  function Index(i: nat): Word
    requires i < 256
  {
    i as Word
  }

  function Entry(w: Word): nat { Low(w) as nat }

  ghost predicate IsTable(t: seq<Word>) {
    |t| == 256 && forall i :: 0 <= i < 256 ==> t[i] == Steps(Index(i), 8)
  }

  lemma {:induction false} StepsLast(c: Word, n: nat)
    ensures Steps(c, n + 1) == Step(Steps(c, n))
    decreases n
  {
    hide Step;
    if n > 0 {
      StepsLast(Step(c), n - 1);
    }
  }

  lemma NoSteps(c: Word)
    ensures Steps(c, 0) == c
  {
  }

  /** init_crc32_table */
  method InitTable(table: array<Word>)
    requires table.Length == 256 && table[0] == 0
    modifies table
    ensures IsTable(table[..])
  {
    hide Step, Steps, Index;
    if table[0] == 0 {
      var i := 0;
      while i < 256
        invariant 0 <= i <= 256 && forall k :: 0 <= k < i ==> table[k] == Steps(Index(k), 8)
      {
        var c, j := Index(i), 0;
        NoSteps(c);
        while j < 8
          invariant 0 <= j <= 8 && c == Steps(Index(i), j)
          invariant forall k :: 0 <= k < i ==> table[k] == Steps(Index(k), 8)
        {
          StepsLast(Index(i), j);
          c := Step(c);
          j := j + 1;
        }
        table[i] := c;
        i := i + 1;
      }
    }
  }

  lemma EntryIs(w: Word)
    ensures Entry(w) < 256 && Index(Entry(w)) == Low(w)
  {
  }

  /** The loop of crc32, fillcrc32 and fillcrc32to. */
  method Run(table: array<Word>, buffer: array<Byte>, size: nat) returns (crc: Word)
    requires IsTable(table[..]) && size <= buffer.Length
    ensures crc == Register(ONES, buffer[..size])
  {
    hide Plus, Shifted, Wide, Low, Steps, TakeBits, Index, Entry, Register;
    crc := ONES;
    var i := 0;
    NothingTaken();
    while i < size
      invariant 0 <= i <= size && crc == Register(ONES, buffer[..i])
    {
      var x := Plus(crc, Wide(buffer[i]));
      EntryIs(x);
      TableStep(crc, buffer[i]);
      RegisterMore(ONES, buffer[..i], buffer[i]);
      assert buffer[..i] + [buffer[i]] == buffer[..i + 1];
      assert table[..][Entry(x)] == Steps(Low(x), 8);
      crc := Plus(table[Entry(x)], Shifted(crc));
      i := i + 1;
    }
  }

  lemma NothingTaken()
    ensures forall m: seq<Byte> :: m == [] ==> Register(ONES, m) == ONES
  {
  }

  /** crc32 */
  method Compute(table: array<Word>, buffer: array<Byte>, size: nat) returns (crc: Word)
    requires IsTable(table[..]) && size <= buffer.Length
    ensures crc == Crc(buffer[..size])
  {
    crc := Run(table, buffer, size);
    crc := Plus(crc, ONES);
  }

  /** fillcrc32: the last four of size bytes are made to fit the others. */
  method Fill(table: array<Word>, buffer: array<Byte>, size: nat)
    requires IsTable(table[..]) && 4 <= size <= buffer.Length
    modifies buffer
    ensures buffer[..size - 4] == old(buffer[..size - 4]) && buffer[size..] == old(buffer[size..])
    ensures Crc(buffer[..size]) == ONES
  {
    hide Register, Byte0, Byte1, Byte2, Byte3, Plus;
    var n := size - 4;
    var crc := Run(table, buffer, n);
    ghost var m := buffer[..n];
    buffer[n] := Byte0(crc);
    buffer[n + 1] := Byte1(crc);
    buffer[n + 2] := Byte2(crc);
    buffer[n + 3] := Byte3(crc);
    AcceptedExactly(m, Bytes(crc));
    assert buffer[..size] == m + Bytes(crc);
  }
}
