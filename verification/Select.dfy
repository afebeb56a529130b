/** The select backend: one bit per fd, in words of NFDBITS, for reading and for writing. */
module SelectBackend {

  import opened IoEvents

  const NFDBITS := 64
  type Word = bv64

  /** 1UL << bit, for the bit of an fd */
  function BitMask(bit: nat): Word
    requires bit < NFDBITS
  {
    (1 as Word) << (bit as bv6)
  }

  function Both(w: Word, m: Word): Word { w | m }
  function Less(w: Word, m: Word): Word { w & !m }
  function Common(w: Word, m: Word): Word { w & m }
  predicate Meets(w: Word, m: Word) { Common(w, m) != 0 }

  lemma SetUnseen(w: Word, a: Word, b: Word)
    requires Common(a, b) == 0
    ensures Common(Both(w, a), b) == Common(w, b)
  {
  }

  lemma ClearUnseen(w: Word, a: Word, b: Word)
    requires Common(a, b) == 0
    ensures Common(Less(w, a), b) == Common(w, b)
  {
  }

  /** Setting or clearing a bit is not seen through a mask without it. */
  lemma OtherBit(w: Word, a: Word, b: Word)
    requires !Meets(a, b)
    ensures Meets(Both(w, a), b) == Meets(w, b) == Meets(Less(w, a), b)
  {
    hide Common, Both, Less;
    SetUnseen(w, a, b);
    ClearUnseen(w, a, b);
  }

  lemma OwnBit(w: Word, a: Word)
    requires a != 0
    ensures Meets(Both(w, a), a) && !Meets(Less(w, a), a) && !Meets(0, a)
  {
  }

  lemma OneBit(a: nat)
    requires a < NFDBITS
    ensures BitMask(a) != 0
  {
  }

  lemma ShiftsApart(x: bv6, y: bv6)
    requires x != y
    ensures ((1 as Word) << x) & ((1 as Word) << y) == 0
  {
  }

  lemma Narrow(a: nat)
    requires a < NFDBITS
    ensures (a as bv6) as nat == a
  {
  }

  /** The bits of different fds are different. */
  lemma BitsApart(a: nat, b: nat)
    requires a < NFDBITS && b < NFDBITS && a != b
    ensures !Meets(BitMask(a), BitMask(b))
  {
    Narrow(a);
    Narrow(b);
    ShiftsApart(a as bv6, b as bv6);
  }

  predicate Has(w: Word, bit: nat)
    requires bit < NFDBITS
  {
    Meets(w, BitMask(bit))
  }

  /** Setting or clearing the bit of one fd leaves the others as they are. */
  lemma Update(w: Word, bit: nat, c: nat)
    requires bit < NFDBITS && c < NFDBITS
    ensures Has(Both(w, BitMask(bit)), c) <==> c == bit || Has(w, c)
    ensures Has(Less(w, BitMask(bit)), c) <==> c != bit && Has(w, c)
  {
    hide BitMask, Both, Less, Meets;
    if bit == c {
      OneBit(bit);
      OwnBit(w, BitMask(bit));
    } else {
      BitsApart(bit, c);
      OtherBit(w, BitMask(bit), BitMask(c));
    }
  }

  lemma NoBits(c: nat)
    requires c < NFDBITS
    ensures !Has(0, c)
  {
    hide BitMask, Meets;
    OneBit(c);
    OwnBit(0, BitMask(c));
  }

  /** Whether the bit of fd is set. */
  predicate Holds(v: seq<Word>, fd: nat) {
    fd / NFDBITS < |v| && Has(v[fd / NFDBITS], fd % NFDBITS)
  }

  function Asked(r: seq<Word>, w: seq<Word>, fd: nat): Mask {
    Mask(Holds(r, fd), Holds(w, fd))
  }

  /** What select found, for the fds below n, the greatest one first. */
  function Found(r: seq<Word>, w: seq<Word>, n: nat): seq<(nat, Mask)> {
    if n == 0 then []
    else (if Asked(r, w, n - 1).Any() then [(n - 1, Asked(r, w, n - 1))] else []) + Found(r, w, n - 1)
  }

  /** Every fd found is reported once, with its own events, and in descending order. */
  lemma {:induction false} FoundAll(r: seq<Word>, w: seq<Word>, n: nat)
    ensures forall f: nat :: f < n && Asked(r, w, f).Any() ==> (f, Asked(r, w, f)) in Found(r, w, n)
    ensures forall e :: e in Found(r, w, n) ==> e.0 < n && e.1.Any() && e.1 == Asked(r, w, e.0)
    ensures forall i, j :: 0 <= i < j < |Found(r, w, n)| ==> Found(r, w, n)[i].0 > Found(r, w, n)[j].0
  {
    hide Holds;
    if n > 0 {
      FoundAll(r, w, n - 1);
    }
  }

  /** A word without bits needs no scan. */
  lemma {:induction false} ZeroWord(r: seq<Word>, w: seq<Word>, word: nat, bits: nat)
    requires word < |r| == |w| && r[word] == 0 && w[word] == 0 && bits <= NFDBITS
    ensures Found(r, w, word * NFDBITS + bits) == Found(r, w, word * NFDBITS)
  {
    hide Has;
    if bits > 0 {
      NoBits(bits - 1);
      ZeroWord(r, w, word, bits - 1);
    }
  }

  lemma EmptyFound(r: seq<Word>, w: seq<Word>)
    ensures Found(r, w, 0) == []
  {
  }

  lemma FoundAt(r: seq<Word>, w: seq<Word>, word: nat, bit: nat)
    requires word < |r| == |w| && bit < NFDBITS
    ensures var fd, events := word * NFDBITS + bit, Mask(Has(r[word], bit), Has(w[word], bit));
            Found(r, w, fd + 1) == (if events.Any() then [(fd, events)] else []) + Found(r, w, fd)
  {
    hide Has;
    var fd := word * NFDBITS + bit;
    assert fd / NFDBITS == word && fd % NFDBITS == bit;
  }

  class Select {
    var ri: seq<Word>            // vec_ri and vec_wi, vec_max words each
    var wi: seq<Word>

    ghost predicate Valid()
      reads this
    {
      |ri| == |wi|
    }

    ghost function Interest(f: nat): Mask
      reads this
    {
      Asked(ri, wi, f)
    }

    constructor ()
      ensures Valid() && forall f: nat :: Interest(f) == NONE
    {
      ri, wi := [], [];
    }

    /** The vectors grow to new_max words, all bits of the new ones clear. */
    method Grow(max: nat)
      requires Valid()
      modifies this
      ensures Valid() && |ri| >= max && forall f: nat :: Interest(f) == old(Interest(f))
    {
      hide Has;
      forall c: nat | c < NFDBITS ensures !Has(0, c) { NoBits(c); }
      while |ri| < max
        invariant Valid() && forall f: nat :: Interest(f) == old(Interest(f))
      {
        ri, wi := ri + [0], wi + [0];
      }
    }

    /** select_modify */
    method Modify(fd: nat, oev: Mask, nev: Mask)
      requires Valid() && oev == Interest(fd)
      modifies this
      ensures Valid()
      ensures forall f: nat :: Interest(f) == if f == fd then nev else old(Interest(f))
    {
      hide Has, BitMask, Both, Less, Meets;
      if oev == nev {
        return;
      }
      var word, mask := fd / NFDBITS, BitMask(fd % NFDBITS);
      if |ri| <= word {
        Grow(word + 1);
      }
      ri := SetBit(ri, fd, nev.read);
      wi := SetBit(wi, fd, nev.write);
    }

    /** The bits of one fd: set first, then cleared again if not wanted. */
    static method SetBit(v: seq<Word>, fd: nat, on: bool) returns (u: seq<Word>)
      requires fd / NFDBITS < |v|
      ensures |u| == |v| && forall f: nat :: Holds(u, f) == if f == fd then on else Holds(v, f)
    {
      hide Has, BitMask, Both, Less, Meets;
      var word, bit := fd / NFDBITS, fd % NFDBITS;
      var mask := BitMask(bit);
      forall c: nat | c < NFDBITS
        ensures Has(Both(v[word], mask), c) <==> c == bit || Has(v[word], c)
        ensures Has(Less(Both(v[word], mask), mask), c) <==> c != bit && Has(v[word], c)
      {
        Update(v[word], bit, c);
        Update(Both(v[word], mask), bit, c);
      }
      u := v[word := Both(v[word], mask)];
      if !on {
        u := u[word := Less(u[word], mask)];
      }
    }

    /** The scan of select_poll over one word that has bits set, from the highest bit down. */
    static method ScanWord(r: Word, w: Word, word: nat, ghost ro: seq<Word>, ghost wo: seq<Word>)
      returns (found: seq<(nat, Mask)>)
      requires word < |ro| == |wo| && ro[word] == r && wo[word] == w
      ensures found + Found(ro, wo, word * NFDBITS) == Found(ro, wo, word * NFDBITS + NFDBITS)
    {
      hide Has, Found;
      found := [];
      var bit: nat := NFDBITS;
      while bit > 0
        invariant bit <= NFDBITS
        invariant found + Found(ro, wo, word * NFDBITS + bit) == Found(ro, wo, word * NFDBITS + NFDBITS)
      {
        bit := bit - 1;
        var fd: nat := word * NFDBITS + bit;
        var events := Mask(Has(r, bit), Has(w, bit));
        ghost var f, m := found, Found(ro, wo, fd);
        FoundAt(ro, wo, word, bit);
        if events.Any() {
          found := found + [(fd, events)];
          assert f + ([(fd, events)] + m) == found + m;
        } else {
          assert [] + m == m;
        }
      }
    }

    /** The scan of select_poll over the words that select gave back. */
    static method Scan(ro: seq<Word>, wo: seq<Word>) returns (found: seq<(nat, Mask)>)
      requires |ro| == |wo|
      ensures found == Found(ro, wo, |ro| * NFDBITS)
    {
      hide Has, Found;
      found := [];
      EmptyFound(ro, wo);
      var word: nat := |ro|;
      while word > 0
        invariant word <= |ro|
        invariant found + Found(ro, wo, word * NFDBITS) == Found(ro, wo, |ro| * NFDBITS)
      {
        word := word - 1;
        if ro[word] != 0 || wo[word] != 0 {
          var part := ScanWord(ro[word], wo[word], word, ro, wo);
          ghost var f, m := found, Found(ro, wo, word * NFDBITS);
          found := found + part;
          assert f + (part + m) == found + m;
        } else {
          ZeroWord(ro, wo, word, NFDBITS);
        }
      }
    }
  }
}
