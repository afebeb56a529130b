/** The substitution table, made by sorting the bytes again and again under the key. */
module TableCipher {

  import opened Basics
  import opened Buffers

  const WORD64 := 0x1_0000_0000_0000_0000
  type Key = x: int | 0 <= x < WORD64

  /** What a byte is sorted by in the round with that salt. */
  function Rank(x: Byte, salt: nat, key: Key): nat
    requires salt > 0
  {
    key % (x + salt)
  }

  /** random_compare */
  function Compare(x: Byte, y: Byte, salt: nat, key: Key): int
    requires salt > 0
  {
    Rank(x, salt, key) - Rank(y, salt, key)
  }

  function Merged(l: seq<Byte>, r: seq<Byte>, salt: nat, key: Key): (m: seq<Byte>)
    requires salt > 0
    ensures |m| == |l| + |r|
    decreases |l| + |r|
  {
    if l == [] then r
    else if r == [] then l
    else if Compare(l[0], r[0], salt, key) <= 0 then [l[0]] + Merged(l[1..], r, salt, key)
    else [r[0]] + Merged(l, r[1..], salt, key)
  }

  function MergeSorted(s: seq<Byte>, salt: nat, key: Key): (m: seq<Byte>)
    requires salt > 0
    ensures |m| == |s|
    decreases |s|
  {
    if |s| <= 1 then s
    else
      var n := |s| - |s| / 2;
      Merged(MergeSorted(s[..n], salt, key), MergeSorted(s[n..], salt, key), salt, key)
  }

  // ---- stable sorting ----

  predicate Sorted(s: seq<Byte>, salt: nat, key: Key)
    requires salt > 0
  {
    forall i, j :: 0 <= i < j < |s| ==> Rank(s[i], salt, key) <= Rank(s[j], salt, key)
  }

  /** The elements of one rank, in their order. */
  function Ranked(s: seq<Byte>, rank: nat, salt: nat, key: Key): seq<Byte>
    requires salt > 0
  {
    if s == [] then []
    else (if Rank(s[0], salt, key) == rank then [s[0]] else []) + Ranked(s[1..], rank, salt, key)
  }

  /** t is sorted and keeps the order of elements of equal rank. */
  ghost predicate StablySorted(s: seq<Byte>, t: seq<Byte>, salt: nat, key: Key)
    requires salt > 0
  {
    Sorted(t, salt, key) && forall rank: nat :: Ranked(t, rank, salt, key) == Ranked(s, rank, salt, key)
  }

  lemma RankedMore(x: Byte, s: seq<Byte>, rank: nat, salt: nat, key: Key)
    requires salt > 0
    ensures Ranked([x] + s, rank, salt, key) == (if Rank(x, salt, key) == rank then [x] else []) + Ranked(s, rank, salt, key)
  {
    assert ([x] + s)[1..] == s;
  }

  lemma {:induction false} RankedConcat(a: seq<Byte>, b: seq<Byte>, rank: nat, salt: nat, key: Key)
    requires salt > 0
    ensures Ranked(a + b, rank, salt, key) == Ranked(a, rank, salt, key) + Ranked(b, rank, salt, key)
  {
    hide Rank;
    if a == [] {
      assert a + b == b;
    } else {
      RankedConcat(a[1..], b, rank, salt, key);
      assert (a + b)[1..] == a[1..] + b;
      Assoc(if Rank(a[0], salt, key) == rank then [a[0]] else [], Ranked(a[1..], rank, salt, key), Ranked(b, rank, salt, key));
    }
  }

  lemma {:induction false} RankedNone(s: seq<Byte>, rank: nat, salt: nat, key: Key)
    requires salt > 0 && forall x <- s :: Rank(x, salt, key) != rank
    ensures Ranked(s, rank, salt, key) == []
  {
    hide Rank;
    if s != [] {
      RankedNone(s[1..], rank, salt, key);
    }
  }

  lemma {:induction false} MergedRanked(l: seq<Byte>, r: seq<Byte>, rank: nat, salt: nat, key: Key)
    requires salt > 0 && Sorted(l, salt, key) && Sorted(r, salt, key)
    ensures Ranked(Merged(l, r, salt, key), rank, salt, key) == Ranked(l, rank, salt, key) + Ranked(r, rank, salt, key)
    decreases |l| + |r|
  {
    hide Rank, Ranked;
    if l == [] || r == [] {
      RankedNone([], rank, salt, key);
    } else if Compare(l[0], r[0], salt, key) <= 0 {
      var one := if Rank(l[0], salt, key) == rank then [l[0]] else [];
      RankedMore(l[0], Merged(l[1..], r, salt, key), rank, salt, key);
      MergedRanked(l[1..], r, rank, salt, key);
      Assoc(one, Ranked(l[1..], rank, salt, key), Ranked(r, rank, salt, key));
      RankedMore(l[0], l[1..], rank, salt, key);
      assert l == [l[0]] + l[1..];
    } else {
      var one := if Rank(r[0], salt, key) == rank then [r[0]] else [];
      RankedMore(r[0], Merged(l, r[1..], salt, key), rank, salt, key);
      MergedRanked(l, r[1..], rank, salt, key);
      RankedMore(r[0], r[1..], rank, salt, key);
      assert r == [r[0]] + r[1..];
      if Rank(r[0], salt, key) == rank {
        RankedNone(l, rank, salt, key);
      }
      Assoc(one, Ranked(l, rank, salt, key), Ranked(r[1..], rank, salt, key));
      Assoc(Ranked(l, rank, salt, key), one, Ranked(r[1..], rank, salt, key));
    }
  }

  lemma {:induction false} MergedMembers(l: seq<Byte>, r: seq<Byte>, salt: nat, key: Key)
    requires salt > 0
    ensures multiset(Merged(l, r, salt, key)) == multiset(l) + multiset(r)
    decreases |l| + |r|
  {
    hide Rank;
    if l != [] && r != [] {
      assert l == [l[0]] + l[1..] && r == [r[0]] + r[1..];
      if Compare(l[0], r[0], salt, key) <= 0 {
        MergedMembers(l[1..], r, salt, key);
      } else {
        MergedMembers(l, r[1..], salt, key);
      }
    }
  }

  predicate AtMost(x: Byte, s: seq<Byte>, salt: nat, key: Key)
    requires salt > 0
  {
    forall y <- s :: Rank(x, salt, key) <= Rank(y, salt, key)
  }

  lemma AtMostMerged(x: Byte, l: seq<Byte>, r: seq<Byte>, salt: nat, key: Key)
    requires salt > 0 && AtMost(x, l, salt, key) && AtMost(x, r, salt, key)
    ensures AtMost(x, Merged(l, r, salt, key), salt, key)
  {
    hide Rank, Merged;
    MergedMembers(l, r, salt, key);
    forall y | y in Merged(l, r, salt, key) ensures y in l || y in r {
      assert y in multiset(Merged(l, r, salt, key));
    }
  }

  lemma SortedFrom(x: Byte, s: seq<Byte>, salt: nat, key: Key)
    requires salt > 0 && Sorted(s, salt, key) && AtMost(x, s, salt, key)
    ensures Sorted([x] + s, salt, key)
  {
    hide Rank;
  }

  lemma FirstAtMost(s: seq<Byte>, x: Byte, salt: nat, key: Key)
    requires salt > 0 && Sorted(s, salt, key) && s != [] && Rank(x, salt, key) <= Rank(s[0], salt, key)
    ensures AtMost(x, s, salt, key) && AtMost(s[0], s[1..], salt, key) && Sorted(s[1..], salt, key)
  {
    hide Rank;
  }

  lemma {:induction false} MergedSorted(l: seq<Byte>, r: seq<Byte>, salt: nat, key: Key)
    requires salt > 0 && Sorted(l, salt, key) && Sorted(r, salt, key)
    ensures Sorted(Merged(l, r, salt, key), salt, key)
    decreases |l| + |r|
  {
    hide Rank, Sorted, AtMost;
    if l == [] || r == [] {
    } else if Compare(l[0], r[0], salt, key) <= 0 {
      FirstAtMost(l, l[0], salt, key);
      FirstAtMost(r, l[0], salt, key);
      MergedSorted(l[1..], r, salt, key);
      AtMostMerged(l[0], l[1..], r, salt, key);
      SortedFrom(l[0], Merged(l[1..], r, salt, key), salt, key);
    } else {
      FirstAtMost(l, r[0], salt, key);
      FirstAtMost(r, r[0], salt, key);
      MergedSorted(l, r[1..], salt, key);
      AtMostMerged(r[0], l, r[1..], salt, key);
      SortedFrom(r[0], Merged(l, r[1..], salt, key), salt, key);
    }
  }

  /** merge_sort is a stable sort. */
  lemma {:induction false} SortStable(s: seq<Byte>, salt: nat, key: Key)
    requires salt > 0
    ensures StablySorted(s, MergeSorted(s, salt, key), salt, key)
    ensures multiset(MergeSorted(s, salt, key)) == multiset(s)
    decreases |s|
  {
    hide Rank, Ranked, Merged, Sorted;
    if |s| <= 1 {
      OneSorted(s, salt, key);
    } else {
      var n := |s| - |s| / 2;
      var a, b := MergeSorted(s[..n], salt, key), MergeSorted(s[n..], salt, key);
      SortStable(s[..n], salt, key);
      SortStable(s[n..], salt, key);
      assert s == s[..n] + s[n..];
      MergedSorted(a, b, salt, key);
      MergedMembers(a, b, salt, key);
      forall rank: nat ensures Ranked(Merged(a, b, salt, key), rank, salt, key) == Ranked(s, rank, salt, key) {
        MergedRanked(a, b, rank, salt, key);
        RankedConcat(s[..n], s[n..], rank, salt, key);
      }
    }
  }

  lemma OneSorted(s: seq<Byte>, salt: nat, key: Key)
    requires salt > 0 && |s| <= 1
    ensures Sorted(s, salt, key)
  {
  }

  lemma SomeRanked(t: seq<Byte>, u: seq<Byte>, salt: nat, key: Key)
    requires salt > 0 && t != [] && Ranked(t, Rank(t[0], salt, key), salt, key) == Ranked(u, Rank(t[0], salt, key), salt, key)
    ensures u != [] && exists x <- u :: Rank(x, salt, key) == Rank(t[0], salt, key)
  {
    hide Rank;
    var p := Rank(t[0], salt, key);
    if forall x <- u :: Rank(x, salt, key) != p {
      RankedNone(u, p, salt, key);
      assert false;
    }
  }

  /** There is only one way to sort stably. */
  lemma {:induction false} StableUnique(t: seq<Byte>, u: seq<Byte>, salt: nat, key: Key)
    requires salt > 0 && Sorted(u, salt, key) && StablySorted(u, t, salt, key)
    ensures t == u
    decreases |t|
  {
    hide Rank;
    if t != [] {
      SomeRanked(t, u, salt, key);
    }
    if u != [] {
      SomeRanked(u, t, salt, key);
      var p := Rank(t[0], salt, key);
      assert p == Rank(u[0], salt, key);
      assert t[0] == Ranked(t, p, salt, key)[0] == u[0];
      forall rank: nat ensures Ranked(t[1..], rank, salt, key) == Ranked(u[1..], rank, salt, key) {
        assert Ranked(t, rank, salt, key) == Ranked(u, rank, salt, key);
        assert Ranked(t[1..], rank, salt, key) == if rank == p then Ranked(t, rank, salt, key)[1..] else Ranked(t, rank, salt, key);
      }
      StableUnique(t[1..], u[1..], salt, key);
    }
  }

  // ---- the sort, in place ----

  lemma CopiedOne(s: seq<Byte>, lo: nat, done: seq<Byte>, x: Byte)
    requires lo + |done| < |s|
    ensures Copied(s, lo, done)[lo + |done| := x] == Copied(s, lo, done + [x])
  {
  }

  lemma MergedNext(l: seq<Byte>, r: seq<Byte>, i: nat, j: nat, done: seq<Byte>, salt: nat, key: Key)
    requires salt > 0 && i < |l| && j < |r|
    ensures done + Merged(l[i..], r[j..], salt, key) ==
      if Compare(l[i], r[j], salt, key) <= 0 then done + [l[i]] + Merged(l[i + 1..], r[j..], salt, key)
      else done + [r[j]] + Merged(l[i..], r[j + 1..], salt, key)
  {
    hide Rank;
    assert l[i..][1..] == l[i + 1..] && r[j..][1..] == r[j + 1..];
  }

  lemma MergedEnds(l: seq<Byte>, r: seq<Byte>, i: nat, j: nat, salt: nat, key: Key)
    requires salt > 0 && i <= |l| && j <= |r|
    ensures i == |l| ==> Merged(l[i..], r[j..], salt, key) == r[j..]
    ensures j == |r| ==> Merged(l[i..], r[j..], salt, key) == l[i..]
    ensures l[0..] == l && r[0..] == r
  {
    hide Rank;
  }

  /** merge, of two neighbouring parts */
  method Merge(a: array<Byte>, lo: nat, ll: nat, rl: nat, salt: nat, key: Key)
    requires salt > 0 && lo + ll + rl <= a.Length
    modifies a
    ensures var s := old(a[..]);
            a[..] == Copied(s, lo, Merged(s[lo..lo + ll], s[lo + ll..lo + ll + rl], salt, key))
  {
    hide Rank, Merged, Copied;
    ghost var s := a[..];
    var ltmp, rtmp := a[lo..lo + ll], a[lo + ll..lo + ll + rl];
    var i: nat, j: nat, p: nat := 0, 0, lo;
    ghost var done: seq<Byte> := [];
    ghost var all := Merged(ltmp, rtmp, salt, key);
    MergedEnds(ltmp, rtmp, 0, 0, salt, key);
    NothingCopied(s, lo);
    while i < ll && j < rl
      invariant i <= ll && j <= rl && p == lo + i + j && |done| == i + j
      invariant a[..] == Copied(s, lo, done) && done + Merged(ltmp[i..], rtmp[j..], salt, key) == all
    {
      MergedNext(ltmp, rtmp, i, j, done, salt, key);
      if Compare(ltmp[i], rtmp[j], salt, key) <= 0 {
        CopiedOne(s, lo, done, ltmp[i]);
        a[p] := ltmp[i];
        done := done + [ltmp[i]];
        i := i + 1;
      } else {
        CopiedOne(s, lo, done, rtmp[j]);
        a[p] := rtmp[j];
        done := done + [rtmp[j]];
        j := j + 1;
      }
      p := p + 1;
    }
    MergedEnds(ltmp, rtmp, i, j, salt, key);
    if i < ll {
      CopyRest(a, p, ltmp, i, s, lo, done);
    } else {
      CopyRest(a, p, rtmp, j, s, lo, done);
    }
  }

  lemma NothingCopied(s: seq<Byte>, lo: nat)
    requires lo <= |s|
    ensures Copied(s, lo, []) == s
  {
  }

  /** The rest of one part, from i on, when the other one is used up. */
  method CopyRest(a: array<Byte>, at: nat, tmp: seq<Byte>, from: nat, ghost s: seq<Byte>, ghost lo: nat, ghost before: seq<Byte>)
    requires from <= |tmp| && at == lo + |before| && at + (|tmp| - from) <= a.Length == |s|
    requires a[..] == Copied(s, lo, before)
    modifies a
    ensures a[..] == Copied(s, lo, before + tmp[from..])
  {
    hide Copied;
    var i, p := from, at;
    ghost var done := before;
    while i < |tmp|
      invariant from <= i <= |tmp| && p == at + (i - from) == lo + |done|
      invariant done == before + tmp[from..i] && a[..] == Copied(s, lo, done)
    {
      CopiedOne(s, lo, done, tmp[i]);
      a[p] := tmp[i];
      done := done + [tmp[i]];
      i, p := i + 1, p + 1;
    }
    assert tmp[from..i] == tmp[from..];
  }

  lemma CopiedParts(s: seq<Byte>, lo: nat, a: seq<Byte>, b: seq<Byte>, m: seq<Byte>)
    requires lo + |a| + |b| <= |s| && |m| == |a| + |b|
    ensures var s1 := Copied(s, lo, a);
            var s2 := Copied(s1, lo + |a|, b);
            && s1[lo + |a|..lo + |m|] == s[lo + |a|..lo + |m|]
            && s2[lo..lo + |a|] == a && s2[lo + |a|..lo + |m|] == b
            && Copied(s2, lo, m) == Copied(s, lo, m)
  {
    var s1 := Copied(s, lo, a);
    var s2 := Copied(s1, lo + |a|, b);
    assert s1[lo + |a|..lo + |m|] == s1[lo + |a|..][..|b|];
    assert s2[lo..lo + |a|] == s2[..lo + |a|][lo..];
    assert s2[lo + |m|..] == s1[lo + |a|..][|b|..];
  }

  lemma SortedParts(s: seq<Byte>, lo: nat, n: nat, salt: nat, key: Key)
    requires salt > 0 && lo + n <= |s| && n > 1
    ensures var ll := n - n / 2;
            var s1 := Copied(s, lo, MergeSorted(s[lo..lo + ll], salt, key));
            var s2 := Copied(s1, lo + ll, MergeSorted(s1[lo + ll..lo + n], salt, key));
            Copied(s2, lo, Merged(s2[lo..lo + ll], s2[lo + ll..lo + n], salt, key))
              == Copied(s, lo, MergeSorted(s[lo..lo + n], salt, key))
  {
    hide Merged, Copied, MergeSorted;
    var ll := n - n / 2;
    var t := s[lo..lo + n];
    assert t[..ll] == s[lo..lo + ll] && t[ll..] == s[lo + ll..lo + n];
    HalvesMerged(t, salt, key);
    CopiedParts(s, lo, MergeSorted(t[..ll], salt, key), MergeSorted(t[ll..], salt, key), MergeSorted(t, salt, key));
  }

  lemma HalvesMerged(t: seq<Byte>, salt: nat, key: Key)
    requires salt > 0 && |t| > 1
    ensures var ll := |t| - |t| / 2;
            MergeSorted(t, salt, key) == Merged(MergeSorted(t[..ll], salt, key), MergeSorted(t[ll..], salt, key), salt, key)
  {
    hide Merged;
  }

  lemma ShortSorted(s: seq<Byte>, lo: nat, n: nat, salt: nat, key: Key)
    requires salt > 0 && lo + n <= |s| && n <= 1
    ensures Copied(s, lo, MergeSorted(s[lo..lo + n], salt, key)) == s
  {
  }

  /** merge_sort; the half of the length is kept in a byte */
  method MergeSort(a: array<Byte>, lo: nat, n: nat, salt: nat, key: Key)
    requires salt > 0 && lo + n <= a.Length && n <= 511
    modifies a
    ensures a[..] == Copied(old(a[..]), lo, MergeSorted(old(a[..])[lo..lo + n], salt, key))
    decreases n
  {
    hide Merged, Rank, Copied, MergeSorted;
    if n <= 1 {
      ShortSorted(a[..], lo, n, salt, key);
      return;
    }
    ghost var s := a[..];
    SortedParts(s, lo, n, salt, key);
    var middle: Byte := n / 2;
    var ll := n - middle;
    MergeSort(a, lo, ll, salt, key);
    MergeSort(a, lo + ll, middle, salt, key);
    Merge(a, lo, ll, middle, salt, key);
  }

  // ---- the two tables ----

  function Identity(n: nat): (s: seq<Byte>)
    requires n <= 256
    ensures |s| == n
  {
    if n == 0 then [] else Identity(n - 1) + [n - 1]
  }

  /** The first rounds of the sort. */
  function Rounds(s: seq<Byte>, n: nat, key: Key): (t: seq<Byte>)
    ensures |t| == |s|
  {
    if n == 0 then s else MergeSorted(Rounds(s, n - 1, key), n, key)
  }

  const ROUNDS := 1023

  /** enc_table for a key */
  function EncTable(key: Key): (t: seq<Byte>)
    ensures |t| == 256
  {
    Rounds(Identity(256), ROUNDS, key)
  }

  lemma {:induction false} IdentityIs(n: nat)
    requires n <= 256
    ensures forall i :: 0 <= i < n ==> Identity(n)[i] == i
  {
    if n > 0 {
      IdentityIs(n - 1);
    }
  }

  lemma {:induction false} RoundsMembers(s: seq<Byte>, n: nat, key: Key)
    ensures multiset(Rounds(s, n, key)) == multiset(s)
  {
    hide MergeSorted;
    if n > 0 {
      RoundsMembers(s, n - 1, key);
      SortStable(Rounds(s, n - 1, key), n, key);
    }
  }

  lemma {:induction false} OnceEach(s: seq<Byte>, x: Byte)
    requires Distinct(s)
    ensures multiset(s)[x] <= 1
  {
    if s != [] {
      assert s == [s[0]] + s[1..];
      OnceEach(s[1..], x);
    }
  }

  lemma CountedTwice(s: seq<Byte>, i: nat, j: nat)
    requires i < j < |s| && s[i] == s[j]
    ensures multiset(s)[s[i]] >= 2
  {
    assert s == s[..j] + [s[j]] + s[j + 1..];
    assert s[i] in s[..j];
  }

  lemma DistinctKept(s: seq<Byte>, t: seq<Byte>)
    requires Distinct(s) && multiset(s) == multiset(t)
    ensures Distinct(t)
  {
    forall i, j | 0 <= i < j < |t| ensures t[i] != t[j] {
      OnceEach(s, t[i]);
      if t[i] == t[j] {
        CountedTwice(t, i, j);
      }
    }
  }

  /** The table is a permutation of the bytes. */
  lemma EncTablePermutes(key: Key)
    ensures Distinct(EncTable(key)) && forall y: Byte :: y in EncTable(key)
  {
    hide Rounds, Identity;
    IdentityIs(256);
    RoundsMembers(Identity(256), ROUNDS, key);
    DistinctKept(Identity(256), EncTable(key));
    forall y: Byte ensures y in EncTable(key) {
      assert Identity(256)[y] == y;
      assert y in multiset(Identity(256));
    }
  }

  predicate Before(s: seq<Byte>, x: Byte, y: Byte) {
    exists i, j :: 0 <= i < j < |s| && s[i] == x && s[j] == y
  }

  lemma BeforeMore(a: Byte, s: seq<Byte>, x: Byte, y: Byte)
    ensures Before([a] + s, x, y) <==> (a == x && y in s) || Before(s, x, y)
  {
    var t := [a] + s;
    if Before(s, x, y) {
      var i, j :| 0 <= i < j < |s| && s[i] == x && s[j] == y;
      assert t[i + 1] == x && t[j + 1] == y;
    }
    if a == x && y in s {
      var j :| 0 <= j < |s| && s[j] == y;
      assert t[0] == x && t[j + 1] == y;
    }
    if Before(t, x, y) {
      var i, j :| 0 <= i < j < |t| && t[i] == x && t[j] == y;
      assert t[j] == s[j - 1] && (i > 0 ==> t[i] == s[i - 1]);
    }
  }

  lemma {:induction false} RankedBefore(s: seq<Byte>, x: Byte, y: Byte, salt: nat, key: Key)
    requires salt > 0 && Rank(x, salt, key) == Rank(y, salt, key)
    ensures var r := Ranked(s, Rank(x, salt, key), salt, key); (Before(s, x, y) <==> Before(r, x, y)) && (y in s <==> y in r)
  {
    hide Rank, Before;
    if s == [] {
      NoneBefore(x, y);
    } else {
      RankedBefore(s[1..], x, y, salt, key);
      assert s == [s[0]] + s[1..];
      BeforeMore(s[0], s[1..], x, y);
      BeforeMore(s[0], Ranked(s[1..], Rank(x, salt, key), salt, key), x, y);
      assert [] + Ranked(s[1..], Rank(x, salt, key), salt, key) == Ranked(s[1..], Rank(x, salt, key), salt, key);
    }
  }

  lemma NoneBefore(x: Byte, y: Byte)
    ensures !Before([], x, y)
  {
  }

  /** One round: the same bytes, in the order of the key modulo byte plus number of the round, and where that is the same, in
      the order they were in. */
  ghost predicate NextTable(s: seq<Byte>, t: seq<Byte>, n: nat, key: Key) {
    && n > 0 && |s| == |t| == 256 && multiset(s) == multiset(t)
    && (forall i, j :: 0 <= i < j < 256 ==> key % (t[i] + n) <= key % (t[j] + n))
    && (forall x: Byte, y: Byte :: key % (x + n) == key % (y + n) ==> (Before(t, x, y) <==> Before(s, x, y)))
  }

  lemma RoundIs(s: seq<Byte>, n: nat, key: Key)
    requires n > 0 && |s| == 256
    ensures NextTable(s, MergeSorted(s, n, key), n, key)
  {
    hide MergeSorted, Ranked, Before;
    var t := MergeSorted(s, n, key);
    SortStable(s, n, key);
    forall x: Byte, y: Byte | key % (x + n) == key % (y + n) ensures Before(t, x, y) <==> Before(s, x, y) {
      RankedBefore(s, x, y, n, key);
      RankedBefore(t, x, y, n, key);
    }
    forall i, j | 0 <= i < j < 256 ensures key % (t[i] + n) <= key % (t[j] + n) {
      assert Rank(t[i], n, key) <= Rank(t[j], n, key);
    }
  }

  function Tables(n: nat, key: Key): (ts: seq<seq<Byte>>)
    ensures |ts| == n + 1 && forall i :: 0 <= i <= n ==> ts[i] == Rounds(Identity(256), i, key)
  {
    if n == 0 then [Rounds(Identity(256), 0, key)] else Tables(n - 1, key) + [Rounds(Identity(256), n, key)]
  }

  /** The table comes out of 1023 such rounds, from the bytes in their order. */
  lemma TableIs(key: Key) returns (ts: seq<seq<Byte>>)
    ensures |ts| == 1024 && |ts[0]| == 256 && (forall x: Byte :: ts[0][x] == x) && ts[1023] == EncTable(key)
    ensures forall n :: 0 < n < 1024 ==> NextTable(ts[n - 1], ts[n], n, key)
  {
    hide MergeSorted, NextTable, Identity;
    ts := Tables(1023, key);
    IdentityIs(256);
    NoRounds(Identity(256), key);
    forall n | 0 < n < 1024 ensures NextTable(ts[n - 1], ts[n], n, key) {
      RoundIs(ts[n - 1], n, key);
      assert ts[n] == MergeSorted(ts[n - 1], n, key);
    }
  }

  /** dec undoes enc. */
  predicate Inverse(enc: seq<Byte>, dec: seq<Byte>)
    requires |enc| == |dec| == 256
  {
    (forall x: Byte :: dec[enc[x]] == x) && (forall y: Byte :: enc[dec[y]] == y)
  }

  /** enc_table_init, from the key on */
  method TableInit(key: Key) returns (enc: array<Byte>, dec: array<Byte>)
    ensures enc.Length == dec.Length == 256 && fresh(enc) && fresh(dec) && enc != dec
    ensures enc[..] == EncTable(key) && Inverse(enc[..], dec[..])
  {
    hide MergeSorted, Rounds, Identity, Inverse;
    enc, dec := new Byte[256], new Byte[256];
    IdentityIs(256);
    for i := 0 to 256
      invariant forall k :: 0 <= k < i ==> enc[k] == k
    {
      enc[i] := i;
    }
    assert enc[..] == Identity(256);
    NoRounds(Identity(256), key);
    for i := 1 to ROUNDS + 1
      invariant enc[..] == Rounds(Identity(256), i - 1, key)
    {
      OneRound(Identity(256), i, key);
      MergeSort(enc, 0, 256, i, key);
    }
    EncTablePermutes(key);
    for i := 0 to 256
      invariant enc[..] == EncTable(key)
      invariant forall k :: 0 <= k < i ==> dec[enc[k]] == k
    {
      assert forall k :: 0 <= k < i ==> enc[..][k] != enc[..][i];
      dec[enc[i]] := i;
    }
    InverseTables(enc[..], dec[..]);
  }

  lemma InverseTables(enc: seq<Byte>, dec: seq<Byte>)
    requires |enc| == |dec| == 256 && (forall y: Byte :: y in enc) && (forall x: Byte :: dec[enc[x]] == x)
    ensures Inverse(enc, dec)
  {
    forall y: Byte ensures enc[dec[y]] == y {
      assert y in enc;
      var i :| 0 <= i < |enc| && enc[i] == y;
      var x: Byte := i;
      assert dec[enc[x]] == x;
    }
  }

  lemma NoRounds(s: seq<Byte>, key: Key)
    ensures Rounds(s, 0, key) == s
  {
  }

  lemma OneRound(s: seq<Byte>, n: nat, key: Key)
    requires n > 0
    ensures var t := Rounds(s, n - 1, key); Copied(t, 0, MergeSorted(t[0..|t|], n, key)) == Rounds(s, n, key)
  {
    hide MergeSorted;
    var t := Rounds(s, n - 1, key);
    assert t[0..|t|] == t;
  }

  // ---- messages ----

  function Substituted(table: seq<Byte>, m: seq<Byte>): (c: seq<Byte>)
    requires |table| == 256
    ensures |c| == |m|
  {
    seq(|m|, i requires 0 <= i < |m| => table[m[i]])
  }

  /** The TABLE branch of ss_encrypt and, with the other table, of ss_decrypt. */
  method Substitute(table: array<Byte>, b: Buffer)
    requires table.Length == 256 && b.Valid()
    modifies b`bytes
    ensures b.Valid() && b.Data() == Substituted(table[..], old(b.Data())) && b.bytes[b.len..] == old(b.bytes[b.len..])
  {
    var i := 0;
    while i < b.len
      invariant 0 <= i <= b.len && |b.bytes| == |old(b.bytes)| && b.bytes[b.len..] == old(b.bytes[b.len..])
      invariant forall k :: 0 <= k < i ==> b.bytes[k] == table[old(b.bytes)[k]]
      invariant forall k :: i <= k < b.len ==> b.bytes[k] == old(b.bytes)[k]
    {
      b.bytes := b.bytes[i := table[b.bytes[i]]];
      i := i + 1;
    }
    assert b.Data() == Substituted(table[..], old(b.Data()));
  }

  /** Messages round trip in both directions. */
  lemma MessageRoundTrip(enc: seq<Byte>, dec: seq<Byte>, m: seq<Byte>)
    requires |enc| == |dec| == 256 && Inverse(enc, dec)
    ensures Substituted(dec, Substituted(enc, m)) == m
    ensures Substituted(enc, Substituted(dec, m)) == m
  {
  }
}
