/** How the event loop grows its arrays. */
module ArraySize {

  const MALLOC_ROUND := 4096
  const POINTERS := 32   // sizeof (void *) * 4

  /** A block for one element more than n, rounded up to whole pages, has room for n beside malloc's own pointers. */
  lemma RoomInPages(elem: nat, n: nat)
    requires elem > 0
    ensures var padded := n * elem + elem + (MALLOC_ROUND - 1) + POINTERS;
            var rounded := padded - padded % MALLOC_ROUND;
            rounded >= POINTERS && (rounded - POINTERS) / elem >= n
  {
    var padded := n * elem + elem + (MALLOC_ROUND - 1) + POINTERS;
    var rounded := padded - padded % MALLOC_ROUND;
    assert rounded - POINTERS >= n * elem;
    Quotient(rounded - POINTERS, elem, n);
  }

  lemma Times(a: nat, b: nat, d: nat)
    ensures a >= b ==> a * d >= b * d
  {
  }

  lemma Quotient(x: nat, d: nat, n: nat)
    requires d > 0 && x >= n * d
    ensures x / d >= n
  {
    Times(n, x / d + 1, d);
    assert x < (x / d + 1) * d;
  }

  /** array_nextsize: a size that holds cnt elements of elem bytes, at least doubling cur and
      rounded so that big blocks fill whole pages. */
  method NextSize(elem: nat, cur: nat, cnt: nat) returns (size: nat)
    requires elem > 0
    ensures size >= cnt
    ensures size > 2 * cur
  {
    var ncur := 2 * (cur + 1);
    while cnt > ncur
      invariant ncur > 2 * cur
      decreases cnt - ncur
    {
      ncur := 2 * ncur;
    }
    if elem * ncur > MALLOC_ROUND - POINTERS {
      RoomInPages(elem, ncur);
      var padded := ncur * elem + elem + (MALLOC_ROUND - 1) + POINTERS;
      size := (padded - padded % MALLOC_ROUND - POINTERS) / elem;
    } else {
      size := ncur;
    }
  }
}
