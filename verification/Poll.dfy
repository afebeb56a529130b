/** The poll backend: an array of pollfds without holes, and for every fd its index in that array or -1. */
module PollBackend {

  import opened IoEvents
  import ArraySize

  /** A struct pollfd; events holds POLLIN and POLLOUT. */
  datatype PollFd = PollFd(fd: nat, events: Mask)

  const SIZEOF_POLLFD := 8
  const SIZEOF_INT := 4

  /** Each of the first cnt pollfds is indexed under its own fd; an fd with an index has events. */
  predicate Indexed(polls: seq<PollFd>, cnt: nat, idxs: seq<int>) {
    && cnt <= |polls|
    && (forall i {:trigger polls[i]} :: 0 <= i < cnt ==> polls[i].fd < |idxs| && idxs[polls[i].fd] == i && polls[i].events.Any())
    && (forall f {:trigger idxs[f]} :: 0 <= f < |idxs| ==> -1 <= idxs[f] < cnt && (idxs[f] >= 0 ==> polls[idxs[f]].fd == f))
  }

  /** The events asked for on f. */
  function Asked(polls: seq<PollFd>, idxs: seq<int>, f: nat): Mask {
    if f < |idxs| && 0 <= idxs[f] < |polls| then polls[idxs[f]].events else NONE
  }

  /** poll() is given exactly one entry for every fd with an interest and none for the others. */
  lemma OneEntryEach(polls: seq<PollFd>, cnt: nat, idxs: seq<int>, f: nat)
    requires Indexed(polls, cnt, idxs)
    ensures Asked(polls, idxs, f).Any() <==> exists i :: 0 <= i < cnt && polls[i].fd == f
    ensures forall i, j :: 0 <= i < cnt && 0 <= j < cnt && polls[i].fd == f == polls[j].fd ==> i == j
    ensures forall i :: 0 <= i < cnt && polls[i].fd == f ==> polls[i].events == Asked(polls, idxs, f)
  {
    if Asked(polls, idxs, f).Any() {
      assert polls[idxs[f]].fd == f;
    }
  }

  class Poll {
    var polls: seq<PollFd>       // pollmax entries, the first pollcnt in use
    var pollcnt: nat
    var pollidxs: seq<int>

    ghost predicate Valid()
      reads this
    {
      Indexed(polls, pollcnt, pollidxs)
    }

    ghost function Interest(f: nat): Mask
      reads this
    {
      Asked(polls, pollidxs, f)
    }

    constructor ()
      ensures Valid() && forall f: nat :: Interest(f) == NONE
    {
      polls, pollcnt, pollidxs := [], 0, [];
    }

    /** array_needsize (pollidxs), the new part filled by pollidx_init */
    method NeedIndexes(cnt: nat)
      requires Valid()
      modifies `pollidxs
      ensures Valid() && cnt <= |pollidxs| && old(pollidxs) <= pollidxs
      ensures forall f :: |old(pollidxs)| <= f < |pollidxs| ==> pollidxs[f] == -1
      ensures forall f: nat :: Interest(f) == old(Interest(f))
    {
      if cnt > |pollidxs| {
        var n := ArraySize.NextSize(SIZEOF_INT, |pollidxs|, cnt);
        pollidxs := pollidxs + seq(n - |pollidxs|, _ => -1);
      }
    }

    /** array_needsize (polls), the new part left as it comes */
    method NeedPolls(cnt: nat)
      modifies `polls
      ensures cnt <= |polls| && old(polls) <= polls
    {
      if cnt > |polls| {
        var n := ArraySize.NextSize(SIZEOF_POLLFD, |polls|, cnt);
        assert |seq(n - |polls|, _ => PollFd(0, NONE))| == n - |polls|;
        var raw: seq<PollFd> :| |raw| == n - |polls|;
        polls := polls + raw;
      }
    }

    /** poll_modify */
    method Modify(fd: nat, oev: Mask, nev: Mask)
      requires Valid() && oev == Interest(fd)
      modifies this
      ensures Valid()
      ensures forall f: nat :: Interest(f) == if f == fd then nev else old(Interest(f))
    {
      if oev == nev {
        return;
      }
      NeedIndexes(fd + 1);
      var idx := pollidxs[fd];
      if idx < 0 {
        idx := pollcnt;
        Allocate(fd);
      }
      assert polls[idx].fd == fd;
      if nev.Any() {
        polls := polls[idx := polls[idx].(events := nev)];
      } else {
        Remove(fd, idx);
      }
    }

    /** A new pollfd for fd, its events still to be set. */
    method Allocate(fd: nat)
      requires Valid() && fd < |pollidxs| && pollidxs[fd] == -1
      modifies this
      ensures pollcnt == old(pollcnt) + 1 <= |polls| && pollidxs == old(pollidxs)[fd := old(pollcnt)]
      ensures polls[..old(pollcnt)] == old(polls)[..old(pollcnt)] && polls[old(pollcnt)].fd == fd
    {
      pollidxs := pollidxs[fd := pollcnt];
      pollcnt := pollcnt + 1;
      NeedPolls(pollcnt);
      polls := polls[pollcnt - 1 := polls[pollcnt - 1].(fd := fd)];
    }

    /** Drop the pollfd at idx, closing the gap with the last one. */
    method Remove(fd: nat, idx: nat)
      requires Valid() && fd < |pollidxs| && pollidxs[fd] == idx
      modifies this
      ensures Valid()
      ensures forall f: nat :: Interest(f) == if f == fd then NONE else old(Interest(f))
    {
      pollidxs := pollidxs[fd := -1];
      pollcnt := pollcnt - 1;
      if idx < pollcnt {
        polls := polls[idx := polls[pollcnt]];
        pollidxs := pollidxs[polls[idx].fd := idx];
      }
    }
  }
}
