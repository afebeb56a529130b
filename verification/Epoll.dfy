/** The epoll backend against a kernel that may forget registrations and keep others for too long. */
module EpollBackend {

  import opened IoEvents

  type Fd = nat
  type Gen = nat                 // egen, never wrapping here

  /** What libev keeps of an fd: the events its watchers want, the mask it believes the kernel has,
      and the generation of its last registration. */
  datatype Anfd = Anfd(events: Mask, emask: Mask, egen: Gen)

  /** What the kernel keeps of the file now open as an fd. */
  datatype Reg = Reg(mask: Mask, gen: Gen)

  /** A struct epoll_event: the fd and the generation it was registered with, and what happened. */
  datatype Event = Event(fd: Fd, gen: Gen, got: Mask)

  datatype Op = CtlAdd | CtlMod | CtlDel
  datatype Errno = Success | ENoEnt | EExist

  /** The kernel either lost the registration of an fd or has just what libev believes; and whatever is
      left over from files that were open as that fd before has an older generation. */
  ghost predicate Sound(anfds: seq<Anfd>, live: map<Fd, Reg>, stale: set<(Fd, Gen)>) {
    && (forall fd <- live :: fd < |anfds| && live[fd] == Reg(anfds[fd].emask, anfds[fd].egen))
    && (forall s <- stale :: s.0 < |anfds| && s.1 <= anfds[s.0].egen && (s.0 in live ==> s.1 < anfds[s.0].egen))
    && (forall fd {:trigger anfds[fd]} :: 0 <= fd < |anfds| && anfds[fd].events.Any() ==> anfds[fd].emask == anfds[fd].events)
  }

  /** A new registration, with a generation of its own or as a repetition of the one before. */
  lemma Registered(anfds: seq<Anfd>, live: map<Fd, Reg>, stale: set<(Fd, Gen)>, fd: Fd, nev: Mask, gen: Gen)
    requires Sound(anfds, live, stale) && fd < |anfds|
    requires gen > anfds[fd].egen || (gen == anfds[fd].egen && fd in live)
    ensures Sound(anfds[fd := Anfd(nev, nev, gen)], live[fd := Reg(nev, gen)], stale)
  {
  }

  lemma LiveIs(anfds: seq<Anfd>, live: map<Fd, Reg>, stale: set<(Fd, Gen)>, fd: Fd)
    requires Sound(anfds, live, stale)
    ensures fd in live ==> fd < |anfds| && live[fd] == Reg(anfds[fd].emask, anfds[fd].egen)
  {
  }

  lemma LiveGens(anfds: seq<Anfd>, live: map<Fd, Reg>, stale: set<(Fd, Gen)>)
    requires Sound(anfds, live, stale)
    ensures forall fd <- live :: fd < |anfds| && live[fd].gen == anfds[fd].egen
  {
  }

  /** What the loop of epoll_poll does with one event: the kernel is told to stop reporting what nobody
      wants, and the event is passed on unless it is outdated or its registration is gone. */
  datatype Outcome = Outcome(anfds: seq<Anfd>, live: map<Fd, Reg>, passed: bool)

  function Unwanted(got: Mask, want: Mask): bool {
    (got.read && !want.read) || (got.write && !want.write)
  }

  function Trimmed(live: map<Fd, Reg>, fd: Fd, want: Mask, gen: Gen): map<Fd, Reg> {
    if fd !in live then live
    else if want.Any() then live[fd := Reg(want, gen)]
    else live - {fd}
  }

  function Handled(anfds: seq<Anfd>, live: map<Fd, Reg>, e: Event): Outcome
    requires e.fd < |anfds|
  {
    var want := anfds[e.fd].events;
    if e.gen != anfds[e.fd].egen then Outcome(anfds, live, false)
    else if Unwanted(e.got, want) then
      Outcome(anfds[e.fd := anfds[e.fd].(emask := want)], Trimmed(live, e.fd, want, e.gen), e.fd in live)
    else Outcome(anfds, live, true)
  }

  /** The kernel reports only what is registered, now or for a file that is still open elsewhere. */
  predicate Reported(live: map<Fd, Reg>, stale: set<(Fd, Gen)>, e: Event) {
    (e.fd in live && e.gen == live[e.fd].gen) || (e.fd, e.gen) in stale
  }

  lemma HandledSound(anfds: seq<Anfd>, live: map<Fd, Reg>, stale: set<(Fd, Gen)>, e: Event)
    requires Sound(anfds, live, stale) && e.fd < |anfds|
    ensures var o := Handled(anfds, live, e); Sound(o.anfds, o.live, stale)
  {
  }

  /** An event that is passed on does not come from a file that is no longer registered, if one is. */
  lemma NoOutdatedEvent(anfds: seq<Anfd>, live: map<Fd, Reg>, stale: set<(Fd, Gen)>, e: Event)
    requires Sound(anfds, live, stale) && e.fd < |anfds|
    ensures Handled(anfds, live, e).passed ==> e.gen == anfds[e.fd].egen
    ensures e.fd in live ==> (Handled(anfds, live, e).passed <==> e.gen == live[e.fd].gen)
    ensures e.fd in live && (e.fd, e.gen) in stale ==> !Handled(anfds, live, e).passed
  {
  }

  // ---- all the events of one epoll_wait ----

  /** Something happened that no watcher wants. */
  predicate Excess(anfds: seq<Anfd>, e: Event)
    requires e.fd < |anfds|
  {
    var want := anfds[e.fd].events;
    !(e.got.read ==> want.read) || !(e.got.write ==> want.write)
  }

  /** An event that is not passed on: of an earlier registration, or unwanted and of one that is gone. */
  predicate Stray(anfds: seq<Anfd>, live: map<Fd, Reg>, e: Event)
    requires e.fd < |anfds|
  {
    e.gen != anfds[e.fd].egen || (e.fd !in live && Excess(anfds, e))
  }

  predicate InRange(anfds: seq<Anfd>, events: seq<Event>) {
    forall e <- events :: e.fd < |anfds|
  }

  /** The kernel's interest in an fd was reduced to what is wanted exactly if more was reported of its registration. */
  ghost predicate Withdrawn(anfds: seq<Anfd>, before: map<Fd, Reg>, after: map<Fd, Reg>, events: seq<Event>)
    requires InRange(anfds, events)
  {
    forall fd <- before :: fd < |anfds| &&
      if exists e <- events :: e.fd == fd && e.gen == before[fd].gen && Excess(anfds, e) then
        if anfds[fd].events == NONE then fd !in after
        else fd in after && after[fd] == Reg(anfds[fd].events, before[fd].gen)
      else fd in after && after[fd] == before[fd]
  }

  ghost predicate SameButMasks(before: seq<Anfd>, after: seq<Anfd>) {
    |after| == |before| && forall f :: 0 <= f < |before| ==> after[f].events == before[f].events && after[f].egen == before[f].egen
  }

  predicate DifferentGens(events: seq<Event>) {
    forall i, j :: 0 <= i < j < |events| ==> (events[i].fd, events[i].gen) != (events[j].fd, events[j].gen)
  }

  lemma NothingWithdrawn(anfds: seq<Anfd>, live: map<Fd, Reg>, stale: set<(Fd, Gen)>)
    requires Sound(anfds, live, stale)
    ensures Withdrawn(anfds, live, live, [])
  {
  }

  lemma ExcessIs(before: seq<Anfd>, after: seq<Anfd>, e: Event)
    requires SameButMasks(before, after) && e.fd < |before|
    ensures Unwanted(e.got, after[e.fd].events) <==> Excess(before, e)
  {
  }

  lemma NoneBefore(events: seq<Event>, i: nat)
    requires DifferentGens(events) && i < |events|
    ensures forall d <- events[..i] :: (d.fd, d.gen) != (events[i].fd, events[i].gen)
  {
  }

  lemma HandledNext(anfds0: seq<Anfd>, live0: map<Fd, Reg>, stale: set<(Fd, Gen)>, anfds: seq<Anfd>, live: map<Fd, Reg>,
                    events: seq<Event>, i: nat)
    requires Sound(anfds0, live0, stale) && SameButMasks(anfds0, anfds) && live.Keys <= live0.Keys
    requires i < |events| && InRange(anfds0, events) && DifferentGens(events) && Withdrawn(anfds0, live0, live, events[..i])
    ensures var o, e := Handled(anfds, live, events[i]), events[i];
            && SameButMasks(anfds0, o.anfds) && o.live.Keys <= live0.Keys && InRange(anfds0, events[..i + 1])
            && (o.passed <==> !Stray(anfds0, live0, e))
            && Withdrawn(anfds0, live0, o.live, events[..i + 1])
  {
    hide Sound, DifferentGens, Excess, Unwanted;
    var e, o := events[i], Handled(anfds, live, events[i]);
    assert events[..i + 1] == events[..i] + [e];
    LiveGens(anfds0, live0, stale);
    ExcessIs(anfds0, anfds, e);
    NoneBefore(events, i);
    forall fd | fd in live0
      ensures if exists d <- events[..i + 1] :: d.fd == fd && d.gen == live0[fd].gen && Excess(anfds0, d) then
                if anfds0[fd].events == NONE then fd !in o.live
                else fd in o.live && o.live[fd] == Reg(anfds0[fd].events, live0[fd].gen)
              else fd in o.live && o.live[fd] == live0[fd]
    {
      if fd == e.fd && e.gen == live0[fd].gen && Excess(anfds0, e) {
        assert e in events[..i + 1];
      }
    }
  }

  class Epoll {
    var anfds: seq<Anfd>
    // the kernel
    var live: map<Fd, Reg>
    var stale: set<(Fd, Gen)>
    /** The fds whose file is still the one that libev last registered. */
    ghost var known: set<Fd>
    var postfork: bool           // postfork & 2

    ghost predicate Valid()
      reads this
    {
      && Sound(anfds, live, stale)
      && (forall fd <- known :: fd < |anfds| && (anfds[fd].events.Any() ==> fd in live))
    }

    constructor (n: nat)
      ensures Valid() && |anfds| == n && live == map[]
    {
      anfds := seq(n, _ => Anfd(NONE, NONE, 0));
      live, stale, known, postfork := map[], {}, {}, false;
    }

    /** While the file is the registered one, the kernel reports just what is wanted. */
    lemma InSync(fd: Fd)
      requires Valid() && fd in known && anfds[fd].events.Any()
      ensures fd in live && live[fd] == Reg(anfds[fd].events, anfds[fd].egen)
    {
    }

    // ---- the kernel ----

    /** The file behind fd is closed: its registration goes with it, unless the file stays open elsewhere;
        another file may be opened as fd. */
    method Close(fd: Fd, elsewhere: bool)
      requires Valid()
      modifies `live, `stale, `known
      ensures Valid() && live == old(live) - {fd} && known == old(known) - {fd}
      ensures stale == old(stale) + if elsewhere && fd in old(live) then {(fd, old(live)[fd].gen)} else {}
    {
      if elsewhere && fd in live {
        stale := stale + {(fd, live[fd].gen)};
      }
      live := live - {fd};
      known := known - {fd};
    }

    /** epoll_ctl, for the file now open as fd */
    method Ctl(op: Op, fd: Fd, mask: Mask, gen: Gen) returns (e: Errno)
      modifies `live
      ensures e == (if op == CtlAdd then (if fd in old(live) then EExist else Success)
                    else if fd in old(live) then Success else ENoEnt)
      ensures live == if e != Success then old(live)
                      else if op == CtlDel then old(live) - {fd}
                      else old(live)[fd := Reg(mask, gen)]
    {
      if op == CtlAdd && fd in live {
        return EExist;
      }
      if op != CtlAdd && fd !in live {
        return ENoEnt;
      }
      live := if op == CtlDel then live - {fd} else live[fd := Reg(mask, gen)];
      e := Success;
    }

    // ---- libev ----

    /** The part of fd_reify for one fd: note the events, then epoll_modify. */
    method Reify(fd: Fd, nev: Mask)
      requires Valid() && fd < |anfds|
      modifies `anfds, `live, `known
      ensures Valid() && |anfds| == |old(anfds)| && anfds[fd].events == nev
      ensures forall f :: 0 <= f < |anfds| && f != fd ==> anfds[f] == old(anfds[f])
      ensures live - {fd} == old(live) - {fd} && known - {fd} == old(known) - {fd}
      ensures nev.Any() ==> fd in known && fd in live && live[fd] == Reg(nev, anfds[fd].egen)
      ensures !nev.Any() ==> live == old(live)
    {
      var oev := anfds[fd].events;
      Modify(fd, oev, nev);
    }

    /** epoll_modify, whatever the kernel forgot */
    method Modify(fd: Fd, oev: Mask, nev: Mask)
      requires Valid() && fd < |anfds|
      modifies `anfds, `live, `known
      ensures Valid() && |anfds| == |old(anfds)|
      ensures !nev.Any() ==> live == old(live) && known == old(known) && anfds == old(anfds)[fd := old(anfds[fd]).(events := nev)]
      ensures nev.Any() ==> live == old(live)[fd := Reg(nev, anfds[fd].egen)] && known == old(known) + {fd}
      ensures nev.Any() ==> anfds == old(anfds)[fd := Anfd(nev, nev, anfds[fd].egen)]
      ensures nev.Any() ==> anfds[fd].egen == old(anfds[fd].egen) + if fd in old(live) && old(anfds[fd].emask) == nev then 0 else 1
    {
      if nev.Any() {
        Register(fd, oev, nev);
      } else {
        anfds := anfds[fd := anfds[fd].(events := nev)];     // done by fd_reify; a CTL_DEL is not sent
      }
    }

    method Register(fd: Fd, oev: Mask, nev: Mask)
      requires Valid() && fd < |anfds| && nev.Any()
      modifies `anfds, `live, `known
      ensures Valid() && |anfds| == |old(anfds)|
      ensures live == old(live)[fd := Reg(nev, anfds[fd].egen)] && known == old(known) + {fd}
      ensures anfds == old(anfds)[fd := Anfd(nev, nev, anfds[fd].egen)]
      ensures anfds[fd].egen == old(anfds[fd].egen) + if fd in old(live) && old(anfds[fd].emask) == nev then 0 else 1
    {
      hide Sound;
      LiveIs(anfds, live, stale, fd);
      var oldmask, egen := anfds[fd].emask, anfds[fd].egen + 1;
      Registered(anfds, live, stale, fd, nev, if fd in live && oldmask == nev then egen - 1 else egen);
      anfds := anfds[fd := Anfd(nev, nev, egen)];
      known := known + {fd};
      var e := Ctl(if oev.Any() && oldmask != nev then CtlMod else CtlAdd, fd, nev, egen);
      if e == Success {
        return;
      }
      if e == ENoEnt {
        e := Ctl(CtlAdd, fd, nev, egen);
      } else if oldmask == nev {
        anfds := anfds[fd := anfds[fd].(egen := egen - 1)];  // dec_egen
        assert live == live[fd := Reg(nev, egen - 1)] && anfds == old(anfds)[fd := Anfd(nev, nev, egen - 1)];
        return;
      } else {
        e := Ctl(CtlMod, fd, nev, egen);
      }
      assert e == Success;                                   // so fd_kill is not reached
    }

    /** The loop of epoll_poll, over the events of one epoll_wait. */
    method PollEvents(events: seq<Event>) returns (passed: seq<Event>)
      requires Valid() && InRange(anfds, events) && DifferentGens(events)
      requires forall e <- events :: Reported(live, stale, e)
      modifies `anfds, `live, `postfork
      ensures Valid() && SameButMasks(old(anfds), anfds) && live.Keys <= old(live.Keys)
      ensures Withdrawn(old(anfds), old(live), live, events)
      ensures forall e <- events :: e in passed <==> !Stray(old(anfds), old(live), e)
      ensures postfork <==> old(postfork) || exists e <- events :: Stray(old(anfds), old(live), e)
      ensures forall e <- passed :: e in events
      // the events of files that are still registered, and no others of those fds
      ensures forall e <- events :: e.fd in old(live) ==> (e in passed <==> e.gen == old(live[e.fd].gen))
    {
      hide Sound, Handled, Excess, Withdrawn;
      ghost var anfds0, live0 := anfds, live;
      LiveGens(anfds, live, stale);
      NothingWithdrawn(anfds, live, stale);
      passed := [];
      var i := 0;
      assert events[..0] == [];
      while i < |events|
        invariant 0 <= i <= |events|
        invariant Valid() && SameButMasks(anfds0, anfds) && live.Keys <= live0.Keys && Sound(anfds0, live0, stale)
        invariant InRange(anfds0, events[..i]) && Withdrawn(anfds0, live0, live, events[..i])
        invariant forall e <- events[..i] :: e in passed <==> !Stray(anfds0, live0, e)
        invariant forall e <- passed :: e in events[..i]
        invariant postfork <==> old(postfork) || exists e <- events[..i] :: Stray(anfds0, live0, e)
      {
        HandledNext(anfds0, live0, stale, anfds, live, events, i);
        assert events[..i + 1] == events[..i] + [events[i]];
        var pass := PollEvent(events[i]);
        if pass {
          passed := passed + [events[i]];
        }
        i := i + 1;
      }
      assert events[..i] == events;
    }

    /** One event. */
    method PollEvent(e: Event) returns (pass: bool)
      requires Valid() && e.fd < |anfds|
      modifies `anfds, `live, `postfork
      ensures Valid() && Outcome(anfds, live, pass) == Handled(old(anfds), old(live), e)
      ensures postfork == (old(postfork) || !pass)
    {
      HandledSound(anfds, live, stale, e);
      var want := anfds[e.fd].events;
      if anfds[e.fd].egen != e.gen {
        postfork := true;
        return false;
      }
      if Unwanted(e.got, want) {
        anfds := anfds[e.fd := anfds[e.fd].(emask := want)];
        var err := Ctl(if want.Any() then CtlMod else CtlDel, e.fd, want, e.gen);
        if err != Success {
          postfork := true;
          return false;
        }
      }
      return true;
    }
  }
}
