/** The cross-thread wakeup protocol of the event loop, with any number of senders. */
module Wakeup {

  // Senders run ev_async_send or ev_feed_signal (and so evpipe_write) against the waiting part of ev_run and against
  // pipecb. One step is one access to shared memory or one pipe operation; steps interleave arbitrarily (sequential
  // consistency).

  /** Signals and asyncs have a flag each, and share the pipe and the skip/want pair. */
  datatype Kind = Sig | Async

  datatype Item = Item(kind: Kind, id: nat)

  /** Where a sender is, named by the access it makes next. */
  datatype Sender =
    | Idle
    | Test(kind: Kind)    // watcher marked as sent; about to read the kind's flag
    | Claim(kind: Kind)   // read it as clear; about to set it
    | Skip                // about to set pipe_write_skipped
    | Ask                 // about to read pipe_write_wanted
    | Unskip              // read it as set; about to clear pipe_write_skipped
    | Write               // about to write to the pipe

  /** Where the loop is, named by the access it makes next. */
  datatype Loop =
    | Work                          // callbacks; about to set pipe_write_wanted
    | Check                         // about to read pipe_write_skipped
    | Poll(block: bool)             // inside backend_poll
    | Unwant(readable: bool)        // about to clear pipe_write_wanted
    | Look(readable: bool)          // about to read pipe_write_skipped again
    | Drain(readable: bool)         // in pipecb, about to read the pipe if it was readable
    | Clear                         // about to clear pipe_write_skipped
    | TestFlag(kind: Kind)          // about to read the kind's flag
    | ClearFlag(kind: Kind)         // about to clear it
    | Scan(kind: Kind, left: nat)   // about to read the mark of item left - 1, if any is left
    | Take(kind: Kind, id: nat)     // about to clear that mark and feed the watcher

  datatype State = State(
    senders: seq<Sender>,
    loop: Loop,
    sent: set<Item>,          // marks: asyncs[i]->sent, signals[i].pending
    flags: set<Kind>,         // sig_pending, async_pending
    skipped: bool,            // pipe_write_skipped
    wanted: bool,             // pipe_write_wanted
    bytes: nat,               // what the pipe (or eventfd) holds
    fed: multiset<Item>,      // every feed made by pipecb so far
    sends: multiset<Item>,    // every send begun so far
    limit: nat,               // items of each kind, also the room in the pipe
    eventfd: bool)            // reading an eventfd empties it; a pipe read takes 4 bytes
  {
    ghost predicate WellFormed() {
      && limit > 0
      && (forall i :: i in sent ==> i.id < limit)
      && (loop.Scan? ==> loop.left <= limit)
      && (loop.Take? ==> loop.id < limit)
    }
  }

  function Init(n: nat, limit: nat, eventfd: bool): State {
    State(seq(n, _ => Idle), Work, {}, {}, false, false, 0, multiset{}, multiset{}, limit, eventfd)
  }

  datatype Step =
    | Send(who: nat, item: Item)   // an idle sender marks its item and enters evpipe_write
    | Advance(who: nat)            // a sender makes its next access
    | LoopStep(busy: bool)         // the loop makes its next access; busy: something other than
                                   // the pipe keeps it from blocking, or ends the poll

  predicate Enabled(s: State, step: Step) {
    match step
    case Send(who, item) => who < |s.senders| && s.senders[who].Idle? && item.id < s.limit
    case Advance(who) => who < |s.senders| && !s.senders[who].Idle?
    case LoopStep(busy) => s.loop.Poll? ==> !s.loop.block || s.bytes > 0 || busy
  }

  /** One access of a sender that is inside evpipe_write. */
  function AdvanceSender(s: State, who: nat): State
    requires Enabled(s, Advance(who))
  {
    match s.senders[who]
    case Test(k) =>
      s.(senders := s.senders[who := if k in s.flags then Idle else Claim(k)])
    case Claim(k) =>
      s.(senders := s.senders[who := Skip], flags := s.flags + {k})
    case Skip =>
      s.(senders := s.senders[who := Ask], skipped := true)
    case Ask =>
      s.(senders := s.senders[who := if s.wanted then Unskip else Idle])
    case Unskip =>
      s.(senders := s.senders[who := Write], skipped := false)
    case Write =>
      s.(senders := s.senders[who := Idle], bytes := if s.bytes < s.limit then s.bytes + 1 else s.bytes)
    case Idle => s
  }

  function AfterScan(k: Kind): Loop {
    if k == Sig then TestFlag(Async) else Work
  }

  /** One access of the loop until it has cleared pipe_write_skipped in pipecb. */
  function Wait(s: State, busy: bool): State
    requires Enabled(s, LoopStep(busy)) && !Collecting(s.loop)
  {
    match s.loop
    case Work => s.(loop := Check, wanted := true)
    case Check => s.(loop := Poll(!s.skipped && !busy))
    case Poll(_) => s.(loop := Unwant(s.bytes > 0))
    case Unwant(r) => s.(loop := Look(r), wanted := false)
    case Look(r) => s.(loop := if r || s.skipped then Drain(r) else Work)
    case Drain(r) =>
      s.(loop := Clear,
         bytes := if !r then s.bytes else if s.eventfd || s.bytes <= 4 then 0 else s.bytes - 4)
    case Clear => s.(loop := TestFlag(Sig), skipped := false)
  }

  /** The loop is in pipecb, past the clearing of pipe_write_skipped. */
  predicate Collecting(loop: Loop) {
    loop.TestFlag? || loop.ClearFlag? || loop.Scan? || loop.Take?
  }

  /** One access of the loop while it collects what was sent. */
  function Collect(s: State): State
    requires Collecting(s.loop)
  {
    match s.loop
    case TestFlag(k) => s.(loop := if k in s.flags then ClearFlag(k) else AfterScan(k))
    case ClearFlag(k) => s.(loop := Scan(k, s.limit), flags := s.flags - {k})
    case Scan(k, left) =>
      if left == 0 then s.(loop := AfterScan(k))
      else if Item(k, left - 1) in s.sent then s.(loop := Take(k, left - 1))
      else s.(loop := Scan(k, left - 1))
    case Take(k, id) =>
      s.(loop := Scan(k, id), sent := s.sent - {Item(k, id)}, fed := s.fed + multiset{Item(k, id)})
  }

  /** One access of the loop. */
  function AdvanceLoop(s: State, busy: bool): State
    requires Enabled(s, LoopStep(busy))
  {
    if Collecting(s.loop) then Collect(s) else Wait(s, busy)
  }

  function Next(s: State, step: Step): State
    requires Enabled(s, step)
  {
    match step
    case Send(who, item) =>
      s.(senders := s.senders[who := Test(item.kind)], sent := s.sent + {item},
         sends := s.sends + multiset{item})
    case Advance(who) => AdvanceSender(s, who)
    case LoopStep(busy) => AdvanceLoop(s, busy)
  }

  /** All states on the way are reached by enabled steps. */
  predicate IsRun(s: State, steps: seq<Step>)
    decreases |steps|
  {
    |steps| == 0 || (Enabled(s, steps[0]) && IsRun(Next(s, steps[0]), steps[1..]))
  }

  function Run(s: State, steps: seq<Step>): State
    requires IsRun(s, steps)
    decreases |steps|
  {
    if |steps| == 0 then s else Run(Next(s, steps[0]), steps[1..])
  }

  predicate Quiet(s: State) {
    forall j | 0 <= j < |s.senders| :: s.senders[j].Idle?
  }

  predicate Blocked(s: State) {
    s.loop == Poll(true) && s.bytes == 0
  }

  // ---- the invariant ----

  ghost predicate SomeSender(s: State, places: set<Sender>) {
    exists j :: 0 <= j < |s.senders| && s.senders[j] in places
  }

  /** Between clearing pipe_write_skipped and clearing (or finding clear) the flag of k. */
  predicate WillTest(loop: Loop, k: Kind) {
    || loop == TestFlag(k)
    || loop == ClearFlag(k)
    || (k == Async && (loop == TestFlag(Sig) || loop == ClearFlag(Sig)
                       || ((loop.Scan? || loop.Take?) && loop.kind == Sig)))
  }

  /** The flag of k was cleared in this run of pipecb and the item is still to be looked at. */
  predicate WillScan(loop: Loop, i: Item) {
    || (loop.Scan? && loop.kind == i.kind && i.id < loop.left)
    || (loop.Take? && loop.kind == i.kind && i.id <= loop.id)
  }

  /** Something will bring the loop into pipecb and past the clearing of pipe_write_skipped. */
  ghost predicate Covered(s: State) {
    || s.skipped
    || s.bytes > 0
    || s.loop.Drain?
    || s.loop.Clear?
    || SomeSender(s, {Unskip, Write})
  }

  ghost predicate MarkNoticed(s: State, i: Item) {
    || i.kind in s.flags
    || WillScan(s.loop, i)
    || SomeSender(s, {Test(i.kind), Claim(i.kind)})
  }

  ghost predicate FlagNoticed(s: State, k: Kind) {
    || Covered(s)
    || WillTest(s.loop, k)
    || SomeSender(s, {Skip})
  }

  /** Every feed of an item answers a send of its own, and a mark is a send not yet answered. */
  predicate Balanced(s: State, i: Item) {
    s.fed[i] + (if i in s.sent then 1 else 0) <= s.sends[i]
  }

  ghost predicate MarksNoticed(s: State) {
    forall i :: i in s.sent ==> MarkNoticed(s, i)
  }

  ghost predicate FlagsNoticed(s: State) {
    forall k :: k in s.flags ==> FlagNoticed(s, k)
  }

  ghost predicate AllBalanced(s: State) {
    forall i :: Balanced(s, i)
  }

  ghost predicate LoopPlaced(s: State) {
    && (s.loop.Poll? || s.loop.Check? || s.loop.Unwant? ==> s.wanted)
    && (s.loop == Poll(true) && s.skipped ==> SomeSender(s, {Ask, Unskip}))
    && (s.loop.Take? ==> Item(s.loop.kind, s.loop.id) in s.sent)
  }

  ghost predicate Inv(s: State) {
    && s.WellFormed()
    && MarksNoticed(s)
    && FlagsNoticed(s)
    && AllBalanced(s)
    && LoopPlaced(s)
  }

  /** A sender in one of the places stays there when another one moves, and the moved one is where it is. */
  lemma Moved(s: State, who: nat, q: Sender, places: set<Sender>)
    requires who < |s.senders|
    ensures var t := s.(senders := s.senders[who := q]);
            && (q in places ==> SomeSender(t, places))
            && (SomeSender(s, places) && s.senders[who] !in places ==> SomeSender(t, places))
            && (SomeSender(t, places) && q !in places ==> SomeSender(s, places))
  {
    var t := s.(senders := s.senders[who := q]);
    if q in places {
      assert t.senders[who] in places;
    }
    if SomeSender(s, places) && s.senders[who] !in places {
      var j :| 0 <= j < |s.senders| && s.senders[j] in places;
      assert t.senders[j] in places;
    }
    if SomeSender(t, places) && q !in places {
      var j :| 0 <= j < |t.senders| && t.senders[j] in places;
      assert s.senders[j] in places;
    }
  }

  lemma InitInv(n: nat, limit: nat, eventfd: bool)
    requires limit > 0
    ensures Inv(Init(n, limit, eventfd))
  {
  }

  lemma SendInv(s: State, who: nat, item: Item)
    requires Inv(s) && Enabled(s, Send(who, item))
    ensures Inv(Next(s, Send(who, item)))
  {
    var t := Next(s, Send(who, item));
    var q := Test(item.kind);
    Moved(s, who, q, {Unskip, Write});
    Moved(s, who, q, {Skip});
    Moved(s, who, q, {Ask, Unskip});
    forall i | i in t.sent ensures MarkNoticed(t, i) {
      Moved(s, who, q, {Test(i.kind), Claim(i.kind)});
    }
    forall i ensures Balanced(t, i) {
      assert Balanced(s, i);
    }
  }

  lemma SenderKeepsMarks(s: State, who: nat)
    requires Inv(s) && Enabled(s, Advance(who))
    ensures MarksNoticed(AdvanceSender(s, who))
  {
    var t := AdvanceSender(s, who);
    forall i | i in t.sent ensures MarkNoticed(t, i) {
      assert MarkNoticed(s, i);
      Moved(s, who, t.senders[who], {Test(i.kind), Claim(i.kind)});
    }
  }

  lemma SenderKeepsFlags(s: State, who: nat)
    requires Inv(s) && Enabled(s, Advance(who))
    ensures FlagsNoticed(AdvanceSender(s, who))
  {
    var t := AdvanceSender(s, who);
    forall k | k in t.flags ensures FlagNoticed(t, k) {
      Moved(s, who, t.senders[who], {Unskip, Write});
      Moved(s, who, t.senders[who], {Skip});
      if k in s.flags {
        assert FlagNoticed(s, k);
      }
    }
  }

  lemma SenderKeepsPlace(s: State, who: nat)
    requires s.WellFormed() && LoopPlaced(s) && Enabled(s, Advance(who))
    ensures AdvanceSender(s, who).WellFormed() && LoopPlaced(AdvanceSender(s, who))
  {
    Moved(s, who, AdvanceSender(s, who).senders[who], {Ask, Unskip});
  }

  lemma SenderInv(s: State, who: nat)
    requires Inv(s) && Enabled(s, Advance(who))
    ensures Inv(AdvanceSender(s, who))
  {
    var t := AdvanceSender(s, who);
    SenderKeepsMarks(s, who);
    SenderKeepsFlags(s, who);
    SenderKeepsPlace(s, who);
    assert AllBalanced(t) by {
      forall i ensures Balanced(t, i) {
        assert Balanced(s, i);
      }
    }
  }

  /** Waiting leaves marks and flags alone. */
  lemma WaitKeeps(s: State, busy: bool)
    requires Enabled(s, LoopStep(busy)) && !Collecting(s.loop)
    ensures var t := Wait(s, busy);
            && t.senders == s.senders && t.sent == s.sent && t.flags == s.flags && t.fed == s.fed && t.sends == s.sends
            && t.limit == s.limit && !t.loop.Scan? && !t.loop.Take?
  {
  }

  /** What collecting does, but for the place of the loop. */
  lemma CollectKeeps(s: State)
    requires Collecting(s.loop)
    ensures var t := Collect(s);
            && t.senders == s.senders && t.flags <= s.flags && t.sends == s.sends
            && t.limit == s.limit && t.bytes == s.bytes && t.skipped == s.skipped && t.wanted == s.wanted
            && t.sent == (if s.loop.Take? then s.sent - {Item(s.loop.kind, s.loop.id)} else s.sent)
            && t.fed == (if s.loop.Take? then s.fed + multiset{Item(s.loop.kind, s.loop.id)} else s.fed)
            && t.flags == (if s.loop.ClearFlag? then s.flags - {s.loop.kind} else s.flags)
            && (Collecting(t.loop) || t.loop.Work?)
  {
  }

  /** Where collecting goes. */
  lemma CollectGoes(s: State, i: Item)
    requires s.WellFormed() && Collecting(s.loop) && i.id < s.limit
    ensures var t := Collect(s);
            && t.WellFormed()
            && (WillScan(s.loop, i) && i in t.sent ==> WillScan(t.loop, i))
            && (i.kind in s.flags && i.kind !in t.flags ==> WillScan(t.loop, i))
            && (WillTest(s.loop, i.kind) && i.kind in t.flags ==> WillTest(t.loop, i.kind))
            && (t.loop.Take? ==> Item(t.loop.kind, t.loop.id) in t.sent)
  {
  }

  lemma SendersStay(s: State, t: State, places: set<Sender>)
    requires t.senders == s.senders
    ensures SomeSender(s, places) <==> SomeSender(t, places)
  {
  }

  lemma LoopKeepsMarks(s: State, busy: bool)
    requires Inv(s) && Enabled(s, LoopStep(busy))
    ensures MarksNoticed(AdvanceLoop(s, busy))
  {
    hide Wait, Collect, SomeSender, WillScan, WillTest;
    var t := AdvanceLoop(s, busy);
    forall i | i in t.sent ensures MarkNoticed(t, i) {
      if Collecting(s.loop) {
        CollectKeeps(s);
        CollectGoes(s, i);
      } else {
        WaitKeeps(s, busy);
        NoScan(s.loop, i);
      }
      assert MarkNoticed(s, i);
      SendersStay(s, t, {Test(i.kind), Claim(i.kind)});
    }
  }

  lemma NoScan(loop: Loop, i: Item)
    requires !Collecting(loop)
    ensures !WillScan(loop, i) && !WillTest(loop, i.kind)
  {
  }

  lemma LoopKeepsFlags(s: State, busy: bool)
    requires Inv(s) && Enabled(s, LoopStep(busy))
    ensures FlagsNoticed(AdvanceLoop(s, busy))
  {
    hide Collect, SomeSender;
    var t := AdvanceLoop(s, busy);
    forall k | k in t.flags ensures FlagNoticed(t, k) {
      if Collecting(s.loop) {
        CollectKeeps(s);
        CollectGoes(s, Item(k, 0));
      } else {
        WaitKeeps(s, busy);
      }
      assert FlagNoticed(s, k);
      SendersStay(s, t, {Unskip, Write});
      SendersStay(s, t, {Skip});
    }
  }

  lemma LoopKeepsBalance(s: State, busy: bool)
    requires Inv(s) && Enabled(s, LoopStep(busy))
    ensures AllBalanced(AdvanceLoop(s, busy))
  {
    hide Wait, Collect;
    if Collecting(s.loop) {
      CollectKeeps(s);
    } else {
      WaitKeeps(s, busy);
    }
    forall i ensures Balanced(AdvanceLoop(s, busy), i) {
      assert Balanced(s, i);
    }
  }

  lemma LoopKeepsShape(s: State, busy: bool)
    requires s.WellFormed() && Enabled(s, LoopStep(busy))
    ensures AdvanceLoop(s, busy).WellFormed()
  {
    hide Wait, Collect;
    if Collecting(s.loop) {
      CollectGoes(s, Item(Sig, 0));
    } else {
      WaitKeeps(s, busy);
    }
  }

  lemma LoopKeepsPlace(s: State, busy: bool)
    requires s.WellFormed() && LoopPlaced(s) && Enabled(s, LoopStep(busy))
    ensures LoopPlaced(AdvanceLoop(s, busy))
  {
    hide Collect, SomeSender;
    var t := AdvanceLoop(s, busy);
    if Collecting(s.loop) {
      CollectKeeps(s);
      CollectGoes(s, Item(Sig, 0));
    } else {
      WaitKeeps(s, busy);
    }
    SendersStay(s, t, {Ask, Unskip});
  }

  lemma LoopInv(s: State, busy: bool)
    requires Inv(s) && Enabled(s, LoopStep(busy))
    ensures Inv(AdvanceLoop(s, busy))
  {
    LoopKeepsMarks(s, busy);
    LoopKeepsFlags(s, busy);
    LoopKeepsBalance(s, busy);
    LoopKeepsShape(s, busy);
    LoopKeepsPlace(s, busy);
  }

  lemma StepInv(s: State, step: Step)
    requires Inv(s) && Enabled(s, step)
    ensures Inv(Next(s, step))
  {
    match step
    case Send(who, item) => SendInv(s, who, item);
    case Advance(who) => SenderInv(s, who);
    case LoopStep(busy) => LoopInv(s, busy);
  }

  lemma {:induction false} RunInv(s: State, steps: seq<Step>)
    requires Inv(s) && IsRun(s, steps)
    ensures Inv(Run(s, steps))
    decreases |steps|
  {
    if |steps| > 0 {
      StepInv(s, steps[0]);
      RunInv(Next(s, steps[0]), steps[1..]);
    }
  }

  // ---- no wakeup is lost ----

  /** Whenever the loop sits in a blocking poll on an empty pipe although something was
      sent, a sender is still inside evpipe_write. */
  lemma BlockedOnlyByASender(s: State, i: Item)
    requires Inv(s) && Blocked(s) && i in s.sent
    ensures !Quiet(s)
  {
    assert MarkNoticed(s, i);
    assert i.kind in s.flags ==> FlagNoticed(s, i.kind);
  }

  /** In every reachable state in which the loop is in a blocking poll and no sender is
      inside evpipe_write, anything sent makes the pipe readable. */
  lemma NoLostWakeup(n: nat, limit: nat, eventfd: bool, steps: seq<Step>)
    requires limit > 0 && IsRun(Init(n, limit, eventfd), steps)
    ensures var s := Run(Init(n, limit, eventfd), steps);
            s.loop == Poll(true) && Quiet(s) && s.sent != {} ==> s.bytes > 0
  {
    InitInv(n, limit, eventfd);
    RunInv(Init(n, limit, eventfd), steps);
    var s := Run(Init(n, limit, eventfd), steps);
    if s.loop == Poll(true) && Quiet(s) && s.sent != {} && s.bytes == 0 {
      var i :| i in s.sent;
      BlockedOnlyByASender(s, i);
    }
  }

  // ---- and every send is answered ----

  /** The loop takes n steps with nothing else going on: no sender, timer or other descriptor. */
  predicate RunsAlone(s: State, n: nat)
    decreases n
  {
    n == 0 || (Enabled(s, LoopStep(false)) && RunsAlone(AdvanceLoop(s, false), n - 1))
  }

  function Alone(s: State, n: nat): State
    requires RunsAlone(s, n)
    decreases n
  {
    if n == 0 then s else Alone(AdvanceLoop(s, false), n - 1)
  }

  lemma AloneUnfolds(s: State, n: nat)
    requires Enabled(s, LoopStep(false)) && RunsAlone(AdvanceLoop(s, false), n)
    ensures RunsAlone(s, n + 1) && Alone(s, n + 1) == Alone(AdvanceLoop(s, false), n)
  {
  }

  /** Bounds the steps until the loop is back at Work. */
  function Rank(loop: Loop, limit: nat): nat {
    match loop
    case Work => 4 * limit + 13
    case Check => 4 * limit + 12
    case Poll(_) => 4 * limit + 11
    case Unwant(_) => 4 * limit + 10
    case Look(_) => 4 * limit + 9
    case Drain(_) => 4 * limit + 8
    case Clear => 4 * limit + 7
    case TestFlag(k) => if k == Sig then 4 * limit + 6 else 2 * limit + 3
    case ClearFlag(k) => if k == Sig then 4 * limit + 5 else 2 * limit + 2
    case Scan(k, left) => 2 * left + 1 + if k == Sig then 2 * limit + 3 else 0
    case Take(k, id) => 2 * id + 2 + if k == Sig then 2 * limit + 3 else 0
  }

  /** This pass of the loop will not look at the item any more. */
  predicate Missed(s: State, i: Item) {
    || ((s.loop == Unwant(false) || s.loop == Look(false)) && !s.skipped)
    || ((s.loop.TestFlag? || s.loop.ClearFlag? || s.loop.Scan? || s.loop.Take?)
        && !WillTest(s.loop, i.kind) && !WillScan(s.loop, i))
  }

  function Distance(s: State, i: Item): nat {
    Rank(s.loop, s.limit) + if Missed(s, i) then 4 * s.limit + 14 else 0
  }

  /** What the invariant leaves of the reasons to notice an item when no sender is about. */
  predicate NoticedAlone(s: State, i: Item) {
    && i.id < s.limit
    && i in s.sent
    && (i.kind in s.flags || WillScan(s.loop, i))
    && (i.kind in s.flags ==> s.skipped || s.bytes > 0 || s.loop.Drain? || s.loop.Clear? || WillTest(s.loop, i.kind))
    && (s.loop == Poll(true) ==> !s.skipped)
    && (s.loop.Take? ==> Item(s.loop.kind, s.loop.id) in s.sent)
  }

  lemma QuietlyNoticed(s: State, i: Item)
    requires Inv(s) && Quiet(s) && i in s.sent
    ensures NoticedAlone(s, i)
  {
    assert MarkNoticed(s, i);
    assert i.kind in s.flags ==> FlagNoticed(s, i.kind);
  }

  lemma WaitingComesCloser(s: State, i: Item)
    requires NoticedAlone(s, i)
    requires !Collecting(s.loop)
    ensures Enabled(s, LoopStep(false))
    ensures Distance(AdvanceLoop(s, false), i) < Distance(s, i)
  {
    hide Collect;
  }

  lemma ScanStep(s: State)
    requires s.loop.Scan?
    ensures var t, k, left := AdvanceLoop(s, false), s.loop.kind, s.loop.left;
            && t.limit == s.limit && t.skipped == s.skipped
            && t.loop == if left == 0 then AfterScan(k)
                         else if Item(k, left - 1) in s.sent then Take(k, left - 1) else Scan(k, left - 1)
  {
    hide Wait;
  }

  lemma ScanningComesCloser(s: State, i: Item)
    requires NoticedAlone(s, i)
    requires s.loop.Scan?
    ensures Distance(AdvanceLoop(s, false), i) < Distance(s, i)
  {
    hide Wait, Collect, AdvanceLoop;
    ScanStep(s);
    var next, k, left := AdvanceLoop(s, false).loop, s.loop.kind, s.loop.left;
    if left > 0 {
      assert next.Take? || Item(k, left - 1) != i;
      assert WillScan(s.loop, i) ==> WillScan(next, i);
    }
  }

  lemma TakingComesCloser(s: State, i: Item)
    requires NoticedAlone(s, i)
    requires s.loop.Take?
    ensures i in AdvanceLoop(s, false).sent ==> Distance(AdvanceLoop(s, false), i) < Distance(s, i)
  {
    hide Wait;
  }

  lemma TestingComesCloser(s: State, i: Item)
    requires NoticedAlone(s, i)
    requires s.loop.TestFlag? || s.loop.ClearFlag?
    ensures Distance(AdvanceLoop(s, false), i) < Distance(s, i)
  {
    hide Wait;
  }

  lemma OneStepCloser(s: State, i: Item)
    requires NoticedAlone(s, i)
    ensures Enabled(s, LoopStep(false))
    ensures i in AdvanceLoop(s, false).sent ==> Distance(AdvanceLoop(s, false), i) < Distance(s, i)
  {
    match s.loop
    case Scan(_, _) => ScanningComesCloser(s, i);
    case Take(_, _) => TakingComesCloser(s, i);
    case TestFlag(_) => TestingComesCloser(s, i);
    case ClearFlag(_) => TestingComesCloser(s, i);
    case _ => WaitingComesCloser(s, i);
  }

  lemma OneStepFeeds(s: State, i: Item)
    requires i in s.sent && Enabled(s, LoopStep(false))
    ensures var t := AdvanceLoop(s, false);
            && t.senders == s.senders
            && t.fed[i] == s.fed[i] + if i in t.sent then 0 else 1
  {
    if s.loop.Take? {
      assert Item(s.loop.kind, s.loop.id) in s.sent || i in AdvanceLoop(s, false).sent;
    }
  }

  /** From every reachable state, once the senders have returned from ev_async_send, the loop
      feeds each watcher that was sent to, within two passes and whatever it was doing. */
  lemma {:induction false} EverySendIsFed(s: State, i: Item)
    requires Inv(s) && Quiet(s) && i in s.sent
    ensures exists n: nat :: n <= Distance(s, i) && RunsAlone(s, n)
                        && i !in Alone(s, n).sent && Alone(s, n).fed[i] == s.fed[i] + 1
    decreases Distance(s, i)
  {
    QuietlyNoticed(s, i);
    OneStepCloser(s, i);
    OneStepFeeds(s, i);
    var t := AdvanceLoop(s, false);
    LoopInv(s, false);
    var m: nat := 0;
    if i in t.sent {
      EverySendIsFed(t, i);
      m :| m <= Distance(t, i) && RunsAlone(t, m) && i !in Alone(t, m).sent && Alone(t, m).fed[i] == t.fed[i] + 1;
    }
    AloneUnfolds(s, m);
  }

  // ---- while senders keep sending ----

  function LoopSteps(steps: seq<Step>): nat {
    if steps == [] then 0 else (if steps[0].LoopStep? then 1 else 0) + LoopSteps(steps[1..])
  }

  /** A sender takes back pipe_write_skipped, to write to the pipe instead. */
  predicate Unskips(s: State, step: Step) {
    step.Advance? && step.who < |s.senders| && s.senders[step.who].Unskip?
  }

  predicate NeverUnskips(s: State, steps: seq<Step>)
    requires IsRun(s, steps)
    decreases |steps|
  {
    steps == [] || (!Unskips(s, steps[0]) && NeverUnskips(Next(s, steps[0]), steps[1..]))
  }

  lemma StepKeepsShape(s: State, step: Step)
    requires s.WellFormed() && Enabled(s, step)
    ensures Next(s, step).WellFormed() && Next(s, step).limit == s.limit
    ensures forall i :: Next(s, step).fed[i] >= s.fed[i]
  {
    if step.LoopStep? {
      LoopKeepsShape(s, step.busy);
      if Collecting(s.loop) {
        CollectKeeps(s);
      } else {
        WaitKeeps(s, step.busy);
      }
    }
  }

  lemma {:induction false} FedForGood(s: State, steps: seq<Step>, i: Item)
    requires s.WellFormed() && IsRun(s, steps)
    ensures Run(s, steps).fed[i] >= s.fed[i]
    decreases |steps|
  {
    hide Next, Enabled;
    if steps != [] {
      StepKeepsShape(s, steps[0]);
      FedForGood(Next(s, steps[0]), steps[1..], i);
    }
  }

  /** This run of pipecb has found the flag, or is about to, and has yet to come to the item. */
  predicate OnItsWay(s: State, i: Item) {
    && i in s.sent && i.id < s.limit
    && (WillScan(s.loop, i) || s.loop == ClearFlag(i.kind) || (s.loop == TestFlag(i.kind) && i.kind in s.flags))
  }

  lemma SenderLeavesLoop(s: State, step: Step)
    requires Enabled(s, step) && !step.LoopStep?
    ensures var t := Next(s, step);
            && t.loop == s.loop && t.limit == s.limit && t.fed == s.fed && s.sent <= t.sent && s.flags <= t.flags
            && s.bytes <= t.bytes && (s.skipped && !Unskips(s, step) ==> t.skipped)
  {
  }

  lemma WayStep(s: State, step: Step, i: Item)
    requires s.WellFormed() && OnItsWay(s, i) && Enabled(s, step)
    ensures var t := Next(s, step);
            || t.fed[i] > s.fed[i]
            || (OnItsWay(t, i) && t.fed[i] == s.fed[i]
                && if step.LoopStep? then Rank(t.loop, t.limit) < Rank(s.loop, s.limit) else t.loop == s.loop && t.limit == s.limit)
  {
    if step.LoopStep? {
      assert Collecting(s.loop);
      CollectKeeps(s);
      CollectGoes(s, i);
      CollectCloser(s);
    } else {
      SenderLeavesLoop(s, step);
    }
  }

  /** Where collecting goes from one place of the loop. */
  predicate NextPlace(loop: Loop, next: Loop, limit: nat) {
    match loop
    case TestFlag(k) => next == ClearFlag(k) || next == AfterScan(k)
    case ClearFlag(k) => next == Scan(k, limit)
    case Scan(k, left) => if left == 0 then next == AfterScan(k) else next == Take(k, left - 1) || next == Scan(k, left - 1)
    case Take(k, id) => next == Scan(k, id)
    case _ => false
  }

  lemma CollectPlace(s: State)
    requires Collecting(s.loop)
    ensures NextPlace(s.loop, Collect(s).loop, s.limit)
  {
  }

  lemma PlaceRank(loop: Loop, next: Loop, limit: nat)
    requires NextPlace(loop, next, limit)
    ensures !next.Work? ==> Rank(next, limit) < Rank(loop, limit)
  {
  }

  lemma CollectCloser(s: State)
    requires Collecting(s.loop)
    ensures !Collect(s).loop.Work? ==> Rank(Collect(s).loop, s.limit) < Rank(s.loop, s.limit)
  {
    hide Collect, Collecting, Rank, NextPlace;
    CollectPlace(s);
    PlaceRank(s.loop, Collect(s).loop, s.limit);
  }

  /** Once pipecb finds the flag, it feeds the watcher, whatever the senders do meanwhile. */
  lemma {:induction false} FedOnTheWay(s: State, i: Item, steps: seq<Step>)
    requires s.WellFormed() && OnItsWay(s, i) && IsRun(s, steps) && LoopSteps(steps) >= Rank(s.loop, s.limit)
    ensures Run(s, steps).fed[i] > s.fed[i]
    decreases |steps|
  {
    hide Next, Enabled, OnItsWay;
    var t, rest := Next(s, steps[0]), steps[1..];
    StepKeepsShape(s, steps[0]);
    WayStep(s, steps[0], i);
    if t.fed[i] > s.fed[i] {
      FedForGood(t, rest, i);
    } else {
      FedOnTheWay(t, i, rest);
    }
  }

  /** The loop will come to the item: in this run of pipecb, or because of what says that pipecb must run. */
  predicate Noticed(s: State, i: Item) {
    && i in s.sent && i.id < s.limit
    && (WillScan(s.loop, i)
        || (i.kind in s.flags && (s.skipped || s.bytes > 0 || s.loop.Drain? || s.loop.Clear? || WillTest(s.loop, i.kind))))
  }

  lemma WaitCloser(s: State, busy: bool, i: Item)
    requires s.WellFormed() && Noticed(s, i) && Enabled(s, LoopStep(busy)) && !Collecting(s.loop)
    ensures Noticed(Wait(s, busy), i) && Distance(Wait(s, busy), i) < Distance(s, i)
  {
  }

  lemma CollectNoticed(s: State, i: Item)
    requires s.WellFormed() && Noticed(s, i) && Collecting(s.loop)
    ensures Collect(s).fed[i] > s.fed[i] || Noticed(Collect(s), i)
  {
    CollectKeeps(s);
    CollectGoes(s, i);
  }

  lemma CollectDistance(s: State, i: Item)
    requires s.WellFormed() && Noticed(s, i) && Collecting(s.loop) && Noticed(Collect(s), i)
    ensures Distance(Collect(s), i) < Distance(s, i)
  {
    hide Collect, Rank, NextPlace;
    CollectKeeps(s);
    CollectGoes(s, i);
    CollectCloser(s);
    CollectPlace(s);
    PlaceMissed(s.loop, Collect(s).loop, s.limit, i);
    WorkRank(s.limit);
  }

  /** What is missed was missed before, and with the run over, all is missed. */
  lemma PlaceMissed(loop: Loop, next: Loop, limit: nat, i: Item)
    requires NextPlace(loop, next, limit) && i.id < limit
    ensures Collecting(next) && !WillTest(loop, i.kind) && !WillScan(loop, i) ==> !WillTest(next, i.kind) && !WillScan(next, i)
  {
  }

  lemma WorkRank(limit: nat)
    ensures Rank(Work, limit) == 4 * limit + 13
  {
  }

  lemma NoticedStep(s: State, step: Step, i: Item)
    requires s.WellFormed() && Noticed(s, i) && Enabled(s, step) && !Unskips(s, step)
    ensures var t := Next(s, step);
            || t.fed[i] > s.fed[i]
            || (Noticed(t, i) && if step.LoopStep? then Distance(t, i) < Distance(s, i) else Distance(t, i) <= Distance(s, i))
  {
    hide Wait, Collect;
    if !step.LoopStep? {
      SenderLeavesLoop(s, step);
    } else if Collecting(s.loop) {
      CollectNoticed(s, i);
      if Noticed(Collect(s), i) {
        CollectDistance(s, i);
      }
    } else {
      WaitCloser(s, step.busy, i);
    }
  }

  /** A noticed item is fed within two passes of the loop, although senders keep sending, unless one of them takes back
      pipe_write_skipped meanwhile. */
  lemma {:induction false} FedWhileSending(s: State, i: Item, steps: seq<Step>)
    requires s.WellFormed() && Noticed(s, i) && IsRun(s, steps) && NeverUnskips(s, steps)
    requires LoopSteps(steps) >= Distance(s, i)
    ensures Run(s, steps).fed[i] > s.fed[i]
    decreases |steps|
  {
    hide Next, Enabled, Noticed;
    var t, rest := Next(s, steps[0]), steps[1..];
    StepKeepsShape(s, steps[0]);
    NoticedStep(s, steps[0], i);
    if t.fed[i] > s.fed[i] {
      FedForGood(t, rest, i);
    } else {
      FedWhileSending(t, i, rest);
    }
  }
}
