/** The watchers of an event loop, of every kind, in one store. */
module Watchers {

  import opened IoEvents

  type Tstamp = real

  /** A watcher, by its address. */
  type W = nat

  /** What a watcher is, which says where it is kept while it is active. Idle watchers are kept by their priority;
      Other are signal, child, stat and embed watchers. */
  datatype Kind = Timer | Periodic | Io | Prepare | Check | Fork | Cleanup | Async | Idle(pri: nat) | Other

  datatype Link = Null | To(w: W)

  /** What only an ev_io has; fdset is the EV__IOFDSET bit of its events. */
  datatype IoFields = IoFields(fd: int, events: Mask, fdset: bool, next: Link)

  /** The fields of a watcher that the loop reads and writes. */
  datatype Watcher = Watcher(
    kind: Kind,
    pri: nat,        // ABSPRI
    active: nat,     // its index in the heap or array, 1 for an active ev_io, 0 when stopped
    pending: nat,    // 1 + index in the pending queue of its priority, or 0
    at: Tstamp,
    repeat: Tstamp,  // the repeat of a timer or the interval of a periodic
    offset: Tstamp,  // of a periodic
    custom: bool,    // whether a periodic has a reschedule_cb
    io: IoFields)
  {
    /** Whether it is rescheduled when it fires. */
    predicate Repeats() { repeat != 0.0 || (kind.Periodic? && custom) }

    /** What ev_timer_start and ev_periodic_start assert of it. */
    predicate Forward() { kind.Timer? || (kind.Periodic? && !custom) ==> repeat >= 0.0 }
  }

  type Store = map<W, Watcher>

  /** Watchers of other kinds are untouched, and none changes its kind. */
  ghost predicate OnlyKind(kind: Kind, before: Store, after: Store) {
    && after.Keys == before.Keys
    && forall w | w in before :: after[w].kind == before[w].kind && (before[w].kind != kind ==> after[w] == before[w])
  }
}
