/**
 The circuit breaker as a latch: what can make a tripped trader run again, over every run of
 syncs, persists, crashes, restarts and recorded control commands, with a store that may fail.
 */
module CircuitLatch {
  import opened Clock
  import opened DailyRisk
  import opened RuntimeStore
  import opened Lifecycle
  import opened Options
  import ControlPlane

  /** The trader in memory, if the process is up and the trader registered, and its stored record. */
  datatype World = World(trader: Option<Life>, store: Option<Record>)

  /** `saved` and `loaded` say whether the store performed the write or the read. */
  datatype Event =
    | Sync(equity: real, marginUsed: real, unrealizedPnl: real, now: Time, saved: bool)
    | Persist(now: Time, saved: bool)
    | DecisionRecorded(now: Time)
    | SharpeGate(until: Time)
    | Trip(reason: string, now: Time, saved: bool)
    | OperatorPause
    | OperatorStop
    | OperatorStart
    | OperatorResume
    | Gone                                                   // crash, shutdown or unregistration
    | Register(newborn: Life, autoStart: bool, loaded: bool, now: Time, saved: bool)
    | ControlRecorded(snap: ControlPlane.Snapshot, saved: bool)
    | ForeignWrite(record: Record)                           // by another manager over the same store

  predicate Enabled(w: World, e: Event) {
    match e
    case Register(newborn, _, _, _, _) => w.trader.None? && IsNewborn(newborn)
    case ControlRecorded(snap, _) => ControlPlane.Recorded(snap)
    case ForeignWrite(_) => true
    case _ => w.trader.Some?
  }

  function Saved(w: World, now: Time, saved: bool): World
    requires w.trader.Some?
  {
    if saved then w.(store := Some(RecordOf(w.trader.value, now))) else w
  }

  function Next(w: World, e: Event): World
    requires Enabled(w, e)
  {
    match e
    case Sync(equity, margin, pnl, now, saved) =>
      Saved(w.(trader := Some(AccountSynced(w.trader.value, equity, margin, pnl, now))), now, saved)
    case Persist(now, saved) => Saved(w, now, saved)
    case DecisionRecorded(now) => w.(trader := Some(w.trader.value.(lastDecisionAt := now)))
    case SharpeGate(until) => w.(trader := Some(w.trader.value.(pauseUntil := until)))
    case Trip(reason, now, saved) => Saved(w.(trader := Some(Tripped(w.trader.value, reason, now))), now, saved)
    case OperatorPause => w.(trader := Some(PausedByOperator(w.trader.value)))
    case OperatorStop => w.(trader := Some(w.trader.value.(state := Stopped)))
    case OperatorStart => w.(trader := Some(Started(w.trader.value)))
    case OperatorResume => w.(trader := Some(Resumed(w.trader.value)))
    case Gone => w.(trader := None)
    case Register(newborn, autoStart, loaded, now, saved) =>
      Saved(w.(trader := Some(Registered(newborn, if loaded then w.store else None, autoStart, now))), now, saved)
    case ControlRecorded(snap, saved) =>
      if saved then w.(store := Some(ControlPlane.Persisted(w.store, snap))) else w
    case ForeignWrite(record) => w.(store := Some(record))
  }

  /** The trader does not run and its record, which exists, says that it does not. */
  predicate Latched(w: World) {
    && w.store.Some? && !w.store.value.isRunning
    && (w.trader.Some? ==> w.trader.value.state != Running)
  }

  /** What opens the latch: an operator's start or resume, in process or recorded through the control
      plane, a record of another manager that says running, or an auto-started registration whose read
      of the store failed. */
  predicate Opens(e: Event) {
    match e
    case OperatorStart => true
    case OperatorResume => true
    case ControlRecorded(snap, saved) => snap.state == Running && saved
    case ForeignWrite(record) => record.isRunning
    case Register(_, autoStart, loaded, _, _) => autoStart && !loaded
    case _ => false
  }

  /** The latch survives an event exactly when the event does not open it. Lost writes are harmless. */
  lemma LatchSurvivesIff(w: World, e: Event)
    requires Latched(w) && Enabled(w, e)
    ensures Latched(Next(w, e)) <==> !Opens(e)
  {
  }

  predicate Valid(w: World, events: seq<Event>)
    decreases |events|
  {
    events == [] || (Enabled(w, events[0]) && Valid(Next(w, events[0]), events[1..]))
  }

  function Run(w: World, events: seq<Event>): World
    requires Valid(w, events)
    decreases |events|
  {
    if events == [] then w else Run(Next(w, events[0]), events[1..])
  }

  predicate NoneOpens(events: seq<Event>) {
    forall i :: 0 <= i < |events| ==> !Opens(events[i])
  }

  lemma {:induction false} LatchSurvivesRun(w: World, events: seq<Event>)
    requires Latched(w) && Valid(w, events) && NoneOpens(events)
    ensures Latched(Run(w, events))
    decreases |events|
  {
    if events != [] {
      LatchSurvivesIff(w, events[0]);
      LatchSurvivesRun(Next(w, events[0]), events[1..]);
    }
  }

  /** The trader neither runs nor will be asked for a decision. */
  ghost predicate IsOut(w: World) {
    w.trader.Some? ==> w.trader.value.state != Running && forall now :: !ShouldMakeDecision(w.trader.value, now)
  }

  /** No run of events makes the trader run or be asked for a decision, until something opens the latch. */
  ghost predicate StaysOut(w: World) {
    forall events :: Valid(w, events) && NoneOpens(events) ==> IsOut(Run(w, events))
  }

  /** Whether a trip holds: its write reached the store, or the record already said not running. */
  predicate TripHolds(w: World, saved: bool) {
    saved || (w.store.Some? && !w.store.value.isRunning)
  }

  /** After a trip that holds, no run of events makes the trader run or be asked for a decision. */
  lemma TrippedTraderStaysOut(w: World, reason: string, tripAt: Time, saved: bool, events: seq<Event>)
    requires Enabled(w, Trip(reason, tripAt, saved)) && TripHolds(w, saved)
    requires Valid(Next(w, Trip(reason, tripAt, saved)), events) && NoneOpens(events)
    ensures IsOut(Run(Next(w, Trip(reason, tripAt, saved)), events))
  {
    hide BuildDetail;
    LatchSurvivesRun(Next(w, Trip(reason, tripAt, saved)), events);
  }

  /** After a trip the trader stays out, whatever `auto_start` says, exactly when the trip holds. */
  lemma TripLatchesIff(w: World, reason: string, tripAt: Time, saved: bool)
    requires Enabled(w, Trip(reason, tripAt, saved))
    ensures StaysOut(Next(w, Trip(reason, tripAt, saved))) <==> TripHolds(w, saved)
  {
    hide BuildDetail;
    var tripped := Next(w, Trip(reason, tripAt, saved));
    if TripHolds(w, saved) {
      forall events | Valid(tripped, events) && NoneOpens(events)
        ensures IsOut(Run(tripped, events))
      {
        TrippedTraderStaysOut(w, reason, tripAt, saved, events);
      }
    } else {
      var events := RunsAgain(tripped, tripAt);
      assert !IsOut(Run(tripped, events));
    }
  }

  const Newborn := Life(Stopped, ZERO, NoCircuit, Empty, Allocation(0.0, 0.0, 0.0, 0.0, 0.0), None, ZERO, 0, 0)

  /** A crash and a registration run a trader whose record says running, or that has no record and
      starts by itself. */
  lemma RunsAgain(w: World, now: Time) returns (events: seq<Event>)
    requires w.trader.Some? && (w.store.Some? ==> w.store.value.isRunning)
    ensures Valid(w, events) && NoneOpens(events)
    ensures Run(w, events).trader.Some? && Run(w, events).trader.value.state == Running
  {
    hide BuildDetail, Hydrated;
    var e0, e1 := Gone, Register(Newborn, true, true, now, true);
    events := [e0, e1];
    var w1 := Next(w, e0);
    RunsAfterRegistrationIff(Newborn, w.store, true, now);
    var w2 := Next(w1, e1);
    assert events[1..] == [e1] && [e1][1..] == [];
    assert Valid(w2, []) && Run(w2, []) == w2;
    assert Valid(w1, [e1]) && Run(w1, [e1]) == w2;
  }

  /** A trip whose write was lost over a record that says running: the trader runs again after a crash,
      even with a store that reads back faithfully and no `auto_start`. */
  lemma LostTripWriteRunsAgain(l: Life, r: Record, newborn: Life, reason: string, now: Time)
    requires r.isRunning && IsNewborn(newborn)
    ensures var w := World(Some(l), Some(r));
      var events := [Trip(reason, now, false), Gone, Register(newborn, false, true, now, true)];
      && Valid(w, events)
      && Run(w, events).trader.Some? && Run(w, events).trader.value.state == Running
  {
    hide BuildDetail, Hydrated;
    var w := World(Some(l), Some(r));
    var e0, e1, e2 := Trip(reason, now, false), Gone, Register(newborn, false, true, now, true);
    var w1 := Next(w, e0);
    var w2 := Next(w1, e1);
    RunsAfterRegistrationIff(newborn, Some(r), false, now);
    var w3 := Next(w2, e2);
    assert [e0, e1, e2][1..] == [e1, e2] && [e1, e2][1..] == [e2] && [e2][1..] == [];
    assert Valid(w3, []) && Run(w3, []) == w3;
    assert Valid(w2, [e2]) && Run(w2, [e2]) == w3;
    assert Valid(w1, [e1, e2]) && Run(w1, [e1, e2]) == w3;
  }

  /** The first sync of a later day clears the circuit flag, so the latch is not that flag: the trader
      stays paused, and a restart brings it back stopped. */
  lemma RolloverClearsTheFlagOnly(l: Life, reason: string, tripAt: Time, equity: real, margin: real, pnl: real,
                                  now: Time, newborn: Life, autoStart: bool, later: Time)
    requires equity > 0.0 && IsNewborn(newborn)
    requires UtcDay(now) != UtcDay(tripAt) && l.daily.date == Day(UtcDay(tripAt))
    ensures var synced := AccountSynced(Tripped(l, reason, tripAt), equity, margin, pnl, now);
      && synced.circuit == NoCircuit && synced.state == Paused
      && Registered(newborn, Some(RecordOf(synced, now)), autoStart, later).state == Stopped
  {
  }

  /* The circuit itself. */

  /** Events of one UTC day that are no operator's start or resume, no trip and no restart. */
  predicate OrdinaryOn(e: Event, day: int) {
    match e
    case Sync(_, _, _, now, _) => UtcDay(now) == day
    case OperatorStart => false
    case OperatorResume => false
    case Trip(_, _, _) => false
    case Gone => false
    case Register(_, _, _, _, _) => false
    case _ => true
  }

  predicate BlockedOn(w: World, c: Circuit, day: int) {
    && w.trader.Some? && w.trader.value.circuit == c && w.trader.value.daily.date == Day(day)
  }

  /** A blocked circuit stays blocked over every run of syncs and other events on its own UTC day. */
  lemma {:induction false} CircuitStaysBlockedThatDay(w: World, events: seq<Event>, c: Circuit, day: int)
    requires c.blocked && c.date == Day(day) && BlockedOn(w, c, day) && Valid(w, events)
    requires forall i :: 0 <= i < |events| ==> OrdinaryOn(events[i], day)
    ensures BlockedOn(Run(w, events), c, day)
    decreases |events|
  {
    if events != [] {
      CircuitStaysBlockedBy(w, events[0], c, day);
      hide Next, Enabled, BlockedOn;
      CircuitStaysBlockedThatDay(Next(w, events[0]), events[1..], c, day);
    }
  }

  lemma CircuitStaysBlockedBy(w: World, e: Event, c: Circuit, day: int)
    requires c.blocked && c.date == Day(day) && BlockedOn(w, c, day) && Enabled(w, e) && OrdinaryOn(e, day)
    ensures BlockedOn(Next(w, e), c, day)
  {
    hide BuildDetail, UtcDay;
    match e
    case Sync(equity, margin, pnl, now, saved) =>
      SyncIs(w.trader.value, equity, margin, pnl, now);
    case _ =>
  }
}
