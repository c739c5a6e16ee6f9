/**
 A virtual trader's lifecycle: its state, the risk circuit breaker, the daily baseline, how these
 are persisted in the runtime record and restored from it when the trader is registered again.
 */
module Lifecycle {
  import opened Clock
  import opened DailyRisk
  import opened Options
  import opened RuntimeStore
  import opened Text

  const CIRCUIT_REASON := "risk_circuit_breaker"

  datatype Circuit = Circuit(blocked: bool, date: Date, reason: string, triggeredAt: Time)

  const NoCircuit := Circuit(false, NoDate, "", ZERO)

  datatype Allocation = Allocation(allocatedEquity: real, equity: real, marginUsed: real, available: real,
                                   unrealizedPnl: real)

  /** The part of a trader that the runtime record speaks about. */
  datatype Life = Life(
    state: TraderState, pauseUntil: Time, circuit: Circuit, daily: Baseline, alloc: Allocation,
    performance: Option<PerformanceDetail>, lastDecisionAt: Time, interval: int, configVersion: int)

  function Started(l: Life): Life {
    if l.state == Running then l else l.(state := Running, circuit := NoCircuit)
  }

  function PausedByOperator(l: Life): Life {
    if l.state == Stopped then l else l.(state := Paused)
  }

  function Resumed(l: Life): Life {
    if l.state == Running then l else l.(state := Running, pauseUntil := ZERO, circuit := NoCircuit)
  }

  /** The breaker trips: the trader is paused without an end and the circuit is dated with the day
      of the loss. */
  function Tripped(l: Life, reason: string, now: Time): Life {
    var why := if Trim(reason) == "" then "daily loss limit exceeded" else Trim(reason);
    var date := if l.daily.date != NoDate then l.daily.date else Day(UtcDay(now));
    l.(state := Paused, pauseUntil := ZERO, circuit := Circuit(true, date, why, now))
  }

  /** A blocked circuit of another day is cleared; the lifecycle state is not touched. */
  function StaleCircuitCleared(l: Life): Life {
    if !l.circuit.blocked || l.daily.date == NoDate then l
    else if l.circuit.date == NoDate then
      if SameUtcDay(l.circuit.triggeredAt, l.daily.updatedAt) then l else l.(circuit := NoCircuit)
    else if l.circuit.date != l.daily.date then l.(circuit := NoCircuit)
    else l
  }

  /** The account half of a position sync. */
  function AccountSynced(l: Life, equity: real, marginUsed: real, unrealizedPnl: real, now: Time): Life {
    var available := if equity - marginUsed > 0.0 then equity - marginUsed else 0.0;
    StaleCircuitCleared(l.(
      alloc := Allocation(l.alloc.allocatedEquity, equity, marginUsed, available, unrealizedPnl),
      daily := Updated(l.daily, equity, now)))
  }

  /** Whether the scheduler asks this trader for a decision. */
  predicate ShouldMakeDecision(l: Life, now: Time) {
    && l.state == Running
    && (l.pauseUntil == ZERO || now >= l.pauseUntil)
    && (l.interval <= 0 || l.lastDecisionAt == ZERO || now - l.lastDecisionAt >= l.interval)
  }

  /* Persistence. */

  function ToInstant(t: Time): Option<Time> {
    if t == ZERO then None else Some(t)
  }

  function BuildDetail(l: Life, now: Time): StateDetail {
    var decision :=
      if l.lastDecisionAt == ZERO then None
      else
        var next := if l.interval > 0 then Some(l.lastDecisionAt + l.interval) else None;
        Some(DecisionDetail(Some(l.lastDecisionAt), next));
    var pause :=
      if l.circuit.blocked then Some(PauseDetail(None, CIRCUIT_REASON))
      else if l.pauseUntil != ZERO && l.pauseUntil > now then
        Some(PauseDetail(Some(l.pauseUntil), if l.state == Paused then "manual" else "pause"))
      else None;
    var allocation :=
      if l.alloc.allocatedEquity > 0.0 || l.alloc.marginUsed > 0.0 || l.alloc.available > 0.0 || l.alloc.equity > 0.0
      then Some(AllocationDetail(l.alloc.equity, l.alloc.marginUsed, l.alloc.available)) else None;
    var circuit :=
      if l.circuit.blocked || l.circuit.reason != "" || l.circuit.triggeredAt != ZERO
      then Some(CircuitDetail(l.circuit.blocked, l.circuit.date, l.circuit.reason, ToInstant(l.circuit.triggeredAt)))
      else None;
    var daily := ToDetail(l.daily);
    StateDetail(decision, pause, allocation, l.performance,
                if daily.Some? || circuit.Some? then Some(RiskDetail(daily, circuit)) else None)
  }

  function RecordOf(l: Life, now: Time): Record {
    Record(if l.configVersion <= 0 then 1 else l.configVersion, l.state == Running, BuildDetail(l, now))
  }

  function CircuitFrom(c: CircuitDetail): Circuit {
    Circuit(c.blocked, c.date, c.reason, if c.triggeredAt.Some? then c.triggeredAt.value else ZERO)
  }

  /** A freshly configured trader with the stored record poured into it. */
  function Hydrated(newborn: Life, r: Record, now: Time): Life {
    var d := r.detail;
    var daily := if DailyOf(d).Some? then FromDetail(DailyOf(d)) else newborn.daily;
    var circuit :=
      if d.risk.Some? && d.risk.value.circuit.Some? then CircuitFrom(d.risk.value.circuit.value) else newborn.circuit;
    Life(
      if circuit.blocked then Paused else StateOf(r, now),
      if d.pause.Some? && d.pause.value.until.Some? then d.pause.value.until.value else newborn.pauseUntil,
      circuit, daily,
      if d.allocation.Some?
      then newborn.alloc.(equity := d.allocation.value.equity, available := d.allocation.value.availableMargin,
                          marginUsed := d.allocation.value.usedMargin)
      else newborn.alloc,
      if d.performance.Some? then d.performance else newborn.performance,
      if d.decision.Some? && d.decision.value.lastAt.Some? then d.decision.value.lastAt.value
      else newborn.lastDecisionAt,
      newborn.interval,
      if r.configVersion > 0 && (newborn.configVersion <= 0 || r.configVersion > newborn.configVersion)
      then r.configVersion else newborn.configVersion)
  }

  /** What the configuration alone gives: stopped, with no pause, circuit or history. */
  predicate IsNewborn(l: Life) {
    l.state == Stopped && l.pauseUntil == ZERO && l.circuit == NoCircuit && l.daily == Empty && l.lastDecisionAt == ZERO
  }

  /** Registration: `loaded` is the stored record, or None when there is none or it could not be read.
      A record decides whether the trader runs; only without one does `auto_start`. */
  function Registered(newborn: Life, loaded: Option<Record>, autoStart: bool, now: Time): Life {
    var l := if loaded.Some? then Hydrated(newborn, loaded.value, now) else newborn;
    if (if loaded.Some? then loaded.value.isRunning else autoStart) then Started(l) else l
  }

  /** A trader runs after registration exactly when its record says so or, for want of a record, when
      it is configured to start by itself. */
  lemma RunsAfterRegistrationIff(newborn: Life, loaded: Option<Record>, autoStart: bool, now: Time)
    requires IsNewborn(newborn)
    ensures Registered(newborn, loaded, autoStart, now).state == Running
            <==> (if loaded.Some? then loaded.value.isRunning else autoStart)
  {
  }

  /** Whether an allocation is worth storing. */
  predicate HasFigures(a: Allocation) {
    a.allocatedEquity > 0.0 || a.marginUsed > 0.0 || a.available > 0.0 || a.equity > 0.0
  }

  /** A pause with an end that is still ahead when it is stored. */
  predicate PauseIsStored(l: Life, now: Time) {
    !l.circuit.blocked && l.pauseUntil != ZERO && l.pauseUntil > now
  }

  /** What persisting and registering again brings back: the baseline, the account figures, the last
      decision and the performance; the end of a pause that was ahead; and the state, except that a
      trader that does not run is paused while its circuit is blocked or its pause lasts, and else
      stopped. A pause without an end is thus forgotten. */
  lemma PersistThenRegister(l: Life, newborn: Life, autoStart: bool, now: Time, later: Time)
    requires IsNewborn(newborn)
    ensures var back := Registered(newborn, Some(RecordOf(l, now)), autoStart, later);
      && back.daily == (if IsBlank(l.daily) then newborn.daily else l.daily)
      && back.lastDecisionAt == l.lastDecisionAt && back.interval == newborn.interval
      && (back.state == Running <==> l.state == Running)
      && (l.circuit.blocked && l.state != Running ==> back.circuit == l.circuit && back.state == Paused)
      && (!l.circuit.blocked && l.state != Running ==>
            back.state == if PauseIsStored(l, now) && l.pauseUntil > later then Paused else Stopped)
      && back.pauseUntil == (if PauseIsStored(l, now) then l.pauseUntil else ZERO)
      && back.performance == (if l.performance.Some? then l.performance else newborn.performance)
      && back.alloc.allocatedEquity == newborn.alloc.allocatedEquity
      && (HasFigures(l.alloc) ==>
            && back.alloc.equity == l.alloc.equity && back.alloc.marginUsed == l.alloc.marginUsed
            && back.alloc.available == l.alloc.available)
      && (!HasFigures(l.alloc) ==> back.alloc == newborn.alloc)
      && back.configVersion >= l.configVersion && back.configVersion >= newborn.configVersion
      && back.configVersion in {if l.configVersion <= 0 then 1 else l.configVersion, newborn.configVersion}
  {
  }

  /** A paused trader comes back as paused exactly while its circuit is blocked or its pause has an end that
      is ahead, both when it is stored and when it is registered. */
  lemma PausedComesBackIff(l: Life, newborn: Life, autoStart: bool, now: Time, later: Time)
    requires IsNewborn(newborn) && l.state == Paused
    ensures Registered(newborn, Some(RecordOf(l, now)), autoStart, later).state
            == if l.circuit.blocked || (l.pauseUntil != ZERO && l.pauseUntil > now && l.pauseUntil > later)
               then Paused else Stopped
  {
    hide UtcDay;
  }

  /** The record tells when a running trader will be asked next, and why and until when one is paused. */
  lemma RecordTells(l: Life, now: Time)
    ensures l.lastDecisionAt != ZERO && l.interval > 0 && l.state == Running && l.pauseUntil == ZERO ==>
      var told := BuildDetail(l, now).decision;
      && told.Some? && told.value.nextAt.Some?
      && forall t :: ShouldMakeDecision(l, t) <==> t >= told.value.nextAt.value
    ensures l.circuit.blocked ==> BuildDetail(l, now).pause == Some(PauseDetail(None, CIRCUIT_REASON))
    ensures l.state == Paused && PauseIsStored(l, now) ==>
      BuildDetail(l, now).pause == Some(PauseDetail(Some(l.pauseUntil), "manual"))
    ensures !l.circuit.blocked && !PauseIsStored(l, now) ==> BuildDetail(l, now).pause == None
  {
  }

  /** So a pause without an end comes back as a stop. */
  lemma EndlessPauseIsForgotten(l: Life, newborn: Life, autoStart: bool, now: Time, later: Time)
    requires IsNewborn(newborn) && l.state == Paused && l.pauseUntil == ZERO && !l.circuit.blocked
    ensures Registered(newborn, Some(RecordOf(l, now)), autoStart, later).state == Stopped
  {
    PausedComesBackIff(l, newborn, autoStart, now, later);
  }

  /* What each operation is for. */

  /** A blocked circuit that is dated differently from the baseline, or undated and not triggered on the
      day of its last update. */
  predicate CircuitIsStale(c: Circuit, b: Baseline) {
    && c.blocked && b.date.Day?
    && (c.date.Day? ==> c.date.day != b.date.day)
    && (c.date.NoDate? ==> c.triggeredAt == ZERO || b.updatedAt == ZERO || UtcDay(c.triggeredAt) != UtcDay(b.updatedAt))
  }

  /** What a sync does to a trader: the account's figures, the baseline, and the circuit exactly when it is
      stale against the baseline after the sync. */
  lemma SyncIs(l: Life, equity: real, marginUsed: real, unrealizedPnl: real, now: Time)
    ensures var s := AccountSynced(l, equity, marginUsed, unrealizedPnl, now);
      && s.alloc.equity == equity && s.alloc.marginUsed == marginUsed && s.alloc.unrealizedPnl == unrealizedPnl
      && s.alloc.available == (if equity > marginUsed then equity - marginUsed else 0.0)
      && s.alloc.allocatedEquity == l.alloc.allocatedEquity
      && s.daily == Updated(l.daily, equity, now)
      && s.circuit == (if CircuitIsStale(l.circuit, s.daily) then NoCircuit else l.circuit)
      && s.state == l.state && s.pauseUntil == l.pauseUntil && s.lastDecisionAt == l.lastDecisionAt
      && s.performance == l.performance && s.interval == l.interval && s.configVersion == l.configVersion
  {
  }

  /** A circuit tripped on the baseline's day stays for every sync of that day. */
  lemma CircuitStaysOnItsDay(l: Life, reason: string, tripAt: Time, equity: real, margin: real, pnl: real, now: Time)
    requires l.daily.date == Day(UtcDay(tripAt)) && UtcDay(now) == UtcDay(tripAt)
    ensures var tripped := Tripped(l, reason, tripAt);
      && tripped.circuit.blocked && tripped.circuit.date == Day(UtcDay(tripAt)) && tripped.circuit.triggeredAt == tripAt
      && AccountSynced(tripped, equity, margin, pnl, now).circuit == tripped.circuit
  {
    hide Trim, UtcDay;
  }

  /** A resumed trader is asked again as soon as its interval allows, whatever pause or circuit it had. */
  lemma ResumeEndsPauseAndCircuit(l: Life, now: Time)
    requires l.state != Running
    ensures Resumed(l).circuit == NoCircuit && Resumed(l).state == Running
    ensures ShouldMakeDecision(Resumed(l), now)
            <==> l.interval <= 0 || l.lastDecisionAt == ZERO || now - l.lastDecisionAt >= l.interval
  {
  }

  /** A started trader has no circuit, but a pause with an end ahead still holds it. */
  lemma StartKeepsThePause(l: Life, now: Time)
    requires l.state != Running
    ensures Started(l).circuit == NoCircuit && Started(l).state == Running
    ensures l.pauseUntil != ZERO && now < l.pauseUntil ==> !ShouldMakeDecision(Started(l), now)
  {
  }

  /** A running trader that is not held by a pause is asked again exactly from one interval after its last
      decision on. */
  lemma AskedOncePerInterval(l: Life, now: Time)
    requires l.state == Running && l.pauseUntil == ZERO && l.interval > 0 && l.lastDecisionAt != ZERO
    ensures ShouldMakeDecision(l, now) <==> now >= l.lastDecisionAt + l.interval
    ensures !ShouldMakeDecision(l.(state := Paused), now) && !ShouldMakeDecision(l.(state := Stopped), now)
  {
  }
}
