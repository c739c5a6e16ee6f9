/**
 The runtime-state record that the manager and the control plane persist per trader. Every part
 of its detail is optional.
 */
module RuntimeStore {
  import opened Clock
  import opened DailyRisk
  import opened Options

  datatype TraderState = Running | Paused | Stopped | Errored

  datatype DecisionDetail = DecisionDetail(lastAt: Option<Time>, nextAt: Option<Time>)

  datatype PauseDetail = PauseDetail(until: Option<Time>, reason: string)

  datatype AllocationDetail = AllocationDetail(equity: real, usedMargin: real, availableMargin: real)

  datatype PerformanceDetail = PerformanceDetail(sharpe: real, totalPnl: real)

  datatype CircuitDetail = CircuitDetail(blocked: bool, date: Date, reason: string, triggeredAt: Option<Time>)

  datatype RiskDetail = RiskDetail(daily: Option<DailyRisk.Detail>, circuit: Option<CircuitDetail>)

  datatype StateDetail = StateDetail(
    decision: Option<DecisionDetail>,
    pause: Option<PauseDetail>,
    allocation: Option<AllocationDetail>,
    performance: Option<PerformanceDetail>,
    risk: Option<RiskDetail>)

  const EmptyDetail := StateDetail(None, None, None, None, None)

  datatype Record = Record(configVersion: int, isRunning: bool, detail: StateDetail)

  predicate CircuitBlocked(d: StateDetail) {
    d.risk.Some? && d.risk.value.circuit.Some? && d.risk.value.circuit.value.blocked
  }

  /** The pause has no end or its end lies ahead. */
  predicate PauseInForce(d: StateDetail, now: Time) {
    d.pause.Some? && (d.pause.value.until.None? || d.pause.value.until.value > now)
  }

  /** The lifecycle state a record stands for, as both readers of the store derive it. */
  function StateOf(r: Record, now: Time): TraderState {
    if PauseInForce(r.detail, now) || CircuitBlocked(r.detail) then Paused
    else if r.isRunning then Running
    else Stopped
  }

  function DailyOf(d: StateDetail): Option<DailyRisk.Detail> {
    if d.risk.Some? then d.risk.value.daily else None
  }
}
