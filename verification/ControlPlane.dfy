/**
 The safe control plane: lifecycle commands move a trader's recorded state, which is kept in
 memory and persisted in the runtime store, from which it is recovered when memory has none.
 */
module ControlPlane {
  import opened Clock
  import opened DailyRisk
  import opened Options
  import opened RuntimeStore
  import opened Text

  datatype Action = Start | Stop | Pause | Resume

  /** The request's time after parsing: absent, an instant, or not RFC 3339. */
  datatype Until = NoEnd | At(time: Time) | Malformed

  /** `action` is None for a word that names no control action. */
  datatype Request = Request(traderId: string, action: Option<Action>, requestedBy: string, reason: string,
                             until: Until)

  /** `mayRun` is the execution-mode gate: paper and testnet pass, live needs its acknowledgement. */
  datatype TraderConfig = TraderConfig(id: string, version: int, mayRun: bool)

  datatype Snapshot = Snapshot(
    state: TraderState, configVersion: int, pauseUntil: Option<Time>, pauseReason: string,
    requestedBy: string, reason: string, lastAction: Option<Action>)

  datatype Error =
    | NotConfigured | UnknownTrader | UnsupportedAction | ModeRefused
    | CannotPause | CannotResume | BadTime | StoreFailed

  datatype Result<T> = Ok(value: T) | Err(error: Error)

  /** The snapshot that stands for a stored record. */
  function Recovered(r: Record, now: Time): Snapshot {
    Snapshot(StateOf(r, now), r.configVersion,
             if r.detail.pause.Some? then r.detail.pause.value.until else None,
             if r.detail.pause.Some? then r.detail.pause.value.reason else "",
             "", "", None)
  }

  /** The record that is stored for a snapshot, over what the store already holds for the trader. */
  function Persisted(existing: Option<Record>, snap: Snapshot): Record {
    var was := if existing.Some? then existing.value.detail else EmptyDetail;
    var pause :=
      if snap.state == Paused || snap.pauseUntil.Some? || Trim(snap.pauseReason) != ""
      then Some(PauseDetail(snap.pauseUntil, snap.pauseReason)) else None;
    var risk :=
      if snap.state == Running && was.risk.Some? && was.risk.value.circuit.Some? then
        (if was.risk.value.daily.Some? then Some(RiskDetail(was.risk.value.daily, None)) else None)
      else was.risk;
    Record(snap.configVersion, snap.state == Running, was.(pause := pause, risk := risk))
  }

  /** The transition that a command makes from the current snapshot. */
  function NextState(current: Snapshot, version: int, req: Request, action: Action): Result<Snapshot> {
    var next := Snapshot(current.state, version, current.pauseUntil, current.pauseReason,
                         Trim(req.requestedBy), Trim(req.reason), Some(action));
    match action
    case Start => Ok(next.(state := Running, pauseUntil := None, pauseReason := ""))
    case Stop => Ok(next.(state := Stopped, pauseUntil := None, pauseReason := ""))
    case Pause =>
      if current.state == Stopped then Err(CannotPause)
      else if req.until.Malformed? then Err(BadTime)
      else Ok(next.(state := Paused, pauseUntil := if req.until.At? then Some(req.until.time) else None,
                    pauseReason := Trim(req.reason)))
    case Resume =>
      if current.state == Stopped then Err(CannotResume)
      else Ok(next.(state := Running, pauseUntil := None, pauseReason := ""))
  }

  /** Snapshots that commands produce: pause data exists only in the paused state. */
  predicate Recorded(snap: Snapshot) {
    && !snap.state.Errored?
    && (snap.state != Paused ==> snap.pauseUntil == None && snap.pauseReason == "")
  }

  /** The exact effect of a persist followed by a recover at `now`: everything recorded comes back,
      except that an expired pause without a blocked circuit comes back as stopped and a stop over a
      blocked circuit comes back as paused. */
  function StateAfterRecovery(snap: Snapshot, stored: Record, now: Time): TraderState {
    var expired := snap.pauseUntil.Some? && snap.pauseUntil.value <= now;
    if snap.state == Paused && expired && !CircuitBlocked(stored.detail) then Stopped
    else if snap.state == Stopped && CircuitBlocked(stored.detail) then Paused
    else snap.state
  }

  lemma PersistThenRecover(existing: Option<Record>, snap: Snapshot, now: Time)
    requires Recorded(snap)
    ensures var stored := Persisted(existing, snap);
      var back := Recovered(stored, now);
      && back.state == StateAfterRecovery(snap, stored, now)
      && back.pauseUntil == snap.pauseUntil && back.pauseReason == snap.pauseReason
      && back.configVersion == snap.configVersion
      && (stored.detail.pause.Some? <==> snap.state == Paused)
  {
  }

  /** The snapshot comes back from the record at `now`, up to the two exceptions. */
  predicate RecoversAs(r: Record, snap: Snapshot, now: Time) {
    var back := Recovered(r, now);
    && back.state == StateAfterRecovery(snap, r, now)
    && back.pauseUntil == snap.pauseUntil && back.pauseReason == snap.pauseReason
    && back.configVersion == snap.configVersion
  }

  /** The record says of the trader what the snapshot says: its version, whether it runs, and its pause
      with end and reason. A blocked circuit stands for a pause as well, and under an endless pause it
      does not matter whether the record says running. */
  predicate Says(r: Record, snap: Snapshot) {
    && r.configVersion == snap.configVersion
    && (if r.detail.pause.Some? then r.detail.pause.value == PauseDetail(snap.pauseUntil, snap.pauseReason)
        else snap.pauseUntil == None && snap.pauseReason == "")
    && (if CircuitBlocked(r.detail) then snap.state != Running
        else
          && (snap.state == Paused <==> r.detail.pause.Some?)
          && ((snap.state == Paused && snap.pauseUntil.None?) || (r.isRunning <==> snap.state == Running)))
  }

  /** For any record, whoever wrote it: a recorded snapshot comes back from it at every moment exactly
      when the record says the same. */
  lemma RecoversAsIff(r: Record, snap: Snapshot)
    requires Recorded(snap)
    ensures (forall now :: RecoversAs(r, snap, now)) <==> Says(r, snap)
  {
    var early := if snap.pauseUntil.Some? then snap.pauseUntil.value - 1 else 0;
    var late := if snap.pauseUntil.Some? then snap.pauseUntil.value else 0;
    if forall now :: RecoversAs(r, snap, now) {
      assert RecoversAs(r, snap, early) && RecoversAs(r, snap, late);
    }
  }

  /** What a plane stores says what it knows, so that the pair above is one half of this. */
  lemma PersistedSays(existing: Option<Record>, snap: Snapshot)
    requires Recorded(snap)
    ensures Says(Persisted(existing, snap), snap)
  {
  }

  /** Another writer's record wins: a paused trader is recovered as running from a running record. */
  lemma ForeignRecordWins(snap: Snapshot, r: Record, now: Time)
    requires Recorded(snap) && snap.state == Paused && r.isRunning && r.detail.pause.None? && !CircuitBlocked(r.detail)
    ensures Recovered(r, now).state == Running && !Says(r, snap)
  {
  }

  /** A persist never alters the decision, allocation, performance or daily-risk detail, and clears
      a circuit only when the trader is recorded as running. */
  lemma PersistKeepsTheRest(existing: Option<Record>, snap: Snapshot)
    ensures var was := if existing.Some? then existing.value.detail else EmptyDetail;
      var became := Persisted(existing, snap).detail;
      && became.decision == was.decision && became.allocation == was.allocation && became.performance == was.performance
      && DailyOf(became) == DailyOf(was)
      && (CircuitBlocked(became) <==> CircuitBlocked(was) && snap.state != Running)
  {
  }

  /** Commands only ever record states with pause data confined to the paused one. */
  lemma NextStateRecorded(current: Snapshot, version: int, req: Request, action: Action)
    ensures var next := NextState(current, version, req, action);
      next.Ok? ==> Recorded(next.value) && next.value.lastAction == Some(action) && next.value.configVersion == version
  {
  }

  /** Which transitions there are: a stopped trader can be neither paused nor resumed, and a pause needs a
      readable end. */
  predicate Accepts(state: TraderState, until: Until, action: Action) {
    match action
    case Start => true
    case Stop => true
    case Pause => state != Stopped && !until.Malformed?
    case Resume => state != Stopped
  }

  /** What an accepted command leaves, whatever was before: the state it names, the end and reason of the
      pause for a pause and no pause otherwise, and who asked for it and why. */
  predicate Obeys(snap: Snapshot, req: Request, action: Action) {
    && snap.requestedBy == Trim(req.requestedBy) && snap.reason == Trim(req.reason) && snap.lastAction == Some(action)
    && match action
       case Start => snap.state == Running && snap.pauseUntil == None && snap.pauseReason == ""
       case Resume => snap.state == Running && snap.pauseUntil == None && snap.pauseReason == ""
       case Stop => snap.state == Stopped && snap.pauseUntil == None && snap.pauseReason == ""
       case Pause =>
         && snap.state == Paused && snap.pauseReason == Trim(req.reason)
         && (req.until.At? ==> snap.pauseUntil == Some(req.until.time))
         && (req.until == NoEnd ==> snap.pauseUntil == None)
  }

  lemma NextStateObeys(current: Snapshot, version: int, req: Request, action: Action)
    ensures var next := NextState(current, version, req, action);
      && (next.Ok? <==> Accepts(current.state, req.until, action))
      && (next.Ok? ==> Obeys(next.value, req, action) && next.value.configVersion == version)
  {
    hide Trim;
  }

  /** A stored pause with an end lasts until that end, unless a circuit is blocked. */
  lemma PauseLastsUntil(existing: Option<Record>, snap: Snapshot, req: Request)
    requires Recorded(snap) && Obeys(snap, req, Pause) && req.until.At?
    requires !CircuitBlocked(Persisted(existing, snap).detail)
    ensures forall now :: Recovered(Persisted(existing, snap), now).state == Paused <==> now < req.until.time
  {
    hide Trim;
    forall now
      ensures Recovered(Persisted(existing, snap), now).state == Paused <==> now < req.until.time
    {
      PersistThenRecover(existing, snap, now);
    }
  }

  /** Running is reached by start and resume only, and resume never leaves the stopped state. */
  lemma RunningNeedsStartOrResume(current: Snapshot, version: int, req: Request, action: Action)
    ensures var next := NextState(current, version, req, action);
      && (next.Ok? && next.value.state == Running <==>
            action == Start || (action == Resume && current.state != Stopped))
      && (next.Ok? <==> Accepts(current.state, req.until, action))
  {
  }

  /** A restart in front of a command shows exactly when the command is a pause or a resume and the
      recovered state is one of the two exceptions: an expired pause can then no longer be paused or
      resumed, and a stop over a blocked circuit can. */
  lemma RestartShowsIff(existing: Option<Record>, snap: Snapshot, now: Time, version: int, req: Request, action: Action)
    requires Recorded(snap)
    ensures var stored := Persisted(existing, snap);
      NextState(Recovered(stored, now), version, req, action) == NextState(snap, version, req, action)
      <==> action in {Start, Stop} || StateAfterRecovery(snap, stored, now) == snap.state
  {
  }

  /** The record is one that a plane stores for the snapshot. */
  ghost predicate StoredFor(r: Record, snap: Snapshot) {
    exists existing :: r == Persisted(existing, snap)
  }

  lemma PersistedIsStored(existing: Option<Record>, snap: Snapshot)
    ensures StoredFor(Persisted(existing, snap), snap)
  {
  }

  /** The first configured trader with a non-empty id. */
  function FirstNamed(traders: seq<TraderConfig>, id: string): Option<TraderConfig> {
    if id == "" || traders == [] then None
    else if traders[0].id == id then Some(traders[0])
    else FirstNamed(traders[1..], id)
  }

  lemma {:induction false} FirstNamedIs(traders: seq<TraderConfig>, id: string)
    ensures FirstNamed(traders, id).None? <==> id == "" || forall i :: 0 <= i < |traders| ==> traders[i].id != id
    ensures FirstNamed(traders, id).Some? ==>
      FirstNamed(traders, id).value in traders && FirstNamed(traders, id).value.id == id
  {
    if traders != [] {
      FirstNamedIs(traders[1..], id);
    }
  }

  lemma {:induction false} FirstNamedAt(traders: seq<TraderConfig>, id: string, i: nat)
    requires i < |traders| && traders[i].id == id != "" && forall k :: 0 <= k < i ==> traders[k].id != id
    ensures FirstNamed(traders, id) == Some(traders[i])
  {
    if i > 0 {
      FirstNamedAt(traders[1..], id, i - 1);
    }
  }

  class Plane {
    const configured: bool
    const traders: seq<TraderConfig>
    const hasStore: bool
    var states: map<string, Snapshot>
    var store: map<string, Record>

    /** The traders whose stored record this plane wrote last. */
    ghost var ours: set<string>

    /** Every state in memory was recorded by a command. The store is shared: only for the traders it
        wrote last does the plane know what is in there. */
    ghost predicate Valid()
      reads this
    {
      && (forall id :: id in states ==> Recorded(states[id]))
      && (hasStore || ours == {})
      && (forall id :: id in ours ==> id in states && id in store && StoredFor(store[id], states[id]))
    }

    constructor (configured: bool, traders: seq<TraderConfig>, hasStore: bool, store: map<string, Record>)
      ensures Valid() && states == map[] && this.store == store && ours == {}
      ensures this.configured == configured && this.traders == traders && this.hasStore == hasStore
    {
      this.configured, this.traders, this.hasStore, this.store := configured, traders, hasStore, store;
      states := map[];
      ours := {};
    }

    /** Another process, such as a trading manager that persists its trader, writes the same store. */
    method ForeignWrite(id: string, record: Record)
      requires Valid()
      modifies `store, `ours
      ensures Valid() && store == old(store)[id := record] && ours == old(ours) - {id}
    {
      store := store[id := record];
      ours := ours - {id};
    }

    /** The first configured trader with this id. */
    method FindTrader(id: string) returns (found: Option<TraderConfig>)
      ensures found == FirstNamed(traders, id)
    {
      FirstNamedIs(traders, id);
      if id == "" {
        return None;
      }
      for i := 0 to |traders|
        invariant forall k :: 0 <= k < i ==> traders[k].id != id
      {
        if traders[i].id == id {
          FirstNamedAt(traders, id, i);
          return Some(traders[i]);
        }
      }
      return None;
    }

    /** Memory first, then the store, then a stopped trader that nobody has commanded yet. */
    function Current(t: TraderConfig, loadFails: bool, now: Time): Snapshot
      reads this
    {
      if t.id in states then states[t.id]
      else if hasStore && !loadFails && t.id in store then Recovered(store[t.id], now)
      else Snapshot(Stopped, t.version, None, "", "", "", None)
    }

    /** Handles one command. `loadFails`, `readFails` and `writeFails` are the replies of the store to
        the lookup of the current state, the read before the write, and the write. */
    method Handle(req: Request, now: Time, loadFails: bool, readFails: bool, writeFails: bool)
      returns (r: Result<Snapshot>)
      requires Valid()
      modifies `states, `store, `ours
      ensures Valid()
      ensures r.Err? ==> states == old(states) && store == old(store) && ours == old(ours)
      ensures r.Ok? ==> ours == if hasStore then old(ours) + {Trim(req.traderId)} else old(ours)
      ensures r.Ok? <==>
        && configured && req.action.Some? && (hasStore ==> !readFails && !writeFails)
        && var t := FirstNamed(traders, Trim(req.traderId));
        && t.Some? && (t.value.mayRun || req.action.value in {Stop, Pause})
        && Accepts(old(Current(t.value, loadFails, now)).state, req.until, req.action.value)
      ensures r.Ok? ==>
        var id := Trim(req.traderId);
        var t := FirstNamed(traders, id);
        && t.Some? && req.action.Some?
        && r == NextState(old(Current(t.value, loadFails, now)), t.value.version, req, req.action.value)
        && Obeys(r.value, req, req.action.value) && r.value.configVersion == t.value.version
        && states == old(states)[id := r.value]
        && store == (if !hasStore then old(store) else
             old(store)[id := Persisted(if id in old(store) then Some(old(store)[id]) else None, r.value)])
      ensures r.Ok? && hasStore && req.action == Some(Pause) && req.until.At? ==>
        var id := Trim(req.traderId);
        && id in store
        && (!CircuitBlocked(store[id].detail) ==>
              forall later :: Recovered(store[id], later).state == Paused <==> later < req.until.time)
    {
      hide Trim, FirstNamed, Persisted, NextState, Recorded, StoredFor, Recovered, Obeys, Accepts, CircuitBlocked;
      FirstNamedIs(traders, Trim(req.traderId));
      var id := Trim(req.traderId);
      if !configured {
        return Err(NotConfigured);
      }
      var found := FindTrader(id);
      if found.None? {
        return Err(UnknownTrader);
      }
      var t := found.value;
      if req.action.None? {
        return Err(UnsupportedAction);
      }
      var action := req.action.value;
      if action == Start || action == Resume {
        if !t.mayRun {
          return Err(ModeRefused);
        }
      }
      var next := NextState(Current(t, loadFails, now), t.version, req, action);
      NextStateObeys(Current(t, loadFails, now), t.version, req, action);
      if next.Err? {
        return next;
      }
      NextStateRecorded(Current(t, loadFails, now), t.version, req, action);
      if hasStore {
        if readFails || writeFails {
          return Err(StoreFailed);
        }
        var existing := if id in store then Some(store[id]) else None;
        store := store[id := Persisted(existing, next.value)];
        PersistedIsStored(existing, next.value);
        if action == Pause && req.until.At? && !CircuitBlocked(store[id].detail) {
          PauseLastsUntil(existing, next.value, req);
        }
        ours := ours + {id};
      }
      states := states[id := next.value];
      return next;
    }

    /** A restart forgets memory. For a trader whose record the plane wrote last, the store gives its
        state back up to the two known exceptions. */
    lemma RestartRecovers(id: string, now: Time)
      requires Valid() && id in ours
      ensures id in store && id in states && RecoversAs(store[id], states[id], now)
    {
    }

    /** Whoever wrote last: a restart gives the state back at every moment exactly when the record says
        what the state in memory would have had stored. */
    lemma RestartRecoversIff(id: string)
      requires Valid() && id in states && id in store
      ensures (forall now :: RecoversAs(store[id], states[id], now)) <==> Says(store[id], states[id])
    {
      RecoversAsIff(store[id], states[id]);
    }
  }
}
