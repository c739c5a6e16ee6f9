/**
 Control commands that overlap. A command reads the current state, persists the next one and records
 it in memory; the plane's lock is held for neither the whole nor the persist, so the sections of
 different commands interleave. This is about the commands of one trader.
 */
module ControlRace {
  import opened Clock
  import opened ControlPlane
  import opened Options
  import opened RuntimeStore

  /** A command that has decided on its next state, and then persisted it. */
  datatype Flight = Decided(next: Snapshot) | Written(next: Snapshot)

  /** `stored` is the snapshot last persisted, unless somebody else wrote since; `writer` and `recorder`
      are the commands that persisted and recorded last. */
  datatype State = State(
    memory: Option<Snapshot>, store: Option<Record>, flying: map<nat, Flight>, begun: nat,
    stored: Option<Snapshot>, writer: Option<nat>, recorder: Option<nat>)

  function Initial(store: Option<Record>): State {
    State(None, store, map[], 0, None, None, None)
  }

  datatype Step =
    | Begin(version: int, req: Request, action: Action, now: Time)
    | Persist(command: nat)
    | Remember(command: nat)
    | Fail(command: nat)                 // the store refused
    | Restart
    | ForeignWrite(record: Record)

  /** Memory first, then the store, then a stopped trader. */
  function Current(s: State, version: int, now: Time): Snapshot {
    if s.memory.Some? then s.memory.value
    else if s.store.Some? then Recovered(s.store.value, now)
    else Snapshot(Stopped, version, None, "", "", "", None)
  }

  predicate Enabled(s: State, step: Step) {
    match step
    case Begin(version, req, action, now) => NextState(Current(s, version, now), version, req, action).Ok?
    case Persist(c) => c in s.flying && s.flying[c].Decided?
    case Remember(c) => c in s.flying && s.flying[c].Written?
    case Fail(c) => c in s.flying && s.flying[c].Decided?
    case Restart => true
    case ForeignWrite(_) => true
  }

  function Next(s: State, step: Step): State
    requires Enabled(s, step)
  {
    match step
    case Begin(version, req, action, now) =>
      var next := NextState(Current(s, version, now), version, req, action).value;
      s.(flying := s.flying[s.begun := Decided(next)], begun := s.begun + 1)
    case Persist(c) =>
      var next := s.flying[c].next;
      s.(store := Some(Persisted(s.store, next)), flying := s.flying[c := Written(next)], stored := Some(next),
         writer := Some(c))
    case Remember(c) => s.(memory := Some(s.flying[c].next), flying := s.flying - {c}, recorder := Some(c))
    case Fail(c) => s.(flying := s.flying - {c})
    case Restart => s.(memory := None, flying := map[], recorder := None)
    case ForeignWrite(r) => s.(store := Some(r), stored := None, writer := None)
  }

  predicate Valid(s: State, steps: seq<Step>)
    decreases |steps|
  {
    steps == [] || (Enabled(s, steps[0]) && Valid(Next(s, steps[0]), steps[1..]))
  }

  function Run(s: State, steps: seq<Step>): State
    requires Valid(s, steps)
    decreases |steps|
  {
    if steps == [] then s else Run(Next(s, steps[0]), steps[1..])
  }

  /** What every step keeps: recorded snapshots everywhere, the store as the last persist left it, and a
      command that persisted and recorded last left the same in both. */
  ghost predicate Kept(s: State) {
    && (s.memory.Some? ==> Recorded(s.memory.value))
    && (forall c :: c in s.flying ==> c < s.begun && Recorded(s.flying[c].next))
    && (s.stored.Some? <==> s.writer.Some?)
    && (s.stored.Some? ==> Recorded(s.stored.value) && s.store.Some? && StoredFor(s.store.value, s.stored.value))
    && (s.recorder.Some? <==> s.memory.Some?)
    && (s.writer.Some? ==> s.writer.value < s.begun) && (s.recorder.Some? ==> s.recorder.value < s.begun)
    && (s.recorder.Some? ==> s.recorder.value !in s.flying)
    && (s.writer.Some? && s.writer.value in s.flying ==> s.flying[s.writer.value] == Written(s.stored.value))
    && (s.writer.Some? && s.writer == s.recorder ==> s.stored == s.memory)
  }

  lemma NextKeeps(s: State, step: Step)
    requires Kept(s) && Enabled(s, step)
    ensures Kept(Next(s, step))
  {
    hide Persisted, Recorded, StoredFor, NextState;
    match step
    case Begin(version, req, action, now) =>
      NextStateRecorded(Current(s, version, now), version, req, action);
    case Persist(c) =>
      PersistedIsStored(s.store, s.flying[c].next);
    case Remember(_) =>
    case Fail(_) =>
    case Restart =>
    case ForeignWrite(_) =>
  }

  lemma {:induction false} RunKeeps(s: State, steps: seq<Step>)
    requires Kept(s) && Valid(s, steps)
    ensures Kept(Run(s, steps))
    decreases |steps|
  {
    hide Kept, Enabled, Next;
    if steps != [] {
      NextKeeps(s, steps[0]);
      RunKeeps(Next(s, steps[0]), steps[1..]);
    }
  }

  /** Two snapshots that one record shows alike: same version and pause, and the same state, or under a
      blocked circuit just a second one that does not run. */
  predicate Alike(a: Snapshot, b: Snapshot, blocked: bool) {
    && a.configVersion == b.configVersion && a.pauseUntil == b.pauseUntil && a.pauseReason == b.pauseReason
    && if blocked then b.state != Running else a.state == b.state
  }

  lemma SaysIffAlike(r: Record, a: Snapshot, b: Snapshot)
    requires Recorded(a) && Recorded(b) && StoredFor(r, a)
    ensures Says(r, b) <==> Alike(a, b, CircuitBlocked(r.detail))
  {
    var existing :| r == Persisted(existing, a);
    PersistedSays(existing, a);
  }

  /** After any interleaving in which this plane wrote the store last: a restart gives back what memory
      says, up to the two known exceptions, exactly when the snapshot persisted last and the one recorded
      last are alike. They are the same if one command did both last. */
  lemma RestartAfterRaceIff(store: Option<Record>, steps: seq<Step>)
    requires Valid(Initial(store), steps)
    ensures var s := Run(Initial(store), steps);
      && (s.memory.Some? && s.stored.Some? ==>
            && s.store.Some?
            && ((forall now :: RecoversAs(s.store.value, s.memory.value, now))
                <==> Alike(s.stored.value, s.memory.value, CircuitBlocked(s.store.value.detail))))
      && (s.writer.Some? && s.writer == s.recorder ==> s.stored == s.memory)
  {
    hide Alike, RecoversAs, Recorded, StoredFor, Next, Enabled;
    RunKeeps(Initial(store), steps);
    var s := Run(Initial(store), steps);
    if s.memory.Some? && s.stored.Some? {
      RecoversAsIff(s.store.value, s.memory.value);
      SaysIffAlike(s.store.value, s.stored.value, s.memory.value);
    }
  }

  /* Commands that do not overlap. */

  ghost predicate Sequential(s: State, steps: seq<Step>)
    requires Valid(s, steps)
    decreases |steps|
  {
    steps == [] || ((steps[0].Begin? ==> s.flying == map[]) && Sequential(Next(s, steps[0]), steps[1..]))
  }

  /** At most one command is under way, and while it has not persisted, memory is what was stored. */
  ghost predicate InTurn(s: State) {
    && (forall c, d :: c in s.flying && d in s.flying ==> c == d)
    && (forall c :: c in s.flying && s.flying[c].Written? && s.stored.Some? ==> s.stored == Some(s.flying[c].next))
    && ((forall c :: c in s.flying ==> s.flying[c].Decided?) && s.memory.Some? && s.stored.Some? ==>
          s.stored == s.memory)
  }

  lemma {:induction false} SequentialAgrees(s: State, steps: seq<Step>)
    requires InTurn(s) && Valid(s, steps) && Sequential(s, steps)
    ensures InTurn(Run(s, steps))
    decreases |steps|
  {
    if steps != [] {
      InTurnNext(s, steps[0]);
      hide InTurn, Next, Enabled;
      SequentialAgrees(Next(s, steps[0]), steps[1..]);
    }
  }

  lemma InTurnNext(s: State, step: Step)
    requires InTurn(s) && Enabled(s, step) && (step.Begin? ==> s.flying == map[])
    ensures InTurn(Next(s, step))
  {
    hide NextState, Persisted;
    match step
    case Persist(c) =>
      var t := Next(s, step);
      assert c in t.flying && t.flying[c] == Written(s.flying[c].next);
      forall d | d in t.flying
        ensures d == c
      {
        assert d in s.flying;
      }
    case _ =>
  }

  /** Commands one after the other leave memory and store alike, whatever fails or restarts in between. */
  lemma CommandsInTurnAgree(store: Option<Record>, steps: seq<Step>)
    requires Valid(Initial(store), steps) && Sequential(Initial(store), steps)
    ensures var s := Run(Initial(store), steps);
      s.flying == map[] && s.memory.Some? && s.stored.Some? ==> s.stored == s.memory
  {
    hide Next, Enabled;
    SequentialAgrees(Initial(store), steps);
  }

  /** A start and a stop that overlap: the stop persists last and the start records last, so that memory
      says running while a restart finds the trader stopped. */
  lemma OverlapShowsAnotherState(req: Request, now: Time)
    ensures var steps :=
      [Begin(1, req, Start, now), Begin(1, req, Stop, now), Persist(0), Persist(1), Remember(1), Remember(0)];
      && Valid(Initial(None), steps)
      && var s := Run(Initial(None), steps);
      && s.flying == map[] && s.memory.Some? && s.memory.value.state == Running
      && s.store.Some? && Recovered(s.store.value, now).state == Stopped
  {
    var a, b := Begin(1, req, Start, now), Begin(1, req, Stop, now);
    var c, d, e, f := Persist(0), Persist(1), Remember(1), Remember(0);
    var s0 := Initial(None);
    var s1 := Next(s0, a);
    var s2 := Next(s1, b);
    var s3 := Next(s2, c);
    var s4 := Next(s3, d);
    var s5 := Next(s4, e);
    var s6 := Next(s5, f);
    assert s6.flying == map[] && s6.memory.value.state == Running;
    assert Recovered(s6.store.value, now).state == Stopped;
    RunOf6(s0, s1, s2, s3, s4, s5, s6, a, b, c, d, e, f);
  }

  lemma RunOf6(s0: State, s1: State, s2: State, s3: State, s4: State, s5: State, s6: State,
               a: Step, b: Step, c: Step, d: Step, e: Step, f: Step)
    requires Enabled(s0, a) && s1 == Next(s0, a) && Enabled(s1, b) && s2 == Next(s1, b)
    requires Enabled(s2, c) && s3 == Next(s2, c) && Enabled(s3, d) && s4 == Next(s3, d)
    requires Enabled(s4, e) && s5 == Next(s4, e) && Enabled(s5, f) && s6 == Next(s5, f)
    ensures Valid(s0, [a, b, c, d, e, f]) && Run(s0, [a, b, c, d, e, f]) == s6
  {
    hide Enabled, Next;
    assert [f][1..] == [] && [e, f][1..] == [f] && [d, e, f][1..] == [e, f];
    assert [c, d, e, f][1..] == [d, e, f] && [b, c, d, e, f][1..] == [c, d, e, f];
    assert [a, b, c, d, e, f][1..] == [b, c, d, e, f];
    assert Valid(s6, []) && Run(s6, []) == s6;
    assert Valid(s5, [f]) && Run(s5, [f]) == s6;
    assert Valid(s4, [e, f]) && Run(s4, [e, f]) == s6;
    assert Valid(s3, [d, e, f]) && Run(s3, [d, e, f]) == s6;
    assert Valid(s2, [c, d, e, f]) && Run(s2, [c, d, e, f]) == s6;
    assert Valid(s1, [b, c, d, e, f]) && Run(s1, [b, c, d, e, f]) == s6;
  }
}
