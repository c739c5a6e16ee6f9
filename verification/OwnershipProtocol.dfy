/**
 Symbol ownership under every interleaving of the manager's critical sections.

 Assigning a position is one critical section: the index lock is held while the trader lock is
 taken. Releasing is two: the index entry is deleted under the index lock, which is dropped
 before the book entry is deleted under the trader lock. A release keeps the trader object it
 looked up, so objects and trader ids are kept apart here.
 */
module OwnershipProtocol {

  type Object = nat

  datatype Trader = Trader(id: string, book: set<string>)

  /** The first half of a release has run and its second half, on this object, has not. */
  datatype InFlight = InFlight(trader: Object, key: string)

  datatype State = State(
    objects: map<Object, Trader>,
    traders: map<string, Object>,
    owners: map<string, string>,
    inFlight: multiset<InFlight>)

  datatype Step =
    | Register(id: string, created: Object)
    | Unregister(id: string)
    | Assign(trader: Object, key: string)
    | ReleaseBegin(id: string, key: string)
    | ReleaseEnd(release: InFlight)

  const Initial := State(map[], map[], map[], multiset{})

  /** A registration needs a non-empty, unused id and creates its object; an assignment may use
      any object, registered or not; symbols are normalised and non-empty. */
  predicate Enabled(s: State, step: Step) {
    match step
    case Register(id, created) => id != "" && id !in s.traders && created !in s.objects
    case Unregister(id) => id in s.traders
    case Assign(trader, key) => trader in s.objects && key != ""
    case ReleaseBegin(id, key) => key != ""
    case ReleaseEnd(release) => release in s.inFlight && release.trader in s.objects
  }

  /** Lookup in the index, where a missing entry reads as the empty id. */
  function OwnerOf(s: State, key: string): string {
    if key in s.owners then s.owners[key] else ""
  }

  function Next(s: State, step: Step): State
    requires Enabled(s, step)
  {
    match step
    case Register(id, created) =>
      s.(objects := s.objects[created := Trader(id, {})], traders := s.traders[id := created])
    case Unregister(id) =>
      s.(traders := s.traders - {id})
    case Assign(trader, key) =>
      var t := s.objects[trader];
      if key in s.owners && s.owners[key] != t.id then s
      else s.(objects := s.objects[trader := t.(book := t.book + {key})], owners := s.owners[key := t.id])
    case ReleaseBegin(id, key) =>
      if OwnerOf(s, key) != "" && OwnerOf(s, key) != id then s
      else
        var s' := s.(owners := s.owners - {key});
        if id !in s.traders then s'
        else s'.(inFlight := s.inFlight + multiset{InFlight(s.traders[id], key)})
    case ReleaseEnd(release) =>
      var t := s.objects[release.trader];
      s.(objects := s.objects[release.trader := t.(book := t.book - {release.key})],
         inFlight := s.inFlight - multiset{release})
  }

  /** Registered ids name live objects that carry that id. */
  predicate WellFormed(s: State) {
    && (forall id :: id in s.traders ==> id != "" && s.traders[id] in s.objects && s.objects[s.traders[id]].id == id)
    && (forall r :: r in s.inFlight ==> r.trader in s.objects)
  }

  predicate Holds(s: State, id: string, key: string)
    requires WellFormed(s)
  {
    id in s.traders && key in s.objects[s.traders[id]].book
  }

  predicate Releasing(s: State, id: string, key: string) {
    id in s.traders && InFlight(s.traders[id], key) in s.inFlight
  }

  /** A symbol in a registered trader's book is indexed to that trader or is being released by it. */
  ghost predicate BooksCovered(s: State) {
    && WellFormed(s)
    && forall id, key :: Holds(s, id, key) ==> OwnerOf(s, key) == id || Releasing(s, id, key)
  }

  /* Every run. */

  predicate Valid(s: State, steps: seq<Step>)
    decreases |steps|
  {
    steps == [] || (Enabled(s, steps[0]) && Valid(Next(s, steps[0]), steps[1..]))
  }

  function Run(s: State, steps: seq<Step>): State
    requires Valid(s, steps)
    decreases |steps|
  {
    if steps == [] then s else Run(Next(s, steps[0]), steps[1..])
  }

  lemma NextKeepsWellFormed(s: State, step: Step)
    requires WellFormed(s) && Enabled(s, step)
    ensures WellFormed(Next(s, step))
  {
    var t := Next(s, step);
    IdsStay(s, step);
    forall id | id in t.traders
      ensures id != "" && t.traders[id] in t.objects && t.objects[t.traders[id]].id == id
    {
      assert id in s.traders || (step.Register? && id == step.id);
    }
    FlightsAreLive(s, step);
  }

  /** No step forgets an object or renames it. */
  lemma IdsStay(s: State, step: Step)
    requires WellFormed(s) && Enabled(s, step)
    ensures forall o :: o in s.objects ==> o in Next(s, step).objects && Next(s, step).objects[o].id == s.objects[o].id
  {
    match step
    case Register(_, _) =>
    case Unregister(_) =>
    case Assign(_, _) =>
    case ReleaseBegin(_, _) =>
    case ReleaseEnd(_) =>
  }

  lemma FlightsAreLive(s: State, step: Step)
    requires WellFormed(s) && Enabled(s, step)
    ensures forall r :: r in Next(s, step).inFlight ==> r.trader in Next(s, step).objects
  {
    IdsStay(s, step);
    var t := Next(s, step);
    forall r | r in t.inFlight
      ensures r.trader in t.objects
    {
      match step
      case ReleaseBegin(id, key) =>
        assert r in s.inFlight || (id in s.traders && r == InFlight(s.traders[id], key));
      case _ =>
        assert r in s.inFlight;
    }
  }

  lemma NextKeepsBooksCovered(s: State, step: Step)
    requires BooksCovered(s) && Enabled(s, step)
    ensures BooksCovered(Next(s, step))
  {
    NextKeepsWellFormed(s, step);
    var s' := Next(s, step);
    forall id, key | Holds(s', id, key)
      ensures OwnerOf(s', key) == id || Releasing(s', id, key)
    {
      StaysCovered(s, step, id, key);
    }
  }

  lemma StaysCovered(s: State, step: Step, id: string, key: string)
    requires WellFormed(s) && Enabled(s, step) && WellFormed(Next(s, step))
    requires Holds(s, id, key) ==> OwnerOf(s, key) == id || Releasing(s, id, key)
    requires Holds(Next(s, step), id, key)
    ensures OwnerOf(Next(s, step), key) == id || Releasing(Next(s, step), id, key)
  {
    HeldBefore(s, step, id, key);
    match step
    case Register(id', created) =>
      assert id' != id;
    case Unregister(id') =>
    case Assign(trader, key') => CoveredThroughAssign(s, trader, key', id, key);
    case ReleaseBegin(id', key') => CoveredThroughBegin(s, id', key', id, key);
    case ReleaseEnd(release) => CoveredThroughEnd(s, release, id, key);
  }

  lemma CoveredThroughAssign(s: State, trader: Object, key': string, id: string, key: string)
    requires WellFormed(s) && Enabled(s, Assign(trader, key')) && id in s.traders
    requires OwnerOf(s, key) == id || Releasing(s, id, key) ||
             (key == key' && s.traders[id] == trader && (key in s.owners ==> s.owners[key] == id))
    ensures var t := Next(s, Assign(trader, key')); OwnerOf(t, key) == id || Releasing(t, id, key)
  {
  }

  lemma CoveredThroughBegin(s: State, id': string, key': string, id: string, key: string)
    requires WellFormed(s) && Enabled(s, ReleaseBegin(id', key')) && id in s.traders
    requires OwnerOf(s, key) == id || Releasing(s, id, key)
    ensures var t := Next(s, ReleaseBegin(id', key')); OwnerOf(t, key) == id || Releasing(t, id, key)
  {
  }

  lemma CoveredThroughEnd(s: State, release: InFlight, id: string, key: string)
    requires WellFormed(s) && Enabled(s, ReleaseEnd(release)) && WellFormed(Next(s, ReleaseEnd(release)))
    requires (OwnerOf(s, key) == id || Releasing(s, id, key)) && Holds(Next(s, ReleaseEnd(release)), id, key)
    ensures var t := Next(s, ReleaseEnd(release)); OwnerOf(t, key) == id || Releasing(t, id, key)
  {
  }

  lemma {:induction false} RunKeepsBooksCovered(s: State, steps: seq<Step>)
    requires BooksCovered(s) && Valid(s, steps)
    ensures BooksCovered(Run(s, steps))
    decreases |steps|
  {
    if steps != [] {
      NextKeepsBooksCovered(s, steps[0]);
      RunKeepsBooksCovered(Next(s, steps[0]), steps[1..]);
    }
  }

  /** In every reachable state a held symbol is indexed to its holder or is being released by it;
      so while no release of the symbol is in flight, at most one registered trader holds it. */
  lemma HoldersAreIndexed(steps: seq<Step>, id: string, key: string)
    requires Valid(Initial, steps)
    ensures WellFormed(Run(Initial, steps))
    ensures var s := Run(Initial, steps);
      Holds(s, id, key) ==>
        && (OwnerOf(s, key) == id || Releasing(s, id, key))
        && (forall other :: other != id && Holds(s, other, key) ==> Releasing(s, id, key) || Releasing(s, other, key))
  {
    RunKeepsBooksCovered(Initial, steps);
  }

  /* Sole holders. */

  ghost predicate SoleHolders(s: State)
    requires WellFormed(s)
  {
    forall a, b, key :: Holds(s, a, key) && Holds(s, b, key) ==> a == b
  }

  /** An assignment that takes effect, to a registered object, of a symbol that another registered trader
      still holds. */
  ghost predicate Doubles(s: State, step: Step)
    requires WellFormed(s) && Enabled(s, step)
  {
    step.Assign? &&
    var id := s.objects[step.trader].id;
    && (step.key in s.owners ==> s.owners[step.key] == id)
    && id in s.traders && s.traders[id] == step.trader
    && exists other :: other != id && Holds(s, other, step.key)
  }

  /** A second holder appears exactly by such an assignment, and the first holder is then releasing. */
  lemma SoleHoldersSurviveIff(s: State, step: Step)
    requires BooksCovered(s) && SoleHolders(s) && Enabled(s, step)
    ensures WellFormed(Next(s, step))
    ensures SoleHolders(Next(s, step)) <==> !Doubles(s, step)
    ensures Doubles(s, step) ==>
      forall other :: Holds(s, other, step.key) && other != s.objects[step.trader].id ==> Releasing(s, other, step.key)
  {
    NextKeepsWellFormed(s, step);
    var t := Next(s, step);
    if Doubles(s, step) {
      var id := s.objects[step.trader].id;
      var other :| other != id && Holds(s, other, step.key);
      assert Holds(t, id, step.key) && Holds(t, other, step.key);
    } else {
      forall a, b, key | Holds(t, a, key) && Holds(t, b, key)
        ensures a == b
      {
        HeldBefore(s, step, a, key);
        HeldBefore(s, step, b, key);
      }
    }
  }

  /** A book grows only by an assignment to its own object. */
  lemma HeldBefore(s: State, step: Step, id: string, key: string)
    requires WellFormed(s) && Enabled(s, step) && WellFormed(Next(s, step)) && Holds(Next(s, step), id, key)
    ensures Holds(s, id, key) ||
      (step.Assign? && key == step.key && id in s.traders && s.traders[id] == step.trader &&
       (key in s.owners ==> s.owners[key] == id))
  {
    match step
    case Register(_, _) =>
    case Unregister(_) =>
    case Assign(_, _) =>
    case ReleaseBegin(_, _) =>
    case ReleaseEnd(_) =>
  }

  ghost predicate NeverDoubles(s: State, steps: seq<Step>)
    requires BooksCovered(s) && Valid(s, steps)
    decreases |steps|
  {
    steps == [] ||
    (NextKeepsBooksCovered(s, steps[0]);
     !Doubles(s, steps[0]) && NeverDoubles(Next(s, steps[0]), steps[1..]))
  }

  /** Over a run without such an assignment, every symbol has one holder at most. */
  lemma {:induction false} SoleHoldersRun(s: State, steps: seq<Step>)
    requires BooksCovered(s) && SoleHolders(s) && Valid(s, steps) && NeverDoubles(s, steps)
    ensures WellFormed(Run(s, steps)) && SoleHolders(Run(s, steps))
    decreases |steps|
  {
    if steps != [] {
      NextKeepsBooksCovered(s, steps[0]);
      SoleHoldersSurviveIff(s, steps[0]);
      SoleHoldersRun(Next(s, steps[0]), steps[1..]);
    }
  }

  /* The other direction: an index entry of a registered trader is backed by its book. */

  /** Index and books say the same, and a release in flight has no index entry of its trader. */
  ghost predicate Agrees(s: State) {
    && BooksCovered(s)
    && (forall id, key :: id in s.traders && OwnerOf(s, key) == id ==> Holds(s, id, key))
    && (forall id, key :: Releasing(s, id, key) ==> OwnerOf(s, key) != id)
  }

  /** What a step must respect for the agreement to survive: no registration under an id that the
      index still names, and no assignment of a free symbol to a superseded object of a registered
      id, nor to a trader that is just releasing that symbol. */
  ghost predicate Disciplined(s: State, step: Step)
    requires WellFormed(s) && Enabled(s, step)
  {
    match step
    case Register(id, created) => forall key :: OwnerOf(s, key) != id
    case Assign(trader, key) =>
      var id := s.objects[trader].id;
      key in s.owners || id !in s.traders || (s.traders[id] == trader && !Releasing(s, id, key))
    case _ => true
  }

  /** Agreement survives a step exactly when the step is disciplined. */
  lemma AgreementSurvivesIff(s: State, step: Step)
    requires Agrees(s) && Enabled(s, step)
    ensures Agrees(Next(s, step)) <==> Disciplined(s, step)
  {
    var s' := Next(s, step);
    NextKeepsBooksCovered(s, step);
    match step
    case Register(id, created) =>
      if key :| OwnerOf(s, key) == id {
        assert OwnerOf(s', key) == id && !Holds(s', id, key);
      } else {
        assert Agrees(s') by { KeptByRegister(s, id, created); }
      }
    case Unregister(id) =>
      assert Agrees(s') by { KeptByUnregister(s, id); }
    case Assign(trader, key) =>
      var id := s.objects[trader].id;
      if Disciplined(s, step) {
        KeptByAssign(s, trader, key);
      } else {
        assert OwnerOf(s', key) == id && OwnerOf(s, key) != id by { NotOwnedBefore(s, key, id); }
        if s.traders[id] == trader {
          assert Releasing(s', id, key);
        } else if Holds(s', id, key) {
          assert Holds(s, id, key);
          assert Releasing(s', id, key);
        }
      }
    case ReleaseBegin(id, key) =>
      KeptByReleaseBegin(s, id, key);
    case ReleaseEnd(release) =>
      KeptByReleaseEnd(s, release);
  }

  lemma NotOwnedBefore(s: State, key: string, id: string)
    requires WellFormed(s) && key !in s.owners && id in s.traders
    ensures OwnerOf(s, key) != id
  {
  }

  lemma KeptByRegister(s: State, id: string, created: Object)
    requires Agrees(s) && Enabled(s, Register(id, created)) && forall key :: OwnerOf(s, key) != id
    ensures Agrees(Next(s, Register(id, created)))
  {
    var s' := Next(s, Register(id, created));
    NextKeepsBooksCovered(s, Register(id, created));
    forall id', key | id' in s'.traders && OwnerOf(s', key) == id'
      ensures Holds(s', id', key)
    {
      assert OwnerOf(s, key) == id';
      assert Holds(s, id', key);
    }
    forall id', key | Releasing(s', id', key)
      ensures OwnerOf(s', key) != id'
    {
      if id' != id {
        assert Releasing(s, id', key);
      }
    }
  }

  lemma KeptByUnregister(s: State, id: string)
    requires Agrees(s) && Enabled(s, Unregister(id))
    ensures Agrees(Next(s, Unregister(id)))
  {
    var s' := Next(s, Unregister(id));
    NextKeepsBooksCovered(s, Unregister(id));
    forall id', key | id' in s'.traders && OwnerOf(s', key) == id'
      ensures Holds(s', id', key)
    {
      assert Holds(s, id', key);
    }
    forall id', key | Releasing(s', id', key)
      ensures OwnerOf(s', key) != id'
    {
      assert Releasing(s, id', key);
    }
  }

  lemma KeptByAssign(s: State, trader: Object, key: string)
    requires Agrees(s) && Enabled(s, Assign(trader, key)) && Disciplined(s, Assign(trader, key))
    ensures Agrees(Next(s, Assign(trader, key)))
  {
    var s' := Next(s, Assign(trader, key));
    NextKeepsBooksCovered(s, Assign(trader, key));
    forall id', key' | id' in s'.traders && OwnerOf(s', key') == id'
      ensures Holds(s', id', key')
    {
      if OwnerOf(s, key') == id' {
        assert Holds(s, id', key');
      }
    }
    forall id', key' | Releasing(s', id', key')
      ensures OwnerOf(s', key') != id'
    {
      assert Releasing(s, id', key');
      assert OwnerOf(s, key') != id';
    }
  }

  lemma KeptByReleaseBegin(s: State, id: string, key: string)
    requires Agrees(s) && Enabled(s, ReleaseBegin(id, key))
    ensures Agrees(Next(s, ReleaseBegin(id, key)))
  {
    var s' := Next(s, ReleaseBegin(id, key));
    NextKeepsBooksCovered(s, ReleaseBegin(id, key));
    forall id', key' | id' in s'.traders && OwnerOf(s', key') == id'
      ensures Holds(s', id', key')
    {
      assert OwnerOf(s, key') == id';
      assert Holds(s, id', key');
    }
    forall id', key' | Releasing(s', id', key')
      ensures OwnerOf(s', key') != id'
    {
      if Releasing(s, id', key') {
        assert OwnerOf(s, key') != id';
      } else {
        assert key' == key;
      }
    }
  }

  lemma KeptByReleaseEnd(s: State, release: InFlight)
    requires Agrees(s) && Enabled(s, ReleaseEnd(release))
    ensures Agrees(Next(s, ReleaseEnd(release)))
  {
    var s' := Next(s, ReleaseEnd(release));
    NextKeepsBooksCovered(s, ReleaseEnd(release));
    forall id', key' | id' in s'.traders && OwnerOf(s', key') == id'
      ensures Holds(s', id', key')
    {
      assert OwnerOf(s, key') == id';
      assert Holds(s, id', key');
      if s.traders[id'] == release.trader && key' == release.key {
        assert Releasing(s, id', key');
      }
    }
    forall id', key' | Releasing(s', id', key')
      ensures OwnerOf(s', key') != id'
    {
      assert Releasing(s, id', key');
    }
  }

  /** Every step of the run is disciplined in the state it is taken in. */
  ghost predicate DisciplinedRun(s: State, steps: seq<Step>)
    requires BooksCovered(s) && Valid(s, steps)
    decreases |steps|
  {
    steps == [] ||
    (NextKeepsBooksCovered(s, steps[0]);
     Disciplined(s, steps[0]) && DisciplinedRun(Next(s, steps[0]), steps[1..]))
  }

  /** A disciplined run ends with index and books in agreement, and with none in flight they are
      inverse to each other on the registered traders. */
  lemma {:induction false} DisciplinedRunAgrees(s: State, steps: seq<Step>)
    requires Agrees(s) && Valid(s, steps) && DisciplinedRun(s, steps)
    ensures var s' := Run(s, steps);
      && Agrees(s')
      && (s'.inFlight == multiset{} ==>
            forall id, key :: id in s'.traders ==> (Holds(s', id, key) <==> OwnerOf(s', key) == id))
    decreases |steps|
  {
    if steps != [] {
      AgreementSurvivesIff(s, steps[0]);
      DisciplinedRunAgrees(Next(s, steps[0]), steps[1..]);
    }
  }

  /** The bad interleaving: an assignment between the halves of a release leaves an index entry with
      no book behind it and nothing in flight to remove it. */
  lemma ReassignDuringReleaseLeavesStaleEntry(id: string, key: string)
    requires id != "" && key != ""
    ensures var steps :=
      [Register(id, 0), Assign(0, key), ReleaseBegin(id, key), Assign(0, key), ReleaseEnd(InFlight(0, key))];
      && Valid(Initial, steps)
      && var s := Run(Initial, steps);
         WellFormed(s) && s.inFlight == multiset{} && OwnerOf(s, key) == id && id in s.traders && !Holds(s, id, key)
  {
    var steps := [Register(id, 0), Assign(0, key), ReleaseBegin(id, key), Assign(0, key), ReleaseEnd(InFlight(0, key))];
    hide Valid, Run, Next;
    var flight := InFlight(0, key);
    var s1 := State(map[0 := Trader(id, {})], map[id := 0], map[], multiset{});
    var s2 := s1.(objects := map[0 := Trader(id, {key})], owners := map[key := id]);
    var s3 := s2.(owners := map[], inFlight := multiset{flight});
    var s4 := s3.(owners := map[key := id]);
    var s5 := s1.(owners := map[key := id]);
    Registers(Initial, id, 0, s1);
    Assigns(s1, 0, key, s2);
    Begins(s2, id, key, s3);
    Assigns(s3, 0, key, s4);
    Ends(s4, flight, s5);
    RunOf5(Initial, steps, s1, s2, s3, s4, s5);
  }

  /* One step from one given state to another. */

  lemma Registers(s: State, id: string, o: Object, t: State)
    requires id != "" && id !in s.traders && o !in s.objects
    requires t == s.(objects := s.objects[o := Trader(id, {})], traders := s.traders[id := o])
    ensures Enabled(s, Register(id, o)) && Next(s, Register(id, o)) == t
  {
  }

  lemma Assigns(s: State, o: Object, key: string, t: State)
    requires o in s.objects && key != "" && key !in s.owners && t.objects.Keys == s.objects.Keys
    requires t.objects[o] == s.objects[o].(book := t.objects[o].book) && t.objects[o].book == s.objects[o].book + {key}
    requires forall p :: p in s.objects && p != o ==> t.objects[p] == s.objects[p]
    requires t.traders == s.traders && t.inFlight == s.inFlight && t.owners == s.owners[key := s.objects[o].id]
    ensures Enabled(s, Assign(o, key)) && Next(s, Assign(o, key)) == t
  {
    assert t.objects == s.objects[o := t.objects[o]];
  }

  lemma Begins(s: State, id: string, key: string, t: State)
    requires key in s.owners && s.owners[key] == id && key != "" && id in s.traders
    requires t.objects == s.objects && t.traders == s.traders && t.owners == s.owners - {key}
    requires t.inFlight == s.inFlight + multiset{InFlight(s.traders[id], key)}
    ensures Enabled(s, ReleaseBegin(id, key)) && Next(s, ReleaseBegin(id, key)) == t
  {
  }

  lemma Ends(s: State, flight: InFlight, t: State)
    requires flight in s.inFlight && flight.trader in s.objects && t.objects.Keys == s.objects.Keys
    requires t.objects[flight.trader].id == s.objects[flight.trader].id
    requires t.objects[flight.trader].book == s.objects[flight.trader].book - {flight.key}
    requires forall p :: p in s.objects && p != flight.trader ==> t.objects[p] == s.objects[p]
    requires t.traders == s.traders && t.owners == s.owners && t.inFlight == s.inFlight - multiset{flight}
    ensures Enabled(s, ReleaseEnd(flight)) && Next(s, ReleaseEnd(flight)) == t
  {
    assert t.objects == s.objects[flight.trader := t.objects[flight.trader]];
  }

  /** While a release is in flight another trader can take the symbol, so two books hold it. */
  lemma TwoHoldersDuringRelease(a: string, b: string, key: string)
    requires a != "" && b != "" && a != b && key != ""
    ensures var steps := [Register(a, 0), Register(b, 1), Assign(0, key), ReleaseBegin(a, key), Assign(1, key)];
      && Valid(Initial, steps)
      && var s := Run(Initial, steps);
         WellFormed(s) && Holds(s, a, key) && Holds(s, b, key) && OwnerOf(s, key) == b && Releasing(s, a, key)
  {
    var steps := [Register(a, 0), Register(b, 1), Assign(0, key), ReleaseBegin(a, key), Assign(1, key)];
    hide Valid, Run, Next;
    var flight := InFlight(0, key);
    var s1 := State(map[0 := Trader(a, {})], map[a := 0], map[], multiset{});
    var s2 := State(map[0 := Trader(a, {}), 1 := Trader(b, {})], map[a := 0, b := 1], map[], multiset{});
    var s3 := s2.(objects := map[0 := Trader(a, {key}), 1 := Trader(b, {})], owners := map[key := a]);
    var s4 := s3.(owners := map[], inFlight := multiset{flight});
    var s5 := s4.(objects := map[0 := Trader(a, {key}), 1 := Trader(b, {key})], owners := map[key := b]);
    Registers(Initial, a, 0, s1);
    Registers(s1, b, 1, s2);
    Assigns(s2, 0, key, s3);
    Begins(s3, a, key, s4);
    Assigns(s4, 1, key, s5);
    RunOf5(Initial, steps, s1, s2, s3, s4, s5);
  }

  lemma RunOf5(s0: State, steps: seq<Step>, s1: State, s2: State, s3: State, s4: State, s5: State)
    requires |steps| == 5
    requires Enabled(s0, steps[0]) && s1 == Next(s0, steps[0])
    requires Enabled(s1, steps[1]) && s2 == Next(s1, steps[1])
    requires Enabled(s2, steps[2]) && s3 == Next(s2, steps[2])
    requires Enabled(s3, steps[3]) && s4 == Next(s3, steps[3])
    requires Enabled(s4, steps[4]) && s5 == Next(s4, steps[4])
    ensures Valid(s0, steps) && Run(s0, steps) == s5
  {
    hide Enabled, Next;
    var t1 := steps[1..];
    var t2 := t1[1..];
    var t3 := t2[1..];
    var t4 := t3[1..];
    var t5 := t4[1..];
    assert t5 == [];
    assert Valid(s5, t5) && Run(s5, t5) == s5;
    assert t4[0] == steps[4] && Valid(s4, t4) && Run(s4, t4) == s5;
    assert t3[0] == steps[3] && Valid(s3, t3) && Run(s3, t3) == s5;
    assert t2[0] == steps[2] && Valid(s2, t2) && Run(s2, t2) == s5;
    assert t1[0] == steps[1] && Valid(s1, t1) && Run(s1, t1) == s5;
  }
}
