/**
 How a trading cycle orders and caps its decisions: closes first, then opens, then the rest, each by
 symbol, with no more opens than there are free slots.
 */
module DecisionCap {
  import opened Policy
  import opened Sequences
  import opened Text

  function Priority(action: string): nat {
    if IsClose(action) then 0 else if IsOpen(action) then 1 else 2
  }

  predicate Before(a: Decision, b: Decision) {
    Priority(a.action) < Priority(b.action) || (Priority(a.action) == Priority(b.action) && Less(a.symbol, b.symbol))
  }

  lemma NotBeforeTransitive(a: Decision, b: Decision, c: Decision)
    requires !Before(b, a) && !Before(c, b)
    ensures !Before(c, a)
  {
    hide Less;
    if !Less(b.symbol, a.symbol) && !Less(c.symbol, b.symbol) {
      NotLessTransitive(a.symbol, b.symbol, c.symbol);
    }
  }

  /** Puts a decision in front of everything it need not follow. */
  function Insert(d: Decision, s: seq<Decision>): seq<Decision> {
    if s == [] || !Before(s[0], d) then [d] + s else [s[0]] + Insert(d, s[1..])
  }

  function CloseFirst(ds: seq<Decision>): seq<Decision> {
    if ds == [] then [] else Insert(ds[0], CloseFirst(ds[1..]))
  }

  ghost predicate Ordered(s: seq<Decision>) {
    forall i, j :: 0 <= i < j < |s| ==> !Before(s[j], s[i])
  }

  /** Closes come first, then opens, then the rest; within each, by symbol. */
  ghost predicate InPlanOrder(s: seq<Decision>) {
    forall i, j :: 0 <= i < j < |s| ==>
      var a, b := s[i].action, s[j].action;
      && (b == "close_long" || b == "close_short" ==> a == "close_long" || a == "close_short")
      && (b == "open_long" || b == "open_short" ==>
            a == "close_long" || a == "close_short" || a == "open_long" || a == "open_short")
      && (IsClose(a) == IsClose(b) && IsOpen(a) == IsOpen(b) ==> !Less(s[j].symbol, s[i].symbol))
  }

  lemma OrderedIsPlanned(s: seq<Decision>)
    requires Ordered(s)
    ensures InPlanOrder(s)
  {
    hide Less;
    forall i, j | 0 <= i < j < |s|
      ensures !Before(s[j], s[i])
    {
    }
  }

  lemma {:induction false} InsertMembers(d: Decision, s: seq<Decision>)
    ensures multiset(Insert(d, s)) == multiset(s) + multiset{d}
  {
    hide Before;
    if s != [] {
      assert s == [s[0]] + s[1..];
      if Before(s[0], d) {
        InsertMembers(d, s[1..]);
      }
    }
  }

  lemma {:induction false} InsertOrders(d: Decision, s: seq<Decision>)
    requires Ordered(s)
    ensures Ordered(Insert(d, s))
  {
    hide Before, Less;
    if s == [] {
    } else if !Before(s[0], d) {
      forall e | e in s
        ensures !Before(e, d)
      {
        if e != s[0] {
          NotBeforeTransitive(d, s[0], e);
        }
      }
    } else {
      InsertOrders(d, s[1..]);
      forall e | e in Insert(d, s[1..])
        ensures !Before(e, s[0])
      {
        InsertMembers(d, s[1..]);
        assert e in multiset(Insert(d, s[1..]));
        BeforeAsymmetric(s[0], d);
      }
    }
  }

  lemma BeforeAsymmetric(a: Decision, b: Decision)
    requires Before(a, b)
    ensures !Before(b, a)
  {
    LessAsymmetric(a.symbol, b.symbol);
  }

  lemma {:induction false} CloseFirstOrders(ds: seq<Decision>)
    ensures Ordered(CloseFirst(ds)) && multiset(CloseFirst(ds)) == multiset(ds)
  {
    if ds != [] {
      hide Before, Insert, Ordered;
      CloseFirstOrders(ds[1..]);
      InsertOrders(ds[0], CloseFirst(ds[1..]));
      InsertMembers(ds[0], CloseFirst(ds[1..]));
      assert ds == [ds[0]] + ds[1..];
    }
  }

  /** Decisions of one priority and symbol. */
  function Alike(d: Decision): Decision -> bool {
    (e: Decision) => Priority(e.action) == Priority(d.action) && e.symbol == d.symbol
  }

  lemma {:induction false} InsertIsStable(d: Decision, s: seq<Decision>, k: Decision)
    ensures Filter(Insert(d, s), Alike(k)) == Filter([d] + s, Alike(k))
  {
    if s != [] && Before(s[0], d) {
      InsertIsStable(d, s[1..], k);
      LessIrreflexive(d.symbol);
      assert !(Alike(k)(d) && Alike(k)(s[0]));
      hide Filter, Before, Less;
      assert s == [s[0]] + s[1..];
      FilterHead(s[0], Insert(d, s[1..]), Alike(k));
      FilterHead(d, s[1..], Alike(k));
      FilterHead(d, s, Alike(k));
      FilterHead(s[0], s[1..], Alike(k));
    }
  }

  /** Decisions of one priority and symbol keep their order. */
  lemma {:induction false} CloseFirstIsStable(ds: seq<Decision>, k: Decision)
    ensures Filter(CloseFirst(ds), Alike(k)) == Filter(ds, Alike(k))
  {
    if ds != [] {
      CloseFirstIsStable(ds[1..], k);
      InsertIsStable(ds[0], CloseFirst(ds[1..]), k);
      hide Filter, Before, Insert;
      assert ds == [ds[0]] + ds[1..];
      FilterHead(ds[0], ds[1..], Alike(k));
      FilterHead(ds[0], CloseFirst(ds[1..]), Alike(k));
    }
  }

  /* The cap. */

  function Opens(): Decision -> bool { (d: Decision) => IsOpen(d.action) }

  function Others(): Decision -> bool { (d: Decision) => !IsOpen(d.action) }

  /** Drops every open after the first `slots`. */
  function Capped(ds: seq<Decision>, slots: nat): seq<Decision> {
    if ds == [] then []
    else if !IsOpen(ds[0].action) then [ds[0]] + Capped(ds[1..], slots)
    else if slots > 0 then [ds[0]] + Capped(ds[1..], slots - 1)
    else Capped(ds[1..], 0)
  }

  lemma {:induction false} CappedIs(ds: seq<Decision>, slots: nat)
    ensures Filter(Capped(ds, slots), Opens()) == Take(Filter(ds, Opens()), slots)
    ensures Filter(Capped(ds, slots), Others()) == Filter(ds, Others())
  {
    if ds != [] {
      var rest := ds[1..];
      var left := if IsOpen(ds[0].action) && slots > 0 then slots - 1 else slots;
      CappedIs(rest, left);
      FilterHead(ds[0], Capped(rest, left), Opens());
      FilterHead(ds[0], Capped(rest, left), Others());
      TakeHead(ds[0], Filter(rest, Opens()), slots);
    }
  }

  lemma TakeHead<T>(e: T, s: seq<T>, n: nat)
    ensures n > 0 ==> Take([e] + s, n) == [e] + Take(s, n - 1)
    ensures Take(s, 0) == []
  {
  }

  lemma {:induction false} CappedOrdered(ds: seq<Decision>, slots: nat)
    requires Ordered(ds)
    ensures Ordered(Capped(ds, slots)) && forall d :: d in Capped(ds, slots) ==> d in ds
  {
    hide Before;
    if ds != [] {
      var left := if IsOpen(ds[0].action) && slots > 0 then slots - 1 else slots;
      CappedOrdered(ds[1..], left);
      forall d | d in Capped(ds[1..], left)
        ensures !Before(d, ds[0])
      {
        assert d in ds[1..];
      }
    }
  }

  method CapNewOpenDecisions(ds: seq<Decision>, remaining: int) returns (out: seq<Decision>)
    ensures out == Capped(ds, if remaining <= 0 then 0 else remaining)
  {
    out := [];
    if remaining <= 0 {
      for i := 0 to |ds|
        invariant Capped(ds, 0) == out + Capped(ds[i..], 0)
      {
        if ds[i].action != "open_long" && ds[i].action != "open_short" {
          out := out + [ds[i]];
        }
        assert ds[i..][1..] == ds[i + 1..];
      }
      return;
    }
    var opens := 0;
    for i := 0 to |ds|
      invariant 0 <= opens <= remaining
      invariant Capped(ds, remaining) == out + Capped(ds[i..], remaining - opens)
    {
      assert ds[i..][1..] == ds[i + 1..];
      if ds[i].action == "open_long" || ds[i].action == "open_short" {
        if opens >= remaining {
          continue;
        }
        opens := opens + 1;
      }
      out := out + [ds[i]];
    }
  }

  /** Free slots of the cycle, under the per-cycle cap when one is set. */
  function Slots(maxPositions: int, held: nat, cycleCap: int): (n: nat)
    ensures held + n <= maxPositions || n == 0
    ensures cycleCap > 0 ==> n <= cycleCap
    ensures held < maxPositions ==> held + n == maxPositions || n == cycleCap > 0
  {
    var free := if maxPositions - held < 0 then 0 else maxPositions - held;
    if cycleCap > 0 && cycleCap < free then cycleCap else free
  }

  lemma {:induction false} InsertKeepsChosen(d: Decision, s: seq<Decision>, p: Decision -> bool)
    ensures multiset(Filter(Insert(d, s), p)) == multiset(Filter([d] + s, p))
  {
    if s != [] && Before(s[0], d) {
      hide Filter, Before;
      InsertKeepsChosen(d, s[1..], p);
      assert s == [s[0]] + s[1..];
      FilterHead(s[0], Insert(d, s[1..]), p);
      FilterHead(d, s[1..], p);
      FilterHead(d, s, p);
      FilterHead(s[0], s[1..], p);
    }
  }

  /** Sorting keeps what any filter chooses. */
  lemma {:induction false} CloseFirstKeepsChosen(ds: seq<Decision>, p: Decision -> bool)
    ensures multiset(Filter(CloseFirst(ds), p)) == multiset(Filter(ds, p))
  {
    if ds != [] {
      hide Filter, Before, Insert;
      CloseFirstKeepsChosen(ds[1..], p);
      InsertKeepsChosen(ds[0], CloseFirst(ds[1..]), p);
      assert ds == [ds[0]] + ds[1..];
      FilterHead(ds[0], ds[1..], p);
      FilterHead(ds[0], CloseFirst(ds[1..]), p);
    }
  }

  /** The decisions a cycle will attempt: all closes come before all opens, every decision that opens
      nothing is kept, and exactly the first opens in order that fit the slots. */
  method PlanCycle(ds: seq<Decision>, maxPositions: int, held: nat, cycleCap: int) returns (plan: seq<Decision>)
    ensures Ordered(plan) && InPlanOrder(plan)
    ensures Filter(plan, Opens()) == Take(Filter(CloseFirst(ds), Opens()), Slots(maxPositions, held, cycleCap))
    ensures |Filter(plan, Opens())| == Smaller(Slots(maxPositions, held, cycleCap), |Filter(ds, Opens())|)
    ensures Filter(plan, Others()) == Filter(CloseFirst(ds), Others())
    ensures multiset(Filter(plan, Others())) == multiset(Filter(ds, Others()))
    ensures forall d: Decision :: d.action != "open_long" && d.action != "open_short" ==> (d in plan <==> d in ds)
  {
    hide Filter, CloseFirst, Capped, Before, Opens, Others, InPlanOrder, Ordered;
    var sorted := CloseFirst(ds);
    var remaining := maxPositions - held;
    if remaining < 0 {
      remaining := 0;
    }
    if cycleCap > 0 && cycleCap < remaining {
      remaining := cycleCap;
    }
    plan := CapNewOpenDecisions(sorted, remaining);
    CloseFirstOrders(ds);
    CappedOrdered(sorted, remaining);
    OrderedIsPlanned(plan);
    CappedIs(sorted, remaining);
    CloseFirstKeepsChosen(ds, Opens());
    CloseFirstKeepsChosen(ds, Others());
    assert |multiset(Filter(sorted, Opens()))| == |multiset(Filter(ds, Opens()))|;
    SameOthers(plan, ds);
  }

  lemma SameOthers(a: seq<Decision>, b: seq<Decision>)
    requires multiset(Filter(a, Others())) == multiset(Filter(b, Others()))
    ensures forall d: Decision :: d.action != "open_long" && d.action != "open_short" ==> (d in a <==> d in b)
  {
    forall d: Decision | d.action != "open_long" && d.action != "open_short"
      ensures d in a <==> d in b
    {
      hide Filter;
      FilterMembers(a, Others(), d);
      FilterMembers(b, Others(), d);
      assert d in Filter(a, Others()) <==> d in multiset(Filter(a, Others()));
      assert d in Filter(b, Others()) <==> d in multiset(Filter(b, Others()));
    }
  }

  function Smaller(a: nat, b: nat): nat {
    if a < b then a else b
  }
}
