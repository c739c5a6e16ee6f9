/**
 The daily token budget. Callers ask before an attempt and record the tokens after it, so attempts
 in flight can overshoot the limit; how far is the subject here. Clock readings are inputs and may
 even go backwards.
 */
module Budget {
  import opened Clock
  import opened Options
  import opened Reals
  import opened Text

  /** What the guard keeps: the tokens used, their cost, and the day they count for. */
  datatype Meter = Meter(used: int, cost: real, period: Option<int>)

  const Unused := Meter(0, 0.0, None)

  datatype Snapshot = Snapshot(used: int, limit: int, usagePct: real, cost: real, alertPct: int, alert: bool)

  /** `resetIfNeeded`. */
  function Reset(m: Meter, now: Time): Meter {
    if m.period == Some(UtcDay(now)) then m else Meter(0, 0.0, Some(UtcDay(now)))
  }

  predicate Allows(m: Meter, limit: int, strict: bool) {
    strict ==> m.used < limit
  }

  /** The cost of tokens at a rate per million. */
  function CostOf(tokens: int, rate: real): real {
    tokens as real / 1000000.0 * rate
  }

  /** The rate is per million. */
  lemma CostIs(tokens: int, rate: real)
    ensures CostOf(tokens, rate) * 1000000.0 == tokens as real * rate
  {
    QuotientTimes(tokens as real, 1000000.0);
    assert tokens as real / 1000000.0 * rate * 1000000.0 == tokens as real / 1000000.0 * 1000000.0 * rate;
  }

  /** Recording nothing does not even look at the clock. */
  function Recorded(m: Meter, tokens: int, rate: real, now: Time): Meter {
    if tokens <= 0 then m
    else
      var r := Reset(m, now);
      r.(used := r.used + tokens, cost := r.cost + CostOf(tokens, rate))
  }

  /** The rate of a model: under its name as given, else under its normalised name, else none. */
  function RateOf(rates: map<string, real>, model: string): (rate: real)
    ensures model in rates ==> rate == rates[model]
    ensures model !in rates && ToLower(Trim(model)) in rates ==> rate == rates[ToLower(Trim(model))]
    ensures model !in rates && ToLower(Trim(model)) !in rates ==> rate == 0.0
  {
    if model in rates then rates[model] else if ToLower(Trim(model)) in rates then rates[ToLower(Trim(model))] else 0.0
  }

  /** Usage in percent, cut off at 100. */
  function UsagePct(used: int, limit: int): (pct: real)
    requires limit > 0
    ensures pct <= 100.0
    ensures used >= limit <==> pct == 100.0
    ensures used <= limit ==> pct * limit as real == used as real * 100.0
  {
    var share := used as real / limit as real * 100.0;
    PercentOf(used as real, limit as real);
    if share > 100.0 then 100.0 else share
  }

  lemma PercentOf(used: real, limit: real)
    requires limit > 0.0
    ensures used / limit * 100.0 * limit == used * 100.0
    ensures used >= limit <==> used / limit * 100.0 >= 100.0
  {
    QuotientTimes(used, limit);
    ProductOrder(used / limit, 1.0, limit);
  }

  class BudgetGuard {
    const limit: int
    const strict: bool
    const alertPct: int
    const rates: map<string, real>
    var usedTokens: int
    var usedCost: real
    var period: Option<int>

    constructor (limit: int, strict: bool, alertPct: int, rates: map<string, real>)
      requires limit > 0
      ensures this.limit == limit && this.strict == strict && this.alertPct == alertPct && this.rates == rates
      ensures Value() == Unused
    {
      this.limit, this.strict, this.alertPct, this.rates := limit, strict, alertPct, rates;
      usedTokens, usedCost, period := 0, 0.0, None;
    }

    function Value(): Meter
      reads this
    {
      Meter(usedTokens, usedCost, period)
    }

    method ResetIfNeeded(now: Time)
      modifies this
      ensures Value() == Reset(old(Value()), now)
      ensures period == Some(UtcDay(now))
      ensures if old(period) == period then Value() == old(Value()) else usedTokens == 0 && usedCost == 0.0
    {
      if period != Some(UtcDay(now)) {
        period := Some(UtcDay(now));
        usedTokens := 0;
        usedCost := 0.0;
      }
    }

    method AllowAttempt(now: Time) returns (ok: bool)
      modifies this
      ensures Value() == Reset(old(Value()), now)
      ensures ok <==> Allows(Value(), limit, strict)
      ensures !ok <==> strict && usedTokens >= limit
    {
      ResetIfNeeded(now);
      if usedTokens >= limit {
        if strict {
          return false;
        }
        return true;
      }
      return true;
    }

    method RecordUsage(model: string, tokens: int, now: Time) returns (snapshot: Snapshot, ok: bool)
      requires limit > 0
      modifies this
      ensures Value() == Recorded(old(Value()), tokens, RateOf(rates, model), now)
      ensures ok <==> !(strict && tokens > 0 && usedTokens > limit)
      ensures tokens <= 0 ==> Value() == old(Value())
      ensures tokens > 0 ==>
        var before := Reset(old(Value()), now);
        && period == Some(UtcDay(now)) && usedTokens == before.used + tokens
        && (usedCost - before.cost) * 1000000.0 == tokens as real * RateOf(rates, model)
      ensures snapshot ==
        if tokens <= 0 then Snapshot(0, 0, 0.0, 0.0, 0, false)
        else
          var pct := UsagePct(usedTokens, limit);
          Snapshot(usedTokens, limit, pct, usedCost, alertPct, alertPct > 0 && pct >= alertPct as real)
    {
      hide RateOf, CostOf, UsagePct;
      if tokens <= 0 {
        return Snapshot(0, 0, 0.0, 0.0, 0, false), true;
      }
      ResetIfNeeded(now);
      var total := usedTokens + tokens;
      var pct := UsagePct(total, limit);
      usedTokens := total;
      usedCost := usedCost + CostOf(tokens, RateOf(rates, model));
      CostIs(tokens, RateOf(rates, model));
      snapshot := Snapshot(usedTokens, limit, pct, usedCost, alertPct, alertPct > 0 && pct >= alertPct as real);
      ok := !(total > limit && strict);
    }
  }

  /** The alert is raised exactly when the day's tokens reach the threshold's share of the limit; a
      threshold above 100 never is. */
  lemma AlertIff(used: int, limit: int, alertPct: int)
    requires limit > 0 && alertPct > 0
    ensures UsagePct(used, limit) >= alertPct as real <==> alertPct <= 100 && used * 100 >= alertPct * limit
  {
    hide UsagePct;
    if used <= limit {
      AlertWithin(UsagePct(used, limit), used, limit, alertPct);
      if alertPct > 100 {
        PercentBeyond(alertPct, limit, used);
      }
    } else {
      assert UsagePct(used, limit) == 100.0;
      if alertPct <= 100 {
        PercentWithin(alertPct, limit, used);
      }
    }
  }

  lemma AlertWithin(pct: real, used: int, limit: int, alertPct: int)
    requires limit > 0 && pct * limit as real == used as real * 100.0
    ensures pct >= alertPct as real <==> used * 100 >= alertPct * limit
  {
    ProductOrder(pct, alertPct as real, limit as real);
    ProductAsReal(used, 100);
    ProductAsReal(alertPct, limit);
  }

  lemma ProductAsReal(a: int, b: int)
    ensures (a * b) as real == a as real * b as real
  {
  }

  lemma PercentBeyond(pct: int, limit: int, used: int)
    requires pct > 100 && limit > 0 && used <= limit
    ensures used * 100 < pct * limit
  {
    assert (pct - 100) * limit > 0;
  }

  lemma PercentWithin(pct: int, limit: int, used: int)
    requires 0 < pct <= 100 && limit > 0 && used >= limit
    ensures used * 100 >= pct * limit
  {
    assert (100 - pct) * limit >= 0;
  }

  /* Attempts in flight. */

  datatype State = State(meter: Meter, flying: nat)

  /** `width` attempts at most are in flight, and none uses more than `most` tokens. */
  datatype Bounds = Bounds(limit: int, width: nat, most: nat)

  datatype Step =
    | Ask(now: Time)                                // refused, or one more attempt in flight
    | Land(tokens: int, rate: real, now: Time)      // an attempt ends and records its tokens
    | Vanish                                        // an attempt ends and records nothing

  predicate Enabled(b: Bounds, s: State, step: Step) {
    match step
    case Ask(_) => s.flying < b.width
    case Land(tokens, _, _) => s.flying > 0 && tokens <= b.most
    case Vanish => s.flying > 0
  }

  function Next(b: Bounds, s: State, step: Step): State
    requires Enabled(b, s, step)
  {
    match step
    case Ask(now) =>
      var m := Reset(s.meter, now);
      State(m, if Allows(m, b.limit, true) then s.flying + 1 else s.flying)
    case Land(tokens, rate, now) => State(Recorded(s.meter, tokens, rate, now), s.flying - 1)
    case Vanish => s.(flying := s.flying - 1)
  }

  ghost predicate Reaches(b: Bounds, s: State, steps: seq<Step>, t: State)
    decreases |steps|
  {
    if steps == [] then s == t
    else Enabled(b, s, steps[0]) && Reaches(b, Next(b, s, steps[0]), steps[1..], t)
  }

  const Idle := State(Unused, 0)

  /** Even if every attempt in flight used its most, the total would stay within the bound. */
  predicate WithinBudget(b: Bounds, s: State) {
    s.flying <= b.width && s.meter.used + s.flying * b.most <= b.limit - 1 + b.width * b.most
  }

  lemma FewerTakeLess(a: int, c: int, most: nat)
    requires a <= c
    ensures a * most <= c * most
  {
  }

  lemma NextWithinBudget(b: Bounds, s: State, step: Step)
    requires b.limit > 0 && Enabled(b, s, step) && WithinBudget(b, s)
    ensures WithinBudget(b, Next(b, s, step))
  {
    var t := Next(b, s, step);
    FewerTakeLess(t.flying, b.width, b.most);
    FewerTakeLess(s.flying, b.width, b.most);
    assert (s.flying - 1) * b.most == s.flying * b.most - b.most;
    assert (s.flying + 1) * b.most == s.flying * b.most + b.most;
  }

  lemma {:induction false} StepsWithinBudget(b: Bounds, s: State, steps: seq<Step>, t: State)
    requires b.limit > 0 && WithinBudget(b, s) && Reaches(b, s, steps, t)
    ensures WithinBudget(b, t)
    decreases |steps|
  {
    hide Next, Enabled, WithinBudget;
    if steps != [] {
      NextWithinBudget(b, s, steps[0]);
      StepsWithinBudget(b, Next(b, s, steps[0]), steps[1..], t);
    }
  }

  /** Over every interleaving and day change, the tokens used never exceed the limit by more than the
      attempts in flight can use, less one. */
  lemma OvershootIsBounded(b: Bounds, steps: seq<Step>, t: State)
    requires b.limit > 0 && Reaches(b, Idle, steps, t)
    ensures t.meter.used <= b.limit - 1 + b.width * b.most
  {
    FewerTakeLess(0, b.width, b.most);
    FewerTakeLess(0, t.flying, b.most);
    StepsWithinBudget(b, Idle, steps, t);
  }

  /* The bound is reached. */

  lemma {:induction false} ReachesThen(b: Bounds, s: State, first: seq<Step>, t: State, second: seq<Step>, u: State)
    requires Reaches(b, s, first, t) && Reaches(b, t, second, u)
    ensures Reaches(b, s, first + second, u)
    decreases |first|
  {
    hide Next, Enabled;
    if first == [] {
      assert first + second == second;
    } else {
      ReachesThen(b, Next(b, s, first[0]), first[1..], t, second, u);
      assert (first + second)[1..] == first[1..] + second;
    }
  }

  lemma ReachesOne(b: Bounds, s: State, step: Step)
    requires Enabled(b, s, step)
    ensures Reaches(b, s, [step], Next(b, s, step))
  {
  }

  function AtDayZero(used: int, flying: nat): State {
    State(Meter(used, 0.0, Some(UtcDay(ZERO))), flying)
  }

  /** One attempt after the other, one token each. */
  lemma {:induction false} UseOneByOne(b: Bounds, n: nat) returns (steps: seq<Step>)
    requires 0 < n < b.limit && b.width > 0 && b.most > 0
    ensures Reaches(b, Idle, steps, AtDayZero(n, 0))
  {
    var before, start := [], Idle;
    if n > 1 {
      before := UseOneByOne(b, n - 1);
      start := AtDayZero(n - 1, 0);
    }
    ReachesOne(b, start, Ask(ZERO));
    ReachesOne(b, AtDayZero(n - 1, 1), Land(1, 0.0, ZERO));
    assert Next(b, start, Ask(ZERO)) == AtDayZero(n - 1, 1);
    assert Next(b, AtDayZero(n - 1, 1), Land(1, 0.0, ZERO)) == AtDayZero(n, 0);
    hide Next, Enabled;
    ReachesThen(b, start, [Ask(ZERO)], AtDayZero(n - 1, 1), [Land(1, 0.0, ZERO)], AtDayZero(n, 0));
    ReachesThen(b, Idle, before, start, [Ask(ZERO)] + [Land(1, 0.0, ZERO)], AtDayZero(n, 0));
    steps := before + ([Ask(ZERO)] + [Land(1, 0.0, ZERO)]);
  }

  lemma {:induction false} TakeOff(b: Bounds, s: State, used: int, k: nat) returns (steps: seq<Step>)
    requires 0 < k <= b.width && used < b.limit
    requires s == AtDayZero(used, 0) || (s == Idle && used == 0)
    ensures Reaches(b, s, steps, AtDayZero(used, k))
  {
    var before, start := [], s;
    if k > 1 {
      before := TakeOff(b, s, used, k - 1);
      start := AtDayZero(used, k - 1);
    }
    ReachesOne(b, start, Ask(ZERO));
    assert Next(b, start, Ask(ZERO)) == AtDayZero(used, k);
    hide Next, Enabled;
    ReachesThen(b, s, before, start, [Ask(ZERO)], AtDayZero(used, k));
    steps := before + [Ask(ZERO)];
  }

  lemma {:induction false} LandAll(b: Bounds, used: int, k: nat) returns (steps: seq<Step>)
    requires b.most > 0
    ensures Reaches(b, AtDayZero(used, k), steps, AtDayZero(used + k * b.most, 0))
    decreases k
  {
    if k == 0 {
      steps := [];
    } else {
      var step := Land(b.most, 0.0, ZERO);
      ReachesOne(b, AtDayZero(used, k), step);
      assert Next(b, AtDayZero(used, k), step) == AtDayZero(used + b.most, k - 1);
      hide Next, Enabled;
      var rest := LandAll(b, used + b.most, k - 1);
      assert used + b.most + (k - 1) * b.most == used + k * b.most;
      ReachesThen(b, AtDayZero(used, k), [step], AtDayZero(used + b.most, k - 1), rest,
                  AtDayZero(used + k * b.most, 0));
      steps := [step] + rest;
    }
  }

  /** No smaller bound would do. */
  lemma BoundIsReached(b: Bounds) returns (steps: seq<Step>, t: State)
    requires b.limit > 0 && b.width > 0 && b.most > 0
    ensures Reaches(b, Idle, steps, t) && t.meter.used == b.limit - 1 + b.width * b.most
  {
    hide Reaches;
    var first, start := [], Idle;
    NoSteps(b, Idle);
    if b.limit > 1 {
      first := UseOneByOne(b, b.limit - 1);
      start := AtDayZero(b.limit - 1, 0);
    }
    var up := TakeOff(b, start, b.limit - 1, b.width);
    var down := LandAll(b, b.limit - 1, b.width);
    t := AtDayZero(b.limit - 1 + b.width * b.most, 0);
    ReachesThen(b, start, up, AtDayZero(b.limit - 1, b.width), down, t);
    ReachesThen(b, Idle, first, start, up + down, t);
    steps := first + (up + down);
  }

  lemma NoSteps(b: Bounds, s: State)
    ensures Reaches(b, s, [], s)
  {
  }

  /* What the meter counts. */

  /** A call that looks at the clock: an attempt asked for (0 tokens) or tokens recorded. */
  datatype Call = Call(tokens: nat, rate: real, now: Time)

  function After(calls: seq<Call>): Meter {
    if calls == [] then Unused
    else
      var c := calls[|calls| - 1];
      var m := After(calls[..|calls| - 1]);
      if c.tokens == 0 then Reset(m, c.now) else Recorded(m, c.tokens, c.rate, c.now)
  }

  /** The tokens, and the cost, of the latest calls that all fall on `day`. */
  function TokensOn(calls: seq<Call>, day: int): int {
    if calls == [] || UtcDay(calls[|calls| - 1].now) != day then 0
    else calls[|calls| - 1].tokens + TokensOn(calls[..|calls| - 1], day)
  }

  function CostOn(calls: seq<Call>, day: int): real {
    if calls == [] || UtcDay(calls[|calls| - 1].now) != day then 0.0
    else CostOf(calls[|calls| - 1].tokens, calls[|calls| - 1].rate) + CostOn(calls[..|calls| - 1], day)
  }

  /** The tokens used and their cost are those recorded since the day last changed. */
  lemma {:induction false} UsedIsSinceReset(calls: seq<Call>)
    requires calls != []
    ensures var day := UtcDay(calls[|calls| - 1].now);
      After(calls) == Meter(TokensOn(calls, day), CostOn(calls, day), Some(day))
  {
    hide UtcDay;
    var rest := calls[..|calls| - 1];
    if rest != [] {
      UsedIsSinceReset(rest);
    }
  }
}
