/**
 The daily-loss baseline: how account syncs maintain it, how the manager enforces the limit on
 it, how it is persisted, and how the API layer computes the same limit a second time.
 */
module DailyRisk {
  import opened Clock
  import opened Options
  import opened Reals
  import opened Text

  /** A formatted UTC date, or the empty string. */
  datatype Date = NoDate | Day(day: int)

  datatype Baseline = Baseline(date: Date, start: real, last: real, updatedAt: Time)

  const Empty := Baseline(NoDate, 0.0, 0.0, ZERO)

  datatype Limits = Limits(maxUsd: real, maxPct: real)

  const EPSILON := 0.000001

  /** The baseline after a sync: the first positive equity of a UTC day starts it, later ones only
      move its latest value, and a non-positive equity leaves it alone. */
  function Updated(prev: Baseline, equity: real, now: Time): Baseline {
    if equity <= 0.0 then prev
    else if prev.date != Day(UtcDay(now)) || prev.start <= 0.0 then Baseline(Day(UtcDay(now)), equity, equity, now)
    else prev.(last := equity, updatedAt := now)
  }

  /** Whatever the baseline was, a positive equity leaves one of the present day with a positive start: the
      start it had if that is of this day and positive, or else this equity. */
  lemma UpdatedIs(prev: Baseline, equity: real, now: Time)
    ensures equity <= 0.0 ==> Updated(prev, equity, now) == prev
    ensures equity > 0.0 ==>
      var b, kept := Updated(prev, equity, now), prev.date == Day(UtcDay(now)) && prev.start > 0.0;
      && b.date == Day(UtcDay(now)) && b.last == equity && b.updatedAt == now
      && b.start == (if kept then prev.start else equity) > 0.0
  {
    hide UtcDay;
  }

  /** The smallest positive value, or zero when there is none. */
  function SmallestPositive(values: seq<real>): (m: real)
    ensures m >= 0.0
    ensures forall v :: v in values && v > 0.0 ==> 0.0 < m <= v
    ensures m > 0.0 ==> m in values
  {
    if values == [] then 0.0
    else
      var v, rest := values[|values| - 1], SmallestPositive(values[..|values| - 1]);
      assert values == values[..|values| - 1] + [v];
      if v > 0.0 && (rest == 0.0 || v < rest) then v else rest
  }

  method PositiveMin(values: seq<real>) returns (min: real)
    ensures min == SmallestPositive(values)
  {
    min := 0.0;
    for i := 0 to |values|
      invariant min == SmallestPositive(values[..i])
    {
      assert values[..i + 1][..i] == values[..i];
      var value := values[i];
      if value > 0.0 {
        if min == 0.0 || value < min {
          min := value;
        }
      }
    }
    assert values[..|values|] == values;
  }

  function Percent(whole: real, pct: real): real {
    whole * (pct / 100.0)
  }

  /** The limit the manager enforces on a day that started at `start`. */
  function ManagerLimit(limits: Limits, start: real): real {
    SmallestPositive([limits.maxUsd, Percent(start, limits.maxPct)])
  }

  /** `enforceDailyLossLimit` rejects: today's baseline lost more than the limit. On another day the
      current equity stands for both ends of the comparison. */
  predicate Rejects(limits: Limits, b: Baseline, currentEquity: real, now: Time) {
    if limits.maxUsd <= 0.0 && limits.maxPct <= 0.0 then false
    else
      var start := if SameUtcDay(b.updatedAt, now) then b.start else currentEquity;
      var current := if SameUtcDay(b.updatedAt, now) then b.last else currentEquity;
      if start <= 0.0 || current <= 0.0 then false
      else
        var loss, limit := start - current, ManagerLimit(limits, start);
        loss > 0.0 && limit > 0.0 && loss > limit + EPSILON
  }

  /** The loss and the limit that a rejection reports. */
  function LossReason(limits: Limits, b: Baseline, currentEquity: real, now: Time): string {
    var start := if SameUtcDay(b.updatedAt, now) then b.start else currentEquity;
    var current := if SameUtcDay(b.updatedAt, now) then b.last else currentEquity;
    "daily loss " + Fixed2(start - current) + " exceeds limit " + Fixed2(ManagerLimit(limits, start))
  }

  /** The limit is the smaller of the dollars and the share of the start that are set. */
  lemma LimitIs(limits: Limits, start: real)
    requires start > 0.0
    ensures var limit := ManagerLimit(limits, start);
      && (limits.maxUsd <= 0.0 && limits.maxPct <= 0.0 <==> limit == 0.0)
      && (limits.maxUsd > 0.0 ==> 0.0 < limit <= limits.maxUsd)
      && (limits.maxPct > 0.0 ==> 0.0 < limit && limit * 100.0 <= start * limits.maxPct)
      && (limit > 0.0 ==> limit == limits.maxUsd || limit * 100.0 == start * limits.maxPct)
  {
    hide SmallestPositive, Percent;
    PercentIs(start, limits.maxPct);
    SmallerOf(limits.maxUsd, Percent(start, limits.maxPct));
  }

  lemma SmallerOf(usd: real, share: real)
    ensures var limit := SmallestPositive([usd, share]);
      && (usd <= 0.0 && share <= 0.0 <==> limit == 0.0) && (usd > 0.0 ==> 0.0 < limit <= usd)
      && (share > 0.0 ==> 0.0 < limit <= share) && (limit > 0.0 ==> limit == usd || limit == share)
  {
    SmallestOfTwo(usd, share);
  }

  lemma PercentIs(whole: real, pct: real)
    requires whole > 0.0
    ensures Percent(whole, pct) * 100.0 == whole * pct
    ensures Percent(whole, pct) > 0.0 <==> pct > 0.0
  {
    var share := pct / 100.0;
    QuotientTimes(pct, 100.0);
    assert whole * share * 100.0 == whole * (share * 100.0);
    ProductOrder(share, 0.0, whole);
  }

  /** A rejection means exactly that today's baseline fell by more than the dollars, or by more than the
      share of its start, that are set as limits; both up to the tolerance. Its reason says the loss and
      the smaller limit. */
  lemma RejectsIff(limits: Limits, b: Baseline, currentEquity: real, now: Time)
    ensures Rejects(limits, b, currentEquity, now) <==>
      && b.updatedAt != ZERO && now != ZERO && UtcDay(b.updatedAt) == UtcDay(now)
      && b.start > 0.0 && b.last > 0.0
      && ((limits.maxUsd > 0.0 && b.start - b.last > limits.maxUsd + 0.000001)
          || (limits.maxPct > 0.0 && (b.start - b.last - 0.000001) * 100.0 > b.start * limits.maxPct))
    ensures Rejects(limits, b, currentEquity, now) ==>
      LossReason(limits, b, currentEquity, now)
      == "daily loss " + Fixed2(b.start - b.last) + " exceeds limit " + Fixed2(ManagerLimit(limits, b.start))
  {
    hide UtcDay, Fixed2, ManagerLimit;
    if b.start > 0.0 {
      LimitIs(limits, b.start);
    }
  }

  /* Persistence of the baseline. */

  datatype Detail = Detail(date: Date, start: real, last: real, updatedAt: Option<Time>)

  function ToDetail(b: Baseline): Option<Detail> {
    if b.date == NoDate && b.start <= 0.0 && b.last <= 0.0 && b.updatedAt == ZERO then None
    else Some(Detail(b.date, b.start, b.last, if b.updatedAt == ZERO then None else Some(b.updatedAt)))
  }

  function FromDetail(d: Option<Detail>): Baseline {
    match d
    case None => Empty
    case Some(Detail(date, start, last, updatedAt)) =>
      Baseline(date, start, last, if updatedAt.Some? then updatedAt.value else ZERO)
  }

  /** What is not worth storing. */
  predicate IsBlank(b: Baseline) {
    b.date == NoDate && b.start <= 0.0 && b.last <= 0.0 && b.updatedAt == ZERO
  }

  /** Every other baseline comes back from its detail. */
  lemma StoredUnlessBlank(b: Baseline)
    ensures ToDetail(b) == None <==> IsBlank(b)
    ensures FromDetail(ToDetail(b)) == if IsBlank(b) then Empty else b
  {
  }

  /* The API layer's own computation. */

  function ApiLimit(limits: Limits, start: real): real {
    if start <= 0.0 then 0.0
    else
      var usd := if limits.maxUsd > 0.0 then limits.maxUsd else 0.0;
      if limits.maxPct > 0.0 then
        var pct := start * (limits.maxPct / 100.0);
        if pct > 0.0 && (usd == 0.0 || pct < usd) then pct else usd
      else usd
  }

  predicate ApiCurrent(d: Detail, now: Time) {
    match d.date
    case Day(day) => day == UtcDay(now)
    case NoDate => d.updatedAt.Some? && UtcDay(d.updatedAt.value) == UtcDay(now)
  }

  /** The API's daily-loss flag. */
  predicate ApiBlocks(limits: Limits, detail: Option<Detail>, now: Time) {
    detail.Some? &&
    var d := detail.value;
    d.start > 0.0 && d.last > 0.0 &&
    var loss := if d.start - d.last > 0.0 then d.start - d.last else 0.0;
    var limit := ApiLimit(limits, d.start);
    limit > 0.0 && loss > limit + EPSILON && ApiCurrent(d, now)
  }

  /** The date of the baseline is the date of its last update. */
  predicate Consistent(b: Baseline) {
    b.date == NoDate || (b.updatedAt != ZERO && b.date == Day(UtcDay(b.updatedAt)))
  }

  lemma SmallestOfTwo(a: real, b: real)
    ensures SmallestPositive([a, b]) ==
            if a <= 0.0 then (if b <= 0.0 then 0.0 else b) else if 0.0 < b < a then b else a
  {
  }

  lemma LimitsAgree(limits: Limits, start: real)
    requires start > 0.0
    ensures ApiLimit(limits, start) == ManagerLimit(limits, start)
    ensures limits.maxUsd <= 0.0 && limits.maxPct <= 0.0 ==> ManagerLimit(limits, start) == 0.0
  {
    hide SmallestPositive;
    PercentIs(start, limits.maxPct);
    SmallestOfTwo(limits.maxUsd, Percent(start, limits.maxPct));
  }

  /** On any baseline the two layers agree unless its date and its timestamp fall on different days;
      then the API goes by the date and the manager by the timestamp. */
  lemma LayersAgree(limits: Limits, b: Baseline, equity: real, now: Time)
    requires now != ZERO
    ensures Consistent(b) ==> (ApiBlocks(limits, ToDetail(b), now) <==> Rejects(limits, b, equity, now))
    ensures !Consistent(b) && SameUtcDay(b.updatedAt, now) ==> !ApiBlocks(limits, ToDetail(b), now)
    ensures !Consistent(b) && b.date == Day(UtcDay(now)) ==> !Rejects(limits, b, equity, now)
  {
    hide ApiLimit, ManagerLimit;
    if b.start > 0.0 {
      LimitsAgree(limits, b.start);
    }
  }

  /* Runs of syncs. */

  datatype Sync = Sync(at: Time, equity: real)

  function Synced(b: Baseline, syncs: seq<Sync>): Baseline {
    if syncs == [] then b
    else Updated(Synced(b, syncs[..|syncs| - 1]), syncs[|syncs| - 1].equity, syncs[|syncs| - 1].at)
  }

  /** Real clock readings that never step back. */
  predicate InOrder(syncs: seq<Sync>) {
    && (forall i :: 0 <= i < |syncs| ==> syncs[i].at != ZERO)
    && (forall i, j :: 0 <= i <= j < |syncs| ==> syncs[i].at <= syncs[j].at)
  }

  /** Sync `j` is the latest one that saw a positive equity. */
  predicate IsLatest(syncs: seq<Sync>, j: nat) {
    j < |syncs| && syncs[j].equity > 0.0 && forall k :: j < k < |syncs| ==> syncs[k].equity <= 0.0
  }

  /** Sync `i` is the first one on its UTC day that saw a positive equity. */
  predicate IsFirstOfDay(syncs: seq<Sync>, i: nat) {
    && i < |syncs| && syncs[i].equity > 0.0
    && forall k :: 0 <= k < i && syncs[k].equity > 0.0 ==> UtcDay(syncs[k].at) != UtcDay(syncs[i].at)
  }

  /** The baseline is that of the latest positive equity: its day, the first and the latest positive
      equity of that day, and the moment of the latest. */
  predicate Describes(b: Baseline, syncs: seq<Sync>, i: nat, j: nat) {
    && IsLatest(syncs, j) && IsFirstOfDay(syncs, i) && i <= j
    && UtcDay(syncs[i].at) == UtcDay(syncs[j].at)
    && b == Baseline(Day(UtcDay(syncs[j].at)), syncs[i].equity, syncs[j].equity, syncs[j].at)
  }

  predicate NoEquityYet(syncs: seq<Sync>) {
    forall k :: 0 <= k < |syncs| ==> syncs[k].equity <= 0.0
  }

  lemma {:induction false} SyncedDescribesTheDay(syncs: seq<Sync>) returns (i: nat, j: nat)
    requires InOrder(syncs)
    ensures if NoEquityYet(syncs) then Synced(Empty, syncs) == Empty else Describes(Synced(Empty, syncs), syncs, i, j)
  {
    hide UtcDay, Describes, Updated;
    i, j := 0, 0;
    if syncs != [] {
      var prefix, s := syncs[..|syncs| - 1], syncs[|syncs| - 1];
      assert syncs == prefix + [s];
      var i', j' := SyncedDescribesTheDay(prefix);
      if NoEquityYet(prefix) {
        i, j := |prefix|, |prefix|;
        FirstEquity(prefix, s);
      } else {
        i, j := OneMoreSync(Synced(Empty, prefix), prefix, i', j', s);
      }
    }
  }

  lemma FirstEquity(prefix: seq<Sync>, s: Sync)
    requires NoEquityYet(prefix)
    ensures if s.equity <= 0.0 then NoEquityYet(prefix + [s]) && Updated(Empty, s.equity, s.at) == Empty
            else
              && !NoEquityYet(prefix + [s])
              && Describes(Updated(Empty, s.equity, s.at), prefix + [s], |prefix|, |prefix|)
  {
    hide UtcDay;
    assert (prefix + [s])[|prefix|] == s;
  }

  lemma OneMoreSync(b: Baseline, prefix: seq<Sync>, i: nat, j: nat, s: Sync) returns (i': nat, j': nat)
    requires InOrder(prefix + [s]) && Describes(b, prefix, i, j)
    ensures !NoEquityYet(prefix + [s]) && Describes(Updated(b, s.equity, s.at), prefix + [s], i', j')
  {
    hide UtcDay, InOrder;
    var all := prefix + [s];
    assert all[j] == prefix[j] && all[i] == prefix[i] && all[|prefix|] == s;
    if s.equity <= 0.0 {
      i', j' := i, j;
      assert IsLatest(all, j) && IsFirstOfDay(all, i);
    } else if UtcDay(s.at) == UtcDay(prefix[j].at) {
      i', j' := i, |prefix|;
      assert IsFirstOfDay(all, i);
    } else {
      i', j' := |prefix|, |prefix|;
      NoEarlierSyncToday(prefix, j, s);
      assert IsFirstOfDay(all, |prefix|);
    }
  }

  lemma NoEarlierSyncToday(prefix: seq<Sync>, j: nat, s: Sync)
    requires InOrder(prefix + [s]) && IsLatest(prefix, j) && UtcDay(s.at) != UtcDay(prefix[j].at)
    ensures forall k :: 0 <= k < |prefix| && prefix[k].equity > 0.0 ==> UtcDay(prefix[k].at) != UtcDay(s.at)
  {
    var all := prefix + [s];
    forall k | 0 <= k < |prefix| && prefix[k].equity > 0.0
      ensures UtcDay(prefix[k].at) != UtcDay(s.at)
    {
      assert k <= j;
      assert all[k].at <= all[j].at <= all[|prefix|].at;
      UtcDayMonotone(prefix[k].at, prefix[j].at);
      UtcDayMonotone(prefix[j].at, s.at);
    }
  }

  /* Any clock. */

  predicate SameDay(a: Sync, b: Sync) { UtcDay(a.at) == UtcDay(b.at) }

  /** Sync `r` starts the last unbroken stretch of positive equities on the day of sync `j`: the positive
      equities from `r` to `j` are all of that day, and the one before `r`, if any, is not. */
  predicate StartsStretch(syncs: seq<Sync>, r: nat, j: nat) {
    && r <= j < |syncs| && syncs[r].equity > 0.0
    && (forall k :: r <= k <= j && syncs[k].equity > 0.0 ==> SameDay(syncs[k], syncs[j]))
    && (NoEquityYet(syncs[..r]) ||
        exists p :: 0 <= p < r && IsLatest(syncs[..r], p) && !SameDay(syncs[p], syncs[j]))
  }

  /** No positive equity of another day lies between two of the day of sync `j`. */
  predicate Contiguous(syncs: seq<Sync>, j: nat)
    requires j < |syncs|
  {
    forall i, k :: 0 <= i < k <= j && syncs[i].equity > 0.0 && syncs[k].equity > 0.0 && SameDay(syncs[i], syncs[j]) ==>
      SameDay(syncs[k], syncs[j])
  }

  /** Whatever the clock does, the baseline is that of the last unbroken stretch. */
  predicate DescribesStretch(b: Baseline, syncs: seq<Sync>, r: nat, j: nat) {
    && IsLatest(syncs, j) && StartsStretch(syncs, r, j)
    && b == Baseline(Day(UtcDay(syncs[j].at)), syncs[r].equity, syncs[j].equity, syncs[j].at)
  }

  lemma {:induction false} SyncedDescribesStretch(syncs: seq<Sync>) returns (r: nat, j: nat)
    ensures if NoEquityYet(syncs) then Synced(Empty, syncs) == Empty
            else DescribesStretch(Synced(Empty, syncs), syncs, r, j)
  {
    hide UtcDay, DescribesStretch, Updated;
    r, j := 0, 0;
    if syncs != [] {
      var prefix, s := syncs[..|syncs| - 1], syncs[|syncs| - 1];
      assert syncs == prefix + [s];
      var r', j' := SyncedDescribesStretch(prefix);
      if NoEquityYet(prefix) {
        r, j := |prefix|, |prefix|;
        FirstStretch(prefix, s);
      } else {
        r, j := StretchOneMore(Synced(Empty, prefix), prefix, r', j', s);
      }
    }
  }

  lemma FirstStretch(prefix: seq<Sync>, s: Sync)
    requires NoEquityYet(prefix)
    ensures if s.equity <= 0.0 then NoEquityYet(prefix + [s]) && Updated(Empty, s.equity, s.at) == Empty
            else
              && !NoEquityYet(prefix + [s])
              && DescribesStretch(Updated(Empty, s.equity, s.at), prefix + [s], |prefix|, |prefix|)
  {
    hide UtcDay;
    assert (prefix + [s])[|prefix|] == s && (prefix + [s])[..|prefix|] == prefix;
  }

  lemma StretchOneMore(b: Baseline, prefix: seq<Sync>, r: nat, j: nat, s: Sync) returns (r': nat, j': nat)
    requires DescribesStretch(b, prefix, r, j)
    ensures !NoEquityYet(prefix + [s]) && DescribesStretch(Updated(b, s.equity, s.at), prefix + [s], r', j')
  {
    hide UtcDay;
    var all, n := prefix + [s], |prefix|;
    assert all[j] == prefix[j] && all[r] == prefix[r] && all[n] == s;
    assert all[..r] == prefix[..r] && all[..n] == prefix;
    if s.equity <= 0.0 {
      r', j' := r, j;
      assert IsLatest(all, j) && StartsStretch(all, r, j);
    } else if SameDay(s, prefix[j]) {
      r', j' := r, n;
      assert StartsStretch(all, r, n);
    } else {
      r', j' := n, n;
      assert IsLatest(all[..n], j) && !SameDay(all[j], all[n]);
      assert StartsStretch(all, n, n);
    }
  }

  /** After every run of syncs under any clock, and through a persist and restore, the API's flag is
      exactly the manager's rejection. */
  lemma ApiMatchesManagerAfterSyncs(limits: Limits, syncs: seq<Sync>, equity: real, now: Time)
    requires now != ZERO && forall i :: 0 <= i < |syncs| ==> syncs[i].at != ZERO
    ensures var b := Synced(Empty, syncs);
      && FromDetail(ToDetail(b)) == b
      && (ApiBlocks(limits, ToDetail(b), now) <==> Rejects(limits, b, equity, now))
  {
    hide ApiBlocks, Rejects;
    var r, j := SyncedDescribesStretch(syncs);
    LayersAgree(limits, Synced(Empty, syncs), equity, now);
  }

  /** The first positive equity of the day of sync `j`. */
  lemma {:induction false} FirstOfDayExists(syncs: seq<Sync>, j: nat) returns (i: nat)
    requires j < |syncs| && syncs[j].equity > 0.0
    ensures i <= j && IsFirstOfDay(syncs, i) && SameDay(syncs[i], syncs[j])
    decreases j
  {
    hide UtcDay;
    if k :| 0 <= k < j && syncs[k].equity > 0.0 && SameDay(syncs[k], syncs[j]) {
      i := FirstOfDayExists(syncs, k);
    } else {
      i := j;
    }
  }

  lemma StretchStartsFirstIff(syncs: seq<Sync>, i: nat, j: nat, r: nat)
    requires IsLatest(syncs, j) && IsFirstOfDay(syncs, i) && i <= j && SameDay(syncs[i], syncs[j])
    requires StartsStretch(syncs, r, j)
    ensures i == r <==> Contiguous(syncs, j)
  {
  }

  /** For every run of syncs under any clock: the baseline holds the first and the latest positive equity
      of its day exactly when the last stretch starts from the equity the day started from, which it
      does whenever the day's positive equities are contiguous. Without that the day is described only
      if the two equities happen to be equal. */
  lemma DayDescribedIff(syncs: seq<Sync>) returns (i: nat, j: nat, r: nat)
    requires !NoEquityYet(syncs)
    ensures IsLatest(syncs, j) && IsFirstOfDay(syncs, i) && i <= j && SameDay(syncs[i], syncs[j])
    ensures StartsStretch(syncs, r, j)
    ensures (exists a: nat, z: nat :: Describes(Synced(Empty, syncs), syncs, a, z)) <==>
      syncs[i].equity == syncs[r].equity
    ensures i == r <==> Contiguous(syncs, j)
    ensures Contiguous(syncs, j) ==> Describes(Synced(Empty, syncs), syncs, i, j)
  {
    hide UtcDay, Synced, Contiguous;
    r, j := SyncedDescribesStretch(syncs);
    i := FirstOfDayExists(syncs, j);
    StretchStartsFirstIff(syncs, i, j, r);
    assert syncs[i].equity == syncs[r].equity ==> Describes(Synced(Empty, syncs), syncs, i, j);
    forall a: nat, z: nat | Describes(Synced(Empty, syncs), syncs, a, z)
      ensures a == i && z == j
    {
    }
  }

  lemma SyncedThree(a: Sync, b: Sync, c: Sync)
    ensures Synced(Empty, [a, b]) == Updated(Updated(Empty, a.equity, a.at), b.equity, b.at)
    ensures Synced(Empty, [a, b, c]) == Updated(Updated(Updated(Empty, a.equity, a.at), b.equity, b.at), c.equity, c.at)
  {
    hide Updated;
    assert [a, b, c][..2] == [a, b] && [a, b][..1] == [a] && [a][..0] == [];
    assert Synced(Empty, [a]) == Updated(Empty, a.equity, a.at);
    assert Synced(Empty, [a, b]) == Updated(Synced(Empty, [a]), b.equity, b.at);
  }

  /** A clock that steps back over midnight can forget where the day began: the second visit to day 0
      starts from 80, so the loss from 100 is not seen. One that steps back within the day does not. And
      a broken day is described after all when its second stretch starts from the same equity. */
  lemma BackwardClockForgetsTheStart(over: seq<Sync>, within: seq<Sync>, lucky: seq<Sync>)
    requires over == [Sync(1, 100.0), Sync(NANOS_PER_DAY, 90.0), Sync(2, 80.0)]
    requires within == [Sync(5, 100.0), Sync(2, 80.0)]
    requires lucky == [Sync(1, 100.0), Sync(NANOS_PER_DAY, 90.0), Sync(2, 100.0)]
    ensures Synced(Empty, over) == Baseline(Day(0), 80.0, 80.0, 2)
    ensures forall a: nat, z: nat :: !Describes(Synced(Empty, over), over, a, z)
    ensures !InOrder(within) && Describes(Synced(Empty, within), within, 0, 1)
    ensures !Contiguous(lucky, 2) && Describes(Synced(Empty, lucky), lucky, 0, 2)
  {
    hide Synced;
    SyncedThree(over[0], over[1], over[2]);
    SyncedThree(within[0], within[1], within[1]);
    SyncedThree(lucky[0], lucky[1], lucky[2]);
    assert within[0].at > within[1].at;
    assert SameDay(lucky[0], lucky[2]) && !SameDay(lucky[1], lucky[2]);
    forall a: nat, z: nat
      ensures !Describes(Synced(Empty, over), over, a, z)
    {
      if a == 2 {
        assert SameDay(over[0], over[2]);
      }
    }
  }
}
