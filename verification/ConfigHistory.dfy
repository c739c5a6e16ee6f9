/**
 Trader configurations and their version history. A sync compares each record with its row, and
 writes the row and a history entry in one transaction when they differ.
 */
module ConfigHistory {
  import opened Options
  import opened Sequences
  import opened Text

  /** `detail` is the canonical JSON text, absent when the payload is not JSON. */
  datatype Record = Record(id: string, exchange: string, market: string, allocation: real, detail: Option<string>)

  datatype Config = Config(version: int, exchange: string, market: string, allocation: real, detail: string)

  datatype Entry = Entry(version: int, snapshot: string, changed: seq<Field>)

  datatype Tables = Tables(configs: map<string, Config>, history: map<string, seq<Entry>>)

  /** How a transaction ends. An unacknowledged one is committed but reported as failed. */
  datatype Tx = Committed | RolledBack | Unacknowledged

  /** Whether the row can be read, and how the transaction ends. */
  datatype Weather = Weather(readable: bool, tx: Tx)

  const CALM := Weather(true, Committed)

  datatype Action = Inserted | Updated | Unchanged

  datatype Summary = Summary(inserted: seq<string>, updated: seq<string>, same: seq<string>)

  /** What may change, in the alphabetical order of the names. */
  datatype Field = AllocationPct | DetailField | ExchangeProvider | MarketProvider

  function Name(f: Field): string {
    match f
    case AllocationPct => "allocation_pct"
    case DetailField => "detail"
    case ExchangeProvider => "exchange_provider"
    case MarketProvider => "market_provider"
  }

  function Rank(f: Field): nat {
    match f case AllocationPct => 0 case DetailField => 1 case ExchangeProvider => 2 case MarketProvider => 3
  }

  lemma RankIsAlphabetical(f: Field, g: Field)
    ensures Rank(f) < Rank(g) <==> Less(Name(f), Name(g))
  {
    LessIrreflexive(Name(f));
  }

  /** The fields listed for a first version. */
  const ALL_FIELDS := [ExchangeProvider, MarketProvider, AllocationPct, DetailField]

  predicate Differs(f: Field, c: Config, rec: Record, detail: string, render: string -> string) {
    match f
    case AllocationPct => c.allocation != rec.allocation
    case DetailField => Trim(render(c.detail)) != detail
    case ExchangeProvider => c.exchange != rec.exchange
    case MarketProvider => c.market != rec.market
  }

  const ALPHABETICAL := [AllocationPct, DetailField, ExchangeProvider, MarketProvider]

  /** The fields in which a record differs from its row, in alphabetical order; `render` is how the store
      gives back the text of a detail. */
  function Changes(c: Config, rec: Record, detail: string, render: string -> string): seq<Field> {
    Filter(ALPHABETICAL, (f: Field) => Differs(f, c, rec, detail, render))
  }

  predicate Ranked(fields: seq<Field>) {
    forall i, j :: 0 <= i < j < |fields| ==> Rank(fields[i]) < Rank(fields[j])
  }

  lemma {:induction false} FilterRanked(fields: seq<Field>, p: Field -> bool)
    requires Ranked(fields)
    ensures Ranked(Filter(fields, p))
  {
    if fields != [] {
      FilterRanked(fields[1..], p);
      forall f | f in Filter(fields[1..], p)
        ensures Rank(fields[0]) < Rank(f)
      {
        FilterMembers(fields[1..], p, f);
      }
    }
  }

  /** Exactly the fields that differ, in order and so each once. */
  lemma ChangesAre(c: Config, rec: Record, detail: string, render: string -> string)
    ensures Ranked(Changes(c, rec, detail, render))
    ensures forall f :: f in Changes(c, rec, detail, render) <==> Differs(f, c, rec, detail, render)
  {
    hide Filter, Differs;
    var differs := (f: Field) => Differs(f, c, rec, detail, render);
    FilterRanked(ALPHABETICAL, differs);
    forall f: Field
      ensures f in Filter(ALPHABETICAL, differs) <==> differs(f)
    {
      FilterMembers(ALPHABETICAL, differs, f);
      EveryFieldIsListed(f);
    }
  }

  lemma EveryFieldIsListed(f: Field)
    ensures f in ALPHABETICAL
  {
    match f
    case AllocationPct => assert ALPHABETICAL[0] == f;
    case DetailField => assert ALPHABETICAL[1] == f;
    case ExchangeProvider => assert ALPHABETICAL[2] == f;
    case MarketProvider => assert ALPHABETICAL[3] == f;
  }

  function HistoryOf(t: Tables, id: string): seq<Entry> {
    if id in t.history then t.history[id] else []
  }

  /** Both writes of the transaction. */
  function Written(t: Tables, rec: Record, detail: string, version: int, changed: seq<Field>): Tables {
    Tables(t.configs[rec.id := Config(version, rec.exchange, rec.market, rec.allocation, detail)],
           t.history[rec.id := HistoryOf(t, rec.id) + [Entry(version, detail, changed)]])
  }

  function Ended(t: Tables, after: Tables, tx: Tx): Tables {
    if tx == RolledBack then t else after
  }

  /** `syncOne`; no action stands for an error. */
  function SyncedOne(t: Tables, rec: Record, w: Weather, render: string -> string): (Tables, Option<Action>) {
    if Trim(rec.id) == "" || rec.detail.None? || !w.readable then (t, None)
    else
      var detail := rec.detail.value;
      if rec.id !in t.configs then
        (Ended(t, Written(t, rec, detail, 1, ALL_FIELDS), w.tx), if w.tx == Committed then Some(Inserted) else None)
      else
        var c := t.configs[rec.id];
        var changed := Changes(c, rec, detail, render);
        if changed == [] then (t, Some(Unchanged))
        else
          (Ended(t, Written(t, rec, detail, c.version + 1, changed), w.tx),
           if w.tx == Committed then Some(Updated) else None)
  }

  function Recorded(s: Summary, id: string, action: Action): Summary {
    match action
    case Inserted => s.(inserted := s.inserted + [id])
    case Updated => s.(updated := s.updated + [id])
    case Unchanged => s.(same := s.same + [id])
  }

  /** `Sync`: one record after the other, up to the first error. */
  function SyncedAll(t: Tables, recs: seq<Record>, ws: seq<Weather>, render: string -> string): (Tables, Summary, bool)
    requires |ws| == |recs|
  {
    if recs == [] then (t, Summary([], [], []), true)
    else
      var n := |recs| - 1;
      var (t', s, ok) := SyncedAll(t, recs[..n], ws[..n], render);
      if !ok then (t', s, false)
      else
        var (t'', action) := SyncedOne(t', recs[n], ws[n], render);
        if action.None? then (t'', s, false) else (t'', Recorded(s, recs[n].id, action.value), true)
  }

  /** What a sync tells of its records: each is listed once; one listed as inserted had no row, one listed as
      updated had one or got it in the same sync. No row is lost. */
  lemma {:induction false} SummaryTells(t: Tables, recs: seq<Record>, ws: seq<Weather>, render: string -> string)
    requires |ws| == |recs|
    ensures var (t', s, ok) := SyncedAll(t, recs, ws, render);
      && (ok ==> |s.inserted| + |s.updated| + |s.same| == |recs|)
      && (forall id :: id in s.inserted ==> id !in t.configs && id in t'.configs)
      && (forall id :: id in s.updated + s.same ==> id in t.configs || id in s.inserted)
      && t.configs.Keys <= t'.configs.Keys
      && (forall id :: ok && id in t'.configs ==> id in t.configs || id in s.inserted)
  {
    hide Changes, Trim;
    if recs != [] {
      var n := |recs| - 1;
      SummaryTells(t, recs[..n], ws[..n], render);
    }
  }

  /* Versions. */

  /** Versions 1 to `v`, each once and in order, where `v` is the row's version, and the newest snapshot
      is the row's detail. */
  ghost predicate Versioned(t: Tables) {
    && t.history.Keys == t.configs.Keys
    && forall id :: id in t.configs ==> Chronicle(t.history[id], t.configs[id])
  }

  predicate Chronicle(entries: seq<Entry>, c: Config) {
    && |entries| == c.version > 0
    && (forall k :: 0 <= k < |entries| ==> entries[k].version == k + 1 && entries[k].changed != [])
    && entries[|entries| - 1].snapshot == c.detail
  }

  lemma WrittenIsVersioned(t: Tables, rec: Record, detail: string, version: int, changed: seq<Field>)
    requires Versioned(t) && changed != []
    requires version == if rec.id in t.configs then t.configs[rec.id].version + 1 else 1
    ensures Versioned(Written(t, rec, detail, version, changed))
  {
  }

  lemma SyncedOneIsVersioned(t: Tables, rec: Record, w: Weather, render: string -> string)
    requires Versioned(t)
    ensures Versioned(SyncedOne(t, rec, w, render).0)
  {
    hide Versioned, Changes, Written, Trim;
    if Trim(rec.id) != "" && rec.detail.Some? && w.readable {
      var detail := rec.detail.value;
      if rec.id !in t.configs {
        WrittenIsVersioned(t, rec, detail, 1, ALL_FIELDS);
      } else {
        var changed := Changes(t.configs[rec.id], rec, detail, render);
        if changed != [] {
          WrittenIsVersioned(t, rec, detail, t.configs[rec.id].version + 1, changed);
        }
      }
    }
  }

  /** Every sync keeps the histories complete, however its transactions end and wherever it stops. */
  lemma {:induction false} SyncedAllIsVersioned(t: Tables, recs: seq<Record>, ws: seq<Weather>,
                                                render: string -> string)
    requires |ws| == |recs| && Versioned(t)
    ensures Versioned(SyncedAll(t, recs, ws, render).0)
  {
    hide Versioned, SyncedOne;
    if recs != [] {
      var n := |recs| - 1;
      SyncedAllIsVersioned(t, recs[..n], ws[..n], render);
      var (t', s, ok) := SyncedAll(t, recs[..n], ws[..n], render);
      SyncedOneIsVersioned(t', recs[n], ws[n], render);
    }
  }

  datatype Job = Job(recs: seq<Record>, ws: seq<Weather>)

  predicate Matched(jobs: seq<Job>) {
    forall i :: 0 <= i < |jobs| ==> |jobs[i].ws| == |jobs[i].recs|
  }

  function AfterJobs(jobs: seq<Job>, render: string -> string): Tables
    requires Matched(jobs)
  {
    if jobs == [] then Tables(map[], map[])
    else
      var last := jobs[|jobs| - 1];
      SyncedAll(AfterJobs(jobs[..|jobs| - 1], render), last.recs, last.ws, render).0
  }

  /** So does any sequence of syncs. */
  lemma {:induction false} EveryRunIsVersioned(jobs: seq<Job>, render: string -> string)
    requires Matched(jobs)
    ensures Versioned(AfterJobs(jobs, render))
  {
    if jobs != [] {
      hide Versioned, SyncedAll;
      var last := jobs[|jobs| - 1];
      EveryRunIsVersioned(jobs[..|jobs| - 1], render);
      SyncedAllIsVersioned(AfterJobs(jobs[..|jobs| - 1], render), last.recs, last.ws, render);
    }
  }

  /** What a calm sync writes: the record's fields into the row, and a history entry with the new version,
      the detail, and exactly the fields that differed, or all of them for a first version. */
  lemma WriteIs(t: Tables, rec: Record, render: string -> string, f: Field)
    requires Usable(rec) && SyncedOne(t, rec, CALM, render).1 != Some(Unchanged)
    ensures var (t', action) := SyncedOne(t, rec, CALM, render);
      && rec.id in t'.configs && rec.id in t'.history && t'.history[rec.id] != []
      && var c, entry := t'.configs[rec.id], t'.history[rec.id][|t'.history[rec.id]| - 1];
      && c.exchange == rec.exchange && c.market == rec.market && c.allocation == rec.allocation
      && c.detail == rec.detail.value == entry.snapshot && c.version == entry.version
      && (rec.id in t.configs ==>
            && action == Some(Updated) && c.version == t.configs[rec.id].version + 1
            && (f in entry.changed <==> Differs(f, t.configs[rec.id], rec, rec.detail.value, render)))
      && (rec.id !in t.configs ==> action == Some(Inserted) && c.version == 1 && f in entry.changed)
  {
    hide Trim, Changes, Differs;
    if rec.id in t.configs {
      ChangesAre(t.configs[rec.id], rec, rec.detail.value, render);
    } else {
      AllFieldsListed(f);
    }
  }

  lemma AllFieldsListed(f: Field)
    ensures f in ALL_FIELDS
  {
    match f
    case ExchangeProvider => assert ALL_FIELDS[0] == f;
    case MarketProvider => assert ALL_FIELDS[1] == f;
    case AllocationPct => assert ALL_FIELDS[2] == f;
    case DetailField => assert ALL_FIELDS[3] == f;
  }

  /* Syncing again. */

  /** The row says what the record says, as the store renders it. */
  predicate InStep(t: Tables, rec: Record, render: string -> string) {
    rec.detail.Some? && rec.id in t.configs && Changes(t.configs[rec.id], rec, rec.detail.value, render) == []
  }

  lemma InStepIff(t: Tables, rec: Record, render: string -> string)
    requires rec.detail.Some? && rec.id in t.configs
    ensures var c := t.configs[rec.id];
      InStep(t, rec, render) <==>
      && c.exchange == rec.exchange && c.market == rec.market && c.allocation == rec.allocation
      && Trim(render(c.detail)) == rec.detail.value
  {
    hide Trim, Changes;
    var c, detail := t.configs[rec.id], rec.detail.value;
    var changed := Changes(c, rec, detail, render);
    ChangesAre(c, rec, detail, render);
    if changed != [] {
      assert changed[0] in changed;
    }
    if changed == [] {
      assert forall f :: !Differs(f, c, rec, detail, render);
      assert !Differs(AllocationPct, c, rec, detail, render) && !Differs(DetailField, c, rec, detail, render);
      assert !Differs(ExchangeProvider, c, rec, detail, render) && !Differs(MarketProvider, c, rec, detail, render);
    }
  }

  predicate Usable(rec: Record) {
    Trim(rec.id) != "" && rec.detail.Some?
  }

  /** The store gives the record's detail back as the text it was given. */
  predicate ComesBack(rec: Record, render: string -> string) {
    rec.detail.Some? && Trim(render(rec.detail.value)) == rec.detail.value
  }

  /** Rendering what was rendered changes nothing more. */
  ghost predicate Stable(render: string -> string) {
    forall x :: Trim(render(Trim(render(x)))) == Trim(render(x))
  }

  /** A store that returns exactly what it was given is one such store. */
  lemma VerbatimStoreIsStable(rec: Record)
    ensures Stable((text: string) => text)
    ensures rec.detail.Some? && IsTrimmed(rec.detail.value) ==> ComesBack(rec, (text: string) => text)
  {
  }

  function Calm(n: nat): (ws: seq<Weather>)
    ensures |ws| == n
    ensures n > 0 ==> ws[n - 1] == CALM && ws[..n - 1] == Calm(n - 1)
  {
    if n == 0 then [] else Calm(n - 1) + [CALM]
  }

  /** After a calm sync a record is in step exactly when its detail comes back as it was given. */
  lemma SyncedOneInStep(t: Tables, rec: Record, render: string -> string)
    requires Usable(rec) && Stable(render)
    ensures var (t', action) := SyncedOne(t, rec, CALM, render);
      && action.Some? && rec.id in t'.configs
      && (InStep(t', rec, render) <==> ComesBack(rec, render))
      && (action == Some(Unchanged) <==> InStep(t, rec, render))
      && (action == Some(Unchanged) ==> t' == t)
  {
    var (t', action) := SyncedOne(t, rec, CALM, render);
    InStepIff(t', rec, render);
    hide Trim, Changes;
    if InStep(t, rec, render) {
      InStepIff(t, rec, render);
      assert Trim(render(Trim(render(t.configs[rec.id].detail)))) == Trim(render(t.configs[rec.id].detail));
    }
  }

  lemma OthersStayInStep(t: Tables, rec: Record, w: Weather, other: Record, render: string -> string)
    requires other.id != rec.id
    ensures InStep(SyncedOne(t, rec, w, render).0, other, render) <==> InStep(t, other, render)
  {
    hide Trim, Changes;
  }

  predicate DistinctIds(recs: seq<Record>) {
    forall i, j :: 0 <= i < j < |recs| ==> recs[i].id != recs[j].id
  }

  lemma {:induction false} CalmSyncInStep(t: Tables, recs: seq<Record>, render: string -> string)
    requires Stable(render) && DistinctIds(recs) && forall i :: 0 <= i < |recs| ==> Usable(recs[i])
    ensures var (t', s, ok) := SyncedAll(t, recs, Calm(|recs|), render);
      ok && forall i :: 0 <= i < |recs| ==> (InStep(t', recs[i], render) <==> ComesBack(recs[i], render))
  {
    hide Trim, SyncedOne, InStep, ComesBack, Stable, Calm, Usable;
    if recs != [] {
      var n := |recs| - 1;
      CalmSyncInStep(t, recs[..n], render);
      var (t', s, ok) := SyncedAll(t, recs[..n], Calm(n), render);
      assert Usable(recs[n]);
      SyncedOneInStep(t', recs[n], render);
      forall i | 0 <= i < n
        ensures InStep(SyncedOne(t', recs[n], CALM, render).0, recs[i], render) <==> ComesBack(recs[i], render)
      {
        assert recs[..n][i] == recs[i];
        OthersStayInStep(t', recs[n], CALM, recs[i], render);
      }
    }
  }

  function Ids(recs: seq<Record>): seq<string> {
    if recs == [] then [] else Ids(recs[..|recs| - 1]) + [recs[|recs| - 1].id]
  }

  predicate AllInStep(t: Tables, recs: seq<Record>, render: string -> string) {
    forall i :: 0 <= i < |recs| ==> InStep(t, recs[i], render)
  }

  lemma AllInStepOneMore(t: Tables, recs: seq<Record>, render: string -> string)
    requires recs != []
    ensures AllInStep(t, recs, render) <==>
      AllInStep(t, recs[..|recs| - 1], render) && InStep(t, recs[|recs| - 1], render)
  {
  }

  predicate NothingWritten(s: Summary) {
    s.inserted == [] && s.updated == []
  }

  lemma RecordedWrites(s: Summary, id: string, action: Action)
    ensures NothingWritten(Recorded(s, id, action)) <==> NothingWritten(s) && action == Unchanged
  {
  }

  /** A calm sync reports every record unchanged exactly when all are in step, and then writes nothing. */
  lemma {:induction false} AllUnchangedIff(t: Tables, recs: seq<Record>, render: string -> string)
    requires Stable(render) && forall i :: 0 <= i < |recs| ==> Usable(recs[i])
    ensures var (t', s, ok) := SyncedAll(t, recs, Calm(|recs|), render);
      && ok
      && (NothingWritten(s) <==> AllInStep(t, recs, render))
      && (AllInStep(t, recs, render) ==> t' == t && s == Summary([], [], Ids(recs)))
  {
    hide Trim, SyncedOne, InStep, Stable, Calm, Usable, AllInStep;
    if recs == [] {
      NothingToStep(t, render);
    } else {
      hide NothingWritten;
      var n := |recs| - 1;
      AllUnchangedIff(t, recs[..n], render);
      var (t', s, ok) := SyncedAll(t, recs[..n], Calm(n), render);
      assert Usable(recs[n]);
      SyncedOneInStep(t', recs[n], render);
      AllInStepOneMore(t, recs, render);
      RecordedWrites(s, recs[n].id, SyncedOne(t', recs[n], CALM, render).1.value);
    }
  }

  lemma NothingToStep(t: Tables, render: string -> string)
    ensures AllInStep(t, [], render)
  {
  }

  /** Syncing the same records again reports all of them unchanged, and writes nothing, exactly when the
      store gives every detail back as the text it was given. */
  lemma ResyncUnchangedIff(t: Tables, recs: seq<Record>, render: string -> string)
    requires Stable(render) && DistinctIds(recs) && forall i :: 0 <= i < |recs| ==> Usable(recs[i])
    ensures var once := SyncedAll(t, recs, Calm(|recs|), render).0;
      var (again, s, ok) := SyncedAll(once, recs, Calm(|recs|), render);
      && ok
      && (s == Summary([], [], Ids(recs)) <==> forall i :: 0 <= i < |recs| ==> ComesBack(recs[i], render))
      && (s == Summary([], [], Ids(recs)) ==> again == once)
  {
    hide Trim, SyncedAll, InStep, ComesBack, Stable, Usable;
    CalmSyncInStep(t, recs, render);
    AllUnchangedIff(SyncedAll(t, recs, Calm(|recs|), render).0, recs, render);
  }

  /* A store that reformats. */

  function VersionOf(t: Tables, id: string): int {
    if id in t.configs then t.configs[id].version else 0
  }

  /** The tables after syncing one record `n` times without trouble. */
  function CalmSyncs(t: Tables, rec: Record, n: nat, render: string -> string): Tables {
    if n == 0 then t else SyncedOne(CalmSyncs(t, rec, n - 1, render), rec, CALM, render).0
  }

  lemma SyncAddsVersion(t: Tables, rec: Record, render: string -> string)
    requires Usable(rec) && Stable(render) && !ComesBack(rec, render)
    ensures var t' := SyncedOne(t, rec, CALM, render).0;
      && VersionOf(t', rec.id) == VersionOf(t, rec.id) + 1
      && HistoryOf(t', rec.id)[..|HistoryOf(t, rec.id)|] == HistoryOf(t, rec.id)
      && |HistoryOf(t', rec.id)| == |HistoryOf(t, rec.id)| + 1
  {
    SyncedOneInStep(t, rec, render);
    hide Trim, Stable, ComesBack, Changes;
  }

  /** A record whose detail does not come back gains a version and a history entry at every sync, though
      nothing about it changes. */
  lemma {:induction false} UnchangedRecordGainsVersions(t: Tables, rec: Record, n: nat, render: string -> string)
    requires Usable(rec) && Stable(render) && !ComesBack(rec, render)
    ensures var t' := CalmSyncs(t, rec, n, render);
      && VersionOf(t', rec.id) == VersionOf(t, rec.id) + n
      && |HistoryOf(t', rec.id)| == |HistoryOf(t, rec.id)| + n
  {
    hide SyncedOne, Stable, ComesBack, Usable, HistoryOf, VersionOf;
    if n > 0 {
      UnchangedRecordGainsVersions(t, rec, n - 1, render);
      SyncAddsVersion(CalmSyncs(t, rec, n - 1, render), rec, render);
    }
  }

  const COMPACT := "{\"a\":1}"
  const SPACED := "{\"a\": 1}"

  /** A store that, as `JSONB` does, gives the text of an object back with a space after the colon. */
  function Spaced(text: string): string {
    if Trim(text) == COMPACT then SPACED else text
  }

  lemma SpacedIsStable()
    ensures Stable(Spaced)
    ensures Trim(Spaced(COMPACT)) != COMPACT
  {
  }

  /** With that store a record of this object gains a version at each of `n` syncs. */
  lemma ReformattedRecordGainsVersions(t: Tables, rec: Record, n: nat)
    requires Trim(rec.id) != "" && rec.detail == Some(COMPACT)
    ensures VersionOf(CalmSyncs(t, rec, n, Spaced), rec.id) == VersionOf(t, rec.id) + n
  {
    hide Trim;
    SpacedIsStable();
    UnchangedRecordGainsVersions(t, rec, n, Spaced);
  }

  /* The tables in place. */

  class ConfigStore {
    const render: string -> string
    var configs: map<string, Config>
    var history: map<string, seq<Entry>>

    constructor (render: string -> string)
      ensures this.render == render && Value() == Tables(map[], map[])
    {
      this.render := render;
      configs, history := map[], map[];
    }

    function Value(): Tables
      reads this
    {
      Tables(configs, history)
    }

    /** One transaction: both tables are written, or neither. */
    method Write(rec: Record, detail: string, version: int, changed: seq<Field>, tx: Tx) returns (ok: bool)
      modifies this
      ensures Value() == Ended(old(Value()), Written(old(Value()), rec, detail, version, changed), tx)
      ensures ok <==> tx == Committed
      ensures tx == RolledBack ==> Value() == old(Value())
      ensures tx != RolledBack ==>
        && configs == old(configs)[rec.id := Config(version, rec.exchange, rec.market, rec.allocation, detail)]
        && rec.id in history && history == old(history)[rec.id := history[rec.id]]
        && history[rec.id] == (if rec.id in old(history) then old(history)[rec.id] else [])
                              + [Entry(version, detail, changed)]
    {
      ok := tx == Committed;
      if tx == RolledBack {
        return;
      }
      configs := configs[rec.id := Config(version, rec.exchange, rec.market, rec.allocation, detail)];
      var entries := if rec.id in history then history[rec.id] else [];
      history := history[rec.id := entries + [Entry(version, detail, changed)]];
    }

    method SyncOne(rec: Record, w: Weather) returns (action: Option<Action>)
      modifies this
      ensures (Value(), action) == SyncedOne(old(Value()), rec, w, render)
    {
      hide Trim, Changes, Written;
      if Trim(rec.id) == "" || rec.detail.None? || !w.readable {
        return None;
      }
      var detail := rec.detail.value;
      if rec.id !in configs {
        var ok := Write(rec, detail, 1, ALL_FIELDS, w.tx);
        return if ok then Some(Inserted) else None;
      }
      var changed := Changes(configs[rec.id], rec, detail, render);
      if changed == [] {
        return Some(Unchanged);
      }
      var ok := Write(rec, detail, configs[rec.id].version + 1, changed, w.tx);
      return if ok then Some(Updated) else None;
    }

    method Sync(recs: seq<Record>, ws: seq<Weather>) returns (summary: Summary, ok: bool)
      requires |ws| == |recs|
      modifies this
      ensures (Value(), summary, ok) == SyncedAll(old(Value()), recs, ws, render)
      ensures old(Versioned(Value())) ==> Versioned(Value())
    {
      hide SyncedOne, Versioned;
      if old(Versioned(Value())) {
        SyncedAllIsVersioned(Value(), recs, ws, render);
      }
      summary := Summary([], [], []);
      for i := 0 to |recs|
        invariant (Value(), summary, true) == SyncedAll(old(Value()), recs[..i], ws[..i], render)
      {
        assert recs[..i + 1][..i] == recs[..i] && ws[..i + 1][..i] == ws[..i];
        var action := SyncOne(recs[i], ws[i]);
        if action.None? {
          StopsAtFailure(old(Value()), recs, ws, render, i + 1);
          return summary, false;
        }
        match action.value
        case Inserted => summary := summary.(inserted := summary.inserted + [recs[i].id]);
        case Updated => summary := summary.(updated := summary.updated + [recs[i].id]);
        case Unchanged => summary := summary.(same := summary.same + [recs[i].id]);
      }
      assert recs[..|recs|] == recs && ws[..|ws|] == ws;
      ok := true;
    }
  }

  /** After a failure the remaining records are not looked at. */
  lemma {:induction false} StopsAtFailure(t: Tables, recs: seq<Record>, ws: seq<Weather>, render: string -> string,
                                          k: nat)
    requires |ws| == |recs| && k <= |recs| && !SyncedAll(t, recs[..k], ws[..k], render).2
    ensures SyncedAll(t, recs, ws, render) == SyncedAll(t, recs[..k], ws[..k], render)
    decreases |recs|
  {
    hide SyncedOne, Recorded;
    if k == |recs| {
      assert recs[..k] == recs && ws[..k] == ws;
    } else {
      var n := |recs| - 1;
      assert recs[..n][..k] == recs[..k] && ws[..n][..k] == ws[..k];
      StopsAtFailure(t, recs[..n], ws[..n], render, k);
    }
  }
}
