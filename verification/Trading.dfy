/**
 The manager's virtual books: which trader owns which symbol, and how the books are reconciled
 against whatever positions the exchange reports. Calls are sequential here; interleavings of the
 critical sections are the subject of OwnershipProtocol.
 */
module Trading {
  import opened Clock
  import opened DailyRisk
  import opened Lifecycle
  import opened Options
  import opened Policy
  import opened Reals
  import opened RuntimeStore
  import opened Text

  datatype Side = Long | Short

  datatype VirtualPosition = VirtualPosition(symbol: string, side: Side, quantity: real, notionalUsd: real,
                                             entryPrice: real, leverage: int)

  /** A position as the exchange reports it; numbers that do not parse are zero. */
  datatype ExchangePosition = ExchangePosition(coin: string, size: real, entryPx: Option<real>, value: real,
                                               leverage: int)

  const QUANTITY_TOLERANCE := 0.000001

  /** The virtual position that mirrors a nonzero exchange position. */
  function ToVirtual(p: ExchangePosition): VirtualPosition
    requires p.size != 0.0
  {
    var qty := if p.size < 0.0 then -p.size else p.size;
    var quoted := if p.entryPx.Some? then p.entryPx.value else 0.0;
    var entry := if quoted <= 0.0 && p.value > 0.0 then p.value / qty else quoted;
    var side := if p.size < 0.0 then Short else Long;
    VirtualPosition(p.coin, side, qty, if entry > 0.0 then entry * qty else p.value, entry, p.leverage)
  }

  lemma VirtualSymbol(p: ExchangePosition)
    requires p.size != 0.0
    ensures ToVirtual(p).symbol == p.coin
  {
  }

  /** The comparison of a virtual position with an exchange position, as the code makes it. */
  predicate Matches(v: VirtualPosition, p: ExchangePosition)
    requires p.size != 0.0
  {
    v.side == ToVirtual(p).side && Distance(v.quantity, ToVirtual(p).quantity) <= QUANTITY_TOLERANCE
  }

  /** Short for a negative size, and the size equal within the tolerance. */
  predicate SameExposure(v: VirtualPosition, p: ExchangePosition) {
    var size := if p.size < 0.0 then -p.size else p.size;
    (v.side == Short <==> p.size < 0.0) && -0.000001 <= v.quantity - size <= 0.000001
  }

  lemma MatchesIff(v: VirtualPosition, p: ExchangePosition)
    requires p.size != 0.0
    ensures Matches(v, p) <==> SameExposure(v, p)
  {
  }

  /** What an adopted position says: the coin, side, size and leverage of the report; its quoted entry
      price, or else the price at which the size has the reported value; and the value at that price, or
      the reported one where there is no price. */
  predicate IsMirrorOf(v: VirtualPosition, p: ExchangePosition) {
    && v.symbol == p.coin && v.leverage == p.leverage
    && (v.side == Short <==> p.size < 0.0) && v.quantity == (if p.size < 0.0 then -p.size else p.size)
    && (p.entryPx.Some? && p.entryPx.value > 0.0 ==> v.entryPrice == p.entryPx.value)
    && (!(p.entryPx.Some? && p.entryPx.value > 0.0) && p.value > 0.0 ==> v.entryPrice * v.quantity == p.value)
    && (!(p.entryPx.Some? && p.entryPx.value > 0.0) && p.value <= 0.0 ==> v.entryPrice <= 0.0)
    && v.notionalUsd == (if v.entryPrice > 0.0 then v.entryPrice * v.quantity else p.value)
  }

  lemma VirtualIsMirror(p: ExchangePosition)
    requires p.size != 0.0
    ensures IsMirrorOf(ToVirtual(p), p)
  {
    QuotientTimes(p.value, if p.size < 0.0 then -p.size else p.size);
  }

  /** `p` is the last nonzero report for the symbol `key`. */
  predicate IsReported(raw: seq<ExchangePosition>, key: string, p: ExchangePosition) {
    exists i :: 0 <= i < |raw| && raw[i] == p && p.size != 0.0 && NormalizeSymbol(p.coin) == key &&
      forall j :: i < j < |raw| && raw[j].size != 0.0 ==> NormalizeSymbol(raw[j].coin) != key
  }

  /** Whether any nonzero position is reported for the symbol. */
  predicate Reports(raw: seq<ExchangePosition>, key: string) {
    exists i :: 0 <= i < |raw| && raw[i].size != 0.0 && NormalizeSymbol(raw[i].coin) == key
  }

  lemma ReportedUnique(raw: seq<ExchangePosition>, key: string, p: ExchangePosition, q: ExchangePosition)
    requires IsReported(raw, key, p) && IsReported(raw, key, q)
    ensures p == q
  {
  }

  /** Indexes the nonzero reports by symbol, later ones replacing earlier ones. */
  method Actual(raw: seq<ExchangePosition>) returns (actual: map<string, ExchangePosition>)
    ensures Indexes(actual, raw)
  {
    hide NormalizeSymbol;
    actual := map[];
    for n := 0 to |raw|
      invariant forall key :: key in actual <==> Reports(raw[..n], key)
      invariant forall key :: key in actual ==> IsReported(raw[..n], key, actual[key])
    {
      var p := raw[n];
      ghost var prefix, more := raw[..n], raw[..n + 1];
      assert more == prefix + [p];
      ghost var before := actual;
      if p.size != 0.0 {
        actual := actual[NormalizeSymbol(p.coin) := p];
      }
      forall key
        ensures key in actual <==> Reports(more, key)
        ensures key in actual ==> IsReported(more, key, actual[key])
      {
        ReportsOneMore(prefix, p, key);
        if key in before {
          ReportedOneMore(prefix, p, key, before[key]);
        }
      }
    }
    assert raw[..|raw|] == raw;
  }

  lemma ReportsOneMore(prefix: seq<ExchangePosition>, p: ExchangePosition, key: string)
    ensures Reports(prefix + [p], key) <==> Reports(prefix, key) || (p.size != 0.0 && NormalizeSymbol(p.coin) == key)
    ensures p.size != 0.0 && NormalizeSymbol(p.coin) == key ==> IsReported(prefix + [p], key, p)
  {
    hide NormalizeSymbol;
    var more := prefix + [p];
    assert more[|prefix|] == p;
    if Reports(prefix, key) {
      var i :| 0 <= i < |prefix| && prefix[i].size != 0.0 && NormalizeSymbol(prefix[i].coin) == key;
      assert more[i] == prefix[i];
    }
  }

  lemma ReportedOneMore(prefix: seq<ExchangePosition>, p: ExchangePosition, key: string, q: ExchangePosition)
    requires IsReported(prefix, key, q)
    ensures p.size == 0.0 || NormalizeSymbol(p.coin) != key ==> IsReported(prefix + [p], key, q)
  {
    hide NormalizeSymbol;
    var more := prefix + [p];
    var i :| 0 <= i < |prefix| && prefix[i] == q && q.size != 0.0 && NormalizeSymbol(q.coin) == key &&
      forall j :: i < j < |prefix| && prefix[j].size != 0.0 ==> NormalizeSymbol(prefix[j].coin) != key;
    assert more[i] == q;
  }

  datatype OrderStyle = LimitIoc | MarketIoc | OtherStyle

  class VirtualTrader {
    const id: string
    const params: RiskParams
    const modeAllowed: bool                // the execution-mode gate
    const style: OrderStyle
    const slippageBps: real                // of market orders
    var state: TraderState
    var pauseUntil: Time
    var circuit: Circuit
    var daily: Baseline
    var alloc: Allocation
    var performance: Option<PerformanceDetail>
    var lastDecisionAt: Time
    var interval: int
    var configVersion: int
    var positions: map<string, VirtualPosition>

    constructor (id: string, params: RiskParams, modeAllowed: bool, style: OrderStyle, slippageBps: real, life: Life)
      ensures this.id == id && this.params == params && this.modeAllowed == modeAllowed
      ensures this.style == style && this.slippageBps == slippageBps
      ensures CurrentLife() == life && positions == map[]
    {
      this.id, this.params, this.modeAllowed := id, params, modeAllowed;
      this.style, this.slippageBps := style, slippageBps;
      state, pauseUntil, circuit, daily, alloc := life.state, life.pauseUntil, life.circuit, life.daily, life.alloc;
      performance, lastDecisionAt, interval := life.performance, life.lastDecisionAt, life.interval;
      configVersion, positions := life.configVersion, map[];
    }

    function CurrentLife(): Life
      reads this
    {
      Life(state, pauseUntil, circuit, daily, alloc, performance, lastDecisionAt, interval, configVersion)
    }

    method Start()
      modifies `state, `circuit
      ensures CurrentLife() == Started(old(CurrentLife()))
      ensures state == Running && (old(state) != Running ==> circuit == NoCircuit)
    {
      if state == Running {
        return;
      }
      state := Running;
      circuit := NoCircuit;
    }

    method Pause()
      modifies `state
      ensures CurrentLife() == PausedByOperator(old(CurrentLife()))
      ensures state == if old(state) == Stopped then Stopped else Paused
    {
      if state != Stopped {
        state := Paused;
      }
    }

    method Resume()
      modifies `state, `pauseUntil, `circuit
      ensures CurrentLife() == Resumed(old(CurrentLife()))
      ensures state == Running && (old(state) != Running ==> pauseUntil == ZERO && circuit == NoCircuit)
    {
      if state == Running {
        return;
      }
      state := Running;
      pauseUntil := ZERO;
      circuit := NoCircuit;
    }

    method Stop()
      modifies `state
      ensures CurrentLife() == old(CurrentLife()).(state := Stopped)
    {
      state := Stopped;
    }

    method TripCircuit(reason: string, now: Time)
      modifies `state, `pauseUntil, `circuit
      ensures CurrentLife() == Tripped(old(CurrentLife()), reason, now)
      ensures state == Paused && pauseUntil == ZERO && circuit.blocked && circuit.triggeredAt == now
      ensures circuit.date == if daily.date == NoDate then Day(UtcDay(now)) else daily.date
      ensures circuit.reason == if Trim(reason) == "" then "daily loss limit exceeded" else Trim(reason)
    {
      var why := Trim(reason);
      if why == "" {
        why := "daily loss limit exceeded";
      }
      var date := Day(UtcDay(now));
      if daily.date != NoDate {
        date := daily.date;
      }
      state := Paused;
      pauseUntil := ZERO;
      circuit := Circuit(true, date, why, now);
    }

    method ClearStaleCircuit()
      modifies `circuit
      ensures CurrentLife() == StaleCircuitCleared(old(CurrentLife()))
      ensures circuit == if CircuitIsStale(old(circuit), daily) then NoCircuit else old(circuit)
    {
      if !circuit.blocked || daily.date == NoDate {
        return;
      }
      if circuit.date == NoDate {
        if !SameUtcDay(circuit.triggeredAt, daily.updatedAt) {
          circuit := NoCircuit;
        }
        return;
      }
      if circuit.date != daily.date {
        circuit := NoCircuit;
      }
    }

    /** The account half of a sync. */
    method ApplyAccount(equity: real, marginUsed: real, unrealizedPnl: real, now: Time)
      modifies `alloc, `daily, `circuit
      ensures CurrentLife() == AccountSynced(old(CurrentLife()), equity, marginUsed, unrealizedPnl, now)
      ensures alloc.equity == equity && alloc.marginUsed == marginUsed && alloc.unrealizedPnl == unrealizedPnl
      ensures alloc.available == if equity > marginUsed then equity - marginUsed else 0.0
      ensures circuit == if CircuitIsStale(old(circuit), daily) then NoCircuit else old(circuit)
    {
      var available := if equity - marginUsed > 0.0 then equity - marginUsed else 0.0;
      alloc := Allocation(alloc.allocatedEquity, equity, marginUsed, available, unrealizedPnl);
      daily := Updated(daily, equity, now);
      ClearStaleCircuit();
    }
  }

  type Book = map<string, VirtualPosition>

  predicate Held(books: map<string, Book>, id: string, key: string) {
    id in books && key in books[id]
  }

  predicate Owned(owners: map<string, string>, id: string, key: string) {
    key in owners && owners[key] == id
  }

  /** What every call relies on and keeps: a held symbol is indexed to its holder, and the index speaks
      of normalised symbols and of traders with a name. It may still name a trader for a symbol that is
      in no book. */
  ghost predicate Covered(books: map<string, Book>, owners: map<string, string>) {
    && (forall id, key :: Held(books, id, key) ==> Owned(owners, id, key))
    && (forall key :: key in owners ==> key != "" && NormalizeSymbol(key) == key && owners[key] != "")
  }

  /** The index and the books are the same relation. */
  ghost predicate Agree(books: map<string, Book>, owners: map<string, string>) {
    Covered(books, owners) && forall id, key :: Owned(owners, id, key) ==> Held(books, id, key)
  }

  /** The symbols indexed to a trader that are not in its book. */
  function Stale(book: Book, owners: map<string, string>, id: string): set<string> {
    set key | key in owners && owners[key] == id && key !in book
  }

  /** The books after an assignment by the given object: only a registered one shows. */
  function AssignedBooks(books: map<string, Book>, registered: bool, id: string, key: string,
                         pos: VirtualPosition): map<string, Book> {
    if registered && id in books then books[id := books[id][key := pos]] else books
  }

  lemma CoveredAfterAssign(books: map<string, Book>, owners: map<string, string>, registered: bool, id: string,
                           key: string, pos: VirtualPosition)
    requires Covered(books, owners) && id != "" && key != "" && NormalizeSymbol(key) == key
    requires key in owners ==> owners[key] == id
    ensures Covered(AssignedBooks(books, registered, id, key, pos), owners[key := id])
    ensures Agree(books, owners) && registered && id in books ==>
      Agree(AssignedBooks(books, registered, id, key, pos), owners[key := id])
  {
    hide NormalizeSymbol;
    var books', owners' := AssignedBooks(books, registered, id, key, pos), owners[key := id];
    forall i, k
      ensures Held(books', i, k) ==> Owned(owners', i, k)
      ensures Agree(books, owners) && registered && id in books && Owned(owners', i, k) ==> Held(books', i, k)
    {
      assert Held(books, i, k) ==> Owned(owners, i, k);
    }
  }

  lemma CoveredAfterRelease(books: map<string, Book>, owners: map<string, string>, id: string, key: string)
    requires Covered(books, owners) && (key in owners ==> owners[key] == id)
    ensures var books' := if id in books then books[id := books[id] - {key}] else books;
      && Covered(books', owners - {key})
      && (Agree(books, owners) ==> Agree(books', owners - {key}))
  {
    hide NormalizeSymbol;
    var books', owners' := if id in books then books[id := books[id] - {key}] else books, owners - {key};
    forall i, k
      ensures Held(books', i, k) ==> Owned(owners', i, k)
      ensures Agree(books, owners) && Owned(owners', i, k) ==> Held(books', i, k)
    {
      assert Held(books, i, k) ==> Owned(owners, i, k);
    }
  }

  /** A trader may join with an empty book. While index and books agree, the index does not name it yet. */
  lemma CoveredAfterRegister(books: map<string, Book>, owners: map<string, string>, id: string)
    requires Covered(books, owners) && id !in books
    ensures Covered(books[id := map[]], owners)
    ensures Agree(books, owners) ==> Agree(books[id := map[]], owners)
    ensures Agree(books, owners) ==> forall key :: key in owners ==> owners[key] != id
  {
    hide NormalizeSymbol;
    var books' := books[id := map[]];
    forall i, k
      ensures Held(books', i, k) ==> Owned(owners, i, k)
      ensures Agree(books, owners) && Owned(owners, i, k) ==> Held(books', i, k)
    {
      assert Held(books, i, k) ==> Owned(owners, i, k);
    }
    forall k | Agree(books, owners) && k in owners
      ensures owners[k] != id
    {
      assert Owned(owners, owners[k], k);
    }
  }

  /** A trader may leave once the symbols of its book are out of the index; its stale entries stay. */
  lemma CoveredAfterUnregister(books: map<string, Book>, owners: map<string, string>, id: string)
    requires Covered(books, owners) && id in books
    ensures Covered(books - {id}, owners - books[id].Keys)
    ensures Agree(books, owners) ==> Agree(books - {id}, owners - books[id].Keys)
    ensures forall key :: key in owners - books[id].Keys && owners[key] == id <==> key in Stale(books[id], owners, id)
  {
    hide NormalizeSymbol;
    var books', owners' := books - {id}, owners - books[id].Keys;
    forall i, k
      ensures Held(books', i, k) ==> Owned(owners', i, k)
      ensures Agree(books, owners) && Owned(owners', i, k) ==> Held(books', i, k)
    {
      assert Held(books, i, k) ==> Owned(owners, i, k);
      assert Held(books, id, k) ==> Owned(owners, id, k);
    }
  }

  /** The index with the given symbols given to one trader. */
  function GivenTo(owners: map<string, string>, id: string, keys: set<string>): map<string, string> {
    owners + map key | key in keys :: id
  }

  /** The book with the given reported symbols mirrored into it. */
  function Mirroring(book: Book, actual: map<string, ExchangePosition>, keys: set<string>): Book
    requires keys <= actual.Keys && forall key :: key in actual ==> actual[key].size != 0.0
  {
    book + map key | key in keys :: ToVirtual(actual[key])
  }

  lemma UpdatedTwice(books: map<string, Book>, id: string, first: Book, second: Book)
    ensures books[id := first][id := second] == books[id := second]
  {
  }

  lemma GoneOneMore(all: set<string>, remaining: set<string>, actual: set<string>, key: string)
    requires key in all && key !in remaining
    ensures (all - remaining) - actual == ((all - (remaining + {key})) - actual) + if key in actual then {} else {key}
  {
  }

  lemma MinusOneMore<T>(m: map<string, T>, gone: set<string>, key: string)
    ensures m - (gone + {key}) == m - gone - {key}
  {
  }

  lemma GivenToOneMore(owners: map<string, string>, id: string, keys: set<string>, key: string)
    ensures GivenTo(owners, id, {}) == owners
    ensures GivenTo(owners, id, keys + {key}) == GivenTo(owners, id, keys)[key := id]
    ensures key !in keys ==> (key in GivenTo(owners, id, keys) <==> key in owners)
    ensures key !in keys && key in owners ==> GivenTo(owners, id, keys)[key] == owners[key]
  {
  }

  lemma MirroringOneMore(book: Book, actual: map<string, ExchangePosition>, keys: set<string>, key: string)
    requires keys <= actual.Keys && key in actual && forall k :: k in actual ==> actual[k].size != 0.0
    ensures Mirroring(book, actual, {}) == book
    ensures Mirroring(book, actual, keys + {key}) == Mirroring(book, actual, keys)[key := ToVirtual(actual[key])]
  {
    hide ToVirtual;
  }

  /** Every symbol of the book that is still reported has the reported side and quantity. */
  ghost predicate NoMismatch(book: Book, raw: seq<ExchangePosition>) {
    forall key, p :: key in book && IsReported(raw, key, p) ==> SameExposure(book[key], p)
  }

  /** A reconciled book: it is exactly the reported symbols its trader owns, each with the reported side
      and quantity, and every reported symbol has an owner. */
  ghost predicate Mirrors(book: Book, owners: map<string, string>, id: string, raw: seq<ExchangePosition>) {
    && (forall key :: key in book <==> Reports(raw, key) && Owned(owners, id, key))
    && (forall key, p :: key in book && IsReported(raw, key, p) ==> SameExposure(book[key], p))
    && (forall key :: Reports(raw, key) ==> key in owners)
  }

  /** The reported positions, indexed by symbol. */
  ghost predicate Indexes(actual: map<string, ExchangePosition>, raw: seq<ExchangePosition>) {
    && (forall key :: key in actual <==> Reports(raw, key))
    && (forall key :: key in actual ==>
          IsReported(raw, key, actual[key]) && actual[key].size != 0.0 && NormalizeSymbol(actual[key].coin) == key)
  }

  lemma NoMismatchIff(book: Book, raw: seq<ExchangePosition>, actual: map<string, ExchangePosition>)
    requires Indexes(actual, raw) && forall key :: key in actual ==> actual[key].size != 0.0
    ensures NoMismatch(book, raw) <==> AllMatch(book, actual)
  {
    hide NormalizeSymbol, Matches, SameExposure;
    forall key, p | key in book && IsReported(raw, key, p) && key in actual
      ensures p == actual[key]
    {
      ReportedUnique(raw, key, p, actual[key]);
    }
    forall key, p | IsReported(raw, key, p)
      ensures Reports(raw, key)
    {
    }
    forall key | key in book && key in actual
      ensures Matches(book[key], actual[key]) <==> SameExposure(book[key], actual[key])
    {
      MatchesIff(book[key], actual[key]);
    }
  }

  /** What is in the book and among the given reports has the reported side and quantity. */
  ghost predicate AllMatch(book: Book, actual: map<string, ExchangePosition>)
    requires forall key :: key in actual ==> actual[key].size != 0.0
  {
    forall key :: key in book && key in actual ==> Matches(book[key], actual[key])
  }

  lemma AllMatchOneMore(book: Book, actual: map<string, ExchangePosition>, remaining: set<string>, key: string)
    requires key in book && key !in remaining && forall k :: k in actual ==> actual[k].size != 0.0
    ensures AllMatch(book - remaining, actual) <==>
      AllMatch(book - (remaining + {key}), actual) && (key in actual ==> Matches(book[key], actual[key]))
  {
  }

  lemma AllMatchPart(book: Book, actual: map<string, ExchangePosition>, remaining: set<string>)
    requires forall k :: k in actual ==> actual[k].size != 0.0
    ensures AllMatch(book, actual) ==> AllMatch(book - remaining, actual)
    ensures remaining == {} ==> AllMatch(book, actual) == AllMatch(book - remaining, actual)
    ensures remaining == book.Keys ==> AllMatch(book - remaining, actual)
  {
  }

  lemma IndexedNonzero(actual: map<string, ExchangePosition>, raw: seq<ExchangePosition>)
    requires Indexes(actual, raw)
    ensures forall key :: key in actual ==> actual[key].size != 0.0 && NormalizeSymbol(actual[key].coin) == key
    ensures "" in actual <==> Reports(raw, "")
  {
  }

  lemma MirrorsItself(p: ExchangePosition)
    requires p.size != 0.0
    ensures SameExposure(ToVirtual(p), p)
  {
  }

  /** The reported symbols that a reconciliation takes over: those nobody owns, and those indexed to the
      trader but missing from its book. */
  function Adoptable(actual: map<string, ExchangePosition>, owners: map<string, string>, id: string,
                     book: Book): set<string> {
    set key | key in actual && (key !in owners || (owners[key] == id && key !in book))
  }

  /** Dropping what is gone and taking over what is adoptable yields a reconciled book. */
  lemma ReconciledMirrors(books: map<string, Book>, owners: map<string, string>, id: string,
                          raw: seq<ExchangePosition>, actual: map<string, ExchangePosition>, gone: set<string>,
                          adopted: set<string>)
    requires Covered(books, owners) && id in books && Indexes(actual, raw) && NoMismatch(books[id], raw)
    requires gone == books[id].Keys - actual.Keys && adopted == Adoptable(actual, owners - gone, id, books[id])
    ensures Mirrors(Mirroring(books[id] - gone, actual, adopted), GivenTo(owners - gone, id, adopted), id, raw)
  {
    hide NormalizeSymbol, SameExposure, ToVirtual, Reports, Covered;
    var book', owners' := Mirroring(books[id] - gone, actual, adopted), GivenTo(owners - gone, id, adopted);
    ReconciledMembers(books, owners, id, actual, gone, adopted);
    forall key, p | key in book' && IsReported(raw, key, p)
      ensures SameExposure(book'[key], p)
    {
      ReportedUnique(raw, key, p, actual[key]);
      MirrorsItself(p);
    }
  }

  lemma ReconciledMembers(books: map<string, Book>, owners: map<string, string>, id: string,
                          actual: map<string, ExchangePosition>, gone: set<string>, adopted: set<string>)
    requires Covered(books, owners) && id in books && forall key :: key in actual ==> actual[key].size != 0.0
    requires gone == books[id].Keys - actual.Keys && adopted == Adoptable(actual, owners - gone, id, books[id])
    ensures var book', owners' := Mirroring(books[id] - gone, actual, adopted), GivenTo(owners - gone, id, adopted);
      && (forall key :: key in book' <==> key in actual && Owned(owners', id, key))
      && (forall key :: key in actual ==> key in owners')
      && (forall key :: key in book' && key !in adopted ==> key in books[id] && book'[key] == books[id][key])
      && (forall key :: key in adopted ==> book'[key] == ToVirtual(actual[key]))
  {
    hide NormalizeSymbol, ToVirtual;
    var book', owners' := Mirroring(books[id] - gone, actual, adopted), GivenTo(owners - gone, id, adopted);
    forall key
      ensures key in book' <==> key in actual && Owned(owners', id, key)
    {
      assert Held(books, id, key) ==> Owned(owners, id, key);
    }
  }

  /** Of the trader's stale entries, exactly those the exchange does not report are left. */
  lemma ReconciledRepairs(books: map<string, Book>, owners: map<string, string>, id: string,
                          actual: map<string, ExchangePosition>, gone: set<string>, adopted: set<string>)
    requires Covered(books, owners) && id in books && forall key :: key in actual ==> actual[key].size != 0.0
    requires gone <= books[id].Keys - actual.Keys && adopted <= Adoptable(actual, owners - gone, id, books[id])
    ensures Stale(Mirroring(books[id] - gone, actual, adopted), GivenTo(owners - gone, id, adopted), id)
            == Stale(books[id], owners, id) - adopted
  {
    hide NormalizeSymbol, ToVirtual;
    var book', owners' := Mirroring(books[id] - gone, actual, adopted), GivenTo(owners - gone, id, adopted);
    forall key
      ensures key in Stale(book', owners', id) <==> key in Stale(books[id], owners, id) - adopted
    {
      assert Held(books, id, key) ==> Owned(owners, id, key);
    }
  }

  /** What a successful reconciliation does to a book: it mirrors the exchange, entries that stay are the
      same, new ones say what the exchange reports, and of the trader's stale index entries exactly the
      unreported ones are left. */
  ghost predicate Reconciled(before: Book, index: map<string, string>, after: Book, owners: map<string, string>,
                             id: string, raw: seq<ExchangePosition>) {
    && Mirrors(after, owners, id, raw)
    && (forall key :: key in after && key in before ==> after[key] == before[key])
    && (forall key, p :: key in after && key !in before && IsReported(raw, key, p) ==> IsMirrorOf(after[key], p))
    && Stale(after, owners, id) == set key | key in Stale(before, index, id) && !Reports(raw, key)
  }

  class Manager {
    var traders: map<string, VirtualTrader>
    var owners: map<string, string>

    constructor ()
      ensures traders == map[] && owners == map[] && Valid() && Agree(Books(), owners)
    {
      traders, owners := map[], map[];
    }

    /** Traders are registered under their own non-empty id. */
    ghost predicate Valid()
      reads this
    {
      forall id :: id in traders ==> id != "" && traders[id].id == id
    }

    /** The virtual books of the registered traders. */
    ghost function Books(): map<string, Book>
      reads this, traders.Values
    {
      map id | id in traders :: traders[id].positions
    }

    /** Lookup in the index, where a missing entry reads as the empty id. */
    function OwnerOf(key: string): string
      reads this
    {
      if key in owners then owners[key] else ""
    }

    predicate IsRegistered(trader: VirtualTrader)
      reads this
    {
      trader.id in traders && traders[trader.id] == trader
    }

    /** Gives the symbol to the trader unless the index names another. The object need not be
        registered. */
    method Assign(trader: VirtualTrader, pos: VirtualPosition) returns (ok: bool)
      requires Valid()
      modifies `owners, trader`positions
      ensures var key := NormalizeSymbol(pos.symbol);
        && (ok <==> key != "" && (key in old(owners) ==> old(owners)[key] == trader.id))
        && owners == (if ok then old(owners)[key := trader.id] else old(owners))
        && trader.positions == (if ok then old(trader.positions)[key := pos] else old(trader.positions))
        && Books() == (if ok then AssignedBooks(old(Books()), IsRegistered(trader), trader.id, key, pos)
                       else old(Books()))
      ensures trader.id != "" && old(Covered(Books(), owners)) ==> Covered(Books(), owners)
      ensures IsRegistered(trader) && old(Agree(Books(), owners)) ==> Agree(Books(), owners)
    {
      hide NormalizeSymbol, Agree, Covered;
      var key := NormalizeSymbol(pos.symbol);
      if key == "" {
        return false;
      }
      if key in owners && owners[key] != trader.id {
        return false;
      }
      ghost var before, index := Books(), owners;
      trader.positions := trader.positions[key := pos];
      owners := owners[key := trader.id];
      NormalizeSymbolIdempotent(pos.symbol);
      assert Books() == AssignedBooks(before, IsRegistered(trader), trader.id, key, pos);
      if trader.id != "" && Covered(before, index) {
        CoveredAfterAssign(before, index, IsRegistered(trader), trader.id, key, pos);
      }
      if Agree(before, index) {
        AgreeIsCovered(before, index);
      }
      return true;
    }

    /** Takes the symbol back from the trader unless the index names another. */
    method Release(traderId: string, symbol: string)
      requires Valid()
      modifies `owners, traders.Values`positions
      ensures var key := NormalizeSymbol(symbol);
        var released := key != "" && (old(OwnerOf(key)) == "" || old(OwnerOf(key)) == traderId);
        && owners == (if released then old(owners) - {key} else old(owners))
        && Books() == (if released && traderId in traders
                       then old(Books())[traderId := old(Books())[traderId] - {key}] else old(Books()))
      ensures old(Covered(Books(), owners)) ==> Covered(Books(), owners)
      ensures old(Agree(Books(), owners)) ==> Agree(Books(), owners)
    {
      hide NormalizeSymbol, Agree, Covered;
      var key := NormalizeSymbol(symbol);
      if key == "" {
        return;
      }
      var owner := OwnerOf(key);
      if owner != "" && owner != traderId {
        return;
      }
      ghost var before, index := Books(), owners;
      owners := owners - {key};
      if traderId in traders {
        traders[traderId].positions := traders[traderId].positions - {key};
      }
      if Agree(before, index) {
        AgreeIsCovered(before, index);
      }
      if Covered(before, index) {
        OwnersNamed(before, index);
        CoveredAfterRelease(before, index, traderId, key);
      }
    }

    lemma AgreeIsCovered(books: map<string, Book>, index: map<string, string>)
      requires Agree(books, index)
      ensures Covered(books, index)
    {
    }

    lemma OwnersNamed(books: map<string, Book>, index: map<string, string>)
      requires Covered(books, index)
      ensures forall key :: key in index ==> index[key] != ""
      ensures "" !in index
    {
    }

    /** Adds a new trader with an empty book. */
    method Register(trader: VirtualTrader) returns (ok: bool)
      requires Valid() && trader.id != "" && trader.positions == map[]
      modifies `traders
      ensures ok <==> trader.id !in old(traders)
      ensures traders == if ok then old(traders)[trader.id := trader] else old(traders)
      ensures Valid()
      ensures Books() == if ok then old(Books())[trader.id := map[]] else old(Books())
      ensures old(Covered(Books(), owners)) ==> Covered(Books(), owners)
      ensures old(Agree(Books(), owners)) ==> Agree(Books(), owners)
    {
      hide NormalizeSymbol, Agree, Covered;
      if trader.id in traders {
        return false;
      }
      ghost var before := Books();
      traders := traders[trader.id := trader];
      if Agree(before, owners) {
        AgreeIsCovered(before, owners);
      }
      if Covered(before, owners) {
        CoveredAfterRegister(before, owners, trader.id);
      }
      return true;
    }

    /** Removes the trader, stops it and frees every symbol of its book. Index entries without a book
        entry stay behind. */
    method Unregister(traderId: string) returns (ok: bool)
      requires Valid() && Covered(Books(), owners)
      modifies this, traders.Values`state, traders.Values`positions
      ensures ok <==> traderId in old(traders)
      ensures traders == old(traders) - {traderId} && Valid()
      ensures Books() == old(Books()) - {traderId} && Covered(Books(), owners)
      ensures owners == if ok then old(owners) - old(Books())[traderId].Keys else old(owners)
      ensures old(Agree(Books(), owners)) ==> Agree(Books(), owners)
    {
      hide NormalizeSymbol, Agree, Covered;
      if traderId !in traders {
        assert old(Books()) - {traderId} == old(Books());
        return false;
      }
      var t := traders[traderId];
      traders := traders - {traderId};
      t.Stop();
      assert Books() == old(Books()) - {traderId};
      CoveredAfterUnregister(old(Books()), old(owners), traderId);
      assert forall key :: key in t.positions ==> Held(old(Books()), traderId, key);
      CoveredNames(old(Books()), old(owners));
      ReleaseAll(t);
      return true;
    }

    lemma CoveredNames(books: map<string, Book>, index: map<string, string>)
      requires Covered(books, index)
      ensures forall id, key :: Held(books, id, key) ==>
        key != "" && NormalizeSymbol(key) == key && Owned(index, id, key)
    {
    }

    /** Frees every symbol of an unregistered trader's book. */
    method ReleaseAll(t: VirtualTrader)
      requires Valid() && t.id !in traders
      requires forall key :: key in t.positions ==> key != "" && NormalizeSymbol(key) == key && Owned(owners, t.id, key)
      modifies `owners, traders.Values`positions
      ensures owners == old(owners) - t.positions.Keys && Books() == old(Books())
    {
      hide NormalizeSymbol, Agree, Covered;
      var symbols := t.positions.Keys;
      while symbols != {}
        invariant symbols <= t.positions.Keys == old(t.positions.Keys)
        invariant Books() == old(Books())
        invariant owners == old(owners) - (t.positions.Keys - symbols)
        decreases symbols
      {
        var sym :| sym in symbols;
        assert NormalizeSymbol(sym) == sym;
        Release(t.id, sym);
        symbols := symbols - {sym};
      }
    }

    /** Releases one symbol of a registered trader's own book. */
    method Drop(trader: VirtualTrader, key: string)
      requires Valid() && IsRegistered(trader) && Covered(Books(), owners) && key in trader.positions
      modifies `owners, traders.Values`positions
      ensures Covered(Books(), owners) && (old(Agree(Books(), owners)) ==> Agree(Books(), owners))
      ensures owners == old(owners) - {key}
      ensures trader.positions == old(trader.positions) - {key}
      ensures Books() == old(Books())[trader.id := trader.positions]
    {
      hide NormalizeSymbol, Agree, Covered;
      KeyOfBook(Books(), owners, trader.id, key);
      Release(trader.id, key);
      assert Books()[trader.id] == trader.positions;
    }

    /** Releases one held symbol if it is gone from the exchange, and compares it otherwise. */
    method ReleaseIfGone(trader: VirtualTrader, actual: map<string, ExchangePosition>, sym: string) returns (ok: bool)
      requires Valid() && IsRegistered(trader) && Covered(Books(), owners) && sym in trader.positions
      requires forall key :: key in actual ==> actual[key].size != 0.0
      modifies `owners, traders.Values`positions
      ensures Covered(Books(), owners) && (old(Agree(Books(), owners)) ==> Agree(Books(), owners))
      ensures ok <==> (sym in actual ==> Matches(old(trader.positions)[sym], actual[sym]))
      ensures owners == if sym in actual then old(owners) else old(owners) - {sym}
      ensures trader.positions == if sym in actual then old(trader.positions) else old(trader.positions) - {sym}
      ensures Books() == old(Books())[trader.id := trader.positions]
    {
      hide NormalizeSymbol, Agree, Covered, Matches, Books;
      OwnBook(trader);
      if sym !in actual {
        Drop(trader, sym);
        return true;
      }
      return Matches(trader.positions[sym], actual[sym]);
    }

    /** First pass of a reconciliation: what is gone from the exchange is released, and what is still
        there must match. */
    method ReleaseMissing(trader: VirtualTrader, actual: map<string, ExchangePosition>)
      returns (ok: bool, ghost gone: set<string>)
      requires Valid() && IsRegistered(trader) && Covered(Books(), owners)
      requires forall key :: key in actual ==> actual[key].size != 0.0
      modifies `owners, traders.Values`positions
      ensures Covered(Books(), owners) && (old(Agree(Books(), owners)) ==> Agree(Books(), owners))
      ensures ok <==> AllMatch(old(trader.positions), actual)
      ensures gone <= old(trader.positions).Keys - actual.Keys
      ensures ok ==> gone == old(trader.positions).Keys - actual.Keys
      ensures owners == old(owners) - gone
      ensures trader.positions == old(trader.positions) - gone && Books() == old(Books())[trader.id := trader.positions]
    {
      hide NormalizeSymbol, Agree, Covered, Matches, Books, AllMatch;
      OwnBook(trader);
      var virtual := trader.positions;
      var remaining := virtual.Keys;
      gone := {};
      AllMatchPart(virtual, actual, remaining);
      while remaining != {}
        invariant remaining <= virtual.Keys
        invariant gone == (virtual.Keys - remaining) - actual.Keys
        invariant owners == old(owners) - gone
        invariant trader.positions == virtual - gone && Books() == old(Books())[trader.id := trader.positions]
        invariant Covered(Books(), owners) && (old(Agree(Books(), owners)) ==> Agree(Books(), owners))
        invariant AllMatch(virtual - remaining, actual)
        decreases remaining
      {
        var sym :| sym in remaining;
        assert remaining == (remaining - {sym}) + {sym};
        remaining := remaining - {sym};
        AllMatchOneMore(virtual, actual, remaining, sym);
        MinusOneMore(old(owners), gone, sym);
        MinusOneMore(virtual, gone, sym);
        GoneOneMore(virtual.Keys, remaining, actual.Keys, sym);
        ghost var book := trader.positions;
        var matches := ReleaseIfGone(trader, actual, sym);
        UpdatedTwice(old(Books()), trader.id, book, trader.positions);
        if !matches {
          AllMatchPart(virtual, actual, remaining);
          return false, gone;
        }
        if sym !in actual {
          gone := gone + {sym};
        }
      }
      AllMatchPart(virtual, actual, remaining);
      return true, gone;
    }

    lemma OwnBook(trader: VirtualTrader)
      requires IsRegistered(trader)
      ensures Books().Keys == traders.Keys && Books()[trader.id] == trader.positions
      ensures Books()[trader.id := trader.positions] == Books()
    {
    }

    lemma KeyOfBook(books: map<string, Book>, index: map<string, string>, id: string, key: string)
      requires Covered(books, index) && id in books && key in books[id]
      ensures key != "" && NormalizeSymbol(key) == key && key in index && index[key] == id
    {
      assert Held(books, id, key);
    }

    /** Takes an unowned symbol, or one the index already gives to it, for a registered trader. */
    method Adopt(trader: VirtualTrader, key: string, p: ExchangePosition) returns (ok: bool)
      requires Valid() && IsRegistered(trader) && Covered(Books(), owners)
      requires p.size != 0.0 && NormalizeSymbol(p.coin) == key && (key in owners ==> owners[key] == trader.id)
      modifies `owners, trader`positions
      ensures Covered(Books(), owners) && (old(Agree(Books(), owners)) ==> Agree(Books(), owners))
      ensures ok <==> key != ""
      ensures owners == if ok then old(owners)[key := trader.id] else old(owners)
      ensures trader.positions == if ok then old(trader.positions)[key := ToVirtual(p)] else old(trader.positions)
      ensures Books() == old(Books())[trader.id := trader.positions]
    {
      VirtualSymbol(p);
      hide NormalizeSymbol, Agree, Covered, ToVirtual;
      ok := Assign(trader, ToVirtual(p));
      assert old(Books())[trader.id] == old(trader.positions);
    }

    /** Takes one reported symbol over if nobody owns it, or if it is indexed to the trader and missing
        from its book. */
    method Consider(trader: VirtualTrader, virtual: Book, sym: string, p: ExchangePosition)
      returns (ok: bool, ghost took: bool)
      requires Valid() && IsRegistered(trader) && Covered(Books(), owners) && p.size != 0.0
      requires NormalizeSymbol(p.coin) == sym
      modifies `owners, trader`positions
      ensures Covered(Books(), owners) && (old(Agree(Books(), owners)) ==> Agree(Books(), owners))
      ensures ok <==> sym != ""
      ensures took <==> ok && (sym !in old(owners) || (old(owners)[sym] == trader.id && sym !in virtual))
      ensures owners == if took then old(owners)[sym := trader.id] else old(owners)
      ensures trader.positions == if took then old(trader.positions)[sym := ToVirtual(p)] else old(trader.positions)
      ensures Books() == old(Books())[trader.id := trader.positions]
    {
      hide NormalizeSymbol, Agree, Covered, ToVirtual, Books;
      OwnBook(trader);
      OwnersNamed(Books(), owners);
      ok, took := true, false;
      var owner := OwnerOf(sym);
      if owner == "" || (owner == trader.id && sym !in virtual) {
        ok := Adopt(trader, sym, p);
        took := ok;
      }
    }

    /** Second pass of a reconciliation: reported symbols that nobody owns, and those indexed to the
        trader but missing from its book, are taken over. `virtual` is the snapshot of the book from
        before the first pass. */
    method AdoptUnowned(trader: VirtualTrader, virtual: Book, actual: map<string, ExchangePosition>)
      returns (ok: bool, ghost adopted: set<string>)
      requires Valid() && IsRegistered(trader) && Covered(Books(), owners)
      requires forall key :: key in actual ==> actual[key].size != 0.0 && NormalizeSymbol(actual[key].coin) == key
      modifies `owners, trader`positions
      ensures Covered(Books(), owners) && (old(Agree(Books(), owners)) ==> Agree(Books(), owners))
      ensures ok <==> "" !in actual
      ensures adopted <= Adoptable(actual, old(owners), trader.id, virtual)
      ensures ok ==> adopted == Adoptable(actual, old(owners), trader.id, virtual)
      ensures owners == GivenTo(old(owners), trader.id, adopted)
      ensures trader.positions == Mirroring(old(trader.positions), actual, adopted)
      ensures Books() == old(Books())[trader.id := trader.positions]
    {
      hide NormalizeSymbol, Agree, Covered, ToVirtual, GivenTo, Mirroring, Books, Adoptable;
      OwnBook(trader);
      OwnersNamed(Books(), owners);
      ghost var index, book := owners, trader.positions;
      ghost var wanted := Adoptable(actual, index, trader.id, virtual);
      AdoptableIs(actual, index, trader.id, virtual);
      var remaining := actual.Keys;
      adopted := {};
      GivenToOneMore(index, trader.id, {}, "");
      assert Mirroring(book, actual, {}) == book by { NoneMirrored(book, actual); }
      while remaining != {}
        invariant remaining <= actual.Keys && adopted == wanted - remaining && "" !in adopted
        invariant owners == GivenTo(index, trader.id, adopted)
        invariant trader.positions == Mirroring(book, actual, adopted)
        invariant Books() == old(Books())[trader.id := trader.positions]
        invariant Covered(Books(), owners) && (old(Agree(Books(), owners)) ==> Agree(Books(), owners))
        decreases remaining
      {
        var sym :| sym in remaining;
        GivenToOneMore(index, trader.id, adopted, sym);
        MirroringOneMore(book, actual, adopted, sym);
        remaining := remaining - {sym};
        ghost var took;
        ghost var first := trader.positions;
        ok, took := Consider(trader, virtual, sym, actual[sym]);
        UpdatedTwice(old(Books()), trader.id, first, trader.positions);
        if !ok {
          return false, adopted;
        }
        if took {
          adopted := adopted + {sym};
        }
      }
      return true, adopted;
    }

    lemma AdoptableIs(actual: map<string, ExchangePosition>, index: map<string, string>, id: string, virtual: Book)
      ensures Adoptable(actual, index, id, virtual) <= actual.Keys
      ensures forall key :: key in actual ==>
        (key in Adoptable(actual, index, id, virtual) <==> key !in index || (index[key] == id && key !in virtual))
    {
    }

    lemma NoneMirrored(book: Book, actual: map<string, ExchangePosition>)
      requires forall k :: k in actual ==> actual[k].size != 0.0
      ensures Mirroring(book, actual, {}) == book
    {
    }

    /** Brings a trader's book in line with what the exchange reports; `reply` is None when the exchange
        could not be asked. An index entry of the trader without a book entry is repaired if the
        exchange reports the symbol, and stays if not. On failure some symbols may already have been
        released or taken over. */
    method Reconcile(traderId: string, reply: Option<seq<ExchangePosition>>) returns (ok: bool)
      requires Valid() && Covered(Books(), owners)
      modifies `owners, traders.Values`positions
      ensures Covered(Books(), owners) && (old(Agree(Books(), owners)) ==> Agree(Books(), owners))
      ensures ok <==>
        && traderId in traders && reply.Some?
        && NoMismatch(old(traders[traderId].positions), reply.value) && !Reports(reply.value, "")
      ensures ok ==>
        Reconciled(old(traders[traderId].positions), old(owners), traders[traderId].positions, owners, traderId,
                   reply.value)
      ensures traderId !in traders ==> owners == old(owners) && Books() == old(Books())
      ensures traderId in traders ==> Books() == old(Books())[traderId := traders[traderId].positions]
      ensures traderId in traders ==>
        Stale(traders[traderId].positions, owners, traderId)
        <= Stale(old(traders[traderId].positions), old(owners), traderId)
    {
      hide NormalizeSymbol, Agree, Covered, Books, Matches, Mirrors, NoMismatch, Reports, IsReported, ToVirtual,
        GivenTo, Mirroring, Adoptable, Stale, Indexes, AllMatch, Reconciled;
      if traderId !in traders {
        return false;
      }
      var trader := traders[traderId];
      OwnBook(trader);
      if reply.None? {
        return false;
      }
      var raw := reply.value;
      var actual := Actual(raw);
      IndexedNonzero(actual, raw);
      NoMismatchIff(trader.positions, raw, actual);
      var virtual := trader.positions;
      ghost var gone, adopted;
      ok, gone := ReleaseMissing(trader, actual);
      if !ok {
        StaleAfterRelease(old(Books()), old(owners), traderId, gone);
        return false;
      }
      ghost var kept := trader.positions;
      ok, adopted := AdoptUnowned(trader, virtual, actual);
      UpdatedTwice(old(Books()), traderId, kept, trader.positions);
      ReconciledRepairs(old(Books()), old(owners), traderId, actual, gone, adopted);
      StaleShrinks(virtual, old(owners), traderId, adopted);
      if ok {
        ReconciledIs(old(Books()), old(owners), traderId, raw, actual, gone, adopted);
      }
    }

    lemma StaleShrinks(book: Book, index: map<string, string>, id: string, adopted: set<string>)
      ensures Stale(book, index, id) - adopted <= Stale(book, index, id)
    {
    }

    lemma ReconciledIs(books: map<string, Book>, index: map<string, string>, id: string,
                       raw: seq<ExchangePosition>, actual: map<string, ExchangePosition>, gone: set<string>,
                       adopted: set<string>)
      requires Covered(books, index) && id in books && Indexes(actual, raw) && NoMismatch(books[id], raw)
      requires forall key :: key in actual ==> actual[key].size != 0.0
      requires gone == books[id].Keys - actual.Keys && adopted == Adoptable(actual, index - gone, id, books[id])
      ensures Reconciled(books[id], index, Mirroring(books[id] - gone, actual, adopted),
                         GivenTo(index - gone, id, adopted), id, raw)
    {
      hide NormalizeSymbol, Covered, Mirrors, NoMismatch, Reports, Indexes, Adoptable, Stale, Mirroring, GivenTo,
        IsReported, IsMirrorOf;
      AdoptableIs(actual, index - gone, id, books[id]);
      ReconciledMirrors(books, index, id, raw, actual, gone, adopted);
      AdoptedAreMirrors(books, index, id, raw, actual, gone, adopted);
      ReconciledRepairs(books, index, id, actual, gone, adopted);
      KeepsEntries(books, index, id, actual, gone, adopted);
      StaleUnreported(books[id], index, id, raw, actual, gone, adopted);
    }

    /** What is new in the book says what the exchange reports. */
    lemma AdoptedAreMirrors(books: map<string, Book>, index: map<string, string>, id: string,
                            raw: seq<ExchangePosition>, actual: map<string, ExchangePosition>, gone: set<string>,
                            adopted: set<string>)
      requires Covered(books, index) && id in books && Indexes(actual, raw)
      requires forall key :: key in actual ==> actual[key].size != 0.0
      requires gone == books[id].Keys - actual.Keys && adopted == Adoptable(actual, index - gone, id, books[id])
      ensures var book' := Mirroring(books[id] - gone, actual, adopted);
        forall key, p :: key in book' && key !in books[id] && IsReported(raw, key, p) ==> IsMirrorOf(book'[key], p)
    {
      hide NormalizeSymbol, ToVirtual, IsMirrorOf, Reports, Covered;
      ReconciledMembers(books, index, id, actual, gone, adopted);
      var book' := Mirroring(books[id] - gone, actual, adopted);
      forall key, p | key in book' && key !in books[id] && IsReported(raw, key, p)
        ensures IsMirrorOf(book'[key], p)
      {
        ReportedUnique(raw, key, p, actual[key]);
        VirtualIsMirror(p);
      }
    }

    lemma StaleAfterRelease(books: map<string, Book>, index: map<string, string>, id: string, gone: set<string>)
      requires id in books && gone <= books[id].Keys
      ensures Stale(books[id] - gone, index - gone, id) <= Stale(books[id], index, id)
    {
    }

    lemma StaleUnreported(book: Book, index: map<string, string>, id: string, raw: seq<ExchangePosition>,
                          actual: map<string, ExchangePosition>, gone: set<string>, adopted: set<string>)
      requires Indexes(actual, raw) && gone == book.Keys - actual.Keys
      requires adopted == Adoptable(actual, index - gone, id, book)
      ensures Stale(book, index, id) - adopted == set key | key in Stale(book, index, id) && !Reports(raw, key)
    {
    }

    lemma KeepsEntries(books: map<string, Book>, index: map<string, string>, id: string,
                       actual: map<string, ExchangePosition>, gone: set<string>, adopted: set<string>)
      requires Covered(books, index) && id in books && forall key :: key in actual ==> actual[key].size != 0.0
      requires gone <= books[id].Keys - actual.Keys && adopted <= Adoptable(actual, index - gone, id, books[id])
      ensures var book' := Mirroring(books[id] - gone, actual, adopted);
        forall key :: key in book' && key in books[id] ==> book'[key] == books[id][key]
    {
      hide NormalizeSymbol, ToVirtual;
      forall key | key in adopted
        ensures key !in books[id]
      {
        assert Held(books, id, key) ==> Owned(index, id, key);
      }
    }
  }
}
