/**
 The orders page of the trading API. It asks the audit log for the newest events of each order type,
 merges the answers, sorts, filters by symbol and cuts out a page; the reference is to sort and
 filter the whole log.
 */
module OrdersPage {
  import opened Clock
  import opened Sequences
  import opened Text

  datatype Event = Event(id: int, time: Time, traderId: string, kind: string, symbol: string)

  /** `paginateOrders`. */
  function Page<T>(s: seq<T>, limit: nat, offset: nat): seq<T> {
    if offset >= |s| then [] else s[offset..if offset + limit > |s| then |s| else offset + limit]
  }

  /** A page is the `limit` elements from `offset` on, as far as there are any. */
  lemma PageIs<T>(s: seq<T>, limit: nat, offset: nat)
    ensures var rest := if |s| > offset then |s| - offset else 0;
      |Page(s, limit, offset)| == if limit < rest then limit else rest
    ensures forall i :: 0 <= i < |Page(s, limit, offset)| ==>
      offset + i < |s| && Page(s, limit, offset)[i] == s[offset + i]
  {
  }

  function PageEnd(size: nat, limit: nat, offset: nat): nat {
    if offset + limit > size then size else offset + limit
  }

  lemma PageEndIs(size: nat, limit: nat, offset: nat)
    requires limit > 0 && offset < size
    ensures offset < PageEnd(size, limit, offset) <= size
  {
  }

  lemma PageKept<T(!new)>(s: seq<T>, p: T -> bool, limit: nat, offset: nat)
    requires offset < |s| && Passes(s, p, PageEnd(|s|, limit, offset))
    ensures Page(Filter(s, p), limit, offset) == Page(s, limit, offset)
  {
    hide Filter;
    var k := PageEnd(|s|, limit, offset);
    FilterPrefix(s, p, k);
    PageOfPrefix(s, Filter(s, p), limit, offset);
  }

  lemma PageOfPrefix<T>(s: seq<T>, f: seq<T>, limit: nat, offset: nat)
    requires offset < |s| && PageEnd(|s|, limit, offset) <= |f| <= |s|
    requires f[..PageEnd(|s|, limit, offset)] == s[..PageEnd(|s|, limit, offset)]
    ensures Page(f, limit, offset) == Page(s, limit, offset)
  {
  }

  lemma SamePageSameLast<T>(s: seq<T>, f: seq<T>, limit: nat, offset: nat)
    requires offset < |s| && |f| <= |s| && limit > 0 && Page(f, limit, offset) == Page(s, limit, offset)
    ensures PageEnd(|s|, limit, offset) <= |f|
    ensures f[PageEnd(|s|, limit, offset) - 1] == s[PageEnd(|s|, limit, offset) - 1]
  {
  }

  lemma KeptPage<T(!new)>(s: seq<T>, p: T -> bool, limit: nat, offset: nat)
    requires Distinct(s) && offset < |s| && limit > 0 && Page(Filter(s, p), limit, offset) == Page(s, limit, offset)
    ensures Passes(s, p, PageEnd(|s|, limit, offset))
  {
    hide Filter, Distinct, Page, PageEnd, Passes;
    PageEndIs(|s|, limit, offset);
    SamePageSameLast(s, Filter(s, p), limit, offset);
    FilterInPlace(s, p, PageEnd(|s|, limit, offset) - 1);
  }

  /** Paging a filtered sequence gives the page of the whole one exactly when nothing was filtered out
      up to the end of the page, or the page is past the end. */
  lemma FilteredPageIff<T(!new)>(s: seq<T>, p: T -> bool, limit: nat, offset: nat)
    requires Distinct(s) && limit > 0
    ensures Page(Filter(s, p), limit, offset) == Page(s, limit, offset)
            <==> |s| <= offset || Passes(s, p, PageEnd(|s|, limit, offset))
  {
    hide Filter, Distinct, Passes;
    if |s| <= offset {
    } else if Passes(s, p, PageEnd(|s|, limit, offset)) {
      PageKept(s, p, limit, offset);
    } else if Page(Filter(s, p), limit, offset) == Page(s, limit, offset) {
      KeptPage(s, p, limit, offset);
    }
  }

  /* Order. */

  /** Later first; among equal times, larger id first. */
  predicate Newer(a: Event, b: Event) {
    a.time > b.time || (a.time == b.time && a.id > b.id)
  }

  predicate Descending(s: seq<Event>) {
    forall i, j :: 0 <= i < j < |s| ==> Newer(s[i], s[j])
  }

  function Insert(e: Event, s: seq<Event>): seq<Event> {
    if s == [] || Newer(e, s[0]) then [e] + s else [s[0]] + Insert(e, s[1..])
  }

  function Sort(s: seq<Event>): seq<Event> {
    if s == [] then [] else Insert(s[0], Sort(s[1..]))
  }

  predicate UniqueIds(s: seq<Event>) {
    forall i, j :: 0 <= i < j < |s| ==> s[i].id != s[j].id
  }

  lemma {:induction false} InsertMembers(e: Event, s: seq<Event>, x: Event)
    ensures x in Insert(e, s) <==> x == e || x in s
  {
    if s != [] && !Newer(e, s[0]) {
      InsertMembers(e, s[1..], x);
      assert x in s <==> x == s[0] || x in s[1..];
    }
  }

  lemma {:induction false} InsertSorts(e: Event, s: seq<Event>)
    requires Descending(s) && forall x :: x in s ==> x.id != e.id
    ensures Descending(Insert(e, s))
  {
    if s != [] && !Newer(e, s[0]) {
      InsertSorts(e, s[1..]);
      forall x | x in Insert(e, s[1..])
        ensures Newer(s[0], x)
      {
        InsertMembers(e, s[1..], x);
      }
    }
  }

  lemma {:induction false} SortMembers(s: seq<Event>, x: Event)
    ensures x in Sort(s) <==> x in s
  {
    if s != [] {
      SortMembers(s[1..], x);
      InsertMembers(s[0], Sort(s[1..]), x);
      assert x in s <==> x == s[0] || x in s[1..];
    }
  }

  lemma {:induction false} SortSorts(s: seq<Event>)
    requires UniqueIds(s)
    ensures Descending(Sort(s))
  {
    if s != [] {
      SortSorts(s[1..]);
      forall x | x in Sort(s[1..])
        ensures x.id != s[0].id
      {
        SortMembers(s[1..], x);
      }
      InsertSorts(s[0], Sort(s[1..]));
    }
  }

  predicate SameMembers(a: seq<Event>, b: seq<Event>) {
    (forall x :: x in a ==> x in b) && (forall x :: x in b ==> x in a)
  }

  /** There is only one way to list a set of events in order, so it does not matter who sorts. */
  lemma {:induction false} OrderIsUnique(a: seq<Event>, b: seq<Event>)
    requires Descending(a) && Descending(b) && SameMembers(a, b)
    ensures a == b
  {
    assert b != [] ==> b[0] in a;
    if a != [] {
      assert a[0] in b;
      assert a[0] == b[0];
      forall x | x in a[1..]
        ensures x in b[1..]
      {
        assert x in b;
      }
      forall x | x in b[1..]
        ensures x in a[1..]
      {
        assert x in a;
      }
      OrderIsUnique(a[1..], b[1..]);
    }
  }

  lemma {:induction false} FilterDescending(s: seq<Event>, p: Event -> bool)
    requires Descending(s)
    ensures Descending(Filter(s, p))
  {
    if s != [] {
      FilterDescending(s[1..], p);
      forall x | x in Filter(s[1..], p)
        ensures Newer(s[0], x)
      {
        FilterMembers(s[1..], p, x);
      }
    }
  }

  lemma {:induction false} FilterUnique(s: seq<Event>, p: Event -> bool)
    requires UniqueIds(s)
    ensures UniqueIds(Filter(s, p))
  {
    if s != [] {
      FilterUnique(s[1..], p);
      forall x | x in Filter(s[1..], p)
        ensures x.id != s[0].id
      {
        FilterMembers(s[1..], p, x);
      }
    }
  }

  /* The audit log. */

  const SUBMITTED := "order_submitted"
  const FAILED := "order_failed"

  /** `orderEventTypesForStatus`. */
  function KindsFor(status: string): (kinds: seq<string>)
    ensures Distinct(kinds) && forall k :: k in kinds ==> k == SUBMITTED || k == FAILED
    ensures SUBMITTED in kinds <==>
      ToLower(Trim(status)) in ["", "all", "submitted", "sent", "filled", "open", "order_submitted"]
    ensures FAILED in kinds <==> ToLower(Trim(status)) in ["", "all", "failed", "error", "rejected", "order_failed"]
  {
    var s := ToLower(Trim(status));
    if s == "" || s == "all" then [SUBMITTED, FAILED]
    else if s == "submitted" || s == "sent" || s == "filled" || s == "open" || s == SUBMITTED then [SUBMITTED]
    else if s == "failed" || s == "error" || s == "rejected" || s == FAILED then [FAILED]
    else []
  }

  /** An empty trader id stands for all traders. */
  function WantedBy(traderId: string, kinds: seq<string>): Event -> bool {
    (e: Event) => (Trim(traderId) == "" || e.traderId == Trim(traderId)) && e.kind in kinds
  }

  /** An empty symbol stands for all symbols. */
  function Trades(symbol: string): Event -> bool {
    (e: Event) => NormalizeSymbol(symbol) == "" || NormalizeSymbol(e.symbol) == NormalizeSymbol(symbol)
  }

  /** The events of the given kinds, newest first. */
  function Sorted(log: seq<Event>, traderId: string, kinds: seq<string>): seq<Event> {
    Sort(Filter(log, WantedBy(traderId, kinds)))
  }

  /** The reply to a query for one kind. */
  function Listed(log: seq<Event>, traderId: string, kind: string, limit: nat): seq<Event> {
    Take(Sorted(log, traderId, [kind]), if limit == 0 || limit > 500 then 100 else limit)
  }

  /** Whether an event is among the newest `limit` of its own kind. */
  function Recent(log: seq<Event>, traderId: string, limit: nat): Event -> bool {
    (e: Event) => e in Listed(log, traderId, e.kind, limit)
  }

  /** The replies for several kinds, one after the other. */
  function Fetched(log: seq<Event>, traderId: string, kinds: seq<string>, limit: nat): seq<Event> {
    if kinds == [] then []
    else Fetched(log, traderId, kinds[..|kinds| - 1], limit) + Listed(log, traderId, kinds[|kinds| - 1], limit)
  }

  lemma SortedIs(log: seq<Event>, traderId: string, kinds: seq<string>)
    requires UniqueIds(log)
    ensures Descending(Sorted(log, traderId, kinds))
    ensures forall e :: e in Sorted(log, traderId, kinds) <==> e in log && WantedBy(traderId, kinds)(e)
  {
    hide Filter, Sort, WantedBy;
    var chosen := Filter(log, WantedBy(traderId, kinds));
    FilterUnique(log, WantedBy(traderId, kinds));
    SortSorts(chosen);
    forall e
      ensures e in Sort(chosen) <==> e in log && WantedBy(traderId, kinds)(e)
    {
      FilterMembers(log, WantedBy(traderId, kinds), e);
      SortMembers(chosen, e);
    }
  }

  lemma ListedIs(log: seq<Event>, traderId: string, kind: string, limit: nat)
    requires UniqueIds(log)
    ensures Descending(Listed(log, traderId, kind, limit))
    ensures forall e :: e in Listed(log, traderId, kind, limit) ==>
      e in log && e.kind == kind && WantedBy(traderId, [kind])(e)
  {
    hide Filter, Sort;
    SortedIs(log, traderId, [kind]);
  }

  lemma {:induction false} FetchedIs(log: seq<Event>, traderId: string, kinds: seq<string>, limit: nat)
    requires UniqueIds(log) && Distinct(kinds)
    ensures Distinct(Fetched(log, traderId, kinds, limit))
    ensures forall e :: e in Fetched(log, traderId, kinds, limit) <==>
      e in log && WantedBy(traderId, kinds)(e) && Recent(log, traderId, limit)(e)
  {
    if kinds != [] {
      var rest, kind := kinds[..|kinds| - 1], kinds[|kinds| - 1];
      FetchedIs(log, traderId, rest, limit);
      ListedIs(log, traderId, kind, limit);
      hide Filter, Sort, Sorted, Listed, Trim;
      var before, reply := Fetched(log, traderId, rest, limit), Listed(log, traderId, kind, limit);
      DistinctJoin(before, reply, kind);
      forall e
        ensures e in before + reply <==> e in log && WantedBy(traderId, kinds)(e) && Recent(log, traderId, limit)(e)
      {
        assert e.kind in kinds <==> e.kind in rest || e.kind == kind;
      }
    }
  }

  lemma DistinctJoin(a: seq<Event>, b: seq<Event>, kind: string)
    requires Distinct(a) && Descending(b) && (forall e :: e in a ==> e.kind != kind)
    requires forall e :: e in b ==> e.kind == kind
    ensures Distinct(a + b)
  {
  }

  /** Events of a log with unique ids that are distinct have distinct ids. */
  lemma DistinctUnique(log: seq<Event>, s: seq<Event>)
    requires UniqueIds(log) && Distinct(s) && forall e :: e in s ==> e in log
    ensures UniqueIds(s)
  {
    forall i, j | 0 <= i < j < |s|
      ensures s[i].id != s[j].id
    {
      assert s[i] in log && s[j] in log;
    }
  }

  /** Merging and sorting the replies gives the sorted log without the events too old for their reply. */
  lemma MergedIsFiltered(log: seq<Event>, traderId: string, kinds: seq<string>, limit: nat)
    requires UniqueIds(log) && Distinct(kinds)
    ensures Sort(Fetched(log, traderId, kinds, limit)) ==
      Filter(Sorted(log, traderId, kinds), Recent(log, traderId, limit))
  {
    hide Filter, Sort, Sorted, Fetched, Recent, WantedBy, Distinct;
    var fetched, whole := Fetched(log, traderId, kinds, limit), Sorted(log, traderId, kinds);
    var recent := Recent(log, traderId, limit);
    FetchedIs(log, traderId, kinds, limit);
    DistinctUnique(log, fetched);
    SortSorts(fetched);
    SortedIs(log, traderId, kinds);
    FilterDescending(whole, recent);
    forall e
      ensures e in Sort(fetched) <==> e in Filter(whole, recent)
    {
      SortMembers(fetched, e);
      FilterMembers(whole, recent, e);
    }
    OrderIsUnique(Sort(fetched), Filter(whole, recent));
  }

  /* The page. */

  /** `normalizeLimitOffset` with the default of the orders endpoint. */
  function NormalizeLimitOffset(limit: int, offset: int): (r: (nat, nat))
    ensures 1 <= r.0 <= 500 && (limit <= 0 ==> r.0 == 100) && (limit > 500 ==> r.0 == 500)
    ensures 1 <= limit <= 500 ==> r.0 == limit
    ensures r.1 == if offset < 0 then 0 else offset
  {
    (if limit <= 0 then 100 else if limit > 500 then 500 else limit, if offset < 0 then 0 else offset)
  }

  function ScanLimit(limit: nat, offset: nat): (n: nat)
    ensures 1 <= n <= 500
    ensures 1 <= limit + offset <= 500 ==> n == limit + offset
    ensures limit + offset > 500 ==> n == 500
  {
    if limit + offset == 0 then 100 else if limit + offset > 500 then 500 else limit + offset
  }

  /** All orders of the request, newest first. */
  function AllOrders(log: seq<Event>, traderId: string, status: string, symbol: string): seq<Event> {
    Filter(Sorted(log, traderId, KindsFor(status)), Trades(symbol))
  }

  /** They are the events of the log of the trader, the status and the symbol asked for, by time and then
      by id, the latest and largest first. */
  lemma AllOrdersAre(log: seq<Event>, traderId: string, status: string, symbol: string)
    requires UniqueIds(log)
    ensures var all := AllOrders(log, traderId, status, symbol);
      && (forall e :: e in all <==>
            && e in log && e.kind in KindsFor(status)
            && (Trim(traderId) != "" ==> e.traderId == Trim(traderId))
            && (NormalizeSymbol(symbol) != "" ==> NormalizeSymbol(e.symbol) == NormalizeSymbol(symbol)))
      && (forall i, j :: 0 <= i < j < |all| ==>
            all[i].time > all[j].time || (all[i].time == all[j].time && all[i].id > all[j].id))
  {
    hide Filter, Sort, Sorted, NormalizeSymbol, Trim, KindsFor;
    var whole := Sorted(log, traderId, KindsFor(status));
    SortedIs(log, traderId, KindsFor(status));
    FilterDescending(whole, Trades(symbol));
    forall e
      ensures e in Filter(whole, Trades(symbol)) <==> e in whole && Trades(symbol)(e)
    {
      FilterMembers(whole, Trades(symbol), e);
    }
  }

  /** Everything up to the end of the page is recent enough to have been fetched, or the page is past
      the end. */
  ghost predicate PageFetched(log: seq<Event>, traderId: string, orders: seq<Event>, limit: nat, offset: nat) {
    |orders| <= offset ||
      Passes(orders, Recent(log, traderId, ScanLimit(limit, offset)), PageEnd(|orders|, limit, offset))
  }

  /** The `i`-th newest of all events is among the `i + 1` newest of its own kind. */
  lemma NewestAreRecent(log: seq<Event>, traderId: string, kinds: seq<string>, limit: nat, i: nat)
    requires UniqueIds(log) && i < |Sorted(log, traderId, kinds)| && i < limit <= 500
    ensures Recent(log, traderId, limit)(Sorted(log, traderId, kinds)[i])
  {
    hide Filter, Sort, Sorted, Take;
    var e := Sorted(log, traderId, kinds)[i];
    var ofKind := (x: Event) => x.kind == e.kind;
    KindOfSorted(log, traderId, kinds, e.kind, i);
    KindByFilter(log, traderId, kinds, e.kind, ofKind);
    EarlyStaysEarly(Sorted(log, traderId, kinds), ofKind, i, limit);
  }

  lemma KindOfSorted(log: seq<Event>, traderId: string, kinds: seq<string>, kind: string, i: nat)
    requires UniqueIds(log) && i < |Sorted(log, traderId, kinds)| && Sorted(log, traderId, kinds)[i].kind == kind
    ensures kind in kinds
  {
    hide Filter, Sort, Sorted;
    SortedIs(log, traderId, kinds);
    assert Sorted(log, traderId, kinds)[i] in Sorted(log, traderId, kinds);
  }

  lemma KindByFilter(log: seq<Event>, traderId: string, kinds: seq<string>, kind: string, ofKind: Event -> bool)
    requires UniqueIds(log) && kind in kinds && forall e :: ofKind(e) <==> e.kind == kind
    ensures Sorted(log, traderId, [kind]) == Filter(Sorted(log, traderId, kinds), ofKind)
  {
    hide Filter, Sort, Sorted, Trim;
    var whole := Sorted(log, traderId, kinds);
    SortedIs(log, traderId, kinds);
    SortedIs(log, traderId, [kind]);
    FilterDescending(whole, ofKind);
    forall e
      ensures e in Sorted(log, traderId, [kind]) <==> e in Filter(whole, ofKind)
    {
      FilterMembers(whole, ofKind, e);
    }
    OrderIsUnique(Sorted(log, traderId, [kind]), Filter(whole, ofKind));
  }

  /** Without a symbol filter and up to the scan limit, the page is fetched whole. */
  lemma UnfilteredPageFetched(log: seq<Event>, traderId: string, status: string, symbol: string, limit: nat,
                              offset: nat)
    requires UniqueIds(log) && NormalizeSymbol(symbol) == "" && 1 <= limit && limit + offset <= 500
    ensures PageFetched(log, traderId, AllOrders(log, traderId, status, symbol), limit, offset)
  {
    hide Filter, Sort, Sorted, NormalizeSymbol, Recent, KindsFor;
    var kinds := KindsFor(status);
    var whole := Sorted(log, traderId, kinds);
    FilterAll(whole, Trades(symbol));
    forall i | 0 <= i < PageEnd(|whole|, limit, offset)
      ensures Recent(log, traderId, limit + offset)(whole[i])
    {
      NewestAreRecent(log, traderId, kinds, limit + offset, i);
    }
  }

  /** The orders endpoint. Its page is the page of all orders exactly when that page was fetched, which
      is always so without a symbol filter and within the scan limit. */
  method OrdersFromAuditEvents(log: seq<Event>, traderId: string, status: string, symbol: string, limit: nat,
                               offset: nat)
    returns (page: seq<Event>, seen: nat)
    requires UniqueIds(log) && 1 <= limit
    ensures page == Page(AllOrders(log, traderId, status, symbol), limit, offset)
            <==> PageFetched(log, traderId, AllOrders(log, traderId, status, symbol), limit, offset)
    ensures NormalizeSymbol(symbol) == "" && limit + offset <= 500 ==>
      page == Page(AllOrders(log, traderId, status, symbol), limit, offset)
    ensures
      var shown := Filter(AllOrders(log, traderId, status, symbol), Recent(log, traderId, ScanLimit(limit, offset)));
      page == Page(shown, limit, offset)
    ensures seen == |Filter(AllOrders(log, traderId, status, symbol), Recent(log, traderId, ScanLimit(limit, offset)))|
  {
    hide Filter, Sort, Sorted, NormalizeSymbol, Recent, Listed, KindsFor, Page, PageFetched, Fetched, Trades, AllOrders;
    var kinds := KindsFor(status);
    var n := ScanLimit(limit, offset);
    var records := [];
    NothingFetched(log, traderId, n);
    for k := 0 to |kinds|
      invariant records == Fetched(log, traderId, kinds[..k], n)
    {
      FetchedOneMore(log, traderId, kinds, k, n);
      records := records + Listed(log, traderId, kinds[k], n);
    }
    assert kinds[..|kinds|] == kinds;
    records := Sort(records);
    var filtered := OfSymbol(records, symbol);
    PageIsOfRecent(log, traderId, status, symbol, limit, offset);
    page, seen := Page(filtered, limit, offset), |filtered|;
  }

  lemma NothingFetched(log: seq<Event>, traderId: string, n: nat)
    ensures Fetched(log, traderId, [], n) == []
  {
  }

  lemma FetchedOneMore(log: seq<Event>, traderId: string, kinds: seq<string>, k: nat, n: nat)
    requires k < |kinds|
    ensures Fetched(log, traderId, kinds[..k + 1], n) ==
      Fetched(log, traderId, kinds[..k], n) + Listed(log, traderId, kinds[k], n)
  {
    assert kinds[..k + 1][..k] == kinds[..k];
  }

  method OfSymbol(records: seq<Event>, symbol: string) returns (filtered: seq<Event>)
    ensures filtered == Filter(records, Trades(symbol))
  {
    hide Filter, NormalizeSymbol, Trades;
    var wanted := Trades(symbol);
    FilterNone(wanted);
    filtered := [];
    for i := 0 to |records|
      invariant filtered == Filter(records[..i], wanted)
    {
      assert records[..i + 1] == records[..i] + [records[i]];
      FilterConcat(records[..i], [records[i]], wanted);
      FilterOne(records[i], wanted);
      if wanted(records[i]) {
        filtered := filtered + [records[i]];
      }
    }
    assert records[..|records|] == records;
  }

  lemma FilterNone(p: Event -> bool)
    ensures Filter([], p) == []
  {
  }

  lemma FilterOne(e: Event, p: Event -> bool)
    ensures Filter([e], p) == if p(e) then [e] else []
  {
  }

  lemma PageIsOfRecent(log: seq<Event>, traderId: string, status: string, symbol: string, limit: nat, offset: nat)
    requires UniqueIds(log) && 1 <= limit
    ensures var n := ScanLimit(limit, offset);
      var all := AllOrders(log, traderId, status, symbol);
      var shown := Filter(Sort(Fetched(log, traderId, KindsFor(status), n)), Trades(symbol));
      && shown == Filter(all, Recent(log, traderId, n))
      && (Page(shown, limit, offset) == Page(all, limit, offset) <==> PageFetched(log, traderId, all, limit, offset))
      && (NormalizeSymbol(symbol) == "" && limit + offset <= 500 ==> PageFetched(log, traderId, all, limit, offset))
  {
    hide Filter, Sort, Sorted, NormalizeSymbol, Recent, KindsFor, Page, Fetched, Trades;
    var n := ScanLimit(limit, offset);
    var kinds, all := KindsFor(status), AllOrders(log, traderId, status, symbol);
    MergedIsFiltered(log, traderId, kinds, n);
    FilterSwap(Sorted(log, traderId, kinds), Recent(log, traderId, n), Trades(symbol));
    SortedIs(log, traderId, kinds);
    FilterDescending(Sorted(log, traderId, kinds), Trades(symbol));
    DescendingDistinct(all);
    FilteredPageIff(all, Recent(log, traderId, n), limit, offset);
    if NormalizeSymbol(symbol) == "" && limit + offset <= 500 {
      UnfilteredPageFetched(log, traderId, status, symbol, limit, offset);
    }
  }

  lemma DescendingDistinct(s: seq<Event>)
    requires Descending(s)
    ensures Distinct(s)
  {
  }

  /** With a symbol filter an order can be missing from its page: here the only order of symbol A is
      older than the one event that was fetched. */
  lemma SymbolFilterLosesOrders(log: seq<Event>)
    requires log == [Event(1, 1, "t", SUBMITTED, "A"), Event(2, 2, "t", SUBMITTED, "B")]
    ensures UniqueIds(log) && AllOrders(log, "", "", "A") == [log[0]]
    ensures !PageFetched(log, "", AllOrders(log, "", "", "A"), 1, 0)
  {
    hide Filter, Sort, Trim, NormalizeSymbol, KindsFor;
    var older, newer := log[0], log[1];
    Blanks();
    Letters();
    SortTwo(older, newer);
    FilterAll(log, WantedBy("", KindsFor("")));
    FilterAll(log, WantedBy("", [SUBMITTED]));
    assert Sorted(log, "", KindsFor("")) == [newer] + [older];
    FilterHead(newer, [older], Trades("A"));
    FilterOne(older, Trades("A"));
    assert AllOrders(log, "", "", "A") == [] + [older];
    assert Listed(log, "", SUBMITTED, 1) == [newer];
  }

  lemma Blanks()
    ensures Trim("") == "" && KindsFor("") == [SUBMITTED, FAILED]
  {
  }

  lemma Letters()
    ensures NormalizeSymbol("A") == "A" && NormalizeSymbol("B") == "B"
  {
    assert ToUpper("A") == "A" && ToUpper("B") == "B";
  }

  lemma SortTwo(older: Event, newer: Event)
    requires Newer(newer, older)
    ensures Sort([older, newer]) == [newer, older]
  {
    assert Sort([newer]) == [newer];
    assert Insert(older, []) == [older];
    assert [older, newer][1..] == [newer];
  }

  /* Deep pages. */

  lemma {:induction false} InsertSize(e: Event, s: seq<Event>)
    ensures |Insert(e, s)| == |s| + 1
  {
    if s != [] && !Newer(e, s[0]) {
      InsertSize(e, s[1..]);
    }
  }

  lemma {:induction false} SortSize(s: seq<Event>)
    ensures |Sort(s)| == |s|
  {
    if s != [] {
      SortSize(s[1..]);
      InsertSize(s[0], Sort(s[1..]));
    }
  }

  /** With one event type, an event is recent exactly when it is among the newest of them all. */
  lemma RecentOfOneKind(log: seq<Event>, traderId: string, kind: string, limit: nat, i: nat)
    requires UniqueIds(log) && 1 <= limit <= 500 && i < |Sorted(log, traderId, [kind])|
    ensures Recent(log, traderId, limit)(Sorted(log, traderId, [kind])[i]) <==> i < limit
  {
    hide Filter, Sort, Sorted;
    var all := Sorted(log, traderId, [kind]);
    SortedIs(log, traderId, [kind]);
    DescendingDistinct(all);
    assert all[i] in all;
    assert all[i].kind == kind;
    if i < limit {
      assert Listed(log, traderId, kind, limit)[i] == all[i];
    }
  }

  /** Without a symbol filter and with one event type, the page is right exactly when it ends within the
      500 events that are fetched at most, or there are no more than those, or none on the page. */
  lemma DeepPageIff(log: seq<Event>, traderId: string, status: string, symbol: string, limit: nat, offset: nat)
    requires UniqueIds(log) && NormalizeSymbol(symbol) == "" && 1 <= limit && |KindsFor(status)| == 1
    ensures var all := AllOrders(log, traderId, status, symbol);
      PageFetched(log, traderId, all, limit, offset) <==> limit + offset <= 500 || |all| <= 500 || |all| <= offset
  {
    hide Filter, Sort, Sorted, NormalizeSymbol, Recent, KindsFor;
    var kinds := KindsFor(status);
    var kind := kinds[0];
    assert kinds == [kind];
    var all := Sorted(log, traderId, kinds);
    FilterAll(all, Trades(symbol));
    var n := ScanLimit(limit, offset);
    forall i | 0 <= i < |all|
      ensures Recent(log, traderId, n)(all[i]) <==> i < n
    {
      RecentOfOneKind(log, traderId, kind, n, i);
    }
    if limit + offset > 500 && |all| > 500 && |all| > offset {
      assert !Recent(log, traderId, n)(all[PageEnd(|all|, limit, offset) - 1]);
    }
  }

  /** The 501st order of 501 is missing from its page. */
  lemma DeepPageLosesOrders(log: seq<Event>)
    requires log == seq(501, i => Event(i, i, "t", SUBMITTED, "A"))
    ensures UniqueIds(log) && |AllOrders(log, "", "submitted", "")| == 501
    ensures !PageFetched(log, "", AllOrders(log, "", "submitted", ""), 1, 500)
  {
    hide Filter, Sort, NormalizeSymbol, Trim, KindsFor, PageFetched;
    SubmittedWords();
    FilterAll(log, WantedBy("", [SUBMITTED]));
    SortSize(log);
    FilterAll(Sorted(log, "", [SUBMITTED]), Trades(""));
    DeepPageIff(log, "", "submitted", "", 1, 500);
  }

  lemma SubmittedWords()
    ensures Trim("") == "" && NormalizeSymbol("") == "" && KindsFor("submitted") == [SUBMITTED]
  {
    assert IsTrimmed("submitted") && ToLower("submitted") == "submitted";
  }
}
