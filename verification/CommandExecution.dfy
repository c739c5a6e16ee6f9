/**
 Control commands carried out against the trading manager: the worker's outcomes and the orders, if
 any, that left for them.
 */
module CommandExecution {
  import opened Clock
  import opened CommandWorker
  import opened DailyRisk
  import opened Execution
  import opened Lifecycle
  import opened Options
  import opened Policy
  import opened RuntimeStore
  import opened Text
  import opened Trading

  /** Approval of a decision for the trader registered under an id, which then still has to be in time. */
  ghost predicate ApprovedFor(m: Manager, id: string, d: Decision, times: Times)
    reads m, m.traders.Values
  {
    && id in m.traders
    && var t := m.traders[id];
    && Approved(t.params, t.id, t.modeAllowed, Now(m, t), d, times.approve)
    && times.validate <= times.approve + TOKEN_TTL
  }

  /** An opening order is one of the trader, of a sound decision, and safe against the state it leaves
      from. */
  ghost predicate OrderIsSafe(traders: map<string, VirtualTrader>, id: string, d: Decision, sent: Option<Submission>,
                              at: Moment, times: Times) {
    sent.Some? && IsOpening(sent.value) ==>
      && id in traders
      && SafeToOpen(traders[id].params, at, d, sent.value.leverage, times.risk)
      && DecisionSound(traders[id].params, d) && IsOrderOf(sent.value, traders[id], d)
  }

  /** Executes a decision for the trader registered under the trimmed id. */
  method ExecuteForTrader(m: Manager, traderId: string, d: Decision, replies: Replies, times: Times)
    returns (ok: bool, sent: Option<Submission>, ghost at: Moment)
    requires m.Valid() && Covered(m.Books(), m.owners)
    modifies m`owners, m.traders.Values
    ensures Covered(m.Books(), m.owners) && (old(Agree(m.Books(), m.owners)) ==> Agree(m.Books(), m.owners))
    ensures Trim(traderId) !in m.traders ==>
      !ok && sent.None? && m.owners == old(m.owners) && m.Books() == old(m.Books())
    ensures sent.Some? ==> (ok <==> replies.order.Accepted?) && IsTradeAction(d.action) && IsTrimmed(d.action)
    ensures ok ==> (sent.Some? <==> IsTradeAction(d.action) && IsTrimmed(d.action))
    ensures OrderIsSafe(m.traders, Trim(traderId), d, sent, at, times)
    ensures IsTradeAction(d.action) && !IsTrimmed(d.action) ==>
      && sent.None? && m.owners == old(m.owners) && m.Books() == old(m.Books())
      && (ok <==> old(ApprovedFor(m, Trim(traderId), d, times)))
  {
    hide NormalizeSymbol, Trim, Agree, Covered, Manager.Books, DecisionSound, IsOrderOf, SafeToOpen, Approved,
      OpenLeaves, IsSynced, Booked, IsTrimmed;
    ExecutedActions(d.action);
    var id := Trim(traderId);
    at := Moment(m.owners, map[], NobodysLife);
    if id == "" || id !in m.traders {
      return false, None, at;
    }
    var asked;
    ok, sent, asked, at := ExecuteDecision(m, m.traders[id], d, replies, times);
  }

  const NobodysLife :=
    Life(Stopped, ZERO, NoCircuit, DailyRisk.Empty, Allocation(0.0, 0.0, 0.0, 0.0, 0.0), None, ZERO, 0, 0)

  /** What carrying out a command came to: whether the manager reported success, the order that left, and
      the state it left from. */
  datatype Effect = Effect(command: Command, succeeded: bool, sent: Option<Submission>, at: Moment)

  /** A command ends as submitted only for a trade; an order then left exactly when the action has no
      white space around it. An order that left ends as submitted exactly when the exchange accepted it,
      and an opening one was safe. */
  ghost predicate Accounted(traders: map<string, VirtualTrader>, e: Effect, replies: Replies, times: Times) {
    var c := e.command;
    && (Outcome(c, e.succeeded).submitted ==>
          && Executes(c) && IsTradeAction(c.decision.value.action)
          && (e.sent.Some? <==> IsTrimmed(c.decision.value.action)))
    && (e.sent.Some? ==>
          && Executes(c) && (replies.order.Accepted? <==> Outcome(c, e.succeeded).submitted)
          && OrderIsSafe(traders, Trim(c.traderId), c.decision.value, e.sent, e.at, times))
  }

  predicate IsPaddedTrade(c: Command) {
    Executes(c) && IsTradeAction(c.decision.value.action) && !IsTrimmed(c.decision.value.action)
  }

  /** The worker's treatment of one claimed command. A padded trade leaves no order and touches no book,
      and yet ends as submitted exactly when the decision is approved in time. */
  method CarryOut(m: Manager, table: Table, c: Command, replies: Replies, times: Times, delivered: bool)
    returns (status: Status, sent: Option<Submission>, ghost effect: Effect)
    requires m.Valid() && Covered(m.Books(), m.owners)
    modifies table, m`owners, m.traders.Values
    ensures Covered(m.Books(), m.owners) && (old(Agree(m.Books(), m.owners)) ==> Agree(m.Books(), m.owners))
    ensures effect.command == c && effect.sent == sent && Accounted(m.traders, effect, replies, times)
    ensures table.rows == if delivered then Landed(old(table.rows), Outcome(c, effect.succeeded)) else old(table.rows)
    ensures status == Outcome(c, effect.succeeded).status
    ensures !Executes(c) ==> sent.None? && m.owners == old(m.owners) && m.Books() == old(m.Books())
    ensures IsPaddedTrade(c) ==>
      && sent.None? && m.owners == old(m.owners) && m.Books() == old(m.Books())
      && (Outcome(c, effect.succeeded).submitted <==> old(ApprovedFor(m, Trim(c.traderId), c.decision.value, times)))
  {
    hide NormalizeSymbol, Trim, Agree, Covered, Manager.Books, OrderIsSafe, ApprovedFor, Landed, IsTrimmed,
      IsTradeAction;
    sent := None;
    ghost var at := Moment(m.owners, map[], NobodysLife);
    var ok := false;
    if Executes(c) {
      ok, sent, at := ExecuteForTrader(m, c.traderId, c.decision.value, replies, times);
    }
    effect := Effect(c, ok, sent, at);
    var asked;
    status, asked := ProcessCommand(table, c, ok, delivered);
  }

  /* A pass over the table. */

  /** A claimed row once its command has been carried out. */
  function FinalRow(row: Row, e: Effect, delivered: bool): Row {
    var w := Outcome(e.command, e.succeeded);
    if delivered then row.(status := w.status, submitted := w.submitted) else row
  }

  ghost predicate PlainIds(rows: map<string, Row>) {
    forall id :: id in rows ==> IsTrimmed(id) && rows[id].command.id == id
  }

  lemma LandsOnItsRow(rows: map<string, Row>, c: Command, succeeded: bool)
    requires IsTrimmed(c.id) && c.id in rows
    ensures var w := Outcome(c, succeeded);
      Landed(rows, w) == rows[c.id := rows[c.id].(status := w.status, submitted := w.submitted)]
  {
  }

  lemma ClaimedPlain(rows: map<string, Row>, ids: seq<string>)
    requires PlainIds(rows) && Claimable(rows, ids)
    ensures PlainIds(Claimed(rows, ids)) && forall i :: 0 <= i < |ids| ==> ids[i] in Claimed(rows, ids)
    ensures forall i :: 0 <= i < |ids| ==> CommandsOf(rows, ids)[i].id == ids[i]
  {
    hide IsTrimmed;
  }

  /** A command's effect is accounted for and its row shows the outcome. */
  ghost predicate RowIsAccounted(traders: map<string, VirtualTrader>, claimed: map<string, Row>,
                                 rows: map<string, Row>, c: Command, e: Effect, replies: Replies, times: Times,
                                 delivered: bool) {
    && e.command == c && Accounted(traders, e, replies, times)
    && c.id in claimed && c.id in rows && rows[c.id] == FinalRow(claimed[c.id], e, delivered)
  }

  /** So it is for every claimed command. */
  ghost predicate PassIsAccounted(traders: map<string, VirtualTrader>, claimed: map<string, Row>,
                                  rows: map<string, Row>, commands: seq<Command>, effects: seq<Effect>,
                                  replies: Command -> Replies, times: Command -> Times, delivered: Command -> bool) {
    && |effects| == |commands|
    && forall i :: 0 <= i < |commands| ==>
         var c := commands[i];
         RowIsAccounted(traders, claimed, rows, c, effects[i], replies(c), times(c), delivered(c))
  }

  /** The rows that are not those of the given commands are as they were claimed. */
  ghost predicate OthersUntouched(claimed: map<string, Row>, rows: map<string, Row>, commands: seq<Command>) {
    forall id :: id in claimed && (forall i :: 0 <= i < |commands| ==> commands[i].id != id) ==>
      id in rows && rows[id] == claimed[id]
  }

  lemma AccountedOneMore(traders: map<string, VirtualTrader>, claimed: map<string, Row>, rows: map<string, Row>,
                         commands: seq<Command>, n: nat, effects: seq<Effect>, e: Effect, replies: Command -> Replies,
                         times: Command -> Times, delivered: Command -> bool)
    requires n < |commands| && forall i, j :: 0 <= i < j < |commands| ==> commands[i].id != commands[j].id
    requires PassIsAccounted(traders, claimed, rows, commands[..n], effects, replies, times, delivered)
    requires OthersUntouched(claimed, rows, commands[..n]) && commands[n].id in claimed && IsTrimmed(commands[n].id)
    requires e.command == commands[n] && Accounted(traders, e, replies(commands[n]), times(commands[n]))
    ensures var c := commands[n];
      var rows' := if delivered(c) then Landed(rows, Outcome(c, e.succeeded)) else rows;
      && PassIsAccounted(traders, claimed, rows', commands[..n + 1], effects + [e], replies, times, delivered)
      && OthersUntouched(claimed, rows', commands[..n + 1])
  {
    hide Accounted, Outcome, IsTrimmed, Landed, FinalRow, RowIsAccounted;
    var c := commands[n];
    assert forall i :: 0 <= i < n ==> commands[..n][i] == commands[i];
    assert forall i :: 0 <= i < n + 1 ==> commands[..n + 1][i] == commands[i];
    assert c.id in rows && rows[c.id] == claimed[c.id];
    var rows' := if delivered(c) then Landed(rows, Outcome(c, e.succeeded)) else rows;
    LandsOnItsRow(rows, c, e.succeeded);
    RowEnds(traders, claimed, rows, c, e, replies(c), times(c), delivered(c));
    forall i | 0 <= i < n
      ensures var c := commands[i];
        RowIsAccounted(traders, claimed, rows', c, effects[i], replies(c), times(c), delivered(c))
    {
      var c := commands[i];
      assert RowIsAccounted(traders, claimed, rows, c, effects[i], replies(c), times(c), delivered(c));
      RowStays(traders, claimed, rows, rows', c, effects[i], replies(c), times(c), delivered(c));
    }
  }

  lemma RowStays(traders: map<string, VirtualTrader>, claimed: map<string, Row>, rows: map<string, Row>,
                 rows': map<string, Row>, c: Command, e: Effect, replies: Replies, times: Times, delivered: bool)
    requires RowIsAccounted(traders, claimed, rows, c, e, replies, times, delivered)
    requires c.id in rows ==> c.id in rows' && rows'[c.id] == rows[c.id]
    ensures RowIsAccounted(traders, claimed, rows', c, e, replies, times, delivered)
  {
    hide Accounted;
  }

  lemma RowEnds(traders: map<string, VirtualTrader>, claimed: map<string, Row>, rows: map<string, Row>, c: Command,
                e: Effect, replies: Replies, times: Times, delivered: bool)
    requires c.id in rows && c.id in claimed && rows[c.id] == claimed[c.id] && IsTrimmed(c.id)
    requires e.command == c && Accounted(traders, e, replies, times)
    ensures var rows' := if delivered then Landed(rows, Outcome(c, e.succeeded)) else rows;
      RowIsAccounted(traders, claimed, rows', c, e, replies, times, delivered)
  {
    hide Accounted, Outcome, Trim, Landed;
    LandsOnItsRow(rows, c, e.succeeded);
  }

  /** Carries out the commands in a worker's hand against the manager. */
  method CarryOutAll(m: Manager, table: Table, commands: seq<Command>, replies: Command -> Replies,
                     times: Command -> Times, delivered: Command -> bool,
                     worker: int, ghost s: State, ghost before: seq<Step>, ghost claimed: State)
    returns (ghost effects: seq<Effect>, ghost t: State, ghost steps: seq<Step>)
    requires m.Valid() && Covered(m.Books(), m.owners)
    requires IsPath(s, before, claimed) && claimed.rows == table.rows && Hand(claimed, worker) == commands
    requires forall i, j :: 0 <= i < j < |commands| ==> commands[i].id != commands[j].id
    requires forall i :: 0 <= i < |commands| ==> commands[i].id in table.rows && IsTrimmed(commands[i].id)
    modifies table, m`owners, m.traders.Values
    ensures Covered(m.Books(), m.owners) && (old(Agree(m.Books(), m.owners)) ==> Agree(m.Books(), m.owners))
    ensures IsPath(s, steps, t) && t.rows == table.rows && Hand(t, worker) == [] && t.writes == claimed.writes
    ensures PassIsAccounted(m.traders, claimed.rows, table.rows, commands, effects, replies, times, delivered)
  {
    hide NormalizeSymbol, Trim, Agree, Covered, Manager.Books, Landed, Outcome, Executes, IsPath, Accounted, IsTrimmed,
      PassIsAccounted, OthersUntouched, IsPaddedTrade, ApprovedFor;
    effects, t, steps := [], claimed, before;
    NothingYet(m.traders, claimed.rows, commands, replies, times, delivered);
    for i := 0 to |commands|
      invariant Covered(m.Books(), m.owners) && (old(Agree(m.Books(), m.owners)) ==> Agree(m.Books(), m.owners))
      invariant IsPath(s, steps, t) && t.rows == table.rows && Hand(t, worker) == commands[i..]
      invariant t.writes == claimed.writes
      invariant PassIsAccounted(m.traders, claimed.rows, table.rows, commands[..i], effects, replies, times, delivered)
      invariant OthersUntouched(claimed.rows, table.rows, commands[..i])
    {
      var c := commands[i];
      assert commands[i..][0] == c && commands[i..][1..] == commands[i + 1..];
      ghost var rows := table.rows;
      ghost var effect;
      var status, sent;
      status, sent, effect := CarryOut(m, table, c, replies(c), times(c), delivered(c));
      AccountedOneMore(m.traders, claimed.rows, rows, commands, i, effects, effect, replies, times, delivered);
      t, steps := PathOfCommand(s, steps, t, worker, effect.succeeded, delivered(c));
      effects := effects + [effect];
    }
    assert commands[..|commands|] == commands;
  }

  lemma NothingYet(traders: map<string, VirtualTrader>, claimed: map<string, Row>, commands: seq<Command>,
                   replies: Command -> Replies, times: Command -> Times, delivered: Command -> bool)
    ensures PassIsAccounted(traders, claimed, claimed, commands[..0], [], replies, times, delivered)
    ensures OthersUntouched(claimed, claimed, commands[..0])
  {
  }

  /** One pass of a worker against the manager. It is a path of the protocol, and whatever it marks as
      submitted is accounted for: for an action without white space around it an order left, and an
      opening order was safe against the state after its own sync. */
  method RunPass(m: Manager, table: Table, batch: int, fate: ClaimFate, locked: set<string>,
                 returned: seq<string> -> seq<string>, replies: Command -> Replies, times: Command -> Times,
                 delivered: Command -> bool, worker: int, ghost s: State)
    returns (ok: bool, ids: seq<string>, ghost effects: seq<Effect>, ghost t: State, ghost steps: seq<Step>)
    requires m.Valid() && Covered(m.Books(), m.owners)
    requires s.rows == table.rows && Hand(s, worker) == [] && Shuffles(returned) && PlainIds(table.rows)
    modifies table, m`owners, m.traders.Values
    ensures Covered(m.Books(), m.owners) && (old(Agree(m.Books(), m.owners)) ==> Agree(m.Books(), m.owners))
    ensures IsPath(s, steps, t) && t.rows == table.rows && Hand(t, worker) == [] && t.writes == s.writes
    ensures ok <==> fate.Answered?
    ensures ok ==>
      && ClaimsOldest(s.rows, locked, Limit(batch), ids)
      && PassIsAccounted(m.traders, Claimed(s.rows, ids), table.rows, CommandsOf(s.rows, ids), effects, replies,
                         times, delivered)
  {
    hide NormalizeSymbol, Agree, Covered, Manager.Books, IsPath, Claimed, ClaimsOldest, PassIsAccounted, PlainIds,
      IsTrimmed, Limit;
    var commands;
    ghost var books := m.Books();
    effects := [];
    ids, commands, t, steps := ClaimBatch(table, batch, fate, locked, returned, worker, s);
    assert m.Books() == books;
    if !fate.Answered? {
      return false, ids, effects, t, steps;
    }
    ClaimedPlain(s.rows, ids);
    PlainIdsTrimmed(table.rows);
    effects, t, steps := CarryOutAll(m, table, commands, replies, times, delivered, worker, s, steps, t);
    ok := true;
  }

  lemma PlainIdsTrimmed(rows: map<string, Row>)
    requires PlainIds(rows)
    ensures forall id :: id in rows ==> IsTrimmed(id)
  {
  }

  /** In such a pass, a delivered row that shows a trade as submitted had an order leave exactly when the
      action has no white space around it, and an opening order was safe. */
  lemma SubmittedRowTellsOfOrder(traders: map<string, VirtualTrader>, claimed: map<string, Row>, rows: map<string, Row>,
                                 commands: seq<Command>, effects: seq<Effect>, replies: Command -> Replies,
                                 times: Command -> Times, delivered: Command -> bool, i: nat)
    requires PassIsAccounted(traders, claimed, rows, commands, effects, replies, times, delivered)
    requires i < |commands| && delivered(commands[i]) && rows[commands[i].id].submitted
    ensures var c := commands[i];
      && Executes(c) && rows[c.id].status == Completed
      && (effects[i].sent.Some? <==> IsTrimmed(c.decision.value.action))
      && (effects[i].sent.Some? ==>
            OrderIsSafe(traders, Trim(c.traderId), c.decision.value, effects[i].sent, effects[i].at, times(c)))
  {
    hide Trim, IsTrimmed, IsTradeAction, OrderIsSafe;
  }

  /* A padded action. */

  const PaperParams := RiskParams(3, 1000.0, 50.0, Limits(0.0, 0.0), 5, 5, 1.5, 50, true, true, [])

  const PaddedDecision := Decision("BTC", " open_long", 1, 100.0, 1.0, 0.5, 2.0, 80)

  lemma PaddedDecisionIsApproved(id: string, now: Time)
    ensures Approved(PaperParams, id, true, Moment(map[], map[], NobodysLife), PaddedDecision, now)
    ensures IsTradeAction(PaddedDecision.action) && !IsTrimmed(PaddedDecision.action)
  {
    PaddedOpen();
    Letters();
    hide Trim, NormalizeSymbol;
    assert SizeWithinCap(PaperParams, 100.0);
  }

  lemma Letters()
    ensures NormalizeSymbol("BTC") == "BTC"
  {
    assert IsTrimmed("BTC") && ToUpper("BTC") == "BTC";
  }

  /** A trader, a decision to open long with a space in front of the action, and its approval as a
      command: the row ends as completed and submitted, and nothing was sent. */
  method PaddedTradeEndsSubmitted(replies: Replies) returns (table: Table, sent: Option<Submission>)
    ensures "cmd" in table.rows && table.rows["cmd"].status == Completed && table.rows["cmd"].submitted
    ensures sent.None?
  {
    hide NormalizeSymbol, Trim, IsTrimmed, Approved, Agree, Covered, Landed, Manager.Books, IsTradeAction;
    var trader := new VirtualTrader("paper", PaperParams, true, LimitIoc, 50.0, NobodysLife);
    var m := new Manager();
    var registered := m.Register(trader);
    m.AgreeIsCovered(m.Books(), m.owners);
    var c := Command("cmd", "decision", "approve", ZERO, "paper", Some(PaddedDecision));
    table := new Table();
    table.rows := map["cmd" := Row(c, Processing, false)];
    var times := Times(1, 1, 1, 1);
    PaddedDecisionIsApproved("paper", 1);
    PlainNames();
    assert ApprovedFor(m, "paper", PaddedDecision, times);
    var status;
    ghost var effect;
    status, sent, effect := CarryOut(m, table, c, replies, times, true);
    LandsOnItsRow(map["cmd" := Row(c, Processing, false)], c, effect.succeeded);
  }

  lemma PlainNames()
    ensures Trim("paper") == "paper" && IsTrimmed("cmd")
  {
    assert IsTrimmed("paper");
  }
}
