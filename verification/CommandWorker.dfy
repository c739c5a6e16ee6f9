/**
 Control commands: rows of a shared table that any number of workers claim, carry out and mark
 terminal. Workers may crash at any point, the reply to a claim may be lost, and a status write may
 be lost or land late. The protocol comes first, then one worker's pass, which is a run of it.
 */
module CommandWorker {
  import opened Clock
  import opened Options
  import opened Policy
  import opened Text

  /** `Custom` is any other text a caller may have put in the status column. */
  datatype Status = Queued | Processing | Completed | Failed | Cancelled | Custom(text: string)

  /** `decision` is the decoded payload, absent when the payload is unusable or names no trader. */
  datatype Command = Command(id: string, target: string, action: string, createdAt: Time, traderId: string,
                             decision: Option<Decision>)

  datatype Row = Row(command: Command, status: Status, submitted: bool)

  /** A status update on its way to the table. */
  datatype Write = Write(id: string, status: Status, submitted: bool)

  datatype State = State(
    rows: map<string, Row>, hands: map<int, seq<Command>>, writes: seq<Write>,
    decided: set<string>, executed: seq<string>)

  const Initial := State(map[], map[], [], {}, [])

  datatype Step =
    | Insert(command: Command, status: Status)
    | Claim(worker: int, ids: seq<string>, replied: bool)
    | Decide(worker: int, succeeds: bool)     // carries out the worker's next command
    | Land(write: nat)
    | Lose(write: nat)
    | Crash(worker: int)

  predicate IsFinal(s: Status) { s == Completed || s == Failed || s == Cancelled }

  /** Whether carrying out the command calls the trading manager. */
  predicate Executes(c: Command) {
    c.action == "approve" && c.target == "decision" && c.decision.Some?
  }

  /** `processCommand`: the outcome of a command, given whether its execution succeeds. */
  function Outcome(c: Command, succeeds: bool): Write {
    if c.action == "reject" then Write(c.id, Cancelled, false)
    else if c.target != "decision" || c.action != "approve" then Write(c.id, Failed, false)
    else if c.decision.None? then Write(c.id, Failed, false)
    else if !succeeds then Write(c.id, Failed, false)
    else Write(c.id, Completed, IsTradeAction(c.decision.value.action))
  }

  /** What a command ends as: a rejection cancelled, an approval of a decision that succeeded completed, and
      anything else failed; submitted is a completed open or close. */
  lemma OutcomeIs(c: Command, succeeds: bool)
    ensures var w := Outcome(c, succeeds);
      && w.id == c.id && (w.status == Cancelled <==> c.action == "reject")
      && (w.status == Completed <==>
            c.action == "approve" && c.target == "decision" && c.decision.Some? && succeeds)
      && (w.status != Cancelled && w.status != Completed ==> w.status == Failed)
      && (w.submitted <==>
            && w.status == Completed
            && Trim(c.decision.value.action) in ["open_long", "open_short", "close_long", "close_short"])
  {
    hide Trim;
  }

  function Hand(s: State, worker: int): seq<Command> {
    if worker in s.hands then s.hands[worker] else []
  }

  /** A claim takes distinct queued rows; which ones depends on the other claims under way. */
  predicate Claimable(rows: map<string, Row>, ids: seq<string>) {
    && (forall i :: 0 <= i < |ids| ==> ids[i] in rows && rows[ids[i]].status == Queued)
    && (forall i, j :: 0 <= i < j < |ids| ==> ids[i] != ids[j])
  }

  function Claimed(rows: map<string, Row>, ids: seq<string>): map<string, Row> {
    map id | id in rows :: if id in ids then rows[id].(status := Processing) else rows[id]
  }

  function CommandsOf(rows: map<string, Row>, ids: seq<string>): (r: seq<Command>)
    requires forall i :: 0 <= i < |ids| ==> ids[i] in rows
    ensures |r| == |ids|
    ensures forall i :: 0 <= i < |ids| ==> r[i] == rows[ids[i]].command
  {
    seq(|ids|, i requires 0 <= i < |ids| => rows[ids[i]].command)
  }

  /** `UpdateStatus`: whatever the row's status, and under the trimmed id. */
  function Landed(rows: map<string, Row>, w: Write): map<string, Row> {
    var key := Trim(w.id);
    if key in rows then rows[key := rows[key].(status := w.status, submitted := w.submitted)] else rows
  }

  function Without<T>(s: seq<T>, i: nat): seq<T>
    requires i < |s|
  {
    s[..i] + s[i + 1..]
  }

  predicate Enabled(s: State, step: Step) {
    match step
    case Insert(c, _) => c.id !in s.rows
    case Claim(w, ids, _) => Hand(s, w) == [] && Claimable(s.rows, ids)
    case Decide(w, _) => Hand(s, w) != []
    case Land(i) => i < |s.writes|
    case Lose(i) => i < |s.writes|
    case Crash(_) => true
  }

  function Next(s: State, step: Step): State
    requires Enabled(s, step)
  {
    match step
    case Insert(c, status) => s.(rows := s.rows[c.id := Row(c, status, false)])
    case Claim(w, ids, replied) =>
      s.(rows := Claimed(s.rows, ids), hands := if replied then s.hands[w := CommandsOf(s.rows, ids)] else s.hands)
    case Decide(w, succeeds) =>
      var c := s.hands[w][0];
      s.(hands := s.hands[w := s.hands[w][1..]], writes := s.writes + [Outcome(c, succeeds)],
         decided := s.decided + {c.id},
         executed := if Executes(c) then s.executed + [c.id] else s.executed)
    case Land(i) => s.(rows := Landed(s.rows, s.writes[i]), writes := Without(s.writes, i))
    case Lose(i) => s.(writes := Without(s.writes, i))
    case Crash(w) => s.(hands := s.hands[w := []])
  }

  /* What every run keeps. */

  predicate Holds(s: State, w: int, i: int) { w in s.hands && 0 <= i < |s.hands[w]| }

  predicate Taken(rows: map<string, Row>, id: string) { id in rows && rows[id].status != Queued }

  /** A command in a worker's hand is claimed, undecided, and in no other place. */
  ghost predicate HandsKept(s: State) {
    && (forall w, i :: Holds(s, w, i) ==>
          var c := s.hands[w][i]; Taken(s.rows, c.id) && s.rows[c.id].command == c && c.id !in s.decided)
    && (forall w, i, v, j :: Holds(s, w, i) && Holds(s, v, j) && s.hands[w][i].id == s.hands[v][j].id ==>
          w == v && i == j)
  }

  /** A decided command is claimed, and an executed one is decided, an approval, and executed once. */
  ghost predicate HistoryKept(s: State) {
    && (forall id :: id in s.decided ==> Taken(s.rows, id))
    && (forall i :: 0 <= i < |s.executed| ==> s.executed[i] in s.decided && Executes(s.rows[s.executed[i]].command))
    && (forall i, j :: 0 <= i < j < |s.executed| ==> s.executed[i] != s.executed[j])
    && (forall i :: 0 <= i < |s.writes| ==> IsFinal(s.writes[i].status))
    && (forall id :: id in s.rows ==> s.rows[id].command.id == id)
  }

  function Rank(s: Status): nat {
    match s case Queued => 0 case Processing => 1 case _ => 2
  }

  /** No row disappears, changes its command or moves back towards the queue. */
  ghost predicate Forward(before: map<string, Row>, after: map<string, Row>) {
    forall id :: id in before ==>
      id in after && after[id].command == before[id].command && Rank(before[id].status) <= Rank(after[id].status)
  }

  lemma NextMovesForward(s: State, step: Step)
    requires Enabled(s, step) && HistoryKept(s)
    ensures Forward(s.rows, Next(s, step).rows)
  {
    hide Trim;
  }

  lemma NextKeepsHistory(s: State, step: Step)
    requires Enabled(s, step) && HandsKept(s) && HistoryKept(s)
    ensures HistoryKept(Next(s, step))
  {
    hide Trim, HandsKept;
    match step
    case Decide(w, succeeds) => DecideKeepsHistory(s, w, succeeds);
    case Land(n) => LandKeepsHistory(s, n);
    case _ =>
  }

  lemma DecideKeepsHistory(s: State, w: int, succeeds: bool)
    requires Enabled(s, Decide(w, succeeds)) && HandsKept(s) && HistoryKept(s)
    ensures HistoryKept(Next(s, Decide(w, succeeds)))
  {
    hide IsTradeAction;
    assert Holds(s, w, 0);
  }

  lemma LandKeepsHistory(s: State, n: nat)
    requires Enabled(s, Land(n)) && HistoryKept(s)
    ensures HistoryKept(Next(s, Land(n)))
  {
    hide Trim;
    assert IsFinal(s.writes[n].status);
  }

  lemma NextKeepsHands(s: State, step: Step)
    requires Enabled(s, step) && HandsKept(s) && HistoryKept(s)
    ensures HandsKept(Next(s, step))
  {
    hide Trim, Outcome;
    var t := Next(s, step);
    match step
    case Insert(c, status) =>
      assert forall w, i :: Holds(t, w, i) <==> Holds(s, w, i);
    case Claim(w, ids, replied) =>
      ClaimKeepsHands(s, w, ids, replied);
    case Decide(w, _) =>
      DecideKeepsHands(s, w, step.succeeds);
    case Land(n) =>
      assert forall w, i :: Holds(t, w, i) <==> Holds(s, w, i);
    case Lose(_) =>
      assert forall w, i :: Holds(t, w, i) <==> Holds(s, w, i);
    case Crash(w) =>
      assert forall v, i :: Holds(t, v, i) ==> Holds(s, v, i);
  }

  lemma ClaimKeepsHands(s: State, w: int, ids: seq<string>, replied: bool)
    requires Enabled(s, Claim(w, ids, replied)) && HandsKept(s) && HistoryKept(s)
    ensures HandsKept(Next(s, Claim(w, ids, replied)))
  {
    var t := Next(s, Claim(w, ids, replied));
    forall v, i | Holds(t, v, i)
      ensures var c := t.hands[v][i]; Taken(t.rows, c.id) && t.rows[c.id].command == c && c.id !in t.decided
      ensures (v == w && replied) || Holds(s, v, i)
    {
      if !(v == w && replied) {
        assert Holds(s, v, i);
      } else {
        assert t.hands[v][i] == s.rows[ids[i]].command;
      }
    }
    forall v, i, u, j | Holds(t, v, i) && Holds(t, u, j) && t.hands[v][i].id == t.hands[u][j].id
      ensures v == u && i == j
    {
    }
  }

  lemma DecideKeepsHands(s: State, w: int, succeeds: bool)
    requires Enabled(s, Decide(w, succeeds)) && HandsKept(s) && HistoryKept(s)
    ensures HandsKept(Next(s, Decide(w, succeeds)))
  {
    hide Outcome;
    var t := Next(s, Decide(w, succeeds));
    assert Holds(s, w, 0);
    forall v, i | Holds(t, v, i)
      ensures Holds(s, v, if v == w then i + 1 else i) && t.hands[v][i] == s.hands[v][if v == w then i + 1 else i]
    {
    }
  }

  /* Runs. */

  ghost predicate IsRun(run: seq<State>, steps: seq<Step>) {
    && |run| == |steps| + 1 && run[0] == Initial
    && forall i :: 0 <= i < |steps| ==> Enabled(run[i], steps[i]) && run[i + 1] == Next(run[i], steps[i])
  }

  lemma {:induction false} RunKeeps(run: seq<State>, steps: seq<Step>, n: nat)
    requires IsRun(run, steps) && n <= |steps|
    ensures HandsKept(run[n]) && HistoryKept(run[n])
  {
    hide HandsKept, HistoryKept, Enabled, Next;
    if n == 0 {
      InitialKept();
    } else {
      RunKeeps(run, steps, n - 1);
      assert Enabled(run[n - 1], steps[n - 1]);
      NextKeepsHands(run[n - 1], steps[n - 1]);
      NextKeepsHistory(run[n - 1], steps[n - 1]);
    }
  }

  lemma InitialKept()
    ensures HandsKept(Initial) && HistoryKept(Initial)
  {
  }

  /** Over any run, with any workers, crashes and lost writes: each command is executed at most once,
      only approvals of decisions are executed, and a reject never is. */
  lemma ExecutedAtMostOnce(run: seq<State>, steps: seq<Step>, id: string)
    requires IsRun(run, steps)
    ensures var s := run[|steps|];
      && multiset(s.executed)[id] <= 1
      && (id in s.executed ==> id in s.rows && Executes(s.rows[id].command))
      && (id in s.rows && s.rows[id].command.action == "reject" ==> id !in s.executed)
  {
    RunKeeps(run, steps, |steps|);
    hide Enabled, Next, HandsKept;
    DistinctCount(run[|steps|].executed, id);
  }

  lemma {:induction false} DistinctCount(s: seq<string>, id: string)
    requires forall i, j :: 0 <= i < j < |s| ==> s[i] != s[j]
    ensures multiset(s)[id] <= 1
  {
    if s != [] {
      var rest := s[..|s| - 1];
      assert s == rest + [s[|s| - 1]];
      DistinctCount(rest, id);
      if s[|s| - 1] == id {
        assert id !in rest;
      }
    }
  }

  /** A row's status never moves back towards the queue, whatever the ids. */
  lemma {:induction false} RunMovesForward(run: seq<State>, steps: seq<Step>, i: nat, n: nat)
    requires IsRun(run, steps) && i <= n <= |steps|
    ensures Forward(run[i].rows, run[n].rows)
    decreases n
  {
    hide HandsKept, HistoryKept, Enabled, Next, Rank;
    if i < n {
      RunMovesForward(run, steps, i, n - 1);
      RunKeeps(run, steps, n - 1);
      assert Enabled(run[n - 1], steps[n - 1]);
      NextMovesForward(run[n - 1], steps[n - 1]);
    }
  }

  /* Status order. */

  /** No id is another id with white space around it. */
  ghost predicate NoCollision(ids: set<string>) {
    forall x, y :: x in ids && y in ids && Trim(x) == y ==> x == y
  }

  predicate OneStep(before: Status, after: Status) {
    before == after || (before == Queued && after == Processing) || (before == Processing && IsFinal(after))
  }

  /** Every row stays, or moves one step along queued, processing, terminal. */
  ghost predicate Orderly(before: map<string, Row>, after: map<string, Row>) {
    forall id :: id in before ==> id in after && OneStep(before[id].status, after[id].status)
  }

  predicate InProgress(rows: map<string, Row>, id: string) { id in rows && rows[id].status == Processing }

  /** What is in a hand or on its way to the table is still processing; a row marked submitted is one
      whose trade was executed. */
  ghost predicate Tracked(s: State, ids: set<string>) {
    && s.rows.Keys <= ids
    && (forall w, i :: Holds(s, w, i) ==> InProgress(s.rows, s.hands[w][i].id))
    && (forall i :: 0 <= i < |s.writes| ==> s.writes[i].id in s.decided && InProgress(s.rows, s.writes[i].id))
    && (forall i, j :: 0 <= i < j < |s.writes| ==> s.writes[i].id != s.writes[j].id)
    && (forall i :: 0 <= i < |s.writes| && s.writes[i].submitted ==> IsSubmitted(s, s.writes[i].id))
    && (forall id :: id in s.rows && s.rows[id].submitted ==> IsSubmitted(s, id))
  }

  predicate IsSubmitted(s: State, id: string) {
    && id in s.rows && id in s.executed
    && s.rows[id].command.decision.Some? && IsTradeAction(s.rows[id].command.decision.value.action)
  }

  lemma InsertIsTracked(s: State, c: Command, status: Status, ids: set<string>)
    requires Enabled(s, Insert(c, status)) && Tracked(s, ids) && c.id in ids
    ensures Tracked(Next(s, Insert(c, status)), ids) && Orderly(s.rows, Next(s, Insert(c, status)).rows)
  {
    hide IsTradeAction;
    var t := Next(s, Insert(c, status));
    assert forall w, i :: Holds(t, w, i) <==> Holds(s, w, i);
    assert forall id :: IsSubmitted(s, id) ==> IsSubmitted(t, id);
  }

  lemma ClaimIsTracked(s: State, w: int, claim: seq<string>, replied: bool, ids: set<string>)
    requires Enabled(s, Claim(w, claim, replied)) && Tracked(s, ids) && HistoryKept(s)
    ensures var t := Next(s, Claim(w, claim, replied)); Tracked(t, ids) && Orderly(s.rows, t.rows)
  {
    hide IsTradeAction, Claimed, HistoryKept;
    var t := Next(s, Claim(w, claim, replied));
    ClaimedRows(s, claim);
    forall v, i | Holds(t, v, i)
      ensures InProgress(t.rows, t.hands[v][i].id)
    {
      if v == w && replied {
        assert t.hands[v][i] == s.rows[claim[i]].command;
      } else {
        assert Holds(s, v, i);
      }
    }
    assert forall id :: IsSubmitted(s, id) ==> IsSubmitted(t, id);
  }

  /** A claim moves exactly the claimed rows, from queued to processing. */
  lemma ClaimedRows(s: State, claim: seq<string>)
    requires Claimable(s.rows, claim) && HistoryKept(s)
    ensures forall id :: id in Claimed(s.rows, claim) <==> id in s.rows
    ensures forall id :: id in s.rows && id in claim ==> Claimed(s.rows, claim)[id] == s.rows[id].(status := Processing)
    ensures forall id :: id in s.rows && id !in claim ==> Claimed(s.rows, claim)[id] == s.rows[id]
    ensures forall id :: id in claim ==> id in s.rows && s.rows[id].status == Queued && s.rows[id].command.id == id
  {
    forall id | id in claim
      ensures id in s.rows && s.rows[id].status == Queued && s.rows[id].command.id == id
    {
      var i :| 0 <= i < |claim| && claim[i] == id;
    }
  }

  lemma DecideIsTracked(s: State, w: int, succeeds: bool, ids: set<string>)
    requires Enabled(s, Decide(w, succeeds)) && Tracked(s, ids) && HistoryKept(s) && HandsKept(s)
    ensures var t := Next(s, Decide(w, succeeds)); Tracked(t, ids) && Orderly(s.rows, t.rows)
  {
    hide IsTradeAction;
    var t := Next(s, Decide(w, succeeds));
    assert Holds(s, w, 0);
    var c := s.hands[w][0];
    forall v, i | Holds(t, v, i)
      ensures InProgress(t.rows, t.hands[v][i].id)
    {
      assert Holds(s, v, if v == w then i + 1 else i);
    }
    assert forall id :: IsSubmitted(s, id) ==> IsSubmitted(t, id);
    if Outcome(c, succeeds).submitted {
      assert t.executed[|s.executed|] == c.id;
    }
  }

  /** Where a landed write goes when ids do not collide: its own row, which was processing. */
  lemma LandedRows(s: State, w: Write, ids: set<string>)
    requires NoCollision(ids) && s.rows.Keys <= ids && InProgress(s.rows, w.id)
    ensures Trim(w.id) == w.id || Trim(w.id) !in s.rows
    ensures forall id :: id in s.rows <==> id in Landed(s.rows, w)
    ensures forall id :: id in s.rows ==> Landed(s.rows, w)[id].command == s.rows[id].command
    ensures forall id :: id in s.rows && id != w.id ==> Landed(s.rows, w)[id] == s.rows[id]
    ensures Landed(s.rows, w)[w.id] == s.rows[w.id] ||
      (Landed(s.rows, w)[w.id].status == w.status && Landed(s.rows, w)[w.id].submitted == w.submitted)
  {
  }

  lemma LandIsTracked(s: State, n: nat, ids: set<string>)
    requires Enabled(s, Land(n)) && Tracked(s, ids) && HistoryKept(s) && HandsKept(s) && NoCollision(ids)
    ensures var t := Next(s, Land(n)); Tracked(t, ids) && Orderly(s.rows, t.rows)
  {
    hide IsTradeAction, Trim, NoCollision, Landed;
    var t := Next(s, Land(n));
    LandedRows(s, s.writes[n], ids);
    assert forall v, i :: Holds(t, v, i) <==> Holds(s, v, i);
    assert forall x :: IsSubmitted(s, x) ==> IsSubmitted(t, x);
    WithoutTracked(s, n, ids);
  }

  lemma WithoutTracked(s: State, n: nat, ids: set<string>)
    requires n < |s.writes| && Tracked(s, ids)
    ensures Tracked(s.(writes := Without(s.writes, n)), ids)
    ensures forall i :: 0 <= i < |s.writes| - 1 ==> Without(s.writes, n)[i] == s.writes[if i < n then i else i + 1]
  {
    hide IsTradeAction;
    var t := s.(writes := Without(s.writes, n));
    assert forall v, i :: Holds(t, v, i) <==> Holds(s, v, i);
    assert forall x :: IsSubmitted(s, x) ==> IsSubmitted(t, x);
  }

  lemma NextIsTracked(s: State, step: Step, ids: set<string>)
    requires Enabled(s, step) && Tracked(s, ids) && HistoryKept(s) && HandsKept(s) && NoCollision(ids)
    requires step.Insert? ==> step.command.id in ids
    ensures Tracked(Next(s, step), ids) && Orderly(s.rows, Next(s, step).rows)
  {
    hide NoCollision, HistoryKept, HandsKept, IsTradeAction, Trim;
    match step
    case Insert(c, status) => InsertIsTracked(s, c, status, ids);
    case Claim(w, claim, replied) => ClaimIsTracked(s, w, claim, replied, ids);
    case Decide(w, succeeds) => DecideIsTracked(s, w, succeeds, ids);
    case Land(n) => LandIsTracked(s, n, ids);
    case Lose(n) => WithoutTracked(s, n, ids);
    case Crash(w) =>
      var t := Next(s, step);
      assert forall v, i :: Holds(t, v, i) ==> Holds(s, v, i) && t.hands[v][i] == s.hands[v][i];
      assert forall x :: IsSubmitted(s, x) ==> IsSubmitted(t, x);
  }

  ghost predicate InsertsFrom(steps: seq<Step>, ids: set<string>) {
    forall i :: 0 <= i < |steps| && steps[i].Insert? ==> steps[i].command.id in ids
  }

  lemma {:induction false} RunIsTracked(run: seq<State>, steps: seq<Step>, ids: set<string>, n: nat)
    requires IsRun(run, steps) && InsertsFrom(steps, ids) && NoCollision(ids) && n <= |steps|
    ensures Tracked(run[n], ids)
    ensures n < |steps| ==> Orderly(run[n].rows, run[n + 1].rows)
  {
    hide HandsKept, HistoryKept, Enabled, Next, Tracked, Orderly, NoCollision;
    if n == 0 {
      NothingTracked(ids);
    } else {
      RunIsTracked(run, steps, ids, n - 1);
      RunKeeps(run, steps, n - 1);
      assert Enabled(run[n - 1], steps[n - 1]);
      NextIsTracked(run[n - 1], steps[n - 1], ids);
    }
    if n < |steps| {
      RunKeeps(run, steps, n);
      assert Enabled(run[n], steps[n]);
      NextIsTracked(run[n], steps[n], ids);
    }
  }

  lemma NothingTracked(ids: set<string>)
    ensures Tracked(Initial, ids)
  {
  }

  lemma RunOf5(s1: State, s2: State, s3: State, s4: State, s5: State, a: Step, b: Step, c: Step, d: Step, e: Step)
    requires Enabled(Initial, a) && s1 == Next(Initial, a) && Enabled(s1, b) && s2 == Next(s1, b)
    requires Enabled(s2, c) && s3 == Next(s2, c) && Enabled(s3, d) && s4 == Next(s3, d)
    requires Enabled(s4, e) && s5 == Next(s4, e)
    ensures IsRun([Initial, s1, s2, s3, s4, s5], [a, b, c, d, e])
  {
    hide Enabled, Next;
    var run, steps := [Initial, s1, s2, s3, s4, s5], [a, b, c, d, e];
    forall i | 0 <= i < |steps|
      ensures Enabled(run[i], steps[i]) && run[i + 1] == Next(run[i], steps[i])
    {
      if i == 0 {
      } else if i == 1 {
      } else if i == 2 {
      } else if i == 3 {
      } else {
      }
    }
  }

  lemma ClaimOne(s: State, id: string, c: Command, rows: map<string, Row>)
    requires id in s.rows && s.rows[id] == Row(c, Queued, false) && rows == s.rows[id := Row(c, Processing, false)]
    requires s.hands == map[]
    ensures Enabled(s, Claim(0, [id], true))
    ensures Next(s, Claim(0, [id], true)) == s.(rows := rows, hands := map[0 := [c]])
  {
    assert CommandsOf(s.rows, [id]) == [c];
    assert Claimed(s.rows, [id]) == rows;
  }

  lemma LandOne(s: State, w: Write, rows: map<string, Row>)
    requires s.writes == [w] && Landed(s.rows, w) == rows
    ensures Enabled(s, Land(0)) && Next(s, Land(0)) == s.(rows := rows, writes := [])
  {
  }

  /** A run in which a rejection of `x` cancels the queued approval stored under the trimmed id. */
  lemma PaddedIdSkipsProcessing(x: string) returns (run: seq<State>, steps: seq<Step>)
    requires Trim(x) != x
    ensures IsRun(run, steps) && InsertsFrom(steps, {x, Trim(x)}) && |steps| == 5
    ensures Trim(x) in run[4].rows && run[4].rows[Trim(x)].status == Queued
    ensures Trim(x) in run[5].rows && run[5].rows[Trim(x)].status == Cancelled
    ensures run[5].executed == [] && !Orderly(run[4].rows, run[5].rows)
  {
    hide Trim, IsRun;
    var y := Trim(x);
    var no, yes := Command(x, "decision", "reject", ZERO, "", None), Command(y, "decision", "approve", ZERO, "", None);
    var a, b, c, d, e := Insert(no, Queued), Insert(yes, Queued), Claim(0, [x], true), Decide(0, true), Land(0);
    var r1 := map[x := Row(no, Queued, false)];
    var r2 := r1[y := Row(yes, Queued, false)];
    var r3 := r2[x := Row(no, Processing, false)];
    var r5 := r3[y := Row(yes, Cancelled, false)];
    var write := Write(x, Cancelled, false);
    var s1, s2, s3 := Initial.(rows := r1), Initial.(rows := r2), Initial.(rows := r3, hands := map[0 := [no]]);
    var s4 := State(r3, map[0 := []], [write], {x}, []);
    var s5 := State(r5, map[0 := []], [], {x}, []);
    ClaimOne(s2, x, no, r3);
    assert Next(s3, d) == s4;
    LandOne(s4, write, r5);
    RunOf5(s1, s2, s3, s4, s5, a, b, c, d, e);
    run, steps := [Initial, s1, s2, s3, s4, s5], [a, b, c, d, e];
  }

  ghost predicate OrderlyRun(run: seq<State>) {
    forall n :: 0 <= n < |run| - 1 ==> Orderly(run[n].rows, run[n + 1].rows)
  }

  /** Statuses move queued, processing, terminal one step at a time in every run over a set of ids,
      exactly when no id of the set is another one with white space around it. */
  lemma OrderlyRunsIff(ids: set<string>)
    ensures NoCollision(ids) <==>
      (forall run: seq<State>, steps: seq<Step> :: IsRun(run, steps) && InsertsFrom(steps, ids) ==> OrderlyRun(run))
  {
    hide HandsKept, HistoryKept, Enabled, Next, Tracked, Orderly, Trim;
    if NoCollision(ids) {
      forall run: seq<State>, steps: seq<Step> | IsRun(run, steps) && InsertsFrom(steps, ids)
        ensures OrderlyRun(run)
      {
        forall n | 0 <= n < |run| - 1
          ensures Orderly(run[n].rows, run[n + 1].rows)
        {
          RunIsTracked(run, steps, ids, n);
        }
      }
    } else {
      var x, y :| x in ids && y in ids && Trim(x) == y && x != y;
      var run, steps := PaddedIdSkipsProcessing(x);
      assert InsertsFrom(steps, ids);
      assert !Orderly(run[4].rows, run[4 + 1].rows);
    }
  }

  /** Ids without white space around them do not collide; the ids the repository makes itself are such. */
  lemma TrimmedRunsAreOrderly(run: seq<State>, steps: seq<Step>, ids: set<string>)
    requires IsRun(run, steps) && InsertsFrom(steps, ids) && forall id :: id in ids ==> IsTrimmed(id)
    ensures NoCollision(ids) && OrderlyRun(run)
  {
    hide Enabled, Next, OrderlyRun;
    OrderlyRunsIff(ids);
  }

  /** With such ids, a row marked submitted is a trade whose decision was executed. */
  lemma SubmittedWasExecuted(run: seq<State>, steps: seq<Step>, ids: set<string>, id: string)
    requires IsRun(run, steps) && InsertsFrom(steps, ids) && NoCollision(ids)
    ensures var s := run[|steps|];
      id in s.rows && s.rows[id].submitted ==> IsSubmitted(s, id) && multiset(s.executed)[id] == 1
  {
    RunIsTracked(run, steps, ids, |steps|);
    ExecutedAtMostOnce(run, steps, id);
    hide Enabled, Next, IsTradeAction, IsRun;
  }

  /* One worker's pass. */

  class Table {
    var rows: map<string, Row>

    constructor ()
      ensures rows == map[]
    {
      rows := map[];
    }

    /** Picks the oldest available rows and claims them. */
    method ClaimQueued(limit: nat, locked: set<string>) returns (ids: seq<string>)
      modifies this
      ensures ClaimsOldest(old(rows), locked, limit, ids) && rows == Claimed(old(rows), ids)
    {
      var free := Available(rows, locked);
      var left := free;
      ids := [];
      while |ids| < limit && left != {}
        invariant rows == old(rows)
        invariant left <= free && |ids| + |left| == |free| && |ids| <= limit
        invariant forall id :: id in ids <==> id in free && id !in left
        invariant forall i, j :: 0 <= i < j < |ids| ==> ids[i] != ids[j]
        invariant forall i, id :: 0 <= i < |ids| && id in left ==> Older(rows, ids[i], id)
        decreases left
      {
        var next := Oldest(rows, left);
        ids := ids + [next];
        left := left - {next};
      }
      forall i | 0 <= i < |ids|
        ensures ids[i] in free
      {
        assert ids[i] in ids;
      }
      forall i, id | 0 <= i < |ids| && id in free && id !in ids
        ensures Older(rows, ids[i], id)
      {
      }
      Claim(ids);
    }

    method Claim(ids: seq<string>)
      modifies this
      ensures rows == Claimed(old(rows), ids)
    {
      rows := map id | id in rows :: if id in ids then rows[id].(status := Processing) else rows[id];
    }

    method UpdateStatus(id: string, status: Status, submitted: bool)
      modifies this
      ensures rows == Landed(old(rows), Write(id, status, submitted))
    {
      hide Trim;
      var key := Trim(id);
      if key in rows {
        rows := rows[key := rows[key].(status := status, submitted := submitted)];
      }
    }
  }

  lemma {:induction false} LessTotal(a: string, b: string)
    ensures a == b || Less(a, b) || Less(b, a)
  {
    if a != [] && b != [] && a[0] == b[0] {
      LessTotal(a[1..], b[1..]);
      assert a == [a[0]] + a[1..] && b == [b[0]] + b[1..];
    }
  }

  lemma {:induction false} LessTransitive(a: string, b: string, c: string)
    requires Less(a, b) && Less(b, c)
    ensures Less(a, c)
  {
    if a != [] && a[0] == b[0] == c[0] {
      LessTransitive(a[1..], b[1..], c[1..]);
    }
  }

  lemma OlderIsOrder(rows: map<string, Row>, x: string, y: string, z: string)
    requires x in rows && y in rows && z in rows
    ensures x == y || Older(rows, x, y) || Older(rows, y, x)
    ensures Older(rows, x, y) && Older(rows, y, z) ==> Older(rows, x, z)
  {
    hide Less;
    LessTotal(x, y);
    if Less(x, y) && Less(y, z) {
      LessTransitive(x, y, z);
    }
  }

  method Oldest(rows: map<string, Row>, ids: set<string>) returns (oldest: string)
    requires ids != {} && forall id :: id in ids ==> id in rows
    ensures oldest in ids && forall id :: id in ids && id != oldest ==> Older(rows, oldest, id)
  {
    hide Older;
    oldest :| oldest in ids;
    var left := ids - {oldest};
    while left != {}
      invariant left <= ids && oldest in ids && oldest !in left
      invariant forall id :: id in ids && id !in left && id != oldest ==> Older(rows, oldest, id)
      decreases left
    {
      var id :| id in left;
      left := left - {id};
      OlderIsOrder(rows, oldest, id, id);
      if Older(rows, id, oldest) {
        forall other | other in ids && other !in left && other != id
          ensures Older(rows, id, other)
        {
          OlderIsOrder(rows, id, oldest, other);
        }
        oldest := id;
      }
    }
  }

  const DEFAULT_BATCH := 10

  /** The number of rows a pass asks for: the worker and the table each replace a size they do not
      accept. */
  function Limit(batch: int): (n: nat)
    ensures 1 <= n <= 100
    ensures n == if 1 <= batch <= 100 then batch else 10
  {
    var asked := if batch <= 0 then DEFAULT_BATCH else batch;
    if asked <= 0 || asked > 100 then 10 else asked
  }

  /** How a claim ends: not run, run with its reply lost, or run and answered. */
  datatype ClaimFate = NotRun | Lost | Answered

  /** An answer comes in any order. */
  ghost predicate Shuffles(returned: seq<string> -> seq<string>) {
    forall ids :: multiset(returned(ids)) == multiset(ids)
  }

  /** The claim query's order: older first, then by id. */
  predicate Older(rows: map<string, Row>, x: string, y: string)
    requires x in rows && y in rows
  {
    var s, t := rows[x].command.createdAt, rows[y].command.createdAt;
    s < t || (s == t && Less(x, y))
  }

  /** The queued rows that no other claim has locked. */
  function Available(rows: map<string, Row>, locked: set<string>): (free: set<string>)
    ensures forall id :: id in free ==> id in rows
  {
    set id | id in rows && rows[id].status == Queued && id !in locked
  }

  /** The claim query: as many available rows as the limit allows, and none is younger than one left out.
      Their order is not promised. */
  predicate ClaimsOldest(rows: map<string, Row>, locked: set<string>, limit: nat, ids: seq<string>) {
    var free := Available(rows, locked);
    && Claimable(rows, ids) && (forall i :: 0 <= i < |ids| ==> ids[i] in free)
    && |ids| == (if limit < |free| then limit else |free|)
    && forall i, id :: 0 <= i < |ids| && id in free && id !in ids ==>
         && rows[ids[i]].command.createdAt <= rows[id].command.createdAt
         && (rows[ids[i]].command.createdAt == rows[id].command.createdAt ==> Less(ids[i], id))
  }

  lemma DistinctAfterShuffle(a: seq<string>, b: seq<string>)
    requires multiset(a) == multiset(b) && forall i, j :: 0 <= i < j < |a| ==> a[i] != a[j]
    ensures |a| == |b| && forall i, j :: 0 <= i < j < |b| ==> b[i] != b[j]
    ensures forall id :: id in a <==> id in b
  {
    assert |multiset(a)| == |a| && |multiset(b)| == |b|;
    forall id
      ensures id in a <==> id in b
    {
      assert id in a <==> id in multiset(a);
      assert id in b <==> id in multiset(b);
    }
    forall i, j | 0 <= i < j < |b|
      ensures b[i] != b[j]
    {
      DistinctCount(a, b[i]);
      var rest := b[..j] + b[j + 1..];
      assert b == b[..j] + [b[j]] + b[j + 1..];
      assert multiset(b) == multiset(rest) + multiset{b[j]};
      assert rest[i] == b[i] && b[i] in multiset(rest);
    }
  }

  /** The order of the answer does not matter to what a claim is. */
  lemma ShuffledClaim(rows: map<string, Row>, locked: set<string>, limit: nat, a: seq<string>, b: seq<string>)
    requires ClaimsOldest(rows, locked, limit, a) && multiset(a) == multiset(b)
    ensures ClaimsOldest(rows, locked, limit, b) && Claimed(rows, a) == Claimed(rows, b)
  {
    hide Older;
    DistinctAfterShuffle(a, b);
    assert forall i :: 0 <= i < |b| ==> b[i] in b && b[i] in a;
    forall i, id | 0 <= i < |b| && id in Available(rows, locked) && id !in b
      ensures exists k :: 0 <= k < |a| && a[k] == b[i] && id !in a
    {
      assert b[i] in a;
    }
  }

  datatype Summary = Summary(claimed: nat, completed: nat, failed: nat, cancelled: nat)

  /** How many of the commands end with the given status. */
  function Count(cs: seq<Command>, succeeds: Command -> bool, status: Status): nat {
    if cs == [] then 0
    else
      var last := cs[|cs| - 1];
      Count(cs[..|cs| - 1], succeeds, status) + if Outcome(last, succeeds(last)).status == status then 1 else 0
  }

  /** The ids of the commands that reach the trading manager, in order. */
  function ExecutedOf(cs: seq<Command>): seq<string> {
    if cs == [] then []
    else ExecutedOf(cs[..|cs| - 1]) + if Executes(cs[|cs| - 1]) then [cs[|cs| - 1].id] else []
  }

  /** `steps` lead from `s` to `t`. */
  ghost predicate IsPath(s: State, steps: seq<Step>, t: State)
    decreases |steps|
  {
    if steps == [] then s == t
    else Enabled(s, steps[0]) && IsPath(Next(s, steps[0]), steps[1..], t)
  }

  lemma {:induction false} PathOneMore(s: State, steps: seq<Step>, t: State, step: Step)
    requires IsPath(s, steps, t) && Enabled(t, step)
    ensures IsPath(s, steps + [step], Next(t, step))
    decreases |steps|
  {
    hide Enabled, Next;
    if steps != [] {
      PathOneMore(Next(s, steps[0]), steps[1..], t, step);
      assert (steps + [step])[1..] == steps[1..] + [step];
    }
  }

  /** Carries out one claimed command; `succeeds` is how the manager answers if it is asked, and
      `delivered` whether the status write reaches the table. */
  method ProcessCommand(table: Table, c: Command, succeeds: bool, delivered: bool) returns (status: Status, asked: bool)
    modifies table
    ensures table.rows == if delivered then Landed(old(table.rows), Outcome(c, succeeds)) else old(table.rows)
    ensures status == Outcome(c, succeeds).status && (asked <==> Executes(c))
    ensures asked <==> c.action == "approve" && c.target == "decision" && c.decision.Some?
    ensures status == if c.action == "reject" then Cancelled else if asked && succeeds then Completed else Failed
    ensures delivered && Trim(c.id) in old(table.rows) ==>
      && Trim(c.id) in table.rows && table.rows[Trim(c.id)].status == status
      && (table.rows[Trim(c.id)].submitted <==> status == Completed && IsTradeAction(c.decision.value.action))
  {
    hide Trim, IsTradeAction;
    asked := false;
    var submitted := false;
    if c.action == "reject" {
      status := Cancelled;
    } else if c.target != "decision" || c.action != "approve" {
      status := Failed;
    } else if c.decision.None? {
      status := Failed;
    } else {
      asked := true;
      if !succeeds {
        status := Failed;
      } else {
        status, submitted := Completed, IsTradeAction(c.decision.value.action);
      }
    }
    if delivered {
      table.UpdateStatus(c.id, status, submitted);
    }
  }

  /** The protocol's steps for one command: decide it, then let its status write land or be lost. */
  lemma PathOfCommand(s: State, steps: seq<Step>, t: State, worker: int, succeeds: bool, delivered: bool)
    returns (t': State, steps': seq<Step>)
    requires IsPath(s, steps, t) && Hand(t, worker) != []
    ensures IsPath(s, steps', t')
    ensures var c := Hand(t, worker)[0];
      && t'.rows == (if delivered then Landed(t.rows, Outcome(c, succeeds)) else t.rows)
      && Hand(t', worker) == Hand(t, worker)[1..] && t'.writes == t.writes
      && t'.executed == t.executed + if Executes(c) then [c.id] else []
  {
    hide Outcome, Executes, Landed, IsPath;
    var first := Decide(worker, succeeds);
    var mid := Next(t, first);
    var second := if delivered then Land(|t.writes|) else Lose(|t.writes|);
    assert Without(mid.writes, |t.writes|) == t.writes;
    t' := Next(mid, second);
    PathOneMore(s, steps, t, first);
    PathOneMore(s, steps + [first], mid, second);
    steps' := steps + [first] + [second];
  }

  /** The summary of the first `n` commands. */
  ghost predicate Summarizes(result: Summary, cs: seq<Command>, n: nat, succeeds: Command -> bool)
    requires n <= |cs|
  {
    && result.claimed == |cs| && result.completed == Count(cs[..n], succeeds, Completed)
    && result.failed == Count(cs[..n], succeeds, Failed) && result.cancelled == Count(cs[..n], succeeds, Cancelled)
    && result.completed + result.failed + result.cancelled == n
  }

  function Counted(result: Summary, status: Status): Summary {
    match status
    case Completed => result.(completed := result.completed + 1)
    case Cancelled => result.(cancelled := result.cancelled + 1)
    case _ => result.(failed := result.failed + 1)
  }

  lemma CountOneMore(cs: seq<Command>, i: nat, succeeds: Command -> bool, status: Status)
    requires i < |cs|
    ensures Count(cs[..i + 1], succeeds, status)
            == Count(cs[..i], succeeds, status) + if Outcome(cs[i], succeeds(cs[i])).status == status then 1 else 0
  {
    hide Outcome;
    assert cs[..i + 1][..i] == cs[..i];
  }

  lemma OutcomeIsFinal(c: Command, succeeds: bool)
    ensures IsFinal(Outcome(c, succeeds).status)
  {
    hide IsTradeAction;
  }

  lemma SummarizesOneMore(result: Summary, cs: seq<Command>, i: nat, succeeds: Command -> bool)
    requires i < |cs| && Summarizes(result, cs, i, succeeds)
    ensures Summarizes(Counted(result, Outcome(cs[i], succeeds(cs[i])).status), cs, i + 1, succeeds)
  {
    hide Outcome, Count;
    CountOneMore(cs, i, succeeds, Completed);
    CountOneMore(cs, i, succeeds, Failed);
    CountOneMore(cs, i, succeeds, Cancelled);
    OutcomeIsFinal(cs[i], succeeds(cs[i]));
  }

  lemma ExecutedOneMore(cs: seq<Command>, i: nat)
    requires i < |cs|
    ensures ExecutedOf(cs[..i + 1]) == ExecutedOf(cs[..i]) + if Executes(cs[i]) then [cs[i].id] else []
  {
    hide Executes;
    assert cs[..i + 1][..i] == cs[..i];
  }

  lemma RestOf<T>(s: seq<T>, i: nat)
    requires i < |s|
    ensures s[i..][0] == s[i] && s[i..][1..] == s[i + 1..]
  {
  }

  /** Carries out the commands in a worker's hand, one after the other. */
  method ProcessAll(table: Table, commands: seq<Command>, succeeds: Command -> bool, delivered: Command -> bool,
                    worker: int, ghost s: State, ghost before: seq<Step>, ghost claimed: State)
    returns (result: Summary, ghost t: State, ghost steps: seq<Step>)
    requires IsPath(s, before, claimed) && claimed.rows == table.rows && Hand(claimed, worker) == commands
    modifies table
    ensures IsPath(s, steps, t) && t.rows == table.rows && Hand(t, worker) == [] && t.writes == claimed.writes
    ensures result == Summary(|commands|, Count(commands, succeeds, Completed), Count(commands, succeeds, Failed),
                              Count(commands, succeeds, Cancelled))
    ensures result.claimed == result.completed + result.failed + result.cancelled
    ensures t.executed == claimed.executed + ExecutedOf(commands)
  {
    hide Trim, Landed, Outcome, Executes, IsPath, Next, Enabled, Count, ExecutedOf, Summarizes;
    result, t, steps := Summary(|commands|, 0, 0, 0), claimed, before;
    NothingCounted(commands, succeeds);
    for i := 0 to |commands|
      invariant IsPath(s, steps, t) && t.rows == table.rows && Hand(t, worker) == commands[i..]
      invariant t.writes == claimed.writes && t.executed == claimed.executed + ExecutedOf(commands[..i])
      invariant Summarizes(result, commands, i, succeeds)
    {
      var c := commands[i];
      RestOf(commands, i);
      ExecutedOneMore(commands, i);
      SummarizesOneMore(result, commands, i, succeeds);
      var status, _ := ProcessCommand(table, c, succeeds(c), delivered(c));
      t, steps := PathOfCommand(s, steps, t, worker, succeeds(c), delivered(c));
      if status == Completed {
        result := result.(completed := result.completed + 1);
      } else if status == Cancelled {
        result := result.(cancelled := result.cancelled + 1);
      } else {
        result := result.(failed := result.failed + 1);
      }
    }
    AllCounted(result, commands, succeeds);
    assert commands[..|commands|] == commands;
  }

  lemma AllCounted(result: Summary, cs: seq<Command>, succeeds: Command -> bool)
    requires Summarizes(result, cs, |cs|, succeeds)
    ensures result == Summary(|cs|, Count(cs, succeeds, Completed), Count(cs, succeeds, Failed),
                              Count(cs, succeeds, Cancelled))
    ensures result.claimed == result.completed + result.failed + result.cancelled
  {
    hide Count;
    assert cs[..|cs|] == cs;
  }

  lemma NothingCounted(cs: seq<Command>, succeeds: Command -> bool)
    ensures Summarizes(Summary(|cs|, 0, 0, 0), cs, 0, succeeds)
    ensures ExecutedOf(cs[..0]) == []
  {
  }

  /** The claim of a pass: the oldest available rows, returned in any order, or nothing. */
  method ClaimBatch(table: Table, batch: int, fate: ClaimFate, locked: set<string>,
                    returned: seq<string> -> seq<string>, worker: int, ghost s: State)
    returns (ids: seq<string>, commands: seq<Command>, ghost t: State, ghost steps: seq<Step>)
    requires s.rows == table.rows && Hand(s, worker) == [] && Shuffles(returned)
    modifies table
    ensures IsPath(s, steps, t) && t.rows == table.rows && t.writes == s.writes && t.executed == s.executed
    ensures fate.NotRun? ==> ids == [] && table.rows == old(table.rows)
    ensures !fate.NotRun? ==> ClaimsOldest(s.rows, locked, Limit(batch), ids) && table.rows == Claimed(s.rows, ids)
    ensures |ids| <= Limit(batch) && Claimable(s.rows, ids) && commands == CommandsOf(s.rows, ids)
    ensures Hand(t, worker) == if fate.Answered? then commands else []
  {
    hide Trim, IsPath, Next, Enabled, Claimed, Older, Limit;
    ids, commands, t, steps := [], [], s, [];
    PathStarts(s);
    if fate.NotRun? {
      return;
    }
    var rows := table.rows;
    var claimed := table.ClaimQueued(Limit(batch), locked);
    ids := returned(claimed);
    ShuffledClaim(rows, locked, Limit(batch), claimed, ids);
    commands := CommandsOf(rows, ids);
    ghost var step := Claim(worker, ids, fate.Answered?);
    ClaimStep(s, worker, ids, fate.Answered?);
    PathOneMore(s, steps, t, step);
    t, steps := Next(t, step), steps + [step];
  }

  /** One pass of a worker. It is a path of the protocol from any state with these rows in which the
      worker is idle; it claims the oldest available commands, and counts every one once, under its own
      outcome. */
  method ProcessOnce(table: Table, batch: int, fate: ClaimFate, locked: set<string>,
                     returned: seq<string> -> seq<string>, succeeds: Command -> bool, delivered: Command -> bool,
                     worker: int, ghost s: State)
    returns (ok: bool, result: Summary, ids: seq<string>, ghost t: State, ghost steps: seq<Step>)
    requires s.rows == table.rows && Hand(s, worker) == [] && Shuffles(returned)
    modifies table
    ensures IsPath(s, steps, t) && t.rows == table.rows && Hand(t, worker) == [] && t.writes == s.writes
    ensures ok <==> fate.Answered?
    ensures !ok ==> result == Summary(0, 0, 0, 0) && t.executed == s.executed
    ensures ok ==> ClaimsOldest(s.rows, locked, Limit(batch), ids)
    ensures ok ==>
      var cs := CommandsOf(s.rows, ids);
      && result == Summary(|ids|, Count(cs, succeeds, Completed), Count(cs, succeeds, Failed),
                           Count(cs, succeeds, Cancelled))
      && result.claimed == result.completed + result.failed + result.cancelled <= Limit(batch)
      && (result.claimed < Limit(batch) ==> forall id :: id in Available(s.rows, locked) ==> id in ids)
      && t.executed == s.executed + ExecutedOf(cs)
  {
    hide Trim, IsPath, Next, Enabled, Claimed, Count, ExecutedOf, Older, ClaimsOldest, Limit, Available;
    var commands;
    ids, commands, t, steps := ClaimBatch(table, batch, fate, locked, returned, worker, s);
    if !fate.Answered? {
      return false, Summary(0, 0, 0, 0), ids, t, steps;
    }
    AllClaimed(s.rows, locked, Limit(batch), ids);
    result, t, steps := ProcessAll(table, commands, succeeds, delivered, worker, s, steps, t);
    ok := true;
  }

  /** A claim below the limit leaves no available row behind. */
  lemma AllClaimed(rows: map<string, Row>, locked: set<string>, limit: nat, ids: seq<string>)
    requires ClaimsOldest(rows, locked, limit, ids)
    ensures |ids| <= limit
    ensures |ids| < limit ==> forall id :: id in Available(rows, locked) ==> id in ids
  {
    hide Older;
    var free, taken := Available(rows, locked), set i | 0 <= i < |ids| :: ids[i];
    assert taken <= free;
    DistinctSize(ids);
    if |ids| < limit && taken != free {
      SmallerSet(taken, free);
    }
  }

  lemma {:induction false} DistinctSize(ids: seq<string>)
    requires forall i, j :: 0 <= i < j < |ids| ==> ids[i] != ids[j]
    ensures |set i | 0 <= i < |ids| :: ids[i]| == |ids|
  {
    if ids != [] {
      var rest := ids[..|ids| - 1];
      DistinctSize(rest);
      assert (set i | 0 <= i < |ids| :: ids[i]) == (set i | 0 <= i < |rest| :: rest[i]) + {ids[|ids| - 1]};
    }
  }

  lemma SmallerSet(a: set<string>, b: set<string>)
    requires a <= b && a != b
    ensures |a| < |b|
  {
    var x :| x in b && x !in a;
    assert |a + (b - a)| == |a| + |b - a| && a + (b - a) == b;
  }

  lemma PathStarts(s: State)
    ensures IsPath(s, [], s)
  {
  }

  lemma ClaimStep(s: State, worker: int, ids: seq<string>, replied: bool)
    requires Hand(s, worker) == [] && Claimable(s.rows, ids)
    ensures Enabled(s, Claim(worker, ids, replied))
    ensures var t := Next(s, Claim(worker, ids, replied));
      && t.rows == Claimed(s.rows, ids) && t.writes == s.writes && t.executed == s.executed
      && Hand(t, worker) == if replied then CommandsOf(s.rows, ids) else []
  {
  }
}
