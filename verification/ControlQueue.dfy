/**
 The in-memory command queue: a list, an index by id, and two maps that tie an idempotency index to
 the live command it belongs to. The class works on the four in place; the functions give the same
 operations on values, and the laws are stated about those.
 */
module ControlQueue {
  import opened Clock
  import opened Options
  import opened Text

  datatype Request = Request(
    target: string, decisionId: string, orderId: string, traderId: string, action: string, requestedBy: string,
    reason: string, key: string, correlationId: string, now: Time)

  datatype Command = Command(id: string, request: Request)

  function Normalized(r: Request): Request {
    Request(ToLower(Trim(r.target)), Trim(r.decisionId), Trim(r.orderId), Trim(r.traderId), ToLower(Trim(r.action)),
            Trim(r.requestedBy), Trim(r.reason), Trim(r.key), Trim(r.correlationId), r.now)
  }

  /** What a new command takes from its request: everything trimmed, target and action in lower case, and
      its own id for a correlation id that was left out. */
  predicate IsFrom(c: Command, r: Request) {
    var q := c.request;
    && q.target == ToLower(Trim(r.target)) && q.action == ToLower(Trim(r.action))
    && q.decisionId == Trim(r.decisionId) && q.orderId == Trim(r.orderId) && q.traderId == Trim(r.traderId)
    && q.requestedBy == Trim(r.requestedBy) && q.reason == Trim(r.reason) && q.key == Trim(r.key)
    && q.correlationId == (if Trim(r.correlationId) == "" then c.id else Trim(r.correlationId)) && q.now == r.now
  }

  lemma CommandIsFrom(c: Command, r: Request)
    requires var n := Normalized(r);
      c.request == if n.correlationId == "" then n.(correlationId := c.id) else n
    ensures IsFrom(c, r)
  {
    hide Trim, ToLower;
  }

  function TargetId(r: Request): string {
    if r.target == "order" then r.orderId else r.decisionId
  }

  /* The idempotency index. */

  const NUL: char := '\0'

  function Join(parts: seq<string>): string {
    if parts == [] then "" else if |parts| == 1 then parts[0] else parts[0] + [NUL] + Join(parts[1..])
  }

  /** A request without a key has no index. */
  function IndexOf(r: Request): string {
    if r.key == "" then "" else Join([r.target, TargetId(r), r.action, r.key])
  }

  predicate NulFree(s: string) {
    NUL !in s
  }

  lemma FirstPartUnique(a: string, b: string, x: string, y: string)
    requires NulFree(a) && NulFree(b) && a + [NUL] + x == b + [NUL] + y
    ensures a == b && x == y
  {
    var s, t := a + [NUL] + x, b + [NUL] + y;
    assert s[|a|] == NUL && t[|b|] == NUL;
    assert a == s[..|a|] && b == t[..|b|];
    assert x == s[|a| + 1..] && y == t[|b| + 1..];
  }

  /** Joining with NUL loses nothing about parts that contain none. */
  lemma {:induction false} JoinInjective(a: seq<string>, b: seq<string>)
    requires |a| == |b| && (forall i :: 0 <= i < |a| ==> NulFree(a[i]) && NulFree(b[i])) && Join(a) == Join(b)
    ensures a == b
  {
    if |a| > 1 {
      FirstPartUnique(a[0], b[0], Join(a[1..]), Join(b[1..]));
      JoinInjective(a[1..], b[1..]);
      assert a == [a[0]] + a[1..] && b == [b[0]] + b[1..];
    }
  }

  /** The number of NULs in a text, and in all parts. */
  function Nuls(s: string): nat {
    if s == [] then 0 else (if s[0] == NUL then 1 else 0) + Nuls(s[1..])
  }

  function NulsIn(parts: seq<string>): nat {
    if parts == [] then 0 else Nuls(parts[0]) + NulsIn(parts[1..])
  }

  lemma {:induction false} NulsConcat(a: string, b: string)
    ensures Nuls(a + b) == Nuls(a) + Nuls(b)
  {
    if a == [] {
      assert a + b == b;
    } else {
      assert (a + b)[1..] == a[1..] + b;
      NulsConcat(a[1..], b);
    }
  }

  lemma {:induction false} NulFreeIff(s: string)
    ensures NulFree(s) <==> Nuls(s) == 0
  {
    if s != [] {
      NulFreeIff(s[1..]);
      assert s == [s[0]] + s[1..];
    }
  }

  predicate AllNulFree(parts: seq<string>) {
    forall i :: 0 <= i < |parts| ==> NulFree(parts[i])
  }

  lemma {:induction false} AllNulFreeIff(parts: seq<string>)
    ensures AllNulFree(parts) <==> NulsIn(parts) == 0
  {
    if parts != [] {
      NulFreeIff(parts[0]);
      AllNulFreeIff(parts[1..]);
      assert forall i :: 1 <= i < |parts| ==> parts[i] == parts[1..][i - 1];
    }
  }

  lemma {:induction false} NulsOfJoin(parts: seq<string>)
    requires parts != []
    ensures Nuls(Join(parts)) == NulsIn(parts) + |parts| - 1
  {
    if |parts| > 1 {
      NulsOfJoin(parts[1..]);
      NulsConcat(parts[0], [NUL] + Join(parts[1..]));
      NulsConcat([NUL], Join(parts[1..]));
      assert Join(parts) == parts[0] + ([NUL] + Join(parts[1..]));
      assert Nuls([NUL]) == 1;
    } else {
      assert parts[1..] == [];
    }
  }

  lemma JoinHead(u: string, v: string, rest: seq<string>)
    ensures Join([u + [NUL] + v] + rest) == u + [NUL] + Join([v] + rest)
    ensures Join([u, v] + rest) == u + [NUL] + Join([v] + rest)
  {
  }

  /** A NUL inside one part may as well be the one between it and the next. */
  lemma {:induction false} MoveNul(before: seq<string>, x: string, y: string, z: string, rest: seq<string>)
    ensures Join(before + [x + [NUL] + y, z] + rest) == Join(before + [x, y + [NUL] + z] + rest)
  {
    if before == [] {
      assert before + [x + [NUL] + y, z] + rest == [x + [NUL] + y] + ([z] + rest);
      assert before + [x, y + [NUL] + z] + rest == [x, y + [NUL] + z] + rest;
      JoinHead(x, y, [z] + rest);
      JoinHead(x, y + [NUL] + z, rest);
      JoinHead(y, z, rest);
      assert [y] + ([z] + rest) == [y, z] + rest;
    } else {
      MoveNul(before[1..], x, y, z, rest);
      assert (before + [x + [NUL] + y, z] + rest)[1..] == before[1..] + [x + [NUL] + y, z] + rest;
      assert (before + [x, y + [NUL] + z] + rest)[1..] == before[1..] + [x, y + [NUL] + z] + rest;
    }
  }

  lemma SplitAtNul(s: string) returns (x: string, y: string)
    requires !NulFree(s)
    ensures s == x + [NUL] + y
  {
    var i :| 0 <= i < |s| && s[i] == NUL;
    x, y := s[..i], s[i + 1..];
  }

  /** Parts with the same joined text as these, found by moving a NUL over a boundary. */
  lemma OtherParts(a: seq<string>, i: nat) returns (b: seq<string>)
    requires |a| >= 2 && i < |a| && !NulFree(a[i])
    ensures |b| == |a| && b != a && Join(b) == Join(a)
  {
    hide Join;
    var x, y := SplitAtNul(a[i]);
    if i < |a| - 1 {
      b := a[..i] + [x, y + [NUL] + a[i + 1]] + a[i + 2..];
      MoveNul(a[..i], x, y, a[i + 1], a[i + 2..]);
      assert a == a[..i] + [x + [NUL] + y, a[i + 1]] + a[i + 2..];
      assert b[i] == x && |x| < |a[i]|;
    } else {
      b := a[..i - 1] + [a[i - 1] + [NUL] + x, y] + [];
      MoveNul(a[..i - 1], a[i - 1], x, y, []);
      assert a == a[..i - 1] + [a[i - 1], x + [NUL] + y] + [];
      assert b[i] == y && |y| < |a[i]|;
    }
  }

  /** Other parts share the joined text of given ones exactly when these contain a NUL. */
  lemma JoinSharedIff(a: seq<string>)
    requires |a| >= 2
    ensures (exists b :: |b| == |a| && b != a && Join(b) == Join(a)) <==> !AllNulFree(a)
  {
    hide Join, NulFree;
    if AllNulFree(a) {
      forall b | |b| == |a| && Join(b) == Join(a)
        ensures b == a
      {
        NulsOfJoin(a);
        NulsOfJoin(b);
        AllNulFreeIff(a);
        AllNulFreeIff(b);
        JoinInjective(a, b);
      }
    } else {
      var i :| 0 <= i < |a| && !NulFree(a[i]);
      var b := OtherParts(a, i);
    }
  }

  predicate NulFreeRequest(r: Request) {
    NulFree(r.target) && NulFree(TargetId(r)) && NulFree(r.action) && NulFree(r.key)
  }

  /** The same target, order or decision, action and key. */
  predicate SamePurpose(r: Request, q: Request) {
    && r.target == q.target && r.action == q.action && r.key == q.key
    && (r.target == "order" ==> r.orderId == q.orderId)
    && (r.target != "order" ==> r.decisionId == q.decisionId)
  }

  /** Two keyed requests share an index exactly when they have the same target, target id, action and
      key, provided these contain no NUL. */
  lemma IndexSameIff(r: Request, q: Request)
    requires NulFreeRequest(r) && NulFreeRequest(q) && r.key != "" && q.key != ""
    ensures IndexOf(r) == IndexOf(q) <==> SamePurpose(r, q)
  {
    var a, b := [r.target, TargetId(r), r.action, r.key], [q.target, TargetId(q), q.action, q.key];
    if Join(a) == Join(b) {
      JoinInjective(a, b);
      assert a[0] == b[0] && a[1] == b[1] && a[2] == b[2] && a[3] == b[3];
    }
  }

  lemma IndexNotEmpty(r: Request)
    ensures IndexOf(r) == "" <==> r.key == ""
  {
  }

  /* The queue on values. */

  /** How ids are made: never empty or padded, and different for different sequence numbers. */
  ghost predicate GoodIds(makeId: (Request, nat) -> string) {
    && (forall r, n :: makeId(r, n) != "" && IsTrimmed(makeId(r, n)))
    && (forall r, n, q, m :: makeId(r, n) == makeId(q, m) ==> n == m)
  }

  /** Such ids exist: a run of letters as long as the number. */
  lemma GoodIdsExist()
    ensures GoodIds((r: Request, n: nat) => seq(n + 1, _ => 'c'))
  {
  }

  datatype State = State(
    number: nat, commands: seq<Command>, byId: map<string, Command>,
    idOfIndex: map<string, string>, indexOfId: map<string, string>)

  /** The live command that a request with this index would get again. */
  function Existing(s: State, index: string): Option<Command> {
    if index != "" && index in s.idOfIndex && s.idOfIndex[index] != "" && s.idOfIndex[index] in s.byId
    then Some(s.byId[s.idOfIndex[index]]) else None
  }

  function NewCommand(s: State, r: Request, makeId: (Request, nat) -> string): Command {
    var id := makeId(r, s.number + 1);
    Command(id, if r.correlationId == "" then r.(correlationId := id) else r)
  }

  function Added(s: State, c: Command, index: string): State {
    State(s.number + 1, s.commands + [c], s.byId[c.id := c],
          if index != "" then s.idOfIndex[index := c.id] else s.idOfIndex,
          if index != "" then s.indexOfId[c.id := index] else s.indexOfId)
  }

  function Enqueued(s: State, request: Request, makeId: (Request, nat) -> string): (State, Command, bool) {
    var r := Normalized(request);
    var existing := Existing(s, IndexOf(r));
    if existing.Some? then (s, existing.value, true)
    else
      var c := NewCommand(s, r, makeId);
      (Added(s, c, IndexOf(r)), c, false)
  }

  function WithoutFirst(commands: seq<Command>, id: string): seq<Command> {
    if commands == [] then []
    else if commands[0].id == id then commands[1..]
    else [commands[0]] + WithoutFirst(commands[1..], id)
  }

  function Removed(s: State, padded: string): State {
    var id := Trim(padded);
    if id == "" then s
    else
      var index := if id in s.indexOfId then s.indexOfId[id] else "";
      State(s.number, WithoutFirst(s.commands, id), s.byId - {id},
            if index != "" then s.idOfIndex - {index} else s.idOfIndex,
            if index != "" then s.indexOfId - {id} else s.indexOfId)
  }

  /** An id given out for one of the first `n` numbers. */
  ghost predicate Issued(makeId: (Request, nat) -> string, id: string, n: nat) {
    exists r, k :: 1 <= k <= n && makeId(r, k) == id
  }

  /** The list and the index by id hold the same commands. */
  ghost predicate ListMatches(s: State) {
    && (forall i :: 0 <= i < |s.commands| ==> s.commands[i].id in s.byId && s.byId[s.commands[i].id] == s.commands[i])
    && (forall i, j :: 0 <= i < j < |s.commands| ==> s.commands[i].id != s.commands[j].id)
    && (forall id :: id in s.byId ==> s.byId[id] in s.commands && s.byId[id].id == id)
  }

  /** The two maps are inverse to each other and pair every live keyed command with its own index. */
  ghost predicate MapsMatch(s: State) {
    && (forall index :: index in s.idOfIndex ==>
          s.idOfIndex[index] in s.indexOfId && s.indexOfId[s.idOfIndex[index]] == index)
    && (forall id :: id in s.indexOfId ==> s.indexOfId[id] in s.idOfIndex && s.idOfIndex[s.indexOfId[id]] == id)
    && (forall id :: id in s.indexOfId <==> id in s.byId && IndexOf(s.byId[id].request) != "")
    && (forall id :: id in s.indexOfId ==> s.indexOfId[id] == IndexOf(s.byId[id].request))
  }

  ghost predicate Sound(s: State, makeId: (Request, nat) -> string) {
    && ListMatches(s) && MapsMatch(s)
    && (forall id :: id in s.byId ==> id != "" && IsTrimmed(id) && Issued(makeId, id, s.number))
  }

  const Empty := State(0, [], map[], map[], map[])

  /** While the queue is sound, an index leads to the one live command that has it. */
  lemma ExistingIff(s: State, makeId: (Request, nat) -> string, index: string, id: string)
    requires Sound(s, makeId) && id in s.byId && index != ""
    ensures Existing(s, index) == Some(s.byId[id]) <==> IndexOf(s.byId[id].request) == index
  {
  }

  lemma NoneExists(s: State, makeId: (Request, nat) -> string, index: string)
    requires Sound(s, makeId) && index != "" && Existing(s, index).None?
    ensures index !in s.idOfIndex && forall id :: id in s.byId ==> IndexOf(s.byId[id].request) != index
  {
  }

  lemma NewIdIsUnused(s: State, r: Request, makeId: (Request, nat) -> string)
    requires Sound(s, makeId) && GoodIds(makeId)
    ensures NewCommand(s, r, makeId).id !in s.byId
    ensures forall id :: Issued(makeId, id, s.number) ==> Issued(makeId, id, s.number + 1)
    ensures Issued(makeId, NewCommand(s, r, makeId).id, s.number + 1)
  {
  }

  lemma IndexIgnoresCorrelation(s: State, r: Request, makeId: (Request, nat) -> string)
    ensures IndexOf(NewCommand(s, r, makeId).request) == IndexOf(r)
  {
  }

  lemma AddedListMatches(s: State, c: Command, index: string)
    requires ListMatches(s) && c.id !in s.byId
    ensures ListMatches(Added(s, c, index))
  {
  }

  lemma AddedMapsMatch(s: State, c: Command, index: string)
    requires MapsMatch(s) && c.id !in s.byId && index == IndexOf(c.request) && (index != "" ==> index !in s.idOfIndex)
    ensures MapsMatch(Added(s, c, index))
  {
    hide IndexOf;
  }

  lemma EnqueuedIsSound(s: State, request: Request, makeId: (Request, nat) -> string)
    requires Sound(s, makeId) && GoodIds(makeId)
    ensures Sound(Enqueued(s, request, makeId).0, makeId)
  {
    hide IndexOf, Issued, Normalized, ListMatches, MapsMatch;
    var r := Normalized(request);
    var index := IndexOf(r);
    if Existing(s, index).None? {
      var c := NewCommand(s, r, makeId);
      if index != "" {
        NoneExists(s, makeId, index);
      }
      NewIdIsUnused(s, r, makeId);
      IndexIgnoresCorrelation(s, r, makeId);
      AddedListMatches(s, c, index);
      AddedMapsMatch(s, c, index);
    }
  }

  lemma {:induction false} WithoutFirstIs(commands: seq<Command>, id: string)
    requires forall i, j :: 0 <= i < j < |commands| ==> commands[i].id != commands[j].id
    ensures var rest := WithoutFirst(commands, id);
      && (forall c :: c in rest <==> c in commands && c.id != id)
      && (forall i, j :: 0 <= i < j < |rest| ==> rest[i].id != rest[j].id)
  {
    if commands != [] {
      var rest := commands[1..];
      WithoutFirstIs(rest, id);
      forall c
        ensures c in WithoutFirst(commands, id) <==> c in commands && c.id != id
      {
        assert c in commands <==> c == commands[0] || c in rest;
      }
      forall c | c in WithoutFirst(rest, id)
        ensures c.id != commands[0].id
      {
        assert c in rest;
      }
    }
  }

  lemma RemovedListMatches(s: State, padded: string)
    requires ListMatches(s)
    ensures ListMatches(Removed(s, padded))
  {
    hide Trim;
    WithoutFirstIs(s.commands, Trim(padded));
    hide WithoutFirst;
    var t := Removed(s, padded);
    forall i | 0 <= i < |t.commands|
      ensures t.commands[i].id in t.byId && t.byId[t.commands[i].id] == t.commands[i]
    {
      assert t.commands[i] in t.commands;
      assert t.commands[i] in s.commands;
    }
  }

  lemma RemovedMapsMatch(s: State, padded: string)
    requires MapsMatch(s)
    ensures MapsMatch(Removed(s, padded))
  {
    hide Trim, IndexOf, WithoutFirst;
  }

  lemma RemovedIsSound(s: State, padded: string, makeId: (Request, nat) -> string)
    requires Sound(s, makeId)
    ensures Sound(Removed(s, padded), makeId)
  {
    hide Trim, IndexOf, WithoutFirst, Issued, ListMatches, MapsMatch;
    RemovedListMatches(s, padded);
    RemovedMapsMatch(s, padded);
  }

  /** At most one live command serves a keyed purpose. */
  lemma OneCommandPerPurpose(s: State, makeId: (Request, nat) -> string, a: string, b: string)
    requires Sound(s, makeId) && a in s.byId && b in s.byId
    requires SamePurpose(s.byId[a].request, s.byId[b].request) && s.byId[a].request.key != ""
    ensures a == b
  {
  }

  /** A request with the index of a live command changes nothing and returns that command. */
  lemma SameIndexIsReused(s: State, first: Request, again: Request, makeId: (Request, nat) -> string)
    requires Sound(s, makeId) && GoodIds(makeId)
    requires IndexOf(Normalized(first)) == IndexOf(Normalized(again)) != ""
    ensures var (t, c, _) := Enqueued(s, first, makeId); Enqueued(t, again, makeId) == (t, c, true)
  {
    EnqueuedIsSound(s, first, makeId);
    hide Issued, Normalized, Join, IndexOf, MapsMatch, ListMatches;
    var (t, c, reused) := Enqueued(s, first, makeId);
    if !reused {
      IndexIgnoresCorrelation(s, Normalized(first), makeId);
      ExistingIff(t, makeId, IndexOf(Normalized(first)), c.id);
    }
  }

  /** So asking again while the command lives changes nothing and returns the same command. */
  lemma ReenqueueIsReused(s: State, first: Request, again: Request, makeId: (Request, nat) -> string)
    requires Sound(s, makeId) && GoodIds(makeId)
    requires SamePurpose(Normalized(first), Normalized(again)) && Normalized(first).key != ""
    ensures var (t, c, _) := Enqueued(s, first, makeId); Enqueued(t, again, makeId) == (t, c, true)
  {
    hide Normalized, Join, Sound, Enqueued;
    IndexNotEmpty(Normalized(first));
    SameIndexIsReused(s, first, again, makeId);
  }

  /** A request about one id, whatever its target. */
  function Plain(target: string, id: string, action: string, key: string): Request {
    Request(target, id, id, "", action, "", "", key, "", ZERO)
  }

  /** A word that normalising leaves alone. */
  predicate IsPlainWord(s: string) {
    s != "" && IsTrimmed(s) && ToLower(s) == s
  }

  /** Two requests of different purpose that the queue takes for the same: the key of the first repeats
      the action behind a NUL, the target id of the second does. For every target, id, action and key,
      the second is answered with the first one's command. */
  lemma NulCollides(makeId: (Request, nat) -> string, target: string, id: string, action: string, key: string)
    requires GoodIds(makeId) && IsPlainWord(target) && IsPlainWord(action)
    requires id != "" && IsTrimmed(id) && key != "" && IsTrimmed(key)
    ensures var first := Plain(target, id, action, action + [NUL] + key);
      var again := Plain(target, id + [NUL] + action, action, key);
      && !SamePurpose(Normalized(first), Normalized(again))
      && var (t, c, reused) := Enqueued(Empty, first, makeId);
      && !reused && SamePurpose(c.request, Normalized(first))
      && Enqueued(t, again, makeId) == (t, c, true)
  {
    hide Sound, GoodIds, Join, Trim, Normalized, ToLower, IsTrimmed, IndexOf, Plain, Enqueued;
    var first := Plain(target, id, action, action + [NUL] + key);
    var again := Plain(target, id + [NUL] + action, action, key);
    PlainIs(target, id, action, action + [NUL] + key);
    PlainIs(target, id + [NUL] + action, action, key);
    PaddedWithNul(id, action);
    PaddedWithNul(action, key);
    PlainIsNormalized(target, id, action, action + [NUL] + key);
    PlainIsNormalized(target, id + [NUL] + action, action, key);
    SameText(target, id, action, key);
    IndexNotEmpty(again);
    FirstIsNew(first, makeId);
    EmptyIsSound(makeId);
    SameIndexIsReused(Empty, first, again, makeId);
  }

  lemma PlainIs(target: string, id: string, action: string, key: string)
    ensures var r := Plain(target, id, action, key);
      && TargetId(r) == id && r.target == target && r.action == action && r.key == key
      && (key != "" ==> IndexOf(r) == Join([target, id, action, key]))
  {
    hide Join;
  }

  lemma PaddedWithNul(a: string, b: string)
    requires IsTrimmed(a) && IsTrimmed(b) && a != "" && b != ""
    ensures IsTrimmed(a + [NUL] + b) && a + [NUL] + b != "" && a + [NUL] + b != a && a + [NUL] + b != b
  {
    assert |a + [NUL] + b| != |a| && |a + [NUL] + b| != |b|;
  }

  lemma FirstIsNew(r: Request, makeId: (Request, nat) -> string)
    requires Normalized(r) == r
    ensures var (t, c, reused) := Enqueued(Empty, r, makeId); !reused && SamePurpose(c.request, r)
  {
    hide Normalized, IndexOf;
  }

  lemma SameText(target: string, id: string, action: string, key: string)
    ensures Join([target, id, action, action + [NUL] + key]) == Join([target, id + [NUL] + action, action, key])
  {
    hide Join;
    MoveNul([target], id, action, action, [key]);
    MoveNul([target, id], action, action, key, []);
    assert [target, id, action, action + [NUL] + key] == [target, id] + [action, action + [NUL] + key] + [];
    assert [target, id] + [action + [NUL] + action, key] + [] == [target] + [id, action + [NUL] + action] + [key];
    assert [target, id + [NUL] + action, action, key] == [target] + [id + [NUL] + action, action] + [key];
  }

  lemma PlainIsNormalized(target: string, id: string, action: string, key: string)
    requires IsPlainWord(target) && IsPlainWord(action) && IsTrimmed(id) && IsTrimmed(key)
    ensures Normalized(Plain(target, id, action, key)) == Plain(target, id, action, key)
  {
  }

  /** A different purpose is never served by somebody else's command. */
  lemma ReusedHasSamePurpose(s: State, request: Request, makeId: (Request, nat) -> string)
    requires Sound(s, makeId) && Enqueued(s, request, makeId).2
    requires NulFreeRequest(Normalized(request)) && NulFreeRequest(Enqueued(s, request, makeId).1.request)
    ensures SamePurpose(Enqueued(s, request, makeId).1.request, Normalized(request))
  {
    var r := Normalized(request);
    var c := Enqueued(s, request, makeId).1;
    IndexNotEmpty(r);
    IndexNotEmpty(c.request);
    hide Issued, Normalized, Join, NulFree;
    ExistingIff(s, makeId, IndexOf(r), c.id);
    IndexSameIff(c.request, r);
  }

  lemma {:induction false} WithoutLast(commands: seq<Command>, c: Command)
    requires forall i :: 0 <= i < |commands| ==> commands[i].id != c.id
    ensures WithoutFirst(commands + [c], c.id) == commands
  {
    if commands != [] {
      assert (commands + [c])[1..] == commands[1..] + [c];
      WithoutLast(commands[1..], c);
    }
  }

  lemma RemoveUndoesAdd(s: State, c: Command, index: string)
    requires c.id !in s.byId && c.id !in s.indexOfId && (index != "" ==> index !in s.idOfIndex)
    requires WithoutFirst(s.commands + [c], c.id) == s.commands && c.id != "" && Trim(c.id) == c.id
    ensures Removed(Added(s, c, index), c.id) == s.(number := s.number + 1)
  {
  }

  lemma ListedIds(s: State, id: string)
    requires ListMatches(s) && MapsMatch(s) && id !in s.byId
    ensures id !in s.indexOfId && forall i :: 0 <= i < |s.commands| ==> s.commands[i].id != id
  {
  }

  /** Removing a command just added restores everything but the sequence number. */
  lemma RemoveUndoesEnqueue(s: State, request: Request, makeId: (Request, nat) -> string)
    requires Sound(s, makeId) && GoodIds(makeId) && !Enqueued(s, request, makeId).2
    ensures var (t, c, _) := Enqueued(s, request, makeId); Removed(t, c.id) == s.(number := s.number + 1)
  {
    hide IndexOf, Issued, Normalized, ListMatches, MapsMatch, WithoutFirst, Added, Removed, Existing;
    var r := Normalized(request);
    var c := NewCommand(s, r, makeId);
    NewIdIsUnused(s, r, makeId);
    ListedIds(s, c.id);
    WithoutLast(s.commands, c);
    if IndexOf(r) != "" {
      NoneExists(s, makeId, IndexOf(r));
    }
    RemoveUndoesAdd(s, c, IndexOf(r));
  }

  /* Runs. */

  datatype Operation = Enqueue(request: Request) | Remove(id: string)

  function After(ops: seq<Operation>, makeId: (Request, nat) -> string): State {
    if ops == [] then Empty
    else
      var s := After(ops[..|ops| - 1], makeId);
      match ops[|ops| - 1] case Enqueue(r) => Enqueued(s, r, makeId).0 case Remove(id) => Removed(s, id)
  }

  lemma {:induction false} RunIsSound(ops: seq<Operation>, makeId: (Request, nat) -> string)
    requires GoodIds(makeId)
    ensures Sound(After(ops, makeId), makeId)
  {
    hide Sound, Enqueued, Removed;
    if ops == [] {
      EmptyIsSound(makeId);
    } else {
      var s := After(ops[..|ops| - 1], makeId);
      RunIsSound(ops[..|ops| - 1], makeId);
      match ops[|ops| - 1]
      case Enqueue(r) => EnqueuedIsSound(s, r, makeId);
      case Remove(id) => RemovedIsSound(s, id, makeId);
    }
  }

  lemma EmptyIsSound(makeId: (Request, nat) -> string)
    ensures Sound(Empty, makeId)
  {
  }

  /* The queue in place. */

  predicate IsFirst(commands: seq<Command>, id: string, i: int) {
    0 <= i < |commands| && commands[i].id == id && forall k :: 0 <= k < i ==> commands[k].id != id
  }

  class Queue {
    const makeId: (Request, nat) -> string
    var number: nat
    var commands: seq<Command>
    var byId: map<string, Command>
    var idOfIndex: map<string, string>
    var indexOfId: map<string, string>

    constructor (makeId: (Request, nat) -> string)
      ensures this.makeId == makeId && Value() == Empty
    {
      this.makeId := makeId;
      number, commands, byId, idOfIndex, indexOfId := 0, [], map[], map[], map[];
    }

    function Value(): State
      reads this
    {
      State(number, commands, byId, idOfIndex, indexOfId)
    }

    method Enqueue(request: Request) returns (command: Command, reused: bool)
      modifies this
      ensures (Value(), command, reused) == Enqueued(old(Value()), request, makeId)
      ensures !reused ==> IsFrom(command, request)
      ensures commands == (if reused then old(commands) else old(commands) + [command])
      ensures reused ==> exists id :: id in byId && byId[id] == command
    {
      hide Normalized, IndexOf, IsFrom;
      ghost var id' := makeId(Normalized(request), number + 1);
      CommandIsFrom(Command(id', if Normalized(request).correlationId == ""
                                 then Normalized(request).(correlationId := id') else Normalized(request)), request);
      var r := Normalized(request);
      var index := IndexOf(r);
      if index != "" && index in idOfIndex && idOfIndex[index] != "" && idOfIndex[index] in byId {
        return byId[idOfIndex[index]], true;
      }
      number := number + 1;
      var id := makeId(r, number);
      if r.correlationId == "" {
        r := r.(correlationId := id);
      }
      command := Command(id, r);
      commands := commands + [command];
      byId := byId[id := command];
      if index != "" {
        idOfIndex := idOfIndex[index := id];
        indexOfId := indexOfId[id := index];
      }
      reused := false;
    }

    method Remove(padded: string)
      modifies this
      ensures Value() == Removed(old(Value()), padded)
      ensures (forall k :: 0 <= k < |old(commands)| ==> old(commands)[k].id != Trim(padded)) ==>
        commands == old(commands)
      ensures forall i :: Trim(padded) != "" && IsFirst(old(commands), Trim(padded), i) ==>
        commands == old(commands)[..i] + old(commands)[i + 1..]
    {
      hide Trim, WithoutFirst;
      var id := Trim(padded);
      if id == "" {
        return;
      }
      byId := byId - {id};
      if id in indexOfId && indexOfId[id] != "" {
        idOfIndex := idOfIndex - {indexOfId[id]};
        indexOfId := indexOfId - {id};
      }
      for i := 0 to |commands|
        invariant forall k :: 0 <= k < i ==> commands[k].id != id
        invariant commands == old(commands) && byId == Removed(old(Value()), padded).byId
        invariant idOfIndex == Removed(old(Value()), padded).idOfIndex
        invariant indexOfId == Removed(old(Value()), padded).indexOfId
        invariant number == old(number)
      {
        if commands[i].id == id {
          FirstAt(commands, id, i);
          commands := commands[..i] + commands[i + 1..];
          assert forall k :: IsFirst(old(commands), id, k) ==> k == i;
          return;
        }
      }
      NoneToRemove(commands, id);
    }

    method Get(padded: string) returns (command: Option<Command>)
      ensures command == if Trim(padded) in byId then Some(byId[Trim(padded)]) else None
      ensures Sound(Value(), makeId) ==>
        match command
        case Some(c) => c in commands && c.id == Trim(padded)
        case None => forall i :: 0 <= i < |commands| ==> commands[i].id != Trim(padded)
    {
      hide Trim, MapsMatch, Issued;
      var id := Trim(padded);
      command := if id in byId then Some(byId[id]) else None;
    }
  }

  lemma {:induction false} FirstAt(commands: seq<Command>, id: string, i: nat)
    requires i < |commands| && commands[i].id == id && forall k :: 0 <= k < i ==> commands[k].id != id
    ensures WithoutFirst(commands, id) == commands[..i] + commands[i + 1..]
  {
    if i > 0 {
      FirstAt(commands[1..], id, i - 1);
    }
  }

  lemma {:induction false} NoneToRemove(commands: seq<Command>, id: string)
    requires forall i :: 0 <= i < |commands| ==> commands[i].id != id
    ensures WithoutFirst(commands, id) == commands
  {
    if commands != [] {
      NoneToRemove(commands[1..], id);
    }
  }
}
