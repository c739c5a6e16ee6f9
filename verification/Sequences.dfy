/** Filters and prefixes of sequences. */
module Sequences {
  function Filter<T(!new)>(s: seq<T>, p: T -> bool): (r: seq<T>)
    ensures |r| <= |s|
  {
    if s == [] then [] else (if p(s[0]) then [s[0]] else []) + Filter(s[1..], p)
  }

  function Take<T>(s: seq<T>, n: nat): seq<T> {
    if n < |s| then s[..n] else s
  }

  predicate Distinct<T(==)>(s: seq<T>) {
    forall i, j :: 0 <= i < j < |s| ==> s[i] != s[j]
  }

  /** The first `k` elements pass the filter. */
  ghost predicate Passes<T(!new)>(s: seq<T>, p: T -> bool, k: nat) {
    forall i :: 0 <= i < k && i < |s| ==> p(s[i])
  }

  lemma {:induction false} FilterMembers<T(!new)>(s: seq<T>, p: T -> bool, e: T)
    ensures e in Filter(s, p) <==> e in s && p(e)
  {
    if s != [] {
      FilterMembers(s[1..], p, e);
      assert e in s <==> e == s[0] || e in s[1..];
    }
  }

  /** An element of a filtered sequence came from no earlier a place. */
  lemma {:induction false} FilterLag<T(!new)>(s: seq<T>, p: T -> bool, i: nat) returns (from: nat)
    requires i < |Filter(s, p)|
    ensures i <= from < |s| && Filter(s, p)[i] == s[from] && p(s[from])
  {
    if p(s[0]) && i == 0 {
      from := 0;
    } else {
      from := FilterLag(s[1..], p, if p(s[0]) then i - 1 else i);
      from := from + 1;
    }
  }

  lemma {:induction false} FilterPrefix<T(!new)>(s: seq<T>, p: T -> bool, k: nat)
    requires k <= |s| && Passes(s, p, k)
    ensures k <= |Filter(s, p)| && Filter(s, p)[..k] == s[..k]
  {
    if k > 0 {
      FilterPrefix(s[1..], p, k - 1);
      assert s[..k] == [s[0]] + s[1..][..k - 1];
    }
  }

  /** Only if nothing was dropped before it is an element still in its place. */
  lemma {:induction false} FilterInPlace<T(!new)>(s: seq<T>, p: T -> bool, i: nat)
    requires Distinct(s) && i < |Filter(s, p)| && Filter(s, p)[i] == s[i]
    ensures Passes(s, p, i + 1)
  {
    if p(s[0]) {
      if i > 0 {
        FilterInPlace(s[1..], p, i - 1);
        forall j | 0 <= j <= i
          ensures p(s[j])
        {
          assert j > 0 ==> p(s[1..][j - 1]);
        }
      }
    } else {
      var from := FilterLag(s[1..], p, i);
      assert false;
    }
  }

  lemma FilterHead<T(!new)>(e: T, s: seq<T>, p: T -> bool)
    ensures Filter([e] + s, p) == (if p(e) then [e] else []) + Filter(s, p)
  {
  }

  lemma Associative<T>(a: seq<T>, b: seq<T>, c: seq<T>)
    ensures (a + b) + c == a + (b + c)
  {
  }

  lemma {:induction false} FilterConcat<T(!new)>(a: seq<T>, b: seq<T>, p: T -> bool)
    ensures Filter(a + b, p) == Filter(a, p) + Filter(b, p)
  {
    if a == [] {
      assert a + b == b;
    } else {
      hide Filter;
      var e, rest := a[0], a[1..];
      FilterConcat(rest, b, p);
      FilterHead(e, rest, p);
      FilterHead(e, rest + b, p);
      assert a == [e] + rest;
      Associative([e], rest, b);
      Associative(if p(e) then [e] else [], Filter(rest, p), Filter(b, p));
    }
  }

  lemma {:induction false} FilterSwap<T(!new)>(s: seq<T>, p: T -> bool, q: T -> bool)
    ensures Filter(Filter(s, p), q) == Filter(Filter(s, q), p)
  {
    if s != [] {
      FilterSwap(s[1..], p, q);
      FilterConcat(if p(s[0]) then [s[0]] else [], Filter(s[1..], p), q);
      FilterConcat(if q(s[0]) then [s[0]] else [], Filter(s[1..], q), p);
    }
  }

  lemma {:induction false} FilterAll<T(!new)>(s: seq<T>, p: T -> bool)
    requires forall i :: 0 <= i < |s| ==> p(s[i])
    ensures Filter(s, p) == s
  {
    if s != [] {
      FilterAll(s[1..], p);
    }
  }

  /** What passes a filter among the first `n` is among the first `n` of the filtered sequence. */
  lemma EarlyStaysEarly<T(!new)>(s: seq<T>, p: T -> bool, i: nat, n: nat)
    requires i < |s| && i < n && p(s[i])
    ensures s[i] in Take(Filter(s, p), n)
  {
    hide Filter;
    var head, tail := s[..i + 1], s[i + 1..];
    assert s == head + tail;
    FilterConcat(head, tail, p);
    assert head[i] == s[i];
    FilterMembers(head, p, s[i]);
    PrefixInTake(Filter(head, p), Filter(tail, p), n, s[i]);
  }

  lemma PrefixInTake<T>(a: seq<T>, b: seq<T>, n: nat, e: T)
    requires e in a && |a| <= n
    ensures e in Take(a + b, n)
  {
  }
}
