/**
 The rewrite of MessagePack bytes before signing: strings in the 16-bit format that fit the 8-bit
 format are put into it. The rewrite scans bytes without parsing; here it is compared with what the
 bytes mean under the MessagePack specification's format table.
 */
module MessagePack {
  import opened Sequences

  type byte = x: int | 0 <= x < 256

  /* Formats. */

  const STR8 := 0xd9
  const STR16 := 0xda

  /** The number of length bytes after the format byte. */
  function LengthWidth(h: byte): nat {
    if h == 0xc4 || h == 0xc7 || h == STR8 then 1
    else if h == 0xc5 || h == 0xc8 || h == STR16 then 2
    else if h == 0xc6 || h == 0xc9 || h == 0xdb then 4
    else 0
  }

  /** The size of a token without the part its length bytes count. */
  function FixedSize(h: byte): (n: nat)
    ensures n >= 1 + LengthWidth(h)
  {
    if 0xa0 <= h < 0xc0 then 1 + (h - 0xa0)                              // fixstr
    else if 0xc7 <= h <= 0xc9 then 2 + LengthWidth(h)                    // ext: a type byte too
    else if LengthWidth(h) > 0 then 1 + LengthWidth(h)
    else if h == 0xca || h == 0xce || h == 0xd2 then 5                   // float32, 32-bit integers
    else if h == 0xcb || h == 0xcf || h == 0xd3 then 9                   // float64, 64-bit integers
    else if h == 0xcc || h == 0xd0 then 2
    else if h == 0xcd || h == 0xd1 then 3
    else if h == 0xd4 then 3 else if h == 0xd5 then 4 else if h == 0xd6 then 6
    else if h == 0xd7 then 10 else if h == 0xd8 then 18                  // fixext
    else if h == 0xdc || h == 0xde then 3                                // array16, map16
    else if h == 0xdd || h == 0xdf then 5                                // array32, map32
    else 1
  }

  predicate IsString(h: byte) {
    0xa0 <= h < 0xc0 || h == STR8 || h == STR16 || h == 0xdb
  }

  /** The format table by the size of what follows the format byte; ext formats have a type byte too. */
  lemma FormatTable(h: byte)
    ensures h <= 0x9f || h >= 0xe0 || h in [0xc0, 0xc2, 0xc3] ==> FixedSize(h) == 1 && LengthWidth(h) == 0
    ensures 0xa0 <= h <= 0xbf ==> FixedSize(h) == 1 + h as int % 32 && LengthWidth(h) == 0
    ensures h in [0xcc, 0xd0] ==> FixedSize(h) == 1 + 1 && LengthWidth(h) == 0
    ensures h in [0xcd, 0xd1, 0xdc, 0xde] ==> FixedSize(h) == 1 + 2 && LengthWidth(h) == 0
    ensures h in [0xca, 0xce, 0xd2, 0xdd, 0xdf] ==> FixedSize(h) == 1 + 4 && LengthWidth(h) == 0
    ensures h in [0xcb, 0xcf, 0xd3] ==> FixedSize(h) == 1 + 8 && LengthWidth(h) == 0
    ensures h == 0xd4 ==> FixedSize(h) == 2 + 1
    ensures h == 0xd5 ==> FixedSize(h) == 2 + 2
    ensures h == 0xd6 ==> FixedSize(h) == 2 + 4
    ensures h == 0xd7 ==> FixedSize(h) == 2 + 8
    ensures h == 0xd8 ==> FixedSize(h) == 2 + 16
    ensures h in [0xc4, 0xd9] ==> LengthWidth(h) == 1 && FixedSize(h) == 1 + 1
    ensures h in [0xc5, 0xda] ==> LengthWidth(h) == 2 && FixedSize(h) == 1 + 2
    ensures h in [0xc6, 0xdb] ==> LengthWidth(h) == 4 && FixedSize(h) == 1 + 4
    ensures 0xc7 <= h <= 0xc9 ==> FixedSize(h) == 2 + LengthWidth(h)
    ensures h == 0xc7 ==> LengthWidth(h) == 1
    ensures h == 0xc8 ==> LengthWidth(h) == 2
    ensures h == 0xc9 ==> LengthWidth(h) == 4
    ensures IsString(h) <==> 0xa0 <= h <= 0xbf || h in [0xd9, 0xda, 0xdb]
  {
  }

  function BigEndian(s: seq<byte>): nat {
    if s == [] then 0 else BigEndian(s[..|s| - 1]) * 256 + s[|s| - 1]
  }

  lemma {:induction false} BigEndianInjective(a: seq<byte>, b: seq<byte>)
    requires |a| == |b| && BigEndian(a) == BigEndian(b)
    ensures a == b
  {
    if a != [] {
      var x, y := BigEndian(a[..|a| - 1]), BigEndian(b[..|b| - 1]);
      var p, q: int := a[|a| - 1], b[|b| - 1];
      assert x * 256 + p == y * 256 + q;
      assert x == y && p == q;
      BigEndianInjective(a[..|a| - 1], b[..|b| - 1]);
      assert a == a[..|a| - 1] + [a[|a| - 1]] && b == b[..|b| - 1] + [b[|b| - 1]];
    }
  }

  /** The size of the first token, or 0 when its head is incomplete or its format is not used. */
  function SizeOf(d: seq<byte>): (n: nat)
    requires d != []
    ensures n > 0 ==> n >= FixedSize(d[0])
  {
    var w := LengthWidth(d[0]);
    if d[0] == 0xc1 || |d| < 1 + w then 0 else FixedSize(d[0]) + BigEndian(d[1..1 + w])
  }

  /** The first token of `d` is complete. */
  predicate StartsWithToken(d: seq<byte>) {
    d != [] && 0 < SizeOf(d) <= |d|
  }

  /** Bytes that are tokens from end to end. Arrays and maps are their header token and their elements. */
  predicate WellFormed(d: seq<byte>) {
    d == [] || (StartsWithToken(d) && WellFormed(d[SizeOf(d)..]))
  }

  /** What a token says: the text of a string in whatever format, or the token itself. */
  datatype Value = Text(text: seq<byte>) | Raw(bytes: seq<byte>)

  function ValueOf(token: seq<byte>): Value
    requires token != [] && |token| >= 1 + LengthWidth(token[0])
  {
    if IsString(token[0]) then Text(token[1 + LengthWidth(token[0])..]) else Raw(token)
  }

  function Values(d: seq<byte>): seq<Value>
    requires WellFormed(d)
  {
    if d == [] then [] else [ValueOf(d[..SizeOf(d)])] + Values(d[SizeOf(d)..])
  }

  /** The size of a token shows in its own bytes. */
  lemma SizeIsLocal(d: seq<byte>, tail: seq<byte>)
    requires StartsWithToken(d)
    ensures var token := d[..SizeOf(d)]; StartsWithToken(token + tail) && SizeOf(token + tail) == SizeOf(d)
  {
    var token, w := d[..SizeOf(d)], LengthWidth(d[0]);
    assert (token + tail)[1..1 + w] == d[1..1 + w];
  }

  /** A token in front adds its value. */
  lemma TokenInFront(d: seq<byte>, tail: seq<byte>)
    requires StartsWithToken(d)
    ensures WellFormed(d[..SizeOf(d)] + tail) <==> WellFormed(tail)
    ensures WellFormed(tail) ==> Values(d[..SizeOf(d)] + tail) == [ValueOf(d[..SizeOf(d)])] + Values(tail)
  {
    SizeIsLocal(d, tail);
    var token := d[..SizeOf(d)];
    hide SizeOf;
    assert (token + tail)[..|token|] == token && (token + tail)[|token|..] == tail;
  }

  /* The rewrite. */

  /** What the scan looks for at the head of the remaining bytes. */
  predicate Trigger(d: seq<byte>) {
    |d| > 2 && d[0] == STR16 && d[1] == 0 && 3 + d[2] <= |d|
  }

  function Rewrite(d: seq<byte>): seq<byte> {
    if d == [] then []
    else if Trigger(d) then [STR8, d[2]] + d[3..3 + d[2]] + Rewrite(d[3 + d[2]..])
    else [d[0]] + Rewrite(d[1..])
  }

  /** What the scan writes at position `i`, and where it goes on. */
  function Emitted(data: seq<byte>, i: nat): seq<byte>
    requires i < |data|
  {
    if Trigger(data[i..]) then [STR8, data[i + 2]] + data[i + 3..i + 3 + data[i + 2]] else [data[i]]
  }

  function Advanced(data: seq<byte>, i: nat): (next: nat)
    requires i < |data|
    ensures i < next <= |data|
  {
    if Trigger(data[i..]) then i + 3 + data[i + 2] else i + 1
  }

  method ConvertStr16ToStr8(data: seq<byte>) returns (result: seq<byte>)
    ensures result == Rewrite(data)
  {
    hide Rewrite, Trigger, Emitted, Advanced;
    result := [];
    var i := 0;
    assert data[0..] == data;
    while i < |data|
      invariant 0 <= i <= |data|
      invariant Rewrite(data) == result + Rewrite(data[i..])
    {
      RewriteStep(data, i);
      TriggerAt(data, i);
      Associative(result, Emitted(data, i), Rewrite(data[Advanced(data, i)..]));
      if data[i] == STR16 && i + 2 < |data| {
        var length := data[i + 1] as int * 256 + data[i + 2] as int;
        if length < 256 && i + 3 + length <= |data| {
          result := result + ([STR8, length] + data[i + 3..i + 3 + length]);
          i := i + 3 + length;
          continue;
        }
      }
      result := result + [data[i]];
      i := i + 1;
    }
    RewriteNothing();
    assert data[i..] == [];
  }

  lemma RewriteNothing()
    ensures Rewrite([]) == []
  {
  }

  lemma TriggerAt(data: seq<byte>, i: nat)
    requires i < |data|
    ensures Trigger(data[i..]) <==>
      i + 2 < |data| && data[i] == STR16 && data[i + 1] == 0 && i + 3 + data[i + 2] as int <= |data|
    ensures Emitted(data, i) ==
            if Trigger(data[i..]) then [STR8, data[i + 2]] + data[i + 3..i + 3 + data[i + 2] as int] else [data[i]]
    ensures Advanced(data, i) == if Trigger(data[i..]) then i + 3 + data[i + 2] as int else i + 1
  {
  }

  lemma RewriteStep(data: seq<byte>, i: nat)
    requires i < |data|
    ensures Rewrite(data[i..]) == Emitted(data, i) + Rewrite(data[Advanced(data, i)..])
  {
    var d := data[i..];
    if Trigger(d) {
      assert d[3..3 + d[2]] == data[i + 3..i + 3 + data[i + 2]];
      assert d[3 + d[2]..] == data[i + 3 + data[i + 2]..];
    } else {
      assert d[1..] == data[i + 1..];
    }
  }

  /* What it is meant to do. */

  /** The first token is a string in the 16-bit format, shorter than 256 bytes. */
  predicate StartsWithShortStr16(d: seq<byte>) {
    StartsWithToken(d) && d[0] == STR16 && SizeOf(d) < 3 + 256
  }

  /** Every short 16-bit string in the 8-bit format, everything else as it is. */
  function Shortened(d: seq<byte>): seq<byte>
    requires WellFormed(d)
  {
    if d == [] then []
    else
      var n := SizeOf(d);
      (if StartsWithShortStr16(d) then [STR8, n - 3] + d[3..n] else d[..n]) + Shortened(d[n..])
  }

  function ShortStr16Count(d: seq<byte>): nat
    requires WellFormed(d)
  {
    if d == [] then 0 else (if StartsWithShortStr16(d) then 1 else 0) + ShortStr16Count(d[SizeOf(d)..])
  }

  lemma Str16Size(d: seq<byte>)
    requires |d| > 2 && d[0] == STR16
    ensures SizeOf(d) == 3 + d[1] as int * 256 + d[2] as int
  {
    var s := d[1..3];
    assert s[..1] == [d[1]] && BigEndian([d[1]]) == d[1] by {
      assert [d[1]][..0] == [];
    }
  }

  lemma TriggerIff(d: seq<byte>)
    ensures StartsWithShortStr16(d) <==> Trigger(d)
    ensures Trigger(d) ==> SizeOf(d) == 3 + d[2] as int
  {
    if |d| > 2 && d[0] == STR16 {
      Str16Size(d);
    }
  }

  /** The replacement of a short 16-bit string is an 8-bit string with the same text. */
  lemma ShortTokenKeepsText(d: seq<byte>)
    requires Trigger(d)
    ensures var token := [STR8, d[2]] + d[3..3 + d[2]];
      && StartsWithToken(token) && SizeOf(token) == |token| && !StartsWithShortStr16(token)
      && ValueOf(token) == ValueOf(d[..3 + d[2]])
  {
    var token := [STR8, d[2]] + d[3..3 + d[2]];
    assert token[1..2] == [d[2]];
    assert BigEndian([d[2]]) == d[2] by {
      assert [d[2]][..0] == [];
    }
    assert token[2..] == d[3..3 + d[2]] == d[..3 + d[2]][3..];
  }

  lemma SameHeadNotShort(d: seq<byte>, tail: seq<byte>)
    requires StartsWithToken(d)
    ensures StartsWithShortStr16(d[..SizeOf(d)] + tail) <==> StartsWithShortStr16(d)
  {
    SizeIsLocal(d, tail);
    hide SizeOf;
  }

  lemma CountInFront(d: seq<byte>, tail: seq<byte>)
    requires StartsWithToken(d) && WellFormed(tail) && WellFormed(d[..SizeOf(d)] + tail) && !StartsWithShortStr16(d)
    ensures ShortStr16Count(d[..SizeOf(d)] + tail) == ShortStr16Count(tail)
  {
    SizeIsLocal(d, tail);
    SameHeadNotShort(d, tail);
    hide SizeOf, StartsWithShortStr16;
    assert (d[..SizeOf(d)] + tail)[SizeOf(d)..] == tail;
  }

  /** Shortening keeps every value, leaves no short 16-bit string, and saves one byte for each. */
  lemma {:induction false} ShortenedKeepsValues(d: seq<byte>)
    requires WellFormed(d)
    ensures WellFormed(Shortened(d)) && Values(Shortened(d)) == Values(d)
    ensures ShortStr16Count(Shortened(d)) == 0
    ensures |Shortened(d)| + ShortStr16Count(d) == |d|
  {
    if d != [] {
      var n := SizeOf(d);
      var tail := Shortened(d[n..]);
      ShortenedKeepsValues(d[n..]);
      TriggerIff(d);
      hide SizeOf, StartsWithShortStr16;
      if Trigger(d) {
        var token := [STR8, d[2]] + d[3..3 + d[2]];
        ShortTokenKeepsText(d);
        assert token == token[..SizeOf(token)];
        TokenInFront(token, tail);
        CountInFront(token, tail);
      } else {
        TokenInFront(d, tail);
        CountInFront(d, tail);
      }
    }
  }

  /* When it does that. */

  /** Nothing inside the first `n` bytes looks like a short 16-bit string to the scan. */
  ghost predicate NoTrigger(d: seq<byte>, n: nat)
    requires n <= |d|
  {
    forall i :: 0 <= i < n ==> !Trigger(d[i..])
  }

  /** Only the short 16-bit strings themselves look like one. */
  ghost predicate Clean(d: seq<byte>)
    requires WellFormed(d)
  {
    d == [] || ((StartsWithShortStr16(d) || NoTrigger(d, SizeOf(d))) && Clean(d[SizeOf(d)..]))
  }

  lemma CopiesOne(d: seq<byte>)
    requires d != [] && !Trigger(d)
    ensures Rewrite(d) == [d[0]] + Rewrite(d[1..])
  {
  }

  lemma NoTriggerRest(d: seq<byte>, n: nat)
    requires 0 < n <= |d| && NoTrigger(d, n)
    ensures !Trigger(d) && NoTrigger(d[1..], n - 1)
  {
    hide Trigger;
    assert d[0..] == d;
    forall i | 0 <= i < n - 1
      ensures !Trigger(d[1..][i..])
    {
      assert d[1..][i..] == d[i + 1..];
    }
  }

  lemma SlicesAt(d: seq<byte>, n: nat)
    requires 0 < n <= |d|
    ensures d[1..][n - 1..] == d[n..] && d[..n] == [d[0]] + d[1..][..n - 1]
  {
  }

  /** Up to the first trigger the bytes are copied. */
  lemma {:induction false} RewriteCopies(d: seq<byte>, n: nat)
    requires n <= |d| && NoTrigger(d, n)
    ensures Rewrite(d) == d[..n] + Rewrite(d[n..])
  {
    hide Rewrite, Trigger, NoTrigger;
    if n == 0 {
      assert d[..0] == [] && d[0..] == d;
    } else {
      NoTriggerRest(d, n);
      CopiesOne(d);
      RewriteCopies(d[1..], n - 1);
      SlicesAt(d, n);
      Associative([d[0]], d[1..][..n - 1], Rewrite(d[n..]));
    }
  }

  lemma {:induction false} CleanIsShortened(d: seq<byte>)
    requires WellFormed(d) && Clean(d)
    ensures Rewrite(d) == Shortened(d)
  {
    if d != [] {
      CleanIsShortened(d[SizeOf(d)..]);
      TriggerIff(d);
      if !Trigger(d) {
        RewriteCopies(d, SizeOf(d));
      }
    }
  }

  /** Two first tokens with the same format byte and the same value are the same bytes. */
  lemma ValueDeterminesToken(a: seq<byte>, b: seq<byte>)
    requires StartsWithToken(a) && StartsWithToken(b) && a[0] == b[0]
    requires ValueOf(a[..SizeOf(a)]) == ValueOf(b[..SizeOf(b)])
    ensures a[..SizeOf(a)] == b[..SizeOf(b)]
  {
    var m, n, w := SizeOf(a), SizeOf(b), LengthWidth(a[0]);
    if IsString(a[0]) {
      assert a[..m][1 + w..] == b[..n][1 + w..];
      assert m == n;
      BigEndianInjective(a[1..1 + w], b[1..1 + w]);
      SplitToken(a, m, w);
      SplitToken(b, n, w);
    }
  }

  lemma SplitToken(a: seq<byte>, m: nat, w: nat)
    requires 1 + w <= m <= |a|
    ensures a[..m] == [a[0]] + a[1..1 + w] + a[..m][1 + w..]
  {
  }

  lemma SameValuesSameByte(a: seq<byte>, b: seq<byte>, i: nat)
    requires WellFormed(a) && WellFormed(b) && Values(a) == Values(b) && a != [] && b != [] && a[0] == b[0]
    requires i < SizeOf(b)
    ensures i < |a| && a[i] == b[i]
  {
    hide SizeOf;
    assert Values(a)[0] == Values(b)[0];
    ValueDeterminesToken(a, b);
    assert a[..SizeOf(a)][i] == b[..SizeOf(b)][i];
  }

  /** A trigger inside the first token changes the token's value, or the bytes no longer parse. */
  lemma TriggerCorrupts(d: seq<byte>, i: nat)
    requires StartsWithToken(d) && WellFormed(d) && 0 < i < SizeOf(d) && NoTrigger(d, i) && Trigger(d[i..])
    ensures !(WellFormed(Rewrite(d)) && Values(Rewrite(d)) == Values(d))
  {
    RewriteCopies(d, i);
    var out, rest := Rewrite(d), Rewrite(d[i..]);
    assert rest[0] == STR8 && d[i] == STR16;
    hide Rewrite, SizeOf, Trigger;
    assert out[0] == d[0] && out[i] == STR8;
    if WellFormed(out) && Values(out) == Values(d) {
      SameValuesSameByte(out, d, i);
    }
  }

  ghost function FirstTrigger(d: seq<byte>, n: nat): (i: nat)
    requires n <= |d| && !NoTrigger(d, n)
    ensures i < n && NoTrigger(d, i) && Trigger(d[i..])
  {
    if n > 0 && !NoTrigger(d, n - 1) then FirstTrigger(d, n - 1) else n - 1
  }

  /** If the whole keeps its values then so does what follows the first token. */
  lemma IntactTail(d: seq<byte>, token: seq<byte>, out: seq<byte>)
    requires WellFormed(d) && StartsWithToken(d) && StartsWithToken(token) && SizeOf(token) == |token|
    requires WellFormed(token + out) && Values(token + out) == Values(d)
    ensures WellFormed(out) && Values(out) == Values(d[SizeOf(d)..])
  {
    TokenInFront(token, out);
    hide SizeOf;
    assert token == token[..SizeOf(token)];
    assert Values(out) == Values(token + out)[1..];
    assert Values(d[SizeOf(d)..]) == Values(d)[1..];
  }

  lemma TokenAlone(d: seq<byte>)
    requires StartsWithToken(d)
    ensures StartsWithToken(d[..SizeOf(d)]) && SizeOf(d[..SizeOf(d)]) == SizeOf(d)
  {
    SizeIsLocal(d, []);
    assert d[..SizeOf(d)] + [] == d[..SizeOf(d)];
  }

  lemma {:induction false} IntactIsClean(d: seq<byte>)
    requires WellFormed(d) && WellFormed(Rewrite(d)) && Values(Rewrite(d)) == Values(d)
    ensures Clean(d)
  {
    hide SizeOf, Values, StartsWithShortStr16;
    if d != [] {
      var n := SizeOf(d);
      TriggerIff(d);
      if Trigger(d) {
        ShortTokenKeepsText(d);
        IntactTail(d, [STR8, d[2]] + d[3..3 + d[2]], Rewrite(d[n..]));
        IntactIsClean(d[n..]);
      } else if NoTrigger(d, n) {
        RewriteCopies(d, n);
        TokenAlone(d);
        IntactTail(d, d[..n], Rewrite(d[n..]));
        IntactIsClean(d[n..]);
      } else {
        var i := FirstTrigger(d, n);
        assert d[0..] == d;
        TriggerCorrupts(d, i);
      }
    }
  }

  /** On well-formed bytes the rewrite keeps the values exactly when the bytes are clean; it then is
      the intended shortening. */
  lemma RewriteKeepsValuesIff(d: seq<byte>)
    requires WellFormed(d)
    ensures WellFormed(Rewrite(d)) && Values(Rewrite(d)) == Values(d) <==> Clean(d)
    ensures Clean(d) ==> ShortStr16Count(Rewrite(d)) == 0 && |Rewrite(d)| + ShortStr16Count(d) == |d|
  {
    hide Rewrite, Values, SizeOf, WellFormed;
    if Clean(d) {
      CleanIsShortened(d);
      ShortenedKeepsValues(d);
    } else if WellFormed(Rewrite(d)) && Values(Rewrite(d)) == Values(d) {
      IntactIsClean(d);
    }
  }

  /** Bytes in which 0xda occurs only as a format byte or in a short 16-bit string. */
  predicate OnlyStr16HasDa(d: seq<byte>)
    requires WellFormed(d)
  {
    d == [] || ((StartsWithShortStr16(d) || forall i :: 1 <= i < SizeOf(d) ==> d[i] != STR16) &&
                OnlyStr16HasDa(d[SizeOf(d)..]))
  }

  lemma {:induction false} OnlyStr16HasDaIsClean(d: seq<byte>)
    requires WellFormed(d) && OnlyStr16HasDa(d)
    ensures Clean(d)
  {
    if d != [] {
      OnlyStr16HasDaIsClean(d[SizeOf(d)..]);
      TriggerIff(d);
      if !StartsWithShortStr16(d) {
        forall i | 0 <= i < SizeOf(d)
          ensures !Trigger(d[i..])
        {
          assert d[0..] == d;
        }
      }
    }
  }

  /** An integer can be hit: 55808 as a 16-bit integer followed by a zero. */
  lemma IntegerIsCorrupted(d: seq<byte>)
    requires d == [0xcd, 0xda, 0x00, 0x00]
    ensures WellFormed(d) && !Clean(d)
    ensures Rewrite(d) == [0xcd, 0xd9, 0x00]
  {
    assert BigEndian([]) == 0;
    assert d[1..1] == [];
    assert SizeOf(d) == 3;
    var zero := d[3..];
    assert zero == [0] && SizeOf(zero) == 1 by {
      assert zero[1..1] == [];
    }
    assert zero[1..] == [];
    assert WellFormed(zero);
    assert d[0..] == d && Trigger(d[1..]);
    RewriteStep(d, 0);
    RewriteStep(d, 1);
    assert Emitted(d, 0) == [0xcd] && Emitted(d, 1) == [0xd9, 0x00];
    assert d[4..] == [] && d[4..4] == [];
  }
}
