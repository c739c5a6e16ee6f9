/**
 The string normalisation that the manager, the queue and the command table share:
 Go's `strings.TrimSpace`, `strings.ToUpper` and `strings.ToLower`, case mapping
 restricted to ASCII letters.
 */
module Text {

  /** The white space that `strings.TrimSpace` removes (the Latin-1 part of it). */
  predicate IsSpace(c: char) {
    c == ' ' || '\t' <= c <= '\r' || c == '\U{85}' || c == '\U{A0}'
  }

  function UpperChar(c: char): char {
    if 'a' <= c <= 'z' then c - 'a' + 'A' else c
  }

  function LowerChar(c: char): char {
    if 'A' <= c <= 'Z' then c - 'A' + 'a' else c
  }

  /** White space and case, by code point: small letters are 32 places after the capitals. */
  lemma CharsAre(c: char)
    ensures IsSpace(c) <==> c as int in {9, 10, 11, 12, 13, 32, 133, 160}
    ensures UpperChar(c) as int == if 97 <= c as int <= 122 then c as int - 32 else c as int
    ensures LowerChar(c) as int == if 65 <= c as int <= 90 then c as int + 32 else c as int
    ensures LowerChar(UpperChar(c)) == LowerChar(c) && UpperChar(LowerChar(c)) == UpperChar(c)
  {
  }

  function TrimLeft(s: string): (r: string)
    ensures r == [] || !IsSpace(r[0])
    ensures s == [] || !IsSpace(s[0]) ==> r == s
    ensures s != [] && !IsSpace(s[|s| - 1]) ==> r != [] && r[|r| - 1] == s[|s| - 1]
  {
    if s != [] && IsSpace(s[0]) then TrimLeft(s[1..]) else s
  }

  function TrimRight(s: string): (r: string)
    ensures r == [] || !IsSpace(r[|r| - 1])
    ensures s == [] || !IsSpace(s[|s| - 1]) ==> r == s
    ensures s != [] && !IsSpace(s[0]) ==> r != [] && r[0] == s[0]
  {
    if s != [] && IsSpace(s[|s| - 1]) then TrimRight(s[..|s| - 1]) else s
  }

  /** No white space at either end. */
  predicate IsTrimmed(s: string) {
    s == [] || (!IsSpace(s[0]) && !IsSpace(s[|s| - 1]))
  }

  function Trim(s: string): (r: string)
    ensures IsTrimmed(r)
    ensures IsTrimmed(s) <==> r == s
  {
    TrimRight(TrimLeft(s))
  }

  predicate AllSpace(s: string) {
    forall i :: 0 <= i < |s| ==> IsSpace(s[i])
  }

  lemma {:induction false} TrimLeftIs(s: string) returns (k: nat)
    ensures k <= |s| && TrimLeft(s) == s[k..] && AllSpace(s[..k])
  {
    hide IsSpace;
    k := 0;
    if s != [] && IsSpace(s[0]) {
      k := TrimLeftIs(s[1..]);
      assert s[1..][k..] == s[k + 1..] && s[..k + 1] == [s[0]] + s[1..][..k];
      k := k + 1;
    }
  }

  lemma {:induction false} TrimRightIs(s: string) returns (k: nat)
    ensures k <= |s| && TrimRight(s) == s[..k] && AllSpace(s[k..])
  {
    hide IsSpace;
    k := |s|;
    if s != [] && IsSpace(s[|s| - 1]) {
      var rest := s[..|s| - 1];
      k := TrimRightIs(rest);
      assert rest[..k] == s[..k];
      assert s[k..] == rest[k..] + [s[|s| - 1]];
    }
  }

  /** Trimming takes white space from both ends and nothing else. */
  lemma TrimIs(s: string) returns (i: nat, j: nat)
    ensures i <= j <= |s| && Trim(s) == s[i..j] && AllSpace(s[..i]) && AllSpace(s[j..]) && IsTrimmed(s[i..j])
  {
    i := TrimLeftIs(s);
    var k := TrimRightIs(s[i..]);
    j := i + k;
    assert s[i..][..k] == s[i..j] && s[i..][k..] == s[j..];
  }

  function ToUpper(s: string): (r: string)
    ensures |r| == |s|
    ensures forall i :: 0 <= i < |s| ==> r[i] == UpperChar(s[i])
  {
    seq(|s|, i requires 0 <= i < |s| => UpperChar(s[i]))
  }

  function ToLower(s: string): (r: string)
    ensures |r| == |s|
    ensures forall i :: 0 <= i < |s| ==> r[i] == LowerChar(s[i])
  {
    seq(|s|, i requires 0 <= i < |s| => LowerChar(s[i]))
  }

  /** `normalizeSymbol`: the key under which a symbol is owned. */
  function NormalizeSymbol(symbol: string): string {
    ToUpper(Trim(symbol))
  }

  /** A normalised symbol is its own key, so book keys may be normalised again. */
  lemma NormalizeSymbolIdempotent(symbol: string)
    ensures NormalizeSymbol(NormalizeSymbol(symbol)) == NormalizeSymbol(symbol)
  {
    var t := Trim(symbol);
    var u := ToUpper(t);
    assert IsTrimmed(u);
    assert ToUpper(u) == u;
  }

  /** Go's order on strings. */
  predicate Less(a: string, b: string) {
    b != [] && (a == [] || a[0] < b[0] || (a[0] == b[0] && Less(a[1..], b[1..])))
  }

  lemma {:induction false} NotLessTransitive(a: string, b: string, c: string)
    requires !Less(b, a) && !Less(c, b)
    ensures !Less(c, a)
  {
    if a != [] && b != [] && c != [] && a[0] == b[0] == c[0] {
      NotLessTransitive(a[1..], b[1..], c[1..]);
    }
  }

  lemma {:induction false} LessAsymmetric(a: string, b: string)
    ensures !(Less(a, b) && Less(b, a))
  {
    if a != [] && b != [] && a[0] == b[0] {
      LessAsymmetric(a[1..], b[1..]);
    }
  }

  lemma {:induction false} LessIrreflexive(a: string)
    ensures !Less(a, a)
  {
    LessAsymmetric(a, a);
  }

  /* Numbers. */

  function Digits(n: nat): string {
    if n < 10 then [DigitChar(n)] else Digits(n / 10) + [DigitChar(n % 10)]
  }

  function DigitChar(d: nat): char
    requires d < 10
  {
    '0' + d as char
  }

  /** A non-negative amount in cents: the nearest whole number, and the even one of two. */
  function Cents(x: real): (c: nat)
    requires x >= 0.0
    ensures c as real - 0.5 <= x * 100.0 <= c as real + 0.5
  {
    var floor := (x * 100.0).Floor;
    var rest := x * 100.0 - floor as real;
    if rest < 0.5 || (rest == 0.5 && floor % 2 == 0) then floor else floor + 1
  }

  /** `%.2f`. */
  function Fixed2(x: real): string {
    var c := Cents(if x < 0.0 then -x else x);
    (if x < 0.0 then "-" else "") + Digits(c / 100) + "." + [DigitChar(c / 10 % 10), DigitChar(c % 10)]
  }

  /** What a numeral says. */
  function Value(digits: string): int {
    if digits == [] then 0 else Value(digits[..|digits| - 1]) * 10 + (digits[|digits| - 1] as int - '0' as int)
  }

  lemma {:induction false} DigitsSayTheNumber(n: nat)
    ensures Value(Digits(n)) == n && Digits(n) != ""
  {
    if n >= 10 {
      DigitsSayTheNumber(n / 10);
      var front := Digits(n / 10);
      assert Digits(n) == front + [DigitChar(n % 10)];
      assert (front + [DigitChar(n % 10)])[..|front|] == front;
    } else {
      assert [DigitChar(n)][..0] == [];
    }
  }

  lemma TwoDigitsSay(a: nat, b: nat)
    requires a < 10 && b < 10
    ensures Value([DigitChar(a), DigitChar(b)]) == a * 10 + b
  {
    var both := [DigitChar(a), DigitChar(b)];
    assert both[..1] == [DigitChar(a)] && [DigitChar(a)][..0] == [];
    assert Value([DigitChar(a)]) == a;
  }

  lemma Decimal(c: nat)
    ensures c / 100 * 100 + (c / 10 % 10 * 10 + c % 10) == c
  {
    assert c / 10 / 10 == c / 100;
  }

  /** Two places say the amount to the nearest cent. */
  lemma Fixed2SaysTheAmount(x: real)
    requires x >= 0.0
    ensures var text := Fixed2(x);
      && |text| > 3 && text[|text| - 3] == '.'
      && Value(text[..|text| - 3]) * 100 + Value(text[|text| - 2..]) == Cents(x)
  {
    hide Cents, Digits, DigitChar, Value;
    var c := Cents(x);
    DigitsSayTheNumber(c / 100);
    TwoDigitsSay(c / 10 % 10, c % 10);
    Decimal(c);
    AroundThePoint(Digits(c / 100), [DigitChar(c / 10 % 10), DigitChar(c % 10)]);
    assert Fixed2(x) == Digits(c / 100) + "." + [DigitChar(c / 10 % 10), DigitChar(c % 10)];
  }

  lemma AroundThePoint(whole: string, cents: string)
    requires whole != "" && |cents| == 2
    ensures var text := whole + "." + cents;
      && |text| > 3 && text[|text| - 3] == '.' && text[..|text| - 3] == whole && text[|text| - 2..] == cents
  {
  }
}
