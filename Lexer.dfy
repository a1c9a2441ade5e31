/**
 * The assembler's lexical primitives: Python's `str.strip()` and `str.split()` over ASCII
 * whitespace, the immediate-literal recogniser of `is_immediate`, Python's `int(token, 0)`,
 * and `str(n)` for the label addresses that substitution writes back into a line.
 */
module Lexer {
  import opened Wrappers

  /** ASCII whitespace: tab, line feed, vertical tab, form feed, carriage return and space. */
  predicate IsSpace(c: char) {
    c == ' ' || '\t' <= c <= '\r'
  }

  predicate NoSpace(s: string) {
    forall i | 0 <= i < |s| :: !IsSpace(s[i])
  }

  /** A token as `split()` produces it: non-empty and free of whitespace. */
  predicate IsToken(s: string) {
    s != [] && NoSpace(s)
  }

  predicate AllTokens(ts: seq<string>) {
    forall i | 0 <= i < |ts| :: IsToken(ts[i])
  }

  function LStrip(s: string): (r: string)
    ensures |r| <= |s| && r == s[|s| - |r|..]
    ensures r == [] || !IsSpace(r[0])
    ensures forall i | 0 <= i < |s| - |r| :: IsSpace(s[i])
  {
    if s != [] && IsSpace(s[0]) then LStrip(s[1..]) else s
  }

  function RStrip(s: string): (r: string)
    ensures |r| <= |s| && r == s[..|r|]
    ensures r == [] || !IsSpace(r[|r| - 1])
    ensures forall i | |r| <= i < |s| :: IsSpace(s[i])
  {
    if s != [] && IsSpace(s[|s| - 1]) then RStrip(s[..|s| - 1]) else s
  }

  /** `s.strip()`: the slice of `s` left after removing whitespace at both ends. */
  function Strip(s: string): (r: string)
    ensures |r| <= |s|
    ensures r == [] || (!IsSpace(r[0]) && !IsSpace(r[|r| - 1]))
    ensures s == [] || (!IsSpace(s[0]) && !IsSpace(s[|s| - 1])) ==> r == s
  {
    RStrip(LStrip(s))
  }

  /** The length of the run of non-whitespace characters that starts `s`. */
  function TokenLen(s: string): (n: nat)
    ensures n <= |s| && NoSpace(s[..n])
    ensures n == |s| || IsSpace(s[n])
  {
    if s == [] || IsSpace(s[0]) then 0
    else
      var n := 1 + TokenLen(s[1..]);
      assert s[..n] == [s[0]] + s[1..][..n - 1];
      n
  }

  /** `s.split()`: the maximal runs of non-whitespace characters of `s`, in order. */
  function Split(s: string): (ts: seq<string>)
    ensures AllTokens(ts)
    decreases |s|
  {
    if s == [] then []
    else if IsSpace(s[0]) then Split(s[1..])
    else
      var n := TokenLen(s);
      [s[..n]] + Split(s[n..])
  }

  /** The tokens joined by single spaces. */
  function Join(ts: seq<string>): string
    decreases |ts|
  {
    if |ts| == 0 then ""
    else if |ts| == 1 then ts[0]
    else ts[0] + " " + Join(ts[1..])
  }

  lemma TokenLenOfConcat(a: string, b: string)
    requires IsToken(a)
    requires b == [] || IsSpace(b[0])
    ensures TokenLen(a + b) == |a|
    decreases |a|
  {
    if |a| > 1 {
      assert (a + b)[1..] == a[1..] + b;
      TokenLenOfConcat(a[1..], b);
    } else {
      assert (a + b)[1..] == b;
    }
  }

  lemma SplitOfToken(a: string, b: string)
    requires IsToken(a)
    requires b == [] || IsSpace(b[0])
    ensures Split(a + b) == [a] + Split(b)
  {
    TokenLenOfConcat(a, b);
    assert (a + b)[..|a|] == a;
    assert (a + b)[|a|..] == b;
  }

  lemma {:induction false} TokenLenAppend(s: string, u: string)
    requires TokenLen(s) < |s| || (u != [] && IsSpace(u[0]))
    ensures TokenLen(s + u) == TokenLen(s)
    decreases |s|
  {
    if s != [] && !IsSpace(s[0]) {
      assert (s + u)[1..] == s[1..] + u;
      TokenLenAppend(s[1..], u);
    }
  }

  /** Splitting two strings joined by a space gives the tokens of the first, then those of the second. */
  lemma {:induction false} SplitAppend(s: string, t: string)
    ensures Split(s + " " + t) == Split(s) + Split(t)
    decreases |s|
  {
    var st := s + " " + t;
    if s == [] {
      assert st[1..] == t;
    } else if IsSpace(s[0]) {
      assert st[1..] == s[1..] + " " + t;
      SplitAppend(s[1..], t);
    } else {
      var n := TokenLen(s);
      assert st == s + (" " + t);
      TokenLenAppend(s, " " + t);
      assert st[..n] == s[..n];
      assert st[n..] == s[n..] + " " + t;
      SplitAppend(s[n..], t);
    }
  }

  /** A line that starts with something other than whitespace has an opcode token. */
  lemma SplitNonEmpty(s: string)
    requires s != [] && !IsSpace(s[0])
    ensures Split(s) != [] && Split(s)[0] == s[..TokenLen(s)]
  {
  }

  /** Splitting a space-joined list of tokens gives the tokens back. */
  lemma {:induction false} SplitJoin(ts: seq<string>)
    requires AllTokens(ts)
    ensures Split(Join(ts)) == ts
    decreases |ts|
  {
    if |ts| == 1 {
      SplitOfToken(ts[0], "");
      assert ts[0] + "" == ts[0];
    } else if |ts| > 1 {
      var rest := " " + Join(ts[1..]);
      assert Join(ts) == ts[0] + rest;
      SplitOfToken(ts[0], rest);
      assert rest[1..] == Join(ts[1..]);
      SplitJoin(ts[1..]);
    }
  }

  // ---------------------------------------------------------------------------------------
  // Literals

  predicate IsDecimalDigit(c: char) { '0' <= c <= '9' }

  /** The value of a digit in bases up to 16; 16 for any other character. */
  function DigitValue(c: char): (v: nat)
    ensures v <= 16
  {
    if '0' <= c <= '9' then (c - '0') as nat
    else if 'a' <= c <= 'f' then (c - 'a') as nat + 10
    else if 'A' <= c <= 'F' then (c - 'A') as nat + 10
    else 16
  }

  /** The digits below 10 are exactly the ASCII decimal digits; those below 16 add a-f and A-F. */
  lemma DigitValues(c: char)
    ensures DigitValue(c) < 10 <==> IsDecimalDigit(c)
    ensures DigitValue(c) < 16 <==> IsDecimalDigit(c) || 'a' <= c <= 'f' || 'A' <= c <= 'F'
    ensures 'a' <= c <= 'f' ==> DigitValue(c) == (c - 'a') as nat + 10 && DigitValue(c) == DigitValue(c - 'a' + 'A')
  {
  }

  predicate AllDigitsIn(s: string, base: nat) {
    forall i | 0 <= i < |s| :: DigitValue(s[i]) < base
  }

  /** The value of a digit string in `base`, most significant digit first. */
  function DigitsValue(s: string, base: nat): nat {
    if s == [] then 0 else DigitsValue(s[..|s| - 1], base) * base + DigitValue(s[|s| - 1])
  }

  /** The token with at most one leading '-' removed. */
  function Unsigned(t: string): string {
    if t != [] && t[0] == '-' then t[1..] else t
  }

  predicate HasPrefixedDigits(b: string, prefix: char, base: nat) {
    |b| > 2 && b[0] == '0' && b[1] == prefix && AllDigitsIn(b[2..], base)
  }

  /**
   * `is_immediate`: an optional '-' followed by `0b` and binary digits, `0x` and hex digits,
   * `0o` and octal digits, or a plain decimal digit string, with nothing before or after;
   * the prefixes are lower case and decimal digits are the ASCII ones.
   */
  predicate IsImmediate(t: string) {
    var b := Unsigned(t);
    || HasPrefixedDigits(b, 'b', 2)
    || HasPrefixedDigits(b, 'x', 16)
    || HasPrefixedDigits(b, 'o', 8)
    || (b != [] && AllDigitsIn(b, 10))
  }

  predicate AllZeros(s: string) {
    forall i | 0 <= i < |s| :: s[i] == '0'
  }

  /** The digits after a base prefix of either case ('0b'/'0B', '0o'/'0O', '0x'/'0X'). */
  function PrefixedMagnitude(b: string, base: nat): Option<nat>
    requires |b| >= 2
  {
    var digits := b[2..];
    if digits != [] && AllDigitsIn(digits, base) then Some(DigitsValue(digits, base)) else None
  }

  /** The magnitude that `int(x, 0)` reads from an unsigned body, or None where it raises. */
  function Magnitude(b: string): Option<nat> {
    if |b| >= 2 && b[0] == '0' && (b[1] == 'b' || b[1] == 'B') then PrefixedMagnitude(b, 2)
    else if |b| >= 2 && b[0] == '0' && (b[1] == 'o' || b[1] == 'O') then PrefixedMagnitude(b, 8)
    else if |b| >= 2 && b[0] == '0' && (b[1] == 'x' || b[1] == 'X') then PrefixedMagnitude(b, 16)
    else if b != [] && AllDigitsIn(b, 10) && (b[0] != '0' || AllZeros(b)) then Some(DigitsValue(b, 10))
    else None
  }

  /**
   * Python's `int(t, 0)` on a whitespace-free token: an optional sign, then a base prefix and
   * digits, or a decimal numeral without leading zeros (zeros alone excepted).
   */
  function ParseInt(t: string): Option<int> {
    var neg := t != [] && t[0] == '-';
    var body := if t != [] && (t[0] == '-' || t[0] == '+') then t[1..] else t;
    match Magnitude(body)
    case None => None
    case Some(m) =>
      var v: int := if neg then 0 - m else m;
      Some(v)
  }

  /** A decimal literal with a superfluous leading zero, such as `007`: `is_immediate` accepts it, `int` does not. */
  predicate IsLeadingZeroDecimal(t: string) {
    var b := Unsigned(t);
    |b| >= 2 && AllDigitsIn(b, 10) && b[0] == '0' && !AllZeros(b)
  }

  /** Of the tokens `is_immediate` accepts, `int(t, 0)` refuses exactly those with a superfluous leading zero. */
  lemma ImmediateParses(t: string)
    requires IsImmediate(t)
    ensures ParseInt(t).None? <==> IsLeadingZeroDecimal(t)
  {
    var b := Unsigned(t);
    if HasPrefixedDigits(b, 'b', 2) || HasPrefixedDigits(b, 'x', 16) || HasPrefixedDigits(b, 'o', 8) {
      assert !AllDigitsIn(b, 10) by { assert DigitValue(b[1]) >= 10; }
      assert b[2..] != [];
    }
  }

  function DecimalDigit(d: nat): (c: char)
    requires d < 10
    ensures IsDecimalDigit(c) && DigitValue(c) == d
  {
    '0' + d as char
  }

  /** `str(n)`: the decimal numeral of `n`, without leading zeros. */
  function DecimalString(n: nat): (s: string)
    ensures s != [] && AllDigitsIn(s, 10)
    ensures DigitsValue(s, 10) == n
    ensures s[0] == '0' ==> n == 0 && s == "0"
  {
    if n < 10 then [DecimalDigit(n)]
    else
      var s := DecimalString(n / 10) + [DecimalDigit(n % 10)];
      assert s[..|s| - 1] == DecimalString(n / 10);
      s
  }

  /** A label address written back by substitution is a decimal immediate that parses to the address. */
  lemma DecimalStringParses(n: nat)
    ensures IsImmediate(DecimalString(n)) && IsToken(DecimalString(n))
    ensures ParseInt(DecimalString(n)) == Some(n)
  {
    var s := DecimalString(n);
    assert Unsigned(s) == s;
    assert NoSpace(s) by {
      forall i | 0 <= i < |s| ensures !IsSpace(s[i]) {
        assert DigitValue(s[i]) < 10;
      }
    }
    if |s| >= 2 {
      assert DigitValue(s[1]) < 10;
    }
    assert s[0] != '0' || AllZeros(s);
  }
}
