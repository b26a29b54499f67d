/** The string operations the parsers and printers are built on, as Go's strings and strconv packages define them.
    Case folding covers the ASCII letters. */
module Text {

  // ---------------------------------------------------------------- space

  predicate IsSpace(c: char) {
    || c == ' ' || '\t' <= c <= '\r' || c == '\U{85}' || c == '\U{A0}' || c == '\U{1680}'
    || '\U{2000}' <= c <= '\U{200A}' || c == '\U{2028}' || c == '\U{2029}' || c == '\U{202F}'
    || c == '\U{205F}' || c == '\U{3000}'
  }

  function TrimLeft(s: string): string {
    if s != [] && IsSpace(s[0]) then TrimLeft(s[1..]) else s
  }

  function TrimRight(s: string): string {
    if s != [] && IsSpace(s[|s| - 1]) then TrimRight(s[..|s| - 1]) else s
  }

  function TrimSpace(s: string): string { TrimRight(TrimLeft(s)) }

  /** Nothing to trim at either end. */
  predicate Trimmed(s: string) { s != [] ==> !IsSpace(s[0]) && !IsSpace(s[|s| - 1]) }

  lemma TrimPadded(s: string)
    requires Trimmed(s)
    ensures TrimSpace(s) == s && TrimSpace(" " + s) == s
  {
    assert (" " + s)[1..] == s;
  }

  function Lower(c: char): char { if 'A' <= c <= 'Z' then c - 'A' + 'a' else c }

  function ToLower(s: string): string { seq(|s|, i requires 0 <= i < |s| => Lower(s[i])) }

  predicate HasSuffix(s: string, suffix: string) { |suffix| <= |s| && s[|s| - |suffix|..] == suffix }

  function TrimSuffix(s: string, suffix: string): string {
    if HasSuffix(s, suffix) then s[..|s| - |suffix|] else s
  }

  // ---------------------------------------------------------------- cutting and splitting

  datatype Halves = Halves(before: string, after: string, found: bool)

  /** Around the first separator. */
  function Cut(s: string, c: char): (h: Halves)
    ensures if h.found then s == h.before + [c] + h.after else s == h.before && h.after == []
    ensures c !in h.before
  {
    if s == [] then Halves([], [], false)
    else if s[0] == c then Halves([], s[1..], true)
    else
      var rest := Cut(s[1..], c);
      Halves([s[0]] + rest.before, rest.after, rest.found)
  }

  lemma {:induction false} CutAt(a: string, c: char, b: string)
    requires c !in a
    ensures Cut(a + [c] + b, c) == Halves(a, b, true)
  {
    var s := a + [c] + b;
    if a == [] {
      assert s[1..] == b;
    } else {
      assert s[1..] == a[1..] + [c] + b;
      CutAt(a[1..], c, b);
      assert a == [a[0]] + a[1..];
    }
  }

  lemma {:induction false} CutNowhere(a: string, c: char)
    requires c !in a
    ensures Cut(a, c) == Halves(a, [], false)
  {
    if a != [] {
      CutNowhere(a[1..], c);
      assert a == [a[0]] + a[1..];
    }
  }

  /** Around every separator, empty pieces included. */
  function Split(s: string, c: char): seq<string>
    decreases |s|
  {
    var h := Cut(s, c);
    if !h.found then [s] else [h.before] + Split(h.after, c)
  }

  function Join(parts: seq<string>, sep: string): string {
    if parts == [] then []
    else if |parts| == 1 then parts[0]
    else parts[0] + sep + Join(parts[1..], sep)
  }

  lemma {:induction false} SplitJoin(parts: seq<string>, c: char)
    requires parts != [] && forall i | 0 <= i < |parts| :: c !in parts[i]
    ensures Split(Join(parts, [c]), c) == parts
  {
    if |parts| == 1 {
      CutNowhere(parts[0], c);
    } else {
      CutAt(parts[0], c, Join(parts[1..], [c]));
      SplitJoin(parts[1..], c);
    }
  }

  // ---------------------------------------------------------------- fields

  /** How far the leading stretch of separators, or of anything else, reaches. */
  function Gap(s: string, sep: char -> bool): (n: nat)
    ensures n <= |s| && (n < |s| ==> !sep(s[n]))
  {
    if s != [] && sep(s[0]) then 1 + Gap(s[1..], sep) else 0
  }

  function Word(s: string, sep: char -> bool): (n: nat)
    ensures n <= |s| && (s != [] && !sep(s[0]) ==> 0 < n)
  {
    if s != [] && !sep(s[0]) then 1 + Word(s[1..], sep) else 0
  }

  /** The words between runs of separators. */
  function FieldsBy(s: string, sep: char -> bool): seq<string>
    decreases |s|
  {
    var t := s[Gap(s, sep)..];
    if t == [] then [] else [t[..Word(t, sep)]] + FieldsBy(t[Word(t, sep)..], sep)
  }

  lemma {:induction false} WordIs(w: string, rest: string, sep: char -> bool)
    requires forall i | 0 <= i < |w| :: !sep(w[i])
    requires rest == [] || sep(rest[0])
    ensures Word(w + rest, sep) == |w|
  {
    if w == [] {
      assert w + rest == rest;
    } else {
      assert (w + rest)[1..] == w[1..] + rest;
      WordIs(w[1..], rest, sep);
    }
  }

  /** A word that starts at once. */
  lemma FieldFirst(w: string, rest: string, sep: char -> bool)
    requires w != [] && forall i | 0 <= i < |w| :: !sep(w[i])
    requires rest == [] || sep(rest[0])
    ensures FieldsBy(w + rest, sep) == [w] + FieldsBy(rest, sep)
  {
    var s := w + rest;
    assert s[0] == w[0];
    assert Gap(s, sep) == 0 && s[0..] == s;
    WordIs(w, rest, sep);
    assert s[..|w|] == w && s[|w|..] == rest;
  }

  /** One separator in front makes no difference. */
  lemma FieldSkip(c: char, rest: string, sep: char -> bool)
    requires sep(c)
    ensures FieldsBy([c] + rest, sep) == FieldsBy(rest, sep)
  {
    var s := [c] + rest;
    assert s[1..] == rest;
    assert s[Gap(s, sep)..] == rest[Gap(rest, sep)..];
  }

  // ---------------------------------------------------------------- decimal numbers

  const MAX_INT64: int := 0x7FFF_FFFF_FFFF_FFFF
  const MIN_INT64: int := -0x8000_0000_0000_0000

  predicate IsDigit(c: char) { '0' <= c <= '9' }

  function Digit(d: int): char
    requires 0 <= d < 10
  {
    '0' + d as char
  }

  function DigitValue(c: char): int { c as int - '0' as int }

  function FormatNat(n: nat): (s: string)
    ensures s != [] && forall i | 0 <= i < |s| :: IsDigit(s[i])
  {
    if n < 10 then [Digit(n)] else FormatNat(n / 10) + [Digit(n % 10)]
  }

  function FormatInt(n: int): string { if n < 0 then "-" + FormatNat(-n) else FormatNat(n) }

  predicate AllDigits(s: string) { forall i | 0 <= i < |s| :: IsDigit(s[i]) }

  function NatOf(s: string): nat
    requires AllDigits(s)
  {
    if s == [] then 0 else 10 * NatOf(s[..|s| - 1]) + DigitValue(s[|s| - 1])
  }

  datatype Parsed<T> = Ok(value: T) | Err

  /** A 64-bit decimal with an optional sign; anything else is an error. */
  function ParseInt(s: string): Parsed<int> {
    var digits := if s != [] && (s[0] == '+' || s[0] == '-') then s[1..] else s;
    if digits == [] || !AllDigits(digits) then Err
    else
      var n: int := if s[0] == '-' then 0 - NatOf(digits) else NatOf(digits);
      if MIN_INT64 <= n <= MAX_INT64 then Ok(n) else Err
  }

  lemma {:induction false} NatRoundTrip(n: nat)
    ensures NatOf(FormatNat(n)) == n
  {
    if n < 10 {
      var s := FormatNat(n);
      assert s[..|s| - 1] == [];
    } else {
      NatRoundTrip(n / 10);
      var s := FormatNat(n);
      assert s[..|s| - 1] == FormatNat(n / 10);
    }
  }

  /** Printing a 64-bit number and reading it back gives the number. */
  lemma IntRoundTrip(n: int)
    requires MIN_INT64 <= n <= MAX_INT64
    ensures ParseInt(FormatInt(n)) == Ok(n)
  {
    if n < 0 {
      assert ("-" + FormatNat(-n))[1..] == FormatNat(-n);
      NatRoundTrip(-n);
    } else {
      assert IsDigit(FormatNat(n)[0]);
      NatRoundTrip(n);
    }
  }

  /** A positive number does not print as a zero or with one in front. */
  lemma {:induction false} NoLeadingZero(n: nat)
    requires 0 < n
    ensures FormatNat(n)[0] != '0'
  {
    if 10 <= n { NoLeadingZero(n / 10); }
  }
}
