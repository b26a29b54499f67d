/** Byte counts as settings are written: "5MiB" and back (format/format.go). */
module Sizes {
  import opened Text

  const UNITS: seq<string> := ["", "KiB", "MiB", "GiB", "TiB"]

  function Mult(i: nat): (m: int)
    ensures 1 <= m
  {
    if i == 0 then 1 else 1024 * Mult(i - 1)
  }

  datatype Scaled = Scaled(out: int, unit: nat)

  /** Divide by 1024 while it goes evenly, four units at most. */
  function Scale(out: int, unit: nat): (s: Scaled)
    requires unit <= 4
    ensures unit <= s.unit <= 4
    decreases 4 - unit
  {
    if unit == 4 || out % 1024 != 0 then Scaled(out, unit) else Scale(out / 1024, unit + 1)
  }

  /** The canonical text of a byte count. */
  function SizeText(n: int): string {
    if n == 0 then "0"
    else
      var s := Scale(n, 0);
      FormatInt(s.out) + UNITS[s.unit]
  }

  method Size(n: int) returns (s: string)
    ensures s == SizeText(n)
  {
    if n == 0 {
      return "0";
    }
    var out, unit := n, 0;
    while unit < 4 && out % 1024 == 0
      invariant 0 <= unit <= 4 && Scale(out, unit) == Scale(n, 0)
      decreases 4 - unit
    {
      out, unit := out / 1024, unit + 1;
    }
    s := FormatInt(out) + UNITS[unit];
  }

  predicate IsUnitChar(c: char) {
    c in {'k', 'K', 'm', 'M', 'g', 'G', 't', 'T', 'i', 'I', 'b', 'B', ' ', '\t'}
  }

  function TrimUnit(s: string): (d: string)
    ensures d <= s
  {
    if s != [] && IsUnitChar(s[|s| - 1]) then TrimUnit(s[..|s| - 1]) else s
  }

  /** A 64-bit product wraps around. */
  function Wrap64(x: int): int { (x + 0x8000_0000_0000_0000) % 0x1_0000_0000_0000_0000 - 0x8000_0000_0000_0000 }

  function UnitOf(suffix: string): Parsed<nat> {
    if suffix == "" then Ok(0)
    else if suffix == "k" then Ok(1)
    else if suffix == "m" then Ok(2)
    else if suffix == "g" then Ok(3)
    else if suffix == "t" then Ok(4)
    else Err
  }

  /** What follows the number, down to the letter that decides. */
  function SuffixOf(tail: string): string { TrimSuffix(TrimSuffix(ToLower(TrimSpace(tail)), "b"), "i") }

  function ParseSize(text: string): Parsed<int> {
    var s := TrimSpace(text);
    if s == "" then Err
    else
      var digits := TrimUnit(s);
      var n := ParseInt(TrimSpace(digits));
      var unit := UnitOf(SuffixOf(s[|digits|..]));
      if n.Err? || unit.Err? || n.value <= 0 then Err else Ok(Wrap64(n.value * Mult(unit.value)))
  }

  /** What the units are worth, and by which letter each is read. */
  lemma UnitsAre(unit: nat)
    ensures unit == 1 ==> Mult(unit) == 1024 && UnitOf("k") == Ok(unit) && UNITS[unit] == "KiB"
    ensures unit == 2 ==> Mult(unit) == 1024 * 1024 && UnitOf("m") == Ok(unit) && UNITS[unit] == "MiB"
    ensures unit == 3 ==> Mult(unit) == 1024 * 1024 * 1024 && UnitOf("g") == Ok(unit) && UNITS[unit] == "GiB"
    ensures unit == 4 ==> Mult(unit) == 1024 * 1024 * 1024 * 1024 && UnitOf("t") == Ok(unit) && UNITS[unit] == "TiB"
    ensures UnitOf("") == Ok(0) && Mult(0) == 1
  {
    if unit == 1 || unit == 2 || unit == 3 || unit == 4 {
      assert Mult(unit) == 1024 * Mult(unit - 1);
      if 2 <= unit { assert Mult(unit - 1) == 1024 * Mult(unit - 2); }
      if 3 <= unit { assert Mult(unit - 2) == 1024 * Mult(unit - 3); }
      if 4 <= unit { assert Mult(unit - 3) == 1024 * Mult(unit - 4); }
    }
  }

  // ---------------------------------------------------------------- the round trip

  lemma {:induction false} ScaleExact(out: int, unit: nat)
    requires unit <= 4
    ensures var s := Scale(out, unit); s.out * Mult(s.unit) == out * Mult(unit)
    ensures 0 < out ==> 0 < Scale(out, unit).out <= out
    ensures out < 0 ==> out <= Scale(out, unit).out < 0
    decreases 4 - unit
  {
    if unit < 4 && out % 1024 == 0 {
      ScaleExact(out / 1024, unit + 1);
      assert out == 1024 * (out / 1024);
      var q := out / 1024;
      assert (1024 * q) * Mult(unit) == q * (1024 * Mult(unit));
    }
  }

  lemma {:induction false} TrimUnitIs(d: string, u: string)
    requires d != [] && !IsUnitChar(d[|d| - 1]) && forall i | 0 <= i < |u| :: IsUnitChar(u[i])
    ensures TrimUnit(d + u) == d
    decreases |u|
  {
    if u == [] {
      assert d + u == d;
    } else {
      var s := d + u;
      assert s[..|s| - 1] == d + u[..|u| - 1] && s[|s| - 1] == u[|u| - 1];
      TrimUnitIs(d, u[..|u| - 1]);
    }
  }

  /** A unit as it is printed, or the same in lower case. */
  predicate IsUnitText(u: string, unit: nat) {
    unit <= 4 && (u == UNITS[unit] || u == ToLower(UNITS[unit]))
  }

  lemma UnitLetter(u: string, c: char)
    requires |u| == 3 && Lower(u[0]) == c && u[1] == 'i' && Lower(u[2]) == 'b' && Trimmed(u)
    ensures SuffixOf(u) == [c]
  {
    TrimPadded(u);
    var low := ToLower(u);
    assert low == [c, 'i', 'b'];
    assert low[2..] == "b" && low[..2] == [c, 'i'];
    assert [c, 'i'][1..] == "i" && [c, 'i'][..1] == [c];
  }

  const LETTERS: string := "kmgt"

  lemma UnitShape(u: string, unit: nat)
    requires IsUnitText(u, unit) && 0 < unit
    ensures |u| == 3 && Lower(u[0]) == LETTERS[unit - 1] && u[1] == 'i' && Lower(u[2]) == 'b'
  {
    assert |UNITS[unit]| == 3 && Lower(UNITS[unit][0]) == LETTERS[unit - 1] && UNITS[unit][1] == 'i' && UNITS[unit][2] == 'B';
  }

  lemma UnitChars(u: string)
    requires |u| == 3 && Lower(u[0]) in LETTERS && u[1] == 'i' && Lower(u[2]) == 'b'
    ensures forall i | 0 <= i < |u| :: IsUnitChar(u[i]) && !IsSpace(u[i])
  {
    forall i | 0 <= i < |u| ensures IsUnitChar(u[i]) && !IsSpace(u[i]) {
      assert i == 0 || i == 1 || i == 2;
    }
  }

  lemma SuffixRoundTrip(u: string, unit: nat)
    requires IsUnitText(u, unit)
    ensures UnitOf(SuffixOf(u)) == Ok(unit)
    ensures forall i | 0 <= i < |u| :: IsUnitChar(u[i]) && !IsSpace(u[i])
  {
    if unit == 0 {
      assert u == "" && SuffixOf(u) == "";
    } else {
      UnitShape(u, unit);
      UnitChars(u);
      UnitLetter(u, LETTERS[unit - 1]);
    }
  }

  lemma FormatIntEnds(n: int)
    ensures var s := FormatInt(n);
            s != [] && IsDigit(s[|s| - 1]) && (IsDigit(s[0]) || s[0] == '-') && Trimmed(s)
            && forall i | 0 <= i < |s| :: IsDigit(s[i]) || s[i] == '-'
  {}

  /** Where the text of a number and a unit is cut. */
  lemma NumberAndUnit(out: int, unit: nat, u: string)
    requires IsUnitText(u, unit)
    ensures var d := FormatInt(out);
            && d + u != "" && TrimSpace(d + u) == d + u && TrimUnit(d + u) == d && TrimSpace(d) == d && (d + u)[|d|..] == u
  {
    var d := FormatInt(out);
    FormatIntEnds(out);
    SuffixRoundTrip(u, unit);
    TrimUnitIs(d, u);
    TrimPadded(d);
    PairIsTrimmed(d, u);
    TrimPadded(d + u);
  }

  lemma PairIsTrimmed(d: string, u: string)
    requires d != [] && Trimmed(d) && forall i | 0 <= i < |u| :: !IsSpace(u[i])
    ensures Trimmed(d + u)
  {
    var s := d + u;
    assert s[0] == d[0] && s[|s| - 1] == (if u == [] then d[|d| - 1] else u[|u| - 1]);
  }

  /** A number and a unit read back as their product, or not at all when the number is not positive. */
  lemma ParseScaled(out: int, unit: nat, u: string)
    requires IsUnitText(u, unit) && MIN_INT64 <= out <= MAX_INT64
    ensures ParseSize(FormatInt(out) + u) == if out <= 0 then Err else Ok(Wrap64(out * Mult(unit)))
  {
    NumberAndUnit(out, unit, u);
    SuffixRoundTrip(u, unit);
    IntRoundTrip(out);
  }

  lemma WrapIdentity(x: int)
    requires MIN_INT64 <= x <= MAX_INT64
    ensures Wrap64(x) == x
  {}

  /** ParseSize inverts Size on every positive 64-bit count, in either case of letters, without overflow;
      nothing negative reads back. */
  lemma SizeRoundTrip(n: int)
    requires n != 0 && MIN_INT64 <= n <= MAX_INT64
    ensures ParseSize(SizeText(n)) == if 0 < n then Ok(n) else Err
    ensures ParseSize(ToLower(SizeText(n))) == if 0 < n then Ok(n) else Err
  {
    var s := Scale(n, 0);
    ScaledBack(n);
    ParseScaled(s.out, s.unit, UNITS[s.unit]);
    ParseScaled(s.out, s.unit, ToLower(UNITS[s.unit]));
    LowerOfSum(FormatInt(s.out), UNITS[s.unit]);
  }

  lemma ScaledBack(n: int)
    requires n != 0 && MIN_INT64 <= n <= MAX_INT64
    ensures var s := Scale(n, 0);
            && Wrap64(s.out * Mult(s.unit)) == n && MIN_INT64 <= s.out <= MAX_INT64 && (0 < s.out <==> 0 < n)
  {
    var s := Scale(n, 0);
    ScaleExact(n, 0);
    assert s.out * Mult(s.unit) == n;
    WrapIdentity(n);
  }

  lemma LowerOfSum(d: string, u: string)
    requires forall i | 0 <= i < |d| :: IsDigit(d[i]) || d[i] == '-'
    ensures ToLower(d + u) == d + ToLower(u)
  {}
}
