/** The last lines of the log, in a ring (logs/logs.go). */
module LogRing {

  const TAIL := 500

  datatype Line = Line(seqno: nat, text: string)

  /** The lines numbered a + 1 to b of everything a process wrote. */
  function Stretch(history: seq<string>, a: nat, b: nat): (lines: seq<Line>)
    requires a <= b <= |history|
    ensures |lines| == b - a && forall i | 0 <= i < |lines| :: lines[i] == Line(a + i + 1, history[a + i])
  {
    seq(b - a, i requires 0 <= i < b - a => Line(a + i + 1, history[a + i]))
  }

  /** How many lines have been dropped. */
  function Dropped(history: seq<string>): (n: nat)
    ensures n <= |history|
  {
    if |history| <= TAIL then 0 else |history| - TAIL
  }

  /** Unrolled from its first entry, the ring is the end of the history. */
  ghost predicate Ringed(ring: seq<Line>, first: nat, history: seq<string>) {
    && |ring| == |history| - Dropped(history) && (|ring| < TAIL ==> first == 0) && first < TAIL
    && forall i | 0 <= i < |ring| :: ring[Slot(first, i, |ring|)] == Line(Dropped(history) + i + 1, history[Dropped(history) + i])
  }

  class Logger {
    var ring: seq<Line>
    var first: nat
    var seqno: nat
    ghost var history: seq<string>

    ghost predicate Valid()
      reads this
    {
      seqno == |history| && Ringed(ring, first, history)
    }

    constructor ()
      ensures Valid() && history == []
    {
      ring, first, seqno, history := [], 0, 0, [];
    }

    method Remember(text: string)
      requires Valid()
      modifies this
      ensures Valid() && history == old(history) + [text]
      ensures |ring| == if |history| < 500 then |history| else 500
    {
      seqno := seqno + 1;
      var line := Line(seqno, text);
      if |ring| < TAIL {
        Append(ring, history, text);
        ring := ring + [line];
      } else {
        Overwrite(ring, first, history, text);
        ring := ring[first := line];
        first := (first + 1) % TAIL;
      }
      history := history + [text];
    }

    /** The remembered lines numbered above after, oldest first, and the newest number there is. */
    method Tail(after: int) returns (lines: seq<Line>, newest: nat)
      requires Valid()
      ensures newest == |history|
      ensures lines == Stretch(history, Above(after, Dropped(history), |history|), |history|)
    {
      if |ring| == 0 {
        return [], 0;
      }
      lines := [];
      for i := 0 to |ring|
        invariant lines == Stretch(history, Above(after, Dropped(history), Dropped(history) + i), Dropped(history) + i)
      {
        var line := ring[(first + i) % |ring|];
        assert line == ring[Slot(first, i, |ring|)];
        if after < line.seqno {
          lines := lines + [line];
        }
      }
      newest := seqno;
    }
  }

  /** The number after which the lines above after start, among those numbered low + 1 to high. */
  function Above(after: int, low: nat, high: nat): (a: nat)
    requires low <= high
    ensures low <= a <= high
  {
    if after <= low then low else if high <= after then high else after
  }

  /** Of the last 500 lines those with a higher number, each under its place in the history. */
  lemma TailIs(history: seq<string>, after: int)
    ensures var lines, held := Stretch(history, Above(after, Dropped(history), |history|), |history|), if |history| < 500 then |history| else 500;
            && (|lines| == if |history| <= after then 0 else if |history| - after < held then |history| - after else held)
            && forall i | 0 <= i < |lines| ::
                 var at := |history| - |lines| + i; 0 <= at < |history| && lines[i].seqno == at + 1 && lines[i].text == history[at]
  {}

  function Slot(first: nat, i: nat, n: nat): (s: nat)
    requires i < n && first < TAIL && (n < TAIL ==> first == 0) && n <= TAIL
    ensures s < n && s == (first + i) % n
  {
    SlotIs(first, i, n);
    if first + i < n then first + i else first + i - n
  }

  lemma SlotIs(first: nat, i: nat, n: nat)
    requires i < n && first < TAIL && (n < TAIL ==> first == 0) && n <= TAIL
    ensures (first + i) % n == if first + i < n then first + i else first + i - n
  {
    if n < TAIL { NoWrap(i, n); }
  }

  lemma NoWrap(i: nat, n: nat)
    requires i < n
    ensures i % n == i
  {}

  lemma Append(ring: seq<Line>, history: seq<string>, text: string)
    requires Ringed(ring, 0, history) && |ring| < TAIL
    ensures Ringed(ring + [Line(|history| + 1, text)], 0, history + [text])
  {
    var ring', history' := ring + [Line(|history| + 1, text)], history + [text];
    forall i | 0 <= i < |ring'| ensures ring'[Slot(0, i, |ring'|)] == Line(i + 1, history'[i]) {
      if i < |ring| { assert Slot(0, i, |ring|) == i; }
    }
  }

  lemma Overwrite(ring: seq<Line>, first: nat, history: seq<string>, text: string)
    requires Ringed(ring, first, history) && |ring| == TAIL
    ensures Ringed(ring[first := Line(|history| + 1, text)], (first + 1) % TAIL, history + [text])
  {
    var ring', first', history' := ring[first := Line(|history| + 1, text)], (first + 1) % TAIL, history + [text];
    var gone := Dropped(history');
    assert gone == Dropped(history) + 1;
    forall i | 0 <= i < |ring'| ensures ring'[Slot(first', i, |ring'|)] == Line(gone + i + 1, history'[gone + i]) {
      Rotate(first, i);
    }
  }

  lemma Rotate(first: nat, i: nat)
    requires first < TAIL && i < TAIL
    ensures (first + 1) % TAIL < TAIL
    ensures i + 1 < TAIL ==> Slot((first + 1) % TAIL, i, TAIL) == Slot(first, i + 1, TAIL) != first
    ensures i + 1 == TAIL ==> Slot((first + 1) % TAIL, i, TAIL) == first
  {}
}
