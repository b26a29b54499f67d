/** Exactly when the gate's copy can be torn (engine/jcc.go): pieces of the copy between writes of the publisher. */
module Tear {
  import opened Base

  // ---------------------------------------------------------------- pieces and writes

  /** What happens to a copy: the next n bytes of the publisher's file, or a write that gives the file other bytes. */
  datatype Event = Piece(n: nat) | Write

  function Writes(ev: seq<Event>): nat {
    if ev == [] then 0 else Writes(ev[..|ev| - 1]) + (if ev[|ev| - 1].Write? then 1 else 0)
  }

  function Taken(ev: seq<Event>): nat {
    if ev == [] then 0 else Taken(ev[..|ev| - 1]) + (if ev[|ev| - 1].Piece? then ev[|ev| - 1].n else 0)
  }

  predicate Sized(contents: seq<Bytes>, size: nat) { forall k | 0 <= k < |contents| :: |contents[k]| == size }

  /** The publisher's file starts as the first content and each write makes it the next. */
  predicate Fits(ev: seq<Event>, contents: seq<Bytes>, size: nat) {
    Writes(ev) < |contents| && Sized(contents, size) && Taken(ev) <= size
  }

  lemma FitsFront(ev: seq<Event>, contents: seq<Bytes>, size: nat)
    requires Fits(ev, contents, size) && ev != []
    ensures Fits(ev[..|ev| - 1], contents, size)
  {}

  /** What has arrived. */
  function Copy(ev: seq<Event>, contents: seq<Bytes>, size: nat): (got: Bytes)
    requires Fits(ev, contents, size)
    ensures |got| == Taken(ev)
  {
    if ev == [] then []
    else
      var front, last := ev[..|ev| - 1], ev[|ev| - 1];
      var got := Copy(front, contents, size);
      if last.Write? then got else got + contents[Writes(front)][|got|..|got| + last.n]
  }

  predicate Filled(e: Event) { e.Piece? && 0 < e.n }

  /** A write between two pieces that brought something. */
  ghost predicate Torn(ev: seq<Event>) {
    exists a: nat, b: nat, c: nat :: a < b < c < |ev| && Filled(ev[a]) && ev[b].Write? && Filled(ev[c])
  }

  /** Whatever the publisher's contents, the copy is one of them. */
  ghost predicate AlwaysWhole(ev: seq<Event>, size: nat) {
    forall contents: seq<Bytes> | |contents| == Writes(ev) + 1 && Fits(ev, contents, size) :: Copy(ev, contents, size) in contents
  }

  lemma FrontOf(ev: seq<Event>, k: nat)
    requires k < |ev|
    ensures ev[..|ev| - 1][..k] == ev[..k]
  {}

  /** The piece a byte came with, and the content it was taken from. */
  lemma {:induction false} ByteFrom(ev: seq<Event>, contents: seq<Bytes>, size: nat, x: nat) returns (c: nat)
    requires Fits(ev, contents, size) && x < Taken(ev)
    ensures c < |ev| && Filled(ev[c]) && Writes(ev[..c]) < |contents|
    ensures Copy(ev, contents, size)[x] == contents[Writes(ev[..c])][x]
    decreases |ev|
  {
    var front := ev[..|ev| - 1];
    FitsFront(ev, contents, size);
    if x < Taken(front) {
      c := ByteFrom(front, contents, size, x);
      FrontOf(ev, c);
    } else {
      c := |ev| - 1;
    }
  }

  /** The first byte a piece brought. */
  lemma {:induction false} ByteOf(ev: seq<Event>, contents: seq<Bytes>, size: nat, c: nat)
    requires Fits(ev, contents, size) && c < |ev| && Filled(ev[c])
    ensures Taken(ev[..c]) < Taken(ev) && Writes(ev[..c]) < |contents|
    ensures Copy(ev, contents, size)[Taken(ev[..c])] == contents[Writes(ev[..c])][Taken(ev[..c])]
    decreases |ev|
  {
    FitsFront(ev, contents, size);
    if c < |ev| - 1 {
      FrontOf(ev, c);
      ByteOf(ev[..|ev| - 1], contents, size, c);
    }
  }

  /** Writes are counted on the way, one at a time. */
  lemma {:induction false} WritesBetween(ev: seq<Event>, a: nat, c: nat)
    requires a <= c <= |ev|
    ensures Writes(ev[..a]) <= Writes(ev[..c])
    ensures (exists b: nat :: a <= b < c && ev[b].Write?) <==> Writes(ev[..a]) < Writes(ev[..c])
    decreases c
  {
    if a < c {
      WritesBetween(ev, a, c - 1);
      assert ev[..c][..c - 1] == ev[..c - 1];
      if b: nat :| a <= b < c - 1 && ev[b].Write? { assert a <= b < c && ev[b].Write?; }
    }
  }

  lemma UntornIsWhole(ev: seq<Event>, contents: seq<Bytes>, size: nat)
    requires Fits(ev, contents, size) && Taken(ev) == size && !Torn(ev)
    ensures Copy(ev, contents, size) in contents
  {
    var got := Copy(ev, contents, size);
    if size == 0 {
      assert got == contents[0];
    } else {
      var c0 := ByteFrom(ev, contents, size, 0);
      var k := Writes(ev[..c0]);
      forall x: nat | x < size ensures got[x] == contents[k][x] {
        var c := ByteFrom(ev, contents, size, x);
        SamePeriod(ev, c0, c);
      }
      assert got == contents[k];
    }
  }

  lemma SamePeriod(ev: seq<Event>, a: nat, c: nat)
    requires a < |ev| && c < |ev| && Filled(ev[a]) && Filled(ev[c]) && !Torn(ev)
    ensures Writes(ev[..a]) == Writes(ev[..c])
  {
    if a <= c { WritesBetween(ev, a, c); } else { WritesBetween(ev, c, a); }
  }

  /** Zeros before a write and ones after it. */
  function Marked(n: nat, w: nat, size: nat): (contents: seq<Bytes>)
    ensures |contents| == n && Sized(contents, size)
    ensures forall k, x | 0 <= k < n && 0 <= x < size :: contents[k][x] == if k <= w then 0 else 1
  {
    seq(n, k => if k <= w then seq(size, _ => 0) else seq(size, _ => 1))
  }

  lemma NotConstant(got: Bytes, contents: seq<Bytes>, x: nat, y: nat)
    requires x < |got| && y < |got| && got[x] != got[y]
    requires forall k | 0 <= k < |contents| :: |contents[k]| == |got| && contents[k][x] == contents[k][y]
    ensures got !in contents
  {}

  lemma TornIsNot(ev: seq<Event>, size: nat) returns (contents: seq<Bytes>)
    requires Torn(ev) && Taken(ev) == size
    ensures |contents| == Writes(ev) + 1 && Fits(ev, contents, size) && Copy(ev, contents, size) !in contents
  {
    var a: nat, b: nat, c: nat :| a < b < c < |ev| && Filled(ev[a]) && ev[b].Write? && Filled(ev[c]);
    contents := Marked(Writes(ev) + 1, Writes(ev[..b]), size);
    MarkedTears(ev, contents, size, a, b, c);
  }

  lemma MarkedTears(ev: seq<Event>, contents: seq<Bytes>, size: nat, a: nat, b: nat, c: nat)
    requires a < b < c < |ev| && Filled(ev[a]) && ev[b].Write? && Filled(ev[c])
    requires Fits(ev, contents, size) && Taken(ev) == size && contents == Marked(|contents|, Writes(ev[..b]), size)
    ensures Copy(ev, contents, size) !in contents
  {
    ByteOf(ev, contents, size, a);
    ByteOf(ev, contents, size, c);
    WritesBetween(ev, a, b);
    WritesBetween(ev, b, c);
    NotConstant(Copy(ev, contents, size), contents, Taken(ev[..a]), Taken(ev[..c]));
  }

  /** A copy of the reported size is one of the publisher's contents, whatever those are, if and only if no write lies
      between two pieces that brought something. */
  lemma TearsExactly(ev: seq<Event>, size: nat)
    requires Taken(ev) == size
    ensures AlwaysWhole(ev, size) <==> !Torn(ev)
  {
    if Torn(ev) {
      var contents := TornIsNot(ev, size);
    } else {
      forall contents: seq<Bytes> | |contents| == Writes(ev) + 1 && Fits(ev, contents, size) ensures Copy(ev, contents, size) in contents {
        UntornIsWhole(ev, contents, size);
      }
    }
  }

  lemma Snoc(ev: seq<Event>, e: Event)
    ensures Writes(ev + [e]) == Writes(ev) + (if e.Write? then 1 else 0)
    ensures Taken(ev + [e]) == Taken(ev) + (if e.Piece? then e.n else 0)
  {
    assert (ev + [e])[..|ev + [e]| - 1] == ev;
  }

  /** Later contents do not matter to what has arrived. */
  lemma {:induction false} CopyOfFront(ev: seq<Event>, contents: seq<Bytes>, more: seq<Bytes>, size: nat)
    requires Fits(ev, contents, size) && Sized(more, size)
    ensures Fits(ev, contents + more, size) && Copy(ev, contents + more, size) == Copy(ev, contents, size)
    decreases |ev|
  {
    if ev != [] { CopyOfFront(ev[..|ev| - 1], contents, more, size); }
  }

  lemma NextPiece(ev: seq<Event>, cs: seq<Bytes>, size: nat, n: nat)
    requires Fits(ev, cs, size) && Taken(ev) + n <= size
    ensures Fits(ev + [Piece(n)], cs, size)
    ensures var got := Copy(ev, cs, size); Copy(ev + [Piece(n)], cs, size) == got + cs[Writes(ev)][|got|..|got| + n]
  {
    Snoc(ev, Piece(n));
    assert (ev + [Piece(n)])[..|ev + [Piece(n)]| - 1] == ev;
  }

  lemma WriteBringsNothing(ev: seq<Event>, cs: seq<Bytes>, size: nat)
    requires Fits(ev + [Write], cs, size)
    ensures Fits(ev, cs, size) && Copy(ev + [Write], cs, size) == Copy(ev, cs, size)
  {
    Snoc(ev, Write);
    assert (ev + [Write])[..|ev + [Write]| - 1] == ev;
  }

  lemma NextWrite(ev: seq<Event>, cs: seq<Bytes>, c: Bytes, size: nat)
    requires Fits(ev, cs, size) && |c| == size && |cs| == Writes(ev) + 1
    ensures Fits(ev + [Write], cs + [c], size) && Copy(ev + [Write], cs + [c], size) == Copy(ev, cs, size)
  {
    Snoc(ev, Write);
    CopyOfFront(ev, cs, [c], size);
    WriteBringsNothing(ev, cs + [c], size);
  }
}
