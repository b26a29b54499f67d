/** The deletion pass: local rows that the last walk no longer lists, read a page at a time in path order while the rows
    of visited files are being forgotten (engine/reap.go over store/diff.go). */
module Deletion {
  import opened Base
  import opened PathOrder

  /** Local truth. */
  type Files = map<string, FileRow>

  /** The rows the walk did not find. */
  function Vanished(files: Files, manifest: set<string>): set<string> { files.Keys - manifest }

  /** Those behind the cursor, in order, at most a page of them and none left out in between. */
  ghost predicate IsPage(page: seq<string>, all: set<string>, after: string, limit: nat) {
    && InOrder(page) && |page| <= limit
    && (forall p | p in page :: p in all && Less(after, p))
    && forall p | p in all && Less(after, p) && p !in page :: |page| == limit && forall q | q in page :: Less(q, p)
  }

  /** The least vanished path behind the cursor. */
  method LeastAfter(all: set<string>, after: string) returns (found: bool, least: string)
    ensures found ==> least in all && Less(after, least) && forall p | p in all && Less(after, p) :: AtMost(least, p)
    ensures !found ==> forall p | p in all :: !Less(after, p)
  {
    found, least := false, "";
    var left := all;
    while left != {}
      invariant left <= all
      invariant found ==> least in all && Less(after, least) && forall p | p in all - left && Less(after, p) :: AtMost(least, p)
      invariant !found ==> forall p | p in all - left :: !Less(after, p)
      decreases left
    {
      var p :| p in left;
      left := left - {p};
      if Less(after, p) && (!found || Less(p, least)) {
        forall q | q in all - left && Less(after, q) ensures AtMost(p, q) {
          if found && q != p && least != q { Transitive(p, least, q); }
        }
        found, least := true, p;
      } else if found {
        Total(p, least);
      }
    }
  }

  lemma PageGrows(page: seq<string>, p: string, all: set<string>, after: string, limit: nat)
    requires IsPage(page, all, after, |page|) && |page| < limit && p in all && p !in page && Less(after, p)
    requires forall q | q in all && Less(after, q) && q !in page :: AtMost(p, q)
    ensures IsPage(page + [p], all, after, |page| + 1)
  {
    Snoc(page, p);
    forall q | q in all && Less(after, q) && q !in page + [p] ensures forall x | x in page + [p] :: Less(x, q) {
      assert AtMost(p, q);
    }
  }

  const PAGE := 1000

  function PageSize(limit: int): nat { if limit <= 0 then PAGE else limit }

  /** One page of the vanished rows behind the cursor. */
  method VanishedPage(files: Files, manifest: set<string>, after: string, max: int) returns (page: seq<string>)
    ensures IsPage(page, Vanished(files, manifest), after, PageSize(max))
    ensures |page| <= if max <= 0 then 1000 else max
    ensures |page| < (if max <= 0 then 1000 else max) ==> forall p | p in files && p !in manifest && Less(after, p) :: p in page
    ensures page == [] ==> forall p | p in Vanished(files, manifest) :: !Less(after, p)
  {
    var all, limit := Vanished(files, manifest), PageSize(max);
    page := [];
    var cursor, more := after, true;
    while more && |page| < limit
      invariant |page| <= limit && IsPage(page, all, after, |page|) && AtMost(after, cursor)
      invariant forall p | p in all && Less(after, p) && p !in page :: Less(cursor, p)
      invariant forall p | p in page :: AtMost(p, cursor)
      invariant page == [] ==> cursor == after
      invariant !more ==> forall p | p in all && Less(after, p) :: p in page
      decreases more, limit - |page|
    {
      var found, least := LeastAfter(all, cursor);
      if !found {
        more := false;
      } else {
        Irreflexive(cursor);
        if cursor != after { Transitive(after, cursor, least); }
        NotYet(page, cursor, least);
        PageGrows(page, least, all, after, limit);
        forall p | p in all && Less(after, p) && p !in page + [least] ensures Less(least, p) {
          assert AtMost(least, p);
        }
        forall p | p in page + [least] ensures AtMost(p, least) {
          if p != least && p != cursor { Transitive(p, cursor, least); }
        }
        page := page + [least];
        cursor := least;
      }
    }
  }

  lemma NotYet(page: seq<string>, cursor: string, least: string)
    requires Less(cursor, least) && forall p | p in page :: AtMost(p, cursor)
    ensures least !in page
  {
    if least in page { Asymmetric(cursor, least); }
  }

  // ---------------------------------------------------------------- moving the cursor

  /** The cursor before entry k of a page. */
  function Cursor(page: seq<string>, start: string, k: nat): string
    requires k <= |page|
  {
    if k == 0 then start else page[k - 1]
  }

  /** Nothing lies between two neighbours of a page, or before its first. */
  lemma NextInPage(page: seq<string>, all: set<string>, start: string, limit: nat, k: nat, p: string)
    requires IsPage(page, all, start, limit) && k < |page| && p in all
    ensures AtMost(p, page[k]) <==> AtMost(p, Cursor(page, start, k)) || p == page[k]
  {
    var cursor := Cursor(page, start, k);
    assert Less(cursor, page[k]);
    if AtMost(p, cursor) && p != cursor { Transitive(p, cursor, page[k]); }
    if AtMost(p, page[k]) && p != page[k] {
      Total(p, cursor);
      Asymmetric(p, page[k]);
      if Less(cursor, p) { NothingBetween(page, all, start, limit, k, p); }
    }
  }

  lemma NothingBetween(page: seq<string>, all: set<string>, start: string, limit: nat, k: nat, p: string)
    requires IsPage(page, all, start, limit) && k < |page| && p in all && Less(Cursor(page, start, k), p)
    ensures AtMost(page[k], p)
  {
    if 0 < k { Transitive(start, page[k - 1], p); }
    assert page[k] in page;
    if p in page {
      var j :| 0 <= j < |page| && page[j] == p;
      if j < k {
        Asymmetric(page[k - 1], p);
      }
    }
  }

  /** What lies behind the cursor decides the page. */
  lemma PageOfRest(page: seq<string>, all: set<string>, all': set<string>, after: string, limit: nat)
    requires IsPage(page, all, after, limit) && forall p | Less(after, p) :: p in all <==> p in all'
    ensures IsPage(page, all', after, limit)
  {}
}
