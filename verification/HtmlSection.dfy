/**
 * Removing one section of a page from its text: from the first occurrence of
 * a marker to the closing tag that balances the opening tags seen since. Tags
 * are the plain character runs the code searches for, wherever they occur.
 */
module HtmlSection {
  const OPEN := "<section"
  const CLOSE := "</section>"

  predicate At(s: string, t: string, i: nat) {
    i + |t| <= |s| && s[i..i + |t|] == t
  }

  predicate FirstAt(s: string, t: string, from: nat, i: nat) {
    from <= i && At(s, t, i) && forall j: nat | from <= j < i :: !At(s, t, j)
  }

  ghost predicate NoneFrom(s: string, t: string, from: nat) {
    forall j: nat | from <= j :: !At(s, t, j)
  }

  /** Python's find: the first occurrence at or after from, or -1. */
  method Find(s: string, t: string, from: nat) returns (i: int)
    ensures if i == -1 then NoneFrom(s, t, from) else i >= 0 && FirstAt(s, t, from, i)
  {
    i := from;
    while i + |t| <= |s|
      invariant i >= from && forall j: nat | from <= j < i :: !At(s, t, j)
    {
      if s[i..i + |t|] == t {
        return;
      }
      i := i + 1;
    }
    i := -1;
  }

  /** Occurrences of t in s that start in [a, b). */
  function Starts(s: string, t: string, a: nat, b: nat): nat
    requires a <= b
  {
    if a == b then 0 else Starts(s, t, a, b - 1) + if At(s, t, b - 1) then 1 else 0
  }

  /** How many occurrences of t a text holds. */
  function Count(s: string, t: string): nat {
    Starts(s, t, 0, |s|)
  }

  function Balance(s: string): int {
    Count(s, OPEN) - Count(s, CLOSE)
  }

  /** Opening minus closing tags that start in [a, x). */
  function Depth(s: string, a: nat, x: nat): int
    requires a <= x
  {
    Starts(s, OPEN, a, x) - Starts(s, CLOSE, a, x)
  }

  /** The section that starts at a ends at e: after the first closing tag that leaves none open. */
  predicate SectionEnd(s: string, a: nat, e: nat) {
    && a + |CLOSE| <= e && At(s, CLOSE, e - |CLOSE|) && Depth(s, a, e) <= 0
    && forall x: nat | a + |CLOSE| <= x < e && At(s, CLOSE, x - |CLOSE|) :: Depth(s, a, x) > 0
  }

  predicate IsNewline(c: char) {
    c == '\r' || c == '\n'
  }

  /** Line ends after a section go with it. */
  predicate NewlinesEnd(s: string, e: nat, b: nat) {
    && e <= b <= |s| && (forall i | e <= i < b :: IsNewline(s[i]))
    && (b < |s| ==> !IsNewline(s[b]))
  }

  predicate Cut(html: string, marker: string, a: nat, e: nat, b: nat) {
    FirstAt(html, marker, 0, a) && SectionEnd(html, a, e) && NewlinesEnd(html, e, b)
  }

  /** The outcome of a removal, without saying how it is found. */
  ghost predicate Removal(html: string, marker: string, r: string) {
    if exists a: nat, e: nat :: FirstAt(html, marker, 0, a) && SectionEnd(html, a, e)
    then exists a: nat, e: nat, b: nat :: Cut(html, marker, a, e, b) && r == html[..a] + html[b..]
    else r == html
  }

  // ---------------------------------------------------------------- counting

  lemma {:induction false} StartsSplit(s: string, t: string, a: nat, b: nat, c: nat)
    requires a <= b <= c
    ensures Starts(s, t, a, c) == Starts(s, t, a, b) + Starts(s, t, b, c)
  {
    if b < c {
      StartsSplit(s, t, a, b, c - 1);
    }
  }

  lemma {:induction false} StartsNone(s: string, t: string, a: nat, b: nat)
    requires a <= b
    ensures Starts(s, t, a, b) == 0 <==> forall i: nat | a <= i < b :: !At(s, t, i)
  {
    hide At;
    if a < b {
      StartsNone(s, t, a, b - 1);
    }
  }

  /** A stretch of text holds the same occurrences wherever it lies. */
  lemma {:induction false} StartsSame(s: string, r: string, t: string, a: nat, x: nat, n: nat)
    requires forall i: nat | a <= i < a + n :: At(s, t, i) == At(r, t, i - a + x)
    ensures Starts(s, t, a, a + n) == Starts(r, t, x, x + n)
  {
    if n > 0 {
      StartsSame(s, r, t, a, x, n - 1);
    }
  }

  predicate IsTag(t: string) {
    t == OPEN || t == CLOSE
  }

  /** A tag has its angle bracket in front only, and the slash after it tells the two apart. */
  lemma TagChars(s: string, t: string, p: nat)
    requires IsTag(t) && At(s, t, p)
    ensures forall j | p <= j < p + |t| :: s[j] != ' '
    ensures s[p] == '<' && (forall j | p < j < p + |t| :: s[j] != '<') && (t == CLOSE <==> s[p + 1] == '/')
  {
    forall j | p <= j < p + |t| ensures s[j] == t[j - p] {
      assert s[j] == s[p..p + |t|][j - p];
    }
  }

  /** So tags never overlap. */
  lemma NoOverlap(s: string, t: string, u: string, p: nat, i: nat)
    requires IsTag(t) && IsTag(u) && At(s, t, p) && At(s, u, i) && (t, p) != (u, i)
    ensures p + |t| <= i || i + |u| <= p
  {
    TagChars(s, t, p);
    TagChars(s, u, i);
    hide At;
  }

  lemma StartsOne(s: string, t: string, a: nat, p: nat, b: nat)
    requires a <= p < b && At(s, t, p) && forall i: nat | a <= i < b && i != p :: !At(s, t, i)
    ensures Starts(s, t, a, b) == 1
  {
    hide At;
    StartsSplit(s, t, a, p, b);
    StartsSplit(s, t, p, p + 1, b);
    StartsNone(s, t, a, p);
    StartsNone(s, t, p + 1, b);
    assert Starts(s, t, p, p) == 0;
  }

  /** Passing over the first tag at or after scan. */
  lemma PassTag(s: string, t: string, u: string, scan: nat, p: nat)
    requires IsTag(t) && IsTag(u) && t != u && FirstAt(s, t, scan, p)
    requires forall j: nat | scan <= j < p :: !At(s, u, j)
    ensures Starts(s, t, scan, p + |t|) == 1 && Starts(s, u, scan, p + |t|) == 0
  {
    hide At, Starts;
    forall i: nat | scan <= i < p + |t| ensures (At(s, t, i) ==> i == p) && !At(s, u, i) {
      if At(s, t, i) && i > p { NoOverlap(s, t, t, p, i); }
      if At(s, u, i) { NoOverlap(s, t, u, p, i); }
    }
    StartsOne(s, t, scan, p, p + |t|);
    StartsNone(s, u, scan, p + |t|);
  }

  // ---------------------------------------------------------------- the code

  /** The search so far: the count is right and no closing tag before scan ended the section. */
  ghost predicate Searching(s: string, a: nat, scan: nat, depth: int) {
    && a <= scan <= |s| && depth == Depth(s, a, scan)
    && forall q: nat | a <= q < scan && At(s, CLOSE, q) :: q + |CLOSE| <= scan && Depth(s, a, q + |CLOSE|) > 0
  }

  lemma DepthSplit(s: string, a: nat, scan: nat, x: nat)
    requires a <= scan <= x
    ensures Depth(s, a, x) == Depth(s, a, scan) + Starts(s, OPEN, scan, x) - Starts(s, CLOSE, scan, x)
  {
    StartsSplit(s, OPEN, a, scan, x);
    StartsSplit(s, CLOSE, a, scan, x);
  }

  lemma PassOpen(s: string, a: nat, scan: nat, depth: int, p: nat)
    requires Searching(s, a, scan, depth) && FirstAt(s, OPEN, scan, p)
    requires forall j: nat | scan <= j < p :: !At(s, CLOSE, j)
    ensures Searching(s, a, p + |OPEN|, depth + 1)
  {
    Fits(s, OPEN, p);
    PassTag(s, OPEN, CLOSE, scan, p);
    DepthSplit(s, a, scan, p + |OPEN|);
    StartsNone(s, CLOSE, scan, p + |OPEN|);
    hide At, Depth, Starts;
  }

  lemma PassClose(s: string, a: nat, scan: nat, depth: int, q: nat)
    requires Searching(s, a, scan, depth) && FirstAt(s, CLOSE, scan, q)
    requires forall j: nat | scan <= j < q :: !At(s, OPEN, j)
    ensures Depth(s, a, q + |CLOSE|) == depth - 1
    ensures forall i: nat | a <= i < q + |CLOSE| && At(s, CLOSE, i) && i != q ::
              i + |CLOSE| <= scan && Depth(s, a, i + |CLOSE|) > 0
  {
    PassTag(s, CLOSE, OPEN, scan, q);
    DepthSplit(s, a, scan, q + |CLOSE|);
    hide At, Depth, Starts;
    forall i: nat | a <= i < q + |CLOSE| && At(s, CLOSE, i) && i != q ensures i < scan {
      if i > q { NoOverlap(s, CLOSE, CLOSE, q, i); }
    }
  }

  lemma KeepSearching(s: string, a: nat, scan: nat, depth: int, q: nat)
    requires Searching(s, a, scan, depth) && FirstAt(s, CLOSE, scan, q) && depth > 1
    requires forall j: nat | scan <= j < q :: !At(s, OPEN, j)
    ensures Searching(s, a, q + |CLOSE|, depth - 1)
  {
    Fits(s, CLOSE, q);
    PassClose(s, a, scan, depth, q);
    hide At, Depth, Starts;
  }

  lemma EndFound(s: string, a: nat, scan: nat, depth: int, q: nat)
    requires Searching(s, a, scan, depth) && FirstAt(s, CLOSE, scan, q) && depth <= 1
    requires forall j: nat | scan <= j < q :: !At(s, OPEN, j)
    ensures SectionEnd(s, a, q + |CLOSE|)
  {
    PassClose(s, a, scan, depth, q);
    hide At, Depth, Starts;
    var x := q + |CLOSE|;
    assert x - |CLOSE| == q;
    forall e: nat | a + |CLOSE| <= e < x && At(s, CLOSE, e - |CLOSE|) ensures Depth(s, a, e) > 0 {
      var i: nat := e - |CLOSE|;
      assert At(s, CLOSE, i) && i != q;
    }
  }

  lemma NoEnd(s: string, a: nat, scan: nat, depth: int, e: nat)
    requires Searching(s, a, scan, depth) && NoneFrom(s, CLOSE, scan)
    ensures !SectionEnd(s, a, e)
  {
    hide At, Depth;
    if a + |CLOSE| <= e && At(s, CLOSE, e - |CLOSE|) {
      assert e - |CLOSE| < scan;
    }
  }

  /** A marker that was found is found in one place. */
  lemma FirstIsOne(s: string, t: string, a: nat, b: nat)
    requires FirstAt(s, t, 0, a) && FirstAt(s, t, 0, b)
    ensures a == b
  {
    hide At;
    assert At(s, t, a) && At(s, t, b);
  }

  lemma NothingToCut(html: string, marker: string, start: nat, scan: nat, depth: int)
    requires FirstAt(html, marker, 0, start) && Searching(html, start, scan, depth) && NoneFrom(html, CLOSE, scan)
    ensures Removal(html, marker, html)
  {
    hide FirstAt, SectionEnd, Searching, NoneFrom;
    forall a: nat, e: nat | FirstAt(html, marker, 0, a) ensures !SectionEnd(html, a, e) {
      FirstIsOne(html, marker, a, start);
      NoEnd(html, start, scan, depth, e);
    }
  }

  lemma NoneBeyond(s: string, t: string, scan: nat)
    requires scan >= |s| && t != ""
    ensures NoneFrom(s, t, scan)
  {}

  lemma SearchStarts(s: string, marker: string, a: nat)
    requires FirstAt(s, marker, 0, a)
    ensures Searching(s, a, a, 0)
  {}

  lemma Fits(s: string, t: string, i: nat)
    requires At(s, t, i)
    ensures i + |t| <= |s|
  {}

  lemma NewlinesStop(s: string, e: nat, b: nat)
    requires e <= b <= |s| && (forall i | e <= i < b :: IsNewline(s[i])) && (b < |s| ==> !IsNewline(s[b]))
    ensures NewlinesEnd(s, e, b)
  {}

  method RemoveHtmlSection(html: string, marker: string) returns (r: string)
    ensures Removal(html, marker, r)
  {
    hide At, SectionEnd, Searching, Depth, Starts, NewlinesEnd;
    var start := Find(html, marker, 0);
    if start < 0 {
      return html;
    }
    var depth, scan := 0, start;
    SearchStarts(html, marker, start);
    while scan < |html|
      invariant start <= scan <= |html| && Searching(html, start, scan, depth)
    {
      var nextOpen := Find(html, OPEN, scan);
      var nextClose := Find(html, CLOSE, scan);
      if nextClose < 0 {
        NothingToCut(html, marker, start, scan, depth);
        return html;
      }
      Fits(html, CLOSE, nextClose);
      if nextOpen >= 0 && nextOpen < nextClose {
        Fits(html, OPEN, nextOpen);
        PassOpen(html, start, scan, depth, nextOpen);
        depth := depth + 1;
        scan := nextOpen + 8;
        continue;
      }
      if depth > 1 {
        KeepSearching(html, start, scan, depth, nextClose);
      } else {
        EndFound(html, start, scan, depth, nextClose);
      }
      depth := depth - 1;
      scan := nextClose + |CLOSE|;
      if depth <= 0 {
        ghost var e := scan;
        while scan < |html| && (html[scan] == '\r' || html[scan] == '\n')
          invariant e <= scan <= |html| && forall i | e <= i < scan :: IsNewline(html[i])
        {
          scan := scan + 1;
        }
        assert NewlinesEnd(html, e, scan) by { NewlinesStop(html, e, scan); }
        assert Cut(html, marker, start, e, scan);
        return html[..start] + html[scan..];
      }
    }
    NoneBeyond(html, CLOSE, scan);
    NothingToCut(html, marker, start, scan, depth);
    return html;
  }

  // ---------------------------------------------------------------- what goes

  /** Where the starts end, from a on, of the occurrences of t that fit before x. */
  function Fitting(t: string, a: nat, x: nat): (y: nat)
    requires a <= x && t != ""
    ensures a <= y <= x
  {
    if a + |t| <= x then x + 1 - |t| else a
  }

  /** Occurrences of t in s that reach over position x. */
  function Straddling(s: string, t: string, x: nat): nat
    requires t != ""
  {
    Starts(s, t, Fitting(t, 0, x), x)
  }

  /** Opening minus closing tags that reach over position x. */
  function Reach(s: string, x: nat): int {
    Straddling(s, OPEN, x) - Straddling(s, CLOSE, x)
  }

  lemma SliceOfSlice(s: string, a: nat, b: nat, i: nat, n: nat)
    requires a <= i && i + n <= b <= |s|
    ensures s[a..b][i - a..i - a + n] == s[i..i + n]
  {
    var x, y := s[a..b][i - a..i - a + n], s[i..i + n];
    assert |x| == |y|;
    forall k | 0 <= k < n ensures x[k] == y[k] {
      assert x[k] == s[a..b][i - a + k] == s[i + k];
    }
  }

  lemma AtSlice(s: string, t: string, a: nat, b: nat, i: nat)
    requires a <= i && i + |t| <= b <= |s|
    ensures At(s, t, i) == At(s[a..b], t, i - a)
  {
    SliceOfSlice(s, a, b, i, |t|);
  }

  /** The tags of a slice are those that start in it, without those that reach out of it. */
  lemma SliceCount(s: string, t: string, a: nat, b: nat)
    requires a <= b <= |s| && t != ""
    ensures Count(s[a..b], t) == Starts(s, t, a, Fitting(t, a, b))
  {
    hide Starts, At;
    var n := Fitting(t, a, b) - a;
    forall i: nat | a <= i < a + n ensures At(s, t, i) == At(s[a..b], t, i - a + 0) {
      AtSlice(s, t, a, b, i);
    }
    StartsSame(s, s[a..b], t, a, 0, n);
    forall i: nat | n <= i < b - a ensures !At(s[a..b], t, i) {
      if At(s[a..b], t, i) { Fits(s[a..b], t, i); }
    }
    StartsNone(s[a..b], t, n, b - a);
    StartsSplit(s[a..b], t, 0, n, b - a);
  }

  /** No tag reaches out of a slice that ends with a closing tag and line ends. */
  lemma NothingSticksOut(s: string, t: string, a: nat, e: nat, b: nat)
    requires IsTag(t) && a + |CLOSE| <= e && At(s, CLOSE, e - |CLOSE|) && NewlinesEnd(s, e, b)
    ensures forall i: nat | i < b && At(s, t, i) :: i + |t| <= e
  {
    forall i: nat | i < b && At(s, t, i) ensures i + |t| <= e {
      TagChars(s, t, i);
      if (t, i) != (CLOSE, e - |CLOSE|) { NoOverlap(s, CLOSE, t, e - |CLOSE|, i); }
    }
  }

  lemma SliceTags(html: string, marker: string, a: nat, e: nat, b: nat, t: string)
    requires Cut(html, marker, a, e, b) && IsTag(t)
    ensures Count(html[a..b], t) == Starts(html, t, a, b) == Starts(html, t, a, e)
  {
    hide At;
    NothingSticksOut(html, t, a, e, b);
    SliceCount(html, t, a, b);
    hide Starts, Count;
    StartsNone(html, t, e, b);
    StartsSplit(html, t, a, e, b);
    StartsNone(html, t, Fitting(t, a, b), b);
    StartsSplit(html, t, a, Fitting(t, a, b), b);
  }

  /** The first tag from a on opens a section, and it is at p. */
  ghost predicate OpensAt(html: string, a: nat, p: nat) {
    FirstAt(html, OPEN, a, p) && forall j: nat | a <= j < p :: !At(html, CLOSE, j)
  }

  ghost predicate OpensFirst(html: string, a: nat) {
    exists p: nat :: OpensAt(html, a, p)
  }

  lemma {:induction false} FirstExists(s: string, t: string, a: nat, q: nat) returns (p: nat)
    requires a <= q && At(s, t, q)
    ensures p <= q && FirstAt(s, t, a, p)
  {
    hide At;
    if i: nat :| a <= i < q && At(s, t, i) {
      p := FirstExists(s, t, a, i);
    } else {
      p := q;
    }
  }

  /** Between the first opening tag and the end of the section, something is always open. */
  lemma {:induction false} StaysOpen(s: string, a: nat, e: nat, p: nat, x: nat)
    requires SectionEnd(s, a, e) && OpensAt(s, a, p) && p < x <= e - |CLOSE|
    ensures Depth(s, a, x) > 0
  {
    hide At, Starts, Depth;
    var i: nat := x - 1;
    DepthSplit(s, a, i, x);
    if At(s, CLOSE, i) {
      NoOverlap(s, OPEN, CLOSE, p, i);
      NoOverlap(s, CLOSE, CLOSE, i, e - |CLOSE|);
      var y := i + |CLOSE|;
      assert y - |CLOSE| == i;
      AfterTag(s, CLOSE, i);
      DepthSplit(s, a, x, y);
    } else if p < i {
      StartsNone(s, CLOSE, i, x);
      StaysOpen(s, a, e, p, i);
    } else {
      AtFirstOpen(s, a, p);
    }
  }

  /** No tag starts inside a tag. */
  lemma AfterTag(s: string, t: string, i: nat)
    requires IsTag(t) && At(s, t, i)
    ensures Starts(s, OPEN, i + 1, i + |t|) == 0 == Starts(s, CLOSE, i + 1, i + |t|)
  {
    hide At, Starts;
    forall j: nat, u | i < j < i + |t| && u in {OPEN, CLOSE} ensures !At(s, u, j) {
      if At(s, u, j) { NoOverlap(s, t, u, i, j); }
    }
    StartsNone(s, OPEN, i + 1, i + |t|);
    StartsNone(s, CLOSE, i + 1, i + |t|);
  }

  lemma AtFirstOpen(s: string, a: nat, p: nat)
    requires OpensAt(s, a, p)
    ensures Depth(s, a, p + 1) == 1
  {
    hide At;
    StartsOne(s, OPEN, a, p, p + 1);
    if At(s, CLOSE, p) { NoOverlap(s, OPEN, CLOSE, p, p); }
    StartsNone(s, CLOSE, a, p + 1);
  }

  /** At its end the section is balanced, unless nothing was ever opened in it. */
  lemma EndDepth(s: string, a: nat, e: nat)
    requires SectionEnd(s, a, e)
    ensures Depth(s, a, e) == if OpensFirst(s, a) then 0 else -1
  {
    hide At, Starts, Depth;
    var q: nat := e - |CLOSE|;
    if p: nat :| OpensAt(s, a, p) {
      if q <= p { NoOverlap(s, OPEN, CLOSE, p, q); }
      StaysOpen(s, a, e, p, q);
      PassOneClose(s, a, q);
    } else {
      var q0 := FirstExists(s, CLOSE, a, q);
      NoOpenBefore(s, a, q0);
      PassTag(s, CLOSE, OPEN, a, q0);
      DepthIs(s, a, q0 + |CLOSE|);
      assert q0 + |CLOSE| - |CLOSE| == q0;
    }
  }

  lemma DepthIs(s: string, a: nat, x: nat)
    requires a <= x
    ensures Depth(s, a, x) == Starts(s, OPEN, a, x) - Starts(s, CLOSE, a, x)
  {}

  lemma NoOpenBefore(s: string, a: nat, q: nat)
    requires FirstAt(s, CLOSE, a, q)
    ensures OpensFirst(s, a) || forall j: nat | a <= j < q :: !At(s, OPEN, j)
  {
    hide At;
    if j: nat :| a <= j < q && At(s, OPEN, j) {
      var p := FirstExists(s, OPEN, a, j);
      assert OpensAt(s, a, p);
    }
  }

  lemma PassOneClose(s: string, a: nat, q: nat)
    requires a <= q && At(s, CLOSE, q)
    ensures Depth(s, a, q + |CLOSE|) == Depth(s, a, q) - 1
  {
    hide At, Depth, Starts;
    PassTag(s, CLOSE, OPEN, q, q);
    DepthSplit(s, a, q, q + |CLOSE|);
  }

  /**
   * The removed slice holds as many opening as closing tags exactly when the
   * first tag from the marker on is an opening one; else it is one closing tag
   * and none opening.
   */
  lemma SliceBalanced(html: string, marker: string, a: nat, e: nat, b: nat)
    requires Cut(html, marker, a, e, b)
    ensures Balance(html[a..b]) == if OpensFirst(html, a) then 0 else -1
  {
    EndDepth(html, a, e);
    SliceTags(html, marker, a, e, b, OPEN);
    SliceTags(html, marker, a, e, b, CLOSE);
    hide *;
    DepthIs(html, a, e);
    BalanceIs(html[a..b]);
  }

  /** It does happen: a marker followed by a stray closing tag. */
  lemma StrayClose()
    ensures Cut("x</section>", "x", 0, 11, 11) && Balance("x</section>"[0..11]) == -1
  {
    var s := "x</section>";
    assert s[0..1] == "x" && s[1..11] == CLOSE;
    assert At(s, "x", 0) && At(s, CLOSE, 1);
    forall j: nat ensures !At(s, OPEN, j) {
      if At(s, OPEN, j) { TagChars(s, OPEN, j); }
    }
    if At(s, CLOSE, 0) { TagChars(s, CLOSE, 0); }
    StartsNone(s, OPEN, 0, 11);
    hide Starts, At;
    assert !At(s, CLOSE, 10 - |CLOSE|);
    SliceBalanced(s, "x", 0, 11, 11);
  }

  lemma BalanceIs(s: string)
    ensures Balance(s) == Count(s, OPEN) - Count(s, CLOSE)
  {}

  /** It is the shortest: no shorter slice from the marker that opens anything closes it all. */
  lemma SliceShortest(html: string, a: nat, e: nat, x: nat)
    requires SectionEnd(html, a, e) && a <= x < e <= |html| && Count(html[a..x], OPEN) > 0
    ensures Balance(html[a..x]) > 0
  {
    hide At, Starts, Depth, Count;
    var yo, yc := Fitting(OPEN, a, x), Fitting(CLOSE, a, x);
    SliceCount(html, OPEN, a, x);
    SliceCount(html, CLOSE, a, x);
    StartsNone(html, OPEN, a, yo);
    var i: nat :| a <= i < yo && At(html, OPEN, i);
    var p := FirstExists(html, OPEN, a, i);
    EarlyOpen(html, a, e, p, x);
    StartsSplit(html, OPEN, a, yc, yo);
    DepthIs(html, a, yc);
    if p < yc {
      StaysOpen(html, a, e, p, yc);
    } else {
      StartsNone(html, CLOSE, a, yc);
    }
  }

  lemma NotDone(s: string, a: nat, e: nat, q: nat)
    requires SectionEnd(s, a, e) && a <= q && At(s, CLOSE, q) && q + |CLOSE| < e
    ensures Depth(s, a, q + |CLOSE|) > 0
  {
    hide At, Depth;
    assert q + |CLOSE| - |CLOSE| == q;
  }

  /** An opening tag inside the section means it began with one. */
  lemma EarlyOpen(s: string, a: nat, e: nat, p: nat, x: nat)
    requires SectionEnd(s, a, e) && FirstAt(s, OPEN, a, p) && p + |OPEN| <= x < e
    ensures OpensAt(s, a, p)
  {
    hide At, Starts, Depth;
    forall j: nat | a <= j < p ensures !At(s, CLOSE, j) {
      if At(s, CLOSE, j) {
        var q0 := FirstExists(s, CLOSE, a, j);
        PassTag(s, CLOSE, OPEN, a, q0);
        DepthIs(s, a, q0 + |CLOSE|);
        NoOverlap(s, OPEN, CLOSE, p, q0);
        NotDone(s, a, e, q0);
      }
    }
  }

  // ---------------------------------------------------------------- what stays

  /** What is left holds the tags of both sides, plus those that reach over the join. */
  lemma JoinCount(html: string, t: string, a: nat, b: nat)
    requires a <= b <= |html| && t != ""
    ensures var r := html[..a] + html[b..];
            Count(r, t) - Straddling(r, t, a)
            == Starts(html, t, 0, a) - Straddling(html, t, a) + Starts(html, t, b, |html|)
  {
    hide Starts, At;
    var r := html[..a] + html[b..];
    var y := Fitting(t, 0, a);
    forall i: nat | i < y ensures At(html, t, i) == At(r, t, i - 0 + 0) {
      AtSlice(html, t, 0, a, i);
      AtSlice(r, t, 0, a, i);
      assert html[0..a] == r[0..a];
    }
    StartsSame(html, r, t, 0, 0, y);
    forall i: nat | b <= i < |html| ensures At(html, t, i) == At(r, t, i - b + a) {
      AtSuffix(html, r, t, b, a, i);
    }
    StartsSame(html, r, t, b, a, |html| - b);
    StartsSplit(html, t, 0, y, a);
    StartsSplit(r, t, 0, y, a);
    StartsSplit(r, t, 0, a, |r|);
  }

  lemma AtSuffix(s: string, r: string, t: string, b: nat, a: nat, i: nat)
    requires b <= i <= |s| && a <= |r| && s[b..] == r[a..]
    ensures At(s, t, i) == At(r, t, i - b + a)
  {
    assert |s| - b == |r| - a;
    if i + |t| <= |s| {
      SliceOfSlice(s, b, |s|, i, |t|);
      SliceOfSlice(r, a, |r|, i - b + a, |t|);
    }
  }

  /** The balance of the page loses that of the slice, up to tags that reach over the cut. */
  lemma PageBalance(html: string, marker: string, a: nat, e: nat, b: nat)
    requires Cut(html, marker, a, e, b)
    ensures a <= b <= |html|
    ensures var r := html[..a] + html[b..];
            Balance(r) - Reach(r, a) == Balance(html) - Reach(html, a) - Balance(html[a..b])
  {
    Fits(html, CLOSE, e - |CLOSE|);
    PageTags(html, marker, a, e, b, OPEN);
    PageTags(html, marker, a, e, b, CLOSE);
    hide At, Starts, Count, Straddling, Cut;
  }

  lemma PageTags(html: string, marker: string, a: nat, e: nat, b: nat, t: string)
    requires Cut(html, marker, a, e, b) && a <= b <= |html| && IsTag(t)
    ensures var r := html[..a] + html[b..];
            Count(r, t) - Straddling(r, t, a) == Count(html, t) - Straddling(html, t, a) - Count(html[a..b], t)
  {
    JoinCount(html, t, a, b);
    SliceTags(html, marker, a, e, b, t);
    hide At, Starts, Straddling, Cut;
    StartsSplit(html, t, 0, a, b);
    StartsSplit(html, t, 0, b, |html|);
  }

  /**
   * The markers in use are two spaces before an opening tag. For those the
   * slice is balanced, and the page keeps its balance exactly when no tag, or
   * as many opening as closing ones, come to reach over the join.
   */
  lemma PageStaysBalanced(html: string, rest: string, r: string, a: nat, e: nat, b: nat)
    requires Cut(html, "  " + OPEN + rest, a, e, b) && a <= b <= |html| && r == html[..a] + html[b..]
    ensures Balance(html[a..b]) == 0
    ensures Balance(r) == Balance(html) <==> Reach(r, a) == 0
  {
    var marker := "  " + OPEN + rest;
    MarkerOpens(html, rest, a);
    SliceBalanced(html, marker, a, e, b);
    PageBalance(html, marker, a, e, b);
    hide *;
  }

  lemma MarkerOpens(html: string, rest: string, a: nat)
    requires At(html, "  " + OPEN + rest, a)
    ensures OpensFirst(html, a) && Reach(html, a) == 0
  {
    var marker := "  " + OPEN + rest;
    SliceOfSlice(html, a, a + |marker|, a + 2, |OPEN|);
    assert marker[2..2 + |OPEN|] == OPEN;
    assert At(html, OPEN, a + 2);
    assert html[a] == html[a..a + |marker|][0] && html[a + 1] == html[a..a + |marker|][1];
    Blank(html, a);
    Blank(html, a + 1);
    assert OpensAt(html, a, a + 2);
    StartsNone(html, OPEN, Fitting(OPEN, 0, a), a);
    StartsNone(html, CLOSE, Fitting(CLOSE, 0, a), a);
  }

  /** No tag covers a blank. */
  lemma Blank(s: string, p: nat)
    requires p < |s| && s[p] == ' '
    ensures forall t, i: nat | IsTag(t) && i <= p < i + |t| :: !At(s, t, i)
  {
    forall t, i: nat | IsTag(t) && i <= p < i + |t| ensures !At(s, t, i) {
      if At(s, t, i) { TagChars(s, t, i); }
    }
  }

  /** The page is before, a section from the marker up to a closing tag, line ends, and rest; r is the first and
      the last of these, and the last begins no further line end. */
  predicate Parts(html: string, r: string, before: string, slice: string, ends: string, rest: string) {
    && html == before + (slice + "</section>") + ends + rest && r == before + rest
    && (forall i :: 0 <= i < |ends| ==> ends[i] == '\n' || ends[i] == '\r')
    && (rest != "" ==> rest[0] != '\n' && rest[0] != '\r')
  }

  lemma CutParts(html: string, marker: string, a: nat, e: nat, b: nat, r: string)
    requires Cut(html, marker, a, e, b) && r == html[..a] + html[b..]
    ensures Parts(html, r, html[..a], html[a..e - |CLOSE|], html[e..b], html[b..])
    ensures |html[..a]| == a && |r| < |html|
  {
    hide Depth, FirstAt;
    var c := e - |CLOSE|;
    assert html[c..e] == "</section>";
    assert html[a..c] + html[c..e] == html[a..e];
    assert html[..a] + html[a..e] == html[..e] && html[..e] + html[e..b] == html[..b] && html[..b] + html[b..] == html;
  }

  /** A page gets shorter exactly when the marker starts a section, by that section and the line ends after it, and
      is as it was otherwise. */
  lemma RemovalCuts(html: string, marker: string, r: string)
    requires Removal(html, marker, r)
    ensures (exists a: nat, e: nat :: FirstAt(html, marker, 0, a) && SectionEnd(html, a, e))
       <==> |r| < |html|
    ensures |r| >= |html| ==> r == html
    ensures |r| < |html| ==>
              exists before: string, slice: string, ends: string, rest: string ::
                Parts(html, r, before, slice, ends, rest) && FirstAt(html, marker, 0, |before|)
  {
    hide Parts, Depth;
    if exists a: nat, e: nat :: FirstAt(html, marker, 0, a) && SectionEnd(html, a, e) {
      var a: nat, e: nat, b: nat :| Cut(html, marker, a, e, b) && r == html[..a] + html[b..];
      CutParts(html, marker, a, e, b, r);
      var before, slice, ends, rest := html[..a], html[a..e - |CLOSE|], html[e..b], html[b..];
      assert Parts(html, r, before, slice, ends, rest) && FirstAt(html, marker, 0, |before|);
    }
  }
}
