/**
 * The log buffer of one tag with its sequence numbers, and the cursor of a
 * stream reader. Appends, resets of the list by other modules and reader passes
 * are taken as atomic.
 */
module LogRing {
  import opened Numbers
  import opened Sequences

  const MAX_LOG_LINES: nat := 3000

  /** The list and the numbers LOG_BASE_SEQ and LOG_NEXT_SEQ of its tag. */
  datatype Ring = Ring(buf: seq<string>, base: int, next: int)

  const EMPTY_RING := Ring([], 1, 1)

  /** Every access realigns an emptied list to the next number. */
  function Realigned(r: Ring): Ring {
    if r.buf == [] then r.(base := r.next) else r
  }

  function Append(r: Ring, line: string): Ring {
    var a := Realigned(r);
    var buf := a.buf + [line];
    var drop := if |buf| > MAX_LOG_LINES then |buf| - MAX_LOG_LINES else 0;
    Ring(buf[drop..], a.base + drop, a.next + 1)
  }

  /** Another module replaces the list by an empty one and leaves the numbers alone. */
  function OutsideReset(r: Ring): Ring {
    r.(buf := [])
  }

  type Event = (int, string)

  function Numbered(buf: seq<string>, base: int, from: nat): (r: seq<Event>)
    ensures |r| == if from < |buf| then |buf| - from else 0
    ensures forall i :: 0 <= i < |r| ==> r[i] == (base + from + i, buf[from + i])
  {
    if from < |buf| then seq(|buf| - from, i requires 0 <= i < |buf| - from => (base + from + i, buf[from + i])) else []
  }

  datatype Pass = Pass(last: int, out: seq<Event>)

  /** Opening a stream on a realigned ring: at a given number, at the end, or with a tail of the buffer. */
  function Open(r: Ring, since: Option<nat>, tail: Option<nat>, visible: bool): Pass {
    if since.Some? then Pass(Max(since.value, r.base - 1), [])
    else if !visible then Pass(r.base + |r.buf| - 1, [])
    else
      var start := if tail.Some? && tail.value > 0 then Max(0, |r.buf| - tail.value) else 0;
      Pass(r.base + |r.buf| - 1, Numbered(r.buf, r.base, start))
  }

  /** Where a pass from cursor from begins in the list, which holds nothing before it. */
  function StartIndex(r: Ring, from: int, backlog: Option<nat>): (start: nat)
    requires from >= r.base - 1
    ensures start >= from + 1 - r.base
  {
    var idx := from + 1 - r.base;
    if backlog.Some? && backlog.value > 0 && |r.buf| - idx > backlog.value then |r.buf| - backlog.value else idx
  }

  /** One pass over a realigned ring from cursor last. */
  function Poll(r: Ring, last: int, visible: bool, backlog: Option<nat>): Pass {
    var from := Max(last, r.base - 1);
    if !visible then Pass(Max(from, r.base + |r.buf| - 1), [])
    else
      var start := StartIndex(r, from, backlog);
      Pass(if start < |r.buf| then r.base + |r.buf| - 1 else from, Numbered(r.buf, r.base, start))
  }

  class LogBuffer {
    var buf: seq<string>
    var base: int
    var next: int

    ghost function Value(): Ring
      reads this
    {
      Ring(buf, base, next)
    }

    constructor ()
      ensures Value() == EMPTY_RING
    {
      buf, base, next := [], 1, 1;
    }

    method GetLogBuf()
      modifies this`base
      ensures Value() == Realigned(old(Value()))
    {
      if buf == [] {
        base := next;
      }
    }

    method AppendLine(line: string)
      modifies this
      ensures Value() == Append(old(Value()), line)
    {
      GetLogBuf();
      buf := buf + [line];
      next := next + 1;
      if |buf| > MAX_LOG_LINES {
        var drop := |buf| - MAX_LOG_LINES;
        buf := buf[drop..];
        base := base + drop;
      }
    }

    /** The body of the stream loop: the cursor moves with every line sent. */
    method StreamPass(last: int, visible: bool, backlog: Option<nat>) returns (cursor: int, out: seq<Event>)
      modifies this`base
      ensures Value() == Realigned(old(Value()))
      ensures Pass(cursor, out) == Poll(Value(), last, visible, backlog)
    {
      GetLogBuf();
      cursor, out := last, [];
      if cursor < base - 1 {
        cursor := base - 1;
      }
      if !visible {
        cursor := Max(cursor, base + |buf| - 1);
        return;
      }
      ghost var from := cursor;
      var startSeq := Max(cursor + 1, base);
      var startIdx := startSeq - base;
      if startIdx < 0 {
        startIdx := 0;
      }
      if backlog.Some? && backlog.value > 0 {
        var waiting := |buf| - startIdx;
        if waiting > backlog.value {
          startIdx := Max(0, |buf| - backlog.value);
          cursor := base + startIdx - 1;
        }
      }
      ghost var start := startIdx;
      assert start == StartIndex(Value(), from, backlog);
      hide StartIndex, Numbered, Realigned;
      var i := startIdx;
      while i < |buf|
        invariant start <= i && (start <= |buf| ==> i <= |buf|) && (start > |buf| ==> i == start)
        invariant out == Numbered(buf, base, start)[..i - start]
        invariant cursor == if i > start then base + i - 1
                            else if start > from + 1 - base then base + start - 1 else from
      {
        out := out + [(base + i, buf[i])];
        cursor := base + i;
        i := i + 1;
      }
    }
  }

  // ------------------------------------------------------------ the ring against its history

  /** lines is everything ever appended to the tag, oldest first. */
  predicate RingOk(r: Ring, lines: seq<string>) {
    && r.next == |lines| + 1 && 1 <= r.base <= r.next && |r.buf| <= MAX_LOG_LINES
    && (r.buf != [] ==> r.base + |r.buf| == r.next && r.buf == lines[r.base - 1..])
  }

  lemma RealignedOk(r: Ring, lines: seq<string>)
    requires RingOk(r, lines)
    ensures var a := Realigned(r);
            RingOk(a, lines) && a.base + |a.buf| == a.next && a.buf == lines[a.base - 1..]
  {
  }

  lemma AppendOk(r: Ring, lines: seq<string>, line: string)
    requires RingOk(r, lines)
    ensures RingOk(Append(r, line), lines + [line])
  {
    RealignedOk(r, lines);
  }

  // ------------------------------------------------------------ readers

  /** What a reader meets: lines appended, lists reset, other readers' accesses and its own passes. */
  datatype Happening = Line(text: string) | Reset | Touch | OwnPass(visible: bool)

  /** A pass on record: the cursor before it, whether the run was visible, how many lines there were
      and the number at which the list of that time began. */
  datatype PassRec = PassRec(from: int, visible: bool, total: nat, began: int)

  datatype Reading =
    Reading(ring: Ring, lines: seq<string>, began: int, last: int, sent: seq<Event>, passes: seq<PassRec>)

  function Opened(
    r: Ring, lines: seq<string>, began: int, since: Option<nat>, tail: Option<nat>, visible: bool): Reading
  {
    var a := Realigned(r);
    var p := Open(a, since, tail, visible);
    var from := if since.Some? then since.value else p.last;
    Reading(a, lines, began, p.last, p.out, [PassRec(from, true, |lines|, began)])
  }

  function Advance(s: Reading, h: Happening, backlog: Option<nat>): Reading {
    match h
    case Line(text) => s.(ring := Append(s.ring, text), lines := s.lines + [text])
    case Reset => s.(ring := OutsideReset(s.ring), began := |s.lines| + 1)
    case Touch => s.(ring := Realigned(s.ring))
    case OwnPass(visible) =>
      var a := Realigned(s.ring);
      var p := Poll(a, s.last, visible, backlog);
      var pass := PassRec(s.last, visible, |s.lines|, s.began);
      Reading(a, s.lines, s.began, p.last, s.sent + p.out, s.passes + [pass])
  }

  function Read(s: Reading, hs: seq<Happening>, backlog: Option<nat>): Reading {
    if hs == [] then s else Advance(Read(s, hs[..|hs| - 1], backlog), hs[|hs| - 1], backlog)
  }

  predicate Increasing(sent: seq<Event>) {
    forall i, j :: 0 <= i < j < |sent| ==> sent[i].0 < sent[j].0
  }

  /** Every id sent is the number of the line sent with it. */
  predicate Faithful(sent: seq<Event>, lines: seq<string>) {
    forall i :: 0 <= i < |sent| ==> 1 <= sent[i].0 <= |lines| && sent[i].1 == lines[sent[i].0 - 1]
  }

  predicate Behind(sent: seq<Event>, last: int) {
    forall i :: 0 <= i < |sent| ==> sent[i].0 <= last
  }

  predicate ReadingOk(s: Reading) {
    RingOk(s.ring, s.lines) && Increasing(s.sent) && Faithful(s.sent, s.lines) && Behind(s.sent, s.last)
  }

  lemma OpenedOk(r: Ring, lines: seq<string>, began: int, since: Option<nat>, tail: Option<nat>, visible: bool)
    requires RingOk(r, lines)
    ensures ReadingOk(Opened(r, lines, began, since, tail, visible))
  {
    RealignedOk(r, lines);
  }

  /** Consecutive numbers from first on, each with its line, none beyond last. */
  predicate Consecutive(out: seq<Event>, lines: seq<string>, first: int, last: int) {
    1 <= first && (out != [] ==> first + |out| - 1 == last <= |lines|)
    && forall i :: 0 <= i < |out| ==> out[i].0 == first + i && first + i <= |lines| && out[i].1 == lines[first + i - 1]
  }

  /** Where the numbers a visible pass sends begin. */
  function FirstSent(r: Ring, last: int, backlog: Option<nat>): int {
    var from := Max(last, r.base - 1);
    if backlog.Some? && backlog.value > 0 && r.base + |r.buf| - 1 - from > backlog.value
    then r.base + |r.buf| - backlog.value
    else from + 1
  }

  lemma PollSends(r: Ring, lines: seq<string>, last: int, visible: bool, backlog: Option<nat>)
    requires RingOk(r, lines) && r.base + |r.buf| == r.next && r.buf == lines[r.base - 1..]
    ensures var p := Poll(r, last, visible, backlog);
            && Consecutive(p.out, lines, FirstSent(r, last, backlog), p.last)
            && last <= p.last && last < FirstSent(r, last, backlog)
            && |p.out| == (if visible && FirstSent(r, last, backlog) <= |lines|
                           then |lines| + 1 - FirstSent(r, last, backlog) else 0)
            && (last <= |lines| ==> p.last == |lines|)
  {
  }

  lemma JoinOk(sent: seq<Event>, out: seq<Event>, lines: seq<string>, last: int, first: int, cursor: int)
    requires Increasing(sent) && Faithful(sent, lines) && Behind(sent, last)
    requires Consecutive(out, lines, first, cursor) && last < first && last <= cursor
    ensures Increasing(sent + out) && Faithful(sent + out, lines) && Behind(sent + out, cursor)
  {
  }

  lemma PassOk(s: Reading, visible: bool, backlog: Option<nat>)
    requires ReadingOk(s)
    ensures ReadingOk(Advance(s, OwnPass(visible), backlog))
  {
    RealignedOk(s.ring, s.lines);
    var a := Realigned(s.ring);
    var p := Poll(a, s.last, visible, backlog);
    PollSends(a, s.lines, s.last, visible, backlog);
    hide Poll, Increasing, Faithful, Behind, Consecutive, FirstSent;
    JoinOk(s.sent, p.out, s.lines, s.last, FirstSent(a, s.last, backlog), p.last);
  }

  /** From any point and through any happenings, resets included: each id sent is that of its line
      in the tag's whole history, and ids only go up. */
  lemma {:induction false} StreamIsFaithful(
    r: Ring, lines: seq<string>, began: int, since: Option<nat>, tail: Option<nat>, visible: bool,
    hs: seq<Happening>, backlog: Option<nat>)
    requires RingOk(r, lines)
    ensures ReadingOk(Read(Opened(r, lines, began, since, tail, visible), hs, backlog))
  {
    hide ReadingOk, Advance, Opened;
    if hs == [] {
      OpenedOk(r, lines, began, since, tail, visible);
    } else {
      StreamIsFaithful(r, lines, began, since, tail, visible, hs[..|hs| - 1], backlog);
      AdvanceOk(Read(Opened(r, lines, began, since, tail, visible), hs[..|hs| - 1], backlog), hs[|hs| - 1], backlog);
    }
  }

  lemma AdvanceOk(s: Reading, h: Happening, backlog: Option<nat>)
    requires ReadingOk(s)
    ensures ReadingOk(Advance(s, h, backlog))
  {
    match h {
      case Line(text) => AppendOk(s.ring, s.lines, text);
      case Reset =>
      case Touch => RealignedOk(s.ring, s.lines);
      case OwnPass(v) => PassOk(s, v, backlog);
    }
  }

  // ------------------------------------------------------------ completeness

  /** The list of a ring began at number b: what it holds is every line since, but for trimming to
      3000 lines. A ring that was never reset began at 1. */
  predicate Began(r: Ring, lines: seq<string>, b: int) {
    && RingOk(r, lines) && 1 <= b <= |lines| + 1
    && if r.buf == [] then b == |lines| + 1 else r.base == Max(b, |lines| - MAX_LOG_LINES + 1)
  }

  /** Every list began somewhere, one that another module has just reset at the next number. */
  lemma EveryListBegan(r: Ring, lines: seq<string>)
    requires RingOk(r, lines)
    ensures exists b :: Began(r, lines, b)
    ensures Began(OutsideReset(r), lines, |lines| + 1) && Began(Realigned(OutsideReset(r)), lines, |lines| + 1)
    ensures Began(EMPTY_RING, [], 1)
  {
    assert Began(r, lines, if r.buf == [] then |lines| + 1 else r.base);
  }

  predicate Sent(sent: seq<Event>, id: int) {
    exists i :: 0 <= i < |sent| && sent[i].0 == id
  }

  /** Why a pass skipped id: trimmed by then, thrown away with an earlier list, the run not visible,
      or cut by the backlog limit. */
  predicate Skips(p: PassRec, backlog: Option<nat>, id: int) {
    p.from < id <= p.total
    && (id <= p.total - MAX_LOG_LINES || id < p.began || !p.visible
        || (backlog.Some? && backlog.value > 0 && id <= p.total - backlog.value))
  }

  predicate Excused(passes: seq<PassRec>, backlog: Option<nat>, id: int) {
    exists k :: 0 <= k < |passes| && Skips(passes[k], backlog, id)
  }

  predicate Covered(s: Reading, backlog: Option<nat>, since: nat) {
    forall id :: since < id <= s.last ==> Sent(s.sent, id) || Excused(s.passes, backlog, id)
  }

  lemma SentGrows(sent: seq<Event>, more: seq<Event>, id: int)
    ensures Sent(sent + more, id) <==> Sent(sent, id) || Sent(more, id)
  {
    if Sent(sent, id) {
      var i :| 0 <= i < |sent| && sent[i].0 == id;
      assert (sent + more)[i] == sent[i];
    }
    if Sent(more, id) {
      var i :| 0 <= i < |more| && more[i].0 == id;
      assert (sent + more)[|sent| + i] == more[i];
    }
  }

  lemma PollCovers(r: Ring, lines: seq<string>, b: int, last: int, visible: bool, backlog: Option<nat>, id: int)
    requires Began(r, lines, b) && r == Realigned(r) && last < id <= |lines| && id > 0
    ensures Sent(Poll(r, last, visible, backlog).out, id) || Skips(PassRec(last, visible, |lines|, b), backlog, id)
  {
    PollSends(r, lines, last, visible, backlog);
    var first, out := FirstSent(r, last, backlog), Poll(r, last, visible, backlog).out;
    hide Poll;
    if visible && first <= id {
      assert |out| == |lines| + 1 - first;
      assert out[id - first].0 == id;
    }
  }

  lemma PassCovers(s: Reading, visible: bool, backlog: Option<nat>, since: nat)
    requires Began(s.ring, s.lines, s.began) && s.last <= |s.lines| && Covered(s, backlog, since)
    ensures Covered(Advance(s, OwnPass(visible), backlog), backlog, since)
  {
    var t := Advance(s, OwnPass(visible), backlog);
    var a := Realigned(s.ring);
    var p := Poll(a, s.last, visible, backlog);
    PollSends(a, s.lines, s.last, visible, backlog);
    assert Began(a, s.lines, s.began);
    hide Poll, Skips, Began;
    forall id | since < id <= t.last
      ensures Sent(t.sent, id) || Excused(t.passes, backlog, id)
    {
      SentGrows(s.sent, p.out, id);
      if s.last < id {
        PollCovers(a, s.lines, s.began, s.last, visible, backlog, id);
      }
      if id <= s.last {
        if !Sent(s.sent, id) {
          var k :| 0 <= k < |s.passes| && Skips(s.passes[k], backlog, id);
          assert t.passes[k] == s.passes[k];
        }
      } else if !Sent(p.out, id) {
        assert Skips(t.passes[|s.passes|], backlog, id);
      }
    }
  }

  ghost predicate ReadsAll(s: Reading, backlog: Option<nat>, since: nat) {
    Began(s.ring, s.lines, s.began) && s.last <= |s.lines| && Covered(s, backlog, since)
  }

  lemma OpenedReadsAll(r: Ring, lines: seq<string>, b: int, since: nat, visible: bool, backlog: Option<nat>)
    requires Began(r, lines, b) && since <= |lines|
    ensures ReadsAll(Opened(r, lines, b, Some(since), None, visible), backlog, since)
    ensures Opened(r, lines, b, Some(since), None, visible).last <= Max(since, Max(b - 1, |lines| - MAX_LOG_LINES))
  {
    var start := Opened(r, lines, b, Some(since), None, visible);
    forall id | since < id <= start.last
      ensures Excused(start.passes, backlog, id)
    {
      assert Skips(start.passes[0], backlog, id);
    }
  }

  lemma AdvanceReadsAll(s: Reading, h: Happening, backlog: Option<nat>, since: nat)
    requires ReadsAll(s, backlog, since)
    ensures ReadsAll(Advance(s, h, backlog), backlog, since)
    ensures h.OwnPass? ==> Advance(s, h, backlog).last == |s.lines|
  {
    match h {
      case Line(text) => AppendOk(s.ring, s.lines, text);
      case Reset =>
      case Touch =>
      case OwnPass(v) =>
        PassCovers(s, v, backlog, since);
        PollSends(Realigned(s.ring), s.lines, s.last, v, backlog);
    }
  }

  /**
   * A reader that resumes at a number the tag has reached gets every later
   * line, except those trimmed or thrown away by a reset before a pass reached
   * them, passed over while the run was hidden, or cut by the backlog limit.
   */
  lemma {:induction false} StreamIsComplete(
    r: Ring, lines: seq<string>, b: int, since: nat, visible: bool, hs: seq<Happening>, backlog: Option<nat>)
    requires Began(r, lines, b) && since <= |lines|
    ensures var s := Read(Opened(r, lines, b, Some(since), None, visible), hs, backlog);
            && ReadsAll(s, backlog, since)
            && (hs != [] && hs[|hs| - 1].OwnPass? ==> s.last == |s.lines|)
  {
    hide ReadsAll, Advance, Began, Opened;
    if hs == [] {
      OpenedReadsAll(r, lines, b, since, visible, backlog);
    } else {
      var front := hs[..|hs| - 1];
      StreamIsComplete(r, lines, b, since, visible, front, backlog);
      var s := Read(Opened(r, lines, b, Some(since), None, visible), front, backlog);
      AdvanceReadsAll(s, hs[|hs| - 1], backlog, since);
      AdvanceLines(s, hs[|hs| - 1], backlog);
    }
  }

  lemma AdvanceLines(s: Reading, h: Happening, backlog: Option<nat>)
    ensures h.OwnPass? ==> Advance(s, h, backlog).lines == s.lines
  {
  }

  /** The lines appended by the happenings, in order. */
  function Appended(hs: seq<Happening>): seq<string> {
    if hs == [] then []
    else
      var last := hs[|hs| - 1];
      Appended(hs[..|hs| - 1]) + if last.Line? then [last.text] else []
  }

  /** The tag's history is what it was, followed by every line appended since. */
  lemma {:induction false} HistoryGrows(s: Reading, hs: seq<Happening>, backlog: Option<nat>)
    ensures Read(s, hs, backlog).lines == s.lines + Appended(hs)
  {
    if hs != [] {
      HistoryGrows(s, hs[..|hs| - 1], backlog);
      hide Append, Realigned, Poll;
      assert (s.lines + Appended(hs[..|hs| - 1])) + [] == s.lines + Appended(hs[..|hs| - 1]);
    }
  }

  /** So a visible, unlimited reader that is never more than 3000 lines behind, and that has read
      what a list held when it is reset, misses nothing. */
  lemma NothingMissed(r: Ring, lines: seq<string>, b: int, since: nat, visible: bool, hs: seq<Happening>, id: int)
    requires Began(r, lines, b) && since <= |lines|
    requires hs != [] && hs[|hs| - 1].OwnPass?
    requires var s := Read(Opened(r, lines, b, Some(since), None, visible), hs, None);
             forall k :: 0 <= k < |s.passes| ==>
               && s.passes[k].visible && s.passes[k].total - s.passes[k].from <= MAX_LOG_LINES
               && s.passes[k].began <= s.passes[k].from + 1
    ensures var s := Read(Opened(r, lines, b, Some(since), None, visible), hs, None);
            since < id <= |s.lines| ==> Sent(s.sent, id)
  {
    StreamIsComplete(r, lines, b, since, visible, hs, None);
  }

  /** Opening without a number sends the last n lines of what the list holds, all of it when n is zero or absent
      and none to a hidden run, and goes on after the newest line. */
  lemma TailSendsLast(r: Ring, lines: seq<string>, b: int, tail: Option<nat>, visible: bool)
    requires Began(r, lines, b)
    ensures var s := Opened(r, lines, b, None, tail, visible);
            var held := |r.buf|;
            var n := if !visible then 0 else if tail.Some? && 0 < tail.value < held then tail.value else held;
            && s.last == |lines| && |s.sent| == n <= |lines|
            && (forall i :: 0 <= i < n ==> s.sent[i] == (|lines| - n + 1 + i, lines[|lines| - n + i]))
  {
    RealignedOk(r, lines);
  }

  /** A reader that resumes at a number the tag has not reached yet skips every line up to it. */
  lemma {:induction false} OnlyLaterLines(
    r: Ring, lines: seq<string>, b: int, since: nat, visible: bool, hs: seq<Happening>, backlog: Option<nat>, id: int)
    requires RingOk(r, lines)
    ensures var s := Read(Opened(r, lines, b, Some(since), None, visible), hs, backlog);
            since <= s.last && (Sent(s.sent, id) ==> id > since)
  {
    if hs != [] {
      var front := hs[..|hs| - 1];
      OnlyLaterLines(r, lines, b, since, visible, front, backlog, id);
      StreamIsFaithful(r, lines, b, Some(since), None, visible, front, backlog);
      var s := Read(Opened(r, lines, b, Some(since), None, visible), front, backlog);
      if hs[|hs| - 1].OwnPass? {
        LaterPass(s, hs[|hs| - 1].visible, backlog, id);
      }
    }
  }

  lemma LaterPass(s: Reading, visible: bool, backlog: Option<nat>, id: int)
    requires RingOk(s.ring, s.lines)
    ensures var t := Advance(s, OwnPass(visible), backlog);
            s.last <= t.last && (Sent(t.sent, id) && !Sent(s.sent, id) ==> id > s.last)
  {
    RealignedOk(s.ring, s.lines);
    var a := Realigned(s.ring);
    var p := Poll(a, s.last, visible, backlog);
    PollSends(a, s.lines, s.last, visible, backlog);
    SentGrows(s.sent, p.out, id);
  }
}
