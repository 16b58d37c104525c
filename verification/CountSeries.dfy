/** The count series of a feature, rebuilt backwards from the present count and clamped at zero. */
module CountSeries {
  import opened Numbers

  /** Additions and removals between two grid points. */
  datatype Window = Window(added: int, removed: int)

  datatype Point = Point(ts: int, count: int)

  function Delta(w: Window): int {
    w.added - w.removed
  }

  function Deltas(win: seq<Window>): (r: seq<int>)
    ensures |r| == |win|
  {
    seq(|win|, i requires 0 <= i < |win| => Delta(win[i]))
  }

  /** The clamped counts before, between and after the deltas. */
  function Clamped(last: int, ds: seq<int>): (r: seq<int>)
    ensures |r| == |ds| + 1
  {
    if ds == [] then [Max(0, last)]
    else
      var tail := Clamped(last, ds[1..]);
      [Max(0, tail[0] - ds[0])] + tail
  }

  function Sum(ds: seq<int>): int {
    if ds == [] then 0 else ds[0] + Sum(ds[1..])
  }

  lemma {:induction false} ClampedDrop(last: int, ds: seq<int>, i: nat)
    requires i <= |ds|
    ensures Clamped(last, ds)[i..] == Clamped(last, ds[i..])
  {
    if i > 0 {
      ClampedDrop(last, ds[1..], i - 1);
      assert ds[1..][i - 1..] == ds[i..];
      assert Clamped(last, ds)[i..] == Clamped(last, ds)[1..][i - 1..];
    } else {
      assert ds[0..] == ds;
    }
  }

  /** The loop as coded: from the last grid point to the first, then turned round. */
  method BackwardSeries(now: int, grid: seq<int>, win: seq<Window>) returns (series: seq<Point>)
    requires |grid| == |win| + 1
    ensures |series| == |grid|
    ensures forall i :: 0 <= i < |grid| ==> series[i] == Point(grid[i], Clamped(now, Deltas(win))[i])
  {
    ghost var vs := Clamped(now, Deltas(win));
    var n := |win|;
    var v := Max(0, now);
    ClampedDrop(now, Deltas(win), n);
    assert Deltas(win)[n..] == [] && vs[n..][0] == vs[n];
    var out := [Point(grid[n], v)];
    var i := n;
    while i > 0
      invariant 0 <= i <= n && v == vs[i]
      invariant |out| == n - i + 1
      invariant forall k :: 0 <= k < |out| ==> out[k] == Point(grid[n - k], vs[n - k])
    {
      i := i - 1;
      ClampedDrop(now, Deltas(win), i);
      ClampedDrop(now, Deltas(win), i + 1);
      assert Deltas(win)[i..][1..] == Deltas(win)[i + 1..];
      assert vs[i..][0] == vs[i] && vs[i + 1..][0] == vs[i + 1];
      v := Max(0, v - (win[i].added - win[i].removed));
      out := out + [Point(grid[i], v)];
    }
    series := seq(|out|, k requires 0 <= k < |out| => out[|out| - 1 - k]);
  }

  // ------------------------------------------------------------ closed form

  lemma SumFront(d: int, ds: seq<int>, j: nat)
    requires 0 < j <= |ds| + 1
    ensures Sum(([d] + ds)[..j]) == d + Sum(ds[..j - 1])
  {
    assert ([d] + ds)[..j] == [d] + ds[..j - 1];
    assert ([d] + ds[..j - 1])[1..] == ds[..j - 1];
  }

  /** c is the greatest of last - sum(ds) and of all -sum(ds[..j]) for j short of the end. */
  predicate IsPeak(c: int, last: int, ds: seq<int>) {
    && last - Sum(ds) <= c
    && (forall j :: 0 <= j < |ds| ==> -Sum(ds[..j]) <= c)
    && (c == last - Sum(ds) || exists j :: 0 <= j < |ds| && c == -Sum(ds[..j]))
  }

  lemma {:induction false} ClampedIsPeak(last: int, ds: seq<int>)
    requires last >= 0
    ensures IsPeak(Clamped(last, ds)[0], last, ds)
  {
    if ds != [] {
      var d, rest := ds[0], ds[1..];
      assert ds == [d] + rest;
      ClampedIsPeak(last, rest);
      var c, p := Clamped(last, ds)[0], Clamped(last, rest)[0];
      forall j | 0 <= j < |ds|
        ensures -Sum(ds[..j]) <= c
      {
        if j > 0 {
          SumFront(d, rest, j);
        }
      }
      if c == 0 {
        assert -Sum(ds[..0]) == 0;
      } else if p != last - Sum(rest) {
        var j :| 0 <= j < |rest| && p == -Sum(rest[..j]);
        SumFront(d, rest, j + 1);
        assert c == -Sum(ds[..j + 1]);
      }
    }
  }

  /** Each clamped count is the present count less the deltas since, or the depth of the worst dip since. */
  lemma ClosedForm(last: int, ds: seq<int>, i: nat)
    requires last >= 0 && i <= |ds|
    ensures IsPeak(Clamped(last, ds)[i], last, ds[i..])
  {
    ClampedDrop(last, ds, i);
    ClampedIsPeak(last, ds[i..]);
    assert Clamped(last, ds)[i..][0] == Clamped(last, ds)[i];
  }

  // ------------------------------------------------------------ least consistent series

  /** A series that ends at or above last, is never negative, and never rises by more than the deltas. */
  predicate Consistent(w: seq<int>, last: int, ds: seq<int>) {
    && |w| == |ds| + 1 && w[|ds|] >= last
    && (forall i :: 0 <= i < |w| ==> w[i] >= 0)
    && (forall i :: 0 <= i < |ds| ==> w[i + 1] - w[i] <= ds[i])
  }

  lemma {:induction false} ClampedIsConsistent(last: int, ds: seq<int>)
    ensures Consistent(Clamped(last, ds), last, ds)
  {
    if ds != [] {
      var w, tail := Clamped(last, ds), Clamped(last, ds[1..]);
      ClampedIsConsistent(last, ds[1..]);
      forall i | 0 <= i < |ds|
        ensures w[i + 1] - w[i] <= ds[i]
      {
        if i > 0 {
          assert tail[i] - tail[i - 1] <= ds[1..][i - 1];
        }
      }
    }
  }

  lemma {:induction false} ClampedIsLeast(w: seq<int>, last: int, ds: seq<int>, i: nat)
    requires Consistent(w, last, ds) && i <= |ds|
    ensures Clamped(last, ds)[i] <= w[i]
  {
    if ds != [] {
      var tail := w[1..];
      assert Consistent(tail, last, ds[1..]) by {
        forall k | 0 <= k < |ds| - 1
          ensures tail[k + 1] - tail[k] <= ds[1..][k]
        {
          assert w[k + 2] - w[k + 1] <= ds[k + 1];
        }
      }
      if i == 0 {
        ClampedIsLeast(tail, last, ds[1..], 0);
        assert w[1] - w[0] <= ds[0];
      } else {
        ClampedIsLeast(tail, last, ds[1..], i - 1);
      }
    }
  }

  // ------------------------------------------------------------ against the true counts

  predicate TrueCounts(c: seq<int>, last: int, ds: seq<int>) {
    |c| == |ds| + 1 && c[|ds|] == last && forall i :: 0 <= i < |ds| ==> c[i + 1] == c[i] + ds[i]
  }

  lemma {:induction false} NonNegativeIsExact(c: seq<int>, last: int, ds: seq<int>)
    requires TrueCounts(c, last, ds) && forall i :: 0 <= i < |c| ==> c[i] >= 0
    ensures Clamped(last, ds) == c
  {
    if ds == [] {
      assert c == [last];
    } else {
      var tail := c[1..];
      forall k | 0 <= k < |ds| - 1
        ensures tail[k + 1] == tail[k] + ds[1..][k]
      {
        assert c[k + 2] == c[k + 1] + ds[k + 1];
      }
      NonNegativeIsExact(tail, last, ds[1..]);
      assert c == [c[0]] + tail && c[1] == c[0] + ds[0];
    }
  }

  /** The rebuilt series is the true one exactly when the true one never goes below zero. */
  lemma ExactWhenNonNegative(c: seq<int>, last: int, ds: seq<int>)
    requires TrueCounts(c, last, ds)
    ensures Clamped(last, ds) == c <==> forall i :: 0 <= i < |c| ==> c[i] >= 0
  {
    if forall i :: 0 <= i < |c| ==> c[i] >= 0 {
      NonNegativeIsExact(c, last, ds);
    }
    ClampedIsConsistent(last, ds);
  }

  /** Counts that end at now and between two grid points grow by the additions and shrink by the removals. */
  predicate Counts(c: seq<int>, now: int, win: seq<Window>) {
    |c| == |win| + 1 && c[|win|] == now
    && forall i :: 0 <= i < |win| ==> c[i + 1] == c[i] + win[i].added - win[i].removed
  }

  /** In terms of additions and removals: counts that fit them are rebuilt exactly when none of them is negative. */
  lemma SeriesIsExact(c: seq<int>, now: int, win: seq<Window>)
    requires Counts(c, now, win)
    ensures Clamped(now, Deltas(win)) == c <==> forall i :: 0 <= i < |c| ==> c[i] >= 0
  {
    ExactWhenNonNegative(c, now, Deltas(win));
  }
}
