/** Laws of gap closing: the clips cover exactly the closing, are determined by it, and behave well under
    re-analysis, larger gaps, counting and splitting. */
module SegmentLaws {
  import opened Segments

  // ---------- the clips are the closing ----------

  /** What holds of the clips of a prefix. */
  ghost predicate Built(mask: seq<bool>, f: nat, segments: seq<Segment>) {
    && Separated(mask, f, segments)
    && (forall k :: 0 <= k < |mask| && mask[k] ==> Within(segments, k))
    && (forall k :: 0 <= k < |mask| && Within(segments, k) ==> Covered(mask, f, k))
    && (segments != [] ==> forall k :: segments[|segments| - 1].last < k < |mask| ==> !mask[k])
  }

  lemma CoveredGrows(mask: seq<bool>, f: nat, n: nat, k: nat)
    requires k < n <= |mask| && Covered(mask[..n], f, k)
    ensures Covered(mask, f, k)
  {
    if !mask[k] {
      var a, b :| Bridges(mask[..n], f, a, b, k);
      assert Bridges(mask, f, a, b, k);
    }
  }

  lemma WithinAppend(segments: seq<Segment>, s: Segment, k: nat)
    ensures Within(segments + [s], k) <==> Within(segments, k) || s.first <= k <= s.last
  {
    var all := segments + [s];
    if Within(segments, k) {
      var i :| 0 <= i < |segments| && segments[i].first <= k <= segments[i].last;
      assert all[i] == segments[i];
    }
    assert all[|segments|] == s;
  }

  lemma WithinBounded(mask: seq<bool>, f: nat, segments: seq<Segment>, k: nat)
    requires Separated(mask, f, segments) && Within(segments, k)
    ensures k < |mask|
  {
  }

  lemma IncludedCovered(mask: seq<bool>, f: nat, k: nat)
    requires k < |mask| && mask[k]
    ensures Covered(mask, f, k)
  {
  }

  lemma BuiltSkip(mask: seq<bool>, f: nat, segments: seq<Segment>)
    requires mask != [] && !mask[|mask| - 1] && Built(mask[..|mask| - 1], f, segments)
    ensures Built(mask, f, segments)
  {
    hide Covered, Within;
    var n := |mask| - 1;
    forall k | 0 <= k < |mask| && Within(segments, k) ensures Covered(mask, f, k) {
      WithinBounded(mask[..n], f, segments, k);
      CoveredGrows(mask, f, n, k);
    }
  }

  lemma SeparatedStart(mask: seq<bool>, f: nat, segments: seq<Segment>)
    requires mask != [] && mask[|mask| - 1] && Separated(mask[..|mask| - 1], f, segments)
    requires segments == [] || segments[|segments| - 1].last + MinGap(f) < |mask| - 1
    ensures Separated(mask, f, segments + [Segment(|mask| - 1, |mask| - 1)])
  {
    var n := |mask| - 1;
    var all := segments + [Segment(n, n)];
    forall i, j | 0 <= i < j < |all| ensures all[i].last + MinGap(f) < all[j].first {
      if j == |segments| && i < j - 1 {
        assert segments[i].last + MinGap(f) < segments[j - 1].first;
      }
    }
  }

  lemma BuiltStart(mask: seq<bool>, f: nat, segments: seq<Segment>)
    requires mask != [] && mask[|mask| - 1] && Built(mask[..|mask| - 1], f, segments)
    requires segments == [] || segments[|segments| - 1].last + MinGap(f) < |mask| - 1
    ensures Built(mask, f, segments + [Segment(|mask| - 1, |mask| - 1)])
  {
    hide Covered, Within, Separated;
    var n := |mask| - 1;
    var s := Segment(n, n);
    SeparatedStart(mask, f, segments);
    forall k | 0 <= k < |mask| && mask[k] ensures Within(segments + [s], k) {
      WithinAppend(segments, s, k);
      if k < n { assert mask[..n][k]; }
    }
    forall k | 0 <= k < |mask| && Within(segments + [s], k) ensures Covered(mask, f, k) {
      WithinAppend(segments, s, k);
      if k < n { CoveredGrows(mask, f, n, k); } else { IncludedCovered(mask, f, k); }
    }
  }

  lemma SeparatedExtend(mask: seq<bool>, f: nat, closed: seq<Segment>, s: Segment)
    requires mask != [] && mask[|mask| - 1] && Separated(mask[..|mask| - 1], f, closed + [s])
    ensures Separated(mask, f, closed + [s.(last := |mask| - 1)]) && s.last < |mask| - 1 && mask[s.last]
  {
    var n := |mask| - 1;
    var before, after := closed + [s], closed + [s.(last := n)];
    assert before[|closed|] == s && after[|closed|] == s.(last := n);
    assert forall i :: 0 <= i < |closed| ==> before[i] == closed[i] && after[i] == closed[i];
    forall i, j | 0 <= i < j < |after| ensures after[i].last + MinGap(f) < after[j].first {
      assert before[i].last + MinGap(f) < before[j].first;
    }
  }

  lemma WithinExtended(closed: seq<Segment>, s: Segment, n: nat)
    requires s.first <= s.last < n
    ensures forall k: nat :: Within(closed + [s.(last := n)], k) <==> Within(closed + [s], k) || s.last < k <= n
  {
    forall k: nat ensures Within(closed + [s.(last := n)], k) <==> Within(closed + [s], k) || s.last < k <= n {
      WithinAppend(closed, s, k);
      WithinAppend(closed, s.(last := n), k);
    }
  }

  lemma BuiltExtend(mask: seq<bool>, f: nat, closed: seq<Segment>, s: Segment)
    requires mask != [] && mask[|mask| - 1] && Built(mask[..|mask| - 1], f, closed + [s])
    requires |mask| - 1 - s.last <= MinGap(f)
    ensures Built(mask, f, closed + [s.(last := |mask| - 1)])
  {
    hide Covered, Within;
    var n := |mask| - 1;
    var before, after := closed + [s], closed + [s.(last := n)];
    SeparatedExtend(mask, f, closed, s);
    assert before[|before| - 1] == s && after[|after| - 1].last == n;
    WithinExtended(closed, s, n);
    forall k | 0 <= k < n && mask[k] ensures Within(after, k) {
      assert mask[..n][k];
    }
    forall k | 0 <= k < |mask| && Within(after, k) ensures Covered(mask, f, k) {
      if k == n {
        IncludedCovered(mask, f, k);
      } else if Within(before, k) {
        CoveredGrows(mask, f, n, k);
      } else {
        LateGap(mask, f, s.last, n, k);
      }
    }
  }

  lemma LateGap(mask: seq<bool>, f: nat, last: nat, n: nat, k: nat)
    requires last < k < n < |mask| && mask[last] && mask[n] && n - last <= MinGap(f)
    requires forall j :: last < j < n ==> !mask[..n][j]
    ensures Covered(mask, f, k)
  {
    assert forall j :: last < j < n ==> mask[..n][j] == mask[j];
    assert Bridges(mask, f, last, n, k);
  }

  lemma {:induction false} ClipsBuilt(mask: seq<bool>, f: nat)
    ensures Built(mask, f, Clips(mask, f))
  {
    if mask == [] {
      assert Clips(mask, f) == [];
    } else {
      var n := |mask| - 1;
      var before := Clips(mask[..n], f);
      ClipsBuilt(mask[..n], f);
      if !mask[n] {
        BuiltSkip(mask, f, before);
      } else {
        assert Clips(mask, f) == Join(before, f, n);
        JoinBuilt(mask, f, before);
      }
    }
  }

  lemma JoinBuilt(mask: seq<bool>, f: nat, before: seq<Segment>)
    requires mask != [] && mask[|mask| - 1] && Built(mask[..|mask| - 1], f, before)
    ensures Built(mask, f, Join(before, f, |mask| - 1))
  {
    var n, m := |mask| - 1, |before|;
    if m > 0 && n - before[m - 1].last <= MinGap(f) {
      assert before == before[..m - 1] + [before[m - 1]];
      BuiltExtend(mask, f, before[..m - 1], before[m - 1]);
    } else {
      BuiltStart(mask, f, before);
    }
  }

  /** A short gap never spans two clips. */
  lemma BridgeStaysWithin(mask: seq<bool>, f: nat, segments: seq<Segment>, a: nat, b: nat, k: nat)
    requires Separated(mask, f, segments) && Bridges(mask, f, a, b, k)
    requires Within(segments, a) && Within(segments, b)
    ensures Within(segments, k)
  {
    var i :| 0 <= i < |segments| && segments[i].first <= a <= segments[i].last;
    var j :| 0 <= j < |segments| && segments[j].first <= b <= segments[j].last;
    assert mask[segments[i].last] && mask[segments[j].first];
  }

  lemma BuiltIsClosing(mask: seq<bool>, f: nat, segments: seq<Segment>)
    requires Built(mask, f, segments)
    ensures IsClosing(mask, f, segments)
  {
    forall k | 0 <= k < |mask| && Covered(mask, f, k) ensures Within(segments, k) {
      if !mask[k] {
        var a, b :| Bridges(mask, f, a, b, k);
        BridgeStaysWithin(mask, f, segments, a, b, k);
      }
    }
  }

  /** The clips are separated and cover exactly the closing of the mask. */
  lemma ClipsAreClosing(mask: seq<bool>, f: nat)
    ensures IsClosing(mask, f, Clips(mask, f))
  {
    ClipsBuilt(mask, f);
    BuiltIsClosing(mask, f, Clips(mask, f));
  }

  // ---------- the closing determines the clips ----------

  /** Sorted, with at least one uncovered index between neighbours. */
  ghost predicate Spaced(segments: seq<Segment>) {
    && (forall i :: 0 <= i < |segments| ==> segments[i].first <= segments[i].last)
    && (forall i, j :: 0 <= i < j < |segments| ==> segments[i].last + 1 < segments[j].first)
  }

  lemma FirstSegment(a: seq<Segment>, b: seq<Segment>)
    requires Spaced(a) && Spaced(b) && a != [] && b != []
    requires forall k :: Within(a, k) <==> Within(b, k)
    ensures a[0] == b[0]
  {
    assert Within(a, a[0].first) && Within(b, b[0].first);
    assert Within(a, b[0].first) && Within(b, a[0].first);
    LastNoEarlier(a, b);
    LastNoEarlier(b, a);
  }

  lemma LastNoEarlier(a: seq<Segment>, b: seq<Segment>)
    requires Spaced(a) && Spaced(b) && a != [] && b != [] && a[0].first == b[0].first
    requires forall k :: Within(a, k) <==> Within(b, k)
    ensures a[0].last >= b[0].last
  {
    var next := a[0].last + 1;
    assert !Within(a, next);
    assert !Within(b, next);
  }

  lemma WithinTail(a: seq<Segment>, k: nat)
    requires Spaced(a) && a != []
    ensures Within(a[1..], k) <==> Within(a, k) && k > a[0].last
  {
    if Within(a, k) && k > a[0].last {
      var i :| 0 <= i < |a| && a[i].first <= k <= a[i].last;
      assert a[1..][i - 1] == a[i];
    }
    if Within(a[1..], k) {
      var i :| 0 <= i < |a[1..]| && a[1..][i].first <= k <= a[1..][i].last;
      assert a[i + 1] == a[1..][i];
    }
  }

  lemma {:induction false} SameCoverSameSegments(a: seq<Segment>, b: seq<Segment>)
    requires Spaced(a) && Spaced(b)
    requires forall k :: Within(a, k) <==> Within(b, k)
    ensures a == b
    decreases |a|
  {
    assert a != [] ==> Within(a, a[0].first);
    assert b != [] ==> Within(b, b[0].first);
    assert a == [] <==> b == [];
    if a != [] {
      FirstSegment(a, b);
      forall k: nat ensures Within(a[1..], k) <==> Within(b[1..], k) {
        WithinTail(a, k);
        WithinTail(b, k);
      }
      SameCoverSameSegments(a[1..], b[1..]);
    }
  }

  /** There is only one way to close a mask. */
  lemma ClosingUnique(mask: seq<bool>, f: nat, g: nat, a: seq<Segment>, b: seq<Segment>)
    requires IsClosing(mask, f, a) && IsClosing(mask, g, b)
    requires forall k :: 0 <= k < |mask| ==> (Covered(mask, f, k) <==> Covered(mask, g, k))
    ensures a == b
  {
    forall k: nat ensures Within(a, k) <==> Within(b, k) {
      if k < |mask| {
        assert Covered(mask, f, k) <==> Covered(mask, g, k);
      }
    }
    SameCoverSameSegments(a, b);
  }

  // ---------- algebra ----------

  /** The records the clips cover, as a mask. */
  ghost function CoveredMask(mask: seq<bool>, f: nat): (r: seq<bool>)
    ensures |r| == |mask| && forall k :: 0 <= k < |mask| ==> r[k] == Covered(mask, f, k)
  {
    seq(|mask|, k requires 0 <= k < |mask| => Covered(mask, f, k))
  }

  /** Closing a mask that already consists of separated clips adds nothing. */
  lemma CoveredStays(mask: seq<bool>, f: nat, segments: seq<Segment>, k: nat)
    requires Separated(mask, f, segments) && k < |mask|
    requires forall j :: 0 <= j < |mask| ==> (mask[j] <==> Within(segments, j))
    ensures Covered(mask, f, k) <==> Within(segments, k)
  {
    hide Within;
    if !mask[k] && Covered(mask, f, k) {
      var a, b :| Bridges(mask, f, a, b, k);
      BridgeStaysWithin(mask, f, segments, a, b, k);
    }
  }

  lemma SeparatedInClosing(mask: seq<bool>, f: nat, segments: seq<Segment>)
    requires IsClosing(mask, f, segments)
    ensures Separated(CoveredMask(mask, f), f, segments)
    ensures forall k :: 0 <= k < |mask| ==> (CoveredMask(mask, f)[k] <==> Within(segments, k))
  {
    hide Covered;
    var closed := CoveredMask(mask, f);
    forall k | 0 <= k < |mask| ensures closed[k] <==> Within(segments, k) {
      assert closed[k] == Covered(mask, f, k);
    }
    forall i | 0 <= i < |segments| ensures closed[segments[i].first] && closed[segments[i].last] {
      assert Within(segments, segments[i].first) && Within(segments, segments[i].last);
    }
  }

  /** Closing a closed mask changes nothing. */
  lemma ReanalysisSame(mask: seq<bool>, f: nat)
    ensures Clips(CoveredMask(mask, f), f) == Clips(mask, f)
  {
    hide Clips, Covered, CoveredMask, Separated, Within;
    var closed, segments := CoveredMask(mask, f), Clips(mask, f);
    ClipsAreClosing(mask, f);
    ClipsAreClosing(closed, f);
    SeparatedInClosing(mask, f, segments);
    forall k | 0 <= k < |closed| ensures Covered(closed, f, k) <==> Within(segments, k) {
      CoveredStays(closed, f, segments, k);
    }
    assert IsClosing(closed, f, segments);
    ClosingUnique(closed, f, f, Clips(closed, f), segments);
  }

  /** A larger allowed gap covers at least as much. */
  lemma CoverageGrows(mask: seq<bool>, f: nat, g: nat, k: nat)
    requires f <= g && k < |mask| && Covered(mask, f, k)
    ensures Covered(mask, g, k)
  {
    if !mask[k] {
      var a, b :| Bridges(mask, f, a, b, k);
      assert Bridges(mask, g, a, b, k);
    }
  }

  /** With no gap to close, the clips decode to the mask itself. */
  lemma NoGapDecodes(mask: seq<bool>, f: nat, k: nat)
    requires f <= 1 && k < |mask|
    ensures Within(Clips(mask, f), k) <==> mask[k]
  {
    ClipsAreClosing(mask, f);
    assert Covered(mask, f, k) <==> mask[k];
  }

  ghost function Total(segments: seq<Segment>): int {
    if segments == [] then 0
    else var s := segments[|segments| - 1]; Total(segments[..|segments| - 1]) + s.last - s.first + 1
  }

  ghost function Count(mask: seq<bool>): nat {
    if mask == [] then 0 else Count(mask[..|mask| - 1]) + if mask[|mask| - 1] then 1 else 0
  }

  lemma {:induction false} CountRun(mask: seq<bool>, a: nat, b: nat, v: bool)
    requires a <= b <= |mask| && forall k :: a <= k < b ==> mask[k] == v
    ensures Count(mask[..b]) == Count(mask[..a]) + if v then b - a else 0
  {
    if a < b {
      CountRun(mask, a, b - 1, v);
      assert mask[..b][..b - 1] == mask[..b - 1];
    }
  }

  lemma WithinBelow(segments: seq<Segment>, bound: nat, k: nat)
    requires forall i :: 0 <= i < |segments| ==> segments[i].last < bound
    requires Within(segments, k)
    ensures k < bound
  {
  }

  /** Taking the last clip off: the rest lies before it, and nothing is covered behind it. */
  lemma LastSegment(segments: seq<Segment>, k: nat)
    requires Spaced(segments) && segments != []
    ensures var m := |segments| - 1;
            var s, rest := segments[m], segments[..m];
            && Spaced(rest) && (forall i :: 0 <= i < |rest| ==> rest[i].last < s.first)
            && (Within(segments, k) <==> Within(rest, k) || s.first <= k <= s.last)
            && (Within(rest, k) ==> k < s.first)
  {
    var m := |segments| - 1;
    var s, rest := segments[m], segments[..m];
    assert segments == rest + [s];
    WithinAppend(rest, s, k);
    if Within(rest, k) { WithinBelow(rest, s.first, k); }
  }

  /** The durations of the clips add up to the records covered up to the end of the last one. */
  lemma {:induction false} DurationsAddUp(mask: seq<bool>, segments: seq<Segment>, n: nat)
    requires Spaced(segments) && n <= |mask|
    requires forall i :: 0 <= i < |segments| ==> segments[i].last < n
    requires forall k :: 0 <= k < n ==> (mask[k] <==> Within(segments, k))
    ensures Total(segments) == Count(mask[..n])
    decreases |segments|
  {
    if segments == [] {
      NothingTotal(mask, n);
    } else {
      var s, rest := segments[|segments| - 1], segments[..|segments| - 1];
      LastSegment(segments, 0);
      assert s.first <= s.last < n;
      hide *;
      forall k | 0 <= k < n
        ensures mask[k] <==> Within(rest, k) || s.first <= k <= s.last
        ensures Within(rest, k) ==> k < s.first
      {
        LastSegment(segments, k);
      }
      DurationsAddUp(mask, rest, s.first);
      CountRun(mask, s.first, s.last + 1, true);
      CountRun(mask, s.last + 1, n, false);
      TotalLast(segments);
    }
  }

  lemma NothingTotal(mask: seq<bool>, n: nat)
    requires n <= |mask| && forall k :: 0 <= k < n ==> (mask[k] <==> Within([], k))
    ensures Total([]) == Count(mask[..n])
  {
    CountRun(mask, 0, n, false);
  }

  lemma TotalLast(segments: seq<Segment>)
    requires segments != []
    ensures var s := segments[|segments| - 1];
            Total(segments) == Total(segments[..|segments| - 1]) + s.last - s.first + 1
  {
  }

  lemma ClipDurations(mask: seq<bool>, f: nat)
    ensures Total(Clips(mask, f)) == Count(CoveredMask(mask, f))
  {
    ClipsAreClosing(mask, f);
    var closed := CoveredMask(mask, f);
    assert closed[..|mask|] == closed;
    DurationsAddUp(closed, Clips(mask, f), |mask|);
  }

  ghost function Shift(segments: seq<Segment>, d: nat): (r: seq<Segment>)
    ensures |r| == |segments|
    ensures forall i :: 0 <= i < |r| ==> r[i] == Segment(segments[i].first + d, segments[i].last + d)
  {
    seq(|segments|, i requires 0 <= i < |segments| => Segment(segments[i].first + d, segments[i].last + d))
  }

  lemma {:induction false} ClipsOverGap(mask: seq<bool>, n: nat, f: nat)
    requires n <= |mask| && forall k :: n <= k < |mask| ==> !mask[k]
    ensures Clips(mask, f) == Clips(mask[..n], f)
    decreases |mask|
  {
    if n == |mask| {
      assert mask[..n] == mask;
    } else {
      ClipsOverGap(mask[..|mask| - 1], n, f);
      assert mask[..|mask| - 1][..n] == mask[..n];
    }
  }

  lemma ShiftAppend(a: seq<Segment>, s: Segment, d: nat)
    ensures Shift(a + [s], d) == Shift(a, d) + [Segment(s.first + d, s.last + d)]
  {
    var all := a + [s];
    assert forall i :: 0 <= i < |a| ==> all[i] == a[i];
  }

  /** Joining a record behind the gap is joining it to the shifted right part. */
  lemma JoinShifted(l: seq<Segment>, r: seq<Segment>, d: nat, f: nat, n: nat)
    requires l != [] ==> l[|l| - 1].last + MinGap(f) < d
    ensures Join(l + Shift(r, d), f, d + n) == l + Shift(Join(r, f, n), d)
  {
    if r == [] {
      JoinFirst(l, d, f, n);
    } else {
      var rest, s := r[..|r| - 1], r[|r| - 1];
      assert r == rest + [s];
      JoinShiftedLast(l, rest, s, d, f, n);
    }
  }

  lemma JoinFirst(l: seq<Segment>, d: nat, f: nat, n: nat)
    requires l != [] ==> l[|l| - 1].last + MinGap(f) < d
    ensures Join(l + Shift([], d), f, d + n) == l + Shift(Join([], f, n), d)
  {
    assert l + Shift([], d) == l;
    assert Join(l, f, d + n) == l + [Segment(d + n, d + n)];
    assert Shift([Segment(n, n)], d) == [Segment(d + n, d + n)];
  }

  lemma JoinShiftedLast(l: seq<Segment>, rest: seq<Segment>, s: Segment, d: nat, f: nat, n: nat)
    ensures Join(l + Shift(rest + [s], d), f, d + n) == l + Shift(Join(rest + [s], f, n), d)
  {
    ShiftAppend(rest, s, d);
    var moved := Segment(s.first + d, s.last + d);
    assert l + Shift(rest + [s], d) == l + Shift(rest, d) + [moved];
    JoinLast(l + Shift(rest, d), moved, f, d + n);
    JoinedShift(l, rest, s, d, f, n);
  }

  lemma JoinedShift(l: seq<Segment>, rest: seq<Segment>, s: Segment, d: nat, f: nat, n: nat)
    ensures l + Shift(Join(rest + [s], f, n), d)
            == if n - s.last <= MinGap(f) then l + Shift(rest, d) + [Segment(s.first + d, n + d)]
               else l + Shift(rest, d) + [Segment(s.first + d, s.last + d)] + [Segment(n + d, n + d)]
  {
    JoinLast(rest, s, f, n);
    if n - s.last <= MinGap(f) {
      ShiftAppend(rest, s.(last := n), d);
    } else {
      ShiftAppend(rest, s, d);
      ShiftAppend(rest + [s], Segment(n, n), d);
    }
  }

  lemma JoinLast(closed: seq<Segment>, s: Segment, f: nat, n: nat)
    ensures Join(closed + [s], f, n)
            == if n - s.last <= MinGap(f) then closed + [s.(last := n)] else closed + [s] + [Segment(n, n)]
  {
    assert (closed + [s])[..|closed|] == closed;
  }

  ghost function Silence(n: nat): (r: seq<bool>)
    ensures |r| == n && forall k :: 0 <= k < n ==> !r[k]
  {
    seq(n, _ => false)
  }

  /** The clips after record n. */
  function Extended(segments: seq<Segment>, b: bool, f: nat, n: nat): seq<Segment> {
    if b then Join(segments, f, n) else segments
  }

  lemma ClipsAppend(mask: seq<bool>, b: bool, f: nat)
    ensures Clips(mask + [b], f) == Extended(Clips(mask, f), b, f, |mask|)
  {
    assert (mask + [b])[..|mask|] == mask;
  }

  /** The clips of two parts, the second one starting at record d. */
  ghost function Beside(l: seq<Segment>, r: seq<Segment>, d: nat): seq<Segment> {
    l + Shift(r, d)
  }

  /** The records of two parts with a gap between them. */
  ghost function Apart(left: seq<bool>, gap: nat, right: seq<bool>): seq<bool> {
    left + Silence(gap) + right
  }

  lemma ApartAppend(left: seq<bool>, gap: nat, right: seq<bool>, b: bool)
    ensures Apart(left, gap, right + [b]) == Apart(left, gap, right) + [b]
    ensures |Apart(left, gap, right)| == |left| + gap + |right|
  {
  }

  /** One more record on the right, whether it is included or not. */
  lemma SplitStep(left: seq<bool>, r: seq<Segment>, b: bool, d: nat, f: nat, n: nat)
    requires d >= |left| + MinGap(f)
    ensures Extended(Beside(Clips(left, f), r, d), b, f, d + n) == Beside(Clips(left, f), Extended(r, b, f, n), d)
  {
    if b {
      ClipsEnd(left, f);
      JoinShifted(Clips(left, f), r, d, f, n);
    }
  }

  lemma {:induction false} SplitParts(left: seq<bool>, gap: nat, right: seq<bool>, f: nat)
    requires gap >= MinGap(f)
    ensures Clips(Apart(left, gap, right), f) == Beside(Clips(left, f), Clips(right, f), |left| + gap)
    decreases |right|
  {
    hide *;
    if right == [] {
      NothingRight(left, gap, f);
    } else {
      var n, d := |right| - 1, |left| + gap;
      var before, b := right[..n], right[n];
      assert right == before + [b];
      SplitParts(left, gap, before, f);
      ApartAppend(left, gap, before, b);
      ClipsAppend(Apart(left, gap, before), b, f);
      SplitStep(left, Clips(before, f), b, d, f, n);
      ClipsAppend(before, b, f);
    }
  }

  /** A run of excluded records long enough to separate clips splits the analysis. */
  lemma SplitAtGap(left: seq<bool>, gap: nat, right: seq<bool>, f: nat)
    requires gap >= MinGap(f)
    ensures Clips(left + Silence(gap) + right, f) == Clips(left, f) + Shift(Clips(right, f), |left| + gap)
  {
    hide Clips, Shift, Silence;
    SplitParts(left, gap, right, f);
  }

  lemma NothingRight(left: seq<bool>, gap: nat, f: nat)
    ensures Clips(Apart(left, gap, []), f) == Beside(Clips(left, f), Clips([], f), |left| + gap)
  {
    var mask := Apart(left, gap, []);
    assert mask[..|left|] == left;
    ClipsOverGap(mask, |left|, f);
    assert Shift(Clips([], f), |left| + gap) == [];
  }

  lemma ClipsEnd(mask: seq<bool>, f: nat)
    ensures var clips := Clips(mask, f); clips != [] ==> clips[|clips| - 1].last < |mask|
  {
  }
}
