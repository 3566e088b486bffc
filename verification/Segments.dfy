/** Gap closing on include masks: which records the clips cover, and the clips themselves. */
module Segments {

  /** A clip, by the indices of its first and last record. */
  datatype Segment = Segment(first: nat, last: nat)

  /** The shortest gap that separates two clips. */
  function MinGap(f: nat): nat {
    if f == 0 then 1 else f
  }

  /** Record k lies strictly inside a gap of fewer than f records between the included records a and b. */
  ghost predicate Bridges(mask: seq<bool>, f: nat, a: nat, b: nat, k: nat) {
    && a < k < b < |mask| && mask[a] && mask[b] && b - a - 1 < f
    && forall j :: a < j < b ==> !mask[j]
  }

  /** The closing: a record is covered when it is included or lies in a short gap. */
  ghost predicate Covered(mask: seq<bool>, f: nat, k: nat)
    requires k < |mask|
  {
    mask[k] || exists a, b :: Bridges(mask, f, a, b, k)
  }

  ghost predicate Within(segments: seq<Segment>, k: nat) {
    exists i :: 0 <= i < |segments| && segments[i].first <= k <= segments[i].last
  }

  /** Clips in order, each from an included record to an included record, with at least the shortest
      separating gap between any two. */
  ghost predicate Separated(mask: seq<bool>, f: nat, segments: seq<Segment>) {
    && (forall i :: 0 <= i < |segments| ==>
                      && segments[i].first <= segments[i].last < |mask|
                      && mask[segments[i].first] && mask[segments[i].last])
    && (forall i, j :: 0 <= i < j < |segments| ==> segments[i].last + MinGap(f) < segments[j].first)
  }

  /** The clips of a mask: separated, and covering exactly the closing. */
  ghost predicate IsClosing(mask: seq<bool>, f: nat, segments: seq<Segment>) {
    && Separated(mask, f, segments)
    && forall k :: 0 <= k < |mask| ==> (Covered(mask, f, k) <==> Within(segments, k))
  }

  /** The plain way to build clips, without look-ahead: every included record joins the last clip when the gap
      is short, and starts a new one otherwise. */
  function Clips(mask: seq<bool>, f: nat): (segments: seq<Segment>)
    ensures segments != [] ==> segments[|segments| - 1].first <= segments[|segments| - 1].last < |mask|
  {
    if mask == [] then []
    else
      var n := |mask| - 1;
      var before := Clips(mask[..n], f);
      if mask[n] then Join(before, f, n) else before
  }

  function Join(segments: seq<Segment>, f: nat, n: nat): seq<Segment> {
    var m := |segments|;
    if m > 0 && n - segments[m - 1].last <= MinGap(f) then
      segments[..m - 1] + [segments[m - 1].(last := n)]
    else segments + [Segment(n, n)]
  }
}
