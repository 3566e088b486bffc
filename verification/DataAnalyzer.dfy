/** From analysed records to clip ranges with their metadata: one pass with look-ahead and index jumps
    (src/DataAnalyzer.cpp). */
module DataAnalyzer {
  import opened Types
  import opened Segments

  datatype TimeRange = TimeRange(start: int, duration: int)

  datatype Detected = Detected(num: int, list: Details)

  type SortedCollection = map<Uid, seq<Detected>>

  datatype TimeRangeWithMetadata = TimeRangeWithMetadata(range: TimeRange, collection: SortedCollection)

  function Mask(input: seq<RawData>): (mask: seq<bool>)
    ensures |mask| == |input| && forall k :: 0 <= k < |input| ==> mask[k] == input[k].included
  {
    seq(|input|, k requires 0 <= k < |input| => input[k].included)
  }

  /** The least integer at or above the frame rate. */
  function Ceil(r: real): (c: int)
    ensures c as real - 1.0 < r <= c as real
  {
    -((-r).Floor)
  }

  // ---------- metadata ----------

  /** A record of a clip that started at lo hands on its details when it is included, has any, and is either
      the clip's first record or follows an included one. */
  predicate HandsOn(input: seq<RawData>, lo: nat, k: nat)
    requires lo <= k < |input|
  {
    input[k].included && input[k].detected != map[] && (k == lo || input[k - 1].included)
  }

  /** Only records with details are kept for the metadata. */
  function PushDetected(temp: seq<RawData>, record: RawData): seq<RawData> {
    if record.detected != map[] then temp + [record] else temp
  }

  /** The records from lo up to hi, exclusive, that hand on their details. */
  function Picked(input: seq<RawData>, lo: nat, hi: nat): seq<RawData>
    requires hi <= |input|
  {
    if hi <= lo then []
    else
      var rest := Picked(input, lo, hi - 1);
      if HandsOn(input, lo, hi - 1) then rest + [input[hi - 1]] else rest
  }

  /** What the records hand on for one plugin, in order. */
  function Entries(uid: Uid, records: seq<RawData>): seq<Detected> {
    if records == [] then []
    else
      var last := records[|records| - 1];
      var rest := Entries(uid, records[..|records| - 1]);
      if uid in last.detected then rest + [Detected(last.num, last.detected[uid])] else rest
  }

  /** The records regrouped by plugin. */
  ghost predicate IsCollection(collection: SortedCollection, records: seq<RawData>) {
    forall uid: Uid :: (uid in collection <==> Entries(uid, records) != []) &&
                       (uid in collection ==> collection[uid] == Entries(uid, records))
  }

  // ---------- clips ----------

  /** The range and metadata of a clip. */
  ghost predicate Renders(clip: TimeRangeWithMetadata, input: seq<RawData>, s: Segment)
    requires s.first <= s.last < |input|
  {
    && clip.range == TimeRange(input[s.first].num, s.last - s.first + 1)
    && IsCollection(clip.collection, Picked(input, s.first, s.last + 1))
  }

  ghost predicate RenderAll(clips: seq<TimeRangeWithMetadata>, input: seq<RawData>, segments: seq<Segment>) {
    && |clips| == |segments|
    && forall i :: 0 <= i < |clips| ==>
                     segments[i].first <= segments[i].last < |input| && Renders(clips[i], input, segments[i])
  }

  /** A clip that reaches the last record is lost when it starts at a negative frame number, the mark of "no
      clip open". */
  function Kept(input: seq<RawData>, segments: seq<Segment>): seq<Segment> {
    var n := |segments|;
    if n > 0 && segments[n - 1].last + 1 == |input| && segments[n - 1].first < |input|
       && input[segments[n - 1].first].num < 0
    then segments[..n - 1] else segments
  }

  class DataAnalyzer {
    var frameCount: int
    var timeRange: seq<TimeRangeWithMetadata>

    constructor ()
      ensures frameCount == 0 && timeRange == []
    {
      frameCount := 0;
      timeRange := [];
    }

    method SetCorrectionValue(framerate: real)
      modifies this`frameCount
      ensures frameCount == Ceil(framerate)
    {
      frameCount := Ceil(framerate);
    }

    /** Looks for an included record fewer than frameCount records ahead. */
    method CanSkip(inputData: seq<RawData>, i: nat) returns (found: bool, skip: nat)
      requires frameCount >= 0 && i < |inputData|
      ensures found ==> 1 <= skip < frameCount && i + skip < |inputData| && inputData[i + skip].included
      ensures found ==> forall k :: i < k < i + skip ==> !inputData[k].included
      ensures !found ==> forall k :: i < k < i + frameCount && k < |inputData| ==> !inputData[k].included
    {
      var len: nat := frameCount;
      if i + len >= |inputData| {
        len := |inputData| - i;
      }
      found, skip := false, 0;
      var j := 1;
      while j < len
        invariant j == 1 || 1 < j <= len
        invariant forall k :: i < k < i + j && k < |inputData| ==> !inputData[k].included
      {
        if inputData[i + j].included {
          return true, j;
        }
        j := j + 1;
      }
    }

    /** Regroups the records by plugin. */
    method Sort(input: seq<RawData>) returns (tmp: SortedCollection)
      ensures IsCollection(tmp, input)
    {
      tmp := map[];
      if input == [] {
        return;
      }
      for i := 0 to |input|
        invariant IsCollection(tmp, input[..i])
      {
        var data := input[i];
        ghost var grouped := tmp;
        var rest := data.detected.Keys;
        assert input[..i + 1][..i] == input[..i];
        while rest != {}
          invariant rest <= data.detected.Keys
          invariant forall uid :: uid in grouped || uid in data.detected.Keys - rest <==> uid in tmp
          invariant forall uid :: uid in tmp ==>
                                    tmp[uid] == if uid in data.detected.Keys - rest
                                                then (if uid in grouped then grouped[uid] else [])
                                                     + [Detected(data.num, data.detected[uid])]
                                                else grouped[uid]
        {
          var uid :| uid in rest;
          rest := rest - {uid};
          tmp := tmp[uid := (if uid in tmp then tmp[uid] else []) + [Detected(data.num, data.detected[uid])]];
        }
      }
      assert input[..|input|] == input;
    }

    method PushRange(start: int, duration: int, temp: seq<RawData>) returns (clip: TimeRangeWithMetadata)
      modifies this`timeRange
      ensures timeRange == old(timeRange) + [clip]
      ensures clip.range == TimeRange(start, duration) && IsCollection(clip.collection, temp)
    {
      var collection := Sort(temp);
      clip := TimeRangeWithMetadata(TimeRange(start, duration), collection);
      timeRange := timeRange + [clip];
    }

    /** At an excluded record behind an open clip: either the gap is short, or the clip is done. */
    method EndOrBridge(inputData: seq<RawData>, i: nat, start: int, duration: int, temp: seq<RawData>, ghost f: nat,
                       ghost closed: seq<Segment>, ghost first: nat,
                       ghost base: seq<TimeRangeWithMetadata>, ghost clips: seq<TimeRangeWithMetadata>)
      returns (bridged: bool, skip: nat, ghost closed': seq<Segment>, ghost clips': seq<TimeRangeWithMetadata>)
      requires f == frameCount && i < |inputData| && !inputData[i].included
      requires Open(inputData, f, closed, first, i, start, duration, temp)
      requires Pushed(base, clips, timeRange, inputData, closed)
      modifies this`timeRange
      ensures Pushed(base, clips', timeRange, inputData, closed')
      ensures if bridged then
                && closed' == closed && i + skip < |inputData|
                && Open(inputData, f, closed, first, i + skip + 1, start, duration + skip + 1, temp)
              else Idle(inputData, f, closed', i + 1)
    {
      bridged, skip := CanSkip(inputData, i);
      closed', clips' := closed, clips;
      if bridged {
        BridgeGap(inputData, f, closed, first, i, skip, start, duration, temp);
      } else {
        CloseClip(inputData, f, closed, first, i, start, duration, temp);
        ghost var earlier := timeRange;
        var clip := PushRange(start, duration, temp);
        PushMore(base, clips, earlier, inputData, f, closed, first, i, start, duration, temp, clip);
        closed', clips' := closed + [Segment(first, i - 1)], clips + [clip];
      }
    }

    /** The clip still open at the end is pushed, provided its start does not look like the mark of none. */
    method EndOfInput(inputData: seq<RawData>, ghost before: bool, start: int, duration: int, temp: seq<RawData>,
                      ghost f: nat, ghost closed: seq<Segment>, ghost first: nat,
                      ghost base: seq<TimeRangeWithMetadata>, ghost clips: seq<TimeRangeWithMetadata>)
      returns (ghost clips': seq<TimeRangeWithMetadata>)
      requires Pushed(base, clips, timeRange, inputData, closed)
      requires before ==> Open(inputData, f, closed, first, |inputData|, start, duration, temp)
      requires !before ==> Idle(inputData, f, closed, |inputData|) && start == -1
      modifies this`timeRange
      ensures Pushed(base, clips', timeRange, inputData, Kept(inputData, Clips(Mask(inputData), f)))
    {
      hide Open, Idle, Pushed, Kept, Clips, IsCollection;
      clips' := clips;
      if before {
        AtEnd(inputData, f, closed, first, start, duration, temp);
      } else {
        AtEndIdle(inputData, f, closed);
      }
      if start >= 0 {
        ghost var earlier := timeRange;
        var clip := PushRange(start, duration, temp);
        PushMore(base, clips, earlier, inputData, f, closed, first, |inputData|, start, duration, temp, clip);
        clips' := clips + [clip];
      }
    }

    /** Appends the clips of the input; `clips` names what this call adds. */
    method AnalyzeRawData(inputData: seq<RawData>) returns (ghost clips: seq<TimeRangeWithMetadata>)
      requires frameCount >= 0
      modifies this`timeRange
      ensures timeRange == old(timeRange) + clips
      ensures RenderAll(clips, inputData, Kept(inputData, Clips(Mask(inputData), frameCount)))
    {
      hide *;
      var before := false;
      var start: int := -1;
      var duration: int := 1;
      var temp: seq<RawData> := [];
      ghost var f: nat, closed: seq<Segment>, first: nat, base := frameCount, [], 0, timeRange;
      clips := [];
      StartIdle(inputData, f, timeRange);
      var i := 0;
      while i < |inputData|
        invariant 0 <= i <= |inputData| && f == frameCount
        invariant Pushed(base, clips, timeRange, inputData, closed)
        invariant before ==> Open(inputData, f, closed, first, i, start, duration, temp)
        invariant !before ==> Idle(inputData, f, closed, i) && start == -1 && duration == 1 && temp == []
      {
        if !before && inputData[i].included {
          OpenClip(inputData, f, closed, i);
          first := i;
          start := inputData[i].num;
          before := inputData[i].included;
          temp := PushDetected(temp, inputData[i]);
        } else if before && inputData[i].included {
          ExtendClip(inputData, f, closed, first, i, start, duration, temp);
          duration := duration + 1;
          temp := PushDetected(temp, inputData[i]);
        } else if before && !inputData[i].included {
          var bridged, skip;
          bridged, skip, closed, clips :=
            EndOrBridge(inputData, i, start, duration, temp, f, closed, first, base, clips);
          if bridged {
            duration := duration + skip + 1;
            i := i + skip;
          } else {
            start := -1;
            duration := 1;
            before := false;
            temp := [];
          }
        } else {
          StayIdle(inputData, f, closed, i);
        }
        i := i + 1;
      }
      clips := EndOfInput(inputData, before, start, duration, temp, f, closed, first, base, clips);
      PushedMeans(base, clips, timeRange, inputData, Kept(inputData, Clips(Mask(inputData), f)));
    }
  }

  // ---------- the states of the pass ----------

  /** Before record i a clip is open: it ends at i - 1 and runs on from `closed`. */
  ghost predicate Open(input: seq<RawData>, f: nat, closed: seq<Segment>, first: nat, i: nat,
                       start: int, duration: int, temp: seq<RawData>)
  {
    && first < i <= |input| && input[i - 1].included
    && Clips(Mask(input)[..i], f) == closed + [Segment(first, i - 1)]
    && start == input[first].num && duration == i - first && temp == Picked(input, first, i)
  }

  /** Before record i no clip is open, and nothing included can still join the last closed one. */
  ghost predicate Idle(input: seq<RawData>, f: nat, closed: seq<Segment>, i: nat) {
    && i <= |input| && Clips(Mask(input)[..i], f) == closed
    && (closed != [] ==>
          var last := closed[|closed| - 1].last;
          last + 1 < i && forall k :: last < k <= last + MinGap(f) && k < |input| ==> !input[k].included)
  }

  lemma {:induction false} GapKeepsClips(input: seq<RawData>, f: nat, i: nat, n: nat)
    requires i <= n <= |input| && forall k :: i <= k < n ==> !input[k].included
    ensures Clips(Mask(input)[..n], f) == Clips(Mask(input)[..i], f)
  {
    if i < n {
      GapKeepsClips(input, f, i, n - 1);
      assert Mask(input)[..n][..n - 1] == Mask(input)[..n - 1];
    }
  }

  lemma IncludedJoins(input: seq<RawData>, f: nat, i: nat)
    requires i < |input| && input[i].included
    ensures Clips(Mask(input)[..i + 1], f) == Join(Clips(Mask(input)[..i], f), f, i)
  {
    assert Mask(input)[..i + 1][..i] == Mask(input)[..i];
  }

  lemma OpenClip(input: seq<RawData>, f: nat, closed: seq<Segment>, i: nat)
    requires Idle(input, f, closed, i) && i < |input| && input[i].included
    ensures Open(input, f, closed, i, i + 1, input[i].num, 1, PushDetected([], input[i]))
  {
    IncludedJoins(input, f, i);
  }

  lemma ExtendClip(input: seq<RawData>, f: nat, closed: seq<Segment>, first: nat, i: nat,
                   start: int, duration: int, temp: seq<RawData>)
    requires Open(input, f, closed, first, i, start, duration, temp) && i < |input| && input[i].included
    ensures Open(input, f, closed, first, i + 1, start, duration + 1,
                 PushDetected(temp, input[i]))
  {
    IncludedJoins(input, f, i);
  }

  /** A short gap and the included record behind it join the open clip, without handing on details. */
  lemma BridgeGap(input: seq<RawData>, f: nat, closed: seq<Segment>, first: nat, i: nat, skip: nat,
                  start: int, duration: int, temp: seq<RawData>)
    requires Open(input, f, closed, first, i, start, duration, temp)
    requires 1 <= skip < f && i + skip < |input| && input[i + skip].included
    requires forall k :: i <= k < i + skip ==> !input[k].included
    ensures Open(input, f, closed, first, i + skip + 1, start, duration + skip + 1, temp)
  {
    hide Clips, Picked, Mask;
    GapKeepsClips(input, f, i, i + skip);
    IncludedJoins(input, f, i + skip);
    BridgePicksNothing(input, first, i, i + skip);
  }

  lemma CloseClip(input: seq<RawData>, f: nat, closed: seq<Segment>, first: nat, i: nat,
                  start: int, duration: int, temp: seq<RawData>)
    requires Open(input, f, closed, first, i, start, duration, temp) && i < |input| && !input[i].included
    requires forall k :: i < k < i + f && k < |input| ==> !input[k].included
    ensures Idle(input, f, closed + [Segment(first, i - 1)], i + 1)
  {
    GapKeepsClips(input, f, i, i + 1);
  }

  lemma StayIdle(input: seq<RawData>, f: nat, closed: seq<Segment>, i: nat)
    requires Idle(input, f, closed, i) && i < |input| && !input[i].included
    ensures Idle(input, f, closed, i + 1)
  {
    GapKeepsClips(input, f, i, i + 1);
  }

  lemma {:induction false} GapPicksNothing(input: seq<RawData>, lo: nat, i: nat, n: nat)
    requires lo < i <= n <= |input| && forall k :: i <= k < n ==> !input[k].included
    ensures Picked(input, lo, n) == Picked(input, lo, i)
  {
    if i < n { GapPicksNothing(input, lo, i, n - 1); }
  }

  /** Neither the records of a gap nor the included one that ends it hand on details. */
  lemma BridgePicksNothing(input: seq<RawData>, lo: nat, i: nat, n: nat)
    requires lo < i < n < |input| && forall k :: i <= k < n ==> !input[k].included
    ensures Picked(input, lo, n + 1) == Picked(input, lo, i)
  {
    GapPicksNothing(input, lo, i, n);
  }

  /** The ranges now are those of earlier inputs and the clips of this one so far. */
  ghost predicate Pushed(base: seq<TimeRangeWithMetadata>, clips: seq<TimeRangeWithMetadata>,
                         now: seq<TimeRangeWithMetadata>, input: seq<RawData>, segments: seq<Segment>)
  {
    now == base + clips && RenderAll(clips, input, segments)
  }

  lemma PushedMeans(base: seq<TimeRangeWithMetadata>, clips: seq<TimeRangeWithMetadata>,
                    now: seq<TimeRangeWithMetadata>, input: seq<RawData>, segments: seq<Segment>)
    requires Pushed(base, clips, now, input, segments)
    ensures now == base + clips && RenderAll(clips, input, segments)
  {
  }

  lemma StartIdle(input: seq<RawData>, f: nat, base: seq<TimeRangeWithMetadata>)
    ensures Idle(input, f, [], 0) && Pushed(base, [], base, input, [])
  {
  }

  /** Pushing the open clip keeps the ranges in step. */
  lemma PushMore(base: seq<TimeRangeWithMetadata>, clips: seq<TimeRangeWithMetadata>, now: seq<TimeRangeWithMetadata>,
                 input: seq<RawData>, f: nat, closed: seq<Segment>, first: nat, i: nat, start: int, duration: int,
                 temp: seq<RawData>, clip: TimeRangeWithMetadata)
    requires Open(input, f, closed, first, i, start, duration, temp) && Pushed(base, clips, now, input, closed)
    requires clip.range == TimeRange(start, duration) && IsCollection(clip.collection, temp)
    ensures i > 0 && Pushed(base, clips + [clip], now + [clip], input, closed + [Segment(first, i - 1)])
  {
    RenderClip(clips, input, f, closed, first, i, start, duration, temp, clip);
    assert base + clips + [clip] == base + (clips + [clip]);
  }

  lemma RenderClip(clips: seq<TimeRangeWithMetadata>, input: seq<RawData>, f: nat, closed: seq<Segment>, first: nat,
                   i: nat, start: int, duration: int, temp: seq<RawData>, clip: TimeRangeWithMetadata)
    requires Open(input, f, closed, first, i, start, duration, temp) && RenderAll(clips, input, closed)
    requires clip.range == TimeRange(start, duration) && IsCollection(clip.collection, temp)
    ensures i > 0 && RenderAll(clips + [clip], input, closed + [Segment(first, i - 1)])
  {
    var s := Segment(first, i - 1);
    assert Renders(clip, input, s);
  }

  /** With a clip open at the end, it is kept unless its first frame number is negative. */
  lemma AtEnd(input: seq<RawData>, f: nat, closed: seq<Segment>, first: nat, start: int, duration: int,
              temp: seq<RawData>)
    requires Open(input, f, closed, first, |input|, start, duration, temp)
    ensures Kept(input, Clips(Mask(input), f)) == if start < 0 then closed else closed + [Segment(first, |input| - 1)]
  {
    assert Mask(input)[..|input|] == Mask(input);
  }

  lemma AtEndIdle(input: seq<RawData>, f: nat, closed: seq<Segment>)
    requires Idle(input, f, closed, |input|)
    ensures Kept(input, Clips(Mask(input), f)) == closed
  {
    assert Mask(input)[..|input|] == Mask(input);
  }
}
