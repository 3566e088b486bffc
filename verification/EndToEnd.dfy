/** From a link expression and a video to clip ranges (src/Session.cpp, src/DataFlow.cpp, src/RenderTask.cpp). */
module EndToEnd {
  import opened Types
  import opened Expression
  import opened Walk
  import opened Segments
  import opened DataAnalyzer
  import Validator
  import CompilerLaws
  import ExpressionLaws
  import WalkLaws
  import VerdictLaws
  import FrameLaws
  import SegmentLaws
  import MetadataLaws
  import A = AvSynchronizer
  import D = DataFlow
  import L = LogicAnalyzer
  import P = PluginManager
  import R = Accumulator

  /** The setup of a session: frames are skipped only when there is video. */
  function SetupOf(request: seq<Token>, plugins: PluginTable, detector: Detector, media: A.Media, skip: nat): D.Setup
    requires Compiled(request).Build?
  {
    D.Setup(media, plugins, detector, Compiled(request).program, if media.hasVideo then skip else 0)
  }

  /** What a session comes to: the expression is refused, or compiling it touches a missing node, or it does not
      pass the link check at the start, or the analysis reports an error and nothing is rendered, or the ranges to
      render. */
  datatype Result =
    | Refused
    | Undefined
    | Unlinked
    | Failed(error: int)
    | Ranges(ranges: seq<TimeRangeWithMetadata>)

  /** The link check looks up the word behind & or `:` as a plugin, and fails on an uncut mark. */
  predicate MarkBehindLink(request: seq<Token>) {
    exists i :: 1 <= i < |request| && request[i] == Uncut && (request[i - 1] == And || request[i - 1] == Colon)
  }

  /** Builds the ranges of a finished analysis. */
  method MakeTimeRange(accumulated: seq<RawData>, framerate: real) returns (ranges: seq<TimeRangeWithMetadata>)
    requires Ceil(framerate) >= 0
    ensures RenderAll(ranges, accumulated, Kept(accumulated, Clips(Mask(accumulated), Ceil(framerate))))
  {
    var da := new DataAnalyzer();
    da.SetCorrectionValue(framerate);
    ghost var clips := da.AnalyzeRawData(accumulated);
    ranges := da.timeRange;
    assert ranges == clips;
  }

  /** The stop flag of a session that is not stopped. */
  predicate GoOn(t: nat) {
    true
  }

  /** An analysis that is not stopped, from the compiled expression to the accumulated records. */
  method RunDataFlow(request: seq<Token>, plugins: PluginTable, detector: Detector, media: A.Media, skip: nat)
    returns (ret: int, accumulated: seq<RawData>, ghost groups: nat)
    requires Compiled(request).Build? && Runnable(Compiled(request).program)
    requires LoadedProgram(plugins, Compiled(request).program) && D.SingleFrame(detector)
    ensures D.Complete(SetupOf(request, plugins, detector, media, skip), FrameLaws.START, groups)
    ensures accumulated == D.Records(SetupOf(request, plugins, detector, media, skip), FrameLaws.START, groups)
    ensures ret == D.LastError(SetupOf(request, plugins, detector, media, skip), FrameLaws.START, groups)
  {
    hide L.LogicAnalyzer.Shape, Compiled, Runnable, LoadedProgram, D.Gather, D.GroupResult, D.Records, D.Complete,
      D.LastError, D.DataFlow.Over, GoOn;
    ghost var setup := SetupOf(request, plugins, detector, media, skip);
    var logicAnalyzer := new L.LogicAnalyzer(request);
    var extractor := new A.FrameExtractor(media);
    var avSynchronizer := new A.AvSynchronizer(extractor);
    var pluginManager := new P.PluginManager(plugins, detector);
    var accumulator := new R.Accumulator();
    var dataFlow := new D.DataFlow(avSynchronizer, logicAnalyzer, pluginManager, accumulator,
                                   if media.hasVideo then skip else 0);
    assert dataFlow.Config() == setup;
    ghost var polled;
    ret, groups, polled := dataFlow.Worker(GoOn);
    NeverStopped(dataFlow, setup, groups, ret, polled);
    accumulated := accumulator.rawdata;
  }

  lemma NeverStopped(dataFlow: D.DataFlow, setup: D.Setup, groups: nat, ret: int, polled: nat)
    requires Runnable(setup.program)
    requires dataFlow.Over(setup, FrameLaws.START, groups, D.Records(setup, FrameLaws.START, groups), ret, GoOn, polled)
    ensures D.Complete(setup, FrameLaws.START, groups) && ret == D.LastError(setup, FrameLaws.START, groups)
  {
    hide D.Records, D.LastError, D.Complete;
  }

  /** The session has run to the end of the frames: an error is reported and nothing rendered, or the records
      have become ranges. */
  ghost predicate Finished(setup: D.Setup, framerate: real, groups: nat, result: Result)
    requires Runnable(setup.program) && Ceil(framerate) >= 0
  {
    var records, ret := D.Records(setup, FrameLaws.START, groups), D.LastError(setup, FrameLaws.START, groups);
    && D.Complete(setup, FrameLaws.START, groups)
    && if ret != 0 then result == Result.Failed(ret)
       else result.Ranges? && RenderAll(result.ranges, records, Kept(records, Clips(Mask(records), Ceil(framerate))))
  }

  // ---------- what the ranges mean ----------

  /** The detect flags seen by group g. */
  function GroupFlags(setup: D.Setup, g: nat): Valuation {
    var f := D.Group(setup, FrameLaws.START, g);
    WalkLaws.Flags(D.GroupEnv(setup.plugins, setup.detector, f.video, f.audio))
  }

  /** Frame number `num` lies in some range. */
  ghost predicate InRanges(ranges: seq<TimeRangeWithMetadata>, num: int) {
    exists i :: 0 <= i < |ranges| && ranges[i].range.start <= num < ranges[i].range.start + ranges[i].range.duration
  }

  /** The verdict of a group is the value of the expression. */
  lemma GroupVerdict(request: seq<Token>, setup: D.Setup, g: nat)
    requires Validator.Accepts(request, setup.plugins) && !CompilerLaws.StartsDetached(request)
    requires Compiled(request).Build? && setup.program == Compiled(request).program
    requires Runnable(setup.program) && VerdictLaws.ReadsAsWritten(setup.plugins, setup.program)
    requires D.GroupResult(setup, FrameLaws.START, g).Decided?
    ensures D.GroupResult(setup, FrameLaws.START, g).included <==> Meaning(request, GroupFlags(setup, g))
  {
    var f := D.Group(setup, FrameLaws.START, g);
    var env := D.GroupEnv(setup.plugins, setup.detector, f.video, f.audio);
    ExpressionLaws.EvaluatorCorrect(request, setup.plugins, env.reply);
    WalkLaws.RunIsRecursion(env, setup.program);
  }

  /** No clip is lost when no frame number is negative. */
  lemma AllKept(records: seq<RawData>, f: nat)
    requires forall k :: 0 <= k < |records| ==> records[k].num >= 0
    ensures Kept(records, Clips(Mask(records), f)) == Clips(Mask(records), f)
  {
    MetadataLaws.KeptIff(records, f);
  }

  lemma RangesAreClips(records: seq<RawData>, base: nat, clips: seq<Segment>, ranges: seq<TimeRangeWithMetadata>,
                       k: nat)
    requires forall j :: 0 <= j < |records| ==> records[j].num == base + j
    requires RenderAll(ranges, records, clips)
    ensures InRanges(ranges, base + k) <==> Within(clips, k)
  {
    hide IsCollection;
    forall i | 0 <= i < |clips|
      ensures ranges[i].range == TimeRange(base + clips[i].first, clips[i].last - clips[i].first + 1)
    {
      assert Renders(ranges[i], records, clips[i]);
    }
    if InRanges(ranges, base + k) {
      var i :| 0 <= i < |ranges|
               && ranges[i].range.start <= base + k < ranges[i].range.start + ranges[i].range.duration;
      assert clips[i].first <= k <= clips[i].last;
    }
    if Within(clips, k) {
      var i :| 0 <= i < |clips| && clips[i].first <= k <= clips[i].last;
      assert ranges[i].range.start <= base + k < ranges[i].range.start + ranges[i].range.duration;
    }
  }

  lemma NothingBelow(records: seq<RawData>, base: nat, clips: seq<Segment>, ranges: seq<TimeRangeWithMetadata>,
                     num: int)
    requires forall j :: 0 <= j < |records| ==> records[j].num == base + j
    requires RenderAll(ranges, records, clips) && num < base
    ensures !InRanges(ranges, num)
  {
    hide IsCollection;
    forall i | 0 <= i < |clips| ensures ranges[i].range.start >= base {
      assert Renders(ranges[i], records, clips[i]);
    }
  }

  /** Ranges of consecutively numbered records hold exactly the covered frames. */
  lemma RangesCover(records: seq<RawData>, base: nat, f: nat, ranges: seq<TimeRangeWithMetadata>, num: int)
    requires forall k :: 0 <= k < |records| ==> records[k].num == base + k
    requires RenderAll(ranges, records, Kept(records, Clips(Mask(records), f)))
    ensures InRanges(ranges, num)
            <==> base <= num < base + |records| && Covered(Mask(records), f, num - base)
  {
    hide RenderAll, Clips, Kept, InRanges;
    var mask, clips := Mask(records), Clips(Mask(records), f);
    SegmentLaws.ClipsAreClosing(mask, f);
    AllKept(records, f);
    if num < base {
      NothingBelow(records, base, clips, ranges, num);
    } else {
      RangesAreClips(records, base, clips, ranges, num - base);
    }
  }

  /** The mask of a complete analysis: entry k is the value of the expression on the group of frame k. */
  ghost predicate IsVerdictMask(request: seq<Token>, setup: D.Setup, groups: nat, mask: seq<bool>) {
    && |mask| == groups * (setup.skip + 1)
    && forall k :: 0 <= k < |mask| ==> mask[k] == Meaning(request, GroupFlags(setup, k / (setup.skip + 1)))
  }

  /** Every record is numbered in turn and carries the value of the expression on its group. */
  ghost predicate VerdictRecords(request: seq<Token>, setup: D.Setup, base: nat, groups: nat, records: seq<RawData>) {
    && |records| == groups * (setup.skip + 1)
    && forall k :: 0 <= k < |records| ==> VerdictRecord(request, setup, base, k, records[k])
  }

  ghost predicate VerdictRecord(request: seq<Token>, setup: D.Setup, base: nat, k: nat, r: RawData) {
    r.num == base + k && r.included == Meaning(request, GroupFlags(setup, k / (setup.skip + 1)))
  }

  lemma VideoRecordsVerdicts(request: seq<Token>, setup: D.Setup, base: nat, groups: nat)
    requires Validator.Accepts(request, setup.plugins) && !CompilerLaws.StartsDetached(request)
    requires Compiled(request).Build? && setup.program == Compiled(request).program
    requires Runnable(setup.program) && VerdictLaws.ReadsAsWritten(setup.plugins, setup.program)
    requires setup.media.hasVideo && FrameLaws.Consecutive(setup.media, base)
    requires D.Complete(setup, FrameLaws.START, groups)
    requires forall g :: 0 <= g < groups ==> D.GroupResult(setup, FrameLaws.START, g).Decided?
    ensures groups == |setup.media.video| / (setup.skip + 1)
    ensures VerdictRecords(request, setup, base, groups, D.Records(setup, FrameLaws.START, groups))
  {
    hide D.Records, D.GroupResult, D.Complete, Meaning, GroupFlags, Compiled, Runnable, Validator.Accepts,
      VerdictLaws.ReadsAsWritten, FrameLaws.RecordOf;
    var records, d := D.Records(setup, FrameLaws.START, groups), setup.skip + 1;
    FrameLaws.CompleteVideo(setup, groups);
    FrameLaws.VideoRecords(setup, groups, 0, 0);
    FrameLaws.BeforeIsProduct(groups, d);
    forall k | 0 <= k < |records| ensures VerdictRecord(request, setup, base, k, records[k]) {
      FrameLaws.Locate(k, d, groups);
      FrameLaws.RecordNumber(setup, groups, base, k / d, k % d);
      GroupVerdict(request, setup, k / d);
    }
  }

  /** No evaluation raises the error code zero, which stands for success. */
  ghost predicate ErrorsAreCodes(detector: Detector) {
    forall uid, frame :: detector(uid, frame).Raised? ==> detector(uid, frame).error != 0
  }

  lemma BatchErrors(detector: Detector, uid: Uid, frames: seq<Frame>, last: Outcome)
    requires ErrorsAreCodes(detector)
    ensures var r := D.AnyFrame(detector, uid, frames, last); r.Raised? ==> r.error != 0
  {
  }

  lemma GroupErrors(setup: D.Setup, g: nat)
    requires Runnable(setup.program) && ErrorsAreCodes(setup.detector)
    ensures var r := D.GroupResult(setup, FrameLaws.START, g); r.Aborted? ==> r.error != 0
  {
    hide EvalRows, D.Group;
    var f := D.Group(setup, FrameLaws.START, g);
    var env := D.GroupEnv(setup.plugins, setup.detector, f.video, f.audio);
    forall uid | env.reply(uid).Raised? ensures env.reply(uid).error != 0 {
      BatchErrors(setup.detector, uid, f.audio, Outcome(true, []));
    }
    WalkLaws.RunErrors(env, setup.program, 0, BLANK);
  }

  /** Records that carry verdicts become ranges that hold exactly the closing of the verdicts. */
  lemma VerdictRanges(request: seq<Token>, setup: D.Setup, base: nat, groups: nat, records: seq<RawData>, f: nat,
                      ranges: seq<TimeRangeWithMetadata>, num: int)
    requires VerdictRecords(request, setup, base, groups, records)
    requires RenderAll(ranges, records, Kept(records, Clips(Mask(records), f)))
    ensures IsVerdictMask(request, setup, groups, Mask(records))
    ensures InRanges(ranges, num) <==> base <= num < base + |records| && Covered(Mask(records), f, num - base)
  {
    hide Meaning, GroupFlags, RenderAll, Kept, Clips, InRanges, Covered;
    assert forall k :: 0 <= k < |records| ==> VerdictRecord(request, setup, base, k, records[k]);
    RangesCover(records, base, f, ranges, num);
  }

  /** A session that gives ranges has raised no error. */
  lemma RangesWithoutError(setup: D.Setup, framerate: real, groups: nat, result: Result)
    requires Runnable(setup.program) && Ceil(framerate) >= 0 && ErrorsAreCodes(setup.detector)
    requires Finished(setup, framerate, groups, result) && result.Ranges?
    ensures forall g :: 0 <= g < groups ==> D.GroupResult(setup, FrameLaws.START, g).Decided?
  {
    hide D.Records, D.LastError, D.GroupResult, D.Complete, RenderAll, Kept, Clips, ErrorsAreCodes;
    forall g | 0 <= g < groups && D.GroupResult(setup, FrameLaws.START, g).Aborted?
      ensures D.GroupResult(setup, FrameLaws.START, g).error != 0
    {
      GroupErrors(setup, g);
    }
    FrameLaws.NoErrorReported(setup, groups);
  }

  /** End to end: a session on a video that gives ranges has raised no error, and the ranges hold exactly the
      frames covered by the closing of the expression's values, over the whole groups of the video. */
  lemma VideoRanges(request: seq<Token>, setup: D.Setup, base: nat, groups: nat, framerate: real, result: Result,
                    num: int)
    requires Validator.Accepts(request, setup.plugins) && !CompilerLaws.StartsDetached(request)
    requires Compiled(request).Build? && setup.program == Compiled(request).program
    requires Runnable(setup.program) && VerdictLaws.ReadsAsWritten(setup.plugins, setup.program)
    requires setup.media.hasVideo && FrameLaws.Consecutive(setup.media, base) && ErrorsAreCodes(setup.detector)
    requires Ceil(framerate) >= 0 && Finished(setup, framerate, groups, result) && result.Ranges?
    ensures groups == |setup.media.video| / (setup.skip + 1)
    ensures var mask := Mask(D.Records(setup, FrameLaws.START, groups));
            && IsVerdictMask(request, setup, groups, mask)
            && (InRanges(result.ranges, num)
                <==> base <= num < base + |mask| && Covered(mask, Ceil(framerate), num - base))
  {
    hide D.Records, D.LastError, D.GroupResult, D.Complete, Meaning, Compiled, Runnable, Validator.Accepts,
      VerdictLaws.ReadsAsWritten, RenderAll, Kept, Clips, InRanges, Covered, ErrorsAreCodes, VerdictRecords,
      IsVerdictMask;
    RangesWithoutError(setup, framerate, groups, result);
    VideoRecordsVerdicts(request, setup, base, groups);
    var records := D.Records(setup, FrameLaws.START, groups);
    VerdictRanges(request, setup, base, groups, records, Ceil(framerate), result.ranges, num);
  }

  // ---------- audio alone ----------

  /** The frames of the audio are numbered one after the other. */
  ghost predicate AudioConsecutive(m: A.Media, base: int) {
    forall t :: 0 <= t < |m.audio| ==> m.audio[t].num == base + t
  }

  lemma AudioRecordsVerdicts(request: seq<Token>, setup: D.Setup, base: nat, groups: nat)
    requires Validator.Accepts(request, setup.plugins) && !CompilerLaws.StartsDetached(request)
    requires Compiled(request).Build? && setup.program == Compiled(request).program
    requires Runnable(setup.program) && VerdictLaws.ReadsAsWritten(setup.plugins, setup.program)
    requires !setup.media.hasVideo && setup.media.hasAudio && setup.skip == 0 && AudioConsecutive(setup.media, base)
    requires D.Complete(setup, FrameLaws.START, groups)
    requires forall g :: 0 <= g < groups ==> D.GroupResult(setup, FrameLaws.START, g).Decided?
    ensures groups == |setup.media.audio|
    ensures VerdictRecords(request, setup, base, groups, D.Records(setup, FrameLaws.START, groups))
  {
    hide D.Records, D.GroupResult, Meaning, GroupFlags, Compiled, Runnable, Validator.Accepts,
      VerdictLaws.ReadsAsWritten;
    var records := D.Records(setup, FrameLaws.START, groups);
    FrameLaws.AudioRecords(setup, groups, 0);
    forall k | 0 <= k < |records| ensures VerdictRecord(request, setup, base, k, records[k]) {
      FrameLaws.AudioRecords(setup, groups, k);
      GroupVerdict(request, setup, k);
      assert k / 1 == k;
    }
  }

  /** End to end for audio alone: every frame is a group of its own, and the ranges hold exactly the frames covered
      by the closing of the expression's values. */
  lemma AudioRanges(request: seq<Token>, setup: D.Setup, base: nat, groups: nat, framerate: real, result: Result,
                    num: int)
    requires Validator.Accepts(request, setup.plugins) && !CompilerLaws.StartsDetached(request)
    requires Compiled(request).Build? && setup.program == Compiled(request).program
    requires Runnable(setup.program) && VerdictLaws.ReadsAsWritten(setup.plugins, setup.program)
    requires !setup.media.hasVideo && setup.media.hasAudio && setup.skip == 0 && AudioConsecutive(setup.media, base)
    requires ErrorsAreCodes(setup.detector)
    requires Ceil(framerate) >= 0 && Finished(setup, framerate, groups, result) && result.Ranges?
    ensures groups == |setup.media.audio|
    ensures var mask := Mask(D.Records(setup, FrameLaws.START, groups));
            && IsVerdictMask(request, setup, groups, mask)
            && (InRanges(result.ranges, num)
                <==> base <= num < base + |mask| && Covered(mask, Ceil(framerate), num - base))
  {
    hide D.Records, D.LastError, D.GroupResult, D.Complete, Meaning, Compiled, Runnable, Validator.Accepts,
      VerdictLaws.ReadsAsWritten, RenderAll, Kept, Clips, InRanges, Covered, ErrorsAreCodes, VerdictRecords,
      IsVerdictMask;
    RangesWithoutError(setup, framerate, groups, result);
    AudioRecordsVerdicts(request, setup, base, groups);
    var records := D.Records(setup, FrameLaws.START, groups);
    VerdictRanges(request, setup, base, groups, records, Ceil(framerate), result.ranges, num);
  }

  // ---------- in the session's own terms ----------

  /** The audio detector fires on frame i of the batch, and no earlier frame makes it raise an error. */
  ghost predicate FiresOn(detector: Detector, uid: Uid, audio: seq<Frame>, i: nat)
    requires i < |audio|
  {
    && detector(uid, audio[i]).Answer? && detector(uid, audio[i]).outcome.detect
    && forall j :: 0 <= j < i ==> detector(uid, audio[j]).Answer?
  }

  /** What a plugin says about a video frame and the audio that goes with it. */
  ghost predicate Yes(plugins: PluginTable, detector: Detector, video: Option<Frame>, audio: seq<Frame>, uid: Uid) {
    uid in plugins ==>
      match plugins[uid]
      case VideoDetect =>
        video.Some? ==> detector(uid, video.value).Answer? && detector(uid, video.value).outcome.detect
      case AudioDetect => audio == [] || exists i :: 0 <= i < |audio| && FiresOn(detector, uid, audio, i)
      case _ => true
  }

  /** The value of the expression on a video frame and the audio that goes with it. */
  ghost predicate ValueOn(request: seq<Token>, plugins: PluginTable, detector: Detector, video: Option<Frame>,
                          audio: seq<Frame>)
  {
    Meaning(request, uid => Yes(plugins, detector, video, audio, uid))
  }

  lemma {:induction false} SameMeaning(request: seq<Token>, v: Valuation, w: Valuation)
    requires forall uid :: v(uid) == w(uid)
    ensures FoldAll(request, v) == FoldAll(request, w)
  {
    if request != [] {
      SameMeaning(request[..|request| - 1], v, w);
    }
  }

  lemma {:induction false} BatchFires(detector: Detector, uid: Uid, frames: seq<Frame>, last: Outcome)
    ensures var r := D.AnyFrame(detector, uid, frames, last);
            r.Answer? && r.outcome.detect
            <==> if frames == [] then last.detect
                 else exists i :: 0 <= i < |frames| && FiresOn(detector, uid, frames, i)
    decreases |frames|
  {
    if frames != [] && detector(uid, frames[0]).Answer? {
      var o, rest := detector(uid, frames[0]).outcome, frames[1..];
      if o.detect {
        assert FiresOn(detector, uid, frames, 0);
      } else {
        BatchFires(detector, uid, rest, o);
        forall i | 0 <= i < |rest| ensures FiresOn(detector, uid, rest, i) <==> FiresOn(detector, uid, frames, i + 1) {
          FiresShift(detector, uid, frames, i);
        }
        if exists i :: 0 <= i < |frames| && FiresOn(detector, uid, frames, i) {
          var i :| 0 <= i < |frames| && FiresOn(detector, uid, frames, i);
          assert i > 0 && FiresOn(detector, uid, rest, i - 1);
        }
      }
    }
  }

  lemma FiresShift(detector: Detector, uid: Uid, frames: seq<Frame>, i: nat)
    requires i + 1 < |frames| && detector(uid, frames[0]).Answer?
    ensures FiresOn(detector, uid, frames[1..], i) <==> FiresOn(detector, uid, frames, i + 1)
  {
    var rest := frames[1..];
    assert forall j :: 0 <= j < |rest| ==> rest[j] == frames[j + 1];
    if FiresOn(detector, uid, rest, i) {
      forall j | 0 <= j < i + 1 ensures detector(uid, frames[j]).Answer? {
        if j > 0 { assert detector(uid, rest[j - 1]).Answer?; }
      }
    }
    if FiresOn(detector, uid, frames, i + 1) {
      forall j | 0 <= j < i ensures detector(uid, rest[j]).Answer? {
        assert detector(uid, frames[j + 1]).Answer?;
      }
    }
  }

  /** The flags a group is evaluated with are what the plugins say. */
  lemma FlagsAreYes(plugins: PluginTable, detector: Detector, video: Option<Frame>, audio: seq<Frame>, uid: Uid)
    ensures WalkLaws.Flags(D.GroupEnv(plugins, detector, video, audio))(uid)
            <==> Yes(plugins, detector, video, audio, uid)
  {
    hide FiresOn;
    BatchFires(detector, uid, audio, Outcome(true, []));
  }

  /** The value of a group, told from its frames. */
  lemma GroupValue(request: seq<Token>, setup: D.Setup, g: nat)
    ensures var f := D.Group(setup, FrameLaws.START, g);
            Meaning(request, GroupFlags(setup, g)) == ValueOn(request, setup.plugins, setup.detector, f.video, f.audio)
  {
    hide D.Group;
    var f := D.Group(setup, FrameLaws.START, g);
    var says: Valuation := uid => Yes(setup.plugins, setup.detector, f.video, f.audio, uid);
    forall uid ensures GroupFlags(setup, g)(uid) == says(uid) {
      FlagsAreYes(setup.plugins, setup.detector, f.video, f.audio, uid);
    }
    SameMeaning(request, GroupFlags(setup, g), says);
  }

  /** The value on video frame t and the audio between its cuts. */
  ghost predicate VideoEntry(request: seq<Token>, plugins: PluginTable, detector: Detector, media: A.Media,
                             cuts: seq<nat>, t: nat, value: bool)
  {
    && t < |media.video| && t + 1 < |cuts| && cuts[t] <= cuts[t + 1] <= |media.audio|
    && value == ValueOn(request, plugins, detector, Some(media.video[t]), media.audio[cuts[t]..cuts[t + 1]])
  }

  /** One entry for each frame of the whole groups, with the value on the last frame of its group. */
  ghost predicate VideoMask(request: seq<Token>, plugins: PluginTable, detector: Detector, media: A.Media, skip: nat,
                            cuts: seq<nat>, mask: seq<bool>)
  {
    var d := skip + 1;
    && |mask| == |media.video| / d * d
    && forall k :: 0 <= k < |mask| ==> VideoEntry(request, plugins, detector, media, cuts, k / d * d + skip, mask[k])
  }

  /** The ranges hold exactly the frames, numbered from `base`, that the closing of the mask covers. */
  ghost predicate HoldClosing(ranges: seq<TimeRangeWithMetadata>, base: nat, mask: seq<bool>, f: nat) {
    forall num :: InRanges(ranges, num) <==> base <= num < base + |mask| && Covered(mask, f, num - base)
  }

  /** What a session on a video makes of it. */
  ghost predicate VideoOutcome(request: seq<Token>, plugins: PluginTable, detector: Detector, media: A.Media,
                               skip: nat, framerate: real, ranges: seq<TimeRangeWithMetadata>)
    requires Ceil(framerate) >= 0
  {
    forall base: nat, cuts: seq<nat> :: FrameLaws.Consecutive(media, base) && FrameLaws.Paired(media, cuts) ==>
      exists mask :: VideoMask(request, plugins, detector, media, skip, cuts, mask)
                     && HoldClosing(ranges, base, mask, Ceil(framerate))
  }

  ghost predicate AudioMask(request: seq<Token>, plugins: PluginTable, detector: Detector, media: A.Media,
                            mask: seq<bool>)
  {
    && |mask| == |media.audio|
    && forall k :: 0 <= k < |mask| ==> mask[k] == ValueOn(request, plugins, detector, None, [media.audio[k]])
  }

  /** What a session on audio alone makes of it; frames are not skipped. */
  ghost predicate AudioOutcome(request: seq<Token>, plugins: PluginTable, detector: Detector, media: A.Media,
                               framerate: real, ranges: seq<TimeRangeWithMetadata>)
    requires Ceil(framerate) >= 0
  {
    forall base: nat :: AudioConsecutive(media, base) ==>
      exists mask :: AudioMask(request, plugins, detector, media, mask)
                     && HoldClosing(ranges, base, mask, Ceil(framerate))
  }

  lemma SamePairing(media: A.Media, cuts: seq<nat>)
    requires media.hasVideo && FrameLaws.Paired(media, cuts)
    ensures cuts == FrameLaws.Cuts(media)
  {
    FrameLaws.CutsPaired(media);
    forall t | 0 <= t < |cuts| ensures cuts[t] == FrameLaws.Cuts(media)[t] {
      FrameLaws.PairedUnique(media, cuts, FrameLaws.Cuts(media), t);
    }
  }

  /** Where group g of whole groups ends. */
  lemma GroupPlace(size: nat, d: nat, k: nat)
    requires d >= 1 && k < size / d * d
    ensures k / d < size / d && FrameLaws.Before(k / d, d) == k / d * d && k / d * d + d - 1 < size
  {
    FrameLaws.BeforeIsProduct(size / d, d);
    FrameLaws.Locate(k, d, size / d);
    FrameLaws.BeforeIsProduct(k / d, d);
    FrameLaws.BeforeGrows(k / d + 1, size / d, d);
  }

  lemma EntryOfVideo(request: seq<Token>, setup: D.Setup, cuts: seq<nat>, g: nat, t: nat, value: bool)
    requires setup.media.hasVideo && FrameLaws.Paired(setup.media, cuts)
    requires t == FrameLaws.Before(g, setup.skip + 1) + setup.skip < |setup.media.video|
    requires value == Meaning(request, GroupFlags(setup, g))
    ensures VideoEntry(request, setup.plugins, setup.detector, setup.media, cuts, t, value)
  {
    hide Meaning, ValueOn, GroupFlags, D.Group, FrameLaws.Paired, FrameLaws.Cut;
    SamePairing(setup.media, cuts);
    FrameLaws.GroupBatch(setup, g);
    GroupValue(request, setup, g);
  }

  /** A mask of group values is a mask of values on the video's frames. */
  lemma MaskOfVideo(request: seq<Token>, setup: D.Setup, groups: nat, cuts: seq<nat>, mask: seq<bool>)
    requires setup.media.hasVideo && FrameLaws.Paired(setup.media, cuts)
    requires groups == |setup.media.video| / (setup.skip + 1) && IsVerdictMask(request, setup, groups, mask)
    ensures VideoMask(request, setup.plugins, setup.detector, setup.media, setup.skip, cuts, mask)
  {
    hide Meaning, GroupFlags, VideoEntry, FrameLaws.Paired;
    var d := setup.skip + 1;
    forall k | 0 <= k < |mask|
      ensures VideoEntry(request, setup.plugins, setup.detector, setup.media, cuts, k / d * d + setup.skip, mask[k])
    {
      GroupPlace(|setup.media.video|, d, k);
      EntryOfVideo(request, setup, cuts, k / d, k / d * d + setup.skip, mask[k]);
    }
  }

  lemma VideoSession(request: seq<Token>, setup: D.Setup, groups: nat, framerate: real, result: Result)
    requires Validator.Accepts(request, setup.plugins) && !CompilerLaws.StartsDetached(request)
    requires Compiled(request).Build? && setup.program == Compiled(request).program
    requires Runnable(setup.program) && VerdictLaws.ReadsAsWritten(setup.plugins, setup.program)
    requires setup.media.hasVideo && ErrorsAreCodes(setup.detector)
    requires Ceil(framerate) >= 0 && Finished(setup, framerate, groups, result) && result.Ranges?
    ensures VideoOutcome(request, setup.plugins, setup.detector, setup.media, setup.skip, framerate, result.ranges)
  {
    hide D.Records, Compiled, Runnable, Validator.Accepts, VerdictLaws.ReadsAsWritten, InRanges, Covered,
      ErrorsAreCodes, IsVerdictMask, Finished, VideoMask, FrameLaws.Paired, FrameLaws.Consecutive;
    var mask := Mask(D.Records(setup, FrameLaws.START, groups));
    forall base: nat, cuts: seq<nat>
      | FrameLaws.Consecutive(setup.media, base) && FrameLaws.Paired(setup.media, cuts)
      ensures VideoMask(request, setup.plugins, setup.detector, setup.media, setup.skip, cuts, mask)
      ensures HoldClosing(result.ranges, base, mask, Ceil(framerate))
    {
      forall num ensures InRanges(result.ranges, num)
                         <==> base <= num < base + |mask| && Covered(mask, Ceil(framerate), num - base)
      {
        VideoRanges(request, setup, base, groups, framerate, result, num);
      }
      VideoRanges(request, setup, base, groups, framerate, result, 0);
      MaskOfVideo(request, setup, groups, cuts, mask);
    }
  }

  lemma MaskOfAudio(request: seq<Token>, setup: D.Setup, mask: seq<bool>)
    requires !setup.media.hasVideo && setup.media.hasAudio && setup.skip == 0
    requires IsVerdictMask(request, setup, |setup.media.audio|, mask)
    ensures AudioMask(request, setup.plugins, setup.detector, setup.media, mask)
  {
    hide Meaning, ValueOn, GroupFlags, D.Group;
    forall k | 0 <= k < |mask|
      ensures mask[k] == ValueOn(request, setup.plugins, setup.detector, None, [setup.media.audio[k]])
    {
      FrameLaws.AudioGroups(setup, k);
      GroupValue(request, setup, k);
      assert k / 1 == k;
    }
  }

  lemma AudioSession(request: seq<Token>, setup: D.Setup, groups: nat, framerate: real, result: Result)
    requires Validator.Accepts(request, setup.plugins) && !CompilerLaws.StartsDetached(request)
    requires Compiled(request).Build? && setup.program == Compiled(request).program
    requires Runnable(setup.program) && VerdictLaws.ReadsAsWritten(setup.plugins, setup.program)
    requires !setup.media.hasVideo && setup.media.hasAudio && setup.skip == 0 && ErrorsAreCodes(setup.detector)
    requires Ceil(framerate) >= 0 && Finished(setup, framerate, groups, result) && result.Ranges?
    ensures AudioOutcome(request, setup.plugins, setup.detector, setup.media, framerate, result.ranges)
  {
    hide D.Records, Compiled, Runnable, Validator.Accepts, VerdictLaws.ReadsAsWritten, InRanges, Covered,
      ErrorsAreCodes, IsVerdictMask, Finished, AudioMask, AudioConsecutive;
    var mask := Mask(D.Records(setup, FrameLaws.START, groups));
    forall base: nat | AudioConsecutive(setup.media, base)
      ensures AudioMask(request, setup.plugins, setup.detector, setup.media, mask)
      ensures HoldClosing(result.ranges, base, mask, Ceil(framerate))
    {
      forall num ensures InRanges(result.ranges, num)
                         <==> base <= num < base + |mask| && Covered(mask, Ceil(framerate), num - base)
      {
        AudioRanges(request, setup, base, groups, framerate, result, num);
      }
      AudioRanges(request, setup, base, groups, framerate, result, 0);
      MaskOfAudio(request, setup, mask);
    }
  }

  /** What an analysis reports is an error that some plugin raised on some frame. */
  ghost predicate Raises(detector: Detector, error: int) {
    exists uid, frame :: detector(uid, frame) == Raised(error)
  }

  lemma {:induction false} BatchRaises(detector: Detector, uid: Uid, frames: seq<Frame>, last: Outcome)
    ensures var r := D.AnyFrame(detector, uid, frames, last); r.Raised? ==> Raises(detector, r.error)
    decreases |frames|
  {
    if frames != [] && detector(uid, frames[0]).Answer? {
      BatchRaises(detector, uid, frames[1..], detector(uid, frames[0]).outcome);
    }
  }

  lemma GroupRaises(setup: D.Setup, g: nat)
    requires Runnable(setup.program)
    ensures var r := D.GroupResult(setup, FrameLaws.START, g); r.Aborted? ==> Raises(setup.detector, r.error)
  {
    hide EvalRows, D.Group, Raises;
    var f := D.Group(setup, FrameLaws.START, g);
    var env := D.GroupEnv(setup.plugins, setup.detector, f.video, f.audio);
    forall uid | env.reply(uid).Raised? ensures Raises(setup.detector, env.reply(uid).error) {
      BatchRaises(setup.detector, uid, f.audio, Outcome(true, []));
      if f.video.Some? { OneRaises(setup.detector, uid, f.video.value); }
    }
    WalkLaws.RunErrors(env, setup.program, 0, BLANK);
  }

  lemma OneRaises(detector: Detector, uid: Uid, frame: Frame)
    ensures detector(uid, frame).Raised? ==> Raises(detector, detector(uid, frame).error)
  {
  }

  lemma {:induction false} ReportedRaised(setup: D.Setup, n: nat)
    requires Runnable(setup.program)
    ensures var ret := D.LastError(setup, FrameLaws.START, n); ret != 0 ==> Raises(setup.detector, ret)
  {
    hide D.GroupResult, Raises;
    if n > 0 {
      GroupRaises(setup, n - 1);
      ReportedRaised(setup, n - 1);
    }
  }

  /** A whole session that is not stopped: validation, compilation, link check, analysis of all frames, and clip
      ranges. `agree` is what comparing the metadata forms of detectors and effects gives. */
  method RunSession(request: seq<Token>, plugins: PluginTable, agree: bool, detector: Detector, media: A.Media,
                    skip: nat, framerate: real)
    returns (result: Result, ghost groups: nat)
    requires Ceil(framerate) >= 0 && D.SingleFrame(detector)
    ensures result == Refused <==> !Validator.Accepts(request, plugins)
    ensures result == Undefined <==> Validator.Accepts(request, plugins) && CompilerLaws.StartsDetached(request)
    ensures result == Unlinked
            <==> Validator.Accepts(request, plugins) && !CompilerLaws.StartsDetached(request)
                 && (MarkBehindLink(request) || !agree)
    ensures result.Failed? || result.Ranges? ==> Compiled(request).Build? && Runnable(Compiled(request).program)
    ensures result.Failed? || result.Ranges? ==>
              Finished(SetupOf(request, plugins, detector, media, skip), framerate, groups, result)
    ensures result.Failed? ==> Raises(detector, result.error)
    ensures result.Ranges? && ErrorsAreCodes(detector)
            && VerdictLaws.ReadsAsWritten(plugins, Compiled(request).program) ==>
              && (media.hasVideo ==> VideoOutcome(request, plugins, detector, media, skip, framerate, result.ranges))
              && (!media.hasVideo && media.hasAudio ==>
                    AudioOutcome(request, plugins, detector, media, framerate, result.ranges))
  {
    hide Compiled, Runnable, Validator.Accepts, D.GroupResult, D.Records, D.Complete, D.LastError, RenderAll, Kept,
      Clips, VideoOutcome, AudioOutcome, Raises, ErrorsAreCodes, VerdictLaws.ReadsAsWritten, MarkBehindLink;
    groups := 0;
    var accepted := Validator.ValidateLogic(request, plugins);
    if !accepted {
      return Refused, groups;
    }
    if CompilerLaws.StartsDetached(request) {
      return Undefined, groups;
    }
    if MarkBehindLink(request) || !agree {
      return Unlinked, groups;
    }
    CompilerLaws.ClosedForm(request, plugins);
    ExpressionLaws.ProgramLoaded(request, plugins);
    var ret, records;
    ret, records, groups := RunDataFlow(request, plugins, detector, media, skip);
    ghost var setup := SetupOf(request, plugins, detector, media, skip);
    ReportedRaised(setup, groups);
    if ret != 0 {
      return Result.Failed(ret), groups;
    }
    var ranges := MakeTimeRange(records, framerate);
    result := Ranges(ranges);
    if ErrorsAreCodes(detector) && VerdictLaws.ReadsAsWritten(plugins, Compiled(request).program) {
      if media.hasVideo {
        VideoSession(request, setup, groups, framerate, result);
      } else if media.hasAudio {
        AudioSession(request, setup, groups, framerate, result);
      }
    }
  }
}
