/** Frame accounting: which frames a video analysis records, and with which verdict. */
module FrameLaws {
  import opened Types
  import opened Walk
  import opened Expression
  import opened DataFlow
  import A = AvSynchronizer
  import SyncLaws
  import WalkLaws

  const START := A.Sync(0, 0)

  /** The position after t fetches. */
  function SyncAt(m: A.Media, t: nat): (s: A.Sync)
    ensures A.Readable(m, s)
  {
    if t == 0 then START else Fetch(m, SyncAt(m, t - 1)).sync
  }

  /** What fetch t, counting from 0, delivers. */
  function FetchAt(m: A.Media, t: nat): Fetched {
    Fetch(m, SyncAt(m, t))
  }

  /** With video, every fetch delivers the next video frame, and the first empty one comes after the last. */
  lemma {:induction false} FetchesVideo(m: A.Media, t: nat)
    requires m.hasVideo && t <= |m.video|
    ensures SyncAt(m, t).videoReads == t
    ensures t < |m.video| ==> FetchAt(m, t).video == Some(m.video[t])
    ensures t == |m.video| ==> FetchAt(m, t).Nothing()
  {
    if t > 0 {
      FetchesVideo(m, t - 1);
    }
  }

  /** A group of n fetches keeps the last one, and an incomplete group is dropped. */
  lemma {:induction false} GatherVideo(m: A.Media, t: nat, n: nat)
    requires m.hasVideo && t <= |m.video| && n >= 1
    ensures t + n <= |m.video| ==> Gather(m, SyncAt(m, t), n) == FetchAt(m, t + n - 1)
    ensures t + n > |m.video| ==> Gather(m, SyncAt(m, t), n).Nothing()
    decreases n
  {
    hide Fetch;
    FetchesVideo(m, t);
    if t < |m.video| && n > 1 {
      GatherVideo(m, t + 1, n - 1);
    }
  }

  /** The fetches, and with video the frames, before group g: g times the group size d. */
  function Before(g: nat, d: nat): nat {
    if g == 0 then 0 else Before(g - 1, d) + d
  }

  lemma {:induction false} BeforeIsProduct(g: nat, d: nat)
    ensures Before(g, d) == g * d
  {
    if g > 0 { BeforeIsProduct(g - 1, d); }
  }

  lemma {:induction false} BeforeGrows(g: nat, h: nat, d: nat)
    requires g <= h
    ensures Before(g, d) <= Before(h, d)
  {
    if g < h { BeforeGrows(g, h - 1, d); }
  }

  lemma {:induction false} GroupStarts(setup: Setup, g: nat)
    requires setup.media.hasVideo && Before(g, setup.skip + 1) <= |setup.media.video|
    ensures SyncAfter(setup, START, g) == SyncAt(setup.media, Before(g, setup.skip + 1))
  {
    hide Fetch;
    if g > 0 {
      var t := Before(g - 1, setup.skip + 1);
      GroupStarts(setup, g - 1);
      GatherVideo(setup.media, t, setup.skip + 1);
      assert SyncAt(setup.media, t + setup.skip + 1) == FetchAt(setup.media, t + setup.skip).sync;
    }
  }

  /** The frames analysed for group g are those of its last fetch; an incomplete group is no group. */
  lemma GroupFrames(setup: Setup, g: nat)
    requires setup.media.hasVideo && Before(g, setup.skip + 1) <= |setup.media.video|
    ensures var t := Before(g, setup.skip + 1) + setup.skip;
            if t < |setup.media.video| then
              && Group(setup, START, g) == FetchAt(setup.media, t)
              && Group(setup, START, g).video == Some(setup.media.video[t])
            else Group(setup, START, g).Nothing()
  {
    hide Fetch, Gather;
    var t := Before(g, setup.skip + 1);
    GroupStarts(setup, g);
    GatherVideo(setup.media, t, setup.skip + 1);
    if t + setup.skip < |setup.media.video| {
      FetchesVideo(setup.media, t + setup.skip);
    }
  }

  /** A complete video analysis has as many groups as fit into the video. */
  lemma CompleteVideo(setup: Setup, n: nat)
    requires setup.media.hasVideo && Complete(setup, START, n)
    ensures n == |setup.media.video| / (setup.skip + 1)
    ensures Before(n, setup.skip + 1) <= |setup.media.video|
  {
    hide Group;
    GroupsFit(setup, n);
    GroupFrames(setup, n);
    var d, size := setup.skip + 1, |setup.media.video|;
    BeforeIsProduct(n, d);
    Quotient(size, d, n);
  }

  lemma {:induction false} GroupsFit(setup: Setup, n: nat)
    requires setup.media.hasVideo && HasGroups(setup, START, n)
    ensures Before(n, setup.skip + 1) <= |setup.media.video|
  {
    hide Group;
    if n > 0 {
      GroupsFit(setup, n - 1);
      GroupFrames(setup, n - 1);
    }
  }

  lemma Quotient(k: nat, d: nat, q: nat)
    requires d >= 1 && q * d <= k < q * d + d
    ensures k / d == q && k % d == k - q * d
  {
    var e := k / d;
    assert k == e * d + k % d;
    assert e < q ==> (e + 1) * d <= q * d;
    assert e > q ==> (q + 1) * d <= e * d;
  }

  /** Record j of group g: the group's verdict and effects, and a number counted back from the analysed frame. */
  ghost predicate RecordOf(setup: Setup, g: nat, j: nat, r: RawData)
    requires Runnable(setup.program)
  {
    var t, result := Before(g, setup.skip + 1) + setup.skip, GroupResult(setup, START, g);
    && result.Decided? && t < |setup.media.video|
    && r == RawData(setup.media.video[t].num - setup.skip + j, result.included, result.detected)
  }

  /** The records of one group. */
  lemma OneGroup(setup: Setup, g: nat, j: nat)
    requires Runnable(setup.program) && setup.media.hasVideo && j <= setup.skip
    requires Before(g, setup.skip + 1) + setup.skip < |setup.media.video| && GroupResult(setup, START, g).Decided?
    ensures var f := Group(setup, START, g);
            var added := GroupRecords(GroupResult(setup, START, g), setup.skip, f.video, f.audio);
            |added| == setup.skip + 1 && RecordOf(setup, g, j, added[j])
  {
    GroupFrames(setup, g);
    hide Group, GroupResult;
  }

  /** Frame accounting: when no evaluation raises an error, n groups give n times skip + 1 records, and those
      of group g start at index Before(g). */
  lemma {:induction false} VideoRecords(setup: Setup, n: nat, g: nat, j: nat)
    requires Runnable(setup.program)
    requires setup.media.hasVideo && Before(n, setup.skip + 1) <= |setup.media.video|
    requires forall h :: 0 <= h < n ==> GroupResult(setup, START, h).Decided?
    ensures |Records(setup, START, n)| == Before(n, setup.skip + 1)
    ensures g < n && j <= setup.skip ==>
              && Before(g, setup.skip + 1) + j < Before(n, setup.skip + 1)
              && RecordOf(setup, g, j, Records(setup, START, n)[Before(g, setup.skip + 1) + j])
  {
    hide Group, GroupResult, GroupRecords, RecordOf;
    if n > 0 {
      VideoRecords(setup, n - 1, g, j);
      OneGroup(setup, n - 1, if j <= setup.skip then j else 0);
    }
  }

  /** A group that raised an error leaves no records: the count is full exactly when none did. */
  lemma {:induction false} RecordsFullIff(setup: Setup, n: nat)
    requires Runnable(setup.program)
    requires setup.media.hasVideo && Before(n, setup.skip + 1) <= |setup.media.video|
    ensures |Records(setup, START, n)| <= Before(n, setup.skip + 1)
    ensures |Records(setup, START, n)| == Before(n, setup.skip + 1)
            <==> forall h :: 0 <= h < n ==> GroupResult(setup, START, h).Decided?
  {
    hide Group, GroupResult;
    if n > 0 {
      RecordsFullIff(setup, n - 1);
      GroupFrames(setup, n - 1);
    }
  }

  /** Detectors that never raise an error bring every group to a verdict. */
  lemma NeverRaised(setup: Setup, g: nat)
    requires Runnable(setup.program) && forall uid, frame :: setup.detector(uid, frame).Answer?
    ensures GroupResult(setup, START, g).Decided?
  {
    hide EvalRows, Group;
    var f := Group(setup, START, g);
    var env := GroupEnv(setup.plugins, setup.detector, f.video, f.audio);
    forall uid ensures env.reply(uid).Answer? {
      AnyFrameDetects(setup.detector, uid, f.audio, Outcome(true, []));
    }
    WalkLaws.AnsweredRun(env, setup.program, 0, BLANK);
  }

  /** Error codes are not zero, so an analysis that reports none had no error. */
  lemma {:induction false} NoErrorReported(setup: Setup, n: nat)
    requires Runnable(setup.program)
    requires forall g :: 0 <= g < n && GroupResult(setup, START, g).Aborted? ==> GroupResult(setup, START, g).error != 0
    ensures LastError(setup, START, n) == 0 <==> forall g :: 0 <= g < n ==> GroupResult(setup, START, g).Decided?
  {
    hide GroupResult;
    if n > 0 {
      NoErrorReported(setup, n - 1);
    }
  }

  /** The error reported is that of the last group that raised one. */
  lemma {:induction false} LastErrorOf(setup: Setup, n: nat)
    requires Runnable(setup.program)
    ensures (exists g :: 0 <= g < n && GroupResult(setup, START, g).Aborted?) ==>
              exists g :: 0 <= g < n && EndsWithError(setup, g, n, LastError(setup, START, n))
  {
    hide GroupResult;
    if n > 0 {
      LastErrorOf(setup, n - 1);
      if GroupResult(setup, START, n - 1).Aborted? {
        assert EndsWithError(setup, n - 1, n, LastError(setup, START, n));
      } else if exists g :: 0 <= g < n && GroupResult(setup, START, g).Aborted? {
        var g :| 0 <= g < n - 1 && EndsWithError(setup, g, n - 1, LastError(setup, START, n - 1));
        assert EndsWithError(setup, g, n, LastError(setup, START, n));
      }
    }
  }

  /** Group g raised this error, and no group from there to n another one. */
  ghost predicate EndsWithError(setup: Setup, g: nat, n: nat, error: int)
    requires Runnable(setup.program)
  {
    && GroupResult(setup, START, g) == Aborted(error)
    && forall h :: g < h < n ==> GroupResult(setup, START, h).Decided?
  }

  /** The frames of a video are numbered one after the other. */
  ghost predicate Consecutive(m: A.Media, base: int) {
    forall t :: 0 <= t < |m.video| ==> m.video[t].num == base + t
  }

  /** Record r is frame number k of the video and carries the verdict and effects of group g. */
  ghost predicate Numbered(setup: Setup, base: int, k: nat, g: nat, r: RawData)
    requires Runnable(setup.program)
  {
    var result := GroupResult(setup, START, g);
    result.Decided? && r == RawData(base + k, result.included, result.detected)
  }

  /** With consecutive numbers, record j of group g is the next frame of the video: Before(g) + j. */
  lemma RecordNumber(setup: Setup, n: nat, base: int, g: nat, j: nat)
    requires Runnable(setup.program)
    requires setup.media.hasVideo && Before(n, setup.skip + 1) <= |setup.media.video|
    requires forall h :: 0 <= h < n ==> GroupResult(setup, START, h).Decided?
    requires Consecutive(setup.media, base) && g < n && j <= setup.skip
    ensures var k := Before(g, setup.skip + 1) + j;
            k < |Records(setup, START, n)| && Numbered(setup, base, k, g, Records(setup, START, n)[k])
  {
    hide Group, GroupResult, Records;
    VideoRecords(setup, n, g, j);
  }

  /** Record k belongs to group k / d, as its record k % d. */
  lemma Locate(k: nat, d: nat, n: nat)
    requires d >= 1 && k < Before(n, d)
    ensures k / d < n && k % d < d && Before(k / d, d) + k % d == k
  {
    var g := k / d;
    BeforeIsProduct(g, d);
    BeforeIsProduct(n, d);
    assert k == g * d + k % d;
    if g >= n {
      BeforeGrows(n, g, d);
      assert false;
    }
  }

  // ---------- audio alone ----------

  /** Without video, and so without skipping, every group is one audio frame. */
  lemma {:induction false} AudioGroups(setup: Setup, g: nat)
    requires !setup.media.hasVideo && setup.media.hasAudio && setup.skip == 0 && g <= |setup.media.audio|
    ensures SyncAfter(setup, START, g) == A.Sync(0, g)
    ensures if g < |setup.media.audio| then
              Group(setup, START, g) == Fetched(A.Sync(0, g + 1), None, [setup.media.audio[g]])
            else Group(setup, START, g).Nothing()
  {
    if g > 0 {
      AudioGroups(setup, g - 1);
    }
  }

  lemma {:induction false} AudioGroupsFit(setup: Setup, n: nat)
    requires !setup.media.hasVideo && setup.media.hasAudio && setup.skip == 0 && HasGroups(setup, START, n)
    ensures n <= |setup.media.audio|
  {
    if n > 0 {
      AudioGroupsFit(setup, n - 1);
      AudioGroups(setup, n - 1);
    }
  }

  /** Record k of an audio analysis: frame k, with its own verdict and effects. */
  ghost predicate AudioRecordOf(setup: Setup, k: nat, r: RawData)
    requires Runnable(setup.program)
  {
    var result := GroupResult(setup, START, k);
    && k < |setup.media.audio| && result.Decided?
    && r == RawData(setup.media.audio[k].num, result.included, result.detected)
  }

  lemma OneAudioGroup(setup: Setup, g: nat)
    requires Runnable(setup.program)
    requires !setup.media.hasVideo && setup.media.hasAudio && setup.skip == 0 && g < |setup.media.audio|
    requires GroupResult(setup, START, g).Decided?
    ensures var f := Group(setup, START, g);
            var added := GroupRecords(GroupResult(setup, START, g), setup.skip, f.video, f.audio);
            |added| == 1 && AudioRecordOf(setup, g, added[0])
  {
    AudioGroups(setup, g);
    hide Group, GroupResult;
  }

  /** A complete audio analysis records every frame once, in order, each with its own verdict. */
  lemma {:induction false} AudioRecords(setup: Setup, n: nat, k: nat)
    requires Runnable(setup.program)
    requires !setup.media.hasVideo && setup.media.hasAudio && setup.skip == 0 && HasGroups(setup, START, n)
    requires forall g :: 0 <= g < n ==> GroupResult(setup, START, g).Decided?
    ensures |Records(setup, START, n)| == n
    ensures k < n ==> AudioRecordOf(setup, k, Records(setup, START, n)[k])
    ensures Complete(setup, START, n) ==> n == |setup.media.audio|
  {
    hide Group, GroupResult, GroupRecords, AudioRecordOf;
    AudioGroupsFit(setup, n);
    AudioGroups(setup, n);
    if n > 0 {
      AudioRecords(setup, n - 1, k);
      OneAudioGroup(setup, n - 1);
    }
  }

  /** An audio detector fires for a batch exactly when it fires for some frame, if it raises no error. */
  lemma {:induction false} AnyFrameDetects(detector: Detector, uid: Uid, frames: seq<Frame>, last: Outcome)
    requires forall i :: 0 <= i < |frames| ==> detector(uid, frames[i]).Answer?
    ensures var r := AnyFrame(detector, uid, frames, last);
            && r.Answer?
            && (frames != [] ==>
                  (r.outcome.detect
                   <==> exists i :: 0 <= i < |frames| && detector(uid, frames[i]).outcome.detect))
    decreases |frames|
  {
    if frames != [] {
      var o := detector(uid, frames[0]).outcome;
      if !o.detect {
        AnyFrameDetects(detector, uid, frames[1..], o);
        if exists i :: 0 <= i < |frames| && detector(uid, frames[i]).outcome.detect {
          var i :| 0 <= i < |frames| && detector(uid, frames[i]).outcome.detect;
          assert frames[1..][i - 1] == frames[i];
        }
      }
    }
  }

  // ---------- audio beside video ----------

  /** An audio detector that raises no error counts as having detected exactly when it fires for some frame of
      the batch, or the batch is empty. */
  lemma AudioReply(plugins: PluginTable, detector: Detector, uid: Uid, video: Option<Frame>, audio: seq<Frame>)
    requires uid in plugins && plugins[uid] == AudioDetect
    requires forall i :: 0 <= i < |audio| ==> detector(uid, audio[i]).Answer?
    ensures var r := GroupReply(plugins, detector, uid, video, audio);
            && r.Answer?
            && (r.outcome.detect
                <==> audio == [] || exists i :: 0 <= i < |audio| && detector(uid, audio[i]).outcome.detect)
  {
    AnyFrameDetects(detector, uid, audio, Outcome(true, []));
  }

  /** Beside a video frame, the batch is empty exactly when all audio frames have been delivered before. */
  lemma BatchEmptyIff(m: A.Media, t: nat)
    requires m.hasVideo && t < |m.video|
    ensures FetchAt(m, t).audio == [] <==> !m.hasAudio || SyncAt(m, t).audioReads >= |m.audio|
  {
    FetchesVideo(m, t);
  }

  // ---------- which audio goes with which video frame ----------

  /** The audio frames from a to b go with video frame t: none once all have been given, otherwise up to and
      including the first beyond the frame's time, or the last; without a time just one. */
  ghost predicate BatchBetween(m: A.Media, t: nat, a: nat, b: nat)
    requires t < |m.video|
  {
    && a <= b <= |m.audio|
    && if !m.hasAudio || a == |m.audio| then b == a
       else
         && a < b
         && (forall k :: a <= k < b - 1 ==> m.video[t].pts != A.NO_PTS && m.audio[k].pts <= m.video[t].pts)
         && (b < |m.audio| ==> m.video[t].pts == A.NO_PTS || m.audio[b - 1].pts > m.video[t].pts)
  }

  /** Where the audio is cut: cuts[t] frames have been given before video frame t. */
  ghost predicate Paired(m: A.Media, cuts: seq<nat>) {
    && |cuts| == |m.video| + 1 && cuts[0] == 0
    && forall t :: 0 <= t < |m.video| ==> BatchBetween(m, t, cuts[t], cuts[t + 1])
  }

  lemma BatchUnique(m: A.Media, t: nat, a: nat, b: nat, c: nat)
    requires t < |m.video| && BatchBetween(m, t, a, b) && BatchBetween(m, t, a, c)
    ensures b == c
  {
    if a < b && a < c {
      var lastB, lastC := m.audio[b - 1], m.audio[c - 1];
      assert b < |m.audio| ==> m.video[t].pts == A.NO_PTS || lastB.pts > m.video[t].pts;
      assert c < |m.audio| ==> m.video[t].pts == A.NO_PTS || lastC.pts > m.video[t].pts;
    }
  }

  /** There is only one way to pair the streams. */
  lemma {:induction false} PairedUnique(m: A.Media, c: seq<nat>, d: seq<nat>, t: nat)
    requires Paired(m, c) && Paired(m, d) && t <= |m.video|
    ensures c[t] == d[t]
  {
    if t > 0 {
      PairedUnique(m, c, d, t - 1);
      assert BatchBetween(m, t - 1, c[t - 1], c[t - 1 + 1]) && BatchBetween(m, t - 1, d[t - 1], d[t - 1 + 1]);
      BatchUnique(m, t - 1, c[t - 1], c[t], d[t]);
    }
  }

  /** How much audio has been given after t fetches. */
  ghost function Cut(m: A.Media, t: nat): nat {
    if SyncAt(m, t).audioReads <= |m.audio| then SyncAt(m, t).audioReads else |m.audio|
  }

  ghost function Cuts(m: A.Media): (cuts: seq<nat>)
    ensures |cuts| == |m.video| + 1 && forall t :: 0 <= t <= |m.video| ==> cuts[t] == Cut(m, t)
  {
    seq(|m.video| + 1, t requires 0 <= t => Cut(m, t))
  }

  /** Fetch t gives video frame t and the audio between its cuts. */
  lemma FetchBatch(m: A.Media, t: nat)
    requires m.hasVideo && t < |m.video|
    ensures BatchBetween(m, t, Cut(m, t), Cut(m, t + 1))
    ensures FetchAt(m, t).audio == m.audio[Cut(m, t)..Cut(m, t + 1)]
  {
    FetchesVideo(m, t);
    var s := A.AfterVideo(m, SyncAt(m, t));
    assert A.Pts(m, s) == m.video[t].pts;
    if A.AudioWanted(m, s) && s.audioReads < |m.audio| && m.video[t].pts != A.NO_PTS {
      SyncLaws.BatchBounds(m.audio, s.audioReads, m.video[t].pts);
    }
  }

  /** The synchroniser pairs the streams: successive batches are consecutive pieces of the audio, from its start. */
  lemma CutsPaired(m: A.Media)
    requires m.hasVideo
    ensures Paired(m, Cuts(m))
  {
    hide Cut, BatchBetween;
    forall t | 0 <= t < |m.video| ensures BatchBetween(m, t, Cuts(m)[t], Cuts(m)[t + 1]) {
      FetchBatch(m, t);
    }
    NoneAtStart(m);
  }

  lemma NoneAtStart(m: A.Media)
    ensures Cut(m, 0) == 0
  {
  }

  /** The frames of group g: its last video frame, and the audio paired with that frame. */
  lemma GroupBatch(setup: Setup, g: nat)
    requires setup.media.hasVideo && Before(g, setup.skip + 1) + setup.skip < |setup.media.video|
    ensures var t := Before(g, setup.skip + 1) + setup.skip;
            && Group(setup, START, g).video == Some(setup.media.video[t])
            && Cut(setup.media, t) <= Cut(setup.media, t + 1) <= |setup.media.audio|
            && Group(setup, START, g).audio == setup.media.audio[Cut(setup.media, t)..Cut(setup.media, t + 1)]
  {
    hide Group, FetchAt, Cut;
    GroupFrames(setup, g);
    FetchBatch(setup.media, Before(g, setup.skip + 1) + setup.skip);
  }

  const LONG_VIDEO := A.Media(true, true, [Frame(1, 0.0, []), Frame(2, 1.0, [])], [Frame(1, 5.0, [])])
  const VOICE_ONLY := Program([Node(["voice"], true)], [Row([0], false)])
  const NEVER: Detector := (uid: Uid, frame: Frame) => Answer(Outcome(false, []))
  const LONG_SETUP := Setup(LONG_VIDEO, map["voice" := AudioDetect], NEVER, VOICE_ONLY, 0)

  lemma LongFetches()
    ensures FetchAt(LONG_VIDEO, 0).audio == LONG_VIDEO.audio && FetchAt(LONG_VIDEO, 1).audio == []
  {
    assert SyncAt(LONG_VIDEO, 1) == A.Sync(1, 1);
    BatchEmptyIff(LONG_VIDEO, 1);
  }

  /** A video that outlasts its audio: the detector never fires, and yet the second frame is included. */
  lemma OutlastedAudio()
    ensures Runnable(VOICE_ONLY)
    ensures GroupResult(LONG_SETUP, START, 0) == Decided(false, map[])
    ensures GroupResult(LONG_SETUP, START, 1) == Decided(true, map[])
  {
    assert RowWithin(VOICE_ONLY, VOICE_ONLY.rows[0]);
    LongFetches();
    GroupFrames(LONG_SETUP, 0);
    GroupFrames(LONG_SETUP, 1);
    assert Before(1, 1) == 1;
    hide FetchAt, Group;
    VoiceDecides(LONG_SETUP, 0);
    VoiceDecides(LONG_SETUP, 1);
  }

  /** With a single audio detector as expression, the group's verdict is its reply. */
  lemma VoiceDecides(setup: Setup, g: nat)
    requires setup.program == VOICE_ONLY && Runnable(VOICE_ONLY)
    requires "voice" in setup.plugins && setup.plugins["voice"] == AudioDetect
    requires forall frame :: setup.detector("voice", frame) == Answer(Outcome(false, []))
    ensures GroupResult(setup, START, g) == Decided(Group(setup, START, g).audio == [], map[])
  {
    hide Group;
    var f := Group(setup, START, g);
    var env := GroupEnv(setup.plugins, setup.detector, f.video, f.audio);
    AudioReply(setup.plugins, setup.detector, "voice", f.video, f.audio);
    assert env.reply("voice").Answer? && env.reply("voice").outcome.detect == (f.audio == []);
    var c := BLANK.(current := env.reply("voice").outcome);
    assert Ask(env, "voice", BLANK) == Known(c);
    var node := NodeAt(VOICE_ONLY, 0, 0);
    assert EvalNode(env, node, BLANK) == Part(f.audio == [], c);
    assert EvalRow(env, VOICE_ONLY, 0, 0, BLANK) == Part(f.audio == [], c);
  }
}
