/** Laws of the synchroniser over any sequence of calls. */
module SyncLaws {
  import opened Types
  import opened AvSynchronizer

  datatype Call = AskVideo | AskAudio

  datatype History = History(sync: Sync, video: seq<Frame>, audio: seq<Frame>)

  /** Where a sequence of calls leads, and everything it delivered on each stream. */
  function After(m: Media, calls: seq<Call>): (h: History)
    ensures Readable(m, h.sync)
  {
    if calls == [] then History(Sync(0, 0), [], [])
    else
      var h := After(m, calls[..|calls| - 1]);
      match calls[|calls| - 1]
      case AskVideo =>
        var frame := VideoFrame(m, h.sync);
        h.(sync := AfterVideo(m, h.sync), video := if frame.Some? then h.video + [frame.value] else h.video)
      case AskAudio =>
        h.(sync := AfterAudio(m, h.sync), audio := h.audio + AudioFrames(m, h.sync))
  }

  /** Delivering the frames read next continues a prefix. */
  lemma SliceOn(frames: seq<Frame>, a: nat, b: nat)
    requires a <= b
    ensures Slice(frames, 0, a) + Slice(frames, a, b) == Slice(frames, 0, b)
  {
  }

  /** Whatever the calls, each stream is delivered in order, without gaps and without repeats. */
  lemma {:induction false} InOrderPrefixes(m: Media, calls: seq<Call>)
    ensures var h := After(m, calls);
            h.video == Slice(m.video, 0, h.sync.videoReads) && h.audio == Slice(m.audio, 0, h.sync.audioReads)
  {
    if calls != [] {
      hide BatchEnd, Slice, Readable;
      var before := After(m, calls[..|calls| - 1]);
      InOrderPrefixes(m, calls[..|calls| - 1]);
      match calls[|calls| - 1]
      case AskVideo => VideoOn(m, before);
      case AskAudio => AudioOn(m, before);
    } else {
      NothingYet(m);
    }
  }

  lemma NothingYet(m: Media)
    ensures Slice(m.video, 0, 0) == [] && Slice(m.audio, 0, 0) == []
  {
  }

  lemma VideoOn(m: Media, h: History)
    requires Readable(m, h.sync) && h.video == Slice(m.video, 0, h.sync.videoReads)
    ensures var frame := VideoFrame(m, h.sync);
            (if frame.Some? then h.video + [frame.value] else h.video)
            == Slice(m.video, 0, AfterVideo(m, h.sync).videoReads)
  {
    hide BatchEnd;
    SliceOn(m.video, h.sync.videoReads, AfterVideo(m, h.sync).videoReads);
  }

  lemma AudioOn(m: Media, h: History)
    requires Readable(m, h.sync) && h.audio == Slice(m.audio, 0, h.sync.audioReads)
    ensures h.audio + AudioFrames(m, h.sync) == Slice(m.audio, 0, AfterAudio(m, h.sync).audioReads)
  {
    hide Slice;
    SliceOn(m.audio, h.sync.audioReads, AfterAudio(m, h.sync).audioReads);
  }

  /** A batch runs up to and including the first frame beyond the time, or to the end of the stream. */
  lemma {:induction false} BatchBounds(audio: seq<Frame>, a: nat, pts: real)
    requires a <= |audio| && pts != NO_PTS
    ensures var b := BatchEnd(audio, a, pts);
            && (forall k :: a <= k < b - 1 ==> audio[k].pts <= pts)
            && (b <= |audio| ==> audio[b - 1].pts > pts)
    decreases |audio| - a
  {
    if a < |audio| && audio[a].pts <= pts { BatchBounds(audio, a + 1, pts); }
  }

  /** Once a video frame is out, the audio batch stays with it: only its last frame may lie beyond the video
      frame's time, and does unless the audio stream has ended. */
  lemma BatchStaysWithVideo(m: Media, s: Sync)
    requires Readable(m, s) && m.hasVideo && 1 <= s.videoReads <= |m.video| && Pts(m, s) != NO_PTS
    ensures var frames := AudioFrames(m, s);
            && (forall k :: 0 <= k < |frames| - 1 ==> frames[k].pts <= m.video[s.videoReads - 1].pts)
            && (!AudioEnded(m, AfterAudio(m, s)) ==>
                  frames != [] && frames[|frames| - 1].pts > m.video[s.videoReads - 1].pts)
  {
    if AudioWanted(m, s) {
      BatchBounds(m.audio, s.audioReads, Pts(m, s));
    }
  }

  /** After the end of the video no audio is read; without video a batch has at most one frame. */
  lemma BatchLimits(m: Media, s: Sync)
    requires Readable(m, s)
    ensures m.hasVideo && VideoEnded(m, s) ==> AudioFrames(m, s) == [] && AfterAudio(m, s) == s
    ensures !m.hasVideo ==> |AudioFrames(m, s)| <= 1
    ensures AudioEnded(m, s) ==> AfterAudio(m, s) == s && AudioFrames(m, s) == []
    ensures VideoEnded(m, s) ==> AfterVideo(m, s) == s && VideoFrame(m, s) == None
  {
  }
}
