/** Pairing audio with video by presentation time (src/AvSynchronizer.cpp), over an extractor seen as two
    finite streams of frames. */
module AvSynchronizer {
  import opened Types

  const NO_PTS: real := -1.0

  datatype Media = Media(hasVideo: bool, hasAudio: bool, video: seq<Frame>, audio: seq<Frame>)

  /** How often each stream has been read; a stream of n frames reports its end at read n + 1. */
  datatype Sync = Sync(videoReads: nat, audioReads: nat)

  predicate Readable(m: Media, s: Sync) {
    && s.videoReads <= |m.video| + 1 && s.audioReads <= |m.audio| + 1
    && (!m.hasVideo ==> s.videoReads == 0) && (!m.hasAudio ==> s.audioReads == 0)
  }

  predicate VideoEnded(m: Media, s: Sync) {
    !m.hasVideo || s.videoReads > |m.video|
  }

  predicate AudioEnded(m: Media, s: Sync) {
    !m.hasAudio || s.audioReads > |m.audio|
  }

  /** The presentation time of the latest video frame. */
  function Pts(m: Media, s: Sync): real {
    var n := if s.videoReads <= |m.video| then s.videoReads else |m.video|;
    if n == 0 then NO_PTS else m.video[n - 1].pts
  }

  /** Reads still possible before both streams have reported their end. */
  function Unread(m: Media, s: Sync): nat
    requires Readable(m, s)
  {
    (if m.hasVideo then |m.video| + 1 - s.videoReads else 0) + (if m.hasAudio then |m.audio| + 1 - s.audioReads else 0)
  }

  function AfterVideo(m: Media, s: Sync): (s': Sync)
    requires Readable(m, s)
    ensures Readable(m, s')
  {
    if VideoEnded(m, s) then s else s.(videoReads := s.videoReads + 1)
  }

  function VideoFrame(m: Media, s: Sync): Option<Frame>
    requires Readable(m, s)
  {
    if m.hasVideo && s.videoReads < |m.video| then Some(m.video[s.videoReads]) else None
  }

  /** Audio is fetched unless it has ended, or video has. */
  predicate AudioWanted(m: Media, s: Sync) {
    !AudioEnded(m, s) && !(VideoEnded(m, s) && m.hasVideo)
  }

  /** The audio reads after a batch that starts at read a: up to the first frame beyond pts, or the end. */
  function BatchEnd(audio: seq<Frame>, a: nat, pts: real): (b: nat)
    requires a <= |audio|
    ensures a < b <= |audio| + 1
    decreases |audio| - a
  {
    if a == |audio| || pts == NO_PTS || audio[a].pts > pts then a + 1 else BatchEnd(audio, a + 1, pts)
  }

  function AfterAudio(m: Media, s: Sync): (s': Sync)
    requires Readable(m, s)
    ensures Readable(m, s')
  {
    if AudioWanted(m, s) then s.(audioReads := BatchEnd(m.audio, s.audioReads, Pts(m, s))) else s
  }

  /** The frames delivered between two counts of reads. */
  function Slice(frames: seq<Frame>, a: nat, b: nat): seq<Frame> {
    var hi := if b <= |frames| then b else |frames|;
    if a <= hi then frames[a..hi] else []
  }

  /** One more read of a stream. */
  lemma SliceMore(frames: seq<Frame>, a: nat, b: nat)
    requires a <= b <= |frames|
    ensures Slice(frames, a, a) == []
    ensures Slice(frames, a, b + 1) == if b < |frames| then Slice(frames, a, b) + [frames[b]] else Slice(frames, a, b)
  {
  }

  lemma BatchMore(audio: seq<Frame>, b: nat, pts: real)
    requires b <= |audio|
    ensures BatchEnd(audio, b, pts)
            == if b == |audio| || pts == NO_PTS || audio[b].pts > pts then b + 1 else BatchEnd(audio, b + 1, pts)
  {
  }

  function AudioFrames(m: Media, s: Sync): seq<Frame>
    requires Readable(m, s)
  {
    Slice(m.audio, s.audioReads, AfterAudio(m, s).audioReads)
  }

  lemma NoBatch(m: Media, s: Sync)
    requires Readable(m, s)
    ensures !AudioWanted(m, s) ==> AfterAudio(m, s) == s && AudioFrames(m, s) == []
  {
  }

  /** The frame extractor; reading a stream past its end gives nothing. */
  class FrameExtractor {
    const media: Media
    var videoReads: nat
    var audioReads: nat

    constructor (media: Media)
      ensures this.media == media && videoReads == 0 && audioReads == 0
    {
      this.media := media;
      videoReads := 0;
      audioReads := 0;
    }

    method NextVideo() returns (frame: Option<Frame>)
      modifies this`videoReads
      ensures videoReads == old(videoReads) + 1
      ensures frame == if old(videoReads) < |media.video| then Some(media.video[old(videoReads)]) else None
    {
      frame := if videoReads < |media.video| then Some(media.video[videoReads]) else None;
      videoReads := videoReads + 1;
    }

    method NextAudio() returns (frame: Option<Frame>)
      modifies this`audioReads
      ensures audioReads == old(audioReads) + 1
      ensures frame == if old(audioReads) < |media.audio| then Some(media.audio[old(audioReads)]) else None
    {
      frame := if audioReads < |media.audio| then Some(media.audio[audioReads]) else None;
      audioReads := audioReads + 1;
    }
  }

  class AvSynchronizer {
    const extractor: FrameExtractor
    var videoEOF: bool
    var audioEOF: bool
    var pts: real

    ghost function View(): Sync
      reads this, extractor
    {
      Sync(extractor.videoReads, extractor.audioReads)
    }

    /** The flags and the time are what the reads so far make them; in particular neither stream has been
        read again after it reported its end. */
    ghost predicate Valid()
      reads this, extractor
    {
      && Readable(extractor.media, View())
      && videoEOF == VideoEnded(extractor.media, View())
      && audioEOF == AudioEnded(extractor.media, View())
      && pts == Pts(extractor.media, View())
    }

    constructor (extractor: FrameExtractor)
      requires extractor.videoReads == 0 && extractor.audioReads == 0
      ensures this.extractor == extractor && Valid() && View() == Sync(0, 0)
    {
      this.extractor := extractor;
      videoEOF := !extractor.media.hasVideo;
      audioEOF := !extractor.media.hasAudio;
      pts := NO_PTS;
    }

    method GetNextVideo() returns (frame: Option<Frame>)
      requires Valid()
      modifies this, extractor
      ensures Valid()
      ensures View() == AfterVideo(extractor.media, old(View()))
      ensures frame == VideoFrame(extractor.media, old(View()))
    {
      if videoEOF {
        return None;
      }
      frame := extractor.NextVideo();
      if frame.Some? {
        pts := frame.value.pts;
      } else {
        videoEOF := true;
      }
    }

    method GetNextAudio() returns (frames: seq<Frame>)
      requires Valid()
      modifies this, extractor
      ensures Valid()
      ensures View() == AfterAudio(extractor.media, old(View()))
      ensures frames == AudioFrames(extractor.media, old(View()))
    {
      NoBatch(extractor.media, View());
      hide Slice, BatchEnd;
      if audioEOF {
        return [];
      }
      if videoEOF && extractor.media.hasVideo {
        return [];
      }
      frames := ReadBatch();
    }

    /** Reads audio frames until one lies beyond the current time, or the stream ends. */
    method ReadBatch() returns (frames: seq<Frame>)
      requires Valid() && AudioWanted(extractor.media, View())
      modifies this, extractor
      ensures Valid() && View().videoReads == old(View()).videoReads
      ensures View().audioReads
              == BatchEnd(extractor.media.audio, old(View()).audioReads, Pts(extractor.media, old(View())))
      ensures frames == Slice(extractor.media.audio, old(View()).audioReads, View().audioReads)
    {
      hide Slice, BatchEnd;
      frames := [];
      ghost var audio, from := extractor.media.audio, extractor.audioReads;
      SliceMore(audio, from, from);
      while !audioEOF
        invariant Valid() && pts == old(pts) && View().videoReads == old(View()).videoReads
        invariant from <= extractor.audioReads <= |audio| + 1
        invariant frames == Slice(audio, from, extractor.audioReads)
        invariant if audioEOF then BatchEnd(audio, from, pts) == extractor.audioReads
                  else BatchEnd(audio, from, pts) == BatchEnd(audio, extractor.audioReads, pts)
        decreases |audio| + 1 - extractor.audioReads
      {
        SliceMore(audio, from, extractor.audioReads);
        BatchMore(audio, extractor.audioReads, pts);
        var frame := extractor.NextAudio();
        if frame.None? {
          audioEOF := true;
          break;
        }
        frames := frames + [frame.value];
        if pts == NO_PTS || frame.value.pts > pts {
          break;
        }
      }
    }
  }
}
