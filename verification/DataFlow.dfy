/** The analysis loop: feeding frames, evaluating the expression on each group, and recording the verdict
    (src/DataFlow.cpp). */
module DataFlow {
  import opened Types
  import opened Expression
  import opened Walk
  import WalkLaws
  import A = AvSynchronizer
  import L = LogicAnalyzer
  import C = OutcomeCache
  import R = Accumulator
  import opened P = PluginManager

  /** No detector gives a multi-frame result. */
  ghost predicate SingleFrame(detector: Detector) {
    forall uid, frame :: detector(uid, frame).Answer? ==> !SpeaksForAll(detector(uid, frame).outcome.list)
  }

  /** Audio detectors see the frames of the batch in turn until one detects. */
  function AnyFrame(detector: Detector, uid: Uid, frames: seq<Frame>, last: Outcome): Reply {
    if frames == [] then Answer(last)
    else
      match detector(uid, frames[0])
      case Raised(error) => Raised(error)
      case Answer(o) => if o.detect then Answer(o) else AnyFrame(detector, uid, frames[1..], o)
  }

  /** What asking a plugin about a group comes to. */
  function GroupReply(plugins: PluginTable, detector: Detector, uid: Uid, video: Option<Frame>, audio: seq<Frame>)
    : Reply
  {
    if uid in plugins && plugins[uid] == VideoDetect && video.Some? then detector(uid, video.value)
    else if uid in plugins && plugins[uid] == AudioDetect then AnyFrame(detector, uid, audio, Outcome(true, []))
    else Answer(Outcome(true, []))
  }

  lemma {:induction false} AnyFrameSingle(detector: Detector, uid: Uid, frames: seq<Frame>, last: Outcome)
    requires SingleFrame(detector) && !SpeaksForAll(last.list)
    ensures var r := AnyFrame(detector, uid, frames, last); r.Answer? ==> !SpeaksForAll(r.outcome.list)
    decreases |frames|
  {
    if frames != [] && detector(uid, frames[0]).Answer? {
      AnyFrameSingle(detector, uid, frames[1..], detector(uid, frames[0]).outcome);
    }
  }

  lemma GroupReplySingle(plugins: PluginTable, detector: Detector, uid: Uid, video: Option<Frame>, audio: seq<Frame>)
    requires SingleFrame(detector)
    ensures var r := GroupReply(plugins, detector, uid, video, audio); r.Answer? ==> !SpeaksForAll(r.outcome.list)
  {
    AnyFrameSingle(detector, uid, audio, Outcome(true, []));
  }

  /** The frames of the batch an audio detector is shown: up to the first that decides. */
  function BatchCalls(detector: Detector, uid: Uid, frames: seq<Frame>): seq<Call> {
    if frames == [] then []
    else
      match detector(uid, frames[0])
      case Raised(_) => [Call(uid, frames[0])]
      case Answer(o) => [Call(uid, frames[0])] + if o.detect then [] else BatchCalls(detector, uid, frames[1..])
  }

  /** An audio detector has answered on the first n frames of the batch: the last of them is the first that raises
      an error or detects, or all frames have been shown; without frames the answer is yes. */
  ghost predicate Shown(detector: Detector, uid: Uid, audio: seq<Frame>, n: nat, reply: Reply) {
    && n <= |audio|
    && (forall i :: 0 <= i < n - 1 ==> detector(uid, audio[i]).Answer? && !detector(uid, audio[i]).outcome.detect)
    && (n == 0 ==> audio == [] && reply == Answer(Outcome(true, [])))
    && (n > 0 ==> reply == detector(uid, audio[n - 1]))
    && (0 < n < |audio| ==> reply.Raised? || reply.outcome.detect)
  }

  function CallsOn(uid: Uid, frames: seq<Frame>): (calls: seq<Call>)
    ensures |calls| == |frames| && forall i :: 0 <= i < |frames| ==> calls[i] == Call(uid, frames[i])
  {
    seq(|frames|, i requires 0 <= i < |frames| => Call(uid, frames[i]))
  }

  /** The calls it takes to ask one plugin about a group. */
  function GroupCalls(plugins: PluginTable, detector: Detector, uid: Uid, video: Option<Frame>, audio: seq<Frame>)
    : seq<Call>
  {
    if uid in plugins && plugins[uid] == VideoDetect && video.Some? then [Call(uid, video.value)]
    else if uid in plugins && plugins[uid] == AudioDetect then BatchCalls(detector, uid, audio)
    else []
  }

  /** The calls it takes to ask these plugins, one after the other. */
  function CallsOf(plugins: PluginTable, detector: Detector, asked: seq<Uid>, video: Option<Frame>, audio: seq<Frame>)
    : seq<Call>
  {
    if asked == [] then []
    else
      var n := |asked| - 1;
      CallsOf(plugins, detector, asked[..n], video, audio) + GroupCalls(plugins, detector, asked[n], video, audio)
  }

  ghost predicate NoRepeats(asked: seq<Uid>) {
    forall i, j :: 0 <= i < j < |asked| ==> asked[i] != asked[j]
  }

  /** One more detector in the log. */
  lemma CallsMore(plugins: PluginTable, detector: Detector, asked: seq<Uid>, uid: Uid, video: Option<Frame>,
                  audio: seq<Frame>)
    requires NoRepeats(asked) && uid !in asked
    ensures NoRepeats(asked + [uid])
    ensures CallsOf(plugins, detector, asked + [uid], video, audio)
            == CallsOf(plugins, detector, asked, video, audio) + GroupCalls(plugins, detector, uid, video, audio)
  {
    assert (asked + [uid])[..|asked|] == asked;
  }

  function GroupEnv(plugins: PluginTable, detector: Detector, video: Option<Frame>, audio: seq<Frame>): Env {
    Env(plugins, (uid: Uid) => GroupReply(plugins, detector, uid, video, audio))
  }

  /** The records of one analysed group: every frame the group stands for, with the same verdict and effects. */
  function GroupRecords(result: FrameResult, skip: nat, video: Option<Frame>, audio: seq<Frame>): seq<RawData> {
    match result
    case Aborted(_) => []
    case Decided(included, detected) =>
      if video.Some? then seq(skip + 1, i => RawData(video.value.num - skip + i, included, detected))
      else seq(|audio|, i requires 0 <= i < |audio| => RawData(audio[i].num, included, detected))
  }

  /** What one pass of the feeding loop holds at its end. */
  datatype Fetched = Fetched(sync: A.Sync, video: Option<Frame>, audio: seq<Frame>) {
    predicate Nothing() {
      video.None? && audio == []
    }
  }

  function Fetch(m: A.Media, s: A.Sync): (f: Fetched)
    requires A.Readable(m, s)
    ensures A.Readable(m, f.sync)
    ensures A.Unread(m, f.sync) <= A.Unread(m, s)
    ensures !f.Nothing() ==> A.Unread(m, f.sync) < A.Unread(m, s)
  {
    var s' := A.AfterVideo(m, s);
    Fetched(A.AfterAudio(m, s'), A.VideoFrame(m, s), A.AudioFrames(m, s'))
  }

  /** Up to n fetches; only the last one's frames are kept, and an empty fetch stops the group. */
  function Gather(m: A.Media, s: A.Sync, n: nat): (f: Fetched)
    requires A.Readable(m, s) && n >= 1
    ensures A.Readable(m, f.sync)
    ensures A.Unread(m, f.sync) <= A.Unread(m, s)
    ensures !f.Nothing() ==> A.Unread(m, f.sync) < A.Unread(m, s)
    decreases n
  {
    var f := Fetch(m, s);
    if f.Nothing() || n == 1 then f else Gather(m, f.sync, n - 1)
  }

  /** Everything an analysis depends on. */
  datatype Setup = Setup(media: A.Media, plugins: PluginTable, detector: Detector, program: Program, skip: nat)

  ghost predicate Ready(setup: Setup) {
    Runnable(setup.program) && LoadedProgram(setup.plugins, setup.program)
  }

  function Evaluate(setup: Setup, video: Option<Frame>, audio: seq<Frame>): FrameResult
    requires Runnable(setup.program)
  {
    EvalRows(GroupEnv(setup.plugins, setup.detector, video, audio), setup.program, 0, BLANK)
  }

  /** How often the evaluator is called for one group. */
  ghost function EvaluatorCalls(setup: Setup, video: Option<Frame>, audio: seq<Frame>): (n: nat)
    requires Runnable(setup.program)
    ensures n <= Slots(setup.program, 0) + 1
  {
    var env := GroupEnv(setup.plugins, setup.detector, video, audio);
    WalkLaws.CallsPerFrame(env, setup.program);
    Calls(env, setup.program, FRESH, BLANK)
  }

  /** Where n groups leave the streams. */
  function SyncAfter(setup: Setup, s: A.Sync, n: nat): (s': A.Sync)
    requires A.Readable(setup.media, s)
    ensures A.Readable(setup.media, s')
  {
    if n == 0 then s else Gather(setup.media, SyncAfter(setup, s, n - 1), setup.skip + 1).sync
  }

  /** The frames of group n, counting from 0. */
  function Group(setup: Setup, s: A.Sync, n: nat): Fetched
    requires A.Readable(setup.media, s)
  {
    Gather(setup.media, SyncAfter(setup, s, n), setup.skip + 1)
  }

  function GroupResult(setup: Setup, s: A.Sync, n: nat): FrameResult
    requires Runnable(setup.program) && A.Readable(setup.media, s)
  {
    var f := Group(setup, s, n);
    Evaluate(setup, f.video, f.audio)
  }

  /** There are at least n groups, respectively exactly n. */
  ghost predicate HasGroups(setup: Setup, s: A.Sync, n: nat)
    requires A.Readable(setup.media, s)
  {
    forall k :: 0 <= k < n ==> !Group(setup, s, k).Nothing()
  }

  ghost predicate Complete(setup: Setup, s: A.Sync, n: nat)
    requires A.Readable(setup.media, s)
  {
    HasGroups(setup, s, n) && Group(setup, s, n).Nothing()
  }

  /** The records of the first n groups. */
  function Records(setup: Setup, s: A.Sync, n: nat): seq<RawData>
    requires Runnable(setup.program) && A.Readable(setup.media, s)
  {
    if n == 0 then []
    else
      var f := Group(setup, s, n - 1);
      Records(setup, s, n - 1) + GroupRecords(GroupResult(setup, s, n - 1), setup.skip, f.video, f.audio)
  }

  /** The error code reported at the end: that of the last group whose evaluation raised one. */
  function LastError(setup: Setup, s: A.Sync, n: nat): int
    requires Runnable(setup.program) && A.Readable(setup.media, s)
  {
    if n == 0 then 0
    else
      var result := GroupResult(setup, s, n - 1);
      if result.Aborted? then result.error else LastError(setup, s, n - 1)
  }

  /** How often the stop flag is read for n groups: once before each, and before every call of the evaluator. */
  ghost function ReadsFor(setup: Setup, s: A.Sync, n: nat): nat
    requires Runnable(setup.program) && A.Readable(setup.media, s)
  {
    if n == 0 then 0
    else
      var f := Group(setup, s, n - 1);
      ReadsFor(setup, s, n - 1) + 1 + EvaluatorCalls(setup, f.video, f.audio)
  }

  /** The stop flag is up whenever it is read from the i-th time on, before the j-th. */
  ghost predicate Up(run: nat -> bool, i: nat, j: nat) {
    forall t :: i <= t < j ==> run(t)
  }

  class DataFlow {
    const avSynchronizer: A.AvSynchronizer
    const logicAnalyzer: L.LogicAnalyzer
    const pluginManager: PluginManager
    const accumulator: R.Accumulator
    const outcomeCache: C.OutcomeCache
    const skipFrames: nat

    constructor (avSynchronizer: A.AvSynchronizer, logicAnalyzer: L.LogicAnalyzer, pluginManager: PluginManager,
                 accumulator: R.Accumulator, skipFrames: nat)
      ensures this.avSynchronizer == avSynchronizer && this.logicAnalyzer == logicAnalyzer
      ensures this.pluginManager == pluginManager
      ensures this.accumulator == accumulator && this.skipFrames == skipFrames && fresh(outcomeCache)
    {
      this.avSynchronizer := avSynchronizer;
      this.logicAnalyzer := logicAnalyzer;
      this.pluginManager := pluginManager;
      this.accumulator := accumulator;
      this.skipFrames := skipFrames;
      outcomeCache := new C.OutcomeCache();
    }

    ghost function Config(): Setup
      reads logicAnalyzer`program
    {
      Setup(avSynchronizer.extractor.media, pluginManager.plugins, pluginManager.detector, logicAnalyzer.program,
            skipFrames)
    }

    ghost predicate Valid()
      reads logicAnalyzer, logicAnalyzer.nodes, logicAnalyzer.pipelines
      reads avSynchronizer, avSynchronizer.extractor
    {
      logicAnalyzer.Shape() && Ready(Config()) && avSynchronizer.Valid()
    }

    /** The replies to one group. */
    ghost function Replies(video: Option<Frame>, audio: seq<Frame>): Env {
      GroupEnv(pluginManager.plugins, pluginManager.detector, video, audio)
    }

    /** The calls it takes to ask one plugin. */
    ghost function CallsFor(uid: Uid, video: Option<Frame>, audio: seq<Frame>): seq<Call> {
      GroupCalls(pluginManager.plugins, pluginManager.detector, uid, video, audio)
    }

    /** An audio detector is shown the frames of the batch until it detects; `shown` counts them. */
    method ProcessBatch(uid: Uid, audio: seq<Frame>) returns (reply: Reply, ghost shown: nat)
      modifies pluginManager`calls
      ensures Shown(pluginManager.detector, uid, audio, shown, reply)
      ensures pluginManager.calls == old(pluginManager.calls) + CallsOn(uid, audio[..shown])
      ensures reply == AnyFrame(pluginManager.detector, uid, audio, Outcome(true, []))
      ensures pluginManager.calls == old(pluginManager.calls) + BatchCalls(pluginManager.detector, uid, audio)
    {
      hide AnyFrame, BatchCalls;
      EmptyBatch(uid);
      reply, shown := Answer(Outcome(true, [])), 0;
      ghost var detector, before := pluginManager.detector, pluginManager.calls;
      assert audio[0..] == audio;
      for i := 0 to |audio|
        invariant shown == i && reply.Answer?
        invariant forall j :: 0 <= j < i ==> detector(uid, audio[j]).Answer? && !detector(uid, audio[j]).outcome.detect
        invariant if i == 0 then reply == Answer(Outcome(true, [])) else reply == detector(uid, audio[i - 1])
        invariant pluginManager.calls == before + CallsOn(uid, audio[..i])
        invariant AnyFrame(detector, uid, audio, Outcome(true, []))
                  == AnyFrame(detector, uid, audio[i..], reply.outcome)
        invariant before + BatchCalls(detector, uid, audio)
                  == pluginManager.calls + BatchCalls(detector, uid, audio[i..])
      {
        ghost var now, last := pluginManager.calls, reply.outcome;
        reply := pluginManager.Process(uid, audio[i]);
        shown := i + 1;
        assert audio[..i + 1] == audio[..i] + [audio[i]];
        CallsOnMore(uid, audio[..i], audio[i]);
        OneMoreCall(before, CallsOn(uid, audio[..i]), Call(uid, audio[i]), []);
        BatchReply(detector, uid, audio, i, last);
        BatchCall(detector, uid, audio, i);
        OneMoreCall(now, [], Call(uid, audio[i]), []);
        if reply.Raised? {
          return;
        }
        if reply.outcome.detect {
          return;
        }
        OneMoreCall(now, [], Call(uid, audio[i]), BatchCalls(detector, uid, audio[i + 1..]));
      }
      assert audio[|audio|..] == [];
    }

    lemma CallsOnMore(uid: Uid, frames: seq<Frame>, frame: Frame)
      ensures CallsOn(uid, frames + [frame]) == CallsOn(uid, frames) + [Call(uid, frame)]
    {
    }

    /** Showing an audio detector one more frame of the batch. */
    lemma BatchReply(detector: Detector, uid: Uid, audio: seq<Frame>, i: nat, last: Outcome)
      requires i < |audio|
      ensures var reply := detector(uid, audio[i]);
              AnyFrame(detector, uid, audio[i..], last)
              == if reply.Raised? || reply.outcome.detect then reply
                 else AnyFrame(detector, uid, audio[i + 1..], reply.outcome)
    {
      assert audio[i..][1..] == audio[i + 1..];
    }

    lemma BatchCall(detector: Detector, uid: Uid, audio: seq<Frame>, i: nat)
      requires i < |audio|
      ensures var reply := detector(uid, audio[i]);
              BatchCalls(detector, uid, audio[i..])
              == [Call(uid, audio[i])]
                 + if reply.Raised? || reply.outcome.detect then [] else BatchCalls(detector, uid, audio[i + 1..])
    {
      assert audio[i..][1..] == audio[i + 1..];
    }

    lemma EmptyBatch(uid: Uid)
      ensures forall o :: AnyFrame(pluginManager.detector, uid, [], o) == Answer(o)
      ensures BatchCalls(pluginManager.detector, uid, []) == []
    {
    }

    lemma OneMoreCall(now: seq<Call>, some: seq<Call>, c: Call, rest: seq<Call>)
      ensures now + (some + [c]) == now + some + [c]
      ensures now + ([c] + rest) == now + [c] + rest && now + [c] + [] == now + [c]
    {
    }

    /** Asks one plugin: a video detector about the video frame, an audio detector about the batch; any other
        plugin, and a video detector without a frame, counts as having detected. */
    method ProcessPlugin(uid: Uid, video: Option<Frame>, audio: seq<Frame>) returns (reply: Reply, ghost shown: nat)
      requires uid in pluginManager.plugins
      modifies pluginManager`calls
      ensures match pluginManager.plugins[uid]
              case VideoDetect =>
                if video.Some? then
                  && reply == pluginManager.detector(uid, video.value)
                  && pluginManager.calls == old(pluginManager.calls) + [Call(uid, video.value)]
                else reply == Answer(Outcome(true, [])) && pluginManager.calls == old(pluginManager.calls)
              case AudioDetect =>
                && Shown(pluginManager.detector, uid, audio, shown, reply)
                && pluginManager.calls == old(pluginManager.calls) + CallsOn(uid, audio[..shown])
              case _ => reply == Answer(Outcome(true, [])) && pluginManager.calls == old(pluginManager.calls)
      ensures reply == Replies(video, audio).reply(uid)
      ensures pluginManager.calls == old(pluginManager.calls) + CallsFor(uid, video, audio)
    {
      reply, shown := Answer(Outcome(true, [])), 0;
      match pluginManager.plugins[uid] {
        case VideoDetect =>
          if video.Some? {
            reply := pluginManager.Process(uid, video.value);
          }
        case AudioDetect => reply, shown := ProcessBatch(uid, audio);
        case _ =>
      }
    }

    method AppendResult(video: Option<Frame>, audio: seq<Frame>, detected: DetectedData)
      modifies accumulator
      ensures accumulator.rawdata
              == old(accumulator.rawdata)
                 + GroupRecords(Decided(logicAnalyzer.included, detected), skipFrames, video, audio)
    {
      ghost var records := GroupRecords(Decided(logicAnalyzer.included, detected), skipFrames, video, audio);
      if video.Some? {
        var i: int := skipFrames;
        while i >= 0
          invariant -1 <= i <= skipFrames
          invariant accumulator.rawdata == old(accumulator.rawdata) + records[..skipFrames - i]
        {
          accumulator.Append(video.value.num - i, logicAnalyzer.included, detected);
          assert records[..skipFrames - i + 1] == records[..skipFrames - i] + [records[skipFrames - i]];
          i := i - 1;
        }
        assert records[..skipFrames + 1] == records;
      } else {
        for i := 0 to |audio|
          invariant accumulator.rawdata == old(accumulator.rawdata) + records[..i]
        {
          accumulator.Append(audio[i].num, logicAnalyzer.included, detected);
          assert records[..i + 1] == records[..i] + [records[i]];
        }
        assert records[..|audio|] == records;
      }
    }

    /** The cache holds exactly the replies of the detectors asked. */
    ghost predicate Remembers(env: Env, asked: seq<Uid>)
      reads outcomeCache
    {
      && outcomeCache.Valid()
      && (forall uid :: uid in outcomeCache.storage <==> uid in asked)
      && (forall uid :: uid in outcomeCache.storage ==> env.reply(uid) == Answer(outcomeCache.storage[uid]))
      && (forall uid :: uid in asked ==> !IsEffect(pluginManager.plugins, uid))
    }

    /** Since the log stood at `base`, each of the detectors asked has been called once, and no other. */
    ghost predicate Logged(base: seq<Call>, video: Option<Frame>, audio: seq<Frame>, asked: seq<Uid>)
      reads pluginManager`calls
    {
      && NoRepeats(asked)
      && pluginManager.calls == base + CallsOf(pluginManager.plugins, pluginManager.detector, asked, video, audio)
    }

    /** The detector asked last raised this error. */
    ghost predicate LastRaised(env: Env, asked: seq<Uid>, error: Option<int>) {
      asked != [] && error.Some? && env.reply(asked[|asked| - 1]) == Raised(error.value)
    }

    /** Detectors that are remembered have not raised. */
    lemma RememberedAnswered(env: Env, asked: seq<Uid>)
      requires Remembers(env, asked)
      ensures forall uid :: uid in asked ==> env.reply(uid).Answer?
    {
    }

    /** What the evaluation has seen so far. */
    ghost function Seen(): Context
      requires outcomeCache.Valid()
      reads outcomeCache
    {
      Context(outcomeCache.Current(), outcomeCache.detected)
    }

    /** Runs one plugin of the expression: a stored outcome is used again without a call, an effect takes the
        current details, and only a detector not asked before is called, whether it answers or raises. */
    method Consult(uid: Uid, video: Option<Frame>, audio: seq<Frame>, ghost asked: seq<Uid>, ghost base: seq<Call>)
      returns (error: Option<int>, ghost asked': seq<Uid>)
      requires uid in pluginManager.plugins
      requires Remembers(Replies(video, audio), asked) && Logged(base, video, audio, asked)
      modifies outcomeCache, pluginManager`calls
      ensures asked' == if uid in asked || IsEffect(pluginManager.plugins, uid) then asked else asked + [uid]
      ensures Logged(base, video, audio, asked')
      ensures match Ask(Replies(video, audio), uid, old(Seen()))
              case Known(c) => error == None && Remembers(Replies(video, audio), asked') && Seen() == c
              case Failed(e) => error == Some(e) && LastRaised(Replies(video, audio), asked', error)
    {
      hide CallsOf, GroupCalls, GroupReply, NoRepeats;
      asked', error := asked, None;
      var hit := outcomeCache.Hit(uid);
      if hit {
        outcomeCache.SetResultUid(uid);
        return;
      }
      if IsEffectKind(pluginManager.plugins[uid]) {
        outcomeCache.SetDetected(uid);
        return;
      }
      var reply;
      ghost var shown;
      reply, shown := ProcessPlugin(uid, video, audio);
      asked' := asked + [uid];
      CallsMore(pluginManager.plugins, pluginManager.detector, asked, uid, video, audio);
      if reply.Raised? {
        error := Some(reply.error);
        return;
      }
      outcomeCache.Write(uid, reply.outcome);
    }

    /** What is still to come, once the plugin just named has been run. */
    ghost function Pending(env: Env, uid: Uid, c: Context): Outlook
      requires logicAnalyzer.Running()
      reads logicAnalyzer, logicAnalyzer.nodes, logicAnalyzer.pipelines
    {
      match Ask(env, uid, c)
      case Failed(error) => Outlook(Aborted(error), 0)
      case Known(c') => Ahead(env, logicAnalyzer.program, logicAnalyzer.Position(), c')
    }

    /** Mid-evaluation: the evaluator runs this program, the cache remembers the detectors asked, and this is
        still to come. */
    ghost predicate Midway(setup: Setup, env: Env, asked: seq<Uid>, goal: Outlook)
      reads logicAnalyzer, logicAnalyzer.nodes, logicAnalyzer.pipelines, outcomeCache
    {
      && logicAnalyzer.Running() && setup == Config()
      && Remembers(env, asked)
      && Ahead(env, logicAnalyzer.program, logicAnalyzer.Position(), Seen()) == goal
    }

    /** The evaluator has named a plugin to run, or has come to the result. */
    ghost predicate Requested(setup: Setup, env: Env, next: L.NextPlugin, goal: Outlook)
      reads logicAnalyzer, logicAnalyzer.nodes, logicAnalyzer.pipelines, outcomeCache
    {
      match next
      case EndOfPlugins => goal == Outlook(Decided(logicAnalyzer.included, outcomeCache.detected), 1)
      case Run(uid) =>
        && logicAnalyzer.Running() && setup == Config() && uid in pluginManager.plugins && outcomeCache.Valid()
        && var rest := Pending(env, uid, Seen()); goal == Outlook(rest.result, rest.calls + 1)
    }

    /** Rewinds the evaluator and forgets the last group. */
    method Rewind(ghost setup: Setup, video: Option<Frame>, audio: seq<Frame>)
      requires logicAnalyzer.Shape() && Runnable(setup.program) && setup == Config()
      modifies logicAnalyzer`pos, logicAnalyzer`included
      modifies (set p | p in logicAnalyzer.pipelines)`pos
      modifies (set n | n in logicAnalyzer.nodes)`pos, (set n | n in logicAnalyzer.nodes)`included
      modifies outcomeCache
      ensures Midway(setup, Replies(video, audio), [],
                     Outlook(Evaluate(setup, video, audio), EvaluatorCalls(setup, video, audio)))
    {
      logicAnalyzer.Reset();
      outcomeCache.Clear();
      WalkLaws.RunIsRecursion(Replies(video, audio), setup.program);
    }

    /** Feeds the evaluator with the current result; it names the next plugin or ends the evaluation. */
    method Request(ghost setup: Setup, ghost env: Env, ghost asked: seq<Uid>, ghost goal: Outlook)
      returns (next: L.NextPlugin)
      requires Ready(setup) && Midway(setup, env, asked, goal)
      modifies logicAnalyzer`pos, logicAnalyzer`included
      modifies (set p | p in logicAnalyzer.pipelines)`pos
      modifies (set n | n in logicAnalyzer.nodes)`pos, (set n | n in logicAnalyzer.nodes)`included
      modifies outcomeCache`storage
      ensures logicAnalyzer.Shape() && outcomeCache.storage == old(outcomeCache.storage)
      ensures Requested(setup, env, next, goal)
    {
      hide Next, Ahead, Ask, InRange, Runnable, Ready, L.LogicAnalyzer.Shape;
      ghost var w := logicAnalyzer.Position();
      var last := outcomeCache.Result();
      SlotKnown(w, last.detect);
      WalkLaws.AheadStep(env, setup.program, w, Seen());
      next := logicAnalyzer.NextPlugin(last.detect);
    }

    /** One round of the evaluation: the evaluator names a plugin, which is then run. */
    method Round(video: Option<Frame>, audio: seq<Frame>, ghost setup: Setup, ghost asked: seq<Uid>,
                 ghost base: seq<Call>, ghost goal: Outlook)
      returns (done: bool, error: Option<int>, ghost asked': seq<Uid>)
      requires Ready(setup) && Midway(setup, Replies(video, audio), asked, goal) && Logged(base, video, audio, asked)
      modifies logicAnalyzer`pos, logicAnalyzer`included
      modifies (set p | p in logicAnalyzer.pipelines)`pos
      modifies (set n | n in logicAnalyzer.nodes)`pos, (set n | n in logicAnalyzer.nodes)`included
      modifies outcomeCache, pluginManager`calls
      ensures logicAnalyzer.Shape() && Logged(base, video, audio, asked') && goal.calls > 0
      ensures error.Some? ==>
                goal == Outlook(Aborted(error.value), 1) && LastRaised(Replies(video, audio), asked', error)
      ensures error.None? ==> Remembers(Replies(video, audio), asked')
      ensures error.None? && done ==> goal == Outlook(Decided(logicAnalyzer.included, outcomeCache.detected), 1)
      ensures error.None? && !done ==>
                Midway(setup, Replies(video, audio), asked', Outlook(goal.result, goal.calls - 1))
    {
      hide Ahead, InRange, Ask, L.LogicAnalyzer.Standing, L.LogicAnalyzer.Shape, Ready, Remembers, Logged;
      ghost var env := Replies(video, audio);
      var next := Request(setup, env, asked, goal);
      if next == L.EndOfPlugins {
        return true, None, asked;
      }
      done := false;
      error, asked' := Consult(next.uid, video, audio, asked, base);
    }

    /** At the end of an evaluation the verdict is recorded; a multi-frame result, which would rewrite all
        records instead, does not occur. */
    method FinishGroup(video: Option<Frame>, audio: seq<Frame>, ghost asked: seq<Uid>)
      requires SingleFrame(pluginManager.detector) && Remembers(Replies(video, audio), asked)
      modifies accumulator
      ensures accumulator.rawdata
              == old(accumulator.rawdata)
                 + GroupRecords(Decided(logicAnalyzer.included, outcomeCache.detected), skipFrames, video, audio)
    {
      var multiFrame := outcomeCache.FindMultiFrameResult();
      assert !multiFrame by {
        forall uid | uid in outcomeCache.storage ensures !SpeaksForAll(outcomeCache.storage[uid].list) {
          GroupReplySingle(pluginManager.plugins, pluginManager.detector, uid, video, audio);
        }
      }
      AppendResult(video, audio, outcomeCache.detected);
    }

    /** The rounds of one group, until the result is there or the stop flag falls. */
    method Rounds(video: Option<Frame>, audio: seq<Frame>, run: nat -> bool, polls: nat, ghost setup: Setup,
                  ghost base: seq<Call>, ghost goal: Outlook)
      returns (polls': nat, done: bool, error: Option<int>, ghost asked: seq<Uid>)
      requires Ready(setup) && Midway(setup, Replies(video, audio), [], goal) && Logged(base, video, audio, [])
      modifies logicAnalyzer`pos, logicAnalyzer`included
      modifies (set p | p in logicAnalyzer.pipelines)`pos
      modifies (set n | n in logicAnalyzer.nodes)`pos, (set n | n in logicAnalyzer.nodes)`included
      modifies outcomeCache, pluginManager`calls
      ensures logicAnalyzer.Shape() && Logged(base, video, audio, asked)
      ensures polls <= polls' <= polls + goal.calls && Up(run, polls, polls')
      ensures if error.Some? then goal.result == Aborted(error.value) && LastRaised(Replies(video, audio), asked, error)
              else if done then
                && goal.result == Decided(logicAnalyzer.included, outcomeCache.detected)
                && Remembers(Replies(video, audio), asked)
              else !run(polls') && Remembers(Replies(video, audio), asked)
      ensures done || error.Some? ==> polls' == polls + goal.calls
    {
      hide Ahead, InRange, L.LogicAnalyzer.Shape, Ready, Remembers, Logged, LastRaised, GroupEnv;
      polls', done, error, asked := polls, false, None, [];
      ghost var rest := goal;
      while run(polls')
        invariant Logged(base, video, audio, asked) && Midway(setup, Replies(video, audio), asked, rest)
        invariant rest.result == goal.result && polls' >= polls && polls' + rest.calls == polls + goal.calls
        invariant !done && error.None? && Up(run, polls, polls')
        decreases rest.calls
      {
        polls' := polls' + 1;
        done, error, asked := Round(video, audio, setup, asked, base, rest);
        rest := Outlook(rest.result, rest.calls - 1);
        if done || error.Some? {
          break;
        }
      }
    }

    /** Evaluates the expression on one group; `run` is what the stop flag says each time it is read, and
        `asked` names the detectors called, each of them once. */
    method AnalyseGroup(video: Option<Frame>, audio: seq<Frame>, run: nat -> bool, polls: nat)
      returns (polls': nat, stopped: bool, error: Option<int>, ghost asked: seq<Uid>)
      requires logicAnalyzer.Shape() && Ready(Config()) && SingleFrame(pluginManager.detector)
      modifies logicAnalyzer`pos, logicAnalyzer`included
      modifies (set p | p in logicAnalyzer.pipelines)`pos
      modifies (set n | n in logicAnalyzer.nodes)`pos, (set n | n in logicAnalyzer.nodes)`included
      modifies outcomeCache, accumulator, pluginManager`calls
      ensures logicAnalyzer.Shape()
      ensures stopped ==> !run(polls') && accumulator.rawdata == old(accumulator.rawdata)
      ensures var result := Evaluate(Config(), video, audio);
              !stopped ==>
                && accumulator.rawdata == old(accumulator.rawdata) + GroupRecords(result, skipFrames, video, audio)
                && error == (if result.Aborted? then Some(result.error) else None)
      ensures Logged(old(pluginManager.calls), video, audio, asked)
      ensures if error.Some? then LastRaised(Replies(video, audio), asked, error)
              else forall uid :: uid in asked ==> Replies(video, audio).reply(uid).Answer?
      ensures polls <= polls' <= polls + EvaluatorCalls(Config(), video, audio)
      ensures Up(run, polls, polls')
      ensures !stopped ==> polls' == polls + EvaluatorCalls(Config(), video, audio)
    {
      hide Ahead, Evaluate, EvaluatorCalls, L.LogicAnalyzer.Standing, L.LogicAnalyzer.Shape, LoadedProgram, Remembers,
        Midway;
      ghost var setup, base := Config(), pluginManager.calls;
      ghost var goal := Outlook(Evaluate(setup, video, audio), EvaluatorCalls(setup, video, audio));
      Rewind(setup, video, audio);
      var done;
      polls', done, error, asked := Rounds(video, audio, run, polls, setup, base, goal);
      if error.None? {
        RememberedAnswered(Replies(video, audio), asked);
      }
      if done && error.None? {
        FinishGroup(video, audio, asked);
      }
      stopped := !done && error.None?;
    }

    lemma SlotKnown(w: Cursor, detect: bool)
      requires Ready(Config()) && InRange(logicAnalyzer.program, w)
      ensures var s := Next(logicAnalyzer.program, w, detect);
              s.Visit? ==> s.uid in pluginManager.plugins && InRange(logicAnalyzer.program, s.cursor)
    {
      Progress(logicAnalyzer.program, w, detect);
      var s := Next(logicAnalyzer.program, w, detect);
      if s.Visit? {
        var ids := logicAnalyzer.program.rows[s.cursor.row].ids;
        assert RowWithin(logicAnalyzer.program, logicAnalyzer.program.rows[s.cursor.row]);
        assert LoadedNode(pluginManager.plugins, logicAnalyzer.program.nodes[ids[s.cursor.col]]);
      }
    }

    /** The feeding loop of one group: up to skipFrames + 1 pairs of reads, the last of which is kept. */
    method GatherFrames() returns (video: Option<Frame>, audio: seq<Frame>)
      requires avSynchronizer.Valid()
      modifies avSynchronizer, avSynchronizer.extractor
      ensures avSynchronizer.Valid()
      ensures Gather(avSynchronizer.extractor.media, old(avSynchronizer.View()), skipFrames + 1)
              == Fetched(avSynchronizer.View(), video, audio)
    {
      ghost var m, s := avSynchronizer.extractor.media, avSynchronizer.View();
      video, audio := None, [];
      for i := 0 to skipFrames + 1
        invariant avSynchronizer.Valid()
        invariant Gather(m, s, skipFrames + 1)
                  == if i == skipFrames + 1 then Fetched(avSynchronizer.View(), video, audio)
                     else Gather(m, avSynchronizer.View(), skipFrames + 1 - i)
      {
        video := avSynchronizer.GetNextVideo();
        audio := avSynchronizer.GetNextAudio();
        if video.None? && audio == [] {
          break;
        }
      }
    }

    /** What the loop has come to after n groups: the flag has been up so far. */
    ghost predicate After(setup: Setup, s: A.Sync, n: nat, sync: A.Sync, added: seq<RawData>, ret: int,
                          run: nat -> bool, polls: nat)
      requires Runnable(setup.program) && A.Readable(setup.media, s)
    {
      && HasGroups(setup, s, n) && sync == SyncAfter(setup, s, n) && added == Records(setup, s, n)
      && ret == LastError(setup, s, n) && polls == ReadsFor(setup, s, n) && Up(run, 0, polls)
    }

    /** The analysis is over after n groups: the frames have ended, or the stop flag was down when last read. */
    ghost predicate Over(setup: Setup, s: A.Sync, n: nat, added: seq<RawData>, ret: int, run: nat -> bool, polled: nat)
      requires Runnable(setup.program) && A.Readable(setup.media, s)
    {
      && HasGroups(setup, s, n) && added == Records(setup, s, n) && ret == LastError(setup, s, n)
      && Up(run, 0, polled)
      && (|| (Complete(setup, s, n) && polled == ReadsFor(setup, s, n) + 1)
          || (!run(polled) && ReadsFor(setup, s, n) <= polled <= ReadsFor(setup, s, n + 1)))
    }

    lemma StartGroups(setup: Setup, s: A.Sync, run: nat -> bool)
      requires Runnable(setup.program) && A.Readable(setup.media, s)
      ensures After(setup, s, 0, s, [], 0, run, 0)
    {
    }

    /** No more group: the frames have ended. */
    lemma GroupEnds(setup: Setup, s: A.Sync, n: nat, sync: A.Sync, added: seq<RawData>, ret: int, run: nat -> bool,
                    polls: nat)
      requires Runnable(setup.program) && A.Readable(setup.media, s)
      requires After(setup, s, n, sync, added, ret, run, polls) && run(polls)
      requires A.Readable(setup.media, sync) && Gather(setup.media, sync, setup.skip + 1).Nothing()
      ensures Over(setup, s, n, added, ret, run, polls + 1)
    {
      hide Gather, Evaluate, GroupRecords, EvaluatorCalls, Runnable, A.Readable, Records, LastError;
    }

    /** One more group has been analysed. */
    lemma GroupDone(setup: Setup, s: A.Sync, n: nat, sync: A.Sync, added: seq<RawData>, ret: int, run: nat -> bool,
                    polls: nat)
      requires Runnable(setup.program) && A.Readable(setup.media, s)
      requires After(setup, s, n, sync, added, ret, run, polls) && run(polls)
      requires A.Readable(setup.media, sync) && !Gather(setup.media, sync, setup.skip + 1).Nothing()
      ensures var f := Gather(setup.media, sync, setup.skip + 1);
              var result, polls' := Evaluate(setup, f.video, f.audio),
                                    polls + 1 + EvaluatorCalls(setup, f.video, f.audio);
              Up(run, polls + 1, polls') ==>
                After(setup, s, n + 1, f.sync, added + GroupRecords(result, setup.skip, f.video, f.audio),
                      if result.Aborted? then result.error else ret, run, polls')
    {
      hide Gather, Evaluate, GroupRecords, EvaluatorCalls, Runnable, A.Readable;
      assert Group(setup, s, n) == Gather(setup.media, sync, setup.skip + 1);
    }

    /** The flag goes down during the next group. */
    lemma GroupStopped(setup: Setup, s: A.Sync, n: nat, sync: A.Sync, added: seq<RawData>, ret: int, run: nat -> bool,
                       polls: nat, polled: nat)
      requires Runnable(setup.program) && A.Readable(setup.media, s)
      requires After(setup, s, n, sync, added, ret, run, polls) && run(polls) && A.Readable(setup.media, sync)
      requires var f := Gather(setup.media, sync, setup.skip + 1);
               polls < polled <= polls + 1 + EvaluatorCalls(setup, f.video, f.audio)
      requires Up(run, polls + 1, polled) && !run(polled)
      ensures Over(setup, s, n, added, ret, run, polled)
    {
      hide Gather, Evaluate, GroupRecords, EvaluatorCalls, Runnable, A.Readable, Records, LastError, HasGroups;
      assert Group(setup, s, n) == Gather(setup.media, sync, setup.skip + 1);
    }

    lemma AfterReadable(setup: Setup, s: A.Sync, n: nat, sync: A.Sync, added: seq<RawData>, ret: int,
                        run: nat -> bool, polls: nat)
      requires Runnable(setup.program) && A.Readable(setup.media, s)
      requires After(setup, s, n, sync, added, ret, run, polls)
      ensures A.Readable(setup.media, sync)
    {
    }

    /** The flag is down before the next group. */
    lemma Stopped(setup: Setup, s: A.Sync, n: nat, sync: A.Sync, added: seq<RawData>, ret: int, run: nat -> bool,
                  polls: nat)
      requires Runnable(setup.program) && A.Readable(setup.media, s)
      requires After(setup, s, n, sync, added, ret, run, polls) && !run(polls)
      ensures Over(setup, s, n, added, ret, run, polls)
    {
    }

    /** One turn of the outer loop: fetches a group and analyses it. `new'` are the records it adds. */
    method Turn(run: nat -> bool, polls: nat, ret: int, ghost setup: Setup, ghost s: A.Sync, ghost n: nat,
                ghost added: seq<RawData>)
      returns (more: bool, polls': nat, ret': int, ghost new': seq<RawData>)
      requires Valid() && SingleFrame(pluginManager.detector) && setup == Config() && A.Readable(setup.media, s)
      requires After(setup, s, n, avSynchronizer.View(), added, ret, run, polls) && run(polls)
      modifies logicAnalyzer`pos, logicAnalyzer`included
      modifies (set p | p in logicAnalyzer.pipelines)`pos
      modifies (set n | n in logicAnalyzer.nodes)`pos, (set n | n in logicAnalyzer.nodes)`included
      modifies outcomeCache, accumulator, avSynchronizer, avSynchronizer.extractor, pluginManager`calls
      ensures Valid() && accumulator.rawdata == old(accumulator.rawdata) + new'
      ensures if more then
                && After(setup, s, n + 1, avSynchronizer.View(), added + new', ret', run, polls')
                && A.Readable(setup.media, avSynchronizer.View())
                && A.Unread(setup.media, avSynchronizer.View()) < A.Unread(setup.media, old(avSynchronizer.View()))
              else new' == [] && ret' == ret && Over(setup, s, n, added, ret, run, polls')
    {
      hide L.LogicAnalyzer.Shape, Gather, Evaluate, GroupRecords, A.Readable, A.Pts, A.VideoEnded, A.AudioEnded,
        LoadedProgram, EvaluatorCalls, Logged, After, Over, LastRaised, Up;
      ghost var sync := avSynchronizer.View();
      AfterReadable(setup, s, n, sync, added, ret, run, polls);
      more, polls', ret', new' := false, polls + 1, ret, [];
      var video, audio := GatherFrames();
      if video.None? && audio == [] {
        GroupEnds(setup, s, n, sync, added, ret, run, polls);
        return;
      }
      GroupDone(setup, s, n, sync, added, ret, run, polls);
      var stopped, error;
      ghost var asked;
      polls', stopped, error, asked := AnalyseGroup(video, audio, run, polls');
      if stopped {
        GroupStopped(setup, s, n, sync, added, ret, run, polls, polls');
        return;
      }
      more := true;
      new' := GroupRecords(Evaluate(setup, video, audio), setup.skip, video, audio);
      if error.Some? {
        ret' := error.value;
      }
    }

    /** The whole analysis. Each time the stop flag is read it is up, until the frames end or it is down: the
        records are those of the first `groups` groups, as many as the reads were enough for. */
    method Worker(run: nat -> bool) returns (ret: int, ghost groups: nat, ghost polled: nat)
      requires Valid() && SingleFrame(pluginManager.detector)
      modifies logicAnalyzer`pos, logicAnalyzer`included
      modifies (set p | p in logicAnalyzer.pipelines)`pos
      modifies (set n | n in logicAnalyzer.nodes)`pos, (set n | n in logicAnalyzer.nodes)`included
      modifies outcomeCache, accumulator, avSynchronizer, avSynchronizer.extractor, pluginManager`calls
      ensures Valid()
      ensures var s := old(avSynchronizer.View());
              var records := Records(Config(), s, groups);
              && accumulator.rawdata == old(accumulator.rawdata) + records
              && Over(Config(), s, groups, records, ret, run, polled)
    {
      hide L.LogicAnalyzer.Shape, A.Readable, A.Pts, A.VideoEnded, A.AudioEnded, LoadedProgram, Records, After, Over;
      ret, groups := 0, 0;
      var polls := 0;
      ghost var s, setup, added: seq<RawData> := avSynchronizer.View(), Config(), [];
      StartGroups(setup, s, run);
      ghost var over := false;
      while run(polls)
        invariant Valid() && Config() == setup && !over
        invariant After(setup, s, groups, avSynchronizer.View(), added, ret, run, polls)
        invariant accumulator.rawdata == old(accumulator.rawdata) + added
        decreases A.Unread(setup.media, avSynchronizer.View())
      {
        var more;
        ghost var new';
        more, polls, ret, new' := Turn(run, polls, ret, setup, s, groups, added);
        if !more {
          over := true;
          break;
        }
        groups, added := groups + 1, added + new';
      }
      if !over {
        Stopped(setup, s, groups, avSynchronizer.View(), added, ret, run, polls);
      }
      OverRecords(setup, s, groups, added, ret, run, polls);
      polled := polls;
    }

    lemma OverRecords(setup: Setup, s: A.Sync, n: nat, added: seq<RawData>, ret: int, run: nat -> bool, polled: nat)
      requires Runnable(setup.program) && A.Readable(setup.media, s)
      requires Over(setup, s, n, added, ret, run, polled)
      ensures added == Records(setup, s, n)
    {
    }
  }
}
