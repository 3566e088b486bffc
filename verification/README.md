# Analysis core of Open Video Intelligence, in Dafny

This project models how a link expression over plugins becomes a keep/drop verdict for every frame, and how the
verdicts become clip ranges, and proves what each stage computes and what the stages compute together. The
compiled expression (nodes shared between pipelines), the evaluator, the outcome cache, the synchroniser, the
accumulator, the analysis loop, the segmentation, the Python request queue and the session are classes whose
methods change their fields in place; each is proved against a value-level description, and the laws are proved
about that description.

| file | what it holds |
|---|---|
| Types.dfy, PluginManager.dfy | plugins, tokens, outcomes, frames, records; the log of detector calls |
| Validator.dfy | the one-pass check of an expression and the language it accepts |
| Expression.dfy, CompilerLaws.dfy, ProgramLaws.dfy | the compiled program, the left-to-right value of the tokens, the program told from the words |
| Walk.dfy, WalkLaws.dfy | the evaluator as a machine with one cursor and as a recursion; the pipelines it enters |
| VerdictLaws.dfy, EffectLaws.dfy | what each pipeline needs, the verdict in closed form and when it is the value; effects and their details |
| LogicAnalyzer.dfy | the aliased node and pipeline objects, compilation and nextPlugin in place |
| ExpressionLaws.dfy | from the words of an accepted expression to the verdict of a frame |
| OutcomeCache.dfy, Accumulator.dfy, AvSynchronizer.dfy, SyncLaws.dfy | per-frame memory, records, pairing of audio with video |
| DataFlow.dfy, FrameLaws.dfy | the analysis loop, and which frames it records |
| Segments.dfy, SegmentLaws.dfy, DataAnalyzer.dfy, MetadataLaws.dfy | gap closing, the look-ahead pass, clip metadata |
| EndToEnd.dfy | from an expression and a video to clip ranges |
| PyManager.dfy | the request queue of the Python worker |
| Session.dfy | the session lifecycle |

Main results:

- `EndToEnd.RunSession`: from an expression, the plugins, the detectors and the media to clip ranges. A session that
  gives ranges has raised no error, and its ranges hold exactly the frames covered by the closing of the expression's
  values, told from what the detectors say about the last video frame of each group and the audio paired with it.
- `ProgramLaws.CompiledProgram`: nodes, attachments, pipelines and essential pipelines of the compiled program, told
  from the words of the expression.
- `LogicAnalyzer.LogicAnalyzer.NextPlugin`: although nodes are shared between pipelines and keep cursors of their
  own, the evaluator moves like a machine with a single cursor. `WalkLaws.RunIsRecursion` then makes a whole run a
  recursion over pipelines, nodes and plugins, and `WalkLaws.VisitedMeans` does the same for the pipelines entered.
- `ExpressionLaws.EvaluatorCorrectIff`: for every accepted expression that compiles, the exact condition under which
  the verdict of every frame is the left-to-right value (`VerdictLaws.ReadsAsWritten`, explained below).
- `VerdictLaws.VerdictClosed`: the verdict is the OR, over the pipelines from the last essential one on, of what each
  needs; `VerdictLaws.FinitelyMany` covers the programs in which that pipeline depends on how it is entered.
- `DataFlow.DataFlow.AnalyseGroup`: the loop with its cache computes the memoryless evaluation, calls each detector
  at most once for a group, and calls the evaluator exactly as often as the machine steps.
- `SegmentLaws.ClipsAreClosing` with `DataAnalyzer.DataAnalyzer.AnalyzeRawData`: the look-ahead pass computes the
  closing of the mask, and nothing else.

The value of an expression reads `&` and `|` from left to right and leaves attachments out; a detector counts as its
detect flag, or as true if marked `~`, and an effect as operand counts as true. The verdict of the code is something
else: an effect as operand takes the flag of the latest detector for its own. From the program alone one can tell
which detectors a pipeline *needs* to hold: those of its cut nodes, attached ones included, and for a cut effect
those behind the flag it finds. A pipeline *names* the detectors of its cut operands. The verdict of every frame is
the value iff for every pipeline some pipeline from the last essential one on needs no more than the former names.
This is exact unless the last essential pipeline is not the first and depends on the flag it is entered with, as one
that starts with an effect may; then finitely many frames decide, those on which some plugins of the program fire.

Where the code does not do what one would expect, the model follows the code:

- The validator accepts `~ : effect`, and compiling it pushes on a node that does not exist. Compilation succeeds
  exactly for the accepted expressions that do not start that way (`CompilerLaws.CompilesIff`).
- An essential pipeline is entered even after an earlier pipeline succeeded, and its own verdict then counts: with
  `A | B : effect`, a frame on which A fires and B does not is dropped (`ExpressionLaws.EssentialOverrules`). With
  `A | A : effect` this does no harm (`VerdictLaws.RepeatedDetector`).
- An effect joined by `&` takes the flag of the latest detector for its own. Behind an uncut detector that did not
  fire it fails: `~ A : effect & other` then drops the frame (`ExpressionLaws.JoinedEffectFails`). A detector in
  between helps, as in `~ A : effect & B & other` (`VerdictLaws.UncutBehindDetector`).
- The validator looks at the kind of a plugin only right behind `:`, so it accepts `A : ~ B : effect` with a second
  detector B. Compiled, B is attached and cuts like an operand: with A firing and B not, the expression is true and
  the frame is dropped (`ExpressionLaws.AttachedDetectorCuts`). A session never gets that far, because the link check
  at its start fails on `~` right behind `:` or `&` (`EndToEnd.RunSession`).
- An audio detector asked about an empty batch counts as having detected (`FrameLaws.AudioReply`), so the end of a
  video that outlasts its audio is included whatever the detector says (`FrameLaws.OutlastedAudio`).
- The included record that ends a bridged gap hands no details to its clip (`MetadataLaws.ClipMetadata`).
- An error raised by a plugin ends the evaluation of its group only: the group leaves no records, the analysis
  goes on, and the last such error is reported (`DataFlow.DataFlow.Worker`).
- The analyser loses a clip that reaches the last record and starts at a negative frame number
  (`MetadataLaws.KeptIff`). A session numbers its frames from 1, so this concerns other callers only.

Modelling choices: frame numbers and durations are integers (the code stores them in doubles), presentation times
and frame rates are reals with the code's own sentinel -1.0, and the sentinel strings of the evaluator are
constructors. A detector's answer is an arbitrary function of plugin and frame, and may be an error. The stop flag is
an arbitrary function of the number of times it has been read. Each client call, worker turn and completion is one
atomic step.

## Model

| member | source | states |
|---|---|---|
| `Validator.ValidateLogic` | src/LogicAnalyzer.cpp:49-133 | the scan accepts exactly the language given by conditions on positions: length 1 to 1000, ends in a plugin, neighbours allowed, plugins known, effects behind `:`, every `~` meets an effect before any `&`, `\|` or `~` |
| `CompilerLaws.CompilesIff` | src/LogicAnalyzer.cpp:349-388 | an accepted expression compiles without touching a missing node iff it does not start with `~ :` |
| `CompilerLaws.AcceptedButFails` | src/LogicAnalyzer.cpp:374-376 | a concrete accepted expression whose compilation pushes on a missing node |
| `CompilerLaws.ClosedForm` | src/LogicAnalyzer.cpp:329-392 | heads appear in increasing order from node 0, and each pipeline is its own head followed by exactly the later nodes that head no pipeline, each once; no pipeline is empty |
| `CompilerLaws.CompilePreservesMeaning` | src/LogicAnalyzer.cpp:329-392 | OR over pipelines of AND over their nodes equals the left-to-right value of the tokens, for every valuation |
| `ProgramLaws.CompiledProgram` | src/LogicAnalyzer.cpp:329-392 | each operand makes one node, which has the plugins attached to it in order and is cut unless the operand is marked `~`; the first operand and those behind `\|` head the pipelines; a pipeline is essential iff it is not the first and its head has something attached |
| `CompilerLaws.AddPluginWellFormed` | src/LogicAnalyzer.cpp:360-385 | every way of adding a plugin keeps pipelines free of repeated and missing nodes |
| `LogicAnalyzer.PluginNode.constructor` | src/LogicAnalyzer.cpp:169-173 | a new node has its head plugin and a fresh cursor |
| `LogicAnalyzer.PluginNode.Reset` | include/LogicAnalyzer.h:42 | rewinds the cursor and forgets the verdict, leaving the plugins alone |
| `LogicAnalyzer.PluginNode.Push` | include/LogicAnalyzer.h:44 | attaches a plugin behind the others |
| `LogicAnalyzer.PluginNode.Pop` | src/LogicAnalyzer.cpp:179-186 | hands out the plugin under the cursor, nothing when exhausted or not included |
| `LogicAnalyzer.PluginNode.Post` | src/LogicAnalyzer.cpp:188-195 | only the head's result is remembered; an uncut node always goes on |
| `LogicAnalyzer.PluginPipeline.Reset` | src/LogicAnalyzer.cpp:217-222 | rewinds the pipeline and every node in it |
| `LogicAnalyzer.PluginPipeline.Push` | src/LogicAnalyzer.cpp:224-227 | appends a node |
| `LogicAnalyzer.PluginPipeline.Pop` | src/LogicAnalyzer.cpp:229-247 | stays in the node while it gives, else moves to the next node, else reports the end; no other cursor moves |
| `LogicAnalyzer.PluginPipeline.Current` | src/LogicAnalyzer.cpp:249-254 | the node under the cursor, or none past the end |
| `LogicAnalyzer.PluginPipeline.Feed` | src/LogicAnalyzer.cpp:299-304 | with fresh nodes ahead, a result either hands out a plugin, fails the pipeline or completes it, and the nodes ahead stay fresh |
| `LogicAnalyzer.PluginPipeline.SetEssential` | src/LogicAnalyzer.cpp:256-264 | marks exactly one-node pipelines, and never unmarks |
| `LogicAnalyzer.LogicAnalyzer.constructor` | src/LogicAnalyzer.cpp:277-283 | the new evaluator shares its nodes as the compiled program says and stands before the first plugin |
| `LogicAnalyzer.LogicAnalyzer.Reset` | src/LogicAnalyzer.cpp:289-295 | brings any evaluator back to the start without changing its sharing |
| `LogicAnalyzer.LogicAnalyzer.RunAnalysis` | src/LogicAnalyzer.cpp:329-392 | builds objects whose sharing is exactly that of the compiled program |
| `LogicAnalyzer.LogicAnalyzer.BuildPipelines` | src/LogicAnalyzer.cpp:331-388 | the loop over the tokens keeps objects and program in step |
| `LogicAnalyzer.LogicAnalyzer.AddOperand` | src/LogicAnalyzer.cpp:360-385 | one plugin, by the operator in front of it |
| `LogicAnalyzer.LogicAnalyzer.JoinAll` | src/LogicAnalyzer.cpp:361-366 | one new object at the end of every pipeline |
| `LogicAnalyzer.LogicAnalyzer.PushToAll` | src/LogicAnalyzer.cpp:364-365 | every pipeline gets the same object |
| `LogicAnalyzer.LogicAnalyzer.StartPipeline` | src/LogicAnalyzer.cpp:367-373 | a new pipeline with a new node |
| `LogicAnalyzer.LogicAnalyzer.AttachTo` | src/LogicAnalyzer.cpp:374-379 | the newest node gets the plugin in all pipelines that share it, and the newest pipeline becomes essential when it is not the first and has one node, which `ProgramLaws.CompiledProgram` tells from the words |
| `LogicAnalyzer.LogicAnalyzer.JoinLast` | src/LogicAnalyzer.cpp:380-384 | the first operand goes to the newest pipeline only |
| `LogicAnalyzer.LogicAnalyzer.NextPlugin` | src/LogicAnalyzer.cpp:297-327 | from a running evaluator, one call is one step of the one-cursor machine: same plugin and running again, or the end with the verdict in include |
| `LogicAnalyzer.LogicAnalyzer.Advance` | src/LogicAnalyzer.cpp:299-304 | the result goes to the current node and pipeline, and include is set accordingly |
| `LogicAnalyzer.LogicAnalyzer.MoveOn` | src/LogicAnalyzer.cpp:305-323 | leaving a pipeline enters the following one or ends with the verdict |
| `LogicAnalyzer.LogicAnalyzer.FollowingPipeline` | src/LogicAnalyzer.cpp:307-310 | the next pipeline after a failure, the next essential one after a success |
| `LogicAnalyzer.LogicAnalyzer.Enter` | src/LogicAnalyzer.cpp:313-314 | entering a pipeline hands out its head and goes no deeper, whatever its shared nodes were used for before |
| `Walk.EnterStep` | src/LogicAnalyzer.cpp:313-314 | a rewound pipeline always gives its head, so the recursion is one deep |
| `Walk.Progress` | src/LogicAnalyzer.cpp:229-247 | every plugin handed out sits at a slot strictly after the cursor in lexicographic order and uses up a remaining slot |
| `WalkLaws.RunIsRecursion` | src/DataFlow.cpp:71-102 | alternating evaluator and plugins equals the recursive evaluation of pipelines, nodes and attached plugins |
| `WalkLaws.CallsPerFrame` | src/LogicAnalyzer.cpp:297-327 | a frame takes at most one more call of the machine than the program has slots; the loop makes exactly that many (`DataFlow.DataFlow.AnalyseGroup`) |
| `WalkLaws.VisitedMeans` | src/LogicAnalyzer.cpp:306-323 | the pipelines the machine's cursor goes through in a run are those of the recursion |
| `WalkLaws.EssentialLaw` | src/LogicAnalyzer.cpp:306-323 | the machine's cursor enters pipeline 0 first, goes only forward, skips only to essential pipelines, and in a completed run enters every essential pipeline exactly once |
| `VerdictLaws.RowDecides` | src/LogicAnalyzer.cpp:179-195 | a pipeline passes iff the detectors fire that the program says it needs, whatever effects or detectors are attached or joined, and fails with the flag down |
| `VerdictLaws.VerdictClosed` | src/LogicAnalyzer.cpp:297-327 | the verdict of a completed run is true iff some pipeline from the last essential one on has what it needs |
| `VerdictLaws.EnteredByVerdict` | src/LogicAnalyzer.cpp:306-323 | a completed run leaves a pipeline that lacks something for the next one and any other for the next essential one, and ends with the truth of the last one entered |
| `VerdictLaws.VerdictIsTrue` | src/LogicAnalyzer.cpp:297-327 | the verdict is never true where the OR of the pipelines is false |
| `VerdictLaws.VerdictIsOr` | src/LogicAnalyzer.cpp:297-327 | when every pipeline is covered by one from the last essential one on, the verdict is the OR of the pipelines |
| `VerdictLaws.CoveredIff` | src/LogicAnalyzer.cpp:306-323 | covering is exact: the verdict is the OR on every frame iff every pipeline names all that some pipeline from the last essential one on needs |
| `VerdictLaws.FinitelyMany` | src/LogicAnalyzer.cpp:297-327 | for any program the verdict is the OR on every frame iff it is on the finitely many frames on which some of its plugins fire |
| `VerdictLaws.VerdictIsOrIff` | src/LogicAnalyzer.cpp:306-323 | for any program, the exact condition under which the verdict is the OR of the pipelines on every frame |
| `VerdictLaws.UncutBehindDetector` | src/LogicAnalyzer.cpp:188-195 | an uncut detector does no harm when a detector stands between it and a joined effect |
| `VerdictLaws.RepeatedDetector` | src/LogicAnalyzer.cpp:374-379 | naming the same detector twice, as in `A \| A : effect`, leaves the verdict the value |
| `WalkLaws.EffectOperand` | src/LogicAnalyzer.cpp:188-195 | an effect as operand is run whenever it is reached, takes the latest detector's details, and holds iff that detector fired (true before the first) or it is uncut |
| `EffectLaws.EffectsAttached` | src/DataFlow.cpp:84-93 | an effect, attached or joined, is in the result iff a node reached in a pipeline the machine enters runs it, and it carries the details of the detector that decides the last such node of the run |
| `EffectLaws.OwnDetails` | src/OutcomeCache.cpp:35-38 | an effect that only one detector's node has carries that detector's details, through however many pipelines the node was reached |
| `ExpressionLaws.ProgramLoaded` | src/LogicAnalyzer.cpp:110-113 | every plugin of a compiled accepted expression is loaded |
| `ExpressionLaws.ProgramLed` | src/LogicAnalyzer.cpp:329-392 | with effects only behind `:` and `&` and nothing else attached, every pipeline starts with a detector and does not depend on the flag it is entered with |
| `ExpressionLaws.EvaluatorCorrect` | src/LogicAnalyzer.cpp:297-392 | for every accepted expression that compiles to a program that reads as written, and every assignment of replies, a completed run includes the frame iff the expression is true from left to right |
| `ExpressionLaws.EvaluatorCorrectIff` | src/LogicAnalyzer.cpp:297-392 | for every accepted expression that compiles, verdict and value agree on every frame iff the program reads as written |
| `ExpressionLaws.EssentialOverrules` | src/LogicAnalyzer.cpp:306-316 | `A \| B : effect` is accepted, and with A true and B false it is true and yet drops the frame |
| `ExpressionLaws.JoinedEffectFails` | src/LogicAnalyzer.cpp:188-195 | `~ A : effect & other` is accepted, and when A does not fire it is true and yet drops the frame |
| `ExpressionLaws.AttachedDetectorCuts` | src/LogicAnalyzer.cpp:115-122 | `A : ~ B : effect` with a detector B is accepted, and with A true and B false it is true and yet drops the frame |
| `OutcomeCache.OutcomeCache.Hit` | src/OutcomeCache.cpp:24-27 | whether an outcome is stored |
| `OutcomeCache.OutcomeCache.Write` | src/OutcomeCache.cpp:28-33 | stores an outcome and makes it current |
| `OutcomeCache.OutcomeCache.SetDetected` | src/OutcomeCache.cpp:35-38 | the effect takes the details of the current outcome |
| `OutcomeCache.OutcomeCache.FindMultiFrameResult` | src/OutcomeCache.cpp:45-53 | true iff some stored list starts with a flag |
| `OutcomeCache.OutcomeCache.SetResultUid` | src/OutcomeCache.cpp:65-68 | makes an id current |
| `OutcomeCache.OutcomeCache.Result` | src/OutcomeCache.cpp:70-76 | the current outcome or the default one; inserts only when the current id is not stored |
| `OutcomeCache.OutcomeCache.Clear` | src/OutcomeCache.cpp:78-83 | forgets everything |
| `Accumulator.Accumulator.Append` | src/Accumulator.cpp:22-25 | one more record at the end |
| `Accumulator.Accumulator.Update` | src/Accumulator.cpp:27-35 | a list of flags rewrites the verdicts in order and nothing else |
| `AvSynchronizer.FrameExtractor.NextVideo` | include/IFrameExtractor.h:30 | the next frame of a finite stream, nothing past its end |
| `AvSynchronizer.FrameExtractor.NextAudio` | include/IFrameExtractor.h:31 | the next frame of a finite stream, nothing past its end |
| `AvSynchronizer.AvSynchronizer.constructor` | src/AvSynchronizer.cpp:23-29 | absent streams count as ended, and there is no time yet |
| `AvSynchronizer.AvSynchronizer.GetNextVideo` | src/AvSynchronizer.cpp:31-37 | one read unless ended; an ended stream is never read again |
| `AvSynchronizer.AvSynchronizer.GetNextAudio` | src/AvSynchronizer.cpp:39-62 | the batch up to the first frame beyond the video time, and nothing once the video has ended |
| `AvSynchronizer.AvSynchronizer.ReadBatch` | src/AvSynchronizer.cpp:50-61 | the loop reads up to the first frame beyond the time, or the end |
| `SyncLaws.InOrderPrefixes` | src/AvSynchronizer.cpp:31-82 | over any sequence of calls both streams are delivered as in-order prefixes |
| `SyncLaws.BatchStaysWithVideo` | src/AvSynchronizer.cpp:50-59 | all frames of a batch but the last are at or before the video time, and the last is beyond it unless the audio has ended |
| `SyncLaws.BatchLimits` | src/AvSynchronizer.cpp:43-48 | no audio after the end of the video, at most one frame per batch without video |
| `PluginManager.PluginManager.Process` | include/IPluginProcess.h:57 | one call of a detector, entered in the log |
| `DataFlow.DataFlow.ProcessPlugin` | src/DataFlow.cpp:149-185 | a video detector's reply is what it says about the video frame, an audio detector's what it says about the first frame of the batch that detects or raises, or the last; anything else counts as detected; the log grows by exactly these calls |
| `DataFlow.DataFlow.ProcessBatch` | src/DataFlow.cpp:167-177 | an audio detector is shown the frames of the batch up to the first that detects or raises, and no more |
| `DataFlow.DataFlow.AppendResult` | src/DataFlow.cpp:132-142 | one record per frame of the group, numbered back from the analysed frame, all with the same verdict and effects |
| `DataFlow.DataFlow.GatherFrames` | src/DataFlow.cpp:52-61 | keeps the last of skip + 1 fetches and drops a group cut short by the end; which frames these are is stated by `FrameLaws.GroupBatch` |
| `DataFlow.DataFlow.Rewind` | src/DataFlow.cpp:69-70 | evaluator and cache start the group afresh |
| `DataFlow.DataFlow.Request` | src/DataFlow.cpp:72-75 | feeding the current result never inserts into the cache and makes progress |
| `DataFlow.DataFlow.Consult` | src/DataFlow.cpp:84-101 | the memoised step equals the memoryless one; a detector is called iff it was not asked before, an effect or a stored outcome takes no call |
| `DataFlow.DataFlow.Round` | src/DataFlow.cpp:71-102 | one round makes one step towards the group's result and keeps the log free of repeats |
| `DataFlow.DataFlow.Rounds` | src/DataFlow.cpp:71-102 | the loop reaches the group's result after exactly the number of evaluator calls it takes, or stops with the flag |
| `DataFlow.DataFlow.FinishGroup` | src/DataFlow.cpp:75-82 | the verdict and effects of the group are recorded |
| `DataFlow.DataFlow.AnalyseGroup` | src/DataFlow.cpp:69-102 | records exactly the outcome of the recursive, memoryless evaluation of the expression; since the start of the group each detector asked has been called once and no other; an error is reported iff the detector asked last raised it; the evaluator is called exactly as often as the machine steps; a stop records nothing |
| `DataFlow.DataFlow.Turn` | src/DataFlow.cpp:47-116 | one turn fetches and analyses one more group, or the analysis is over |
| `DataFlow.DataFlow.Worker` | src/DataFlow.cpp:40-125 | the records are those of the first groups and the reported error is the last one raised; each time the stop flag was read it was up, until the frames ended or it was down, and the number of reads tells how many groups there are |
| `FrameLaws.GroupFrames` | src/DataFlow.cpp:52-61 | group g is analysed on its last video frame and that frame's audio; an incomplete group does not exist |
| `FrameLaws.GroupBatch` | src/DataFlow.cpp:52-61 | group g is its last video frame and the audio paired with that frame |
| `FrameLaws.FetchBatch` | src/AvSynchronizer.cpp:39-62 | the audio given with video frame t runs up to and including the first frame beyond its time, or to the end of the audio |
| `FrameLaws.CutsPaired` | src/AvSynchronizer.cpp:31-82 | the batches of successive fetches are consecutive pieces of the audio, from its start |
| `FrameLaws.PairedUnique` | src/AvSynchronizer.cpp:50-59 | the presentation times determine the pairing |
| `FrameLaws.CompleteVideo` | src/DataFlow.cpp:47-61 | a complete analysis of N frames has N div (skip + 1) groups |
| `FrameLaws.VideoRecords` | src/DataFlow.cpp:132-142 | without errors, n groups leave n times skip + 1 records, each in its place with its group's verdict |
| `FrameLaws.RecordsFullIff` | src/DataFlow.cpp:97-101 | the records are that many iff no group raised an error, and fewer otherwise |
| `FrameLaws.NeverRaised` | src/DataFlow.cpp:94-101 | detectors that never raise bring every group to a verdict |
| `FrameLaws.NoErrorReported` | src/DataFlow.cpp:97-101 | success is reported iff no group raised an error, error codes not being zero |
| `FrameLaws.LastErrorOf` | src/DataFlow.cpp:97-101 | the error reported is that of the last group that raised one |
| `FrameLaws.RecordNumber` | src/DataFlow.cpp:134-136 | with consecutive frame numbers, the records are the first frames of the video, each once and in order |
| `FrameLaws.AudioRecords` | src/DataFlow.cpp:138-141 | audio alone is recorded frame by frame, each with its own verdict |
| `FrameLaws.AudioReply` | src/DataFlow.cpp:167-177 | an audio detector counts as detecting iff it fires for some frame of the batch or the batch is empty |
| `FrameLaws.BatchEmptyIff` | src/AvSynchronizer.cpp:39-62 | beside a video frame the batch is empty iff there is no audio or all of it has been delivered before |
| `FrameLaws.OutlastedAudio` | src/DataFlow.cpp:151-177 | a video of two frames with one audio frame: the detector never fires, and the second frame is included |
| `DataAnalyzer.DataAnalyzer.SetCorrectionValue` | src/DataAnalyzer.cpp:22-25 | the least integer at or above the frame rate |
| `DataAnalyzer.DataAnalyzer.CanSkip` | src/DataAnalyzer.cpp:27-42 | finds the nearest included record closer than the frame count, iff there is one |
| `DataAnalyzer.DataAnalyzer.EndOrBridge` | src/DataAnalyzer.cpp:61-75 | at a gap the clip either runs on behind it or is pushed with its range and metadata |
| `DataAnalyzer.DataAnalyzer.EndOfInput` | src/DataAnalyzer.cpp:78-79 | the clip still open is pushed unless its start is negative |
| `DataAnalyzer.DataAnalyzer.AnalyzeRawData` | src/DataAnalyzer.cpp:44-80 | the look-ahead pass appends exactly the clips of the plain gap-closing construction, with their ranges and metadata |
| `DataAnalyzer.DataAnalyzer.Sort` | src/DataAnalyzer.cpp:87-101 | per plugin, the details of the records in order, and no empty entry |
| `SegmentLaws.ClipsAreClosing` | src/DataAnalyzer.cpp:44-80 | clips are sorted, start and end on included records, lie at least max(1, F) records apart, and cover a record iff it is included or inside a gap of fewer than F records |
| `SegmentLaws.ClosingUnique` | src/DataAnalyzer.cpp:44-80 | these conditions determine the clips |
| `SegmentLaws.ReanalysisSame` | src/DataAnalyzer.cpp:44-80 | analysing the covered mask again gives the same clips |
| `SegmentLaws.CoverageGrows` | src/DataAnalyzer.cpp:27-42 | a larger correction value covers at least as much |
| `SegmentLaws.NoGapDecodes` | src/DataAnalyzer.cpp:29-34 | with a correction value of at most 1 the clips decode to the mask |
| `SegmentLaws.ClipDurations` | src/DataAnalyzer.cpp:58-66 | the durations add up to the covered records |
| `SegmentLaws.SplitAtGap` | src/DataAnalyzer.cpp:61-75 | a gap of at least max(1, F) records splits the analysis |
| `MetadataLaws.ClipMetadata` | src/DataAnalyzer.cpp:51-80 | a clip's metadata lists, per plugin and in frame order, exactly the details of its included records that are its first or follow an included one |
| `MetadataLaws.ReachesEnd` | src/DataAnalyzer.cpp:78-79 | a clip is open at the end iff the last record is included |
| `MetadataLaws.KeptIff` | src/DataAnalyzer.cpp:78-79 | every clip is kept iff the last record is excluded or its clip starts at a frame number that is not negative |
| `MetadataLaws.NegativeStartLost` | src/DataAnalyzer.cpp:47-79 | one included record numbered -1, as only a direct caller could pass, gives no range |
| `EndToEnd.MakeTimeRange` | src/RenderTask.cpp:77-85 | the ranges of a finished analysis |
| `EndToEnd.RunDataFlow` | src/Session.cpp:302-318 | an analysis that is not stopped accumulates the records of all groups |
| `EndToEnd.FlagsAreYes` | src/DataFlow.cpp:149-185 | the flags a group is evaluated with are what the detectors say about its frames |
| `EndToEnd.RunSession` | src/Session.cpp:176-343 | a request is refused, undefined to compile, or not linked, exactly as stated; otherwise an error reported is one that a detector raised, or the ranges hold exactly the closing of the mask told from request, detectors, media and skip count |
| `EndToEnd.GroupVerdict` | src/DataFlow.cpp:69-80 | a group's verdict is the value of the expression on its detect flags |
| `EndToEnd.RangesCover` | src/DataAnalyzer.cpp:44-80 | for consecutively numbered records, a frame number lies in a range iff its record is covered |
| `EndToEnd.VideoSession` | src/DataFlow.cpp:47-116 | for a video of N consecutive frames, the ranges hold exactly the closing of the mask of (N div (skip + 1)) * (skip + 1) entries whose entry k is the expression's value on what the detectors say about the last video frame of k's group and the audio paired with it |
| `EndToEnd.VideoRanges` | src/DataFlow.cpp:47-116 | the same in terms of the groups of the analysis; a session that gives ranges has raised no error |
| `EndToEnd.AudioSession` | src/DataFlow.cpp:138-141 | for audio alone, whatever the skip count, the ranges hold exactly the closing of the mask whose entry k is the expression's value on audio frame k |
| `EndToEnd.AudioRanges` | src/DataFlow.cpp:138-141 | the same in terms of the groups of the analysis |
| `PyManager.PyManager.constructor` | src/PyManager.cpp:28-32 | an empty queue |
| `PyManager.PyManager.Push` | src/PyManager.cpp:47-126 | a request joins the end of the queue; nothing already answered changes |
| `PyManager.PyManager.GetPluginInfo` | src/PyManager.cpp:47-63 | issues a request that wants a response |
| `PyManager.PyManager.CreateModule` | src/PyManager.cpp:65-78 | hands out a key no earlier creation has |
| `PyManager.PyManager.RemoveModule` | src/PyManager.cpp:80-88 | issues the removal of a key |
| `PyManager.PyManager.SetAttributes` | src/PyManager.cpp:90-107 | issues a request that wants a response |
| `PyManager.PyManager.ProcessFrame` | src/PyManager.cpp:109-126 | issues a request that wants a response |
| `PyManager.PyManager.SetValue` | src/PyManager.cpp:270 | a promise is set, for the first time |
| `PyManager.PyManager.Serve` | src/PyManager.cpp:135-172 | the oldest request is served; of the served requests exactly those that want one have a response, set once, in order of issue, as the modules loaded at that moment make it |
| `PyManager.ServeOne` | src/PyManager.cpp:144-171 | serving the next request extends modules and responses by exactly its effect |
| `PyManager.ServedAnswered` | src/PyManager.cpp:275-410 | every request served is answered as Python makes it: with the module's description, whether the module created under the key took the attributes, or its outcome for the frame; creations and removals have no answer, and nothing is answered before it is served |
| `PyManager.KeysUnique` | src/PyManager.cpp:67-77 | creation keys increase, so no key is handed out twice |
| `PyManager.KeyFound` | src/PyManager.cpp:275-295 | a request finds its key iff it was created before and not removed since, and the key names the module of that creation |
| `PyManager.ProcessReachesModule` | src/PyManager.cpp:332-410 | a frame sent between creation and removal is processed by the created module |
| `Session.Session.constructor` | src/Session.cpp:72-77 | a session starts idle and unconfigured |
| `Session.Session.UpdateState` | src/Session.cpp:61-70 | a change is notified iff a callback is set and the state differs |
| `Session.Session.SetMediaPathTo` | src/Session.cpp:89-106 | only an idle session takes a resolvable path |
| `Session.Session.SetCallback` | src/Session.cpp:154-163 | only an idle session takes a callback |
| `Session.Session.UnsetCallback` | src/Session.cpp:165-174 | only an idle session with a callback lets it go |
| `Session.Session.StartSession` | src/Session.cpp:176-213 | exactly an idle session with everything set, linked and prepared begins its analysis |
| `Session.Session.StopSession` | src/Session.cpp:215-228 | an analysing session goes idle and says so, any other stays as it is |
| `Session.Session.SetRenderTo` | src/Session.cpp:241-259 | only an idle session takes a loaded render plugin and a path |
| `Session.Session.Register` | src/Session.cpp:261-273 | only an idle session takes an expression, and only an accepted one; undefined exactly for an accepted one that starts with `~ :` |
| `Session.Session.Append` | src/Session.cpp:275-284 | only an idle session loads a plugin, and only one that can be loaded |
| `Session.Session.SetAttrs` | src/Session.cpp:286-295 | only an idle session changes attributes, and only of a loaded plugin |
| `Session.Session.SetSkipVideoFrames` | src/Session.cpp:345-351 | only an idle session changes the skip count |
| `Session.Session.CompleteCb` | src/Session.cpp:33-59 | an error leads to idle; otherwise analysis leads to rendering, rendering to idle, and idle stays |
| `Session.RunMore` | src/Session.cpp:33-70 | a session that is where its history leads stays so with every call and completion, its notifications stay a path to its state, and it stays configured while it runs |
| `Session.NotificationsArePath` | src/Session.cpp:33-70 | over every history the notifications form a connected, non-stuttering path from idle over the four allowed transitions, and tell the current state while a callback is set |
| `Session.ConfigFrozen` | src/Session.cpp:241-295 | the configuration does not change until the session is idle again |
| `Session.RunningIsConfigured` | src/Session.cpp:176-213 | a session that is not idle has an expression, a media path and a render target |

## Left out

- DataFlow.DataFlow.Worker: does not cover multi-frame results (outcome lists that start with a flag), which would rewrite all records; detectors are required not to give them. The progress and completion callbacks and an error from the extractor are left out too.
- DataFlow.DataFlow.AnalyseGroup: does not cover multi-frame results, for the same reason.
- DataFlow.DataFlow.FinishGroup: does not cover multi-frame results, for the same reason.
- DataFlow.DataFlow.GatherFrames: does not cover errors thrown by the extractor.
- AvSynchronizer.FrameExtractor.NextVideo: does not cover errors thrown by the extractor, which is two finite streams of frames.
- AvSynchronizer.FrameExtractor.NextAudio: does not cover errors thrown by the extractor.
- PluginManager.PluginManager.Process: the answer depends on the plugin and the frame only; detectors that remember earlier frames are not covered.
- EndToEnd.RunSession: the comparison of metadata forms in the link check is a given answer, and the checks of media kinds and attributes at the start of a session are not part of this model.
- EndToEnd.VideoRanges: is stated for programs that read as written, which is exactly when verdict and value agree; what the others come to is stated by VerdictLaws.VerdictClosed and WalkLaws.RunIsRecursion.
- EffectLaws.EffectsAttached: is stated for programs whose pipelines start with a detector and in which only effects are attached.
- VerdictLaws.VerdictClosed: is stated for programs whose last essential pipeline is the first or does not depend on the flag it is entered with; for the others VerdictLaws.FinitelyMany gives the exact condition.
- VerdictLaws.EnteredByVerdict: is stated for programs whose essential pipelines behind the first do not depend on the flag they are entered with.
- PyManager.PyManager.Serve: covers the worker while it runs; the module table it clears at shutdown and requests left unserved then are not modelled.
- PyManager.PyManager.GetPluginInfo: issues the request; the wait of the client for its response is not modelled.
- PyManager.PyManager.SetAttributes: issues the request; the wait of the client for its response is not modelled.
- PyManager.PyManager.ProcessFrame: issues the request; the wait of the client for its response is not modelled.
- Session.Session.StartSession: takes the answers of the link check and of opening the media as given; the interleaving of a job with the state update that follows its launch is not modelled.
- Session.Session.StopSession: the stopping of the analysis thread is not modelled; a session that analyses has one.
- Session.Session.CompleteCb: the error callback and the rendering job itself are not modelled.
- Session.Session.Register: for an accepted expression that starts with `~ :` only says that registering it is undefined.
- The check that detectors and renderers agree on metadata forms (validate_link) and attribute validation: table look-ups.
- Decoding, packing and conversion of frames: the extractor is two finite streams of frames.
- Timeline construction and rendering: the model stops at the ranges with their metadata.
- Plugin bodies and Python calls: parameters of the model.
- Logging, configuration, performance measurement, plugin loading and the C and Python interfaces.
