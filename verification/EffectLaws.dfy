/** Which effects a frame ends up with, and whose details they carry. */
module EffectLaws {
  import opened Types
  import opened Expression
  import opened Walk
  import opened WalkLaws

  ghost predicate AttachesEffects(plugins: PluginTable, node: Node) {
    node.plugins != [] && forall j :: 1 <= j < |node.plugins| ==> IsEffect(plugins, node.plugins[j])
  }

  /** Effects are attached to operands or stand as operands behind a detector: everything attached is an effect,
      and every pipeline starts with a detector. */
  ghost predicate EffectsFollow(plugins: PluginTable, program: Program)
    requires Runnable(program)
  {
    && (forall n :: 0 <= n < |program.nodes| ==> AttachesEffects(plugins, program.nodes[n]))
    && (forall p :: 0 <= p < |program.rows| ==> !IsEffect(plugins, NodeAt(program, p, 0).plugins[0]))
  }

  /** The node whose detector decides node k of pipeline p: itself, or for an effect the nearest before it. */
  function Decider(plugins: PluginTable, program: Program, p: nat, k: nat): (d: nat)
    requires Runnable(program) && p < |program.rows| && k < |program.rows[p].ids|
    ensures d <= k
  {
    if k == 0 || !IsEffect(plugins, NodeAt(program, p, k).plugins[0]) then k else Decider(plugins, program, p, k - 1)
  }

  /** The reply that decides node k of pipeline p. */
  function Decision(env: Env, program: Program, p: nat, k: nat): Reply
    requires Runnable(program) && p < |program.rows| && k < |program.rows[p].ids|
  {
    env.reply(NodeAt(program, p, Decider(env.plugins, program, p, k)).plugins[0])
  }

  ghost predicate Detected(env: Env, program: Program, p: nat, k: nat)
    requires Runnable(program) && p < |program.rows| && k < |program.rows[p].ids|
  {
    Decision(env, program, p, k).Answer? && Decision(env, program, p, k).outcome.detect
  }

  /** Node k of pipeline p is reached once the pipeline is entered: every cut node before it is detected. */
  ghost predicate Reached(env: Env, program: Program, p: nat, k: nat)
    requires Runnable(program) && p < |program.rows| && k <= |program.rows[p].ids|
  {
    forall j :: 0 <= j < k && NodeAt(program, p, j).cut ==> Detected(env, program, p, j)
  }

  /** Node k of pipeline p runs effect e: as an operand in any case, attached if the node is detected. */
  ghost predicate Runs(env: Env, program: Program, p: nat, k: nat, e: Uid)
    requires Runnable(program) && p < |program.rows| && k < |program.rows[p].ids|
  {
    var node := NodeAt(program, p, k);
    (e == node.plugins[0] && IsEffect(env.plugins, e)) || (e in node.plugins[1..] && Detected(env, program, p, k))
  }

  ghost predicate RunsInRow(env: Env, program: Program, p: nat, k: nat, e: Uid)
    requires Runnable(program) && p < |program.rows|
  {
    k < |program.rows[p].ids| && Reached(env, program, p, k) && Runs(env, program, p, k, e)
  }

  /** Node k of the i-th pipeline entered is reached and runs e. */
  ghost predicate RunsAt(env: Env, program: Program, entered: seq<nat>, i: nat, k: nat, e: Uid)
    requires Runnable(program)
  {
    i < |entered| && entered[i] < |program.rows| && RunsInRow(env, program, entered[i], k, e)
  }

  /** Nothing runs e later in the run. */
  ghost predicate RunsLast(env: Env, program: Program, entered: seq<nat>, i: nat, k: nat, e: Uid)
    requires Runnable(program)
  {
    && RunsAt(env, program, entered, i, k, e)
    && forall j: nat, l: nat :: RunsAt(env, program, entered, j, l, e) ==> j < i || (j == i && l <= k)
  }

  /** No node reached in these pipelines runs e. */
  ghost predicate Silent(env: Env, program: Program, entered: seq<nat>, e: Uid)
    requires Runnable(program)
  {
    forall j: nat, l: nat :: !RunsAt(env, program, entered, j, l, e)
  }

  /** The last node of pipeline p from k on that is reached and runs e; -1 stands for none. */
  ghost predicate LastInRow(env: Env, program: Program, p: nat, k: nat, last: int, e: Uid)
    requires Runnable(program) && p < |program.rows|
  {
    && (last == -1 || (k <= last && RunsInRow(env, program, p, last, e)))
    && forall l: nat :: l >= k && RunsInRow(env, program, p, l, e) ==> l <= last
  }

  /** What one stage of the run did to effect e: it left it alone, or gave it the details of this reply. */
  ghost predicate Untouched(before: DetectedData, after: DetectedData, e: Uid) {
    (e in after <==> e in before) && (e in after ==> after[e] == before[e])
  }

  ghost predicate Given(after: DetectedData, reply: Reply, e: Uid) {
    reply.Answer? && e in after && after[e] == reply.outcome.list
  }

  /** Behind node k - 1 the current outcome is the reply that decided that node. */
  ghost predicate Carries(env: Env, program: Program, p: nat, k: nat, c: Context)
    requires Runnable(program) && p < |program.rows| && k <= |program.rows[p].ids|
  {
    k > 0 ==> Decision(env, program, p, k - 1) == Answer(c.current)
  }

  /** Once the head has run, the current outcome is the reply that decides the node. */
  lemma HeadDecides(env: Env, program: Program, p: nat, k: nat, c: Context)
    requires Runnable(program) && EffectsFollow(env.plugins, program)
    requires p < |program.rows| && k < |program.rows[p].ids| && Carries(env, program, p, k, c)
    ensures var head := NodeAt(program, p, k).plugins[0];
            var asked := Ask(env, head, c);
            asked.Known? ==>
              && Decision(env, program, p, k) == Answer(asked.context.current)
              && asked.context.detected
                 == if IsEffect(env.plugins, head) then c.detected[head := asked.context.current.list] else c.detected
  {
  }

  /** What the attached plugins of a detected node do to e. */
  lemma AttachOne(env: Env, node: Node, c: Context, e: Uid)
    requires AttachesEffects(env.plugins, node) && c.current.detect
    ensures var part := EvalAttached(env, node, 1, c);
            && part.Part? && part.pass && part.context.current == c.current
            && if e in node.plugins[1..] then Given(part.context.detected, Answer(c.current), e)
               else Untouched(c.detected, part.context.detected, e)
  {
    AttachAll(env, node, 1, c);
  }

  lemma NodeEffects(env: Env, program: Program, p: nat, k: nat, c: Context, e: Uid)
    requires Runnable(program) && EffectsFollow(env.plugins, program)
    requires p < |program.rows| && k < |program.rows[p].ids| && Carries(env, program, p, k, c)
    requires EvalNode(env, NodeAt(program, p, k), c).Part?
    ensures var node := NodeAt(program, p, k);
            var part := EvalNode(env, node, c);
            && part.pass == (!node.cut || Detected(env, program, p, k)) && Carries(env, program, p, k + 1, part.context)
            && if Runs(env, program, p, k, e) then Given(part.context.detected, Decision(env, program, p, k), e)
               else Untouched(c.detected, part.context.detected, e)
  {
    hide EffectsFollow;
    var node := NodeAt(program, p, k);
    HeadDecides(env, program, p, k, c);
    NodeAttaches(env, program, p, k);
    hide Decision, AttachesEffects, EvalAttached;
    var c' := Ask(env, node.plugins[0], c).context;
    if c'.current.detect {
      AttachOne(env, node, c', e);
    }
  }

  lemma NodeAttaches(env: Env, program: Program, p: nat, k: nat)
    requires Runnable(program) && EffectsFollow(env.plugins, program)
    requires p < |program.rows| && k < |program.rows[p].ids|
    ensures AttachesEffects(env.plugins, NodeAt(program, p, k))
  {
    assert RowWithin(program, program.rows[p]);
  }

  /** The last node of the pipeline that runs e gives it the details of the detector that decides it. */
  lemma {:induction false} RowEffects(env: Env, program: Program, p: nat, k: nat, c: Context, e: Uid)
    returns (last: int)
    requires Runnable(program) && EffectsFollow(env.plugins, program)
    requires p < |program.rows| && k <= |program.rows[p].ids| && Reached(env, program, p, k)
    requires EvalRow(env, program, p, k, c).Part? && Carries(env, program, p, k, c)
    ensures LastInRow(env, program, p, k, last, e)
    ensures var after := EvalRow(env, program, p, k, c).context.detected;
            if last == -1 then Untouched(c.detected, after, e)
            else Given(after, Decision(env, program, p, last), e)
    decreases |program.rows[p].ids| - k
  {
    hide Runs, EvalNode, EffectsFollow, Carries, Detected, Decision;
    last := -1;
    if k < |program.rows[p].ids| {
      var node := NodeAt(program, p, k);
      NodeEffects(env, program, p, k, c, e);
      var part := EvalNode(env, node, c);
      if part.pass {
        last := RowEffects(env, program, p, k + 1, part.context, e);
      } else {
        assert forall l :: k < l <= |program.rows[p].ids| ==> !Reached(env, program, p, l);
      }
      if last == -1 && Runs(env, program, p, k, e) {
        last := k;
      }
      assert forall l: nat :: l >= k && RunsInRow(env, program, p, l, e) ==> l <= last;
    }
  }

  /** Entering one more pipeline in front shifts the places at which e is run. */
  lemma RunsBehind(env: Env, program: Program, p: nat, rest: seq<nat>, i: nat, k: nat, e: Uid)
    requires Runnable(program) && p < |program.rows|
    ensures RunsAt(env, program, [p] + rest, i, k, e)
            <==> if i == 0 then RunsInRow(env, program, p, k, e) else RunsAt(env, program, rest, i - 1, k, e)
  {
    var all := [p] + rest;
    assert 0 < i < |all| ==> all[i] == rest[i - 1];
  }

  lemma RunsLater(env: Env, program: Program, p: nat, rest: seq<nat>, i: nat, k: nat, e: Uid)
    requires Runnable(program) && p < |program.rows| && RunsLast(env, program, rest, i, k, e)
    ensures i < |rest| && RunsLast(env, program, [p] + rest, i + 1, k, e)
  {
    hide RunsInRow;
    RunsBehind(env, program, p, rest, i + 1, k, e);
    forall j: nat, l: nat | RunsAt(env, program, [p] + rest, j, l, e) ensures j < i + 1 || (j == i + 1 && l <= k) {
      RunsBehind(env, program, p, rest, j, l, e);
    }
  }

  /** When e is not run later, it is run last in pipeline p or nowhere. */
  lemma RunsHere(env: Env, program: Program, p: nat, rest: seq<nat>, last: int, e: Uid)
    requires Runnable(program) && p < |program.rows|
    requires Silent(env, program, rest, e) && LastInRow(env, program, p, 0, last, e)
    ensures if last >= 0 then RunsLast(env, program, [p] + rest, 0, last, e)
            else Silent(env, program, [p] + rest, e)
  {
    hide RunsAt, RunsInRow;
    if last >= 0 { RunsBehind(env, program, p, rest, 0, last, e); }
    forall j: nat, l: nat ensures RunsAt(env, program, [p] + rest, j, l, e) ==> j == 0 && l <= last {
      RunsBehind(env, program, p, rest, j, l, e);
    }
  }

  lemma NothingEntered(env: Env, program: Program, e: Uid)
    requires Runnable(program)
    ensures Silent(env, program, [], e)
  {
  }

  lemma RowPlace(env: Env, program: Program, p: nat, last: int, e: Uid)
    requires Runnable(program) && p < |program.rows| && LastInRow(env, program, p, 0, last, e)
    ensures last == -1 || 0 <= last < |program.rows[p].ids|
  {
  }

  lemma StartReached(env: Env, program: Program, p: nat, c: Context)
    requires Runnable(program) && p < |program.rows|
    ensures Reached(env, program, p, 0) && Carries(env, program, p, 0, c)
  {
  }

  /** Effect e has been run last at node k of the i-th pipeline entered, with the details that decide there. */
  ghost predicate GivenAt(env: Env, program: Program, entered: seq<nat>, i: nat, k: nat, after: DetectedData, e: Uid)
    requires Runnable(program)
  {
    RunsLast(env, program, entered, i, k, e) && Given(after, Decision(env, program, entered[i], k), e)
  }

  /** What the pipelines from p on do to e. */
  lemma {:induction false} RunEffects(env: Env, program: Program, p: nat, c: Context, e: Uid)
    returns (given: bool, i: nat, k: nat)
    requires Runnable(program) && EffectsFollow(env.plugins, program) && p < |program.rows|
    requires EvalRows(env, program, p, c).Decided?
    ensures var v, after := Visits(env, program, p, c), EvalRows(env, program, p, c).detected;
            if given then GivenAt(env, program, v, i, k, after, e)
            else Untouched(c.detected, after, e) && Silent(env, program, v, e)
    decreases |program.rows| - p
  {
    hide Runs, EvalRow, RunsInRow, Reached, RunsLast, LastInRow, Silent, EffectsFollow, Carries, Decision;
    var part, v := EvalRow(env, program, p, 0, c), Visits(env, program, p, c);
    assert part.Part?;
    StartReached(env, program, p, c);
    var last := RowEffects(env, program, p, 0, c, e);
    var q := NextRow(program.rows, p, part.pass);
    var rest := VisitsAfter(env, program, p, part);
    assert v == [p] + rest;
    given, i, k := false, 0, 0;
    if q < |program.rows| {
      given, i, k := RunEffects(env, program, q, part.context, e);
    } else {
      NothingEntered(env, program, e);
    }
    if given {
      RunsLater(env, program, p, rest, i, k, e);
      i := i + 1;
      assert v[i] == rest[i - 1];
    } else {
      RunsHere(env, program, p, rest, last, e);
      if last != -1 {
        RowPlace(env, program, p, last, e);
        given, i, k := true, 0, last;
      }
    }
  }

  /** Effect attachment: after a completed run an effect is attached iff it is run by a node reached in a pipeline
      the run enters, and its details are those of the detector that decides the last such node. */
  lemma EffectsAttached(env: Env, program: Program, e: Uid)
    requires Runnable(program) && EffectsFollow(env.plugins, program)
    requires Resume(env, program, FRESH, BLANK).Decided?
    ensures var v, detected := Visited(env, program), Resume(env, program, FRESH, BLANK).detected;
            && (e in detected <==> exists i: nat, k: nat :: RunsAt(env, program, v, i, k, e))
            && (e in detected ==> exists i: nat, k: nat :: GivenAt(env, program, v, i, k, detected, e))
  {
    hide Resume, Entered, Visits, Visited, RunsInRow, Decision;
    RunIsRecursion(env, program);
    VisitedMeans(env, program);
    var given, i, k := RunEffects(env, program, 0, BLANK, e);
  }

  /** An effect that only one detector's node has carries exactly that detector's details, however many pipelines
      share the node. */
  lemma OwnDetails(env: Env, program: Program, n: nat, e: Uid)
    requires Runnable(program) && EffectsFollow(env.plugins, program)
    requires Resume(env, program, FRESH, BLANK).Decided?
    requires n < |program.nodes| && !IsEffect(env.plugins, program.nodes[n].plugins[0])
    requires forall m :: 0 <= m < |program.nodes| && m != n ==> e !in program.nodes[m].plugins
    ensures var detected := Resume(env, program, FRESH, BLANK).detected;
            e in detected ==> Given(detected, env.reply(program.nodes[n].plugins[0]), e)
  {
    hide Resume, Entered, Visits, Visited;
    EffectsAttached(env, program, e);
    var v, detected := Visited(env, program), Resume(env, program, FRESH, BLANK).detected;
    if e in detected {
      var i: nat, k: nat :| GivenAt(env, program, v, i, k, detected, e);
      assert RowWithin(program, program.rows[v[i]]);
      assert NodeAt(program, v[i], k) == program.nodes[program.rows[v[i]].ids[k]];
    }
  }
}
