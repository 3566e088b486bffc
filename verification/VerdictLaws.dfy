/** The verdict of a run in closed form, and exactly when it is the left-to-right value. For each pipeline one can
    tell from the program alone which detectors have to fire for it to hold. */
module VerdictLaws {
  import opened Types
  import opened Expression
  import opened Walk
  import opened WalkLaws

  // ---------- what a pipeline needs ----------

  /** What has to be the case for something to hold: never mind what, or all of these detectors fire. */
  datatype Need = Never | All(uids: set<Uid>)

  const FREE := All({})

  predicate Holds(need: Need, val: Valuation) {
    need.All? && forall uid :: uid in need.uids ==> val(uid)
  }

  function Both(a: Need, b: Need): (r: Need)
    ensures forall val: Valuation :: Holds(r, val) == (Holds(a, val) && Holds(b, val))
  {
    if a.All? && b.All? then All(a.uids + b.uids) else Never
  }

  /** The detectors attached to the node from plugin j on. */
  function AttachedDetectors(plugins: PluginTable, node: Node, j: nat): set<Uid>
    requires j <= |node.plugins|
  {
    set uid | uid in node.plugins[j..] && !IsEffect(plugins, uid)
  }

  /** The latest flag after the plugins from j on have run: that of the last detector among them. */
  function LatestFlag(plugins: PluginTable, node: Node, j: nat, flag: Need): Need
    requires j <= |node.plugins|
    decreases |node.plugins| - j
  {
    if j == |node.plugins| then flag
    else LatestFlag(plugins, node, j + 1, if IsEffect(plugins, node.plugins[j]) then flag else All({node.plugins[j]}))
  }

  /** The latest flag once the head has run; an effect leaves it as it was. */
  function HeadFlag(plugins: PluginTable, node: Node, flag: Need): Need
    requires node.plugins != []
  {
    if IsEffect(plugins, node.plugins[0]) then flag else All({node.plugins[0]})
  }

  /** What a node needs in order to pass, given the latest flag. */
  function NodeNeed(plugins: PluginTable, node: Node, flag: Need): Need
    requires node.plugins != []
  {
    if node.cut then Both(HeadFlag(plugins, node, flag), All(AttachedDetectors(plugins, node, 1))) else FREE
  }

  /** The latest flag behind a node that has passed. */
  function FlagBehind(plugins: PluginTable, node: Node, flag: Need): Need
    requires node.plugins != []
  {
    if node.cut then FREE else Both(HeadFlag(plugins, node, flag), LatestFlag(plugins, node, 1, FREE))
  }

  /** What pipeline p needs from node k on. */
  function RowNeed(plugins: PluginTable, program: Program, p: nat, k: nat, flag: Need): Need
    requires Runnable(program) && p < |program.rows| && k <= |program.rows[p].ids|
    decreases |program.rows[p].ids| - k
  {
    if k == |program.rows[p].ids| then FREE
    else
      var node := NodeAt(program, p, k);
      Both(NodeNeed(plugins, node, flag), RowNeed(plugins, program, p, k + 1, FlagBehind(plugins, node, flag)))
  }

  /** What pipeline p needs when it is entered with the latest flag up or down. */
  function EntryNeed(plugins: PluginTable, program: Program, p: nat, up: bool): Need
    requires Runnable(program) && p < |program.rows|
  {
    RowNeed(plugins, program, p, 0, if up then FREE else Never)
  }

  /** What pipeline p needs: the first is entered with the flag up, the others behind a failure. */
  function Needed(plugins: PluginTable, program: Program, p: nat): Need
    requires Runnable(program) && p < |program.rows|
  {
    EntryNeed(plugins, program, p, p == 0)
  }

  /** The pipeline does not depend on the flag it is entered with; so it is when a detector comes first. */
  predicate Steady(plugins: PluginTable, program: Program, p: nat)
    requires Runnable(program) && p < |program.rows|
  {
    EntryNeed(plugins, program, p, true) == EntryNeed(plugins, program, p, false)
  }

  lemma DetectorFirst(plugins: PluginTable, program: Program, p: nat)
    requires Runnable(program) && p < |program.rows| && !IsEffect(plugins, NodeAt(program, p, 0).plugins[0])
    ensures Steady(plugins, program, p)
  {
    var node := NodeAt(program, p, 0);
    assert NodeNeed(plugins, node, FREE) == NodeNeed(plugins, node, Never);
    assert FlagBehind(plugins, node, FREE) == FlagBehind(plugins, node, Never);
  }

  // ---------- a pipeline does what it needs ----------

  /** The latest flag of a run is up exactly when the need holds. */
  ghost predicate FlagIs(env: Env, c: Context, flag: Need) {
    c.current.detect == Holds(flag, Flags(env))
  }

  lemma {:induction false} CutAttached(env: Env, node: Node, j: nat, c: Context)
    requires 1 <= j <= |node.plugins| && node.cut && c.current.detect && EvalAttached(env, node, j, c).Part?
    ensures var part := EvalAttached(env, node, j, c);
            && part.pass == Holds(All(AttachedDetectors(env.plugins, node, j)), Flags(env))
            && part.context.current.detect == part.pass
    decreases |node.plugins| - j
  {
    if j < |node.plugins| {
      var uid := node.plugins[j];
      var c' := Ask(env, uid, c).context;
      assert node.plugins[j..] == [uid] + node.plugins[j + 1..];
      if c'.current.detect {
        CutAttached(env, node, j + 1, c');
      }
      assert IsEffect(env.plugins, uid) || c'.current.detect == Flags(env)(uid);
      assert AttachedDetectors(env.plugins, node, j)
          == AttachedDetectors(env.plugins, node, j + 1) + if IsEffect(env.plugins, uid) then {} else {uid};
    }
  }

  lemma {:induction false} UncutAttached(env: Env, node: Node, j: nat, c: Context, flag: Need)
    requires 1 <= j <= |node.plugins| && !node.cut && FlagIs(env, c, flag) && EvalAttached(env, node, j, c).Part?
    ensures var part := EvalAttached(env, node, j, c);
            part.pass && FlagIs(env, part.context, LatestFlag(env.plugins, node, j, flag))
    decreases |node.plugins| - j
  {
    if j < |node.plugins| {
      var uid := node.plugins[j];
      UncutAttached(env, node, j + 1, Ask(env, uid, c).context,
                    if IsEffect(env.plugins, uid) then flag else All({uid}));
    }
  }

  lemma NodeDecides(env: Env, node: Node, c: Context, flag: Need)
    requires node.plugins != [] && FlagIs(env, c, flag) && EvalNode(env, node, c).Part?
    ensures var part := EvalNode(env, node, c);
            && part.pass == Holds(NodeNeed(env.plugins, node, flag), Flags(env))
            && (part.pass ==> FlagIs(env, part.context, FlagBehind(env.plugins, node, flag)))
            && (!part.pass ==> !part.context.current.detect)
  {
    var c' := Ask(env, node.plugins[0], c).context;
    assert FlagIs(env, c', HeadFlag(env.plugins, node, flag));
    if c'.current.detect {
      if node.cut {
        CutAttached(env, node, 1, c');
      } else {
        UncutAttached(env, node, 1, c', FREE);
      }
    }
  }

  /** A pipeline passes exactly when what it needs fires, and fails with the flag down. */
  lemma {:induction false} RowDecides(env: Env, program: Program, p: nat, k: nat, c: Context, flag: Need)
    requires Runnable(program) && p < |program.rows| && k <= |program.rows[p].ids|
    requires FlagIs(env, c, flag) && EvalRow(env, program, p, k, c).Part?
    ensures var part := EvalRow(env, program, p, k, c);
            && part.pass == Holds(RowNeed(env.plugins, program, p, k, flag), Flags(env))
            && (!part.pass ==> !part.context.current.detect)
    decreases |program.rows[p].ids| - k
  {
    hide EvalNode, NodeNeed, FlagBehind, Holds, FlagIs;
    if k == |program.rows[p].ids| {
      FreeHolds(Flags(env));
    } else {
      var node := NodeAt(program, p, k);
      NodeDecides(env, node, c, flag);
      var part := EvalNode(env, node, c);
      if part.pass {
        RowDecides(env, program, p, k + 1, part.context, FlagBehind(env.plugins, node, flag));
      }
    }
  }

  lemma FreeHolds(val: Valuation)
    ensures Holds(FREE, val) && !Holds(Never, val)
  {
  }

  /** The same for a whole pipeline, by the flag it is entered with. */
  lemma PipelineDecides(env: Env, program: Program, p: nat, c: Context)
    requires Runnable(program) && p < |program.rows| && EvalRow(env, program, p, 0, c).Part?
    ensures var part := EvalRow(env, program, p, 0, c);
            && part.pass == Holds(EntryNeed(env.plugins, program, p, c.current.detect), Flags(env))
            && (!part.pass ==> !part.context.current.detect)
  {
    FreeHolds(Flags(env));
    RowDecides(env, program, p, 0, c, if c.current.detect then FREE else Never);
  }

  // ---------- the verdict in closed form ----------

  /** The last essential pipeline, or the first pipeline if there is none. */
  function LastEssential(rows: seq<Row>): (e: nat)
    requires rows != []
    ensures e < |rows| && (e > 0 ==> rows[e].essential)
    ensures forall r :: e < r < |rows| ==> !rows[r].essential
  {
    if |rows| == 1 || rows[|rows| - 1].essential then |rows| - 1 else LastEssential(rows[..|rows| - 1])
  }

  /** The last essential pipeline, unless it is the first, does not depend on the flag it is entered with. */
  predicate LastSteady(plugins: PluginTable, program: Program)
    requires Runnable(program)
  {
    var e := LastEssential(program.rows);
    e == 0 || Steady(plugins, program, e)
  }

  /** Pipeline r comes to hold, r being the last essential one or behind it. */
  ghost predicate HoldsFrom(plugins: PluginTable, program: Program, from: nat, val: Valuation)
    requires Runnable(program)
  {
    exists r :: from <= r < |program.rows| && Holds(Needed(plugins, program, r), val)
  }

  /** The flag with which a run enters pipeline p, as far as it matters. */
  ghost predicate EntersWith(plugins: PluginTable, program: Program, p: nat, c: Context)
    requires Runnable(program) && p < |program.rows|
  {
    Steady(plugins, program, p) || c.current.detect == (p == 0)
  }

  lemma EntryDecides(env: Env, program: Program, p: nat, c: Context)
    requires Runnable(program) && p < |program.rows| && EvalRow(env, program, p, 0, c).Part?
    requires EntersWith(env.plugins, program, p, c)
    ensures var part := EvalRow(env, program, p, 0, c);
            && part.pass == Holds(Needed(env.plugins, program, p), Flags(env))
            && (!part.pass ==> !part.context.current.detect)
  {
    hide EvalRow, RowNeed, Holds;
    PipelineDecides(env, program, p, c);
    assert EntryNeed(env.plugins, program, p, c.current.detect) == EntryNeed(env.plugins, program, p, p == 0);
  }

  lemma {:induction false} RunDecides(env: Env, program: Program, p: nat, c: Context)
    requires Runnable(program) && LastSteady(env.plugins, program)
    requires p < |program.rows| && EvalRows(env, program, p, c).Decided?
    requires p >= LastEssential(program.rows) ==> EntersWith(env.plugins, program, p, c)
    ensures var e := LastEssential(program.rows);
            EvalRows(env, program, p, c).included
            <==> HoldsFrom(env.plugins, program, if p <= e then e else p, Flags(env))
    decreases |program.rows| - p
  {
    hide EvalRow, Needed, Holds, Steady, LastEssential;
    var e, part, rows := LastEssential(program.rows), EvalRow(env, program, p, 0, c), program.rows;
    var q := NextRow(rows, p, part.pass);
    if p < e {
      NextFollows(rows, p, part.pass);
      assert q <= e;
      RunDecides(env, program, q, part.context);
    } else {
      EntryDecides(env, program, p, c);
      if part.pass {
        NextFollows(rows, p, true);
        assert q == |rows|;
      } else if q < |rows| {
        RunDecides(env, program, q, part.context);
      }
    }
  }

  /** The verdict: some pipeline from the last essential one on has what it needs. */
  lemma VerdictClosed(env: Env, program: Program)
    requires Runnable(program) && LastSteady(env.plugins, program)
    requires EvalRows(env, program, 0, BLANK).Decided?
    ensures EvalRows(env, program, 0, BLANK).included
            <==> HoldsFrom(env.plugins, program, LastEssential(program.rows), Flags(env))
  {
    hide EvalRow, EvalRows, EntryNeed;
    RunDecides(env, program, 0, BLANK);
  }

  // ---------- verdict and left-to-right value ----------

  /** The detectors that pipeline p names: what has to fire for its operands to be true. */
  function Named(plugins: PluginTable, program: Program, p: nat): set<Uid>
    requires Runnable(program) && p < |program.rows|
  {
    set k | 0 <= k < |program.rows[p].ids| && NodeAt(program, p, k).cut
            && !IsEffect(plugins, NodeAt(program, p, k).plugins[0]) :: NodeAt(program, p, k).plugins[0]
  }

  lemma NamedTrue(env: Env, program: Program, p: nat)
    requires Runnable(program) && p < |program.rows|
    ensures RowTrue(program, p, Flags(env)) <==> Holds(All(Named(env.plugins, program, p)), Flags(env))
  {
    var ids, named := program.rows[p].ids, Named(env.plugins, program, p);
    assert RowWithin(program, program.rows[p]);
    assert forall k :: 0 <= k < |ids| ==> NodeAt(program, p, k) == program.nodes[ids[k]] && ids[k] in ids;
    if RowTrue(program, p, Flags(env)) {
      forall uid | uid in named ensures Flags(env)(uid) {
        var k :| 0 <= k < |ids| && NodeAt(program, p, k).cut && NodeAt(program, p, k).plugins[0] == uid
                 && !IsEffect(env.plugins, uid);
        assert Value(program.nodes[ids[k]], Flags(env));
      }
    }
    if Holds(All(named), Flags(env)) {
      forall n | n in ids ensures Value(program.nodes[n], Flags(env)) {
        var k :| 0 <= k < |ids| && ids[k] == n;
        var node := NodeAt(program, p, k);
        if node.cut && !IsEffect(env.plugins, node.plugins[0]) {
          assert node.plugins[0] in named;
        }
      }
    }
  }

  /** A pipeline needs all it names. */
  lemma {:induction false} NeedsNamed(plugins: PluginTable, program: Program, p: nat, k: nat, flag: Need, j: nat)
    requires Runnable(program) && p < |program.rows| && k <= j < |program.rows[p].ids|
    requires NodeAt(program, p, j).cut && !IsEffect(plugins, NodeAt(program, p, j).plugins[0])
    ensures var need := RowNeed(plugins, program, p, k, flag);
            need.All? ==> NodeAt(program, p, j).plugins[0] in need.uids
    decreases j - k
  {
    hide FlagBehind;
    if k < j {
      NeedsNamed(plugins, program, p, k + 1, FlagBehind(plugins, NodeAt(program, p, k), flag), j);
    }
  }

  lemma NeededNamed(plugins: PluginTable, program: Program, p: nat)
    requires Runnable(program) && p < |program.rows|
    ensures var need := Needed(plugins, program, p); need.All? ==> Named(plugins, program, p) <= need.uids
  {
    hide RowNeed;
    var need := Needed(plugins, program, p);
    if need.All? {
      forall uid | uid in Named(plugins, program, p) ensures uid in need.uids {
        var k :| 0 <= k < |program.rows[p].ids| && NodeAt(program, p, k).cut && NodeAt(program, p, k).plugins[0] == uid
                 && !IsEffect(plugins, uid);
        NeedsNamed(plugins, program, p, 0, if p == 0 then FREE else Never, k);
      }
    }
  }

  /** Pipeline r needs no more than pipeline p names. */
  predicate Covers(plugins: PluginTable, program: Program, p: nat, r: nat)
    requires Runnable(program) && p < |program.rows| && r < |program.rows|
  {
    Needed(plugins, program, r).All? && Needed(plugins, program, r).uids <= Named(plugins, program, p)
  }

  /** Some pipeline from the last essential one on needs no more than pipeline p names. */
  predicate IsCovered(plugins: PluginTable, program: Program, p: nat)
    requires Runnable(program) && p < |program.rows|
  {
    exists r :: LastEssential(program.rows) <= r < |program.rows| && Covers(plugins, program, p, r)
  }

  /** Whatever pipeline makes the value true, one from the last essential one on makes the verdict true. */
  predicate AllCovered(plugins: PluginTable, program: Program)
    requires Runnable(program)
  {
    forall p :: 0 <= p < |program.rows| ==> IsCovered(plugins, program, p)
  }

  /** The verdict is never true of a frame of which the value is false. */
  lemma VerdictIsTrue(env: Env, program: Program)
    requires Runnable(program) && LastSteady(env.plugins, program)
    requires EvalRows(env, program, 0, BLANK).Decided? && EvalRows(env, program, 0, BLANK).included
    ensures SomeRowTrue(program, Flags(env))
  {
    hide EvalRows, LastSteady, Needed, Named, RowTrue;
    VerdictClosed(env, program);
    var r :| LastEssential(program.rows) <= r < |program.rows| && Holds(Needed(env.plugins, program, r), Flags(env));
    NeededNamed(env.plugins, program, r);
    NamedTrue(env, program, r);
  }

  /** When all pipelines are covered, a completed run includes the frame exactly when some pipeline is true. */
  lemma VerdictIsOr(env: Env, program: Program)
    requires Runnable(program) && LastSteady(env.plugins, program) && AllCovered(env.plugins, program)
    requires EvalRows(env, program, 0, BLANK).Decided?
    ensures EvalRows(env, program, 0, BLANK).included <==> SomeRowTrue(program, Flags(env))
  {
    hide EvalRows, LastSteady, Needed, Named, RowTrue;
    if EvalRows(env, program, 0, BLANK).included {
      VerdictIsTrue(env, program);
    }
    if SomeRowTrue(program, Flags(env)) {
      var p :| 0 <= p < |program.rows| && RowTrue(program, p, Flags(env));
      assert IsCovered(env.plugins, program, p);
      var r :| LastEssential(program.rows) <= r < |program.rows| && Covers(env.plugins, program, p, r);
      NamedTrue(env, program, p);
      VerdictClosed(env, program);
    }
  }

  /** The frame on which exactly these detectors fire. */
  function Only(fired: set<Uid>): Uid -> Reply {
    (uid: Uid) => Answer(Outcome(uid in fired, []))
  }

  /** On this frame a run that reaches the end agrees with the OR of the pipelines. */
  ghost predicate AgreesWithOr(plugins: PluginTable, program: Program, reply: Uid -> Reply)
    requires Runnable(program)
  {
    var env := Env(plugins, reply);
    EvalRows(env, program, 0, BLANK).Decided? ==>
      (EvalRows(env, program, 0, BLANK).included <==> SomeRowTrue(program, Flags(env)))
  }

  /** Only what pipeline p names decides whether it is covered. */
  lemma CoveredByOnly(plugins: PluginTable, program: Program, p: nat)
    requires Runnable(program) && LastSteady(plugins, program) && p < |program.rows|
    requires AgreesWithOr(plugins, program, Only(Named(plugins, program, p)))
    ensures IsCovered(plugins, program, p)
  {
    hide EvalRows, LastSteady, Named, RowTrue, EntryNeed;
    var named := Named(plugins, program, p);
    var env := Env(plugins, Only(named));
    AnsweredRun(env, program, 0, BLANK);
    NamedTrue(env, program, p);
    assert RowTrue(program, p, Flags(env));
    VerdictClosed(env, program);
    var r :| LastEssential(program.rows) <= r < |program.rows| && Holds(Needed(plugins, program, r), Flags(env));
    NeedsDetectors(plugins, program, r);
    assert Covers(plugins, program, p, r);
  }

  /** No pipeline needs an effect. */
  lemma NeedsDetectors(plugins: PluginTable, program: Program, p: nat)
    requires Runnable(program) && p < |program.rows|
    ensures Plain(plugins, Needed(plugins, program, p))
  {
    RowPlain(plugins, program, p, 0, if p == 0 then FREE else Never);
  }

  ghost predicate Plain(plugins: PluginTable, need: Need) {
    need.All? ==> forall uid :: uid in need.uids ==> !IsEffect(plugins, uid)
  }

  lemma {:induction false} LatestPlain(plugins: PluginTable, node: Node, j: nat, flag: Need)
    requires j <= |node.plugins| && Plain(plugins, flag)
    ensures Plain(plugins, LatestFlag(plugins, node, j, flag))
    decreases |node.plugins| - j
  {
    if j < |node.plugins| {
      LatestPlain(plugins, node, j + 1, if IsEffect(plugins, node.plugins[j]) then flag else All({node.plugins[j]}));
    }
  }

  lemma {:induction false} RowPlain(plugins: PluginTable, program: Program, p: nat, k: nat, flag: Need)
    requires Runnable(program) && p < |program.rows| && k <= |program.rows[p].ids| && Plain(plugins, flag)
    ensures Plain(plugins, RowNeed(plugins, program, p, k, flag))
    decreases |program.rows[p].ids| - k
  {
    if k < |program.rows[p].ids| {
      var node := NodeAt(program, p, k);
      LatestPlain(plugins, node, 1, FREE);
      RowPlain(plugins, program, p, k + 1, FlagBehind(plugins, node, flag));
    }
  }

  /** Covering is exact where the last essential pipeline is steady. */
  lemma CoveredIff(plugins: PluginTable, program: Program)
    requires Runnable(program) && LastSteady(plugins, program)
    ensures AllCovered(plugins, program) <==> forall reply: Uid -> Reply :: AgreesWithOr(plugins, program, reply)
  {
    hide EvalRows, LastSteady, Covers;
    if AllCovered(plugins, program) {
      forall reply: Uid -> Reply ensures AgreesWithOr(plugins, program, reply) {
        if EvalRows(Env(plugins, reply), program, 0, BLANK).Decided? {
          VerdictIsOr(Env(plugins, reply), program);
        }
      }
    }
    if forall reply: Uid -> Reply :: AgreesWithOr(plugins, program, reply) {
      forall p | 0 <= p < |program.rows| ensures IsCovered(plugins, program, p) {
        CoveredByOnly(plugins, program, p);
      }
    }
  }

  // ---------- finitely many frames decide ----------

  /** All plugins of the program. */
  function Plugins(program: Program): set<Uid> {
    set n, j | 0 <= n < |program.nodes| && 0 <= j < |program.nodes[n].plugins| :: program.nodes[n].plugins[j]
  }

  /** Of the given plugins, those that fire. */
  function Fired(env: Env, uids: set<Uid>): set<Uid> {
    set uid | uid in uids && env.reply(uid).Answer? && env.reply(uid).outcome.detect
  }

  /** The same frame, with only the flags of these plugins kept. */
  function Kept(env: Env, uids: set<Uid>): Env {
    Env(env.plugins, Only(Fired(env, uids)))
  }

  lemma AskKept(env: Env, uids: set<Uid>, uid: Uid, c: Context, d: Context)
    requires uid in uids && c.current.detect == d.current.detect && Ask(env, uid, c).Known?
    ensures var kept := Ask(Kept(env, uids), uid, d);
            kept.Known? && kept.context.current.detect == Ask(env, uid, c).context.current.detect
  {
  }

  lemma {:induction false} AttachedKept(env: Env, uids: set<Uid>, node: Node, j: nat, c: Context, d: Context)
    requires j <= |node.plugins| && (forall uid :: uid in node.plugins ==> uid in uids)
    requires c.current.detect == d.current.detect && EvalAttached(env, node, j, c).Part?
    ensures var part, kept := EvalAttached(env, node, j, c), EvalAttached(Kept(env, uids), node, j, d);
            kept.Part? && kept.pass == part.pass && kept.context.current.detect == part.context.current.detect
    decreases |node.plugins| - j
  {
    hide Kept;
    if j < |node.plugins| {
      var uid := node.plugins[j];
      AskKept(env, uids, uid, c, d);
      var c', d' := Ask(env, uid, c).context, Ask(Kept(env, uids), uid, d).context;
      if !node.cut || c'.current.detect {
        AttachedKept(env, uids, node, j + 1, c', d');
      }
    }
  }

  lemma {:induction false} RowKept(env: Env, uids: set<Uid>, program: Program, p: nat, k: nat, c: Context, d: Context)
    requires Runnable(program) && p < |program.rows| && k <= |program.rows[p].ids| && Plugins(program) <= uids
    requires c.current.detect == d.current.detect && EvalRow(env, program, p, k, c).Part?
    ensures var part, kept := EvalRow(env, program, p, k, c), EvalRow(Kept(env, uids), program, p, k, d);
            kept.Part? && kept.pass == part.pass && kept.context.current.detect == part.context.current.detect
    decreases |program.rows[p].ids| - k
  {
    hide Kept, Plugins;
    if k < |program.rows[p].ids| {
      var node := NodeAt(program, p, k);
      NodePlugins(program, p, k);
      AskKept(env, uids, node.plugins[0], c, d);
      var c', d' := Ask(env, node.plugins[0], c).context, Ask(Kept(env, uids), node.plugins[0], d).context;
      if c'.current.detect {
        AttachedKept(env, uids, node, 1, c', d');
      }
      var part, kept := EvalNode(env, node, c), EvalNode(Kept(env, uids), node, d);
      if part.pass {
        RowKept(env, uids, program, p, k + 1, part.context, kept.context);
      }
    }
  }

  lemma NodePlugins(program: Program, p: nat, k: nat)
    requires Runnable(program) && p < |program.rows| && k < |program.rows[p].ids|
    ensures forall uid :: uid in NodeAt(program, p, k).plugins ==> uid in Plugins(program)
  {
    assert RowWithin(program, program.rows[p]);
    var n := program.rows[p].ids[k];
    forall uid | uid in program.nodes[n].plugins ensures uid in Plugins(program) {
      var j :| 0 <= j < |program.nodes[n].plugins| && program.nodes[n].plugins[j] == uid;
    }
  }

  lemma {:induction false} RunKept(env: Env, uids: set<Uid>, program: Program, p: nat, c: Context, d: Context)
    requires Runnable(program) && p < |program.rows| && Plugins(program) <= uids
    requires c.current.detect == d.current.detect && EvalRows(env, program, p, c).Decided?
    ensures var result, kept := EvalRows(env, program, p, c), EvalRows(Kept(env, uids), program, p, d);
            kept.Decided? && kept.included == result.included
    decreases |program.rows| - p
  {
    hide Kept, Plugins, EvalRow;
    RowKept(env, uids, program, p, 0, c, d);
    var part, kept := EvalRow(env, program, p, 0, c), EvalRow(Kept(env, uids), program, p, 0, d);
    var q := NextRow(program.rows, p, part.pass);
    if q < |program.rows| {
      RunKept(env, uids, program, q, part.context, kept.context);
    }
  }

  lemma OrKept(env: Env, program: Program)
    requires Runnable(program)
    ensures SomeRowTrue(program, Flags(Kept(env, Plugins(program)))) <==> SomeRowTrue(program, Flags(env))
  {
    var val, val' := Flags(env), Flags(Kept(env, Plugins(program)));
    forall p | 0 <= p < |program.rows| ensures RowTrue(program, p, val') <==> RowTrue(program, p, val) {
      assert RowWithin(program, program.rows[p]);
      forall n | n in program.rows[p].ids ensures Value(program.nodes[n], val') == Value(program.nodes[n], val) {
        assert program.nodes[n].plugins[0] in Plugins(program);
      }
    }
  }

  /** For any program at all: the verdict of every frame is the OR of the pipelines iff it is on each of the
      finitely many frames on which some of the program's plugins fire and nothing else does. */
  lemma FinitelyMany(plugins: PluginTable, program: Program)
    requires Runnable(program)
    ensures (forall reply: Uid -> Reply :: AgreesWithOr(plugins, program, reply))
            <==> forall fired: set<Uid> :: fired <= Plugins(program) ==> AgreesWithOr(plugins, program, Only(fired))
  {
    if forall fired: set<Uid> :: fired <= Plugins(program) ==> AgreesWithOr(plugins, program, Only(fired)) {
      hide EvalRows, Plugins, SomeRowTrue;
      forall reply: Uid -> Reply ensures AgreesWithOr(plugins, program, reply) {
        var env := Env(plugins, reply);
        if EvalRows(env, program, 0, BLANK).Decided? {
          RunKept(env, Plugins(program), program, 0, BLANK, BLANK);
          OrKept(env, program);
          var fired := Fired(env, Plugins(program));
          assert fired <= Plugins(program) && AgreesWithOr(plugins, program, Only(fired));
        }
      }
    }
  }

  /** What makes the verdict the OR of the pipelines, told from the program alone: the pipelines are covered; or,
      where the last essential one depends on the flag it is entered with, a check of finitely many frames. */
  ghost predicate ReadsAsWritten(plugins: PluginTable, program: Program)
    requires Runnable(program)
  {
    if LastSteady(plugins, program) then AllCovered(plugins, program)
    else forall fired: set<Uid> :: fired <= Plugins(program) ==> AgreesWithOr(plugins, program, Only(fired))
  }

  /** Exactly when the verdict of every frame is the OR of the pipelines. */
  lemma VerdictIsOrIff(plugins: PluginTable, program: Program)
    requires Runnable(program)
    ensures ReadsAsWritten(plugins, program) <==> forall reply: Uid -> Reply :: AgreesWithOr(plugins, program, reply)
  {
    hide AgreesWithOr, AllCovered, LastSteady;
    if LastSteady(plugins, program) {
      CoveredIff(plugins, program);
    } else {
      FinitelyMany(plugins, program);
    }
  }

  // ---------- the pipelines entered, by what they need ----------

  /** No essential pipeline but the first depends on the flag it is entered with. */
  ghost predicate EssentialsSteady(plugins: PluginTable, program: Program)
    requires Runnable(program)
  {
    forall p :: 0 < p < |program.rows| && program.rows[p].essential ==> Steady(plugins, program, p)
  }

  /** Every pipeline entered is left as what it needs demands, and the last one leads to the end. */
  ghost predicate LedByVerdicts(plugins: PluginTable, program: Program, val: Valuation, v: seq<nat>)
    requires Runnable(program)
  {
    && (forall i :: 0 <= i < |v| ==> v[i] < |program.rows|)
    && (forall i :: 0 <= i < |v| ==>
                      Follows(program.rows, v[i], Holds(Needed(plugins, program, v[i]), val),
                              if i + 1 < |v| then v[i + 1] else |program.rows|))
  }

  lemma {:induction false} VisitsByVerdict(env: Env, program: Program, p: nat, c: Context)
    requires Runnable(program) && EssentialsSteady(env.plugins, program)
    requires p < |program.rows| && EvalRows(env, program, p, c).Decided? && EntersWith(env.plugins, program, p, c)
    ensures var v, val := Visits(env, program, p, c), Flags(env);
            && Ascending(v, |program.rows|) && LedByVerdicts(env.plugins, program, val, v)
            && (EvalRows(env, program, p, c).included <==> Holds(Needed(env.plugins, program, v[|v| - 1]), val))
    decreases |program.rows| - p
  {
    hide EvalRow, Needed, Holds, Steady;
    VisitsFrom(env, program, p, c);
    EntryDecides(env, program, p, c);
    var part, rows, val := EvalRow(env, program, p, 0, c), program.rows, Flags(env);
    assert part.Part?;
    var q, v := NextRow(rows, p, part.pass), Visits(env, program, p, c);
    NextFollows(rows, p, part.pass);
    assert v == [p] + VisitsAfter(env, program, p, part);
    assert Follows(rows, v[0], Holds(Needed(env.plugins, program, v[0]), val), q);
    if q < |rows| {
      VisitsByVerdict(env, program, q, part.context);
      var rest := Visits(env, program, q, part.context);
      assert v == [p] + rest;
      forall i | 0 <= i < |v|
        ensures Follows(rows, v[i], Holds(Needed(env.plugins, program, v[i]), val),
                        if i + 1 < |v| then v[i + 1] else |rows|)
      {
        if i > 0 {
          assert v[i] == rest[i - 1] && (i < |rest| ==> v[i + 1] == rest[i]);
        }
      }
    }
  }

  /** A completed run leaves a pipeline that lacks something it needs for the next one, and one that does not for
      the next essential one; it ends where there is none, with the verdict of the last pipeline entered. */
  lemma EnteredByVerdict(env: Env, program: Program)
    requires Runnable(program) && EssentialsSteady(env.plugins, program)
    requires Resume(env, program, FRESH, BLANK).Decided?
    ensures var v, val := Visited(env, program), Flags(env);
            && Ascending(v, |program.rows|) && LedByVerdicts(env.plugins, program, val, v)
            && (Resume(env, program, FRESH, BLANK).included <==> Holds(Needed(env.plugins, program, v[|v| - 1]), val))
  {
    hide Resume, Entered, Visits, Needed, Holds, LedByVerdicts;
    RunIsRecursion(env, program);
    VisitedMeans(env, program);
    VisitsByVerdict(env, program, 0, BLANK);
  }

  // ---------- at the boundary ----------

  /** A detector named twice does not overrule itself, as in A | A : effect. */
  lemma RepeatedDetector(plugins: PluginTable, a: Uid, effect: Uid)
    requires !IsEffect(plugins, a) && IsEffect(plugins, effect)
    ensures var program := Program([Node([a], true), Node([a, effect], true)], [Row([0], false), Row([1], true)]);
            Runnable(program) && LastSteady(plugins, program) && AllCovered(plugins, program)
  {
    var program := Program([Node([a], true), Node([a, effect], true)], [Row([0], false), Row([1], true)]);
    assert RowWithin(program, program.rows[0]) && RowWithin(program, program.rows[1]);
    assert LastEssential(program.rows) == 1;
    DetectorFirst(plugins, program, 1);
    NeededOf(plugins, program, 1, a);
    NamedFirst(plugins, program, 0);
    NamedFirst(plugins, program, 1);
    assert Covers(plugins, program, 0, 1) && Covers(plugins, program, 1, 1);
  }

  lemma NamedFirst(plugins: PluginTable, program: Program, p: nat)
    requires Runnable(program) && p < |program.rows| && NodeAt(program, p, 0).cut
    requires !IsEffect(plugins, NodeAt(program, p, 0).plugins[0])
    ensures NodeAt(program, p, 0).plugins[0] in Named(plugins, program, p)
  {
  }

  /** A pipeline of one cut detector with one effect needs that detector. */
  lemma NeededOf(plugins: PluginTable, program: Program, p: nat, a: Uid)
    requires Runnable(program) && p < |program.rows| && |program.rows[p].ids| == 1 && !IsEffect(plugins, a)
    requires var node := NodeAt(program, p, 0);
             node.cut && |node.plugins| == 2 && node.plugins[0] == a && IsEffect(plugins, node.plugins[1])
    ensures Needed(plugins, program, p) == All({a})
  {
    var node, flag := NodeAt(program, p, 0), if p == 0 then FREE else Never;
    assert AttachedDetectors(plugins, node, 1) == {};
    assert NodeNeed(plugins, node, flag) == All({a});
    assert RowNeed(plugins, program, p, 1, FlagBehind(plugins, node, flag)) == FREE;
  }

  /** An uncut detector does no harm as long as a detector stands between it and an effect joined by &, as in
      ~ A : effect & B & other. */
  lemma UncutBehindDetector(plugins: PluginTable, a: Uid, effect: Uid, b: Uid, other: Uid)
    requires !IsEffect(plugins, a) && IsEffect(plugins, effect) && !IsEffect(plugins, b) && IsEffect(plugins, other)
    ensures var nodes := [Node([a, effect], false), Node([b], true), Node([other], true)];
            var program := Program(nodes, [Row([0, 1, 2], false)]);
            Runnable(program) && LastSteady(plugins, program) && AllCovered(plugins, program)
  {
    var program := Program([Node([a, effect], false), Node([b], true), Node([other], true)], [Row([0, 1, 2], false)]);
    assert RowWithin(program, program.rows[0]);
    var first, second, third := NodeAt(program, 0, 0), NodeAt(program, 0, 1), NodeAt(program, 0, 2);
    var behind := FlagBehind(plugins, first, FREE);
    assert AttachedDetectors(plugins, second, 1) == {} && AttachedDetectors(plugins, third, 1) == {};
    assert NodeNeed(plugins, second, behind) == All({b}) && FlagBehind(plugins, second, behind) == FREE;
    assert NodeNeed(plugins, third, FREE) == FREE;
    assert RowNeed(plugins, program, 0, 3, FREE) == FREE;
    assert RowNeed(plugins, program, 0, 2, FREE) == FREE;
    assert RowNeed(plugins, program, 0, 1, behind) == All({b});
    assert Needed(plugins, program, 0) == All({b});
    assert b in Named(plugins, program, 0);
    assert Covers(plugins, program, 0, 0);
  }
}
