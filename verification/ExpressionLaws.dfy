/** From the words of an accepted expression to the behaviour of its program. */
module ExpressionLaws {
  import opened Types
  import opened Expression
  import opened Validator
  import opened Walk
  import opened WalkLaws
  import opened VerdictLaws
  import EffectLaws
  import CompilerLaws

  // ---------- what the plugins of the program are ----------

  lemma LoadedStep(plugins: PluginTable, b: Build, t: Token)
    requires b.Build? && b.program.rows != [] && LoadedProgram(plugins, b.program)
    requires t.Plugin? ==> t.uid in plugins
    ensures Feed(b, t).Build? ==> LoadedProgram(plugins, Feed(b, t).program)
  {
    var nodes := b.program.nodes;
    if t.Plugin? && b.link == ColonLink && nodes != [] {
      var owner := nodes[|nodes| - 1];
      assert LoadedNode(plugins, owner);
      assert LoadedNode(plugins, owner.(plugins := owner.plugins + [t.uid]));
    }
  }

  lemma {:induction false} LoadedPrefix(request: seq<Token>, plugins: PluginTable, n: nat)
    requires Accepts(request, plugins) && n <= |request|
    ensures Compiled(request[..n]).Build? ==> LoadedProgram(plugins, Compiled(request[..n]).program)
  {
    if n == 0 {
      assert request[..0] == [];
    } else {
      LoadedPrefix(request, plugins, n - 1);
      CompilerLaws.UnfoldCompiled(request, n - 1);
      assert Adjacent(request, plugins, n - 1);
      if Compiled(request[..n - 1]).Build? {
        LoadedStep(plugins, Compiled(request[..n - 1]), request[n - 1]);
      }
    }
  }

  /** All plugins of a compiled expression are loaded, so the driver finds each of them. */
  lemma ProgramLoaded(request: seq<Token>, plugins: PluginTable)
    requires Accepts(request, plugins) && Compiled(request).Build?
    ensures LoadedProgram(plugins, Compiled(request).program)
  {
    LoadedPrefix(request, plugins, |request|);
    assert request[..|request|] == request;
  }

  /** The plugin at i is attached to the operand before it; an uncut mark in between makes no difference. */
  predicate Attached(request: seq<Token>, i: nat)
    requires i < |request|
  {
    (i >= 1 && request[i - 1] == Colon) || (i >= 2 && request[i - 1] == Uncut && request[i - 2] == Colon)
  }

  /** The plugin at i is joined to the operands before it. */
  predicate Joined(request: seq<Token>, i: nat)
    requires i < |request|
  {
    (i >= 1 && request[i - 1] == And) || (i >= 2 && request[i - 1] == Uncut && request[i - 2] == And)
  }

  /** Effects are attached with `:` or joined with &, and nothing else is attached. */
  ghost predicate EffectsInPlace(request: seq<Token>, plugins: PluginTable) {
    forall i :: 0 <= i < |request| && request[i].Plugin? ==> InPlace(request, plugins, i)
  }

  ghost predicate InPlace(request: seq<Token>, plugins: PluginTable, i: nat)
    requires i < |request| && request[i].Plugin?
  {
    if IsEffect(plugins, request[i].uid) then Attached(request, i) || Joined(request, i) else !Attached(request, i)
  }

  /** What the link in front of a plugin says about it. */
  ghost predicate Placed(plugins: PluginTable, link: Link, uid: Uid) {
    if IsEffect(plugins, uid) then link == ColonLink || link == AndLink else link != ColonLink
  }

  ghost predicate RowLed(plugins: PluginTable, program: Program, row: Row)
    requires forall n :: 0 <= n < |program.nodes| ==> program.nodes[n].plugins != []
  {
    row.ids != [] ==> row.ids[0] < |program.nodes| && !IsEffect(plugins, program.nodes[row.ids[0]].plugins[0])
  }

  /** The program built so far has effects in place. */
  ghost predicate Built(plugins: PluginTable, program: Program) {
    && (forall n :: 0 <= n < |program.nodes| ==> EffectLaws.AttachesEffects(plugins, program.nodes[n]))
    && (forall p :: 0 <= p < |program.rows| ==> RowLed(plugins, program, program.rows[p]))
  }

  lemma NodesStep(plugins: PluginTable, b: Build, uid: Uid)
    requires b.Build? && b.program.rows != [] && Built(plugins, b.program) && Placed(plugins, b.link, uid)
    ensures var b' := AddPlugin(b.program, b.link, b.cut, uid);
            b'.Build? ==>
              forall n :: 0 <= n < |b'.program.nodes| ==> EffectLaws.AttachesEffects(plugins, b'.program.nodes[n])
  {
    var nodes := b.program.nodes;
    if b.link == ColonLink && nodes != [] {
      var owner := nodes[|nodes| - 1];
      assert EffectLaws.AttachesEffects(plugins, owner);
      assert EffectLaws.AttachesEffects(plugins, owner.(plugins := owner.plugins + [uid]));
    }
  }

  /** A row that starts with the same node is led as before, if the node has the same head. */
  lemma RowStaysLed(plugins: PluginTable, before: Program, after: Program, row: Row, row': Row)
    requires forall n :: 0 <= n < |before.nodes| ==> before.nodes[n].plugins != []
    requires forall n :: 0 <= n < |after.nodes| ==> after.nodes[n].plugins != []
    requires RowLed(plugins, before, row) && row.ids != [] && row'.ids != [] && row'.ids[0] == row.ids[0]
    requires |before.nodes| <= |after.nodes|
    requires forall n :: 0 <= n < |before.nodes| ==> after.nodes[n].plugins[0] == before.nodes[n].plugins[0]
    ensures RowLed(plugins, after, row')
  {
  }

  /** Every node keeps its head, and every node has one. */
  lemma HeadsStay(program: Program, link: Link, cut: bool, uid: Uid)
    requires program.rows != [] && AddPlugin(program, link, cut, uid).Build?
    requires forall n :: 0 <= n < |program.nodes| ==> program.nodes[n].plugins != []
    ensures var next := AddPlugin(program, link, cut, uid).program;
            && |program.nodes| <= |next.nodes|
            && (forall n :: 0 <= n < |next.nodes| ==> next.nodes[n].plugins != [])
            && (forall n :: 0 <= n < |program.nodes| ==> next.nodes[n].plugins[0] == program.nodes[n].plugins[0])
  {
  }

  /** Every row keeps its first node, and a new row has one node of its own. */
  lemma RowsStay(program: Program, link: Link, cut: bool, uid: Uid)
    requires program.rows != [] && program.nodes != [] && link != NoLink
    requires forall p :: 0 <= p < |program.rows| ==> program.rows[p].ids != []
    ensures var b := AddPlugin(program, link, cut, uid);
            && b.Build? && |program.rows| <= |b.program.rows| <= |program.rows| + 1
            && (forall p :: 0 <= p < |program.rows| ==>
                              b.program.rows[p].ids != [] && b.program.rows[p].ids[0] == program.rows[p].ids[0])
            && (|b.program.rows| > |program.rows| ==>
                  && link == OrLink && b.program.rows[|program.rows|].ids == [|program.nodes|]
                  && |b.program.nodes| == |program.nodes| + 1
                  && b.program.nodes[|program.nodes|].plugins == [uid])
  {
  }

  /** A row keeps its head, and a new row gets a detector. */
  lemma RowsStep(plugins: PluginTable, b: Build, blank: bool, uid: Uid)
    requires b.Build? && b.program.rows != [] && Built(plugins, b.program)
    requires Placed(plugins, b.link, uid) && (b.link == NoLink <==> blank)
    requires if blank then b.program == Program([], [Row([], false)]) else Runnable(b.program)
    ensures var b' := AddPlugin(b.program, b.link, b.cut, uid);
            && b'.Build?
            && (forall n :: 0 <= n < |b'.program.nodes| ==> b'.program.nodes[n].plugins != [])
            && forall p :: 0 <= p < |b'.program.rows| ==> RowLed(plugins, b'.program, b'.program.rows[p])
  {
    var program := b.program;
    if blank {
      CompilerLaws.FirstProgram(program, b.cut, uid);
    } else {
      assert RowWithin(program, program.rows[0]) && program.nodes != [];
      RowsStay(program, b.link, b.cut, uid);
      HeadsStay(program, b.link, b.cut, uid);
      hide AddPlugin, RowLed, Runnable;
      var next := AddPlugin(program, b.link, b.cut, uid).program;
      forall p | 0 <= p < |next.rows| ensures RowLed(plugins, next, next.rows[p]) {
        if p < |program.rows| {
          RowStaysLed(plugins, program, next, program.rows[p], next.rows[p]);
        } else {
          NewRowLed(plugins, next, next.rows[p], |program.nodes|, uid);
        }
      }
    }
  }

  lemma NewRowLed(plugins: PluginTable, program: Program, row: Row, id: nat, uid: Uid)
    requires forall n :: 0 <= n < |program.nodes| ==> program.nodes[n].plugins != []
    requires id < |program.nodes| && row.ids == [id] && program.nodes[id].plugins == [uid] && !IsEffect(plugins, uid)
    ensures RowLed(plugins, program, row)
  {
  }

  lemma LinkIsPlace(request: seq<Token>, plugins: PluginTable, i: nat, link: Link)
    requires Accepts(request, plugins) && i < |request| && CompilerLaws.LinkedAt(request, i, link)
    requires request[i].Plugin?
    ensures link == ColonLink <==> Attached(request, i)
    ensures link == AndLink <==> Joined(request, i)
  {
  }

  lemma {:induction false} BuiltPrefix(request: seq<Token>, plugins: PluginTable, n: nat)
    requires Accepts(request, plugins) && !CompilerLaws.StartsDetached(request) && n <= |request|
    requires EffectsInPlace(request, plugins)
    ensures var b := Compiled(request[..n]); b.Build? && Built(plugins, b.program)
  {
    hide Accepts, EffectsInPlace, Feed, Built, Staircase;
    CompilerLaws.ShapedPrefix(request, plugins, n);
    if n == 0 {
      assert request[..0] == [];
      BuiltNothing(plugins);
    } else {
      BuiltPrefix(request, plugins, n - 1);
      CompilerLaws.ShapedPrefix(request, plugins, n - 1);
      CompilerLaws.UnfoldCompiled(request, n - 1);
      BuiltToken(request, plugins, n - 1, Compiled(request[..n - 1]));
    }
  }

  lemma BuiltNothing(plugins: PluginTable)
    ensures Compiled([]).Build? && Built(plugins, Compiled([]).program)
  {
  }

  lemma BuiltToken(request: seq<Token>, plugins: PluginTable, i: nat, b: Build)
    requires Accepts(request, plugins) && !CompilerLaws.StartsDetached(request) && i < |request|
    requires EffectsInPlace(request, plugins)
    requires CompilerLaws.ShapedAt(request, i, b) && b.program.rows != [] && Built(plugins, b.program)
    ensures Feed(b, request[i]).Build? ==> Built(plugins, Feed(b, request[i]).program)
  {
    hide AddPlugin, Staircase, Accepts;
    if request[i].Plugin? {
      LinkIsPlace(request, plugins, i, b.link);
      assert InPlace(request, plugins, i);
      NodesStep(plugins, b, request[i].uid);
      CompilerLaws.Neighbours(request, plugins, i, b.link);
      ShapedRuns(request, i, b);
      RowsStep(plugins, b, CompilerLaws.Blank(request, i), request[i].uid);
    }
  }

  lemma ShapedRuns(request: seq<Token>, i: nat, b: Build)
    requires i <= |request| && CompilerLaws.ShapedAt(request, i, b)
    ensures if CompilerLaws.Blank(request, i) then b.program == Program([], [Row([], false)]) else Runnable(b.program)
  {
  }

  /** An expression with effects in place compiles to a program with effects in place, and no pipeline of it
      depends on the flag it is entered with. */
  lemma ProgramLed(request: seq<Token>, plugins: PluginTable)
    requires Accepts(request, plugins) && !CompilerLaws.StartsDetached(request) && EffectsInPlace(request, plugins)
    ensures Compiled(request).Build? && Runnable(Compiled(request).program)
    ensures EffectLaws.EffectsFollow(plugins, Compiled(request).program)
    ensures forall p :: 0 <= p < |Compiled(request).program.rows| ==> Steady(plugins, Compiled(request).program, p)
  {
    hide Accepts, EffectsInPlace, Compiled, Steady;
    CompilerLaws.ClosedForm(request, plugins);
    assert request[..|request|] == request;
    BuiltPrefix(request, plugins, |request|);
    var program := Compiled(request).program;
    forall p | 0 <= p < |program.rows|
      ensures !IsEffect(plugins, NodeAt(program, p, 0).plugins[0]) && Steady(plugins, program, p)
    {
      assert RowLed(plugins, program, program.rows[p]);
      DetectorFirst(plugins, program, p);
    }
  }

  // ---------- the verdict ----------

  /** On this frame, a run that reaches the end agrees with the expression. */
  ghost predicate AgreesOn(request: seq<Token>, plugins: PluginTable, program: Program, reply: Uid -> Reply)
    requires Runnable(program) && InRange(program, FRESH)
  {
    var env := Env(plugins, reply);
    Resume(env, program, FRESH, BLANK).Decided? ==>
      (Resume(env, program, FRESH, BLANK).included <==> Meaning(request, Flags(env)))
  }

  lemma AgreesIsOr(request: seq<Token>, plugins: PluginTable, reply: Uid -> Reply)
    requires Accepts(request, plugins) && !CompilerLaws.StartsDetached(request)
    ensures Compiled(request).Build? && Runnable(Compiled(request).program) && InRange(Compiled(request).program, FRESH)
    ensures var program := Compiled(request).program;
            AgreesOn(request, plugins, program, reply) <==> AgreesWithOr(plugins, program, reply)
  {
    hide Compiled, Meaning, Resume, EvalRows, Accepts;
    CompilerLaws.ClosedForm(request, plugins);
    RunIsRecursion(Env(plugins, reply), Compiled(request).program);
    CompilerLaws.CompilePreservesMeaning(request, plugins, Flags(Env(plugins, reply)));
  }

  /** Evaluator correctness: when the program reads as written, a run that reaches the end includes the frame
      exactly when the expression, read from left to right, is true of the detect flags. */
  lemma EvaluatorCorrect(request: seq<Token>, plugins: PluginTable, reply: Uid -> Reply)
    requires Accepts(request, plugins) && !CompilerLaws.StartsDetached(request)
    ensures Compiled(request).Build? && Runnable(Compiled(request).program)
    ensures var program, env := Compiled(request).program, Env(plugins, reply);
            ReadsAsWritten(plugins, program) && Resume(env, program, FRESH, BLANK).Decided? ==>
              (Resume(env, program, FRESH, BLANK).included <==> Meaning(request, Flags(env)))
  {
    hide Compiled, Meaning, Resume, EvalRows, Accepts, ReadsAsWritten;
    AgreesIsOr(request, plugins, reply);
    VerdictIsOrIff(plugins, Compiled(request).program);
  }

  /** The exact condition, for every accepted expression that compiles: the verdict of every frame is the value of
      the expression iff the program reads as written. */
  lemma EvaluatorCorrectIff(request: seq<Token>, plugins: PluginTable)
    requires Accepts(request, plugins) && !CompilerLaws.StartsDetached(request)
    ensures Compiled(request).Build? && Runnable(Compiled(request).program)
    ensures var program := Compiled(request).program;
            && InRange(program, FRESH)
            && (ReadsAsWritten(plugins, program)
                <==> forall reply: Uid -> Reply :: AgreesOn(request, plugins, program, reply))
  {
    hide Compiled, Accepts, ReadsAsWritten, AgreesOn, AgreesWithOr;
    CompilerLaws.ClosedForm(request, plugins);
    var program := Compiled(request).program;
    EnterStep(program, 0);
    VerdictIsOrIff(plugins, program);
    forall reply: Uid -> Reply
      ensures AgreesOn(request, plugins, program, reply) <==> AgreesWithOr(plugins, program, reply)
    {
      AgreesIsOr(request, plugins, reply);
    }
  }

  // ---------- a concrete overruled frame ----------

  /** A or B, with an effect on B: B's pipeline is essential. */
  const EXAMPLE: seq<Token> := [Plugin("a"), Or, Plugin("b"), Colon, Plugin("blur")]
  const EXAMPLE_PLUGINS: PluginTable := map["a" := VideoDetect, "b" := VideoDetect, "blur" := VideoEffect]
  const EXAMPLE_PROGRAM := Program([Node(["a"], true), Node(["b", "blur"], true)], [Row([0], false), Row([1], true)])

  lemma ExampleCompiles()
    ensures Compiled(EXAMPLE) == Build(EXAMPLE_PROGRAM, NoLink, true)
  {
    var t := EXAMPLE;
    assert t[..0] == [] && t[..5] == t;
    assert [] + [0] == [0];
    var first := Program([Node(["a"], true)], [Row([0], false)]);
    var second := Program([Node(["a"], true), Node(["b"], true)], [Row([0], false), Row([1], false)]);
    CompilerLaws.UnfoldCompiled(t, 0);
    assert Compiled(t[..1]) == Build(first, NoLink, true);
    CompilerLaws.UnfoldCompiled(t, 1);
    CompilerLaws.UnfoldCompiled(t, 2);
    assert Compiled(t[..3]) == Build(second, NoLink, true);
    CompilerLaws.UnfoldCompiled(t, 3);
    assert Compiled(t[..4]) == Build(second, ColonLink, true);
    CompilerLaws.UnfoldCompiled(t, 4);
    assert ["b"] + ["blur"] == ["b", "blur"];
    assert second.nodes[1 := Node(["b", "blur"], true)] == EXAMPLE_PROGRAM.nodes;
    assert second.rows[1 := Row([1], true)] == EXAMPLE_PROGRAM.rows;
  }

  lemma ExampleMeans(val: Valuation)
    ensures Meaning(EXAMPLE, val) == (val("a") || val("b"))
  {
    var t := EXAMPLE;
    assert t[..0] == [] && t[..5] == t;
    CompilerLaws.UnfoldFold(t, 0, val);
    CompilerLaws.UnfoldFold(t, 1, val);
    CompilerLaws.UnfoldFold(t, 2, val);
    CompilerLaws.UnfoldFold(t, 3, val);
    CompilerLaws.UnfoldFold(t, 4, val);
  }

  lemma ExampleAccepted()
    ensures Accepts(EXAMPLE, EXAMPLE_PLUGINS) && !CompilerLaws.StartsDetached(EXAMPLE)
  {
  }

  /** When A fires and B does not, the expression is true and the frame is dropped. */
  lemma EssentialOverrules()
    ensures Accepts(EXAMPLE, EXAMPLE_PLUGINS) && !CompilerLaws.StartsDetached(EXAMPLE)
    ensures var env := Env(EXAMPLE_PLUGINS, (uid: Uid) => Answer(Outcome(uid == "a", [])));
            && Compiled(EXAMPLE).Build? && Runnable(Compiled(EXAMPLE).program)
            && Meaning(EXAMPLE, Flags(env))
            && EvalRows(env, Compiled(EXAMPLE).program, 0, BLANK) == Decided(false, map[])
  {
    var env := Env(EXAMPLE_PLUGINS, (uid: Uid) => Answer(Outcome(uid == "a", [])));
    ExampleAccepted();
    ExampleCompiles();
    ExampleMeans(Flags(env));
    hide Compiled, Meaning, Accepts;
    var program := EXAMPLE_PROGRAM;
    assert Runnable(program);
    var fired, missed := Context(Outcome(true, []), map[]), Context(Outcome(false, []), map[]);
    assert EvalNode(env, NodeAt(program, 0, 0), BLANK) == Part(true, fired);
    assert EvalRow(env, program, 0, 0, BLANK) == Part(true, fired);
    assert EvalNode(env, NodeAt(program, 1, 0), fired) == Part(false, missed);
    assert EvalRow(env, program, 1, 0, fired) == Part(false, missed);
    assert EvalRows(env, program, 1, fired) == Decided(false, map[]);
  }

  // ---------- an effect joined to an uncut detector ----------

  /** Uncut A with an effect, and another effect joined by &. */
  const JOINED: seq<Token> := [Uncut, Plugin("a"), Colon, Plugin("blur"), And, Plugin("mute")]
  const JOINED_PLUGINS: PluginTable := map["a" := VideoDetect, "blur" := VideoEffect, "mute" := AudioEffect]
  const JOINED_PROGRAM := Program([Node(["a", "blur"], false), Node(["mute"], true)], [Row([0, 1], false)])

  lemma JoinedAccepted()
    ensures Accepts(JOINED, JOINED_PLUGINS) && !CompilerLaws.StartsDetached(JOINED)
  {
    assert EffectAt(JOINED, JOINED_PLUGINS, 3);
    assert Settled(JOINED, JOINED_PLUGINS, 0, 6);
  }

  const JOINED_HALF := Program([Node(["a", "blur"], false)], [Row([0], false)])

  lemma JoinedHalf()
    ensures Compiled(JOINED[..4]) == Build(JOINED_HALF, NoLink, true)
  {
    var t, empty := JOINED, Program([], [Row([], false)]);
    var first := Program([Node(["a"], false)], [Row([0], false)]);
    assert t[..0] == [];
    CompilerLaws.UnfoldCompiled(t, 0);
    CompilerLaws.UnfoldCompiled(t, 1);
    CompilerLaws.FirstProgram(empty, false, "a");
    CompilerLaws.UnfoldCompiled(t, 2);
    CompilerLaws.UnfoldCompiled(t, 3);
    assert ["a"] + ["blur"] == ["a", "blur"];
    assert first.nodes[0 := Node(["a", "blur"], false)] == JOINED_HALF.nodes;
    assert AddPlugin(first, ColonLink, true, "blur") == Build(JOINED_HALF, NoLink, true);
  }

  lemma JoinedLast()
    ensures AddPlugin(JOINED_HALF, AndLink, true, "mute") == Build(JOINED_PROGRAM, NoLink, true)
  {
    var rows := AppendToAll(JOINED_HALF.rows, 1);
    assert rows[0].ids == [0, 1];
    assert rows == [Row([0, 1], false)];
  }

  lemma JoinedCompiles()
    ensures Compiled(JOINED) == Build(JOINED_PROGRAM, NoLink, true)
  {
    JoinedHalf();
    JoinedLast();
    hide Compiled, AddPlugin;
    CompilerLaws.UnfoldCompiled(JOINED, 4);
    CompilerLaws.UnfoldCompiled(JOINED, 5);
    assert JOINED[..6] == JOINED;
  }

  lemma JoinedMeans(val: Valuation)
    requires val("mute")
    ensures Meaning(JOINED, val)
  {
    var t := JOINED;
    assert t[..0] == [] && t[..6] == t;
    CompilerLaws.UnfoldFold(t, 0, val);
    CompilerLaws.UnfoldFold(t, 1, val);
    CompilerLaws.UnfoldFold(t, 2, val);
    CompilerLaws.UnfoldFold(t, 3, val);
    CompilerLaws.UnfoldFold(t, 4, val);
    CompilerLaws.UnfoldFold(t, 5, val);
  }

  /** When A does not fire, uncut A passes, but the effect behind it takes A's flag for its own and fails. So the
      frame is dropped although the expression is true. */
  lemma JoinedEffectFails()
    ensures Accepts(JOINED, JOINED_PLUGINS) && !CompilerLaws.StartsDetached(JOINED)
    ensures var env := Env(JOINED_PLUGINS, (uid: Uid) => Answer(Outcome(false, [])));
            && Compiled(JOINED).Build? && Runnable(Compiled(JOINED).program)
            && Meaning(JOINED, Flags(env))
            && EvalRows(env, Compiled(JOINED).program, 0, BLANK) == Decided(false, map["mute" := []])
  {
    var env := Env(JOINED_PLUGINS, (uid: Uid) => Answer(Outcome(false, [])));
    JoinedAccepted();
    JoinedCompiles();
    JoinedRun(env);
    hide *;
    assert Flags(env)("mute") by { MuteIsTrue(env); }
    JoinedMeans(Flags(env));
  }

  lemma MuteIsTrue(env: Env)
    requires env.plugins == JOINED_PLUGINS
    ensures Flags(env)("mute")
  {
  }

  lemma JoinedRun(env: Env)
    requires env.plugins == JOINED_PLUGINS && env.reply("a") == Answer(Outcome(false, []))
    ensures Runnable(JOINED_PROGRAM) && EvalRows(env, JOINED_PROGRAM, 0, BLANK) == Decided(false, map["mute" := []])
  {
    var program := JOINED_PROGRAM;
    assert RowWithin(program, program.rows[0]);
    var missed := Context(Outcome(false, []), map[]);
    assert EvalNode(env, NodeAt(program, 0, 0), BLANK) == Part(true, missed);
    assert EvalNode(env, NodeAt(program, 0, 1), missed) == Part(false, missed.(detected := map["mute" := []]));
    assert EvalRow(env, program, 0, 1, missed) == Part(false, missed.(detected := map["mute" := []]));
    assert EvalRow(env, program, 0, 0, BLANK) == Part(false, missed.(detected := map["mute" := []]));
  }

  // ---------- an attached detector ----------

  /** A with a second detector attached through an uncut mark, which hides it from the check. */
  const HIDDEN: seq<Token> := [Plugin("a"), Colon, Uncut, Plugin("b"), Colon, Plugin("blur")]
  const HIDDEN_PROGRAM := Program([Node(["a", "b", "blur"], true)], [Row([0], false)])

  lemma HiddenAccepted()
    ensures Accepts(HIDDEN, EXAMPLE_PLUGINS) && !CompilerLaws.StartsDetached(HIDDEN)
  {
    assert EffectAt(HIDDEN, EXAMPLE_PLUGINS, 5);
    assert Settled(HIDDEN, EXAMPLE_PLUGINS, 2, 6);
  }

  lemma AttachHidden(program: Program, before: seq<Uid>, cut: bool, uid: Uid)
    requires program == Program([Node(before, true)], [Row([0], false)])
    ensures AddPlugin(program, ColonLink, cut, uid)
            == Build(Program([Node(before + [uid], true)], [Row([0], false)]), NoLink, true)
  {
    assert program.nodes[0 := Node(before + [uid], true)] == [Node(before + [uid], true)];
  }

  const HIDDEN_HALF := Program([Node(["a", "b"], true)], [Row([0], false)])

  lemma HiddenHalf()
    ensures Compiled(HIDDEN[..4]) == Build(HIDDEN_HALF, NoLink, true)
  {
    var t, empty := HIDDEN, Program([], [Row([], false)]);
    var first := Program([Node(["a"], true)], [Row([0], false)]);
    assert t[..0] == [];
    CompilerLaws.FirstProgram(empty, true, "a");
    AttachHidden(first, ["a"], false, "b");
    assert ["a"] + ["b"] == ["a", "b"];
    hide AddPlugin;
    CompilerLaws.UnfoldCompiled(t, 0);
    CompilerLaws.UnfoldCompiled(t, 1);
    CompilerLaws.UnfoldCompiled(t, 2);
    CompilerLaws.UnfoldCompiled(t, 3);
  }

  lemma HiddenCompiles()
    ensures Compiled(HIDDEN) == Build(HIDDEN_PROGRAM, NoLink, true)
  {
    HiddenHalf();
    AttachHidden(HIDDEN_HALF, ["a", "b"], true, "blur");
    assert ["a", "b"] + ["blur"] == ["a", "b", "blur"];
    hide Compiled, AddPlugin;
    CompilerLaws.UnfoldCompiled(HIDDEN, 4);
    CompilerLaws.UnfoldCompiled(HIDDEN, 5);
    assert HIDDEN[..6] == HIDDEN;
  }

  lemma HiddenMeans(val: Valuation)
    ensures Meaning(HIDDEN, val) == val("a")
  {
    var t := HIDDEN;
    assert t[..0] == [] && t[..6] == t;
    CompilerLaws.UnfoldFold(t, 0, val);
    CompilerLaws.UnfoldFold(t, 1, val);
    CompilerLaws.UnfoldFold(t, 2, val);
    CompilerLaws.UnfoldFold(t, 3, val);
    CompilerLaws.UnfoldFold(t, 4, val);
    CompilerLaws.UnfoldFold(t, 5, val);
  }

  /** When A fires and B does not, the expression is true; but the attached detector cuts like an operand, and
      the frame is dropped. */
  lemma AttachedDetectorCuts()
    ensures Accepts(HIDDEN, EXAMPLE_PLUGINS) && !CompilerLaws.StartsDetached(HIDDEN)
    ensures var env := Env(EXAMPLE_PLUGINS, (uid: Uid) => Answer(Outcome(uid == "a", [])));
            && Compiled(HIDDEN).Build? && Runnable(Compiled(HIDDEN).program)
            && Meaning(HIDDEN, Flags(env))
            && EvalRows(env, Compiled(HIDDEN).program, 0, BLANK) == Decided(false, map[])
  {
    var env := Env(EXAMPLE_PLUGINS, (uid: Uid) => Answer(Outcome(uid == "a", [])));
    HiddenAccepted();
    HiddenCompiles();
    HiddenMeans(Flags(env));
    hide Compiled, Meaning, Accepts;
    var program := HIDDEN_PROGRAM;
    assert RowWithin(program, program.rows[0]);
    var fired, missed := Context(Outcome(true, []), map[]), Context(Outcome(false, []), map[]);
    var node := NodeAt(program, 0, 0);
    assert Ask(env, "a", BLANK) == Known(fired) && Ask(env, "b", fired) == Known(missed);
    assert EvalAttached(env, node, 1, fired) == Part(false, missed);
    assert EvalNode(env, node, BLANK) == Part(false, missed);
    assert EvalRow(env, program, 0, 0, BLANK) == Part(false, missed);
  }
}
