/** Laws of the expression compiler: when it succeeds, the closed form of its output, and that the OR over
    pipelines of ANDs over their nodes is the left-to-right value of the tokens. */
module CompilerLaws {
  import opened Types
  import opened Expression
  import opened Validator

  /** The accepted expressions the compiler cannot handle start with an uncut mark directly attached. */
  predicate StartsDetached(request: seq<Token>) {
    |request| >= 2 && request[0] == Uncut && request[1] == Colon
  }

  lemma UnfoldCompiled(tokens: seq<Token>, n: nat)
    requires n < |tokens|
    ensures Compiled(tokens[..n + 1]) == Feed(Compiled(tokens[..n]), tokens[n])
  {
    assert tokens[..n + 1][..n] == tokens[..n];
  }

  /** One operand of an expression that compiles as a whole. */
  lemma FeedOperand(tokens: seq<Token>, n: nat, program: Program, link: Link, cut: bool)
    requires n < |tokens| && tokens[n].Plugin? && Compiled(tokens).Build?
    requires Compiled(tokens[..n]) == Build(program, link, cut)
    ensures var b := AddPlugin(program, link, cut, tokens[n].uid);
            b.Build? && Compiled(tokens[..n + 1]) == Build(b.program, NoLink, true)
  {
    UnfoldCompiled(tokens, n);
    assert tokens[..|tokens|] == tokens;
    if Compiled(tokens[..n + 1]).NullPush? {
      NullPushStays(tokens, n + 1, |tokens|);
    }
  }

  /** An operator or an uncut mark leaves the program alone. */
  lemma FeedMark(tokens: seq<Token>, n: nat, program: Program, link: Link, cut: bool)
    requires n < |tokens| && !tokens[n].Plugin?
    requires Compiled(tokens[..n]) == Build(program, link, cut)
    ensures Compiled(tokens[..n + 1])
            == if tokens[n] == Uncut then Build(program, link, false) else Build(program, LinkOf(tokens[n]), cut)
  {
    UnfoldCompiled(tokens, n);
  }

  lemma UnfoldFold(tokens: seq<Token>, n: nat, val: Valuation)
    requires n < |tokens|
    ensures FoldAll(tokens[..n + 1], val) == FoldStep(FoldAll(tokens[..n], val), tokens[n], val)
  {
    assert tokens[..n + 1][..n] == tokens[..n];
  }

  // ---------- one plugin at a time ----------

  /** Every link keeps a program well formed. */
  lemma AddPluginWellFormed(program: Program, link: Link, cut: bool, uid: Uid)
    requires WellFormed(program) && AddPlugin(program, link, cut, uid).Build?
    ensures WellFormed(AddPlugin(program, link, cut, uid).program)
  {
    var next := AddPlugin(program, link, cut, uid).program;
    forall p | 0 <= p < |next.rows| ensures RowWithin(next, next.rows[p]) {
      if p < |program.rows| { assert RowWithin(program, program.rows[p]); }
    }
  }

  /** An operand joined by & goes to the end of every pipeline. */
  lemma AndShape(program: Program, cut: bool, uid: Uid)
    requires Staircase(program)
    ensures Staircase(AddPlugin(program, AndLink, cut, uid).program)
  {
    var next := AddPlugin(program, AndLink, cut, uid).program;
    var id := |program.nodes|;
    SameHeads(program, next);
    forall p | 0 <= p < |program.rows|
      ensures RowWithin(next, next.rows[p]) && HeadThenShared(next, next.rows[p])
    {
      var ids := program.rows[p].ids;
      assert RowWithin(program, program.rows[p]) && HeadThenShared(program, program.rows[p]);
      assert next.rows[p].ids == ids + [id];
      assert !IsHead(program, id);
      forall n: nat | n < |next.nodes| ensures n in ids + [id] <==> n in ids || n == id {
      }
    }
  }

  lemma AndValue(program: Program, cut: bool, uid: Uid, val: Valuation)
    requires Staircase(program)
    requires WellFormed(AddPlugin(program, AndLink, cut, uid).program)
    ensures SomeRowTrue(AddPlugin(program, AndLink, cut, uid).program, val)
            == (SomeRowTrue(program, val) && (val(uid) || !cut))
  {
    var next := AddPlugin(program, AndLink, cut, uid).program;
    var id := |program.nodes|;
    forall p | 0 <= p < |program.rows|
      ensures RowTrue(next, p, val) == (RowTrue(program, p, val) && (val(uid) || !cut))
    {
      assert next.rows[p].ids == program.rows[p].ids + [id];
      assert id in next.rows[p].ids && next.nodes[id] == Node([uid], cut);
      if RowTrue(next, p, val) {
        forall n | n in program.rows[p].ids ensures Value(program.nodes[n], val) {
          assert n in next.rows[p].ids;
        }
      }
    }
    if SomeRowTrue(program, val) && (val(uid) || !cut) {
      var p :| 0 <= p < |program.rows| && RowTrue(program, p, val);
      assert RowTrue(next, p, val);
    }
  }

  /** A new pipeline adds one head, the new node. */
  lemma OrHeads(before: Program, after: Program, id: nat)
    requires after.rows == before.rows + [Row([id], false)]
    ensures forall n: nat :: IsHead(after, n) <==> IsHead(before, n) || n == id
  {
    var last := |before.rows|;
    assert after.rows[last].ids[0] == id;
    forall n: nat ensures IsHead(after, n) <==> IsHead(before, n) || n == id {
      if IsHead(before, n) {
        var p :| 0 <= p < last && before.rows[p].ids != [] && before.rows[p].ids[0] == n;
        assert after.rows[p].ids[0] == n;
      }
      if IsHead(after, n) {
        var p :| 0 <= p <= last && after.rows[p].ids != [] && after.rows[p].ids[0] == n;
        if p < last { assert before.rows[p].ids[0] == n; }
      }
    }
  }

  /** An operand joined by | starts a pipeline of its own. */
  lemma OrShape(program: Program, cut: bool, uid: Uid)
    requires Staircase(program)
    ensures Staircase(AddPlugin(program, OrLink, cut, uid).program)
  {
    var next := AddPlugin(program, OrLink, cut, uid).program;
    var id, last := |program.nodes|, |program.rows|;
    OrHeads(program, next, id);
    forall p | 0 <= p < last
      ensures RowWithin(next, next.rows[p]) && HeadThenShared(next, next.rows[p]) && next.rows[p].ids[0] < id
    {
      OldRow(program, next, id, p);
    }
    hide IsHead;
    assert next.rows[last].ids == [id];
    assert RowWithin(next, next.rows[last]) && HeadThenShared(next, next.rows[last]);
  }

  /** The pipelines there were before are as they were: the new node heads one of its own. */
  lemma OldRow(program: Program, next: Program, id: nat, p: nat)
    requires Staircase(program) && id == |program.nodes| && p < |program.rows|
    requires |next.nodes| == id + 1 && |next.rows| > p && next.rows[p] == program.rows[p]
    requires forall n: nat :: IsHead(next, n) <==> IsHead(program, n) || n == id
    ensures RowWithin(next, next.rows[p]) && HeadThenShared(next, next.rows[p]) && next.rows[p].ids[0] < id
  {
    var row := program.rows[p];
    assert RowWithin(program, row) && HeadThenShared(program, row);
    hide IsHead;
    assert id !in row.ids;
    assert row.ids[0] < id;
  }

  lemma OrValue(program: Program, cut: bool, uid: Uid, val: Valuation)
    requires Staircase(program)
    requires WellFormed(AddPlugin(program, OrLink, cut, uid).program)
    ensures SomeRowTrue(AddPlugin(program, OrLink, cut, uid).program, val)
            == (SomeRowTrue(program, val) || (val(uid) || !cut))
  {
    var next := AddPlugin(program, OrLink, cut, uid).program;
    var id, last := |program.nodes|, |program.rows|;
    forall p | 0 <= p < last ensures RowTrue(next, p, val) == RowTrue(program, p, val) {
      assert next.rows[p] == program.rows[p];
      assert forall n :: n in program.rows[p].ids ==> next.nodes[n] == program.nodes[n];
    }
    assert RowTrue(next, last, val) == (val(uid) || !cut) by {
      assert next.rows[last].ids == [id] && id in next.rows[last].ids && next.nodes[id] == Node([uid], cut);
    }
    if SomeRowTrue(program, val) {
      var p :| 0 <= p < last && RowTrue(program, p, val);
      assert RowTrue(next, p, val);
    }
  }

  /** Attaching a plugin to the newest node changes neither the pipelines nor any head. */
  lemma ColonShape(program: Program, cut: bool, uid: Uid)
    requires Staircase(program)
    ensures AddPlugin(program, ColonLink, cut, uid).Build?
    ensures Staircase(AddPlugin(program, ColonLink, cut, uid).program)
  {
    var next := AddPlugin(program, ColonLink, cut, uid).program;
    assert program.nodes != [] by { assert RowWithin(program, program.rows[0]); }
    assert forall p :: 0 <= p < |program.rows| ==> next.rows[p].ids == program.rows[p].ids;
    SameHeads(program, next);
    forall p | 0 <= p < |program.rows|
      ensures RowWithin(next, next.rows[p]) && HeadThenShared(next, next.rows[p])
    {
      assert RowWithin(program, program.rows[p]) && HeadThenShared(program, program.rows[p]);
    }
  }

  lemma ColonValue(program: Program, cut: bool, uid: Uid, val: Valuation)
    requires WellFormed(program) && program.nodes != []
    requires WellFormed(AddPlugin(program, ColonLink, cut, uid).program)
    ensures SomeRowTrue(AddPlugin(program, ColonLink, cut, uid).program, val) == SomeRowTrue(program, val)
  {
    var next := AddPlugin(program, ColonLink, cut, uid).program;
    forall p | 0 <= p < |program.rows| ensures RowTrue(next, p, val) == RowTrue(program, p, val) {
      assert next.rows[p].ids == program.rows[p].ids;
      forall n | n in program.rows[p].ids ensures Value(next.nodes[n], val) == Value(program.nodes[n], val) {
      }
    }
    if SomeRowTrue(program, val) {
      var p :| 0 <= p < |program.rows| && RowTrue(program, p, val);
      assert RowTrue(next, p, val);
    }
  }

  /** The first operand makes a pipeline of one node. */
  lemma FirstProgram(program: Program, cut: bool, uid: Uid)
    requires program == Program([], [Row([], false)])
    ensures AddPlugin(program, NoLink, cut, uid)
            == Build(Program([Node([uid], cut)], [Row([0], false)]), NoLink, true)
  {
    assert program.rows[0].ids + [0] == [0];
    assert program.rows[0 := Row([0], false)] == [Row([0], false)];
  }

  lemma FirstShape(program: Program, cut: bool, uid: Uid)
    requires program == Program([], [Row([], false)])
    ensures Staircase(AddPlugin(program, NoLink, cut, uid).program)
  {
    FirstProgram(program, cut, uid);
    hide AddPlugin;
    var next := Program([Node([uid], cut)], [Row([0], false)]);
    assert RowWithin(next, next.rows[0]) && HeadThenShared(next, next.rows[0]);
  }

  lemma FirstValue(program: Program, cut: bool, uid: Uid, val: Valuation)
    requires program == Program([], [Row([], false)])
    requires WellFormed(AddPlugin(program, NoLink, cut, uid).program)
    ensures SomeRowTrue(AddPlugin(program, NoLink, cut, uid).program, val) == (val(uid) || !cut)
  {
    FirstProgram(program, cut, uid);
    hide AddPlugin, WellFormed;
    var next := Program([Node([uid], cut)], [Row([0], false)]);
    assert 0 in next.rows[0].ids && next.nodes[0] == Node([uid], cut);
    assert RowTrue(next, 0, val) == (val(uid) || !cut);
  }

  lemma SameHeads(before: Program, after: Program)
    requires |before.rows| == |after.rows|
    requires forall p :: 0 <= p < |before.rows| ==>
                           && before.rows[p].ids != [] && after.rows[p].ids != []
                           && before.rows[p].ids[0] == after.rows[p].ids[0]
    ensures forall n: nat :: IsHead(before, n) == IsHead(after, n)
  {
    forall n: nat ensures IsHead(before, n) == IsHead(after, n) {
      if IsHead(before, n) {
        var p :| 0 <= p < |before.rows| && before.rows[p].ids != [] && before.rows[p].ids[0] == n;
        assert after.rows[p].ids[0] == n;
      }
      if IsHead(after, n) {
        var p :| 0 <= p < |after.rows| && after.rows[p].ids != [] && after.rows[p].ids[0] == n;
        assert before.rows[p].ids[0] == n;
      }
    }
  }

  // ---------- accepted expressions ----------

  /** The operator waiting after n words. */
  predicate LinkedAt(request: seq<Token>, n: nat, link: Link)
    requires n <= |request|
  {
    if n == 0 then link == NoLink
    else if request[n - 1] == Uncut && n >= 2 then link == LinkOf(request[n - 2])
    else link == LinkOf(request[n - 1])
  }

  /** No operand yet: at most a leading uncut mark has been read. */
  predicate Blank(request: seq<Token>, n: nat)
    requires n <= |request|
  {
    n == 0 || (n == 1 && request[0] == Uncut)
  }

  lemma LeadingMark(request: seq<Token>, plugins: PluginTable)
    requires Accepts(request, plugins) && request[0] == Uncut
    ensures |request| >= 2 && (request[1] == Colon || request[1].Plugin?)
  {
    assert Settled(request, plugins, 0, |request|);
  }

  lemma AfterMark(request: seq<Token>, plugins: PluginTable, n: nat)
    requires Accepts(request, plugins) && n + 1 < |request| && request[n] == Uncut
    ensures request[n + 1] != Uncut
  {
    assert Settled(request, plugins, n, |request|);
  }

  /** What the word before position n, and the one before that, can have been. */
  lemma Neighbours(request: seq<Token>, plugins: PluginTable, n: nat, link: Link)
    requires Accepts(request, plugins) && !StartsDetached(request) && n < |request|
    requires LinkedAt(request, n, link)
    ensures LinkedAt(request, n + 1, if request[n].Plugin? then NoLink
                                     else if request[n] == Uncut then link else LinkOf(request[n]))
    ensures request[n].Plugin? ==> (link == NoLink <==> Blank(request, n))
    ensures request[n].Plugin? || !Blank(request, n + 1) ==> request[n].Plugin? || !Blank(request, n)
  {
    assert Adjacent(request, plugins, n) && Adjacent(request, plugins, 0);
    if request[0] == Uncut { LeadingMark(request, plugins); }
    if n >= 1 {
      assert Adjacent(request, plugins, n - 1);
      if request[n - 1] == Uncut { AfterMark(request, plugins, n - 1); }
      if n >= 2 && request[n - 2] == Uncut { AfterMark(request, plugins, n - 2); }
    }
  }

  ghost predicate ShapedAt(request: seq<Token>, n: nat, b: Build)
    requires n <= |request|
  {
    && b.Build? && LinkedAt(request, n, b.link)
    && (if Blank(request, n) then b.program == Program([], [Row([], false)]) else Staircase(b.program))
  }

  /** The shape after one more word. */
  lemma ShapedStep(b: Build, blank: bool, t: Token)
    requires b.Build? && b.program.rows != [] && (t.Plugin? ==> (b.link == NoLink <==> blank))
    requires if blank then b.program == Program([], [Row([], false)]) else Staircase(b.program)
    ensures var next := Feed(b, t);
            && next.Build?
            && next.link == (if t.Plugin? then NoLink else if t == Uncut then b.link else LinkOf(t))
            && if t.Plugin? then Staircase(next.program) else next.program == b.program
  {
    hide Staircase;
    if t.Plugin? {
      match b.link
      case AndLink => AndShape(b.program, b.cut, t.uid);
      case OrLink => OrShape(b.program, b.cut, t.uid);
      case ColonLink => ColonShape(b.program, b.cut, t.uid);
      case NoLink => FirstShape(b.program, b.cut, t.uid);
    }
  }

  lemma {:induction false} ShapedPrefix(request: seq<Token>, plugins: PluginTable, n: nat)
    requires Accepts(request, plugins) && !StartsDetached(request) && n <= |request|
    ensures ShapedAt(request, n, Compiled(request[..n]))
  {
    hide Accepts, Feed, Staircase;
    if n == 0 {
      assert request[..0] == [];
    } else {
      ShapedPrefix(request, plugins, n - 1);
      UnfoldCompiled(request, n - 1);
      var b, t := Compiled(request[..n - 1]), request[n - 1];
      Neighbours(request, plugins, n - 1, b.link);
      ShapedStep(b, Blank(request, n - 1), t);
    }
  }

  /** Compiler and left-to-right evaluation agree: same pending words, and same value once there is an operand. */
  ghost predicate Agree(b: Build, f: Fold, blank: bool, val: Valuation) {
    && b.Build? && f.link == b.link && f.cut == b.cut
    && (if blank then b.program == Program([], [Row([], false)])
        else Staircase(b.program) && f.acc == SomeRowTrue(b.program, val))
  }

  lemma AgreeStep(b: Build, f: Fold, blank: bool, t: Token, val: Valuation)
    requires Agree(b, f, blank, val)
    requires t.Plugin? ==> (b.link == NoLink <==> blank)
    requires Feed(b, t).Build? && (t.Plugin? ==> Staircase(Feed(b, t).program))
    ensures Agree(Feed(b, t), FoldStep(f, t, val), blank && !t.Plugin?, val)
  {
    if t.Plugin? {
      match b.link
      case AndLink => AndValue(b.program, b.cut, t.uid, val);
      case OrLink => OrValue(b.program, b.cut, t.uid, val);
      case ColonLink =>
        assert RowWithin(b.program, b.program.rows[0]);
        ColonValue(b.program, b.cut, t.uid, val);
      case NoLink => FirstValue(b.program, b.cut, t.uid, val);
    }
  }

  lemma {:induction false} ValuedPrefix(request: seq<Token>, plugins: PluginTable, n: nat, val: Valuation)
    requires Accepts(request, plugins) && !StartsDetached(request) && n <= |request|
    ensures Agree(Compiled(request[..n]), FoldAll(request[..n], val), Blank(request, n), val)
  {
    if n == 0 {
      assert request[..0] == [];
    } else {
      ShapedPrefix(request, plugins, n - 1);
      ShapedPrefix(request, plugins, n);
      ValuedPrefix(request, plugins, n - 1, val);
      UnfoldCompiled(request, n - 1);
      UnfoldFold(request, n - 1, val);
      var b, f := Compiled(request[..n - 1]), FoldAll(request[..n - 1], val);
      Neighbours(request, plugins, n - 1, b.link);
      AgreeStep(b, f, Blank(request, n - 1), request[n - 1], val);
    }
  }

  /** The closed form of the compiled pipelines. */
  lemma ClosedForm(request: seq<Token>, plugins: PluginTable)
    requires Accepts(request, plugins) && !StartsDetached(request)
    ensures Compiled(request).Build? && Staircase(Compiled(request).program)
  {
    assert request[..|request|] == request;
    ShapedPrefix(request, plugins, |request|);
  }

  /** The compiler preserves meaning. */
  lemma CompilePreservesMeaning(request: seq<Token>, plugins: PluginTable, val: Valuation)
    requires Accepts(request, plugins) && !StartsDetached(request)
    ensures Compiled(request).Build? && WellFormed(Compiled(request).program)
    ensures Meaning(request, val) <==> SomeRowTrue(Compiled(request).program, val)
  {
    assert request[..|request|] == request;
    ValuedPrefix(request, plugins, |request|, val);
  }

  lemma {:induction false} NullPushStays(request: seq<Token>, m: nat, n: nat)
    requires m <= n <= |request| && Compiled(request[..m]).NullPush?
    ensures Compiled(request[..n]).NullPush?
  {
    hide AddPlugin;
    if m < n {
      NullPushStays(request, m, n - 1);
      UnfoldCompiled(request, n - 1);
    }
  }

  lemma DetachedFails(request: seq<Token>, plugins: PluginTable)
    requires Accepts(request, plugins) && StartsDetached(request)
    ensures Compiled(request).NullPush?
  {
    UnfoldCompiled(request, 0);
    UnfoldCompiled(request, 1);
    assert Settled(request, plugins, 0, |request|);
    assert Adjacent(request, plugins, 2);
    UnfoldCompiled(request, 2);
    NullPushStays(request, 3, |request|);
    assert request[..|request|] == request;
  }

  /** An accepted expression compiles without touching a missing node exactly when it does not start with
      an uncut mark followed by an attachment. */
  lemma CompilesIff(request: seq<Token>, plugins: PluginTable)
    requires Accepts(request, plugins)
    ensures Compiled(request).Build? <==> !StartsDetached(request)
  {
    if StartsDetached(request) {
      DetachedFails(request, plugins);
    } else {
      ClosedForm(request, plugins);
    }
  }

  /** The validator lets such an expression through. */
  lemma AcceptedButFails()
    ensures var request := [Uncut, Colon, Plugin("blur.1")];
            Accepts(request, map["blur.1" := VideoEffect]) && Compiled(request).NullPush?
  {
    var request := [Uncut, Colon, Plugin("blur.1")];
    var plugins: PluginTable := map["blur.1" := VideoEffect];
    assert EffectAt(request, plugins, 2);
    assert Settled(request, plugins, 0, 3);
    DetachedFails(request, plugins);
  }
}
