/** The compiled program of an accepted expression, told from its words: which words make up each node, which nodes
    head a pipeline, and which pipelines are essential. */
module ProgramLaws {
  import opened Types
  import opened Expression
  import opened Validator
  import opened CompilerLaws
  import opened ExpressionLaws

  /** The plugins among some words, in order. */
  function Words(tokens: seq<Token>): seq<Uid> {
    if tokens == [] then []
    else
      var rest, last := Words(tokens[..|tokens| - 1]), tokens[|tokens| - 1];
      if last.Plugin? then rest + [last.uid] else rest
  }

  /** The word at i is an operand: a plugin that is not attached. */
  predicate Operand(request: seq<Token>, i: nat)
    requires i < |request|
  {
    request[i].Plugin? && !Attached(request, i)
  }

  /** The operands among the first n words. */
  function Operands(request: seq<Token>, n: nat): (ops: seq<nat>)
    requires n <= |request|
    ensures forall k :: 0 <= k < |ops| ==> ops[k] < n && Operand(request, ops[k])
    ensures forall i :: 0 <= i < n && Operand(request, i) ==> i in ops
    ensures forall j, k :: 0 <= j < k < |ops| ==> ops[j] < ops[k]
  {
    if n == 0 then []
    else if Operand(request, n - 1) then Operands(request, n - 1) + [n - 1] else Operands(request, n - 1)
  }

  predicate Marked(request: seq<Token>, i: nat)
    requires i < |request|
  {
    i > 0 && request[i - 1] == Uncut
  }

  /** Node k stands for the operand at i and everything attached before the next operand, at j. */
  ghost predicate NodeOf(request: seq<Token>, node: Node, i: nat, j: nat)
    requires i < j <= |request|
  {
    node.plugins == Words(request[i..j]) && (node.cut <==> !Marked(request, i))
  }

  /** Where the words of operand k end among the first n words. */
  function EndOf(ops: seq<nat>, k: nat, n: nat): nat
    requires k < |ops|
  {
    if k + 1 < |ops| then ops[k + 1] else n
  }

  ghost predicate NodesOf(request: seq<Token>, n: nat, nodes: seq<Node>)
    requires n <= |request|
  {
    var ops := Operands(request, n);
    && |nodes| == |ops|
    && forall k :: 0 <= k < |nodes| ==> NodeOf(request, nodes[k], ops[k], EndOf(ops, k, n))
  }

  /** The operand at i is joined by |. */
  predicate Alternative(request: seq<Token>, i: nat)
    requires i < |request|
  {
    (i >= 1 && request[i - 1] == Or) || (i >= 2 && request[i - 1] == Uncut && request[i - 2] == Or)
  }

  /** The heads of pipelines are the first operand and those joined by |. */
  ghost predicate HeadsOf(request: seq<Token>, n: nat, program: Program)
    requires n <= |request|
  {
    var ops := Operands(request, n);
    forall k: nat :: IsHead(program, k) <==> k < |ops| && (k == 0 || Alternative(request, ops[k]))
  }

  /** A pipeline is essential when it is not the first and something is attached to its head. */
  ghost predicate EssentialOf(program: Program)
    requires WellFormed(program)
  {
    forall p :: 0 <= p < |program.rows| ==> EssentialRow(program, p)
  }

  ghost predicate EssentialRow(program: Program, p: nat)
    requires WellFormed(program) && p < |program.rows|
  {
    var ids := program.rows[p].ids;
    program.rows[p].essential <==> p > 0 && ids != [] && ids[0] < |program.nodes| && |program.nodes[ids[0]].plugins| > 1
  }

  // ---------- nodes ----------

  /** A pending mark, unless a colon stands behind it. */
  predicate CutAt(request: seq<Token>, n: nat, cut: bool)
    requires n <= |request|
  {
    n > 0 && request[n - 1] != Colon ==> (cut <==> request[n - 1] != Uncut)
  }

  lemma CutStep(request: seq<Token>, plugins: PluginTable, n: nat, b: Build)
    requires Accepts(request, plugins) && n < |request| && b.Build? && b.program.rows != []
    requires CutAt(request, n, b.cut) && (n == 0 ==> b.cut)
    ensures Feed(b, request[n]).Build? ==> CutAt(request, n + 1, Feed(b, request[n]).cut)
  {
    if request[n] == And || request[n] == Or {
      BehindPlugin(request, plugins, n);
    }
  }

  /** In front of & or | there is a plugin. */
  lemma BehindPlugin(request: seq<Token>, plugins: PluginTable, n: nat)
    requires Accepts(request, plugins) && n < |request| && (request[n] == And || request[n] == Or)
    ensures n > 0 && request[n - 1].Plugin?
  {
    assert Adjacent(request, plugins, n);
  }

  lemma WordsMore(request: seq<Token>, i: nat, n: nat)
    requires i <= n < |request|
    ensures Words(request[i..n + 1])
            == if request[n].Plugin? then Words(request[i..n]) + [request[n].uid] else Words(request[i..n])
  {
    assert request[i..n + 1][..n - i] == request[i..n];
  }

  lemma WordsOne(request: seq<Token>, n: nat)
    requires n < |request| && request[n].Plugin?
    ensures Words(request[n..n + 1]) == [request[n].uid]
  {
    WordsMore(request, n, n);
    assert request[n..n] == [];
  }

  /** A word that is no operand leaves the operands as they are; the last node may get one more plugin. */
  lemma NodesLonger(request: seq<Token>, n: nat, nodes: seq<Node>, nodes': seq<Node>)
    requires n < |request| && NodesOf(request, n, nodes) && !Operand(request, n)
    requires if request[n].Plugin? then
               && nodes != []
               && var m := |nodes| - 1;
                  nodes' == nodes[m := nodes[m].(plugins := nodes[m].plugins + [request[n].uid])]
             else nodes' == nodes
    ensures NodesOf(request, n + 1, nodes')
  {
    hide Words;
    var ops := Operands(request, n);
    assert Operands(request, n + 1) == ops;
    forall k | 0 <= k < |nodes'| ensures NodeOf(request, nodes'[k], ops[k], EndOf(ops, k, n + 1)) {
      assert NodeOf(request, nodes[k], ops[k], EndOf(ops, k, n));
      if k == |nodes| - 1 {
        WordsMore(request, ops[k], n);
      }
    }
  }

  /** An operand adds a node. */
  lemma NodesMore(request: seq<Token>, n: nat, nodes: seq<Node>, node: Node)
    requires n < |request| && NodesOf(request, n, nodes) && Operand(request, n)
    requires node.plugins == [request[n].uid] && (node.cut <==> !Marked(request, n))
    ensures NodesOf(request, n + 1, nodes + [node])
  {
    hide Words;
    var ops, nodes' := Operands(request, n), nodes + [node];
    assert Operands(request, n + 1) == ops + [n];
    WordsOne(request, n);
    forall k | 0 <= k < |nodes'| ensures NodeOf(request, nodes'[k], (ops + [n])[k], EndOf(ops + [n], k, n + 1)) {
      if k < |nodes| {
        assert NodeOf(request, nodes[k], ops[k], EndOf(ops, k, n));
      }
    }
  }

  lemma AddedNodes(program: Program, link: Link, cut: bool, uid: Uid)
    requires program.rows != [] && AddPlugin(program, link, cut, uid).Build?
    ensures var nodes, nodes' := program.nodes, AddPlugin(program, link, cut, uid).program.nodes;
            if link == ColonLink then
              nodes != [] && var m := |nodes| - 1; nodes' == nodes[m := nodes[m].(plugins := nodes[m].plugins + [uid])]
            else nodes' == nodes + [Node([uid], cut)]
  {
  }

  lemma NodesStep(request: seq<Token>, plugins: PluginTable, n: nat, b: Build)
    requires Accepts(request, plugins) && n < |request| && b.Build? && b.program.rows != []
    requires LinkedAt(request, n, b.link) && CutAt(request, n, b.cut) && (n == 0 ==> b.cut)
    requires NodesOf(request, n, b.program.nodes)
    ensures Feed(b, request[n]).Build? ==> NodesOf(request, n + 1, Feed(b, request[n]).program.nodes)
  {
    var next := Feed(b, request[n]);
    if next.Build? {
      if request[n].Plugin? {
        LinkIsPlace(request, plugins, n, b.link);
        AddedNodes(b.program, b.link, b.cut, request[n].uid);
      }
      hide Accepts, NodesOf, AddPlugin, LinkedAt;
      if Operand(request, n) {
        NodesMore(request, n, b.program.nodes, Node([request[n].uid], b.cut));
      } else {
        NodesLonger(request, n, b.program.nodes, next.program.nodes);
      }
    }
  }

  // ---------- heads ----------

  lemma LinkIsOr(request: seq<Token>, plugins: PluginTable, i: nat, link: Link)
    requires Accepts(request, plugins) && i < |request| && LinkedAt(request, i, link) && request[i].Plugin?
    ensures link == OrLink <==> Alternative(request, i)
  {
  }

  lemma AddedHeads(program: Program, link: Link, cut: bool, uid: Uid)
    requires Staircase(program) && program.nodes != [] && link != NoLink
    ensures var b := AddPlugin(program, link, cut, uid);
            && b.Build?
            && forall k: nat :: IsHead(b.program, k) <==> IsHead(program, k) || (link == OrLink && k == |program.nodes|)
  {
    var next := AddPlugin(program, link, cut, uid).program;
    if link == OrLink {
      OrHeads(program, next, |program.nodes|);
    } else {
      SameHeads(program, next);
    }
  }

  lemma HeadsBelow(program: Program, k: nat)
    requires Staircase(program) && IsHead(program, k)
    ensures k < |program.nodes|
  {
    var p :| 0 <= p < |program.rows| && program.rows[p].ids != [] && program.rows[p].ids[0] == k;
    assert RowWithin(program, program.rows[p]);
  }

  lemma FirstHead(program: Program, cut: bool, uid: Uid, k: nat)
    requires program == Program([], [Row([], false)])
    ensures AddPlugin(program, NoLink, cut, uid).Build?
    ensures IsHead(AddPlugin(program, NoLink, cut, uid).program, k) <==> k == 0
  {
    FirstProgram(program, cut, uid);
    hide AddPlugin;
    var next := Program([Node([uid], cut)], [Row([0], false)]);
    assert next.rows[0].ids[0] == 0;
  }

  lemma HeadsFirst(request: seq<Token>, n: nat, cut: bool, program: Program)
    requires n < |request| && Operand(request, n) && Operands(request, n) == []
    requires program == Program([], [Row([], false)])
    ensures var b := AddPlugin(program, NoLink, cut, request[n].uid); b.Build? && HeadsOf(request, n + 1, b.program)
  {
    var b := AddPlugin(program, NoLink, cut, request[n].uid);
    forall k: nat ensures IsHead(b.program, k) <==> k == 0 {
      FirstHead(program, cut, request[n].uid, k);
    }
    assert Operands(request, n + 1) == [n];
  }

  lemma HeadsNext(request: seq<Token>, n: nat, program: Program, link: Link, cut: bool)
    requires Staircase(program) && program.nodes != [] && link != NoLink
    requires n < |request| && request[n].Plugin? && HeadsOf(request, n, program)
    requires |program.nodes| == |Operands(request, n)|
    requires link == ColonLink <==> Attached(request, n)
    requires link == OrLink <==> Alternative(request, n)
    ensures var b := AddPlugin(program, link, cut, request[n].uid); b.Build? && HeadsOf(request, n + 1, b.program)
  {
    AddedHeads(program, link, cut, request[n].uid);
    var ops, next := Operands(request, n), AddPlugin(program, link, cut, request[n].uid).program;
    hide IsHead, Staircase, AddPlugin, Alternative, Attached;
    if Operand(request, n) {
      assert Operands(request, n + 1) == ops + [n];
      forall k: nat
        ensures IsHead(next, k) <==> k < |ops + [n]| && (k == 0 || Alternative(request, (ops + [n])[k]))
      {
      }
    } else {
      assert Operands(request, n + 1) == ops;
    }
  }

  lemma HeadsSame(request: seq<Token>, n: nat, program: Program)
    requires n < |request| && !request[n].Plugin? && HeadsOf(request, n, program)
    ensures HeadsOf(request, n + 1, program)
  {
    assert Operands(request, n + 1) == Operands(request, n);
  }

  lemma NodesCounted(request: seq<Token>, n: nat, nodes: seq<Node>)
    requires n <= |request| && NodesOf(request, n, nodes)
    ensures |nodes| == |Operands(request, n)|
  {
  }

  lemma SomeNode(program: Program)
    requires Staircase(program)
    ensures program.nodes != []
  {
    assert RowWithin(program, program.rows[0]);
  }

  lemma NoOperands(request: seq<Token>, n: nat)
    requires n <= |request| && Blank(request, n)
    ensures Operands(request, n) == []
  {
  }

  lemma HeadsStep(request: seq<Token>, plugins: PluginTable, n: nat, b: Build)
    requires Accepts(request, plugins) && !StartsDetached(request) && n < |request| && b.Build?
    requires b.program.rows != [] && ShapedAt(request, n, b)
    requires NodesOf(request, n, b.program.nodes) && HeadsOf(request, n, b.program)
    ensures Feed(b, request[n]).Build? ==> HeadsOf(request, n + 1, Feed(b, request[n]).program)
  {
    hide Operands, Accepts, AddPlugin, LinkedAt, HeadsOf, NodesOf, Attached, Alternative, Staircase, IsHead;
    if request[n].Plugin? {
      LinkIsPlace(request, plugins, n, b.link);
      LinkIsOr(request, plugins, n, b.link);
      Neighbours(request, plugins, n, b.link);
      if Blank(request, n) {
        NoOperands(request, n);
        HeadsFirst(request, n, b.cut, b.program);
      } else {
        SomeNode(b.program);
        NodesCounted(request, n, b.program.nodes);
        HeadsNext(request, n, b.program, b.link, b.cut);
      }
    } else {
      HeadsSame(request, n, b.program);
    }
  }

  // ---------- essential pipelines ----------

  /** A node behind the newest head is no head. */
  lemma NotHead(program: Program, n: nat)
    requires Staircase(program) && program.rows[|program.rows| - 1].ids[0] < n
    ensures !IsHead(program, n)
  {
    var l := |program.rows| - 1;
    forall p | 0 <= p < |program.rows| ensures program.rows[p].ids[0] < n {
      assert p < l ==> program.rows[p].ids[0] < program.rows[l].ids[0];
    }
  }

  /** The newest pipeline has a single node exactly when its head is the newest node. */
  lemma NewestRow(program: Program)
    requires Staircase(program)
    ensures var last := program.rows[|program.rows| - 1];
            && last.ids != [] && last.ids[0] < |program.nodes|
            && (|last.ids| == 1 <==> last.ids[0] == |program.nodes| - 1)
  {
    var row, newest := program.rows[|program.rows| - 1], |program.nodes| - 1;
    assert RowWithin(program, row) && HeadThenShared(program, row);
    if row.ids[0] < newest {
      NotHead(program, newest);
      assert newest in row.ids;
    }
    if |row.ids| > 1 { assert row.ids[0] < row.ids[1]; }
  }

  lemma EssentialColon(program: Program, cut: bool, uid: Uid)
    requires Staircase(program) && EssentialOf(program) && WellFormed(AddPlugin(program, ColonLink, cut, uid).program)
    ensures EssentialOf(AddPlugin(program, ColonLink, cut, uid).program)
  {
    var next := AddPlugin(program, ColonLink, cut, uid).program;
    var l, m := |program.rows| - 1, |program.nodes| - 1;
    NewestRow(program);
    forall p | 0 <= p < |next.rows| ensures EssentialRow(next, p) {
      assert EssentialRow(program, p) && RowWithin(program, program.rows[p]);
      assert next.rows[p].ids == program.rows[p].ids;
      assert p < l ==> program.rows[p].ids[0] < program.rows[l].ids[0];
    }
  }

  lemma EssentialOther(program: Program, link: Link, cut: bool, uid: Uid)
    requires Staircase(program) && EssentialOf(program) && (link == AndLink || link == OrLink)
    requires WellFormed(AddPlugin(program, link, cut, uid).program)
    ensures EssentialOf(AddPlugin(program, link, cut, uid).program)
  {
    var next := AddPlugin(program, link, cut, uid).program;
    forall p | 0 <= p < |next.rows| ensures EssentialRow(next, p) {
      if p < |program.rows| {
        assert EssentialRow(program, p) && RowWithin(program, program.rows[p]);
        assert next.rows[p].ids[0] == program.rows[p].ids[0];
      }
    }
  }

  lemma EssentialFirst(program: Program, cut: bool, uid: Uid)
    requires program == Program([], [Row([], false)])
    requires WellFormed(AddPlugin(program, NoLink, cut, uid).program)
    ensures EssentialOf(AddPlugin(program, NoLink, cut, uid).program)
  {
    FirstProgram(program, cut, uid);
  }

  lemma EssentialStep(request: seq<Token>, plugins: PluginTable, n: nat, b: Build)
    requires Accepts(request, plugins) && !StartsDetached(request) && n < |request| && b.Build?
    requires b.program.rows != [] && ShapedAt(request, n, b) && WellFormed(b.program) && EssentialOf(b.program)
    requires ShapedAt(request, n + 1, Feed(b, request[n])) && WellFormed(Feed(b, request[n]).program)
    ensures EssentialOf(Feed(b, request[n]).program)
  {
    if request[n].Plugin? {
      Neighbours(request, plugins, n, b.link);
      hide Accepts, AddPlugin, EssentialOf;
      match b.link
      case ColonLink => EssentialColon(b.program, b.cut, request[n].uid);
      case NoLink => EssentialFirst(b.program, b.cut, request[n].uid);
      case _ => EssentialOther(b.program, b.link, b.cut, request[n].uid);
    }
  }

  // ---------- the whole program ----------

  /** The program after n words. */
  ghost predicate ProgramOf(request: seq<Token>, n: nat, b: Build)
    requires n <= |request|
  {
    && b.Build? && WellFormed(b.program) && CutAt(request, n, b.cut) && (n == 0 ==> b.cut)
    && NodesOf(request, n, b.program.nodes) && HeadsOf(request, n, b.program) && EssentialOf(b.program)
  }

  lemma ProgramStart(request: seq<Token>)
    ensures ProgramOf(request, 0, Compiled([]))
  {
    assert !exists k: nat :: IsHead(Compiled([]).program, k);
  }

  lemma ShapedWell(request: seq<Token>, n: nat, b: Build)
    requires n <= |request| && ShapedAt(request, n, b)
    ensures WellFormed(b.program)
  {
  }

  lemma {:induction false} ProgramPrefix(request: seq<Token>, plugins: PluginTable, n: nat)
    requires Accepts(request, plugins) && !StartsDetached(request) && n <= |request|
    ensures ProgramOf(request, n, Compiled(request[..n]))
  {
    hide Accepts, Feed, NodesOf, HeadsOf, EssentialOf, CutAt, ShapedAt, WellFormed;
    if n == 0 {
      assert request[..0] == [];
      ProgramStart(request);
    } else {
      var b := Compiled(request[..n - 1]);
      ProgramPrefix(request, plugins, n - 1);
      UnfoldCompiled(request, n - 1);
      ShapedPrefix(request, plugins, n - 1);
      ShapedPrefix(request, plugins, n);
      ShapedWell(request, n, Compiled(request[..n]));
      ShapedLink(request, n - 1, b);
      ShapedLink(request, n, Compiled(request[..n]));
      CutStep(request, plugins, n - 1, b);
      NodesStep(request, plugins, n - 1, b);
      HeadsStep(request, plugins, n - 1, b);
      EssentialStep(request, plugins, n - 1, b);
    }
  }

  lemma ShapedLink(request: seq<Token>, n: nat, b: Build)
    requires n <= |request| && ShapedAt(request, n, b)
    ensures b.Build? && LinkedAt(request, n, b.link)
  {
  }

  /** The compiled program: one node for each operand, with the plugins attached to it in order, uncut iff the
      operand is marked; the first operand and those behind | head the pipelines; and the essential pipelines are
      those behind the first whose head has something attached. */
  lemma CompiledProgram(request: seq<Token>, plugins: PluginTable)
    requires Accepts(request, plugins) && !StartsDetached(request)
    ensures Compiled(request).Build? && WellFormed(Compiled(request).program)
    ensures var program := Compiled(request).program;
            NodesOf(request, |request|, program.nodes) && HeadsOf(request, |request|, program) && EssentialOf(program)
  {
    hide Compiled, NodesOf, HeadsOf, EssentialOf;
    assert request[..|request|] == request;
    ProgramPrefix(request, plugins, |request|);
  }
}
