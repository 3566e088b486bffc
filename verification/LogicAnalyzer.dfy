/** The compiled expression as objects: nodes shared between pipelines, each with a cursor of its own that
    nextPlugin moves in place (src/LogicAnalyzer.cpp, include/LogicAnalyzer.h). */
module LogicAnalyzer {
  import opened Types
  import opened Expression
  import opened Walk
  import CompilerLaws

  /** What a pipeline or node hands out; the two constants stand for "" and OVI_EOPP. */
  datatype Popped = Nothing | EndOfPipeline | Popped(uid: Uid)

  /** What the evaluator hands out; the constant stands for OVI_EOP. */
  datatype NextPlugin = EndOfPlugins | Run(uid: Uid)

  class PluginNode {
    var plugins: seq<Uid>
    var pos: nat
    var included: bool
    const cut: bool
    ghost const index: nat  // creation order among the nodes of the analyzer

    constructor (id: Uid, cut: bool, ghost index: nat)
      ensures plugins == [id] && pos == 0 && included && this.cut == cut && this.index == index
    {
      this.index := index;
      plugins := [id];
      pos := 0;
      included := true;
      this.cut := cut;
    }

    predicate Fresh()
      reads this
    {
      pos == 0 && included
    }

    method Reset()
      modifies this`pos, this`included
      ensures Fresh()
    {
      pos := 0;
      included := true;
    }

    method Push(plugin: Uid)
      modifies this`plugins
      ensures plugins == old(plugins) + [plugin]
    {
      plugins := plugins + [plugin];
    }

    /** The plugin the node would give next. */
    function Peek(): Popped
      reads this
    {
      if included && pos < |plugins| then Popped(plugins[pos]) else Nothing
    }

    method Pop() returns (r: Popped)
      modifies this`pos
      ensures r == old(Peek())
      ensures pos == old(pos) + if r.Popped? then 1 else 0
    {
      if !included {
        return Nothing;
      }
      if pos >= |plugins| {
        return Nothing;
      }
      pos := pos + 1;
      return Popped(plugins[pos - 1]);
    }

    method Post(result: bool) returns (go: bool)
      modifies this`included
      ensures included == if pos == 1 then result else old(included)
      ensures go == (result || !cut)
    {
      if pos == 1 {
        included := result;
      }
      if !cut {
        return true;
      }
      return result;
    }
  }

  class PluginPipeline {
    var nodes: seq<PluginNode>
    var pos: nat
    var essential: bool
    ghost const index: nat  // position among the pipelines of the analyzer

    constructor (ghost index: nat)
      ensures nodes == [] && pos == 0 && !essential && this.index == index
    {
      this.index := index;
      nodes := [];
      pos := 0;
      essential := false;
    }

    method Reset()
      modifies this`pos, (set n | n in nodes)`pos, (set n | n in nodes)`included
      ensures pos == 0
      ensures forall k :: 0 <= k < |nodes| ==> nodes[k].Fresh()
    {
      pos := 0;
      for k := 0 to |nodes|
        invariant pos == 0
        invariant forall j :: 0 <= j < k ==> nodes[j].Fresh()
      {
        nodes[k].Reset();
      }
    }

    method Push(node: PluginNode)
      modifies this`nodes
      ensures nodes == old(nodes) + [node]
    {
      nodes := nodes + [node];
    }

    /** What the node after the current one would give. */
    function PeekPast(): Popped
      reads this, nodes
    {
      if pos + 1 < |nodes| then nodes[pos + 1].Peek() else EndOfPipeline
    }

    /** Advances within the current node, or to the next node when this one has nothing left. */
    method Pop(go: bool) returns (r: Popped)
      requires pos < |nodes|
      requires pos + 1 < |nodes| ==> nodes[pos] != nodes[pos + 1]
      modifies this`pos, (set n | n in nodes)`pos
      ensures var stay := old(nodes[pos].Peek());
              && r == (if !go then Nothing
                       else if stay.Popped? then stay
                       else old(PeekPast()))
              && pos == old(pos) + if go && stay == Nothing then 1 else 0
      ensures forall n :: n in nodes ==>
                            n.pos == old(n.pos) + if r.Popped? && pos < |nodes| && n == nodes[pos] then 1 else 0
    {
      if !go {
        return Nothing;
      }
      r := nodes[pos].Pop();
      if r.Popped? {
        return;
      }
      pos := pos + 1;
      if pos >= |nodes| {
        return EndOfPipeline;
      }
      r := nodes[pos].Pop();
    }

    method Current() returns (node: PluginNode?)
      ensures node == if pos < |nodes| then nodes[pos] else null
    {
      if pos >= |nodes| {
        return null;
      }
      return nodes[pos];
    }

    /** Mid-walk: the current node is in range and every node ahead is fresh. */
    ghost predicate Ahead()
      reads this, nodes
    {
      && pos < |nodes|
      && nodes[pos].pos <= |nodes[pos].plugins|
      && forall k :: pos < k < |nodes| ==> nodes[k].Fresh()
    }

    /** The walk at column col, taken plugins into a node that may still be open. */
    ghost predicate StandsAt(col: nat, taken: nat, open: bool)
      reads this, nodes
    {
      Ahead() && pos == col && nodes[pos].pos == taken && nodes[pos].included == open
    }

    /** The nodes as values. */
    ghost predicate Carries(row: seq<Node>)
      reads this`nodes, (set n | n in nodes)`plugins
    {
      && |row| == |nodes|
      && (forall k :: 0 <= k < |nodes| ==> nodes[k].plugins == row[k].plugins && nodes[k].cut == row[k].cut)
      && (forall k :: 0 <= k < |row| ==> row[k].plugins != [])
    }

    /** Feeds a result to the current node and moves on. Because the nodes ahead are fresh, the next node
        always has a plugin to give. */
    method Feed(result: bool, ghost row: seq<Node>) returns (go: bool, popped: Popped)
      requires Ahead() && Carries(row)
      requires forall j, k :: 0 <= j < k < |nodes| ==> nodes[j] != nodes[k]
      modifies this`pos, (set n | n in nodes)`pos, (set n | n in nodes)`included
      ensures match RowNext(row, old(pos), old(nodes[pos].pos), old(nodes[pos].included), result)
              case Inside(col, taken, open, uid) => go && popped == Popped(uid) && StandsAt(col, taken, open)
              case Fails => !go && popped == Nothing
              case Passes => go && popped == EndOfPipeline
    {
      var currentNode := Current();
      go := currentNode.Post(result);
      popped := Pop(go);
    }

    method SetEssential()
      modifies this`essential
      ensures essential == (old(essential) || |nodes| == 1)
    {
      if nodes == [] {
        return;
      }
      if |nodes| != 1 {
        return;
      }
      essential := true;
    }
  }

  class LogicAnalyzer {
    var expression: seq<Token>
    var pipelines: seq<PluginPipeline>
    var pos: nat
    var included: bool

    /** All nodes in creation order, and the program they stand for. */
    ghost var nodes: seq<PluginNode>
    ghost var program: Program
    ghost var Repr: set<object>

    static ghost predicate Mirrors(pipeline: PluginPipeline, row: Row, nodes: seq<PluginNode>)
      reads pipeline`nodes, pipeline`essential
    {
      && pipeline.essential == row.essential
      && |pipeline.nodes| == |row.ids|
      && forall k :: 0 <= k < |row.ids| ==> row.ids[k] < |nodes| && pipeline.nodes[k] == nodes[row.ids[k]]
    }

    static ghost predicate Stands(node: PluginNode, spec: Node)
      reads node`plugins
    {
      node.plugins == spec.plugins && node.cut == spec.cut
    }

    static ghost predicate NodesMatch(nodes: seq<PluginNode>, specs: seq<Node>)
      reads (set n | n in nodes)`plugins
    {
      && |nodes| == |specs|
      && (forall n :: 0 <= n < |nodes| ==> nodes[n].index == n && Stands(nodes[n], specs[n]))
    }

    static ghost predicate RowsMatch(pipelines: seq<PluginPipeline>, rows: seq<Row>, nodes: seq<PluginNode>)
      reads (set p | p in pipelines)`nodes, (set p | p in pipelines)`essential
    {
      && |pipelines| == |rows|
      && (forall p :: 0 <= p < |pipelines| ==> pipelines[p].index == p && Mirrors(pipelines[p], rows[p], nodes))
    }

    /** The objects have exactly the sharing the program describes. Cursors play no part in it. */
    ghost predicate Shape()
      reads this`nodes, this`pipelines, this`program, this`Repr
      reads (set n | n in nodes)`plugins, (set p | p in pipelines)`nodes, (set p | p in pipelines)`essential
    {
      && (forall n :: n in nodes ==> n in Repr) && (forall p :: p in pipelines ==> p in Repr)
      && NodesMatch(nodes, program.nodes)
      && RowsMatch(pipelines, program.rows, nodes)
      && WellFormed(program)
    }

    /** Mid-run: the cursors are in range, and every node ahead in the current pipeline is fresh although
        nodes are shared with pipelines already walked. */
    ghost predicate Standing()
      reads this, pipelines, nodes
    {
      && Shape() && Runnable(program)
      && pos < |pipelines|
      && pipelines[pos].Ahead()
    }

    /** The one-cursor view of the evaluator. */
    ghost function Position(): Cursor
      requires Standing()
      reads this, pipelines, nodes
    {
      var pipeline := pipelines[pos];
      var node := pipeline.nodes[pipeline.pos];
      Cursor(pos, pipeline.pos, node.pos, node.included)
    }

    ghost predicate Running()
      reads this, pipelines, nodes
    {
      Standing() && InRange(program, Position())
    }

    constructor (expression: seq<Token>)
      requires Compiled(expression).Build?
      ensures this.expression == expression
      ensures program == Compiled(expression).program
      ensures Shape()
      ensures fresh(Repr)
      ensures Runnable(program) ==> Running() && Position() == FRESH
    {
      this.expression := expression;
      pipelines, nodes, Repr := [], [], {};
      pos, included := 0, false;
      program := Program([], []);
      new;
      RunAnalysis(expression);
    }

    method Reset()
      requires Shape()
      modifies this`pos
      modifies (set p | p in pipelines)`pos, (set n | n in nodes)`pos, (set n | n in nodes)`included
      ensures Shape()
      ensures Runnable(program) ==> Running() && Position() == FRESH
    {
      hide WellFormed, InRange, Standing;
      pos := 0;
      for p := 0 to |pipelines|
        invariant Shape() && pos == 0
        invariant forall q :: 0 <= q < p ==> Rewound(pipelines[q])
      {
        MembersOwned(p);
        pipelines[p].Reset();
      }
      if Runnable(program) {
        SomePipeline();
        StandsFresh();
      }
    }

    lemma SomePipeline()
      requires Shape()
      ensures |pipelines| > 0
    {
    }

    lemma StandsFresh()
      requires Shape() && Runnable(program) && pos == 0 && Rewound(pipelines[0])
      ensures Running() && Position() == FRESH
    {
      MembersOwned(0);
      EnterStep(program, 0);
    }

    static ghost predicate Rewound(pipeline: PluginPipeline)
      reads pipeline, pipeline.nodes
    {
      pipeline.pos == 0 && forall k :: 0 <= k < |pipeline.nodes| ==> pipeline.nodes[k].Fresh()
    }

    lemma MembersOwned(p: nat)
      requires Shape() && p < |pipelines|
      ensures Mirrors(pipelines[p], program.rows[p], nodes)
      ensures forall n :: n in pipelines[p].nodes ==> n in nodes
    {
      assert Mirrors(pipelines[p], program.rows[p], nodes);
    }

    /** Adds one node object to every pipeline. */
    method PushToAll(node: PluginNode)
      requires forall p :: 0 <= p < |pipelines| ==> pipelines[p].index == p
      modifies pipelines
      ensures forall p :: 0 <= p < |pipelines| ==>
                            && pipelines[p].nodes == old(pipelines[p].nodes) + [node]
                            && pipelines[p].essential == old(pipelines[p].essential)
    {
      for k := 0 to |pipelines|
        invariant forall p :: 0 <= p < k ==> pipelines[p].nodes == old(pipelines[p].nodes) + [node]
        invariant forall p :: k <= p < |pipelines| ==> pipelines[p].nodes == old(pipelines[p].nodes)
        invariant forall p :: 0 <= p < |pipelines| ==> pipelines[p].essential == old(pipelines[p].essential)
      {
        pipelines[k].Push(node);
      }
    }

    /** An operand behind &: one node object, pushed to every pipeline. */
    method JoinAll(uid: Uid, cut: bool) returns (node: PluginNode)
      requires Shape()
      modifies this`nodes, this`program, this`Repr, pipelines
      ensures Shape() && program == AddPlugin(old(program), AndLink, cut, uid).program
      ensures fresh(node) && nodes == old(nodes) + [node] && pipelines == old(pipelines) && Repr == old(Repr) + {node}
    {
      CompilerLaws.AddPluginWellFormed(program, AndLink, cut, uid);
      node := new PluginNode(uid, cut, |nodes|);
      label Made:
      PushToAll(node);
      nodes := nodes + [node];
      Repr := Repr + {node};
      program := AddPlugin(program, AndLink, cut, uid).program;
      forall p | 0 <= p < |pipelines| ensures Mirrors(pipelines[p], program.rows[p], nodes) {
        assert old@Made(Mirrors(pipelines[p], program.rows[p], nodes));
      }
    }

    /** An operand behind |: a pipeline of its own. */
    method StartPipeline(uid: Uid, cut: bool) returns (pipeline: PluginPipeline, node: PluginNode)
      requires Shape()
      modifies this`nodes, this`program, this`Repr, this`pipelines
      ensures Shape() && program == AddPlugin(old(program), OrLink, cut, uid).program
      ensures fresh(node) && nodes == old(nodes) + [node]
      ensures fresh(pipeline) && pipelines == old(pipelines) + [pipeline] && Repr == old(Repr) + {pipeline, node}
    {
      CompilerLaws.AddPluginWellFormed(program, OrLink, cut, uid);
      pipeline := new PluginPipeline(|pipelines|);
      pipelines := pipelines + [pipeline];
      node := new PluginNode(uid, cut, |nodes|);
      pipeline.Push(node);
      nodes := nodes + [node];
      Repr := Repr + {pipeline, node};
      program := AddPlugin(program, OrLink, cut, uid).program;
      forall p | 0 <= p < |pipelines| ensures Mirrors(pipelines[p], program.rows[p], nodes) {
        if p < |old(pipelines)| {
          assert old(Mirrors(pipelines[p], program.rows[p], nodes));
        }
      }
    }

    /** A plugin behind `:`: attached to the newest node, which may make the newest pipeline essential. */
    method AttachTo(node: PluginNode, pipeline: PluginPipeline, uid: Uid, cut: bool)
      requires Shape() && nodes != [] && node == nodes[|nodes| - 1]
      requires pipelines != [] && pipeline == pipelines[|pipelines| - 1]
      modifies this`program, node`plugins, pipeline`essential
      ensures Shape()
      ensures AddPlugin(old(program), ColonLink, cut, uid).Build?
      ensures program == AddPlugin(old(program), ColonLink, cut, uid).program
      ensures nodes == old(nodes) && pipelines == old(pipelines) && Repr == old(Repr)
    {
      CompilerLaws.AddPluginWellFormed(program, ColonLink, cut, uid);
      node.Push(uid);
      if |pipelines| > 1 {
        pipeline.SetEssential();
      }
      program := AddPlugin(program, ColonLink, cut, uid).program;
      forall p | 0 <= p < |pipelines| ensures Mirrors(pipelines[p], program.rows[p], nodes) {
        assert old(Mirrors(pipelines[p], program.rows[p], nodes));
      }
      forall n | 0 <= n < |nodes| ensures Stands(nodes[n], program.nodes[n]) {
        assert old(Stands(nodes[n], program.nodes[n]));
      }
    }

    /** The first operand: it goes to the newest pipeline only. */
    method JoinLast(pipeline: PluginPipeline, uid: Uid, cut: bool) returns (node: PluginNode)
      requires Shape()
      requires pipelines != [] && pipeline == pipelines[|pipelines| - 1]
      modifies this`nodes, this`program, this`Repr, pipeline`nodes
      ensures Shape() && program == AddPlugin(old(program), NoLink, cut, uid).program
      ensures fresh(node) && nodes == old(nodes) + [node] && pipelines == old(pipelines) && Repr == old(Repr) + {node}
    {
      CompilerLaws.AddPluginWellFormed(program, NoLink, cut, uid);
      node := new PluginNode(uid, cut, |nodes|);
      pipeline.Push(node);
      nodes := nodes + [node];
      Repr := Repr + {node};
      program := AddPlugin(program, NoLink, cut, uid).program;
      forall p | 0 <= p < |pipelines| ensures Mirrors(pipelines[p], program.rows[p], nodes) {
        assert old(Mirrors(pipelines[p], program.rows[p], nodes));
      }
    }

    ghost function NewestNode(): PluginNode?
      reads this`nodes
    {
      if nodes == [] then null else nodes[|nodes| - 1]
    }

    ghost function NewestPipeline(): PluginPipeline
      requires pipelines != []
      reads this`pipelines
    {
      pipelines[|pipelines| - 1]
    }

    /** One plugin of the expression, by the operator in front of it. */
    method AddOperand(link: Link, pipeline: PluginPipeline, pluginNode: PluginNode?, uid: Uid, cut: bool)
      returns (pipeline': PluginPipeline, pluginNode': PluginNode)
      requires Shape()
      requires pipelines != [] && pipeline == NewestPipeline()
      requires pluginNode == NewestNode()
      requires AddPlugin(program, link, cut, uid).Build?
      modifies this`nodes, this`program, this`pipelines, this`Repr, Repr
      ensures Shape() && program == AddPlugin(old(program), link, cut, uid).program
      ensures fresh(Repr - old(Repr))
      ensures pipelines != [] && pipeline' == NewestPipeline()
      ensures pluginNode' == NewestNode()
    {
      pipeline' := pipeline;
      match link {
        case AndLink =>
          pluginNode' := JoinAll(uid, cut);
        case OrLink =>
          pipeline', pluginNode' := StartPipeline(uid, cut);
        case ColonLink =>
          pluginNode' := pluginNode;
          AttachTo(pluginNode', pipeline, uid, cut);
        case NoLink =>
          pluginNode' := JoinLast(pipeline, uid, cut);
      }
    }

    /** Compiles the expression; the node objects end up shared exactly as the program says. */
    method RunAnalysis(expression: seq<Token>)
      requires Compiled(expression).Build?
      requires pipelines == [] && nodes == [] && Repr == {}
      modifies this
      ensures this.expression == old(this.expression)
      ensures program == Compiled(expression).program
      ensures Shape()
      ensures fresh(Repr)
      ensures Runnable(program) ==> Running() && Position() == FRESH
    {
      BuildPipelines(expression);
      Reset();
    }

    /** One pipeline with no nodes. */
    method Begin() returns (pipeline: PluginPipeline)
      requires pipelines == [] && nodes == [] && Repr == {}
      modifies this`pipelines, this`program, this`Repr
      ensures Shape() && program == Program([], [Row([], false)])
      ensures fresh(pipeline) && pipelines == [pipeline] && Repr == {pipeline}
    {
      pipeline := new PluginPipeline(|pipelines|);
      pipelines := pipelines + [pipeline];
      Repr := Repr + {pipeline};
      program := Program([], [Row([], false)]);
    }

    method BuildPipelines(expression: seq<Token>)
      requires Compiled(expression).Build?
      requires pipelines == [] && nodes == [] && Repr == {}
      modifies this`pipelines, this`nodes, this`program, this`Repr
      ensures Shape() && program == Compiled(expression).program
      ensures fresh(Repr)
    {
      var cut := true;
      var link := NoLink;
      var pluginNode: PluginNode? := null;
      var pipeline := Begin();
      assert expression[..0] == [];
      for i := 0 to |expression|
        invariant Compiled(expression[..i]) == Build(program, link, cut)
        invariant Shape()
        invariant fresh(Repr)
        invariant pipelines != [] && pipeline == NewestPipeline()
        invariant pluginNode == NewestNode()
      {
        var str := expression[i];
        if str == Uncut {
          CompilerLaws.FeedMark(expression, i, program, link, cut);
          cut := false;
          continue;
        }
        if IsLogicalOperator(str) {
          CompilerLaws.FeedMark(expression, i, program, link, cut);
          link := LinkOf(str);
          continue;
        }
        CompilerLaws.FeedOperand(expression, i, program, link, cut);
        pipeline, pluginNode := AddOperand(link, pipeline, pluginNode, str.uid, cut);
        link := NoLink;
        cut := true;
      }
      assert expression[..|expression|] == expression;
    }

    /** A pipeline holds no node twice. */
    lemma NoRepeats(p: nat)
      requires Shape() && p < |pipelines|
      ensures forall j, k :: 0 <= j < k < |pipelines[p].nodes| ==> pipelines[p].nodes[j] != pipelines[p].nodes[k]
    {
      assert Mirrors(pipelines[p], program.rows[p], nodes);
      assert RowWithin(program, program.rows[p]);
    }

    /** The evaluator and its answer agree with a step of the one-cursor machine. */
    ghost predicate Took(step: Step, next: NextPlugin)
      reads this, pipelines, nodes
    {
      match step
      case Visit(w, uid) => next == Run(uid) && Running() && Position() == w && included
      case Finish(verdict) => next == EndOfPlugins && Shape() && included == verdict
    }

    /** One call of the evaluator: exactly one step of the one-cursor machine. */
    method NextPlugin(result: bool) returns (next: NextPlugin)
      requires Running()
      modifies this`pos, this`included
      modifies (set p | p in pipelines)`pos, (set n | n in nodes)`pos, (set n | n in nodes)`included
      ensures Took(Next(program, old(Position()), result), next)
      decreases |pipelines| - pos, 1
    {
      RowCarried(pos);
      var popped := Advance(result);
      match popped {
        case EndOfPipeline => next := MoveOn(true);
        case Nothing => next := MoveOn(false);
        case Popped(uid) => next := Run(uid);
      }
    }

    /** Leaves the current pipeline for the next one, or after a success for the next essential one. */
    method MoveOn(pass: bool) returns (next: NextPlugin)
      requires Shape() && Runnable(program) && pos < |pipelines| && included == pass
      modifies this`pos, this`included
      modifies (set p | p in pipelines)`pos, (set n | n in nodes)`pos, (set n | n in nodes)`included
      ensures Took(Leave(program, old(pos), pass), next)
      decreases |pipelines| - pos, 0
    {
      pos := FollowingPipeline(pass);
      if pos >= |pipelines| {
        return EndOfPlugins;
      }
      next := Enter();
    }

    /** Feeds the result to the current pipeline. */
    method Advance(result: bool) returns (popped: Popped)
      requires Running()
      modifies this`included
      modifies (set p | p in pipelines)`pos, (set n | n in nodes)`pos, (set n | n in nodes)`included
      ensures Shape() && pos < |pipelines|
      ensures var w := old(Position());
              match RowNext(RowNodes(program, w.row), w.col, w.taken, w.open, result)
              case Inside(col, taken, open, uid) =>
                popped == Popped(uid) && included && pipelines[pos].StandsAt(col, taken, open)
              case Fails => popped == Nothing && !included
              case Passes => popped == EndOfPipeline && included
    {
      hide RowNext, WellFormed, InRange;
      MembersOwned(pos);
      NoRepeats(pos);
      RowCarried(pos);
      included, popped := pipelines[pos].Feed(result, RowNodes(program, pos));
    }

    lemma RowCarried(p: nat)
      requires Shape() && p < |pipelines| && Runnable(program)
      ensures pipelines[p].Carries(RowNodes(program, p))
    {
      assert Mirrors(pipelines[p], program.rows[p], nodes);
      assert RowWithin(program, program.rows[p]);
    }

    /** The next pipeline, or after a success the next essential one. */
    method FollowingPipeline(pass: bool) returns (q: nat)
      requires Shape() && pos < |pipelines|
      ensures q == NextRow(program.rows, pos, pass)
    {
      q := pos + 1;
      if !pass {
        return;
      }
      while q < |pipelines|
        invariant pos < q <= |pipelines|
        invariant NextEssential(program.rows, pos + 1) == NextEssential(program.rows, q)
      {
        assert Mirrors(pipelines[q], program.rows[q], nodes);
        if pipelines[q].essential {
          break;
        }
        q := q + 1;
      }
    }

    /** Rewinds the pipeline just reached and takes its first plugin; this call goes no deeper. */
    method Enter() returns (next: NextPlugin)
      requires Shape() && Runnable(program) && pos < |pipelines|
      modifies this`pos, this`included
      modifies (set p | p in pipelines)`pos, (set n | n in nodes)`pos, (set n | n in nodes)`included
      ensures Running() && included
      ensures Position() == Cursor(old(pos), 0, 1, true) && next == Run(NodeAt(program, old(pos), 0).plugins[0])
      decreases |pipelines| - pos, 2
    {
      MembersOwned(pos);
      pipelines[pos].Reset();
      EnterStep(program, pos);
      assert Standing() && Position() == Cursor(pos, 0, 0, true);
      next := NextPlugin(true);
    }
  }
}
