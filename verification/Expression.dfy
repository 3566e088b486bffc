/** What compiling a link expression means: the node table, the pipelines over it, and the boolean value
    of the expression read from left to right (src/LogicAnalyzer.cpp, runAnalysis). */
module Expression {
  import opened Types

  /** The operator waiting for the next plugin. */
  datatype Link = NoLink | AndLink | OrLink | ColonLink

  /** A compiled operand: its head plugin, the plugins attached to it, and whether a false head cuts. */
  datatype Node = Node(plugins: seq<Uid>, cut: bool)

  /** A pipeline: the nodes it walks, named by creation index so that sharing is visible. */
  datatype Row = Row(ids: seq<nat>, essential: bool)

  datatype Program = Program(nodes: seq<Node>, rows: seq<Row>)

  /** The compiler's state between two tokens; NullPush is the push on a node that was never created. */
  datatype Build = Build(program: Program, link: Link, cut: bool) | NullPush

  function LinkOf(t: Token): Link {
    match t
    case And => AndLink
    case Or => OrLink
    case Colon => ColonLink
    case _ => NoLink
  }

  function AppendToRow(row: Row, id: nat): Row {
    row.(ids := row.ids + [id])
  }

  function AppendToAll(rows: seq<Row>, id: nat): (r: seq<Row>)
    ensures |r| == |rows|
    ensures forall p :: 0 <= p < |r| ==> r[p] == AppendToRow(rows[p], id)
  {
    if rows == [] then [] else AppendToAll(rows[..|rows| - 1], id) + [AppendToRow(rows[|rows| - 1], id)]
  }

  /** A pipeline becomes essential when a plugin is attached to it while it has exactly one node. */
  function MarkEssential(row: Row): Row {
    if |row.ids| == 1 then row.(essential := true) else row
  }

  function AddPlugin(program: Program, link: Link, cut: bool, uid: Uid): Build
    requires program.rows != []
  {
    var Program(nodes, rows) := program;
    var id, node, last := |nodes|, Node([uid], cut), |rows| - 1;
    match link
    case AndLink => Build(Program(nodes + [node], AppendToAll(rows, id)), NoLink, true)
    case OrLink => Build(Program(nodes + [node], rows + [Row([id], false)]), NoLink, true)
    case NoLink => Build(Program(nodes + [node], rows[last := AppendToRow(rows[last], id)]), NoLink, true)
    case ColonLink =>
      if nodes == [] then NullPush
      else
        var owner := nodes[id - 1];
        Build(Program(nodes[id - 1 := owner.(plugins := owner.plugins + [uid])],
                      if |rows| > 1 then rows[last := MarkEssential(rows[last])] else rows),
              NoLink, true)
  }

  function Feed(b: Build, t: Token): Build
    requires b.Build? ==> b.program.rows != []
  {
    if b.NullPush? then NullPush
    else
      match t
      case Uncut => b.(cut := false)
      case Plugin(uid) => AddPlugin(b.program, b.link, b.cut, uid)
      case _ => b.(link := LinkOf(t))
  }

  function Compiled(tokens: seq<Token>): (b: Build)
    ensures b.Build? ==> b.program.rows != []
  {
    if tokens == [] then Build(Program([], [Row([], false)]), NoLink, true)
    else Feed(Compiled(tokens[..|tokens| - 1]), tokens[|tokens| - 1])
  }

  // ---------- the value of an expression ----------

  /** A truth assignment to the head plugins. */
  type Valuation = Uid -> bool

  /** An operand marked uncut counts as true. */
  predicate Value(node: Node, val: Valuation)
    requires node.plugins != []
  {
    val(node.plugins[0]) || !node.cut
  }

  /** Left-to-right evaluation of the tokens themselves, without nodes or pipelines. */
  datatype Fold = Fold(acc: bool, link: Link, cut: bool)

  function FoldStep(f: Fold, t: Token, val: Valuation): Fold {
    match t
    case Uncut => f.(cut := false)
    case Plugin(uid) =>
      var v := val(uid) || !f.cut;
      Fold(match f.link
           case AndLink => f.acc && v
           case OrLink => f.acc || v
           case ColonLink => f.acc
           case NoLink => v,
           NoLink, true)
    case _ => f.(link := LinkOf(t))
  }

  function FoldAll(tokens: seq<Token>, val: Valuation): Fold {
    if tokens == [] then Fold(false, NoLink, true)
    else FoldStep(FoldAll(tokens[..|tokens| - 1], val), tokens[|tokens| - 1], val)
  }

  /** The value of a link expression: & and | apply from left to right, attachments do not count. */
  predicate Meaning(tokens: seq<Token>, val: Valuation) {
    FoldAll(tokens, val).acc
  }

  // ---------- well-formed programs and their closed form ----------

  ghost predicate Increasing(ids: seq<nat>) {
    forall i, j :: 0 <= i < j < |ids| ==> ids[i] < ids[j]
  }

  /** Every pipeline names existing nodes, each at most once, and every node has a head. */
  ghost predicate WellFormed(program: Program) {
    && program.rows != []
    && (forall n :: 0 <= n < |program.nodes| ==> program.nodes[n].plugins != [])
    && (forall p :: 0 <= p < |program.rows| ==> RowWithin(program, program.rows[p]))
  }

  ghost predicate RowWithin(program: Program, row: Row) {
    && Increasing(row.ids)
    && forall k :: 0 <= k < |row.ids| ==> row.ids[k] < |program.nodes|
  }

  /** A program whose pipelines all have a first node; what nextPlugin needs. */
  ghost predicate Runnable(program: Program) {
    && WellFormed(program)
    && forall p :: 0 <= p < |program.rows| ==> program.rows[p].ids != []
  }

  ghost predicate IsHead(program: Program, n: nat) {
    exists p :: 0 <= p < |program.rows| && program.rows[p].ids != [] && program.rows[p].ids[0] == n
  }

  /** The closed form: heads come in order starting with node 0, and a pipeline is its own head followed by
      all later nodes that head no pipeline, in creation order. */
  ghost predicate Staircase(program: Program) {
    && Runnable(program)
    && program.rows[0].ids[0] == 0
    && (forall p, q :: 0 <= p < q < |program.rows| ==> program.rows[p].ids[0] < program.rows[q].ids[0])
    && (forall p :: 0 <= p < |program.rows| ==> HeadThenShared(program, program.rows[p]))
  }

  ghost predicate HeadThenShared(program: Program, row: Row)
    requires row.ids != []
  {
    forall n: nat :: n < |program.nodes| ==>
                       (n in row.ids <==> n == row.ids[0] || (n > row.ids[0] && !IsHead(program, n)))
  }

  /** All operands of pipeline p hold. */
  ghost predicate RowTrue(program: Program, p: nat, val: Valuation)
    requires WellFormed(program) && p < |program.rows|
  {
    forall n :: n in program.rows[p].ids ==> Value(program.nodes[n], val)
  }

  /** Some pipeline has all its operands true. */
  ghost predicate SomeRowTrue(program: Program, val: Valuation)
    requires WellFormed(program)
  {
    exists p :: 0 <= p < |program.rows| && RowTrue(program, p, val)
  }

  // ---------- loaded plugins ----------

  /** Every plugin of the node is in the table. */
  ghost predicate LoadedNode(plugins: PluginTable, node: Node) {
    forall uid :: uid in node.plugins ==> uid in plugins
  }

  ghost predicate LoadedProgram(plugins: PluginTable, program: Program) {
    forall n :: 0 <= n < |program.nodes| ==> LoadedNode(plugins, program.nodes[n])
  }
}
