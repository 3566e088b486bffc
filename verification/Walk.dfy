/** The evaluator as a machine with one cursor, and as a recursion over pipelines, nodes and plugins.
    The objects of LogicAnalyzer.dfy behave like the one-cursor machine. */
module Walk {
  import opened Types
  import opened Expression

  /** Where a run stands: pipeline, node within it, plugins already taken from the node, and whether the
      node may still give its attached plugins. */
  datatype Cursor = Cursor(row: nat, col: nat, taken: nat, open: bool)

  /** One answer of the evaluator: the next plugin to run, or the end with the verdict. */
  datatype Step = Visit(cursor: Cursor, uid: Uid) | Finish(included: bool)

  const FRESH := Cursor(0, 0, 0, true)

  function NodeAt(program: Program, row: nat, col: nat): (node: Node)
    requires Runnable(program) && row < |program.rows| && col < |program.rows[row].ids|
    ensures node.plugins != []
  {
    assert RowWithin(program, program.rows[row]);
    program.nodes[program.rows[row].ids[col]]
  }

  ghost predicate InRange(program: Program, w: Cursor) {
    && Runnable(program)
    && w.row < |program.rows| && w.col < |program.rows[w.row].ids|
    && w.taken <= |NodeAt(program, w.row, w.col).plugins|
  }

  /** The first essential pipeline from p on, or the number of pipelines. */
  function NextEssential(rows: seq<Row>, p: nat): (q: nat)
    requires p <= |rows|
    ensures p <= q <= |rows|
    ensures q < |rows| ==> rows[q].essential
    ensures forall k :: p <= k < q ==> !rows[k].essential
    decreases |rows| - p
  {
    if p == |rows| || rows[p].essential then p else NextEssential(rows, p + 1)
  }

  /** The pipeline entered after pipeline p: the next one after a failure, the next essential one after a success. */
  function NextRow(rows: seq<Row>, p: nat, pass: bool): (q: nat)
    requires p < |rows|
    ensures p < q <= |rows|
  {
    if pass then NextEssential(rows, p + 1) else p + 1
  }

  function Leave(program: Program, p: nat, pass: bool): Step
    requires Runnable(program) && p < |program.rows|
  {
    var q := NextRow(program.rows, p, pass);
    if q < |program.rows| then Visit(Cursor(q, 0, 1, true), NodeAt(program, q, 0).plugins[0]) else Finish(pass)
  }

  /** What a pipeline does with a result: hand out a plugin and stand elsewhere, fail, or end well. */
  datatype RowStep = Inside(col: nat, taken: nat, open: bool, uid: Uid) | Fails | Passes

  function RowNext(row: seq<Node>, col: nat, taken: nat, open: bool, detect: bool): RowStep
    requires col < |row| && taken <= |row[col].plugins|
    requires forall k :: 0 <= k < |row| ==> row[k].plugins != []
  {
    var node := row[col];
    var open' := if taken == 1 then detect else open;
    if node.cut && !detect then Fails
    else if open' && taken < |node.plugins| then Inside(col, taken + 1, open', node.plugins[taken])
    else if col + 1 < |row| then Inside(col + 1, 1, true, row[col + 1].plugins[0])
    else Passes
  }

  function RowNodes(program: Program, p: nat): (row: seq<Node>)
    requires Runnable(program) && p < |program.rows|
    ensures |row| == |program.rows[p].ids|
    ensures forall k :: 0 <= k < |row| ==> row[k] == NodeAt(program, p, k) && row[k].plugins != []
  {
    seq(|program.rows[p].ids|, k requires 0 <= k < |program.rows[p].ids| => NodeAt(program, p, k))
  }

  /** One step of the machine: within the pipeline, or on to the next one to enter. */
  function Next(program: Program, w: Cursor, detect: bool): Step
    requires InRange(program, w)
  {
    match RowNext(RowNodes(program, w.row), w.col, w.taken, w.open, detect)
    case Inside(col, taken, open, uid) => Visit(Cursor(w.row, col, taken, open), uid)
    case Fails => Leave(program, w.row, false)
    case Passes => Leave(program, w.row, true)
  }

  /** The step, node by node. */
  lemma NextCases(program: Program, w: Cursor, detect: bool)
    requires InRange(program, w)
    ensures var node := NodeAt(program, w.row, w.col);
            var open := if w.taken == 1 then detect else w.open;
            Next(program, w, detect)
            == if node.cut && !detect then Leave(program, w.row, false)
               else if open && w.taken < |node.plugins| then
                 Visit(Cursor(w.row, w.col, w.taken + 1, open), node.plugins[w.taken])
               else if w.col + 1 < |program.rows[w.row].ids| then
                 Visit(Cursor(w.row, w.col + 1, 1, true), NodeAt(program, w.row, w.col + 1).plugins[0])
               else Leave(program, w.row, true)
  {
  }

  /** A rewound pipeline always hands out its head, so entering one never moves on to another. */
  lemma EnterStep(program: Program, p: nat)
    requires Runnable(program) && p < |program.rows|
    ensures InRange(program, Cursor(p, 0, 0, true))
    ensures Next(program, Cursor(p, 0, 0, true), true) == Visit(Cursor(p, 0, 1, true), NodeAt(program, p, 0).plugins[0])
  {
    NextCases(program, Cursor(p, 0, 0, true), true);
  }

  // ---------- progress ----------

  /** Slots of pipeline p from node k on. */
  ghost function RowSlots(program: Program, p: nat, k: nat): nat
    requires Runnable(program) && p < |program.rows| && k <= |program.rows[p].ids|
    decreases |program.rows[p].ids| - k
  {
    if k == |program.rows[p].ids| then 0 else |NodeAt(program, p, k).plugins| + RowSlots(program, p, k + 1)
  }

  /** Slots of all pipelines from p on; a shared node counts once for each pipeline. */
  ghost function Slots(program: Program, p: nat): nat
    requires Runnable(program) && p <= |program.rows|
    decreases |program.rows| - p
  {
    if p == |program.rows| then 0 else RowSlots(program, p, 0) + Slots(program, p + 1)
  }

  /** Slots strictly ahead of the cursor. */
  ghost function Remaining(program: Program, w: Cursor): nat
    requires InRange(program, w)
  {
    |NodeAt(program, w.row, w.col).plugins| - w.taken + RowSlots(program, w.row, w.col + 1) + Slots(program, w.row + 1)
  }

  ghost predicate Before(v: Cursor, w: Cursor) {
    v.row < w.row || (v.row == w.row && (v.col < w.col || (v.col == w.col && v.taken < w.taken)))
  }

  lemma {:induction false} SlotsFrom(program: Program, p: nat, q: nat)
    requires Runnable(program) && p <= q < |program.rows|
    ensures Slots(program, p) >= RowSlots(program, q, 0) + Slots(program, q + 1)
    decreases q - p
  {
    if p < q { SlotsFrom(program, p + 1, q); }
  }

  /** Every plugin handed out lies strictly after the cursor, at a slot of the program, and uses up at least
      one of the remaining slots. */
  lemma Progress(program: Program, w: Cursor, detect: bool)
    requires InRange(program, w)
    ensures var s := Next(program, w, detect);
            s.Visit? ==>
              && InRange(program, s.cursor) && s.cursor.taken >= 1
              && s.uid == NodeAt(program, s.cursor.row, s.cursor.col).plugins[s.cursor.taken - 1]
              && Before(w, s.cursor)
              && Remaining(program, s.cursor) < Remaining(program, w)
  {
    hide Next;
    NextCases(program, w, detect);
    var s := Next(program, w, detect);
    if s.Visit? && s.cursor.row > w.row {
      SlotsFrom(program, w.row + 1, s.cursor.row);
    }
  }

  // ---------- one frame ----------

  /** What the driver knows about a frame: plugin kinds and the reply each detector gives. */
  datatype Env = Env(plugins: PluginTable, reply: Uid -> Reply)

  /** The latest detector outcome and the effects attached so far. */
  datatype Context = Context(current: Outcome, detected: DetectedData)

  const BLANK := Context(Outcome(true, []), map[])

  datatype Asked = Known(context: Context) | Failed(error: int)

  /** Running one plugin: an effect takes the details of the latest detector, a detector is asked. */
  function Ask(env: Env, uid: Uid, c: Context): Asked {
    if IsEffect(env.plugins, uid) then Known(c.(detected := c.detected[uid := c.current.list]))
    else
      match env.reply(uid)
      case Answer(o) => Known(c.(current := o))
      case Raised(error) => Failed(error)
  }

  datatype FrameResult = Decided(included: bool, detected: DetectedData) | Aborted(error: int)

  /** Alternating between the one-cursor machine and the plugins, with no memory of earlier outcomes. */
  ghost function Resume(env: Env, program: Program, w: Cursor, c: Context): FrameResult
    requires InRange(program, w)
    decreases Remaining(program, w)
  {
    Progress(program, w, c.current.detect);
    match Next(program, w, c.current.detect)
    case Finish(included) => Decided(included, c.detected)
    case Visit(w', uid) =>
      match Ask(env, uid, c)
      case Failed(error) => Aborted(error)
      case Known(c') => Resume(env, program, w', c')
  }

  /** The pipelines the machine enters from a cursor on, beside the one it stands in. */
  ghost function Entered(env: Env, program: Program, w: Cursor, c: Context): seq<nat>
    requires InRange(program, w)
    decreases Remaining(program, w)
  {
    Progress(program, w, c.current.detect);
    match Next(program, w, c.current.detect)
    case Finish(_) => []
    case Visit(w', uid) =>
      var entered := if w'.row != w.row then [w'.row] else [];
      match Ask(env, uid, c)
      case Failed(_) => entered
      case Known(c') => entered + Entered(env, program, w', c')
  }

  /** How many times the evaluator is called until the end. */
  ghost function Calls(env: Env, program: Program, w: Cursor, c: Context): nat
    requires InRange(program, w)
    decreases Remaining(program, w)
  {
    Progress(program, w, c.current.detect);
    match Next(program, w, c.current.detect)
    case Finish(_) => 1
    case Visit(w', uid) =>
      match Ask(env, uid, c)
      case Failed(_) => 1
      case Known(c') => 1 + Calls(env, program, w', c')
  }

  /** How a run goes on: what it comes to, and after how many more calls of the evaluator. */
  datatype Outlook = Outlook(result: FrameResult, calls: nat)

  ghost function Ahead(env: Env, program: Program, w: Cursor, c: Context): Outlook
    requires InRange(program, w)
  {
    Outlook(Resume(env, program, w, c), Calls(env, program, w, c))
  }

  // ---------- the same by recursion over the structure ----------

  datatype Part = Part(pass: bool, context: Context) | Broken(error: int)

  /** The attached plugins of a node from position j on, after its head has been detected. */
  function EvalAttached(env: Env, node: Node, j: nat, c: Context): Part
    requires j <= |node.plugins|
    decreases |node.plugins| - j
  {
    if j == |node.plugins| then Part(true, c)
    else
      match Ask(env, node.plugins[j], c)
      case Failed(error) => Broken(error)
      case Known(c') =>
        if node.cut && !c'.current.detect then Part(false, c') else EvalAttached(env, node, j + 1, c')
  }

  /** A node: its head decides; attached plugins run only behind a detected head. */
  function EvalNode(env: Env, node: Node, c: Context): Part
    requires node.plugins != []
  {
    match Ask(env, node.plugins[0], c)
    case Failed(error) => Broken(error)
    case Known(c') =>
      if c'.current.detect then EvalAttached(env, node, 1, c') else Part(!node.cut, c')
  }

  /** A pipeline from node k on: the first failing node ends it. */
  function EvalRow(env: Env, program: Program, p: nat, k: nat, c: Context): Part
    requires Runnable(program) && p < |program.rows| && k <= |program.rows[p].ids|
    decreases |program.rows[p].ids| - k
  {
    if k == |program.rows[p].ids| then Part(true, c)
    else
      var part := EvalNode(env, NodeAt(program, p, k), c);
      if part.Part? && part.pass then EvalRow(env, program, p, k + 1, part.context) else part
  }

  /** The pipelines from p on. */
  function EvalRows(env: Env, program: Program, p: nat, c: Context): FrameResult
    requires Runnable(program) && p < |program.rows|
    decreases |program.rows| - p
  {
    match EvalRow(env, program, p, 0, c)
    case Broken(error) => Aborted(error)
    case Part(pass, c') => EvalAfter(env, program, p, pass, c')
  }

  function EvalAfter(env: Env, program: Program, p: nat, pass: bool, c: Context): FrameResult
    requires Runnable(program) && p < |program.rows|
    decreases |program.rows| - p, 0
  {
    var q := NextRow(program.rows, p, pass);
    if q < |program.rows| then EvalRows(env, program, q, c) else Decided(pass, c.detected)
  }
}
