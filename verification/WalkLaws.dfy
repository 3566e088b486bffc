/** Laws of a run: the cursor machine computes the recursive evaluation, how many calls it takes, which pipelines it
    enters, and when it comes to a verdict. */
module WalkLaws {
  import opened Types
  import opened Expression
  import opened Walk

  // ---------- machine = recursion ----------

  function RowThen(env: Env, program: Program, p: nat, part: Part): FrameResult
    requires Runnable(program) && p < |program.rows|
  {
    match part
    case Broken(error) => Aborted(error)
    case Part(pass, c) => EvalAfter(env, program, p, pass, c)
  }

  /** What pipeline p comes to once its node k has come to `part`. */
  function RowPart(env: Env, program: Program, p: nat, k: nat, part: Part): Part
    requires Runnable(program) && p < |program.rows| && k < |program.rows[p].ids|
  {
    if part.Part? && part.pass then EvalRow(env, program, p, k + 1, part.context) else part
  }

  /** What is left of a node after its plugin j - 1 has been run. */
  function NodeRest(env: Env, node: Node, j: nat, c: Context): Part
    requires 1 <= j <= |node.plugins|
  {
    if c.current.detect then EvalAttached(env, node, j, c)
    else if j == 1 || node.cut then Part(!node.cut, c)
    else EvalAttached(env, node, j, c)
  }

  /** Entering a node: what the row comes to once the head has been asked. */
  lemma EnterRow(env: Env, program: Program, p: nat, k: nat, c: Context)
    requires Runnable(program) && p < |program.rows| && k < |program.rows[p].ids|
    ensures var node := NodeAt(program, p, k);
            EvalRow(env, program, p, k, c)
            == match Ask(env, node.plugins[0], c)
               case Failed(error) => Broken(error)
               case Known(c') => RowPart(env, program, p, k, NodeRest(env, node, 1, c'))
  {
  }

  /** What the pipeline under the cursor comes to, once the latest plugin has been run. */
  function PartAt(env: Env, program: Program, w: Cursor, c: Context): Part
    requires Runnable(program) && w.row < |program.rows| && w.col < |program.rows[w.row].ids|
    requires 1 <= w.taken <= |NodeAt(program, w.row, w.col).plugins|
  {
    RowPart(env, program, w.row, w.col, NodeRest(env, NodeAt(program, w.row, w.col), w.taken, c))
  }

  /** A cursor past the head of its node: an attached plugin runs only in an open node. */
  ghost predicate Past(program: Program, w: Cursor) {
    InRange(program, w) && w.taken >= 1 && (w.taken >= 2 ==> w.open)
  }

  /** A step within the pipeline is a step of the recursion. */
  lemma StaysRow(env: Env, program: Program, w: Cursor, c: Context)
    requires Past(program, w)
    ensures var s := Next(program, w, c.current.detect);
            s.Visit? && s.cursor.row == w.row ==>
              && Past(program, s.cursor)
              && PartAt(env, program, w, c)
                 == match Ask(env, s.uid, c)
                    case Failed(error) => Broken(error)
                    case Known(c') => PartAt(env, program, s.cursor, c')
  {
    hide Next, EvalRow, EvalNode, NextRow;
    Progress(program, w, c.current.detect);
    NextCases(program, w, c.current.detect);
    var node, s := NodeAt(program, w.row, w.col), Next(program, w, c.current.detect);
    if s.Visit? && s.cursor.row == w.row {
      if s.cursor.taken == 1 {
        EnterRow(env, program, w.row, s.cursor.col, c);
        assert NodeRest(env, node, w.taken, c) == Part(true, c);
      } else {
        assert NodeRest(env, node, w.taken, c) == EvalAttached(env, node, w.taken, c);
      }
    }
  }

  /** A step out of the pipeline: the pipeline has come to a verdict, and the machine goes on with the head of
      the next pipeline or ends. */
  lemma LeavesRow(env: Env, program: Program, w: Cursor, c: Context)
    requires Past(program, w)
    ensures var s, pass := Next(program, w, c.current.detect), !NodeAt(program, w.row, w.col).cut || c.current.detect;
            s.Finish? || s.cursor.row != w.row ==>
              && PartAt(env, program, w, c) == Part(pass, c)
              && var q := NextRow(program.rows, w.row, pass);
                 s == if q < |program.rows| then Visit(Cursor(q, 0, 1, true), NodeAt(program, q, 0).plugins[0])
                      else Finish(pass)
  {
    hide Next, EvalNode, NextRow;
    NextCases(program, w, c.current.detect);
  }

  /** Leaving pipeline p goes on with the next one, or ends. */
  lemma AfterNext(env: Env, program: Program, p: nat, pass: bool, c: Context)
    requires Runnable(program) && p < |program.rows|
    ensures var q := NextRow(program.rows, p, pass);
            RowThen(env, program, p, Part(pass, c))
            == if q < |program.rows| then RowThen(env, program, q, EvalRow(env, program, q, 0, c))
               else Decided(pass, c.detected)
  {
    var q := NextRow(program.rows, p, pass);
    if q < |program.rows| {
      assert EvalAfter(env, program, p, pass, c) == EvalRows(env, program, q, c);
    }
  }

  lemma {:induction false} ResumeMeans(env: Env, program: Program, w: Cursor, c: Context)
    requires Past(program, w)
    ensures Resume(env, program, w, c) == RowThen(env, program, w.row, PartAt(env, program, w, c))
    decreases Remaining(program, w)
  {
    hide Next, Remaining, NextRow, EvalRow, NodeRest, PartAt, RowPart, NodeAt;
    Progress(program, w, c.current.detect);
    var s := Next(program, w, c.current.detect);
    StaysRow(env, program, w, c);
    LeavesRow(env, program, w, c);
    if s.Finish? || s.cursor.row != w.row {
      AfterNext(env, program, w.row, PartAt(env, program, w, c).pass, c);
    }
    if s.Visit? {
      var asked := Ask(env, s.uid, c);
      if asked.Known? {
        ResumeMeans(env, program, s.cursor, asked.context);
      }
      if s.cursor.row != w.row {
        EnterAt(env, program, s.cursor.row, c);
      }
    }
  }

  /** Entering pipeline p: what it comes to once its head has been asked. */
  lemma EnterAt(env: Env, program: Program, p: nat, c: Context)
    requires Runnable(program) && p < |program.rows|
    ensures EvalRow(env, program, p, 0, c)
            == match Ask(env, NodeAt(program, p, 0).plugins[0], c)
               case Failed(error) => Broken(error)
               case Known(c') => PartAt(env, program, Cursor(p, 0, 1, true), c')
  {
    EnterRow(env, program, p, 0, c);
  }

  /** A run from a reset evaluator is the recursive evaluation of the pipelines. */
  lemma RunIsRecursion(env: Env, program: Program)
    requires Runnable(program)
    ensures InRange(program, FRESH)
    ensures Resume(env, program, FRESH, BLANK) == EvalRows(env, program, 0, BLANK)
  {
    var head := NodeAt(program, 0, 0).plugins[0];
    Progress(program, FRESH, true);
    assert Next(program, FRESH, true) == Visit(Cursor(0, 0, 1, true), head);
    var asked := Ask(env, head, BLANK);
    if asked.Known? {
      ResumeMeans(env, program, Cursor(0, 0, 1, true), asked.context);
    }
  }

  /** One round of a run. */
  lemma AheadStep(env: Env, program: Program, w: Cursor, c: Context)
    requires InRange(program, w)
    ensures var s := Next(program, w, c.current.detect);
            if s.Finish? then Ahead(env, program, w, c) == Outlook(Decided(s.included, c.detected), 1)
            else
              && InRange(program, s.cursor)
              && var asked := Ask(env, s.uid, c);
                 Ahead(env, program, w, c)
                 == if asked.Failed? then Outlook(Aborted(asked.error), 1)
                    else var o := Ahead(env, program, s.cursor, asked.context); Outlook(o.result, o.calls + 1)
  {
    Progress(program, w, c.current.detect);
  }

  /** A run calls the evaluator at most once more than there are slots. */
  lemma {:induction false} CallsBounded(env: Env, program: Program, w: Cursor, c: Context)
    requires InRange(program, w)
    ensures Calls(env, program, w, c) <= Remaining(program, w) + 1
    decreases Remaining(program, w)
  {
    Progress(program, w, c.current.detect);
    var s := Next(program, w, c.current.detect);
    if s.Visit? {
      var asked := Ask(env, s.uid, c);
      if asked.Known? {
        CallsBounded(env, program, s.cursor, asked.context);
      }
    }
  }

  lemma CallsPerFrame(env: Env, program: Program)
    requires Runnable(program)
    ensures InRange(program, FRESH)
    ensures Calls(env, program, FRESH, BLANK) <= Slots(program, 0) + 1
  {
    CallsBounded(env, program, FRESH, BLANK);
  }

  // ---------- which pipelines a run enters ----------

  /** The pipelines a run from a reset evaluator enters, in order. */
  ghost function Visited(env: Env, program: Program): seq<nat>
    requires Runnable(program)
  {
    EnterStep(program, 0);
    [0] + Entered(env, program, FRESH, BLANK)
  }

  /** The same by recursion over the structure: the pipelines entered once pipeline p has come to `part`. */
  function VisitsAfter(env: Env, program: Program, p: nat, part: Part): seq<nat>
    requires Runnable(program) && p < |program.rows|
    decreases |program.rows| - p, 0
  {
    if part.Broken? then []
    else
      var q := NextRow(program.rows, p, part.pass);
      if q < |program.rows| then Visits(env, program, q, part.context) else []
  }

  /** The pipelines entered from p on, p included. */
  function Visits(env: Env, program: Program, p: nat, c: Context): seq<nat>
    requires Runnable(program) && p < |program.rows|
    decreases |program.rows| - p
  {
    [p] + VisitsAfter(env, program, p, EvalRow(env, program, p, 0, c))
  }

  /** Leaving pipeline p enters the next one, then whatever that leads to. */
  lemma VisitsNext(env: Env, program: Program, p: nat, pass: bool, c: Context)
    requires Runnable(program) && p < |program.rows|
    ensures var q := NextRow(program.rows, p, pass);
            VisitsAfter(env, program, p, Part(pass, c))
            == if q < |program.rows| then [q] + VisitsAfter(env, program, q, EvalRow(env, program, q, 0, c)) else []
  {
  }

  /** The pipelines the machine enters from a cursor on are those of the recursion. */
  lemma {:induction false} EnteredMeans(env: Env, program: Program, w: Cursor, c: Context)
    requires Past(program, w)
    ensures Entered(env, program, w, c) == VisitsAfter(env, program, w.row, PartAt(env, program, w, c))
    decreases Remaining(program, w)
  {
    hide Next, Remaining, NextRow, EvalRow, NodeRest, PartAt, RowPart, NodeAt, Visits;
    Progress(program, w, c.current.detect);
    var s := Next(program, w, c.current.detect);
    StaysRow(env, program, w, c);
    LeavesRow(env, program, w, c);
    if s.Finish? || s.cursor.row != w.row {
      VisitsNext(env, program, w.row, PartAt(env, program, w, c).pass, c);
    }
    if s.Visit? {
      var asked := Ask(env, s.uid, c);
      if asked.Known? {
        EnteredMeans(env, program, s.cursor, asked.context);
      }
      if s.cursor.row != w.row {
        EnterAt(env, program, s.cursor.row, c);
      }
    }
  }

  lemma VisitedMeans(env: Env, program: Program)
    requires Runnable(program)
    ensures Visited(env, program) == Visits(env, program, 0, BLANK)
  {
    var head := NodeAt(program, 0, 0).plugins[0];
    Progress(program, FRESH, true);
    assert Next(program, FRESH, true) == Visit(Cursor(0, 0, 1, true), head);
    EnterAt(env, program, 0, BLANK);
    var asked := Ask(env, head, BLANK);
    if asked.Known? {
      EnteredMeans(env, program, Cursor(0, 0, 1, true), asked.context);
    }
  }

  ghost predicate Ascending(rows: seq<nat>, bound: nat) {
    && (forall i :: 0 <= i < |rows| ==> rows[i] < bound)
    && (forall i, j :: 0 <= i < j < |rows| ==> rows[i] < rows[j])
  }

  /** The run enters pipeline q once. */
  ghost predicate Once(v: seq<nat>, q: nat) {
    exists i :: 0 <= i < |v| && v[i] == q && forall j :: 0 <= j < |v| && v[j] == q ==> j == i
  }

  /** A pipeline entered right behind p is the next one, or an essential one. */
  ghost predicate NextOrEssential(rows: seq<Row>, p: nat, q: nat) {
    p < q && q < |rows| && (q == p + 1 || rows[q].essential)
  }

  /** q is where a run goes from p on this verdict, |rows| standing for the end: after a failure the next
      pipeline, after a success the first essential one behind p. */
  ghost predicate Follows(rows: seq<Row>, p: nat, pass: bool, q: nat) {
    && p < q <= |rows|
    && if pass then (q < |rows| ==> rows[q].essential) && forall k :: p < k < q ==> !rows[k].essential else q == p + 1
  }

  lemma NextFollows(rows: seq<Row>, p: nat, pass: bool)
    requires p < |rows|
    ensures Follows(rows, p, pass, NextRow(rows, p, pass))
  {
  }

  lemma {:induction false} VisitsFrom(env: Env, program: Program, p: nat, c: Context)
    requires Runnable(program) && p < |program.rows| && EvalRows(env, program, p, c).Decided?
    ensures var v, rows := Visits(env, program, p, c), program.rows;
            && v[0] == p && Ascending(v, |rows|)
            && (forall i :: 0 <= i < |v| - 1 ==> NextOrEssential(rows, v[i], v[i + 1]))
            && (forall q: nat :: p < q < |rows| && rows[q].essential ==> q in v)
    decreases |program.rows| - p
  {
    hide EvalRow, Runnable;
    var part, v, rows := EvalRow(env, program, p, 0, c), Visits(env, program, p, c), program.rows;
    assert part.Part?;
    var q := NextRow(rows, p, part.pass);
    assert v == [p] + VisitsAfter(env, program, p, part);
    if q < |rows| {
      VisitsFrom(env, program, q, part.context);
      var rest := Visits(env, program, q, part.context);
      assert v == [p] + rest;
      forall i | 0 <= i < |v| - 1 ensures NextOrEssential(rows, v[i], v[i + 1]) {
        if i > 0 { assert v[i] == rest[i - 1] && v[i + 1] == rest[i - 1 + 1]; }
      }
      forall e: nat | p < e < |rows| && rows[e].essential ensures e in v {
        assert e == q || e in rest;
      }
    }
  }

  /** The essential-pipeline law: a completed run of the evaluator enters pipeline 0 first, goes only forward,
      skips only to essential pipelines, and enters every essential pipeline exactly once. */
  lemma EssentialLaw(env: Env, program: Program)
    requires Runnable(program) && Resume(env, program, FRESH, BLANK).Decided?
    ensures var v, rows := Visited(env, program), program.rows;
            && v[0] == 0 && Ascending(v, |rows|)
            && (forall i :: 0 <= i < |v| - 1 ==> NextOrEssential(rows, v[i], v[i + 1]))
            && (forall q: nat :: q < |rows| && rows[q].essential ==> Once(v, q))
  {
    hide Resume, Entered, Visits;
    RunIsRecursion(env, program);
    VisitedMeans(env, program);
    VisitsFrom(env, program, 0, BLANK);
    var v, rows := Visited(env, program), program.rows;
    forall q: nat | q < |rows| && rows[q].essential ensures Once(v, q) {
      assert q in v;
      var i :| 0 <= i < |v| && v[i] == q;
      assert forall j :: 0 <= j < |v| && j != i ==> v[j] < v[i] || v[i] < v[j];
    }
  }

  // ---------- effects ----------

  /** The values of a frame: a detector's flag, false for one that raises; an effect as operand is true. */
  function Flags(env: Env): Valuation {
    (uid: Uid) => IsEffect(env.plugins, uid) || (env.reply(uid).Answer? && env.reply(uid).outcome.detect)
  }

  /** Effects all run behind a detected head, leave the current outcome alone and take its details. */
  lemma {:induction false} AttachAll(env: Env, node: Node, j: nat, c: Context)
    requires 1 <= j <= |node.plugins| && c.current.detect
    requires forall k :: j <= k < |node.plugins| ==> IsEffect(env.plugins, node.plugins[k])
    ensures var part := EvalAttached(env, node, j, c);
            && part.Part? && part.pass && part.context.current == c.current
            && part.context.detected.Keys == c.detected.Keys + (set e | e in node.plugins[j..])
            && forall e :: e in part.context.detected ==>
                             part.context.detected[e]
                             == if e in node.plugins[j..] then c.current.list else c.detected[e]
    decreases |node.plugins| - j
  {
    if j < |node.plugins| {
      var e := node.plugins[j];
      var c' := c.(detected := c.detected[e := c.current.list]);
      assert Ask(env, e, c) == Known(c');
      AttachAll(env, node, j + 1, c');
      assert node.plugins[j..] == [e] + node.plugins[j + 1..];
    }
  }

  /** An effect that stands as an operand is run whenever it is reached and takes the details of the latest
      detector; its value is that detector's flag, true before the first one, and it leaves the flag alone. */
  lemma EffectOperand(env: Env, node: Node, c: Context)
    requires node.plugins != [] && forall j :: 0 <= j < |node.plugins| ==> IsEffect(env.plugins, node.plugins[j])
    ensures var part := EvalNode(env, node, c);
            && part.Part? && part.pass == (c.current.detect || !node.cut) && part.context.current == c.current
            && node.plugins[0] in part.context.detected
            && part.context.detected[node.plugins[0]] == c.current.list
  {
    var effect := node.plugins[0];
    var c' := c.(detected := c.detected[effect := c.current.list]);
    assert Ask(env, effect, c) == Known(c');
    if c.current.detect {
      AttachAll(env, node, 1, c');
    }
  }

  // ---------- when a run decides ----------

  lemma {:induction false} AnsweredRowDecides(env: Env, program: Program, p: nat, k: nat, c: Context)
    requires Runnable(program) && p < |program.rows| && k <= |program.rows[p].ids|
    requires forall uid :: env.reply(uid).Answer?
    ensures EvalRow(env, program, p, k, c).Part?
    decreases |program.rows[p].ids| - k
  {
    if k < |program.rows[p].ids| {
      var node := NodeAt(program, p, k);
      var asked := Ask(env, node.plugins[0], c);
      if asked.context.current.detect { AnsweredNode(env, node, 1, asked.context); }
      var part := EvalNode(env, node, c);
      if part.pass { AnsweredRowDecides(env, program, p, k + 1, part.context); }
    }
  }

  lemma {:induction false} AnsweredNode(env: Env, node: Node, j: nat, c: Context)
    requires j <= |node.plugins| && forall uid :: env.reply(uid).Answer?
    ensures EvalAttached(env, node, j, c).Part?
    decreases |node.plugins| - j
  {
    if j < |node.plugins| {
      AnsweredNode(env, node, j + 1, Ask(env, node.plugins[j], c).context);
    }
  }

  /** When every detector answers, a run comes to a verdict. */
  lemma {:induction false} AnsweredRun(env: Env, program: Program, p: nat, c: Context)
    requires Runnable(program) && p < |program.rows| && forall uid :: env.reply(uid).Answer?
    ensures EvalRows(env, program, p, c).Decided?
    decreases |program.rows| - p
  {
    hide EvalRow;
    AnsweredRowDecides(env, program, p, 0, c);
    var part := EvalRow(env, program, p, 0, c);
    var q := NextRow(program.rows, p, part.pass);
    if q < |program.rows| {
      AnsweredRun(env, program, q, part.context);
    }
  }

  /** The error a run ends with is one that a plugin raised. */
  lemma {:induction false} RunErrors(env: Env, program: Program, p: nat, c: Context)
    requires Runnable(program) && p < |program.rows|
    ensures var r := EvalRows(env, program, p, c); r.Aborted? ==> exists uid :: env.reply(uid) == Raised(r.error)
    decreases |program.rows| - p
  {
    hide EvalRow;
    RowErrors(env, program, p, 0, c);
    var part := EvalRow(env, program, p, 0, c);
    if part.Part? {
      var q := NextRow(program.rows, p, part.pass);
      if q < |program.rows| {
        RunErrors(env, program, q, part.context);
      }
    }
  }

  lemma {:induction false} RowErrors(env: Env, program: Program, p: nat, k: nat, c: Context)
    requires Runnable(program) && p < |program.rows| && k <= |program.rows[p].ids|
    ensures var part := EvalRow(env, program, p, k, c);
            part.Broken? ==> exists uid :: env.reply(uid) == Raised(part.error)
    decreases |program.rows[p].ids| - k
  {
    if k < |program.rows[p].ids| {
      var node := NodeAt(program, p, k);
      var asked := Ask(env, node.plugins[0], c);
      if asked.Known? && asked.context.current.detect { AttachedErrors(env, node, 1, asked.context); }
      var part := EvalNode(env, node, c);
      if part.Part? && part.pass { RowErrors(env, program, p, k + 1, part.context); }
    }
  }

  lemma {:induction false} AttachedErrors(env: Env, node: Node, j: nat, c: Context)
    requires j <= |node.plugins|
    ensures var part := EvalAttached(env, node, j, c);
            part.Broken? ==> exists uid :: env.reply(uid) == Raised(part.error)
    decreases |node.plugins| - j
  {
    if j < |node.plugins| {
      var asked := Ask(env, node.plugins[j], c);
      if asked.Known? { AttachedErrors(env, node, j + 1, asked.context); }
    }
  }
}
