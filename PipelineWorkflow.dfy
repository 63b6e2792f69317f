/** The older workflow engine of pipeline/workflow.py and its demonstration graph.

    It differs from the engine of workflow_tool.py in two ways: `start` passes
    the value each `process` returns on to the next node (nothing is changed in
    place), and it stops when it reaches a terminal node, without processing
    it. Node behaviour, edge tables and branch choices are those of
    `WorkflowTool`; `fuel` bounds the number of nodes processed. */
module PipelineWorkflow {
  import opened Values
  import WT = WorkflowTool

  /** What a run did: the kinds of the nodes whose `process` returned, the
      value each received and returned, the final value, how it ended and,
      when a node's `process` raised, the kind of that node (its input is
      then the final value). */
  datatype Record<K, S> = Record(visited: seq<K>, inputs: seq<S>, outputs: seq<S>, data: S, ending: WT.Ending,
                                 raisedAt: Option<K>)

  function Prepend<K, S>(k: K, input: S, output: S, r: Record<K, S>): Record<K, S> {
    Record([k] + r.visited, [input] + r.inputs, [output] + r.outputs, r.data, r.ending, r.raisedAt)
  }

  /** Specification of `WorkflowController.start` from a node of kind `k`. */
  ghost function Walk<K, S>(table: WT.Table<K>, k: K, data: S, step: (K, S) -> Outcome<S>,
                            branch: (K, S) -> WT.Choice, fuel: nat): Record<K, S>
    decreases fuel
  {
    if |WT.Edges(table, k)| == 0 then Record([], [], [], data, WT.Returned, None)
    else if fuel == 0 then Record([], [], [], data, WT.OutOfFuel, None)
    else
      match step(k, data)
      case Raised(e) => Record([], [], [], data, WT.Aborted(e), Some(k))
      case Ok(d) =>
        match WT.NextLabel(table, k, d, branch)
        case Raised(e) => Record([k], [data], [d], d, WT.Aborted(e), None)
        case Ok(l) => Prepend(k, data, d, Walk(table, WT.Edges(table, k)[l], d, step, branch, fuel - 1))
  }

  /** A walk from a non-terminal node whose processing raises records
      nothing but that node, and aborts with the value it was given. */
  lemma WalkRaises<K, S>(table: WT.Table<K>, k: K, data: S, step: (K, S) -> Outcome<S>,
                         branch: (K, S) -> WT.Choice, fuel: nat, e: PyError)
    requires |WT.Edges(table, k)| > 0 && fuel > 0 && step(k, data) == Raised(e)
    ensures Walk(table, k, data, step, branch, fuel) == Record([], [], [], data, WT.Aborted(e), Some(k))
  {
  }

  /** A walk from a non-terminal node that is processed but cannot be left
      records that node alone and aborts. */
  lemma WalkLeaveRaises<K, S>(table: WT.Table<K>, k: K, data: S, step: (K, S) -> Outcome<S>,
                              branch: (K, S) -> WT.Choice, fuel: nat, d: S, e: PyError)
    requires |WT.Edges(table, k)| > 0 && fuel > 0 && step(k, data) == Ok(d)
    requires WT.NextLabel(table, k, d, branch) == Raised(e)
    ensures Walk(table, k, data, step, branch, fuel) == Record([k], [data], [d], d, WT.Aborted(e), None)
  {
  }

  /** A walk from a non-terminal node that is processed and left goes on from
      the node it leads to. */
  lemma WalkMoves<K, S>(table: WT.Table<K>, k: K, data: S, step: (K, S) -> Outcome<S>,
                        branch: (K, S) -> WT.Choice, fuel: nat, d: S)
    requires |WT.Edges(table, k)| > 0 && fuel > 0 && step(k, data) == Ok(d)
    requires WT.NextLabel(table, k, d, branch).Ok?
    ensures Walk(table, k, data, step, branch, fuel) ==
      Prepend(k, data, d, Walk(table, WT.Edges(table, k)[WT.NextLabel(table, k, d, branch).value], d, step, branch, fuel - 1))
  {
  }

  /** How a run aborts: either a node's `process` raised, and then that node
      is non-terminal, it is the start node or a downstream node of the last
      node processed, and it raised on the final value; or the last node
      processed could not be left. */
  lemma {:induction false} WalkAbortCause<K, S>(table: WT.Table<K>, k: K, data: S, step: (K, S) -> Outcome<S>,
                                                branch: (K, S) -> WT.Choice, fuel: nat)
    ensures var r := Walk(table, k, data, step, branch, fuel);
      && (r.raisedAt.Some? ==>
            && r.ending.Aborted? && |WT.Edges(table, r.raisedAt.value)| > 0
            && step(r.raisedAt.value, r.data) == Raised(r.ending.error)
            && (|r.visited| == 0 ==> r.raisedAt.value == k)
            && (|r.visited| > 0 ==> r.raisedAt.value in WT.Edges(table, r.visited[|r.visited| - 1]).Values))
      && (r.ending.Aborted? && r.raisedAt.None? ==>
            |r.visited| > 0 && WT.NextLabel(table, r.visited[|r.visited| - 1], r.data, branch) == Raised(r.ending.error))
    decreases fuel
  {
    if |WT.Edges(table, k)| > 0 && fuel > 0 && step(k, data).Ok? {
      var d := step(k, data).value;
      if WT.NextLabel(table, k, d, branch).Ok? {
        var n := WT.Edges(table, k)[WT.NextLabel(table, k, d, branch).value];
        WalkAbortCause(table, n, d, step, branch, fuel - 1);
        var rest := Walk(table, n, d, step, branch, fuel - 1);
        assert Walk(table, k, data, step, branch, fuel) == Prepend(k, data, d, rest);
        if |rest.visited| > 0 {
          assert ([k] + rest.visited)[|rest.visited|] == rest.visited[|rest.visited| - 1];
        }
      }
    }
  }

  /** The record `r` threads the values from `data`: it has one entry per
      node processed, the first input is `data`, each output is the next
      input and the last output is the final value (which is `data` when no
      node was processed); every node processed is non-terminal and turned
      its input into its output. */
  ghost predicate Threaded<K, S>(table: WT.Table<K>, step: (K, S) -> Outcome<S>, data: S, r: Record<K, S>) {
    && |r.inputs| == |r.visited| == |r.outputs|
    && (|r.visited| > 0 ==> r.inputs[0] == data && r.outputs[|r.outputs| - 1] == r.data)
    && (|r.visited| == 0 ==> r.data == data)
    && (forall i :: 0 <= i < |r.visited| - 1 ==> r.outputs[i] == r.inputs[i + 1])
    && (forall i :: 0 <= i < |r.visited| ==> |WT.Edges(table, r.visited[i])| > 0)
    && (forall i :: 0 <= i < |r.visited| ==> step(r.visited[i], r.inputs[i]) == Ok(r.outputs[i]))
  }

  /** Processing a non-terminal node before a threaded record threads. */
  lemma ThreadedPrepend<K, S>(table: WT.Table<K>, step: (K, S) -> Outcome<S>, k: K, data: S, d: S, rest: Record<K, S>)
    requires |WT.Edges(table, k)| > 0 && step(k, data) == Ok(d) && Threaded(table, step, d, rest)
    ensures Threaded(table, step, data, Prepend(k, data, d, rest))
  {
    var r := Prepend(k, data, d, rest);
    forall i | 0 <= i < |r.visited| - 1 ensures r.outputs[i] == r.inputs[i + 1] {
      if i > 0 {
        assert r.outputs[i] == rest.outputs[i - 1] && r.inputs[i + 1] == rest.inputs[i];
      }
    }
    forall i | 0 <= i < |r.visited|
      ensures |WT.Edges(table, r.visited[i])| > 0 && step(r.visited[i], r.inputs[i]) == Ok(r.outputs[i])
    {
      if i > 0 {
        assert r.visited[i] == rest.visited[i - 1] && r.inputs[i] == rest.inputs[i - 1] && r.outputs[i] == rest.outputs[i - 1];
      }
    }
  }

  /** `start` threads the values from the start value and processes no
      terminal node. */
  lemma {:induction false} WalkThreadsValues<K, S>(table: WT.Table<K>, k: K, data: S, step: (K, S) -> Outcome<S>,
                                                   branch: (K, S) -> WT.Choice, fuel: nat)
    ensures Threaded(table, step, data, Walk(table, k, data, step, branch, fuel))
    decreases fuel
  {
    if |WT.Edges(table, k)| > 0 && fuel > 0 && step(k, data).Ok? {
      var d := step(k, data).value;
      if WT.NextLabel(table, k, d, branch).Ok? {
        var n := WT.Edges(table, k)[WT.NextLabel(table, k, d, branch).value];
        WalkMoves(table, k, data, step, branch, fuel, d);
        WalkThreadsValues(table, n, d, step, branch, fuel - 1);
        ThreadedPrepend(table, step, k, data, d, Walk(table, n, d, step, branch, fuel - 1));
      } else {
        WalkLeaveRaises(table, k, data, step, branch, fuel, d, WT.NextLabel(table, k, d, branch).error);
      }
    }
  }

  /** A node of the older engine. */
  class WorkflowNode<K> {
    const kind: K
    var next: map<string, WorkflowNode<K>>

    constructor(kind: K)
      ensures this.kind == kind && next == map[]
    {
      this.kind := kind;
      next := map[];
    }

    /** `attach_downstream`: binds the label `name` to `node`, replacing an
        earlier binding of the same label and keeping every other label. */
    method AttachDownstream(name: string, node: WorkflowNode<K>)
      modifies this
      ensures next == old(next)[name := node]
    {
      next := next[name := node];
    }

    /** `is_end`: the node has no downstream node. */
    function IsEnd(): (r: bool)
      reads this
      ensures r <==> next == map[]
    {
      |next| == 0
    }

    /** The inherited `do_branch`: nothing on a terminal node; otherwise it
        asserts there is exactly one edge and returns its label. */
    method DoBranch() returns (r: Outcome<Option<string>>)
      ensures r == Ok(None) <==> |next| == 0
      ensures r.Raised? <==> |next| > 1
      ensures r.Raised? ==> r.error == AssertionError
      ensures r.Ok? && r.value.Some? ==> next.Keys == {r.value.value}
    {
      if |next| == 0 {
        return Ok(None);
      }
      if |next| != 1 {
        return Raised(AssertionError);
      }
      var l :| l in next;
      forall x | x in next ensures x == l {
        WT.SoleKey(next, x, l);
      }
      r := Ok(Some(l));
    }
  }

  /** Node `n` has exactly the edges the table gives its kind, and each leads
      to a node of `nodes` of the kind the table names. */
  ghost predicate WiredAsTable<K>(n: WorkflowNode<K>, nodes: set<WorkflowNode<K>>, table: WT.Table<K>)
    reads n
  {
    && n.next.Keys == WT.Edges(table, n.kind).Keys
    && forall l :: l in n.next ==> n.next[l] in nodes && n.next[l].kind == WT.Edges(table, n.kind)[l]
  }

  ghost predicate Respects<K>(nodes: set<WorkflowNode<K>>, table: WT.Table<K>)
    reads nodes
  {
    forall n {:trigger WiredAsTable(n, nodes, table)} :: n in nodes ==> WiredAsTable(n, nodes, table)
  }

  /** Four nodes wired as the table says respect it together. */
  lemma RespectsFour<K>(a: WorkflowNode<K>, b: WorkflowNode<K>, c: WorkflowNode<K>, d: WorkflowNode<K>, table: WT.Table<K>)
    requires var nodes := {a, b, c, d};
      WiredAsTable(a, nodes, table) && WiredAsTable(b, nodes, table) && WiredAsTable(c, nodes, table) && WiredAsTable(d, nodes, table)
    ensures Respects({a, b, c, d}, table)
  {
    forall n | n in {a, b, c, d} ensures WiredAsTable(n, {a, b, c, d}, table) {
      if n == a {
      } else if n == b {
      } else if n == c {
      } else {
      }
    }
  }

  function Kinds<K>(nodes: seq<WorkflowNode<K>>): (r: seq<K>)
    ensures |r| == |nodes| && forall i :: 0 <= i < |r| ==> r[i] == nodes[i].kind
  {
    seq(|nodes|, i requires 0 <= i < |nodes| => nodes[i].kind)
  }

  lemma KindsSnoc<K>(nodes: seq<WorkflowNode<K>>, n: WorkflowNode<K>)
    ensures Kinds(nodes + [n]) == Kinds(nodes) + [n.kind]
  {
  }

  /** Moving one processed node from the rest of a run into the records. */
  lemma Shift<K, S>(kinds: seq<K>, inputs: seq<S>, outputs: seq<S>, k: K, input: S, output: S, rest: Record<K, S>)
    ensures var r := Prepend(k, input, output, rest);
      Record(kinds + r.visited, inputs + r.inputs, outputs + r.outputs, r.data, r.ending, r.raisedAt)
      == Record((kinds + [k]) + rest.visited, (inputs + [input]) + rest.inputs, (outputs + [output]) + rest.outputs,
                rest.data, rest.ending, rest.raisedAt)
  {
    assert kinds + ([k] + rest.visited) == (kinds + [k]) + rest.visited;
    assert inputs + ([input] + rest.inputs) == (inputs + [input]) + rest.inputs;
    assert outputs + ([output] + rest.outputs) == (outputs + [output]) + rest.outputs;
  }

  /** The controller of the older engine. */
  class WorkflowController<K, S> {
    const start: WorkflowNode<K>
    var current: WorkflowNode<K>
    var nodeRecords: seq<WorkflowNode<K>>
    var inputRecords: seq<S>
    var outputRecords: seq<S>

    constructor(start: WorkflowNode<K>)
      ensures this.start == start && current == start
      ensures nodeRecords == [] && inputRecords == [] && outputRecords == []
    {
      this.start := start;
      current := start;
      nodeRecords, inputRecords, outputRecords := [], [], [];
    }

    /** The state of a run about to look at `current` with value `data`. */
    ghost predicate Midway(spec: Record<K, S>, data: S, step: (K, S) -> Outcome<S>, branch: (K, S) -> WT.Choice,
                           table: WT.Table<K>, nodes: set<WorkflowNode<K>>, left: nat)
      reads this, nodes
    {
      && current in nodes
      && Respects(nodes, table)
      && var rest := Walk(table, current.kind, data, step, branch, left);
      && spec == Record(Kinds(nodeRecords) + rest.visited, inputRecords + rest.inputs,
                        outputRecords + rest.outputs, rest.data, rest.ending, rest.raisedAt)
      && |inputRecords| == |nodeRecords| == |outputRecords|
    }

    /** The state at the end of a run with record `spec`. */
    ghost predicate Finished(spec: Record<K, S>, result: S, ending: WT.Ending)
      reads this, current
    {
      && ending == spec.ending
      && result == spec.data
      && |nodeRecords| == |spec.visited| + (if spec.raisedAt.Some? then 1 else 0)
      && |inputRecords| == |nodeRecords|
      && Kinds(nodeRecords[..|spec.visited|]) == spec.visited
      && inputRecords[..|spec.visited|] == spec.inputs
      && (spec.raisedAt.Some? ==>
            nodeRecords[|spec.visited|].kind == spec.raisedAt.value && inputRecords[|spec.visited|] == spec.data)
      && outputRecords == spec.outputs
      && (ending.Returned? ==> |nodeRecords| == |spec.visited| && current.IsEnd())
    }

    /** A run that has reached a terminal node has finished as its record says. */
    lemma MidwayAtEnd(spec: Record<K, S>, data: S, step: (K, S) -> Outcome<S>, branch: (K, S) -> WT.Choice,
                      table: WT.Table<K>, nodes: set<WorkflowNode<K>>, left: nat)
      requires Midway(spec, data, step, branch, table, nodes, left) && current.IsEnd()
      ensures Finished(spec, data, WT.Returned)
    {
      assert WiredAsTable(current, nodes, table);
      assert |WT.Edges(table, current.kind).Keys| == 0;
      assert nodeRecords[..|nodeRecords|] == nodeRecords;
      assert inputRecords[..|nodeRecords|] == inputRecords;
    }

    /** One pass of the loop of `start`: record the node and its input, process
        it, record the output, ask for a label and move on. */
    method StartStep(data: S, step: (K, S) -> Outcome<S>, branch: (K, S) -> WT.Choice,
                     ghost table: WT.Table<K>, ghost nodes: set<WorkflowNode<K>>, left: nat, ghost spec: Record<K, S>)
      returns (next: S, stop: Option<WT.Ending>)
      requires Midway(spec, data, step, branch, table, nodes, left) && !current.IsEnd()
      modifies this
      ensures stop.None? ==> left > 0 && Midway(spec, next, step, branch, table, nodes, left - 1)
      ensures stop.Some? ==> Finished(spec, next, stop.value)
    {
      assert WiredAsTable(current, nodes, table);
      assert |WT.Edges(table, current.kind)| > 0 by {
        assert |current.next| == |current.next.Keys| == |WT.Edges(table, current.kind).Keys|;
      }
      if left == 0 {
        assert nodeRecords[..|nodeRecords|] == nodeRecords;
        assert inputRecords[..|nodeRecords|] == inputRecords;
        return data, Some(WT.OutOfFuel);
      }
      ghost var nodesBefore, inputsBefore, outputsBefore := nodeRecords, inputRecords, outputRecords;
      ghost var k := current.kind;
      nodeRecords := nodeRecords + [current];
      inputRecords := inputRecords + [data];
      KindsSnoc(nodesBefore, current);
      assert nodeRecords[..|nodesBefore|] == nodesBefore;
      assert inputRecords[..|nodesBefore|] == inputsBefore;
      var o := step(current.kind, data);
      if o.Raised? {
        WalkRaises(table, k, data, step, branch, left, o.error);
        return data, Some(WT.Aborted(o.error));
      }
      var d := o.value;
      outputRecords := outputRecords + [d];
      assert nodeRecords[..|nodeRecords|] == nodeRecords;
      assert inputRecords[..|nodeRecords|] == inputRecords;
      var downstream := Downstream(d, branch, table, nodes);
      if downstream.Raised? {
        WalkLeaveRaises(table, k, data, step, branch, left, d, downstream.error);
        return d, Some(WT.Aborted(downstream.error));
      }
      ghost var l := WT.NextLabel(table, k, d, branch).value;
      ghost var rest := Walk(table, downstream.value.kind, d, step, branch, left - 1);
      WalkMoves(table, k, data, step, branch, left, d);
      Shift(Kinds(nodesBefore), inputsBefore, outputsBefore, k, data, d, rest);
      current := downstream.value;
      return d, None;
    }

    /** Lines 62-64 of `start`: asks the current node for a label, with the
        inherited `do_branch` when the node keeps it, and looks it up. */
    method Downstream(data: S, branch: (K, S) -> WT.Choice,
                      ghost table: WT.Table<K>, ghost nodes: set<WorkflowNode<K>>)
      returns (r: Outcome<WorkflowNode<K>>)
      requires current in nodes && WiredAsTable(current, nodes, table) && !current.IsEnd()
      ensures var expected := WT.NextLabel(table, current.kind, data, branch);
        && (r.Ok? <==> expected.Ok?)
        && (r.Raised? ==> r.error == expected.error)
        && (r.Ok? ==> expected.value in current.next && r.value == current.next[expected.value]
                      && r.value in nodes && r.value.kind == WT.Edges(table, current.kind)[expected.value])
    {
      assert |current.next| == |current.next.Keys| == |WT.Edges(table, current.kind).Keys| == |WT.Edges(table, current.kind)|;
      match branch(current.kind, data) {
        case Default =>
          var o := current.DoBranch();
          if o.Raised? {
            return Raised(o.error);
          }
          var name := o.value.value;
          ghost var l :| l in WT.Edges(table, current.kind);
          WT.SoleKey(WT.Edges(table, current.kind), l, name);
          r := Ok(current.next[name]);
        case Label(name) =>
          if name !in current.next {
            return Raised(KeyError(name));
          }
          r := Ok(current.next[name]);
        case BranchRaised(e) =>
          r := Raised(e);
      }
    }

    /** `start`: restarts at the start node with empty records, then, until it
        reaches a terminal node, processes the current node on the value the
        previous one returned and follows the node's label. It returns the
        last value; the records hold, per node processed, the node, its input
        and its output (the node whose `process` raised, if any, is recorded
        with its input only). */
    method Start(payload: S, step: (K, S) -> Outcome<S>, branch: (K, S) -> WT.Choice,
                 ghost table: WT.Table<K>, ghost nodes: set<WorkflowNode<K>>, fuel: nat)
      returns (result: S, ending: WT.Ending)
      requires start in nodes && Respects(nodes, table)
      modifies this
      ensures Finished(Walk(table, start.kind, payload, step, branch, fuel), result, ending)
    {
      ghost var spec := Walk(table, start.kind, payload, step, branch, fuel);
      current := start;
      nodeRecords, inputRecords, outputRecords := [], [], [];
      var data := payload;
      var left := fuel;
      assert Kinds(nodeRecords) == [];
      assert spec == Record(Kinds(nodeRecords) + spec.visited, inputRecords + spec.inputs,
                            outputRecords + spec.outputs, spec.data, spec.ending, spec.raisedAt);
      while !current.IsEnd()
        invariant Midway(spec, data, step, branch, table, nodes, left)
        decreases left
      {
        var stop;
        data, stop := StartStep(data, step, branch, table, nodes, left, spec);
        if stop.Some? {
          return data, stop.value;
        }
        left := left - 1;
      }
      MidwayAtEnd(spec, data, step, branch, table, nodes, left);
      return data, WT.Returned;
    }
  }

  // ---------------------------------------------------------------------------
  // The demonstration graph of the file's main block

  /** The node classes of the demonstration. */
  datatype DemoKind = EndNode | IsValidNode | PlusOneNode | TenReachNode

  /** The wiring of lines 113-117. */
  function DemoTable(): WT.Table<DemoKind> {
    map[IsValidNode := map["Y" := EndNode, "N" := PlusOneNode],
        TenReachNode := map["Y" := EndNode, "N" := PlusOneNode],
        PlusOneNode := map["next" := TenReachNode]]
  }

  /** `PlusOne.process` adds one; every other node keeps the inherited
      `process`, which returns its input. */
  function DemoStep(k: DemoKind, x: int): Outcome<int> {
    if k == PlusOneNode then Ok(x + 1) else Ok(x)
  }

  /** `IsValid` and `TenReach` choose `'Y'` on 0 and on 10 respectively and
      `'N'` otherwise; `PlusOne` keeps the inherited `do_branch`. */
  function DemoBranch(k: DemoKind, x: int): WT.Choice {
    match k
    case IsValidNode => WT.Label(if x == 0 then "Y" else "N")
    case TenReachNode => WT.Label(if x == 10 then "Y" else "N")
    case _ => WT.Default
  }

  ghost function DemoWalk(k: DemoKind, x: int, fuel: nat): Record<DemoKind, int> {
    Walk(DemoTable(), k, x, DemoStep, DemoBranch, fuel)
  }

  /** One step of the demonstration from each kind of node. */
  lemma DemoEndStep(x: int, fuel: nat)
    ensures DemoWalk(EndNode, x, fuel) == Record([], [], [], x, WT.Returned, None)
  {
  }

  lemma DemoValidStep(x: int, fuel: nat)
    requires fuel >= 1
    ensures DemoWalk(IsValidNode, x, fuel) ==
      Prepend(IsValidNode, x, x, DemoWalk(if x == 0 then EndNode else PlusOneNode, x, fuel - 1))
  {
  }

  lemma DemoPlusOneStep(x: int, fuel: nat)
    requires fuel >= 1
    ensures DemoWalk(PlusOneNode, x, fuel) == Prepend(PlusOneNode, x, x + 1, DemoWalk(TenReachNode, x + 1, fuel - 1))
  {
    var l := WT.NextLabel(DemoTable(), PlusOneNode, x + 1, DemoBranch).value;
    WT.SoleKey(WT.Edges(DemoTable(), PlusOneNode), "next", l);
  }

  lemma DemoTenStep(x: int, fuel: nat)
    requires fuel >= 1
    ensures DemoWalk(TenReachNode, x, fuel) ==
      Prepend(TenReachNode, x, x, DemoWalk(if x == 10 then EndNode else PlusOneNode, x, fuel - 1))
  {
  }

  /** `start(0)` returns 0 after processing only `valid_1`. */
  lemma DemoStartZero(fuel: nat)
    requires fuel >= 1
    ensures DemoWalk(IsValidNode, 0, fuel) == Record([IsValidNode], [0], [0], 0, WT.Returned, None)
  {
    DemoValidStep(0, fuel);
    DemoEndStep(0, fuel - 1);
  }

  /** From `plus_one` with a value below 10, the loop through `ten_validate`
      adds one per round and stops at 10, after 10 - x rounds of two nodes. */
  lemma {:induction false} DemoLoopReachesTen(x: int, fuel: nat)
    requires x < 10 && fuel >= 2 * (10 - x)
    ensures var r := DemoWalk(PlusOneNode, x, fuel);
      r.ending == WT.Returned && r.data == 10 && |r.visited| == 2 * (10 - x)
    decreases 10 - x
  {
    DemoPlusOneStep(x, fuel);
    DemoTenStep(x + 1, fuel - 1);
    if x + 1 == 10 {
      DemoEndStep(10, fuel - 2);
    } else {
      DemoLoopReachesTen(x + 1, fuel - 2);
    }
  }

  /** `start(x)` returns 10 for every non-zero x below 10, `start(1)` in
      particular, after processing 1 + 2 * (10 - x) nodes. */
  lemma DemoStartBelowTen(x: int, fuel: nat)
    requires x != 0 && x < 10 && fuel >= 1 + 2 * (10 - x)
    ensures var r := DemoWalk(IsValidNode, x, fuel);
      r.ending == WT.Returned && r.data == 10 && |r.visited| == 1 + 2 * (10 - x)
  {
    DemoValidStep(x, fuel);
    DemoLoopReachesTen(x, fuel - 1);
  }

  /** From 10 up the demonstration never returns: `valid_1` sends the value
      to `plus_one`, which moves it past 10, and `plus_one` and `ten_validate`
      alternate until the fuel runs out. */
  lemma DemoFromTenRunsForever(x: int, fuel: nat)
    requires x >= 10
    ensures DemoWalk(IsValidNode, x, fuel).ending == WT.OutOfFuel
  {
    if fuel > 0 {
      DemoValidStep(x, fuel);
      DemoLoopDiverges(x, fuel - 1);
    }
  }

  lemma {:induction false} DemoLoopDiverges(x: int, fuel: nat)
    requires x >= 10
    ensures DemoWalk(PlusOneNode, x, fuel).ending == WT.OutOfFuel
    decreases fuel
  {
    if fuel >= 1 {
      DemoPlusOneStep(x, fuel);
      if fuel >= 2 {
        DemoTenStep(x + 1, fuel - 1);
        DemoLoopDiverges(x + 1, fuel - 2);
      }
    }
  }

  /** Lines 109-118 of the main block: the four nodes and their wiring. */
  method BuildDemo() returns (start: WorkflowNode<DemoKind>, ghost nodes: set<WorkflowNode<DemoKind>>)
    ensures start in nodes && start.kind == IsValidNode && Respects(nodes, DemoTable())
  {
    var end := new WorkflowNode(EndNode);
    var valid1 := new WorkflowNode(IsValidNode);
    var plusOne := new WorkflowNode(PlusOneNode);
    var tenValidate := new WorkflowNode(TenReachNode);
    valid1.AttachDownstream("Y", end);
    valid1.AttachDownstream("N", plusOne);
    tenValidate.AttachDownstream("Y", end);
    tenValidate.AttachDownstream("N", plusOne);
    plusOne.AttachDownstream("next", tenValidate);
    nodes := {end, valid1, plusOne, tenValidate};
    assert valid1.next == map["Y" := end, "N" := plusOne];
    assert tenValidate.next == map["Y" := end, "N" := plusOne];
    assert plusOne.next == map["next" := tenValidate];
    assert WiredAsTable(end, nodes, DemoTable());
    assert WiredAsTable(valid1, nodes, DemoTable());
    assert WiredAsTable(plusOne, nodes, DemoTable());
    assert WiredAsTable(tenValidate, nodes, DemoTable());
    RespectsFour(end, valid1, plusOne, tenValidate, DemoTable());
    start := valid1;
  }

  /** The main block: starts the graph on 0 and on 1. Python's loop has no
      bound; 100 units of fuel are enough here. */
  method RunDemo() returns (first: int, second: int, firstEnding: WT.Ending, secondEnding: WT.Ending)
    ensures first == 0 && firstEnding == WT.Returned
    ensures second == 10 && secondEnding == WT.Returned
  {
    var start, nodes := BuildDemo();
    var c := new WorkflowController(start);
    DemoStartZero(100);
    first, firstEnding := c.Start(0, DemoStep, DemoBranch, DemoTable(), nodes, 100);
    DemoStartBelowTen(1, 100);
    second, secondEnding := c.Start(1, DemoStep, DemoBranch, DemoTable(), nodes, 100);
  }
}
