/** The workflow engine of convert_func_generate/src/workflow_tool.py.

    A node is an object with a mutable map from branch labels to downstream
    nodes. What a node does is given by its kind: `step(kind, data)` is the
    node's `process`, which changes the payload in place and returns that same
    payload object (or raises), and
    `branch(kind, data)` is its `determine_downstream` (or `Default` when the
    node keeps the inherited one). The controller runs the graph from its start
    node, processes every node it reaches (the terminal one included), appends
    each processed node to the payload's `workflow_records`, and follows the
    label the node chooses. Python's loop has no bound; here `fuel` bounds the
    number of nodes processed, and running out is reported as `OutOfFuel`.

    The run is specified by `Walk`, a function over a table that gives each
    kind its outgoing edges; `Respects` says that the node objects are wired
    as the table says. */
module WorkflowTool {
  import opened Values

  /** What a node's `determine_downstream` does: keep the inherited behaviour,
      return a label, or raise. */
  datatype Choice = Default | Label(name: string) | BranchRaised(error: PyError)

  /** How a run ends: `run` returned, something raised, or the fuel ran out. */
  datatype Ending = Returned | Aborted(error: PyError) | OutOfFuel

  /** The kinds of the nodes processed successfully, in order, the payload data
      at the end, how the run ended and, when a node's `process` raised, the
      kind of that node. */
  datatype Trace<K, S> = Trace(visited: seq<K>, data: S, ending: Ending, raisedAt: Option<K>)

  /** The outgoing edges of every node kind. */
  type Table<K> = map<K, map<string, K>>

  function Edges<K>(table: Table<K>, k: K): map<string, K> {
    if k in table then table[k] else map[]
  }

  /** The label a node of kind `k` follows after processing, or the exception
      raised on the way: the inherited `determine_downstream` asserts that
      there is exactly one edge and returns its label; a label that is not an
      edge fails the lookup `downstreams[name]`. */
  ghost function NextLabel<K, S>(table: Table<K>, k: K, data: S, branch: (K, S) -> Choice): (r: Outcome<string>)
    ensures r.Ok? ==> r.value in Edges(table, k)
  {
    match branch(k, data)
    case Default =>
      if |Edges(table, k)| == 1 then
        var l :| l in Edges(table, k); Ok(l)
      else Raised(AssertionError)
    case Label(l) => if l in Edges(table, k) then Ok(l) else Raised(KeyError(l))
    case BranchRaised(e) => Raised(e)
  }

  /** A node whose chosen label is always one of its edges, and that has
      exactly one edge when it chooses none, fails to leave only when its
      own `determine_downstream` raises, and then with the same exception. */
  lemma NextLabelWired<K, S>(table: Table<K>, k: K, data: S, branch: (K, S) -> Choice)
    requires branch(k, data).Default? ==> |Edges(table, k)| == 1
    requires branch(k, data).Label? ==> branch(k, data).name in Edges(table, k)
    ensures NextLabel(table, k, data, branch).Raised? <==> branch(k, data).BranchRaised?
    ensures NextLabel(table, k, data, branch).Raised? ==>
      NextLabel(table, k, data, branch).error == branch(k, data).error
    ensures branch(k, data).Label? ==> NextLabel(table, k, data, branch) == Ok(branch(k, data).name)
  {
  }

  /** `nodes` visited before a trace. */
  function Prepend<K, S>(done: seq<K>, t: Trace<K, S>): Trace<K, S> {
    Trace(done + t.visited, t.data, t.ending, t.raisedAt)
  }

  lemma PrependPrepend<K, S>(a: seq<K>, b: seq<K>, t: Trace<K, S>)
    ensures Prepend(a, Prepend(b, t)) == Prepend(a + b, t)
  {
    assert a + (b + t.visited) == (a + b) + t.visited;
  }

  /** Specification of `WorkflowController.run` from a node of kind `k`. */
  ghost function Walk<K, S>(table: Table<K>, k: K, data: S, step: (K, S) -> Outcome<S>,
                            branch: (K, S) -> Choice, fuel: nat): Trace<K, S>
    decreases fuel
  {
    if fuel == 0 then Trace([], data, OutOfFuel, None)
    else
      match step(k, data)
      case Raised(e) => Trace([], data, Aborted(e), Some(k))
      case Ok(d) =>
        if |Edges(table, k)| == 0 then Trace([k], d, Returned, None)
        else
          match NextLabel(table, k, d, branch)
          case Raised(e) => Trace([k], d, Aborted(e), None)
          case Ok(l) => Prepend([k], Walk(table, Edges(table, k)[l], d, step, branch, fuel - 1))
  }

  /** One step of a walk from a node that is processed and left by an edge. */
  lemma WalkStep<K, S>(table: Table<K>, k: K, data: S, step: (K, S) -> Outcome<S>,
                       branch: (K, S) -> Choice, fuel: nat, d: S)
    requires fuel > 0 && step(k, data) == Ok(d) && |Edges(table, k)| > 0
    requires NextLabel(table, k, d, branch).Ok?
    ensures Walk(table, k, data, step, branch, fuel) ==
      Prepend([k], Walk(table, Edges(table, k)[NextLabel(table, k, d, branch).value], d, step, branch, fuel - 1))
  {
  }

  /** A run visits a path of the table: it starts at `k`, each node is followed
      by one of its downstream nodes, and a run that returns stops at the first
      terminal node it reaches, which it has processed. */
  lemma {:induction false} WalkFollowsEdges<K, S>(table: Table<K>, k: K, data: S, step: (K, S) -> Outcome<S>,
                                                  branch: (K, S) -> Choice, fuel: nat)
    ensures var t := Walk(table, k, data, step, branch, fuel);
      && (|t.visited| > 0 ==> t.visited[0] == k)
      && (forall i :: 0 <= i < |t.visited| - 1 ==>
            |Edges(table, t.visited[i])| > 0 && t.visited[i + 1] in Edges(table, t.visited[i]).Values)
      && (t.ending.Returned? ==> |t.visited| > 0 && |Edges(table, t.visited[|t.visited| - 1])| == 0)
      && |t.visited| <= fuel
    decreases fuel
  {
    if fuel > 0 && step(k, data).Ok? {
      var d := step(k, data).value;
      if |Edges(table, k)| > 0 && NextLabel(table, k, d, branch).Ok? {
        var l := NextLabel(table, k, d, branch).value;
        WalkFollowsEdges(table, Edges(table, k)[l], d, step, branch, fuel - 1);
        var rest := Walk(table, Edges(table, k)[l], d, step, branch, fuel - 1);
        assert Walk(table, k, data, step, branch, fuel).visited == [k] + rest.visited;
      }
    }
  }

  /** How a run aborts: either a node's `process` raised, and then that node
      is the start node or a downstream node of the last node visited, and
      the payload it was given is the final data; or the last node visited
      was processed but could not be left. */
  lemma {:induction false} WalkAbortCause<K, S>(table: Table<K>, k: K, data: S, step: (K, S) -> Outcome<S>,
                                                branch: (K, S) -> Choice, fuel: nat)
    ensures var t := Walk(table, k, data, step, branch, fuel);
      && (t.raisedAt.Some? ==>
            && t.ending.Aborted? && step(t.raisedAt.value, t.data) == Raised(t.ending.error)
            && (|t.visited| == 0 ==> t.raisedAt.value == k)
            && (|t.visited| > 0 ==> t.raisedAt.value in Edges(table, t.visited[|t.visited| - 1]).Values))
      && (t.ending.Aborted? && t.raisedAt.None? ==>
            |t.visited| > 0 && NextLabel(table, t.visited[|t.visited| - 1], t.data, branch) == Raised(t.ending.error))
    decreases fuel
  {
    if fuel > 0 && step(k, data).Ok? {
      var d := step(k, data).value;
      if |Edges(table, k)| > 0 && NextLabel(table, k, d, branch).Ok? {
        var n := Edges(table, k)[NextLabel(table, k, d, branch).value];
        WalkAbortCause(table, n, d, step, branch, fuel - 1);
        var rest := Walk(table, n, d, step, branch, fuel - 1);
        assert Walk(table, k, data, step, branch, fuel) == Prepend([k], rest);
        if |rest.visited| > 0 {
          assert ([k] + rest.visited)[|rest.visited|] == rest.visited[|rest.visited| - 1];
        }
      }
    }
  }

  /** A run that returns has processed a terminal node last, so when `f` is
      the only terminal node, it has processed `f` last. */
  lemma WalkReturnsAt<K, S>(table: Table<K>, k: K, data: S, step: (K, S) -> Outcome<S>,
                            branch: (K, S) -> Choice, fuel: nat, f: K)
    requires forall n :: |Edges(table, n)| == 0 ==> n == f
    ensures var t := Walk(table, k, data, step, branch, fuel);
      t.ending.Returned? ==> |t.visited| > 0 && t.visited[|t.visited| - 1] == f
  {
    WalkFollowsEdges(table, k, data, step, branch, fuel);
    var t := Walk(table, k, data, step, branch, fuel);
    if t.ending.Returned? {
      assert |Edges(table, t.visited[|t.visited| - 1])| == 0;
    }
  }

  /** Node `k`, processed on `s`, leaves `d` and leads to a node of kind `n`. */
  ghost predicate Leads<K, S>(table: Table<K>, step: (K, S) -> Outcome<S>, branch: (K, S) -> Choice,
                              k: K, s: S, n: K, d: S)
  {
    && step(k, s) == Ok(d) && |Edges(table, k)| > 0
    && NextLabel(table, k, d, branch).Ok? && Edges(table, k)[NextLabel(table, k, d, branch).value] == n
  }

  /** A walk from a node that leads to `n` goes on as a walk from `n`. */
  lemma WalkLeads<K, S>(table: Table<K>, step: (K, S) -> Outcome<S>, branch: (K, S) -> Choice,
                        k: K, s: S, n: K, d: S, fuel: nat)
    requires fuel > 0 && Leads(table, step, branch, k, s, n, d)
    ensures Walk(table, k, s, step, branch, fuel) == Prepend([k], Walk(table, n, d, step, branch, fuel - 1))
  {
  }

  /** A walk from a terminal node processed without raising visits only it
      and returns. */
  lemma WalkReturns<K, S>(table: Table<K>, step: (K, S) -> Outcome<S>, branch: (K, S) -> Choice,
                          k: K, s: S, d: S, fuel: nat)
    requires fuel > 0 && step(k, s) == Ok(d) && |Edges(table, k)| == 0
    ensures Walk(table, k, s, step, branch, fuel) == Trace([k], d, Returned, None)
  {
  }

  /** A walk from a node whose processing raises visits nothing and aborts
      with the payload it was given. */
  lemma WalkRaises<K, S>(table: Table<K>, step: (K, S) -> Outcome<S>, branch: (K, S) -> Choice,
                         k: K, s: S, e: PyError, fuel: nat)
    requires fuel > 0 && step(k, s) == Raised(e)
    ensures Walk(table, k, s, step, branch, fuel) == Trace([], s, Aborted(e), Some(k))
  {
  }

  /** A walk from a node that is processed but cannot be left visits only
      it and aborts with the exception raised on the way out. */
  lemma WalkLeaveRaises<K, S>(table: Table<K>, step: (K, S) -> Outcome<S>, branch: (K, S) -> Choice,
                              k: K, s: S, d: S, e: PyError, fuel: nat)
    requires fuel > 0 && step(k, s) == Ok(d) && |Edges(table, k)| > 0
    requires NextLabel(table, k, d, branch) == Raised(e)
    ensures Walk(table, k, s, step, branch, fuel) == Trace([k], d, Aborted(e), None)
  {
  }

  /** One step of a walk spends budget: every payload has some budget left;
      a node other than `target` that is processed does not raise the budget
      of the payload, and `target` lowers it unless it is left for a
      terminal node of another kind. */
  ghost predicate StepBudget<K, S>(table: Table<K>, step: (K, S) -> Outcome<S>, branch: (K, S) -> Choice,
                                   target: K, budget: S -> nat, k: K, s: S)
  {
    && budget(s) > 0
    && (step(k, s).Ok? && k != target ==> budget(step(k, s).value) <= budget(s))
    && (step(k, s).Ok? && k == target ==>
          || budget(step(k, s).value) < budget(s)
          || (|Edges(table, k)| > 0 && NextLabel(table, k, step(k, s).value, branch).Ok? ==>
                var n := Edges(table, k)[NextLabel(table, k, step(k, s).value, branch).value];
                |Edges(table, n)| == 0 && n != target))
  }

  /** When every step spends budget as `StepBudget` says, a walk processes
      `target` at most as many times as the budget of its first payload. */
  lemma {:induction false} WalkCountsDown<K, S>(table: Table<K>, k: K, data: S, step: (K, S) -> Outcome<S>,
                                                branch: (K, S) -> Choice, fuel: nat, target: K, budget: S -> nat)
    requires forall k', s' {:trigger StepBudget(table, step, branch, target, budget, k', s')} ::
      StepBudget(table, step, branch, target, budget, k', s')
    ensures multiset(Walk(table, k, data, step, branch, fuel).visited)[target] <= budget(data)
    decreases fuel
  {
    var w := Walk(table, k, data, step, branch, fuel);
    assert StepBudget(table, step, branch, target, budget, k, data);
    if fuel == 0 || step(k, data).Raised? {
      assert w.visited == [];
    } else {
      var d := step(k, data).value;
      if |Edges(table, k)| == 0 || NextLabel(table, k, d, branch).Raised? {
        assert w.visited == [k];
        assert multiset(w.visited)[target] <= 1 <= budget(data);
      } else {
        var n := Edges(table, k)[NextLabel(table, k, d, branch).value];
        var rest := Walk(table, n, d, step, branch, fuel - 1);
        WalkStep(table, k, data, step, branch, fuel, d);
        assert w.visited == [k] + rest.visited;
        assert multiset(w.visited)[target] == multiset([k])[target] + multiset(rest.visited)[target];
        if k == target && budget(d) >= budget(data) {
          assert rest.visited == [] || rest.visited == [n];
          assert multiset(rest.visited)[target] == 0;
          assert multiset(w.visited)[target] <= 1 <= budget(data);
        } else {
          WalkCountsDown(table, n, d, step, branch, fuel - 1, target, budget);
          assert multiset(rest.visited)[target] <= budget(d);
          assert multiset(w.visited)[target] <= budget(data);
        }
      }
    }
  }

  /** One step of a walk keeps `inv`: from a node and payload satisfying it,
      a processed terminal node leaves a payload satisfying `done`, and a
      node left by an edge leads to a node and payload satisfying it again. */
  ghost predicate StepKeeps<K, S>(table: Table<K>, step: (K, S) -> Outcome<S>, branch: (K, S) -> Choice,
                                  inv: (K, S) -> bool, done: S -> bool, k: K, s: S)
  {
    inv(k, s) && step(k, s).Ok? ==>
      var d := step(k, s).value;
      && (|Edges(table, k)| == 0 ==> done(d))
      && (|Edges(table, k)| > 0 && NextLabel(table, k, d, branch).Ok? ==>
            inv(Edges(table, k)[NextLabel(table, k, d, branch).value], d))
  }

  /** When every step keeps `inv`, a walk that starts where `inv` holds and
      returns ends with a payload satisfying `done`. */
  lemma {:induction false} WalkKeeps<K, S>(table: Table<K>, k: K, data: S, step: (K, S) -> Outcome<S>,
                                           branch: (K, S) -> Choice, fuel: nat, inv: (K, S) -> bool, done: S -> bool)
    requires forall k', s' {:trigger StepKeeps(table, step, branch, inv, done, k', s')} ::
      StepKeeps(table, step, branch, inv, done, k', s')
    requires inv(k, data)
    ensures Walk(table, k, data, step, branch, fuel).ending.Returned? ==> done(Walk(table, k, data, step, branch, fuel).data)
    decreases fuel
  {
    assert StepKeeps(table, step, branch, inv, done, k, data);
    if fuel > 0 && step(k, data).Ok? {
      var d := step(k, data).value;
      if |Edges(table, k)| > 0 && NextLabel(table, k, d, branch).Ok? {
        var n := Edges(table, k)[NextLabel(table, k, d, branch).value];
        WalkKeeps(table, n, d, step, branch, fuel - 1, inv, done);
      }
    }
  }

  /** One step of a walk stays in `inv`: from a node and payload satisfying
      it, the node is processed without raising, is not terminal, is left by
      an edge, and leads to a node and payload satisfying it again. */
  ghost predicate StepStays<K, S>(table: Table<K>, step: (K, S) -> Outcome<S>, branch: (K, S) -> Choice,
                                  inv: (K, S) -> bool, k: K, s: S)
  {
    inv(k, s) ==>
      && step(k, s).Ok? && |Edges(table, k)| > 0
      && NextLabel(table, k, step(k, s).value, branch).Ok?
      && inv(Edges(table, k)[NextLabel(table, k, step(k, s).value, branch).value], step(k, s).value)
  }

  /** When every step stays in `inv`, a walk that starts in it never ends on
      its own: it processes one node per unit of fuel and runs out of fuel,
      whatever the fuel. */
  lemma {:induction false} WalkDiverges<K, S>(table: Table<K>, k: K, data: S, step: (K, S) -> Outcome<S>,
                                              branch: (K, S) -> Choice, fuel: nat, inv: (K, S) -> bool)
    requires forall k', s' {:trigger StepStays(table, step, branch, inv, k', s')} :: StepStays(table, step, branch, inv, k', s')
    requires inv(k, data)
    ensures Walk(table, k, data, step, branch, fuel).ending == OutOfFuel
    ensures |Walk(table, k, data, step, branch, fuel).visited| == fuel
    decreases fuel
  {
    assert StepStays(table, step, branch, inv, k, data);
    if fuel > 0 {
      var d := step(k, data).value;
      var n := Edges(table, k)[NextLabel(table, k, d, branch).value];
      WalkDiverges(table, n, d, step, branch, fuel - 1, inv);
    }
  }

  /** A label that leads on is the one `determine_downstream` returned, or
      the sole edge when the node keeps the inherited behaviour. */
  lemma NextLabelChosen<K, S>(table: Table<K>, k: K, data: S, branch: (K, S) -> Choice)
    requires NextLabel(table, k, data, branch).Ok?
    ensures branch(k, data) == Default || branch(k, data) == Label(NextLabel(table, k, data, branch).value)
  {
  }

  /** Two keys of a one-entry map are the same key. */
  lemma SoleKey<L, V>(m: map<L, V>, a: L, b: L)
    requires |m| == 1 && a in m && b in m
    ensures a == b
  {
    assert |m.Keys - {a}| == 0;
    assert b == a || b in m.Keys - {a};
  }

  /** A node of the workflow. */
  class WorkflowNode<K> {
    const kind: K
    var next: map<string, WorkflowNode<K>>

    /** A node with no downstream node yet. */
    constructor(kind: K)
      ensures this.kind == kind && next == map[]
    {
      this.kind := kind;
      next := map[];
    }

    /** `attach_downstream`: binds the label `name` to `node`, replacing an earlier
        binding of the same label and keeping every other label. */
    method AttachDownstream(name: string, node: WorkflowNode<K>)
      modifies this
      ensures next == old(next)[name := node]
    {
      next := next[name := node];
    }

    /** `is_end`: the node has no downstream node. */
    function IsEnd(): (r: bool)
      reads this
      ensures r <==> next == map[]
    {
      |next| == 0
    }

    /** The inherited `determine_downstream`: nothing on a terminal node;
        otherwise it asserts there is exactly one edge and returns its label. */
    method DetermineDownstream() returns (r: Outcome<Option<string>>)
      ensures r == Ok(None) <==> |next| == 0
      ensures r.Raised? <==> |next| > 1
      ensures r.Raised? ==> r.error == AssertionError
      ensures r.Ok? && r.value.Some? ==> next.Keys == {r.value.value}
    {
      if |next| == 0 {
        return Ok(None);
      }
      if |next| != 1 {
        return Raised(AssertionError);
      }
      var l :| l in next;
      forall x | x in next ensures x == l {
        SoleKey(next, x, l);
      }
      r := Ok(Some(l));
    }
  }

  /** The kinds of a list of nodes. */
  function Kinds<K>(nodes: seq<WorkflowNode<K>>): (r: seq<K>)
    ensures |r| == |nodes| && forall i :: 0 <= i < |r| ==> r[i] == nodes[i].kind
  {
    seq(|nodes|, i requires 0 <= i < |nodes| => nodes[i].kind)
  }

  /** Node `n` has exactly the edges the table gives its kind, and each leads
      to a node of `nodes` of the kind the table names. */
  ghost predicate WiredAsTable<K>(n: WorkflowNode<K>, nodes: set<WorkflowNode<K>>, table: Table<K>)
    reads n
  {
    && n.next.Keys == Edges(table, n.kind).Keys
    && forall l :: l in n.next ==> n.next[l] in nodes && n.next[l].kind == Edges(table, n.kind)[l]
  }

  /** The node objects in `nodes` are wired as `table` says and every edge stays
      inside `nodes`. */
  ghost predicate Respects<K>(nodes: set<WorkflowNode<K>>, table: Table<K>)
    reads nodes
  {
    forall n {:trigger WiredAsTable(n, nodes, table)} :: n in nodes ==> WiredAsTable(n, nodes, table)
  }

  /** The payload dictionary: the data the nodes work on, and the
      `workflow_records` entry, absent until the first node is recorded. */
  class Payload<K, S> {
    var data: S
    var records: Option<seq<WorkflowNode<K>>>

    constructor(data: S)
      ensures this.data == data && records == None
    {
      this.data := data;
      records := None;
    }
  }

  /** The records a payload holds: none when the entry is absent. */
  function Prior<K>(records: Option<seq<WorkflowNode<K>>>): seq<WorkflowNode<K>> {
    if records.Some? then records.value else []
  }

  /** The records after `added` have been appended one by one: the entry is
      created by the first append. */
  function Extended<K>(records: Option<seq<WorkflowNode<K>>>, added: seq<WorkflowNode<K>>): Option<seq<WorkflowNode<K>>> {
    if added == [] then records else Some(Prior(records) + added)
  }

  lemma ExtendedSnoc<K>(records: Option<seq<WorkflowNode<K>>>, added: seq<WorkflowNode<K>>, n: WorkflowNode<K>)
    ensures Extended(records, added + [n]) == Some(Prior(Extended(records, added)) + [n])
  {
    if added != [] {
      assert Prior(records) + (added + [n]) == (Prior(records) + added) + [n];
    } else {
      assert added + [n] == [n];
    }
  }

  lemma KindsSnoc<K>(ns: seq<WorkflowNode<K>>, n: WorkflowNode<K>)
    ensures Kinds(ns + [n]) == Kinds(ns) + [n.kind]
  {
  }

  /** `n` copies of the same payload object. */
  function Repeat<T>(x: T, n: nat): (r: seq<T>)
    ensures |r| == n
  {
    if n == 0 then [] else Repeat(x, n - 1) + [x]
  }

  /** The controller: the start node, the node being run and, per run, the
      nodes operated on and the payload each received and produced. */
  class WorkflowController<K, S> {
    const start: WorkflowNode<K>
    var current: WorkflowNode<K>
    var nodeRecords: seq<WorkflowNode<K>>
    var inputRecords: seq<Payload<K, S>>
    var outputRecords: seq<Payload<K, S>>

    constructor(start: WorkflowNode<K>)
      ensures this.start == start && current == start
      ensures nodeRecords == [] && inputRecords == [] && outputRecords == []
    {
      this.start := start;
      current := start;
      nodeRecords, inputRecords, outputRecords := [], [], [];
    }

    /** `_record_workflow_in_payload`: appends the current node to the
        payload's records, creating the entry on first use. */
    method RecordWorkflowInPayload(payload: Payload<K, S>)
      modifies payload
      ensures payload.records == Some(Prior(old(payload.records)) + [current])
      ensures payload.data == old(payload.data)
    {
      if payload.records.Some? {
        payload.records := Some(payload.records.value + [current]);
      } else {
        payload.records := Some([current]);
        assert Prior(old(payload.records)) + [current] == [current];
      }
    }

    /** `_operate_node`: records the node and its input payload, runs the
        node's `process` on the payload in place and, when it returns, records
        the node in the payload and the payload as output. When `process`
        raises, the payload is left as it was and the exception is returned. */
    method OperateNode(node: WorkflowNode<K>, payload: Payload<K, S>, step: (K, S) -> Outcome<S>)
      returns (err: Option<PyError>)
      modifies this, payload
      ensures current == old(current)
      ensures nodeRecords == old(nodeRecords) + [node]
      ensures inputRecords == old(inputRecords) + [payload]
      ensures step(node.kind, old(payload.data)).Raised? ==>
        && err == Some(step(node.kind, old(payload.data)).error)
        && payload.data == old(payload.data) && payload.records == old(payload.records)
        && outputRecords == old(outputRecords)
      ensures step(node.kind, old(payload.data)).Ok? ==>
        && err == None
        && payload.data == step(node.kind, old(payload.data)).value
        && payload.records == Some(Prior(old(payload.records)) + [current])
        && outputRecords == old(outputRecords) + [payload]
    {
      nodeRecords := nodeRecords + [node];
      inputRecords := inputRecords + [payload];
      match step(node.kind, payload.data)
      case Raised(e) =>
        return Some(e);
      case Ok(d) =>
        payload.data := d;
        RecordWorkflowInPayload(payload);
        outputRecords := outputRecords + [payload];
        return None;
    }

    /** Lines 63-65 of `run`: asks `node` for a label, with the inherited
        `determine_downstream` when the node keeps it, and looks the label up
        among the node's downstream nodes. */
    method Downstream(node: WorkflowNode<K>, data: S, branch: (K, S) -> Choice,
                      ghost table: Table<K>, ghost nodes: set<WorkflowNode<K>>)
      returns (r: Outcome<WorkflowNode<K>>)
      requires node in nodes && WiredAsTable(node, nodes, table) && !node.IsEnd()
      ensures var expected := NextLabel(table, node.kind, data, branch);
        && (r.Ok? <==> expected.Ok?)
        && (r.Raised? ==> r.error == expected.error)
        && (r.Ok? ==> expected.value in node.next && r.value == node.next[expected.value] && r.value in nodes
                      && r.value.kind == Edges(table, node.kind)[expected.value])
    {
      assert |node.next| == |node.next.Keys| == |Edges(table, node.kind).Keys| == |Edges(table, node.kind)|;
      match branch(node.kind, data) {
        case Default =>
          var o := node.DetermineDownstream();
          if o.Raised? {
            return Raised(o.error);
          }
          var name := o.value.value;
          ghost var l :| l in Edges(table, node.kind);
          SoleKey(Edges(table, node.kind), l, name);
          r := Ok(node.next[name]);
        case Label(name) =>
          if name !in node.next {
            return Raised(KeyError(name));
          }
          r := Ok(node.next[name]);
        case BranchRaised(e) =>
          r := Raised(e);
      }
    }

    /** The state of a run that has processed and left the nodes in
        `nodeRecords` and is about to process `current` with `left` units of
        fuel: the rest of the specified trace is the walk from `current`. */
    ghost predicate Midway(spec: Trace<K, S>, payload: Payload<K, S>, initial: Option<seq<WorkflowNode<K>>>,
                           step: (K, S) -> Outcome<S>, branch: (K, S) -> Choice,
                           table: Table<K>, nodes: set<WorkflowNode<K>>, left: nat)
      reads this, payload, nodes
    {
      && current in nodes
      && Respects(nodes, table)
      && spec == Prepend(Kinds(nodeRecords), Walk(table, current.kind, payload.data, step, branch, left))
      && inputRecords == Repeat(payload, |nodeRecords|) && outputRecords == inputRecords
      && payload.records == Extended(initial, nodeRecords)
    }

    /** The state at the end of a run with trace `spec` that ended with
        `ending` (see `Run`). */
    ghost predicate Finished(spec: Trace<K, S>, payload: Payload<K, S>, initial: Option<seq<WorkflowNode<K>>>, ending: Ending)
      reads this, payload, current
    {
      && ending == spec.ending
      && payload.data == spec.data
      && |nodeRecords| == |spec.visited| + (if spec.raisedAt.Some? then 1 else 0)
      && Kinds(nodeRecords[..|spec.visited|]) == spec.visited
      && (spec.raisedAt.Some? ==> nodeRecords[|spec.visited|].kind == spec.raisedAt.value)
      && payload.records == Extended(initial, nodeRecords[..|spec.visited|])
      && inputRecords == Repeat(payload, |nodeRecords|)
      && outputRecords == Repeat(payload, |spec.visited|)
      && (ending.Returned? ==> |nodeRecords| == |spec.visited| && current.IsEnd())
    }

    /** One pass of the loop of `run` on a node that is not terminal: operate
        on it, ask it for a label and move to that downstream node. */
    method RunStep(payload: Payload<K, S>, step: (K, S) -> Outcome<S>, branch: (K, S) -> Choice,
                   ghost table: Table<K>, ghost nodes: set<WorkflowNode<K>>, left: nat,
                   ghost spec: Trace<K, S>, ghost initial: Option<seq<WorkflowNode<K>>>)
      returns (stop: Option<Ending>)
      requires Midway(spec, payload, initial, step, branch, table, nodes, left) && !current.IsEnd()
      modifies this, payload
      ensures stop.None? ==> left > 0 && Midway(spec, payload, initial, step, branch, table, nodes, left - 1)
      ensures stop.Some? ==> Finished(spec, payload, initial, stop.value)
    {
      if left == 0 {
        assert nodeRecords[..|nodeRecords|] == nodeRecords;
        return Some(OutOfFuel);
      }
      ghost var before := payload.data;
      ghost var nodesBefore := nodeRecords;
      ghost var k := current.kind;
      var err := OperateNode(current, payload, step);
      assert nodeRecords[..|nodesBefore|] == nodesBefore;
      if err.Some? {
        WalkRaises(table, step, branch, k, before, err.value, left);
        assert spec == Trace(Kinds(nodesBefore), before, Aborted(err.value), Some(k));
        return Some(Aborted(err.value));
      }
      ExtendedSnoc(initial, nodesBefore, current);
      KindsSnoc(nodesBefore, current);
      assert nodeRecords[..|nodeRecords|] == nodeRecords;
      assert WiredAsTable(current, nodes, table);
      var downstream := Downstream(current, payload.data, branch, table, nodes);
      if downstream.Raised? {
        WalkLeaveRaises(table, step, branch, k, before, payload.data, downstream.error, left);
        assert spec == Trace(Kinds(nodeRecords), payload.data, Aborted(downstream.error), None);
        return Some(Aborted(downstream.error));
      }
      WalkStep(table, current.kind, before, step, branch, left, payload.data);
      ghost var rest := Walk(table, downstream.value.kind, payload.data, step, branch, left - 1);
      PrependPrepend(Kinds(nodesBefore), [k], rest);
      assert spec == Prepend(Kinds(nodeRecords), rest);
      assert inputRecords == Repeat(payload, |nodeRecords|);
      current := downstream.value;
      return None;
    }

    /** The end of `run`: operate on the terminal node reached. */
    method RunLast(payload: Payload<K, S>, step: (K, S) -> Outcome<S>, branch: (K, S) -> Choice,
                   ghost table: Table<K>, ghost nodes: set<WorkflowNode<K>>, left: nat,
                   ghost spec: Trace<K, S>, ghost initial: Option<seq<WorkflowNode<K>>>)
      returns (ending: Ending)
      requires Midway(spec, payload, initial, step, branch, table, nodes, left) && current.IsEnd()
      modifies this, payload
      ensures Finished(spec, payload, initial, ending)
    {
      assert nodeRecords[..|nodeRecords|] == nodeRecords;
      if left == 0 {
        return OutOfFuel;
      }
      assert WiredAsTable(current, nodes, table);
      assert |Edges(table, current.kind).Keys| == 0;
      ghost var nodesBefore := nodeRecords;
      var err := OperateNode(current, payload, step);
      assert nodeRecords[..|nodesBefore|] == nodesBefore;
      if err.Some? {
        return Aborted(err.value);
      }
      ExtendedSnoc(initial, nodesBefore, current);
      KindsSnoc(nodesBefore, current);
      assert nodeRecords[..|nodeRecords|] == nodeRecords;
      return Returned;
    }

    /** `run`: restarts at the start node with empty per-run records, then
        processes nodes and follows their labels until a terminal node has
        been processed. It returns the payload object it was given. The data
        it ends with and the nodes appended to its `workflow_records` are
        those of `Walk`; the controller has recorded the same nodes (plus the
        one whose `process` raised, if any), with the one payload object as
        input of each and as output of each that completed. */
    method Run(payload: Payload<K, S>, step: (K, S) -> Outcome<S>, branch: (K, S) -> Choice,
               ghost table: Table<K>, ghost nodes: set<WorkflowNode<K>>, fuel: nat)
      returns (result: Payload<K, S>, ending: Ending)
      requires start in nodes && Respects(nodes, table)
      modifies this, payload
      ensures result == payload
      ensures Finished(Walk(table, start.kind, old(payload.data), step, branch, fuel), payload, old(payload.records), ending)
    {
      ghost var spec := Walk(table, start.kind, payload.data, step, branch, fuel);
      ghost var initial := payload.records;
      current := start;
      nodeRecords, inputRecords, outputRecords := [], [], [];
      var left := fuel;
      while !current.IsEnd()
        invariant Midway(spec, payload, initial, step, branch, table, nodes, left)
        decreases left
      {
        var stop := RunStep(payload, step, branch, table, nodes, left, spec, initial);
        if stop.Some? {
          return payload, stop.value;
        }
        left := left - 1;
      }
      ending := RunLast(payload, step, branch, table, nodes, left, spec, initial);
      result := payload;
    }
  }
}
