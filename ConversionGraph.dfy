/** The conversion workflow of convert_func_generate/main.py, run by the engine
    of module `WorkflowTool`.

    Each of the twelve node objects (lines 207-218) is a kind of `Node`; its
    `process` is `Process` and its `determine_downstream` is `Branch`. The
    payload dictionary is a `State` value. The language-model calls are opaque:
    the numeric generator, the pairwise proposer and the reviser are the oracle
    functions of `Oracles`, and so are the float parser and the shuffles of the
    pair sampler. Every oracle call increments `calls`, and the n-th call is
    answered by the oracle applied to n, so repeated calls may answer
    differently. */
module ConversionGraph {
  import opened Values
  import Evaluator
  import Sorting
  import DataSampler
  import WT = WorkflowTool

  /** `MAX_ITERATION`. */
  const MaxIteration: int := 5

  /** The node objects of the graph, named as the module-level variables. */
  datatype Node =
    | IsNullConvertion
    | NullConvertionProducer
    | IsNumericConvertion
    | NumericConvertionProducer
    | PairwiseDataGenerator
    | PairwiseDataGeneratorForInvalidReviser
    | InvalidReviser
    | PairwiseConvertorInferencer
    | FitEvaluator
    | RepeatCounter
    | ValueSortor
    | FinalDebug

  /** `payload['convertor']`. */
  datatype Convertor = Convertor(callable: Routine, reasoning: string, funcString: string)

  /** `payload['evaluation']`, with Python floats read as exact reals. */
  datatype Evaluation = Evaluation(f1: real, accuracy: real)

  /** The payload dictionary; an absent key is `None`. `calls` counts the
      oracle calls made so far. */
  datatype State = State(
    inputs: seq<string>,
    targets: seq<string>,
    convertor: Option<Convertor>,
    isFit: Option<bool>,
    split: Option<DataSampler.TrainTest>,
    evaluation: Option<Evaluation>,
    repeatCount: Option<int>,
    calls: nat)

  /** What the nodes ask of the world outside the model. */
  datatype Oracles = Oracles(
    isNumber: string -> bool,
    numeric: (nat, seq<string>, seq<string>) -> Outcome<Convertor>,
    propose: (nat, seq<string>, seq<string>) -> Outcome<Convertor>,
    revise: (nat, Convertor, seq<string>, seq<string>) -> Outcome<Convertor>,
    shuffle: nat -> (nat -> nat))

  /** The routine installed by `NullConvertorProducer`. */
  function IdentityConvertor(): Convertor {
    Convertor(Identity(), "The input values are exactly the same the the target values.", "func = lambda x: x")
  }

  // ---------------------------------------------------------------------------
  // The wiring

  /** Lines 221-241: the labelled edges of each node; `final_debug` has none. */
  function Downstream(k: Node): map<string, Node> {
    match k
    case IsNullConvertion => map["do_null_convertion" := NullConvertionProducer, "continue" := IsNumericConvertion]
    case NullConvertionProducer => map["end" := FinalDebug]
    case IsNumericConvertion => map["continue" := PairwiseDataGenerator, "do_numeric_convertion" := NumericConvertionProducer]
    case NumericConvertionProducer => map["end" := FinalDebug]
    case PairwiseDataGenerator => map["next" := PairwiseConvertorInferencer]
    case PairwiseConvertorInferencer => map["next" := FitEvaluator, "again" := PairwiseDataGeneratorForInvalidReviser]
    case PairwiseDataGeneratorForInvalidReviser => map["next" := InvalidReviser]
    case InvalidReviser => map["next" := FitEvaluator, "again" := PairwiseDataGeneratorForInvalidReviser]
    case FitEvaluator => map["end" := FinalDebug, "again" := RepeatCounter]
    case RepeatCounter => map["end" := FinalDebug, "feedback" := PairwiseDataGenerator, "sort_values" := ValueSortor]
    case ValueSortor => map["next" := PairwiseDataGenerator]
    case FinalDebug => map[]
  }

  /** The twelve nodes of the graph. */
  function AllNodes(): set<Node> {
    {IsNullConvertion, NullConvertionProducer, IsNumericConvertion, NumericConvertionProducer,
     PairwiseDataGenerator, PairwiseConvertorInferencer, PairwiseDataGeneratorForInvalidReviser,
     InvalidReviser, FitEvaluator, RepeatCounter, ValueSortor, FinalDebug}
  }

  /** The same edges as the table the engine runs on. */
  function Wiring(): WT.Table<Node> {
    map k | k in AllNodes() :: Downstream(k)
  }

  lemma EdgesAt(k: Node)
    ensures WT.Edges(Wiring(), k) == Downstream(k)
  {
  }

  // ---------------------------------------------------------------------------
  // process

  /** `PairTrainTestDataSampler().split`: the first half of one pair-preserving
      shuffle, as training and as testing data (see `DataSampler.Split`). */
  function Sampled(inputs: seq<string>, targets: seq<string>, draw: nat -> nat): DataSampler.TrainTest {
    var (ins, tgs) := DataSampler.PairRandomized(inputs, targets, draw);
    var train := DataSampler.SplitTrainTest(ins).0;
    var trainTargets := DataSampler.SplitTrainTest(tgs).0;
    DataSampler.TrainTest(train, trainTargets, train, trainTargets)
  }

  /** f1 and accuracy of a routine, as the two nodes that store `evaluation`
      compute them, f1 first. */
  function Evaluate(c: Convertor, s: State): Outcome<Evaluation> {
    match Evaluator.F1Score(c.callable, s.inputs, s.targets)
    case Raised(e) => Raised(e)
    case Ok(f1) =>
      match Evaluator.Accuracy(c.callable, s.inputs, s.targets)
      case Raised(e) => Raised(e)
      case Ok(acc) => Ok(Evaluation(f1, acc))
  }

  /** `repeat_count` after one more pass: 1 when absent. */
  function Incremented(count: Option<int>): int {
    if count.Some? then count.value + 1 else 1
  }

  /** `NullConvertorProducer.process`: installs the identity routine and
      stores whether it is fit. */
  function NullProduce(s: State): Outcome<State> {
    match Evaluator.IsFit(Identity(), s.inputs, s.targets)
    case Raised(e) => Raised(e)
    case Ok(fit) => Ok(s.(convertor := Some(IdentityConvertor()), isFit := Some(fit)))
  }

  /** `NumericConvertorProducer.process`: installs the numeric generator's
      routine and stores whether it is fit. */
  function NumericProduce(o: Oracles, s: State): Outcome<State> {
    match o.numeric(s.calls, s.inputs, s.targets)
    case Raised(e) => Raised(e)
    case Ok(c) =>
      match Evaluator.IsFit(c.callable, s.inputs, s.targets)
      case Raised(e) => Raised(e)
      case Ok(fit) => Ok(s.(convertor := Some(c), isFit := Some(fit), calls := s.calls + 1))
  }

  /** `PairwiseDataSampler.process`: stores a fresh train/test split. */
  function Sample(o: Oracles, s: State): State {
    s.(split := Some(Sampled(s.inputs, s.targets, o.shuffle(s.calls))), calls := s.calls + 1)
  }

  /** `PairConvertorInference.process`: installs the proposer's routine for
      the training lists. */
  function Infer(o: Oracles, s: State): Outcome<State> {
    if s.split.None? then Raised(KeyError("train_input_values"))
    else
      match o.propose(s.calls, s.split.value.trainInputs, s.split.value.trainTargets)
      case Raised(e) => Raised(e)
      case Ok(c) => Ok(s.(convertor := Some(c), calls := s.calls + 1))
  }

  /** `InvalidConvertorRevise.process`: reads the training targets (line 100),
      then installs the reviser's routine for the full lists. */
  function Revise(o: Oracles, s: State): Outcome<State> {
    if s.split.None? then Raised(KeyError("train_target_values"))
    else if s.convertor.None? then Raised(KeyError("convertor"))
    else
      match o.revise(s.calls, s.convertor.value, s.inputs, s.targets)
      case Raised(e) => Raised(e)
      case Ok(c) => Ok(s.(convertor := Some(c), calls := s.calls + 1))
  }

  /** `FitEvaluator.process`: stores `is_fit` of the installed routine. */
  function FitEvaluate(s: State): Outcome<State> {
    if s.convertor.None? then Raised(KeyError("convertor"))
    else
      match Evaluator.IsFit(s.convertor.value.callable, s.inputs, s.targets)
      case Raised(e) => Raised(e)
      case Ok(fit) => Ok(s.(isFit := Some(fit)))
  }

  /** `RepeatCounter.process`: stores f1 and accuracy and counts the pass.
      The printed outputs on line 148 raise on the same input as f1 does. */
  function CountRepeat(s: State): Outcome<State> {
    if s.convertor.None? then Raised(KeyError("convertor"))
    else
      match Evaluate(s.convertor.value, s)
      case Raised(e) => Raised(e)
      case Ok(ev) => Ok(s.(evaluation := Some(ev), repeatCount := Some(Incremented(s.repeatCount))))
  }

  /** `CompareOutputAndGroundTruth.process`: stores f1 and accuracy. */
  function FinalEvaluate(s: State): Outcome<State> {
    if s.convertor.None? then Raised(KeyError("convertor"))
    else
      match Evaluate(s.convertor.value, s)
      case Raised(e) => Raised(e)
      case Ok(ev) => Ok(s.(evaluation := Some(ev)))
  }

  /** The `process` of every node. The two test nodes keep the inherited one,
      which leaves the payload as it is. */
  function Process(o: Oracles, k: Node, s: State): Outcome<State> {
    match k
    case IsNullConvertion => Ok(s)
    case IsNumericConvertion => Ok(s)
    case NullConvertionProducer => NullProduce(s)
    case NumericConvertionProducer => NumericProduce(o, s)
    case PairwiseDataGenerator => Ok(Sample(o, s))
    case PairwiseDataGeneratorForInvalidReviser => Ok(Sample(o, s))
    case PairwiseConvertorInferencer => Infer(o, s)
    case InvalidReviser => Revise(o, s)
    case FitEvaluator => FitEvaluate(s)
    case RepeatCounter => CountRepeat(s)
    case ValueSortor => Ok(s.(inputs := Sorting.Sorted(s.inputs), targets := Sorting.Sorted(s.targets)))
    case FinalDebug => FinalEvaluate(s)
  }

  // ---------------------------------------------------------------------------
  // determine_downstream

  /** Every value of the list parses as a float. */
  predicate AllNumbers(isNumber: string -> bool, values: seq<string>) {
    forall i :: 0 <= i < |values| ==> isNumber(values[i])
  }

  /** `RepeatCounter.determine_downstream`: `'end'` past `MAX_ITERATION`
      passes, otherwise `'sort_values'` after more than two passes when f1
      exceeds accuracy by more than 0.1, otherwise `'feedback'`. The evaluation
      is read only after more than two passes. */
  function RepeatBranch(s: State): (r: WT.Choice)
    ensures s.repeatCount.None? <==> r == WT.BranchRaised(KeyError("repeat_count"))
    ensures s.repeatCount.Some? ==>
      && (r == WT.Label("end") <==> s.repeatCount.value > MaxIteration)
      && (r == WT.Label("sort_values") <==>
            2 < s.repeatCount.value <= MaxIteration && s.evaluation.Some? &&
            s.evaluation.value.f1 > s.evaluation.value.accuracy + 0.1)
      && (r == WT.Label("feedback") <==>
            s.repeatCount.value <= 2 ||
            (s.repeatCount.value <= MaxIteration && s.evaluation.Some? &&
             s.evaluation.value.f1 <= s.evaluation.value.accuracy + 0.1))
  {
    if s.repeatCount.None? then WT.BranchRaised(KeyError("repeat_count"))
    else if s.repeatCount.value > MaxIteration then WT.Label("end")
    else if s.repeatCount.value > 2 then
      if s.evaluation.None? then WT.BranchRaised(KeyError("evaluation"))
      else if s.evaluation.value.f1 > s.evaluation.value.accuracy + 0.1 then WT.Label("sort_values")
      else WT.Label("feedback")
    else WT.Label("feedback")
  }

  /** The `determine_downstream` of every node; the nodes that keep the
      inherited one give `Default`. */
  function Branch(o: Oracles, k: Node, s: State): WT.Choice {
    match k
    case IsNullConvertion =>
      WT.Label(if s.inputs == s.targets then "do_null_convertion" else "continue")
    case IsNumericConvertion =>
      WT.Label(if AllNumbers(o.isNumber, s.inputs) && AllNumbers(o.isNumber, s.targets)
               then "do_numeric_convertion" else "continue")
    case PairwiseConvertorInferencer => ValidityBranch(s)
    case InvalidReviser => ValidityBranch(s)
    case FitEvaluator => FitBranch(s)
    case RepeatCounter => RepeatBranch(s)
    case _ => WT.Default
  }

  /** `FitEvaluator.determine_downstream`: `'end'` exactly when the routine
      is fit, `'again'` when it is not; it raises where `is_fit` raises. */
  function FitBranch(s: State): WT.Choice {
    if s.convertor.None? then WT.BranchRaised(KeyError("convertor"))
    else
      match Evaluator.IsFit(s.convertor.value.callable, s.inputs, s.targets)
      case Raised(e) => WT.BranchRaised(e)
      case Ok(fit) => WT.Label(if fit then "end" else "again")
  }

  /** The branch of the inference and revise nodes: `'next'` exactly when the
      installed routine raises on no input, `'again'` otherwise. */
  function ValidityBranch(s: State): (r: WT.Choice)
    ensures s.convertor.None? ==> r == WT.BranchRaised(KeyError("convertor"))
    ensures s.convertor.Some? ==>
      (r == WT.Label("next") <==> forall i :: 0 <= i < |s.inputs| ==> s.convertor.value.callable(s.inputs[i]).Some?) &&
      (r == WT.Label("again") <==> exists i :: 0 <= i < |s.inputs| && s.convertor.value.callable(s.inputs[i]).None?)
  {
    if s.convertor.None? then WT.BranchRaised(KeyError("convertor"))
    else WT.Label(if Evaluator.IsValid(s.convertor.value.callable, s.inputs) then "next" else "again")
  }

  function StepOf(o: Oracles): (Node, State) -> Outcome<State> {
    (k: Node, s: State) => Process(o, k, s)
  }

  function BranchOf(o: Oracles): (Node, State) -> WT.Choice {
    (k: Node, s: State) => Branch(o, k, s)
  }

  // ---------------------------------------------------------------------------
  // Properties of single nodes

  /** `IsNullConvertion` takes the null shortcut exactly when the two lists
      are equal element by element. */
  lemma IsNullBranch(o: Oracles, s: State)
    ensures Branch(o, IsNullConvertion, s) == WT.Label("do_null_convertion") <==>
      |s.inputs| == |s.targets| && forall i :: 0 <= i < |s.inputs| ==> s.inputs[i] == s.targets[i]
    ensures Branch(o, IsNullConvertion, s) == WT.Label("continue") <==> s.inputs != s.targets
  {
    if |s.inputs| == |s.targets| && forall i :: 0 <= i < |s.inputs| ==> s.inputs[i] == s.targets[i] {
      assert s.inputs == s.targets;
    }
  }

  /** `FitEvaluator` raises exactly when no routine is installed, the routine
      raises on some input or returns an unhashable value, or there is no
      target; otherwise it stores
      `is_fit` and changes nothing else, and then leaves by `'end'` exactly
      when the routine is fit and by `'again'` exactly when it is not. */
  lemma FitEvaluatorMeaning(o: Oracles, s: State)
    ensures var r := Process(o, FitEvaluator, s);
      && (r.Raised? <==> s.convertor.None? || !Evaluator.IsValid(s.convertor.value.callable, s.inputs)
                         || !Evaluator.HashableOutputs(s.convertor.value.callable, s.inputs) || |s.targets| == 0)
      && (r.Ok? ==>
            && r.value == s.(isFit := Some(Evaluator.IsFit(s.convertor.value.callable, s.inputs, s.targets).value))
            && (Branch(o, FitEvaluator, r.value) == WT.Label("end") <==> r.value.isFit == Some(true))
            && (Branch(o, FitEvaluator, r.value) == WT.Label("again") <==> r.value.isFit == Some(false)))
  {
    if s.convertor.Some? {
      Evaluator.IsFitIff(s.convertor.value.callable, s.inputs, s.targets);
    }
  }

  /** `RepeatCounter` raises exactly when no routine is installed or f1 or
      accuracy raises; otherwise it stores both scores, counts one more pass
      and leaves the lists and the routine as they are. */
  lemma RepeatCounterMeaning(o: Oracles, s: State)
    ensures var r := Process(o, RepeatCounter, s);
      && (r.Raised? <==> (s.convertor.None? || Evaluator.F1Score(s.convertor.value.callable, s.inputs, s.targets).Raised?
                          || Evaluator.Accuracy(s.convertor.value.callable, s.inputs, s.targets).Raised?))
      && (r.Ok? ==>
            && r.value.repeatCount == Some(if s.repeatCount.None? then 1 else s.repeatCount.value + 1)
            && r.value.evaluation == Some(Evaluation(
                 Evaluator.F1Score(s.convertor.value.callable, s.inputs, s.targets).value,
                 Evaluator.Accuracy(s.convertor.value.callable, s.inputs, s.targets).value))
            && r.value.inputs == s.inputs && r.value.targets == s.targets && r.value.convertor == s.convertor)
  {
  }

  /** `ValueSort` never raises and replaces both lists by sorted permutations
      of themselves, leaving the rest of the payload as it is. */
  lemma ValueSortMeaning(o: Oracles, s: State)
    ensures Process(o, ValueSortor, s).Ok?
    ensures var r := Process(o, ValueSortor, s).value;
      && Sorting.Ordered(r.inputs) && multiset(r.inputs) == multiset(s.inputs)
      && Sorting.Ordered(r.targets) && multiset(r.targets) == multiset(s.targets)
      && r == s.(inputs := r.inputs, targets := r.targets)
  {
  }

  /** The wiring: `final_debug` is the only node without downstream nodes;
      the nodes that keep the inherited `determine_downstream` are the
      producers, the samplers, value sorting and the final node, and each of
      them but the final node has exactly one edge. */
  lemma WiringShape(o: Oracles, k: Node, s: State)
    ensures |WT.Edges(Wiring(), k)| == 0 <==> k == FinalDebug
    ensures Branch(o, k, s).Default? <==>
      k in {NullConvertionProducer, NumericConvertionProducer, PairwiseDataGenerator,
            PairwiseDataGeneratorForInvalidReviser, ValueSortor, FinalDebug}
    ensures Branch(o, k, s).Default? && k != FinalDebug ==> |WT.Edges(Wiring(), k)| == 1
  {
    EdgesAt(k);
    if |Downstream(k)| == 0 {
      OnlyFinalTerminal(k);
    }
    DefaultBranches(o, k, s);
    if Branch(o, k, s).Default? && k != FinalDebug {
      BranchWired(o, k, s);
    }
  }

  /** The nodes that keep the inherited `determine_downstream`. */
  lemma DefaultBranches(o: Oracles, k: Node, s: State)
    ensures Branch(o, k, s).Default? <==>
      k in {NullConvertionProducer, NumericConvertionProducer, PairwiseDataGenerator,
            PairwiseDataGeneratorForInvalidReviser, ValueSortor, FinalDebug}
  {
    match k
    case FitEvaluator =>
      assert !FitBranch(s).Default?;
    case _ =>
  }

  // ---------------------------------------------------------------------------
  // Runs of the graph

  /** A run of the graph from a node of kind `k` on payload data `s`. */
  ghost function GraphWalk(o: Oracles, k: Node, s: State, fuel: nat): WT.Trace<Node, State> {
    WT.Walk(Wiring(), k, s, StepOf(o), BranchOf(o), fuel)
  }

  /** The label followed after node `k` has left the data `d`. */
  ghost function NextOf(o: Oracles, k: Node, d: State): Outcome<string> {
    WT.NextLabel(Wiring(), k, d, BranchOf(o))
  }

  /** The graph is wired for every label its nodes choose: leaving a node
      other than `final_debug` fails only when its `determine_downstream`
      itself raises, never in the inherited one-edge assertion or in the
      lookup of the label. */
  lemma LabelsWired(o: Oracles, k: Node, d: State)
    requires k != FinalDebug
    ensures NextOf(o, k, d).Raised? <==> Branch(o, k, d).BranchRaised?
    ensures NextOf(o, k, d).Raised? ==> NextOf(o, k, d).error == Branch(o, k, d).error
    ensures Branch(o, k, d).Label? ==> NextOf(o, k, d) == Ok(Branch(o, k, d).name)
  {
    assert BranchOf(o)(k, d) == Branch(o, k, d);
    EdgesAt(k);
    BranchWired(o, k, d);
    WT.NextLabelWired(Wiring(), k, d, BranchOf(o));
  }

  /** Every label a node other than `final_debug` chooses is one of its
      edges, and the nodes that choose none have exactly one edge. */
  lemma BranchWired(o: Oracles, k: Node, d: State)
    requires k != FinalDebug
    ensures Branch(o, k, d).Default? ==> |Downstream(k)| == 1
    ensures Branch(o, k, d).Label? ==> Branch(o, k, d).name in Downstream(k)
  {
  }

  /** The edges into the nodes with more than one way in, and their labels. */
  lemma Predecessors(k: Node, l: string)
    requires l in Downstream(k)
    ensures Downstream(k)[l] == FitEvaluator ==> (k == PairwiseConvertorInferencer || k == InvalidReviser) && l == "next"
    ensures Downstream(k)[l] == RepeatCounter ==> k == FitEvaluator && l == "again"
    ensures Downstream(k)[l] == ValueSortor ==> k == RepeatCounter && l == "sort_values"
    ensures Downstream(k)[l] == FinalDebug ==>
      k in {NullConvertionProducer, NumericConvertionProducer, FitEvaluator, RepeatCounter} && l == "end"
  {
  }

  /** The fit evaluator is entered only from the inference or revise node
      with a routine that raises on no input, so that `is_fit` there raises
      only on an unhashable output or an empty target list. */
  lemma FitEvaluatorEntry(o: Oracles, k: Node, d: State)
    requires NextOf(o, k, d).Ok? && WT.Edges(Wiring(), k)[NextOf(o, k, d).value] == FitEvaluator
    ensures k == PairwiseConvertorInferencer || k == InvalidReviser
    ensures d.convertor.Some? && Evaluator.IsValid(d.convertor.value.callable, d.inputs)
    ensures Evaluator.IsFit(d.convertor.value.callable, d.inputs, d.targets).Raised? <==>
      !Evaluator.HashableOutputs(d.convertor.value.callable, d.inputs) || |d.targets| == 0
  {
    var l := NextOf(o, k, d).value;
    EdgesAt(k);
    Predecessors(k, l);
    WT.NextLabelChosen(Wiring(), k, d, BranchOf(o));
    assert BranchOf(o)(k, d) == ValidityBranch(d);
    Evaluator.IsFitIff(d.convertor.value.callable, d.inputs, d.targets);
  }

  /** The repeat counter is entered only from the fit evaluator with an unfit
      routine. */
  lemma RepeatCounterEntry(o: Oracles, k: Node, d: State)
    requires NextOf(o, k, d).Ok? && WT.Edges(Wiring(), k)[NextOf(o, k, d).value] == RepeatCounter
    ensures k == FitEvaluator && d.convertor.Some?
    ensures Evaluator.IsFit(d.convertor.value.callable, d.inputs, d.targets) == Ok(false)
  {
    var l := NextOf(o, k, d).value;
    EdgesAt(k);
    Predecessors(k, l);
    WT.NextLabelChosen(Wiring(), k, d, BranchOf(o));
    assert BranchOf(o)(k, d) == FitBranch(d);
  }

  /** Values are sorted only after more than two and at most `MAX_ITERATION`
      passes through the repeat counter, with f1 above accuracy plus 0.1. */
  lemma ValueSortEntry(o: Oracles, k: Node, d: State)
    requires NextOf(o, k, d).Ok? && WT.Edges(Wiring(), k)[NextOf(o, k, d).value] == ValueSortor
    ensures k == RepeatCounter && d.repeatCount.Some? && d.evaluation.Some?
    ensures 2 < d.repeatCount.value <= MaxIteration
    ensures d.evaluation.value.f1 > d.evaluation.value.accuracy + 0.1
  {
    var l := NextOf(o, k, d).value;
    EdgesAt(k);
    Predecessors(k, l);
    WT.NextLabelChosen(Wiring(), k, d, BranchOf(o));
    assert BranchOf(o)(k, d) == RepeatBranch(d);
  }

  /** The final node is entered from a producer, from the fit evaluator with
      a fit routine, or from the repeat counter past `MAX_ITERATION` passes. */
  lemma FinalDebugEntry(o: Oracles, k: Node, d: State)
    requires NextOf(o, k, d).Ok? && WT.Edges(Wiring(), k)[NextOf(o, k, d).value] == FinalDebug
    ensures || k == NullConvertionProducer || k == NumericConvertionProducer
            || (k == FitEvaluator && d.convertor.Some? &&
                Evaluator.IsFit(d.convertor.value.callable, d.inputs, d.targets) == Ok(true))
            || (k == RepeatCounter && d.repeatCount.Some? && d.repeatCount.value > MaxIteration)
  {
    var l := NextOf(o, k, d).value;
    EdgesAt(k);
    Predecessors(k, l);
    if k == FitEvaluator {
      WT.NextLabelChosen(Wiring(), k, d, BranchOf(o));
      assert BranchOf(o)(k, d) == FitBranch(d);
    } else if k == RepeatCounter {
      WT.NextLabelChosen(Wiring(), k, d, BranchOf(o));
      assert BranchOf(o)(k, d) == RepeatBranch(d);
    }
  }

  // The repeat loop

  /** The passes through the repeat counter still allowed with
      `repeat_count` at `count`. */
  function Budget(count: Option<int>): (b: nat)
    ensures b >= 1
    ensures count.None? ==> b == MaxIteration + 1
  {
    if count.None? then MaxIteration + 1
    else if count.value >= MaxIteration then 1
    else MaxIteration + 1 - count.value
  }

  function BudgetOf(): State -> nat {
    (s: State) => Budget(s.repeatCount)
  }

  /** Every node but the repeat counter leaves `repeat_count` as it is, and
      the repeat counter sets it to its old value plus one (one when absent). */
  lemma CountKept(o: Oracles, k: Node, s: State)
    requires Process(o, k, s).Ok?
    ensures k != RepeatCounter ==> Process(o, k, s).value.repeatCount == s.repeatCount
    ensures k == RepeatCounter ==> Process(o, k, s).value.repeatCount == Some(Incremented(s.repeatCount))
  {
  }

  /** Past `MAX_ITERATION` passes the repeat counter leaves by `'end'`. */
  lemma RepeatExit(o: Oracles, d: State)
    requires d.repeatCount.Some? && d.repeatCount.value > MaxIteration
    ensures NextOf(o, RepeatCounter, d) == Ok("end")
  {
    assert BranchOf(o)(RepeatCounter, d) == RepeatBranch(d);
    EdgesAt(RepeatCounter);
  }

  /** Nodes other than the repeat counter keep the pass budget. */
  lemma OtherStep(o: Oracles, k: Node, s: State)
    requires k != RepeatCounter
    ensures WT.StepBudget(Wiring(), StepOf(o), BranchOf(o), RepeatCounter, BudgetOf(), k, s)
  {
    assert StepOf(o)(k, s) == Process(o, k, s);
    if Process(o, k, s).Ok? {
      CountKept(o, k, s);
    }
  }

  /** A pass through the repeat counter lowers the pass budget or, past
      `MAX_ITERATION`, leads to the final node. */
  lemma CounterStep(o: Oracles, s: State)
    ensures WT.StepBudget(Wiring(), StepOf(o), BranchOf(o), RepeatCounter, BudgetOf(), RepeatCounter, s)
  {
    assert StepOf(o)(RepeatCounter, s) == Process(o, RepeatCounter, s);
    if Process(o, RepeatCounter, s).Ok? {
      var d := Process(o, RepeatCounter, s).value;
      CounterBudget(o, s);
      assert BudgetOf()(s) == Budget(s.repeatCount);
      if Incremented(s.repeatCount) > MaxIteration {
        CountKept(o, RepeatCounter, s);
        CounterExit(o, d);
      } else {
        BudgetDrops(s.repeatCount);
      }
    }
  }

  /** The budget after a pass through the repeat counter. */
  lemma CounterBudget(o: Oracles, s: State)
    requires Process(o, RepeatCounter, s).Ok?
    ensures BudgetOf()(Process(o, RepeatCounter, s).value) == Budget(Some(Incremented(s.repeatCount)))
  {
    CountKept(o, RepeatCounter, s);
  }

  /** Past `MAX_ITERATION` passes the repeat counter leads to the final node,
      which has no downstream node. */
  lemma CounterExit(o: Oracles, d: State)
    requires d.repeatCount.Some? && d.repeatCount.value > MaxIteration
    ensures var n := WT.Edges(Wiring(), RepeatCounter)[NextOf(o, RepeatCounter, d).value];
      |WT.Edges(Wiring(), n)| == 0 && n != RepeatCounter
  {
    RepeatExit(o, d);
    EdgesAt(RepeatCounter);
    EdgesAt(FinalDebug);
  }

  /** A pass that leaves the count at most `MAX_ITERATION` lowers the budget. */
  lemma BudgetDrops(count: Option<int>)
    requires Incremented(count) <= MaxIteration
    ensures Budget(Some(Incremented(count))) < Budget(count)
  {
  }

  /** The repeat loop is bounded: a run processes the repeat counter at most
      `Budget(repeat_count)` times, that is `MAX_ITERATION + 1` times from a
      payload without `repeat_count`. */
  lemma RepeatVisits(o: Oracles, k: Node, s: State, fuel: nat)
    ensures multiset(GraphWalk(o, k, s, fuel).visited)[RepeatCounter] <= Budget(s.repeatCount)
  {
    forall k', s' ensures WT.StepBudget(Wiring(), StepOf(o), BranchOf(o), RepeatCounter, BudgetOf(), k', s') {
      if k' == RepeatCounter {
        CounterStep(o, s');
      } else {
        OtherStep(o, k', s');
      }
    }
    WT.WalkCountsDown(Wiring(), k, s, StepOf(o), BranchOf(o), fuel, RepeatCounter, BudgetOf());
  }

  // What a returning run leaves in the payload

  /** `is_fit` is present on entering the final node or the repeat counter. */
  function FitRecorded(): (Node, State) -> bool {
    (k: Node, s: State) => (k == FinalDebug || k == RepeatCounter) ==> s.isFit.Some?
  }

  /** The entries the main block reads after a run. */
  function Complete(): State -> bool {
    (s: State) => s.convertor.Some? && s.isFit.Some? && s.evaluation.Some?
  }

  /** The producers and the fit evaluator set `is_fit`, no node removes it,
      and the final node stores `evaluation` beside an installed routine. */
  lemma FitSet(o: Oracles, k: Node, s: State)
    requires Process(o, k, s).Ok?
    requires k in {NullConvertionProducer, NumericConvertionProducer, FitEvaluator} || s.isFit.Some?
    ensures Process(o, k, s).value.isFit.Some?
    ensures k == FinalDebug ==> Complete()(Process(o, k, s).value)
  {
  }

  /** Each step keeps `FitRecorded`, and the final node completes the
      payload. */
  lemma CompleteStep(o: Oracles, k: Node, s: State)
    ensures WT.StepKeeps(Wiring(), StepOf(o), BranchOf(o), FitRecorded(), Complete(), k, s)
  {
    assert StepOf(o)(k, s) == Process(o, k, s);
    EdgesAt(k);
    if FitRecorded()(k, s) && Process(o, k, s).Ok? {
      var d := Process(o, k, s).value;
      if |Downstream(k)| == 0 {
        OnlyFinalTerminal(k);
        FitSet(o, k, s);
        assert Complete()(d);
      } else if NextOf(o, k, d).Ok? {
        var l := NextOf(o, k, d).value;
        var n := Downstream(k)[l];
        if n == FinalDebug || n == RepeatCounter {
          Predecessors(k, l);
          FitSet(o, k, s);
        }
        assert FitRecorded()(n, d);
      }
    }
  }

  /** `final_debug` is the only node without downstream nodes. */
  lemma OnlyFinalTerminal(k: Node)
    requires |Downstream(k)| == 0
    ensures k == FinalDebug
  {
  }

  /** A run that returns has processed the final node last. */
  lemma ReturnsAtFinal(o: Oracles, k: Node, s: State, fuel: nat)
    ensures var t := GraphWalk(o, k, s, fuel);
      t.ending.Returned? ==> |t.visited| > 0 && t.visited[|t.visited| - 1] == FinalDebug
  {
    forall n | |WT.Edges(Wiring(), n)| == 0 ensures n == FinalDebug {
      EdgesAt(n);
      OnlyFinalTerminal(n);
    }
    WT.WalkReturnsAt(Wiring(), k, s, StepOf(o), BranchOf(o), fuel, FinalDebug);
  }

  /** A run that returns has processed the final node last, and the payload
      then holds `convertor`, `is_fit` and `evaluation`, the entries the main
      block reads afterwards; this needs only that `is_fit` is present when the
      run starts at the final node or at the repeat counter. */
  lemma ReturnedPayloadComplete(o: Oracles, k: Node, s: State, fuel: nat)
    requires (k == FinalDebug || k == RepeatCounter) ==> s.isFit.Some?
    ensures var t := GraphWalk(o, k, s, fuel);
      t.ending.Returned? ==>
        && |t.visited| > 0 && t.visited[|t.visited| - 1] == FinalDebug
        && t.data.convertor.Some? && t.data.isFit.Some? && t.data.evaluation.Some?
  {
    forall k', s' ensures WT.StepKeeps(Wiring(), StepOf(o), BranchOf(o), FitRecorded(), Complete(), k', s') {
      CompleteStep(o, k', s');
    }
    WT.WalkKeeps(Wiring(), k, s, StepOf(o), BranchOf(o), fuel, FitRecorded(), Complete());
    ReturnsAtFinal(o, k, s, fuel);
  }

  // The revise loop

  /** The reviser answers every request about `inputs` and `targets` with a
      routine that raises on some input. */
  ghost predicate NeverRepaired(o: Oracles, inputs: seq<string>, targets: seq<string>) {
    forall n: nat, c: Convertor ::
      o.revise(n, c, inputs, targets).Ok? && !Evaluator.IsValid(o.revise(n, c, inputs, targets).value.callable, inputs)
  }

  /** The revise loop on fixed lists: about to sample with a routine
      installed, or about to revise with a sample and a routine. */
  function Revising(inputs: seq<string>, targets: seq<string>): (Node, State) -> bool {
    (k: Node, s: State) =>
      && (k == PairwiseDataGeneratorForInvalidReviser || (k == InvalidReviser && s.split.Some?))
      && s.convertor.Some? && s.inputs == inputs && s.targets == targets
  }

  /** The sampler before the reviser stores a split and moves on to the
      reviser. */
  lemma SampledForReviser(o: Oracles, s: State)
    ensures Process(o, PairwiseDataGeneratorForInvalidReviser, s) == Ok(Sample(o, s))
    ensures |WT.Edges(Wiring(), PairwiseDataGeneratorForInvalidReviser)| > 0
    ensures NextOf(o, PairwiseDataGeneratorForInvalidReviser, Sample(o, s)) == Ok("next")
    ensures WT.Edges(Wiring(), PairwiseDataGeneratorForInvalidReviser)["next"] == InvalidReviser
  {
    assert BranchOf(o)(PairwiseDataGeneratorForInvalidReviser, Sample(o, s)) == WT.Default;
    EdgesAt(PairwiseDataGeneratorForInvalidReviser);
  }

  /** A revision that raises on some input sends the run back to the
      sampler. */
  lemma RevisedAgain(o: Oracles, s: State)
    requires s.split.Some? && s.convertor.Some?
    requires var r := o.revise(s.calls, s.convertor.value, s.inputs, s.targets);
      r.Ok? && !Evaluator.IsValid(r.value.callable, s.inputs)
    ensures Process(o, InvalidReviser, s).Ok?
    ensures var d := Process(o, InvalidReviser, s).value;
      && d.convertor.Some? && d.inputs == s.inputs && d.targets == s.targets
      && |WT.Edges(Wiring(), InvalidReviser)| > 0
      && NextOf(o, InvalidReviser, d) == Ok("again")
      && WT.Edges(Wiring(), InvalidReviser)["again"] == PairwiseDataGeneratorForInvalidReviser
  {
    var d := Process(o, InvalidReviser, s).value;
    assert BranchOf(o)(InvalidReviser, d) == ValidityBranch(d);
    EdgesAt(InvalidReviser);
  }

  /** Each step of the revise loop stays in it while no revision is valid. */
  lemma ReviseStep(o: Oracles, inputs: seq<string>, targets: seq<string>, k: Node, s: State)
    requires NeverRepaired(o, inputs, targets)
    ensures WT.StepStays(Wiring(), StepOf(o), BranchOf(o), Revising(inputs, targets), k, s)
  {
    if Revising(inputs, targets)(k, s) {
      assert StepOf(o)(k, s) == Process(o, k, s);
      if k == InvalidReviser {
        RevisedAgain(o, s);
      } else {
        SampledForReviser(o, s);
      }
    }
  }

  /** The loop between `pairwise_data_generator_for_invalid_reviser` and
      `invalid_reviser` has no counter: when the reviser never returns a
      routine that raises on no input, the run never ends, whatever fuel it
      is given. */
  lemma ReviseLoopUnbounded(o: Oracles, s: State, fuel: nat)
    requires s.convertor.Some? && NeverRepaired(o, s.inputs, s.targets)
    ensures GraphWalk(o, PairwiseDataGeneratorForInvalidReviser, s, fuel).ending == WT.OutOfFuel
    ensures |GraphWalk(o, PairwiseDataGeneratorForInvalidReviser, s, fuel).visited| == fuel
  {
    forall k', s' ensures WT.StepStays(Wiring(), StepOf(o), BranchOf(o), Revising(s.inputs, s.targets), k', s') {
      ReviseStep(o, s.inputs, s.targets, k', s');
    }
    WT.WalkDiverges(Wiring(), PairwiseDataGeneratorForInvalidReviser, s, StepOf(o), BranchOf(o), fuel,
                    Revising(s.inputs, s.targets));
  }

  // The null shortcut

  /** The identity routine on a non-empty list compared with that same list
      has f1 1, accuracy 1, and is fit. */
  lemma IdentityScores(values: seq<string>)
    requires |values| > 0
    ensures Evaluator.F1Score(Identity(), values, values) == Ok(1.0)
    ensures Evaluator.Accuracy(Identity(), values, values) == Ok(1.0)
    ensures Evaluator.IsFit(Identity(), values, values) == Ok(true)
  {
    assert Evaluator.IsValid(Identity(), values);
    Evaluator.GroupwiseMeaning(Identity(), values, values);
    var g := Evaluator.GroupwiseMatching(Identity(), values, values).value;
    forall v ensures v !in g.unexpected {
      if exists i :: 0 <= i < |values| && Identity()(values[i]) == Some(v) {
        var i :| 0 <= i < |values| && Identity()(values[i]) == Some(v);
        assert Lift(values)[i] == v;
      }
    }
    assert g.unexpected == {};
    Evaluator.F1AtMostOne(Identity(), values, values);
    assert Evaluator.Zipped(values, values) == values;
    Evaluator.PairRowsMeaning(Identity(), values, values);
    Evaluator.AccuracyBounds(Identity(), values, values);
  }

  /** The payload after the null shortcut on a non-empty list. */
  function NullResult(s: State): State {
    s.(convertor := Some(IdentityConvertor()), isFit := Some(true), evaluation := Some(Evaluation(1.0, 1.0)))
  }

  /** The null test sends equal lists to the null producer. */
  lemma NullTestLeads(o: Oracles, s: State)
    requires s.inputs == s.targets
    ensures WT.Leads(Wiring(), StepOf(o), BranchOf(o), IsNullConvertion, s, NullConvertionProducer, s)
  {
    assert StepOf(o)(IsNullConvertion, s) == Ok(s);
    EdgesAt(IsNullConvertion);
    assert BranchOf(o)(IsNullConvertion, s) == WT.Label("do_null_convertion");
  }

  /** The null producer installs the identity routine, finds it fit and
      leads to the final node. */
  lemma NullProducerLeads(o: Oracles, s: State)
    requires s.inputs == s.targets && |s.inputs| > 0
    ensures WT.Leads(Wiring(), StepOf(o), BranchOf(o), NullConvertionProducer, s, FinalDebug,
                     s.(convertor := Some(IdentityConvertor()), isFit := Some(true)))
  {
    IdentityScores(s.inputs);
    var d := s.(convertor := Some(IdentityConvertor()), isFit := Some(true));
    assert StepOf(o)(NullConvertionProducer, s) == Process(o, NullConvertionProducer, s);
    assert BranchOf(o)(NullConvertionProducer, d) == WT.Default;
    EdgesAt(NullConvertionProducer);
  }

  /** After the null producer, the final node stores f1 and accuracy 1 and
      ends the run. */
  lemma NullFinal(o: Oracles, s: State)
    requires s.inputs == s.targets && |s.inputs| > 0
    ensures StepOf(o)(FinalDebug, s.(convertor := Some(IdentityConvertor()), isFit := Some(true))) == Ok(NullResult(s))
    ensures |WT.Edges(Wiring(), FinalDebug)| == 0
  {
    var d := s.(convertor := Some(IdentityConvertor()), isFit := Some(true));
    IdentityEvaluation(d);
    assert StepOf(o)(FinalDebug, d) == FinalEvaluate(d);
    EdgesAt(FinalDebug);
  }

  /** The final node's evaluation of the identity routine on equal non-empty
      lists stores f1 and accuracy 1. */
  lemma IdentityEvaluation(d: State)
    requires d.inputs == d.targets && |d.inputs| > 0 && d.convertor == Some(IdentityConvertor())
    ensures FinalEvaluate(d) == Ok(d.(evaluation := Some(Evaluation(1.0, 1.0))))
  {
    IdentityScores(d.inputs);
    assert Evaluate(IdentityConvertor(), d) == Ok(Evaluation(1.0, 1.0));
  }

  /** Equal non-empty lists take the null shortcut: the run processes the null
      test, the null producer and the final node, installs the identity
      routine, finds it fit with f1 and accuracy 1, and returns. */
  lemma NullShortcut(o: Oracles, s: State, fuel: nat)
    requires s.inputs == s.targets && |s.inputs| > 0 && fuel >= 3
    ensures GraphWalk(o, IsNullConvertion, s, fuel) ==
      WT.Trace([IsNullConvertion, NullConvertionProducer, FinalDebug], NullResult(s), WT.Returned, None)
  {
    var d := s.(convertor := Some(IdentityConvertor()), isFit := Some(true));
    NullTestLeads(o, s);
    WT.WalkLeads(Wiring(), StepOf(o), BranchOf(o), IsNullConvertion, s, NullConvertionProducer, s, fuel);
    NullProducerLeads(o, s);
    WT.WalkLeads(Wiring(), StepOf(o), BranchOf(o), NullConvertionProducer, s, FinalDebug, d, fuel - 1);
    NullFinal(o, s);
    WT.WalkReturns(Wiring(), StepOf(o), BranchOf(o), FinalDebug, d, NullResult(s), fuel - 2);
  }

  /** Two empty lists also take the null shortcut, and the null producer's
      `is_fit` then divides by zero. */
  lemma NullShortcutEmpty(o: Oracles, s: State, fuel: nat)
    requires s.inputs == [] && s.targets == [] && fuel >= 2
    ensures GraphWalk(o, IsNullConvertion, s, fuel) ==
      WT.Trace([IsNullConvertion], s, WT.Aborted(ZeroDivisionError), Some(NullConvertionProducer))
  {
    NullTestLeads(o, s);
    WT.WalkLeads(Wiring(), StepOf(o), BranchOf(o), IsNullConvertion, s, NullConvertionProducer, s, fuel);
    NullProducerRaises(o, s);
    WT.WalkRaises(Wiring(), StepOf(o), BranchOf(o), NullConvertionProducer, s, ZeroDivisionError, fuel - 1);
  }

  /** On two empty lists the null producer's `is_fit` divides by zero. */
  lemma NullProducerRaises(o: Oracles, s: State)
    requires s.inputs == [] && s.targets == []
    ensures StepOf(o)(NullConvertionProducer, s) == Raised(ZeroDivisionError)
  {
    assert Evaluator.IsFit(Identity(), [], []) == Raised(ZeroDivisionError);
    assert StepOf(o)(NullConvertionProducer, s) == NullProduce(s);
  }

  // ---------------------------------------------------------------------------
  // The node objects and the controller

  /** Lines 207-241: creates the twelve node objects and attaches their
      downstream nodes, so that the objects are wired as `Wiring` says. */
  method BuildGraph() returns (start: WT.WorkflowNode<Node>, ghost nodes: set<WT.WorkflowNode<Node>>)
    ensures start in nodes && start.kind == IsNullConvertion
    ensures WT.Respects(nodes, Wiring())
  {
    var isNull := new WT.WorkflowNode(IsNullConvertion);
    var nullProducer := new WT.WorkflowNode(NullConvertionProducer);
    var isNumeric := new WT.WorkflowNode(IsNumericConvertion);
    var numericProducer := new WT.WorkflowNode(NumericConvertionProducer);
    var sampler := new WT.WorkflowNode(PairwiseDataGenerator);
    var reviseSampler := new WT.WorkflowNode(PairwiseDataGeneratorForInvalidReviser);
    var reviser := new WT.WorkflowNode(InvalidReviser);
    var inferencer := new WT.WorkflowNode(PairwiseConvertorInferencer);
    var fit := new WT.WorkflowNode(FitEvaluator);
    var counter := new WT.WorkflowNode(RepeatCounter);
    var sorter := new WT.WorkflowNode(ValueSortor);
    var final := new WT.WorkflowNode(FinalDebug);
    Connect(isNull, nullProducer, isNumeric, numericProducer, sampler, reviseSampler,
            reviser, inferencer, fit, counter, sorter, final);
    GraphRespects(isNull, nullProducer, isNumeric, numericProducer, sampler, reviseSampler,
                  reviser, inferencer, fit, counter, sorter, final);
    nodes := {isNull, nullProducer, isNumeric, numericProducer, sampler, reviseSampler,
              reviser, inferencer, fit, counter, sorter, final};
    start := isNull;
  }

  /** Lines 221-241: attaches the downstream nodes of the graph. The nodes
      have twelve different kinds, so they are twelve different objects. */
  method Connect(isNull: WT.WorkflowNode<Node>, nullProducer: WT.WorkflowNode<Node>,
                isNumeric: WT.WorkflowNode<Node>, numericProducer: WT.WorkflowNode<Node>,
                sampler: WT.WorkflowNode<Node>, reviseSampler: WT.WorkflowNode<Node>,
                reviser: WT.WorkflowNode<Node>, inferencer: WT.WorkflowNode<Node>,
                fit: WT.WorkflowNode<Node>, counter: WT.WorkflowNode<Node>,
                sorter: WT.WorkflowNode<Node>, final: WT.WorkflowNode<Node>)
    requires isNull.kind == IsNullConvertion && nullProducer.kind == NullConvertionProducer
    requires isNumeric.kind == IsNumericConvertion && numericProducer.kind == NumericConvertionProducer
    requires sampler.kind == PairwiseDataGenerator && reviseSampler.kind == PairwiseDataGeneratorForInvalidReviser
    requires reviser.kind == InvalidReviser && inferencer.kind == PairwiseConvertorInferencer
    requires fit.kind == FitEvaluator && counter.kind == RepeatCounter
    requires sorter.kind == ValueSortor && final.kind == FinalDebug
    requires isNull.next == nullProducer.next == isNumeric.next == numericProducer.next == map[]
    requires sampler.next == reviseSampler.next == reviser.next == inferencer.next == map[]
    requires fit.next == counter.next == sorter.next == final.next == map[]
    modifies isNull, nullProducer, isNumeric, numericProducer, sampler, reviseSampler
    modifies reviser, inferencer, fit, counter, sorter
    ensures isNull.next == map["do_null_convertion" := nullProducer, "continue" := isNumeric]
    ensures nullProducer.next == map["end" := final]
    ensures isNumeric.next == map["continue" := sampler, "do_numeric_convertion" := numericProducer]
    ensures numericProducer.next == map["end" := final]
    ensures sampler.next == map["next" := inferencer]
    ensures inferencer.next == map["next" := fit, "again" := reviseSampler]
    ensures reviseSampler.next == map["next" := reviser]
    ensures reviser.next == map["next" := fit, "again" := reviseSampler]
    ensures fit.next == map["end" := final, "again" := counter]
    ensures counter.next == map["end" := final, "feedback" := sampler, "sort_values" := sorter]
    ensures sorter.next == map["next" := sampler]
    ensures final.next == map[]
  {
    WireConvertors(isNull, nullProducer, isNumeric, numericProducer, sampler, final);
    WireLoop(sampler, inferencer, reviseSampler, reviser, fit);
    WireFeedback(fit, counter, sorter, sampler, final);
  }

  /** Lines 221-227: the edges out of the two tests and the two producers. */
  method WireConvertors(isNull: WT.WorkflowNode<Node>, nullProducer: WT.WorkflowNode<Node>,
                        isNumeric: WT.WorkflowNode<Node>, numericProducer: WT.WorkflowNode<Node>,
                        sampler: WT.WorkflowNode<Node>, final: WT.WorkflowNode<Node>)
    requires isNull != nullProducer && isNull != isNumeric && isNull != numericProducer
    requires nullProducer != isNumeric && nullProducer != numericProducer && isNumeric != numericProducer
    requires isNull.next == nullProducer.next == isNumeric.next == numericProducer.next == map[]
    modifies isNull, nullProducer, isNumeric, numericProducer
    ensures isNull.next == map["do_null_convertion" := nullProducer, "continue" := isNumeric]
    ensures nullProducer.next == map["end" := final]
    ensures isNumeric.next == map["continue" := sampler, "do_numeric_convertion" := numericProducer]
    ensures numericProducer.next == map["end" := final]
  {
    isNull.AttachDownstream("do_null_convertion", nullProducer);
    nullProducer.AttachDownstream("end", final);

    isNull.AttachDownstream("continue", isNumeric);
    isNumeric.AttachDownstream("continue", sampler);
    isNumeric.AttachDownstream("do_numeric_convertion", numericProducer);
    numericProducer.AttachDownstream("end", final);
  }

  /** Lines 229-234: the edges of the inference and revision loop. */
  method WireLoop(sampler: WT.WorkflowNode<Node>, inferencer: WT.WorkflowNode<Node>,
                  reviseSampler: WT.WorkflowNode<Node>, reviser: WT.WorkflowNode<Node>,
                  fit: WT.WorkflowNode<Node>)
    requires sampler != inferencer && sampler != reviseSampler && sampler != reviser
    requires inferencer != reviseSampler && inferencer != reviser && reviseSampler != reviser
    requires sampler.next == inferencer.next == reviseSampler.next == reviser.next == map[]
    modifies sampler, inferencer, reviseSampler, reviser
    ensures sampler.next == map["next" := inferencer]
    ensures inferencer.next == map["next" := fit, "again" := reviseSampler]
    ensures reviseSampler.next == map["next" := reviser]
    ensures reviser.next == map["next" := fit, "again" := reviseSampler]
  {
    sampler.AttachDownstream("next", inferencer);
    inferencer.AttachDownstream("next", fit);
    inferencer.AttachDownstream("again", reviseSampler);
    reviseSampler.AttachDownstream("next", reviser);
    reviser.AttachDownstream("next", fit);
    reviser.AttachDownstream("again", reviseSampler);
  }

  /** Lines 236-241: the edges out of the evaluator, the counter and the sorter. */
  method WireFeedback(fit: WT.WorkflowNode<Node>, counter: WT.WorkflowNode<Node>,
                      sorter: WT.WorkflowNode<Node>, sampler: WT.WorkflowNode<Node>,
                      final: WT.WorkflowNode<Node>)
    requires fit != counter && fit != sorter && counter != sorter
    requires fit.next == counter.next == sorter.next == map[]
    modifies fit, counter, sorter
    ensures fit.next == map["end" := final, "again" := counter]
    ensures counter.next == map["end" := final, "feedback" := sampler, "sort_values" := sorter]
    ensures sorter.next == map["next" := sampler]
  {
    fit.AttachDownstream("end", final);
    fit.AttachDownstream("again", counter);
    counter.AttachDownstream("end", final);
    counter.AttachDownstream("feedback", sampler);
    counter.AttachDownstream("sort_values", sorter);
    sorter.AttachDownstream("next", sampler);
  }

  /** Twelve node objects of the twelve kinds with the edges `Connect` gives
      them respect `Wiring`. */
  lemma GraphRespects(isNull: WT.WorkflowNode<Node>, nullProducer: WT.WorkflowNode<Node>,
                      isNumeric: WT.WorkflowNode<Node>, numericProducer: WT.WorkflowNode<Node>,
                      sampler: WT.WorkflowNode<Node>, reviseSampler: WT.WorkflowNode<Node>,
                      reviser: WT.WorkflowNode<Node>, inferencer: WT.WorkflowNode<Node>,
                      fit: WT.WorkflowNode<Node>, counter: WT.WorkflowNode<Node>,
                      sorter: WT.WorkflowNode<Node>, final: WT.WorkflowNode<Node>)
    requires isNull.kind == IsNullConvertion && nullProducer.kind == NullConvertionProducer
    requires isNumeric.kind == IsNumericConvertion && numericProducer.kind == NumericConvertionProducer
    requires sampler.kind == PairwiseDataGenerator && reviseSampler.kind == PairwiseDataGeneratorForInvalidReviser
    requires reviser.kind == InvalidReviser && inferencer.kind == PairwiseConvertorInferencer
    requires fit.kind == FitEvaluator && counter.kind == RepeatCounter
    requires sorter.kind == ValueSortor && final.kind == FinalDebug
    requires isNull.next == map["do_null_convertion" := nullProducer, "continue" := isNumeric]
    requires nullProducer.next == map["end" := final]
    requires isNumeric.next == map["continue" := sampler, "do_numeric_convertion" := numericProducer]
    requires numericProducer.next == map["end" := final]
    requires sampler.next == map["next" := inferencer]
    requires inferencer.next == map["next" := fit, "again" := reviseSampler]
    requires reviseSampler.next == map["next" := reviser]
    requires reviser.next == map["next" := fit, "again" := reviseSampler]
    requires fit.next == map["end" := final, "again" := counter]
    requires counter.next == map["end" := final, "feedback" := sampler, "sort_values" := sorter]
    requires sorter.next == map["next" := sampler]
    requires final.next == map[]
    ensures WT.Respects({isNull, nullProducer, isNumeric, numericProducer, sampler, reviseSampler,
                         reviser, inferencer, fit, counter, sorter, final}, Wiring())
  {
    var nodes := {isNull, nullProducer, isNumeric, numericProducer, sampler, reviseSampler,
                  reviser, inferencer, fit, counter, sorter, final};
    WiredConvertors(isNull, nullProducer, isNumeric, numericProducer, sampler, final, nodes);
    WiredLoop(sampler, inferencer, reviseSampler, reviser, fit, nodes);
    WiredFeedback(fit, counter, sorter, sampler, final, nodes);
    WiredNone(final, nodes);
    RespectsTwelve(isNull, nullProducer, isNumeric, numericProducer, sampler, reviseSampler,
                   reviser, inferencer, fit, counter, sorter, final, Wiring());
  }

  /** The two tests and the two producers are wired as `Wiring` says. */
  lemma WiredConvertors(isNull: WT.WorkflowNode<Node>, nullProducer: WT.WorkflowNode<Node>,
                        isNumeric: WT.WorkflowNode<Node>, numericProducer: WT.WorkflowNode<Node>,
                        sampler: WT.WorkflowNode<Node>, final: WT.WorkflowNode<Node>,
                        nodes: set<WT.WorkflowNode<Node>>)
    requires isNull.kind == IsNullConvertion && nullProducer.kind == NullConvertionProducer
    requires isNumeric.kind == IsNumericConvertion && numericProducer.kind == NumericConvertionProducer
    requires sampler.kind == PairwiseDataGenerator && final.kind == FinalDebug
    requires nullProducer in nodes && isNumeric in nodes && numericProducer in nodes
    requires sampler in nodes && final in nodes
    requires isNull.next == map["do_null_convertion" := nullProducer, "continue" := isNumeric]
    requires nullProducer.next == map["end" := final]
    requires isNumeric.next == map["continue" := sampler, "do_numeric_convertion" := numericProducer]
    requires numericProducer.next == map["end" := final]
    ensures WT.WiredAsTable(isNull, nodes, Wiring()) && WT.WiredAsTable(nullProducer, nodes, Wiring())
    ensures WT.WiredAsTable(isNumeric, nodes, Wiring()) && WT.WiredAsTable(numericProducer, nodes, Wiring())
  {
    WiredTwo(isNull, "do_null_convertion", nullProducer, "continue", isNumeric, nodes);
    WiredOne(nullProducer, "end", final, nodes);
    WiredTwo(isNumeric, "continue", sampler, "do_numeric_convertion", numericProducer, nodes);
    WiredOne(numericProducer, "end", final, nodes);
  }

  /** The samplers, the inferencer and the reviser are wired as `Wiring` says. */
  lemma WiredLoop(sampler: WT.WorkflowNode<Node>, inferencer: WT.WorkflowNode<Node>,
                  reviseSampler: WT.WorkflowNode<Node>, reviser: WT.WorkflowNode<Node>,
                  fit: WT.WorkflowNode<Node>, nodes: set<WT.WorkflowNode<Node>>)
    requires sampler.kind == PairwiseDataGenerator && reviseSampler.kind == PairwiseDataGeneratorForInvalidReviser
    requires reviser.kind == InvalidReviser && inferencer.kind == PairwiseConvertorInferencer
    requires fit.kind == FitEvaluator
    requires inferencer in nodes && reviseSampler in nodes && reviser in nodes && fit in nodes
    requires sampler.next == map["next" := inferencer]
    requires inferencer.next == map["next" := fit, "again" := reviseSampler]
    requires reviseSampler.next == map["next" := reviser]
    requires reviser.next == map["next" := fit, "again" := reviseSampler]
    ensures WT.WiredAsTable(sampler, nodes, Wiring()) && WT.WiredAsTable(inferencer, nodes, Wiring())
    ensures WT.WiredAsTable(reviseSampler, nodes, Wiring()) && WT.WiredAsTable(reviser, nodes, Wiring())
  {
    WiredOne(sampler, "next", inferencer, nodes);
    WiredTwo(inferencer, "next", fit, "again", reviseSampler, nodes);
    WiredOne(reviseSampler, "next", reviser, nodes);
    WiredTwo(reviser, "next", fit, "again", reviseSampler, nodes);
  }

  /** The evaluator, the counter and the sorter are wired as `Wiring` says. */
  lemma WiredFeedback(fit: WT.WorkflowNode<Node>, counter: WT.WorkflowNode<Node>,
                      sorter: WT.WorkflowNode<Node>, sampler: WT.WorkflowNode<Node>,
                      final: WT.WorkflowNode<Node>, nodes: set<WT.WorkflowNode<Node>>)
    requires fit.kind == FitEvaluator && counter.kind == RepeatCounter
    requires sorter.kind == ValueSortor && sampler.kind == PairwiseDataGenerator && final.kind == FinalDebug
    requires counter in nodes && sorter in nodes && sampler in nodes && final in nodes
    requires fit.next == map["end" := final, "again" := counter]
    requires counter.next == map["end" := final, "feedback" := sampler, "sort_values" := sorter]
    requires sorter.next == map["next" := sampler]
    ensures WT.WiredAsTable(fit, nodes, Wiring()) && WT.WiredAsTable(counter, nodes, Wiring())
    ensures WT.WiredAsTable(sorter, nodes, Wiring())
  {
    WiredTwo(fit, "end", final, "again", counter, nodes);
    WiredThree(counter, "end", final, "feedback", sampler, "sort_values", sorter, nodes);
    WiredOne(sorter, "next", sampler, nodes);
  }

  /** A node with no downstream node, of a kind with no edge in `Wiring`. */
  lemma WiredNone(n: WT.WorkflowNode<Node>, nodes: set<WT.WorkflowNode<Node>>)
    requires n.next == map[] && Downstream(n.kind) == map[]
    ensures WT.WiredAsTable(n, nodes, Wiring())
  {
    EdgesAt(n.kind);
  }

  /** A node whose one edge is the one `Wiring` gives its kind. */
  lemma WiredOne(n: WT.WorkflowNode<Node>, l: string, d: WT.WorkflowNode<Node>, nodes: set<WT.WorkflowNode<Node>>)
    requires n.next == map[l := d] && d in nodes
    requires Downstream(n.kind) == map[l := d.kind]
    ensures WT.WiredAsTable(n, nodes, Wiring())
  {
    EdgesAt(n.kind);
  }

  /** A node whose two edges are the ones `Wiring` gives its kind. */
  lemma WiredTwo(n: WT.WorkflowNode<Node>, l1: string, d1: WT.WorkflowNode<Node>,
                 l2: string, d2: WT.WorkflowNode<Node>, nodes: set<WT.WorkflowNode<Node>>)
    requires n.next == map[l1 := d1, l2 := d2] && d1 in nodes && d2 in nodes
    requires Downstream(n.kind) == map[l1 := d1.kind, l2 := d2.kind]
    ensures WT.WiredAsTable(n, nodes, Wiring())
  {
    EdgesAt(n.kind);
  }

  /** A node whose three edges are the ones `Wiring` gives its kind. */
  lemma WiredThree(n: WT.WorkflowNode<Node>, l1: string, d1: WT.WorkflowNode<Node>,
                   l2: string, d2: WT.WorkflowNode<Node>, l3: string, d3: WT.WorkflowNode<Node>,
                   nodes: set<WT.WorkflowNode<Node>>)
    requires n.next == map[l1 := d1, l2 := d2, l3 := d3] && d1 in nodes && d2 in nodes && d3 in nodes
    requires Downstream(n.kind) == map[l1 := d1.kind, l2 := d2.kind, l3 := d3.kind]
    ensures WT.WiredAsTable(n, nodes, Wiring())
  {
    EdgesAt(n.kind);
  }

  /** Twelve nodes each wired as `Wiring` says respect it together. */
  lemma RespectsTwelve<K>(n1: WT.WorkflowNode<K>, n2: WT.WorkflowNode<K>, n3: WT.WorkflowNode<K>,
                          n4: WT.WorkflowNode<K>, n5: WT.WorkflowNode<K>, n6: WT.WorkflowNode<K>,
                          n7: WT.WorkflowNode<K>, n8: WT.WorkflowNode<K>, n9: WT.WorkflowNode<K>,
                          n10: WT.WorkflowNode<K>, n11: WT.WorkflowNode<K>, n12: WT.WorkflowNode<K>,
                          table: WT.Table<K>)
    requires var nodes := {n1, n2, n3, n4, n5, n6, n7, n8, n9, n10, n11, n12};
      && WT.WiredAsTable(n1, nodes, table) && WT.WiredAsTable(n2, nodes, table)
      && WT.WiredAsTable(n3, nodes, table) && WT.WiredAsTable(n4, nodes, table)
      && WT.WiredAsTable(n5, nodes, table) && WT.WiredAsTable(n6, nodes, table)
      && WT.WiredAsTable(n7, nodes, table) && WT.WiredAsTable(n8, nodes, table)
      && WT.WiredAsTable(n9, nodes, table) && WT.WiredAsTable(n10, nodes, table)
      && WT.WiredAsTable(n11, nodes, table) && WT.WiredAsTable(n12, nodes, table)
    ensures WT.Respects({n1, n2, n3, n4, n5, n6, n7, n8, n9, n10, n11, n12}, table)
  {
    var nodes := {n1, n2, n3, n4, n5, n6, n7, n8, n9, n10, n11, n12};
    forall n | n in nodes ensures WT.WiredAsTable(n, nodes, table) {
      if n == n1 {} else if n == n2 {} else if n == n3 {} else if n == n4 {}
      else if n == n5 {} else if n == n6 {} else if n == n7 {} else if n == n8 {}
      else if n == n9 {} else if n == n10 {} else if n == n11 {} else {}
    }
  }

  /** `controller.run(instance)` on the graph of lines 207-243: the payload
      ends as the run of the graph from `is_null_convertion` says, its
      `workflow_records` lists the nodes that run processed, and the repeat
      counter appears there at most `MAX_ITERATION + 1` times when the
      instance holds no `repeat_count`. A run that returns leaves the entries
      the main block reads. */
  method Convert(o: Oracles, instance: State, fuel: nat) returns (payload: WT.Payload<Node, State>, ending: WT.Ending)
    ensures var t := GraphWalk(o, IsNullConvertion, instance, fuel);
      && ending == t.ending && payload.data == t.data
      && (payload.records.None? <==> t.visited == [])
      && (payload.records.Some? ==> WT.Kinds(payload.records.value) == t.visited)
    ensures instance.repeatCount.None? && payload.records.Some? ==>
      multiset(WT.Kinds(payload.records.value))[RepeatCounter] <= MaxIteration + 1
    ensures ending.Returned? ==>
      payload.data.convertor.Some? && payload.data.isFit.Some? && payload.data.evaluation.Some?
  {
    var start, nodes := BuildGraph();
    payload, ending := RunGraph(o, start, nodes, instance, fuel);
    RepeatVisits(o, IsNullConvertion, instance, fuel);
    ReturnedPayloadComplete(o, IsNullConvertion, instance, fuel);
  }

  /** `controller.run(instance)` with a controller built on `start`: the
      payload records the nodes of the run of the graph from `start`. */
  method RunGraph(o: Oracles, start: WT.WorkflowNode<Node>, ghost nodes: set<WT.WorkflowNode<Node>>,
                  instance: State, fuel: nat)
      returns (payload: WT.Payload<Node, State>, ending: WT.Ending)
    requires start in nodes && WT.Respects(nodes, Wiring())
    ensures var t := GraphWalk(o, start.kind, instance, fuel);
      && ending == t.ending && payload.data == t.data
      && (payload.records.None? <==> t.visited == [])
      && (payload.records.Some? ==> WT.Kinds(payload.records.value) == t.visited)
  {
    var controller := new WT.WorkflowController(start);
    payload := new WT.Payload(instance);
    var result;
    result, ending := controller.Run(payload, StepOf(o), BranchOf(o), Wiring(), nodes, fuel);
    ghost var t := GraphWalk(o, start.kind, instance, fuel);
    ghost var done := controller.nodeRecords[..|t.visited|];
    assert WT.Kinds(done) == t.visited;
    if done != [] {
      assert [] + done == done;
    }
  }
}
