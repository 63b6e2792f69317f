/** The evaluator of convert_func_generate/src/evaluator.py: it scores a candidate
    routine against a list of input values and a list of target values.

    The `check_*` operations are loops that build result lists; they are methods
    here, each proved equal to a specification function. `is_valid`, `is_fit`,
    `f1_score` and `accuracy` are expressions over those results and are
    functions of the specification functions. Python floats become exact reals. */
module Evaluator {
  import opened Values

  /** One entry of the validity report: the input on which the routine raised.
      (The traceback text the source stores beside it is not modelled.) */
  datatype InvalidEntry = InvalidEntry(invalidInput: string)

  /** One row of the pairwise report. */
  datatype MatchRow = MatchRow(input: string, output: PyValue, target: string, correct: bool)

  /** The groupwise report: outputs that are not targets, targets never produced. */
  datatype GroupMatch = GroupMatch(unexpected: set<PyValue>, missing: set<PyValue>)

  // ---------------------------------------------------------------------------
  // Validity

  /** The inputs on which `f` raises, in input order (specification of
      `check_function_validity`). */
  function InvalidInputs(f: Routine, inputs: seq<string>): (r: seq<string>)
    ensures |r| <= |inputs|
    ensures forall x :: x in r ==> x in inputs && f(x).None?
    ensures forall i :: 0 <= i < |inputs| && f(inputs[i]).None? ==> inputs[i] in r
  {
    if inputs == [] then []
    else
      var last := inputs[|inputs| - 1];
      InvalidInputs(f, inputs[..|inputs| - 1]) + (if f(last).None? then [last] else [])
  }

  /** Applies `f` to every input without stopping at a failure and reports one
      entry per input on which it raises, in input order. */
  method CheckFunctionValidity(f: Routine, inputs: seq<string>) returns (results: seq<InvalidEntry>)
    ensures |results| == |InvalidInputs(f, inputs)|
    ensures forall k :: 0 <= k < |results| ==> results[k].invalidInput == InvalidInputs(f, inputs)[k]
  {
    results := [];
    for i := 0 to |inputs|
      invariant |results| == |InvalidInputs(f, inputs[..i])|
      invariant forall k :: 0 <= k < |results| ==> results[k].invalidInput == InvalidInputs(f, inputs[..i])[k]
    {
      assert inputs[..i + 1][..i] == inputs[..i];
      if f(inputs[i]).None? {
        results := results + [InvalidEntry(inputs[i])];
      }
    }
    assert inputs[..|inputs|] == inputs;
  }

  /** `is_valid`: the validity report is empty. */
  function IsValid(f: Routine, inputs: seq<string>): (r: bool)
    ensures r <==> forall i :: 0 <= i < |inputs| ==> f(inputs[i]).Some?
  {
    var bad := InvalidInputs(f, inputs);
    assert |bad| > 0 ==> bad[0] in bad;
    |bad| == 0
  }

  // ---------------------------------------------------------------------------
  // Outputs, groupwise matching

  /** The outputs of `f` on every input, or the failure of the first input on
      which it raises (the loop in `check_groupwise_matching` does not catch). */
  function Outputs(f: Routine, inputs: seq<string>): (r: Outcome<seq<PyValue>>)
    ensures r.Ok? ==> |r.value| == |inputs|
  {
    if inputs == [] then Ok([])
    else
      var init := inputs[..|inputs| - 1];
      var last := inputs[|inputs| - 1];
      match Outputs(f, init)
      case Raised(e) => Raised(e)
      case Ok(outs) =>
        match f(last)
        case None => Raised(RoutineRaised(last))
        case Some(v) => Ok(outs + [v])
  }

  /** Every value `f` returns on the inputs can be put in a set. */
  predicate HashableOutputs(f: Routine, inputs: seq<string>) {
    forall i :: 0 <= i < |inputs| && f(inputs[i]).Some? ==> Hashable(f(inputs[i]).value)
  }

  /** Specification of `check_groupwise_matching`: the set of outputs minus the
      set of targets, and the set of targets minus the set of outputs; building
      the set of outputs raises `TypeError` when one of them is unhashable. */
  function GroupwiseMatching(f: Routine, inputs: seq<string>, targets: seq<string>): Outcome<GroupMatch>
  {
    match Outputs(f, inputs)
    case Raised(e) => Raised(e)
    case Ok(outs) =>
      if exists v :: v in outs && !Hashable(v) then Raised(TypeError)
      else
      var produced := set v | v in outs;
      var expected := set v | v in Lift(targets);
      Ok(GroupMatch(produced - expected, expected - produced))
  }

  /** Collects the outputs of `f` on every input and compares them, as sets, with
      the targets; a raising routine makes the whole check raise. */
  method CheckGroupwiseMatching(f: Routine, inputs: seq<string>, targets: seq<string>) returns (r: Outcome<GroupMatch>)
    ensures r == GroupwiseMatching(f, inputs, targets)
  {
    var outputs: seq<PyValue> := [];
    for i := 0 to |inputs|
      invariant Outputs(f, inputs[..i]) == Ok(outputs)
    {
      assert inputs[..i + 1][..i] == inputs[..i];
      var out := f(inputs[i]);
      if out.None? {
        assert Outputs(f, inputs[..i + 1]) == Raised(RoutineRaised(inputs[i]));
        assert forall j :: i < j <= |inputs| ==> inputs[..j][..i + 1] == inputs[..i + 1];
        OutputsRaisedExtends(f, inputs, i + 1);
        return Raised(RoutineRaised(inputs[i]));
      }
      outputs := outputs + [out.value];
    }
    assert inputs[..|inputs|] == inputs;
    if exists v :: v in outputs && !Hashable(v) {
      return Raised(TypeError);
    }
    var produced := set v | v in outputs;
    var expected := set v | v in Lift(targets);
    r := Ok(GroupMatch(produced - expected, expected - produced));
  }

  /** Once a prefix raises, every longer prefix raises with the same error. */
  lemma {:induction false} OutputsRaisedExtends(f: Routine, inputs: seq<string>, n: nat)
    requires n <= |inputs| && Outputs(f, inputs[..n]).Raised?
    ensures Outputs(f, inputs) == Outputs(f, inputs[..n])
    decreases |inputs| - n
  {
    if n < |inputs| {
      assert inputs[..n + 1][..n] == inputs[..n];
      OutputsRaisedExtends(f, inputs, n + 1);
    } else {
      assert inputs[..n] == inputs;
    }
  }

  /** `Outputs` succeeds exactly on a valid routine, and then holds the
      routine's value on each input in input order; otherwise it carries the
      first input on which the routine raises. */
  lemma {:induction false} OutputsMeaning(f: Routine, inputs: seq<string>)
    ensures Outputs(f, inputs).Ok? <==> IsValid(f, inputs)
    ensures Outputs(f, inputs).Ok? ==>
      forall i :: 0 <= i < |inputs| ==> Some(Outputs(f, inputs).value[i]) == f(inputs[i])
    ensures Outputs(f, inputs).Raised? ==>
      |InvalidInputs(f, inputs)| > 0 && Outputs(f, inputs).error == RoutineRaised(InvalidInputs(f, inputs)[0])
  {
    if inputs != [] {
      var init := inputs[..|inputs| - 1];
      var last := inputs[|inputs| - 1];
      OutputsMeaning(f, init);
      assert forall i :: 0 <= i < |init| ==> init[i] == inputs[i];
      assert IsValid(f, inputs) <==> IsValid(f, init) && f(last).Some?;
    }
  }

  /** The groupwise report raises exactly when the routine is invalid, with the
      first raising input, or returns an unhashable value, with `TypeError`;
      otherwise `unexpected` holds exactly the outputs that are no target and
      `missing` exactly the targets that are no output. */
  lemma GroupwiseMeaning(f: Routine, inputs: seq<string>, targets: seq<string>)
    ensures GroupwiseMatching(f, inputs, targets).Ok? <==> IsValid(f, inputs) && HashableOutputs(f, inputs)
    ensures !IsValid(f, inputs) ==>
      GroupwiseMatching(f, inputs, targets).error == RoutineRaised(InvalidInputs(f, inputs)[0])
    ensures IsValid(f, inputs) && !HashableOutputs(f, inputs) ==>
      GroupwiseMatching(f, inputs, targets).error == TypeError
    ensures GroupwiseMatching(f, inputs, targets).Ok? ==>
      var g := GroupwiseMatching(f, inputs, targets).value;
      && (forall v :: v in g.unexpected <==> (exists i :: 0 <= i < |inputs| && f(inputs[i]) == Some(v)) && v !in Lift(targets))
      && (forall v :: v in g.missing <==> v in Lift(targets) && !(exists i :: 0 <= i < |inputs| && f(inputs[i]) == Some(v)))
  {
    OutputsMeaning(f, inputs);
    if IsValid(f, inputs) {
      var outs := Outputs(f, inputs).value;
      forall v
        ensures v in outs <==> exists i :: 0 <= i < |inputs| && f(inputs[i]) == Some(v)
      {
        if v in outs {
          var i :| 0 <= i < |outs| && outs[i] == v;
          assert f(inputs[i]) == Some(v);
        }
        if exists i :: 0 <= i < |inputs| && f(inputs[i]) == Some(v) {
          var i :| 0 <= i < |inputs| && f(inputs[i]) == Some(v);
          assert outs[i] == v;
        }
      }
      if !HashableOutputs(f, inputs) {
        var i :| 0 <= i < |inputs| && f(inputs[i]).Some? && !Hashable(f(inputs[i]).value);
        assert outs[i] in outs && !Hashable(outs[i]);
      }
    }
  }

  // ---------------------------------------------------------------------------
  // Pairwise matching

  /** Specification of `check_pairwise_matching`: one row per position of the
      zipped lists, stopping with the first failure. */
  function PairRows(f: Routine, inputs: seq<string>, targets: seq<string>): (r: Outcome<seq<MatchRow>>)
    ensures r.Ok? ==> |r.value| == Min(|inputs|, |targets|)
  {
    var n := Min(|inputs|, |targets|);
    match Outputs(f, inputs[..n])
    case Raised(e) => Raised(e)
    case Ok(outs) => Ok(MakeRows(inputs, targets, outs))
  }

  /** The inputs `zip` actually visits: the prefix as long as the shorter list. */
  function Zipped(inputs: seq<string>, targets: seq<string>): seq<string> {
    inputs[..Min(|inputs|, |targets|)]
  }

  /** The rows built from the first |outs| positions and the outputs on them. */
  function MakeRows(inputs: seq<string>, targets: seq<string>, outs: seq<PyValue>): (rows: seq<MatchRow>)
    requires |outs| <= |inputs| && |outs| <= |targets|
  {
    seq(|outs|, i requires 0 <= i < |outs| => MatchRow(inputs[i], outs[i], targets[i], outs[i] == Str(targets[i])))
  }

  lemma MakeRowsSnoc(inputs: seq<string>, targets: seq<string>, outs: seq<PyValue>, v: PyValue)
    requires |outs| < |inputs| && |outs| < |targets|
    ensures MakeRows(inputs, targets, outs + [v]) ==
      MakeRows(inputs, targets, outs) + [MatchRow(inputs[|outs|], v, targets[|outs|], v == Str(targets[|outs|]))]
  {
  }

  /** The pairwise report raises exactly when the routine raises on one of the
      zipped inputs, with the first of them; otherwise it has one row per
      zipped position, holding that input, its target, the routine's output and
      whether the output equals the target. */
  lemma PairRowsMeaning(f: Routine, inputs: seq<string>, targets: seq<string>)
    ensures PairRows(f, inputs, targets).Ok? <==> IsValid(f, Zipped(inputs, targets))
    ensures PairRows(f, inputs, targets).Raised? ==>
      PairRows(f, inputs, targets).error == RoutineRaised(InvalidInputs(f, Zipped(inputs, targets))[0])
    ensures PairRows(f, inputs, targets).Ok? ==>
      var rows := PairRows(f, inputs, targets).value;
      forall i :: 0 <= i < |rows| ==>
        && rows[i].input == inputs[i] && rows[i].target == targets[i]
        && Some(rows[i].output) == f(inputs[i])
        && (rows[i].correct <==> rows[i].output == Str(targets[i]))
  {
    var z := Zipped(inputs, targets);
    OutputsMeaning(f, z);
  }

  /** Walks the two lists in step, records one row per position and stops at the
      end of the shorter one; a raising routine makes the whole check raise. */
  method CheckPairwiseMatching(f: Routine, inputs: seq<string>, targets: seq<string>) returns (r: Outcome<seq<MatchRow>>)
    ensures r == PairRows(f, inputs, targets)
  {
    var n := Min(|inputs|, |targets|);
    var zipped := inputs[..n];
    var rows: seq<MatchRow> := [];
    ghost var outs: seq<PyValue> := [];
    for i := 0 to n
      invariant Outputs(f, zipped[..i]) == Ok(outs)
      invariant |outs| == i
      invariant rows == MakeRows(inputs, targets, outs)
    {
      assert zipped[..i + 1][..i] == zipped[..i];
      var out := f(inputs[i]);
      if out.None? {
        assert Outputs(f, zipped[..i + 1]) == Raised(RoutineRaised(inputs[i]));
        OutputsRaisedExtends(f, zipped, i + 1);
        assert zipped[..|zipped|] == zipped;
        return Raised(RoutineRaised(inputs[i]));
      }
      MakeRowsSnoc(inputs, targets, outs, out.value);
      outs := outs + [out.value];
      rows := rows + [MatchRow(inputs[i], out.value, targets[i], out.value == Str(targets[i]))];
    }
    assert zipped[..n] == zipped;
    r := Ok(rows);
  }

  /** The number of rows marked correct. */
  function CountCorrect(rows: seq<MatchRow>): (c: nat)
    ensures c <= |rows|
    ensures c == |rows| <==> forall i :: 0 <= i < |rows| ==> rows[i].correct
  {
    if rows == [] then 0
    else CountCorrect(rows[1..]) + (if rows[0].correct then 1 else 0)
  }

  // ---------------------------------------------------------------------------
  // Scores

  /** `f1_score`: (len(targets) - |unexpected|) / len(targets); raises on an empty
      target list and when the routine raises. */
  function F1Score(f: Routine, inputs: seq<string>, targets: seq<string>): Outcome<real> {
    match GroupwiseMatching(f, inputs, targets)
    case Raised(e) => Raised(e)
    case Ok(g) =>
      if |targets| == 0 then Raised(ZeroDivisionError)
      else Ok((|targets| - |g.unexpected|) as real / |targets| as real)
  }

  /** `accuracy`: correct rows divided by the number of rows (not by the number of
      targets); raises when there is no row and when the routine raises. */
  function Accuracy(f: Routine, inputs: seq<string>, targets: seq<string>): Outcome<real> {
    match PairRows(f, inputs, targets)
    case Raised(e) => Raised(e)
    case Ok(rows) =>
      if |rows| == 0 then Raised(ZeroDivisionError)
      else Ok(CountCorrect(rows) as real / |rows| as real)
  }

  /** `is_fit`: the f1 score equals 1.0. */
  function IsFit(f: Routine, inputs: seq<string>, targets: seq<string>): Outcome<bool> {
    match F1Score(f, inputs, targets)
    case Raised(e) => Raised(e)
    case Ok(score) => Ok(score == 1.0)
  }

  // ---------------------------------------------------------------------------
  // Properties

  /** f1 is at most 1, and equals 1 exactly when no output falls outside the
      targets, whatever targets are missing. */
  lemma F1AtMostOne(f: Routine, inputs: seq<string>, targets: seq<string>)
    requires F1Score(f, inputs, targets).Ok?
    ensures F1Score(f, inputs, targets).value <= 1.0
    ensures F1Score(f, inputs, targets).value == 1.0 <==> GroupwiseMatching(f, inputs, targets).value.unexpected == {}
  {
    var g := GroupwiseMatching(f, inputs, targets).value;
    var n := |targets| as real;
    var u := |g.unexpected| as real;
    assert F1Score(f, inputs, targets).value == (n - u) / n;
    RatioFacts(n - u, n);
    assert n - u == n <==> g.unexpected == {};
  }

  /** `is_fit` raises exactly when the routine raises on some input, returns
      an unhashable value or the target list is empty; otherwise it holds
      exactly when the unexpected set is empty, whatever is missing. */
  lemma IsFitIff(f: Routine, inputs: seq<string>, targets: seq<string>)
    ensures IsFit(f, inputs, targets).Raised? <==>
      !IsValid(f, inputs) || !HashableOutputs(f, inputs) || |targets| == 0
    ensures IsFit(f, inputs, targets).Ok? ==>
      (IsFit(f, inputs, targets).value <==> GroupwiseMatching(f, inputs, targets).value.unexpected == {})
  {
    GroupwiseMeaning(f, inputs, targets);
    if F1Score(f, inputs, targets).Ok? {
      F1AtMostOne(f, inputs, targets);
    }
  }

  /** A routine returning a list, such as `lambda x: x.split(',')`, is never
      compared: `is_fit` raises `TypeError` while building the set of outputs. */
  lemma UnhashableOutputRaises(id: nat)
    ensures IsFit(x => Some(Other(id, false)), ["a,b"], ["a"]) == Raised(TypeError)
  {
    var f: Routine := x => Some(Other(id, false));
    GroupwiseMeaning(f, ["a,b"], ["a"]);
    assert IsValid(f, ["a,b"]);
  }

  /** Accuracy lies in [0, 1] and equals 1 exactly when every row is correct;
      with no row it divides by zero. */
  lemma AccuracyBounds(f: Routine, inputs: seq<string>, targets: seq<string>)
    ensures PairRows(f, inputs, targets).Ok? && |PairRows(f, inputs, targets).value| == 0 ==>
      Accuracy(f, inputs, targets) == Raised(ZeroDivisionError)
    ensures Accuracy(f, inputs, targets).Ok? ==>
      var a := Accuracy(f, inputs, targets).value;
      var rows := PairRows(f, inputs, targets).value;
      && 0.0 <= a <= 1.0
      && (a == 1.0 <==> forall i :: 0 <= i < |rows| ==> rows[i].correct)
  {
    if Accuracy(f, inputs, targets).Ok? {
      var rows := PairRows(f, inputs, targets).value;
      RatioFacts(CountCorrect(rows) as real, |rows| as real);
    }
  }

  /** Facts about a ratio with a positive denominator. */
  lemma RatioFacts(x: real, n: real)
    requires n > 0.0
    ensures x / n == 1.0 <==> x == n
    ensures x <= n ==> x / n <= 1.0
    ensures 0.0 <= x ==> 0.0 <= x / n
  {
    var q := x / n;
    assert q * n == x;
    if x <= n {
      assert q * n <= 1.0 * n;
    }
  }
}
