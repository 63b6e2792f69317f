/** The older single-file generator, auto_convertion_code_generation.py.

    Its `Evaluator` (lines 20-82) is the code of convert_func_generate/src/evaluator.py
    except for `is_fit`, so only `is_fit` is modelled again here; validity,
    groupwise and pairwise checks are the members of module `Evaluator`. Its
    `split_train_test` (lines 177-182) is the slicing of
    `DataSampler.SplitTrainTest`, and the group sampler's `randomize_values`
    (lines 256-265) is `DataSampler.GroupRandomize`. What differs is the
    post-processing, which falls back to `lambda x: None` on a `SyntaxError`, the
    pair sampler, which repeats and sub-samples the pairs, and `forward`, which
    tries the identity routine first and then retries until the proposed routine
    is valid on the sample it was shown. */
module AutoConvertion {
  import opened Values
  import Evaluator
  import DataSampler
  import DspyAgent

  // ---------------------------------------------------------------------------
  // is_fit

  /** Lines 28-31: the routine is fit when, as sets, its outputs are exactly the
      targets: no unexpected output and no missing target. It raises when the
      routine raises or returns an unhashable value. */
  function LegacyIsFit(f: Routine, inputs: seq<string>, targets: seq<string>): Outcome<bool> {
    match Evaluator.GroupwiseMatching(f, inputs, targets)
    case Raised(e) => Raised(e)
    case Ok(g) => Ok(g.unexpected == {} && g.missing == {})
  }

  /** Every output of `f` on the inputs is one of the targets. */
  ghost predicate OutputsAreTargets(f: Routine, inputs: seq<string>, targets: seq<string>) {
    forall i :: 0 <= i < |inputs| ==> f(inputs[i]).Some? && f(inputs[i]).value in Lift(targets)
  }

  /** Every target is the output of `f` on some input. */
  ghost predicate TargetsProduced(f: Routine, inputs: seq<string>, targets: seq<string>) {
    forall j :: 0 <= j < |targets| ==> exists i :: 0 <= i < |inputs| && f(inputs[i]) == Some(Str(targets[j]))
  }

  /** The older `is_fit` raises exactly on a routine that raises on some
      input or returns an unhashable value; otherwise it holds exactly when
      every output is a target and every target is an output. */
  lemma LegacyIsFitIff(f: Routine, inputs: seq<string>, targets: seq<string>)
    ensures LegacyIsFit(f, inputs, targets).Raised? <==>
      !Evaluator.IsValid(f, inputs) || !Evaluator.HashableOutputs(f, inputs)
    ensures LegacyIsFit(f, inputs, targets).Ok? ==>
      (LegacyIsFit(f, inputs, targets).value <==>
        OutputsAreTargets(f, inputs, targets) && TargetsProduced(f, inputs, targets))
  {
    Evaluator.GroupwiseMeaning(f, inputs, targets);
    if LegacyIsFit(f, inputs, targets).Ok? {
      var g := Evaluator.GroupwiseMatching(f, inputs, targets).value;
      assert LegacyIsFit(f, inputs, targets) == Ok(g.unexpected == {} && g.missing == {});
      NoUnexpectedIff(f, inputs, targets, g);
      NoMissingIff(f, inputs, targets, g);
    }
  }

  lemma NoUnexpectedIff(f: Routine, inputs: seq<string>, targets: seq<string>, g: Evaluator.GroupMatch)
    requires forall v :: v in g.unexpected <==> (exists i :: 0 <= i < |inputs| && f(inputs[i]) == Some(v)) && v !in Lift(targets)
    requires Evaluator.IsValid(f, inputs)
    ensures g.unexpected == {} <==> OutputsAreTargets(f, inputs, targets)
  {
    if g.unexpected != {} {
      var v :| v in g.unexpected;
      var i :| 0 <= i < |inputs| && f(inputs[i]) == Some(v);
      assert f(inputs[i]).value !in Lift(targets);
    } else {
      forall i | 0 <= i < |inputs| ensures f(inputs[i]).value in Lift(targets) {
        var v := f(inputs[i]).value;
        assert v !in g.unexpected;
      }
    }
  }

  lemma NoMissingIff(f: Routine, inputs: seq<string>, targets: seq<string>, g: Evaluator.GroupMatch)
    requires forall v :: v in g.missing <==> v in Lift(targets) && !(exists i :: 0 <= i < |inputs| && f(inputs[i]) == Some(v))
    ensures g.missing == {} <==> TargetsProduced(f, inputs, targets)
  {
    if g.missing != {} {
      var v :| v in g.missing;
      var j :| 0 <= j < |Lift(targets)| && Lift(targets)[j] == v;
      assert v == Str(targets[j]);
    } else {
      forall j | 0 <= j < |targets|
        ensures exists i :: 0 <= i < |inputs| && f(inputs[i]) == Some(Str(targets[j]))
      {
        assert Lift(targets)[j] == Str(targets[j]);
        assert Str(targets[j]) in Lift(targets);
        assert Str(targets[j]) !in g.missing;
        assert exists i :: 0 <= i < |inputs| && f(inputs[i]) == Some(Str(targets[j]));
      }
      assert forall j :: 0 <= j < |targets| ==> exists i :: 0 <= i < |inputs| && f(inputs[i]) == Some(Str(targets[j]));
    }
  }

  /** A routine fit in the older sense is fit in the newer sense whenever the
      newer score is defined (a non-empty target list). */
  lemma LegacyFitIsFit(f: Routine, inputs: seq<string>, targets: seq<string>)
    ensures LegacyIsFit(f, inputs, targets) == Ok(true) && |targets| > 0 ==>
      Evaluator.IsFit(f, inputs, targets) == Ok(true)
  {
    Evaluator.IsFitIff(f, inputs, targets);
    Evaluator.GroupwiseMeaning(f, inputs, targets);
  }

  /** The converse fails: the identity on ["a"] misses the target "b", which the
      newer `is_fit` ignores and the older one does not. */
  lemma FitVersionsDiffer()
    ensures Evaluator.IsFit(Identity(), ["a"], ["a", "b"]) == Ok(true)
    ensures LegacyIsFit(Identity(), ["a"], ["a", "b"]) == Ok(false)
  {
    NewerFitOnExample();
    OlderNotFitOnExample();
  }

  /** The identity on ["a"] produces no output outside ["a", "b"]. */
  lemma NewerFitOnExample()
    ensures Evaluator.IsFit(Identity(), ["a"], ["a", "b"]) == Ok(true)
  {
    var f := Identity();
    var inputs: seq<string> := ["a"];
    var targets: seq<string> := ["a", "b"];
    Evaluator.IsFitIff(f, inputs, targets);
    Evaluator.GroupwiseMeaning(f, inputs, targets);
    assert Evaluator.IsValid(f, inputs);
    assert Lift(targets)[0] == Str("a");
    var g := Evaluator.GroupwiseMatching(f, inputs, targets).value;
    forall v ensures v !in g.unexpected {
      if exists i :: 0 <= i < |inputs| && f(inputs[i]) == Some(v) {
        var i :| 0 <= i < |inputs| && f(inputs[i]) == Some(v);
        assert v == Lift(targets)[0];
      }
    }
  }

  /** The identity on ["a"] never produces the target "b". */
  lemma OlderNotFitOnExample()
    ensures LegacyIsFit(Identity(), ["a"], ["a", "b"]) == Ok(false)
  {
    var f := Identity();
    var inputs: seq<string> := ["a"];
    var targets: seq<string> := ["a", "b"];
    LegacyIsFitIff(f, inputs, targets);
    assert Evaluator.IsValid(f, inputs);
    assert !TargetsProduced(f, inputs, targets) by {
      assert !exists i :: 0 <= i < |inputs| && f(inputs[i]) == Some(Str(targets[1]));
    }
  }

  /** The identity routine is fit in the older sense exactly when the inputs
      and the targets hold the same values, ignoring order and repetition. */
  lemma IdentityLegacyFit(inputs: seq<string>, targets: seq<string>)
    ensures LegacyIsFit(Identity(), inputs, targets) == Ok((set x | x in inputs) == (set x | x in targets))
  {
    var f := Identity();
    var si := set x | x in inputs;
    var st := set x | x in targets;
    assert Evaluator.IsValid(f, inputs);
    LegacyIsFitIff(f, inputs, targets);
    var fit := LegacyIsFit(f, inputs, targets).value;
    if fit {
      forall x | x in inputs ensures x in targets {
        var i :| 0 <= i < |inputs| && inputs[i] == x;
        var j :| 0 <= j < |Lift(targets)| && Lift(targets)[j] == f(inputs[i]).value;
      }
      forall x | x in targets ensures x in inputs {
        var j :| 0 <= j < |targets| && targets[j] == x;
        var i :| 0 <= i < |inputs| && f(inputs[i]) == Some(Str(targets[j]));
      }
      assert si == st;
    } else if si == st {
      forall i | 0 <= i < |inputs| ensures f(inputs[i]).value in Lift(targets) {
        assert inputs[i] in si;
        assert inputs[i] in targets;
        var j :| 0 <= j < |targets| && targets[j] == inputs[i];
        assert Lift(targets)[j] == Str(inputs[i]);
      }
      forall j | 0 <= j < |targets|
        ensures exists i :: 0 <= i < |inputs| && f(inputs[i]) == Some(Str(targets[j]))
      {
        assert targets[j] in st;
        assert targets[j] in inputs;
        var i :| 0 <= i < |inputs| && inputs[i] == targets[j];
        assert f(inputs[i]) == Some(Str(targets[j]));
      }
    }
  }

  // ---------------------------------------------------------------------------
  // _response_postprocess

  /** The source recorded with the fallback routine. */
  const FallbackSource: string := "func = lambda x: None"

  /** The source recorded with the identity routine. */
  const IdentitySource: string := "func = lambda x: x"

  /** Lines 154-174: strips the fences and executes the code. On a
      `SyntaxError` the result is `lambda x: None` with its own source; any
      other exception propagates. The source returned beside a loaded routine is
      the unfenced code, not cleaned of comments or docstrings. */
  function LegacyPostprocess(response: string, exec: DspyAgent.Exec): Outcome<DspyAgent.Prediction> {
    var source := DspyAgent.StripFences(response);
    match exec(source)
    case Ok(f) => Ok(DspyAgent.Prediction(f, source))
    case Raised(SyntaxError) => Ok(DspyAgent.Prediction(AlwaysNone(), FallbackSource))
    case Raised(e) => Raised(e)
  }

  /** The fallback routine raises on no input. */
  lemma FallbackValid(inputs: seq<string>)
    ensures Evaluator.IsValid(AlwaysNone(), inputs)
  {
    assert forall i :: 0 <= i < |inputs| ==> AlwaysNone()(inputs[i]).Some?;
  }

  /** Post-processing raises exactly when executing the unfenced code raises
      something other than `SyntaxError`; a `SyntaxError` yields the fallback,
      which is valid on every input list; otherwise the loaded routine comes
      back with the fence-free code it was loaded from. */
  lemma LegacyPostprocessMeaning(response: string, exec: DspyAgent.Exec)
    ensures var source := DspyAgent.StripFences(response);
      && (LegacyPostprocess(response, exec).Raised? <==> exec(source).Raised? && exec(source).error != SyntaxError)
      && (exec(source) == Raised(SyntaxError) ==>
            && LegacyPostprocess(response, exec) == Ok(DspyAgent.Prediction(AlwaysNone(), FallbackSource))
            && forall inputs: seq<string> :: Evaluator.IsValid(LegacyPostprocess(response, exec).value.callable, inputs))
      && (exec(source).Ok? ==>
            && LegacyPostprocess(response, exec) == Ok(DspyAgent.Prediction(exec(source).value, source))
            && forall i: nat :: !DspyAgent.TripleAt(source, i))
  {
    DspyAgent.StripFencesMeaning(response);
    forall inputs: seq<string> ensures Evaluator.IsValid(AlwaysNone(), inputs) {
      FallbackValid(inputs);
    }
  }

  // ---------------------------------------------------------------------------
  // The pair sampler's randomize_values

  /** `pairs * n`: n copies of the list, one after the other. */
  function Repeated<T>(pairs: seq<T>, n: nat): (r: seq<T>)
    ensures |r| == n * |pairs|
    ensures forall k :: 0 <= k < |r| ==> r[k] in pairs
  {
    if n == 0 then [] else Repeated(pairs, n - 1) + pairs
  }

  /** Removing position j of a list by moving its last element there, then
      dropping the last position, removes exactly one copy of the element at j. */
  lemma MoveLastInto<T>(pool: seq<T>, j: nat)
    requires j < |pool|
    ensures multiset(pool[j := pool[|pool| - 1]][..|pool| - 1]) == multiset(pool) - multiset{pool[j]}
  {
    var last := |pool| - 1;
    assert pool == pool[..last] + [pool[last]];
    if j < last {
      assert pool[j := pool[last]][..last] == pool[..last][j := pool[last]];
      assert multiset(pool[..last][j := pool[last]]) ==
        multiset(pool[..last]) - multiset{pool[j]} + multiset{pool[last]};
    } else {
      assert pool[j := pool[last]][..last] == pool[..last];
    }
  }

  /** The picks `random.sample` makes from step i on, with the first `live`
      positions of `pool` still to draw from: step i takes a position below
      `live` and fills it with the last live element. */
  function Picks<T>(pool: seq<T>, live: nat, i: nat, k: nat, draw: nat -> nat): (r: seq<T>)
    requires live <= |pool| && k <= i + live
    ensures |r| == if i < k then k - i else 0
    decreases k - i
  {
    if k <= i then []
    else
      var j := DataSampler.Below(draw(i), live);
      [pool[j]] + Picks(pool[j := pool[live - 1]], live - 1, i + 1, k, draw)
  }

  /** `random.sample(population, k)` with the given draws. */
  function Sampled<T>(population: seq<T>, k: nat, draw: nat -> nat): seq<T>
    requires k <= |population|
  {
    Picks(population, |population|, 0, k, draw)
  }

  /** Every pick is taken out of the live pool, so the picks are drawn from it
      without replacement. */
  lemma {:induction false} PicksWithin<T>(pool: seq<T>, live: nat, i: nat, k: nat, draw: nat -> nat)
    requires live <= |pool| && k <= i + live
    ensures multiset(Picks(pool, live, i, k, draw)) <= multiset(pool[..live])
    decreases k - i
  {
    if i < k {
      var j := DataSampler.Below(draw(i), live);
      var next := pool[j := pool[live - 1]];
      var rest := Picks(next, live - 1, i + 1, k, draw);
      PicksWithin(next, live - 1, i + 1, k, draw);
      PickStep(pool, live, j, rest);
    }
  }

  /** One pick: the element at j, followed by picks from the pool with j filled
      by the last live element, are drawn from the live pool. */
  lemma PickStep<T>(pool: seq<T>, live: nat, j: nat, rest: seq<T>)
    requires j < live <= |pool|
    requires multiset(rest) <= multiset(pool[j := pool[live - 1]][..live - 1])
    ensures multiset([pool[j]] + rest) <= multiset(pool[..live])
  {
    var part := pool[..live];
    assert pool[j := pool[live - 1]][..live - 1] == part[j := part[live - 1]][..live - 1];
    MoveLastInto(part, j);
    assert multiset([pool[j]] + rest) == multiset{pool[j]} + multiset(rest);
    assert part[j] == pool[j];
    TakeOne(multiset(part), pool[j], multiset(rest));
  }

  /** Taking one copy of x out of m and adding no more than what is left stays
      within m. */
  lemma TakeOne<T>(m: multiset<T>, x: T, rest: multiset<T>)
    requires x in m && rest <= m - multiset{x}
    ensures multiset{x} + rest <= m
  {
  }

  /** A sample is drawn from the population without replacement. */
  lemma SampledWithin<T>(population: seq<T>, k: nat, draw: nat -> nat)
    requires k <= |population|
    ensures |Sampled(population, k, draw)| == k
    ensures multiset(Sampled(population, k, draw)) <= multiset(population)
  {
    PicksWithin(population, |population|, 0, k, draw);
    assert population[..|population|] == population;
  }

  /** `random.sample(population, k)` for a population no larger than CPython's
      set-size threshold: a pool copy of the population, from which the i-th
      pick takes a position below n - i and fills it with the last live
      element. The raw draws are `draw(i)`, reduced below n - i. */
  method Sample<T>(population: seq<T>, k: nat, draw: nat -> nat) returns (result: seq<T>)
    requires k <= |population|
    ensures result == Sampled(population, k, draw)
  {
    var n := |population|;
    var pool := population;
    result := [];
    var i := 0;
    while i < k
      invariant 0 <= i <= k && |pool| == n
      invariant result + Picks(pool, n - i, i, k, draw) == Sampled(population, k, draw)
    {
      var j := DataSampler.Below(draw(i), n - i);
      ghost var rest := Picks(pool[j := pool[n - i - 1]], n - i - 1, i + 1, k, draw);
      assert Picks(pool, n - i, i, k, draw) == [pool[j]] + rest;
      assert (result + [pool[j]]) + rest == result + ([pool[j]] + rest);
      result := result + [pool[j]];
      pool := pool[j := pool[n - i - 1]];
      i := i + 1;
    }
  }

  /** The lists the pair sampler shows for the draws `copies`, `order`, `size`
      and `pick`: the projections of a sample of a shuffle of the repeated
      pairs. */
  function PairSampled(inputs: seq<string>, targets: seq<string>, copies: nat, order: nat -> nat,
                       size: nat, pick: nat -> nat): (seq<string>, seq<string>)
  {
    var shuffled := DataSampler.Shuffled(Repeated(DataSampler.Zip(inputs, targets), copies % 4), order);
    var chosen := Sampled(shuffled, DataSampler.Below(size, |shuffled| + 1), pick);
    (DataSampler.Firsts(chosen), DataSampler.Seconds(chosen))
  }

  /** The pair sampler shows two lists of equal length, at most three times
      the shorter argument, which read in step hold original positional pairs. */
  lemma PairSampledFromPairs(inputs: seq<string>, targets: seq<string>, copies: nat, order: nat -> nat,
                             size: nat, pick: nat -> nat)
    ensures var (ins, tgs) := PairSampled(inputs, targets, copies, order, size, pick);
      && |ins| == |tgs| == DataSampler.Below(size, (copies % 4) * Min(|inputs|, |targets|) + 1)
      && |ins| <= 3 * Min(|inputs|, |targets|)
      && forall k :: 0 <= k < |ins| ==> (ins[k], tgs[k]) in DataSampler.Zip(inputs, targets)
  {
    var pairs := DataSampler.Zip(inputs, targets);
    var repeated := Repeated(pairs, copies % 4);
    var shuffled := DataSampler.Shuffled(repeated, order);
    var m := DataSampler.Below(size, |shuffled| + 1);
    var chosen := Sampled(shuffled, m, pick);
    SampledWithin(shuffled, m, pick);
    DataSampler.ShufflePermutes(repeated, order, |repeated| - 1);
    AtMostThreeCopies(copies % 4, |pairs|);
    SampledFrom(chosen, repeated, pairs);
  }

  /** Lines 235-247: zips the two lists, repeats the pairs `copies % 4` times
      (`random.randint(0, 3)`), shuffles them in place, keeps a sample of
      `size % (len + 1)` of them (`random.randint(0, len)`) and splits the pairs
      again. Both lists have the sampled length, at most three times the shorter
      argument; read in step they hold original positional pairs. */
  method PairRandomize(inputs: seq<string>, targets: seq<string>, copies: nat, order: nat -> nat,
                       size: nat, pick: nat -> nat)
    returns (ins: seq<string>, tgs: seq<string>)
    ensures (ins, tgs) == PairSampled(inputs, targets, copies, order, size, pick)
    ensures |ins| == |tgs| == DataSampler.Below(size, (copies % 4) * Min(|inputs|, |targets|) + 1)
    ensures |ins| <= 3 * Min(|inputs|, |targets|)
    ensures forall k :: 0 <= k < |ins| ==> (ins[k], tgs[k]) in DataSampler.Zip(inputs, targets)
  {
    var pairs := DataSampler.Zip(inputs, targets);
    var repeated := Repeated(pairs, copies % 4);
    var a := new (string, string)[|repeated|](k requires 0 <= k < |repeated| => repeated[k]);
    assert a[..] == repeated;
    DataSampler.Shuffle(a, order);
    var m := DataSampler.Below(size, a.Length + 1);
    var chosen := Sample(a[..], m, pick);
    SampledWithin(a[..], m, pick);
    DataSampler.ShufflePermutes(repeated, order, |repeated| - 1);
    ins := DataSampler.Firsts(chosen);
    tgs := DataSampler.Seconds(chosen);
    AtMostThreeCopies(copies % 4, |pairs|);
    assert |ins| == m <= a.Length == (copies % 4) * |pairs| <= 3 * |pairs|;
    SampledFrom(chosen, repeated, pairs);
  }

  lemma AtMostThreeCopies(c: nat, n: nat)
    requires c <= 3
    ensures c * n <= 3 * n
  {
  }

  /** Elements drawn without replacement from a list of elements of `pairs`
      are elements of `pairs`, and so are their projections read in step. */
  lemma SampledFrom(chosen: seq<(string, string)>, from: seq<(string, string)>, pairs: seq<(string, string)>)
    requires multiset(chosen) <= multiset(from)
    requires forall k :: 0 <= k < |from| ==> from[k] in pairs
    ensures forall k :: 0 <= k < |chosen| ==>
      (DataSampler.Firsts(chosen)[k], DataSampler.Seconds(chosen)[k]) in pairs
  {
    forall k | 0 <= k < |chosen|
      ensures (DataSampler.Firsts(chosen)[k], DataSampler.Seconds(chosen)[k]) in pairs
    {
      assert chosen[k] in multiset(chosen);
      assert chosen[k] in multiset(from);
      assert chosen[k] in from;
    }
  }

  /** The draws one call of `randomize_values` consumes. */
  datatype Draws = Draws(copies: nat, order: nat -> nat, size: nat, pick: nat -> nat, targetOrder: nat -> nat)

  /** What `randomize_values` shows for the draws `d`: the pair sampler above,
      or the group sampler, which shuffles a copy of each list with its own
      draws (`DataSampler.GroupRandomize`). */
  function RandomizedValues(kind: DataSampler.SamplerKind, inputs: seq<string>, targets: seq<string>, d: Draws)
    : (seq<string>, seq<string>)
  {
    if kind.PairSampler? then PairSampled(inputs, targets, d.copies, d.order, d.size, d.pick)
    else (DataSampler.Shuffled(inputs, d.order), DataSampler.Shuffled(targets, d.targetOrder))
  }

  /** Either sampler shows only values of the inputs and of the targets. */
  lemma RandomizedWithin(kind: DataSampler.SamplerKind, inputs: seq<string>, targets: seq<string>, d: Draws)
    ensures forall x :: x in RandomizedValues(kind, inputs, targets, d).0 ==> x in inputs
    ensures forall x :: x in RandomizedValues(kind, inputs, targets, d).1 ==> x in targets
  {
    var (ins, tgs) := RandomizedValues(kind, inputs, targets, d);
    if kind.PairSampler? {
      var pairs := DataSampler.Zip(inputs, targets);
      PairSampledFromPairs(inputs, targets, d.copies, d.order, d.size, d.pick);
      forall x | x in ins ensures x in inputs {
        var k :| 0 <= k < |ins| && ins[k] == x;
        var p :| 0 <= p < |pairs| && pairs[p] == (ins[k], tgs[k]);
      }
      forall x | x in tgs ensures x in targets {
        var k :| 0 <= k < |tgs| && tgs[k] == x;
        var p :| 0 <= p < |pairs| && pairs[p] == (ins[k], tgs[k]);
      }
    } else {
      DataSampler.ShufflePermutes(inputs, d.order, |inputs| - 1);
      DataSampler.ShufflePermutes(targets, d.targetOrder, |targets| - 1);
      assert forall x :: x in ins ==> x in multiset(inputs);
      assert forall x :: x in tgs ==> x in multiset(targets);
    }
  }

  /** `randomize_values` of the sampler the generator was built as. */
  method Randomize(kind: DataSampler.SamplerKind, inputs: seq<string>, targets: seq<string>, d: Draws)
    returns (ins: seq<string>, tgs: seq<string>)
    ensures (ins, tgs) == RandomizedValues(kind, inputs, targets, d)
    ensures forall x :: x in ins ==> x in inputs
    ensures forall x :: x in tgs ==> x in targets
  {
    if kind.PairSampler? {
      ins, tgs := PairRandomize(inputs, targets, d.copies, d.order, d.size, d.pick);
    } else {
      ins, tgs := DataSampler.GroupRandomize(inputs, targets, d.order, d.targetOrder);
    }
    RandomizedWithin(kind, inputs, targets, d);
  }

  // ---------------------------------------------------------------------------
  // forward

  /** A routine that raises on some value of a sample raises on some input. */
  lemma InvalidOnSample(f: Routine, sample: seq<string>, inputs: seq<string>)
    requires forall x :: x in sample ==> x in inputs
    requires !Evaluator.IsValid(f, sample)
    ensures !Evaluator.IsValid(f, inputs)
  {
    var i :| 0 <= i < |sample| && f(sample[i]).None?;
    assert sample[i] in inputs;
    var j :| 0 <= j < |inputs| && inputs[j] == sample[i];
  }

  /** A reply the legacy loop rejects: its code loads without an exception and
      the routine it defines raises on some input. */
  ghost predicate Rejected(reply: string, exec: DspyAgent.Exec, inputs: seq<string>) {
    var source := DspyAgent.StripFences(reply);
    exec(source).Ok? && !Evaluator.IsValid(exec(source).value, inputs)
  }

  /** The condition of the `while` at line 208: the reply post-processes
      without an exception, and its routine raises on the sample of its round. */
  predicate RejectedOn(reply: string, exec: DspyAgent.Exec, sample: seq<string>) {
    LegacyPostprocess(reply, exec).Ok? && !Evaluator.IsValid(LegacyPostprocess(reply, exec).value.callable, sample)
  }

  /** The sample of round m of the retry loop: `first` for the round drawn
      before the loop, and the inputs `randomize_values` shows for `rounds(m)`
      after that. */
  function RoundSample(kind: DataSampler.SamplerKind, inputs: seq<string>, targets: seq<string>,
                       rounds: nat -> Draws, first: seq<string>, m: nat): seq<string>
  {
    if m == 0 then first else RandomizedValues(kind, inputs, targets, rounds(m)).0
  }

  /** A post-processed reply whose routine raises on a sample of the inputs is
      rejected. */
  lemma RejectedReply(reply: string, exec: DspyAgent.Exec, sample: seq<string>, inputs: seq<string>)
    requires RejectedOn(reply, exec, sample)
    requires forall x :: x in sample ==> x in inputs
    ensures Rejected(reply, exec, inputs)
  {
    LegacyPostprocessMeaning(reply, exec);
    InvalidOnSample(LegacyPostprocess(reply, exec).value.callable, sample, inputs);
  }

  /** Rejecting the reply of one more round on its own sample extends the run
      of replies rejected on the samples of their rounds. */
  lemma RejectedRoundsUpTo(kind: DataSampler.SamplerKind, inputs: seq<string>, targets: seq<string>,
                           replies: nat -> string, exec: DspyAgent.Exec, rounds: nat -> Draws,
                           first: seq<string>, n: nat)
    requires forall m :: 0 <= m < n ==>
      RejectedOn(replies(m), exec, RoundSample(kind, inputs, targets, rounds, first, m))
    requires RejectedOn(replies(n), exec, RoundSample(kind, inputs, targets, rounds, first, n))
    ensures forall m :: 0 <= m < n + 1 ==>
      RejectedOn(replies(m), exec, RoundSample(kind, inputs, targets, rounds, first, m))
  {
  }

  /** Rejecting one more reply extends the run of rejected replies. */
  lemma RejectedUpTo(replies: nat -> string, exec: DspyAgent.Exec, inputs: seq<string>, n: nat)
    requires forall m :: 0 <= m < n ==> Rejected(replies(m), exec, inputs)
    requires Rejected(replies(n), exec, inputs)
    ensures forall m :: 0 <= m < n + 1 ==> Rejected(replies(m), exec, inputs)
  {
  }

  /** Lines 184-224. When the identity routine is already fit it is returned and
      no answer is asked for. Otherwise `randomize_values` draws a sample, an
      empty list raises `IndexError` at `input_values[0]` or `target_values[0]`,
      and answers are post-processed until the routine is valid on the sample
      of its round. Round m uses answer `replies(m)` and the sample drawn with
      `rounds(m)`. Python's loop has no bound: `fuel` bounds the number of
      retries, and `None` means it ran out. Every rejected answer loaded
      without a `SyntaxError` (the fallback always ends the loop) and raises
      on the sample of its round, hence on some input; an answer whose
      post-processing raises ends the call with that exception. */
  method Forward(kind: DataSampler.SamplerKind, inputs: seq<string>, targets: seq<string>,
                 replies: nat -> string, exec: DspyAgent.Exec, rounds: nat -> Draws, fuel: nat)
    returns (r: Option<Outcome<DspyAgent.Prediction>>, retries: nat, sample: seq<string>)
    ensures (set x | x in inputs) == (set x | x in targets) ==>
      r == Some(Ok(DspyAgent.Prediction(Identity(), IdentitySource))) && retries == 0 && sample == []
    ensures (set x | x in inputs) != (set x | x in targets) && (|inputs| == 0 || |targets| == 0) ==>
      r == Some(Raised(IndexError)) && retries == 0 && sample == RandomizedValues(kind, inputs, targets, rounds(0)).0
    ensures (set x | x in inputs) != (set x | x in targets) && |inputs| > 0 && |targets| > 0 ==>
      && sample == RandomizedValues(kind, inputs, targets, rounds(retries)).0
      && (forall x :: x in sample ==> x in inputs)
      && (forall m :: 0 <= m < retries ==>
            RejectedOn(replies(m), exec, RandomizedValues(kind, inputs, targets, rounds(m)).0))
      && (forall m :: 0 <= m < retries ==> Rejected(replies(m), exec, inputs))
      && (r.Some? ==> r.value == LegacyPostprocess(replies(retries), exec))
      && (r.Some? && r.value.Ok? ==> Evaluator.IsValid(r.value.value.callable, sample))
      && (r.None? ==> retries == fuel && RejectedOn(replies(fuel), exec, sample))
  {
    IdentityLegacyFit(inputs, targets);
    if LegacyIsFit(Identity(), inputs, targets) == Ok(true) {
      return Some(Ok(DspyAgent.Prediction(Identity(), IdentitySource))), 0, [];
    }
    var shownTargets;
    sample, shownTargets := Randomize(kind, inputs, targets, rounds(0));
    if |inputs| == 0 || |targets| == 0 {
      return Some(Raised(IndexError)), 0, sample;
    }
    ghost var first := sample;
    r, retries, sample := Retry(kind, inputs, targets, replies, exec, rounds, fuel, sample);
    assert forall m :: 0 <= m <= retries ==>
      RoundSample(kind, inputs, targets, rounds, first, m) == RandomizedValues(kind, inputs, targets, rounds(m)).0;
  }

  /** The retry loop of `forward`: post-processes reply `retries` and, while its
      routine raises on the current sample, draws a new sample and takes the
      next reply. Each rejected reply raises on the sample of its round, so it
      is `Rejected` on all inputs; the loop ends on a reply that is valid on
      the sample of its round, on one whose post-processing raises, or when
      `fuel` retries are spent (`None`), the last reply rejected as well. */
  method Retry(kind: DataSampler.SamplerKind, inputs: seq<string>, targets: seq<string>,
               replies: nat -> string, exec: DspyAgent.Exec, rounds: nat -> Draws, fuel: nat,
               first: seq<string>)
    returns (r: Option<Outcome<DspyAgent.Prediction>>, retries: nat, sample: seq<string>)
    requires forall x :: x in first ==> x in inputs
    ensures sample == RoundSample(kind, inputs, targets, rounds, first, retries)
    ensures forall x :: x in sample ==> x in inputs
    ensures forall m :: 0 <= m < retries ==>
      RejectedOn(replies(m), exec, RoundSample(kind, inputs, targets, rounds, first, m))
    ensures forall m :: 0 <= m < retries ==> Rejected(replies(m), exec, inputs)
    ensures r.Some? ==> r.value == LegacyPostprocess(replies(retries), exec)
    ensures r.Some? && r.value.Ok? ==> Evaluator.IsValid(r.value.value.callable, sample)
    ensures r.None? ==> retries == fuel && RejectedOn(replies(fuel), exec, sample)
  {
    sample := first;
    var response := LegacyPostprocess(replies(0), exec);
    retries := 0;
    if response.Raised? {
      return Some(response), retries, sample;
    }
    while !Evaluator.IsValid(response.value.callable, sample)
      invariant retries <= fuel
      invariant response == LegacyPostprocess(replies(retries), exec) && response.Ok?
      invariant sample == RoundSample(kind, inputs, targets, rounds, first, retries)
      invariant forall x :: x in sample ==> x in inputs
      invariant forall m :: 0 <= m < retries ==>
        RejectedOn(replies(m), exec, RoundSample(kind, inputs, targets, rounds, first, m))
      invariant forall m :: 0 <= m < retries ==> Rejected(replies(m), exec, inputs)
      decreases fuel - retries
    {
      RejectedRoundsUpTo(kind, inputs, targets, replies, exec, rounds, first, retries);
      RejectedReply(replies(retries), exec, sample, inputs);
      RejectedUpTo(replies, exec, inputs, retries);
      if retries == fuel {
        return None, retries, sample;
      }
      retries := retries + 1;
      var shownTargets;
      sample, shownTargets := Randomize(kind, inputs, targets, rounds(retries));
      response := LegacyPostprocess(replies(retries), exec);
      if response.Raised? {
        return Some(response), retries, sample;
      }
    }
    r := Some(response);
  }
}
