/** The train/test sampler of convert_func_generate/src/data_sampler.py.

    `random.shuffle` is CPython's in-place Fisher-Yates pass: for i from the
    last index down to 1 it swaps position i with a position drawn below i + 1.
    The generator is not modelled; the caller passes the raw draws as a function
    `draw`, and the index used at step i is `draw(i) % (i + 1)`, so every draw
    function is admissible. Python lists become arrays where the source shuffles
    them in place and sequences elsewhere; the source's `copy.copy` and
    `copy.deepcopy` calls are what keeps the caller's lists unchanged, which
    holds here because sequences are values. */
module DataSampler {
  import opened Sorting
  import Values

  // ---------------------------------------------------------------------------
  // random.shuffle

  /** A raw draw reduced to a position below `bound`. */
  function Below(x: nat, bound: nat): (r: nat)
    requires bound > 0
    ensures r < bound
  {
    x % bound
  }

  /** The list with positions i and j exchanged. */
  function Swap<T>(s: seq<T>, i: nat, j: nat): (r: seq<T>)
    requires i < |s| && j < |s|
  {
    s[i := s[j]][j := s[i]]
  }

  /** Exchanging two positions keeps every element, each as often as before. */
  lemma SwapPermutes<T>(s: seq<T>, i: nat, j: nat)
    requires i < |s| && j < |s|
    ensures multiset(Swap(s, i, j)) == multiset(s)
  {
    if i != j {
      assert multiset(s[i := s[j]]) == multiset(s) - multiset{s[i]} + multiset{s[j]};
    }
  }

  /** The list after the Fisher-Yates steps i, i - 1, ..., 1 have run on `s`. */
  function ShuffleFrom<T>(s: seq<T>, draw: nat -> nat, i: int): (r: seq<T>)
    requires i < |s|
    ensures |r| == |s|
    decreases i
  {
    if i < 1 then s
    else ShuffleFrom(Swap(s, i, Below(draw(i), i + 1)), draw, i - 1)
  }

  /** The Fisher-Yates steps permute the list. */
  lemma {:induction false} ShufflePermutes<T>(s: seq<T>, draw: nat -> nat, i: int)
    requires i < |s|
    ensures multiset(ShuffleFrom(s, draw, i)) == multiset(s)
    decreases i
  {
    if i >= 1 {
      var j := Below(draw(i), i + 1);
      SwapPermutes(s, i, j);
      ShufflePermutes(Swap(s, i, j), draw, i - 1);
    }
  }

  /** One Fisher-Yates step: the swap at position i, then the steps below it. */
  lemma ShuffleStep<T>(s: seq<T>, draw: nat -> nat, i: int)
    requires 1 <= i < |s|
    ensures ShuffleFrom(s, draw, i) == ShuffleFrom(Swap(s, i, Below(draw(i), i + 1)), draw, i - 1)
  {
  }

  /** `random.shuffle(s)` with the given draws. */
  function Shuffled<T>(s: seq<T>, draw: nat -> nat): seq<T> {
    ShuffleFrom(s, draw, |s| - 1)
  }

  /** `random.shuffle`: permutes the array in place. */
  method Shuffle<T>(a: array<T>, draw: nat -> nat)
    modifies a
    ensures a[..] == Shuffled(old(a[..]), draw)
  {
    var i := a.Length - 1;
    while i >= 1
      invariant i < a.Length
      invariant ShuffleFrom(a[..], draw, i) == Shuffled(old(a[..]), draw)
    {
      var j := Below(draw(i), i + 1);
      ghost var before := a[..];
      a[i], a[j] := a[j], a[i];
      assert a[..] == Swap(before, i, j);
      ShuffleStep(before, draw, i);
      i := i - 1;
    }
  }

  // ---------------------------------------------------------------------------
  // Pairs

  /** `list(zip(inputs, targets))`. */
  function Zip(inputs: seq<string>, targets: seq<string>): (r: seq<(string, string)>)
    ensures |r| == Values.Min(|inputs|, |targets|)
    ensures forall k :: 0 <= k < |r| ==> r[k] == (inputs[k], targets[k])
  {
    seq(Values.Min(|inputs|, |targets|), k requires 0 <= k < Values.Min(|inputs|, |targets|) => (inputs[k], targets[k]))
  }

  /** `[x[0] for x in pairs]`. */
  function Firsts(pairs: seq<(string, string)>): (r: seq<string>)
    ensures |r| == |pairs| && forall k :: 0 <= k < |r| ==> r[k] == pairs[k].0
  {
    seq(|pairs|, k requires 0 <= k < |pairs| => pairs[k].0)
  }

  /** `[x[1] for x in pairs]`. */
  function Seconds(pairs: seq<(string, string)>): (r: seq<string>)
    ensures |r| == |pairs| && forall k :: 0 <= k < |r| ==> r[k] == pairs[k].1
  {
    seq(|pairs|, k requires 0 <= k < |pairs| => pairs[k].1)
  }

  /** Zipping the two projections of a list of pairs gives the list back. */
  lemma ZipProjections(pairs: seq<(string, string)>)
    ensures Zip(Firsts(pairs), Seconds(pairs)) == pairs
  {
  }

  /** Specification of the pair sampler's `randomize_values`: the two
      projections of one shuffle of the zipped lists. */
  function PairRandomized(inputs: seq<string>, targets: seq<string>, draw: nat -> nat): (r: (seq<string>, seq<string>))
  {
    var shuffled := Shuffled(Zip(inputs, targets), draw);
    (Firsts(shuffled), Seconds(shuffled))
  }

  /** The pair sampler keeps inputs and targets together: both lists are as long
      as the shorter argument and, read in step, they hold exactly the original
      positional pairs, each as often as before. */
  lemma PairRandomizedKeepsPairs(inputs: seq<string>, targets: seq<string>, draw: nat -> nat)
    ensures var (ins, tgs) := PairRandomized(inputs, targets, draw);
      && |ins| == |tgs| == Values.Min(|inputs|, |targets|)
      && multiset(Zip(ins, tgs)) == multiset(Zip(inputs, targets))
  {
    ZipProjections(Shuffled(Zip(inputs, targets), draw));
    ShufflePermutes(Zip(inputs, targets), draw, |Zip(inputs, targets)| - 1);
  }

  /** `PairTrainTestDataSampler.randomize_values`: zips copies of the two lists,
      shuffles the pairs in place and splits them again. */
  method PairRandomize(inputs: seq<string>, targets: seq<string>, draw: nat -> nat)
    returns (ins: seq<string>, tgs: seq<string>)
    ensures (ins, tgs) == PairRandomized(inputs, targets, draw)
    ensures |ins| == |tgs| == Values.Min(|inputs|, |targets|)
    ensures multiset(Zip(ins, tgs)) == multiset(Zip(inputs, targets))
  {
    var zipped := Zip(inputs, targets);
    var pairs := new (string, string)[|zipped|](k requires 0 <= k < |zipped| => zipped[k]);
    assert pairs[..] == zipped;
    Shuffle(pairs, draw);
    ins := Firsts(pairs[..]);
    tgs := Seconds(pairs[..]);
    PairRandomizedKeepsPairs(inputs, targets, draw);
  }

  /** `GroupTrainTestDataSampler.randomize_values`: shuffles a copy of each list
      with its own draws; the pairing between the lists is not kept. */
  method GroupRandomize(inputs: seq<string>, targets: seq<string>, drawInputs: nat -> nat, drawTargets: nat -> nat)
    returns (ins: seq<string>, tgs: seq<string>)
    ensures ins == Shuffled(inputs, drawInputs) && tgs == Shuffled(targets, drawTargets)
    ensures multiset(ins) == multiset(inputs) && multiset(tgs) == multiset(targets)
  {
    var a := new string[|inputs|](k requires 0 <= k < |inputs| => inputs[k]);
    var b := new string[|targets|](k requires 0 <= k < |targets| => targets[k]);
    assert a[..] == inputs && b[..] == targets;
    Shuffle(a, drawInputs);
    Shuffle(b, drawTargets);
    ins, tgs := a[..], b[..];
    ShufflePermutes(inputs, drawInputs, |inputs| - 1);
    ShufflePermutes(targets, drawTargets, |targets| - 1);
  }

  // ---------------------------------------------------------------------------
  // Splitting

  /** `_split_train_test`: the first half of the list, returned as both the
      training and the testing part (the source does not hold a part out). */
  function SplitTrainTest<T>(values: seq<T>): (r: (seq<T>, seq<T>))
    ensures r.0 == r.1
    ensures |r.0| == |values| / 2 && r.0 <= values
  {
    (values[..|values| / 2], values[..|values| / 2])
  }

  /** The two samplers of the module. */
  datatype SamplerKind = PairSampler | GroupSampler

  /** Training and testing data for one column. */
  datatype TrainTest = TrainTest(trainInputs: seq<string>, trainTargets: seq<string>,
                                 testInputs: seq<string>, testTargets: seq<string>)

  /** Taking a prefix never adds elements. */
  lemma PrefixMultiset<T>(s: seq<T>, m: nat)
    requires m <= |s|
    ensures multiset(s[..m]) <= multiset(s)
  {
    assert s == s[..m] + s[m..];
  }

  /** `TrainTestDataSampler.split`: randomizes copies with the sampler's
      `randomize_values` and splits each list with `_split_train_test`; it does
      not call `_reorder_values`. Training and testing parts are the same first
      half of the randomized lists. The pair sampler's halves still hold original
      (input, target) pairs in step; the group sampler's only original values. */
  method Split(kind: SamplerKind, inputs: seq<string>, targets: seq<string>,
               drawInputs: nat -> nat, drawTargets: nat -> nat) returns (r: TrainTest)
    ensures r.trainInputs == r.testInputs && r.trainTargets == r.testTargets
    ensures kind.PairSampler? ==>
      && r.trainInputs == SplitTrainTest(PairRandomized(inputs, targets, drawInputs).0).0
      && r.trainTargets == SplitTrainTest(PairRandomized(inputs, targets, drawInputs).1).0
      && |r.trainInputs| == |r.trainTargets| == Values.Min(|inputs|, |targets|) / 2
      && multiset(Zip(r.trainInputs, r.trainTargets)) <= multiset(Zip(inputs, targets))
    ensures kind.GroupSampler? ==>
      && r.trainInputs == SplitTrainTest(Shuffled(inputs, drawInputs)).0
      && r.trainTargets == SplitTrainTest(Shuffled(targets, drawTargets)).0
      && multiset(r.trainInputs) <= multiset(inputs) && multiset(r.trainTargets) <= multiset(targets)
  {
    var ins, tgs;
    if kind.PairSampler? {
      ins, tgs := PairRandomize(inputs, targets, drawInputs);
    } else {
      ins, tgs := GroupRandomize(inputs, targets, drawInputs, drawTargets);
    }
    var (trainIns, testIns) := SplitTrainTest(ins);
    var (trainTgs, testTgs) := SplitTrainTest(tgs);
    r := TrainTest(trainIns, trainTgs, testIns, testTgs);
    var m := |ins| / 2;
    if kind.PairSampler? {
      assert Zip(trainIns, trainTgs) == Zip(ins, tgs)[..m];
      PrefixMultiset(Zip(ins, tgs), m);
    } else {
      PrefixMultiset(ins, m);
      PrefixMultiset(tgs, |tgs| / 2);
    }
  }

  // ---------------------------------------------------------------------------
  // Reordering

  /** The decision of `_reorder_values`. Whether the sorted lists look more
      alike than shuffled ones is decided in the source by a Jaro-Winkler score
      against a geometric mean of 30 random trials; that comparison is the
      parameter `sortedIsMoreSimilar`. Either both lists come back sorted or
      both come back as given, never one of each, and nothing is lost. */
  function ReorderValues(inputs: seq<string>, targets: seq<string>, sortedIsMoreSimilar: bool): (r: (seq<string>, seq<string>))
    ensures (r.0 == Sorted(inputs) && r.1 == Sorted(targets)) || (r.0 == inputs && r.1 == targets)
    ensures sortedIsMoreSimilar ==> Ordered(r.0) && Ordered(r.1)
    ensures multiset(r.0) == multiset(inputs) && multiset(r.1) == multiset(targets)
  {
    if sortedIsMoreSimilar then (Sorted(inputs), Sorted(targets)) else (inputs, targets)
  }
}
