/** The function combinators of pipeline/basic_pipeline.py.

    Python data are untyped; here a value is a number, a `Forked` list (the
    list subclass that marks forked data), a plain list, or `None`. Functions
    are total functions on values; where a demo helper would raise a
    `TypeError` in Python it returns `Nothing` here. A pipeline form is a
    function, a `Fork` of functions, a `Reducer` wrapping a function, or
    anything else. */
module BasicPipeline {

  datatype Data = Num(n: int) | Forked(items: seq<Data>) | List(items: seq<Data>) | Nothing

  type Func = Data -> Data

  /** What `apply_form` tells apart: a callable, a `Fork` list of functions,
      a `Reducer` object, or something that is none of these. */
  datatype Form = Callable(f: Func) | Fork(funcs: seq<Func>) | Reducer(func: Func) | NotAForm

  /** `apply_func`: on `Forked` data the function is applied to each element,
      recursively; on any other data it is called once on the whole. */
  function ApplyFunc(data: Data, f: Func): (r: Data)
    ensures data.Forked? ==> r.Forked? && |r.items| == |data.items|
    decreases data
  {
    if data.Forked? then
      Forked(seq(|data.items|, i requires 0 <= i < |data.items| => ApplyFunc(data.items[i], f)))
    else f(data)
  }

  /** `apply_form`: a function goes through `apply_func`; a `Fork` gives a
      `Forked` list with one entry per function, in the fork's order; a
      `Reducer` applies its function to the whole data; any other form gives
      `None`. */
  function ApplyForm(data: Data, form: Form): (r: Data)
    ensures form.Fork? ==>
      r.Forked? && |r.items| == |form.funcs| &&
      forall i :: 0 <= i < |r.items| ==> r.items[i] == ApplyFunc(data, form.funcs[i])
    ensures form.NotAForm? ==> r == Nothing
  {
    match form
    case Callable(f) => ApplyFunc(data, f)
    case Fork(funcs) => Forked(seq(|funcs|, i requires 0 <= i < |funcs| => ApplyFunc(data, funcs[i])))
    case Reducer(func) => func(data)
    case NotAForm => Nothing
  }

  /** `pipe(data, *forms)`: `reduce(apply_form, forms, data)`. */
  function Pipe(data: Data, forms: seq<Form>): Data
    decreases |forms|
  {
    if forms == [] then data else Pipe(ApplyForm(data, forms[0]), forms[1..])
  }

  /** `pipe` is the left fold: the last form is applied to the result of the
      pipe of the forms before it. */
  lemma {:induction false} PipeSnoc(data: Data, forms: seq<Form>, last: Form)
    ensures Pipe(data, forms + [last]) == ApplyForm(Pipe(data, forms), last)
    decreases |forms|
  {
    if forms == [] {
      assert [] + [last] == [last];
    } else {
      assert (forms + [last])[1..] == forms[1..] + [last];
      PipeSnoc(ApplyForm(data, forms[0]), forms[1..], last);
    }
  }

  /** A pipe of one form is that form applied. */
  lemma PipeOne(data: Data, form: Form)
    ensures Pipe(data, [form]) == ApplyForm(data, form)
  {
    assert [form][1..] == [];
  }

  /** A pipe of two form lists is the second pipe run on the first one's result. */
  lemma {:induction false} PipeAppend(data: Data, a: seq<Form>, b: seq<Form>)
    ensures Pipe(data, a + b) == Pipe(Pipe(data, a), b)
    decreases |a|
  {
    if a != [] {
      assert (a + b)[1..] == a[1..] + b;
      PipeAppend(ApplyForm(data, a[0]), a[1..], b);
    } else {
      assert [] + b == b;
    }
  }

  /** The data values that are not `Forked`, in left-to-right order. */
  function Leaves(data: Data): seq<Data>
    decreases data
  {
    if data.Forked? then LeavesOf(data.items) else [data]
  }

  function LeavesOf(items: seq<Data>): seq<Data>
    decreases items
  {
    if items == [] then [] else Leaves(items[0]) + LeavesOf(items[1..])
  }

  /** `f` applied to each element of a list. */
  function MapList(f: Func, xs: seq<Data>): (r: seq<Data>)
    ensures |r| == |xs| && forall i :: 0 <= i < |xs| ==> r[i] == f(xs[i])
  {
    seq(|xs|, i requires 0 <= i < |xs| => f(xs[i]))
  }

  /** `f` never produces forked data. */
  ghost predicate Unforking(f: Func) {
    forall x :: !f(x).Forked?
  }

  /** `apply_func` maps `f` over the leaves of the forked data, in order, when
      `f` itself never produces forked data. */
  lemma {:induction false} ApplyFuncLeaves(data: Data, f: Func)
    requires Unforking(f)
    ensures Leaves(ApplyFunc(data, f)) == MapList(f, Leaves(data))
    decreases data, 1
  {
    if data.Forked? {
      ApplyFuncLeavesOf(data.items, f);
      assert ApplyFunc(data, f).items == seq(|data.items|, i requires 0 <= i < |data.items| => ApplyFunc(data.items[i], f));
    }
  }

  lemma {:induction false} ApplyFuncLeavesOf(items: seq<Data>, f: Func)
    requires Unforking(f)
    ensures LeavesOf(seq(|items|, i requires 0 <= i < |items| => ApplyFunc(items[i], f))) == MapList(f, LeavesOf(items))
    decreases items, 0
  {
    var mapped := seq(|items|, i requires 0 <= i < |items| => ApplyFunc(items[i], f));
    if items != [] {
      ApplyFuncLeaves(items[0], f);
      assert mapped[1..] == seq(|items[1..]|, i requires 0 <= i < |items[1..]| => ApplyFunc(items[1..][i], f));
      ApplyFuncLeavesOf(items[1..], f);
      assert MapList(f, LeavesOf(items)) == MapList(f, Leaves(items[0])) + MapList(f, LeavesOf(items[1..]));
    }
  }

  /** Two functions applied one after the other through `apply_func` are their
      composition applied once, when the first never produces forked data. */
  lemma {:induction false} ApplyFuncFusion(data: Data, f: Func, g: Func)
    requires Unforking(f)
    ensures ApplyFunc(ApplyFunc(data, f), g) == ApplyFunc(data, x => g(f(x)))
    decreases data
  {
    if data.Forked? {
      var n := |data.items|;
      var once := ApplyFunc(data, f);
      forall i | 0 <= i < n
        ensures ApplyFunc(once.items[i], g) == ApplyFunc(data.items[i], x => g(f(x)))
      {
        ApplyFuncFusion(data.items[i], f, g);
      }
      assert ApplyFunc(once, g).items == ApplyFunc(data, x => g(f(x))).items;
    }
  }

  // ---------------------------------------------------------------------------
  // compose and the second fork

  /** The identity seed of `compose`. */
  function Id(): Func {
    x => x
  }

  /** `reduce(lambda f, g: lambda x: g(f(x)), functions, acc)`. */
  function ComposeFrom(acc: Func, functions: seq<Func>): Func
    decreases |functions|
  {
    if functions == [] then acc
    else ComposeFrom(x => functions[0](acc(x)), functions[1..])
  }

  /** `compose(*functions)`, seeded with the identity. */
  function Compose(functions: seq<Func>): Func {
    ComposeFrom(Id(), functions)
  }

  /** The functions applied to `x` one after the other, first to last. */
  function ApplyInOrder(functions: seq<Func>, x: Data): Data
    decreases |functions|
  {
    if functions == [] then x else ApplyInOrder(functions[1..], functions[0](x))
  }

  lemma {:induction false} ComposeFromApplies(acc: Func, functions: seq<Func>, x: Data)
    ensures ComposeFrom(acc, functions)(x) == ApplyInOrder(functions, acc(x))
    decreases |functions|
  {
    if functions != [] {
      ComposeFromApplies(y => functions[0](acc(y)), functions[1..], x);
    }
  }

  /** `compose` applies its functions left to right: the first function
      receives the argument, and each later one the previous result. */
  lemma ComposeMeaning(functions: seq<Func>, x: Data)
    ensures Compose(functions)(x) == ApplyInOrder(functions, x)
  {
    ComposeFromApplies(Id(), functions, x);
  }

  /** `apply_func` only depends on the values of the function. */
  lemma {:induction false} ApplyFuncCongruence(data: Data, f: Func, g: Func)
    requires forall x :: f(x) == g(x)
    ensures ApplyFunc(data, f) == ApplyFunc(data, g)
    decreases data
  {
    if data.Forked? {
      forall i | 0 <= i < |data.items| ensures ApplyFunc(data.items[i], f) == ApplyFunc(data.items[i], g) {
        ApplyFuncCongruence(data.items[i], f, g);
      }
      assert ApplyFunc(data, f).items == ApplyFunc(data, g).items;
    }
  }

  /** Piping through two functions is piping through their composition, when
      the first never produces forked data. */
  lemma PipeCompose(data: Data, f: Func, g: Func)
    requires Unforking(f)
    ensures Pipe(data, [Callable(f), Callable(g)]) == Pipe(data, [Callable(Compose([f, g]))])
  {
    var h := Compose([f, g]);
    forall x ensures h(x) == g(f(x)) {
      ComposeMeaning([f, g], x);
      assert [f, g][1..] == [g];
      assert [g][1..] == [];
      assert ApplyInOrder([f, g], x) == ApplyInOrder([g], f(x));
      assert ApplyInOrder([g], f(x)) == ApplyInOrder([], g(f(x)));
    }
    ApplyFuncCongruence(data, h, x => g(f(x)));
    ApplyFuncFusion(data, f, g);
    PipeOne(data, Callable(h));
    PipeOne(ApplyFunc(data, f), Callable(g));
    assert [Callable(f), Callable(g)][1..] == [Callable(g)];
  }

  /** The second `fork`: a function giving the list of every function's
      result on its argument, in order. */
  function ForkAll(functions: seq<Func>): (r: Func)
    ensures forall x :: (r(x).List? && |r(x).items| == |functions| &&
      forall i :: 0 <= i < |functions| ==> r(x).items[i] == functions[i](x))
  {
    (x: Data) => List(seq(|functions|, i requires 0 <= i < |functions| => functions[i](x)))
  }

  // ---------------------------------------------------------------------------
  // Demo helpers

  function Double(x: Data): Data {
    match x
    case Num(n) => Num(n * 2)
    case Forked(items) => List(items + items)
    case List(items) => List(items + items)
    case Nothing => Nothing
  }

  function Inc(x: Data): Data {
    if x.Num? then Num(x.n + 1) else Nothing
  }

  function Dec(x: Data): Data {
    if x.Num? then Num(x.n - 1) else Nothing
  }

  function Triple(x: Data): Data {
    match x
    case Num(n) => Num(n * 3)
    case Forked(items) => List(items + items + items)
    case List(items) => List(items + items + items)
    case Nothing => Nothing
  }

  /** `mult(L)`: the product of the first two elements. */
  function Mult(l: Data): Data {
    if (l.Forked? || l.List?) && |l.items| >= 2 && l.items[0].Num? && l.items[1].Num? then
      Num(l.items[0].n * l.items[1].n)
    else Nothing
  }

  /** `lambda x, y: x + y` on numbers. */
  function Add(x: Data, y: Data): Data {
    if x.Num? && y.Num? then Num(x.n + y.n) else Nothing
  }

  /** `partial(map, f)`, with the iterator read as a list. */
  function MapOver(f: Func): Func {
    (d: Data) => if d.Forked? || d.List? then List(MapList(f, d.items)) else Nothing
  }

  /** `functools.reduce(op, xs)` without an initial value. */
  function ReduceItems(op: (Data, Data) -> Data, acc: Data, xs: seq<Data>): Data
    decreases |xs|
  {
    if xs == [] then acc else ReduceItems(op, op(acc, xs[0]), xs[1..])
  }

  /** `partial(reduce, op)`: raises on an empty list. */
  function ReduceWith(op: (Data, Data) -> Data): Func {
    (d: Data) => if (d.Forked? || d.List?) && |d.items| > 0 then ReduceItems(op, d.items[0], d.items[1..]) else Nothing
  }

  lemma DoubleUnforking()
    ensures Unforking(Double)
  {
  }

  /** The three `pipe` demos (lines 51-53). */
  lemma PipeDemos()
    ensures Pipe(Num(10), [Callable(Inc), Callable(Double)]) == Num(22)
    ensures Pipe(Num(10), [Fork([Dec, Inc]), Callable(Double)]) == Forked([Num(18), Num(22)])
    ensures Pipe(Num(10), [Fork([Dec, Inc]), Callable(Double), Reducer(Mult)]) == Num(396)
  {
    assert [Callable(Inc), Callable(Double)][1..] == [Callable(Double)];
    assert ApplyForm(Num(10), Callable(Inc)) == Num(11);
    PipeOne(Num(11), Callable(Double));
    var forked := ApplyForm(Num(10), Fork([Dec, Inc]));
    assert forked == Forked([Num(9), Num(11)]);
    var doubled := ApplyFunc(forked, Double);
    assert doubled.items[0] == Num(18) && doubled.items[1] == Num(22);
    assert doubled == Forked([Num(18), Num(22)]);
    assert Pipe(Num(10), [Fork([Dec, Inc]), Callable(Double)]) == doubled by {
      PipeSnoc(Num(10), [Fork([Dec, Inc])], Callable(Double));
      assert [Fork([Dec, Inc])] + [Callable(Double)] == [Fork([Dec, Inc]), Callable(Double)];
    }
    PipeSnoc(Num(10), [Fork([Dec, Inc]), Callable(Double)], Reducer(Mult));
    assert [Fork([Dec, Inc]), Callable(Double)] + [Reducer(Mult)] == [Fork([Dec, Inc]), Callable(Double), Reducer(Mult)];
  }

  /** The two `compose` demos (lines 63-75). */
  lemma ComposeDemos()
    ensures Compose([Double, Inc])(Num(2)) == Num(5)
    ensures Compose([ForkAll([Inc, Dec]), MapOver(Double), ReduceWith(Add)])(Num(2)) == Num(8)
  {
    ComposeMeaning([Double, Inc], Num(2));
    assert [Double, Inc][1..] == [Inc];
    assert ApplyInOrder([Inc], Num(4)) == Num(5) by {
      assert [Inc][1..] == [];
    }
    var fs := [ForkAll([Inc, Dec]), MapOver(Double), ReduceWith(Add)];
    ComposeMeaning(fs, Num(2));
    var forked := ForkAll([Inc, Dec])(Num(2));
    assert forked == List([Num(3), Num(1)]);
    var mapped := MapOver(Double)(forked);
    assert mapped == List([Num(6), Num(2)]);
    assert mapped.items[1..] == [Num(2)];
    assert ReduceItems(Add, Num(6), [Num(2)]) == Num(8) by {
      assert [Num(2)][1..] == [];
    }
    assert ReduceWith(Add)(mapped) == Num(8);
    assert fs[1..] == [MapOver(Double), ReduceWith(Add)];
    assert fs[1..][1..] == [ReduceWith(Add)];
    assert fs[1..][1..][1..] == [];
    assert ApplyInOrder(fs, Num(2)) == ApplyInOrder(fs[1..], forked);
    assert ApplyInOrder(fs[1..], forked) == ApplyInOrder(fs[1..][1..], mapped);
    assert ApplyInOrder(fs[1..][1..], mapped) == Num(8);
  }
}
