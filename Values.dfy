/** Values shared by the whole model: Python results, Python exceptions and the
    candidate routines the proposer produces. */
module Values {

  /** An optional value; `None` is also how a routine "raises" (see Routine). */
  datatype Option<+T> = None | Some(value: T)

  /** A Python value a routine can return: a string, `None`, or any other
      object (a number, a tuple, a list, ...), told apart only by an abstract
      identity and by whether Python can hash it. */
  datatype PyValue = Str(text: string) | NoneValue | Other(id: nat, hashable: bool)

  /** Whether the value can go into a Python `set`: strings and `None` can, a
      list or a dict cannot (`set` raises `TypeError` on it). */
  predicate Hashable(v: PyValue) {
    v.Other? ==> v.hashable
  }

  /** The exceptions the modelled code can raise. `RoutineRaised` is whatever a
      candidate routine raises on the input it carries. */
  datatype PyError =
    | RoutineRaised(input: string)
    | ZeroDivisionError
    | IndexError
    | ValueError
    | SyntaxError
    | AssertionError
    | TypeError
    | UnboundLocalError
    | KeyError(key: string)

  /** The result of a Python computation that may raise. */
  datatype Outcome<+T> = Ok(value: T) | Raised(error: PyError)

  /** A candidate routine: a single-argument function on one textual value.
      `None` stands for "the call raises". */
  type Routine = string -> Option<PyValue>

  /** The identity routine `lambda x: x`. */
  function Identity(): Routine {
    x => Some(Str(x))
  }

  /** `lambda x: None`, the fallback installed when proposed code cannot be loaded. */
  function AlwaysNone(): Routine {
    x => Some(NoneValue)
  }

  /** `min(a, b)`; `zip` stops at the shorter of two lists. */
  function Min(a: int, b: int): int {
    if a <= b then a else b
  }

  /** Lifts a list of target strings to the values a routine's outputs are compared with. */
  function Lift(targets: seq<string>): (r: seq<PyValue>)
    ensures |r| == |targets|
    ensures forall i :: 0 <= i < |r| ==> r[i] == Str(targets[i])
  {
    seq(|targets|, i requires 0 <= i < |targets| => Str(targets[i]))
  }
}
