/** The text helpers of convert_func_generate/src/dspy_agent.py and the control
    flow around the proposer: fence stripping, docstring, comment and blank-line
    removal (three `re.sub` calls, each a left-to-right scan as Python's `re`
    performs it), the rounding precision of `_find_round`, the `error_detail`
    map of the reviser and the retry loop of `forward`.

    Executing generated source is the oracle `exec`: it yields the routine the
    source defines as `func`, or the exception executing it raises. The
    language-model calls are the oracles `replies` and `revise`, which may raise. */
module DspyAgent {
  import opened Values
  import Evaluator

  // ---------------------------------------------------------------------------
  // str.replace(pat, '')

  /** `s.replace(pat, '')`: deletes the occurrences of `pat` found scanning left
      to right, an occurrence starting after the end of the previous one. */
  function RemoveAll(s: string, pat: string): (r: string)
    requires |pat| > 0
    ensures |r| <= |s|
    decreases |s|
  {
    if |s| < |pat| then s
    else if s[..|pat|] == pat then RemoveAll(s[|pat|..], pat)
    else [s[0]] + RemoveAll(s[1..], pat)
  }

  predicate OccursAt(s: string, pat: string, i: nat) {
    i + |pat| <= |s| && s[i..i + |pat|] == pat
  }

  /** A string in which `pat` does not occur is left as it is. */
  lemma {:induction false} RemoveAllAbsent(s: string, pat: string)
    requires |pat| > 0
    ensures (forall i: nat :: !OccursAt(s, pat, i)) ==> RemoveAll(s, pat) == s
    decreases |s|
  {
    if |s| >= |pat| && forall i: nat :: !OccursAt(s, pat, i) {
      assert !OccursAt(s, pat, 0);
      forall i: nat ensures !OccursAt(s[1..], pat, i) {
        assert !OccursAt(s, pat, i + 1);
        if i + |pat| <= |s[1..]| {
          assert s[1..][i..i + |pat|] == s[i + 1..i + 1 + |pat|];
        }
      }
      RemoveAllAbsent(s[1..], pat);
    }
  }

  // ---------------------------------------------------------------------------
  // Code fences

  const Fence: string := "```"
  const PythonFence: string := "```python"

  /** Three backticks start at position i. */
  predicate TripleAt(s: string, i: nat) {
    i + 3 <= |s| && s[i] == '`' && s[i + 1] == '`' && s[i + 2] == '`'
  }

  /** Lines 121-122 and 197-198: every "```python", then every "```", deleted. */
  function StripFences(code: string): string {
    RemoveAll(RemoveAll(code, PythonFence), Fence)
  }

  lemma NoBacktickKept(u: string)
    ensures (|u| == 0 || u[0] != '`') ==> (|RemoveAll(u, Fence)| == 0 || RemoveAll(u, Fence)[0] != '`')
  {
  }

  /** Removing fences cannot make a string start with two backticks. */
  lemma NoTwoBackticksKept(u: string)
    ensures !(|u| >= 2 && u[0] == '`' && u[1] == '`') ==>
      !(|RemoveAll(u, Fence)| >= 2 && RemoveAll(u, Fence)[0] == '`' && RemoveAll(u, Fence)[1] == '`')
  {
    if |u| >= 3 && u[..3] != Fence && u[0] == '`' {
      NoBacktickKept(u[1..]);
    }
  }

  /** After removing every "```" none is left: a run of backticks shrinks to
      fewer than three and runs are never joined. */
  lemma {:induction false} NoTripleAfterRemove(t: string)
    ensures forall i: nat :: !TripleAt(RemoveAll(t, Fence), i)
    decreases |t|
  {
    if |t| >= 3 {
      if t[..3] == Fence {
        NoTripleAfterRemove(t[3..]);
      } else {
        var rest := RemoveAll(t[1..], Fence);
        NoTripleAfterRemove(t[1..]);
        assert RemoveAll(t, Fence) == [t[0]] + rest;
        if t[0] == '`' {
          assert !(t[1] == '`' && t[2] == '`') by {
            assert t[..3] == [t[0], t[1], t[2]];
          }
          NoTwoBackticksKept(t[1..]);
        }
        forall i: nat | i >= 1 ensures !TripleAt(RemoveAll(t, Fence), i) {
          assert !TripleAt(rest, i - 1);
        }
      }
    }
  }

  /** The stripped code holds no "```", so stripping it again changes nothing. */
  lemma StripFencesMeaning(code: string)
    ensures forall i: nat :: !TripleAt(StripFences(code), i)
    ensures StripFences(StripFences(code)) == StripFences(code)
  {
    var s := StripFences(code);
    NoTripleAfterRemove(RemoveAll(code, PythonFence));
    forall i: nat ensures !OccursAt(s, PythonFence, i) && !OccursAt(s, Fence, i) {
      assert !TripleAt(s, i);
      assert OccursAt(s, Fence, i) ==> TripleAt(s, i) by {
        if i + 3 <= |s| {
          assert s[i..i + 3][0] == s[i] && s[i..i + 3][1] == s[i + 1] && s[i..i + 3][2] == s[i + 2];
          assert Fence[0] == '`' && Fence[1] == '`' && Fence[2] == '`';
        }
      }
      assert OccursAt(s, PythonFence, i) ==> TripleAt(s, i) by {
        if i + 9 <= |s| {
          assert s[i..i + 9][0] == s[i] && s[i..i + 9][1] == s[i + 1] && s[i..i + 9][2] == s[i + 2];
          assert PythonFence[0] == '`' && PythonFence[1] == '`' && PythonFence[2] == '`';
        }
      }
    }
    RemoveAllAbsent(s, PythonFence);
    RemoveAllAbsent(s, Fence);
  }

  // ---------------------------------------------------------------------------
  // re.sub(r'""".*?"""', '', code, flags=re.DOTALL)

  /** Three double quotes start at position i. */
  predicate TQAt(s: string, i: nat) {
    i + 3 <= |s| && s[i] == '"' && s[i + 1] == '"' && s[i + 2] == '"'
  }

  /** The first position of three double quotes, if any. */
  function FindTQ(t: string): (r: Option<nat>)
    ensures r.Some? ==> TQAt(t, r.value) && forall m: nat :: m < r.value ==> !TQAt(t, m)
    ensures r.None? ==> forall m: nat :: !TQAt(t, m)
    decreases |t|
  {
    if |t| < 3 then None
    else if TQAt(t, 0) then Some(0)
    else
      var rest := FindTQ(t[1..]);
      assert forall m: nat :: TQAt(t, m + 1) <==> TQAt(t[1..], m) by {
        forall m: nat ensures TQAt(t, m + 1) <==> TQAt(t[1..], m) {
          if m + 3 <= |t[1..]| {
            assert t[1..][m] == t[m + 1] && t[1..][m + 1] == t[m + 2] && t[1..][m + 2] == t[m + 3];
          }
        }
      }
      assert forall m: nat :: m >= 1 ==> (TQAt(t, m) <==> TQAt(t[1..], m - 1)) by {
        forall m: nat | m >= 1 ensures TQAt(t, m) <==> TQAt(t[1..], m - 1) {
          assert TQAt(t, (m - 1) + 1) <==> TQAt(t[1..], m - 1);
        }
      }
      if rest.None? then None else Some(rest.value + 1)
  }

  /** Deletes each docstring: at each position where three double quotes
      start and three more follow later, the shortest such span goes
      (newlines included); any other character is kept. */
  function RemoveDocstrings(s: string): (r: string)
    ensures |r| <= |s|
    decreases |s|
  {
    if |s| == 0 then []
    else if TQAt(s, 0) && FindTQ(s[3..]).Some? then RemoveDocstrings(s[FindTQ(s[3..]).value + 6..])
    else [s[0]] + RemoveDocstrings(s[1..])
  }

  /** No two non-overlapping runs of three double quotes, that is, no
      docstring left to remove. */
  ghost predicate NoDocstring(s: string) {
    forall i: nat, j: nat :: TQAt(s, i) && TQAt(s, j) ==> j < i + 3
  }

  /** An output that starts with a double quote comes from an input that does. */
  lemma FirstQuoteKept(u: string)
    ensures (|RemoveDocstrings(u)| >= 1 && RemoveDocstrings(u)[0] == '"') ==> (|u| >= 1 && u[0] == '"')
  {
  }

  /** An output that starts with two double quotes comes from an input that does. */
  lemma TwoQuotesKept(u: string)
    ensures (|RemoveDocstrings(u)| >= 2 && RemoveDocstrings(u)[0] == '"' && RemoveDocstrings(u)[1] == '"') ==>
      (|u| >= 2 && u[0] == '"' && u[1] == '"')
  {
    if |u| >= 1 && !(TQAt(u, 0) && FindTQ(u[3..]).Some?) {
      FirstQuoteKept(u[1..]);
    }
  }

  /** Three quotes at position p of the output come from three quotes at or
      after position p of the input. */
  lemma {:induction false} TQSource(u: string, p: nat)
    ensures TQAt(RemoveDocstrings(u), p) ==> exists q: nat :: q >= p && TQAt(u, q)
    decreases |u|
  {
    if |u| > 0 && TQAt(RemoveDocstrings(u), p) {
      if TQAt(u, 0) && FindTQ(u[3..]).Some? {
        var k := FindTQ(u[3..]).value + 6;
        TQSource(u[k..], p);
        var q: nat :| q >= p && TQAt(u[k..], q);
        assert TQAt(u, q + k);
      } else if p == 0 {
        TwoQuotesKept(u[1..]);
        assert TQAt(u, 0);
      } else {
        TQSource(u[1..], p - 1);
        var q: nat :| q >= p - 1 && TQAt(u[1..], q);
        assert TQAt(u, q + 1);
      }
    }
  }

  /** An input with no three quotes from position p on gives an output with none. */
  lemma NoLateTQ(u: string, p: nat)
    ensures (forall q: nat :: q >= p ==> !TQAt(u, q)) ==> forall j: nat :: j >= p ==> !TQAt(RemoveDocstrings(u), j)
  {
    forall j: nat | j >= p ensures (forall q: nat :: q >= p ==> !TQAt(u, q)) ==> !TQAt(RemoveDocstrings(u), j) {
      TQSource(u, j);
    }
  }

  /** After docstring removal no docstring is left: the substitution is not
      repeated, but whatever quotes remain cannot open and close one. */
  lemma {:induction false} RemoveDocstringsLeavesNone(s: string)
    ensures NoDocstring(RemoveDocstrings(s))
    decreases |s|
  {
    if |s| > 0 {
      if TQAt(s, 0) && FindTQ(s[3..]).Some? {
        RemoveDocstringsLeavesNone(s[FindTQ(s[3..]).value + 6..]);
      } else {
        var t := s[1..];
        var out := RemoveDocstrings(s);
        assert out == [s[0]] + RemoveDocstrings(t);
        RemoveDocstringsLeavesNone(t);
        TwoQuotesKept(t);
        if TQAt(s, 0) {
          forall q: nat | q >= 2 ensures !TQAt(t, q) {
            assert !TQAt(s[3..], q - 2);
          }
          NoLateTQ(t, 2);
        }
        forall i: nat, j: nat | TQAt(out, i) && TQAt(out, j) ensures j < i + 3 {
          if i >= 1 && j >= 1 {
            assert TQAt(RemoveDocstrings(t), i - 1) && TQAt(RemoveDocstrings(t), j - 1);
          } else if i == 0 && j >= 1 {
            assert TQAt(s, 0);
            assert TQAt(RemoveDocstrings(t), j - 1);
          }
        }
      }
    }
  }

  /** Code without a docstring is left unchanged. */
  lemma {:induction false} RemoveDocstringsUnchanged(s: string)
    ensures NoDocstring(s) ==> RemoveDocstrings(s) == s
    decreases |s|
  {
    if |s| > 0 && NoDocstring(s) {
      assert !(TQAt(s, 0) && FindTQ(s[3..]).Some?) by {
        if |s| >= 3 && FindTQ(s[3..]).Some? {
          assert TQAt(s, FindTQ(s[3..]).value + 3);
        }
      }
      assert NoDocstring(s[1..]) by {
        forall i: nat, j: nat | TQAt(s[1..], i) && TQAt(s[1..], j) ensures j < i + 3 {
          assert TQAt(s, i + 1) && TQAt(s, j + 1);
        }
      }
      RemoveDocstringsUnchanged(s[1..]);
    }
  }

  /** Removing docstrings twice is the same as once. */
  lemma RemoveDocstringsIdempotent(s: string)
    ensures RemoveDocstrings(RemoveDocstrings(s)) == RemoveDocstrings(s)
  {
    RemoveDocstringsLeavesNone(s);
    RemoveDocstringsUnchanged(RemoveDocstrings(s));
  }

  // ---------------------------------------------------------------------------
  // re.sub(r'#.*', '', code)

  /** The rest of a line is dropped up to, not including, its newline. */
  function SkipLine(t: string): (r: string)
    ensures |r| <= |t|
    ensures r == [] || r[0] == '\n'
    ensures Count(r, '\n') == Count(t, '\n')
  {
    if t == [] then [] else if t[0] == '\n' then t else SkipLine(t[1..])
  }

  /** Occurrences of `c` in `s`. */
  function Count(s: string, c: char): nat {
    if s == [] then 0 else (if s[0] == c then 1 else 0) + Count(s[1..], c)
  }

  /** Deletes every comment: from each `#` to the end of its line (`.` does
      not match a newline). Every line of the input is still a line of the
      output, and no `#` is left, even one inside a string literal. */
  function RemoveComments(s: string): (r: string)
    ensures |r| <= |s|
    ensures '#' !in r
    ensures Count(r, '\n') == Count(s, '\n')
    decreases |s|
  {
    if s == [] then []
    else if s[0] == '#' then RemoveComments(SkipLine(s[1..]))
    else [s[0]] + RemoveComments(s[1..])
  }

  /** Code without `#` is left unchanged. */
  lemma {:induction false} RemoveCommentsUnchanged(s: string)
    ensures '#' !in s ==> RemoveComments(s) == s
    decreases |s|
  {
    if s != [] && '#' !in s {
      assert '#' !in s[1..] by {
        assert forall k :: 0 <= k < |s[1..]| ==> s[1..][k] == s[k + 1];
      }
      RemoveCommentsUnchanged(s[1..]);
    }
  }

  /** Removing comments twice is the same as once. */
  lemma RemoveCommentsIdempotent(s: string)
    ensures RemoveComments(RemoveComments(s)) == RemoveComments(s)
  {
    RemoveCommentsUnchanged(RemoveComments(s));
  }

  // ---------------------------------------------------------------------------
  // re.sub(r'\n\s*\n', '\n', code)

  /** Python's `\s` on `str` patterns: the characters `str.isspace` accepts. */
  predicate IsSpace(c: char) {
    || ('\U{09}' <= c <= '\U{0D}') || ('\U{1C}' <= c <= '\U{20}')
    || c == '\U{85}' || c == '\U{A0}' || c == '\U{1680}'
    || ('\U{2000}' <= c <= '\U{200A}') || c == '\U{2028}' || c == '\U{2029}'
    || c == '\U{202F}' || c == '\U{205F}' || c == '\U{3000}'
  }

  /** The run of whitespace at the start of `t` holds no newline. */
  predicate NlFreeRun(t: string)
    decreases |t|
  {
    t == [] || !IsSpace(t[0]) || (t[0] != '\n' && NlFreeRun(t[1..]))
  }

  /** The last newline within the run of whitespace at the start of `t`: where
      the greedy `\s*` followed by `\n` stops after backtracking. */
  function LastNewlineInRun(t: string): (r: Option<nat>)
    ensures r.None? <==> NlFreeRun(t)
    ensures r.Some? ==> r.value < |t| && t[r.value] == '\n' && NlFreeRun(t[r.value + 1..])
    ensures r.Some? ==> forall m :: 0 <= m <= r.value ==> IsSpace(t[m])
    decreases |t|
  {
    if t == [] || !IsSpace(t[0]) then None
    else
      var rest := LastNewlineInRun(t[1..]);
      if rest.Some? then
        assert t[rest.value + 2..] == t[1..][rest.value + 1..];
        Some(rest.value + 1)
      else if t[0] == '\n' then Some(0)
      else None
  }

  /** Replaces each newline followed by whitespace holding another newline,
      through the last such newline, by a single newline. */
  function CollapseBlankLines(s: string): (r: string)
    ensures |r| <= |s|
    ensures forall c :: c in r ==> c in s
    decreases |s|
  {
    if s == [] then []
    else if s[0] == '\n' && LastNewlineInRun(s[1..]).Some? then
      var j := LastNewlineInRun(s[1..]).value + 2;
      SuffixChars(s, j);
      "\n" + CollapseBlankLines(s[j..])
    else
      SuffixChars(s, 1);
      [s[0]] + CollapseBlankLines(s[1..])
  }

  lemma SuffixChars(s: string, j: nat)
    requires j <= |s|
    ensures forall c :: c in s[j..] ==> c in s
  {
    forall c | c in s[j..] ensures c in s {
      var k :| 0 <= k < |s[j..]| && s[j..][k] == c;
      assert s[j + k] == c;
    }
  }

  /** No two newlines are separated by whitespace only. */
  ghost predicate NoBlankLine(s: string) {
    forall i :: 0 <= i < |s| && s[i] == '\n' ==> NlFreeRun(s[i + 1..])
  }

  /** Collapsing keeps a newline-free leading whitespace run newline-free. */
  lemma {:induction false} CollapseKeepsNlFree(r: string)
    ensures NlFreeRun(r) ==> NlFreeRun(CollapseBlankLines(r))
    decreases |r|
  {
    if r != [] && r[0] != '\n' {
      CollapseKeepsNlFree(r[1..]);
      assert CollapseBlankLines(r)[1..] == CollapseBlankLines(r[1..]);
    }
  }

  /** Prepending a character keeps `NoBlankLine` when a newline prepended is
      not followed by a blank line. */
  lemma NoBlankLineCons(c: char, x: string)
    requires NoBlankLine(x) && (c == '\n' ==> NlFreeRun(x))
    ensures NoBlankLine([c] + x)
  {
    var s := [c] + x;
    forall i | 0 <= i < |s| && s[i] == '\n' ensures NlFreeRun(s[i + 1..]) {
      if i >= 1 {
        assert s[i + 1..] == x[i..];
        assert x[i - 1] == '\n';
      } else {
        assert s[1..] == x;
      }
    }
  }

  /** After collapsing, no blank line (a line of whitespace only) is left. */
  lemma {:induction false} CollapseLeavesNoBlankLine(s: string)
    ensures NoBlankLine(CollapseBlankLines(s))
    decreases |s|
  {
    if s != [] {
      if s[0] == '\n' && LastNewlineInRun(s[1..]).Some? {
        var k := LastNewlineInRun(s[1..]).value;
        var rest := s[k + 2..];
        assert rest == s[1..][k + 1..];
        CollapseLeavesNoBlankLine(rest);
        CollapseKeepsNlFree(rest);
        NoBlankLineCons('\n', CollapseBlankLines(rest));
      } else {
        CollapseLeavesNoBlankLine(s[1..]);
        CollapseKeepsNlFree(s[1..]);
        NoBlankLineCons(s[0], CollapseBlankLines(s[1..]));
      }
    }
  }

  /** Code without a blank line is left unchanged. */
  lemma {:induction false} CollapseUnchanged(s: string)
    ensures NoBlankLine(s) ==> CollapseBlankLines(s) == s
    decreases |s|
  {
    if s != [] && NoBlankLine(s) {
      assert s[0] == '\n' ==> NlFreeRun(s[1..]);
      assert NoBlankLine(s[1..]) by {
        forall i | 0 <= i < |s[1..]| && s[1..][i] == '\n' ensures NlFreeRun(s[1..][i + 1..]) {
          assert s[i + 1] == '\n';
          assert s[1..][i + 1..] == s[i + 2..];
        }
      }
      CollapseUnchanged(s[1..]);
    }
  }

  /** Collapsing blank lines twice is the same as once. */
  lemma CollapseIdempotent(s: string)
    ensures CollapseBlankLines(CollapseBlankLines(s)) == CollapseBlankLines(s)
  {
    CollapseLeavesNoBlankLine(s);
    CollapseUnchanged(CollapseBlankLines(s));
  }

  /** `_remove_docstrings_and_comments` (lines 132-148 and 208-224). */
  function Clean(code: string): string {
    CollapseBlankLines(RemoveComments(RemoveDocstrings(code)))
  }

  /** The cleaned code holds no `#` and no blank line. */
  lemma CleanMeaning(code: string)
    ensures '#' !in Clean(code)
    ensures NoBlankLine(Clean(code))
  {
    CollapseLeavesNoBlankLine(RemoveComments(RemoveDocstrings(code)));
  }

  // ---------------------------------------------------------------------------
  // _response_postprocess, forward, InvalidConvertorReviser

  /** What `_response_postprocess` returns (its reasoning text aside). */
  datatype Prediction = Prediction(callable: Routine, funcString: string)

  /** Executing a piece of source: the routine it binds to `func`, or the
      exception it raises. */
  type Exec = string -> Outcome<Routine>

  /** `_response_postprocess`: strips the fences, executes the code (an
      exception propagates) and returns the routine with the cleaned source. */
  function Postprocess(response: string, exec: Exec): Outcome<Prediction> {
    var source := StripFences(response);
    match exec(source)
    case Raised(e) => Raised(e)
    case Ok(f) => Ok(Prediction(f, Clean(source)))
  }

  /** Post-processing fails exactly when executing the unfenced code raises,
      with that exception; the code executed holds no fence, and the source
      returned beside the routine has no comment and no blank line. */
  lemma PostprocessMeaning(response: string, exec: Exec)
    ensures var source := StripFences(response);
      && (forall i: nat :: !TripleAt(source, i))
      && (Postprocess(response, exec).Raised? <==> exec(source).Raised?)
      && (Postprocess(response, exec).Raised? ==> Postprocess(response, exec).error == exec(source).error)
      && (Postprocess(response, exec).Ok? ==>
            && Postprocess(response, exec).value.callable == exec(source).value
            && '#' !in Postprocess(response, exec).value.funcString
            && NoBlankLine(Postprocess(response, exec).value.funcString))
  {
    StripFencesMeaning(response);
    CleanMeaning(StripFences(response));
  }

  /** `ConvertorGenerator.forward`: asks for code until post-processing it
      raises something other than `SyntaxError`, or returns. `replies(n)` is
      the n-th request to the language model: its answer, or what it raised.
      `type(input_values[0])` and `type(target_values[0])` raise `IndexError`
      on an empty list before any request is made. The handler prints
      `_response`: when the request itself raises `SyntaxError` on the first
      attempt that name is still unbound, so `UnboundLocalError` escapes; on a
      later attempt it holds the previous answer and the loop goes on. Any
      other exception of the request escapes. Python's loop has no bound:
      `fuel` bounds the number of requests, and `None` means it ran out. */
  method ConvertorForward(inputs: seq<string>, targets: seq<string>, replies: nat -> Outcome<string>, exec: Exec,
                          fuel: nat)
    returns (r: Option<Outcome<Prediction>>, attempts: nat)
    ensures |inputs| == 0 || |targets| == 0 ==> r == Some(Raised(IndexError)) && attempts == 0
    ensures |inputs| > 0 && |targets| > 0 ==>
      && (forall m :: 0 <= m < attempts ==> Retried(replies(m), m, exec))
      && (r.Some? ==>
            && attempts < fuel && !Retried(replies(attempts), attempts, exec)
            && (replies(attempts).Ok? ==> r.value == Postprocess(replies(attempts).value, exec))
            && (replies(attempts) == Raised(SyntaxError) ==> attempts == 0 && r.value == Raised(UnboundLocalError))
            && (replies(attempts).Raised? && replies(attempts).error != SyntaxError ==>
                  r.value == Raised(replies(attempts).error)))
      && (r.None? ==> attempts == fuel)
  {
    if |inputs| == 0 || |targets| == 0 {
      return Some(Raised(IndexError)), 0;
    }
    attempts := 0;
    while attempts < fuel
      invariant attempts <= fuel
      invariant forall m :: 0 <= m < attempts ==> Retried(replies(m), m, exec)
    {
      var reply := replies(attempts);
      if reply.Raised? {
        if reply.error != SyntaxError {
          return Some(Raised(reply.error)), attempts;
        } else if attempts == 0 {
          return Some(Raised(UnboundLocalError)), attempts;
        }
      } else {
        var response := Postprocess(reply.value, exec);
        if response != Raised(SyntaxError) {
          return Some(response), attempts;
        }
      }
      attempts := attempts + 1;
    }
    return None, attempts;
  }

  /** Whether attempt `m` of `ConvertorForward` ends in the `SyntaxError`
      handler with `_response` bound, so that the loop asks again: its answer
      fails to post-process with `SyntaxError`, or the request itself raises
      `SyntaxError` after an earlier answer. */
  predicate Retried(reply: Outcome<string>, m: nat, exec: Exec) {
    if reply.Ok? then Postprocess(reply.value, exec) == Raised(SyntaxError)
    else reply.error == SyntaxError && m > 0
  }

  /** Lines 275-276: `error_detail` maps each input on which the routine
      raises to its error message. */
  function ErrorDetail(f: Routine, inputs: seq<string>, message: string -> string): map<string, string> {
    DictOf(Evaluator.InvalidInputs(f, inputs), message)
  }

  /** `dict([(k, message(k)) for k in keys])`. */
  function DictOf(keys: seq<string>, message: string -> string): (m: map<string, string>)
    ensures m.Keys == set k | k in keys
    ensures forall k :: k in m ==> m[k] == message(k)
  {
    if keys == [] then map[]
    else DictOf(keys[..|keys| - 1], message)[keys[|keys| - 1] := message(keys[|keys| - 1])]
  }

  /** The keys of `error_detail` are exactly the inputs on which the routine
      raises; an input that raises is never left out. */
  lemma ErrorDetailKeys(f: Routine, inputs: seq<string>, message: string -> string)
    ensures forall x :: x in ErrorDetail(f, inputs, message) <==> x in inputs && f(x).None?
    ensures Evaluator.IsValid(f, inputs) <==> ErrorDetail(f, inputs, message) == map[]
  {
    var keys := Evaluator.InvalidInputs(f, inputs);
    forall x ensures x in ErrorDetail(f, inputs, message) <==> x in inputs && f(x).None? {
      if x in inputs && f(x).None? {
        var i :| 0 <= i < |inputs| && inputs[i] == x;
        assert x in keys;
      }
    }
    if !Evaluator.IsValid(f, inputs) {
      var i :| 0 <= i < |inputs| && f(inputs[i]).None?;
      assert inputs[i] in ErrorDetail(f, inputs, message);
    }
  }

  /** `InvalidConvertorReviser.forward`: executing the incorrect code first
      (any exception becomes `ValueError`), then building `error_detail`, then
      asking the reviser once (an `IndexError` on an empty list first) and
      post-processing its answer. The loop around the request does not retry:
      when the first request raises `SyntaxError`, `_response` is still unbound,
      so the warning printed in the handler raises `UnboundLocalError`. */
  function ReviserForward(incorrect: string, inputs: seq<string>, targets: seq<string>, exec: Exec,
                          message: string -> string, revise: map<string, string> -> Outcome<string>): Outcome<Prediction> {
    match exec(incorrect)
    case Raised(_) => Raised(ValueError)
    case Ok(f) =>
      if |inputs| == 0 || |targets| == 0 then Raised(IndexError)
      else
        match revise(ErrorDetail(f, inputs, message))
        case Raised(e) => Raised(if e == SyntaxError then UnboundLocalError else e)
        case Ok(reply) => Postprocess(reply, exec)
  }

  /** The reviser raises `ValueError` exactly when the incorrect code cannot be
      executed, and `IndexError` on an empty list; otherwise it asks exactly
      once, showing exactly the failing inputs: a reply is post-processed, a
      `SyntaxError` from the request ends in `UnboundLocalError` and any other
      exception of the request propagates. */
  lemma ReviserMeaning(incorrect: string, inputs: seq<string>, targets: seq<string>, exec: Exec,
                       message: string -> string, revise: map<string, string> -> Outcome<string>)
    ensures exec(incorrect).Raised? ==> ReviserForward(incorrect, inputs, targets, exec, message, revise) == Raised(ValueError)
    ensures exec(incorrect).Ok? && (|inputs| == 0 || |targets| == 0) ==>
      ReviserForward(incorrect, inputs, targets, exec, message, revise) == Raised(IndexError)
    ensures exec(incorrect).Ok? && |inputs| > 0 && |targets| > 0 ==>
      var detail := ErrorDetail(exec(incorrect).value, inputs, message);
      var r := ReviserForward(incorrect, inputs, targets, exec, message, revise);
      && (forall x :: x in detail <==> x in inputs && exec(incorrect).value(x).None?)
      && (revise(detail).Ok? ==> r == Postprocess(revise(detail).value, exec))
      && (revise(detail) == Raised(SyntaxError) ==> r == Raised(UnboundLocalError))
      && (revise(detail).Raised? && revise(detail).error != SyntaxError ==> r == Raised(revise(detail).error))
  {
    if exec(incorrect).Ok? {
      ErrorDetailKeys(exec(incorrect).value, inputs, message);
    }
  }

  // ---------------------------------------------------------------------------
  // _find_round

  /** `s.split(c)`: the pieces between the occurrences of `c`. */
  function Split(s: string, c: char): (r: seq<string>)
    ensures |r| >= 1
    ensures c in s ==> |r| >= 2
    ensures forall k :: 0 <= k < |r| ==> c !in r[k]
  {
    if s == [] then [[]]
    else
      var rest := Split(s[1..], c);
      if s[0] == c then [[]] + rest else [[s[0]] + rest[0]] + rest[1..]
  }

  /** `c.join(parts)`. */
  function Join(parts: seq<string>, c: char): string
    requires |parts| >= 1
  {
    if |parts| == 1 then parts[0] else parts[0] + [c] + Join(parts[1..], c)
  }

  /** Joining the pieces gives the string back. */
  lemma {:induction false} SplitJoin(s: string, c: char)
    ensures Join(Split(s, c), c) == s
  {
    if s != [] {
      SplitJoin(s[1..], c);
      var rest := Split(s[1..], c);
      if s[0] != c && |rest| > 1 {
        assert Join(Split(s, c), c) == ([s[0]] + rest[0]) + [c] + Join(rest[1..], c);
      }
    }
  }

  /** The number of decimals of one target: the length of the piece after the
      first `.`, or 0 when there is none. */
  function RoundOf(target: string): nat {
    if '.' in target then |Split(target, '.')[1]| else 0
  }

  /** The first `.` of `t` is at position d and the piece after it, up to the
      next `.` or the end, has length n. */
  ghost predicate PieceAfterFirstDot(t: string, d: nat, n: nat) {
    && d < |t| && t[d] == '.' && '.' !in t[..d]
    && d + 1 + n <= |t| && '.' !in t[d + 1..d + 1 + n]
    && (d + 1 + n == |t| || t[d + 1 + n] == '.')
  }

  /** `RoundOf` measures the piece between the first `.` and the next `.` or
      the end. */
  lemma RoundOfMeaning(t: string)
    ensures '.' !in t ==> RoundOf(t) == 0
    ensures '.' in t ==> exists d: nat :: PieceAfterFirstDot(t, d, RoundOf(t))
  {
    if '.' in t {
      var parts := Split(t, '.');
      SplitJoin(t, '.');
      var d := |parts[0]|;
      var n := |parts[1]|;
      if |parts| == 2 {
        assert t == parts[0] + ['.'] + parts[1];
      } else {
        assert Join(parts[1..], '.') == parts[1] + ['.'] + Join(parts[2..], '.');
        assert t == parts[0] + ['.'] + (parts[1] + ['.'] + Join(parts[2..], '.'));
        assert t[d + 1 + n] == '.';
      }
      assert t[..d] == parts[0] && t[d] == '.' && t[d + 1..d + 1 + n] == parts[1];
      assert PieceAfterFirstDot(t, d, RoundOf(t));
    }
  }

  /** The largest element of a non-empty list (`np.max`). */
  function MaxOf(xs: seq<nat>): (r: nat)
    requires |xs| > 0
    ensures (exists i :: 0 <= i < |xs| && r == xs[i]) && forall i :: 0 <= i < |xs| ==> xs[i] <= r
  {
    if |xs| == 1 then xs[0]
    else
      var m := MaxOf(xs[1..]);
      assert forall i :: 1 <= i < |xs| ==> xs[i] == xs[1..][i - 1];
      if xs[0] >= m then xs[0] else m
  }

  /** `NumericConvertorGenerator._find_round`: the most decimals among the
      targets; `np.max` of the empty list raises `ValueError`. */
  method FindRound(targets: seq<string>) returns (r: Outcome<nat>)
    ensures r.Raised? <==> |targets| == 0
    ensures r.Raised? ==> r.error == ValueError
    ensures r.Ok? ==> (exists i :: 0 <= i < |targets| && r.value == RoundOf(targets[i]))
                      && forall i :: 0 <= i < |targets| ==> RoundOf(targets[i]) <= r.value
  {
    var roundNumbers: seq<nat> := [];
    for i := 0 to |targets|
      invariant |roundNumbers| == i
      invariant forall k :: 0 <= k < i ==> roundNumbers[k] == RoundOf(targets[k])
    {
      var target := targets[i];
      if '.' in target {
        roundNumbers := roundNumbers + [|Split(target, '.')[1]|];
      } else {
        roundNumbers := roundNumbers + [0];
      }
    }
    if |roundNumbers| == 0 {
      return Raised(ValueError);
    }
    r := Ok(MaxOf(roundNumbers));
  }
}
