# Conversion-function workflow: a Dafny model

The system searches for a Python routine that converts a column of input
values into a column of target values. A language model proposes the code.
A small workflow engine drives the search. It runs a graph of nodes. Each node
changes a shared payload and then chooses a labelled edge to the next node.
Around the proposer sit several pieces:

- an evaluator that scores a routine against the two lists (validity, pairwise
  rows, set differences, the one-sided "f1" ratio, accuracy);
- data samplers that shuffle and halve the lists;
- text helpers that clean the proposed code;
- the conversion graph, which has a null shortcut, a numeric shortcut, an
  inference/revision loop, a fit check and a bounded repeat loop.

The project also models three older pieces: the first version of the engine
with its demonstration graph, the first version of the generator and
evaluator, and a set of `pipe`/`compose` combinators.

Modules:

- `Values`: Python results and exceptions. A candidate routine is a total
  function `string -> Option<PyValue>`, where `None` means "the call raises".
- `WorkflowTool`: the engine of `convert_func_generate/src/workflow_tool.py`.
  Nodes and the controller are classes with mutable fields. `Run` is proved
  equal to the ghost specification `Walk` over a table of labelled edges, and
  the generic lemmas about `Walk` (paths, budgets, invariants, divergence)
  are proved once and instantiated by the graph.
- `PipelineWorkflow`: the older engine of `pipeline/workflow.py`. It threads
  return values from node to node and does not process the terminal node.
  Its demonstration graph is included.
- `Evaluator`: `convert_func_generate/src/evaluator.py`. The older evaluator
  of `auto_convertion_code_generation.py` has the same `is_valid` and `check_*`
  functions and reuses these definitions. Only its `is_fit` differs, and that
  lives in `AutoConvertion`.
- `Sorting`: Python's order on strings and `sorted` as an ordered permutation.
- `DataSampler`: `convert_func_generate/src/data_sampler.py`. It includes
  CPython's in-place Fisher-Yates `random.shuffle`, driven by given draws.
- `DspyAgent`: the text and control helpers of
  `convert_func_generate/src/dspy_agent.py`.
- `ConversionGraph`: the nodes, wiring and run of `convert_func_generate/main.py`.
- `AutoConvertion`: the older generator of `auto_convertion_code_generation.py`.
- `BasicPipeline`: `pipeline/basic_pipeline.py`.

Behaviour reproduced as written:

- `_split_train_test` returns the same first half as both the training part
  and the testing part.
- `split` never calls `_reorder_values`.
- The new `is_fit` ignores missing targets.
- A routine output that Python cannot hash (a list, say) makes the set comparison of both `is_fit` versions raise `TypeError`. In the model, `Other` values carry whether they are hashable.
- `accuracy` divides by the number of zipped rows.
- The null producer divides by zero on two empty lists
  (`ConversionGraph.NullShortcutEmpty`).
- The revise loop of the graph has no counter
  (`ConversionGraph.ReviseLoopUnbounded`).
- Comment removal also deletes a `#` inside a string literal.

Python's loops have no bound. The engines and the retry loops therefore take
a `fuel` argument, and running out of fuel is reported as its own ending.

## Model

| member | source | states |
|---|---|---|
| WorkflowTool.WorkflowNode.constructor | convert_func_generate/src/workflow_tool.py:12-13 | a new node has no downstream node |
| WorkflowTool.WorkflowNode.AttachDownstream | convert_func_generate/src/workflow_tool.py:15-16 | the label is bound to the node, an earlier binding of that label is replaced and every other label is kept |
| WorkflowTool.WorkflowNode.IsEnd | convert_func_generate/src/workflow_tool.py:18-23 | holds exactly when the node has no downstream node |
| WorkflowTool.WorkflowNode.DetermineDownstream | convert_func_generate/src/workflow_tool.py:25-34 | inherited branch: nothing on a terminal node, `AssertionError` exactly when there is more than one edge, otherwise the single label |
| WorkflowTool.NextLabel | convert_func_generate/src/workflow_tool.py:63-65 | a label that lets the run go on is always a key of the node's edge map; any other label fails the lookup |
| WorkflowTool.NextLabelWired | convert_func_generate/src/workflow_tool.py:25-34 | when every label a node chooses is one of its edges, and a node that chooses none has exactly one edge, leaving the node fails exactly when its own branch raises, with the same exception |
| WorkflowTool.NextLabelChosen | convert_func_generate/src/workflow_tool.py:63-65 | the label followed is the one the node returned, or the sole edge for the inherited branch |
| WorkflowTool.WalkStep | convert_func_generate/src/workflow_tool.py:61-65 | one loop pass: the processed node, then the run from the chosen downstream node on the changed payload |
| WorkflowTool.WalkFollowsEdges | convert_func_generate/src/workflow_tool.py:61-66 | a run starts at the start node and goes along edges; a run that returns ends at the first terminal node, which it has processed; it processes at most `fuel` nodes |
| WorkflowTool.WalkAbortCause | convert_func_generate/src/workflow_tool.py:61-76 | a run aborts either because the node named as raising raised on the final data, and that node is the start node or downstream of the last node visited, or because the last node visited could not be left |
| WorkflowTool.WalkReturnsAt | convert_func_generate/src/workflow_tool.py:61-66 | when `f` is the only terminal kind, a run that returns has processed `f` last |
| WorkflowTool.WalkLeads | convert_func_generate/src/workflow_tool.py:61-65 | a run through a node that leads to `n` continues as the run from `n` |
| WorkflowTool.WalkReturns | convert_func_generate/src/workflow_tool.py:66-67 | a run at a terminal node processes it once and returns |
| WorkflowTool.WalkRaises | convert_func_generate/src/workflow_tool.py:72-76 | a node whose `process` raises is not recorded as visited but is named as the node that raised, and the run aborts with that exception |
| WorkflowTool.WalkLeaveRaises | convert_func_generate/src/workflow_tool.py:63-65 | a node that is processed but cannot be left is recorded, and the run aborts |
| WorkflowTool.WalkCountsDown | convert_func_generate/src/workflow_tool.py:61-66 | when every step spends budget, a run processes the target node at most as many times as the budget of its first payload |
| WorkflowTool.WalkKeeps | convert_func_generate/src/workflow_tool.py:61-67 | when every step keeps an invariant, a run that returns ends with a payload satisfying the final condition |
| WorkflowTool.WalkDiverges | convert_func_generate/src/workflow_tool.py:61-65 | when every step stays inside an invariant, the loop never ends: one node per unit of fuel, whatever the fuel |
| WorkflowTool.Payload.constructor | convert_func_generate/src/workflow_tool.py:84-87 | a payload holds its data and has no `workflow_records` entry before the first record |
| WorkflowTool.WorkflowController.constructor | convert_func_generate/src/workflow_tool.py:47-51 | the controller starts at its start node with empty records |
| WorkflowTool.WorkflowController.RecordWorkflowInPayload | convert_func_generate/src/workflow_tool.py:83-87 | the current node is appended to `workflow_records`, which is created on first use; earlier entries and the data are unchanged |
| WorkflowTool.WorkflowController.OperateNode | convert_func_generate/src/workflow_tool.py:69-80 | records the node and the payload, processes the payload in place, then records the node in the payload and the payload as output; a raising `process` leaves the payload and the output records as they were |
| WorkflowTool.WorkflowController.Downstream | convert_func_generate/src/workflow_tool.py:63-65 | the downstream node reached is the one the label names in the node's map, of the kind the table gives; it fails exactly as the specified label does |
| WorkflowTool.WorkflowController.RunStep | convert_func_generate/src/workflow_tool.py:61-65 | one loop pass keeps the run in step with `Walk`, or ends it as `Walk` ends |
| WorkflowTool.WorkflowController.RunLast | convert_func_generate/src/workflow_tool.py:66-67 | the terminal node is processed and the run ends as `Walk` says |
| WorkflowTool.WorkflowController.Run | convert_func_generate/src/workflow_tool.py:53-67 | restarts at the start node with fresh records; returns the payload object it was given; its data and the nodes appended to `workflow_records` are those of `Walk`; the controller's records hold the same nodes, plus exactly one more, the node whose `process` raised, when the run ended that way; that payload is each input and each completed output |
| PipelineWorkflow.WorkflowNode.constructor | pipeline/workflow.py:10-11 | a new node has no downstream node |
| PipelineWorkflow.WorkflowNode.AttachDownstream | pipeline/workflow.py:13-14 | binds the label, replacing an earlier binding and keeping every other label |
| PipelineWorkflow.WorkflowNode.IsEnd | pipeline/workflow.py:16-21 | holds exactly when there is no edge |
| PipelineWorkflow.WorkflowNode.DoBranch | pipeline/workflow.py:23-32 | inherited `do_branch`: nothing on a terminal node, `AssertionError` exactly when there is more than one edge, otherwise the single label |
| PipelineWorkflow.WalkRaises | pipeline/workflow.py:58-60 | a non-terminal node whose `process` raises is not recorded as visited but is named as the node that raised, and the run aborts with the value it was given |
| PipelineWorkflow.WalkLeaveRaises | pipeline/workflow.py:62-64 | a processed node that cannot be left is recorded with its input and output, and the run aborts |
| PipelineWorkflow.WalkMoves | pipeline/workflow.py:57-64 | a processed node that is left continues as the run from its downstream node on the value it returned |
| PipelineWorkflow.ThreadedPrepend | pipeline/workflow.py:58-61 | processing a non-terminal node in front of a threaded record gives a threaded record |
| PipelineWorkflow.WalkAbortCause | pipeline/workflow.py:57-64 | a run aborts either because the node named as raising, which is non-terminal and is the start node or downstream of the last node processed, raised on the final value, or because the last node processed could not be left |
| PipelineWorkflow.WalkThreadsValues | pipeline/workflow.py:57-66 | `start` feeds each return value to the next node: the first input is the start value, each output is the next input, the last output is the result, and no terminal node is processed |
| PipelineWorkflow.WorkflowController.constructor | pipeline/workflow.py:45-47 | starts at the start node with empty records |
| PipelineWorkflow.WorkflowController.MidwayAtEnd | pipeline/workflow.py:57 | reaching a terminal node ends the run without processing it |
| PipelineWorkflow.WorkflowController.StartStep | pipeline/workflow.py:58-64 | one loop pass keeps the records in step with `Walk`, or ends the run as `Walk` ends |
| PipelineWorkflow.WorkflowController.Downstream | pipeline/workflow.py:62-64 | the next node is the one the label names, of the kind the table gives; it fails exactly as the specified label does |
| PipelineWorkflow.WorkflowController.Start | pipeline/workflow.py:49-66 | restarts with empty records and returns the value of `Walk`; the node, input and output records are those of `Walk`, plus exactly one more node and input when a `process` raised: that node and the value it raised on |
| PipelineWorkflow.DemoEndStep | pipeline/workflow.py:72-75 | the end node is not processed and the value is returned as is |
| PipelineWorkflow.DemoValidStep | pipeline/workflow.py:77-85 | `IsValid` passes the value on unchanged and goes to the end on 0, to `plus_one` otherwise |
| PipelineWorkflow.DemoPlusOneStep | pipeline/workflow.py:88-93 | `PlusOne` returns its input plus one and goes to `ten_validate` |
| PipelineWorkflow.DemoTenStep | pipeline/workflow.py:95-103 | `TenReach` passes the value on unchanged and goes to the end on 10, to `plus_one` otherwise |
| PipelineWorkflow.DemoStartZero | pipeline/workflow.py:119 | `start(0)` returns 0 after processing only `valid_1` |
| PipelineWorkflow.DemoLoopReachesTen | pipeline/workflow.py:113-117 | from `plus_one` below 10, the loop stops at exactly 10 after `10 - x` rounds |
| PipelineWorkflow.DemoStartBelowTen | pipeline/workflow.py:122 | `start(x)` returns 10 for every non-zero `x` below 10, `start(1)` included |
| PipelineWorkflow.DemoFromTenRunsForever | pipeline/workflow.py:109-117 | from 10 upwards the demonstration graph never returns |
| PipelineWorkflow.DemoLoopDiverges | pipeline/workflow.py:114-117 | past 10, `plus_one` and `ten_validate` alternate until the fuel runs out |
| PipelineWorkflow.BuildDemo | pipeline/workflow.py:109-117 | the four node objects are wired as the demonstration table says |
| PipelineWorkflow.RunDemo | pipeline/workflow.py:108-124 | the main block's two runs return 0 and 10 |
| Evaluator.InvalidInputs | convert_func_generate/src/evaluator.py:42-59 | exactly the inputs on which the routine raises, none left out, in input order |
| Evaluator.CheckFunctionValidity | convert_func_generate/src/evaluator.py:42-59 | never stops early; one entry per raising input, in input order, each carrying its input |
| Evaluator.IsValid | convert_func_generate/src/evaluator.py:12-14 | holds exactly when the routine raises on no input |
| Evaluator.Outputs | convert_func_generate/src/evaluator.py:68-70 | a successful collection has one output per input |
| Evaluator.OutputsRaisedExtends | convert_func_generate/src/evaluator.py:69-70 | once a prefix of the inputs raises, the whole loop raises with the same error |
| Evaluator.OutputsMeaning | convert_func_generate/src/evaluator.py:68-70 | the output loop succeeds exactly on a valid routine and then holds each input's output in order; otherwise it raises with the first raising input |
| Evaluator.CheckGroupwiseMatching | convert_func_generate/src/evaluator.py:61-74 | the loop computes the groupwise report: the first raising input aborts it; otherwise building the set of outputs raises `TypeError` when one of them is unhashable; otherwise it gives the two set differences, as its specification says |
| Evaluator.GroupwiseMeaning | convert_func_generate/src/evaluator.py:61-74 | raises exactly when the routine raises on some input (with the first such input) or returns an unhashable value (with `TypeError`); otherwise `unexpected` is exactly the outputs that are not targets and `missing` is exactly the targets that are never produced |
| Evaluator.PairRows | convert_func_generate/src/evaluator.py:82-91 | one row per position of the shorter list |
| Evaluator.PairRowsMeaning | convert_func_generate/src/evaluator.py:75-91 | raises exactly when the routine raises on a zipped input; each row holds that input, its target and the output; `correct` holds exactly when the output equals the target |
| Evaluator.CheckPairwiseMatching | convert_func_generate/src/evaluator.py:75-91 | the loop computes the pairwise rows or raises as their specification says |
| Evaluator.CountCorrect | convert_func_generate/src/evaluator.py:29 | at most the number of rows, equal to it exactly when every row is correct |
| Evaluator.F1AtMostOne | convert_func_generate/src/evaluator.py:20-24 | f1 is at most 1, and equals 1 exactly when nothing is unexpected, whatever is missing |
| Evaluator.IsFitIff | convert_func_generate/src/evaluator.py:16-24 | `is_fit` raises exactly when the routine raises on some input, returns an unhashable value, or the target list is empty; otherwise it holds exactly when nothing is unexpected |
| Evaluator.UnhashableOutputRaises | convert_func_generate/src/evaluator.py:68-73 | a routine returning an unhashable value (a list) on a valid input makes `is_fit` raise `TypeError` instead of answering |
| Evaluator.AccuracyBounds | convert_func_generate/src/evaluator.py:26-29 | accuracy divides by zero with no row; otherwise it lies in [0, 1] and is 1 exactly when every row is correct |
| Sorting.StrLeTotal | convert_func_generate/main.py:177-178 | Python's string order is total |
| Sorting.StrLeTrans | convert_func_generate/main.py:177-178 | Python's string order is transitive |
| Sorting.StrLeAntisym | convert_func_generate/main.py:177-178 | Python's string order is antisymmetric |
| Sorting.Insert | convert_func_generate/main.py:177-178 | inserting into an ordered list gives an ordered list with one more copy of the element |
| Sorting.Sorted | convert_func_generate/main.py:177-178 | `sorted` gives an ordered permutation of its argument |
| Sorting.OrderedPermutationUnique | convert_func_generate/main.py:177-178 | two ordered permutations of each other are equal, so sorting is determined and changes nothing on an ordered list |
| DataSampler.ShufflePermutes | convert_func_generate/src/data_sampler.py:105 | the Fisher-Yates steps of `random.shuffle` permute the list |
| DataSampler.Shuffle | convert_func_generate/src/data_sampler.py:126-127 | shuffles the array in place as `random.shuffle` does with the given draws |
| DataSampler.Zip | convert_func_generate/src/data_sampler.py:104 | as long as the shorter list, and pairs the elements at each position |
| DataSampler.Firsts | convert_func_generate/src/data_sampler.py:106 | the first component of every pair, in order |
| DataSampler.Seconds | convert_func_generate/src/data_sampler.py:107 | the second component of every pair, in order |
| DataSampler.ZipProjections | convert_func_generate/src/data_sampler.py:104-107 | zipping the two projections gives the pairs back |
| DataSampler.PairRandomizedKeepsPairs | convert_func_generate/src/data_sampler.py:99-108 | both lists are as long as the shorter argument and, read in step, hold exactly the original positional pairs, each as often as before |
| DataSampler.PairRandomize | convert_func_generate/src/data_sampler.py:99-108 | the in-place shuffle of the zipped copies gives the projections of one permutation of the pairs |
| DataSampler.GroupRandomize | convert_func_generate/src/data_sampler.py:119-128 | each list is shuffled independently into a permutation of itself |
| DataSampler.SplitTrainTest | convert_func_generate/src/data_sampler.py:85-90 | the training part and the testing part are the same first `len // 2` elements |
| DataSampler.Split | convert_func_generate/src/data_sampler.py:51-65 | train equals test on each side, each the first half of the randomized list; the pair sampler keeps original pairs in step and the group sampler keeps original values; `_reorder_values` is not used |
| DataSampler.ReorderValues | convert_func_generate/src/data_sampler.py:68-83 | either both lists sorted or both unchanged, never one of each, with nothing lost |
| DspyAgent.RemoveAll | convert_func_generate/src/dspy_agent.py:122 | `replace(pat, '')` never lengthens the string |
| DspyAgent.RemoveAllAbsent | convert_func_generate/src/dspy_agent.py:122 | a string without the pattern is unchanged |
| DspyAgent.NoTripleAfterRemove | convert_func_generate/src/dspy_agent.py:122 | after removing every "```" none is left |
| DspyAgent.StripFencesMeaning | convert_func_generate/src/dspy_agent.py:121-122 | the stripped code holds no "```", so stripping again changes nothing |
| DspyAgent.FindTQ | convert_func_generate/src/dspy_agent.py:143 | the first position of three double quotes, or none when there is none |
| DspyAgent.RemoveDocstrings | convert_func_generate/src/dspy_agent.py:143 | docstring removal never lengthens the code |
| DspyAgent.RemoveDocstringsLeavesNone | convert_func_generate/src/dspy_agent.py:143 | no `"""…"""` span is left after one substitution |
| DspyAgent.RemoveDocstringsUnchanged | convert_func_generate/src/dspy_agent.py:143 | code without a docstring is unchanged |
| DspyAgent.RemoveDocstringsIdempotent | convert_func_generate/src/dspy_agent.py:143 | removing docstrings twice is the same as once |
| DspyAgent.SkipLine | convert_func_generate/src/dspy_agent.py:145 | `#.*` stops at, and keeps, the newline |
| DspyAgent.RemoveComments | convert_func_generate/src/dspy_agent.py:145 | no `#` is left, and every newline is kept |
| DspyAgent.RemoveCommentsUnchanged | convert_func_generate/src/dspy_agent.py:145 | code without `#` is unchanged |
| DspyAgent.RemoveCommentsIdempotent | convert_func_generate/src/dspy_agent.py:145 | removing comments twice is the same as once |
| DspyAgent.LastNewlineInRun | convert_func_generate/src/dspy_agent.py:147 | where the greedy `\s*\n` ends: the last newline in the leading whitespace run, or none when the run holds no newline |
| DspyAgent.CollapseBlankLines | convert_func_generate/src/dspy_agent.py:147 | collapsing never lengthens the code or adds a character |
| DspyAgent.CollapseLeavesNoBlankLine | convert_func_generate/src/dspy_agent.py:147 | afterwards no two newlines are separated by whitespace only |
| DspyAgent.CollapseUnchanged | convert_func_generate/src/dspy_agent.py:147 | code without a blank line is unchanged |
| DspyAgent.CollapseIdempotent | convert_func_generate/src/dspy_agent.py:147 | collapsing twice is the same as once |
| DspyAgent.CleanMeaning | convert_func_generate/src/dspy_agent.py:132-148 | the cleaned code holds no `#` and no blank line |
| DspyAgent.PostprocessMeaning | convert_func_generate/src/dspy_agent.py:192-205 | post-processing raises exactly when executing the unfenced code raises, with that exception; the executed code holds no fence; the returned source has no comment and no blank line |
| DspyAgent.ConvertorForward | convert_func_generate/src/dspy_agent.py:226-242 | an empty list raises `IndexError` before any request; otherwise every discarded attempt either post-processed to `SyntaxError` or had its request raise `SyntaxError` after the first attempt; the first attempt that is not discarded decides the result: its post-processed answer, `UnboundLocalError` when the very first request raised `SyntaxError`, or the request's own exception |
| DspyAgent.DictOf | convert_func_generate/src/dspy_agent.py:276 | the keys are exactly the listed keys, each with its message |
| DspyAgent.ErrorDetailKeys | convert_func_generate/src/dspy_agent.py:275-276 | the keys of `error_detail` are exactly the inputs on which the routine raises; it is empty exactly on a valid routine |
| DspyAgent.ReviserMeaning | convert_func_generate/src/dspy_agent.py:269-292 | unloadable incorrect code raises `ValueError` and an empty list `IndexError`; otherwise the reviser is asked once and sees exactly the failing inputs; its reply is post-processed, a `SyntaxError` from the request ends in `UnboundLocalError` (no retry), and any other exception of the request propagates |
| DspyAgent.Split | convert_func_generate/src/dspy_agent.py:350 | `split('.')` gives at least one piece, at least two when there is a `.`, and no piece holds a `.` |
| DspyAgent.SplitJoin | convert_func_generate/src/dspy_agent.py:350 | joining the pieces gives the string back |
| DspyAgent.RoundOfMeaning | convert_func_generate/src/dspy_agent.py:347-352 | 0 without a `.`; otherwise the length of the piece between the first `.` and the next `.` or the end |
| DspyAgent.MaxOf | convert_func_generate/src/dspy_agent.py:353 | the largest element, and it is one of the elements |
| DspyAgent.FindRound | convert_func_generate/src/dspy_agent.py:345-353 | raises `ValueError` exactly on an empty target list; otherwise gives the most decimals among the targets |
| AutoConvertion.LegacyIsFitIff | auto_convertion_code_generation.py:28-31 | the older `is_fit` raises exactly when the routine raises on some input or returns an unhashable value; otherwise it holds exactly when every output is a target and every target is an output |
| AutoConvertion.NoUnexpectedIff | auto_convertion_code_generation.py:62-65 | for a report computed from a valid routine, the unexpected set is empty exactly when every output is a target (`LegacyIsFitIff` uses it only when the report was computed) |
| AutoConvertion.NoMissingIff | auto_convertion_code_generation.py:62-65 | for a computed report, the missing set is empty exactly when every target is produced (used only when the report was computed) |
| AutoConvertion.LegacyFitIsFit | auto_convertion_code_generation.py:28-31 | a routine that is fit in the older sense is fit in the newer sense whenever the target list is non-empty |
| AutoConvertion.FitVersionsDiffer | auto_convertion_code_generation.py:28-31 | the converse fails: the identity on ["a"] against ["a", "b"] is fit in the newer sense only |
| AutoConvertion.IdentityLegacyFit | auto_convertion_code_generation.py:185-194 | the identity is fit in the older sense exactly when inputs and targets hold the same set of values |
| AutoConvertion.FallbackValid | auto_convertion_code_generation.py:172 | the fallback `lambda x: None` raises on no input |
| AutoConvertion.LegacyPostprocessMeaning | auto_convertion_code_generation.py:154-174 | raises exactly when execution raises something other than `SyntaxError`; a `SyntaxError` gives the always-valid fallback; otherwise the loaded routine comes back with its unfenced source |
| AutoConvertion.Repeated | auto_convertion_code_generation.py:241 | `pairs * n` has `n` times the length and only elements of `pairs` |
| AutoConvertion.PicksWithin | auto_convertion_code_generation.py:244 | every pick is taken out of the live pool, without replacement |
| AutoConvertion.SampledWithin | auto_convertion_code_generation.py:244 | `random.sample` gives `k` elements drawn from the population without replacement |
| AutoConvertion.Sample | auto_convertion_code_generation.py:244 | the in-place pool algorithm computes the specified sample |
| AutoConvertion.PairSampledFromPairs | auto_convertion_code_generation.py:235-247 | the pair sampler shows two equal-length lists, of the sampled length, at most three times the shorter argument; read in step they hold original positional pairs |
| AutoConvertion.PairRandomize | auto_convertion_code_generation.py:235-247 | the in-place shuffle and the sample give exactly the projections of a sample of one shuffle of the repeated pairs for the given draws; two equal-length lists, of the sampled length, at most three times the shorter argument, holding original positional pairs |
| AutoConvertion.RandomizedWithin | auto_convertion_code_generation.py:235-265 | either sampler shows only values taken from the inputs and targets |
| AutoConvertion.Randomize | auto_convertion_code_generation.py:235-265 | returns exactly the lists the generator's sampler shows for the given draws, built only from values of the inputs and targets |
| AutoConvertion.InvalidOnSample | auto_convertion_code_generation.py:208-210 | a routine that raises on a value of the sample raises on some input |
| AutoConvertion.Forward | auto_convertion_code_generation.py:184-224 | returns the identity, without asking or sampling, when it is fit; otherwise an empty list raises `IndexError` after the first sample is drawn; the final sample is the one drawn with the draws of the last round; each rejected reply loaded and raises on the sample drawn in its own round, hence on some input; a result that loads is valid on the sample of its round; when the fuel runs out the last reply is rejected as well |
| AutoConvertion.Retry | auto_convertion_code_generation.py:208-223 | the final sample is the one of the last round (the caller's sample when nothing was retried); each reply before the last loaded and raised on the sample of its own round, hence on some input; the loop ends on a reply valid on the sample of its round, on one whose post-processing raises, or, when the fuel runs out, on one more rejected reply |
| BasicPipeline.ApplyFunc | pipeline/basic_pipeline.py:23-28 | on forked data the result is forked with as many elements |
| BasicPipeline.ApplyFuncLeaves | pipeline/basic_pipeline.py:23-28 | `apply_func` maps the function over the leaves of the forked data in order (for a function that never forks) |
| BasicPipeline.ApplyFuncFusion | pipeline/basic_pipeline.py:23-28 | two `apply_func` calls in a row are one call with the composed function |
| BasicPipeline.ApplyForm | pipeline/basic_pipeline.py:30-38 | a `Fork` gives one entry per function, in order, each `apply_func` of that function; a form that is neither callable, `Fork` nor `Reducer` gives `None` |
| BasicPipeline.PipeSnoc | pipeline/basic_pipeline.py:40-42 | `pipe` is the left fold of `apply_form`: the last form is applied to the pipe of the forms before it |
| BasicPipeline.PipeOne | pipeline/basic_pipeline.py:40-42 | a pipe of one form is that form applied |
| BasicPipeline.PipeAppend | pipeline/basic_pipeline.py:40-42 | a pipe of two form lists is the second pipe run on the first pipe's result |
| BasicPipeline.ComposeMeaning | pipeline/basic_pipeline.py:55-57 | `compose` applies its functions left to right, starting from the identity |
| BasicPipeline.PipeCompose | pipeline/basic_pipeline.py:40-57 | piping through two functions is piping through their composition |
| BasicPipeline.ForkAll | pipeline/basic_pipeline.py:59-61 | the second `fork` returns every function's result on the argument, in order |
| BasicPipeline.PipeDemos | pipeline/basic_pipeline.py:51-53 | the three `pipe` demos give 22, [18, 22] and 396 |
| BasicPipeline.ComposeDemos | pipeline/basic_pipeline.py:63-75 | `compose(double, inc)(2)` is 5 and the composed fork demo gives 8 |
| ConversionGraph.IsNullBranch | convert_func_generate/main.py:9-14 | `'do_null_convertion'` exactly when the lists are equal element by element, `'continue'` exactly when they differ |
| ConversionGraph.ValidityBranch | convert_func_generate/main.py:72-76 | `'next'` exactly when the installed routine raises on no input, `'again'` exactly when it raises on some input, `KeyError` with no routine |
| ConversionGraph.FitEvaluatorMeaning | convert_func_generate/main.py:119-132 | raises exactly with no routine, a routine that raises on some input or returns an unhashable value, or no target; otherwise stores `is_fit` and nothing else, then leaves by `'end'` exactly when fit and by `'again'` exactly when not |
| ConversionGraph.RepeatBranch | convert_func_generate/main.py:135-141 | `'end'` past `MAX_ITERATION`; otherwise `'sort_values'` after more than two passes with f1 above accuracy + 0.1; otherwise `'feedback'`; `KeyError` without a count |
| ConversionGraph.RepeatCounterMeaning | convert_func_generate/main.py:143-169 | raises exactly when f1 or accuracy raises; otherwise stores both scores, sets the count to 1 or to one more, and keeps the lists and the routine |
| ConversionGraph.CountKept | convert_func_generate/main.py:165-168 | only the repeat counter changes `repeat_count`, and it adds one (1 when absent) |
| ConversionGraph.ValueSortMeaning | convert_func_generate/main.py:171-179 | never raises; replaces both lists by sorted permutations of themselves and keeps everything else |
| ConversionGraph.WiringShape | convert_func_generate/main.py:220-241 | `final_debug` is the only terminal node; the nodes with the inherited branch are exactly the producers, the samplers, value sorting and the final node, and each of them but the final node has exactly one edge |
| ConversionGraph.LabelsWired | convert_func_generate/main.py:220-241 | every label a node returns has an edge: leaving a node fails only when its own branch raises |
| ConversionGraph.BranchWired | convert_func_generate/main.py:220-241 | each label a node chooses is one of its edges |
| ConversionGraph.Predecessors | convert_func_generate/main.py:220-241 | the only edges into the fit evaluator, the repeat counter, value sorting and the final node, with their labels |
| ConversionGraph.FitEvaluatorEntry | convert_func_generate/main.py:229-233 | the fit check is entered only by `'next'` from inference or revision, with a routine valid on every input, so that `is_fit` there raises exactly on an unhashable output or an empty target list |
| ConversionGraph.RepeatCounterEntry | convert_func_generate/main.py:236-237 | the repeat counter is entered only from the fit check with an unfit routine |
| ConversionGraph.ValueSortEntry | convert_func_generate/main.py:238-240 | values are sorted only after 3 to `MAX_ITERATION` passes with f1 above accuracy + 0.1 |
| ConversionGraph.FinalDebugEntry | convert_func_generate/main.py:220-241 | the final node is entered from a producer, from the fit check with a fit routine, or from the counter past `MAX_ITERATION` |
| ConversionGraph.RepeatExit | convert_func_generate/main.py:136-137 | past `MAX_ITERATION` the counter leaves by `'end'` |
| ConversionGraph.RepeatVisits | convert_func_generate/main.py:134-169 | the fit-retry loop is bounded: the repeat counter is processed at most `MAX_ITERATION + 1` times from a payload without `repeat_count` |
| ConversionGraph.ReturnsAtFinal | convert_func_generate/main.py:220-241 | a run that returns has processed `final_debug` last |
| ConversionGraph.ReturnedPayloadComplete | convert_func_generate/main.py:252-265 | a run that returns leaves `convertor`, `is_fit` and `evaluation`, the entries the main block reads |
| ConversionGraph.SampledForReviser | convert_func_generate/main.py:51-69 | the sampler stores a split and goes on to the reviser |
| ConversionGraph.RevisedAgain | convert_func_generate/main.py:92-117 | a revision that raises on some input sends the run back to the sampler |
| ConversionGraph.ReviseLoopUnbounded | convert_func_generate/main.py:231-234 | the revise loop has no counter: with a reviser that never repairs the routine, the run never ends |
| ConversionGraph.IdentityScores | convert_func_generate/main.py:17-25 | the identity against its own non-empty list has f1 1 and accuracy 1, and is fit |
| ConversionGraph.NullProducerLeads | convert_func_generate/main.py:17-25 | on equal non-empty lists the null producer installs the identity, finds it fit and leads to the final node |
| ConversionGraph.IdentityEvaluation | convert_func_generate/main.py:182-203 | the final node stores f1 and accuracy 1 for the identity on equal non-empty lists |
| ConversionGraph.NullShortcut | convert_func_generate/main.py:221-222 | equal non-empty lists run the null test, the null producer and the final node, and return |
| ConversionGraph.NullShortcutEmpty | convert_func_generate/main.py:17-25 | two empty lists take the shortcut, and the run aborts with `ZeroDivisionError` in the null producer |
| ConversionGraph.NullProducerRaises | convert_func_generate/main.py:24 | `is_fit` on two empty lists divides by zero |
| ConversionGraph.BuildGraph | convert_func_generate/main.py:207-241 | the twelve node objects are wired as the wiring table says |
| ConversionGraph.Connect | convert_func_generate/main.py:220-241 | each node object ends with exactly the labelled edges of lines 221-241 |
| ConversionGraph.WireConvertors | convert_func_generate/main.py:221-227 | the edges out of the two tests and the two producers |
| ConversionGraph.WireLoop | convert_func_generate/main.py:229-234 | the edges of the inference and revision loop |
| ConversionGraph.WireFeedback | convert_func_generate/main.py:236-241 | the edges out of the fit check, the counter and value sorting |
| ConversionGraph.GraphRespects | convert_func_generate/main.py:220-241 | twelve nodes wired as lines 221-241 respect the wiring table |
| ConversionGraph.RunGraph | convert_func_generate/main.py:243 | running a controller built on the start node gives the graph's run |
| ConversionGraph.Convert | convert_func_generate/main.py:243-252 | `controller.run(instance)` ends as the graph's run says and records its nodes; the repeat counter appears at most `MAX_ITERATION + 1` times; a run that returns leaves `convertor`, `is_fit` and `evaluation` |

## Left out

- WorkflowTool.WorkflowController.Run: Python's loop has no bound. `fuel` bounds the number of nodes processed, and running out is the separate ending `OutOfFuel`.
- PipelineWorkflow.WorkflowController.Start: the same fuel bound as `Run`.
- ConversionGraph.Convert: the same fuel bound as `Run`. `ReviseLoopUnbounded` shows that no fuel is enough when the reviser never repairs the routine.
- DspyAgent.ConvertorForward: the `SyntaxError` retry loop is bounded by `fuel`; `None` means the fuel ran out. The shuffle of the value descriptions is left out: the requests `replies` stand for whatever the model answers.
- AutoConvertion.Forward: the validity retry loop is bounded by `fuel`; `None` means the fuel ran out.
- AutoConvertion.Retry: the same fuel bound as `Forward`.
- WorkflowTool.WorkflowController.OperateNode: when `process` raises, the payload is left as it was. In Python, a `process` that raises after assigning an entry keeps that assignment. That happens in the null and numeric producers, whose `is_fit` runs after `convertor` is stored (`convert_func_generate/main.py:19-24`, `43-48`). The exception ends the run in both cases.
- Language-model calls, `dspy` signatures and `exec` of generated code are parameters. The pairwise proposer (`AdvanceConvertorGenerator.forward`, including its own `SyntaxError` retry loop) and the numeric generator (`NumericConvertorGenerator`, with `_find_scale` and the float rounding) are oracle functions. Loading code is a function from source to a routine or an exception. The module-level `func` that `exec` rebinds is folded into that function.
- ConversionGraph: the graph's `propose`, `numeric` and `revise` oracles stand for the whole `forward` of the three generators. They are not tied to `DspyAgent.ReviserForward`, `DspyAgent.FindRound` or `DspyAgent.PostprocessMeaning`. So the graph does not show, for example, the `ValueError` the reviser raises when the installed routine's source no longer loads; a raising oracle aborts the run in the same way.
- WorkflowTool.WorkflowController.Run: the model assumes that every `process` returns the payload object it was given. `step` is the in-place change of that object. Python records the node in, and appends to the output records, whatever `process` returns, while later nodes keep working on the original object (`convert_func_generate/src/workflow_tool.py:74-76`, `62-64`). A `process` that returned another object, or `None` (which makes line 84 raise `TypeError`), is not modelled. Every `process` of the graph returns its argument (`convert_func_generate/main.py:25`, `49`, `69`, `90`, `117`, `132`, `169`, `179`, `203`; the inherited one at `convert_func_generate/src/workflow_tool.py:41`).
- `traceback.format_exc` text is a message parameter.
- `random` is replaced by given draws: shuffles, `randint` values and sample picks. The branch of `random.sample` for populations above CPython's set-size threshold is not modelled.
- `Evaluator.rate_similarity` and the 30-trial noise floor of `_reorder_values` use Jaro-Winkler and a geometric mean from foreign libraries. They are the boolean parameter of `DataSampler.ReorderValues`.
- The float parse of `IsNumericConvertion` is the abstract predicate `isNumber`.
- Python floats are exact reals: f1, accuracy and the 0.1 margin of `RepeatCounter`. Rounding is not modelled.
- `value_descriptions` and its shuffles in the generators are not modelled. They only feed the language model.
- Printing, the verbose callbacks and the `records` string properties are left out. They are diagnostics. The printed outputs at `convert_func_generate/main.py:148` raise on the same input as f1, so they change no error.
- File loading in both `EvaluateDataGenerator` classes and the loops of the two `__main__` blocks of the generator files are left out: they are I/O over files.
- Object identity of the twelve graph nodes, beyond their being twelve distinct objects, is not modelled, and neither is their creation order.
- BasicPipeline: the demo helpers return `Nothing` where Python would raise `TypeError` on a value that is not a number.
- The older `split_train_test` (`auto_convertion_code_generation.py:177-182`) is the same function as `_split_train_test` and is modelled once as `DataSampler.SplitTrainTest`. The older `is_valid` and `check_*` functions (`auto_convertion_code_generation.py:24-82`, apart from `is_fit`) are modelled once in `Evaluator`.
