# The Lua core and the build scheduler, verified

Cake is a build driver with a complete Lua 5.1.2 inside. This project models the parts of it
that are hardest to get right and proves what they are for: the incremental garbage collector,
the one-pass code generator, tables, pattern matching, precompiled chunks, the operator
precedence parser, quoted strings, `table.sort`, upvalues, string interning, references, and the
driver's compile jobs.

`dafny verify dfyconfig.toml` checks the whole project.

Code that changes things step by step is modelled by classes, arrays and loops. Most of these
methods are proved to do to the state what a function on values says; what the program promises
is then proved of that function.

**Garbage collector** (`Gc*.dfy`, `Collector.dfy`, `MarkBits.dfy`). `GcModel` to `GcCycle` give
every step of the collector and every operation of the running program as a function on the
global state. `GcPhases.Inv` is the invariant, with a part of its own for each phase: while
marking, a black object refers to no white one unless it still waits to be traversed again, and
nothing is dead; while sweeping, an object that carries the other white is unreachable. `GcRuns`
proves that every operation keeps it, in any order, and that nothing the program can reach is
ever freed; `GcReach` that nothing in reach is even dead. `GcContents` says what each operation
does to the contents of the heap, and what reachability means. `GcFull` proves a full collection
exact, from any state of the collector, and `GcSteps` the same of a whole cycle of single steps,
which steps alone always bring to its end. `GcGarbage` is the other half of safety: in any
interleaving, what the program has lost is gone when a cycle begun afterwards is over.
`Collector` is the class that updates the state in place; `MarkBits` shows that the bits of the
mark byte behave as the colors do.

**Code generator** (`Code*.dfy`). `CodeModel` has the instructions, the machine that runs them
and each step of the generator as a function. `CodeLists` and `CodeOpen` prove the bookkeeping:
waiting jumps are in one list each, and what is left open belongs to a list still held.
`CodeFlow` tells, at source level, what a run of the code of an expression comes to;
`CodeMeaning` and `CodeTheorems` prove that the generated code does just that, for every
expression of `and`, `or`, `not`, comparisons, literals, locals and globals. `CodeGen` is the
generator itself, with jump lists threaded through the offsets of the jumps, and `CodeRun`
compiles and runs an expression on the interpreter's loop. `CodeLaws` states what the operators
and the instructions mean, without the generator.

The value of an expression is not always kept. Section 2.5.3 of the Lua 5.1 Reference Manual
makes `((x or false) and true) or false` the value `true` when `x` is 1; the generated code
leaves 1, because `luaK_jump` puts the pending exits of `x` on hold and the list of the literal
takes them along. `CodeLimits.LostValue` is that run. A comparison that sees such a value takes
the wrong way: `CodeLimits.LostCondition` is a run in which the block of
`if (((x or false) and true) or false) == true` is skipped although the condition is true.
When the code is right is settled in two ways:

- `CodeSamples`: finitely many inputs decide it for every expression. Each variable is tried with
  nil, false and a number of its own, and the comparisons with every set of answers that can be
  asked of such values. `CodeLimits.ValueDecided` says that running the code always delivers the
  value if and only if it does on the samples, and `CodeLimits.ConditionDecided` the same of
  `if e then m = k end` and the truth of `e`. The reason is that a run is carried over from any
  input to a sample that stands for it (`CodeSamples.FlowCarried`).
- `CodeRight` and `CodeSure`: a walk over the expression, without trying inputs. `Exact` (for
  values) is sufficient for all expressions. It is necessary where each variable occurs once and
  nothing is compared but the whole (`CodeLimits.ExactIff`); `Sure` (for truth) decides where each
  variable occurs once and there is at most one comparison (`CodeLimits.ConditionIff`,
  `CodeLimits.TruthIff`). `Clean`, which only asks that no comparison sees a stale value, is not
  necessary: in `absorbed == true and false` the comparison goes wrong, and the condition never
  does (`CodeLimits.Settled`). With several comparisons the answers to one may tie those to
  another, and only the samples decide.

**Tables** (`Table*.dfy`). `TableNodes` has the chained scatter table in one array of nodes,
`TableSizes` the choice of the size of the array part, and `Table` the class, proved against a
plain map.

**Pattern matching** (`Pattern*.dfy`). `PatternModel` defines the meaning of a pattern as the
list of all its successes in order of preference; `Pattern` is the backtracking matcher, which
finds the first; `PatternTheory` says which successes there are and which one comes first.
`PatternText` goes by the text: the characters of each class, how every item is written, and
which stretch of the subject a repetition prefers.

**Round trips.** `Chunk` and `ChunkIO` are dumping and loading of function prototypes, over a
stream that arrives in pieces; `ChunkLayout` tells the bytes of a chunk place by place, and
`ChunkRefused` what is no chunk. `Quoting` is `%q` and the lexer's strings, and `QuotingForms`
what each escape stands for. `Precedence` is the parser of expressions and the printer with the
fewest parentheses, and `PrecedenceLevels` compares the parser with the levels of the manual.

**Stateful structures.** `Upvalues`, `Interning` with `HashLaws`, `Refs`, `Quicksort` and `Jobs`.
The theorems named `Run` are about any sequence of operations.

Many contracts say `P(x) == true` where `P(x)` would do. The two mean the same; with the first
the verifier does not unfold `P` in place, which keeps the proofs within their limits.

## Model

| member | source | states |
|---|---|---|
| GcRuns.RunSafe | cake/lua/lgc.c:556-607 | In every run of any interleaving of allocation, barriered stores, stack stores, captures, collector steps and full collections, whatever the program can reach is in the heap, what an operation frees was unreachable, and no reachable object would pass the sweep's test for erasing |
| GcRuns.RunInv | cake/lua/lgc.c:525-607 | The collector's invariant, with its own part for each phase, holds at every moment of every run; it includes that what waits in the gray list is gray and that no open upvalue is black |
| GcRuns.ApplyFrees | cake/lua/lgc.c:407-428 | No operation takes a reachable object out of the heap |
| GcRuns.InitialOk | cake/lua/lstate.c:143-181 | The state a new Lua state starts in satisfies the invariant, so runs exist |
| GcReach.RunNoneDead | cake/lua/lgc.c:525-553 | If no object in reach is dead when a run starts, as in a new state, none is at any moment of it, fixed objects included |
| GcReach.AtomicNoneDead | cake/lua/lgc.c:525-553 | After the atomic step everything in reach has been marked |
| GcReach.BarrierAssertions | cake/lua/lgc.c:662-683 | What the two barriers assert holds in every run: neither object is dead, a white one has the current white, and a black one is met only in a running cycle and is no thread or string |
| GcContents.ApplyEffect | cake/lua/lgc.h:86-98 | Every operation of a run puts its value where it says and nothing else changes but colors and the collector's lists: stores and stack stores, contents and anchoring slot of new objects and strings, captures, the value a closing upvalue keeps, metatables, and steps and collections for what they keep |
| GcContents.WriteHolds | cake/lua/lgc.c:662-683 | After a store and its barrier the addressed slot holds the value and all other contents are the same |
| GcContents.ClosedKeeps | cake/lua/lfunc.c:96-112 | An upvalue that closes keeps the value of its slot for itself and leaves the ring for the list of all objects; a dead one is freed; no other object changes |
| GcContents.ReachableIs | cake/lua/lgc.c:501-512 | What can be reached is the least set that holds the two threads, the registry and the basic metatables, and with an object what its slots hold, with an open upvalue what its stack slot holds |
| GcPhases.SingleStepOk | cake/lua/lgc.c:556-607 | One unit of collector work keeps the invariant, frees only unreachable objects, changes nobody's reachability and nothing a live object refers to |
| GcPhases.PropagateOk | cake/lua/lgc.c:277-320 | Traversing one gray object keeps the invariant of the marking phase: a black object has no white reference unless it waits in `grayagain` |
| GcPhases.AtomicOk | cake/lua/lgc.c:525-553 | After the atomic step the live objects are exactly those it marked and the fixed ones, and the invariant of the sweep holds |
| GcMutator.WriteSlotOk | cake/lua/lgc.h:86-98 | A store with its barrier, forward or back by the kind of the object, keeps the invariant in every phase |
| GcMutator.StackWriteOk | cake/lua/lgc.c:256-270 | A store to a stack slot needs no barrier in any phase |
| GcAlloc.AddObjectOk | cake/lua/lgc.c:686-692 | Linking a new white object, userdata behind the main thread and the rest in front, keeps the invariant, also in the middle of a sweep |
| GcAlloc.ResurrectOk | cake/lua/lstring.c:84-90 | An interned string or open upvalue that is dead but not yet swept can be found again: with its white changed it is live, and nothing else stops being so |
| GcAlloc.CloseMarkOk | cake/lua/lgc.c:695-710 | While marking, an upvalue that closes takes the color that keeps the invariant: black with its value marked, or white |
| GcSweep.KeepsReachable | cake/lua/lgc.c:407-428 | A change that keeps every live object and what it refers to alters nobody's reachability |
| GcStep.SweepRootOneOk | cake/lua/lgc.c:407-428 | One turn of the sweep keeps the invariant, erases no live object and comes nearer to the end, also when a dying thread puts its upvalues on the list |
| GcFull.FullGcExact | cake/lua/lgc.c:636-659 | From any state of the collector a full collection ends, keeps exactly the reachable and the fixed objects, changes nobody's reachability and leaves each reachable object as it was |
| GcFull.FirstSweepKeepsAll | cake/lua/lgc.c:636-651 | When a mark phase is given up, the sweep that follows frees nothing |
| GcSteps.StartStep | cake/lua/lgc.c:501-512 | A step from the pause goes to the marking phase with the main thread gray and in the gray list, and frees nothing |
| GcSteps.StartMarks | cake/lua/lgc.c:493-512 | The same step marks the globals, the registry and the metatables of the basic types |
| GcSteps.StepMoves | cake/lua/lgc.c:556-607 | No step leaves the state as it was |
| GcSteps.StepsPause | cake/lua/lgc.c:556-607 | From any state that satisfies the invariant, steps alone come to the pause |
| GcSteps.CycleEnds | cake/lua/lgc.c:556-607 | From every pause, steps alone lead through a whole cycle to the next |
| GcSteps.CycleExact | cake/lua/lgc.c:556-607 | Any whole cycle of steps, from one pause to the next, leaves exactly the reachable and the fixed objects, and each reachable one as it was |
| GcGarbage.GarbageGone | cake/lua/lgc.c:556-607 | In every run of operations and steps: an object out of reach that is not fixed, and that no operation creates or finds again, is out of the heap at every pause that follows a step from a pause |
| GcGarbage.StaysLost | cake/lua/lgc.c:407-428 | What cannot be reached stays out of reach, whatever operation follows, unless the operation creates it or comes upon it in the string table or the ring of upvalues |
| GcGarbage.ApplyMarks | cake/lua/lgc.c:662-710 | While marking, no operation of the program marks anything outside a closed set that holds the roots and what is marked, but what it names itself |
| Collector.GlobalState.ReallyMarkObject | cake/lua/lgc.c:69-110 | Marking in place, recursive through upvalues and userdata, has the effect of the model's marking of one object |
| Collector.GlobalState.SweepSome | cake/lua/lgc.c:407-428 | The chunked loop over the list of all objects has the effect of the model's sweep of that many turns |
| Collector.GlobalState.Step | cake/lua/lgc.c:556-607 | The in-place unit of work is the model's step, keeps the invariant and never leaves the state as it was; from the pause it starts a cycle, with the main thread in the gray list |
| Collector.GlobalState.CollectAll | cake/lua/lgc.c:636-659 | The in-place full collection leaves exactly what was reachable or fixed |
| Collector.GlobalState.Store | cake/lua/lvm.c:145-146 | A store and its barrier in place: slot `i` of the object holds the value, every other slot of it and of all other objects is as it was, with kind, home and fixedness, and only colors and gray lists may differ; the invariant is kept |
| MarkBits.DeadBits | cake/lua/lgc.h:69-70 | The bit test `isdead` holds exactly of the objects with the white that is not current |
| MarkBits.BitNumbers | cake/lua/lgc.h:54-62 | The whites, black and the two kinds of fixed objects by the number of their bit |
| MarkBits.SweepTest | cake/lua/lgc.c:411-413 | The sweep's bit test spares exactly the objects that are not of the other white or are fixed |
| MarkBits.SweepAllTest | cake/lua/lgc.c:483-490 | With both whites and the super-fixed bit current, the same test erases all but the super-fixed object |
| MarkBits.Header.ChangeWhite | cake/lua/lgc.h:72-72 | Exchanging the white bits gives a white object the other white and touches no other bit |
| CodeLists.CompileOk | cake/lua/lcode.c:59-66 | Compiling any expression keeps every waiting jump in exactly one list, touches settled code nowhere but at the jumps pending to its start, and gives back every register it took |
| CodeOpen.CompileKeeps | cake/lua/lcode.c:100-196 | Each jump without target and each TESTSET without register that is left belongs to a list that is still held |
| CodeMeaning.CompileSem | cake/lua/lcode.c:745-760 | For every expression, from wherever control comes to its code: a run of any completion of the code ends, waits or leaves as the source-level flow says, and changes no register in use |
| CodeTheorems.ValueTheorem | cake/lua/lcode.c:390-411 | Behind the code that puts an expression into a register, in any surroundings, the register holds the value of the flow and every other register in use is unchanged |
| CodeTheorems.ClosedValue | cake/lua/lcode.c:390-411 | For every expression, literals included, the finished code has nothing open, its run stops with the value of the flow in the register and the other locals unchanged; so the value is right if and only if the value of the flow is |
| CodeTheorems.CondTheorem | cake/lua/lparser.c:963-970 | The code of a condition falls through exactly when its flow is true, and otherwise leaves through a jump of the list that `cond` returns |
| CodeTheorems.IfThenTheorem | cake/lua/lparser.c:1128-1136 | The block of an `if` runs exactly when the flow of the condition is true, and is skipped as a whole otherwise |
| CodeRight.FlowRight | cake/lua/lcode.c:539-591 | The truth of the flow is that of the expression, and a value at the end of the code is right, whatever jumps were absorbed, as long as the comparisons on the way see right values |
| CodeRight.FateOf | cake/lua/lcode.c:59-66 | The static walk over an expression foresees how every run of its code ends, and which exits carry a value a literal has absorbed |
| CodeRight.ExactRight | cake/lua/lcode.c:390-411 | If the walk finds no stale exit, the value the code leaves is the value of the expression, for all contents of the variables |
| CodeRight.OnlyExact | cake/lua/lcode.c:59-66 | Where each variable occurs once and nothing is compared, a stale exit goes wrong for some contents of the variables |
| CodeSamples.FlowCarried | cake/lua/lcode.c:539-591 | If values stand for others with the same truth, literals for themselves, and comparisons have the same answers, the flow of any expression over the one stands for its flow over the other |
| CodeSamples.RightIff | cake/lua/lcode.c:390-411 | For every expression: the value of the flow is right on all inputs if and only if it is right on the samples |
| CodeSamples.TrueIff | cake/lua/lcode.c:539-591 | For every expression: the truth of the flow is right on all inputs if and only if it is right on the samples |
| CodeSure.SureRight | cake/lua/lcode.c:539-591 | With each variable once and at most one comparison, a sure condition is gone by on all inputs |
| CodeSure.SureOnly | cake/lua/lcode.c:681-694 | And one that is not sure goes wrong for some contents of the variables and some answer to the comparison |
| CodeLimits.ValueDecided | cake/lua/lcode.c:390-411 | For every expression: running the finished code delivers its value on all inputs, other locals unchanged, if and only if its code is right on the samples |
| CodeLimits.ConditionDecided | cake/lua/lparser.c:1128-1136 | For every condition: running the code of `if e then m = k end` makes the assignment exactly when `e` is true, on all inputs, if and only if it does on the samples |
| CodeLimits.ConditionIff | cake/lua/lparser.c:963-970 | With each variable once and at most one comparison, it does if and only if the walk says so |
| CodeLimits.TruthIff | cake/lua/lcode.c:594-626 | The same for the value of an expression that can only come to truth values, such as a comparison or a negation |
| CodeLimits.CleanSamples | cake/lua/lcode.c:681-694 | A condition in which no comparison in reach sees a stale value is right on the samples |
| CodeLimits.ExactIff | cake/lua/lcode.c:390-411 | With each variable once and nothing compared but the whole, running the code delivers the expression's value on all inputs if and only if the walk finds it exact |
| CodeLimits.ExactValue | cake/lua/lcode.c:390-411 | For every expression the walk accepts, comparisons and literals included, running the generated code delivers its value on all inputs |
| CodeLimits.ConstantFreeValue | cake/lua/lcode.c:516-626 | Every expression without literals is exact, so complete code delivers its value on all inputs and leaves the other locals alone |
| CodeLimits.IfThenRight | cake/lua/lparser.c:1128-1136 | With literals allowed, the block of an `if` runs exactly when the condition is true, for every condition right on the samples |
| CodeLimits.LostValue | cake/lua/lcode.c:59-66 | A witness that values can be lost: `((x or false) and true) or false` with 1 for `x` leaves 1 |
| CodeLimits.LostCondition | cake/lua/lcode.c:681-694 | A witness that conditions can be: with 1 for `x` and real equality, `if (((x or false) and true) or false) == true` skips its block |
| CodeLimits.Settled | cake/lua/lcode.c:539-591 | With `and false` behind it the same comparison sees a stale value and the condition is right all the same |
| CodeChains.ChainAppend | cake/lua/lcode.c:185-196 | Linking the last jump of one list to the head of another makes one list, without a cycle, of the jumps of both |
| CodeGen.FuncState.Jump | cake/lua/lcode.c:59-66 | Emits a jump whose list is itself and the jumps that were pending to it |
| CodeGen.FuncState.PatchTestReg | cake/lua/lcode.c:131-141 | Rewrites the TESTSET before a jump, to its register or to a TEST, and tells whether there was one |
| CodeGen.FuncState.PatchListAux | cake/lua/lcode.c:150-160 | Following the offsets, gives every jump of a list its target, by whether it carries a value, and touches no other jump |
| CodeGen.FuncState.DischargeJpc | cake/lua/lcode.c:163-166 | The jumps pending to here come to lead here, and none is pending any more |
| CodeGen.FuncState.Concat | cake/lua/lcode.c:185-196 | Makes one list of two by changing a single offset |
| CodeGen.FuncState.FreeExp | cake/lua/lcode.c:215-226 | Registers are a stack: wherever the generator frees a temporary register it is the topmost one, as the source asserts |
| CodeGen.FuncState.Exp2Reg | cake/lua/lcode.c:390-411 | In place: discharges an expression into a register as the model does, with the two boolean loads only if some exit carries no value, and leaves other lists alone |
| CodeGen.FuncState.GoIfTrue | cake/lua/lcode.c:539-564 | In place: goes on when the expression is true, as the model does |
| CodeGen.FuncState.GoIfFalse | cake/lua/lcode.c:567-591 | In place: goes on when the expression is false, as the model does |
| CodeGen.FuncState.CodeNot | cake/lua/lcode.c:594-626 | In place: negates, folding literals, exchanging the lists and removing their values |
| CodeGen.FuncState.Subexpr | cake/lua/lparser.c:828-853 | Generating an expression in place, with lists threaded through the code, gives the code and descriptor of the model and disturbs no list held elsewhere |
| CodeRun.Execute | cake/lua/lvm.c:375-583 | The interpreter's loop over offsets computes the outcome of the machine of the model |
| CodeRun.Generate | cake/lua/lcode.c:390-411 | The in-place generator leaves complete code, with no jump held, that is the code the theorems are about |
| CodeRun.Evaluate | cake/lua/lvm.c:543-583 | Compiling in place and interpreting gives, for every expression, the value of its flow, and its own value if it is exact or right on the samples |
| CodeLaws.ConnectivesMean | cake/lua/lcode.c:539-626 | `and` and `or` give one of their operands by the truth of the first, `not` a truth value; only nil and false are false |
| CodeLaws.OrdersMean | cake/lua/lcode.c:681-694 | `a < b`, `a <= b` and `a == b` ask just that of the two values, in this order |
| CodeLaws.ExchangedMean | cake/lua/lcode.c:681-694 | `a > b` is `b < a`, and `a >= b` is `b <= a` |
| CodeLaws.UnequalMean | cake/lua/lcode.c:681-694 | `a ~= b` is `not (a == b)` |
| CodeLaws.ExchangedCode | cake/lua/lcode.c:681-694 | Running the code of `a > b` and of `b < a`, and so on, leaves the same value wherever both are exact |
| CodeLaws.UnequalCode | cake/lua/lcode.c:681-694 | Running the code of `a ~= b` leaves the opposite of what the code of `a == b` leaves |
| CodeLaws.LocalsCompared | cake/lua/lcode.c:681-694 | Running the code of each of the six comparisons of two locals leaves the answer to the question it should ask of their contents |
| CodeLaws.TestsSkip | cake/lua/lopcodes.h:185-190 | Comparisons and tests skip the jump behind them unless they come out as they ask; a TESTSET then also copies |
| CodeLaws.LoadsPut | cake/lua/lopcodes.h:154-178 | What each load, move and `not` puts in its register, and when a boolean load skips an instruction |
| CodeLaws.JumpsGo | cake/lua/lopcodes.h:183-183 | A jump goes to its target, and code stops at its end |
| CodeLaws.OffsetsLead | cake/lua/lcode.c:80-87 | An offset counts from the instruction behind the jump, when it is fixed, when a list is followed, and when code is read |
| TableNodes.TakeMainOk | cake/lua/ltable.c:399-429 | A key without a value gives way to a new one and every chain stays as it was |
| TableNodes.AppendOk | cake/lua/ltable.c:418-423 | A colliding key goes into a free node behind its main position: chains stay acyclic, no node is linked twice, and every key is found from its main position |
| TableNodes.MoveOk | cake/lua/ltable.c:409-417 | A node that is not in its main position moves out to a free node, with the same invariant kept |
| Table.Table.Get | cake/lua/ltable.c:469-491 | Finds the value of the plain map, in the one slot that can hold it |
| Table.Table.GetFreePos | cake/lua/ltable.c:382-388 | The free pointer moves down, to a node without key, or below all of them when none is free |
| Table.Table.Previous | cake/lua/ltable.c:409-412 | The walk from the main position of the colliding key ends at the node that links to it |
| Table.Table.NewKey | cake/lua/ltable.c:399-429 | Makes a slot for a new key without changing any binding, rehashing only when no node is free |
| Table.Table.Put | cake/lua/ltable.c:494-505 | Assignment is update of the plain map, whatever moves inside |
| Table.Table.SetAny | cake/lua/ltable.c:494-505 | nil and NaN are refused as keys and change nothing; every other key gets the slot a lookup finds |
| Table.Table.Resize | cake/lua/ltable.c:297-324 | With a hash part for all keys outside the new array part, every binding moves to parts of the new sizes and no insertion runs out of nodes |
| Table.Table.ResizeArray | cake/lua/ltable.c:327-330 | A larger array part leaves room in the hash part as it is, and all bindings are kept |
| Table.Table.Rehash | cake/lua/ltable.c:333-349 | All bindings are kept, the array part gets the optimal size for the keys in use and the new one, and the new key has room without another rehash |
| Table.Table.UnboundSearch | cake/lua/ltable.c:532-553 | From any non-nil start finds a boundary of the integer keys, doubling, then halving |
| Table.Table.GetN | cake/lua/ltable.c:560-576 | The length is a boundary: not before a non-nil, and not after a nil element |
| Table.Table.FindIndex | cake/lua/ltable.c:137-159 | Where a key is in the order of traversal, its value present or cleared; it is missing exactly when it has no slot |
| Table.Table.Next | cake/lua/ltable.c:162-179 | From a key on, the first binding behind it, or the end when there is none; only a key without a slot is an error |
| Table.Table.Traverse | cake/lua/ltable.c:162-179 | Repeating `luaH_next` meets every binding exactly once |
| Table.Table.ClearAll | cake/lua/ltable.c:137-179 | A traversal may clear each field it meets: it still meets every binding once, and leaves the table empty |
| TableSizes.ComputeSizes | cake/lua/ltable.c:189-208 | Despite both early exits, the largest power of two more than half of whose slots are in use, and how many are, without looking beyond the last slice |
| TableSizes.CountInt | cake/lua/ltable.c:211-219 | Counts a key in the slice between powers of two it belongs to, and only if it is a candidate for the array |
| TableSizes.NumUseArray | cake/lua/ltable.c:222-244 | Counts the array part exactly, slice by slice |
| TableSizes.NumUseHash | cake/lua/ltable.c:247-260 | Counts the keys in use in the hash part, and the integers among them in their slices |
| Pattern.MatchState.Match | cake/lua/lstrlib.c:364-439 | Ends on every pattern and subject with the first success of the list of all successes, or with failure and the captures as they were when there is none, malformed patterns and too many captures giving their errors |
| Pattern.MatchState.MaxExpand | cake/lua/lstrlib.c:300-312 | The first success with the most repetitions first |
| Pattern.MatchState.MinExpand | cake/lua/lstrlib.c:315-325 | The first success with the fewest repetitions first |
| Pattern.MatchState.StartCapture | cake/lua/lstrlib.c:328-339 | Opens a capture for the rest of the match and takes it back if the rest fails |
| Pattern.MatchState.EndCapture | cake/lua/lstrlib.c:342-350 | Closes the innermost open capture for the rest of the match and opens it again if the rest fails |
| Pattern.MatchState.MatchBracketClass | cake/lua/lstrlib.c:244-264 | Membership in the set between the brackets, ranges, classes and complement included |
| Pattern.MatchState.Find | cake/lua/lstrlib.c:494-534 | The leftmost place from the start on where the pattern matches, with the preferred match there; an anchor allows only the start |
| PatternTheory.SemIsAccepts | cake/lua/lstrlib.c:364-439 | The list of successes holds exactly the outcomes that some assignment of repetitions and captures gives |
| PatternTheory.BalanceIs | cake/lua/lstrlib.c:280-297 | The search for the closing character finds the one place where the balance first comes to zero |
| PatternTheory.GreedyFirst | cake/lua/lstrlib.c:300-312 | The preferred match of a greedy item has the most repetitions from which the rest can succeed |
| PatternTheory.LazyFirst | cake/lua/lstrlib.c:315-325 | The preferred match of a lazy item has the fewest |
| PatternText.ClassIs | cake/lua/lstrlib.c:225-241 | Each letter class is the set of characters written out for it, and its upper-case letter the complement |
| PatternText.EscapedIs | cake/lua/lstrlib.c:225-241 | Any other escaped character stands for itself |
| PatternText.Unions | cake/lua/lstrlib.c:228-236 | `%a` is the disjoint union of `%l` and `%u`, and `%w` that of `%a` and `%d` |
| PatternText.SetIs | cake/lua/lstrlib.c:244-264 | A set written out, of any characters, ranges and classes, ends at its bracket and lets in what some element lets in, a range by the codes of its ends; with `^` all others |
| PatternText.TextRead | cake/lua/lstrlib.c:364-439 | Wherever the text of a list of items stands in a pattern, exactly these items are read, and reading goes on behind it: classes, repetitions, captures, back references, balances, frontiers and the closing `$`, each by its spelling |
| PatternText.PatternRead | cake/lua/lstrlib.c:364-439 | A whole pattern is read back from its text |
| PatternText.AnchorRead | cake/lua/lstrlib.c:513-534 | A `^` in front anchors the pattern and is no item; any other pattern is not anchored |
| PatternText.EndKeeps | cake/lua/lstrlib.c:408-412 | A `$` behind any items keeps, in order, the successes that end where the subject does |
| PatternText.MalformedAt | cake/lua/lstrlib.c:204-222 | An escape at the end, a set without its bracket, `%b` without two characters and `%f` without a set are the errors of the source |
| PatternText.CapturesLimit | cake/lua/lstrlib.c:328-333 | The 33rd capture is an error, and no earlier one |
| PatternText.Prefers | cake/lua/lstrlib.c:409-437 | For a class written with `*`, `+`, `-` or `?` anywhere in a pattern: the matcher fails exactly when no allowed stretch of the class leads to a match of the rest, and otherwise goes on behind the longest that does, or the shortest for `-` |
| PatternText.Alone | cake/lua/lstrlib.c:300-325 | On any subject `x*` and `x+` take all the `x` there are, `x-` none, `x?` at most one, and only `x+` can fail |
| Precedence.LexState.ParseSubexpr | cake/lua/lparser.c:828-853 | The parser that reads tokens as it goes gives the result of the parsing function and leaves its rest |
| Precedence.ParsePrint | cake/lua/lparser.c:778-853 | For every tree, parsing what was printed gives back the tree and leaves nothing |
| Precedence.PrintInjective | cake/lua/lparser.c:813-826 | No two trees are printed alike |
| Precedence.Shortest | cake/lua/lparser.c:813-853 | No shorter sequence of tokens parses to the tree than the one printed |
| Precedence.PairNeeded | cake/lua/lparser.c:813-853 | Dropping any printed pair of parentheses changes or breaks the parse |
| Precedence.Grouping | cake/lua/lparser.c:813-826 | Power and concatenation group to the right and all other operators to the left; minus takes a power but no product |
| PrecedenceLevels.ByLevels | cake/lua/lparser.c:813-853 | For all pairs of binary operators and all operands, `a op1 b op2 c` groups as the list of levels of section 2.5.6 of the Lua 5.1 Reference Manual says, written as a list of sets of operators |
| PrecedenceLevels.UnaryByLevels | cake/lua/lparser.c:828-853 | A unary operator in front of `a op b` takes `a` alone, but for the one operator of the level above it |
| PrecedenceLevels.UnaryOperand | cake/lua/lparser.c:828-853 | A unary operator behind a binary one belongs to the right operand, whatever the levels |
| PrecedenceLevels.InParentheses | cake/lua/lparser.c:667-680 | Parentheses on either side group against the levels |
| Chunk.FunctionLoads | cake/lua/lundump.c:160-177 | Loading the bytes of a dumped function, whatever follows them, gives the function with its sources filled in and leaves what follows |
| Chunk.ChunkTrip | cake/lua/ldump.c:129-164 | For every prototype tree, loading the dumped chunk gives the tree back with inherited sources filled in; stripped, without debug data and with every source unknown |
| Chunk.ChunkTripExact | cake/lua/lundump.c:160-177 | The round trip gives the very same tree if and only if every function names its source |
| Chunk.StrippedBare | cake/lua/ldump.c:111-141 | A stripped function keeps code, constants and nested functions, and no debug data at any depth |
| ChunkLayout.ChunkStands | cake/lua/ldump.c:22-164 | A sequence of bytes is what is written for a prototype if and only if it lies as the layout says: twelve header bytes, integers and sizes by the digits of their bytes, strings with size and closing zero, constants with tags 0, 1, 3 and 4, and the parts of each function in order, at every depth |
| ChunkLayout.FunctionStands | cake/lua/ldump.c:129-141 | The same of each function, at any place among other bytes, with its size |
| ChunkLayout.FunctionReads | cake/lua/lundump.c:160-177 | Bytes that lie so at a place, among any others, are loaded as the function, and loading leaves what stands behind them |
| ChunkLayout.ChunkReads | cake/lua/lundump.c:191-205 | A chunk that lies so is loaded as its prototype |
| ChunkLayout.DigitsStand | cake/lua/ldump.c:44-52 | Byte `i` of an integer or size is its digit of weight 256 to the `i` |
| ChunkLayout.HeaderStands | cake/lua/lundump.c:210-223 | The twelve bytes of the header |
| ChunkRefused.HeaderRefused | cake/lua/lundump.c:179-186 | Fewer bytes than the header are an unexpected end, and any other twelve a bad header |
| ChunkRefused.IntRefused | cake/lua/lundump.c:60-66 | A count or line with the sign bit is a bad integer |
| ChunkRefused.ChunkChecked | cake/lua/lundump.c:160-205 | Whatever loads begins with the header, and its function has passed the check |
| ChunkIO.ZIO.Lookahead | cake/lua/lzio.c:35-45 | Looking ahead gives the next byte and consumes nothing, and says the end exactly at the end |
| ChunkIO.ZIO.Read | cake/lua/lzio.c:58-71 | Reading takes that many bytes from the stream however it is cut into pieces, or says how many were missing |
| ChunkIO.LoadState.Undump | cake/lua/lundump.c:191-205 | The loader that reads a stream in pieces agrees with loading from the bytes, errors included |
| ChunkIO.DumpState.Dump | cake/lua/ldump.c:153-164 | The writer hands over the bytes of the chunk; once it has failed, nothing more is written |
| ChunkIO.Reload | cake/lua/lzio.c:21-71 | For every prototype tree and every cut of its dump into non-empty pieces, loading gives the tree as `ChunkTrip` says |
| Quoting.AddQuoted | cake/lua/lstrlib.c:695-722 | The loop writes the quoted form of every character between quotes |
| Quoting.LexState.IncLineNumber | cake/lua/llex.c:127-135 | Skips one line end, of one or two characters, and counts one line |
| Quoting.LexState.ReadString | cake/lua/llex.c:276-329 | Reads the string the reading function says, with its errors, and leaves the input and line number behind it |
| Quoting.QuoteTrip | cake/lua/lstrlib.c:695-722 | For every text, NUL, line ends, quotes, backslashes and following digits included, reading the quoted form gives the text and passes one line for each line end |
| Quoting.QuoteAndRead | cake/lua/llex.c:276-329 | The same of the loop and the lexer themselves |
| QuotingForms.QuotedForms | cake/lua/lstrlib.c:695-722 | What is written for each character |
| QuotingForms.EscapeIs | cake/lua/llex.c:290-297 | The code each escape letter stands for |
| QuotingForms.LetterReads | cake/lua/llex.c:290-297 | Reading a backslash and such a letter gives the character with that code |
| QuotingForms.ThreeDigits | cake/lua/llex.c:304-314 | Three digits give the character of their decimal value, up to 255, and are refused above |
| QuotingForms.OneDigit | cake/lua/llex.c:304-314 | One digit that no other follows gives the character of its value |
| QuotingForms.TwoDigits | cake/lua/llex.c:304-314 | And so do two |
| QuotingForms.LineReads | cake/lua/llex.c:298-299 | A backslash before a line end gives one newline, and the line is counted |
| Quicksort.Scan | cake/lua/ltablib.c:214-229 | Under a strict weak order both scans stop inside the segment, so "invalid order function" is not raised |
| Quicksort.Partition | cake/lua/ltablib.c:209-234 | The pivot ends between what is not above it and what is not below it, and the segment is permuted |
| Quicksort.AuxSort | cake/lua/ltablib.c:184-245 | Under a strict weak order the segment is sorted and permuted, nothing outside it changes, and recursion nests at most log2 of its length deep |
| Quicksort.Sort | cake/lua/ltablib.c:247-255 | `table.sort` sorts the list |
| Upvalues.LuaState.FindUpval | cake/lua/lfunc.c:53-79 | The one upvalue of a stack slot: an open one is found again with nothing changed, else a new one is put in its place in the descending list and in the ring |
| Upvalues.LuaState.Unlink | cake/lua/lfunc.c:82-86 | Takes an upvalue out of the doubly linked ring, and only that one |
| Upvalues.LuaState.Close | cake/lua/lfunc.c:96-112 | Closes exactly the upvalues at or above the level; every upvalue keeps its variable and value |
| Upvalues.Run | cake/lua/lfunc.c:53-112 | Any sequence of captures, reads, writes and closings reads what one shared cell per variable gives, and two captures are the same upvalue exactly when they are of the same variable |
| Interning.StringTable.Resize | cake/lua/lstring.c:22-47 | Relinking into the new buckets loses and duplicates no string, and puts each in the bucket of its hash; during a sweep of strings nothing moves |
| Interning.StringTable.Hash | cake/lua/lstring.c:75-81 | The loop over every `step`-th byte computes the hash function |
| Interning.StringTable.NewLstr | cake/lua/lstring.c:75-93 | Gives the string of the table with these bytes if there is one, alive again if it was dead, else adds one; no other string is revived |
| Interning.Run | cake/lua/lstring.c:22-93 | Over any sequence of interns, resizes, deaths and sweeps under way, two results are the same object exactly when their bytes are equal |
| HashLaws.HashSkips | cake/lua/lstring.c:76-81 | Strings of one length have the same hash if they agree in every byte from the last one down, by steps of 1 up to length 31, of 2 up to 63, and so on |
| HashLaws.HashSamples | cake/lua/lstring.c:76-81 | The hash of "", "a" and "ab" |
| Refs.BoundaryIs | cake/lua/lauxlib.c:495-498 | When no slot is free, any boundary that the length may be is the last live slot, so the new reference is unused |
| Refs.RefTable.Ref | cake/lua/lauxlib.c:481-501 | The slot given back last, or the one behind all others when none is free; live references and their values stay, and live and free slots still part 1 to n |
| Refs.RefTable.Unref | cake/lua/lauxlib.c:504-512 | The slot goes to the front of the free list, threaded through the slots without a cycle; all other references stay |
| Refs.Run | cake/lua/lauxlib.c:481-512 | Over any sequence of references taken, read through and given back, each read gives the value its reference was taken for, and no two live references are the same |
| Jobs.InWorkUpdate | cake/build.cpp:531-582 | Changing one slot changes the multiset of objects in work by what was and is in it |
| Jobs.Build.AddCompileJob | cake/build.cpp:531-582 | The first slot that is free or whose child has ended, or any when all run, takes the job; the object that was in it is compiled or failed by its exit code; the accounts balance |
| Jobs.Build.CompleteJobs | cake/build.cpp:584-605 | Nothing is in work afterwards, and what was is compiled or failed as the waits show |
| Jobs.Build.DoCompile | cake/build.cpp:195-248 | Every file given is skipped, compiled, failed or in work, and the counters count them; a file out of date takes a slot, and what was there may have failed |
| Jobs.Build.Link | cake/build.cpp:273-288 | Refused exactly after a failure, up to date exactly when nothing was compiled and the target is there and new, else links everything processed |
| Jobs.Run | cake/build.cpp:195-288 | For any files, exit codes and order of completion: what is linked is exactly the multiset of files processed; linking is left out exactly when no file was out of date and the target is there and new, and refused exactly when some child failed |

## Left out

- Collector: finalizers (`luaC_separateudata`, `marktmu`, `GCTM`), weak tables (`traversetable` for weak modes, `cleartable`) and dead keys.
- Collector: pacing (`luaC_step`, `gcdept`, `estimate`), resizing of stacks and of the string table during a cycle (`checkstacksizes`, `checkSizes`), and `luaC_freeall` but for its bit test.
- Collector: memory blocks; freeing removes the object from the heap and its lists.
- GcMutator.StackWriteOk: stack slots have no upper part that is cleared in the atomic step; all slots of a thread are marked.
- Code generator: `luaK_nil` (cake/lua/lcode.c:35-56) leaves out a LOADNIL at the start of a function and merges one with an earlier LOADNIL; the model always emits it.
- Code generator: constants beyond the operand range of `luaK_exp2RK`, the register limit, and the limit on jump distances in `fixjump`.
- Code generator: arithmetic, constant folding, unary minus and length, concatenation, indexing, calls, closures, assignments, and metamethods of comparisons, whose results are a parameter.
- CodeRight.OnlyExact: for expressions without comparisons in which each variable occurs once; `CodeLimits.ValueDecided` is for all.
- CodeLimits.ExactIff: for expressions in which each variable occurs once and nothing is compared but the whole; `CodeLimits.ValueDecided` is for all.
- CodeGen.FuncState.Subexpr: only `and`, `or`, `not`, comparisons, literals and variables, as the other operators are left out.
- CodeRun.Execute: only moves, loads, globals, `not`, comparisons, tests and jumps, which is what the modelled generator emits.
- Table.Table.Resize: a hash part too small for the keys is not asked for, as neither `rehash` nor the one call of `luaH_resizearray` does.
- Tables: sizes beyond MAXASIZE and table overflow, key conversion between numbers and integers, pointer hashing (the hash is a parameter), metatables.
- Pattern matching: `lmemfind` and plain searches, `gmatch`, `gsub`, and how captures are pushed as results.
- GcGarbage.GarbageGone: how many steps a cycle takes is not bounded, as the program may make new objects while it runs; without operations in between `GcSteps.CycleEnds` has it.
- PatternText.PatternRead: brackets, hyphens and escapes are written with an escape in sets, and repetition characters with one outside; other spellings of these are read too.
- Precedence: suffixes of simple expressions (calls, indexing, constructors) and the limit on nesting levels.
- Chunks: the bytecode verifier is a parameter, and numbers and sizes are taken in the format of the header without conversion.
- Quoted strings: long brackets, overflow of the line number, and the rest of the lexer.
- Quicksort: order functions that are not strict weak orders, and errors they raise.
- Upvalues.LuaState.FindUpval: does not revive a dead open upvalue, as there is no collector in this part; `GcAlloc.ResurrectOk` and `GcRuns.RunSafe` have it.
- Upvalues.LuaState.Close: does not free dead upvalues, for the same reason; `GcRuns.RunSafe` has it.
- Upvalues: several threads.
- Interning.StringTable.NewLstr: does not say when the table grows; `Interning.Run` holds for any resizing.
- Interning: erasing strings from the table; `Gc*.dfy` has it.
- Jobs: starting processes, waiting and paths; polls, waits and exit codes are parameters, and starting a child succeeds. Increments by precompiled headers and by linking are not counted.
- The Lua API, the standard libraries beyond those above, `ldo.c` and coroutines, and the driver's file and terminal handling.
