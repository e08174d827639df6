# Models of the Nim compiler's algorithms

This project models algorithms of the Nim compiler and of the line editor that ships
with it, and proves what they are for. `dafny verify dfyconfig.toml` checks it. `Basics`
holds what several models share.

| area | modules | modelled from |
|---|---|---|
| open-addressing hash tables | Probe, OpenTable, ObjectSet, IdTable, IITable, StrTable | compiler/astalgo.nim |
| B-tree | BTreeSpec, BTreeProof, BTree | compiler/btrees.nim |
| goto-based exceptions | TryLang, TryCode, TryGen, TryFlow, TrySim, TryProof, TryQuiet, TryFollow, TrySound, TryTheorem, TryFinally | compiler/ccgstmts.nim |
| `case` statements | CaseCode, CaseGen, CaseProof | compiler/ccgstmts.nim |
| marker and reset code | TypeCode, TypeGen, TypeProof | compiler/ccgtrav.nim, compiler/ccgreset.nim |
| sets | BitSets, SetCode | compiler/bitsets.nim, compiler/ccgexprs.nim |
| method dispatch | Dispatch | compiler/cgmeth.nim |
| containment of types | PartOf | compiler/aliases.nim |
| line editor | Terminal, LineEdit, LineKeys, Linenoise | lib/wrappers/linenoise/linenoise.c |

Emitted C code is an abstract syntax tree with an interpreter, not text. A compiler object
whose fields are updated in place is a class, and each of its methods is proved equal to a
function; the properties of that function are lemmas. Arrays that are part of a Nim object
(`array[M, Key]` in a B-tree node) or `seq` fields are sequences held in the object's fields
and changed element by element; the line buffer, the history and byte sets are Dafny arrays.

## What the code does not do as meant

- **A `finally` body that cannot raise does not clear the error flag**
  (compiler/ccgstmts.nim:1291-1306), and one that can raise saves the flag but not the stack
  of current exceptions. `TryFlow` says statement by statement what the code does with flag
  and stack, and `TryTheorem.CodeIsFlow` proves it for every program, entered with any stack.
  `TryTheorem.Right` says that this is what was written; for every proc that is so if and only
  if `TryFlow` and the structured semantics agree (`TryTheorem.RightIff`).
  - What can go wrong goes wrong at a `finally` that is reached with an exception in flight and
    does not hand it on (`TryFollow.HandsOn`). In any program and any run, all statements do what
    was written if and only if every such `finally` hands it on (`TryFollow.MeetsIff`; for one
    `try`, `TryFollow.FollowsIff`). Then the whole proc is right, in every world and whatever is
    around the `finally` (`TryTheorem.MeetsRight`). The converse fails for whole procs: a handler
    further out can clear the flag by accident (`TryFinally.RightByAccident`).
  - `TrySound.Sound` is a condition on the text under which every `finally` hands on: a body
    that cannot raise has no break out, no return, and in it a `try` has no handlers and nothing
    shows after one; in a body that can raise no exception is replaced by another inside a
    `try` with handlers. `TryTheorem.MeaningPreserved` is for all sound procs in every world in
    which called procs leave the exception stack alone (`TryLang.Neat`). That is what tidy sound
    procs do (`TryTheorem.LeavesNothing`), but not all sound ones (`TryFinally.SoundButUntidy`),
    and it matters (`TryFinally.LeftBehind`, an equivalence). Clean-up code that may itself fail,
    guarded or followed by more clean-up, is sound (`TryTheorem.CleanUpIsRight`).
  - The `finally` body cannot raise and is left by break or return: the statement does what was
    written if and only if that does not happen with an exception in flight (`QuietExitsAt`). If
    the body always exits, this is: if and only if no exception leaves the `try` body and its
    handlers (`AlwaysExitsAt`). Otherwise the flag stays on after the exit, and the caller sees
    the discarded exception. `FlagStaysOn` has the smallest examples, with return and with break.
  - The `finally` body cannot raise and holds a `try`, after plain code and before anything that
    does not raise or exit: right if and only if no exception in flight is caught by a handler of
    that inner `try`, and what comes after it makes no call and no test (`QuietTryAt`). Otherwise
    the exception is swallowed (`ExceptionIsSwallowed`) or the rest of the `finally` body is
    skipped (`CallIsSkipped`).
  - The `finally` body can raise: right if and only if the exception in flight is on top of
    the stack again when the body ends normally (`LoudFinAt`). It is not after an exception was
    replaced inside the body, in a handler (`ReplacedInHandlerAt`) or in another `finally`
    (`ReplacedInFinallyAt`), and the replacement caught there: right if and only if the replaced
    exception does not differ from the one in flight. `WrongException` has the smallest example.
  - These equivalences are for one statement in one run, wherever it stands, as long as nothing
    went wrong before its `finally`. For a proc that is made of it they become `QuietExits`,
    `AlwaysExits`, `QuietTry`, `LoudFin`, `ReplacedInHandler` and `ReplacedInFinally`, and
    `TryTheorem.RightAfter` carries them over to procs that do other things first.
- **B-tree enumeration counts overwrites.** `add` increments `entries` also when it
  overwrites a value (compiler/btrees.nim:113), while `next` finds only keys. Enumeration is
  complete and in order if and only if no key was added twice; otherwise `next` is asked for
  an item past the last one and, in a tree with inner nodes, never leaves its loop
  (`BTreeProof.EnumerationFits`).
- **A line that fills the buffer loses its last character** when the history is browsed up
  and down again, and a line with a NUL is cut there; every other line comes back
  (`LineEdit.UpAndDown`, an equivalence). The buffer length was already reduced by one when
  `strncpy` reduces it again (lib/wrappers/linenoise/linenoise.c:715-716, 788).
- `iiTablePut` with the reserved key `low(int)` changes no lookup but uses up the counter.
  `symTabReplace` by a symbol that is already in the table puts it into two slots, and that is
  the only way to get there (`StrTable.Replace`, an equivalence; `Add` and
  `InclReportConflict` keep every symbol in one slot). Iteration yields each symbol once if
  and only if no wanted one is in two slots (`StrTable.IterateIdent`); the next enlargement
  merges them.
- The comment on `inheritanceDiff` (compiler/types.nim:1236-1239) states the sign the other
  way round than its code; `bitSetContains(x, y)` asks whether x is a subset of y. The code
  is followed in both cases.

## Model

| member | source | states |
|---|---|---|
| Probe.MaskIsMod | compiler/astalgo.nim:663-667 | masking with a power of two minus one is the residue, also for negative hashes |
| Probe.HomeInRange | compiler/astalgo.nim:669-672 | the first slot of a search is inside the table, whatever the hash |
| Probe.NextTryInRange | compiler/astalgo.nim:663-667 | every next probe is inside the table |
| Probe.IterReduces | compiler/astalgo.nim:663-667 | n probe steps are n steps of 5h+1 over the integers, reduced once |
| Probe.FullPeriod | compiler/astalgo.nim:663-667 | on every power-of-two table the first `length` probes from any start are pairwise different |
| Probe.VisitsEverySlot | compiler/astalgo.nim:663-667 | and they reach every slot |
| Probe.VisitsOnce | compiler/astalgo.nim:663-667 | each slot at exactly one step of the period |
| OpenTable.FreeSlot | compiler/astalgo.nim:237-239 | fewer elements than slots leave a slot free |
| OpenTable.RunEnds | compiler/astalgo.nim:663-714 | a probe loop has passed fewer slots than the table has: it meets the free slot within `length` steps |
| OpenTable.SearchFails | compiler/astalgo.nim:669-676 | a search that meets a free slot proves the element absent, by the probe-chain invariant |
| OpenTable.InsertKeepsChained | compiler/astalgo.nim:678-684 | filling the free slot that ended the search keeps the probe-chain invariant of all elements |
| OpenTable.ReplaceKeepsChained | compiler/astalgo.nim:735-746 | so does replacing an element by one with the same hash in the same slot |
| OpenTable.DoublePow2 | compiler/ast.nim:1328-1330 | doubling keeps lengths powers of two |
| OpenTable.RawInsert | compiler/astalgo.nim:678-684 | raw insertion fills exactly one free slot and adds exactly one element |
| OpenTable.Enlarge | compiler/astalgo.nim:686-691 | enlarging keeps the multiset of elements and the probe chains |
| ObjectSet.ObjectSet.Contains | compiler/astalgo.nim:669-676 | membership in the set of all objects included so far |
| ObjectSet.ObjectSet.Incl | compiler/astalgo.nim:693-696 | adds a new object, through any rehash; the table is doubled exactly if it is more than two thirds full or has less than four free slots |
| ObjectSet.ObjectSet.ContainsOrIncl | compiler/astalgo.nim:698-714 | says whether the object was there and makes it a member either way; a new one grows the table by the same rule |
| IdTable.IdTable.Search | compiler/astalgo.nim:893-900 | finds the slot of the id, or proves that no element has it |
| IdTable.IdTable.RawGet | compiler/astalgo.nim:893-900 | a slot exactly for the ids that are bound |
| IdTable.IdTable.HasObjectAsKey | compiler/astalgo.nim:902-905 | true exactly if the id is bound and by this very object |
| IdTable.IdTable.Get | compiler/astalgo.nim:907-915 | the last value put for the key, or nothing |
| IdTable.IdTable.Put | compiler/astalgo.nim:932-949 | updates the map at the one key, through any rehash, by the same rule; on an overwrite the key object is kept |
| IdTable.IdTable.Pairs | compiler/astalgo.nim:917-920 | yields every binding of the map and no id twice |
| IITable.IITable.Search | compiler/astalgo.nim:1005-1011 | finds the slot of the key, or proves it absent; never finds the reserved key |
| IITable.IITable.Get | compiler/astalgo.nim:1013-1016 | the last value put, or the absent marker |
| IITable.IITable.Put | compiler/astalgo.nim:1028-1043 | updates the map at the one key and grows by the same rule; the reserved key changes no lookup, but counts |
| StrTable.StrTable.Contains | compiler/astalgo.nim:716-722 | membership of a symbol |
| StrTable.StrTable.Add | compiler/astalgo.nim:748-758 | adds the symbol, or nothing if it is there; the counter grows in both cases, the table by the same rule; no symbol gets into a second slot |
| StrTable.StrTable.Replace | compiler/astalgo.nim:735-746 | one slot changes from the old symbol to the new one with the same identifier; each symbol stays in one slot if and only if the new one was not in another already |
| StrTable.StrTable.Scan | compiler/astalgo.nim:760-774 | the search loop decides: the symbol itself, the slot of the last conflicting one on the probe chain, or the free slot that ends it |
| StrTable.StrTable.InclReportConflict | compiler/astalgo.nim:760-791 | no conflict: n is added and nil returned; n itself: nothing changes; otherwise the last symbol with the same identifier on the probe chain, and at most its slot differs, none with keep-old; no symbol gets into a second slot |
| StrTable.StrTable.Get | compiler/astalgo.nim:797-804 | the first symbol with the identifier on the probe chain, or none exists |
| StrTable.StrTable.NextIdentIter | compiler/astalgo.nim:811-844 | the next wanted symbol on the probe sequence, with none skipped in between |
| StrTable.StrTable.IterateIdent | compiler/astalgo.nim:824-851 | from init to the first nil every slot with a wanted symbol is yielded exactly once, in the order of the probe chain, and nothing else, with or without an exclusion list; each symbol once if and only if no wanted symbol is in two slots |
| BTreeSpec.PutAscending | compiler/btrees.nim:76-92 | inserting into a sorted list keeps it sorted |
| BTreeSpec.PutMeans | compiler/btrees.nim:76-92 | a put changes the map at the one key, and the length exactly if the key is new |
| BTreeSpec.LookupIsMap | compiler/btrees.nim:44-46 | a scan of a leaf is a map lookup |
| BTreeProof.OrderedFlat | compiler/btrees.nim:37-46 | a tree in search order lists its keys in ascending order, though keys[0] of inner nodes is stale |
| BTreeProof.RouteSplits | compiler/btrees.nim:39-43 | around the child chosen for a key all other keys are on the right side |
| BTreeProof.SearchIsLookup | compiler/btrees.nim:37-58 | walking down one path finds what a scan of the whole list finds |
| BTreeProof.InsertFlat | compiler/btrees.nim:76-109 | with shifts and splits at any depth, insertion is a put into the sorted list |
| BTreeProof.InsertOrdered | compiler/btrees.nim:76-109 | both halves of a split are in search order on either side of the new separator |
| BTreeProof.InsertBalanced | compiler/btrees.nim:70-109 | all leaves stay at one depth and every node below the root between half and M-1 entries |
| BTreeProof.AddKeeps | compiler/btrees.nim:111-122 | add keeps order and balance through root growth and changes the map at the one key |
| BTreeProof.MinimumSize | compiler/btrees.nim:70-122 | a tree of height h >= 1 holds at least 2*(M/2)^h keys |
| BTreeProof.AfterAdds | compiler/btrees.nim:37-122 | after every run of adds: order, balance, lookups see the last value added; as many keys as adds if and only if no key was added twice |
| BTreeProof.StepMeans | compiler/btrees.nim:152-161 | the running sum finds the child with item i and its rank there; past the end it finds none |
| BTreeProof.EnumerationFits | compiler/btrees.nim:111-161 | every index below entries has an item if and only if all added keys differ; otherwise the walk of next gets stuck |
| BTree.ShiftIn | compiler/btrees.nim:87-107 | the countdown loop opens a gap and fills it, keeping the rest in order |
| BTree.Node.CopyHalf | compiler/btrees.nim:60-68 | the new node gets the upper half |
| BTree.Node.Split | compiler/btrees.nim:70-74 | the two nodes represent the two halves of the tree and share no node |
| BTree.Node.Insert | compiler/btrees.nim:76-109 | in place, the nodes come to represent what insertion makes of the tree, with all subtrees still separate |
| BTree.Node.GetOrDefault | compiler/btrees.nim:37-46 | the loops compute the search of the tree |
| BTree.Node.Contains | compiler/btrees.nim:48-58 | likewise for membership |
| BTree.Node.CountSubTree | compiler/btrees.nim:140-146 | counts the items of the subtree |
| BTree.Node.NextChild | compiler/btrees.nim:152-161 | one round of the loop of next |
| BTree.BTree.Add | compiler/btrees.nim:111-122 | extends the history of adds that the tree represents, for any even M > 2 |
| BTree.BTree.GetOrDefault | compiler/btrees.nim:37-46 | the last value added for the key, or the default |
| BTree.BTree.Contains | compiler/btrees.nim:48-58 | whether the key was ever added |
| BTree.BTree.Next | compiler/btrees.nim:148-161 | the item of rank i, for every i below the number of keys |
| BTree.BTree.Pairs | compiler/btrees.nim:163-168 | for different keys: all pairs of the map in ascending order |
| TryLang.BrokeIsFree | compiler/ccgstmts.nim:685-703 | a statement breaks only to blocks that it does not declare itself |
| TryLang.QuietNeverRaises | compiler/ccgstmts.nim:1207-1223 | what bodyCanRaise rejects never raises |
| TryLang.CanRaiseIff | compiler/ccgstmts.nim:1207-1223 | a body can raise if and only if there is, anywhere in it, a raise or a call of a proc that can |
| TryLang.ExecMore | compiler/ccgstmts.nim:588-619 | a structured run that has ended is not changed by a higher bound on iterations |
| TryCode.FindFirst | compiler/ccgstmts.nim:1225-1308 | a goto goes to the first line with the label |
| TryCode.OrExprMeans | compiler/ccgstmts.nim:1264-1276 | the emitted chain of tests holds if and only if the exception has one of the types of the branch |
| TryCode.GenLabels | compiler/ccgstmts.nim:197-231 | no label is emitted twice, although leaving a block emits finally bodies again |
| TryCode.CompiledLabels | compiler/ccgstmts.nim:1225-1308 | every goto of a proc has one target |
| TryFlow.FlowMore | compiler/ccgstmts.nim:588-619 | a run of the code that has ended is not changed by a higher bound on iterations |
| TryFlow.BreaksIsFree | compiler/ccgstmts.nim:685-703 | the code too goes only to blocks that the statement does not declare itself |
| TrySim.LandFacts | compiler/ccgstmts.nim:197-231 | where a break or return ends up once the finally bodies in between have had their say |
| TrySim.LandEnv | compiler/ccgstmts.nim:47-53 | a block that no enclosing finally can break to does not matter to where control goes |
| TrySim.FinishLand | compiler/ccgstmts.nim:197-231 | running a finally body where the break or return stands is the same as letting the try statement run it |
| TrySim.FinishHandler | compiler/ccgstmts.nim:197-231 | the same out of a handler, whose exception is popped after the finally bodies have run |
| TryProof.SimSeq | compiler/ccgstmts.nim:1584-1590 | simulation for sequences |
| TryProof.SimIf | compiler/ccgstmts.nim:416-461 | simulation for if |
| TryProof.SimWhile | compiler/ccgstmts.nim:588-619 | simulation for loops, for every bound on the iterations |
| TryProof.SimBlock | compiler/ccgstmts.nim:621-637 | simulation for blocks and the breaks out of them |
| TryProof.SimLeave | compiler/ccgstmts.nim:197-231 | the inlined finally copies run innermost first and any of them may divert control |
| TryProof.SimBreak | compiler/ccgstmts.nim:685-703 | a break runs the finally copies, then pops the exceptions of the handlers it leaves, then goes to its block |
| TryProof.SimReturn | compiler/ccgstmts.nim:463-476 | a return runs all enclosing finally bodies, pops, and reaches the end of the proc |
| TryProof.SimHandlers | compiler/ccgstmts.nim:1253-1286 | the handlers, whatever flag and stack are: the first one that fits the top of the stack runs with the flag cleared; its end pops, a raise in it does not |
| TryProof.SimFin | compiler/ccgstmts.nim:1288-1308 | the finally section, with the flag saved around a body that can raise and left alone around one that cannot |
| TryProof.SimTry | compiler/ccgstmts.nim:1225-1308 | simulation for try |
| TryProof.SimStmt | compiler/ccgstmts.nim:197-1308 | every statement of every program, wherever it stands and whatever flag and stack are: exactly the calls, tests, flag, stack and destination that `TryFlow` says |
| TryQuiet.QuietKeeps | compiler/ccgstmts.nim:1207-1223 | with the flag off, what cannot raise keeps it off and takes nothing from the stack, and adds nothing if called procs do not |
| TryQuiet.FlaggedKeeps | compiler/ccgstmts.nim:1253-1306 | with the flag on, what cannot raise keeps flag and exception, or one of its handlers has taken the exception and the flag is off for good |
| TryQuiet.StraightFlow | compiler/ccgstmts.nim:1291-1306 | code without try and raise does the same whatever the flag says |
| TryFollow.Follow | compiler/ccgstmts.nim:197-1308 | a run in which every finally hands on the exception in flight is as in the structured semantics: same events, same way out, and the stack kept as exactly as `Tidy` promises |
| TryFollow.FollowFin | compiler/ccgstmts.nim:1288-1308 | the finally section runs however the rest ended and hands on a pending exception |
| TryFollow.FollowsIff | compiler/ccgstmts.nim:1225-1308 | a try with nothing wrong inside does what was written if and only if its finally hands on the exception in flight, if there is one |
| TryFollow.MeetsIff | compiler/ccgstmts.nim:197-1308 | for every program and run: all statements do what was written if and only if every finally reached with an exception in flight hands it on |
| TryFollow.QuietMeets | compiler/ccgstmts.nim:1207-1223 | without raising statements no finally is ever reached with an exception in flight |
| TrySound.TripMeans | compiler/ccgstmts.nim:1291-1308 | code that cannot raise either shows or does nothing but leave, and the text tells which |
| TrySound.CalmFlow | compiler/ccgstmts.nim:1291-1308 | calm code, with nested clean-up, does the same with the flag on and keeps flag and stack, though it may leave early |
| TrySound.SoundMeets | compiler/ccgstmts.nim:197-1308 | in a sound program every finally hands on, if called procs leave the stack alone |
| TryTheorem.CompiledRun | compiler/ccgstmts.nim:1225-1308 | one run of a whole proc, sound or not, entered with any flag and stack, leaves what `TryFlow` says, or goes on if that does |
| TryTheorem.CodeIsFlow | compiler/ccgstmts.nim:197-1308 | the code of every proc halts if and only if `TryFlow` ends, with the same flag, exception stack, calls and tests |
| TryTheorem.RightIff | compiler/ccgstmts.nim:197-1308 | for every proc: the code is right if and only if `TryFlow` ends exactly when the structured run does, and then in the same way |
| TryTheorem.MeetsRight | compiler/ccgstmts.nim:197-1308 | in every world, a proc whose finallys all hand on, wherever they stand, is compiled rightly |
| TryTheorem.RightAfter | compiler/ccgstmts.nim:1584-1590 | after a part that ends normally the proc is right if and only if the rest is right from there |
| TryTheorem.FirstHandler | compiler/ccgstmts.nim:1253-1286 | after a raise the first branch that is general or lists a type of the exception runs, as written and in the code; without one the exception stays raised |
| TryTheorem.FirstHandlerRuns | compiler/ccgstmts.nim:1253-1286 | the run of the emitted code ends as that branch does |
| TryTheorem.MeaningPreserved | compiler/ccgstmts.nim:197-1308 | for sound procs, if called procs leave the stack alone, the code halts if and only if the structured run terminates, with the same events in the same order and the same outcome |
| TryTheorem.LeavesNothing | compiler/ccgstmts.nim:197-231 | a sound and tidy proc leaves the exception stack as it found it when it ends normally, by return if its text grants that, and but for its own exception when it raises, if that is granted |
| TryTheorem.CleanUpIsRight | compiler/ccgstmts.nim:1288-1308 | clean-up guarded or followed by more clean-up, failing or not, is compiled rightly after any sound body |
| TryFinally.NothingPends | compiler/ccgstmts.nim:1288-1308 | any finally body that is right itself is right with no exception in flight |
| TryFinally.QuietFin | compiler/ccgstmts.nim:1291-1308 | around any body that cannot raise: right if and only if the body does with the flag on what it does without |
| TryFinally.QuietExitsAt | compiler/ccgstmts.nim:1291-1308 | a quiet finally left by break or return does what was written if and only if that does not happen with an exception in flight, in any surroundings |
| TryFinally.QuietExits | compiler/ccgstmts.nim:1291-1308 | a proc made of it is right if and only if that never happens |
| TryFinally.AlwaysExitsAt | compiler/ccgstmts.nim:1291-1308 | a quiet finally that always exits does what was written if and only if no exception is in flight, in any surroundings |
| TryFinally.AlwaysExits | compiler/ccgstmts.nim:1291-1308 | a proc made of it is right if and only if no exception leaves the body and its handlers |
| TryFinally.FlagStaysOn | compiler/ccgstmts.nim:463-476 | return and break out of the finally after a raise: wrong in every neat world |
| TryFinally.FlagStaysOnLater | compiler/ccgstmts.nim:463-476 | and with a call in front |
| TryFinally.RightByAccident | compiler/ccgstmts.nim:1253-1286 | a wrong statement inside a general handler: the proc is right nevertheless |
| TryFinally.QuietTryAt | compiler/ccgstmts.nim:1291-1308 | with a try in a quiet finally the statement does what was written if and only if the pending exception fits no inner handler (unless neither run nor code ends) and what is skipped would not have shown, in any surroundings |
| TryFinally.QuietTry | compiler/ccgstmts.nim:1291-1308 | the same for a proc made of it |
| TryFinally.CallIsSkipped | compiler/ccgstmts.nim:1291-1308 | the call after the inner try is lost, in every neat world |
| TryFinally.ExceptionIsSwallowed | compiler/ccgstmts.nim:1253-1286 | a general handler of the inner try swallows the exception, in every neat world |
| TryFinally.LoudFinAt | compiler/ccgstmts.nim:1291-1306 | a finally that can raise does what was written if and only if the exception in flight is on top of the stack again when its body ends normally, in any world and surroundings |
| TryFinally.LoudFin | compiler/ccgstmts.nim:1291-1306 | the same for a proc made of it |
| TryFinally.LeftBehind | compiler/ccgstmts.nim:1291-1306 | a call in the finally: right if and only if the called proc raises or leaves nothing above the exception in flight, or that very exception |
| TryFinally.ReplacedInHandlerAt | compiler/ccgstmts.nim:1277-1306 | for any bodies, in any surroundings: right if and only if no handler in the finally body replaces an exception by one that is then caught, unless it equals the one in flight |
| TryFinally.ReplacedInHandler | compiler/ccgstmts.nim:1277-1306 | the same for a proc made of it |
| TryFinally.ReplacedInFinallyAt | compiler/ccgstmts.nim:1288-1306 | the same where an inner finally replaces what its body has left on the stack, raised there or handled and left by return or break |
| TryFinally.ReplacedInFinally | compiler/ccgstmts.nim:1288-1306 | the same for a proc made of it |
| TryFinally.WhatIsReplaced | compiler/ccgstmts.nim:1288-1306 | when that body raises, it is its own exception; when it ends normally, the one in flight |
| TryFinally.WrongException | compiler/ccgstmts.nim:1277-1306 | the smallest example is right if and only if the left-over exception equals the one raised |
| TryFinally.SoundButUntidy | compiler/ccgstmts.nim:1277-1286 | a sound proc that ends normally and leaves an exception on the stack |
| TryGen.BProc.InExceptBlockLen | compiler/ccgstmts.nim:43-45 | counts the enclosing try statements whose handlers are being generated |
| TryGen.BProc.StartBlock | compiler/ccgstmts.nim:47-53 | records label, try depth and except depth of a new block |
| TryGen.BProc.RaiseExit | compiler/ccgstmts.nim:705-715 | tests the flag and goes to the innermost try, or to the end |
| TryGen.BProc.RaiseInstr | compiler/ccgstmts.nim:725-739 | the jump after a raise |
| TryGen.BProc.BlockLeaveActions | compiler/ccgstmts.nim:197-231 | emits the finally copies and pops while the try stack is taken apart, and puts it back as it was |
| TryGen.BProc.GenIf | compiler/ccgstmts.nim:416-461 | emits what the generator function says and restores both stacks |
| TryGen.BProc.GenWhileStmt | compiler/ccgstmts.nim:588-619 | likewise for loops |
| TryGen.BProc.GenBlock | compiler/ccgstmts.nim:621-637 | likewise for named blocks |
| TryGen.BProc.GenBreakStmt | compiler/ccgstmts.nim:685-703 | likewise for break, with the block looked up through its symbol |
| TryGen.BProc.GenReturnStmt | compiler/ccgstmts.nim:463-476 | likewise for return |
| TryGen.BProc.GenTryGoto | compiler/ccgstmts.nim:1225-1308 | likewise for try, updating its entry on the try stack in place |
| TryGen.BProc.GenOrExpr | compiler/ccgstmts.nim:1264-1274 | the loop joins one test for each type by or |
| TryGen.BProc.GenStmts | compiler/ccgstmts.nim:1584-1590 | every statement: exactly the lines and labels of the generator function, both stacks restored |
| TryGen.BProc.GenProc | compiler/ccgstmts.nim:1225-1308 | a whole proc is the code that the theorems speak of |
| CaseCode.SelectIs | compiler/ccgstmts.nim:802-823 | the branch chosen by a linear scan matches and none before it does |
| CaseCode.HoldsIsMatches | compiler/ccgstmts.nim:765-786 | the emitted comparison with a value, or with both ends of a range, holds exactly for the values that the branch lists |
| CaseProof.RunTests | compiler/ccgstmts.nim:775-816 | the first pass goes to the label of the first matching branch, or falls through if none matches |
| CaseProof.BodiesAre | compiler/ccgstmts.nim:788-800 | each body stands at its own label, followed by the jump to the end |
| CaseProof.RunBody | compiler/ccgstmts.nim:788-800 | from its label one body runs and control goes to the end label |
| CaseProof.GenericRuns | compiler/ccgstmts.nim:825-830 | the plain chain runs the body of the first matching branch and nothing else |
| CaseProof.BucketSuffices | compiler/ccgstmts.nim:832-841 | testing only the strings of one hash bucket finds what testing all would find |
| CaseProof.StringRuns | compiler/ccgstmts.nim:843-873 | the hash switch runs the body that the linear scan selects |
| CaseProof.ExpandMeans | compiler/ccgstmts.nim:896-909 | writing ranges out label by label does not change what a branch matches |
| CaseProof.LabelsAsWritten | compiler/ccgstmts.nim:896-902 | with case ranges the labels are as written |
| CaseProof.NoRangeLeft | compiler/ccgstmts.nim:903-907 | without them no range of ordinals is left |
| CaseProof.ArmsMean | compiler/ccgstmts.nim:922-938 | the C switch selects like the linear scan of its branches, else branch included |
| CaseProof.OrdinalRuns | compiler/ccgstmts.nim:911-942 | wherever the branches are divided, if part and switch together run the body that the linear scan selects |
| CaseProof.SplitPointMeans | compiler/ccgstmts.nim:886-894 | no branch from the split point on is marked or, without case ranges, has a range of more than 257 values; the one before it is or has |
| CaseProof.FewLabels | compiler/ccgstmts.nim:879-909 | without case ranges no range in the switch is written out as more than 257 labels |
| CaseGen.NextPowerOfTwo | lib/pure/math.nim:306-329 | the smallest power of two that is large enough |
| CaseGen.BProc.GenIfForCaseUntil | compiler/ccgstmts.nim:802-823 | emits both passes and returns the end label |
| CaseGen.BProc.GenCaseStringBranch | compiler/ccgstmts.nim:832-841 | adds each string's test to the bucket of its hash |
| CaseGen.BProc.GenStringCase | compiler/ccgstmts.nim:843-877 | more than eight strings become a hash switch with a power-of-two number of buckets, fewer a chain |
| CaseGen.BProc.IfSwitchSplitPoint | compiler/ccgstmts.nim:886-894 | the number of branches up to the last one that is marked or has, without case ranges, a range of more than 257 values |
| CaseGen.BProc.BranchHasTooBigRange | compiler/ccgstmts.nim:879-884 | whether some range has more than 257 values |
| CaseGen.BProc.GenCaseRange | compiler/ccgstmts.nim:896-909 | the labels of a branch, ranges written out exactly if the C compiler has no case ranges |
| CaseGen.BProc.GenOrdinalCase | compiler/ccgstmts.nim:911-942 | emits if part and switch for the computed split point |
| TypeProof.CellsUnder | compiler/ccgtrav.nim:67-116 | all places of a value lie below the value |
| TypeProof.CellsFrame | compiler/ccgtrav.nim:26-58 | which places a value has depends only on the memory below it |
| TypeProof.NothingThere | compiler/ccgtrav.nim:77-90 | where the body of an array loop is empty no element holds a reference: eliding the loop is right |
| TypeProof.ExecType | compiler/ccgtrav.nim:67-116 | running the generated code handles exactly the places of the value, in layout order |
| TypeProof.ExecRecord | compiler/ccgtrav.nim:26-58 | likewise for record nodes and variants |
| TypeProof.ExecSwitch | compiler/ccgtrav.nim:34-47 | the emitted switch takes the branch that the discriminator selects |
| TypeProof.ExecCase | compiler/ccgreset.nim:24-40 | reset handles the active branch before it clears the discriminator |
| TypeProof.CellsOnce | compiler/ccgtrav.nim:67-116 | no place of a value occurs twice |
| TypeProof.SameReferences | compiler/ccgreset.nim:51-91 | what the marker code visits is what the reset code clears, less what holds no traced reference |
| TypeProof.MarkerVisits | compiler/ccgtrav.nim:26-116 | the marker code visits every traced reference of a value in layout order, once each, and changes nothing |
| TypeProof.ResetClears | compiler/ccgreset.nim:17-91 | the reset code clears exactly the places of the value, all visited references among them |
| TypeGen.BProc.WriteType | compiler/ccgtrav.nim:67-116 | appends the code of a type, rolling back loops around nothing |
| TypeGen.BProc.WriteRecord | compiler/ccgreset.nim:17-49 | appends the code of a record node, for C compilers with and without case ranges |
| BitSets.AndBit | compiler/bitsets.nim:39-64 | bit k of a bitwise and |
| BitSets.SameBits | compiler/bitsets.nim:66-70 | numbers with the same bits are equal |
| BitSets.BitSetIn | compiler/bitsets.nim:39-40 | membership |
| BitSets.BitSetIncl | compiler/bitsets.nim:42-45 | adds one member |
| BitSets.BitSetExcl | compiler/bitsets.nim:47-49 | removes one member |
| BitSets.BitSetUnion | compiler/bitsets.nim:54-55 | union in place |
| BitSets.BitSetDiff | compiler/bitsets.nim:57-58 | difference in place |
| BitSets.BitSetSymDiff | compiler/bitsets.nim:60-61 | symmetric difference in place |
| BitSets.BitSetIntersect | compiler/bitsets.nim:63-64 | intersection in place |
| BitSets.BitSetEquals | compiler/bitsets.nim:66-70 | equality of the member sets |
| BitSets.BitSetContains | compiler/bitsets.nim:72-76 | the first set is a subset of the second |
| BitSets.TableIsRight | compiler/bitsets.nim:79-97 | the population count table counts the bits of a byte |
| BitSets.BitSetCard | compiler/bitsets.nim:99-101 | the number of members |
| SetCode.BitSetToWord | compiler/ccgexprs.nim:110-113 | the word has the members of the bytes and fits its size |
| SetCode.WordElement | compiler/ccgexprs.nim:1868-1953 | membership, incl and excl on 1, 2, 4 and 8 byte words |
| SetCode.WordOperations | compiler/ccgexprs.nim:1960-1962 | intersection, union and difference of words |
| SetCode.WordComparisons | compiler/ccgexprs.nim:1957-1959 | subset and proper subset of words |
| SetCode.BigLe | compiler/ccgexprs.nim:1924-1926 | the loop with early break decides subset |
| SetCode.BigLt | compiler/ccgexprs.nim:1927-1930 | with the memory comparison, proper subset |
| SetCode.BigOp | compiler/ccgexprs.nim:1992-2003 | the byte loop computes the set operation |
| SetCode.BigConstr | compiler/ccgexprs.nim:2429-2456 | a big set holds exactly the listed elements and ranges |
| SetCode.SmallConstr | compiler/ccgexprs.nim:2457-2473 | a packed set holds exactly the listed elements and ranges |
| SetCode.GenInOp | compiler/ccgexprs.nim:1883-1913 | the chain of comparisons holds exactly for the listed elements |
| Dispatch.AncestorsLinear | compiler/cgmeth.nim:200-207 | the ancestors of a class form a chain |
| Dispatch.InheritanceDiff | compiler/types.nim:1235-1257 | the two loops compute the signed depth difference |
| Dispatch.DiffMeans | compiler/types.nim:1235-1257 | negative for strict descendants, positive for ancestors, the marker for unrelated classes |
| Dispatch.Insert | compiler/cgmeth.nim:219-225 | one insertion makes exactly the shifts that the comparison asks for, stops behind the nearest descendant to the left and permutes the bucket |
| Dispatch.MovedOrdered | compiler/cgmeth.nim:209-226 | insertion with gap one keeps every class behind its descendants, although unrelated classes compare equal |
| Dispatch.GapPass | compiler/cgmeth.nim:217-225 | a pass inserts the elements one after the other and permutes; with gap one it orders |
| Dispatch.GapDown | compiler/cgmeth.nim:211-217 | the gaps are (3^k-1)/2 down to one |
| Dispatch.SortBucket | compiler/cgmeth.nim:209-226 | the passes are those of a Shellsort from the largest gap that fits down to one; the sort ends, permutes, and leaves no class before one of its descendants |
| Dispatch.RelevantCol | compiler/cgmeth.nim:191-198 | whether the first parameters are of different classes |
| Dispatch.GenDispatcher | compiler/cgmeth.nim:228-285 | one branch per method in order, or a call of the last one |
| Dispatch.ChainPicksNearest | compiler/cgmeth.nim:243-282 | in an ordered bucket the first match belongs to the nearest ancestor, and there is one if any method applies |
| Dispatch.SameBucketMeans | compiler/cgmeth.nim:59-98 | who may join and who comes too late, in names, parameters, classes, return types and generic flags |
| Dispatch.SameMethodBucket | compiler/cgmeth.nim:59-98 | the loop over the parameters decides who may join a bucket and who comes too late |
| Dispatch.ModuleGraph.MethodDef | compiler/cgmeth.nim:163-189 | a method joins the first bucket whose dispatcher it fits, or starts one; all methods of a bucket return what its dispatcher returns; invalid declaration order is reported exactly for a method of an ancestor that fits nowhere, with the first method of the first such bucket |
| Dispatch.ModuleGraph.GenerateMethodDispatchers | compiler/cgmeth.nim:287-297 | every dispatcher calls the method of the nearest ancestor, for every runtime class below its own |
| PartOf.PartTypesIff | compiler/aliases.nim:21-58 | parts are the base and all fields of an object, in any variant, what an alias stands for and the elements of a tuple |
| PartOf.IsPartOfAux | compiler/aliases.nim:42-58 | the search ends; it says yes only with a hit among the parts, and no only if all it visited is finished |
| PartOf.IsPartOfRecord | compiler/aliases.nim:21-40 | likewise for record nodes, with the early returns |
| PartOf.StaysInside | compiler/aliases.nim:42-58 | a visited set closed under parts holds all that is reachable |
| PartOf.IsPartOf | compiler/aliases.nim:60-64 | yes if and only if an equal type is reachable through bases, fields, variants, elements and aliases |
| Terminal.LayoutShows | lib/wrappers/linenoise/linenoise.c:543-624 | each character of the text has its own cell |
| Terminal.ReachKeeps | lib/wrappers/linenoise/linenoise.c:584-600 | reaching a row scrolls the page no further than that; of earlier output exactly the rows that leave the page are lost |
| Terminal.PrintAll | lib/wrappers/linenoise/linenoise.c:584-587 | printing a text with deferred wrap from the start of row 0 fills exactly its cells, ends where division says, and scrolls the page as far as the last row needs, for every text that fits the page |
| Linenoise.CursorRow | lib/wrappers/linenoise/linenoise.c:543-606 | the cursor's row is one of the rows used, or the one after at the very end |
| Linenoise.UpIsRight | lib/wrappers/linenoise/linenoise.c:592-613 | going up from the last row written ends in the row of the cursor |
| Linenoise.LineState.ClearOps | lib/wrappers/linenoise/linenoise.c:557-581 | from the row computed from oldpos every row used before, all still on the page, is erased; the cursor ends at the start of the prompt row, was never above it, and the rows above are untouched |
| Linenoise.RefreshEnds | lib/wrappers/linenoise/linenoise.c:583-620 | after printing, the newline case, the way up and the column, with whatever scrolling the page needs, the cursor is at row (plen+pos)/cols, column (plen+pos)%cols, never above the prompt |
| Linenoise.LineState.RefreshOps | lib/wrappers/linenoise/linenoise.c:543-620 | all that a refresh writes, if the line fits the page: the screen it makes, also at the bottom of the page, and the cursor is on no row above the prompt at any time |
| Linenoise.LineState.RefreshMultiLine | lib/wrappers/linenoise/linenoise.c:543-624 | after a refresh the screen shows earlier output as it was, less the rows that had to scroll away, prompt and line below it, nothing else, and the cursor in its place |
| LineEdit.MovesUndo | lib/wrappers/linenoise/linenoise.c:664-678 | left and right undo each other |
| LineEdit.BackspaceUndoesInsert | lib/wrappers/linenoise/linenoise.c:638-662 | backspace undoes an insertion, if it took place |
| LineEdit.TransposeMeans | lib/wrappers/linenoise/linenoise.c:847-855 | ctrl-t exchanges the two characters around the cursor and nothing else |
| LineEdit.PrevWordMeans | lib/wrappers/linenoise/linenoise.c:744-758 | ctrl-w removes the spaces before the cursor and the word before them, no more |
| LineEdit.EditFits | lib/wrappers/linenoise/linenoise.c:638-758 | no command makes the line longer than the buffer |
| LineEdit.AddLineMeans | lib/wrappers/linenoise/linenoise.c:1108-1135 | a repeated line changes nothing; otherwise the history ends with the line, after the latest lines there is room for |
| LineEdit.UpAndDown | lib/wrappers/linenoise/linenoise.c:700-720 | up and down gives the line back if and only if it does not fill the buffer and holds no NUL |
| LineKeys.LeftKeys | lib/wrappers/linenoise/linenoise.c:856-900 | ctrl-b and left: the text stays, the cursor goes one back |
| LineKeys.RightKeys | lib/wrappers/linenoise/linenoise.c:859-897 | ctrl-f and right: one on |
| LineKeys.HomeKeys | lib/wrappers/linenoise/linenoise.c:901-938 | ctrl-a and both forms of home: to the start |
| LineKeys.EndKeys | lib/wrappers/linenoise/linenoise.c:904-941 | ctrl-e and both forms of end: to the end |
| LineKeys.InsertKey | lib/wrappers/linenoise/linenoise.c:923-925 | a byte that is no command is inserted at the cursor if it fits |
| LineKeys.BackspaceKeys | lib/wrappers/linenoise/linenoise.c:832-835 | backspace and ctrl-h delete the character before the cursor |
| LineKeys.DeleteKeys | lib/wrappers/linenoise/linenoise.c:836-884 | ctrl-d and delete take the character at the cursor; in an empty line ctrl-d ends the input |
| LineKeys.KillKeys | lib/wrappers/linenoise/linenoise.c:926-935 | ctrl-u leaves nothing, ctrl-k nothing behind the cursor |
| LineKeys.TransposeKey | lib/wrappers/linenoise/linenoise.c:847-855 | ctrl-t exchanges the characters around the cursor and moves on, unless it is on the last one |
| LineKeys.WordKey | lib/wrappers/linenoise/linenoise.c:946-948 | ctrl-w deletes the spaces before the cursor and the word before them |
| LineKeys.PreviousKeys | lib/wrappers/linenoise/linenoise.c:862-891 | ctrl-p and up: the line goes into its entry, the entry before it is edited, if there is one |
| LineKeys.NextKeys | lib/wrappers/linenoise/linenoise.c:865-894 | ctrl-n and down: likewise the entry after it |
| LineKeys.EndingKeys | lib/wrappers/linenoise/linenoise.c:815-831 | enter accepts with the cursor at the end, ctrl-c gives up |
| LineKeys.CutEscape | lib/wrappers/linenoise/linenoise.c:868-873 | input that ends within an escape sequence |
| LineKeys.OtherKeys | lib/wrappers/linenoise/linenoise.c:868-944 | ctrl-l clears the screen and changes no text; unknown escape sequences do nothing |
| Linenoise.HistoryBuffer.HistoryAdd | lib/wrappers/linenoise/linenoise.c:1108-1135 | in the array: no repetition, the oldest entry makes room |
| Linenoise.HistoryBuffer.SetMaxLen | lib/wrappers/linenoise/linenoise.c:1141-1170 | keeps the latest entries |
| Linenoise.LineState.EditInsert | lib/wrappers/linenoise/linenoise.c:638-662 | in the buffer, insertion at the cursor; nothing if it is full |
| Linenoise.LineState.EditMoveLeft | lib/wrappers/linenoise/linenoise.c:664-670 | refines the zipper |
| Linenoise.LineState.EditMoveRight | lib/wrappers/linenoise/linenoise.c:672-678 | refines the zipper |
| Linenoise.LineState.EditMoveHome | lib/wrappers/linenoise/linenoise.c:680-686 | refines the zipper |
| Linenoise.LineState.EditMoveEnd | lib/wrappers/linenoise/linenoise.c:688-694 | refines the zipper |
| Linenoise.LineState.EditDelete | lib/wrappers/linenoise/linenoise.c:722-731 | refines the zipper |
| Linenoise.LineState.EditBackspace | lib/wrappers/linenoise/linenoise.c:733-742 | refines the zipper |
| Linenoise.LineState.EditDeletePrevWord | lib/wrappers/linenoise/linenoise.c:744-758 | refines the zipper, the final NUL moving along |
| Linenoise.LineState.EditTranspose | lib/wrappers/linenoise/linenoise.c:847-855 | refines the zipper |
| Linenoise.LineState.EditKillLine | lib/wrappers/linenoise/linenoise.c:926-930 | refines the zipper |
| Linenoise.LineState.EditKillToEnd | lib/wrappers/linenoise/linenoise.c:931-935 | refines the zipper |
| Linenoise.LineState.EditHistoryNext | lib/wrappers/linenoise/linenoise.c:700-720 | stores the line in its entry and fetches the next one, or stays at either end |
| Linenoise.LineState.Run | lib/wrappers/linenoise/linenoise.c:795-951 | for every input the buffer, the history and the way it ends are those of the zipper editor, the screen shows the line if no line needed more rows than the page has, and earlier output is untouched but for scrolling, unless a key cleared the screen |
| Linenoise.LinenoiseEdit | lib/wrappers/linenoise/linenoise.c:768-951 | the same from an empty line on a new last history entry, below any earlier output |

## Left out

- TryTheorem.MeaningPreserved: `Sound` is a condition on the text and so stronger than that every `finally` hands on in each run, which `TryTheorem.MeetsRight` asks instead; it asks for `Neat`, for which `TryTheorem.LeavesNothing` gives the reason and `TryFinally.LeftBehind` the need. `Scoped` says that block symbols are unique.
- TryTheorem.MeetsRight: the converse is false for whole procs (`TryFinally.RightByAccident`); what is exact for these is `TryTheorem.RightIff`.
- TryFinally.QuietTry: is for one `try`, after plain code, whose body and `finally` hold no handlers; for any other body that cannot raise the exact condition is that of `TryFinally.QuietFin`.
- TryGen.BProc.GenExceptBranches: recurses over the `except` branches where the compiler loops, because the length of the `else` part has to be known.
- TryGen.BProc.GenStmts: unnamed breaks (`p.breakIdx`) are taken to be resolved to their blocks; a label is emitted for every block, used or not; a break to an unknown symbol, which the compiler asserts away, is excluded by `StmtReady`.
- TryLang.World: what a called proc does under a raised error flag, `raise` without an argument, expressions with effects of their own, and called procs that take exceptions of their callers off the stack.
- The setjmp and C++ exception modes, safe points, `noSafePoints`, goto states of closure iterators.
- BTree.BTree.Pairs: requires different keys; for repeated keys the compiler's iterator reads past the last item, and `BTreeProof.EnumerationFits` says exactly when.
- BTreeSpec.Item: keys are integers with their usual order in place of a key type with a total `cmp`.
- IdTable.IdTable.Get: one generic table stands for `TIdTable` and `TIdNodeTable`, whose code is the same.
- StrTable.StrTable.IterateIdent: the table is not changed while it is being iterated.
- CaseProof.GenericRuns: like its companions speaks of values for which some branch matches; for other values a `case` without `else` is undefined, and NaN is not among the values.
- CaseCode.TooBig: subtracts unbounded integers, and `CaseCode.Ones` counts them up, where the compiler does so with 64-bit ones that can overflow (compiler/ccgstmts.nim:879-884, 896-909).
- CaseGen.NextPowerOfTwo: doubles in a loop where the library shifts.
- TypeProof.ResetClears: variants are modelled with separate places for each branch, while C overlays them; destructor-based sequences, C++ mode and types without a case in the source (floats, sets and ranges are not cleared) are left as they are.
- Dispatch.ModuleGraph.GenerateMethodDispatchers: single dispatch on the first parameter; nil checks and argument conversions of the dispatcher are not modelled.
- PartOf.IsPartOf: type comparison is a parameter; the heuristic on expressions (compiler/aliases.nim:66-199) is not modelled.
- SetCode.BigConstr: the runtime's `countBits32`, `countBits64` and `cardSet`, and the text of constant sets, are not part of this model.
- Linenoise.LineState.Run: completion, hints, single-line refresh, allocation failure and history files; an escape sequence cut off by the end of input counts as a read error; every byte fills one cell; nothing is said of the screen once a line, with its prompt, has needed more rows than the page has.
- Linenoise.HistoryBuffer.constructor: the default length of the history is a parameter.
- compiler/ccgmerge_unused.nim, lib/genode_cpp/syslocks.h, debug printers, name mangling and rope formatting.
