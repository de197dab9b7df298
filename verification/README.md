# Verified models of the tigr runtime

tigr is a small expression language with a bytecode compiler, a stack machine, a garbage-collected heap
per actor, message channels between actors, green threads inside one, and file and socket I/O that is
offloaded or driven by a reactor thread. This project models the parts of that runtime whose correctness
is hardest to see, and proves what they are for. `dafny verify dfyconfig.toml` checks everything.

## The compiler

`Ast`, `Meaning` and `Machine` define the language fragment, its meaning (a big-step evaluator whose
outcomes are a value, `break`, `continue`, `return` or a raised error, with fuel so that programs that
run for ever are covered) and the stack machine, opcode by opcode. The fragment has literals, names,
operators, short-circuit `and`/`or`, blocks, scopes, declarations that are hoisted out of expressions,
assignment, indexing, `if`, `while`, `while[]`, `for`, `for[]` with one or two variables, `break` with a
value (also chained, `break (break v)`), `continue`, `return`, `try`/`catch` and `raise`. The values' own
operations are parameters shared by both sides. Where meaning and compiler use the same definition, it is said
once more without it: `Hoisting` describes by paths through the syntax tree which declarations the pre-walk
hoists, and what a name means when its scope is entered; `Scoping` says which programs are accepted, and `Room`
when their slots and heights fit a byte, both of the syntax tree alone.

`Lowering` says what code the one-pass compiler emits; every emitted instruction is remembered together
with the stack height the compiler tracked there. `Emission` is the compiler in its own form: the class
`FuncCompiler` with its fields updated step by step and its jumps patched in place, each method proved to
append exactly the code `Lowering` describes and to record an error exactly when it should. `Simulation`
(on `SimulationBase`) proves that the code does what the source means, `Correctness` lifts that to whole
programs in both directions. `StackDiscipline` with `StackFlow` predicts the height of the stack at every
reachable instruction, and `Tracker` compares it with what the compiler's own tracker said there: they are
equal everywhere but at the jump of a `break` or `continue` whose `Unwind` cut the stack, of which the tracker
is not told. `Folding` covers constant folding before compilation, `Pipeline` composes folding, the compiler
object and the theorems about its code, and `Threading` covers the jump-threading pass on bytes; `Encoding` has
the instructions that these bytes spell. `Words` is 64-bit integer arithmetic bit by bit. `Upvalues` covers name
resolution across nested functions.

A program can break this: `break` or `continue` out of a `try` leaves the try-frame behind, because no
`PopTry` is emitted on that path and `Unwind` does not trim the frames. `TryEscape` compiles
`while true { try break }; raise 1`, which should fail with 1, and shows that the machine re-enters the dead
handler and stops with an internal failure; `Samples` does the same for a `continue`, with
`x := true; while x { x = false; try continue }; raise 1`. The theorems therefore require that jumps stay
inside their `try`. That is enough and not necessary: `while true { try break }; 5` leaves a handler behind and
returns 5 all the same.

## The heap

`Gc` is the mark-sweep collector: arenas with free lists and generation-checked handles, a worklist
marker, a sweep and the growth threshold, over arbitrary cyclic graphs. A collection panics exactly when a
stale handle is reachable and is otherwise exact. `Transfer` is the deep copy of values between heaps: the
encoder with its ancestor guard succeeds exactly on finite, sendable trees, and the copy looks like the original
from every side.

## Concurrency

Three subsystems are state machines over the steps of any number of threads, with every interleaving and
spurious wake-ups allowed: `Channels` (channels and `select`), `Offload` (the worker pool and the
completion mailboxes), and, for one actor, `Scheduling` (the run-queue and the four parked sets; the
class `Scheduler` has the code's own loops and each method equals a step). `Sockets` has the two
executors of a socket operation, the blocking one and the reactor's state machine, both proved against one
meaning, so that they agree however the bytes are cut up. `Reactor` is the reactor thread's op table, under any
course of closes, messages and events. `WakeOrder` says when the scheduler's wakes keep the order of waiting.

## Smaller refinements

`Files` proves the buffered file handle equal to one plain cursor, `DateTime` proves the closed calendar
formulas equal to the day-by-day Gregorian calendar (section 3.2.1 of ISO 8601:2004), `InstantWidth` says
which instants and dates they handle within 64 bits, and `Delimiters` and `Integers` hold what several modules
share.

## What turned out differently from what one might expect

- `break` out of a `try` is miscompiled (`TryEscape.BreakOutOfTryIsWrong`), and so is `continue`
  (`Samples.ContinueOutOfTryIsWrong`), though not every such program goes wrong
  (`TryEscape.BreakOutOfTryMayDoNoHarm`).
- The compiler's height tracker lags at the jump after the `Unwind` of a `break` or `continue`
  (`Samples.TrackerLags`): it is right there if and only if the stack already had the loop's base height. No
  harm comes of it, because the tracker is set to the entry height plus one directly after
  (`Tracker.BreakTracker`, `Tracker.ContinueTracker`), and everywhere else it is exact (`Tracker.TrackerIsExact`).
- The two executors differ on a closed socket in one case only: a `read_exact` of no bytes succeeds when
  run inline and is `closed` on the reactor (`Sockets.Socket.RunBlocking`, `Sockets.Socket.Advance`).
- A file seek that fails has already dropped the surplus buffer, so the position moves forward by exactly
  what was buffered, and stays if and only if nothing was (`Files.FileHandle.Seek`, `Files.FailedSeekKeeps`);
  `Files.FailedSeekMoves` is a handle whose position moves.
- Coroutines waiting for the same thing are not always woken in the order they began to wait: with three of
  them the third overtakes the second (`Scheduling.WakesOutOfOrder`). `Scheduling.WakesInOrder` says exactly
  for which sets of waiting coroutines the order is kept; if all of them match, only for two or fewer
  (`Scheduling.AllInOrder`).
- Handles repeat in a release build; in a debug build an assertion panics when a slot's generation comes round
  to 0 (`src/vm/gc.rs:240-244`), which the model leaves out. The handle a slot is given was issued before if and
  only if the slot has been freed 2^32 times (`Gc.Heap.Alloc`); a handle that resolves names the object it was
  issued for if and only if fewer than 2^32 frees of the slot lie between (`Gc.HandleNamesItsObject`), and a
  program that only makes and drops buffers gets there (`Gc.Churn`).
- A `close` can fail to wake a receiver or a blocked sender: the flag is set without the queue's lock, so the
  close and its notifications can fall between a thread's look at the flag and its wait
  (`Channels.CloseCanBeMissed`), and that is the only way it happens (`Channels.StrandedExactly`).
- The worker pool can have more workers than there were ever jobs at once: a worker that has posted its result
  and is not back at the queue yet does not count as idle, so that a second job brings a second worker
  (`Offload.SecondWorkerForOneJobAtATime`). `Offload.SubmitAddsAWorker` says exactly when a submission adds one,
  and exactly when the workers then stay within the jobs queued or being run.
- `to_ms` overflows on the way for the first, incomplete day of the 64-bit range, and only there, as far as
  parts of instants go (`InstantWidth.RoundTripFitsExactly`, `InstantWidth.EarliestInstantOverflows`). Where
  arithmetic wraps around, as in a release build, the answer is right all the same
  (`InstantWidth.RoundTripWraps`); where overflow is checked, it is a panic.

## Model

| member | source | states |
|---|---|---|
| Correctness.CompilePreservesMeaning | src/vm/compiler.rs:1078-1302 | the emitted code ends with a value or an error if and only if the source program does, with the same value or error and the same heap; so a program that runs for ever runs for ever |
| Correctness.NeverStuck | src/vm/opcode.rs:19-135 | no run of compiled code underflows the stack, reads a missing slot or leaves the code |
| Hoisting.HoistsWhatIsDeclared | src/vm/compiler.rs:900-1008 | the pre-walk of an expression finds a name if and only if a path of immediate subexpressions, through no scope, loop or handler, leads from it to a declaration of that name |
| Hoisting.HoistsWhatIsNested | src/vm/compiler.rs:1010-1036 | the pre-walk of a block finds a name if and only if such a path leads to its declaration from a statement or the tail, which is not that declaration itself |
| Hoisting.NamesOnEntry | src/vm/compiler.rs:1036-1070 | on entry to a scope a name reads as null if a declaration of it is nested in the scope, and as it did outside if none is |
| Hoisting.ScopeFromEntry | src/vm/compiler.rs:545-567 | a scope means its block, evaluated from that environment with those names assigned in place, with the bindings of the scope dropped at its end |
| Scoping.AcceptsExactly | src/vm/compiler.rs:628-754 | no error is recorded if and only if every name is read where it is visible, assigned where it is a local and declared once in its scope, the variables of a `for` differ, `break` and `continue` stand in a loop, and no scope closes over more than 255 slots |
| Room.FitsExactly | src/vm/compiler.rs:654-669 | an accepted program is compiled without narrowing a slot or height to a byte that does not hold it if and only if the stack, counted along the syntax tree, is low enough at every declaration, scope, loop and handler |
| Simulation.SimBlock | src/vm/compiler.rs:545-567 | code of a block, run from slots that hold the environment, leaves its value on top and the updated environment in its slots, raises the same error, or stands at the target loop's exit or head with the stack cut to its base and the result slot updated |
| Simulation.SimWhile | src/vm/compiler.rs:1952-2033 | the same for `while` and `while[]`, for any number of iterations and any way of leaving the loop |
| Simulation.SimFor | src/vm/compiler.rs:2085-2208 | the same for `for` and `for[]` over any iterator |
| Tracker.TrackerIsExact | src/vm/compiler.rs:787-870 | at every point of every run the stack is as high as the compiler tracked there, if and only if that is not the jump of a `break` or `continue` after an `Unwind` to another height, where it has the height of the `Unwind` and the tracker still the one before; the open try-frames are the recorded ones, each leading to a handler compiled for the height it restores |
| Tracker.BreakTracker | src/vm/compiler.rs:2258-2279 | the jump of a `break` is tracked at the height before its `Unwind`, which is right if and only if that is the base of its loop; what follows is tracked from one above it in any case |
| Tracker.ContinueTracker | src/vm/compiler.rs:2310-2316 | the same for the backward jump of a `continue` |
| Samples.TrackerLags | src/vm/compiler.rs:2258-2270 | a program that is compiled without error and reaches an instruction with a stack lower than tracked there |
| StackFlow.StackIsPredicted | src/vm/compiler.rs:787-870 | at every point of every run the stack has the height predicted for the next instruction, whatever path led there |
| StackFlow.ScopeClosesItsSlots | src/vm/compiler.rs:628-662 | when a scope ends its hoisted and declared locals fill exactly the slots between its base and its result, also inside a larger expression, so `CloseScope` drops them and nothing else |
| LoweringShape.FlatExpr | src/vm/compiler.rs:906-1074 | because nested declarations are hoisted, an expression inside another leaves the locals alone and raises the tracked height by one |
| TryEscape.BreakOutOfTryIsWrong | src/vm/compiler.rs:2210-2273 | a program with `break` out of a `try` that compiles without error and means one thing, while its code ends in an internal failure: why the theorems exclude that form |
| TryEscape.BreakOutOfTryMayDoNoHarm | src/vm/compiler.rs:2210-2273 | a program with `break` out of a `try` whose code returns what the program means: the exclusion is sufficient, not necessary |
| Samples.ContinueOutOfTryIsWrong | src/vm/compiler.rs:2282-2316 | the same failure for a `continue` out of a `try` |
| Emission.CompileSource | src/vm/compiler.rs:302-366 | the imperative compiler yields code exactly when the program has no recorded error, and then the specified code, instruction by instruction, with no jump left unpatched |
| Pipeline.FoldAndCompile | src/vm/mod.rs:120-139 | the instructions the compiler object returns for the folded program end exactly as the program as written means, on any operations that do arithmetic as the machine does, and run without a missing operand or slot at the tracked heights |
| Pipeline.FoldKeepsJumpsBlock | src/vm/fold.rs:44-186 | folding neither adds nor removes a jump out of a `try` or out of every loop |
| Emission.FuncCompiler.CompileExpr | src/vm/compiler.rs:1078-1525 | appends exactly the specified code, ends with the specified tracked height and locals, changes nothing else, and records an error if and only if the specification has one |
| Emission.FuncCompiler.CompileWhile | src/vm/compiler.rs:1952-2033 | the same with forward jumps patched after the fact and the loop's breaks patched to its exit |
| Emission.FuncCompiler.CompileFor | src/vm/compiler.rs:2085-2208 | the same, with the iterator below the iteration variables |
| Emission.FuncCompiler.CompileBreak | src/vm/compiler.rs:2210-2280 | the same; the value is compiled with its target loop skipped, so that a nested `break` aims at the next loop out |
| Emission.FuncCompiler.CompileContinue | src/vm/compiler.rs:2282-2335 | the same for `continue` |
| Emission.FuncCompiler.CompileIf | src/vm/compiler.rs:1607-1643 | the same; both branches end at one tracked height |
| Emission.FuncCompiler.CompileShort | src/vm/compiler.rs:1577-1605 | the same for `and` and `or` |
| Emission.FuncCompiler.CompileTry | src/vm/compiler.rs:2337-2385 | the same; the handler starts at the height the frame restores |
| Emission.FuncCompiler.CompileScope | src/vm/compiler.rs:623-661 | the same, including the hoisting prologue |
| Emission.FuncCompiler.EndScope | src/vm/compiler.rs:628-661 | the scope's locals go, and `CloseScope` counts exactly them |
| Emission.FuncCompiler.DeclareLocalAt | src/vm/compiler.rs:674-700 | adds the local in any case; a name the innermost scope has already is recorded as an error, and only that |
| Emission.FuncCompiler.PatchJump | src/vm/compiler.rs:2799-2809 | one pending jump gets the distance to the end of the code; every other instruction stays |
| Emission.FuncCompiler.EmitHoistPrologue | src/vm/compiler.rs:1040-1070 | one null slot for each distinct hoisted name, in order of first occurrence |
| Folding.FoldPreservesMeaning | src/vm/fold.rs:44-186 | a folded program has the same outcome as the original, for every fuel |
| Folding.FoldThenCompile | src/vm/fold.rs:22-35 | code compiled from the folded program ends as the program as written does, and only then |
| Folding.FoldsWhatTheVmComputes | src/vm/fold.rs:201-282 | two literals fold exactly when the machine would compute a value, and to that value; whatever would overflow, divide by zero or shift out of range stays |
| Folding.FoldsUnaryWhatTheVmComputes | src/vm/fold.rs:284-296 | the same for unary operators |
| Folding.FoldsNothingElse | src/vm/fold.rs:189-282 | any other pair of operands is left alone |
| Folding.FoldsNothingElseUnary | src/vm/fold.rs:284-296 | any other operand of a unary operator is left alone |
| Folding.FoldsExactly | src/vm/fold.rs:205-226 | sums, differences, products and negations of integers fold to the mathematical ones exactly where those fit 64 bits |
| Folding.FoldsQuotient | src/vm/fold.rs:229-250 | for the quotient and remainder toward zero, whichever way they are found: `%` folds to the remainder, `/` to the quotient if it is exact and fits, and to a float if it is not exact |
| Folding.FoldsBitByBit | src/vm/fold.rs:263-265 | bitwise and, or and exclusive or fold to the 64-bit integer each of whose bits is that combination of the operands' bits |
| Folding.FoldsShifts | src/vm/fold.rs:266-296 | `~x` folds to -x - 1, `x >> y` to x divided by 2^y and rounded down, `x << y` to x times 2^y modulo 2^64; shifts out of range stay |
| Folding.NothingLeftToFold | src/vm/fold.rs:44-186 | however deep one looks into a folded expression there is no operator on literals that fold, and no literal in parentheses |
| Folding.NothingLeftInBlock | src/vm/fold.rs:26-35 | the same of a folded block |
| Words.BitwiseIsBitByBit | src/vm/vm.rs:4468-4487 | each bit of a bitwise and, or or exclusive or is that combination of the operands' bits, and the result is a 64-bit integer |
| Words.NotNegates | src/vm/vm.rs:4520-4531 | turning every bit of x over gives -x - 1 |
| Words.ShrDivides | src/vm/vm.rs:4512-4518 | moving the bits down and repeating the sign divides by a power of two and rounds down |
| Words.ShlMultiplies | src/vm/vm.rs:4505-4510 | moving the bits up multiplies by a power of two, modulo 2^64 |
| Folding.MinByMinusOne | src/vm/fold.rs:225-245 | the smallest integer divided by -1 is not folded, its remainder by -1 is folded to 0 |
| Folding.QuotientFits | src/vm/fold.rs:229-238 | a quotient leaves the 64-bit range exactly when the checked remainder fails |
| Folding.FoldKeepsHoistsBlock | src/vm/fold.rs:26-35 | folding moves and removes no declaration |
| Threading.Chunk.ThreadJumps | src/vm/chunk.rs:294-324 | one pass in place: every forward jump ends where the chain of unconditional jumps from its target ended, if the distance fits 32 bits, and no other byte changes; the hop cap never binds |
| Threading.BoundariesStay | src/vm/chunk.rs:276-292 | an offset is an instruction boundary after the pass if and only if it was before |
| Threading.ThreadedLands | src/vm/chunk.rs:294-324 | every new target is a boundary within the code |
| Threading.ThreadingIsIdempotent | src/vm/chunk.rs:294-324 | a second pass changes nothing |
| Threading.NoChainIsLeft | src/vm/chunk.rs:288-324 | after the pass no forward jump leads to an unconditional one |
| Encoding.BoundariesAreInstructions | src/vm/chunk.rs:273-286 | in the bytes of any instructions the walk by instruction lengths stops exactly where an instruction ends |
| Encoding.InstructionIsRead | src/vm/opcode.rs:354-374 | wherever an instruction stands, its length and its distance are read back from its bytes, and it is threaded exactly if it is one of the four forward jumps |
| Threading.ThreadingPreservesExecution | src/vm/chunk.rs:294-324 | threaded code visits the same instructions, unconditional jumps aside, in the same states and order, for any machine and any run |
| Threading.VisitsAreSteps | src/vm/chunk.rs:294-324 | each visited state is a state of the ordinary run |
| Threading.StepsAreVisits | src/vm/chunk.rs:294-324 | each state of the ordinary run settles to a visited one |
| Threading.PatchThenRead | src/vm/chunk.rs:135-149 | reading back a patched operand gives the patched number and leaves other bytes alone |
| Upvalues.Compiler.ResolveIn | src/vm/compiler.rs:702-754 | at any nesting depth the emitted chain of upvalues leads to the local of that name in the nearest enclosing function that has one, and there to the newest: no later one has the name; a global is its first position among globals and host globals, and that or an unknown name is reported exactly if no enclosing function has such a local; every later lookup, from any function of the nest, finds what it would have found before |
| Upvalues.SameLexical | src/vm/compiler.rs:702-778 | captures change nothing for lexical lookup, from any function and for any name |
| Upvalues.Compiler.AddUpvalue | src/vm/compiler.rs:756-778 | an upvalue that exists is found and nothing changes; a new one goes to the end |
| Upvalues.EmittedIndexIsStable | src/vm/compiler.rs:756-778 | an index emitted earlier still leads to the same slot after any number of later captures |
| Gc.Heap.Alloc | src/vm/gc.rs:174-188 | the slot freed last is used, or a new one; the handle resolves to the payload, and no live object is disturbed; the handle was issued before if and only if its slot has been freed 2^32 times |
| Gc.Heap.Cell | src/vm/gc.rs:190-206 | answers exactly for handles of live objects of that generation |
| Gc.Marker.Mark | src/vm/gc.rs:210-229 | marks and queues a live unmarked object once, and reports exactly the stale handles |
| Gc.Marker.Run | src/vm/gc.rs:514-562 | the worklist loop ends, and marks exactly what is reachable if no stale handle is |
| Gc.Heap.Sweep | src/vm/gc.rs:233-255 | frees exactly the live unmarked slots, clears every mark, bumps the generations of what it frees |
| Gc.Heap.Collect | src/vm/gc.rs:707-724 | completes exactly when no stale handle is reachable, and then a slot is freed if and only if it was live and unreachable, reachable meaning by a path of objects each of which holds the next in an element, a captured variable, a closed upvalue, a result or the collection it iterates over; survivors keep payload and generation; counters and threshold follow |
| Gc.TracesWhatIsOwned | src/vm/gc.rs:598-702 | tracing an object reports a handle if and only if the object holds it |
| Gc.LiveAfter | src/vm/gc.rs:707-724 | after a collection a handle resolves if and only if it did and was reachable, and to the same slot |
| Gc.CollectionKeepsReachability | src/vm/gc.rs:707-724 | reachability is the same before and after, so a second collection frees nothing |
| Gc.HandleNamesItsObject | src/vm/gc.rs:190-206 | for every handle ever issued, over any run: it resolves exactly when its slot is live and the frees since its issue are a multiple of 2^32, and then names the object it was issued for if and only if they are fewer than 2^32 |
| Gc.IssuedAgain | src/vm/gc.rs:174-188 | the next handle of a free slot was issued before if and only if the slot has been freed 2^32 times |
| Gc.OldHandleResolves | src/vm/gc.rs:190-206 | a live slot freed that often has an old handle that resolves to an object it was not issued for |
| Gc.Churn | src/vm/gc.rs:174-255 | a program that makes and drops one buffer n times: its first handle resolves again exactly when n is a multiple of 2^32, and names the first buffer only if n is 0 |
| Transfer.Encode | src/vm/transfer.rs:143-262 | ends on every graph; succeeds if and only if no path from the value comes back to a container or meets something unsendable, and then gives the value's tree; an error names the cause |
| Transfer.UnfoldingIsUnique | src/vm/transfer.rs:156-262 | a value has at most one tree |
| Transfer.UnfoldsIsClean | src/vm/transfer.rs:156-262 | a value that has a tree has neither a cycle nor an unsendable part below it |
| Transfer.Store.Decode | src/vm/transfer.rs:275-324 | the decoded value has exactly the given tree, built from new objects only; the old heap is untouched |
| Transfer.Send | src/vm/transfer.rs:143-324 | encode then decode: the copy has the original's tree and looks like the original whichever way one goes into it, and every object in it is new to the receiver's heap; on an error that heap is unchanged |
| Transfer.SameTreeLooksAlike | src/vm/transfer.rs:143-324 | of two values with one tree, in whatever heaps: whichever way one goes into them, by position, one comes to the same primitive, bytes, keys in the same order, length, code or shared handle; and nothing in the copy is older than the copying |
| Channels.ChannelsAreSafe | src/vm/channel.rs:61-207 | over any interleaving, a close between the look at the flag and the wait included, sent messages are the received ones followed by the buffer, bounds hold, `Closed` is only told when drained, and a selector parked un-notified although one of its channels holds a message, or was closed since its scan found it open, or all are closed, has a sender or closer on its way to wake it |
| Channels.ReceiversAreServed | src/vm/channel.rs:61-97 | over any interleaving: while a receiver sleeps un-notified the buffer holds no more messages than there are notified or entering receivers and senders between push and `notify_one`; if it holds any, one of those is on its way |
| Channels.SendersAreServed | src/vm/channel.rs:61-108 | over any interleaving: while a sender sleeps un-notified on an open bounded channel there are no more free places than notified or entering senders and receivers or selectors between pop and `notify_one`; if there is any, one of those is on its way |
| Channels.ClosedIsFinal | src/vm/channel.rs:80-118 | once a receiver was told `Closed` no send on that channel ever succeeds |
| Channels.NoDeadlock | src/vm/channel.rs:173-207 | if any thread is in the middle of an operation, some such thread can take a step |
| Channels.HoldersGoOn | src/vm/channel.rs:143-207 | a thread that holds a channel's lock never waits for a lock |
| Channels.StrandedExactly | src/vm/channel.rs:61-118 | a step leaves a thread asleep on a closed channel with no notification to come if and only if it is the thread's own step into the wait, after the flag was set and the notifications were sent |
| Channels.CloseCanBeMissed | src/vm/channel.rs:80-118 | a run that ends with a receiver asleep on a channel that is closed and whose closer has finished |
| Offload.StrandsNoJob | src/vm/offload.rs:263-302 | below the cap queued jobs never outnumber notified and freshly spawned workers and notifications on their way; at the cap a queue that is not empty has a worker that will look at it; workers never exceed the cap |
| Offload.EachJobOnce | src/vm/offload.rs:263-302 | each submitted job is in exactly one place: queued in order, run by one worker, or posted once to its own actor |
| Offload.EveryJobCanBePosted | src/vm/offload.rs:188-211 | from every reachable state some list of takes, finishes and notifications, each possible in its turn, ends with any given job posted |
| Offload.PoolGoesOn | src/vm/offload.rs:188-211 | while a job is not posted some worker or notification can take a step, and an actor asleep at its mailbox has missed nothing |
| Offload.SubmitAddsAWorker | src/vm/offload.rs:263-284 | in every reachable state a submission adds a worker exactly if the cap leaves room and the queued jobs, with the new one, outnumber the waiting and woken workers; the workers then stay within the jobs queued or being run if and only if every worker that ran none had a queued one to take |
| Offload.SecondWorkerForOneJobAtATime | src/vm/offload.rs:263-302 | a run with two workers though at no time more than one job was queued or being run |
| Sockets.Socket.RunBlocking | src/vm/reactor.rs:95-141 | on an open socket any operation answers what its meaning allows and leaves the stream and the written bytes accordingly, an I/O error exactly if a system call failed; exactly what it does on a closed one |
| Sockets.Socket.Advance | src/vm/reactor.rs:183-329 | one pass either finishes with an allowed answer, or only moves bytes between stream, operation and wire; a closed socket always answers `closed` |
| Sockets.Socket.ReadUntilStep | src/vm/reactor.rs:338-360 | finds exactly the next piece of the stream, and while pending keeps the stream |
| Sockets.Socket.Drive | src/vm/reactor.rs:183-329 | any number of passes, however reads are cut and would-blocks fall, answers what one uninterrupted operation may answer; `write` puts each byte on the wire once, in order |
| Sockets.PassIsSilent | src/vm/reactor.rs:183-329 | what may follow an unfinished pass may follow from the start |
| Sockets.RunBoth | src/vm/reactor.rs:95-329 | one operation run by both executors on two sockets at the same point of a stream: an I/O error exactly where a system call failed, and otherwise the same answer and the same sockets after it, unless a write took nothing; for a single `read`, pieces of the same stream |
| Sockets.ExecutorsAgree | src/vm/reactor.rs:95-329 | the meaning of an operation other than a single `read` allows one answer and one remaining stream if no system call fails and no write takes nothing |
| Sockets.ReadsALine | src/vm/native_modules/net.rs:141-163 | reading a line answers it without its `\n` or `\r\n`, or what is left at the end of the stream without a last `\r`, and leaves exactly what follows |
| Reactor.OpTable.StartOp | src/vm/reactor.rs:489-563 | a submitted operation is registered under a new key or answered once: with the payload or error it completed with, with an I/O error if a system call failed, or as of the wrong kind; on a closed socket it is never registered |
| Reactor.OpTable.AdvanceToken | src/vm/reactor.rs:568-614 | a stale event changes nothing; any other leaves the entry, or removes it and posts the payload or error the operation completed with, or an I/O error if a system call failed |
| Reactor.OpTable.CancelSocket | src/vm/reactor.rs:620-638 | exactly the socket's entries go, each answered with `closed` |
| Reactor.OpTable.Turn | src/vm/reactor.rs:444-485 | over any batch each submitted job is in the table once or has been answered once, and a cancelled closed socket has no entry and gets none again |
| Reactor.OpTable.HandleAll | src/vm/reactor.rs:444-638 | over any course of closes, messages and events each submitted job is in the table once or was answered once, and a socket that was closed and then cancelled has no entry, however much follows |
| Scheduling.SweepIsExact | src/vm/scheduler.rs:270-281 | a wake takes out exactly the matching coroutines, each once |
| Scheduling.WakesInOrder | src/vm/scheduler.rs:270-281 | for any set of distinct waiting coroutines: with n of them, and matches at positions h[0] < h[1] < ..., the matches are woken in the order of waiting if and only if for every j >= 1 the entry at n - j is no match or h[j] >= n - j |
| Scheduling.AllInOrder | src/vm/scheduler.rs:270-281 | if all match, the order is kept if and only if there are two or fewer |
| Scheduling.WakesOutOfOrder | src/vm/scheduler.rs:270-281 | three matching coroutines come out first, third, second |
| WakeOrder.ScanOrder | src/vm/scheduler.rs:270-281 | the same condition on positions alone, for the loop from any index on |
| Scheduling.Conserves | src/vm/scheduler.rs:242-456 | no operation loses or doubles a coroutine |
| Scheduling.CoroutinesAreConserved | src/vm/scheduler.rs:198-456 | over any run each live coroutine is in exactly one of running, ready and the four parked sets, and no other is anywhere |
| Scheduling.DeliveredOnce | src/vm/scheduler.rs:242-249 | a ready coroutine keeps the one outcome it was given until its turn, which comes after those ahead of it |
| Scheduling.LateCompletionIsIgnored | src/vm/scheduler.rs:294-305 | after a coroutine's I/O wait was cancelled it is ready with its own id and stack and null, and that job's completion changes nothing, whatever has happened in between |
| Scheduling.CompletionIsDeliveredOnce | src/vm/scheduler.rs:294-305 | a job's completion makes the coroutine that waits for it ready, with its own id and stack and that outcome; another one for it changes nothing, whatever has happened in between |
| Scheduling.JoinersGetTheOutcome | src/vm/scheduler.rs:270-281 | exactly the coroutines that join the finished one leave their set, each queued once with its own id and stack and that outcome; all others stay as they were |
| Scheduling.SleepersGetNull | src/vm/scheduler.rs:323-340 | the same for those whose wake time has come, with null |
| Scheduling.AwaitersGetTheOutcome | src/vm/scheduler.rs:356-367 | the same for those that await the settled deferred, with its outcome |
| Scheduling.CancelGivesNull | src/vm/scheduler.rs:422-456 | a cancel takes one parked coroutine with that id out, queued with its own stack and null; if none has it nothing changes |
| Scheduling.Scheduler.WakeJoinersOf | src/vm/scheduler.rs:270-281 | the loop over swapped-in entries does what the step says |
| Scheduling.Scheduler.Cancel | src/vm/scheduler.rs:422-456 | takes the coroutine out of the first set that holds it, and reports whether one did |
| Scheduling.Scheduler.StackOf | src/vm/scheduler.rs:481-490 | finds the stack of a coroutine in any of the five places, or none has that id |
| Files.FileHandle.ReadChunk | src/vm/file_handle.rs:182-194 | the next bytes of the file, at most as many as asked, none only at the end; an I/O error exactly if a system call failed |
| Files.FileHandle.ReadExact | src/vm/file_handle.rs:198-217 | exactly the next bytes, or `eof` with everything up to the end consumed; an I/O error exactly if a system call failed |
| Files.FileHandle.ReadUntil | src/vm/file_handle.rs:222-240 | everything up to the first delimiter, or the rest, or the end; an I/O error exactly if a system call failed, and it loses nothing |
| Files.FileHandle.ReadAll | src/vm/file_handle.rs:244-250 | the rest of the file |
| Files.FileHandle.Seek | src/vm/file_handle.rs:285-299 | the next read is at the given position; a seek that fails in the system call moves the position by exactly the surplus, so keeps it if and only if there is none |
| Files.FailedSeekKeeps | src/vm/file_handle.rs:285-299 | throwing the surplus away moves the position by its length, and keeps it if and only if it is empty |
| Files.FailedSeekMoves | src/vm/file_handle.rs:222-299 | a handle that has read one line of two bytes and received three stands at 2, and after a failed seek at 3 |
| Files.FileHandle.Tell | src/vm/file_handle.rs:304-310 | the logical position |
| Files.FileHandle.PerformAll | src/vm/file_handle.rs:155-310 | any sequence of operations, with short reads of any size, is a run of one plain cursor; if no system call fails, one without failures |
| Files.ReadsAreTheFile | src/vm/file_handle.rs:155-250 | however reads of all kinds are mixed, their answers joined are the file from where they began |
| Files.ClosedStaysClosed | src/vm/file_handle.rs:129-135 | after `close` every operation fails and changes nothing |
| Delimiters.FoundIsFinal | src/vm/file_handle.rs:222-240 | a delimiter seen in the buffer stays the first one when more bytes arrive |
| Delimiters.PiecesAreTheStream | src/vm/socket.rs:511-529 | reading delimited pieces to the end gives the whole stream, and only the last piece may lack its delimiter |
| DateTime.DatesFollow | src/vm/native_modules/datetime.rs:48-59 | the date of the next day is the calendar's next date, for every day |
| DateTime.DayRoundTrip | src/vm/native_modules/datetime.rs:38-59 | every day has a valid date that leads back to it |
| DateTime.DateRoundTrip | src/vm/native_modules/datetime.rs:38-59 | every valid date comes back from its day |
| DateTime.NextIsOneMore | src/vm/native_modules/datetime.rs:38-46 | the calendar's next date has the next day number |
| DateTime.InstantRoundTrip | src/vm/native_modules/datetime.rs:73-88 | the parts of any instant are in range and give it back, also before the epoch |
| DateTime.FieldsRoundTrip | src/vm/native_modules/datetime.rs:73-163 | a date and a time of day, given in full or in part, come back from their instant, the fields left out being those of 1970-01-01 00:00:00.000 |
| InstantWidth.RoundTripFitsExactly | src/vm/native_modules/datetime.rs:38-163 | for every 64-bit instant the parts are computed within 64 bits, and the way back is if and only if the instant is at least -9223372036828800000 |
| InstantWidth.EarliestInstantOverflows | src/vm/native_modules/datetime.rs:142-163 | the smallest instant lies in day -106751991168, whose product with the length of a day is below the range |
| InstantWidth.ToMsFitsExactly | src/vm/native_modules/datetime.rs:142-163 | for a date and time of the calendar, no value on the way to an instant leaves 64 bits if and only if the instant meant is within the range and not in its first, incomplete day |
| InstantWidth.DatesThatFit | src/vm/native_modules/datetime.rs:142-163 | those dates and times are the ones from -292275055-05-17 to 292278994-08-17 at 07:12:55.807 |
| InstantWidth.DaysInOrder | src/vm/native_modules/datetime.rs:38-46 | one valid date comes before another if and only if its day number is smaller |
| InstantWidth.WrappingIsHarmless | src/vm/native_modules/datetime.rs:142-163 | given the day number, products and sums that wrap around give the right instant if and only if it is a 64-bit one |
| InstantWidth.RoundTripWraps | src/vm/native_modules/datetime.rs:73-163 | with such arithmetic every 64-bit instant comes back from its parts |
| DateTime.WeekAndYear | src/vm/native_modules/datetime.rs:73-88 | weekdays run through the week; the day of the year is 1 on January 1st, grows by one a day, and ends with the year's length |
| DateTime.Epoch | src/vm/native_modules/datetime.rs:38-59 | day 0 is Thursday, 1970-01-01 |
| DateTime.EraIsFloor | src/vm/native_modules/datetime.rs:40-50 | the guarded truncating division rounds down |
| Integers.TruncatedDivision | src/vm/fold.rs:225-245 | quotient and remainder of truncating division: they recompose, the remainder is small and has the dividend's sign |
| Integers.TruncatedIsUnique | src/vm/fold.rs:225-245 | they are the only pair with these properties |

## Left out

- Correctness.CompilePreservesMeaning: functions, calls, tail calls, closures, patterns, `match`, ranges, array and object literals, spread, templates, imports, generators, `spawn` and `go` are not in the fragment; operands are those of instructions, not bytes, so the constant pool and the wide-constant forms are not modelled; excludes programs in which `break` or `continue` leaves a `try`, which is sufficient and not necessary (see `TryEscape.BreakOutOfTryIsWrong` and `TryEscape.BreakOutOfTryMayDoNoHarm`), and programs whose slots, heights or counts do not fit their byte operands, for which the compiler silently narrows.
- Pipeline.FoldAndCompile: stops short of the bytes, so jump threading is not part of the composition; its condition on byte operands is that of the folded program.
- Scoping.AcceptsExactly: is about the fragment; the original stops at the first scope that closes over too many slots.
- Emission.CompileSource: the original stops at `TooManyLocals`, while the model records it and goes on; the program is rejected either way. Jumps too far for 32 bits and too many constants are not modelled.
- Folding.FoldPreservesMeaning: the original rewrites the tree in place; here folding is a function on trees. Floating-point operations are any functions shared by the folder and the machine.
- Gc.Heap.Sweep: the debug build's assertion that no generation wraps around is not modelled.
- Gc.Heap.Collect: the twelve arenas are one map by kind, payloads are what tracing sees of them, roots are a list, and slot indices are not truncated to 32 bits; borrow flags are not modelled.
- Transfer.Encode: bytecode and constants of functions are a number; shared handles are numbers, so reference counts are not modelled.
- Channels.ChannelsAreSafe: does not claim that `close` wakes a blocked `recv` or bounded `send`, because it may not (see `Channels.CloseCanBeMissed`). Atomics are sequentially consistent.
- Offload.EveryJobCanBePosted: the steps can be taken, but fair scheduling of threads is not modelled; jobs themselves are taken to finish.
- Sockets.Socket.RunBlocking: TLS, `accept` and UDP are not modelled, and a read line is compared before its UTF-8 decoding, which both executors share; a concurrent `close` during a blocking operation is not modelled.
- Sockets.RunBoth: both sockets are open, and nobody closes them meanwhile; the reactor may not have an answer yet.
- Reactor.OpTable.HandleAll: keys do not wrap after 2^64 operations; mailboxes are one list of posts; calls of the poller succeed or fail arbitrarily; a close during one pass is a close before or after it.
- Scheduling.Scheduler.WakeDueTimers: wake times are reals or before all time; NaN is not modelled.
- Scheduling.CoroutinesAreConserved: ids do not wrap at 32 bits.
- Files.FileHandle.PerformAll: writing and `read_line`'s decoding are not modelled; the file does not change while it is read.
- InstantWidth.ToMsFitsExactly: is about dates and times of the calendar; `to_ms` also takes months, days and hours outside it, where a sum can leave 64 bits elsewhere.
- Formatting and parsing of dates.
- Lexer, parser, REPL, embedding interface, language server, error rendering, bundled standard library.
- The rest of the bytecode interpreter: calls, closures, iterators and natives enter as parameters or not at all.
