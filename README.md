# aoc-2019-rs in Dafny: the IntCode CPU, FFT, crossed wires and passwords

This project models the core of a Rust Advent of Code 2019 repository and proves
properties of the model.

- **IntCode CPU** (`intcode/src/lib.rs`), in three modules:
  - `IntCodeMachine` is the machine as a value. `Machine` holds the CPU's fields. There is one function per helper (`Params`, `Load`, `ResolveAddress`, `Peek`, `Poke`, `Binary`, `Read`, `Write`, `JumpIf`, `Rel`). `Exec` is the `match op` of `run`, `Step` is one loop iteration, and `RunSpec` is the whole `run` under a fuel bound.
  - `IntCode` has the class `IntCodeCPU`, with the source's fields and one method per Rust method. Each method's contract ties its new state and result to the matching `IntCodeMachine` function through `State()`.
  - `IntCodeFacts` holds the lemmas: decoding, per-opcode effects, halting, waiting on input, monotonicity, and two example programs.
- **Flawed frequency transmission** (`d16/src/main.rs`, module `Fft`):
  - `fft` and `fft2` are imperative methods proved against `FftSpec` and `Fft2Spec`. `vec2int`, the ten-thousand-fold signal and the offset drain are modelled too.
  - The lemmas prove that the suffix-sum shortcut equals the full transform on the back half of the signal.
- **Crossed wires** (`d03/src/main.rs`, module `Wires`):
  - `trace_wire` has its three error cases in the source's order. The model also covers the intersection of the wires, the nonzero distances and the summed first-step counts of `main`.
  - Lemmas prove the shape of a trace: it starts at the origin, has one point per unit step, and each point is one unit from the one before in the direction of its move. They also prove round-trips of the count parsing and which answers `main` returns.
- **Passwords** (`d04/src/main.rs`, module `Passwords`):
  - `is_valid`, `contains_one_pair` and the counting loop of `main`.
  - The sort-and-compare of `is_valid` is proved equivalent to "non-decreasing".
  - For non-decreasing digits, "some digit repeats" is proved equivalent to "two adjacent digits are equal".

Shared modules:
- `Wrappers`: `Option` and `Result`.
- `Numbers`: `Abs`, `Min`, `Max`, `Pow10` and division facts.
- `Decimal`: digit strings, their values, and `to_string` of a natural number.

Every panic of the source becomes an explicit error value (`Fault`, `WireError`, `SolveError`, or `None` for the slicing panics of d16's `main`), except those listed under "## Left out".

## Model

| member | source | states |
|---|---|---|
| IntCodeMachine.Quot | intcode/src/lib.rs:95 | `instr /= 100` rounds toward zero: on negative words it is the negated quotient of the absolute value |
| IntCodeMachine.Rem | intcode/src/lib.rs:93 | `instr % 100` pairs with `Quot` (`a == b*q + r`), lies strictly between `-b` and `b`, and takes the sign of the word |
| IntCodeMachine.Digits | intcode/src/lib.rs:97-100 | the mode list holds decimal digits only; it is empty for a word `<= 0`; for a positive word its last digit is nonzero |
| IntCodeMachine.ModeAt | intcode/src/lib.rs:220 | a mode digit that is present is used; a missing one counts as 0 (`unwrap_or(&0)`) |
| IntCodeMachine.Params | intcode/src/lib.rs:215-217 | the slice exists exactly when `ip + 1 + n` is within memory; it then holds the `n` words after `ip`; otherwise the fault is `OutOfBounds` |
| IntCodeMachine.Peek | intcode/src/lib.rs:227-229 | reading succeeds exactly for an address inside memory and returns that cell; otherwise `OutOfBounds` |
| IntCodeMachine.ResolveAddress | intcode/src/lib.rs:239-247 | mode 0 gives the parameter, mode 2 gives parameter plus `rel_offset`, and any other mode is `InvalidMode` |
| IntCodeMachine.Load | intcode/src/lib.rs:219-225 | mode 1 returns the raw parameter; modes 0 and 2 read the resolved address without growing memory; any other mode is `InvalidMode` |
| IntCodeMachine.Poke | intcode/src/lib.rs:231-237 | new length `max(old, addr+1)`; the cell holds the value; every other old cell is unchanged; every added cell is 0 |
| IntCodeMachine.Store | intcode/src/lib.rs:231-237 | a write succeeds exactly for a non-negative address and changes only memory, as `Poke` does |
| IntCodeMachine.RunSpec | intcode/src/lib.rs:31-87 | a run always ends stopped: with a value, waiting, a fault, or out of fuel |
| IntCodeMachine.Initial | intcode/src/lib.rs:19-29 | the machine `build` makes: memory and input as given, ip and relative base 0, not halted, no output and no modes |
| IntCodeMachine.Decode | intcode/src/lib.rs:89-103 | the opcode lies in `-99..99` and is `word % 100` for a non-negative word; the modes are decimal digits and there are none below 100 |
| IntCodeMachine.Fetch | intcode/src/lib.rs:89-90 | `memory[ip]` is decoded when ip is inside memory; otherwise the index panics (`OutOfBounds`) |
| IntCodeMachine.Binary | intcode/src/lib.rs:105-205 | `add`, `mul`, `lt`, `eq` change only memory, never shrinking it; missing parameters are `OutOfBounds` |
| IntCodeMachine.Apply | intcode/src/lib.rs:113-204 | the value written: `v1 + v2` for add (never changed by adding 0), `v1 * v2` for mul (0 when either is 0), and for `lt`/`eq` only 0 or 1, with 1 exactly when `v1 < v2` or `v1 == v2` |
| IntCodeMachine.Read | intcode/src/lib.rs:127-141 | empty input is the WaitingOnInput interrupt; otherwise only memory changes and exactly the head of the input is removed |
| IntCodeMachine.Write | intcode/src/lib.rs:143-149 | only the output changes, by exactly one value appended at the end |
| IntCodeMachine.JumpIf | intcode/src/lib.rs:151-175 | `jump_if_true` and `jump_if_false` change only ip |
| IntCodeMachine.Rel | intcode/src/lib.rs:207-213 | `rel` changes only the relative base |
| IntCodeMachine.Advance | intcode/src/lib.rs:39-74 | after a helper that returned normally the loop keeps running with `ip += width`; a helper's panic stops it with the old state |
| IntCodeMachine.Exec | intcode/src/lib.rs:38-83 | only opcodes 1..9 keep running; a stopping arm other than 99 leaves the state as it was; 99 sets `halted`; any other opcode is the `Invalid op` panic |
| IntCodeMachine.Step | intcode/src/lib.rs:32-83 | one loop iteration: an ip outside memory stops with `OutOfBounds`; running on means an opcode in 1..9; stopping leaves memory, input and output as they were |
| IntCode.RunUnfold | intcode/src/lib.rs:32-84 | one loop iteration: when a step keeps running, the run continues from its result with one less fuel; otherwise the step's effect is the run's result |
| IntCode.AppendDigit | intcode/src/lib.rs:97-100 | pushing `instr % 10` and dividing by 10 preserves the pending list of digits |
| IntCode.IntCodeCPU.Build | intcode/src/lib.rs:19-29 | the new CPU is `Initial(memory, input)`: memory and input as given, `ip == 0`, `rel_offset == 0`, not halted, empty output |
| IntCode.IntCodeCPU.Run | intcode/src/lib.rs:31-87 | the exit and the new state are exactly what `RunSpec` gives for the old state |
| IntCode.IntCodeCPU.Dispatch | intcode/src/lib.rs:38-83 | the `match op` changes the state and returns the status exactly as `Exec` does |
| IntCode.IntCodeCPU.GetInstruction | intcode/src/lib.rs:89-103 | the decoded opcode and modes are `Fetch` of the current state, with `OutOfBounds` for an ip outside memory |
| IntCode.IntCodeCPU.ModeDigits | intcode/src/lib.rs:95-100 | the digit loop yields `Digits(n)` |
| IntCode.IntCodeCPU.Binary | intcode/src/lib.rs:105-125 | `add`/`mul` (and `lt`/`eq`) leave the state `Binary` gives; on a fault the state is unchanged |
| IntCode.IntCodeCPU.Read | intcode/src/lib.rs:127-141 | it reports waiting with nothing changed on empty input; otherwise it leaves the state `Read` gives; on a fault the state is unchanged |
| IntCode.IntCodeCPU.Write | intcode/src/lib.rs:143-149 | the new state is `Write` of the old; on a fault the state is unchanged |
| IntCode.IntCodeCPU.JumpIf | intcode/src/lib.rs:151-175 | `jump_if_true`/`jump_if_false` set ip as `JumpIf` does; on a fault the state is unchanged |
| IntCode.IntCodeCPU.Rel | intcode/src/lib.rs:207-213 | the relative base moves as `Rel` says; on a fault the state is unchanged |
| IntCode.IntCodeCPU.GetParams | intcode/src/lib.rs:215-217 | returns `Params` of the current state |
| IntCode.IntCodeCPU.Load | intcode/src/lib.rs:219-225 | returns `Load` of the current state |
| IntCode.IntCodeCPU.Peek | intcode/src/lib.rs:227-229 | returns `Peek` of the current state |
| IntCode.IntCodeCPU.Poke | intcode/src/lib.rs:231-237 | memory becomes `Poke(old memory, addr, value)` and no other field changes |
| IntCode.IntCodeCPU.ResolveAddress | intcode/src/lib.rs:239-247 | returns `ResolveAddress` of the current state |
| IntCode.IntCodeCPU.PopOutput | intcode/src/lib.rs:249-255 | returns the old output, in emission order, and leaves output empty with nothing else changed |
| IntCodeFacts.DigitsRoundTrip | intcode/src/lib.rs:95-100 | the mode digits read back as a number give `word / 100` |
| IntCodeFacts.FromDigitsSign | intcode/src/lib.rs:97-100 | a digit list reads as a non-negative number, and as a positive one when its last digit is nonzero |
| IntCodeFacts.FromDigitsRoundTrip | intcode/src/lib.rs:97-100 | a digit list without a trailing zero is the digit list of its value |
| IntCodeFacts.ModeAtDigit | intcode/src/lib.rs:97-100 | mode `i` is the `i`-th decimal digit of the number, so a missing mode is 0 |
| IntCodeFacts.DecodeNonNegative | intcode/src/lib.rs:89-103 | opcode is `word % 100`; every mode `i` is digit `i` of `word / 100`; the modes read back as `word / 100` |
| IntCodeFacts.DecodeNegative | intcode/src/lib.rs:89-103 | a negative word has no modes and an opcode in `-99..0` |
| IntCodeFacts.DecodeExample | intcode/src/lib.rs:89-103 | 1002 decodes to opcode 2 with modes `[0, 1]`, and its third mode is 0 |
| IntCodeFacts.ReadWaits | intcode/src/lib.rs:127-132 | opcode 3 on empty input stops waiting with only `modes` changed, so ip still points at the read |
| IntCodeFacts.ReadConsumes | intcode/src/lib.rs:127-141 | opcode 3 stores `input[0]` at the target, drops exactly that element, and does `ip += 2`; nothing else changes |
| IntCodeFacts.BinaryStep | intcode/src/lib.rs:39-70 | opcodes 1, 2, 7, 8 are their `Binary` arm followed by `ip += 4` |
| IntCodeFacts.BinaryArm | intcode/src/lib.rs:105-205 | a successful arithmetic or compare arm writes only its third-parameter target, with the operation's value; `lt` and `eq` write 0 or 1 |
| IntCodeFacts.WriteStep | intcode/src/lib.rs:143-149 | opcode 4 appends exactly one loaded value to output and does `ip += 2`; nothing else changes |
| IntCodeFacts.RelStep | intcode/src/lib.rs:207-213 | opcode 9 changes only `rel_offset`, by the loaded value, and does `ip += 2` |
| IntCodeFacts.JumpStep | intcode/src/lib.rs:151-175 | opcodes 5 and 6 set ip to the second operand when their condition holds and otherwise do `ip += 3`; nothing else changes |
| IntCodeFacts.HaltStep | intcode/src/lib.rs:75-78 | opcode 99 sets `halted` and returns `memory[0]` |
| IntCodeFacts.InvalidOpcodeStep | intcode/src/lib.rs:79-82 | an opcode outside 1..9 and 99 is a fault naming the opcode and ip |
| IntCodeFacts.RunAfterHalt | intcode/src/lib.rs:32-86 | `run` on a halted CPU is the "end of opcodes" fault |
| IntCodeFacts.LoopIsIterate | intcode/src/lib.rs:32-86 | any function that unfolds like the `run` loop over a step function equals the generic loop `Iterate` |
| IntCodeFacts.RunIsIterate | intcode/src/lib.rs:31-87 | `RunSpec` is the loop `Iterate` over `Step` |
| IntCodeFacts.StepHalts | intcode/src/lib.rs:75-78 | a step that returns a value has halted the machine, and the value is memory cell 0 |
| IntCodeFacts.IterateHalts | intcode/src/lib.rs:32-86 | the run loop keeps that property of its step function |
| IntCodeFacts.RunHalts | intcode/src/lib.rs:75-78 | a run that returns a value leaves a halted CPU; the value is its memory cell 0 |
| IntCodeFacts.StepWaitsAgain | intcode/src/lib.rs:47-50 | a step that waits leaves empty input and the same halted flag, and stepping again waits the same way |
| IntCodeFacts.WaitingIsRead | intcode/src/lib.rs:127-132 | only opcode 3 with an empty input waits, and then only `modes` changes |
| IntCodeFacts.IterateRetries | intcode/src/lib.rs:31-52 | for such a step function, a loop that stopped waiting stops the same way when it is run again |
| IntCodeFacts.RunWaitingRetries | intcode/src/lib.rs:31-52 | after `WaitingOnInput` the input is empty, and calling `run` again returns `WaitingOnInput` with the same state |
| IntCodeFacts.SuffixTransitive | intcode/src/lib.rs:138 | what is left of the input after two consumptions is still a suffix of the original |
| IntCodeFacts.StepMonotone | intcode/src/lib.rs:38-83 | one step only extends output, only drops input from the front, and never shrinks memory |
| IntCodeFacts.StepStoppedKeeps | intcode/src/lib.rs:47-82 | a step that stops (halt, wait, fault) changes no memory, input or output |
| IntCodeFacts.StepRunningOpcodes | intcode/src/lib.rs:38-83 | a step that keeps running executed one of the opcodes 1..9 |
| IntCodeFacts.RunMonotone | intcode/src/lib.rs:31-87 | a whole run only extends output, only consumes input from the front, and never shrinks memory |
| IntCodeFacts.AddExample | intcode/src/lib.rs:38-78 | `[1,0,0,0,99]` halts with 2 and leaves memory `[2,0,0,0,99]` |
| IntCodeFacts.AddBinary | intcode/src/lib.rs:105-114 | `add` on `[1,0,0,0,99]` writes 2 into cell 0 |
| IntCodeFacts.EqualsEightExample | intcode/src/lib.rs:47-78 | `3,9,8,9,10,9,4,9,99,-1,8` outputs 1 when its input is 8 and 0 otherwise, then halts with 3 |
| IntCodeFacts.EqualsEightRead | intcode/src/lib.rs:127-141 | its first step stores the input in cell 9 and consumes it |
| IntCodeFacts.EqualsEightCompare | intcode/src/lib.rs:67-70 | its second step replaces cell 9 with the comparison with 8 |
| IntCodeFacts.EqualsEightBinary | intcode/src/lib.rs:192-205 | `eq` compares cell 9 with cell 10 and writes 1 or 0 into cell 9 |
| IntCodeFacts.EqualsEightWrite | intcode/src/lib.rs:143-149 | its third step outputs cell 9 |
| IntCodeFacts.EqualsEightHalt | intcode/src/lib.rs:75-78 | its fourth step halts with cell 0 |
| Fft.Sign | d16/src/main.rs:18-36 | the pattern weight of a block is -1, 0 or 1 |
| Fft.Sum | d16/src/main.rs:19-33 | the slice sum `.map(|&x| x as i32).sum()`; a slice of non-negative values has a non-negative sum |
| Fft.Pattern | d16/src/main.rs:14-18 | every weight is -1, 0 or 1, and every position before `k` weighs 0, since the scan starts at `i = oid` |
| Fft.FftPhase | d16/src/main.rs:13-38 | one phase keeps the length, and every digit is in 0..9 |
| Fft.FftSpec | d16/src/main.rs:5-45 | `fft` keeps the length; zero passes return the input; after a pass every element is a digit |
| Fft.Fft2Phase | d16/src/main.rs:55-61 | one `fft2` phase keeps the length, and every digit is in 0..9 |
| Fft.Fft2Spec | d16/src/main.rs:47-68 | `fft2` keeps the length; zero passes return the input; after a pass every element is a digit |
| Fft.Fft | d16/src/main.rs:5-45 | the pass loop computes `FftSpec(signal, passes)` |
| Fft.FftPass | d16/src/main.rs:11-41 | one pass writes `FftPhase(signal)` into the cloned buffer |
| Fft.PatternSum | d16/src/main.rs:14-36 | the inner `while`, with its add block, skip and subtract block, computes the pattern-weighted sum `Weighted(sig, oid, len)` |
| Fft.Fft2 | d16/src/main.rs:47-68 | the pass loop computes `Fft2Spec(signal, passes)` |
| Fft.Fft2Pass | d16/src/main.rs:53-64 | one backward accumulation writes `Fft2Phase(signal)`: digit `i` is the sum of `signal[i..]` mod 10 |
| Fft.Vec2Int | d16/src/main.rs:90-99 | the accumulation loop computes `DecimalValue(v)`, the sum of `v[i]*10^(len-i-1)` |
| Fft.DecimalValue | d16/src/main.rs:90-99 | the value `vec2int` computes; a non-empty digit list is at least its leading digit times `10^(len-1)` |
| Fft.BigSignal | d16/src/main.rs:107-114 | the nested `append` loops produce exactly `signal` repeated 10000 times |
| Fft.Part1 | d16/src/main.rs:104-105 | 100 passes of `fft`, then the first eight digits as a number; `None` where the slice would panic |
| Fft.Part1Spec | d16/src/main.rs:104-105 | part 1 is defined exactly when the signal has at least eight digits, and is then an eight-digit number (below `10^8`) |
| Fft.Part2Spec | d16/src/main.rs:107-120 | part 2 is undefined for a signal shorter than seven digits (the `signal[0..7]` panic), and any answer is below `10^8` |
| Fft.Part2 | d16/src/main.rs:107-120 | build the big signal, drain the 7-digit offset, run `fft2` 100 times, and read eight digits; `None` where a slice or drain would panic |
| Fft.Offset | d16/src/main.rs:116 | the first seven digits read as a number; for decimal digits the offset is below `10^7` |
| Fft.SumConcat | d16/src/main.rs:19-22 | the slice sum is additive over concatenation |
| Fft.SumSnoc | d16/src/main.rs:19-22 | extending a slice by one element adds that element to its sum |
| Fft.WeightedBelow | d16/src/main.rs:14-18 | positions before `oid` contribute nothing |
| Fft.WeightedRun | d16/src/main.rs:19-33 | over positions of constant weight `c`, the weighted sum grows by `c` times the slice sum |
| Fft.BlockIndex | d16/src/main.rs:19-35 | the positions of block `b` all weigh `Sign(b % 4)` |
| Fft.MulNext | d16/src/main.rs:24-35 | stepping `i += psize * 2` moves two blocks on |
| Fft.BlockRun | d16/src/main.rs:19-33 | part of one block adds its weight times its slice sum |
| Fft.BlockPair | d16/src/main.rs:19-35 | a weighted block followed by a zero block adds the first block's weight times its slice sum, clipped to the signal |
| Fft.OddBlock | d16/src/main.rs:24-35 | the blocks that are skipped weigh 0 |
| Fft.AddBlock | d16/src/main.rs:19-24 | `res += sum(signal[i..min(len, psize+i)])` accounts for a +1 block and the 0 block after it |
| Fft.SubtractBlock | d16/src/main.rs:30-35 | `res -= sum(...)` accounts for a -1 block and the 0 block after it |
| Fft.FftPhaseLocal | d16/src/main.rs:14-18 | digit `k` of a phase depends only on `signal[k..]` |
| Fft.WeightedSuffix | d16/src/main.rs:14-18 | the weighted sum for `k` depends only on `signal[k..]` |
| Fft.PhasesAgree | d16/src/main.rs:14-61 | where `2k+1 >= len`, one `fft` phase and one `fft2` phase give the same digit `k` |
| Fft.PhaseTail | d16/src/main.rs:14-61 | on such a back half, one `fft` phase restricted to `k..` is one `fft2` phase of `signal[k..]` |
| Fft.TailShortcut | d16/src/main.rs:5-68 | for any number of passes, `fft` restricted to a back half equals `fft2` of that suffix |
| Fft.Part2Shortcut | d16/src/main.rs:107-120 | when the offset lies in the back half, part 2 reads the same eight digits as the full `fft` of the big signal would at the offset |
| Fft.ShortcutDigits | d16/src/main.rs:116-120 | on a back half, the eight digits read after `fft2` of the suffix are those of `fft` at the same place |
| Fft.PlacedShift | d16/src/main.rs:94-95 | appending a digit multiplies the value of every prefix by 10 |
| Fft.DecimalSnoc | d16/src/main.rs:90-99 | `vec2int([]) == 0` and `vec2int(v ++ [d]) == 10 * vec2int(v) + d` |
| Fft.DecimalBound | d16/src/main.rs:90-99 | a vector of `n` digits reads below `10^n` |
| Fft.Repeat | d16/src/main.rs:107-114 | `c` copies of the signal have `c * siglen` elements, so the big signal has length `10000 * siglen` |
| Fft.RepeatIndex | d16/src/main.rs:107-114 | element `i` of the repeated signal is `signal[i % siglen]` |
| Wires.Distance | d03/src/main.rs:35-37 | the Manhattan distance is 0 exactly at the origin, and at least each coordinate's absolute value |
| Wires.Along | d03/src/main.rs:60-100 | moving `k` units in any of the four directions changes the coordinates by `|k|` in Manhattan distance, and 0 units stays put |
| Wires.ParseI32 | d03/src/main.rs:55 | a parsed count lies in the i32 range, and the text starts with a sign or a digit |
| Wires.Letter | d03/src/main.rs:60-101 | exactly the letters U, D, L and R are directions |
| Wires.ParseMove | d03/src/main.rs:49-101 | errors come in the source's order: empty instruction; then a count that does not parse, checked before the letter; then an unknown letter |
| Wires.Segment | d03/src/main.rs:62-97 | a move pushes `max(count, 0)` points, since `0..c` is empty for a negative count |
| Wires.TraceWire | d03/src/main.rs:40-106 | the imperative trace returns `TraceWireSpec`: the visited points, or the first instruction's error |
| Wires.TraceWireSpec | d03/src/main.rs:40-106 | `trace_wire`'s result: success exactly when every instruction parses, and a successful trace is non-empty and starts at the origin |
| Wires.Walk | d03/src/main.rs:40-106 | the state of `trace_wire` after each prefix of the instructions: a successful trace is non-empty and starts at the origin |
| Wires.PushSegment | d03/src/main.rs:61-97 | one arm's `for` loop appends exactly the move's segment |
| Wires.WalkErrorSticks | d03/src/main.rs:48-103 | once an instruction fails, the whole trace fails with that error |
| Wires.FirstErrorWins | d03/src/main.rs:48-103 | the error of a trace is that of its first instruction that does not parse |
| Wires.ParsedPrefix | d03/src/main.rs:48-103 | instructions that all parse trace without error |
| Wires.WalkShape | d03/src/main.rs:43-106 | a trace succeeds exactly when every instruction parses; it starts at the origin and has `1 + Σ max(count, 0)` points |
| Wires.WalkUnitSteps | d03/src/main.rs:60-100 | with non-negative counts, each point is one unit step from the one before in the direction of the move that pushed it (`UnitSteps`), so consecutive points are adjacent, and the last point is the cursor |
| Wires.SegmentSteps | d03/src/main.rs:60-100 | appending a move's points steps each new point by one unit in the move's direction from the one before, keeps consecutive points adjacent, and ends where the cursor moves |
| Wires.UnitSteps | d03/src/main.rs:60-100 | every move contributes its direction once per pushed point, `max(count, 0)` times, so there is one direction per unit step |
| Wires.FirstIndex | d03/src/main.rs:140 | `position`: `None` exactly when the point is absent, otherwise the first index holding it |
| Wires.Steps | d03/src/main.rs:138-144 | the summed first indices of a point over the wires: when it exists the point lies on every wire (`StepsFound` is the converse) |
| Wires.LeastExists | d03/src/main.rs:134 | a non-empty finite set of naturals has a least element |
| Wires.Least | d03/src/main.rs:134 | `min()` of a set of values: `None` exactly for the empty set, otherwise its least element |
| Wires.Minimum | d03/src/main.rs:151 | `iter().min()`: `None` exactly for an empty vector, otherwise an element no larger than any other |
| Wires.MinimumIsLeast | d03/src/main.rs:134-151 | `.min()` of a vector equals the least element of the set of its values, `None` for both when empty |
| Wires.Intersect | d03/src/main.rs:120-126 | the intersection loop yields exactly the points lying on every wire |
| Wires.Crossings | d03/src/main.rs:120-126 | a point is a crossing exactly when it lies on every wire |
| Wires.Answers | d03/src/main.rs:120-151 | part 1 is the least nonzero distance over the crossings, and part 2 the least nonzero summed first-step count; each `unwrap` is an error |
| Wires.AnswerSpec | d03/src/main.rs:120-151 | `NoWires` exactly for no wires, `NoCrossing` exactly when no crossing has a nonzero distance (the `unwrap` at line 134), and Ok exactly when a nonzero crossing distance and a nonzero step count both exist; then part 1 is the least nonzero crossing distance and part 2 the least nonzero summed step count |
| Wires.NonZeroDistances | d03/src/main.rs:128-132 | the collected distances are exactly the nonzero distances of the crossings |
| Wires.DistancesOf | d03/src/main.rs:128-132 | `distances` never holds 0, holds the distance of every crossing other than the origin, and each value is the distance of such a crossing |
| Wires.StepsOf | d03/src/main.rs:136-149 | `step_counts` never holds 0; it holds every nonzero summed first-step count of a point of the set, and each value is the step count of some point |
| Wires.NonZeroValues | d03/src/main.rs:128-132 | a `map` then `filter(x != 0)` over a set collects exactly the nonzero images |
| Wires.NonZeroStepCounts | d03/src/main.rs:136-149 | `step_counts` holds exactly the nonzero summed first indices of the crossings |
| Wires.MoveElement | d03/src/main.rs:137 | taking one point out of the rest of the set keeps the partition of the crossings |
| Wires.ElementsSnoc | d03/src/main.rs:147 | a push adds its value to the collected values |
| Wires.Solve | d03/src/main.rs:108-151 | `main` panics with the first wire's trace error, and otherwise answers as `AnswerSpec` |
| Wires.TraceAll | d03/src/main.rs:111-118 | the loop that traces every wire: on success one trace per input, each the `trace_wire` result of that input |
| Wires.TraceAllErrorSticks | d03/src/main.rs:113-118 | once a wire fails to trace, `main` fails with that error |
| Wires.CollectStep | d03/src/main.rs:128-132 | one iteration of the filtered `map` keeps the collected values equal to the nonzero image seen so far |
| Wires.ImageAdd | d03/src/main.rs:128-132 | adding a point adds its image exactly when the image is nonzero |
| Wires.StepsAdd | d03/src/main.rs:137-148 | adding a crossing adds its step count exactly when it is nonzero |
| Wires.StepsFound | d03/src/main.rs:138-143 | a point on every wire has a step count, so the "Not found" panic cannot happen for crossings |
| Wires.ZeroStepsOnlyAtOrigin | d03/src/main.rs:146 | on traced wires a crossing's step count is 0 exactly at the origin |
| Wires.TracedStartAtOrigin | d03/src/main.rs:43-46 | every traced wire is non-empty and starts at the origin |
| Wires.ParseShow | d03/src/main.rs:55 | every i32's decimal text parses back to it |
| Wires.ParseExamples | d03/src/main.rs:50-101 | `+7` parses; a bare sign, the empty text and `7a` do not; `X7` is an invalid movement and `Xa` a bad count |
| Wires.ParseRange | d03/src/main.rs:55 | `parse::<i32>` rejects 2147483648, one past `i32::MAX`, and accepts -2147483648, `i32::MIN` |
| Wires.DigitsValue | d03/src/main.rs:55 | the digit string "2147483648" reads as the number 2147483648 before the i32 range check |
| Passwords.Count | d04/src/main.rs:10 | `filter(...).count()` is the multiplicity of the digit |
| Passwords.Insert | d04/src/main.rs:3 | insertion adds exactly the one element and puts either it or the old head first |
| Passwords.Sort | d04/src/main.rs:2-3 | `sort_unstable` of a clone is a non-decreasing permutation |
| Passwords.IsValid | d04/src/main.rs:1-17 | true exactly when the digits are non-decreasing and some digit occurs at least twice |
| Passwords.ContainsOnePair | d04/src/main.rs:19-28 | true exactly when some digit occurs exactly twice |
| Passwords.CountPasswords | d04/src/main.rs:37-47 | the loop over `a..b+1` counts the valid numbers, and those also having an exact pair |
| Passwords.ValidCount | d04/src/main.rs:37-42 | `p1` over a range is the number of its members whose digits are non-decreasing with a repeat |
| Passwords.PairCount | d04/src/main.rs:37-47 | `p2` over a range is the number of its valid members that also have an exact pair |
| Passwords.Judge | d04/src/main.rs:38-46 | the loop body: 1 for a valid number, and 1 for part 2 only when it is valid and has an exact pair |
| Passwords.Solve | d04/src/main.rs:30-50 | the counts over the puzzle range, with `p2 <= p1 <= b - a + 1` |
| Passwords.SortedFixed | d04/src/main.rs:2-7 | `digits == sorted` exactly when the digits are non-decreasing |
| Passwords.InsertSorted | d04/src/main.rs:3 | insertion keeps a sequence non-decreasing |
| Passwords.ConsNonDecreasing | d04/src/main.rs:3 | a head no larger than the first element keeps a sequence non-decreasing |
| Passwords.TailNonDecreasing | d04/src/main.rs:3 | the tail of a non-decreasing sequence is non-decreasing |
| Passwords.HeadLeast | d04/src/main.rs:3 | the head of a non-decreasing sequence is its least element |
| Passwords.SortedUnique | d04/src/main.rs:2-5 | two non-decreasing permutations of each other are equal, so the outcome of the unstable sort is determined |
| Passwords.HeadsAgree | d04/src/main.rs:2-5 | two such permutations have the same head and permuted tails |
| Passwords.HeadsEqual | d04/src/main.rs:2-5 | two non-decreasing permutations of each other start with the same element |
| Passwords.TailsPermuted | d04/src/main.rs:2-5 | permutations with the same head have tails that are permutations of each other |
| Passwords.SortIsTheSortedPermutation | d04/src/main.rs:2-5 | every non-decreasing permutation of the digits is their sort |
| Passwords.OtherOccurrence | d04/src/main.rs:9-13 | a digit counted at least twice occurs at another index |
| Passwords.AdjacentRepeat | d04/src/main.rs:9-13 | two equal adjacent digits make that digit counted at least twice |
| Passwords.RepeatAdjacent | d04/src/main.rs:5-13 | in non-decreasing digits, a repeat implies two equal adjacent digits |
| Passwords.Squeeze | d04/src/main.rs:5-7 | in non-decreasing digits, equal digits at two indices make the next digit equal too |
| Passwords.RepeatIffAdjacent | d04/src/main.rs:5-16 | for non-decreasing digits, "some digit occurs at least twice" is equivalent to "two adjacent digits are equal" |
| Passwords.PairIsRepeat | d04/src/main.rs:19-28 | a digit counted exactly twice (`contains_one_pair`) is a digit that repeats, as `is_valid`'s second test asks |
| Passwords.CountBounds | d04/src/main.rs:37-47 | `p2 <= p1`, `p1` is at most the length of the range, and an empty range counts nothing |
| Passwords.AllOnesValid | d04/src/main.rs:1-17 | `111111` is non-decreasing and repeats |
| Passwords.DecreasingInvalid | d04/src/main.rs:2-7 | `223450` is not non-decreasing |
| Passwords.NoRepeatInvalid | d04/src/main.rs:9-16 | `123789` has no repeated digit |
| Passwords.PairsExample | d04/src/main.rs:19-28 | `112233` has an exact pair |
| Passwords.TripleExample | d04/src/main.rs:19-28 | `123444` has no exact pair |
| Passwords.TripleRepeats | d04/src/main.rs:9-16 | `123444` still has a repeat |
| Decimal.DigitChar | d04/src/main.rs:38 | every digit 0..9 has a digit character of that value |
| Decimal.DecimalString | d04/src/main.rs:38 | `to_string` of a natural number is a non-empty string of digits with no leading zero |
| Decimal.DecimalStringValue | d04/src/main.rs:38 | the decimal string reads back as the number |
| Decimal.DecimalStringInjective | d04/src/main.rs:38 | different numbers have different decimal strings |

## Left out

- Input and output: every `get_input` (file reading and line parsing) and every `println!`. The model takes the parsed sequences as parameters and returns the answers.
- d01, d02, d05 and d09. They are drivers around the CPU or floating-point code that is not part of this model.
- IntCode.IntCodeCPU.Run: the source's `run` loops until it stops and need not terminate. The model has a `fuel` parameter and an extra `OutOfFuel` exit, and says nothing about programs that run longer than the fuel.
- Integer widths: the source uses i64 words, i32 coordinates and sums, usize indices and `l as u32`. The model uses unbounded integers, so it does not model i64, i32 or usize overflow, or the overflow of `i32::abs`.
- Negative `as usize` casts: in Rust, a negative address or jump target wraps to a huge usize. In the model, a negative address faults with `OutOfBounds` when it is read or written, and a negative ip faults at the next fetch. Rust would panic at the same points.
- Poke at a huge address: Rust's `resize` can abort with an allocation failure. The model grows the memory.
- Merged methods: `add`, `mul`, `lt` and `eq` are one method `Binary` with an operation parameter, and `jump_if_true` and `jump_if_false` are one method `JumpIf`. Their effects are still told apart per opcode.
- Helper methods for inline code:
  - `Dispatch` is the `match op` of `run`;
  - `ModeDigits` is the digit loop of `get_instruction`;
  - `PushSegment` is the `for` loop of one arm of `trace_wire`;
  - `Judge` is the body of d04's counting loop;
  - `NonZeroValues` is the `map`/`filter` chain.
- Direction arms: the four arms of `trace_wire` are one loop over `Along`, with the direction as a parameter.
- trace_wire: `instr[1..]` panics in Rust when the first character is not ASCII. The model slices by character instead.
- HashSet iteration order: the model picks an arbitrary element of a mathematical set. The contracts speak about the set of collected values, which does not depend on that order.
- `sort_unstable`: modelled as a functional insertion sort. The model proves that every non-decreasing permutation equals that sort, so the sort algorithm's identity does not matter.
- `Vec::with_capacity`: only an allocation hint, not modelled.
- Fft.Part2: it follows the source and applies `fft2` to the drained suffix whatever the offset. `Part2Shortcut` states that this is the full transform only when the offset lies in the back half, as it does for the puzzle input.
