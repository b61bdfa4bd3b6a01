/**
 * What the IntCode machine guarantees: the decoder yields the decimal mode
 * digits, every opcode changes only what it names and advances ip by its
 * width, halting and waiting behave as the run loop promises, and a run only
 * appends to the output, only consumes the input and never shrinks memory.
 */
module IntCodeFacts {
  import opened Wrappers
  import opened Numbers
  import opened IntCodeMachine

  // ----- Decoding -----

  lemma {:induction false} DigitsRoundTrip(n: nat)
    ensures FromDigits(Digits(n)) == n
  {
    if n > 0 {
      DigitsRoundTrip(n / 10);
    }
  }

  lemma {:induction false} FromDigitsSign(ds: seq<int>)
    requires forall i :: 0 <= i < |ds| ==> 0 <= ds[i] <= 9
    ensures FromDigits(ds) >= 0
    ensures ds != [] && ds[|ds| - 1] != 0 ==> FromDigits(ds) > 0
  {
    if ds != [] {
      FromDigitsSign(ds[1..]);
    }
  }

  /** Digit lists without a leading zero are exactly what `Digits` produces. */
  lemma {:induction false} FromDigitsRoundTrip(ds: seq<int>)
    requires forall i :: 0 <= i < |ds| ==> 0 <= ds[i] <= 9
    requires ds != [] ==> ds[|ds| - 1] != 0
    ensures Digits(FromDigits(ds)) == ds
  {
    if ds != [] {
      var rest := ds[1..];
      FromDigitsRoundTrip(rest);
      FromDigitsSign(ds);
      FromDigitsSign(rest);
      var n := FromDigits(ds);
      DivUnique(n, 10, FromDigits(rest), ds[0]);
    }
  }

  /** The i-th mode is the i-th decimal digit, and 0 past the last one. */
  lemma {:induction false} ModeAtDigit(n: nat, i: nat)
    ensures ModeAt(Digits(n), i) == n / Pow10(i) % 10
  {
    if n == 0 {
      DivUnique(0, Pow10(i), 0, 0);
    } else if i > 0 {
      ModeAtDigit(n / 10, i - 1);
      DivDiv(n, 10, Pow10(i - 1));
    }
  }

  /** `get_instruction` on a non-negative word: opcode `word % 100`, modes the digits of `word / 100`. */
  lemma DecodeNonNegative(word: int)
    requires word >= 0
    ensures Decode(word).op == word % 100
    ensures forall i: nat :: ModeAt(Decode(word).modes, i) == word / 100 / Pow10(i) % 10
    ensures FromDigits(Decode(word).modes) == word / 100
  {
    forall i: nat
      ensures ModeAt(Decode(word).modes, i) == word / 100 / Pow10(i) % 10
    {
      ModeAtDigit(word / 100, i);
    }
    DigitsRoundTrip(word / 100);
  }

  /** A negative word has a truncated, non-positive opcode (never a valid one) and no modes. */
  lemma DecodeNegative(word: int)
    requires word < 0
    ensures Decode(word).modes == []
    ensures -99 <= Decode(word).op <= 0
  {
  }

  lemma DecodeExample()
    ensures Decode(1002) == Instruction(2, [0, 1])
    ensures ModeAt(Decode(1002).modes, 2) == 0
  {
    assert Digits(10) == [0, 1];
  }

  // ----- One instruction -----

  /** The machine as `run` has it after decoding: `modes` set from the word at ip. */
  function Decoded(m: Machine): Machine
    requires Fetch(m).Ok?
  {
    m.(modes := Fetch(m).value.modes)
  }

  function Opcode(m: Machine): int
    requires Fetch(m).Ok?
  {
    Fetch(m).value.op
  }

  /** The i-th parameter word of the instruction at ip. */
  function Param(m: Machine, i: nat): int
    requires 0 <= m.ip && m.ip + 1 + i < |m.memory|
  {
    m.memory[m.ip + 1 + i]
  }

  function KindOf(op: int): BinOp
    requires op == 1 || op == 2 || op == 7 || op == 8
  {
    if op == 1 then Plus else if op == 2 then Times else if op == 7 then LessThan else Equals
  }

  /** Opcode 3 with an empty input: WaitingOnInput, and nothing but `modes` changes, so ip still points at the read. */
  lemma ReadWaits(m: Machine)
    requires Fetch(m).Ok? && Opcode(m) == 3
    requires Params(m, 1).Ok? && m.input == []
    ensures Step(m) == Effect(Stopped(WaitingOnInput), Decoded(m))
  {
  }

  /** Opcode 3 with input: the head is stored at the target, removed from the input, and ip moves by 2. */
  lemma ReadConsumes(m: Machine)
    requires Fetch(m).Ok? && Opcode(m) == 3 && m.input != []
    requires Step(m).status.Running?
    ensures Params(m, 1).Ok?
    ensures ResolveAddress(Decoded(m), Param(m, 0), ModeAt(Decoded(m).modes, 0)).Ok?
    ensures var target := ResolveAddress(Decoded(m), Param(m, 0), ModeAt(Decoded(m).modes, 0)).value;
      target >= 0 &&
      Step(m).after == Decoded(m).(memory := Poke(m.memory, target, m.input[0]), input := m.input[1..], ip := m.ip + 2)
  {
  }

  /** Opcodes 1, 2, 7, 8: a step is the `Binary` arm for the opcode's operation, then ip moves by 4. */
  lemma BinaryStep(m: Machine)
    requires Fetch(m).Ok? && (Opcode(m) == 1 || Opcode(m) == 2 || Opcode(m) == 7 || Opcode(m) == 8)
    ensures Step(m) == Advance(Binary(Decoded(m), KindOf(Opcode(m))), Decoded(m), 4)
  {
    assert Step(m) == Exec(Decoded(m), Opcode(m));
  }

  /**
   * The `Binary` arm: when it succeeds, only the target of the third parameter
   * is written, with the operation's value; `lt` and `eq` write 0 or 1.
   */
  lemma BinaryArm(d: Machine, k: BinOp)
    requires Binary(d, k).Ok?
    ensures Params(d, 3).Ok?
    ensures Load(d, Param(d, 0), ModeAt(d.modes, 0)).Ok?
    ensures Load(d, Param(d, 1), ModeAt(d.modes, 1)).Ok?
    ensures ResolveAddress(d, Param(d, 2), ModeAt(d.modes, 2)).Ok?
    ensures var a := Load(d, Param(d, 0), ModeAt(d.modes, 0)).value;
      var b := Load(d, Param(d, 1), ModeAt(d.modes, 1)).value;
      var target := ResolveAddress(d, Param(d, 2), ModeAt(d.modes, 2)).value;
      target >= 0 && Binary(d, k).value == d.(memory := Poke(d.memory, target, Apply(k, a, b)))
    ensures k == LessThan || k == Equals ==>
      var target := ResolveAddress(d, Param(d, 2), ModeAt(d.modes, 2)).value;
      Binary(d, k).value.memory[target] == 0 || Binary(d, k).value.memory[target] == 1
  {
  }

  /** Opcode 4: one value appended to the output, ip moves by 2, nothing else changes. */
  lemma WriteStep(m: Machine)
    requires Fetch(m).Ok? && Opcode(m) == 4
    requires Step(m).status.Running?
    ensures Params(m, 1).Ok?
    ensures Load(Decoded(m), Param(m, 0), ModeAt(Decoded(m).modes, 0)).Ok?
    ensures Step(m).after == Decoded(m).(
      output := m.output + [Load(Decoded(m), Param(m, 0), ModeAt(Decoded(m).modes, 0)).value],
      ip := m.ip + 2)
  {
  }

  /** Opcode 9: only the relative base changes, by the operand, and ip moves by 2. */
  lemma RelStep(m: Machine)
    requires Fetch(m).Ok? && Opcode(m) == 9
    requires Step(m).status.Running?
    ensures Params(m, 1).Ok?
    ensures Load(Decoded(m), Param(m, 0), ModeAt(Decoded(m).modes, 0)).Ok?
    ensures Step(m).after == Decoded(m).(
      relOffset := m.relOffset + Load(Decoded(m), Param(m, 0), ModeAt(Decoded(m).modes, 0)).value,
      ip := m.ip + 2)
  {
  }

  /** Opcodes 5 and 6: ip becomes the second operand when the condition holds, else moves by 3; nothing else changes. */
  lemma JumpStep(m: Machine)
    requires Fetch(m).Ok? && (Opcode(m) == 5 || Opcode(m) == 6)
    requires Step(m).status.Running?
    ensures Params(m, 2).Ok?
    ensures Load(Decoded(m), Param(m, 0), ModeAt(Decoded(m).modes, 0)).Ok?
    ensures Load(Decoded(m), Param(m, 1), ModeAt(Decoded(m).modes, 1)).Ok?
    ensures var a := Load(Decoded(m), Param(m, 0), ModeAt(Decoded(m).modes, 0)).value;
      var b := Load(Decoded(m), Param(m, 1), ModeAt(Decoded(m).modes, 1)).value;
      Step(m).after == Decoded(m).(ip := if (a != 0) == (Opcode(m) == 5) then b else m.ip + 3)
  {
    var d := Decoded(m);
    assert Step(m) == Advance(JumpIf(d, Opcode(m) == 5), d, 0) by {
      assert Step(m) == Exec(d, Opcode(m));
    }
  }

  /** Opcode 99: the machine halts and returns memory cell 0. */
  lemma HaltStep(m: Machine)
    requires Fetch(m).Ok? && Opcode(m) == 99
    ensures |m.memory| > 0
    ensures Step(m) == Effect(Stopped(Halted(m.memory[0])), Decoded(m).(halted := true))
  {
  }

  /** Any opcode outside 1..9 and 99 is a fault that names the opcode and ip. */
  lemma InvalidOpcodeStep(m: Machine)
    requires Fetch(m).Ok?
    requires !(1 <= Opcode(m) <= 9) && Opcode(m) != 99
    ensures Step(m) == Effect(Stopped(Faulted(InvalidOpcode(Opcode(m), m.ip))), Decoded(m))
  {
  }

  // ----- Whole runs -----

  /** `run` on a halted machine is a fault. */
  lemma RunAfterHalt(m: Machine, fuel: nat)
    requires m.halted
    ensures RunSpec(m, fuel) == Effect(Stopped(Faulted(EndOfOpcodes)), m)
  {
  }

  /** The `run` loop over an arbitrary step function; `RunSpec` is this loop over `Step`. */
  ghost function Iterate(step: Machine -> Effect, m: Machine, fuel: nat): (r: Effect)
    ensures r.status.Stopped?
    decreases fuel
  {
    if m.halted then Effect(Stopped(Faulted(EndOfOpcodes)), m)
    else if fuel == 0 then Effect(Stopped(OutOfFuel), m)
    else
      var e := step(m);
      if e.status.Running? then Iterate(step, e.after, fuel - 1) else e
  }

  /** One unfolding of the `run` loop over `step`, for a loop written as any function `run`. */
  ghost predicate LoopsOver(step: Machine -> Effect, run: (Machine, nat) -> Effect, m: Machine, fuel: nat) {
    run(m, fuel) ==
      if m.halted then Effect(Stopped(Faulted(EndOfOpcodes)), m)
      else if fuel == 0 then Effect(Stopped(OutOfFuel), m)
      else if step(m).status.Running? then run(step(m).after, fuel - 1) else step(m)
  }

  /** A function that unfolds like the `run` loop is `Iterate`. */
  lemma {:induction false} LoopIsIterate(step: Machine -> Effect, run: (Machine, nat) -> Effect, m: Machine, fuel: nat)
    requires forall x, f :: LoopsOver(step, run, x, f)
    ensures run(m, fuel) == Iterate(step, m, fuel)
    decreases fuel
  {
    assert LoopsOver(step, run, m, fuel);
    if !m.halted && fuel > 0 {
      LoopIsIterate(step, run, step(m).after, fuel - 1);
    }
  }

  lemma RunIsIterate(m: Machine, fuel: nat)
    ensures RunSpec(m, fuel) == Iterate(Step, m, fuel)
  {
    forall x, f ensures LoopsOver(Step, RunSpec, x, f) {
      RunUnfolds(x, f);
    }
    LoopIsIterate(Step, RunSpec, m, fuel);
  }

  lemma RunUnfolds(m: Machine, fuel: nat)
    ensures LoopsOver(Step, RunSpec, m, fuel)
  {
  }

  /** An effect that returns a value comes with a halted machine whose cell 0 is that value. */
  ghost predicate HaltsWithCellZero(e: Effect) {
    e.status.Stopped? && e.status.exit.Halted? ==>
      e.after.halted && |e.after.memory| > 0 && e.status.exit.value == e.after.memory[0]
  }

  /** A step that returns a value has halted the machine, and the value is memory cell 0. */
  lemma StepHalts(m: Machine)
    ensures HaltsWithCellZero(Step(m))
  {
  }

  lemma {:induction false} IterateHalts(step: Machine -> Effect, m: Machine, fuel: nat)
    requires forall x :: HaltsWithCellZero(step(x))
    ensures HaltsWithCellZero(Iterate(step, m, fuel))
    decreases fuel
  {
    if !m.halted && fuel > 0 && step(m).status.Running? {
      IterateHalts(step, step(m).after, fuel - 1);
    }
  }

  /** A run that returns a value has halted, and the value is memory cell 0. */
  lemma RunHalts(m: Machine, fuel: nat)
    requires RunSpec(m, fuel).status.exit.Halted?
    ensures RunSpec(m, fuel).after.halted
    ensures |RunSpec(m, fuel).after.memory| > 0
    ensures RunSpec(m, fuel).status.exit.value == RunSpec(m, fuel).after.memory[0]
  {
    forall x {
      StepHalts(x);
    }
    RunIsIterate(m, fuel);
    IterateHalts(Step, m, fuel);
  }

  /** A step that waits leaves an empty input and a machine, halted as before, that waits again at the same read. */
  ghost predicate WaitsAgain(step: Machine -> Effect, m: Machine) {
    step(m).status == Stopped(WaitingOnInput) ==>
      step(m).after.input == [] && step(m).after.halted == m.halted && step(step(m).after) == step(m)
  }

  lemma StepWaitsAgain(m: Machine)
    ensures WaitsAgain(Step, m)
  {
    if Step(m).status == Stopped(WaitingOnInput) {
      WaitingIsRead(m);
      var d := Decoded(m);
      assert Fetch(d) == Fetch(m) && Decoded(d) == d;
      ReadWaits(d);
    }
  }

  /** Only a read with an empty input waits, and it changes nothing but `modes`. */
  lemma WaitingIsRead(m: Machine)
    requires Step(m).status == Stopped(WaitingOnInput)
    ensures Fetch(m).Ok? && Opcode(m) == 3 && Params(m, 1).Ok? && m.input == []
    ensures Step(m).after == Decoded(m)
  {
  }

  lemma {:induction false} IterateRetries(step: Machine -> Effect, m: Machine, fuel: nat, again: nat)
    requires forall x :: WaitsAgain(step, x)
    requires Iterate(step, m, fuel).status == Stopped(WaitingOnInput)
    requires again >= 1
    ensures Iterate(step, m, fuel).after.input == []
    ensures Iterate(step, Iterate(step, m, fuel).after, again) == Iterate(step, m, fuel)
    decreases fuel
  {
    var e := step(m);
    if e.status.Running? {
      IterateRetries(step, e.after, fuel - 1, again);
    } else {
      assert WaitsAgain(step, m);
    }
  }

  /** After WaitingOnInput the input is empty, and calling `run` again retries the same read and waits again. */
  lemma RunWaitingRetries(m: Machine, fuel: nat, again: nat)
    requires RunSpec(m, fuel).status == Stopped(WaitingOnInput)
    requires again >= 1
    ensures RunSpec(m, fuel).after.input == []
    ensures RunSpec(RunSpec(m, fuel).after, again) == RunSpec(m, fuel)
  {
    forall x {
      StepWaitsAgain(x);
    }
    RunIsIterate(m, fuel);
    RunIsIterate(RunSpec(m, fuel).after, again);
    IterateRetries(Step, m, fuel, again);
  }

  /** `b` ends with `a`. */
  ghost predicate IsSuffix(a: seq<int>, b: seq<int>) {
    |a| <= |b| && a == b[|b| - |a|..]
  }

  lemma SuffixTransitive(a: seq<int>, b: seq<int>, c: seq<int>)
    requires IsSuffix(a, b) && IsSuffix(b, c)
    ensures IsSuffix(a, c)
  {
    assert a == c[|c| - |a|..];
  }

  /** One step only appends to the output, only removes from the front of the input, and never shrinks memory. */
  lemma StepMonotone(m: Machine)
    ensures m.output <= Step(m).after.output
    ensures IsSuffix(Step(m).after.input, m.input)
    ensures |m.memory| <= |Step(m).after.memory|
  {
    var e := Step(m);
    if e.status.Stopped? {
      assert Grows(m, e.after);
    } else {
      var op := Opcode(m);
      if op == 1 || op == 2 || op == 7 || op == 8 {
        assert Grows(m, e.after) by {
          BinaryStep(m);
          BinaryArm(Decoded(m), KindOf(op));
        }
      } else if op == 3 {
        assert Grows(m, e.after) by {
          ReadConsumes(m);
          assert m.input[1..] == m.input[|m.input| - |m.input[1..]|..];
        }
      } else if op == 4 {
        assert Grows(m, e.after) by {
          WriteStep(m);
        }
      } else if op == 5 || op == 6 {
        assert Grows(m, e.after) by {
          JumpStep(m);
        }
      } else {
        assert op == 9;
        assert Grows(m, e.after) by {
          RelStep(m);
        }
      }
    }
  }

  /** What a step may do to output, input and memory. */
  ghost predicate Grows(m: Machine, after: Machine) {
    m.output <= after.output && IsSuffix(after.input, m.input) && |m.memory| <= |after.memory|
  }

  /** A step that stops changes neither memory nor the input nor the output. */
  lemma StepStoppedKeeps(m: Machine)
    requires Fetch(m).Err? || Step(m).status.Stopped?
    ensures Step(m).after.memory == m.memory && Step(m).after.input == m.input && Step(m).after.output == m.output
  {
  }

  /** Only opcodes 1 to 9 let the run loop go on. */
  lemma StepRunningOpcodes(m: Machine)
    requires Step(m).status.Running?
    ensures Fetch(m).Ok? && 1 <= Opcode(m) <= 9
  {
  }

  /** The same for a whole run. */
  lemma {:induction false} RunMonotone(m: Machine, fuel: nat)
    ensures m.output <= RunSpec(m, fuel).after.output
    ensures IsSuffix(RunSpec(m, fuel).after.input, m.input)
    ensures |m.memory| <= |RunSpec(m, fuel).after.memory|
    decreases fuel
  {
    if !m.halted && fuel > 0 {
      var e := Step(m);
      StepMonotone(m);
      if e.status.Running? {
        RunMonotone(e.after, fuel - 1);
        var r := RunSpec(e.after, fuel - 1);
        assert RunSpec(m, fuel) == r;
        SuffixTransitive(r.after.input, e.after.input, m.input);
      } else {
        assert RunSpec(m, fuel) == e;
      }
    }
  }

  // ----- Example programs -----

  /** `1,0,0,0,99` adds cell 0 to itself and halts with 2. */
  lemma AddExample()
    ensures RunSpec(Initial([1, 0, 0, 0, 99], []), 2).status == Stopped(Halted(2))
    ensures RunSpec(Initial([1, 0, 0, 0, 99], []), 2).after.memory == [2, 0, 0, 0, 99]
  {
    var m0 := Initial([1, 0, 0, 0, 99], []);
    var m1 := m0.(memory := [2, 0, 0, 0, 99], ip := 4);
    assert Fetch(m0) == Ok(Instruction(1, [])) && Fetch(m1) == Ok(Instruction(99, [])) by {
      assert Digits(0) == [];
    }
    assert Step(m0) == Effect(Running, m1) by {
      BinaryStep(m0);
      AddBinary();
    }
    assert Step(m1) == Effect(Stopped(Halted(2)), m1.(halted := true)) by {
      HaltStep(m1);
    }
    assert RunSpec(m0, 2) == RunSpec(m1, 1);
  }

  lemma AddBinary()
    ensures Binary(Initial([1, 0, 0, 0, 99], []), Plus) == Ok(Initial([2, 0, 0, 0, 99], []))
  {
    var m0 := Initial([1, 0, 0, 0, 99], []);
    assert m0.memory[1..4] == [0, 0, 0];
    assert Params(m0, 3) == Ok([0, 0, 0]);
    assert Poke(m0.memory, 0, 2) == [2, 0, 0, 0, 99];
  }

  /** `3,9,8,9,10,9,4,9,99,-1,8` outputs 1 when its input equals 8 and 0 otherwise. */
  lemma EqualsEightExample(x: int)
    ensures RunSpec(Initial(EqualsEight(), [x]), 4).status == Stopped(Halted(3))
    ensures RunSpec(Initial(EqualsEight(), [x]), 4).after.output == [if x == 8 then 1 else 0]
  {
    var e := if x == 8 then 1 else 0;
    var m0 := Initial(EqualsEight(), [x]);
    var m1 := m0.(memory := EqualsEight()[9 := x], input := [], ip := 2);
    var m2 := m1.(memory := EqualsEight()[9 := e], ip := 6);
    var m3 := m2.(output := [e], ip := 8);
    EqualsEightRead(x);
    EqualsEightCompare(x);
    EqualsEightWrite(x);
    EqualsEightHalt(x);
    assert RunSpec(m0, 4) == RunSpec(m1, 3) == RunSpec(m2, 2) == RunSpec(m3, 1);
  }

  function EqualsEight(): seq<int> {
    [3, 9, 8, 9, 10, 9, 4, 9, 99, -1, 8]
  }

  lemma EqualsEightRead(x: int)
    ensures Step(Initial(EqualsEight(), [x])) == Effect(Running, Initial(EqualsEight(), [x]).(memory := EqualsEight()[9 := x], input := [], ip := 2))
  {
    assert Digits(0) == [];
    var m0 := Initial(EqualsEight(), [x]);
    var p1 := EqualsEight()[9 := x];
    assert Fetch(m0) == Ok(Instruction(3, []));
    assert m0.memory[1..2] == [9];
    assert Poke(EqualsEight(), 9, x) == p1;
    assert Params(m0, 1) == Ok([9]);
    assert Store(m0, 9, x) == Ok(m0.(memory := p1));
    assert m0.(memory := p1).input[1..] == [];
    assert Read(m0) == Ok(Some(m0.(memory := p1, input := [])));
  }

  lemma EqualsEightCompare(x: int)
    ensures var m1 := Initial(EqualsEight(), [x]).(memory := EqualsEight()[9 := x], input := [], ip := 2);
      Step(m1) == Effect(Running, m1.(memory := EqualsEight()[9 := if x == 8 then 1 else 0], ip := 6))
  {
    var m1 := Initial(EqualsEight(), [x]).(memory := EqualsEight()[9 := x], input := [], ip := 2);
    assert Fetch(m1) == Ok(Instruction(8, [])) by {
      assert Digits(0) == [];
    }
    EqualsEightBinary(x);
    assert Step(m1) == Exec(m1, 8);
  }

  lemma EqualsEightBinary(x: int)
    ensures var m1 := Initial(EqualsEight(), [x]).(memory := EqualsEight()[9 := x], input := [], ip := 2);
      Binary(m1, Equals) == Ok(m1.(memory := EqualsEight()[9 := if x == 8 then 1 else 0]))
  {
    var m1 := Initial(EqualsEight(), [x]).(memory := EqualsEight()[9 := x], input := [], ip := 2);
    var e := if x == 8 then 1 else 0;
    assert m1.memory[3..6] == [9, 10, 9];
    assert Params(m1, 3) == Ok([9, 10, 9]);
    assert Poke(m1.memory, 9, e) == EqualsEight()[9 := e];
  }

  lemma EqualsEightWrite(x: int)
    ensures var e := if x == 8 then 1 else 0;
      var m2 := Initial(EqualsEight(), []).(memory := EqualsEight()[9 := e], ip := 6);
      Step(m2) == Effect(Running, m2.(output := [e], ip := 8))
  {
    assert Digits(0) == [];
    var e := if x == 8 then 1 else 0;
    var m2 := Initial(EqualsEight(), []).(memory := EqualsEight()[9 := e], ip := 6);
    assert Fetch(m2) == Ok(Instruction(4, []));
    assert m2.memory[7..8] == [9];
    assert Params(m2, 1) == Ok([9]);
    assert Load(m2, 9, 0) == Ok(e);
    assert m2.output + [e] == [e];
    assert Write(m2) == Ok(m2.(output := [e]));
  }

  lemma EqualsEightHalt(x: int)
    ensures var m3 := Initial(EqualsEight(), []).(memory := EqualsEight()[9 := if x == 8 then 1 else 0], ip := 8, output := [if x == 8 then 1 else 0]);
      Step(m3) == Effect(Stopped(Halted(3)), m3.(halted := true))
  {
    assert Digits(0) == [];
    var m3 := Initial(EqualsEight(), []).(memory := EqualsEight()[9 := if x == 8 then 1 else 0], ip := 8, output := [if x == 8 then 1 else 0]);
    assert Decode(99) == Instruction(99, []);
    assert Fetch(m3) == Ok(Instruction(99, []));
    assert Peek(m3.(halted := true), 0) == Ok(3);
  }
}
