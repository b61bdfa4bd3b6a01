/**
 * The IntCode CPU as the source has it: an object whose methods update its
 * fields in place. `State()` is the value the fields stand for; each method
 * is proved to do to it what the function of the same name in IntCodeMachine
 * says.
 */
module IntCode {
  import opened Wrappers
  import M = IntCodeMachine

  /** One turn of the loop in `run`: the rest of the run goes on from what the dispatched instruction left. */
  lemma RunUnfold(m: M.Machine, fuel: nat, e: M.Effect)
    requires !m.halted && fuel > 0 && M.Fetch(m).Ok?
    requires M.Exec(m.(modes := M.Fetch(m).value.modes), M.Fetch(m).value.op) == e
    ensures M.RunSpec(m, fuel) == if e.status.Running? then M.RunSpec(e.after, fuel - 1) else e
  {
    assert M.Step(m) == e;
  }

  /** Moving the lowest digit of `n` from the number to the list of digits found so far. */
  lemma AppendDigit(found: seq<int>, n: int)
    requires n > 0
    ensures found + M.Digits(n) == (found + [n % 10]) + M.Digits(n / 10)
  {
    assert M.Digits(n) == [n % 10] + M.Digits(n / 10);
  }

  class IntCodeCPU {
    var memory: seq<int>
    var ip: int
    var halted: bool
    var input: seq<int>
    var output: seq<int>
    var modes: seq<int>
    var relOffset: int

    function State(): M.Machine
      reads this
    {
      M.Machine(memory, ip, halted, input, output, modes, relOffset)
    }

    /** `build`: a fresh machine at ip 0 over the given memory and input. */
    constructor Build(memory: seq<int>, input: seq<int>)
      ensures State() == M.Initial(memory, input)
      ensures this.memory == memory && this.input == input && output == []
      ensures ip == 0 && relOffset == 0 && !halted
    {
      this.memory := memory;
      ip := 0;
      halted := false;
      this.input := input;
      output := [];
      modes := [];
      relOffset := 0;
    }

    /** `run`, bounded by `fuel` loop iterations. */
    method Run(fuel: nat) returns (exit: M.Exit)
      modifies this
      ensures M.RunSpec(old(State()), fuel) == M.Effect(M.Stopped(exit), State())
    {
      var remaining := fuel;
      while !halted
        invariant M.RunSpec(State(), remaining) == M.RunSpec(old(State()), fuel)
        decreases remaining
      {
        if remaining == 0 {
          return M.OutOfFuel;
        }
        ghost var before := State();
        remaining := remaining - 1;
        var instr := GetInstruction();
        if instr.Err? {
          return M.Faulted(instr.error);
        }
        modes := instr.value.modes;
        var status := Dispatch(instr.value.op);
        RunUnfold(before, remaining + 1, M.Effect(status, State()));
        if status.Stopped? {
          return status.exit;
        }
      }
      return M.Faulted(M.EndOfOpcodes);
    }

    /** The `match op` in the body of `run`. */
    method Dispatch(op: int) returns (status: M.Status)
      modifies this
      ensures M.Exec(old(State()), op) == M.Effect(status, State())
    {
      var fault: Option<M.Fault> := None;
      if op == 1 || op == 2 || op == 7 || op == 8 {
        var kind := if op == 1 then M.Plus else if op == 2 then M.Times else if op == 7 then M.LessThan else M.Equals;
        fault := Binary(kind);
        if fault.None? {
          ip := ip + 4;
        }
      } else if op == 3 {
        var waiting;
        waiting, fault := Read();
        if fault.None? && waiting {
          return M.Stopped(M.WaitingOnInput);
        }
        if fault.None? {
          ip := ip + 2;
        }
      } else if op == 4 {
        fault := Write();
        if fault.None? {
          ip := ip + 2;
        }
      } else if op == 5 || op == 6 {
        fault := JumpIf(op == 5);
      } else if op == 9 {
        fault := Rel();
        if fault.None? {
          ip := ip + 2;
        }
      } else if op == 99 {
        halted := true;
        var v := Peek(0);
        return if v.Ok? then M.Stopped(M.Halted(v.value)) else M.Stopped(M.Faulted(v.error));
      } else {
        return M.Stopped(M.Faulted(M.InvalidOpcode(op, ip)));
      }
      status := if fault.Some? then M.Stopped(M.Faulted(fault.value)) else M.Running;
    }

    /** `get_instruction`: the opcode and the mode digits of the word at ip. */
    method GetInstruction() returns (r: Result<M.Instruction, M.Fault>)
      ensures r == M.Fetch(State())
    {
      if !(0 <= ip < |memory|) {
        return Err(M.OutOfBounds);
      }
      var word := memory[ip];
      var op := M.Rem(word, 100);
      var digits := ModeDigits(M.Quot(word, 100));
      return Ok(M.Instruction(op, digits));
    }

    /** The digit loop of `get_instruction`: the modes, least significant digit first. */
    static method ModeDigits(n: int) returns (digits: seq<int>)
      ensures digits == M.Digits(n)
    {
      var rest := n;
      digits := [];
      while rest > 0
        invariant digits + M.Digits(rest) == M.Digits(n)
        decreases rest
      {
        AppendDigit(digits, rest);
        digits := digits + [rest % 10];
        rest := rest / 10;
      }
      assert M.Digits(rest) == [] && digits + [] == digits;
    }

    /** `add`, `mul`, `lt` and `eq`, which differ only in the value they store. */
    method Binary(kind: M.BinOp) returns (fault: Option<M.Fault>)
      modifies this
      ensures fault.None? ==> M.Binary(old(State()), kind) == Ok(State())
      ensures fault.Some? ==> M.Binary(old(State()), kind) == Err(fault.value) && State() == old(State())
    {
      var params := GetParams(3);
      if params.Err? {
        return Some(params.error);
      }
      var v1 := Load(params.value[0], M.ModeAt(modes, 0));
      if v1.Err? {
        return Some(v1.error);
      }
      var v2 := Load(params.value[1], M.ModeAt(modes, 1));
      if v2.Err? {
        return Some(v2.error);
      }
      var target := ResolveAddress(params.value[2], M.ModeAt(modes, 2));
      if target.Err? {
        return Some(target.error);
      }
      if target.value < 0 {
        return Some(M.OutOfBounds);
      }
      var v := M.Apply(kind, v1.value, v2.value);
      Poke(target.value, v);
      return None;
    }

    /** `read`: `waiting` is the WaitingOnInput interrupt, which leaves every field as it was. */
    method Read() returns (waiting: bool, fault: Option<M.Fault>)
      modifies this
      ensures fault.Some? ==> M.Read(old(State())) == Err(fault.value) && State() == old(State())
      ensures fault.None? && waiting ==> M.Read(old(State())) == Ok(None) && State() == old(State())
      ensures fault.None? && !waiting ==> M.Read(old(State())) == Ok(Some(State()))
    {
      var params := GetParams(1);
      if params.Err? {
        return false, Some(params.error);
      }
      if input == [] {
        return true, None;
      }
      var addr := ResolveAddress(params.value[0], M.ModeAt(modes, 0));
      if addr.Err? {
        return false, Some(addr.error);
      }
      if addr.value < 0 {
        return false, Some(M.OutOfBounds);
      }
      var v := input[0];
      Poke(addr.value, v);
      input := input[1..];
      return false, None;
    }

    /** `write`: one value appended to the output. */
    method Write() returns (fault: Option<M.Fault>)
      modifies this
      ensures fault.None? ==> M.Write(old(State())) == Ok(State())
      ensures fault.Some? ==> M.Write(old(State())) == Err(fault.value) && State() == old(State())
    {
      var params := GetParams(1);
      if params.Err? {
        return Some(params.error);
      }
      var v := Load(params.value[0], M.ModeAt(modes, 0));
      if v.Err? {
        return Some(v.error);
      }
      output := output + [v.value];
      return None;
    }

    /** `jump_if_true` (`nonZero`) and `jump_if_false` (`!nonZero`). */
    method JumpIf(nonZero: bool) returns (fault: Option<M.Fault>)
      modifies this
      ensures fault.None? ==> M.JumpIf(old(State()), nonZero) == Ok(State())
      ensures fault.Some? ==> M.JumpIf(old(State()), nonZero) == Err(fault.value) && State() == old(State())
    {
      var params := GetParams(2);
      if params.Err? {
        return Some(params.error);
      }
      var v1 := Load(params.value[0], M.ModeAt(modes, 0));
      if v1.Err? {
        return Some(v1.error);
      }
      var v2 := Load(params.value[1], M.ModeAt(modes, 1));
      if v2.Err? {
        return Some(v2.error);
      }
      if (v1.value != 0) == nonZero {
        ip := v2.value;
      } else {
        ip := ip + 3;
      }
      return None;
    }

    /** `rel`: the relative base moves by one value. */
    method Rel() returns (fault: Option<M.Fault>)
      modifies this
      ensures fault.None? ==> M.Rel(old(State())) == Ok(State())
      ensures fault.Some? ==> M.Rel(old(State())) == Err(fault.value) && State() == old(State())
    {
      var params := GetParams(1);
      if params.Err? {
        return Some(params.error);
      }
      var v := Load(params.value[0], M.ModeAt(modes, 0));
      if v.Err? {
        return Some(v.error);
      }
      relOffset := relOffset + v.value;
      return None;
    }

    /** `get_params(n)`: the `n` words after the instruction word. */
    method GetParams(n: nat) returns (r: Result<seq<int>, M.Fault>)
      ensures r == M.Params(State(), n)
    {
      if 0 <= ip && ip + 1 + n <= |memory| {
        r := Ok(memory[ip + 1 .. ip + 1 + n]);
      } else {
        r := Err(M.OutOfBounds);
      }
    }

    /** `load`: the value a parameter denotes in the given mode. */
    method Load(addr: int, mode: int) returns (r: Result<int, M.Fault>)
      ensures r == M.Load(State(), addr, mode)
    {
      if mode == 0 || mode == 2 {
        var a := ResolveAddress(addr, mode);
        r := Peek(a.value);
      } else if mode == 1 {
        r := Ok(addr);
      } else {
        r := Err(M.InvalidMode(mode));
      }
    }

    /** `peek`: the word at `addr`. */
    method Peek(addr: int) returns (r: Result<int, M.Fault>)
      ensures r == M.Peek(State(), addr)
    {
      if 0 <= addr < |memory| {
        r := Ok(memory[addr]);
      } else {
        r := Err(M.OutOfBounds);
      }
    }

    /** `poke`: grows memory with zeros when `addr` is past the end, then writes. */
    method Poke(addr: nat, value: int)
      modifies this
      ensures memory == M.Poke(old(memory), addr, value)
      ensures State() == old(State()).(memory := memory)
    {
      if addr >= |memory| {
        memory := memory + seq(addr + 1 - |memory|, _ => 0);
      }
      memory := memory[addr := value];
    }

    /** `resolve_address`: the address a target parameter denotes. */
    method ResolveAddress(addr: int, mode: int) returns (r: Result<int, M.Fault>)
      ensures r == M.ResolveAddress(State(), addr, mode)
    {
      if mode == 0 {
        r := Ok(addr);
      } else if mode == 2 {
        r := Ok(addr + relOffset);
      } else {
        r := Err(M.InvalidMode(mode));
      }
    }

    /** `pop_output`: every output so far, in emission order; the buffer is left empty. */
    method PopOutput() returns (out: seq<int>)
      modifies this
      ensures out == old(output)
      ensures State() == old(State()).(output := [])
    {
      out := output;
      output := [];
    }
  }
}
