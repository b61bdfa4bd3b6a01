/**
 * The IntCode machine as a value: the state of an `IntCodeCPU` and what one
 * instruction, and a whole `run`, does to it. The class in module IntCode is
 * proved against these functions; the lemmas in IntCodeFacts are about them.
 *
 * Every panic of the interpreter is an explicit `Fault`. Words are unbounded
 * integers (i64 overflow is not modelled).
 */
module IntCodeMachine {
  import opened Wrappers
  import Numbers

  /** Why the interpreter stops with a panic. */
  datatype Fault =
    | OutOfBounds                      // an index at or past the end of memory, or a negative address
    | InvalidMode(mode: int)           // a mode other than 0 and 2 for a target, other than 0, 1, 2 for a value
    | InvalidOpcode(op: int, ip: int)  // an opcode outside 1..9 and 99
    | EndOfOpcodes                     // `run` called on a halted machine

  /** A decoded instruction word: the opcode and the mode digits, least significant first. */
  datatype Instruction = Instruction(op: int, modes: seq<int>)

  /** The fields of an IntCodeCPU. */
  datatype Machine = Machine(
    memory: seq<int>,
    ip: int,
    halted: bool,
    input: seq<int>,
    output: seq<int>,
    modes: seq<int>,
    relOffset: int)

  /** How `run` returns: `Ok(value)` on halt, `Err(WaitingOnInput)`, a panic, or the fuel bound. */
  datatype Exit = Halted(value: int) | WaitingOnInput | Faulted(fault: Fault) | OutOfFuel

  datatype Status = Running | Stopped(exit: Exit)

  /** The status after executing something, and the machine it leaves. */
  datatype Effect = Effect(status: Status, after: Machine)

  /** The machine `build` creates. */
  function Initial(memory: seq<int>, input: seq<int>): (m: Machine)
    ensures m.memory == memory && m.input == input && m.output == [] && m.modes == []
    ensures m.ip == 0 && m.relOffset == 0 && !m.halted
  {
    Machine(memory, 0, false, input, [], [], 0)
  }

  /** Integer division rounding toward zero, as Rust's `/` on i64. */
  function Quot(a: int, b: int): (q: int)
    requires b > 0
    ensures a >= 0 ==> q == a / b
    ensures a < 0 ==> q == -((-a) / b)
  {
    if a >= 0 then a / b else -((-a) / b)
  }

  /** The remainder that goes with `Quot`, as Rust's `%` on i64: it takes the sign of `a`. */
  function Rem(a: int, b: int): (r: int)
    requires b > 0
    ensures a == b * Quot(a, b) + r
    ensures -b < r < b
    ensures a >= 0 ==> r == a % b
    ensures a < 0 ==> r <= 0
  {
    a - b * Quot(a, b)
  }

  /** The decimal digits of `n`, least significant first; none when `n <= 0`. */
  function Digits(n: int): (ds: seq<int>)
    ensures forall i :: 0 <= i < |ds| ==> 0 <= ds[i] <= 9
    ensures n > 0 ==> ds != [] && ds[|ds| - 1] != 0
    ensures n <= 0 ==> ds == []
    decreases n
  {
    if n <= 0 then [] else [n % 10] + Digits(n / 10)
  }

  /** The number whose decimal digits, least significant first, are `ds`. */
  function FromDigits(ds: seq<int>): int {
    if ds == [] then 0 else ds[0] + 10 * FromDigits(ds[1..])
  }

  /** What `get_instruction` computes from one instruction word. */
  function Decode(word: int): (ins: Instruction)
    ensures -100 < ins.op < 100
    ensures word >= 0 ==> ins.op == word % 100
    ensures forall i :: 0 <= i < |ins.modes| ==> 0 <= ins.modes[i] <= 9
    ensures word < 100 ==> ins.modes == []
  {
    Instruction(Rem(word, 100), Digits(Quot(word, 100)))
  }

  /** `modes.get(i).unwrap_or(&0)`: a parameter without a mode digit is in position mode. */
  function ModeAt(modes: seq<int>, i: nat): (mode: int)
    ensures i < |modes| ==> mode == modes[i]
    ensures i >= |modes| ==> mode == 0
  {
    if i < |modes| then modes[i] else 0
  }

  /** Decoding the word at `ip`; `memory[ip]` panics past the end (a negative ip is a wrapped usize). */
  function Fetch(m: Machine): (r: Result<Instruction, Fault>)
    ensures r.Ok? <==> 0 <= m.ip < |m.memory|
    ensures r.Ok? ==> r.value == Decode(m.memory[m.ip])
    ensures r.Err? ==> r.error == OutOfBounds
  {
    if 0 <= m.ip < |m.memory| then Ok(Decode(m.memory[m.ip])) else Err(OutOfBounds)
  }

  /** `get_params(n)`: the slice `memory[ip + 1 .. ip + 1 + n]`. */
  function Params(m: Machine, n: nat): (r: Result<seq<int>, Fault>)
    ensures r.Ok? <==> 0 <= m.ip && m.ip + 1 + n <= |m.memory|
    ensures r.Ok? ==> |r.value| == n
    ensures r.Ok? ==> forall k :: 0 <= k < n ==> r.value[k] == m.memory[m.ip + 1 + k]
    ensures r.Err? ==> r.error == OutOfBounds
  {
    if 0 <= m.ip && m.ip + 1 + n <= |m.memory| then Ok(m.memory[m.ip + 1 .. m.ip + 1 + n]) else Err(OutOfBounds)
  }

  /** `peek(addr)`: reading never grows memory; past the end, or below 0, is a fault. */
  function Peek(m: Machine, addr: int): (r: Result<int, Fault>)
    ensures r.Ok? <==> 0 <= addr < |m.memory|
    ensures r.Ok? ==> r.value == m.memory[addr]
    ensures r.Err? ==> r.error == OutOfBounds
  {
    if 0 <= addr < |m.memory| then Ok(m.memory[addr]) else Err(OutOfBounds)
  }

  /** `resolve_address`: position mode is the parameter itself, relative mode adds the relative base. */
  function ResolveAddress(m: Machine, param: int, mode: int): (r: Result<int, Fault>)
    ensures mode == 0 ==> r == Ok(param)
    ensures mode == 2 ==> r == Ok(param + m.relOffset)
    ensures mode != 0 && mode != 2 ==> r == Err(InvalidMode(mode))
  {
    if mode == 0 then Ok(param)
    else if mode == 2 then Ok(param + m.relOffset)
    else Err(InvalidMode(mode))
  }

  /** `load`: immediate mode gives the parameter, the other two read the cell it addresses. */
  function Load(m: Machine, param: int, mode: int): (r: Result<int, Fault>)
    ensures mode == 1 ==> r == Ok(param)
    ensures mode == 0 ==> r == Peek(m, param)
    ensures mode == 2 ==> r == Peek(m, param + m.relOffset)
    ensures mode != 0 && mode != 1 && mode != 2 ==> r == Err(InvalidMode(mode))
  {
    if mode == 0 || mode == 2 then Peek(m, ResolveAddress(m, param, mode).value)
    else if mode == 1 then Ok(param)
    else Err(InvalidMode(mode))
  }

  /** `poke`: memory grows with zeros to reach `addr`, then `addr` holds `value`. */
  function Poke(memory: seq<int>, addr: nat, value: int): (r: seq<int>)
    ensures |r| == Numbers.Max(|memory|, addr + 1)
    ensures r[addr] == value
    ensures forall i :: 0 <= i < |memory| && i != addr ==> r[i] == memory[i]
    ensures forall i :: |memory| <= i < |r| && i != addr ==> r[i] == 0
  {
    var grown := if addr < |memory| then memory else memory + seq(addr + 1 - |memory|, _ => 0);
    grown[addr := value]
  }

  /** `poke(addr as usize, value)` for a resolved target: a negative address wraps to one no memory can hold. */
  function Store(m: Machine, addr: int, value: int): (r: Result<Machine, Fault>)
    ensures r.Ok? <==> addr >= 0
    ensures r.Ok? ==> r.value == m.(memory := Poke(m.memory, addr, value))
  {
    if addr < 0 then Err(OutOfBounds) else Ok(m.(memory := Poke(m.memory, addr, value)))
  }

  /** The four three-parameter opcodes: add (1), mul (2), lt (7), eq (8). */
  datatype BinOp = Plus | Times | LessThan | Equals

  /** The value an arithmetic or compare opcode writes: a sum, a product, or 1/0 for `<` and `==`. */
  function Apply(op: BinOp, a: int, b: int): (v: int)
    ensures op == LessThan || op == Equals ==> 0 <= v <= 1
    ensures op == LessThan ==> (v == 1 <==> a < b)
    ensures op == Equals ==> (v == 1 <==> a == b)
    ensures op == Plus && b == 0 ==> v == a
    ensures op == Times && (a == 0 || b == 0) ==> v == 0
  {
    match op
    case Plus => a + b
    case Times => a * b
    case LessThan => if a < b then 1 else 0
    case Equals => if a == b then 1 else 0
  }

  /** `add`, `mul`, `lt`, `eq`: two values and a target; `run` advances ip afterwards. */
  function Binary(m: Machine, op: BinOp): (r: Result<Machine, Fault>)
    ensures Params(m, 3).Err? ==> r == Err(OutOfBounds)
    ensures r.Ok? ==> r.value == m.(memory := r.value.memory) && |r.value.memory| >= |m.memory|
  {
    var ps :- Params(m, 3);
    var a :- Load(m, ps[0], ModeAt(m.modes, 0));
    var b :- Load(m, ps[1], ModeAt(m.modes, 1));
    var target :- ResolveAddress(m, ps[2], ModeAt(m.modes, 2));
    Store(m, target, Apply(op, a, b))
  }

  /** `read`: `Ok(None)` is the WaitingOnInput interrupt; otherwise the head of the input is stored and removed. */
  function Read(m: Machine): (r: Result<Option<Machine>, Fault>)
    ensures Params(m, 1).Err? ==> r == Err(OutOfBounds)
    ensures Params(m, 1).Ok? && m.input == [] ==> r == Ok(None)
    ensures r.Ok? && r.value.Some? ==>
      m.input != [] && r.value.value == m.(memory := r.value.value.memory, input := m.input[1..])
  {
    var ps :- Params(m, 1);
    if m.input == [] then Ok(None)
    else
      var target :- ResolveAddress(m, ps[0], ModeAt(m.modes, 0));
      var stored :- Store(m, target, m.input[0]);
      Ok(Some(stored.(input := stored.input[1..])))
  }

  /** `write`: one value appended to the output. */
  function Write(m: Machine): (r: Result<Machine, Fault>)
    ensures Params(m, 1).Err? ==> r == Err(OutOfBounds)
    ensures r.Ok? ==> r.value == m.(output := r.value.output)
    ensures r.Ok? ==> |r.value.output| == |m.output| + 1 && r.value.output[..|m.output|] == m.output
  {
    var ps :- Params(m, 1);
    var v :- Load(m, ps[0], ModeAt(m.modes, 0));
    Ok(m.(output := m.output + [v]))
  }

  /** `jump_if_true` (`nonZero`) and `jump_if_false` (`!nonZero`): these set ip themselves. */
  function JumpIf(m: Machine, nonZero: bool): (r: Result<Machine, Fault>)
    ensures Params(m, 2).Err? ==> r == Err(OutOfBounds)
    ensures r.Ok? ==> r.value == m.(ip := r.value.ip)
  {
    var ps :- Params(m, 2);
    var a :- Load(m, ps[0], ModeAt(m.modes, 0));
    var b :- Load(m, ps[1], ModeAt(m.modes, 1));
    if (a != 0) == nonZero then Ok(m.(ip := b)) else Ok(m.(ip := m.ip + 3))
  }

  /** `rel`: the relative base moves by one value. */
  function Rel(m: Machine): (r: Result<Machine, Fault>)
    ensures Params(m, 1).Err? ==> r == Err(OutOfBounds)
    ensures r.Ok? ==> r.value == m.(relOffset := r.value.relOffset)
  {
    var ps :- Params(m, 1);
    var v :- Load(m, ps[0], ModeAt(m.modes, 0));
    Ok(m.(relOffset := m.relOffset + v))
  }

  /** The `self.ip += width` that `run` does after a helper that returned normally. */
  function Advance(r: Result<Machine, Fault>, m: Machine, width: nat): (e: Effect)
    ensures e.status.Running? <==> r.Ok?
    ensures r.Ok? ==> e.after == r.value.(ip := r.value.ip + width)
    ensures r.Err? ==> e == Effect(Stopped(Faulted(r.error)), m)
  {
    match r
    case Ok(next) => Effect(Running, next.(ip := next.ip + width))
    case Err(f) => Effect(Stopped(Faulted(f)), m)
  }

  /** One arm of the `match op` in `run`, for a machine whose `modes` are already set. */
  function Exec(m: Machine, op: int): (e: Effect)
    ensures e.status.Running? ==> 1 <= op <= 9
    ensures e.status.Stopped? && op != 99 ==> e.after == m
    ensures op == 99 ==> e.status.Stopped? && e.after == m.(halted := true)
    ensures (op < 1 || 9 < op) && op != 99 ==> e == Effect(Stopped(Faulted(InvalidOpcode(op, m.ip))), m)
  {
    if op == 1 then Advance(Binary(m, Plus), m, 4)
    else if op == 2 then Advance(Binary(m, Times), m, 4)
    else if op == 3 then
      match Read(m)
      case Err(f) => Effect(Stopped(Faulted(f)), m)
      case Ok(None) => Effect(Stopped(WaitingOnInput), m)
      case Ok(Some(next)) => Effect(Running, next.(ip := next.ip + 2))
    else if op == 4 then Advance(Write(m), m, 2)
    else if op == 5 then Advance(JumpIf(m, true), m, 0)
    else if op == 6 then Advance(JumpIf(m, false), m, 0)
    else if op == 7 then Advance(Binary(m, LessThan), m, 4)
    else if op == 8 then Advance(Binary(m, Equals), m, 4)
    else if op == 9 then Advance(Rel(m), m, 2)
    else if op == 99 then
      var h := m.(halted := true);
      match Peek(h, 0)
      case Ok(v) => Effect(Stopped(Halted(v)), h)
      case Err(f) => Effect(Stopped(Faulted(f)), h)
    else Effect(Stopped(Faulted(InvalidOpcode(op, m.ip))), m)
  }

  /** One iteration of the loop in `run`: decode, set `modes`, dispatch. */
  function Step(m: Machine): (e: Effect)
    ensures Fetch(m).Err? ==> e == Effect(Stopped(Faulted(OutOfBounds)), m)
    ensures e.status.Running? ==> Fetch(m).Ok? && 1 <= Fetch(m).value.op <= 9
    ensures e.status.Stopped? ==>
      e.after.memory == m.memory && e.after.input == m.input && e.after.output == m.output
  {
    match Fetch(m)
    case Err(f) => Effect(Stopped(Faulted(f)), m)
    case Ok(ins) => Exec(m.(modes := ins.modes), ins.op)
  }

  /** `run` with at most `fuel` iterations: it always ends stopped. */
  function RunSpec(m: Machine, fuel: nat): (r: Effect)
    ensures r.status.Stopped?
    decreases fuel
  {
    if m.halted then Effect(Stopped(Faulted(EndOfOpcodes)), m)
    else if fuel == 0 then Effect(Stopped(OutOfFuel), m)
    else
      var e := Step(m);
      if e.status.Running? then RunSpec(e.after, fuel - 1) else e
  }
}
