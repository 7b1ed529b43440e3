/**
 * What the two compiling Interpreter classes share: Java int arithmetic,
 * the decoding of a three-digit instruction word, and the effect of
 * `execute` on the registers and the RAM.
 */
module VmCore {
  import opened Wrappers

  const NumRegisters := 10
  const RamSize := 1000
  /** The modulus of the arithmetic instructions (MAX_SIZE / MOD in the source). */
  const Modulus := 1000

  /** A Java int. */
  type Int32 = x: int | -0x8000_0000 <= x < 0x8000_0000

  /** The contents of `int[] registers = new int[10]`. */
  type Registers = s: seq<Int32> | |s| == NumRegisters witness seq(NumRegisters, _ => 0)

  /** The contents of `int[] ram = new int[1000]`. */
  type Memory = s: seq<Int32> | |s| == RamSize witness seq(RamSize, _ => 0)

  /** Java int arithmetic: reduce a mathematical result to 32 bits, two's complement. */
  function Wrap(x: int): (r: Int32)
    ensures -0x8000_0000 <= x < 0x8000_0000 ==> r == x
    ensures (x - r) % 0x1_0000_0000 == 0
  {
    (x + 0x8000_0000) % 0x1_0000_0000 - 0x8000_0000
  }

  /** Java's `/` for a positive divisor: the quotient is truncated towards zero. */
  function JDiv(a: int, b: int): (q: int)
    requires b > 0
    ensures a >= 0 ==> 0 <= a - b * q < b
    ensures a < 0 ==> -b < a - b * q <= 0
  {
    if a >= 0 then a / b else -((-a) / b)
  }

  /** Java's `%` for a positive divisor: the remainder takes the sign of a. */
  function JRem(a: int, b: int): (r: int)
    requires b > 0
    ensures a >= 0 ==> 0 <= r < b && r == a % b
    ensures a < 0 ==> -b < r <= 0
    ensures a == b * JDiv(a, b) + r
  {
    a - b * JDiv(a, b)
  }

  /** The fields of one instruction word: opcode, d, n. */
  datatype Instruction = Instruction(op: Int32, d: Int32, n: Int32)

  /** opcode = w / 100, d = (w / 10) % 10, n = w % 10, all with Java's operators. */
  function Decode(w: Int32): (i: Instruction)
    ensures -9 <= i.d <= 9 && -9 <= i.n <= 9
  {
    Instruction(JDiv(w, 100), JRem(JDiv(w, 10), 10), JRem(w, 10))
  }

  /** The word that holds a given opcode and two digits. */
  function Encode(op: int, d: int, n: int): int
  {
    100 * op + 10 * d + n
  }

  predicate IsDigit(k: int)
  {
    0 <= k <= 9
  }

  /**
   * A word in 0..999 decodes to three digits and is their encoding, so
   * every opcode it can yield is 0..9 and the IllegalArgumentException
   * branch of `execute` cannot be taken.
   */
  lemma DecodeInRange(w: Int32)
    requires 0 <= w < 1000
    ensures IsDigit(Decode(w).op) && IsDigit(Decode(w).d) && IsDigit(Decode(w).n)
    ensures Encode(Decode(w).op, Decode(w).d, Decode(w).n) == w
  {
    var q := w / 10;
    assert w == 10 * q + w % 10;
    assert q == 10 * (q / 10) + q % 10;
    assert q / 10 == w / 100;
    assert Decode(w) == Instruction(q / 10, q % 10, w % 10);
  }

  /** Decoding inverts encoding on three digits. */
  lemma DecodeEncode(op: int, d: int, n: int)
    requires IsDigit(op) && IsDigit(d) && IsDigit(n)
    ensures Decode(Encode(op, d, n)) == Instruction(op, d, n)
  {
    var w := Encode(op, d, n);
    assert w / 100 == op;
    assert w / 10 == 10 * op + d;
    assert (10 * op + d) % 10 == d;
    assert w % 10 == n;
  }

  /** Why `execute` throws: an array index out of bounds, or an opcode outside 0..9. */
  datatype Fault = IndexOutOfBounds | InvalidOpcode(opcode: int)

  /**
   * What `execute` does to the registers and the RAM: stop at a halt,
   * continue with new contents (and, for a taken jump, the target held in
   * registers[d]), or throw, leaving the contents as they were.
   */
  datatype Effect =
    | Halt
    | Continue(regs: Registers, ram: Memory, jump: Option<Int32>)
    | Fail(fault: Fault)

  predicate IsRegister(i: int)
  {
    0 <= i < NumRegisters
  }

  predicate IsAddress(i: int)
  {
    0 <= i < RamSize
  }

  /** `(a op b) % 1000` evaluated on Java ints. */
  function Reduce(x: int): Int32
  {
    JRem(Wrap(x), Modulus)
  }

  /** Without overflow, the reduction of a non-negative value is its remainder mod 1000. */
  lemma ReduceSmall(x: int)
    requires 0 <= x < 0x8000_0000
    ensures Reduce(x) == x % Modulus
  {
  }

  /**
   * The array indices the instruction uses are in bounds: registers[d]
   * for ops 2-9, registers[n] for ops 5-9 and 0, RAM address registers[n]
   * for ops 8 and 9, and registers[d] for op 0 only when the jump is taken.
   */
  predicate Accessible(regs: Registers, i: Instruction)
  {
    match i.op
    case 1 => true
    case 0 => IsRegister(i.n) && (regs[i.n] == 0 || IsRegister(i.d))
    case _ =>
      && IsRegister(i.d)
      && (i.op >= 5 ==> IsRegister(i.n))
      && (i.op >= 8 ==> IsRegister(i.n) && IsAddress(regs[i.n]))
  }

  /** The value ops 2-8 store in registers[d]. */
  function Result(regs: Registers, ram: Memory, i: Instruction): Int32
    requires 2 <= i.op <= 8 && Accessible(regs, i)
  {
    var d, n := i.d, i.n;
    match i.op
    case 2 => n
    case 3 => Reduce(regs[d] as int + n)
    case 4 => Reduce(regs[d] as int * n)
    case 5 => regs[n]
    case 6 => Reduce(regs[d] as int + regs[n])
    case 7 => Reduce(regs[d] as int * regs[n])
    case 8 => ram[regs[n]]
  }

  /**
   * The switch of `execute`, on the contents of the register file and the
   * RAM: an opcode outside 0..9 throws IllegalArgumentException, an index
   * out of bounds throws before anything is stored, op 1 halts, ops 2-8
   * store Result in registers[d], op 9 stores registers[d] at RAM address
   * registers[n], and op 0 jumps to registers[d] when registers[n] != 0.
   */
  function Execute(regs: Registers, ram: Memory, i: Instruction): Effect
  {
    if !IsDigit(i.op) then Fail(InvalidOpcode(i.op))
    else if !Accessible(regs, i) then Fail(IndexOutOfBounds)
    else if i.op == 1 then Halt
    else
      Continue(
        if i.op <= 8 && i.op >= 2 then regs[i.d := Result(regs, ram, i)] else regs,
        if i.op == 9 then ram[regs[i.n] := regs[i.d]] else ram,
        if i.op == 0 && regs[i.n] != 0 then Some(regs[i.d]) else None)
  }

  /** Every value in 0..999, as the class comment of the interpreter promises. */
  predicate AllInRange(s: seq<Int32>)
  {
    forall k :: 0 <= k < |s| ==> 0 <= s[k] < Modulus
  }

  /**
   * With registers and RAM in 0..999 and a word in 0..999, `execute` never
   * throws, the new contents stay in 0..999 and a jump target is an address.
   */
  lemma ExecuteKeepsRange(regs: Registers, ram: Memory, w: Int32)
    requires AllInRange(regs) && AllInRange(ram) && 0 <= w < 1000
    ensures !Execute(regs, ram, Decode(w)).Fail?
    ensures Execute(regs, ram, Decode(w)).Continue? ==>
              var e := Execute(regs, ram, Decode(w));
              AllInRange(e.regs) && AllInRange(e.ram) && (e.jump.Some? ==> IsAddress(e.jump.value))
  {
    var i := Decode(w);
    DecodeInRange(w);
    var d, n := i.d, i.n;
    if 2 <= i.op <= 8 {
      if i.op == 3 {
        ReduceSmall(regs[d] as int + n);
      } else if i.op == 4 {
        MulBound(regs[d], n);
        ReduceSmall(regs[d] as int * n);
      } else if i.op == 6 {
        ReduceSmall(regs[d] as int + regs[n]);
      } else if i.op == 7 {
        MulBound(regs[d], regs[n]);
        ReduceSmall(regs[d] as int * regs[n]);
      }
      assert 0 <= Result(regs, ram, i) < Modulus;
    }
  }

  lemma MulBound(a: int, b: int)
    requires 0 <= a < 1000 && 0 <= b < 1000
    ensures 0 <= a * b < 1000 * 1000
  {
    assert a * b <= a * 999 <= 999 * 999;
  }

  /**
   * Ops 2-8 change only registers[d]; op 9 changes only ram[registers[n]];
   * a jump changes neither; the halt changes nothing at all.
   */
  lemma ExecuteFrame(regs: Registers, ram: Memory, i: Instruction)
    requires Execute(regs, ram, i).Continue?
    ensures var e := Execute(regs, ram, i);
      && (2 <= i.op <= 8 ==>
            e.ram == ram && IsRegister(i.d) && forall k :: 0 <= k < NumRegisters && k != i.d ==> e.regs[k] == regs[k])
      && (i.op == 9 ==>
            e.regs == regs && IsRegister(i.n) && forall a :: 0 <= a < RamSize && a != regs[i.n] ==> e.ram[a] == ram[a])
      && (i.op == 0 ==> e.regs == regs && e.ram == ram)
      && (i.op != 0 ==> e.jump.None?)
  {
  }

  /** The jump rule: op 0 jumps to registers[d] exactly when registers[n] is non-zero. */
  lemma ExecuteJump(regs: Registers, ram: Memory, i: Instruction)
    requires i.op == 0
    requires Execute(regs, ram, i).Continue?
    ensures IsRegister(i.n)
    ensures Execute(regs, ram, i).jump.Some? <==> regs[i.n] != 0
    ensures Execute(regs, ram, i).jump.Some? ==> Execute(regs, ram, i).jump.value == regs[i.d]
  {
  }

  /** The state both interpreters keep: registers, RAM, program counter and instruction counter. */
  datatype Machine = Machine(regs: Registers, ram: Memory, pc: Int32, count: Int32)

  /**
   * The range invariant: registers and RAM in 0..999, and the program
   * counter an address or one past the last one.
   */
  predicate InRange(m: Machine)
  {
    AllInRange(m.regs) && AllInRange(m.ram) && 0 <= m.pc <= RamSize
  }

  /** The state `reset` establishes: everything 0. */
  function Initial(): (m: Machine)
    ensures InRange(m)
  {
    Machine(seq(NumRegisters, _ => 0), seq(RamSize, _ => 0), 0, 0)
  }

  /**
   * The state `loadProgram` leaves: the reset state with the first words
   * of RAM replaced by the program; of a program longer than the RAM, the
   * first 1000 words are stored before the store of word 1000 throws.
   */
  function Loaded(program: seq<Int32>): Machine
  {
    Machine(seq(NumRegisters, _ => 0), seq(RamSize, a requires 0 <= a < RamSize => if a < |program| then program[a] else 0), 0, 0)
  }

  /** loadProgram: the program is in RAM, every other cell, register and counter is 0. */
  lemma LoadedContents(program: seq<Int32>)
    ensures forall a :: 0 <= a < RamSize && a < |program| ==> Loaded(program).ram[a] == program[a]
    ensures forall a :: |program| <= a < RamSize ==> Loaded(program).ram[a] == 0
    ensures forall k :: 0 <= k < NumRegisters ==> Loaded(program).regs[k] == 0
    ensures Loaded(program).pc == 0 && Loaded(program).count == 0
  {
  }

  /** A program of words in 0..999 starts the machine inside the range invariant. */
  lemma LoadedInRange(program: seq<Int32>)
    requires AllInRange(program)
    ensures InRange(Loaded(program))
  {
  }

  /** How `execute` returns: true (halt), false (go on), or by throwing. */
  datatype Signal = Stop | Go | Throw(fault: Fault)

  /** One turn of the `while (true)` loop of `run`. */
  datatype Turn = Running(m: Machine) | Stopped(m: Machine) | Crashed(fault: Fault, m: Machine)

  /** How a bounded run ends: `run` returned, an exception escaped it, or the fuel ran out first. */
  datatype Status = Halted | Faulted(fault: Fault) | OutOfFuel

  datatype Outcome = Outcome(status: Status, m: Machine)

  /** The `while (true)` loop of `run`, for at most `fuel` turns, where one turn is `step`. */
  function RunWith(step: Machine -> Turn, m: Machine, fuel: nat): Outcome
    decreases fuel
  {
    if fuel == 0 then Outcome(OutOfFuel, m)
    else match step(m)
      case Running(next) => RunWith(step, next, fuel - 1)
      case Stopped(next) => Outcome(Halted, next)
      case Crashed(f, next) => Outcome(Faulted(f), next)
  }

  /** The number of instructions the first `fuel` turns fetch from the RAM, halt included. */
  function FetchesWith(step: Machine -> Turn, m: Machine, fuel: nat): nat
    decreases fuel
  {
    if fuel == 0 || !IsAddress(m.pc) then 0
    else match step(m)
      case Running(next) => 1 + FetchesWith(step, next, fuel - 1)
      case _ => 1
  }

  /**
   * A turn that fetches an instruction raises the counter by one, whatever
   * the instruction does; a fetch outside the RAM throws with the counter
   * as it was.
   */
  ghost predicate CountsEachFetch(step: Machine -> Turn)
  {
    && (forall m: Machine :: IsAddress(m.pc) ==> step(m).m.count == Wrap(m.count as int + 1))
    && (forall m: Machine :: !IsAddress(m.pc) ==> step(m).Crashed? && step(m).m.count == m.count)
  }

  /**
   * The counter after a bounded run is its start value plus the number of
   * fetched instructions, for runs too short to overflow the Java int.
   */
  lemma {:induction false} RunCountsFetchesWith(step: Machine -> Turn, m: Machine, fuel: nat)
    requires CountsEachFetch(step)
    requires 0 <= m.count && m.count as int + fuel < 0x8000_0000
    ensures FetchesWith(step, m, fuel) <= fuel
    ensures RunWith(step, m, fuel).m.count == m.count as int + FetchesWith(step, m, fuel)
    decreases fuel
  {
    if fuel > 0 {
      match step(m)
      case Running(next) =>
        RunCountsFetchesWith(step, next, fuel - 1);
      case Stopped(_) =>
      case Crashed(_, _) =>
    }
  }

  /** Adding in two wrapped steps is adding once. */
  lemma WrapAdd(a: int, b: int, c: int)
    ensures Wrap(Wrap(a + b) + c) == Wrap(a + (b + c))
  {
    var k := (a + b + 0x8000_0000) / 0x1_0000_0000;
    assert Wrap(a + b) == a + b - k * 0x1_0000_0000;
    var x := a + b + c;
    assert Wrap(a + b) + c == x - k * 0x1_0000_0000;
    ModShift(x + 0x8000_0000, k);
  }

  lemma ModShift(x: int, k: int)
    ensures (x - k * 0x1_0000_0000) % 0x1_0000_0000 == x % 0x1_0000_0000
  {
  }

  /** The wrapped decrement of the deferred jump is undone by the wrapped increment that follows it. */
  lemma WrapDecrementIncrement(x: Int32)
    ensures Wrap(Wrap(x - 1) + 1) == x
  {
  }
}
