/**
 * The Interpreter of pg_01/pg_01_06_interpreter/Main.java: `run` fetches
 * ram[programCounter], counts it, executes it and only then advances the
 * program counter, so a taken jump stores registers[d] - 1.
 */
module DeferredPcInterpreter {
  import opened Wrappers
  import opened VmCore

  /** The effect of `execute` on the whole state, including its early write of the program counter. */
  function ExecuteAt(m: Machine, i: Instruction): (r: (Signal, Machine))
    ensures r.1.count == m.count
    ensures r.0 != Go ==> r.1 == m
  {
    match VmCore.Execute(m.regs, m.ram, i)
    case Halt => (Stop, m)
    case Fail(f) => (Throw(f), m)
    case Continue(regs, ram, jump) =>
      (Go, Machine(regs, ram, if jump.Some? then Wrap(jump.value as int - 1) else m.pc, m.count))
  }

  /** One turn of `run`: fetch, count, execute, and increment the program counter unless halted. */
  function Step(m: Machine): Turn
  {
    if !IsAddress(m.pc) then Crashed(IndexOutOfBounds, m)
    else
      var counted := m.(count := Wrap(m.count as int + 1));
      var (signal, next) := ExecuteAt(counted, Decode(m.ram[m.pc]));
      match signal
      case Stop => Stopped(next)
      case Throw(f) => Crashed(f, next)
      case Go => Running(next.(pc := Wrap(next.pc as int + 1)))
  }

  /** `run` with at most `fuel` turns of its loop. */
  function RunFor(m: Machine, fuel: nat): Outcome
  {
    RunWith(Step, m, fuel)
  }

  /**
   * The halt is counted: a turn that fetches an instruction raises the
   * counter by one, whatever the instruction does; a fetch outside the
   * RAM throws before anything changes.
   */
  lemma StepCounts(m: Machine)
    ensures IsAddress(m.pc) ==> Step(m).m.count == Wrap(m.count as int + 1)
    ensures !IsAddress(m.pc) ==> Step(m) == Crashed(IndexOutOfBounds, m)
    ensures Step(m).Stopped? ==> Step(m).m == m.(count := Wrap(m.count as int + 1))
  {
  }

  /**
   * `run` returns the number of instructions it fetched, the halt included,
   * for runs too short to overflow the counter.
   */
  lemma RunCountsFetches(m: Machine, fuel: nat)
    requires 0 <= m.count && m.count as int + fuel < 0x8000_0000
    ensures RunFor(m, fuel).m.count == m.count as int + FetchesWith(Step, m, fuel)
  {
    forall m': Machine
      ensures IsAddress(m'.pc) ==> Step(m').m.count == Wrap(m'.count as int + 1)
      ensures !IsAddress(m'.pc) ==> Step(m').Crashed? && Step(m').m.count == m'.count
    {
      StepCounts(m');
    }
    RunCountsFetchesWith(Step, m, fuel);
  }

  /**
   * The next address: a taken jump (op 0 with registers[n] != 0) continues
   * at registers[d]; every other instruction that goes on continues at the
   * following address.
   */
  lemma StepNextAddress(m: Machine)
    requires Step(m).Running?
    ensures IsAddress(m.pc)
    ensures var i := Decode(m.ram[m.pc]);
      Step(m).m.pc == if i.op == 0 && m.regs[i.n] != 0 then m.regs[i.d] else m.pc + 1
  {
    var i := Decode(m.ram[m.pc]);
    if i.op == 0 && m.regs[i.n] != 0 {
      WrapDecrementIncrement(m.regs[i.d]);
    }
  }

  /**
   * The range invariant: from a state in range a turn never throws except
   * for the fetch at address 1000, and the state it reaches is in range.
   */
  lemma StepKeepsRange(m: Machine)
    requires InRange(m)
    ensures InRange(Step(m).m)
    ensures Step(m).Crashed? <==> m.pc == RamSize
    ensures Step(m).Crashed? ==> Step(m).fault == IndexOutOfBounds
  {
    if IsAddress(m.pc) {
      var w := m.ram[m.pc];
      assert 0 <= w < 1000;
      ExecuteKeepsRange(m.regs, m.ram, w);
      var e := VmCore.Execute(m.regs, m.ram, Decode(w));
      if e.Continue? && e.jump.Some? {
        WrapDecrementIncrement(e.jump.value);
      }
    }
  }

  /** The range invariant over a whole run, and the only error it can end in. */
  lemma {:induction false} RunKeepsRange(m: Machine, fuel: nat)
    requires InRange(m)
    ensures InRange(RunFor(m, fuel).m)
    ensures RunFor(m, fuel).status.Faulted? ==> RunFor(m, fuel).status.fault == IndexOutOfBounds && RunFor(m, fuel).m.pc == RamSize
    decreases fuel
  {
    if fuel > 0 {
      StepKeepsRange(m);
      match Step(m)
      case Running(next) =>
        RunKeepsRange(next, fuel - 1);
      case Stopped(_) =>
      case Crashed(_, _) =>
    }
  }

  /**
   * A loaded program of words in 0..999 keeps every register and RAM cell
   * in 0..999, never reaches the IllegalArgumentException branch, and can
   * fail only by running off the end of the RAM.
   */
  lemma LoadedProgramFaultsOnlyPastEnd(program: seq<Int32>, fuel: nat)
    requires AllInRange(program)
    ensures InRange(RunFor(Loaded(program), fuel).m)
    ensures RunFor(Loaded(program), fuel).status.Faulted? ==>
              RunFor(Loaded(program), fuel).status.fault == IndexOutOfBounds && RunFor(Loaded(program), fuel).m.pc == RamSize
  {
    LoadedInRange(program);
    RunKeepsRange(Loaded(program), fuel);
  }

  /** The virtual machine: 10 registers, 1000 RAM words and two counters. */
  class Interpreter {
    const registers: array<Int32>
    const ram: array<Int32>
    var programCounter: Int32
    var instructionCounter: Int32

    ghost predicate Valid()
      reads this
    {
      registers.Length == NumRegisters && ram.Length == RamSize && registers != ram
    }

    /** The state of the object, read as a Machine value. */
    ghost function State(): Machine
      requires Valid()
      reads this, registers, ram
    {
      Machine(registers[..], ram[..], programCounter, instructionCounter)
    }

    /** Java's zero-initialised arrays and fields. */
    constructor ()
      ensures Valid() && fresh(registers) && fresh(ram)
      ensures State() == Initial()
    {
      registers := new Int32[NumRegisters](_ => 0);
      ram := new Int32[RamSize](_ => 0);
      programCounter := 0;
      instructionCounter := 0;
    }

    /** reset: zero every register, every RAM cell and both counters. */
    method Reset()
      requires Valid()
      modifies this, registers, ram
      ensures Valid() && State() == Initial()
    {
      for k := 0 to NumRegisters
        invariant forall j :: 0 <= j < k ==> registers[j] == 0
      {
        registers[k] := 0;
      }
      for a := 0 to RamSize
        invariant forall j :: 0 <= j < a ==> ram[j] == 0
        invariant forall j :: 0 <= j < NumRegisters ==> registers[j] == 0
      {
        ram[a] := 0;
      }
      programCounter := 0;
      instructionCounter := 0;
    }

    /**
     * loadProgram: reset, then store word i at address i. A program longer
     * than the RAM throws at the store of word 1000, after the first 1000
     * words are in place; `ok` is false in that case.
     */
    method LoadProgram(program: seq<Int32>) returns (ok: bool)
      requires Valid()
      modifies this, registers, ram
      ensures Valid() && State() == Loaded(program)
      ensures ok <==> |program| <= RamSize
    {
      Reset();
      var i := 0;
      while i < |program|
        invariant Valid() && 0 <= i <= |program| && i <= RamSize
        invariant forall k :: 0 <= k < NumRegisters ==> registers[k] == 0
        invariant forall a :: 0 <= a < RamSize ==> ram[a] == if a < i then program[a] else 0
        invariant programCounter == 0 && instructionCounter == 0
      {
        if i >= RamSize {
          assert ram[..] == Loaded(program).ram;
          assert registers[..] == Loaded(program).regs;
          return false;
        }
        ram[i] := program[i];
        i := i + 1;
      }
      assert ram[..] == Loaded(program).ram;
      assert registers[..] == Loaded(program).regs;
      return true;
    }

    /** execute: the switch on the opcode; a taken jump writes registers[d] - 1 to the program counter. */
    method Execute(i: Instruction) returns (r: Signal)
      requires Valid()
      modifies this, registers, ram
      ensures Valid()
      ensures (r, State()) == ExecuteAt(old(State()), i)
    {
      var d, n := i.d, i.n;
      match i.op {
        case 1 => return Stop;
        case 2 =>
          if !IsRegister(d) { return Throw(IndexOutOfBounds); }
          registers[d] := n;
        case 3 =>
          if !IsRegister(d) { return Throw(IndexOutOfBounds); }
          registers[d] := Reduce(registers[d] as int + n);
        case 4 =>
          if !IsRegister(d) { return Throw(IndexOutOfBounds); }
          registers[d] := Reduce(registers[d] as int * n);
        case 5 =>
          if !IsRegister(d) || !IsRegister(n) { return Throw(IndexOutOfBounds); }
          registers[d] := registers[n];
        case 6 =>
          if !IsRegister(d) || !IsRegister(n) { return Throw(IndexOutOfBounds); }
          registers[d] := Reduce(registers[d] as int + registers[n]);
        case 7 =>
          if !IsRegister(d) || !IsRegister(n) { return Throw(IndexOutOfBounds); }
          registers[d] := Reduce(registers[d] as int * registers[n]);
        case 8 =>
          if !IsRegister(d) || !IsRegister(n) || !IsAddress(registers[n]) { return Throw(IndexOutOfBounds); }
          registers[d] := ram[registers[n]];
        case 9 =>
          if !IsRegister(d) || !IsRegister(n) || !IsAddress(registers[n]) { return Throw(IndexOutOfBounds); }
          ram[registers[n]] := registers[d];
        case 0 =>
          if !IsRegister(n) { return Throw(IndexOutOfBounds); }
          if registers[n] != 0 {
            if !IsRegister(d) { return Throw(IndexOutOfBounds); }
            programCounter := Wrap(registers[d] as int - 1);
          }
        case _ => return Throw(InvalidOpcode(i.op));
      }
      return Go;
    }

    /**
     * One turn of the loop of `run`: fetch ram[programCounter], count it,
     * execute it, and increment the program counter unless it halted or threw.
     */
    method Cycle() returns (r: Signal)
      requires Valid()
      modifies this, registers, ram
      ensures Valid()
      ensures r == Go ==> Step(old(State())) == Running(State())
      ensures r == Stop ==> Step(old(State())) == Stopped(State())
      ensures r.Throw? ==> Step(old(State())) == Crashed(r.fault, State())
    {
      if !IsAddress(programCounter) {
        return Throw(IndexOutOfBounds);
      }
      var instruction := ram[programCounter];
      instructionCounter := Wrap(instructionCounter as int + 1);
      r := Execute(Decode(instruction));
      if r == Go {
        programCounter := Wrap(programCounter as int + 1);
      }
    }

    /**
     * run, for at most `fuel` turns of its loop: the final state is the one
     * the bounded run reaches, and `executed` is the value `run` returns,
     * the instruction counter.
     */
    method Run(fuel: nat) returns (status: Status, executed: Int32)
      requires Valid()
      modifies this, registers, ram
      ensures Valid()
      ensures Outcome(status, State()) == RunFor(old(State()), fuel)
      ensures executed == instructionCounter
    {
      var remaining: nat := fuel;
      while true
        invariant Valid() && remaining <= fuel
        invariant RunFor(old(State()), fuel) == RunFor(State(), remaining)
        decreases remaining
      {
        if remaining == 0 {
          return OutOfFuel, instructionCounter;
        }
        var signal := Cycle();
        match signal {
          case Stop => return Halted, instructionCounter;
          case Throw(f) => return Faulted(f), instructionCounter;
          case Go =>
        }
        remaining := remaining - 1;
      }
    }
  }
}
