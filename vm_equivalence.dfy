/**
 * The two compiling Interpreter classes differ only in when the program
 * counter moves: one defers the increment and compensates a taken jump by
 * storing registers[d] - 1, the other increments during the fetch and
 * stores registers[d]. They run every program alike: same outcome, same
 * registers, RAM and instruction count; the program counters differ only
 * after a halt or an exception, by the increment one of them has done.
 */
module InterpreterEquivalence {
  import opened VmCore
  import Deferred = DeferredPcInterpreter
  import Fetch = FetchIncrementInterpreter

  /** Equal registers, RAM and instruction counter. */
  predicate SameExceptPc(m1: Machine, m2: Machine)
  {
    m1.regs == m2.regs && m1.ram == m2.ram && m1.count == m2.count
  }

  /** One turn: the same kind of turn; after a turn that goes on, the very same state. */
  lemma StepsAgree(m: Machine)
    ensures Deferred.Step(m).Running? ==> Fetch.Step(m) == Deferred.Step(m)
    ensures Deferred.Step(m).Stopped? ==> Fetch.Step(m).Stopped? && SameExceptPc(Deferred.Step(m).m, Fetch.Step(m).m)
    ensures Deferred.Step(m).Crashed? ==>
              && Fetch.Step(m).Crashed? && Fetch.Step(m).fault == Deferred.Step(m).fault
              && SameExceptPc(Deferred.Step(m).m, Fetch.Step(m).m)
  {
    if IsAddress(m.pc) {
      var e := VmCore.Execute(m.regs, m.ram, Decode(m.ram[m.pc]));
      if e.Continue? && e.jump.Some? {
        WrapDecrementIncrement(e.jump.value);
      }
    }
  }

  /** A whole bounded run: same status, same registers, RAM and count, and the same state when the fuel runs out. */
  lemma {:induction false} RunsAgree(m: Machine, fuel: nat)
    ensures Deferred.RunFor(m, fuel).status == Fetch.RunFor(m, fuel).status
    ensures SameExceptPc(Deferred.RunFor(m, fuel).m, Fetch.RunFor(m, fuel).m)
    ensures Deferred.RunFor(m, fuel).status == OutOfFuel ==> Deferred.RunFor(m, fuel).m == Fetch.RunFor(m, fuel).m
    decreases fuel
  {
    if fuel > 0 {
      StepsAgree(m);
      match Deferred.Step(m)
      case Running(next) =>
        RunsAgree(next, fuel - 1);
      case Stopped(_) =>
      case Crashed(_, _) =>
    }
  }

  /** For the same loaded program both `run` methods halt together and return the same count. */
  lemma SameCount(program: seq<Int32>, fuel: nat)
    ensures Deferred.RunFor(Loaded(program), fuel).status == Halted <==> Fetch.RunFor(Loaded(program), fuel).status == Halted
    ensures Deferred.RunFor(Loaded(program), fuel).status == Halted ==> Fetch.RunFor(Loaded(program), fuel).m.count == Deferred.RunFor(Loaded(program), fuel).m.count
  {
    RunsAgree(Loaded(program), fuel);
  }
}
