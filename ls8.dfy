/** The LS-8 machine as values: its state, one iteration of the
    fetch-decode-execute loop, the ALU, and a run bounded by fuel.
    Registers and memory cells hold unbounded integers: nothing in the
    CPU reduces a value modulo 256. */
module Ls8 {
  import opened PyBuiltins

  const RegCount: nat := 8
  const RamSize: nat := 256

  /** Register 7 serves as the stack pointer. */
  const SP: nat := 7

  // The opcodes the run loop recognises.
  const HLT: int := 0x01
  const LDI: int := 0x82
  const PRN: int := 0x47
  const MUL: int := 0xA2
  const PUSH: int := 0x45
  const POP: int := 0x46

  predicate IsKnownOpcode(ir: int) {
    ir == HLT || ir == LDI || ir == PRN || ir == MUL || ir == PUSH || ir == POP
  }

  /** The register file, the memory and the program counter. */
  datatype Machine = Machine(reg: seq<int>, ram: seq<int>, pc: nat)

  predicate WellSized(m: Machine) {
    |m.reg| == RegCount && |m.ram| == RamSize
  }

  /** A freshly constructed machine: eight zero registers, 256 zero memory
      cells, the program counter at 0. */
  function Initial(): (m: Machine)
    ensures WellSized(m) && m.pc == 0
    ensures forall i :: 0 <= i < RegCount ==> m.reg[i] == 0
    ensures forall a :: 0 <= a < RamSize ==> m.ram[a] == 0
  {
    Machine(seq(RegCount, _ => 0), seq(RamSize, _ => 0), 0)
  }

  /** What one iteration of the loop did: whether the loop goes on, stops
      at HLT, or raises; the state afterwards (on a raise, the state at the
      moment of the raise); and what PRN printed. */
  datatype Outcome = Running | Halted | Raised(error: PyError)
  datatype Transition = Transition(outcome: Outcome, next: Machine, printed: seq<int>)

  /** The ALU: "ADD" adds register b into register a, "MUL" multiplies
      register a by register b and moves the program counter on by 2; any
      other name raises. */
  function AluEffect(op: string, a: int, b: int, m: Machine): Result<Machine>
    requires WellSized(m)
  {
    if op == "ADD" then
      match (Get(m.reg, a), Get(m.reg, b))
      case (Ok(x), Ok(y)) => Ok(m.(reg := Set(m.reg, a, x + y).value))
      case _ => Err(IndexError)
    else if op == "MUL" then
      match (Get(m.reg, a), Get(m.reg, b))
      case (Ok(x), Ok(y)) => Ok(m.(reg := Set(m.reg, a, x * y).value, pc := m.pc + 2))
      case _ => Err(IndexError)
    else Err(UnsupportedAluOperation)
  }

  /** One iteration of the run loop: fetch the opcode and both following
      bytes, then dispatch. An opcode outside the six does nothing at all,
      not even move the program counter. */
  function Execute(m: Machine): (t: Transition)
    requires WellSized(m)
    ensures WellSized(t.next)
    ensures t.outcome.Raised? ==> t.next.pc == m.pc && t.next.ram == m.ram && t.printed == []
    ensures |t.printed| <= 1
  {
    if m.pc + 2 >= RamSize then Transition(Raised(IndexError), m, [])
    else
      var ir, a, b := m.ram[m.pc], m.ram[m.pc + 1], m.ram[m.pc + 2];
      if ir == HLT then
        Transition(Halted, m.(pc := m.pc + 1), [])
      else if ir == LDI then
        match Set(m.reg, a, b)
        case Ok(reg') => Transition(Running, m.(reg := reg', pc := m.pc + 3), [])
        case Err(e) => Transition(Raised(e), m, [])
      else if ir == PRN then
        match Get(m.reg, a)
        case Ok(v) => Transition(Running, m.(pc := m.pc + 2), [v])
        case Err(e) => Transition(Raised(e), m, [])
      else if ir == MUL then
        match AluEffect("MUL", a, b, m)
        case Ok(m') => Transition(Running, m'.(pc := m'.pc + 1), [])
        case Err(e) => Transition(Raised(e), m, [])
      else if ir == PUSH then
        match Get(m.reg, a)
        case Err(e) => Transition(Raised(e), m, [])
        case Ok(v) =>
          // the stack pointer is decremented before the store can raise
          var m1 := m.(reg := m.reg[SP := m.reg[SP] - 1]);
          match Set(m1.ram, m1.reg[SP], v)
          case Ok(ram') => Transition(Running, m1.(ram := ram', pc := m.pc + 2), [])
          case Err(e) => Transition(Raised(e), m1, [])
      else if ir == POP then
        match Get(m.ram, m.reg[SP])
        case Err(e) => Transition(Raised(e), m, [])
        case Ok(v) =>
          match Set(m.reg, a, v)
          case Err(e) => Transition(Raised(e), m, [])
          case Ok(reg1) => Transition(Running, m.(reg := reg1[SP := reg1[SP] + 1], pc := m.pc + 2), [])
      else
        Transition(Running, m, [])
  }

  /** The run loop given at most `fuel` iterations; `Running` at the end
      means the fuel ran out first. */
  function RunFrom(fuel: nat, m: Machine): (t: Transition)
    requires WellSized(m)
    ensures WellSized(t.next)
    ensures t.next.pc >= m.pc
    decreases fuel
  {
    if fuel == 0 then Transition(Running, m, [])
    else
      var step := Execute(m);
      if !step.outcome.Running? then step
      else
        var rest := RunFrom(fuel - 1, step.next);
        Transition(rest.outcome, rest.next, step.printed + rest.printed)
  }

  /** The register index an operand byte names, as Python indexing reads it. */
  function RegIndex(op: int): Option<nat> {
    Index(op, RegCount)
  }

  // ---------------------------------------------------------------------
  // One lemma per instruction
  // ---------------------------------------------------------------------

  /** Every instruction reads two operand bytes, so an opcode in one of the
      last two cells raises IndexError before anything changes. */
  lemma OperandFetchPastEnd(m: Machine)
    requires WellSized(m) && m.pc + 2 >= RamSize
    ensures Execute(m) == Transition(Raised(IndexError), m, [])
  {
  }

  lemma HltStops(m: Machine)
    requires WellSized(m) && m.pc + 2 < RamSize && m.ram[m.pc] == HLT
    ensures Execute(m) == Transition(Halted, m.(pc := m.pc + 1), [])
  {
  }

  /** LDI sets the named register to the immediate byte and skips three
      cells; memory and the other registers stay as they were. */
  lemma LdiSetsRegister(m: Machine)
    requires WellSized(m) && m.pc + 2 < RamSize && m.ram[m.pc] == LDI
    ensures var t := Execute(m);
      match RegIndex(m.ram[m.pc + 1])
      case Some(i) =>
        && t.outcome == Running && t.printed == []
        && t.next.reg[i] == m.ram[m.pc + 2]
        && (forall j :: 0 <= j < RegCount && j != i ==> t.next.reg[j] == m.reg[j])
        && t.next.ram == m.ram && t.next.pc == m.pc + 3
      case None => t == Transition(Raised(IndexError), m, [])
  {
  }

  /** PRN prints the named register and skips two cells, changing no
      register and no memory cell. */
  lemma PrnPrintsRegister(m: Machine)
    requires WellSized(m) && m.pc + 2 < RamSize && m.ram[m.pc] == PRN
    ensures var t := Execute(m);
      match RegIndex(m.ram[m.pc + 1])
      case Some(i) => t == Transition(Running, m.(pc := m.pc + 2), [m.reg[i]])
      case None => t == Transition(Raised(IndexError), m, [])
  {
  }

  /** MUL multiplies register a by register b with no wrap-around; the
      program counter moves by 2 inside the ALU and by 1 in the loop. */
  lemma MulMultiplies(m: Machine)
    requires WellSized(m) && m.pc + 2 < RamSize && m.ram[m.pc] == MUL
    ensures var t := Execute(m);
      match (RegIndex(m.ram[m.pc + 1]), RegIndex(m.ram[m.pc + 2]))
      case (Some(i), Some(j)) =>
        && t.outcome == Running && t.printed == []
        && t.next.reg == m.reg[i := m.reg[i] * m.reg[j]]
        && t.next.ram == m.ram && t.next.pc == m.pc + 3
      case _ => t == Transition(Raised(IndexError), m, [])
  {
  }

  /** ADD adds register b into register a and leaves the program counter
      alone; a name other than "ADD" or "MUL" raises before anything
      changes. */
  lemma AluAddAndUnknown(op: string, a: int, b: int, m: Machine)
    requires WellSized(m)
    ensures op != "ADD" && op != "MUL" ==> AluEffect(op, a, b, m) == Err(UnsupportedAluOperation)
    ensures op == "ADD" ==>
      match (RegIndex(a), RegIndex(b))
      case (Some(i), Some(j)) => AluEffect(op, a, b, m) == Ok(m.(reg := m.reg[i := m.reg[i] + m.reg[j]]))
      case _ => AluEffect(op, a, b, m) == Err(IndexError)
  {
  }

  /** MUL multiplies register a by register b, with no wrap-around, and
      moves the program counter on by 2 inside the ALU itself; a bad
      register index raises before anything changes. */
  lemma AluMul(a: int, b: int, m: Machine)
    requires WellSized(m)
    ensures match (RegIndex(a), RegIndex(b))
      case (Some(i), Some(j)) =>
        AluEffect("MUL", a, b, m) == Ok(m.(reg := m.reg[i := m.reg[i] * m.reg[j]], pc := m.pc + 2))
      case _ => AluEffect("MUL", a, b, m) == Err(IndexError)
  {
  }

  /** PUSH reads the named register (a bad operand raises before anything
      changes), decrements the stack pointer, then stores the register at
      the cell the new stack pointer names (Python indexing: -1 is 255); a
      store that raises leaves the decrement in place. */
  lemma PushStores(m: Machine)
    requires WellSized(m) && m.pc + 2 < RamSize && m.ram[m.pc] == PUSH
    ensures var t := Execute(m);
      if RegIndex(m.ram[m.pc + 1]).None? then t == Transition(Raised(IndexError), m, [])
      else
        var i := RegIndex(m.ram[m.pc + 1]).value;
        var sp := m.reg[SP] - 1;
        && t.next.reg == m.reg[SP := sp] && t.printed == []
        && match Index(sp, RamSize)
           case Some(k) => t.outcome == Running && t.next.ram == m.ram[k := m.reg[i]] && t.next.pc == m.pc + 2
           case None => t.outcome == Raised(IndexError) && t.next.ram == m.ram && t.next.pc == m.pc
  {
  }

  /** POP copies the cell the stack pointer names into the named register,
      then increments register 7; popping into register 7 itself therefore
      leaves it one above the popped value. A stack pointer outside
      -256..255 or a bad operand raises before anything changes. */
  lemma PopLoads(m: Machine)
    requires WellSized(m) && m.pc + 2 < RamSize && m.ram[m.pc] == POP
    ensures var t := Execute(m);
      match (Index(m.reg[SP], RamSize), RegIndex(m.ram[m.pc + 1]))
      case (Some(k), Some(i)) =>
        var v := m.ram[k];
        && t.outcome == Running && t.printed == []
        && t.next.reg == m.reg[i := v][SP := m.reg[i := v][SP] + 1]
        && t.next.ram == m.ram && t.next.pc == m.pc + 2
      case _ => t == Transition(Raised(IndexError), m, [])
  {
  }

  /** The stack starts at register value 0, so the first PUSH on a fresh
      machine writes memory cell 255 and leaves the stack pointer at -1. */
  lemma FirstPushWritesTopCell(m: Machine)
    requires WellSized(m) && m.pc + 2 < RamSize && m.ram[m.pc] == PUSH
    requires m.reg[SP] == 0 && RegIndex(m.ram[m.pc + 1]).Some?
    ensures var t := Execute(m);
      && t.outcome == Running
      && t.next.reg[SP] == -1
      && t.next.ram[RamSize - 1] == m.reg[RegIndex(m.ram[m.pc + 1]).value]
  {
    PushStores(m);
  }

  /** PUSH r followed by POP r, with the stack cell outside the POP
      instruction, gives every register back its value (r must not be the
      stack pointer itself) and moves the program counter by 4. */
  lemma {:induction false} PushThenPopRestores(m: Machine)
    requires WellSized(m) && m.pc + 4 < RamSize
    requires m.ram[m.pc] == PUSH && m.ram[m.pc + 2] == POP
    requires RegIndex(m.ram[m.pc + 1]).Some? && RegIndex(m.ram[m.pc + 1]) == RegIndex(m.ram[m.pc + 3])
    requires RegIndex(m.ram[m.pc + 1]).value != SP
    requires Index(m.reg[SP] - 1, RamSize).Some?
    requires Index(m.reg[SP] - 1, RamSize).value !in {m.pc + 2, m.pc + 3}
    ensures var t1 := Execute(m);
      var t2 := Execute(t1.next);
      var i := RegIndex(m.ram[m.pc + 1]).value;
      var k := Index(m.reg[SP] - 1, RamSize).value;
      && t1.outcome == Running && t2.outcome == Running
      && t2.next.reg == m.reg
      && t2.next.ram == m.ram[k := m.reg[i]]
      && t2.next.pc == m.pc + 4
  {
    var i := RegIndex(m.ram[m.pc + 1]).value;
    var k := Index(m.reg[SP] - 1, RamSize).value;
    PushStores(m);
    var m1 := Execute(m).next;
    assert m1.ram[m1.pc] == POP && m1.ram[m1.pc + 1] == m.ram[m.pc + 3];
    assert Index(m1.reg[SP], RamSize) == Some(k);
    PopLoads(m1);
    assert m1.ram[k] == m.reg[i];
    var m2 := Execute(m1).next;
    assert m2.reg == m1.reg[i := m.reg[i]][SP := m1.reg[SP] + 1];
  }

  /** PUSH 7 followed by POP 7 does not restore the stack pointer: the
      popped old value is incremented on the way back. */
  lemma PushThenPopStackPointer(m: Machine)
    requires WellSized(m) && m.pc + 4 < RamSize
    requires m.ram[m.pc] == PUSH && m.ram[m.pc + 2] == POP
    requires RegIndex(m.ram[m.pc + 1]) == Some(SP) && RegIndex(m.ram[m.pc + 3]) == Some(SP)
    requires Index(m.reg[SP] - 1, RamSize).Some?
    requires Index(m.reg[SP] - 1, RamSize).value !in {m.pc + 2, m.pc + 3}
    ensures Execute(Execute(m).next).next.reg[SP] == m.reg[SP] + 1
  {
    PushStores(m);
    var m1 := Execute(m).next;
    assert m1.ram[m1.pc] == POP && m1.ram[m1.pc + 1] == m.ram[m.pc + 3];
    PopLoads(m1);
  }

  // ---------------------------------------------------------------------
  // The run loop
  // ---------------------------------------------------------------------

  /** An opcode outside the six changes nothing and leaves the program
      counter in place. */
  lemma UnknownOpcodeIsNoOp(m: Machine)
    requires WellSized(m) && m.pc + 2 < RamSize && !IsKnownOpcode(m.ram[m.pc])
    ensures Execute(m) == Transition(Running, m, [])
  {
  }

  /** ... so the loop never leaves it: whatever the fuel, the run is still
      going, in the same state, having printed nothing. */
  lemma {:induction false} UnknownOpcodeHangs(fuel: nat, m: Machine)
    requires WellSized(m) && m.pc + 2 < RamSize && !IsKnownOpcode(m.ram[m.pc])
    ensures RunFrom(fuel, m) == Transition(Running, m, [])
  {
    if fuel > 0 {
      UnknownOpcodeHangs(fuel - 1, m);
    }
  }

  /** Once a run has stopped (HLT or an exception), more fuel changes
      nothing: the fuel bound only cuts off runs that have not ended. */
  lemma {:induction false} MoreFuelSameEnd(fuel: nat, more: nat, m: Machine)
    requires WellSized(m) && fuel <= more
    requires !RunFrom(fuel, m).outcome.Running?
    ensures RunFrom(more, m) == RunFrom(fuel, m)
  {
    var step := Execute(m);
    if step.outcome.Running? {
      MoreFuelSameEnd(fuel - 1, more - 1, step.next);
    }
  }

  /** The sample program that multiplies 8 by 9: LDI R0,8; LDI R1,9;
      MUL R0,R1; PRN R0; HLT. */
  const MultiplyProgram: seq<int> := [LDI, 0, 8, LDI, 1, 9, MUL, 0, 1, PRN, 0, HLT]

  /** A fresh machine with `program` copied to the cells from address 0. */
  function Booted(program: seq<int>): (m: Machine)
    requires |program| <= RamSize
    ensures WellSized(m) && m.pc == 0 && m.reg == Initial().reg
    ensures forall a :: 0 <= a < |program| ==> m.ram[a] == program[a]
  {
    Initial().(ram := program + Initial().ram[|program|..])
  }

  /** The first three instructions of the multiply program leave 72 in
      register 0 with the program counter on PRN. */
  lemma MultiplyProgramMultiplies(m0: Machine)
    requires m0 == Booted(MultiplyProgram)
    ensures var m3 := Execute(Execute(Execute(m0).next).next);
      && m3.outcome == Running && m3.printed == []
      && Execute(m0).outcome == Running && Execute(m0).printed == []
      && Execute(Execute(m0).next).outcome == Running && Execute(Execute(m0).next).printed == []
      && m3.next.pc == 9 && m3.next.reg[0] == 72 && m3.next.ram == m0.ram
  {
    var p := MultiplyProgram;
    assert m0.ram[0] == p[0] == LDI && m0.ram[1] == p[1] == 0 && m0.ram[2] == p[2] == 8;
    assert m0.ram[3] == p[3] == LDI && m0.ram[4] == p[4] == 1 && m0.ram[5] == p[5] == 9;
    assert m0.ram[6] == p[6] == MUL && m0.ram[7] == p[7] == 0 && m0.ram[8] == p[8] == 1;
    var m1 := Execute(m0).next;
    assert m1.pc == 3 && m1.reg[0] == 8 && m1.ram == m0.ram;
    var m2 := Execute(m1).next;
    assert m2.pc == 6 && m2.reg[0] == 8 && m2.reg[1] == 9 && m2.ram == m0.ram;
  }

  /** Run on a fresh machine, the multiply program prints 72 and halts
      after five instructions. */
  lemma MultiplyProgramPrints72()
    ensures var t := RunFrom(5, Booted(MultiplyProgram));
      t.outcome == Halted && t.printed == [72] && t.next.pc == 12
  {
    var m0 := Booted(MultiplyProgram);
    MultiplyProgramMultiplies(m0);
    var m1 := Execute(m0).next;
    var m2 := Execute(m1).next;
    var m3 := Execute(m2).next;
    assert m3.ram[9] == PRN && m3.ram[10] == 0 && m3.ram[11] == HLT by {
      assert MultiplyProgram[9] == PRN && MultiplyProgram[10] == 0 && MultiplyProgram[11] == HLT;
    }
    var t4 := Execute(m3);
    assert t4 == Transition(Running, m3.(pc := 11), [72]);
    var t5 := Execute(t4.next);
    assert t5.outcome == Halted && t5.printed == [] && t5.next.pc == 12;
    assert RunFrom(1, t4.next) == t5;
    assert RunFrom(2, m3).printed == [72];
  }
}
