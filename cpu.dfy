/** The LS-8 CPU object: eight registers and 256 memory cells held in
    arrays that its methods update in place, and a program counter. Each
    method is proved against the value-level definitions of module Ls8
    (for the run loop) and module Loader (for loading a program). */
module Cpu {
  import opened PyBuiltins
  import opened Ls8
  import Loader

  class CPU {
    const reg: array<int>
    const ram: array<int>
    var pc: nat

    ghost predicate Valid() {
      reg.Length == RegCount && ram.Length == RamSize
    }

    /** The machine state the fields hold. */
    ghost function State(): (m: Machine)
      requires Valid()
      reads this, reg, ram
      ensures WellSized(m)
    {
      Machine(reg[..], ram[..], pc)
    }

    /** Eight zero registers, 256 zero memory cells, the program counter at 0. */
    constructor ()
      ensures Valid() && fresh(reg) && fresh(ram)
      ensures State() == Initial()
    {
      reg := new int[RegCount](_ => 0);
      ram := new int[RamSize](_ => 0);
      pc := 0;
    }

    /** HLT's handler: it reports that the loop must stop. */
    method Hlt() returns (running: bool)
      ensures !running
    {
      running := false;
    }

    /** LDI's handler: register `op1` (Python-indexed) becomes `op2`. */
    method Ldi(op1: int, op2: int) returns (r: Result<()>)
      requires Valid()
      modifies reg
      ensures r.Ok? <==> Set(old(reg[..]), op1, op2).Ok?
      ensures r.Ok? ==> reg[..] == Set(old(reg[..]), op1, op2).value
      ensures r.Err? ==> r.error == IndexError && reg[..] == old(reg[..])
    {
      var k := Index(op1, reg.Length);
      if k.None? {
        return Err(IndexError);
      }
      reg[k.value] := op2;
      return Ok(());
    }

    /** PRN's handler: the value of register `op1`, which the source prints. */
    method Prn(op1: int) returns (r: Result<int>)
      requires Valid()
      ensures r == Get(reg[..], op1)
    {
      var k := Index(op1, reg.Length);
      if k.None? {
        return Err(IndexError);
      }
      return Ok(reg[k.value]);
    }

    /** The value of memory cell `mar` (Python-indexed). */
    method RamRead(mar: int) returns (mdr: Result<int>)
      requires Valid()
      ensures mdr == Get(ram[..], mar)
    {
      var k := Index(mar, ram.Length);
      if k.None? {
        return Err(IndexError);
      }
      return Ok(ram[k.value]);
    }

    /** Stores `mdr` in memory cell `mar`; every cell `mar` does not name
        keeps its value (GetAfterSet). */
    method RamWrite(mdr: int, mar: int) returns (r: Result<()>)
      requires Valid()
      modifies ram
      ensures r.Ok? <==> Set(old(ram[..]), mar, mdr).Ok?
      ensures r.Ok? ==> ram[..] == Set(old(ram[..]), mar, mdr).value
      ensures r.Err? ==> r.error == IndexError && ram[..] == old(ram[..])
    {
      var k := Index(mar, ram.Length);
      if k.None? {
        return Err(IndexError);
      }
      ram[k.value] := mdr;
      return Ok(());
    }

    /** The ALU: "ADD" and "MUL" update register `regA` (MUL also moves the
        program counter by 2); anything else raises. */
    method Alu(op: string, regA: int, regB: int) returns (r: Result<()>)
      requires Valid()
      modifies this, reg
      ensures Valid()
      ensures match AluEffect(op, regA, regB, old(State()))
        case Ok(m') => r.Ok? && State() == m'
        case Err(e) => r == Err(e) && State() == old(State())
    {
      if op != "ADD" && op != "MUL" {
        return Err(UnsupportedAluOperation);
      }
      var a := Index(regA, reg.Length);
      var b := Index(regB, reg.Length);
      if a.None? || b.None? {
        return Err(IndexError);
      }
      if op == "ADD" {
        reg[a.value] := reg[a.value] + reg[b.value];
      } else {
        reg[a.value] := reg[a.value] * reg[b.value];
        pc := pc + 2;
      }
      return Ok(());
    }

    /** One iteration of the run loop: what it printed, whether the loop
        goes on, and the new state, all as Ls8.Execute describes. */
    method Step() returns (outcome: Outcome, printed: seq<int>)
      requires Valid()
      modifies this, reg, ram
      ensures Valid()
      ensures Transition(outcome, State(), printed) == Execute(old(State()))
    {
      if pc + 2 >= ram.Length {
        return Raised(IndexError), [];
      }
      var ir := ram[pc];
      var operandA := ram[pc + 1];
      var operandB := ram[pc + 2];
      printed := [];

      if ir == HLT {
        var running := Hlt();
        pc := pc + 1;
        outcome := if running then Running else Halted;
      } else if ir == LDI {
        var r := Ldi(operandA, operandB);
        if r.Err? {
          return Raised(r.error), [];
        }
        pc := pc + 3;
        outcome := Running;
      } else if ir == PRN {
        var v := Prn(operandA);
        if v.Err? {
          return Raised(v.error), [];
        }
        printed := [v.value];
        pc := pc + 2;
        outcome := Running;
      } else if ir == MUL {
        var r := Alu("MUL", operandA, operandB);
        if r.Err? {
          return Raised(r.error), [];
        }
        pc := pc + 1;
        outcome := Running;
      } else if ir == PUSH {
        var regAddress := RamRead(pc + 1);
        var i := Index(regAddress.value, reg.Length);
        if i.None? {
          return Raised(IndexError), [];
        }
        var value := reg[i.value];
        reg[SP] := reg[SP] - 1;
        var k := Index(reg[SP], ram.Length);
        if k.None? {
          return Raised(IndexError), [];
        }
        ram[k.value] := value;
        pc := pc + 2;
        outcome := Running;
      } else if ir == POP {
        var regAddress := RamRead(pc + 1);
        var k := Index(reg[SP], ram.Length);
        if k.None? {
          return Raised(IndexError), [];
        }
        var value := ram[k.value];
        var i := Index(regAddress.value, reg.Length);
        if i.None? {
          return Raised(IndexError), [];
        }
        reg[i.value] := value;
        reg[SP] := reg[SP] + 1;
        pc := pc + 2;
        outcome := Running;
      } else {
        outcome := Running;
      }
    }

    /** The run loop, given at most `fuel` iterations: it stops at HLT or at
        the first exception, and otherwise when the fuel runs out. */
    method Run(fuel: nat) returns (outcome: Outcome, output: seq<int>)
      requires Valid()
      modifies this, reg, ram
      ensures Valid()
      ensures Transition(outcome, State(), output) == RunFrom(fuel, old(State()))
    {
      outcome, output := Running, [];
      var left := fuel;
      while outcome == Running && left > 0
        invariant Valid()
        invariant outcome == Running ==>
          var rest := RunFrom(left, State());
          RunFrom(fuel, old(State())) == Transition(rest.outcome, rest.next, output + rest.printed)
        invariant outcome != Running ==>
          RunFrom(fuel, old(State())) == Transition(outcome, State(), output)
        decreases left
      {
        var printed;
        outcome, printed := Step();
        output := output + printed;
        left := left - 1;
      }
      if outcome == Running {
        assert output + [] == output;
      }
    }

    /** Loads the program the lines spell into memory from address 0. A
        line that is not a literal raises ValueError before memory changes;
        a program longer than memory fills all of it and then raises
        IndexError. */
    method Load(lines: seq<string>) returns (r: Result<()>)
      requires Valid()
      modifies ram
      ensures match Loader.ProgramOf(lines)
        case Err(e) => r == Err(e) && ram[..] == old(ram[..])
        case Ok(program) =>
          && (r.Ok? <==> |program| <= RamSize)
          && (r.Err? ==> r.error == IndexError)
          && ram[..] == Loader.Placed(program, old(ram[..]))
    {
      var parsed := Loader.ParseLines(lines);
      if parsed.Err? {
        return Err(parsed.error);
      }
      var program := parsed.value;
      var address := 0;
      for n := 0 to |program|
        invariant address == n <= RamSize
        invariant forall a :: 0 <= a < n ==> ram[a] == program[a]
        invariant forall a :: n <= a < RamSize ==> ram[a] == old(ram[a])
      {
        if address >= ram.Length {
          assert ram[..] == Loader.Placed(program, old(ram[..]));
          return Err(IndexError);
        }
        ram[address] := program[n];
        address := address + 1;
      }
      assert ram[..] == Loader.Placed(program, old(ram[..]));
      return Ok(());
    }
  }
}
