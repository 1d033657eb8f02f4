# LS-8 virtual CPU, modelled in Dafny

This project models the LS-8 CPU of `ls8/cpu.py`. The CPU is a small
state machine with eight registers, 256 memory cells and a program
counter, all held as fields of the `CPU` object. Its parts:

- the memory accessors `ram_read` and `ram_write`;
- the ALU, which handles `ADD` and `MUL` and raises on any other name;
- the handlers `hlt`, `ldi` and `prn`;
- the fetch-decode-execute loop `run`, which dispatches on six opcodes:
  HLT, LDI, PRN, MUL, PUSH and POP;
- the loader `load`, which turns the lines of a program file into
  integers and copies them to memory from address 0.

The model follows the code as written, not an idealised LS-8:

- Registers and memory cells hold unbounded integers. No write is
  reduced modulo 256.
- Indices follow Python list indexing. A negative index counts from the
  end, and any other out-of-range index raises `IndexError`. The stack
  pointer (register 7) starts at 0, so the first PUSH writes cell 255.
- MUL moves the program counter by 2 inside the ALU and by 1 in the loop.
- Every iteration reads the two cells after the opcode. An opcode in one
  of the last two cells therefore raises `IndexError`.
- An opcode outside the six does nothing and leaves the program counter
  where it is, so `run` never returns.
- An exception leaves the state as it was when the exception was raised.
  A PUSH whose store raises has already decremented the stack pointer.
- POP into register 7 leaves register 7 one above the popped value.

Files and modules:

- `pybuiltins.dfy` (module `PyBuiltins`) gives the meaning of the Python
  built-ins the CPU relies on: list indexing, `str.split(sep)[0]`,
  `str.strip()` and `int(text, 2)`. The exceptions are values of a
  `Result` type.
- `ls8.dfy` (module `Ls8`) holds the machine as values. `Execute` is one
  iteration of the run loop, `AluEffect` is the ALU, and `RunFrom` is the
  loop bounded by fuel. Each instruction has a lemma.
- `loader.dfy` (module `Loader`) holds the parsing half of `load`
  (`ProgramOf`, and the loop `ParseLines` proved against it) and the
  copying half (`Placed`), with lemmas about both.
- `cpu.dfy` (module `Cpu`) holds the class `CPU`. Its fields are two
  arrays and the program counter, and its methods update them in place.
  Each method's postcondition ties its result and the new state to a
  value-level definition. `Ldi` and `RamWrite` are tied to `PyBuiltins.Set`,
  `Prn` and `RamRead` to `PyBuiltins.Get`, `Alu` to `Ls8.AluEffect`, `Step`
  and `Run` to `Ls8.Execute` and `Ls8.RunFrom`, and `Load` to
  `Loader.ProgramOf` and `Loader.Placed`. `Hlt` returns the constant false.

A few facts about `cpu.py` shape the model:

- Nothing in the file masks a register or memory write to 8 bits.
- The run loop has no branch that rejects an unknown opcode. It spins on
  one instead.
- The loader is part of `cpu.py`, so its parsing and copying are modelled.
- CMP, CALL, RET, the jumps and the condition flags do not occur in the
  file, so none of them is modelled.

## Model

| member | source | states |
|---|---|---|
| `Cpu.CPU.constructor` | ls8/cpu.py:9-13 | a new CPU has eight zero registers, 256 zero memory cells and pc 0 (the state equals `Initial()`) |
| `Ls8.Initial` | ls8/cpu.py:9-13 | the initial machine has eight registers and 256 cells, all zero, and pc 0 |
| `Cpu.CPU.Hlt` | ls8/cpu.py:15-16 | the HLT handler returns false, the value that ends the run loop |
| `Cpu.CPU.Ldi` | ls8/cpu.py:18-19 | register `op1` (Python-indexed) becomes `op2` and the other registers keep their values; an out-of-range `op1` raises IndexError and changes nothing |
| `Cpu.CPU.Prn` | ls8/cpu.py:21-22 | returns the value of register `op1` (what the source prints), or IndexError; nothing changes |
| `Cpu.CPU.RamRead` | ls8/cpu.py:42-44 | returns the cell that `mar` names under Python indexing (-1 is cell 255), or IndexError |
| `Cpu.CPU.RamWrite` | ls8/cpu.py:46-47 | stores `mdr` in the cell `mar` names, or raises IndexError and leaves memory unchanged |
| `PyBuiltins.Index` | ls8/cpu.py:108-109 | a list index is valid exactly when it lies in -n..n-1, and it then names the cell `i mod n` |
| `PyBuiltins.Set` | ls8/cpu.py:46-47 | a list assignment succeeds exactly for a valid index; the new list has the same length, holds `v` at the named cell, and every other cell is unchanged |
| `PyBuiltins.GetAfterSet` | ls8/cpu.py:42-47 | reading after writing gives the written value at the written cell, including its negative alias, and the old value at every other cell |
| `Cpu.CPU.Alu` | ls8/cpu.py:49-58 | the new state is what `AluEffect` gives: ADD or MUL on the named registers; an unknown operation raises and changes nothing |
| `Ls8.AluAddAndUnknown` | ls8/cpu.py:49-58 | ADD sets `reg[a] = reg[a] + reg[b]` and leaves pc and memory alone; any name other than ADD or MUL raises "Unsupported ALU operation" |
| `Ls8.AluMul` | ls8/cpu.py:54-56 | MUL sets `reg[a] = reg[a] * reg[b]` with no wrap-around and moves pc by 2 inside the ALU, leaving memory alone; a bad register index raises IndexError |
| `Ls8.Execute` | ls8/cpu.py:84-117 | one loop iteration keeps the machine's sizes, prints at most one value, and on an exception leaves pc and memory as they were |
| `Cpu.CPU.Step` | ls8/cpu.py:84-117 | one loop iteration on the object: the outcome, the printed output and the new registers, memory and pc are exactly what `Execute` gives for the old state |
| `Ls8.OperandFetchPastEnd` | ls8/cpu.py:84-87 | when pc+2 is past the end of memory, the operand fetch raises IndexError before anything changes |
| `Ls8.HltStops` | ls8/cpu.py:89-91 | HLT stops the loop after moving pc by 1; nothing else changes and nothing is printed |
| `Ls8.LdiSetsRegister` | ls8/cpu.py:93-95 | LDI sets the named register to the immediate byte and moves pc by 3; memory and the other registers are unchanged; a bad register index raises and changes nothing |
| `Ls8.PrnPrintsRegister` | ls8/cpu.py:97-99 | PRN prints the named register and moves pc by 2; no register or memory cell changes |
| `Ls8.MulMultiplies` | ls8/cpu.py:101-103 | MUL sets `reg[a] = reg[a] * reg[b]` with no wrap-around and moves pc by 3 in total over the iteration (`AluMul` states the 2 of them the ALU adds); memory is unchanged; a bad register index raises and changes nothing |
| `Ls8.PushStores` | ls8/cpu.py:105-110 | a bad register operand raises IndexError before anything changes; otherwise PUSH decrements register 7, then stores the named register at the cell the new register 7 names and moves pc by 2; if that store raises, the decrement has already happened |
| `Ls8.PopLoads` | ls8/cpu.py:112-117 | with register 7 in -256..255 and a valid operand, POP copies the cell register 7 names into the named register, then increments register 7 and moves pc by 2, leaving memory unchanged; otherwise it raises IndexError and nothing changes |
| `Ls8.FirstPushWritesTopCell` | ls8/cpu.py:108-109 | with the stack pointer at its initial 0, PUSH leaves it at -1 and writes cell 255 |
| `Ls8.PushThenPopRestores` | ls8/cpu.py:105-117 | PUSH r then POP r (r not register 7) restores every register, including register 7, and moves pc by 4; the only memory change is the stack cell, which now holds r's value |
| `Ls8.PushThenPopStackPointer` | ls8/cpu.py:112-117 | PUSH 7 then POP 7 leaves register 7 one above its starting value |
| `Ls8.UnknownOpcodeIsNoOp` | ls8/cpu.py:89-117 | an opcode outside the six changes nothing, prints nothing and leaves pc in place |
| `Ls8.UnknownOpcodeHangs` | ls8/cpu.py:82-83 | from such an opcode, the loop is still running in the same state after any number of iterations |
| `Ls8.RunFrom` | ls8/cpu.py:80-117 | the fuel-bounded loop keeps the machine's sizes and never moves pc backwards |
| `Ls8.MoreFuelSameEnd` | ls8/cpu.py:82-83 | once a run has halted or raised, more fuel gives the same result, so the fuel bound only cuts off runs that have not ended |
| `Cpu.CPU.Run` | ls8/cpu.py:80-117 | the run loop on the object: its outcome, its printed output and the final state are what `RunFrom` gives for the starting state |
| `Ls8.MultiplyProgramMultiplies` | ls8/cpu.py:93-103 | on a fresh machine loaded with LDI R0,8; LDI R1,9; MUL R0,R1, the first three instructions leave 72 in R0 with pc at 9 |
| `Ls8.MultiplyProgramPrints72` | ls8/cpu.py:80-117 | the multiply-8-by-9 program prints exactly 72 and halts with pc 12 after five instructions |
| `PyBuiltins.SplitHead` | ls8/cpu.py:31 | `line.split('#')[0]` is a prefix of the line with no '#', and it stops only at a '#' or at the end of the line |
| `PyBuiltins.TrimLeftDropsLeadingSpace` | ls8/cpu.py:32 | left-stripping keeps a suffix, removes only whitespace, and stops at the first non-whitespace character |
| `PyBuiltins.TrimRightDropsTrailingSpace` | ls8/cpu.py:32 | right-stripping keeps a prefix, removes only whitespace, and stops at the last non-whitespace character |
| `PyBuiltins.StripTrims` | ls8/cpu.py:32 | `strip()` gives a contiguous part of the text that neither starts nor ends with whitespace, and it is empty exactly when the text is all whitespace |
| `PyBuiltins.StripDropsOnlySpace` | ls8/cpu.py:32 | every character `strip()` removes, before or after what it keeps, is whitespace; with `StripTrims` this determines the result of `strip()` |
| `PyBuiltins.BinaryRoundTrip` | ls8/cpu.py:35 | `int(text, 2)` applied to the base-2 spelling of n, with or without a minus sign, gives back n or -n |
| `PyBuiltins.ByteLiteral` | ls8/cpu.py:35 | an eight-character string of bits, leading zeros included, parses to the number its bits spell, which lies in 0..255 |
| `PyBuiltins.BitsLiteralValue` | ls8/cpu.py:35 | `int(text, 2)` on any non-empty string of bits, leading zeros included, gives the number the bits spell |
| `PyBuiltins.PaddedBinary` | ls8/cpu.py:35 | the base-2 spelling of n padded with any number of leading zeros (the way "00001000" writes 8) parses back to n |
| `PyBuiltins.ParseBinary` | ls8/cpu.py:35 | `int(text, 2)`: a value is produced only for non-empty text, and a negative value only when the text starts with '-' |
| `PyBuiltins.ParseBinaryRejects` | ls8/cpu.py:35 | on stripped ASCII text, `int(text, 2)` raises ValueError for the empty string and for any text holding a character other than a bit, '_', a sign, 'b' or 'B' |
| `Loader.CommandShape` | ls8/cpu.py:31-32 | the instruction text `line.split('#')[0].strip()` is the part of the line before its first '#' without surrounding whitespace: it holds no '#', neither starts nor ends with whitespace, is a contiguous piece of the line, and everything before the first '#' on either side of it is whitespace; it is empty exactly when that part is all whitespace |
| `Loader.CodeLineCommand` | ls8/cpu.py:30-32 | a line holding a bit literal followed only by whitespace before its first '#' or its end (the newline a file line keeps, spaces before a comment) has that literal as its instruction text |
| `Loader.ProgramOfFirstLine` | ls8/cpu.py:30-36 | a line whose text before '#', once stripped, is empty contributes nothing; any other line contributes its base-2 value or raises ValueError |
| `Loader.ParseLines` | ls8/cpu.py:27-36 | the parsing loop returns exactly `ProgramOf(lines)`: the values of the non-blank lines, or the ValueError of the first bad one |
| `Loader.BlankLinesIgnored` | ls8/cpu.py:33-34 | removing blank and comment-only lines from a file changes neither the program nor the error |
| `Loader.NonBlankAppend` | ls8/cpu.py:33-34 | skipping blank lines distributes over concatenation, so the kept lines stay in their file order |
| `Loader.NonBlankSingle` | ls8/cpu.py:33-34 | a single line is kept exactly when its instruction text is not empty |
| `Loader.ProgramOfSucceeds` | ls8/cpu.py:30-36 | parsing succeeds if and only if every non-blank line's text is a base-2 literal |
| `Loader.ProgramOfValues` | ls8/cpu.py:30-36 | on success the program has one value per non-blank line, in line order, and each is that line's base-2 value |
| `Loader.LiteralLinesValues` | ls8/cpu.py:35-36 | a file with no blank lines, when it loads, gives one value per line, in order, each that line's base-2 value |
| `Loader.Placed` | ls8/cpu.py:38-40 | after the copy, cells 0..n-1 hold the program in order and cells n and above are unchanged; a program longer than memory fills all 256 cells |
| `Cpu.CPU.Load` | ls8/cpu.py:24-40 | a bad literal raises ValueError before memory changes; otherwise memory becomes `Placed(program, old memory)`, and a program longer than 256 values raises IndexError after filling memory |

## Left out

- The file open in `load` (ls8/cpu.py:29) is left out. The loader is given the file's lines as a sequence of strings. How Python splits a file into lines is not modelled.
- Console output is not modelled. `prn` returns the value it would print, and the run loop collects those values as its output. The `trace` method (ls8/cpu.py:60-78) only formats and prints, so it is left out.
- Cpu.CPU.Run: the source's `while running` loop has no bound. The model runs at most `fuel` iterations. `MoreFuelSameEnd` shows that the bound changes no run that ends, and `UnknownOpcodeHangs` covers the run that never ends.
- Ls8.RunFrom: bounded by fuel for the same reason. A `Running` outcome means the fuel ran out.
- PyBuiltins.ParseBinary does not accept the non-ASCII Unicode decimal digits that Python's `int` also accepts. It also skips `int`'s own whitespace stripping, which changes nothing because the text is already stripped.
- The exception propagates out of `run` and `load` in the source. The model returns it as a `Raised` or `Err` value, together with the state at the moment it was raised.
