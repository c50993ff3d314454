# LS-8 CPU in Dafny

A model of the LS-8 byte-code interpreter in `ls8/cpu.py`, with proofs about it. The interpreter's `CPU` object has these parts:

- 256 RAM cells, 8 registers and a program counter.
- The accessors `ram_read` and `ram_write`.
- An ALU that knows `ADD` and `MUL`.
- A loader that reads a program file of base-2 lines, with `#` comments, into RAM from address 0.
- A `run` loop. It fetches an opcode and the two cells after it, and dispatches on the four opcodes HLT, LDI, PRN and MUL.

Files:

- `wrappers.dfy` (module `Wrappers`): `Option`, standing for Python's `None`-or-value.
- `machine.dfy` (module `Machine`): the machine as values.
  - `State` is RAM, registers and pc.
  - `Alu` is the ALU.
  - `Step` is one iteration of the `run` loop.
  - `Exec` is the whole loop: the values PRN printed, why the loop stopped, and the final state.
  - Lemmas about these follow each definition.
- `line_parsing.dfy` (module `LineParsing`): what the loader does to each line.
  - `line.split('#', 1)[0]` is `BeforeHash`.
  - `str.strip` is `Strip`.
  - `int(num, 2)` is `IntBase2`. It first strips the whitespace `int` skips (`IsIntSpace`), and then `ParseBinary` reads a sign, an optional `0b`/`0B` prefix and digits with single `_` separators.
  - `int` skips fewer characters than `str.strip`. The separators U+001C to U+001F count as whitespace for `str.strip`, but not for `int`. A line holding one of them next to a number is therefore not skipped, and `int` raises on it (`ClassifySeparator`).
  - `Parse` gives the words of a whole file, up to the first malformed line.
  - A renderer `Render`/`ProgramText` writes programs as text, with round-trip lemmas back through `Parse`.
- `cpu.dfy` (module `Cpu`): the `CPU` class.
  - `ram` and `register` are arrays and `pc` is a field, all updated in place.
  - Its methods are proved against `Machine` and `LineParsing`: the constructor, `RamRead`, `RamWrite`, `Alu`, `Load` and `Run`.
  - `Load` is the loop of `load`, over the file's lines. It runs `LoadLines`, the same loop written for any rule that classifies a line, with `LineParsing.Classify` as that rule.
  - `Cycle` is one pass of `run`'s loop, and `Run` repeats it.
- `examples.dfy` (module `Examples`): the print8 program and an 8 × 9 multiplication, run end to end. For each, one lemma runs `Machine.Exec` on the loaded state, and one method goes from program text, through `Load` and `Run`, to what it prints.

Conventions that follow the code:

- Registers and RAM hold unbounded integers: there is no 8-bit wrap-around.
- Subscripts follow Python's list rules. An index `i` into a list of length `n` works when `-n <= i < n`, and a negative index counts from the end. Any other index raises `IndexError`.
- An exception raised in `run` ends the loop with the state as it was before that instruction. The model records it as `Crash(IndexError)` in `Stop`.
- An opcode other than the four makes the program exit with status 1. This is `UnknownInstruction(opcode)`.
- A normal `HLT` is `Halt`.
- Both operand cells are fetched for every opcode, so every instruction needs `pc + 2 < 256`. An HLT in cell 254 or 255 therefore raises `IndexError` (`Machine.HaltInLastCellsCrashes`).

The usual description of the LS-8 covers more than this code does:

- 8-bit registers that wrap modulo 256.
- A stack pointer in register 7, set to 244.
- A flags register.
- The instructions ADD, CMP, PUSH, POP, CALL, RET, JMP, JEQ and JNE.
- An ALU `ADD` that returns its result.

None of this is in `ls8/cpu.py`, and the model follows the code. Only HLT, LDI, PRN and MUL are decoded, so ADD is reachable only by calling the ALU directly. The ALU's `ADD` returns nothing, and `MUL` returns the product.

## Model

| member | source | states |
|---|---|---|
| `Cpu.CPU.constructor` | ls8/cpu.py:14-18 | A new CPU has 256 RAM cells that are all 0, 8 registers that are all 0, and pc 0. Its state is `Machine.Init()`. |
| `Cpu.CPU.RamRead` | ls8/cpu.py:58-60 | Returns the value in the RAM cell that the address denotes. Python's negative addresses are included. |
| `Cpu.CPU.RamWrite` | ls8/cpu.py:62-65 | The addressed cell now holds the value. Every other cell, every register and pc are unchanged. |
| `Cpu.ReadAfterWrite` | ls8/cpu.py:58-65 | After `ram_write(v, a)`, `ram_read(a)` returns `v`. Reading any other cell returns its old value. |
| `Machine.Alu` | ls8/cpu.py:67-77 | An ALU operation that completes leaves a register file of 8 registers. |
| `Machine.AluEffects` | ls8/cpu.py:70-77 | ADD sets `register[a]` to `register[a] + register[b]` and returns nothing. MUL sets it to `register[a] * register[b]` with no wrap and returns that value. No other register changes. A register index out of range raises IndexError. Any other operation raises the unsupported-operation exception. |
| `Cpu.CPU.Alu` | ls8/cpu.py:67-77 | The registers and the returned value are what `Machine.Alu` gives. When the ALU raises, the exception is reported and the registers are unchanged. |
| `Machine.Step` | ls8/cpu.py:102-126 | Each iteration needs `pc + 2 < 256` to fetch its operands. A step that continues moves pc forward by 2 or 3 and prints at most one value; a printing step moves pc by exactly 2. HLT moves pc by 1. A step that stops on an unknown opcode or an exception changes nothing. No step writes RAM. |
| `Machine.StepEffects` | ls8/cpu.py:104-126 | HLT stops with pc + 1. LDI sets `register[a] = b`, touches no other register, and adds 3 to pc. PRN prints `register[a]`, leaves the registers alone and adds 2 to pc. MUL applies the ALU's MUL to `(a, b)` and adds 3. An out-of-range register operand raises IndexError. Any other opcode stops with that opcode. |
| `Machine.Exec` | ls8/cpu.py:99-126 | The `while running` loop terminates from every state, because each step that continues moves pc towards the end of RAM. It ends in a well-formed machine state. |
| `Cpu.CPU.Cycle` | ls8/cpu.py:104-126 | One pass of the loop changes the CPU exactly as `Machine.Step` says. It reports the value printed, if any, and whether the loop goes on; when the loop ends, it reports why. |
| `Machine.ExecContinue` | ls8/cpu.py:102-126 | When an instruction completes, the run prints that instruction's output first, then goes on from the next state. |
| `Machine.ExecStop` | ls8/cpu.py:104-126 | When an instruction halts or fails, the run ends there with that reason, having printed nothing. |
| `Cpu.CPU.Run` | ls8/cpu.py:99-126 | The method's loop prints exactly `Exec`'s output, stops for `Exec`'s reason, and leaves the CPU in `Exec`'s final state. |
| `Machine.ExecKeepsRam` | ls8/cpu.py:99-126 | A run never changes RAM. |
| `Machine.ExecProgress` | ls8/cpu.py:102-126 | A run moves pc forward by at least 2 cells per printed value. Starting inside RAM, it never ends past cell 256. A halting run ends with pc at most 254. |
| `Machine.ExecStopReason` | ls8/cpu.py:104-126 | After a halt, the cell before the final pc holds HLT. An unknown-instruction stop happens at the final pc, on a cell holding none of the four opcodes. Any other stop is an IndexError: the operand fetch runs past RAM, or a register operand is out of range. |
| `Machine.ExecOnZeroOpcode` | ls8/cpu.py:124-126 | An opcode 0, as in zero-filled RAM, stops the run at once with exit reason 0 and no state change. |
| `Machine.HaltInLastCellsCrashes` | ls8/cpu.py:104-110 | An HLT in one of the last two cells raises IndexError instead of halting, because both operand cells are fetched first. |
| `Machine.Loaded` | ls8/cpu.py:31-36 | After loading, a new CPU's RAM holds the words at addresses 0 onwards and 0 everywhere else, with pc 0. |
| `Cpu.CPU.Load` | ls8/cpu.py:31-36 | Writes the file's words to consecutive addresses from 0 and leaves the other cells alone. A malformed line raises ValueError. A 257th word raises IndexError. The words written before either error stay. Registers and pc are unchanged. |
| `Cpu.CPU.LoadLines` | ls8/cpu.py:31-36 | For any rule saying what a line contributes, the loop stores the contributed words from address 0, keeps the words written before an error, and raises as `Load` does. |
| `LineParsing.BeforeHash` | ls8/cpu.py:32 | The result is the prefix of the line before its first `#`, or the whole line if it has no `#`. |
| `LineParsing.TrimStartSpec` | ls8/cpu.py:33-35 | For any set of whitespace characters, stripping the front removes a run of them and nothing else. |
| `LineParsing.TrimEndSpec` | ls8/cpu.py:33-35 | For any set of whitespace characters, stripping the back removes a run of them and nothing else. |
| `LineParsing.StripBy` | ls8/cpu.py:33-35 | Stripping both ends leaves nothing exactly when the text is all whitespace, and keeps every character that is not whitespace. |
| `LineParsing.Strip` | ls8/cpu.py:33 | The stripped text is empty exactly when the text is all whitespace. |
| `LineParsing.Classify` | ls8/cpu.py:32-35 | What one line contributes. A line starting with `#` contributes nothing. `ClassifyBlank` says exactly which lines are skipped. `ClassifySeparator` says which lines `int` rejects after `str.strip` let them through. `ClassifyRendered` says that a word's literal, followed by whitespace `int` skips or a comment, contributes that word. |
| `LineParsing.ClassifyBlank` | ls8/cpu.py:32-34 | A line is skipped exactly when its text before the first `#` is empty or whitespace. |
| `LineParsing.IntBase2` | ls8/cpu.py:35 | `int(num, 2)`. A value comes only from text made of the whitespace `int` skips and the characters of a base-2 literal. Any other character, such as U+001C to U+001F, makes it raise. |
| `LineParsing.ParseBinaryAlphabet` | ls8/cpu.py:35 | An accepted literal holds only digits, `_`, a sign and the `b`/`B` of a prefix. |
| `LineParsing.ParseBinary` | ls8/cpu.py:35 | `int(text, 2)` on text stripped of the whitespace `int` skips. An accepted literal ends in a binary digit, and its value is negative only after a leading `-`. `ParseUnsigned` and `ParseNegative` give the value of plain and negated digit strings, and `RenderRoundTrip` shows every integer's literal reads back. |
| `LineParsing.BinaryValue` | ls8/cpu.py:35 | The binary digits of `n` form a well-formed base-2 digit string with value `n`. |
| `LineParsing.ParseUnsigned` | ls8/cpu.py:35 | `int(text, 2)` on any well-formed binary digits gives their value. |
| `LineParsing.ParseNegative` | ls8/cpu.py:35 | `int(text, 2)` on `-` followed by well-formed binary digits gives their value, negated. |
| `LineParsing.RenderRoundTrip` | ls8/cpu.py:35 | `int(text, 2)` reads back every word written as a signed base-2 literal. |
| `LineParsing.IntBase2Rendered` | ls8/cpu.py:35 | `int` reads a word's literal back, through any whitespace it skips after the literal. |
| `LineParsing.ClassifySeparator` | ls8/cpu.py:33-35 | A line whose text before `#` is not all whitespace and holds one of U+001C to U+001F is malformed: `str.strip` does not skip the line, and `int` raises. |
| `LineParsing.ClassifyRendered` | ls8/cpu.py:32-35 | A word's literal, followed by whitespace that `int` skips and then an optional `#` comment, contributes exactly that word. |
| `LineParsing.ParseRenderedLine` | ls8/cpu.py:31-36 | A file holding one word's literal loads as exactly that word. |
| `LineParsing.Parse` | ls8/cpu.py:31-36 | A file yields at most one word per line. |
| `LineParsing.ParseSingle` | ls8/cpu.py:32-36 | A blank line yields no word. A well-formed line yields exactly its base-2 value. A malformed line stops the load. |
| `LineParsing.ParseAppend` | ls8/cpu.py:31-36 | The words of two files read one after the other are the first file's words followed by the second's. The second file is not read once the first has a malformed line. |
| `LineParsing.ParseSkipsBlank` | ls8/cpu.py:33-34 | Deleting a blank or comment-only line leaves the loaded words unchanged. |
| `LineParsing.ParseProgramText` | ls8/cpu.py:31-36 | A program written one word per line loads back as exactly its words, in order. |
| `Examples.Print8Runs` | ls8/cpu.py:44-52 | The program `LDI R0,8; PRN R0; HLT` prints `[8]` and halts with pc 6. |
| `Examples.Mult8x9Runs` | ls8/cpu.py:112-122 | The program `LDI R0,8; LDI R1,9; MUL R0,R1; PRN R0; HLT` prints `[72]` and halts with pc 12 and `R0 = 72`. |
| `Examples.SeparatorLines` | ls8/cpu.py:32-35 | The line U+001C is skipped, but the line `1` U+001F stops the load. |
| `Examples.NewCpuExits` | ls8/cpu.py:124-126 | Running a new CPU exits at once on opcode 0. |
| `Examples.Print8Session` | ls8/cpu.py:44-52 | A new CPU that loads print8's text and runs it prints `[8]` and halts. |
| `Examples.Mult8x9Session` | ls8/cpu.py:112-122 | A new CPU that loads the multiplication program's text and runs it prints `[72]` and halts. |

## Left out

- Command-line handling in `load`: the argument-count check, opening the file, the `FileNotFoundError` handler and exit codes 1 and 2 (ls8/cpu.py:25-30, 38-40). These are process and file I/O. `Cpu.CPU.Load` takes the file's lines as a parameter instead.
- Writing to standard output. `print` in PRN is modelled as the returned sequence of printed values. The unknown-instruction message and `sys.exit(1)` are modelled as the `UnknownInstruction(opcode)` stop reason.
- Exceptions are modelled as outcomes (`Fault`). Python's traceback and the process exit that follows an uncaught exception are not modelled.
- `trace` (ls8/cpu.py:79-97): debug printing only. It reads `self.reg`, which does not exist, so any call would raise.
- The hard-coded program kept in comments in `load` (ls8/cpu.py:44-56) is not code. It appears only as the `Examples.PRINT8` program.
- `LineParsing.ParseBinary`: Python's `int` also accepts non-ASCII decimal digits whose value is 0 or 1, such as Arabic-Indic digits. These are rejected here.
- `Cpu.CPU.RamRead`: requires an address that Python accepts (-256 to 255). The IndexError raised for other addresses is not modelled.
- `Cpu.CPU.RamWrite`: requires an address that Python accepts (-256 to 255). The IndexError raised for other addresses is not modelled.
- Values other than integers in registers or RAM. Through this code, every register and RAM cell holds an integer.
