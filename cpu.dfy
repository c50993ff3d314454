/**
 * The LS-8 CPU object: 256 RAM cells, 8 registers and a program counter,
 * updated in place by its methods.  Each method is proved against the
 * value-level definitions of modules Machine and LineParsing.
 */
module Cpu {
  import opened Wrappers
  import opened Machine
  import LineParsing

  class CPU {
    const ram: array<int>
    const register: array<int>
    var pc: nat

    ghost predicate Valid()
      reads this
    {
      ram.Length == RAM_SIZE && register.Length == REGISTER_COUNT && ram != register
    }

    /** The machine state the object currently holds. */
    ghost function Snapshot(): (s: State)
      reads this, ram, register
      requires Valid()
      ensures s.Valid()
    {
      State(ram[..], register[..], pc)
    }

    /** A new CPU: every RAM cell and every register 0, pc 0. */
    constructor ()
      ensures Valid() && fresh(ram) && fresh(register)
      ensures forall i :: 0 <= i < RAM_SIZE ==> ram[i] == 0
      ensures forall i :: 0 <= i < REGISTER_COUNT ==> register[i] == 0
      ensures pc == 0
      ensures Snapshot() == Init()
    {
      ram := new int[RAM_SIZE](_ => 0);
      register := new int[REGISTER_COUNT](_ => 0);
      pc := 0;
      new;
      assert ram[..] == Init().ram;
      assert register[..] == Init().register;
    }

    /** `ram_read`: the value stored at `address`. */
    method RamRead(address: int) returns (value: int)
      requires Valid() && InBounds(address, RAM_SIZE)
      ensures value == ram[Slot(address, RAM_SIZE)]
    {
      value := ram[Slot(address, RAM_SIZE)];
    }

    /** `ram_write`: stores `value` at `address` and changes nothing else. */
    method RamWrite(value: int, address: int)
      requires Valid() && InBounds(address, RAM_SIZE)
      modifies ram
      ensures ram[Slot(address, RAM_SIZE)] == value
      ensures forall i :: 0 <= i < RAM_SIZE && i != Slot(address, RAM_SIZE) ==> ram[i] == old(ram[i])
      ensures register[..] == old(register[..]) && pc == old(pc)
    {
      ram[Slot(address, RAM_SIZE)] := value;
    }

    /**
     * `alu`: ADD or MUL of two registers into the first.  MUL returns the
     * new value and ADD returns nothing; any other operation, or a register
     * index out of range, raises and leaves the registers as they were.
     */
    method Alu(op: string, regA: int, regB: int) returns (returned: Option<int>, raised: Option<Fault>)
      requires Valid()
      modifies register
      ensures match Machine.Alu(op, regA, regB, old(register[..]))
        case AluDone(after, value) => raised == None && returned == value && register[..] == after
        case AluRaised(fault) => raised == Some(fault) && returned == None && register[..] == old(register[..])
    {
      returned, raised := None, None;
      if op == "ADD" {
        if !(InBounds(regA, REGISTER_COUNT) && InBounds(regB, REGISTER_COUNT)) {
          raised := Some(IndexError);
          return;
        }
        var i := Slot(regA, REGISTER_COUNT);
        register[i] := register[i] + register[Slot(regB, REGISTER_COUNT)];
      } else if op == "MUL" {
        if !(InBounds(regA, REGISTER_COUNT) && InBounds(regB, REGISTER_COUNT)) {
          raised := Some(IndexError);
          return;
        }
        var i := Slot(regA, REGISTER_COUNT);
        register[i] := register[i] * register[Slot(regB, REGISTER_COUNT)];
        returned := Some(register[i]);
      } else {
        raised := Some(UnsupportedAluOperation);
      }
    }

    /**
     * The loop of `load`, over the lines of the program file: each word is
     * written to the next address from 0.  A malformed line raises
     * ValueError and a 257th word IndexError; the words written before
     * either stay in RAM.
     */
    method Load(lines: seq<string>) returns (written: nat, raised: Option<Fault>)
      requires Valid()
      modifies ram
      ensures var p := LineParsing.Parse(lines);
        && written == (if |p.words| <= RAM_SIZE then |p.words| else RAM_SIZE)
        && raised == (if |p.words| > RAM_SIZE then Some(IndexError)
                      else if p.malformed then Some(ValueError)
                      else None)
        && ram[..] == p.words[..written] + old(ram[..])[written..]
      ensures register[..] == old(register[..]) && pc == old(pc)
    {
      written, raised := LoadLines(lines, LineParsing.Classify);
    }

    /** The loop of `load` for a given rule that says what each line contributes. */
    method LoadLines(lines: seq<string>, classify: string -> LineParsing.Line) returns (written: nat, raised: Option<Fault>)
      requires Valid()
      modifies ram
      ensures var p := LineParsing.Collect(LineParsing.MapSeq(classify, lines));
        && written == (if |p.words| <= RAM_SIZE then |p.words| else RAM_SIZE)
        && raised == (if |p.words| > RAM_SIZE then Some(IndexError)
                      else if p.malformed then Some(ValueError)
                      else None)
        && ram[..] == p.words[..written] + old(ram[..])[written..]
      ensures register[..] == old(register[..]) && pc == old(pc)
    {
      ghost var kinds := LineParsing.MapSeq(classify, lines);
      ghost var words: seq<int> := [];
      written, raised := 0, None;
      var i := 0;
      while i < |lines|
        invariant 0 <= i <= |lines|
        invariant written == |words| <= RAM_SIZE
        invariant ram[..] == words + old(ram[..])[written..]
        invariant LineParsing.Collect(kinds[..i]) == LineParsing.Parsed(words, false)
      {
        var kind := classify(lines[i]);
        LineParsing.MapSeqAt(classify, lines, i);
        LineParsing.CollectNext(kinds, i, words);
        match kind {
          case Blank =>
          case Malformed =>
            assert LineParsing.Collect(kinds).words[..written] == words;
            raised := Some(ValueError);
            return;
          case Word(v) =>
            if written == RAM_SIZE {
              assert LineParsing.Collect(kinds).words[..written] == words;
              raised := Some(IndexError);
              return;
            }
            ghost var rest := old(ram[..])[written..];
            assert rest[1..] == old(ram[..])[written + 1..];
            UpdateAfter(words, rest, v);
            ram[written] := v;
            assert ram[..] == (words + rest)[written := v];
            words := words + [v];
            written := written + 1;
        }
        i := i + 1;
      }
      assert kinds[..i] == kinds;
      assert LineParsing.Collect(kinds).words[..written] == words;
    }

    /**
     * One pass of the `while running` loop of `run`: fetch, decode and
     * execute the instruction at pc.  `running` is false once the loop ends,
     * with `stop` saying why: HLT, an unknown opcode (where the program
     * exits with status 1) or an IndexError.
     */
    method Cycle() returns (running: bool, printed: seq<int>, stop: Stop)
      requires Valid()
      modifies this, register
      ensures Valid()
      ensures match Step(old(Snapshot()))
        case Continue(next, out) => running && printed == out && Snapshot() == next
        case Stopped(next, why) => !running && printed == [] && stop == why && Snapshot() == next
    {
      running, printed, stop := true, [], Halt;
      if pc + 2 >= RAM_SIZE {
        return false, [], Crash(IndexError);
      }
      var ir := ram[pc];
      var operandA := ram[pc + 1];
      var operandB := ram[pc + 2];
      if ir == HLT {
        running := false;
        pc := pc + 1;
      } else if ir == LDI {
        if !InBounds(operandA, REGISTER_COUNT) {
          return false, [], Crash(IndexError);
        }
        register[Slot(operandA, REGISTER_COUNT)] := operandB;
        pc := pc + 3;
      } else if ir == PRN {
        if !InBounds(operandA, REGISTER_COUNT) {
          return false, [], Crash(IndexError);
        }
        printed := [register[Slot(operandA, REGISTER_COUNT)]];
        pc := pc + 2;
      } else if ir == MUL {
        var _, raised := Alu("MUL", operandA, operandB);
        if raised.Some? {
          return false, [], Crash(raised.value);
        }
        pc := pc + 3;
      } else {
        return false, [], UnknownInstruction(ir);
      }
    }

    /**
     * `run`: fetch, decode and execute until HLT, an unknown opcode or an
     * IndexError.  Returns the values PRN printed, in order.
     */
    method Run() returns (printed: seq<int>, stop: Stop)
      requires Valid()
      modifies this, register
      ensures Valid()
      ensures var r := Exec(old(Snapshot())); printed == r.output && stop == r.stop && Snapshot() == r.final
    {
      ghost var start := Snapshot();
      printed, stop := [], Halt;
      var running := true;
      while running
        invariant Valid() && ram[..] == start.ram
        invariant running ==> Exec(start) == Outcome(printed + Exec(Snapshot()).output, Exec(Snapshot()).stop, Exec(Snapshot()).final)
        invariant !running ==> Exec(start) == Outcome(printed, stop, Snapshot())
        decreases running, RAM_SIZE - pc
      {
        ghost var before := Snapshot();
        var out;
        running, out, stop := Cycle();
        if running {
          ExecContinue(before, Snapshot(), out);
          AppendAssociates(printed, out, Exec(Snapshot()).output);
        } else {
          ExecStop(before, Snapshot(), stop);
        }
        printed := printed + out;
      }
    }
  }

  /** Regrouping the printed output; stated apart so that `Run`'s loop does not search for it. */
  lemma AppendAssociates(a: seq<int>, b: seq<int>, c: seq<int>)
    ensures a + (b + c) == (a + b) + c
  {
  }

  /** Overwriting the first cell after a prefix extends the prefix. */
  lemma UpdateAfter(prefix: seq<int>, rest: seq<int>, v: int)
    requires rest != []
    ensures (prefix + rest)[|prefix| := v] == prefix + [v] + rest[1..]
  {
  }

  /** Writing a cell and reading it back, or reading another cell, through the CPU's accessors. */
  method ReadAfterWrite(cpu: CPU, value: int, address: int, other: int) returns (same: int, different: int)
    requires cpu.Valid() && InBounds(address, RAM_SIZE) && InBounds(other, RAM_SIZE)
    modifies cpu.ram
    ensures same == value
    ensures different == if Slot(other, RAM_SIZE) == Slot(address, RAM_SIZE) then value else old(cpu.ram[Slot(other, RAM_SIZE)])
  {
    cpu.RamWrite(value, address);
    same := cpu.RamRead(address);
    different := cpu.RamRead(other);
  }
}
