/**
 * The LS-8 machine as values: its state, the ALU, one fetch-decode-execute
 * step and a complete run.  The CPU class of module Cpu updates arrays in
 * place and is proved to follow these definitions.
 *
 * Registers and RAM cells hold unbounded integers (no 8-bit wrap-around),
 * and subscripts follow Python's list rules: an index i into a list of
 * length n is accepted when -n <= i < n, a negative one counting from the
 * end; any other index raises IndexError.
 */
module Machine {
  import opened Wrappers

  /** Number of RAM cells and of registers. */
  const RAM_SIZE: nat := 256
  const REGISTER_COUNT: nat := 8

  /** The only four opcodes the interpreter decodes (0b00000001, 0b10000010, 0b01000111, 0b10100010). */
  const HLT: int := 1
  const LDI: int := 130
  const PRN: int := 71
  const MUL: int := 162

  /** Python accepts `xs[i]` on a list of length n exactly when this holds. */
  predicate InBounds(i: int, n: nat) {
    -(n as int) <= i < n
  }

  /** The cell that Python's `xs[i]` denotes. */
  function Slot(i: int, n: nat): (k: nat)
    requires InBounds(i, n)
    ensures k < n
  {
    if i < 0 then i + n else i
  }

  /** The exceptions the modelled code can raise. */
  datatype Fault =
    | IndexError               // a list subscript out of range
    | ValueError               // a program line that is not a base-2 literal
    | UnsupportedAluOperation  // alu() called with an operation other than ADD or MUL

  datatype State = State(ram: seq<int>, register: seq<int>, pc: nat) {
    predicate Valid() {
      |ram| == RAM_SIZE && |register| == REGISTER_COUNT
    }
  }

  /** The state a new CPU starts in. */
  function Init(): (s: State)
    ensures s.Valid()
  {
    State(seq(RAM_SIZE, _ => 0), seq(REGISTER_COUNT, _ => 0), 0)
  }

  /** What `alu` does: the new register file and the value it returns, or the exception it raises. */
  datatype AluOutcome =
    | AluDone(register: seq<int>, returned: Option<int>)
    | AluRaised(fault: Fault)

  function Alu(op: string, a: int, b: int, register: seq<int>): (r: AluOutcome)
    requires |register| == REGISTER_COUNT
    ensures r.AluDone? ==> |r.register| == REGISTER_COUNT
  {
    if op == "ADD" then
      if InBounds(a, REGISTER_COUNT) && InBounds(b, REGISTER_COUNT) then
        var i := Slot(a, REGISTER_COUNT);
        AluDone(register[i := register[i] + register[Slot(b, REGISTER_COUNT)]], None)
      else
        AluRaised(IndexError)
    else if op == "MUL" then
      if InBounds(a, REGISTER_COUNT) && InBounds(b, REGISTER_COUNT) then
        var i := Slot(a, REGISTER_COUNT);
        var product := register[i] * register[Slot(b, REGISTER_COUNT)];
        AluDone(register[i := product], Some(product))
      else
        AluRaised(IndexError)
    else
      AluRaised(UnsupportedAluOperation)
  }

  /** The effect of each ALU operation, register by register. */
  lemma AluEffects(op: string, a: int, b: int, register: seq<int>)
    requires |register| == REGISTER_COUNT
    ensures var r := Alu(op, a, b, register);
      (op == "ADD" || op == "MUL") && InBounds(a, REGISTER_COUNT) && InBounds(b, REGISTER_COUNT) ==>
        var i, j := Slot(a, REGISTER_COUNT), Slot(b, REGISTER_COUNT);
        && r.AluDone?
        && r.register[i] == (if op == "ADD" then register[i] + register[j] else register[i] * register[j])
        && (forall k :: 0 <= k < REGISTER_COUNT && k != i ==> r.register[k] == register[k])
        && r.returned == (if op == "ADD" then None else Some(r.register[i]))
    ensures (op == "ADD" || op == "MUL") && !(InBounds(a, REGISTER_COUNT) && InBounds(b, REGISTER_COUNT)) ==>
      Alu(op, a, b, register) == AluRaised(IndexError)
    ensures op != "ADD" && op != "MUL" ==> Alu(op, a, b, register) == AluRaised(UnsupportedAluOperation)
  {
  }

  /** Why a run stopped: HLT, an opcode outside the four (exit status 1), or an exception. */
  datatype Stop = Halt | UnknownInstruction(opcode: int) | Crash(fault: Fault)

  /** One iteration of the `while running` loop: either the loop goes on, or it ends. */
  datatype StepResult =
    | Continue(next: State, printed: seq<int>)
    | Stopped(next: State, stop: Stop)

  /**
   * One fetch-decode-execute iteration.  The opcode and both following
   * bytes are fetched whatever the opcode, so a step needs pc + 2 < 256.
   * Every step that continues moves pc forward by 2 or 3, HLT by 1, and
   * no step writes RAM.
   */
  function Step(s: State): (r: StepResult)
    requires s.Valid()
    ensures r.next.Valid() && r.next.ram == s.ram
    ensures r.Continue? ==> s.pc + 2 < RAM_SIZE && s.pc + 2 <= r.next.pc <= s.pc + 3 && |r.printed| <= 1
    ensures r.Continue? && r.printed != [] ==> r.next.pc == s.pc + 2
    ensures r.Stopped? && r.stop.Halt? ==> s.pc + 2 < RAM_SIZE && r.next == s.(pc := s.pc + 1)
    ensures r.Stopped? && !r.stop.Halt? ==> r.next == s
  {
    if s.pc + 2 >= RAM_SIZE then
      Stopped(s, Crash(IndexError))
    else
      var ir := s.ram[s.pc];
      var a := s.ram[s.pc + 1];
      var b := s.ram[s.pc + 2];
      if ir == HLT then
        Stopped(s.(pc := s.pc + 1), Halt)
      else if ir == LDI then
        if InBounds(a, REGISTER_COUNT) then
          Continue(s.(register := s.register[Slot(a, REGISTER_COUNT) := b], pc := s.pc + 3), [])
        else
          Stopped(s, Crash(IndexError))
      else if ir == PRN then
        if InBounds(a, REGISTER_COUNT) then
          Continue(s.(pc := s.pc + 2), [s.register[Slot(a, REGISTER_COUNT)]])
        else
          Stopped(s, Crash(IndexError))
      else if ir == MUL then
        match Alu("MUL", a, b, s.register)
        case AluDone(register, _) => Continue(s.(register := register, pc := s.pc + 3), [])
        case AluRaised(fault) => Stopped(s, Crash(fault))
      else
        Stopped(s, UnknownInstruction(ir))
  }

  /** The effect of each opcode on registers, output and pc. */
  lemma StepEffects(s: State)
    requires s.Valid() && s.pc + 2 < RAM_SIZE
    ensures var ir, a, b, r := s.ram[s.pc], s.ram[s.pc + 1], s.ram[s.pc + 2], Step(s);
      && (ir == HLT ==> r == Stopped(s.(pc := s.pc + 1), Halt))
      && (ir == LDI && InBounds(a, REGISTER_COUNT) ==>
            && r.Continue? && r.printed == [] && r.next.pc == s.pc + 3
            && r.next.register[Slot(a, REGISTER_COUNT)] == b
            && forall k :: 0 <= k < REGISTER_COUNT && k != Slot(a, REGISTER_COUNT) ==> r.next.register[k] == s.register[k])
      && (ir == PRN && InBounds(a, REGISTER_COUNT) ==>
            r == Continue(s.(pc := s.pc + 2), [s.register[Slot(a, REGISTER_COUNT)]]))
      && (ir == MUL && InBounds(a, REGISTER_COUNT) && InBounds(b, REGISTER_COUNT) ==>
            && r.Continue? && r.printed == [] && r.next.pc == s.pc + 3
            && r.next.register == Alu("MUL", a, b, s.register).register)
      && ((ir == LDI || ir == PRN) && !InBounds(a, REGISTER_COUNT) ==> r == Stopped(s, Crash(IndexError)))
      && (ir == MUL && !(InBounds(a, REGISTER_COUNT) && InBounds(b, REGISTER_COUNT)) ==>
            r == Stopped(s, Crash(IndexError)))
      && (ir != HLT && ir != LDI && ir != PRN && ir != MUL ==> r == Stopped(s, UnknownInstruction(ir)))
  {
  }

  /** What `run` produces: the values PRN printed, in order, why it stopped, and the final state. */
  datatype Outcome = Outcome(output: seq<int>, stop: Stop, final: State)

  /**
   * The whole `run` loop.  It terminates because every step that continues
   * moves pc forward while pc + 2 stays below 256.
   */
  function Exec(s: State): (r: Outcome)
    requires s.Valid()
    ensures r.final.Valid()
    decreases RAM_SIZE - s.pc
  {
    match Step(s)
    case Stopped(t, why) => Outcome([], why, t)
    case Continue(t, printed) =>
      var rest := Exec(t);
      Outcome(printed + rest.output, rest.stop, rest.final)
  }

  /** A run whose first step continues prints that step's output, then runs on from the next state. */
  lemma ExecContinue(s: State, t: State, out: seq<int>)
    requires s.Valid() && Step(s) == Continue(t, out)
    ensures t.Valid() && Exec(s) == Outcome(out + Exec(t).output, Exec(t).stop, Exec(t).final)
  {
  }

  /** A run whose first step stops ends there, having printed nothing. */
  lemma ExecStop(s: State, t: State, why: Stop)
    requires s.Valid() && Step(s) == Stopped(t, why)
    ensures Exec(s) == Outcome([], why, t)
  {
  }

  /** A run never writes RAM. */
  lemma {:induction false} ExecKeepsRam(s: State)
    requires s.Valid()
    ensures Exec(s).final.ram == s.ram
    decreases RAM_SIZE - s.pc
  {
    match Step(s)
    case Stopped(_, _) =>
    case Continue(t, _) => ExecKeepsRam(t);
  }

  /**
   * A run only moves pc forward, by at least two cells per printed value,
   * and never past the end of RAM when it starts inside it; a run that halts leaves pc one past the
   * HLT, which itself had two cells after it.
   */
  lemma {:induction false} ExecProgress(s: State)
    requires s.Valid()
    ensures var r := Exec(s); s.pc + 2 * |r.output| <= r.final.pc
    ensures s.pc <= RAM_SIZE ==> Exec(s).final.pc <= RAM_SIZE
    ensures Exec(s).stop.Halt? ==> Exec(s).final.pc + 1 < RAM_SIZE
    decreases RAM_SIZE - s.pc
  {
    match Step(s)
    case Stopped(_, _) =>
    case Continue(t, _) => ExecProgress(t);
  }

  /**
   * Why a run stops, stated on the final state: HLT at the final pc's
   * predecessor, an opcode outside the four at the final pc, or an
   * IndexError from the fetch or a register operand.  `run` only ever asks
   * the ALU for MUL, so no other exception can end it.
   */
  lemma {:induction false} ExecStopReason(s: State)
    requires s.Valid()
    ensures var r := Exec(s); var f := r.final;
      match r.stop
      case Halt => 0 < f.pc < RAM_SIZE && f.ram[f.pc - 1] == HLT
      case UnknownInstruction(op) =>
        && f.pc + 2 < RAM_SIZE && f.ram[f.pc] == op
        && op != HLT && op != LDI && op != PRN && op != MUL
      case Crash(fault) =>
        && fault == IndexError
        && (f.pc + 2 >= RAM_SIZE
            || !InBounds(f.ram[f.pc + 1], REGISTER_COUNT)
            || (f.ram[f.pc] == MUL && !InBounds(f.ram[f.pc + 2], REGISTER_COUNT)))
    decreases RAM_SIZE - s.pc
  {
    match Step(s)
    case Stopped(_, _) =>
    case Continue(t, _) => ExecStopReason(t);
  }

  /** A run that starts on a zero cell (as in a new CPU's RAM) stops at once with opcode 0. */
  lemma ExecOnZeroOpcode(s: State)
    requires s.Valid() && s.pc + 2 < RAM_SIZE && s.ram[s.pc] == 0
    ensures Exec(s) == Outcome([], UnknownInstruction(0), s)
  {
  }

  /**
   * Because both operand cells are fetched whatever the opcode, an HLT in
   * one of the last two RAM cells raises IndexError instead of halting.
   */
  lemma HaltInLastCellsCrashes(s: State)
    requires s.Valid() && RAM_SIZE - 2 <= s.pc < RAM_SIZE && s.ram[s.pc] == HLT
    ensures Exec(s) == Outcome([], Crash(IndexError), s)
  {
  }

  /** The state after `load` has written `words` from address 0 into a new CPU. */
  function Loaded(words: seq<int>): (s: State)
    requires |words| <= RAM_SIZE
    ensures s.Valid() && s.ram[..|words|] == words && s.pc == 0
    ensures forall i :: |words| <= i < RAM_SIZE ==> s.ram[i] == 0
  {
    Init().(ram := words + Init().ram[|words|..])
  }
}
