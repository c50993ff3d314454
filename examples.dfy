/**
 * Sample LS-8 programs, run through the model from the text of their
 * program files to what they print.
 */
module Examples {
  import opened Wrappers
  import opened Machine
  import LineParsing
  import Cpu

  /** print8.ls8: LDI R0,8; PRN R0; HLT. */
  const PRINT8: seq<int> := [LDI, 0, 8, PRN, 0, HLT]

  /** LDI R0,8; LDI R1,9; MUL R0,R1; PRN R0; HLT. */
  const MULT8X9: seq<int> := [LDI, 0, 8, LDI, 1, 9, MUL, 0, 1, PRN, 0, HLT]

  /** print8 prints 8 and halts one past its HLT, at pc 6. */
  lemma Print8Runs()
    ensures var r := Exec(Loaded(PRINT8));
      r.output == [8] && r.stop == Halt && r.final.pc == 6 && r.final.register[0] == 8
  {
    var s0 := Loaded(PRINT8);
    assert s0.ram[..6] == PRINT8;
    assert s0.ram[0] == LDI && s0.ram[1] == 0 && s0.ram[2] == 8;
    var s1 := s0.(register := s0.register[0 := 8], pc := 3);
    assert Step(s0) == Continue(s1, []);
    assert s1.ram[3] == PRN && s1.ram[4] == 0 && s1.ram[5] == HLT;
    var s2 := s1.(pc := 5);
    assert Step(s1) == Continue(s2, [8]);
    assert s2.ram[5] == HLT;
    assert Step(s2) == Stopped(s2.(pc := 6), Halt);
    assert Exec(s2) == Outcome([], Halt, s2.(pc := 6));
    assert Exec(s1) == Outcome([8], Halt, s2.(pc := 6));
  }

  /** The multiplication program prints 72 = 8 * 9 and halts at pc 12. */
  lemma Mult8x9Runs()
    ensures var r := Exec(Loaded(MULT8X9));
      r.output == [72] && r.stop == Halt && r.final.pc == 12 && r.final.register[0] == 72
  {
    var s0 := Loaded(MULT8X9);
    assert s0.ram[..12] == MULT8X9;
    assert s0.ram[0] == LDI && s0.ram[1] == 0 && s0.ram[2] == 8;
    var s1 := s0.(register := s0.register[0 := 8], pc := 3);
    assert Step(s0) == Continue(s1, []);
    assert s1.ram[3] == LDI && s1.ram[4] == 1 && s1.ram[5] == 9;
    var s2 := s1.(register := s1.register[1 := 9], pc := 6);
    assert Step(s1) == Continue(s2, []);
    assert s2.ram[6] == MUL && s2.ram[7] == 0 && s2.ram[8] == 1;
    var s3 := s2.(register := s2.register[0 := 72], pc := 9);
    assert Alu("MUL", 0, 1, s2.register) == AluDone(s2.register[0 := 72], Some(72));
    assert Step(s2) == Continue(s3, []);
    assert s3.ram[9] == PRN && s3.ram[10] == 0 && s3.ram[11] == HLT;
    var s4 := s3.(pc := 11);
    assert Step(s3) == Continue(s4, [72]);
    assert s4.ram[11] == HLT;
    assert Step(s4) == Stopped(s4.(pc := 12), Halt);
    assert Exec(s4) == Outcome([], Halt, s4.(pc := 12));
    assert Exec(s3) == Outcome([72], Halt, s4.(pc := 12));
    assert Exec(s2) == Exec(s3);
    assert Exec(s1) == Exec(s3);
  }

  /** A new CPU's RAM is all zeros, and 0 is no opcode: running it exits at once. */
  lemma NewCpuExits()
    ensures Exec(Init()) == Outcome([], UnknownInstruction(0), Init())
  {
    ExecOnZeroOpcode(Init());
  }

  /** A new CPU, `load` of print8's program text, then `run`. */
  method Print8Session() returns (printed: seq<int>, stop: Stop)
    ensures printed == [8] && stop == Halt
  {
    var cpu := new Cpu.CPU();
    LineParsing.ParseProgramText(PRINT8);
    var written, raised := cpu.Load(LineParsing.ProgramText(PRINT8));
    assert cpu.Snapshot() == Loaded(PRINT8);
    Print8Runs();
    printed, stop := cpu.Run();
  }

  /** A new CPU, `load` of mult8x9's program text, then `run`. */
  method Mult8x9Session() returns (printed: seq<int>, stop: Stop)
    ensures printed == [72] && stop == Halt
  {
    var cpu := new Cpu.CPU();
    LineParsing.ParseProgramText(MULT8X9);
    var written, raised := cpu.Load(LineParsing.ProgramText(MULT8X9));
    assert cpu.Snapshot() == Loaded(MULT8X9);
    Mult8x9Runs();
    printed, stop := cpu.Run();
  }

  /**
   * A line holding only the separator U+001C is skipped, but `1` followed
   * by U+001F stops the load with ValueError.
   */
  lemma SeparatorLines()
    ensures LineParsing.Classify("\U{1C}") == LineParsing.Blank
    ensures LineParsing.Classify("1\U{1F}") == LineParsing.Malformed
  {
    LineParsing.ClassifyBlank("\U{1C}");
    LineParsing.ClassifySeparator("1\U{1F}", 1);
  }
}
