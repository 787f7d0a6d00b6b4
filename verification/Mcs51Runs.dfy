// Whole instructions and whole programs: seventeen clocks an instruction, for any program, memory,
// noise and number of instructions. Reset, and the opcodes without a case.
module Mcs51Runs {
  import opened Mcs51Alu
  import opened Mcs51Ram
  import opened Mcs51Isa
  import opened Mcs51Controller
  import opened Mcs51Fetch
  import opened Mcs51Execute
  import opened Mcs51Meaning
  import opened Mcs51Decoding

  lemma PcSums(pc: word, m: byte, n: byte)
    requires m + n < 0x100
    ensures PcUAdd(PcUAdd(pc, m), n) == PcUAdd(pc, m + n)
  {}

  // The third byte matters only to instructions that have one.
  lemma ThirdUnused(op: Op, k: Ctl, b: byte)
    requires !op.NoCase? && !op.Other?
    requires op !in {CJNE_1, CJNE_2, CJNE_3, CJNE_4, DJNZ_2, LCALL, LJMP, MOV_10, MOV_12}
    ensures Meaning(op, k) == Meaning(op, k.(op3 := b))
  {
    hide Bank, Join;
  }

  // What has been fetched is the instruction at the program counter, and the counter is past it.
  lemma FetchesInstruction(s: Chip, rom: Rom, a: Arch)
    requires ReadyToExecute(s, rom, a)
    ensures Fetched(rom, a).Some? <==> !Dec(s.c.op1).op.NoCase? && !Dec(s.c.op1).op.Other?
    ensures Fetched(rom, a).Some? ==>
      Fetched(rom, a).value.i == Meaning(Dec(s.c.op1).op, s.c) && s.c.pc == PcUAdd(a.pc, Fetched(rom, a).value.bytes)
  {
    var k := s.c.(op3 := RomAt(rom, PcUAdd(a.pc, 2)));
    var d := Dec(s.c.op1);
    DecodeAgrees(k);
    ClassBytes(s.c.op1);
    PcSums(a.pc, 1, Flag(d.second));
    PcSums(a.pc, 1 + Flag(d.second), Flag(d.third));
    hide Dec, Decode, Bank, Meaning, PcUAdd, RomAt;
    if !d.op.NoCase? && !d.op.Other? && !d.third {
      ThirdUnused(d.op, s.c, k.op3);
    }
  }

  // One instruction: seventeen clocks take one instruction boundary to the next, and what the
  // programmer sees changes by the register transfers of the instruction.
  lemma SeventeenClocks(s: Chip, rom: Rom, pins: Pins, a: Arch, xs: seq<Noise>) returns (any: word)
    requires Boundary(s, a) && |xs| == 17 && Fetched(rom, a).Some?
    ensures Boundary(Run(rom, pins, s, xs), Step(rom, a, pins, any))
  {
    var ys, zs := xs[..9], xs[9..];
    assert ys + zs == xs;
    RunConcat(rom, pins, s, ys, zs);
    NineClocks(s, rom, pins, a, ys);
    var t := Run(rom, pins, s, ys);
    FetchesInstruction(t, rom, a);
    hide Run, Boundary, Exec, Fetched, Dec, Meaning, PcUAdd, RomAt, GetAcc, GetPsw;
    any := EightClocks(t, Dec(t.c.op1).op, rom, pins, zs);
  }

  // ---------- programs ----------

  // The programmer's view from a to b in as many instructions as there are inputs at the pins.
  ghost predicate Program(rom: Rom, a: Arch, pinss: seq<Pins>, b: Arch)
    decreases |pinss|
  {
    if pinss == [] then a == b
    else Fetched(rom, a).Some? && exists any: word :: Program(rom, Step(rom, a, pinss[0], any), pinss[1..], b)
  }

  // The chip over the same time: the pins change between instructions.
  function Clocks(rom: Rom, s: Chip, pinss: seq<Pins>, xs: seq<Noise>): Chip
    requires |xs| == 17 * |pinss|
    decreases |pinss|
  {
    if pinss == [] then s else Clocks(rom, Run(rom, pinss[0], s, xs[..17]), pinss[1..], xs[17..])
  }

  // Any number of instructions, for any program: the chip is at a boundary after each, and shows
  // what the instructions compute, up to the first opcode that is not an instruction.
  lemma {:induction false} ProgramRuns(rom: Rom, s: Chip, a: Arch, pinss: seq<Pins>, xs: seq<Noise>) returns (done: nat, b: Arch)
    requires Boundary(s, a) && |xs| == 17 * |pinss|
    ensures done <= |pinss| && Program(rom, a, pinss[..done], b)
    ensures Boundary(Clocks(rom, s, pinss[..done], xs[..17 * done]), b)
    ensures done < |pinss| ==> Fetched(rom, b).None?
    decreases |pinss|
  {
    hide Boundary, Run, Step, Fetched;
    if pinss == [] || Fetched(rom, a).None? {
      done, b := 0, a;
    } else {
      var any := SeventeenClocks(s, rom, pinss[0], a, xs[..17]);
      var t := Run(rom, pinss[0], s, xs[..17]);
      var rest;
      rest, b := ProgramRuns(rom, t, Step(rom, a, pinss[0], any), pinss[1..], xs[17..]);
      done := rest + 1;
      assert pinss[..done][0] == pinss[0] && pinss[..done][1..] == pinss[1..][..rest];
      assert xs[..17 * done][..17] == xs[..17] && xs[..17 * done][17..] == xs[17..][..17 * rest];
    }
  }

  // ---------- opcodes without a case ----------

  // The controller waits for ever in an execution it has no case for.
  predicate Stuck(s: Chip) {
    s.c.cpu.CS_3? && Dec(s.c.op1).op.NoCase?
  }

  lemma {:induction false} StaysStuck(s: Chip, rom: Rom, pins: Pins, xs: seq<Noise>)
    requires Stuck(s) && Quiet(s)
    ensures var r := Run(rom, pins, s, xs);
      Stuck(r) && Quiet(r) && r.ram == s.ram && r.c.pc == s.c.pc
    decreases |xs|
  {
    if xs != [] {
      var t := Edge(rom, pins, s, xs[0]);
      assert Stuck(t) && Quiet(t) && t.ram == s.ram && t.c.pc == s.c.pc by { hide Dec, Micro, Alu, SetByte, GetByte; }
      hide Edge, Dec;
      StaysStuck(t, rom, pins, xs[1..]);
    }
  }

  // MOVX, RETI and A5 stop the chip: nine clocks on it is never at an instruction boundary again, and
  // the memory stays as it is.
  lemma NoCaseHangs(s: Chip, rom: Rom, pins: Pins, a: Arch, xs: seq<Noise>, b: Arch)
    requires Boundary(s, a) && |xs| >= 9 && Dec(RomAt(rom, a.pc)).op.NoCase?
    ensures !Boundary(Run(rom, pins, s, xs), b) && Run(rom, pins, s, xs).ram == a.ram
  {
    var ys, zs := xs[..9], xs[9..];
    assert ys + zs == xs;
    RunConcat(rom, pins, s, ys, zs);
    NineClocks(s, rom, pins, a, ys);
    var t := Run(rom, pins, s, ys);
    assert Stuck(t) && Quiet(t) && t.ram == a.ram by { hide Dec, Run; }
    hide Dec, Run, RomAt;
    StaysStuck(t, rom, pins, zs);
  }

  // The eight opcodes concerned.
  lemma NoCases(op: byte)
    ensures Dec(op).op.NoCase? <==> op in {0x32, 0xA5, 0xE0, 0xE2, 0xE3, 0xF0, 0xF2, 0xF3}
  {
    var row, column := op / 0x10, op % 0x10;
    RowColumn(op);
    hide Dec, InMap;
    if column >= 8 { RegisterColumn(op, row, column); }
    else if column >= 6 { IndirectColumn(op, row, column); }
    else if column == 5 { DirectColumn(op, row); assert op == 0x10 * row + 5 by { assert op == 0x10 * row + column; } }
    else if column == 4 { ConstantColumn(op, row); }
    else if column == 1 { AddressColumn(op, row); }
    else { OtherColumn(op, row, column); }
  }

  // ---------- reset ----------

  // What reset leaves: the program counter and the requests, and whatever the memory holds.
  predicate IsReset(s: Chip) {
    s.c.cpu.CS_0? && s.c.exe == 0 && s.c.pc == 0 && Quiet(s) && s.c.aluOp.AluNone?
  }

  // The memory after i of the five start-up writes.
  function StartUpRam(m: Ram, i: nat): Ram {
    var m0 := SetByte(m, R_P0, 0xFF);
    var m1 := SetByte(m0, R_P1, 0xFF);
    var m2 := SetByte(m1, R_P2, 0xFF);
    var m3 := SetByte(m2, R_P3, 0xFF);
    if i == 0 then m else if i == 1 then m0 else if i == 2 then m1 else if i == 3 then m2 else if i == 4 then m3
    else SetByte(m3, R_SP, 7)
  }

  predicate StartingUp(s: Chip, m: Ram, i: nat) {
    && s.c.cpu.CS_0? && s.c.exe == i && s.c.pc == 0 && !s.c.ramRd && s.c.aluOp.AluNone?
    && RamAfter(s) == StartUpRam(m, i)
  }

  lemma StartUpEdge(s: Chip, m: Ram, i: nat, rom: Rom, pins: Pins, x: Noise)
    requires StartingUp(s, m, i) && i < 5
    ensures StartingUp(Edge(rom, pins, s, x), m, i + 1)
  {
    hide SetByte, GetByte, Fetch, Execute, Alu, RamAfter;
    WriteSeen(Edge(rom, pins, s, x));
  }

  lemma StartUpEnds(s: Chip, m: Ram, rom: Rom, pins: Pins, x: Noise)
    requires StartingUp(s, m, 5)
    ensures Boundary(Edge(rom, pins, s, x), Arch(0, StartUpRam(m, 5)))
  {
    hide SetByte, GetByte, Fetch, Execute, Alu, RamAfter, StartUpRam;
  }

  lemma {:induction false} StartUpRuns(s: Chip, m: Ram, i: nat, rom: Rom, pins: Pins, xs: seq<Noise>)
    requires StartingUp(s, m, i) && i <= 5 && |xs| == 6 - i
    ensures Boundary(Run(rom, pins, s, xs), Arch(0, StartUpRam(m, 5)))
    decreases |xs|
  {
    hide Edge, StartUpRam, Boundary, StartingUp;
    if i < 5 {
      StartUpEdge(s, m, i, rom, pins, xs[0]);
      StartUpRuns(Edge(rom, pins, s, xs[0]), m, i + 1, rom, pins, xs[1..]);
    } else {
      StartUpEnds(s, m, rom, pins, xs[0]);
      assert xs[1..] == [];
    }
  }

  // Six clocks after reset the chip is at its first boundary: program counter 0, stack pointer 7, all
  // ports high, and the other cells as reset left them.
  lemma ResetStarts(s: Chip, rom: Rom, pins: Pins, xs: seq<Noise>)
    requires IsReset(s) && |xs| == 6
    ensures Boundary(Run(rom, pins, s, xs),
      Arch(0, s.ram.(sfr := s.ram.sfr.(p0 := 0xFF, p1 := 0xFF, p2 := 0xFF, p3 := 0xFF, sp := 7))))
  {
    assert StartUpRam(s.ram, 5) == s.ram.(sfr := s.ram.sfr.(p0 := 0xFF, p1 := 0xFF, p2 := 0xFF, p3 := 0xFF, sp := 7));
    hide StartUpRam, Boundary, Run;
    assert StartingUp(s, s.ram, 0) by { assert StartUpRam(s.ram, 0) == s.ram by { StartUpBegins(s.ram); } }
    StartUpRuns(s, s.ram, 0, rom, pins, xs);
  }

  lemma StartUpBegins(m: Ram)
    ensures StartUpRam(m, 0) == m
  {}
}
