// The first nine clocks of an instruction: the chip goes from an instruction boundary to the start of
// the execution with the right bytes, and its decoder agrees with the opcode map.
module Mcs51Fetch {
  import opened Mcs51Alu
  import opened Mcs51Ram
  import opened Mcs51Isa
  import opened Mcs51Controller

  predicate Quiet(s: Chip) {
    !s.c.ramRd && !s.c.ramWr && !s.c.romRd
  }

  // An instruction boundary: no memory access is pending, and the chip holds the programmer's view.
  predicate Boundary(s: Chip, a: Arch) {
    s.c.cpu.CS_1? && s.c.exe == 0 && Quiet(s) && s.c.aluOp.AluNone? && s.c.pc == a.pc && s.ram == a.ram
  }

  // The opcode, its second byte, and the byte after the ones before the third.
  function Byte1(rom: Rom, pc: word): byte { RomAt(rom, pc) }
  function Byte2(rom: Rom, pc: word): byte { RomAt(rom, PcUAdd(pc, 1)) }
  function Second(rom: Rom, pc: word): nat { Flag(Dec(Byte1(rom, pc)).second) }
  function Third(rom: Rom, pc: word): nat { Flag(Dec(Byte1(rom, pc)).third) }
  function Byte3(rom: Rom, pc: word): byte { RomAt(rom, PcUAdd(PcUAdd(pc, 1), Second(rom, pc))) }
  function NextPc(rom: Rom, pc: word): word { PcUAdd(PcUAdd(PcUAdd(pc, 1), Second(rom, pc)), Third(rom, pc)) }

  // The start of the execution.
  predicate ReadyToExecute(s: Chip, rom: Rom, a: Arch) {
    && s.c.cpu.CS_3? && s.c.exe == 0 && Quiet(s) && s.ram == a.ram && s.c.pc == NextPc(rom, a.pc)
    && s.c.op1 == Byte1(rom, a.pc) && s.c.op2 == Byte2(rom, a.pc) && s.c.op3 == Byte3(rom, a.pc)
    && s.c.acc == GetAcc(a.ram) && s.c.psw == GetPsw(a.ram)
  }

  // What the ALU adds for the program counter.
  predicate Adds(c: Ctl, pc: word, n: byte) {
    c.aluOp.AluPcUAdd? && Join(c.src2, c.src1) == pc && c.src3 == n
  }

  predicate RomRequest(c: Ctl, pc: word) {
    c.romRd && c.romAddr == pc % 0x1000
  }

  predicate RamRequest(c: Ctl, a: byte) {
    c.ramRd && c.ramAddr == a
  }

  predicate NoRom(c: Ctl) { !c.romRd }
  predicate NoRam(c: Ctl) { !c.ramRd && !c.ramWr }

  // The chip before the edge ES_i of the fetch.
  predicate Before(i: nat, s: Chip, rom: Rom, a: Arch) {
    var pc1 := PcUAdd(a.pc, 1);
    var pc2 := PcUAdd(pc1, Second(rom, a.pc));
    && s.c.cpu.CS_2? && s.c.exe == i && s.ram == a.ram
    && (i < 6 ==> s.c.pc == a.pc)
    && (i >= 6 ==> s.c.pc == NextPc(rom, a.pc))
    && (i != 2 && i != 3 ==> NoRam(s.c))
    && (i != 1 && i != 4 && i != 5 ==> NoRom(s.c))
    && (i == 1 ==> RomRequest(s.c, a.pc))
    && (1 <= i <= 3 ==> Adds(s.c, a.pc, 1))
    && (i == 2 ==> RamRequest(s.c, R_PSW) && s.romQ == Byte1(rom, a.pc))
    && (i == 3 ==> RamRequest(s.c, R_ACC) && s.q == a.ram.sfr.psw)
    && (i >= 3 ==> s.c.op1 == Byte1(rom, a.pc))
    && (i == 4 ==> RomRequest(s.c, pc1) && Adds(s.c, pc1, Second(rom, a.pc)) && s.q == GetAcc(a.ram))
    && (i >= 4 ==> s.c.psw == GetPsw(a.ram))
    && (i == 5 ==> s.romQ == Byte2(rom, a.pc) && RomRequest(s.c, pc2) && Adds(s.c, pc2, Third(rom, a.pc)))
    && (i >= 5 ==> s.c.acc == GetAcc(a.ram))
    && (i >= 6 ==> s.c.op2 == Byte2(rom, a.pc))
    && (i == 6 ==> s.romQ == Byte3(rom, a.pc))
    && (i == 7 ==> s.c.op3 == Byte3(rom, a.pc))
  }

  lemma JoinMod(w: word)
    ensures Hi(w) % 0x10 * 0x100 + Lo(w) == w % 0x1000
  {}

  // The ALU's sum arrives in two bytes.
  lemma PcSum(s: Chip, x: Noise, pc: word, n: byte)
    requires Adds(s.c, pc, n)
    ensures var o := AluNow(s, x);
      Join(o.d2, o.d1) == PcUAdd(pc, n) && o.d1 == Lo(PcUAdd(pc, n)) && o.d2 == Hi(PcUAdd(pc, n))
  {
    JoinSplits(0, 0, PcUAdd(pc, n));
  }

  lemma FetchEdge(i: nat, s: Chip, rom: Rom, pins: Pins, a: Arch, x: Noise)
    requires i < 7 && Before(i, s, rom, a)
    ensures Before(i + 1, Edge(rom, pins, s, x), rom, a)
  {
    if i == 0 { JoinMod(a.pc); JoinSplits(0, 0, a.pc); }
    if i == 3 { PcSum(s, x, a.pc, 1); JoinMod(PcUAdd(a.pc, 1)); }
    if i == 4 {
      PcSum(s, x, PcUAdd(a.pc, 1), Second(rom, a.pc));
      JoinMod(PcUAdd(PcUAdd(a.pc, 1), Second(rom, a.pc)));
    }
    if i == 5 { PcSum(s, x, PcUAdd(PcUAdd(a.pc, 1), Second(rom, a.pc)), Third(rom, a.pc)); }
    hide Hi, Lo, Join, PcUAdd, PcSAdd, DoAdd, DoSub, DoMul, DoDa, Dec, FromByte, SetByte, Execute, StartUp, AluNow;
  }

  lemma FirstEdge(s: Chip, rom: Rom, pins: Pins, a: Arch, x: Noise)
    requires Boundary(s, a)
    ensures Before(0, Edge(rom, pins, s, x), rom, a)
  {
    hide SetByte, GetByte, Fetch, Execute, StartUp, Alu;
  }

  lemma LastEdge(s: Chip, rom: Rom, pins: Pins, a: Arch, x: Noise)
    requires Before(7, s, rom, a)
    ensures ReadyToExecute(Edge(rom, pins, s, x), rom, a)
  {
    hide SetByte, GetByte, Execute, StartUp, Alu, Dec, FromByte, Byte1, Byte2, Byte3, NextPc;
  }

  lemma {:induction false} FetchFrom(i: nat, s: Chip, rom: Rom, pins: Pins, a: Arch, xs: seq<Noise>)
    requires i <= 7 && |xs| == 8 - i && Before(i, s, rom, a)
    ensures ReadyToExecute(Run(rom, pins, s, xs), rom, a)
    decreases 8 - i
  {
    hide Before, ReadyToExecute, Edge;
    if i < 7 {
      FetchEdge(i, s, rom, pins, a, xs[0]);
      FetchFrom(i + 1, Edge(rom, pins, s, xs[0]), rom, pins, a, xs[1..]);
    } else {
      LastEdge(s, rom, pins, a, xs[0]);
      assert xs[1..] == [];
    }
  }

  // Nine clocks from an instruction boundary: the chip is about to execute the instruction at the
  // program counter, which is past it.
  lemma NineClocks(s: Chip, rom: Rom, pins: Pins, a: Arch, xs: seq<Noise>)
    requires Boundary(s, a) && |xs| == 9
    ensures ReadyToExecute(Run(rom, pins, s, xs), rom, a)
  {
    hide Before, ReadyToExecute, Edge, Boundary;
    FirstEdge(s, rom, pins, a, xs[0]);
    FetchFrom(0, Edge(rom, pins, s, xs[0]), rom, pins, a, xs[1..]);
  }
}
