// The wired chip as an object (VLSI2/8051/i8051_all.vhd): the controller's registers, the data memory
// unit and the program memory's output, changed at every clock edge.
module Mcs51Board {
  import opened Mcs51Alu
  import opened Mcs51Ram
  import opened Mcs51Isa
  import opened Mcs51Controller
  import opened Mcs51Fetch
  import opened Mcs51Runs

  class Board {
    const rom: Rom
    const memory: RamUnit
    var c: Ctl
    var romData: byte

    ghost predicate Valid()
    {
      memory.Valid()
    }

    // The chip as a value.
    ghost function Now(): Chip
      reads this, memory, memory.iram
      requires Valid()
    {
      Chip(c, memory.Contents(), memory.out_data, romData)
    }

    // Reset; what it leaves undefined is taken from any, its controller, memory and outputs.
    constructor (rom: Rom, any: Chip)
      ensures Valid() && fresh(memory) && fresh(memory.iram) && this.rom == rom
      ensures Cleared(Now().ram.sfr) && Now().ram.iram == any.ram.iram
      ensures IsReset(Now()) && Now().ram == ResetRam(any.ram) && Now().q == any.q && Now().romQ == any.romQ
      ensures Now().c == any.c.(pc := 0, op1 := 0, cpu := CS_0, exe := 0, romRd := false, ramRd := false,
                                ramWr := false, aluOp := AluNone)
    {
      this.rom := rom;
      memory := new RamUnit(any.ram, any.q);
      c := any.c.(pc := 0, op1 := 0, cpu := CS_0, exe := 0, romRd := false, ramRd := false, ramWr := false, aluOp := AluNone);
      romData := any.romQ;
    }

    // One clock edge: every part sees the signals as they were before it.
    method Clock(pins: Pins, x: Noise)
      requires Valid()
      modifies this, memory, memory.iram
      ensures Valid() && Now() == Edge(rom, pins, old(Now()), x)
    {
      hide SetByte, GetByte, Clocked, Alu;
      var out := Alu(c.aluOp, c.src1, c.src2, c.src3, c.srcCy, c.srcAc, x.alu);
      var k := Clocked(c, romData, memory.out_data, out, x);
      romData := if c.romRd then rom[c.romAddr % |rom|] else x.romData;
      memory.Clock(c.ramAddr, c.ramOut, c.ramRd, c.ramWr, pins);
      c := k;
    }

    // Seventeen edges from an instruction boundary carry out one instruction.
    method Instruction(pins: Pins, xs: seq<Noise>, ghost a: Arch) returns (ghost any: word)
      requires Valid() && |xs| == 17 && Boundary(Now(), a) && Fetched(rom, a).Some?
      modifies this, memory, memory.iram
      ensures Valid() && Boundary(Now(), Step(rom, a, pins, any))
    {
      hide *;
      ghost var start := Now();
      any := SeventeenClocks(start, rom, pins, a, xs);
      assert xs[0..] == xs;
      for i := 0 to 17
        invariant Valid()
        invariant Run(rom, pins, Now(), xs[i..]) == Run(rom, pins, start, xs)
      {
        FirstOfRun(rom, pins, Now(), xs[i..]);
        assert xs[i..][0] == xs[i] && xs[i..][1..] == xs[i + 1..];
        Clock(pins, xs[i]);
      }
      RunOfNothing(rom, pins, Now());
      assert xs[17..] == [];
    }
  }

  lemma FirstOfRun(rom: Rom, pins: Pins, s: Chip, xs: seq<Noise>)
    requires xs != []
    ensures Run(rom, pins, s, xs) == Run(rom, pins, Edge(rom, pins, s, xs[0]), xs[1..])
  {
    hide Edge;
  }

  lemma RunOfNothing(rom: Rom, pins: Pins, s: Chip)
    ensures Run(rom, pins, s, []) == s
  {}
}
