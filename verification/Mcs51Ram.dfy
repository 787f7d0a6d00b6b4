// The 8051's internal RAM and special function registers (VLSI2/8051/i8051_ram.vhd): byte access,
// aliases included, and the clocked unit around it.
module Mcs51Ram {
  import opened Mcs51Alu

  const R_B: byte := 0xF0
  const R_ACC: byte := 0xE0
  const R_PSW: byte := 0xD0
  const R_IP: byte := 0xB8
  const R_IE: byte := 0xA8
  const R_SP: byte := 0x81
  const R_P0: byte := 0x80
  const R_P1: byte := 0x90
  const R_P2: byte := 0xA0
  const R_P3: byte := 0xB0
  const R_DPL: byte := 0x82
  const R_DPH: byte := 0x83
  const R_PCON: byte := 0x87
  const R_SCON: byte := 0x98
  const R_SBUF: byte := 0x99
  const R_TCON: byte := 0x88
  const R_TMOD: byte := 0x89
  const R_TL0: byte := 0x8A
  const R_TL1: byte := 0x8B
  const R_TH0: byte := 0x8C
  const R_TH1: byte := 0x8D

  type Iram = s: seq<byte> | |s| == 128 witness seq(128, _ => 0)

  // The registers, and the output side of the four ports.
  datatype Registers = Registers(b: byte, acc: byte, psw: byte, ip: byte, ie: byte, sp: byte,
                                 dpl: byte, dph: byte, pcon: byte, scon: byte, sbuf: byte, tcon: byte,
                                 tmod: byte, tl0: byte, tl1: byte, th0: byte, th1: byte,
                                 p0: byte, p1: byte, p2: byte, p3: byte)

  datatype Ram = Ram(iram: Iram, sfr: Registers)

  // The input pins of the ports.
  datatype Pins = Pins(p0: byte, p1: byte, p2: byte, p3: byte)

  function GetRegister(s: Registers, a: byte): byte {
    if a == R_B then s.b
    else if a == R_ACC then s.acc
    else if a == R_PSW then s.psw
    else if a == R_IP then s.ip
    else if a == R_IE then s.ie
    else if a == R_SP then s.sp
    else if a == R_DPL then s.dpl
    else if a == R_DPH then s.dph
    else if a == R_PCON then s.pcon
    else if a == R_SCON then s.scon
    else if a == R_SBUF then s.sbuf
    else if a == R_TCON then s.tcon
    else if a == R_TMOD then s.tmod
    else if a == R_TL0 then s.tl0
    else if a == R_TL1 then s.tl1
    else if a == R_TH0 then s.th0
    else s.th1
  }

  function SetRegister(s: Registers, a: byte, v: byte): Registers {
    if a == R_B then s.(b := v)
    else if a == R_ACC then s.(acc := v)
    else if a == R_PSW then s.(psw := v)
    else if a == R_IP then s.(ip := v)
    else if a == R_IE then s.(ie := v)
    else if a == R_SP then s.(sp := v)
    else if a == R_P0 then s.(p0 := v)
    else if a == R_P1 then s.(p1 := v)
    else if a == R_P2 then s.(p2 := v)
    else if a == R_P3 then s.(p3 := v)
    else if a == R_DPL then s.(dpl := v)
    else if a == R_DPH then s.(dph := v)
    else if a == R_PCON then s.(pcon := v)
    else if a == R_SCON then s.(scon := v)
    else if a == R_SBUF then s.(sbuf := v)
    else if a == R_TCON then s.(tcon := v)
    else if a == R_TMOD then s.(tmod := v)
    else if a == R_TL0 then s.(tl0 := v)
    else if a == R_TL1 then s.(tl1 := v)
    else if a == R_TH0 then s.(th0 := v)
    else if a == R_TH1 then s.(th1 := v)
    else s
  }

  // A port is read at its pins. Any address that is no register falls on the lower seven bits.
  function GetByte(m: Ram, pins: Pins, a: byte): byte {
    if a == R_P0 then pins.p0
    else if a == R_P1 then pins.p1
    else if a == R_P2 then pins.p2
    else if a == R_P3 then pins.p3
    else if IsRegister(a) then GetRegister(m.sfr, a)
    else m.iram[a % 0x80]
  }

  function SetByte(m: Ram, a: byte, v: byte): Ram {
    if IsPort(a) || IsRegister(a) then m.(sfr := SetRegister(m.sfr, a, v))
    else m.(iram := m.iram[a % 0x80 := v])
  }

  predicate IsPort(a: byte) {
    a == R_P0 || a == R_P1 || a == R_P2 || a == R_P3
  }

  predicate IsRegister(a: byte) {
    a in {R_B, R_ACC, R_PSW, R_IP, R_IE, R_SP, R_DPL, R_DPH, R_PCON, R_SCON, R_SBUF, R_TCON, R_TMOD,
          R_TL0, R_TL1, R_TH0, R_TH1}
  }

  // What an address stands for: itself, or the internal cell it is an alias of.
  function Cell(a: byte): byte {
    if IsPort(a) || IsRegister(a) then a else a % 0x80
  }

  // A byte read is the one last written to the same cell; a port is written without being read.
  lemma ReadAfterWrite(m: Ram, pins: Pins, a: byte, v: byte, r: byte)
    ensures GetByte(SetByte(m, a, v), pins, r)
         == if Cell(r) == Cell(a) && !IsPort(a) then v else GetByte(m, pins, r)
  {}

  // Addresses above 127 that are no register are aliases.
  lemma Aliases(m: Ram, pins: Pins, a: byte, v: byte)
    ensures GetByte(m, pins, a) == GetByte(m, pins, Cell(a)) && SetByte(m, a, v) == SetByte(m, Cell(a), v)
    ensures Cell(Cell(a)) == Cell(a) && (a < 0x80 ==> Cell(a) == a)
  {}

  // Writes to different cells can be swapped.
  lemma WritesCommute(m: Ram, a: byte, v: byte, b: byte, w: byte)
    requires Cell(a) != Cell(b)
    ensures SetByte(SetByte(m, a, v), b, w) == SetByte(SetByte(m, b, w), a, v)
  {
    if Cell(a) == a % 0x80 && Cell(b) == b % 0x80 {
      var i, j := a % 0x80, b % 0x80;
      assert m.iram[i := v][j := w] == m.iram[j := w][i := v];
    }
  }

  // Reset clears most registers and leaves the cells, the stack pointer and the ports undefined.
  function ResetRam(m: Ram): Ram {
    m.(sfr := Registers(0, 0, 0, 0, 0, m.sfr.sp, 0, 0, 0, 0, 0, 0, 0, 0, 0, 0, 0,
                        m.sfr.p0, m.sfr.p1, m.sfr.p2, m.sfr.p3))
  }

  // Every register that reset names is zero.
  predicate Cleared(s: Registers) {
    && s.b == 0 && s.acc == 0 && s.psw == 0 && s.ip == 0 && s.ie == 0 && s.dpl == 0 && s.dph == 0 && s.pcon == 0
    && s.scon == 0 && s.sbuf == 0 && s.tcon == 0 && s.tmod == 0 && s.tl0 == 0 && s.tl1 == 0 && s.th0 == 0 && s.th1 == 0
  }

  // The unit: the memory and the data output, one access at a clock edge.
  class RamUnit {
    const iram: array<byte>
    var sfr: Registers
    var out_data: byte

    ghost predicate Valid()
    {
      iram.Length == 128
    }

    ghost function Contents(): Ram
      reads this, iram
      requires Valid()
    {
      Ram(iram[..], sfr)
    }

    // Reset. What it leaves undefined is what any and out hold.
    constructor (any: Ram, out: byte)
      ensures Valid() && fresh(iram)
      ensures Contents() == ResetRam(any) && out_data == out
      ensures Cleared(sfr) && iram[..] == any.iram
    {
      iram := new byte[128](i requires 0 <= i < 128 => any.iram[i]);
      sfr := ResetRam(any).sfr;
      out_data := out;
      new;
      assert iram[..] == any.iram;
    }

    method Get(a: byte, pins: Pins) returns (v: byte)
      requires Valid()
      ensures v == GetByte(Contents(), pins, a)
    {
      if a == R_P0 {
        v := pins.p0;
      } else if a == R_P1 {
        v := pins.p1;
      } else if a == R_P2 {
        v := pins.p2;
      } else if a == R_P3 {
        v := pins.p3;
      } else if IsRegister(a) {
        v := GetRegister(sfr, a);
      } else {
        v := iram[a % 0x80];
      }
    }

    method Set(a: byte, v: byte)
      requires Valid()
      modifies this`sfr, iram
      ensures Contents() == SetByte(old(Contents()), a, v)
    {
      if IsPort(a) || IsRegister(a) {
        sfr := SetRegister(sfr, a, v);
      } else {
        iram[a % 0x80] := v;
      }
    }

    // A read wins over a write; what is read appears at the output after the edge.
    method Clock(addr: byte, in_data: byte, rd: bool, wr: bool, pins: Pins)
      requires Valid()
      modifies this, iram
      ensures Contents() == if wr && !rd then SetByte(old(Contents()), addr, in_data) else old(Contents())
      ensures out_data == if rd then GetByte(old(Contents()), pins, addr) else old(out_data)
    {
      if rd {
        var v := Get(addr, pins);
        out_data := v;
      } else if wr {
        Set(addr, in_data);
      }
    }
  }
}
