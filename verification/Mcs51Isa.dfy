// The instructions of the 8051 as register transfers: what one instruction does to the program
// counter and the memory, with no clocks (VLSI2/8051/i8051_ctr.vhd). Transfers come in the order in
// which the controller makes them; Mcs51Comments compares that with the order of its comments.
module Mcs51Isa {
  import opened Mcs51Alu
  import opened Mcs51Ram

  // What the programmer sees.
  datatype Arch = Arch(pc: word, ram: Ram)

  type Rom = s: seq<byte> | |s| > 0 witness [0]

  // Twelve address bits reach the program memory, and wrap around its length.
  function RomAt(rom: Rom, pc: word): byte {
    rom[pc % 0x1000 % |rom|]
  }

  // ---------- the program status word ----------

  datatype Psw = Psw(cy: bool, ac: bool, f0: bool, rs1: bool, rs0: bool, ov: bool, nu: bool, p: bool)

  function Half(n: nat): nat {
    n / 2
  }

  predicate Odd(n: nat) {
    n % 2 == 1
  }

  function FromByte(b: byte): Psw {
    var b1 := Half(b);
    var b2 := Half(b1);
    var b3 := Half(b2);
    var b4 := Half(b3);
    var b5 := Half(b4);
    var b6 := Half(b5);
    Psw(Odd(Half(b6)), Odd(b6), Odd(b5), Odd(b4), Odd(b3), Odd(b2), Odd(b1), Odd(b))
  }

  function ToByte(p: Psw): byte {
    0x80 * Flag(p.cy) + 0x40 * Flag(p.ac) + 0x20 * Flag(p.f0) + 0x10 * Flag(p.rs1) + 8 * Flag(p.rs0)
    + 4 * Flag(p.ov) + 2 * Flag(p.nu) + Flag(p.p)
  }

  lemma Halves(n: nat)
    ensures n == 2 * Half(n) + Flag(Odd(n))
  {}

  lemma FourFlags(n: nat)
    requires n < 0x10
    ensures n == 8 * Flag(Odd(Half(Half(Half(n))))) + 4 * Flag(Odd(Half(Half(n)))) + 2 * Flag(Odd(Half(n))) + Flag(Odd(n))
  {
    Halves(n);
    Halves(Half(n));
    Halves(Half(Half(n)));
    Halves(Half(Half(Half(n))));
    hide Odd, Half, Flag;
  }

  // Storing the eight flags and loading them again leaves the word as it was...
  lemma PswRoundTrip(b: byte)
    ensures ToByte(FromByte(b)) == b
  {
    var b1 := Half(b);
    var b2 := Half(b1);
    var b3 := Half(b2);
    Halves(b);
    Halves(b1);
    Halves(b2);
    Halves(b3);
    hide Odd, Half, Flag;
    FourFlags(Half(b3));
  }

  lemma HalfOf(a: nat, f: bool)
    ensures Half(2 * a + Flag(f)) == a && Odd(2 * a + Flag(f)) == f
  {}

  // ...and the other way round.
  lemma PswStored(p: Psw)
    ensures FromByte(ToByte(p)) == p
  {
    var n6 := 2 * Flag(p.cy) + Flag(p.ac);
    var n5 := 2 * n6 + Flag(p.f0);
    var n4 := 2 * n5 + Flag(p.rs1);
    var n3 := 2 * n4 + Flag(p.rs0);
    var n2 := 2 * n3 + Flag(p.ov);
    var n1 := 2 * n2 + Flag(p.nu);
    hide Odd, Half;
    HalfOf(n1, p.p);
    HalfOf(n2, p.nu);
    HalfOf(n3, p.ov);
    HalfOf(n4, p.rs0);
    HalfOf(n5, p.rs1);
    HalfOf(n6, p.f0);
    HalfOf(Flag(p.cy), p.ac);
    HalfOf(0, p.cy);
    assert ToByte(p) == 2 * n1 + Flag(p.p);
    hide ToByte;
  }

  // The base address of the selected register bank.
  function Bank(p: Psw): (b: byte)
    ensures b < 0x20
  {
    0x10 * Flag(p.rs1) + 8 * Flag(p.rs0)
  }

  // ---------- instructions ----------

  // An operand: the accumulator, a constant, the byte at an address, or the byte at the address that
  // is found at an address.
  datatype Operand = Acc | Const(v: byte) | At(a: byte) | Through(a: byte)

  datatype Condition = Always | IfCarry | IfNoCarry | IfNotZero | IfZero

  datatype Instr =
    | Add(src: Operand, withCarry: bool)
    | Subb(src: Operand)
    | Mul
    | Div
    | Da
    | Move(dst: Operand, src: Operand)
    | Cjne(left: Operand, right: byte, rel: byte)          // left against a constant
    | CjneAcc(a: byte, rel: byte)                          // the accumulator against the byte at a
    | Djnz(a: byte, rel: byte)
    | Branch(when: Condition, rel: byte)
    | Ajmp(page: byte, low: byte)
    | Ljmp(target: word)
    | Acall(page: byte, low: byte)
    | Lcall(target: word)
    | Ret
    | Push(a: byte)
    | Pop(a: byte)
    | Xch(with: Operand)
    | Nop

  // An instruction and its number of bytes.
  datatype Coded = Coded(i: Instr, bytes: nat)

  datatype Option<T> = None | Some(value: T)

  // The instruction with opcode op followed by b2 and b3, with register bank base bank, row and column
  // of the opcode map; None for opcodes outside this model.
  function Decode(op: byte, b2: byte, b3: byte, bank: byte): Option<Coded>
    requires bank < 0x20
  {
    var row, column := op / 0x10, op % 0x10;
    if column == 1 then
      Some(Coded(if row % 2 == 1 then Acall(row / 2, b2) else Ajmp(row / 2, b2), 2))
    else if column >= 8 then OnRegister(row, bank + column - 8, b2, b3)
    else if column >= 6 then OnIndirect(row, Through(bank + column - 6), b2, b3)
    else if column == 5 then OnDirect(row, b2, b3)
    else if column == 4 then OnConstant(row, b2, b3)
    else Others(op, b2, b3)
  }

  // Columns 8 to F: a register, found at address r.
  function OnRegister(row: byte, r: byte, b2: byte, b3: byte): Option<Coded> {
    if row == 2 then Some(Coded(Add(At(r), false), 1))
    else if row == 3 then Some(Coded(Add(At(r), true), 1))
    else if row == 7 then Some(Coded(Move(At(r), Const(b2)), 2))
    else if row == 8 then Some(Coded(Move(At(b2), At(r)), 2))
    else if row == 9 then Some(Coded(Subb(At(r)), 1))
    else if row == 0xA then Some(Coded(Move(At(r), At(b2)), 2))
    else if row == 0xB then Some(Coded(Cjne(At(r), b2, b3), 3))
    else if row == 0xC then Some(Coded(Xch(At(r)), 1))
    else if row == 0xD then Some(Coded(Djnz(r, b2), 2))
    else if row == 0xE then Some(Coded(Move(Acc, At(r)), 1))
    else if row == 0xF then Some(Coded(Move(At(r), Acc), 1))
    else None
  }

  // Columns 6 and 7: through a register.
  function OnIndirect(row: byte, ri: Operand, b2: byte, b3: byte): Option<Coded> {
    if row == 2 then Some(Coded(Add(ri, false), 1))
    else if row == 3 then Some(Coded(Add(ri, true), 1))
    else if row == 8 then Some(Coded(Move(At(b2), ri), 2))
    else if row == 9 then Some(Coded(Subb(ri), 1))
    else if row == 0xB then Some(Coded(Cjne(ri, b2, b3), 3))
    else if row == 0xC then Some(Coded(Xch(ri), 1))
    else if row == 0xE then Some(Coded(Move(Acc, ri), 1))
    else if row == 0xF then Some(Coded(Move(ri, Acc), 1))
    else None
  }

  // Column 5: a direct address.
  function OnDirect(row: byte, b2: byte, b3: byte): Option<Coded> {
    if row == 2 then Some(Coded(Add(At(b2), false), 2))
    else if row == 3 then Some(Coded(Add(At(b2), true), 2))
    else if row == 7 then Some(Coded(Move(At(b2), Const(b3)), 3))
    else if row == 8 then Some(Coded(Move(At(b3), At(b2)), 3))
    else if row == 9 then Some(Coded(Subb(At(b2)), 2))
    else if row == 0xB then Some(Coded(CjneAcc(b2, b3), 3))
    else if row == 0xC then Some(Coded(Xch(At(b2)), 2))
    else if row == 0xD then Some(Coded(Djnz(b2, b3), 3))
    else if row == 0xE then Some(Coded(Move(Acc, At(b2)), 2))
    else if row == 0xF then Some(Coded(Move(At(b2), Acc), 2))
    else None
  }

  // Column 4: mostly a constant.
  function OnConstant(row: byte, b2: byte, b3: byte): Option<Coded> {
    if row == 2 then Some(Coded(Add(Const(b2), false), 2))
    else if row == 3 then Some(Coded(Add(Const(b2), true), 2))
    else if row == 7 then Some(Coded(Move(Acc, Const(b2)), 2))
    else if row == 8 then Some(Coded(Div, 1))
    else if row == 9 then Some(Coded(Subb(Const(b2)), 2))
    else if row == 0xA then Some(Coded(Mul, 1))
    else if row == 0xB then Some(Coded(Cjne(Acc, b2, b3), 3))
    else if row == 0xD then Some(Coded(Da, 1))
    else None
  }

  function Others(op: byte, b2: byte, b3: byte): Option<Coded> {
    if op == 0x00 then Some(Coded(Nop, 1))
    else if op == 0x02 then Some(Coded(Ljmp(Join(b2, b3)), 3))
    else if op == 0x12 then Some(Coded(Lcall(Join(b2, b3)), 3))
    else if op == 0x22 then Some(Coded(Ret, 1))
    else if op == 0x40 then Some(Coded(Branch(IfCarry, b2), 2))
    else if op == 0x50 then Some(Coded(Branch(IfNoCarry, b2), 2))
    else if op == 0x60 then Some(Coded(Branch(IfZero, b2), 2))
    else if op == 0x70 then Some(Coded(Branch(IfNotZero, b2), 2))
    else if op == 0x80 then Some(Coded(Branch(Always, b2), 2))
    else if op == 0xC0 then Some(Coded(Push(b2), 2))
    else if op == 0xD0 then Some(Coded(Pop(b2), 2))
    else None
  }

  // ---------- execution ----------

  function Address(o: Operand, m: Ram, pins: Pins): byte {
    match o
    case Acc => R_ACC
    case Const(_) => 0
    case At(a) => a
    case Through(a) => GetByte(m, pins, a)
  }

  function Value(o: Operand, m: Ram, pins: Pins): byte {
    if o.Const? then o.v else GetByte(m, pins, Address(o, m, pins))
  }

  function GetAcc(m: Ram): byte {
    m.sfr.acc
  }

  function GetPsw(m: Ram): Psw {
    FromByte(m.sfr.psw)
  }

  function SetPsw(m: Ram, p: Psw): Ram {
    SetByte(m, R_PSW, ToByte(p))
  }

  // acc <- acc + v + c with the flags of the addition.
  function AddTo(m: Ram, v: byte, c: bool): Ram {
    var acc := GetAcc(m);
    var sum := acc + v + Flag(c);
    SetPsw(SetByte(m, R_ACC, Byte(sum)),
           GetPsw(m).(cy := sum >= 0x100, ac := acc % 0x10 + v % 0x10 + Flag(c) >= 0x10,
                      ov := !(-0x80 <= Signed(acc) + Signed(v) + Flag(c) < 0x80)))
  }

  // acc <- acc - v - cy with the flags of the subtraction.
  function SubtractFrom(m: Ram, v: byte): Ram {
    var acc, c := GetAcc(m), Flag(GetPsw(m).cy);
    SetPsw(SetByte(m, R_ACC, Byte(acc - v - c)),
           GetPsw(m).(cy := acc < v + c, ac := acc % 0x10 < v % 0x10 + c,
                      ov := !(-0x80 <= Signed(acc) - Signed(v) - c < 0x80)))
  }

  // acc and b take the two bytes of a result.
  function SetPair(m: Ram, low: byte, high: byte, ov: bool): Ram {
    SetPsw(SetByte(SetByte(m, R_ACC, low), R_B, high), GetPsw(m).(ov := ov))
  }

  predicate Holds(when: Condition, m: Ram) {
    match when
    case Always => true
    case IfCarry => GetPsw(m).cy
    case IfNoCarry => !GetPsw(m).cy
    case IfNotZero => GetAcc(m) != 0
    case IfZero => GetAcc(m) == 0
  }

  function Compare(a: Arch, left: byte, right: byte, rel: byte): Arch {
    Arch(if left != right then PcSAdd(a.pc, rel) else a.pc, SetPsw(a.ram, GetPsw(a.ram).(cy := left < right)))
  }

  // The program counter within its 2 KB page.
  function InPage(pc: word, page: byte, low: byte): word {
    pc / 0x800 * 0x800 + page % 8 * 0x100 + low
  }

  // Both bytes of the return address are stored above the old stack pointer, which then moves.
  function Call(a: Arch, target: word): Arch {
    var sp := a.ram.sfr.sp;
    var m := SetByte(a.ram, Byte(sp + 1), Lo(a.pc));
    Arch(target, SetByte(SetByte(m, Byte(sp + 2), Hi(a.pc)), R_SP, Byte(sp + 2)))
  }

  // Both bytes are read under the old stack pointer.
  function Return(a: Arch, pins: Pins): Arch {
    var sp := a.ram.sfr.sp;
    Arch(Join(GetByte(a.ram, pins, sp), GetByte(a.ram, pins, Byte(sp - 1))),
         SetByte(a.ram, R_SP, Byte(sp - 2)))
  }

  // v is stored above the stack pointer, which then moves.
  function Pushed(m: Ram, v: byte): Ram {
    var sp := Byte(m.sfr.sp + 1);
    SetByte(SetByte(m, sp, v), R_SP, sp)
  }

  // The stack pointer moves, then what it pointed to is stored.
  function Popped(m: Ram, at: byte, pins: Pins): Ram {
    SetByte(SetByte(m, R_SP, Byte(m.sfr.sp - 1)), at, GetByte(m, pins, m.sfr.sp))
  }

  // acc <-> (at)
  function Exchanged(m: Ram, at: byte, pins: Pins): Ram {
    SetByte(SetByte(m, at, GetAcc(m)), R_ACC, GetByte(m, pins, at))
  }

  // acc and b take the product with v, or quotient and remainder; on a division by zero, anything.
  function ProductRam(m: Ram, v: byte, quotient: bool, any: word): Ram {
    var acc := GetAcc(m);
    if !quotient then SetPair(m, Lo(DoMul(acc, v)), Hi(DoMul(acc, v)), DoMul(acc, v) > 0xFF)
    else if v == 0 then SetPair(m, Lo(any), Hi(any), true)
    else SetPair(m, acc / v, acc % v, false)
  }

  function DecimalRam(m: Ram): Ram {
    var d := DoDa(GetAcc(m), GetPsw(m).cy, GetPsw(m).ac);
    SetPsw(SetByte(m, R_ACC, d.r), GetPsw(m).(cy := d.cy))
  }

  // One instruction, the program counter already past it. What it leaves on a division by zero is any.
  function Exec(i: Instr, a: Arch, pins: Pins, any: word): Arch {
    var m := a.ram;
    var acc := GetAcc(m);
    match i
    case Add(src, withCarry) => a.(ram := AddTo(m, Value(src, m, pins), withCarry && GetPsw(m).cy))
    case Subb(src) => a.(ram := SubtractFrom(m, Value(src, m, pins)))
    case Mul => a.(ram := ProductRam(m, m.sfr.b, false, any))
    case Div => a.(ram := ProductRam(m, m.sfr.b, true, any))
    case Da => a.(ram := DecimalRam(m))
    case Move(dst, src) => a.(ram := SetByte(m, Address(dst, m, pins), Value(src, m, pins)))
    case Cjne(left, right, rel) => Compare(a, Value(left, m, pins), right, rel)
    case CjneAcc(at, rel) => Compare(a, acc, GetByte(m, pins, at), rel)
    case Djnz(at, rel) =>
      var v := Byte(GetByte(m, pins, at) - 1);
      Arch(if v != 0 then PcSAdd(a.pc, rel) else a.pc, SetByte(m, at, v))
    case Branch(when, rel) => a.(pc := if Holds(when, m) then PcSAdd(a.pc, rel) else a.pc)
    case Ajmp(page, low) => a.(pc := InPage(a.pc, page, low))
    case Ljmp(target) => a.(pc := target)
    case Acall(page, low) => Call(a, InPage(a.pc, page, low))
    case Lcall(target) => Call(a, target)
    case Ret => Return(a, pins)
    case Push(at) => a.(ram := Pushed(m, GetByte(m, pins, at)))
    case Pop(at) => a.(ram := Popped(m, at, pins))
    case Xch(o) => a.(ram := Exchanged(m, Address(o, m, pins), pins))
    case Nop => a
  }

  // The instruction at the program counter; the two bytes after it wrap around with the counter.
  function Fetched(rom: Rom, a: Arch): Option<Coded> {
    Decode(RomAt(rom, a.pc), RomAt(rom, PcUAdd(a.pc, 1)), RomAt(rom, PcUAdd(a.pc, 2)), Bank(GetPsw(a.ram)))
  }

  // One instruction of a program.
  function Step(rom: Rom, a: Arch, pins: Pins, any: word): Arch
    requires Fetched(rom, a).Some?
  {
    var c := Fetched(rom, a).value;
    Exec(c.i, a.(pc := PcUAdd(a.pc, c.bytes)), pins, any)
  }
}
