// What the instructions leave in memory and in the program counter, as numbers, and where they find their
// registers and bytes: nothing here is said through the product, adjustment, offset, page, bank and
// status word functions that the instruction level shares with the controller.
module Mcs51Results {
  import opened Mcs51Alu
  import opened Mcs51Ram
  import opened Mcs51Isa
  import opened Mcs51Controller

  // ---------- the status word ----------

  predicate Bit7(b: byte) { b >= 0x80 }
  predicate Bit6(b: byte) { b / 0x40 % 2 == 1 }
  predicate Bit2(b: byte) { b / 4 % 2 == 1 }

  // Bits 5 to 3, and 1 and 0: what no arithmetic changes.
  predicate SameOthers(b: byte, d: byte) {
    b / 8 % 8 == d / 8 % 8 && b % 4 == d % 4
  }

  // A byte by its bits and the groups of bits between them.
  lemma Bits(b: byte, b7: nat, b6: nat, mid: nat, b2: nat, low: nat)
    requires b7 < 2 && b6 < 2 && mid < 8 && b2 < 2 && low < 4
    requires b == 0x80 * b7 + 0x40 * b6 + 8 * mid + 4 * b2 + low
    ensures Bit7(b) <==> b7 == 1
    ensures Bit6(b) <==> b6 == 1
    ensures Bit2(b) <==> b2 == 1
    ensures b / 8 % 8 == mid && b % 4 == low
  {
    assert b / 0x40 == 2 * b7 + b6;
    assert b / 8 == 0x10 * b7 + 8 * b6 + mid;
    assert b / 4 == 0x20 * b7 + 0x10 * b6 + 2 * mid + b2;
  }

  function Middle(p: Psw): nat {
    4 * Flag(p.f0) + 2 * Flag(p.rs1) + Flag(p.rs0)
  }

  function Lowest(p: Psw): nat {
    2 * Flag(p.nu) + Flag(p.p)
  }

  lemma StoredBits(p: Psw)
    ensures var w := ToByte(p);
      && (Bit7(w) <==> p.cy) && (Bit6(w) <==> p.ac) && (Bit2(w) <==> p.ov)
      && w / 8 % 8 == Middle(p) && w % 4 == Lowest(p)
  {
    Bits(ToByte(p), Flag(p.cy), Flag(p.ac), Middle(p), Flag(p.ov), Lowest(p));
    hide Bit7, Bit6, Bit2;
  }

  // Bits 7, 6 and 2 are the flags, and the others are those of d.
  predicate Status(w: byte, d: byte, cy: bool, ac: bool, ov: bool) {
    SameOthers(w, d) && (Bit7(w) <==> cy) && (Bit6(w) <==> ac) && (Bit2(w) <==> ov)
  }

  // The flags of a status word, and the word with these three in the place of its own.
  lemma StoredFlags(b: byte, cy: bool, ac: bool, ov: bool)
    ensures Status(ToByte(FromByte(b).(cy := cy, ac := ac, ov := ov)), b, cy, ac, ov)
    ensures Status(b, b, FromByte(b).cy, FromByte(b).ac, FromByte(b).ov)
  {
    var p := FromByte(b);
    PswRoundTrip(b);
    hide FromByte, ToByte, Bit7, Bit6, Bit2;
    StoredBits(p);
    StoredBits(p.(cy := cy, ac := ac, ov := ov));
  }

  // Accumulator and status word after an operation.
  lemma AccAndPsw(m: Ram, v: byte, p: Psw)
    ensures SetPsw(SetByte(m, R_ACC, v), p) == m.(sfr := m.sfr.(acc := v, psw := ToByte(p)))
    ensures SetPsw(m, p) == m.(sfr := m.sfr.(psw := ToByte(p)))
  {
    hide ToByte;
  }

  // An instruction that changes the accumulator, the status word and possibly register B.
  predicate Computes(a: Arch, r: Arch) {
    r.pc == a.pc && r.ram == a.ram.(sfr := a.ram.sfr.(acc := r.ram.sfr.acc, b := r.ram.sfr.b, psw := r.ram.sfr.psw))
  }

  // ---------- arithmetic ----------

  // Storing a byte in the accumulator and three flags in the status word.
  lemma StoresBoth(a: Arch, v: byte, cy: bool, ac: bool, ov: bool)
    ensures var r := a.(ram := SetPsw(SetByte(a.ram, R_ACC, v), GetPsw(a.ram).(cy := cy, ac := ac, ov := ov)));
      && Computes(a, r) && r.ram.sfr.b == a.ram.sfr.b && r.ram.sfr.acc == v
      && Status(r.ram.sfr.psw, a.ram.sfr.psw, cy, ac, ov)
    ensures Status(a.ram.sfr.psw, a.ram.sfr.psw, GetPsw(a.ram).cy, GetPsw(a.ram).ac, GetPsw(a.ram).ov)
  {
    StoredFlags(a.ram.sfr.psw, cy, ac, ov);
    AccAndPsw(a.ram, v, GetPsw(a.ram).(cy := cy, ac := ac, ov := ov));
    hide Status, FromByte, ToByte, SetByte, SetPsw;
  }

  lemma SumByte(sum: nat)
    requires sum < 0x200
    ensures (if sum >= 0x100 then 0x100 else 0) + Byte(sum) == sum
  {}

  lemma DifferenceByte(d: int)
    requires -0x100 <= d < 0x100
    ensures Byte(d) - (if d < 0 then 0x100 else 0) == d
  {}

  // ADD and ADDC: the accumulator and the carry are the sum; the auxiliary carry is that of the lower
  // digits, and the overflow says that the sum of the signed numbers is none of eight bits.
  lemma AddResult(a: Arch, src: Operand, withCarry: bool, pins: Pins, any: word)
    ensures var r, v := Exec(Add(src, withCarry), a, pins, any), Value(src, a.ram, pins);
      var acc, psw := a.ram.sfr.acc, a.ram.sfr.psw;
      var c := if withCarry && Bit7(psw) then 1 else 0;
      var acc', psw' := r.ram.sfr.acc, r.ram.sfr.psw;
      && Computes(a, r) && r.ram.sfr.b == a.ram.sfr.b && SameOthers(psw', psw)
      && (if Bit7(psw') then 0x100 else 0) + acc' == acc + v + c
      && (Bit6(psw') <==> acc % 0x10 + v % 0x10 + c > 0xF)
      && (Bit2(psw') <==> !(-0x80 <= Signed(acc) + Signed(v) + c <= 0x7F))
  {
    hide GetPsw, Value, Signed, Byte, SetByte, SetPsw, Bit7, Bit6, Bit2, SameOthers, Computes;
    var m := a.ram;
    var v: int, acc: int := Value(src, m, pins), GetAcc(m);
    var c := Flag(withCarry && GetPsw(m).cy);
    StoresBoth(a, Byte(acc + v + c), acc + v + c >= 0x100, acc % 0x10 + v % 0x10 + c >= 0x10,
               !(-0x80 <= Signed(GetAcc(m)) + Signed(Value(src, m, pins)) + c < 0x80));
    SumByte(acc + v + c);
  }

  // SUBB: the same for the difference, with borrows.
  lemma SubbResult(a: Arch, src: Operand, pins: Pins, any: word)
    ensures var r, v := Exec(Subb(src), a, pins, any), Value(src, a.ram, pins);
      var acc, psw := a.ram.sfr.acc, a.ram.sfr.psw;
      var c := if Bit7(psw) then 1 else 0;
      var acc', psw' := r.ram.sfr.acc, r.ram.sfr.psw;
      && Computes(a, r) && r.ram.sfr.b == a.ram.sfr.b && SameOthers(psw', psw)
      && acc' - (if Bit7(psw') then 0x100 else 0) == acc - v - c
      && (Bit6(psw') <==> acc % 0x10 < v % 0x10 + c)
      && (Bit2(psw') <==> !(-0x80 <= Signed(acc) - Signed(v) - c <= 0x7F))
  {
    hide GetPsw, Value, Signed, Byte, SetByte, SetPsw, Bit7, Bit6, Bit2, SameOthers, Computes;
    var m := a.ram;
    var v: int, acc: int := Value(src, m, pins), GetAcc(m);
    var c := Flag(GetPsw(m).cy);
    StoresBoth(a, Byte(acc - v - c), acc < v + c, acc % 0x10 < v % 0x10 + c,
               !(-0x80 <= Signed(GetAcc(m)) - Signed(Value(src, m, pins)) - c < 0x80));
    DifferenceByte(acc - v - c);
  }

  lemma ProductBytes(a: byte, b: byte)
    ensures 0x100 * Hi(DoMul(a, b)) + Lo(DoMul(a, b)) == a * b == DoMul(a, b)
  {}

  // MUL: register B and the accumulator together are the product, and the overflow says that it needs both.
  lemma MulResult(a: Arch, pins: Pins, any: word)
    ensures var r := Exec(Mul, a, pins, any);
      var psw, psw' := a.ram.sfr.psw, r.ram.sfr.psw;
      && Computes(a, r) && SameOthers(psw', psw)
      && 0x100 * r.ram.sfr.b + r.ram.sfr.acc == a.ram.sfr.acc * a.ram.sfr.b
      && (Bit2(psw') <==> a.ram.sfr.acc * a.ram.sfr.b > 0xFF)
      && (Bit7(psw') <==> Bit7(psw)) && (Bit6(psw') <==> Bit6(psw))
  {
    var acc, b, p := a.ram.sfr.acc, a.ram.sfr.b, GetPsw(a.ram);
    ProductBytes(acc, b);
    var product := DoMul(acc, b);
    StoredFlags(a.ram.sfr.psw, p.cy, p.ac, product > 0xFF);
    assert p.(ov := product > 0xFF) == p.(cy := p.cy, ac := p.ac, ov := product > 0xFF);
    hide FromByte, ToByte, DoMul, Hi, Lo, Bit7, Bit6, Bit2, SameOthers;
  }

  // DIV: quotient and remainder, and the overflow says that there are none.
  lemma DivResult(a: Arch, pins: Pins, any: word)
    ensures var r := Exec(Instr.Div, a, pins, any);
      var psw, psw' := a.ram.sfr.psw, r.ram.sfr.psw;
      && Computes(a, r) && SameOthers(psw', psw)
      && (a.ram.sfr.b != 0 ==> r.ram.sfr.acc == a.ram.sfr.acc / a.ram.sfr.b && r.ram.sfr.b == a.ram.sfr.acc % a.ram.sfr.b)
      && (Bit2(psw') <==> a.ram.sfr.b == 0)
      && (Bit7(psw') <==> Bit7(psw)) && (Bit6(psw') <==> Bit6(psw))
  {
    var acc, b, p := a.ram.sfr.acc, a.ram.sfr.b, GetPsw(a.ram);
    StoredFlags(a.ram.sfr.psw, p.cy, p.ac, b == 0);
    assert p.(ov := b == 0) == p.(cy := p.cy, ac := p.ac, ov := b == 0);
    hide FromByte, ToByte, Hi, Lo, Bit7, Bit6, Bit2, SameOthers;
  }

  lemma Adjusts(a: byte, cy: bool, ac: bool)
    ensures var d := DoDa(a, cy, ac);
      var low := if ac || a % 0x10 > 9 then a + 6 else a;
      var nine := if cy && low < 0x100 then low + 0x100 else low;
      (if d.cy then 0x100 else 0) + d.r
      == (if nine < 0x100 then nine else if nine < 0x1A0 then nine + 0x60 else nine - 0x1A0)
  {
    NineBits(AdjustHigh(AdjustLow(a, cy, ac)));
  }

  // DA on any accumulator and flags: six is added for a lower digit above nine or an auxiliary carry.
  // If that or the old carry reaches bit 8, sixty (hexadecimal) is added too, and what passes bit 8 is lost.
  lemma DaResult(a: Arch, pins: Pins, any: word)
    ensures var r := Exec(Da, a, pins, any);
      var acc, psw := a.ram.sfr.acc, a.ram.sfr.psw;
      var acc', psw' := r.ram.sfr.acc, r.ram.sfr.psw;
      var low := if Bit6(psw) || acc % 0x10 > 9 then acc + 6 else acc;
      var nine := if Bit7(psw) && low < 0x100 then low + 0x100 else low;
      && Computes(a, r) && r.ram.sfr.b == a.ram.sfr.b && SameOthers(psw', psw)
      && (Bit6(psw') <==> Bit6(psw)) && (Bit2(psw') <==> Bit2(psw))
      && (if Bit7(psw') then 0x100 else 0) + acc'
         == (if nine < 0x100 then nine else if nine < 0x1A0 then nine + 0x60 else nine - 0x1A0)
  {
    var acc, p := a.ram.sfr.acc, GetPsw(a.ram);
    var d := DoDa(acc, p.cy, p.ac);
    StoredFlags(a.ram.sfr.psw, d.cy, p.ac, p.ov);
    assert p.(cy := d.cy) == p.(cy := d.cy, ac := p.ac, ov := p.ov);
    AccAndPsw(a.ram, d.r, p.(cy := d.cy));
    Adjusts(acc, p.cy, p.ac);
    hide FromByte, ToByte, DoDa, SetByte, SetPsw, Bit7, Bit6, Bit2, SameOthers;
  }

  // ---------- jumps ----------

  // target is pc moved by a byte in two's complement, modulo 2^16.
  predicate Moved(pc: word, rel: byte, target: word) {
    if rel < 0x80 then target == (pc + rel) % 0x10000 else (target + (0x100 - rel)) % 0x10000 == pc
  }

  lemma OffsetMoves(pc: word, rel: byte)
    ensures Moved(pc, rel, PcSAdd(pc, rel))
  {}

  // JC, JNC, JZ, JNZ and SJMP.
  lemma BranchResult(a: Arch, when: Condition, rel: byte, pins: Pins, any: word)
    ensures var r := Exec(Branch(when, rel), a, pins, any);
      var taken := match when
        case Always => true
        case IfCarry => Bit7(a.ram.sfr.psw)
        case IfNoCarry => !Bit7(a.ram.sfr.psw)
        case IfNotZero => a.ram.sfr.acc != 0
        case IfZero => a.ram.sfr.acc == 0;
      r.ram == a.ram && (if taken then Moved(a.pc, rel, r.pc) else r.pc == a.pc)
  {
    OffsetMoves(a.pc, rel);
    StoredFlags(a.ram.sfr.psw, false, false, false);
    hide FromByte, ToByte, PcSAdd, Moved, Bit7, SameOthers;
  }

  // CJNE: a jump where the two differ, and the carry where the left one is smaller.
  predicate Compared(a: Arch, r: Arch, left: byte, right: byte, rel: byte) {
    && (if left != right then Moved(a.pc, rel, r.pc) else r.pc == a.pc)
    && (Bit7(r.ram.sfr.psw) <==> left < right) && SameOthers(r.ram.sfr.psw, a.ram.sfr.psw)
    && (Bit6(r.ram.sfr.psw) <==> Bit6(a.ram.sfr.psw)) && (Bit2(r.ram.sfr.psw) <==> Bit2(a.ram.sfr.psw))
    && r.ram == a.ram.(sfr := a.ram.sfr.(psw := r.ram.sfr.psw))
  }

  lemma CompareResult(a: Arch, left: byte, right: byte, rel: byte)
    ensures Compared(a, Compare(a, left, right, rel), left, right, rel)
  {
    var p := GetPsw(a.ram);
    StoredFlags(a.ram.sfr.psw, left < right, p.ac, p.ov);
    assert p.(cy := left < right) == p.(cy := left < right, ac := p.ac, ov := p.ov);
    AccAndPsw(a.ram, 0, p.(cy := left < right));
    OffsetMoves(a.pc, rel);
    hide FromByte, ToByte, SetByte, SetPsw, PcSAdd, Moved, Bit7, Bit6, Bit2, SameOthers;
  }

  lemma CjneResult(a: Arch, left: Operand, at: byte, right: byte, rel: byte, pins: Pins, any: word)
    ensures Compared(a, Exec(Cjne(left, right, rel), a, pins, any), Value(left, a.ram, pins), right, rel)
    ensures Compared(a, Exec(CjneAcc(at, rel), a, pins, any), a.ram.sfr.acc, GetByte(a.ram, pins, at), rel)
  {
    CompareResult(a, Value(left, a.ram, pins), right, rel);
    CompareResult(a, a.ram.sfr.acc, GetByte(a.ram, pins, at), rel);
    hide Compare, Compared, Value, GetByte;
  }

  // DJNZ: one less, round to FF, and a jump unless that is zero.
  lemma DjnzResult(a: Arch, at: byte, rel: byte, pins: Pins, any: word)
    ensures var r, v := Exec(Djnz(at, rel), a, pins, any), GetByte(a.ram, pins, at);
      && r.ram == SetByte(a.ram, at, if v == 0 then 0xFF else v - 1)
      && (if v != 1 then Moved(a.pc, rel, r.pc) else r.pc == a.pc)
  {
    OffsetMoves(a.pc, rel);
    hide SetByte, GetByte, PcSAdd, Moved;
  }

  // AJMP and ACALL keep the upper five bits of the program counter and take the lower eleven.
  lemma PageResult(a: Arch, page: byte, low: byte, pins: Pins, any: word)
    requires page < 8
    ensures var j, c := Exec(Ajmp(page, low), a, pins, any), Exec(Acall(page, low), a, pins, any);
      && j.pc / 0x800 == a.pc / 0x800 && j.pc % 0x800 == 0x100 * page + low && j.ram == a.ram
      && c.pc == j.pc
  {
    var d: nat := page % 8 * 0x100 + low;
    assert d < 0x800;
    hide SetByte;
  }

  // ---------- registers and instruction bytes ----------

  // Bits 4 and 3 of the status word, 2 * rs1 + rs0, select the bank.
  lemma BankSelected(psw: byte)
    ensures Bank(FromByte(psw)) == 8 * (psw / 8 % 4)
  {
    var p := FromByte(psw);
    PswRoundTrip(psw);
    StoredBits(p);
    hide FromByte, ToByte, Bit7, Bit6, Bit2;
    assert psw / 8 % 8 == Middle(p);
    assert psw / 8 % 4 == 2 * Flag(p.rs1) + Flag(p.rs0);
  }

  lemma Column(row: nat, column: nat)
    requires row < 0x10 && column < 0x10
    ensures (0x10 * row + column) / 0x10 == row && (0x10 * row + column) % 0x10 == column
    ensures (0x10 * row + column) % 8 == column % 8 && (0x10 * row + column) % 2 == column % 2
  {}

  lemma DecodesColumn(op: byte, b2: byte, b3: byte, bank: byte)
    requires bank < 0x20
    ensures op % 0x10 >= 8 ==> Decode(op, b2, b3, bank) == OnRegister(op / 0x10, bank + op % 0x10 - 8, b2, b3)
    ensures 6 <= op % 0x10 < 8 ==> Decode(op, b2, b3, bank) == OnIndirect(op / 0x10, Through(bank + op % 0x10 - 6), b2, b3)
  {
    hide OnRegister, OnIndirect, OnDirect, OnConstant, Others;
  }

  // Opcodes with n in the lower three bits of an upper column work on register n of the bank. The
  // controller finds it at the same address.
  lemma RegisterAddress(m: Ram, row: nat, n: nat, b2: byte, b3: byte, k: Ctl)
    requires row < 0x10 && n < 8 && k.op1 == 0x10 * row + 8 + n && k.psw == FromByte(m.sfr.psw)
    ensures var r := 8 * (m.sfr.psw / 8 % 4) + n;
      Decode(k.op1, b2, b3, Bank(GetPsw(m))) == OnRegister(row, r, b2, b3) && Addr1(k) == r
  {
    hide FromByte, Bank, OnRegister, Decode;
    BankSelected(m.sfr.psw);
    Column(row, 8 + n);
    DecodesColumn(k.op1, b2, b3, Bank(GetPsw(m)));
  }

  // And those with 6 or 7 there through register 0 or 1.
  lemma ThroughAddress(m: Ram, row: nat, n: nat, b2: byte, b3: byte, k: Ctl)
    requires row < 0x10 && n < 2 && k.op1 == 0x10 * row + 6 + n && k.psw == FromByte(m.sfr.psw)
    ensures var r := 8 * (m.sfr.psw / 8 % 4) + n;
      Decode(k.op1, b2, b3, Bank(GetPsw(m))) == OnIndirect(row, Through(r), b2, b3) && Addr2(k) == r
  {
    hide FromByte, Bank, OnIndirect, Decode;
    BankSelected(m.sfr.psw);
    Column(row, 6 + n);
    DecodesColumn(k.op1, b2, b3, Bank(GetPsw(m)));
  }

  lemma CellAccess(m: Ram, pins: Pins, a: byte, v: byte)
    requires a < 0x80
    ensures GetByte(m, pins, a) == m.iram[a] && SetByte(m, a, v) == m.(iram := m.iram[a := v])
  {}

  lemma AccAccess(m: Ram, pins: Pins, v: byte)
    ensures GetByte(m, pins, R_ACC) == m.sfr.acc && SetByte(m, R_ACC, v) == m.(sfr := m.sfr.(acc := v))
  {}

  lemma MovesOfRegister(r: byte, b2: byte, b3: byte)
    ensures OnRegister(0xE, r, b2, b3) == Some(Coded(Move(Acc, At(r)), 1))
    ensures OnRegister(0xF, r, b2, b3) == Some(Coded(Move(At(r), Acc), 1))
  {}

  // Where the registers are.
  lemma RegisterMap(m: Ram, pins: Pins)
    ensures GetByte(m, pins, 0xF0) == m.sfr.b && GetByte(m, pins, 0xE0) == m.sfr.acc && GetByte(m, pins, 0xD0) == m.sfr.psw
    ensures GetByte(m, pins, 0x81) == m.sfr.sp && GetByte(m, pins, 0x82) == m.sfr.dpl && GetByte(m, pins, 0x83) == m.sfr.dph
    ensures GetByte(m, pins, 0x80) == pins.p0 && GetByte(m, pins, 0x90) == pins.p1
    ensures GetByte(m, pins, 0xA0) == pins.p2 && GetByte(m, pins, 0xB0) == pins.p3
    ensures GetByte(m, pins, 0xA8) == m.sfr.ie && GetByte(m, pins, 0xB8) == m.sfr.ip && GetByte(m, pins, 0x87) == m.sfr.pcon
    ensures GetByte(m, pins, 0x98) == m.sfr.scon && GetByte(m, pins, 0x99) == m.sfr.sbuf && GetByte(m, pins, 0x88) == m.sfr.tcon
    ensures GetByte(m, pins, 0x89) == m.sfr.tmod && GetByte(m, pins, 0x8A) == m.sfr.tl0 && GetByte(m, pins, 0x8B) == m.sfr.tl1
    ensures GetByte(m, pins, 0x8C) == m.sfr.th0 && GetByte(m, pins, 0x8D) == m.sfr.th1
  {}

  // MOV A,Rn and MOV Rn,A: cell 8 * (2 * rs1 + rs0) + n, and no other.
  lemma RegisterMoves(a: Arch, n: nat, b2: byte, b3: byte, pins: Pins, any: word, k: Ctl)
    requires n < 8 && k.psw == FromByte(a.ram.sfr.psw)
    ensures var r := 8 * (a.ram.sfr.psw / 8 % 4) + n;
      var from, to := Decode(0xE8 + n, b2, b3, Bank(GetPsw(a.ram))), Decode(0xF8 + n, b2, b3, Bank(GetPsw(a.ram)));
      && from.Some? && Exec(from.value.i, a, pins, any).ram == a.ram.(sfr := a.ram.sfr.(acc := a.ram.iram[r]))
      && to.Some? && Exec(to.value.i, a, pins, any).ram == a.ram.(iram := a.ram.iram[r := a.ram.sfr.acc])
  {
    hide FromByte, Bank, Decode, OnRegister, GetByte, SetByte, Addr1;
    var r: byte := 8 * (a.ram.sfr.psw / 8 % 4) + n;
    RegisterAddress(a.ram, 0xE, n, b2, b3, k.(op1 := 0xE8 + n));
    RegisterAddress(a.ram, 0xF, n, b2, b3, k.(op1 := 0xF8 + n));
    MovesOfRegister(r, b2, b3);
    CellAccess(a.ram, pins, r, a.ram.sfr.acc);
    AccAccess(a.ram, pins, a.ram.iram[r]);
  }

  // The bytes of an instruction lie one after the other, in the 4 KB that twelve address bits reach, and
  // wrap around with them; a shorter memory repeats itself.
  lemma BytesFetched(rom: Rom, a: Arch)
    ensures Fetched(rom, a)
         == Decode(rom[a.pc % 0x1000 % |rom|], rom[(a.pc + 1) % 0x1000 % |rom|], rom[(a.pc + 2) % 0x1000 % |rom|], Bank(GetPsw(a.ram)))
  {
    hide Decode, Bank, FromByte;
    TwelveBits(a.pc, 1);
    TwelveBits(a.pc, 2);
    hide PcUAdd;
  }

  lemma TwelveBits(pc: word, n: byte)
    ensures PcUAdd(pc, n) % 0x1000 == (pc + n) % 0x1000
  {}

  predicate Transfers(i: Instr) {
    i.Cjne? || i.CjneAcc? || i.Djnz? || i.Branch? || i.Ajmp? || i.Ljmp? || i.Acall? || i.Lcall? || i.Ret?
  }

  lemma ExecKeepsPc(i: Instr, a: Arch, pins: Pins, any: word)
    requires !Transfers(i)
    ensures Exec(i, a, pins, any).pc == a.pc
  {
    hide AddTo, SubtractFrom, ProductRam, DecimalRam, SetByte, GetByte, Pushed, Popped, Exchanged, Value, Address;
  }

  // What is no jump, call or return goes on behind its own bytes, round at the end of the address space.
  lemma GoesOn(rom: Rom, a: Arch, pins: Pins, any: word)
    requires Fetched(rom, a).Some? && !Transfers(Fetched(rom, a).value.i)
    ensures var next, end := Step(rom, a, pins, any).pc, a.pc + Fetched(rom, a).value.bytes;
      1 <= end - a.pc <= 3 && next == (if end <= 0xFFFF then end else end - 0x10000)
  {
    hide Decode, Bank, FromByte, RomAt, Exec, Transfers, PcUAdd;
    LengthOf(RomAt(rom, a.pc), RomAt(rom, PcUAdd(a.pc, 1)), RomAt(rom, PcUAdd(a.pc, 2)), Bank(GetPsw(a.ram)));
    var c := Fetched(rom, a).value;
    ExecKeepsPc(c.i, a.(pc := PcUAdd(a.pc, c.bytes)), pins, any);
    Advanced(a.pc, c.bytes);
  }

  lemma Advanced(pc: word, n: byte)
    ensures PcUAdd(pc, n) == if pc + n <= 0xFFFF then pc + n else pc + n - 0x10000
  {}

  lemma LengthOf(op: byte, b2: byte, b3: byte, bank: byte)
    requires bank < 0x20 && Decode(op, b2, b3, bank).Some?
    ensures 1 <= Decode(op, b2, b3, bank).value.bytes <= 3
  {}

  // LJMP and LCALL take the upper byte first, AJMP and ACALL the upper three bits from the opcode.
  lemma TargetsDecoded(row: nat, b2: byte, b3: byte, bank: byte)
    requires row < 0x10 && bank < 0x20
    ensures Decode(0x02, b2, b3, bank) == Some(Coded(Ljmp(0x100 * b2 + b3), 3))
    ensures Decode(0x12, b2, b3, bank) == Some(Coded(Lcall(0x100 * b2 + b3), 3))
    ensures Decode(0x10 * row + 1, b2, b3, bank)
         == Some(Coded(if row % 2 == 0 then Ajmp(row / 2, b2) else Acall(row / 2, b2), 2))
  {
    Column(row, 1);
  }

  // A call keeps the return address in the two cells above the stack, the lower byte in the lower one...
  lemma CallResult(a: Arch, target: word, pins: Pins, any: word)
    requires a.ram.sfr.sp < 0x7E
    ensures var c, sp := Exec(Lcall(target), a, pins, any), a.ram.sfr.sp;
      && c.pc == target
      && c.ram.iram == a.ram.iram[sp + 1 := a.pc % 0x100][sp + 2 := a.pc / 0x100]
      && c.ram.sfr == a.ram.sfr.(sp := sp + 2)
  {
    hide SetByte, GetByte, Byte, Hi, Lo;
    var sp: int := a.ram.sfr.sp;
    StackBytes(sp);
    Halves16(a.pc);
    var m := a.ram.(iram := a.ram.iram[sp + 1 := Lo(a.pc)]);
    CellAccess(a.ram, pins, sp + 1, Lo(a.pc));
    CellAccess(m, pins, sp + 2, Hi(a.pc));
    StackPointerSet(m.(iram := m.iram[sp + 2 := Hi(a.pc)]), sp + 2);
  }

  lemma Halves16(w: word)
    ensures Hi(w) == w / 0x100 && Lo(w) == w % 0x100
  {}

  lemma StackBytes(sp: int)
    requires 0 <= sp < 0x80
    ensures Byte(sp + 1) == sp + 1 && Byte(sp + 2) == sp + 2
    ensures sp >= 1 ==> Byte(sp - 1) == sp - 1 && Byte(sp - 2) == if sp == 1 then 0xFF else sp - 2
  {}

  lemma StackPointerSet(m: Ram, v: byte)
    ensures SetByte(m, R_SP, v) == m.(sfr := m.sfr.(sp := v))
  {}

  // ...and a return takes it from there.
  lemma ReturnResult(a: Arch, pins: Pins, any: word)
    requires 1 <= a.ram.sfr.sp < 0x80
    ensures var r, sp := Exec(Ret, a, pins, any), a.ram.sfr.sp;
      && r.pc / 0x100 == a.ram.iram[sp] && r.pc % 0x100 == a.ram.iram[sp - 1] && r.ram.iram == a.ram.iram
      && r.ram.sfr == a.ram.sfr.(sp := if sp == 1 then 0xFF else sp - 2)
  {
    hide SetByte, GetByte, Byte, Hi, Lo, Join;
    var sp: int := a.ram.sfr.sp;
    StackBytes(sp);
    CellAccess(a.ram, pins, sp, 0);
    CellAccess(a.ram, pins, sp - 1, 0);
    StackPointerSet(a.ram, if sp == 1 then 0xFF else sp - 2);
    JoinSplits(a.ram.iram[sp], a.ram.iram[sp - 1], 0);
    Halves16(Join(a.ram.iram[sp], a.ram.iram[sp - 1]));
  }

  // PUSH and POP of a cell: the cell above the stack, or the one on top, and the stack pointer by one.
  lemma PushPopResult(a: Arch, at: byte, pins: Pins, any: word)
    requires at < 0x80 && a.ram.sfr.sp < 0x80
    ensures var r, sp := Exec(Push(at), a, pins, any), a.ram.sfr.sp;
      sp < 0x7F ==> r == Arch(a.pc, Ram(a.ram.iram[sp + 1 := a.ram.iram[at]], a.ram.sfr.(sp := sp + 1)))
    ensures var r, sp := Exec(Pop(at), a, pins, any), a.ram.sfr.sp;
      sp > 0 ==> r == Arch(a.pc, Ram(a.ram.iram[at := a.ram.iram[sp]], a.ram.sfr.(sp := sp - 1)))
  {
    hide SetByte, GetByte, Byte;
    var sp: int := a.ram.sfr.sp;
    var m := a.ram;
    StackBytes(sp);
    CellAccess(m, pins, at, 0);
    CellAccess(m, pins, sp, 0);
    if sp < 0x7F {
      CellAccess(m, pins, sp + 1, m.iram[at]);
      StackPointerSet(m.(iram := m.iram[sp + 1 := m.iram[at]]), sp + 1);
    }
    if sp > 0 {
      StackPointerSet(m, sp - 1);
      CellAccess(m.(sfr := m.sfr.(sp := sp - 1)), pins, at, m.iram[sp]);
    }
  }

  // XCH of a cell: the accumulator and the cell change places.
  lemma ExchangeResult(a: Arch, at: byte, pins: Pins, any: word)
    requires at < 0x80
    ensures Exec(Xch(At(at)), a, pins, any)
         == Arch(a.pc, Ram(a.ram.iram[at := a.ram.sfr.acc], a.ram.sfr.(acc := a.ram.iram[at])))
  {
    hide SetByte, GetByte;
    CellAccess(a.ram, pins, at, a.ram.sfr.acc);
    AccAccess(a.ram.(iram := a.ram.iram[at := a.ram.sfr.acc]), pins, a.ram.iram[at]);
  }
}
