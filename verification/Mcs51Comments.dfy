// The transfers as the comments of the controller order them (VLSI2/8051/i8051_ctr.vhd), one after the
// other, against the order in which its code makes them: the instructions that touch the memory more
// than once, and exactly when the two orders come to the same.
module Mcs51Comments {
  import opened Mcs51Alu
  import opened Mcs51Ram
  import opened Mcs51Isa
  import opened Mcs51Stack

  // sp <- sp + 1
  function SpUp(m: Ram): Ram {
    SetByte(m, R_SP, Byte(m.sfr.sp + 1))
  }

  // sp <- sp - 1
  function SpDown(m: Ram): Ram {
    SetByte(m, R_SP, Byte(m.sfr.sp - 1))
  }

  // mem(sp) <- v
  function ToTop(m: Ram, v: byte): Ram {
    SetByte(m, m.sfr.sp, v)
  }

  // sp <- sp + 1; (sp) <- (at)
  function PushedAsCommented(m: Ram, at: byte, pins: Pins): Ram {
    var m1 := SpUp(m);
    ToTop(m1, GetByte(m1, pins, at))
  }

  // (at) <- (sp); sp <- sp - 1
  function PoppedAsCommented(m: Ram, at: byte, pins: Pins): Ram {
    SpDown(SetByte(m, at, GetByte(m, pins, m.sfr.sp)))
  }

  // sp <- sp + 1; mem(sp) <- pc(7-0); sp <- sp + 1; mem(sp) <- pc(15-8); pc <- target
  function CallAsCommented(a: Arch, target: word): Arch {
    var m1 := ToTop(SpUp(a.ram), Lo(a.pc));
    Arch(target, ToTop(SpUp(m1), Hi(a.pc)))
  }

  // pc(15-8) <- (sp); sp <- sp - 1; pc(7-0) <- (sp); sp <- sp - 1
  function ReturnAsCommented(a: Arch, pins: Pins): Arch {
    var m1 := SpDown(a.ram);
    Arch(Join(GetByte(a.ram, pins, a.ram.sfr.sp), GetByte(m1, pins, m1.sfr.sp)), SpDown(m1))
  }

  // (at) <- (at) - 1; if (at) != 0 then pc <- pc + rel
  function CountedAsCommented(a: Arch, at: byte, rel: byte, pins: Pins): Arch {
    var m := SetByte(a.ram, at, Byte(GetByte(a.ram, pins, at) - 1));
    Arch(if GetByte(m, pins, at) != 0 then PcSAdd(a.pc, rel) else a.pc, m)
  }

  lemma CellOfSp(a: byte)
    ensures Cell(a) == Cell(R_SP) <==> a == R_SP
    ensures !IsPort(R_SP)
  {}

  lemma SpRead(m: Ram, pins: Pins)
    ensures GetByte(m, pins, R_SP) == m.sfr.sp
  {}

  // A write elsewhere keeps the stack pointer.
  lemma SpKept(m: Ram, a: byte, v: byte)
    requires a != R_SP
    ensures SetByte(m, a, v).sfr.sp == m.sfr.sp
  {}

  lemma NextByte(n: byte, d: int)
    requires d % 0x100 != 0
    ensures Byte(n + d) != n
  {}

  // ---------- POP ----------

  // The two orders of POP come to the same unless the byte goes to the stack pointer.
  lemma PopExactly(m: Ram, at: byte, pins: Pins)
    ensures Popped(m, at, pins) == PoppedAsCommented(m, at, pins) <==> at != R_SP
  {
    var v: int, sp := GetByte(m, pins, m.sfr.sp), Byte(m.sfr.sp - 1);
    if at != R_SP {
      CellOfSp(at);
      SpKept(m, at, v);
      WritesCommute(m, R_SP, sp, at, v);
    } else {
      SetSp(SetByte(m, R_SP, sp), v);
      SetSp(m, v);
      SetSp(SetByte(m, R_SP, v), Byte(v - 1));
      NextByte(v, -1);
      hide SetByte, GetByte, Byte;
    }
  }

  // ---------- PUSH ----------

  predicate PushAgrees(m: Ram, at: byte, pins: Pins) {
    if at == R_SP then m.sfr.sp == 0x80 else Byte(m.sfr.sp + 1) != R_SP || GetByte(m, pins, at) == R_SP
  }

  lemma PushParts(m: Ram, at: byte, pins: Pins)
    ensures var sp := Byte(m.sfr.sp + 1);
      PushedAsCommented(m, at, pins)
      == SetByte(SetByte(m, R_SP, sp), sp, if at == R_SP then sp else GetByte(m, pins, at))
  {
    var sp := Byte(m.sfr.sp + 1);
    CellOfSp(at);
    ReadAfterWrite(m, pins, R_SP, sp, at);
    SetSp(m, sp);
    hide SetByte, GetByte, Byte, Cell;
  }

  // Writing x at a and then y to the stack pointer, or the other way round.
  lemma SpAndCell(m: Ram, a: byte, x: byte, y: byte)
    ensures SetByte(SetByte(m, a, x), R_SP, y) == SetByte(SetByte(m, R_SP, y), a, x) <==> a != R_SP || x == y
  {
    if a != R_SP {
      CellOfSp(a);
      WritesCommute(m, a, x, R_SP, y);
    } else {
      SetSp(SetByte(m, R_SP, x), y);
      SetSp(SetByte(m, R_SP, y), x);
      SetSp(m, x);
      SetSp(m, y);
      hide SetByte;
    }
  }

  // What a write left: the byte, or the latch of a port.
  function Written(m: Ram, a: byte): byte {
    if a == R_P0 then m.sfr.p0 else if a == R_P1 then m.sfr.p1 else if a == R_P2 then m.sfr.p2
    else if a == R_P3 then m.sfr.p3 else GetByte(m, Pins(0, 0, 0, 0), a)
  }

  lemma WriteIsSeen(m: Ram, a: byte, x: byte)
    ensures Written(SetByte(m, a, x), a) == x
  {
    ReadAfterWrite(m, Pins(0, 0, 0, 0), a, x, a);
  }

  lemma StoredDiffers(m: Ram, a: byte, x: byte, y: byte)
    requires x != y
    ensures SetByte(m, a, x) != SetByte(m, a, y)
  {
    WriteIsSeen(m, a, x);
    WriteIsSeen(m, a, y);
    hide SetByte, Written;
  }

  // PUSH: for the stack pointer itself the stored value differs, but for the address 81 of the stack
  // pointer on top; for any other operand the orders differ where the top is the stack pointer.
  lemma PushExactly(m: Ram, at: byte, pins: Pins)
    ensures Pushed(m, GetByte(m, pins, at)) == PushedAsCommented(m, at, pins) <==> PushAgrees(m, at, pins)
  {
    var sp, v := Byte(m.sfr.sp + 1), GetByte(m, pins, at);
    PushParts(m, at, pins);
    hide PushedAsCommented;
    SpAndCell(m, sp, v, sp);
    if at == R_SP {
      SpRead(m, pins);
      NextByte(m.sfr.sp, 1);
      StoredDiffers(SetByte(m, R_SP, sp), sp, v, sp);
      if sp == R_SP {
        assert m.sfr.sp == 0x80;
        SetSp(SetByte(m, R_SP, v), sp);
        SetSp(SetByte(m, R_SP, sp), sp);
        SetSp(m, v);
        SetSp(m, sp);
      } else {
        assert m.sfr.sp != 0x80;
      }
      hide SetByte, GetByte, Byte;
    }
    hide SetByte, GetByte, Byte;
  }

  // The stack pointer as operand: the code stores its old value and keeps the byte taken off, the
  // comments' order would store the new value and end one below that byte.
  lemma StackPointerAsOperand(m: Ram, pins: Pins)
    ensures var v: int := GetByte(m, pins, m.sfr.sp);
      Popped(m, R_SP, pins).sfr.sp == v && PoppedAsCommented(m, R_SP, pins).sfr.sp == Byte(v - 1)
    ensures m.sfr.sp < 0x7F ==>
      var cell := m.sfr.sp + 1;
      Pushed(m, GetByte(m, pins, R_SP)).iram[cell] == m.sfr.sp && PushedAsCommented(m, R_SP, pins).iram[cell] == cell
  {
    var sp: int, v: int := m.sfr.sp, GetByte(m, pins, m.sfr.sp);
    SetSp(SetByte(m, R_SP, Byte(sp - 1)), v);
    SetSp(m, v);
    SetSp(SetByte(m, R_SP, v), Byte(v - 1));
    if sp < 0x7F {
      InternalSp(sp, 1);
      SpRead(m, pins);
      SetInternal(m, sp + 1, sp);
      SetSp(SetByte(m, sp + 1, sp), sp + 1);
      PushParts(m, R_SP, pins);
      SetInternal(SetByte(m, R_SP, sp + 1), sp + 1, sp + 1);
    }
    hide SetByte, GetByte, Byte, PushedAsCommented;
  }

  // ---------- RET ----------

  lemma LowBytes(h: byte, l: byte, l2: byte)
    ensures Join(h, l) == Join(h, l2) <==> l == l2
  {}

  // What the second read of a return sees after the stack pointer has moved to l.
  lemma LowRead(m: Ram, pins: Pins, l: byte)
    requires m.sfr.sp != l
    ensures GetByte(SetByte(m, R_SP, l), pins, l) == GetByte(m, pins, l) <==> l != R_SP
  {
    CellOfSp(l);
    ReadAfterWrite(m, pins, R_SP, l, l);
    SpRead(m, pins);
    hide SetByte, GetByte, Cell;
  }

  lemma ReturnParts(a: Arch, pins: Pins)
    ensures var l := Byte(a.ram.sfr.sp - 1);
      ReturnAsCommented(a, pins)
      == Arch(Join(GetByte(a.ram, pins, a.ram.sfr.sp), GetByte(SetByte(a.ram, R_SP, l), pins, l)), Return(a, pins).ram)
  {
    var m, sp: int := a.ram, a.ram.sfr.sp;
    var l: int := Byte(sp - 1);
    SetSp(m, l);
    SetSp(SetByte(m, R_SP, l), Byte(l - 1));
    SetSp(m, Byte(sp - 2));
    ByteOfByte(sp - 1, -1);
    hide SetByte, GetByte, Byte, Join;
  }

  // RET: only where the lower byte would be read from the stack pointer, which has moved.
  lemma ReturnOrderExactly(a: Arch, pins: Pins)
    ensures Return(a, pins) == ReturnAsCommented(a, pins) <==> a.ram.sfr.sp != 0x82
  {
    var m, sp: int := a.ram, a.ram.sfr.sp;
    var l := Byte(sp - 1);
    assert l == R_SP <==> sp == 0x82;
    NextByte(sp, -1);
    ReturnParts(a, pins);
    LowRead(m, pins, l);
    LowBytes(GetByte(m, pins, sp), GetByte(m, pins, l), GetByte(SetByte(m, R_SP, l), pins, l));
    hide SetByte, GetByte, Byte, Join, ReturnAsCommented;
  }

  // ---------- ACALL and LCALL ----------

  // At 7F the second byte, and at 80 the first one, falls on the stack pointer.
  predicate CallAgrees(a: Arch) {
    var low, high := Lo(a.pc), Hi(a.pc);
    if a.ram.sfr.sp == 0x7F then high == R_SP
    else if a.ram.sfr.sp == 0x80 then low == R_SP || (low == 0x80 && high == 0x82 && a.ram.sfr.dpl == 0x82)
    else true
  }

  // Elsewhere the stack pointer moves between the writes without meeting them.
  lemma CallAway(a: Arch, target: word)
    requires a.ram.sfr.sp != 0x7F && a.ram.sfr.sp != 0x80
    ensures Call(a, target) == CallAsCommented(a, target)
  {
    var m, sp: int := a.ram, a.ram.sfr.sp;
    var x, y := Byte(sp + 1), Byte(sp + 2);
    assert x != R_SP && y != R_SP;
    ByteOfByte(sp + 1, 1);
    CellOfSp(x);
    CellOfSp(y);
    var lo, hi := Lo(a.pc), Hi(a.pc);
    SetSp(m, x);
    SpKept(SetByte(m, R_SP, x), x, lo);
    WritesCommute(m, R_SP, x, x, lo);
    var m1 := SetByte(m, x, lo);
    SetSp(m1, x);
    SetSp(SetByte(m1, R_SP, x), y);
    SetSp(m1, y);
    WritesCommute(m1, R_SP, y, y, hi);
    hide SetByte, Byte, Lo, Hi, Cell;
  }

  lemma CallAt7F(a: Arch, target: word)
    requires a.ram.sfr.sp == 0x7F
    ensures Call(a, target).ram.sfr.sp == R_SP && CallAsCommented(a, target).ram.sfr.sp == Hi(a.pc)
    ensures Call(a, target) == CallAsCommented(a, target) <==> Hi(a.pc) == R_SP
  {
    var m := a.ram;
    assert Byte(0x7F + 1) == 0x80 && Byte(0x7F + 2) == 0x81 && Byte(0x80 + 1) == 0x81;
    hide Byte, Lo, Hi;
  }

  lemma CallAt80(a: Arch, target: word)
    requires a.ram.sfr.sp == 0x80
    ensures Call(a, target).ram.sfr.sp == 0x82
    ensures CallAsCommented(a, target).ram.sfr.sp == if Lo(a.pc) == 0x80 then Hi(a.pc) else Byte(Lo(a.pc) + 1)
    ensures Call(a, target) == CallAsCommented(a, target) <==> CallAgrees(a)
  {
    var low: int, high := Lo(a.pc), Hi(a.pc);
    assert Byte(0x80 + 1) == 0x81 && Byte(0x80 + 2) == 0x82;
    assert Byte(low + 1) == 0x82 <==> low == 0x81;
    assert Byte(low + 1) == 0x81 <==> low == 0x80;
    hide Byte, Lo, Hi;
  }

  lemma CallExactly(a: Arch, target: word)
    ensures Call(a, target) == CallAsCommented(a, target) <==> CallAgrees(a)
  {
    hide Call, CallAsCommented, Lo, Hi;
    if a.ram.sfr.sp == 0x7F { CallAt7F(a, target); }
    else if a.ram.sfr.sp == 0x80 { CallAt80(a, target); }
    else { CallAway(a, target); }
  }

  // ---------- DJNZ ----------

  // A port read back shows its pins: it matters when they are 0 or 1 and there is somewhere to jump.
  predicate CountAgrees(m: Ram, at: byte, rel: byte, pins: Pins) {
    !IsPort(at) || rel == 0 || GetByte(m, pins, at) >= 2
  }

  lemma JumpsSomewhere(pc: word, rel: byte)
    ensures PcSAdd(pc, rel) == pc <==> rel == 0
  {}

  lemma CountExactly(a: Arch, at: byte, rel: byte, pins: Pins, any: word)
    ensures Exec(Djnz(at, rel), a, pins, any) == CountedAsCommented(a, at, rel, pins)
       <==> CountAgrees(a.ram, at, rel, pins)
  {
    var v: int := GetByte(a.ram, pins, at);
    var w := Byte(v - 1);
    assert w == 0 <==> v == 1;
    JumpsSomewhere(a.pc, rel);
    ReadAfterWrite(a.ram, pins, at, w, at);
    hide SetByte, GetByte, Byte, PcSAdd, IsPort, Cell;
  }

  // ---------- every instruction ----------

  // An instruction as its comment orders it. The others make one transfer, or several at once.
  function AsCommented(i: Instr, a: Arch, pins: Pins, any: word): Arch {
    match i
    case Push(at) => a.(ram := PushedAsCommented(a.ram, at, pins))
    case Pop(at) => a.(ram := PoppedAsCommented(a.ram, at, pins))
    case Acall(page, low) => CallAsCommented(a, InPage(a.pc, page, low))
    case Lcall(target) => CallAsCommented(a, target)
    case Ret => ReturnAsCommented(a, pins)
    case Djnz(at, rel) => CountedAsCommented(a, at, rel, pins)
    case _ => Exec(i, a, pins, any)
  }

  predicate OrderIsFree(i: Instr, a: Arch, pins: Pins) {
    match i
    case Push(at) => PushAgrees(a.ram, at, pins)
    case Pop(at) => at != R_SP
    case Acall(_, _) => CallAgrees(a)
    case Lcall(_) => CallAgrees(a)
    case Ret => a.ram.sfr.sp != 0x82
    case Djnz(at, rel) => CountAgrees(a.ram, at, rel, pins)
    case _ => true
  }

  // The code does what its comments say exactly where the order of their transfers does not matter.
  lemma CommentsExactly(i: Instr, a: Arch, pins: Pins, any: word)
    ensures Exec(i, a, pins, any) == AsCommented(i, a, pins, any) <==> OrderIsFree(i, a, pins)
  {
    hide Pushed, PushedAsCommented, Popped, PoppedAsCommented, Call, CallAsCommented, Return, ReturnAsCommented,
         CountedAsCommented, PushAgrees, CallAgrees, CountAgrees, InPage, GetByte;
    match i
    case Push(at) => PushExactly(a.ram, at, pins);
    case Pop(at) => PopExactly(a.ram, at, pins);
    case Acall(page, low) => CallExactly(a, InPage(a.pc, page, low));
    case Lcall(target) => CallExactly(a, target);
    case Ret => ReturnOrderExactly(a, pins);
    case Djnz(at, rel) => CountExactly(a, at, rel, pins, any);
    case _ =>
  }

  // ---------- inputs on which they differ ----------

  // All zero but the stack pointer and the accumulator.
  function Blank(sp: byte, acc: byte): Ram {
    Ram(seq(128, _ => 0), Registers(0, acc, 0, 0, 0, sp, 0, 0, 0, 0, 0, 0, 0, 0, 0, 0, 0, 0, 0, 0, 0))
  }

  const Low: Pins := Pins(0, 0, 0, 0)

  // PUSH ACC, and PUSH SP at the default stack pointer.
  lemma PushWitness()
    ensures Pushed(Blank(0x80, 5), GetByte(Blank(0x80, 5), Low, R_ACC)).sfr.sp == 0x81
    ensures PushedAsCommented(Blank(0x80, 5), R_ACC, Low).sfr.sp == 5
    ensures Pushed(Blank(7, 0), GetByte(Blank(7, 0), Low, R_SP)).iram[8] == 7
    ensures PushedAsCommented(Blank(7, 0), R_SP, Low).iram[8] == 8
  {
    assert Byte(8) == 8 && Byte(0x81) == 0x81;
    hide Byte;
  }

  // POP SP of a zero.
  lemma PopWitness()
    ensures Popped(Blank(8, 0), R_SP, Low).sfr.sp == 0
    ensures PoppedAsCommented(Blank(8, 0), R_SP, Low).sfr.sp == 0xFF
  {
    assert Byte(7) == 7 && Byte(-1) == 0xFF;
    hide Byte;
  }

  // Calls from 0102, with the stack pointer at 7F and at 80.
  lemma CallWitness(target: word)
    ensures Call(Arch(0x102, Blank(0x7F, 0)), target).ram.sfr.sp == 0x81
    ensures CallAsCommented(Arch(0x102, Blank(0x7F, 0)), target).ram.sfr.sp == 1
    ensures Call(Arch(0x102, Blank(0x80, 0)), target).ram.sfr.sp == 0x82
    ensures CallAsCommented(Arch(0x102, Blank(0x80, 0)), target).ram.sfr.sp == 3
  {
    CallAt7F(Arch(0x102, Blank(0x7F, 0)), target);
    CallAt80(Arch(0x102, Blank(0x80, 0)), target);
    assert Hi(0x102) == 1 && Lo(0x102) == 2 && Byte(3) == 3;
    hide Call, CallAsCommented, Byte, Hi, Lo;
  }

  // RET with the stack pointer at 82.
  lemma ReturnWitness()
    ensures Lo(Return(Arch(0, Blank(0x82, 0)), Low).pc) == 0x82
    ensures Lo(ReturnAsCommented(Arch(0, Blank(0x82, 0)), Low).pc) == 0x81
  {
    var a := Arch(0, Blank(0x82, 0));
    ReturnParts(a, Low);
    assert Byte(0x82 - 1) == 0x81;
    assert GetByte(a.ram, Low, 0x81) == 0x82 && GetByte(SetByte(a.ram, R_SP, 0x81), Low, 0x81) == 0x81;
    hide SetByte, GetByte, ReturnAsCommented, Byte, Join, Lo, Hi;
    JoinSplits(GetByte(a.ram, Low, 0x82), 0x82, 0);
    JoinSplits(GetByte(a.ram, Low, 0x82), 0x81, 0);
  }

  // DJNZ P0 with the pins at 1 counts to zero; the port, read back, still shows 1.
  lemma CountWitness(any: word)
    ensures var a, pins := Arch(0x100, Blank(7, 0)), Pins(1, 0, 0, 0);
      && Exec(Djnz(R_P0, 2), a, pins, any).pc == 0x100
      && CountedAsCommented(a, R_P0, 2, pins).pc == 0x102
  {
    assert Byte(0) == 0 && PcSAdd(0x100, 2) == 0x102;
    hide Byte, PcSAdd;
  }
}
