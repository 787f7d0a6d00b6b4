// Balanced calls: the bytes a program has pushed, and the return addresses among them, stay on the
// stack until they are popped, as long as the stack fits the internal RAM and nothing else is stored
// over it or over the stack pointer.
module Mcs51Stack {
  import opened Mcs51Alu
  import opened Mcs51Ram
  import opened Mcs51Isa

  // The stack above base holds exactly the bytes of live, the last one on top, inside internal RAM.
  ghost predicate Holding(m: Ram, base: nat, live: seq<byte>) {
    && m.sfr.sp == base + |live| < 0x80
    && forall i :: 0 <= i < |live| ==> m.iram[base + 1 + i] == live[i]
  }

  // An address that is neither the stack pointer nor one of the n cells above base, aliases included.
  predicate Spared(a: byte, base: nat, n: nat) {
    Cell(a) != R_SP && !(base < Cell(a) <= base + n)
  }

  // Where an instruction stores at an address of the program's choosing.
  function Stores(i: Instr, m: Ram, pins: Pins): Option<byte> {
    match i
    case Move(dst, _) => Some(Address(dst, m, pins))
    case Djnz(at, _) => Some(at)
    case Xch(o) => Some(Address(o, m, pins))
    case _ => None
  }

  // What a program must not do: leave internal RAM, take off more than it put on above floor, or store
  // over the stack. The program counter of a is past the instruction.
  predicate Allowed(i: Instr, a: Arch, pins: Pins, base: nat, live: seq<byte>, floor: nat) {
    match i
    case Acall(_, _) => base + |live| + 2 < 0x80
    case Lcall(_) => base + |live| + 2 < 0x80
    case Push(_) => base + |live| + 1 < 0x80
    case Ret => |live| >= floor + 2
    case Pop(at) => |live| >= floor + 1 && Spared(at, base, |live| - 1)
    case _ => Stores(i, a.ram, pins).Some? ==> Spared(Stores(i, a.ram, pins).value, base, |live|)
  }

  predicate IsCallInstr(i: Instr) {
    i.Acall? || i.Lcall?
  }

  // The bytes on the stack after an allowed instruction.
  function Shadow(i: Instr, a: Arch, pins: Pins, base: nat, live: seq<byte>, floor: nat): seq<byte>
    requires Allowed(i, a, pins, base, live, floor)
  {
    match i
    case Acall(_, _) => live + [Lo(a.pc), Hi(a.pc)]
    case Lcall(_) => live + [Lo(a.pc), Hi(a.pc)]
    case Push(at) => live + [GetByte(a.ram, pins, at)]
    case Ret => live[..|live| - 2]
    case Pop(at) => live[..|live| - 1]
    case _ => live
  }

  // ---------- one write ----------

  lemma SetInternal(m: Ram, a: byte, v: byte)
    requires a < 0x80
    ensures SetByte(m, a, v) == m.(iram := m.iram[a := v])
  {}

  lemma GetInternal(m: Ram, pins: Pins, a: byte)
    requires a < 0x80
    ensures GetByte(m, pins, a) == m.iram[a]
  {}

  lemma SetSp(m: Ram, v: byte)
    ensures SetByte(m, R_SP, v) == m.(sfr := m.sfr.(sp := v))
  {}

  lemma SparedWrite(m: Ram, a: byte, v: byte, base: nat, live: seq<byte>)
    requires Holding(m, base, live) && Spared(a, base, |live|)
    ensures Holding(SetByte(m, a, v), base, live)
  {}

  lemma RegistersAreSpared(base: nat, n: nat)
    requires base + n < 0x80
    ensures Spared(R_ACC, base, n) && Spared(R_B, base, n) && Spared(R_PSW, base, n)
  {}

  // ---------- one instruction ----------

  lemma PairKeeps(m: Ram, low: byte, high: byte, ov: bool, base: nat, live: seq<byte>)
    requires Holding(m, base, live)
    ensures Holding(SetPair(m, low, high, ov), base, live)
  {
    RegistersAreSpared(base, |live|);
    SparedWrite(m, R_ACC, low, base, live);
    var m1 := SetByte(m, R_ACC, low);
    SparedWrite(m1, R_B, high, base, live);
    SparedWrite(SetByte(m1, R_B, high), R_PSW, ToByte(GetPsw(m).(ov := ov)), base, live);
    hide Holding, SetByte, Spared, ToByte, FromByte;
  }

  // The accumulator, then the status word.
  lemma AccPswKeeps(m: Ram, v: byte, p: Psw, base: nat, live: seq<byte>)
    requires Holding(m, base, live)
    ensures Holding(SetPsw(SetByte(m, R_ACC, v), p), base, live) && Holding(SetPsw(m, p), base, live)
  {
    RegistersAreSpared(base, |live|);
    SparedWrite(m, R_ACC, v, base, live);
    SparedWrite(SetByte(m, R_ACC, v), R_PSW, ToByte(p), base, live);
    SparedWrite(m, R_PSW, ToByte(p), base, live);
    hide Holding, SetByte, Spared, ToByte;
  }

  predicate IsArithmetic(i: Instr) {
    i.Add? || i.Subb? || i.Mul? || i.Div? || i.Da? || i.Cjne? || i.CjneAcc?
  }

  lemma ArithmeticKeeps(i: Instr, a: Arch, pins: Pins, any: word, base: nat, live: seq<byte>)
    requires IsArithmetic(i) && Holding(a.ram, base, live)
    ensures Holding(Exec(i, a, pins, any).ram, base, live)
  {
    forall v: byte, p: Psw ensures Holding(SetPsw(SetByte(a.ram, R_ACC, v), p), base, live) && Holding(SetPsw(a.ram, p), base, live) {
      AccPswKeeps(a.ram, v, p, base, live);
    }
    forall low: byte, high: byte, ov: bool ensures Holding(SetPair(a.ram, low, high, ov), base, live) {
      PairKeeps(a.ram, low, high, ov, base, live);
    }
    hide Holding, SetByte, GetByte, SetPsw, SetPair, GetPsw, GetAcc, Value, DoMul, DoDa, Signed, PcSAdd, Byte, Hi, Lo;
  }

  lemma StoreKeeps(i: Instr, a: Arch, pins: Pins, any: word, base: nat, live: seq<byte>)
    requires (i.Move? || i.Djnz? || i.Xch?) && Holding(a.ram, base, live)
    requires Allowed(i, a, pins, base, live, 0)
    ensures Holding(Exec(i, a, pins, any).ram, base, live)
  {
    var at := Stores(i, a.ram, pins).value;
    forall v: byte ensures Holding(SetByte(a.ram, at, v), base, live) {
      SparedWrite(a.ram, at, v, base, live);
    }
    forall v: byte, w: byte ensures Holding(SetByte(SetByte(a.ram, at, v), R_ACC, w), base, live) {
      RegistersAreSpared(base, |live|);
      SparedWrite(a.ram, at, v, base, live);
      SparedWrite(SetByte(a.ram, at, v), R_ACC, w, base, live);
    }
    hide Holding, SetByte, GetByte, GetPsw, GetAcc, Value, Address, PcSAdd, Byte, Spared;
  }

  lemma InternalSp(sp: int, d: int)
    requires 0 <= sp + d < 0x100
    ensures Byte(sp + d) == sp + d
  {}

  lemma CallKeeps(a: Arch, target: word, base: nat, live: seq<byte>)
    requires Holding(a.ram, base, live) && base + |live| + 2 < 0x80
    ensures Holding(Call(a, target).ram, base, live + [Lo(a.pc), Hi(a.pc)])
  {
    var sp: int := a.ram.sfr.sp;
    InternalSp(sp, 1);
    InternalSp(sp, 2);
    SetInternal(a.ram, sp + 1, Lo(a.pc));
    var m1 := SetByte(a.ram, sp + 1, Lo(a.pc));
    SetInternal(m1, sp + 2, Hi(a.pc));
    SetSp(SetByte(m1, sp + 2, Hi(a.pc)), sp + 2);
    hide SetByte, Byte, Hi, Lo;
  }

  lemma PushKeeps(m: Ram, v: byte, base: nat, live: seq<byte>)
    requires Holding(m, base, live) && base + |live| + 1 < 0x80
    ensures Holding(Pushed(m, v), base, live + [v])
  {
    var sp: int := m.sfr.sp;
    InternalSp(sp, 1);
    SetInternal(m, sp + 1, v);
    SetSp(SetByte(m, sp + 1, v), sp + 1);
    hide SetByte, Byte;
  }

  lemma PopKeeps(m: Ram, at: byte, pins: Pins, base: nat, live: seq<byte>)
    requires Holding(m, base, live) && |live| >= 1 && Spared(at, base, |live| - 1)
    ensures Holding(Popped(m, at, pins), base, live[..|live| - 1])
  {
    var sp: int := m.sfr.sp;
    InternalSp(sp, -1);
    SetSp(m, sp - 1);
    var m1 := SetByte(m, R_SP, sp - 1);
    assert Holding(m1, base, live[..|live| - 1]) by { hide SetByte; }
    SparedWrite(m1, at, GetByte(m, pins, m.sfr.sp), base, live[..|live| - 1]);
    hide SetByte, GetByte, Byte, Spared, Holding;
  }

  // A return goes to the address in the two bytes on top.
  lemma ReturnKeeps(a: Arch, pins: Pins, base: nat, live: seq<byte>)
    requires Holding(a.ram, base, live) && |live| >= 2
    ensures Holding(Return(a, pins).ram, base, live[..|live| - 2])
    ensures Return(a, pins).pc == Join(live[|live| - 1], live[|live| - 2])
  {
    var sp: int := a.ram.sfr.sp;
    InternalSp(sp, -1);
    InternalSp(sp, -2);
    SetSp(a.ram, sp - 2);
    GetInternal(a.ram, pins, sp);
    GetInternal(a.ram, pins, sp - 1);
    hide SetByte, GetByte, Byte, Join;
  }

  // An allowed instruction leaves on the stack what the shadow says.
  lemma ExecKeeps(i: Instr, a: Arch, pins: Pins, any: word, base: nat, live: seq<byte>, floor: nat)
    requires Holding(a.ram, base, live) && Allowed(i, a, pins, base, live, floor)
    ensures Holding(Exec(i, a, pins, any).ram, base, Shadow(i, a, pins, base, live, floor))
  {
    hide Holding, SetByte, GetByte, Call, Return, Pushed, Popped, Spared, Hi, Lo, InPage, PcSAdd, Holds;
    if IsArithmetic(i) {
      ArithmeticKeeps(i, a, pins, any, base, live);
    } else if i.Move? || i.Djnz? || i.Xch? {
      StoreKeeps(i, a, pins, any, base, live);
    } else {
      match i
      case Acall(page, low) => CallKeeps(a, InPage(a.pc, page, low), base, live);
      case Lcall(target) => CallKeeps(a, target, base, live);
      case Push(at) => PushKeeps(a.ram, GetByte(a.ram, pins, at), base, live);
      case Pop(at) => PopKeeps(a.ram, at, pins, base, live);
      case Ret => ReturnKeeps(a, pins, base, live);
      case _ =>
    }
  }

  // ---------- runs ----------

  datatype Input = Input(pins: Pins, any: word)

  // The instruction at the program counter, and the view with the counter past it.
  function Past(rom: Rom, a: Arch): Arch
    requires Fetched(rom, a).Some?
  {
    a.(pc := PcUAdd(a.pc, Fetched(rom, a).value.bytes))
  }

  predicate AllowedAt(rom: Rom, a: Arch, pins: Pins, base: nat, live: seq<byte>, floor: nat) {
    Fetched(rom, a).Some? && Allowed(Fetched(rom, a).value.i, Past(rom, a), pins, base, live, floor)
  }

  function ShadowAt(rom: Rom, a: Arch, pins: Pins, base: nat, live: seq<byte>, floor: nat): seq<byte>
    requires AllowedAt(rom, a, pins, base, live, floor)
  {
    Shadow(Fetched(rom, a).value.i, Past(rom, a), pins, base, live, floor)
  }

  // A run of allowed instructions, and the bytes on the stack after it.
  predicate AllowedRun(rom: Rom, a: Arch, base: nat, live: seq<byte>, floor: nat, ins: seq<Input>)
    decreases |ins|
  {
    ins == [] ||
    (AllowedAt(rom, a, ins[0].pins, base, live, floor) &&
     AllowedRun(rom, Step(rom, a, ins[0].pins, ins[0].any), base,
                ShadowAt(rom, a, ins[0].pins, base, live, floor), floor, ins[1..]))
  }

  function EndOf(rom: Rom, a: Arch, base: nat, live: seq<byte>, floor: nat, ins: seq<Input>): (Arch, seq<byte>)
    requires AllowedRun(rom, a, base, live, floor, ins)
    decreases |ins|
  {
    if ins == [] then (a, live)
    else EndOf(rom, Step(rom, a, ins[0].pins, ins[0].any), base,
               ShadowAt(rom, a, ins[0].pins, base, live, floor), floor, ins[1..])
  }

  lemma ShadowAboveFloor(i: Instr, a: Arch, pins: Pins, base: nat, live: seq<byte>, floor: nat)
    requires Allowed(i, a, pins, base, live, floor) && floor <= |live|
    ensures var now := Shadow(i, a, pins, base, live, floor);
      floor <= |now| && now[..floor] == live[..floor]
  {
    hide Spared, GetByte, Hi, Lo;
  }

  lemma StepKeeps(rom: Rom, a: Arch, pins: Pins, any: word, base: nat, live: seq<byte>, floor: nat)
    requires Holding(a.ram, base, live) && AllowedAt(rom, a, pins, base, live, floor) && floor <= |live|
    ensures var now := ShadowAt(rom, a, pins, base, live, floor);
      Holding(Step(rom, a, pins, any).ram, base, now) && floor <= |now| && now[..floor] == live[..floor]
  {
    hide Holding, Allowed, Shadow, Exec, Fetched, PcUAdd;
    ExecKeeps(Fetched(rom, a).value.i, Past(rom, a), pins, any, base, live, floor);
    ShadowAboveFloor(Fetched(rom, a).value.i, Past(rom, a), pins, base, live, floor);
  }

  lemma AllowedHead(rom: Rom, a: Arch, base: nat, live: seq<byte>, floor: nat, ins: seq<Input>)
    requires ins != [] && AllowedRun(rom, a, base, live, floor, ins)
    ensures AllowedAt(rom, a, ins[0].pins, base, live, floor) && Fetched(rom, a).Some?
    ensures var a1 := Step(rom, a, ins[0].pins, ins[0].any);
      var now := ShadowAt(rom, a, ins[0].pins, base, live, floor);
      && AllowedRun(rom, a1, base, now, floor, ins[1..])
      && EndOf(rom, a, base, live, floor, ins) == EndOf(rom, a1, base, now, floor, ins[1..])
  {
    hide Allowed, Shadow, ShadowAt, Step, Fetched, Past;
  }

  lemma RunUnfolds(rom: Rom, a: Arch, base: nat, live: seq<byte>, floor: nat, ins: seq<Input>)
    returns (a1: Arch, now: seq<byte>)
    requires Holding(a.ram, base, live) && floor <= |live| && ins != [] && AllowedRun(rom, a, base, live, floor, ins)
    ensures AllowedRun(rom, a1, base, now, floor, ins[1..])
    ensures EndOf(rom, a, base, live, floor, ins) == EndOf(rom, a1, base, now, floor, ins[1..])
    ensures Holding(a1.ram, base, now) && floor <= |now| && now[..floor] == live[..floor]
  {
    hide *;
    AllowedHead(rom, a, base, live, floor, ins);
    a1 := Step(rom, a, ins[0].pins, ins[0].any);
    now := ShadowAt(rom, a, ins[0].pins, base, live, floor);
    StepKeeps(rom, a, ins[0].pins, ins[0].any, base, live, floor);
  }

  // Whatever an allowed run does, nested calls included, the stack holds what the shadow says, and the
  // bytes below the floor are the ones of the start.
  lemma {:induction false} RunKeeps(rom: Rom, a: Arch, base: nat, live: seq<byte>, floor: nat, ins: seq<Input>)
    requires Holding(a.ram, base, live) && floor <= |live| && AllowedRun(rom, a, base, live, floor, ins)
    ensures var e := EndOf(rom, a, base, live, floor, ins);
      Holding(e.0.ram, base, e.1) && floor <= |e.1| && e.1[..floor] == live[..floor]
    decreases |ins|
  {
    if ins != [] {
      hide *;
      var a1, now := RunUnfolds(rom, a, base, live, floor, ins);
      RunKeeps(rom, a1, base, now, floor, ins[1..]);
    }
  }

  // ---------- a call and its return ----------

  // The stack right after a call.
  function Inner(rom: Rom, a: Arch, live: seq<byte>): seq<byte>
    requires Fetched(rom, a).Some?
  {
    live + [Lo(Past(rom, a).pc), Hi(Past(rom, a).pc)]
  }

  // The run after a call: the call fits internal RAM, and nothing is taken off that was there before it.
  predicate Body(rom: Rom, a: Arch, base: nat, live: seq<byte>, call: Input, body: seq<Input>) {
    && Fetched(rom, a).Some? && IsCallInstr(Fetched(rom, a).value.i) && base + |live| + 2 < 0x80
    && AllowedRun(rom, Step(rom, a, call.pins, call.any), base, Inner(rom, a, live), |live| + 2, body)
  }

  function BodyEnd(rom: Rom, a: Arch, base: nat, live: seq<byte>, call: Input, body: seq<Input>): (Arch, seq<byte>)
    requires Body(rom, a, base, live, call, body)
  {
    EndOf(rom, Step(rom, a, call.pins, call.any), base, Inner(rom, a, live), |live| + 2, body)
  }

  lemma CallEnters(rom: Rom, a: Arch, base: nat, live: seq<byte>, call: Input)
    requires Holding(a.ram, base, live) && Fetched(rom, a).Some? && IsCallInstr(Fetched(rom, a).value.i)
    requires base + |live| + 2 < 0x80
    ensures Holding(Step(rom, a, call.pins, call.any).ram, base, Inner(rom, a, live))
  {
    hide Holding, Exec, Fetched, PcUAdd, Hi, Lo;
    ExecKeeps(Fetched(rom, a).value.i, Past(rom, a), call.pins, call.any, base, live, 0);
  }

  lemma ReturnLeaves(rom: Rom, c: Arch, base: nat, live: seq<byte>, ret: Input)
    requires Holding(c.ram, base, live) && |live| >= 2
    requires Fetched(rom, c).Some? && Fetched(rom, c).value.i.Ret?
    ensures var r := Step(rom, c, ret.pins, ret.any);
      Holding(r.ram, base, live[..|live| - 2]) && r.pc == Join(live[|live| - 1], live[|live| - 2])
  {
    hide Holding, Fetched, PcUAdd, Return;
    ReturnKeeps(Past(rom, c), ret.pins, base, live);
  }

  // A call, any balanced run after it and a return: the program is at the instruction after the call,
  // with the stack pointer and every byte of the stack as they were before the call.
  lemma CallReturns(rom: Rom, a: Arch, base: nat, live: seq<byte>, call: Input, body: seq<Input>, ret: Input)
    requires Holding(a.ram, base, live) && Body(rom, a, base, live, call, body)
    requires var e := BodyEnd(rom, a, base, live, call, body);
      |e.1| == |live| + 2 && Fetched(rom, e.0).Some? && Fetched(rom, e.0).value.i.Ret?
    ensures var r := Step(rom, BodyEnd(rom, a, base, live, call, body).0, ret.pins, ret.any);
      && r.pc == PcUAdd(a.pc, Fetched(rom, a).value.bytes)
      && r.ram.sfr.sp == a.ram.sfr.sp
      && Holding(r.ram, base, live)
  {
    var inner := Inner(rom, a, live);
    var e := BodyEnd(rom, a, base, live, call, body);
    var next := Past(rom, a).pc;
    assert a.ram.sfr.sp == base + |live|;
    CallEnters(rom, a, base, live, call);
    hide Holding, Fetched, PcUAdd, AllowedRun, EndOf, Step, Hi, Lo, Join;
    RunKeeps(rom, Step(rom, a, call.pins, call.any), base, inner, |live| + 2, body);
    assert e.1 == inner && inner[..|inner| - 2] == live by {
      assert e.1[..|live| + 2] == e.1 && inner[..|live| + 2] == inner;
    }
    JoinSplits(0, 0, next);
    ReturnLeaves(rom, e.0, base, e.1, ret);
    SpOf(Step(rom, e.0, ret.pins, ret.any).ram, base, live);
  }

  lemma SpOf(m: Ram, base: nat, live: seq<byte>)
    requires Holding(m, base, live)
    ensures m.sfr.sp == base + |live|
  {}

  // What comes back from an address c of the stack after a call that stored v there and left the
  // stack pointer at top: a port shows its pins, and the stack pointer itself.
  function ReadBack(c: byte, v: byte, top: byte, pins: Pins): byte {
    if c == R_P0 then pins.p0 else if c == R_P1 then pins.p1 else if c == R_P2 then pins.p2
    else if c == R_P3 then pins.p3 else if c == R_SP then top else v
  }

  lemma NeighbourCells(sp: byte)
    ensures Cell(Byte(sp + 1)) != Cell(Byte(sp + 2))
  {}

  lemma ReadsBack(m: Ram, pins: Pins, c: byte, v: byte, d: byte, w: byte, top: byte)
    requires Cell(c) != Cell(d)
    ensures GetByte(SetByte(SetByte(SetByte(m, c, v), d, w), R_SP, top), pins, c) == ReadBack(c, v, top, pins)
    ensures GetByte(SetByte(SetByte(SetByte(m, d, w), c, v), R_SP, top), pins, c) == ReadBack(c, v, top, pins)
  {
    var m1, m2 := SetByte(m, c, v), SetByte(m, d, w);
    ReadAfterWrite(SetByte(m1, d, w), pins, R_SP, top, c);
    ReadAfterWrite(m1, pins, d, w, c);
    ReadAfterWrite(m, pins, c, v, c);
    ReadAfterWrite(SetByte(m2, c, v), pins, R_SP, top, c);
    ReadAfterWrite(m2, pins, c, v, c);
    PortsAndSp(m1, pins, c);
    hide SetByte;
  }

  lemma PortsAndSp(m: Ram, pins: Pins, c: byte)
    ensures IsPort(c) ==> GetByte(m, pins, c) == ReadBack(c, 0, 0, pins)
    ensures Cell(c) == Cell(R_SP) <==> c == R_SP
  {}

  // Anywhere in the address space: a return right after a call comes back exactly when the two bytes
  // of the return address can be read back. They cannot over the ports and the stack pointer.
  lemma ReturnsExactly(a: Arch, target: word, pins: Pins)
    ensures var low, top := Byte(a.ram.sfr.sp + 1), Byte(a.ram.sfr.sp + 2);
      Return(Call(a, target), pins).pc == a.pc
      <==> ReadBack(low, Lo(a.pc), top, pins) == Lo(a.pc) && ReadBack(top, Hi(a.pc), top, pins) == Hi(a.pc)
  {
    var sp: int := a.ram.sfr.sp;
    var low, top := Byte(sp + 1), Byte(sp + 2);
    NeighbourCells(sp);
    ByteOfByte(sp + 2, -1);
    var m := Call(a, target).ram;
    assert m.sfr.sp == top by { SetSp(SetByte(SetByte(a.ram, low, Lo(a.pc)), top, Hi(a.pc)), top); }
    ReadsBack(a.ram, pins, low, Lo(a.pc), top, Hi(a.pc), top);
    ReadsBack(a.ram, pins, top, Hi(a.pc), low, Lo(a.pc), top);
    hide SetByte, GetByte, ReadBack, Byte, Cell;
    var h, l := ReadBack(top, Hi(a.pc), top, pins), ReadBack(low, Lo(a.pc), top, pins);
    assert Return(Call(a, target), pins).pc == Join(h, l);
    JoinSplits(h, l, a.pc);
  }

  // With the stack pointer at 127 the return address falls on port 0 and the stack pointer: a call
  // from below 8100 never returns.
  lemma DeepCallIsLost(a: Arch, target: word, pins: Pins)
    requires a.ram.sfr.sp == 0x7F && a.pc < 0x8100
    ensures Return(Call(a, target), pins).pc != a.pc
  {
    hide Call, Return;
    ReturnsExactly(a, target, pins);
  }
}
