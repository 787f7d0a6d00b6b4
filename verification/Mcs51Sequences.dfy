// The remaining micro-sequences of the execution: jumps, calls and returns, the stack, exchanges and the
// two-byte products. Each is followed clock by clock: a stage says what holds before ES_i.
module Mcs51Sequences {
  import opened Mcs51Alu
  import opened Mcs51Ram
  import opened Mcs51Isa
  import opened Mcs51Controller
  import opened Mcs51Fetch
  import opened Mcs51Execute

  // Stages that follow one another are passed one after the other.
  lemma {:induction false} StagesRun(stage: (nat, Chip) -> bool, d: nat, i: nat, s: Chip, rom: Rom, pins: Pins, xs: seq<Noise>)
    requires i <= d == |xs| && stage(i, s)
    requires forall j: nat, t: Chip :: j < d && stage(j, t) ==> stage(j + 1, Edge(rom, pins, t, xs[j]))
    ensures stage(d, Run(rom, pins, s, xs[i..]))
    decreases d - i
  {
    hide Edge;
    if i < d {
      assert xs[i..][0] == xs[i] && xs[i..][1..] == xs[i + 1..];
      StagesRun(stage, d, i + 1, Edge(rom, pins, s, xs[i]), rom, pins, xs);
    }
  }

  // A family of eight clocks from its d stages.
  lemma ByStages(stage: (nat, Chip) -> bool, d: nat, s0: Chip, op: Op, rom: Rom, pins: Pins, xs: seq<Noise>, pc: word, ram: Ram)
    requires d <= 7 && |xs| == 8 && stage(0, s0) && IdleFrom(op, d)
    requires forall j: nat, t: Chip :: j < d && stage(j, t) ==> stage(j + 1, Edge(rom, pins, t, xs[j]))
    requires forall t: Chip :: stage(d, t) ==> Done(t, op, d, pc, ram)
    ensures Boundary(Run(rom, pins, s0, xs), Arch(pc, ram))
  {
    hide Edge, IdleFrom, Done, Boundary;
    var ys := xs[..d];
    StagesRun(stage, d, 0, s0, rom, pins, ys);
    assert ys[0..] == ys;
    Finish(s0, op, d, rom, pins, xs, pc, ram);
  }

  // ES_i of op, with the bytes, accumulator and status word of the start s0, no ROM request, and a
  // memory that will be ram after the pending write.
  predicate Stage(i: nat, s: Chip, s0: Chip, op: Op, ram: Ram) {
    && Executing(s, op, i) && SameBytes(s.c, s0.c) && s.c.acc == s0.c.acc && s.c.psw == s0.c.psw
    && RamAfter(s) == ram
  }

  predicate Reads(s: Chip, a: byte) {
    s.c.ramRd && s.c.ramAddr == a && !s.c.ramWr
  }

  predicate Still(s: Chip) {
    !s.c.ramRd && !s.c.ramWr
  }

  // The ALU counts a up or down.
  predicate Counts(c: Ctl, op: AluOp, a: byte) {
    c.aluOp == op && c.src1 == a && c.src2 == 0 && c.srcCy
  }

  lemma CountsUp(s: Chip, x: Noise, a: byte)
    requires Counts(s.c, AluAdd, a)
    ensures AluNow(s, x).d1 == Byte(a + 1)
  {
    AddIsAddition(a, 0, true);
    hide DoAdd, DoSub, DoMul, DoDa, PcSAdd, PcUAdd, Join, Hi, Lo;
  }

  lemma CountsDown(s: Chip, x: Noise, a: byte)
    requires Counts(s.c, AluSub, a)
    ensures AluNow(s, x).d1 == Byte(a - 1)
  {
    SubIsSubtraction(a, 0, true);
    hide DoAdd, DoSub, DoMul, DoDa, PcSAdd, PcUAdd, Join, Hi, Lo;
  }

  // ---------- calls ----------

  function CallTarget(long: bool, k: Ctl): word {
    if long then Join(k.op2, k.op3) else InPage(k.pc, k.op1 / 0x20, k.op2)
  }

  ghost predicate IsCall(op: Op, long: bool) {
    forall k: Ctl, n: Ctl, q: byte, out: AluOut :: Micro(op, k, n, q, out) == CallTo(CallTarget(long, k), k, n, q, out)
  }

  // The memory after the first i writes of a call.
  function CallRam(s0: Chip, i: nat): Ram {
    var sp: int := s0.ram.sfr.sp;
    var m1 := SetByte(s0.ram, Byte(sp + 1), Lo(s0.c.pc));
    var m2 := SetByte(m1, Byte(sp + 2), Hi(s0.c.pc));
    if i == 0 then s0.ram else if i == 1 then m1 else if i == 2 then m2 else SetByte(m2, R_SP, Byte(sp + 2))
  }

  predicate CallStage(i: nat, s: Chip, s0: Chip, op: Op, long: bool) {
    var sp: int := s0.ram.sfr.sp;
    && Stage(i, s, s0, op, CallRam(s0, if i <= 3 then 0 else if i <= 5 then i - 3 else 3))
    && (i <= 6 ==> s.c.pc == s0.c.pc)
    && (i == 1 ==> Reads(s, R_SP))
    && (i != 1 ==> !s.c.ramRd) && (i <= 3 ==> !s.c.ramWr)
    && (i == 2 ==> s.q == sp)
    && (i == 3 ==> Counts(s.c, AluAdd, sp))
    && (i == 4 || i == 5 ==> Counts(s.c, AluAdd, Byte(sp + 1)))
    && (i == 7 ==> s.c.pc == CallTarget(long, s0.c))
  }

  lemma CallEdge(i: nat, s: Chip, s0: Chip, op: Op, long: bool, rom: Rom, pins: Pins, x: Noise)
    requires IsCall(op, long) && i < 7 && CallStage(i, s, s0, op, long)
    ensures CallStage(i + 1, Edge(rom, pins, s, x), s0, op, long)
  {
    var sp: int := s0.ram.sfr.sp;
    hide IsCall, Byte, GetByte, SetByte, Edge, Micro, Dec, AluNow;
    if i == 3 { CountsUp(s, x, sp); }
    if i == 4 || i == 5 { CountsUp(s, x, Byte(sp + 1)); }
    ByteOfByte(sp + 1, 1);
    assert i == 1 ==> GetByte(s.ram, pins, R_SP) == sp by { ReadSp(s.ram, pins); }
    assert i == 6 ==> CallTarget(long, s.c) == CallTarget(long, s0.c);
    ExecuteEdge(s, op, i, rom, pins, x);
    hide RamAfter, CallTarget, Hi, Lo;
    CallMicro(op, long, s.c, StopReadWrite(s.c, x), s.q, AluNow(s, x));
    WriteSeen(Edge(rom, pins, s, x));
  }

  lemma ReadSp(m: Ram, pins: Pins)
    ensures GetByte(m, pins, R_SP) == m.sfr.sp
  {}

  lemma CallMicro(op: Op, long: bool, k: Ctl, n: Ctl, q: byte, out: AluOut)
    requires IsCall(op, long)
    ensures Micro(op, k, n, q, out) == CallTo(CallTarget(long, k), k, n, q, out)
  {}

  lemma CallRuns(s0: Chip, op: Op, long: bool, rom: Rom, pins: Pins, xs: seq<Noise>)
    requires Executing(s0, op, 0) && Quiet(s0) && |xs| == 8 && IsCall(op, long)
    ensures Boundary(Run(rom, pins, s0, xs), Call(Arch(s0.c.pc, s0.ram), CallTarget(long, s0.c)))
  {
    hide IsCall, Edge, Boundary, Executing, CallTarget, SetByte, Byte, Hi, Lo;
    var stage := (i: nat, s: Chip) => CallStage(i, s, s0, op, long);
    forall j: nat, t: Chip | j < 7 && stage(j, t) ensures stage(j + 1, Edge(rom, pins, t, xs[j])) {
      CallEdge(j, t, s0, op, long, rom, pins, xs[j]);
    }
    assert IdleFrom(op, 7) by { assert IsCall(op, long); CallIdle(op, long); }
    hide IdleFrom;
    ByStages(stage, 7, s0, op, rom, pins, xs, CallTarget(long, s0.c), CallRam(s0, 3));
  }

  lemma CallIdle(op: Op, long: bool)
    requires IsCall(op, long)
    ensures IdleFrom(op, 7)
  {
    hide Micro;
  }

  // ---------- returns ----------

  predicate ReturnStage(i: nat, s: Chip, s0: Chip, pins: Pins) {
    var sp: int := s0.ram.sfr.sp;
    var h, l := GetByte(s0.ram, pins, sp), GetByte(s0.ram, pins, Byte(sp - 1));
    && Stage(i, s, s0, RET, if i <= 6 then s0.ram else SetByte(s0.ram, R_SP, Byte(sp - 2)))
    && (i == 1 ==> Reads(s, R_SP))
    && (i == 2 ==> s.q == sp)
    && (i == 3 ==> Reads(s, sp) && Counts(s.c, AluSub, sp))
    && (i == 4 ==> Reads(s, Byte(sp - 1)) && s.q == h)
    && (i == 5 ==> s.q == l)
    && (4 <= i <= 6 ==> Counts(s.c, AluSub, Byte(sp - 1)))
    && (i != 1 && i != 3 && i != 4 ==> !s.c.ramRd) && (i <= 6 ==> !s.c.ramWr)
    && (i == 5 ==> s.c.pc == Join(h, Lo(s0.c.pc)))
    && (i <= 4 ==> s.c.pc == s0.c.pc)
    && (i >= 6 ==> s.c.pc == Join(h, l))
  }

  lemma RetMicro(k: Ctl, n: Ctl, q: byte, out: AluOut)
    ensures Micro(RET, k, n, q, out) == ReturnFrom(k, n, q, out)
  {}

  lemma ReturnEdge(i: nat, s: Chip, s0: Chip, rom: Rom, pins: Pins, x: Noise)
    requires i < 7 && ReturnStage(i, s, s0, pins)
    ensures ReturnStage(i + 1, Edge(rom, pins, s, x), s0, pins)
  {
    var sp: int := s0.ram.sfr.sp;
    hide Byte, GetByte, SetByte, Edge, Micro, Dec, AluNow, Join, Hi, Lo;
    if i == 3 { CountsDown(s, x, sp); }
    if 4 <= i <= 6 { CountsDown(s, x, Byte(sp - 1)); }
    ByteOfByte(sp - 1, -1);
    assert i == 1 ==> GetByte(s.ram, pins, R_SP) == sp by { ReadSp(s.ram, pins); }
    assert i == 5 ==> Hi(s.c.pc) == GetByte(s0.ram, pins, sp) by {
      JoinSplits(GetByte(s0.ram, pins, sp), Lo(s0.c.pc), 0);
    }
    ExecuteEdge(s, RET, i, rom, pins, x);
    hide RamAfter;
    WriteSeen(s);
    RetMicro(s.c, StopReadWrite(s.c, x), s.q, AluNow(s, x));
    WriteSeen(Edge(rom, pins, s, x));
  }

  lemma ReturnEnds(s: Chip, s0: Chip, pins: Pins)
    requires ReturnStage(7, s, s0, pins)
    ensures var r := Return(Arch(s0.c.pc, s0.ram), pins);
      Done(s, RET, 7, r.pc, r.ram)
  {
    hide Executing, RamAfter, SetByte, GetByte, Byte, Join;
  }

  lemma ReturnRuns(s0: Chip, rom: Rom, pins: Pins, xs: seq<Noise>)
    requires Executing(s0, RET, 0) && Quiet(s0) && |xs| == 8
    ensures Boundary(Run(rom, pins, s0, xs), Return(Arch(s0.c.pc, s0.ram), pins))
  {
    assert IdleFrom(RET, 7);
    hide Edge, Boundary, Executing, GetByte, SetByte, Byte, Join, Lo, IdleFrom;
    assert ReturnStage(0, s0, s0, pins);
    var stage := (i: nat, s: Chip) => ReturnStage(i, s, s0, pins);
    var r := Return(Arch(s0.c.pc, s0.ram), pins);
    hide ReturnStage, Done, Return;
    forall t: Chip | stage(7, t) ensures Done(t, RET, 7, r.pc, r.ram) {
      ReturnEnds(t, s0, pins);
    }
    forall j: nat, t: Chip | j < 7 && stage(j, t) ensures stage(j + 1, Edge(rom, pins, t, xs[j])) {
      ReturnEdge(j, t, s0, rom, pins, xs[j]);
    }
    ByStages(stage, 7, s0, RET, rom, pins, xs, r.pc, r.ram);
  }

  // ---------- PUSH and POP ----------

  predicate PushStage(i: nat, s: Chip, s0: Chip, pins: Pins) {
    var sp: int := s0.ram.sfr.sp;
    var v := GetByte(s0.ram, pins, s0.c.op2);
    var m := SetByte(s0.ram, Byte(sp + 1), v);
    && Stage(i, s, s0, PUSH, if i <= 3 then s0.ram else if i == 4 then m else SetByte(m, R_SP, Byte(sp + 1)))
    && s.c.pc == s0.c.pc
    && (i == 1 ==> Reads(s, R_SP))
    && (i == 2 ==> Reads(s, s0.c.op2) && s.q == sp)
    && (i == 3 ==> s.q == v)
    && (i == 3 || i == 4 ==> Counts(s.c, AluAdd, sp))
    && (i != 1 && i != 2 ==> !s.c.ramRd) && (i <= 3 ==> !s.c.ramWr)
  }

  lemma PushMicro(k: Ctl, n: Ctl, q: byte, out: AluOut)
    ensures Micro(PUSH, k, n, q, out) == PushByte(k, n, q, out)
  {}

  lemma PushEdge(i: nat, s: Chip, s0: Chip, rom: Rom, pins: Pins, x: Noise)
    requires i < 5 && PushStage(i, s, s0, pins)
    ensures PushStage(i + 1, Edge(rom, pins, s, x), s0, pins)
  {
    var sp: int := s0.ram.sfr.sp;
    hide Byte, GetByte, SetByte, Edge, Micro, Dec, AluNow;
    if i == 3 || i == 4 { assert AluNow(s, x).d1 == Byte(sp + 1) by { CountsUp(s, x, sp); } }
    assert i == 1 ==> GetByte(s.ram, pins, R_SP) == sp by { ReadSp(s.ram, pins); }
    ExecuteEdge(s, PUSH, i, rom, pins, x);
    hide RamAfter;
    WriteSeen(s);
    PushMicro(s.c, StopReadWrite(s.c, x), s.q, AluNow(s, x));
    WriteSeen(Edge(rom, pins, s, x));
  }

  // The byte pushed is read before the stack pointer moves.
  lemma PushRuns(s0: Chip, rom: Rom, pins: Pins, xs: seq<Noise>)
    requires Executing(s0, PUSH, 0) && Quiet(s0) && |xs| == 8
    ensures Boundary(Run(rom, pins, s0, xs), Arch(s0.c.pc, Pushed(s0.ram, GetByte(s0.ram, pins, s0.c.op2))))
  {
    assert IdleFrom(PUSH, 5);
    hide Edge, Boundary, Executing, GetByte, SetByte, Byte, IdleFrom;
    var stage := (i: nat, s: Chip) => PushStage(i, s, s0, pins);
    forall j: nat, t: Chip | j < 5 && stage(j, t) ensures stage(j + 1, Edge(rom, pins, t, xs[j])) {
      PushEdge(j, t, s0, rom, pins, xs[j]);
    }
    ByStages(stage, 5, s0, PUSH, rom, pins, xs, s0.c.pc, Pushed(s0.ram, GetByte(s0.ram, pins, s0.c.op2)));
  }

  predicate PopStage(i: nat, s: Chip, s0: Chip, pins: Pins) {
    var sp: int := s0.ram.sfr.sp;
    var v := GetByte(s0.ram, pins, sp);
    var m := SetByte(s0.ram, R_SP, Byte(sp - 1));
    && Stage(i, s, s0, POP, if i <= 3 then s0.ram else if i == 4 then m else SetByte(m, s0.c.op2, v))
    && s.c.pc == s0.c.pc
    && (i == 1 ==> Reads(s, R_SP))
    && (i == 2 ==> s.q == sp)
    && (i == 3 ==> Reads(s, sp) && Counts(s.c, AluSub, sp))
    && (i == 4 ==> s.q == v)
    && (i != 1 && i != 3 ==> !s.c.ramRd) && (i <= 3 ==> !s.c.ramWr)
  }

  lemma PopMicro(k: Ctl, n: Ctl, q: byte, out: AluOut)
    ensures Micro(POP, k, n, q, out) == PopByte(k, n, q, out)
  {}

  lemma PopEdge(i: nat, s: Chip, s0: Chip, rom: Rom, pins: Pins, x: Noise)
    requires i < 5 && PopStage(i, s, s0, pins)
    ensures PopStage(i + 1, Edge(rom, pins, s, x), s0, pins)
  {
    var sp: int := s0.ram.sfr.sp;
    hide Byte, GetByte, SetByte, Edge, Micro, Dec, AluNow;
    if i == 3 { assert AluNow(s, x).d1 == Byte(sp - 1) by { CountsDown(s, x, sp); } }
    assert i == 1 ==> GetByte(s.ram, pins, R_SP) == sp by { ReadSp(s.ram, pins); }
    ExecuteEdge(s, POP, i, rom, pins, x);
    hide RamAfter;
    WriteSeen(s);
    PopMicro(s.c, StopReadWrite(s.c, x), s.q, AluNow(s, x));
    WriteSeen(Edge(rom, pins, s, x));
  }

  // The stack pointer is written before the byte is stored.
  lemma PopRuns(s0: Chip, rom: Rom, pins: Pins, xs: seq<Noise>)
    requires Executing(s0, POP, 0) && Quiet(s0) && |xs| == 8
    ensures Boundary(Run(rom, pins, s0, xs), Arch(s0.c.pc, Popped(s0.ram, s0.c.op2, pins)))
  {
    assert IdleFrom(POP, 5);
    hide Edge, Boundary, Executing, GetByte, SetByte, Byte, IdleFrom;
    var stage := (i: nat, s: Chip) => PopStage(i, s, s0, pins);
    forall j: nat, t: Chip | j < 5 && stage(j, t) ensures stage(j + 1, Edge(rom, pins, t, xs[j])) {
      PopEdge(j, t, s0, rom, pins, xs[j]);
    }
    ByStages(stage, 5, s0, POP, rom, pins, xs, s0.c.pc, Popped(s0.ram, s0.c.op2, pins));
  }
}
