// The rest of the micro-sequences: jumps, exchanges, indirect stores, the two-byte products and the
// decimal adjustment, stage by stage.
module Mcs51Transfers {
  import opened Mcs51Alu
  import opened Mcs51Ram
  import opened Mcs51Isa
  import opened Mcs51Controller
  import opened Mcs51Fetch
  import opened Mcs51Execute
  import opened Mcs51Sequences

  // ---------- jumps ----------

  predicate Taken(when: Condition, k: Ctl) {
    match when
    case Always => true
    case IfCarry => k.psw.cy
    case IfNoCarry => !k.psw.cy
    case IfNotZero => k.acc != 0
    case IfZero => k.acc == 0
  }

  ghost predicate IsJump(op: Op, when: Condition) {
    forall k: Ctl, n: Ctl, q: byte, out: AluOut :: Micro(op, k, n, q, out) == Jump(Taken(when, k), k, n, out)
  }

  function JumpOffset(when: Condition, k: Ctl): byte {
    if Taken(when, k) then k.op2 else 0
  }

  predicate JumpStage(i: nat, s: Chip, s0: Chip, op: Op, when: Condition) {
    && Stage(i, s, s0, op, s0.ram) && Still(s)
    && (i < 2 ==> s.c.pc == s0.c.pc)
    && (i == 1 ==> s.c.aluOp.AluPcSAdd? && s.c.src1 == Lo(s0.c.pc) && s.c.src2 == Hi(s0.c.pc)
                   && s.c.src3 == JumpOffset(when, s0.c))
    && (i == 2 ==> s.c.pc == PcSAdd(s0.c.pc, JumpOffset(when, s0.c)))
  }

  lemma JumpEdge0(s: Chip, s0: Chip, op: Op, when: Condition, rom: Rom, pins: Pins, x: Noise)
    requires IsJump(op, when) && JumpStage(0, s, s0, op, when)
    ensures JumpStage(1, Edge(rom, pins, s, x), s0, op, when)
  {
    hide GetByte, SetByte, Edge, Micro, Dec, AluNow, Hi, Lo;
    ExecuteEdge(s, op, 0, rom, pins, x);
  }

  lemma JumpEdge1(s: Chip, s0: Chip, op: Op, when: Condition, rom: Rom, pins: Pins, x: Noise)
    requires IsJump(op, when) && JumpStage(1, s, s0, op, when)
    ensures JumpStage(2, Edge(rom, pins, s, x), s0, op, when)
  {
    hide GetByte, SetByte, Edge, Micro, Dec, AluNow, Join, Hi, Lo, PcSAdd, JumpOffset, Taken;
    AluTarget(s, x, s0.c.pc, JumpOffset(when, s0.c));
    ExecuteEdge(s, op, 1, rom, pins, x);
  }

  lemma JumpRuns(s0: Chip, op: Op, when: Condition, rom: Rom, pins: Pins, xs: seq<Noise>)
    requires Executing(s0, op, 0) && Quiet(s0) && |xs| == 8 && IsJump(op, when)
    ensures Boundary(Run(rom, pins, s0, xs), Arch(PcSAdd(s0.c.pc, JumpOffset(when, s0.c)), s0.ram))
  {
    assert IdleFrom(op, 2) by { hide Micro, Taken; }
    hide IsJump, Edge, Boundary, Executing, SetByte, PcSAdd, Hi, Lo, IdleFrom, JumpOffset;
    var stage := (i: nat, s: Chip) => JumpStage(i, s, s0, op, when);
    forall j: nat, t: Chip | j < 2 && stage(j, t) ensures stage(j + 1, Edge(rom, pins, t, xs[j])) {
      if j == 0 { JumpEdge0(t, s0, op, when, rom, pins, xs[0]); } else { JumpEdge1(t, s0, op, when, rom, pins, xs[1]); }
    }
    ByStages(stage, 2, s0, op, rom, pins, xs, PcSAdd(s0.c.pc, JumpOffset(when, s0.c)), s0.ram);
  }

  // AJMP, LJMP: the target is known at once.
  ghost predicate IsGoto(op: Op, long: bool) {
    forall k: Ctl, n: Ctl, q: byte, out: AluOut :: Micro(op, k, n, q, out) == Goto(CallTarget(long, k), k, n)
  }

  lemma GotoRuns(s0: Chip, op: Op, long: bool, rom: Rom, pins: Pins, xs: seq<Noise>)
    requires Executing(s0, op, 0) && Quiet(s0) && |xs| == 8 && IsGoto(op, long)
    ensures Boundary(Run(rom, pins, s0, xs), Arch(CallTarget(long, s0.c), s0.ram))
  {
    assert IdleFrom(op, 1) by { hide Micro, CallTarget; }
    hide Edge, Boundary, SetByte, IdleFrom, CallTarget, Micro, Dec;
    var ys := xs[..1];
    RunOne(rom, pins, s0, ys);
    ExecuteEdge(s0, op, 0, rom, pins, ys[0]);
    hide IsGoto;
    Finish(s0, op, 1, rom, pins, xs, CallTarget(long, s0.c), s0.ram);
  }

  lemma NopRuns(s0: Chip, rom: Rom, pins: Pins, xs: seq<Noise>)
    requires Executing(s0, NOP, 0) && Quiet(s0) && |xs| == 8
    ensures Boundary(Run(rom, pins, s0, xs), Arch(s0.c.pc, s0.ram))
  {
    assert IdleFrom(NOP, 0);
    hide Edge, Boundary, IdleFrom, Executing;
    TailRuns(s0, NOP, 0, rom, pins, xs);
  }

  // ---------- exchanges ----------

  ghost predicate IsExchange(op: Op, direct: bool) {
    forall k: Ctl, n: Ctl, q: byte, out: AluOut :: Micro(op, k, n, q, out) == Exchange(Counter(direct, k), k, n, q)
  }

  predicate ExchangeStage(i: nat, s: Chip, s0: Chip, op: Op, at: byte, pins: Pins) {
    var m := SetByte(s0.ram, at, s0.c.acc);
    var v := GetByte(s0.ram, pins, at);
    && Stage(i, s, s0, op, if i <= 1 then s0.ram else if i == 2 then m else SetByte(m, R_ACC, v))
    && s.c.pc == s0.c.pc
    && (i == 1 ==> Reads(s, at))
    && (i != 1 ==> !s.c.ramRd) && (i == 0 ==> !s.c.ramWr)
    && (i == 2 ==> s.q == v)
  }

  lemma ExchangeEdge(i: nat, s: Chip, s0: Chip, op: Op, direct: bool, rom: Rom, pins: Pins, x: Noise)
    requires IsExchange(op, direct) && i < 3 && ExchangeStage(i, s, s0, op, Counter(direct, s0.c), pins)
    ensures ExchangeStage(i + 1, Edge(rom, pins, s, x), s0, op, Counter(direct, s0.c), pins)
  {
    assert Micro(op, s.c, StopReadWrite(s.c, x), s.q, AluNow(s, x)) == Exchange(Counter(direct, s.c), s.c, StopReadWrite(s.c, x), s.q);
    assert Counter(direct, s.c) == Counter(direct, s0.c);
    hide IsExchange, Counter, GetByte, SetByte, Edge, Micro, Dec, AluNow;
    ExecuteEdge(s, op, i, rom, pins, x);
    WriteSeen(s);
    hide RamAfter;
    WriteSeen(Edge(rom, pins, s, x));
  }

  lemma ExchangeRuns(s0: Chip, op: Op, direct: bool, rom: Rom, pins: Pins, xs: seq<Noise>)
    requires Executing(s0, op, 0) && Quiet(s0) && |xs| == 8 && IsExchange(op, direct) && s0.c.acc == GetAcc(s0.ram)
    ensures Boundary(Run(rom, pins, s0, xs), Arch(s0.c.pc, Exchanged(s0.ram, Counter(direct, s0.c), pins)))
  {
    assert IdleFrom(op, 3) by { hide Micro, Counter; }
    hide IsExchange, Edge, Boundary, Executing, SetByte, GetByte, IdleFrom, Counter;
    var stage := (i: nat, s: Chip) => ExchangeStage(i, s, s0, op, Counter(direct, s0.c), pins);
    forall j: nat, t: Chip | j < 3 && stage(j, t) ensures stage(j + 1, Edge(rom, pins, t, xs[j])) {
      ExchangeEdge(j, t, s0, op, direct, rom, pins, xs[j]);
    }
    ByStages(stage, 3, s0, op, rom, pins, xs, s0.c.pc, Exchanged(s0.ram, Counter(direct, s0.c), pins));
  }

  predicate ThroughStage(i: nat, s: Chip, s0: Chip, pins: Pins) {
    var at := GetByte(s0.ram, pins, Addr2(s0.c));
    var m := SetByte(s0.ram, at, s0.c.acc);
    var v := GetByte(s0.ram, pins, at);
    && Stage(i, s, s0, XCH_3, if i <= 3 then s0.ram else if i == 4 then m else SetByte(m, R_ACC, v))
    && s.c.pc == s0.c.pc
    && (i == 1 || i == 2 ==> Reads(s, Addr2(s0.c)))
    && (i == 3 ==> Reads(s, at))
    && (i == 2 || i == 3 ==> s.q == at)
    && (i == 4 ==> s.q == v)
    && (i == 0 || i >= 4 ==> !s.c.ramRd) && (i <= 3 ==> !s.c.ramWr)
  }

  lemma ThroughEdge(i: nat, s: Chip, s0: Chip, rom: Rom, pins: Pins, x: Noise)
    requires i < 5 && ThroughStage(i, s, s0, pins)
    ensures ThroughStage(i + 1, Edge(rom, pins, s, x), s0, pins)
  {
    assert Micro(XCH_3, s.c, StopReadWrite(s.c, x), s.q, AluNow(s, x)) == ExchangeThrough(s.c, StopReadWrite(s.c, x), s.q);
    assert Addr2(s.c) == Addr2(s0.c);
    hide Addr2, GetByte, SetByte, Edge, Micro, Dec, AluNow;
    ExecuteEdge(s, XCH_3, i, rom, pins, x);
    WriteSeen(s);
    hide RamAfter;
    WriteSeen(Edge(rom, pins, s, x));
  }

  lemma ThroughStarts(s0: Chip, pins: Pins)
    requires Executing(s0, XCH_3, 0) && Quiet(s0)
    ensures ThroughStage(0, s0, s0, pins)
  {
    hide Executing, SetByte, GetByte, Addr2;
  }

  lemma ThroughEnds(s: Chip, s0: Chip, pins: Pins)
    requires ThroughStage(5, s, s0, pins) && s0.c.acc == GetAcc(s0.ram)
    ensures Done(s, XCH_3, 5, s0.c.pc, Exchanged(s0.ram, GetByte(s0.ram, pins, Addr2(s0.c)), pins))
  {
    hide Executing, RamAfter, SetByte, GetByte, Addr2, GetAcc;
  }

  lemma ThroughRuns(s0: Chip, rom: Rom, pins: Pins, xs: seq<Noise>)
    requires Executing(s0, XCH_3, 0) && Quiet(s0) && |xs| == 8 && s0.c.acc == GetAcc(s0.ram)
    ensures Boundary(Run(rom, pins, s0, xs),
                     Arch(s0.c.pc, Exchanged(s0.ram, GetByte(s0.ram, pins, Addr2(s0.c)), pins)))
  {
    assert IdleFrom(XCH_3, 5);
    hide Edge, Boundary, Executing, SetByte, GetByte, IdleFrom, Addr2, GetAcc, ThroughStage;
    assert ThroughStage(0, s0, s0, pins) by { ThroughStarts(s0, pins); }
    var stage := (i: nat, s: Chip) => ThroughStage(i, s, s0, pins);
    hide ThroughStage, Done, Exchanged;
    forall t: Chip | stage(5, t) ensures Done(t, XCH_3, 5, s0.c.pc, Exchanged(s0.ram, GetByte(s0.ram, pins, Addr2(s0.c)), pins)) {
      ThroughEnds(t, s0, pins);
    }
    forall j: nat, t: Chip | j < 5 && stage(j, t) ensures stage(j + 1, Edge(rom, pins, t, xs[j])) {
      ThroughEdge(j, t, s0, rom, pins, xs[j]);
    }
    ByStages(stage, 5, s0, XCH_3, rom, pins, xs, s0.c.pc, Exchanged(s0.ram, GetByte(s0.ram, pins, Addr2(s0.c)), pins));
  }

  // MOV ((r)), acc.
  predicate StoreThroughStage(i: nat, s: Chip, s0: Chip, pins: Pins) {
    var at := GetByte(s0.ram, pins, Addr2(s0.c));
    && Stage(i, s, s0, MOV_13, if i <= 2 then s0.ram else SetByte(s0.ram, at, s0.c.acc))
    && s.c.pc == s0.c.pc
    && (i == 1 ==> Reads(s, Addr2(s0.c)))
    && (i == 2 ==> s.q == at)
    && (i != 1 ==> !s.c.ramRd) && (i <= 2 ==> !s.c.ramWr)
  }

  lemma StoreThroughEdge(i: nat, s: Chip, s0: Chip, rom: Rom, pins: Pins, x: Noise)
    requires i < 3 && StoreThroughStage(i, s, s0, pins)
    ensures StoreThroughStage(i + 1, Edge(rom, pins, s, x), s0, pins)
  {
    assert Micro(MOV_13, s.c, StopReadWrite(s.c, x), s.q, AluNow(s, x)) == StoreThrough(s.c, StopReadWrite(s.c, x), s.q);
    assert Addr2(s.c) == Addr2(s0.c);
    hide Addr2, GetByte, SetByte, Edge, Micro, Dec, AluNow;
    ExecuteEdge(s, MOV_13, i, rom, pins, x);
    WriteSeen(s);
    hide RamAfter;
    WriteSeen(Edge(rom, pins, s, x));
  }

  lemma StoreThroughRuns(s0: Chip, rom: Rom, pins: Pins, xs: seq<Noise>)
    requires Executing(s0, MOV_13, 0) && Quiet(s0) && |xs| == 8
    ensures Boundary(Run(rom, pins, s0, xs),
                     Arch(s0.c.pc, SetByte(s0.ram, GetByte(s0.ram, pins, Addr2(s0.c)), s0.c.acc)))
  {
    assert IdleFrom(MOV_13, 3);
    hide Edge, Boundary, Executing, SetByte, GetByte, IdleFrom, Addr2;
    var stage := (i: nat, s: Chip) => StoreThroughStage(i, s, s0, pins);
    forall j: nat, t: Chip | j < 3 && stage(j, t) ensures stage(j + 1, Edge(rom, pins, t, xs[j])) {
      StoreThroughEdge(j, t, s0, rom, pins, xs[j]);
    }
    ByStages(stage, 3, s0, MOV_13, rom, pins, xs, s0.c.pc, SetByte(s0.ram, GetByte(s0.ram, pins, Addr2(s0.c)), s0.c.acc));
  }

  // ---------- MUL, DIV and DA ----------

  predicate Multiplies(c: Ctl, quotient: bool, a: byte, v: byte) {
    c.aluOp == (if quotient then AluDiv else AluMul) && c.src1 == a && c.src2 == v
  }

  ghost predicate IsProduct(op: Op, quotient: bool) {
    forall k: Ctl, n: Ctl, q: byte, out: AluOut ::
      Micro(op, k, n, q, out) == Product(if quotient then AluDiv else AluMul, k, n, q, out)
  }

  // The results; any stands for what a division by zero gives.
  function ProductLow(quotient: bool, a: byte, v: byte, any: word): byte {
    if !quotient then Lo(DoMul(a, v)) else if v == 0 then Lo(any) else a / v
  }

  function ProductHigh(quotient: bool, a: byte, v: byte, any: word): byte {
    if !quotient then Hi(DoMul(a, v)) else if v == 0 then Hi(any) else a % v
  }

  predicate ProductOverflow(quotient: bool, a: byte, v: byte) {
    if quotient then v == 0 else DoMul(a, v) > 0xFF
  }

  lemma HighByte(w: word)
    ensures Hi(w) != 0 <==> w > 0xFF
  {}

  lemma AluProduct(s: Chip, x: Noise, quotient: bool, a: byte, v: byte, any: word)
    requires Multiplies(s.c, quotient, a, v)
    ensures var o := AluNow(s, x);
      && ((quotient && v == 0) || (o.d1 == ProductLow(quotient, a, v, any) && o.d2 == ProductHigh(quotient, a, v, any)))
      && o.ov == ProductOverflow(quotient, a, v)
  {
    HighByte(DoMul(a, v));
    hide DoMul, DoAdd, DoSub, DoDa, PcSAdd, PcUAdd, Join, Hi, Lo;
  }

  predicate ProductStage(i: nat, s: Chip, s0: Chip, op: Op, quotient: bool, any: word) {
    var a, v := s0.c.acc, s0.ram.sfr.b;
    var psw := s0.c.psw.(ov := ProductOverflow(quotient, a, v));
    var m1 := SetByte(s0.ram, R_ACC, ProductLow(quotient, a, v, any));
    var m2 := SetByte(m1, R_B, ProductHigh(quotient, a, v, any));
    && Executing(s, op, i) && SameBytes(s.c, s0.c) && s.c.acc == a && s.c.pc == s0.c.pc
    && s.c.psw == (if i <= 4 then s0.c.psw else psw)
    && RamAfter(s) == (if i <= 4 then s0.ram else if i == 5 then m1 else if i == 6 then m2 else SetPsw(m2, psw))
    && (i == 1 ==> Reads(s, R_B))
    && (i == 2 ==> s.q == v)
    && (3 <= i <= 5 ==> Multiplies(s.c, quotient, a, v))
    && (i != 1 ==> !s.c.ramRd) && (i <= 4 ==> !s.c.ramWr)
  }

  // The undefined bytes of a division by zero, as the ALU gives them when they are stored.
  predicate Given(i: nat, x: Noise, any: word) {
    (i == 4 ==> x.alu.d1 == Lo(any)) && (i == 5 ==> x.alu.d2 == Hi(any))
  }

  lemma ReadB(m: Ram, pins: Pins)
    ensures GetByte(m, pins, R_B) == m.sfr.b
  {}

  lemma ByZero(s: Chip, x: Noise, a: byte)
    requires Multiplies(s.c, true, a, 0)
    ensures AluNow(s, x).d1 == x.alu.d1 && AluNow(s, x).d2 == x.alu.d2
  {
    hide DoMul, DoAdd, DoSub, DoDa, PcSAdd, PcUAdd, Join, Hi, Lo;
  }

  // The ALU's two bytes and its overflow when they are stored.
  lemma ProductOut(i: nat, s: Chip, s0: Chip, op: Op, quotient: bool, x: Noise, any: word)
    requires 4 <= i <= 5 && ProductStage(i, s, s0, op, quotient, any) && Given(i, x, any)
    ensures var o, a, v := AluNow(s, x), s0.c.acc, s0.ram.sfr.b;
      && o.ov == ProductOverflow(quotient, a, v)
      && (i == 4 ==> o.d1 == ProductLow(quotient, a, v, any))
      && (i == 5 ==> o.d2 == ProductHigh(quotient, a, v, any))
  {
    hide Executing, RamAfter, ProductOverflow, DoMul, SetByte, AluNow;
    AluProduct(s, x, quotient, s0.c.acc, s0.ram.sfr.b, any);
    if quotient && s0.ram.sfr.b == 0 { ByZero(s, x, s0.c.acc); }
  }

  // The first half asks for the second factor...
  lemma ProductAsks(i: nat, s: Chip, s0: Chip, op: Op, quotient: bool, rom: Rom, pins: Pins, x: Noise, any: word)
    requires IsProduct(op, quotient) && i < 2 && ProductStage(i, s, s0, op, quotient, any)
    ensures ProductStage(i + 1, Edge(rom, pins, s, x), s0, op, quotient, any)
  {
    var n := StopReadWrite(s.c, x);
    ProductMicro(op, quotient, s.c, n, s.q, AluNow(s, x));
    hide IsProduct, GetByte, SetByte, Edge, Micro, Dec, AluNow, ToByte, SetPsw, ProductLow, ProductHigh, ProductOverflow;
    assert i == 1 ==> GetByte(s.ram, pins, R_B) == s.ram.sfr.b by { ReadB(s.ram, pins); }
    assert Micro(op, s.c, n, s.q, AluNow(s, x)) == if i == 0 then StartRead(n, R_B) else n;
    hide Product;
    ExecuteEdge(s, op, i, rom, pins, x);
    WriteSeen(s);
    hide RamAfter;
    WriteSeen(Edge(rom, pins, s, x));
  }

  // ...and gives the ALU its time.
  lemma ProductWaits(i: nat, s: Chip, s0: Chip, op: Op, quotient: bool, rom: Rom, pins: Pins, x: Noise, any: word)
    requires IsProduct(op, quotient) && 2 <= i < 4 && ProductStage(i, s, s0, op, quotient, any)
    ensures ProductStage(i + 1, Edge(rom, pins, s, x), s0, op, quotient, any)
  {
    var n := StopReadWrite(s.c, x);
    ProductMicro(op, quotient, s.c, n, s.q, AluNow(s, x));
    hide IsProduct, GetByte, SetByte, Edge, Micro, Dec, AluNow, ToByte, SetPsw, ProductLow, ProductHigh, ProductOverflow;
    var alu := if quotient then AluDiv else AluMul;
    assert Micro(op, s.c, n, s.q, AluNow(s, x)) == if i == 2 then n.(aluOp := alu, src1 := s.c.acc, src2 := s.q) else n;
    hide Product;
    ExecuteEdge(s, op, i, rom, pins, x);
    WriteSeen(s);
    hide RamAfter;
    WriteSeen(Edge(rom, pins, s, x));
  }

  lemma ProductMicro(op: Op, quotient: bool, k: Ctl, n: Ctl, q: byte, out: AluOut)
    requires IsProduct(op, quotient)
    ensures Micro(op, k, n, q, out) == Product(if quotient then AluDiv else AluMul, k, n, q, out)
  {}

  // The second half stores.
  lemma ProductLate(i: nat, s: Chip, s0: Chip, op: Op, quotient: bool, rom: Rom, pins: Pins, x: Noise, any: word)
    requires IsProduct(op, quotient) && 4 <= i < 7 && ProductStage(i, s, s0, op, quotient, any) && Given(i, x, any)
    ensures ProductStage(i + 1, Edge(rom, pins, s, x), s0, op, quotient, any)
  {
    if i < 6 { ProductOut(i, s, s0, op, quotient, x, any); }
    ProductMicro(op, quotient, s.c, StopReadWrite(s.c, x), s.q, AluNow(s, x));
    hide Given, IsProduct, GetByte, SetByte, Edge, Micro, Dec, AluNow, ToByte, ProductLow, ProductHigh, ProductOverflow, RamAfter;
    ExecuteEdge(s, op, i, rom, pins, x);
    WriteSeen(Edge(rom, pins, s, x));
  }

  lemma ProductEnds(s: Chip, s0: Chip, op: Op, quotient: bool, any: word)
    requires ProductStage(7, s, s0, op, quotient, any) && s0.c.acc == GetAcc(s0.ram) && s0.c.psw == GetPsw(s0.ram)
    ensures Done(s, op, 7, s0.c.pc, ProductRam(s0.ram, s0.ram.sfr.b, quotient, any))
  {
    ProductParts(s0.ram, s0.ram.sfr.b, quotient, any);
    hide Executing, RamAfter, SetByte, SetPsw, GetPsw, ProductLow, ProductHigh, ProductOverflow, ProductRam;
  }

  lemma ProductParts(m: Ram, v: byte, quotient: bool, any: word)
    ensures ProductRam(m, v, quotient, any)
         == SetPsw(SetByte(SetByte(m, R_ACC, ProductLow(quotient, GetAcc(m), v, any)), R_B, ProductHigh(quotient, GetAcc(m), v, any)),
                   GetPsw(m).(ov := ProductOverflow(quotient, GetAcc(m), v)))
  {
    hide SetByte, SetPsw, GetPsw, DoMul, Hi, Lo;
  }

  lemma ProductStarts(s0: Chip, op: Op, quotient: bool, any: word)
    requires Executing(s0, op, 0) && Quiet(s0)
    ensures ProductStage(0, s0, s0, op, quotient, any)
  {
    hide ProductLow, ProductHigh, ProductOverflow, SetByte, SetPsw, Executing;
  }

  lemma ProductIdle(op: Op, quotient: bool)
    requires IsProduct(op, quotient)
    ensures IdleFrom(op, 7)
  {
    hide Micro;
  }

  lemma ProductGiven(s0: Chip, op: Op, quotient: bool, rom: Rom, pins: Pins, xs: seq<Noise>, any: word)
    requires Executing(s0, op, 0) && Quiet(s0) && |xs| == 8 && IsProduct(op, quotient)
    requires s0.c.acc == GetAcc(s0.ram) && s0.c.psw == GetPsw(s0.ram)
    requires Given(4, xs[4], any) && Given(5, xs[5], any)
    ensures Boundary(Run(rom, pins, s0, xs), Arch(s0.c.pc, ProductRam(s0.ram, s0.ram.sfr.b, quotient, any)))
  {
    ProductStarts(s0, op, quotient, any);
    ProductIdle(op, quotient);
    assert forall j: nat :: j < 8 ==> Given(j, xs[j], any);
    var stage := (i: nat, s: Chip) => ProductStage(i, s, s0, op, quotient, any);
    hide IsProduct, Edge, Boundary, Executing, ProductStage, ProductRam, IdleFrom, GetPsw, Done, Given;
    forall j: nat, t: Chip | j < 7 && stage(j, t) ensures stage(j + 1, Edge(rom, pins, t, xs[j])) {
      if j < 2 {
        ProductAsks(j, t, s0, op, quotient, rom, pins, xs[j], any);
      } else if j < 4 {
        ProductWaits(j, t, s0, op, quotient, rom, pins, xs[j], any);
      } else {
        ProductLate(j, t, s0, op, quotient, rom, pins, xs[j], any);
      }
    }
    forall t: Chip | stage(7, t) ensures Done(t, op, 7, s0.c.pc, ProductRam(s0.ram, s0.ram.sfr.b, quotient, any)) {
      ProductEnds(t, s0, op, quotient, any);
    }
    ByStages(stage, 7, s0, op, rom, pins, xs, s0.c.pc, ProductRam(s0.ram, s0.ram.sfr.b, quotient, any));
  }

  lemma Pair(low: byte, high: byte) returns (w: word)
    ensures Lo(w) == low && Hi(w) == high
  {
    JoinSplits(high, low, 0);
    return Join(high, low);
  }

  // MUL and DIV, with the bytes a division by zero leaves.
  lemma ProductRuns(s0: Chip, op: Op, quotient: bool, rom: Rom, pins: Pins, xs: seq<Noise>) returns (any: word)
    requires Executing(s0, op, 0) && Quiet(s0) && |xs| == 8 && IsProduct(op, quotient)
    requires s0.c.acc == GetAcc(s0.ram) && s0.c.psw == GetPsw(s0.ram)
    ensures Boundary(Run(rom, pins, s0, xs), Arch(s0.c.pc, ProductRam(s0.ram, s0.ram.sfr.b, quotient, any)))
  {
    hide IsProduct, Boundary, Executing, ProductRam, GetPsw, Run, Hi, Lo, Join;
    any := Pair(xs[4].alu.d1, xs[5].alu.d2);
    ProductGiven(s0, op, quotient, rom, pins, xs, any);
  }

  predicate AdjustStage(i: nat, s: Chip, s0: Chip) {
    var d := DoDa(s0.c.acc, s0.c.psw.cy, s0.c.psw.ac);
    var psw := s0.c.psw.(cy := d.cy);
    var m := SetByte(s0.ram, R_ACC, d.r);
    && Executing(s, DA, i) && SameBytes(s.c, s0.c) && s.c.acc == s0.c.acc && s.c.pc == s0.c.pc
    && s.c.psw == (if i <= 1 then s0.c.psw else psw)
    && RamAfter(s) == (if i <= 1 then s0.ram else if i == 2 then m else SetPsw(m, psw))
    && (i == 1 ==> s.c.aluOp.AluDa? && s.c.src1 == s0.c.acc && s.c.srcCy == s0.c.psw.cy && s.c.srcAc == s0.c.psw.ac)
    && !s.c.ramRd && (i <= 1 ==> !s.c.ramWr)
  }

  lemma AluAdjust(s: Chip, x: Noise)
    requires s.c.aluOp.AluDa?
    ensures var o, d := AluNow(s, x), DoDa(s.c.src1, s.c.srcCy, s.c.srcAc);
      o.d1 == d.r && o.cy == d.cy
  {
    hide DoMul, DoAdd, DoSub, DoDa, PcSAdd, PcUAdd, Join, Hi, Lo;
  }

  lemma AdjustEdge(i: nat, s: Chip, s0: Chip, rom: Rom, pins: Pins, x: Noise)
    requires i < 3 && AdjustStage(i, s, s0)
    ensures AdjustStage(i + 1, Edge(rom, pins, s, x), s0)
  {
    assert Micro(DA, s.c, StopReadWrite(s.c, x), s.q, AluNow(s, x)) == Adjust(s.c, StopReadWrite(s.c, x), AluNow(s, x));
    hide GetByte, SetByte, Edge, Micro, Dec, AluNow, DoDa, ToByte;
    if i == 1 { AluAdjust(s, x); }
    ExecuteEdge(s, DA, i, rom, pins, x);
    WriteSeen(s);
    hide RamAfter;
    WriteSeen(Edge(rom, pins, s, x));
  }

  lemma AdjustRuns(s0: Chip, rom: Rom, pins: Pins, xs: seq<Noise>)
    requires Executing(s0, DA, 0) && Quiet(s0) && |xs| == 8
    requires s0.c.acc == GetAcc(s0.ram) && s0.c.psw == GetPsw(s0.ram)
    ensures Boundary(Run(rom, pins, s0, xs), Arch(s0.c.pc, DecimalRam(s0.ram)))
  {
    assert IdleFrom(DA, 3);
    hide Edge, Boundary, Executing, SetByte, GetByte, IdleFrom, DoDa, ToByte, FromByte;
    var stage := (i: nat, s: Chip) => AdjustStage(i, s, s0);
    forall j: nat, t: Chip | j < 3 && stage(j, t) ensures stage(j + 1, Edge(rom, pins, t, xs[j])) {
      AdjustEdge(j, t, s0, rom, pins, xs[j]);
    }
    ByStages(stage, 3, s0, DA, rom, pins, xs, s0.c.pc, DecimalRam(s0.ram));
  }
}
