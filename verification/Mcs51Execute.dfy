// The eight clocks of the execution: each family of micro-sequences leaves what its register transfers
// say. An operand is loaded, the transfers are made, and the remaining clocks let the last write through.
module Mcs51Execute {
  import opened Mcs51Alu
  import opened Mcs51Ram
  import opened Mcs51Isa
  import opened Mcs51Controller
  import opened Mcs51Fetch

  // ES_e of an instruction of class op.
  predicate Executing(s: Chip, op: Op, e: nat) {
    s.c.cpu.CS_3? && s.c.exe == e && Dec(s.c.op1).op == op && !op.NoCase? && !op.Other?
  }

  predicate SameBytes(k: Ctl, l: Ctl) {
    k.op1 == l.op1 && k.op2 == l.op2 && k.op3 == l.op3
  }

  // The registers an instruction works on.
  predicate SameRegisters(k: Ctl, l: Ctl) {
    SameBytes(k, l) && k.pc == l.pc && k.acc == l.acc && k.psw == l.psw
  }

  lemma ExecuteEdge(s: Chip, op: Op, e: nat, rom: Rom, pins: Pins, x: Noise)
    requires Executing(s, op, e) && e < 7
    ensures var r := Edge(rom, pins, s, x);
      && r.c == Micro(op, s.c, StopReadWrite(s.c, x), s.q, AluNow(s, x)).(exe := e + 1)
      && r.ram == RamAfter(s)
      && r.q == (if s.c.ramRd then GetByte(s.ram, pins, s.c.ramAddr) else s.q)
  {
    hide Micro, GetByte, SetByte, Alu, Dec;
  }

  // ---------- loading ----------

  ghost predicate Loads(op: Op, mode: Mode) {
    forall k: Ctl, n: Ctl, q: byte, out: AluOut :: k.exe < Delay(mode) ==> Micro(op, k, n, q, out) == Load(mode, k, n, q)
  }

  function OperandOf(mode: Mode, s: Chip, pins: Pins): byte {
    match mode
    case Imm => s.c.op2
    case Reg => GetByte(s.ram, pins, Addr1(s.c))
    case Dir => GetByte(s.ram, pins, s.c.op2)
    case Ind => GetByte(s.ram, pins, GetByte(s.ram, pins, Addr2(s.c)))
  }

  function LoadedByte(mode: Mode, s: Chip): byte {
    if mode.Imm? then s.c.op2 else s.q
  }

  lemma RunTwo(rom: Rom, pins: Pins, s: Chip, xs: seq<Noise>)
    requires |xs| == 2
    ensures Run(rom, pins, s, xs) == Edge(rom, pins, Edge(rom, pins, s, xs[0]), xs[1])
  {
    hide Edge;
    assert xs[1..][1..] == [];
    assert Run(rom, pins, Edge(rom, pins, Edge(rom, pins, s, xs[0]), xs[1]), []) == Edge(rom, pins, Edge(rom, pins, s, xs[0]), xs[1]);
  }

  // After its delay an operand has arrived, and nothing else has changed.
  predicate Loaded(mode: Mode, op: Op, s: Chip, r: Chip, pins: Pins) {
    && Executing(r, op, Delay(mode)) && Quiet(r) && r.ram == s.ram && SameRegisters(r.c, s.c)
    && LoadedByte(mode, r) == OperandOf(mode, s, pins)
  }

  // One request and the edge that answers it.
  lemma Request(s: Chip, op: Op, mode: Mode, e: nat, a: byte, rom: Rom, pins: Pins, x: Noise, y: Noise)
    requires Executing(s, op, e) && Quiet(s) && Loads(op, mode) && e + 1 < Delay(mode)
    requires forall n: Ctl :: Load(mode, s.c, n, s.q) == StartRead(n, a)
    requires e == 0 || e == 2
    ensures var r := Edge(rom, pins, Edge(rom, pins, s, x), y);
      && Executing(r, op, e + 2) && Quiet(r) && r.ram == s.ram && SameRegisters(r.c, s.c)
      && r.q == GetByte(s.ram, pins, a)
  {
    ExecuteEdge(s, op, e, rom, pins, x);
    var s1 := Edge(rom, pins, s, x);
    hide Edge, Micro, GetByte, SetByte, AluNow, Dec;
    assert s1.c == StartRead(StopReadWrite(s.c, x), a).(exe := e + 1);
    ExecuteEdge(s1, op, e + 1, rom, pins, y);
    assert Load(mode, s1.c, StopReadWrite(s1.c, y), s1.q) == StopReadWrite(s1.c, y);
  }

  lemma LoadRuns(s: Chip, op: Op, mode: Mode, rom: Rom, pins: Pins, xs: seq<Noise>)
    requires Executing(s, op, 0) && Quiet(s) && Loads(op, mode) && |xs| == Delay(mode)
    ensures Loaded(mode, op, s, Run(rom, pins, s, xs), pins)
  {
    hide Edge, GetByte, Dec, Loads;
    match mode
    case Imm =>
    case Reg =>
      Request(s, op, mode, 0, Addr1(s.c), rom, pins, xs[0], xs[1]);
      RunTwo(rom, pins, s, xs);
    case Dir =>
      Request(s, op, mode, 0, s.c.op2, rom, pins, xs[0], xs[1]);
      RunTwo(rom, pins, s, xs);
    case Ind =>
      Request(s, op, mode, 0, Addr2(s.c), rom, pins, xs[0], xs[1]);
      RunTwo(rom, pins, s, xs[..2]);
      var t := Run(rom, pins, s, xs[..2]);
      Request(t, op, mode, 2, t.q, rom, pins, xs[2], xs[3]);
      RunTwo(rom, pins, t, xs[2..]);
      RunConcat(rom, pins, s, xs[..2], xs[2..]);
      assert xs[..2] + xs[2..] == xs;
  }

  // ---------- the remaining clocks ----------

  ghost predicate IdleFrom(op: Op, e: nat) {
    forall k: Ctl, n: Ctl, q: byte, out: AluOut :: k.exe >= e ==> Micro(op, k, n, q, out) == n
  }

  lemma FinishEdge(s: Chip, op: Op, rom: Rom, pins: Pins, x: Noise)
    requires Executing(s, op, 7)
    ensures Boundary(Edge(rom, pins, s, x), Arch(s.c.pc, RamAfter(s)))
  {
    hide Micro, GetByte, SetByte, Alu, Dec;
  }

  // The write still pending goes through, and the chip is at the next instruction boundary.
  lemma {:induction false} TailRuns(s: Chip, op: Op, e: nat, rom: Rom, pins: Pins, xs: seq<Noise>)
    requires Executing(s, op, e) && e <= 7 && !s.c.ramRd && |xs| == 8 - e && IdleFrom(op, e)
    ensures Boundary(Run(rom, pins, s, xs), Arch(s.c.pc, RamAfter(s)))
    decreases 8 - e
  {
    hide Edge, Micro, GetByte, SetByte, AluNow, Dec, Boundary;
    var t := Edge(rom, pins, s, xs[0]);
    if e < 7 {
      ExecuteEdge(s, op, e, rom, pins, xs[0]);
      assert t.c == StopReadWrite(s.c, xs[0]).(exe := e + 1);
      TailRuns(t, op, e + 1, rom, pins, xs[1..]);
    } else {
      FinishEdge(s, op, rom, pins, xs[0]);
      assert xs[1..] == [];
    }
  }

  // ---------- transfers ----------

  // What a family has done by ES_e: its last write may still be pending.
  predicate Done(s: Chip, op: Op, e: nat, pc: word, ram: Ram) {
    Executing(s, op, e) && !s.c.ramRd && s.c.pc == pc && RamAfter(s) == ram
  }

  // A family's eight clocks from those of the load and of its transfers.
  lemma Finish(s: Chip, op: Op, e: nat, rom: Rom, pins: Pins, xs: seq<Noise>, pc: word, ram: Ram)
    requires e <= 7 && |xs| == 8 && Done(Run(rom, pins, s, xs[..e]), op, e, pc, ram) && IdleFrom(op, e)
    ensures Boundary(Run(rom, pins, s, xs), Arch(pc, ram))
  {
    hide IdleFrom, Boundary, Executing;
    TailRuns(Run(rom, pins, s, xs[..e]), op, e, rom, pins, xs[e..]);
    RunConcat(rom, pins, s, xs[..e], xs[e..]);
    assert xs[..e] + xs[e..] == xs;
  }

  lemma RunOne(rom: Rom, pins: Pins, s: Chip, xs: seq<Noise>)
    requires |xs| == 1
    ensures Run(rom, pins, s, xs) == Edge(rom, pins, s, xs[0])
  {
    hide Edge;
    assert xs[1..] == [];
    assert Run(rom, pins, Edge(rom, pins, s, xs[0]), []) == Edge(rom, pins, s, xs[0]);
  }

  lemma RunThree(rom: Rom, pins: Pins, s: Chip, xs: seq<Noise>)
    requires |xs| == 3
    ensures Run(rom, pins, s, xs) == Edge(rom, pins, Edge(rom, pins, Edge(rom, pins, s, xs[0]), xs[1]), xs[2])
  {
    hide Edge;
    RunTwo(rom, pins, Edge(rom, pins, s, xs[0]), xs[1..]);
  }

  // After the load: d edges of transfers.
  lemma LoadThen(s: Chip, op: Op, mode: Mode, d: nat, rom: Rom, pins: Pins, xs: seq<Noise>)
    returns (t: Chip, ys: seq<Noise>)
    requires Executing(s, op, 0) && Quiet(s) && Loads(op, mode) && |xs| == 8 && d <= 3
    ensures Loaded(mode, op, s, t, pins) && |ys| == d
    ensures ys == xs[Delay(mode)..Delay(mode) + d]
    ensures Run(rom, pins, s, xs[..Delay(mode) + d]) == Run(rom, pins, t, ys)
  {
    var l := Delay(mode);
    hide Loaded, Loads, Executing, Edge;
    LoadRuns(s, op, mode, rom, pins, xs[..l]);
    t, ys := Run(rom, pins, s, xs[..l]), xs[l..l + d];
    RunConcat(rom, pins, s, xs[..l], ys);
    assert xs[..l] + ys == xs[..l + d];
  }

  // ADD, ADDC, SUBB.
  ghost predicate IsArith(op: Op, mode: Mode, alu: AluOp, withCarry: bool) {
    && (alu.AluAdd? || alu.AluSub?)
    && forall k: Ctl, n: Ctl, q: byte, out: AluOut ::
         Micro(op, k, n, q, out) == Arith(mode, alu, withCarry && k.psw.cy, k, n, q, out)
  }

  function ArithSum(alu: AluOp, acc: byte, v: byte, c: bool): Sum {
    if alu.AluAdd? then DoAdd(acc, v, c) else DoSub(acc, v, c)
  }

  function ArithRam(m: Ram, p: Psw, s: Sum): Ram {
    SetPsw(SetByte(m, R_ACC, s.r), p.(cy := s.cy, ac := s.ac, ov := s.ov))
  }

  lemma AluSum(s: Chip, x: Noise, alu: AluOp)
    requires s.c.aluOp == alu && (alu.AluAdd? || alu.AluSub?)
    ensures var o, sum := AluNow(s, x), ArithSum(alu, s.c.src1, s.c.src2, s.c.srcCy);
      o.d1 == sum.r && o.cy == sum.cy && o.ac == sum.ac && o.ov == sum.ov
  {
    hide DoAdd, DoSub, DoMul, DoDa, PcSAdd, PcUAdd, Join, Hi, Lo;
  }

  // The ALU is at the sum...
  lemma ArithEdge0(t: Chip, op: Op, mode: Mode, alu: AluOp, withCarry: bool, rom: Rom, pins: Pins, x: Noise, y: Noise)
    requires alu.AluAdd? || alu.AluSub?
    requires IsArith(op, mode, alu, withCarry) && Executing(t, op, Delay(mode)) && Quiet(t)
    ensures var r, sum := Edge(rom, pins, t, x), ArithSum(alu, t.c.acc, LoadedByte(mode, t), withCarry && t.c.psw.cy);
      && Done(r, op, Delay(mode) + 1, t.c.pc, t.ram) && r.c.psw == t.c.psw
      && (var o := AluNow(r, y); o.d1 == sum.r && o.cy == sum.cy && o.ac == sum.ac && o.ov == sum.ov)
  {
    hide AluNow, ArithSum, Edge, Micro, GetByte, SetByte, Dec, Load;
    var c := withCarry && t.c.psw.cy;
    var n := StopReadWrite(t.c, x);
    assert Micro(op, t.c, n, t.q, AluNow(t, x)) == Arith(mode, alu, c, t.c, n, t.q, AluNow(t, x));
    hide IsArith;
    assert Arith(mode, alu, c, t.c, n, t.q, AluNow(t, x)) == AluCy(n, alu, t.c.acc, LoadedByte(mode, t), c);
    hide Arith;
    ExecuteEdge(t, op, Delay(mode), rom, pins, x);
    AluSum(Edge(rom, pins, t, x), y, alu);
  }

  // ...which goes to the accumulator, its flags to the controller...
  lemma ArithEdge1(t: Chip, op: Op, mode: Mode, alu: AluOp, withCarry: bool, rom: Rom, pins: Pins, y: Noise)
    requires IsArith(op, mode, alu, withCarry) && Executing(t, op, Delay(mode) + 1) && !t.c.ramRd
    ensures var r, o := Edge(rom, pins, t, y), AluNow(t, y);
      && Done(r, op, Delay(mode) + 2, t.c.pc, SetByte(RamAfter(t), R_ACC, o.d1))
      && r.c.psw == t.c.psw.(cy := o.cy, ac := o.ac, ov := o.ov)
  {
    hide RamAfter, AluNow, Edge, Micro, GetByte, SetByte, Dec, Load;
    var o := AluNow(t, y);
    var c := withCarry && t.c.psw.cy;
    var n := StopReadWrite(t.c, y);
    var k := StartWrite(n, R_ACC, o.d1).(psw := t.c.psw.(cy := o.cy, ac := o.ac, ov := o.ov));
    assert Arith(mode, alu, c, t.c, n, t.q, o) == k;
    assert Micro(op, t.c, n, t.q, o) == Arith(mode, alu, c, t.c, n, t.q, o);
    hide Arith, IsArith;
    ExecuteEdge(t, op, Delay(mode) + 1, rom, pins, y);
    WriteSeen(Edge(rom, pins, t, y));
  }

  // ...and on to the status word.
  lemma ArithEdge2(t: Chip, op: Op, mode: Mode, alu: AluOp, withCarry: bool, rom: Rom, pins: Pins, z: Noise)
    requires IsArith(op, mode, alu, withCarry) && Executing(t, op, Delay(mode) + 2) && !t.c.ramRd
    ensures Done(Edge(rom, pins, t, z), op, Delay(mode) + 3, t.c.pc, SetPsw(RamAfter(t), t.c.psw))
  {
    hide RamAfter, AluNow, Edge, Micro, GetByte, SetByte, Dec, Load, ToByte;
    var c := withCarry && t.c.psw.cy;
    var n := StopReadWrite(t.c, z);
    assert Arith(mode, alu, c, t.c, n, t.q, AluNow(t, z)) == StartWrite(n, R_PSW, ToByte(t.c.psw));
    assert Micro(op, t.c, n, t.q, AluNow(t, z)) == Arith(mode, alu, c, t.c, n, t.q, AluNow(t, z));
    hide Arith, IsArith;
    ExecuteEdge(t, op, Delay(mode) + 2, rom, pins, z);
    WriteSeen(Edge(rom, pins, t, z));
  }

  lemma WriteSeen(r: Chip)
    ensures r.c.ramWr && !r.c.ramRd ==> RamAfter(r) == SetByte(r.ram, r.c.ramAddr, r.c.ramOut)
    ensures !r.c.ramWr ==> RamAfter(r) == r.ram
  {}

  lemma ArithEdges(t: Chip, op: Op, mode: Mode, alu: AluOp, withCarry: bool, rom: Rom, pins: Pins, x: Noise, y: Noise, z: Noise)
    requires IsArith(op, mode, alu, withCarry) && Executing(t, op, Delay(mode)) && Quiet(t)
    ensures var sum := ArithSum(alu, t.c.acc, LoadedByte(mode, t), withCarry && t.c.psw.cy);
      Done(Edge(rom, pins, Edge(rom, pins, Edge(rom, pins, t, x), y), z), op, Delay(mode) + 3,
           t.c.pc, ArithRam(t.ram, t.c.psw, sum))
  {
    assert alu.AluAdd? || alu.AluSub?;
    hide Edge, RamAfter, IsArith, AluNow, SetByte, ArithSum;
    var t1 := Edge(rom, pins, t, x);
    ArithEdge0(t, op, mode, alu, withCarry, rom, pins, x, y);
    ArithEdge1(t1, op, mode, alu, withCarry, rom, pins, y);
    ArithEdge2(Edge(rom, pins, t1, y), op, mode, alu, withCarry, rom, pins, z);
  }

  // The accumulator and the status word take the sum and its flags.
  lemma ArithRuns(s: Chip, op: Op, mode: Mode, alu: AluOp, withCarry: bool, rom: Rom, pins: Pins, xs: seq<Noise>)
    requires Executing(s, op, 0) && Quiet(s) && |xs| == 8
    requires Loads(op, mode) && IsArith(op, mode, alu, withCarry) && IdleFrom(op, Delay(mode) + 3)
    ensures var sum := ArithSum(alu, s.c.acc, OperandOf(mode, s, pins), withCarry && s.c.psw.cy);
      Boundary(Run(rom, pins, s, xs), Arch(s.c.pc, ArithRam(s.ram, s.c.psw, sum)))
  {
    hide Edge, Executing, Loads, IsArith, IdleFrom, Boundary, OperandOf, ArithSum, ArithRam, Done;
    var t, ys := LoadThen(s, op, mode, 3, rom, pins, xs);
    RunThree(rom, pins, t, ys);
    ArithEdges(t, op, mode, alu, withCarry, rom, pins, ys[0], ys[1], ys[2]);
    var sum := ArithSum(alu, s.c.acc, OperandOf(mode, s, pins), withCarry && s.c.psw.cy);
    Finish(s, op, Delay(mode) + 3, rom, pins, xs, s.c.pc, ArithRam(s.ram, s.c.psw, sum));
  }

  // CJNE. The left operand is the accumulator or the loaded byte, the right one the loaded byte or
  // the second byte of the instruction.
  datatype Sides = AccLoaded | AccConst | LoadedConst

  function LeftOf(sides: Sides, k: Ctl, q: byte): byte {
    if sides.LoadedConst? then q else k.acc
  }

  function RightOf(sides: Sides, k: Ctl, q: byte): byte {
    if sides.AccLoaded? then q else k.op2
  }

  ghost predicate IsCompare(op: Op, mode: Mode, sides: Sides) {
    forall k: Ctl, n: Ctl, q: byte, out: AluOut ::
      Micro(op, k, n, q, out) == CompareJump(mode, LeftOf(sides, k, q), RightOf(sides, k, q), k, n, q, out)
  }

  lemma AluTarget(s: Chip, x: Noise, pc: word, rel: byte)
    requires s.c.aluOp.AluPcSAdd? && s.c.src1 == Lo(pc) && s.c.src2 == Hi(pc) && s.c.src3 == rel
    ensures Join(AluNow(s, x).d2, AluNow(s, x).d1) == PcSAdd(pc, rel)
  {
    JoinSplits(0, 0, pc);
    hide PcSAdd;
    JoinSplits(0, 0, PcSAdd(pc, rel));
    hide Join, Hi, Lo;
  }

  lemma CompareEdge0(t: Chip, op: Op, mode: Mode, sides: Sides, rom: Rom, pins: Pins, x: Noise, y: Noise)
    requires IsCompare(op, mode, sides) && Executing(t, op, Delay(mode)) && Quiet(t)
    ensures var left, right := LeftOf(sides, t.c, t.q), RightOf(sides, t.c, t.q);
      var r := Edge(rom, pins, t, x);
      && Done(r, op, Delay(mode) + 1, t.c.pc, t.ram) && r.c.psw == t.c.psw.(cy := left < right)
      && Join(AluNow(r, y).d2, AluNow(r, y).d1) == PcSAdd(t.c.pc, if left != right then t.c.op3 else 0)
  {
    hide AluNow, LeftOf, RightOf, Join, Hi, Lo, PcSAdd;
    ExecuteEdge(t, op, Delay(mode), rom, pins, x);
    hide Edge, Micro, GetByte, SetByte, Dec, Load;
    var left, right := LeftOf(sides, t.c, t.q), RightOf(sides, t.c, t.q);
    AluTarget(Edge(rom, pins, t, x), y, t.c.pc, if left != right then t.c.op3 else 0);
  }

  lemma CompareEdge1(t: Chip, op: Op, mode: Mode, sides: Sides, rom: Rom, pins: Pins, y: Noise)
    requires IsCompare(op, mode, sides) && Executing(t, op, Delay(mode) + 1) && !t.c.ramRd
    ensures var r, o := Edge(rom, pins, t, y), AluNow(t, y);
      Done(r, op, Delay(mode) + 2, Join(o.d2, o.d1), RamAfter(t)) && r.c.psw == t.c.psw
  {
    hide RamAfter, AluNow, LeftOf, RightOf, Join;
    ExecuteEdge(t, op, Delay(mode) + 1, rom, pins, y);
    hide Edge, Micro, GetByte, SetByte, Dec, Load;
    WriteSeen(Edge(rom, pins, t, y));
  }

  lemma CompareEdge2(t: Chip, op: Op, mode: Mode, sides: Sides, rom: Rom, pins: Pins, z: Noise)
    requires IsCompare(op, mode, sides) && Executing(t, op, Delay(mode) + 2) && !t.c.ramRd
    ensures Done(Edge(rom, pins, t, z), op, Delay(mode) + 3, t.c.pc, SetPsw(RamAfter(t), t.c.psw))
  {
    hide RamAfter, AluNow, LeftOf, RightOf;
    ExecuteEdge(t, op, Delay(mode) + 2, rom, pins, z);
    hide Edge, Micro, GetByte, SetByte, Dec, Load, ToByte;
    WriteSeen(Edge(rom, pins, t, z));
  }

  lemma CompareEdges(t: Chip, op: Op, mode: Mode, sides: Sides, rom: Rom, pins: Pins, x: Noise, y: Noise, z: Noise)
    requires IsCompare(op, mode, sides) && Executing(t, op, Delay(mode)) && Quiet(t)
    ensures var left, right := LeftOf(sides, t.c, t.q), RightOf(sides, t.c, t.q);
      Done(Edge(rom, pins, Edge(rom, pins, Edge(rom, pins, t, x), y), z), op, Delay(mode) + 3,
           PcSAdd(t.c.pc, if left != right then t.c.op3 else 0), SetPsw(t.ram, t.c.psw.(cy := left < right)))
  {
    hide Edge, RamAfter, IsCompare, AluNow, SetPsw, PcSAdd, Join, LeftOf, RightOf;
    var t1 := Edge(rom, pins, t, x);
    CompareEdge0(t, op, mode, sides, rom, pins, x, y);
    CompareEdge1(t1, op, mode, sides, rom, pins, y);
    CompareEdge2(Edge(rom, pins, t1, y), op, mode, sides, rom, pins, z);
  }

  lemma CompareRuns(s: Chip, op: Op, mode: Mode, sides: Sides, rom: Rom, pins: Pins, xs: seq<Noise>)
    requires Executing(s, op, 0) && Quiet(s) && |xs| == 8 && (mode.Imm? <==> sides.AccConst?)
    requires Loads(op, mode) && IsCompare(op, mode, sides) && IdleFrom(op, Delay(mode) + 3)
    ensures var v := OperandOf(mode, s, pins);
      var left, right := LeftOf(sides, s.c, v), RightOf(sides, s.c, v);
      Boundary(Run(rom, pins, s, xs),
               Arch(PcSAdd(s.c.pc, if left != right then s.c.op3 else 0), SetPsw(s.ram, s.c.psw.(cy := left < right))))
  {
    hide Edge, Executing, Loads, IsCompare, IdleFrom, Boundary, OperandOf, Done, PcSAdd, SetPsw;
    var t, ys := LoadThen(s, op, mode, 3, rom, pins, xs);
    RunThree(rom, pins, t, ys);
    CompareEdges(t, op, mode, sides, rom, pins, ys[0], ys[1], ys[2]);
    var v := OperandOf(mode, s, pins);
    var left, right := LeftOf(sides, s.c, v), RightOf(sides, s.c, v);
    Finish(s, op, Delay(mode) + 3, rom, pins, xs, PcSAdd(s.c.pc, if left != right then s.c.op3 else 0),
           SetPsw(s.ram, s.c.psw.(cy := left < right)));
  }

  // DJNZ: dst is the address of the register or the second byte.
  ghost predicate IsCount(op: Op, mode: Mode, direct: bool) {
    forall k: Ctl, n: Ctl, q: byte, out: AluOut ::
      Micro(op, k, n, q, out) == CountJump(mode, Counter(direct, k), Offset(direct, k), k, n, q, out)
  }

  function Counter(direct: bool, k: Ctl): byte {
    if direct then k.op2 else Addr1(k)
  }

  function Offset(direct: bool, k: Ctl): byte {
    if direct then k.op3 else k.op2
  }

  function CountPc(pc: word, v: byte, rel: byte): word {
    PcSAdd(pc, if v != 0 then rel else 0)
  }

  lemma CountEdge0(t: Chip, op: Op, mode: Mode, direct: bool, rom: Rom, pins: Pins, x: Noise, y: Noise)
    requires IsCount(op, mode, direct) && Executing(t, op, Delay(mode)) && Quiet(t)
    ensures var r := Edge(rom, pins, t, x);
      && Done(r, op, Delay(mode) + 1, t.c.pc, t.ram) && SameRegisters(r.c, t.c)
      && AluNow(r, y).d1 == DoSub(t.q, 0, true).r
  {
    hide AluNow, Counter, Offset, Edge, Micro, GetByte, SetByte, Dec, Load, DoSub;
    var n := StopReadWrite(t.c, x);
    assert CountJump(mode, Counter(direct, t.c), Offset(direct, t.c), t.c, n, t.q, AluNow(t, x)) == AluCy(n, AluSub, t.q, 0, true);
    hide CountJump;
    ExecuteEdge(t, op, Delay(mode), rom, pins, x);
    AluSum(Edge(rom, pins, t, x), y, AluSub);
  }

  lemma CountEdge1(t: Chip, op: Op, mode: Mode, direct: bool, rom: Rom, pins: Pins, y: Noise, z: Noise)
    requires IsCount(op, mode, direct) && Executing(t, op, Delay(mode) + 1) && !t.c.ramRd
    ensures var r, v := Edge(rom, pins, t, y), AluNow(t, y).d1;
      && Done(r, op, Delay(mode) + 2, t.c.pc, SetByte(RamAfter(t), Counter(direct, t.c), v))
      && Join(AluNow(r, z).d2, AluNow(r, z).d1) == CountPc(t.c.pc, v, Offset(direct, t.c))
  {
    hide RamAfter, AluNow, Counter, Offset, Join, Hi, Lo, PcSAdd;
    ExecuteEdge(t, op, Delay(mode) + 1, rom, pins, y);
    hide Edge, Micro, GetByte, SetByte, Dec, Load;
    WriteSeen(Edge(rom, pins, t, y));
    AluTarget(Edge(rom, pins, t, y), z, t.c.pc, if AluNow(t, y).d1 != 0 then Offset(direct, t.c) else 0);
  }

  lemma CountEdge2(t: Chip, op: Op, mode: Mode, direct: bool, rom: Rom, pins: Pins, z: Noise)
    requires IsCount(op, mode, direct) && Executing(t, op, Delay(mode) + 2) && !t.c.ramRd
    ensures var o := AluNow(t, z);
      Done(Edge(rom, pins, t, z), op, Delay(mode) + 3, Join(o.d2, o.d1), RamAfter(t))
  {
    hide RamAfter, AluNow, Counter, Offset, Join;
    ExecuteEdge(t, op, Delay(mode) + 2, rom, pins, z);
    hide Edge, Micro, GetByte, SetByte, Dec, Load;
    WriteSeen(Edge(rom, pins, t, z));
  }

  lemma CountEdges(t: Chip, op: Op, mode: Mode, direct: bool, rom: Rom, pins: Pins, x: Noise, y: Noise, z: Noise)
    requires IsCount(op, mode, direct) && Executing(t, op, Delay(mode)) && Quiet(t)
    ensures var v := DoSub(t.q, 0, true).r;
      Done(Edge(rom, pins, Edge(rom, pins, Edge(rom, pins, t, x), y), z), op, Delay(mode) + 3,
           CountPc(t.c.pc, v, Offset(direct, t.c)), SetByte(t.ram, Counter(direct, t.c), v))
  {
    assert forall k: Ctl, l: Ctl :: SameRegisters(k, l) ==> Counter(direct, k) == Counter(direct, l) && Offset(direct, k) == Offset(direct, l);
    hide Edge, RamAfter, IsCount, AluNow, SetByte, Join, Counter, Offset, CountPc, DoSub;
    var t1 := Edge(rom, pins, t, x);
    CountEdge0(t, op, mode, direct, rom, pins, x, y);
    CountEdge1(t1, op, mode, direct, rom, pins, y, z);
    CountEdge2(Edge(rom, pins, t1, y), op, mode, direct, rom, pins, z);
  }

  lemma CountRuns(s: Chip, op: Op, mode: Mode, direct: bool, rom: Rom, pins: Pins, xs: seq<Noise>)
    requires Executing(s, op, 0) && Quiet(s) && |xs| == 8 && !mode.Imm?
    requires Loads(op, mode) && IsCount(op, mode, direct) && IdleFrom(op, Delay(mode) + 3)
    ensures var v := DoSub(OperandOf(mode, s, pins), 0, true).r;
      Boundary(Run(rom, pins, s, xs),
               Arch(CountPc(s.c.pc, v, Offset(direct, s.c)), SetByte(s.ram, Counter(direct, s.c), v)))
  {
    hide Edge, Executing, Loads, IsCount, IdleFrom, Boundary, OperandOf, Done, CountPc, SetByte, DoSub, Bank;
    var t, ys := LoadThen(s, op, mode, 3, rom, pins, xs);
    RunThree(rom, pins, t, ys);
    CountEdges(t, op, mode, direct, rom, pins, ys[0], ys[1], ys[2]);
    var v := DoSub(OperandOf(mode, s, pins), 0, true).r;
    Finish(s, op, Delay(mode) + 3, rom, pins, xs, CountPc(s.c.pc, v, Offset(direct, s.c)),
           SetByte(s.ram, Counter(direct, s.c), v));
  }

  // MOV. Where a byte goes, and which byte: the loaded one, or one the controller holds.
  datatype Target = ToAcc | ToRegister | ToSecond | ToThird
  datatype Source = FromLoad | FromAcc | FromSecond | FromThird

  function TargetOf(d: Target, k: Ctl): byte {
    match d case ToAcc => R_ACC case ToRegister => Addr1(k) case ToSecond => k.op2 case ToThird => k.op3
  }

  function SourceOf(f: Source, k: Ctl, q: byte): byte {
    match f case FromLoad => q case FromAcc => k.acc case FromSecond => k.op2 case FromThird => k.op3
  }

  ghost predicate IsStore(op: Op, mode: Mode, d: Target, f: Source) {
    forall k: Ctl, n: Ctl, q: byte, out: AluOut ::
      Micro(op, k, n, q, out) == Store(mode, TargetOf(d, k), SourceOf(f, k, q), k, n, q)
  }

  lemma StoreRuns(s: Chip, op: Op, mode: Mode, d: Target, f: Source, rom: Rom, pins: Pins, xs: seq<Noise>)
    requires Executing(s, op, 0) && Quiet(s) && |xs| == 8 && (f.FromLoad? ==> !mode.Imm?)
    requires Loads(op, mode) && IsStore(op, mode, d, f) && IdleFrom(op, Delay(mode) + 1)
    ensures Boundary(Run(rom, pins, s, xs),
                     Arch(s.c.pc, SetByte(s.ram, TargetOf(d, s.c), SourceOf(f, s.c, OperandOf(mode, s, pins)))))
  {
    hide Edge, Micro, Executing, Loads, IdleFrom, Boundary, OperandOf, SetByte, Bank;
    var t, ys := LoadThen(s, op, mode, 1, rom, pins, xs);
    RunOne(rom, pins, t, ys);
    var m := SetByte(s.ram, TargetOf(d, s.c), SourceOf(f, s.c, OperandOf(mode, s, pins)));
    assert Done(Edge(rom, pins, t, ys[0]), op, Delay(mode) + 1, s.c.pc, m) by {
      StoreEdge(t, op, mode, d, f, rom, pins, ys[0]);
    }
    hide Done;
    Finish(s, op, Delay(mode) + 1, rom, pins, xs, s.c.pc, m);
  }

  lemma StoreEdge(t: Chip, op: Op, mode: Mode, d: Target, f: Source, rom: Rom, pins: Pins, x: Noise)
    requires IsStore(op, mode, d, f) && Executing(t, op, Delay(mode)) && Quiet(t)
    ensures Done(Edge(rom, pins, t, x), op, Delay(mode) + 1, t.c.pc,
                 SetByte(t.ram, TargetOf(d, t.c), SourceOf(f, t.c, t.q)))
  {
    hide Edge, Micro, GetByte, SetByte, Dec, Load, AluNow, Bank, TargetOf, SourceOf;
    ExecuteEdge(t, op, Delay(mode), rom, pins, x);
  }
}
