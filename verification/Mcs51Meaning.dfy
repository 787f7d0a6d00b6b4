// What each instruction class means as register transfers, and that the eight clocks of its execution
// do exactly that.
module Mcs51Meaning {
  import opened Mcs51Alu
  import opened Mcs51Ram
  import opened Mcs51Isa
  import opened Mcs51Controller
  import opened Mcs51Fetch
  import opened Mcs51Execute
  import opened Mcs51Sequences
  import opened Mcs51Transfers

  // The operand a mode loads.
  function SourceOperand(mode: Mode, k: Ctl): Operand {
    match mode
    case Imm => Const(k.op2)
    case Reg => At(Addr1(k))
    case Dir => At(k.op2)
    case Ind => Through(Addr2(k))
  }

  function Meaning(op: Op, k: Ctl): Instr
    requires !op.NoCase? && !op.Other?
  {
    match op
    case ACALL => Acall(k.op1 / 0x20, k.op2)
    case ADD_1 => Add(SourceOperand(Reg, k), false)
    case ADD_2 => Add(SourceOperand(Dir, k), false)
    case ADD_3 => Add(SourceOperand(Ind, k), false)
    case ADD_4 => Add(SourceOperand(Imm, k), false)
    case ADDC_1 => Add(SourceOperand(Reg, k), true)
    case ADDC_2 => Add(SourceOperand(Dir, k), true)
    case ADDC_3 => Add(SourceOperand(Ind, k), true)
    case ADDC_4 => Add(SourceOperand(Imm, k), true)
    case AJMP => Ajmp(k.op1 / 0x20, k.op2)
    case CJNE_1 => CjneAcc(k.op2, k.op3)
    case CJNE_2 => Cjne(Acc, k.op2, k.op3)
    case CJNE_3 => Cjne(At(Addr1(k)), k.op2, k.op3)
    case CJNE_4 => Cjne(Through(Addr2(k)), k.op2, k.op3)
    case DA => Da
    case DIV => Div
    case DJNZ_1 => Djnz(Addr1(k), k.op2)
    case DJNZ_2 => Djnz(k.op2, k.op3)
    case JC => Branch(IfCarry, k.op2)
    case JNC => Branch(IfNoCarry, k.op2)
    case JNZ => Branch(IfNotZero, k.op2)
    case JZ => Branch(IfZero, k.op2)
    case LCALL => Lcall(Join(k.op2, k.op3))
    case LJMP => Ljmp(Join(k.op2, k.op3))
    case MOV_1 => Move(Acc, At(Addr1(k)))
    case MOV_2 => Move(Acc, At(k.op2))
    case MOV_3 => Move(Acc, Through(Addr2(k)))
    case MOV_4 => Move(Acc, Const(k.op2))
    case MOV_5 => Move(At(Addr1(k)), Acc)
    case MOV_6 => Move(At(Addr1(k)), At(k.op2))
    case MOV_7 => Move(At(Addr1(k)), Const(k.op2))
    case MOV_8 => Move(At(k.op2), Acc)
    case MOV_9 => Move(At(k.op2), At(Addr1(k)))
    case MOV_10 => Move(At(k.op3), At(k.op2))
    case MOV_11 => Move(At(k.op2), Through(Addr2(k)))
    case MOV_12 => Move(At(k.op2), Const(k.op3))
    case MOV_13 => Move(Through(Addr2(k)), Acc)
    case MUL => Mul
    case NOP => Nop
    case POP => Pop(k.op2)
    case PUSH => Push(k.op2)
    case RET => Ret
    case SJMP => Branch(Always, k.op2)
    case SUBB_1 => Subb(SourceOperand(Reg, k))
    case SUBB_2 => Subb(SourceOperand(Dir, k))
    case SUBB_3 => Subb(SourceOperand(Ind, k))
    case SUBB_4 => Subb(SourceOperand(Imm, k))
    case XCH_1 => Xch(At(Addr1(k)))
    case XCH_2 => Xch(At(k.op2))
    case XCH_3 => Xch(Through(Addr2(k)))
  }

  // The start of an execution: the accumulator and the status word are those of the memory.
  predicate Starts(s: Chip, op: Op, xs: seq<Noise>) {
    && Executing(s, op, 0) && Quiet(s) && s.c.acc == GetAcc(s.ram) && s.c.psw == GetPsw(s.ram) && |xs| == 8
  }

  // Eight clocks carry out i.
  predicate Means(s: Chip, i: Instr, rom: Rom, pins: Pins, xs: seq<Noise>, any: word) {
    Boundary(Run(rom, pins, s, xs), Exec(i, Arch(s.c.pc, s.ram), pins, any))
  }

  lemma LoadedValue(mode: Mode, s: Chip, pins: Pins)
    ensures Value(SourceOperand(mode, s.c), s.ram, pins) == OperandOf(mode, s, pins)
  {
    hide GetByte;
  }

  // ---------- ADD, ADDC, SUBB ----------

  lemma AddsTo(m: Ram, v: byte, c: bool)
    ensures ArithRam(m, GetPsw(m), DoAdd(GetAcc(m), v, c)) == AddTo(m, v, c)
  {
    AddIsAddition(GetAcc(m), v, c);
    AddOverflows(GetAcc(m), v, c);
    hide SetByte, DoAdd, Signed, ToByte, FromByte;
  }

  lemma SubtractsFrom(m: Ram, v: byte)
    ensures ArithRam(m, GetPsw(m), DoSub(GetAcc(m), v, GetPsw(m).cy)) == SubtractFrom(m, v)
  {
    var c := GetPsw(m).cy;
    SubIsSubtraction(GetAcc(m), v, c);
    SubOverflows(GetAcc(m), v, c);
    hide SetByte, DoSub, Signed, ToByte, FromByte;
  }

  lemma ArithMeans(s: Chip, op: Op, mode: Mode, alu: AluOp, withCarry: bool, rom: Rom, pins: Pins, xs: seq<Noise>, any: word)
    requires Starts(s, op, xs) && (alu.AluSub? ==> withCarry)
    requires Loads(op, mode) && IsArith(op, mode, alu, withCarry) && IdleFrom(op, Delay(mode) + 3)
    ensures Means(s, if alu.AluAdd? then Add(SourceOperand(mode, s.c), withCarry) else Subb(SourceOperand(mode, s.c)), rom, pins, xs, any)
  {
    hide Boundary, Run, Loads, IdleFrom, Executing, AddTo, SubtractFrom, ArithRam, DoAdd, DoSub, SourceOperand, OperandOf, Value, GetPsw;
    ArithRuns(s, op, mode, alu, withCarry, rom, pins, xs);
    var v := OperandOf(mode, s, pins);
    LoadedValue(mode, s, pins);
    if alu.AluAdd? {
      AddsTo(s.ram, v, withCarry && s.c.psw.cy);
    } else {
      SubtractsFrom(s.ram, v);
    }
  }

  function ArithMode(op: Op): Mode {
    match op
    case ADD_1 => Reg case ADDC_1 => Reg case SUBB_1 => Reg
    case ADD_2 => Dir case ADDC_2 => Dir case SUBB_2 => Dir
    case ADD_3 => Ind case ADDC_3 => Ind case SUBB_3 => Ind
    case _ => Imm
  }

  predicate IsAdd(op: Op) { op.ADD_1? || op.ADD_2? || op.ADD_3? || op.ADD_4? }
  predicate IsAddc(op: Op) { op.ADDC_1? || op.ADDC_2? || op.ADDC_3? || op.ADDC_4? }
  predicate IsSubb(op: Op) { op.SUBB_1? || op.SUBB_2? || op.SUBB_3? || op.SUBB_4? }

  lemma AddMicro(op: Op, k: Ctl, n: Ctl, q: byte, out: AluOut)
    requires IsAdd(op)
    ensures Micro(op, k, n, q, out) == Arith(ArithMode(op), AluAdd, false, k, n, q, out)
  {
    hide Arith;
  }

  lemma AddcMicro(op: Op, k: Ctl, n: Ctl, q: byte, out: AluOut)
    requires IsAddc(op)
    ensures Micro(op, k, n, q, out) == Arith(ArithMode(op), AluAdd, k.psw.cy, k, n, q, out) && !IsAdd(op)
  {
    hide Arith;
  }

  lemma SubbMicro(op: Op, k: Ctl, n: Ctl, q: byte, out: AluOut)
    requires IsSubb(op)
    ensures Micro(op, k, n, q, out) == Arith(ArithMode(op), AluSub, k.psw.cy, k, n, q, out) && !IsAdd(op)
  {
    hide Arith;
    match op
    case SUBB_1 => assert Micro(SUBB_1, k, n, q, out) == Arith(Reg, AluSub, k.psw.cy, k, n, q, out);
    case SUBB_2 => assert Micro(SUBB_2, k, n, q, out) == Arith(Dir, AluSub, k.psw.cy, k, n, q, out);
    case SUBB_3 => assert Micro(SUBB_3, k, n, q, out) == Arith(Ind, AluSub, k.psw.cy, k, n, q, out);
    case SUBB_4 => assert Micro(SUBB_4, k, n, q, out) == Arith(Imm, AluSub, k.psw.cy, k, n, q, out);
  }

  lemma NotBoth(op: Op)
    ensures IsAdd(op) || IsAddc(op) ==> !IsSubb(op)
  {}

  lemma ArithTable(op: Op)
    requires IsAdd(op) || IsAddc(op) || IsSubb(op)
    ensures IsArith(op, ArithMode(op), if IsSubb(op) then AluSub else AluAdd, !IsAdd(op))
  {
    NotBoth(op);
    hide Micro, Arith, ArithMode, IsAdd, IsAddc, IsSubb;
    forall k: Ctl, n: Ctl, q: byte, out: AluOut
      ensures Micro(op, k, n, q, out)
           == Arith(ArithMode(op), if IsSubb(op) then AluSub else AluAdd, !IsAdd(op) && k.psw.cy, k, n, q, out)
    {
      if IsAdd(op) { AddMicro(op, k, n, q, out); }
      else if IsAddc(op) { AddcMicro(op, k, n, q, out); }
      else { SubbMicro(op, k, n, q, out); }
    }
  }

  lemma ArithShape(op: Op, mode: Mode, alu: AluOp, withCarry: bool)
    requires IsArith(op, mode, alu, withCarry)
    ensures Loads(op, mode) && IdleFrom(op, Delay(mode) + 3)
  {
    hide Micro, Bank, ToByte, Load;
  }

  lemma ArithOps(s: Chip, op: Op, rom: Rom, pins: Pins, xs: seq<Noise>, any: word)
    requires Starts(s, op, xs) && (IsAdd(op) || IsAddc(op) || IsSubb(op))
    ensures Means(s, Meaning(op, s.c), rom, pins, xs, any)
  {
    hide Means, Starts, SourceOperand, Loads, IsArith, IdleFrom;
    ArithTable(op);
    ArithShape(op, ArithMode(op), if IsSubb(op) then AluSub else AluAdd, !IsAdd(op));
    ArithMeans(s, op, ArithMode(op), if IsSubb(op) then AluSub else AluAdd, !IsAdd(op), rom, pins, xs, any);
  }

  // ---------- CJNE and DJNZ ----------

  lemma NoOffset(pc: word)
    ensures PcSAdd(pc, 0) == pc
  {}

  predicate IsCjne(op: Op) { op.CJNE_1? || op.CJNE_2? || op.CJNE_3? || op.CJNE_4? }

  function CjneMode(op: Op): Mode {
    match op case CJNE_1 => Dir case CJNE_3 => Reg case CJNE_4 => Ind case _ => Imm
  }

  function CjneSides(op: Op): Sides {
    match op case CJNE_1 => AccLoaded case CJNE_2 => AccConst case _ => LoadedConst
  }

  lemma CjneTable(op: Op)
    requires IsCjne(op)
    ensures IsCompare(op, CjneMode(op), CjneSides(op))
  {
    hide CompareJump;
  }

  lemma CjneShape(op: Op, mode: Mode, sides: Sides)
    requires IsCompare(op, mode, sides)
    ensures Loads(op, mode) && IdleFrom(op, Delay(mode) + 3)
  {
    hide Micro, Bank, ToByte, Hi, Lo, Join, Load, LeftOf, RightOf;
  }

  lemma AccRead(m: Ram, pins: Pins)
    ensures GetByte(m, pins, R_ACC) == GetAcc(m)
  {}

  lemma CjneExec(a: Arch, pins: Pins, any: word, left: Operand, at: byte, right: byte, rel: byte)
    ensures Exec(Cjne(left, right, rel), a, pins, any) == Compare(a, Value(left, a.ram, pins), right, rel)
    ensures Exec(CjneAcc(at, rel), a, pins, any) == Compare(a, GetAcc(a.ram), GetByte(a.ram, pins, at), rel)
  {
    hide Compare, Value, GetByte;
  }

  lemma CjneOps(s: Chip, op: Op, rom: Rom, pins: Pins, xs: seq<Noise>, any: word)
    requires Starts(s, op, xs) && IsCjne(op)
    ensures Means(s, Meaning(op, s.c), rom, pins, xs, any)
  {
    hide Boundary, Run, Loads, IsCompare, IdleFrom, Executing, SetPsw, GetByte, PcSAdd, GetPsw, GetAcc, Addr1, Addr2, Exec;
    CjneTable(op);
    CjneShape(op, CjneMode(op), CjneSides(op));
    AccRead(s.ram, pins);
    var left := if op.CJNE_2? then Acc else if op.CJNE_3? then At(Addr1(s.c)) else Through(Addr2(s.c));
    CjneExec(Arch(s.c.pc, s.ram), pins, any, left, s.c.op2, s.c.op2, s.c.op3);
    CompareRuns(s, op, CjneMode(op), CjneSides(op), rom, pins, xs);
    NoOffset(s.c.pc);
  }

  lemma CountedDown(v: byte)
    ensures DoSub(v, 0, true).r == Byte(v - 1)
  {
    SubIsSubtraction(v, 0, true);
    hide DoSub;
  }

  lemma DjnzTable(op: Op)
    requires op.DJNZ_1? || op.DJNZ_2?
    ensures IsCount(op, if op.DJNZ_1? then Reg else Dir, op.DJNZ_2?)
  {
    hide CountJump;
  }

  lemma DjnzShape(op: Op, mode: Mode, direct: bool)
    requires IsCount(op, mode, direct)
    ensures Loads(op, mode) && IdleFrom(op, Delay(mode) + 3)
  {
    hide Micro, Counter, Offset, Hi, Lo, Join, Load;
  }

  lemma DjnzOps(s: Chip, op: Op, rom: Rom, pins: Pins, xs: seq<Noise>, any: word)
    requires Starts(s, op, xs) && (op.DJNZ_1? || op.DJNZ_2?)
    ensures Means(s, Meaning(op, s.c), rom, pins, xs, any)
  {
    var mode := if op.DJNZ_1? then Reg else Dir;
    hide Boundary, Run, Loads, IsCount, IdleFrom, Executing, SetByte, GetByte, PcSAdd, GetPsw, GetAcc, Addr1, DoSub, Byte;
    DjnzTable(op);
    DjnzShape(op, mode, op.DJNZ_2?);
    CountRuns(s, op, mode, op.DJNZ_2?, rom, pins, xs);
    CountedDown(OperandOf(mode, s, pins));
    NoOffset(s.c.pc);
  }

  // ---------- MOV ----------

  predicate IsStoreOp(op: Op) {
    op.MOV_1? || op.MOV_2? || op.MOV_3? || op.MOV_4? || op.MOV_5? || op.MOV_6? || op.MOV_7? || op.MOV_8?
    || op.MOV_9? || op.MOV_10? || op.MOV_11? || op.MOV_12?
  }

  function MovMode(op: Op): Mode {
    match op
    case MOV_1 => Reg case MOV_9 => Reg
    case MOV_2 => Dir case MOV_6 => Dir case MOV_10 => Dir
    case MOV_3 => Ind case MOV_11 => Ind
    case _ => Imm
  }

  function MovTarget(op: Op): Target {
    match op
    case MOV_5 => ToRegister case MOV_6 => ToRegister case MOV_7 => ToRegister
    case MOV_8 => ToSecond case MOV_9 => ToSecond case MOV_11 => ToSecond case MOV_12 => ToSecond
    case MOV_10 => ToThird
    case _ => ToAcc
  }

  function MovSource(op: Op): Source {
    match op
    case MOV_4 => FromSecond case MOV_7 => FromSecond
    case MOV_5 => FromAcc case MOV_8 => FromAcc
    case MOV_12 => FromThird
    case _ => FromLoad
  }

  // MOV to the accumulator or a register...
  lemma MovMicro1(op: Op, k: Ctl, n: Ctl, q: byte, out: AluOut)
    requires op.MOV_1? || op.MOV_2? || op.MOV_3? || op.MOV_4? || op.MOV_5? || op.MOV_6? || op.MOV_7?
    ensures Micro(op, k, n, q, out)
         == Store(MovMode(op), TargetOf(MovTarget(op), k), SourceOf(MovSource(op), k, q), k, n, q)
  {
    hide Store, Addr1;
  }

  // ...or to a direct address.
  lemma MovMicro2(op: Op, k: Ctl, n: Ctl, q: byte, out: AluOut)
    requires op.MOV_8? || op.MOV_9? || op.MOV_10? || op.MOV_11? || op.MOV_12?
    ensures Micro(op, k, n, q, out)
         == Store(MovMode(op), TargetOf(MovTarget(op), k), SourceOf(MovSource(op), k, q), k, n, q)
  {
    hide Store, Addr1;
  }

  lemma MovTable(op: Op)
    requires IsStoreOp(op)
    ensures IsStore(op, MovMode(op), MovTarget(op), MovSource(op))
  {
    hide Micro, Store, TargetOf, SourceOf, MovMode, MovTarget, MovSource;
    forall k: Ctl, n: Ctl, q: byte, out: AluOut
      ensures Micro(op, k, n, q, out)
           == Store(MovMode(op), TargetOf(MovTarget(op), k), SourceOf(MovSource(op), k, q), k, n, q)
    {
      if op.MOV_8? || op.MOV_9? || op.MOV_10? || op.MOV_11? || op.MOV_12? {
        MovMicro2(op, k, n, q, out);
      } else {
        MovMicro1(op, k, n, q, out);
      }
    }
  }

  lemma MovShape(op: Op, mode: Mode, d: Target, f: Source)
    requires IsStore(op, mode, d, f)
    ensures Loads(op, mode) && IdleFrom(op, Delay(mode) + 1)
  {
    hide Micro, TargetOf, SourceOf, Load;
  }

  lemma MoveExec(a: Arch, pins: Pins, any: word, dst: Operand, src: Operand)
    ensures Exec(Move(dst, src), a, pins, any) == Arch(a.pc, SetByte(a.ram, Address(dst, a.ram, pins), Value(src, a.ram, pins)))
  {
    hide Value, Address, GetByte, SetByte;
  }

  lemma MovOps(s: Chip, op: Op, rom: Rom, pins: Pins, xs: seq<Noise>, any: word)
    requires Starts(s, op, xs) && IsStoreOp(op)
    ensures Means(s, Meaning(op, s.c), rom, pins, xs, any)
  {
    hide Boundary, Run, Loads, IsStore, IdleFrom, Executing, SetByte, GetByte, GetPsw, GetAcc, Addr1, Addr2, Exec;
    MovTable(op);
    MovShape(op, MovMode(op), MovTarget(op), MovSource(op));
    StoreRuns(s, op, MovMode(op), MovTarget(op), MovSource(op), rom, pins, xs);
    AccRead(s.ram, pins);
    var i := Meaning(op, s.c);
    MoveExec(Arch(s.c.pc, s.ram), pins, any, i.dst, i.src);
  }

  lemma Mov13(s: Chip, rom: Rom, pins: Pins, xs: seq<Noise>, any: word)
    requires Starts(s, MOV_13, xs)
    ensures Means(s, Meaning(MOV_13, s.c), rom, pins, xs, any)
  {
    hide Boundary, Run, Executing, SetByte, GetByte, GetPsw, GetAcc, Addr2, Exec;
    StoreThroughRuns(s, rom, pins, xs);
    AccRead(s.ram, pins);
    MoveExec(Arch(s.c.pc, s.ram), pins, any, Through(Addr2(s.c)), Acc);
  }

  // ---------- jumps, calls, returns ----------

  predicate IsBranch(op: Op) { op.JC? || op.JNC? || op.JNZ? || op.JZ? || op.SJMP? }

  function BranchWhen(op: Op): Condition {
    match op case JC => IfCarry case JNC => IfNoCarry case JNZ => IfNotZero case JZ => IfZero case _ => Always
  }

  lemma BranchTable(op: Op)
    requires IsBranch(op)
    ensures IsJump(op, BranchWhen(op))
  {
    hide Jump;
  }

  lemma BranchOps(s: Chip, op: Op, rom: Rom, pins: Pins, xs: seq<Noise>, any: word)
    requires Starts(s, op, xs) && IsBranch(op)
    ensures Means(s, Meaning(op, s.c), rom, pins, xs, any)
  {
    hide Boundary, Run, IsJump, Executing, PcSAdd, GetPsw, GetAcc;
    BranchTable(op);
    JumpRuns(s, op, BranchWhen(op), rom, pins, xs);
    NoOffset(s.c.pc);
  }

  lemma GotoTable(op: Op)
    ensures op.AJMP? ==> IsGoto(op, false)
    ensures op.LJMP? ==> IsGoto(op, true)
    ensures op.ACALL? ==> IsCall(op, false)
    ensures op.LCALL? ==> IsCall(op, true)
  {
    hide InPage, Join, Goto, CallTo;
  }

  lemma GotoOps(s: Chip, op: Op, rom: Rom, pins: Pins, xs: seq<Noise>, any: word)
    requires Starts(s, op, xs) && (op.AJMP? || op.LJMP? || op.ACALL? || op.LCALL?)
    ensures Means(s, Meaning(op, s.c), rom, pins, xs, any)
  {
    hide Boundary, Run, IsGoto, IsCall, Executing, InPage, Join, GetPsw, GetAcc, Call;
    GotoTable(op);
    if op.AJMP? || op.LJMP? {
      GotoRuns(s, op, op.LJMP?, rom, pins, xs);
    } else {
      CallRuns(s, op, op.LCALL?, rom, pins, xs);
    }
  }

  lemma StackOps(s: Chip, op: Op, rom: Rom, pins: Pins, xs: seq<Noise>, any: word)
    requires Starts(s, op, xs) && (op.RET? || op.PUSH? || op.POP? || op.NOP?)
    ensures Means(s, Meaning(op, s.c), rom, pins, xs, any)
  {
    hide Boundary, Run, Executing, GetPsw, GetAcc, Return, Pushed, Popped, GetByte;
    match op
    case RET => ReturnRuns(s, rom, pins, xs);
    case PUSH => PushRuns(s, rom, pins, xs);
    case POP => PopRuns(s, rom, pins, xs);
    case NOP => NopRuns(s, rom, pins, xs);
  }

  // ---------- exchanges and products ----------

  lemma XchTable(op: Op)
    ensures op.XCH_1? ==> IsExchange(op, false)
    ensures op.XCH_2? ==> IsExchange(op, true)
  {
    hide Addr1, Exchange;
  }

  lemma ProductTable(op: Op)
    ensures op.MUL? ==> IsProduct(op, false)
    ensures op.DIV? ==> IsProduct(op, true)
  {
    hide Product;
  }

  lemma XchOps(s: Chip, op: Op, rom: Rom, pins: Pins, xs: seq<Noise>, any: word)
    requires Starts(s, op, xs) && (op.XCH_1? || op.XCH_2? || op.XCH_3?)
    ensures Means(s, Meaning(op, s.c), rom, pins, xs, any)
  {
    hide Boundary, Run, IsExchange, Executing, GetPsw, GetAcc, Exchanged, GetByte, Addr1, Addr2;
    XchTable(op);
    if op.XCH_3? {
      ThroughRuns(s, rom, pins, xs);
    } else {
      ExchangeRuns(s, op, op.XCH_2?, rom, pins, xs);
    }
  }

  lemma ProductOps(s: Chip, op: Op, rom: Rom, pins: Pins, xs: seq<Noise>) returns (any: word)
    requires Starts(s, op, xs) && (op.MUL? || op.DIV? || op.DA?)
    ensures Means(s, Meaning(op, s.c), rom, pins, xs, any)
  {
    hide Boundary, Run, IsProduct, Executing, GetPsw, GetAcc, ProductRam, DecimalRam;
    ProductTable(op);
    if op.DA? {
      AdjustRuns(s, rom, pins, xs);
      any := 0;
    } else {
      any := ProductRuns(s, op, op.DIV?, rom, pins, xs);
    }
  }

  // Every class: eight clocks of execution carry out the register transfers.
  lemma EightClocks(s: Chip, op: Op, rom: Rom, pins: Pins, xs: seq<Noise>) returns (any: word)
    requires Starts(s, op, xs)
    ensures Means(s, Meaning(op, s.c), rom, pins, xs, any)
  {
    assert !op.NoCase? && !op.Other?;
    hide Starts, Means, Meaning;
    any := 0;
    if IsAdd(op) || IsAddc(op) || IsSubb(op) { ArithOps(s, op, rom, pins, xs, any); }
    else if IsCjne(op) { CjneOps(s, op, rom, pins, xs, any); }
    else if op.DJNZ_1? || op.DJNZ_2? { DjnzOps(s, op, rom, pins, xs, any); }
    else if IsStoreOp(op) { MovOps(s, op, rom, pins, xs, any); }
    else if op.MOV_13? { Mov13(s, rom, pins, xs, any); }
    else if IsBranch(op) { BranchOps(s, op, rom, pins, xs, any); }
    else if op.AJMP? || op.LJMP? || op.ACALL? || op.LCALL? { GotoOps(s, op, rom, pins, xs, any); }
    else if op.RET? || op.PUSH? || op.POP? || op.NOP? { StackOps(s, op, rom, pins, xs, any); }
    else if op.XCH_1? || op.XCH_2? || op.XCH_3? { XchOps(s, op, rom, pins, xs, any); }
    else { any := ProductOps(s, op, rom, pins, xs); }
  }
}
