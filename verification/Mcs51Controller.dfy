// The 8051's clocked controller with its memories, decoder and ALU (VLSI2/8051/i8051_ctr.vhd and its
// neighbours). Signals assigned in a clocked process change after the clock edge, all at once, so one
// edge is a function from the state before it to the state after it. A signal left at "don't care"
// takes a value of the noise, which is arbitrary at every edge.
module Mcs51Controller {
  import opened Mcs51Alu
  import opened Mcs51Ram
  import opened Mcs51Isa

  // ---------- the decoder (i8051_dec.vhd) ----------

  // NoCase: what the controller has no case for. Other: what this model leaves out.
  datatype Op = ACALL | ADD_1 | ADD_2 | ADD_3 | ADD_4 | ADDC_1 | ADDC_2 | ADDC_3 | ADDC_4 | AJMP
    | CJNE_1 | CJNE_2 | CJNE_3 | CJNE_4 | DA | DIV | DJNZ_1 | DJNZ_2 | JC | JNC | JNZ | JZ | LCALL | LJMP
    | MOV_1 | MOV_2 | MOV_3 | MOV_4 | MOV_5 | MOV_6 | MOV_7 | MOV_8 | MOV_9 | MOV_10 | MOV_11 | MOV_12 | MOV_13
    | MUL | NOP | POP | PUSH | RET | SJMP | SUBB_1 | SUBB_2 | SUBB_3 | SUBB_4 | XCH_1 | XCH_2 | XCH_3
    | NoCase | Other

  // The instruction class, and whether a second and a third byte belong to the instruction.
  datatype Decoded = Decoded(op: Op, second: bool, third: bool)

  function One(op: Op): Decoded { Decoded(op, false, false) }
  function Two(op: Op): Decoded { Decoded(op, true, false) }
  function Three(op: Op): Decoded { Decoded(op, true, true) }

  // Patterns of the upper five or seven bits, the lower five bits or the whole opcode, in order.
  function Dec(op: byte): Decoded {
    if op % 0x20 == 0x11 then Two(ACALL)
    else if op / 8 == 0x05 then One(ADD_1)
    else if op == 0x25 then Two(ADD_2)
    else if op / 2 == 0x13 then One(ADD_3)
    else if op == 0x24 then Two(ADD_4)
    else if op / 8 == 0x07 then One(ADDC_1)
    else if op == 0x35 then Two(ADDC_2)
    else if op / 2 == 0x1B then One(ADDC_3)
    else if op == 0x34 then Two(ADDC_4)
    else if op % 0x20 == 0x01 then Two(AJMP)
    else if op == 0xB5 then Three(CJNE_1)
    else if op == 0xB4 then Three(CJNE_2)
    else if op / 8 == 0x17 then Three(CJNE_3)
    else if op / 2 == 0x5B then Three(CJNE_4)
    else if op == 0xD4 then One(DA)
    else if op == 0x84 then One(DIV)
    else if op / 8 == 0x1B then Two(DJNZ_1)
    else if op == 0xD5 then Three(DJNZ_2)
    else if op == 0x40 then Two(JC)
    else if op == 0x50 then Two(JNC)
    else if op == 0x70 then Two(JNZ)
    else if op == 0x60 then Two(JZ)
    else if op == 0x12 then Three(LCALL)
    else if op == 0x02 then Three(LJMP)
    else if op / 8 == 0x1D then One(MOV_1)
    else if op == 0xE5 then Two(MOV_2)
    else if op / 2 == 0x73 then One(MOV_3)
    else if op == 0x74 then Two(MOV_4)
    else if op / 8 == 0x1F then One(MOV_5)
    else if op / 8 == 0x15 then Two(MOV_6)
    else if op / 8 == 0x0F then Two(MOV_7)
    else if op == 0xF5 then Two(MOV_8)
    else if op / 8 == 0x11 then Two(MOV_9)
    else if op == 0x85 then Three(MOV_10)
    else if op / 2 == 0x43 then Two(MOV_11)
    else if op == 0x75 then Three(MOV_12)
    else if op / 2 == 0x7B then One(MOV_13)
    else if op / 2 == 0x71 || op == 0xE0 || op / 2 == 0x79 || op == 0xF0 then One(NoCase)  // MOVX
    else if op == 0xA4 then One(MUL)
    else if op == 0x00 then One(NOP)
    else if op == 0xD0 then Two(POP)
    else if op == 0xC0 then Two(PUSH)
    else if op == 0x22 then One(RET)
    else if op == 0x32 then One(NoCase)  // RETI
    else if op == 0x80 then Two(SJMP)
    else if op / 8 == 0x13 then One(SUBB_1)
    else if op == 0x95 then Two(SUBB_2)
    else if op / 2 == 0x4B then One(SUBB_3)
    else if op == 0x94 then Two(SUBB_4)
    else if op / 8 == 0x19 then One(XCH_1)
    else if op == 0xC5 then Two(XCH_2)
    else if op / 2 == 0x63 then One(XCH_3)
    else if op == 0xA5 then One(NoCase)
    else One(Other)
  }

  // ---------- the ALU (i8051_alu.vhd) ----------

  datatype AluOp = AluNone | AluAdd | AluSub | AluMul | AluDiv | AluDa | AluPcSAdd | AluPcUAdd

  datatype AluOut = AluOut(d1: byte, d2: byte, cy: bool, ac: bool, ov: bool)

  // What an operation does not define comes from x.
  function Alu(op: AluOp, s1: byte, s2: byte, s3: byte, cy: bool, ac: bool, x: AluOut): AluOut {
    match op
    case AluNone => x
    case AluAdd => var s := DoAdd(s1, s2, cy); AluOut(s.r, x.d2, s.cy, s.ac, s.ov)
    case AluSub => var s := DoSub(s1, s2, cy); AluOut(s.r, x.d2, s.cy, s.ac, s.ov)
    case AluMul => var r := DoMul(s1, s2); x.(d1 := Lo(r), d2 := Hi(r), ov := Hi(r) != 0)
    case AluDiv => if s2 == 0 then x.(ov := true) else x.(d1 := s1 / s2, d2 := s1 % s2, ov := false)
    case AluDa => var d := DoDa(s1, cy, ac); x.(d1 := d.r, cy := d.cy)
    case AluPcSAdd => var r := PcSAdd(Join(s2, s1), s3); x.(d1 := Lo(r), d2 := Hi(r))
    case AluPcUAdd => var r := PcUAdd(Join(s2, s1), s3); x.(d1 := Lo(r), d2 := Hi(r))
  }

  // ---------- the controller (i8051_ctr.vhd) ----------

  datatype Cpu = CS_0 | CS_1 | CS_2 | CS_3

  // The registers of the controller and its outputs. exe counts ES_0 to ES_7.
  datatype Ctl = Ctl(pc: word, op1: byte, op2: byte, op3: byte, acc: byte, psw: Psw, cpu: Cpu, exe: nat,
                     romAddr: word, romRd: bool,
                     ramAddr: byte, ramOut: byte, ramRd: bool, ramWr: bool,
                     aluOp: AluOp, src1: byte, src2: byte, src3: byte, srcCy: bool, srcAc: bool)

  datatype Noise = Noise(romAddr: word, romData: byte, ramAddr: byte, ramOut: byte,
                         src1: byte, src2: byte, src3: byte, srcCy: bool, srcAc: bool, alu: AluOut)

  // Each edge takes back the memory requests first.
  function StopReadWrite(k: Ctl, x: Noise): Ctl {
    k.(romAddr := x.romAddr, romRd := false, ramAddr := x.ramAddr, ramOut := x.ramOut, ramRd := false, ramWr := false)
  }

  function StartReadRom(n: Ctl, h: byte, l: byte): Ctl {
    n.(romAddr := h % 0x10 * 0x100 + l, romRd := true)
  }

  function StartRead(n: Ctl, a: byte): Ctl {
    n.(ramAddr := a, ramRd := true, ramWr := false)
  }

  function StartWrite(n: Ctl, a: byte, v: byte): Ctl {
    n.(ramAddr := a, ramOut := v, ramRd := false, ramWr := true)
  }

  function ShutDownAlu(n: Ctl, x: Noise): Ctl {
    n.(aluOp := AluNone, src1 := x.src1, src2 := x.src2, src3 := x.src3, srcCy := x.srcCy, srcAc := x.srcAc)
  }

  function AluCy(n: Ctl, op: AluOp, s1: byte, s2: byte, cy: bool): Ctl {
    n.(aluOp := op, src1 := s1, src2 := s2, srcCy := cy)
  }

  // The program counter plus a signed offset.
  function AluPc(n: Ctl, pc: word, rel: byte): Ctl {
    n.(aluOp := AluPcSAdd, src1 := Lo(pc), src2 := Hi(pc), src3 := rel)
  }

  function Addr1(k: Ctl): byte {
    Bank(k.psw) + k.op1 % 8
  }

  function Addr2(k: Ctl): byte {
    Bank(k.psw) + k.op1 % 2
  }

  // Reset writes the ports and the stack pointer, one after the other.
  function StartUp(k: Ctl, n: Ctl): Ctl {
    if k.exe == 0 then StartWrite(n, R_P0, 0xFF).(exe := 1)
    else if k.exe == 1 then StartWrite(n, R_P1, 0xFF).(exe := 2)
    else if k.exe == 2 then StartWrite(n, R_P2, 0xFF).(exe := 3)
    else if k.exe == 3 then StartWrite(n, R_P3, 0xFF).(exe := 4)
    else if k.exe == 4 then StartWrite(n, R_SP, 7).(exe := 5)
    else if k.exe == 5 then n.(cpu := CS_1, exe := 0)
    else n
  }

  // Instruction bytes, status word and accumulator are fetched; romQ and q are what the memories give.
  function Fetch(k: Ctl, n: Ctl, romQ: byte, q: byte, out: AluOut, x: Noise): Ctl {
    if k.exe == 0 then
      StartReadRom(n, Hi(k.pc), Lo(k.pc)).(aluOp := AluPcUAdd, src1 := Lo(k.pc), src2 := Hi(k.pc), src3 := 1, exe := 1)
    else if k.exe == 1 then
      StartRead(n, R_PSW).(exe := 2)
    else if k.exe == 2 then
      StartRead(n, R_ACC).(op1 := romQ, exe := 3)
    else if k.exe == 3 then
      StartReadRom(n, out.d2, out.d1).(psw := FromByte(q), aluOp := AluPcUAdd, src1 := out.d1, src2 := out.d2,
                                       src3 := Flag(Dec(k.op1).second), exe := 4)
    else if k.exe == 4 then
      StartReadRom(n, out.d2, out.d1).(acc := q, aluOp := AluPcUAdd, src1 := out.d1, src2 := out.d2,
                                       src3 := Flag(Dec(k.op1).third), exe := 5)
    else if k.exe == 5 then
      n.(op2 := romQ, pc := Join(out.d2, out.d1), exe := 6)
    else if k.exe == 6 then
      n.(op3 := romQ, exe := 7)
    else
      ShutDownAlu(n, x).(cpu := CS_3, exe := 0)
  }

  // Where an operand comes from, and after how many edges it is there.
  datatype Mode = Imm | Reg | Dir | Ind

  function Delay(mode: Mode): nat {
    match mode case Imm => 0 case Reg => 2 case Dir => 2 case Ind => 4
  }

  // The edges until the operand is there: the requests it takes.
  function Load(mode: Mode, k: Ctl, n: Ctl, q: byte): Ctl {
    match mode
    case Imm => n
    case Reg => if k.exe == 0 then StartRead(n, Addr1(k)) else n
    case Dir => if k.exe == 0 then StartRead(n, k.op2) else n
    case Ind => if k.exe == 0 then StartRead(n, Addr2(k)) else if k.exe == 2 then StartRead(n, q) else n
  }

  // ADD, ADDC, SUBB: the sum and its flags go to the accumulator and the status word.
  function Arith(mode: Mode, op: AluOp, cy: bool, k: Ctl, n: Ctl, q: byte, out: AluOut): Ctl {
    var e := k.exe - Delay(mode);
    if e < 0 then Load(mode, k, n, q)
    else if e == 0 then AluCy(n, op, k.acc, if mode.Imm? then k.op2 else q, cy)
    else if e == 1 then StartWrite(n, R_ACC, out.d1).(psw := k.psw.(cy := out.cy, ac := out.ac, ov := out.ov))
    else if e == 2 then StartWrite(n, R_PSW, ToByte(k.psw))
    else n
  }

  // MUL, DIV: two edges for the ALU.
  function Product(op: AluOp, k: Ctl, n: Ctl, q: byte, out: AluOut): Ctl {
    if k.exe == 0 then StartRead(n, R_B)
    else if k.exe == 2 then n.(aluOp := op, src1 := k.acc, src2 := q)
    else if k.exe == 4 then StartWrite(n, R_ACC, out.d1).(psw := k.psw.(ov := out.ov))
    else if k.exe == 5 then StartWrite(n, R_B, out.d2)
    else if k.exe == 6 then StartWrite(n, R_PSW, ToByte(k.psw))
    else n
  }

  function Adjust(k: Ctl, n: Ctl, out: AluOut): Ctl {
    if k.exe == 0 then n.(aluOp := AluDa, src1 := k.acc, srcCy := k.psw.cy, srcAc := k.psw.ac)
    else if k.exe == 1 then StartWrite(n, R_ACC, out.d1).(psw := k.psw.(cy := out.cy))
    else if k.exe == 2 then StartWrite(n, R_PSW, ToByte(k.psw))
    else n
  }

  // MOV: v goes to dst as soon as the operand is there.
  function Store(mode: Mode, dst: byte, v: byte, k: Ctl, n: Ctl, q: byte): Ctl {
    if k.exe < Delay(mode) then Load(mode, k, n, q)
    else if k.exe == Delay(mode) then StartWrite(n, dst, v)
    else n
  }

  // MOV to the address found in a register.
  function StoreThrough(k: Ctl, n: Ctl, q: byte): Ctl {
    if k.exe == 0 then StartRead(n, Addr2(k))
    else if k.exe == 2 then StartWrite(n, q, k.acc)
    else n
  }

  // CJNE: left against right.
  function CompareJump(mode: Mode, left: byte, right: byte, k: Ctl, n: Ctl, q: byte, out: AluOut): Ctl {
    var e := k.exe - Delay(mode);
    if e < 0 then Load(mode, k, n, q)
    else if e == 0 then AluPc(n, k.pc, if left != right then k.op3 else 0).(psw := k.psw.(cy := left < right))
    else if e == 1 then n.(pc := Join(out.d2, out.d1))
    else if e == 2 then StartWrite(n, R_PSW, ToByte(k.psw))
    else n
  }

  // DJNZ: the ALU counts down, then finds the target.
  function CountJump(mode: Mode, dst: byte, rel: byte, k: Ctl, n: Ctl, q: byte, out: AluOut): Ctl {
    var e := k.exe - Delay(mode);
    if e < 0 then Load(mode, k, n, q)
    else if e == 0 then AluCy(n, AluSub, q, 0, true)
    else if e == 1 then StartWrite(AluPc(n, k.pc, if out.d1 != 0 then rel else 0), dst, out.d1)
    else if e == 2 then n.(pc := Join(out.d2, out.d1))
    else n
  }

  function Jump(taken: bool, k: Ctl, n: Ctl, out: AluOut): Ctl {
    if k.exe == 0 then AluPc(n, k.pc, if taken then k.op2 else 0)
    else if k.exe == 1 then n.(pc := Join(out.d2, out.d1))
    else n
  }

  function Goto(target: word, k: Ctl, n: Ctl): Ctl {
    if k.exe == 0 then n.(pc := target) else n
  }

  function CallTo(target: word, k: Ctl, n: Ctl, q: byte, out: AluOut): Ctl {
    if k.exe == 0 then StartRead(n, R_SP)
    else if k.exe == 2 then AluCy(n, AluAdd, q, 0, true)
    else if k.exe == 3 then StartWrite(AluCy(n, AluAdd, out.d1, 0, true), out.d1, Lo(k.pc))
    else if k.exe == 4 then StartWrite(n, out.d1, Hi(k.pc))
    else if k.exe == 5 then StartWrite(n, R_SP, out.d1)
    else if k.exe == 6 then n.(pc := target)
    else n
  }

  function ReturnFrom(k: Ctl, n: Ctl, q: byte, out: AluOut): Ctl {
    if k.exe == 0 then StartRead(n, R_SP)
    else if k.exe == 2 then StartRead(AluCy(n, AluSub, q, 0, true), q)
    else if k.exe == 3 then StartRead(AluCy(n, AluSub, out.d1, 0, true), out.d1)
    else if k.exe == 4 then n.(pc := Join(q, Lo(k.pc)))
    else if k.exe == 5 then n.(pc := Join(Hi(k.pc), q))
    else if k.exe == 6 then StartWrite(n, R_SP, out.d1)
    else n
  }

  function PushByte(k: Ctl, n: Ctl, q: byte, out: AluOut): Ctl {
    if k.exe == 0 then StartRead(n, R_SP)
    else if k.exe == 1 then StartRead(n, k.op2)
    else if k.exe == 2 then AluCy(n, AluAdd, q, 0, true)
    else if k.exe == 3 then StartWrite(n, out.d1, q)
    else if k.exe == 4 then StartWrite(n, R_SP, out.d1)
    else n
  }

  function PopByte(k: Ctl, n: Ctl, q: byte, out: AluOut): Ctl {
    if k.exe == 0 then StartRead(n, R_SP)
    else if k.exe == 2 then StartRead(AluCy(n, AluSub, q, 0, true), q)
    else if k.exe == 3 then StartWrite(n, R_SP, out.d1)
    else if k.exe == 4 then StartWrite(n, k.op2, q)
    else n
  }

  // XCH on an address known at once: the read of the operand is followed by the write to it.
  function Exchange(a: byte, k: Ctl, n: Ctl, q: byte): Ctl {
    if k.exe == 0 then StartRead(n, a)
    else if k.exe == 1 then StartWrite(n, a, k.acc)
    else if k.exe == 2 then StartWrite(n, R_ACC, q)
    else n
  }

  // XCH through a register, which is read twice.
  function ExchangeThrough(k: Ctl, n: Ctl, q: byte): Ctl {
    if k.exe == 0 || k.exe == 1 then StartRead(n, Addr2(k))
    else if k.exe == 2 then StartRead(n, q)
    else if k.exe == 3 then StartWrite(n, q, k.acc)
    else if k.exe == 4 then StartWrite(n, R_ACC, q)
    else n
  }

  // What one instruction class does in ES_0 to ES_6.
  function Micro(op: Op, k: Ctl, n: Ctl, q: byte, out: AluOut): Ctl {
    match op
    case ACALL => CallTo(InPage(k.pc, k.op1 / 0x20, k.op2), k, n, q, out)
    case ADD_1 => Arith(Reg, AluAdd, false, k, n, q, out)
    case ADD_2 => Arith(Dir, AluAdd, false, k, n, q, out)
    case ADD_3 => Arith(Ind, AluAdd, false, k, n, q, out)
    case ADD_4 => Arith(Imm, AluAdd, false, k, n, q, out)
    case ADDC_1 => Arith(Reg, AluAdd, k.psw.cy, k, n, q, out)
    case ADDC_2 => Arith(Dir, AluAdd, k.psw.cy, k, n, q, out)
    case ADDC_3 => Arith(Ind, AluAdd, k.psw.cy, k, n, q, out)
    case ADDC_4 => Arith(Imm, AluAdd, k.psw.cy, k, n, q, out)
    case AJMP => Goto(InPage(k.pc, k.op1 / 0x20, k.op2), k, n)
    case CJNE_1 => CompareJump(Dir, k.acc, q, k, n, q, out)
    case CJNE_2 => CompareJump(Imm, k.acc, k.op2, k, n, q, out)
    case CJNE_3 => CompareJump(Reg, q, k.op2, k, n, q, out)
    case CJNE_4 => CompareJump(Ind, q, k.op2, k, n, q, out)
    case DA => Adjust(k, n, out)
    case DIV => Product(AluDiv, k, n, q, out)
    case DJNZ_1 => CountJump(Reg, Addr1(k), k.op2, k, n, q, out)
    case DJNZ_2 => CountJump(Dir, k.op2, k.op3, k, n, q, out)
    case JC => Jump(k.psw.cy, k, n, out)
    case JNC => Jump(!k.psw.cy, k, n, out)
    case JNZ => Jump(k.acc != 0, k, n, out)
    case JZ => Jump(k.acc == 0, k, n, out)
    case LCALL => CallTo(Join(k.op2, k.op3), k, n, q, out)
    case LJMP => Goto(Join(k.op2, k.op3), k, n)
    case MOV_1 => Store(Reg, R_ACC, q, k, n, q)
    case MOV_2 => Store(Dir, R_ACC, q, k, n, q)
    case MOV_3 => Store(Ind, R_ACC, q, k, n, q)
    case MOV_4 => Store(Imm, R_ACC, k.op2, k, n, q)
    case MOV_5 => Store(Imm, Addr1(k), k.acc, k, n, q)
    case MOV_6 => Store(Dir, Addr1(k), q, k, n, q)
    case MOV_7 => Store(Imm, Addr1(k), k.op2, k, n, q)
    case MOV_8 => Store(Imm, k.op2, k.acc, k, n, q)
    case MOV_9 => Store(Reg, k.op2, q, k, n, q)
    case MOV_10 => Store(Dir, k.op3, q, k, n, q)
    case MOV_11 => Store(Ind, k.op2, q, k, n, q)
    case MOV_12 => Store(Imm, k.op2, k.op3, k, n, q)
    case MOV_13 => StoreThrough(k, n, q)
    case MUL => Product(AluMul, k, n, q, out)
    case NOP => n
    case POP => PopByte(k, n, q, out)
    case PUSH => PushByte(k, n, q, out)
    case RET => ReturnFrom(k, n, q, out)
    case SJMP => Jump(true, k, n, out)
    case SUBB_1 => Arith(Reg, AluSub, k.psw.cy, k, n, q, out)
    case SUBB_2 => Arith(Dir, AluSub, k.psw.cy, k, n, q, out)
    case SUBB_3 => Arith(Ind, AluSub, k.psw.cy, k, n, q, out)
    case SUBB_4 => Arith(Imm, AluSub, k.psw.cy, k, n, q, out)
    case XCH_1 => Exchange(Addr1(k), k, n, q)
    case XCH_2 => Exchange(k.op2, k, n, q)
    case XCH_3 => ExchangeThrough(k, n, q)
    case NoCase => n
    case Other => n
  }

  function Execute(k: Ctl, n: Ctl, q: byte, out: AluOut, x: Noise): Ctl {
    var op := Dec(k.op1).op;
    if op.NoCase? || op.Other? then n
    else if k.exe == 7 then ShutDownAlu(n, x).(cpu := CS_1, exe := 0)
    else Micro(op, k, n, q, out).(exe := k.exe + 1)
  }

  // The controller at a clock edge.
  function Clocked(k: Ctl, romQ: byte, q: byte, out: AluOut, x: Noise): Ctl {
    var n := StopReadWrite(k, x);
    match k.cpu
    case CS_0 => StartUp(k, n)
    case CS_1 => n.(cpu := CS_2)
    case CS_2 => Fetch(k, n, romQ, q, out, x)
    case CS_3 => Execute(k, n, q, out, x)
  }

  // ---------- the chip (i8051_all.vhd) ----------

  // Controller, data memory, and the data outputs of the two memories.
  datatype Chip = Chip(c: Ctl, ram: Ram, q: byte, romQ: byte)

  function AluNow(s: Chip, x: Noise): AluOut {
    Alu(s.c.aluOp, s.c.src1, s.c.src2, s.c.src3, s.c.srcCy, s.c.srcAc, x.alu)
  }

  // The data memory at a clock edge.
  function RamAfter(s: Chip): Ram {
    if s.c.ramWr && !s.c.ramRd then SetByte(s.ram, s.c.ramAddr, s.c.ramOut) else s.ram
  }

  function Edge(rom: Rom, pins: Pins, s: Chip, x: Noise): Chip {
    Chip(Clocked(s.c, s.romQ, s.q, AluNow(s, x), x),
         RamAfter(s),
         if s.c.ramRd then GetByte(s.ram, pins, s.c.ramAddr) else s.q,
         if s.c.romRd then rom[s.c.romAddr % |rom|] else x.romData)
  }

  // As many edges as there are values of noise.
  function Run(rom: Rom, pins: Pins, s: Chip, xs: seq<Noise>): Chip
    decreases |xs|
  {
    if xs == [] then s else Run(rom, pins, Edge(rom, pins, s, xs[0]), xs[1..])
  }

  lemma {:induction false} RunConcat(rom: Rom, pins: Pins, s: Chip, xs: seq<Noise>, ys: seq<Noise>)
    ensures Run(rom, pins, s, xs + ys) == Run(rom, pins, Run(rom, pins, s, xs), ys)
    decreases |xs|
  {
    hide Edge;
    if xs == [] {
      assert xs + ys == ys;
    } else {
      assert (xs + ys)[0] == xs[0] && (xs + ys)[1..] == xs[1..] + ys;
      RunConcat(rom, pins, Edge(rom, pins, s, xs[0]), xs[1..], ys);
    }
  }
}
