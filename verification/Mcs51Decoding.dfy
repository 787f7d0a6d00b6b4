// The decoder (VLSI2/8051/i8051_dec.vhd), a chain of bit patterns, against the opcode map by rows and
// columns: the same instruction, with the same number of bytes, for every opcode.
module Mcs51Decoding {
  import opened Mcs51Alu
  import opened Mcs51Ram
  import opened Mcs51Isa
  import opened Mcs51Controller
  import opened Mcs51Fetch
  import opened Mcs51Execute
  import opened Mcs51Meaning

  // Decoder and opcode map name the same instruction with the same number of bytes.
  predicate Agrees(k: Ctl, c: Option<Coded>) {
    var d := Dec(k.op1);
    if d.op.NoCase? || d.op.Other? then c.None?
    else c == Some(Coded(Meaning(d.op, k), 1 + Flag(d.second) + Flag(d.third)))
  }

  // The parts of an opcode the decoder looks at, by row and column of the map.
  predicate InMap(op: byte, row: nat, column: nat) {
    && op == 0x10 * row + column && row < 0x10 && column < 0x10
    && op / 8 == 2 * row + (if column >= 8 then 1 else 0)
    && op / 2 == 8 * row + Half(column)
    && op % 0x20 == (if Odd(row) then 0x10 + column else column)
  }

  lemma RowColumn(op: byte)
    ensures InMap(op, op / 0x10, op % 0x10)
    ensures op / 0x20 == op / 0x10 / 2 && op % 8 == op % 0x10 % 8 && op % 2 == op % 0x10 % 2
  {}

  function RegisterClass(row: nat): Decoded {
    if row == 2 then One(ADD_1) else if row == 3 then One(ADDC_1) else if row == 7 then Two(MOV_7)
    else if row == 8 then Two(MOV_9) else if row == 9 then One(SUBB_1) else if row == 0xA then Two(MOV_6)
    else if row == 0xB then Three(CJNE_3) else if row == 0xC then One(XCH_1) else if row == 0xD then Two(DJNZ_1)
    else if row == 0xE then One(MOV_1) else if row == 0xF then One(MOV_5) else One(Other)
  }

  function IndirectClass(row: nat): Decoded {
    if row == 2 then One(ADD_3) else if row == 3 then One(ADDC_3) else if row == 8 then Two(MOV_11)
    else if row == 9 then One(SUBB_3) else if row == 0xB then Three(CJNE_4) else if row == 0xC then One(XCH_3)
    else if row == 0xE then One(MOV_3) else if row == 0xF then One(MOV_13) else One(Other)
  }

  function DirectClass(row: nat): Decoded {
    if row == 2 then Two(ADD_2) else if row == 3 then Two(ADDC_2) else if row == 7 then Three(MOV_12)
    else if row == 8 then Three(MOV_10) else if row == 9 then Two(SUBB_2) else if row == 0xB then Three(CJNE_1)
    else if row == 0xC then Two(XCH_2) else if row == 0xD then Three(DJNZ_2) else if row == 0xE then Two(MOV_2)
    else if row == 0xF then Two(MOV_8) else if row == 0xA then One(NoCase) else One(Other)
  }

  function ConstantClass(row: nat): Decoded {
    if row == 2 then Two(ADD_4) else if row == 3 then Two(ADDC_4) else if row == 7 then Two(MOV_4)
    else if row == 8 then One(DIV) else if row == 9 then Two(SUBB_4) else if row == 0xA then One(MUL)
    else if row == 0xB then Three(CJNE_2) else if row == 0xD then One(DA) else One(Other)
  }

  lemma RegisterColumn(op: byte, row: nat, column: nat)
    requires InMap(op, row, column) && column >= 8
    ensures Dec(op) == RegisterClass(row)
  {
    assert Half(column) >= 4 && Half(column) < 8;
    hide Half;
  }

  lemma IndirectColumn(op: byte, row: nat, column: nat)
    requires InMap(op, row, column) && 6 <= column < 8
    ensures Dec(op) == IndirectClass(row)
  {
    assert Half(column) == 3;
    hide Half;
  }

  lemma DirectColumn(op: byte, row: nat)
    requires InMap(op, row, 5)
    ensures Dec(op) == DirectClass(row)
  {
    assert Half(5) == 2;
    hide Half;
  }

  lemma ConstantColumn(op: byte, row: nat)
    requires InMap(op, row, 4)
    ensures Dec(op) == ConstantClass(row)
  {
    assert Half(4) == 2;
    hide Half;
  }

  function OtherClass(op: byte): Decoded {
    if op == 0x00 then One(NOP) else if op == 0x02 then Three(LJMP) else if op == 0x12 then Three(LCALL)
    else if op == 0x22 then One(RET) else if op == 0x40 then Two(JC) else if op == 0x50 then Two(JNC)
    else if op == 0x60 then Two(JZ) else if op == 0x70 then Two(JNZ) else if op == 0x80 then Two(SJMP)
    else if op == 0xC0 then Two(PUSH) else if op == 0xD0 then Two(POP)
    else if op in {0x32, 0xE0, 0xE2, 0xE3, 0xF0, 0xF2, 0xF3} then One(NoCase) else One(Other)
  }

  lemma AddressColumn(op: byte, row: nat)
    requires InMap(op, row, 1)
    ensures Dec(op) == if Odd(row) then Two(ACALL) else Two(AJMP)
  {
    assert Half(1) == 0;
    hide Half, Odd;
  }

  lemma OtherColumn(op: byte, row: nat, column: nat)
    requires InMap(op, row, column) && column < 4 && column != 1
    ensures Dec(op) == OtherClass(op)
  {
    assert Half(column) == if column >= 2 then 1 else 0;
    hide Half;
  }

  // The bytes a class uses.
  lemma ClassBytes(op: byte)
    ensures Dec(op).third ==> Dec(op).second
    ensures Dec(op).third <==> Dec(op).op in {CJNE_1, CJNE_2, CJNE_3, CJNE_4, DJNZ_2, LCALL, LJMP, MOV_10, MOV_12}
  {}

  lemma AgreesRegister(k: Ctl, row: byte)
    requires Dec(k.op1) == RegisterClass(row)
    ensures Agrees(k, OnRegister(row, Addr1(k), k.op2, k.op3))
  {
    hide Dec, Bank;
  }

  lemma AgreesIndirect(k: Ctl, row: byte)
    requires Dec(k.op1) == IndirectClass(row)
    ensures Agrees(k, OnIndirect(row, Through(Addr2(k)), k.op2, k.op3))
  {
    hide Dec, Bank;
  }

  lemma AgreesDirect(k: Ctl, row: byte)
    requires Dec(k.op1) == DirectClass(row)
    ensures Agrees(k, OnDirect(row, k.op2, k.op3))
  {
    hide Dec, Bank;
  }

  lemma AgreesConstant(k: Ctl, row: byte)
    requires Dec(k.op1) == ConstantClass(row)
    ensures Agrees(k, OnConstant(row, k.op2, k.op3))
  {
    hide Dec, Bank;
  }

  lemma AgreesOther(k: Ctl)
    requires Dec(k.op1) == OtherClass(k.op1)
    ensures Agrees(k, Others(k.op1, k.op2, k.op3))
  {
    hide Dec, Bank, Join;
  }

  lemma AgreesAddress(k: Ctl, row: byte)
    requires Dec(k.op1) == (if Odd(row) then Two(ACALL) else Two(AJMP)) && k.op1 / 0x20 == row / 2
    ensures Agrees(k, Some(Coded(if row % 2 == 1 then Acall(row / 2, k.op2) else Ajmp(row / 2, k.op2), 2)))
  {
    hide Dec, Bank;
  }

  // Decoder and opcode map agree on every opcode, whatever follows it.
  lemma DecodeAgrees(k: Ctl)
    ensures Agrees(k, Decode(k.op1, k.op2, k.op3, Bank(k.psw)))
  {
    var row, column := k.op1 / 0x10, k.op1 % 0x10;
    RowColumn(k.op1);
    hide InMap, Dec, Bank, Join, Agrees, OnRegister, OnIndirect, OnDirect, OnConstant, Others, RegisterClass,
         IndirectClass, DirectClass, ConstantClass, OtherClass;
    if column >= 8 {
      RegisterColumn(k.op1, row, column);
      AgreesRegister(k, row);
    } else if column >= 6 {
      IndirectColumn(k.op1, row, column);
      AgreesIndirect(k, row);
    } else if column == 5 {
      DirectColumn(k.op1, row);
      AgreesDirect(k, row);
    } else if column == 4 {
      ConstantColumn(k.op1, row);
      AgreesConstant(k, row);
    } else if column == 1 {
      AddressColumn(k.op1, row);
      AgreesAddress(k, row);
    } else {
      OtherColumn(k.op1, row, column);
      AgreesOther(k);
    }
  }
}
