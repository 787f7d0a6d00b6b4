// The arithmetic of the 8051's ALU (VLSI2/8051/i8051_alu.vhd): adders and subtractors split into
// nibbles, the division loop and the decimal adjustment, each against what it is meant to compute.
module Mcs51Alu {

  type byte = x: int | 0 <= x < 0x100
  type word = x: int | 0 <= x < 0x10000

  // A result with its carry, auxiliary carry and overflow.
  datatype Sum = Sum(r: byte, cy: bool, ac: bool, ov: bool)

  // The lower eight bits.
  function Byte(n: int): byte {
    n % 0x100
  }

  lemma ByteOfByte(n: int, d: int)
    ensures Byte(Byte(n) + d) == Byte(n + d)
  {}

  function Hi(w: word): byte {
    w / 0x100
  }

  function Lo(w: word): byte {
    w % 0x100
  }

  function Join(hi: byte, lo: byte): word {
    0x100 * hi + lo
  }

  lemma JoinSplits(hi: byte, lo: byte, w: word)
    ensures Hi(Join(hi, lo)) == hi && Lo(Join(hi, lo)) == lo
    ensures Join(Hi(w), Lo(w)) == w
  {}

  function Flag(b: bool): nat {
    if b then 1 else 0
  }

  // ---------- addition and subtraction ----------

  // Bits 3 to 0, bits 6 to 4 and bit 7.
  function Low(a: byte): (r: nat) ensures r < 0x10 { a % 0x10 }
  function Mid(a: byte): (r: nat) ensures r < 8 { a / 0x10 % 8 }
  function Top(a: byte): (r: nat) ensures r < 2 { a / 0x80 }

  lemma Parts(a: byte)
    ensures a == 0x80 * Top(a) + 0x10 * Mid(a) + Low(a)
  {}

  // A byte put together from the parts' results, whose upper bits are carries.
  function Whole(top: nat, mid: nat, low: nat): byte {
    top % 2 * 0x80 + mid % 8 * 0x10 + low % 0x10
  }

  // Each part is added with the carry of the one before.
  function DoAdd(a: byte, b: byte, c: bool): Sum {
    var v4 := Low(a) + Low(b) + Flag(c);
    var v8 := Mid(a) + Mid(b) + Flag(v4 >= 0x10);
    var vC := Top(a) + Top(b) + Flag(v8 >= 8);
    Sum(Whole(vC, v8, v4), vC >= 2, v4 >= 0x10, (vC >= 2) != (v8 >= 8))
  }

  // A one is put above each part; it is gone when the part has to borrow.
  function DoSub(a: byte, b: byte, c: bool): Sum {
    var v4 := 0x10 + Low(a) - Low(b) - Flag(c);
    var v8 := 8 + Mid(a) - Mid(b) - Flag(v4 < 0x10);
    var vC := 2 + Top(a) - Top(b) - Flag(v8 < 8);
    Sum(Whole(vC, v8, v4), vC < 2, v4 < 0x10, (vC < 2) != (v8 < 8))
  }

  // A byte as a two's complement number.
  function Signed(b: byte): int {
    if b >= 0x80 then b - 0x100 else b
  }

  // What is above a part moves to the next one.
  lemma WholeIsSum(v4: nat, v8: nat, vC: nat)
    requires v4 < 0x20 && v8 < 0x10 && vC < 4
    ensures Whole(vC, v8, v4) + 0x100 * Flag(vC >= 2) + 0x80 * Flag(v8 >= 8) + 0x10 * Flag(v4 >= 0x10)
         == 0x80 * vC + 0x10 * v8 + v4
  {
    assert v4 % 0x10 == v4 - 0x10 * Flag(v4 >= 0x10);
    assert v8 % 8 == v8 - 8 * Flag(v8 >= 8);
    assert vC % 2 == vC - 2 * Flag(vC >= 2);
  }

  // A byte as a two's complement number, by its top bit.
  lemma SignedByTop(a: byte)
    ensures Signed(a) == 0x10 * Mid(a) + Low(a) - 0x80 * Top(a)
  {}

  // Signed overflow is a carry into the top bit without one out of it, or the other way round.
  lemma OverflowOfParts(top: nat, rest: int, s: int)
    requires top <= 2 && 0 <= rest < 0x100 && s == rest - 0x80 * top
    ensures (top + Flag(rest >= 0x80) >= 2) != (rest >= 0x80) <==> !(-0x80 <= s < 0x80)
  {}

  // The split adder adds: sum, carry out of bit 7 and carry out of bit 3...
  lemma AddIsAddition(a: byte, b: byte, c: bool)
    ensures var s := DoAdd(a, b, c);
      && 0x100 * Flag(s.cy) + s.r == a + b + Flag(c)
      && (s.ac <==> a % 0x10 + b % 0x10 + Flag(c) >= 0x10)
  {
    Parts(a);
    Parts(b);
    assert Low(a) == a % 0x10 && Low(b) == b % 0x10;
    var v4 := Low(a) + Low(b) + Flag(c);
    var v8 := Mid(a) + Mid(b) + Flag(v4 >= 0x10);
    var vC := Top(a) + Top(b) + Flag(v8 >= 8);
    WholeIsSum(v4, v8, vC);
    var s := DoAdd(a, b, c);
    assert s.r == Whole(vC, v8, v4) && s.cy == (vC >= 2) && s.ac == (v4 >= 0x10);
    hide DoAdd, Low, Mid, Top, Whole;
  }

  // ...and signed overflow.
  lemma AddOverflows(a: byte, b: byte, c: bool)
    ensures DoAdd(a, b, c).ov <==> !(-0x80 <= Signed(a) + Signed(b) + Flag(c) < 0x80)
  {
    SignedByTop(a);
    SignedByTop(b);
    hide Low, Mid, Top, Whole, Signed;
    var v4 := Low(a) + Low(b) + Flag(c);
    var v8 := Mid(a) + Mid(b) + Flag(v4 >= 0x10);
    var rest := 0x10 * (Mid(a) + Mid(b)) + v4;
    assert v8 >= 8 <==> rest >= 0x80;
    OverflowOfParts(Top(a) + Top(b), rest, Signed(a) + Signed(b) + Flag(c));
  }

  // And the split subtractor subtracts, with borrows for carries.
  lemma SubIsSubtraction(a: byte, b: byte, c: bool)
    ensures var s := DoSub(a, b, c);
      && s.r - 0x100 * Flag(s.cy) == a - b - Flag(c)
      && (s.ac <==> a % 0x10 < b % 0x10 + Flag(c))
  {
    Parts(a);
    Parts(b);
    assert Low(a) == a % 0x10 && Low(b) == b % 0x10;
    var v4 := 0x10 + Low(a) - Low(b) - Flag(c);
    var v8 := 8 + Mid(a) - Mid(b) - Flag(v4 < 0x10);
    var vC := 2 + Top(a) - Top(b) - Flag(v8 < 8);
    WholeIsSum(v4, v8, vC);
    var s := DoSub(a, b, c);
    assert s.r == Whole(vC, v8, v4) && s.cy == (vC < 2) && s.ac == (v4 < 0x10);
    hide DoSub, Low, Mid, Top, Whole;
  }

  lemma SubOverflows(a: byte, b: byte, c: bool)
    ensures DoSub(a, b, c).ov <==> !(-0x80 <= Signed(a) - Signed(b) - Flag(c) < 0x80)
  {
    SignedByTop(a);
    SignedByTop(b);
    hide Low, Mid, Top, Whole, Signed;
    var v4 := 0x10 + Low(a) - Low(b) - Flag(c);
    var v8 := 8 + Mid(a) - Mid(b) - Flag(v4 < 0x10);
    var rest := 0x10 * (8 + Mid(a) - Mid(b)) + Low(a) - Low(b) - Flag(c);
    assert v8 >= 8 <==> rest >= 0x80;
    OverflowOfParts(1 + Top(a) - Top(b), rest, Signed(a) - Signed(b) - Flag(c));
  }

  // Subtracting the same operand with the same carry undoes an addition.
  lemma SubUndoesAdd(a: byte, b: byte, c: bool)
    ensures var s := DoAdd(a, b, c);
      DoSub(s.r, b, c).r == a && DoSub(s.r, b, c).cy == s.cy
  {
    AddIsAddition(a, b, c);
    var s := DoAdd(a, b, c);
    SubIsSubtraction(s.r, b, c);
    hide DoAdd, DoSub;
  }

  // Branch target: the program counter plus a signed offset, modulo 2^16.
  function PcSAdd(pc: word, rel: byte): word {
    (pc + Signed(rel)) % 0x10000
  }

  function PcUAdd(pc: word, n: byte): word {
    (pc + n) % 0x10000
  }

  function DoMul(a: byte, b: byte): (r: word) {
    MulFits(a, b);
    a * b
  }

  lemma MulFits(a: byte, b: byte)
    ensures 0 <= a * b <= 255 * 255
  {
    assert a * b <= 255 * b;
  }

  // ---------- decimal adjustment ----------

  datatype Adjusted = Adjusted(r: byte, cy: bool)

  // DO_DA on nine bits: the low digit, where it is above nine or had a carry...
  function AdjustLow(a: byte, c1: bool, c2: bool): nat {
    var v := if c2 || a % 0x10 > 9 then a + 6 else a;
    if c1 && v < 0x100 then v + 0x100 else v
  }

  // ...and the high digit, on a carry only.
  function AdjustHigh(v: nat): nat {
    if v >= 0x100 then (v + 0x60) % 0x200 else v
  }

  function DoDa(a: byte, c1: bool, c2: bool): Adjusted {
    var w := AdjustHigh(AdjustLow(a, c1, c2));
    Adjusted(w % 0x100, w >= 0x100)
  }

  // Two decimal digits in a byte.
  predicate IsDecimal(b: byte) {
    b % 0x10 <= 9 && b / 0x10 <= 9
  }

  function Decimal(b: byte): nat {
    10 * (b / 0x10) + b % 0x10
  }

  // A byte from its digits.
  lemma Digits(r: byte, h: nat, l: nat)
    requires l < 0x10 && r == 0x10 * h + l
    ensures r / 0x10 == h && r % 0x10 == l
  {}

  // The first correction carries from the low digit to the high one...
  lemma AdjustLowDigit(h: nat, l: nat, ac: bool, cy: bool, r: byte)
    requires h <= 18 && l <= 19
    requires r + 0x100 * Flag(cy) == 0x10 * h + l
    requires ac <==> l >= 0x10
    ensures AdjustLow(r, cy, ac) == 0x10 * (if l > 9 then h + 1 else h) + (if l > 9 then l - 10 else l)
  {
    if l >= 0x10 {
      Digits(r, h + 1 - 0x10 * Flag(cy), l - 0x10);
    } else {
      Digits(r, h - 0x10 * Flag(cy), l);
    }
  }

  // ...and the second one out of the high digit, once that has passed fifteen.
  lemma AdjustHighDigit(h: nat, l: nat)
    requires h <= 19 && l <= 9
    ensures AdjustHigh(0x10 * h + l) == 0x10 * h + l + (if h >= 0x10 then 0x60 else 0)
  {}

  lemma NineBits(w: nat)
    requires w < 0x200
    ensures w % 0x100 + 0x100 * Flag(w >= 0x100) == w
  {}

  lemma AdjustDigits(h: nat, l: nat, ac: bool, cy: bool, r: byte)
    requires h <= 18 && l <= 19
    requires r + 0x100 * Flag(cy) == 0x10 * h + l
    requires ac <==> l >= 0x10
    ensures var h1, l1 := if l > 9 then h + 1 else h, if l > 9 then l - 10 else l;
      var d := DoDa(r, cy, ac);
      d.r + 0x100 * Flag(d.cy) == 0x10 * h1 + l1 + (if h1 >= 0x10 then 0x60 else 0)
  {
    AdjustLowDigit(h, l, ac, cy, r);
    var v := AdjustLow(r, cy, ac);
    AdjustHighDigit(if l > 9 then h + 1 else h, if l > 9 then l - 10 else l);
    hide AdjustLow, AdjustHigh;
    NineBits(AdjustHigh(v));
  }

  // The outcome for the digits after the first correction.
  lemma DecimalOfAdjusted(h: nat, l: nat, d: Adjusted)
    requires h <= 19 && l <= 9
    requires d.r + 0x100 * Flag(d.cy) == 0x10 * h + l + (if h >= 0x10 then 0x60 else 0)
    ensures (IsDecimal(d.r) && Decimal(d.r) + 100 * Flag(d.cy) == 10 * h + l) <==> (h < 10 || h >= 16)
  {
    Digits(d.r, if h >= 0x10 then h - 10 else h, l);
  }

  // DA after an addition of decimal bytes is meant to leave the decimal sum. It does so exactly when
  // the sum is below 100 or at least 160: in between the binary sum has no carry, and its high digit,
  // ten or more, is left as it is.
  lemma AdjustsExactly(a: byte, b: byte, c: bool)
    requires IsDecimal(a) && IsDecimal(b)
    ensures var s := DoAdd(a, b, c);
      var d, sum := DoDa(s.r, s.cy, s.ac), Decimal(a) + Decimal(b) + Flag(c);
      (IsDecimal(d.r) && Decimal(d.r) + 100 * Flag(d.cy) == sum) <==> (sum < 100 || sum >= 160)
  {
    AddIsAddition(a, b, c);
    hide DoAdd, DoDa;
    var s := DoAdd(a, b, c);
    var h, l := a / 0x10 + b / 0x10, a % 0x10 + b % 0x10 + Flag(c);
    AdjustDigits(h, l, s.ac, s.cy, s.r);
    DecimalOfAdjusted(if l > 9 then h + 1 else h, if l > 9 then l - 10 else l, DoDa(s.r, s.cy, s.ac));
  }

  // 50 + 50 is left at the byte A0 without a carry.
  lemma FiftyAndFifty()
    ensures var s := DoAdd(0x50, 0x50, false);
      DoDa(s.r, s.cy, s.ac) == Adjusted(0xA0, false)
  {
    AddIsAddition(0x50, 0x50, false);
    hide DoAdd;
  }

  // ---------- division ----------

  function Pow2(i: nat): (p: nat)
    ensures p >= 1
  {
    if i == 0 then 1 else 2 * Pow2(i - 1)
  }

  function Times(x: nat, y: nat): nat {
    x * y
  }

  lemma {:induction false} Pow2Product(i: nat, j: nat)
    ensures Times(Pow2(i), Pow2(j)) == Pow2(i + j)
  {
    if i > 0 {
      Pow2Product(i - 1, j);
      Double(Pow2(i - 1), Pow2(j));
      hide Times;
    }
  }

  lemma Double(x: nat, y: nat)
    ensures Times(2 * x, y) == 2 * Times(x, y) == Times(x, 2 * y)
  {}

  // The register after some of the eight rounds. In the upper byte stands rem, the remainder of the
  // dividend's first bits; below it the dividend's other bits, rest, and the quotient q of the first
  // ones. p and t are two to the number of rounds made and to come.
  ghost predicate Dividing(a: nat, b: nat, p: nat, t: nat, v: nat, rem: nat, rest: nat, q: nat) {
    && v == rem * 0x100 + Times(rest, p) + q
    && a == Times(Times(q, b) + rem, t) + rest
    && rem < b && rest < t && q < p
  }

  // The next bit of the rest, in place.
  lemma TopBit(p: nat, half: nat, bit: nat, rest: nat)
    requires Times(p, half) == 0x80 && bit <= 1 && rest < half
    ensures Times(bit * half + rest, p) == bit * 0x80 + Times(rest, p)
    ensures Times(rest, p) + p <= 0x80
  {
    assert (half - 1 - rest) * p >= 0;
  }

  // The next bit of the dividend's first bits.
  lemma NextPrefix(first: nat, half: nat, bit: nat)
    requires half >= 1
    ensures Times(first, 2 * half) + bit * half == Times(2 * first + bit, half)
    ensures 2 * first + bit <= Times(2 * first + bit, half)
  {
    assert (2 * first + bit) * (half - 1) >= 0;
  }

  lemma NextDigit(b: nat, q: nat)
    ensures Times(2 * q, b) == 2 * Times(q, b) && Times(2 * q + 1, b) == 2 * Times(q, b) + b
  {}

  // The conditional subtraction and the register it leaves.
  function Subtract(b: nat, w: nat): nat {
    if w / 0x100 >= b then (w / 0x100 - b) * 0x100 + w % 0x100 + 1 else w
  }

  // The shift drops nothing where the upper byte is below 128.
  lemma SubtractParts(b: nat, v: nat, rem: nat, bit: nat, low: nat)
    requires bit <= 1 && 2 * rem + bit < 0x100 && low < 0x80 && v == rem * 0x100 + bit * 0x80 + low
    ensures Subtract(b, v % 0x8000 * 2)
         == if 2 * rem + bit >= b then (2 * rem + bit - b) * 0x100 + 2 * low + 1 else (2 * rem + bit) * 0x100 + 2 * low
  {
    var w := v % 0x8000 * 2;
    assert w == (2 * rem + bit) * 0x100 + 2 * low;
    assert w / 0x100 == 2 * rem + bit && w % 0x100 == 2 * low;
  }

  // One round: what the register holds afterwards, with the next bit of the quotient.
  lemma Round(a: nat, b: nat, p: nat, half: nat, v: nat, rem: nat, rest: nat, q: nat)
    returns (rem': nat, rest': nat, q': nat)
    requires a < 0x100 && half >= 1 && Times(p, half) == 0x80
    requires Dividing(a, b, p, 2 * half, v, rem, rest, q)
    ensures Dividing(a, b, 2 * p, half, Subtract(b, v % 0x8000 * 2), rem', rest', q')
  {
    hide Times, Subtract;
    var bit := if rest >= half then 1 else 0;
    rest' := rest - bit * half;
    TopBit(p, half, bit, rest');
    NextPrefix(Times(q, b) + rem, half, bit);
    NextDigit(b, q);
    Double(rest', p);
    SubtractParts(b, v, rem, bit, Times(rest', p) + q);
    if 2 * rem + bit >= b {
      rem', q' := 2 * rem + bit - b, 2 * q + 1;
    } else {
      rem', q' := 2 * rem + bit, 2 * q;
    }
  }

  lemma RoundAt(a: nat, b: nat, i: nat, v: nat, rem: nat, rest: nat, q: nat)
    returns (rem': nat, rest': nat, q': nat)
    requires a < 0x100 && i < 8
    requires Dividing(a, b, Pow2(i), Pow2(8 - i), v, rem, rest, q)
    ensures Dividing(a, b, Pow2(i + 1), Pow2(7 - i), Subtract(b, v % 0x8000 * 2), rem', rest', q')
  {
    Pow2Product(i, 7 - i);
    assert Pow2(7) == 0x80;
    hide Dividing, Subtract, Times;
    rem', rest', q' := Round(a, b, Pow2(i), Pow2(7 - i), v, rem, rest, q);
  }

  lemma StartDividing(a: byte, b: byte)
    requires 0 < b
    ensures Dividing(a, b, Pow2(0), Pow2(8), a, 0, a, 0)
  {
    assert Pow2(8) == 0x100;
  }

  lemma DividedOut(a: byte, b: byte, v: nat, rem: nat, rest: nat, q: nat)
    requires Dividing(a, b, Pow2(8), Pow2(0), v, rem, rest, q)
    ensures v < 0x10000 && v / 0x100 == a % b && v % 0x100 == a / b
  {
    assert Pow2(8) == 0x100 && rest == 0;
    QuotientIsUnique(a, b, q, rem);
  }

  lemma OnceOrMore(d: int, b: nat)
    ensures d >= 1 ==> d * b >= b
    ensures d <= -1 ==> d * b + b <= 0
  {
    assert d >= 1 ==> (d - 1) * b >= 0;
    assert d <= -1 ==> (-1 - d) * b >= 0;
  }

  lemma QuotientIsUnique(a: nat, b: nat, q: nat, rem: nat)
    requires a == q * b + rem && rem < b
    ensures a / b == q && a % b == rem
  {
    var d := a / b - q;
    assert d * b == rem - a % b;
    OnceOrMore(d, b);
  }

  // The quotients the loop is not needed for.
  lemma SmallQuotients(a: byte, b: byte)
    requires 0 < b
    ensures a == b ==> a / b == 1 && a % b == 0
    ensures a < b ==> a / b == 0 && a % b == a
  {}

  // DO_DIV: eight rounds of shift and conditional subtraction on a 16-bit register whose upper byte
  // becomes the remainder and whose lower byte the quotient. The shift drops the top bit. Division
  // by zero sets the overflow and leaves any result.
  method DoDiv(a: byte, b: byte, any: word) returns (r: word, ov: bool)
    ensures ov <==> b == 0
    ensures b != 0 ==> Lo(r) == a / b && Hi(r) == a % b
  {
    hide Dividing, Pow2;
    if b == 0 {
      return any, true;
    }
    SmallQuotients(a, b);
    if a == b {
      return 1, false;
    } else if a < b {
      return 0x100 * a, false;
    }
    var v: nat := a;
    ghost var rem: nat, rest: nat, q: nat := 0, a, 0;
    StartDividing(a, b);
    for i := 0 to 8
      invariant Dividing(a, b, Pow2(i), Pow2(8 - i), v, rem, rest, q)
    {
      rem, rest, q := RoundAt(a, b, i, v, rem, rest, q);
      v := v % 0x8000 * 2;
      if v / 0x100 >= b {
        v := (v / 0x100 - b) * 0x100 + v % 0x100 + 1;
      }
    }
    DividedOut(a, b, v, rem, rest, q);
    return v, false;
  }
}
