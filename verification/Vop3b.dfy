/** The VOP3b carry instructions: registers of mgpusim/emu/wavefront.go, one instruction of mgpusim/emu/aluvop3b.go
    between the preparation and the commit of mgpusim/emu/scratchpadpreparer.go, and chains of them. Registers hold
    32-bit words. */
module Vop3b {
  import opened Wrappers
  import opened Arith

  const W32: nat := 0x1_0000_0000
  const W64: nat := 0x1_0000_0000_0000_0000

  /* ----- Bits of 64-bit values ----- */

  function Pow2(n: nat): (p: nat)
    ensures p > 0
  {
    if n == 0 then 1 else 2 * Pow2(n - 1)
  }

  /** (v & (1 << i)) >> i */
  function Bit(v: nat, i: nat): (b: nat)
    ensures b <= 1
  {
    (v / Pow2(i)) % 2
  }

  /** The number whose bits are given, lowest first. */
  function Word(bits: seq<bool>): nat {
    if bits == [] then 0 else (if bits[0] then 1 else 0) + 2 * Word(bits[1..])
  }

  lemma {:induction false} WordBound(bits: seq<bool>)
    ensures Word(bits) < Pow2(|bits|)
  {
    if bits != [] {
      WordBound(bits[1..]);
    }
  }

  lemma DivTwice(v: nat, p: nat)
    requires p > 0
    ensures v / (2 * p) == (v / 2) / p
  {
    var q, r := (v / 2) / p, (v / 2) % p;
    assert v / 2 == q * p + r;
    assert v == 2 * (q * p + r) + v % 2;
    assert q * (2 * p) == 2 * (q * p);
    DivModUnique(v, 2 * p, q, 2 * r + v % 2);
  }

  lemma {:induction false} BitOfWord(bits: seq<bool>, i: nat)
    requires i < |bits|
    ensures Bit(Word(bits), i) == if bits[i] then 1 else 0
  {
    if i > 0 {
      BitOfWord(bits[1..], i - 1);
      DivTwice(Word(bits), Pow2(i - 1));
      assert Word(bits) / 2 == Word(bits[1..]);
    }
  }

  lemma BitOfHalf(v: nat, i: nat)
    requires i > 0
    ensures Bit(v, i) == Bit(v / 2, i - 1)
  {
    DivTwice(v, Pow2(i - 1));
  }

  lemma FirstBit(v: nat)
    ensures Bit(v, 0) == v % 2
  {
  }

  lemma HalfOfSum(lo: nat, p: nat, hi: nat)
    ensures lo + (2 * p) * hi == lo + 2 * (p * hi)
    ensures (lo + (2 * p) * hi) / 2 == lo / 2 + p * hi && (lo + (2 * p) * hi) % 2 == lo % 2
  {
    var x := p * hi;
    assert (2 * p) * hi == 2 * x;
    assert (lo + 2 * x) / 2 == lo / 2 + x;
  }

  lemma AtBitZero(lo: nat, hi: nat)
    requires lo < Pow2(0)
    ensures lo + Pow2(0) * hi == hi
  {
  }

  /** The low n bits of lo + 2^n * hi are those of lo, and behind them come those of hi. */
  lemma {:induction false} BitOfSum(lo: nat, n: nat, hi: nat, i: nat)
    requires lo < Pow2(n)
    ensures Bit(lo + Pow2(n) * hi, i) == if i < n then Bit(lo, i) else Bit(hi, i - n)
  {
    Pow2Step(n);
    hide Bit;
    if n == 0 {
      AtBitZero(lo, hi);
    } else {
      hide Pow2;
      HalfOfSum(lo, Pow2(n - 1), hi);
      if i == 0 {
        FirstBit(lo + Pow2(n) * hi);
        FirstBit(lo);
      } else {
        BitOfHalf(lo + Pow2(n) * hi, i);
        BitOfHalf(lo, i);
        BitOfSum(lo / 2, n - 1, hi, i - 1);
      }
    }
  }

  lemma Pow2Of32()
    ensures Pow2(32) == W32
  {
    assert Pow2(4) == 16;
    Pow2Adds(4, 4);
    Pow2Adds(8, 8);
    Pow2Adds(16, 16);
  }

  lemma Pow2Of64()
    ensures Pow2(64) == W64
  {
    hide Pow2;
    Pow2Of32();
    Pow2Adds(32, 32);
  }

  lemma {:induction false} Pow2Adds(a: nat, b: nat)
    ensures Pow2(a + b) == Pow2(a) * Pow2(b)
  {
    Pow2Step(a);
    hide Pow2;
    if a > 0 {
      Pow2Adds(a - 1, b);
      Pow2Step(a + b);
      Twice(Pow2(a - 1), Pow2(b));
    }
  }

  lemma Pow2Step(a: nat)
    ensures if a == 0 then Pow2(a) == 1 else Pow2(a) == 2 * Pow2(a - 1)
  {
  }

  lemma Twice(p: nat, q: nat)
    ensures 2 * (p * q) == (2 * p) * q
  {
  }

  /* ----- Registers ----- */

  /** One row of 256 vector registers per lane. */
  datatype Regs = Regs(sreg: seq<nat>, vreg: seq<seq<nat>>, exec: nat, vcc: nat)

  predicate IsWord(v: nat) {
    v < W32
  }

  ghost predicate RegsOk(m: Regs) {
    && |m.sreg| == 102 && (forall i :: 0 <= i < 102 ==> IsWord(m.sreg[i]))
    && |m.vreg| == 64 && (forall l :: 0 <= l < 64 ==> RowOk(m.vreg[l]))
    && m.exec < W64 && m.vcc < W64
  }

  ghost predicate RowOk(row: seq<nat>) {
    |row| == 256 && forall r :: 0 <= r < 256 ==> IsWord(row[r])
  }

  /** A 64-bit register: VCC, or two consecutive scalar registers. */
  datatype MaskReg = Vcc | Pair(first: nat)

  predicate MaskRegOk(r: MaskReg) {
    r.Pair? ==> r.first + 1 < 102
  }

  function ReadMask(m: Regs, r: MaskReg): nat
    requires |m.sreg| == 102 && MaskRegOk(r)
  {
    if r.Vcc? then m.vcc else m.sreg[r.first] + W32 * m.sreg[r.first + 1]
  }

  function WriteMask(m: Regs, r: MaskReg, v: nat): Regs
    requires |m.sreg| == 102 && MaskRegOk(r)
  {
    if r.Vcc? then m.(vcc := v) else m.(sreg := m.sreg[r.first := v % W32][r.first + 1 := v / W32])
  }

  /** A mask written to a scalar pair or to VCC is read back unchanged. */
  lemma MaskRoundTrip(m: Regs, r: MaskReg, v: nat)
    requires RegsOk(m) && MaskRegOk(r) && v < W64
    ensures RegsOk(WriteMask(m, r, v)) && ReadMask(WriteMask(m, r, v), r) == v
  {
  }

  /** Lanes 0 to 31 have their flags in the first register of a pair, lanes 32 to 63 in the second one. */
  lemma FlagsOfPair(m: Regs, first: nat, l: nat)
    requires RegsOk(m) && first + 1 < 102 && l < 64
    ensures Bit(ReadMask(m, Pair(first)), l) ==
            if l < 32 then Bit(m.sreg[first], l) else Bit(m.sreg[first + 1], l - 32)
  {
    var n: nat := 32;
    Pow2Of32();
    BitOfSum(m.sreg[first], n, m.sreg[first + 1], l);
    hide Pow2;
    hide Bit;
  }

  /* ----- One instruction ----- */

  datatype Opcode = Add | AddC | SubRev | SubBRev

  /** `src2` is the carry-in of AddC and SubBRev; the other two ignore it. */
  datatype Inst = Inst(op: Opcode, dst: nat, src0: nat, src1: nat, src2: Option<MaskReg>, sdst: MaskReg)

  predicate InstOk(inst: Inst) {
    && inst.dst < 256 && inst.src0 < 256 && inst.src1 < 256 && MaskRegOk(inst.sdst)
    && (inst.src2.Some? ==> MaskRegOk(inst.src2.value))
    && (inst.op.AddC? || inst.op.SubBRev? ==> inst.src2.Some?)
  }

  /** The 64-bit result of a lane before truncation. */
  function Raw(op: Opcode, a: nat, b: nat, c: nat): (r: nat)
    ensures r < W64
  {
    match op
    case Add => (a + b) % W64
    case AddC => (a + b + c) % W64
    case SubRev => (b - a) % W64
    case SubBRev => (b - a - c) % W64
  }

  /** What is stored and the carry, by the comparison with 0xffffffff. */
  function Value(op: Opcode, a: nat, b: nat, c: nat): nat {
    Raw(op, a, b, c) % W32
  }

  function Carry(op: Opcode, a: nat, b: nat, c: nat): nat {
    if Raw(op, a, b, c) > 0xffff_ffff then 1 else 0
  }

  function CarryIn(m: Regs, inst: Inst, lane: nat): nat
    requires |m.sreg| == 102 && InstOk(inst)
  {
    if inst.src2.None? then 0 else Bit(ReadMask(m, inst.src2.value), lane)
  }

  predicate Active(exec: nat, lane: nat) {
    Bit(exec, lane) > 0
  }

  /** Lane arithmetic is exact: sum and carry, or difference and borrow, of the operands and the carry-in. */
  lemma LaneIsExact(op: Opcode, a: nat, b: nat, c: nat)
    requires IsWord(a) && IsWord(b) && c <= 1
    ensures Value(op, a, b, c) < W32
    ensures op.Add? ==> a + b == Value(op, a, b, c) + W32 * Carry(op, a, b, c)
    ensures op.AddC? ==> a + b + c == Value(op, a, b, c) + W32 * Carry(op, a, b, c)
    ensures op.SubRev? ==> b - a == Value(op, a, b, c) - W32 * Carry(op, a, b, c)
    ensures op.SubBRev? ==> b - a - c == Value(op, a, b, c) - W32 * Carry(op, a, b, c)
  {
    match op {
      case Add => SumIsExact(a + b);
      case AddC => SumIsExact(a + b + c);
      case SubRev => DifferenceIsExact(b - a);
      case SubBRev => DifferenceIsExact(b - a - c);
    }
  }

  lemma SumIsExact(s: nat)
    requires s < 2 * W32
    ensures var r := s % W64; s == r % W32 + W32 * (if r > 0xffff_ffff then 1 else 0)
  {
  }

  lemma DifferenceIsExact(d: int)
    requires 0 - W32 <= d < W32
    ensures var r := d % W64; d == r % W32 - W32 * (if r > 0xffff_ffff then 1 else 0)
  {
    if d < 0 {
      DivModUnique(d, W64, -1, d + W64);
      DivModUnique(d + W64, W32, W32 - 1, d + W32);
    }
  }

  function LaneValue(m: Regs, inst: Inst, lane: nat): nat
    requires RegsOk(m) && InstOk(inst) && lane < 64
  {
    Value(inst.op, m.vreg[lane][inst.src0], m.vreg[lane][inst.src1], CarryIn(m, inst, lane))
  }

  function LaneCarry(m: Regs, inst: Inst, lane: nat): nat
    requires RegsOk(m) && InstOk(inst) && lane < 64
  {
    Carry(inst.op, m.vreg[lane][inst.src0], m.vreg[lane][inst.src1], CarryIn(m, inst, lane))
  }

  function NewRow(m: Regs, inst: Inst, lane: nat): seq<nat>
    requires RegsOk(m) && InstOk(inst) && lane < 64
  {
    if Active(m.exec, lane) then m.vreg[lane][inst.dst := LaneValue(m, inst, lane)] else m.vreg[lane]
  }

  /** Carries of active lanes; zero for the others. */
  function CarryMask(m: Regs, inst: Inst): (r: seq<bool>)
    requires RegsOk(m) && InstOk(inst)
    ensures |r| == 64 && forall l :: 0 <= l < 64 ==> r[l] == (Active(m.exec, l) && LaneCarry(m, inst, l) == 1)
  {
    seq(64, l requires 0 <= l < 64 => Active(m.exec, l) && LaneCarry(m, inst, l) == 1)
  }

  function NewRows(m: Regs, inst: Inst): (r: seq<seq<nat>>)
    requires RegsOk(m) && InstOk(inst)
    ensures |r| == 64 && forall l :: 0 <= l < 64 ==> r[l] == NewRow(m, inst, l)
  {
    seq(64, l requires 0 <= l < 64 => NewRow(m, inst, l))
  }

  function Execute(m: Regs, inst: Inst): Regs
    requires RegsOk(m) && InstOk(inst)
  {
    WriteMask(m.(vreg := NewRows(m, inst)), inst.sdst, Word(CarryMask(m, inst)))
  }

  /** Registers stay words, and inactive lanes keep every vector register. */
  lemma ExecuteKeeps(m: Regs, inst: Inst)
    requires RegsOk(m) && InstOk(inst)
    ensures var m' := Execute(m, inst);
            && RegsOk(m') && m'.exec == m.exec && m'.vreg == NewRows(m, inst)
            && (forall l :: 0 <= l < 64 && !Active(m.exec, l) ==> m'.vreg[l] == m.vreg[l])
  {
    hide Active;
    hide Word;
    var mid := m.(vreg := NewRows(m, inst));
    forall l | 0 <= l < 64 ensures RowOk(mid.vreg[l]) {
      NewRowOk(m, inst, l);
    }
    MaskFits(m, inst);
    hide NewRows;
    MaskRoundTrip(mid, inst.sdst, Word(CarryMask(m, inst)));
  }

  /** Nothing else changes: of the vector registers only the destination, of the masks only the carry-out. */
  lemma OnlyResultsChange(m: Regs, inst: Inst, l: nat, r: nat)
    requires RegsOk(m) && InstOk(inst) && l < 64 && r < 256
    ensures var m' := Execute(m, inst);
            && m'.exec == m.exec && RegsOk(m')
            && (r != inst.dst ==> m'.vreg[l][r] == m.vreg[l][r])
            && (inst.sdst.Vcc? ==> m'.sreg == m.sreg)
            && (inst.sdst.Pair? ==> m'.vcc == m.vcc)
            && (inst.sdst.Pair? ==> forall i :: 0 <= i < 102 && i != inst.sdst.first && i != inst.sdst.first + 1 ==>
                  m'.sreg[i] == m.sreg[i])
  {
    ExecuteKeeps(m, inst);
    hide Active;
    hide Word;
    hide LaneValue;
    assert RowOk(m.vreg[l]);
  }

  lemma NewRowOk(m: Regs, inst: Inst, l: nat)
    requires RegsOk(m) && InstOk(inst) && l < 64
    ensures RowOk(NewRow(m, inst, l))
  {
    hide Active;
    hide CarryIn;
    assert RowOk(m.vreg[l]);
    assert LaneValue(m, inst, l) < W32;
    hide LaneValue;
  }

  lemma MaskFits(m: Regs, inst: Inst)
    requires RegsOk(m) && InstOk(inst)
    ensures Word(CarryMask(m, inst)) < W64
  {
    hide CarryMask;
    WordBound(CarryMask(m, inst));
    Pow2Of64();
  }

  /** The carry-out of a lane, read through the same register as a carry-in. */
  lemma CarryPasses(m: Regs, inst: Inst, l: nat)
    requires RegsOk(m) && InstOk(inst) && l < 64 && Active(m.exec, l)
    ensures Bit(ReadMask(Execute(m, inst), inst.sdst), l) == LaneCarry(m, inst, l)
  {
    hide Active;
    hide LaneCarry;
    hide NewRow;
    MaskFits(m, inst);
    BitOfWord(CarryMask(m, inst), l);
    LaneCarryIsBit(m, inst, l);
    hide Word;
    hide Bit;
  }

  /** An inactive lane has no carry-out. */
  lemma InactiveCarriesNothing(m: Regs, inst: Inst, l: nat)
    requires RegsOk(m) && InstOk(inst) && l < 64 && Bit(m.exec, l) == 0
    ensures Bit(ReadMask(Execute(m, inst), inst.sdst), l) == 0
  {
    assert !Active(m.exec, l);
    hide Active;
    hide LaneCarry;
    hide NewRow;
    MaskFits(m, inst);
    BitOfWord(CarryMask(m, inst), l);
    hide Word;
    hide Bit;
  }

  lemma LaneCarryIsBit(m: Regs, inst: Inst, l: nat)
    requires RegsOk(m) && InstOk(inst) && l < 64
    ensures LaneCarry(m, inst, l) <= 1
  {
    hide CarryIn;
  }

  /* ----- Chains ----- */

  /** Numbers of any length: limb k counts 2 to the 32k. */
  function Pow32(k: nat): (p: nat)
    ensures p > 0
  {
    if k == 0 then 1 else W32 * Pow32(k - 1)
  }

  /** The number in registers regs[0], regs[1], ... of a lane, lowest limb first. */
  function Number(row: seq<nat>, regs: seq<nat>, k: nat): nat
    requires k <= |regs| && |row| == 256 && forall i :: 0 <= i < |regs| ==> regs[i] < 256
  {
    if k == 0 then 0 else Number(row, regs, k - 1) + row[regs[k - 1]] * Pow32(k - 1)
  }

  /** Operand and result registers of an n-limb operation. A result register may be an operand register of the same limb
      but not of a later one, and results are distinct. */
  datatype Plan = Plan(n: nat, dst: seq<nat>, src0: seq<nat>, src1: seq<nat>, carry: MaskReg)

  ghost predicate Below256(regs: seq<nat>, n: nat) {
    |regs| == n && forall i :: 0 <= i < n ==> regs[i] < 256
  }

  ghost predicate PlanOk(p: Plan) {
    && Below256(p.dst, p.n) && Below256(p.src0, p.n) && Below256(p.src1, p.n) && MaskRegOk(p.carry)
    && (forall i, j :: 0 <= i < j < p.n ==> p.dst[i] != p.src0[j] && p.dst[i] != p.src1[j] && p.dst[i] != p.dst[j])
  }

  /** Instruction k of the chain: the first has no carry-in, the others take the carry of the one before. */
  function Limb(p: Plan, add: bool, k: nat): Inst
    requires k < |p.dst| && k < |p.src0| && k < |p.src1|
  {
    if k == 0 then Inst(if add then Add else SubRev, p.dst[0], p.src0[0], p.src1[0], None, p.carry)
    else Inst(if add then AddC else SubBRev, p.dst[k], p.src0[k], p.src1[k], Some(p.carry), p.carry)
  }

  /** The registers after the first k instructions. */
  ghost function Chain(m: Regs, p: Plan, add: bool, k: nat): (m': Regs)
    requires RegsOk(m) && PlanOk(p) && k <= p.n
    ensures RegsOk(m') && m'.exec == m.exec
  {
    if k == 0 then m
    else
      var before := Chain(m, p, add, k - 1);
      ExecuteKeeps(before, Limb(p, add, k - 1));
      Execute(before, Limb(p, add, k - 1))
  }

  /** One step of the chain in an active lane. */
  lemma ChainStep(m: Regs, p: Plan, add: bool, k: nat, l: nat)
    requires RegsOk(m) && PlanOk(p) && k < p.n && l < 64 && Active(m.exec, l)
    ensures var before, after, inst := Chain(m, p, add, k), Chain(m, p, add, k + 1), Limb(p, add, k);
            && after.vreg[l] == before.vreg[l][p.dst[k] := LaneValue(before, inst, l)]
            && Bit(ReadMask(after, p.carry), l) == LaneCarry(before, inst, l)
  {
    hide Active;
    hide LaneValue;
    hide LaneCarry;
    hide Execute;
    hide Bit;
    var before, inst := Chain(m, p, add, k), Limb(p, add, k);
    ExecuteKeeps(before, inst);
    CarryPasses(before, inst, l);
    assert Chain(m, p, add, k + 1) == Execute(before, inst);
  }

  /** Operand limbs that are still to be read are as at the start. */
  lemma {:induction false} OperandsWait(m: Regs, p: Plan, add: bool, k: nat, l: nat, j: nat)
    requires RegsOk(m) && PlanOk(p) && k <= j < p.n && l < 64 && Active(m.exec, l)
    ensures Chain(m, p, add, k).vreg[l][p.src0[j]] == m.vreg[l][p.src0[j]]
    ensures Chain(m, p, add, k).vreg[l][p.src1[j]] == m.vreg[l][p.src1[j]]
    decreases k
  {
    hide Active;
    hide Chain;
    if k == 0 {
      ChainStart(m, p, add);
    } else {
      OperandsWait(m, p, add, k - 1, l, j);
      OneStepKeeps(m, p, add, k - 1, l, j);
    }
  }

  lemma ChainStart(m: Regs, p: Plan, add: bool)
    requires RegsOk(m) && PlanOk(p)
    ensures Chain(m, p, add, 0) == m
  {
  }

  lemma OneStepKeeps(m: Regs, p: Plan, add: bool, k: nat, l: nat, j: nat)
    requires RegsOk(m) && PlanOk(p) && k < j < p.n && l < 64 && Active(m.exec, l)
    ensures var row, row' := Chain(m, p, add, k).vreg[l], Chain(m, p, add, k + 1).vreg[l];
            row'[p.src0[j]] == row[p.src0[j]] && row'[p.src1[j]] == row[p.src1[j]]
  {
    hide Active;
    hide Chain;
    hide LaneValue;
    hide LaneCarry;
    hide Bit;
    hide ReadMask;
    var before := Chain(m, p, add, k);
    ChainStep(m, p, add, k, l);
    assert RowOk(before.vreg[l]);
    assert p.dst[k] != p.src0[j] && p.dst[k] != p.src1[j];
    OthersKeep(before.vreg[l], p.dst[k], LaneValue(before, Limb(p, add, k), l), p.src0[j], p.src1[j]);
  }

  lemma OthersKeep(row: seq<nat>, r: nat, v: nat, a: nat, b: nat)
    requires |row| == 256 && r < 256 && a < 256 && b < 256
    ensures a != r ==> row[r := v][a] == row[a]
    ensures b != r ==> row[r := v][b] == row[b]
  {
  }

  /** A register that is no result of the first k limbs keeps its value in them. */
  lemma {:induction false} NumberSame(row: seq<nat>, row': seq<nat>, regs: seq<nat>, k: nat)
    requires k <= |regs| && |row| == 256 && |row'| == 256 && (forall i :: 0 <= i < |regs| ==> regs[i] < 256)
    requires forall i :: 0 <= i < k ==> row'[regs[i]] == row[regs[i]]
    ensures Number(row', regs, k) == Number(row, regs, k)
    decreases k
  {
    if k > 0 {
      NumberSame(row, row', regs, k - 1);
    }
  }

  lemma LimbAdds(a: nat, b: nat, c: nat, d: nat, c': nat, k: nat, x: nat, y: nat, z: nat)
    requires x + c * Pow32(k) == y + z && a + b + c == d + W32 * c'
    ensures (x + d * Pow32(k)) + c' * Pow32(k + 1) == (y + a * Pow32(k)) + (z + b * Pow32(k))
  {
    var p := Pow32(k);
    assert c' * (W32 * p) == (W32 * c') * p;
    assert (a + b + c) * p == a * p + b * p + c * p;
    assert (d + W32 * c') * p == d * p + (W32 * c') * p;
  }

  lemma LimbSubtracts(a: nat, b: nat, c: nat, d: nat, c': nat, k: nat, x: nat, y: nat, z: nat)
    requires z - y == x - c * Pow32(k) && b - a - c == d - W32 * c'
    ensures (z + b * Pow32(k)) - (y + a * Pow32(k)) == (x + d * Pow32(k)) - c' * Pow32(k + 1)
  {
    var p := Pow32(k);
    assert c' * (W32 * p) == (W32 * c') * p;
    assert (b - a - c) * p == b * p - a * p - c * p;
    assert (d - W32 * c') * p == d * p - (W32 * c') * p;
  }

  /** The carry that limb k receives. */
  ghost function Received(m: Regs, p: Plan, add: bool, k: nat, l: nat): nat
    requires RegsOk(m) && PlanOk(p) && k <= p.n && l < 64
  {
    if k == 0 then 0 else Bit(ReadMask(Chain(m, p, add, k), p.carry), l)
  }

  /** One limb: its result and its carry-out against its operands and its carry-in. */
  lemma LimbIsExact(m: Regs, p: Plan, add: bool, k: nat, l: nat)
    requires RegsOk(m) && PlanOk(p) && k < p.n && l < 64 && Active(m.exec, l)
    ensures var a, b, c := m.vreg[l][p.src0[k]], m.vreg[l][p.src1[k]], Received(m, p, add, k, l);
            var d, c' := Chain(m, p, add, k + 1).vreg[l][p.dst[k]], Received(m, p, add, k + 1, l);
            if add then a + b + c == d + W32 * c' else b - a - c == d - W32 * c'
  {
    hide Active;
    OperandsWait(m, p, add, k, l, k);
    ChainStep(m, p, add, k, l);
    var before, inst := Chain(m, p, add, k), Limb(p, add, k);
    var a, b, c := m.vreg[l][p.src0[k]], m.vreg[l][p.src1[k]], CarryIn(before, inst, l);
    assert RowOk(m.vreg[l]) && RowOk(before.vreg[l]);
    LaneIsExact(inst.op, a, b, c);
    hide Chain;
    hide Bit;
    hide Value;
    hide Carry;
    hide ReadMask;
  }

  lemma {:induction false} ChainOfLane(m: Regs, p: Plan, add: bool, k: nat, l: nat)
    requires RegsOk(m) && PlanOk(p) && k <= p.n && l < 64 && Active(m.exec, l)
    ensures var row, row' := m.vreg[l], Chain(m, p, add, k).vreg[l];
            var result, carry := Number(row', p.dst, k), Received(m, p, add, k, l);
            if add then result + carry * Pow32(k) == Number(row, p.src0, k) + Number(row, p.src1, k)
            else Number(row, p.src1, k) - Number(row, p.src0, k) == result - carry * Pow32(k)
    decreases k
  {
    hide Active;
    hide Chain;
    hide Received;
    if k == 0 {
      NothingYet(m, p, add, l);
    } else {
      ChainOfLane(m, p, add, k - 1, l);
      LimbIsExact(m, p, add, k - 1, l);
      var row, mid, row' := m.vreg[l], Chain(m, p, add, k - 1).vreg[l], Chain(m, p, add, k).vreg[l];
      EarlierResultsStay(m, p, add, k - 1, l);
      var a, b, c := row[p.src0[k - 1]], row[p.src1[k - 1]], Received(m, p, add, k - 1, l);
      var d, c' := row'[p.dst[k - 1]], Received(m, p, add, k, l);
      if add {
        LimbAdds(a, b, c, d, c', k - 1, Number(mid, p.dst, k - 1), Number(row, p.src0, k - 1),
            Number(row, p.src1, k - 1));
      } else {
        LimbSubtracts(a, b, c, d, c', k - 1, Number(mid, p.dst, k - 1), Number(row, p.src0, k - 1),
            Number(row, p.src1, k - 1));
      }
    }
  }

  /** Chains are exact for numbers of any length: in every active lane the result registers and the final carry are the
      sum of the two numbers, or the difference and the final borrow. */
  lemma ChainIsExact(m: Regs, p: Plan, add: bool, k: nat, l: nat)
    requires RegsOk(m) && PlanOk(p) && k <= p.n && l < 64 && Bit(m.exec, l) == 1
    ensures var row, row' := m.vreg[l], Chain(m, p, add, k).vreg[l];
            var result, carry := Number(row', p.dst, k), Received(m, p, add, k, l);
            if add then result + carry * Pow32(k) == Number(row, p.src0, k) + Number(row, p.src1, k)
            else Number(row, p.src1, k) - Number(row, p.src0, k) == result - carry * Pow32(k)
  {
    assert Active(m.exec, l);
    hide *;
    ChainOfLane(m, p, add, k, l);
  }

  lemma NothingYet(m: Regs, p: Plan, add: bool, l: nat)
    requires RegsOk(m) && PlanOk(p) && l < 64
    ensures Received(m, p, add, 0, l) == 0
  {
  }

  lemma EarlierResultsStay(m: Regs, p: Plan, add: bool, k: nat, l: nat)
    requires RegsOk(m) && PlanOk(p) && k < p.n && l < 64 && Active(m.exec, l)
    ensures Number(Chain(m, p, add, k + 1).vreg[l], p.dst, k) == Number(Chain(m, p, add, k).vreg[l], p.dst, k)
  {
    hide Active;
    ChainStep(m, p, add, k, l);
    var before := Chain(m, p, add, k);
    hide Chain;
    assert RowOk(before.vreg[l]);
    NumberSame(before.vreg[l], Chain(m, p, add, k + 1).vreg[l], p.dst, k);
  }

  /** Inactive lanes keep all their registers through a chain. */
  lemma {:induction false} InactiveLanesKeep(m: Regs, p: Plan, add: bool, k: nat, l: nat)
    requires RegsOk(m) && PlanOk(p) && k <= p.n && l < 64 && Bit(m.exec, l) == 0
    ensures Chain(m, p, add, k).vreg[l] == m.vreg[l]
    decreases k
  {
    assert !Active(m.exec, l);
    hide Active;
    if k > 0 {
      InactiveLanesKeep(m, p, add, k - 1, l);
      var before := Chain(m, p, add, k - 1);
      ExecuteKeeps(before, Limb(p, add, k - 1));
      hide Execute;
    }
  }
}
