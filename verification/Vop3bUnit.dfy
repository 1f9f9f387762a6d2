/** Preparing, running and committing a VOP3b instruction, with the loops of the source. */
module Vop3bUnits {
  import M = Vop3b

  class Wavefront {
    var sRegFile: seq<nat>
    var vRegFile: seq<seq<nat>>
    var exec: nat
    var vcc: nat

    function View(): M.Regs
      reads this
    {
      M.Regs(sRegFile, vRegFile, exec, vcc)
    }

    ghost predicate Valid()
      reads this
    {
      M.RegsOk(View())
    }

    constructor ()
      ensures Valid() && View() == M.Regs(seq(102, _ => 0), seq(64, _ => seq(256, _ => 0)), 0, 0)
    {
      sRegFile, vRegFile, exec, vcc := seq(102, _ => 0), seq(64, _ => seq(256, _ => 0)), 0, 0;
    }

    /** ReadReg of a 64-bit register. */
    method ReadMaskReg(r: M.MaskReg) returns (v: nat)
      requires Valid() && M.MaskRegOk(r)
      ensures v == M.ReadMask(View(), r)
    {
      match r {
        case Vcc => v := vcc;
        case Pair(first) => v := sRegFile[first] + M.W32 * sRegFile[first + 1];
      }
    }

    /** WriteReg of a 64-bit register. */
    method WriteMaskReg(r: M.MaskReg, v: nat)
      requires |sRegFile| == 102 && M.MaskRegOk(r)
      modifies this`sRegFile, this`vcc
      ensures View() == M.WriteMask(old(View()), r, v)
    {
      match r {
        case Vcc => vcc := v;
        case Pair(first) =>
          sRegFile := sRegFile[first := v % M.W32];
          sRegFile := sRegFile[first + 1 := v / M.W32];
      }
    }
  }

  class Scratchpad {
    var EXEC: nat
    var VCC: nat
    var DST: array<nat>
    var SRC0: array<nat>
    var SRC1: array<nat>
    var SRC2: array<nat>
    var SDST: seq<bool>

    ghost predicate Valid()
      reads this
    {
      && DST.Length == SRC0.Length == SRC1.Length == SRC2.Length == |SDST| == 64
      && DST != SRC0 && DST != SRC1 && DST != SRC2 && SRC0 != SRC1 && SRC0 != SRC2 && SRC1 != SRC2
    }

    constructor ()
      ensures Valid() && fresh(DST) && fresh(SRC0) && fresh(SRC1) && fresh(SRC2)
    {
      EXEC, VCC, SDST := 0, 0, seq(64, _ => false);
      DST, SRC0 := new nat[64](_ => 0), new nat[64](_ => 0);
      SRC1, SRC2 := new nat[64](_ => 0), new nat[64](_ => 0);
    }

    method Clear()
      requires Valid()
      modifies this`EXEC, this`VCC, this`SDST, DST, SRC0, SRC1, SRC2
      ensures Valid() && EXEC == 0 && VCC == 0 && SDST == seq(64, _ => false)
      ensures forall i :: 0 <= i < 64 ==> DST[i] == SRC0[i] == SRC1[i] == SRC2[i] == 0
    {
      EXEC, VCC, SDST := 0, 0, seq(64, _ => false);
      var i := 0;
      while i < 64
        invariant i <= 64 && Valid() && EXEC == 0 && VCC == 0 && SDST == seq(64, _ => false)
        invariant DST == old(DST) && SRC0 == old(SRC0) && SRC1 == old(SRC1) && SRC2 == old(SRC2)
        invariant forall j :: 0 <= j < i ==> DST[j] == SRC0[j] == SRC1[j] == SRC2[j] == 0
      {
        DST[i], SRC0[i], SRC1[i], SRC2[i] := 0, 0, 0, 0;
        i := i + 1;
      }
    }

    /** The operands of every lane, and EXEC and VCC, as the registers have them. */
    ghost predicate Loaded(m: M.Regs, inst: M.Inst)
      requires M.RegsOk(m) && M.InstOk(inst)
      reads this, SRC0, SRC1, SRC2
    {
      && Valid() && EXEC == m.exec && VCC == m.vcc
      && forall i :: 0 <= i < 64 ==>
           SRC0[i] == m.vreg[i][inst.src0] && SRC1[i] == m.vreg[i][inst.src1] &&
           SRC2[i] == (if inst.src2.Some? then M.ReadMask(m, inst.src2.value) else 0)
    }

    method PrepareVOP3b(inst: M.Inst, wf: Wavefront)
      requires Valid() && wf.Valid() && M.InstOk(inst)
      modifies this`EXEC, this`VCC, this`SDST, DST, SRC0, SRC1, SRC2
      ensures Loaded(wf.View(), inst) && SDST == seq(64, _ => false) && wf.Valid()
    {
      hide M.ReadMask;
      Clear();
      EXEC, VCC := wf.exec, wf.vcc;
      ghost var m := wf.View();
      var i := 0;
      while i < 64
        invariant i <= 64 && wf.View() == m && Valid() && EXEC == m.exec && VCC == m.vcc && SDST == seq(64, _ => false)
        invariant DST == old(DST) && SRC0 == old(SRC0) && SRC1 == old(SRC1) && SRC2 == old(SRC2)
        invariant forall j :: 0 <= j < i ==>
                    SRC0[j] == m.vreg[j][inst.src0] && SRC1[j] == m.vreg[j][inst.src1] &&
                    SRC2[j] == (if inst.src2.Some? then M.ReadMask(m, inst.src2.value) else 0)
        invariant forall j :: i <= j < 64 ==> SRC2[j] == 0
      {
        assert M.RowOk(wf.vRegFile[i]);
        SRC0[i] := wf.vRegFile[i][inst.src0];
        SRC1[i] := wf.vRegFile[i][inst.src1];
        if inst.src2.Some? {
          SRC2[i] := wf.ReadMaskReg(inst.src2.value);
        }
        i := i + 1;
      }
    }

    /** Lane i of the result. */
    ghost predicate LaneDone(i: nat, m: M.Regs, inst: M.Inst)
      requires M.RegsOk(m) && M.InstOk(inst) && i < 64
      reads this, DST
    {
      && Valid()
      && (M.Active(m.exec, i) ==> DST[i] == M.LaneValue(m, inst, i))
      && SDST[i] == (M.Active(m.exec, i) && M.LaneCarry(m, inst, i) == 1)
    }

    /** The lane loop of the four instructions. */
    method Run(inst: M.Inst, ghost m: M.Regs)
      requires M.RegsOk(m) && M.InstOk(inst) && Loaded(m, inst) && SDST == seq(64, _ => false)
      modifies this`SDST, DST
      ensures Loaded(m, inst) && forall i :: 0 <= i < 64 ==> LaneDone(i, m, inst)
    {
      hide M.Active;
      hide M.Bit;
      hide M.ReadMask;
      var i := 0;
      while i < 64
        invariant i <= 64 && Loaded(m, inst) && DST == old(DST)
        invariant forall j :: 0 <= j < i ==> LaneDone(j, m, inst)
        invariant forall j :: i <= j < 64 ==> !SDST[j]
      {
        if M.Active(EXEC, i) {
          var carryIn := M.Bit(SRC2[i], i);
          NoCarryWithoutSource(inst, i);
          assert carryIn == M.CarryIn(m, inst, i);
          var sum := M.Raw(inst.op, SRC0[i], SRC1[i], carryIn);
          label before:
          SetLane(i, sum);
          forall j | 0 <= j < i ensures LaneDone(j, m, inst) {
            assert old@before(LaneDone(j, m, inst));
          }
        }
        assert LaneDone(i, m, inst);
        i := i + 1;
      }
    }

    static lemma NoCarryWithoutSource(inst: M.Inst, i: nat)
      ensures M.Bit(0, i) == 0
    {
      assert 0 / M.Pow2(i) == 0;
    }

    /** Stores one lane: a result above 0xffffffff sets the lane's bit in SDST and is truncated. */
    method SetLane(i: nat, sum: nat)
      requires Valid() && i < 64
      modifies this`SDST, DST
      ensures Valid() && DST[i] == sum % M.W32 && forall j :: 0 <= j < 64 && j != i ==> DST[j] == old(DST[j])
      ensures SDST == if sum > 0xffff_ffff then old(SDST)[i := true] else old(SDST)
    {
      DST[i] := sum;
      if DST[i] > 0xffff_ffff {
        SDST := SDST[i := true];
        DST[i] := DST[i] % M.W32;
      }
    }

    /** Writes VCC back, then the active lanes from the last to the first, then the carry mask. */
    method CommitVOP3b(inst: M.Inst, wf: Wavefront)
      requires wf.Valid() && M.InstOk(inst) && Loaded(wf.View(), inst)
      requires forall i :: 0 <= i < 64 ==> LaneDone(i, wf.View(), inst)
      modifies wf
      ensures wf.View() == M.Execute(old(wf.View()), inst)
    {
      hide M.Active;
      hide M.LaneValue;
      hide M.LaneCarry;
      hide M.Word;
      ghost var m := wf.View();
      wf.vcc := VCC;
      var i := 63;
      while i >= 0
        invariant -1 <= i < 64 && |wf.vRegFile| == 64 && wf.sRegFile == m.sreg && wf.exec == m.exec && wf.vcc == m.vcc
        invariant forall l :: 0 <= l < 64 ==> wf.vRegFile[l] == if l > i then M.NewRow(m, inst, l) else m.vreg[l]
      {
        assert LaneDone(i, m, inst) && M.RowOk(m.vreg[i]);
        if M.Active(EXEC, i) {
          wf.vRegFile := wf.vRegFile[i := wf.vRegFile[i][inst.dst := DST[i]]];
        }
        i := i - 1;
      }
      assert wf.vRegFile == M.NewRows(m, inst);
      forall l | 0 <= l < 64 ensures SDST[l] == M.CarryMask(m, inst)[l] {
        assert LaneDone(l, m, inst);
      }
      assert SDST == M.CarryMask(m, inst);
      wf.WriteMaskReg(inst.sdst, M.Word(SDST));
    }

    /** One instruction from registers to registers. */
    method Step(inst: M.Inst, wf: Wavefront)
      requires Valid() && wf.Valid() && M.InstOk(inst)
      modifies this`EXEC, this`VCC, this`SDST, DST, SRC0, SRC1, SRC2, wf
      ensures Valid() && DST == old(DST) && SRC0 == old(SRC0) && SRC1 == old(SRC1) && SRC2 == old(SRC2)
      ensures wf.Valid() && wf.View() == M.Execute(old(wf.View()), inst)
    {
      hide M.Execute;
      M.ExecuteKeeps(wf.View(), inst);
      PrepareVOP3b(inst, wf);
      Run(inst, wf.View());
      CommitVOP3b(inst, wf);
    }

    /** A chain of instructions. */
    method RunChain(p: M.Plan, add: bool, wf: Wavefront)
      requires Valid() && wf.Valid() && M.PlanOk(p)
      modifies this`EXEC, this`VCC, this`SDST, DST, SRC0, SRC1, SRC2, wf
      ensures wf.Valid() && wf.View() == M.Chain(old(wf.View()), p, add, p.n)
    {
      ghost var m := wf.View();
      var k := 0;
      while k < p.n
        invariant k <= p.n && Valid() && wf.Valid() && wf.View() == M.Chain(m, p, add, k)
        invariant DST == old(DST) && SRC0 == old(SRC0) && SRC1 == old(SRC1) && SRC2 == old(SRC2)
      {
        Step(M.Limb(p, add, k), wf);
        k := k + 1;
      }
    }
  }
}
