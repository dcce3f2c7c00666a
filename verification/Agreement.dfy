/** Where the emitted code and the RISC-V specification agree: BLT on equal operands, and 32-bit registers. */
module Agreement {
  import opened Words
  import opened Ir
  import opened Emission
  import opened Layout
  import opened Constants
  import opened RiscV
  import opened Assembly
  import opened Simulation

  // ----- BLT -----

  /** A BLT whose jump is more than falling through to the next instruction. */
  predicate RealBlt(ir: seq<Element>, i: nat)
    requires i < |ir|
  {
    && Jumps(ir[i]) && ir[i].ins.R2? && ir[i].ins.mnemonic == BLT
    && Skip(ir, Target(ir, JumpLabel(ir[i]))) != Skip(ir, i + 1)
  }

  predicate EqualBlt(ir: seq<Element>, h: Hart)
  {
    h.pc < |ir| && RealBlt(ir, h.pc) && Read(h.regs, ir[h.pc].ins.rd) == Read(h.regs, ir[h.pc].ins.rs1)
  }

  /** The emitted step is the specified one except exactly at a BLT that compares equal operands. */
  lemma BltStep(w: Width, ir: seq<Element>, h: Hart)
    requires h.pc <= |ir|
    ensures RiscV.Step(AsEmitted, w, ir, h) == RiscV.Step(AsSpecified, w, ir, h) <==> !EqualBlt(ir, h)
  {
    hide Target, Skip;
  }

  /** All steps from all registers are as specified exactly for programs without a real BLT. */
  lemma BltPrograms(w: Width, ir: seq<Element>)
    ensures (forall h: Hart :: h.pc <= |ir| ==> RiscV.Step(AsEmitted, w, ir, h) == RiscV.Step(AsSpecified, w, ir, h))
       <==> forall i :: 0 <= i < |ir| ==> !RealBlt(ir, i)
  {
    hide RealBlt, RiscV.Step, Skip, Target, Jumps, JumpLabel;
    forall h: Hart | h.pc <= |ir|
      ensures RiscV.Step(AsEmitted, w, ir, h) == RiscV.Step(AsSpecified, w, ir, h) <==> !EqualBlt(ir, h)
    {
      BltStep(w, ir, h);
    }
    forall i | 0 <= i < |ir| && RealBlt(ir, i)
      ensures EqualBlt(ir, Hart(i, ZeroRegs()))
    {
      BltOperands(ir, i);
    }
  }

  lemma BltOperands(ir: seq<Element>, i: nat)
    requires i < |ir| && RealBlt(ir, i)
    ensures EqualBlt(ir, Hart(i, ZeroRegs()))
  {
  }

  /** A run without such a comparison is the specified run. */
  lemma {:induction false} BltRuns(w: Width, ir: seq<Element>, h: Hart, n: nat)
    requires h.pc <= |ir|
    requires forall k :: 0 <= k < n ==> !EqualBlt(ir, RiscV.Steps(AsSpecified, w, ir, h, k))
    ensures RiscV.Steps(AsEmitted, w, ir, h, n) == RiscV.Steps(AsSpecified, w, ir, h, n)
  {
    hide RiscV.Step, EqualBlt;
    if n > 0 {
      BltRuns(w, ir, h, n - 1);
      BltStep(w, ir, RiscV.Steps(AsSpecified, w, ir, h, n - 1));
    }
  }

  /** The specified run never meets a BLT that compares equal operands. */
  ghost predicate NeverEqual(w: Width, ir: seq<Element>, regs: Regs) {
    forall k: nat :: !EqualBlt(ir, RiscV.Steps(AsSpecified, w, ir, Start(ir, regs), k))
  }

  ghost predicate SameRuns(w: Width, ir: seq<Element>, regs: Regs) {
    forall n: nat :: SameAfter(w, ir, Start(ir, regs), n)
  }

  ghost predicate SameAfter(w: Width, ir: seq<Element>, h: Hart, n: nat)
    requires h.pc <= |ir|
  {
    RiscV.Steps(AsEmitted, w, ir, h, n) == RiscV.Steps(AsSpecified, w, ir, h, n)
  }

  /** The emitted run is the specified run, step for step, exactly when no BLT in it compares equal operands. */
  lemma RunsMeet(w: Width, ir: seq<Element>, regs: Regs)
    ensures SameRuns(w, ir, regs) <==> NeverEqual(w, ir, regs)
  {
    hide RiscV.Step, EqualBlt;
    var h := Start(ir, regs);
    if NeverEqual(w, ir, regs) {
      forall n: nat ensures SameAfter(w, ir, h, n) {
        BltRuns(w, ir, h, n);
      }
    }
    if SameRuns(w, ir, regs) {
      forall k: nat ensures !EqualBlt(ir, RiscV.Steps(AsSpecified, w, ir, h, k)) {
        BltStep(w, ir, RiscV.Steps(AsSpecified, w, ir, h, k));
        assert SameAfter(w, ir, h, k) && SameAfter(w, ir, h, k + 1);
      }
    }
  }

  lemma NoBltNeverEqual(w: Width, ir: seq<Element>, regs: Regs)
    requires forall i :: 0 <= i < |ir| ==> !RealBlt(ir, i)
    ensures NeverEqual(w, ir, regs)
  {
    hide RealBlt;
  }

  /** `loop: blt x0, x0, loop` ends at once by the specification; as emitted it never ends. */
  lemma BltCounterexample(regs: Regs, final: Regs)
    ensures var ir := [LabelDecl("loop"), Instr(R2(BLT, 0, 0, Label("loop")))];
            HaltsWith(AsSpecified, RV64, ir, regs, regs) && !HaltsWith(AsEmitted, RV64, ir, regs, final)
  {
    var ir := [LabelDecl("loop"), Instr(R2(BLT, 0, 0, Label("loop")))];
    var h := Start(ir, regs);
    assert Skip(ir, 1) == 1;
    assert h == Hart(1, regs);
    assert Target(ir, "loop") == 0;
    assert RiscV.Steps(AsSpecified, RV64, ir, h, 1)
           == RiscV.Step(AsSpecified, RV64, ir, RiscV.Steps(AsSpecified, RV64, ir, h, 0));
    forall n: nat ensures RiscV.Steps(AsEmitted, RV64, ir, h, n) == h {
      Loops(ir, h, n);
    }
  }

  lemma {:induction false} Loops(ir: seq<Element>, h: Hart, n: nat)
    requires h.pc <= |ir| && RiscV.Step(AsEmitted, RV64, ir, h) == h
    ensures RiscV.Steps(AsEmitted, RV64, ir, h, n) == h
  {
    if n > 0 {
      Loops(ir, h, n - 1);
    }
  }

  /** Correctness against the specification, for every run in which no BLT compares equal operands. */
  lemma MainMeetsSpecification(pool: Pool, ir: seq<Element>, p: seq<byte>, es: seq<Entry>, regs: Regs, final: Regs)
    requires Compilable(pool, ir) && Numbers(pool, es) && PrologueMeans(es, p) && regs[0] == 0
    requires NeverEqual(RV64, ir, regs)
    ensures HaltsWith(AsSpecified, RV64, ir, regs, final) <==> ReturnsWith(Assemble(pool, ir, p), es, regs, final)
  {
    hide Compilable, Numbers, PrologueMeans, NeverEqual, SameRuns, HaltsWith, Assemble, ReturnsWith;
    MainIsCorrect(pool, ir, p, es, regs, final);
    RunsMeet(RV64, ir, regs);
    SameHalts(RV64, ir, regs, final);
  }

  lemma SameHalts(w: Width, ir: seq<Element>, regs: Regs, final: Regs)
    requires SameRuns(w, ir, regs)
    ensures HaltsWith(AsEmitted, w, ir, regs, final) <==> HaltsWith(AsSpecified, w, ir, regs, final)
  {
    var h := Start(ir, regs);
    if n :| Halted(ir, RiscV.Steps(AsEmitted, w, ir, h, n)) && RiscV.Steps(AsEmitted, w, ir, h, n).regs == final {
      assert SameAfter(w, ir, h, n);
    }
    if n :| Halted(ir, RiscV.Steps(AsSpecified, w, ir, h, n)) && RiscV.Steps(AsSpecified, w, ir, h, n).regs == final {
      assert SameAfter(w, ir, h, n);
    }
  }

  // ----- 32-bit registers -----

  /** Each 64-bit register holds the 32-bit one in its low half. */
  ghost predicate Low(wide: Regs, narrow: Regs) {
    forall r :: 0 <= r < 32 ==> Wrap32(wide[r]) == narrow[r]
  }

  lemma WrapSum(a: int, b: int)
    ensures Wrap32(Wrap64(a + b)) == Wrap32(Wrap32(a) + Wrap32(b))
  {
    var m, k := 0x1_0000_0000, 0x8000_0000;
    assert Wrap32(a) == a - m * ((a + k) / m);
    assert Wrap32(b) == b - m * ((b + k) / m);
    var q := (a + b + 0x8000_0000_0000_0000) / 0x1_0000_0000_0000_0000;
    assert Wrap64(a + b) == a + b - m * (m * q);
    WrapShift(a + b, -(m * q));
    WrapShift(a + b, -((a + k) / m) - (b + k) / m);
  }

  lemma WrapShift(v: int, k: int)
    ensures Wrap32(v + 0x1_0000_0000 * k) == Wrap32(v)
  {
  }

  lemma LowWrite(wide: Regs, narrow: Regs, rd: Reg, a: int, b: int)
    requires Low(wide, narrow)
    ensures Low(Write(wide, rd, Wrap64(a + b)), Write(narrow, rd, Wrap32(Wrap32(a) + Wrap32(b))))
  {
    hide Wrap32, Wrap64;
    WrapSum(a, b);
  }

  /** ADD and ADDI on 64-bit registers compute the RV32I result in the low half. */
  lemma LowStep(e: Element, wide: Regs, narrow: Regs)
    requires Low(wide, narrow)
    ensures Low(NextRegs(RV64, e, wide), NextRegs(RV32, e, narrow))
  {
    hide Wrap32, Wrap64;
    WrapSmall();
    match e {
      case Instr(R3(ADD, rd, rs1, rs2)) => LowWrite(wide, narrow, rd, Read(wide, rs1), Read(wide, rs2));
      case Instr(R2(ADDI, rd, rs1, Imm(v))) => LowWrite(wide, narrow, rd, Read(wide, rs1), v);
      case _ =>
    }
  }

  lemma WrapSmall()
    ensures forall v: Imm12 :: Wrap32(v) == v
  {
  }

  ghost predicate SameChoice(ir: seq<Element>, i: nat, wide: Regs, narrow: Regs)
    requires i <= |ir|
  {
    i < |ir| && Jumps(ir[i]) ==> Taken(AsEmitted, ir[i], wide) == Taken(AsEmitted, ir[i], narrow)
  }

  /** The 32-bit and 64-bit runs stay together as long as every executed branch decides the same way. */
  lemma {:induction false} LowRuns(ir: seq<Element>, wide: Hart, narrow: Hart, n: nat)
    requires wide.pc == narrow.pc <= |ir| && Low(wide.regs, narrow.regs)
    requires forall k :: 0 <= k < n ==>
      SameChoice(ir, RiscV.Steps(AsEmitted, RV32, ir, narrow, k).pc, RiscV.Steps(AsEmitted, RV64, ir, wide, k).regs,
                 RiscV.Steps(AsEmitted, RV32, ir, narrow, k).regs)
    ensures var w, s := RiscV.Steps(AsEmitted, RV64, ir, wide, n), RiscV.Steps(AsEmitted, RV32, ir, narrow, n);
            w.pc == s.pc && Low(w.regs, s.regs)
  {
    hide Low, NextRegs, Skip, Taken, Target, Jumps, JumpLabel;
    if n > 0 {
      LowRuns(ir, wide, narrow, n - 1);
      var w, s := RiscV.Steps(AsEmitted, RV64, ir, wide, n - 1), RiscV.Steps(AsEmitted, RV32, ir, narrow, n - 1);
      if w.pc < |ir| {
        LowStep(ir[w.pc], w.regs, s.regs);
      }
    }
  }

  /** Both harts are at a jump that leads somewhere else than the next instruction, and only one of them takes it. */
  ghost predicate Parts(ir: seq<Element>, wide: Hart, narrow: Hart) {
    && wide.pc == narrow.pc < |ir| && Jumps(ir[wide.pc])
    && Skip(ir, Target(ir, JumpLabel(ir[wide.pc]))) != Skip(ir, wide.pc + 1)
    && Taken(AsEmitted, ir[wide.pc], wide.regs) != Taken(AsSpecified, ir[wide.pc], narrow.regs)
  }

  /** At the same place, the 32-bit registers in the low halves of the long ones. */
  ghost predicate Together(wide: Hart, narrow: Hart) {
    wide.pc == narrow.pc && Low(wide.regs, narrow.regs)
  }

  /** One step keeps two harts together exactly when it does not part them. */
  lemma StepTogether(ir: seq<Element>, wide: Hart, narrow: Hart)
    requires Together(wide, narrow) && wide.pc <= |ir|
    ensures Together(RiscV.Step(AsEmitted, RV64, ir, wide), RiscV.Step(AsSpecified, RV32, ir, narrow))
       <==> !Parts(ir, wide, narrow)
  {
    hide Low, NextRegs, Skip, Taken, Target, Jumps, JumpLabel;
    if wide.pc < |ir| {
      LowStep(ir[wide.pc], wide.regs, narrow.regs);
    }
  }

  ghost predicate TogetherAfter(ir: seq<Element>, regs: Regs, n: nat) {
    Together(RiscV.Steps(AsEmitted, RV64, ir, Start(ir, regs), n),
             RiscV.Steps(AsSpecified, RV32, ir, Start(ir, regs), n))
  }

  ghost predicate PartsAfter(ir: seq<Element>, regs: Regs, n: nat) {
    Parts(ir, RiscV.Steps(AsEmitted, RV64, ir, Start(ir, regs), n),
          RiscV.Steps(AsSpecified, RV32, ir, Start(ir, regs), n))
  }

  /** The emitted 64-bit run and the specified 32-bit run are never parted. */
  ghost predicate NeverParts(ir: seq<Element>, regs: Regs) {
    forall k: nat :: !PartsAfter(ir, regs, k)
  }

  ghost predicate Narrowed(regs: Regs) {
    forall r :: 0 <= r < 32 ==> regs[r] == Wrap32(regs[r])
  }

  lemma NarrowedLow(regs: Regs)
    requires Narrowed(regs)
    ensures Low(regs, regs)
  {
    hide Wrap32;
  }

  lemma {:induction false} StaysTogether(ir: seq<Element>, regs: Regs, n: nat)
    requires Narrowed(regs) && forall k :: 0 <= k < n ==> !PartsAfter(ir, regs, k)
    ensures TogetherAfter(ir, regs, n)
  {
    hide RiscV.Step, Parts, Low, Narrowed;
    var h := Start(ir, regs);
    NarrowedLow(regs);
    if n == 0 {
      assert RiscV.Steps(AsEmitted, RV64, ir, h, 0) == h && RiscV.Steps(AsSpecified, RV32, ir, h, 0) == h;
    } else {
      StaysTogether(ir, regs, n - 1);
      assert !PartsAfter(ir, regs, n - 1);
      StepTogether(ir, RiscV.Steps(AsEmitted, RV64, ir, h, n - 1), RiscV.Steps(AsSpecified, RV32, ir, h, n - 1));
    }
  }

  /** From registers within 32 bits, the emitted 64-bit run holds the specified 32-bit run in its low halves, at the
      same places and for all time, exactly when no jump parts them. */
  lemma RunsMeetRv32(ir: seq<Element>, regs: Regs)
    requires Narrowed(regs)
    ensures (forall n: nat :: TogetherAfter(ir, regs, n)) <==> NeverParts(ir, regs)
  {
    hide RiscV.Step, Parts, Together, Narrowed;
    if NeverParts(ir, regs) {
      forall n: nat ensures TogetherAfter(ir, regs, n) {
        StaysTogether(ir, regs, n);
      }
    }
    if forall n: nat :: TogetherAfter(ir, regs, n) {
      forall k: nat ensures !PartsAfter(ir, regs, k) {
        assert TogetherAfter(ir, regs, k) && TogetherAfter(ir, regs, k + 1);
        StepTogether(ir, RiscV.Steps(AsEmitted, RV64, ir, Start(ir, regs), k),
                     RiscV.Steps(AsSpecified, RV32, ir, Start(ir, regs), k));
      }
    }
  }

  /** Along the run every branch decides on the long registers as on the 32-bit ones. */
  ghost predicate SameChoices(ir: seq<Element>, regs: Regs) {
    var h := Start(ir, regs);
    forall k: nat ::
      SameChoice(ir, RiscV.Steps(AsEmitted, RV32, ir, h, k).pc, RiscV.Steps(AsEmitted, RV64, ir, h, k).regs,
                 RiscV.Steps(AsEmitted, RV32, ir, h, k).regs)
  }

  /** Branches that decide alike, none of them a BLT that compares equal operands, part nothing. */
  lemma SameChoicesNeverPart(ir: seq<Element>, regs: Regs)
    requires Narrowed(regs) && NeverEqual(RV32, ir, regs) && SameChoices(ir, regs)
    ensures NeverParts(ir, regs)
  {
    hide RiscV.Steps, Wrap32, EqualBlt, SameChoice, Parts, Low;
    RunsMeet(RV32, ir, regs);
    NarrowedLow(regs);
    forall n: nat ensures TogetherAfter(ir, regs, n) {
      assert SameAfter(RV32, ir, Start(ir, regs), n);
      LowRuns(ir, Start(ir, regs), Start(ir, regs), n);
    }
    RunsMeetRv32(ir, regs);
  }

  ghost predicate BranchFree(ir: seq<Element>) {
    forall i :: 0 <= i < |ir| ==> !Jumps(ir[i])
  }

  lemma BranchFreeAlike(ir: seq<Element>, regs: Regs)
    requires BranchFree(ir)
    ensures NeverParts(ir, regs)
  {
  }

  /** Main returns exactly when the RV32I run ends, with that run's registers in the low halves, as long as no jump
      parts the two runs. */
  lemma MainMeetsRv32(pool: Pool, ir: seq<Element>, p: seq<byte>, es: seq<Entry>, regs: Regs, narrow: Regs)
    requires Compilable(pool, ir) && Numbers(pool, es) && PrologueMeans(es, p) && regs[0] == 0
    requires NeverParts(ir, regs) && Narrowed(regs)
    ensures HaltsWith(AsSpecified, RV32, ir, regs, narrow)
       <==> exists wide: Regs :: ReturnsWith(Assemble(pool, ir, p), es, regs, wide) && Low(wide, narrow)
  {
    hide Compilable, Numbers, PrologueMeans, Assemble, RiscV.Steps, NeverParts, Narrowed, ReturnsWith, Low;
    var h := Start(ir, regs);
    RunsMeetRv32(ir, regs);
    forall final: Regs
      ensures HaltsWith(AsEmitted, RV64, ir, regs, final) <==> ReturnsWith(Assemble(pool, ir, p), es, regs, final)
    {
      MainIsCorrect(pool, ir, p, es, regs, final);
    }
    if HaltsWith(AsSpecified, RV32, ir, regs, narrow) {
      var n :| Halted(ir, RiscV.Steps(AsSpecified, RV32, ir, h, n))
        && RiscV.Steps(AsSpecified, RV32, ir, h, n).regs == narrow;
      assert TogetherAfter(ir, regs, n);
      var wide := RiscV.Steps(AsEmitted, RV64, ir, h, n).regs;
      assert HaltsWith(AsEmitted, RV64, ir, regs, wide);
      assert ReturnsWith(Assemble(pool, ir, p), es, regs, wide) && Low(wide, narrow);
    }
    if wide: Regs :| ReturnsWith(Assemble(pool, ir, p), es, regs, wide) && Low(wide, narrow) {
      assert HaltsWith(AsEmitted, RV64, ir, regs, wide);
      var n :| Halted(ir, RiscV.Steps(AsEmitted, RV64, ir, h, n))
        && RiscV.Steps(AsEmitted, RV64, ir, h, n).regs == wide;
      assert TogetherAfter(ir, regs, n);
      LowUnique(wide, narrow, RiscV.Steps(AsSpecified, RV32, ir, h, n).regs);
    }
  }

  lemma LowUnique(wide: Regs, a: Regs, b: Regs)
    requires Low(wide, a) && Low(wide, b)
    ensures a == b
  {
    hide Wrap32;
    assert forall r :: 0 <= r < 32 ==> Wrap32(wide[r]) == a[r] && Wrap32(wide[r]) == b[r];
  }
}
