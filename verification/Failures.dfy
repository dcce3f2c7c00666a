/** Programs at which the compiler fails, one for each exact condition under which it does. */
module Failures {
  import opened Words
  import opened Ir
  import opened Emission
  import opened Layout
  import opened Assembly
  import opened ConstantPool
  import opened ClassFile
  import opened RiscV
  import opened TypeSafety
  import opened Output
  import opened Simulation
  import opened Agreement
  import opened MainTyping
  import opened Compiled
  import opened Bounds
  import opened RoundTrip
  import opened Compiler

  function Source(ir: seq<Element>): string
    requires ParserForm(ir)
  {
    Text(ProgramTokens(ir))
  }

  // ----- a label followed by a label -----

  function TwoLabels(): seq<Element> {
    [LabelDecl("a"), LabelDecl("b"), Instr(R2(BNE, 1, 0, Label("a")))]
  }

  lemma TwoLabelsShape()
    ensures ParserForm(TwoLabels()) && UniqueLabels(TwoLabels()) && ClosedLabels(TwoLabels())
    ensures forall j :: 0 <= j < |TwoLabels()| && TwoLabels()[j].Instr? ==> !UsesWrongOperand(TwoLabels()[j].ins)
  {
    assert TwoLabels()[0] == LabelDecl("a");
  }

  lemma TwoLabelsOffsets()
    ensures var ir := TwoLabels();
            && |ir| == 3 && ir[0] == LabelDecl("a") && ir[1] == LabelDecl("b") && JumpsTo(ir[2], "a")
            && !ir[1].Instr? && ir[2].Instr?
  {
  }

  /** Nothing jumps to `b`. */
  lemma TwoLabelsJumped()
    ensures !Stranded(TwoLabels(), "b")
  {
    hide TwoLabels, JumpsTo;
    OnlyA();
  }

  /** `a` is jumped to, and only `b` takes an offset. */
  lemma TwoLabelsStranded()
    ensures !TargetsHaveCode(TwoLabels())
  {
    hide TwoLabels, JumpsTo;
    TwoLabelsOffsets();
    var ir := TwoLabels();
    assert JumpsTo(ir[2], ir[0].name);
    assert !HasCode(ir, "a");
  }

  lemma OnlyA()
    ensures forall j :: 0 <= j < |TwoLabels()| ==> !JumpsTo(TwoLabels()[j], "b")
  {
  }

  /** `a:`, `b:`, `bne x1, x0, a` passes the parser and the label check; then the generator finds no offset for `a`. */
  lemma TwoLabelsFail(junk: Junk)
    ensures ParserForm(TwoLabels()) && Front([Source(TwoLabels())]) == Ok(TwoLabels())
    ensures UniqueLabels(TwoLabels()) && ClosedLabels(TwoLabels())
    ensures Generate(TwoLabels(), junk) == Err(MissingOffset("a"))
  {
    hide TwoLabels, Generate, Stranded, TargetsHaveCode, UsesWrongOperand, Front, Text, ProgramTokens;
    var ir := TwoLabels();
    TwoLabelsShape();
    TwoLabelsJumped();
    TwoLabelsStranded();
    PrintedReads(ir);
    GenerationSucceeds(ir, junk);
    GenerationStops(ir, junk);
    LabelsAre();
  }

  lemma LabelsAre()
    ensures forall i :: 0 <= i < |TwoLabels()| && TwoLabels()[i].LabelDecl?
              ==> TwoLabels()[i].name == "a" || TwoLabels()[i].name == "b"
  {
  }

  // ----- two jumps to one label -----

  function TwoJumps(): seq<Element> {
    [Instr(R2(ADDI, 1, 0, Imm(3))), LabelDecl("a"), Instr(R2(BNE, 1, 0, Label("a"))), Instr(R2(BNE, 1, 0, Label("a")))]
  }

  lemma TwoJumpsShape()
    ensures ParserForm(TwoJumps()) && Supported(TwoJumps()) && UniqueLabels(TwoJumps()) && ClosedLabels(TwoJumps())
    ensures Instructions(TwoJumps(), |TwoJumps()|) <= 2900
  {
    var ir := TwoJumps();
    assert ir[1] == LabelDecl("a");
    assert Instructions(ir, 4) == Instructions(ir, 3) + 1 && Instructions(ir, 2) == Instructions(ir, 1) <= 1;
  }

  lemma TwoJumpsLand()
    ensures TargetsHaveCode(TwoJumps())
  {
    hide Jumps;
    var ir := TwoJumps();
    assert ir[1] == LabelDecl("a") && ir[2].Instr?;
    assert HasCode(ir, "a");
  }

  lemma TwoJumpsMeet()
    ensures !JumpsApart(TwoJumps())
  {
    hide Offset, Target;
    var ir := TwoJumps();
    assert Jumps(ir[2]) && Jumps(ir[3]) && JumpLabel(ir[2]) == JumpLabel(ir[3]) == "a";
    assert Aim(ir, 2) == Aim(ir, 3);
  }

  /** `addi x1, x0, 3`, `a:`, `bne x1, x0, a`, `bne x1, x0, a` compiles, and the JVM's verifier rejects the class. */
  lemma TwoJumpsFail(junk: Junk)
    ensures ParserForm(TwoJumps()) && Front([Source(TwoJumps())]) == Ok(TwoJumps())
    ensures Accepted(TwoJumps()) && LastLengthAt(TwoJumps(), junk) < 65536
    ensures Compiles(TwoJumps()) && LoadedMain(TwoJumps(), junk).Loaded? && !MainPasses(LoadedMain(TwoJumps(), junk))
  {
    hide TwoJumps, Generate, TargetsHaveCode, UsesWrongOperand, Front, Text, ProgramTokens, LastLengthAt, JumpsApart;
    hide LoadedMain, MainPasses, Compiles, Verifiable, Produced;
    var ir := TwoJumps();
    TwoJumpsShape();
    TwoJumpsLand();
    TwoJumpsMeet();
    PrintedReads(ir);
    SupportedOperands(ir);
    SmallPrograms(ir, junk);
    AcceptedVerifies(ir, junk);
    JumpsTogether(ir);
    AcceptedCompiles(ir, junk);
  }

  lemma JumpsTogether(ir: seq<Element>)
    requires !JumpsApart(ir)
    ensures !Verifiable(ir)
  {
    hide JumpsApart;
  }

  lemma AcceptedCompiles(ir: seq<Element>, junk: Junk)
    requires Accepted(ir)
    ensures Compiles(ir)
  {
    hide Compiles, Generate, UniqueLabels, ClosedLabels, PoolTo, Compilable;
    AcceptedProduces(ir, junk);
    CompilesIs(ir, junk);
  }

  // ----- a length field past the 16-bit positions -----

  const ADDS := 4360

  /** A loop over many ADDs: its code is still short enough for a method. */
  function Long(): (ir: seq<Element>)
    ensures |ir| == ADDS + 2
  {
    [LabelDecl("a")] + seq(ADDS, _ => Instr(R3(ADD, 1, 1, 1))) + [Instr(R2(BNE, 1, 0, Label("a")))]
  }

  lemma LongAt(i: nat)
    requires i < ADDS + 2
    ensures Long()[i] == if i == 0 then LabelDecl("a")
                         else if i <= ADDS then Instr(R3(ADD, 1, 1, 1)) else Instr(R2(BNE, 1, 0, Label("a")))
  {
  }

  lemma {:induction false} LongOffset(n: nat)
    requires 0 < n <= ADDS + 1
    ensures Offset(Long(), n) == 10 + 15 * (n - 1)
  {
    hide Long;
    LongAt(n - 1);
    if n > 1 {
      LongOffset(n - 1);
    }
  }

  lemma LongElements()
    ensures forall i :: 0 <= i < ADDS + 2 ==>
              Long()[i] == if i == 0 then LabelDecl("a")
                           else if i <= ADDS then Instr(R3(ADD, 1, 1, 1)) else Instr(R2(BNE, 1, 0, Label("a")))
  {
    hide Long;
    forall i: nat | i < ADDS + 2
      ensures Long()[i] == if i == 0 then LabelDecl("a")
                           else if i <= ADDS then Instr(R3(ADD, 1, 1, 1)) else Instr(R2(BNE, 1, 0, Label("a")))
    {
      LongAt(i);
    }
  }

  lemma LongForm()
    ensures ParserForm(Long()) && Supported(Long())
  {
    hide Long;
    LongElements();
  }

  lemma LongLabels()
    ensures UniqueLabels(Long()) && ClosedLabels(Long()) && TargetsHaveCode(Long())
  {
    hide Long;
    LongElements();
    assert Long()[0] == LabelDecl("a") && Long()[1].Instr?;
    assert HasCode(Long(), "a");
  }

  lemma LongAccepted()
    ensures ParserForm(Long()) && Accepted(Long()) && Offset(Long(), |Long()|) == 65427
  {
    hide Long, Offset, ParserForm, Supported, UniqueLabels, ClosedLabels, TargetsHaveCode;
    LongForm();
    LongLabels();
    LongAt(ADDS + 1);
    LongOffset(ADDS + 1);
    LongEnd(Long());
  }

  lemma LongEnd(ir: seq<Element>)
    requires |ir| == ADDS + 2 && ir[ADDS + 1] == Instr(R2(BNE, 1, 0, Label("a")))
    ensures Offset(ir, |ir|) == Offset(ir, ADDS + 1) + 17 && Frames(ir) != []
  {
  }

  /** An accepted program whose file is not the class that was meant, nor reads as it: the length of its stack map
      table is missing. */
  lemma LongFails(junk: Junk)
    ensures ParserForm(Long()) && Accepted(Long()) && LastLengthAt(Long(), junk) >= 65536
    ensures Generate(Long(), junk).Ok?
    ensures var bytes, meant := Generate(Long(), junk).value, ClassOf(Long(), junk);
            bytes != WriteClass(meant) && ReadClass(bytes) != Got(meant, [])
  {
    hide Long, Offset, Generate, WriteClass, ClassFor, PoolTo, MainStart, MainPrologue, Assemble, Frames, ParserForm;
    hide Accepted, WriteEntries, ReadClass;
    var ir := Long();
    LongAccepted();
    AcceptedProduces(ir, junk);
    var b := PoolTo(ir, junk, |ir|);
    LongAt(ADDS + 1);
    LongEnd(ir);
    MainStartIs(b);
    CompilableFits(b.index, ir);
    AssembleEnds(b.index, ir, MainPrologue(b));
    FileReadsBack(ir, junk);
  }

  // ----- a sum past 32 bits -----

  const DOUBLINGS := 32

  /** x1 is set to 1 and doubled 32 times; then a loop runs while it is not zero. */
  function Overflow(): (ir: seq<Element>)
    ensures |ir| == DOUBLINGS + 3
  {
    [Instr(R2(ADDI, 1, 0, Imm(1)))] + seq(DOUBLINGS, _ => Instr(R3(ADD, 1, 1, 1)))
    + [LabelDecl("a"), Instr(R2(BNE, 1, 0, Label("a")))]
  }

  function OverflowElement(i: nat): Element {
    if i == 0 then Instr(R2(ADDI, 1, 0, Imm(1)))
    else if i <= DOUBLINGS then Instr(R3(ADD, 1, 1, 1))
    else if i == DOUBLINGS + 1 then LabelDecl("a")
    else Instr(R2(BNE, 1, 0, Label("a")))
  }

  lemma OverflowAt()
    ensures forall i :: 0 <= i < DOUBLINGS + 3 ==> Overflow()[i] == OverflowElement(i)
  {
  }

  lemma OverflowForm()
    ensures ParserForm(Overflow()) && Supported(Overflow())
  {
    hide Overflow;
    OverflowAt();
  }

  lemma OverflowNoBlt()
    ensures forall i :: 0 <= i < |Overflow()| ==> !RealBlt(Overflow(), i)
  {
    hide Overflow, Skip, Target;
    OverflowAt();
  }

  lemma OverflowLabels()
    ensures UniqueLabels(Overflow()) && ClosedLabels(Overflow()) && TargetsHaveCode(Overflow())
  {
    hide Overflow;
    OverflowAt();
    var a := DOUBLINGS + 1;
    assert Overflow()[a] == LabelDecl("a") && Overflow()[a + 1].Instr?;
    assert HasCode(Overflow(), "a");
  }

  lemma {:induction false} FewInstructions(ir: seq<Element>, n: nat)
    requires n <= |ir|
    ensures Instructions(ir, n) <= n
  {
    if n > 0 {
      FewInstructions(ir, n - 1);
    }
  }

  lemma OverflowAccepted(junk: Junk)
    ensures Accepted(Overflow()) && LastLengthAt(Overflow(), junk) < 65536
  {
    hide Overflow, LastLengthAt, UsesWrongOperand, TargetsHaveCode;
    OverflowForm();
    OverflowLabels();
    FewInstructions(Overflow(), |Overflow()|);
    SupportedOperands(Overflow());
    SmallPrograms(Overflow(), junk);
  }

  function Doubled(k: nat): nat {
    if k == 0 then 1 else 2 * Doubled(k - 1)
  }

  lemma {:induction false} DoubledGrows(k: nat, n: nat)
    requires k <= n
    ensures Doubled(k) <= Doubled(n)
    decreases n
  {
    if k < n {
      DoubledGrows(k, n - 1);
    }
  }

  lemma DoubledFour(k: nat)
    ensures Doubled(k + 4) == 16 * Doubled(k)
  {
    assert Doubled(k + 4) == 2 * Doubled(k + 3);
    assert Doubled(k + 2) == 2 * Doubled(k + 1);
  }

  lemma DoubledLast()
    ensures Doubled(32) == 0x1_0000_0000
  {
    DoubledFour(0);
    DoubledFour(4);
    DoubledFour(8);
    DoubledFour(12);
    DoubledFour(16);
    DoubledFour(20);
    DoubledFour(24);
    DoubledFour(28);
  }

  lemma DoubledSmall(k: nat)
    requires k <= DOUBLINGS
    ensures Doubled(k) <= 0x1_0000_0000
  {
    DoubledLast();
    DoubledGrows(k, DOUBLINGS);
  }

  function WithX1(v: int): Regs {
    ZeroRegs()[1 := v]
  }

  lemma OverflowSkips()
    ensures var ir := Overflow();
            && (forall i :: 0 <= i <= DOUBLINGS ==> Skip(ir, i) == i)
            && Skip(ir, DOUBLINGS + 1) == DOUBLINGS + 2 == Skip(ir, DOUBLINGS + 2) && Target(ir, "a") == DOUBLINGS + 1
  {
    hide Overflow;
    OverflowAt();
    var ir := Overflow();
    assert !ir[DOUBLINGS + 1].Instr?;
    var t := Target(ir, "a");
    assert t < |ir| ==> ir[t] == OverflowElement(t);
    assert ir[DOUBLINGS + 1] == LabelDecl("a");
  }

  lemma WriteX1(v: int, w: int)
    ensures Write(WithX1(v), 1, w) == WithX1(w) && Write(ZeroRegs(), 1, w) == WithX1(w) && Read(WithX1(v), 1) == v
  {
  }

  /** One of the doublings. */
  lemma DoubleStep(reading: Reading, w: Width, k: nat, v: int)
    requires k < DOUBLINGS
    ensures RiscV.Step(reading, w, Overflow(), Hart(k + 1, WithX1(v)))
         == Hart(Skip(Overflow(), k + 2), WithX1(Narrow(w, v + v)))
  {
    hide Overflow, WithX1, Narrow, Skip;
    OverflowAt();
    WriteX1(v, Narrow(w, v + v));
  }

  lemma FirstStep(reading: Reading, w: Width)
    ensures RiscV.Step(reading, w, Overflow(), Start(Overflow(), ZeroRegs())) == Hart(1, WithX1(1))
  {
    hide Overflow, WithX1, Skip;
    OverflowAt();
    OverflowSkips();
    WriteX1(0, 1);
  }

  lemma {:induction false} WideRun(reading: Reading, k: nat)
    requires k <= DOUBLINGS
    ensures RiscV.Steps(reading, RV64, Overflow(), Start(Overflow(), ZeroRegs()), k + 1)
         == Hart(Skip(Overflow(), k + 1), WithX1(Doubled(k)))
  {
    hide Overflow, WithX1, Skip, RiscV.Step;
    OverflowSkips();
    var h := Start(Overflow(), ZeroRegs());
    if k == 0 {
      FirstStep(reading, RV64);
      assert RiscV.Steps(reading, RV64, Overflow(), h, 0) == h;
    } else {
      WideRun(reading, k - 1);
      DoubleStep(reading, RV64, k - 1, Doubled(k - 1));
      DoubledSmall(k);
    }
  }

  lemma {:induction false} NarrowRun(reading: Reading, k: nat)
    requires k <= DOUBLINGS
    ensures RiscV.Steps(reading, RV32, Overflow(), Start(Overflow(), ZeroRegs()), k + 1)
         == Hart(Skip(Overflow(), k + 1), WithX1(Wrap32(Doubled(k))))
  {
    hide Overflow, WithX1, Skip, RiscV.Step, Wrap32, Wrap64;
    OverflowSkips();
    var h := Start(Overflow(), ZeroRegs());
    if k == 0 {
      FirstStep(reading, RV32);
      assert RiscV.Steps(reading, RV32, Overflow(), h, 0) == h;
    } else {
      NarrowRun(reading, k - 1);
      DoubleStep(reading, RV32, k - 1, Wrap32(Doubled(k - 1)));
      DoubledSmall(k);
      WrapSum(Doubled(k - 1), Doubled(k - 1));
    }
  }

  /** The branch, with `v` in x1. */
  lemma LoopStep(reading: Reading, w: Width, v: int)
    ensures RiscV.Step(reading, w, Overflow(), Hart(DOUBLINGS + 2, WithX1(v)))
         == Hart(if v != 0 then DOUBLINGS + 2 else DOUBLINGS + 3, WithX1(v))
  {
    hide Overflow, Skip, WithX1, Target;
    OverflowAt();
    OverflowSkips();
    WriteX1(v, v);
    SkipEnd(Overflow());
  }

  lemma SkipEnd(ir: seq<Element>)
    ensures Skip(ir, |ir|) == |ir|
  {
  }

  /** On 32 bits x1 has become zero, and the program ends. */
  lemma NarrowEnds()
    ensures HaltsWith(AsSpecified, RV32, Overflow(), ZeroRegs(), ZeroRegs())
  {
    hide Overflow, Skip, RiscV.Step, WithX1;
    OverflowSkips();
    DoubledLast();
    NarrowRun(AsSpecified, DOUBLINGS);
    LoopStep(AsSpecified, RV32, 0);
    ZeroX1();
    var ir, h := Overflow(), Start(Overflow(), ZeroRegs());
    assert RiscV.Steps(AsSpecified, RV32, ir, h, DOUBLINGS + 2) == Hart(|ir|, ZeroRegs());
    assert Halted(ir, RiscV.Steps(AsSpecified, RV32, ir, h, DOUBLINGS + 2));
  }

  lemma ZeroX1()
    ensures WithX1(0) == ZeroRegs() && Wrap32(0x1_0000_0000) == 0
  {
  }

  lemma {:induction false} WideStays(reading: Reading, n: nat)
    requires n > DOUBLINGS
    ensures RiscV.Steps(reading, RV64, Overflow(), Start(Overflow(), ZeroRegs()), n)
         == Hart(DOUBLINGS + 2, WithX1(0x1_0000_0000))
  {
    hide Overflow, Skip, WithX1, RiscV.Step;
    OverflowSkips();
    if n == DOUBLINGS + 1 {
      DoubledLast();
      WideRun(reading, DOUBLINGS);
    } else {
      WideStays(reading, n - 1);
      LoopStep(reading, RV64, 0x1_0000_0000);
    }
  }

  /** On 64 bits it has not, and the loop never ends. */
  lemma WideLoops(reading: Reading, final: Regs)
    ensures !HaltsWith(reading, RV64, Overflow(), ZeroRegs(), final)
  {
    hide Overflow, Skip, RiscV.Step, WithX1;
    OverflowSkips();
    var ir, h := Overflow(), Start(Overflow(), ZeroRegs());
    forall n: nat ensures !Halted(ir, RiscV.Steps(reading, RV64, ir, h, n)) {
      if n > DOUBLINGS {
        WideStays(reading, n);
      } else if n > 0 {
        WideRun(reading, n - 1);
      } else {
        assert RiscV.Steps(reading, RV64, ir, h, 0) == h;
      }
    }
  }

  /** The program ends on RV32I; compiled, its main never returns. */
  lemma OverflowFails(junk: Junk, final: Regs)
    ensures ParserForm(Overflow()) && Front([Source(Overflow())]) == Ok(Overflow())
    ensures Accepted(Overflow()) && LastLengthAt(Overflow(), junk) < 65536
    ensures HaltsWith(AsSpecified, RV32, Overflow(), ZeroRegs(), ZeroRegs())
    ensures !HaltsWith(AsEmitted, RV64, Overflow(), ZeroRegs(), final) && !NeverParts(Overflow(), ZeroRegs())
    ensures LoadedMain(Overflow(), junk).Loaded?
    ensures !ReturnsWith(LoadedMain(Overflow(), junk).code.code, LoadedMain(Overflow(), junk).pool, ZeroRegs(), final)
  {
    hide Overflow, LastLengthAt, Accepted, HaltsWith, ReturnsWith, LoadedMain, NeverEqual, RealBlt;
    hide Front, Text, ProgramTokens;
    OverflowForm();
    PrintedReads(Overflow());
    OverflowNoBlt();
    OverflowAccepted(junk);
    NarrowEnds();
    WideLoops(AsEmitted, final);
    WideLoops(AsSpecified, final);
    NoBltNeverEqual(RV64, Overflow(), ZeroRegs());
    ClassRunsProgram(Overflow(), junk, final);
    OverflowParts();
  }

  /** The runs are parted: else the wide one would end with the narrow one. */
  lemma OverflowParts()
    ensures !NeverParts(Overflow(), ZeroRegs())
  {
    hide Overflow, NeverParts, Low, RiscV.Steps, Narrowed;
    var ir, h := Overflow(), Start(Overflow(), ZeroRegs());
    NarrowEnds();
    ZeroNarrowed();
    RunsMeetRv32(ir, ZeroRegs());
    var n :| Halted(ir, RiscV.Steps(AsSpecified, RV32, ir, h, n))
      && RiscV.Steps(AsSpecified, RV32, ir, h, n).regs == ZeroRegs();
    var wide := RiscV.Steps(AsEmitted, RV64, ir, h, n);
    WideLoops(AsEmitted, wide.regs);
    assert !Halted(ir, wide);
    assert !TogetherAfter(ir, ZeroRegs(), n);
  }

  lemma ZeroNarrowed()
    ensures Narrowed(ZeroRegs())
  {
  }
}
