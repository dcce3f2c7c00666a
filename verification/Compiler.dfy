/** The whole compiler: scan, parse, check the labels, generate. */
module Compiler {
  import opened Words
  import opened Ir
  import opened Emission
  import Lexer
  import Parser
  import opened RoundTrip
  import Seman
  import opened Layout
  import opened Assembly
  import opened RiscV
  import opened Jvm
  import opened Simulation
  import opened Agreement
  import opened ConstantPool
  import opened ClassFile
  import opened Output
  import opened TypeSafety
  import opened MainTyping
  import opened Loading
  import opened Compiled
  import opened Bounds
  import C = Codegen

  /** Every label operand is declared. */
  ghost predicate LabelsDeclared(ir: seq<Element>) {
    && (forall m, rd, rs1, l :: Instr(R2(m, rd, rs1, Label(l))) in ir ==> LabelDecl(l) in ir)
    && (forall m, rd, l :: Instr(R1(m, rd, ULabel(l))) in ir ==> LabelDecl(l) in ir)
  }

  /** Every label that a BNE, BLT or J names has code. */
  ghost predicate JumpsHaveCode(ir: seq<Element>) {
    && (forall rd, rs1, l :: Instr(R2(BNE, rd, rs1, Label(l))) in ir ==> HasCode(ir, l))
    && (forall rd, rs1, l :: Instr(R2(BLT, rd, rs1, Label(l))) in ir ==> HasCode(ir, l))
    && (forall rd, l :: Instr(R1(J, rd, ULabel(l))) in ir ==> HasCode(ir, l))
  }

  /** ADDI has a number, BNE, BLT and J have a label. */
  ghost predicate OperandsFit(ir: seq<Element>) {
    && (forall rd, rs1, l :: Instr(R2(ADDI, rd, rs1, Label(l))) !in ir)
    && (forall rd, rs1, v :: Instr(R2(BNE, rd, rs1, Imm(v))) !in ir)
    && (forall rd, rs1, v :: Instr(R2(BLT, rd, rs1, Imm(v))) !in ir)
    && (forall rd, v :: Instr(R1(J, rd, UImm(v))) !in ir)
  }

  /** The programs that compile. */
  ghost predicate Compiles(ir: seq<Element>) {
    UniqueLabels(ir) && LabelsDeclared(ir) && OperandsFit(ir) && JumpsHaveCode(ir)
  }

  lemma DeclaredIs(ir: seq<Element>)
    ensures LabelsDeclared(ir) <==> ClosedLabels(ir)
  {
    if LabelsDeclared(ir) {
      forall i, l | 0 <= i < |ir| && Refers(ir[i], l) ensures Declared(ir, l) {
        assert ir[i] in ir;
      }
    }
    if ClosedLabels(ir) {
      forall m, rd, rs1, l | Instr(R2(m, rd, rs1, Label(l))) in ir ensures LabelDecl(l) in ir {
        var i :| 0 <= i < |ir| && ir[i] == Instr(R2(m, rd, rs1, Label(l)));
        assert Refers(ir[i], l) && Declared(ir, l);
      }
      forall m, rd, l | Instr(R1(m, rd, ULabel(l))) in ir ensures LabelDecl(l) in ir {
        var i :| 0 <= i < |ir| && ir[i] == Instr(R1(m, rd, ULabel(l)));
        assert Refers(ir[i], l) && Declared(ir, l);
      }
    }
  }

  lemma OperandsAre(ir: seq<Element>)
    ensures OperandsFit(ir) <==> forall j :: 0 <= j < |ir| && ir[j].Instr? ==> !UsesWrongOperand(ir[j].ins)
  {
    if OperandsFit(ir) {
      forall j | 0 <= j < |ir| && ir[j].Instr? ensures !UsesWrongOperand(ir[j].ins) {
        assert ir[j] in ir;
      }
    }
  }

  lemma TargetsAre(ir: seq<Element>)
    requires LabelsDeclared(ir)
    ensures JumpsHaveCode(ir) <==> TargetsHaveCode(ir)
  {
    hide HasCode;
    if JumpsHaveCode(ir) {
      forall i, j | 0 <= i < |ir| && 0 <= j < |ir| && ir[i].LabelDecl? && JumpsTo(ir[j], ir[i].name)
        ensures HasCode(ir, ir[i].name)
      {
        assert ir[j] in ir;
      }
    }
    if TargetsHaveCode(ir) {
      forall e, l | e in ir && JumpsTo(e, l) && LabelDecl(l) in ir ensures HasCode(ir, l) {
        var i :| 0 <= i < |ir| && ir[i] == LabelDecl(l);
        var j :| 0 <= j < |ir| && ir[j] == e;
        assert JumpsTo(ir[j], ir[i].name);
      }
      forall rd, rs1, l | Instr(R2(BNE, rd, rs1, Label(l))) in ir ensures HasCode(ir, l) {
        assert JumpsTo(Instr(R2(BNE, rd, rs1, Label(l))), l);
      }
      forall rd, rs1, l | Instr(R2(BLT, rd, rs1, Label(l))) in ir ensures HasCode(ir, l) {
        assert JumpsTo(Instr(R2(BLT, rd, rs1, Label(l))), l);
      }
      forall rd, l | Instr(R1(J, rd, ULabel(l))) in ir ensures HasCode(ir, l) {
        assert JumpsTo(Instr(R1(J, rd, ULabel(l))), l);
      }
    }
  }

  /** Loaded, the file's class initializes itself, and its main is type safe; run on the registers so made, main never
      gets stuck, and it returns with some registers exactly when the program ends with them. */
  ghost predicate Means(bytes: seq<byte>, ir: seq<Element>) {
    && Initializes(LoadInitializer(bytes))
    && LoadMain(bytes).Loaded? && MainPasses(LoadMain(bytes))
    && (forall k: nat :: !Jvm.Run(LoadMain(bytes).code.code, LoadMain(bytes).pool, Entered(ZeroRegs()), k).Stuck?)
    && forall final: Regs :: HaltsWith(AsSpecified, RV64, ir, ZeroRegs(), final)
                        <==> ReturnsWith(LoadMain(bytes).code.code, LoadMain(bytes).pool, ZeroRegs(), final)
  }

  /** What the verifier asks of a program: targets recorded once, a target behind every J, and a store to a
      non-zero register before the first target. */
  ghost predicate Verifiable(ir: seq<Element>) {
    JumpsApart(ir) && GotosFollowed(ir) && (Frames(ir) == [] || StoresFirst(ir))
  }

  /** Supported programs small enough for the 16-bit positions, which the verifier takes and whose run compares
      no equal operands by BLT. */
  ghost predicate Faithful(ir: seq<Element>, junk: Junk) {
    && Accepted(ir) && LastLengthAt(ir, junk) < 65536
    && Verifiable(ir) && NeverEqual(RV64, ir, ZeroRegs())
  }

  lemma FaithfulMeans(ir: seq<Element>, junk: Junk)
    requires Faithful(ir, junk)
    ensures Generate(ir, junk).Ok? && Means(Generate(ir, junk).value, ir)
  {
    hide Accepted, LastLengthAt, NeverEqual, HaltsWith, ReturnsWith, LoadMain, Generate, MainPasses;
    hide JumpsApart, GotosFollowed, StoresFirst, Frames, Jvm.Run, Initializes, LoadInitializer, Produced, Compilable;
    AcceptedProduces(ir, junk);
    ClassInitializes(ir, junk);
    ClassVerifies(ir, junk);
    forall k: nat
      ensures !Jvm.Run(LoadedMain(ir, junk).code.code, LoadedMain(ir, junk).pool, Entered(ZeroRegs()), k).Stuck?
    {
      ClassNeverStuck(ir, junk, k);
    }
    forall final: Regs
      ensures HaltsWith(AsSpecified, RV64, ir, ZeroRegs(), final)
         <==> ReturnsWith(LoadedMain(ir, junk).code.code, LoadedMain(ir, junk).pool, ZeroRegs(), final)
    {
      ClassRunsProgram(ir, junk, final);
    }
  }

  /** The class meant for a program: its pool, two fields, the class initializer and main. */
  function ClassOf(ir: seq<Element>, junk: Junk): Class_ {
    ClassFor(PoolTo(ir, junk, |ir|), MainOf(ir, junk))
  }

  /** The file reads as the class meant exactly within the 16-bit positions, and always for up to 2900 instructions. */
  ghost predicate ReadsAsMeant(bytes: seq<byte>, ir: seq<Element>, junk: Junk) {
    && (Produced(ir, junk) ==> (ReadClass(bytes) == Got(ClassOf(ir, junk), []) <==> LastLengthAt(ir, junk) < 65536))
    && (Instructions(ir, |ir|) <= 2900 ==> ReadClass(bytes) == Got(ClassOf(ir, junk), []))
  }

  /** The class initializes itself and has a main, which the verifier takes exactly when it can. */
  ghost predicate Runnable(bytes: seq<byte>, ir: seq<Element>) {
    && Initializes(LoadInitializer(bytes)) && LoadMain(bytes).Loaded?
    && (Accepted(ir) ==> (MainPasses(LoadMain(bytes)) <==> Verifiable(ir)))
  }

  /** What the compiler promises of the file it writes for a program. */
  ghost predicate Delivers(bytes: seq<byte>, ir: seq<Element>, junk: Junk) {
    && Generate(ir, junk) == Ok(bytes)
    && ReadsAsMeant(bytes, ir, junk)
    && (Produced(ir, junk) && LastLengthAt(ir, junk) < 65536 ==> Runnable(bytes, ir))
    && (Faithful(ir, junk) ==> Means(bytes, ir))
  }

  lemma MainThere(ir: seq<Element>, junk: Junk)
    requires Produced(ir, junk) && LastLengthAt(ir, junk) < 65536
    ensures LoadedMain(ir, junk).Loaded?
  {
    hide LoadedMain, LastLengthAt, Produced, PoolTo, Assemble, FramesOf, Numbers, PrologueMeans;
    LoadedIs(ir, junk);
  }

  /** Every file generated for a program with unique labels keeps the promise. */
  lemma Delivered(ir: seq<Element>, junk: Junk)
    requires Generate(ir, junk).Ok? && UniqueLabels(ir)
    ensures Delivers(Generate(ir, junk).value, ir, junk)
  {
    hide Accepted, LastLengthAt, Verifiable, Faithful, Means, MainPasses, LoadMain, Generate, UniqueLabels, Produced;
    hide ReadClass, ClassFor, PoolTo, MainOf, Instructions, Initializes, LoadInitializer;
    if Produced(ir, junk) {
      FileReadsBack(ir, junk);
    }
    if Produced(ir, junk) && LastLengthAt(ir, junk) < 65536 {
      ClassInitializes(ir, junk);
      MainThere(ir, junk);
      if Accepted(ir) {
        AcceptedVerifies(ir, junk);
      }
    }
    if Instructions(ir, |ir|) <= 2900 {
      SmallFiles(ir, junk);
    }
    if Faithful(ir, junk) {
      FaithfulMeans(ir, junk);
    }
  }

  /** What an error says of the sources. */
  ghost predicate Explains(error: Error, sources: seq<string>) {
    match error
    case UnexpectedCharacter => exists i :: 0 <= i < |sources| && Lexer.Unreadable(sources[i])
    case SyntaxError => (exists tss :: Lexer.AllSpell(sources, tss)) && forall ir :: !Written(sources, ir)
    case DuplicateLabel(l) => exists ir, j :: Written(sources, ir) && Seman.FirstDuplicate(ir, j, l)
    case UnknownLabel(l) => exists ir, i :: Written(sources, ir) && Seman.FirstUnknown(ir, i, l)
    case MissingOffset(l) => exists ir :: Written(sources, ir) && Stranded(ir, l)
    case UndefinedOperand => exists ir :: Written(sources, ir) && !OperandsFit(ir)
    case MissingConstant(_) => false
  }

  lemma {:induction false} TokensError(s: string)
    ensures Lexer.Tokens(s).Err? ==> Lexer.Tokens(s) == Err(UnexpectedCharacter)
    decreases |s|
  {
    hide Lexer.Run;
    var next := Lexer.Next(s);
    if next.Ok? && next.value.0.kind != Lexer.EOF {
      TokensError(s[next.value.1..]);
    }
  }

  lemma {:induction false} LexError(sources: seq<string>, n: nat)
    requires n <= |sources| && Lexer.TokensTo(sources, n).Err?
    ensures Lexer.TokensTo(sources, n) == Err(UnexpectedCharacter)
    ensures exists i :: 0 <= i < |sources| && Lexer.Unreadable(sources[i])
  {
    hide Lexer.Tokens, Lexer.Unreadable;
    if Lexer.TokensTo(sources, n - 1).Err? {
      LexError(sources, n - 1);
    } else {
      TokensError(sources[n - 1]);
      Lexer.UnreadableIs(sources[n - 1]);
    }
  }

  lemma {:induction false} ElementsError(ts: seq<Lexer.Token>, i: nat)
    ensures Parser.Elements(ts, i).Err? ==> Parser.Elements(ts, i) == Err(SyntaxError)
    decreases |ts| - i
  {
    hide Parser.Line;
    if i < |ts| {
      Parser.LineEnds(ts, i);
      ElementsError(ts, i + 1);
      if i + 2 <= |ts| {
        ElementsError(ts, i + 2);
      }
      if Parser.Line(ts, i).Some? {
        ElementsError(ts, Parser.Line(ts, i).get.end);
      }
    }
  }

  lemma FrontError(sources: seq<string>)
    requires Front(sources).Err?
    ensures Explains(Front(sources).error, sources)
  {
    hide Lexer.TokensTo, Lexer.Spells, Lexer.Unreadable, Parser.Elements, Written;
    if Lexer.TokensTo(sources, |sources|).Err? {
      LexError(sources, |sources|);
    } else {
      ElementsError(Lexer.AllTokens(sources).value, 0);
      var tss := Lexer.TokensOfAll(sources, |sources|);
      assert sources[..|sources|] == sources;
      forall ir ensures !Written(sources, ir) {
        FrontIsWritten(sources, ir);
      }
    }
  }

  lemma {:induction false} Pass1Error(pool: Pool, ir: seq<Element>, n: nat, g: Gen)
    requires n <= |ir| && g.InRange() && Pass1(pool, ir, n, g).Err?
    requires forall j :: 0 <= j < n && ir[j].Instr? && !UsesWrongOperand(ir[j].ins) ==> Emits(pool, ir[j])
    ensures Pass1(pool, ir, n, g) == Err(UndefinedOperand)
    ensures exists j :: 0 <= j < n && ir[j].Instr? && UsesWrongOperand(ir[j].ins)
  {
    hide Emits, UsesWrongOperand, EmitElement;
    if Pass1(pool, ir, n - 1, g).Err? {
      Pass1Error(pool, ir, n - 1, g);
    } else {
      EmitError(pool, ir, n - 1, Pass1(pool, ir, n - 1, g).value);
    }
  }

  lemma EmitError(pool: Pool, ir: seq<Element>, i: nat, g: Gen)
    requires i < |ir| && EmitElement(pool, ir, i, g).Err?
    requires ir[i].Instr? && !UsesWrongOperand(ir[i].ins) ==> Emits(pool, ir[i])
    ensures EmitElement(pool, ir, i, g) == Err(UndefinedOperand) && ir[i].Instr? && UsesWrongOperand(ir[i].ins)
  {
    hide Branch, Jump;
  }

  /** With an operand of the wrong kind the generator stops in the first pass. */
  lemma WrongOperandStops(ir: seq<Element>, junk: Junk)
    requires exists j :: 0 <= j < |ir| && ir[j].Instr? && UsesWrongOperand(ir[j].ins)
    ensures Generate(ir, junk) == Err(UndefinedOperand)
  {
    hide Pass1, Pass2, PoolTo, UsesWrongOperand, Emits, MainPrologue, FileBytes;
    var b := PoolTo(ir, junk, |ir|);
    forall j | 0 <= j < |ir| && ir[j].Instr? && !UsesWrongOperand(ir[j].ins) ensures Emits(b.index, ir[j]) {
      ConstantFound(ir, junk, j);
    }
    ConstantsFound(ir, junk);
    Pass1Lays(b.index, ir, |ir|, MainPrologue(b));
    Pass1Error(b.index, ir, |ir|, Gen(MainPrologue(b), map[], map[], []));
  }

  lemma GenerateError(ir: seq<Element>, junk: Junk)
    requires Generate(ir, junk).Err?
    ensures match Generate(ir, junk).error
            case UndefinedOperand => !OperandsFit(ir)
            case MissingOffset(l) => Stranded(ir, l)
            case _ => false
  {
    hide Generate, UsesWrongOperand, OperandsFit, Stranded;
    OperandsAre(ir);
    if OperandsFit(ir) {
      GenerationStops(ir, junk);
    } else {
      WrongOperandStops(ir, junk);
    }
  }

  /** Compiles the sources, read as one program, to a class file: exactly when they are a way of writing a program
      that compiles, and then the file delivers that program; otherwise the error explains why not. */
  method Compile(sources: seq<string>, junk: Junk) returns (r: Result<seq<byte>>)
    requires |sources| > 0
    ensures r.Ok? <==> exists ir :: Written(sources, ir) && Compiles(ir)
    ensures forall ir :: r.Ok? && Written(sources, ir) ==> Delivers(r.value, ir, junk)
    ensures r.Err? ==> Explains(r.error, sources)
  {
    hide Compiles, Delivers, Generate, Parser.Elements, UniqueLabels, ClosedLabels, Written, Stranded, OperandsFit;
    hide Seman.FirstDuplicate, Seman.FirstUnknown, Lexer.Spells, Lexer.AllSpell;
    forall ir ensures Front(sources) == Ok(ir) <==> Written(sources, ir) {
      FrontIsWritten(sources, ir);
    }
    if Front(sources).Err? {
      FrontError(sources);
    }
    var tokens :- Lexer.Lex(sources);
    var ir :- Parser.Parse(tokens);
    assert Front(sources) == Ok(ir);
    CompilesIs(ir, junk);
    if Generate(ir, junk).Err? {
      GenerateError(ir, junk);
    }
    var _ :- Seman.ReferencedLabelsExist(ir);
    var codegen := new C.Codegen(ir, junk);
    var _ :- codegen.GenerateBytecode();
    Delivered(ir, junk);
    return Ok(codegen.res.items);
  }

  lemma AcceptedVerifies(ir: seq<Element>, junk: Junk)
    requires Accepted(ir) && LastLengthAt(ir, junk) < 65536
    ensures LoadedMain(ir, junk).Loaded? && (MainPasses(LoadedMain(ir, junk)) <==> Verifiable(ir))
  {
    hide Accepted, LastLengthAt, LoadedMain, MainPasses, JumpsApart, GotosFollowed, StoresFirst, Frames;
    ClassVerifies(ir, junk);
  }

  lemma CompilesIs(ir: seq<Element>, junk: Junk)
    ensures Compiles(ir) <==> UniqueLabels(ir) && ClosedLabels(ir) && Generate(ir, junk).Ok?
  {
    hide UniqueLabels, ClosedLabels, LabelsDeclared, TargetsHaveCode, JumpsHaveCode, OperandsFit, Generate;
    hide UsesWrongOperand;
    GenerationSucceeds(ir, junk);
    DeclaredIs(ir);
    OperandsAre(ir);
    if LabelsDeclared(ir) {
      TargetsAre(ir);
    }
  }

  /** However a faithful program is written down, in one source or several, the sources compile, and the class file
      computes the program. */
  lemma WrittenMeans(sources: seq<string>, ir: seq<Element>, junk: Junk)
    requires Written(sources, ir) && Faithful(ir, junk)
    ensures Front(sources) == Ok(ir) && Compiles(ir)
    ensures Generate(ir, junk).Ok? && Means(Generate(ir, junk).value, ir)
  {
    hide Means, Generate, NeverEqual, LastLengthAt, Front, Verifiable, Written, LabelsDeclared, Compiles;
    FrontIsWritten(sources, ir);
    FaithfulMeans(ir, junk);
    CompilesIs(ir, junk);
  }

  /** No text denotes a J instruction: `j` becomes JAL, for which no code is generated. */
  lemma JumpsDropped(sources: seq<string>, i: nat)
    requires |sources| > 0 && Front(sources).Ok? && i < |Front(sources).value|
    requires Front(sources).value[i].Instr? && Front(sources).value[i].ins.R1?
    ensures Front(sources).value[i].ins.mnemonic != J && Size(Front(sources).value[i]) == 0
  {
    hide Front;
    var ir := Front(sources).value;
    Denotable(ir);
    assert FormElement(ir[i]);
  }

  /** Every supported program without a J can be written down, if its labels can. */
  lemma SupportedForm(ir: seq<Element>)
    requires Supported(ir) && forall i :: 0 <= i < |ir| ==> !(ir[i].Instr? && ir[i].ins.R1?) && !ir[i].Directive?
    requires forall m, rd, rs1, l :: Instr(R2(m, rd, rs1, Label(l))) in ir ==> IsIdentifier(l)
    requires forall l :: LabelDecl(l) in ir ==> IsLabelName(l)
    ensures ParserForm(ir)
  {
    hide IsIdentifier, IsLabelName;
    forall i | 0 <= i < |ir| ensures FormElement(ir[i]) {
      assert ir[i] in ir && SupportedElement(ir[i]);
    }
  }

  /** Counts x1 down from 3. */
  function Countdown(): seq<Element> {
    [Instr(R2(ADDI, 1, 0, Imm(3))), LabelDecl("loop"), Instr(R2(ADDI, 1, 1, Imm(-1))),
     Instr(R2(BNE, 1, 0, Label("loop")))]
  }

  lemma CountdownLabels()
    ensures UniqueLabels(Countdown()) && ClosedLabels(Countdown()) && TargetsHaveCode(Countdown())
  {
    var ir := Countdown();
    assert ir[1] == LabelDecl("loop") && ir[2].Instr?;
    assert HasCode(ir, "loop");
  }

  lemma CountdownForm()
    ensures Supported(Countdown()) && ParserForm(Countdown())
  {
  }

  lemma CountdownNoBlt()
    ensures forall i :: 0 <= i < |Countdown()| ==> !RealBlt(Countdown(), i)
  {
  }

  lemma CountdownJumps()
    ensures var ir := Countdown();
            && |ir| == 4 && (forall i :: 0 <= i < 4 ==> (Jumps(ir[i]) <==> i == 3)) && JumpLabel(ir[3]) == "loop"
            && ir[3].Instr? && ir[3].ins.R2? && Target(ir, "loop") == 1 && Offset(ir, 1) == 25 && Offset(ir, 4) == 57
            && SetsLocal2(ir[0])
  {
    var ir := Countdown();
    assert Offset(ir, 2) == 25 && Offset(ir, 3) == 40;
    assert Target(ir, "loop", 1) == 1;
  }

  lemma OneBranch(pool: Pool, ir: seq<Element>, j: nat, s: nat)
    requires Translatable(pool, ir) && j < |ir| && s < |ir|
    requires (forall i :: 0 <= i < |ir| ==> (Jumps(ir[i]) <==> i == j)) && ir[j].Instr? && ir[j].ins.R2?
    requires Aim(ir, j) != Offset(ir, j + 1) && SetsLocal2(ir[s])
    requires Offset(ir, s + 1) <= Aim(ir, j) && Offset(ir, s + 1) <= Offset(ir, j + 1)
    ensures Verifiable(ir)
  {
    hide Translatable, Frames, Offset, Jumps, JumpLabel, Target, SetsLocal2, Aim;
    forall x | x in Frames(ir) ensures Offset(ir, s + 1) <= x {
      FramesAre(pool, ir, x);
      AimIs(ir, j);
    }
    assert StoresFirst(ir);
  }

  lemma CountdownVerifiable(junk: Junk)
    requires Accepted(Countdown())
    ensures Verifiable(Countdown())
  {
    hide Accepted, Produced, Countdown, Jumps, JumpLabel, Target, Offset, SetsLocal2, PoolTo, Compilable, Translatable;
    hide Verifiable;
    var ir := Countdown();
    CountdownJumps();
    AcceptedProduces(ir, junk);
    CompilableParts(PoolTo(ir, junk, |ir|).index, ir);
    AimIs(ir, 3);
    OneBranch(PoolTo(ir, junk, |ir|).index, ir, 3, 0);
  }

  /** What the main results ask of a program can be met, by a text with a loop. */
  lemma CountdownMeans(junk: Junk)
    ensures ParserForm(Countdown()) && Faithful(Countdown(), junk)
    ensures Front([Text(ProgramTokens(Countdown()))]) == Ok(Countdown())
    ensures Generate(Countdown(), junk).Ok? && Means(Generate(Countdown(), junk).value, Countdown())
    ensures MainPasses(LoadedMain(Countdown(), junk))
  {
    hide Generate, Means, LastLengthAt, RealBlt, NeverEqual, Front, Countdown, TargetsHaveCode, Verifiable, LoadedMain;
    hide MainPasses, UsesWrongOperand;
    CountdownLabels();
    CountdownForm();
    CountdownNoBlt();
    CountdownSmall();
    SupportedOperands(Countdown());
    SmallPrograms(Countdown(), junk);
    PrintedReads(Countdown());
    NoBltNeverEqual(RV64, Countdown(), ZeroRegs());
    CountdownVerifiable(junk);
    FaithfulMeans(Countdown(), junk);
    AcceptedVerifies(Countdown(), junk);
  }

  lemma CountdownSmall()
    ensures Instructions(Countdown(), |Countdown()|) <= 2900
  {
    var ir := Countdown();
    assert Instructions(ir, 4) == Instructions(ir, 3) + 1 && Instructions(ir, 2) == Instructions(ir, 1) <= 1;
  }
}
