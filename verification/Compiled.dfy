/** The generated class file as a JVM meets it: read it, find main, verify it, run it. */
module Compiled {
  import opened Words
  import opened Ir
  import opened Emission
  import opened Layout
  import opened Patching
  import opened Assembly
  import opened Constants
  import opened ConstantPool
  import opened ClassFile
  import opened RiscV
  import opened Jvm
  import opened Simulation
  import opened Agreement
  import opened StackMap
  import opened Output
  import opened Verifier
  import opened TypeSafety
  import opened MainTyping
  import opened Coverage
  import opened Preparation
  import opened Loading
  import opened Unimplemented
  import Initializer

  // ----- when generation succeeds -----

  /** Every ADDI finds its constant, so only an undefined operand stops the first pass. */
  lemma ConstantsFound(ir: seq<Element>, junk: Junk)
    ensures AllEmit(PoolTo(ir, junk, |ir|).index, ir)
       <==> forall j :: 0 <= j < |ir| && ir[j].Instr? ==> !UsesWrongOperand(ir[j].ins)
  {
    hide PoolTo, UsesWrongOperand;
    forall j | 0 <= j < |ir| && ir[j].Instr? && !UsesWrongOperand(ir[j].ins)
      ensures Emits(PoolTo(ir, junk, |ir|).index, ir[j])
    {
      ConstantFound(ir, junk, j);
    }
    forall j | 0 <= j < |ir| && ir[j].Instr? && UsesWrongOperand(ir[j].ins)
      ensures !Emits(PoolTo(ir, junk, |ir|).index, ir[j])
    {
    }
  }

  lemma ConstantFound(ir: seq<Element>, junk: Junk, j: nat)
    requires j < |ir| && ir[j].Instr? && !UsesWrongOperand(ir[j].ins)
    ensures Emits(PoolTo(ir, junk, |ir|).index, ir[j])
  {
    hide FixedTo, AddNumber;
    if ir[j].ins.R2? && ir[j].ins.mnemonic == ADDI {
      NumberAdded_(PoolTo(ir, junk, j), ir[j].ins.op.imm);
      assert PoolTo(ir, junk, j + 1) == AddNumber(PoolTo(ir, junk, j), ir[j].ins.op.imm);
      PoolGrows(ir, junk, j + 1, |ir|);
    }
  }

  lemma NumberAdded_(b: Build, v: Int32)
    ensures Num(v) in AddNumber(b, v).index
  {
  }

  lemma {:induction false} PatchRefsOk(g: Gen, l: string, rs: seq<Ref>, k: nat)
    requires k <= |rs| && forall i :: 0 <= i < |rs| ==> rs[i].branch + 4 <= |g.code|
    ensures PatchRefs(g, l, rs, k).Ok? <==> k == 0 || Str(l) in g.offsets
  {
    if k > 0 {
      PatchRefsOk(g, l, rs, k - 1);
    }
  }

  lemma {:induction false} Pass2Ok(ir: seq<Element>, n: nat, g: Gen)
    requires n <= |ir| && g.InRange()
    ensures Pass2(ir, n, g).Ok?
       <==> forall i :: 0 <= i < n && ir[i].LabelDecl? && g.RefsTo(ir[i].name) != [] ==> Str(ir[i].name) in g.offsets
  {
    hide PatchRefs;
    if n > 0 {
      Pass2Ok(ir, n - 1, g);
      var r := Pass2(ir, n - 1, g);
      if r.Ok? && ir[n - 1].LabelDecl? {
        var rs := r.value.RefsTo(ir[n - 1].name);
        PatchRefsOk(r.value, ir[n - 1].name, rs, |rs|);
      }
    }
  }

  /** Generation stops exactly at an instruction with an undefined operand or at a declared jump target that
      no instruction follows; this holds for programs of any size. */
  lemma GenerationSucceeds(ir: seq<Element>, junk: Junk)
    ensures Generate(ir, junk).Ok?
       <==> (forall j :: 0 <= j < |ir| && ir[j].Instr? ==> !UsesWrongOperand(ir[j].ins)) && TargetsHaveCode(ir)
  {
    hide Pass1, Pass2, PoolTo, UsesWrongOperand, TargetsHaveCode, FileBytes, Refs, Offsets, MainPrologue;
    var b := PoolTo(ir, junk, |ir|);
    ConstantsFound(ir, junk);
    Pass1Lays(b.index, ir, |ir|, MainPrologue(b));
    var r := Pass1(b.index, ir, |ir|, Gen(MainPrologue(b), map[], map[], []));
    if r.Ok? {
      Pass2Ok(ir, |ir|, r.value);
      PatchableIs(ir);
    }
  }

  lemma {:induction false} PatchRefsErr(g: Gen, l: string, rs: seq<Ref>, k: nat)
    requires k <= |rs| && forall i :: 0 <= i < |rs| ==> rs[i].branch + 4 <= |g.code|
    ensures PatchRefs(g, l, rs, k).Err?
        ==> PatchRefs(g, l, rs, k) == Err(MissingOffset(l)) && rs != [] && Str(l) !in g.offsets
  {
    if k > 0 {
      PatchRefsErr(g, l, rs, k - 1);
    }
  }

  /** `l` is declared and jumped to, and no declaration of it is followed by an instruction or the end. */
  ghost predicate Stranded(ir: seq<Element>, l: string) {
    && Declared(ir, l) && (exists j :: 0 <= j < |ir| && JumpsTo(ir[j], l))
    && !HasCode(ir, l)
  }

  lemma {:induction false} Pass2Err(ir: seq<Element>, n: nat, g: Gen)
    requires n <= |ir| && g.InRange() && Pass2(ir, n, g).Err?
    ensures exists i :: 0 <= i < n && ir[i].LabelDecl? && Pass2(ir, n, g) == Err(MissingOffset(ir[i].name))
                     && g.RefsTo(ir[i].name) != [] && Str(ir[i].name) !in g.offsets
  {
    hide PatchRefs;
    if n > 0 {
      if Pass2(ir, n - 1, g).Err? {
        Pass2Err(ir, n - 1, g);
      } else {
        var h := Pass2(ir, n - 1, g).value;
        var rs := h.RefsTo(ir[n - 1].name);
        PatchRefsErr(h, ir[n - 1].name, rs, |rs|);
      }
    }
  }

  /** When no operand is of the wrong kind, the error names a jumped-to label without code. */
  lemma GenerationStops(ir: seq<Element>, junk: Junk)
    requires Generate(ir, junk).Err? && forall j :: 0 <= j < |ir| && ir[j].Instr? ==> !UsesWrongOperand(ir[j].ins)
    ensures exists i :: 0 <= i < |ir| && ir[i].LabelDecl? && Stranded(ir, ir[i].name)
                     && Generate(ir, junk) == Err(MissingOffset(ir[i].name))
  {
    hide Pass1, Pass2, PoolTo, UsesWrongOperand, FileBytes, Refs, Offsets, MainPrologue, Stranded;
    var b := PoolTo(ir, junk, |ir|);
    ConstantsFound(ir, junk);
    Pass1Lays(b.index, ir, |ir|, MainPrologue(b));
    var g := Pass1(b.index, ir, |ir|, Gen(MainPrologue(b), map[], map[], [])).value;
    Pass2Err(ir, |ir|, g);
    var i :| 0 <= i < |ir| && ir[i].LabelDecl? && Pass2(ir, |ir|, g) == Err(MissingOffset(ir[i].name))
          && g.RefsTo(ir[i].name) != [] && Str(ir[i].name) !in g.offsets;
    StrandedIs(ir, i);
  }

  lemma StrandedIs(ir: seq<Element>, i: nat)
    requires i < |ir| && ir[i].LabelDecl? && Refs(ir, |ir|, ir[i].name) != [] && Str(ir[i].name) !in Offsets(ir, |ir|)
    ensures Stranded(ir, ir[i].name)
  {
    hide Refs, Offsets, JumpsTo, HasCode;
    var l := ir[i].name;
    NoRefs(ir, |ir|, l);
    LabelHasCode(ir, l);
    assert ir[i] == LabelDecl(l);
  }

  // ----- the pool of a supported program -----

  lemma {:induction false} PoolSmall(ir: seq<Element>, junk: Junk, n: nat)
    requires n <= |ir| && Supported(ir)
    ensures 5 * |PoolTo(ir, junk, n).entries| <= 180 + Offset(ir, n)
  {
    hide FixedIndex, NumberOf, Supported;
    if n > 0 {
      PoolSmall(ir, junk, n - 1);
      NumberSize(ir, n - 1);
    }
  }

  lemma NumberSize(ir: seq<Element>, j: nat)
    requires j < |ir| && Supported(ir)
    ensures HasNumber(ir[j]) ==> Size(ir[j]) >= 5
  {
    assert SupportedElement(ir[j]);
  }

  /** The keys of the fixed part are at their places in every pool. */
  lemma KeyAt(b: Build, i: nat)
    requires i < 38 && Agrees(b, 38)
    ensures IndexOf(b, NameAt(i)) == i + 1 && Resolve(b.entries, i + 1) == MeaningAt(i)
  {
    hide NameAt, MeaningAt, Resolve;
    assert IsFixed(b, i);
  }

  /** The keys that main relies on. */
  lemma MainKeys()
    ensures NameAt(35) == REGISTERS_FIELDREF && MeaningAt(35) == RegistersField
    ensures NameAt(33) == THREAD_LOCAL_GET_METHODREF && MeaningAt(33) == GetMethod
    ensures NameAt(7) == LONG_ARRAY_CLASS && MeaningAt(7) == LongArray
  {
  }

  /** The pool means what main relies on. */
  lemma PoolMeans(ir: seq<Element>, junk: Junk)
    requires |PoolTo(ir, junk, |ir|).entries| <= 65535
    ensures var b := PoolTo(ir, junk, |ir|);
            && Agrees(b, 38)
            && Numbers(b.index, b.entries)
            && PrologueMeans(b.entries, MainPrologue(b))
            && Resolve(b.entries, IndexOf(b, LONG_ARRAY_CLASS)) == LongArray
  {
    hide Agrees, PoolTo, Resolve, Numbers, IndexOf, NameAt, MeaningAt, BigEndian;
    MainKeys();
    var b := PoolTo(ir, junk, |ir|);
    PoolAgrees(ir, junk, |ir|);
    KeyAt(b, 35);
    KeyAt(b, 33);
    KeyAt(b, 7);
    NumbersAgree(b);
  }

  lemma NumbersAgree(b: Build)
    requires Agrees(b, 38)
    ensures Numbers(b.index, b.entries)
  {
    hide Resolve, NameAt, IsFixed;
  }

  // ----- the text entries -----

  lemma NamesAscii0(i: nat)
    requires i == 0 || i == 2 || i == 4 || i == 6
    ensures |NameAt(i)| < 65536 && Ascii(NameAt(i))
  {
  }

  lemma NamesAscii8(i: nat)
    requires i == 8 || i == 10 || i == 11 || i == 12
    ensures |NameAt(i)| < 65536 && Ascii(NameAt(i))
  {
  }

  lemma NamesAscii13(i: nat)
    requires 13 <= i < 20
    ensures |NameAt(i)| < 65536 && Ascii(NameAt(i))
  {
  }

  lemma NamesAscii20(i: nat)
    requires 20 <= i < 24
    ensures |NameAt(i)| < 65536 && Ascii(NameAt(i))
  {
  }

  lemma NamesAscii26(i: nat)
    requires i == 26 || i == 27 || i == 30 || i == 31
    ensures |NameAt(i)| < 65536 && Ascii(NameAt(i))
  {
  }

  lemma FixedEntryGood(i: nat)
    requires i < 38
    ensures GoodEntry(EntryAt(i))
  {
    hide NameAt, Ascii;
    if EntryAt(i).Utf8? {
      if i <= 6 { NamesAscii0(i); } else if i <= 12 { NamesAscii8(i); } else if i < 20 { NamesAscii13(i); }
      else if i < 24 { NamesAscii20(i); } else { NamesAscii26(i); }
    }
  }

  lemma {:induction false} PoolEntriesGood(ir: seq<Element>, junk: Junk, n: nat)
    requires n <= |ir|
    ensures forall i :: 0 <= i < |PoolTo(ir, junk, n).entries| ==> GoodEntry(PoolTo(ir, junk, n).entries[i])
  {
    hide GoodEntry, EntryAt, FixedIndex, HasNumber, NumberOf;
    if n == 0 {
      forall i | 0 <= i < 38 ensures GoodEntry(EntryAt(i)) {
        FixedEntryGood(i);
      }
    } else {
      PoolEntriesGood(ir, junk, n - 1);
      if HasNumber(ir[n - 1]) {
        IntegerGood(NumberOf(ir[n - 1], junk(n - 1)));
      }
    }
  }

  lemma IntegerGood(v: Int32)
    ensures GoodEntry(Integer(v))
  {
  }

  // ----- loading main and the initializer -----

  function CodeOf(b: Build, m: Method_): CodeInfo {
    CodeInfo(m.maxStack, m.maxLocals, m.code, [],
      if m.frames == [] then []
      else [Attribute(IndexOf(b, STACK_MAP_TABLE), WriteStackMap(FramesOf(b, Sorted(m.frames))))])
  }

  lemma StackMapRead(b: Build, frames: seq<u16>)
    requires |frames| < 65536
    ensures ReadStackMap(WriteStackMap(FramesOf(b, Sorted(frames)))) == Got(FramesOf(b, Sorted(frames)), [])
  {
    hide ReadStackMap, WriteStackMap, Sorted, IndexOf, Delta;
    SortedLength(frames);
    StackMapTrip(FramesOf(b, Sorted(frames)));
  }

  lemma CodeRead(b: Build, m: Method_)
    requires |m.code| < 65536 && |m.frames| < 65536
    ensures ReadCode(CodeAttribute(b, m).info) == Got(CodeOf(b, m), [])
  {
    hide ReadCode, WriteCode, WriteStackMap, FramesOf, Sorted, IndexOf;
    StackMapLength(b, m.frames);
    CodeTrip(CodeOf(b, m));
  }

  lemma MethodFound(b: Build, g: Gen)
    requires Agrees(b, 38)
    ensures var c := ClassFor(b, g);
            && FindMethod(c.pool, c.body.methods, "main", "([Ljava/lang/String;)V") == Some(c.body.methods[1])
            && FindMethod(c.pool, c.body.methods, "<clinit>", "()V") == Some(c.body.methods[0])
  {
    hide IndexOf, Resolve, Agrees, CodeAttribute;
    var c := ClassFor(b, g);
    MainNames(b);
    var ms := c.body.methods;
    assert FindMethod(c.pool, ms, "main", "([Ljava/lang/String;)V")
           == FindMethod(c.pool, ms[1..], "main", "([Ljava/lang/String;)V");
  }

  lemma CodeFound(b: Build, m: Method_, access: u16)
    requires Agrees(b, 38) && |m.code| < 65536 && |m.frames| < 65536
    ensures FindAttribute(b.entries, [CodeAttribute(b, m)], "Code") == Some(CodeAttribute(b, m).info)
    ensures LoadCode(b.entries, access, CodeAttribute(b, m).info)
         == Loaded(b.entries, access, CodeOf(b, m), FramesOf(b, Sorted(m.frames)))
  {
    hide ReadCode, ReadStackMap, WriteCode, WriteStackMap, FramesOf, Sorted, IndexOf, Resolve, Agrees;
    MainNames(b);
    CodeRead(b, m);
    StackMapRead(b, m.frames);
    EmptyFrames(b, m.frames);
  }

  lemma MethodLoaded(b: Build, g: Gen)
    requires Agrees(b, 38) && |g.code| < 65536 && |g.frames| < 65536
    ensures LoadMethod(ClassFor(b, g), "main", "([Ljava/lang/String;)V")
         == Loaded(b.entries, METHOD_ACCESS, CodeOf(b, Main(g)), FramesOf(b, Sorted(g.frames)))
    ensures LoadMethod(ClassFor(b, g), "<clinit>", "()V")
         == Loaded(b.entries, METHOD_ACCESS, CodeOf(b, Clinit(b)), [])
  {
    hide CodeAttribute, LoadCode, FindMethod, FramesOf, Sorted, IndexOf, Agrees, FindAttribute, CodeOf;
    MethodFound(b, g);
    CodeFound(b, Main(g), METHOD_ACCESS);
    ClinitSmall(b);
    CodeFound(b, Clinit(b), METHOD_ACCESS);
    EmptyFrames(b, []);
  }

  lemma EmptyFrames(b: Build, frames: seq<u16>)
    ensures frames == [] ==> FramesOf(b, Sorted(frames)) == []
  {
    hide FrameOf;
  }

  lemma MainNames(b: Build)
    requires Agrees(b, 38)
    ensures Resolve(b.entries, IndexOf(b, CLINIT_METHOD_NAME)) == Text("<clinit>")
    ensures Resolve(b.entries, IndexOf(b, NO_ARGS_VOID_DESCRIPTOR)) == Text("()V")
    ensures Resolve(b.entries, IndexOf(b, MAIN_METHOD_NAME)) == Text("main")
    ensures Resolve(b.entries, IndexOf(b, MAIN_METHOD_DESCRIPTOR)) == Text("([Ljava/lang/String;)V")
    ensures Resolve(b.entries, IndexOf(b, CODE)) == Text("Code")
    ensures Resolve(b.entries, IndexOf(b, STACK_MAP_TABLE)) == Text("StackMapTable")
    ensures |"<clinit>"| != |"main"|
  {
    hide Resolve, Agrees, Rank, IndexOf;
    KeyAt(b, 18);
    KeyAt(b, 19);
    KeyAt(b, 20);
    KeyAt(b, 21);
    KeyAt(b, 22);
    KeyAt(b, 23);
  }

  lemma ClassNames(b: Build)
    requires Agrees(b, 38)
    ensures Resolve(b.entries, IndexOf(b, THIS_CLASS)) == ClassOf("RvRuntime")
    ensures Resolve(b.entries, IndexOf(b, SUPER_CLASS)) == ClassOf("java/lang/Object")
  {
    hide Resolve, Agrees, Rank, IndexOf;
    KeyAt(b, 3);
    KeyAt(b, 1);
  }

  lemma FieldNames(b: Build)
    requires Agrees(b, 38)
    ensures Resolve(b.entries, IndexOf(b, REGISTERS_FIELD_NAME)) == Text("registers")
    ensures Resolve(b.entries, IndexOf(b, REGISTERS_FIELD_DESCRIPTOR)) == Text("Ljava/lang/ThreadLocal;")
    ensures Resolve(b.entries, IndexOf(b, REGISTERS_FIELD_SIGNATURE)) == Text("Ljava/lang/ThreadLocal<[J>;")
    ensures Resolve(b.entries, IndexOf(b, SIGNATURE)) == Text("Signature")
    ensures Resolve(b.entries, IndexOf(b, MEMORY_FIELD_NAME)) == Text("memory")
    ensures Resolve(b.entries, IndexOf(b, LONG_ARRAY_DESCRIPTOR)) == Text("[J")
  {
    hide Resolve, Agrees, Rank, IndexOf;
    KeyAt(b, 10);
    KeyAt(b, 11);
    KeyAt(b, 12);
    KeyAt(b, 16);
    KeyAt(b, 14);
    KeyAt(b, 6);
  }

  /** The class meant is one that the JVM links. */
  lemma ClassLinked(b: Build, g: Gen)
    requires Agrees(b, 38)
    ensures Linked(ClassFor(b, g)) && IsPublic(METHOD_ACCESS)
  {
    hide Resolve, Agrees, IndexOf, MethodInfo;
    ClassNames(b);
    FieldNames(b);
    var c := ClassFor(b, g);
    assert Names(c.pool, c.body.fields[0], "registers", "Ljava/lang/ThreadLocal;");
    assert Names(c.pool, c.body.fields[1], "memory", "[J");
  }

  /** The class meant, member by member, with its flags as numbers: public and synthetic; its fields private, static,
      final and synthetic; its methods public, static and synthetic. */
  lemma ClassHeader(b: Build, g: Gen)
    requires Agrees(b, 38)
    ensures var c := ClassFor(b, g);
            && c.minor == 0 && c.major == 52 && c.body.access == 0x1001
            && c.body.interfaces == [] && c.body.attributes == []
            && |c.body.fields| == 2 && c.body.fields[0].access == c.body.fields[1].access == 0x101A
            && |c.body.fields[0].attributes| == 1 && c.body.fields[1].attributes == []
            && Resolve(c.pool, c.body.fields[0].attributes[0].name) == Text("Signature")
            && Resolve(c.pool, Unsigned(c.body.fields[0].attributes[0].info)) == Text("Ljava/lang/ThreadLocal<[J>;")
            && |c.body.methods| == 2 && c.body.methods[0].access == c.body.methods[1].access == 0x1009
  {
    hide Resolve, Agrees, IndexOf, MethodInfo, BigEndian, Unsigned;
    FieldNames(b);
    Unsigned16(IndexOf(b, REGISTERS_FIELD_SIGNATURE));
    MethodFlags(b, CLINIT_METHOD_NAME, NO_ARGS_VOID_DESCRIPTOR, Clinit(b));
    MethodFlags(b, MAIN_METHOD_NAME, MAIN_METHOD_DESCRIPTOR, Main(g));
  }

  lemma MethodFlags(b: Build, name: string, descriptor: string, m: Method_)
    ensures MethodInfo(b, name, descriptor, m).access == 0x1009
  {
    hide CodeAttribute, IndexOf;
  }

  lemma ClassGood(ir: seq<Element>, junk: Junk, g: Gen)
    requires |PoolTo(ir, junk, |ir|).entries| < 65535 && |g.code| < 65536 && |g.frames| < 65536
    ensures GoodClass(ClassFor(PoolTo(ir, junk, |ir|), g))
  {
    hide GoodEntry, PoolTo, GoodBody, MethodInfo, IndexOf, BigEndian, ClinitCode;
    PoolEntriesGood(ir, junk, |ir|);
    BodyGood(PoolTo(ir, junk, |ir|), g);
  }

  lemma BodyGood(b: Build, g: Gen)
    requires |g.code| < 65536 && |g.frames| < 65536
    ensures GoodBody(ClassFor(b, g).body)
  {
    hide MethodInfo, IndexOf, GoodMember, BigEndian;
    MethodGood(b, CLINIT_METHOD_NAME, NO_ARGS_VOID_DESCRIPTOR, Clinit(b)) by { ClinitSmall(b); }
    MethodGood(b, MAIN_METHOD_NAME, MAIN_METHOD_DESCRIPTOR, Main(g));
    forall m | m in ClassFor(b, g).body.fields ensures GoodMember(m) {
      FieldGood(m);
    }
  }

  lemma FieldGood(m: MemberInfo)
    requires |m.attributes| <= 1 && forall i :: 0 <= i < |m.attributes| ==> |m.attributes[i].info| == 2
    ensures GoodMember(m)
  {
  }

  lemma MethodGood(b: Build, name: string, descriptor: string, m: Method_)
    requires |m.code| < 65536 && |m.frames| < 65536
    ensures GoodMember(MethodInfo(b, name, descriptor, m))
  {
    hide CodeAttribute, IndexOf;
    CodeAttributeLength(b, m);
    LengthsSmall(m);
  }

  lemma ClinitSmall(b: Build)
    ensures |ClinitCode(b)| < 64
  {
    hide IndexOf, BigEndian;
  }

  // ----- the main results -----

  /** Programs that generation takes, whatever their instructions mean, within the format's 16-bit counts. */
  ghost predicate Produced(ir: seq<Element>, junk: Junk) {
    Generate(ir, junk).Ok? && UniqueLabels(ir) && Fits(ir) && |PoolTo(ir, junk, |ir|).entries| < 65535
  }

  /** Supported programs that the label check accepts and whose jump targets have code. */
  ghost predicate Accepted(ir: seq<Element>) {
    Supported(ir) && UniqueLabels(ir) && ClosedLabels(ir) && TargetsHaveCode(ir) && Fits(ir)
  }

  /** The main method of a program. */
  function MainOf(ir: seq<Element>, junk: Junk): Gen {
    var b := PoolTo(ir, junk, |ir|);
    Gen(Assemble(b.index, ir, MainPrologue(b)), map[], map[], Frames(ir))
  }

  /** The position in the file of the last length field. */
  function LastLengthAt(ir: seq<Element>, junk: Junk): nat {
    LastLength(MainStart(PoolTo(ir, junk, |ir|)), Main(MainOf(ir, junk)))
  }

  lemma AcceptedProduces(ir: seq<Element>, junk: Junk)
    requires Accepted(ir)
    ensures Produced(ir, junk) && Compilable(PoolTo(ir, junk, |ir|).index, ir)
  {
    hide PoolTo, Generate, TargetsHaveCode, UniqueLabels, ClosedLabels, Supported, Offset, UsesWrongOperand;
    SupportedOperands(ir);
    ConstantsFound(ir, junk);
    GenerationSucceeds(ir, junk);
    PoolSmall(ir, junk, |ir|);
  }

  lemma ProducedFile(ir: seq<Element>, junk: Junk)
    requires Produced(ir, junk)
    ensures var b := PoolTo(ir, junk, |ir|);
            && AllEmit(b.index, ir) && Agrees(b, 38)
            && Generate(ir, junk) == Ok(FileBytes(b, MainOf(ir, junk)))
            && |MainOf(ir, junk).code| < 65536
  {
    hide PoolTo, FileBytes, Frames, TargetsHaveCode, UniqueLabels, MainPrologue, Assemble, MainMethod, Agrees;
    hide UsesWrongOperand;
    var b := PoolTo(ir, junk, |ir|);
    GenerationSucceeds(ir, junk);
    ConstantsFound(ir, junk);
    PoolAgrees(ir, junk, |ir|);
    TwoPassesAssemble(b.index, ir, MainPrologue(b));
    AssembleEnds(b.index, ir, MainPrologue(b));
    SameFile(b, MainMethod(b.index, ir, MainPrologue(b)).value, MainOf(ir, junk));
  }

  lemma SameFile(b: Build, g: Gen, h: Gen)
    requires g.code == h.code && g.frames == h.frames
    ensures FileBytes(b, g) == FileBytes(b, h)
  {
    hide AddMethod, Head;
  }

  lemma SupportedOperands(ir: seq<Element>)
    requires Supported(ir)
    ensures forall j :: 0 <= j < |ir| && ir[j].Instr? ==> !UsesWrongOperand(ir[j].ins)
  {
    forall j | 0 <= j < |ir| && ir[j].Instr? ensures !UsesWrongOperand(ir[j].ins) {
      assert SupportedElement(ir[j]);
    }
  }

  lemma {:induction false} BranchFramesFew(ir: seq<Element>, n: nat)
    requires n <= |ir|
    ensures 17 * |BranchFrames(ir, n)| + 10 <= Offset(ir, n)
  {
    hide Jumps, ToU16;
    if n > 0 {
      BranchFramesFew(ir, n - 1);
    }
  }

  /** The recorded references to the labels among the first `n` elements, from the first `m` elements. */
  function LabelTotal(ir: seq<Element>, n: nat, m: nat): nat
    requires n <= |ir| && m <= |ir|
  {
    if n == 0 then 0
    else LabelTotal(ir, n - 1, m) + if ir[n - 1].LabelDecl? then |Refs(ir, m, ir[n - 1].name)| else 0
  }

  lemma {:induction false} LabelFramesTotal(ir: seq<Element>, n: nat)
    requires n <= |ir|
    ensures |LabelFrames(ir, n)| == LabelTotal(ir, n, |ir|)
  {
    hide LabelOffset, Refs;
    if n > 0 {
      LabelFramesTotal(ir, n - 1);
    }
  }

  /** One jump adds at most one reference, its label being unique. */
  lemma {:induction false} OneReference(ir: seq<Element>, n: nat, m: nat)
    requires n <= |ir| && m < |ir| && UniqueLabels(ir)
    ensures LabelTotal(ir, n, m + 1)
         <= LabelTotal(ir, n, m) + if Jumps(ir[m]) && exists i :: 0 <= i < n && ir[i] == LabelDecl(JumpLabel(ir[m]))
                                   then 1 else 0
  {
    hide Jumps, JumpLabel, JumpAt, ToU16, Refs;
    if n > 0 {
      OneReference(ir, n - 1, m);
      if ir[n - 1].LabelDecl? {
        var l := ir[n - 1].name;
        assert |Refs(ir, m + 1, l)| == |Refs(ir, m, l)| + if JumpsTo(ir[m], l) then 1 else 0 by { RefsNext(ir, m, l); }
      }
    }
  }

  lemma RefsNext(ir: seq<Element>, m: nat, l: string)
    requires m < |ir|
    ensures |Refs(ir, m + 1, l)| == |Refs(ir, m, l)| + if JumpsTo(ir[m], l) then 1 else 0
  {
    hide JumpsTo, JumpAt, ToU16;
  }

  lemma {:induction false} NoReferences(ir: seq<Element>, n: nat)
    requires n <= |ir|
    ensures LabelTotal(ir, n, 0) == 0
  {
    if n > 0 {
      NoReferences(ir, n - 1);
    }
  }

  lemma {:induction false} ReferencesFew(ir: seq<Element>, m: nat)
    requires m <= |ir| && UniqueLabels(ir)
    ensures 5 * LabelTotal(ir, |ir|, m) + 10 <= Offset(ir, m)
  {
    hide Jumps, LabelTotal, UniqueLabels, Size;
    if m == 0 {
      NoReferences(ir, |ir|);
    } else {
      ReferencesFew(ir, m - 1);
      OneReference(ir, |ir|, m - 1);
      if Jumps(ir[m - 1]) {
        JumpBytes(ir[m - 1]);
      }
    }
  }

  lemma JumpBytes(e: Element)
    requires Jumps(e)
    ensures Size(e) >= 5
  {
  }

  /** There are fewer frames than bytes of code, so their number fits its 16-bit field. */
  lemma FramesFew(ir: seq<Element>)
    requires UniqueLabels(ir) && Fits(ir)
    ensures |Frames(ir)| < 65536
  {
    hide UniqueLabels, LabelTotal, Offset;
    BranchFramesFew(ir, |ir|);
    LabelFramesTotal(ir, |ir|);
    ReferencesFew(ir, |ir|);
  }

  /** What the file reads back as, exactly while its last length field is within reach of 16 bits. */
  lemma FileReadsBack(ir: seq<Element>, junk: Junk)
    requires Produced(ir, junk)
    ensures var b, g := PoolTo(ir, junk, |ir|), MainOf(ir, junk);
            && (Generate(ir, junk).value == WriteClass(ClassFor(b, g)) <==> LastLengthAt(ir, junk) < 65536)
            && (ReadClass(Generate(ir, junk).value) == Got(ClassFor(b, g), []) <==> LastLengthAt(ir, junk) < 65536)
            && (LastLengthAt(ir, junk) < 65536 ==>
                && LoadMain(Generate(ir, junk).value)
                    == Loaded(b.entries, METHOD_ACCESS, CodeOf(b, Main(g)), FramesOf(b, Sorted(g.frames)))
                && LoadInitializer(Generate(ir, junk).value)
                    == Loaded(b.entries, METHOD_ACCESS, CodeOf(b, Clinit(b)), []))
  {
    hide PoolTo, FileBytes, ReadClass, WriteClass, ClassFor, LoadMethod, Generate, LastLength, CodeOf, FramesOf, Sorted;
    hide GoodClass, MainStart, Fits, UniqueLabels, Agrees, Linked;
    var b, g := PoolTo(ir, junk, |ir|), MainOf(ir, junk);
    ProducedFile(ir, junk);
    FramesFew(ir);
    AgreesSize(b);
    FileIsClass(b, g);
    ClassGood(ir, junk, g);
    ClassTrip(ClassFor(b, g));
    if ReadClass(Generate(ir, junk).value).Got? {
      ClassBack(Generate(ir, junk).value);
    }
    ClassLinked(b, g);
    MethodLoaded(b, g);
  }

  lemma AgreesSize(b: Build)
    requires Agrees(b, 38)
    ensures |b.index| == |b.entries|
  {
  }

  /** The loaded main method of a generated file. */
  ghost function LoadedMain(ir: seq<Element>, junk: Junk): Loaded {
    match Generate(ir, junk)
    case Err(_) => NotLoaded
    case Ok(bytes) => LoadMain(bytes)
  }

  ghost function LoadedInitializer(ir: seq<Element>, junk: Junk): Loaded {
    match Generate(ir, junk)
    case Err(_) => NotLoaded
    case Ok(bytes) => LoadInitializer(bytes)
  }

  /** The initializer is type safe, with no arguments, and leaves the registers and the memory zeroed. */
  ghost predicate Initializes(m: Loaded) {
    && m.Loaded?
    && Verifies(m.code.code, m.pool, m.frames, m.code.maxStack, 0, m.code.maxLocals)
    && Initializer.Prepares(m.code.code, m.pool, ZeroRegs())
  }

  lemma ConstructorNames()
    ensures NameAt(5) == THREAD_LOCAL_CLASS && MeaningAt(5) == ThreadLocalClass
    ensures NameAt(25) == THREAD_LOCAL_INIT_METHODREF && MeaningAt(25) == InitMethod
  {
  }

  lemma SetterNames()
    ensures NameAt(29) == THREAD_LOCAL_SET_METHODREF && MeaningAt(29) == SetMethod
    ensures NameAt(37) == MEMORY_FIELDREF && MeaningAt(37) == MemoryField
  {
  }

  lemma InitializerKeys(b: Build)
    requires Agrees(b, 38)
    ensures InitializerMeans(b)
  {
    hide Resolve, Agrees, NameAt, MeaningAt, IndexOf;
    ConstructorNames();
    SetterNames();
    MainKeys();
    KeyAt(b, 5);
    KeyAt(b, 25);
    KeyAt(b, 35);
    KeyAt(b, 29);
    KeyAt(b, 37);
  }

  /** Before main the loaded class initializes itself, whatever the program is. */
  lemma ClassInitializes(ir: seq<Element>, junk: Junk)
    requires Produced(ir, junk) && LastLengthAt(ir, junk) < 65536
    ensures Initializes(LoadedInitializer(ir, junk))
  {
    hide PoolTo, Generate, LoadInitializer, LastLengthAt, MainOf, FramesOf, Sorted, ClinitCode, WriteClass, ReadClass;
    hide ClassFor, Agrees, Initializer.Prepares, Verifies, UniqueLabels, Initializer.Zeroed, InitializerMeans, LoadMain;
    var b := PoolTo(ir, junk, |ir|);
    FileReadsBack(ir, junk);
    ProducedFile(ir, junk);
    InitializerKeys(b);
    InitializerPrepares(b);
    InitializerVerifies(b);
    assert Initializer.Zeroed(32) == ZeroRegs() by { SameZeros(); }
  }

  lemma SameZeros()
    ensures Initializer.Zeroed(32) == ZeroRegs()
  {
  }

  lemma LoadedIs(ir: seq<Element>, junk: Junk)
    requires Produced(ir, junk) && LastLengthAt(ir, junk) < 65536
    ensures var b := PoolTo(ir, junk, |ir|);
            && LoadedMain(ir, junk).Loaded?
            && LoadedMain(ir, junk).pool == b.entries
            && LoadedMain(ir, junk).code.code == Assemble(b.index, ir, MainPrologue(b))
            && LoadedMain(ir, junk).code.maxStack == MaxStack
            && LoadedMain(ir, junk).code.maxLocals == MaxLocals
            && LoadedMain(ir, junk).frames == FramesOf(b, Sorted(Frames(ir)))
            && Numbers(b.index, b.entries) && PrologueMeans(b.entries, MainPrologue(b))
            && Resolve(b.entries, IndexOf(b, LONG_ARRAY_CLASS)) == LongArray
  {
    hide PoolTo, Generate, LoadMain, LastLengthAt, Assemble, Frames, FramesOf, Sorted, Numbers, PrologueMeans, Resolve;
    hide MainPrologue, IndexOf, FileBytes, WriteClass, ReadClass, ClassFor, Agrees, WriteStackMap, UniqueLabels;
    FileReadsBack(ir, junk);
    PoolMeans(ir, junk);
  }

  /** End to end: loaded from the generated bytes and run on a zeroed register array, main returns with some
      registers exactly when the program, stepped as the RISC-V specification says, ends with them; for every
      program whose run compares no equal operands by BLT. */
  lemma ClassRunsProgram(ir: seq<Element>, junk: Junk, final: Regs)
    requires Accepted(ir) && LastLengthAt(ir, junk) < 65536
    requires NeverEqual(RV64, ir, ZeroRegs())
    ensures LoadedMain(ir, junk).Loaded?
    ensures HaltsWith(AsSpecified, RV64, ir, ZeroRegs(), final)
       <==> ReturnsWith(LoadedMain(ir, junk).code.code, LoadedMain(ir, junk).pool, ZeroRegs(), final)
  {
    hide Accepted, Produced, LastLengthAt, PoolTo, NeverEqual, Assemble, LoadedMain, HaltsWith, ReturnsWith;
    hide Compilable, Numbers, PrologueMeans, Resolve, Frames, FramesOf, Sorted;
    AcceptedProduces(ir, junk);
    LoadedIs(ir, junk);
    var b := PoolTo(ir, junk, |ir|);
    MainMeetsSpecification(b.index, ir, MainPrologue(b), b.entries, ZeroRegs(), final);
  }

  /** The same for 32-bit registers: main returns with the RV32I registers in its low halves, as long as no jump
      parts the specified 32-bit run from the emitted 64-bit one. */
  lemma ClassRunsRv32(ir: seq<Element>, junk: Junk, narrow: Regs)
    requires Accepted(ir) && LastLengthAt(ir, junk) < 65536
    requires NeverParts(ir, ZeroRegs())
    ensures LoadedMain(ir, junk).Loaded?
    ensures HaltsWith(AsSpecified, RV32, ir, ZeroRegs(), narrow)
       <==> exists wide: Regs ::
              ReturnsWith(LoadedMain(ir, junk).code.code, LoadedMain(ir, junk).pool, ZeroRegs(), wide)
                  && Low(wide, narrow)
  {
    hide Accepted, Produced, LastLengthAt, PoolTo, NeverParts, Assemble, LoadedMain, HaltsWith;
    hide ReturnsWith;
    hide Compilable, Numbers, PrologueMeans, Resolve, Frames, FramesOf, Sorted, Low;
    AcceptedProduces(ir, junk);
    LoadedIs(ir, junk);
    var b := PoolTo(ir, junk, |ir|);
    MainMeetsRv32(b.index, ir, MainPrologue(b), b.entries, ZeroRegs(), narrow);
  }

  /** The loaded main never gets stuck, even when the program never ends. */
  lemma ClassNeverStuck(ir: seq<Element>, junk: Junk, k: nat)
    requires Accepted(ir) && LastLengthAt(ir, junk) < 65536
    ensures LoadedMain(ir, junk).Loaded?
    ensures !Jvm.Run(LoadedMain(ir, junk).code.code, LoadedMain(ir, junk).pool, Entered(ZeroRegs()), k).Stuck?
  {
    hide Accepted, Produced, LastLengthAt, PoolTo, Assemble, LoadedMain, Jvm.Run;
    hide Compilable, Numbers, PrologueMeans, Resolve, Frames, FramesOf, Sorted;
    AcceptedProduces(ir, junk);
    LoadedIs(ir, junk);
    var b := PoolTo(ir, junk, |ir|);
    MainNeverStuck(b.index, ir, MainPrologue(b), b.entries, ZeroRegs(), k);
  }

  ghost predicate MainPasses(m: Loaded)
    requires m.Loaded?
  {
    Verifies(m.code.code, m.pool, m.frames, m.code.maxStack, 1, m.code.maxLocals)
  }

  /** End to end for the JVM's verifier: the loaded method is type safe exactly when no two jumps share a
      target, none goes right behind a conditional branch, every J is followed by a target, and a store to a
      non-zero register comes before the first target. */
  lemma ClassVerifies(ir: seq<Element>, junk: Junk)
    requires Accepted(ir) && LastLengthAt(ir, junk) < 65536
    ensures LoadedMain(ir, junk).Loaded?
    ensures MainPasses(LoadedMain(ir, junk))
       <==> JumpsApart(ir) && GotosFollowed(ir) && (Frames(ir) == [] || StoresFirst(ir))
  {
    hide Accepted, Produced, LastLengthAt, PoolTo, Assemble, LoadedMain, Compilable, Numbers, PrologueMeans, Resolve;
    hide Verifies;
    hide Frames, FramesOf, Sorted, JumpsApart, GotosFollowed, StoresFirst, Distinct;
    AcceptedProduces(ir, junk);
    LoadedIs(ir, junk);
    var b := PoolTo(ir, junk, |ir|);
    CompilableParts(b.index, ir);
    MainVerifies(b.index, ir, MainPrologue(b), b.entries, b);
    FramesDistinct(b.index, ir);
  }

  /** The stack map table of the loaded main has a frame exactly at each place its jumps lead to, precisely when
      no two jumps share a target and none goes right behind a conditional branch; for programs of any
      instructions whose labels are all declared. */
  lemma ClassCovers(ir: seq<Element>, junk: Junk)
    requires Produced(ir, junk) && ClosedLabels(ir) && LastLengthAt(ir, junk) < 65536
    ensures var m := LoadedMain(ir, junk);
            && m.Loaded?
            && (Covers(m.code.code, TableTo(m.pool, m.frames, |m.frames|)) <==> JumpsApart(ir))
  {
    hide Produced, LastLengthAt, PoolTo, Assemble, LoadedMain, Numbers, PrologueMeans, Resolve, TableTo, Covers;
    hide Frames, FramesOf, Sorted, JumpsApart, Distinct, Translatable, IsPrologue, MainPrologue, ClosedLabels;
    LoadedIs(ir, junk);
    var b := PoolTo(ir, junk, |ir|);
    ProducedTranslates(ir, junk);
    TableCovers(b.index, ir, MainPrologue(b), b.entries, b);
    FramesDistinct(b.index, ir);
  }

  lemma ProducedTranslates(ir: seq<Element>, junk: Junk)
    requires Produced(ir, junk) && ClosedLabels(ir)
    ensures Translatable(PoolTo(ir, junk, |ir|).index, ir) && IsPrologue(MainPrologue(PoolTo(ir, junk, |ir|)))
  {
    hide PoolTo, Generate, TargetsHaveCode, UniqueLabels, ClosedLabels, Offset, UsesWrongOperand, Prologue;
    ConstantsFound(ir, junk);
    GenerationSucceeds(ir, junk);
  }

  /** With a three-register instruction other than ADD that has a target, the loaded main is never type safe. */
  lemma ClassRejected(ir: seq<Element>, junk: Junk, i: nat)
    requires Produced(ir, junk) && ClosedLabels(ir) && LastLengthAt(ir, junk) < 65536
    requires i < |ir| && Unfinished(ir[i])
    ensures LoadedMain(ir, junk).Loaded? && !MainPasses(LoadedMain(ir, junk))
  {
    hide Produced, LastLengthAt, PoolTo, Assemble, LoadedMain, Numbers, PrologueMeans, Resolve, Verifies, Unfinished;
    hide Frames, FramesOf, Sorted, Translatable, IsPrologue, MainPrologue, ClosedLabels;
    LoadedIs(ir, junk);
    var b := PoolTo(ir, junk, |ir|);
    ProducedTranslates(ir, junk);
    UnfinishedRejected(b.index, ir, MainPrologue(b), b.entries, LoadedMain(ir, junk).frames, i);
  }
}
