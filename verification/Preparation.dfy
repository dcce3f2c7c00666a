/** The generated class initializer: it is type safe, and it prepares the registers and the memory. */
module Preparation {
  import opened Words
  import opened Emission
  import opened Constants
  import opened ConstantPool
  import opened Opcodes
  import opened Jvm
  import opened Simulation
  import opened Output
  import opened Verifier
  import opened TypeSafety
  import I = Initializer

  lemma InitializerOpcodes()
    ensures Decode(NEW) == New && Decode(DUP) == Dup && Decode(INVOKESPECIAL) == Invokespecial
    ensures Decode(PUTSTATIC) == Putstatic && Decode(NEWARRAY) == Newarray && Decode(SIPUSH) == Sipush
  {
  }

  /** What the initializer's indices must stand for. */
  ghost predicate InitializerMeans(b: Build) {
    && Resolve(b.entries, IndexOf(b, THREAD_LOCAL_CLASS)) == ThreadLocalClass
    && Resolve(b.entries, IndexOf(b, THREAD_LOCAL_INIT_METHODREF)) == InitMethod
    && Resolve(b.entries, IndexOf(b, REGISTERS_FIELDREF)) == RegistersField
    && Resolve(b.entries, IndexOf(b, THREAD_LOCAL_SET_METHODREF)) == SetMethod
    && Resolve(b.entries, IndexOf(b, MEMORY_FIELDREF)) == MemoryField
  }

  /** An instruction with an index stands at `pc`. */
  ghost predicate Refers(code: seq<byte>, es: seq<Entry>, pc: nat, op: Opcode, meaning: Meaning) {
    pc + 2 < |code| && Decode(code[pc]) == op && Resolve(es, Index2(code, pc)) == meaning
  }

  ghost predicate Stands(code: seq<byte>, pc: nat, op: Opcode) {
    pc < |code| && Decode(code[pc]) == op
  }

  /** An instruction with a byte as its operand. */
  ghost predicate Takes(code: seq<byte>, pc: nat, op: Opcode, operand: byte) {
    pc + 1 < |code| && Decode(code[pc]) == op && code[pc + 1] == operand
  }

  /** The registers' part of the initializer. */
  ghost predicate RegistersPart(code: seq<byte>, es: seq<Entry>) {
    && |code| == 29
    && Refers(code, es, 0, New, ThreadLocalClass)
    && Stands(code, 3, Dup)
    && Refers(code, es, 4, Invokespecial, InitMethod)
    && Refers(code, es, 7, Putstatic, RegistersField)
    && Refers(code, es, 10, Getstatic, RegistersField)
    && Takes(code, 13, Bipush, 32)
    && Takes(code, 15, Newarray, 11)
    && Refers(code, es, 17, Invokevirtual, SetMethod)
  }

  /** The memory's part. */
  ghost predicate MemoryPart(code: seq<byte>, es: seq<Entry>) {
    && |code| == 29
    && Stands(code, 20, Sipush) && Signed(Operand(code, 21, 2)) == 1024
    && Takes(code, 23, Newarray, 11)
    && Refers(code, es, 25, Putstatic, MemoryField)
    && Stands(code, 28, Return)
  }

  lemma IndexAt(code: seq<byte>, es: seq<Entry>, pc: nat, op: byte, index: u16)
    requires At(code, pc, [op] + BigEndian(index, 2))
    ensures Refers(code, es, pc, Decode(op), Resolve(es, index))
  {
    hide BigEndian, Decode, Resolve, Index2;
    IndexReads(code, pc, op, index);
  }

  lemma MemoryIs(b: Build, code: seq<byte>)
    requires InitializerMeans(b) && code == ClinitCode(b)
    ensures MemoryPart(code, b.entries)
  {
    hide BigEndian, Decode, Resolve, IndexOf, ClinitRegisters, Refers;
    InitializerOpcodes();
    OpcodesAgree();
    var a := ClinitRegisters(b);
    assert |a| == 20 by { RegistersSize(b); }
    var s, n := [SIPUSH] + BigEndian(1024, 2), [NEWARRAY, 11];
    var p := [PUTSTATIC] + BigEndian(IndexOf(b, MEMORY_FIELDREF), 2);
    assert code == a + s + n + p + [RETURN];
    assert At(code, 0, a + s + n + p + [RETURN]);
    AtParts(code, 0, a + s + n + p, [RETURN]);
    AtParts(code, 0, a + s + n, p);
    AtParts(code, 0, a + s, n);
    AtParts(code, 0, a, s);
    AtByte(code, 28, [RETURN], 0);
    IndexAt(code, b.entries, 25, PUTSTATIC, IndexOf(b, MEMORY_FIELDREF));
    AtByte(code, 23, n, 0);
    AtByte(code, 23, n, 1);
    AtByte(code, 20, s, 0);
    AtParts(code, 20, [SIPUSH], BigEndian(1024, 2));
    assert Operand(code, 21, 2) == BigEndian(1024, 2);
    Signed1024();
  }

  lemma Signed1024()
    ensures Signed(BigEndian(1024, 2)) == 1024
  {
    UnsignedBigEndian(1024, 2);
    Pow256Values();
  }

  lemma RegistersSize(b: Build)
    ensures |ClinitRegisters(b)| == 20
  {
    hide BigEndian, IndexOf;
  }

  lemma ClinitSize(b: Build)
    ensures |ClinitCode(b)| == 29 && ClinitRegisters(b) <= ClinitCode(b)
  {
    hide BigEndian, ClinitRegisters, IndexOf;
    RegistersSize(b);
  }

  /** The pieces of the registers' part. */
  lemma RegistersPieces(b: Build, code: seq<byte>)
    requires code == ClinitCode(b)
    ensures At(code, 0, [NEW] + BigEndian(IndexOf(b, THREAD_LOCAL_CLASS), 2)) && At(code, 3, [DUP])
    ensures At(code, 4, [INVOKESPECIAL] + BigEndian(IndexOf(b, THREAD_LOCAL_INIT_METHODREF), 2))
    ensures At(code, 7, [PUTSTATIC] + BigEndian(IndexOf(b, REGISTERS_FIELDREF), 2))
    ensures At(code, 10, [GETSTATIC] + BigEndian(IndexOf(b, REGISTERS_FIELDREF), 2))
    ensures At(code, 13, [BIPUSH, 32]) && At(code, 15, [NEWARRAY, 11])
    ensures At(code, 17, [INVOKEVIRTUAL] + BigEndian(IndexOf(b, THREAD_LOCAL_SET_METHODREF), 2))
  {
    hide BigEndian, IndexOf;
    var field := IndexOf(b, REGISTERS_FIELDREF);
    var n, i := [NEW] + BigEndian(IndexOf(b, THREAD_LOCAL_CLASS), 2),
      [INVOKESPECIAL] + BigEndian(IndexOf(b, THREAD_LOCAL_INIT_METHODREF), 2);
    var p, g := [PUTSTATIC] + BigEndian(field, 2), [GETSTATIC] + BigEndian(field, 2);
    var v := [INVOKEVIRTUAL] + BigEndian(IndexOf(b, THREAD_LOCAL_SET_METHODREF), 2);
    var a := n + [DUP] + i + p + g + [BIPUSH, 32] + [NEWARRAY, 11] + v;
    assert a == ClinitRegisters(b);
    assert At(code, 0, a) by { ClinitSize(b); }
    hide At;
    AtParts(code, 0, n + [DUP] + i + p + g + [BIPUSH, 32] + [NEWARRAY, 11], v);
    AtParts(code, 0, n + [DUP] + i + p + g + [BIPUSH, 32], [NEWARRAY, 11]);
    AtParts(code, 0, n + [DUP] + i + p + g, [BIPUSH, 32]);
    AtParts(code, 0, n + [DUP] + i + p, g);
    AtParts(code, 0, n + [DUP] + i, p);
    AtParts(code, 0, n + [DUP], i);
    AtParts(code, 0, n, [DUP]);
  }

  lemma RegistersAre(b: Build, code: seq<byte>)
    requires InitializerMeans(b) && code == ClinitCode(b)
    ensures RegistersPart(code, b.entries)
  {
    hide BigEndian, Decode, Resolve, IndexOf, Refers, ClinitCode, At;
    InitializerOpcodes();
    OpcodesAgree();
    ClinitSize(b);
    RegistersPieces(b, code);
    var field := IndexOf(b, REGISTERS_FIELDREF);
    IndexAt(code, b.entries, 0, NEW, IndexOf(b, THREAD_LOCAL_CLASS));
    AtByte(code, 3, [DUP], 0);
    IndexAt(code, b.entries, 4, INVOKESPECIAL, IndexOf(b, THREAD_LOCAL_INIT_METHODREF));
    IndexAt(code, b.entries, 7, PUTSTATIC, field);
    IndexAt(code, b.entries, 10, GETSTATIC, field);
    AtByte(code, 13, [BIPUSH, 32], 0);
    AtByte(code, 13, [BIPUSH, 32], 1);
    AtByte(code, 15, [NEWARRAY, 11], 0);
    AtByte(code, 15, [NEWARRAY, 11], 1);
    IndexAt(code, b.entries, 17, INVOKEVIRTUAL, IndexOf(b, THREAD_LOCAL_SET_METHODREF));
  }

  // ----- running it -----

  lemma StepNew(code: seq<byte>, es: seq<Entry>, m: I.Machine)
    requires Refers(code, es, m.pc, New, ThreadLocalClass)
    ensures I.Step(code, es, m)
         == I.Going(m.(pc := m.pc + 3, stack := m.stack + [I.LocalI(m.made)], made := m.made + 1))
  {
    hide Decode, Resolve, Index2;
    assert m.stack[..|m.stack|] == m.stack;
  }

  lemma StepDup(code: seq<byte>, es: seq<Entry>, m: I.Machine)
    requires Stands(code, m.pc, Dup) && m.stack != []
    ensures I.Step(code, es, m) == I.Going(m.(pc := m.pc + 1, stack := m.stack + [m.Top()]))
  {
    hide Decode;
    assert m.stack[..|m.stack|] == m.stack;
  }

  lemma StepConstructor(code: seq<byte>, es: seq<Entry>, m: I.Machine, rest: seq<I.Item>, id: nat)
    requires Refers(code, es, m.pc, Invokespecial, InitMethod) && m.stack == rest + [I.LocalI(id)]
    ensures I.Step(code, es, m) == I.Going(m.(pc := m.pc + 3, stack := rest))
  {
    hide Decode, Resolve, Index2;
    assert m.stack[..|m.stack| - 1] + [] == rest;
  }

  lemma StepPut(code: seq<byte>, es: seq<Entry>, m: I.Machine, f: Meaning, x: I.Item)
    requires Refers(code, es, m.pc, Putstatic, f) && m.stack == [x] && I.Storable(f, x)
    ensures I.Step(code, es, m) == I.Going(m.(pc := m.pc + 3, stack := [], statics := m.statics[f := x]))
  {
    hide Decode, Resolve, Index2, I.Storable;
  }

  lemma StepGet(code: seq<byte>, es: seq<Entry>, m: I.Machine, f: Meaning)
    requires Refers(code, es, m.pc, Getstatic, f) && m.stack == [] && f in m.statics
    ensures I.Step(code, es, m) == I.Going(m.(pc := m.pc + 3, stack := [m.statics[f]]))
  {
    hide Decode, Resolve, Index2;
  }

  lemma StepNumber(code: seq<byte>, es: seq<Entry>, m: I.Machine, v: byte)
    requires Takes(code, m.pc, Bipush, v) && v < 128
    ensures I.Step(code, es, m) == I.Going(m.(pc := m.pc + 2, stack := m.stack + [I.IntI(v)]))
  {
    hide Decode;
    assert m.stack[..|m.stack|] == m.stack;
  }

  lemma StepShort(code: seq<byte>, es: seq<Entry>, m: I.Machine, v: int)
    requires Stands(code, m.pc, Sipush) && Signed(Operand(code, m.pc + 1, 2)) == v && m.stack == []
    ensures I.Step(code, es, m) == I.Going(m.(pc := m.pc + 3, stack := [I.IntI(v)]))
  {
    hide Decode, Signed, Operand;
  }

  lemma StepArray(code: seq<byte>, es: seq<Entry>, m: I.Machine, rest: seq<I.Item>, n: nat)
    requires Takes(code, m.pc, Newarray, 11) && m.stack == rest + [I.IntI(n)]
    ensures I.Step(code, es, m) == I.Going(m.(pc := m.pc + 2, stack := rest + [I.LongsI(I.Zeroed(n))]))
  {
    hide Decode, I.Zeroed;
    assert m.stack[..|m.stack| - 1] == rest;
  }

  lemma StepSet(code: seq<byte>, es: seq<Entry>, m: I.Machine, id: nat, x: I.Item)
    requires Refers(code, es, m.pc, Invokevirtual, SetMethod) && m.stack == [I.LocalI(id), x] && !x.IntI?
    ensures I.Step(code, es, m) == I.Going(m.(pc := m.pc + 3, stack := [], held := m.held[id := x]))
  {
    hide Decode, Resolve, Index2;
    assert m.stack[..0] + [] == [];
  }

  lemma StepReturn(code: seq<byte>, es: seq<Entry>, m: I.Machine)
    requires Stands(code, m.pc, Return)
    ensures I.Step(code, es, m) == I.Done(m)
  {
    hide Decode;
  }

  lemma RunStep(code: seq<byte>, es: seq<Entry>, m: I.Machine, t: I.Machine, n: nat)
    requires I.Step(code, es, m) == I.Going(t)
    ensures I.Run(code, es, I.Going(m), n + 1) == I.Run(code, es, I.Going(t), n)
  {
    hide I.Step;
  }

  const WithRegisters := map[RegistersField := I.LocalI(0)]

  /** The state before the memory is set up: the ThreadLocal of `registers` holds 32 zeros. */
  function Middle(): I.Machine {
    I.Machine(20, [], 1, map[0 := I.LongsI(I.Zeroed(32))], WithRegisters)
  }

  /** The ThreadLocal is made and stored. */
  lemma LocalRun(code: seq<byte>, es: seq<Entry>, n: nat)
    requires RegistersPart(code, es)
    ensures I.Run(code, es, I.Fresh, n + 4) == I.Run(code, es, I.Going(I.Machine(10, [], 1, map[], WithRegisters)), n)
  {
    hide I.Step, I.Run, Refers, Stands, Takes;
    var l := I.LocalI(0);
    var m0 := I.Machine(0, [], 0, map[], map[]);
    var m1 := I.Machine(3, [l], 1, map[], map[]);
    var m2 := m1.(pc := 4, stack := [l, l]);
    var m3 := m1.(pc := 7);
    var m4 := I.Machine(10, [], 1, map[], WithRegisters);
    assert [l] + [l] == [l, l] && [] + [l] == [l];
    StepNew(code, es, m0);
    StepDup(code, es, m1);
    StepConstructor(code, es, m2, [l], 0);
    StepPut(code, es, m3, RegistersField, l);
    RunStep(code, es, m0, m1, n + 3);
    RunStep(code, es, m1, m2, n + 2);
    RunStep(code, es, m2, m3, n + 1);
    RunStep(code, es, m3, m4, n);
  }

  /** The array is made and put into the ThreadLocal. */
  lemma ArrayRun(code: seq<byte>, es: seq<Entry>, n: nat)
    requires RegistersPart(code, es)
    ensures I.Run(code, es, I.Going(I.Machine(10, [], 1, map[], WithRegisters)), n + 4)
         == I.Run(code, es, I.Going(Middle()), n)
  {
    hide I.Step, I.Run, I.Zeroed, Refers, Stands, Takes;
    var l, x := I.LocalI(0), I.LongsI(I.Zeroed(32));
    var m4 := I.Machine(10, [], 1, map[], WithRegisters);
    var m5 := m4.(pc := 13, stack := [l]);
    var m6 := m4.(pc := 15, stack := [l, I.IntI(32)]);
    var m7 := m4.(pc := 17, stack := [l, x]);
    assert [l] + [I.IntI(32)] == [l, I.IntI(32)] && [l] + [x] == [l, x];
    StepGet(code, es, m4, RegistersField);
    StepNumber(code, es, m5, 32);
    StepArray(code, es, m6, [l], 32);
    StepSet(code, es, m7, 0, x);
    RunStep(code, es, m4, m5, n + 3);
    RunStep(code, es, m5, m6, n + 2);
    RunStep(code, es, m6, m7, n + 1);
    RunStep(code, es, m7, Middle(), n);
  }

  /** The memory is made and stored, and the initializer returns. */
  lemma MemoryRun(code: seq<byte>, es: seq<Entry>)
    requires MemoryPart(code, es)
    ensures I.Run(code, es, I.Going(Middle()), 4)
         == I.Done(Middle().(pc := 28, statics := WithRegisters[MemoryField := I.LongsI(I.Zeroed(1024))]))
  {
    hide I.Step, I.Run, I.Zeroed, Refers, Stands, Takes;
    var x := I.LongsI(I.Zeroed(1024));
    var m8 := Middle();
    var m9 := m8.(pc := 23, stack := [I.IntI(1024)]);
    var m10 := m8.(pc := 25, stack := [x]);
    var m11 := m8.(pc := 28, statics := WithRegisters[MemoryField := x]);
    assert [] + [I.IntI(1024)] == [I.IntI(1024)] && [] + [x] == [x];
    StepShort(code, es, m8, 1024);
    StepArray(code, es, m9, [], 1024);
    StepPut(code, es, m10, MemoryField, x);
    StepReturn(code, es, m11);
    RunStep(code, es, m8, m9, 3);
    RunStep(code, es, m9, m10, 2);
    RunStep(code, es, m10, m11, 1);
    RunEnds(code, es, m11);
  }

  lemma RunEnds(code: seq<byte>, es: seq<Entry>, m: I.Machine)
    requires I.Step(code, es, m) == I.Done(m)
    ensures I.Run(code, es, I.Going(m), 1) == I.Done(m)
  {
    hide I.Step;
  }

  /** The generated initializer leaves 32 zeroed registers and 1024 zeroed longs of memory. */
  lemma InitializerPrepares(b: Build)
    requires InitializerMeans(b)
    ensures I.Prepares(ClinitCode(b), b.entries, I.Zeroed(32))
  {
    hide ClinitCode, RegistersPart, MemoryPart, InitializerMeans, I.Step, I.Run, I.Zeroed;
    var code := ClinitCode(b);
    RegistersAre(b, code);
    MemoryIs(b, code);
    LocalRun(code, b.entries, 8);
    ArrayRun(code, b.entries, 4);
    MemoryRun(code, b.entries);
    assert MemoryField != RegistersField;
    assert I.Prepared(I.Run(code, b.entries, I.Fresh, 12), I.Zeroed(32));
  }

  // ----- type checking it -----

  /** From `pc` on, with this typing, the code checks within three stack words. */
  ghost predicate Safe(code: seq<byte>, es: seq<Entry>, pc: nat, stack: seq<Type>) {
    CheckFrom(code, es, map[], 3, pc, After(Typing(TTop, TTop, stack)))
  }

  lemma SafeInstruction(code: seq<byte>, es: seq<Entry>, pc: nat, t: Typing, u: Typing, n: nat)
    requires pc < |code| && n > 0 && TypeStep(code, es, pc, t) == Falls(u, n) && Words_(u.stack) <= 3
    requires CheckFrom(code, es, map[], 3, pc + n, After(u))
    ensures CheckInstruction(code, es, map[], 3, pc, t)
  {
    hide TypeStep, Words_, CheckFrom;
    assert NoFrameInside(map[], pc, n);
  }

  lemma SafeEntry(code: seq<byte>, es: seq<Entry>, pc: nat, t: Typing)
    requires pc < |code| && CheckInstruction(code, es, map[], 3, pc, t)
    ensures CheckFrom(code, es, map[], 3, pc, After(t))
  {
    hide CheckInstruction;
  }

  function Holding(stack: seq<Type>): Typing {
    Typing(TTop, TTop, stack)
  }

  /** One instruction that falls through, with the rest safe. */
  lemma SafeStep(code: seq<byte>, es: seq<Entry>, pc: nat, stack: seq<Type>, n: nat, after: seq<Type>)
    requires pc < |code| && n > 0 && TypeStep(code, es, pc, Holding(stack)) == Falls(Holding(after), n)
    requires Safe(code, es, pc + n, after) && Words_(after) <= 3
    ensures Safe(code, es, pc, stack)
  {
    hide TypeStep, Words_, CheckFrom, CheckInstruction;
    SafeInstruction(code, es, pc, Holding(stack), Holding(after), n);
    SafeEntry(code, es, pc, Holding(stack));
  }

  lemma Returns(code: seq<byte>, es: seq<Entry>)
    requires MemoryPart(code, es)
    ensures Safe(code, es, 28, [])
  {
    hide Decode, Resolve, Index2, CheckFrom;
    assert TypeStep(code, es, 28, Holding([])) == Ends(1);
    AtEnd(code, es);
    SafeEntry(code, es, 28, Holding([]));
  }

  lemma AtEnd(code: seq<byte>, es: seq<Entry>)
    requires |code| == 29 && TypeStep(code, es, 28, Holding([])) == Ends(1)
    ensures CheckInstruction(code, es, map[], 3, 28, Holding([]))
  {
    hide TypeStep;
    assert NoFrameInside(map[], 28, 1);
  }

  // Single instructions.

  lemma TypePut(code: seq<byte>, es: seq<Entry>, pc: nat, f: Meaning, x: Type)
    requires Refers(code, es, pc, Putstatic, f)
    requires (f == RegistersField && x == TThreadLocal) || (f == MemoryField && x == TArray)
    ensures TypeStep(code, es, pc, Holding([x])) == Falls(Holding([]), 3)
  {
    hide Decode, Resolve, Index2, Change;
    Taken(x);
    assert MemoryField != RegistersField;
  }

  lemma Taken(x: Type)
    ensures Change(Holding([x]), [x], [], 3) == Falls(Holding([]), 3)
  {
    assert [x][0..] == [x] && [x][..0] + [] == [];
  }

  lemma TypeGet(code: seq<byte>, es: seq<Entry>, pc: nat)
    requires Refers(code, es, pc, Getstatic, RegistersField)
    ensures TypeStep(code, es, pc, Holding([])) == Falls(Holding([TThreadLocal]), 3)
  {
    hide Decode, Resolve, Index2;
    Pushes([], TThreadLocal);
  }

  lemma TypeArray(code: seq<byte>, es: seq<Entry>, pc: nat, rest: seq<Type>)
    requires Takes(code, pc, Newarray, 11)
    ensures TypeStep(code, es, pc, Holding(rest + [TInt])) == Falls(Holding(rest + [TArray]), 2)
  {
    hide Decode;
    assert (rest + [TInt])[|rest|..] == [TInt] && (rest + [TInt])[..|rest|] == rest;
  }

  lemma TypeNumber(code: seq<byte>, es: seq<Entry>, pc: nat, rest: seq<Type>)
    requires pc < |code| && (Decode(code[pc]) == Bipush || Decode(code[pc]) == Sipush)
    ensures TypeStep(code, es, pc, Holding(rest))
         == Falls(Holding(rest + [TInt]), if Decode(code[pc]) == Bipush then 2 else 3)
  {
    hide Decode;
    Pushes(rest, TInt);
  }

  lemma TypeSetCall(code: seq<byte>, es: seq<Entry>, pc: nat)
    requires Refers(code, es, pc, Invokevirtual, SetMethod)
    ensures TypeStep(code, es, pc, Holding([TThreadLocal, TArray])) == Falls(Holding([]), 3)
  {
    hide Decode, Resolve, Index2;
  }

  lemma TypeMade(code: seq<byte>, es: seq<Entry>, pc: nat)
    requires Refers(code, es, pc, New, ThreadLocalClass)
    ensures TypeStep(code, es, pc, Holding([])) == Falls(Holding([TNew(pc)]), 3)
  {
    hide Decode, Resolve, Index2;
    Pushes([], TNew(pc));
  }

  lemma TypeDup(code: seq<byte>, es: seq<Entry>, pc: nat, x: Type)
    requires Stands(code, pc, Dup) && x != TLong
    ensures TypeStep(code, es, pc, Holding([x])) == Falls(Holding([x, x]), 1)
  {
    hide Decode;
    assert [x] + [x] == [x, x];
  }

  lemma TypeConstructor(code: seq<byte>, es: seq<Entry>, pc: nat, at: nat)
    requires Refers(code, es, pc, Invokespecial, InitMethod)
    ensures TypeStep(code, es, pc, Holding([TNew(at), TNew(at)])) == Falls(Holding([TThreadLocal]), 3)
  {
    hide Decode, Resolve, Index2;
    var s := [TNew(at), TNew(at)];
    assert seq(1, i requires 0 <= i < 1 => AfterInit(s[i], at)) == [TThreadLocal];
  }

  lemma FewWords()
    ensures Words_([]) == 0 && forall x: Type :: x != TLong ==> Words_([x]) == 1
    ensures forall x: Type, y: Type :: x != TLong && y != TLong ==> Words_([x, y]) == 2
  {
    hide Words_;
    NoWords();
    forall x: Type, y: Type | x != TLong && y != TLong ensures Words_([x, y]) == 2 {
      TwoWords(x, y);
    }
    forall x: Type | x != TLong ensures Words_([x]) == 1 {
      TwoWords(x, x);
    }
  }

  lemma TwoWords(x: Type, y: Type)
    requires x != TLong && y != TLong
    ensures Words_([x]) == 1 && Words_([x, y]) == 2
  {
    hide Words_;
    NoWords();
    WordsPush([], x);
    WordsPush([x], y);
    assert [] + [x] == [x] && [x] + [y] == [x, y];
  }

  /** Taking nothing off a stack and putting one value on it. */
  lemma Pushes(s: seq<Type>, x: Type)
    ensures s[|s|..] == [] && s[..|s|] + [x] == s + [x] && [] + [x] == [x]
  {
  }

  lemma MemorySafe(code: seq<byte>, es: seq<Entry>)
    requires MemoryPart(code, es)
    ensures Safe(code, es, 20, [])
  {
    hide Safe, Words_, Refers, Takes, TypeStep;
    Returns(code, es);
    FewWords();
    assert [] + [TInt] == [TInt] && [] + [TArray] == [TArray];
    TypePut(code, es, 25, MemoryField, TArray);
    SafeStep(code, es, 25, [TArray], 3, []);
    TypeArray(code, es, 23, []);
    SafeStep(code, es, 23, [TInt], 2, [TArray]);
    ShortAt(code, es);
    SafeStep(code, es, 20, [], 3, [TInt]);
  }

  lemma ArraySafe(code: seq<byte>, es: seq<Entry>)
    requires RegistersPart(code, es) && Safe(code, es, 20, [])
    ensures Safe(code, es, 10, [])
  {
    hide Safe, Words_, Refers, TypeStep, Decode;
    FewWords();
    var l := TThreadLocal;
    assert [l] + [TInt] == [l, TInt] && [l] + [TArray] == [l, TArray];
    TypeSetCall(code, es, 17);
    SafeStep(code, es, 17, [l, TArray], 3, []);
    TypeArray(code, es, 15, [l]);
    SafeStep(code, es, 15, [l, TInt], 2, [l, TArray]);
    TypeNumber(code, es, 13, [l]);
    SafeStep(code, es, 13, [l], 2, [l, TInt]);
    TypeGet(code, es, 10);
    SafeStep(code, es, 10, [], 3, [l]);
  }

  lemma LocalSafe(code: seq<byte>, es: seq<Entry>)
    requires RegistersPart(code, es) && Safe(code, es, 10, [])
    ensures Safe(code, es, 0, [])
  {
    hide Safe, Words_, Refers, TypeStep, Takes;
    FewWords();
    var l, x := TThreadLocal, TNew(0);
    TypePut(code, es, 7, RegistersField, l);
    SafeStep(code, es, 7, [l], 3, []);
    TypeConstructor(code, es, 4, 0);
    SafeStep(code, es, 4, [x, x], 3, [l]);
    TypeDup(code, es, 3, x);
    SafeStep(code, es, 3, [x], 1, [x, x]);
    TypeMade(code, es, 0);
    SafeStep(code, es, 0, [], 3, [x]);
  }

  lemma ShortAt(code: seq<byte>, es: seq<Entry>)
    requires MemoryPart(code, es)
    ensures TypeStep(code, es, 20, Holding([])) == Falls(Holding([TInt]), 3)
  {
    hide Decode, Signed, Operand, Refers, TypeStep;
    TypeNumber(code, es, 20, []);
    assert [] + [TInt] == [TInt];
  }

  lemma WalkOn(code: seq<byte>, a: nat, k: nat)
    requires Walks(code, a, k)
    ensures a == k || (a < |code| && a < k && Walks(code, a + Length(Decode(code[a])), k))
  {
  }

  /** Where the instructions of the registers' part start. */
  lemma RegistersStarts(code: seq<byte>, es: seq<Entry>, k: nat)
    requires RegistersPart(code, es) && Walks(code, 0, k)
    ensures k in [0, 3, 4, 7, 10, 13, 15, 17] || Walks(code, 20, k)
  {
    hide Decode, Resolve, Index2, Walks;
    WalkOn(code, 0, k);
    if k > 0 { WalkOn(code, 3, k); }
    if k > 3 { WalkOn(code, 4, k); }
    if k > 4 { WalkOn(code, 7, k); }
    if k > 7 { WalkOn(code, 10, k); }
    if k > 10 { WalkOn(code, 13, k); }
    if k > 13 { WalkOn(code, 15, k); }
    if k > 15 { WalkOn(code, 17, k); }
  }

  lemma MemoryStarts(code: seq<byte>, es: seq<Entry>, k: nat)
    requires MemoryPart(code, es) && Walks(code, 20, k) && k < |code|
    ensures k in [20, 23, 25, 28]
  {
    hide Decode, Resolve, Index2, Walks, Signed, Operand;
    WalkOn(code, 20, k);
    if k > 20 { WalkOn(code, 23, k); }
    if k > 23 { WalkOn(code, 25, k); }
    if k > 25 { WalkOn(code, 28, k); }
  }

  /** No instruction of the initializer uses a local. */
  lemma NoLocals(code: seq<byte>, es: seq<Entry>, k: nat)
    requires RegistersPart(code, es) && MemoryPart(code, es) && Starts(code, k)
    ensures k < |code| && LocalsUsed(Decode(code[k])) == 0
  {
    hide Decode, Resolve, Index2, Walks, Signed, Operand;
    RegistersStarts(code, es, k);
    if Walks(code, 20, k) {
      MemoryStarts(code, es, k);
    }
  }

  /** The generated initializer passes the type checker with its stack of three and no locals. */
  lemma InitializerVerifies(b: Build)
    requires InitializerMeans(b)
    ensures Verifies(ClinitCode(b), b.entries, [], 3, 0, 0)
  {
    hide ClinitCode, RegistersPart, MemoryPart, InitializerMeans, CheckFrom, Starts;
    var code := ClinitCode(b);
    RegistersAre(b, code);
    MemoryIs(b, code);
    MemorySafe(code, b.entries);
    ArraySafe(code, b.entries);
    LocalSafe(code, b.entries);
    forall k: nat | Starts(code, k) ensures k < |code| && LocalsUsed(Decode(code[k])) <= 0 {
      NoLocals(code, b.entries, k);
    }
  }
}
