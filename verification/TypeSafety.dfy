/** When the emitted main method is type safe: exactly when no frame target repeats, local 2 is set before the
    first target, and every J is followed by a target. */
module TypeSafety {
  import opened Words
  import opened Ir
  import opened Emission
  import opened Layout
  import opened Patching
  import opened Assembly
  import opened Constants
  import opened RiscV
  import opened Simulation
  import opened Opcodes
  import opened Jvm
  import opened Verifier

  const MaxStack := 5
  const MaxLocals := 4

  // ----- fragments -----

  /** Checking the instruction at `pc` with typing `t` comes to checking the one at `qc` with typing `u`. */
  ghost predicate Continues(code: seq<byte>, es: seq<Entry>, table: map<int, Typing>, pc: nat, t: Typing, qc: nat,
                            u: Typing) {
    CheckInstruction(code, es, table, MaxStack, pc, t) <==> CheckInstruction(code, es, table, MaxStack, qc, u)
  }

  lemma WordsPush(s: seq<Type>, x: Type)
    ensures Words_(s + [x]) == Words_(s) + if x == TLong then 2 else 1
  {
    assert (s + [x])[..|s|] == s;
  }

  /** An instruction that falls through. */
  lemma FallsTo(code: seq<byte>, es: seq<Entry>, table: map<int, Typing>, pc: nat, t: Typing, u: Typing, n: nat)
    requires pc < |code| && TypeStep(code, es, pc, t) == Falls(u, n) && n > 0 && Words_(u.stack) <= MaxStack
    requires NoFrameInside(table, pc, n)
    ensures CheckInstruction(code, es, table, MaxStack, pc, t)
       <==> CheckFrom(code, es, table, MaxStack, pc + n, After(u))
  {
    hide TypeStep, CheckFrom, Words_;
    hide Decode;
  }

  /** Between instructions without a frame the flow just goes on. */
  lemma Enter(code: seq<byte>, es: seq<Entry>, table: map<int, Typing>, pc: nat, t: Typing)
    requires pc < |code| && pc !in table
    ensures CheckFrom(code, es, table, MaxStack, pc, After(t)) <==> CheckInstruction(code, es, table, MaxStack, pc, t)
  {
    hide CheckInstruction;
  }

  /** An instruction that pushes one value on `s`. */
  lemma Step1(code: seq<byte>, es: seq<Entry>, table: map<int, Typing>, pc: nat, t: Typing, u: Typing, n: nat,
              s: seq<Type>, x: Type)
    requires pc < |code| && TypeStep(code, es, pc, t) == Falls(u, n) && n > 0
    requires u.stack == s + [x] && Words_(s) <= 3 && NoFrameInside(table, pc, n + 1) && pc + n < |code|
    ensures Continues(code, es, table, pc, t, pc + n, u)
  {
    hide TypeStep, Words_, CheckInstruction, CheckFrom;
    hide Decode;
    WordsPush(s, x);
    assert pc + n !in table;
    FallsTo(code, es, table, pc, t, u, n);
    Enter(code, es, table, pc + n, u);
  }

  // ----- typing of single instructions, on a stack that starts with `s` -----

  lemma TypeLoadArray(code: seq<byte>, es: seq<Entry>, pc: nat, t: Typing)
    requires pc < |code| && code[pc] == ALOAD_1 && t.local1 == TArray
    ensures TypeStep(code, es, pc, t) == Falls(t.(stack := t.stack + [TArray]), 1)
  {
    hide Decode;
    OpcodesAgree();
  }

  lemma TypePush(code: seq<byte>, es: seq<Entry>, pc: nat, t: Typing)
    requires pc < |code| && code[pc] == BIPUSH
    ensures TypeStep(code, es, pc, t) == Falls(t.(stack := t.stack + [TInt]), 2)
  {
    hide Decode;
    OpcodesAgree();
  }

  lemma TypeLoadLong(code: seq<byte>, es: seq<Entry>, pc: nat, t: Typing)
    requires pc < |code| && code[pc] == LLOAD_2 && t.local2 == TLong
    ensures TypeStep(code, es, pc, t) == Falls(t.(stack := t.stack + [TLong]), 1)
  {
    hide Decode;
    OpcodesAgree();
  }

  lemma TypeStoreElement(code: seq<byte>, es: seq<Entry>, pc: nat, t: Typing)
    requires pc < |code| && code[pc] == LASTORE && t.stack == [TArray, TInt, TLong]
    ensures TypeStep(code, es, pc, t) == Falls(t.(stack := []), 1)
  {
    hide Decode;
    OpcodesAgree();
    assert t.stack[0..] == [TArray, TInt, TLong];
  }

  lemma TypeLoadElement(code: seq<byte>, es: seq<Entry>, pc: nat, t: Typing, s: seq<Type>)
    requires pc < |code| && code[pc] == LALOAD && t.stack == s + [TArray, TInt]
    ensures TypeStep(code, es, pc, t) == Falls(t.(stack := s + [TLong]), 1)
  {
    hide Decode;
    OpcodesAgree();
    assert t.stack[|s|..] == [TArray, TInt] && t.stack[..|s|] == s;
  }

  lemma TypeStoreLong(code: seq<byte>, es: seq<Entry>, pc: nat, t: Typing)
    requires pc < |code| && code[pc] == LSTORE_2 && t.stack == [TLong]
    ensures TypeStep(code, es, pc, t) == Falls(t.(local2 := TLong, stack := []), 1)
  {
    hide Decode;
    OpcodesAgree();
    assert t.stack[0..] == [TLong];
  }

  lemma LoadTyped(code: seq<byte>, es: seq<Entry>, table: map<int, Typing>, pc: nat, t: Typing, r: Reg)
    requires At(code, pc, LoadRegister(r)) && t.local1 == TArray && Words_(t.stack) <= 2
    requires NoFrameInside(table, pc, 5) && pc + 4 < |code|
    ensures Continues(code, es, table, pc, t, pc + 4, t.(stack := t.stack + [TLong]))
  {
    hide Words_, Continues, TypeStep;
    hide Decode;
    OpcodesAgree();
    AtByte(code, pc, LoadRegister(r), 0);
    AtByte(code, pc, LoadRegister(r), 1);
    AtByte(code, pc, LoadRegister(r), 3);
    var s := t.stack;
    var t1 := t.(stack := s + [TArray]);
    var t2 := t.(stack := s + [TArray] + [TInt]);
    var t3 := t.(stack := s + [TLong]);
    assert t2.stack == s + [TArray, TInt];
    TypeLoadArray(code, es, pc, t);
    TypePush(code, es, pc + 1, t1);
    TypeLoadElement(code, es, pc + 3, t2, s);
    WordsPush(s, TArray);
    Step1(code, es, table, pc, t, t1, 1, s, TArray);
    Step1(code, es, table, pc + 1, t1, t2, 2, s + [TArray], TInt);
    Step1(code, es, table, pc + 3, t2, t3, 1, s, TLong);
    Chain(code, es, table, pc, t, pc + 1, t1, pc + 3, t2);
    Chain(code, es, table, pc, t, pc + 3, t2, pc + 4, t3);
  }

  lemma Chain(code: seq<byte>, es: seq<Entry>, table: map<int, Typing>, pc: nat, t: Typing, qc: nat, u: Typing,
              rc: nat, v: Typing)
    requires Continues(code, es, table, pc, t, qc, u) && Continues(code, es, table, qc, u, rc, v)
    ensures Continues(code, es, table, pc, t, rc, v)
  {
  }

  lemma ConstantTyped(code: seq<byte>, es: seq<Entry>, table: map<int, Typing>, pc: nat, t: Typing, index: u16)
    requires At(code, pc, LoadConstant(index)) && Resolve(es, index).Number? && Words_(t.stack) <= 2
    requires NoFrameInside(table, pc, 5) && pc + 4 < |code|
    ensures Continues(code, es, table, pc, t, pc + 4, t.(stack := t.stack + [TLong]))
  {
    hide Words_, Continues, Resolve, Index2, At;
    hide Decode;
    OpcodesAgree();
    ConstantParts(code, pc, index);
    var s := t.stack;
    var t1 := t.(stack := s + [TInt]);
    var t2 := t.(stack := s + [TLong]);
    assert t1.stack[|s|..] == [TInt] && t1.stack[..|s|] == s;
    Step1(code, es, table, pc, t, t1, 3, s, TInt);
    Step1(code, es, table, pc + 3, t1, t2, 1, s, TLong);
    Chain(code, es, table, pc, t, pc + 3, t1, pc + 4, t2);
  }

  /** LADD or LCMP on the two longs. */
  lemma BinaryTyped(code: seq<byte>, es: seq<Entry>, table: map<int, Typing>, pc: nat, t: Typing)
    requires pc + 1 < |code| && (code[pc] == LADD || code[pc] == LCMP) && t.stack == [TLong, TLong]
    requires NoFrameInside(table, pc, 2)
    ensures Continues(code, es, table, pc, t, pc + 1, t.(stack := if code[pc] == LADD then [TLong] else [TInt]))
  {
    hide Decode, TypeStep, Continues;
    var x := if code[pc] == LADD then TLong else TInt;
    assert [] + [x] == [x];
    OpcodesAgree();
    NoWords();
    TypeBinary(code, es, pc, t);
    Step1(code, es, table, pc, t, t.(stack := [x]), 1, [], x);
  }

  lemma TypeBinary(code: seq<byte>, es: seq<Entry>, pc: nat, t: Typing)
    requires pc < |code| && (Decode(code[pc]) == Ladd || Decode(code[pc]) == Lcmp) && t.stack == [TLong, TLong]
    ensures TypeStep(code, es, pc, t)
         == Falls(t.(stack := if Decode(code[pc]) == Ladd then [TLong] else [TInt]), 1)
  {
    hide Decode;
    assert t.stack[0..] == [TLong, TLong] && t.stack[..0] == [];
  }

  /** The typing between elements; `set_` tells whether local 2 holds a long. */
  function Base(set_: bool): Typing {
    Typing(TArray, if set_ then TLong else TTop, [])
  }

  lemma StoreTyped(code: seq<byte>, es: seq<Entry>, table: map<int, Typing>, pc: nat, set_: bool, rd: Reg)
    requires At(code, pc, StoreRegister(rd)) && NoFrameInside(table, pc, StoreSize(rd))
    ensures CheckInstruction(code, es, table, MaxStack, pc, Base(set_).(stack := [TLong]))
       <==> CheckFrom(code, es, table, MaxStack, pc + StoreSize(rd), After(Base(set_ || rd != 0)))
  {
    hide Decode;
    OpcodesAgree();
    AtByte(code, pc, StoreRegister(rd), 0);
    var t := Base(set_).(stack := [TLong]);
    assert t.stack[0..] == [TLong];
    assert t.stack[..0] == [];
    if rd != 0 {
      StoreArrayTyped(code, es, table, pc, set_, rd);
    }
  }

  lemma StoreArrayTyped(code: seq<byte>, es: seq<Entry>, table: map<int, Typing>, pc: nat, set_: bool, rd: Reg)
    requires At(code, pc, StoreRegister(rd)) && NoFrameInside(table, pc, 6) && rd != 0
    ensures CheckInstruction(code, es, table, MaxStack, pc, Base(set_).(stack := [TLong]))
       <==> CheckFrom(code, es, table, MaxStack, pc + 6, After(Base(true)))
  {
    hide Words_, CheckInstruction, CheckFrom, Continues, TypeStep;
    hide Decode;
    var bytes := StoreRegister(rd);
    AtByte(code, pc, bytes, 0);
    AtByte(code, pc, bytes, 1);
    AtByte(code, pc, bytes, 2);
    AtByte(code, pc, bytes, 4);
    AtByte(code, pc, bytes, 5);
    var t := Base(set_).(stack := [TLong]);
    var t1 := Base(true);
    var t2 := t1.(stack := [TArray]);
    var t3 := t1.(stack := [TArray, TInt]);
    var t4 := t1.(stack := [TArray, TInt, TLong]);
    assert [TArray] == [] + [TArray] && [TArray, TInt] == [TArray] + [TInt]
           && [TArray, TInt, TLong] == [TArray, TInt] + [TLong];
    WordsPush([], TArray);
    WordsPush([TArray], TInt);
    assert Words_([]) == 0 by { NoWords(); }
    TypeStoreLong(code, es, pc, t);
    TypeLoadArray(code, es, pc + 1, t1);
    TypePush(code, es, pc + 2, t2);
    TypeLoadLong(code, es, pc + 4, t3);
    TypeStoreElement(code, es, pc + 5, t4);
    FallsTo(code, es, table, pc, t, t1, 1);
    Enter(code, es, table, pc + 1, t1);
    Step1(code, es, table, pc + 1, t1, t2, 1, [], TArray);
    Step1(code, es, table, pc + 2, t2, t3, 2, [TArray], TInt);
    Step1(code, es, table, pc + 4, t3, t4, 1, [TArray, TInt], TLong);
    Chain(code, es, table, pc + 1, t1, pc + 2, t2, pc + 4, t3);
    Chain(code, es, table, pc + 1, t1, pc + 4, t3, pc + 5, t4);
    FallsTo(code, es, table, pc + 5, t4, t1, 1);
    Both(code, es, table, pc + 1, t1, pc + 5, t4);
  }

  lemma NoWords()
    ensures Words_([]) == 0
  {
  }

  lemma Both(code: seq<byte>, es: seq<Entry>, table: map<int, Typing>, pc: nat, t: Typing, qc: nat, u: Typing)
    requires Continues(code, es, table, pc, t, qc, u)
    ensures CheckInstruction(code, es, table, MaxStack, pc, t) <==> CheckInstruction(code, es, table, MaxStack, qc, u)
  {
  }

  // ----- one element -----

  lemma AddTyped(code: seq<byte>, es: seq<Entry>, table: map<int, Typing>, pc: nat, set_: bool, rd: Reg, rs1: Reg,
                 rs2: Reg)
    requires At(code, pc, LoadRegister(rs1) + LoadRegister(rs2) + [LADD] + StoreRegister(rd))
    requires NoFrameInside(table, pc, 9 + StoreSize(rd))
    ensures CheckInstruction(code, es, table, MaxStack, pc, Base(set_))
       <==> CheckFrom(code, es, table, MaxStack, pc + 9 + StoreSize(rd), After(Base(set_ || rd != 0)))
  {
    hide Words_, CheckInstruction, CheckFrom, Continues, LoadRegister, StoreRegister;
    var a, b, c, d := LoadRegister(rs1), LoadRegister(rs2), [LADD], StoreRegister(rd);
    assert |a| == 4 && |b| == 4 && |d| == StoreSize(rd) by { FragmentSizes(rs1, rs2, rd); }
    AtParts(code, pc, a + b + c, d);
    AtParts(code, pc, a + b, c);
    AtParts(code, pc, a, b);
    var t := Base(set_);
    assert [] + [TLong] == [TLong] && [TLong] + [TLong] == [TLong, TLong];
    assert Words_([]) == 0 && Words_([TLong]) == 2 by { NoWords(); WordsPush([], TLong); }
    LoadTyped(code, es, table, pc, t, rs1);
    LoadTyped(code, es, table, pc + 4, t.(stack := [TLong]), rs2);
    SumTyped(code, es, table, pc, pc + 8, set_, rd) by {
      Chain(code, es, table, pc, t, pc + 4, t.(stack := [TLong]), pc + 8, t.(stack := [TLong, TLong]));
    }
  }

  lemma AddiTyped(code: seq<byte>, es: seq<Entry>, table: map<int, Typing>, pc: nat, set_: bool, rd: Reg, rs1: Reg,
                  index: u16)
    requires At(code, pc, LoadRegister(rs1) + LoadConstant(index) + [LADD] + StoreRegister(rd))
    requires NoFrameInside(table, pc, 9 + StoreSize(rd))
    requires Resolve(es, index).Number?
    ensures CheckInstruction(code, es, table, MaxStack, pc, Base(set_))
       <==> CheckFrom(code, es, table, MaxStack, pc + 9 + StoreSize(rd), After(Base(set_ || rd != 0)))
  {
    hide Words_, CheckInstruction, CheckFrom, Continues, LoadRegister, StoreRegister, LoadConstant, Resolve;
    var a, b, c, d := LoadRegister(rs1), LoadConstant(index), [LADD], StoreRegister(rd);
    assert |a| == 4 && |d| == StoreSize(rd) by { FragmentSizes(rs1, rs1, rd); }
    assert |b| == 4 by { ConstantSize(index); }
    AtParts(code, pc, a + b + c, d);
    AtParts(code, pc, a + b, c);
    AtParts(code, pc, a, b);
    var t := Base(set_);
    assert [] + [TLong] == [TLong] && [TLong] + [TLong] == [TLong, TLong];
    assert Words_([]) == 0 && Words_([TLong]) == 2 by { NoWords(); WordsPush([], TLong); }
    LoadTyped(code, es, table, pc, t, rs1);
    ConstantTyped(code, es, table, pc + 4, t.(stack := [TLong]), index);
    SumTyped(code, es, table, pc, pc + 8, set_, rd) by {
      Chain(code, es, table, pc, t, pc + 4, t.(stack := [TLong]), pc + 8, t.(stack := [TLong, TLong]));
    }
  }

  lemma FragmentSizes(r: Reg, s: Reg, rd: Reg)
    ensures |LoadRegister(r)| == 4 && |LoadRegister(s)| == 4 && |StoreRegister(rd)| == StoreSize(rd)
  {
  }

  lemma ConstantSize(index: u16)
    ensures |LoadConstant(index)| == 4
  {
  }

  lemma SumTyped(code: seq<byte>, es: seq<Entry>, table: map<int, Typing>, pc: nat, qc: nat, set_: bool, rd: Reg)
    requires Continues(code, es, table, pc, Base(set_), qc, Base(set_).(stack := [TLong, TLong]))
    requires At(code, qc, [LADD]) && At(code, qc + 1, StoreRegister(rd)) && NoFrameInside(table, qc, 1 + StoreSize(rd))
    ensures CheckInstruction(code, es, table, MaxStack, pc, Base(set_))
       <==> CheckFrom(code, es, table, MaxStack, qc + 1 + StoreSize(rd), After(Base(set_ || rd != 0)))
  {
    hide CheckInstruction, CheckFrom;
    AtByte(code, qc, [LADD], 0);
    assert |StoreRegister(rd)| > 0;
    BinaryTyped(code, es, table, qc, Base(set_).(stack := [TLong, TLong]));
    StoreTyped(code, es, table, qc + 1, set_, rd);
  }

  /** LCMP, the skip to the next element, and the jump: local 2 must be set, since every frame says so. */
  lemma CompareTyped(code: seq<byte>, es: seq<Entry>, table: map<int, Typing>, pc: nat, set_: bool, skip: byte, d: int)
    requires (skip == IFEQ || skip == IFGT) && At(code, pc, [LCMP, skip] + BigEndian(8, 2)) && At(code, pc + 4, Goto(d))
    requires NoFrameInside(table, pc, 9) && -65536 < d < 65536
    requires pc + 9 in table && table[pc + 9] == Base(true) && pc + 4 + d in table && table[pc + 4 + d] == Base(true)
    ensures CheckInstruction(code, es, table, MaxStack, pc, Base(set_).(stack := [TLong, TLong]))
       <==> set_ && CheckFrom(code, es, table, MaxStack, pc + 9, AfterGoto)
  {
    hide CheckInstruction, CheckFrom;
    hide Decode;
    OpcodesAgree();
    var t := Base(set_);
    AtByte(code, pc, [LCMP, skip] + BigEndian(8, 2), 0);
    AtByte(code, pc, [LCMP, skip] + BigEndian(8, 2), 1);
    AtParts(code, pc, [LCMP, skip], BigEndian(8, 2));
    assert Operand(code, pc + 2, 2) == BigEndian(8, 2);
    SignedEight();
    BinaryTyped(code, es, table, pc, t.(stack := [TLong, TLong]));
    SkipTyped(code, es, table, pc + 1, set_);
    if set_ {
      Enter(code, es, table, pc + 4, t);
      GotoTyped(code, es, table, pc + 4, set_, d);
    }
  }

  lemma SkipTyped(code: seq<byte>, es: seq<Entry>, table: map<int, Typing>, pc: nat, set_: bool)
    requires pc < |code| && (code[pc] == IFEQ || code[pc] == IFGT) && Signed(Operand(code, pc + 1, 2)) == 8
    requires NoFrameInside(table, pc, 3) && pc + 8 in table && table[pc + 8] == Base(true)
    ensures CheckInstruction(code, es, table, MaxStack, pc, Base(set_).(stack := [TInt]))
       <==> set_ && CheckFrom(code, es, table, MaxStack, pc + 3, After(Base(set_)))
  {
    hide CheckFrom, TypeStep, Operand, Signed;
    hide Decode;
    OpcodesAgree();
    TypeSkip(code, es, pc, set_);
  }

  lemma TypeSkip(code: seq<byte>, es: seq<Entry>, pc: nat, set_: bool)
    requires pc < |code| && (code[pc] == IFEQ || code[pc] == IFGT) && Signed(Operand(code, pc + 1, 2)) == 8
    ensures TypeStep(code, es, pc, Base(set_).(stack := [TInt])) == Branches(pc + 8, Base(set_), 3)
  {
    hide TypeSimple, Operand, Signed, Change, Base;
    hide Decode;
    OpcodesAgree();
    EmptyStack(set_);
    ChangeInt(Base(set_));
  }

  lemma EmptyStack(set_: bool)
    ensures Base(set_).stack == []
  {
  }

  lemma ChangeInt(t: Typing)
    requires t.stack == []
    ensures Change(t.(stack := [TInt]), [TInt], [], 3) == Falls(t, 3)
  {
    var s := [TInt];
    assert s[..0] == [] && s[0..] == s;
  }

  lemma GotoTyped(code: seq<byte>, es: seq<Entry>, table: map<int, Typing>, pc: nat, set_: bool, d: int)
    requires At(code, pc, Goto(d)) && NoFrameInside(table, pc, 5) && -65536 < d < 65536
    requires pc + d in table && table[pc + d] == Base(true)
    ensures CheckInstruction(code, es, table, MaxStack, pc, Base(set_))
       <==> set_ && CheckFrom(code, es, table, MaxStack, pc + 5, AfterGoto)
  {
    hide CheckFrom;
    hide Decode;
    OpcodesAgree();
    AtByte(code, pc, Goto(d), 0);
    AtParts(code, pc, [GOTO_W], BigEndian(d, 4));
    assert Operand(code, pc + 1, 4) == BigEndian(d, 4);
    Signed32(d);
    assert TypeStep(code, es, pc, Base(set_)) == Leaves(pc + d, Base(set_), 5);
  }

  lemma BranchTyped(code: seq<byte>, es: seq<Entry>, table: map<int, Typing>, pc: nat, set_: bool, rd: Reg, rs1: Reg,
                    skip: byte, d: int)
    requires (skip == IFEQ || skip == IFGT) && NoFrameInside(table, pc, 17) && -65536 < d < 65536
    requires At(code, pc, LoadRegister(rd) + LoadRegister(rs1) + [LCMP, skip] + BigEndian(8, 2) + Goto(d))
    requires pc + 17 in table && table[pc + 17] == Base(true) && pc + 12 + d in table
    requires table[pc + 12 + d] == Base(true)
    ensures CheckInstruction(code, es, table, MaxStack, pc, Base(set_))
       <==> set_ && CheckFrom(code, es, table, MaxStack, pc + 17, AfterGoto)
  {
    hide Words_, CheckInstruction, CheckFrom, Continues, LoadRegister, Goto;
    var a, b, c, e := LoadRegister(rd), LoadRegister(rs1), [LCMP, skip] + BigEndian(8, 2), Goto(d);
    assert a + b + [LCMP, skip] + BigEndian(8, 2) + e == a + b + c + e;
    assert |a| == 4 && |b| == 4 by { FragmentSizes(rd, rs1, 0); }
    AtParts(code, pc, a + b + c, e);
    AtParts(code, pc, a + b, c);
    AtParts(code, pc, a, b);
    assert |e| == 5 by { GotoSize(d); }
    var t := Base(set_);
    assert [] + [TLong] == [TLong] && [TLong] + [TLong] == [TLong, TLong];
    assert Words_([]) == 0 && Words_([TLong]) == 2 by { NoWords(); WordsPush([], TLong); }
    LoadTyped(code, es, table, pc, t, rd);
    LoadTyped(code, es, table, pc + 4, t.(stack := [TLong]), rs1);
    Chain(code, es, table, pc, t, pc + 4, t.(stack := [TLong]), pc + 8, t.(stack := [TLong, TLong]));
    Both(code, es, table, pc, t, pc + 8, t.(stack := [TLong, TLong]));
    CompareTyped(code, es, table, pc + 8, set_, skip, d);
  }

  lemma GotoSize(d: int)
    ensures |Goto(d)| == 5
  {
  }

  // ----- the whole method, element by element -----

  /** What is known before an element: local 2 set or unset, or nothing after a jump. */
  datatype Local2 = IsSet | NotSet | Gone

  function FlowOf(f: Local2): Flow {
    match f
    case IsSet => After(Base(true))
    case NotSet => After(Base(false))
    case Gone => AfterGoto
  }

  /** The frames are the targets of the jumps and the elements after conditional branches, all with both locals. */
  ghost predicate TableOf(ir: seq<Element>, table: map<int, Typing>) {
    && (forall k :: k in table ==> table[k] == Base(true) && exists j :: 0 <= j <= |ir| && k == Offset(ir, j))
    && (forall i :: 0 <= i < |ir| && Jumps(ir[i]) ==>
          Offset(ir, Target(ir, JumpLabel(ir[i]))) in table && (ir[i].ins.R2? ==> Offset(ir, i + 1) in table))
  }

  predicate SetsLocal2(e: Element) {
    e.Instr? && !Jumps(e) && !e.ins.Mem? && e.ins.rd != 0
  }

  /** Type checking on elements. */
  ghost predicate Typable(ir: seq<Element>, table: map<int, Typing>, i: nat, f: Local2)
    requires i <= |ir|
    decreases |ir| - i
  {
    if i < |ir| && !ir[i].Instr? then Typable(ir, table, i + 1, f)
    else
      var framed := Offset(ir, i) in table;
      if (framed && f == NotSet) || (!framed && f == Gone) then false
      else if i == |ir| then true
      else if Jumps(ir[i]) then (framed || f == IsSet) && Typable(ir, table, i + 1, Gone)
      else Typable(ir, table, i + 1, if framed || f == IsSet || SetsLocal2(ir[i]) then IsSet else NotSet)
  }

  lemma NothingInside(ir: seq<Element>, table: map<int, Typing>, i: nat)
    requires i < |ir| && TableOf(ir, table)
    ensures NoFrameInside(table, Offset(ir, i), Size(ir[i]))
  {
    hide Size;
    forall k | Offset(ir, i) < k < Offset(ir, i) + Size(ir[i]) ensures k !in table {
      if k in table {
        var j :| 0 <= j <= |ir| && k == Offset(ir, j);
        if j <= i { OffsetMonotone(ir, j, i); } else { OffsetMonotone(ir, i + 1, j); }
      }
    }
  }

  ghost predicate Checks(code: seq<byte>, es: seq<Entry>, table: map<int, Typing>, pc: nat, flow: Flow) {
    CheckFrom(code, es, table, MaxStack, pc, flow)
  }

  /** One instruction of the program, its frame already taken into account. */
  lemma ElementTyped(pool: Pool, ir: seq<Element>, p: seq<byte>, es: seq<Entry>, table: map<int, Typing>, i: nat,
                     set_: bool)
    requires Compilable(pool, ir) && Numbers(pool, es) && |p| == 10 && TableOf(ir, table)
    requires i < |ir| && ir[i].Instr?
    ensures CheckInstruction(Assemble(pool, ir, p), es, table, MaxStack, Offset(ir, i), Base(set_))
       <==> (Jumps(ir[i]) ==> set_)
            && Checks(Assemble(pool, ir, p), es, table, Offset(ir, i + 1),
                      if Jumps(ir[i]) then AfterGoto else After(Base(set_ || SetsLocal2(ir[i]))))
  {
    hide *;
    var code := Assemble(pool, ir, p);
    CompilableAt(pool, ir, i);
    CompilableFits(pool, ir);
    AssembleAt(pool, ir, p, i);
    CodeIsAt(pool, ir, code, i, Distance(ir, i));
    NothingInside(ir, table, i);
    if Jumps(ir[i]) {
      JumpTarget(pool, ir, i);
      JumpTyped(pool, ir, code, es, table, i, set_, Distance(ir, i));
    } else {
      ArithmeticTyped(pool, ir, code, es, table, i, set_, Distance(ir, i));
    }
  }

  lemma CompilableFits(pool: Pool, ir: seq<Element>)
    requires Compilable(pool, ir)
    ensures AllEmit(pool, ir)
  {
  }

  lemma ArithmeticTyped(pool: Pool, ir: seq<Element>, code: seq<byte>, es: seq<Entry>, table: map<int, Typing>, i: nat,
                        set_: bool, d: int)
    requires i < |ir| && SupportedElement(ir[i]) && ir[i].Instr? && Emits(pool, ir[i]) && !Jumps(ir[i])
    requires Numbers(pool, es)
    requires At(code, Offset(ir, i), Code(pool, ir[i], d)) && NoFrameInside(table, Offset(ir, i), Size(ir[i]))
    ensures CheckInstruction(code, es, table, MaxStack, Offset(ir, i), Base(set_))
       <==> Checks(code, es, table, Offset(ir, i + 1), After(Base(set_ || SetsLocal2(ir[i]))))
  {
    hide CheckInstruction, CheckFrom, At, Code, Size, Emits, Jumps, SupportedElement, NoFrameInside, Numbers, Base;
    hide LoadRegister, LoadConstant, StoreRegister, StoreSize;
    ArithmeticShape(pool, ir[i], d, ZeroRegs());
    if ir[i].ins.R3? {
      var R3(_, rd, rs1, rs2) := ir[i].ins;
      AddTyped(code, es, table, Offset(ir, i), set_, rd, rs1, rs2);
    } else {
      var R2(_, rd, rs1, Imm(v)) := ir[i].ins;
      NumberAt(pool, es, v);
      AddiTyped(code, es, table, Offset(ir, i), set_, rd, rs1, pool[Num(v)]);
    }
  }

  lemma OffsetNext(ir: seq<Element>, i: nat)
    requires i < |ir|
    ensures Offset(ir, i + 1) == Offset(ir, i) + Size(ir[i])
  {
  }

  lemma JumpTyped(pool: Pool, ir: seq<Element>, code: seq<byte>, es: seq<Entry>, table: map<int, Typing>, i: nat,
                  set_: bool, d: int)
    requires i < |ir| && SupportedElement(ir[i]) && Jumps(ir[i]) && TableOf(ir, table)
    requires At(code, Offset(ir, i), Code(pool, ir[i], d)) && NoFrameInside(table, Offset(ir, i), Size(ir[i]))
    requires -65536 < d < 65536 && JumpAt(ir, i) + d == Offset(ir, Target(ir, JumpLabel(ir[i])))
    ensures CheckInstruction(code, es, table, MaxStack, Offset(ir, i), Base(set_))
       <==> set_ && Checks(code, es, table, Offset(ir, i + 1), AfterGoto)
  {
    hide CheckInstruction, CheckFrom, At, Code, Size, SupportedElement, NoFrameInside, Base, Target, LoadRegister, Goto;
    hide NextRegs, Cost, BigEndian, Offset, LoadRegister;
    OffsetNext(ir, i);
    JumpShape(pool, ir[i], d, ZeroRegs());
    match ir[i].ins {
      case R2(m, rd, rs1, Label(l)) =>
        BranchTyped(code, es, table, Offset(ir, i), set_, rd, rs1, if m == BNE then IFEQ else IFGT, d);
      case R1(_, _, _) => GotoTyped(code, es, table, Offset(ir, i), set_, d);
    }
  }

  /** Byte-level checking of the assembled method is checking on elements. */
  lemma {:induction false} ChecksElements(pool: Pool, ir: seq<Element>, p: seq<byte>, es: seq<Entry>, table: map<int,
                                          Typing>, i: nat, f: Local2)
    requires Compilable(pool, ir) && Numbers(pool, es) && |p| == 10 && TableOf(ir, table) && i <= |ir|
    ensures Checks(Assemble(pool, ir, p), es, table, Offset(ir, i), FlowOf(f)) <==> Typable(ir, table, i, f)
    decreases |ir| - i
  {
    hide CheckInstruction, CheckFrom, Assemble, Compilable, Numbers, TableOf, Jumps, SetsLocal2, Checks;
    var code := Assemble(pool, ir, p);
    if i < |ir| && !ir[i].Instr? {
      ChecksElements(pool, ir, p, es, table, i + 1, f);
    } else {
      var framed := Offset(ir, i) in table;
      EntersElement(pool, ir, p, es, table, i, f);
      if (framed && f == NotSet) || (!framed && f == Gone) {
      } else if i == |ir| {
        ReturnTyped(pool, ir, p, es, table, framed || f == IsSet);
      } else {
        var set_ := framed || f == IsSet;
        ElementTyped(pool, ir, p, es, table, i, set_);
        ChecksElements(pool, ir, p, es, table, i + 1,
                       if Jumps(ir[i]) then Gone else if set_ || SetsLocal2(ir[i]) then IsSet else NotSet);
      }
    }
  }

  lemma EntersElement(pool: Pool, ir: seq<Element>, p: seq<byte>, es: seq<Entry>, table: map<int, Typing>, i: nat,
                      f: Local2)
    requires Compilable(pool, ir) && |p| == 10 && TableOf(ir, table) && i <= |ir|
    ensures (var framed := Offset(ir, i) in table;
             (Checks(Assemble(pool, ir, p), es, table, Offset(ir, i), FlowOf(f))
              <==> !(framed && f == NotSet) && !(!framed && f == Gone)
                   && CheckInstruction(Assemble(pool, ir, p), es, table, MaxStack, Offset(ir, i),
                                       Base(framed || f == IsSet))))
  {
    hide CheckInstruction, Assemble;
    AssembleEnds(pool, ir, p);
    OffsetMonotone(ir, i, |ir|);
  }

  lemma ReturnTyped(pool: Pool, ir: seq<Element>, p: seq<byte>, es: seq<Entry>, table: map<int, Typing>, set_: bool)
    requires Compilable(pool, ir) && |p| == 10 && TableOf(ir, table)
    ensures CheckInstruction(Assemble(pool, ir, p), es, table, MaxStack, Offset(ir, |ir|), Base(set_))
  {
    hide Assemble;
    hide Decode;
    OpcodesAgree();
    AssembleEnds(pool, ir, p);
    var code := Assemble(pool, ir, p);
    assert TypeStep(code, es, Offset(ir, |ir|), Base(set_)) == Ends(1);
  }

  // ----- in closed form -----

  /** Some instruction sets local 2 before every frame from element `i` on. */
  ghost predicate SetInTime(ir: seq<Element>, table: map<int, Typing>, i: nat) {
    exists j :: i <= j < |ir| && SetsLocal2(ir[j]) && forall k :: k in table && k >= Offset(ir, i)
                                                        ==> Offset(ir, j + 1) <= k
  }

  ghost predicate NoFrameFrom(ir: seq<Element>, table: map<int, Typing>, i: nat)
    requires i <= |ir|
  {
    forall k :: k in table ==> k < Offset(ir, i)
  }

  /** From element `i` on every J is directly followed by a frame. */
  ghost predicate GotosFramed(ir: seq<Element>, table: map<int, Typing>, i: nat) {
    forall j :: i <= j < |ir| && Jumps(ir[j]) && ir[j].ins.R1? ==> Offset(ir, j + 1) in table
  }

  lemma GotosStep(ir: seq<Element>, table: map<int, Typing>, i: nat)
    requires i < |ir|
    ensures GotosFramed(ir, table, i)
       <==> GotosFramed(ir, table, i + 1) && (Jumps(ir[i]) && ir[i].ins.R1? ==> Offset(ir, i + 1) in table)
  {
    hide Jumps, Offset;
  }

  /** With local 2 set, or right after a jump into a frame, only the J instructions matter. */
  lemma {:induction false} TypableSet(ir: seq<Element>, table: map<int, Typing>, i: nat)
    requires i <= |ir| && TableOf(ir, table)
    ensures Typable(ir, table, i, IsSet) <==> GotosFramed(ir, table, i)
    ensures Typable(ir, table, i, Gone) <==> GotosFramed(ir, table, i) && Offset(ir, i) in table
    decreases |ir| - i
  {
    hide Jumps, SetsLocal2, GotosFramed;
    if i < |ir| {
      TypableSet(ir, table, i + 1);
      GotosStep(ir, table, i);
      NotInstruction(ir, i);
      NextFramed(ir, table, i);
    } else {
      NoGotos(ir, table);
    }
  }

  lemma NotInstruction(ir: seq<Element>, i: nat)
    requires i < |ir|
    ensures !ir[i].Instr? ==> Size(ir[i]) == 0 && !Jumps(ir[i]) && !SetsLocal2(ir[i])
  {
  }

  lemma NextFramed(ir: seq<Element>, table: map<int, Typing>, i: nat)
    requires i < |ir| && TableOf(ir, table)
    ensures Jumps(ir[i]) && ir[i].ins.R2? ==> Offset(ir, i + 1) in table
    ensures Jumps(ir[i]) ==> ir[i].ins.R2? || ir[i].ins.R1?
  {
    hide Offset, Target;
  }

  lemma NoGotos(ir: seq<Element>, table: map<int, Typing>)
    ensures GotosFramed(ir, table, |ir|)
  {
  }

  /** An instruction that sets local 2 has code, so it ends after it starts. */
  lemma SetterEnds(ir: seq<Element>, i: nat, j: nat)
    requires i <= j < |ir| && SetsLocal2(ir[j]) && SupportedElement(ir[j])
    ensures Offset(ir, i) <= Offset(ir, j) < Offset(ir, j + 1)
  {
    OffsetMonotone(ir, i, j);
  }

  /** A frame at element `i` comes too early for any setter from `i` on. */
  lemma FrameTooEarly(ir: seq<Element>, table: map<int, Typing>, i: nat, m: nat)
    requires i <= m <= |ir| && Supported(ir) && Offset(ir, m) in table && forall j :: i <= j < m ==> !SetsLocal2(ir[j])
    ensures !NoFrameFrom(ir, table, i) && !SetInTime(ir, table, i)
  {
    hide SetsLocal2;
    OffsetMonotone(ir, i, m);
    forall j | i <= j < |ir| && SetsLocal2(ir[j]) ensures Offset(ir, j + 1) > Offset(ir, m) {
      SetterEnds(ir, m, j);
    }
  }

  /** The frames from an unframed element on are those from the next element on. */
  lemma FramesAhead(ir: seq<Element>, table: map<int, Typing>, i: nat)
    requires i < |ir| && TableOf(ir, table) && (Offset(ir, i) !in table || Size(ir[i]) == 0)
    ensures forall k :: k in table ==> (k >= Offset(ir, i) <==> k >= Offset(ir, i + 1))
  {
    hide Size;
    NothingInside(ir, table, i);
  }

  lemma SetterHere(ir: seq<Element>, table: map<int, Typing>, i: nat)
    requires i < |ir| && TableOf(ir, table) && Offset(ir, i) !in table && SetsLocal2(ir[i])
    ensures SetInTime(ir, table, i)
  {
    hide Size, SetsLocal2;
    FramesAhead(ir, table, i);
  }

  lemma SetterLater(ir: seq<Element>, table: map<int, Typing>, i: nat)
    requires i < |ir| && TableOf(ir, table) && (Offset(ir, i) !in table || Size(ir[i]) == 0) && !SetsLocal2(ir[i])
    ensures NoFrameFrom(ir, table, i) <==> NoFrameFrom(ir, table, i + 1)
    ensures SetInTime(ir, table, i) <==> SetInTime(ir, table, i + 1)
  {
    hide Size, SetsLocal2, Offset;
    FramesAhead(ir, table, i);
    if SetInTime(ir, table, i) {
      var j :| i <= j < |ir| && SetsLocal2(ir[j]) && forall k :: k in table && k >= Offset(ir, i)
                                                       ==> Offset(ir, j + 1) <= k;
      assert j != i;
    }
  }

  /** With local 2 unset, it must be set before the next frame, unless there are no more frames. */
  lemma {:induction false} TypableUnset(ir: seq<Element>, table: map<int, Typing>, i: nat)
    requires i <= |ir| && TableOf(ir, table) && Supported(ir)
    ensures Typable(ir, table, i, NotSet)
       <==> GotosFramed(ir, table, i) && (NoFrameFrom(ir, table, i) || SetInTime(ir, table, i))
    decreases |ir| - i
  {
    hide Jumps, SetsLocal2, GotosFramed, NoFrameFrom, SetInTime, TableOf, Supported;
    if Offset(ir, i) in table && (i == |ir| || ir[i].Instr?) {
      FrameTooEarly(ir, table, i, i);
    } else if i == |ir| {
      NoGotos(ir, table);
      NoneAtEnd(ir, table);
    } else {
      GotosStep(ir, table, i);
      NotInstruction(ir, i);
      NextFramed(ir, table, i);
      if Jumps(ir[i]) {
        JumpSetsNothing(ir[i]);
        if GotosFramed(ir, table, i) {
          FrameTooEarly(ir, table, i, i + 1);
        }
      } else if SetsLocal2(ir[i]) {
        TypableSet(ir, table, i + 1);
        SetterHere(ir, table, i);
      } else {
        TypableUnset(ir, table, i + 1);
        SetterLater(ir, table, i);
      }
    }
  }

  lemma JumpSetsNothing(e: Element)
    requires Jumps(e)
    ensures !SetsLocal2(e)
  {
  }

  lemma NoneAtEnd(ir: seq<Element>, table: map<int, Typing>)
    requires TableOf(ir, table) && Offset(ir, |ir|) !in table
    ensures NoFrameFrom(ir, table, |ir|)
  {
    hide Offset;
    forall k | k in table ensures k < Offset(ir, |ir|) {
      var j :| 0 <= j <= |ir| && k == Offset(ir, j);
      OffsetMonotone(ir, j, |ir|);
    }
  }

  // ----- the prologue -----

  lemma PrologueTyped(code: seq<byte>, es: seq<Entry>, table: map<int, Typing>, field: u16, get: u16, array_: u16)
    requires At(code, 0, Prologue(field, get, array_)) && (forall k :: 0 <= k < 10 ==> k !in table)
    requires Resolve(es, field) == RegistersField && Resolve(es, get) == GetMethod && Resolve(es, array_) == LongArray
    ensures Checks(code, es, table, 0, After(Typing(TTop, TTop, [])))
       <==> Checks(code, es, table, 10, After(Base(false)))
  {
    hide Words_, CheckInstruction, CheckFrom, Resolve, TypeStep, BigEndian, Continues;
    hide Decode;
    var a, b := [GETSTATIC] + BigEndian(field, 2), [INVOKEVIRTUAL] + BigEndian(get, 2);
    var c := [CHECKCAST] + BigEndian(array_, 2);
    assert Prologue(field, get, array_) == a + b + c + [ASTORE_1];
    AtParts(code, 0, a + b + c, [ASTORE_1]);
    AtParts(code, 0, a + b, c);
    AtParts(code, 0, a, b);
    AtByte(code, 9, [ASTORE_1], 0);
    var t := Typing(TTop, TTop, []);
    var t1, t2, t3 := t.(stack := [TThreadLocal]), t.(stack := [TObject]), t.(stack := [TArray]);
    IndexTyped(code, es, 0, t, t1, GETSTATIC, field);
    IndexTyped(code, es, 3, t1, t2, INVOKEVIRTUAL, get);
    IndexTyped(code, es, 6, t2, t3, CHECKCAST, array_);
    NoWords();
    Step1(code, es, table, 0, t, t1, 3, [], TThreadLocal);
    Step1(code, es, table, 3, t1, t2, 3, [], TObject);
    Step1(code, es, table, 6, t2, t3, 3, [], TArray);
    Chain(code, es, table, 0, t, 3, t1, 6, t2);
    Chain(code, es, table, 0, t, 6, t2, 9, t3);
    Both(code, es, table, 0, t, 9, t3);
    TypeStoreArray(code, es, 9, t3);
    FallsTo(code, es, table, 9, t3, Base(false), 1);
    Enter(code, es, table, 0, t);
  }

  lemma TypeStoreArray(code: seq<byte>, es: seq<Entry>, pc: nat, t: Typing)
    requires pc < |code| && code[pc] == ASTORE_1 && t.stack == [TArray]
    ensures TypeStep(code, es, pc, t) == Falls(t.(local1 := TArray, stack := []), 1)
  {
    hide Decode;
    OpcodesAgree();
    assert t.stack[0..] == [TArray];
  }

  lemma TypeGetstatic(code: seq<byte>, es: seq<Entry>, pc: nat, t: Typing)
    requires pc < |code| && Decode(code[pc]) == Getstatic && Resolve(es, Index2(code, pc)) == RegistersField
    requires t.stack == []
    ensures TypeStep(code, es, pc, t) == Falls(t.(stack := [TThreadLocal]), 3)
  {
    hide Decode, Resolve, Index2;
    assert t.stack[0..] == [] && t.stack[..0] + [TThreadLocal] == [TThreadLocal];
  }

  lemma TypeInvokevirtual(code: seq<byte>, es: seq<Entry>, pc: nat, t: Typing)
    requires pc < |code| && Decode(code[pc]) == Invokevirtual && Resolve(es, Index2(code, pc)) == GetMethod
    requires t.stack == [TThreadLocal]
    ensures TypeStep(code, es, pc, t) == Falls(t.(stack := [TObject]), 3)
  {
    hide Decode, Resolve, Index2;
    assert t.stack[0..] == [TThreadLocal] && t.stack[..0] + [TObject] == [TObject];
  }

  lemma TypeCheckcast(code: seq<byte>, es: seq<Entry>, pc: nat, t: Typing)
    requires pc < |code| && Decode(code[pc]) == Checkcast && Resolve(es, Index2(code, pc)) == LongArray
    requires t.stack == [TObject]
    ensures TypeStep(code, es, pc, t) == Falls(t.(stack := [TArray]), 3)
  {
    hide Decode, Resolve, Index2;
    assert t.stack[0..] == [TObject] && t.stack[..0] + [TArray] == [TArray];
  }

  lemma IndexTyped(code: seq<byte>, es: seq<Entry>, pc: nat, t: Typing, u: Typing, op: byte, index: u16)
    requires At(code, pc, [op] + BigEndian(index, 2))
    requires || (op == GETSTATIC && Resolve(es, index) == RegistersField && t.stack == []
                 && u == t.(stack := [TThreadLocal]))
             || (op == INVOKEVIRTUAL && Resolve(es, index) == GetMethod && t.stack == [TThreadLocal]
                 && u == t.(stack := [TObject]))
             || (op == CHECKCAST && Resolve(es, index) == LongArray && t.stack == [TObject]
                 && u == t.(stack := [TArray]))
    ensures TypeStep(code, es, pc, t) == Falls(u, 3)
  {
    hide Resolve, BigEndian, Index2, Decode, At, TypeStep;
    OpcodesAgree();
    IndexReads(code, pc, op, index);
    if op == GETSTATIC {
      TypeGetstatic(code, es, pc, t);
    } else if op == INVOKEVIRTUAL {
      TypeInvokevirtual(code, es, pc, t);
    } else {
      TypeCheckcast(code, es, pc, t);
    }
  }
}
