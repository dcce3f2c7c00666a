/** The finished main method, run byte by byte, does what the IR says. */
module Simulation {
  import opened Words
  import opened Ir
  import opened Emission
  import opened Layout
  import opened Patching
  import opened Assembly
  import opened Constants
  import opened RiscV
  import opened Opcodes
  import opened Jvm

  // ----- runs of the emitted fragments -----

  ghost predicate At(code: seq<byte>, pc: nat, bytes: seq<byte>) {
    pc + |bytes| <= |code| && code[pc..pc + |bytes|] == bytes
  }

  lemma AtParts(code: seq<byte>, pc: nat, a: seq<byte>, b: seq<byte>)
    requires At(code, pc, a + b)
    ensures At(code, pc, a) && At(code, pc + |a|, b)
  {
    assert code[pc..pc + |a|] == code[pc..pc + |a + b|][..|a|];
    assert code[pc + |a|..pc + |a| + |b|] == code[pc..pc + |a + b|][|a|..];
  }

  lemma AtByte(code: seq<byte>, pc: nat, bytes: seq<byte>, k: nat)
    requires At(code, pc, bytes) && k < |bytes|
    ensures pc + k < |code| && code[pc + k] == bytes[k]
  {
    assert code[pc + k] == code[pc..pc + |bytes|][k];
  }

  lemma LoadStoreOpcodes()
    ensures Decode(BIPUSH) == Bipush && Decode(LLOAD_2) == Lload2 && Decode(ALOAD_1) == Aload1
    ensures Decode(LALOAD) == Laload && Decode(LSTORE_2) == Lstore2 && Decode(ASTORE_1) == Astore1
    ensures Decode(LASTORE) == Lastore && Decode(POP2) == Pop2
  {
  }

  lemma ComputeOpcodes()
    ensures Decode(LADD) == Ladd && Decode(I2L) == I2l && Decode(LCMP) == Lcmp && Decode(LDC_W) == LdcW
    ensures Decode(GETSTATIC) == Getstatic && Decode(INVOKEVIRTUAL) == Invokevirtual && Decode(CHECKCAST) == Checkcast
  {
  }

  lemma ControlOpcodes()
    ensures Decode(IFEQ) == Ifeq && Decode(IFGT) == Ifgt && Decode(GOTO_W) == GotoW && Decode(RETURN) == Return
  {
  }

  /** The numbers the generator writes are those of the machine's instructions. */
  lemma OpcodesAgree()
    ensures Decode(BIPUSH) == Bipush && Decode(LLOAD_2) == Lload2 && Decode(ALOAD_1) == Aload1
    ensures Decode(LALOAD) == Laload && Decode(LSTORE_2) == Lstore2 && Decode(ASTORE_1) == Astore1
    ensures Decode(LASTORE) == Lastore && Decode(POP2) == Pop2
    ensures Decode(LADD) == Ladd && Decode(I2L) == I2l && Decode(LCMP) == Lcmp && Decode(LDC_W) == LdcW
    ensures Decode(GETSTATIC) == Getstatic && Decode(INVOKEVIRTUAL) == Invokevirtual && Decode(CHECKCAST) == Checkcast
    ensures Decode(IFEQ) == Ifeq && Decode(IFGT) == Ifgt && Decode(GOTO_W) == GotoW && Decode(RETURN) == Return
  {
    hide Decode;
    LoadStoreOpcodes();
    ComputeOpcodes();
    ControlOpcodes();
  }

  /** `s` leads to `t` in `n` steps. */
  ghost predicate Leads(code: seq<byte>, es: seq<Entry>, s: State, n: nat, t: State) {
    Jvm.Run(code, es, Running(s), n) == Running(t)
  }

  lemma LeadsThen(code: seq<byte>, es: seq<Entry>, s: State, m: nat, t: State, n: nat, u: State)
    requires Leads(code, es, s, m, t) && Leads(code, es, t, n, u)
    ensures Leads(code, es, s, m + n, u)
  {
    Jvm.RunAdd(code, es, Running(s), m, n);
  }

  lemma LeadsStep(code: seq<byte>, es: seq<Entry>, s: State, t: State)
    requires Jvm.Step(code, es, s) == Running(t)
    ensures Leads(code, es, s, 1, t)
  {
    hide Jvm.Step;
  }

  // Single instructions of the fragments.

  lemma StepAload(code: seq<byte>, es: seq<Entry>, s: State)
    requires s.pc < |code| && Decode(code[s.pc]) == Aload1 && s.local1 == ArrayV
    ensures Jvm.Step(code, es, s) == Running(s.(pc := s.pc + 1, stack := s.stack + [ArrayV]))
  {
    hide Decode;
  }

  lemma StepBipush(code: seq<byte>, es: seq<Entry>, s: State, r: Reg)
    requires s.pc + 1 < |code| && Decode(code[s.pc]) == Bipush && code[s.pc + 1] == r
    ensures Jvm.Step(code, es, s) == Running(s.(pc := s.pc + 2, stack := s.stack + [IntV(r)]))
  {
    hide Decode;
  }

  lemma StepLaload(code: seq<byte>, es: seq<Entry>, s: State, rest: seq<Value>, r: Reg)
    requires s.pc < |code| && Decode(code[s.pc]) == Laload && s.stack == rest + [ArrayV, IntV(r)]
    ensures Jvm.Step(code, es, s) == Running(s.(pc := s.pc + 1, stack := rest + [LongV(s.regs[r])]))
  {
    hide Decode;
    assert s.stack[..|s.stack| - 2] == rest;
  }

  lemma StepLstore(code: seq<byte>, es: seq<Entry>, s: State, rest: seq<Value>, v: int)
    requires s.pc < |code| && Decode(code[s.pc]) == Lstore2 && s.stack == rest + [LongV(v)]
    ensures Jvm.Step(code, es, s) == Running(s.(pc := s.pc + 1, stack := rest, local2 := LongV(v)))
  {
    hide Decode;
    assert s.stack[..|s.stack| - 1] + [] == rest;
  }

  lemma StepLload(code: seq<byte>, es: seq<Entry>, s: State, v: int)
    requires s.pc < |code| && Decode(code[s.pc]) == Lload2 && s.local2 == LongV(v)
    ensures Jvm.Step(code, es, s) == Running(s.(pc := s.pc + 1, stack := s.stack + [LongV(v)]))
  {
    hide Decode;
  }

  lemma StepLastore(code: seq<byte>, es: seq<Entry>, s: State, rest: seq<Value>, r: Reg, v: int)
    requires s.pc < |code| && Decode(code[s.pc]) == Lastore && s.stack == rest + [ArrayV, IntV(r), LongV(v)]
    ensures Jvm.Step(code, es, s) == Running(s.(pc := s.pc + 1, stack := rest, regs := s.regs[r := v]))
  {
    hide Decode;
    assert s.stack[..|s.stack| - 3] + [] == rest;
  }

  lemma Loads(code: seq<byte>, es: seq<Entry>, s: State, r: Reg)
    requires At(code, s.pc, LoadRegister(r)) && s.local1 == ArrayV
    ensures Leads(code, es, s, 3, s.(pc := s.pc + 4, stack := s.stack + [LongV(s.regs[r])]))
  {
    hide Decode, Jvm.Step, At, Leads;
    OpcodesAgree();
    AtByte(code, s.pc, LoadRegister(r), 0);
    AtByte(code, s.pc, LoadRegister(r), 1);
    AtByte(code, s.pc, LoadRegister(r), 2);
    AtByte(code, s.pc, LoadRegister(r), 3);
    var s1 := s.(pc := s.pc + 1, stack := s.stack + [ArrayV]);
    var s2 := s.(pc := s.pc + 3, stack := s.stack + [ArrayV, IntV(r)]);
    var s3 := s.(pc := s.pc + 4, stack := s.stack + [LongV(s.regs[r])]);
    assert s1.stack + [IntV(r)] == s2.stack;
    StepAload(code, es, s);
    StepBipush(code, es, s1, r);
    StepLaload(code, es, s2, s.stack, r);
    LeadsStep(code, es, s, s1);
    LeadsStep(code, es, s1, s2);
    LeadsStep(code, es, s2, s3);
    LeadsThen(code, es, s, 1, s1, 1, s2);
    LeadsThen(code, es, s, 2, s2, 1, s3);
  }

  /** The state after storing `v` into `rd`: the array slot and, unless rd is X0, local 2. */
  function Stored(s: State, rd: Reg, v: int, rest: seq<Value>): State {
    State(s.pc + StoreSize(rd), rest, s.local1, if rd == 0 then s.local2 else LongV(v), Write(s.regs, rd, v))
  }

  function StoreCost(rd: Reg): nat {
    if rd == 0 then 1 else 5
  }

  lemma Stores(code: seq<byte>, es: seq<Entry>, s: State, rd: Reg, v: int, rest: seq<Value>)
    requires At(code, s.pc, StoreRegister(rd)) && s.local1 == ArrayV && s.stack == rest + [LongV(v)]
    ensures Leads(code, es, s, StoreCost(rd), Stored(s, rd, v, rest))
  {
    hide Decode;
    OpcodesAgree();
    AtByte(code, s.pc, StoreRegister(rd), 0);
    if rd == 0 {
      LeadsStep(code, es, s, Stored(s, rd, v, rest));
    } else {
      StoresArray(code, es, s, rd, v, rest);
    }
  }

  lemma StoresArray(code: seq<byte>, es: seq<Entry>, s: State, rd: Reg, v: int, rest: seq<Value>)
    requires At(code, s.pc, StoreRegister(rd)) && s.local1 == ArrayV && s.stack == rest + [LongV(v)] && rd != 0
    ensures Leads(code, es, s, 5, Stored(s, rd, v, rest))
  {
    hide Decode, Jvm.Step, At, Leads;
    OpcodesAgree();
    var bytes := StoreRegister(rd);
    AtByte(code, s.pc, bytes, 0);
    AtByte(code, s.pc, bytes, 1);
    AtByte(code, s.pc, bytes, 2);
    AtByte(code, s.pc, bytes, 3);
    AtByte(code, s.pc, bytes, 4);
    AtByte(code, s.pc, bytes, 5);
    var s1 := State(s.pc + 1, rest, ArrayV, LongV(v), s.regs);
    var s2 := s1.(pc := s.pc + 2, stack := rest + [ArrayV]);
    var s3 := s1.(pc := s.pc + 4, stack := rest + [ArrayV, IntV(rd)]);
    var s4 := s1.(pc := s.pc + 5, stack := rest + [ArrayV, IntV(rd), LongV(v)]);
    var s5 := Stored(s, rd, v, rest);
    assert s2.stack + [IntV(rd)] == s3.stack && s3.stack + [LongV(v)] == s4.stack;
    StepLstore(code, es, s, rest, v);
    StepAload(code, es, s1);
    StepBipush(code, es, s2, rd);
    StepLload(code, es, s3, v);
    StepLastore(code, es, s4, rest, rd, v);
    LeadsStep(code, es, s, s1);
    LeadsStep(code, es, s1, s2);
    LeadsStep(code, es, s2, s3);
    LeadsStep(code, es, s3, s4);
    LeadsStep(code, es, s4, s5);
    LeadsThen(code, es, s, 1, s1, 1, s2);
    LeadsThen(code, es, s, 2, s2, 1, s3);
    LeadsThen(code, es, s, 3, s3, 1, s4);
    LeadsThen(code, es, s, 4, s4, 1, s5);
  }

  /** The index behind an opcode. */
  lemma IndexReads(code: seq<byte>, pc: nat, op: byte, index: u16)
    requires At(code, pc, [op] + BigEndian(index, 2))
    ensures pc < |code| && code[pc] == op && Index2(code, pc) == index
  {
    hide BigEndian, Unsigned;
    AtByte(code, pc, [op] + BigEndian(index, 2), 0);
    AtParts(code, pc, [op], BigEndian(index, 2));
    assert Operand(code, pc + 1, 2) == BigEndian(index, 2);
    Unsigned16(index);
  }

  /** The two parts of the code that loads a constant. */
  lemma ConstantParts(code: seq<byte>, pc: nat, index: u16)
    requires At(code, pc, LoadConstant(index))
    ensures pc + 3 < |code| && code[pc] == LDC_W && Index2(code, pc) == index && code[pc + 3] == I2L
  {
    hide BigEndian;
    AtParts(code, pc, [LDC_W] + BigEndian(index, 2), [I2L]);
    IndexReads(code, pc, LDC_W, index);
    AtByte(code, pc + 3, [I2L], 0);
  }

  lemma LoadsConstant(code: seq<byte>, es: seq<Entry>, s: State, index: u16, v: Int32)
    requires At(code, s.pc, LoadConstant(index)) && Resolve(es, index) == Number(v)
    ensures Leads(code, es, s, 2, s.(pc := s.pc + 4, stack := s.stack + [LongV(v)]))
  {
    hide Resolve, Index2, At, Decode;
    OpcodesAgree();
    ConstantParts(code, s.pc, index);
    var s1 := s.(pc := s.pc + 3, stack := s.stack + [IntV(v)]);
    var s2 := s.(pc := s.pc + 4, stack := s.stack + [LongV(v)]);
    LeadsStep(code, es, s, s1);
    LeadsStep(code, es, s1, s2);
    LeadsThen(code, es, s, 1, s1, 1, s2);
  }

  lemma Adds(code: seq<byte>, es: seq<Entry>, s: State, a: int, b: int, rest: seq<Value>)
    requires At(code, s.pc, [LADD]) && s.stack == rest + [LongV(a), LongV(b)]
    ensures Leads(code, es, s, 1, s.(pc := s.pc + 1, stack := rest + [LongV(Wrap64(a + b))]))
  {
    hide Decode;
    OpcodesAgree();
    AtByte(code, s.pc, [LADD], 0);
    LeadsStep(code, es, s, s.(pc := s.pc + 1, stack := rest + [LongV(Wrap64(a + b))]));
  }

  lemma StepGoto(code: seq<byte>, es: seq<Entry>, s: State, d: int)
    requires s.pc < |code| && Decode(code[s.pc]) == GotoW && Signed(Operand(code, s.pc + 1, 4)) == d && s.pc + d >= 0
    ensures Jvm.Step(code, es, s) == Running(s.(pc := s.pc + d))
  {
    hide Decode, Signed, Operand;
  }

  lemma Jumps4(code: seq<byte>, es: seq<Entry>, s: State, d: int)
    requires At(code, s.pc, Goto(d)) && -65536 < d < 65536 && s.pc + d >= 0
    ensures Leads(code, es, s, 1, s.(pc := s.pc + d))
  {
    hide Decode, Jvm.Step, Leads, At, Signed, BigEndian;
    OpcodesAgree();
    AtByte(code, s.pc, Goto(d), 0);
    AtParts(code, s.pc, [GOTO_W], BigEndian(d, 4));
    OperandIs(code, s.pc + 1, BigEndian(d, 4));
    Signed32(d);
    StepGoto(code, es, s, d);
    LeadsStep(code, es, s, s.(pc := s.pc + d));
  }

  lemma StepLcmp(code: seq<byte>, es: seq<Entry>, s: State, a: int, b: int, rest: seq<Value>)
    requires s.pc < |code| && Decode(code[s.pc]) == Lcmp && s.stack == rest + [LongV(a), LongV(b)]
    ensures Jvm.Step(code, es, s) == Running(s.(pc := s.pc + 1, stack := rest + [IntV(Compare(a, b))]))
  {
    hide Decode, Compare;
    assert s.stack[..|s.stack| - 2] == rest;
  }

  /** A conditional branch by `d`, on a comparison. */
  lemma StepIf(code: seq<byte>, es: seq<Entry>, s: State, d: int, v: int, rest: seq<Value>)
    requires s.pc < |code| && (Decode(code[s.pc]) == Ifeq || Decode(code[s.pc]) == Ifgt)
    requires Signed(Operand(code, s.pc + 1, 2)) == d >= 0 && s.stack == rest + [IntV(v)]
    ensures var skips := if Decode(code[s.pc]) == Ifeq then v == 0 else v > 0;
            Jvm.Step(code, es, s) == Running(s.(pc := if skips then s.pc + d else s.pc + 3, stack := rest))
  {
    hide Decode, Signed, Operand;
    assert s.stack[..|s.stack| - 1] + [] == rest;
  }

  /** LCMP and the conditional skip over the jump. */
  lemma Compares(code: seq<byte>, es: seq<Entry>, s: State, skip: byte, a: int, b: int, rest: seq<Value>)
    requires At(code, s.pc, [LCMP, skip] + BigEndian(8, 2)) && (skip == IFEQ || skip == IFGT)
    requires s.stack == rest + [LongV(a), LongV(b)]
    ensures var skips := if skip == IFEQ then a == b else a > b;
            Leads(code, es, s, 2, s.(pc := s.pc + (if skips then 9 else 4), stack := rest))
  {
    hide Decode, Jvm.Step, Leads, At, Signed, BigEndian;
    OpcodesAgree();
    var bytes := [LCMP, skip] + BigEndian(8, 2);
    AtByte(code, s.pc, bytes, 0);
    AtByte(code, s.pc, bytes, 1);
    AtParts(code, s.pc, [LCMP, skip], BigEndian(8, 2));
    OperandIs(code, s.pc + 2, BigEndian(8, 2));
    SignedEight();
    var skips := if skip == IFEQ then a == b else a > b;
    var s1 := s.(pc := s.pc + 1, stack := rest + [IntV(Compare(a, b))]);
    var s2 := s.(pc := s.pc + (if skips then 9 else 4), stack := rest);
    StepLcmp(code, es, s, a, b, rest);
    StepIf(code, es, s1, 8, Compare(a, b), rest);
    LeadsStep(code, es, s, s1);
    LeadsStep(code, es, s1, s2);
    LeadsThen(code, es, s, 1, s1, 1, s2);
  }

  lemma OperandIs(code: seq<byte>, pc: nat, bytes: seq<byte>)
    requires At(code, pc, bytes)
    ensures Operand(code, pc, |bytes|) == bytes
  {
  }

  lemma SignedEight()
    ensures Signed(BigEndian(8, 2)) == 8
  {
    UnsignedBigEndian(8, 2);
    Pow256Values();
  }

  // ----- one instruction -----

  /** The machine is between elements, about to run element `i`: empty stack, the array in local 1. */
  ghost predicate Between(s: State, pc: nat, regs: Regs) {
    s.pc == pc && s.stack == [] && s.local1 == ArrayV && s.regs == regs && regs[0] == 0
  }

  /** How many machine steps the code of an instruction takes. */
  function Cost(e: Element, regs: Regs): (n: nat)
    requires SupportedElement(e) && e.Instr?
    ensures n >= 1
  {
    match e.ins
    case R3(_, rd, _, _) => 7 + StoreCost(rd)
    case R2(_, rd, _, Imm(_)) => 6 + StoreCost(rd)
    case R2(_, _, _, Label(_)) => if Taken(AsEmitted, e, regs) then 9 else 8
    case R1(_, _, _) => 1
    case Mem(_, _, _, _) => 1
  }

  /** Two longs on the stack, LADD, store: what ADD and ADDI have in common. */
  lemma SumRuns(code: seq<byte>, es: seq<Entry>, s: State, n: nat, t: State, rd: Reg, a: int, b: int)
    requires Leads(code, es, s, n, t) && t.stack == [LongV(a), LongV(b)] && t.local1 == ArrayV && t.regs[0] == 0
    requires At(code, t.pc, [LADD]) && At(code, t.pc + 1, StoreRegister(rd))
    ensures var r := Jvm.Run(code, es, Running(s), n + 1 + StoreCost(rd));
            && r.Running?
            && Between(r.st, t.pc + 1 + StoreSize(rd), Write(t.regs, rd, Wrap64(a + b)))
  {
    hide Jvm.Step, At, Leads, StoreCost, StoreSize, Wrap64;
    var sum := Wrap64(a + b);
    var t1 := t.(pc := t.pc + 1, stack := [LongV(sum)]);
    Adds(code, es, t, a, b, []);
    Stores(code, es, t1, rd, sum, []);
    LeadsThen(code, es, s, n, t, 1, t1);
    LeadsThen(code, es, s, n + 1, t1, StoreCost(rd), Stored(t1, rd, sum, []));
    LeadsTo(code, es, s, n + 1 + StoreCost(rd), Stored(t1, rd, sum, []));
  }

  lemma LeadsTo(code: seq<byte>, es: seq<Entry>, s: State, n: nat, t: State)
    requires Leads(code, es, s, n, t)
    ensures Jvm.Run(code, es, Running(s), n) == Running(t)
  {
  }

  lemma AddRuns(code: seq<byte>, es: seq<Entry>, s: State, rd: Reg, rs1: Reg, rs2: Reg)
    requires Between(s, s.pc, s.regs)
    requires At(code, s.pc, LoadRegister(rs1) + LoadRegister(rs2) + [LADD] + StoreRegister(rd))
    ensures var r := Jvm.Run(code, es, Running(s), 7 + StoreCost(rd));
            && r.Running?
            && Between(r.st, s.pc + 9 + StoreSize(rd), Write(s.regs, rd, Wrap64(Read(s.regs, rs1) + Read(s.regs, rs2))))
  {
    hide Jvm.Run, At, Leads, StoreCost, StoreSize, Wrap64, Write, StoreRegister;
    var a, b, c, d := LoadRegister(rs1), LoadRegister(rs2), [LADD], StoreRegister(rd);
    AtParts(code, s.pc, a + b + c, d);
    AtParts(code, s.pc, a + b, c);
    AtParts(code, s.pc, a, b);
    var x, y := s.regs[rs1], s.regs[rs2];
    var s1 := s.(pc := s.pc + 4, stack := [LongV(x)]);
    var s2 := s.(pc := s.pc + 8, stack := [LongV(x), LongV(y)]);
    assert s.stack + [LongV(x)] == [LongV(x)];
    assert s1.stack + [LongV(y)] == [LongV(x), LongV(y)];
    Loads(code, es, s, rs1);
    Loads(code, es, s1, rs2);
    LeadsThen(code, es, s, 3, s1, 3, s2);
    SumRuns(code, es, s, 6, s2, rd, x, y);
  }

  lemma AddiRuns(code: seq<byte>, es: seq<Entry>, s: State, rd: Reg, rs1: Reg, index: u16, v: Imm12)
    requires Between(s, s.pc, s.regs) && Resolve(es, index) == Number(v)
    requires At(code, s.pc, LoadRegister(rs1) + LoadConstant(index) + [LADD] + StoreRegister(rd))
    ensures var r := Jvm.Run(code, es, Running(s), 6 + StoreCost(rd));
            && r.Running?
            && Between(r.st, s.pc + 9 + StoreSize(rd), Write(s.regs, rd, Wrap64(Read(s.regs, rs1) + v)))
  {
    hide Jvm.Run, At, Leads, StoreCost, StoreSize, Wrap64, Write, StoreRegister, Resolve;
    var a, b, c, d := LoadRegister(rs1), LoadConstant(index), [LADD], StoreRegister(rd);
    AtParts(code, s.pc, a + b + c, d);
    AtParts(code, s.pc, a + b, c);
    AtParts(code, s.pc, a, b);
    var x := s.regs[rs1];
    var s1 := s.(pc := s.pc + 4, stack := [LongV(x)]);
    var s2 := s.(pc := s.pc + 8, stack := [LongV(x), LongV(v)]);
    assert s.stack + [LongV(x)] == [LongV(x)];
    assert s1.stack + [LongV(v)] == [LongV(x), LongV(v)];
    Loads(code, es, s, rs1);
    LoadsConstant(code, es, s1, index, v);
    LeadsThen(code, es, s, 3, s1, 2, s2);
    SumRuns(code, es, s, 5, s2, rd, x, v);
  }

  lemma BranchRuns(code: seq<byte>, es: seq<Entry>, s: State, rd: Reg, rs1: Reg, skip: byte, d: int)
    requires Between(s, s.pc, s.regs) && (skip == IFEQ || skip == IFGT)
    requires At(code, s.pc, LoadRegister(rd) + LoadRegister(rs1) + [LCMP, skip] + BigEndian(8, 2) + Goto(d))
    requires -65536 < d < 65536 && s.pc + 12 + d >= 0
    ensures var taken := if skip == IFEQ then Read(s.regs, rd) != Read(s.regs, rs1)
                         else Read(s.regs, rd) <= Read(s.regs, rs1);
            var r := Jvm.Run(code, es, Running(s), if taken then 9 else 8);
            && r.Running?
            && Between(r.st, if taken then s.pc + 12 + d else s.pc + 17, s.regs)
  {
    hide Jvm.Run, At, Leads;
    var a, b, c, e := LoadRegister(rd), LoadRegister(rs1), [LCMP, skip] + BigEndian(8, 2), Goto(d);
    assert a + b + [LCMP, skip] + BigEndian(8, 2) + e == a + b + c + e;
    AtParts(code, s.pc, a + b + c, e);
    AtParts(code, s.pc, a + b, c);
    AtParts(code, s.pc, a, b);
    var x, y := s.regs[rd], s.regs[rs1];
    var s1 := s.(pc := s.pc + 4, stack := [LongV(x)]);
    var s2 := s.(pc := s.pc + 8, stack := [LongV(x), LongV(y)]);
    assert s.stack + [LongV(x)] == [LongV(x)];
    assert s1.stack + [LongV(y)] == [LongV(x), LongV(y)] == [] + [LongV(x), LongV(y)];
    var skips := if skip == IFEQ then x == y else x > y;
    var s3 := s.(pc := if skips then s.pc + 17 else s.pc + 12);
    Loads(code, es, s, rd);
    Loads(code, es, s1, rs1);
    Compares(code, es, s2, skip, x, y, []);
    LeadsThen(code, es, s, 3, s1, 3, s2);
    LeadsThen(code, es, s, 6, s2, 2, s3);
    LeadsTo(code, es, s, 8, s3);
    if !skips {
      Jumps4(code, es, s3, d);
      LeadsThen(code, es, s, 8, s3, 1, s3.(pc := s3.pc + d));
      LeadsTo(code, es, s, 9, s3.(pc := s3.pc + d));
    }
  }

  // ----- one step of the program -----

  /** Numbers in the pool are found where the map says. */
  ghost predicate Numbers(pool: Pool, es: seq<Entry>) {
    forall v: Imm12 :: Num(v) in pool ==> Resolve(es, pool[Num(v)]) == Number(v)
  }

  /** The programs that both passes take, whatever their instructions mean. */
  ghost predicate Translatable(pool: Pool, ir: seq<Element>) {
    UniqueLabels(ir) && ClosedLabels(ir) && AllEmit(pool, ir) && TargetsHaveCode(ir) && Fits(ir)
  }

  /** The programs the correctness theorem is about; every part can be checked before compiling. */
  ghost predicate Compilable(pool: Pool, ir: seq<Element>) {
    Supported(ir) && Translatable(pool, ir)
  }

  lemma SkipOffset(ir: seq<Element>, i: nat)
    requires i <= |ir|
    ensures Offset(ir, Skip(ir, i)) == Offset(ir, i)
    decreases |ir| - i
  {
    if i < |ir| && !ir[i].Instr? {
      SkipOffset(ir, i + 1);
    }
  }

  lemma JumpDeclared(ir: seq<Element>, i: nat)
    requires ClosedLabels(ir) && i < |ir| && Jumps(ir[i])
    ensures var t := Target(ir, JumpLabel(ir[i]));
            t < |ir| && ir[t] == LabelDecl(JumpLabel(ir[i])) && Declared(ir, JumpLabel(ir[i]))
  {
    assert Refers(ir[i], JumpLabel(ir[i]));
    assert Declared(ir, JumpLabel(ir[i]));
  }

  lemma DeclaredOnce(ir: seq<Element>, t: nat, u: nat)
    requires UniqueLabels(ir) && t < |ir| && u < |ir| && ir[t].LabelDecl? && ir[u] == ir[t]
    ensures t == u
  {
  }

  lemma TargetHasCode(ir: seq<Element>, i: nat, t: nat)
    requires TargetsHaveCode(ir) && i < |ir| && Jumps(ir[i]) && t < |ir| && ir[t] == LabelDecl(JumpLabel(ir[i]))
    ensures HasCode(ir, ir[t].name)
  {
    hide HasCode, Jumps, JumpLabel;
    assert JumpsTo(ir[i], ir[t].name);
  }

  /** The one declaration of a jumped-to label takes an offset. */
  lemma JumpLands(ir: seq<Element>, i: nat, t: nat)
    requires UniqueLabels(ir) && TargetsHaveCode(ir) && i < |ir| && Jumps(ir[i])
    requires t < |ir| && ir[t] == LabelDecl(JumpLabel(ir[i]))
    ensures TakesOffset(ir, t)
  {
    hide UniqueLabels, Jumps, JumpLabel, TargetsHaveCode;
    TargetHasCode(ir, i, t);
    var u :| 0 <= u < |ir| && ir[u] == LabelDecl(ir[t].name) && (u + 1 == |ir| || ir[u + 1].Instr?);
    DeclaredOnce(ir, t, u);
  }

  /** The label of a jump stands for the offset of the element that declares it. */
  lemma JumpTarget(pool: Pool, ir: seq<Element>, i: nat)
    requires Translatable(pool, ir) && i < |ir| && Jumps(ir[i])
    ensures var t := Target(ir, JumpLabel(ir[i]));
            && t < |ir| && Declared(ir, JumpLabel(ir[i]))
            && JumpAt(ir, i) + Distance(ir, i) == Offset(ir, t)
            && -65536 < Distance(ir, i) < 65536
  {
    hide Size, JumpAt, LabelOffset, TakesOffset, UniqueLabels, ClosedLabels, TargetsHaveCode;
    JumpDeclared(ir, i);
    var t := Target(ir, JumpLabel(ir[i]));
    JumpLands(ir, i, t);
    LabelOffsetIs(ir, t);
    OffsetMonotone(ir, t, |ir|);
    RefInside(pool, ir, i);
  }

  lemma StepRuns(pool: Pool, ir: seq<Element>, p: seq<byte>, es: seq<Entry>, s: State, i: nat)
    requires Compilable(pool, ir) && Numbers(pool, es) && |p| == 10
    requires i < |ir| && ir[i].Instr? && Between(s, Offset(ir, i), s.regs)
    ensures var h := RiscV.Step(AsEmitted, RV64, ir, Hart(i, s.regs));
            var r := Jvm.Run(Assemble(pool, ir, p), es, Running(s), Cost(ir[i], s.regs));
            && r.Running?
            && Between(r.st, Offset(ir, h.pc), h.regs)
  {
    hide Jvm.Run, Assemble, Distance, UniqueLabels, ClosedLabels, TargetsHaveCode, Fits, Target, Skip, Numbers, Between;
    var code := Assemble(pool, ir, p);
    AssembleAt(pool, ir, p, i);
    assert SupportedElement(ir[i]) && Emits(pool, ir[i]);
    SkipOffset(ir, NextPc(AsEmitted, ir, Hart(i, s.regs)));
    StepRunsAt(pool, ir, code, es, s, i);
  }

  /** The machine has run the code of `e` and is where the program goes next. */
  ghost predicate Reached(ir: seq<Element>, code: seq<byte>, es: seq<Entry>, s: State, i: nat)
    requires i < |ir| && SupportedElement(ir[i]) && ir[i].Instr?
  {
    var r := Jvm.Run(code, es, Running(s), Cost(ir[i], s.regs));
    && r.Running?
    && Between(r.st, Offset(ir, NextPc(AsEmitted, ir, Hart(i, s.regs))), NextRegs(RV64, ir[i], s.regs))
  }

  lemma ArithmeticRunsAt(pool: Pool, ir: seq<Element>, code: seq<byte>, es: seq<Entry>, s: State, i: nat, d: int)
    requires i < |ir| && SupportedElement(ir[i]) && ir[i].Instr? && Emits(pool, ir[i]) && !Jumps(ir[i])
    requires Numbers(pool, es) && Between(s, Offset(ir, i), s.regs)
    requires At(code, Offset(ir, i), Code(pool, ir[i], d))
    ensures Reached(ir, code, es, s, i)
  {
    hide Jvm.Run, At, Between, Numbers, NextPc, Code, NextRegs, Cost, Size, Jumps, SupportedElement, Emits;
    hide LoadRegister, LoadConstant, StoreRegister, Write, Read, Wrap64, StoreSize, StoreCost, Resolve, Offset;
    NextOffset(ir, i, s.regs);
    BetweenSame(s, Offset(ir, i));
    ArithmeticShape(pool, ir[i], d, s.regs);
    if ir[i].ins.R3? {
      var R3(_, rd, rs1, rs2) := ir[i].ins;
      AddRuns(code, es, s, rd, rs1, rs2);
    } else {
      var R2(_, rd, rs1, Imm(v)) := ir[i].ins;
      NumberAt(pool, es, v);
      AddiRuns(code, es, s, rd, rs1, pool[Num(v)], v);
    }
  }

  /** ADD and ADDI: their code, size and cost. */
  lemma ArithmeticShape(pool: Pool, e: Element, d: int, regs: Regs)
    requires SupportedElement(e) && e.Instr? && Emits(pool, e) && !Jumps(e)
    ensures match e.ins
            case R3(_, rd, rs1, rs2) =>
              && Code(pool, e, d) == LoadRegister(rs1) + LoadRegister(rs2) + [LADD] + StoreRegister(rd)
              && NextRegs(RV64, e, regs) == Write(regs, rd, Wrap64(Read(regs, rs1) + Read(regs, rs2)))
              && Size(e) == 9 + StoreSize(rd) && Cost(e, regs) == 7 + StoreCost(rd)
            case R2(_, rd, rs1, Imm(v)) =>
              && Num(v) in pool
              && Code(pool, e, d) == LoadRegister(rs1) + LoadConstant(pool[Num(v)]) + [LADD] + StoreRegister(rd)
              && NextRegs(RV64, e, regs) == Write(regs, rd, Wrap64(Read(regs, rs1) + v))
              && Size(e) == 9 + StoreSize(rd) && Cost(e, regs) == 6 + StoreCost(rd)
            case _ => false
  {
    hide LoadRegister, StoreRegister, LoadConstant, Write, Read, Wrap64, StoreSize, StoreCost;
  }

  lemma BetweenSame(s: State, pc: nat)
    requires Between(s, pc, s.regs)
    ensures s.pc == pc && Between(s, s.pc, s.regs)
  {
  }

  lemma NumberAt(pool: Pool, es: seq<Entry>, v: Imm12)
    requires Numbers(pool, es) && Num(v) in pool
    ensures Resolve(es, pool[Num(v)]) == Number(v)
  {
  }

  lemma NextOffset(ir: seq<Element>, i: nat, regs: Regs)
    requires i < |ir| && !Jumps(ir[i])
    ensures Offset(ir, NextPc(AsEmitted, ir, Hart(i, regs))) == Offset(ir, i) + Size(ir[i])
  {
    hide Jumps, Taken, Size, Target;
  }

  lemma BranchRunsAt(pool: Pool, ir: seq<Element>, code: seq<byte>, es: seq<Entry>, s: State, i: nat, d: int)
    requires i < |ir| && SupportedElement(ir[i]) && Jumps(ir[i]) && ir[i].ins.R2?
    requires Between(s, Offset(ir, i), s.regs) && At(code, Offset(ir, i), Code(pool, ir[i], d))
    requires -65536 < d < 65536 && JumpAt(ir, i) + d == Offset(ir, Target(ir, JumpLabel(ir[i])))
    ensures Reached(ir, code, es, s, i)
  {
    hide Jvm.Run, At, Target, Between, Code, Cost, Size, NextRegs, Read, LoadRegister, Goto, BigEndian;
    BetweenSame(s, Offset(ir, i));
    JumpShape(pool, ir[i], d, s.regs);
    var R2(m, rd, rs1, op) := ir[i].ins;
    BranchRuns(code, es, s, rd, rs1, if m == BNE then IFEQ else IFGT, d);
  }

  lemma GotoRunsAt(pool: Pool, ir: seq<Element>, code: seq<byte>, es: seq<Entry>, s: State, i: nat, d: int)
    requires i < |ir| && SupportedElement(ir[i]) && Jumps(ir[i]) && ir[i].ins.R1?
    requires Between(s, Offset(ir, i), s.regs) && At(code, Offset(ir, i), Code(pool, ir[i], d))
    requires -65536 < d < 65536 && JumpAt(ir, i) + d == Offset(ir, Target(ir, JumpLabel(ir[i])))
    ensures Reached(ir, code, es, s, i)
  {
    hide Jvm.Run, At, Target, Between, Code, Cost, Size, NextRegs, Read, LoadRegister, Goto, BigEndian;
    BetweenSame(s, Offset(ir, i));
    JumpShape(pool, ir[i], d, s.regs);
    GotoRuns(code, es, s, d);
  }

  lemma JumpRunsAt(pool: Pool, ir: seq<Element>, code: seq<byte>, es: seq<Entry>, s: State, i: nat, d: int)
    requires i < |ir| && SupportedElement(ir[i]) && Jumps(ir[i])
    requires Between(s, Offset(ir, i), s.regs) && At(code, Offset(ir, i), Code(pool, ir[i], d))
    requires -65536 < d < 65536 && JumpAt(ir, i) + d == Offset(ir, Target(ir, JumpLabel(ir[i])))
    ensures Reached(ir, code, es, s, i)
  {
    hide Reached, At, Between, Code, JumpAt, Target, JumpLabel, SupportedElement;
    if ir[i].ins.R2? {
      BranchRunsAt(pool, ir, code, es, s, i, d);
    } else {
      GotoRunsAt(pool, ir, code, es, s, i, d);
    }
  }

  lemma GotoRuns(code: seq<byte>, es: seq<Entry>, s: State, d: int)
    requires Between(s, s.pc, s.regs) && At(code, s.pc, Goto(d)) && -65536 < d < 65536 && s.pc + d >= 0
    ensures var r := Jvm.Run(code, es, Running(s), 1); r.Running? && Between(r.st, s.pc + d, s.regs)
  {
    hide Jvm.Run, Goto;
    Jumps4(code, es, s, d);
    LeadsTo(code, es, s, 1, s.(pc := s.pc + d));
  }

  /** Jumps: their code, size and cost. */
  lemma JumpShape(pool: Pool, e: Element, d: int, regs: Regs)
    requires SupportedElement(e) && Jumps(e)
    ensures NextRegs(RV64, e, regs) == regs
    ensures match e.ins
            case R2(m, rd, rs1, Label(_)) =>
              && (m == BNE || m == BLT)
              && Code(pool, e, d)
                 == LoadRegister(rd) + LoadRegister(rs1) + [LCMP, if m == BNE then IFEQ else IFGT] + BigEndian(8, 2)
                     + Goto(d)
              && Size(e) == 17 && Cost(e, regs) == if Taken(AsEmitted, e, regs) then 9 else 8
            case R1(_, _, _) => Code(pool, e, d) == Goto(d) && Size(e) == 5 && Cost(e, regs) == 1
            case _ => false
  {
    hide LoadRegister, Read, Goto;
  }

  lemma StepRunsAt(pool: Pool, ir: seq<Element>, code: seq<byte>, es: seq<Entry>, s: State, i: nat)
    requires Compilable(pool, ir) && Numbers(pool, es)
    requires i < |ir| && ir[i].Instr? && Between(s, Offset(ir, i), s.regs)
    requires Offset(ir, i) <= Offset(ir, i + 1) <= |code|
    requires code[Offset(ir, i)..Offset(ir, i + 1)] == Code(pool, ir[i], Distance(ir, i))
    ensures SupportedElement(ir[i]) && Reached(ir, code, es, s, i)
  {
    hide *;
    CompilableAt(pool, ir, i);
    CodeIsAt(pool, ir, code, i, Distance(ir, i));
    if Jumps(ir[i]) {
      JumpTarget(pool, ir, i);
      JumpRunsAt(pool, ir, code, es, s, i, Distance(ir, i));
    } else {
      ArithmeticRunsAt(pool, ir, code, es, s, i, Distance(ir, i));
    }
  }

  lemma CompilableAt(pool: Pool, ir: seq<Element>, i: nat)
    requires Compilable(pool, ir) && i < |ir|
    ensures SupportedElement(ir[i]) && Emits(pool, ir[i]) && Translatable(pool, ir)
  {
  }

  lemma CodeIsAt(pool: Pool, ir: seq<Element>, code: seq<byte>, i: nat, d: int)
    requires i < |ir| && Emits(pool, ir[i]) && Offset(ir, i) <= Offset(ir, i + 1) <= |code|
    requires code[Offset(ir, i)..Offset(ir, i + 1)] == Code(pool, ir[i], d)
    ensures At(code, Offset(ir, i), Code(pool, ir[i], d))
  {
    hide Code, Size, Emits;
  }

  // ----- whole runs -----

  /** Machine steps for the first `n` instructions of a run. */
  function RunCost(ir: seq<Element>, h: Hart, n: nat): nat
    requires h.pc <= |ir| && Supported(ir) && (h.pc < |ir| ==> ir[h.pc].Instr?)
  {
    if n == 0 then 0 else
    var g := RiscV.Steps(AsEmitted, RV64, ir, h, n - 1);
    StepsAtCode(AsEmitted, RV64, ir, h, n - 1);
    RunCost(ir, h, n - 1) + (if Halted(ir, g) then 0 else Cost(ir[g.pc], g.regs))
  }

  lemma {:induction false} StepsAtCode(reading: Reading, w: Width, ir: seq<Element>, h: Hart, n: nat)
    requires h.pc <= |ir| && (h.pc < |ir| ==> ir[h.pc].Instr?)
    ensures var g := RiscV.Steps(reading, w, ir, h, n); g.pc < |ir| ==> ir[g.pc].Instr?
  {
    if n > 0 {
      StepsAtCode(reading, w, ir, h, n - 1);
    }
  }

  /** After any number of instructions the machine is at the element the program is at, with the same
      registers, register 0 still 0 and nothing on the stack. */
  lemma {:induction false} RunsAgree(pool: Pool, ir: seq<Element>, p: seq<byte>, es: seq<Entry>, s: State, h: Hart,
                                     n: nat)
    requires Compilable(pool, ir) && Numbers(pool, es) && |p| == 10
    requires h.pc <= |ir| && (h.pc < |ir| ==> ir[h.pc].Instr?) && Between(s, Offset(ir, h.pc), h.regs)
    ensures var g := RiscV.Steps(AsEmitted, RV64, ir, h, n);
            var r := Jvm.Run(Assemble(pool, ir, p), es, Running(s), RunCost(ir, h, n));
            && r.Running?
            && Between(r.st, Offset(ir, g.pc), g.regs)
            && (Halted(ir, g) || RunCost(ir, h, n) >= n)
  {
    hide Jvm.Step, RiscV.Step, Assemble, Cost, Translatable, Numbers, Offset, Skip, Target;
    if n > 0 {
      RunsAgree(pool, ir, p, es, s, h, n - 1);
      var g := RiscV.Steps(AsEmitted, RV64, ir, h, n - 1);
      var code := Assemble(pool, ir, p);
      var r := Jvm.Run(code, es, Running(s), RunCost(ir, h, n - 1));
      StepsAtCode(AsEmitted, RV64, ir, h, n - 1);
      if Halted(ir, g) {
        HaltedStays(AsEmitted, RV64, ir, g);
      } else {
        StepRuns(pool, ir, p, es, r.st, g.pc);
        Jvm.RunAdd(code, es, Running(s), RunCost(ir, h, n - 1), Cost(ir[g.pc], g.regs));
      }
    }
  }

  lemma HaltedStays(reading: Reading, w: Width, ir: seq<Element>, h: Hart)
    requires h.pc == |ir|
    ensures RiscV.Step(reading, w, ir, h) == h
  {
  }

  lemma PrologueParts(code: seq<byte>, field: u16, get: u16, array_: u16)
    requires At(code, 0, Prologue(field, get, array_))
    ensures At(code, 0, [GETSTATIC] + BigEndian(field, 2)) && At(code, 3, [INVOKEVIRTUAL] + BigEndian(get, 2))
    ensures At(code, 6, [CHECKCAST] + BigEndian(array_, 2)) && At(code, 9, [ASTORE_1])
  {
    hide At, BigEndian;
    var a, b := [GETSTATIC] + BigEndian(field, 2), [INVOKEVIRTUAL] + BigEndian(get, 2);
    var c := [CHECKCAST] + BigEndian(array_, 2);
    assert Prologue(field, get, array_) == a + b + c + [ASTORE_1];
    AtParts(code, 0, a + b + c, [ASTORE_1]);
    AtParts(code, 0, a + b, c);
    AtParts(code, 0, a, b);
  }

  /** The frame at `pc` of the prologue, with `stack` and `local`. */
  function InPrologue(pc: nat, stack: seq<Value>, local: Value, regs: Regs): State {
    State(pc, stack, local, Unset, regs)
  }

  lemma LoadsThreadLocal(code: seq<byte>, es: seq<Entry>, field: u16, regs: Regs)
    requires At(code, 0, [GETSTATIC] + BigEndian(field, 2)) && Resolve(es, field) == RegistersField
    ensures Leads(code, es, InPrologue(0, [], Unset, regs), 1, InPrologue(3, [ThreadLocalV], Unset, regs))
  {
    hide At, Resolve, BigEndian, Leads;
    var s := InPrologue(0, [], Unset, regs);
    assert s.stack[..0] + [ThreadLocalV] == [ThreadLocalV];
    IndexStep(code, es, s, s.Next(0, [ThreadLocalV], 3), GETSTATIC, field);
  }

  lemma GetsArray(code: seq<byte>, es: seq<Entry>, get: u16, regs: Regs)
    requires At(code, 3, [INVOKEVIRTUAL] + BigEndian(get, 2)) && Resolve(es, get) == GetMethod
    ensures Leads(code, es, InPrologue(3, [ThreadLocalV], Unset, regs), 1, InPrologue(6, [ObjectV], Unset, regs))
  {
    hide At, Resolve, BigEndian, Leads;
    var s := InPrologue(3, [ThreadLocalV], Unset, regs);
    assert s.stack[..0] + [ObjectV] == [ObjectV];
    IndexStep(code, es, s, s.Next(1, [ObjectV], 3), INVOKEVIRTUAL, get);
  }

  lemma CastsArray(code: seq<byte>, es: seq<Entry>, array_: u16, regs: Regs)
    requires At(code, 6, [CHECKCAST] + BigEndian(array_, 2)) && Resolve(es, array_) == LongArray
    ensures Leads(code, es, InPrologue(6, [ObjectV], Unset, regs), 1, InPrologue(9, [ArrayV], Unset, regs))
  {
    hide At, Resolve, BigEndian, Leads;
    var s := InPrologue(6, [ObjectV], Unset, regs);
    assert s.stack[..0] + [ArrayV] == [ArrayV];
    IndexStep(code, es, s, s.Next(1, [ArrayV], 3), CHECKCAST, array_);
  }

  lemma KeepsArray(code: seq<byte>, es: seq<Entry>, regs: Regs)
    requires At(code, 9, [ASTORE_1])
    ensures Leads(code, es, InPrologue(9, [ArrayV], Unset, regs), 1, InPrologue(10, [], ArrayV, regs))
  {
    hide At, Leads;
    StoresArrayRef(code, es, InPrologue(9, [ArrayV], Unset, regs), InPrologue(10, [], ArrayV, regs));
  }

  /** The prologue leaves the register array in local 1. */
  lemma PrologueRuns(code: seq<byte>, es: seq<Entry>, field: u16, get: u16, array_: u16, regs: Regs)
    requires At(code, 0, Prologue(field, get, array_))
    requires Resolve(es, field) == RegistersField && Resolve(es, get) == GetMethod && Resolve(es, array_) == LongArray
    ensures Jvm.Run(code, es, Entered(regs), 4) == Running(State(10, [], ArrayV, Unset, regs))
  {
    hide Jvm.Step, Jvm.Run, Resolve, BigEndian, At, Prologue, Leads;
    PrologueParts(code, field, get, array_);
    LoadsThreadLocal(code, es, field, regs);
    GetsArray(code, es, get, regs);
    CastsArray(code, es, array_, regs);
    KeepsArray(code, es, regs);
    var s, t := InPrologue(0, [], Unset, regs), InPrologue(10, [], ArrayV, regs);
    LeadsThen(code, es, s, 1, InPrologue(3, [ThreadLocalV], Unset, regs), 1, InPrologue(6, [ObjectV], Unset, regs));
    LeadsThen(code, es, s, 2, InPrologue(6, [ObjectV], Unset, regs), 1, InPrologue(9, [ArrayV], Unset, regs));
    LeadsThen(code, es, s, 3, InPrologue(9, [ArrayV], Unset, regs), 1, t);
    LeadsTo(code, es, s, 4, t);
  }

  lemma StoresArrayRef(code: seq<byte>, es: seq<Entry>, s: State, t: State)
    requires At(code, s.pc, [ASTORE_1]) && s.Top(0) == ArrayV && t == s.Next(1, [], 1).(local1 := ArrayV)
    ensures Leads(code, es, s, 1, t)
  {
    hide Decode;
    OpcodesAgree();
    AtByte(code, s.pc, [ASTORE_1], 0);
    LeadsStep(code, es, s, t);
  }

  lemma IndexStep(code: seq<byte>, es: seq<Entry>, s: State, t: State, op: byte, index: u16)
    requires At(code, s.pc, [op] + BigEndian(index, 2))
    requires || (op == GETSTATIC && Resolve(es, index) == RegistersField && t == s.Next(0, [ThreadLocalV], 3))
             || (op == INVOKEVIRTUAL && Resolve(es, index) == GetMethod && s.Top(0) == ThreadLocalV
                 && t == s.Next(1, [ObjectV], 3))
             || (op == CHECKCAST && Resolve(es, index) == LongArray && s.Top(0) == ObjectV
                 && t == s.Next(1, [ArrayV], 3))
    ensures Leads(code, es, s, 1, t)
  {
    hide Resolve, BigEndian, Index2, Decode, At, Leads;
    OpcodesAgree();
    IndexReads(code, s.pc, op, index);
    LeadsStep(code, es, s, t);
  }

  /** What the prologue's three indices must stand for. */
  ghost predicate PrologueMeans(es: seq<Entry>, p: seq<byte>) {
    exists field: u16, get: u16, array_: u16 :: p == Prologue(field, get, array_)
      && Resolve(es, field) == RegistersField && Resolve(es, get) == GetMethod && Resolve(es, array_) == LongArray
  }

  ghost predicate HaltsWith(reading: Reading, w: Width, ir: seq<Element>, regs: Regs, final: Regs) {
    exists n :: Halted(ir, RiscV.Steps(reading, w, ir, Start(ir, regs), n))
      && RiscV.Steps(reading, w, ir, Start(ir, regs), n).regs == final
  }

  ghost predicate ReturnsWith(code: seq<byte>, es: seq<Entry>, regs: Regs, final: Regs) {
    exists m :: Jvm.Run(code, es, Entered(regs), m) == Returned(final)
  }

  lemma EnteredAgrees(pool: Pool, ir: seq<Element>, p: seq<byte>, es: seq<Entry>, regs: Regs, n: nat) returns (m: nat)
    requires Compilable(pool, ir) && Numbers(pool, es) && PrologueMeans(es, p) && regs[0] == 0
    ensures var g := RiscV.Steps(AsEmitted, RV64, ir, Start(ir, regs), n);
            var r := Jvm.Run(Assemble(pool, ir, p), es, Entered(regs), m);
            if Halted(ir, g) then r == Returned(g.regs) else r.Running? && m >= n
  {
    hide Jvm.Step, RiscV.Step, RiscV.Steps, Numbers, Cost, RunCost, Assemble, Resolve, Prologue, Skip;
    hide UniqueLabels, ClosedLabels, AllEmit, TargetsHaveCode, Fits, Jvm.Run;
    var field: u16, get: u16, array_: u16 :| p == Prologue(field, get, array_)
      && Resolve(es, field) == RegistersField && Resolve(es, get) == GetMethod && Resolve(es, array_) == LongArray;
    var code := Assemble(pool, ir, p);
    var h := Start(ir, regs);
    var s0 := State(10, [], ArrayV, Unset, regs);
    AssembleEnds(pool, ir, p);
    PrologueRuns(code, es, field, get, array_, regs);
    SkipOffset(ir, 0);
    RunsAgree(pool, ir, p, es, s0, h, n);
    var g := RiscV.Steps(AsEmitted, RV64, ir, h, n);
    m := 4 + RunCost(ir, h, n);
    Jvm.RunAdd(code, es, Entered(regs), 4, RunCost(ir, h, n));
    if Halted(ir, g) {
      ReturnRuns(code, es, Jvm.Run(code, es, Entered(regs), m).st);
      Jvm.RunAdd(code, es, Entered(regs), m, 1);
      m := m + 1;
    }
  }

  lemma ReturnRuns(code: seq<byte>, es: seq<Entry>, s: State)
    requires s.pc < |code| && code[s.pc] == RETURN
    ensures Jvm.Run(code, es, Running(s), 1) == Returned(s.regs)
  {
    hide Decode;
    OpcodesAgree();
    assert Jvm.Run(code, es, Running(s), 1) == Jvm.Run(code, es, Jvm.Step(code, es, s), 0);
  }

  /** Compiler correctness: main returns with some registers exactly when the program ends with them. */
  lemma MainIsCorrect(pool: Pool, ir: seq<Element>, p: seq<byte>, es: seq<Entry>, regs: Regs, final: Regs)
    requires Compilable(pool, ir) && Numbers(pool, es) && PrologueMeans(es, p) && regs[0] == 0
    ensures HaltsWith(AsEmitted, RV64, ir, regs, final) <==> ReturnsWith(Assemble(pool, ir, p), es, regs, final)
  {
    hide Jvm.Run, Jvm.Step, RiscV.Steps, Compilable, Numbers, Assemble, PrologueMeans;
    var code := Assemble(pool, ir, p);
    if HaltsWith(AsEmitted, RV64, ir, regs, final) {
      var n :| Halted(ir, RiscV.Steps(AsEmitted, RV64, ir, Start(ir, regs), n))
        && RiscV.Steps(AsEmitted, RV64, ir, Start(ir, regs), n).regs == final;
      var m := EnteredAgrees(pool, ir, p, es, regs, n);
    }
    if ReturnsWith(code, es, regs, final) {
      var m :| Jvm.Run(code, es, Entered(regs), m) == Returned(final);
      var k := EnteredAgrees(pool, ir, p, es, regs, m);
      if k <= m {
        Jvm.RunStays(code, es, Entered(regs), k, m);
      } else {
        Jvm.RunStays(code, es, Entered(regs), m, k);
      }
    }
  }

  /** Main never gets stuck, whether the program ends or not. */
  lemma MainNeverStuck(pool: Pool, ir: seq<Element>, p: seq<byte>, es: seq<Entry>, regs: Regs, k: nat)
    requires Compilable(pool, ir) && Numbers(pool, es) && PrologueMeans(es, p) && regs[0] == 0
    ensures !Jvm.Run(Assemble(pool, ir, p), es, Entered(regs), k).Stuck?
  {
    hide Jvm.Run, Jvm.Step, RiscV.Steps, Compilable, Numbers, Assemble, PrologueMeans;
    var code := Assemble(pool, ir, p);
    var m := EnteredAgrees(pool, ir, p, es, regs, k);
    if !Jvm.Run(code, es, Entered(regs), k).Running? && k <= m {
      Jvm.RunStays(code, es, Entered(regs), k, m);
    } else if m < k {
      Jvm.RunStays(code, es, Entered(regs), m, k);
    }
  }
}
