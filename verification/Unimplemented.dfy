/** What becomes of three-register instructions other than ADD: the verifier rejects the class. */
module Unimplemented {
  import opened Words
  import opened Ir
  import opened Emission
  import opened Layout
  import opened Patching
  import opened Assembly
  import opened Constants
  import opened ClassFile
  import opened Opcodes
  import opened Simulation
  import opened Verifier
  import opened TypeSafety
  import opened Coverage

  /** Every frame has an empty stack, as all described here have. */
  ghost predicate FramesEmpty(table: map<int, Typing>) {
    forall k :: k in table ==> table[k].stack == []
  }

  lemma {:induction false} TableEmpty(es: seq<Entry>, fs: seq<Frame>, n: nat)
    requires n <= |fs|
    ensures FramesEmpty(TableTo(es, fs, n))
  {
    hide LocalsAt, OffsetAt;
    if n > 0 {
      TableEmpty(es, fs, n - 1);
    }
  }

  /** The instruction at `pc` checks with some typing. */
  ghost predicate Checked(code: seq<byte>, es: seq<Entry>, table: map<int, Typing>, pc: nat) {
    exists t :: CheckInstruction(code, es, table, MaxStack, pc, t)
  }

  lemma HasTyping(code: seq<byte>, es: seq<Entry>, table: map<int, Typing>, pc: nat, f: Flow)
    requires CheckFrom(code, es, table, MaxStack, pc, f) && pc < |code|
    ensures Checked(code, es, table, pc)
  {
    hide CheckInstruction;
  }

  /** Checking goes on with the next instruction. */
  lemma GoesOn(code: seq<byte>, es: seq<Entry>, table: map<int, Typing>, pc: nat) returns (f: Flow)
    requires Checked(code, es, table, pc)
    ensures pc < |code| && CheckFrom(code, es, table, MaxStack, pc + Length(Decode(code[pc])), f)
  {
    hide TypeStep, CheckFrom, Decode;
    var t :| CheckInstruction(code, es, table, MaxStack, pc, t);
    StepLength(code, es, pc, t);
    match TypeStep(code, es, pc, t) {
      case Falls(u, _) => f := After(u);
      case Branches(_, u, _) => f := After(u);
      case _ => f := AfterGoto;
    }
  }

  /** Every instruction of the method is checked, wherever the walk through the code leads. */
  lemma {:induction false} AllChecked(code: seq<byte>, es: seq<Entry>, table: map<int, Typing>, a: nat, f: Flow, k: nat)
    requires CheckFrom(code, es, table, MaxStack, a, f) && Walks(code, a, k) && k < |code|
    ensures Checked(code, es, table, k)
    decreases |code| - a
  {
    hide CheckFrom, Decode, Checked;
    HasTyping(code, es, table, a, f) by { WalkForward(code, a, k); }
    if a != k {
      var g := GoesOn(code, es, table, a);
      AllChecked(code, es, table, a + Length(Decode(code[a])), g, k);
    }
  }

  /** An instruction that leaves something on the stack. */
  lemma Follow(code: seq<byte>, es: seq<Entry>, table: map<int, Typing>, pc: nat, t: Typing, u: Typing, n: nat)
    requires CheckInstruction(code, es, table, MaxStack, pc, t) && pc < |code|
    requires TypeStep(code, es, pc, t) == Falls(u, n) || TypeStep(code, es, pc, t).IllTyped?
    requires FramesEmpty(table) && u.stack != []
    ensures Words_(u.stack) <= MaxStack && TypeStep(code, es, pc, t) == Falls(u, n)
    ensures CheckInstruction(code, es, table, MaxStack, pc + n, u)
  {
    hide TypeStep, Words_, CheckFrom;
    assert CheckFrom(code, es, table, MaxStack, pc + n, After(u));
    Held(code, es, table, pc + n, u);
  }

  lemma Held(code: seq<byte>, es: seq<Entry>, table: map<int, Typing>, pc: nat, u: Typing)
    requires CheckFrom(code, es, table, MaxStack, pc, After(u)) && FramesEmpty(table) && u.stack != []
    ensures CheckInstruction(code, es, table, MaxStack, pc, u)
  {
    hide CheckInstruction;
  }

  lemma MayLoadArray(code: seq<byte>, es: seq<Entry>, pc: nat, t: Typing)
    requires pc < |code| && Decode(code[pc]) == Aload1
    ensures var r := TypeStep(code, es, pc, t);
            r.IllTyped? || (t.local1 == TArray && r == Falls(t.(stack := t.stack + [TArray]), 1))
  {
    hide Decode;
    assert t.stack[|t.stack|..] == [] && t.stack[..|t.stack|] == t.stack;
  }

  lemma MayStoreLong(code: seq<byte>, es: seq<Entry>, pc: nat, t: Typing, rest: seq<Type>)
    requires pc < |code| && Decode(code[pc]) == Lstore2 && t.stack == rest + [TLong]
    ensures TypeStep(code, es, pc, t) == Falls(t.(stack := rest, local2 := TLong), 1)
  {
    hide Decode;
    assert t.stack[|rest|..] == [TLong] && t.stack[..|rest|] + [] == rest;
  }

  lemma MayLoadLong(code: seq<byte>, es: seq<Entry>, pc: nat, t: Typing)
    requires pc < |code| && Decode(code[pc]) == Lload2 && t.local2 == TLong
    ensures TypeStep(code, es, pc, t) == Falls(t.(stack := t.stack + [TLong]), 1)
  {
    hide Decode;
    assert t.stack[|t.stack|..] == [] && t.stack[..|t.stack|] == t.stack;
  }

  /** Loading a register leaves one long more. */
  lemma LoadFollows(code: seq<byte>, es: seq<Entry>, table: map<int, Typing>, pc: nat, t: Typing, r: Reg)
    requires CheckInstruction(code, es, table, MaxStack, pc, t) && At(code, pc, LoadRegister(r)) && FramesEmpty(table)
    ensures t.local1 == TArray && CheckInstruction(code, es, table, MaxStack, pc + 4, t.(stack := t.stack + [TLong]))
  {
    hide Decode, CheckInstruction, TypeStep, FramesEmpty, Words_;
    OpcodesAgree();
    AtByte(code, pc, LoadRegister(r), 0);
    AtByte(code, pc, LoadRegister(r), 1);
    AtByte(code, pc, LoadRegister(r), 3);
    var t1 := t.(stack := t.stack + [TArray]);
    var t2 := t.(stack := t.stack + [TArray] + [TInt]);
    assert t2.stack == t.stack + [TArray, TInt];
    MayLoadArray(code, es, pc, t);
    Follow(code, es, table, pc, t, t1, 1);
    TypePush(code, es, pc + 1, t1);
    Follow(code, es, table, pc + 1, t1, t2, 2);
    TypeLoadElement(code, es, pc + 3, t2, t.stack);
    Follow(code, es, table, pc + 3, t2, t.(stack := t.stack + [TLong]), 1);
  }

  /** Storing the second of two longs needs six words of stack. */
  lemma StoreFails(code: seq<byte>, es: seq<Entry>, table: map<int, Typing>, pc: nat, t: Typing, rest: seq<Type>,
                   rd: Reg)
    requires At(code, pc, StoreRegister(rd)) && rd != 0 && FramesEmpty(table) && t.stack == rest + [TLong] + [TLong]
    ensures !CheckInstruction(code, es, table, MaxStack, pc, t)
  {
    hide Decode, CheckInstruction, TypeStep, FramesEmpty, Words_;
    if CheckInstruction(code, es, table, MaxStack, pc, t) {
      OpcodesAgree();
      var bytes := StoreRegister(rd);
      AtByte(code, pc, bytes, 0);
      AtByte(code, pc, bytes, 1);
      AtByte(code, pc, bytes, 2);
      AtByte(code, pc, bytes, 4);
      var s := rest + [TLong];
      var t1 := t.(stack := s, local2 := TLong);
      var t2 := t1.(stack := s + [TArray]);
      var t3 := t1.(stack := s + [TArray] + [TInt]);
      var t4 := t1.(stack := s + [TArray] + [TInt] + [TLong]);
      MayStoreLong(code, es, pc, t, s);
      Follow(code, es, table, pc, t, t1, 1);
      MayLoadArray(code, es, pc + 1, t1);
      Follow(code, es, table, pc + 1, t1, t2, 1);
      TypePush(code, es, pc + 2, t2);
      Follow(code, es, table, pc + 2, t2, t3, 2);
      MayLoadLong(code, es, pc + 4, t3);
      Follow(code, es, table, pc + 4, t3, t4, 1);
      SixWords(rest);
      assert false;
    }
  }

  lemma SixWords(rest: seq<Type>)
    ensures Words_(rest + [TLong] + [TArray] + [TInt] + [TLong]) >= 6
  {
    hide Words_;
    WordsPush(rest, TLong);
    WordsPush(rest + [TLong], TArray);
    WordsPush(rest + [TLong] + [TArray], TInt);
    WordsPush(rest + [TLong] + [TArray] + [TInt], TLong);
  }

  /** An unimplemented three-register instruction with a target. */
  predicate Unfinished(e: Element) {
    e.Instr? && e.ins.R3? && e.ins.mnemonic != ADD && e.ins.rd != 0
  }

  lemma UnfinishedFails(code: seq<byte>, es: seq<Entry>, table: map<int, Typing>, pc: nat, pool: Pool, e: Element,
                        d: int)
    requires Unfinished(e) && At(code, pc, Code(pool, e, d)) && FramesEmpty(table)
    ensures !Checked(code, es, table, pc)
  {
    hide At, LoadRegister, StoreRegister, FramesEmpty, CheckInstruction;
    var R3(_, rd, rs1, rs2) := e.ins;
    var x, y, z := LoadRegister(rs1), LoadRegister(rs2), StoreRegister(rd);
    FragmentSizes(rs1, rs2, rd);
    assert x + y + [] + z == x + y + z;
    AtParts(code, pc, x + y, z);
    AtParts(code, pc, x, y);
    forall t | CheckInstruction(code, es, table, MaxStack, pc, t) ensures false {
      LoadFollows(code, es, table, pc, t, rs1);
      LoadFollows(code, es, table, pc + 4, t.(stack := t.stack + [TLong]), rs2);
      StoreFails(code, es, table, pc + 8, t.(stack := t.stack + [TLong] + [TLong]), t.stack, rd);
    }
  }

  /** Whatever its frames are, main of such a program is not type safe. */
  lemma UnfinishedRejected(pool: Pool, ir: seq<Element>, p: seq<byte>, es: seq<Entry>, fs: seq<Frame>, i: nat)
    requires Translatable(pool, ir) && IsPrologue(p) && i < |ir| && Unfinished(ir[i])
    ensures !Verifies(Assemble(pool, ir, p), es, fs, MaxStack, 1, MaxLocals)
  {
    hide Translatable, IsPrologue, Offset, CheckFrom, Code, At, Walks, Checked, LocalsFit, TableTo, FramesEmpty;
    hide Assemble, Unfinished, Distance;
    var code, table := Assemble(pool, ir, p), TableTo(es, fs, |fs|);
    TableEmpty(es, fs, |fs|);
    PrologueSize(p);
    OffsetStarts(pool, ir, p, i);
    TranslatableEmits(pool, ir);
    AssembleAt(pool, ir, p, i);
    CodeIsAt(pool, ir, code, i, Distance(ir, i));
    UnfinishedFails(code, es, table, Offset(ir, i), pool, ir[i], Distance(ir, i));
    if CheckFrom(code, es, table, MaxStack, 0, After(Typing(TTop, TTop, []))) {
      AllChecked(code, es, table, 0, After(Typing(TTop, TTop, [])), Offset(ir, i));
    }
  }

  lemma TranslatableEmits(pool: Pool, ir: seq<Element>)
    requires Translatable(pool, ir)
    ensures AllEmit(pool, ir)
  {
  }
}
