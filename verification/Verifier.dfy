/** Type checking of a method with its stack map table (section 4.10.1 of the JVM Specification SE8), for the
    instructions the generator emits. Local 0 holds the arguments of main and is never touched. */
module Verifier {
  import opened Words
  import opened Opcodes
  import opened Constants
  import opened ClassFile
  import opened Jvm

  /** TNew is an object that the NEW at a position made and no constructor has seen. */
  datatype Type = TInt | TLong | TArray | TThreadLocal | TObject | TTop | TNew(at: nat)

  /** The types of local 1, of locals 2 and 3, and of the operand stack. */
  datatype Typing = Typing(local1: Type, local2: Type, stack: seq<Type>)

  /** No typing: the instruction before was a jump. */
  datatype Flow = After(typing: Typing) | AfterGoto

  datatype Typed =
    | Falls(typing: Typing, size: nat)
    | Branches(target: int, typing: Typing, size: nat)
    | Leaves(target: int, typing: Typing, size: nat)
    | Ends(size: nat)
    | IllTyped

  function Words_(stack: seq<Type>): nat {
    if stack == [] then 0 else Words_(stack[..|stack| - 1]) + (if stack[|stack| - 1] == TLong then 2 else 1)
  }

  /** `t` with `pops` taken off the stack and `pushes` put on it. */
  function Change(t: Typing, pops: seq<Type>, pushes: seq<Type>, size: nat): (r: Typed)
    ensures r.IllTyped? || (r.Falls? && r.size == size)
  {
    var n := |t.stack| - |pops|;
    if n >= 0 && t.stack[n..] == pops then Falls(t.(stack := t.stack[..n] + pushes), size) else IllTyped
  }

  function TypeSimple(code: seq<byte>, es: seq<Entry>, pc: nat, t: Typing): Typed
    requires pc < |code|
  {
    var op := Decode(code[pc]);
    if op == Aload1 then (if t.local1 == TArray then Change(t, [], [TArray], 1) else IllTyped)
    else if op == Astore1 then
      var r := Change(t, [TArray], [], 1);
      if r.Falls? then Falls(r.typing.(local1 := TArray), 1) else IllTyped
    else if op == Lload2 then (if t.local2 == TLong then Change(t, [], [TLong], 1) else IllTyped)
    else if op == Lstore2 then
      var r := Change(t, [TLong], [], 1);
      if r.Falls? then Falls(r.typing.(local2 := TLong), 1) else IllTyped
    else if op == Bipush then Change(t, [], [TInt], 2)
    else if op == Laload then Change(t, [TArray, TInt], [TLong], 1)
    else if op == Lastore then Change(t, [TArray, TInt, TLong], [], 1)
    else if op == Pop2 then Change(t, [TLong], [], 1)
    else if op == Ladd then Change(t, [TLong, TLong], [TLong], 1)
    else if op == Lcmp then Change(t, [TLong, TLong], [TInt], 1)
    else if op == I2l then Change(t, [TInt], [TLong], 1)
    else if op == LdcW then (if Resolve(es, Index2(code, pc)).Number? then Change(t, [], [TInt], 3) else IllTyped)
    else if op == Getstatic
         then (if Resolve(es, Index2(code, pc)) == RegistersField then Change(t, [], [TThreadLocal], 3) else IllTyped)
    else if op == Invokevirtual
         then (if Resolve(es, Index2(code, pc)) == GetMethod then Change(t, [TThreadLocal], [TObject], 3)
               else TypeSet(code, es, pc, t))
    else if op == Checkcast
         then (if Resolve(es, Index2(code, pc)) == LongArray then Change(t, [TObject], [TArray], 3) else IllTyped)
    else TypeObject(code, es, pc, t)
  }

  predicate IsReference(t: Type) {
    t == TArray || t == TThreadLocal || t == TObject
  }

  /** ThreadLocal.set takes any reference. */
  function TypeSet(code: seq<byte>, es: seq<Entry>, pc: nat, t: Typing): Typed {
    var n := |t.stack|;
    if && Resolve(es, Index2(code, pc)) == SetMethod && n >= 2
       && t.stack[n - 2] == TThreadLocal && IsReference(t.stack[n - 1])
    then Falls(t.(stack := t.stack[..n - 2]), 3) else IllTyped
  }

  function AfterInit(x: Type, at: nat): Type {
    if x == TNew(at) then TThreadLocal else x
  }

  /** The instructions of the class initializer. */
  function TypeObject(code: seq<byte>, es: seq<Entry>, pc: nat, t: Typing): Typed
    requires pc < |code|
  {
    var op, n := Decode(code[pc]), |t.stack|;
    if op == Sipush then Change(t, [], [TInt], 3)
    else if op == New then
      if Resolve(es, Index2(code, pc)) == ThreadLocalClass && TNew(pc) !in t.stack then Change(t, [], [TNew(pc)], 3)
      else IllTyped
    else if op == Dup then
      if n > 0 && t.stack[n - 1] != TLong then Falls(t.(stack := t.stack + [t.stack[n - 1]]), 1) else IllTyped
    else if op == Invokespecial then
      if Resolve(es, Index2(code, pc)) == InitMethod && n > 0 && t.stack[n - 1].TNew? then
        var at := t.stack[n - 1].at;
        Falls(Typing(AfterInit(t.local1, at), AfterInit(t.local2, at),
                     seq(n - 1, i requires 0 <= i < n - 1 => AfterInit(t.stack[i], at))), 3)
      else IllTyped
    else if op == Putstatic then
      if Resolve(es, Index2(code, pc)) == RegistersField then Change(t, [TThreadLocal], [], 3)
      else if Resolve(es, Index2(code, pc)) == MemoryField then Change(t, [TArray], [], 3)
      else IllTyped
    else if op == Newarray then
      if pc + 1 < |code| && code[pc + 1] == 11 then Change(t, [TInt], [TArray], 2) else IllTyped
    else IllTyped
  }

  function TypeStep(code: seq<byte>, es: seq<Entry>, pc: nat, t: Typing): Typed
    requires pc < |code|
  {
    var op := Decode(code[pc]);
    if op == Ifeq || op == Ifgt then
      var r := Change(t, [TInt], [], 3);
      if r.Falls? then Branches(pc + Signed(Operand(code, pc + 1, 2)), r.typing, 3) else IllTyped
    else if op == GotoW then Leaves(pc + Signed(Operand(code, pc + 1, 4)), t, 5)
    else if op == Return then Ends(1)
    else TypeSimple(code, es, pc, t)
  }

  predicate TypeFits(a: Type, b: Type) {
    a == b || b == TTop
  }

  predicate Fits_(t: Typing, u: Typing) {
    TypeFits(t.local1, u.local1) && TypeFits(t.local2, u.local2) && t.stack == u.stack
  }

  /** A jump must go to a recorded frame that accepts the typing. */
  predicate Accepts(table: map<int, Typing>, target: int, t: Typing) {
    target in table && Fits_(t, table[target])
  }

  ghost predicate NoFrameInside(table: map<int, Typing>, pc: nat, size: nat) {
    forall k :: pc < k < pc + size ==> k !in table
  }

  /** The instruction at `pc` and all that follow it are type safe, `t` being the typing before it. */
  ghost predicate CheckInstruction(code: seq<byte>, es: seq<Entry>, table: map<int, Typing>, maxStack: nat, pc: nat,
                                   t: Typing)
    decreases |code| - pc, 0
  {
    pc < |code| &&
    match TypeStep(code, es, pc, t)
    case Falls(u, n) => n > 0 && Words_(u.stack) <= maxStack && NoFrameInside(table, pc, n)
        && CheckFrom(code, es, table, maxStack, pc + n, After(u))
    case Branches(target, u, n) =>
      && n > 0 && NoFrameInside(table, pc, n) && Accepts(table, target, u)
      && CheckFrom(code, es, table, maxStack, pc + n, After(u))
    case Leaves(target, u, n) =>
      n > 0 && NoFrameInside(table, pc, n) && Accepts(table, target, u)
          && CheckFrom(code, es, table, maxStack, pc + n, AfterGoto)
    case Ends(n) => n > 0 && NoFrameInside(table, pc, n) && CheckFrom(code, es, table, maxStack, pc + n, AfterGoto)
    case IllTyped => false
  }

  /** At a recorded frame the flow must fit it and the frame counts from there on; after a jump there must
      be a frame; the code must not end by falling off. */
  ghost predicate CheckFrom(code: seq<byte>, es: seq<Entry>, table: map<int, Typing>, maxStack: nat, pc: nat,
                            flow: Flow)
    decreases |code| - pc, 1
  {
    if pc >= |code| then pc == |code| && flow.AfterGoto?
    else if pc in table then
      (flow.After? ==> Fits_(flow.typing, table[pc])) && CheckInstruction(code, es, table, maxStack, pc, table[pc])
    else flow.After? && CheckInstruction(code, es, table, maxStack, pc, flow.typing)
  }

  // ----- the stack map table -----

  function TypeOf(es: seq<Entry>, t: TypeInfo): Type {
    match t
    case LongType => TLong
    case ObjectType(c) => if Resolve(es, c) == LongArray then TArray else TObject
  }

  /** The locals after local 0 that frame `i` describes. */
  function LocalsAt(es: seq<Entry>, fs: seq<Frame>, i: nat): seq<Type>
    requires i < |fs|
  {
    var before := if i == 0 then [] else LocalsAt(es, fs, i - 1);
    match fs[i]
    case SameExtended(_) => before
    case AppendFrame(_, ts) => before + seq(|ts|, k requires 0 <= k < |ts| => TypeOf(es, ts[k]))
  }

  /** A typing from listed locals; more than local 1 and the long in locals 2 and 3 is not described here. */
  function TypingOf(locals: seq<Type>): Typing {
    Typing(if |locals| > 0 then locals[0] else TTop, if |locals| > 1 then locals[1] else TTop, [])
  }

  function DeltaOf(f: Frame): u16 {
    f.delta
  }

  /** Section 4.7.4: where frame `i` applies. */
  function OffsetAt(fs: seq<Frame>, i: nat): nat
    requires i < |fs|
  {
    if i == 0 then DeltaOf(fs[0]) else OffsetAt(fs, i - 1) + DeltaOf(fs[i]) + 1
  }

  function TableTo(es: seq<Entry>, fs: seq<Frame>, n: nat): map<int, Typing>
    requires n <= |fs|
  {
    if n == 0 then map[] else TableTo(es, fs, n - 1)[OffsetAt(fs, n - 1) := TypingOf(LocalsAt(es, fs, n - 1))]
  }

  // ----- instructions and locals -----

  /** The bytes of an instruction with opcode `op`. */
  function Length(op: Opcode): (n: nat)
    ensures n > 0
  {
    match op
    case Bipush | Newarray => 2
    case LdcW | Sipush | Ifeq | Ifgt | Getstatic | Putstatic | Invokevirtual | Invokespecial | New | Checkcast => 3
    case GotoW => 5
    case _ => 1
  }

  /** Going from instruction to instruction, position `a` leads to position `k`. */
  predicate Walks(code: seq<byte>, a: nat, k: nat)
    decreases |code| - a
  {
    a == k || (a < |code| && a < k && Walks(code, a + Length(Decode(code[a])), k))
  }

  /** An instruction starts at `k`. */
  predicate Starts(code: seq<byte>, k: nat) {
    k < |code| && Walks(code, 0, k)
  }

  lemma ObjectLength(code: seq<byte>, es: seq<Entry>, pc: nat, t: Typing)
    requires pc < |code| && TypeObject(code, es, pc, t).Falls?
    ensures TypeObject(code, es, pc, t).size == Length(Decode(code[pc]))
  {
    hide Resolve, Decode, Change;
  }

  lemma Lengths()
    ensures Length(Aload1) == Length(Astore1) == Length(Lload2) == Length(Lstore2) == Length(Laload) == 1
    ensures Length(Lastore) == Length(Pop2) == Length(Ladd) == Length(Lcmp) == Length(I2l) == 1
    ensures Length(Bipush) == 2 && Length(LdcW) == Length(Getstatic) == Length(Invokevirtual) == Length(Checkcast) == 3
  {
  }

  lemma SimpleLength(code: seq<byte>, es: seq<Entry>, pc: nat, t: Typing)
    requires pc < |code| && TypeSimple(code, es, pc, t).Falls?
    ensures TypeSimple(code, es, pc, t).size == Length(Decode(code[pc]))
  {
    hide Resolve, Decode, TypeObject, Change, Length;
    Lengths();
    if TypeObject(code, es, pc, t).Falls? {
      ObjectLength(code, es, pc, t);
    }
  }

  lemma OnlyFalls(code: seq<byte>, es: seq<Entry>, pc: nat, t: Typing)
    requires pc < |code|
    ensures TypeSimple(code, es, pc, t).Falls? || TypeSimple(code, es, pc, t).IllTyped?
  {
    hide Resolve, Decode, Change;
  }

  /** Type checking and walking agree on where the next instruction starts. */
  lemma StepLength(code: seq<byte>, es: seq<Entry>, pc: nat, t: Typing)
    requires pc < |code| && !TypeStep(code, es, pc, t).IllTyped?
    ensures TypeStep(code, es, pc, t).size == Length(Decode(code[pc]))
  {
    hide Resolve, Decode, TypeSimple;
    OnlyFalls(code, es, pc, t);
    if TypeSimple(code, es, pc, t).Falls? {
      SimpleLength(code, es, pc, t);
    }
  }

  /** How many locals must exist for an instruction, longs taking two. */
  function LocalsUsed(op: Opcode): nat {
    if op == Aload1 || op == Astore1 then 2 else if op == Lload2 || op == Lstore2 then 4 else 0
  }

  /** The arguments, the locals of every instruction, and the locals of every frame exist. */
  ghost predicate LocalsFit(code: seq<byte>, es: seq<Entry>, fs: seq<Frame>, args: nat, maxLocals: nat) {
    && args <= maxLocals
    && (forall k: nat :: Starts(code, k) ==> LocalsUsed(Decode(code[k])) <= maxLocals)
    && (forall i: nat :: i < |fs| ==> args + Words_(LocalsAt(es, fs, i)) <= maxLocals)
  }

  /** The static method with `args` words of arguments is type safe: its locals fit, every frame lies in the code, and
      the code checks from its first instruction. */
  ghost predicate Verifies(code: seq<byte>, es: seq<Entry>, fs: seq<Frame>, maxStack: nat, args: nat,
                           maxLocals: nat) {
    var table := TableTo(es, fs, |fs|);
    && LocalsFit(code, es, fs, args, maxLocals)
    && (forall k :: k in table ==> 0 <= k < |code|)
    && CheckFrom(code, es, table, maxStack, 0, After(Typing(TTop, TTop, [])))
  }
}
