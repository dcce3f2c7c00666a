/** The part of the Java virtual machine that runs the emitted main method: it decodes the bytes and
    steps as section 6.5 of the JVM Specification SE8 says. */
module Jvm {
  import opened Words
  import opened Opcodes
  import opened Constants
  import opened RiscV

  datatype Value = IntV(i: int) | LongV(l: int) | ArrayV | ThreadLocalV | ObjectV | Unset

  /** Local 1 and local 2 of the frame; `regs` is the content of the long array behind ArrayV. */
  datatype State = State(pc: nat, stack: seq<Value>, local1: Value, local2: Value, regs: Regs)
  {
    /** Pops `n` values, pushes `vs` and moves on by `size` bytes. */
    function Next(n: nat, vs: seq<Value>, size: nat): State
      requires n <= |stack|
    {
      this.(pc := pc + size, stack := stack[..|stack| - n] + vs)
    }

    /** The value `n` places below the top of the stack. */
    function Top(n: nat): Value {
      if n < |stack| then stack[|stack| - 1 - n] else Unset
    }
  }

  datatype Status = Running(st: State) | Returned(regs: Regs) | Stuck

  const RegistersField := Field("RvRuntime", "registers", "Ljava/lang/ThreadLocal;")
  const GetMethod := Method("java/lang/ThreadLocal", "get", "()Ljava/lang/Object;")
  const LongArray := ClassOf("[J")
  const MemoryField := Field("RvRuntime", "memory", "[J")
  const ThreadLocalClass := ClassOf("java/lang/ThreadLocal")
  const InitMethod := Method("java/lang/ThreadLocal", "<init>", "()V")
  const SetMethod := Method("java/lang/ThreadLocal", "set", "(Ljava/lang/Object;)V")

  /** The `n` bytes after position `pc`, if they are there. */
  function Operand(code: seq<byte>, pc: nat, n: nat): seq<byte> {
    if pc + n <= |code| then code[pc..pc + n] else []
  }

  function Index2(code: seq<byte>, pc: nat): int {
    Unsigned(Operand(code, pc + 1, 2))
  }

  function GoTo(st: State, n: nat, target: int): Status
    requires n <= |st.stack|
  {
    if target < 0 then Stuck else Running(st.Next(n, [], 0).(pc := target))
  }

  function Compare(a: int, b: int): int {
    if a > b then 1 else if a == b then 0 else -1
  }

  /** A byte as a signed number, the operand of BIPUSH. */
  function SignedByte(b: byte): int {
    if b < 128 then b else b - 256
  }

  function StepLoadStore(code: seq<byte>, st: State): Status
    requires st.pc < |code|
  {
    var op := Decode(code[st.pc]);
    if op == Aload1 then
      if st.local1 == Unset then Stuck else Running(st.Next(0, [st.local1], 1))
    else if op == Astore1 then
      if st.Top(0) != ArrayV then Stuck else Running(st.Next(1, [], 1).(local1 := ArrayV))
    else if op == Lload2 then
      if !st.local2.LongV? then Stuck else Running(st.Next(0, [st.local2], 1))
    else if op == Lstore2 then
      if !st.Top(0).LongV? then Stuck else Running(st.Next(1, [], 1).(local2 := st.Top(0)))
    else if op == Bipush then
      if st.pc + 1 >= |code| then Stuck else Running(st.Next(0, [IntV(SignedByte(code[st.pc + 1]))], 2))
    else if op == Laload then
      if st.Top(1) == ArrayV && st.Top(0).IntV? && 0 <= st.Top(0).i < 32 then
        Running(st.Next(2, [LongV(st.regs[st.Top(0).i])], 1))
      else Stuck
    else if op == Lastore then
      if st.Top(2) == ArrayV && st.Top(1).IntV? && 0 <= st.Top(1).i < 32 && st.Top(0).LongV? then
        Running(st.Next(3, [], 1).(regs := st.regs[st.Top(1).i := st.Top(0).l]))
      else Stuck
    else if op == Pop2 then
      if !st.Top(0).LongV? then Stuck else Running(st.Next(1, [], 1))
    else Stuck
  }

  function StepCompute(code: seq<byte>, es: seq<Entry>, st: State): Status
    requires st.pc < |code|
  {
    var op := Decode(code[st.pc]);
    if op == Ladd then
      if st.Top(1).LongV? && st.Top(0).LongV? then Running(st.Next(2, [LongV(Wrap64(st.Top(1).l + st.Top(0).l))], 1))
      else Stuck
    else if op == Lcmp then
      if st.Top(1).LongV? && st.Top(0).LongV? then Running(st.Next(2, [IntV(Compare(st.Top(1).l, st.Top(0).l))], 1))
      else Stuck
    else if op == I2l then
      if st.Top(0).IntV? then Running(st.Next(1, [LongV(st.Top(0).i)], 1)) else Stuck
    else if op == LdcW then
      if Resolve(es, Index2(code, st.pc)).Number?
      then Running(st.Next(0, [IntV(Resolve(es, Index2(code, st.pc)).value)], 3)) else Stuck
    else if op == Getstatic then
      if Resolve(es, Index2(code, st.pc)) == RegistersField then Running(st.Next(0, [ThreadLocalV], 3)) else Stuck
    else if op == Invokevirtual then
      if Resolve(es, Index2(code, st.pc)) == GetMethod && st.Top(0) == ThreadLocalV
      then Running(st.Next(1, [ObjectV], 3)) else Stuck
    else if op == Checkcast then
      if Resolve(es, Index2(code, st.pc)) == LongArray && st.Top(0) == ObjectV then Running(st.Next(1, [ArrayV], 3))
      else Stuck
    else Stuck
  }

  function StepControl(code: seq<byte>, st: State): Status
    requires st.pc < |code|
  {
    var op := Decode(code[st.pc]);
    if op == Ifeq || op == Ifgt then
      if st.Top(0).IntV? then
        if (if op == Ifeq then st.Top(0).i == 0 else st.Top(0).i > 0)
        then GoTo(st, 1, st.pc + Signed(Operand(code, st.pc + 1, 2)))
        else Running(st.Next(1, [], 3))
      else Stuck
    else if op == GotoW then GoTo(st, 0, st.pc + Signed(Operand(code, st.pc + 1, 4)))
    else if op == Return then Returned(st.regs)
    else Stuck
  }

  predicate IsControl(op: Opcode) {
    op == Ifeq || op == Ifgt || op == GotoW || op == Return
  }

  predicate IsCompute(op: Opcode) {
    op == Ladd || op == Lcmp || op == I2l || op == LdcW || op == Getstatic || op == Invokevirtual || op == Checkcast
  }

  function Step(code: seq<byte>, es: seq<Entry>, st: State): Status {
    if st.pc >= |code| then Stuck
    else if IsControl(Decode(code[st.pc])) then StepControl(code, st)
    else if IsCompute(Decode(code[st.pc])) then StepCompute(code, es, st)
    else StepLoadStore(code, st)
  }

  function Run(code: seq<byte>, es: seq<Entry>, s: Status, n: nat): Status
    decreases n
  {
    if n == 0 || !s.Running? then s else Run(code, es, Step(code, es, s.st), n - 1)
  }

  /** The frame in which main starts, after the class initialiser stored a long array in `registers`. */
  function Entered(regs: Regs): Status {
    Running(State(0, [], Unset, Unset, regs))
  }

  lemma {:induction false} RunAdd(code: seq<byte>, es: seq<Entry>, s: Status, m: nat, n: nat)
    ensures Run(code, es, s, m + n) == Run(code, es, Run(code, es, s, m), n)
    decreases m
  {
    hide Step;
    if m > 0 && s.Running? {
      RunAdd(code, es, Step(code, es, s.st), m - 1, n);
    }
  }

  /** A stopped machine stays stopped. */
  lemma RunStays(code: seq<byte>, es: seq<Entry>, s: Status, m: nat, n: nat)
    requires m <= n && !Run(code, es, s, m).Running?
    ensures Run(code, es, s, n) == Run(code, es, s, m)
  {
    hide Step;
    RunAdd(code, es, s, m, n - m);
  }
}
