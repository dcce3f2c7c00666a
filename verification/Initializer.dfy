/** Running the class initializer: it leaves a ThreadLocal with a zeroed long array for the registers, and a zeroed
    long array for the memory. */
module Initializer {
  import opened Words
  import opened Constants
  import opened Opcodes
  import opened Jvm

  /** A number, a long array with its content, or a ThreadLocal. */
  datatype Item = IntI(i: int) | LongsI(content: seq<int>) | LocalI(id: nat)

  /** `made` ThreadLocals exist, `held` is what they hold, `statics` the static fields set so far. */
  datatype Machine = Machine(pc: nat, stack: seq<Item>, made: nat, held: map<nat, Item>, statics: map<Meaning, Item>)
  {
    function Next(n: nat, more: seq<Item>, size: nat): Machine
      requires n <= |stack|
    {
      this.(pc := pc + size, stack := stack[..|stack| - n] + more)
    }

    function Top(): Item
      requires stack != []
    {
      stack[|stack| - 1]
    }
  }

  datatype Progress = Going(m: Machine) | Done(m: Machine) | Failed

  function Zeroed(n: nat): seq<int> {
    seq(n, _ => 0)
  }

  /** A static field of the class takes a value of its type. */
  predicate Storable(f: Meaning, x: Item) {
    (f == RegistersField && x.LocalI?) || (f == MemoryField && x.LongsI?)
  }

  /** The instructions of the initializer, by section 6.5 of the JVM Specification SE8. */
  function Step(code: seq<byte>, es: seq<Entry>, m: Machine): Progress {
    if m.pc >= |code| then Failed else
    match Decode(code[m.pc])
    case New =>
      if Resolve(es, Index2(code, m.pc)) != ThreadLocalClass then Failed
      else Going(m.Next(0, [LocalI(m.made)], 3).(made := m.made + 1))
    case Dup => if m.stack == [] then Failed else Going(m.Next(0, [m.Top()], 1))
    case Invokespecial =>
      if Resolve(es, Index2(code, m.pc)) == InitMethod && m.stack != [] && m.Top().LocalI? then Going(m.Next(1, [], 3))
      else Failed
    case Putstatic =>
      var f := Resolve(es, Index2(code, m.pc));
      if m.stack != [] && Storable(f, m.Top()) then Going(m.Next(1, [], 3).(statics := m.statics[f := m.Top()]))
      else Failed
    case Getstatic =>
      var f := Resolve(es, Index2(code, m.pc));
      if f in m.statics then Going(m.Next(0, [m.statics[f]], 3)) else Failed
    case Bipush => if m.pc + 1 < |code| then Going(m.Next(0, [IntI(SignedByte(code[m.pc + 1]))], 2)) else Failed
    case Sipush => Going(m.Next(0, [IntI(Signed(Operand(code, m.pc + 1, 2)))], 3))
    case Newarray =>
      if m.pc + 1 < |code| && code[m.pc + 1] == 11 && m.stack != [] && m.Top().IntI? && m.Top().i >= 0
      then Going(m.Next(1, [LongsI(Zeroed(m.Top().i))], 2)) else Failed
    case Invokevirtual =>
      var n := |m.stack|;
      if Resolve(es, Index2(code, m.pc)) == SetMethod && n >= 2 && m.stack[n - 2].LocalI? && !m.Top().IntI?
      then Going(m.Next(2, [], 3).(held := m.held[m.stack[n - 2].id := m.Top()])) else Failed
    case Return => Done(m)
    case _ => Failed
  }

  function Run(code: seq<byte>, es: seq<Entry>, p: Progress, n: nat): Progress
    decreases n
  {
    if n == 0 || !p.Going? then p else Run(code, es, Step(code, es, p.m), n - 1)
  }

  const Fresh := Going(Machine(0, [], 0, map[], map[]))

  /** The long array that ThreadLocal.get finds behind the static field `registers`. */
  function Registers(m: Machine): seq<int> {
    if RegistersField in m.statics && m.statics[RegistersField].LocalI? && m.statics[RegistersField].id in m.held
       && m.held[m.statics[RegistersField].id].LongsI?
    then m.held[m.statics[RegistersField].id].content else []
  }

  /** The initializer ends with these registers and 1024 zeroed longs of memory. */
  ghost predicate Prepares(code: seq<byte>, es: seq<Entry>, regs: seq<int>) {
    exists n :: Prepared(Run(code, es, Fresh, n), regs)
  }

  predicate Prepared(p: Progress, regs: seq<int>) {
    && p.Done? && Registers(p.m) == regs
    && MemoryField in p.m.statics && p.m.statics[MemoryField] == LongsI(Zeroed(1024))
  }
}
