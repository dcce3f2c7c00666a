/** What the two passes over the IR write: the bytes of the main method, the label offsets, the
    label references and the stack map frame targets, as values that the generator's objects refine. */
module Emission {
  import opened Words
  import opened Ir

  // Opcodes of section 6.5 of the JVM Specification SE8.
  const BIPUSH: byte := 16
  const SIPUSH: byte := 17
  const LDC_W: byte := 19
  const LLOAD_2: byte := 32
  const ALOAD_1: byte := 43
  const LALOAD: byte := 47
  const LSTORE_2: byte := 65
  const ASTORE_1: byte := 76
  const LASTORE: byte := 80
  const POP2: byte := 88
  const DUP: byte := 89
  const LADD: byte := 97
  const I2L: byte := 133
  const LCMP: byte := 148
  const IFEQ: byte := 153
  const IFGT: byte := 157
  const RETURN: byte := 177
  const GETSTATIC: byte := 178
  const PUTSTATIC: byte := 179
  const INVOKEVIRTUAL: byte := 182
  const INVOKESPECIAL: byte := 183
  const NEW: byte := 187
  const NEWARRAY: byte := 188
  const CHECKCAST: byte := 192
  const GOTO_W: byte := 200

  type Pool = map<Key, u16>

  /** Where a GOTO_W and its operand were written, as `uint16_t`. */
  datatype Ref = Ref(opcode: u16, branch: u16)

  datatype Gen = Gen(code: seq<byte>, offsets: map<Key, u16>, refs: map<Key, seq<Ref>>, frames: seq<u16>)
  {
    function Put(bytes: seq<byte>): Gen {
      this.(code := code + bytes)
    }

    function AddFrame(target: int): Gen {
      this.(frames := frames + [ToU16(target)])
    }

    function RefsTo(name: string): seq<Ref> {
      if Str(name) in refs then refs[Str(name)] else []
    }

    function AddRef(name: string, opcode: int, branch: int): Gen {
      this.(refs := refs[Str(name) := RefsTo(name) + [Ref(ToU16(opcode), ToU16(branch))]])
    }

    /** Every recorded operand lies inside the code written so far. */
    ghost predicate InRange() {
      forall k, i :: k in refs && 0 <= i < |refs[k]| ==> refs[k][i].branch + 4 <= |code|
    }

    function SetOffset(name: string, offset: int): Gen {
      this.(offsets := offsets[Str(name) := ToU16(offset)])
    }
  }

  // ----- code of one element -----

  function LoadRegister(r: Reg): seq<byte> {
    [ALOAD_1, BIPUSH, r, LALOAD]
  }

  function StoreRegister(r: Reg): seq<byte> {
    if r == 0 then [POP2] else [LSTORE_2, ALOAD_1, BIPUSH, r, LLOAD_2, LASTORE]
  }

  function LoadConstant(index: u16): seq<byte> {
    [LDC_W] + BigEndian(index, 2) + [I2L]
  }

  function Goto(displacement: int): seq<byte> {
    [GOTO_W] + BigEndian(displacement, 4)
  }

  /** GETSTATIC registers; INVOKEVIRTUAL ThreadLocal.get; CHECKCAST long[]; ASTORE_1 */
  function Prologue(field: u16, method_: u16, array_: u16): (p: seq<byte>)
    ensures |p| == 10
  {
    [GETSTATIC] + BigEndian(field, 2) + [INVOKEVIRTUAL] + BigEndian(method_, 2)
    + [CHECKCAST] + BigEndian(array_, 2) + [ASTORE_1]
  }

  // ----- first pass -----

  function Jump(g: Gen, name: string): (r: Gen)
    ensures r.code == g.code + Goto(0)
    ensures r.offsets == g.offsets && r.frames == g.frames
    ensures g.InRange() ==> r.InRange()
  {
    assert g.code + Goto(0) == g.code + [GOTO_W] + BigEndian(0, 4);
    g.AddRef(name, |g.code|, |g.code| + 1).Put([GOTO_W]).Put(BigEndian(0, 4))
  }

  function Branch(g: Gen, rd: Reg, rs1: Reg, skip: byte, name: string): (r: Gen)
    ensures r.offsets == g.offsets
    ensures g.InRange() ==> r.InRange()
  {
    var g1 := g.Put(LoadRegister(rd)).Put(LoadRegister(rs1)).Put([LCMP]);
    Jump(g1.AddFrame(|g1.code| + 8).Put([skip]).Put(BigEndian(8, 2)), name)
  }

  function EmitInstruction(pool: Pool, ins: Instruction, g: Gen): (r: Result<Gen>)
    ensures r.Ok? ==> r.value.offsets == g.offsets && (g.InRange() ==> r.value.InRange())
  {
    match ins
    case R3(m, rd, rs1, rs2) =>
      var g1 := g.Put(LoadRegister(rs1)).Put(LoadRegister(rs2));
      Ok((if m == ADD then g1.Put([LADD]) else g1).Put(StoreRegister(rd)))
    case R2(ADDI, rd, rs1, Imm(v)) =>
      if Num(v) in pool then
        Ok(g.Put(LoadRegister(rs1)).Put(LoadConstant(pool[Num(v)])).Put([LADD]).Put(StoreRegister(rd)))
      else Err(MissingConstant(Num(v)))
    case R2(BNE, rd, rs1, Label(l)) => Ok(Branch(g, rd, rs1, IFEQ, l))
    case R2(BLT, rd, rs1, Label(l)) => Ok(Branch(g, rd, rs1, IFGT, l))
    case R1(J, _, ULabel(l)) => Ok(Jump(g, l))
    case _ => if UsesWrongOperand(ins) then Err(UndefinedOperand) else Ok(g)
  }

  /** The generator reads the other member of the operand union: the C program is undefined here. */
  predicate UsesWrongOperand(ins: Instruction) {
    match ins
    case R2(m, _, _, op) => (m == ADDI && op.Label?) || ((m == BNE || m == BLT) && op.Imm?)
    case R1(m, _, uop) => m == J && uop.UImm?
    case _ => false
  }

  /** A label gets an offset only when an instruction or the end follows it. */
  predicate TakesOffset(ir: seq<Element>, i: nat)
    requires i < |ir|
  {
    ir[i].LabelDecl? && (i + 1 == |ir| || ir[i + 1].Instr?)
  }

  function EmitElement(pool: Pool, ir: seq<Element>, i: nat, g: Gen): Result<Gen>
    requires i < |ir|
  {
    match ir[i]
    case Instr(ins) => EmitInstruction(pool, ins, g)
    case LabelDecl(l) => Ok(if TakesOffset(ir, i) then g.SetOffset(l, |g.code|) else g)
    case Directive(_, _) => Ok(g)
  }

  /** The state after the first `n` elements. */
  function Pass1(pool: Pool, ir: seq<Element>, n: nat, g0: Gen): (r: Result<Gen>)
    requires n <= |ir| && g0.InRange()
    ensures r.Ok? ==> r.value.InRange()
  {
    if n == 0 then Ok(g0) else
    match Pass1(pool, ir, n - 1, g0)
    case Ok(g) => EmitElement(pool, ir, n - 1, g)
    case Err(e) => Err(e)
  }

  // ----- second pass -----

  function Overwrite(code: seq<byte>, start: nat, bytes: seq<byte>): (r: seq<byte>)
    requires start + |bytes| <= |code|
    ensures |r| == |code|
  {
    code[..start] + bytes + code[start + |bytes|..]
  }

  /** The state after patching the first `k` of the references `rs` to label `name`. */
  function PatchRefs(g: Gen, name: string, rs: seq<Ref>, k: nat): (r: Result<Gen>)
    requires k <= |rs| && forall i :: 0 <= i < |rs| ==> rs[i].branch + 4 <= |g.code|
    ensures r.Ok? ==> |r.value.code| == |g.code| && r.value.refs == g.refs && r.value.offsets == g.offsets
  {
    if k == 0 then Ok(g) else
    match PatchRefs(g, name, rs, k - 1)
    case Err(e) => Err(e)
    case Ok(h) =>
      if Str(name) !in h.offsets then Err(MissingOffset(name)) else
      var target := h.offsets[Str(name)];
      Ok(h.(code := Overwrite(h.code, rs[k - 1].branch, BigEndian(target - rs[k - 1].opcode, 4))).AddFrame(target))
  }

  /** The state after the labels among the first `n` elements had their references patched. */
  function Pass2(ir: seq<Element>, n: nat, g0: Gen): (r: Result<Gen>)
    requires n <= |ir| && g0.InRange()
    ensures r.Ok? ==> |r.value.code| == |g0.code| && r.value.refs == g0.refs && r.value.offsets == g0.offsets
  {
    if n == 0 then Ok(g0) else
    match Pass2(ir, n - 1, g0)
    case Err(e) => Err(e)
    case Ok(g) =>
      if ir[n - 1].LabelDecl? then
        PatchRefs(g, ir[n - 1].name, g.RefsTo(ir[n - 1].name), |g.RefsTo(ir[n - 1].name)|)
      else Ok(g)
  }

  function MainMethod(pool: Pool, ir: seq<Element>, prologue: seq<byte>): Result<Gen> {
    match Pass1(pool, ir, |ir|, Gen(prologue, map[], map[], []))
    case Err(e) => Err(e)
    case Ok(g) =>
      match Pass2(ir, |ir|, g)
      case Err(e) => Err(e)
      case Ok(h) => Ok(h.Put([RETURN]))
  }
}
