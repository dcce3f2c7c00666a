/** Stepping through the IR as the RISC-V Unprivileged ISA says, for the instructions the generator supports. */
module RiscV {
  import opened Words
  import opened Ir
  import opened Layout

  datatype Width = RV32 | RV64

  /** BLT as specified compares with `<`; the emitted LCMP and IFGT compare with `<=`. */
  datatype Reading = AsSpecified | AsEmitted

  type Regs = r: seq<int> | |r| == 32 witness seq(32, _ => 0)

  datatype Hart = Hart(pc: nat, regs: Regs)

  function ZeroRegs(): Regs {
    seq(32, _ => 0)
  }

  function Narrow(w: Width, v: int): int {
    if w == RV64 then Wrap64(v) else Wrap32(v)
  }

  function Read(regs: Regs, r: Reg): int {
    if r == 0 then 0 else regs[r]
  }

  function Write(regs: Regs, r: Reg, v: int): Regs {
    if r == 0 then regs else regs[r := v]
  }

  predicate SupportedElement(e: Element) {
    match e
    case Instr(R3(m, _, _, _)) => m == ADD
    case Instr(R2(m, _, _, op)) => if op.Imm? then m == ADDI else m == BNE || m == BLT
    case Instr(R1(m, _, op)) => m == J && op.ULabel?
    case Instr(Mem(_, _, _, _)) => false
    case _ => true
  }

  ghost predicate Supported(ir: seq<Element>) {
    forall i :: 0 <= i < |ir| ==> SupportedElement(ir[i])
  }

  /** The first instruction at or after element `i`, or the end. */
  function Skip(ir: seq<Element>, i: nat): (j: nat)
    requires i <= |ir|
    ensures i <= j <= |ir|
    ensures j < |ir| ==> ir[j].Instr?
    ensures forall k :: i <= k < j ==> !ir[k].Instr?
    decreases |ir| - i
  {
    if i == |ir| || ir[i].Instr? then i else Skip(ir, i + 1)
  }

  /** The element that declares `l`, or the end. */
  function Target(ir: seq<Element>, l: string, i: nat := 0): (t: nat)
    requires i <= |ir|
    ensures i <= t <= |ir|
    ensures t < |ir| ==> ir[t] == LabelDecl(l)
    ensures t == |ir| ==> forall k :: i <= k < |ir| ==> ir[k] != LabelDecl(l)
    decreases |ir| - i
  {
    if i == |ir| || ir[i] == LabelDecl(l) then i else Target(ir, l, i + 1)
  }

  predicate Taken(reading: Reading, e: Element, regs: Regs)
    requires Jumps(e)
  {
    if e.ins.R1? then true
    else if e.ins.mnemonic == BNE then Read(regs, e.ins.rd) != Read(regs, e.ins.rs1)
    else if reading == AsSpecified then Read(regs, e.ins.rd) < Read(regs, e.ins.rs1)
    else Read(regs, e.ins.rd) <= Read(regs, e.ins.rs1)
  }

  function NextPc(reading: Reading, ir: seq<Element>, h: Hart): (pc: nat)
    requires h.pc < |ir|
    ensures pc <= |ir|
  {
    var e := ir[h.pc];
    if Jumps(e) && Taken(reading, e, h.regs) then Target(ir, JumpLabel(e)) else h.pc + 1
  }

  function NextRegs(w: Width, e: Element, regs: Regs): Regs {
    match e
    case Instr(R3(ADD, rd, rs1, rs2)) => Write(regs, rd, Narrow(w, Read(regs, rs1) + Read(regs, rs2)))
    case Instr(R2(ADDI, rd, rs1, Imm(v))) => Write(regs, rd, Narrow(w, Read(regs, rs1) + v))
    case _ => regs
  }

  /** One instruction; a hart at the end stays there. */
  function Step(reading: Reading, w: Width, ir: seq<Element>, h: Hart): (r: Hart)
    requires h.pc <= |ir|
    ensures r.pc <= |ir|
  {
    if h.pc == |ir| then h
    else Hart(Skip(ir, NextPc(reading, ir, h)), NextRegs(w, ir[h.pc], h.regs))
  }

  function Start(ir: seq<Element>, regs: Regs): (h: Hart)
    ensures h.pc <= |ir|
  {
    Hart(Skip(ir, 0), regs)
  }

  function Steps(reading: Reading, w: Width, ir: seq<Element>, h: Hart, n: nat): (r: Hart)
    requires h.pc <= |ir|
    ensures r.pc <= |ir|
  {
    if n == 0 then h else Step(reading, w, ir, Steps(reading, w, ir, h, n - 1))
  }

  predicate Halted(ir: seq<Element>, h: Hart) {
    h.pc == |ir|
  }
}
