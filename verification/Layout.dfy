/** The main method as a one-pass assembler with known label offsets would write it, and the proof that
    the two passes with back-patching produce exactly that. */
module Layout {
  import opened Words
  import opened Ir
  import opened Emission

  // ----- sizes and offsets -----

  function StoreSize(rd: Reg): nat {
    if rd == 0 then 1 else 6
  }

  function Size(e: Element): nat {
    match e
    case Instr(R3(m, rd, _, _)) => 8 + (if m == ADD then 1 else 0) + StoreSize(rd)
    case Instr(R2(m, rd, _, _)) => if m == ADDI then 9 + StoreSize(rd) else if m == BNE || m == BLT then 17 else 0
    case Instr(R1(m, _, _)) => if m == J then 5 else 0
    case _ => 0
  }

  /** The bytecode offset of element `n`; the code starts with the ten bytes of the prologue. */
  function Offset(ir: seq<Element>, n: nat): (o: nat)
    requires n <= |ir|
    ensures o >= 10
  {
    if n == 0 then 10 else Offset(ir, n - 1) + Size(ir[n - 1])
  }

  /** Section 4.7.3 of the JVM Specification SE8: code_length is less than 65536. */
  ghost predicate Fits(ir: seq<Element>) {
    Offset(ir, |ir|) + 1 < 65536
  }

  predicate Jumps(e: Element) {
    e.Instr? && match e.ins
                case R2(m, _, _, Label(_)) => m == BNE || m == BLT
                case R1(m, _, ULabel(_)) => m == J
                case _ => false
  }

  function JumpLabel(e: Element): string
    requires Jumps(e)
  {
    if e.ins.R2? then e.ins.op.name else e.ins.uop.name
  }

  predicate JumpsTo(e: Element, l: string) {
    Jumps(e) && JumpLabel(e) == l
  }

  /** The offset of the GOTO_W of a jumping element. */
  function JumpAt(ir: seq<Element>, j: nat): nat
    requires j < |ir|
  {
    Offset(ir, j) + (if Size(ir[j]) == 17 then 12 else 0)
  }

  function Index(pool: Pool, v: int): u16 {
    if Num(v) in pool then pool[Num(v)] else 0
  }

  /** The code of one element when its jump, if it has one, goes `d` bytes ahead. */
  function Code(pool: Pool, e: Element, d: int): (c: seq<byte>)
    ensures !(e.Instr? && UsesWrongOperand(e.ins)) ==> |c| == Size(e)
  {
    match e
    case Instr(R3(m, rd, rs1, rs2)) =>
      LoadRegister(rs1) + LoadRegister(rs2) + (if m == ADD then [LADD] else []) + StoreRegister(rd)
    case Instr(R2(ADDI, rd, rs1, Imm(v))) =>
      LoadRegister(rs1) + LoadConstant(Index(pool, v)) + [LADD] + StoreRegister(rd)
    case Instr(R2(BNE, rd, rs1, Label(_))) =>
      LoadRegister(rd) + LoadRegister(rs1) + [LCMP, IFEQ] + BigEndian(8, 2) + Goto(d)
    case Instr(R2(BLT, rd, rs1, Label(_))) =>
      LoadRegister(rd) + LoadRegister(rs1) + [LCMP, IFGT] + BigEndian(8, 2) + Goto(d)
    case Instr(R1(J, _, ULabel(_))) => Goto(d)
    case _ => []
  }

  /** The code of the first `n` elements, `ds` giving the jump distances. */
  function Lay(pool: Pool, ir: seq<Element>, ds: seq<int>, n: nat): seq<byte>
    requires n <= |ir| == |ds|
  {
    if n == 0 then [] else Lay(pool, ir, ds, n - 1) + Code(pool, ir[n - 1], ds[n - 1])
  }

  // ----- what the tables hold -----

  predicate Emits(pool: Pool, e: Element) {
    e.Instr? ==>
      && !UsesWrongOperand(e.ins)
      && (e.ins.R2? && e.ins.mnemonic == ADDI ==> Num(e.ins.op.imm) in pool)
  }

  function Offsets(ir: seq<Element>, n: nat): map<Key, u16>
    requires n <= |ir|
  {
    if n == 0 then map[]
    else if TakesOffset(ir, n - 1) then Offsets(ir, n - 1)[Str(ir[n - 1].name) := ToU16(Offset(ir, n - 1))]
    else Offsets(ir, n - 1)
  }

  function RefAt(e: Element, l: string, at: int): seq<Ref> {
    if JumpsTo(e, l) then [Ref(ToU16(at), ToU16(at + 1))] else []
  }

  function Refs(ir: seq<Element>, n: nat, l: string): seq<Ref>
    requires n <= |ir|
  {
    if n == 0 then []
    else Refs(ir, n - 1, l) + RefAt(ir[n - 1], l, JumpAt(ir, n - 1))
  }

  /** Each conditional branch leaves a frame at the element that follows it. */
  function BranchFrames(ir: seq<Element>, n: nat): seq<u16>
    requires n <= |ir|
  {
    if n == 0 then []
    else if Jumps(ir[n - 1]) && Size(ir[n - 1]) == 17 then BranchFrames(ir, n - 1) + [ToU16(Offset(ir, n))]
    else BranchFrames(ir, n - 1)
  }

  function Zeros(ir: seq<Element>): (ds: seq<int>)
    ensures |ds| == |ir|
  {
    seq(|ir|, _ => 0)
  }

  // ----- first pass -----

  lemma Join(x: seq<byte>, a: seq<byte>, b: seq<byte>, c: seq<byte>, d: seq<byte>)
    ensures x + a + b + c + d == x + (a + b + c + d)
  {
  }

  lemma JumpIsCode(g: Gen, l: string)
    ensures var r := Jump(g, l);
            forall k :: r.RefsTo(k)
              == g.RefsTo(k) + (if k == l then [Ref(ToU16(|g.code|), ToU16(|g.code| + 1))] else [])
  {
  }

  lemma BranchIsCode(g: Gen, rd: Reg, rs1: Reg, skip: byte, l: string)
    ensures var r := Branch(g, rd, rs1, skip, l);
            && r.code == g.code + (LoadRegister(rd) + LoadRegister(rs1) + [LCMP, skip] + BigEndian(8, 2) + Goto(0))
            && r.frames == g.frames + [ToU16(|g.code| + 17)]
            && forall k :: r.RefsTo(k)
                 == g.RefsTo(k) + (if k == l then [Ref(ToU16(|g.code| + 12), ToU16(|g.code| + 13))] else [])
  {
    var g1 := g.Put(LoadRegister(rd)).Put(LoadRegister(rs1)).Put([LCMP]);
    var g2 := g1.AddFrame(|g1.code| + 8).Put([skip]).Put(BigEndian(8, 2));
    JumpIsCode(g2, l);
    assert [LCMP, skip] == [LCMP] + [skip];
    Join(g.code, LoadRegister(rd), LoadRegister(rs1), [LCMP], [skip]);
    Join(g.code, LoadRegister(rd) + LoadRegister(rs1), [LCMP, skip], BigEndian(8, 2), Goto(0));
    assert g.code + (LoadRegister(rd) + LoadRegister(rs1)) == g.code + LoadRegister(rd) + LoadRegister(rs1);
    assert g.code + LoadRegister(rd) + LoadRegister(rs1) + [LCMP] + [skip]
           == g.code + LoadRegister(rd) + LoadRegister(rs1) + [LCMP, skip];
  }

  /** `r` is `g` after the code of `e`: its bytes, its frame and its reference. */
  ghost predicate Grows(pool: Pool, e: Element, g: Gen, r: Gen) {
    && r.code == g.code + Code(pool, e, 0)
    && r.frames == g.frames + (if Jumps(e) && Size(e) == 17 then [ToU16(|g.code| + 17)] else [])
    && forall l :: r.RefsTo(l) == g.RefsTo(l) + RefAt(e, l, |g.code| + (if Size(e) == 17 then 12 else 0))
  }

  lemma EmitR3(pool: Pool, e: Element, g: Gen)
    requires e.Instr? && e.ins.R3?
    ensures EmitInstruction(pool, e.ins, g).Ok? && Grows(pool, e, g, EmitInstruction(pool, e.ins, g).value)
  {
    hide BigEndian, LoadRegister, StoreRegister, Branch, Jump;
    var R3(m, rd, rs1, rs2) := e.ins;
    var add := if m == ADD then [LADD] else [];
    Join(g.code, LoadRegister(rs1), LoadRegister(rs2), add, StoreRegister(rd));
    assert g.code + LoadRegister(rs1) + LoadRegister(rs2) + [] == g.code + LoadRegister(rs1) + LoadRegister(rs2);
  }

  lemma EmitAddi(pool: Pool, e: Element, g: Gen)
    requires e.Instr? && e.ins.R2? && Emits(pool, e) && e.ins.mnemonic == ADDI
    ensures EmitInstruction(pool, e.ins, g).Ok? && Grows(pool, e, g, EmitInstruction(pool, e.ins, g).value)
  {
    hide BigEndian, LoadRegister, StoreRegister, LoadConstant, Branch;
    var R2(m, rd, rs1, op) := e.ins;
    Join(g.code, LoadRegister(rs1), LoadConstant(pool[Num(op.imm)]), [LADD], StoreRegister(rd));
  }

  lemma EmitBranch(pool: Pool, e: Element, g: Gen)
    requires e.Instr? && e.ins.R2? && Emits(pool, e) && (e.ins.mnemonic == BNE || e.ins.mnemonic == BLT)
    ensures EmitInstruction(pool, e.ins, g).Ok? && Grows(pool, e, g, EmitInstruction(pool, e.ins, g).value)
  {
    hide BigEndian, LoadRegister, Goto, Branch;
    var R2(m, rd, rs1, op) := e.ins;
    BranchIsCode(g, rd, rs1, if m == BNE then IFEQ else IFGT, op.name);
  }

  lemma EmitR2(pool: Pool, e: Element, g: Gen)
    requires e.Instr? && e.ins.R2? && Emits(pool, e)
    ensures EmitInstruction(pool, e.ins, g).Ok? && Grows(pool, e, g, EmitInstruction(pool, e.ins, g).value)
  {
    hide Grows, EmitInstruction;
    if e.ins.mnemonic == ADDI {
      EmitAddi(pool, e, g);
    } else if e.ins.mnemonic == BNE || e.ins.mnemonic == BLT {
      EmitBranch(pool, e, g);
    } else {
      NoCode(pool, e, g);
    }
  }

  lemma NoCode(pool: Pool, e: Element, g: Gen)
    requires e.Instr? && (e.ins.Mem?
                          || (e.ins.R2? && e.ins.mnemonic != ADDI && e.ins.mnemonic != BNE && e.ins.mnemonic != BLT))
    ensures EmitInstruction(pool, e.ins, g).Ok? && Grows(pool, e, g, EmitInstruction(pool, e.ins, g).value)
  {
    hide Branch;
    assert g.code + [] == g.code;
  }

  lemma EmitR1(pool: Pool, e: Element, g: Gen)
    requires e.Instr? && e.ins.R1? && Emits(pool, e)
    ensures EmitInstruction(pool, e.ins, g).Ok? && Grows(pool, e, g, EmitInstruction(pool, e.ins, g).value)
  {
    hide BigEndian, Goto, Branch, Jump;
    if e.ins.mnemonic == J {
      JumpIsCode(g, e.ins.uop.name);
    }
  }

  /** One step of the first pass. */
  lemma EmitIsCode(pool: Pool, ir: seq<Element>, i: nat, g: Gen)
    requires i < |ir| && Emits(pool, ir[i])
    ensures var r := EmitElement(pool, ir, i, g);
            && r.Ok?
            && Grows(pool, ir[i], g, r.value)
            && r.value.offsets == if TakesOffset(ir, i) then g.offsets[Str(ir[i].name) := ToU16(|g.code|)]
                                  else g.offsets
  {
    hide EmitInstruction;
    match ir[i]
    case Instr(R3(_, _, _, _)) => EmitR3(pool, ir[i], g);
    case Instr(R2(_, _, _, _)) => EmitR2(pool, ir[i], g);
    case Instr(R1(_, _, _)) => EmitR1(pool, ir[i], g);
    case Instr(Mem(_, _, _, _)) => NoCode(pool, ir[i], g);
    case _ =>
  }

  lemma NoEmission(pool: Pool, ir: seq<Element>, i: nat, g: Gen)
    requires i < |ir| && !Emits(pool, ir[i])
    ensures EmitElement(pool, ir, i, g).Err?
  {
  }

  /** The state `g` after the first `n` elements, in closed form. */
  ghost predicate Laid(pool: Pool, ir: seq<Element>, n: nat, p: seq<byte>, g: Gen)
    requires n <= |ir|
  {
    && g.code == p + Lay(pool, ir, Zeros(ir), n)
    && |g.code| == Offset(ir, n)
    && g.offsets == Offsets(ir, n)
    && g.frames == BranchFrames(ir, n)
    && forall l :: g.RefsTo(l) == Refs(ir, n, l)
  }

  lemma LaidStart(pool: Pool, ir: seq<Element>, p: seq<byte>)
    requires |p| == 10
    ensures Laid(pool, ir, 0, p, Gen(p, map[], map[], []))
  {
  }

  lemma LaidStep(pool: Pool, ir: seq<Element>, n: nat, p: seq<byte>, g: Gen, r: Gen)
    requires n < |ir| && Laid(pool, ir, n, p, g) && Emits(pool, ir[n]) && Grows(pool, ir[n], g, r)
    requires r.offsets == if TakesOffset(ir, n) then g.offsets[Str(ir[n].name) := ToU16(|g.code|)] else g.offsets
    ensures Laid(pool, ir, n + 1, p, r)
  {
    hide Code, Size, Jumps, JumpsTo, UsesWrongOperand;
    var c := Code(pool, ir[n], 0);
    assert p + (Lay(pool, ir, Zeros(ir), n) + c) == p + Lay(pool, ir, Zeros(ir), n) + c;
    assert Lay(pool, ir, Zeros(ir), n + 1) == Lay(pool, ir, Zeros(ir), n) + c;
    assert |c| == Size(ir[n]);
  }

  /** The first pass stops exactly at an element it cannot translate, and otherwise lays out every element
      with empty jump operands. */
  lemma {:induction false} Pass1Lays(pool: Pool, ir: seq<Element>, n: nat, p: seq<byte>)
    requires n <= |ir| && |p| == 10
    ensures var r := Pass1(pool, ir, n, Gen(p, map[], map[], []));
            && (r.Ok? <==> forall j :: 0 <= j < n ==> Emits(pool, ir[j]))
            && (r.Ok? ==> Laid(pool, ir, n, p, r.value))
  {
    hide EmitElement, Code, Size, Jumps, JumpsTo, Emits, Laid, Grows;
    if n == 0 {
      LaidStart(pool, ir, p);
    } else {
      Pass1Lays(pool, ir, n - 1, p);
      var r := Pass1(pool, ir, n - 1, Gen(p, map[], map[], []));
      if r.Ok? {
        if Emits(pool, ir[n - 1]) {
          EmitIsCode(pool, ir, n - 1, r.value);
          LaidStep(pool, ir, n - 1, p, r.value, EmitElement(pool, ir, n - 1, r.value).value);
        } else {
          NoEmission(pool, ir, n - 1, r.value);
        }
      }
    }
  }
}
