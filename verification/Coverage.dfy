/** Frame coverage over the finished bytes: the recorded frames are exactly where the jump instructions lead. */
module Coverage {
  import opened Words
  import opened Ir
  import opened Emission
  import opened Layout
  import opened Patching
  import opened Assembly
  import opened Constants
  import opened ConstantPool
  import opened RiscV
  import opened Opcodes
  import opened Jvm
  import opened Simulation
  import opened StackMap
  import opened Output
  import opened Verifier
  import opened TypeSafety
  import opened MainTyping

  predicate IsJump(op: Opcode) {
    op == Ifeq || op == Ifgt || op == GotoW
  }

  /** Where the jump instruction at `k` leads: its position plus its operand. */
  function Destination(code: seq<byte>, k: nat): int
    requires k < |code|
  {
    k + Signed(Operand(code, k + 1, if Decode(code[k]) == GotoW then 4 else 2))
  }

  /** `k` is a jump instruction of the code that leads to `x`. */
  ghost predicate JumpsFrom(code: seq<byte>, k: nat, x: int) {
    Starts(code, k) && IsJump(Decode(code[k])) && Destination(code, k) == x
  }

  // ----- stretches of code -----

  /** The code from `a` to `b` is whole instructions, the jumps among them at `places`. */
  ghost predicate Stretch(code: seq<byte>, a: nat, b: nat, places: set<nat>) {
    && b <= |code| && Walks(code, a, b)
    && (forall k: nat :: a <= k < b && Walks(code, a, k) && IsJump(Decode(code[k])) <==> k in places)
  }

  lemma {:induction false} WalkThrough(code: seq<byte>, a: nat, b: nat, k: nat)
    requires Walks(code, a, b) && b <= k
    ensures a <= b && (Walks(code, a, k) <==> Walks(code, b, k))
    decreases |code| - a
  {
    if a != b {
      WalkThrough(code, a + Length(Decode(code[a])), b, k);
    }
  }

  lemma {:induction false} WalkForward(code: seq<byte>, a: nat, k: nat)
    requires Walks(code, a, k)
    ensures a <= k
    decreases |code| - a
  {
  }

  lemma Joined(code: seq<byte>, a: nat, b: nat, c: nat, x: set<nat>, y: set<nat>, all: set<nat>)
    requires Stretch(code, a, b, x) && Stretch(code, b, c, y) && all == x + y
    ensures Stretch(code, a, c, all)
  {
    hide Walks, Length, IsJump;
    WalkForward(code, a, b);
    WalkForward(code, b, c);
    WalkThrough(code, a, b, c);
    forall k: nat ensures a <= k < c && Walks(code, a, k) && IsJump(Decode(code[k])) <==> k in all {
      if b <= k {
        WalkThrough(code, a, b, k);
      }
    }
  }

  lemma Nothing(code: seq<byte>, a: nat)
    requires a <= |code|
    ensures Stretch(code, a, a, {})
  {
  }

  /** One instruction. */
  lemma One(code: seq<byte>, a: nat)
    requires a < |code| && a + Length(Decode(code[a])) <= |code|
    ensures Stretch(code, a, a + Length(Decode(code[a])), if IsJump(Decode(code[a])) then {a} else {})
  {
    hide Length, IsJump;
    hide Decode;
    var n := Length(Decode(code[a]));
    assert Walks(code, a + n, a + n);
    forall k: nat | Walks(code, a, k) && a != k ensures k >= a + n {
      WalkForward(code, a + n, k);
    }
  }

  /** An instruction that is no jump. */
  lemma Plain(code: seq<byte>, a: nat, n: nat)
    requires a < |code| && n == Length(Decode(code[a])) && a + n <= |code| && !IsJump(Decode(code[a]))
    ensures Stretch(code, a, a + n, {})
  {
    hide Decode;
    One(code, a);
  }

  // ----- the fragments -----

  lemma LoadStretch(code: seq<byte>, a: nat, r: Reg)
    requires At(code, a, LoadRegister(r))
    ensures Stretch(code, a, a + 4, {})
  {
    hide Stretch;
    hide Decode;
    OpcodesAgree();
    AtByte(code, a, LoadRegister(r), 0);
    AtByte(code, a, LoadRegister(r), 1);
    AtByte(code, a, LoadRegister(r), 3);
    Plain(code, a, 1);
    Plain(code, a + 1, 2);
    Plain(code, a + 3, 1);
    Joined(code, a, a + 1, a + 3, {}, {}, {});
    Joined(code, a, a + 3, a + 4, {}, {}, {});
  }

  lemma StoreStretch(code: seq<byte>, a: nat, rd: Reg)
    requires At(code, a, StoreRegister(rd))
    ensures Stretch(code, a, a + StoreSize(rd), {})
  {
    hide Stretch;
    hide Decode;
    OpcodesAgree();
    var bytes := StoreRegister(rd);
    AtByte(code, a, bytes, 0);
    Plain(code, a, 1);
    if rd != 0 {
      AtByte(code, a, bytes, 1);
      AtByte(code, a, bytes, 2);
      AtByte(code, a, bytes, 4);
      AtByte(code, a, bytes, 5);
      Plain(code, a + 1, 1);
      Plain(code, a + 2, 2);
      Plain(code, a + 4, 1);
      Plain(code, a + 5, 1);
      Joined(code, a, a + 1, a + 2, {}, {}, {});
      Joined(code, a, a + 2, a + 4, {}, {}, {});
      Joined(code, a, a + 4, a + 5, {}, {}, {});
      Joined(code, a, a + 5, a + 6, {}, {}, {});
    }
  }

  lemma ConstantStretch(code: seq<byte>, a: nat, index: u16)
    requires At(code, a, LoadConstant(index))
    ensures Stretch(code, a, a + 4, {})
  {
    hide Stretch;
    hide Decode;
    OpcodesAgree();
    AtByte(code, a, LoadConstant(index), 0);
    AtByte(code, a, LoadConstant(index), 3);
    Plain(code, a, 3);
    Plain(code, a + 3, 1);
    Joined(code, a, a + 3, a + 4, {}, {}, {});
  }

  lemma SkipStretch(code: seq<byte>, a: nat, skip: byte)
    requires At(code, a, [LCMP, skip] + BigEndian(8, 2)) && (skip == IFEQ || skip == IFGT)
    ensures Stretch(code, a, a + 4, {a + 1}) && code[a + 1] == skip && Destination(code, a + 1) == a + 9
  {
    hide Stretch;
    hide Decode;
    OpcodesAgree();
    var bytes := [LCMP, skip] + BigEndian(8, 2);
    AtByte(code, a, bytes, 0);
    AtByte(code, a, bytes, 1);
    Plain(code, a, 1);
    One(code, a + 1);
    Joined(code, a, a + 1, a + 4, {}, {a + 1}, {a + 1});
    AtParts(code, a, [LCMP, skip], BigEndian(8, 2));
    assert Operand(code, a + 2, 2) == BigEndian(8, 2);
    SignedEight();
  }

  lemma GotoStretch(code: seq<byte>, a: nat, d: int)
    requires At(code, a, Goto(d)) && -65536 < d < 65536
    ensures Stretch(code, a, a + 5, {a}) && code[a] == GOTO_W && Destination(code, a) == a + d
  {
    hide Stretch;
    hide Decode;
    OpcodesAgree();
    AtByte(code, a, Goto(d), 0);
    One(code, a);
    AtParts(code, a, [GOTO_W], BigEndian(d, 4));
    assert Operand(code, a + 1, 4) == BigEndian(d, 4);
    Signed32(d);
  }

  lemma PrologueStretch(code: seq<byte>, field: u16, get: u16, array_: u16)
    requires At(code, 0, Prologue(field, get, array_))
    ensures Stretch(code, 0, 10, {})
  {
    hide Stretch, Prologue;
    hide Decode;
    OpcodesAgree();
    PrologueParts(code, field, get, array_);
    Plain(code, 0, 3);
    Plain(code, 3, 3);
    Plain(code, 6, 3);
    Plain(code, 9, 1);
    Joined(code, 0, 3, 6, {}, {}, {});
    Joined(code, 0, 6, 9, {}, {}, {});
    Joined(code, 0, 9, 10, {}, {}, {});
  }

  // ----- one element -----

  /** Where the jump instructions of an element at `a` are. */
  function PlacesOf(e: Element, a: nat): set<nat> {
    if !Jumps(e) then {} else if e.ins.R2? then {a + 9, a + 12} else {a}
  }

  /** The code of `e` at `a` is whole instructions, and its jumps lead behind it and `d` bytes ahead of the last. */
  ghost predicate Covered(code: seq<byte>, e: Element, a: nat, d: int) {
    && Stretch(code, a, a + Size(e), PlacesOf(e, a))
    && (Jumps(e) && e.ins.R2? ==> |code| > a + 12 && Destination(code, a + 9) == a + 17
                                  && Destination(code, a + 12) == a + 12 + d)
    && (Jumps(e) && !e.ins.R2? ==> |code| > a && Destination(code, a) == a + d)
  }

  lemma R3Stretch(code: seq<byte>, pool: Pool, e: Element, a: nat, d: int)
    requires e.Instr? && e.ins.R3? && At(code, a, Code(pool, e, d))
    ensures Covered(code, e, a, d)
  {
    hide Stretch, At, LoadRegister, StoreRegister, StoreSize, Destination;
    var R3(m, rd, rs1, rs2) := e.ins;
    var x, y, c, z := LoadRegister(rs1), LoadRegister(rs2), if m == ADD then [LADD] else [], StoreRegister(rd);
    FragmentSizes(rs1, rs2, rd);
    AtParts(code, a, x + y + c, z);
    AtParts(code, a, x + y, c);
    AtParts(code, a, x, y);
    LoadStretch(code, a, rs1);
    LoadStretch(code, a + 4, rs2);
    Joined(code, a, a + 4, a + 8, {}, {}, {});
    StoreStretch(code, a + 8 + |c|, rd);
    if m == ADD {
      AddStretch(code, a + 8);
      Joined(code, a, a + 8, a + 9, {}, {}, {});
    }
    Joined(code, a, a + 8 + |c|, a + Size(e), {}, {}, {});
  }

  lemma AddStretch(code: seq<byte>, a: nat)
    requires At(code, a, [LADD])
    ensures Stretch(code, a, a + 1, {})
  {
    hide Stretch;
    hide Decode;
    OpcodesAgree();
    AtByte(code, a, [LADD], 0);
    Plain(code, a, 1);
  }

  lemma AddiStretch(code: seq<byte>, pool: Pool, e: Element, a: nat, d: int)
    requires e.Instr? && e.ins.R2? && e.ins.mnemonic == ADDI && e.ins.op.Imm? && At(code, a, Code(pool, e, d))
    ensures Covered(code, e, a, d)
  {
    hide Stretch, At, LoadRegister, StoreRegister, LoadConstant, StoreSize, Destination;
    var R2(m, rd, rs1, op) := e.ins;
    var index := Index(pool, op.imm);
    var x, y, c, z := LoadRegister(rs1), LoadConstant(index), [LADD], StoreRegister(rd);
    FragmentSizes(rs1, rs1, rd);
    ConstantSize(index);
    AtParts(code, a, x + y + c, z);
    AtParts(code, a, x + y, c);
    AtParts(code, a, x, y);
    LoadStretch(code, a, rs1);
    ConstantStretch(code, a + 4, index);
    AddStretch(code, a + 8);
    StoreStretch(code, a + 9, rd);
    Joined(code, a, a + 4, a + 8, {}, {}, {});
    Joined(code, a, a + 8, a + 9, {}, {}, {});
    Joined(code, a, a + 9, a + Size(e), {}, {}, {});
  }

  lemma BranchStretch(code: seq<byte>, a: nat, rd: Reg, rs1: Reg, skip: byte, d: int)
    requires At(code, a, LoadRegister(rd) + LoadRegister(rs1) + [LCMP, skip] + BigEndian(8, 2) + Goto(d))
    requires (skip == IFEQ || skip == IFGT) && -65536 < d < 65536
    ensures Stretch(code, a, a + 17, {a + 9, a + 12})
    ensures Destination(code, a + 9) == a + 17 && Destination(code, a + 12) == a + 12 + d
  {
    hide Stretch, At, LoadRegister, Goto, Destination;
    var x, y, c, z := LoadRegister(rd), LoadRegister(rs1), [LCMP, skip] + BigEndian(8, 2), Goto(d);
    assert x + y + [LCMP, skip] + BigEndian(8, 2) + z == x + y + c + z;
    FragmentSizes(rd, rs1, 0);
    AtParts(code, a, x + y + c, z);
    AtParts(code, a, x + y, c);
    AtParts(code, a, x, y);
    LoadStretch(code, a, rd);
    LoadStretch(code, a + 4, rs1);
    SkipStretch(code, a + 8, skip);
    GotoStretch(code, a + 12, d);
    Joined(code, a, a + 4, a + 8, {}, {}, {});
    Joined(code, a, a + 8, a + 12, {}, {a + 9}, {a + 9});
    Joined(code, a, a + 12, a + 17, {a + 9}, {a + 12}, {a + 9, a + 12});
  }

  lemma R2Stretch(code: seq<byte>, pool: Pool, e: Element, a: nat, d: int)
    requires e.Instr? && e.ins.R2? && Emits(pool, e) && At(code, a, Code(pool, e, d)) && -65536 < d < 65536
    ensures Covered(code, e, a, d)
  {
    hide Stretch, LoadRegister, StoreRegister, LoadConstant, StoreSize, Destination, BigEndian, Goto;
    var R2(m, rd, rs1, op) := e.ins;
    if m == ADDI {
      AddiStretch(code, pool, e, a, d);
    } else if m == BNE || m == BLT {
      BranchStretch(code, a, rd, rs1, if m == BNE then IFEQ else IFGT, d);
    } else {
      Nothing(code, a);
    }
  }

  lemma ElementStretch(code: seq<byte>, pool: Pool, e: Element, a: nat, d: int)
    requires Emits(pool, e) && At(code, a, Code(pool, e, d)) && -65536 < d < 65536
    ensures Covered(code, e, a, d)
  {
    hide Stretch, LoadRegister, StoreRegister, LoadConstant, Destination, BigEndian, Goto;
    if e.Instr? && e.ins.R3? {
      R3Stretch(code, pool, e, a, d);
    } else if e.Instr? && e.ins.R2? {
      R2Stretch(code, pool, e, a, d);
    } else if e.Instr? && e.ins.R1? && e.ins.mnemonic == J {
      GotoStretch(code, a, d);
    } else {
      Nothing(code, a);
    }
  }

  // ----- the whole method -----

  ghost predicate IsPrologue(p: seq<byte>) {
    exists field: u16, get: u16, array_: u16 :: p == Prologue(field, get, array_)
  }

  /** Where the jump instructions of the first `n` elements are. */
  function Places(ir: seq<Element>, n: nat): set<nat>
    requires n <= |ir|
  {
    if n == 0 then {} else Places(ir, n - 1) + PlacesOf(ir[n - 1], Offset(ir, n - 1))
  }

  lemma {:induction false} PlacesAre(ir: seq<Element>, n: nat, k: nat)
    requires n <= |ir|
    ensures k in Places(ir, n) <==> exists i :: 0 <= i < n && k in PlacesOf(ir[i], Offset(ir, i))
  {
    hide PlacesOf, Offset;
    if n > 0 {
      PlacesAre(ir, n - 1, k);
    }
  }

  lemma ElementCovered(pool: Pool, ir: seq<Element>, p: seq<byte>, i: nat)
    requires Translatable(pool, ir) && |p| == 10 && i < |ir|
    ensures Covered(Assemble(pool, ir, p), ir[i], Offset(ir, i), Distance(ir, i))
  {
    hide Covered, Offset, Assemble, Code, At, LabelOffset;
    hide Decode;
    var code := Assemble(pool, ir, p);
    AssembleAt(pool, ir, p, i);
    CodeIsAt(pool, ir, code, i, Distance(ir, i));
    if Jumps(ir[i]) {
      JumpTarget(pool, ir, i);
    }
    ElementStretch(code, pool, ir[i], Offset(ir, i), Distance(ir, i));
  }

  lemma {:induction false} ElementsCovered(pool: Pool, ir: seq<Element>, p: seq<byte>, n: nat)
    requires Translatable(pool, ir) && n <= |ir| && IsPrologue(p)
    ensures Stretch(Assemble(pool, ir, p), 0, Offset(ir, n), Places(ir, n))
  {
    hide Stretch, Assemble, Translatable, PlacesOf, Size, Prologue;
    if n == 0 {
      PrologueAt(pool, ir, p);
      var field: u16, get: u16, array_: u16 :| p == Prologue(field, get, array_);
      PrologueStretch(Assemble(pool, ir, p), field, get, array_);
    } else {
      ElementsCovered(pool, ir, p, n - 1);
      ElementCovered(pool, ir, p, n - 1);
      Joined(Assemble(pool, ir, p), 0, Offset(ir, n - 1), Offset(ir, n), Places(ir, n - 1),
             PlacesOf(ir[n - 1], Offset(ir, n - 1)), Places(ir, n));
    }
  }

  lemma PrologueAt(pool: Pool, ir: seq<Element>, p: seq<byte>)
    requires Translatable(pool, ir) && |p| == 10
    ensures At(Assemble(pool, ir, p), 0, p)
  {
    hide Assemble, Offset;
    AssembleEnds(pool, ir, p);
  }

  /** The whole method is instructions from its first byte to its last, with exactly these jumps. */
  lemma MainCovered(pool: Pool, ir: seq<Element>, p: seq<byte>)
    requires Translatable(pool, ir) && IsPrologue(p)
    ensures Stretch(Assemble(pool, ir, p), 0, Offset(ir, |ir|) + 1, Places(ir, |ir|))
    ensures |Assemble(pool, ir, p)| == Offset(ir, |ir|) + 1
  {
    hide Stretch, Assemble, Offset, Prologue;
    hide Decode;
    OpcodesAgree();
    AssembleEnds(pool, ir, p);
    ElementsCovered(pool, ir, p, |ir|);
    Plain(Assemble(pool, ir, p), Offset(ir, |ir|), 1);
    Joined(Assemble(pool, ir, p), 0, Offset(ir, |ir|), Offset(ir, |ir|) + 1, Places(ir, |ir|), {}, Places(ir, |ir|));
  }

  lemma OffsetStarts(pool: Pool, ir: seq<Element>, p: seq<byte>, n: nat)
    requires Translatable(pool, ir) && IsPrologue(p) && n <= |ir|
    ensures Starts(Assemble(pool, ir, p), Offset(ir, n))
  {
    hide Assemble, Prologue, Walks;
    AssembleEnds(pool, ir, p);
    OffsetMonotone(ir, n, |ir|);
    ElementsCovered(pool, ir, p, n);
  }

  /** Where the jumps of element `i` are and lead. */
  lemma JumpsCovered(pool: Pool, ir: seq<Element>, p: seq<byte>, i: nat)
    requires Translatable(pool, ir) && |p| == 10 && i < |ir|
    ensures !Jumps(ir[i]) ==> PlacesOf(ir[i], Offset(ir, i)) == {}
    ensures Jumps(ir[i]) ==>
      var code, a, t := Assemble(pool, ir, p), Offset(ir, i), Offset(ir, Target(ir, JumpLabel(ir[i])));
      && |code| > JumpAt(ir, i) && Destination(code, JumpAt(ir, i)) == t
      && (ir[i].ins.R2? ==> PlacesOf(ir[i], a) == {a + 9, JumpAt(ir, i)} && a + 9 < JumpAt(ir, i)
                            && Destination(code, a + 9) == Offset(ir, i + 1))
      && (!ir[i].ins.R2? ==> PlacesOf(ir[i], a) == {JumpAt(ir, i)})
  {
    hide Assemble, Distance, Target, Stretch, Destination, Translatable;
    hide Decode;
    ElementCovered(pool, ir, p, i);
    if Jumps(ir[i]) {
      JumpTarget(pool, ir, i);
      JumpFacts(pool, ir, i);
    }
  }
  /** The jump instructions of the method are those of its elements. */
  lemma PlacesStart(pool: Pool, ir: seq<Element>, p: seq<byte>, k: nat)
    requires Translatable(pool, ir) && IsPrologue(p)
    ensures var code := Assemble(pool, ir, p);
            (Starts(code, k) && IsJump(Decode(code[k]))
             <==> exists i :: 0 <= i < |ir| && k in PlacesOf(ir[i], Offset(ir, i)))
  {
    hide Assemble, Offset, Translatable, Walks, Places, PlacesOf, IsJump, IsPrologue;
    MainCovered(pool, ir, p);
    PlacesAre(ir, |ir|, k);
  }

  /** What the jumps of element `i` record, some jump instruction leads to. */
  lemma JumpsLead(pool: Pool, ir: seq<Element>, p: seq<byte>, i: nat)
    requires Translatable(pool, ir) && IsPrologue(p) && i < |ir| && Jumps(ir[i])
    ensures JumpsFrom(Assemble(pool, ir, p), JumpAt(ir, i), Offset(ir, Target(ir, JumpLabel(ir[i]))))
    ensures ir[i].ins.R2? ==> JumpsFrom(Assemble(pool, ir, p), Offset(ir, i) + 9, Offset(ir, i + 1))
  {
    hide Assemble, Offset, Translatable, Starts, IsJump, IsPrologue, Target, Destination, JumpAt, PlacesOf;
    assert |p| == 10 by { PrologueSize(p); }
    JumpsCovered(pool, ir, p, i);
    PlacesStart(pool, ir, p, JumpAt(ir, i));
    PlacesStart(pool, ir, p, Offset(ir, i) + 9);
  }

  lemma PrologueSize(p: seq<byte>)
    requires IsPrologue(p)
    ensures |p| == 10
  {
  }

  /** A place that a jump of element `i` leads to. */
  ghost predicate AimedAt(ir: seq<Element>, i: nat, x: int) {
    && i < |ir| && Jumps(ir[i])
    && (x == Offset(ir, Target(ir, JumpLabel(ir[i]))) || (ir[i].ins.R2? && x == Offset(ir, i + 1)))
  }

  lemma PlaceLeads(pool: Pool, ir: seq<Element>, p: seq<byte>, i: nat, k: nat)
    requires Translatable(pool, ir) && |p| == 10 && i < |ir| && k in PlacesOf(ir[i], Offset(ir, i))
    ensures k < |Assemble(pool, ir, p)| && AimedAt(ir, i, Destination(Assemble(pool, ir, p), k))
  {
    hide Assemble, Offset, Translatable, Target, Destination, JumpLabel;
    JumpsCovered(pool, ir, p, i);
    if ir[i].ins.R2? {
      assert k == Offset(ir, i) + 9 || k == JumpAt(ir, i);
    }
  }

  /** Where a jump instruction leads is recorded. */
  lemma LeadsToFrame(pool: Pool, ir: seq<Element>, p: seq<byte>, k: nat, x: int)
    requires Translatable(pool, ir) && IsPrologue(p) && JumpsFrom(Assemble(pool, ir, p), k, x)
    ensures exists i :: AimedAt(ir, i, x)
  {
    hide Assemble, Offset, Translatable, Starts, IsJump, IsPrologue, Target, Destination, PlacesOf, Jumps, AimedAt;
    assert |p| == 10 by { PrologueSize(p); }
    PlacesStart(pool, ir, p, k);
    var i :| 0 <= i < |ir| && k in PlacesOf(ir[i], Offset(ir, i));
    PlaceLeads(pool, ir, p, i, k);
  }

  lemma AimsRecorded(pool: Pool, ir: seq<Element>, x: u16)
    requires Translatable(pool, ir)
    ensures x in Frames(ir) <==> exists i :: AimedAt(ir, i, x)
  {
    hide Offset, Translatable, Frames, Target;
    FramesAre(pool, ir, x);
    if x in Frames(ir) {
      var i :| 0 <= i < |ir| && Jumps(ir[i])
        && (x == Offset(ir, Target(ir, JumpLabel(ir[i]))) || (ir[i].ins.R2? && x == Offset(ir, i + 1)));
      assert AimedAt(ir, i, x);
    }
  }

  lemma AimLeads(pool: Pool, ir: seq<Element>, p: seq<byte>, i: nat, x: int)
    requires Translatable(pool, ir) && IsPrologue(p) && AimedAt(ir, i, x)
    ensures 0 <= x < 65536 && Starts(Assemble(pool, ir, p), x)
    ensures exists k: nat :: JumpsFrom(Assemble(pool, ir, p), k, x)
  {
    hide Assemble, Offset, IsPrologue, Translatable, Starts, Target, JumpsFrom, JumpLabel, JumpAt;
    JumpsLead(pool, ir, p, i);
    JumpFacts(pool, ir, i);
    JumpSmall(pool, ir, i);
    OffsetStarts(pool, ir, p, Target(ir, JumpLabel(ir[i])));
    OffsetStarts(pool, ir, p, i + 1);
  }

  /** Frame coverage over the bytes: a frame is recorded exactly where some jump instruction leads, and an
      instruction starts there. */
  lemma FramesCovered(pool: Pool, ir: seq<Element>, p: seq<byte>, x: u16)
    requires Translatable(pool, ir) && IsPrologue(p)
    ensures x in Frames(ir) <==> exists k: nat :: JumpsFrom(Assemble(pool, ir, p), k, x)
    ensures x in Frames(ir) ==> Starts(Assemble(pool, ir, p), x)
  {
    hide Assemble, IsPrologue, Translatable, Starts, Frames, JumpsFrom, AimedAt;
    AimsRecorded(pool, ir, x);
    if i: nat :| AimedAt(ir, i, x) {
      AimLeads(pool, ir, p, i, x);
    }
    if k: nat :| JumpsFrom(Assemble(pool, ir, p), k, x) {
      LeadsToFrame(pool, ir, p, k, x);
    }
  }

  /** The table has a frame exactly where some jump instruction of the code leads. */
  ghost predicate Covers(code: seq<byte>, table: map<int, Typing>) {
    forall x: int :: x in table <==> exists k: nat :: JumpsFrom(code, k, x)
  }

  lemma JumpsNear(pool: Pool, ir: seq<Element>, p: seq<byte>, k: nat, x: int)
    requires Translatable(pool, ir) && IsPrologue(p) && JumpsFrom(Assemble(pool, ir, p), k, x)
    ensures 0 <= x < 65536
  {
    hide Assemble, Translatable, JumpsFrom, AimedAt, IsPrologue;
    LeadsToFrame(pool, ir, p, k, x);
    var i: nat :| AimedAt(ir, i, x);
    AimLeads(pool, ir, p, i, x);
  }

  /** The decoded table covers the jumps exactly when no frame was recorded twice. */
  lemma TableCovers(pool: Pool, ir: seq<Element>, p: seq<byte>, es: seq<Entry>, b: Build)
    requires Translatable(pool, ir) && IsPrologue(p) && Resolve(es, IndexOf(b, LONG_ARRAY_CLASS)) == LongArray
    ensures var fs := FramesOf(b, Sorted(Frames(ir)));
            Covers(Assemble(pool, ir, p), TableTo(es, fs, |fs|)) <==> Distinct(Frames(ir))
  {
    hide Assemble, Translatable, Frames, FramesOf, Sorted, TableTo, Distinct, Resolve, IndexOf, JumpsFrom, IsPrologue;
    var code, fs := Assemble(pool, ir, p), FramesOf(b, Sorted(Frames(ir)));
    var table := TableTo(es, fs, |fs|);
    if Distinct(Frames(ir)) {
      TableIsFrames(b, Frames(ir), es);
      forall x: int ensures x in table <==> exists k: nat :: JumpsFrom(code, k, x) {
        if 0 <= x < 65536 {
          FramesCovered(pool, ir, p, x);
        } else if k: nat :| JumpsFrom(code, k, x) {
          JumpsNear(pool, ir, p, k, x);
        }
      }
    } else {
      TableTooFar(b, Frames(ir), es);
      var x :| x in table && x >= 65536;
      if k: nat :| JumpsFrom(code, k, x) {
        JumpsNear(pool, ir, p, k, x);
      }
    }
  }
}
