/** The parser reads exactly the sentences of the grammar. */
module Sentences {
  import opened Words
  import opened Ir
  import opened Mnemonics
  import opened Lexer
  import opened Parser
  import opened Grammar

  // ----- numbers -----

  lemma {:induction false} ValueAppend(s: string, c: char)
    ensures Value(s + [c]) == 10 * Value(s) + (c as int - 48)
  {
    if s == "" {
      assert Value([c]) == (c as int - 48) * Power10(0) + Value([c][1..]);
    } else {
      ValueAppend(s[1..], c);
      assert (s + [c])[1..] == s[1..] + [c];
      TenTimes(s[0] as int - 48, |s|);
    }
  }

  lemma TenTimes(d: int, n: nat)
    requires n > 0
    ensures d * Power10(n) == 10 * (d * Power10(n - 1))
  {
    var p := Power10(n - 1);
    assert d * (10 * p) == 10 * (d * p);
  }

  /** The parser's way of reading digits gives the number they stand for. */
  lemma {:induction false} ValueIs(s: string)
    ensures DecimalValue(s) == Value(s)
  {
    if s != "" {
      ValueIs(s[..|s| - 1]);
      ValueAppend(s[..|s| - 1], s[|s| - 1]);
      assert s == s[..|s| - 1] + [s[|s| - 1]];
    }
  }

  lemma RegisterReads(t: Token, r: Reg)
    requires t.kind == IDENTIFIER ==> WellFormed(t)
    ensures t.kind == IDENTIFIER && ParseRegister(t.lexeme) == Some(r) <==> RegisterIs(t, r)
  {
    hide DecimalValue, Value;
    if t.kind == IDENTIFIER {
      ValueIs(t.lexeme[1..]);
      var digits := t.lexeme[1..];
      assert AllDigits(digits) <==> forall i :: 1 <= i < |t.lexeme| ==> Numeral(t.lexeme[i]) by {
        if AllDigits(digits) {
          forall i | 1 <= i < |t.lexeme| ensures Numeral(t.lexeme[i]) {
            assert t.lexeme[i] == digits[i - 1];
          }
        }
      }
    }
  }

  /** A number of 12 bits is the immediate made from `v` exactly when it has the low bits of `v`. */
  lemma LowBits12(v: int, imm: Imm12)
    ensures imm == Wrap12(Wrap16(Wrap32(v))) <==> (imm - v) % 4096 == 0
  {
    hide Wrap12, Wrap16, Wrap32;
    var a: int := Wrap32(v);
    var b: int := Wrap16(a);
    var c: int := Wrap12(b);
    WrapsKeep(v);
    WrapsKeep(a);
    WrapsKeep(b);
    var p, q, r := (a - v) / 0x1_0000_0000, (b - a) / 0x1_0000, (c - b) / 4096;
    assert a - v == 0x1_0000_0000 * p && b - a == 0x1_0000 * q && c - b == 4096 * r;
    var k := 0x10_0000 * p + 16 * q + r;
    assert c - v == 4096 * k;
    SameResidue(v, c, imm, k, 4096);
  }

  lemma LowBits20(v: int, imm: Imm20)
    ensures imm == Wrap20(Wrap32(v)) <==> (imm - v) % 0x10_0000 == 0
  {
    hide Wrap20, Wrap32;
    var a: int := Wrap32(v);
    var c: int := Wrap20(a);
    WrapsKeep(v);
    WrapsKeep(a);
    var p, r := (a - v) / 0x1_0000_0000, (c - a) / 0x10_0000;
    assert a - v == 0x1_0000_0000 * p && c - a == 0x10_0000 * r;
    assert c - v == 0x10_0000 * (4096 * p + r);
    SameResidue(v, c, imm, 4096 * p + r, 0x10_0000);
  }

  /** Two numbers of one residue in a range of that width are the same. */
  lemma SameResidue(v: int, c: int, imm: int, k: int, m: int)
    requires m > 0 && c - v == m * k && -m < imm - c < m
    ensures imm == c <==> (imm - v) % m == 0
  {
    if imm == c {
      DivModUnique(imm - v, k, 0, m);
    }
    if (imm - v) % m == 0 {
      var q := (imm - v) / m;
      assert imm - v == m * q;
      assert imm - c == m * (q - k);
      MulSign(q - k, m);
    }
  }

  lemma NumberIs(ts: seq<Token>, i: nat, e: nat)
    requires i <= e <= |ts|
    ensures NumberTokensAre(ts[i..e]) <==> StartsNumber(ts, i) && IsNumber(ts, i) && e == NumberEnd(ts, i)
    ensures NumberTokensAre(ts[i..e]) ==> NumberAt(ts, i) == Wrap32(NumberIn(ts[i..e]))
  {
    hide DecimalValue, Value, Wrap32;
    var a := ts[i..e];
    if |a| == 1 {
      assert a[0] == ts[i];
      ValueIs(ts[i].lexeme);
    } else if |a| == 2 {
      assert a[0] == ts[i] && a[1] == ts[i + 1];
      ValueIs(ts[i + 1].lexeme);
    }
  }

  // ----- operands -----

  lemma Operand12Reads(ts: seq<Token>, i: nat, e: nat, op: Operand12)
    requires i <= e <= |ts|
    ensures Operand12At(ts, i) == Some(Parsed(op, e)) <==> Operand12Is(ts[i..e], op)
  {
    hide NumberTokensAre, NumberIn, IsNumber, NumberAt, NumberEnd, Wrap12, Wrap16, Wrap32;
    NumberIs(ts, i, e);
    OneToken(ts, i, e);
    if op.Imm? && NumberTokensAre(ts[i..e]) {
      LowBits12(NumberIn(ts[i..e]), op.imm);
    }
    if StartsNumber(ts, i) && IsNumber(ts, i) {
      NumberEnds(ts, i);
      NumberIs(ts, i, NumberEnd(ts, i));
    }
  }

  lemma Operand20Reads(ts: seq<Token>, i: nat, e: nat, op: Operand20)
    requires i <= e <= |ts|
    ensures Operand20At(ts, i) == Some(Parsed(op, e)) <==> Operand20Is(ts[i..e], op)
  {
    hide NumberTokensAre, NumberIn, IsNumber, NumberAt, NumberEnd, Wrap20, Wrap32;
    NumberIs(ts, i, e);
    OneToken(ts, i, e);
    if op.UImm? && NumberTokensAre(ts[i..e]) {
      LowBits20(NumberIn(ts[i..e]), op.imm);
    }
    if StartsNumber(ts, i) && IsNumber(ts, i) {
      NumberEnds(ts, i);
      NumberIs(ts, i, NumberEnd(ts, i));
    }
  }

  lemma NumberEnds(ts: seq<Token>, i: nat)
    requires IsNumber(ts, i)
    ensures i < NumberEnd(ts, i) <= |ts|
  {
  }

  lemma OneToken(ts: seq<Token>, i: nat, e: nat)
    requires i <= e <= |ts|
    ensures forall name :: LabelIs(ts[i..e], name) <==> e == i + 1 && Is(ts, i, IDENTIFIER) && ts[i].lexeme == name
  {
    if e == i + 1 {
      assert ts[i..e][0] == ts[i];
    }
  }

  /** Every token from `i` on is well-formed, and a register there is read as the grammar says. */
  lemma RegAtIs(ts: seq<Token>, i: nat, r: Reg)
    requires AllWellFormed(ts) && i < |ts|
    ensures IsReg(ts, i) && RegAt(ts, i) == r <==> RegisterIs(ts[i], r)
  {
    hide ParseRegister, RegisterIs;
    RegisterReads(ts[i], r);
  }

  lemma NoReg(ts: seq<Token>, i: nat)
    requires AllWellFormed(ts) && i < |ts|
    ensures IsReg(ts, i) <==> exists r :: RegisterIs(ts[i], r)
  {
    hide ParseRegister, RegisterIs;
    if IsReg(ts, i) {
      RegAtIs(ts, i, RegAt(ts, i));
    }
    forall r | RegisterIs(ts[i], r) ensures IsReg(ts, i) {
      RegAtIs(ts, i, r);
    }
  }

  lemma R3Reads(m: Mnemonic, ts: seq<Token>, i: nat, e: nat, ins: Instruction)
    requires AllWellFormed(ts) && i <= e <= |ts| && RegisterForm(m)
    ensures R3Operands(m, ts, i) == Some(Parsed(ins, e)) <==> R3Line(m, ts[i..e], ins)
  {
    hide AllWellFormed;
    hide IsReg, RegAt, RegisterIs, RegisterForm;
    var a := ts[i..e];
    if e == i + 5 && ins.R3? {
      assert a[0] == ts[i] && a[1] == ts[i + 1] && a[2] == ts[i + 2] && a[3] == ts[i + 3] && a[4] == ts[i + 4];
      RegAtIs(ts, i, ins.rd);
      RegAtIs(ts, i + 2, ins.rs1);
      RegAtIs(ts, i + 4, ins.rs2);
    }
  }

  lemma R2Reads(m: Mnemonic, ts: seq<Token>, i: nat, e: nat, ins: Instruction)
    requires AllWellFormed(ts) && i <= e <= |ts| && OperandForm(m)
    ensures R2Operands(m, ts, i) == Some(Parsed(ins, e)) <==> R2Line(m, ts[i..e], ins)
  {
    hide AllWellFormed;
    hide IsReg, RegAt, RegisterIs, OperandForm, Operand12At, Operand12Is;
    var a := ts[i..e];
    if e > i + 4 && ins.R2? {
      assert a[0] == ts[i] && a[1] == ts[i + 1] && a[2] == ts[i + 2] && a[3] == ts[i + 3];
      RegAtIs(ts, i, ins.rd);
      RegAtIs(ts, i + 2, ins.rs1);
      Operand12Reads(ts, i + 4, e, ins.op);
      assert a[4..] == ts[i + 4..e];
    } else if R2Operands(m, ts, i) == Some(Parsed(ins, e)) {
      Operand12Ends(ts, i + 4);
    }
  }

  lemma Operand12Ends(ts: seq<Token>, i: nat)
    requires Operand12At(ts, i).Some?
    ensures i < Operand12At(ts, i).get.end <= |ts|
  {
  }

  lemma Operand20Ends(ts: seq<Token>, i: nat)
    requires Operand20At(ts, i).Some?
    ensures i < Operand20At(ts, i).get.end <= |ts|
  {
  }

  lemma R1Reads(m: Mnemonic, ts: seq<Token>, i: nat, e: nat, ins: Instruction)
    requires AllWellFormed(ts) && i <= e <= |ts| && UpperForm(m)
    ensures R1Operands(m, ts, i) == Some(Parsed(ins, e)) <==> R1Line(m, ts[i..e], ins)
  {
    hide AllWellFormed;
    hide IsReg, RegAt, RegisterIs, UpperForm, Operand20At, Operand20Is;
    var a := ts[i..e];
    if e > i + 2 && ins.R1? {
      assert a[0] == ts[i] && a[1] == ts[i + 1];
      RegAtIs(ts, i, ins.rd);
      Operand20Reads(ts, i + 2, e, ins.uop);
      assert a[2..] == ts[i + 2..e];
    } else if R1Operands(m, ts, i) == Some(Parsed(ins, e)) {
      Operand20Ends(ts, i + 2);
    }
  }

  /** `number? ( register )` */
  lemma PlaceReads(ts: seq<Token>, i: nat, e: nat, offset: Imm12, r: Reg)
    requires AllWellFormed(ts) && i <= e <= |ts|
    ensures MemoryOperandAt(ts, i) == Some(Parsed((offset, r), e)) <==> PlaceIs(ts, i, e, offset, r)
  {
    hide IsReg, RegAt, RegisterIs, NumberTokensAre, NumberIn, IsNumber, NumberAt, NumberEnd, Wrap12, Wrap16, Wrap32;
    var d := if StartsNumber(ts, i) then NumberEnd(ts, i) else i;
    if StartsNumber(ts, i) && IsNumber(ts, i) {
      NumberEnds(ts, i);
      NumberIs(ts, i, d);
      LowBits12(NumberIn(ts[i..d]), offset);
    }
    if e >= i + 3 {
      NumberIs(ts, i, e - 3);
      RegAtIs(ts, e - 2, r);
      NoNumber(ts, i);
    }
  }

  lemma NoNumber(ts: seq<Token>, i: nat)
    ensures Is(ts, i, LPAREN) ==> !StartsNumber(ts, i)
  {
  }

  predicate PlaceIs(ts: seq<Token>, i: nat, e: nat, offset: Imm12, r: Reg)
    requires i <= e <= |ts|
  {
    && e >= i + 3 && ts[e - 3].kind == LPAREN && ts[e - 1].kind == RPAREN && RegisterIs(ts[e - 2], r)
    && (if e == i + 3 then offset == 0 else Immediate12Is(ts[i..e - 3], offset))
  }

  lemma MemoryParts(m: Mnemonic, ts: seq<Token>, i: nat, e: nat, ins: Instruction)
    requires i + 5 <= e <= |ts| && MemoryForm(m) && ins.Mem? && ins.mnemonic == m
    ensures MemoryLine(m, ts[i..e], ins)
       <==> ts[i + 1].kind == COMMA && RegisterIs(ts[i], ins.rd) && PlaceIs(ts, i + 2, e, ins.offset, ins.rs1)
  {
    hide RegisterIs, MemoryForm, Immediate12Is;
    var a := ts[i..e];
    assert a[0] == ts[i] && a[1] == ts[i + 1];
    assert a[|a| - 3] == ts[e - 3] && a[|a| - 2] == ts[e - 2] && a[|a| - 1] == ts[e - 1];
    Slice(ts, i, e, 2, |a| - 3);
  }

  lemma MemoryReads(m: Mnemonic, ts: seq<Token>, i: nat, e: nat, ins: Instruction)
    requires AllWellFormed(ts) && i <= e <= |ts| && MemoryForm(m)
    ensures MemOperands(m, ts, i) == Some(Parsed(ins, e)) <==> MemoryLine(m, ts[i..e], ins)
  {
    hide IsReg, RegAt, RegisterIs, MemoryForm, MemoryOperandAt, PlaceIs, AllWellFormed;
    if e >= i + 5 && ins.Mem? {
      if ins.mnemonic == m {
        MemoryParts(m, ts, i, e, ins);
      }
      RegAtIs(ts, i, ins.rd);
      PlaceReads(ts, i + 2, e, ins.offset, ins.rs1);
    } else if MemOperands(m, ts, i) == Some(Parsed(ins, e)) {
      PlaceEnds(ts, i + 2);
    }
  }

  lemma Slice(ts: seq<Token>, i: nat, e: nat, x: nat, y: nat)
    requires i <= e <= |ts| && x <= y <= e - i
    ensures ts[i..e][x..y] == ts[i + x..i + y]
  {
    forall k | 0 <= k < y - x ensures ts[i..e][x..y][k] == ts[i + x..i + y][k] {
      assert ts[i..e][x + k] == ts[i + x + k];
    }
  }

  lemma PlaceEnds(ts: seq<Token>, i: nat)
    requires MemoryOperandAt(ts, i).Some?
    ensures i + 3 <= MemoryOperandAt(ts, i).get.end <= |ts|
  {
  }

  // ----- pseudo-instructions -----

  lemma PairReads(ts: seq<Token>, i: nat, rd: Reg, rs: Reg)
    requires AllWellFormed(ts) && i + 3 <= |ts|
    ensures TwoRegs(ts, i) && RegAt(ts, i) == rd && RegAt(ts, i + 2) == rs <==> PairIs(ts[i..i + 3], rd, rs)
  {
    hide IsReg, RegAt, RegisterIs;
    var a := ts[i..i + 3];
    assert a[0] == ts[i] && a[1] == ts[i + 1] && a[2] == ts[i + 2];
    RegAtIs(ts, i, rd);
    RegAtIs(ts, i + 2, rs);
  }

  /** The registers of a pair are those that the parser reads, and there is no pair otherwise. */
  lemma ThePair(ts: seq<Token>, i: nat, e: nat)
    requires AllWellFormed(ts) && i <= e <= |ts|
    ensures forall rd: Reg, rs: Reg :: PairIs(ts[i..e], rd, rs)
                       <==> e == i + 3 && TwoRegs(ts, i) && RegAt(ts, i) == rd && RegAt(ts, i + 2) == rs
  {
    hide IsReg, RegAt, RegisterIs;
    if e == i + 3 {
      forall rd: Reg, rs: Reg
        ensures TwoRegs(ts, i) && RegAt(ts, i) == rd && RegAt(ts, i + 2) == rs <==> PairIs(ts[i..e], rd, rs)
      {
        PairReads(ts, i, rd, rs);
      }
    }
  }

  lemma PairPseudo(m: Mnemonic, ts: seq<Token>, i: nat, e: nat, ins: Instruction)
    requires AllWellFormed(ts) && i <= e <= |ts| && (m == MV || m == NOT || m == SEQZ || m == SNEZ)
    ensures SpecialOperands(m, ts, i) == Some(Parsed(ins, e)) <==> PseudoLine(m, ts[i..e], ins)
  {
    hide AllWellFormed;
    hide TwoRegs, RegAt, PairIs, LabelIs, RegisterIs;
    ThePair(ts, i, e);
    PairInside(ts, i);
    if TwoRegs(ts, i) && e == i + 3 {
      assert PairIs(ts[i..e], RegAt(ts, i), RegAt(ts, i + 2));
    }
  }

  lemma PairInside(ts: seq<Token>, i: nat)
    ensures TwoRegs(ts, i) ==> IsReg(ts, i) && IsReg(ts, i + 2) && i + 3 <= |ts|
  {
  }

  lemma NamePseudo(ts: seq<Token>, i: nat, e: nat, ins: Instruction)
    requires i <= e <= |ts|
    ensures SpecialOperands(J, ts, i) == Some(Parsed(ins, e)) <==> PseudoLine(J, ts[i..e], ins)
  {
    hide LabelIs;
    OneToken(ts, i, e);
    if Is(ts, i, IDENTIFIER) && e == i + 1 {
      assert LabelIs(ts[i..e], ts[i].lexeme);
    }
  }

  lemma RegisterPseudo(ts: seq<Token>, i: nat, e: nat, ins: Instruction)
    requires AllWellFormed(ts) && i <= e <= |ts|
    ensures SpecialOperands(JR, ts, i) == Some(Parsed(ins, e)) <==> PseudoLine(JR, ts[i..e], ins)
  {
    hide IsReg, RegAt, RegisterIs;
    RegInside(ts, i);
    if e == i + 1 {
      assert ts[i..e][0] == ts[i];
      forall r: Reg ensures IsReg(ts, i) && RegAt(ts, i) == r <==> RegisterIs(ts[i], r) {
        RegAtIs(ts, i, r);
      }
      if IsReg(ts, i) {
        assert RegisterIs(ts[i], RegAt(ts, i));
      }
    }
  }

  lemma BarePseudo(m: Mnemonic, ts: seq<Token>, i: nat, e: nat, ins: Instruction)
    requires i <= e <= |ts| && (m == RET || m == NOP || m == FENCE || m == ECALL || m == EBREAK)
    ensures SpecialOperands(m, ts, i) == Some(Parsed(ins, e)) <==> PseudoLine(m, ts[i..e], ins)
  {
    hide SpecialOperands, PseudoLine;
    BareParsed(m, ts, i);
    BareDenotes(m, ts[i..e], ins);
    assert ts[i..e] == [] <==> e == i;
  }

  /** What an instruction without operands stands for. */
  function Bare(m: Mnemonic): Instruction {
    if m == RET then R2(JALR, 0, 1, Imm(0)) else if m == NOP then R2(ADDI, 0, 0, Imm(0)) else R2(m, 0, 0, Imm(0))
  }

  lemma BareParsed(m: Mnemonic, ts: seq<Token>, i: nat)
    requires m == RET || m == NOP || m == FENCE || m == ECALL || m == EBREAK
    ensures SpecialOperands(m, ts, i) == Some(Parsed(Bare(m), i))
  {
    hide IsReg, RegAt, TwoRegs, Is;
  }

  lemma BareDenotes(m: Mnemonic, a: seq<Token>, ins: Instruction)
    requires m == RET || m == NOP || m == FENCE || m == ECALL || m == EBREAK
    ensures PseudoLine(m, a, ins) <==> a == [] && ins == Bare(m)
  {
    hide PairIs, LabelIs, RegisterIs;
  }

  lemma NoPseudo(m: Mnemonic, ts: seq<Token>, i: nat, e: nat, ins: Instruction)
    requires i <= e <= |ts|
    requires m != MV && m != NOT && m != SEQZ && m != SNEZ && m != J && m != JR
    requires m != RET && m != NOP && m != FENCE && m != ECALL && m != EBREAK
    ensures SpecialOperands(m, ts, i).None? && !PseudoLine(m, ts[i..e], ins)
  {
    hide PairIs, LabelIs, RegisterIs;
  }

  lemma PseudoReads(m: Mnemonic, ts: seq<Token>, i: nat, e: nat, ins: Instruction)
    requires AllWellFormed(ts) && i <= e <= |ts|
    ensures SpecialOperands(m, ts, i) == Some(Parsed(ins, e)) <==> PseudoLine(m, ts[i..e], ins)
  {
    hide SpecialOperands, PseudoLine, AllWellFormed;
    if m == MV || m == NOT || m == SEQZ || m == SNEZ {
      PairPseudo(m, ts, i, e, ins);
    } else if m == J {
      NamePseudo(ts, i, e, ins);
    } else if m == JR {
      RegisterPseudo(ts, i, e, ins);
    } else if m == RET || m == NOP || m == FENCE || m == ECALL || m == EBREAK {
      BarePseudo(m, ts, i, e, ins);
    } else {
      NoPseudo(m, ts, i, e, ins);
    }
  }

  lemma RegInside(ts: seq<Token>, i: nat)
    ensures IsReg(ts, i) ==> i < |ts|
  {
  }

  // ----- lines -----

  /** The parser's grouping of the mnemonics is that of the grammar. */
  lemma FormsAgree(m: Mnemonic)
    ensures GetInstructionType(m) == TYPE_R3 <==> RegisterForm(m)
    ensures GetInstructionType(m) == TYPE_R2_OP <==> OperandForm(m)
    ensures GetInstructionType(m) == TYPE_R1_OP <==> UpperForm(m)
    ensures GetInstructionType(m) == TYPE_MEM <==> MemoryForm(m)
  {
  }

  lemma FormsOnly(m: Mnemonic, a: seq<Token>, ins: Instruction)
    ensures R3Line(m, a, ins) ==> RegisterForm(m)
    ensures R2Line(m, a, ins) ==> OperandForm(m)
    ensures R1Line(m, a, ins) ==> UpperForm(m)
    ensures MemoryLine(m, a, ins) ==> MemoryForm(m)
  {
    hide RegisterForm, OperandForm, UpperForm, MemoryForm, RegisterIs, Operand12Is, Operand20Is, Immediate12Is;
  }

  lemma PseudoNames(m: Mnemonic, a: seq<Token>, ins: Instruction)
    requires PseudoLine(m, a, ins)
    ensures m == MV || m == NOT || m == SEQZ || m == SNEZ || m == J || m == JR || m == RET || m == NOP || m == FENCE
         || m == ECALL || m == EBREAK
  {
    hide PairIs, LabelIs, RegisterIs;
  }

  lemma PseudoType(m: Mnemonic, a: seq<Token>, ins: Instruction)
    requires PseudoLine(m, a, ins)
    ensures GetInstructionType(m) == PSEUDO
  {
    hide PseudoLine;
    PseudoNames(m, a, ins);
  }

  lemma OperandsRead(m: Mnemonic, ts: seq<Token>, i: nat, e: nat, ins: Instruction)
    requires AllWellFormed(ts) && i <= e <= |ts|
    ensures Operands(m, ts, i) == Some(Parsed(ins, e)) <==> OperandsDenote(m, ts[i..e], ins)
  {
    hide GetInstructionType, R3Operands, R2Operands, R1Operands, MemOperands, SpecialOperands;
    hide RegisterForm, OperandForm, UpperForm, MemoryForm, PseudoLine, R3Line, R2Line, R1Line, MemoryLine;
    hide AllWellFormed;
    FormsAgree(m);
    var a := ts[i..e];
    FormsOnly(m, a, ins);
    if PseudoLine(m, a, ins) {
      PseudoType(m, a, ins);
    }
    match GetInstructionType(m) {
      case TYPE_R3 => R3Reads(m, ts, i, e, ins);
      case TYPE_R2_OP => R2Reads(m, ts, i, e, ins);
      case TYPE_R1_OP => R1Reads(m, ts, i, e, ins);
      case TYPE_MEM => MemoryReads(m, ts, i, e, ins);
      case PSEUDO => PseudoReads(m, ts, i, e, ins);
    }
  }

  lemma CapitalOf(c: char, small: char)
    requires 'a' <= small <= 'z'
    ensures SameLetter(c, small) <==> LowerChar(c) == small
  {
    var k := small as int - 'a' as int;
    assert CAPITALS[k] as int == 65 + k by { Alphabet(k); }
  }

  lemma Alphabet(k: nat)
    requires k < 26
    ensures CAPITALS[k] as int == 65 + k
  {
    if k < 13 {
      assert k == 0 || k == 1 || k == 2 || k == 3 || k == 4 || k == 5 || k == 6 || k == 7 || k == 8 || k == 9
             || k == 10 || k == 11 || k == 12;
    }
  }

  /** Lower-casing a word gives a name exactly when the word spells it. */
  lemma WordSpells(word: string, m: Mnemonic)
    ensures GetMnemonic(word) == Some(m) <==> SpellsName(word, Name(m))
  {
    hide GetMnemonic, Name, SameLetter, LowerChar;
    TrieIsTable(word, m);
    NameSmall(m);
    forall i | 0 <= i < |word| && |word| == |Name(m)|
      ensures SameLetter(word[i], Name(m)[i]) <==> Lower(word)[i] == Name(m)[i]
    {
      CapitalOf(word[i], Name(m)[i]);
    }
  }

  predicate Small(s: string) {
    forall k :: 0 <= k < |s| ==> 'a' <= s[k] <= 'z'
  }

  lemma OperandNameSmall(m: Mnemonic)
    requires OperandForm(m) || RegisterForm(m)
    ensures Small(Name(m))
  {
  }

  lemma NameSmall(m: Mnemonic)
    ensures Small(Name(m))
  {
    if OperandForm(m) || RegisterForm(m) {
      OperandNameSmall(m);
    }
  }

  /** A line is read as the instruction it denotes. */
  lemma LineReads(ts: seq<Token>, i: nat, n: nat, ins: Instruction)
    requires AllWellFormed(ts) && i + n < |ts|
    ensures Line(ts, i) == Some(Parsed(ins, i + n + 1))
       <==> ts[i + n].kind == NEWLINE && LineDenotes(ts[i..i + n], ins)
  {
    hide Operands, OperandsDenote, GetMnemonic, SpellsName, Name, AllWellFormed;
    var line := ts[i..i + n];
    if n > 0 {
      assert line[0] == ts[i] && line[1..] == ts[i + 1..i + n];
      forall m ensures GetMnemonic(ts[i].lexeme) == Some(m) <==> SpellsName(line[0].lexeme, Name(m)) {
        WordSpells(ts[i].lexeme, m);
      }
      forall m ensures Operands(m, ts, i + 1) == Some(Parsed(ins, i + n)) <==> OperandsDenote(m, line[1..], ins) {
        OperandsRead(m, ts, i + 1, i + n, ins);
      }
    } else {
      LineEnds(ts, i);
      OperandsAhead(ts, i);
    }
  }

  lemma OperandsAhead(ts: seq<Token>, i: nat)
    requires i < |ts|
    ensures Line(ts, i).Some? ==> i + 1 < Line(ts, i).get.end
  {
  }

  lemma FormFirst(m: Mnemonic, a: seq<Token>, ins: Instruction)
    requires R3Line(m, a, ins) || R2Line(m, a, ins) || R1Line(m, a, ins) || MemoryLine(m, a, ins)
    ensures a != [] && a[0].kind == IDENTIFIER
  {
    hide RegisterForm, OperandForm, UpperForm, MemoryForm, Operand12Is, Operand20Is, Immediate12Is, Value;
  }

  lemma PseudoFirst(m: Mnemonic, a: seq<Token>, ins: Instruction)
    requires PseudoLine(m, a, ins) && a != []
    ensures a[0].kind == IDENTIFIER
  {
    hide Value;
  }

  /** Operands start with a word. */
  lemma WordFirst(m: Mnemonic, a: seq<Token>, ins: Instruction)
    requires OperandsDenote(m, a, ins) && a != []
    ensures a[0].kind == IDENTIFIER
  {
    hide R3Line, R2Line, R1Line, MemoryLine, PseudoLine;
    if PseudoLine(m, a, ins) {
      PseudoFirst(m, a, ins);
    } else {
      FormFirst(m, a, ins);
    }
  }

  lemma ColonFirst(ts: seq<Token>, n: nat, ins: Instruction)
    requires LineFirst(ts, n, ins) && |ts| >= 2
    ensures ts[1].kind != COLON
  {
    hide OperandsDenote, SpellsName, Name;
    var line := ts[..n];
    var m :| SpellsName(line[0].lexeme, Name(m)) && OperandsDenote(m, line[1..], ins);
    if n >= 2 {
      assert line[1..][0] == ts[1];
      WordFirst(m, line[1..], ins);
    }
  }

  // ----- programs -----

  const MARK := Token(EOF, "")

  lemma MarkedWellFormed(ts: seq<Token>)
    requires Printable(ts)
    ensures AllWellFormed(ts + [MARK])
  {
  }

  /** A line of the marked list is a line of the list. */
  lemma LineInside(ts: seq<Token>, i: nat, n: nat, ins: Instruction)
    requires Printable(ts) && i + n < |ts|
    ensures Line(ts + [MARK], i) == Some(Parsed(ins, i + n + 1)) <==> LineFirst(ts[i..], n, ins)
  {
    hide Line, LineDenotes, Printable, AllWellFormed;
    MarkedWellFormed(ts);
    LineReads(ts + [MARK], i, n, ins);
    assert (ts + [MARK])[i..i + n] == ts[i..][..n];
  }

  lemma LineBefore(ts: seq<Token>, i: nat)
    requires Printable(ts) && i < |ts| && Line(ts + [MARK], i).Some?
    ensures i + 1 < Line(ts + [MARK], i).get.end <= |ts|
  {
    hide Operands, GetMnemonic;
    var full := ts + [MARK];
    OperandsAhead(full, i);
    LineEnds(full, i);
    assert full[|ts|] == MARK;
  }

  /** The parser reads a program from a list of tokens exactly when the list denotes it. */
  lemma {:induction false} ParserIsGrammar(ts: seq<Token>, i: nat, ir: seq<Element>)
    requires Printable(ts) && i <= |ts|
    ensures Elements(ts + [MARK], i) == Ok(ir) <==> Denotes(ts[i..], ir)
    decreases |ts| - i
  {
    hide Line, LineFirst, Printable;
    var full := ts + [MARK];
    if i == |ts| {
    } else if ts[i].kind == NEWLINE {
      ParserIsGrammar(ts, i + 1, ir);
      assert ts[i..][1..] == ts[i + 1..];
    } else if Is(full, i + 1, COLON) {
      LabelReads(ts, i, ir);
    } else {
      InstructionReads(ts, i, ir);
    }
  }

  lemma {:induction false} LabelReads(ts: seq<Token>, i: nat, ir: seq<Element>)
    requires Printable(ts) && i < |ts| && ts[i].kind != NEWLINE && Is(ts + [MARK], i + 1, COLON)
    ensures Elements(ts + [MARK], i) == Ok(ir) <==> Denotes(ts[i..], ir)
    decreases |ts| - i, 0
  {
    hide Line, LineFirst;
    var full, here := ts + [MARK], ts[i..];
    assert i + 2 <= |ts| && here[1] == ts[i + 1] && here[0] == ts[i];
    assert here[2..] == ts[i + 2..];
    if ir != [] {
      ParserIsGrammar(ts, i + 2, ir[1..]);
      if ir[0].Instr? {
        forall n: nat | LineFirst(here, n, ir[0].ins) ensures false {
          ColonFirst(here, n, ir[0].ins);
        }
      }
      assert ir == [ir[0]] + ir[1..];
    }
  }

  /** What the parser makes of an instruction line and the rest. */
  lemma AfterLine(ts: seq<Token>, i: nat, ir: seq<Element>)
    requires Printable(ts) && i < |ts| && ts[i].kind != NEWLINE && !Is(ts + [MARK], i + 1, COLON)
    requires ir != [] && ir[0].Instr?
    ensures Elements(ts + [MARK], i) == Ok(ir)
       <==> && Line(ts + [MARK], i).Some? && Line(ts + [MARK], i).get.value == ir[0].ins
            && Elements(ts + [MARK], Line(ts + [MARK], i).get.end) == Ok(ir[1..])
  {
    hide Line;
    var full := ts + [MARK];
    assert ir == [ir[0]] + ir[1..];
    LineEnds(full, i);
  }

  /** A line and what follows it, put together and taken apart. */
  lemma LineJoins(ts: seq<Token>, i: nat, n: nat, ir: seq<Element>)
    requires i + n < |ts| && ts[i].kind != NEWLINE && ir != [] && ir[0].Instr?
    requires LineFirst(ts[i..], n, ir[0].ins) && Denotes(ts[i + n + 1..], ir[1..])
    ensures Denotes(ts[i..], ir)
  {
    hide LineFirst;
    assert ts[i..][n + 1..] == ts[i + n + 1..];
  }

  lemma LineParts(ts: seq<Token>, i: nat, ir: seq<Element>) returns (n: nat)
    requires i < |ts| && ts[i].kind != NEWLINE && ir != [] && ir[0].Instr? && Denotes(ts[i..], ir)
    ensures i + n < |ts| && LineFirst(ts[i..], n, ir[0].ins) && Denotes(ts[i + n + 1..], ir[1..])
  {
    hide LineFirst;
    var here := ts[i..];
    n :| n < |here| && LineFirst(here, n, ir[0].ins) && Denotes(here[n + 1..], ir[1..]);
    assert here[n + 1..] == ts[i + n + 1..];
  }

  lemma {:induction false} InstructionReads(ts: seq<Token>, i: nat, ir: seq<Element>)
    requires Printable(ts) && i < |ts| && ts[i].kind != NEWLINE && !Is(ts + [MARK], i + 1, COLON)
    ensures Elements(ts + [MARK], i) == Ok(ir) <==> Denotes(ts[i..], ir)
    decreases |ts| - i, 0
  {
    hide Line, LineFirst, Printable, Elements, Denotes;
    var full := ts + [MARK];
    if ir == [] || !ir[0].Instr? {
      NotInstruction(ts, i, ir);
    } else {
      var ins := ir[0].ins;
      AfterLine(ts, i, ir);
      if Elements(full, i) == Ok(ir) {
        LineBefore(ts, i);
        var n: nat := Line(full, i).get.end - i - 1;
        LineInside(ts, i, n, ins);
        ParserIsGrammar(ts, i + n + 1, ir[1..]);
        LineJoins(ts, i, n, ir);
      }
      if Denotes(ts[i..], ir) {
        var n := LineParts(ts, i, ir);
        LineInside(ts, i, n, ins);
        ParserIsGrammar(ts, i + n + 1, ir[1..]);
      }
    }
  }

  lemma NotInstruction(ts: seq<Token>, i: nat, ir: seq<Element>)
    requires Printable(ts) && i < |ts| && ts[i].kind != NEWLINE && !Is(ts + [MARK], i + 1, COLON)
    requires ir == [] || !ir[0].Instr?
    ensures Elements(ts + [MARK], i) != Ok(ir) && !Denotes(ts[i..], ir)
  {
    hide Line, LineFirst;
    var full, here := ts + [MARK], ts[i..];
    assert |here| >= 2 ==> here[1] == full[i + 1];
    LineEnds(full, i);
  }
}
