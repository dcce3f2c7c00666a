/** Which programs a list of tokens denotes, by the grammar of the language: independent of how the parser reads it. */
module Grammar {
  import opened Ir
  import opened Mnemonics
  import opened Lexer

  // ----- words and numbers -----

  const CAPITALS := "ABCDEFGHIJKLMNOPQRSTUVWXYZ"

  /** `word` is the lower-case `name`, in any mixture of small and capital letters. */
  predicate SpellsName(word: string, name: string) {
    |word| == |name| && forall i :: 0 <= i < |word| ==> SameLetter(word[i], name[i])
  }

  predicate SameLetter(c: char, small: char) {
    c == small || ('a' <= small <= 'z' && c == CAPITALS[small as int - 'a' as int])
  }

  function Power10(n: nat): nat {
    if n == 0 then 1 else 10 * Power10(n - 1)
  }

  /** The number that decimal digits stand for, leading zeros or not. */
  function Value(digits: string): int {
    if digits == "" then 0
    else (digits[0] as int - 48) * Power10(|digits| - 1) + Value(digits[1..])
  }

  /** The largest number that can be written. */
  const LARGEST := 9223372036854775807

  predicate IsToken(t: Token, kind: Kind) {
    t.kind == kind
  }

  /** `x` or `X` and the number of the register; no number stands for 0. */
  predicate RegisterIs(t: Token, r: Reg) {
    && t.kind == IDENTIFIER && t.lexeme != "" && (t.lexeme[0] == 'x' || t.lexeme[0] == 'X')
    && (forall i :: 1 <= i < |t.lexeme| ==> Numeral(t.lexeme[i]))
    && Value(t.lexeme[1..]) == r
  }

  /** Digits, with or without a sign. */
  predicate NumberTokensAre(ts: seq<Token>) {
    || (|ts| == 1 && ts[0].kind == DECIMAL)
    || (|ts| == 2 && ts[0].kind == MINUS && ts[1].kind == DECIMAL)
  }

  function NumberIn(ts: seq<Token>): int
    requires NumberTokensAre(ts)
  {
    var v := Value(ts[|ts| - 1].lexeme);
    var magnitude := if v > LARGEST then LARGEST else v;
    if |ts| == 2 then -magnitude else magnitude
  }

  /** An immediate keeps the low bits of the number written. */
  predicate Immediate12Is(ts: seq<Token>, imm: Imm12) {
    NumberTokensAre(ts) && (imm - NumberIn(ts)) % 4096 == 0
  }

  predicate Immediate20Is(ts: seq<Token>, imm: Imm20) {
    NumberTokensAre(ts) && (imm - NumberIn(ts)) % 0x10_0000 == 0
  }

  predicate LabelIs(ts: seq<Token>, name: string) {
    |ts| == 1 && ts[0].kind == IDENTIFIER && ts[0].lexeme == name
  }

  predicate Operand12Is(ts: seq<Token>, op: Operand12) {
    match op
    case Imm(v) => Immediate12Is(ts, v)
    case Label(name) => LabelIs(ts, name)
  }

  predicate Operand20Is(ts: seq<Token>, op: Operand20) {
    match op
    case UImm(v) => Immediate20Is(ts, v)
    case ULabel(name) => LabelIs(ts, name)
  }

  // ----- the forms of instructions -----

  /** Three registers. */
  predicate RegisterForm(m: Mnemonic) {
    match m
    case ADD | SUB | SLT | SLTU | AND | OR | XOR | SLL | SRL | SRA => true
    case _ => false
  }

  /** Two registers and an immediate or a label. */
  predicate OperandForm(m: Mnemonic) {
    match m
    case ADDI | SLTI | SLTIU | ANDI | ORI | XORI | SLLI | SRLI | SRAI
      | BEQ | BNE | BLT | BLTU | BGE | BGEU | JALR => true
    case _ => false
  }

  /** A register and an immediate or a label. */
  predicate UpperForm(m: Mnemonic) {
    match m
    case LUI | AUIPC | JAL => true
    case _ => false
  }

  /** A register and a place in memory. */
  predicate MemoryForm(m: Mnemonic) {
    match m
    case LW | LH | LHU | LB | LBU | SW | SH | SB => true
    case _ => false
  }

  /** rd, rs1, rs2 */
  predicate R3Line(m: Mnemonic, a: seq<Token>, ins: Instruction) {
    && RegisterForm(m) && ins.R3? && ins.mnemonic == m
    && |a| == 5 && a[1].kind == COMMA && a[3].kind == COMMA
    && RegisterIs(a[0], ins.rd) && RegisterIs(a[2], ins.rs1) && RegisterIs(a[4], ins.rs2)
  }

  /** rd, rs1, operand */
  predicate R2Line(m: Mnemonic, a: seq<Token>, ins: Instruction) {
    && OperandForm(m) && ins.R2? && ins.mnemonic == m
    && |a| > 4 && a[1].kind == COMMA && a[3].kind == COMMA
    && RegisterIs(a[0], ins.rd) && RegisterIs(a[2], ins.rs1) && Operand12Is(a[4..], ins.op)
  }

  /** rd, operand */
  predicate R1Line(m: Mnemonic, a: seq<Token>, ins: Instruction) {
    && UpperForm(m) && ins.R1? && ins.mnemonic == m
    && |a| > 2 && a[1].kind == COMMA && RegisterIs(a[0], ins.rd) && Operand20Is(a[2..], ins.uop)
  }

  /** rd, offset ( rs1 ), a missing offset being 0 */
  predicate MemoryLine(m: Mnemonic, a: seq<Token>, ins: Instruction) {
    var n := |a|;
    && MemoryForm(m) && ins.Mem? && ins.mnemonic == m
    && n >= 5 && a[1].kind == COMMA && a[n - 3].kind == LPAREN && a[n - 1].kind == RPAREN
    && RegisterIs(a[0], ins.rd) && RegisterIs(a[n - 2], ins.rs1)
    && (if n == 5 then ins.offset == 0 else Immediate12Is(a[2..n - 3], ins.offset))
  }

  /** Two registers, the operands of a pseudo-instruction. */
  predicate PairIs(a: seq<Token>, rd: Reg, rs: Reg) {
    |a| == 3 && a[1].kind == COMMA && RegisterIs(a[0], rd) && RegisterIs(a[2], rs)
  }

  /** What the pseudo-instructions stand for. */
  ghost predicate PseudoLine(m: Mnemonic, a: seq<Token>, ins: Instruction) {
    || (m == MV && exists rd, rs :: PairIs(a, rd, rs) && ins == R2(ADDI, rd, rs, Imm(0)))
    || (m == NOT && exists rd, rs :: PairIs(a, rd, rs) && ins == R2(XORI, rd, rs, Imm(-1)))
    || (m == SEQZ && exists rd, rs :: PairIs(a, rd, rs) && ins == R2(SLTIU, rd, rs, Imm(1)))
    || (m == SNEZ && exists rd, rs :: PairIs(a, rd, rs) && ins == R3(SLTU, rd, 0, rs))
    || (m == J && exists name :: LabelIs(a, name) && ins == R1(JAL, 0, ULabel(name)))
    || (m == JR && |a| == 1 && exists rs :: RegisterIs(a[0], rs) && ins == R2(JALR, 0, rs, Imm(0)))
    || (m == RET && a == [] && ins == R2(JALR, 0, 1, Imm(0)))
    || (m == NOP && a == [] && ins == R2(ADDI, 0, 0, Imm(0)))
    || ((m == FENCE || m == ECALL || m == EBREAK) && a == [] && ins == R2(m, 0, 0, Imm(0)))
  }

  /** The operands `a` of mnemonic `m` make the instruction `ins`. */
  ghost predicate OperandsDenote(m: Mnemonic, a: seq<Token>, ins: Instruction) {
    R3Line(m, a, ins) || R2Line(m, a, ins) || R1Line(m, a, ins) || MemoryLine(m, a, ins) || PseudoLine(m, a, ins)
  }

  /** A line without its end denotes an instruction. */
  ghost predicate LineDenotes(line: seq<Token>, ins: Instruction) {
    |line| > 0 && exists m :: SpellsName(line[0].lexeme, Name(m)) && OperandsDenote(m, line[1..], ins)
  }

  // ----- programs -----

  /** `ts` starts with a label. */
  predicate LabelFirst(ts: seq<Token>, name: string) {
    |ts| >= 2 && ts[0].kind != NEWLINE && ts[1].kind == COLON && ts[0].lexeme == name
  }

  /** `ts` starts with a line of `n` tokens and its end. */
  ghost predicate LineFirst(ts: seq<Token>, n: nat, ins: Instruction) {
    n < |ts| && ts[n].kind == NEWLINE && LineDenotes(ts[..n], ins)
  }

  /** The tokens denote the program: line ends anywhere between elements, labels anywhere before a line, on a line
      of their own or not, and instructions that end with their line. */
  ghost predicate Denotes(ts: seq<Token>, ir: seq<Element>)
    decreases |ts|
  {
    if ts == [] then ir == []
    else if ts[0].kind == NEWLINE then Denotes(ts[1..], ir)
    else
      && ir != []
      && match ir[0]
         case LabelDecl(name) => LabelFirst(ts, name) && Denotes(ts[2..], ir[1..])
         case Instr(ins) => exists n: nat :: n < |ts| && LineFirst(ts, n, ins) && Denotes(ts[n + 1..], ir[1..])
         case Directive(_, _) => false
  }

  lemma LineStays(ts: seq<Token>, more: seq<Token>, n: nat, ins: Instruction)
    requires LineFirst(ts, n, ins)
    ensures LineFirst(ts + more, n, ins)
  {
    hide LineDenotes;
    assert (ts + more)[..n] == ts[..n];
  }

  /** One list of tokens after the other denotes one program after the other. */
  lemma {:induction false} DenotesJoin(x: seq<Token>, y: seq<Token>, a: seq<Element>, b: seq<Element>)
    requires Denotes(x, a) && Denotes(y, b)
    ensures Denotes(x + y, a + b)
    decreases |x|
  {
    hide LineFirst;
    if x == [] {
      assert x + y == y && a + b == b;
    } else if x[0].kind == NEWLINE {
      DenotesJoin(x[1..], y, a, b);
      assert (x + y)[1..] == x[1..] + y;
    } else {
      assert (a + b)[1..] == a[1..] + b;
      match a[0] {
        case LabelDecl(name) =>
          DenotesJoin(x[2..], y, a[1..], b);
          assert (x + y)[2..] == x[2..] + y;
        case Instr(ins) =>
          var n: nat :| n < |x| && LineFirst(x, n, ins) && Denotes(x[n + 1..], a[1..]);
          DenotesJoin(x[n + 1..], y, a[1..], b);
          LineStays(x, y, n, ins);
          assert (x + y)[n + 1..] == x[n + 1..] + y;
      }
    }
  }
}
