/** What pseudo-instructions abbreviate, and what a written immediate becomes. */
module Pseudo {
  import opened Words
  import opened Ir
  import opened Mnemonics
  import opened Lexer
  import opened Parser
  import opened Grammar
  import opened RoundTrip
  import Sentences

  // ----- pseudo-instructions -----

  /** Token `k` of a line, if there is one. */
  function Nth(line: seq<Token>, k: nat): Token {
    if k < |line| then line[k] else Token(EOF, "")
  }

  function R2Line(m: Mnemonic, rd: Token, rs1: Token, imm: int): seq<Token> {
    [Word(Name(m)), rd, Comma, rs1, Comma] + NumberTokens(imm) + [Newline]
  }

  /** The line that a pseudo-instruction abbreviates. */
  function Expansion(m: Mnemonic, line: seq<Token>): Option<seq<Token>> {
    var x0, x1 := RegToken(0), RegToken(1);
    match m
    case MV => Some(R2Line(ADDI, Nth(line, 1), Nth(line, 3), 0))
    case NOT => Some(R2Line(XORI, Nth(line, 1), Nth(line, 3), -1))
    case SEQZ => Some(R2Line(SLTIU, Nth(line, 1), Nth(line, 3), 1))
    case SNEZ => Some([Word(Name(SLTU)), Nth(line, 1), Comma, x0, Comma, Nth(line, 3), Newline])
    case J => Some([Word(Name(JAL)), x0, Comma, Nth(line, 1), Newline])
    case JR => Some(R2Line(JALR, x0, Nth(line, 1), 0))
    case RET => Some(R2Line(JALR, x0, x1, 0))
    case NOP => Some(R2Line(ADDI, x0, x0, 0))
    case _ => None
  }

  lemma R2LineReads(m: Mnemonic, rd: Token, rs1: Token, imm: Imm12)
    requires GetInstructionType(m) == TYPE_R2_OP && IsReg([rd], 0) && IsReg([rs1], 0)
    ensures var line := R2Line(m, rd, rs1, imm);
            Line(line, 0) == Some(Parsed(R2(m, RegAt([rd], 0), RegAt([rs1], 0), Imm(imm)), |line|))
  {
    hide ParseRegister, NumberTokens, IsNumber, NumberAt, NumberEnd, StartsNumber, GetMnemonic, Name;
    NameIsLower(m);
    TrieIsTable(Name(m), m);
    var line := R2Line(m, rd, rs1, imm);
    assert line[5 + |NumberTokens(imm)|] == Newline;
    NumberReads(line, 5, imm);
  }

  lemma PairExpands(line: seq<Token>, m: Mnemonic)
    requires (m == MV || m == NOT || m == SEQZ || m == SNEZ) && SpecialOperands(m, line, 1).Some?
    ensures Expansion(m, line).Some?
    ensures var expanded := Expansion(m, line).get;
            Line(expanded, 0) == Some(Parsed(SpecialOperands(m, line, 1).get.value, |expanded|))
  {
    hide ParseRegister, RegToken, NumberTokens, IsNumber, NumberAt, StartsNumber, GetMnemonic, Name, Line, R2Line;
    RegReads([RegToken(0)], 0, 0);
    match m
    case MV => R2LineReads(ADDI, line[1], line[3], 0);
    case NOT => R2LineReads(XORI, line[1], line[3], -1);
    case SEQZ => R2LineReads(SLTIU, line[1], line[3], 1);
    case SNEZ => R3LineReads(SLTU, line[1], RegToken(0), line[3]);
  }

  lemma OtherExpands(line: seq<Token>, m: Mnemonic)
    requires (m == J || m == JR || m == RET || m == NOP) && SpecialOperands(m, line, 1).Some?
    ensures Expansion(m, line).Some?
    ensures var expanded := Expansion(m, line).get;
            Line(expanded, 0) == Some(Parsed(SpecialOperands(m, line, 1).get.value, |expanded|))
  {
    hide ParseRegister, RegToken, NumberTokens, IsNumber, NumberAt, StartsNumber, GetMnemonic, Name, Line, R2Line;
    RegReads([RegToken(0)], 0, 0);
    RegReads([RegToken(1)], 0, 1);
    match m
    case J => R1LineReads(JAL, RegToken(0), line[1]);
    case JR => R2LineReads(JALR, RegToken(0), line[1], 0);
    case RET => R2LineReads(JALR, RegToken(0), RegToken(1), 0);
    case NOP => R2LineReads(ADDI, RegToken(0), RegToken(0), 0);
  }

  /** A pseudo-instruction denotes what the line it abbreviates denotes. */
  lemma PseudoExpands(line: seq<Token>, m: Mnemonic)
    requires |line| > 0 && GetMnemonic(line[0].lexeme) == Some(m)
    requires Expansion(m, line).Some? && Line(line, 0).Some?
    ensures var expanded := Expansion(m, line).get;
            Line(expanded, 0) == Some(Parsed(Line(line, 0).get.value, |expanded|))
  {
    hide RegToken, SpecialOperands, GetMnemonic, Name, Line, R2Line;
    SpecialLine(line, m);
    match m
    case MV | NOT | SEQZ | SNEZ => PairExpands(line, m);
    case J | JR | RET | NOP => OtherExpands(line, m);
    case _ =>
  }

  lemma SpecialLine(line: seq<Token>, m: Mnemonic)
    requires |line| > 0 && GetMnemonic(line[0].lexeme) == Some(m)
    requires GetInstructionType(m) == PSEUDO && Line(line, 0).Some?
    ensures SpecialOperands(m, line, 1).Some? && Line(line, 0).get.value == SpecialOperands(m, line, 1).get.value
  {
    hide SpecialOperands;
  }

  lemma R3LineReads(m: Mnemonic, rd: Token, rs1: Token, rs2: Token)
    requires GetInstructionType(m) == TYPE_R3 && IsReg([rd], 0) && IsReg([rs1], 0) && IsReg([rs2], 0)
    ensures var line := [Word(Name(m)), rd, Comma, rs1, Comma, rs2, Newline];
            Line(line, 0) == Some(Parsed(R3(m, RegAt([rd], 0), RegAt([rs1], 0), RegAt([rs2], 0)), |line|))
  {
    hide ParseRegister, GetMnemonic, Name;
    NameIsLower(m);
    TrieIsTable(Name(m), m);
  }

  lemma R1LineReads(m: Mnemonic, rd: Token, name: Token)
    requires GetInstructionType(m) == TYPE_R1_OP && IsReg([rd], 0) && name.kind == IDENTIFIER
    ensures var line := [Word(Name(m)), rd, Comma, name, Newline];
            Line(line, 0) == Some(Parsed(R1(m, RegAt([rd], 0), ULabel(name.lexeme)), |line|))
  {
    hide ParseRegister, GetMnemonic, Name;
    NameIsLower(m);
    TrieIsTable(Name(m), m);
  }

  // ----- immediates -----

  /** The three conversions of an immediate together keep it modulo 4096. */
  lemma Wraps(v: int) returns (q: int)
    ensures Wrap12(Wrap16(Wrap32(v))) == v + 4096 * q
  {
    var w: int := Wrap32(v);
    var u: int := Wrap16(w);
    var a: int, b: int, c: int := (v + 0x8000_0000) / 0x1_0000_0000, (w + 0x8000) / 0x1_0000, (u + 2048) / 4096;
    assert w == v - 0x1_0000_0000 * a;
    assert u == w - 0x1_0000 * b;
    assert Wrap12(u) == u - 4096 * c;
    q := -0x10_0000 * a - 16 * b - c;
  }

  lemma Shift(x: int, q: int)
    ensures (x + 4096 * q) % 4096 == x % 4096
  {
    var d, r := x / 4096, x % 4096;
    assert x == d * 4096 + r;
    DivModUnique(x + 4096 * q, d + q, r, 4096);
  }

  /** The immediate made from a saturated magnitude `s` of `d`, against the number meant. */
  lemma Saturation(v: int, d: int, s: int, imm: int)
    requires d >= 0 && s == (if d > LONG_MAX then LONG_MAX else d)
    requires (v == d && imm == Wrap12(Wrap16(Wrap32(s)))) || (v == -d && imm == Wrap12(Wrap16(Wrap32(-s))))
    ensures (imm - v) % 4096 == 0 <==> d <= LONG_MAX || d % 4096 == 4095
  {
    hide Wrap12, Wrap16, Wrap32;
    var up := Wraps(s);
    var down := Wraps(-s);
    var half := 0x8_0000_0000_0000;
    assert LONG_MAX == 4096 * half - 1;
    if d <= LONG_MAX {
      Shift(0, up);
      Shift(0, down);
    } else {
      Shift(-1 - d, up + half);
      Shift(1 + d, down - half);
    }
  }

  /** The number written: a sign and decimal digits. */
  function Meant(ts: seq<Token>, i: nat): int
    requires IsNumber(ts, i)
  {
    if Is(ts, i, MINUS) then -Value(ts[i + 1].lexeme) else Value(ts[i].lexeme)
  }

  function Magnitude(v: int): nat {
    if v < 0 then -v else v
  }

  /**
   * An immediate is the sign-extended low 12 bits of the number written, as long as the number's magnitude fits a long;
   * a larger one saturates, and its low bits are then those of LONG_MAX.
   */
  lemma ImmediateIsLow12(ts: seq<Token>, i: nat)
    requires IsNumber(ts, i) && AllWellFormed(ts)
    ensures Operand12At(ts, i).Some? && Operand12At(ts, i).get.value.Imm?
    ensures var v := Meant(ts, i);
            ((Operand12At(ts, i).get.value.imm - v) % 4096 == 0
             <==> Magnitude(v) <= LONG_MAX || Magnitude(v) % 4096 == 4095)
  {
    hide DecimalValue, Value, WellFormed, Wrap12, Wrap16, Wrap32;
    var k := if Is(ts, i, MINUS) then i + 1 else i;
    DigitsNonnegative(ts[k].lexeme);
    Sentences.ValueIs(ts[k].lexeme);
    var d, s := DecimalValue(ts[k].lexeme), Strtol(ts[k].lexeme);
    Saturation(Meant(ts, i), d, s, Operand12At(ts, i).get.value.imm);
  }

  lemma {:induction false} DigitsNonnegative(s: string)
    requires WellFormed(Token(DECIMAL, s)) || s == ""
    ensures DecimalValue(s) >= 0
  {
    if s != "" {
      DigitsNonnegative(s[..|s| - 1]);
    }
  }
}
