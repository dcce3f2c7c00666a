/** The recursive-descent parser, from tokens to the intermediate representation. */
module Parser {
  import opened Words
  import opened Ir
  import opened Mnemonics
  import opened Lexer

  // ----- numbers and registers -----

  const LONG_MAX := 0x7fff_ffff_ffff_ffff

  predicate AllDigits(s: string) {
    forall i :: 0 <= i < |s| ==> IsDigit(s[i])
  }

  function DecimalValue(s: string): int {
    if s == [] then 0 else 10 * DecimalValue(s[..|s| - 1]) + (s[|s| - 1] as int - '0' as int)
  }

  /** strtol on a string of digits. */
  function Strtol(s: string): int {
    if DecimalValue(s) > LONG_MAX then LONG_MAX else DecimalValue(s)
  }

  /** `x` or `X` and digits; no digits at all read as 0. */
  function ParseRegister(s: string): Option<Reg> {
    if s == "" || LowerChar(s[0]) != 'x' then None
    else
      var num := Strtol(s[1..]);
      if !AllDigits(s[1..]) || num < 0 || num > 31 then None else Some(num)
  }

  // ----- the tokens of an instruction -----

  predicate Is(ts: seq<Token>, i: nat, kind: Kind) {
    i < |ts| && ts[i].kind == kind
  }

  predicate IsReg(ts: seq<Token>, i: nat) {
    Is(ts, i, IDENTIFIER) && ParseRegister(ts[i].lexeme).Some?
  }

  function RegAt(ts: seq<Token>, i: nat): Reg
    requires IsReg(ts, i)
  {
    ParseRegister(ts[i].lexeme).get
  }

  predicate IsNumber(ts: seq<Token>, i: nat) {
    Is(ts, if Is(ts, i, MINUS) then i + 1 else i, DECIMAL)
  }

  function NumberEnd(ts: seq<Token>, i: nat): nat {
    if Is(ts, i, MINUS) then i + 2 else i + 1
  }

  function NumberAt(ts: seq<Token>, i: nat): Int32
    requires IsNumber(ts, i)
  {
    Wrap32(if Is(ts, i, MINUS) then -Strtol(ts[i + 1].lexeme) else Strtol(ts[i].lexeme))
  }

  /** Something read, and where it ends. */
  datatype Parsed<+T> = Parsed(value: T, end: nat)

  predicate StartsNumber(ts: seq<Token>, i: nat) {
    Is(ts, i, DECIMAL) || Is(ts, i, MINUS)
  }

  function R3Operands(m: Mnemonic, ts: seq<Token>, i: nat): Option<Parsed<Instruction>> {
    if IsReg(ts, i) && Is(ts, i + 1, COMMA) && IsReg(ts, i + 2) && Is(ts, i + 3, COMMA) && IsReg(ts, i + 4)
    then Some(Parsed(R3(m, RegAt(ts, i), RegAt(ts, i + 2), RegAt(ts, i + 4)), i + 5))
    else None
  }

  function Operand12At(ts: seq<Token>, i: nat): Option<Parsed<Operand12>> {
    if StartsNumber(ts, i) then
      if IsNumber(ts, i) then Some(Parsed(Imm(Wrap12(Wrap16(NumberAt(ts, i)))), NumberEnd(ts, i))) else None
    else if Is(ts, i, IDENTIFIER) then Some(Parsed(Label(ts[i].lexeme), i + 1))
    else None
  }

  function Operand20At(ts: seq<Token>, i: nat): Option<Parsed<Operand20>> {
    if StartsNumber(ts, i) then
      if IsNumber(ts, i) then Some(Parsed(UImm(Wrap20(NumberAt(ts, i))), NumberEnd(ts, i))) else None
    else if Is(ts, i, IDENTIFIER) then Some(Parsed(ULabel(ts[i].lexeme), i + 1))
    else None
  }

  function R2Operands(m: Mnemonic, ts: seq<Token>, i: nat): Option<Parsed<Instruction>> {
    if IsReg(ts, i) && Is(ts, i + 1, COMMA) && IsReg(ts, i + 2) && Is(ts, i + 3, COMMA) && Operand12At(ts, i + 4).Some?
    then var op := Operand12At(ts, i + 4).get; Some(Parsed(R2(m, RegAt(ts, i), RegAt(ts, i + 2), op.value), op.end))
    else None
  }

  function R1Operands(m: Mnemonic, ts: seq<Token>, i: nat): Option<Parsed<Instruction>> {
    if IsReg(ts, i) && Is(ts, i + 1, COMMA) && Operand20At(ts, i + 2).Some?
    then var op := Operand20At(ts, i + 2).get; Some(Parsed(R1(m, RegAt(ts, i), op.value), op.end))
    else None
  }

  /** `offset ( register )`, where a missing offset is 0. */
  function MemoryOperandAt(ts: seq<Token>, i: nat): Option<Parsed<(Imm12, Reg)>> {
    if StartsNumber(ts, i) && !IsNumber(ts, i) then None
    else
      var offset: Imm12 := if StartsNumber(ts, i) then Wrap12(Wrap16(NumberAt(ts, i))) else 0;
      var e := if StartsNumber(ts, i) then NumberEnd(ts, i) else i;
      if Is(ts, e, LPAREN) && IsReg(ts, e + 1) && Is(ts, e + 2, RPAREN)
      then Some(Parsed((offset, RegAt(ts, e + 1)), e + 3)) else None
  }

  function MemOperands(m: Mnemonic, ts: seq<Token>, i: nat): Option<Parsed<Instruction>> {
    if IsReg(ts, i) && Is(ts, i + 1, COMMA) && MemoryOperandAt(ts, i + 2).Some?
    then var op := MemoryOperandAt(ts, i + 2).get; Some(Parsed(Mem(m, RegAt(ts, i), op.value.1, op.value.0), op.end))
    else None
  }

  /** Two registers of a pseudo-instruction. */
  predicate TwoRegs(ts: seq<Token>, i: nat) {
    IsReg(ts, i) && Is(ts, i + 1, COMMA) && IsReg(ts, i + 2)
  }

  function SpecialOperands(m: Mnemonic, ts: seq<Token>, i: nat): Option<Parsed<Instruction>> {
    match m
    case MV => if TwoRegs(ts, i) then Some(Parsed(R2(ADDI, RegAt(ts, i), RegAt(ts, i + 2), Imm(0)), i + 3)) else None
    case NOT => if TwoRegs(ts, i) then Some(Parsed(R2(XORI, RegAt(ts, i), RegAt(ts, i + 2), Imm(-1)), i + 3)) else None
    case SEQZ => if TwoRegs(ts, i) then Some(Parsed(R2(SLTIU, RegAt(ts, i), RegAt(ts, i + 2), Imm(1)), i + 3)) else None
    case SNEZ => if TwoRegs(ts, i) then Some(Parsed(R3(SLTU, RegAt(ts, i), 0, RegAt(ts, i + 2)), i + 3)) else None
    case J => if Is(ts, i, IDENTIFIER) then Some(Parsed(R1(JAL, 0, ULabel(ts[i].lexeme)), i + 1)) else None
    case JR => if IsReg(ts, i) then Some(Parsed(R2(JALR, 0, RegAt(ts, i), Imm(0)), i + 1)) else None
    case RET => Some(Parsed(R2(JALR, 0, 1, Imm(0)), i))
    case NOP => Some(Parsed(R2(ADDI, 0, 0, Imm(0)), i))
    case FENCE => Some(Parsed(R2(FENCE, 0, 0, Imm(0)), i))
    case ECALL => Some(Parsed(R2(ECALL, 0, 0, Imm(0)), i))
    case EBREAK => Some(Parsed(R2(EBREAK, 0, 0, Imm(0)), i))
    case _ => None
  }

  datatype InstructionType = TYPE_R3 | TYPE_R2_OP | TYPE_R1_OP | TYPE_MEM | PSEUDO

  function GetInstructionType(m: Mnemonic): InstructionType {
    match m
    case ADD | SUB | SLT | SLTU | AND | OR | XOR | SLL | SRL | SRA => TYPE_R3
    case ADDI | SLTI | SLTIU | ANDI | ORI | XORI | SLLI | SRLI | SRAI
      | BEQ | BNE | BLT | BLTU | BGE | BGEU | JALR => TYPE_R2_OP
    case LW | LH | LHU | LB | LBU | SW | SH | SB => TYPE_MEM
    case LUI | AUIPC | JAL => TYPE_R1_OP
    case _ => PSEUDO
  }

  function Operands(m: Mnemonic, ts: seq<Token>, i: nat): Option<Parsed<Instruction>> {
    match GetInstructionType(m)
    case TYPE_R3 => R3Operands(m, ts, i)
    case TYPE_R2_OP => R2Operands(m, ts, i)
    case TYPE_R1_OP => R1Operands(m, ts, i)
    case TYPE_MEM => MemOperands(m, ts, i)
    case PSEUDO => SpecialOperands(m, ts, i)
  }

  /** The instruction that the line at `i` spells: a mnemonic, its operands and a line end. */
  function Line(ts: seq<Token>, i: nat): Option<Parsed<Instruction>>
    requires i < |ts|
  {
    match GetMnemonic(ts[i].lexeme)
    case None => None
    case Some(m) =>
      match Operands(m, ts, i + 1)
      case None => None
      case Some(p) => if Is(ts, p.end, NEWLINE) then Some(p.(end := p.end + 1)) else None
  }

  /** The elements that the tokens from `i` to the end marker spell. */
  function Elements(ts: seq<Token>, i: nat): Result<seq<Element>>
    decreases |ts| - i
  {
    if i >= |ts| then Err(SyntaxError)
    else if ts[i].kind == EOF then Ok([])
    else if ts[i].kind == NEWLINE then Elements(ts, i + 1)
    else if Is(ts, i + 1, COLON) then
      var rest := Elements(ts, i + 2);
      if rest.Err? then rest else Ok([LabelDecl(ts[i].lexeme)] + rest.value)
    else
      match Line(ts, i)
      case None => Err(SyntaxError)
      case Some(p) =>
        LineEnds(ts, i);
        var rest := Elements(ts, p.end);
        if rest.Err? then rest else Ok([Instr(p.value)] + rest.value)
  }

  /** A line consumes tokens, and no more than there are. */
  lemma LineEnds(ts: seq<Token>, i: nat)
    requires i < |ts|
    ensures Line(ts, i).Some? ==> i < Line(ts, i).get.end <= |ts|
  {
  }

  // ----- the parser -----

  /** A token list as the scanner leaves it. */
  predicate Terminated(ts: seq<Token>) {
    |ts| > 0 && ts[|ts| - 1].kind == EOF
  }

  class Parser {
    const tokens: seq<Token>
    var current: nat
    var ir: seq<Element>

    /** The cursor never passes the last token, an end marker. */
    ghost predicate Valid()
      reads this
    {
      Terminated(tokens) && current < |tokens|
    }

    constructor (tokens: seq<Token>)
      requires Terminated(tokens)
      ensures Valid() && this.tokens == tokens && current == 0 && ir == []
    {
      this.tokens := tokens;
      current, ir := 0, [];
    }

    method Advance()
      requires Valid() && tokens[current].kind != EOF
      modifies this`current
      ensures Valid() && current == old(current) + 1
    {
      current := current + 1;
    }

    method Consume(kind: Kind) returns (r: Result<()>)
      requires Valid() && kind != EOF
      modifies this`current
      ensures Valid()
      ensures r == if Is(tokens, old(current), kind) then Ok(()) else Err(SyntaxError)
      ensures current == old(current) + if r.Ok? then 1 else 0
    {
      if tokens[current].kind == kind {
        Advance();
        return Ok(());
      }
      return Err(SyntaxError);
    }

    predicate Check(kind: Kind)
      requires Valid()
      reads this
    {
      tokens[current].kind == kind
    }

    predicate CheckNext(kind: Kind)
      requires Valid() && tokens[current].kind != EOF
      reads this
    {
      tokens[current + 1].kind == kind
    }

    method Match(kind: Kind) returns (b: bool)
      requires Valid() && kind != EOF
      modifies this`current
      ensures Valid() && b == Is(tokens, old(current), kind)
      ensures current == old(current) + if b then 1 else 0
    {
      if !Check(kind) {
        return false;
      }
      Advance();
      return true;
    }

    method Label() returns (r: Result<()>)
      requires Valid() && tokens[current].kind != EOF
      modifies this
      ensures Valid()
      ensures r == if Is(tokens, old(current) + 1, COLON) then Ok(()) else Err(SyntaxError)
      ensures r.Ok? ==> current == old(current) + 2 && ir == old(ir) + [LabelDecl(tokens[old(current)].lexeme)]
    {
      var name := tokens[current].lexeme;
      Advance();
      var _ :- Consume(COLON);
      ir := ir + [LabelDecl(name)];
      return Ok(());
    }

    method Number() returns (r: Result<Int32>)
      requires Valid()
      modifies this`current
      ensures Valid()
      ensures r == if IsNumber(tokens, old(current)) then Ok(NumberAt(tokens, old(current))) else Err(SyntaxError)
      ensures r.Ok? ==> current == NumberEnd(tokens, old(current))
    {
      hide Strtol;
      var negative := Match(MINUS);
      var decimal := tokens[current].lexeme;
      var _ :- Consume(DECIMAL);
      var value := Strtol(decimal);
      if negative {
        value := -value;
      }
      return Ok(Wrap32(value));
    }

    method Reg() returns (r: Result<Ir.Reg>)
      requires Valid()
      modifies this`current
      ensures Valid()
      ensures r == if IsReg(tokens, old(current)) then Ok(RegAt(tokens, old(current))) else Err(SyntaxError)
      ensures r.Ok? ==> current == old(current) + 1
    {
      hide ParseRegister;
      var reg := ParseRegister(tokens[current].lexeme);
      if reg.None? {
        return Err(SyntaxError);
      }
      var _ :- Consume(IDENTIFIER);
      return Ok(reg.get);
    }

    method Identifier() returns (r: Result<string>)
      requires Valid()
      modifies this`current
      ensures Valid()
      ensures r == if Is(tokens, old(current), IDENTIFIER) then Ok(tokens[old(current)].lexeme) else Err(SyntaxError)
      ensures r.Ok? ==> current == old(current) + 1
    {
      var identifier := tokens[current].lexeme;
      var _ :- Consume(IDENTIFIER);
      return Ok(identifier);
    }

    method MemoryOperand() returns (r: Result<(Imm12, Ir.Reg)>)
      requires Valid()
      modifies this`current
      ensures Valid()
      ensures match MemoryOperandAt(tokens, old(current))
              case Some(p) => r == Ok(p.value) && current == p.end
              case None => r == Err(SyntaxError)
    {
      hide IsReg, RegAt, IsNumber, NumberAt, NumberEnd;
      var offset: Imm12 := 0;
      if Check(DECIMAL) || Check(MINUS) {
        var imm :- Number();
        offset := Wrap12(Wrap16(imm));
      }
      var _ :- Consume(LPAREN);
      var rs1 :- Reg();
      var _ :- Consume(RPAREN);
      return Ok((offset, rs1));
    }

    method ParseR3Instruction(m: Mnemonic) returns (r: Result<()>)
      requires Valid()
      modifies this
      ensures Valid()
      ensures match R3Operands(m, tokens, old(current))
              case Some(p) => r.Ok? && current == p.end && ir == old(ir) + [Instr(p.value)]
              case None => r == Err(SyntaxError)
    {
      hide IsReg, RegAt;
      var rd :- Reg();
      var _ :- Consume(COMMA);
      var rs1 :- Reg();
      var _ :- Consume(COMMA);
      var rs2 :- Reg();
      ir := ir + [Instr(R3(m, rd, rs1, rs2))];
      return Ok(());
    }

    method ParseMemInstruction(m: Mnemonic) returns (r: Result<()>)
      requires Valid()
      modifies this
      ensures Valid()
      ensures match MemOperands(m, tokens, old(current))
              case Some(p) => r.Ok? && current == p.end && ir == old(ir) + [Instr(p.value)]
              case None => r == Err(SyntaxError)
    {
      hide IsReg, RegAt, MemoryOperandAt;
      var rd :- Reg();
      var _ :- Consume(COMMA);
      var operand :- MemoryOperand();
      ir := ir + [Instr(Mem(m, rd, operand.1, operand.0))];
      return Ok(());
    }

    method ParseR2OpInstruction(m: Mnemonic) returns (r: Result<()>)
      requires Valid()
      modifies this
      ensures Valid()
      ensures match R2Operands(m, tokens, old(current))
              case Some(p) => r.Ok? && current == p.end && ir == old(ir) + [Instr(p.value)]
              case None => r == Err(SyntaxError)
    {
      hide IsReg, RegAt, IsNumber, NumberAt, NumberEnd;
      var rd :- Reg();
      var _ :- Consume(COMMA);
      var rs1 :- Reg();
      var _ :- Consume(COMMA);
      var op: Operand12;
      if Check(DECIMAL) || Check(MINUS) {
        var imm :- Number();
        op := Imm(Wrap12(Wrap16(imm)));
      } else if Check(IDENTIFIER) {
        var name := Identifier();
        op := Operand12.Label(name.value);
      } else {
        return Err(SyntaxError);
      }
      ir := ir + [Instr(R2(m, rd, rs1, op))];
      return Ok(());
    }

    method ParseR1OpInstruction(m: Mnemonic) returns (r: Result<()>)
      requires Valid()
      modifies this
      ensures Valid()
      ensures match R1Operands(m, tokens, old(current))
              case Some(p) => r.Ok? && current == p.end && ir == old(ir) + [Instr(p.value)]
              case None => r == Err(SyntaxError)
    {
      hide IsReg, RegAt, IsNumber, NumberAt, NumberEnd;
      var rd :- Reg();
      var _ :- Consume(COMMA);
      var op: Operand20;
      if Check(DECIMAL) || Check(MINUS) {
        var imm :- Number();
        op := UImm(Wrap20(imm));
      } else if Check(IDENTIFIER) {
        var name := Identifier();
        op := ULabel(name.value);
      } else {
        return Err(SyntaxError);
      }
      ir := ir + [Instr(R1(m, rd, op))];
      return Ok(());
    }

    method RegPair() returns (r: Result<(Ir.Reg, Ir.Reg)>)
      requires Valid()
      modifies this`current
      ensures Valid()
      ensures r == if TwoRegs(tokens, old(current))
                   then Ok((RegAt(tokens, old(current)), RegAt(tokens, old(current) + 2)))
                   else Err(SyntaxError)
      ensures r.Ok? ==> current == old(current) + 3
    {
      hide IsReg, RegAt;
      var rd :- Reg();
      var _ :- Consume(COMMA);
      var rs1 :- Reg();
      return Ok((rd, rs1));
    }

    method ParseSpecialInstruction(m: Mnemonic) returns (r: Result<()>)
      requires Valid()
      modifies this
      ensures Valid()
      ensures match SpecialOperands(m, tokens, old(current))
              case Some(p) => r.Ok? && current == p.end && ir == old(ir) + [Instr(p.value)]
              case None => r == Err(SyntaxError)
    {
      hide IsReg, RegAt, TwoRegs;
      var ins: Instruction;
      match m {
        case MV =>
          var regs :- RegPair();
          ins := R2(ADDI, regs.0, regs.1, Imm(0));
        case NOT =>
          var regs :- RegPair();
          ins := R2(XORI, regs.0, regs.1, Imm(-1));
        case SEQZ =>
          var regs :- RegPair();
          ins := R2(SLTIU, regs.0, regs.1, Imm(1));
        case SNEZ =>
          var regs :- RegPair();
          ins := R3(SLTU, regs.0, 0, regs.1);
        case J =>
          var name :- Identifier();
          ins := R1(JAL, 0, ULabel(name));
        case JR =>
          var rs1 :- Reg();
          ins := R2(JALR, 0, rs1, Imm(0));
        case RET => ins := R2(JALR, 0, 1, Imm(0));
        case NOP => ins := R2(ADDI, 0, 0, Imm(0));
        case FENCE | ECALL | EBREAK => ins := R2(m, 0, 0, Imm(0));
        case _ => return Err(SyntaxError);
      }
      ir := ir + [Instr(ins)];
      return Ok(());
    }

    /** A mnemonic, its operands and the end of the line. */
    method Instruction() returns (r: Result<()>)
      requires Valid() && tokens[current].kind != EOF
      modifies this
      ensures Valid()
      ensures match Line(tokens, old(current))
              case Some(p) => r.Ok? && current == p.end && ir == old(ir) + [Instr(p.value)]
              case None => r == Err(SyntaxError)
    {
      hide R3Operands, R2Operands, R1Operands, MemOperands, SpecialOperands, GetMnemonic, GetInstructionType;
      var mnemonic := GetMnemonic(tokens[current].lexeme);
      if mnemonic.None? {
        return Err(SyntaxError);
      }
      Advance();
      match GetInstructionType(mnemonic.get) {
        case TYPE_R3 => var _ :- ParseR3Instruction(mnemonic.get);
        case TYPE_R2_OP => var _ :- ParseR2OpInstruction(mnemonic.get);
        case TYPE_R1_OP => var _ :- ParseR1OpInstruction(mnemonic.get);
        case TYPE_MEM => var _ :- ParseMemInstruction(mnemonic.get);
        case PSEUDO => var _ :- ParseSpecialInstruction(mnemonic.get);
      }
      var _ :- Consume(NEWLINE);
      return Ok(());
    }
  }

  /** Reads elements up to the end marker. */
  method Parse(tokens: seq<Token>) returns (r: Result<seq<Element>>)
    requires Terminated(tokens)
    ensures r == Elements(tokens, 0)
  {
    hide Line;
    var parser := new Parser(tokens);
    while !parser.Check(EOF)
      invariant parser.Valid() && parser.tokens == tokens
      invariant match Elements(tokens, parser.current)
                case Ok(rest) => Elements(tokens, 0).Ok? && Elements(tokens, 0).value == parser.ir + rest
                case Err(error) => Elements(tokens, 0) == Err(error)
      decreases |tokens| - parser.current
    {
      var blank := parser.Match(NEWLINE);
      if blank {
        continue;
      }
      if parser.CheckNext(COLON) {
        var declared := parser.Label();
      } else {
        LineEnds(tokens, parser.current);
        var _ :- parser.Instruction();
      }
    }
    assert parser.ir + [] == parser.ir;
    return Ok(parser.ir);
  }
}
