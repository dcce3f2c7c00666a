/** The intermediate representation shared by the parser, the label check and the code generator. */
module Ir {

  datatype Mnemonic =
    | ADDI | MV | SLTI | SLTIU | SEQZ | ANDI | ORI | XORI | NOT | SLLI | SRLI | SRAI | LUI | AUIPC
    | ADD | SUB | SLT | SLTU | SNEZ | AND | OR | XOR | SLL | SRL | SRA
    | NOP
    | JAL | J | JALR | JR | RET
    | BEQ | BNE | BLT | BLTU | BGE | BGEU
    | LW | LH | LHU | LB | LBU | SW | SH | SB
    | FENCE | ECALL | EBREAK

  type Reg = r: int | 0 <= r < 32

  /** The immediate kept in the 12-bit field of an R2 instruction or of a memory operand. */
  type Imm12 = x: int | -2048 <= x < 2048
  type Imm20 = x: int | -0x8_0000 <= x < 0x8_0000

  datatype Operand12 = Imm(imm: Imm12) | Label(name: string)
  datatype Operand20 = UImm(imm: Imm20) | ULabel(name: string)

  datatype Instruction =
    | R3(mnemonic: Mnemonic, rd: Reg, rs1: Reg, rs2: Reg)
    | R2(mnemonic: Mnemonic, rd: Reg, rs1: Reg, op: Operand12)
    | R1(mnemonic: Mnemonic, rd: Reg, uop: Operand20)
    | Mem(mnemonic: Mnemonic, rd: Reg, rs1: Reg, offset: Imm12)

  /** The end of the sequence plays the part of the closing IR_EOF element. */
  datatype Element =
    | Instr(ins: Instruction)
    | LabelDecl(name: string)
    | Directive(name: string, operands: seq<string>)

  /** A table key: a number or the text of a string. */
  datatype Key = Num(n: int) | Str(s: string)

  /** The ways the compiler stops. */
  datatype Error =
    | UnexpectedCharacter
    | SyntaxError
    | DuplicateLabel(name: string)
    | UnknownLabel(name: string)
    | MissingOffset(name: string)
    | MissingConstant(key: Key)
    | UndefinedOperand

  datatype Option<+T> = None | Some(get: T)

  /** The value, or the reason for which the C program calls exit. */
  datatype Result<+T> = Ok(value: T) | Err(error: Error)
  {
    predicate IsFailure() {
      Err?
    }

    function PropagateFailure<U>(): Result<U>
      requires Err?
    {
      Err(error)
    }

    function Extract(): T
      requires Ok?
    {
      value
    }
  }

  predicate Declares(e: Element, name: string) {
    e == LabelDecl(name)
  }

  /** The label operand of an R2 or R1 instruction, if there is one. */
  predicate Refers(e: Element, name: string) {
    && e.Instr?
    && match e.ins
       case R2(_, _, _, Label(l)) => l == name
       case R1(_, _, ULabel(l)) => l == name
       case _ => false
  }

  predicate Declared(ir: seq<Element>, name: string) {
    LabelDecl(name) in ir
  }

  ghost predicate UniqueLabels(ir: seq<Element>) {
    forall i, j :: 0 <= i < j < |ir| && ir[i].LabelDecl? && ir[j].LabelDecl? ==> ir[i].name != ir[j].name
  }

  ghost predicate ClosedLabels(ir: seq<Element>) {
    forall i, l :: 0 <= i < |ir| && Refers(ir[i], l) ==> Declared(ir, l)
  }
}
