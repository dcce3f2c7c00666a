/** The instructions of section 6.5 of the JVM Specification SE8 that the machine knows, by their numbers there. */
module Opcodes {
  import opened Words

  datatype Opcode =
    | Bipush | Sipush | LdcW
    | Lload2 | Aload1 | Laload | Lstore2 | Astore1 | Lastore
    | Pop2 | Dup | Ladd | I2l | Lcmp
    | Ifeq | Ifgt | GotoW | Return
    | Getstatic | Putstatic | Invokevirtual | Invokespecial | New | Newarray | Checkcast
    | Other

  function Decode(b: byte): Opcode {
    match b
    case 16 => Bipush case 17 => Sipush case 19 => LdcW
    case 32 => Lload2 case 43 => Aload1 case 47 => Laload case 65 => Lstore2 case 76 => Astore1 case 80 => Lastore
    case 88 => Pop2 case 89 => Dup case 97 => Ladd case 133 => I2l case 148 => Lcmp
    case 153 => Ifeq case 157 => Ifgt case 200 => GotoW case 177 => Return
    case 178 => Getstatic case 179 => Putstatic case 182 => Invokevirtual case 183 => Invokespecial
    case 187 => New case 188 => Newarray case 192 => Checkcast
    case _ => Other
  }
}
