/** Recognising mnemonics: the hand-written trie of the parser against the table of names. */
module Mnemonics {
  import opened Ir

  /** The table of names. */
  function Name(m: Mnemonic): string {
    match m
    case ADDI => "addi" case MV => "mv" case SLTI => "slti" case SLTIU => "sltiu" case SEQZ => "seqz"
    case ANDI => "andi" case ORI => "ori" case XORI => "xori" case NOT => "not" case SLLI => "slli"
    case SRLI => "srli" case SRAI => "srai" case LUI => "lui" case AUIPC => "auipc"
    case ADD => "add" case SUB => "sub" case SLT => "slt" case SLTU => "sltu" case SNEZ => "snez"
    case AND => "and" case OR => "or" case XOR => "xor" case SLL => "sll" case SRL => "srl" case SRA => "sra"
    case NOP => "nop"
    case JAL => "jal" case J => "j" case JALR => "jalr" case JR => "jr" case RET => "ret"
    case BEQ => "beq" case BNE => "bne" case BLT => "blt" case BLTU => "bltu" case BGE => "bge" case BGEU => "bgeu"
    case LW => "lw" case LH => "lh" case LHU => "lhu" case LB => "lb" case LBU => "lbu"
    case SW => "sw" case SH => "sh" case SB => "sb"
    case FENCE => "fence" case ECALL => "ecall" case EBREAK => "ebreak"
  }

  function LowerChar(c: char): char {
    if 'A' <= c <= 'Z' then (c as int + 32) as char else c
  }

  function Lower(s: string): (r: string)
    ensures |r| == |s|
  {
    seq(|s|, i requires 0 <= i < |s| => LowerChar(s[i]))
  }

  /** The character at `k`; the terminator is the last one that may be read. */
  function CharAt(s: string, k: nat): char
    requires k <= |s|
  {
    if k < |s| then s[k] else '\0'
  }

  /** The comparison reads only when the lengths agree. */
  function Check(s: string, start: nat, rest: string, m: Mnemonic): Option<Mnemonic> {
    if |s| == start + |rest| && s[start..] == rest then Some(m) else None
  }

  function Or(a: Option<Mnemonic>, b: Option<Mnemonic>): Option<Mnemonic> {
    if a.None? then b else a
  }

  function TrieA(s: string): Option<Mnemonic>
    requires |s| >= 1
  {
    var c := CharAt(s, 1);
    if c == 'd' then Or(Check(s, 2, "di", ADDI), Check(s, 2, "d", ADD))
    else if c == 'n' then Or(Check(s, 2, "di", ANDI), Check(s, 2, "d", AND))
    else if c == 'u' then Check(s, 2, "ipc", AUIPC)
    else None
  }

  function TrieB(s: string): Option<Mnemonic>
    requires |s| >= 1
  {
    var c := CharAt(s, 1);
    if c == 'e' then Check(s, 2, "q", BEQ)
    else if c == 'g' then Or(Check(s, 2, "eu", BGEU), Check(s, 2, "e", BGE))
    else if c == 'l' then Or(Check(s, 2, "tu", BLTU), Check(s, 2, "t", BLT))
    else if c == 'n' then Check(s, 2, "e", BNE)
    else None
  }

  function TrieJ(s: string): Option<Mnemonic>
    requires |s| >= 1
  {
    var c := CharAt(s, 1);
    if c == 'a' then Or(Check(s, 2, "lr", JALR), Check(s, 2, "l", JAL))
    else if c == 'r' then Check(s, 2, "", JR)
    else None
  }

  function TrieL(s: string): Option<Mnemonic>
    requires |s| >= 1
  {
    var c := CharAt(s, 1);
    if c == 'b' then (if |s| == 2 then Check(s, 2, "", LB) else Check(s, 2, "u", LBU))
    else if c == 'h' then (if |s| == 2 then Check(s, 2, "", LH) else Check(s, 2, "u", LHU))
    else if c == 'u' then Check(s, 2, "i", LUI)
    else if c == 'w' && |s| == 2 then Some(LW)
    else None
  }

  function TrieSl(s: string): Option<Mnemonic>
    requires |s| >= 3
  {
    var c := CharAt(s, 2);
    if c == 'l' then (if |s| == 3 then Some(SLL) else Check(s, 3, "i", SLLI))
    else if c == 't' then
      if |s| == 3 then Some(SLT)
      else if |s| < 4 then None
      else if CharAt(s, 3) == 'i' then (if |s| == 4 then Some(SLTI) else Check(s, 4, "u", SLTIU))
      else if CharAt(s, 3) == 'u' && |s| == 4 then Some(SLTU)
      else None
    else None
  }

  function TrieSr(s: string): Option<Mnemonic>
    requires |s| >= 3
  {
    var c := CharAt(s, 2);
    if c == 'a' then (if |s| == 3 then Some(SRA) else Check(s, 3, "i", SRAI))
    else if c == 'l' then (if |s| == 3 then Some(SRL) else Check(s, 3, "i", SRLI))
    else None
  }

  function TrieS(s: string): Option<Mnemonic>
    requires |s| >= 1
  {
    var c := CharAt(s, 1);
    if c == 'b' then (if |s| == 2 then Some(SB) else None)
    else if c == 'e' then Check(s, 2, "qz", SEQZ)
    else if c == 'h' then (if |s| == 2 then Some(SH) else None)
    else if c == 'l' then (if |s| < 3 then None else TrieSl(s))
    else if c == 'n' then Check(s, 2, "ez", SNEZ)
    else if c == 'r' then (if |s| < 3 then None else TrieSr(s))
    else if c == 'u' then Check(s, 2, "b", SUB)
    else if c == 'w' then (if |s| == 2 then Some(SW) else None)
    else None
  }

  function TrieE(s: string): Option<Mnemonic>
    requires |s| >= 1
  {
    var c := CharAt(s, 1);
    if c == 'b' then Check(s, 2, "reak", EBREAK)
    else if c == 'c' then Check(s, 2, "all", ECALL)
    else None
  }

  /** The trie on an already lower-cased lexeme. */
  function Trie(s: string): Option<Mnemonic> {
    var c := CharAt(s, 0);
    if c == 'a' then (if |s| < 2 then None else TrieA(s))
    else if c == 'b' then (if |s| < 2 then None else TrieB(s))
    else if c == 'e' then (if |s| < 2 then None else TrieE(s))
    else if c == 'f' then Check(s, 1, "ence", FENCE)
    else if c == 'j' then (if |s| == 1 then Some(J) else TrieJ(s))
    else if c == 'l' then (if |s| < 2 then None else TrieL(s))
    else if c == 'm' then Check(s, 1, "v", MV)
    else if c == 'n' then Or(Check(s, 1, "op", NOP), Check(s, 1, "ot", NOT))
    else if c == 'o' then Or(Check(s, 1, "ri", ORI), Check(s, 1, "r", OR))
    else if c == 'r' then Check(s, 1, "et", RET)
    else if c == 's' then (if |s| < 2 then None else TrieS(s))
    else if c == 'x' then Or(Check(s, 1, "ori", XORI), Check(s, 1, "or", XOR))
    else None
  }

  function GetMnemonic(lexeme: string): Option<Mnemonic> {
    Trie(Lower(lexeme))
  }

  // ----- the trie is the table -----

  ghost predicate Names(r: Option<Mnemonic>, s: string) {
    r.Some? ==> s == Name(r.get)
  }

  lemma SoundA(s: string)
    requires |s| >= 1 && s[0] == 'a'
    ensures Names(TrieA(s), s)
  {
  }

  lemma SoundB(s: string)
    requires |s| >= 1 && s[0] == 'b'
    ensures Names(TrieB(s), s)
  {
  }

  lemma SoundE(s: string)
    requires |s| >= 1 && s[0] == 'e'
    ensures Names(TrieE(s), s)
  {
  }

  lemma SoundJ(s: string)
    requires |s| >= 1 && s[0] == 'j'
    ensures Names(TrieJ(s), s)
  {
  }

  lemma SoundL(s: string)
    requires |s| >= 1 && s[0] == 'l'
    ensures Names(TrieL(s), s)
  {
  }

  lemma SoundSl(s: string)
    requires |s| >= 3 && s[0] == 's' && s[1] == 'l'
    ensures Names(TrieSl(s), s)
  {
  }

  lemma SoundSr(s: string)
    requires |s| >= 3 && s[0] == 's' && s[1] == 'r'
    ensures Names(TrieSr(s), s)
  {
  }

  lemma SoundS(s: string)
    requires |s| >= 1 && s[0] == 's'
    ensures Names(TrieS(s), s)
  {
    hide TrieSl, TrieSr;
    if |s| >= 3 && s[1] == 'l' {
      SoundSl(s);
    } else if |s| >= 3 && s[1] == 'r' {
      SoundSr(s);
    }
  }

  lemma Sound(s: string)
    ensures Names(Trie(s), s)
  {
    hide TrieA, TrieB, TrieE, TrieJ, TrieL, TrieS;
    if |s| >= 1 {
      match s[0]
      case 'a' => SoundA(s);
      case 'b' => SoundB(s);
      case 'e' => SoundE(s);
      case 'j' => SoundJ(s);
      case 'l' => SoundL(s);
      case 's' => SoundS(s);
      case _ =>
    }
  }

  lemma CompleteImmediate(m: Mnemonic)
    requires m.ADDI? || m.MV? || m.SLTI? || m.SLTIU? || m.SEQZ? || m.ANDI? || m.ORI? || m.XORI? || m.NOT? ||
        m.SLLI? || m.SRLI? || m.SRAI? || m.LUI? || m.AUIPC?
    ensures Trie(Name(m)) == Some(m)
  {
    hide TrieE, TrieJ, TrieB;
  }

  lemma CompleteRegister(m: Mnemonic)
    requires m.ADD? || m.SUB? || m.SLT? || m.SLTU? || m.SNEZ? || m.AND? || m.OR? || m.XOR? || m.SLL? || m.SRL? ||
        m.SRA? || m.NOP?
    ensures Trie(Name(m)) == Some(m)
  {
    hide TrieE, TrieJ, TrieB, TrieL;
  }

  lemma CompleteControl(m: Mnemonic)
    requires m.JAL? || m.J? || m.JALR? || m.JR? || m.RET? || m.BEQ? || m.BNE? || m.BLT? || m.BLTU? || m.BGE? ||
        m.BGEU?
    ensures Trie(Name(m)) == Some(m)
  {
    hide TrieS, TrieA, TrieL, TrieE;
  }

  lemma CompleteOther(m: Mnemonic)
    requires match m
             case LW | LH | LHU | LB | LBU | SW | SH | SB | FENCE | ECALL | EBREAK => true
             case _ => false
    ensures Trie(Name(m)) == Some(m)
  {
    hide TrieA, TrieB, TrieJ;
  }

  lemma Complete(m: Mnemonic)
    ensures Trie(Name(m)) == Some(m)
  {
    hide Trie, Name;
    match m
    case ADDI | MV | SLTI | SLTIU | SEQZ | ANDI | ORI | XORI | NOT | SLLI | SRLI | SRAI | LUI | AUIPC =>
      CompleteImmediate(m);
    case ADD | SUB | SLT | SLTU | SNEZ | AND | OR | XOR | SLL | SRL | SRA | NOP => CompleteRegister(m);
    case JAL | J | JALR | JR | RET | BEQ | BNE | BLT | BLTU | BGE | BGEU => CompleteControl(m);
    case _ => CompleteOther(m);
  }

  /** A lexeme is read as a mnemonic exactly when, lower-cased, it is that mnemonic's name. */
  lemma TrieIsTable(lexeme: string, m: Mnemonic)
    ensures GetMnemonic(lexeme) == Some(m) <==> Lower(lexeme) == Name(m)
  {
    hide Trie, Name;
    Sound(Lower(lexeme));
    Complete(m);
  }
}
