/** Printing a program and reading it back; and exactly which programs a text can denote. */
module RoundTrip {
  import opened Words
  import opened Ir
  import opened Mnemonics
  import opened Lexer
  import opened Parser
  import opened Grammar
  import opened Sentences

  // ----- numbers -----

  function Digit(d: nat): char
    requires d < 10
  {
    ('0' as int + d) as char
  }

  function Decimal(n: nat): (s: string)
    ensures |s| > 0 && AllDigits(s)
  {
    if n < 10 then [Digit(n)] else Decimal(n / 10) + [Digit(n % 10)]
  }

  lemma {:induction false} DecimalReads(n: nat)
    ensures DecimalValue(Decimal(n)) == n
  {
    if n < 10 {
      assert DecimalValue([]) == 0;
      assert [Digit(n)][..0] == [];
    } else {
      DecimalReads(n / 10);
      assert Decimal(n)[..|Decimal(n)| - 1] == Decimal(n / 10);
    }
  }

  const Comma := Token(COMMA, ",")
  const Colon := Token(COLON, ":")
  const Minus := Token(MINUS, "-")
  const Newline := Token(NEWLINE, "\n")
  const Open := Token(LPAREN, "(")
  const Close := Token(RPAREN, ")")

  function Word(s: string): Token {
    Token(IDENTIFIER, s)
  }

  function RegToken(r: Ir.Reg): Token {
    Word("x" + Decimal(r))
  }

  function NumberTokens(v: int): seq<Token> {
    if v < 0 then [Minus, Token(DECIMAL, Decimal(-v))] else [Token(DECIMAL, Decimal(v))]
  }

  /** `part` stands at `i`. */
  ghost predicate At(ts: seq<Token>, i: nat, part: seq<Token>) {
    i + |part| <= |ts| && forall k :: 0 <= k < |part| ==> ts[i + k] == part[k]
  }

  lemma RegReads(ts: seq<Token>, i: nat, r: Ir.Reg)
    requires i < |ts| && ts[i] == RegToken(r)
    ensures IsReg(ts, i) && RegAt(ts, i) == r
  {
    DecimalReads(r);
    assert ts[i].lexeme[1..] == Decimal(r);
  }

  lemma NumberReads(ts: seq<Token>, i: nat, v: Int32)
    requires At(ts, i, NumberTokens(v))
    ensures StartsNumber(ts, i) && IsNumber(ts, i) && NumberAt(ts, i) == v && NumberEnd(ts, i) == i + |NumberTokens(v)|
  {
    hide DecimalValue, Decimal;
    assert ts[i] == NumberTokens(v)[0];
    if v < 0 {
      var magnitude: int := v;
      DecimalReads(-magnitude);
      assert ts[i + 1] == NumberTokens(v)[1];
    } else {
      DecimalReads(v);
    }
  }

  // ----- the programs of the parser -----

  predicate IsIdentifier(s: string) {
    WellFormed(Word(s))
  }

  /** The token of a lexeme. */
  function LexemeToken(s: string): Token {
    if s == "" then Token(EOF, s)
    else if IsAlpha(s[0]) then Token(IDENTIFIER, s)
    else if IsDigit(s[0]) then Token(DECIMAL, s)
    else match Punctuation(s[0])
      case Some(kind) => Token(kind, s)
      case None => Token(EOF, s)
  }

  /** A label is any lexeme but a line end. */
  predicate IsLabelName(s: string) {
    WellFormed(LexemeToken(s)) && LexemeToken(s).kind != NEWLINE && LexemeToken(s).kind != EOF
  }

  predicate FormR2(m: Mnemonic, rd: Ir.Reg, rs1: Ir.Reg, op: Operand12) {
    || (OperandForm(m) && (op.Label? ==> IsIdentifier(op.name)))
    || ((m == FENCE || m == ECALL || m == EBREAK) && rd == 0 && rs1 == 0 && op == Imm(0))
  }

  predicate FormInstruction(ins: Instruction) {
    match ins
    case R3(m, _, _, _) => RegisterForm(m)
    case R2(m, rd, rs1, op) => FormR2(m, rd, rs1, op)
    case R1(m, _, op) => UpperForm(m) && (op.ULabel? ==> IsIdentifier(op.name))
    case Mem(m, _, _, _) => MemoryForm(m)
  }

  predicate FormElement(e: Element) {
    match e
    case Instr(ins) => FormInstruction(ins)
    case LabelDecl(name) => IsLabelName(name)
    case Directive(_, _) => false
  }

  /** The shape of every program that comes out of the parser. */
  ghost predicate ParserForm(ir: seq<Element>) {
    forall i :: 0 <= i < |ir| ==> FormElement(ir[i])
  }

  // ----- printing to tokens -----

  function Operand12Tokens(op: Operand12): seq<Token> {
    match op
    case Imm(v) => NumberTokens(v)
    case Label(name) => [Word(name)]
  }

  function Operand20Tokens(op: Operand20): seq<Token> {
    match op
    case UImm(v) => NumberTokens(v)
    case ULabel(name) => [Word(name)]
  }

  function OperandTokens(ins: Instruction): seq<Token> {
    match ins
    case R3(_, rd, rs1, rs2) => [RegToken(rd), Comma, RegToken(rs1), Comma, RegToken(rs2)]
    case R2(m, rd, rs1, op) =>
      if OperandForm(m) then [RegToken(rd), Comma, RegToken(rs1), Comma] + Operand12Tokens(op)
      else []
    case R1(_, rd, op) => [RegToken(rd), Comma] + Operand20Tokens(op)
    case Mem(_, rd, rs1, offset) => [RegToken(rd), Comma] + NumberTokens(offset) + [Open, RegToken(rs1), Close]
  }

  function ElementTokens(e: Element): seq<Token>
    requires FormElement(e)
  {
    match e
    case Instr(ins) => [Word(Name(ins.mnemonic))] + OperandTokens(ins) + [Newline]
    case LabelDecl(name) => [LexemeToken(name), Colon, Newline]
  }

  function ProgramTokens(ir: seq<Element>): seq<Token>
    requires ParserForm(ir)
  {
    if ir == [] then [] else ElementTokens(ir[0]) + ProgramTokens(ir[1..])
  }

  // ----- what the printed tokens denote -----

  lemma RegisterDenotes(r: Ir.Reg)
    ensures RegisterIs(RegToken(r), r)
  {
    hide Value, Decimal;
    var digits := Decimal(r);
    DecimalReads(r);
    ValueIs(digits);
    var word := "x" + digits;
    assert word[1..] == digits;
    forall i | 1 <= i < |word| ensures Numeral(word[i]) {
      assert word[i] == digits[i - 1];
    }
  }

  lemma NumberDenotes(v: Int32)
    ensures NumberTokensAre(NumberTokens(v)) && NumberIn(NumberTokens(v)) == v
  {
    hide Value, Decimal, DecimalValue;
    var magnitude: int := v;
    if v < 0 {
      DecimalReads(-magnitude);
      ValueIs(Decimal(-magnitude));
    } else {
      DecimalReads(magnitude);
      ValueIs(Decimal(magnitude));
    }
  }

  lemma R3Denotes(ins: Instruction)
    requires ins.R3? && RegisterForm(ins.mnemonic)
    ensures R3Line(ins.mnemonic, OperandTokens(ins), ins)
  {
    hide RegisterIs, RegToken, RegisterForm;
    RegisterDenotes(ins.rd);
    RegisterDenotes(ins.rs1);
    RegisterDenotes(ins.rs2);
  }

  lemma Operand12Denotes(op: Operand12)
    ensures Operand12Is(Operand12Tokens(op), op)
  {
    hide NumberTokens, NumberTokensAre, NumberIn;
    if op.Imm? {
      NumberDenotes(op.imm);
    }
  }

  lemma Operand20Denotes(op: Operand20)
    ensures Operand20Is(Operand20Tokens(op), op)
  {
    hide NumberTokens, NumberTokensAre, NumberIn;
    if op.UImm? {
      NumberDenotes(op.imm);
    }
  }

  lemma R2Denotes(ins: Instruction)
    requires ins.R2? && OperandForm(ins.mnemonic)
    ensures R2Line(ins.mnemonic, OperandTokens(ins), ins)
  {
    hide RegisterIs, RegToken, OperandForm, Operand12Is;
    RegisterDenotes(ins.rd);
    RegisterDenotes(ins.rs1);
    Operand12Denotes(ins.op);
    var head := [RegToken(ins.rd), Comma, RegToken(ins.rs1), Comma];
    assert OperandTokens(ins)[4..] == Operand12Tokens(ins.op);
  }

  lemma R1Denotes(ins: Instruction)
    requires ins.R1? && UpperForm(ins.mnemonic)
    ensures R1Line(ins.mnemonic, OperandTokens(ins), ins)
  {
    hide RegisterIs, RegToken, UpperForm, Operand20Is;
    RegisterDenotes(ins.rd);
    Operand20Denotes(ins.uop);
    assert OperandTokens(ins)[2..] == Operand20Tokens(ins.uop);
  }

  lemma MemoryDenotes(ins: Instruction)
    requires ins.Mem? && MemoryForm(ins.mnemonic)
    ensures MemoryLine(ins.mnemonic, OperandTokens(ins), ins)
  {
    hide RegisterIs, RegToken, MemoryForm, NumberTokensAre, NumberIn;
    RegisterDenotes(ins.rd);
    RegisterDenotes(ins.rs1);
    NumberDenotes(ins.offset);
    var head, number, tail := [RegToken(ins.rd), Comma], NumberTokens(ins.offset), [Open, RegToken(ins.rs1), Close];
    var a := head + number + tail;
    assert a[2..|a| - 3] == number;
  }

  lemma OperandsMean(ins: Instruction)
    requires FormInstruction(ins)
    ensures OperandsDenote(ins.mnemonic, OperandTokens(ins), ins)
  {
    hide R3Line, R2Line, R1Line, MemoryLine, OperandTokens, RegisterForm, OperandForm, UpperForm, MemoryForm;
    match ins
    case R3(_, _, _, _) => R3Denotes(ins);
    case R2(m, _, _, _) =>
      if OperandForm(m) {
        R2Denotes(ins);
      } else {
        NoOperandTokens(ins);
      }
    case R1(_, _, _) => R1Denotes(ins);
    case Mem(_, _, _, _) => MemoryDenotes(ins);
  }

  lemma NoOperandTokens(ins: Instruction)
    requires ins.R2? && !OperandForm(ins.mnemonic)
    ensures OperandTokens(ins) == []
  {
  }

  lemma NameIsLower(m: Mnemonic)
    ensures Lower(Name(m)) == Name(m)
  {
    hide Name;
    NameSmall(m);
  }

  lemma SameName(s: string)
    ensures SpellsName(s, s)
  {
  }

  lemma LineMeans(ins: Instruction)
    requires FormInstruction(ins)
    ensures LineDenotes([Word(Name(ins.mnemonic))] + OperandTokens(ins), ins)
  {
    hide OperandsDenote, OperandTokens, FormInstruction, SpellsName, Name;
    var line := [Word(Name(ins.mnemonic))] + OperandTokens(ins);
    OperandsMean(ins);
    SameName(Name(ins.mnemonic));
    assert line[1..] == OperandTokens(ins) && line[0] == Word(Name(ins.mnemonic));
  }

  /** The tokens of an element denote it. */
  lemma ElementDenotes(e: Element)
    requires FormElement(e)
    ensures Denotes(ElementTokens(e), [e])
  {
    hide FormInstruction, OperandTokens, LineDenotes, Name, WellFormed;
    var ts := ElementTokens(e);
    match e
    case Instr(ins) =>
      LineMeans(ins);
      var line := [Word(Name(ins.mnemonic))] + OperandTokens(ins);
      var n := |line|;
      assert ts[..n] == line && ts[n] == Newline && ts[n + 1..] == [];
      assert LineFirst(ts, n, ins) && Denotes(ts[n + 1..], [e][1..]);
    case LabelDecl(name) =>
      assert ts[2..] == [Newline] && [Newline][1..] == [];
      assert Denotes(ts[2..], []);
  }

  /** The printed tokens of a program denote it. */
  lemma {:induction false} ProgramDenotes(ir: seq<Element>)
    requires ParserForm(ir)
    ensures Denotes(ProgramTokens(ir), ir)
  {
    hide ElementTokens, FormElement;
    if ir != [] {
      ElementDenotes(ir[0]);
      ProgramDenotes(ir[1..]);
      DenotesJoin(ElementTokens(ir[0]), ProgramTokens(ir[1..]), [ir[0]], ir[1..]);
      assert [ir[0]] + ir[1..] == ir;
    }
  }

  // ----- what the parser can produce -----

  /** The kind of a lexeme follows from its text. */
  lemma LexemeDecides(t: Token)
    requires WellFormed(t)
    ensures LexemeToken(t.lexeme) == t
  {
  }

  lemma LineForm(ts: seq<Token>, i: nat)
    requires i < |ts| && AllWellFormed(ts) && Line(ts, i).Some?
    ensures FormInstruction(Line(ts, i).get.value)
  {
    hide IsReg, RegAt, IsNumber, NumberAt, NumberEnd, StartsNumber, GetMnemonic, WellFormed;
    var m := GetMnemonic(ts[i].lexeme).get;
    IdentifierForm(ts);
  }

  lemma IdentifierForm(ts: seq<Token>)
    requires AllWellFormed(ts)
    ensures forall i: nat :: Is(ts, i, IDENTIFIER) ==> IsIdentifier(ts[i].lexeme)
  {
  }

  /** Every program that parses has the form. */
  lemma {:induction false} ElementsForm(ts: seq<Token>, i: nat)
    requires AllWellFormed(ts) && Elements(ts, i).Ok?
    ensures ParserForm(Elements(ts, i).value)
    decreases |ts| - i
  {
    hide Line, FormInstruction, IsLabelName;
    if ts[i].kind == EOF {
    } else if ts[i].kind == NEWLINE {
      ElementsForm(ts, i + 1);
    } else if Is(ts, i + 1, COLON) {
      ElementsForm(ts, i + 2);
      LabelForm(ts[i]);
    } else {
      LineForm(ts, i);
      LineEnds(ts, i);
      ElementsForm(ts, Line(ts, i).get.end);
    }
  }

  lemma LabelForm(t: Token)
    requires WellFormed(t) && t.kind != EOF && t.kind != NEWLINE
    ensures IsLabelName(t.lexeme)
  {
    LexemeDecides(t);
  }

  // ----- printing to text -----

  predicate IsWordToken(t: Token) {
    t.kind == IDENTIFIER || t.kind == DECIMAL
  }

  /** A space after a comma and between two words. */
  function Gap(a: Token, b: Token): string {
    if a.kind == COMMA || (IsWordToken(a) && IsWordToken(b)) then " " else ""
  }

  function Text(ts: seq<Token>): string {
    if ts == [] then ""
    else ts[0].lexeme + (if |ts| > 1 then Gap(ts[0], ts[1]) else "") + Text(ts[1..])
  }

  /** The text after the first token. */
  function Following(ts: seq<Token>): string
    requires ts != []
  {
    (if |ts| > 1 then Gap(ts[0], ts[1]) else "") + Text(ts[1..])
  }

  /** The first character that follows a printed token. */
  lemma NothingContinues(ts: seq<Token>)
    requires Printable(ts) && |ts| > 1
    ensures var next := Following(ts); |next| > 0 && !Continues(ts[0], next[0])
  {
    assert WellFormed(ts[0]) && WellFormed(ts[1]);
    assert ts[1..][0] == ts[1];
    assert Text(ts[1..])[0] == ts[1].lexeme[0];
  }

  lemma Pieces(g: string, lexeme: string, next: string)
    ensures (g + (lexeme + next))[|g|..|g| + |lexeme|] == lexeme
    ensures (g + (lexeme + next))[|g| + |lexeme|..] == next
    ensures forall i :: 0 <= i < |g| ==> (g + (lexeme + next))[i] == g[i]
  {
  }

  lemma TextIs(ts: seq<Token>)
    requires ts != []
    ensures Text(ts) == ts[0].lexeme + Following(ts)
  {
    hide Gap;
  }

  lemma FirstLeads(g: string, ts: seq<Token>)
    requires Printable(ts) && ts != [] && (g == "" || g == " ")
    ensures var e := |g| + |ts[0].lexeme|; e <= |g + Text(ts)| && Leads(g + Text(ts), ts[0], e)
    ensures (g + Text(ts))[|g| + |ts[0].lexeme|..] == Following(ts)
  {
    hide Continues, Text, Following, WellFormed;
    TextIs(ts);
    Pieces(g, ts[0].lexeme, Following(ts));
    var s, e := g + Text(ts), |g| + |ts[0].lexeme|;
    assert WellFormed(ts[0]);
    if |ts| > 1 {
      NothingContinues(ts);
      assert e < |s| ==> s[e] == s[e..][0];
    } else {
      NothingFollows(ts);
    }
  }

  lemma NothingFollows(ts: seq<Token>)
    requires |ts| == 1
    ensures Following(ts) == ""
  {
  }

  lemma {:induction false} TextSpells(g: string, ts: seq<Token>)
    requires Printable(ts) && (g == "" || g == " ")
    ensures Spells(g + Text(ts), ts)
    decreases |ts|
  {
    hide Leads, WellFormed;
    var s := g + Text(ts);
    if ts == [] {
      assert Blank(s, |s|);
    } else {
      FirstLeads(g, ts);
      if |ts| > 1 {
        TextSpells(Gap(ts[0], ts[1]), ts[1..]);
      } else {
        TextSpells("", ts[1..]);
      }
    }
  }

  // ----- from text to program and back -----

  /** The front end: the program that the sources denote. */
  function Front(sources: seq<string>): Result<seq<Element>> {
    var tokens := AllTokens(sources);
    if tokens.Err? then Err(tokens.error) else Elements(tokens.value, 0)
  }

  lemma RegTokenWellFormed(r: Ir.Reg)
    ensures WellFormed(RegToken(r))
  {
    var s := RegToken(r).lexeme;
    forall k | 0 <= k < |s| ensures IsWord(s[k]) {
      if k > 0 {
        assert s[k] == Decimal(r)[k - 1];
      }
    }
  }

  predicate Letters(s: string) {
    |s| > 0 && forall k :: 0 <= k < |s| ==> 'a' <= s[k] <= 'z'
  }

  lemma NameLetters(m: Mnemonic)
    ensures Letters(Name(m))
  {
    NameSmall(m);
  }

  lemma NameWellFormed(m: Mnemonic)
    ensures WellFormed(Word(Name(m)))
  {
    hide Name;
    NameLetters(m);
  }

  lemma MarksWellFormed()
    ensures WellFormed(Comma) && WellFormed(Colon) && WellFormed(Minus) && WellFormed(Newline)
    ensures WellFormed(Open) && WellFormed(Close)
    ensures forall n: nat :: WellFormed(Token(DECIMAL, Decimal(n)))
  {
  }

  lemma OperandsPrintable(ins: Instruction)
    requires FormInstruction(ins)
    ensures Printable(OperandTokens(ins))
  {
    hide RegToken, Decimal, WellFormed, RegisterForm, OperandForm, UpperForm, MemoryForm;
    MarksWellFormed();
    RegTokenWellFormed(ins.rd);
    match ins {
      case R3(_, _, rs1, rs2) =>
        RegTokenWellFormed(rs1);
        RegTokenWellFormed(rs2);
      case R2(_, _, rs1, _) => RegTokenWellFormed(rs1);
      case R1(_, _, _) =>
      case Mem(_, _, rs1, _) => RegTokenWellFormed(rs1);
    }
    forall r: Ir.Reg ensures RegToken(r).kind != EOF {
      RegTokenKind(r);
    }
  }

  lemma RegTokenKind(r: Ir.Reg)
    ensures RegToken(r).kind != EOF
  {
  }

  lemma ElementPrintable(e: Element)
    requires FormElement(e)
    ensures Printable(ElementTokens(e))
  {
    hide WellFormed, OperandTokens, FormInstruction, Name;
    MarksWellFormed();
    match e
    case Instr(ins) =>
      NameWellFormed(ins.mnemonic);
      OperandsPrintable(ins);
    case LabelDecl(name) =>
  }

  lemma {:induction false} ProgramPrintable(ir: seq<Element>)
    requires ParserForm(ir)
    ensures Printable(ProgramTokens(ir))
  {
    hide ElementTokens, WellFormed, FormElement;
    if ir != [] {
      ElementPrintable(ir[0]);
      ProgramPrintable(ir[1..]);
    }
  }

  // ----- exactly which program the sources denote -----

  /** The sources, one after the other, are a way of writing the program: each spells its tokens, and together these
      denote the program. */
  ghost predicate Written(sources: seq<string>, ir: seq<Element>) {
    exists tss :: AllSpell(sources, tss) && Denotes(Join(tss), ir)
  }

  lemma {:induction false} TokensWellFormed(s: string)
    requires Tokens(s).Ok?
    ensures Printable(Tokens(s).value)
    decreases |s|
  {
    hide WellFormed;
    var next := Next(s).value;
    if next.0.kind != EOF {
      TokensWellFormed(s[next.1..]);
    }
  }

  lemma {:induction false} JoinPrintable(sources: seq<string>, tss: seq<seq<Token>>)
    requires AllSpell(sources, tss)
    ensures Printable(Join(tss))
    decreases |tss|
  {
    hide WellFormed, Spells, Tokens;
    if tss != [] {
      TokensAreSpelled(sources[0], tss[0]);
      TokensWellFormed(sources[0]);
      JoinPrintable(sources[1..], tss[1..]);
    }
  }

  /** The front end reads a program from the sources exactly when they are a way of writing it. */
  lemma FrontIsWritten(sources: seq<string>, ir: seq<Element>)
    ensures Front(sources) == Ok(ir) <==> Written(sources, ir)
  {
    hide AllTokens, Elements, Denotes, AllSpell, Join, Printable;
    if Front(sources) == Ok(ir) {
      SourcesAreSpelled(sources, []);
      var ts :| AllTokens(sources).value == ts + [MARK];
      SourcesAreSpelled(sources, ts);
      var tss :| AllSpell(sources, tss) && ts == Join(tss);
      JoinPrintable(sources, tss);
      ParserIsGrammar(ts, 0, ir);
      assert ts[0..] == ts;
    }
    if Written(sources, ir) {
      var tss :| AllSpell(sources, tss) && Denotes(Join(tss), ir);
      WrittenReads(sources, tss, ir);
    }
  }

  /** However a program is written down, in one source or several, it is read back. */
  lemma WrittenReads(sources: seq<string>, tss: seq<seq<Token>>, ir: seq<Element>)
    requires AllSpell(sources, tss) && Denotes(Join(tss), ir)
    ensures Front(sources) == Ok(ir)
  {
    hide AllTokens, Elements, Denotes, AllSpell, Join, Printable;
    SourcesAreSpelled(sources, Join(tss));
    JoinPrintable(sources, tss);
    ParserIsGrammar(Join(tss), 0, ir);
    assert Join(tss)[0..] == Join(tss);
  }

  lemma {:induction false} JoinMore(x: seq<seq<Token>>, y: seq<seq<Token>>)
    ensures Join(x + y) == Join(x) + Join(y)
  {
    if x == [] {
      assert x + y == y;
    } else {
      JoinMore(x[1..], y);
      assert (x + y)[1..] == x[1..] + y;
    }
  }

  /** Sources are read one after the other: the program of the first ones, then that of the others. */
  lemma SourcesInOrder(first: seq<string>, others: seq<string>, a: seq<Element>, b: seq<Element>)
    requires Front(first) == Ok(a) && Front(others) == Ok(b)
    ensures Front(first + others) == Ok(a + b)
  {
    hide Front, Denotes, Spells, Join;
    FrontIsWritten(first, a);
    FrontIsWritten(others, b);
    var x :| AllSpell(first, x) && Denotes(Join(x), a);
    var y :| AllSpell(others, y) && Denotes(Join(y), b);
    JoinMore(x, y);
    DenotesJoin(Join(x), Join(y), a, b);
    FrontIsWritten(first + others, a + b);
    assert AllSpell(first + others, x + y);
  }

  /** So the parser reads them back. */
  lemma TokensRead(ir: seq<Element>)
    requires ParserForm(ir)
    ensures Elements(ProgramTokens(ir) + [MARK], 0) == Ok(ir)
  {
    hide Elements, Denotes, ProgramTokens, ParserForm, Printable;
    var ts := ProgramTokens(ir);
    ProgramPrintable(ir);
    ProgramDenotes(ir);
    ParserIsGrammar(ts, 0, ir);
    assert ts[0..] == ts;
  }

  /** One source with the printed tokens, however it is spaced. */
  lemma SpacedReads(ir: seq<Element>, source: string)
    requires ParserForm(ir) && Spells(source, ProgramTokens(ir))
    ensures Front([source]) == Ok(ir)
  {
    hide Denotes, Spells, ProgramTokens, ParserForm;
    ProgramDenotes(ir);
    var tss := [ProgramTokens(ir)];
    assert Join(tss) == ProgramTokens(ir) by {
      assert tss[1..] == [] && Join([]) == [];
    }
    WrittenReads([source], tss, ir);
  }

  /** Printing and reading back is the identity. */
  lemma PrintedReads(ir: seq<Element>)
    requires ParserForm(ir)
    ensures Front([Text(ProgramTokens(ir))]) == Ok(ir)
  {
    ProgramPrintable(ir);
    TextSpells("", ProgramTokens(ir));
    assert "" + Text(ProgramTokens(ir)) == Text(ProgramTokens(ir));
    SpacedReads(ir, Text(ProgramTokens(ir)));
  }

  lemma {:induction false} TokensToWellFormed(sources: seq<string>, n: nat)
    requires n <= |sources| && TokensTo(sources, n).Ok?
    ensures AllWellFormed(TokensTo(sources, n).value)
  {
    hide WellFormed, Tokens;
    if n > 0 {
      TokensToWellFormed(sources, n - 1);
      TokensWellFormed(sources[n - 1]);
    }
  }

  /** The programs that texts denote are exactly those of the form. */
  lemma Denotable(ir: seq<Element>)
    ensures (exists sources: seq<string> :: |sources| > 0 && Front(sources) == Ok(ir)) <==> ParserForm(ir)
  {
    if ParserForm(ir) {
      PrintedReads(ir);
      assert |[Text(ProgramTokens(ir))]| > 0;
    }
    forall sources: seq<string> | |sources| > 0 && Front(sources) == Ok(ir) ensures ParserForm(ir) {
      TokensToWellFormed(sources, |sources|);
      ElementsForm(AllTokens(sources).value, 0);
    }
  }
}
