/** Tokens, and the scanner that reads them from source text. */
module Lexer {
  import opened Ir

  datatype Kind = NEWLINE | COMMA | COLON | LPAREN | RPAREN | MINUS | IDENTIFIER | DECIMAL | EOF

  datatype Token = Token(kind: Kind, lexeme: string)

  const END := '\0'

  predicate IsAlpha(c: char) {
    'a' <= c <= 'z' || 'A' <= c <= 'Z' || c == '_'
  }

  predicate IsDigit(c: char) {
    '0' <= c <= '9'
  }

  predicate IsWord(c: char) {
    IsAlpha(c) || IsDigit(c)
  }

  predicate IsBlank(c: char) {
    c == ' ' || c == '\r' || c == '\t'
  }

  function Punctuation(c: char): Option<Kind> {
    match c
    case ',' => Some(COMMA)
    case '-' => Some(MINUS)
    case ':' => Some(COLON)
    case '(' => Some(LPAREN)
    case ')' => Some(RPAREN)
    case '\n' => Some(NEWLINE)
    case _ => None
  }

  // ----- what a text spells -----

  // The characters of the language, by their codes; the tests above are the scanner's.

  predicate Letter(c: char) {
    65 <= c as int <= 90 || 97 <= c as int <= 122 || c as int == 95
  }

  predicate Numeral(c: char) {
    48 <= c as int <= 57
  }

  predicate Space(c: char) {
    c in [' ', '\t', '\r']
  }

  /** A lexeme of its kind. */
  predicate WellFormed(t: Token) {
    match t.kind
    case IDENTIFIER =>
      |t.lexeme| > 0 && Letter(t.lexeme[0])
      && forall i :: 0 <= i < |t.lexeme| ==> Letter(t.lexeme[i]) || Numeral(t.lexeme[i])
    case DECIMAL => |t.lexeme| > 0 && forall i :: 0 <= i < |t.lexeme| ==> Numeral(t.lexeme[i])
    case EOF => t.lexeme == ""
    case COMMA => t.lexeme == ","
    case MINUS => t.lexeme == "-"
    case COLON => t.lexeme == ":"
    case LPAREN => t.lexeme == "("
    case RPAREN => t.lexeme == ")"
    case NEWLINE => t.lexeme == "\n"
  }

  ghost predicate AllWellFormed(ts: seq<Token>) {
    forall i :: 0 <= i < |ts| ==> WellFormed(ts[i])
  }

  /** Tokens as they come from a text, without end markers. */
  ghost predicate Printable(ts: seq<Token>) {
    AllWellFormed(ts) && forall i :: 0 <= i < |ts| ==> ts[i].kind != EOF
  }

  /** The token would not stop before `c`. */
  predicate Continues(t: Token, c: char) {
    (t.kind == IDENTIFIER && (Letter(c) || Numeral(c))) || (t.kind == DECIMAL && Numeral(c))
  }

  /** Nothing but blanks before the end of the text or its first terminator. */
  ghost predicate Ends(s: string) {
    exists b :: 0 <= b <= |s| && Blank(s, b) && (b == |s| || s[b] as int == 0)
  }

  ghost predicate Blank(s: string, b: nat) {
    b <= |s| && forall i :: 0 <= i < b ==> Space(s[i])
  }

  /** After blanks, `s` has the token `t` as a longest match that ends at `e`. */
  ghost predicate Leads(s: string, t: Token, e: nat) {
    && t.kind != EOF && WellFormed(t) && |t.lexeme| <= e <= |s|
    && Blank(s, e - |t.lexeme|) && s[e - |t.lexeme|..e] == t.lexeme
    && (e < |s| ==> !Continues(t, s[e]))
  }

  /** `s` is a way of writing the tokens `ts`: any blanks, and words kept apart. */
  ghost predicate Spells(s: string, ts: seq<Token>)
    decreases |ts|
  {
    if ts == [] then Ends(s) else exists e: nat :: e <= |s| && Leads(s, ts[0], e) && Spells(s[e..], ts[1..])
  }

  // ----- what the scanner reads -----

  /** How many leading characters satisfy `p`. */
  function Run(s: string, p: char -> bool): (n: nat)
    ensures n <= |s| && (forall i :: 0 <= i < n ==> p(s[i])) && (n < |s| ==> !p(s[n]))
  {
    if s != [] && p(s[0]) then 1 + Run(s[1..], p) else 0
  }

  lemma {:induction false} RunIs(s: string, p: char -> bool, n: nat)
    requires n <= |s| && (forall i :: 0 <= i < n ==> p(s[i])) && (n < |s| ==> !p(s[n]))
    ensures Run(s, p) == n
  {
    if n > 0 {
      RunIs(s[1..], p, n - 1);
    }
  }

  /** The token at the start of `t`, and its length. */
  function First(t: string): (r: Result<(Token, nat)>)
    ensures r.Ok? ==> r.value.1 <= |t| && WellFormed(r.value.0) && r.value.0.lexeme == t[..r.value.1]
    ensures r.Ok? ==> (r.value.0.kind == EOF <==> r.value.1 == 0)
  {
    if t == [] || t[0] == END then Ok((Token(EOF, ""), 0))
    else if IsAlpha(t[0]) then var n := Run(t, IsWord); Ok((Token(IDENTIFIER, t[..n]), n))
    else if IsDigit(t[0]) then var n := Run(t, IsDigit); Ok((Token(DECIMAL, t[..n]), n))
    else match Punctuation(t[0])
      case Some(kind) => Ok((Token(kind, t[..1]), 1))
      case None => Err(UnexpectedCharacter)
  }

  /** The next token and the number of characters up to its end. */
  function Next(s: string): (r: Result<(Token, nat)>)
    ensures r.Ok? ==> r.value.1 <= |s| && WellFormed(r.value.0) && (r.value.0.kind != EOF ==> r.value.1 > 0)
  {
    var b := Run(s, IsBlank);
    var first := First(s[b..]);
    if first.Err? then first else Ok((first.value.0, b + first.value.1))
  }

  /** The tokens of one source, without the end marker. */
  function Tokens(s: string): Result<seq<Token>>
    decreases |s|
  {
    var next := Next(s);
    if next.Err? then Err(next.error)
    else if next.value.0.kind == EOF then Ok([])
    else
      var rest := Tokens(s[next.value.1..]);
      if rest.Err? then rest else Ok([next.value.0] + rest.value)
  }

  lemma Cut(s: string, a: nat, b: nat)
    requires a <= b <= |s|
    ensures s[a..b] == s[a..][..b - a]
  {
  }

  /** `r` is what the next token of `s` gives, `n` characters on. */
  ghost predicate Scanned(s: string, r: Result<Token>, n: int) {
    match Next(s)
    case Ok((t, e)) => r == Ok(t) && n == e
    case Err(error) => r == Err(error)
  }

  lemma NextFirst(s: string, r: Result<Token>, n: int)
    requires match First(s[Run(s, IsBlank)..])
             case Ok((t, e)) => r == Ok(t) && n == e
             case Err(error) => r == Err(error)
    ensures Scanned(s, r, Run(s, IsBlank) + n)
  {
  }

  lemma FirstEnd(t: string)
    requires t == [] || t[0] == END
    ensures First(t) == Ok((Token(EOF, ""), 0))
  {
  }

  /** The scanner consumes the first character before it runs over the others. */
  lemma FirstWord(t: string)
    requires t != [] && IsAlpha(t[0])
    ensures var n := 1 + Run(t[1..], IsWord); n <= |t| && First(t) == Ok((Token(IDENTIFIER, t[..n]), n))
  {
  }

  lemma FirstNumber(t: string)
    requires t != [] && IsDigit(t[0])
    ensures var n := 1 + Run(t[1..], IsDigit); n <= |t| && First(t) == Ok((Token(DECIMAL, t[..n]), n))
  {
  }

  lemma FirstOther(t: string)
    requires t != [] && t[0] != END && !IsAlpha(t[0]) && !IsDigit(t[0])
    ensures match Punctuation(t[0])
            case Some(kind) => First(t) == Ok((Token(kind, t[..1]), 1))
            case None => First(t) == Err(UnexpectedCharacter)
  {
  }

  lemma NextEnds(s: string)
    ensures Ends(s) <==> Next(s).Ok? && Next(s).value.0.kind == EOF
  {
    var b := Run(s, IsBlank);
    assert Blank(s, b);
    if Ends(s) {
      var c: nat :| c <= |s| && Blank(s, c) && (c == |s| || s[c] as int == 0);
      RunIs(s, IsBlank, c);
    }
  }

  lemma NextLeads(s: string)
    requires Next(s).Ok? && Next(s).value.0.kind != EOF
    ensures Leads(s, Next(s).value.0, Next(s).value.1)
  {
    var b := Run(s, IsBlank);
    var t := s[b..];
    var (token, e) := Next(s).value;
    assert b == e - |token.lexeme|;
    assert s[b..e] == t[..e - b];
  }

  lemma LeadsRun(s: string, t: Token, e: nat, p: char -> bool)
    requires |t.lexeme| <= e <= |s| && s[e - |t.lexeme|..e] == t.lexeme
    requires forall i :: 0 <= i < |t.lexeme| ==> p(t.lexeme[i])
    requires e < |s| ==> !p(s[e])
    ensures Run(s[e - |t.lexeme|..], p) == |t.lexeme|
  {
    var b := e - |t.lexeme|;
    var rest := s[b..];
    forall i | 0 <= i < |t.lexeme| ensures p(rest[i]) {
      assert rest[i] == s[b..e][i];
    }
    RunIs(rest, p, |t.lexeme|);
  }

  /** Where the blanks before a leading token end. */
  lemma LeadsStart(s: string, t: Token, e: nat) returns (b: nat)
    requires Leads(s, t, e)
    ensures b < e <= |s| && e - b == |t.lexeme| && Run(s, IsBlank) == b && s[b] == t.lexeme[0]
    ensures s[b..][..e - b] == t.lexeme
  {
    b := e - |t.lexeme|;
    assert s[b] == s[b..e][0];
    assert s[b..][..e - b] == s[b..e];
    RunIs(s, IsBlank, b);
  }

  lemma LeadsNext(s: string, t: Token, e: nat)
    requires Leads(s, t, e)
    ensures Next(s) == Ok((t, e)) && t.kind != EOF
  {
    hide Run, Blank;
    var b := LeadsStart(s, t, e);
    if t.kind == IDENTIFIER {
      LeadsRun(s, t, e, IsWord);
    } else if t.kind == DECIMAL {
      LeadsRun(s, t, e, IsDigit);
    }
  }

  /** The scanner reads exactly the token sequences that the text spells: one at most. */
  lemma {:induction false} TokensAreSpelled(s: string, ts: seq<Token>)
    ensures Tokens(s) == Ok(ts) <==> Spells(s, ts)
    decreases |ts|
  {
    hide Leads, Ends, Next, WellFormed;
    NextEnds(s);
    if ts == [] {
    } else {
      if Tokens(s) == Ok(ts) {
        NextLeads(s);
        var e := Next(s).value.1;
        assert ts[1..] == Tokens(s[e..]).value;
        TokensAreSpelled(s[e..], ts[1..]);
      }
      if Spells(s, ts) {
        var e: nat :| e <= |s| && Leads(s, ts[0], e) && Spells(s[e..], ts[1..]);
        LeadsNext(s, ts[0], e);
        TokensAreSpelled(s[e..], ts[1..]);
        assert ts == [ts[0]] + ts[1..];
      }
    }
  }

  /** The text spells no list of tokens. */
  ghost predicate Unreadable(s: string) {
    forall ts :: !Spells(s, ts)
  }

  lemma UnreadableIs(s: string)
    ensures Tokens(s).Err? <==> Unreadable(s)
  {
    hide Tokens, Spells;
    forall ts: seq<Token> ensures Spells(s, ts) <==> Tokens(s) == Ok(ts) {
      TokensAreSpelled(s, ts);
    }
    if Tokens(s).Ok? {
      assert Spells(s, Tokens(s).value);
    }
  }

  /** Where the blanks from `i` on end. */
  predicate Blanks(source: string, i: nat, j: nat)
    requires i <= |source|
  {
    j == i + Run(source[i..], IsBlank)
  }

  lemma EndScanned(source: string, i: nat, j: nat)
    requires i <= j <= |source| && Blanks(source, i, j) && (j == |source| || source[j] == END)
    ensures Scanned(source[i..], Ok(Token(EOF, "")), j - i)
  {
    hide Run, First, Next;
    FirstEnd(source[j..]);
    assert source[i..][j - i..] == source[j..];
    NextFirst(source[i..], Ok(Token(EOF, "")), 0);
  }

  lemma WordScanned(source: string, i: nat, j: nat, k: nat)
    requires i <= j < k <= |source| && Blanks(source, i, j) && IsAlpha(source[j])
    requires k == j + 1 + Run(source[j + 1..], IsWord)
    ensures Scanned(source[i..], Ok(Token(IDENTIFIER, source[j..k])), k - i)
  {
    hide Run, First, Next, IsAlpha;
    assert source[j..][1..] == source[j + 1..] && source[i..][j - i..] == source[j..];
    FirstWord(source[j..]);
    Cut(source, j, k);
    NextFirst(source[i..], Ok(Token(IDENTIFIER, source[j..k])), k - j);
  }

  lemma NumberScanned(source: string, i: nat, j: nat, k: nat)
    requires i <= j < k <= |source| && Blanks(source, i, j) && IsDigit(source[j])
    requires k == j + 1 + Run(source[j + 1..], IsDigit)
    ensures Scanned(source[i..], Ok(Token(DECIMAL, source[j..k])), k - i)
  {
    hide Run, First, Next, IsDigit;
    assert source[j..][1..] == source[j + 1..] && source[i..][j - i..] == source[j..];
    FirstNumber(source[j..]);
    Cut(source, j, k);
    NextFirst(source[i..], Ok(Token(DECIMAL, source[j..k])), k - j);
  }

  lemma MarkScanned(source: string, i: nat, j: nat)
    requires i <= j < |source| && Blanks(source, i, j) && source[j] != END && !IsAlpha(source[j]) && !IsDigit(source[j])
    ensures match Punctuation(source[j])
            case Some(kind) => Scanned(source[i..], Ok(Token(kind, source[j..j + 1])), j + 1 - i)
            case None => Scanned(source[i..], Err(UnexpectedCharacter), j + 1 - i)
  {
    hide Run, First, Next, IsAlpha, IsDigit, Punctuation;
    assert source[i..][j - i..] == source[j..];
    FirstOther(source[j..]);
    Cut(source, j, j + 1);
    match Punctuation(source[j])
    case Some(kind) => NextFirst(source[i..], Ok(Token(kind, source[j..j + 1])), 1);
    case None => NextFirst(source[i..], Err(UnexpectedCharacter), 1);
  }

  // ----- the scanner -----

  class Lexer {
    const source: string
    var start: nat
    var current: nat

    ghost predicate Valid()
      reads this
    {
      start <= current <= |source|
    }

    /** What is still to be read. */
    ghost function Rest(): string
      requires Valid()
      reads this
    {
      source[current..]
    }

    constructor (source: string)
      ensures Valid() && Rest() == source
    {
      this.source := source;
      start, current := 0, 0;
    }

    /** The terminator stands after the last character. */
    function Peek(): (c: char)
      requires Valid()
      reads this
      ensures c == if current == |source| then END else source[current]
    {
      if current == |source| then END else source[current]
    }

    predicate IsAtEnd()
      requires Valid()
      reads this
    {
      Peek() == END
    }

    method Advance() returns (c: char)
      requires Valid() && current < |source|
      modifies this`current
      ensures Valid() && current == old(current) + 1 && c == source[old(current)]
    {
      current := current + 1;
      c := source[current - 1];
    }

    function CreateToken(kind: Kind): (t: Token)
      requires Valid()
      reads this
      ensures t.kind == kind && t.lexeme == source[start..current]
    {
      Token(kind, source[start..current])
    }

    method SkipWhitespace()
      requires Valid()
      modifies this`current
      ensures Valid() && Blanks(source, old(current), current)
    {
      while IsBlank(Peek())
        invariant Valid() && current >= old(current)
        invariant Blanks(source, old(current), current + Run(source[current..], IsBlank))
        decreases |source| - current
      {
        var c := Advance();
      }
    }

    method Identifier() returns (t: Token)
      requires Valid()
      modifies this`current
      ensures Valid() && current == old(current) + Run(source[old(current)..], IsWord)
      ensures t == Token(IDENTIFIER, source[start..current])
    {
      while IsAlpha(Peek()) || IsDigit(Peek())
        invariant Valid() && current >= old(current)
        invariant Run(source[old(current)..], IsWord) == current - old(current) + Run(source[current..], IsWord)
        decreases |source| - current
      {
        var c := Advance();
      }
      t := CreateToken(IDENTIFIER);
    }

    method Number() returns (t: Token)
      requires Valid()
      modifies this`current
      ensures Valid() && current == old(current) + Run(source[old(current)..], IsDigit)
      ensures t == Token(DECIMAL, source[start..current])
    {
      while IsDigit(Peek())
        invariant Valid() && current >= old(current)
        invariant Run(source[old(current)..], IsDigit) == current - old(current) + Run(source[current..], IsDigit)
        decreases |source| - current
      {
        var c := Advance();
      }
      t := CreateToken(DECIMAL);
    }

    /** The token of a single character that has been read. */
    method Mark(c: char) returns (r: Result<Token>)
      requires Valid()
      ensures match Punctuation(c)
              case Some(kind) => r == Ok(Token(kind, source[start..current]))
              case None => r == Err(UnexpectedCharacter)
    {
      match c {
        case ',' => return Ok(CreateToken(COMMA));
        case '-' => return Ok(CreateToken(MINUS));
        case ':' => return Ok(CreateToken(COLON));
        case '(' => return Ok(CreateToken(LPAREN));
        case ')' => return Ok(CreateToken(RPAREN));
        case '\n' => return Ok(CreateToken(NEWLINE));
        case _ => return Err(UnexpectedCharacter);
      }
    }

    /** The next token, or the end marker at the terminator. */
    method ScanToken() returns (r: Result<Token>)
      requires Valid()
      modifies this
      ensures Valid() && Scanned(source[old(current)..], r, current - old(current))
    {
      hide Run, Next, Scanned, IsAlpha, IsDigit, IsBlank, Punctuation;
      ghost var from := current;
      SkipWhitespace();
      start := current;
      if IsAtEnd() {
        EndScanned(source, from, start);
        return Ok(CreateToken(EOF));
      }
      var c := Advance();
      if IsAlpha(c) {
        var token := Identifier();
        WordScanned(source, from, start, current);
        return Ok(token);
      }
      if IsDigit(c) {
        var token := Number();
        NumberScanned(source, from, start, current);
        return Ok(token);
      }
      MarkScanned(source, from, start);
      r := Mark(c);
    }
  }

  /** The tokens of the first `n` sources, one after the other. */
  function TokensTo(sources: seq<string>, n: nat): Result<seq<Token>>
    requires n <= |sources|
  {
    if n == 0 then Ok([])
    else
      var before := TokensTo(sources, n - 1);
      if before.Err? then before
      else
        var tokens := Tokens(sources[n - 1]);
        if tokens.Err? then tokens else Ok(before.value + tokens.value)
  }

  /** All tokens of all sources and one end marker. */
  function AllTokens(sources: seq<string>): Result<seq<Token>> {
    var tokens := TokensTo(sources, |sources|);
    if tokens.Err? then tokens else Ok(tokens.value + [Token(EOF, "")])
  }

  // ----- several sources -----

  /** The token lists one after the other. */
  function Join(tss: seq<seq<Token>>): seq<Token> {
    if tss == [] then [] else tss[0] + Join(tss[1..])
  }

  lemma {:induction false} JoinSplit(tss: seq<seq<Token>>, last: seq<Token>)
    ensures Join(tss + [last]) == Join(tss) + last
  {
    if tss == [] {
      assert [last][1..] == [];
    } else {
      JoinSplit(tss[1..], last);
      assert (tss + [last])[1..] == tss[1..] + [last];
    }
  }

  /** Each source spells its token list. */
  ghost predicate AllSpell(sources: seq<string>, tss: seq<seq<Token>>) {
    |sources| == |tss| && forall i :: 0 <= i < |sources| ==> Spells(sources[i], tss[i])
  }

  lemma {:induction false} JoinedTokens(sources: seq<string>, tss: seq<seq<Token>>, n: nat)
    requires AllSpell(sources, tss) && n <= |sources|
    ensures TokensTo(sources, n) == Ok(Join(tss[..n]))
  {
    hide Spells, Tokens, Join;
    if n == 0 {
      NothingJoined();
      assert tss[..0] == [];
    } else {
      JoinedTokens(sources, tss, n - 1);
      TokensAreSpelled(sources[n - 1], tss[n - 1]);
      JoinSplit(tss[..n - 1], tss[n - 1]);
      assert tss[..n] == tss[..n - 1] + [tss[n - 1]];
    }
  }

  lemma NothingJoined()
    ensures Join([]) == []
  {
  }

  lemma {:induction false} TokensOfAll(sources: seq<string>, n: nat) returns (tss: seq<seq<Token>>)
    requires n <= |sources| && TokensTo(sources, n).Ok?
    ensures AllSpell(sources[..n], tss) && TokensTo(sources, n) == Ok(Join(tss))
  {
    hide Spells, Tokens, Join;
    if n == 0 {
      NothingJoined();
      tss := [];
    } else {
      var before := TokensOfAll(sources, n - 1);
      var last := Tokens(sources[n - 1]).value;
      TokensAreSpelled(sources[n - 1], last);
      JoinSplit(before, last);
      tss := before + [last];
    }
  }

  /** The scanner reads the tokens that the sources spell, the first source first, and then one end marker; and it
      reads nothing when some source spells no tokens. */
  lemma SourcesAreSpelled(sources: seq<string>, ts: seq<Token>)
    ensures AllTokens(sources) == Ok(ts + [Token(EOF, "")])
       <==> exists tss :: AllSpell(sources, tss) && ts == Join(tss)
    ensures AllTokens(sources).Ok? ==> exists before :: AllTokens(sources).value == before + [Token(EOF, "")]
  {
    hide AllSpell, TokensTo, Join;
    var n := |sources|;
    assert sources[..n] == sources;
    if TokensTo(sources, n).Ok? {
      var tss := TokensOfAll(sources, n);
      if AllTokens(sources) == Ok(ts + [Token(EOF, "")]) {
        LastDropped(ts, Join(tss));
      }
    }
    forall tss | AllSpell(sources, tss) ensures TokensTo(sources, n) == Ok(Join(tss)) {
      WholeList(sources, tss);
      JoinedTokens(sources, tss, n);
    }
  }

  lemma WholeList(sources: seq<string>, tss: seq<seq<Token>>)
    requires AllSpell(sources, tss)
    ensures tss[..|sources|] == tss
  {
  }

  lemma LastDropped(a: seq<Token>, b: seq<Token>)
    requires a + [Token(EOF, "")] == b + [Token(EOF, "")]
    ensures a == b
  {
    assert (a + [Token(EOF, "")])[..|a|] == a && (b + [Token(EOF, "")])[..|b|] == b;
  }

  lemma {:induction false} TokensToFails(sources: seq<string>, i: nat, n: nat)
    requires i <= n <= |sources| && TokensTo(sources, i).Err?
    ensures TokensTo(sources, n) == TokensTo(sources, i)
  {
    if i < n {
      TokensToFails(sources, i, n - 1);
    }
  }

  /** Scans every source in turn; the last token read is the end marker of the last source. */
  method Lex(sources: seq<string>) returns (r: Result<seq<Token>>)
    requires |sources| > 0
    ensures r == AllTokens(sources)
  {
    hide Next;
    var res := [];
    var token := Token(EOF, "");
    var i := 0;
    while i < |sources|
      invariant i <= |sources| && TokensTo(sources, i) == Ok(res) && token == Token(EOF, "")
    {
      var lexer := new Lexer(sources[i]);
      ghost var before := res;
      while true
        invariant lexer.Valid()
        invariant TokensTo(sources, i) == Ok(before)
        invariant match Tokens(lexer.Rest())
                  case Ok(rest) => Tokens(sources[i]).Ok? && before + Tokens(sources[i]).value == res + rest
                  case Err(error) => Tokens(sources[i]) == Err(error)
        decreases |lexer.Rest()|
      {
        ghost var unread := lexer.Rest();
        var scanned := lexer.ScanToken();
        assert scanned.Ok? ==> lexer.Rest() == unread[Next(unread).value.1..];
        if scanned.Err? {
          TokensToFails(sources, i + 1, |sources|);
          return Err(scanned.error);
        }
        token := scanned.value;
        if token.kind == EOF {
          assert res + [] == res;
          break;
        }
        res := res + [token];
      }
      i := i + 1;
    }
    return Ok(res + [token]);
  }
}
