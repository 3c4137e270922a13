/**
 What a script's bytes mean as tokens (lexer/lexer.go), as functions of the text: where trivia ends, which
 token starts at an offset, and the stream of all tokens. Bytes are modelled as characters.
 */
module Lexing {
  import opened Wrappers
  import opened Tokens

  // ---------- Characters ----------

  /** The byte at i, or NUL past the end. */
  function CharAt(src: string, i: nat): char {
    if i < |src| then src[i] else '\0'
  }

  predicate IsNewline(c: char) {
    c == '\n' || c == '\r'
  }

  predicate IsBlank(c: char) {
    c == ' ' || c == '\t'
  }

  predicate CommentAt(src: string, i: nat) {
    CharAt(src, i) == '/' && CharAt(src, i + 1) == '/'
  }

  /** The word else, and not just the start of a longer identifier. */
  predicate ElseAt(src: string, i: nat) {
    i + 4 <= |src| && src[i..i + 4] == "else" && (i + 4 == |src| || !IsIdentPart(src[i + 4]))
  }

  // ---------- Positions ----------

  /** Byte i is the last of a line terminator: LF, or CR when no LF follows. */
  predicate EndsLineAt(src: string, i: nat) {
    i < |src| && (src[i] == '\n' || (src[i] == '\r' && CharAt(src, i + 1) != '\n'))
  }

  function PosAt(src: string, i: nat): Pos {
    if i == 0 then Pos(1, 1)
    else
      var p := PosAt(src, i - 1);
      if EndsLineAt(src, i - 1) then Pos(p.line + 1, 1) else Pos(p.line, p.col + 1)
  }

  /** The ends of the lines that finish before byte i. */
  function LineEnds(src: string, i: nat): (ends: set<nat>) {
    set k: nat | k < i && EndsLineAt(src, k)
  }

  /** Lines are counted by terminators, and columns are distances from the last one. */
  lemma {:induction false} PosCounts(src: string, i: nat)
    ensures PosAt(src, i).line == 1 + |LineEnds(src, i)|
    ensures 1 <= PosAt(src, i).col <= i + 1
    ensures forall k | i + 1 - PosAt(src, i).col <= k < i :: k !in LineEnds(src, i)
    ensures PosAt(src, i).col <= i ==> i - PosAt(src, i).col in LineEnds(src, i)
  {
    if i == 0 {
      assert LineEnds(src, 0) == {};
    } else {
      PosCounts(src, i - 1);
      var before := LineEnds(src, i - 1);
      if EndsLineAt(src, i - 1) {
        assert LineEnds(src, i) == before + {i - 1};
      } else {
        assert LineEnds(src, i) == before;
      }
    }
  }

  // ---------- Trivia ----------

  /** Where the line that holds byte i ends. */
  function LineEnd(src: string, i: nat): (j: nat)
    ensures i <= j && (i <= |src| ==> j <= |src|)
    ensures j >= |src| || IsNewline(src[j])
    decreases |src| - i
  {
    if i >= |src| || IsNewline(src[i]) then i else LineEnd(src, i + 1)
  }

  function SkipComment(src: string, i: nat): (j: nat)
    ensures i <= j && (i <= |src| ==> j <= |src|) && !CommentAt(src, j)
    ensures j != i ==> j >= |src| || IsNewline(src[j])
  {
    if CommentAt(src, i) then LineEnd(src, i) else i
  }

  /** Past blanks and comments, and past newlines too inside brackets. */
  function Trivia(src: string, i: nat, depth: nat): (j: nat)
    ensures i <= j && (i <= |src| ==> j <= |src|)
    ensures !IsBlank(CharAt(src, j)) && !CommentAt(src, j) && (IsNewline(CharAt(src, j)) ==> depth == 0)
    decreases |src| - i
  {
    var j := SkipComment(src, i);
    var c := CharAt(src, j);
    if IsBlank(c) || (IsNewline(c) && depth > 0) then Trivia(src, j + 1, depth) else j
  }

  /** Past newlines, blank lines and comments. */
  function Blanks(src: string, i: nat): (j: nat)
    ensures i <= j && (i <= |src| ==> j <= |src|)
    ensures !IsBlank(CharAt(src, j)) && !IsNewline(CharAt(src, j)) && !CommentAt(src, j)
    decreases |src| - i
  {
    var j := SkipComment(src, i);
    var c := CharAt(src, j);
    if IsBlank(c) || IsNewline(c) then Blanks(src, j + 1) else j
  }

  // ---------- Words and numbers ----------

  function WordEnd(src: string, i: nat): (j: nat)
    ensures i <= j && (i <= |src| ==> j <= |src|)
    ensures forall k | i <= k < j :: IsIdentPart(CharAt(src, k))
    ensures !IsIdentPart(CharAt(src, j))
    decreases |src| - i
  {
    if IsIdentPart(CharAt(src, i)) then WordEnd(src, i + 1) else i
  }

  /** Past digits and at most one dot. */
  function NumberEnd(src: string, i: nat, dotted: bool): (r: (nat, bool))
    ensures i <= r.0 && (i <= |src| ==> r.0 <= |src|) && (dotted ==> r.1)
    decreases |src| - i
  {
    var c := CharAt(src, i);
    if IsDigit(c) then NumberEnd(src, i + 1, dotted)
    else if c == '.' && !dotted then NumberEnd(src, i + 1, true)
    else (i, dotted)
  }

  // ---------- Strings ----------

  const UNTERMINATED := "unterminated string"
  const ILLEGAL_NUL := "illegal NUL byte"
  const BAD_ESCAPE := "invalid escape sequence"

  /** What a backslash and c stand for. */
  function Unescaped(c: char): Option<char> {
    match c
    case '"' => Some('"')
    case '\\' => Some('\\')
    case 'n' => Some('\n')
    case 't' => Some('\t')
    case 'r' => Some('\r')
    case _ => None
  }

  /** The text of a string, or what is wrong with it; end is the last byte looked at. */
  datatype StringRead = StringRead(text: string, error: string, end: nat)

  function FirstError(error: string, other: string): string {
    if error == "" then other else error
  }

  /** Reads on after byte i, which belongs to a string whose text so far is given. */
  function ReadFrom(src: string, i: nat, text: string, error: string): (r: StringRead)
    requires i < |src|
    ensures i <= r.end <= |src|
    decreases |src| - i
  {
    var c := CharAt(src, i + 1);
    if IsNewline(c) then StringRead("", UNTERMINATED, i)
    else if i + 1 == |src| then StringRead("", FirstError(error, UNTERMINATED), i + 1)
    else if c == '\0' then ReadFrom(src, i + 1, text, FirstError(error, ILLEGAL_NUL))
    else if c == '"' then StringRead(if error == "" then text else "", error, i + 1)
    else if c == '\\' then
      var d := CharAt(src, i + 2);
      if IsNewline(d) then StringRead("", UNTERMINATED, i + 1)
      else if i + 2 == |src| then StringRead("", UNTERMINATED, i + 2)
      else if Unescaped(d).Some? then ReadFrom(src, i + 2, text + [Unescaped(d).value], error)
      else ReadFrom(src, i + 2, text, FirstError(error, BAD_ESCAPE))
    else ReadFrom(src, i + 1, text + [c], error)
  }

  // ---------- Tokens ----------

  /** A token's kind and text, and the byte after it. */
  datatype Scanned = Scanned(typ: TokenType, lit: string, end: nat)

  /** An operator or delimiter, by its first byte and the one after it. */
  function Operator(src: string, i: nat): (r: Scanned)
    requires i < |src|
    ensures i < r.end <= |src| && r.typ !in {EOF, NEWLINE, IDENT, ELSE, STRING, INTEGER, FLOAT}
  {
    var one, two := i + 1, i + 2;
    var next := CharAt(src, i + 1);
    match src[i]
    case '=' => if next == '=' then Scanned(EQ, "==", two) else Scanned(ASSIGN, "=", one)
    case '<' => if next == '=' then Scanned(LTEQ, "<=", two) else Scanned(LT, "<", one)
    case '>' => if next == '=' then Scanned(GTEQ, ">=", two) else Scanned(GT, ">", one)
    case '!' => if next == '=' then Scanned(NEQ, "!=", two) else Scanned(BANG, "!", one)
    case '&' => if next == '&' then Scanned(AND, "&&", two) else Scanned(ILLEGAL, "&", one)
    case '|' => if next == '|' then Scanned(OR, "||", two) else Scanned(ILLEGAL, "|", one)
    case '+' => Scanned(PLUS, "+", one)
    case '-' => Scanned(MINUS, "-", one)
    case '*' => Scanned(ASTERISK, "*", one)
    case '/' => Scanned(SLASH, "/", one)
    case '%' => Scanned(PERCENT, "%", one)
    case '(' => Scanned(LPAREN, "(", one)
    case ')' => Scanned(RPAREN, ")", one)
    case '{' => Scanned(LBRACE, "{", one)
    case '}' => Scanned(RBRACE, "}", one)
    case '[' => Scanned(LBRACKET, "[", one)
    case ']' => Scanned(RBRACKET, "]", one)
    case ',' => Scanned(COMMA, ",", one)
    case ':' => Scanned(COLON, ":", one)
    case '.' => Scanned(DOT, ".", one)
    case '\0' => Scanned(ILLEGAL, ILLEGAL_NUL, one)
    case c => Scanned(ILLEGAL, [c], one)
  }

  /** The token that starts at byte i, which is not trivia. */
  function Scan(src: string, i: nat): (r: Scanned)
    requires i < |src|
    ensures i < r.end <= |src| + 1 && r.typ !in {EOF, NEWLINE}
  {
    var c := src[i];
    if IsIdentStart(c) then
      var end := WordEnd(src, i + 1);
      Scanned(LookupIdent(src[i..end]), src[i..end], end)
    else if IsDigit(c) then
      var (end, dotted) := NumberEnd(src, i + 1, false);
      Scanned(if dotted then FLOAT else INTEGER, src[i..end], end)
    else if c == '"' then
      var r := ReadFrom(src, i, "", "");
      if r.error != "" then Scanned(ILLEGAL, r.error, r.end + 1) else Scanned(STRING, r.text, r.end + 1)
    else Operator(src, i)
  }

  /** The open brackets after a token; closing brackets that match none are ignored. */
  function Brackets(depth: nat, t: TokenType): nat {
    match t
    case LPAREN => depth + 1
    case LBRACKET => depth + 1
    case RPAREN => if depth > 0 then depth - 1 else 0
    case RBRACKET => if depth > 0 then depth - 1 else 0
    case _ => depth
  }

  lemma WordsHoldNoBracket(src: string, i: nat, depth: nat)
    requires i < |src|
    ensures IsIdentStart(src[i]) || IsDigit(src[i]) ==> Brackets(depth, Scan(src, i).typ) == depth
  {
    hide WordEnd, NumberEnd;
  }

  /** A token, where it starts, and what the lexer goes on with. */
  datatype Step = Step(token: Token, start: nat, next: nat, depth: nat)

  /** The next token from byte i on, with depth brackets open. */
  function Next(src: string, i: nat, depth: nat): (r: Step)
    ensures i <= r.start
    ensures r.token.typ != EOF ==> r.start < r.next <= |src| + 1 && r.start < |src|
    ensures r.token.typ == EOF ==> i <= r.next && |src| <= r.next && (i <= |src| + 1 ==> r.next <= |src| + 1)
    ensures r.token.pos == PosAt(src, r.start)
    ensures r.depth == Brackets(depth, r.token.typ)
    decreases |src| - i
  {
    var j := Trivia(src, i, depth);
    if j >= |src| then Step(Token(PosAt(src, j), EOF, ""), j, j, depth)
    else if IsNewline(src[j]) then
      var k := Blanks(src, j + 1);
      if ElseAt(src, k) then Next(src, k, depth)
      else Step(Token(PosAt(src, j), NEWLINE, ""), j, k, depth)
    else
      var t := Scan(src, j);
      Step(Token(PosAt(src, j), t.typ, t.lit), j, t.end, Brackets(depth, t.typ))
  }

  /** All tokens before EOF. */
  function TokensFrom(src: string, i: nat, depth: nat): seq<Token>
    decreases |src| + 1 - i
  {
    var r := Next(src, i, depth);
    if r.token.typ == EOF then [] else [r.token] + TokensFrom(src, r.next, r.depth)
  }

  /** Where EOF is found. */
  function EndFrom(src: string, i: nat, depth: nat): Pos
    decreases |src| + 1 - i
  {
    var r := Next(src, i, depth);
    if r.token.typ == EOF then r.token.pos else EndFrom(src, r.next, r.depth)
  }

  // ---------- What the tokens are ----------

  /** A byte that starts an identifier starts a word: the longest run of identifier bytes there. */
  lemma ScanWord(src: string, i: nat)
    requires i < |src|
    ensures var r := Scan(src, i);
      IsIdentStart(src[i]) ==>
        && r.end <= |src| && r.lit == src[i..r.end] && IsIdent(r.lit) && (r.end == |src| || !IsIdentPart(src[r.end]))
        && r.typ == LookupIdent(r.lit)
    ensures Scan(src, i).typ in {IDENT, ELSE} ==> IsIdentStart(src[i])
  {
    if IsIdentStart(src[i]) {
      var end := WordEnd(src, i + 1);
      assert forall k | i <= k < end :: IsIdentPart(CharAt(src, k));
      forall k | 0 <= k < end - i ensures IsIdentPart(src[i..end][k]) {
        assert src[i..end][k] == CharAt(src, i + k);
      }
    }
  }

  /** Identifiers hold no dot, which names of slots rely on. */
  lemma IdentHasNoDot(lit: string)
    requires IsIdent(lit)
    ensures '.' !in lit
  {
  }

  /** Digits, with at most one dot among them. */
  predicate Numeral(s: string, dotted: bool) {
    && (forall k | 0 <= k < |s| :: IsDigit(s[k]) || s[k] == '.')
    && (if dotted then exists d | 0 <= d < |s| :: s[d] == '.' && forall k | 0 <= k < |s| && k != d :: IsDigit(s[k])
        else forall k | 0 <= k < |s| :: IsDigit(s[k]))
  }

  /** A digit starts the longest numeral there: an integer without a dot, a float with one. */
  lemma ScanNumber(src: string, i: nat)
    requires i < |src| && IsDigit(src[i])
    ensures var r := Scan(src, i);
      && r.end <= |src| && r.lit == src[i..r.end] && r.typ in {INTEGER, FLOAT} && Numeral(r.lit, r.typ == FLOAT)
      && !IsDigit(CharAt(src, r.end)) && (r.typ == INTEGER ==> CharAt(src, r.end) != '.')
  {
    NumberRun(src, i, i + 1, false, i);
  }

  /** start to i is a numeral already read; dot is where its dot is, if it has one. */
  lemma {:induction false} NumberRun(src: string, start: nat, i: nat, dotted: bool, dot: nat)
    requires start < i <= |src| && (forall k | start <= k < i :: IsDigit(src[k]) || (dotted && k == dot))
    requires dotted ==> start <= dot < i && src[dot] == '.'
    ensures var (end, d) := NumberEnd(src, i, dotted);
      && Numeral(src[start..end], d) && !IsDigit(CharAt(src, end)) && (!d ==> CharAt(src, end) != '.')
    decreases |src| - i
  {
    var c := CharAt(src, i);
    if IsDigit(c) {
      NumberRun(src, start, i + 1, dotted, dot);
    } else if c == '.' && !dotted {
      NumberRun(src, start, i + 1, true, i);
    } else {
      var s := src[start..i];
      assert forall k | 0 <= k < |s| :: s[k] == src[start + k];
      if dotted {
        assert s[dot - start] == '.';
      }
    }
  }

  // ---------- Strings that were written out ----------

  /** A byte as it is written inside quotes. */
  function Escaped(c: char): (r: string)
    ensures r != ""
  {
    match c
    case '"' => "\\\""
    case '\\' => "\\\\"
    case '\n' => "\\n"
    case '\t' => "\\t"
    case '\r' => "\\r"
    case _ => [c]
  }

  function EscapedAll(s: string): string {
    if s == "" then "" else Escaped(s[0]) + EscapedAll(s[1..])
  }

  function Quoted(s: string): string {
    "\"" + EscapedAll(s) + "\""
  }

  /** From byte i on, src holds s. */
  predicate HoldsAt(src: string, i: nat, s: string) {
    i + |s| <= |src| && src[i..i + |s|] == s
  }

  lemma HoldsSplit(src: string, i: nat, a: string, b: string)
    requires HoldsAt(src, i, a + b)
    ensures HoldsAt(src, i, a) && HoldsAt(src, i + |a|, b)
  {
    var all := src[i..i + |a + b|];
    assert src[i..i + |a|] == all[..|a|] == a;
    assert src[i + |a|..i + |a| + |b|] == all[|a|..] == b;
  }

  /** Reading a quoted string gives back its text, whatever bytes but NUL it holds. */
  lemma {:induction false} ReadQuoted(src: string, i: nat, text: string, s: string)
    requires '\0' !in s && HoldsAt(src, i + 1, EscapedAll(s) + "\"")
    ensures i < |src| && ReadFrom(src, i, text, "") == StringRead(text + s, "", i + |EscapedAll(s)| + 1)
    decreases s
  {
    hide Escaped;
    if s == "" {
      assert EscapedAll(s) + "\"" == "\"";
      assert src[i + 1] == src[i + 1..i + 2][0];
      assert text + s == text;
    } else {
      var e, rest := Escaped(s[0]), EscapedAll(s[1..]) + "\"";
      assert EscapedAll(s) + "\"" == e + rest;
      HoldsSplit(src, i + 1, e, rest);
      ReadEscaped(src, i, text, s[0]);
      ReadQuoted(src, i + |e|, text + [s[0]], s[1..]);
      assert text + [s[0]] + s[1..] == text + s by { assert s == [s[0]] + s[1..]; }
    }
  }

  lemma ReadEscaped(src: string, i: nat, text: string, c: char)
    requires c != '\0' && HoldsAt(src, i + 1, Escaped(c)) && i + 1 + |Escaped(c)| < |src|
    ensures ReadFrom(src, i, text, "") == ReadFrom(src, i + |Escaped(c)|, text + [c], "")
  {
    var e := Escaped(c);
    assert src[i + 1] == src[i + 1..i + 1 + |e|][0] == e[0];
    if |e| == 2 {
      assert src[i + 2] == src[i + 1..i + 1 + |e|][1] == e[1];
    }
  }

  /** The quoted form of any NUL-free text is one token, and its text is what was quoted. */
  lemma QuoteRoundTrip(src: string, i: nat, s: string)
    requires '\0' !in s && HoldsAt(src, i, Quoted(s))
    ensures i < |src| && Scan(src, i) == Scanned(STRING, s, i + |Quoted(s)|)
  {
    assert Quoted(s) == "\"" + (EscapedAll(s) + "\"");
    HoldsSplit(src, i, "\"", EscapedAll(s) + "\"");
    assert src[i] == src[i..i + 1][0];
    ReadQuoted(src, i, "", s);
    assert "" + s == s;
  }

  // ---------- Operators and keywords ----------

  /** How a token of a fixed form is written; empty for the other kinds. */
  function Spelling(t: TokenType): string {
    match t
    case ASSIGN => "=" case EQ => "==" case NEQ => "!=" case BANG => "!"
    case LT => "<" case GT => ">" case LTEQ => "<=" case GTEQ => ">="
    case PLUS => "+" case MINUS => "-" case ASTERISK => "*" case SLASH => "/" case PERCENT => "%"
    case AND => "&&" case OR => "||"
    case LPAREN => "(" case RPAREN => ")" case LBRACE => "{" case RBRACE => "}" case LBRACKET => "["
      case RBRACKET => "]"
    case COMMA => "," case COLON => ":" case DOT => "."
    case LET => "let" case CONST => "const" case INPUT => "input" case OUTPUT => "output" case FUNCTION => "function"
    case IF => "if" case ELSE => "else" case TRUE => "true" case FALSE => "false"
    case _ => ""
  }

  /** An operator or delimiter. */
  predicate IsSymbol(t: TokenType) {
    Spelling(t) != "" && !IsIdentStart(Spelling(t)[0])
  }

  lemma HoldsOne(src: string, i: nat, t: TokenType)
    requires i < |src| && IsSymbol(t)
    ensures HoldsAt(src, i, Spelling(t)) <==>
      src[i] == Spelling(t)[0] && (|Spelling(t)| == 2 ==> CharAt(src, i + 1) == Spelling(t)[1])
    ensures |Spelling(t)| <= 2
  {
    var w := Spelling(t);
    if i + |w| <= |src| {
      assert src[i..i + |w|][0] == src[i];
      assert |w| == 2 ==> src[i..i + |w|][1] == src[i + 1];
      if src[i] == w[0] && (|w| == 2 ==> src[i + 1] == w[1]) {
        assert src[i..i + |w|] == w;
      }
    }
  }

  /**
   Anywhere but at a word, number or string, the token is the longest operator or delimiter written there, if there is
   one.
   */
  lemma LongestSymbol(src: string, i: nat)
    requires i < |src| && !IsIdentStart(src[i]) && !IsDigit(src[i]) && src[i] != '"'
    ensures var r := Scan(src, i);
      && (r.typ == ILLEGAL || (IsSymbol(r.typ) && HoldsAt(src, i, Spelling(r.typ))
            && r.lit == Spelling(r.typ) && r.end == i + |r.lit|))
      && (forall t | IsSymbol(t) && HoldsAt(src, i, Spelling(t)) ::
        r.typ != ILLEGAL && |Spelling(t)| <= |Spelling(r.typ)|)
  {
    SymbolIsWritten(src, i);
    forall t | IsSymbol(t) && HoldsAt(src, i, Spelling(t)) ensures Scan(src, i).typ != ILLEGAL
      && |Spelling(t)| <= |Spelling(Scan(src, i).typ)| {
      hide Spelling, IsSymbol, HoldsAt, Scan;
      WrittenIsScanned(src, i, t);
    }
  }

  lemma SymbolIsWritten(src: string, i: nat)
    requires i < |src| && !IsIdentStart(src[i]) && !IsDigit(src[i]) && src[i] != '"'
    ensures var r := Scan(src, i);
      r.typ == ILLEGAL || (IsSymbol(r.typ) && HoldsAt(src, i, Spelling(r.typ))
        && r.lit == Spelling(r.typ) && r.end == i + |r.lit|)
  {
    hide HoldsAt;
    if Scan(src, i).typ != ILLEGAL {
      HoldsOne(src, i, Scan(src, i).typ);
    }
  }

  lemma WrittenIsScanned(src: string, i: nat, t: TokenType)
    requires i < |src| && !IsIdentStart(src[i]) && !IsDigit(src[i]) && src[i] != '"'
    requires IsSymbol(t) && HoldsAt(src, i, Spelling(t))
    ensures Scan(src, i).typ != ILLEGAL && |Spelling(t)| <= |Spelling(Scan(src, i).typ)|
  {
    hide HoldsAt;
    HoldsOne(src, i, t);
  }

  /** The words of a fixed form are the keywords, each of its own kind; every other word is an identifier. */
  lemma KeywordsAreSpelled(word: string, t: TokenType)
    requires t != IDENT
    ensures LookupIdent(word) == t <==> word != "" && word == Spelling(t) && !IsSymbol(t)
  {
    hide LookupIdent, Spelling, IsSymbol;
    if word != "" && word == Spelling(t) && !IsSymbol(t) {
      SpelledIsKeyword(t);
    }
    if LookupIdent(word) == t {
      KeywordIsSpelled(word);
    }
  }

  lemma SpelledIsKeyword(t: TokenType)
    requires Spelling(t) != "" && !IsSymbol(t)
    ensures LookupIdent(Spelling(t)) == t
  {
  }

  lemma KeywordIsSpelled(word: string)
    requires LookupIdent(word) != IDENT
    ensures var t := LookupIdent(word);
      word != "" && word == Spelling(t) && !IsSymbol(t)
  {
  }

  // ---------- Newlines ----------

  /** Byte i is neither blank, newline nor comment, and does not start the word else. */
  predicate Settled(src: string, i: nat) {
    !IsBlank(CharAt(src, i)) && !IsNewline(CharAt(src, i)) && !CommentAt(src, i) && !ElseAt(src, i)
  }

  lemma ElseWord(src: string, i: nat)
    requires i < |src| && Scan(src, i).typ == ELSE
    ensures ElseAt(src, i)
  {
    ScanWord(src, i);
    var r := Scan(src, i);
    assert r.lit == "else";
  }

  /** After a NEWLINE token the text is settled, and it is emitted only outside brackets. */
  lemma {:induction false} NewlineSettles(src: string, i: nat, depth: nat)
    ensures var r := Next(src, i, depth);
      r.token.typ == NEWLINE ==> depth == 0 && Settled(src, r.next)
    decreases |src| - i
  {
    var j := Trivia(src, i, depth);
    if j < |src| && IsNewline(src[j]) {
      var k := Blanks(src, j + 1);
      if ElseAt(src, k) {
        NewlineSettles(src, k, depth);
      }
    }
  }

  /** Settled text gives neither a NEWLINE nor an ELSE. */
  lemma SettledNext(src: string, i: nat, depth: nat)
    requires Settled(src, i)
    ensures Next(src, i, depth).token.typ !in {NEWLINE, ELSE}
  {
    assert Trivia(src, i, depth) == i;
    if i < |src| && Scan(src, i).typ == ELSE {
      ElseWord(src, i);
    }
  }

  /** The brackets open after some tokens. */
  function BracketsOf(ts: seq<Token>, depth: nat): nat {
    if ts == [] then depth else BracketsOf(ts[1..], Brackets(depth, ts[0].typ))
  }

  /** How many brackets the tokens open. */
  function Opened(ts: seq<Token>): nat {
    if ts == [] then 0 else (if ts[0].typ in {LPAREN, LBRACKET} then 1 else 0) + Opened(ts[1..])
  }

  function Closed(ts: seq<Token>): nat {
    if ts == [] then 0 else (if ts[0].typ in {RPAREN, RBRACKET} then 1 else 0) + Closed(ts[1..])
  }

  /** No bracket is open after ts: from wherever one starts to count, at least as many are closed as opened. */
  predicate Outside(ts: seq<Token>, depth: nat) {
    depth + Opened(ts) <= Closed(ts) && forall j | 0 <= j <= |ts| :: Opened(ts[j..]) <= Closed(ts[j..])
  }

  /** The count that ignores closing brackets without a partner is zero exactly outside brackets. */
  lemma {:induction false} OutsideIsZero(ts: seq<Token>, depth: nat)
    ensures BracketsOf(ts, depth) == 0 <==> Outside(ts, depth)
  {
    if ts == [] {
      assert forall j | 0 <= j <= |ts| :: ts[j..] == [];
    } else {
      var rest, d := ts[1..], Brackets(depth, ts[0].typ);
      OutsideIsZero(rest, d);
      assert forall j | 1 <= j <= |ts| :: ts[j..] == rest[j - 1..];
      assert forall j | 0 <= j <= |rest| :: rest[j..] == ts[j + 1..];
      assert ts[0..] == ts && rest[0..] == rest;
      if Outside(ts, depth) {
        assert Opened(ts[1..]) <= Closed(ts[1..]);
      }
    }
  }

  /** A NEWLINE stands outside brackets, and neither another NEWLINE nor an ELSE follows it. */
  predicate Disciplined(ts: seq<Token>, depth: nat) {
    forall k | 0 <= k < |ts| && ts[k].typ == NEWLINE ::
      && Outside(ts[..k], depth)
      && (k + 1 < |ts| ==> ts[k + 1].typ !in {NEWLINE, ELSE})
  }

  lemma BracketsFirst(t: Token, ts: seq<Token>, depth: nat)
    ensures BracketsOf([t] + ts, depth) == BracketsOf(ts, Brackets(depth, t.typ))
  {
    assert ([t] + ts)[1..] == ts;
  }

  /** The newline discipline of whole token streams. */
  lemma {:induction false} NewlineDiscipline(src: string, i: nat, depth: nat)
    ensures Disciplined(TokensFrom(src, i, depth), depth)
    ensures Settled(src, i) ==> var ts := TokensFrom(src, i, depth); ts != [] ==> ts[0].typ !in {NEWLINE, ELSE}
    decreases |src| + 1 - i
  {
    var r := Next(src, i, depth);
    if Settled(src, i) {
      SettledNext(src, i, depth);
    }
    if r.token.typ != EOF {
      NewlineSettles(src, i, depth);
      NewlineDiscipline(src, r.next, r.depth);
      var ts, rest := TokensFrom(src, i, depth), TokensFrom(src, r.next, r.depth);
      forall k | 0 <= k < |ts| && ts[k].typ == NEWLINE
        ensures Outside(ts[..k], depth) && (k + 1 < |ts| ==> ts[k + 1].typ !in {NEWLINE, ELSE})
      {
        OutsideIsZero(ts[..k], depth);
        if k > 0 {
          assert ts[k] == rest[k - 1];
          OutsideIsZero(rest[..k - 1], r.depth);
          BracketsFirst(r.token, rest[..k - 1], depth);
          assert ts[..k] == [r.token] + rest[..k - 1];
        }
      }
    }
  }

  /** From the end of the token before to the start of each token. */
  function GapsFrom(src: string, i: nat, depth: nat): (gaps: seq<(nat, nat)>)
    ensures |gaps| == |TokensFrom(src, i, depth)|
    decreases |src| + 1 - i
  {
    var r := Next(src, i, depth);
    if r.token.typ == EOF then [] else [(i, r.start)] + GapsFrom(src, r.next, r.depth)
  }

  predicate OneLine(src: string, i: nat, j: nat) {
    forall k | i <= k < j :: !IsNewline(CharAt(src, k))
  }

  /** Outside brackets a line ends before a token only with a NEWLINE or before an ELSE. */
  predicate LinesKept(src: string, ts: seq<Token>, gaps: seq<(nat, nat)>, depth: nat)
    requires |gaps| == |ts|
  {
    forall k | 0 <= k < |ts| && Outside(ts[..k], depth) && ts[k].typ != ELSE :: OneLine(src, gaps[k].0, gaps[k].1)
  }

  /** Every NEWLINE is the first line end after a token. */
  predicate NewlinesEndLines(src: string, ts: seq<Token>, gaps: seq<(nat, nat)>)
    requires |gaps| == |ts|
  {
    forall k | 0 <= k < |ts| && ts[k].typ == NEWLINE ::
      OneLine(src, gaps[k].0, gaps[k].1) && IsNewline(CharAt(src, gaps[k].1))
  }

  /** No line end is lost: NEWLINE tokens come exactly where lines end, outside brackets and not before an ELSE. */
  lemma {:induction false} NewlinesAreKept(src: string, i: nat, depth: nat)
    ensures LinesKept(src, TokensFrom(src, i, depth), GapsFrom(src, i, depth), depth)
    ensures NewlinesEndLines(src, TokensFrom(src, i, depth), GapsFrom(src, i, depth))
    decreases |src| + 1 - i
  {
    hide Outside;
    var r := Next(src, i, depth);
    if r.token.typ != EOF {
      NextLine(src, i, depth);
      NewlinesAreKept(src, r.next, r.depth);
      var ts, rest := TokensFrom(src, i, depth), TokensFrom(src, r.next, r.depth);
      var gaps := GapsFrom(src, i, depth);
      forall k | 0 <= k < |ts| && Outside(ts[..k], depth) && ts[k].typ != ELSE
        ensures OneLine(src, gaps[k].0, gaps[k].1)
      {
        OutsideIsZero(ts[..k], depth);
        if k > 0 {
          OutsideIsZero(rest[..k - 1], r.depth);
          BracketsFirst(r.token, rest[..k - 1], depth);
          assert ts[..k] == [r.token] + rest[..k - 1];
        }
      }
    }
  }

  lemma NextLine(src: string, i: nat, depth: nat)
    ensures var r := Next(src, i, depth);
      && (r.token.typ == NEWLINE ==> IsNewline(CharAt(src, r.start)))
      && (r.token.typ == NEWLINE || (depth == 0 && r.token.typ != ELSE) ==> OneLine(src, i, r.start))
  {
    var j := Trivia(src, i, depth);
    NewlineSettles(src, i, depth);
    if depth == 0 {
      TriviaLine(src, i);
    }
    if j < |src| && IsNewline(src[j]) {
      var k := Blanks(src, j + 1);
      if ElseAt(src, k) {
        ElseNext(src, k, depth);
      }
    }
  }

  lemma {:induction false} TriviaLine(src: string, i: nat)
    ensures OneLine(src, i, Trivia(src, i, 0))
    decreases |src| - i
  {
    var j := SkipComment(src, i);
    CommentLine(src, i);
    if IsBlank(CharAt(src, j)) {
      TriviaLine(src, j + 1);
    }
  }

  lemma CommentLine(src: string, i: nat)
    ensures OneLine(src, i, SkipComment(src, i))
  {
    if CommentAt(src, i) {
      LineEndOnLine(src, i);
    }
  }

  lemma ElseNext(src: string, k: nat, depth: nat)
    requires ElseAt(src, k)
    ensures Next(src, k, depth).token.typ == ELSE
  {
    assert src[k] == src[k..k + 4][0] == 'e';
    assert Trivia(src, k, depth) == k;
    ScanWord(src, k);
    var r := Scan(src, k);
    ElseEnds(src, k, r.end);
  }

  lemma ElseEnds(src: string, k: nat, end: nat)
    requires ElseAt(src, k) && k < end <= |src| && IsIdent(src[k..end]) && (end == |src| || !IsIdentPart(src[end]))
    ensures src[k..end] == "else"
  {
    forall m | k <= m < k + 4 ensures IsIdentPart(src[m]) {
      assert src[m] == src[k..k + 4][m - k];
    }
    assert end >= k + 4;
    forall m | k <= m < end ensures IsIdentPart(src[m]) {
      assert src[m] == src[k..end][m - k];
    }
  }

  // ---------- Progress and positions ----------

  /** Every token takes at least one byte, so EOF comes within |src| tokens, and then again and again. */
  lemma {:induction false} FewTokens(src: string, i: nat, depth: nat)
    ensures |TokensFrom(src, i, depth)| <= if i < |src| then |src| - i else 0
    decreases |src| + 1 - i
  {
    var r := Next(src, i, depth);
    if r.token.typ != EOF {
      FewTokens(src, r.next, r.depth);
    }
  }

  lemma EofRepeats(src: string, i: nat, depth: nat)
    ensures var r := Next(src, i, depth);
      r.token.typ == EOF ==> Next(src, r.next, r.depth) == r
  {
    var j := Trivia(src, i, depth);
    if j >= |src| {
      assert Trivia(src, j, depth) == j;
    } else {
      EofEnd(src, i, depth);
    }
  }

  lemma {:induction false} EofEnd(src: string, i: nat, depth: nat)
    ensures var r := Next(src, i, depth);
      r.token.typ == EOF ==> r.start == r.next >= |src| && r.depth == depth && Trivia(src, r.next, depth) == r.next
    decreases |src| - i
  {
    var j := Trivia(src, i, depth);
    if j < |src| && IsNewline(src[j]) {
      var k := Blanks(src, j + 1);
      if ElseAt(src, k) {
        EofEnd(src, k, depth);
      }
    }
  }

  /** Where each token starts. */
  function StartsFrom(src: string, i: nat, depth: nat): (starts: seq<nat>)
    ensures |starts| == |TokensFrom(src, i, depth)|
    decreases |src| + 1 - i
  {
    var r := Next(src, i, depth);
    if r.token.typ == EOF then [] else [r.start] + StartsFrom(src, r.next, r.depth)
  }

  predicate Increasing(starts: seq<nat>) {
    forall a, b | 0 <= a < b < |starts| :: starts[a] < starts[b]
  }

  /** Each token carries the position of its first byte, which is in the text from i on. */
  predicate Positioned(src: string, i: nat, ts: seq<Token>, starts: seq<nat>) {
    |ts| == |starts| && forall k | 0 <= k < |starts| :: i <= starts[k] < |src| && ts[k].pos == PosAt(src, starts[k])
  }

  /** Tokens start at increasing offsets, and each carries the position of its first byte. */
  lemma {:induction false} TokenPositions(src: string, i: nat, depth: nat)
    ensures Positioned(src, i, TokensFrom(src, i, depth), StartsFrom(src, i, depth))
    ensures Increasing(StartsFrom(src, i, depth))
    decreases |src| + 1 - i
  {
    var r := Next(src, i, depth);
    if r.token.typ != EOF {
      TokenPositions(src, r.next, r.depth);
      PositionedCons(src, i, r, TokensFrom(src, r.next, r.depth), StartsFrom(src, r.next, r.depth));
    }
  }

  lemma PositionedCons(src: string, i: nat, r: Step, ts: seq<Token>, starts: seq<nat>)
    requires i <= r.start < r.next && r.start < |src| && r.token.pos == PosAt(src, r.start)
    requires Positioned(src, r.next, ts, starts) && Increasing(starts)
    ensures Positioned(src, i, [r.token] + ts, [r.start] + starts) && Increasing([r.start] + starts)
  {
    var all := [r.start] + starts;
    forall a, b | 0 <= a < b < |all| ensures all[a] < all[b] {
      assert all[b] == starts[b - 1] >= r.next;
      assert a > 0 ==> all[a] == starts[a - 1];
    }
  }

  // ---------- Nothing is lost ----------

  /** Byte k is blank, a newline or part of a comment that starts at i or later. */
  predicate Insignificant(src: string, i: nat, k: nat) {
    || IsBlank(CharAt(src, k)) || IsNewline(CharAt(src, k))
    || exists m | i <= m <= k :: CommentAt(src, m) && OneLine(src, m, k + 1)
  }

  predicate Gap(src: string, i: nat, j: nat) {
    forall k | i <= k < j :: Insignificant(src, i, k)
  }

  lemma GapJoins(src: string, i: nat, j: nat, k: nat)
    requires i <= j <= k && Gap(src, i, j) && Gap(src, j, k)
    ensures Gap(src, i, k)
  {
    forall l | j <= l < k ensures Insignificant(src, i, l) {
      assert Insignificant(src, j, l);
    }
  }

  lemma {:induction false} LineEndOnLine(src: string, i: nat)
    ensures OneLine(src, i, LineEnd(src, i))
    decreases |src| - i
  {
    if i < |src| && !IsNewline(src[i]) {
      LineEndOnLine(src, i + 1);
    }
  }

  lemma CommentGap(src: string, i: nat)
    ensures Gap(src, i, SkipComment(src, i))
  {
    if CommentAt(src, i) {
      LineEndOnLine(src, i);
    }
  }

  lemma {:induction false} TriviaGap(src: string, i: nat, depth: nat)
    ensures Gap(src, i, Trivia(src, i, depth))
    decreases |src| - i
  {
    CommentGap(src, i);
    var j := SkipComment(src, i);
    if IsBlank(CharAt(src, j)) || (IsNewline(CharAt(src, j)) && depth > 0) {
      TriviaGap(src, j + 1, depth);
      assert Gap(src, j, j + 1);
      GapJoins(src, i, j, j + 1);
      GapJoins(src, i, j + 1, Trivia(src, i, depth));
    }
  }

  lemma {:induction false} BlanksGap(src: string, i: nat)
    ensures Gap(src, i, Blanks(src, i))
    decreases |src| - i
  {
    CommentGap(src, i);
    var j := SkipComment(src, i);
    if IsBlank(CharAt(src, j)) || IsNewline(CharAt(src, j)) {
      BlanksGap(src, j + 1);
      assert Gap(src, j, j + 1);
      GapJoins(src, i, j, j + 1);
      GapJoins(src, i, j + 1, Blanks(src, i));
    }
  }

  /** Between the end of one token and the start of the next there is nothing but blanks, newlines and comments. */
  lemma {:induction false} OnlyTriviaBetween(src: string, i: nat, depth: nat)
    ensures Gap(src, i, Next(src, i, depth).start)
    decreases |src| - i
  {
    hide Scan, PosAt, Trivia, Blanks, ElseAt, OneLine;
    TriviaGap(src, i, depth);
    var j := Trivia(src, i, depth);
    if j < |src| && IsNewline(src[j]) {
      var k := Blanks(src, j + 1);
      if ElseAt(src, k) {
        BlanksGap(src, j + 1);
        assert Gap(src, j, j + 1);
        GapJoins(src, i, j, j + 1);
        GapJoins(src, i, j + 1, k);
        OnlyTriviaBetween(src, k, depth);
        GapJoins(src, i, k, Next(src, k, depth).start);
      }
    }
  }

  /** Every identifier of a script is one, so none holds a dot. */
  lemma {:induction false} IdentsAreWords(src: string, i: nat, depth: nat)
    ensures forall t | t in TokensFrom(src, i, depth) :: t.typ == IDENT ==> IsIdent(t.lit)
    decreases |src| + 1 - i
  {
    var r := Next(src, i, depth);
    NextIdent(src, i, depth);
    if r.token.typ != EOF {
      IdentsAreWords(src, r.next, r.depth);
    }
  }

  lemma {:induction false} NextIdent(src: string, i: nat, depth: nat)
    ensures var t := Next(src, i, depth).token; t.typ == IDENT ==> IsIdent(t.lit)
    decreases |src| - i
  {
    hide PosAt, Trivia, Blanks, Scan;
    var j := Trivia(src, i, depth);
    if j < |src| {
      if IsNewline(src[j]) {
        var k := Blanks(src, j + 1);
        if ElseAt(src, k) {
          NextIdent(src, k, depth);
        }
      } else {
        ScanWord(src, j);
      }
    }
  }
}
