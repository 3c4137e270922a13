/** The lexer (lexer/lexer.go): a cursor over the bytes of a script, proved to produce the tokens of Lexing.dfy. */
module Lexers {
  import opened Tokens
  import opened Lexing

  class Lexer {
    const src: string
    var col: nat
    var line: nat
    var currCursor: int
    var peekCursor: nat
    var currChar: char
    var bracketDepth: nat

    /** The cursor is on a byte or past the end, and the position is that byte's. */
    ghost predicate Valid()
      reads this
    {
      0 <= currCursor <= |src| + 1 && Placed()
    }

    /** The same, or before the first byte. */
    ghost predicate Placed()
      reads this
    {
      && -1 <= currCursor && peekCursor == currCursor + 1
      && (if currCursor == -1 then currChar == '\0' && line == 1 && col == 0
          else currChar == CharAt(src, currCursor) && Pos(line, col) == PosAt(src, currCursor))
    }

    constructor (input: string)
      ensures Valid() && src == input && currCursor == 0 && bracketDepth == 0
    {
      src := input;
      col, line, currCursor, peekCursor, currChar, bracketDepth := 0, 1, -1, 0, '\0', 0;
      new;
      Advance();
    }

    predicate AtEof()
      reads this
    {
      currCursor >= |src|
    }

    function PeekChar(): char
      reads this
    {
      if peekCursor >= |src| then '\0' else src[peekCursor]
    }

    predicate AtCommentStart()
      reads this
    {
      currChar == '/' && PeekChar() == '/'
    }

    function Here(): Pos
      reads this
    {
      Pos(line, col)
    }

    predicate AtElse()
      requires Valid()
      reads this
    {
      ElseAt(src, currCursor)
    }

    method Advance()
      requires Placed() && currCursor <= |src|
      modifies this`col, this`line, this`currCursor, this`peekCursor, this`currChar
      ensures Valid() && currCursor == old(currCursor) + 1
    {
      if currChar == '\n' || (currChar == '\r' && PeekChar() != '\n') {
        line := line + 1;
        col := 0;
      }
      col := col + 1;
      currCursor := currCursor + 1;
      peekCursor := peekCursor + 1;
      if AtEof() {
        currChar := '\0';
        return;
      }
      currChar := src[currCursor];
    }

    method SkipCommentLine()
      requires Valid() && currCursor <= |src|
      modifies this`col, this`line, this`currCursor, this`peekCursor, this`currChar
      ensures Valid() && currCursor == LineEnd(src, old(currCursor))
    {
      while !AtEof() && !IsNewline(currChar)
        invariant Valid() && currCursor <= |src| && LineEnd(src, currCursor) == LineEnd(src, old(currCursor))
        decreases |src| - currCursor
      {
        Advance();
      }
    }

    /** Past what separates tokens, newlines only inside brackets. */
    method SkipTrivia()
      requires Valid()
      modifies this`col, this`line, this`currCursor, this`peekCursor, this`currChar
      ensures Valid() && currCursor == Trivia(src, old(currCursor), bracketDepth)
    {
      while !AtEof()
        invariant Valid() && Trivia(src, currCursor, bracketDepth) == Trivia(src, old(currCursor), bracketDepth)
        decreases |src| - currCursor
      {
        if AtCommentStart() {
          SkipCommentLine();
        }
        if IsNewline(currChar) && bracketDepth > 0 {
          Advance();
          continue;
        }
        if currChar != ' ' && currChar != '\t' {
          break;
        }
        Advance();
      }
    }

    /** From one newline past all newlines, blank lines and comments that follow. */
    method CollapseNewlines()
      requires Valid() && IsNewline(currChar)
      modifies this`col, this`line, this`currCursor, this`peekCursor, this`currChar
      ensures Valid() && currCursor == Blanks(src, old(currCursor) + 1)
    {
      while true
        invariant Valid() && currCursor < |src| && Blanks(src, currCursor + 1) == Blanks(src, old(currCursor) + 1)
        decreases |src| - currCursor
      {
        Advance();
        if AtCommentStart() {
          SkipCommentLine();
        }
        if currChar == ' ' || currChar == '\t' || currChar == '\r' {
          continue;
        }
        if AtEof() || currChar != '\n' {
          break;
        }
      }
    }

    method NextToken() returns (t: Token)
      requires Valid()
      modifies this
      ensures Valid()
      ensures var r := Next(src, old(currCursor), old(bracketDepth));
        t == r.token && currCursor == r.next && bracketDepth == r.depth
      decreases |src| - currCursor
    {
      hide PosAt, Trivia, Blanks, Scan, Brackets, ElseAt;
      SkipTrivia();
      if IsNewline(currChar) {
        var pos := Here();
        CollapseNewlines();
        if AtElse() {
          t := NextToken();
          return;
        }
        return Token(pos, NEWLINE, "");
      }
      if AtEof() {
        return Token(Here(), EOF, "");
      }
      WordsHoldNoBracket(src, currCursor, bracketDepth);
      if IsIdentStart(currChar) {
        t := ReadWord();
      } else if IsDigit(currChar) {
        t := ReadNumber();
      } else {
        t := ReadOperator();
      }
    }

    method ReadWord() returns (t: Token)
      requires Valid() && !AtEof() && IsIdentStart(currChar)
      modifies this`col, this`line, this`currCursor, this`peekCursor, this`currChar
      ensures Valid()
      ensures var r := Scan(src, old(currCursor)); t == Token(old(Here()), r.typ, r.lit) && currCursor == r.end
    {
      var pos, startIdx := Here(), currCursor;
      assert WordEnd(src, currCursor) == WordEnd(src, currCursor + 1);
      while IsIdentPart(currChar)
        invariant Valid() && startIdx <= currCursor <= |src| && WordEnd(src, currCursor) == WordEnd(src, startIdx + 1)
        decreases |src| - currCursor
      {
        Advance();
      }
      var literal := src[startIdx..currCursor];
      t := Token(pos, LookupIdent(literal), literal);
    }

    method ReadNumber() returns (t: Token)
      requires Valid() && !AtEof() && IsDigit(currChar)
      modifies this`col, this`line, this`currCursor, this`peekCursor, this`currChar
      ensures Valid()
      ensures var r := Scan(src, old(currCursor)); t == Token(old(Here()), r.typ, r.lit) && currCursor == r.end
    {
      var pos, startIdx, dotFound := Here(), currCursor, false;
      assert NumberEnd(src, currCursor, false) == NumberEnd(src, currCursor + 1, false);
      while IsDigit(currChar) || currChar == '.'
        invariant Valid() && startIdx <= currCursor <= |src|
        invariant NumberEnd(src, currCursor, dotFound) == NumberEnd(src, startIdx + 1, false)
        decreases |src| - currCursor
      {
        if currChar == '.' {
          if dotFound {
            break;
          }
          dotFound := true;
        }
        Advance();
      }
      t := Token(pos, if dotFound then FLOAT else INTEGER, src[startIdx..currCursor]);
    }

    /** A string, an operator, a delimiter or an illegal byte. */
    method ReadOperator() returns (t: Token)
      requires Valid() && !AtEof() && !IsIdentStart(currChar) && !IsDigit(currChar)
      modifies this
      ensures Valid()
      ensures var r := Scan(src, old(currCursor));
        t == Token(old(Here()), r.typ, r.lit) && currCursor == r.end
          && bracketDepth == Brackets(old(bracketDepth), r.typ)
    {
      hide PosAt, ReadFrom;
      ghost var r := Scan(src, currCursor);
      var pos, next := Here(), PeekChar();
      match currChar {
        case '=' => t := Maybe(pos, next == '=', EQ, "==", ASSIGN, "=");
        case '<' => t := Maybe(pos, next == '=', LTEQ, "<=", LT, "<");
        case '>' => t := Maybe(pos, next == '=', GTEQ, ">=", GT, ">");
        case '!' => t := Maybe(pos, next == '=', NEQ, "!=", BANG, "!");
        case '&' => t := Maybe(pos, next == '&', AND, "&&", ILLEGAL, "&");
        case '|' => t := Maybe(pos, next == '|', OR, "||", ILLEGAL, "|");
        case '+' => t := Token(pos, PLUS, "+");
        case '-' => t := Token(pos, MINUS, "-");
        case '*' => t := Token(pos, ASTERISK, "*");
        case '/' => t := Token(pos, SLASH, "/");
        case '%' => t := Token(pos, PERCENT, "%");
        case '(' =>
          bracketDepth := bracketDepth + 1;
          t := Token(pos, LPAREN, "(");
        case ')' =>
          if bracketDepth > 0 {
            bracketDepth := bracketDepth - 1;
          }
          t := Token(pos, RPAREN, ")");
        case '{' => t := Token(pos, LBRACE, "{");
        case '}' => t := Token(pos, RBRACE, "}");
        case '[' =>
          bracketDepth := bracketDepth + 1;
          t := Token(pos, LBRACKET, "[");
        case ']' =>
          if bracketDepth > 0 {
            bracketDepth := bracketDepth - 1;
          }
          t := Token(pos, RBRACKET, "]");
        case ',' => t := Token(pos, COMMA, ",");
        case ':' => t := Token(pos, COLON, ":");
        case '\0' => t := Token(pos, ILLEGAL, ILLEGAL_NUL);
        case '"' =>
          var lit, errMsg := ReadString();
          t := if errMsg != "" then Token(pos, ILLEGAL, errMsg) else Token(pos, STRING, lit);
        case '.' => t := Token(pos, DOT, ".");
        case _ => t := Token(pos, ILLEGAL, [currChar]);
      }
      assert t == Token(pos, r.typ, r.lit) && currCursor + 1 == r.end
        && bracketDepth == Brackets(old(bracketDepth), r.typ);
      hide Scan, Operator, Brackets;
      Advance();
    }

    /** A two-byte token if its second byte is there, moving onto that byte; else a one-byte token. */
    method Maybe(pos: Pos, two: bool, twoType: TokenType, twoLit: string, oneType: TokenType, oneLit: string)
      returns (t: Token)
      requires Valid() && !AtEof() && (two ==> currCursor + 1 < |src|)
      modifies this`col, this`line, this`currCursor, this`peekCursor, this`currChar
      ensures Valid() && currCursor == old(currCursor) + if two then 1 else 0
      ensures t == if two then Token(pos, twoType, twoLit) else Token(pos, oneType, oneLit)
    {
      if two {
        Advance();
        t := Token(pos, twoType, twoLit);
      } else {
        t := Token(pos, oneType, oneLit);
      }
    }

    /** The text after the quote at the cursor, or an error; ends on the last byte looked at. */
    method ReadString() returns (text: string, errMsg: string)
      requires Valid() && !AtEof()
      modifies this`col, this`line, this`currCursor, this`peekCursor, this`currChar
      ensures Valid()
      ensures var r := ReadFrom(src, old(currCursor), "", "");
        currCursor == r.end && errMsg == r.error && (errMsg == "" ==> text == r.text)
    {
      var sb := "";
      errMsg := "";
      while true
        invariant Valid() && !AtEof() && ReadFrom(src, currCursor, sb, errMsg) == ReadFrom(src, old(currCursor), "", "")
        decreases |src| - currCursor
      {
        if IsNewline(PeekChar()) {
          return "", UNTERMINATED;
        }
        Advance();
        match currChar {
          case '\0' =>
            if AtEof() {
              return "", FirstError(errMsg, UNTERMINATED);
            }
            errMsg := FirstError(errMsg, ILLEGAL_NUL);
          case '"' =>
            return sb, errMsg;
          case '\\' =>
            if IsNewline(PeekChar()) {
              return "", UNTERMINATED;
            }
            Advance();
            if AtEof() {
              return "", UNTERMINATED;
            }
            match Unescaped(currChar) {
              case Some(c) => sb := sb + [c];
              case None => errMsg := FirstError(errMsg, BAD_ESCAPE);
            }
          case _ =>
            sb := sb + [currChar];
        }
      }
    }
  }

  /** Reads a whole script: its tokens, and the position of EOF. */
  method Tokenize(src: string) returns (tokens: seq<Token>, end: Pos)
    ensures tokens == TokensFrom(src, 0, 0)
    ensures end == EndFrom(src, 0, 0)
  {
    hide Next, PosAt;
    var lexer := new Lexer(src);
    tokens := [];
    var t := lexer.NextToken();
    ghost var i, depth := 0, 0;
    while t.typ != EOF
      invariant lexer.Valid() && fresh(lexer) && lexer.src == src
      invariant var r := Next(src, i, depth);
        t == r.token && lexer.currCursor == r.next && lexer.bracketDepth == r.depth
      invariant tokens + TokensFrom(src, i, depth) == TokensFrom(src, 0, 0)
        && EndFrom(src, i, depth) == EndFrom(src, 0, 0)
      decreases |src| + 1 - i
    {
      tokens := tokens + [t];
      i, depth := lexer.currCursor, lexer.bracketDepth;
      t := lexer.NextToken();
    }
    end := t.pos;
    assert tokens + [] == tokens;
  }
}
