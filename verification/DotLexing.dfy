/** The DOT lexer: src/parser/dot_lexer.cpp. */
module DotLexing {
  import opened Text
  import opened Outcomes
  import opened EdgeSelection
  import opened GraphBuilding

  datatype TokenType =
    | DIGRAPH | GRAPH | SUBGRAPH | STRICT | NODE | EDGE
    | LBRACE | RBRACE | LBRACKET | RBRACKET | SEMICOLON | COMMA | EQUALS | ARROW
    | IDENTIFIER | QUOTED_STRING | HTML_STRING | NUMBER
    | END_OF_FILE | ERROR

  datatype Token = Token(kind: TokenType, value: string, line: int, column: int)

  const MAX_IDENTIFIER_LENGTH := 1024
  const MAX_STRING_LENGTH := 1048576

  // ---- what is read from a given point of the source --------------------------------------

  /** A token read from some text: `left` characters of the text remain after it. */
  datatype Scan = Scan(kind: TokenType, value: string, left: nat)

  /** The rest of the text from the end of the line on. */
  function AfterLine(s: string): (r: string)
    ensures |r| <= |s|
  {
    if s == "" || s[0] == '\n' then s else AfterLine(s[1..])
  }

  /** The rest of the text after the end of a block comment. */
  function AfterBlock(s: string): (r: string)
    ensures |r| <= |s|
  {
    if s == "" then s
    else if s[0] == '*' && |s| > 1 && s[1] == '/' then s[2..]
    else AfterBlock(s[1..])
  }

  /** The rest of the text after a comment that starts it, or the text itself. */
  function AfterComment(s: string): (r: string)
    ensures |r| <= |s|
    ensures r != s ==> |r| < |s|
  {
    if s != "" && s[0] == '/' && |s| > 1 && s[1] == '/' then AfterLine(s[2..])
    else if s != "" && s[0] == '/' && |s| > 1 && s[1] == '*' then AfterBlock(s[2..])
    else if s != "" && s[0] == '#' then AfterLine(s[1..])
    else s
  }

  /** The rest of the text after whitespace and comments. */
  function AfterBlank(s: string): (r: string)
    ensures |r| <= |s|
    decreases |s|
  {
    if s == "" then s
    else if IsSpace(s[0]) then AfterBlank(s[1..])
    else
      var comment := AfterComment(s);
      if comment == s then s else AfterBlank(comment)
  }

  predicate IsWord(c: char)
  {
    IsAlnum(c) || c == '_'
  }

  function KeywordType(word: string): TokenType
  {
    var lower := Lower(word);
    if lower == "digraph" then DIGRAPH
    else if lower == "graph" then GRAPH
    else if lower == "subgraph" then SUBGRAPH
    else if lower == "strict" then STRICT
    else if lower == "node" then NODE
    else if lower == "edge" then EDGE
    else IDENTIFIER
  }

  function Word(s: string, acc: string): (r: Scan)
    ensures r.left <= |s| && (acc == "" && s != "" && IsWord(s[0]) ==> r.left < |s|)
    decreases |s|
  {
    if s != "" && IsWord(s[0]) then
      if |acc| >= MAX_IDENTIFIER_LENGTH then Scan(ERROR, "identifier too long", |s|)
      else Word(s[1..], acc + [s[0]])
    else Scan(KeywordType(acc), acc, |s|)
  }

  /** What a backslash and the given character stand for. */
  function Unescaped(c: char): string
  {
    if c == '"' then "\""
    else if c == '\'' then "'"
    else if c == '\\' then "\\"
    else if c == 'n' then "\n"
    else if c == 't' then "\t"
    else ['\\', c]
  }

  /** The rest of a quoted string after its opening quote. */
  function Quoted(s: string, quote: char, acc: string): (r: Scan)
    ensures r.left <= |s|
    decreases |s|
  {
    if s == "" then Scan(ERROR, "unterminated string", 0)
    else if s[0] == '\\' then
      if |s| == 1 then Scan(ERROR, "unterminated string", 0)
      else
        var acc' := acc + Unescaped(s[1]);
        if |acc'| > MAX_STRING_LENGTH then Scan(ERROR, "string too long", |s| - 2) else Quoted(s[2..], quote, acc')
    else if s[0] == quote then Scan(QUOTED_STRING, acc, |s| - 1)
    else if |acc| + 1 > MAX_STRING_LENGTH then Scan(ERROR, "string too long", |s| - 1)
    else Quoted(s[1..], quote, acc + [s[0]])
  }

  /** The rest of an HTML string inside `depth` open angle brackets. */
  function Html(s: string, depth: nat, acc: string): (r: Scan)
    ensures r.left <= |s|
    decreases |s|
  {
    if depth == 0 then Scan(HTML_STRING, acc, |s|)
    else if s == "" then Scan(ERROR, "unterminated HTML string", 0)
    else
      var depth' := if s[0] == '<' then depth + 1 else if s[0] == '>' then depth - 1 else depth;
      var acc' := if depth' == 0 then acc else acc + [s[0]];
      if |acc'| > MAX_STRING_LENGTH then Scan(ERROR, "HTML string too long", |s| - 1) else Html(s[1..], depth', acc')
  }

  /** Characters taken so far, and the text after them. */
  datatype Taken = Taken(value: string, rest: string)

  function Digits(t: Taken): (r: Taken)
    ensures |r.rest| <= |t.rest|
    ensures t.rest != "" && IsDigit(t.rest[0]) ==> |r.rest| < |t.rest|
    decreases |t.rest|
  {
    if t.rest != "" && IsDigit(t.rest[0]) then Digits(OneMore(t)) else t
  }

  function OneMore(t: Taken): Taken
    requires t.rest != ""
  {
    Taken(t.value + [t.rest[0]], t.rest[1..])
  }

  function OneMoreIf(t: Taken, c: char): (r: Taken)
    ensures |r.rest| <= |t.rest|
  {
    if t.rest != "" && t.rest[0] == c then OneMore(t) else t
  }

  /** A sign, digits, and a point with more digits. */
  function Number(s: string): (r: Taken)
    ensures |r.rest| <= |s|
    ensures StartsNumber(s) ==> |r.rest| < |s|
  {
    var whole := Digits(OneMoreIf(Taken("", s), '-'));
    if whole.rest != "" && whole.rest[0] == '.' then Digits(OneMore(whole)) else whole
  }

  function SymbolType(c: char): Option<TokenType>
  {
    match c
    case '{' => Some(LBRACE)
    case '}' => Some(RBRACE)
    case '[' => Some(LBRACKET)
    case ']' => Some(RBRACKET)
    case ';' => Some(SEMICOLON)
    case ',' => Some(COMMA)
    case '=' => Some(EQUALS)
    case _ => None
  }

  predicate StartsNumber(s: string)
  {
    s != "" && (IsDigit(s[0]) || ((s[0] == '-' || s[0] == '.') && |s| > 1 && IsDigit(s[1])))
  }

  /** The token at the front of a text that does not start with a blank. */
  function Lexeme(s: string): (r: Scan)
    requires s != ""
    ensures r.left < |s|
  {
    var c := s[0];
    if SymbolType(c).Some? then Scan(SymbolType(c).value, [c], |s| - 1)
    else if c == '-' && |s| > 1 && s[1] == '>' then Scan(ARROW, "->", |s| - 2)
    else if c == '"' || c == '\'' then Quoted(s[1..], c, "")
    else if c == '<' then Html(s[1..], 1, "")
    else if StartsNumber(s) then Scan(NUMBER, Number(s).value, |Number(s).rest|)
    else if IsAlnum(c) || c == '_' then Word(s, "")
    else Scan(ERROR, [c], |s| - 1)
  }

  /** The next token of a text, blanks skipped. Only the end-of-file token reads nothing. */
  function Lex(s: string): (r: Scan)
    ensures r.left <= |s|
    ensures r.kind != END_OF_FILE ==> r.left < |s|
    ensures r.kind == END_OF_FILE ==> r == Scan(END_OF_FILE, "", 0)
  {
    var t := AfterBlank(s);
    if t == "" then Scan(END_OF_FILE, "", 0)
    else NeverEof(t); Lexeme(t)
  }

  lemma NeverEof(s: string)
    requires s != ""
    ensures Lexeme(s).kind != END_OF_FILE
  {
    WordNotEof(s, "");
    if s[0] == '"' || s[0] == '\'' { QuotedNotEof(s[1..], s[0], ""); }
    HtmlNotEof(s[1..], 1, "");
  }

  lemma {:induction false} WordNotEof(s: string, acc: string)
    ensures Word(s, acc).kind != END_OF_FILE
    decreases |s|
  {
    if s != "" { WordNotEof(s[1..], acc + [s[0]]); }
  }

  lemma {:induction false} QuotedNotEof(s: string, quote: char, acc: string)
    ensures Quoted(s, quote, acc).kind != END_OF_FILE
    decreases |s|
  {
    if s != "" {
      if s[0] != '\\' {
        QuotedNotEof(s[1..], quote, acc + [s[0]]);
      } else if |s| > 1 {
        QuotedNotEof(s[2..], quote, acc + Unescaped(s[1]));
      }
    }
  }

  lemma {:induction false} HtmlNotEof(s: string, depth: nat, acc: string)
    ensures Html(s, depth, acc).kind != END_OF_FILE
    decreases |s|
  {
    if s != "" && depth > 0 {
      var depth' := if s[0] == '<' then depth + 1 else if s[0] == '>' then depth - 1 else depth;
      HtmlNotEof(s[1..], depth', if depth' == 0 then acc else acc + [s[0]]);
    }
  }

  // ---- positions -------------------------------------------------------------------------

  /** One more than the number of newlines before position `p`. */
  function LineAt(source: string, p: nat): int
    requires p <= |source|
  {
    if p == 0 then 1 else LineAt(source, p - 1) + if source[p - 1] == '\n' then 1 else 0
  }

  /** One more than the number of characters since the last newline before `p`. */
  function ColumnAt(source: string, p: nat): int
    requires p <= |source|
  {
    if p == 0 || source[p - 1] == '\n' then 1 else ColumnAt(source, p - 1) + 1
  }

  function StartAt(source: string, p: nat): nat
    requires p <= |source|
  {
    |source| - |AfterBlank(source[p..])|
  }

  function EndAt(source: string, p: nat): (r: nat)
    requires p <= |source|
    ensures p <= r <= |source|
    ensures Lex(source[p..]).kind != END_OF_FILE ==> p < r
  {
    |source| - Lex(source[p..]).left
  }

  /** The token read from position `p`, with the line and column where it starts. */
  function TokenAt(source: string, p: nat): Token
    requires p <= |source|
  {
    var scan, start := Lex(source[p..]), StartAt(source, p);
    Token(scan.kind, scan.value, LineAt(source, start), ColumnAt(source, start))
  }

  // ---- the lexer object --------------------------------------------------------------------

  class DotLexer {
    const source: string
    var pos: nat
    var line: int
    var col: int
    var hasPeeked: bool
    var peeked: Token
    ghost var base: nat             // where the next token is read from, peeked or not

    /** line and col match the newlines consumed; a peeked token is the one at `base`. */
    ghost predicate Valid()
      reads this
    {
      && base <= |source| && pos <= |source|
      && line == LineAt(source, pos) && col == ColumnAt(source, pos)
      && (if hasPeeked then peeked == TokenAt(source, base) && pos == EndAt(source, base) else pos == base)
    }

    /** The cursor part of Valid, true while a token is being read. */
    ghost predicate Tracking()
      reads this
    {
      pos <= |source| && line == LineAt(source, pos) && col == ColumnAt(source, pos)
    }

    constructor (source: string)
      ensures this.source == source && base == 0 && !hasPeeked && Valid()
    {
      this.source := source;
      pos, line, col := 0, 1, 1;
      hasPeeked, peeked := false, Token(END_OF_FILE, "", 0, 0);
      base := 0;
    }

    method Advance()
      requires Tracking() && pos < |source|
      modifies this`pos, this`line, this`col
      ensures Tracking() && pos == old(pos) + 1 && source[old(pos)..][1..] == source[pos..]
    {
      if source[pos] == '\n' {
        line, col := line + 1, 1;
      } else {
        col := col + 1;
      }
      pos := pos + 1;
    }

    method SkipLine()
      requires Tracking()
      modifies this`pos, this`line, this`col
      ensures Tracking() && source[pos..] == AfterLine(old(source[pos..]))
    {
      while pos < |source| && source[pos] != '\n'
        invariant Tracking() && AfterLine(source[pos..]) == AfterLine(old(source[pos..]))
      {
        Advance();
      }
    }

    method SkipBlock()
      requires Tracking()
      modifies this`pos, this`line, this`col
      ensures Tracking() && source[pos..] == AfterBlock(old(source[pos..]))
    {
      while pos < |source|
        invariant Tracking() && AfterBlock(source[pos..]) == AfterBlock(old(source[pos..]))
      {
        if source[pos] == '*' && pos + 1 < |source| && source[pos + 1] == '/' {
          assert AfterBlock(source[pos..]) == source[pos..][2..];
          Advance();
          Advance();
          return;
        }
        Advance();
      }
    }

    method SkipWhitespaceAndComments()
      requires Tracking()
      modifies this`pos, this`line, this`col
      ensures Tracking() && source[pos..] == AfterBlank(old(source[pos..]))
    {
      while pos < |source|
        invariant Tracking() && AfterBlank(source[pos..]) == AfterBlank(old(source[pos..]))
      {
        ghost var s := source[pos..];
        var c := source[pos];
        if IsSpace(c) {
          Advance();
        } else if c == '/' && pos + 1 < |source| && source[pos + 1] == '/' {
          assert AfterComment(s) == AfterLine(s[2..]);
          Advance();
          Advance();
          SkipLine();
        } else if c == '/' && pos + 1 < |source| && source[pos + 1] == '*' {
          assert AfterComment(s) == AfterBlock(s[2..]);
          Advance();
          Advance();
          SkipBlock();
        } else if c == '#' {
          assert AfterComment(s) == AfterLine(s[1..]);
          SkipLine();
        } else {
          assert AfterComment(s) == s;
          return;
        }
      }
    }

    /** What reading `scan` from the current position leaves behind. */
    twostate predicate Read(scan: Scan, t: Token)
      reads this
    {
      && Tracking() && scan.left <= |source| && pos == |source| - scan.left
      && t == Token(scan.kind, scan.value, old(line), old(col))
    }

    method ReadIdentifierOrKeyword() returns (t: Token)
      requires Tracking() && pos < |source|
      modifies this`pos, this`line, this`col
      ensures Read(Word(old(source[pos..]), ""), t)
    {
      var startLine, startCol := line, col;
      var value := "";
      while pos < |source| && IsWord(source[pos])
        invariant Tracking() && Word(source[pos..], value) == Word(old(source[pos..]), "")
      {
        if |value| >= MAX_IDENTIFIER_LENGTH {
          return Token(ERROR, "identifier too long", startLine, startCol);
        }
        value := value + [source[pos]];
        Advance();
      }
      t := Token(KeywordType(value), value, startLine, startCol);
    }

    method ReadQuotedString() returns (t: Token)
      requires Tracking() && pos < |source|
      modifies this`pos, this`line, this`col
      ensures Read(Quoted(old(source[pos..])[1..], old(source[pos]), ""), t)
    {
      var startLine, startCol := line, col;
      var quote := source[pos];
      Advance();
      ghost var from := source[pos..];
      var value := "";
      while pos < |source|
        invariant Tracking() && Quoted(source[pos..], quote, value) == Quoted(from, quote, "")
      {
        var c := source[pos];
        if c == '\\' {
          Advance();
          if pos >= |source| {
            return Token(ERROR, "unterminated string", startLine, startCol);
          }
          value := value + Unescaped(source[pos]);
          Advance();
          if |value| > MAX_STRING_LENGTH {
            return Token(ERROR, "string too long", startLine, startCol);
          }
        } else if c == quote {
          Advance();
          return Token(QUOTED_STRING, value, startLine, startCol);
        } else {
          value := value + [c];
          Advance();
          if |value| > MAX_STRING_LENGTH {
            return Token(ERROR, "string too long", startLine, startCol);
          }
        }
      }
      t := Token(ERROR, "unterminated string", startLine, startCol);
    }

    method ReadHtmlString() returns (t: Token)
      requires Tracking() && pos < |source|
      modifies this`pos, this`line, this`col
      ensures Read(Html(old(source[pos..])[1..], 1, ""), t)
    {
      var startLine, startCol := line, col;
      Advance();
      ghost var from := source[pos..];
      var value := "";
      var depth: nat := 1;
      while pos < |source| && depth > 0
        invariant Tracking() && Html(source[pos..], depth, value) == Html(from, 1, "")
      {
        var c := source[pos];
        if c == '<' {
          depth := depth + 1;
          value := value + [c];
        } else if c == '>' {
          depth := depth - 1;
          if depth > 0 { value := value + [c]; }
        } else {
          value := value + [c];
        }
        Advance();
        if |value| > MAX_STRING_LENGTH {
          return Token(ERROR, "HTML string too long", startLine, startCol);
        }
      }
      if depth != 0 {
        return Token(ERROR, "unterminated HTML string", startLine, startCol);
      }
      t := Token(HTML_STRING, value, startLine, startCol);
    }

    method ReadDigits(value0: string) returns (value: string)
      requires Tracking()
      modifies this`pos, this`line, this`col
      ensures Tracking() && Taken(value, source[pos..]) == Digits(Taken(value0, old(source[pos..])))
    {
      value := value0;
      while pos < |source| && IsDigit(source[pos])
        invariant Tracking() && Digits(Taken(value, source[pos..])) == Digits(Taken(value0, old(source[pos..])))
      {
        value := value + [source[pos]];
        Advance();
      }
    }

    method ReadNumber() returns (t: Token)
      requires Tracking() && pos < |source|
      modifies this`pos, this`line, this`col
      ensures var n := Number(old(source[pos..])); Read(Scan(NUMBER, n.value, |n.rest|), t)
    {
      var startLine, startCol := line, col;
      var value := "";
      if source[pos] == '-' {
        value := value + [source[pos]];
        Advance();
      }
      value := ReadDigits(value);
      if pos < |source| && source[pos] == '.' {
        value := value + [source[pos]];
        Advance();
        value := ReadDigits(value);
      }
      t := Token(NUMBER, value, startLine, startCol);
    }

    /** Read one token from the cursor. */
    method Scanned() returns (t: Token)
      requires Tracking()
      modifies this`pos, this`line, this`col
      ensures Tracking() && t == TokenAt(source, old(pos)) && pos == EndAt(source, old(pos))
    {
      ghost var p := pos;
      SkipWhitespaceAndComments();
      if pos == |source| {
        return Token(END_OF_FILE, "", line, col);
      }
      ghost var s := source[pos..];
      var c := source[pos];
      var startLine, startCol := line, col;
      assert s == AfterBlank(source[p..]) && Lex(source[p..]) == Lexeme(s);
      assert StartAt(source, p) == pos;
      var symbol := SymbolType(c);
      if symbol.Some? {
        Advance();
        t := Token(symbol.value, [c], startLine, startCol);
      } else if c == '-' && pos + 1 < |source| && source[pos + 1] == '>' {
        Advance();
        Advance();
        t := Token(ARROW, "->", startLine, startCol);
      } else if c == '"' || c == '\'' {
        t := ReadQuotedString();
      } else if c == '<' {
        t := ReadHtmlString();
      } else if StartsNumber(source[pos..]) {
        t := ReadNumber();
      } else if IsAlnum(c) || c == '_' {
        t := ReadIdentifierOrKeyword();
      } else {
        Advance();
        t := Token(ERROR, [c], startLine, startCol);
      }
    }

    /** The next token; each one is read from where the last one ended, whether or not it
        was peeked at first. */
    method NextToken() returns (t: Token)
      requires Valid()
      modifies this
      ensures Valid() && !hasPeeked
      ensures t == TokenAt(source, old(base)) && base == EndAt(source, old(base))
      ensures t.kind != END_OF_FILE ==> old(base) < base
    {
      if hasPeeked {
        hasPeeked := false;
        t := peeked;
      } else {
        t := Scanned();
      }
      base := pos;
    }

    /** Peeking, any number of times, shows the next token and leaves it next. */
    method Peek() returns (t: Token)
      requires Valid()
      modifies this
      ensures Valid() && base == old(base)
      ensures t == TokenAt(source, base)
    {
      if !hasPeeked {
        peeked := Scanned();
        hasPeeked := true;
      }
      t := peeked;
    }
  }
}
