/** Every way of spelling a token and of leaving room before it, and the proof that
    src/parser/dot_lexer.cpp reads each as the token it stands for. */
module DotSpellings {
  import opened DotAst
  import opened EdgeConditions
  import opened DotLexing
  import opened DotParsing
  import opened DotPrinting
  import opened DotSources

  // ---- room between tokens --------------------------------------------------------------------

  /** A blank, a comment to the end of a line, or one between its marks. */
  datatype Gap = Room(c: char) | LineComment(mark: string, text: string) | BlockComment(text: string)

  predicate GapRight(g: Gap)
  {
    match g
    case Room(c) => c == ' ' || '\t' <= c <= '\r'
    case LineComment(mark, text) => (mark == "//" || mark == "#") && '\n' !in text
    case BlockComment(text) => forall i :: 0 <= i < |text| ==> !Closes(text + "*/", i)
  }

  predicate Closes(s: string, i: int)
  {
    0 <= i && i + 1 < |s| && s[i] == '*' && s[i + 1] == '/'
  }

  function GapText(g: Gap): string
  {
    match g
    case Room(c) => [c]
    case LineComment(mark, text) => mark + text + "\n"
    case BlockComment(text) => "/*" + text + "*/"
  }

  function GapsText(gaps: seq<Gap>): string
  {
    if gaps == [] then "" else GapText(gaps[0]) + GapsText(gaps[1..])
  }

  ghost predicate GapsRight(gaps: seq<Gap>)
  {
    forall i :: 0 <= i < |gaps| ==> GapRight(gaps[i])
  }

  /** Neither a blank nor a comment starts here. */
  predicate Solid(s: string)
  {
    s == "" || !(s[0] == ' ' || '\t' <= s[0] <= '\r' || s[0] == '#'
                 || (s[0] == '/' && |s| > 1 && (s[1] == '/' || s[1] == '*')))
  }

  lemma {:induction false} LineSkipped(text: string, rest: string)
    requires '\n' !in text
    ensures AfterLine(text + ("\n" + rest)) == "\n" + rest
  {
    if text == "" {
      assert text + ("\n" + rest) == "\n" + rest;
    } else {
      assert (text + ("\n" + rest))[1..] == text[1..] + ("\n" + rest);
      LineSkipped(text[1..], rest);
    }
  }

  lemma {:induction false} BlockSkipped(text: string, rest: string)
    requires forall i :: 0 <= i < |text| ==> !Closes(text + "*/", i)
    ensures AfterBlock(text + ("*/" + rest)) == rest
  {
    var s := text + ("*/" + rest);
    if text == "" {
      assert s == "*/" + rest && s[2..] == rest;
    } else {
      assert !Closes(text + "*/", 0);
      assert (text + "*/")[1] == s[1];
      assert s[1..] == text[1..] + ("*/" + rest);
      forall i | 0 <= i < |text[1..]| ensures !Closes(text[1..] + "*/", i) {
        assert !Closes(text + "*/", i + 1);
        assert (text + "*/")[1..] == text[1..] + "*/";
      }
      BlockSkipped(text[1..], rest);
    }
  }

  lemma GapSkipped(g: Gap, rest: string)
    requires GapRight(g)
    ensures AfterBlank(GapText(g) + rest) == AfterBlank(rest)
  {
    var s := GapText(g) + rest;
    match g
    case Room(c) =>
      assert s[1..] == rest;
    case LineComment(mark, text) => LineCommentSkipped(mark, text, rest);
    case BlockComment(text) => BlockCommentSkipped(text, rest);
  }

  lemma LineCommentSkipped(mark: string, text: string, rest: string)
    requires (mark == "//" || mark == "#") && '\n' !in text
    ensures AfterBlank(mark + text + "\n" + rest) == AfterBlank(rest)
  {
    hide AfterLine;
    var s := mark + text + "\n" + rest;
    LineSkipped(text, rest);
    assert s[|mark|..] == text + ("\n" + rest);
    assert AfterComment(s) == "\n" + rest;
    assert ("\n" + rest)[1..] == rest;
    assert |s| != |"\n" + rest|;
  }

  lemma BlockCommentSkipped(text: string, rest: string)
    requires forall i :: 0 <= i < |text| ==> !Closes(text + "*/", i)
    ensures AfterBlank("/*" + text + "*/" + rest) == AfterBlank(rest)
  {
    hide AfterBlock;
    var s := "/*" + text + "*/" + rest;
    BlockSkipped(text, rest);
    assert s[2..] == text + ("*/" + rest);
    assert s[0] == '/' && s[1] == '*' && AfterComment(s) == rest && |s| != |rest|;
  }

  /** A comment that never ends takes all of what is left. */
  lemma OpenCommentTakesAll(mark: string, text: string)
    requires if mark == "/*" then forall i :: !Closes(text, i) else (mark == "//" || mark == "#") && '\n' !in text
    ensures AfterBlank(mark + text) == ""
  {
    hide AfterLine, AfterBlock;
    assert (mark + text)[|mark|..] == text;
    if mark == "/*" { BlockStaysOpen(text); } else { LineStaysOpen(text); }
    assert AfterComment(mark + text) == "";
  }

  lemma {:induction false} LineStaysOpen(text: string)
    requires '\n' !in text
    ensures AfterLine(text) == ""
  {
    if text != "" { LineStaysOpen(text[1..]); }
  }

  lemma {:induction false} BlockStaysOpen(text: string)
    requires forall i :: !Closes(text, i)
    ensures AfterBlock(text) == ""
  {
    if text != "" {
      assert !Closes(text, 0);
      forall i ensures !Closes(text[1..], i) { assert !Closes(text, i + 1); }
      BlockStaysOpen(text[1..]);
    }
  }

  lemma {:induction false} GapsSkipped(gaps: seq<Gap>, rest: string)
    requires GapsRight(gaps) && Solid(rest)
    ensures AfterBlank(GapsText(gaps) + rest) == rest
  {
    hide AfterBlank, GapText, GapRight;
    if gaps == [] {
      assert GapsText(gaps) + rest == rest;
      SolidStays(rest);
    } else {
      assert GapsText(gaps) + rest == GapText(gaps[0]) + (GapsText(gaps[1..]) + rest);
      GapSkipped(gaps[0], GapsText(gaps[1..]) + rest);
      GapsSkipped(gaps[1..], rest);
    }
  }

  lemma SolidStays(rest: string)
    requires Solid(rest)
    ensures AfterBlank(rest) == rest
  {
  }

  // ---- words -------------------------------------------------------------------------------------

  predicate WordChar(c: char)
  {
    'a' <= c <= 'z' || 'A' <= c <= 'Z' || '0' <= c <= '9' || c == '_'
  }

  /** The keywords, in any case of letters; every other word is an identifier. */
  predicate KeywordFor(text: string, kind: TokenType)
  {
    || (SameLetters(text, "digraph") && kind.DIGRAPH?)
    || (SameLetters(text, "graph") && kind.GRAPH?)
    || (SameLetters(text, "subgraph") && kind.SUBGRAPH?)
    || (SameLetters(text, "strict") && kind.STRICT?)
    || (SameLetters(text, "node") && kind.NODE?)
    || (SameLetters(text, "edge") && kind.EDGE?)
  }

  ghost predicate WordSpells(text: string, kind: TokenType)
  {
    && text != "" && |text| <= 1024 && (forall i :: 0 <= i < |text| ==> WordChar(text[i])) && !('0' <= text[0] <= '9')
    && if exists k :: KeywordFor(text, k) then KeywordFor(text, kind) else kind.IDENTIFIER?
  }

  lemma KindOfWord(text: string)
    ensures if exists k :: KeywordFor(text, k) then KeywordFor(text, KeywordType(text))
            else KeywordType(text) == IDENTIFIER
  {
    hide SameLetters;
    LowerIgnoresCase(text, "digraph");
    LowerIgnoresCase(text, "graph");
    LowerIgnoresCase(text, "subgraph");
    LowerIgnoresCase(text, "strict");
    LowerIgnoresCase(text, "node");
    LowerIgnoresCase(text, "edge");
    LowerIsItself("digraph");
    LowerIsItself("graph");
    LowerIsItself("subgraph");
    LowerIsItself("strict");
    LowerIsItself("node");
    LowerIsItself("edge");
    assert KeywordType(text) != IDENTIFIER ==> KeywordFor(text, KeywordType(text));
  }

  lemma OneKind(text: string, one: TokenType, two: TokenType)
    requires KeywordFor(text, one) && KeywordFor(text, two)
    ensures one == two
  {
    assert |"digraph"| == 7 && |"graph"| == 5 && |"subgraph"| == 8 && |"strict"| == 6 && |"node"| == |"edge"| == 4;
    assert "node"[0] == 'n' && "edge"[0] == 'e';
  }

  lemma {:induction false} WordRead(w: string, acc: string, rest: string)
    requires forall i :: 0 <= i < |w| ==> WordChar(w[i])
    requires (rest == "" || !WordChar(rest[0])) && |acc| + |w| <= 1024
    ensures Word(w + rest, acc) == Scan(KeywordType(acc + w), acc + w, |rest|)
  {
    hide KeywordType;
    if w == "" {
      assert w + rest == rest && acc + w == acc;
    } else {
      assert (w + rest)[1..] == w[1..] + rest;
      assert acc + [w[0]] + w[1..] == acc + w;
      WordRead(w[1..], acc + [w[0]], rest);
    }
  }

  // ---- quoted strings ---------------------------------------------------------------------------

  /** A character as it is, or behind a backslash. */
  datatype Part = Raw(c: char) | Escape(c: char)

  function PartText(p: Part): string { if p.Raw? then [p.c] else ['\\', p.c] }

  /** `\n` and `\t` stand for a line break and a tab, a backslash before a quote or another
      backslash for that alone, and any other pair for itself. */
  function PartValue(p: Part): string
  {
    match p
    case Raw(c) => [c]
    case Escape(c) =>
      if c == 'n' then ['\n']
      else if c == 't' then ['\t']
      else if c == '"' || c == '\'' || c == '\\' then [c]
      else ['\\', c]
  }

  function PartsText(parts: seq<Part>): string
  {
    if parts == [] then "" else PartText(parts[0]) + PartsText(parts[1..])
  }

  function PartsValue(parts: seq<Part>): string
  {
    if parts == [] then "" else PartValue(parts[0]) + PartsValue(parts[1..])
  }

  ghost predicate PartsRight(parts: seq<Part>, quote: char)
  {
    forall i :: 0 <= i < |parts| ==> parts[i].Raw? ==> parts[i].c != quote && parts[i].c != '\\'
  }

  ghost predicate QuotedSpells(text: string, value: string)
  {
    exists quote, parts ::
      && (quote == '"' || quote == '\'') && PartsRight(parts, quote)
      && text == [quote] + PartsText(parts) + [quote] && value == PartsValue(parts) && |value| <= 1048576
  }

  lemma PartIsUnescaped(c: char)
    ensures PartValue(Escape(c)) == Unescaped(c)
  {
  }

  lemma {:induction false} PartsRead(parts: seq<Part>, quote: char, acc: string, rest: string)
    requires PartsRight(parts, quote) && (quote == '"' || quote == '\'') && |acc| + |PartsValue(parts)| <= 1048576
    ensures Quoted(PartsText(parts) + [quote] + rest, quote, acc)
            == Scan(QUOTED_STRING, acc + PartsValue(parts), |rest|)
  {
    hide Unescaped;
    var s := PartsText(parts) + [quote] + rest;
    if parts == [] {
      assert s == [quote] + rest && acc + "" == acc;
    } else {
      var more := PartsText(parts[1..]) + [quote] + rest;
      assert s == PartText(parts[0]) + more;
      PartsRead(parts[1..], quote, acc + PartValue(parts[0]), rest);
      assert acc + PartValue(parts[0]) + PartsValue(parts[1..]) == acc + PartsValue(parts);
      if parts[0].Raw? {
        assert s[1..] == more;
      } else {
        PartIsUnescaped(parts[0].c);
        assert s[0] == '\\' && s[1] == parts[0].c && s[2..] == more;
      }
    }
  }

  // ---- HTML strings -------------------------------------------------------------------------------

  /** How many brackets the text leaves open. */
  function Nesting(s: string): int
  {
    if s == "" then 0
    else Nesting(s[..|s| - 1]) + if s[|s| - 1] == '<' then 1 else if s[|s| - 1] == '>' then -1 else 0
  }

  /** Every bracket inside is closed inside. */
  ghost predicate HtmlSpells(text: string, value: string)
  {
    && text == "<" + value + ">" && |value| <= 1048576 && Nesting(value) == 0
    && forall i :: 0 <= i <= |value| ==> Nesting(value[..i]) >= 0
  }

  lemma {:induction false} HtmlRead(value: string, k: nat, rest: string)
    requires k <= |value| <= 1048576 && Nesting(value) == 0
    requires forall i :: 0 <= i <= |value| ==> Nesting(value[..i]) >= 0
    ensures Html(value[k..] + (">" + rest), Nesting(value[..k]) + 1, value[..k]) == Scan(HTML_STRING, value, |rest|)
    decreases |value| - k
  {
    var s := value[k..] + (">" + rest);
    if k == |value| {
      assert s == ">" + rest && s[1..] == rest && value[..k] == value;
    } else {
      assert s[0] == value[k] && s[1..] == value[k + 1..] + (">" + rest);
      assert value[..k + 1] == value[..k] + [value[k]] && value[..k + 1][..k] == value[..k];
      HtmlRead(value, k + 1, rest);
    }
  }

  // ---- numbers --------------------------------------------------------------------------------------

  predicate AllDigitChars(s: string)
  {
    forall i :: 0 <= i < |s| ==> '0' <= s[i] <= '9'
  }

  /** Digits with a sign or without, and with a point and more digits or without; the first
      character, or the one behind a sign or a point, is a digit. */
  ghost predicate NumberSpells(text: string)
  {
    exists sign, whole, point, more ::
      && (sign == "" || sign == "-") && AllDigitChars(whole) && (point == "" || point == ".") && AllDigitChars(more)
      && (point == "" ==> more == "") && (whole == "" ==> sign == "" && point == "." && more != "")
      && text == sign + whole + point + more
  }

  /** The number does not go on behind it. */
  predicate EndsNumber(text: string, rest: string)
  {
    rest == "" || !('0' <= rest[0] <= '9' || (rest[0] == '.' && '.' !in text))
  }

  lemma {:induction false} DigitsTaken(value: string, digits: string, rest: string)
    requires AllDigitChars(digits) && (rest == "" || !('0' <= rest[0] <= '9'))
    ensures DotLexing.Digits(Taken(value, digits + rest)) == Taken(value + digits, rest)
    decreases |digits|
  {
    if digits == "" {
      assert digits + rest == rest && value + digits == value;
    } else {
      assert (digits + rest)[1..] == digits[1..] + rest;
      assert value + [digits[0]] + digits[1..] == value + digits;
      DigitsTaken(value + [digits[0]], digits[1..], rest);
    }
  }

  lemma NumberRead(sign: string, whole: string, point: string, more: string, rest: string)
    requires (sign == "" || sign == "-") && AllDigitChars(whole) && (point == "" || point == ".") && AllDigitChars(more)
    requires (point == "" ==> more == "") && (whole == "" ==> sign == "" && point == "." && more != "")
    requires EndsNumber(sign + whole + point + more, rest)
    ensures var text := sign + whole + point + more;
            Number(text + rest) == Taken(text, rest) && StartsNumber(text + rest)
  {
    hide DotLexing.Digits;
    var text := sign + whole + point + more;
    var behind := point + (more + rest);
    assert text + rest == sign + (whole + behind);
    SignTaken(sign, whole, behind);
    NoPointInside(sign, whole, more);
    assert point == "" ==> behind == rest && text == sign + whole;
    DigitsTaken(sign, whole, behind);
    if point == "." {
      assert OneMore(Taken(sign + whole, behind)) == Taken(sign + whole + ".", more + rest);
      DigitsTaken(sign + whole + ".", more, rest);
    }
    NumberStarts(sign, whole, point, more, rest);
  }

  lemma NoPointInside(sign: string, whole: string, more: string)
    requires (sign == "" || sign == "-") && AllDigitChars(whole)
    ensures '.' !in sign + whole
  {
  }

  lemma SignTaken(sign: string, whole: string, behind: string)
    requires (sign == "" || sign == "-") && AllDigitChars(whole)
    requires whole == "" ==> sign == "" && behind != "" && behind[0] != '-'
    ensures OneMoreIf(Taken("", sign + (whole + behind)), '-') == Taken(sign, whole + behind)
  {
    var s := sign + (whole + behind);
    if sign == "-" {
      assert s[0] == '-' && s[1..] == whole + behind;
    } else {
      assert s == whole + behind;
    }
  }

  lemma NumberStarts(sign: string, whole: string, point: string, more: string, rest: string)
    requires (sign == "" || sign == "-") && AllDigitChars(whole) && (point == "" || point == ".") && AllDigitChars(more)
    requires whole == "" ==> sign == "" && point == "." && more != ""
    ensures StartsNumber(sign + whole + point + more + rest)
  {
    var s := sign + whole + point + more + rest;
    if whole != "" {
      assert s[|sign|] == whole[0];
    } else {
      assert s[0] == '.' && s[1] == more[0];
    }
  }

  // ---- tokens ---------------------------------------------------------------------------------------------

  /** The text is a token of this kind with this value. */
  ghost predicate Spells(text: string, kind: TokenType, value: string)
  {
    match kind
    case LBRACE => text == value == "{"
    case RBRACE => text == value == "}"
    case LBRACKET => text == value == "["
    case RBRACKET => text == value == "]"
    case SEMICOLON => text == value == ";"
    case COMMA => text == value == ","
    case EQUALS => text == value == "="
    case ARROW => text == value == "->"
    case QUOTED_STRING => QuotedSpells(text, value)
    case HTML_STRING => HtmlSpells(text, value)
    case NUMBER => text == value && NumberSpells(text)
    case END_OF_FILE => false
    case ERROR => false
    case _ => text == value && WordSpells(text, kind)
  }

  /** What comes behind does not make the token longer. */
  predicate EndsAt(text: string, kind: TokenType, rest: string)
  {
    match kind
    case QUOTED_STRING => true
    case HTML_STRING => true
    case NUMBER => EndsNumber(text, rest)
    case _ => text != "" && WordChar(text[0]) ==> rest == "" || !WordChar(rest[0])
  }

  lemma MarkLexed(text: string, kind: TokenType, rest: string)
    requires Spells(text, kind, text)
    requires kind.LBRACE? || kind.RBRACE? || kind.LBRACKET? || kind.RBRACKET? || kind.SEMICOLON? || kind.COMMA?
             || kind.EQUALS? || kind.ARROW?
    ensures text != "" && Solid(text + rest) && Lexeme(text + rest) == Scan(kind, text, |rest|)
  {
    assert (text + rest)[0] == text[0];
    if kind.ARROW? { assert (text + rest)[1] == '>'; }
  }

  lemma QuotedLexed(text: string, value: string, rest: string)
    requires QuotedSpells(text, value)
    ensures text != "" && Solid(text + rest) && Lexeme(text + rest) == Scan(QUOTED_STRING, value, |rest|)
  {
    hide Quoted, PartsText, PartsValue;
    var quote, parts :| (quote == '"' || quote == '\'') && PartsRight(parts, quote)
                        && text == [quote] + PartsText(parts) + [quote] && value == PartsValue(parts)
                        && |value| <= 1048576;
    PartsRead(parts, quote, "", rest);
    assert "" + value == value;
    assert (text + rest)[0] == quote && (text + rest)[1..] == PartsText(parts) + [quote] + rest;
  }

  lemma HtmlLexed(text: string, value: string, rest: string)
    requires HtmlSpells(text, value)
    ensures text != "" && Solid(text + rest) && Lexeme(text + rest) == Scan(HTML_STRING, value, |rest|)
  {
    hide Html;
    HtmlRead(value, 0, rest);
    assert value[..0] == "" && value[0..] == value && Nesting("") == 0;
    assert (text + rest)[0] == '<' && (text + rest)[1..] == value + (">" + rest);
  }

  lemma NumberLexed(text: string, rest: string)
    requires NumberSpells(text) && EndsNumber(text, rest)
    ensures text != "" && Solid(text + rest) && Lexeme(text + rest) == Scan(NUMBER, text, |rest|)
  {
    hide Number;
    var sign, whole, point, more :|
      && (sign == "" || sign == "-") && AllDigitChars(whole) && (point == "" || point == ".") && AllDigitChars(more)
      && (point == "" ==> more == "") && (whole == "" ==> sign == "" && point == "." && more != "")
      && text == sign + whole + point + more;
    NumberRead(sign, whole, point, more, rest);
    NumberFront(text, sign, whole, point, more, rest);
  }

  lemma NumberFront(text: string, sign: string, whole: string, point: string, more: string, rest: string)
    requires (sign == "" || sign == "-") && AllDigitChars(whole) && (point == "" || point == ".") && AllDigitChars(more)
    requires (whole == "" ==> sign == "" && point == "." && more != "") && text == sign + whole + point + more
    ensures text != ""
    ensures var c := (text + rest)[0];
            c == '.' || '0' <= c <= '9' || (c == '-' && |text| > 1 && '0' <= (text + rest)[1] <= '9')
  {
    if sign == "-" {
      assert text[0] == '-' && text[1] == whole[0];
    } else if whole != "" {
      assert text[0] == whole[0];
    } else {
      assert text[0] == '.';
    }
  }

  lemma WordLexed(text: string, kind: TokenType, rest: string)
    requires WordSpells(text, kind) && (rest == "" || !WordChar(rest[0]))
    ensures Solid(text + rest) && Lexeme(text + rest) == Scan(kind, text, |rest|)
  {
    hide Word, KeywordType, KeywordFor;
    WordRead(text, "", rest);
    assert "" + text == text;
    KindOfWord(text);
    if k :| KeywordFor(text, k) { OneKind(text, kind, KeywordType(text)); }
    assert (text + rest)[0] == text[0] && WordChar(text[0]);
  }

  /** However it is spelled, a token is read as what it stands for. */
  lemma TokenRead(text: string, kind: TokenType, value: string, rest: string)
    requires Spells(text, kind, value) && EndsAt(text, kind, rest)
    ensures text != "" && Solid(text + rest) && Lexeme(text + rest) == Scan(kind, value, |rest|)
    ensures kind != END_OF_FILE
  {
    hide Lexeme, Solid, QuotedSpells, HtmlSpells, NumberSpells, WordSpells, EndsNumber;
    match kind
    case QUOTED_STRING => QuotedLexed(text, value, rest);
    case HTML_STRING => HtmlLexed(text, value, rest);
    case NUMBER => NumberLexed(text, rest);
    case LBRACE => MarkLexed(text, kind, rest);
    case RBRACE => MarkLexed(text, kind, rest);
    case LBRACKET => MarkLexed(text, kind, rest);
    case RBRACKET => MarkLexed(text, kind, rest);
    case SEMICOLON => MarkLexed(text, kind, rest);
    case COMMA => MarkLexed(text, kind, rest);
    case EQUALS => MarkLexed(text, kind, rest);
    case ARROW => MarkLexed(text, kind, rest);
    case _ =>
      WordHasChar(text, kind);
      WordLexed(text, kind, rest);
  }

  lemma WordHasChar(text: string, kind: TokenType)
    requires WordSpells(text, kind)
    ensures text != "" && WordChar(text[0])
  {
  }

  // ---- whole texts ---------------------------------------------------------------------------------------

  /** A token and the room before it. */
  datatype Piece = Piece(gaps: seq<Gap>, text: string, kind: TokenType, value: string)

  function TextOf(pieces: seq<Piece>, last: seq<Gap>): string
  {
    if pieces == [] then GapsText(last) else GapsText(pieces[0].gaps) + (pieces[0].text + TextOf(pieces[1..], last))
  }

  function TokensOf(pieces: seq<Piece>): Tokens
  {
    if pieces == [] then End else Next(pieces[0].kind, pieces[0].value, TokensOf(pieces[1..]))
  }

  /** Each piece spells its token, and ends before the next. */
  ghost predicate PiecesRight(pieces: seq<Piece>, last: seq<Gap>)
  {
    if pieces == [] then GapsRight(last)
    else
      var p := pieces[0];
      && GapsRight(p.gaps) && Spells(p.text, p.kind, p.value) && EndsAt(p.text, p.kind, TextOf(pieces[1..], last))
      && PiecesRight(pieces[1..], last)
  }

  /** However its tokens are spelled and spaced, a text is read as those tokens. */
  lemma {:induction false} TextRead(pieces: seq<Piece>, last: seq<Gap>)
    requires PiecesRight(pieces, last)
    ensures AllTokens(TextOf(pieces, last)) == TokensOf(pieces)
  {
    hide Lexeme, Spells, EndsAt, AfterBlank, GapsText, GapsRight, Solid;
    var s := TextOf(pieces, last);
    if pieces == [] {
      NothingSolid();
      GapsSkipped(last, "");
      assert GapsText(last) + "" == s;
    } else {
      var p, rest := pieces[0], TextOf(pieces[1..], last);
      TokenRead(p.text, p.kind, p.value, rest);
      GapsSkipped(p.gaps, p.text + rest);
      TextRead(pieces[1..], last);
      assert s[|s| - |rest|..] == rest;
    }
  }

  lemma NothingSolid()
    ensures Solid("")
  {
  }

  /** A text whose tokens are those of a source is parsed as what the source stands for. */
  lemma TextParses(pieces: seq<Piece>, last: seq<Gap>, src: Source)
    requires PiecesRight(pieces, last) && SourceRight(src) && TokensOf(pieces) == SourceTokens(src, End)
    ensures ParseGraph(TokensFrom(TextOf(pieces, last), 0)) == Parsed(Meaning(src), End)
  {
    hide ParseGraph, SourceTokens, PiecesRight, TextOf, TokensOf, SourceRight, Meaning;
    var s := TextOf(pieces, last);
    TextRead(pieces, last);
    TokensFromIsAllTokens(s, 0);
    assert s[0..] == s;
    SourceRead(src, End);
  }

  // ---- what is refused -----------------------------------------------------------------------------------

  /** A word longer than the limit is an error. */
  lemma {:induction false} WordTooLong(w: string, acc: string, rest: string)
    requires (forall i :: 0 <= i < |w| ==> WordChar(w[i])) && |acc| <= 1024 < |acc| + |w|
    ensures Word(w + rest, acc).kind == ERROR
  {
    hide KeywordType;
    assert (w + rest)[0] == w[0] && (w + rest)[1..] == w[1..] + rest;
    if |acc| < 1024 { WordTooLong(w[1..], acc + [w[0]], rest); }
  }

  /** So is a quoted string longer than the limit, ... */
  lemma {:induction false} QuotedTooLong(parts: seq<Part>, quote: char, acc: string, rest: string)
    requires PartsRight(parts, quote) && |acc| <= 1048576 < |acc| + |PartsValue(parts)|
             && (quote == '"' || quote == '\'')
    ensures Quoted(PartsText(parts) + rest, quote, acc).kind == ERROR
  {
    hide Unescaped;
    var s, more := PartsText(parts) + rest, PartsText(parts[1..]) + rest;
    assert s == PartText(parts[0]) + more;
    if parts[0].Raw? {
      assert s[1..] == more;
    } else {
      PartIsUnescaped(parts[0].c);
      assert s[0] == '\\' && s[1] == parts[0].c && s[2..] == more;
    }
    if |acc + PartValue(parts[0])| <= 1048576 { QuotedTooLong(parts[1..], quote, acc + PartValue(parts[0]), rest); }
  }

  /** ... and one that never ends. */
  lemma {:induction false} NeverClosed(parts: seq<Part>, quote: char, acc: string, lone: string)
    requires PartsRight(parts, quote) && (lone == "" || lone == "\\") && (quote == '"' || quote == '\'')
    ensures Quoted(PartsText(parts) + lone, quote, acc).kind == ERROR
  {
    hide Unescaped;
    var s := PartsText(parts) + lone;
    if parts == [] {
      assert s == lone;
    } else {
      var more := PartsText(parts[1..]) + lone;
      assert s == PartText(parts[0]) + more;
      if parts[0].Raw? {
        assert s[1..] == more;
      } else {
        PartIsUnescaped(parts[0].c);
        assert s[0] == '\\' && s[1] == parts[0].c && s[2..] == more;
      }
      NeverClosed(parts[1..], quote, acc + PartValue(parts[0]), lone);
    }
  }
}
