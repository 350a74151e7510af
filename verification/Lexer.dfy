/**
 The lexer.  `Pieces` says how a text falls apart into blanks, comments, lexemes and
 stray characters; the class walks the text once and produces exactly the lexemes and
 problems of those pieces.  Offsets count characters.
*/
module Lexer {
  import opened Wrappers
  import opened Literals
  import opened Reading

  datatype Span = Span(start: nat, end: nat)

  datatype TokenKind =
    | Word(text: string)
    | Number(text: string)
    | String(text: string)
    | LeftBrace | RightBrace | LeftParen | RightParen | Comma | Semicolon
    | End

  datatype Token = Token(kind: TokenKind, span: Span)

  datatype Code = StrayCharacter | UnterminatedString | UnsupportedEscape

  datatype Diagnostic = Diagnostic(code: Code, span: Span)

  // --- Characters -------------------------------------------------------------

  /** The characters with the Unicode property White_Space. */
  predicate IsWhitespace(c: char) {
    var u := c as int;
    || 0x09 <= u <= 0x0D || u == 0x20 || u == 0x85 || u == 0xA0 || u == 0x1680 || 0x2000 <= u <= 0x200A
    || u == 0x2028 || u == 0x2029 || u == 0x202F || u == 0x205F || u == 0x3000
  }

  predicate IsControl(c: char) {
    c as int < 0x20 || 0x7F <= c as int < 0xA0
  }

  predicate IsWordCharacter(c: char) {
    || 'a' <= c <= 'z' || 'A' <= c <= 'Z' || IsDigit(c)
    || c == '_' || c == '+' || c == '-' || c == '.' || c == '/'
    || (c as int >= 0x80 && !IsControl(c) && !IsWhitespace(c))
  }

  function Punctuation(c: char): Option<TokenKind> {
    if c == '{' then Some(LeftBrace)
    else if c == '}' then Some(RightBrace)
    else if c == '(' then Some(LeftParen)
    else if c == ')' then Some(RightParen)
    else if c == ',' then Some(Comma)
    else if c == ';' then Some(Semicolon)
    else None
  }

  predicate CommentStartsAt(text: string, i: nat) {
    i + 1 < |text| && text[i] == '/' && text[i + 1] == '/'
  }

  // --- Atoms ------------------------------------------------------------------

  predicate AtomContinuesAt(text: string, i: nat) {
    i < |text| && IsWordCharacter(text[i]) && !CommentStartsAt(text, i)
  }

  function AtomEnd(text: string, i: nat): (end: nat)
    requires i <= |text|
    ensures i <= end <= |text| && (AtomContinuesAt(text, i) ==> i < end)
    decreases |text| - i
  {
    if AtomContinuesAt(text, i) then AtomEnd(text, i + 1) else i
  }

  /** An atom is as long as it can be. */
  lemma {:induction false} AtomIsMaximal(text: string, i: nat)
    requires i <= |text|
    ensures forall j | i <= j < AtomEnd(text, i) :: AtomContinuesAt(text, j)
    ensures !AtomContinuesAt(text, AtomEnd(text, i))
    decreases |text| - i
  {
    if AtomContinuesAt(text, i) {
      AtomIsMaximal(text, i + 1);
    }
  }

  /** The lexer's own shape check of a number. */
  predicate DecimalIsLexical(value: string) {
    var unsigned := if value != [] && value[0] == '-' then value[1..] else value;
    var point := FindPoint(unsigned);
    var whole := unsigned[..point];
    var fractional := if point < |unsigned| then unsigned[point + 1..] else [];
    && whole != [] && AllAsciiDigits(whole)
    && ('.' in value ==> fractional != [])
    && AllAsciiDigits(fractional)
  }

  /** What the lexer calls a number is exactly what the literal parser can read. */
  lemma NumbersAreLiterals(value: string)
    ensures DecimalIsLexical(value) <==> Scan(value).Some?
  {
    var unsigned := if value != [] && value[0] == '-' then value[1..] else value;
    var point := FindPoint(unsigned);
    assert point < |unsigned| ==> unsigned[point] in value;
    PointIsFound(value);
  }

  lemma PointIsFound(value: string)
    ensures var unsigned := if value != [] && value[0] == '-' then value[1..] else value;
            '.' in value ==> FindPoint(unsigned) < |unsigned|
  {
    var unsigned := if value != [] && value[0] == '-' then value[1..] else value;
    forall i | 0 <= i < |value| && value[i] == '.' ensures '.' in unsigned {
      assert unsigned[if value[0] == '-' then i - 1 else i] == '.';
    }
  }

  function Atom(value: string): TokenKind {
    if DecimalIsLexical(value) then Number(value) else Word(value)
  }

  // --- Comments and strings ---------------------------------------------------

  /** Where a comment that goes on at i ends: after the next line feed, or at the end. */
  function CommentEnd(text: string, i: nat): (end: nat)
    requires i <= |text|
    ensures i <= end <= |text|
    decreases |text| - i
  {
    if i == |text| then i else if text[i] == '\n' then i + 1 else CommentEnd(text, i + 1)
  }

  datatype Scanned = Scanned(value: string, end: nat, terminated: bool, problems: seq<Diagnostic>)

  /** The rest of a string literal at i, once `value` and `problems` have been read. */
  function ScanString(text: string, i: nat, value: string, problems: seq<Diagnostic>): (r: Scanned)
    requires i <= |text|
    ensures i <= r.end <= |text|
    decreases |text| - i
  {
    if i == |text| then Scanned(value, i, false, problems)
    else
      var c := text[i];
      if c == '"' then Scanned(value, i + 1, true, problems)
      else if c == '\\' then
        if i + 1 == |text| then Scanned(value, i + 1, false, problems)
        else
          var escaped := text[i + 1];
          ScanString(text, i + 2, value + [escaped],
                     if escaped == '"' || escaped == '\\' then problems
                     else problems + [Diagnostic(UnsupportedEscape, Span(i, i + 2))])
      else if c == '\n' || c == '\r' then Scanned(value, i + 1, false, problems)
      else ScanString(text, i + 1, value + [c], problems)
  }

  // --- Pieces -----------------------------------------------------------------

  datatype Content =
    | Blank
    | Comment
    | Lexeme(kind: TokenKind, problems: seq<Diagnostic>)
    | Stray

  datatype Piece = Piece(span: Span, content: Content)

  function StringPiece(text: string, i: nat): Piece
    requires i < |text|
  {
    var r := ScanString(text, i + 1, [], []);
    var span := Span(i, r.end);
    Piece(span, Lexeme(String(r.value),
                       if r.terminated then r.problems else r.problems + [Diagnostic(UnterminatedString, span)]))
  }

  /** The piece that starts at i. */
  function PieceAt(text: string, i: nat): (p: Piece)
    requires i < |text|
    ensures p.span.start == i < p.span.end <= |text|
  {
    var c := text[i];
    if CommentStartsAt(text, i) then Piece(Span(i, CommentEnd(text, i + 2)), Comment)
    else if IsWhitespace(c) then Piece(Span(i, i + 1), Blank)
    else if Punctuation(c).Some? then Piece(Span(i, i + 1), Lexeme(Punctuation(c).value, []))
    else if c == '"' then StringPiece(text, i)
    else if IsWordCharacter(c) then
      var end := AtomEnd(text, i);
      assert AtomContinuesAt(text, i);
      Piece(Span(i, end), Lexeme(Atom(text[i..end]), []))
    else Piece(Span(i, i + 1), Stray)
  }

  function Pieces(text: string, i: nat): (ps: seq<Piece>)
    requires i <= |text|
    decreases |text| - i
  {
    if i == |text| then []
    else
      var p := PieceAt(text, i);
      [p] + Pieces(text, p.span.end)
  }

  function LexemeOf(p: Piece): seq<Token> {
    match p.content
    case Lexeme(kind, _) => [Token(kind, p.span)]
    case _ => []
  }

  function ProblemsOf(p: Piece): seq<Diagnostic> {
    match p.content
    case Lexeme(_, problems) => problems
    case Stray => [Diagnostic(StrayCharacter, p.span)]
    case _ => []
  }

  function TokensOf(ps: seq<Piece>): seq<Token> {
    if ps == [] then [] else LexemeOf(ps[0]) + TokensOf(ps[1..])
  }

  function DiagnosticsOf(ps: seq<Piece>): seq<Diagnostic> {
    if ps == [] then [] else ProblemsOf(ps[0]) + DiagnosticsOf(ps[1..])
  }

  // --- The pieces tile the text -----------------------------------------------

  /** The pieces follow each other without gap or overlap, from `from` to `to`. */
  predicate Tiles(ps: seq<Piece>, from: nat, to: nat) {
    if ps == [] then from == to
    else ps[0].span.start == from < ps[0].span.end && Tiles(ps[1..], ps[0].span.end, to)
  }

  lemma {:induction false} PiecesTile(text: string, i: nat)
    requires i <= |text|
    ensures Tiles(Pieces(text, i), i, |text|)
    decreases |text| - i
  {
    if i < |text| {
      PiecesTile(text, PieceAt(text, i).span.end);
    }
  }

  /** Every character lies in exactly one piece. */
  lemma {:induction false} ExactlyOnePiece(ps: seq<Piece>, from: nat, to: nat, i: nat) returns (k: nat)
    requires Tiles(ps, from, to) && from <= i < to
    ensures k < |ps| && ps[k].span.start <= i < ps[k].span.end
    ensures forall j | 0 <= j < |ps| && ps[j].span.start <= i < ps[j].span.end :: j == k
  {
    if i < ps[0].span.end {
      k := 0;
      forall j | 1 <= j < |ps| ensures i < ps[j].span.start {
        TilesAreOrdered(ps[1..], ps[0].span.end, to, j - 1);
      }
    } else {
      k := ExactlyOnePiece(ps[1..], ps[0].span.end, to, i);
      forall j | 0 <= j < |ps| && ps[j].span.start <= i < ps[j].span.end ensures j == k + 1 {
        assert j > 0 && ps[1..][j - 1] == ps[j];
      }
      k := k + 1;
    }
  }

  lemma {:induction false} TilesAreOrdered(ps: seq<Piece>, from: nat, to: nat, j: nat)
    requires Tiles(ps, from, to) && j < |ps|
    ensures from <= ps[j].span.start < ps[j].span.end <= to
    ensures forall k | 0 <= k < j :: ps[k].span.end <= ps[j].span.start
  {
    TilesReach(ps, from, to);
    if j > 0 {
      TilesAreOrdered(ps[1..], ps[0].span.end, to, j - 1);
      forall k | 0 <= k < j ensures ps[k].span.end <= ps[j].span.start {
        if k > 0 {
          assert ps[1..][k - 1] == ps[k];
        }
      }
    } else {
      TilesReach(ps[1..], ps[0].span.end, to);
    }
  }

  lemma {:induction false} TilesReach(ps: seq<Piece>, from: nat, to: nat)
    requires Tiles(ps, from, to)
    ensures from <= to
  {
    if ps != [] {
      TilesReach(ps[1..], ps[0].span.end, to);
    }
  }

  /** Tokens are in bounds, in order, and apart from each other. */
  predicate InOrder(ts: seq<Token>, from: nat, to: nat) {
    && (forall i | 0 <= i < |ts| :: from <= ts[i].span.start < ts[i].span.end <= to)
    && (forall i, j | 0 <= i < j < |ts| :: ts[i].span.end <= ts[j].span.start)
  }

  lemma {:induction false} TokensAreInOrder(ps: seq<Piece>, from: nat, to: nat)
    requires Tiles(ps, from, to)
    ensures InOrder(TokensOf(ps), from, to)
  {
    if ps != [] {
      TokensAreInOrder(ps[1..], ps[0].span.end, to);
      TilesReach(ps[1..], ps[0].span.end, to);
    }
  }

  /** Blanks, comments and strays are what they are called, and lexemes start like lexemes. */
  lemma PiecesAreWhatTheySay(text: string, i: nat)
    requires i < |text|
    ensures var p := PieceAt(text, i);
            && (p.content.Comment? <==> CommentStartsAt(text, i))
            && (p.content.Blank? <==> IsWhitespace(text[i]))
            && (p.content.Comment? ==>
                  (forall j | i + 2 <= j < p.span.end - 1 :: text[j] != '\n')
                  && (p.span.end < |text| ==> text[p.span.end - 1] == '\n'))
            && (p.content.Stray? <==>
                  !IsWhitespace(text[i]) && Punctuation(text[i]).None? && text[i] != '"' && !IsWordCharacter(text[i]))
  {
    if CommentStartsAt(text, i) {
      CommentStops(text, i + 2);
    }
  }

  lemma {:induction false} CommentStops(text: string, i: nat)
    requires i <= |text|
    ensures forall j | i <= j < CommentEnd(text, i) - 1 :: text[j] != '\n'
    ensures CommentEnd(text, i) < |text| ==> i < CommentEnd(text, i) && text[CommentEnd(text, i) - 1] == '\n'
    decreases |text| - i
  {
    if i < |text| && text[i] != '\n' {
      CommentStops(text, i + 1);
    }
  }

  // --- Texts by what they are written from --------------------------------------

  /** A character of a string literal, as it is or behind a backslash. */
  datatype Unit = Char(c: char) | Escape(c: char)

  /** How a string literal ends: closed, broken off by a line break, or by the end of the text. */
  datatype Ending = Closed | LineFeed | Return | AtEnd | AtBackslash

  datatype Chunk =
    | Space(c: char)
    | Remark(text: string, ended: bool)
    | Glyph(kind: TokenKind)
    | Plain(text: string)
    | Literal(units: seq<Unit>, ending: Ending)
    | Alien(c: char)

  /** The codes of the characters with the Unicode property White_Space. */
  predicate IsBlankCode(u: int) {
    || 9 <= u <= 13 || u == 32 || u == 133 || u == 160 || u == 5760 || 8192 <= u <= 8202 || u == 8232 || u == 8233
    || u == 8239 || u == 8287 || u == 12288
  }

  /** Letters, digits, `_ + - . /`, and what lies beyond ASCII and its controls. */
  predicate IsNameCode(u: int) {
    || 97 <= u <= 122 || 65 <= u <= 90 || 48 <= u <= 57 || u == 95 || u == 43 || 45 <= u <= 47
    || (u > 160 && !IsBlankCode(u))
  }

  function MarkText(kind: TokenKind): string {
    match kind
    case LeftBrace => "{"
    case RightBrace => "}"
    case LeftParen => "("
    case RightParen => ")"
    case Comma => ","
    case Semicolon => ";"
    case _ => ""
  }

  function UnitText(unit: Unit): string {
    match unit
    case Char(c) => [c]
    case Escape(c) => ['\\', c]
  }

  function UnitsText(units: seq<Unit>): string {
    if units == [] then [] else UnitText(units[0]) + UnitsText(units[1..])
  }

  function EndingText(ending: Ending): string {
    match ending
    case Closed => "\""
    case LineFeed => "\n"
    case Return => "\r"
    case AtEnd => ""
    case AtBackslash => "\\"
  }

  function ChunkText(chunk: Chunk): string {
    match chunk
    case Space(c) => [c]
    case Remark(text, ended) => "//" + text + if ended then "\n" else ""
    case Glyph(kind) => MarkText(kind)
    case Plain(text) => text
    case Literal(units, ending) => "\"" + UnitsText(units) + EndingText(ending)
    case Alien(c) => [c]
  }

  function TextOf(chunks: seq<Chunk>): string {
    if chunks == [] then [] else ChunkText(chunks[0]) + TextOf(chunks[1..])
  }

  predicate HasSlashes(s: string) {
    exists i | 0 <= i < |s| - 1 :: s[i] == '/' && s[i + 1] == '/'
  }

  predicate UnitFits(unit: Unit) {
    unit.Char? ==> unit.c !in {'"', '\\', '\n', '\r'}
  }

  predicate ChunkFits(chunk: Chunk) {
    match chunk
    case Space(c) => IsBlankCode(c as int)
    case Remark(text, _) => '\n' !in text
    case Glyph(kind) => MarkText(kind) != ""
    case Plain(text) =>
      text != [] && !HasSlashes(text) && forall i | 0 <= i < |text| :: IsNameCode(text[i] as int)
    case Literal(units, _) => forall i | 0 <= i < |units| :: UnitFits(units[i])
    case Alien(c) =>
      !IsBlankCode(c as int) && !IsNameCode(c as int) && c !in {'{', '}', '(', ')', ',', ';', '"'}
  }

  /** A chunk that ends only with the text. */
  predicate OpenEnded(chunk: Chunk) {
    || (chunk.Remark? && !chunk.ended)
    || (chunk.Literal? && (chunk.ending.AtEnd? || chunk.ending.AtBackslash?))
  }

  /** Two chunks that do not run together. */
  predicate MayFollow(chunk: Chunk, next: Chunk) {
    && !OpenEnded(chunk)
    && (chunk.Plain? && chunk.text != [] ==>
          !next.Plain? && (next.Remark? ==> chunk.text[|chunk.text| - 1] != '/'))
  }

  predicate ChunksFit(chunks: seq<Chunk>) {
    && (forall i | 0 <= i < |chunks| :: ChunkFits(chunks[i]))
    && (forall i | 0 <= i < |chunks| - 1 :: MayFollow(chunks[i], chunks[i + 1]))
  }

  function ValueOf(units: seq<Unit>): string {
    if units == [] then [] else [units[0].c] + ValueOf(units[1..])
  }

  /** A number is what reads as a decimal, and any other plain text is a word. */
  function PlainKind(text: string): TokenKind {
    if IsFixed(text) then Number(text) else Word(text)
  }

  /** The token of a chunk that starts at `at`. */
  function ChunkTokens(chunk: Chunk, at: nat): seq<Token> {
    var span := Span(at, at + |ChunkText(chunk)|);
    match chunk
    case Glyph(kind) => [Token(kind, span)]
    case Plain(text) => [Token(PlainKind(text), span)]
    case Literal(units, _) => [Token(String(ValueOf(units)), span)]
    case _ => []
  }

  /** Only a quotation mark and a backslash may be escaped. */
  function UnitProblems(unit: Unit, at: nat): seq<Diagnostic> {
    if unit.Escape? && unit.c !in {'"', '\\'} then [Diagnostic(UnsupportedEscape, Span(at, at + 2))] else []
  }

  function EscapeProblems(units: seq<Unit>, at: nat): seq<Diagnostic> {
    if units == [] then []
    else
      UnitProblems(units[0], at)
      + EscapeProblems(units[1..], at + |UnitText(units[0])|)
  }

  function ChunkProblems(chunk: Chunk, at: nat): seq<Diagnostic> {
    var span := Span(at, at + |ChunkText(chunk)|);
    match chunk
    case Literal(units, ending) =>
      EscapeProblems(units, at + 1) + if ending.Closed? then [] else [Diagnostic(UnterminatedString, span)]
    case Alien(_) => [Diagnostic(StrayCharacter, span)]
    case _ => []
  }

  function ChunksTokens(chunks: seq<Chunk>, at: nat): seq<Token> {
    if chunks == [] then []
    else ChunkTokens(chunks[0], at) + ChunksTokens(chunks[1..], at + |ChunkText(chunks[0])|)
  }

  function ChunksProblems(chunks: seq<Chunk>, at: nat): seq<Diagnostic> {
    if chunks == [] then []
    else ChunkProblems(chunks[0], at) + ChunksProblems(chunks[1..], at + |ChunkText(chunks[0])|)
  }

  // --- The lexer finds what a text is written from -------------------------------

  lemma CharactersAre(c: char)
    ensures IsWhitespace(c) <==> IsBlankCode(c as int)
    ensures IsWordCharacter(c) <==> IsNameCode(c as int)
  {
  }

  /** A text that starts like this starts at i with these characters. */
  lemma StartsWith(text: string, i: nat, a: string, rest: string)
    requires i <= |text| && text[i..] == a + rest
    ensures i + |a| <= |text| && text[i..i + |a|] == a && text[i + |a|..] == rest
    ensures forall k | 0 <= k < |a| :: text[i + k] == a[k]
    ensures rest != [] ==> i + |a| < |text| && text[i + |a|] == rest[0]
    ensures rest == [] ==> i + |a| == |text|
    ensures |rest| >= 2 ==> i + |a| + 1 < |text| && text[i + |a| + 1] == rest[1]
  {
    var tail := text[i..];
    assert forall k | 0 <= k < |tail| :: tail[k] == text[i + k];
    assert tail[..|a|] == a && tail[|a|..] == rest;
  }

  lemma RemarkFound(text: string, i: nat, remark: string, ended: bool, rest: string)
    requires i < |text| && text[i..] == "//" + remark + (if ended then "\n" else "") + rest
    requires '\n' !in remark && (!ended ==> rest == [])
    ensures PieceAt(text, i) == Piece(Span(i, i + 2 + |remark| + if ended then 1 else 0), Comment)
  {
    var end := if ended then "\n" else "";
    StartsWith(text, i, "//", remark + end + rest);
    assert "//" + (remark + end + rest) == "//" + remark + end + rest;
    assert remark + end + rest == remark + (end + rest);
    StartsWith(text, i + 2, remark, end + rest);
    RemarkEnds(text, i + 2, |remark|);
    if ended {
      assert (end + rest)[0] == '\n';
    }
  }

  /** A comment goes on over characters that are no line feed. */
  lemma {:induction false} RemarkEnds(text: string, i: nat, n: nat)
    requires i + n <= |text| && forall k | i <= k < i + n :: text[k] != '\n'
    ensures CommentEnd(text, i) == CommentEnd(text, i + n)
    decreases n
  {
    if n > 0 {
      RemarkEnds(text, i + 1, n - 1);
    }
  }

  lemma PlainFound(text: string, i: nat, plain: string, rest: string)
    requires i < |text| && text[i..] == plain + rest && ChunkFits(Plain(plain))
    requires rest != [] ==> !IsNameCode(rest[0] as int)
                            || (|rest| >= 2 && rest[0] == rest[1] == '/' && plain[|plain| - 1] != '/')
    ensures PieceAt(text, i) == Piece(Span(i, i + |plain|), Lexeme(PlainKind(plain), []))
  {
    hide IsWordCharacter, IsWhitespace, IsNameCode, IsBlankCode, IsFixed, DecimalIsLexical;
    StartsWith(text, i, plain, rest);
    forall k | i <= k < i + |plain| ensures AtomContinuesAt(text, k) {
      assert text[k] == plain[k - i];
      CharactersAre(text[k]);
      if k + 1 < i + |plain| {
        assert text[k + 1] == plain[k + 1 - i];
        assert !(plain[k - i] == '/' && plain[k - i + 1] == '/');
      } else {
        SlashIsName();
      }
    }
    if rest != [] {
      CharactersAre(rest[0]);
    }
    AtomRuns(text, i, |plain|);
    CharactersAre(text[i]);
    NamesAreNoMarks(text[i]);
    assert AtomContinuesAt(text, i);
    NumbersAreLiterals(plain);
    ScanReads(plain);
  }

  lemma SlashIsName()
    ensures IsNameCode('/' as int)
  {
  }

  lemma NamesAreNoMarks(c: char)
    requires IsNameCode(c as int)
    ensures !IsWhitespace(c) && Punctuation(c).None? && c != '"'
  {
  }

  lemma {:induction false} AtomRuns(text: string, i: nat, n: nat)
    requires i + n <= |text| && (forall k | i <= k < i + n :: AtomContinuesAt(text, k)) && !AtomContinuesAt(text, i + n)
    ensures AtomEnd(text, i) == i + n
    decreases n
  {
    if n > 0 {
      AtomRuns(text, i + 1, n - 1);
    }
  }

  /** Scanning goes on behind the first unit. */
  lemma UnitFound(text: string, i: nat, unit: Unit, value: string, problems: seq<Diagnostic>)
    requires UnitFits(unit) && i + |UnitText(unit)| <= |text|
    requires forall k | 0 <= k < |UnitText(unit)| :: text[i + k] == UnitText(unit)[k]
    ensures ScanString(text, i, value, problems)
         == ScanString(text, i + |UnitText(unit)|, value + [unit.c], problems + UnitProblems(unit, i))
  {
    assert text[i] == UnitText(unit)[0];
    assert problems + [] == problems;
    if unit.Escape? {
      assert text[i + 1] == UnitText(unit)[1];
    }
  }

  lemma EndingFound(text: string, i: nat, ending: Ending, rest: string, value: string, problems: seq<Diagnostic>)
    requires i <= |text| && text[i..] == EndingText(ending) + rest
    requires ending.AtEnd? || ending.AtBackslash? ==> rest == []
    ensures ScanString(text, i, value, problems)
         == Scanned(value, i + |EndingText(ending)|, ending.Closed?, problems)
  {
    StartsWith(text, i, EndingText(ending), rest);
  }

  lemma {:induction false} UnitsFound(text: string, i: nat, units: seq<Unit>, ending: Ending, rest: string,
                                      value: string, problems: seq<Diagnostic>)
    requires i <= |text| && text[i..] == UnitsText(units) + EndingText(ending) + rest
    requires (forall k | 0 <= k < |units| :: UnitFits(units[k]))
    requires ending.AtEnd? || ending.AtBackslash? ==> rest == []
    ensures ScanString(text, i, value, problems)
         == Scanned(value + ValueOf(units), i + |UnitsText(units)| + |EndingText(ending)|, ending.Closed?,
                    problems + EscapeProblems(units, i))
    decreases |units|
  {
    hide ScanString, UnitText, EndingText, UnitProblems, UnitFits;
    if units == [] {
      assert text[i..] == EndingText(ending) + rest;
      EndingFound(text, i, ending, rest, value, problems);
      assert value + [] == value && problems + [] == problems;
    } else {
      UnitsStep(text, i, units, ending, rest);
      UnitFound(text, i, units[0], value, problems);
      var next, c := i + |UnitText(units[0])|, units[0].c;
      UnitsFound(text, next, units[1..], ending, rest, value + [c], problems + UnitProblems(units[0], i));
      Regrouped(value, [c], ValueOf(units[1..]));
      Regrouped(problems, UnitProblems(units[0], i), EscapeProblems(units[1..], next));
    }
  }

  lemma Regrouped<T>(a: seq<T>, b: seq<T>, c: seq<T>)
    ensures a + b + c == a + (b + c)
  {
  }

  lemma UnitsStep(text: string, i: nat, units: seq<Unit>, ending: Ending, rest: string)
    requires units != [] && i <= |text| && text[i..] == UnitsText(units) + EndingText(ending) + rest
    ensures var first := UnitText(units[0]);
            && i + |first| <= |text| && (forall k | 0 <= k < |first| :: text[i + k] == first[k])
            && text[i + |first|..] == UnitsText(units[1..]) + EndingText(ending) + rest
            && |UnitsText(units)| == |first| + |UnitsText(units[1..])|
  {
    hide UnitText, EndingText;
    var first, more := UnitText(units[0]), UnitsText(units[1..]) + EndingText(ending) + rest;
    assert UnitsText(units) + EndingText(ending) + rest == first + more;
    StartsWith(text, i, first, more);
  }

  lemma LiteralFound(text: string, i: nat, units: seq<Unit>, ending: Ending, rest: string)
    requires i < |text| && text[i..] == "\"" + UnitsText(units) + EndingText(ending) + rest
    requires (forall k | 0 <= k < |units| :: UnitFits(units[k]))
    requires ending.AtEnd? || ending.AtBackslash? ==> rest == []
    ensures var chunk := Literal(units, ending);
            PieceAt(text, i)
              == Piece(Span(i, i + |ChunkText(chunk)|), Lexeme(String(ValueOf(units)), ChunkProblems(chunk, i)))
  {
    hide *;
    var more := UnitsText(units) + EndingText(ending) + rest;
    FourParts("\"", UnitsText(units), EndingText(ending), rest);
    StartsWith(text, i, "\"", more);
    UnitsFound(text, i + 1, units, ending, rest, [], []);
    QuoteIsString(text, i);
    LiteralSays(units, ending, i);
    NothingInFront(ValueOf(units));
    NothingInFront(EscapeProblems(units, i + 1));
  }

  lemma FourParts(a: string, b: string, c: string, d: string)
    ensures a + b + c + d == a + (b + c + d)
  {
  }

  lemma QuoteIsString(text: string, i: nat)
    requires i < |text| && text[i] == '"'
    ensures var r := ScanString(text, i + 1, [], []);
            var span := Span(i, r.end);
            PieceAt(text, i)
              == Piece(span, Lexeme(String(r.value),
                                    r.problems + if r.terminated then [] else [Diagnostic(UnterminatedString, span)]))
  {
    hide ScanString;
    var r := ScanString(text, i + 1, [], []);
    assert r.problems + [] == r.problems;
  }

  lemma LiteralSays(units: seq<Unit>, ending: Ending, i: nat)
    ensures var n := 1 + |UnitsText(units)| + |EndingText(ending)|;
            && |ChunkText(Literal(units, ending))| == n
            && ChunkProblems(Literal(units, ending), i)
                 == EscapeProblems(units, i + 1)
                    + if ending.Closed? then [] else [Diagnostic(UnterminatedString, Span(i, i + n))]
  {
    hide UnitsText, EndingText, EscapeProblems;
  }

  lemma OneCharacterFound(text: string, i: nat, chunk: Chunk, rest: string)
    requires i < |text| && text[i..] == ChunkText(chunk) + rest && ChunkFits(chunk)
    requires chunk.Space? || chunk.Glyph? || chunk.Alien?
    ensures |ChunkText(chunk)| == 1 && PieceAt(text, i).span == Span(i, i + 1)
    ensures match chunk
            case Space(_) => PieceAt(text, i).content == Blank
            case Glyph(kind) => PieceAt(text, i).content == Lexeme(kind, [])
            case _ => PieceAt(text, i).content == Stray
  {
    StartsWith(text, i, ChunkText(chunk), rest);
    CharactersAre(text[i]);
  }

  /** The first chunk of a text is its first piece. */
  lemma ChunkFound(text: string, i: nat, chunks: seq<Chunk>)
    requires i <= |text| && chunks != [] && ChunksFit(chunks) && text[i..] == TextOf(chunks)
    ensures i + |ChunkText(chunks[0])| <= |text| && Found(text, i, chunks[0])
    ensures text[i + |ChunkText(chunks[0])|..] == TextOf(chunks[1..])
  {
    hide ChunkText, ChunkFits, MayFollow, Found, OpenEnded;
    var chunk, rest := chunks[0], TextOf(chunks[1..]);
    assert ChunkFits(chunk);
    ChunksAreNotEmpty(chunk);
    StartsWith(text, i, ChunkText(chunk), rest);
    if |chunks| > 1 {
      assert MayFollow(chunks[0], chunks[1]);
      NothingFollows(chunks[0], chunks[1]);
      if chunk.Plain? {
        NextChunkStarts(chunks);
      }
    }
    match chunk {
      case Remark(_, _) => RemarkIsFound(text, i, chunk, rest);
      case Plain(_) => PlainIsFound(text, i, chunk, rest);
      case Literal(_, _) => LiteralIsFound(text, i, chunk, rest);
      case _ => CharacterIsFound(text, i, chunk, rest);
    }
  }

  /** The piece at i is what the chunk says. */
  predicate Found(text: string, i: nat, chunk: Chunk) {
    && i < |text|
    && var p := PieceAt(text, i);
       && p.span.end == i + |ChunkText(chunk)|
       && LexemeOf(p) == ChunkTokens(chunk, i) && ProblemsOf(p) == ChunkProblems(chunk, i)
  }

  lemma NothingFollows(chunk: Chunk, next: Chunk)
    requires MayFollow(chunk, next)
    ensures !OpenEnded(chunk)
  {
  }

  lemma RemarkIsFound(text: string, i: nat, chunk: Chunk, rest: string)
    requires chunk.Remark? && ChunkFits(chunk) && (OpenEnded(chunk) ==> rest == [])
    requires i <= |text| && text[i..] == ChunkText(chunk) + rest
    ensures Found(text, i, chunk)
  {
    hide PieceAt;
    RemarkFound(text, i, chunk.text, chunk.ended, rest);
  }

  lemma PlainIsFound(text: string, i: nat, chunk: Chunk, rest: string)
    requires chunk.Plain? && ChunkFits(chunk) && i <= |text| && text[i..] == ChunkText(chunk) + rest
    requires rest != [] ==> !IsNameCode(rest[0] as int)
                            || (|rest| >= 2 && rest[0] == rest[1] == '/' && chunk.text[|chunk.text| - 1] != '/')
    ensures Found(text, i, chunk)
  {
    hide PieceAt, IsNameCode, IsFixed;
    PlainFound(text, i, chunk.text, rest);
  }

  lemma LiteralIsFound(text: string, i: nat, chunk: Chunk, rest: string)
    requires chunk.Literal? && ChunkFits(chunk) && (OpenEnded(chunk) ==> rest == [])
    requires i <= |text| && text[i..] == ChunkText(chunk) + rest
    ensures Found(text, i, chunk)
  {
    hide PieceAt, EscapeProblems, UnitsText, EndingText;
    LiteralFound(text, i, chunk.units, chunk.ending, rest);
  }

  lemma CharacterIsFound(text: string, i: nat, chunk: Chunk, rest: string)
    requires (chunk.Space? || chunk.Glyph? || chunk.Alien?) && ChunkFits(chunk)
    requires i <= |text| && text[i..] == ChunkText(chunk) + rest
    ensures Found(text, i, chunk)
  {
    hide PieceAt, IsNameCode, IsBlankCode;
    OneCharacterFound(text, i, chunk, rest);
  }

  lemma ChunksAreNotEmpty(chunk: Chunk)
    requires ChunkFits(chunk)
    ensures ChunkText(chunk) != []
  {
  }

  /** Behind plain text comes something that cannot go on with it. */
  lemma NextChunkStarts(chunks: seq<Chunk>)
    requires |chunks| > 1 && ChunksFit(chunks) && chunks[0].Plain?
    ensures var plain, rest := chunks[0].text, TextOf(chunks[1..]);
            plain != [] && rest != []
            && (!IsNameCode(rest[0] as int)
                || (|rest| >= 2 && rest[0] == rest[1] == '/' && plain[|plain| - 1] != '/'))
  {
    assert MayFollow(chunks[0], chunks[1]) && ChunkFits(chunks[0]) && ChunkFits(chunks[1]);
    var next := ChunkText(chunks[1]);
    ChunksAreNotEmpty(chunks[1]);
    assert TextOf(chunks[1..]) == next + TextOf(chunks[1..][1..]);
  }

  /** Lexing a text gives the tokens and the problems of what it is written from. */
  lemma {:induction false} ChunksFound(text: string, i: nat, chunks: seq<Chunk>)
    requires i <= |text| && ChunksFit(chunks) && text[i..] == TextOf(chunks)
    ensures TokensOf(Pieces(text, i)) == ChunksTokens(chunks, i)
    ensures DiagnosticsOf(Pieces(text, i)) == ChunksProblems(chunks, i)
    decreases |chunks|
  {
    hide ChunksFit, ChunkText, ChunkTokens, ChunkProblems, LexemeOf, ProblemsOf, PieceAt;
    if chunks == [] {
      assert i == |text|;
    } else {
      ChunkFound(text, i, chunks);
      FitsBehind(chunks);
      var p, chunk, rest := PieceAt(text, i), chunks[0], chunks[1..];
      ChunksFound(text, p.span.end, rest);
      FirstPiece(text, i);
      hide Pieces, TokensOf, DiagnosticsOf, ChunksTokens, ChunksProblems, TextOf;
      PieceFirst(p, Pieces(text, p.span.end));
      FirstSays(chunk, rest, i);
      assert [chunk] + rest == chunks;
    }
  }

  lemma FirstPiece(text: string, i: nat)
    requires i < |text|
    ensures Pieces(text, i) == [PieceAt(text, i)] + Pieces(text, PieceAt(text, i).span.end)
  {
    hide PieceAt;
  }

  lemma FitsBehind(chunks: seq<Chunk>)
    requires chunks != [] && ChunksFit(chunks)
    ensures ChunksFit(chunks[1..])
  {
    hide ChunkFits, MayFollow;
    var rest := chunks[1..];
    forall k | 0 <= k < |rest| - 1 ensures MayFollow(rest[k], rest[k + 1]) {
      assert MayFollow(chunks[k + 1], chunks[k + 1 + 1]);
    }
  }

  lemma FirstSays(chunk: Chunk, rest: seq<Chunk>, at: nat)
    ensures var next := at + |ChunkText(chunk)|;
            && ChunksTokens([chunk] + rest, at) == ChunkTokens(chunk, at) + ChunksTokens(rest, next)
            && ChunksProblems([chunk] + rest, at) == ChunkProblems(chunk, at) + ChunksProblems(rest, next)
            && TextOf([chunk] + rest) == ChunkText(chunk) + TextOf(rest)
  {
    hide ChunkText, ChunkTokens, ChunkProblems;
    var all := [chunk] + rest;
    assert all[0] == chunk && all[1..] == rest;
  }

  // --- Writing tokens -------------------------------------------------------------

  /** A token that can be written: words and numbers as they are, strings without a line break. */
  predicate Spellable(kind: TokenKind) {
    match kind
    case Word(text) => ChunkFits(Plain(text)) && !IsFixed(text)
    case Number(text) => ChunkFits(Plain(text)) && IsFixed(text)
    case String(text) => !HasLineBreak(text)
    case End => false
    case _ => true
  }

  function UnitsOf(s: string): seq<Unit> {
    if s == [] then []
    else [if s[0] == '"' || s[0] == '\\' then Escape(s[0]) else Char(s[0])] + UnitsOf(s[1..])
  }

  function Spelled(kind: TokenKind): Chunk {
    match kind
    case Word(text) => Plain(text)
    case Number(text) => Plain(text)
    case String(text) => Literal(UnitsOf(text), Closed)
    case _ => Glyph(kind)
  }

  /** The tokens with a blank behind each. */
  function Spelling(kinds: seq<TokenKind>): seq<Chunk> {
    if kinds == [] then [] else [Spelled(kinds[0])] + ([Space(' ')] + Spelling(kinds[1..]))
  }

  predicate Harmless(unit: Unit) {
    UnitFits(unit) && (unit.Escape? ==> unit.c in {'"', '\\'})
  }

  lemma {:induction false} UnitsOfText(s: string)
    requires !HasLineBreak(s)
    ensures ValueOf(UnitsOf(s)) == s && forall k | 0 <= k < |UnitsOf(s)| :: Harmless(UnitsOf(s)[k])
  {
    if s != [] {
      assert s == [s[0]] + s[1..] && s[0] in s;
      assert !HasLineBreak(s[1..]) by {
        assert forall c | c in s[1..] :: c in s;
      }
      UnitsOfText(s[1..]);
      var first := if s[0] == '"' || s[0] == '\\' then Escape(s[0]) else Char(s[0]);
      assert Harmless(first);
      hide Harmless;
      assert UnitsOf(s) == [first] + UnitsOf(s[1..]);
      assert UnitsOf(s)[1..] == UnitsOf(s[1..]);
    }
  }

  lemma {:induction false} HarmlessUnits(units: seq<Unit>, at: nat)
    requires forall k | 0 <= k < |units| :: Harmless(units[k])
    ensures EscapeProblems(units, at) == [] && forall k | 0 <= k < |units| :: UnitFits(units[k])
    decreases |units|
  {
    if units != [] {
      assert Harmless(units[0]);
      HarmlessUnits(units[1..], at + |UnitText(units[0])|);
      assert forall k | 0 < k < |units| :: units[1..][k - 1] == units[k];
    }
  }

  /** Written, a token is a chunk of that kind without a problem. */
  lemma SpelledFits(kind: TokenKind, at: nat)
    requires Spellable(kind)
    ensures ChunkFits(Spelled(kind)) && !OpenEnded(Spelled(kind)) && ChunkProblems(Spelled(kind), at) == []
    ensures ChunkTokens(Spelled(kind), at) == [Token(kind, Span(at, at + |ChunkText(Spelled(kind))|))]
  {
    hide IsNameCode, IsFixed;
    if kind.String? {
      UnitsOfText(kind.text);
      HarmlessUnits(UnitsOf(kind.text), at + 1);
    }
  }

  function KindsOf(tokens: seq<Token>): (kinds: seq<TokenKind>)
    ensures |kinds| == |tokens|
  {
    seq(|tokens|, i requires 0 <= i < |tokens| => tokens[i].kind)
  }

  /** What is written so is found again. */
  lemma {:induction false} SpellingIsFound(kinds: seq<TokenKind>, at: nat)
    requires forall i | 0 <= i < |kinds| :: Spellable(kinds[i])
    ensures ChunksFit(Spelling(kinds))
    ensures KindsOf(ChunksTokens(Spelling(kinds), at)) == kinds && ChunksProblems(Spelling(kinds), at) == []
    decreases |kinds|
  {
    hide *;
    if kinds == [] {
      NothingIsSpelled(at);
    } else {
      var chunk, rest, next := Spelled(kinds[0]), Spelling(kinds[1..]), at + |ChunkText(Spelled(kinds[0]))|;
      assert Spellable(kinds[0]);
      SpelledFits(kinds[0], at);
      SpellingIsFound(kinds[1..], next + 1);
      SpellingFirst(kinds);
      SpacedFits(chunk, rest);
      SpacedSays(chunk, rest, at);
      KindsJoin(Token(kinds[0], Span(at, next)), ChunksTokens(rest, next + 1));
      NothingInFront(ChunksProblems(rest, next + 1));
      assert kinds == [kinds[0]] + kinds[1..];
    }
  }

  lemma NothingIsSpelled(at: nat)
    ensures ChunksFit(Spelling([])) && ChunksProblems(Spelling([]), at) == []
    ensures KindsOf(ChunksTokens(Spelling([]), at)) == []
  {
  }

  lemma SpellingFirst(kinds: seq<TokenKind>)
    requires kinds != []
    ensures Spelling(kinds) == [Spelled(kinds[0])] + ([Space(' ')] + Spelling(kinds[1..]))
  {
    hide Spelled;
  }

  lemma KindsJoin(token: Token, more: seq<Token>)
    ensures KindsOf([token] + more) == [token.kind] + KindsOf(more)
  {
  }

  lemma SpacedFits(chunk: Chunk, rest: seq<Chunk>)
    requires ChunkFits(chunk) && !OpenEnded(chunk) && ChunksFit(rest)
    ensures ChunksFit([chunk] + ([Space(' ')] + rest))
  {
    SpaceSaysNothing(0);
    hide ChunksFit, ChunkFits, MayFollow, OpenEnded;
    FitsFirst(Space(' '), rest);
    FitsFirst(chunk, [Space(' ')] + rest);
  }

  lemma SpacedSays(chunk: Chunk, rest: seq<Chunk>, at: nat)
    ensures var all, next := [chunk] + ([Space(' ')] + rest), at + |ChunkText(chunk)|;
            && ChunksTokens(all, at) == ChunkTokens(chunk, at) + ChunksTokens(rest, next + 1)
            && ChunksProblems(all, at) == ChunkProblems(chunk, at) + ChunksProblems(rest, next + 1)
  {
    hide *;
    var space, next := Space(' '), at + |ChunkText(chunk)|;
    SpaceSaysNothing(next);
    FirstSays(space, rest, next);
    FirstSays(chunk, [space] + rest, at);
    NothingInFront(ChunksTokens(rest, next + 1));
    NothingInFront(ChunksProblems(rest, next + 1));
  }

  lemma NothingInFront<T>(s: seq<T>)
    ensures [] + s == s
  {
  }

  lemma SpaceSaysNothing(at: nat)
    ensures ChunkTokens(Space(' '), at) == [] && ChunkProblems(Space(' '), at) == [] && |ChunkText(Space(' '))| == 1
    ensures ChunkFits(Space(' ')) && forall next :: MayFollow(Space(' '), next)
    ensures forall chunk | !OpenEnded(chunk) :: MayFollow(chunk, Space(' '))
  {
  }

  // --- Every text is written from something --------------------------------------

  lemma {:induction false} RemarkEndAt(text: string, i: nat) returns (n: nat)
    requires i <= |text|
    ensures i + n <= |text| && (forall k | i <= k < i + n :: text[k] != '\n') && (i + n < |text| ==> text[i + n] == '\n')
    decreases |text| - i
  {
    n := 0;
    if i < |text| && text[i] != '\n' {
      n := RemarkEndAt(text, i + 1);
      n := n + 1;
    }
  }

  /** The characters of a literal, up to where it ends. */
  lemma {:induction false} UnitsAt(text: string, i: nat) returns (units: seq<Unit>, ending: Ending)
    requires i <= |text|
    ensures forall k | 0 <= k < |units| :: UnitFits(units[k])
    ensures var s := UnitsText(units) + EndingText(ending);
            i + |s| <= |text| && text[i..i + |s|] == s
            && (ending.AtEnd? || ending.AtBackslash? ==> i + |s| == |text|)
    decreases |text| - i
  {
    if i == |text| {
      units, ending := [], AtEnd;
      assert text[i..i] == [];
    } else if text[i] == '\\' && i + 1 == |text| {
      units, ending := [], AtBackslash;
      assert text[i..i + 1] == [text[i]];
    } else if text[i] in {'"', '\n', '\r'} {
      units, ending := [], if text[i] == '"' then Closed else if text[i] == '\n' then LineFeed else Return;
      assert text[i..i + 1] == [text[i]];
    } else {
      var unit := if text[i] == '\\' then Escape(text[i + 1]) else Char(text[i]);
      var next := i + |UnitText(unit)|;
      assert text[i..next] == UnitText(unit);
      units, ending := UnitsAt(text, next);
      OneMoreUnit(text, i, unit, units, ending);
      units := [unit] + units;
    }
  }

  lemma OneMoreUnit(text: string, i: nat, unit: Unit, units: seq<Unit>, ending: Ending)
    requires var next, s := i + |UnitText(unit)|, UnitsText(units) + EndingText(ending);
             next + |s| <= |text| && text[i..next] == UnitText(unit) && text[next..next + |s|] == s
    ensures var s := UnitsText([unit] + units) + EndingText(ending);
            && |s| == |UnitText(unit)| + |UnitsText(units) + EndingText(ending)|
            && i + |s| <= |text| && text[i..i + |s|] == s
  {
    hide UnitText, EndingText;
    var next, s := i + |UnitText(unit)|, UnitsText(units) + EndingText(ending);
    assert ([unit] + units)[1..] == units;
    hide *;
    assert text[i..next + |s|] == text[i..next] + text[next..next + |s|];
    Regrouped(UnitText(unit), UnitsText(units), EndingText(ending));
  }

  /** What the text is written from at i. */
  ghost predicate IsChunkAt(text: string, i: nat, chunk: Chunk) {
    && ChunkFits(chunk) && i + |ChunkText(chunk)| <= |text| && text[i..i + |ChunkText(chunk)|] == ChunkText(chunk)
    && (OpenEnded(chunk) ==> i + |ChunkText(chunk)| == |text|)
    && (chunk.Plain? ==> AtomContinuesAt(text, i) && i + |chunk.text| == AtomEnd(text, i))
    && (chunk.Remark? ==> CommentStartsAt(text, i))
  }

  lemma RemarkAt(text: string, i: nat) returns (chunk: Chunk)
    requires CommentStartsAt(text, i)
    ensures IsChunkAt(text, i, chunk)
  {
    var n := RemarkEndAt(text, i + 2);
    var ended := i + 2 + n < |text|;
    var remark := text[i + 2..i + 2 + n];
    chunk := Remark(remark, ended);
    assert text[i..i + 2] == "//";
    assert text[i..i + 2 + n] == "//" + remark;
    if ended {
      assert text[i..i + 3 + n] == "//" + remark + "\n";
    }
    forall k | 0 <= k < |remark| ensures remark[k] != '\n' {
      assert remark[k] == text[i + 2 + k];
    }
  }

  lemma PlainAt(text: string, i: nat) returns (chunk: Chunk)
    requires AtomContinuesAt(text, i)
    ensures IsChunkAt(text, i, chunk)
  {
    hide IsWordCharacter, IsNameCode;
    AtomIsMaximal(text, i);
    var end := AtomEnd(text, i);
    var plain := text[i..end];
    chunk := Plain(plain);
    forall k | 0 <= k < |plain| ensures IsNameCode(plain[k] as int) {
      assert AtomContinuesAt(text, i + k);
      CharactersAre(text[i + k]);
    }
    forall k | 0 <= k < |plain| - 1 ensures !(plain[k] == '/' && plain[k + 1] == '/') {
      assert AtomContinuesAt(text, i + k);
    }
  }

  lemma LiteralAt(text: string, i: nat) returns (chunk: Chunk)
    requires i < |text| && text[i] == '"'
    ensures IsChunkAt(text, i, chunk)
  {
    var units, ending := UnitsAt(text, i + 1);
    var s := UnitsText(units) + EndingText(ending);
    chunk := Literal(units, ending);
    assert text[i..i + 1 + |s|] == [text[i]] + text[i + 1..i + 1 + |s|];
    Regrouped("\"", UnitsText(units), EndingText(ending));
  }

  lemma ChunkAt(text: string, i: nat) returns (chunk: Chunk)
    requires i < |text|
    ensures IsChunkAt(text, i, chunk)
  {
    var c := text[i];
    CharactersAre(c);
    assert text[i..i + 1] == [c];
    if CommentStartsAt(text, i) {
      chunk := RemarkAt(text, i);
    } else if IsBlankCode(c as int) {
      chunk := Space(c);
    } else if c == '"' {
      chunk := LiteralAt(text, i);
    } else if IsNameCode(c as int) {
      chunk := PlainAt(text, i);
    } else {
      chunk := MarkOrAlien(c);
    }
  }

  lemma MarkOrAlien(c: char) returns (chunk: Chunk)
    requires !IsBlankCode(c as int) && !IsNameCode(c as int) && c != '"'
    ensures ChunkFits(chunk) && ChunkText(chunk) == [c] && (chunk.Glyph? || chunk.Alien?)
  {
    chunk := if c == '{' then Glyph(LeftBrace) else if c == '}' then Glyph(RightBrace)
             else if c == '(' then Glyph(LeftParen) else if c == ')' then Glyph(RightParen)
             else if c == ',' then Glyph(Comma) else if c == ';' then Glyph(Semicolon) else Alien(c);
  }

  /** Every text is written from chunks that fit, so what they say of its tokens holds for every text. */
  lemma {:induction false} EveryTextIsWritten(text: string, i: nat) returns (chunks: seq<Chunk>)
    requires i <= |text|
    ensures ChunksFit(chunks) && text[i..] == TextOf(chunks)
    ensures chunks == [] <==> i == |text|
    ensures chunks != [] ==> IsChunkAt(text, i, chunks[0])
    decreases |text| - i
  {
    hide *;
    if i == |text| {
      NothingIsWritten(text);
      chunks := [];
    } else {
      var chunk := ChunkAt(text, i);
      ChunkIsThere(text, i, chunk);
      var rest := EveryTextIsWritten(text, i + |ChunkText(chunk)|);
      WrittenFurther(text, i, chunk, rest);
      chunks := [chunk] + rest;
    }
  }

  lemma WrittenFurther(text: string, i: nat, chunk: Chunk, rest: seq<Chunk>)
    requires IsChunkAt(text, i, chunk)
    requires var next := i + |ChunkText(chunk)|;
             && ChunksFit(rest) && text[next..] == TextOf(rest) && (rest == [] ==> next == |text|)
             && (rest != [] ==> next < |text| && IsChunkAt(text, next, rest[0]))
    ensures ChunksFit([chunk] + rest) && text[i..] == TextOf([chunk] + rest)
  {
    hide *;
    if rest != [] {
      MayFollowAt(text, i, chunk, rest[0]);
    }
    ChunkIsThere(text, i, chunk);
    FitsFirst(chunk, rest);
    FirstSays(chunk, rest, i);
    CutTail(text, i, i + |ChunkText(chunk)|);
  }

  lemma ChunkIsThere(text: string, i: nat, chunk: Chunk)
    requires IsChunkAt(text, i, chunk)
    ensures ChunkFits(chunk) && ChunkText(chunk) != [] && i + |ChunkText(chunk)| <= |text|
    ensures text[i..i + |ChunkText(chunk)|] == ChunkText(chunk)
  {
    hide AtomContinuesAt, AtomEnd, CommentStartsAt, OpenEnded, IsFixed;
    ChunksAreNotEmpty(chunk);
  }

  lemma CutTail(text: string, i: nat, j: nat)
    requires i <= j <= |text|
    ensures text[i..] == text[i..j] + text[j..]
  {
  }

  lemma NothingIsWritten(text: string)
    ensures ChunksFit([]) && text[|text|..] == TextOf([])
  {
  }

  lemma FitsFirst(chunk: Chunk, rest: seq<Chunk>)
    requires ChunkFits(chunk) && ChunksFit(rest) && (rest != [] ==> MayFollow(chunk, rest[0]))
    ensures ChunksFit([chunk] + rest)
  {
    hide ChunkFits, MayFollow;
    var all := [chunk] + rest;
    assert forall k | 0 <= k < |rest| :: all[k + 1] == rest[k];
    forall k | 0 <= k < |all| - 1 ensures MayFollow(all[k], all[k + 1]) {
      if k > 0 {
        assert all[k] == rest[k - 1] && all[k + 1] == rest[k - 1 + 1];
      }
    }
    forall k | 0 <= k < |all| ensures ChunkFits(all[k]) {
      if k > 0 {
        assert all[k] == rest[k - 1];
      }
    }
  }

  lemma MayFollowAt(text: string, i: nat, chunk: Chunk, next: Chunk)
    requires IsChunkAt(text, i, chunk) && i + |ChunkText(chunk)| < |text|
    requires IsChunkAt(text, i + |ChunkText(chunk)|, next)
    ensures MayFollow(chunk, next)
  {
    if chunk.Plain? {
      var end := i + |chunk.text|;
      AtomIsMaximal(text, i);
      assert AtomContinuesAt(text, end - 1);
      assert text[i..end][|chunk.text| - 1] == text[end - 1];
    }
  }

  // --- The lexer --------------------------------------------------------------

  class Lexer {
    const text: string
    var offset: nat
    var tokens: seq<Token>
    var diagnostics: seq<Diagnostic>

    /** What has been produced, and what is still to come, make up the whole. */
    ghost predicate Valid()
      reads this
    {
      && offset <= |text|
      && tokens + TokensOf(Pieces(text, offset)) == TokensOf(Pieces(text, 0))
      && diagnostics + DiagnosticsOf(Pieces(text, offset)) == DiagnosticsOf(Pieces(text, 0))
    }

    constructor (source: string)
      ensures Valid() && text == source && offset == 0
    {
      text, offset, tokens, diagnostics := source, 0, [], [];
    }

    method SkipComment()
      requires CommentStartsAt(text, offset)
      modifies `offset
      ensures offset == CommentEnd(text, old(offset) + 2)
    {
      offset := offset + 2;
      while offset < |text|
        invariant offset <= |text| && CommentEnd(text, offset) == CommentEnd(text, old(offset) + 2)
      {
        var c := text[offset];
        if c == '\n' {
          offset := offset + 1;
          return;
        }
        offset := offset + 1;
      }
    }

    /** Makes progress, because the caller has ruled out a comment. */
    method LexAtom()
      requires AtomContinuesAt(text, offset)
      modifies `offset, `tokens
      ensures old(offset) < offset == AtomEnd(text, old(offset))
      ensures tokens == old(tokens) + [Token(Atom(text[old(offset)..offset]), Span(old(offset), offset))]
    {
      hide DecimalIsLexical, IsWordCharacter;
      var start := offset;
      while offset < |text| && IsWordCharacter(text[offset]) && !CommentStartsAt(text, offset)
        invariant start <= offset <= |text| && AtomEnd(text, offset) == AtomEnd(text, start)
        invariant tokens == old(tokens)
      {
        offset := offset + 1;
      }
      var value := text[start..offset];
      tokens := tokens + [Token(Atom(value), Span(start, offset))];
    }

    method LexString()
      requires offset < |text| && text[offset] == '"'
      modifies `offset, `tokens, `diagnostics
      ensures var p := StringPiece(text, old(offset));
              && offset == p.span.end && old(offset) < offset
              && tokens == old(tokens) + [Token(p.content.kind, p.span)]
              && diagnostics == old(diagnostics) + p.content.problems
    {
      var start := offset;
      offset := offset + 1;
      var value: string := [];
      var terminated, broken := false, false;
      ghost var problems: seq<Diagnostic> := [];
      ghost var whole := ScanString(text, start + 1, [], []);
      while !terminated && !broken && offset < |text|
        invariant start < offset <= |text| && diagnostics == old(diagnostics) + problems && tokens == old(tokens)
        invariant !terminated && !broken ==> ScanString(text, offset, value, problems) == whole
        invariant terminated || broken ==> whole == Scanned(value, offset, terminated, problems)
        decreases |text| - offset
      {
        var c := text[offset];
        offset := offset + 1;
        if c == '"' {
          terminated := true;
        } else if c == '\\' {
          if offset == |text| {
            broken := true;
          } else {
            var escaped := text[offset];
            offset := offset + 1;
            if escaped != '"' && escaped != '\\' {
              diagnostics := diagnostics + [Diagnostic(UnsupportedEscape, Span(offset - 2, offset))];
              problems := problems + [Diagnostic(UnsupportedEscape, Span(offset - 2, offset))];
            }
            value := value + [escaped];
          }
        } else if c == '\n' || c == '\r' {
          broken := true;
        } else {
          value := value + [c];
        }
      }
      if !terminated {
        diagnostics := diagnostics + [Diagnostic(UnterminatedString, Span(start, offset))];
      }
      tokens := tokens + [Token(String(value), Span(start, offset))];
    }

    /** Consumes one piece. */
    method Step()
      requires Valid() && offset < |text|
      modifies `offset, `tokens, `diagnostics
      ensures Valid() && old(offset) < offset
    {
      hide PieceAt;
      ghost var p := PieceAt(text, offset);
      assert Pieces(text, offset) == [p] + Pieces(text, p.span.end);
      PieceFirst(p, Pieces(text, p.span.end));
      Consume();
    }

    method Consume()
      requires offset < |text|
      modifies `offset, `tokens, `diagnostics
      ensures var p := PieceAt(text, old(offset));
              && offset == p.span.end
              && tokens == old(tokens) + LexemeOf(p) && diagnostics == old(diagnostics) + ProblemsOf(p)
    {
      hide AtomEnd, CommentEnd, ScanString, IsWhitespace, IsWordCharacter, Punctuation;
      var c := text[offset];
      var start := offset;
      if CommentStartsAt(text, offset) {
        SkipComment();
      } else if IsWhitespace(c) {
        offset := offset + 1;
      } else {
        var punctuation := Punctuation(c);
        if punctuation.Some? {
          offset := offset + 1;
          tokens := tokens + [Token(punctuation.value, Span(start, offset))];
        } else if c == '"' {
          LexString();
        } else if IsWordCharacter(c) {
          LexAtom();
        } else {
          offset := offset + 1;
          diagnostics := diagnostics + [Diagnostic(StrayCharacter, Span(start, offset))];
        }
      }
    }

    method Run()
      requires Valid() && offset == 0
      modifies this
      ensures tokens == TokensOf(Pieces(text, 0)) + [Token(End, Span(|text|, |text|))]
      ensures diagnostics == DiagnosticsOf(Pieces(text, 0))
    {
      while offset < |text|
        invariant Valid()
        decreases |text| - offset
      {
        Step();
      }
      tokens := tokens + [Token(End, Span(|text|, |text|))];
    }
  }

  lemma PieceFirst(p: Piece, rest: seq<Piece>)
    ensures TokensOf([p] + rest) == LexemeOf(p) + TokensOf(rest)
    ensures DiagnosticsOf([p] + rest) == ProblemsOf(p) + DiagnosticsOf(rest)
  {
    assert ([p] + rest)[1..] == rest;
  }

  /** The whole lexer: tokens in order and in bounds, with exactly one end token. */
  method Lex(text: string) returns (tokens: seq<Token>, diagnostics: seq<Diagnostic>)
    ensures tokens == TokensOf(Pieces(text, 0)) + [Token(End, Span(|text|, |text|))]
    ensures diagnostics == DiagnosticsOf(Pieces(text, 0))
    ensures forall chunks | ChunksFit(chunks) && text == TextOf(chunks) ::
              && tokens == ChunksTokens(chunks, 0) + [Token(End, Span(|text|, |text|))]
              && diagnostics == ChunksProblems(chunks, 0)
    ensures InOrder(tokens[..|tokens| - 1], 0, |text|)
    ensures forall i | 0 <= i < |tokens| :: tokens[i].kind.End? <==> i == |tokens| - 1
  {
    var lexer := new Lexer(text);
    lexer.Run();
    tokens, diagnostics := lexer.tokens, lexer.diagnostics;
    PiecesTile(text, 0);
    TokensAreInOrder(Pieces(text, 0), 0, |text|);
    NoEarlyEnd(text, 0);
    assert text[0..] == text;
    forall chunks | ChunksFit(chunks) && text == TextOf(chunks)
      ensures TokensOf(Pieces(text, 0)) == ChunksTokens(chunks, 0)
      ensures DiagnosticsOf(Pieces(text, 0)) == ChunksProblems(chunks, 0)
    {
      ChunksFound(text, 0, chunks);
    }
    assert tokens[..|tokens| - 1] == TokensOf(Pieces(text, 0));
  }

  lemma {:induction false} NoEarlyEnd(text: string, i: nat)
    requires i <= |text|
    ensures forall t | t in TokensOf(Pieces(text, i)) :: !t.kind.End?
    decreases |text| - i
  {
    if i < |text| {
      var p := PieceAt(text, i);
      NoEarlyEnd(text, p.span.end);
      PieceFirst(p, Pieces(text, p.span.end));
    }
  }

  // --- Quoting ----------------------------------------------------------------

  function ReplaceChar(s: string, c: char, replacement: string): string {
    if s == [] then []
    else (if s[0] == c then replacement else [s[0]]) + ReplaceChar(s[1..], c, replacement)
  }

  /** The printer of string literals: backslashes first, then quotes. */
  function Quoted(s: string): string {
    ['"'] + ReplaceChar(ReplaceChar(s, '\\', ['\\', '\\']), '"', ['\\', '"']) + ['"']
  }

  function Escaped(c: char): string {
    if c == '\\' || c == '"' then ['\\', c] else [c]
  }

  function EscapedAll(s: string): string {
    if s == [] then [] else Escaped(s[0]) + EscapedAll(s[1..])
  }

  lemma {:induction false} ReplaceConcat(a: string, b: string, c: char, replacement: string)
    ensures ReplaceChar(a + b, c, replacement) == ReplaceChar(a, c, replacement) + ReplaceChar(b, c, replacement)
  {
    if a == [] {
      assert a + b == b;
    } else {
      assert (a + b)[1..] == a[1..] + b;
      ReplaceConcat(a[1..], b, c, replacement);
    }
  }

  /** Two replacements one after the other escape every character once. */
  lemma {:induction false} TwoReplacementsEscape(s: string)
    ensures ReplaceChar(ReplaceChar(s, '\\', ['\\', '\\']), '"', ['\\', '"']) == EscapedAll(s)
  {
    if s != [] {
      TwoReplacementsEscape(s[1..]);
      var first := if s[0] == '\\' then ['\\', '\\'] else [s[0]];
      ReplaceConcat(first, ReplaceChar(s[1..], '\\', ['\\', '\\']), '"', ['\\', '"']);
      if s[0] == '\\' {
        assert first[1..] == ['\\'] && first[1..][1..] == [];
        assert ReplaceChar(first, '"', ['\\', '"']) == ['\\', '\\'];
      } else {
        assert first[1..] == [];
        assert ReplaceChar(first, '"', ['\\', '"']) == Escaped(s[0]);
      }
    }
  }

  predicate HasLineBreak(s: string) {
    '\n' in s || '\r' in s
  }

  /** Scanning an escaped text gives the text back, and stops early only at a line break. */
  lemma {:induction false} ScanInvertsEscape(text: string, i: nat, value: string, rest: string)
    requires i <= |text| && text[i..] == EscapedAll(rest) + ['"']
    ensures !HasLineBreak(rest) ==> ScanString(text, i, value, []) == Scanned(value + rest, |text|, true, [])
    ensures HasLineBreak(rest) ==> !ScanString(text, i, value, []).terminated
    decreases |rest|
  {
    assert |text[i..]| >= 1 && text[i] == text[i..][0];
    if rest == [] {
      assert text[i..] == ['"'];
    } else {
      var c := rest[0];
      var more := EscapedAll(rest[1..]) + ['"'];
      assert text[i..] == Escaped(c) + more;
      assert value + rest == value + [c] + rest[1..];
      assert HasLineBreak(rest) <==> c == '\n' || c == '\r' || HasLineBreak(rest[1..]);
      if c == '\\' || c == '"' {
        assert text[i + 1] == text[i..][1] == c;
        assert text[i + 2..] == text[i..][2..] == more;
        ScanInvertsEscape(text, i + 2, value + [c], rest[1..]);
      } else if c != '\n' && c != '\r' {
        assert text[i + 1..] == text[i..][1..] == more;
        ScanInvertsEscape(text, i + 1, value + [c], rest[1..]);
      }
    }
  }

  /** Lexing a quoted text gives that text as the only token, without a diagnostic, exactly when it has no line break. */
  lemma QuotedLexesBack(s: string)
    ensures !HasLineBreak(s) <==>
            && TokensOf(Pieces(Quoted(s), 0)) == [Token(String(s), Span(0, |Quoted(s)|))]
            && DiagnosticsOf(Pieces(Quoted(s), 0)) == []
  {
    var text := Quoted(s);
    TwoReplacementsEscape(s);
    assert text[1..] == EscapedAll(s) + ['"'];
    ScanInvertsEscape(text, 1, [], s);
    var p := PieceAt(text, 0);
    assert p == StringPiece(text, 0);
    PieceFirst(p, Pieces(text, p.span.end));
    if !HasLineBreak(s) {
      assert [] + s == s;
      assert Pieces(text, |text|) == [];
    } else {
      assert |DiagnosticsOf(Pieces(text, 0))| >= 1;
    }
  }
}
