/**
 The MySQL tokenizer of project3.

 Source bytes are characters: every byte from 0x80 up behaves alike, so a text and its UTF-8 bytes
 give the same tokens. `Step` reads one token off the front of the remaining text, `Lex` the whole
 text; `Tokenize.dfy` holds the loop over positions.
 */
module Lexer {
  import opened Common

  datatype Kind = Word | QuotedIdent | StringLiteral | Number | HexLiteral | BitLiteral | Punct
                | Comment | ExecOpen | ExecClose | Whitespace

  datatype Lexeme = Lexeme(kind: Kind, text: string)

  /** The front token of a text: its kind and length. */
  datatype Front = Front(kind: Kind, length: nat)

  // ----- Character classes -----------------------------------------------------------------------

  /** `u8::is_ascii_whitespace`, which leaves out the vertical tab. */
  predicate IsSpace(c: char) {
    c == ' ' || c == '\t' || c == '\n' || c == '\U{C}' || c == '\r'
  }

  predicate IsDigit(c: char) {
    '0' <= c <= '9'
  }

  predicate IsHexDigit(c: char) {
    IsDigit(c) || 'a' <= c <= 'f' || 'A' <= c <= 'F'
  }

  predicate IsBit(c: char) {
    c == '0' || c == '1'
  }

  predicate IsIdentStart(c: char) {
    'a' <= c <= 'z' || 'A' <= c <= 'Z' || c == '_' || c == '$' || c >= '\U{80}'
  }

  predicate IsIdentContinue(c: char) {
    IsIdentStart(c) || IsDigit(c)
  }

  predicate IsQuote(c: char) {
    c == '\'' || c == '"' || c == '`'
  }

  predicate NotNewline(c: char) {
    c != '\n'
  }

  /** What after `--` makes it a comment: whitespace or a control character. */
  predicate BreaksDashes(c: char) {
    IsSpace(c) || c < ' '
  }

  predicate IsHexMark(c: char) {
    c == 'x' || c == 'X'
  }

  predicate IsBitMark(c: char) {
    c == 'b' || c == 'B'
  }

  predicate IsExponentMark(c: char) {
    c == 'e' || c == 'E'
  }

  predicate IsSign(c: char) {
    c == '+' || c == '-'
  }

  /** The character at a position exists and satisfies a class. */
  predicate Has(s: string, i: nat, p: char -> bool) {
    i < |s| && p(s[i])
  }

  predicate Is(s: string, i: nat, c: char) {
    i < |s| && s[i] == c
  }

  // ----- Scanning ----------------------------------------------------------------------------------

  /** The end of the longest run of a class from a position. */
  function Span(s: string, i: nat, p: char -> bool): (end: nat)
    requires i <= |s|
    ensures i <= end <= |s|
    ensures forall k :: i <= k < end ==> p(s[k])
    ensures end < |s| ==> !p(s[end])
    decreases |s| - i
  {
    if i < |s| && p(s[i]) then Span(s, i + 1, p) else i
  }

  /** Just past the first `*` `/` at or after a position. */
  function BlockEnd(s: string, i: nat): (end: Option<nat>)
    ensures end.Some? ==> i + 2 <= end.value <= |s|
    decreases |s| - i
  {
    if i + 1 >= |s| then None
    else if s[i] == '*' && s[i + 1] == '/' then Some(i + 2)
    else BlockEnd(s, i + 1)
  }

  /** Just past the closing quote of a literal whose body starts at a position. */
  function QuoteEnd(s: string, i: nat, quote: char): (end: Option<nat>)
    ensures end.Some? ==> i < end.value <= |s|
    decreases |s| - i
  {
    if i >= |s| then None
    else if quote != '`' && s[i] == '\\' then QuoteEnd(s, i + 2, quote)
    else if s[i] == quote then
      if Is(s, i + 1, quote) then QuoteEnd(s, i + 2, quote) else Some(i + 1)
    else QuoteEnd(s, i + 1, quote)
  }

  /** Just past the first single quote at or after a position. */
  function IntroducedEnd(s: string, i: nat): (end: Option<nat>)
    ensures end.Some? ==> i < end.value <= |s|
    decreases |s| - i
  {
    if i >= |s| then None else if s[i] == '\'' then Some(i + 1) else IntroducedEnd(s, i + 1)
  }

  predicate ExponentAt(s: string, i: nat) {
    Has(s, i, IsExponentMark)
    && (Has(s, i + 1, IsDigit) || (Has(s, i + 1, IsSign) && Has(s, i + 2, IsDigit)))
  }

  /** Past the digits and the fraction of a number. */
  function MantissaEnd(s: string): (end: nat)
    ensures end <= |s|
  {
    var whole := Span(s, 0, IsDigit);
    if Is(s, whole, '.') then Span(s, whole + 1, IsDigit) else whole
  }

  function NumberEnd(s: string): (end: nat)
    ensures end <= |s|
  {
    var mantissa := MantissaEnd(s);
    if ExponentAt(s, mantissa) then Span(s, mantissa + (if IsSign(s[mantissa + 1]) then 2 else 1), IsDigit)
    else mantissa
  }

  predicate DashComment(s: string) {
    Is(s, 0, '-') && Is(s, 1, '-') && (|s| == 2 || Has(s, 2, BreaksDashes))
  }

  predicate StartsNumber(s: string) {
    Has(s, 0, IsDigit) || (Is(s, 0, '.') && Has(s, 1, IsDigit))
  }

  function Closing(kind: Kind, end: Option<nat>): Option<Front> {
    if end.Some? then Some(Front(kind, end.value)) else None
  }

  /** The front token of a text that is not empty; `None` when it is unterminated. */
  function Step(s: string, exec: bool): (front: Option<Front>)
    requires s != ""
    ensures front.Some? ==> 0 < front.value.length <= |s|
  {
    if exec && Is(s, 0, '*') && Is(s, 1, '/') then Some(Front(ExecClose, 2))
    else if IsSpace(s[0]) then Some(Front(Whitespace, Span(s, 0, IsSpace)))
    else if s[0] == '#' || DashComment(s) then Some(Front(Comment, Span(s, 0, NotNewline)))
    else if s[0] == '/' && Is(s, 1, '*') then
      if Is(s, 2, '!') then Some(Front(ExecOpen, Span(s, 3, IsDigit)))
      else Closing(Comment, BlockEnd(s, 2))
    else if IsQuote(s[0]) then
      Closing(if s[0] == '`' then QuotedIdent else StringLiteral, QuoteEnd(s, 1, s[0]))
    else if (IsHexMark(s[0]) || IsBitMark(s[0])) && Is(s, 1, '\'') then
      Closing(if IsHexMark(s[0]) then HexLiteral else BitLiteral, IntroducedEnd(s, 2))
    else if s[0] == '0' && Has(s, 1, IsHexMark) then Some(Front(HexLiteral, Span(s, 2, IsHexDigit)))
    else if s[0] == '0' && Has(s, 1, IsBitMark) then Some(Front(BitLiteral, Span(s, 2, IsBit)))
    else if StartsNumber(s) then Some(Front(Number, NumberEnd(s)))
    else if IsIdentStart(s[0]) then Some(Front(Word, Span(s, 0, IsIdentContinue)))
    else Some(Front(Punct, 1))
  }

  /** Whether the text after a token is inside a version-gated comment. */
  function ExecAfter(kind: Kind, exec: bool): bool {
    if kind == ExecOpen then true else if kind == ExecClose then false else exec
  }

  /** Every token of a text, or `None` when a literal, comment or gate is unterminated. */
  function Lex(s: string, exec: bool): Option<seq<Lexeme>>
    decreases |s|
  {
    if s == "" then
      if exec then None else Some([])
    else
      match Step(s, exec)
      case None => None
      case Some(front) =>
        match Lex(s[front.length..], ExecAfter(front.kind, exec))
        case None => None
        case Some(rest) => Some([Lexeme(front.kind, s[..front.length])] + rest)
  }

  /** Where reading stops: at the first token that is not terminated, or at the end. */
  function ReadUpTo(s: string, exec: bool): (at: nat)
    ensures at <= |s|
    decreases |s|
  {
    if s == "" then 0
    else
      match Step(s, exec)
      case None => 0
      case Some(front) => front.length + ReadUpTo(s[front.length..], ExecAfter(front.kind, exec))
  }

  // ----- Maximal munch, stated without the scanner ---------------------------------------------------

  predicate AllIn(s: string, p: char -> bool) {
    forall i :: 0 <= i < |s| ==> p(s[i])
  }

  predicate AllFrom(s: string, i: nat, p: char -> bool) {
    forall k :: i <= k < |s| ==> p(s[k])
  }

  predicate IsLineComment(t: string) {
    (Is(t, 0, '#') || (Is(t, 0, '-') && Is(t, 1, '-') && (|t| > 2 ==> BreaksDashes(t[2]))))
    && AllIn(t, NotNewline)
  }

  predicate IsBlockComment(t: string) {
    Is(t, 0, '/') && Is(t, 1, '*') && !Is(t, 2, '!') && BlockEnd(t, 2) == Some(|t|)
  }

  predicate IsIntroduced(t: string, mark: char -> bool) {
    Has(t, 0, mark) && Is(t, 1, '\'') && IntroducedEnd(t, 2) == Some(|t|)
  }

  predicate IsPrefixed(t: string, mark: char -> bool, digit: char -> bool) {
    Is(t, 0, '0') && Has(t, 1, mark) && AllFrom(t, 2, digit)
  }

  predicate HasExponent(t: string) {
    exists i :: 0 <= i < |t| && IsExponentMark(t[i])
  }

  /** The texts a token of a kind can have. */
  predicate Fits(kind: Kind, t: string) {
    match kind
    case Whitespace => t != "" && AllIn(t, IsSpace)
    case Comment => IsLineComment(t) || IsBlockComment(t)
    case ExecOpen => |t| >= 3 && t[..3] == "/*!" && AllFrom(t, 3, IsDigit)
    case ExecClose => t == "*/"
    case QuotedIdent => Is(t, 0, '`') && QuoteEnd(t, 1, '`') == Some(|t|)
    case StringLiteral => t != "" && IsQuote(t[0]) && t[0] != '`' && QuoteEnd(t, 1, t[0]) == Some(|t|)
    case HexLiteral => IsIntroduced(t, IsHexMark) || IsPrefixed(t, IsHexMark, IsHexDigit)
    case BitLiteral => IsIntroduced(t, IsBitMark) || IsPrefixed(t, IsBitMark, IsBit)
    case Number => StartsNumber(t) && NumberEnd(t) == |t|
    case Word => t != "" && IsIdentStart(t[0]) && AllIn(t, IsIdentContinue)
    case Punct => |t| == 1 && !IsSpace(t[0]) && t[0] != '#' && !IsQuote(t[0]) && !IsIdentContinue(t[0])
  }

  /** The texts that may come after a token without being drawn into it or changing it. */
  predicate MayFollow(kind: Kind, t: string, rest: string, exec: bool) {
    match kind
    case Whitespace => !Has(rest, 0, IsSpace)
    case Comment => IsBlockComment(t) || !Has(rest, 0, NotNewline)
    case ExecOpen => !Has(rest, 0, IsDigit)
    case ExecClose => exec
    case QuotedIdent => !Is(rest, 0, '`')
    case StringLiteral => t != "" ==> !Is(rest, 0, t[0])
    case HexLiteral => Is(t, 0, '0') ==> !Has(rest, 0, IsHexDigit)
    case BitLiteral => Is(t, 0, '0') ==> !Has(rest, 0, IsBit)
    case Number =>
      && !Has(rest, 0, IsDigit)
      && (!HasExponent(t) ==> !ExponentAt(rest, 0))
      && (!HasExponent(t) && '.' !in t ==> !Is(rest, 0, '.'))
      && (t == "0" ==> !Has(rest, 0, IsHexMark) && !Has(rest, 0, IsBitMark))
    case Word =>
      && !Has(rest, 0, IsIdentContinue)
      && (|t| == 1 && (IsHexMark(t[0]) || IsBitMark(t[0])) ==> !Is(rest, 0, '\''))
    case Punct =>
      && (t == "-" ==> !DashComment(t + rest))
      && (t == "/" ==> !Is(rest, 0, '*'))
      && (t == "." ==> !Has(rest, 0, IsDigit))
      && (t == "*" && exec ==> !Is(rest, 0, '/'))
  }

  /** A text cut into tokens, each of a possible form and each followed by what may follow it. */
  ghost predicate Segmentation(s: string, tokens: seq<Lexeme>, exec: bool)
    decreases |tokens|
  {
    if tokens == [] then s == "" && !exec
    else
      var token := tokens[0];
      && token.text <= s
      && Fits(token.kind, token.text)
      && MayFollow(token.kind, token.text, s[|token.text|..], exec)
      && Segmentation(s[|token.text|..], tokens[1..], ExecAfter(token.kind, exec))
  }
}
