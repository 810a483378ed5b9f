/** The byte lexer: each scan takes one token off the front, and repeated scans cut the source into pieces
    without losing a byte. */
module Lexer {
  import opened Options

  type Byte = b: int | 0 <= b < 256

  type Source = seq<Byte>

  /** Positions are 32-bit and wrap. */
  const U32 := 0x1_0000_0000

  function Plus(p: nat, k: nat): nat { if p + k < U32 then p + k else (p + k) % U32 }

  datatype TokenKind =
    | EndOfFile | Keyword | Identifier | NumericConstant | StringLiteral
    | Punctuator | Preprocessor | Comment | WhiteSpace

  datatype Token = Token(kind: TokenKind, start: nat, end: nat, data: nat)

  predicate Within(c: Byte, lo: char, hi: char) { lo as int <= c <= hi as int }

  predicate IsAlpha(c: Byte) { Within(c, 'a', 'z') || Within(c, 'A', 'Z') }

  predicate IsDigit(c: Byte) { Within(c, '0', '9') }

  predicate IsOctal(c: Byte) { Within(c, '0', '7') }

  predicate IsHex(c: Byte) { IsDigit(c) || Within(c, 'a', 'f') || Within(c, 'A', 'F') }

  predicate IsAlnum(c: Byte) { IsAlpha(c) || IsDigit(c) || c == '_' as int }

  predicate IsWhite(c: Byte) {
    c == ' ' as int || c == '\t' as int || c == '\r' as int || c == '\n' as int || c == 11 || c == 12
  }

  predicate NotNewline(c: Byte) { c != '\n' as int }

  predicate IsSuffix(c: Byte) {
    c == 'u' as int || c == 'U' as int || c == 'l' as int || c == 'L' as int || c == 'f' as int || c == 'F' as int
  }

  predicate IsQuote(c: Byte) { c == '"' as int || c == '\'' as int }

  predicate IsPunctuation(c: Byte) {
    c in {'[' as int, ']' as int, '(' as int, ')' as int, '{' as int, '}' as int, '.' as int, '&' as int, '*' as int,
          '+' as int, '-' as int, '~' as int, '!' as int, '/' as int, '%' as int, '<' as int, '>' as int, '^' as int,
          '|' as int, '?' as int, ':' as int, ';' as int, '=' as int, ',' as int, '#' as int}
  }

  predicate At(source: Source, i: nat, c: char) { i < |source| && source[i] == c as int }

  // ---- what a token is, said without scanning ----

  /** source[p..e] is the longest run of bytes in the class. */
  ghost predicate MaximalRun(source: Source, p: nat, e: nat, f: Byte -> bool) {
    p <= e <= |source| && (forall i :: p <= i < e ==> f(source[i])) && (e < |source| ==> !f(source[e]))
  }

  ghost function RunEnd(source: Source, p: nat, f: Byte -> bool): (e: nat)
    requires p <= |source|
    ensures MaximalRun(source, p, e, f)
    decreases |source| - p
  {
    if p < |source| && f(source[p]) then RunEnd(source, p + 1, f) else p
  }

  lemma RunUnique(source: Source, p: nat, e: nat, f: Byte -> bool)
    requires MaximalRun(source, p, e, f)
    ensures e == RunEnd(source, p, f)
  {
  }

  /** The byte at k is escaped: the backslashes right before it, inside the literal, pair up to all but one. */
  ghost predicate Escaped(source: Source, start: nat, k: nat)
    requires k <= |source|
  {
    k > start + 1 && source[k - 1] == '\\' as int && !Escaped(source, start, k - 1)
  }

  ghost predicate Closes(source: Source, start: nat, k: nat) {
    start < k < |source| && source[k] == source[start] && !Escaped(source, start, k)
  }

  /** A quoted literal ends with the first unescaped quote like its own, or with the input. */
  ghost predicate LiteralEnds(source: Source, start: nat, e: nat) {
    || (e > 0 && Closes(source, start, e - 1) && forall k: nat :: k < e - 1 ==> !Closes(source, start, k))
    || (e == |source| && forall k: nat :: k < e ==> !Closes(source, start, k))
  }

  ghost predicate ClosesComment(source: Source, start: nat, k: nat) {
    start + 2 <= k && At(source, k, '*') && At(source, k + 1, '/')
  }

  /** A block comment ends with the first star-slash after its opening, or with the input. */
  ghost predicate CommentEnds(source: Source, start: nat, e: nat) {
    || (e >= 2 && ClosesComment(source, start, e - 2)
        && forall k: nat :: k < e - 2 ==> !ClosesComment(source, start, k))
    || (e == |source| && forall k: nat :: k < e ==> !ClosesComment(source, start, k))
  }

  /** What may follow the digits of a decimal constant: an exponent or one suffix letter. */
  ghost function TailEnd(source: Source, p: nat): (e: nat)
    requires p <= |source|
    ensures p <= e <= |source|
  {
    if At(source, p, 'e') || At(source, p, 'E') then
      RunEnd(source, if At(source, p + 1, '+') || At(source, p + 1, '-') then p + 2 else p + 1, IsDigit)
    else if p < |source| && IsSuffix(source[p]) then p + 1
    else p
  }

  /** Digits, a fraction unless there has been a point, and the tail. */
  ghost function DecimalEnd(source: Source, p: nat, hasDecimal: bool): (e: nat)
    requires p <= |source|
    ensures p <= e <= |source|
  {
    var q := RunEnd(source, p, IsDigit);
    if !hasDecimal && At(source, q, '.') then TailEnd(source, RunEnd(source, q + 1, IsDigit)) else TailEnd(source, q)
  }

  ghost function NumericEnd(source: Source, p: nat): (e: nat)
    requires p < |source| && IsDigit(source[p])
    ensures p < e <= |source|
  {
    if At(source, p, '0') && (At(source, p + 1, 'x') || At(source, p + 1, 'X')) then RunEnd(source, p + 2, IsHex)
    else if At(source, p, '0') && p + 1 < |source| && IsOctal(source[p + 1]) then RunEnd(source, p + 1, IsDigit)
    else DecimalEnd(source, p + 1, false)
  }

  /** The two-byte punctuators. */
  predicate IsPair(c: int, next: int) {
    || (c == next && (c == '+' as int || c == '-' as int || c == '&' as int || c == '|' as int || c == '#' as int))
    || (next == '=' as int
        && (c == '<' as int || c == '>' as int || c == '=' as int || c == '!' as int || c == '*' as int
            || c == '/' as int || c == '%' as int || c == '+' as int || c == '-' as int || c == '&' as int
            || c == '^' as int || c == '|' as int))
  }

  /** The byte that turns two equal bytes into a three-byte punctuator, as far as the lexer knows. */
  predicate Triples(c: int, next: int, third: int) {
    || (c == '.' as int && next == c && third == c)
    || ((c == '<' as int || c == '>' as int) && next == c && third == '=' as int)
  }

  /** The third byte is looked for one place too far, and at a wrapping position. */
  ghost predicate TakesThree(source: Source, p: nat)
    requires p < |source| < U32
  {
    var far := Plus(p, 3);
    p + 1 < |source| && far < |source| && Triples(source[p], source[p + 1], source[far])
  }

  ghost function PunctuatorLength(source: Source, p: nat): (n: nat)
    requires p < |source| < U32
    ensures 1 <= n <= 3
  {
    if !IsPunctuation(source[p]) then 1
    else if TakesThree(source, p) then 3
    else if p + 1 < |source| && IsPair(source[p], source[p + 1]) then 2
    else 1
  }

  /** What the source has at t.start is the token t, all of it and no more. */
  ghost predicate IsToken(source: Source, t: Token)
    requires |source| < U32
  {
    t.data == 0 && t.start <= |source| &&
    if t.start == |source| then t.kind == EndOfFile && t.end == t.start
    else
      var c := source[t.start];
      if IsWhite(c) then t.kind == WhiteSpace && MaximalRun(source, t.start, t.end, IsWhite)
      else if c == '/' as int && At(source, t.start + 1, '/') then
        t.kind == Comment && MaximalRun(source, t.start + 2, t.end, NotNewline)
      else if c == '/' as int && At(source, t.start + 1, '*') then
        t.kind == Comment && CommentEnds(source, t.start, t.end)
      else if c == '#' as int then t.kind == Preprocessor && MaximalRun(source, t.start, t.end, NotNewline)
      else if IsQuote(c) then t.kind == StringLiteral && LiteralEnds(source, t.start, t.end)
      else if IsAlpha(c) || c == '_' as int then t.kind == Identifier && MaximalRun(source, t.start, t.end, IsAlnum)
      else if IsDigit(c) then t.kind == NumericConstant && t.end == NumericEnd(source, t.start)
      else t.kind == Punctuator && t.end == Plus(t.start, PunctuatorLength(source, t.start))
  }

  // ---- the bytes and punctuators of C ----

  /** The classes of bytes, against sections 6.4, 6.4.4.1 and 6.4.6 of ISO/IEC 9899:1999. */
  lemma ByteClasses(b: Byte)
    ensures var c := b as char;
            && (IsWhite(b) <==> c in " \t\n\r\U{0B}\U{0C}")
            && (IsDigit(b) <==> c in "0123456789")
            && (IsOctal(b) <==> c in "01234567")
            && (IsHex(b) <==> c in "0123456789abcdefABCDEF")
            && (IsSuffix(b) <==> c in "uUlLfF")
            && (IsQuote(b) <==> c in "'\"")
  {
    hide IsPunctuation, IsAlpha;
  }

  lemma PunctuationBytes(b: Byte)
    ensures IsPunctuation(b) <==> b as char in "[](){}.&*+-~!/%<>^|?:;=,#"
  {
  }

  /** The bytes of identifiers, against section 6.4.2.1. */
  lemma IdentifierBytes(b: Byte)
    ensures IsAlpha(b) <==> b as char in "abcdefghijklmnopqrstuvwxyz" || b as char in "ABCDEFGHIJKLMNOPQRSTUVWXYZ"
    ensures IsAlnum(b) <==> IsAlpha(b) || b as char in "_0123456789"
  {
  }

  /** The two-byte punctuators of section 6.4.6 of ISO/IEC 9899:1999, and those that the lexer takes for two. */
  const TWO_BYTES: set<(char, char)> := {
    ('-', '>'), ('+', '+'), ('-', '-'), ('<', '<'), ('>', '>'), ('<', '='), ('>', '='), ('=', '='), ('!', '='),
    ('&', '&'), ('|', '|'), ('*', '='), ('/', '='), ('%', '='), ('+', '='), ('-', '='), ('&', '='), ('^', '='),
    ('|', '='), ('#', '#'), ('<', ':'), (':', '>'), ('<', '%'), ('%', '>'), ('%', ':')}

  const MISSED: set<(char, char)> := {
    ('-', '>'), ('<', '<'), ('>', '>'), ('<', ':'), (':', '>'), ('<', '%'), ('%', '>'), ('%', ':')}

  /** Exactly the two-byte punctuators of C are taken as such, but for the missed ones. */
  lemma PairsOfC(c: Byte, next: Byte)
    ensures IsPair(c, next) <==> (c as char, next as char) in TWO_BYTES - MISSED
  {
  }

  /** The same for three bytes: what the lexer has is what C has, but it looks in the wrong place. */
  lemma TriplesOfC(c: Byte, next: Byte, third: Byte)
    ensures Triples(c, next, third) <==>
            (c as char, next as char, third as char) in {('.', '.', '.'), ('<', '<', '='), ('>', '>', '=')}
  {
  }

  /** How long a punctuator is: three bytes if the byte after the next two makes it one of three, else two if the
      first two are a punctuator of C that is not missed. */
  lemma PunctuatorMunch(source: Source, p: nat)
    requires p < |source| < U32
    ensures var n, more := PunctuatorLength(source, p), p + 1 < |source|;
            && (n == 3 <==>
                  && more && Plus(p, 3) < |source|
                  && (source[p] as char, source[p + 1] as char, source[Plus(p, 3)] as char)
                     in {('.', '.', '.'), ('<', '<', '='), ('>', '>', '=')})
            && (n == 2 <==> n != 3 && more && (source[p] as char, source[p + 1] as char) in TWO_BYTES - MISSED)
  {
    hide IsPunctuation, Triples, IsPair;
    if p + 1 < |source| {
      PairsOfC(source[p], source[p + 1]);
      PairPunctuation(source[p], source[p + 1]);
      if Plus(p, 3) < |source| {
        TriplesOfC(source[p], source[p + 1], source[Plus(p, 3)]);
        if TakesThree(source, p) { TriplesPunctuation(source[p], source[p + 1], source[Plus(p, 3)]); }
      }
    }
  }

  lemma PairPunctuation(c: Byte, next: Byte)
    ensures IsPair(c, next) ==> IsPunctuation(c)
  {
  }

  /** What starts a token of each kind. */
  lemma KindByStart(source: Source, t: Token)
    requires |source| < U32 && IsToken(source, t)
    ensures t.kind.EndOfFile? <==> t.start == |source|
    ensures !t.kind.Keyword?
    ensures t.start < |source| ==>
              var c := source[t.start] as char;
              var twice := t.start + 1 < |source| && source[t.start + 1] as char in "/*";
              && (t.kind.WhiteSpace? <==> c in " \t\n\r\U{0B}\U{0C}")
              && (t.kind.Comment? <==> c == '/' && twice)
              && (t.kind.Preprocessor? <==> c == '#')
              && (t.kind.StringLiteral? <==> c in "'\"")
              && (t.kind.NumericConstant? <==> c in "0123456789")
              && (t.kind.Identifier? <==> IsAlpha(source[t.start]) || c == '_')
  {
    hide MaximalRun, LiteralEnds, CommentEnds, NumericEnd, PunctuatorLength, IsHex, IsOctal, IsSuffix, IsPunctuation;
    if t.start < |source| {
      ByteClasses(source[t.start]);
      LettersApart(source[t.start]);
    }
  }

  lemma LettersApart(b: Byte)
    ensures IsAlpha(b) ==> !IsWhite(b) && !IsQuote(b) && !IsDigit(b) && b as char !in "/#_"
  {
  }

  // ---- numbers ----

  ghost predicate Digits(source: Source, p: nat, e: nat) {
    p <= e <= |source| && forall i :: p <= i < e ==> IsDigit(source[i])
  }

  /** An exponent, its digits and its sign optional, or one suffix letter, or nothing. */
  ghost predicate Tail(source: Source, p: nat, e: nat) {
    || e == p
    || (p + 1 == e <= |source| && IsSuffix(source[p]))
    || ((At(source, p, 'e') || At(source, p, 'E')) &&
        (Digits(source, p + 1, e) || ((At(source, p + 1, '+') || At(source, p + 1, '-')) && Digits(source, p + 2, e))))
  }

  /** Digits, a point and more digits or neither, and a tail. */
  ghost predicate Decimal(source: Source, p: nat, e: nat) {
    exists i: nat, j: nat :: DecimalAt(source, p, i, j, e)
  }

  ghost predicate DecimalAt(source: Source, p: nat, i: nat, j: nat, e: nat) {
    Digits(source, p, i) && (j == i || (At(source, i, '.') && Digits(source, i + 1, j))) && Tail(source, j, e)
  }

  /** What the lexer takes for a number: after 0x hexadecimal digits, after 0 and an octal digit digits only, and
      else a decimal constant. */
  ghost predicate Number(source: Source, p: nat, e: nat) {
    if At(source, p, '0') && (At(source, p + 1, 'x') || At(source, p + 1, 'X')) then
      p + 2 <= e <= |source| && forall i :: p + 2 <= i < e ==> IsHex(source[i])
    else if At(source, p, '0') && p + 1 < |source| && IsOctal(source[p + 1]) then Digits(source, p, e)
    else Decimal(source, p, e)
  }

  /** It takes the longest. */
  lemma NumberMunch(source: Source, p: nat, e: nat)
    requires p < |source| && IsDigit(source[p])
    ensures Number(source, p, NumericEnd(source, p))
    ensures Number(source, p, e) ==> e <= NumericEnd(source, p)
  {
    hide TailEnd, Tail, DecimalEnd, Decimal;
    if At(source, p, '0') && (At(source, p + 1, 'x') || At(source, p + 1, 'X')) {
      RunLongest(source, p + 2, e, IsHex);
    } else if At(source, p, '0') && p + 1 < |source| && IsOctal(source[p + 1]) {
      RunLongest(source, p + 1, e, IsDigit);
    } else {
      DecimalDigit(source, p, false);
      DecimalMunch(source, p, e);
    }
  }

  lemma RunLongest(source: Source, p: nat, e: nat, f: Byte -> bool)
    requires p <= |source|
    ensures p <= e <= |source| && (forall i :: p <= i < e ==> f(source[i])) ==> e <= RunEnd(source, p, f)
  {
  }

  lemma DecimalMunch(source: Source, p: nat, e: nat)
    requires p < |source| && IsDigit(source[p])
    ensures Decimal(source, p, DecimalEnd(source, p, false))
    ensures Decimal(source, p, e) ==> e <= DecimalEnd(source, p, false)
  {
    hide TailEnd, Tail;
    var q := RunEnd(source, p, IsDigit);
    var r := if At(source, q, '.') then RunEnd(source, q + 1, IsDigit) else q;
    TailMunch(source, r, e);
    assert DecimalAt(source, p, q, r, TailEnd(source, r));
    if Decimal(source, p, e) {
      var i: nat, j: nat :| DecimalAt(source, p, i, j, e);
      RunLongest(source, p, i, IsDigit);
      if i < q {
        ShortTail(source, j, e);
      } else if j > i {
        RunLongest(source, i + 1, j, IsDigit);
        if j < r { ShortTail(source, j, e); }
      } else if At(source, q, '.') {
        PointTail(source, q, e);
      }
    }
  }

  lemma TailMunch(source: Source, p: nat, e: nat)
    requires p <= |source|
    ensures Tail(source, p, TailEnd(source, p))
    ensures Tail(source, p, e) ==> e <= TailEnd(source, p)
  {
    if p + 1 <= |source| { RunLongest(source, p + 1, e, IsDigit); }
    if p + 2 <= |source| { RunLongest(source, p + 2, e, IsDigit); }
  }

  /** Where a digit follows there is no tail. */
  lemma ShortTail(source: Source, p: nat, e: nat)
    requires p < |source| && IsDigit(source[p]) && Tail(source, p, e)
    ensures e == p
  {
  }

  lemma PointTail(source: Source, p: nat, e: nat)
    requires At(source, p, '.') && Tail(source, p, e)
    ensures e == p
  {
  }

  // ---- progress ----

  /** A source of exactly 2^32 - 1 bytes whose last two, with its very first, look like a three-byte punctuator. */
  ghost predicate WrapsAround(source: Source) {
    var n := |source|;
    n == U32 - 1 && Triples(source[n - 2], source[n - 1], source[0])
  }

  lemma TriplesPunctuation(c: Byte, next: int, third: int)
    requires Triples(c, next, third)
    ensures IsPunctuation(c) && !IsWhite(c) && c != '/' as int && c != '#' as int && !IsQuote(c) && !IsAlpha(c)
    ensures c != '_' as int && !IsDigit(c)
  {
  }

  lemma ThreeFits(source: Source, p: nat)
    requires p < |source| < U32
    ensures TakesThree(source, p) ==> p + 3 < |source| || (WrapsAround(source) && p == |source| - 2)
    ensures WrapsAround(source) && p == |source| - 2 ==> TakesThree(source, p)
  {
  }

  /** Every token before the end takes at least one byte and none past the end, but for the one that starts
      two bytes before the end of a source that wraps around. */
  lemma TokenProgress(source: Source, t: Token)
    requires |source| < U32 && IsToken(source, t) && t.start < |source|
    ensures t.start < t.end <= |source| <==> !(WrapsAround(source) && t.start == |source| - 2)
  {
    hide WrapsAround, TakesThree, IsPunctuation, Triples;
    ThreeFits(source, t.start);
    var c := source[t.start];
    if WrapsAround(source) && t.start == |source| - 2 {
      WrapsAtPunctuation(source);
    } else if IsWhite(c) {
    } else if c == '/' as int && At(source, t.start + 1, '/') {
    } else if c == '/' as int && At(source, t.start + 1, '*') {
    } else if c == '#' as int {
    } else if IsQuote(c) {
    } else if IsAlpha(c) || c == '_' as int {
    } else if IsDigit(c) {
    } else {
    }
  }

  lemma WrapsAtPunctuation(source: Source)
    requires WrapsAround(source)
    ensures forall t: Token :: t.start == |source| - 2 && IsToken(source, t) ==> t.end == 0
  {
    TriplesPunctuation(source[|source| - 2], source[|source| - 1], source[0]);
  }

  lemma TokenWraps(source: Source, t: Token)
    requires |source| < U32 && IsToken(source, t) && t.start < |source|
    ensures t.end <= |source|
    ensures t.start < t.end || (WrapsAround(source) && t.start == |source| - 2)
  {
    TokenProgress(source, t);
    if WrapsAround(source) { WrapsAtPunctuation(source); }
  }

  lemma WhiteSpaceIsWhite(source: Source, t: Token)
    requires |source| < U32 && IsToken(source, t) && t.kind == WhiteSpace
    ensures t.start < |source| && t.start < t.end <= |source| && forall i :: t.start <= i < t.end ==> IsWhite(source[i])
  {
  }

  /** What a token is leaves no choice. */
  lemma TokenUnique(source: Source, t: Token, t': Token)
    requires |source| < U32 && IsToken(source, t) && IsToken(source, t') && t.start == t'.start
    ensures t == t'
  {
    hide WrapsAround, TakesThree, IsPunctuation, Triples, NumericEnd, PunctuatorLength, IsWhite, IsAlpha;
    if t.start < |source| {
      var p := t.start;
      var c := source[p];
      if IsWhite(c) {
        RunUnique(source, p, t.end, IsWhite);
        RunUnique(source, p, t'.end, IsWhite);
      } else if c == '/' as int && At(source, p + 1, '/') {
        RunUnique(source, p + 2, t.end, NotNewline);
        RunUnique(source, p + 2, t'.end, NotNewline);
      } else if c == '/' as int && At(source, p + 1, '*') {
        CommentEndUnique(source, p, t.end, t'.end);
      } else if c == '#' as int {
        RunUnique(source, p, t.end, NotNewline);
        RunUnique(source, p, t'.end, NotNewline);
      } else if IsQuote(c) {
        LiteralEndUnique(source, p, t.end, t'.end);
      } else if IsAlpha(c) || c == '_' as int {
        RunUnique(source, p, t.end, IsAlnum);
        RunUnique(source, p, t'.end, IsAlnum);
      }
    }
  }

  lemma LiteralEndUnique(source: Source, start: nat, e: nat, e': nat)
    requires LiteralEnds(source, start, e) && LiteralEnds(source, start, e')
    ensures e == e'
  {
    hide Escaped;
  }

  lemma CommentEndUnique(source: Source, start: nat, e: nat, e': nat)
    requires CommentEnds(source, start, e) && CommentEnds(source, start, e')
    ensures e == e'
  {
  }

  // ---- runs ----

  /** The tokens of source from p on: each starts where the one before it ends, the last is the end of input. */
  ghost predicate Tokens(source: Source, p: nat, ts: seq<Token>)
    requires |source| < U32
    decreases |ts|
  {
    && ts != [] && IsToken(source, ts[0]) && ts[0].start == p
    && if p == |source| then |ts| == 1 else Tokens(source, ts[0].end, ts[1..])
  }

  /** Tokens from p up to q, and not yet at the end of input. */
  ghost predicate Unfinished(source: Source, p: nat, ts: seq<Token>, q: nat)
    requires |source| < U32
    decreases |ts|
  {
    if ts == [] then p == q
    else p != |source| && IsToken(source, ts[0]) && ts[0].start == p && Unfinished(source, ts[0].end, ts[1..], q)
  }

  lemma NothingScanned(source: Source)
    requires |source| < U32
    ensures Unfinished(source, 0, [], 0)
  {
  }

  lemma {:induction false} UnfinishedMore(source: Source, p: nat, ts: seq<Token>, t: Token)
    requires |source| < U32 && Unfinished(source, p, ts, t.start) && IsToken(source, t)
    ensures t.start == |source| ==> Tokens(source, p, ts + [t])
    ensures t.start != |source| ==> Unfinished(source, p, ts + [t], t.end)
    decreases |ts|
  {
    hide IsToken;
    if ts == [] {
      assert ts + [t] == [t] && [t][1..] == [];
    } else {
      UnfinishedMore(source, ts[0].end, ts[1..], t);
      assert (ts + [t])[1..] == ts[1..] + [t];
    }
  }

  function TokenText(source: Source, t: Token): Source
    requires t.start <= t.end <= |source|
  {
    source[t.start..t.end]
  }

  /** The texts of the tokens that lie inside the source, put together. */
  ghost function Texts(source: Source, ts: seq<Token>): Source {
    if ts == [] then []
    else (if ts[0].start <= ts[0].end <= |source| then TokenText(source, ts[0]) else []) + Texts(source, ts[1..])
  }

  /** No token starts where a source that wraps around sends the lexer back to its start. */
  ghost predicate Onward(source: Source, ts: seq<Token>) {
    forall i :: 0 <= i < |ts| && WrapsAround(source) ==> ts[i].start != |source| - 2
  }

  /** The pieces put together are the source: nothing lost, nothing twice. */
  lemma {:induction false} Lossless(source: Source, p: nat, ts: seq<Token>)
    requires |source| < U32 && p <= |source| && Tokens(source, p, ts) && Onward(source, ts)
    ensures Texts(source, ts) == source[p..]
    decreases |ts|
  {
    hide IsToken, WrapsAround;
    if p == |source| {
      assert Texts(source, ts[1..]) == [];
      EndOfInput(source, ts[0]);
    } else {
      assert WrapsAround(source) ==> ts[0].start != |source| - 2;
      TokenProgress(source, ts[0]);
      assert forall i :: 0 <= i < |ts| - 1 ==> ts[1..][i] == ts[i + 1];
      Lossless(source, ts[0].end, ts[1..]);
      assert source[p..] == source[p..ts[0].end] + source[ts[0].end..];
    }
  }

  lemma EndOfInput(source: Source, t: Token)
    requires |source| < U32 && IsToken(source, t) && t.start == |source|
    ensures t.end == |source|
  {
  }

  /** A source has one list of tokens. */
  lemma {:induction false} TokensUnique(source: Source, p: nat, ts: seq<Token>, ts': seq<Token>)
    requires |source| < U32 && Tokens(source, p, ts) && Tokens(source, p, ts')
    ensures ts == ts'
    decreases |ts|
  {
    hide IsToken;
    TokenUnique(source, ts[0], ts'[0]);
    assert ts == [ts[0]] + ts[1..] && ts' == [ts'[0]] + ts'[1..];
    if p != |source| {
      TokensUnique(source, ts[0].end, ts[1..], ts'[1..]);
    }
  }

  /** Scanning comes to the end of input: it never gets to the place where the source wraps around. */
  ghost predicate Finishes(source: Source)
    requires |source| < U32
  {
    WrapsAround(source) ==> forall us: seq<Token> :: !LeadsAround(source, us)
  }

  /** These tokens lead to the place where the source wraps around. */
  ghost predicate LeadsAround(source: Source, us: seq<Token>)
    requires |source| < U32 && WrapsAround(source)
  {
    Unfinished(source, 0, us, |source| - 2)
  }

  lemma {:induction false} UnfinishedPart(source: Source, p: nat, ts: seq<Token>, i: nat)
    requires |source| < U32 && Tokens(source, p, ts) && i < |ts|
    ensures Unfinished(source, p, ts[..i], ts[i].start)
    decreases i
  {
    hide IsToken;
    if i > 0 {
      UnfinishedPart(source, ts[0].end, ts[1..], i - 1);
      assert ts[1..][..i - 1] == ts[..i][1..];
    }
  }

  lemma FinishesOnward(source: Source, ts: seq<Token>)
    requires |source| < U32 && Tokens(source, 0, ts) && Finishes(source)
    ensures Onward(source, ts)
  {
    hide IsToken, WrapsAround, Unfinished, Tokens;
    forall i | 0 <= i < |ts| && WrapsAround(source) ensures ts[i].start != |source| - 2 {
      UnfinishedPart(source, 0, ts, i);
      assert !LeadsAround(source, ts[..i]);
    }
  }

  lemma {:induction false} Along(source: Source, p: nat, us: seq<Token>, q: nat, ts: seq<Token>)
    requires |source| < U32 && Unfinished(source, p, us, q) && Tokens(source, p, ts)
    ensures |us| < |ts| && Tokens(source, q, ts[|us|..])
    decreases |us|
  {
    hide IsToken;
    if us == [] {
      assert ts[0..] == ts;
    } else {
      TokenUnique(source, us[0], ts[0]);
      Along(source, us[0].end, us[1..], q, ts[1..]);
      assert ts[1..][|us| - 1..] == ts[|us|..];
    }
  }

  /** Where it does get there, it goes round for ever: the source has no list of tokens. */
  lemma NeverFinishes(source: Source, ts: seq<Token>)
    requires |source| < U32 && !Finishes(source)
    ensures !Tokens(source, 0, ts)
  {
    hide IsToken, Unfinished;
    var us: seq<Token> :| LeadsAround(source, us);
    if Tokens(source, 0, ts) {
      Along(source, 0, us, |source| - 2, ts);
      var rest := ts[|us|..];
      WrapsAtPunctuation(source);
      assert Tokens(source, 0, rest[1..]);
      TokensUnique(source, 0, ts, rest[1..]);
    }
  }

  // ---- the scanner ----

  /** Reading the digits of an octal prefix first changes nothing. */
  lemma OctalThenDigits(source: Source, p: nat, q: nat)
    requires MaximalRun(source, p, q, IsOctal)
    ensures RunEnd(source, q, IsDigit) == RunEnd(source, p, IsDigit)
    ensures !At(source, q, '8') && !At(source, q, '9') ==> RunEnd(source, q, IsDigit) == q
  {
    var e := RunEnd(source, q, IsDigit);
    assert MaximalRun(source, p, e, IsDigit) by {
      forall i | p <= i < e ensures IsDigit(source[i]) {
        assert i < q ==> IsOctal(source[i]);
      }
    }
    RunUnique(source, p, e, IsDigit);
  }

  lemma DecimalDigit(source: Source, p: nat, point: bool)
    requires p < |source| && IsDigit(source[p])
    ensures DecimalEnd(source, p, point) == DecimalEnd(source, p + 1, point)
  {
  }

  lemma DecimalPoint(source: Source, p: nat)
    requires At(source, p, '.')
    ensures DecimalEnd(source, p, false) == DecimalEnd(source, p + 1, true)
  {
  }

  lemma DecimalTail(source: Source, p: nat, point: bool)
    requires p <= |source| && (p < |source| ==> !IsDigit(source[p]) && (source[p] != '.' as int || point))
    ensures DecimalEnd(source, p, point) == TailEnd(source, p)
  {
  }

  class Lexer {
    const source: Source
    var position: nat

    ghost predicate Valid()
      reads this
    {
      position <= |source| < U32
    }

    constructor (text: Source)
      requires |text| < U32
      ensures source == text && position == 0 && Valid()
    {
      source, position := text, 0;
    }

    function CurrentByte(): Option<Byte>
      reads this
    {
      if position < |source| then Some(source[position]) else None
    }

    function PeekByte(offset: nat): Option<Byte>
      reads this
    {
      var i := Plus(position, offset);
      if i < |source| then Some(source[i]) else None
    }

    method Advance()
      modifies this
      ensures position == Plus(old(position), 1)
    {
      position := Plus(position, 1);
    }

    /** Advance while the byte is in the class. */
    method ReadRun(f: Byte -> bool)
      requires Valid()
      modifies this
      ensures Valid() && MaximalRun(source, old(position), position, f)
    {
      while CurrentByte().Some? && f(CurrentByte().value)
        invariant Valid() && old(position) <= position
        invariant forall i :: old(position) <= i < position ==> f(source[i])
        decreases |source| - position
      {
        Advance();
      }
    }

    method SkipWhitespace() returns (t: Token)
      requires Valid() && position < |source| && IsWhite(source[position])
      modifies this
      ensures IsToken(source, t) && t.start == old(position) && t.end == position
    {
      var start := position;
      ReadRun(IsWhite);
      t := Token(WhiteSpace, start, position, 0);
    }

    method ReadIdentifier() returns (t: Token)
      requires Valid() && position < |source| && (IsAlpha(source[position]) || source[position] == '_' as int)
      modifies this
      ensures IsToken(source, t) && t.start == old(position) && t.end == position
    {
      var start := position;
      ReadRun(IsAlnum);
      t := Token(Identifier, start, position, 0);
    }

    method ReadNumeric() returns (t: Token)
      requires Valid() && position < |source| && IsDigit(source[position])
      modifies this
      ensures IsToken(source, t) && t.start == old(position) && t.end == position
    {
      hide MaximalRun, RunEnd, DecimalEnd;
      var start := position;
      var hasDecimal := false;
      if CurrentByte() == Some('0' as int) {
        Advance();
        if CurrentByte() == Some('x' as int) || CurrentByte() == Some('X' as int) {
          Advance();
          ReadRun(IsHex);
          RunUnique(source, start + 2, position, IsHex);
          return Token(NumericConstant, start, position, 0);
        } else if CurrentByte() == Some('.' as int) {
          hasDecimal := true;
          Advance();
        } else if CurrentByte().Some? && IsOctal(CurrentByte().value) {
          ReadRun(IsOctal);
          ghost var q := position;
          OctalThenDigits(source, start + 1, q);
          if CurrentByte() == Some('8' as int) || CurrentByte() == Some('9' as int) {
            ReadRun(IsDigit);
            RunUnique(source, q, position, IsDigit);
          }
          return Token(NumericConstant, start, position, 0);
        }
      }
      if !hasDecimal && position == start {
        DecimalDigit(source, start, false);
      } else if hasDecimal {
        DecimalPoint(source, start + 1);
      }
      ReadDecimal(hasDecimal);
      t := Token(NumericConstant, start, position, 0);
    }

    /** The rest of a decimal constant: digits, at most one point, an exponent or a suffix letter. */
    method ReadDecimal(point: bool)
      requires Valid()
      modifies this
      ensures Valid() && position == DecimalEnd(source, old(position), point)
    {
      hide MaximalRun, RunEnd, DecimalEnd;
      var hasDecimal, hasExponent := point, false;
      while CurrentByte().Some?
        invariant Valid() && !hasExponent
        invariant DecimalEnd(source, position, hasDecimal) == DecimalEnd(source, old(position), point)
        decreases |source| - position
      {
        var c := CurrentByte().value;
        if IsDigit(c) {
          DecimalDigit(source, position, hasDecimal);
          Advance();
        } else if c == '.' as int && !hasDecimal && !hasExponent {
          DecimalPoint(source, position);
          hasDecimal := true;
          Advance();
        } else if (c == 'e' as int || c == 'E' as int) && !hasExponent {
          DecimalTail(source, position, hasDecimal);
          hasExponent := true;
          Advance();
          if CurrentByte() == Some('+' as int) || CurrentByte() == Some('-' as int) {
            Advance();
          }
          ghost var digits := position;
          ReadRun(IsDigit);
          RunUnique(source, digits, position, IsDigit);
          return;
        } else if IsSuffix(c) {
          DecimalTail(source, position, hasDecimal);
          Advance();
          return;
        } else {
          DecimalTail(source, position, hasDecimal);
          return;
        }
      }
      DecimalTail(source, position, hasDecimal);
    }

    method ReadStringLiteral() returns (t: Token)
      requires Valid() && position < |source| && IsQuote(source[position])
      modifies this
      ensures IsToken(source, t) && t.start == old(position) && t.end == position
    {
      var start := position;
      var quote := CurrentByte().value;
      Advance();
      while CurrentByte().Some?
        invariant Valid() && start < position && (position < |source| ==> !Escaped(source, start, position))
        invariant forall k: nat :: k < position ==> !Closes(source, start, k)
        decreases |source| - position
      {
        var c := CurrentByte().value;
        if c == '\\' as int {
          Advance();
          if CurrentByte().Some? {
            assert Escaped(source, start, position);
            Advance();
          }
        } else if c == quote {
          Advance();
          assert Closes(source, start, position - 1);
          return Token(StringLiteral, start, position, 0);
        } else {
          Advance();
        }
      }
      t := Token(StringLiteral, start, position, 0);
    }

    method ReadLineComment() returns (t: Token)
      requires Valid() && At(source, position, '/') && At(source, position + 1, '/')
      modifies this
      ensures IsToken(source, t) && t.start == old(position) && t.end == position
    {
      var start := position;
      Advance();
      Advance();
      ReadRun(NotNewline);
      t := Token(Comment, start, position, 0);
    }

    method ReadBlockComment() returns (t: Token)
      requires Valid() && At(source, position, '/') && At(source, position + 1, '*')
      modifies this
      ensures IsToken(source, t) && t.start == old(position) && t.end == position
    {
      var start := position;
      Advance();
      Advance();
      while CurrentByte().Some?
        invariant Valid() && start + 2 <= position
        invariant forall k: nat :: k < position ==> !ClosesComment(source, start, k)
        decreases |source| - position
      {
        if CurrentByte() == Some('*' as int) && PeekByte(1) == Some('/' as int) {
          Advance();
          Advance();
          assert ClosesComment(source, start, position - 2);
          return Token(Comment, start, position, 0);
        }
        Advance();
      }
      t := Token(Comment, start, position, 0);
    }

    method ReadPreprocessor() returns (t: Token)
      requires Valid() && At(source, position, '#')
      modifies this
      ensures IsToken(source, t) && t.start == old(position) && t.end == position
    {
      var start := position;
      ReadRun(NotNewline);
      t := Token(Preprocessor, start, position, 0);
    }

    method ReadPunctuator() returns (t: Token)
      requires Valid() && position < |source|
      modifies this
      ensures t == Token(Punctuator, old(position), position, 0)
      ensures position == Plus(old(position), PunctuatorLength(source, old(position)))
    {
      hide IsPunctuation;
      var start := position;
      var c := CurrentByte().value;
      if IsPunctuation(c) {
        Advance();
        var next := if CurrentByte().Some? then CurrentByte().value else ' ' as int;
        if c == '.' as int && next == '.' as int {
          if PeekByte(2) == Some('.' as int) {
            Advance();
            Advance();
          }
        } else if (c == '<' as int && next == '<' as int) || (c == '>' as int && next == '>' as int) {
          if PeekByte(2) == Some('=' as int) {
            Advance();
            Advance();
          }
        } else if IsPair(c, next) {
          Advance();
        }
      } else {
        Advance();
      }
      t := Token(Punctuator, start, position, 0);
    }

    /** One token, of whatever kind its first byte tells.  Two bytes before the end of a source that wraps
        around, the position starts over. */
    method ScanToken() returns (t: Token)
      requires Valid()
      modifies this
      ensures IsToken(source, t) && t.start == old(position) && t.end == position
      ensures Valid()
      ensures old(position) == |source| ==> position == |source|
      ensures old(position) < |source| ==>
        (old(position) < position <==> !(WrapsAround(source) && old(position) == |source| - 2))
    {
      hide IsWhite, PunctuatorLength, NumericEnd, LiteralEnds, CommentEnds, MaximalRun, WrapsAround;
      ghost var p := position;
      var current := CurrentByte();
      if current.None? {
        t := Token(EndOfFile, position, position, 0);
      } else {
        var c := current.value;
        if IsWhite(c) {
          t := SkipWhitespace();
        } else if c == '/' as int {
          if PeekByte(1) == Some('/' as int) {
            t := ReadLineComment();
          } else if PeekByte(1) == Some('*' as int) {
            t := ReadBlockComment();
          } else {
            t := ReadPunctuator();
          }
        } else if c == '#' as int {
          t := ReadPreprocessor();
        } else if IsQuote(c) {
          t := ReadStringLiteral();
        } else if IsAlpha(c) || c == '_' as int {
          t := ReadIdentifier();
        } else if IsDigit(c) {
          t := ReadNumeric();
        } else {
          t := ReadPunctuator();
        }
        TokenProgress(source, t);
        TokenWraps(source, t);
      }
    }

    /** The next token that is not white space: all that is skipped is one run of it. */
    method NextToken() returns (t: Token)
      requires Valid()
      modifies this
      ensures Valid() && IsToken(source, t) && t.kind != WhiteSpace && t.end == position
      ensures old(position) <= t.start && forall i :: old(position) <= i < t.start ==> IsWhite(source[i])
    {
      while true
        invariant Valid() && old(position) <= position
        invariant forall i :: old(position) <= i < position ==> IsWhite(source[i])
        decreases |source| - position
      {
        t := ScanToken();
        if t.kind == WhiteSpace {
          WhiteSpaceIsWhite(source, t);
          continue;
        }
        return;
      }
    }

    /** Scan until the end of input. */
    method ScanAll() returns (ts: seq<Token>)
      requires Valid() && position == 0 && Finishes(source)
      modifies this
      ensures Tokens(source, 0, ts) && Texts(source, ts) == source
    {
      hide IsToken, WrapsAround, Unfinished, Tokens;
      ts := [];
      NothingScanned(source);
      while true
        invariant Valid() && Unfinished(source, 0, ts, position)
        decreases |source| - position
      {
        assert WrapsAround(source) && position == |source| - 2 ==> LeadsAround(source, ts);
        var t := ScanToken();
        UnfinishedMore(source, 0, ts, t);
        ts := ts + [t];
        if t.start == |source| { break; }
      }
      FinishesOnward(source, ts);
      Lossless(source, 0, ts);
      assert source[0..] == source;
    }
  }
}
