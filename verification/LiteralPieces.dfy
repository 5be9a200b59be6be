/** What every string literal holds (`Scanner::parse_string` in frontend/scanner.cpp): a literal is written
    piece by piece, and scanning it gives what its pieces stand for, whatever is around it. */
module LiteralPieces {
  import opened Lists
  import opened StringScan

  datatype Piece =
    | Character(bytes: string)     // a byte and its continuation bytes
    | Escaped(bytes: string)       // a backslash and a character, left for unescaping
    | EscapedBackslash
    | EscapedQuote
    | JoinedLines                  // a backslash at the end of a line
    | NewLine
    | Quotes(n: nat)

  /** The bytes of UTF-8 that go on with a character: those of the form 10xxxxxx. */
  predicate GoesOn(b: char) {
    b as int / 64 == 2
  }

  predicate ACharacter(bytes: string) {
    && bytes != "" && bytes[0] < 256 as char && bytes[0] != '\n' && !GoesOn(bytes[0])
    && (forall k :: 1 <= k < |bytes| ==> GoesOn(bytes[k]))
    && (|bytes| == 1 ==> bytes[0] !in {'\\', '"', 255 as char})
  }

  /** Newlines and quotes stand for themselves in literals with three quotes only. */
  predicate Allowed(p: Piece, triple: bool) {
    match p
    case Character(bytes) => ACharacter(bytes)
    case Escaped(bytes) => ACharacter(bytes)
    case NewLine => triple
    case Quotes(n) => triple && 1 <= n <= 2
    case _ => true
  }

  function Text(p: Piece): string {
    match p
    case Character(bytes) => bytes
    case Escaped(bytes) => "\\" + bytes
    case EscapedBackslash => "\\\\"
    case EscapedQuote => "\\\""
    case JoinedLines => "\\\n"
    case NewLine => "\n"
    case Quotes(n) => if n == 1 then "\"" else "\"\""
  }

  /** What a piece adds to the literal: itself, except for joined lines. */
  function Meant(p: Piece): string {
    if p.JoinedLines? then "" else Text(p)
  }

  /** Quotes come one or two in a row and not before the closing ones. */
  predicate AllowedAt(ps: seq<Piece>, i: nat, triple: bool)
    requires i < |ps|
  {
    Allowed(ps[i], triple) && (ps[i].Quotes? ==> i + 1 < |ps| && !ps[i + 1].Quotes?)
  }

  predicate AllAllowed(ps: seq<Piece>, triple: bool) {
    forall i :: 0 <= i < |ps| ==> AllowedAt(ps, i, triple)
  }

  function TextOf(ps: seq<Piece>): string {
    if ps == [] then "" else Text(ps[0]) + TextOf(ps[1..])
  }

  function MeantBy(ps: seq<Piece>): string {
    if ps == [] then "" else Meant(ps[0]) + MeantBy(ps[1..])
  }

  function Closing(triple: bool): string {
    if triple then "\"\"\"" else "\""
  }

  // ----- characters -----

  lemma {:induction false} ContinuationExactly(b: char)
    ensures Continuation(b) <==> GoesOn(b)
  {}

  /** Nothing behind `pos` goes on with the character before. */
  predicate Fresh(text: string, pos: nat) {
    pos >= |text| || !GoesOn(text[pos])
  }

  /** The character at `pos` that ends before `end`: its bytes, or the code of its single byte as a signed one. */
  lemma {:induction false} CharExactly(text: string, pos: nat, end: nat)
    requires pos < end <= |text| && text[pos] != '\n' && text[pos] < 256 as char && Fresh(text, end)
    requires forall k :: pos < k < end ==> GoesOn(text[k])
    ensures end > pos + 1 ==> CharAt(text, pos) == (Utf(text[pos..end]), end)
    ensures end == pos + 1 ==>
              && CharAt(text, pos).1 == end && CharAt(text, pos).0.Code?
              && -128 <= CharAt(text, pos).0.c < 128 && (CharAt(text, pos).0.c - text[pos] as int) in {0, -256}
  {
    hide Continuation, GoesOn;
    forall k | pos < k < end ensures Continuation(text[k]) {
      ContinuationExactly(text[k]);
    }
    if end < |text| {
      ContinuationExactly(text[end]);
    }
    SkipExact(text, pos + 1, end);
  }

  /** A byte below 128 by itself. */
  lemma {:induction false} Alone(text: string, pos: nat)
    requires pos < |text| && text[pos] < 128 as char && (text[pos] == '\n' || Fresh(text, pos + 1))
    ensures CharAt(text, pos) == (Code(text[pos] as int), pos + 1)
  {
    if text[pos] != '\n' {
      CharExactly(text, pos, pos + 1);
    }
  }

  /** A character is none of those that the scanner looks for. */
  lemma {:induction false} Ordinary(text: string, pos: nat, end: nat)
    requires pos < end <= |text| && ACharacter(text[pos..end]) && Fresh(text, end)
    ensures var (c, p) := CharAt(text, pos);
            p == end && Bytes(c) == text[pos..end] && c != Code(EOF) && !Is(c, '\\') && !Is(c, '"') && !Is(c, '\n')
  {
    hide GoesOn, CharAt;
    var bytes := text[pos..end];
    assert bytes[0] == text[pos];
    forall k | pos < k < end ensures GoesOn(text[k]) {
      assert bytes[k - pos] == text[k];
    }
    CharExactly(text, pos, end);
  }

  // ----- one piece -----

  ghost predicate PieceAt(text: string, pos: nat, p: Piece, end: nat) {
    pos <= end < |text| && text[pos..end] == Text(p) && Fresh(text, end)
  }

  lemma {:induction false} CharacterStep(text: string, pos: nat, end: nat, triple: bool)
    requires pos < end <= |text| && ACharacter(text[pos..end]) && Fresh(text, end)
    ensures Literal(text, pos, triple) == Then(text[pos..end], Literal(text, end, triple))
  {
    hide Literal, CharAt, Then, ACharacter, Fresh;
    Ordinary(text, pos, end);
    LiteralStep(text, pos, triple);
  }

  lemma {:induction false} EscapedStep(text: string, pos: nat, end: nat, triple: bool)
    requires pos + 1 < end <= |text| && text[pos] == '\\' && ACharacter(text[pos + 1..end]) && Fresh(text, end)
    ensures Literal(text, pos, triple) == Then(text[pos..end], Literal(text, end, triple))
  {
    assert Fresh(text, pos + 1) by { assert text[pos + 1..end][0] == text[pos + 1]; }
    hide Literal, CharAt, Then, ACharacter, Fresh;
    Alone(text, pos);
    Ordinary(text, pos + 1, end);
    LiteralStep(text, pos, triple);
    CharacterStep(text, pos + 1, end, triple);
    ThenTwice("\\", text[pos + 1..end], Literal(text, end, triple));
    assert "\\" + text[pos + 1..end] == text[pos..end];
  }

  /** A backslash and one of the characters that it escapes here. */
  lemma {:induction false} PairStep(text: string, pos: nat, triple: bool)
    requires pos + 2 <= |text| && text[pos] == '\\' && text[pos + 1] in {'\\', '"', '\n'}
    requires text[pos + 1] != '\n' ==> Fresh(text, pos + 2)
    ensures Literal(text, pos, triple)
         == Then(if text[pos + 1] == '\n' then "" else text[pos..pos + 2], Literal(text, pos + 2, triple))
  {
    assert Fresh(text, pos + 1);
    hide Literal, CharAt, Then, Fresh;
    Alone(text, pos);
    Alone(text, pos + 1);
    LiteralStep(text, pos, triple);
    ThenNothing(Literal(text, pos + 2, triple));
    assert text[pos..pos + 2] == [text[pos], text[pos + 1]];
  }

  lemma {:induction false} NewLineStep(text: string, pos: nat)
    requires pos < |text| && text[pos] == '\n'
    ensures Literal(text, pos, true) == Then("\n", Literal(text, pos + 1, true))
  {
    hide Literal, CharAt, Then;
    Alone(text, pos);
    LiteralStep(text, pos, true);
  }

  lemma {:induction false} OneQuoteStep(text: string, pos: nat)
    requires pos < |text| && text[pos] == '"' && Fresh(text, pos + 1) && !Is(CharAt(text, pos + 1).0, '"')
    ensures Literal(text, pos, true) == Then("\"", Literal(text, pos + 1, true))
  {
    hide Literal, CharAt, Then, Fresh;
    Alone(text, pos);
    LiteralStep(text, pos, true);
  }

  lemma {:induction false} TwoQuotesStep(text: string, pos: nat)
    requires pos + 1 < |text| && text[pos] == '"' && text[pos + 1] == '"' && Fresh(text, pos + 2)
    requires !Is(CharAt(text, pos + 2).0, '"')
    ensures Literal(text, pos, true) == Then("\"\"", Literal(text, pos + 2, true))
  {
    assert Fresh(text, pos + 1);
    hide Literal, CharAt, Then, Fresh;
    Alone(text, pos);
    Alone(text, pos + 1);
    LiteralStep(text, pos, true);
  }

  /** Scanning goes through one piece and on behind it. */
  lemma {:induction false} PieceStep(text: string, pos: nat, p: Piece, end: nat, triple: bool)
    requires PieceAt(text, pos, p, end) && Allowed(p, triple)
    requires p.Quotes? ==> !Is(CharAt(text, end).0, '"')
    ensures Literal(text, pos, triple) == Then(Meant(p), Literal(text, end, triple))
  {
    hide *;
    match p
    case Character(_) => CharacterPiece(text, pos, p, end, triple);
    case Escaped(_) => EscapedPiece(text, pos, p, end, triple);
    case NewLine => LinePiece(text, pos, p, end, triple);
    case Quotes(n) => QuotePiece(text, pos, p, end, triple);
    case _ => PairPiece(text, pos, p, end, triple);
  }

  lemma {:induction false} LinePiece(text: string, pos: nat, p: Piece, end: nat, triple: bool)
    requires PieceAt(text, pos, p, end) && Allowed(p, triple) && p.NewLine?
    ensures Literal(text, pos, triple) == Then(Meant(p), Literal(text, end, triple))
  {
    hide Literal, Then, Fresh;
    assert text[pos..end][0] == text[pos];
    NewLineStep(text, pos);
  }

  lemma {:induction false} PairPiece(text: string, pos: nat, p: Piece, end: nat, triple: bool)
    requires PieceAt(text, pos, p, end) && (p.EscapedBackslash? || p.EscapedQuote? || p.JoinedLines?)
    ensures Literal(text, pos, triple) == Then(Meant(p), Literal(text, end, triple))
  {
    hide Literal, Then, Fresh;
    assert text[pos..end][0] == text[pos] && text[pos..end][1] == text[pos + 1];
    PairStep(text, pos, triple);
  }

  lemma {:induction false} QuotePiece(text: string, pos: nat, p: Piece, end: nat, triple: bool)
    requires PieceAt(text, pos, p, end) && Allowed(p, triple) && p.Quotes? && !Is(CharAt(text, end).0, '"')
    ensures Literal(text, pos, triple) == Then(Meant(p), Literal(text, end, triple))
  {
    hide Literal, Then, Fresh, CharAt, Is;
    assert text[pos..end][0] == text[pos];
    if p.n == 1 {
      OneQuoteStep(text, pos);
    } else {
      assert text[pos..end][1] == text[pos + 1];
      TwoQuotesStep(text, pos);
    }
  }

  lemma {:induction false} CharacterPiece(text: string, pos: nat, p: Piece, end: nat, triple: bool)
    requires PieceAt(text, pos, p, end) && Allowed(p, triple) && p.Character?
    ensures Literal(text, pos, triple) == Then(Meant(p), Literal(text, end, triple))
  {
    hide Literal, Then, Fresh;
    CharacterStep(text, pos, end, triple);
  }

  lemma {:induction false} EscapedPiece(text: string, pos: nat, p: Piece, end: nat, triple: bool)
    requires PieceAt(text, pos, p, end) && Allowed(p, triple) && p.Escaped?
    ensures Literal(text, pos, triple) == Then(Meant(p), Literal(text, end, triple))
  {
    assert text[pos + 1..end] == text[pos..end][1..] == p.bytes && text[pos] == text[pos..end][0];
    hide Literal, Then, Fresh;
    EscapedStep(text, pos, end, triple);
  }

  // ----- all pieces -----

  /** Pieces and the closing quotes begin characters of their own. */
  lemma {:induction false} Begins(ps: seq<Piece>, triple: bool, rest: string)
    requires AllAllowed(ps, triple)
    ensures var t := TextOf(ps) + Closing(triple) + rest; t != "" && !GoesOn(t[0])
  {
    if ps != [] {
      var first := Text(ps[0]);
      assert AllowedAt(ps, 0, triple);
      assert first != "" && !GoesOn(first[0]);
      assert (TextOf(ps) + Closing(triple) + rest)[0] == first[0];
    }
  }

  /** What does not begin with a quote piece does not begin with a quote. */
  lemma {:induction false} NoQuote(text: string, pos: nat, p: Piece, end: nat, triple: bool)
    requires PieceAt(text, pos, p, end) && Allowed(p, triple) && !p.Quotes?
    ensures !Is(CharAt(text, pos).0, '"')
  {
    var t := Text(p);
    assert |t| == end - pos && forall i :: 0 <= i < |t| ==> text[pos + i] == t[i];
    if p.Character? {
      hide CharAt, ACharacter, Fresh;
      Ordinary(text, pos, end);
    } else {
      assert text[pos] != '"' && text[pos] < 128 as char;
    }
  }

  lemma {:induction false} ClosingStep(text: string, pos: nat, triple: bool)
    requires pos + |Closing(triple)| <= |text| && text[pos..pos + |Closing(triple)|] == Closing(triple)
    requires Fresh(text, pos + |Closing(triple)|)
    ensures Literal(text, pos, triple) == Some(("", pos + |Closing(triple)|))
  {
    var t := Closing(triple);
    assert forall i :: 0 <= i < |t| ==> text[pos + i] == t[i];
    assert triple ==> Fresh(text, pos + 1) && Fresh(text, pos + 2);
    hide Literal, CharAt, Fresh;
    Alone(text, pos);
    if triple {
      Alone(text, pos + 1);
      Alone(text, pos + 2);
    }
    LiteralStep(text, pos, triple);
  }

  lemma AllowedTail(ps: seq<Piece>, triple: bool)
    requires AllAllowed(ps, triple) && ps != []
    ensures AllAllowed(ps[1..], triple) && Allowed(ps[0], triple)
    ensures ps[0].Quotes? ==> |ps| > 1 && !ps[1].Quotes?
  {
    hide Allowed;
    var more := ps[1..];
    assert AllowedAt(ps, 0, triple);
    forall i | 0 <= i < |more| ensures AllowedAt(more, i, triple) {
      assert AllowedAt(ps, i + 1, triple);
      assert more[i] == ps[i + 1];
      assert i + 1 < |more| ==> more[i + 1] == ps[i + 2];
    }
  }

  lemma Split(text: string, pos: nat, first: string, behind: string)
    requires pos <= |text| && text[pos..] == first + behind
    ensures var end := pos + |first|; end <= |text| && text[pos..end] == first && text[end..] == behind
  {
    var end := pos + |first|;
    assert text[pos..end] == text[pos..][..|first|];
    assert text[end..] == text[pos..][|first|..];
  }

  lemma TextFirst(ps: seq<Piece>, closing: string, rest: string)
    requires ps != []
    ensures TextOf(ps) + closing + rest == Text(ps[0]) + (TextOf(ps[1..]) + closing + rest)
    ensures |TextOf(ps)| == |Text(ps[0])| + |TextOf(ps[1..])|
  {
    hide Text;
    assert TextOf(ps) == Text(ps[0]) + TextOf(ps[1..]);
    hide TextOf;
    Regrouped(Text(ps[0]), TextOf(ps[1..]), closing, rest);
  }

  lemma Regrouped(a: string, b: string, c: string, d: string)
    ensures (a + b) + c + d == a + (b + c + d)
  {}

  lemma FirstPiece(text: string, pos: nat, ps: seq<Piece>, triple: bool, rest: string)
    requires AllAllowed(ps, triple) && ps != []
    requires pos <= |text| && text[pos..] == TextOf(ps) + Closing(triple) + rest
    ensures var end := pos + |Text(ps[0])|;
            end <= |text| && PieceAt(text, pos, ps[0], end) && text[end..] == TextOf(ps[1..]) + Closing(triple) + rest
  {
    hide Text, TextOf, Closing, GoesOn, Allowed;
    var behind := TextOf(ps[1..]) + Closing(triple) + rest;
    AllowedTail(ps, triple);
    Begins(ps[1..], triple, rest);
    TextFirst(ps, Closing(triple), rest);
    Split(text, pos, Text(ps[0]), behind);
    assert text[pos + |Text(ps[0])|] == behind[0];
  }

  lemma Closed(text: string, pos: nat, triple: bool, rest: string)
    requires Fresh(rest, 0) && pos <= |text| && text[pos..] == Closing(triple) + rest
    ensures Literal(text, pos, triple) == Some(("", pos + |Closing(triple)|))
  {
    hide Literal, Closing, GoesOn;
    var end := pos + |Closing(triple)|;
    Split(text, pos, Closing(triple), rest);
    assert end < |text| ==> text[end] == text[end..][0];
    ClosingStep(text, pos, triple);
  }

  /** A piece and what follows. */
  lemma OnePiece(text: string, pos: nat, ps: seq<Piece>, triple: bool, rest: string)
    requires AllAllowed(ps, triple) && ps != []
    requires pos <= |text| && text[pos..] == TextOf(ps) + Closing(triple) + rest
    ensures var end := pos + |Text(ps[0])|;
            end <= |text| && Literal(text, pos, triple) == Then(Meant(ps[0]), Literal(text, end, triple))
  {
    hide *;
    var end := pos + |Text(ps[0])|;
    AllowedTail(ps, triple);
    FirstPiece(text, pos, ps, triple, rest);
    if ps[0].Quotes? {
      FirstPiece(text, end, ps[1..], triple, rest);
      AllowedTail(ps[1..], triple);
      NoQuote(text, end, ps[1], end + |Text(ps[1])|, triple);
    }
    PieceStep(text, pos, ps[0], end, triple);
  }

  lemma MeantFirst(ps: seq<Piece>)
    ensures ps != [] ==> MeantBy(ps) == Meant(ps[0]) + MeantBy(ps[1..])
    ensures ps == [] ==> MeantBy(ps) == "" && TextOf(ps) == ""
  {}

  lemma ThenSome(s: string, t: string, end: nat)
    ensures Then(s, Some((t, end))) == Some((s + t, end))
  {}

  /** Scanning behind the opening quotes gives what the pieces mean and ends behind the closing quotes. */
  lemma {:induction false} LiteralOfPieces(text: string, pos: nat, ps: seq<Piece>, triple: bool, rest: string)
    requires AllAllowed(ps, triple) && Fresh(rest, 0)
    requires pos <= |text| && text[pos..] == TextOf(ps) + Closing(triple) + rest
    ensures Literal(text, pos, triple) == Some((MeantBy(ps), pos + |TextOf(ps)| + |Closing(triple)|))
    decreases ps
  {
    hide *;
    MeantFirst(ps);
    if ps == [] {
      assert TextOf(ps) + Closing(triple) + rest == Closing(triple) + rest;
      Closed(text, pos, triple, rest);
    } else {
      FirstPiece(text, pos, ps, triple, rest);
      OnePiece(text, pos, ps, triple, rest);
      TextFirst(ps, Closing(triple), rest);
      AllowedTail(ps, triple);
      var end := pos + |Text(ps[0])|;
      LiteralOfPieces(text, end, ps[1..], triple, rest);
      ThenSome(Meant(ps[0]), MeantBy(ps[1..]), end + |TextOf(ps[1..])| + |Closing(triple)|);
    }
  }

  // ----- with the opening quotes -----

  lemma QuotedStep(text: string, pos: nat)
    requires pos <= |text|
    ensures Quoted(text, pos) ==
            var (c, p1) := CharAt(text, pos);
            if !Is(c, '"') then Literal(text, pos, false)
            else
              var (d, p2) := CharAt(text, p1);
              if Is(d, '"') then Literal(text, p2, true) else Some(("", p1))
  {
    hide Literal, CharAt;
  }

  /** The text from the first opening quote on. */
  predicate OpenedAt(text: string, at: nat, triple: bool, behind: string) {
    at <= |text| && text[at..] == Closing(triple) + behind
  }

  lemma OpenedTriple(text: string, at: nat, behind: string)
    requires OpenedAt(text, at, true, behind) && behind != "" && !GoesOn(behind[0])
    ensures at + 3 <= |text| && text[at + 3..] == behind && Quoted(text, at + 1) == Literal(text, at + 3, true)
  {
    Split(text, at, Closing(true), behind);
    assert text[at..][1] == text[at + 1] && text[at..][2] == text[at + 2] && text[at + 3..][0] == text[at + 3];
    assert Fresh(text, at + 2) && Fresh(text, at + 3);
    hide Literal, CharAt, Quoted, Fresh, GoesOn;
    Alone(text, at + 1);
    Alone(text, at + 2);
    QuotedStep(text, at + 1);
  }

  lemma OpenedSingle(text: string, at: nat, behind: string)
    requires OpenedAt(text, at, false, behind)
    ensures at + 1 <= |text| && text[at + 1..] == behind
    ensures !Is(CharAt(text, at + 1).0, '"') ==> Quoted(text, at + 1) == Literal(text, at + 1, false)
  {
    Split(text, at, Closing(false), behind);
    hide Literal, CharAt, Quoted;
    QuotedStep(text, at + 1);
  }

  lemma EmptyLiteral(text: string, pos: nat, rest: string)
    requires pos <= |text| && text[pos..] == "\"" + rest && Fresh(rest, 0) && (rest == "" || rest[0] != '"')
    ensures Quoted(text, pos) == Some(("", pos + 1))
  {
    Split(text, pos, "\"", rest);
    assert text[pos..][0] == text[pos] && (pos + 1 < |text| ==> text[pos + 1..][0] == text[pos + 1]);
    assert Fresh(text, pos + 1);
    if pos + 1 < |text| {
      CharBack(text, pos + 1);
    }
    hide Literal, Quoted, Fresh, GoesOn, SkipContinuation;
    Alone(text, pos);
    QuotedStep(text, pos);
  }

  /** One quote opens a literal that one quote closes, and three quotes one that three quotes close; two quotes
      are the empty literal. `at` is the place of the first opening quote. */
  lemma {:induction false} QuotedOfPieces(text: string, at: nat, ps: seq<Piece>, triple: bool, rest: string)
    requires AllAllowed(ps, triple) && Fresh(rest, 0) && (triple || ps != [] || rest == "" || rest[0] != '"')
    requires OpenedAt(text, at, triple, TextOf(ps) + Closing(triple) + rest)
    ensures at < |text| && Quoted(text, at + 1) == Some((MeantBy(ps), at + 2 * |Closing(triple)| + |TextOf(ps)|))
  {
    hide *;
    ClosingLength();
    if triple {
      TriplePieces(text, at, ps, rest);
    } else if ps == [] {
      NoPieces(text, at, rest);
    } else {
      SinglePieces(text, at, ps, rest);
    }
  }

  lemma ClosingLength()
    ensures |Closing(true)| == 3 && |Closing(false)| == 1
  {}

  lemma TriplePieces(text: string, at: nat, ps: seq<Piece>, rest: string)
    requires AllAllowed(ps, true) && Fresh(rest, 0) && OpenedAt(text, at, true, TextOf(ps) + Closing(true) + rest)
    ensures at < |text| && Quoted(text, at + 1) == Some((MeantBy(ps), at + 6 + |TextOf(ps)|))
  {
    hide *;
    ClosingLength();
    Begins(ps, true, rest);
    OpenedTriple(text, at, TextOf(ps) + Closing(true) + rest);
    LiteralOfPieces(text, at + 3, ps, true, rest);
  }

  lemma NoPieces(text: string, at: nat, rest: string)
    requires Fresh(rest, 0) && (rest == "" || rest[0] != '"') && OpenedAt(text, at, false, TextOf([]) + Closing(false) + rest)
    ensures at < |text| && TextOf([]) == "" && Quoted(text, at + 1) == Some((MeantBy([]), at + 2))
  {
    hide Quoted, OpenedAt, Fresh;
    OpenedSingle(text, at, TextOf([]) + Closing(false) + rest);
    assert TextOf([]) + Closing(false) + rest == "\"" + rest;
    EmptyLiteral(text, at + 1, rest);
  }

  lemma SinglePieces(text: string, at: nat, ps: seq<Piece>, rest: string)
    requires AllAllowed(ps, false) && ps != [] && Fresh(rest, 0)
    requires OpenedAt(text, at, false, TextOf(ps) + Closing(false) + rest)
    ensures at < |text| && Quoted(text, at + 1) == Some((MeantBy(ps), at + 2 + |TextOf(ps)|))
  {
    hide *;
    ClosingLength();
    OpenedSingle(text, at, TextOf(ps) + Closing(false) + rest);
    FirstPiece(text, at + 1, ps, false, rest);
    AllowedTail(ps, false);
    QuotesTripled(ps[0]);
    NoQuote(text, at + 1, ps[0], at + 1 + |Text(ps[0])|, false);
    LiteralOfPieces(text, at + 1, ps, false, rest);
  }

  lemma QuotesTripled(p: Piece)
    requires Allowed(p, false)
    ensures !p.Quotes?
  {}
}
