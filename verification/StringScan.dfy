/** Scanning string literals that are not format strings (`advance`, `peek`, `parse_string` and the
    quote case of `next_token` in frontend/scanner.cpp). The text is the whole input; the newline
    before the end of the input, which the scanner drops, is left off. */
module StringScan {
  import opened Lists
  import opened Escapes

  /** A character of more than one byte, or the code of a single byte as a signed `char`. */
  datatype Utf8Char = Utf(str: string) | Code(c: int)

  const EOF: int := -1

  datatype Token = StringToken(value: string) | Unterminated(value: string)

  predicate Continuation(b: char) {
    128 as char <= b < 192 as char
  }

  /** The end of the continuation bytes from `i` on. */
  function SkipContinuation(text: string, i: nat): (j: nat)
    requires i <= |text|
    ensures i <= j <= |text| && (j < |text| ==> !Continuation(text[j]))
    decreases |text| - i
  {
    if i < |text| && Continuation(text[i]) then SkipContinuation(text, i + 1) else i
  }

  function Signed(b: char): int {
    if b < 128 as char then b as int else b as int % 256 - 256
  }

  /** The character at `pos` and the position after it. */
  function CharAt(text: string, pos: nat): (r: (Utf8Char, nat))
    requires pos <= |text|
    ensures pos < |text| ==> pos < r.1 <= |text|
    ensures pos == |text| ==> r == (Code(EOF), pos)
  {
    if pos == |text| then (Code(EOF), pos)
    else
      var end := if text[pos] == '\n' then pos + 1 else SkipContinuation(text, pos + 1);
      if end > pos + 1 then (Utf(text[pos..end]), end) else (Code(Signed(text[pos])), pos + 1)
  }

  function Bytes(c: Utf8Char): string {
    match c
    case Utf(s) => s
    case Code(c) => [(c % 256) as char]
  }

  /** The code of a character if it is a single byte. */
  function Single(c: Utf8Char): int {
    if c.Utf? then 0 else c.c
  }

  predicate Is(c: Utf8Char, b: char) {
    c == Code(b as int)
  }

  /** What a string literal holds and where it ends; none when it does not end. */
  function Literal(text: string, pos: nat, triple: bool): (r: Option<(string, nat)>)
    requires pos <= |text|
    ensures r.Some? ==> pos < r.value.1 <= |text|
    decreases |text| - pos
  {
    var (c, p1) := CharAt(text, pos);
    if c == Code(EOF) || p1 == pos then None
    else
      var (d, p2) := CharAt(text, p1);
      if Is(c, '\\') && Is(d, '\n') then Literal(text, p2, triple)
      else if Is(c, '\\') && Is(d, '\\') then Then("\\\\", Literal(text, p2, triple))
      else if Is(c, '\\') && Is(d, '"') then Then("\\\"", Literal(text, p2, triple))
      else if Is(c, '"') && !triple then Some(("", p1))
      else if Is(c, '"') && Is(d, '"') then
        var (e, p3) := CharAt(text, p2);
        if Is(e, '"') then Some(("", p3)) else Then("\"\"", Literal(text, p2, triple))
      else if Is(c, '\n') && !triple then None
      else Then(Bytes(c), Literal(text, p1, triple))
  }

  function Then(s: string, r: Option<(string, nat)>): Option<(string, nat)> {
    match r
    case None => None
    case Some((t, end)) => Some((s + t, end))
  }

  class Scanner {
    const text: string
    var pos: nat

    predicate Valid()
      reads this
    {
      pos <= |text|
    }

    constructor (t: string)
      ensures text == t && pos == 0 && Valid()
    {
      text, pos := t, 0;
    }

    method Advance() returns (c: Utf8Char)
      requires Valid()
      modifies this
      ensures Valid() && (c, pos) == CharAt(text, old(pos))
    {
      if pos >= |text| {
        return Code(EOF);
      }
      var start := pos;
      var len := 1;
      if text[start] != '\n' {
        while start + len < |text| && Continuation(text[start + len])
          invariant start + len <= |text|
          invariant SkipContinuation(text, start + 1) == SkipContinuation(text, start + len)
        {
          len := len + 1;
        }
      }
      pos := start + len;
      if len > 1 {
        return Utf(text[start..pos]);
      }
      c := Code(Signed(text[start]));
    }

    method Peek() returns (c: int)
      requires Valid()
      ensures c == Single(CharAt(text, pos).0)
    {
      c := Single(CharAt(text, pos).0);
    }

    method CheckAndAdvance(b: char) returns (matched: bool)
      requires Valid() && 0 as char < b < 128 as char
      modifies this
      ensures Valid() && matched == Is(CharAt(text, old(pos)).0, b)
      ensures pos == if matched then CharAt(text, old(pos)).1 else old(pos)
    {
      var p := Peek();
      matched := p == b as int;
      if matched {
        var _ := Advance();
      }
    }

    method ParseString(triple: bool) returns (t: Token)
      requires Valid()
      modifies this
      ensures Valid()
      ensures match Literal(text, old(pos), triple)
              case None => t.Unterminated?
              case Some((value, end)) => t == StringToken(value) && pos == end
    {
      hide Literal, CharAt, Then;
      var value := "";
      ghost var at := pos;
      ThenNothing(Literal(text, pos, triple));
      LiteralStep(text, at, triple);
      var c := Advance();
      while c != Code(EOF)
        invariant Valid() && at <= |text| && (c, pos) == CharAt(text, at)
        invariant Literal(text, old(pos), triple) == Then(value, Literal(text, at, triple))
        decreases |text| - at
      {
        CharFacts(text, at);
        LiteralStep(text, at, triple);
        var d := Peek();
        CharFacts(text, pos);
        if Is(c, '\\') && d == '\n' as int {
          var _ := Advance();
        } else if Is(c, '\\') && d == '\\' as int {
          var _ := Advance();
          ThenTwice(value, "\\\\", Literal(text, pos, triple));
          value := value + "\\\\";
        } else if Is(c, '\\') && d == '"' as int {
          var _ := Advance();
          ThenTwice(value, "\\\"", Literal(text, pos, triple));
          value := value + "\\\"";
        } else if Is(c, '"') && !triple {
          ThenSome(value, pos);
          return StringToken(value);
        } else if Is(c, '"') && d == '"' as int {
          var _ := Advance();
          var e := Peek();
          CharFacts(text, pos);
          if e == '"' as int {
            var _ := Advance();
            ThenSome(value, pos);
            return StringToken(value);
          }
          ThenTwice(value, "\"\"", Literal(text, pos, triple));
          value := value + "\"\"";
        } else if Is(c, '\n') && !triple {
          ThenNone(value);
          return Unterminated(value);
        } else {
          ThenTwice(value, Bytes(c), Literal(text, pos, triple));
          value := value + Bytes(c);
        }
        at := pos;
        c := Advance();
      }
      LiteralStep(text, at, triple);
      ThenNone(value);
      t := Unterminated(value);
    }

    /** The quote case of `next_token`, after the opening quote. */
    method QuotedString() returns (t: Token)
      requires Valid()
      modifies this
      ensures Valid()
      ensures match Quoted(text, old(pos))
              case None => t.Unterminated?
              case Some((value, end)) => t == StringToken(value) && pos == end
    {
      var second := CheckAndAdvance('"');
      if second {
        var third := CheckAndAdvance('"');
        if third {
          t := ParseString(true);
          return;
        }
        return StringToken("");
      }
      t := ParseString(false);
    }
  }

  /** The literal whose opening quote ends at `pos`. */
  function Quoted(text: string, pos: nat): (r: Option<(string, nat)>)
    requires pos <= |text|
    ensures r.Some? ==> pos < r.value.1 <= |text|
  {
    var (c, p1) := CharAt(text, pos);
    if !Is(c, '"') then Literal(text, pos, false)
    else
      var (d, p2) := CharAt(text, p1);
      if Is(d, '"') then Literal(text, p2, true) else Some(("", p1))
  }

  lemma {:induction false} CharFacts(text: string, pos: nat)
    requires pos <= |text|
    ensures var (c, p) := CharAt(text, pos);
            && (pos < |text| ==> pos < p <= |text|) && (pos == |text| ==> c == Code(EOF) && p == pos)
            && forall b: char :: 0 as char < b < 128 as char ==> (Single(c) == b as int <==> Is(c, b))
  {
    hide SkipContinuation;
  }

  lemma {:induction false} LiteralStep(text: string, pos: nat, triple: bool)
    requires pos <= |text|
    ensures Literal(text, pos, triple) ==
            var (c, p1) := CharAt(text, pos);
            if c == Code(EOF) || p1 == pos then None
            else
              var (d, p2) := CharAt(text, p1);
              if Is(c, '\\') && Is(d, '\n') then Literal(text, p2, triple)
              else if Is(c, '\\') && Is(d, '\\') then Then("\\\\", Literal(text, p2, triple))
              else if Is(c, '\\') && Is(d, '"') then Then("\\\"", Literal(text, p2, triple))
              else if Is(c, '"') && !triple then Some(("", p1))
              else if Is(c, '"') && Is(d, '"') then
                var (e, p3) := CharAt(text, p2);
                if Is(e, '"') then Some(("", p3)) else Then("\"\"", Literal(text, p2, triple))
              else if Is(c, '\n') && !triple then None
              else Then(Bytes(c), Literal(text, p1, triple))
  {
    hide CharAt, Then;
  }

  lemma {:induction false} ThenNothing(r: Option<(string, nat)>)
    ensures Then("", r) == r
  {
    assert r.Some? ==> "" + r.value.0 == r.value.0;
  }

  lemma {:induction false} ThenNone(s: string)
    ensures Then(s, None) == None
  {}

  lemma {:induction false} ThenSome(s: string, end: nat)
    ensures Then(s, Some(("", end))) == Some((s, end))
  {
    assert s + "" == s;
  }

  lemma {:induction false} ThenTwice(s: string, t: string, r: Option<(string, nat)>)
    ensures Then(s, Then(t, r)) == Then(s + t, r)
  {
    assert r.Some? ==> s + (t + r.value.0) == s + t + r.value.0;
  }

  // ----- scanning a sanitized text -----

  /** Every character is a byte. */
  predicate Bytewise(s: string) {
    forall i :: 0 <= i < |s| ==> s[i] < 256 as char
  }

  /** A byte 255 without continuation bytes: as a signed `char` it equals EOF. */
  predicate LoneAt(s: string, i: nat)
    requires i < |s|
  {
    s[i] == 255 as char && (i + 1 == |s| || !Continuation(s[i + 1]))
  }

  predicate Lone(s: string) {
    exists i :: 0 <= i < |s| && LoneAt(s, i)
  }

  /** A byte below 128 is a character of its own unless a continuation byte follows. */
  lemma {:induction false} CharAlone(text: string, pos: nat)
    requires pos < |text| && text[pos] < 128 as char
    requires pos + 1 < |text| ==> !Continuation(text[pos + 1])
    ensures AloneAt(text, pos)
  {}

  predicate AloneAt(text: string, pos: nat) {
    pos < |text| && text[pos] < 128 as char && CharAt(text, pos) == (Code(text[pos] as int), pos + 1)
  }

  lemma {:induction false} SkipExact(text: string, i: nat, j: nat)
    requires i <= j <= |text| && (j < |text| ==> !Continuation(text[j]))
    requires forall k :: i <= k < j ==> Continuation(text[k])
    ensures SkipContinuation(text, i) == j
    decreases j - i
  {
    if i < j {
      SkipExact(text, i + 1, j);
    }
  }

  lemma {:induction false} SkippedContinue(s: string, i: nat)
    requires i <= |s|
    ensures forall k :: i <= k < SkipContinuation(s, i) ==> Continuation(s[k])
    decreases |s| - i
  {
    if i < |s| && Continuation(s[i]) {
      SkippedContinue(s, i + 1);
    }
  }

  /** A byte with its continuation bytes is one character, by itself it is its signed code. */
  lemma {:induction false} CharGroup(text: string, pos: nat, end: nat)
    requires pos < end <= |text| && text[pos] != '\n' && text[pos] < 256 as char
    requires end < |text| ==> !Continuation(text[end])
    requires forall k :: pos < k < end ==> Continuation(text[k])
    ensures CharAt(text, pos).1 == end
    ensures CharAt(text, pos).0 == Code(EOF) <==> text[pos] == 255 as char && end == pos + 1
    ensures end > pos + 1 ==> CharAt(text, pos).0.Utf?
    ensures end == pos + 1 && text[pos] < 128 as char ==> AloneAt(text, pos)
  {
    SkipExact(text, pos + 1, end);
  }

  /** What is not EOF, a quote, a newline or a backslash stays as it is. */
  lemma {:induction false} GroupStep(text: string, pos: nat)
    requires pos < |text| && text[pos] < 256 as char && CharAt(text, pos).0 != Code(EOF)
    requires CharAt(text, pos).0.Utf? || (text[pos] != '\\' && text[pos] != '"' && text[pos] != '\n')
    ensures var end := CharAt(text, pos).1;
            Literal(text, pos, false) == Then(text[pos..end], Literal(text, end, false))
  {
    hide Literal, SkipContinuation, Then;
    LiteralStep(text, pos, false);
    assert CharAt(text, pos).0.Code? ==> [text[pos]] == text[pos..pos + 1];
  }

  lemma {:induction false} BackslashStep(text: string, pos: nat)
    requires AloneAt(text, pos) && text[pos] == '\\' && pos + 1 < |text| && text[pos + 1] != '\n'
    ensures var e := text[pos + 1];
            if AloneAt(text, pos + 1) && (e == '\\' || e == '"')
            then Literal(text, pos, false) == Then(['\\', e], Literal(text, pos + 2, false))
            else Literal(text, pos, false) == Then("\\", Literal(text, pos + 1, false))
  {
    hide Literal, CharAt, Then;
    LiteralStep(text, pos, false);
    CharBack(text, pos + 1);
  }

  lemma {:induction false} CharBack(text: string, pos: nat)
    requires pos < |text|
    ensures forall b: char :: 0 as char < b < 128 as char ==>
              (Is(CharAt(text, pos).0, b) <==> AloneAt(text, pos) && text[pos] == b)
  {
    hide SkipContinuation;
  }

  /** Sanitized bytes: one byte, or a backslash and one byte, or a backslash, `x` and two digits. */
  lemma {:induction false} SanitizedShape(c: char)
    ensures var t := Sanitized(c);
            || (|t| == 1 && t[0] == c && c >= ' ' && c != '\\' && c != '"')
            || (|t| == 2 && t[0] == '\\' && t[1] != '\n' && t[1] < 128 as char)
            || (|t| == 4 && t[0] == '\\' && t[1] == 'x' && DigitOf(t[2]) < 16 && DigitOf(t[3]) < 16)
  {}

  predicate Plain(c: char) {
    c < 128 as char && c != '\\' && c != '"' && c != '\n'
  }

  lemma {:induction false} DigitShape(c: char)
    requires DigitOf(c) < 16
    ensures Plain(c)
  {}

  /** One sanitized byte and the continuation bytes after it, in a literal. */
  lemma {:induction false} LiteralOne(text: string, pos: nat, c: char, end: nat)
    requires c < 256 as char && pos + |Sanitized(c)| <= end <= |text|
    requires text[pos..pos + |Sanitized(c)|] == Sanitized(c)
    requires forall k :: pos + |Sanitized(c)| <= k < end ==> Continuation(text[k])
    requires end < |text| ==> !Continuation(text[end])
    ensures if c == 255 as char && end == pos + 1 then Literal(text, pos, false) == None
            else Literal(text, pos, false) == Then(text[pos..end], Literal(text, end, false))
  {
    var t, n := Sanitized(c), |Sanitized(c)|;
    SanitizedShape(c);
    assert forall i :: 0 <= i < n ==> text[pos + i] == t[i];
    hide Literal, CharAt, Then, Sanitized, DigitOf, AloneAt;
    if n == 1 {
      CharGroup(text, pos, end);
      if c == 255 as char && end == pos + 1 {
        LiteralStep(text, pos, false);
      } else {
        GroupStep(text, pos);
      }
    } else if n == 2 {
      PairSteps(text, pos, end);
    } else {
      DigitShape(t[2]);
      DigitShape(t[3]);
      HexSteps(text, pos, end);
    }
  }

  lemma {:induction false} PairSteps(text: string, pos: nat, end: nat)
    requires pos + 2 <= end <= |text| && text[pos] == '\\' && text[pos + 1] != '\n' && text[pos + 1] < 128 as char
    requires forall k :: pos + 2 <= k < end ==> Continuation(text[k])
    requires end < |text| ==> !Continuation(text[end])
    ensures Literal(text, pos, false) == Then(text[pos..end], Literal(text, end, false))
  {
    hide Literal, CharAt, Then, AloneAt;
    CharAlone(text, pos);
    BackslashStep(text, pos);
    CharGroup(text, pos + 1, end);
    var e := text[pos + 1];
    if end == pos + 2 && (e == '\\' || e == '"') {
      assert ['\\', e] == text[pos..end];
    } else {
      AloneIsCode(text, pos + 1);
      GroupStep(text, pos + 1);
      ThenTwice("\\", text[pos + 1..end], Literal(text, end, false));
      assert "\\" + text[pos + 1..end] == text[pos..end];
    }
  }

  lemma {:induction false} AloneIsCode(text: string, pos: nat)
    requires pos < |text|
    ensures AloneAt(text, pos) ==> !CharAt(text, pos).0.Utf?
  {
    hide SkipContinuation;
  }

  lemma {:induction false} HexSteps(text: string, pos: nat, end: nat)
    requires pos + 4 <= end <= |text| && text[pos] == '\\' && text[pos + 1] == 'x'
    requires Plain(text[pos + 2]) && Plain(text[pos + 3])
    requires forall k :: pos + 4 <= k < end ==> Continuation(text[k])
    requires end < |text| ==> !Continuation(text[end])
    ensures Literal(text, pos, false) == Then(text[pos..end], Literal(text, end, false))
  {
    hide Literal, CharAt, Then, AloneAt;
    var rest := Literal(text, end, false);
    CharAlone(text, pos);
    BackslashStep(text, pos);
    AloneGroup(text, pos + 1);
    AloneGroup(text, pos + 2);
    CharGroup(text, pos + 3, end);
    GroupStep(text, pos + 3);
    ThenTwice(text[pos + 2..pos + 3], text[pos + 3..end], rest);
    assert text[pos + 2..pos + 3] + text[pos + 3..end] == text[pos + 2..end];
    ThenTwice(text[pos + 1..pos + 2], text[pos + 2..end], rest);
    assert text[pos + 1..pos + 2] + text[pos + 2..end] == text[pos + 1..end];
    ThenTwice("\\", text[pos + 1..end], rest);
    assert "\\" + text[pos + 1..end] == text[pos..end];
  }

  lemma {:induction false} AloneGroup(text: string, pos: nat)
    requires pos + 1 < |text| && Plain(text[pos]) && !Continuation(text[pos + 1])
    ensures Literal(text, pos, false) == Then(text[pos..pos + 1], Literal(text, pos + 1, false))
  {
    hide Literal, Then;
    CharAlone(text, pos);
    GroupStep(text, pos);
  }

  /** Continuation bytes are sanitized as they are. */
  lemma {:induction false} SanitizedRun(s: string, m: nat)
    requires m <= |s| && forall k :: 0 <= k < m ==> Continuation(s[k])
    ensures SanitizeAll(s) == s[..m] + SanitizeAll(s[m..])
  {
    hide Sanitized, SanitizeAll;
    if m == 0 {
      assert s[0..] == s && s[..0] == "";
      assert "" + SanitizeAll(s) == SanitizeAll(s);
    } else {
      var rest := SanitizeAll(s[m..]);
      assert s[1..][..m - 1] == s[1..m] && s[1..][m - 1..] == s[m..];
      SanitizedRun(s[1..], m - 1);
      FirstSanitized(s);
      KeptByte(s[0]);
      assert [s[0]] + s[1..m] == s[..m];
      assert [s[0]] + (s[1..m] + rest) == [s[0]] + s[1..m] + rest;
    }
  }

  lemma {:induction false} FirstSanitized(s: string)
    requires s != ""
    ensures SanitizeAll(s) == Sanitized(s[0]) + SanitizeAll(s[1..])
  {}

  lemma {:induction false} KeptByte(c: char)
    requires Continuation(c)
    ensures Sanitized(c) == [c]
  {}

  /** The end of the first byte of `s` with its continuation bytes. */
  function FirstEnd(s: string): (m: nat)
    requires s != ""
    ensures 0 < m <= |s|
  {
    SkipContinuation(s, 1)
  }

  lemma {:induction false} FirstBytes(s: string)
    requires s != ""
    ensures var m := FirstEnd(s);
            && (forall k :: 1 <= k < m ==> Continuation(s[k])) && (m < |s| ==> !Continuation(s[m]))
            && SanitizeAll(s) == Sanitized(s[0]) + s[1..m] + SanitizeAll(s[m..])
  {
    hide Sanitized, SkipContinuation;
    var m := FirstEnd(s);
    SkippedContinue(s, 1);
    SanitizedRun(s[1..], m - 1);
    assert s[1..][..m - 1] == s[1..m] && s[1..][m - 1..] == s[m..];
    assert Sanitized(s[0]) + (s[1..m] + SanitizeAll(s[m..])) == Sanitized(s[0]) + s[1..m] + SanitizeAll(s[m..]);
  }

  /** What is sanitized and quoted begins with a continuation byte or a quote only if the text does. */
  lemma {:induction false} FirstByte(s: string, tail: string)
    requires tail != "" && tail[0] == '"'
    ensures var first := (SanitizeAll(s) + tail)[0];
            && (Continuation(first) <==> s != "" && Continuation(s[0])) && (first == '"' <==> s == "")
  {
    if s != "" {
      SanitizedShape(s[0]);
      assert (SanitizeAll(s) + tail)[0] == Sanitized(s[0])[0];
    }
  }

  lemma {:induction false} LoneParts(s: string)
    requires s != ""
    ensures Lone(s) <==> LoneAt(s, 0) || Lone(s[FirstEnd(s)..])
  {
    hide SkipContinuation;
    var m := FirstEnd(s);
    FirstBytes(s);
    forall i | 0 <= i < |s| - m
      ensures LoneAt(s[m..], i) <==> LoneAt(s, m + i)
    {
      assert s[m..][i] == s[m + i];
    }
    if Lone(s) {
      var i :| 0 <= i < |s| && LoneAt(s, i);
      assert i >= m ==> LoneAt(s[m..], i - m);
    }
    if Lone(s[m..]) {
      var i :| 0 <= i < |s| - m && LoneAt(s[m..], i);
      assert LoneAt(s, m + i);
    }
  }

  lemma {:induction false} NoneLone()
    ensures !Lone("")
  {}

  lemma {:induction false} Suffix(text: string, pos: nat, t: string, more: string)
    requires pos <= |text| && text[pos..] == t + more
    ensures pos + |t| <= |text| && text[pos..pos + |t|] == t && text[pos + |t|..] == more
  {
    assert text[pos..pos + |t|] == text[pos..][..|t|] && text[pos + |t|..] == text[pos..][|t|..];
  }

  /** A literal goes through a sanitized text that a quote follows, up to a lone byte 255. */
  lemma {:induction false} LiteralAll(text: string, pos: nat, s: string, tail: string)
    requires Bytewise(s) && tail != "" && tail[0] == '"'
    requires pos <= |text| && text[pos..] == SanitizeAll(s) + tail
    ensures pos + |SanitizeAll(s)| <= |text|
    ensures Literal(text, pos, false)
         == if Lone(s) then None else Then(SanitizeAll(s), Literal(text, pos + |SanitizeAll(s)|, false))
    decreases |s|
  {
    hide *;
    if s == "" {
      NoneSanitized();
      NoneLone();
      assert "" + tail == tail;
      ThenNothing(Literal(text, pos, false));
    } else {
      var m := FirstEnd(s);
      var t, rest := Sanitized(s[0]) + s[1..m], SanitizeAll(s[m..]);
      var next := pos + |t|;
      FirstBytes(s);
      assert (t + rest) + tail == t + (rest + tail);
      Suffix(text, pos, t, rest + tail);
      FirstByte(s[m..], tail);
      BytewiseParts(s, m);
      LoneParts(s);
      FirstLone(s);
      FirstCharacter(text, pos, s, rest + tail);
      LiteralAll(text, next, s[m..], tail);
      ThenTwice(t, rest, Literal(text, next + |rest|, false));
      ThenNone(t);
    }
  }

  /** The first byte of the text with its continuation bytes. */
  lemma {:induction false} FirstCharacter(text: string, pos: nat, s: string, more: string)
    requires s != "" && s[0] < 256 as char && pos <= |text|
    requires forall k :: 1 <= k < FirstEnd(s) ==> Continuation(s[k])
    requires text[pos..] == Sanitized(s[0]) + s[1..FirstEnd(s)] + more
    requires more != "" && !Continuation(more[0])
    ensures var t := Sanitized(s[0]) + s[1..FirstEnd(s)];
            && pos + |t| <= |text|
            && Literal(text, pos, false)
            == if s[0] == 255 as char && FirstEnd(s) == 1 then None else Then(t, Literal(text, pos + |t|, false))
  {
    hide *;
    var t, n := Sanitized(s[0]) + s[1..FirstEnd(s)], |Sanitized(s[0])|;
    var end := pos + |t|;
    Suffix(text, pos, t, more);
    assert text[end] == text[end..][0];
    assert text[pos..pos + n] == Sanitized(s[0]) by {
      assert text[pos..pos + n] == text[pos..end][..n];
    }
    forall k | pos + n <= k < end
      ensures Continuation(text[k])
    {
      assert text[k] == text[pos..end][k - pos] == s[1 + (k - pos - n)];
    }
    LiteralOne(text, pos, s[0], end);
    HighSanitized(s[0]);
  }

  lemma {:induction false} HighSanitized(c: char)
    ensures c == 255 as char ==> |Sanitized(c)| == 1
    ensures |Sanitized(c)| >= 1
  {}

  lemma {:induction false} FirstLone(s: string)
    requires s != ""
    ensures LoneAt(s, 0) <==> s[0] == 255 as char && FirstEnd(s) == 1
  {}

  lemma {:induction false} BytewiseParts(s: string, m: nat)
    requires Bytewise(s) && 0 < m <= |s|
    ensures s[0] < 256 as char && Bytewise(s[m..])
  {}

  lemma {:induction false} NoneSanitized()
    ensures SanitizeAll("") == ""
  {}

  /** A literal ends after its first character; unless that is the closing quote, later. */
  lemma {:induction false} LiteralEnds(text: string, pos: nat, triple: bool)
    requires pos <= |text| && Literal(text, pos, triple).Some?
    ensures pos < Literal(text, pos, triple).value.1
    ensures CharAt(text, pos).0.Utf? || triple ==> CharAt(text, pos).1 < Literal(text, pos, triple).value.1
    decreases |text| - pos
  {
    hide CharAt, Literal;
    LiteralStep(text, pos, triple);
    var (c, p1) := CharAt(text, pos);
    CharFacts(text, pos);
    CharFacts(text, p1);
    var (d, p2) := CharAt(text, p1);
    CharFacts(text, p2);
    if Literal(text, p1, triple).Some? {
      LiteralEnds(text, p1, triple);
    }
    if p2 > pos && Literal(text, p2, triple).Some? {
      LiteralEnds(text, p2, triple);
    }
  }

  /** A quote followed by a continuation byte is not a quote. */
  lemma {:induction false} CharLonger(text: string, pos: nat)
    requires pos + 1 < |text| && text[pos] != '\n' && Continuation(text[pos + 1])
    ensures CharAt(text, pos).0.Utf? && CharAt(text, pos).1 >= pos + 2
  {}

  predicate AloneQuote(text: string, q: nat) {
    q < |text| && text[q] == '"' && (q + 1 == |text| || !Continuation(text[q + 1]))
  }

  lemma {:induction false} QuoteAt(text: string, q: nat)
    requires q < |text| && text[q] == '"'
    ensures Is(CharAt(text, q).0, '"') <==> AloneQuote(text, q)
    ensures AloneQuote(text, q) ==> CharAt(text, q) == (Code('"' as int), q + 1)
    ensures AloneQuote(text, q) ==> Literal(text, q, false) == Some(("", q + 1))
    ensures !AloneQuote(text, q) ==> Literal(text, q, false).None? || Literal(text, q, false).value.1 > q + 1
  {
    hide Literal, CharAt;
    LiteralStep(text, q, false);
    if AloneQuote(text, q) {
      CharAlone(text, q);
    } else {
      CharLonger(text, q);
      if Literal(text, q, false).Some? {
        LiteralEnds(text, q, false);
      }
    }
  }

  lemma {:induction false} OtherAt(text: string, p: nat)
    requires p < |text| && text[p] != '"'
    ensures !Is(CharAt(text, p).0, '"')
  {}

  /** What may follow the closing quote of a literal for `s`. */
  predicate Closes(s: string, rest: string) {
    rest == "" || (!Continuation(rest[0]) && !(s == "" && rest[0] == '"' && (|rest| == 1 || !Continuation(rest[1]))))
  }

  /** The bytes from the closing quote on. */
  lemma {:induction false} TailBytes(text: string, q: nat, rest: string)
    requires q <= |text| && text[q..] == "\"" + rest
    ensures q < |text| && text[q] == '"' && |text| == q + 1 + |rest|
    ensures AloneQuote(text, q) <==> rest == "" || !Continuation(rest[0])
    ensures rest != "" ==> text[q + 1] == rest[0]
    ensures rest != "" && rest[0] == '"' ==> (AloneQuote(text, q + 1) <==> |rest| == 1 || !Continuation(rest[1]))
  {
    assert text[q] == text[q..][0];
    assert rest != "" ==> text[q + 1] == text[q..][1];
    assert |rest| > 1 ==> text[q + 2] == text[q..][2];
  }

  lemma {:induction false} EmptyQuoted(text: string, q: nat, rest: string)
    requires q <= |text| && text[q..] == "\"" + rest
    ensures Quoted(text, q) == Some(("", q + 1)) <==> Closes("", rest)
  {
    hide Literal, CharAt, AloneQuote, Continuation;
    TailBytes(text, q, rest);
    QuoteAt(text, q);
    CharFacts(text, q + 1);
    if rest != "" && rest[0] == '"' {
      QuoteAt(text, q + 1);
      if AloneQuote(text, q + 1) && Literal(text, q + 2, true).Some? {
        LiteralEnds(text, q + 2, true);
      }
    } else if rest != "" {
      OtherAt(text, q + 1);
    }
  }

  lemma {:induction false} FullQuoted(text: string, start: nat, s: string, rest: string)
    requires Bytewise(s) && s != "" && start <= |text| && text[start..] == SanitizeAll(s) + ("\"" + rest)
    ensures var q := start + |SanitizeAll(s)|;
            Quoted(text, start) == Some((SanitizeAll(s), q + 1)) <==> Closes(s, rest) && !Lone(s)
  {
    hide Literal, CharAt, AloneQuote, Continuation, SanitizeAll, Then, Lone;
    var tail := "\"" + rest;
    var q := start + |SanitizeAll(s)|;
    FirstByte(s, tail);
    assert text[start] == text[start..][0];
    OtherAt(text, start);
    Suffix(text, start, SanitizeAll(s), tail);
    TailBytes(text, q, rest);
    QuoteAt(text, q);
    LiteralAll(text, start, s, tail);
    ThenSome(SanitizeAll(s), q + 1);
    ThenKeepsEnd(SanitizeAll(s), Literal(text, q, false));
  }

  /** The string token whose opening quote is at `pos`: none when the quote is part of a longer
      character or the literal does not end. */
  function StringAt(text: string, pos: nat): (r: Option<(string, nat)>)
    requires pos < |text|
  {
    var (c, p) := CharAt(text, pos);
    if Is(c, '"') then Quoted(text, p) else None
  }

  /** What may stand between quotes: it does not begin with a continuation byte and has no lone byte 255. */
  predicate Scannable(s: string) {
    !Lone(s) && (s == "" || !Continuation(s[0]))
  }

  /** Scanning a sanitized text between quotes, any bytes, gives the sanitized text and ends after the
      closing quote, exactly when the text is scannable and what follows lets the quote close it. */
  lemma {:induction false} QuotedSanitized(before: string, s: string, rest: string)
    requires Bytewise(s)
    ensures var text := before + "\"" + (SanitizeAll(s) + ("\"" + rest));
            var end := |before| + 1 + |SanitizeAll(s)| + 1;
            StringAt(text, |before|) == Some((SanitizeAll(s), end)) <==> Scannable(s) && Closes(s, rest)
  {
    hide *;
    var head, body := before + "\"", SanitizeAll(s) + ("\"" + rest);
    var text := head + body;
    assert text[|head|..] == body;
    assert text[|before|] == '"' && text[|before| + 1] == body[0];
    FirstByte(s, "\"" + rest);
    OpeningQuote(text, |before|);
    ScannableParts(s);
    if s == "" {
      NoneSanitized();
      assert "" + ("\"" + rest) == "\"" + rest;
      EmptyQuoted(text, |head|, rest);
    } else {
      FullQuoted(text, |head|, s, rest);
    }
  }

  lemma {:induction false} ScannableParts(s: string)
    ensures Scannable(s) <==> !Lone(s) && (s == "" || !Continuation(s[0]))
    ensures s == "" ==> Scannable(s)
  {}

  lemma {:induction false} OpeningQuote(text: string, pos: nat)
    requires pos + 1 < |text| && text[pos] == '"'
    ensures StringAt(text, pos) == if Continuation(text[pos + 1]) then None else Quoted(text, pos + 1)
  {
    hide Quoted;
  }

  lemma {:induction false} ThenKeepsEnd(s: string, r: Option<(string, nat)>)
    ensures Then(s, r).Some? <==> r.Some?
    ensures r.Some? ==> Then(s, r).value.1 == r.value.1
  {}

  /** Sanitize, quote, scan, unescape: the text comes back, and nothing after the quote is read. */
  lemma {:induction false} LiteralRoundTrip(u: Utf8, before: string, s: string, rest: string)
    requires Bytewise(s) && Scannable(s) && Closes(s, rest)
    ensures var text := before + "\"" + (SanitizeAll(s) + ("\"" + rest));
            var scanned := StringAt(text, |before|);
            && scanned.Some? && UnescapeAll(u, scanned.value.0) == Ok(s)
            && scanned.value.1 <= |text| && text[scanned.value.1..] == rest
  {
    hide *;
    QuotedSanitized(before, s, rest);
    UnescapeSanitize(u, s);
    var text := before + "\"" + (SanitizeAll(s) + ("\"" + rest));
    assert text[|before| + 1 + |SanitizeAll(s)| + 1..] == rest;
  }

  /** Every ASCII text, and every text of characters that begin with a byte from 192 to 254, is scannable. */
  lemma {:induction false} TextScannable(s: string)
    requires s != "" ==> !Continuation(s[0])
    requires forall i :: 0 <= i < |s| ==> s[i] < 255 as char
    ensures Bytewise(s) && Scannable(s)
  {}

  /** A lone byte 255 does not: the scanner takes it for the end of the file. */
  lemma {:induction false} LoneByteIsEndOfFile()
    ensures StringAt("\"" + SanitizeAll([255 as char]) + "\"", 0) == None
  {
    assert SanitizeAll([255 as char]) == [255 as char] by {
      assert Sanitized(255 as char) == [255 as char];
      assert [255 as char][1..] == "";
    }
    var text := "\"" + [255 as char] + "\"";
    assert text == ['"', 255 as char, '"'];
    assert CharAt(text, 0) == (Code('"' as int), 1);
    assert CharAt(text, 1) == (Code(EOF), 2);
  }
}
