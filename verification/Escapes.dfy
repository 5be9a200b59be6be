/** String literals: `utils::sanitize` (interface/utils.cpp), `Parser::unescapeString`
    (frontend/parser.cpp) and `Scanner::parse_string` (frontend/scanner.cpp). A byte is a character
    of code below 256. Scanning and unescaping a sanitized text gives the text back. */
module Escapes {
  import opened Lists

  // ----- sanitize -----

  function HexDigit(d: nat): char
    requires d < 16
  {
    if d < 10 then '0' + d as char else 'A' + (d - 10) as char
  }

  /** One sanitized byte. */
  function Sanitized(c: char): string {
    if c == '\n' then "\\n"
    else if c == '\t' then "\\t"
    else if c == '\r' then "\\r"
    else if c == 8 as char then "\\b"
    else if c == 12 as char then "\\f"
    else if c == 11 as char then "\\v"
    else if c == 7 as char then "\\a"
    else if c < ' ' then "\\x" + [HexDigit(c as nat / 16), HexDigit(c as nat % 16)]
    else if c == '"' then "\\\""
    else if c == '\\' then "\\\\"
    else [c]
  }

  function SanitizeAll(text: string): string {
    if text == "" then "" else Sanitized(text[0]) + SanitizeAll(text[1..])
  }

  method Sanitize(text: string) returns (oss: string)
    ensures oss == SanitizeAll(text)
  {
    oss := "";
    for i := 0 to |text|
      invariant oss + SanitizeAll(text[i..]) == SanitizeAll(text)
    {
      var c := text[i];
      ghost var rest := text[i..];
      assert rest[0] == c && rest[1..] == text[i + 1..];
      assert oss + (Sanitized(c) + SanitizeAll(rest[1..])) == (oss + Sanitized(c)) + SanitizeAll(rest[1..]);
      if c < ' ' {
        match c {
          case '\n' => oss := oss + "\\n";
          case '\t' => oss := oss + "\\t";
          case '\r' => oss := oss + "\\r";
          case _ =>
            if c == 8 as char {
              oss := oss + "\\b";
            } else if c == 12 as char {
              oss := oss + "\\f";
            } else if c == 11 as char {
              oss := oss + "\\v";
            } else if c == 7 as char {
              oss := oss + "\\a";
            } else {
              oss := oss + ("\\x" + [HexDigit(c as nat / 16), HexDigit(c as nat % 16)]);
            }
        }
      } else if c == '"' {
        oss := oss + "\\\"";
      } else if c == '\\' {
        oss := oss + "\\\\";
      } else {
        oss := oss + [c];
      }
    }
    assert text[|text|..] == "";
  }

  // ----- strtoll, as unescapeString uses it -----

  predicate IsSpace(c: char) {
    c == ' ' || 9 as char <= c <= 13 as char
  }

  function DigitOf(c: char): nat {
    if '0' <= c <= '9' then (c - '0') as nat
    else if 'a' <= c <= 'f' then (c - 'a') as nat + 10
    else if 'A' <= c <= 'F' then (c - 'A') as nat + 10
    else 99
  }

  function SkipSpaces(v: string, i: nat): (j: nat)
    requires i <= |v|
    ensures i <= j <= |v|
    decreases |v| - i
  {
    if i < |v| && IsSpace(v[i]) then SkipSpaces(v, i + 1) else i
  }

  /** Digits from `i` on: their value after `acc`, and where they end. */
  function Digits(v: string, i: nat, radix: nat, acc: nat): (r: (nat, nat))
    requires i <= |v|
    ensures i <= r.1 <= |v|
    decreases |v| - i
  {
    if i < |v| && DigitOf(v[i]) < radix then Digits(v, i + 1, radix, acc * radix + DigitOf(v[i])) else (acc, i)
  }

  /** The value and the end of the number; without digits, 0 and the start. */
  function Strtoll(v: string, radix: nat): (r: (int, nat))
    ensures r.1 <= |v|
  {
    var a := SkipSpaces(v, 0);
    var signed := a < |v| && (v[a] == '-' || v[a] == '+');
    var b := if signed then a + 1 else a;
    var prefixed := radix == 16 && b + 2 < |v| && v[b] == '0' && (v[b + 1] == 'x' || v[b + 1] == 'X') && DigitOf(v[b + 2]) < 16;
    var c := if prefixed then b + 2 else b;
    var (n, d) := Digits(v, c, radix, 0);
    var value: int := if signed && v[a] == '-' then -(n as int) else n as int;
    if d == c then (0, 0) else (value, d)
  }

  /** The number of an escape sequence: all of the text must be consumed, up to a null byte. */
  function EscapeNumber(v: string, radix: nat): Option<int> {
    var (n, end) := Strtoll(v, radix);
    if end == |v| || v[end] == 0 as char then Some(n) else None
  }

  function ByteChar(n: int): char {
    (n % 256) as char
  }

  // ----- unescapeString -----

  datatype Diag = ShortEscape | IncorrectEscape | NamedEscape | UnknownEscape

  /** Conversion of code points to UTF-8 by the C++ library, for two and for four byte escapes. */
  datatype Utf8 = Utf8(two: nat -> string, four: nat -> string)

  /** A numeric escape: `n` digits after the letter. */
  function Numeric(t: string, n: nat, radix: nat): Result<int, Diag>
    requires t != ""
  {
    if |t| <= n then Err(ShortEscape)
    else match EscapeNumber(t[1..n + 1], radix)
      case None => Err(IncorrectEscape)
      case Some(v) => Ok(v)
  }

  /** The escape sequence whose letter is `t[0]`: what it stands for and its length. */
  function Escape(u: Utf8, t: string): (r: Result<(string, nat), Diag>)
    requires t != ""
    ensures r.Ok? ==> 1 <= r.value.1 <= |t|
  {
    match t[0]
    case '"' => Ok(("\"", 1))
    case '\\' => Ok(("\\", 1))
    case 'a' => Ok(([7 as char], 1))
    case 'b' => Ok(([8 as char], 1))
    case 'f' => Ok(([12 as char], 1))
    case 'n' => Ok(("\n", 1))
    case 'r' => Ok(("\r", 1))
    case 't' => Ok(("\t", 1))
    case 'v' => Ok(([11 as char], 1))
    case 'N' => Err(NamedEscape)
    case _ =>
      if t[0] == 'x' || t[0] == 'X' then
        match Numeric(t, 2, 16)
        case Err(e) => Err(e)
        case Ok(n) => Ok(([ByteChar(n)], 3))
      else if t[0] == 'q' || t[0] == 'Q' then
        match Numeric(t, 3, 8)
        case Err(e) => Err(e)
        case Ok(n) => Ok(([ByteChar(n)], 4))
      else if t[0] == 'u' then
        match Numeric(t, 4, 16)
        case Err(e) => Err(e)
        case Ok(n) => Ok((u.two(n % 0x1_0000), 5))
      else if t[0] == 'U' then
        match Numeric(t, 8, 16)
        case Err(e) => Err(e)
        case Ok(n) => Ok((u.four(n % 0x1_0000_0000), 9))
      else Err(UnknownEscape)
  }

  function Prepend(s: string, r: Result<string, Diag>): Result<string, Diag> {
    match r
    case Err(e) => Err(e)
    case Ok(t) => Ok(s + t)
  }

  predicate AtEnd(t: string) {
    t == "" || t[0] == 0 as char
  }

  /** The text of an escaped string: up to a null byte, a lone backslash at the end is dropped. */
  function UnescapeAll(u: Utf8, str: string): Result<string, Diag>
    decreases |str|, 1
  {
    if AtEnd(str) then Ok("")
    else if str[0] == '\\' then AfterBackslash(u, str[1..])
    else Prepend([str[0]], UnescapeAll(u, str[1..]))
  }

  function AfterBackslash(u: Utf8, t: string): Result<string, Diag>
    decreases |t|, 2
  {
    if AtEnd(t) then Ok("")
    else match Escape(u, t)
      case Err(e) => Err(e)
      case Ok((out, n)) => Prepend(out, UnescapeAll(u, t[n..]))
  }

  method UnescapeString(u: Utf8, str: string) returns (r: Result<string, Diag>)
    ensures r == UnescapeAll(u, str)
  {
    hide Escape, Prepend, UnescapeAll, AfterBackslash;
    var res := "";
    var backslash := false;
    var i := 0;
    assert str[0..] == str;
    PrependNothing(UnescapeAll(u, str));
    while i < |str| && str[i] != 0 as char
      invariant i <= |str|
      invariant UnescapeAll(u, str)
             == Prepend(res, if backslash then AfterBackslash(u, str[i..]) else UnescapeAll(u, str[i..]))
      decreases |str| - i
    {
      var c := str[i];
      Steps(u, str[i..]);
      if backslash {
        match Escape(u, str[i..]) {
          case Err(e) =>
            PrependError(res, e);
            return Err(e);
          case Ok((out, n)) =>
            PrependTwice(res, out, UnescapeAll(u, str[i + n..]));
            assert str[i..][n..] == str[i + n..];
            res := res + out;
            i := i + n;
        }
        backslash := false;
      } else if c == '\\' {
        assert str[i..][1..] == str[i + 1..];
        backslash := true;
        i := i + 1;
      } else {
        assert str[i..][1..] == str[i + 1..];
        PrependTwice(res, [c], UnescapeAll(u, str[i + 1..]));
        res := res + [c];
        i := i + 1;
      }
    }
    Steps(u, str[i..]);
    PrependOk(res);
    r := Ok(res);
  }

  /** One step of unescaping, before and after a backslash. */
  lemma {:induction false} Steps(u: Utf8, t: string)
    ensures AtEnd(t) ==> UnescapeAll(u, t) == Ok("") && AfterBackslash(u, t) == Ok("")
    ensures !AtEnd(t) && t[0] == '\\' ==> UnescapeAll(u, t) == AfterBackslash(u, t[1..])
    ensures !AtEnd(t) && t[0] != '\\' ==> UnescapeAll(u, t) == Prepend([t[0]], UnescapeAll(u, t[1..]))
    ensures !AtEnd(t) ==> AfterBackslash(u, t) == match Escape(u, t)
                                                  case Err(e) => Err(e)
                                                  case Ok((out, n)) => Prepend(out, UnescapeAll(u, t[n..]))
  {
    hide Escape, Prepend;
  }

  lemma {:induction false} PrependNothing(r: Result<string, Diag>)
    ensures Prepend("", r) == r
  {
    assert r.Ok? ==> "" + r.value == r.value;
  }

  lemma {:induction false} PrependError(s: string, e: Diag)
    ensures Prepend(s, Err(e)) == Err(e)
  {}

  lemma {:induction false} PrependOk(s: string)
    ensures Prepend(s, Ok("")) == Ok(s)
  {
    assert s + "" == s;
  }

  lemma {:induction false} PrependTwice(s: string, t: string, r: Result<string, Diag>)
    ensures Prepend(s, Prepend(t, r)) == Prepend(s + t, r)
  {
    assert r.Ok? ==> s + (t + r.value) == s + t + r.value;
  }

  // ----- unescaping undoes sanitizing -----

  lemma {:induction false} HexPair(c: char)
    requires c < ' '
    ensures EscapeNumber([HexDigit(c as nat / 16), HexDigit(c as nat % 16)], 16) == Some(c as nat)
  {
    var h, l := HexDigit(c as nat / 16), HexDigit(c as nat % 16);
    var v := [h, l];
    assert DigitOf(h) == c as nat / 16 && DigitOf(l) == c as nat % 16;
    assert SkipSpaces(v, 0) == 0;
    assert Digits(v, 2, 16, c as nat) == (c as nat, 2);
    assert Digits(v, 1, 16, c as nat / 16) == Digits(v, 2, 16, c as nat);
    assert Digits(v, 0, 16, 0) == Digits(v, 1, 16, c as nat / 16);
  }

  /** A sanitized byte is unescaped first, whatever follows. */
  lemma {:induction false} UnescapeOne(u: Utf8, c: char, rest: string)
    ensures UnescapeAll(u, Sanitized(c) + rest) == Prepend([c], UnescapeAll(u, rest))
  {
    hide Prepend, EscapeNumber, UnescapeAll, AfterBackslash;
    var t := Sanitized(c) + rest;
    Steps(u, t);
    if |Sanitized(c)| == 1 {
      assert t[1..] == rest;
    } else {
      var e := t[1..];
      Steps(u, e);
      assert e == Sanitized(c)[1..] + rest;
      if |Sanitized(c)| == 2 {
        assert e[1..] == rest;
      } else {
        HexPair(c);
        assert e[1..3] == [HexDigit(c as nat / 16), HexDigit(c as nat % 16)];
        assert e[3..] == rest;
      }
    }
  }

  /** For every byte string, null and control bytes included. */
  lemma {:induction false} UnescapeSanitize(u: Utf8, s: string)
    ensures UnescapeAll(u, SanitizeAll(s)) == Ok(s)
    decreases |s|
  {
    hide Sanitized, UnescapeAll;
    if s == "" {
      Steps(u, "");
    } else {
      UnescapeOne(u, s[0], SanitizeAll(s[1..]));
      UnescapeSanitize(u, s[1..]);
      assert [s[0]] + s[1..] == s;
    }
  }
}
