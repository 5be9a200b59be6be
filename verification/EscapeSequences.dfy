/** What the escape sequences of string literals stand for (`Parser::unescapeString` in
    frontend/parser.cpp), said by positional numbers and without the parsing functions. */
module EscapeSequences {
  import opened Lists
  import opened Escapes

  const LOWER: string := "0123456789abcdef"
  const UPPER: string := "0123456789ABCDEF"

  /** `c` is digit `d`, in either case. */
  predicate Writes(c: char, d: nat) {
    d < 16 && (c == LOWER[d] || c == UPPER[d])
  }

  /** The number with the digits `ds`, the highest first. */
  function Positional(ds: seq<nat>, radix: nat): nat {
    if ds == [] then 0 else Positional(ds[..|ds| - 1], radix) * radix + ds[|ds| - 1]
  }

  ghost predicate Spells(v: string, ds: seq<nat>, radix: nat) {
    |v| == |ds| && forall i :: 0 <= i < |ds| ==> ds[i] < radix && Writes(v[i], ds[i])
  }

  predicate NoDigit(c: char, radix: nat) {
    forall d :: 0 <= d < radix ==> !Writes(c, d)
  }

  predicate Blank(c: char) {
    c in [' ', '\t', '\n', 11 as char, 12 as char, '\r']
  }

  lemma {:induction false} DigitKnown(c: char, d: nat)
    requires Writes(c, d)
    ensures DigitOf(c) == d && !Blank(c) && c !in ['+', '-', 'x', 'X', 0 as char]
  {}

  lemma {:induction false} DigitExactly(c: char)
    ensures DigitOf(c) < 16 ==> Writes(c, DigitOf(c))
    ensures IsSpace(c) <==> Blank(c)
  {}

  lemma {:induction false} NoDigitKnown(c: char, radix: nat)
    requires radix <= 16
    ensures NoDigit(c, radix) <==> DigitOf(c) >= radix
  {
    hide DigitOf, Writes;
    DigitExactly(c);
    if DigitOf(c) < radix {
      assert Writes(c, DigitOf(c));
    }
    forall d: nat | d < radix && Writes(c, d) ensures DigitOf(c) == d {
      DigitKnown(c, d);
    }
  }

  // ----- numbers as strtoll reads them -----

  lemma {:induction false} SpacesSkipped(v: string, ws: string, i: nat)
    requires i <= |ws| <= |v| && v[..|ws|] == ws && forall k :: 0 <= k < |ws| ==> Blank(ws[k])
    requires |ws| < |v| ==> !Blank(v[|ws|])
    ensures SkipSpaces(v, i) == |ws|
    decreases |ws| - i
  {
    hide Blank, IsSpace;
    if i < |v| {
      DigitExactly(v[i]);
    }
    if i < |ws| {
      assert v[i] == ws[i];
      SpacesSkipped(v, ws, i + 1);
    }
  }

  lemma {:induction false} DigitsRead(v: string, at: nat, ds: seq<nat>, i: nat, radix: nat)
    requires radix <= 16 && i <= |ds| && at + |ds| <= |v| && Spells(v[at..at + |ds|], ds, radix)
    requires at + |ds| < |v| ==> NoDigit(v[at + |ds|], radix)
    ensures Digits(v, at + i, radix, Positional(ds[..i], radix)) == (Positional(ds, radix), at + |ds|)
    decreases |ds| - i
  {
    hide DigitOf, Writes, NoDigit;
    if i == |ds| {
      assert ds[..i] == ds;
      if at + i < |v| {
        NoDigitKnown(v[at + i], radix);
      }
    } else {
      assert v[at..at + |ds|][i] == v[at + i];
      DigitKnown(v[at + i], ds[i]);
      assert ds[..i + 1][..i] == ds[..i];
      DigitsRead(v, at, ds, i + 1, radix);
    }
  }

  lemma {:induction false} PositionalNone(radix: nat)
    ensures Positional([], radix) == 0
  {}

  /** The text before the digits: blanks, a sign, and for hexadecimal numbers a prefix. */
  ghost predicate Lead(ws: string, sign: string, prefix: string, radix: nat) {
    && (forall i :: 0 <= i < |ws| ==> Blank(ws[i]))
    && sign in ["", "+", "-"] && (prefix == "" || (radix == 16 && prefix in ["0x", "0X"]))
  }

  /** A single zero in front of what would make it a hexadecimal prefix. */
  predicate LooksPrefixed(digits: string, tail: string, radix: nat) {
    radix == 16 && digits == "0" && |tail| >= 2 && tail[0] in ['x', 'X'] && !NoDigit(tail[1], 16)
  }

  /** Blanks, a sign, a prefix and digits are read up to the first character that is no digit, as the number
      that they write. */
  lemma {:induction false} StrtollReads(ws: string, sign: string, prefix: string, digits: string, ds: seq<nat>, tail: string, radix: nat)
    requires radix <= 16 && Lead(ws, sign, prefix, radix) && ds != [] && Spells(digits, ds, radix)
    requires tail != "" ==> NoDigit(tail[0], radix)
    requires prefix == "" ==> !LooksPrefixed(digits, tail, radix)
    ensures Strtoll(ws + sign + prefix + digits + tail, radix)
         == (if sign == "-" then -(Positional(ds, radix) as int) else Positional(ds, radix) as int, |ws + sign + prefix + digits|)
  {
    var v := ws + sign + prefix + digits + tail;
    var c := |ws + sign + prefix|;
    hide Writes, NoDigit, Blank, IsSpace, DigitOf, Strtoll;
    assert v[..|ws|] == ws && v[c..c + |ds|] == digits && (tail != "" ==> v[c + |ds|] == tail[0]);
    LeadEnds(ws, sign, prefix, digits, ds, tail, radix);
    StrtollFrom(v, ws, sign != "", prefix != "", c, ds, radix);
  }

  lemma {:induction false} StrtollFrom(v: string, ws: string, signed: bool, prefixed: bool, c: nat, ds: seq<nat>, radix: nat)
    requires radix <= 16 && |ws| < |v| && v[..|ws|] == ws && (forall i :: 0 <= i < |ws| ==> Blank(ws[i])) && !Blank(v[|ws|])
    requires var b := if signed then |ws| + 1 else |ws|;
             && c == (if prefixed then b + 2 else b) && (signed <==> v[|ws|] == '-' || v[|ws|] == '+')
             && (prefixed <==> radix == 16 && b + 2 < |v| && v[b] == '0' && (v[b + 1] == 'x' || v[b + 1] == 'X') && DigitOf(v[b + 2]) < 16)
    requires ds != [] && c + |ds| <= |v| && Spells(v[c..c + |ds|], ds, radix)
    requires c + |ds| < |v| ==> NoDigit(v[c + |ds|], radix)
    ensures Strtoll(v, radix)
         == (if signed && v[|ws|] == '-' then -(Positional(ds, radix) as int) else Positional(ds, radix) as int, c + |ds|)
  {
    hide *;
    SpacesSkipped(v, ws, 0);
    DigitsRead(v, c, ds, 0, radix);
    PositionalNone(radix);
    assert ds[..0] == [];
    StrtollAt(v, radix, |ws|, signed, prefixed, Positional(ds, radix), c + |ds|);
  }

  /** The steps of `strtoll`, each with its result. */
  lemma {:induction false} StrtollAt(v: string, radix: nat, a: nat, signed: bool, prefixed: bool, n: nat, end: nat)
    requires SkipSpaces(v, 0) == a < |v| && (signed <==> v[a] == '-' || v[a] == '+')
    requires var b := if signed then a + 1 else a;
             var c := if prefixed then b + 2 else b;
             && (prefixed <==> radix == 16 && b + 2 < |v| && v[b] == '0' && (v[b + 1] == 'x' || v[b + 1] == 'X') && DigitOf(v[b + 2]) < 16)
             && c <= |v| && Digits(v, c, radix, 0) == (n, end) && end != c
    ensures Strtoll(v, radix) == (if signed && v[a] == '-' then -(n as int) else n as int, end)
  {
    hide SkipSpaces, Digits, DigitOf;
  }

  /** Where the parts before the digits begin and end. */
  lemma {:induction false} LeadEnds(ws: string, sign: string, prefix: string, digits: string, ds: seq<nat>, tail: string, radix: nat)
    requires radix <= 16 && Lead(ws, sign, prefix, radix) && ds != [] && Spells(digits, ds, radix)
    requires tail != "" ==> NoDigit(tail[0], radix)
    requires prefix == "" ==> !LooksPrefixed(digits, tail, radix)
    ensures var v := ws + sign + prefix + digits + tail;
            var a, b := |ws|, |ws + sign|;
            && a < |v| && !Blank(v[a])
            && ((v[a] == '-' || v[a] == '+') <==> sign != "") && (sign != "" ==> [v[a]] == sign)
            && ((radix == 16 && b + 2 < |v| && v[b] == '0' && (v[b + 1] == 'x' || v[b + 1] == 'X') && DigitOf(v[b + 2]) < 16)
                <==> prefix != "")
  {
    hide Writes, NoDigit, DigitOf;
    var v := ws + sign + prefix + digits + tail;
    var b := |ws + sign|;
    assert Writes(digits[0], ds[0]);
    DigitKnown(digits[0], ds[0]);
    if prefix == "" {
      assert v[b] == digits[0];
      if |digits| >= 2 {
        assert Writes(digits[1], ds[1]) && v[b + 1] == digits[1];
        DigitKnown(digits[1], ds[1]);
      } else if |tail| >= 2 {
        assert digits == [digits[0]] && v[b + 1] == tail[0] && v[b + 2] == tail[1];
        NoDigitKnown(tail[1], 16);
      }
    } else {
      assert v[b] == prefix[0] && v[b + 1] == prefix[1] && v[b + 2] == digits[0];
    }
  }

  /** Without a digit nothing is read. */
  lemma {:induction false} StrtollReadsNothing(ws: string, sign: string, tail: string, radix: nat)
    requires radix <= 16 && Lead(ws, sign, "", radix) && (tail != "" ==> NoDigit(tail[0], radix))
    requires tail != "" && sign == "" ==> !Blank(tail[0]) && tail[0] !in ['+', '-']
    requires tail != "" && radix == 16 ==> tail[0] != '0'
    ensures Strtoll(ws + sign + tail, radix) == (0, 0)
  {
    var v := ws + sign + tail;
    var a, b := |ws|, |ws + sign|;
    assert v[..a] == ws;
    if sign != "" {
      assert v[a] == sign[0];
    } else if tail != "" {
      assert v[a] == tail[0];
    }
    SpacesSkipped(v, ws, 0);
    if tail != "" {
      assert v[b] == tail[0];
      NoDigitKnown(tail[0], radix);
    }
  }

  /** The text of an escape is a number exactly when nothing follows the digits, or a null byte does. */
  lemma {:induction false} NumberExactly(ws: string, sign: string, prefix: string, digits: string, ds: seq<nat>, tail: string, radix: nat)
    requires radix <= 16 && Lead(ws, sign, prefix, radix) && ds != [] && Spells(digits, ds, radix)
    requires tail != "" ==> NoDigit(tail[0], radix)
    requires prefix == "" ==> !LooksPrefixed(digits, tail, radix)
    ensures EscapeNumber(ws + sign + prefix + digits + tail, radix)
         == if tail != "" && tail[0] != 0 as char then None
            else Some(if sign == "-" then -(Positional(ds, radix) as int) else Positional(ds, radix) as int)
  {
    hide Strtoll, Lead, Spells, NoDigit, LooksPrefixed, Positional;
    StrtollReads(ws, sign, prefix, digits, ds, tail, radix);
    var v := ws + sign + prefix + digits + tail;
    assert tail != "" ==> v[|ws + sign + prefix + digits|] == tail[0];
  }

  lemma {:induction false} NumberRead(v: string, ds: seq<nat>, radix: nat)
    requires radix <= 16 && ds != [] && Spells(v, ds, radix)
    ensures EscapeNumber(v, radix) == Some(Positional(ds, radix))
  {
    hide Writes, NoDigit, EscapeNumber;
    NumberExactly("", "", "", v, ds, "", radix);
    assert "" + "" + "" + v + "" == v;
  }

  // ----- numeric escapes -----

  /** How many digits follow a letter, if any do. */
  function Width(letter: char): nat {
    if letter in ['x', 'X'] then 2 else if letter in ['q', 'Q'] then 3
    else if letter == 'u' then 4 else if letter == 'U' then 8 else 0
  }

  function Radix(letter: char): nat {
    if letter in ['q', 'Q'] then 8 else 16
  }

  /** What a numeric escape stands for: the byte, or the code point as the C++ library converts it. */
  function Encoded(u: Utf8, letter: char, m: nat): string
    requires letter !in ['u', 'U'] ==> m < 256
  {
    if letter == 'u' then u.two(m) else if letter == 'U' then u.four(m) else [m as char]
  }

  function Modulus(letter: char): nat {
    if letter == 'u' then 0x1_0000 else if letter == 'U' then 0x1_0000_0000 else 256
  }

  /** A numeric escape whose text is read as `k` stands for the number `m` of its width with that
      remainder. */
  lemma {:induction false} NumberEscape(u: Utf8, letter: char, v: string, k: int, q: int, m: nat, rest: string)
    requires Width(letter) == |v| > 0 && EscapeNumber(v, Radix(letter)) == Some(k)
    requires m < Modulus(letter) && k == q * Modulus(letter) + m
    ensures UnescapeAll(u, "\\" + [letter] + v + rest) == Prepend(Encoded(u, letter, m), UnescapeAll(u, rest))
  {
    hide EscapeNumber, AfterBackslash, UnescapeAll, Prepend;
    var t := [letter] + v + rest;
    assert t[1..|v| + 1] == v && t[|v| + 1..] == rest;
    assert "\\" + [letter] + v + rest == "\\" + t && ("\\" + t)[1..] == t;
    Steps(u, "\\" + t);
    Steps(u, t);
    if letter == 'u' {
      TwoByteRemainder(k, q, m);
    } else if letter == 'U' {
      FourByteRemainder(k, q, m);
    } else {
      ByteRemainder(k, q, m);
    }
  }

  lemma {:induction false} ByteRemainder(k: int, q: int, m: nat)
    requires m < 256 && k == q * 256 + m
    ensures k % 256 == m
  {
    assert q == k / 256;
  }

  lemma {:induction false} TwoByteRemainder(k: int, q: int, m: nat)
    requires m < 0x1_0000 && k == q * 0x1_0000 + m
    ensures k % 0x1_0000 == m
  {
    assert q == k / 0x1_0000;
  }

  lemma {:induction false} FourByteRemainder(k: int, q: int, m: nat)
    requires m < 0x1_0000_0000 && k == q * 0x1_0000_0000 + m
    ensures k % 0x1_0000_0000 == m
  {
    assert q == k / 0x1_0000_0000;
  }

  lemma {:induction false} TwoDigits(c: nat)
    ensures Positional([c / 16, c % 16], 16) == c
  {
    assert [c / 16, c % 16][..1] == [c / 16] && [c / 16][..0] == [];
    assert Positional([c / 16], 16) == c / 16;
  }

  /** `\x` and the two hexadecimal digits of a byte, in either case, stand for the byte. */
  lemma {:induction false} HexEscape(u: Utf8, letter: char, c: char, v: string, rest: string)
    requires letter in ['x', 'X'] && c < 256 as char && Spells(v, [c as nat / 16, c as nat % 16], 16)
    ensures UnescapeAll(u, "\\" + [letter] + v + rest) == Prepend([c], UnescapeAll(u, rest))
  {
    hide EscapeNumber, Prepend, UnescapeAll, Writes, Positional;
    TwoDigits(c as nat);
    NumberRead(v, [c as nat / 16, c as nat % 16], 16);
    NumberEscape(u, letter, v, c as nat, 0, c as nat, rest);
  }

  /** `\q` and three octal digits stand for the byte with that number, modulo 256. */
  lemma {:induction false} OctalEscape(u: Utf8, letter: char, v: string, ds: seq<nat>, rest: string)
    requires letter in ['q', 'Q'] && |ds| == 3 && Spells(v, ds, 8)
    ensures UnescapeAll(u, "\\" + [letter] + v + rest) == Prepend([(Positional(ds, 8) % 256) as char], UnescapeAll(u, rest))
  {
    hide EscapeNumber, Prepend, UnescapeAll, Writes, Positional;
    NumberRead(v, ds, 8);
    NumberEscape(u, letter, v, Positional(ds, 8), Positional(ds, 8) / 256, Positional(ds, 8) % 256, rest);
  }

  function Power16(n: nat): nat {
    if n == 0 then 1 else Power16(n - 1) * 16
  }

  lemma {:induction false} PositionalBound(ds: seq<nat>)
    requires forall i :: 0 <= i < |ds| ==> ds[i] < 16
    ensures Positional(ds, 16) < Power16(|ds|)
    decreases |ds|
  {
    if ds != [] {
      PositionalBound(ds[..|ds| - 1]);
    }
  }

  /** `\u` and four, `\U` and eight hexadecimal digits stand for the code point with that number. */
  lemma {:induction false} UnicodeEscape(u: Utf8, v: string, ds: seq<nat>, rest: string)
    requires Spells(v, ds, 16)
    ensures |ds| == 4 ==> UnescapeAll(u, "\\u" + v + rest) == Prepend(u.two(Positional(ds, 16)), UnescapeAll(u, rest))
    ensures |ds| == 8 ==> UnescapeAll(u, "\\U" + v + rest) == Prepend(u.four(Positional(ds, 16)), UnescapeAll(u, rest))
  {
    hide EscapeNumber, Prepend, UnescapeAll, Writes, Positional, Power16;
    PositionalBound(ds);
    Powers();
    if |ds| == 4 {
      NumberRead(v, ds, 16);
      NumberEscape(u, 'u', v, Positional(ds, 16), 0, Positional(ds, 16), rest);
      assert "\\u" == "\\" + ['u'];
    } else if |ds| == 8 {
      NumberRead(v, ds, 16);
      NumberEscape(u, 'U', v, Positional(ds, 16), 0, Positional(ds, 16), rest);
      assert "\\U" == "\\" + ['U'];
    }
  }

  lemma {:induction false} Powers()
    ensures Power16(4) == 0x1_0000 && Power16(8) == 0x1_0000_0000
  {
    assert Power16(2) == 0x100 by { assert Power16(1) == 16; }
    assert Power16(4) == 0x1_0000 by { assert Power16(3) == 0x1000; }
    assert Power16(6) == 0x100_0000 by { assert Power16(5) == 0x10_0000; }
    assert Power16(7) == 0x1000_0000;
  }

  // ----- the other escapes, and what is none -----

  const LETTERS: string := "\"\\abfnrtv"
  const CODES: seq<nat> := [34, 92, 7, 8, 12, 10, 13, 9, 11]

  /** The one-letter escapes stand for these bytes. */
  lemma {:induction false} LetterEscape(u: Utf8, i: nat, rest: string)
    requires i < |LETTERS|
    ensures UnescapeAll(u, "\\" + [LETTERS[i]] + rest) == Prepend([CODES[i] as char], UnescapeAll(u, rest))
  {
    hide Prepend, UnescapeAll, Numeric;
    var t := [LETTERS[i]] + rest;
    assert "\\" + [LETTERS[i]] + rest == "\\" + t && ("\\" + t)[1..] == t && t[1..] == rest;
    Steps(u, "\\" + t);
    Steps(u, t);
  }

  /** Exactly the sequences that are none, by the reason that is reported. */
  lemma {:induction false} EscapeFails(u: Utf8, t: string)
    requires t != ""
    ensures Escape(u, t) == Err(NamedEscape) <==> t[0] == 'N'
    ensures Escape(u, t) == Err(UnknownEscape) <==> t[0] !in LETTERS && t[0] != 'N' && Width(t[0]) == 0
    ensures Escape(u, t) == Err(ShortEscape) <==> Width(t[0]) > 0 && |t| <= Width(t[0])
    ensures Escape(u, t) == Err(IncorrectEscape) <==>
              Width(t[0]) > 0 && |t| > Width(t[0]) && EscapeNumber(t[1..Width(t[0]) + 1], Radix(t[0])).None?
  {
    hide EscapeNumber;
  }

  // ----- what sanitizing writes -----

  /** A sanitized character: a letter escape, a hexadecimal escape with upper-case digits for the other control
      characters, and every other character as it is. */
  lemma {:induction false} SanitizedExactly(c: char)
    ensures forall i :: 0 <= i < |CODES| && CODES[i] == c as nat ==> SanitizeAll([c]) == ['\\', LETTERS[i]]
    ensures c as nat !in CODES && c < ' ' ==> SanitizeAll([c]) == ['\\', 'x', UPPER[c as nat / 16], UPPER[c as nat % 16]]
    ensures c as nat !in CODES && c >= ' ' ==> SanitizeAll([c]) == [c]
  {
    assert [c][1..] == "" && SanitizeAll([c]) == Sanitized(c);
    if c < ' ' {
      UpperDigit(c as nat / 16);
      UpperDigit(c as nat % 16);
    }
  }

  lemma UpperDigit(d: nat)
    requires d < 16
    ensures HexDigit(d) == UPPER[d]
  {}

  lemma SanitizeFirst(s: string)
    ensures s != "" ==> SanitizeAll(s) == SanitizeAll([s[0]]) + SanitizeAll(s[1..])
    ensures SanitizeAll("") == ""
  {
    if s != "" {
      assert [s[0]][1..] == "" && SanitizeAll([s[0]]) == Sanitized(s[0]);
    }
  }

  /** Texts are sanitized character by character. */
  lemma {:induction false} SanitizeParts(s: string, t: string)
    ensures SanitizeAll(s + t) == SanitizeAll(s) + SanitizeAll(t)
    decreases s
  {
    hide *;
    SanitizeFirst(s);
    SanitizeFirst(s + t);
    if s == "" {
      assert s + t == t;
    } else {
      SanitizeParts(s[1..], t);
      assert (s + t)[1..] == s[1..] + t;
    }
  }
}
