/** The string printer against the string reader, and the UTF-8 emitter against an
    independent decoder written after section 4 of RFC 3629. */
module JsonStrings {
  import opened Bytes
  import opened JsonGrammar
  import opened JsonReader
  import opened JsonFields

  // ---------------------------------------------------------------- Escape

  function HexUpper(n: nat): (c: char)
    requires n < 16
    ensures IsHexDigit(c) && HexDigitValue(c) == n
  {
    if n < 10 then ('0' as int + n) as char else ('A' as int + (n - 10)) as char
  }

  /** How the printer spells one byte. */
  function EscapeByte(c: char): (p: Piece)
    ensures WFPiece(p) && DecodePiece(p) == [c]
  {
    if c == '"' || c == '\\' then Short(c)
    else if c == '\U{08}' then Short('b')
    else if c == '\U{0C}' then Short('f')
    else if c == '\n' then Short('n')
    else if c == '\r' then Short('r')
    else if c == '\t' then Short('t')
    else if c as int < 0x20 then Hex('0', '0', HexUpper(c as int / 16), HexUpper(c as int % 16))
    else Plain(c)
  }

  function EscapePieces(s: string): (ps: seq<Piece>)
    ensures WFPieces(ps)
  {
    if s == "" then [] else [EscapeByte(s[0])] + EscapePieces(s[1..])
  }

  function Escape(s: string): string {
    RenderPieces(EscapePieces(s))
  }

  lemma {:induction false} EscapeAppend(s: string, c: char)
    ensures Escape(s + [c]) == Escape(s) + RenderPiece(EscapeByte(c))
    decreases |s|
  {
    hide EscapeByte, RenderPiece;
    if s == "" {
      assert s + [c] == [c];
      assert EscapePieces([c]) == [EscapeByte(c)] + EscapePieces([c][1..]);
    } else {
      assert (s + [c])[1..] == s[1..] + [c];
      EscapeAppend(s[1..], c);
      PiecesCons(EscapeByte(s[0]), EscapePieces(s[1..]));
      PiecesCons(EscapeByte(s[0]), EscapePieces((s + [c])[1..]));
    }
  }

  lemma {:induction false} DecodeEscape(s: string)
    ensures Decode(EscapePieces(s)) == s
    decreases |s|
  {
    if s == "" {
    } else {
      DecodeEscape(s[1..]);
      assert EscapePieces(s)[1..] == EscapePieces(s[1..]);
    }
  }

  /** Printing then reading gives the text back, whatever stands before and after the token. */
  lemma StringRoundTrip(before: string, s: string, after: string)
    ensures var t := before + ("\"" + Escape(s) + "\"") + after;
            var r := ReadString(t, |before|);
            r.Ok? && Decode(r.value) == s && r.end == |t| - |after| && t[r.end..] == after
  {
    hide Has, RenderPieces;
    var ps := EscapePieces(s);
    assert "\"" + Escape(s) + "\"" == Quoted(ps);
    HasWithin(before, Quoted(ps), after);
    ReadStringComplete(before + Quoted(ps) + after, |before|, ps);
    DecodeEscape(s);
  }

  /** Scanned from its start, with a backslash consuming the byte behind it, a text holds no control
      byte and no quote that is not consumed; so a quote put behind it is the first to end a token. */
  ghost predicate Escaped(e: string) {
    if e == "" then true
    else if e[0] == '\\' then |e| >= 2 && e[1] as int >= 0x20 && Escaped(e[2..])
    else e[0] as int >= 0x20 && e[0] != '"' && Escaped(e[1..])
  }

  lemma {:induction false} EscapeClean(s: string)
    ensures Escaped(Escape(s))
    decreases |s|
  {
    hide EscapeByte, RenderPiece, Escaped;
    if s == "" {
      NothingEscaped();
    } else {
      EscapeClean(s[1..]);
      PiecesCons(EscapeByte(s[0]), EscapePieces(s[1..]));
      PieceIsEscaped(EscapeByte(s[0]), Escape(s[1..]));
    }
  }

  lemma NothingEscaped()
    ensures Escaped("")
  {
  }

  /** The spelling of any piece may stand before escaped text. */
  lemma PieceIsEscaped(p: Piece, rest: string)
    requires WFPiece(p) && Escaped(rest)
    ensures Escaped(RenderPiece(p) + rest)
  {
    hide Escaped;
    match p
    case Plain(c) => PlainIsEscaped(c, rest);
    case Short(c) => PairIsEscaped(c, rest);
    case Hex(a, b, c, d) =>
      PlainIsEscaped(d, rest);
      PlainIsEscaped(c, [d] + rest);
      PlainIsEscaped(b, [c] + ([d] + rest));
      PlainIsEscaped(a, [b] + ([c] + ([d] + rest)));
      PairIsEscaped('u', [a] + ([b] + ([c] + ([d] + rest))));
      assert RenderPiece(p) + rest == ['\\', 'u'] + ([a] + ([b] + ([c] + ([d] + rest))));
  }

  lemma PlainIsEscaped(c: char, rest: string)
    requires Escaped(rest) && c as int >= 0x20 && c != '"' && c != '\\'
    ensures Escaped([c] + rest)
  {
    assert ([c] + rest)[1..] == rest;
  }

  lemma PairIsEscaped(c: char, rest: string)
    requires Escaped(rest) && c as int >= 0x20
    ensures Escaped(['\\', c] + rest)
  {
    assert (['\\', c] + rest)[2..] == rest;
  }

  /** Text without quotes, backslashes and control bytes is printed as it is. */
  predicate IsPlainText(s: string) {
    forall i :: 0 <= i < |s| ==> s[i] as int >= 0x20 && s[i] != '"' && s[i] != '\\'
  }

  lemma {:induction false} PlainTextUnchanged(s: string)
    requires IsPlainText(s)
    ensures Escape(s) == s
    decreases |s|
  {
    if s == "" {
    } else {
      PlainTextUnchanged(s[1..]);
      PiecesCons(EscapeByte(s[0]), EscapePieces(s[1..]));
      assert EscapeByte(s[0]) == Plain(s[0]);
      assert s == [s[0]] + s[1..];
    }
  }

  /** A backslash and one more byte are an escape exactly for these eight, each of which stands for
      one byte. */
  lemma ShortEscapeMeaning(c: char)
    ensures var r := ReadString(['"', '\\', c, '"'], 0);
            (r.Ok? <==> c in "\"\\/bfnrt") &&
            (r.Ok? ==>
              r.end == 4 && |Decode(r.value)| == 1 &&
              Decode(r.value)[0] as int ==
                if c == 'b' then 8 else if c == 'f' then 12 else if c == 'n' then 10 else if c == 'r' then 13
                else if c == 't' then 9 else c as int)
  {
    var t := ['"', '\\', c, '"'];
    assert c in "\"\\/bfnrt" <==> IsShort(c);
    if IsShort(c) {
      var ps := [Short(c)];
      assert RenderPieces(ps) == RenderPiece(ps[0]) + RenderPieces(ps[1..]);
      assert Quoted(ps) == t;
      HasSlice(t, 0, t);
      ReadStringComplete(t, 0, ps);
      assert Decode(ps) == DecodePiece(ps[0]) + Decode(ps[1..]);
    }
  }

  ghost function HexDigits(capital: bool): (digits: string)
    ensures |digits| == 16
  {
    if capital then "0123456789ABCDEF" else "0123456789abcdef"
  }

  /** The value of a hex digit is its place among the digits, in either case. */
  lemma HexDigitReads(n: nat, capital: bool)
    requires n < 16
    ensures IsHexDigit(HexDigits(capital)[n]) && HexDigitValue(HexDigits(capital)[n]) == n
  {
  }

  /** Four hex digits are worth the sum of their values by place, the most significant first. */
  lemma HexValueReads(a: nat, b: nat, c: nat, d: nat, capital: bool)
    requires a < 16 && b < 16 && c < 16 && d < 16
    ensures var digits := HexDigits(capital);
            IsHexDigit(digits[a]) && IsHexDigit(digits[b]) && IsHexDigit(digits[c]) && IsHexDigit(digits[d]) &&
            HexValue(digits[a], digits[b], digits[c], digits[d]) == a * 4096 + b * 256 + c * 16 + d
  {
    hide IsHexDigit, HexDigitValue, HexDigits;
    HexDigitReads(a, capital);
    HexDigitReads(b, capital);
    HexDigitReads(c, capital);
    HexDigitReads(d, capital);
  }

  /** Each byte is printed in the shortest way that is read back, with capital hex digits. */
  lemma EscapeIsShortest(c: char, p: Piece)
    requires WFPiece(p) && DecodePiece(p) == [c]
    ensures |RenderPiece(EscapeByte(c))| <= |RenderPiece(p)|
    ensures EscapeByte(c).Plain? <==> c as int >= 0x20 && c != '"' && c != '\\'
    ensures EscapeByte(c).Hex? ==> forall i :: 2 <= i < 6 ==> RenderPiece(EscapeByte(c))[i] in "0123456789ABCDEF"
  {
    hide HexUpper, Utf8, HexValue, HexDigitValue;
    match p
    case Plain(d) => assert d == c;
    case Short(d) => assert ShortMeaning(d) == c;
    case Hex(_, _, _, _) =>
    if EscapeByte(c).Hex? {
      UpperDigits(c as int / 16);
      UpperDigits(c as int % 16);
    }
  }

  lemma UpperDigits(n: nat)
    requires n < 16
    ensures HexUpper(n) in "0123456789ABCDEF"
  {
  }

  // ----------------------------------------------------------------- UTF-8

  predicate Within(s: string, i: nat, lo: nat, hi: nat) {
    i < |s| && lo <= s[i] as int <= hi
  }

  predicate Tail(s: string, i: nat) {
    Within(s, i, 0x80, 0xBF)
  }

  /** The code point at the front of a byte string and its length, by the byte ranges of RFC 3629. */
  function DecodeUtf8(s: string): Option<(nat, nat)> {
    if Within(s, 0, 0, 0x7F) then Some((s[0] as int, 1))
    else if Within(s, 0, 0xC2, 0xDF) && Tail(s, 1) then
      Some(((s[0] as int - 0xC0) * 64 + (s[1] as int - 0x80), 2))
    else if Tail(s, 2) && ((Within(s, 0, 0xE0, 0xE0) && Within(s, 1, 0xA0, 0xBF)) ||
                           (Within(s, 0, 0xE1, 0xEC) && Tail(s, 1)) ||
                           (Within(s, 0, 0xED, 0xED) && Within(s, 1, 0x80, 0x9F)) ||
                           (Within(s, 0, 0xEE, 0xEF) && Tail(s, 1))) then
      Some(((s[0] as int - 0xE0) * 4096 + (s[1] as int - 0x80) * 64 + (s[2] as int - 0x80), 3))
    else if Tail(s, 2) && Tail(s, 3) && ((Within(s, 0, 0xF0, 0xF0) && Within(s, 1, 0x90, 0xBF)) ||
                                         (Within(s, 0, 0xF1, 0xF3) && Tail(s, 1)) ||
                                         (Within(s, 0, 0xF4, 0xF4) && Within(s, 1, 0x80, 0x8F))) then
      Some(((s[0] as int - 0xF0) * 262144 + (s[1] as int - 0x80) * 4096 + (s[2] as int - 0x80) * 64 +
        (s[3] as int - 0x80), 4))
    else None
  }

  predicate IsSurrogate(cp: nat) {
    0xD800 <= cp <= 0xDFFF
  }

  /** The six-bit digits of a code point put it together again. */
  lemma SixBits(cp: nat)
    ensures cp == cp / 64 * 64 + cp % 64
    ensures cp / 64 == cp / 4096 * 64 + cp / 64 % 64
    ensures cp / 4096 == cp / 262144 * 64 + cp / 4096 % 64
  {
  }

  /** The emitted bytes decode to the code point, whatever follows them, unless it is a surrogate. */
  lemma Utf8Decodes(cp: nat, rest: string)
    requires cp <= 0x10FFFF
    ensures DecodeUtf8(Utf8(cp) + rest) == if IsSurrogate(cp) then None else Some((cp, |Utf8(cp)|))
  {
    hide DecodeUtf8;
    var u := Utf8(cp);
    SixBits(cp);
    if cp <= 0x7F {
      DecodeOne(u, rest);
    } else if cp <= 0x7FF {
      DecodeTwo(u, rest);
    } else if cp <= 0xFFFF {
      DecodeThree(u, rest);
    } else {
      DecodeFour(u, rest);
    }
  }

  lemma DecodeOne(u: string, rest: string)
    requires |u| == 1 && u[0] as int <= 0x7F
    ensures DecodeUtf8(u + rest) == Some((u[0] as int, 1))
  {
  }

  lemma DecodeTwo(u: string, rest: string)
    requires |u| == 2 && Within(u, 0, 0xC2, 0xDF) && Tail(u, 1)
    ensures DecodeUtf8(u + rest) == Some(((u[0] as int - 0xC0) * 64 + (u[1] as int - 0x80), 2))
  {
  }

  lemma DecodeThree(u: string, rest: string)
    requires |u| == 3 && Within(u, 0, 0xE0, 0xEF) && Tail(u, 1) && Tail(u, 2)
    requires u[0] as int == 0xE0 ==> u[1] as int >= 0xA0
    ensures DecodeUtf8(u + rest) ==
            if u[0] as int == 0xED && u[1] as int >= 0xA0 then None
            else Some(((u[0] as int - 0xE0) * 4096 + (u[1] as int - 0x80) * 64 + (u[2] as int - 0x80), 3))
  {
  }

  lemma DecodeFour(u: string, rest: string)
    requires |u| == 4 && Within(u, 0, 0xF0, 0xF4) && Tail(u, 1) && Tail(u, 2) && Tail(u, 3)
    requires (u[0] as int == 0xF0 ==> u[1] as int >= 0x90) && (u[0] as int == 0xF4 ==> u[1] as int <= 0x8F)
    ensures DecodeUtf8(u + rest) ==
            Some(((u[0] as int - 0xF0) * 262144 + (u[1] as int - 0x80) * 4096 + (u[2] as int - 0x80) * 64 +
              (u[3] as int - 0x80), 4))
  {
  }

  /** No emission is a prefix of another one; surrogates, which are emitted too, included. */
  lemma Utf8PrefixFree(a: nat, b: nat)
    requires a <= 0x10FFFF && b <= 0x10FFFF && Utf8(a) <= Utf8(b)
    ensures a == b
  {
    hide Utf8;
    Utf8Length(a);
    Utf8Length(b);
    assert Utf8(a) == Utf8(b);
    Utf8Injective(a);
    Utf8Injective(b);
  }

  function Payload(u: string): int
    requires 1 <= |u| <= 4
  {
    if |u| == 1 then u[0] as int
    else if |u| == 2 then (u[0] as int - 0xC0) * 64 + (u[1] as int - 0x80)
    else if |u| == 3 then (u[0] as int - 0xE0) * 4096 + (u[1] as int - 0x80) * 64 + (u[2] as int - 0x80)
    else (u[0] as int - 0xF0) * 262144 + (u[1] as int - 0x80) * 4096 + (u[2] as int - 0x80) * 64 + (u[3] as int - 0x80)
  }

  lemma Utf8Injective(cp: nat)
    requires cp <= 0x10FFFF
    ensures Payload(Utf8(cp)) == cp
  {
    SixBits(cp);
  }

  /** The first byte tells the length. */
  lemma Utf8Length(cp: nat)
    requires cp <= 0x10FFFF
    ensures var u := Utf8(cp); var h := u[0] as int;
            |u| == if h < 0x80 then 1 else if h < 0xE0 then 2 else if h < 0xF0 then 3 else 4
  {
  }

  /** A token that is one `\uXXXX` escape is read as the UTF-8 bytes of its code point. */
  lemma UnicodeEscapeMeaning(a: char, b: char, c: char, d: char)
    requires IsHexDigit(a) && IsHexDigit(b) && IsHexDigit(c) && IsHexDigit(d)
    ensures var r := ReadString(['"', '\\', 'u', a, b, c, d, '"'], 0);
            var cp := HexValue(a, b, c, d);
            r.Ok? && r.end == 8 && Decode(r.value) == Utf8(cp) &&
            (DecodeUtf8(Decode(r.value)) == Some((cp, |Decode(r.value)|)) <==> !IsSurrogate(cp))
  {
    var t := ['"', '\\', 'u', a, b, c, d, '"'];
    var ps := [Hex(a, b, c, d)];
    assert RenderPieces(ps) == RenderPiece(ps[0]) + RenderPieces(ps[1..]);
    assert Quoted(ps) == t;
    HasSlice(t, 0, Quoted(ps));
    ReadStringComplete(t, 0, ps);
    var cp := HexValue(a, b, c, d);
    assert Decode(ps) == DecodePiece(ps[0]) + Decode(ps[1..]) == Utf8(cp);
    assert Utf8(cp) + "" == Utf8(cp);
    Utf8Decodes(cp, "");
  }

  /** The code point a surrogate pair stands for. */
  function PairMeaning(high: nat, low: nat): (cp: nat)
    requires 0xD800 <= high < 0xDC00 <= low < 0xE000
    ensures 0x10000 <= cp <= 0x10FFFF
  {
    0x10000 + (high - 0xD800) * 0x400 + (low - 0xDC00)
  }

  /** Two escapes that make up a surrogate pair are read as the encodings of the two surrogates,
      never as that of the code point they stand for. */
  lemma SurrogatePairsStayApart(h: Piece, l: Piece)
    requires h.Hex? && l.Hex? && WFPiece(h) && WFPiece(l)
    requires var high, low := HexValue(h.a, h.b, h.c, h.d), HexValue(l.a, l.b, l.c, l.d);
             0xD800 <= high < 0xDC00 <= low < 0xE000
    ensures var high, low := HexValue(h.a, h.b, h.c, h.d), HexValue(l.a, l.b, l.c, l.d);
            var r := ReadString(Quoted([h, l]), 0);
            r.Ok? && Decode(r.value) == Utf8(high) + Utf8(low) && Decode(r.value) != Utf8(PairMeaning(high, low))
  {
    hide RenderPieces, Has, ReadString, HexValue;
    var t := Quoted([h, l]);
    HasSlice(t, 0, t);
    ReadStringComplete(t, 0, [h, l]);
    assert [h, l][1..] == [l] && [l][1..] == [];
    assert DecodePiece(l) + "" == DecodePiece(l);
    assert Decode([l]) == DecodePiece(l) + Decode([]);
    assert Decode([h, l]) == DecodePiece(h) + Decode([l]);
  }
}
