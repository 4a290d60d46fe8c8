/** HTTP messages as the server hands them around, and the text searches its parser is made of. */
module Http {
  import opened Bytes

  datatype HttpRequest = HttpRequest(verb: string, path: string, headers: map<string, string>, body: string)
  datatype HttpResponse = HttpResponse(status: int, contentType: string, body: string, hasBody: bool)

  const JSON_CONTENT_TYPE := "application/json; charset=utf-8"

  function ToLowerChar(c: char): char {
    if 'A' <= c <= 'Z' then (c as int + 32) as char else c
  }

  function ToLower(s: string): (r: string)
    ensures |r| == |s| && forall i :: 0 <= i < |s| ==> r[i] == ToLowerChar(s[i])
  {
    seq(|s|, i requires 0 <= i < |s| => ToLowerChar(s[i]))
  }

  // ------------------------------------------------------------ searching

  /** `std::string::find`: the first position from `from` on where `s` stands. */
  function Find(t: string, s: string, from: nat): (r: Option<nat>)
    ensures r.Some? ==> from <= r.value && r.value + |s| <= |t| && Has(t, r.value, s)
    ensures r.Some? ==> forall j: nat :: from <= j < r.value ==> !Has(t, j, s)
    ensures r.None? ==> forall j: nat :: from <= j ==> !Has(t, j, s)
    decreases |t| - from
  {
    if from + |s| > |t| then None
    else
      HasSlice(t, from, s);
      if t[from..from + |s|] == s then Some(from) else Find(t, s, from + 1)
  }

  lemma HasShift(a: string, t: string, s: string, j: nat)
    ensures Has(a + t, |a| + j, s) <==> Has(t, j, s)
  {
    if Has(a + t, |a| + j, s) {
      assert forall i {:trigger s[i]} :: 0 <= i < |s| ==> (a + t)[|a| + j + i] == t[j + i];
    }
  }

  lemma HasFront(a: string, b: string)
    ensures Has(a + b, 0, a)
  {
  }

  /** Searching behind a prefix is searching the rest. */
  lemma FindShift(a: string, t: string, s: string, from: nat)
    ensures var r := Find(t, s, from);
            Find(a + t, s, |a| + from) == if r.Some? then Some(|a| + r.value) else None
  {
    hide Has;
    var r, q := Find(t, s, from), Find(a + t, s, |a| + from);
    if r.Some? {
      HasShift(a, t, s, r.value);
    }
    if q.Some? {
      HasShift(a, t, s, q.value - |a|);
    }
  }

  lemma HasInFront(t: string, more: string, s: string, j: nat)
    requires j + |s| <= |t|
    ensures Has(t + more, j, s) <==> Has(t, j, s)
  {
    assert forall i {:trigger s[i]} :: 0 <= i < |s| ==> (t + more)[j + i] == t[j + i];
  }

  /** Text behind the first occurrence does not matter. */
  lemma FindAppend(t: string, s: string, more: string)
    requires Find(t, s, 0).Some?
    ensures Find(t + more, s, 0) == Find(t, s, 0)
  {
    hide Has;
    var e := Find(t, s, 0).value;
    HasInFront(t, more, s, e);
    var q := Find(t + more, s, 0);
    if q.value < e {
      HasInFront(t, more, s, q.value);
    }
  }

  lemma FindAt(t: string, c: char, k: nat)
    requires k < |t| && t[k] == c && forall i :: 0 <= i < k ==> t[i] != c
    ensures Find(t, [c], 0) == Some(k)
  {
    hide Has;
    HasByte(t, k, c);
    HasByte(t, Find(t, [c], 0).value, c);
  }

  /** Behind a stretch without the pattern's first byte, the pattern is found where it stands. */
  lemma FindBehind(a: string, c: char, rest: string)
    requires c !in a
    ensures Find(a + ([c] + rest), [c], 0) == Some(|a|)
  {
    hide Find, Has;
    var t := a + ([c] + rest);
    assert t[|a|] == c;
    FindAt(t, c, |a|);
  }

  lemma FindByte(t: string, c: char)
    ensures Find(t, [c], 0).None? <==> c !in t
    ensures Find(t, [c], 0).Some? ==> var i := Find(t, [c], 0).value; i < |t| && t[i] == c && c !in t[..i]
  {
    var q := Find(t, [c], 0);
    if q.Some? {
      HasByte(t, q.value, c);
      forall j | 0 <= j < q.value ensures t[j] != c {
        HasByte(t, j, c);
      }
    } else {
      forall j | 0 <= j < |t| ensures t[j] != c {
        HasByte(t, j, c);
      }
    }
  }

  // ---------------------------------------------------------------- lines

  const CR_LF := "\r\n"
  const BLANK_LINE := "\r\n\r\n"

  ghost predicate IsLine(s: string) {
    Find(s, CR_LF, 0).None?
  }

  /** The pieces of a text between its line ends. */
  function Split(h: string): (lines: seq<string>)
    ensures lines != []
    decreases |h|
  {
    var i := Find(h, CR_LF, 0);
    if i.None? then [h] else [h[..i.value]] + Split(h[i.value + 2..])
  }

  ghost function Block(lines: seq<string>): string
    requires lines != []
  {
    if |lines| == 1 then lines[0] else lines[0] + (CR_LF + Block(lines[1..]))
  }

  lemma HasCrLf(t: string, p: nat)
    ensures Has(t, p, CR_LF) <==> p + 2 <= |t| && t[p] == '\r' && t[p + 1] == '\n'
  {
    if p + 2 <= |t| {
      assert CR_LF[0] == '\r' && CR_LF[1] == '\n' && t[p + 0] == t[p];
    }
  }

  lemma LineEndAt(t: string, k: nat)
    requires k + 2 <= |t| && t[k] == '\r' && t[k + 1] == '\n'
    requires forall i :: 0 <= i < k ==> !(t[i] == '\r' && t[i + 1] == '\n')
    ensures Find(t, CR_LF, 0) == Some(k)
  {
    hide Has;
    HasCrLf(t, k);
    HasCrLf(t, Find(t, CR_LF, 0).value);
  }

  lemma LineHasNoEnd(line: string, i: nat)
    requires IsLine(line) && i + 2 <= |line|
    ensures !(line[i] == '\r' && line[i + 1] == '\n')
  {
    hide Has;
    HasCrLf(line, i);
  }

  /** The first line end behind a line is the one that ends it. */
  lemma LineEnds(line: string, rest: string)
    requires IsLine(line)
    ensures Find(line + (CR_LF + rest), CR_LF, 0) == Some(|line|)
  {
    hide IsLine, Find;
    var t := line + (CR_LF + rest);
    assert CR_LF[0] == '\r' && CR_LF[1] == '\n' && forall i :: 0 <= i < |line| ==> t[i] == line[i];
    assert t[|line|] == '\r' && t[|line| + 1] == '\n';
    forall i | 0 <= i < |line| ensures !(t[i] == '\r' && t[i + 1] == '\n') {
      if i + 2 <= |line| {
        LineHasNoEnd(line, i);
      }
    }
    LineEndAt(t, |line|);
  }

  /** `Split` is the one way to write a text as lines. */
  lemma {:induction false} SplitBlock(lines: seq<string>)
    requires lines != [] && forall l: string :: l in lines ==> IsLine(l)
    ensures Split(Block(lines)) == lines
    decreases |lines|
  {
    hide IsLine;
    assert IsLine(lines[0]);
    if |lines| == 1 {
      OneLineSplit(lines[0]);
    } else {
      var rest := Block(lines[1..]);
      LineEnds(lines[0], rest);
      assert (lines[0] + (CR_LF + rest))[..|lines[0]|] == lines[0];
      assert (lines[0] + (CR_LF + rest))[|lines[0]| + 2..] == rest;
      assert forall l: string :: l in lines[1..] ==> l in lines;
      SplitBlock(lines[1..]);
    }
  }

  lemma OneLineSplit(line: string)
    requires IsLine(line)
    ensures Split(line) == [line]
  {
  }

  lemma {:induction false} BlockSplit(h: string)
    ensures Block(Split(h)) == h && forall l: string :: l in Split(h) ==> IsLine(l)
    decreases |h|
  {
    var i := Find(h, CR_LF, 0);
    if i.Some? {
      HasCrLf(h, i.value);
      var rest := h[i.value + 2..];
      BlockSplit(rest);
      CutAtCrLf(h, i.value);
      FirstPieceIsLine(h);
      assert Split(h)[1..] == Split(rest);
    }
  }

  lemma CutAtCrLf(h: string, i: nat)
    requires i + 2 <= |h| && h[i] == '\r' && h[i + 1] == '\n'
    ensures h == h[..i] + (CR_LF + h[i + 2..])
  {
    assert h[i..] == CR_LF + h[i + 2..];
  }

  lemma FirstPieceIsLine(h: string)
    requires Find(h, CR_LF, 0).Some?
    ensures IsLine(h[..Find(h, CR_LF, 0).value])
  {
    var e := Find(h, CR_LF, 0).value;
    var q := Find(h[..e], CR_LF, 0);
    if q.Some? {
      HasCrLf(h[..e], q.value);
      HasCrLf(h, q.value);
    }
  }

  // ------------------------------------------------------ end of a header

  ghost predicate IsHeaderLine(s: string) {
    s != "" && IsLine(s)
  }

  lemma HasBlankLine(t: string, p: nat)
    ensures Has(t, p, BLANK_LINE) <==> Has(t, p, CR_LF) && Has(t, p + 2, CR_LF)
  {
    assert BLANK_LINE == CR_LF + CR_LF;
    HasConcat(t, p, CR_LF, CR_LF);
  }

  /** Non-empty lines end at the blank line behind them, whatever follows. */
  lemma {:induction false} HeaderEnds(lines: seq<string>, body: string)
    requires lines != [] && forall l: string :: l in lines ==> IsHeaderLine(l)
    ensures Find(Block(lines) + (BLANK_LINE + body), BLANK_LINE, 0) == Some(|Block(lines)|)
    decreases |lines|
  {
    hide Has, IsLine, Find;
    assert IsHeaderLine(lines[0]);
    if |lines| == 1 {
      HasFront(CR_LF, body);
      BlankLineBehind(lines[0], CR_LF + body);
      assert BLANK_LINE + body == CR_LF + (CR_LF + body);
    } else {
      var rest := Block(lines[1..]) + (BLANK_LINE + body);
      assert forall l: string :: l in lines[1..] ==> l in lines;
      HeaderEnds(lines[1..], body);
      assert IsHeaderLine(lines[1]);
      StartsWithLine(lines[1..], body);
      NoBlankLineBefore(lines[0], rest);
      assert Block(lines) + (BLANK_LINE + body) == (lines[0] + CR_LF) + rest;
      assert lines[0] + (CR_LF + rest) == (lines[0] + CR_LF) + rest;
      FindFrom((lines[0] + CR_LF) + rest, BLANK_LINE, |lines[0] + CR_LF|);
      FindShift(lines[0] + CR_LF, rest, BLANK_LINE, 0);
    }
  }

  lemma FindFrom(t: string, s: string, k: nat)
    requires forall j: nat :: j < k ==> !Has(t, j, s)
    ensures Find(t, s, 0) == Find(t, s, k)
  {
    hide Has;
  }

  lemma StartsWithLine(lines: seq<string>, body: string)
    requires lines != [] && IsHeaderLine(lines[0])
    ensures !Has(Block(lines) + (BLANK_LINE + body), 0, CR_LF)
  {
    var t := Block(lines) + (BLANK_LINE + body);
    assert t[0] == lines[0][0];
    assert BLANK_LINE[0] == '\r' && CR_LF[0] == '\r';
    HasCrLf(t, 0);
    if |lines[0]| >= 2 {
      assert t[1] == lines[0][1];
      HasCrLf(lines[0], 0);
    } else if |lines| == 1 {
      assert t[1] == BLANK_LINE[0];
    } else {
      assert Block(lines)[1] == CR_LF[0];
    }
  }

  lemma LineEndIsFirst(t: string, k: nat)
    requires Find(t, CR_LF, 0) == Some(k)
    ensures forall j: nat :: j < k ==> !Has(t, j, CR_LF)
  {
    hide Has;
  }

  /** No blank line starts inside a line that is followed by another. */
  lemma NoBlankLineBefore(line: string, rest: string)
    requires IsLine(line) && !Has(rest, 0, CR_LF)
    ensures forall j: nat :: j < |line| + 2 ==> !Has(line + (CR_LF + rest), j, BLANK_LINE)
  {
    var t := line + (CR_LF + rest);
    hide Has, Find;
    LineEnds(line, rest);
    LineEndIsFirst(t, |line|);
    HasShift(line + CR_LF, rest, CR_LF, 0);
    assert t == (line + CR_LF) + rest && t[|line| + 1] == '\n';
    forall j: nat | j < |line| + 2 ensures !Has(t, j, BLANK_LINE) {
      HasBlankLine(t, j);
      HasCrLf(t, j);
    }
  }

  lemma BlankLineBehind(line: string, rest: string)
    requires IsLine(line) && Has(rest, 0, CR_LF)
    ensures Find(line + (CR_LF + rest), BLANK_LINE, 0) == Some(|line|)
  {
    hide Has, IsLine;
    var t := line + (CR_LF + rest);
    LineEnds(line, rest);
    HasShift(line + CR_LF, rest, CR_LF, 0);
    assert t == (line + CR_LF) + rest;
    HasBlankLine(t, |line|);
    var q := Find(t, BLANK_LINE, 0);
    HasBlankLine(t, q.value);
  }
}
