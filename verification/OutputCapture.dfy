/** Capturing a command's output: a line filter and a limit, fed in fragments. */
module OutputCapture {
  import opened Bytes
  import opened Http
  import opened JsonRpc

  const MARKER := "\n[... truncated ...]\n"

  // ---------------------------------------------------------------- pieces

  /** A fragment cut behind each line feed. */
  function Pieces(text: string): (pieces: seq<string>)
    decreases |text|
  {
    if text == "" then []
    else
      var i := Find(text, "\n", 0);
      if i.None? then [text] else [text[..i.value + 1]] + Pieces(text[i.value + 1..])
  }

  /** Not empty, and a line feed at most at its end. */
  ghost predicate IsPiece(s: string) {
    s != "" && '\n' !in s[..|s| - 1]
  }

  predicate Matches(line: string, pattern: string) {
    pattern == "" || Find(line, pattern, 0).Some?
  }

  /** What has been captured so far. */
  datatype Capture = Capture(output: string, lineCount: int, truncated: bool)

  function TakePiece(c: Capture, line: string, options: Options): Capture {
    if c.truncated || !Matches(line, options.pattern) then c
    else if c.lineCount < options.maxLines then
      Capture(c.output + line, c.lineCount + if line != "" && line[|line| - 1] == '\n' then 1 else 0, false)
    else Capture(c.output + MARKER, c.lineCount, true)
  }

  function TakePieces(c: Capture, pieces: seq<string>, options: Options): Capture
    decreases |pieces|
  {
    if pieces == [] then c else TakePieces(TakePiece(c, pieces[0], options), pieces[1..], options)
  }

  /** The capture after some fragments, one `Output` call each. */
  function Captured(fragments: seq<string>, options: Options): Capture {
    if fragments == [] then Capture("", 0, false)
    else TakePieces(Captured(fragments[..|fragments| - 1], options), Pieces(fragments[|fragments| - 1]), options)
  }

  class OutputCaptureCallbacks {
    const options: Options
    var output: string
    var lineCount: int
    var truncated: bool

    constructor (options: Options)
      ensures this.options == options && State() == Capture("", 0, false)
    {
      this.options := options;
      output, lineCount, truncated := "", 0, false;
    }

    ghost function State(): Capture
      reads this
    {
      Capture(output, lineCount, truncated)
    }

    /** A fragment of output; no text at all changes nothing. */
    method Output(text: Option<string>)
      modifies this
      ensures State() == if text.None? then old(State()) else TakePieces(old(State()), Pieces(text.value), options)
    {
      if text.None? {
        return;
      }
      hide Find, Has, TakePieces, Pieces, TakePiece;
      var input := text.value;
      if truncated {
        NothingAfterTruncation(State(), Pieces(input), options);
        return;
      }
      var start := 0;
      ghost var goal := TakePieces(State(), Pieces(input), options);
      assert input[0..] == input;
      while start < |input|
        invariant 0 <= start <= |input| && !truncated
        invariant goal == TakePieces(State(), Pieces(input[start..]), options)
      {
        start := TakeNextLine(input, start);
        if truncated {
          NothingAfterTruncation(State(), Pieces(input[start..]), options);
          return;
        }
      }
      assert input[start..] == "";
      NoPieces();
      TakeNothing(State(), options);
    }

    /** One turn of the loop: cut the next line off and decide about it. */
    method TakeNextLine(input: string, start: nat) returns (next: nat)
      requires start < |input| && !truncated
      modifies this
      ensures start < next <= |input|
      ensures TakePieces(old(State()), Pieces(input[start..]), options) ==
              TakePieces(State(), Pieces(input[next..]), options)
    {
      hide Find, Has, TakePieces, Pieces, TakePiece;
      TakeNext(State(), input, start, options);
      var end := Find(input, "\n", start);
      var line;
      if end.None? {
        line := input[start..];
        next := |input|;
      } else {
        line := input[start..end.value + 1];
        next := end.value + 1;
      }
      TakeLine(line);
    }

    /** The part of it that decides about one line. */
    method TakeLine(line: string)
      requires !truncated
      modifies this
      ensures State() == TakePiece(old(State()), line, options)
    {
      hide Find;
      if options.pattern != "" {
        if Find(line, options.pattern, 0).None? {
          return;
        }
      }
      if lineCount < options.maxLines {
        output := output + line;
        if line != "" && line[|line| - 1] == '\n' {
          lineCount := lineCount + 1;
        }
      } else {
        output := output + "\n[... truncated ...]\n";
        truncated := true;
      }
    }

    method TakeOutput() returns (r: string)
      ensures r == State().output
    {
      r := output;
    }
  }

  // ---------------------------------------------------------------- execute

  /** What the debugger engine does with a command: a step before its output fails, or the command
      puts out fragments and ends well or not. A failure comes with its message. */
  datatype Engine =
    | NoClient(message: string)
    | NoControl(message: string)
    | NoCallbacks(message: string)
    | Ran(fragments: seq<string>, failure: Option<string>)

  /** A command's execution: success exactly if the engine ran it without failure, and the output is
      the capture of its fragments. */
  method Execute(command: string, options: Options, engine: Engine) returns (r: Execution)
    ensures r.success <==> command != "" && engine.Ran? && engine.failure.None?
    ensures r.output == if command != "" && engine.Ran? then Captured(engine.fragments, options).output else ""
    ensures r.success <==> r.errorMessage == ""
    ensures command == "" ==> r.errorMessage == "Command cannot be empty"
    ensures command != "" && engine.NoClient? ==> r.errorMessage == "DebugCreate failed: " + engine.message
    ensures command != "" && engine.NoControl? ==> r.errorMessage == "IDebugControl not available: " + engine.message
    ensures command != "" && engine.NoCallbacks? ==> r.errorMessage == "SetOutputCallbacks failed: " + engine.message
    ensures command != "" && engine.Ran? && engine.failure.Some? ==>
              r.errorMessage == "IDebugControl::Execute failed: " + engine.failure.value
  {
    if command == "" {
      return Execution(false, "", "Command cannot be empty");
    }
    match engine
    case NoClient(message) => r := Execution(false, "", "DebugCreate failed: " + message);
    case NoControl(message) => r := Execution(false, "", "IDebugControl not available: " + message);
    case NoCallbacks(message) => r := Execution(false, "", "SetOutputCallbacks failed: " + message);
    case Ran(fragments, failure) =>
      var capture := new OutputCaptureCallbacks(options);
      for i := 0 to |fragments|
        invariant capture.State() == Captured(fragments[..i], options)
      {
        assert fragments[..i + 1][..i] == fragments[..i];
        capture.Output(Some(fragments[i]));
      }
      assert fragments[..|fragments|] == fragments;
      var output := capture.TakeOutput();
      if failure.Some? {
        return Execution(false, output, "IDebugControl::Execute failed: " + failure.value);
      }
      r := Execution(true, output, "");
  }

  lemma TakeFirst(c: Capture, line: string, rest: seq<string>, options: Options)
    ensures TakePieces(c, [line] + rest, options) == TakePieces(TakePiece(c, line, options), rest, options)
  {
    hide TakePiece;
    assert ([line] + rest)[1..] == rest;
  }

  /** Taking what is left of a text is taking its next line and then the rest. */
  lemma TakeNext(c: Capture, t: string, from: nat, options: Options)
    requires from < |t|
    ensures var i := Find(t, "\n", from);
            (i.Some? ==> from <= i.value < |t|) &&
            TakePieces(c, Pieces(t[from..]), options) ==
              if i.None? then TakePieces(TakePiece(c, t[from..], options), Pieces(t[|t|..]), options)
              else TakePieces(TakePiece(c, t[from..i.value + 1], options), Pieces(t[i.value + 1..]), options)
  {
    hide Find, Has, TakePieces, Pieces, TakePiece;
    NextPiece(t, from);
    var i := Find(t, "\n", from);
    if i.None? {
      TakeFirst(c, t[from..], Pieces(t[|t|..]), options);
    } else {
      TakeFirst(c, t[from..i.value + 1], Pieces(t[i.value + 1..]), options);
    }
  }

  lemma TakeNothing(c: Capture, options: Options)
    ensures TakePieces(c, [], options) == c
  {
  }

  lemma NextPiece(t: string, from: nat)
    requires from < |t|
    ensures var i := Find(t, "\n", from);
            (i.Some? ==> from <= i.value < |t|) &&
            Pieces(t[from..]) == (if i.None? then [t[from..]] + Pieces(t[|t|..])
              else [t[from..i.value + 1]] + Pieces(t[i.value + 1..]))
  {
    hide Find, Has;
    var rest := t[from..];
    assert t == t[..from] + rest;
    FindShift(t[..from], rest, "\n", 0);
    var i := Find(rest, "\n", 0);
    FindByte(rest, '\n');
    assert t[|t|..] == "" && [rest] + [] == [rest];
    if i.Some? {
      assert rest[..i.value + 1] == t[from..from + i.value + 1];
      assert rest[i.value + 1..] == t[from + i.value + 1..];
    }
  }

  /** Once truncated, a capture does not change any more. */
  lemma {:induction false} NothingAfterTruncation(c: Capture, pieces: seq<string>, options: Options)
    requires c.truncated
    ensures TakePieces(c, pieces, options) == c
    decreases |pieces|
  {
    if pieces == [] {
    } else {
      NothingAfterTruncation(c, pieces[1..], options);
    }
  }

  // ------------------------------------------------------ one-shot truncation

  function Newlines(s: string): nat {
    if s == "" then 0 else (if s[0] == '\n' then 1 else 0) + Newlines(s[1..])
  }

  /** The length of the shortest prefix with `m` line feeds, or of all of `s` if it has fewer. */
  function Cut(s: string, m: nat): (k: nat)
    ensures k <= |s|
  {
    if m == 0 || s == "" then 0 else 1 + Cut(s[1..], if s[0] == '\n' then m - 1 else m)
  }

  lemma {:induction false} CutIsShortest(s: string, m: nat)
    ensures var k := Cut(s, m);
            (k < |s| ==> Newlines(s[..k]) == m) && Newlines(s[..k]) <= m &&
            forall j :: 0 <= j < k ==> Newlines(s[..j]) < m
    decreases |s|
  {
    if m > 0 && s != "" {
      var rest, n := s[1..], if s[0] == '\n' then m - 1 else m;
      CutIsShortest(rest, n);
      var k := Cut(s, m);
      assert s[..k][1..] == rest[..k - 1];
      forall j | 0 <= j < k ensures Newlines(s[..j]) < m {
        if j > 0 {
          assert s[..j][1..] == rest[..j - 1];
        }
      }
    }
  }

  function LineLimit(maxLines: int): nat {
    if maxLines > 0 then maxLines else 0
  }

  /** All of a text at once: its first lines, and the marker if anything is missing. */
  function OneShot(text: string, maxLines: int): Capture {
    var k := Cut(text, LineLimit(maxLines));
    Capture(text[..k] + (if k < |text| then MARKER else ""), Newlines(text[..k]), k < |text|)
  }

  lemma {:induction false} NewlinesAppend(a: string, b: string)
    ensures Newlines(a + b) == Newlines(a) + Newlines(b)
    decreases |a|
  {
    if a == "" {
      assert a + b == b;
    } else {
      assert (a + b)[1..] == a[1..] + b;
      NewlinesAppend(a[1..], b);
    }
  }

  /** More text extends a prefix that reached the end and leaves one that did not. */
  lemma {:induction false} CutAppend(a: string, b: string, m: nat)
    ensures Cut(a, m) == |a| ==> Newlines(a) <= m
    ensures Cut(a + b, m) == if Cut(a, m) < |a| then Cut(a, m) else |a| + Cut(b, m - Newlines(a))
    decreases |a|
  {
    if a == "" {
      assert a + b == b;
    } else if m > 0 {
      assert (a + b)[1..] == a[1..] + b;
      CutAppend(a[1..], b, if a[0] == '\n' then m - 1 else m);
    }
  }

  lemma {:induction false} PieceNewlines(line: string)
    requires IsPiece(line)
    ensures Newlines(line) == if line[|line| - 1] == '\n' then 1 else 0
    decreases |line|
  {
    if |line| > 1 {
      assert line[0] in line[..|line| - 1];
      assert line[1..][..|line| - 2] == line[..|line| - 1][1..];
      PieceNewlines(line[1..]);
    }
  }

  lemma {:induction false} PieceCut(line: string, m: nat)
    requires IsPiece(line)
    ensures Cut(line, m) == if m == 0 then 0 else |line|
    decreases |line|
  {
    if |line| > 1 && m > 0 {
      assert line[0] in line[..|line| - 1];
      assert line[1..][..|line| - 2] == line[..|line| - 1][1..];
      PieceCut(line[1..], m);
    }
  }

  /** A kept piece extends the one-shot truncation of what was kept before. */
  lemma KeptPiece(kept: string, line: string, options: Options)
    requires IsPiece(line) && Matches(line, options.pattern)
    ensures TakePiece(OneShot(kept, options.maxLines), line, options) == OneShot(kept + line, options.maxLines)
  {
    hide Newlines, Cut, Matches;
    var m := LineLimit(options.maxLines);
    CutAppend(kept, line, m);
    NewlinesAppend(kept, line);
    PieceNewlines(line);
    assert kept[..|kept|] == kept && (kept + line)[..|kept|] == kept && (kept + line)[..|kept + line|] == kept + line;
    if Cut(kept, m) < |kept| {
      assert (kept + line)[..Cut(kept, m)] == kept[..Cut(kept, m)];
    } else {
      PieceCut(line, m - Newlines(kept));
      assert kept + "" == kept && kept + line + "" == kept + line;
    }
  }

  function Concat(pieces: seq<string>): string {
    if pieces == [] then "" else pieces[0] + Concat(pieces[1..])
  }

  /** The matching pieces among some, in order. */
  function Kept(pieces: seq<string>, pattern: string): string {
    if pieces == [] then ""
    else (if Matches(pieces[0], pattern) then pieces[0] else "") + Kept(pieces[1..], pattern)
  }

  lemma {:induction false} KeptPieces(kept: string, pieces: seq<string>, options: Options)
    requires forall p: string :: p in pieces ==> IsPiece(p)
    ensures TakePieces(OneShot(kept, options.maxLines), pieces, options) ==
            OneShot(kept + Kept(pieces, options.pattern), options.maxLines)
    decreases |pieces|
  {
    hide OneShot, Matches, IsPiece;
    if pieces == [] {
      assert kept + "" == kept;
    } else {
      var line, rest := pieces[0], pieces[1..];
      assert line in pieces && forall p: string :: p in rest ==> p in pieces;
      if Matches(line, options.pattern) {
        KeptPiece(kept, line, options);
        KeptPieces(kept + line, rest, options);
        assert kept + line + Kept(rest, options.pattern) == kept + (line + Kept(rest, options.pattern));
      } else {
        KeptPieces(kept, rest, options);
        assert "" + Kept(rest, options.pattern) == Kept(rest, options.pattern);
      }
    }
  }

  ghost predicate EndsLine(s: string) {
    s != "" && s[|s| - 1] == '\n'
  }

  lemma {:induction false} PiecesArePieces(text: string)
    ensures forall p: string :: p in Pieces(text) ==> IsPiece(p)
    ensures forall i :: 0 <= i < |Pieces(text)| - 1 ==> EndsLine(Pieces(text)[i])
    ensures Concat(Pieces(text)) == text
    decreases |text|
  {
    hide Find, Has, Pieces;
    if text == "" {
      NoPieces();
    } else {
      var k := FirstCut(text);
      PiecesArePieces(text[k..]);
      if k == |text| {
        NoPieces();
        assert text[k..] == "";
      }
      var first, rest := text[..k], Pieces(text[k..]);
      assert ([first] + rest)[1..] == rest;
      assert text == first + text[k..];
    }
  }

  /** Where the first piece of a text ends. */
  lemma FirstCut(text: string) returns (k: nat)
    requires text != ""
    ensures 0 < k <= |text| && IsPiece(text[..k]) && Pieces(text) == [text[..k]] + Pieces(text[k..])
    ensures k == |text| || EndsLine(text[..k])
  {
    hide Find, Has;
    FindByte(text, '\n');
    var i := Find(text, "\n", 0);
    k := if i.None? then |text| else i.value + 1;
    assert text[..k][..k - 1] == text[..k - 1];
    if i.None? {
      assert text[..k] == text && text[k..] == "";
    }
  }

  /** The lines of a text: put together they are the text, none is empty, and line feeds stand at the
      end of each but perhaps the last, and nowhere else. */
  ghost predicate AreLinesOf(lines: seq<string>, text: string) {
    Concat(lines) == text && (forall p: string :: p in lines ==> IsPiece(p)) &&
    forall i :: 0 <= i < |lines| - 1 ==> EndsLine(lines[i])
  }

  /** The pieces of a fragment are its lines, and there is no other way to cut it into lines. */
  lemma {:induction false} PiecesExactly(lines: seq<string>, text: string)
    ensures AreLinesOf(lines, text) <==> lines == Pieces(text)
    decreases |lines|
  {
    hide Find, Has, Pieces, IsPiece;
    PiecesArePieces(text);
    if AreLinesOf(lines, text) {
      if lines == [] {
        NoPieces();
      } else {
        var rest := lines[1..];
        assert IsPiece(lines[0]) && forall p: string :: p in rest ==> p in lines;
        assert forall i :: 0 <= i < |rest| - 1 ==> rest[i] == lines[i + 1];
        PiecesExactly(rest, Concat(rest));
        assert rest == [] || EndsLine(lines[0]);
        FirstPiece(lines[0], Concat(rest), rest);
      }
    }
  }

  /** A line stands first among the pieces of a text that begins with it. */
  lemma FirstPiece(line: string, more: string, rest: seq<string>)
    requires IsPiece(line) && rest == Pieces(more) && (EndsLine(line) || more == "")
    ensures [line] + rest == Pieces(line + more)
  {
    hide Find, Has;
    var text := line + more;
    FindByte(text, '\n');
    assert forall i :: 0 <= i < |line| - 1 ==> text[i] == line[i] == line[..|line| - 1][i];
    if EndsLine(line) {
      FindAt(text, '\n', |line| - 1);
      assert text[..|line|] == line && text[|line|..] == more;
    } else {
      assert text == line;
    }
  }

  /** The matching pieces of all the fragments. */
  function KeptText(fragments: seq<string>, pattern: string): string {
    if fragments == [] then ""
    else KeptText(fragments[..|fragments| - 1], pattern) + Kept(Pieces(fragments[|fragments| - 1]), pattern)
  }

  /** However the output is cut into fragments, and whatever the pattern, the capture is the
      one-shot truncation of the matching pieces. */
  lemma {:induction false} CaptureIsOneShot(fragments: seq<string>, options: Options)
    ensures Captured(fragments, options) == OneShot(KeptText(fragments, options.pattern), options.maxLines)
    decreases |fragments|
  {
    hide OneShot, Matches, IsPiece, Pieces;
    if fragments == [] {
      NothingCaptured(options.maxLines);
    } else {
      var last := fragments[|fragments| - 1];
      CaptureIsOneShot(fragments[..|fragments| - 1], options);
      PiecesArePieces(last);
      KeptPieces(KeptText(fragments[..|fragments| - 1], options.pattern), Pieces(last), options);
    }
  }

  lemma NothingCaptured(maxLines: int)
    ensures OneShot("", maxLines) == Capture("", 0, false)
  {
    assert ""[..0] == "" && "" + "" == "";
  }

  /** The count never passes the limit, and the captured text is what it counts, plus the marker. */
  lemma CaptureIsBounded(fragments: seq<string>, options: Options)
    ensures var c := Captured(fragments, options);
            0 <= c.lineCount <= LineLimit(options.maxLines) &&
            (c.truncated ==>
              |c.output| >= |MARKER| && c.lineCount == LineLimit(options.maxLines) &&
              c.output[|c.output| - |MARKER|..] == MARKER)
  {
    hide Cut, Newlines, Captured, KeptText;
    CaptureIsOneShot(fragments, options);
    CutIsShortest(KeptText(fragments, options.pattern), LineLimit(options.maxLines));
  }

  // ----------------------------------------------------- when cuts are harmless

  function Joined(fragments: seq<string>): string {
    if fragments == [] then "" else Joined(fragments[..|fragments| - 1]) + fragments[|fragments| - 1]
  }

  lemma {:induction false} KeptAll(pieces: seq<string>)
    ensures Kept(pieces, "") == Concat(pieces)
    decreases |pieces|
  {
    if pieces == [] {
    } else {
      KeptAll(pieces[1..]);
    }
  }

  /** Without a pattern the capture depends on the whole output alone. */
  lemma {:induction false} NoPatternNoCuts(fragments: seq<string>, options: Options)
    requires options.pattern == ""
    ensures Captured(fragments, options) == OneShot(Joined(fragments), options.maxLines)
  {
    hide OneShot;
    CaptureIsOneShot(fragments, options);
    KeptJoined(fragments);
  }

  lemma {:induction false} KeptJoined(fragments: seq<string>)
    ensures KeptText(fragments, "") == Joined(fragments)
    decreases |fragments|
  {
    hide Pieces, Matches;
    if fragments == [] {
    } else {
      var last := fragments[|fragments| - 1];
      KeptJoined(fragments[..|fragments| - 1]);
      KeptAll(Pieces(last));
      PiecesArePieces(last);
    }
  }

  /** A text breaks between `a` and `b` at the end of a line. */
  ghost predicate BreaksAtLine(a: string, b: string) {
    a == "" || b == "" || a[|a| - 1] == '\n'
  }

  /** Every fragment begins where a line does. */
  ghost predicate CutAtLines(fragments: seq<string>) {
    forall i :: 0 <= i < |fragments| ==> BreaksAtLine(Joined(fragments[..i]), fragments[i])
  }

  lemma {:induction false} PiecesAppend(a: string, b: string)
    requires BreaksAtLine(a, b)
    ensures Pieces(a + b) == Pieces(a) + Pieces(b)
    decreases |a|
  {
    hide Pieces, IsPiece;
    if a == "" {
      assert a + b == b;
      NoPieces();
      assert [] + Pieces(b) == Pieces(b);
    } else if b == "" {
      assert a + b == a;
      NoPieces();
      assert Pieces(a) + [] == Pieces(a);
    } else {
      var k := FirstCut(a);
      assert EndsLine(a[..k]);
      SamePieceFirst(a, b, k);
      var rest := a[k..];
      assert rest != "" ==> rest[|rest| - 1] == a[|a| - 1];
      PiecesAppend(rest, b);
      assert [a[..k]] + (Pieces(rest) + Pieces(b)) == [a[..k]] + Pieces(rest) + Pieces(b);
    }
  }

  /** More text behind a line leaves it the first piece. */
  lemma SamePieceFirst(a: string, b: string, k: nat)
    requires k <= |a| && IsPiece(a[..k]) && EndsLine(a[..k])
    ensures Pieces(a + b) == [a[..k]] + Pieces(a[k..] + b)
  {
    hide Pieces, IsPiece, EndsLine;
    FirstPiece(a[..k], a[k..] + b, Pieces(a[k..] + b));
    assert a[..k] + (a[k..] + b) == a + b;
  }

  lemma {:induction false} KeptAppend(p: seq<string>, q: seq<string>, pattern: string)
    ensures Kept(p + q, pattern) == Kept(p, pattern) + Kept(q, pattern)
    decreases |p|
  {
    hide Matches;
    if p == [] {
      assert p + q == q;
    } else {
      assert (p + q)[1..] == p[1..] + q;
      KeptAppend(p[1..], q, pattern);
      var first := if Matches(p[0], pattern) then p[0] else "";
      assert first + (Kept(p[1..], pattern) + Kept(q, pattern)) == first + Kept(p[1..], pattern) + Kept(q, pattern);
    }
  }

  /** Fragments that end with their lines are captured like the whole output, under any pattern. */
  lemma {:induction false} LineBreaksNoCuts(fragments: seq<string>, options: Options)
    requires CutAtLines(fragments)
    ensures Captured(fragments, options) == Captured([Joined(fragments)], options)
  {
    hide OneShot, Captured, BreaksAtLine;
    CaptureIsOneShot(fragments, options);
    CaptureIsOneShot([Joined(fragments)], options);
    KeptAtLines(fragments, options.pattern);
    KeptOne(Joined(fragments), options.pattern);
  }

  lemma KeptOne(text: string, pattern: string)
    ensures KeptText([text], pattern) == Kept(Pieces(text), pattern)
  {
    hide Pieces, Kept;
    assert [text][..0] == [] && KeptText([], pattern) == "";
    assert "" + Kept(Pieces(text), pattern) == Kept(Pieces(text), pattern);
  }

  lemma {:induction false} KeptAtLines(fragments: seq<string>, pattern: string)
    requires forall i :: 0 <= i < |fragments| ==> BreaksAtLine(Joined(fragments[..i]), fragments[i])
    ensures KeptText(fragments, pattern) == Kept(Pieces(Joined(fragments)), pattern)
    decreases |fragments|
  {
    hide Pieces, BreaksAtLine;
    if fragments == [] {
      NoPieces();
    } else {
      var front, last := fragments[..|fragments| - 1], fragments[|fragments| - 1];
      forall i | 0 <= i < |front| ensures BreaksAtLine(Joined(front[..i]), front[i]) {
        assert front[..i] == fragments[..i];
      }
      KeptAtLines(front, pattern);
      PiecesAppend(Joined(front), last);
      KeptAppend(Pieces(Joined(front)), Pieces(last), pattern);
    }
  }

  lemma NoPieces()
    ensures Pieces("") == []
  {
  }

  // ------------------------------------------------ when they are not

  /** Cutting inside a line splits one piece in two and leaves the others alone. */
  lemma {:induction false} PiecesInside(a: string, b: string)
      returns (pa: seq<string>, x: string, y: string, pb: seq<string>)
    requires !BreaksAtLine(a, b)
    ensures x != "" && y != "" && Pieces(a) == pa + [x] && Pieces(b) == [y] + pb && Pieces(a + b) == pa + ([x + y] + pb)
    decreases |a|
  {
    hide Pieces;
    var k := FirstCut(a);
    if EndsLine(a[..k]) {
      SamePieceFirst(a, b, k);
      var first, rest := a[..k], a[k..];
      assert a[|a| - 1] == if rest == "" then '\n' else rest[|rest| - 1];
      pa, x, y, pb := PiecesInside(rest, b);
      assert [first] + (pa + [x]) == ([first] + pa) + [x];
      assert [first] + (pa + ([x + y] + pb)) == ([first] + pa) + ([x + y] + pb);
      pa := [first] + pa;
    } else {
      assert a[..k] == a && a[k..] == "" && a[..|a| - 1] == a[..k][..k - 1];
      NoPieces();
      pa, x := [], a;
      y, pb := LineGoesOn(a, b);
      assert [a] + [] == [] + [x] && [] + ([x + y] + pb) == [x + y] + pb;
    }
  }

  lemma LineGoesOn(a: string, b: string) returns (y: string, pb: seq<string>)
    requires a != "" && b != "" && '\n' !in a
    ensures y != "" && Pieces(b) == [y] + pb && Pieces(a + b) == [a + y] + pb
  {
    hide Find, Has;
    FindByte(b, '\n');
    NoFeedIn(a, b);
    var i := Find(b, "\n", 0);
    if i.None? {
      y, pb := b, [];
      assert [y] + pb == [y] && [a + y] + pb == [a + y];
    } else {
      var k := i.value + 1;
      y, pb := b[..k], Pieces(b[k..]);
      CutBehind(a, b, k);
      assert Pieces(a + b) == [(a + b)[..|a| + k]] + Pieces((a + b)[|a| + k..]);
    }
  }

  lemma CutBehind(a: string, b: string, k: nat)
    requires k <= |b|
    ensures (a + b)[..|a| + k] == a + b[..k] && (a + b)[|a| + k..] == b[k..]
  {
  }

  lemma NoFeedIn(a: string, b: string)
    requires '\n' !in a
    ensures Find(a + b, "\n", 0) == var i := Find(b, "\n", 0); if i.Some? then Some(|a| + i.value) else None
  {
    hide Find, Has;
    var i := Find(b, "\n", 0);
    FindByte(b, '\n');
    FindByte(a + b, '\n');
    if i.Some? {
      forall j | 0 <= j < |a| + i.value ensures (a + b)[j] != '\n' {
        assert j >= |a| ==> (a + b)[j] == b[..i.value][j - |a|];
      }
      FindAt(a + b, '\n', |a| + i.value);
    }
  }

  lemma {:induction false} CutAll(s: string, m: nat)
    requires m > |s|
    ensures Cut(s, m) == |s|
    decreases |s|
  {
    if s == "" {
    } else {
      CutAll(s[1..], if s[0] == '\n' then m - 1 else m);
    }
  }

  lemma WholeOutput(s: string, maxLines: int)
    requires maxLines > |s|
    ensures OneShot(s, maxLines).output == s
  {
    CutAll(s, maxLines);
    assert s[..|s|] == s && s + "" == s;
  }

  lemma OnlyWhole(x: string, y: string)
    requires x != "" && y != ""
    ensures Matches(x + y, x + y) && !Matches(x, x + y) && !Matches(y, x + y)
  {
    assert Has(x + y, 0, x + y);
  }

  /** A pattern found in a text is found in any text around it. */
  lemma MatchesGrow(x: string, y: string, pattern: string)
    requires Matches(x, pattern) || Matches(y, pattern)
    ensures Matches(x + y, pattern)
  {
    hide Has;
    if pattern != "" {
      if Find(x, pattern, 0).Some? {
        HasInFront(x, y, pattern, Find(x, pattern, 0).value);
      } else {
        HasShift(x, y, pattern, Find(y, pattern, 0).value);
      }
    }
  }

  /** What is kept of a join, for a cut inside a line: the cut line counts whole or in two pieces. */
  lemma KeptAround(a: string, b: string, pa: seq<string>, x: string, y: string, pb: seq<string>, pattern: string)
    requires Pieces(a) == pa + [x] && Pieces(b) == [y] + pb && Pieces(a + b) == pa + ([x + y] + pb)
    ensures |Kept(Pieces(a), pattern)| == |Kept(pa, pattern)| + if Matches(x, pattern) then |x| else 0
    ensures |Kept(Pieces(b), pattern)| == (if Matches(y, pattern) then |y| else 0) + |Kept(pb, pattern)|
    ensures |Kept(Pieces(a + b), pattern)| ==
            |Kept(pa, pattern)| + (if Matches(x + y, pattern) then |x + y| else 0) + |Kept(pb, pattern)|
  {
    hide Pieces, Matches, Kept;
    KeptSingle(x, pattern);
    KeptSingle(y, pattern);
    KeptSingle(x + y, pattern);
    KeptAppend(pa, [x], pattern);
    KeptAppend([y], pb, pattern);
    KeptAppend([x + y], pb, pattern);
    KeptAppend(pa, [x + y] + pb, pattern);
  }

  /** Joining two texts loses no kept byte. */
  lemma KeptGrows(a: string, b: string, pattern: string)
    ensures |Kept(Pieces(a), pattern)| + |Kept(Pieces(b), pattern)| <= |Kept(Pieces(a + b), pattern)|
  {
    hide Pieces, Matches, Kept;
    if BreaksAtLine(a, b) {
      PiecesAppend(a, b);
      KeptAppend(Pieces(a), Pieces(b), pattern);
    } else {
      var pa, x, y, pb := PiecesInside(a, b);
      KeptAround(a, b, pa, x, y, pb, pattern);
      if Matches(x, pattern) || Matches(y, pattern) {
        MatchesGrow(x, y, pattern);
      }
    }
  }

  /** A cut inside a line loses that line under some pattern: the line itself. */
  lemma CutLoses(a: string, b: string) returns (pattern: string)
    requires !BreaksAtLine(a, b)
    ensures |Kept(Pieces(a), pattern)| + |Kept(Pieces(b), pattern)| < |Kept(Pieces(a + b), pattern)|
  {
    hide Pieces, Matches, Kept;
    var pa, x, y, pb := PiecesInside(a, b);
    pattern := x + y;
    OnlyWhole(x, y);
    KeptAround(a, b, pa, x, y, pb, pattern);
  }

  /** However a text is cut, no more of it is kept than of the whole. */
  lemma {:induction false} KeptAtMost(fragments: seq<string>, pattern: string)
    ensures |KeptText(fragments, pattern)| <= |Kept(Pieces(Joined(fragments)), pattern)|
    decreases |fragments|
  {
    hide Pieces, Kept;
    if fragments == [] {
    } else {
      KeptAtMost(fragments[..|fragments| - 1], pattern);
      KeptGrows(Joined(fragments[..|fragments| - 1]), fragments[|fragments| - 1], pattern);
    }
  }

  /** What a cut loses, later fragments do not bring back. */
  lemma {:induction false} LossRemains(fragments: seq<string>, j: nat, pattern: string)
    requires j < |fragments|
    requires var a := Joined(fragments[..j]);
             |Kept(Pieces(a), pattern)| + |Kept(Pieces(fragments[j]), pattern)| <
             |Kept(Pieces(a + fragments[j]), pattern)|
    ensures |KeptText(fragments, pattern)| < |Kept(Pieces(Joined(fragments)), pattern)|
    decreases |fragments|
  {
    hide Pieces, Kept;
    var front, last := fragments[..|fragments| - 1], fragments[|fragments| - 1];
    if j == |fragments| - 1 {
      KeptAtMost(front, pattern);
    } else {
      assert front[..j] == fragments[..j];
      LossRemains(front, j, pattern);
      KeptGrows(Joined(front), last, pattern);
    }
  }

  /** Fragments are captured like the whole output, under every pattern and limit, exactly when
      every cut between them is at the end of a line. */
  lemma CutMattersInsideLines(fragments: seq<string>)
    ensures (forall options: Options :: Captured(fragments, options) == Captured([Joined(fragments)], options)) <==>
            CutAtLines(fragments)
  {
    hide Captured, BreaksAtLine, Joined;
    if CutAtLines(fragments) {
      forall options: Options ensures Captured(fragments, options) == Captured([Joined(fragments)], options) {
        LineBreaksNoCuts(fragments, options);
      }
    } else {
      var j :| 0 <= j < |fragments| && !BreaksAtLine(Joined(fragments[..j]), fragments[j]);
      var pattern := CutLoses(Joined(fragments[..j]), fragments[j]);
      LossRemains(fragments, j, pattern);
      LossShows(fragments, pattern);
    }
  }

  /** Under a limit large enough the captured texts differ by what was lost. */
  lemma LossShows(fragments: seq<string>, pattern: string)
    requires |KeptText(fragments, pattern)| < |Kept(Pieces(Joined(fragments)), pattern)|
    ensures var options := Options(|Joined(fragments)| + 1, pattern);
            Captured(fragments, options) != Captured([Joined(fragments)], options)
  {
    hide OneShot, Captured, Pieces, Matches, Kept, Joined;
    var text := Joined(fragments);
    var options := Options(|text| + 1, pattern);
    CaptureIsOneShot(fragments, options);
    CaptureIsOneShot([text], options);
    KeptOne(text, pattern);
    PiecesArePieces(text);
    KeptIsShort(Pieces(text), pattern);
    WholeOutput(KeptText(fragments, pattern), options.maxLines);
    WholeOutput(KeptText([text], pattern), options.maxLines);
  }

  lemma {:induction false} KeptIsShort(pieces: seq<string>, pattern: string)
    ensures |Kept(pieces, pattern)| <= |Concat(pieces)|
    decreases |pieces|
  {
    hide Matches;
    if pieces == [] {
    } else {
      KeptIsShort(pieces[1..], pattern);
    }
  }

  lemma KeptSingle(line: string, pattern: string)
    ensures Kept([line], pattern) == if Matches(line, pattern) then line else ""
  {
    hide Matches;
    assert [line][1..] == [] && line + "" == line && "" + "" == "";
  }

  // ------------------------------------------------------- what is captured

  /** A pattern stands somewhere in a line. */
  ghost predicate Contains(line: string, pattern: string) {
    exists i: nat :: Has(line, i, pattern)
  }

  lemma MatchesExactly(line: string, pattern: string)
    ensures Matches(line, pattern) <==> Contains(line, pattern)
  {
    hide Has;
    if pattern == "" {
      NothingStands(line);
    }
  }

  lemma NothingStands(line: string)
    ensures Has(line, 0, "")
  {
  }

  /** All the pieces of some fragments, in order. */
  ghost function AllPieces(fragments: seq<string>): seq<string> {
    if fragments == [] then [] else AllPieces(fragments[..|fragments| - 1]) + Pieces(fragments[|fragments| - 1])
  }

  /** Those of some lines that contain a pattern, in order. */
  ghost function Containing(lines: seq<string>, pattern: string): seq<string> {
    if lines == [] then []
    else (if Contains(lines[0], pattern) then [lines[0]] else []) + Containing(lines[1..], pattern)
  }

  lemma {:induction false} KeptContains(lines: seq<string>, pattern: string)
    ensures Kept(lines, pattern) == Concat(Containing(lines, pattern))
    decreases |lines|
  {
    hide Matches, Contains;
    if lines == [] {
    } else {
      MatchesExactly(lines[0], pattern);
      KeptContains(lines[1..], pattern);
      var rest := Containing(lines[1..], pattern);
      assert ([lines[0]] + rest)[1..] == rest && [] + rest == rest && "" + Concat(rest) == Concat(rest);
    }
  }

  lemma {:induction false} KeptOfAll(fragments: seq<string>, pattern: string)
    ensures KeptText(fragments, pattern) == Kept(AllPieces(fragments), pattern)
    decreases |fragments|
  {
    hide Pieces, Kept;
    if fragments == [] {
      NothingKept(pattern);
    } else {
      KeptOfAll(fragments[..|fragments| - 1], pattern);
      KeptAppend(AllPieces(fragments[..|fragments| - 1]), Pieces(fragments[|fragments| - 1]), pattern);
    }
  }

  lemma NothingKept(pattern: string)
    ensures Kept([], pattern) == ""
  {
  }

  /** No proper beginning of a text has as many line feeds as the limit. */
  ghost predicate Within(text: string, limit: nat) {
    forall j :: 0 <= j < |text| ==> Newlines(text[..j]) < limit
  }

  /** The shortest beginning of a text with a number of line feeds is `k` bytes long, and not all of it. */
  ghost predicate ReachesAt(text: string, limit: nat, k: nat) {
    k < |text| && Newlines(text[..k]) == limit && forall j :: 0 <= j < k ==> Newlines(text[..j]) < limit
  }

  /** What a capture of a text is: all of it, or its first lines up to the limit and the marker. */
  ghost predicate IsCaptureOf(c: Capture, text: string, limit: nat) {
    if Within(text, limit) then c == Capture(text, Newlines(text), false)
    else exists k: nat :: ReachesAt(text, limit, k) &&
                          c == Capture(text[..k] + "\n[... truncated ...]\n", limit, true)
  }

  /** What is captured is, up to the limit, exactly those lines of the fragments in which the pattern
      stands somewhere, in order. */
  lemma CaptureMeaning(fragments: seq<string>, options: Options)
    ensures IsCaptureOf(Captured(fragments, options), Concat(Containing(AllPieces(fragments), options.pattern)),
              if options.maxLines > 0 then options.maxLines else 0)
  {
    hide OneShot, Captured, Kept, Newlines, Containing, AllPieces, IsCaptureOf;
    CaptureIsOneShot(fragments, options);
    KeptOfAll(fragments, options.pattern);
    KeptContains(AllPieces(fragments), options.pattern);
    OneShotMeaning(KeptText(fragments, options.pattern), options.maxLines);
  }

  lemma OneShotMeaning(text: string, maxLines: int)
    ensures IsCaptureOf(OneShot(text, maxLines), text, LineLimit(maxLines))
  {
    hide Newlines, Cut;
    var m := LineLimit(maxLines);
    var k := Cut(text, m);
    CutIsShortest(text, m);
    if k < |text| {
      assert ReachesAt(text, m, k);
    } else {
      assert text[..k] == text && text + "" == text;
    }
  }
}
