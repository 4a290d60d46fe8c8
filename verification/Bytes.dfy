/** Bytes, character classes and the substring reasoning shared by every layer.

    A C++ `char` is modelled by a Dafny `char`; the code treats text as raw bytes, so one
    element of a `string` stands for one byte. */
module Bytes {
  datatype Option<+T> = None | Some(value: T)
  datatype Result<+T, +E> = Success(value: T) | Failure(error: E)

  /** `std::isspace` in the C locale: space, \t, \n, \v, \f, \r. */
  predicate IsSpace(c: char) {
    c == ' ' || '\t' <= c <= '\r'
  }

  ghost predicate Blank(w: string) {
    forall i :: 0 <= i < |w| ==> IsSpace(w[i])
  }

  /** `s` stands in `t` at position `p`. */
  ghost predicate Has(t: string, p: nat, s: string) {
    p + |s| <= |t| && forall i :: 0 <= i < |s| ==> t[p + i] == s[i]
  }

  lemma HasConcat(t: string, p: nat, a: string, b: string)
    ensures Has(t, p, a + b) <==> Has(t, p, a) && Has(t, p + |a|, b)
  {
    if Has(t, p, a + b) {
      assert forall i :: 0 <= i < |a| ==> a[i] == (a + b)[i];
      assert forall i :: 0 <= i < |b| ==> b[i] == (a + b)[|a| + i];
    }
  }

  lemma HasByte(t: string, p: nat, c: char)
    ensures Has(t, p, [c]) <==> p < |t| && t[p] == c
  {
    if p < |t| {
      assert t[p + 0] == t[p] && [c][0] == c;
    }
  }

  /** `Has` in terms of slices: a slice stands where it was cut, and nothing else does. */
  lemma HasSlice(t: string, p: nat, s: string)
    ensures Has(t, p, s) <==> p + |s| <= |t| && t[p..p + |s|] == s
  {
    if p + |s| <= |t| {
      assert forall i {:trigger s[i]} :: 0 <= i < |s| ==> t[p..p + |s|][i] == t[p + i];
    }
  }

  /** The first position from `p` on that does not hold white space. */
  function SkipWs(t: string, p: nat): (r: nat)
    requires p <= |t|
    ensures p <= r <= |t|
    ensures forall i :: p <= i < r ==> IsSpace(t[i])
    ensures r < |t| ==> !IsSpace(t[r])
    decreases |t| - p
  {
    if p < |t| && IsSpace(t[p]) then SkipWs(t, p + 1) else p
  }

  /** Skipping is determined by what it skips: blanks up to a non-blank or the end. */
  lemma {:induction false} SkipWsExact(t: string, p: nat, w: string)
    requires Has(t, p, w) && Blank(w)
    requires p + |w| < |t| ==> !IsSpace(t[p + |w|])
    ensures SkipWs(t, p) == p + |w|
    decreases |w|
  {
    if |w| > 0 {
      assert t[p + 0] == w[0];
      assert forall i :: 0 <= i < |w[1..]| ==> t[p + 1 + i] == t[p + (1 + i)] == w[1..][i];
      SkipWsExact(t, p + 1, w[1..]);
    }
  }

  /** What `SkipWs` skips is blank text standing at `p`. */
  lemma SkippedIsBlank(t: string, p: nat)
    requires p <= |t|
    ensures Blank(t[p..SkipWs(t, p)])
    ensures Has(t, p, t[p..SkipWs(t, p)])
  {
    HasSlice(t, p, t[p..SkipWs(t, p)]);
  }

  // ------------------------------------------------------------- trimming

  function DropBack(s: string): (r: string)
    ensures |r| <= |s| && r == s[..|r|]
    ensures forall i :: |r| <= i < |s| ==> IsSpace(s[i])
    ensures r != "" ==> !IsSpace(r[|r| - 1])
  {
    if s != "" && IsSpace(s[|s| - 1]) then DropBack(s[..|s| - 1]) else s
  }

  /** The text without the blanks at both ends. */
  function Trim(s: string): string {
    DropBack(s[SkipWs(s, 0)..])
  }

  ghost predicate Trimmed(s: string) {
    s == "" || (!IsSpace(s[0]) && !IsSpace(s[|s| - 1]))
  }

  /** Trimming is the one way to split off blanks at both ends and leave none. */
  lemma TrimExact(w1: string, s: string, w2: string)
    requires Blank(w1) && Blank(w2) && Trimmed(s)
    ensures Trim(w1 + s + w2) == s
  {
    var t := w1 + s + w2;
    if s == "" {
      HasSlice(t, 0, t);
      SkipWsExact(t, 0, t);
      assert t[|t|..] == "";
    } else {
      HasSlice(t, 0, w1);
      assert t[|w1|] == s[0];
      SkipWsExact(t, 0, w1);
      assert t[|w1|..] == s + w2;
      DropBackExact(s, w2);
    }
  }

  lemma {:induction false} DropBackExact(s: string, w: string)
    requires Blank(w) && Trimmed(s)
    ensures DropBack(s + w) == s
    decreases |w|
  {
    if w == "" {
      assert s + w == s;
    } else {
      assert (s + w)[..|s + w| - 1] == s + w[..|w| - 1];
      DropBackExact(s, w[..|w| - 1]);
    }
  }

  /** What trimming leaves starts and ends with no blank, and what it takes away is blank. */
  lemma TrimSplits(t: string)
    ensures Trimmed(Trim(t))
    ensures var b := SkipWs(t, 0); var e := b + |Trim(t)|;
            e <= |t| && Blank(t[..b]) && Blank(t[e..]) && t == t[..b] + Trim(t) + t[e..]
  {
    var b := SkipWs(t, 0);
    var r := Trim(t);
    var e := b + |r|;
    assert forall i :: e <= i < |t| ==> t[i] == t[b..][i - b];
    if r != "" {
      assert r[0] == t[b..][0] == t[b];
    }
    assert t == t[..b] + t[b..e] + t[e..];
    assert r == t[b..][..|r|] == t[b..e];
  }
}
