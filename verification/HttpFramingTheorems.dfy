/** What the framing guarantees: chunks do not matter, requests and answers survive the trip. */
module HttpFramingTheorems {
  import opened Bytes
  import opened Http
  import opened HttpFraming

  // ---------------------------------------------------------------- chunks

  /** The bytes that arrive before the connection ends. */
  ghost function Stream(chunks: seq<string>): string {
    if chunks == [] || chunks[0] == "" then "" else chunks[0] + Stream(chunks[1..])
  }

  /** What is in the buffer when the size limit stops the loop, or the stream ends. */
  ghost function Buffered(received: string, chunks: seq<string>): string
    decreases |chunks|
  {
    if chunks == [] || chunks[0] == "" || |received + chunks[0]| > MAX_REQUEST_BYTES then received
    else Buffered(received + chunks[0], chunks[1..])
  }

  /** Once settled, further bytes change nothing. */
  lemma InspectIsStable(s: string, more: string)
    requires Inspect(s).Settled?
    ensures Inspect(s + more) == Inspect(s)
  {
    hide BodyLength, Split, RequestOf, Find, Has;
    FindAppend(s, BLANK_LINE, more);
    InspectText(s);
    InspectText(s + more);
    var e := Find(s, BLANK_LINE, 0).value;
    FindBounds(s);
    assert (s + more)[..e] == s[..e];
    var length := BodyLength(Split(s[..e]), 0);
    if length.Some? {
      assert (s + more)[e + 4..][..length.value] == s[e + 4..][..length.value];
    }
  }

  lemma FindBounds(s: string)
    ensures var e := Find(s, BLANK_LINE, 0); e.Some? ==> e.value + 4 <= |s|
  {
  }

  lemma {:induction false} BufferedExtends(received: string, chunks: seq<string>)
    ensures received <= Buffered(received, chunks) <= received + Stream(chunks)
    ensures |received + Stream(chunks)| <= MAX_REQUEST_BYTES ==> Buffered(received, chunks) == received + Stream(chunks)
    decreases |chunks|
  {
    if chunks != [] && chunks[0] != "" {
      var grown := received + chunks[0];
      assert grown + Stream(chunks[1..]) == received + Stream(chunks);
      if |grown| <= MAX_REQUEST_BYTES {
        BufferedExtends(grown, chunks[1..]);
      }
    }
  }

  /** What a kept prefix of a stream means. */
  ghost function Verdict(kept: string, stream: string): Result<HttpRequest, HttpError> {
    match Inspect(kept)
    case Settled(r) => r
    case Waiting => Failure(if kept == stream then Closed else TooLarge)
  }

  /** Receiving any stream at all, in closed form. */
  lemma {:induction false} ReceiveMeaning(received: string, chunks: seq<string>)
    requires Inspect(received).Waiting?
    ensures Receive(received, chunks) == Verdict(Buffered(received, chunks), received + Stream(chunks))
    decreases |chunks|
  {
    hide Inspect;
    if chunks != [] && chunks[0] != "" {
      var grown := received + chunks[0];
      assert grown + Stream(chunks[1..]) == received + Stream(chunks);
      BufferedExtends(grown, chunks[1..]);
      if |grown| <= MAX_REQUEST_BYTES {
        if Inspect(grown).Waiting? {
          ReceiveMeaning(grown, chunks[1..]);
        } else {
          var kept := Buffered(grown, chunks[1..]);
          InspectIsStable(grown, kept[|grown|..]);
          assert grown + kept[|grown|..] == kept;
        }
      }
    }
  }

  lemma NothingYet()
    ensures Inspect("").Waiting?
  {
    InspectText("");
  }

  /** Up to the size limit the outcome depends on the stream alone, however it is cut. */
  lemma ChunkingIndependence(chunks1: seq<string>, chunks2: seq<string>)
    requires Stream(chunks1) == Stream(chunks2) && |Stream(chunks1)| <= MAX_REQUEST_BYTES
    ensures Receive("", chunks1) == Receive("", chunks2) == Verdict(Stream(chunks1), Stream(chunks1))
  {
    hide Inspect, Receive, Stream, Buffered, Verdict;
    NothingYet();
    ReceiveMeaning("", chunks1);
    ReceiveMeaning("", chunks2);
    BufferedExtends("", chunks1);
    BufferedExtends("", chunks2);
    assert "" + Stream(chunks1) == Stream(chunks1);
    assert "" + Stream(chunks2) == Stream(chunks2);
  }

  // ------------------------------------------------- streams over the limit

  const BUFFER_BYTES: nat := 4096

  /** A way to cut a stream into chunks that fit the receive buffer. */
  ghost predicate Cuts(chunks: seq<string>, stream: string) {
    (forall c: string :: c in chunks ==> 0 < |c| <= BUFFER_BYTES) && Stream(chunks) == stream
  }

  lemma {:induction false} StreamAppend(a: seq<string>, b: seq<string>)
    requires forall c: string :: c in a ==> c != ""
    ensures Stream(a + b) == Stream(a) + Stream(b)
    decreases |a|
  {
    if a == [] {
      assert a + b == b;
    } else {
      assert (a + b)[1..] == a[1..] + b;
      assert a[0] in a && forall c: string :: c in a[1..] ==> c in a;
      StreamAppend(a[1..], b);
    }
  }

  lemma {:induction false} BufferedAppend(received: string, a: seq<string>, b: seq<string>)
    requires forall c: string :: c in a ==> c != ""
    requires |received| + |Stream(a)| <= MAX_REQUEST_BYTES
    ensures Buffered(received, a + b) == Buffered(received + Stream(a), b)
    decreases |a|
  {
    if a == [] {
      assert a + b == b && received + Stream(a) == received;
    } else {
      assert (a + b)[1..] == a[1..] + b;
      assert a[0] in a && forall c: string :: c in a[1..] ==> c in a;
      BufferedAppend(received + a[0], a[1..], b);
      assert received + a[0] + Stream(a[1..]) == received + Stream(a);
    }
  }

  /** A stream, one byte at a time. */
  ghost function Singles(t: string): seq<string> {
    seq(|t|, i requires 0 <= i < |t| => [t[i]])
  }

  lemma {:induction false} SinglesCut(t: string)
    ensures Cuts(Singles(t), t)
    decreases |t|
  {
    if t == "" {
    } else {
      SinglesCut(t[1..]);
      assert Singles(t)[1..] == Singles(t[1..]);
      assert [t[0]] + t[1..] == t;
    }
  }

  /** A cut that keeps exactly the first `k` bytes and then meets a chunk too many. */
  lemma CutAt(t: string, k: nat, next: nat) returns (chunks: seq<string>)
    requires k <= MAX_REQUEST_BYTES < k + next <= |t| && 0 < next <= BUFFER_BYTES
    ensures Cuts(chunks, t) && Buffered("", chunks) == t[..k]
  {
    hide Stream, Buffered;
    var a, b, c := Singles(t[..k]), [t[k..k + next]], Singles(t[k + next..]);
    SinglesCut(t[..k]);
    SinglesCut(t[k + next..]);
    chunks := a + (b + c);
    StreamAppend(b, c);
    StreamAppend(a, b + c);
    OneChunk(t[k..k + next]);
    assert t[..k] + (t[k..k + next] + t[k + next..]) == t;
    BufferedAppend("", a, b + c);
    assert "" + Stream(a) == t[..k];
    NoRoom(t[..k], t[k..k + next], c);
  }

  lemma OneChunk(c: string)
    requires c != ""
    ensures Stream([c]) == c
  {
    assert [c][1..] == [] && c + "" == c;
  }

  lemma NoRoom(received: string, c: string, rest: seq<string>)
    requires |received| + |c| > MAX_REQUEST_BYTES
    ensures Buffered(received, [c] + rest) == received
  {
  }

  lemma {:induction false} BufferedIsLong(received: string, chunks: seq<string>)
    requires forall c: string :: c in chunks ==> 0 < |c| <= BUFFER_BYTES
    requires |received| <= MAX_REQUEST_BYTES < |received| + |Stream(chunks)|
    ensures MAX_REQUEST_BYTES - BUFFER_BYTES < |Buffered(received, chunks)| <= MAX_REQUEST_BYTES
    decreases |chunks|
  {
    assert chunks != [] && chunks[0] in chunks;
    if |received + chunks[0]| <= MAX_REQUEST_BYTES {
      assert forall c: string :: c in chunks[1..] ==> c in chunks;
      BufferedIsLong(received + chunks[0], chunks[1..]);
    }
  }

  ghost predicate Independent(stream: string) {
    forall c1: seq<string>, c2: seq<string> :: Cuts(c1, stream) && Cuts(c2, stream) ==>
      Receive("", c1) == Receive("", c2)
  }

  /** Whether the last bytes below the limit settle nothing. */
  ghost predicate QuietEnd(stream: string)
    requires |stream| > MAX_REQUEST_BYTES
  {
    Inspect(stream[..MAX_REQUEST_BYTES]) == Inspect(stream[..MAX_REQUEST_BYTES - BUFFER_BYTES + 1])
  }

  /** Where in a stream its request ends: behind the blank line and as many bytes as the header
      announces, or behind the blank line if what it announces is unusable. */
  ghost function RequestEnd(stream: string): Option<nat> {
    match Find(stream, BLANK_LINE, 0)
    case None => None
    case Some(e) =>
      match BodyLength(Split(stream[..e]), 0)
      case None => Some(e + 4)
      case Some(n) => Some(e + 4 + n)
  }

  /** A request ends within the last bytes below the limit that one receive buffer can hold back. */
  ghost predicate EndsLate(stream: string) {
    var end := RequestEnd(stream);
    end.Some? && MAX_REQUEST_BYTES - BUFFER_BYTES + 1 < end.value <= MAX_REQUEST_BYTES
  }

  lemma FindInPrefix(t: string, k: nat)
    requires k <= |t|
    ensures var e := Find(t, BLANK_LINE, 0);
            Find(t[..k], BLANK_LINE, 0) == if e.Some? && e.value + 4 <= k then e else None
  {
    hide Has;
    var e, q := Find(t, BLANK_LINE, 0), Find(t[..k], BLANK_LINE, 0);
    assert t[..k] + t[k..] == t;
    if q.Some? {
      HasInFront(t[..k], t[k..], BLANK_LINE, q.value);
    }
    if e.Some? && e.value + 4 <= k {
      HasInFront(t[..k], t[k..], BLANK_LINE, e.value);
    }
  }

  /** A prefix settles the request exactly if it reaches its end. */
  lemma SettledExactly(stream: string, k: nat)
    requires k <= |stream|
    ensures var end := RequestEnd(stream); Inspect(stream[..k]).Settled? <==> end.Some? && end.value <= k
  {
    hide Find, Has, BodyLength, Split, RequestOf;
    FindInPrefix(stream, k);
    InspectText(stream[..k]);
    var e := Find(stream, BLANK_LINE, 0);
    if e.Some? && e.value + 4 <= k {
      assert stream[..k][..e.value] == stream[..e.value];
    }
  }

  lemma QuietExactly(stream: string)
    requires |stream| > MAX_REQUEST_BYTES
    ensures QuietEnd(stream) <==> !EndsLate(stream)
  {
    hide Inspect, RequestEnd;
    SettledExactly(stream, MAX_REQUEST_BYTES);
    SettledExactly(stream, MAX_REQUEST_BYTES - BUFFER_BYTES + 1);
    SettledStays(stream, MAX_REQUEST_BYTES - BUFFER_BYTES + 1, MAX_REQUEST_BYTES);
  }

  lemma InspectNeverTooLarge(s: string)
    ensures Inspect(s) != Settled(Failure(TooLarge))
  {
    hide BodyLength, Split, Find, HeadersIn, ParseRequestLine;
  }

  /** Over the limit the cut matters exactly when the request ends within the last 4095 bytes below it. */
  lemma IndependentAboveLimit(stream: string)
    requires |stream| > MAX_REQUEST_BYTES
    ensures Independent(stream) <==> !EndsLate(stream)
  {
    hide Inspect, Receive, Stream, Buffered, Cuts, EndsLate;
    QuietExactly(stream);
    if QuietEnd(stream) {
      forall c1: seq<string>, c2: seq<string> | Cuts(c1, stream) && Cuts(c2, stream)
        ensures Receive("", c1) == Receive("", c2) {
        QuietCut(stream, c1);
        QuietCut(stream, c2);
      }
    } else {
      var c1 := CutAt(stream, MAX_REQUEST_BYTES, 1);
      var c2 := CutAt(stream, MAX_REQUEST_BYTES - BUFFER_BYTES + 1, BUFFER_BYTES);
      CutMeaning(stream, c1);
      CutMeaning(stream, c2);
      SettledStays(stream, MAX_REQUEST_BYTES - BUFFER_BYTES + 1, MAX_REQUEST_BYTES);
      InspectNeverTooLarge(stream[..MAX_REQUEST_BYTES]);
    }
  }

  lemma CutMeaning(stream: string, chunks: seq<string>)
    requires |stream| > MAX_REQUEST_BYTES && Cuts(chunks, stream)
    ensures Receive("", chunks) == Verdict(Buffered("", chunks), stream)
  {
    hide Inspect, Receive, Stream, Buffered;
    NothingYet();
    ReceiveMeaning("", chunks);
    assert "" + Stream(chunks) == stream;
  }

  lemma SettledStays(stream: string, j: nat, k: nat)
    requires j <= k <= |stream|
    ensures Inspect(stream[..j]).Settled? ==> Inspect(stream[..k]) == Inspect(stream[..j])
  {
    hide Inspect;
    if Inspect(stream[..j]).Settled? {
      InspectIsStable(stream[..j], stream[j..k]);
      assert stream[..j] + stream[j..k] == stream[..k];
    }
  }

  lemma QuietCut(stream: string, chunks: seq<string>)
    requires |stream| > MAX_REQUEST_BYTES && QuietEnd(stream) && Cuts(chunks, stream)
    ensures Receive("", chunks) == Verdict(stream[..MAX_REQUEST_BYTES], stream)
  {
    hide Inspect, Receive, Stream, Buffered;
    CutMeaning(stream, chunks);
    BufferedIsLong("", chunks);
    BufferedExtends("", chunks);
    assert "" + Stream(chunks) == stream;
    var k := |Buffered("", chunks)|;
    assert Buffered("", chunks) == stream[..k];
    SettledStays(stream, MAX_REQUEST_BYTES - BUFFER_BYTES + 1, k);
    SettledStays(stream, k, MAX_REQUEST_BYTES);
  }
}
