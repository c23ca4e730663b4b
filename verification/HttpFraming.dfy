/** How gloox/connectionbosh.cpp cuts HTTP responses out of its receive buffer. */
module HttpFraming {
  import opened Text

  const CRLF := "\r\n"
  const HEADER_END := "\r\n\r\n"

  const SIZE_MAX: int := 0xffff_ffff_ffff_ffff

  /** Conversion to, and arithmetic in, std::string::size_type. */
  function Size(n: int): (r: nat)
    ensures r <= SIZE_MAX
    ensures 0 <= n <= SIZE_MAX ==> r == n
  {
    n % 0x1_0000_0000_0000_0000
  }

  /** `ci_find`: std::search with `ci_equal`. */
  function CiFind(s: string, p: string): Option<nat> {
    Find(UpperAll(s), UpperAll(p), 0)
  }

  /** `getHTTPField`, on a given header. */
  function Field(header: string, field: string): string {
    match CiFind(header, CRLF + field + ": ")
    case None => ""
    case Some(i) =>
      var from := i + |field| + 4;
      match Find(header, CRLF, from)
      case None => ""
      case Some(to) => header[from..to]
  }

  /** `m_bufferContentLength`: a `long`, stored as an unsigned 64-bit number. */
  function ContentLength(header: string): (n: nat)
    ensures n <= SIZE_MAX
  {
    Size(Atol(Field(header, "Content-Length")))
  }

  predicate StatusOk(header: string)
    requires |header| >= 9
  {
    Substr(header, 9, 3) == "200"
  }

  /** The server's sign that it lacks HTTP/1.1. */
  predicate WantsFallback(header: string) {
    Field(header, "Connection") == "close" || Substr(header, 0, 8) == "HTTP/1.0"
  }

  /** What one pass of the `while` loop finds in the buffer. */
  datatype Pass =
    | NoHeader
    | Throws                                              // `substr( 9, 3 )` of a header that is too short
    | NoLength(header: string)                            // returns, header and all left in the buffer
    | TooShort(header: string)                            // breaks, waiting for the rest of the body
    | Body(header: string, body: string, erased: nat)     // feeds the body and erases a prefix

  /** The header of the first response, when it is complete; CRLF included, blank line not. */
  function Head(buffer: string): (header: Option<string>)
    ensures header.Some? ==> 2 <= |header.value| <= |buffer| - 2
  {
    match Find(buffer, HEADER_END, 0)
    case None => None
    case Some(h) => Some(buffer[..h + 2])
  }

  function Next(buffer: string): (p: Pass)
    ensures p.Body? ==> p.erased <= |buffer|
    ensures p.NoLength? || p.TooShort? || p.Body? ==> |p.header| >= 9
  {
    match Head(buffer)
    case None => NoHeader
    case Some(header) => NextAfter(buffer, header)
  }

  function NextAfter(buffer: string, header: string): Pass
    requires |header| + 2 <= |buffer|
  {
    var length := ContentLength(header);
    var total := Size(|header| + 2 + length);
    if |header| < 9 then Throws
    else if length == 0 then NoLength(header)
    else if |buffer| >= total then Body(header, Substr(buffer, |header| + 2, length), total)
    else TooShort(header)
  }

  /** The next pass finds a body and erases something. */
  predicate Feeds(buffer: string) {
    Next(buffer).Body? && Next(buffer).erased != 0
  }

  /** The unsigned sum of header and content length runs over. */
  predicate Wraps(header: string) {
    |header| + 2 + ContentLength(header) > SIZE_MAX
  }

  /** It does so exactly for a negative Content-Length no larger in size than the header. */
  lemma WrapsIffNegative(header: string)
    requires |header| + 2 <= LONG_MAX
    ensures Wraps(header) <==>
      var length := Atol(Field(header, "Content-Length"));
      length < 0 <= |header| + 2 + length
  {
    hide Field, Atol;
    SumWraps(|header| + 2, Atol(Field(header, "Content-Length")));
  }

  lemma SumWraps(n: nat, length: int)
    requires n <= LONG_MAX && -LONG_MAX - 1 <= length <= LONG_MAX
    ensures n + Size(length) > SIZE_MAX <==> length < 0 <= n + length
  {
  }

  /** A header that is complete stays the same header when data is appended. */
  lemma HeadStable(a: string, d: string)
    requires Head(a).Some?
    ensures Head(a + d) == Head(a)
  {
    FindExtends(a, d, HEADER_END, 0);
    var h := Find(a, HEADER_END, 0).value;
    assert (a + d)[..h + 2] == a[..h + 2];
  }

  /** What appended data can change: a body that was too short may become complete, nothing else. */
  lemma NextStable(a: string, d: string)
    requires Head(a).Some? && !Wraps(Head(a).value)
    ensures !Next(a).TooShort? ==> Next(a + d) == Next(a)
    ensures Next(a).TooShort? ==>
      (Next(a + d).TooShort? || Next(a + d).Body?) && Next(a + d).header == Next(a).header
  {
    HeadStable(a, d);
    hide Head;
    NextAfterStable(a, d, Head(a).value);
  }

  lemma NextAfterStable(a: string, d: string, header: string)
    requires |header| + 2 <= |a| && !Wraps(header)
    ensures
      var p, q := NextAfter(a, header), NextAfter(a + d, header);
      if p.TooShort? then (q.TooShort? || q.Body?) && q.header == p.header else q == p
  {
    hide ContentLength, Size;
    var from, length := |header| + 2, ContentLength(header);
    assert Size(from + length) == from + length;
    if NextAfter(a, header).Body? {
      assert (a + d)[from..from + length] == a[from..from + length];
    }
  }

  /** Two passes that differ at most in the body they feed. */
  predicate SameErasure(p: Pass, q: Pass) {
    if p.Body? then q.Body? && q.header == p.header && q.erased == p.erased else q == p && !p.TooShort?
  }

  /** A length that wraps never waits: the pass goes ahead at once, whatever has arrived of the body. */
  lemma NextWraps(a: string, d: string)
    requires Head(a).Some? && Wraps(Head(a).value)
    ensures SameErasure(Next(a), Next(a + d))
  {
    HeadStable(a, d);
    hide Head, SameErasure;
    NextAfterWraps(a, d, Head(a).value);
  }

  lemma NextAfterWraps(a: string, d: string, header: string)
    requires |header| + 2 <= |a| && Wraps(header)
    ensures SameErasure(NextAfter(a, header), NextAfter(a + d, header))
  {
    TotalFits(header);
    hide ContentLength, Size, Substr, Wraps;
  }

  lemma TotalFits(header: string)
    requires Wraps(header)
    ensures Size(|header| + 2 + ContentLength(header)) <= |header| + 2
  {
    hide ContentLength;
    WrappedSum(|header| + 2, ContentLength(header));
  }

  lemma WrappedSum(n: nat, length: nat)
    requires length <= SIZE_MAX < n + length
    ensures Size(n + length) <= n
  {
  }

  /** Without wrapping, a pass that finds a body erases it with its header. */
  lemma ErasesHeader(a: string)
    requires Next(a).Body? && !Wraps(Head(a).value)
    ensures Next(a).erased >= 4
  {
  }

  /** The bodies in the buffer have lengths that do not wrap, up to the first one that does and
      then has nothing behind its header. */
  predicate Clean(buffer: string)
    decreases |buffer|
  {
    if !Feeds(buffer) then true
    else if Wraps(Head(buffer).value) then |buffer| == |Head(buffer).value| + 2
    else Clean(buffer[Next(buffer).erased..])
  }

  /** A prefix that holds the header and the blank line has the same header. */
  lemma HeadPrefix(a: string, d: string)
    requires Head(a + d).Some? && |Head(a + d).value| + 2 <= |a|
    ensures Head(a) == Head(a + d)
  {
    var h := Find(a + d, HEADER_END, 0).value;
    forall i | 0 <= i <= h
      ensures At(a, HEADER_END, i) == At(a + d, HEADER_END, i)
    {
      assert (a + d)[i..i + 4] == a[i..i + 4];
    }
    FindIs(a, HEADER_END, 0, h);
    assert (a + d)[..h + 2] == a[..h + 2];
  }

  /** A prefix that holds the whole first response has the same first response. */
  lemma NextPrefix(a: string, d: string)
    requires Next(a + d).Body? && Next(a + d).erased <= |a| && !Wraps(Head(a + d).value)
    ensures Next(a) == Next(a + d)
  {
    BodyEnds(a + d);
    FeedsHead(a + d);
    HeadPrefix(a, d);
    NextStable(a, d);
    hide Next, Head, Wraps, ContentLength;
    if Next(a).TooShort? {
      TooShortMeans(a);
    }
  }

  lemma FeedsHead(b: string)
    requires Next(b).Body?
    ensures Head(b).Some?
  {
  }

  lemma BodyEnds(b: string)
    requires Next(b).Body? && !Wraps(Head(b).value)
    ensures Next(b).erased == |Head(b).value| + 2 + ContentLength(Head(b).value)
  {
    hide ContentLength;
  }

  lemma TooShortMeans(b: string)
    requires Next(b).TooShort? && !Wraps(Head(b).value)
    ensures |b| < |Head(b).value| + 2 + ContentLength(Head(b).value)
  {
    hide ContentLength;
  }

  /** With a length that wraps, the body fed is whatever has arrived behind the header. */
  lemma WrappedBody(b: string)
    requires Next(b).Body? && Wraps(Head(b).value)
    ensures Next(b).body == "" <==> |b| == |Head(b).value| + 2
  {
    hide ContentLength, Size;
  }
}
