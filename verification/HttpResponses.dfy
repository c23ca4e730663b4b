/** Streams of well-formed responses come out whole, in order, however they are cut. */
module HttpResponses {
  import opened Text
  import opened HttpFraming
  import opened Bosh
  import opened BoshChunks

  datatype Response = Response(header: string, body: string)

  /** A 200 response with a positive Content-Length that is the length of its body. */
  predicate WellFormed(r: Response) {
    && 9 <= |r.header| <= LONG_MAX - 2
    && Head(r.header + CRLF) == Some(r.header)
    && StatusOk(r.header)
    && r.body != ""
    && Atol(Field(r.header, "Content-Length")) == |r.body|
  }

  function Render(r: Response): string {
    r.header + CRLF + r.body
  }

  function RenderAll(rs: seq<Response>): string {
    if rs == [] then "" else Render(rs[0]) + RenderAll(rs[1..])
  }

  function Bodies(rs: seq<Response>): seq<string> {
    if rs == [] then [] else [rs[0].body] + Bodies(rs[1..])
  }

  lemma NextOfResponse(r: Response, rest: string)
    requires WellFormed(r)
    ensures Next(Render(r) + rest) == Body(r.header, r.body, |Render(r)|)
    ensures Head(Render(r) + rest) == Some(r.header)
    ensures !Wraps(r.header)
  {
    ResponseHead(r, rest);
    ResponseLength(r);
    hide Head, Wraps, WellFormed, NextAfter, ContentLength, Render;
    NextAfterResponse(r, rest);
  }

  lemma ResponseHead(r: Response, rest: string)
    requires WellFormed(r)
    ensures Head(Render(r) + rest) == Some(r.header)
  {
    assert Render(r) + rest == r.header + CRLF + (r.body + rest);
    HeadStable(r.header + CRLF, r.body + rest);
    hide Head, Render, Field, Atol, StatusOk, WantsFallback;
  }

  lemma ResponseLength(r: Response)
    requires WellFormed(r)
    ensures ContentLength(r.header) == |r.body| > 0
    ensures |r.header| >= 9 && |Render(r)| <= SIZE_MAX && !Wraps(r.header)
  {
    hide Field, Atol, Head, StatusOk;
  }

  lemma NextAfterResponse(r: Response, rest: string)
    requires ContentLength(r.header) == |r.body| > 0
    requires |r.header| >= 9 && |Render(r)| <= SIZE_MAX
    ensures NextAfter(Render(r) + rest, r.header) == Body(r.header, r.body, |Render(r)|)
  {
    hide ContentLength, Size;
    var b, from := Render(r) + rest, |r.header| + 2;
    assert b[from..from + |r.body|] == r.body;
  }

  /** t is s with the responses delivered: their bodies fed in order, as many requests closed,
      nothing left over, still in the same connection state. */
  predicate Delivered(s: State, t: State, rs: seq<Response>) {
    && t.fed == s.fed + Bodies(rs)
    && t.buffer == ""
    && t.openRequests == s.openRequests - |rs|
    && t.state == s.state
  }

  lemma {:induction false} ResponsesDelivered(s: State, rs: seq<Response>)
    requires s.buffer == ""
    requires forall r | r in rs :: WellFormed(r)
    ensures Clean(RenderAll(rs))
    ensures Delivered(s, Receive(Append(s, RenderAll(rs))), rs)
    decreases |rs|
  {
    hide WellFormed, Receive, Clean, Delivered;
    if rs == [] {
      NothingToReceive(Append(s, ""));
    } else {
      var u := FirstDelivered(s, rs[0], RenderAll(rs[1..]));
      ResponsesDelivered(u, rs[1..]);
      BodiesFirst(s, u, Receive(Append(u, RenderAll(rs[1..]))), rs);
    }
  }

  lemma FirstDelivered(s: State, r: Response, rest: string) returns (u: State)
    requires s.buffer == "" && WellFormed(r)
    ensures u.fed == s.fed + [r.body] && u.openRequests == s.openRequests - 1 && u.state == s.state && u.buffer == ""
    ensures Receive(Append(s, Render(r) + rest)) == Receive(Append(u, rest))
    ensures Clean(rest) ==> Clean(Render(r) + rest)
  {
    hide WellFormed, Next, Head, Wraps, Receive;
    var stream := Render(r) + rest;
    assert s.buffer + stream == stream;
    NextOfResponse(r, rest);
    assert stream[|Render(r)|..] == rest;
    TurnDelivers(Append(s, stream), r);
    ReceiveOnce(Append(s, stream));
    var t := Turn(Append(s, stream));
    u := t.(buffer := "");
    assert Append(u, rest) == t;
  }

  lemma BodiesFirst(s: State, u: State, t: State, rs: seq<Response>)
    requires rs != [] && Delivered(u, t, rs[1..])
    requires u.fed == s.fed + [rs[0].body] && u.openRequests == s.openRequests - 1 && u.state == s.state
    ensures Delivered(s, t, rs)
  {
    assert s.fed + [rs[0].body] + Bodies(rs[1..]) == s.fed + Bodies(rs);
  }

  lemma NothingToReceive(s: State)
    requires s.buffer == ""
    ensures Receive(s) == s && Clean("")
    ensures Delivered(s, s, [])
  {
  }

  lemma TurnDelivers(s: State, r: Response)
    requires WellFormed(r) && Next(s.buffer) == Body(r.header, r.body, |Render(r)|)
    ensures Feeds(s.buffer)
    ensures
      var t := Turn(s);
      && t.fed == s.fed + [r.body]
      && t.buffer == s.buffer[|Render(r)|..]
      && t.openRequests == s.openRequests - 1
      && t.state == s.state
  {
    hide Next, Head, Field, Atol, StatusOk, WantsFallback;
  }

  /** For any cut of the stream into pieces. */
  lemma ResponsesDeliveredInPieces(s: State, rs: seq<Response>, chunks: seq<string>)
    requires s.buffer == "" && chunks != [] && Concat(chunks) == RenderAll(rs)
    requires forall r | r in rs :: WellFormed(r)
    ensures Delivered(s, ReceiveAll(s, chunks), rs)
  {
    hide Delivered, Receive, Clean, WellFormed;
    ResponsesDelivered(s, rs);
    assert s.buffer + Concat(chunks) == RenderAll(rs);
    ChunksIrrelevant(s, chunks);
  }

  // ---- concrete responses ----

  const NAME := "Content-Length"

  function PlainHeader(status: string, length: string): string {
    status + (CRLF + NAME + ": ") + length + CRLF
  }

  lemma AtChar(s: string, p: string, k: nat, j: nat)
    requires j < |p|
    ensures At(s, p, k) ==> k + j < |s| && s[k + j] == p[j]
  {
    if k + |p| <= |s| {
      assert s[k..k + |p|][j] == s[k + j];
    }
  }

  /** A pattern that begins with CR matches first at the first CR that matches. */
  lemma FindAtCR(s: string, p: string, from: nat, i: nat)
    requires p != "" && p[0] == '\r'
    requires from <= i && At(s, p, i)
    requires forall k | from <= k < i :: s[k] != '\r'
    ensures Find(s, p, from) == Some(i)
  {
    forall k | from <= k < i
      ensures !At(s, p, k)
    {
      AtChar(s, p, k, 0);
    }
    FindIs(s, p, from, i);
  }

  lemma PlainHeaderFramed(status: string, length: string)
    requires '\r' !in status && '\r' !in length
    ensures Head(PlainHeader(status, length) + CRLF) == Some(PlainHeader(status, length))
    ensures Field(PlainHeader(status, length), NAME) == length
  {
    var field := CRLF + NAME + ": ";
    var header := PlainHeader(status, length);
    PlainHead(status, length);
    UpperMatch(status, field, length + CRLF);
    assert status + field + (length + CRLF) == header;
    Sections(header, status + field, length, CRLF);
    hide Find, At, PlainHeader, NAME;
    BetweenReturns(header, |status| + |field|, |status| + |field| + |length|);
  }

  lemma Sections(s: string, a: string, b: string, c: string)
    requires s == a + (b + c)
    ensures |a| + |b| <= |s| && s[|a|..|a| + |b|] == b && At(s, c, |a| + |b|)
  {
    assert s[|a|..|a| + |b|] == b && s[|a| + |b|..|a| + |b| + |c|] == c;
  }

  lemma BetweenReturns(s: string, from: nat, to: nat)
    requires from <= to <= |s| && '\r' !in s[from..to] && At(s, CRLF, to)
    ensures Find(s, CRLF, from) == Some(to)
  {
    forall k | from <= k < to
      ensures s[k] != '\r'
    {
      assert s[k] == s[from..to][k - from];
    }
    hide Find, At;
    FindAtCR(s, CRLF, from, to);
  }

  lemma PlainHead(status: string, length: string)
    requires '\r' !in status && '\r' !in length
    ensures Head(PlainHeader(status, length) + CRLF) == Some(PlainHeader(status, length))
  {
    var field := CRLF + NAME + ": ";
    var b := PlainHeader(status, length) + CRLF;
    var h := |status| + |field| + |length|;
    assert b[h..] == HEADER_END;
    forall k | 0 <= k < h
      ensures !At(b, HEADER_END, k)
    {
      AtChar(b, HEADER_END, k, 0);
      AtChar(b, HEADER_END, k, 2);
      if k < |status| {
        assert b[k] == status[k];
      } else if k < |status| + |field| {
        assert b[k] == field[k - |status|];
        assert k == |status| ==> b[k + 2] == field[2];
      } else {
        assert b[k] == length[k - |status| - |field|];
      }
    }
    FindIs(b, HEADER_END, 0, h);
    assert b[..h + 2] == PlainHeader(status, length);
  }

  lemma UpperMatch(a: string, p: string, b: string)
    requires p != "" && p[0] == '\r' && '\r' !in a
    ensures CiFind(a + p + b, p) == Some(|a|)
  {
    var s := UpperAll(a + p + b);
    assert s[|a|..|a| + |p|] == UpperAll(p);
    forall k | 0 <= k < |a|
      ensures s[k] != '\r'
    {
      assert s[k] == Upper(a[k]) && a[k] in a;
    }
    FindAtCR(s, UpperAll(p), 0, |a|);
  }

  const STATUS := "HTTP/1.1 200 OK"

  lemma PlainHeaderParts(length: string)
    ensures
      var header := PlainHeader(STATUS, length);
      |header| == |length| + 35 && StatusOk(header)
  {
    var header := PlainHeader(STATUS, length);
    assert header[9..12] == STATUS[9..12] == "200";
  }

  /** The plainest response with a body is well-formed. */
  lemma PlainResponseWellFormed(body: string)
    requires body != "" && |Decimal(|body|)| + |body| <= LONG_MAX - 100
    ensures WellFormed(Response(PlainHeader(STATUS, Decimal(|body|)), body))
  {
    var length := Decimal(|body|);
    assert '\r' !in length && '\r' !in STATUS;
    PlainHeaderFramed(STATUS, length);
    AtolOfDecimal(|body|);
    PlainHeaderParts(length);
    hide PlainHeader, Head, Field, Atol, Decimal, StatusOk;
  }

  lemma AtolMinusOne()
    ensures Atol("-1") == -1
  {
    assert "-1"[1..] == "1";
    LastDigit(1, 0);
    assert ['0' + 1 as char] == "1";
  }

  /** A Content-Length of -1 with a byte behind it makes the framing depend on chunking. */
  lemma NegativeLengthDependsOnChunks(s: State)
    requires s.buffer == PlainHeader(STATUS, "-1") + CRLF + "x"
    ensures !CutInvariant(s)
  {
    var header := PlainHeader(STATUS, "-1");
    PlainHeaderFramed(STATUS, "-1");
    HeadStable(header + CRLF, "x");
    PlainHeaderParts("-1");
    AtolMinusOne();
    CutInvariantIffClean(s);
    MinusOneWraps(s.buffer, header);
  }

  lemma MinusOneWraps(buffer: string, header: string)
    requires 9 <= |header| <= 100 && |buffer| == |header| + 3
    requires Head(buffer) == Some(header) && Atol(Field(header, NAME)) == -1
    ensures !Clean(buffer)
  {
    hide Head, Field, Atol;
    assert ContentLength(header) == SIZE_MAX;
    assert Size(|header| + 2 + SIZE_MAX) == |header| + 1;
  }
}
