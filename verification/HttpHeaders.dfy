/** Headers made of a status line and fields: which value `getHTTPField` finds in them, and what a
    response with such a header does to the connection (gloox/connectionbosh.cpp:319-404). */
module HttpHeaders {
  import opened Text
  import opened HttpFraming
  import opened Bosh
  import opened BoshChunks
  import opened HttpResponses

  datatype Line = Line(name: string, value: string)

  function RenderLine(l: Line): string {
    CRLF + l.name + ": " + l.value
  }

  /** Behind its carriage return. */
  function LineRest(l: Line): string {
    "\n" + l.name + ": " + l.value
  }

  lemma LineRestIs(l: Line, tail: string)
    ensures (RenderLine(l) + tail)[1..] == LineRest(l) + tail && |RenderLine(l)| == |LineRest(l)| + 1
    ensures IsName(l.name) && '\r' !in l.value ==> '\r' !in LineRest(l)
  {
    assert RenderLine(l) == "\r" + LineRest(l);
  }

  function RenderLines(fields: seq<Line>): string {
    if fields == [] then "" else RenderLine(fields[0]) + RenderLines(fields[1..])
  }

  /** Up to the blank line. */
  function Header(status: string, fields: seq<Line>): string {
    status + RenderLines(fields) + CRLF
  }

  predicate SameLetter(a: char, b: char) {
    || a == b
    || ('A' <= a <= 'Z' && b as int == a as int + 32)
    || ('A' <= b <= 'Z' && a as int == b as int + 32)
  }

  /** But for the case of ASCII letters. */
  predicate SameName(a: string, b: string) {
    |a| == |b| && forall i | 0 <= i < |a| :: SameLetter(a[i], b[i])
  }

  /** The value of the first field of that name. */
  function Value(fields: seq<Line>, name: string): string {
    if fields == [] then "" else if SameName(fields[0].name, name) then fields[0].value else Value(fields[1..], name)
  }

  predicate IsName(name: string) {
    '\r' !in name && ':' !in name
  }

  predicate AreLines(fields: seq<Line>) {
    fields == [] || (IsName(fields[0].name) && '\r' !in fields[0].value && AreLines(fields[1..]))
  }

  // ---- one line ----

  lemma UpperSame(a: char, b: char)
    ensures Upper(a) == Upper(b) <==> SameLetter(a, b)
    ensures (Upper(a) == ':' <==> a == ':') && (Upper(a) == '\r' <==> a == '\r')
  {
  }

  lemma UpperAt(s: string, i: nat)
    requires i < |s|
    ensures UpperAll(s)[i] == Upper(s[i])
  {
  }

  function Pattern(name: string): string {
    UpperAll(CRLF + name + ": ")
  }

  lemma PatternAt(name: string)
    ensures
      var p := Pattern(name);
      && |p| == |name| + 4 && p[0] == '\r' && p[1] == '\n' && p[|name| + 2] == ':' && p[|name| + 3] == ' '
      && forall i | 0 <= i < |name| :: p[i + 2] == Upper(name[i])
  {
  }

  lemma LineAt(l: Line, tail: string)
    ensures
      var t := RenderLine(l) + tail;
      && |t| == |l.name| + 4 + |l.value| + |tail|
      && t[0] == '\r' && t[1] == '\n' && t[|l.name| + 2] == ':' && t[|l.name| + 3] == ' '
      && (forall i | 0 <= i < |l.name| :: t[i + 2] == l.name[i])
      && t[|l.name| + 4..] == l.value + tail
  {
  }

  lemma AtUpper(s: string, p: string, k: nat)
    ensures At(UpperAll(s), p, k) <==> k + |p| <= |s| && forall i | 0 <= i < |p| :: Upper(s[k + i]) == p[i]
  {
    if k + |p| <= |s| {
      var u := UpperAll(s)[k..k + |p|];
      forall i | 0 <= i < |p|
        ensures u[i] == Upper(s[k + i])
      {
        UpperAt(s, k + i);
      }
      hide Upper, UpperAll;
    }
  }

  lemma Suffix(s: string, k: nat, t: string)
    requires k <= |s| && s[k..] == t
    ensures |s| == k + |t| && forall i | 0 <= i < |t| :: s[k + i] == t[i]
  {
    assert forall i | 0 <= i < |t| :: s[k..][i] == s[k + i];
  }

  /** A line is found exactly under its name. */
  lemma LineMatches(s: string, k: nat, l: Line, tail: string, name: string)
    requires k <= |s| && s[k..] == RenderLine(l) + tail && IsName(l.name) && IsName(name)
    ensures At(UpperAll(s), Pattern(name), k) <==> SameName(l.name, name)
  {
    var t, p := RenderLine(l) + tail, Pattern(name);
    Suffix(s, k, t);
    LineAt(l, tail);
    PatternAt(name);
    AtUpper(s, p, k);
    hide RenderLine, Pattern, UpperAll, At;
    SameIff(t, p, l.name, name);
    assert At(UpperAll(s), p, k) <==> Prefixes(t, p);
  }

  predicate Prefixes(t: string, p: string) {
    |p| <= |t| && forall i | 0 <= i < |p| :: Upper(t[i]) == p[i]
  }

  lemma SameIff(t: string, p: string, a: string, b: string)
    requires IsName(a) && IsName(b)
    requires |t| >= |a| + 4 && |p| == |b| + 4
    requires t[0] == '\r' && t[1] == '\n' && t[|a| + 2] == ':' && t[|a| + 3] == ' '
    requires p[0] == '\r' && p[1] == '\n' && p[|b| + 2] == ':' && p[|b| + 3] == ' '
    requires forall i | 0 <= i < |a| :: t[i + 2] == a[i]
    requires forall i | 0 <= i < |b| :: p[i + 2] == Upper(b[i])
    ensures Prefixes(t, p) <==> SameName(a, b)
  {
    forall x: char, y: char
      ensures Upper(x) == Upper(y) <==> SameLetter(x, y)
    {
      UpperSame(x, y);
    }
    if Prefixes(t, p) {
      SameLengths(t, p, a, b);
      forall i | 0 <= i < |a|
        ensures SameLetter(a[i], b[i])
      {
        assert Upper(t[i + 2]) == p[i + 2];
      }
    } else if SameName(a, b) {
      forall i | 0 <= i < |p|
        ensures Upper(t[i]) == p[i]
      {
        if 2 <= i < |a| + 2 {
          assert t[i] == a[i - 2] && p[i] == Upper(b[i - 2]);
        }
      }
    }
  }

  lemma SameLengths(t: string, p: string, a: string, b: string)
    requires IsName(a) && IsName(b)
    requires |t| >= |a| + 4 && |p| == |b| + 4 && t[|a| + 2] == ':' && p[|b| + 2] == ':'
    requires forall i | 0 <= i < |a| :: t[i + 2] == a[i]
    requires forall i | 0 <= i < |b| :: p[i + 2] == Upper(b[i])
    requires Prefixes(t, p)
    ensures |a| == |b|
  {
    if |b| < |a| {
      var i := |b|;
      assert Upper(t[i + 2]) == p[i + 2] && t[i + 2] == a[i] && a[i] in a;
      UpperSame(a[i], ':');
    } else if |a| < |b| {
      var i := |a|;
      assert Upper(t[i + 2]) == p[i + 2] && b[i] in b;
      UpperSame(b[i], ':');
    }
  }

  // ---- the search ----

  /** `getHTTPField`, the search beginning at `from`. */
  function FieldFrom(s: string, name: string, from: nat): string {
    match Find(UpperAll(s), Pattern(name), from)
    case None => ""
    case Some(i) =>
      match Find(s, CRLF, i + |name| + 4)
      case None => ""
      case Some(to) => s[i + |name| + 4..to]
  }

  lemma FieldIsFrom(s: string, name: string)
    ensures Field(s, name) == FieldFrom(s, name, 0)
  {
  }

  /** Nothing is found before the next carriage return. */
  lemma SkipText(s: string, name: string, from: nat, k: nat)
    requires from <= k <= |s| && '\r' !in s[from..k]
    ensures FieldFrom(s, name, from) == FieldFrom(s, name, k)
  {
    hide At, Pattern, UpperAll;
    var u, p := UpperAll(s), Pattern(name);
    forall j | from <= j < k
      ensures !At(u, p, j)
    {
      assert s[j] == s[from..k][j - from];
      BeginsWithReturn(s, name, j);
    }
    FindSkips(u, p, from, k);
  }

  lemma BeginsWithReturn(s: string, name: string, j: nat)
    ensures At(UpperAll(s), Pattern(name), j) ==> j < |s| && s[j] == '\r'
  {
    PatternAt(name);
    AtUpper(s, Pattern(name), j);
    hide At, Pattern, UpperAll;
    if j < |s| {
      UpperSame(s[j], '\r');
      assert s[j] == s[j + 0];
    }
  }

  lemma {:induction false} FindSkips(s: string, p: string, from: nat, k: nat)
    requires from <= k && forall j | from <= j < k :: !At(s, p, j)
    ensures Find(s, p, from) == Find(s, p, k)
    decreases k - from
  {
    hide At;
    if from < k {
      FindSkips(s, p, from + 1, k);
      if from + |p| >= |s| {
        BeyondEnd(s, p, k);
      }
    }
  }

  lemma BeyondEnd(s: string, p: string, k: nat)
    requires k + |p| > |s|
    ensures Find(s, p, k) == None
  {
  }

  lemma TextEnds(s: string, from: nat, mid: string, rest: string)
    requires from <= |s| && s[from..] == mid + rest
    ensures from + |mid| <= |s| && s[from..from + |mid|] == mid && s[from + |mid|..] == rest
  {
    assert s[from..][..|mid|] == mid && s[from..][|mid|..] == rest;
  }

  /** What the search finds from within a header. */
  lemma {:induction false} FieldFromIs(s: string, from: nat, mid: string, fields: seq<Line>, name: string)
    requires from <= |s| && s[from..] == mid + (RenderLines(fields) + CRLF) && '\r' !in mid
    requires AreLines(fields) && IsName(name)
    ensures FieldFrom(s, name, from) == Value(fields, name)
    decreases |fields|
  {
    var k := from + |mid|;
    hide FieldFrom, SameName, IsName, RenderLine, Pattern, UpperAll, At;
    TextEnds(s, from, mid, RenderLines(fields) + CRLF);
    SkipText(s, name, from, k);
    if fields == [] {
      assert s[k..] == CRLF;
      NoField(s, name, k);
    } else {
      var l, tail := fields[0], RenderLines(fields[1..]) + CRLF;
      FirstLine(fields, CRLF);
      hide RenderLines;
      LineMatches(s, k, l, tail, name);
      if SameName(l.name, name) {
        TailBegins(fields[1..]);
        assert |l.name| == |name| by { SameSize(l.name, name); }
        LineFound(s, k, l, tail, name);
      } else {
        NextLine(s, k, l, tail, name);
        FieldFromIs(s, k + 1, LineRest(l), fields[1..], name);
      }
    }
  }

  lemma FirstLine(fields: seq<Line>, ending: string)
    requires fields != []
    ensures RenderLines(fields) + ending == RenderLine(fields[0]) + (RenderLines(fields[1..]) + ending)
  {
    hide RenderLine;
  }

  lemma SameSize(a: string, b: string)
    requires SameName(a, b)
    ensures |a| == |b|
  {
  }

  lemma NoField(s: string, name: string, k: nat)
    requires k <= |s| && s[k..] == CRLF
    ensures FieldFrom(s, name, k) == ""
  {
    assert |Pattern(name)| == |name| + 4 && |UpperAll(s)| == |s|;
    hide Pattern, UpperAll;
    BeyondEnd(UpperAll(s), Pattern(name), k);
  }

  lemma TailBegins(fields: seq<Line>)
    ensures CRLF <= RenderLines(fields) + CRLF
  {
    if fields != [] {
      assert RenderLine(fields[0])[..2] == CRLF;
    }
  }

  lemma LineFound(s: string, k: nat, l: Line, tail: string, name: string)
    requires k <= |s| && s[k..] == RenderLine(l) + tail && CRLF <= tail && '\r' !in l.value
    requires |l.name| == |name| && At(UpperAll(s), Pattern(name), k)
    ensures FieldFrom(s, name, k) == l.value
  {
    var j := k + |name| + 4;
    hide At, Pattern, UpperAll, RenderLine, Find;
    LineAt(l, tail);
    Suffix(s, k, RenderLine(l) + tail);
    DropMany(s, k, RenderLine(l) + tail, |name| + 4);
    ValueEnds(s, j, l.value, tail);
    FindIs(UpperAll(s), Pattern(name), k, k);
  }

  lemma DropMany(s: string, k: nat, t: string, n: nat)
    requires k <= |s| && s[k..] == t && n <= |t|
    ensures k + n <= |s| && s[k + n..] == t[n..]
  {
    assert s[k + n..] == s[k..][n..];
  }

  lemma ValueEnds(s: string, j: nat, value: string, tail: string)
    requires j <= |s| && s[j..] == value + tail && CRLF <= tail && '\r' !in value
    ensures j + |value| <= |s| && Find(s, CRLF, j) == Some(j + |value|) && s[j..j + |value|] == value
  {
    hide At, Find;
    TextEnds(s, j, value, tail);
    AtPrefix(s, CRLF, j + |value|);
    BetweenReturns(s, j, j + |value|);
  }

  lemma AtPrefix(s: string, p: string, k: nat)
    requires k <= |s| && p <= s[k..]
    ensures At(s, p, k)
  {
    assert s[k..][..|p|] == s[k..k + |p|];
  }

  lemma NextLine(s: string, k: nat, l: Line, tail: string, name: string)
    requires k <= |s| && s[k..] == RenderLine(l) + tail && IsName(l.name) && '\r' !in l.value
    requires !At(UpperAll(s), Pattern(name), k)
    ensures k + 1 <= |s| && s[k + 1..] == LineRest(l) + tail
    ensures '\r' !in LineRest(l)
    ensures FieldFrom(s, name, k) == FieldFrom(s, name, k + 1)
  {
    hide At, Pattern, UpperAll, LineRest, RenderLine, FieldFrom;
    LineRestIs(l, tail);
    DropOne(s, k, RenderLine(l) + tail);
    SkipOne(s, name, k);
  }

  lemma DropOne(s: string, k: nat, t: string)
    requires k <= |s| && s[k..] == t && t != ""
    ensures k + 1 <= |s| && s[k + 1..] == t[1..]
  {
    assert s[k + 1..] == s[k..][1..];
  }

  lemma SkipOne(s: string, name: string, k: nat)
    requires !At(UpperAll(s), Pattern(name), k)
    ensures FieldFrom(s, name, k) == FieldFrom(s, name, k + 1)
  {
    hide At, Pattern, UpperAll;
    FindSkips(UpperAll(s), Pattern(name), k, k + 1);
  }

  /** `getHTTPField` returns the value of the first field of that name, whatever its case, and nothing
      where there is none. */
  lemma FieldIsValue(status: string, fields: seq<Line>, name: string)
    requires '\r' !in status && AreLines(fields) && IsName(name)
    ensures Field(Header(status, fields), name) == Value(fields, name)
  {
    var header := Header(status, fields);
    assert header[0..] == header == status + (RenderLines(fields) + CRLF);
    FieldIsFrom(header, name);
    hide Header, RenderLines, Value, Field, FieldFrom, IsName;
    FieldFromIs(header, 0, status, fields, name);
  }

  // ---- the header ----

  lemma NoReturn(s: string, from: nat, k: nat)
    requires from <= k <= |s| && '\r' !in s[from..k]
    ensures forall j | from <= j < k :: !At(s, HEADER_END, j)
  {
    forall j | from <= j < k
      ensures !At(s, HEADER_END, j)
    {
      assert s[j] == s[from..k][j - from];
      AtChar(s, HEADER_END, j, 0);
    }
  }

  lemma {:induction false} NoBlankLine(s: string, from: nat, mid: string, fields: seq<Line>, ending: string)
    requires from <= |s| && s[from..] == mid + (RenderLines(fields) + ending) && '\r' !in mid
    requires AreLines(fields) && HEADER_END <= ending
    ensures Find(s, HEADER_END, from) == Some(from + |mid| + |RenderLines(fields)|)
    decreases |fields|
  {
    var k := from + |mid|;
    hide At, Find, HEADER_END;
    TextEnds(s, from, mid, RenderLines(fields) + ending);
    NoReturn(s, from, k);
    if fields == [] {
      assert s[k..] == ending;
      AtPrefix(s, HEADER_END, k);
      FindIs(s, HEADER_END, from, k);
    } else {
      var l := fields[0];
      LinesBegin(fields, ending);
      hide IsName, LineRest, RenderLine, RenderLines;
      LineIsNotBlank(s, k, l, RenderLines(fields[1..]) + ending);
      FindSkips(s, HEADER_END, from, k + 1);
      NoBlankLine(s, k + 1, LineRest(l), fields[1..], ending);
      LineRestIs(l, "");
    }
  }

  lemma LinesBegin(fields: seq<Line>, ending: string)
    requires fields != []
    ensures RenderLines(fields) + ending == RenderLine(fields[0]) + (RenderLines(fields[1..]) + ending)
    ensures |RenderLines(fields)| == |RenderLine(fields[0])| + |RenderLines(fields[1..])|
  {
    hide RenderLine;
  }

  lemma LineIsNotBlank(s: string, k: nat, l: Line, tail: string)
    requires k <= |s| && s[k..] == RenderLine(l) + tail && IsName(l.name) && '\r' !in l.value
    ensures !At(s, HEADER_END, k)
    ensures k + 1 <= |s| && s[k + 1..] == LineRest(l) + tail
    ensures '\r' !in LineRest(l)
  {
    hide Find;
    LineAt(l, tail);
    LineRestIs(l, tail);
    Suffix(s, k, RenderLine(l) + tail);
    hide RenderLine, LineRest, At;
    NotBlankAt(s, k, RenderLine(l) + tail, l.name);
    assert s[k + 1..] == s[k..][1..];
  }

  lemma NotBlankAt(s: string, k: nat, t: string, name: string)
    requires |s| == k + |t| && forall i | 0 <= i < |t| :: s[k + i] == t[i]
    requires |t| >= |name| + 4 && t[|name| + 2] == ':' && (forall i | 0 <= i < |name| :: t[i + 2] == name[i]) && '\r' !in name
    ensures !At(s, HEADER_END, k)
  {
    AtChar(s, HEADER_END, k, 2);
    assert s[k + 2] == t[2];
    assert name != "" ==> t[0 + 2] == name[0] && name[0] in name;
  }

  lemma HeaderIsHead(status: string, fields: seq<Line>, rest: string)
    requires '\r' !in status && AreLines(fields)
    ensures Head(Header(status, fields) + CRLF + rest) == Some(Header(status, fields))
  {
    var s := Header(status, fields) + CRLF + rest;
    assert s[0..] == s == status + (RenderLines(fields) + (HEADER_END + rest));
    assert HEADER_END <= HEADER_END + rest;
    NoBlankLine(s, 0, status, fields, HEADER_END + rest);
    assert s[..|status| + |RenderLines(fields)| + 2] == Header(status, fields);
    hide Find;
  }

  // ---- the response ----

  /** A response of these texts, whose length field says how long its body is. */
  predicate Describes(status: string, fields: seq<Line>, body: string) {
    && |status| >= 12 && '\r' !in status && AreLines(fields)
    && body != "" && Value(fields, "Content-Length") == Decimal(|body|)
    && |Header(status, fields)| + 2 + |body| <= LONG_MAX
  }

  /** The server ends persistent connections by the field, or by the version in the status line. */
  predicate EndsPersistence(status: string, fields: seq<Line>) {
    Value(fields, "Connection") == "close" || "HTTP/1.0" <= status
  }

  lemma FallbackIs(status: string, fields: seq<Line>, body: string)
    requires Describes(status, fields, body)
    ensures
      var header := Header(status, fields);
      && |header| >= 9
      && (WantsFallback(header) <==> EndsPersistence(status, fields))
      && (StatusOk(header) <==> status[9..12] == "200")
  {
    var header := Header(status, fields);
    FieldIsValue(status, fields, "Connection");
    assert header[..8] == status[..8] && header[9..12] == status[9..12];
    assert "HTTP/1.0" <= status <==> status[..8] == "HTTP/1.0";
    hide Header, Field, Value, AreLines;
  }

  lemma NextIs(b: string, header: string, body: string)
    requires b == header + CRLF + body && Head(b) == Some(header)
    requires |header| >= 9 && body != "" && ContentLength(header) == |body| && |b| <= SIZE_MAX
    ensures Next(b) == Body(header, body, |b|)
  {
    hide Head, ContentLength;
    assert b[|header| + 2..|header| + 2 + |body|] == body;
  }

  lemma PassOfResponse(status: string, fields: seq<Line>, body: string)
    requires Describes(status, fields, body)
    ensures
      var header := Header(status, fields);
      Next(header + CRLF + body) == Body(header, body, |header + CRLF + body|)
  {
    var header := Header(status, fields);
    var b := header + CRLF + body;
    HeaderIsHead(status, fields, body);
    FieldIsValue(status, fields, "Content-Length");
    AtolOfDecimal(|body|);
    assert |header| >= 9;
    hide Head, Field, Value, AreLines, Atol, Header, Decimal;
    assert ContentLength(header) == |body|;
    hide ContentLength;
    NextIs(b, header, body);
  }

  /** What such a response does: it ends the session if its code is not 200; it ends pipelining exactly
      if the server ends persistent connections; and then, as in the other modes, the front active
      connection goes to the end of the pool. */
  lemma ResponseHandled(s: State, status: string, fields: seq<Line>, body: string)
    requires s.buffer == "" && s.active != [] && Describes(status, fields, body)
    ensures
      var mode := if EndsPersistence(status, fields) then LegacyHTTP else s.mode;
      HandleReceivedData(s, Header(status, fields) + CRLF + body) ==
        s.(state := if status[9..12] == "200" then s.state else Disconnected,
           mode := mode,
           active := if mode == Pipelining then s.active else s.active[1..],
           pool := if mode == Pipelining then s.pool else s.pool + [s.active[0]],
           openRequests := s.openRequests - 1,
           fed := s.fed + [body])
  {
    var data := Header(status, fields) + CRLF + body;
    FallbackIs(status, fields, body);
    PassOfResponse(status, fields, body);
    assert s.buffer + data == data && data[|data|..] == "";
    hide Header, Describes, EndsPersistence, WantsFallback, StatusOk, Next;
    TurnEmpties(s, data);
  }

  lemma TurnEmpties(s: State, data: string)
    requires Feeds(data) && Next(data).erased == |data| && s.active != []
    ensures
      var p := Next(data);
      Receive(s.(buffer := data)) == OnBody(OnHeader(s.(buffer := data), p.header), p.body, |data|)
  {
    var b := s.(buffer := data);
    ReceiveOnce(b);
    assert data[|data|..] == "";
    var t := Turn(b);
    assert t.buffer == "";
    hide Next, WantsFallback, StatusOk, Receive;
    EmptyBuffer(t);
  }

  lemma EmptyBuffer(s: State)
    requires s.buffer == ""
    ensures Receive(s) == s
  {
    NothingToReceive(s);
  }
}
