/** JIDs: taking them apart and putting them together (gloox/jid.cpp:21-85). */
module Jid {
  import opened Text

  /** `std::string::npos`: sizes are taken modulo NPOS + 1. */
  const NPOS: nat := 0xffff_ffff_ffff_ffff

  // ---- the text ----

  /** The parts of a text, before any of them is prepared. */
  datatype Parts = Parts(node: Option<string>, server: string, resource: Option<string>)

  /** Position of a character at or after `from`, or NPOS. */
  function FindChar(s: string, c: char, from: nat): (i: nat)
    requires |s| < NPOS
    ensures i < |s| || i == NPOS
    ensures i < |s| ==> from <= i && s[i] == c && c !in s[from..i]
    ensures i == NPOS && from <= |s| ==> c !in s[from..]
    decreases |s| - from
  {
    if from >= |s| then NPOS
    else if s[from] == c then from
    else
      var i := FindChar(s, c, from + 1);
      assert i < |s| ==> s[from..i] == [s[from]] + s[from + 1..i];
      assert s[from..] == [s[from]] + s[from + 1..];
      i
  }

  function Wrap(n: int): nat { n % (NPOS + 1) }

  /** The lengths as `setJID` computes them. */
  function SplitAt(jid: string, at: nat, slash: nat): Parts
    requires (at < |jid| || at == NPOS) && (slash < |jid| || slash == NPOS)
  {
    Parts(
      if at == NPOS then None else Some(Substr(jid, 0, at)),
      Substr(jid, if at == NPOS then 0 else at + 1, Wrap(slash - at - 1)),
      if slash == NPOS then None else Some(Substr(jid, slash + 1, NPOS)))
  }

  function Split(jid: string): Parts
    requires |jid| < NPOS
  {
    var at := FindChar(jid, '@', 0);
    SplitAt(jid, at, FindChar(jid, '/', if at == NPOS then 0 else at))
  }

  function PrintBare(username: string, server: string): string {
    (if username == "" then "" else username + "@") + server
  }

  function Print(username: string, server: string, resource: string): string {
    PrintBare(username, server) + if resource == "" then "" else "/" + resource
  }

  function Present(part: string): Option<string> {
    if part == "" then None else Some(part)
  }

  // ---- what Split does, without positions ----

  function Joined(p: Parts): string {
    (if p.node.None? then "" else p.node.value + "@") + p.server
      + if p.resource.None? then "" else "/" + p.resource.value
  }

  /** The node ends at the first '@' of all, the server at the first '/' after that. */
  predicate WellSplit(p: Parts) {
    && '/' !in p.server
    && (p.node.Some? ==> '@' !in p.node.value)
    && (p.node.None? ==> '@' !in p.server && (p.resource.Some? ==> '@' !in p.resource.value))
  }

  /** `slash - at - 1` in all four cases: the length of the server, or enough for the rest. */
  lemma WrappedLength(at: nat, slash: nat, n: nat)
    requires n < NPOS && (at < n || at == NPOS) && (slash < n || slash == NPOS)
    requires at != NPOS && slash != NPOS ==> at < slash
    ensures
      var len, begin := Wrap(slash - at - 1), if at == NPOS then 0 else at + 1;
      if slash == NPOS then len >= n - begin else len == slash - begin
  {
    if at == NPOS && slash != NPOS {
      assert slash - at - 1 == slash - (NPOS + 1);
    } else if at == NPOS {
      assert slash - at - 1 == NPOS - (NPOS + 1);
    }
  }

  /** Where the two separators are. */
  predicate Positions(jid: string, at: nat, slash: nat) {
    && |jid| < NPOS
    && (if at == NPOS then '@' !in jid else at < |jid| && jid[at] == '@' && '@' !in jid[..at])
    && var begin := if at == NPOS then 0 else at + 1;
       if slash == NPOS then '/' !in jid[begin..] else begin <= slash < |jid| && jid[slash] == '/' && '/' !in jid[begin..slash]
  }

  function CutAt(jid: string, at: nat, slash: nat): Parts
    requires Positions(jid, at, slash)
  {
    var begin := if at == NPOS then 0 else at + 1;
    Parts(
      if at == NPOS then None else Some(jid[..at]),
      if slash == NPOS then jid[begin..] else jid[begin..slash],
      if slash == NPOS then None else Some(jid[slash + 1..]))
  }

  lemma FindPositions(jid: string)
    requires |jid| < NPOS
    ensures
      var at := FindChar(jid, '@', 0);
      Positions(jid, at, FindChar(jid, '/', if at == NPOS then 0 else at))
  {
    var at := FindChar(jid, '@', 0);
    hide FindChar;
    if at == NPOS {
      assert jid[0..] == jid;
    } else {
      assert jid[0..at] == jid[..at];
      FindSlash(jid, at);
    }
  }

  /** The search for the slash may as well begin after the '@'. */
  lemma FindSlash(jid: string, at: nat)
    requires |jid| < NPOS && at < |jid| && jid[at] == '@'
    ensures FindChar(jid, '/', at) == FindChar(jid, '/', at + 1)
  {
  }

  lemma SplitIsCut(jid: string, at: nat, slash: nat)
    requires Positions(jid, at, slash)
    ensures (at < |jid| || at == NPOS) && (slash < |jid| || slash == NPOS)
    ensures SplitAt(jid, at, slash) == CutAt(jid, at, slash)
  {
    WrappedLength(at, slash, |jid|);
    hide Wrap;
  }

  /** `Split` loses nothing of the text, and cuts it at the right places. */
  lemma SplitJoined(jid: string)
    requires |jid| < NPOS
    ensures Joined(Split(jid)) == jid && WellSplit(Split(jid))
  {
    var at := FindChar(jid, '@', 0);
    var slash := FindChar(jid, '/', if at == NPOS then 0 else at);
    FindPositions(jid);
    SplitIsCut(jid, at, slash);
    hide SplitAt, FindChar, Joined, WellSplit, CutAt, Positions;
    CutJoined(jid, at, slash);
    CutWell(jid, at, slash);
  }

  /** The text up to the end of the server. */
  lemma CutFront(jid: string, at: nat, slash: nat)
    requires Positions(jid, at, slash)
    ensures
      var p := CutAt(jid, at, slash);
      (if p.node.None? then "" else p.node.value + "@") + p.server == jid[..if slash == NPOS then |jid| else slash]
  {
    var end := if slash == NPOS then |jid| else slash;
    var server := CutAt(jid, at, slash).server;
    if at == NPOS {
      assert "" + server == jid[..end];
    } else {
      assert server == jid[at + 1..end];
      assert jid[..at] + "@" + server == jid[..end];
    }
  }

  /** And the rest. */
  lemma CutBack(jid: string, at: nat, slash: nat)
    requires Positions(jid, at, slash)
    ensures
      var p := CutAt(jid, at, slash);
      jid[..if slash == NPOS then |jid| else slash] + (if p.resource.None? then "" else "/" + p.resource.value) == jid
  {
    if slash == NPOS {
      assert jid[..|jid|] + "" == jid;
    } else {
      assert jid[..slash] + ("/" + jid[slash + 1..]) == jid;
    }
  }

  lemma CutJoined(jid: string, at: nat, slash: nat)
    requires Positions(jid, at, slash)
    ensures Joined(CutAt(jid, at, slash)) == jid
  {
    hide CutAt, Positions;
    CutFront(jid, at, slash);
    CutBack(jid, at, slash);
  }

  lemma CutWell(jid: string, at: nat, slash: nat)
    requires Positions(jid, at, slash)
    ensures WellSplit(CutAt(jid, at, slash))
  {
  }

  /** No other parts make up the same text. */
  lemma WellSplitUnique(p: Parts, q: Parts)
    requires WellSplit(p) && WellSplit(q) && Joined(p) == Joined(q)
    ensures p == q
  {
    NodeUnique(p, q);
    NodeRest(p);
    NodeRest(q);
    ServerUnique(p.server, p.resource, q.server, q.resource);
  }

  /** What follows the node. */
  function Rest(server: string, resource: Option<string>): string {
    server + if resource.None? then "" else "/" + resource.value
  }

  lemma NodeRest(p: Parts)
    ensures Joined(p) == if p.node.None? then Rest(p.server, p.resource) else p.node.value + "@" + Rest(p.server, p.resource)
  {
  }

  lemma NodeUnique(p: Parts, q: Parts)
    requires WellSplit(p) && WellSplit(q) && Joined(p) == Joined(q)
    ensures p.node == q.node && Rest(p.server, p.resource) == Rest(q.server, q.resource)
  {
    var s := Joined(p);
    FirstAt(p);
    FirstAt(q);
    NodeRest(p);
    NodeRest(q);
    hide Joined, WellSplit, Rest;
    if p.node.Some? && q.node.Some? {
      var m, n := |p.node.value|, |q.node.value|;
      assert m == n;
      assert p.node.value == s[..m] == q.node.value;
      assert Rest(p.server, p.resource) == s[m + 1..] == Rest(q.server, q.resource);
    }
  }

  lemma FirstAt(p: Parts)
    requires WellSplit(p)
    ensures
      var s := Joined(p);
      if p.node.None? then forall i | 0 <= i < |s| :: s[i] != '@'
      else
        var n := |p.node.value|;
        n < |s| && s[n] == '@' && s[..n] == p.node.value && forall i | 0 <= i < n :: s[i] != '@'
  {
  }

  lemma ServerUnique(a: string, r: Option<string>, b: string, t: Option<string>)
    requires '/' !in a && '/' !in b && Rest(a, r) == Rest(b, t)
    ensures a == b && r == t
  {
    var s := Rest(a, r);
    FirstSlash(a, r);
    FirstSlash(b, t);
    hide Rest;
    if r.Some? && t.Some? {
      assert |a| == |b|;
      assert a == s[..|a|] == b;
      assert r.value == s[|a| + 1..] == t.value;
    }
  }

  lemma FirstSlash(a: string, r: Option<string>)
    requires '/' !in a
    ensures
      var s := Rest(a, r);
      if r.None? then s == a && forall i | 0 <= i < |s| :: s[i] != '/'
      else |a| < |s| && s[|a|] == '/' && s[..|a|] == a && s[|a| + 1..] == r.value && forall i | 0 <= i < |a| :: s[i] != '/'
  {
  }

  /** The parts of a printed JID are found again exactly if: the server has no '/', and the
      username, if there is one, has no '@'; else neither the server nor the resource has one. */
  lemma SplitPrintIff(username: string, server: string, resource: string)
    requires |Print(username, server, resource)| < NPOS
    ensures
      Split(Print(username, server, resource)) == Parts(Present(username), server, Present(resource))
      <==> ToldApart(username, server, resource)
  {
    var p := Parts(Present(username), server, Present(resource));
    JoinedPrint(username, server, resource);
    SplitJoined(Joined(p));
    if WellSplit(p) {
      SplitOf(Joined(p), p);
    }
  }

  lemma JoinedPrint(username: string, server: string, resource: string)
    ensures Joined(Parts(Present(username), server, Present(resource))) == Print(username, server, resource)
  {
  }

  // ---- the object ----

  /** A stringprep profile: `None` where it fails. */
  type Prep = string -> Option<string>

  datatype Profiles = Profiles(node: Prep, name: Prep, resource: Prep)

  datatype State = State(
    username: string,
    server: string,
    serverRaw: string,
    resource: string,
    bare: string,
    full: string,
    valid: bool)

  const EMPTY := State("", "", "", "", "", "", false)

  /** `setBare`, `setFull`, `setStrings` */
  function SetBare(s: State): State { s.(bare := PrintBare(s.username, s.server)) }
  function SetFull(s: State): State { s.(full := s.bare + if s.resource == "" then "" else "/" + s.resource) }
  function SetStrings(s: State): State { SetFull(SetBare(s)) }

  function PutUsername(f: Profiles, s: State, raw: string): State {
    match f.node(raw)
    case None => s.(valid := false)
    case Some(prepared) => s.(username := prepared, valid := true)
  }

  function PutServer(f: Profiles, s: State, raw: string): State {
    match f.name(raw)
    case None => s.(serverRaw := raw, valid := false)
    case Some(prepared) => s.(serverRaw := raw, server := prepared, valid := true)
  }

  function PutResource(f: Profiles, s: State, raw: string): State {
    match f.resource(raw)
    case None => s.(valid := false)
    case Some(prepared) => s.(resource := prepared, valid := true)
  }

  function SetUsername(f: Profiles, s: State, raw: string): State { SetStrings(PutUsername(f, s, raw)) }
  function SetServer(f: Profiles, s: State, raw: string): State { SetStrings(PutServer(f, s, raw)) }
  function SetResource(f: Profiles, s: State, raw: string): State { SetFull(PutResource(f, s, raw)) }

  /** The parts, one after the other; the first that fails ends it, and the strings stay old. */
  function SetJid(f: Profiles, s: State, jid: string): State
    requires |jid| < NPOS
  {
    if jid == "" then EMPTY
    else
      var p := Split(jid);
      var t := if p.node.None? then s else PutUsername(f, s, p.node.value);
      if p.node.Some? && !t.valid then t else SetRest(f, t, p)
  }

  function SetRest(f: Profiles, s: State, p: Parts): State {
    var t := PutServer(f, s, p.server);
    if !t.valid then t
    else
      var u := if p.resource.None? then t else PutResource(f, t, p.resource.value);
      if !u.valid then u else SetStrings(u)
  }

  // ---- runs ----

  datatype Call = Username(raw: string) | Server(raw: string) | Resource(raw: string) | Whole(jid: string)

  predicate Sized(calls: seq<Call>) {
    forall c | c in calls :: c.Whole? ==> |c.jid| < NPOS
  }

  function Apply(f: Profiles, s: State, c: Call): State
    requires c.Whole? ==> |c.jid| < NPOS
  {
    match c
    case Username(raw) => SetUsername(f, s, raw)
    case Server(raw) => SetServer(f, s, raw)
    case Resource(raw) => SetResource(f, s, raw)
    case Whole(jid) => SetJid(f, s, jid)
  }

  function Run(f: Profiles, s: State, calls: seq<Call>): State
    requires Sized(calls)
    decreases |calls|
  {
    if calls == [] then s else Run(f, Apply(f, s, calls[0]), calls[1..])
  }

  /** Bare and full JID are the printed parts. */
  predicate Consistent(s: State) {
    s.bare == PrintBare(s.username, s.server) && s.full == Print(s.username, s.server, s.resource)
  }

  /** Every part that is set has been prepared. */
  predicate Prepared(f: Profiles, s: State) {
    && (s.username != "" ==> f.node(s.username) == Some(s.username))
    && (s.server != "" ==> f.name(s.server) == Some(s.server))
    && (s.resource != "" ==> f.resource(s.resource) == Some(s.resource))
  }

  ghost predicate Idempotent(p: Prep) {
    forall raw :: p(raw).Some? ==> p(p(raw).value) == p(raw)
  }

  ghost predicate AllIdempotent(f: Profiles) {
    Idempotent(f.node) && Idempotent(f.name) && Idempotent(f.resource)
  }

  lemma ApplyPrepared(f: Profiles, s: State, c: Call)
    requires AllIdempotent(f) && Prepared(f, s) && (c.Whole? ==> |c.jid| < NPOS)
    ensures Prepared(f, Apply(f, s, c))
  {
    match c {
      case Username(raw) => PutPrepared(f, s, raw);
      case Server(raw) => PutPrepared(f, s, raw);
      case Resource(raw) => PutPrepared(f, s, raw);
      case Whole(jid) => SetJidPrepared(f, s, jid);
    }
    hide AllIdempotent, SetJid, PutUsername, PutServer, PutResource;
  }

  lemma PutPrepared(f: Profiles, s: State, raw: string)
    requires AllIdempotent(f) && Prepared(f, s)
    ensures Prepared(f, PutUsername(f, s, raw)) && Prepared(f, PutServer(f, s, raw)) && Prepared(f, PutResource(f, s, raw))
  {
  }

  lemma SetJidPrepared(f: Profiles, s: State, jid: string)
    requires AllIdempotent(f) && Prepared(f, s) && |jid| < NPOS
    ensures Prepared(f, SetJid(f, s, jid))
  {
    if jid != "" {
      var p := Split(jid);
      var s1 := if p.node.None? then s else PutUsername(f, s, p.node.value);
      var s2 := PutServer(f, s1, p.server);
      if p.node.Some? {
        PutPrepared(f, s, p.node.value);
      }
      PutPrepared(f, s1, p.server);
      if p.resource.Some? {
        PutPrepared(f, s2, p.resource.value);
      }
      hide Split, AllIdempotent, PutUsername, PutServer, PutResource;
    }
  }

  lemma {:induction false} RunPrepared(f: Profiles, s: State, calls: seq<Call>)
    requires AllIdempotent(f) && Prepared(f, s) && Sized(calls)
    ensures Prepared(f, Run(f, s, calls))
    decreases |calls|
  {
    if calls != [] {
      ApplyPrepared(f, s, calls[0]);
      hide AllIdempotent, Prepared, Apply;
      RunPrepared(f, Apply(f, s, calls[0]), calls[1..]);
    }
  }

  /** All parts that a text has can be prepared. */
  predicate Accepts(f: Profiles, p: Parts) {
    && (p.node.Some? ==> f.node(p.node.value).Some?)
    && f.name(p.server).Some?
    && (p.resource.Some? ==> f.resource(p.resource.value).Some?)
  }

  /** `setJID` succeeds exactly if they can. */
  lemma SetJidValid(f: Profiles, s: State, jid: string)
    requires |jid| < NPOS
    ensures SetJid(f, s, jid).valid <==> jid != "" && Accepts(f, Split(jid))
  {
    hide Split;
  }

  /** An object is valid exactly if its last call could prepare what it was given. */
  lemma ApplyValidIff(f: Profiles, s: State, c: Call)
    requires c.Whole? ==> |c.jid| < NPOS
    ensures Apply(f, s, c).valid <==>
      match c
      case Username(raw) => f.node(raw).Some?
      case Server(raw) => f.name(raw).Some?
      case Resource(raw) => f.resource(raw).Some?
      case Whole(jid) => jid != "" && Accepts(f, Split(jid))
  {
    if c.Whole? {
      SetJidValid(f, s, c.jid);
    }
    hide Split, SetJid, Accepts;
  }

  /** The raw server is the last that was given, prepared or not; a username that cannot be prepared
      keeps `setJID` from it, and an empty JID takes it away. */
  lemma ApplyServerRaw(f: Profiles, s: State, c: Call)
    requires c.Whole? ==> |c.jid| < NPOS
    ensures Apply(f, s, c).serverRaw ==
      match c
      case Username(_) => s.serverRaw
      case Server(raw) => raw
      case Resource(_) => s.serverRaw
      case Whole(jid) =>
        if jid == "" then ""
        else if Split(jid).node.Some? && f.node(Split(jid).node.value).None? then s.serverRaw
        else Split(jid).server
  {
    hide Split;
  }

  /** The bare JID of the username and the server that `setJID` leaves, failing or not. */
  function WantedBare(f: Profiles, s: State, p: Parts): string {
    if p.node.Some? && f.node(p.node.value).None? then PrintBare(s.username, s.server)
    else
      PrintBare(
        if p.node.None? then s.username else f.node(p.node.value).value,
        if f.name(p.server).None? then s.server else f.name(p.server).value)
  }

  /** Each of the single setters, failing ones too, leaves the strings as good as it found them;
      `setUsername` and `setServer` even make them good.  A `setJID` that fails half-way does not:
      it leaves them behind the parts, exactly if the parts it got to have another bare JID. */
  lemma ConsistentIff(f: Profiles, s: State, c: Call)
    requires Consistent(s) && (c.Whole? ==> |c.jid| < NPOS)
    ensures Consistent(Apply(f, s, c)) <==>
      !c.Whole? || c.jid == "" || Accepts(f, Split(c.jid)) || WantedBare(f, s, Split(c.jid)) == PrintBare(s.username, s.server)
  {
    hide Split;
    assert PrintBare("", "") == "" && Print("", "", "") == "";
    hide PrintBare;
  }

  /** No `setJID` among the calls fails. */
  predicate NoneFails(f: Profiles, calls: seq<Call>)
    requires Sized(calls)
    decreases |calls|
  {
    calls == []
    || ((calls[0].Whole? && calls[0].jid != "" ==> Accepts(f, Split(calls[0].jid))) && NoneFails(f, calls[1..]))
  }

  lemma {:induction false} RunConsistent(f: Profiles, s: State, calls: seq<Call>)
    requires Consistent(s) && Sized(calls) && NoneFails(f, calls)
    ensures Consistent(Run(f, s, calls))
    decreases |calls|
  {
    if calls != [] {
      ConsistentIff(f, s, calls[0]);
      hide Consistent, Apply;
      RunConsistent(f, Apply(f, s, calls[0]), calls[1..]);
    }
  }

  /** A successful `setJID` keeps a username or resource that the text has no word of: the object
      is what the text says exactly if it had none, or the text has one. */
  lemma SetJidIff(f: Profiles, s: State, jid: string)
    requires jid != "" && |jid| < NPOS && Accepts(f, Split(jid))
    ensures
      var t, p := SetJid(f, s, jid), Split(jid);
      && Consistent(t) && Some(t.server) == f.name(p.server) && t.serverRaw == p.server
      && (Some(t.username) == (if p.node.None? then Some("") else f.node(p.node.value))
          <==> p.node.Some? || s.username == "")
      && (Some(t.resource) == (if p.resource.None? then Some("") else f.resource(p.resource.value))
          <==> p.resource.Some? || s.resource == "")
  {
    hide Split;
  }

  /** The printed JID can be taken apart in one way only (`SplitPrintIff`). */
  predicate ToldApart(username: string, server: string, resource: string) {
    '/' !in server && if username != "" then '@' !in username else '@' !in server && '@' !in resource
  }

  /** A new object that is given the full JID of an object with prepared parts and up-to-date strings
      is the same JID, if its parts can be told apart. */
  lemma ReparseOne(f: Profiles, s: State)
    requires Prepared(f, s) && Consistent(s) && s.full != "" && |s.full| < NPOS && f.name(s.server) == Some(s.server)
    requires ToldApart(s.username, s.server, s.resource)
    ensures SetJid(f, EMPTY, s.full) == s.(serverRaw := s.server, valid := true)
  {
    SplitPrintIff(s.username, s.server, s.resource);
    hide Split;
  }

  /** So is one that is given the full JID of whatever a run of successful calls leaves. */
  lemma Reparse(f: Profiles, calls: seq<Call>)
    requires AllIdempotent(f) && Sized(calls) && NoneFails(f, calls)
    ensures
      var s := Run(f, EMPTY, calls);
      s.full != "" && |s.full| < NPOS && f.name(s.server) == Some(s.server)
        && ToldApart(s.username, s.server, s.resource)
      ==> SetJid(f, EMPTY, s.full) == s.(serverRaw := s.server, valid := true)
  {
    var s := Run(f, EMPTY, calls);
    RunPrepared(f, EMPTY, calls);
    RunConsistent(f, EMPTY, calls);
    hide Prepared, Consistent, SetJid, Run, ToldApart;
    if s.full != "" && |s.full| < NPOS && f.name(s.server) == Some(s.server) && ToldApart(s.username, s.server, s.resource) {
      ReparseOne(f, s);
    }
  }

  lemma AcceptedServer(f: Profiles, jid: string)
    requires AllIdempotent(f) && |jid| < NPOS && SetJid(f, EMPTY, jid).valid
    ensures
      var s := SetJid(f, EMPTY, jid);
      f.name(s.server) == Some(s.server)
  {
    SetJidValid(f, EMPTY, jid);
    SetJidIff(f, EMPTY, jid);
    assert f.name(Split(jid).server).Some?;
    hide SetJid, Split, Accepts;
  }

  /** The bare part of an object, by itself. */
  lemma BareOnly(f: Profiles, s: State)
    requires Prepared(f, s) && Consistent(s)
    ensures
      var b := s.(resource := "", full := s.bare);
      Prepared(f, b) && Consistent(b)
  {
    hide PrintBare;
    assert s.bare + "" == s.bare;
  }

  /** What a `setJID` that fails half-way can do: the object ends up valid, with the username of one
      JID and the full JID of another. */
  lemma StaleStrings(f: Profiles)
    requires f.name("") == None && f.name("b") == Some("b")
    requires f.node("a") == Some("a") && f.node("c") == Some("c") && f.resource("r") == Some("r")
    ensures
      var s := SetResource(f, SetJid(f, SetJid(f, EMPTY, "a@b"), "c@"), "r");
      s.valid && s.username == "c" && s.full == "a@b/r"
  {
    SplitOf("a@b", Parts(Some("a"), "b", None));
    SplitOf("c@", Parts(Some("c"), "", None));
    hide Split;
  }

  lemma SplitOf(jid: string, p: Parts)
    requires |jid| < NPOS && Joined(p) == jid && WellSplit(p)
    ensures Split(jid) == p
  {
    SplitJoined(jid);
    WellSplitUnique(p, Split(jid));
  }
}
