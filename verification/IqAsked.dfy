/** Who is asked about an IQ stanza, and in which order (gloox/clientbase.cpp:1386-1430): said of the
    registrations and the extensions, without the list of candidates. */
module IqAsked {
  import opened Text
  import opened IqDispatch

  /** Registration i is under extension e of the stanza, and its handler returns true. */
  predicate Takes(rs: seq<Registration>, iq: Iq, handlers: Handlers, e: nat, i: nat) {
    e < |iq.extensions| && i < |rs| && rs[i].extension == iq.extensions[e] && handlers(rs[i].handler, iq).handled
  }

  /** No registration under an earlier extension, and no earlier one under extension e, takes the stanza. */
  ghost predicate NobodyBefore(rs: seq<Registration>, iq: Iq, handlers: Handlers, e: nat, i: nat) {
    forall d: nat, j: nat | d < e || (d == e && j < i) :: !Takes(rs, iq, handlers, d, j)
  }

  ghost predicate Nobody(rs: seq<Registration>, iq: Iq, handlers: Handlers) {
    forall d: nat, j: nat :: !Takes(rs, iq, handlers, d, j)
  }

  /** The replies of those of the first n registrations that are under the extension. */
  function RepliesUnder(rs: seq<Registration>, extension: int, n: nat, iq: Iq, handlers: Handlers): nat
    requires n <= |rs|
  {
    if n == 0 then 0
    else
      RepliesUnder(rs, extension, n - 1, iq, handlers)
      + if rs[n - 1].extension == extension then handlers(rs[n - 1].handler, iq).replies else 0
  }

  /** The replies of all that are under one of the first n extensions. */
  function RepliesBefore(rs: seq<Registration>, n: nat, iq: Iq, handlers: Handlers): nat
    requires n <= |iq.extensions|
  {
    if n == 0 then 0
    else RepliesBefore(rs, n - 1, iq, handlers) + RepliesUnder(rs, iq.extensions[n - 1], |rs|, iq, handlers)
  }

  lemma {:induction false} HandlersForAppend(a: seq<Registration>, b: seq<Registration>, extension: int)
    ensures HandlersFor(a + b, extension) == HandlersFor(a, extension) + HandlersFor(b, extension)
  {
    if a == [] {
      assert a + b == b;
    } else {
      assert (a + b)[0] == a[0] && (a + b)[1..] == a[1..] + b;
      HandlersForAppend(a[1..], b, extension);
      var x, u, v := HandlersFor([a[0]], extension), HandlersFor(a[1..], extension), HandlersFor(b, extension);
      HandlersForOne(a[0], extension);
      assert HandlersFor(a + b, extension) == x + HandlersFor(a[1..] + b, extension);
      assert HandlersFor(a, extension) == x + u;
      hide HandlersFor;
      assert x + (u + v) == x + u + v;
    }
  }

  lemma {:induction false} CandidatesAppend(rs: seq<Registration>, a: seq<int>, b: seq<int>)
    ensures Candidates(rs, a + b) == Candidates(rs, a) + Candidates(rs, b)
  {
    if a == [] {
      assert a + b == b;
    } else {
      assert (a + b)[1..] == a[1..] + b;
      hide HandlersFor;
      CandidatesAppend(rs, a[1..], b);
    }
  }

  lemma AskOne(h: nat, iq: Iq, handlers: Handlers)
    ensures Ask([h], iq, handlers) == handlers(h, iq)
  {
    assert [h][1..] == [];
    assert Ask([], iq, handlers) == Behaviour(false, 0);
  }

  lemma HandlersForOne(r: Registration, extension: int)
    ensures HandlersFor([r], extension) == if r.extension == extension then [r.handler] else []
  {
    assert [r][1..] == [];
  }

  predicate Idle(rs: seq<Registration>, extension: int, n: nat, iq: Iq, handlers: Handlers)
    requires n <= |rs|
  {
    forall j | 0 <= j < n :: rs[j].extension == extension ==> !handlers(rs[j].handler, iq).handled
  }

  /** The first n registrations, none of which takes the stanza under the extension. */
  lemma {:induction false} AskIdle(rs: seq<Registration>, extension: int, n: nat, iq: Iq, handlers: Handlers)
    requires n <= |rs| && Idle(rs, extension, n, iq, handlers)
    ensures Ask(HandlersFor(rs[..n], extension), iq, handlers) == Behaviour(false, RepliesUnder(rs, extension, n, iq, handlers))
  {
    if n == 0 {
      assert rs[..0] == [];
    } else {
      AskIdle(rs, extension, n - 1, iq, handlers);
      AskNext(rs, extension, n - 1, iq, handlers);
    }
  }

  lemma AskNext(rs: seq<Registration>, extension: int, n: nat, iq: Iq, handlers: Handlers)
    requires n < |rs|
    requires Ask(HandlersFor(rs[..n], extension), iq, handlers) == Behaviour(false, RepliesUnder(rs, extension, n, iq, handlers))
    ensures Ask(HandlersFor(rs[..n + 1], extension), iq, handlers) ==
      Behaviour(rs[n].extension == extension && handlers(rs[n].handler, iq).handled, RepliesUnder(rs, extension, n + 1, iq, handlers))
  {
    var r, a := rs[n], HandlersFor(rs[..n], extension);
    assert rs[..n + 1] == rs[..n] + [r];
    HandlersForAppend(rs[..n], [r], extension);
    HandlersForOne(r, extension);
    AskOne(r.handler, iq, handlers);
    AskAppend(a, [r.handler], iq, handlers);
    hide Ask, HandlersFor;
    assert a + [] == a;
  }

  /** Registration i is the first that takes the stanza under the extension. */
  lemma AskTaken(rs: seq<Registration>, extension: int, i: nat, iq: Iq, handlers: Handlers)
    requires i < |rs| && Idle(rs, extension, i, iq, handlers)
    requires rs[i].extension == extension && handlers(rs[i].handler, iq).handled
    ensures Ask(HandlersFor(rs, extension), iq, handlers) == Behaviour(true, RepliesUnder(rs, extension, i + 1, iq, handlers))
  {
    AskIdle(rs, extension, i, iq, handlers);
    AskNext(rs, extension, i, iq, handlers);
    assert rs == rs[..i + 1] + rs[i + 1..];
    HandlersForAppend(rs[..i + 1], rs[i + 1..], extension);
    AskAppend(HandlersFor(rs[..i + 1], extension), HandlersFor(rs[i + 1..], extension), iq, handlers);
    hide Ask, HandlersFor, RepliesUnder;
  }

  lemma EarlierToo(rs: seq<Registration>, iq: Iq, handlers: Handlers, n: nat)
    requires 0 < n && NobodyBefore(rs, iq, handlers, n, 0)
    ensures NobodyBefore(rs, iq, handlers, n - 1, 0)
  {
    hide Takes;
  }

  lemma {:induction false} AskNobody(rs: seq<Registration>, n: nat, iq: Iq, handlers: Handlers)
    requires n <= |iq.extensions| && NobodyBefore(rs, iq, handlers, n, 0)
    ensures Ask(Candidates(rs, iq.extensions[..n]), iq, handlers) == Behaviour(false, RepliesBefore(rs, n, iq, handlers))
  {
    if n == 0 {
      assert iq.extensions[..0] == [];
    } else {
      hide Ask, HandlersFor, Candidates, RepliesUnder, Takes, Idle;
      EarlierToo(rs, iq, handlers, n);
      AskNobody(rs, n - 1, iq, handlers);
      IdleUnder(rs, n - 1, |rs|, iq, handlers);
      hide NobodyBefore;
      var x, before := iq.extensions[n - 1], Candidates(rs, iq.extensions[..n - 1]);
      AskAllIdle(rs, x, iq, handlers);
      CandidatesLast(rs, iq.extensions, n);
      AskAppend(before, HandlersFor(rs, x), iq, handlers);
    }
  }

  lemma AskAllIdle(rs: seq<Registration>, x: int, iq: Iq, handlers: Handlers)
    requires Idle(rs, x, |rs|, iq, handlers)
    ensures Ask(HandlersFor(rs, x), iq, handlers) == Behaviour(false, RepliesUnder(rs, x, |rs|, iq, handlers))
  {
    hide Ask, HandlersFor, RepliesUnder, Idle;
    AskIdle(rs, x, |rs|, iq, handlers);
    assert rs[..|rs|] == rs;
  }

  lemma CandidatesLast(rs: seq<Registration>, extensions: seq<int>, n: nat)
    requires 0 < n <= |extensions|
    ensures Candidates(rs, extensions[..n]) == Candidates(rs, extensions[..n - 1]) + HandlersFor(rs, extensions[n - 1])
  {
    hide HandlersFor, Candidates;
    assert extensions[..n] == extensions[..n - 1] + [extensions[n - 1]];
    CandidatesAppend(rs, extensions[..n - 1], [extensions[n - 1]]);
    CandidatesOne(rs, extensions[n - 1]);
  }

  lemma CandidatesOne(rs: seq<Registration>, x: int)
    ensures Candidates(rs, [x]) == HandlersFor(rs, x)
  {
    assert [x][1..] == [];
    hide HandlersFor;
  }

  lemma IdleUnder(rs: seq<Registration>, e: nat, i: nat, iq: Iq, handlers: Handlers)
    requires e < |iq.extensions| && i <= |rs|
    requires NobodyBefore(rs, iq, handlers, e, i) || NobodyBefore(rs, iq, handlers, e + 1, 0)
    ensures Idle(rs, iq.extensions[e], i, iq, handlers)
  {
    forall j | 0 <= j < i
      ensures rs[j].extension == iq.extensions[e] ==> !handlers(rs[j].handler, iq).handled
    {
      assert !Takes(rs, iq, handlers, e, j);
    }
  }

  lemma AskFirst(rs: seq<Registration>, e: nat, i: nat, iq: Iq, handlers: Handlers)
    requires Takes(rs, iq, handlers, e, i) && NobodyBefore(rs, iq, handlers, e, i)
    ensures Ask(Candidates(rs, iq.extensions), iq, handlers) ==
      Behaviour(true, RepliesBefore(rs, e, iq, handlers) + RepliesUnder(rs, iq.extensions[e], i + 1, iq, handlers))
  {
    var x, before, after := iq.extensions[e], Candidates(rs, iq.extensions[..e]), Candidates(rs, iq.extensions[e + 1..]);
    IdleUnder(rs, e, i, iq, handlers);
    hide Ask, HandlersFor, Candidates, RepliesUnder, RepliesBefore, NobodyBefore, Idle;
    AskNobody(rs, e, iq, handlers);
    AskTaken(rs, x, i, iq, handlers);
    CandidatesAt(rs, iq.extensions, e);
    AskAppend(HandlersFor(rs, x), after, iq, handlers);
    AskAppend(before, HandlersFor(rs, x) + after, iq, handlers);
  }

  lemma CandidatesAt(rs: seq<Registration>, extensions: seq<int>, e: nat)
    requires e < |extensions|
    ensures Candidates(rs, extensions) ==
      Candidates(rs, extensions[..e]) + (HandlersFor(rs, extensions[e]) + Candidates(rs, extensions[e + 1..]))
  {
    var x, after := extensions[e], extensions[e + 1..];
    assert extensions == extensions[..e] + ([x] + after);
    CandidatesAppend(rs, extensions[..e], [x] + after);
    CandidatesAppend(rs, [x], after);
    CandidatesOne(rs, x);
    hide HandlersFor, Candidates;
  }

  /** A registration goes behind the others, unless it is there. */
  lemma RegisterAdds(rs: seq<Registration>, r: Registration)
    ensures rs <= Register(rs, r) && r in Register(rs, r)
    ensures |Register(rs, r)| == |rs| + if r in rs then 0 else 1
  {
  }

  /** Someone comes first. */
  lemma FirstTaker(rs: seq<Registration>, iq: Iq, handlers: Handlers) returns (e: nat, i: nat)
    requires !Nobody(rs, iq, handlers)
    ensures Takes(rs, iq, handlers, e, i) && NobodyBefore(rs, iq, handlers, e, i)
  {
    e, i :| Takes(rs, iq, handlers, e, i);
    while !NobodyBefore(rs, iq, handlers, e, i)
      invariant Takes(rs, iq, handlers, e, i)
      decreases e, i
    {
      var d: nat, j: nat :| (d < e || (d == e && j < i)) && Takes(rs, iq, handlers, d, j);
      e, i := d, j;
    }
  }

  /** A stanza without a known extension is refused as not implemented, if it is a request; any other
      request is refused as unavailable exactly if nobody takes it.  The first that takes it, by the
      order of extensions and then of registration, is the last that is asked: the replies are its
      own and those of all in front of it. */
  lemma DispatchIs(rs: seq<Registration>, iq: Iq, handlers: Handlers)
    ensures
      var o := Dispatch(rs, iq, handlers);
      && (o.refusal == Some(FeatureNotImplemented) <==> (iq.kind == Get || iq.kind == Set) && iq.extensions == [])
      && (o.refusal == Some(ServiceUnavailable) <==>
            (iq.kind == Get || iq.kind == Set) && iq.extensions != [] && Nobody(rs, iq, handlers))
      && (Nobody(rs, iq, handlers) ==> o.byHandlers == RepliesBefore(rs, |iq.extensions|, iq, handlers))
      && forall e: nat, i: nat | Takes(rs, iq, handlers, e, i) && NobodyBefore(rs, iq, handlers, e, i) ::
           o.byHandlers == RepliesBefore(rs, e, iq, handlers) + RepliesUnder(rs, iq.extensions[e], i + 1, iq, handlers)
  {
    forall e: nat, i: nat | Takes(rs, iq, handlers, e, i) && NobodyBefore(rs, iq, handlers, e, i)
      ensures Ask(Candidates(rs, iq.extensions), iq, handlers) ==
        Behaviour(true, RepliesBefore(rs, e, iq, handlers) + RepliesUnder(rs, iq.extensions[e], i + 1, iq, handlers))
    {
      AskFirst(rs, e, i, iq, handlers);
    }
    if Nobody(rs, iq, handlers) {
      assert NobodyBefore(rs, iq, handlers, |iq.extensions|, 0);
      AskNobody(rs, |iq.extensions|, iq, handlers);
      assert iq.extensions[..|iq.extensions|] == iq.extensions;
    } else {
      var e, i := FirstTaker(rs, iq, handlers);
      AskFirst(rs, e, i, iq, handlers);
    }
    hide Ask, Candidates, RepliesUnder;
  }
}
