/** What the parser is fed, and what is left over, does not depend on how the network cuts the byte
    stream into pieces; and exactly when it does. */
module BoshChunks {
  import opened Text
  import opened HttpFraming
  import opened Bosh

  lemma SettleKeeps(s: State)
    ensures Settle(s).buffer == s.buffer
    ensures Settle(Settle(s)) == Settle(s)
  {
    hide Next, StatusOk, WantsFallback;
  }

  /** The passes that end the loop leave it ended. */
  lemma {:induction false} ReceiveSettles(s: State)
    ensures !Feeds(Receive(s).buffer)
    ensures Receive(Receive(s)) == Receive(s)
    decreases |s.buffer|
  {
    hide Next, Settle;
    if Feeds(s.buffer) {
      ReceiveSettles(Turn(s));
    } else {
      SettleKeeps(s);
    }
  }

  lemma TurnAppends(s: State, d: string)
    requires Feeds(s.buffer) && Next(s.buffer + d) == Next(s.buffer)
    ensures Turn(Append(s, d)) == Append(Turn(s), d)
  {
    var p := Next(s.buffer);
    hide Next;
    HeaderAppends(s, p.header, d);
    BodyAppends(OnHeader(s, p.header), p.body, p.erased, d);
  }

  lemma HeaderAppends(s: State, header: string, d: string)
    requires |header| >= 9
    ensures OnHeader(Append(s, d), header) == Append(OnHeader(s, header), d)
  {
    hide StatusOk, WantsFallback;
  }

  lemma BodyAppends(s: State, body: string, erased: nat, d: string)
    requires erased <= |s.buffer|
    ensures OnBody(Append(s, d), body, erased) == Append(OnBody(s, body, erased), d)
  {
    assert (s.buffer + d)[erased..] == s.buffer[erased..] + d;
  }

  /** Looking at an unfinished response once more changes nothing. */
  lemma SettledHeader(s: State, d: string)
    requires Next(s.buffer).TooShort?
    requires Next(s.buffer + d).TooShort? || Next(s.buffer + d).Body?
    requires Next(s.buffer + d).header == Next(s.buffer).header
    ensures Receive(Append(Settle(s), d)) == Receive(Append(s, d))
  {
    ReceiveOnce(Append(Settle(s), d));
    ReceiveOnce(Append(s, d));
    if Feeds(s.buffer + d) {
      SettledTurn(s, d);
    } else {
      SettledTwice(s, d);
    }
    SettleBuffer(s);
    hide Next, Settle, Turn, Receive;
  }

  lemma SettleBuffer(s: State)
    ensures Settle(s).buffer == s.buffer
  {
    hide Next, StatusOk, WantsFallback;
  }

  lemma SettledTurn(s: State, d: string)
    requires Next(s.buffer).TooShort? && Feeds(s.buffer + d) && Next(s.buffer + d).header == Next(s.buffer).header
    ensures Append(Settle(s), d).buffer == s.buffer + d
    ensures Turn(Append(Settle(s), d)) == Turn(Append(s, d))
  {
    hide Next, StatusOk, WantsFallback;
  }

  lemma SettledTwice(s: State, d: string)
    requires Next(s.buffer).TooShort?
    requires Next(s.buffer + d).TooShort? || Next(s.buffer + d).Body?
    requires Next(s.buffer + d).header == Next(s.buffer).header
    ensures Settle(Append(Settle(s), d)) == Settle(Append(s, d))
  {
    var header := Next(s.buffer).header;
    HeaderTwice(s, d, header);
    SettleIs(s, header);
    SettleIs(Append(s, d), header);
    SettleIs(Append(Settle(s), d), header);
    hide *;
  }

  lemma SettleIs(s: State, header: string)
    requires Next(s.buffer).TooShort? || Next(s.buffer).Body?
    requires Next(s.buffer).header == header
    ensures Settle(s) == OnHeader(s, header)
  {
    hide Next, OnHeader;
  }

  lemma HeaderTwice(s: State, d: string, header: string)
    requires |header| >= 9
    ensures OnHeader(s, header).buffer == s.buffer
    ensures OnHeader(Append(OnHeader(s, header), d), header) == OnHeader(Append(s, d), header)
  {
    hide StatusOk, WantsFallback;
  }

  lemma ReceiveOnce(s: State)
    ensures Receive(s) == if Feeds(s.buffer) then Receive(Turn(s)) else Settle(s)
  {
  }

  lemma SettledElse(s: State, d: string)
    requires !Feeds(s.buffer) && !Feeds(s.buffer + d) && SameErasure(Next(s.buffer), Next(s.buffer + d))
    ensures Receive(Append(Settle(s), d)) == Receive(Append(s, d))
  {
    hide Next, StatusOk, WantsFallback, Receive;
    ReceiveOnce(Append(Settle(s), d));
    ReceiveOnce(Append(s, d));
  }

  /** Letting the loop run before more data arrives comes to the same as running it once, at the end. */
  lemma {:induction false} ReceiveEarly(s: State, d: string)
    requires Clean(s.buffer + d)
    ensures Receive(Append(Receive(s), d)) == Receive(Append(s, d))
    ensures Clean(Receive(s).buffer + d)
    decreases |s.buffer|
  {
    hide Head, Settle, Wraps, Turn, NextAfter;
    ReceiveOnce(s);
    if Head(s.buffer).Some? {
      HeadStable(s.buffer, d);
      if Wraps(Head(s.buffer).value) {
        EarlyWrapped(s, d);
      } else {
        NextStable(s.buffer, d);
        hide Next;
        if Feeds(s.buffer) {
          TurnAppends(s, d);
          TurnErases(s);
          assert s.buffer[Next(s.buffer).erased..] + d == (s.buffer + d)[Next(s.buffer).erased..];
          ReceiveEarly(Turn(s), d);
          ReceiveOnce(Append(s, d));
        } else {
          EarlySettled(s, d);
        }
      }
    } else {
      SettleNothing(s);
    }
  }

  lemma SettleNothing(s: State)
    requires Next(s.buffer).NoHeader?
    ensures Settle(s) == s
  {
  }

  lemma TurnErases(s: State)
    requires Feeds(s.buffer)
    ensures Turn(s).buffer == s.buffer[Next(s.buffer).erased..]
  {
    hide Next;
  }

  lemma EarlySettled(s: State, d: string)
    requires Head(s.buffer).Some? && !Wraps(Head(s.buffer).value) && !Feeds(s.buffer)
    ensures Receive(Append(Settle(s), d)) == Receive(Append(s, d))
    ensures Settle(s).buffer == s.buffer
  {
    NextStable(s.buffer, d);
    SettleKeeps(s);
    if Next(s.buffer).Body? {
      ErasesHeader(s.buffer);
    }
    hide Next, Head, Settle, Wraps, Receive;
    if Next(s.buffer).TooShort? {
      SettledHeader(s, d);
    } else {
      SettledElse(s, d);
    }
  }

  lemma EarlyWrapped(s: State, d: string)
    requires Clean(s.buffer + d)
    requires Head(s.buffer).Some? && Wraps(Head(s.buffer).value)
    ensures Receive(Append(Receive(s), d)) == Receive(Append(s, d))
    ensures Clean(Receive(s).buffer + d)
  {
    HeadStable(s.buffer, d);
    NextWraps(s.buffer, d);
    hide Next, Head, Settle, Wraps, Receive;
    ReceiveSettles(s);
    if Feeds(s.buffer) {
      assert d == "" && s.buffer + d == s.buffer && Receive(s).buffer + d == Receive(s).buffer;
    } else {
      ReceiveOnce(s);
      SettledElse(s, d);
      SettleKeeps(s);
    }
  }

  // ---- any number of pieces ----

  function Concat(chunks: seq<string>): string {
    if chunks == [] then "" else chunks[0] + Concat(chunks[1..])
  }

  /** One `handleReceivedData` call a piece. */
  function ReceiveAll(s: State, chunks: seq<string>): State
    decreases |chunks|
  {
    if chunks == [] then s else ReceiveAll(HandleReceivedData(s, chunks[0]), chunks[1..])
  }

  /** Bodies fed, what is left over, and every effect on the connection depend only on the bytes. */
  lemma {:induction false} ChunksIrrelevant(s: State, chunks: seq<string>)
    requires chunks != [] && Clean(s.buffer + Concat(chunks))
    ensures ReceiveAll(s, chunks) == HandleReceivedData(s, Concat(chunks))
    decreases |chunks|
  {
    hide Clean, Receive;
    var c, rest := chunks[0], chunks[1..];
    if rest == [] {
      assert Concat(chunks) == c;
      assert ReceiveAll(HandleReceivedData(s, c), []) == HandleReceivedData(s, c);
    } else {
      assert s.buffer + c + Concat(rest) == s.buffer + Concat(chunks);
      ReceiveEarly(Append(s, c), Concat(rest));
      ChunksIrrelevant(HandleReceivedData(s, c), rest);
    }
  }

  // ---- the condition is exact ----

  lemma {:induction false} FedGrows(s: State)
    ensures s.fed <= Receive(s).fed
    decreases |s.buffer|
  {
    ReceiveOnce(s);
    hide Receive;
    FedSteps(s);
    if Feeds(s.buffer) {
      FedGrows(Turn(s));
    }
  }

  lemma FedSteps(s: State)
    ensures Settle(s).fed == s.fed
    ensures Feeds(s.buffer) ==> Turn(s).fed == s.fed + [Next(s.buffer).body]
  {
    hide Next;
  }

  function Prefix(s: State, a: string): State {
    s.(buffer := a)
  }

  /** Where to cut a buffer that is not clean, and which of the bodies fed then differs. */
  lemma {:induction false} CutThatMatters(s: State) returns (a: string, d: string, k: nat)
    requires !Clean(s.buffer)
    ensures a + d == s.buffer
    ensures k < |Receive(s).fed| && Receive(s).fed[k] != ""
    ensures k < |Receive(Prefix(s, a)).fed| && Receive(Prefix(s, a)).fed[k] == ""
    decreases |s.buffer|
  {
    hide Next, Head, Wraps, Turn, Settle;
    FeedsHead(s.buffer);
    if Wraps(Head(s.buffer).value) {
      a, d, k := CutAtHeader(s);
    } else {
      var n := Next(s.buffer).erased;
      TurnErases(s);
      var rest, e, j := CutThatMatters(Turn(s));
      a, d, k := s.buffer[..n] + rest, e, j;
      assert a + d == s.buffer;
      NextPrefix(a, d);
      TurnPrefix(s, a, d);
      assert a[n..] == rest;
    }
  }

  lemma TurnPrefix(s: State, a: string, d: string)
    requires a + d == s.buffer && Feeds(s.buffer) && Next(a) == Next(s.buffer)
    ensures Turn(Prefix(s, a)) == Prefix(Turn(s), a[Next(a).erased..])
  {
    TurnAppends(Prefix(s, a), d);
    assert Append(Prefix(s, a), d) == s;
    TurnErases(Prefix(s, a));
    hide Next, OnHeader, OnBody;
  }

  lemma CutAtHeader(s: State) returns (a: string, d: string, k: nat)
    requires !Clean(s.buffer) && Head(s.buffer).Some? && Wraps(Head(s.buffer).value)
    ensures a + d == s.buffer
    ensures k < |Receive(s).fed| && Receive(s).fed[k] != ""
    ensures k < |Receive(Prefix(s, a)).fed| && Receive(Prefix(s, a)).fed[k] == ""
  {
    hide Next, Head, Wraps, Turn, Settle;
    var n := |Head(s.buffer).value| + 2;
    a, d, k := s.buffer[..n], s.buffer[n..], |s.fed|;
    assert a + d == s.buffer;
    HeadPrefix(a, d);
    NextWraps(a, d);
    WrappedBody(a);
    WrappedBody(s.buffer);
    FedFirst(s);
    FedFirst(Prefix(s, a));
  }

  lemma FedFirst(s: State)
    requires Feeds(s.buffer)
    ensures |s.fed| < |Receive(s).fed| && Receive(s).fed[|s.fed|] == Next(s.buffer).body
  {
    ReceiveOnce(s);
    hide Receive, Next, Turn;
    FedSteps(s);
    FedGrows(Turn(s));
  }

  /** Every way of cutting the buffer in two leads to the same state. */
  ghost predicate CutInvariant(s: State) {
    forall a, d :: a + d == s.buffer ==> Receive(Append(Receive(Prefix(s, a)), d)) == Receive(s)
  }

  /** The framing is independent of chunking for exactly the clean buffers. */
  lemma CutInvariantIffClean(s: State)
    ensures CutInvariant(s) <==> Clean(s.buffer)
  {
    hide Clean, Receive;
    if Clean(s.buffer) {
      forall a, d | a + d == s.buffer
        ensures Receive(Append(Receive(Prefix(s, a)), d)) == Receive(s)
      {
        ReceiveEarly(Prefix(s, a), d);
        assert Append(Prefix(s, a), d) == s;
      }
    } else {
      var a, d, k := CutThatMatters(s);
      FedGrows(Append(Receive(Prefix(s, a)), d));
    }
  }
}
