/** A whole bytestream between two new objects: it opens, carries data, and closes. */
module IbbSession {
  import opened Bytes
  import opened Text
  import opened Base64
  import opened Ibb
  import opened IbbTransfer

  lemma {:induction false} DeliverAppend(r: Stream, a: seq<IBB>, b: seq<IBB>)
    ensures Deliver(r, a + b) == Deliver(Deliver(r, a), b)
    decreases |a|
  {
    if a == [] {
      assert a + b == b;
    } else {
      assert (a + b)[1..] == a[1..] + b;
      hide HandleIq, Print, Parse;
      var e := Print(a[0]);
      DeliverAppend(if e.None? then r else HandleIq(r, true, Some(Parse(e.value))).0, a[1..], b);
    }
  }

  /** A request to open, and one to close. */
  lemma DeliverOpen(r: Stream, sid: string, blockSize: nat)
    requires blockSize <= 0x7fff_ffff && !r.open
    ensures Deliver(r, [OpenBlock(sid, blockSize)]) ==
      if r.handler then r.(open := true, replies := r.replies + [Accepted]) else r
  {
    ParsePrint(sid, 0, [], blockSize);
    hide Print, Parse;
    DeliverOne(r, OpenBlock(sid, blockSize));
  }

  lemma DeliverClose(r: Stream, sid: string)
    requires r.handler
    ensures Deliver(r, [CloseBlock(sid)]) == if r.open then r.(open := false, replies := r.replies + [Accepted]) else r
  {
    ParsePrint(sid, 0, [], 0);
    hide Print, Parse;
    DeliverOne(r, CloseBlock(sid));
  }

  lemma DeliverOne(r: Stream, i: IBB)
    requires Print(i).Some?
    ensures Deliver(r, [i]) == HandleIq(r, true, Some(Parse(Print(i).value))).0
  {
    hide HandleIq, Print, Parse;
    var t := HandleIq(r, true, Some(Parse(Print(i).value))).0;
    assert [i][1..] == [];
    assert Deliver(r, [i]) == Deliver(t, []);
  }

  /** The initiator asks to open, hears that it may, sends, and closes. */
  function Initiate(sid: string, sends: seq<seq<Byte>>): Stream {
    Close(SendAll(HandleIqId(Connect(Fresh(sid, true), false).0, false, true), sends))
  }

  lemma {:induction false} SendAllKeeps(s: Stream, sends: seq<seq<Byte>>)
    requires s.blockSize > 0
    ensures SendAll(s, sends).sid == s.sid
    decreases |sends|
  {
    hide Split, Number, AdvanceBy;
    if sends != [] {
      SendAllKeeps(Send(s, sends[0]).0, sends[1..]);
    }
  }

  lemma InitiatorSends(sid: string, sends: seq<seq<Byte>>)
    ensures Initiate(sid, sends).sent ==
      [OpenBlock(sid, 4096)] + (Number(sid, -1, AllBlocks(sends, 4096)) + [CloseBlock(sid)])
    ensures !Initiate(sid, sends).open
  {
    var s := HandleIqId(Connect(Fresh(sid, true), false).0, false, true);
    SendAllNumbers(s, sends);
    SendAllKeeps(s, sends);
    assert s.sent == [OpenBlock(sid, 4096)];
    hide SendAll, Number, AllBlocks;
  }

  /** What one new object sends from opening to closing, another new one with a handler takes whole
      exactly if no `send` was empty and they come to at most 65536 blocks.  Then the data is the data
      sent, and every request is acknowledged.  The stream ends closed in any case. */
  lemma WholeSession(sid: string, sends: seq<seq<Byte>>)
    ensures
      var blocks := AllBlocks(sends, 4096);
      var b := Deliver(Fresh(sid, true), Initiate(sid, sends).sent);
      && !b.open
      && (b.delivered == blocks <==> NoneEmpty(sends) && |blocks| <= 65536)
      && (NoneEmpty(sends) && |blocks| <= 65536 ==>
            Concat(b.delivered) == Concat(sends) && b.replies == Accepts(|blocks| + 2))
  {
    hide *;
    var blocks := AllBlocks(sends, 4096);
    var r := Opened(sid);
    OpenedIs(sid);
    InitiatorSends(sid, sends);
    SessionDelivers(sid, Number(sid, -1, blocks));
    AllBlocksConcat(sends, 4096);
    DeliverAllIff(r, sid, -1, blocks);
    NoBlocks(sends, 4096);
    Ends(r, Deliver(r, Number(sid, -1, blocks)), Deliver(Fresh(sid, true), Initiate(sid, sends).sent), blocks);
  }

  lemma OpenedIs(sid: string)
    ensures
      var r := Opened(sid);
      r.open && r.handler && r.delivered == [] && r.replies == [Accepted] && r.lastChunkReceived == -1 && InStep(0, -1)
  {
  }

  function Opened(sid: string): Stream {
    Fresh(sid, true).(open := true, replies := [Accepted])
  }

  lemma SessionDelivers(sid: string, data: seq<IBB>)
    ensures
      var t := Deliver(Opened(sid), data);
      Deliver(Fresh(sid, true), [OpenBlock(sid, 4096)] + (data + [CloseBlock(sid)])) ==
        if t.open then t.(open := false, replies := t.replies + [Accepted]) else t
  {
    hide Deliver;
    var r0, r1 := Fresh(sid, true), Opened(sid);
    DeliverOpen(r0, sid, 4096);
    assert [] + [Accepted] == [Accepted];
    DeliverAppend(r0, [OpenBlock(sid, 4096)], data + [CloseBlock(sid)]);
    DeliverAppend(r1, data, [CloseBlock(sid)]);
    DeliverHandler(r1, data);
    DeliverClose(Deliver(r1, data), sid);
  }

  lemma Ends(r: Stream, t: Stream, u: Stream, blocks: seq<seq<Byte>>)
    requires r.delivered == [] && r.replies == [Accepted] && r.lastChunkReceived == -1 && Outcome(r, t, blocks)
    requires u == if t.open then t.(open := false, replies := t.replies + [Accepted]) else t
    ensures !u.open
    ensures u.delivered == blocks <==> blocks == [] || (NoneEmpty(blocks) && |blocks| <= 65536)
    ensures blocks == [] || (NoneEmpty(blocks) && |blocks| <= 65536) ==> u.replies == Accepts(|blocks| + 2)
    ensures blocks == [] ==> NoneEmpty(blocks)
  {
    assert NoneEmpty([]);
    hide NoneEmpty, Accepts;
    assert r.delivered + blocks == blocks;
    OneMoreAccepted(|blocks|);
  }

  lemma OneMoreAccepted(n: nat)
    ensures [Accepted] + Accepts(n) + [Accepted] == Accepts(n + 2)
  {
  }

  lemma {:induction false} DeliverHandler(r: Stream, wire: seq<IBB>)
    ensures Deliver(r, wire).handler == r.handler
    decreases |wire|
  {
    hide Print, Parse;
    if wire != [] {
      var e := Print(wire[0]);
      DeliverHandler(if e.None? then r else HandleIq(r, true, Some(Parse(e.value))).0, wire[1..]);
    }
  }

  /** Without a handler nothing is ever taken, and no stream opens. */
  lemma {:induction false} NothingWithoutHandler(r: Stream, events: seq<Event>)
    requires r.blockSize > 0 && !r.handler && !r.open
    ensures !Run(r, events).open && Run(r, events).delivered == r.delivered && Run(r, events).replies == r.replies
    decreases |events|
  {
    hide Split, Number, AdvanceBy;
    if events != [] {
      NothingWithoutHandler(Apply(r, events[0]), events[1..]);
    }
  }

  // ---- refusals ----

  /** An open stream refuses a block with the wrong number as unknown, and an empty one as bad; it is
      closed then, says that it did nothing, and delivers nothing.  It ends by a block that says so. */
  lemma RefusesIff(s: Stream, i: IBB)
    requires s.open && s.handler
    ensures
      var (t, handled) := HandleIq(s, true, Some(i));
      var unknown, bad := i.seqNo != s.lastChunkReceived + 1, i.data == [];
      && t.replies == s.replies + [if i.kind == IbbClose then Accepted else if unknown then ItemNotFound
                                   else if bad then BadRequest else Accepted]
      && (handled <==> i.kind == IbbClose || (!unknown && !bad))
      && (t.open <==> i.kind != IbbClose && !unknown && !bad)
      && t.delivered == s.delivered + (if i.kind != IbbClose && !unknown && !bad then [i.data] else [])
  {
    assert s.delivered + [] == s.delivered;
  }

  /** A closed stream is opened by a request to open, and by nothing else; nor by anything that is no
      `set`. */
  lemma OpensIff(s: Stream, isSet: bool, i: IBB)
    requires !s.open
    ensures
      var (t, handled) := HandleIq(s, isSet, Some(i));
      && (t.open <==> isSet && s.handler && i.kind == IbbOpen)
      && (handled <==> t.open)
      && t.replies == s.replies + (if t.open then [Accepted] else [])
      && t.delivered == s.delivered && t.lastChunkReceived == s.lastChunkReceived
  {
    assert s.replies + [] == s.replies;
  }

  /** A stream asks its peer to open, behind all that it sent before, but never itself. */
  lemma AsksToOpen(s: Stream, toSelf: bool)
    ensures
      var (t, r) := Connect(s, toSelf);
      r && t == s.(sent := s.sent + if toSelf then [] else [IBB(IbbOpen, s.sid, 0, s.blockSize, [])])
  {
    assert s.sent + [] == s.sent;
  }

  /** The answer to a request of its own: an error closes the stream, the one to open opens it. */
  lemma AnswerIff(s: Stream, isError: bool, isOpen: bool)
    ensures HandleIqId(s, isError, isOpen) == s.(open := !isError && (s.open || (isOpen && s.handler)))
  {
  }

  /** A closed stream sends nothing and says so. */
  lemma SendsIff(s: Stream, data: seq<Byte>)
    requires s.blockSize > 0
    ensures
      var (t, r) := Send(s, data);
      (r <==> s.open) && (!r ==> t == s) && (r ==> s.sent <= t.sent && |t.sent| > |s.sent|)
  {
    SendAllNumbers(s.(open := true), [data]);
    hide Split, AdvanceBy;
    NumberLength(s.sid, s.sequence, Split(data, s.blockSize));
  }

  lemma {:induction false} NumberLength(sid: string, q: int, blocks: seq<seq<Byte>>)
    ensures |Number(sid, q, blocks)| == |blocks|
    decreases |blocks|
  {
    hide Advance;
    if blocks != [] {
      NumberLength(sid, Advance(q), blocks[1..]);
    }
  }
}
