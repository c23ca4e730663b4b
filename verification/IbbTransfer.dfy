/** In-Band Bytestreams end to end: what arrives is what was sent. */
module IbbTransfer {
  import opened Bytes
  import opened Text
  import opened Base64
  import opened Ibb

  // ---- the receiver, against any peer ----

  datatype Event =
    | Incoming(isSet: bool, ext: Option<IBB>)
    | Answered(isError: bool, isOpen: bool)
    | Closing
    | Sending(data: seq<Byte>)

  function Apply(s: Stream, e: Event): Stream
    requires s.blockSize > 0
  {
    match e
    case Incoming(isSet, ext) => HandleIq(s, isSet, ext).0
    case Answered(isError, isOpen) => HandleIqId(s, isError, isOpen)
    case Closing => Close(s)
    case Sending(data) => Send(s, data).0
  }

  function Run(s: Stream, events: seq<Event>): (t: Stream)
    requires s.blockSize > 0
    ensures t.blockSize == s.blockSize
    decreases |events|
  {
    if events == [] then s else Run(Apply(s, events[0]), events[1..])
  }

  /** The handler has seen the blocks 0, 1, 2, .. in order, none of them empty. */
  predicate InOrder(s: Stream) {
    && |s.numbers| == |s.delivered| == s.lastChunkReceived + 1
    && (forall i | 0 <= i < |s.numbers| :: s.numbers[i] == i)
    && (forall i | 0 <= i < |s.delivered| :: s.delivered[i] != [])
  }

  lemma ApplyInOrder(s: Stream, e: Event)
    requires s.blockSize > 0 && InOrder(s)
    ensures InOrder(Apply(s, e))
    ensures s.delivered <= Apply(s, e).delivered
    ensures !s.open ==> Apply(s, e).delivered == s.delivered
  {
  }

  /** Gaps, duplicates, closes and reopenings included. */
  lemma {:induction false} RunInOrder(s: Stream, events: seq<Event>)
    requires s.blockSize > 0 && InOrder(s)
    ensures InOrder(Run(s, events)) && s.delivered <= Run(s, events).delivered
    decreases |events|
  {
    if events != [] {
      ApplyInOrder(s, events[0]);
      hide InOrder, Apply;
      RunInOrder(Apply(s, events[0]), events[1..]);
    }
  }

  // ---- the sender ----

  function Concat(blocks: seq<seq<Byte>>): seq<Byte> {
    if blocks == [] then [] else blocks[0] + Concat(blocks[1..])
  }

  lemma {:induction false} ConcatAppend(a: seq<seq<Byte>>, b: seq<seq<Byte>>)
    ensures Concat(a + b) == Concat(a) + Concat(b)
  {
    if a == [] {
      assert a + b == b;
    } else {
      assert (a + b)[1..] == a[1..] + b;
      ConcatAppend(a[1..], b);
    }
  }

  predicate NoneEmpty(blocks: seq<seq<Byte>>) {
    blocks == [] || (|blocks[0]| > 0 && NoneEmpty(blocks[1..]))
  }

  lemma {:induction false} NoneEmptyAppend(a: seq<seq<Byte>>, b: seq<seq<Byte>>)
    ensures NoneEmpty(a + b) <==> NoneEmpty(a) && NoneEmpty(b)
  {
    if a == [] {
      assert a + b == b;
    } else {
      assert (a + b)[1..] == a[1..] + b;
      NoneEmptyAppend(a[1..], b);
    }
  }

  /** The pieces make up the data; one is empty only if the data is. */
  lemma {:induction false} SplitConcat(data: seq<Byte>, n: nat)
    requires n > 0
    ensures Concat(Split(data, n)) == data
    ensures NoneEmpty(Split(data, n)) <==> data != []
  {
    if |data| <= n {
      assert Concat([data]) == data + Concat([]);
    } else {
      SplitConcat(data[n..], n);
      assert Split(data, n)[1..] == Split(data[n..], n);
    }
  }

  /** The blocks of a series of `send`s. */
  function AllBlocks(sends: seq<seq<Byte>>, n: nat): seq<seq<Byte>>
    requires n > 0
  {
    if sends == [] then [] else Split(sends[0], n) + AllBlocks(sends[1..], n)
  }

  function SendAll(s: Stream, sends: seq<seq<Byte>>): Stream
    requires s.blockSize > 0
    decreases |sends|
  {
    if sends == [] then s else SendAll(Send(s, sends[0]).0, sends[1..])
  }

  lemma {:induction false} AllBlocksConcat(sends: seq<seq<Byte>>, n: nat)
    requires n > 0
    ensures Concat(AllBlocks(sends, n)) == Concat(sends)
    ensures NoneEmpty(AllBlocks(sends, n)) <==> NoneEmpty(sends)
  {
    if sends != [] {
      SplitConcat(sends[0], n);
      AllBlocksConcat(sends[1..], n);
      ConcatAppend(Split(sends[0], n), AllBlocks(sends[1..], n));
      NoneEmptyAppend(Split(sends[0], n), AllBlocks(sends[1..], n));
    }
  }

  lemma {:induction false} NumberAppend(sid: string, q: int, a: seq<seq<Byte>>, b: seq<seq<Byte>>)
    ensures Number(sid, q, a + b) == Number(sid, q, a) + Number(sid, AdvanceBy(q, |a|), b)
    ensures AdvanceBy(q, |a + b|) == AdvanceBy(AdvanceBy(q, |a|), |b|)
    decreases |a|
  {
    if a == [] {
      assert a + b == b;
    } else {
      assert (a + b)[1..] == a[1..] + b;
      NumberAppend(sid, Advance(q), a[1..], b);
    }
  }

  /** A series of `send`s numbers the blocks of all of them through. */
  lemma {:induction false} SendAllNumbers(s: Stream, sends: seq<seq<Byte>>)
    requires s.blockSize > 0 && s.open
    ensures SendAll(s, sends).sent == s.sent + Number(s.sid, s.sequence, AllBlocks(sends, s.blockSize))
    decreases |sends|
  {
    hide Split;
    if sends != [] {
      var t := Send(s, sends[0]).0;
      SendAllNumbers(t, sends[1..]);
      NumberAppend(s.sid, s.sequence, Split(sends[0], s.blockSize), AllBlocks(sends[1..], s.blockSize));
    }
  }

  /** The number of block i counts modulo 65536. */
  lemma {:induction false} NumbersWrap(sid: string, q: int, blocks: seq<seq<Byte>>, i: nat)
    requires -1 <= q < 65535 && i < |blocks|
    ensures |Number(sid, q, blocks)| == |blocks|
    ensures Number(sid, q, blocks)[i] == DataBlock(sid, (q + 1 + i) % 65536, blocks[i])
    decreases |blocks|
  {
    if |blocks| > 1 {
      NumbersWrap(sid, Advance(q), blocks[1..], if i == 0 then 0 else i - 1);
    }
  }

  // ---- the transfer ----

  /** The receiver gets each block as a set IQ, printed and parsed. */
  function Deliver(r: Stream, wire: seq<IBB>): Stream
    decreases |wire|
  {
    if wire == [] then r
    else
      var e := Print(wire[0]);
      Deliver(if e.None? then r else HandleIq(r, true, Some(Parse(e.value))).0, wire[1..])
  }

  function Accepts(n: nat): seq<Reply> {
    seq(n, _ => Accepted)
  }

  /** One data block. */
  function Take(r: Stream, sid: string, seqNo: int, data: seq<Byte>): Stream {
    HandleIq(r, true, Some(DataBlock(sid, seqNo, data))).0
  }

  lemma DeliverFirst(r: Stream, sid: string, q: int, blocks: seq<seq<Byte>>)
    requires blocks != [] && -1 <= q < 65535
    ensures Deliver(r, Number(sid, q, blocks)) ==
      Deliver(Take(r, sid, q + 1, blocks[0]), Number(sid, Advance(q), blocks[1..]))
  {
    ParsePrint(sid, q + 1, blocks[0], 0);
    hide Print, Parse, HandleIq;
    assert Number(sid, q, blocks)[1..] == Number(sid, Advance(q), blocks[1..]);
  }

  lemma TakeClosed(r: Stream, sid: string, seqNo: int, data: seq<Byte>)
    requires !r.open
    ensures Take(r, sid, seqNo, data) == r
  {
  }

  lemma TakeOpen(r: Stream, sid: string, seqNo: int, data: seq<Byte>)
    requires r.open && r.handler
    ensures
      var u := Take(r, sid, seqNo, data);
      if |data| > 0 && r.lastChunkReceived + 1 == seqNo then
        && u.open && u.handler && u.lastChunkReceived == seqNo
        && u.delivered == r.delivered + [data] && u.replies == r.replies + [Accepted]
      else !u.open && u.delivered == r.delivered
  {
  }

  lemma {:induction false} ClosedTakesNothing(r: Stream, sid: string, q: int, blocks: seq<seq<Byte>>)
    requires !r.open && -1 <= q < 65535
    ensures Deliver(r, Number(sid, q, blocks)) == r
    decreases |blocks|
  {
    hide Take;
    if blocks != [] {
      DeliverFirst(r, sid, q, blocks);
      TakeClosed(r, sid, q + 1, blocks[0]);
      hide Deliver;
      ClosedTakesNothing(r, sid, Advance(q), blocks[1..]);
    }
  }

  /** No block is empty, and the receiver's count does not reach 65536. */
  predicate Fits(r: Stream, blocks: seq<seq<Byte>>) {
    blocks == [] || (NoneEmpty(blocks) && r.lastChunkReceived + 1 + |blocks| <= 65536)
  }

  predicate TookAll(r: Stream, t: Stream, blocks: seq<seq<Byte>>) {
    t.open && t.delivered == r.delivered + blocks && t.replies == r.replies + Accepts(|blocks|)
  }

  /** All of the blocks if they fit; otherwise something else. */
  predicate Outcome(r: Stream, t: Stream, blocks: seq<seq<Byte>>) {
    if Fits(r, blocks) then TookAll(r, t, blocks) else t.delivered != r.delivered + blocks
  }

  lemma OutcomeTaken(r: Stream, u: Stream, t: Stream, blocks: seq<seq<Byte>>)
    requires blocks != [] && |blocks[0]| > 0
    requires r.lastChunkReceived + 1 == u.lastChunkReceived < 65536
    requires u.delivered == r.delivered + [blocks[0]] && u.replies == r.replies + [Accepted]
    requires Outcome(u, t, blocks[1..])
    ensures Outcome(r, t, blocks)
  {
    TookFirst(r, u, t, blocks);
    hide TookAll;
    assert NoneEmpty(blocks) <==> NoneEmpty(blocks[1..]);
    assert Fits(r, blocks) <==> Fits(u, blocks[1..]);
  }

  lemma OutcomeRefused(r: Stream, t: Stream, blocks: seq<seq<Byte>>)
    requires blocks != [] && (|blocks[0]| == 0 || r.lastChunkReceived + 1 >= 65536)
    requires t.delivered == r.delivered
    ensures Outcome(r, t, blocks)
  {
    hide TookAll;
    assert |t.delivered| < |r.delivered + blocks|;
  }

  /** The receiver takes all of the blocks exactly if they fit. */
  lemma {:induction false} DeliverAllIff(r: Stream, sid: string, q: int, blocks: seq<seq<Byte>>)
    requires r.open && r.handler && r.lastChunkReceived >= -1
    requires InStep(r.lastChunkReceived + 1, q)
    ensures Outcome(r, Deliver(r, Number(sid, q, blocks)), blocks)
    decreases |blocks|
  {
    hide Take, TookAll, InStep, Advance, Outcome;
    if blocks == [] {
      NoOutcome(r);
    } else {
      NextNumber(r.lastChunkReceived + 1, q);
      DeliverFirst(r, sid, q, blocks);
      hide Deliver, Number;
      TakeOpen(r, sid, q + 1, blocks[0]);
      var u, rest := Take(r, sid, q + 1, blocks[0]), blocks[1..];
      var t := Deliver(u, Number(sid, Advance(q), rest));
      if u.open {
        DeliverAllIff(u, sid, Advance(q), rest);
        OutcomeTaken(r, u, t, blocks);
      } else {
        ClosedTakesNothing(u, sid, Advance(q), rest);
        OutcomeRefused(r, t, blocks);
      }
    }
  }

  /** The sender's counter q, before block k of the stream. */
  predicate InStep(k: int, q: int) {
    -1 <= q < 65535 && k % 65536 == q + 1
  }

  lemma NextNumber(k: nat, q: int)
    requires InStep(k, q)
    ensures -1 <= q < 65535 && -1 <= Advance(q) < 65535
    ensures InStep(k + 1, Advance(q))
    ensures k == q + 1 <==> k < 65536
  {
  }

  lemma NoOutcome(r: Stream)
    requires r.open
    ensures Outcome(r, r, [])
  {
  }

  lemma TookFirst(r: Stream, u: Stream, t: Stream, blocks: seq<seq<Byte>>)
    requires blocks != [] && u.delivered == r.delivered + [blocks[0]] && u.replies == r.replies + [Accepted]
    ensures TookAll(u, t, blocks[1..]) ==> TookAll(r, t, blocks)
    ensures u.delivered + blocks[1..] == r.delivered + blocks
  {
    assert u.replies + Accepts(|blocks| - 1) == r.replies + Accepts(|blocks|);
  }

  /** What a new sender sends, a new receiver takes whole: exactly if no `send` was empty and they
      come to at most 65536 blocks.  Then the data is the data sent. */
  lemma Transfer(s: Stream, r: Stream, sends: seq<seq<Byte>>)
    requires s.open && s.blockSize > 0 && s.sequence == -1 && s.sent == []
    requires r.open && r.handler && r.lastChunkReceived == -1 && r.delivered == [] && r.replies == []
    ensures
      var blocks := AllBlocks(sends, s.blockSize);
      var t := Deliver(r, SendAll(s, sends).sent);
      && (t.delivered == blocks <==> NoneEmpty(sends) && |blocks| <= 65536)
      && (NoneEmpty(sends) && |blocks| <= 65536 ==>
            Concat(t.delivered) == Concat(sends) && t.open && t.replies == Accepts(|blocks|))
  {
    hide Deliver, SendAll, AllBlocks, Number, NoneEmpty, Concat;
    var blocks := AllBlocks(sends, s.blockSize);
    SendAllNumbers(s, sends);
    assert SendAll(s, sends).sent == Number(s.sid, -1, blocks);
    AllBlocksConcat(sends, s.blockSize);
    DeliverAllIff(r, s.sid, -1, blocks);
    NoBlocks(sends, s.blockSize);
    FromNothing(r, Deliver(r, Number(s.sid, -1, blocks)), blocks);
  }

  lemma NoBlocks(sends: seq<seq<Byte>>, n: nat)
    requires n > 0
    ensures AllBlocks(sends, n) == [] ==> NoneEmpty(sends)
  {
  }

  lemma FromNothing(r: Stream, t: Stream, blocks: seq<seq<Byte>>)
    requires r.delivered == [] && r.replies == []
    ensures TookAll(r, t, blocks) ==> t.open && t.delivered == blocks && t.replies == Accepts(|blocks|)
    ensures r.delivered + blocks == blocks
  {
  }
}
