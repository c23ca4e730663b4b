/** The stream object, method by method (gloox/inbandbytestream.cpp:98-297). */
module InBandBytestreams {
  import opened Bytes
  import opened Text
  import opened Ibb
  import IbbTransfer

  class InBandBytestream {
    const sid: string
    const handler: bool
    const blockSize: int
    var open: bool
    var sequence: int
    var lastChunkReceived: int

    /** What the stream did to its client and its handler. */
    var sent: seq<IBB>
    var delivered: seq<seq<Byte>>
    var numbers: seq<int>
    var replies: seq<Reply>

    ghost predicate Valid()
      reads this
    {
      IbbTransfer.InOrder(State())
    }

    function State(): Stream
      reads this
    {
      Stream(sid, open, handler, blockSize, sequence, lastChunkReceived, sent, delivered, numbers, replies)
    }

    constructor (sid: string, handler: bool)
      ensures Valid() && State() == Fresh(sid, handler)
    {
      this.sid, this.handler, blockSize := sid, handler, 4096;
      open, sequence, lastChunkReceived := false, -1, -1;
      sent, delivered, numbers, replies := [], [], [], [];
    }

    method Connect(toSelf: bool) returns (r: bool)
      requires Valid()
      modifies `sent
      ensures Valid() && (State(), r) == Ibb.Connect(old(State()), toSelf)
    {
      if toSelf { return true; }
      sent := sent + [OpenBlock(sid, blockSize)];
      return true;
    }

    method Closed()
      requires Valid()
      modifies this
      ensures Valid() && State() == old(State()).(open := false)
    {
      if !open { return; }
      open := false;
    }

    method HandleIqID(isError: bool, isResult: bool, isOpen: bool)
      requires Valid() && !(isError && isResult)
      modifies this
      ensures Valid()
      ensures State() == if isError || isResult then HandleIqId(old(State()), isError, isOpen) else old(State())
    {
      if isResult {
        if isOpen && handler {
          open := true;
        }
      } else if isError {
        Closed();
      }
    }

    method HandleIq(isSet: bool, ext: Option<IBB>) returns (handled: bool)
      requires Valid()
      modifies this
      ensures Valid() && (State(), handled) == Ibb.HandleIq(old(State()), isSet, ext)
      ensures old(delivered) <= delivered
      ensures !old(open) ==> delivered == old(delivered)
    {
      if ext.None? || !handler || !isSet { return false; }
      var i := ext.value;
      if !open {
        if i.kind == IbbOpen {
          replies := replies + [Accepted];
          open := true;
          return true;
        }
        return false;
      }
      if i.kind == IbbClose {
        replies := replies + [Accepted];
        Closed();
        return true;
      }
      if lastChunkReceived + 1 != i.seqNo {
        open := false;
        replies := replies + [ItemNotFound];
        return false;
      }
      if i.data == [] {
        open := false;
        replies := replies + [BadRequest];
        return false;
      }
      replies := replies + [Accepted];
      delivered, numbers := delivered + [i.data], numbers + [i.seqNo];
      lastChunkReceived := lastChunkReceived + 1;
      return true;
    }

    /** The block loop: what it sends is the data in numbered pieces. */
    method Send(data: seq<Byte>) returns (r: bool)
      requires Valid() && blockSize > 0
      modifies `sequence, `sent
      ensures Valid() && (State(), r) == Ibb.Send(old(State()), data)
    {
      if !open { return false; }
      hide Progress, Split, IbbTransfer.InOrder, Piece;
      ghost var s := State();
      ghost var done: nat := 0;
      ProgressBegin(s, data);
      var pos: nat := 0;
      while true
        invariant (pos < |data| || done == 0) && pos <= |data| && Progress(s, State(), data, done, pos)
        decreases |Split(data, blockSize)| - done
      {
        ghost var t := State();
        sequence := sequence + 1;
        sent := sent + [DataBlock(sid, sequence, Piece(data, pos, blockSize))];
        pos := pos + blockSize;
        if sequence == 65535 {
          sequence := -1;
        }
        ProgressStep(s, t, State(), data, done, pos);
        if pos >= |data| { break; }
        done := done + 1;
      }
      ProgressEnd(s, State(), data, done + 1, pos);
      return true;
    }

    method Close()
      requires Valid()
      modifies this
      ensures Valid() && State() == Ibb.Close(old(State()))
    {
      open := false;
      sent := sent + [CloseBlock(sid)];
    }
  }

  /** `data.substr( pos, n )` */
  function Piece(data: seq<Byte>, pos: nat, n: nat): seq<Byte>
    requires pos <= |data|
  {
    if pos + n <= |data| then data[pos..pos + n] else data[pos..]
  }

  /** `pos` is where the pieces behind the first `done` start. */
  predicate Ahead(data: seq<Byte>, blocks: seq<seq<Byte>>, n: nat, done: nat, pos: nat)
    requires n > 0
  {
    && done <= |blocks|
    && (pos < |data| || done == 0 ==> done < |blocks| && pos <= |data| && blocks[done..] == Split(data[pos..], n))
    && (pos >= |data| && done > 0 ==> done == |blocks|)
  }

  /** The first `done` pieces are sent. */
  predicate Behind(s: Stream, t: Stream, blocks: seq<seq<Byte>>, done: nat)
    requires done <= |blocks|
  {
    t == s.(sequence := AdvanceBy(s.sequence, done), sent := s.sent + Number(s.sid, s.sequence, blocks[..done]))
  }

  predicate Progress(s: Stream, t: Stream, data: seq<Byte>, done: nat, pos: nat)
    requires s.blockSize > 0
  {
    var blocks := Split(data, s.blockSize);
    Ahead(data, blocks, s.blockSize, done, pos) && Behind(s, t, blocks, done)
  }

  lemma ProgressBegin(s: Stream, data: seq<Byte>)
    requires s.blockSize > 0
    ensures Progress(s, s, data, 0, 0)
  {
    var blocks := Split(data, s.blockSize);
    hide Split;
    assert blocks[0..] == blocks && blocks[..0] == [] && data[0..] == data;
  }

  lemma ProgressStep(s: Stream, t: Stream, u: Stream, data: seq<Byte>, done: nat, pos: nat)
    requires s.blockSize > 0 && s.blockSize <= pos <= |data| + s.blockSize
    requires pos - s.blockSize < |data| || done == 0
    requires Progress(s, t, data, done, pos - s.blockSize)
    requires u == t.(sequence := Advance(t.sequence),
                     sent := t.sent + [DataBlock(t.sid, t.sequence + 1, Piece(data, pos - s.blockSize, s.blockSize))])
    ensures Progress(s, u, data, done + 1, pos)
    ensures done < |Split(data, s.blockSize)|
  {
    var blocks := Split(data, s.blockSize);
    assert done < |blocks|;
    AheadStep(data, blocks, s.blockSize, done, pos - s.blockSize);
    BehindStep(s, t, u, blocks, done);
    hide Split, Ahead, Behind, Advance, Piece;
  }

  lemma ProgressEnd(s: Stream, t: Stream, data: seq<Byte>, done: nat, pos: nat)
    requires s.blockSize > 0 && done > 0 && pos >= |data| && s.open
    requires Progress(s, t, data, done, pos)
    ensures (t, true) == Ibb.Send(s, data)
    ensures IbbTransfer.InOrder(s) ==> IbbTransfer.InOrder(t)
  {
    var blocks := Split(data, s.blockSize);
    hide Split, Number, AdvanceBy;
    assert blocks[..done] == blocks;
  }

  /** The piece at `done`, and whether it is the last one. */
  lemma AheadStep(data: seq<Byte>, blocks: seq<seq<Byte>>, n: nat, done: nat, pos: nat)
    requires n > 0 && done < |blocks| && pos <= |data| && (pos < |data| || done == 0)
    requires Ahead(data, blocks, n, done, pos)
    ensures blocks[done] == Piece(data, pos, n)
    ensures Ahead(data, blocks, n, done + 1, pos + n)
  {
    var rest := data[pos..];
    PieceAt(rest, n);
    hide Split;
    assert blocks[done] == blocks[done..][0];
    assert blocks[done + 1..] == blocks[done..][1..];
    if pos + n < |data| {
      assert rest[n..] == data[pos + n..];
    }
    if pos + n <= |data| {
      assert rest[..n] == data[pos..pos + n];
    }
  }

  lemma BehindStep(s: Stream, t: Stream, u: Stream, blocks: seq<seq<Byte>>, done: nat)
    requires done < |blocks| && Behind(s, t, blocks, done)
    requires u == t.(sequence := Advance(t.sequence), sent := t.sent + [DataBlock(t.sid, t.sequence + 1, blocks[done])])
    ensures Behind(s, u, blocks, done + 1)
  {
    PieceNumber(s.sid, s.sequence, blocks, done);
    hide Number, AdvanceBy, Advance;
  }

  lemma PieceAt(rest: seq<Byte>, n: nat)
    requires n > 0
    ensures Split(rest, n)[0] == if n <= |rest| then rest[..n] else rest
    ensures if |rest| <= n then |Split(rest, n)| == 1 else |Split(rest, n)| > 1 && Split(rest, n)[1..] == Split(rest[n..], n)
  {
  }

  lemma PieceNumber(sid: string, q: int, blocks: seq<seq<Byte>>, done: nat)
    requires done < |blocks|
    ensures AdvanceBy(q, done + 1) == Advance(AdvanceBy(q, done))
    ensures Number(sid, q, blocks[..done + 1]) ==
      Number(sid, q, blocks[..done]) + [DataBlock(sid, AdvanceBy(q, done) + 1, blocks[done])]
  {
    assert blocks[..done + 1] == blocks[..done] + [blocks[done]];
    IbbTransfer.NumberAppend(sid, q, blocks[..done], [blocks[done]]);
    NumberOne(sid, AdvanceBy(q, done), blocks[done]);
  }

  lemma NumberOne(sid: string, q: int, block: seq<Byte>)
    ensures Number(sid, q, [block]) == [DataBlock(sid, q + 1, block)]
    ensures AdvanceBy(q, 1) == Advance(q)
  {
    assert AdvanceBy(q, 1) == AdvanceBy(Advance(q), 0);
  }
}
