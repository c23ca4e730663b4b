/** In-Band Bytestreams (gloox/inbandbytestream.cpp): blocks, their XML form, and what one incoming
    IQ does to a stream. */
module Ibb {
  import opened Bytes
  import opened Text
  import opened Base64

  datatype IbbType = IbbOpen | IbbData | IbbClose | IbbInvalid

  /** The stanza extension. */
  datatype IBB = IBB(kind: IbbType, sid: string, seqNo: int, blockSize: int, data: seq<Byte>)

  /** Its element: name, namespace, the attributes it may carry ("" if absent), and character data. */
  datatype Element = Element(name: string, xmlns: string, sid: string, seqNo: string, blockSize: string, cdata: string)

  const XMLNS_IBB := "http://jabber.org/protocol/ibb"

  function OpenBlock(sid: string, blockSize: int): IBB { IBB(IbbOpen, sid, 0, blockSize, []) }
  function DataBlock(sid: string, seqNo: int, data: seq<Byte>): IBB { IBB(IbbData, sid, seqNo, 0, data) }
  function CloseBlock(sid: string): IBB { IBB(IbbClose, sid, 0, 0, []) }

  function TypeName(kind: IbbType): string
    requires kind != IbbInvalid
  {
    match kind case IbbOpen => "open" case IbbData => "data" case IbbClose => "close"
  }

  function LookupType(name: string): IbbType {
    if name == "open" then IbbOpen else if name == "data" then IbbData
    else if name == "close" then IbbClose else IbbInvalid
  }

  /** `util::int2string` */
  function IntToString(n: int): string {
    if n < 0 then "-" + Decimal(-n) else Decimal(n)
  }

  /** `IBB::tag` */
  function Print(i: IBB): Option<Element> {
    if i.kind == IbbInvalid then None
    else Some(Element(
      TypeName(i.kind), XMLNS_IBB, i.sid,
      if i.kind == IbbData then IntToString(i.seqNo) else "",
      if i.kind == IbbOpen then IntToString(i.blockSize) else "",
      if i.kind == IbbData then Encode(i.data) else ""))
  }

  /** `IBB( const Tag* )` */
  function Parse(e: Element): IBB {
    if e.xmlns != XMLNS_IBB then IBB(IbbInvalid, "", 0, 0, [])
    else IBB(LookupType(e.name), e.sid, Atoi(e.seqNo), Atoi(e.blockSize), Decode(e.cdata))
  }

  lemma AtoiOfInt(n: int)
    requires -0x8000_0000 <= n <= 0x7fff_ffff
    ensures Atoi(IntToString(n)) == n
  {
    if n >= 0 {
      AtolOfDecimal(n);
    } else {
      AtolOfMinus(-n);
    }
  }

  lemma AtoiOfEmpty()
    ensures Atoi("") == 0
  {
  }

  /** Every block survives the wire. */
  lemma ParsePrint(sid: string, seqNo: int, data: seq<Byte>, blockSize: int)
    requires -0x8000_0000 <= seqNo <= 0x7fff_ffff && -0x8000_0000 <= blockSize <= 0x7fff_ffff
    ensures Parse(Print(DataBlock(sid, seqNo, data)).value) == DataBlock(sid, seqNo, data)
    ensures Parse(Print(OpenBlock(sid, blockSize)).value) == OpenBlock(sid, blockSize)
    ensures Parse(Print(CloseBlock(sid)).value) == CloseBlock(sid)
  {
    hide Atoi, IntToString, Encode, Decode;
    AtoiOfInt(seqNo);
    AtoiOfInt(blockSize);
    AtoiOfEmpty();
    DecodeEncode(data);
    DecodeEmpty();
  }

  lemma DecodeEmpty()
    ensures Decode("") == []
  {
  }

  /** The elements of XEP-0047, character by character. */
  lemma OnTheWire(sid: string)
    ensures Print(OpenBlock(sid, 4096)) ==
      Some(Element("open", "http://jabber.org/protocol/ibb", sid, "", "4096", ""))
    ensures Print(DataBlock(sid, 0, [1, 2, 3])) ==
      Some(Element("data", "http://jabber.org/protocol/ibb", sid, "0", "", "AQID"))
    ensures Print(CloseBlock(sid)) == Some(Element("close", "http://jabber.org/protocol/ibb", sid, "", "", ""))
  {
    DecimalDigits();
    EncodedBytes();
    hide Decimal, Encode;
  }

  lemma EncodedBytes()
    ensures Encode([1, 2, 3]) == "AQID"
  {
    LetterCodes(0);
    LetterCodes(16);
    LetterCodes(8);
    LetterCodes(3);
    hide Letter;
    assert [1, 2, 3][3..] == [] && Encode([]) == "";
  }

  lemma DecimalDigits()
    ensures Decimal(0) == "0" && Decimal(4096) == "4096"
  {
    assert Decimal(4) == "4";
    assert Decimal(40) == Decimal(4) + "0" == "40";
    assert Decimal(409) == Decimal(40) + "9" == "409";
    assert Decimal(4096) == Decimal(409) + "6";
  }

  /** An element of another namespace is no block, whatever it holds. */
  lemma Foreign(e: Element)
    requires e.xmlns != "http://jabber.org/protocol/ibb"
    ensures Parse(e) == IBB(IbbInvalid, "", 0, 0, []) && Print(Parse(e)).None?
  {
  }

  // ---- a stream ----

  datatype Reply = Accepted | ItemNotFound | BadRequest

  /** `sent`, `delivered`, `numbers` and `replies` record the blocks sent, the data handed to the
      handler, the numbers it came under, and the answers to incoming IQs. */
  datatype Stream = Stream(
    sid: string,
    open: bool,
    handler: bool,
    blockSize: int,
    sequence: int,
    lastChunkReceived: int,
    sent: seq<IBB>,
    delivered: seq<seq<Byte>>,
    numbers: seq<int>,
    replies: seq<Reply>)

  function Fresh(sid: string, handler: bool): Stream {
    Stream(sid, false, handler, 4096, -1, -1, [], [], [], [])
  }

  function Replied(s: Stream, r: Reply): Stream {
    s.(replies := s.replies + [r])
  }

  /** `handleIq`: the new state, and whether the IQ was handled. */
  function HandleIq(s: Stream, isSet: bool, ext: Option<IBB>): (Stream, bool) {
    if ext.None? || !s.handler || !isSet then (s, false)
    else
      var i := ext.value;
      if !s.open then
        if i.kind == IbbOpen then (Replied(s, Accepted).(open := true), true) else (s, false)
      else if i.kind == IbbClose then (Replied(s, Accepted).(open := false), true)
      else if s.lastChunkReceived + 1 != i.seqNo then (Replied(s, ItemNotFound).(open := false), false)
      else if i.data == [] then (Replied(s, BadRequest).(open := false), false)
      else
        (Replied(s, Accepted).(
           delivered := s.delivered + [i.data],
           numbers := s.numbers + [i.seqNo],
           lastChunkReceived := s.lastChunkReceived + 1), true)
  }

  /** `connect`; nothing is sent to oneself. */
  function Connect(s: Stream, toSelf: bool): (Stream, bool) {
    (if toSelf then s else s.(sent := s.sent + [OpenBlock(s.sid, s.blockSize)]), true)
  }

  /** `handleIqID` */
  function HandleIqId(s: Stream, isError: bool, isOpen: bool): Stream {
    if isError then s.(open := false)
    else if isOpen && s.handler then s.(open := true)
    else s
  }

  /** `close` */
  function Close(s: Stream): Stream {
    s.(open := false, sent := s.sent + [CloseBlock(s.sid)])
  }

  // ---- sending ----

  /** The pieces of a `send`: at least one, all full but the last. */
  function Split(data: seq<Byte>, n: nat): (blocks: seq<seq<Byte>>)
    requires n > 0
    ensures blocks != []
  {
    if |data| <= n then [data] else [data[..n]] + Split(data[n..], n)
  }

  /** The counter after a block: it starts over at 65536. */
  function Advance(sequence: int): int {
    if sequence + 1 == 65535 then -1 else sequence + 1
  }

  function AdvanceBy(sequence: int, n: nat): int
    decreases n
  {
    if n == 0 then sequence else AdvanceBy(Advance(sequence), n - 1)
  }

  function Number(sid: string, sequence: int, blocks: seq<seq<Byte>>): seq<IBB>
    decreases |blocks|
  {
    if blocks == [] then []
    else [DataBlock(sid, sequence + 1, blocks[0])] + Number(sid, Advance(sequence), blocks[1..])
  }

  /** `send`, for a positive block size. */
  function Send(s: Stream, data: seq<Byte>): (Stream, bool)
    requires s.blockSize > 0
  {
    if !s.open then (s, false)
    else
      var blocks := Split(data, s.blockSize);
      (s.(sent := s.sent + Number(s.sid, s.sequence, blocks), sequence := AdvanceBy(s.sequence, |blocks|)), true)
  }
}
