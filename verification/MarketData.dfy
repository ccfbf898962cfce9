// The batching publisher of net/md_publisher.cpp and the parsing receiver of
// net/md_receiver.cpp. A datagram is a byte sequence; sockets and clocks are not modelled.
module MarketData {
  import opened Arith
  import opened LobTypes
  import opened Itch

  const MAGIC: nat := 0x49544348
  const VERSION: byte := 1
  const HEADER_BYTES: nat := 24
  const UDP_PAYLOAD: nat := 1400
  const MAX_BATCH: nat := 64
  const QUEUE_CAPACITY: nat := 65536

  // ----- pack_msg and unpack_msg on byte buffers -----

  /** The bytes a swapped 64-bit field has in the packed structure. */
  function FieldBytes(n: U64, littleEndian: bool): (bs: seq<byte>)
    ensures |bs| == 8
  {
    Memory(Bswap(n, 8, littleEndian), 8, littleEndian)
  }

  /** The 64-bit field a packed structure holds, swapped back. */
  function FieldValue(bs: seq<byte>, littleEndian: bool): nat
    requires |bs| == 8
  {
    Bswap(Value(if littleEndian then Reverse(bs) else bs), 8, littleEndian)
  }

  lemma FieldIsWord(n: U64, littleEndian: bool)
    ensures FieldBytes(n, littleEndian) == Word(n)
  {
    WireIsBigEndian(n, 8, littleEndian);
  }

  lemma FieldIsValue(bs: seq<byte>, littleEndian: bool)
    requires |bs| == 8
    ensures FieldValue(bs, littleEndian) == Value(bs) < TWO_TO_THE_64
  {
    ValueBound(bs);
    Pow256Of8();
    if littleEndian {
      var r := Reverse(bs);
      BytesOfValue(r);
      ReverseTwice(bs);
    }
  }

  /** memcpy. */
  method CopyInto(dst: array<byte>, off: nat, bs: seq<byte>)
    requires off + |bs| <= dst.Length
    modifies dst
    ensures dst[..] == old(dst[..off]) + bs + old(dst[off + |bs|..])
  {
    var i := 0;
    while i < |bs|
      invariant 0 <= i <= |bs|
      invariant dst[..off] == old(dst[..off]) && dst[off..off + i] == bs[..i] && dst[off + i..] == old(dst[off + i..])
    {
      dst[off + i] := bs[i];
      i := i + 1;
    }
  }

  /** The packed structure that follows the type byte. */
  function Struct(e: Event, le: bool): seq<byte> {
    if e.kind == ADD then
      FieldBytes(e.orderId, le) + [SideByte(e.side)] + FieldBytes(ToUnsigned(e.price), le)
      + FieldBytes(e.qty, le) + FieldBytes(e.eventNs, le)
    else if e.kind == CANCEL then
      FieldBytes(e.orderId, le) + FieldBytes(e.eventNs, le)
    else if e.kind == EXECUTE then
      FieldBytes(e.orderId, le) + FieldBytes(ToUnsigned(e.price), le) + FieldBytes(e.qty, le)
        + FieldBytes(e.eventNs, le)
    else
      [e.flags] + FieldBytes(ToUnsigned(e.bid), le) + FieldBytes(e.bidQty, le)
      + FieldBytes(ToUnsigned(e.ask), le) + FieldBytes(e.askQty, le) + FieldBytes(e.eventNs, le)
  }

  /** The type byte and the structure are the wire form of what the event carries. */
  lemma StructIsWire(e: Event, le: bool)
    requires Known(e.kind)
    ensures Encode(Carried(e)) == [e.kind] + Struct(e, le)
  {
    hide FieldBytes, Word;
    FieldIsWord(e.orderId, le);
    FieldIsWord(ToUnsigned(e.price), le);
    FieldIsWord(e.qty, le);
    FieldIsWord(e.eventNs, le);
    FieldIsWord(ToUnsigned(e.bid), le);
    FieldIsWord(e.bidQty, le);
    FieldIsWord(ToUnsigned(e.ask), le);
    FieldIsWord(e.askQty, le);
  }

  lemma Spliced(a: seq<byte>, off: nat, kind: byte, body: seq<byte>, b: seq<byte>, c: seq<byte>)
    requires off + 1 + |body| <= |a|
    requires b == a[off := kind] && c == b[..off + 1] + body + b[off + 1 + |body|..]
    ensures c == a[..off] + ([kind] + body) + a[off + (1 + |body|)..]
  {
    assert b[..off + 1] == a[..off] + [kind];
    assert b[off + 1 + |body|..] == a[off + (1 + |body|)..];
  }

  /** Where an add has its type and its side. */
  lemma SideOnWire(front: seq<byte>, e: Event, back: seq<byte>, bs: seq<byte>)
    requires e.kind == 1 && bs == front + Encode(Carried(e)) + back
    ensures |front| + 9 < |bs| && bs[|front|] == 1 && bs[|front| + 9] == if e.side == Buy then 0 else 1
  {
    var wire := Encode(Carried(e));
    assert wire[0] == 1 && wire[9] == SideByte(e.side);
    hide Encode, Carried;
    assert bs[|front|] == wire[0] && bs[|front| + 9] == wire[9];
  }

  method PackMsg(dst: array<byte>, off: nat, e: Event, littleEndian: bool) returns (n: nat)
    requires off + MAX_MSG_BYTES <= dst.Length
    modifies dst
    ensures n == Size(e.kind)
    ensures Known(e.kind) ==> dst[..] == old(dst[..off]) + Encode(Carried(e)) + old(dst[off + n..])
    ensures e.kind == 1 ==> dst[off] == 1 && dst[off + 9] == if e.side == Buy then 0 else 1
    ensures !Known(e.kind) ==> dst[..] == old(dst[..])[off := e.kind]
  {
    ghost var before := dst[..];
    dst[off] := e.kind;
    if e.kind == ADD || e.kind == CANCEL || e.kind == EXECUTE || e.kind == SNAPSHOT {
      hide Struct, Encode;
      StructIsWire(e, littleEndian);
      var body := Struct(e, littleEndian);
      ghost var was := dst[..];
      CopyInto(dst, off + 1, body);
      n := 1 + |body|;
      Spliced(before, off, e.kind, body, was, dst[..]);
      hide Size, Carried;
      if e.kind == 1 {
        SideOnWire(before[..off], e, before[off + n..], dst[..]);
      }
    } else {
      n := 0;
    }
  }

  /** Decode one message; 0 bytes used on an unknown type or too few bytes. */
  method UnpackMsg(src: array<byte>, off: nat, avail: nat, littleEndian: bool) returns (used: nat, out: Message)
    requires off + avail <= src.Length
    ensures
      var r := Decode(src[off..off + avail]);
      if r.None? then used == 0 else used == Size(r.value.kind) > 0 && out == r.value
  {
    hide FieldValue, Value;
    used, out := 0, BLANK;
    if avail < 1 {
      return;
    }
    ghost var bs := src[off..off + avail];
    var kind := src[off];
    assert bs[0] == kind;
    if kind == ADD {
      if avail < 34 { return; }
      var id := ReadField(src, off, avail, 1, littleEndian);
      var price := ReadField(src, off, avail, 10, littleEndian);
      var qty := ReadField(src, off, avail, 18, littleEndian);
      var ns := ReadField(src, off, avail, 26, littleEndian);
      out := out.(kind := kind, orderId := id, side := src[off + 9], price := ToSigned(price), qty := qty,
        eventNs := ns);
      used := 34;
    } else if kind == CANCEL {
      if avail < 17 { return; }
      var id := ReadField(src, off, avail, 1, littleEndian);
      var ns := ReadField(src, off, avail, 9, littleEndian);
      out := out.(kind := kind, orderId := id, eventNs := ns);
      used := 17;
    } else if kind == EXECUTE {
      if avail < 33 { return; }
      var id := ReadField(src, off, avail, 1, littleEndian);
      var price := ReadField(src, off, avail, 9, littleEndian);
      var qty := ReadField(src, off, avail, 17, littleEndian);
      var ns := ReadField(src, off, avail, 25, littleEndian);
      out := out.(kind := kind, orderId := id, price := ToSigned(price), qty := qty, eventNs := ns);
      used := 33;
    } else if kind == SNAPSHOT {
      if avail < 42 { return; }
      var bid := ReadField(src, off, avail, 2, littleEndian);
      var bidQty := ReadField(src, off, avail, 10, littleEndian);
      var ask := ReadField(src, off, avail, 18, littleEndian);
      var askQty := ReadField(src, off, avail, 26, littleEndian);
      var ns := ReadField(src, off, avail, 34, littleEndian);
      out := out.(kind := kind, flags := src[off + 1], bid := ToSigned(bid), bidQty := bidQty,
                  ask := ToSigned(ask), askQty := askQty, eventNs := ns);
      used := 42;
    }
  }

  method ReadField(src: array<byte>, off: nat, avail: nat, at: nat, littleEndian: bool) returns (n: U64)
    requires off + avail <= src.Length && at + 8 <= avail
    ensures n == WordAt(src[off..off + avail], at)
  {
    var bs := src[off + at..off + at + 8];
    FieldIsValue(bs, littleEndian);
    assert bs == src[off..off + avail][at..at + 8];
    n := FieldValue(bs, littleEndian);
  }

  // ----- packets -----

  predicate AllKnown(es: seq<Event>) {
    forall i :: 0 <= i < |es| ==> Known(es[i].kind)
  }

  /** The messages of a batch, one after the other. */
  function Body(es: seq<Event>): seq<byte> {
    if es == [] then [] else Encode(Carried(es[0])) + Body(es[1..])
  }

  function Header(count: byte, nbytes: nat, pktSeq: nat, sendNs: U64): (bs: seq<byte>)
    ensures |bs| == HEADER_BYTES
  {
    BigEndian(MAGIC, 4) + [VERSION] + [count] + BigEndian(nbytes % 65536, 2) + Word(pktSeq % TWO_TO_THE_64)
      + Word(sendNs)
  }

  /** The uint8_t that counts a batch. */
  function CountByte(n: nat): byte {
    (n % 256) as byte
  }

  function Packet(es: seq<Event>, pktSeq: nat, sendNs: U64): seq<byte> {
    Header(CountByte(|es|), |Body(es)|, pktSeq, sendNs) + Body(es)
  }

  /** How many of the waiting events the batching loop takes: it stops after 64, or when
      the largest message might not fit any more. */
  function BatchLen(es: seq<Event>, count: nat, off: nat): (n: nat)
    ensures n <= |es|
  {
    if es == [] || count >= MAX_BATCH || off + MAX_MSG_BYTES > UDP_PAYLOAD then 0
    else 1 + BatchLen(es[1..], count + 1, off + Size(es[0].kind))
  }

  /** A batch is within the packet, never empty when something waits, and as long as the
      loop allows. */
  lemma {:induction false} BatchFits(es: seq<Event>, count: nat, off: nat)
    requires AllKnown(es) && count <= MAX_BATCH && off <= UDP_PAYLOAD
    ensures
      var n := BatchLen(es, count, off);
      && n <= |es| && count + n <= MAX_BATCH && off + |Body(es[..n])| <= UDP_PAYLOAD
      && (n < |es| ==> count + n == MAX_BATCH || off + |Body(es[..n])| + MAX_MSG_BYTES > UDP_PAYLOAD)
  {
    if !(es == [] || count >= MAX_BATCH || off + MAX_MSG_BYTES > UDP_PAYLOAD) {
      var n := BatchLen(es, count, off);
      BatchFits(es[1..], count + 1, off + Size(es[0].kind));
      assert es[..n][1..] == es[1..][..n - 1];
    }
  }

  lemma {:induction false} BodyAppend(es: seq<Event>, e: Event)
    ensures Body(es + [e]) == Body(es) + Encode(Carried(e))
  {
    if es == [] {
      assert [e][1..] == [];
      assert [] + [e] == [e];
    } else {
      assert (es + [e])[1..] == es[1..] + [e];
      BodyAppend(es[1..], e);
    }
  }

  // ----- parsing a datagram -----

  datatype Parsed = Parsed(messages: seq<Message>, bad: bool)

  /** Up to `count` messages from the front of `bs`; stops at the first malformed one. */
  function ParseMessages(bs: seq<byte>, count: nat): Parsed {
    if count == 0 then Parsed([], false)
    else
      var r := Decode(bs);
      if r.None? then Parsed([], true)
      else
        var p := ParseMessages(bs[Size(r.value.kind)..], count - 1);
        Parsed([r.value] + p.messages, p.bad)
  }

  /** What poll_once makes of a datagram. */
  datatype Received = Received(messages: seq<Message>, bad: nat, packets: nat)

  function Receive(bs: seq<byte>): Received {
    if |bs| < HEADER_BYTES || Value(bs[..4]) != MAGIC || bs[4] != VERSION then Received([], 1, 0)
    else
      var p := ParseMessages(bs[HEADER_BYTES..], bs[5] as nat);
      Received(p.messages, if p.bad then 1 else 0, 1)
  }

  function AllCarried(es: seq<Event>): seq<Message> {
    seq(|es|, i requires 0 <= i < |es| => Carried(es[i]))
  }

  lemma CarriedCanonical(e: Event)
    requires Known(e.kind)
    ensures Canonical(Carried(e)) && Carried(e).kind == e.kind
  {
  }

  lemma ParseFirst(m: Message, rest: seq<byte>, count: nat)
    requires Canonical(m) && count > 0
    ensures
      var p := ParseMessages(rest, count - 1);
      ParseMessages(Encode(m) + rest, count) == Parsed([m] + p.messages, p.bad)
  {
    hide Encode, Decode, Canonical;
    DecodeEncode(m, rest);
    assert (Encode(m) + rest)[Size(m.kind)..] == rest;
  }

  lemma {:induction false} ParseBody(es: seq<Event>, rest: seq<byte>)
    requires AllKnown(es)
    ensures ParseMessages(Body(es) + rest, |es|) == Parsed(AllCarried(es), false)
  {
    hide Encode, Carried, ParseMessages, Canonical, Body, AllCarried;
    FirstOfBatch(es, rest);
    if es == [] {
      NothingToParse(rest);
    } else {
      CarriedCanonical(es[0]);
      ParseFirst(Carried(es[0]), Body(es[1..]) + rest, |es|);
      ParseBody(es[1..], rest);
    }
  }

  lemma NothingToParse(rest: seq<byte>)
    ensures ParseMessages(rest, 0) == Parsed([], false)
  {
  }

  lemma FirstOfBatch(es: seq<Event>, rest: seq<byte>)
    ensures es == [] ==> Body(es) + rest == rest && AllCarried(es) == []
    ensures es != [] ==>
              && Body(es) + rest == Encode(Carried(es[0])) + (Body(es[1..]) + rest)
              && AllCarried(es) == [Carried(es[0])] + AllCarried(es[1..])
  {
    hide Encode, Carried;
  }

  lemma HeaderFields(count: byte, nbytes: nat, pktSeq: nat, sendNs: U64, rest: seq<byte>)
    ensures
      var bs := Header(count, nbytes, pktSeq, sendNs) + rest;
      && Value(bs[..4]) == MAGIC && bs[4] == VERSION && bs[5] == count
      && Value(bs[6..8]) == nbytes % 65536 && WordAt(bs, 8) == pktSeq % TWO_TO_THE_64 && WordAt(bs, 16) == sendNs
      && bs[HEADER_BYTES..] == rest
  {
    var bs := Header(count, nbytes, pktSeq, sendNs) + rest;
    SmallPowers();
    HeaderPieces(count, nbytes, pktSeq, sendNs, rest);
    hide Header, Value, BigEndian, Word, WordAt;
    ValueOfBytes(MAGIC, 4);
    ValueOfBytes(nbytes % 65536, 2);
    WordsOf(bs, 8, pktSeq % TWO_TO_THE_64);
    WordsOf(bs, 16, sendNs);
  }

  lemma SmallPowers()
    ensures Pow256(4) == 0x1_0000_0000 && Pow256(2) == 65536
  {
    assert Pow256(2) == 256 * Pow256(1) && Pow256(1) == 256 * Pow256(0);
  }

  lemma HeaderPieces(count: byte, nbytes: nat, pktSeq: nat, sendNs: U64, rest: seq<byte>)
    ensures
      var bs := Header(count, nbytes, pktSeq, sendNs) + rest;
      && bs[..4] == BigEndian(MAGIC, 4) && bs[4] == VERSION && bs[5] == count
      && bs[6..8] == BigEndian(nbytes % 65536, 2) && bs[8..16] == Word(pktSeq % TWO_TO_THE_64)
          && bs[16..24] == Word(sendNs)
      && bs[HEADER_BYTES..] == rest
  {
    hide BigEndian, Word;
  }

  /** Receiving a packet gives exactly what its events carry, signed prices included. */
  lemma ReceiveInvertsPacket(es: seq<Event>, pktSeq: nat, sendNs: U64)
    requires AllKnown(es) && |es| < 256
    ensures Receive(Packet(es, pktSeq, sendNs)) == Received(AllCarried(es), 0, 1)
  {
    hide Header, ParseMessages, Value, Body, BigEndian, Decode, AllCarried;
    HeaderFields(CountByte(|es|), |Body(es)|, pktSeq, sendNs, Body(es));
    ParseBody(es, []);
    assert Body(es) + [] == Body(es);
  }

  // ----- the publisher -----

  /** The messages a receiver gets out of a sequence of packets. */
  function AllReceived(packets: seq<seq<byte>>): seq<Message> {
    if packets == [] then [] else AllReceived(packets[..|packets| - 1]) + Receive(packets[|packets| - 1]).messages
  }

  /** A datagram the publisher may form with number `k`. */
  predicate GoodPacket(bs: seq<byte>, k: nat) {
    && HEADER_BYTES < |bs| <= UDP_PAYLOAD
    && Value(bs[..4]) == MAGIC && bs[4] == VERSION && 1 <= bs[5] as nat <= MAX_BATCH
    && Value(bs[6..8]) == |bs| - HEADER_BYTES
    && WordAt(bs, 8) == k % TWO_TO_THE_64
    && Receive(bs).bad == 0 && |Receive(bs).messages| == bs[5] as nat
  }

  lemma PacketIsGood(es: seq<Event>, k: nat, sendNs: U64)
    requires AllKnown(es) && 1 <= |es| <= MAX_BATCH && HEADER_BYTES + |Body(es)| <= UDP_PAYLOAD
    ensures GoodPacket(Packet(es, k, sendNs), k)
    ensures Receive(Packet(es, k, sendNs)).messages == AllCarried(es)
  {
    hide Packet, Value, WordAt, Receive, AllCarried, AllKnown;
    ReceiveInvertsPacket(es, k, sendNs);
    PacketFields(es, k, sendNs);
    CarriedCount(es);
  }

  lemma PacketFields(es: seq<Event>, k: nat, sendNs: U64)
    requires AllKnown(es) && 1 <= |es| <= MAX_BATCH && HEADER_BYTES + |Body(es)| <= UDP_PAYLOAD
    ensures
      var bs := Packet(es, k, sendNs);
      && HEADER_BYTES < |bs| <= UDP_PAYLOAD
      && Value(bs[..4]) == MAGIC && bs[4] == VERSION && bs[5] as nat == |es|
      && Value(bs[6..8]) == |bs| - HEADER_BYTES && WordAt(bs, 8) == k % TWO_TO_THE_64
  {
    BodyNonEmpty(es);
    SmallCounts(|es|, |Body(es)|);
    hide Value, Body, WordAt, AllKnown, Header, BigEndian, Word, CountByte;
    HeaderFields(CountByte(|es|), |Body(es)|, k, sendNs, Body(es));
  }

  lemma SmallCounts(count: nat, nbytes: nat)
    requires count <= MAX_BATCH && nbytes <= UDP_PAYLOAD
    ensures CountByte(count) as nat == count && nbytes % 65536 == nbytes
  {
  }

  lemma CarriedCount(es: seq<Event>)
    ensures |AllCarried(es)| == |es|
  {
  }

  lemma BodyNonEmpty(es: seq<Event>)
    requires AllKnown(es) && es != []
    ensures |Body(es)| > 0
  {
    CarriedCanonical(es[0]);
  }

  lemma CarriedAppend(a: seq<Event>, b: seq<Event>)
    ensures AllCarried(a + b) == AllCarried(a) + AllCarried(b)
  {
  }

  lemma ReceivedAppend(packets: seq<seq<byte>>, bs: seq<byte>)
    ensures AllReceived(packets + [bs]) == AllReceived(packets) + Receive(bs).messages
  {
    assert (packets + [bs])[..|packets|] == packets;
  }

  // ----- a whole stream -----

  /** One turn of the publisher thread: how much of the ring it saw, and when it sent. */
  datatype Turn = Turn(visible: nat, sendNs: U64)

  /** What a turn takes from the waiting events. */
  function Taken(es: seq<Event>, turn: Turn): (n: nat)
    ensures n <= |es|
  {
    BatchLen(if turn.visible <= |es| then es[..turn.visible] else es, 0, HEADER_BYTES)
  }

  /** The packets formed from `es` in the given turns, numbered from `k`. */
  function PacketsOf(es: seq<Event>, turns: seq<Turn>, k: nat): seq<seq<byte>>
    decreases |turns|
  {
    if turns == [] then []
    else
      var n := Taken(es, turns[0]);
      if n == 0 then PacketsOf(es, turns[1..], k)
      else [Packet(es[..n], k, turns[0].sendNs)] + PacketsOf(es[n..], turns[1..], k + 1)
  }

  /** How many events those turns take. */
  function TakenBy(es: seq<Event>, turns: seq<Turn>): (n: nat)
    ensures n <= |es|
    decreases |turns|
  {
    if turns == [] then 0
    else
      var n := Taken(es, turns[0]);
      n + TakenBy(es[n..], turns[1..])
  }

  lemma {:induction false} ReceivedFirst(bs: seq<byte>, packets: seq<seq<byte>>)
    ensures AllReceived([bs] + packets) == Receive(bs).messages + AllReceived(packets)
    decreases |packets|
  {
    hide Receive;
    if packets == [] {
      assert ([bs] + packets)[..0] == [] && [bs] + packets == [bs];
      assert Receive(bs).messages + [] == Receive(bs).messages;
    } else {
      var n := |packets| - 1;
      assert ([bs] + packets)[..|[bs] + packets| - 1] == [bs] + packets[..n];
      ReceivedFirst(bs, packets[..n]);
    }
  }

  lemma TurnIsGood(es: seq<Event>, turn: Turn, k: nat)
    requires AllKnown(es) && Taken(es, turn) > 0
    ensures
      var bs := Packet(es[..Taken(es, turn)], k, turn.sendNs);
      GoodPacket(bs, k) && Receive(bs).messages == AllCarried(es[..Taken(es, turn)])
  {
    var seen := if turn.visible <= |es| then es[..turn.visible] else es;
    BatchFits(seen, 0, HEADER_BYTES);
    assert seen[..Taken(es, turn)] == es[..Taken(es, turn)];
    hide GoodPacket, Packet, Receive, AllCarried;
    PacketIsGood(es[..Taken(es, turn)], k, turn.sendNs);
  }

  /** The stream round trip: however the events are cut into packets by the batching loop,
      receiving the packets in order gives back what the events taken carry, in order; every
      packet is well formed and within the payload, and they are numbered consecutively. */
  lemma {:induction false} StreamRoundTrip(es: seq<Event>, turns: seq<Turn>, k: nat)
    requires AllKnown(es)
    ensures AllReceived(PacketsOf(es, turns, k)) == AllCarried(es[..TakenBy(es, turns)])
    ensures forall i :: 0 <= i < |PacketsOf(es, turns, k)| ==> GoodPacket(PacketsOf(es, turns, k)[i], k + i)
    decreases |turns|
  {
    hide GoodPacket, Packet, Receive, Taken;
    if turns == [] {
      assert es[..0] == [];
    } else {
      hide AllReceived, AllCarried;
      var n := Taken(es, turns[0]);
      var m := TakenBy(es[n..], turns[1..]);
      if n == 0 {
        assert es[0..] == es;
        StreamRoundTrip(es, turns[1..], k);
      } else {
        var bs, rest := Packet(es[..n], k, turns[0].sendNs), PacketsOf(es[n..], turns[1..], k + 1);
        StreamRoundTrip(es[n..], turns[1..], k + 1);
        TurnIsGood(es, turns[0], k);
        ReceivedFirst(bs, rest);
        CarriedAppend(es[..n], es[n..][..m]);
        assert es[..n] + es[n..][..m] == es[..n + m];
        assert PacketsOf(es, turns, k) == [bs] + rest;
      }
    }
  }

  /** `q` is `q0` with one more event at the end, which carries `m`. */
  predicate PutLast(q0: seq<Event>, q: seq<Event>, m: Message) {
    |q| == |q0| + 1 && q[..|q0|] == q0 && Carried(q[|q0|]) == m
  }

  lemma PutOne(q0: seq<Event>, e: Event)
    ensures PutLast(q0, q0 + [e], Carried(e)) && (q0 + [e])[|q0|..] == [e]
  {
  }

  /** The snapshot message for an inside market. */
  function SnapshotOf(bid: Option<I64>, bidQty: U64, ask: Option<I64>, askQty: U64, ns: U64): (m: Message)
    ensures (m.flags % 2 == 1 <==> bid.Some?) && (m.flags >= 2 <==> ask.Some?) && m.flags < 4
  {
    BLANK.(kind := SNAPSHOT, eventNs := ns, flags := (if bid.Some? then 1 else 0) + if ask.Some? then 2 else 0,
           bid := if bid.Some? then bid.value else 0, bidQty := if bid.Some? then bidQty else 0,
           ask := if ask.Some? then ask.value else 0, askQty := if ask.Some? then askQty else 0)
  }

  class Publisher {
    /** The contents of the SPSC ring between the matching thread and the publisher. */
    var queue: seq<Event>
    var pktSeq: nat
    const pkt: array<byte>
    var enqueued: nat
    var dropped: nat
    ghost var accepted: seq<Event>
    ghost var popped: seq<Event>
    ghost var packets: seq<seq<byte>>

    /** Nothing accepted is lost before a packet is formed, packets are numbered without
        gaps and within the payload, and receiving them all gives what was popped. */
    ghost predicate Valid()
      reads this
    {
      && pkt.Length == UDP_PAYLOAD
      && accepted == popped + queue && AllKnown(queue) && enqueued == |accepted|
      && |packets| == pktSeq
      && (forall k: nat :: k < |packets| ==> GoodPacket(packets[k], k))
      && AllReceived(packets) == AllCarried(popped)
    }

    constructor ()
      ensures Valid() && fresh(pkt) && accepted == popped == [] && packets == []
    {
      queue, pktSeq, enqueued, dropped := [], 0, 0, 0;
      pkt := new byte[UDP_PAYLOAD];
      accepted, popped, packets := [], [], [];
    }

    /** enqueue; `refused` is the outcome of the push, which must fail on a full ring. */
    method Enqueue(e: Event, refused: bool) returns (ok: bool)
      requires Valid() && Known(e.kind) && (|queue| >= QUEUE_CAPACITY ==> refused)
      modifies this`queue, this`enqueued, this`dropped, this`accepted
      ensures Valid() && ok == !refused
      ensures ok ==> queue == old(queue) + [e] && accepted == old(accepted) + [e] && dropped == old(dropped)
      ensures !ok ==> queue == old(queue) && accepted == old(accepted) && dropped == old(dropped) + 1
    {
      if refused {
        dropped := dropped + 1;
        return false;
      }
      assert popped + (queue + [e]) == (popped + queue) + [e];
      queue := queue + [e];
      accepted := accepted + [e];
      enqueued := enqueued + 1;
      ok := true;
    }

    method TryPublishAdd(id: U64, side: Side, px: I64, qty: U64, ns: U64, refused: bool) returns (ok: bool)
      requires Valid() && (|queue| >= QUEUE_CAPACITY ==> refused)
      modifies this`queue, this`enqueued, this`dropped, this`accepted
      ensures Valid() && ok == !refused
      ensures ok ==>
                && PutLast(old(queue), queue,
                    BLANK.(kind := 1, orderId := id, side := if side == Buy then 0 else 1, price := px, qty := qty,
                      eventNs := ns))
                && accepted == old(accepted) + queue[|old(queue)|..] && dropped == old(dropped)
      ensures !ok ==> queue == old(queue) && accepted == old(accepted) && dropped == old(dropped) + 1
    {
      var e := Event(ADD, side, id, px, qty, 0, 0, 0, 0, 0, ns);
      PutOne(queue, e);
      ok := Enqueue(e, refused);
    }

    method TryPublishCancel(id: U64, ns: U64, refused: bool) returns (ok: bool)
      requires Valid() && (|queue| >= QUEUE_CAPACITY ==> refused)
      modifies this`queue, this`enqueued, this`dropped, this`accepted
      ensures Valid() && ok == !refused
      ensures ok ==>
                && PutLast(old(queue), queue, BLANK.(kind := CANCEL, orderId := id, eventNs := ns))
                && accepted == old(accepted) + queue[|old(queue)|..] && dropped == old(dropped)
      ensures !ok ==> queue == old(queue) && accepted == old(accepted) && dropped == old(dropped) + 1
    {
      var e := Event(CANCEL, Buy, id, 0, 0, 0, 0, 0, 0, 0, ns);
      PutOne(queue, e);
      ok := Enqueue(e, refused);
    }

    method TryPublishExecute(id: U64, px: I64, qty: U64, ns: U64, refused: bool) returns (ok: bool)
      requires Valid() && (|queue| >= QUEUE_CAPACITY ==> refused)
      modifies this`queue, this`enqueued, this`dropped, this`accepted
      ensures Valid() && ok == !refused
      ensures ok ==>
                && PutLast(old(queue), queue,
                    BLANK.(kind := EXECUTE, orderId := id, price := px, qty := qty, eventNs := ns))
                && accepted == old(accepted) + queue[|old(queue)|..] && dropped == old(dropped)
      ensures !ok ==> queue == old(queue) && accepted == old(accepted) && dropped == old(dropped) + 1
    {
      var e := Event(EXECUTE, Buy, id, px, qty, 0, 0, 0, 0, 0, ns);
      PutOne(queue, e);
      ok := Enqueue(e, refused);
    }

    /** try_publish_snapshot, given the inside of the book. */
    method PublishInside(bid: Option<I64>, bidQty: U64, ask: Option<I64>, askQty: U64, ns: U64, refused: bool)
      returns (ok: bool)
      requires Valid() && (|queue| >= QUEUE_CAPACITY ==> refused)
      modifies this`queue, this`enqueued, this`dropped, this`accepted
      ensures Valid() && ok == !refused
      ensures ok ==>
                && PutLast(old(queue), queue, SnapshotOf(bid, bidQty, ask, askQty, ns))
                && accepted == old(accepted) + queue[|old(queue)|..] && dropped == old(dropped)
      ensures !ok ==> queue == old(queue) && accepted == old(accepted) && dropped == old(dropped) + 1
    {
      var e := Event(SNAPSHOT, Buy, 0, 0, 0, 0, 0, 0, 0, 0, ns);
      if bid.Some? {
        e := e.(flags := 1, bid := bid.value, bidQty := bidQty);
      }
      if ask.Some? {
        e := e.(flags := e.flags + 2, ask := ask.value, askQty := askQty);
      }
      PutOne(queue, e);
      ok := Enqueue(e, refused);
    }

    /** The inner loop: pop and pack until the batch is complete. The ring shows `visible`
        of its events to this turn. */
    method FillBatch(visible: nat, littleEndian: bool) returns (count: nat, off: nat)
      requires pkt.Length == UDP_PAYLOAD && AllKnown(queue) && visible <= |queue|
      modifies this`queue, pkt
      ensures count == BatchLen(old(queue)[..visible], 0, HEADER_BYTES) <= MAX_BATCH
      ensures queue == old(queue)[count..]
      ensures HEADER_BYTES <= off <= UDP_PAYLOAD && pkt[HEADER_BYTES..off] == Body(old(queue)[..count])
    {
      hide BatchLen, Body;
      ghost var q0 := queue;
      off, count := HEADER_BYTES, 0;
      BatchStart(q0, visible);
      while count < MAX_BATCH && off + MAX_MSG_BYTES <= UDP_PAYLOAD && count < visible
        invariant count <= visible <= |q0| && count <= MAX_BATCH && HEADER_BYTES <= off <= UDP_PAYLOAD
        invariant queue == q0[count..]
        invariant pkt[HEADER_BYTES..off] == Body(q0[..count])
        invariant BatchLen(q0[..visible], 0, HEADER_BYTES) == count + BatchLen(q0[count..visible], count, off)
        decreases visible - count
      {
        BatchStep(q0, count, visible, off);
        var ev := queue[0];
        queue := queue[1..];
        ghost var was := pkt[..];
        var size := PackMsg(pkt, off, ev, littleEndian);
        if size == 0 {
          assert false;
        }
        Packed(was, pkt[..], off, Encode(Carried(ev)));
        BodyGrows(q0, count);
        off := off + size;
        count := count + 1;
      }
      BatchStop(q0, visible, count, off);
    }

    /** One turn of thread_main. */
    method BatchTurn(visible: nat, sendNs: U64, littleEndian: bool) returns (sent: Option<seq<byte>>)
      requires Valid() && visible <= |queue|
      modifies this`queue, this`pktSeq, this`popped, this`packets, pkt
      ensures Valid() && accepted == old(accepted)
      ensures
        var batch := old(queue)[..BatchLen(old(queue)[..visible], 0, HEADER_BYTES)];
        && queue == old(queue)[|batch|..] && popped == old(popped) + batch
        && (batch == [] <==> visible == 0)
        && (batch == [] ==> sent == None && pktSeq == old(pktSeq) && packets == old(packets))
        && (batch != [] ==>
              && sent == Some(Packet(batch, old(pktSeq), sendNs))
              && pktSeq == old(pktSeq) + 1 && packets == old(packets) + [sent.value])
    {
      hide GoodPacket, Packet, AllReceived, AllCarried, BatchLen, Body;
      ghost var q0 := queue;
      BatchOf(q0, visible);
      var count, off := FillBatch(visible, littleEndian);
      ghost var batch := q0[..count];
      assert q0 == batch + q0[count..];
      if count == 0 {
        Unchanged(q0, popped);
        return None;
      }
      var header := Header(CountByte(count), off - HEADER_BYTES, pktSeq, sendNs);
      ghost var was := pkt[..];
      CopyInto(pkt, 0, header);
      var bytes := pkt[..off];
      HeaderInFront(was, pkt[..], header, off);
      PacketOf(batch, pktSeq, sendNs, bytes);
      Formed(popped, packets, batch, bytes);
      assert (popped + batch) + q0[count..] == popped + q0;
      pktSeq := pktSeq + 1;
      popped := popped + batch;
      packets := packets + [bytes];
      sent := Some(bytes);
    }
  }

  lemma Packed(was: seq<byte>, now: seq<byte>, off: nat, bs: seq<byte>)
    requires HEADER_BYTES <= off && off + |bs| <= |was| && now == was[..off] + bs + was[off + |bs|..]
    ensures now[HEADER_BYTES..off + |bs|] == was[HEADER_BYTES..off] + bs
  {
  }

  lemma BodyGrows(q: seq<Event>, n: nat)
    requires n < |q|
    ensures Body(q[..n + 1]) == Body(q[..n]) + Encode(Carried(q[n]))
  {
    assert q[..n + 1] == q[..n] + [q[n]];
    BodyAppend(q[..n], q[n]);
  }

  lemma HeaderInFront(was: seq<byte>, now: seq<byte>, header: seq<byte>, off: nat)
    requires |header| == HEADER_BYTES <= off <= |was| && now == was[..0] + header + was[|header|..]
    ensures now[..off] == header + was[HEADER_BYTES..off]
  {
  }

  lemma Unchanged(q: seq<Event>, popped: seq<Event>)
    ensures q[..0] == [] && q[0..] == q && popped + [] == popped
  {
  }

  lemma BatchOf(q: seq<Event>, visible: nat)
    requires AllKnown(q) && visible <= |q|
    ensures BatchLen(q[..visible], 0, HEADER_BYTES) <= visible
    ensures HEADER_BYTES + |Body(q[..BatchLen(q[..visible], 0, HEADER_BYTES)])| <= UDP_PAYLOAD
    ensures BatchLen(q[..visible], 0, HEADER_BYTES) == 0 <==> visible == 0
  {
    BatchFits(q[..visible], 0, HEADER_BYTES);
    var n := BatchLen(q[..visible], 0, HEADER_BYTES);
    assert q[..visible][..n] == q[..n];
  }

  lemma BatchStart(q: seq<Event>, visible: nat)
    requires visible <= |q|
    ensures q[0..] == q && q[0..visible] == q[..visible] && Body(q[..0]) == []
  {
  }

  lemma BatchStep(q: seq<Event>, count: nat, visible: nat, off: nat)
    requires count < visible <= |q| && AllKnown(q)
    requires count < MAX_BATCH && off + MAX_MSG_BYTES <= UDP_PAYLOAD
    ensures BatchLen(q[count..visible], count, off)
        == 1 + BatchLen(q[count + 1..visible], count + 1, off + Size(q[count].kind))
    ensures q[count..][0] == q[count] && q[count..][1..] == q[count + 1..] && Known(q[count].kind)
        && Size(q[count].kind) > 0
  {
    assert q[count..visible][1..] == q[count + 1..visible];
  }

  lemma BatchStop(q: seq<Event>, visible: nat, count: nat, off: nat)
    requires count <= visible <= |q|
    requires !(count < MAX_BATCH && off + MAX_MSG_BYTES <= UDP_PAYLOAD && count < visible)
    ensures BatchLen(q[count..visible], count, off) == 0
  {
  }

  lemma PacketOf(es: seq<Event>, k: nat, sendNs: U64, bytes: seq<byte>)
    requires AllKnown(es) && 1 <= |es| <= MAX_BATCH && HEADER_BYTES + |Body(es)| <= UDP_PAYLOAD
    requires bytes == Header(CountByte(|es|), |Body(es)|, k, sendNs) + Body(es)
    ensures bytes == Packet(es, k, sendNs) && GoodPacket(bytes, k) && Receive(bytes).messages == AllCarried(es)
  {
    hide GoodPacket, Receive, Header, Body, AllCarried;
    PacketIsGood(es, k, sendNs);
  }

  lemma Formed(popped: seq<Event>, packets: seq<seq<byte>>, batch: seq<Event>, bytes: seq<byte>)
    requires AllReceived(packets) == AllCarried(popped) && Receive(bytes).messages == AllCarried(batch)
    ensures AllReceived(packets + [bytes]) == AllCarried(popped + batch)
  {
    hide AllReceived, AllCarried;
    ReceivedAppend(packets, bytes);
    CarriedAppend(popped, batch);
  }

  // ----- the receiver -----

  class Receiver {
    var packets: nat
    var messages: nat
    var bad: nat
    var last: Message

    constructor ()
      ensures packets == messages == bad == 0 && last == BLANK
    {
      packets, messages, bad, last := 0, 0, 0, BLANK;
    }

    /** poll_once after recvfrom put a datagram of `n` bytes into `buf`; `got` lists the
        messages in the order in which they became `last`. */
    method PollOnce(buf: array<byte>, n: nat, littleEndian: bool) returns (decoded: nat, ghost got: seq<Message>)
      requires n <= buf.Length
      modifies this
      ensures
        var r := Receive(buf[..n]);
        && got == r.messages && decoded == |r.messages|
        && packets == old(packets) + r.packets && messages == old(messages) + decoded && bad == old(bad) + r.bad
        && last == if got == [] then old(last) else got[|got| - 1]
      ensures n < 24 || buf[4] != 1 ==>
                decoded == 0 && last == old(last) && packets == old(packets) && bad == old(bad) + 1
    {
      hide Decode, Value, FieldValue;
      decoded, got := 0, [];
      assert n >= HEADER_BYTES ==> buf[..n][HEADER_BYTES..] == buf[HEADER_BYTES..n];
      if n < HEADER_BYTES {
        bad := bad + 1;
        return;
      }
      var magic := ReadMagic(buf, n, littleEndian);
      if magic != MAGIC || buf[4] != VERSION {
        bad := bad + 1;
        return;
      }
      var broken;
      decoded, got, broken := ParseLoop(buf, n, buf[5] as nat, littleEndian);
      if broken {
        bad := bad + 1;
      }
      packets := packets + 1;
      messages := messages + decoded;
    }

    /** The message loop: it stops at the first malformed message. */
    method ParseLoop(buf: array<byte>, n: nat, count: nat, littleEndian: bool)
      returns (decoded: nat, ghost got: seq<Message>, broken: bool)
      requires HEADER_BYTES <= n <= buf.Length
      modifies this`last
      ensures ParseMessages(buf[HEADER_BYTES..n], count) == Parsed(got, broken) && decoded == |got|
      ensures last == if got == [] then old(last) else got[|got| - 1]
    {
      hide Decode, ParsedSoFar, ParseMessages;
      decoded, got, broken := 0, [], false;
      var off := HEADER_BYTES;
      ghost var target := ParseMessages(buf[off..n], count);
      ParseStart(buf[off..n], count);
      var i := 0;
      while i < count
        invariant 0 <= i <= count && decoded == i == |got| && HEADER_BYTES <= off <= n
        invariant last == if got == [] then old(last) else got[|got| - 1]
        invariant ParsedSoFar(target, got, buf[off..n], count - i)
      {
        ghost var avail := buf[off..n];
        var used, d := UnpackMsg(buf, off, n - off, littleEndian);
        assert buf[off..off + (n - off)] == avail;
        if used == 0 {
          ParseBroken(target, got, avail, count - i);
          broken := true;
          return;
        }
        DecodedFits(avail);
        assert avail[used..] == buf[off + used..n];
        ParseStep(target, got, avail, count - i);
        off := off + used;
        last := d;
        got := got + [d];
        decoded := decoded + 1;
        i := i + 1;
      }
      ParseEnd(target, got, buf[off..n]);
    }

    method ReadMagic(buf: array<byte>, n: nat, littleEndian: bool) returns (m: nat)
      requires HEADER_BYTES <= n <= buf.Length
      ensures m == Value(buf[..n][..4])
    {
      var bs := buf[..4];
      assert bs == buf[..n][..4];
      m := Bswap(Value(if littleEndian then Reverse(bs) else bs), 4, littleEndian);
      if littleEndian {
        BytesOfValue(Reverse(bs));
        ReverseTwice(bs);
      }
    }
  }

  /** `got` was read, and what `bs` still gives completes `target`. */
  predicate ParsedSoFar(target: Parsed, got: seq<Message>, bs: seq<byte>, count: nat) {
    var p := ParseMessages(bs, count);
    target == Parsed(got + p.messages, p.bad)
  }

  lemma ParseStart(bs: seq<byte>, count: nat)
    ensures ParsedSoFar(ParseMessages(bs, count), [], bs, count)
  {
    var p := ParseMessages(bs, count);
    assert [] + p.messages == p.messages;
    hide ParseMessages;
  }

  lemma ParseStep(target: Parsed, got: seq<Message>, bs: seq<byte>, count: nat)
    requires ParsedSoFar(target, got, bs, count)
    requires count > 0 && Decode(bs).Some? && Size(Decode(bs).value.kind) <= |bs|
    ensures
      var d := Decode(bs).value;
      ParsedSoFar(target, got + [d], bs[Size(d.kind)..], count - 1)
  {
    hide Decode;
    var d := Decode(bs).value;
    var rest := ParseMessages(bs[Size(d.kind)..], count - 1);
    assert got + ([d] + rest.messages) == (got + [d]) + rest.messages;
  }

  lemma ParseBroken(target: Parsed, got: seq<Message>, bs: seq<byte>, count: nat)
    requires ParsedSoFar(target, got, bs, count) && count > 0 && Decode(bs).None?
    ensures target == Parsed(got, true)
  {
    hide Decode;
    assert got + [] == got;
  }

  lemma ParseEnd(target: Parsed, got: seq<Message>, bs: seq<byte>)
    requires ParsedSoFar(target, got, bs, 0)
    ensures target == Parsed(got, false)
  {
    hide Decode;
    assert got + [] == got;
  }

  lemma DecodedFits(bs: seq<byte>)
    ensures Decode(bs).Some? ==> 0 < Size(Decode(bs).value.kind) <= |bs|
  {
    if Decode(bs).Some? {
      EncodeDecode(bs);
    }
  }
}
