// The bytes on the wire, position by position: the layouts of net/itch_protocol.hpp and what
// net/md_receiver.cpp refuses, with every constant of the format written out.
module Wire {
  import opened Arith
  import opened LobTypes
  import opened Itch
  import opened MarketData

  // ----- numbers -----

  /** The first byte is the most significant one. */
  lemma {:induction false} FirstByteWeighsMost(b: byte, rest: seq<byte>)
    ensures Value([b] + rest) == b as nat * Pow256(|rest|) + Value(rest)
  {
    if rest == [] {
      assert [b] + rest == [b] && [b][..0] == [];
    } else {
      var n := |rest| - 1;
      assert ([b] + rest)[..n + 1] == [b] + rest[..n];
      FirstByteWeighsMost(b, rest[..n]);
      assert b as nat * Pow256(n + 1) == 256 * (b as nat * Pow256(n));
    }
  }

  /** Two's complement: a signed number and what stands for it differ by a multiple of 2^64. */
  lemma TwosComplement(p: I64, bs: seq<byte>)
    requires bs == Word(ToUnsigned(p))
    ensures |bs| == 8 && Value(bs) == if p >= 0 then p else p + 0x1_0000_0000_0000_0000
    ensures (bs[0] as nat >= 128) <==> p < 0
  {
    WordRoundTrip(ToUnsigned(p));
    ValueBound(bs[1..]);
    assert bs == [bs[0]] + bs[1..];
    FirstByteWeighsMost(bs[0], bs[1..]);
    SevenBytes();
    hide Word, Value, Pow256;
    SignByte(bs[0] as nat, Value(bs[1..]));
  }

  lemma SevenBytes()
    ensures Pow256(7) == 0x100_0000_0000_0000
  {
    assert Pow256(4) == 0x1_0000_0000;
    assert Pow256(6) == 0x1_0000_0000_0000;
  }

  lemma SignByte(b: nat, low: nat)
    requires low < 0x100_0000_0000_0000
    ensures b >= 128 <==> b * 0x100_0000_0000_0000 + low >= 0x8000_0000_0000_0000
  {
  }

  // ----- messages -----

  /** An add: type 1, id, side 0 for buy and 1 for sell, price, quantity, time. */
  lemma AddLayout(e: Event)
    requires e.kind == 1
    ensures
      var bs := Encode(Carried(e));
      && |bs| == 34 && bs[0] == 1
      && Value(bs[1..9]) == e.orderId
      && bs[9] == (if e.side == Buy then 0 else 1)
      && Value(bs[10..18]) == (if e.price >= 0 then e.price else e.price + 0x1_0000_0000_0000_0000)
      && Value(bs[18..26]) == e.qty && Value(bs[26..34]) == e.eventNs
  {
    var m := Carried(e);
    PiecesOfAdd(m, []);
    assert Encode(m) + [] == Encode(m);
    hide Word, Encode, Value;
    WordRoundTrip(m.orderId);
    TwosComplement(m.price, Word(ToUnsigned(m.price)));
    WordRoundTrip(m.qty);
    WordRoundTrip(m.eventNs);
  }

  /** A cancel: type 2, id, time. */
  lemma CancelLayout(e: Event)
    requires e.kind == 2
    ensures
      var bs := Encode(Carried(e));
      && |bs| == 17 && bs[0] == 2 && Value(bs[1..9]) == e.orderId && Value(bs[9..17]) == e.eventNs
  {
    var m := Carried(e);
    PiecesOfCancel(m, []);
    assert Encode(m) + [] == Encode(m);
    hide Word, Encode, Value;
    WordRoundTrip(m.orderId);
    WordRoundTrip(m.eventNs);
  }

  /** An execution: type 3, id, price, quantity, time. */
  lemma ExecuteLayout(e: Event)
    requires e.kind == 3
    ensures
      var bs := Encode(Carried(e));
      && |bs| == 33 && bs[0] == 3
      && Value(bs[1..9]) == e.orderId
      && Value(bs[9..17]) == (if e.price >= 0 then e.price else e.price + 0x1_0000_0000_0000_0000)
      && Value(bs[17..25]) == e.qty && Value(bs[25..33]) == e.eventNs
  {
    var m := Carried(e);
    PiecesOfExecute(m, []);
    assert Encode(m) + [] == Encode(m);
    hide Word, Encode, Value;
    WordRoundTrip(m.orderId);
    TwosComplement(m.price, Word(ToUnsigned(m.price)));
    WordRoundTrip(m.qty);
    WordRoundTrip(m.eventNs);
  }

  /** A snapshot: type 4, flags, bid and its quantity, ask and its quantity, time. */
  lemma SnapshotLayout(e: Event)
    requires e.kind == 4
    ensures
      var bs := Encode(Carried(e));
      && |bs| == 42 && bs[0] == 4 && bs[1] == e.flags
      && Value(bs[2..10]) == (if e.bid >= 0 then e.bid else e.bid + 0x1_0000_0000_0000_0000)
      && Value(bs[10..18]) == e.bidQty
      && Value(bs[18..26]) == (if e.ask >= 0 then e.ask else e.ask + 0x1_0000_0000_0000_0000)
      && Value(bs[26..34]) == e.askQty && Value(bs[34..42]) == e.eventNs
  {
    var m := Carried(e);
    PiecesOfSnapshot(m, []);
    assert Encode(m) + [] == Encode(m);
    hide Word, Encode, Value;
    TwosComplement(m.bid, Word(ToUnsigned(m.bid)));
    WordRoundTrip(m.bidQty);
    TwosComplement(m.ask, Word(ToUnsigned(m.ask)));
    WordRoundTrip(m.askQty);
    WordRoundTrip(m.eventNs);
  }

  // ----- packets -----

  lemma LettersAreMagic(bs: seq<byte>)
    requires |bs| == 4
    ensures Value(bs) == MAGIC <==> bs == [0x49, 0x54, 0x43, 0x48]
  {
    LettersValue();
    if Value(bs) == MAGIC {
      BytesOfValue(bs);
      BytesOfValue([0x49, 0x54, 0x43, 0x48]);
    }
  }

  lemma LettersValue()
    ensures Value([0x49, 0x54, 0x43, 0x48]) == MAGIC
  {
    ValueAppend([], 0x49);
    ValueAppend([0x49], 0x54);
    ValueAppend([0x49, 0x54], 0x43);
    ValueAppend([0x49, 0x54, 0x43], 0x48);
    assert [] + [0x49 as byte] == [0x49];
    assert [0x49 as byte] + [0x54] == [0x49, 0x54];
    assert [0x49 as byte, 0x54] + [0x43] == [0x49, 0x54, 0x43];
    assert [0x49 as byte, 0x54, 0x43] + [0x48] == [0x49, 0x54, 0x43, 0x48];
  }

  lemma ValueAppend(bs: seq<byte>, b: byte)
    ensures Value(bs + [b]) == 256 * Value(bs) + b as nat
  {
    assert (bs + [b])[..|bs|] == bs;
  }

  /** A packet of up to 64 messages: the four letters, version 1, the number of messages, the
      number of bytes behind the header, the packet number, the time, and the messages. */
  lemma PacketLayout(es: seq<Event>, k: nat, sendNs: U64)
    requires AllKnown(es) && |es| <= 64 && |Body(es)| <= 1376
    ensures
      var bs := Packet(es, k, sendNs);
      && 24 <= |bs| <= 1400
      && bs[..4] == [0x49, 0x54, 0x43, 0x48] && bs[4] == 1 && bs[5] as nat == |es|
      && Value(bs[6..8]) == |bs| - 24
      && Value(bs[8..16]) == k % 0x1_0000_0000_0000_0000
      && Value(bs[16..24]) == sendNs
      && bs[24..] == Body(es)
  {
    hide Value, Body, Header, AllKnown;
    SmallCounts(|es|, |Body(es)|);
    HeaderFields(CountByte(|es|), |Body(es)|, k, sendNs, Body(es));
    LettersAreMagic(Packet(es, k, sendNs)[..4]);
  }

  /** Every datagram of the publisher fits 1400 bytes, begins with the four letters and version
      1, announces between 1 and 64 messages, and carries its number modulo 2^64. */
  lemma PublishedPacket(bs: seq<byte>, k: nat)
    requires GoodPacket(bs, k)
    ensures 24 < |bs| <= 1400 && bs[..4] == [0x49, 0x54, 0x43, 0x48] && bs[4] == 1 && 1 <= bs[5] as nat <= 64
    ensures Value(bs[6..8]) == |bs| - 24 && Value(bs[8..16]) == k % 0x1_0000_0000_0000_0000
    ensures Receive(bs).bad == 0 && |Receive(bs).messages| == bs[5] as nat
  {
    LettersAreMagic(bs[..4]);
    hide Value, Receive;
  }

  // ----- what a receiver refuses -----

  /** A datagram is refused if and only if it is shorter than a header, does not begin with the
      four letters, or is of another version: it yields no message and counts once as bad. Any
      other counts as a packet and yields at most as many messages as it announces, and it
      counts once as bad if and only if it yields fewer. */
  lemma RefusedIff(bs: seq<byte>)
    ensures
      var r := Receive(bs);
      if |bs| < 24 || bs[..4] != [0x49, 0x54, 0x43, 0x48] || bs[4] != 1 then r == Received([], 1, 0)
      else
        && r.packets == 1 && |r.messages| <= bs[5] as nat
        && r.bad == if |r.messages| < bs[5] as nat then 1 else 0
  {
    if |bs| >= 24 {
      LettersAreMagic(bs[..4]);
      ParsedCount(bs[24..], bs[5] as nat);
    }
    hide Value, ParseMessages;
  }

  lemma {:induction false} ParsedCount(bs: seq<byte>, count: nat)
    ensures
      var p := ParseMessages(bs, count);
      |p.messages| <= count && (p.bad <==> |p.messages| < count)
    decreases count
  {
    hide Decode;
    if count > 0 && Decode(bs).Some? {
      DecodedFits(bs);
      ParsedCount(bs[Size(Decode(bs).value.kind)..], count - 1);
    }
  }
}
