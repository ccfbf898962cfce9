// The binary market-data messages of net/itch_protocol.hpp: packed structures in
// big-endian byte order, whatever the byte order of the host.
module Itch {
  import opened Arith
  import opened LobTypes

  newtype byte = x: int | 0 <= x < 256

  const TWO_TO_THE_64: nat := 0x1_0000_0000_0000_0000

  type U64 = n: nat | n < 0x1_0000_0000_0000_0000
  type I64 = n: int | -0x8000_0000_0000_0000 <= n < 0x8000_0000_0000_0000

  // ----- byte order -----

  function Pow256(k: nat): Pos {
    if k == 0 then 1 else 256 * Pow256(k - 1)
  }

  /** The k low bytes of `n`, most significant first. */
  function BigEndian(n: nat, k: nat): (bs: seq<byte>)
    ensures |bs| == k
  {
    if k == 0 then [] else BigEndian(n / 256, k - 1) + [(n % 256) as byte]
  }

  /** The number a big-endian byte sequence stands for. */
  function Value(bs: seq<byte>): nat {
    if bs == [] then 0 else 256 * Value(bs[..|bs| - 1]) + bs[|bs| - 1] as nat
  }

  lemma {:induction false} ValueBound(bs: seq<byte>)
    ensures Value(bs) < Pow256(|bs|)
  {
    if bs != [] {
      ValueBound(bs[..|bs| - 1]);
    }
  }

  lemma {:induction false} ValueOfBytes(n: nat, k: nat)
    requires n < Pow256(k)
    ensures Value(BigEndian(n, k)) == n
  {
    if k > 0 {
      ValueOfBytes(n / 256, k - 1);
      var bs := BigEndian(n, k);
      assert bs[..k - 1] == BigEndian(n / 256, k - 1);
    }
  }

  lemma {:induction false} BytesOfValue(bs: seq<byte>)
    ensures BigEndian(Value(bs), |bs|) == bs
  {
    if bs != [] {
      BytesOfValue(bs[..|bs| - 1]);
      assert bs == bs[..|bs| - 1] + [bs[|bs| - 1]];
    }
  }

  lemma Pow256Of8()
    ensures Pow256(8) == TWO_TO_THE_64
  {
    assert Pow256(4) == 0x1_0000_0000;
  }

  function Reverse(bs: seq<byte>): (r: seq<byte>)
    ensures |r| == |bs|
  {
    if bs == [] then [] else Reverse(bs[1..]) + [bs[0]]
  }

  /** What a host keeps in memory for a k-byte integer. */
  function Memory(n: nat, k: nat, littleEndian: bool): seq<byte> {
    if littleEndian then Reverse(BigEndian(n, k)) else BigEndian(n, k)
  }

  /** bswap16, bswap32 and bswap64: they swap only on a little-endian host. */
  function Bswap(n: nat, k: nat, littleEndian: bool): nat {
    if littleEndian then Value(Reverse(BigEndian(n, k))) else n
  }

  lemma {:induction false} ReverseAppend(bs: seq<byte>, b: byte)
    ensures Reverse(bs + [b]) == [b] + Reverse(bs)
  {
    if bs == [] {
      assert [] + [b] == [b] && [b][1..] == [];
    } else {
      assert (bs + [b])[1..] == bs[1..] + [b];
      ReverseAppend(bs[1..], b);
    }
  }

  lemma {:induction false} ReverseTwice(bs: seq<byte>)
    ensures Reverse(Reverse(bs)) == bs
  {
    if bs != [] {
      ReverseTwice(bs[1..]);
      ReverseAppend(Reverse(bs[1..]), bs[0]);
    }
  }

  /** Swapping and then copying the host's bytes puts big-endian bytes on the wire, on
      either kind of host; copying back and swapping again returns the number. */
  lemma WireIsBigEndian(n: nat, k: nat, littleEndian: bool)
    ensures Memory(Bswap(n, k, littleEndian), k, littleEndian) == BigEndian(n, k)
    ensures n < Pow256(k) ==> Bswap(Bswap(n, k, littleEndian), k, littleEndian) == n
  {
    if littleEndian {
      var r := Reverse(BigEndian(n, k));
      BytesOfValue(r);
      ReverseTwice(BigEndian(n, k));
      if n < Pow256(k) {
        ValueOfBytes(n, k);
      }
    }
  }

  /** Two's complement: the casts between int64_t and uint64_t. */
  function ToUnsigned(p: I64): U64 {
    if p < 0 then p + 0x1_0000_0000_0000_0000 else p
  }

  function ToSigned(u: U64): I64 {
    if u < 0x8000_0000_0000_0000 then u else u - 0x1_0000_0000_0000_0000
  }

  function Word(n: U64): (bs: seq<byte>)
    ensures |bs| == 8
  {
    BigEndian(n, 8)
  }

  function WordAt(bs: seq<byte>, off: nat): U64
    requires off + 8 <= |bs|
  {
    ValueBound(bs[off..off + 8]);
    Pow256Of8();
    Value(bs[off..off + 8])
  }

  lemma WordRoundTrip(n: U64)
    ensures Value(Word(n)) == n
  {
    Pow256Of8();
    ValueOfBytes(n, 8);
  }

  // ----- messages -----

  const ADD: byte := 1
  const CANCEL: byte := 2
  const EXECUTE: byte := 3
  const SNAPSHOT: byte := 4

  /** A message as the receiver holds it: only the fields its kind carries are set. */
  datatype Message = Message(
    kind: byte, side: byte, orderId: U64, price: I64, qty: U64,
    bid: I64, bidQty: U64, ask: I64, askQty: U64, flags: byte, eventNs: U64)

  const BLANK: Message := Message(ADD, 0, 0, 0, 0, 0, 0, 0, 0, 0, 0)

  /** The host-side event that the matching thread queues. */
  datatype Event = Event(
    kind: byte, side: Side, orderId: U64, price: I64, qty: U64,
    bid: I64, bidQty: U64, ask: I64, askQty: U64, flags: byte, eventNs: U64)

  predicate Known(kind: byte) {
    ADD <= kind <= SNAPSHOT
  }

  /** Bytes of a message, type byte included; 0 for an unknown kind. */
  function Size(kind: byte): nat {
    if kind == ADD then 34 else if kind == CANCEL then 17 else if kind == EXECUTE then 33
      else if kind == SNAPSHOT then 42 else 0
  }

  const MAX_MSG_BYTES: nat := 42

  function SideByte(s: Side): byte {
    if s.Buy? then 0 else 1
  }

  /** What of an event travels. */
  function Carried(e: Event): Message {
    var m := BLANK.(kind := e.kind, eventNs := e.eventNs);
    if e.kind == ADD then m.(orderId := e.orderId, side := SideByte(e.side), price := e.price, qty := e.qty)
    else if e.kind == CANCEL then m.(orderId := e.orderId)
    else if e.kind == EXECUTE then m.(orderId := e.orderId, price := e.price, qty := e.qty)
    else m.(flags := e.flags, bid := e.bid, bidQty := e.bidQty, ask := e.ask, askQty := e.askQty)
  }

  /** The fields a kind does not carry have their default values. */
  predicate Canonical(m: Message) {
    && Known(m.kind)
    && (m.kind != ADD ==> m.side == 0)
    && (m.kind == CANCEL || m.kind == SNAPSHOT ==> m.price == 0 && m.qty == 0)
    && (m.kind == SNAPSHOT ==> m.orderId == 0)
    && (m.kind != SNAPSHOT ==> m.bid == m.ask == 0 && m.bidQty == m.askQty == 0 && m.flags == 0)
  }

  /** The wire form. */
  function Encode(m: Message): (bs: seq<byte>)
    ensures |bs| == Size(m.kind)
  {
    if m.kind == ADD then
      [m.kind] + Word(m.orderId) + [m.side] + Word(ToUnsigned(m.price)) + Word(m.qty) + Word(m.eventNs)
    else if m.kind == CANCEL then
      [m.kind] + Word(m.orderId) + Word(m.eventNs)
    else if m.kind == EXECUTE then
      [m.kind] + Word(m.orderId) + Word(ToUnsigned(m.price)) + Word(m.qty) + Word(m.eventNs)
    else if m.kind == SNAPSHOT then
      [m.kind] + [m.flags] + Word(ToUnsigned(m.bid)) + Word(m.bidQty) + Word(ToUnsigned(m.ask)) + Word(m.askQty)
        + Word(m.eventNs)
    else []
  }

  /** The message at the front of `bs`; None for an unknown type byte or too few bytes. */
  function Decode(bs: seq<byte>): Option<Message> {
    if |bs| < 1 || !Known(bs[0]) || |bs| < Size(bs[0]) then None
    else if bs[0] == ADD then
      Some(BLANK.(orderId := WordAt(bs, 1), side := bs[9], price := ToSigned(WordAt(bs, 10)),
                  qty := WordAt(bs, 18), eventNs := WordAt(bs, 26)))
    else if bs[0] == CANCEL then
      Some(BLANK.(kind := CANCEL, orderId := WordAt(bs, 1), eventNs := WordAt(bs, 9)))
    else if bs[0] == EXECUTE then
      Some(BLANK.(kind := EXECUTE, orderId := WordAt(bs, 1), price := ToSigned(WordAt(bs, 9)),
                  qty := WordAt(bs, 17), eventNs := WordAt(bs, 25)))
    else
      Some(BLANK.(kind := SNAPSHOT, flags := bs[1], bid := ToSigned(WordAt(bs, 2)), bidQty := WordAt(bs, 10),
                  ask := ToSigned(WordAt(bs, 18)), askQty := WordAt(bs, 26), eventNs := WordAt(bs, 34)))
  }

  lemma SignedRoundTrip(p: I64)
    ensures ToSigned(ToUnsigned(p)) == p
  {
  }

  /** Decoding reads exactly the words that encoding wrote. */
  lemma WordsOf(bs: seq<byte>, off: nat, n: U64)
    requires off + 8 <= |bs| && bs[off..off + 8] == Word(n)
    ensures WordAt(bs, off) == n
  {
    WordRoundTrip(n);
  }

  lemma PiecesOfAdd(m: Message, rest: seq<byte>)
    requires m.kind == ADD
    ensures
      var bs := Encode(m) + rest;
      && bs[0] == ADD && bs[1..9] == Word(m.orderId) && bs[9] == m.side && bs[10..18] == Word(ToUnsigned(m.price))
      && bs[18..26] == Word(m.qty) && bs[26..34] == Word(m.eventNs)
  {
    hide Word;
  }

  lemma PiecesOfCancel(m: Message, rest: seq<byte>)
    requires m.kind == CANCEL
    ensures
      var bs := Encode(m) + rest;
      && bs[0] == CANCEL && bs[1..9] == Word(m.orderId) && bs[9..17] == Word(m.eventNs)
  {
    hide Word;
  }

  lemma PiecesOfExecute(m: Message, rest: seq<byte>)
    requires m.kind == EXECUTE
    ensures
      var bs := Encode(m) + rest;
      && bs[0] == EXECUTE && bs[1..9] == Word(m.orderId) && bs[9..17] == Word(ToUnsigned(m.price))
      && bs[17..25] == Word(m.qty) && bs[25..33] == Word(m.eventNs)
  {
    hide Word;
  }

  lemma PiecesOfSnapshot(m: Message, rest: seq<byte>)
    requires m.kind == SNAPSHOT
    ensures
      var bs := Encode(m) + rest;
      && bs[0] == SNAPSHOT && bs[1] == m.flags && bs[2..10] == Word(ToUnsigned(m.bid)) && bs[10..18] == Word(m.bidQty)
      && bs[18..26] == Word(ToUnsigned(m.ask)) && bs[26..34] == Word(m.askQty) && bs[34..42] == Word(m.eventNs)
  {
    hide Word;
  }

  /** Reading back a message gives the message, whatever follows it. */
  lemma DecodeEncode(m: Message, rest: seq<byte>)
    requires Canonical(m)
    ensures Decode(Encode(m) + rest) == Some(m)
  {
    var bs := Encode(m) + rest;
    if m.kind == ADD {
      PiecesOfAdd(m, rest);
      hide Encode, Word, WordAt, ToSigned, ToUnsigned;
      WordsOf(bs, 1, m.orderId);
      WordsOf(bs, 10, ToUnsigned(m.price));
      WordsOf(bs, 18, m.qty);
      WordsOf(bs, 26, m.eventNs);
      SignedRoundTrip(m.price);
    } else if m.kind == CANCEL {
      PiecesOfCancel(m, rest);
      hide Encode, Word, WordAt, ToSigned, ToUnsigned;
      WordsOf(bs, 1, m.orderId);
      WordsOf(bs, 9, m.eventNs);
    } else if m.kind == EXECUTE {
      PiecesOfExecute(m, rest);
      hide Encode, Word, WordAt, ToSigned, ToUnsigned;
      WordsOf(bs, 1, m.orderId);
      WordsOf(bs, 9, ToUnsigned(m.price));
      WordsOf(bs, 17, m.qty);
      WordsOf(bs, 25, m.eventNs);
      SignedRoundTrip(m.price);
    } else {
      PiecesOfSnapshot(m, rest);
      hide Encode, Word, WordAt, ToSigned, ToUnsigned;
      WordsOf(bs, 2, ToUnsigned(m.bid));
      WordsOf(bs, 10, m.bidQty);
      WordsOf(bs, 18, ToUnsigned(m.ask));
      WordsOf(bs, 26, m.askQty);
      WordsOf(bs, 34, m.eventNs);
      SignedRoundTrip(m.bid);
      SignedRoundTrip(m.ask);
    }
  }

  lemma WordOfWordAt(bs: seq<byte>, off: nat)
    requires off + 8 <= |bs|
    ensures Word(WordAt(bs, off)) == bs[off..off + 8]
    ensures ToUnsigned(ToSigned(WordAt(bs, off))) == WordAt(bs, off)
  {
    BytesOfValue(bs[off..off + 8]);
  }

  lemma JoinAdd(bs: seq<byte>)
    requires |bs| >= 34
    ensures bs[..34] == [bs[0]] + bs[1..9] + [bs[9]] + bs[10..18] + bs[18..26] + bs[26..34]
  {
  }

  lemma JoinCancel(bs: seq<byte>)
    requires |bs| >= 17
    ensures bs[..17] == [bs[0]] + bs[1..9] + bs[9..17]
  {
  }

  lemma JoinExecute(bs: seq<byte>)
    requires |bs| >= 33
    ensures bs[..33] == [bs[0]] + bs[1..9] + bs[9..17] + bs[17..25] + bs[25..33]
  {
  }

  lemma JoinSnapshot(bs: seq<byte>)
    requires |bs| >= 42
    ensures bs[..42] == [bs[0]] + [bs[1]] + bs[2..10] + bs[10..18] + bs[18..26] + bs[26..34] + bs[34..42]
  {
  }

  /** Encoding what was decoded gives back the bytes: a message has only one wire form. */
  lemma EncodeDecode(bs: seq<byte>)
    requires Decode(bs).Some?
    ensures
      var m := Decode(bs).value;
      Canonical(m) && Size(m.kind) <= |bs| && Encode(m) == bs[..Size(m.kind)]
  {
    hide Word, WordAt, ToSigned, ToUnsigned;
    var m := Decode(bs).value;
    if m.kind == ADD {
      JoinAdd(bs);
      WordOfWordAt(bs, 1);
      WordOfWordAt(bs, 10);
      WordOfWordAt(bs, 18);
      WordOfWordAt(bs, 26);
    } else if m.kind == CANCEL {
      JoinCancel(bs);
      WordOfWordAt(bs, 1);
      WordOfWordAt(bs, 9);
    } else if m.kind == EXECUTE {
      JoinExecute(bs);
      WordOfWordAt(bs, 1);
      WordOfWordAt(bs, 9);
      WordOfWordAt(bs, 17);
      WordOfWordAt(bs, 25);
    } else {
      JoinSnapshot(bs);
      WordOfWordAt(bs, 2);
      WordOfWordAt(bs, 10);
      WordOfWordAt(bs, 18);
      WordOfWordAt(bs, 26);
      WordOfWordAt(bs, 34);
    }
  }
}
