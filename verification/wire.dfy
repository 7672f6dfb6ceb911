/**
 The binary messages: a type byte followed by the message's 64-bit fields as they lie in memory on a little-endian
 machine without padding. Encoding, decoding, and splitting a stream of messages.
 */
module Wire {
  import opened Common

  const SNAPSHOT_TYPE: Byte := 0
  const MD_UPDATE_TYPE: Byte := 3
  const TOP_N: nat := 20
  const SNAPSHOT_SIZE: nat := 961    // type byte and 2 * 20 orders of three words
  const MD_UPDATE_SIZE: nat := 49    // type byte and six words

  type TopOrders = s: seq<Order> | |s| == 20 witness seq(20, _ => Order(0, 0, 0))

  datatype Snapshot = Snapshot(topBids: TopOrders, topAsks: TopOrders)

  // ---------- Words and bytes ----------

  function Power(n: nat): nat {
    if n == 0 then 1 else 256 * Power(n - 1)
  }

  /** The n bytes of w, least significant first. */
  function ToBytes(w: nat, n: nat): (b: Bytes)
    ensures |b| == n
  {
    if n == 0 then [] else [w % 256] + ToBytes(w / 256, n - 1)
  }

  function FromBytes(b: Bytes): nat {
    if b == [] then 0 else b[0] + 256 * FromBytes(b[1..])
  }

  lemma {:induction false} FromTo(w: nat, n: nat)
    requires w < Power(n)
    ensures FromBytes(ToBytes(w, n)) == w
  {
    if n > 0 {
      FromTo(w / 256, n - 1);
      assert ToBytes(w, n)[1..] == ToBytes(w / 256, n - 1);
    }
  }

  lemma {:induction false} ToFrom(b: Bytes)
    ensures FromBytes(b) < Power(|b|)
    ensures ToBytes(FromBytes(b), |b|) == b
  {
    if b != [] {
      ToFrom(b[1..]);
      assert FromBytes(b) / 256 == FromBytes(b[1..]) && FromBytes(b) % 256 == b[0];
    }
  }

  lemma EightBytesAreAWord()
    ensures Power(8) == WORD_MODULUS
  {
    assert Power(2) == 0x1_0000;
    assert Power(4) == 256 * (256 * Power(2)) == 0x1_0000_0000;
    assert Power(6) == 256 * (256 * Power(4)) == 0x1_0000_0000_0000;
  }

  function EncodeWords(words: seq<Word>): (b: Bytes)
    ensures |b| == 8 * |words|
  {
    if words == [] then [] else ToBytes(words[0], 8) + EncodeWords(words[1..])
  }

  function DecodeWords(b: Bytes): (words: seq<Word>)
    requires |b| % 8 == 0
    ensures 8 * |words| == |b|
    decreases |b|
  {
    if b == [] then []
    else
      ToFrom(b[..8]);
      EightBytesAreAWord();
      [FromBytes(b[..8])] + DecodeWords(b[8..])
  }

  lemma {:induction false} DecodeEncodedWords(words: seq<Word>)
    ensures DecodeWords(EncodeWords(words)) == words
  {
    if words != [] {
      var b := EncodeWords(words);
      EightBytesAreAWord();
      FromTo(words[0], 8);
      DecodeEncodedWords(words[1..]);
      assert b[..8] == ToBytes(words[0], 8) && b[8..] == EncodeWords(words[1..]);
    }
  }

  lemma {:induction false} EncodeDecodedWords(b: Bytes)
    requires |b| % 8 == 0
    ensures EncodeWords(DecodeWords(b)) == b
    decreases |b|
  {
    if b != [] {
      ToFrom(b[..8]);
      EncodeDecodedWords(b[8..]);
      assert DecodeWords(b)[1..] == DecodeWords(b[8..]);
      assert b == b[..8] + b[8..];
    }
  }

  // ---------- Layout ----------

  /** The word lies in the eight bytes from offset on, least significant byte first. */
  ghost predicate WordLies(b: Bytes, offset: nat, w: Word)
    requires offset + 8 <= |b|
  {
    && b[offset] == w % 256
    && b[offset + 1] == w / 0x100 % 256
    && b[offset + 2] == w / 0x1_0000 % 256
    && b[offset + 3] == w / 0x100_0000 % 256
    && b[offset + 4] == w / 0x1_0000_0000 % 256
    && b[offset + 5] == w / 0x100_0000_0000 % 256
    && b[offset + 6] == w / 0x1_0000_0000_0000 % 256
    && b[offset + 7] == w / 0x100_0000_0000_0000 % 256
  }

  lemma DivideTwice(w: nat, p: nat)
    requires p > 0
    ensures w / 256 / p == w / (256 * p)
  {
    var a, b := w / 256, w % 256;
    var q, m := a / p, a % p;
    assert a == p * q + m;
    assert 256 * (p * q) == (256 * p) * q;
    assert w == (256 * p) * q + (256 * m + b);
    DivideExact(256 * p, q, 256 * m + b);
  }

  lemma DivideExact(p: nat, q: nat, m: nat)
    requires m < p
    ensures (p * q + m) / p == q
  {
    var d := (p * q + m) / p;
    var e := (p * q + m) % p;
    assert p * q + m == p * d + e && e < p;
    assert d < q ==> p * (d + 1) <= p * q;
    assert d > q ==> p * (q + 1) <= p * d;
  }

  /** Byte i of an encoded word is the word divided by 256 to the power i, modulo 256. */
  lemma {:induction false} ByteOfWord(w: nat, n: nat, i: nat)
    requires i < n
    ensures Power(i) > 0 && ToBytes(w, n)[i] == w / Power(i) % 256
  {
    if i > 0 {
      ByteOfWord(w / 256, n - 1, i - 1);
      DivideTwice(w, Power(i - 1));
    }
  }

  lemma Powers()
    ensures Power(0) == 1 && Power(1) == 0x100 && Power(2) == 0x1_0000 && Power(3) == 0x100_0000
    ensures Power(4) == 0x1_0000_0000 && Power(5) == 0x100_0000_0000
    ensures Power(6) == 0x1_0000_0000_0000 && Power(7) == 0x100_0000_0000_0000
  {
    assert Power(1) == 256 * Power(0);
    assert Power(2) == 256 * Power(1);
    assert Power(3) == 256 * Power(2);
    assert Power(4) == 256 * Power(3);
    assert Power(5) == 256 * Power(4);
    assert Power(6) == 256 * Power(5);
    assert Power(7) == 256 * Power(6);
  }

  lemma EncodedWordLies(b: Bytes, offset: nat, w: Word)
    requires offset + 8 <= |b| && b[offset..offset + 8] == ToBytes(w, 8)
    ensures WordLies(b, offset, w)
  {
    Powers();
    forall i | 0 <= i < 8
      ensures Power(i) > 0 && b[offset + i] == w / Power(i) % 256
    {
      ByteOfWord(w, 8, i);
      assert b[offset + i] == b[offset..offset + 8][i];
    }
    assert b[offset + 0] == w / Power(0) % 256 && b[offset + 1] == w / Power(1) % 256;
    assert b[offset + 2] == w / Power(2) % 256 && b[offset + 3] == w / Power(3) % 256;
    assert b[offset + 4] == w / Power(4) % 256 && b[offset + 5] == w / Power(5) % 256;
    assert b[offset + 6] == w / Power(6) % 256 && b[offset + 7] == w / Power(7) % 256;
  }

  /** Word k lies in bytes 8k to 8k + 7. */
  lemma {:induction false} WordAt(words: seq<Word>, k: nat)
    requires k < |words|
    ensures EncodeWords(words)[8 * k..8 * k + 8] == ToBytes(words[k], 8)
  {
    var rest := EncodeWords(words[1..]);
    if k > 0 {
      WordAt(words[1..], k - 1);
      assert EncodeWords(words)[8 * k..8 * k + 8] == rest[8 * (k - 1)..8 * (k - 1) + 8];
    }
  }

  // ---------- Fields ----------

  function OrderWords(orders: seq<Order>): (words: seq<Word>)
    ensures |words| == 3 * |orders|
  {
    if orders == [] then []
    else [orders[0].id, orders[0].price, orders[0].quantity] + OrderWords(orders[1..])
  }

  function WordOrders(words: seq<Word>): (orders: seq<Order>)
    requires |words| % 3 == 0
    ensures 3 * |orders| == |words|
    decreases |words|
  {
    if words == [] then [] else [Order(words[0], words[1], words[2])] + WordOrders(words[3..])
  }

  lemma {:induction false} OrdersThere(orders: seq<Order>)
    ensures WordOrders(OrderWords(orders)) == orders
  {
    if orders != [] {
      OrdersThere(orders[1..]);
      assert OrderWords(orders)[3..] == OrderWords(orders[1..]);
    }
  }

  lemma {:induction false} OrdersBack(words: seq<Word>)
    requires |words| % 3 == 0
    ensures OrderWords(WordOrders(words)) == words
    decreases |words|
  {
    if words != [] {
      OrdersBack(words[3..]);
      assert WordOrders(words)[1..] == WordOrders(words[3..]);
      assert words == [words[0], words[1], words[2]] + words[3..];
    }
  }

  function SnapshotWords(s: Snapshot): (words: seq<Word>)
    ensures |words| == 120
  {
    OrderWords(s.topBids) + OrderWords(s.topAsks)
  }

  function UpdateWords(u: MdUpdate): seq<Word> {
    [u.bestBidPrice, u.bestBidQty, u.bestAskPrice, u.bestAskQty, u.totalBidQty, u.totalAskQty]
  }

  // ---------- Messages ----------

  function EncodeSnapshot(s: Snapshot): (b: Bytes)
    ensures |b| == SNAPSHOT_SIZE && b[0] == SNAPSHOT_TYPE
  {
    [SNAPSHOT_TYPE] + EncodeWords(SnapshotWords(s))
  }

  function EncodeUpdate(u: MdUpdate): (b: Bytes)
    ensures |b| == MD_UPDATE_SIZE && b[0] == MD_UPDATE_TYPE
  {
    [MD_UPDATE_TYPE] + EncodeWords(UpdateWords(u))
  }

  /** deserialize checks the size and nothing else; None stands for its exception. */
  function DecodeSnapshot(b: Bytes): Option<Snapshot> {
    if |b| != SNAPSHOT_SIZE then None
    else
      var words := DecodeWords(b[1..]);
      Some(Snapshot(WordOrders(words[..60]), WordOrders(words[60..])))
  }

  function DecodeUpdate(b: Bytes): Option<MdUpdate> {
    if |b| != MD_UPDATE_SIZE then None
    else
      var w := DecodeWords(b[1..]);
      Some(MdUpdate(w[0], w[1], w[2], w[3], w[4], w[5]))
  }

  ghost function WordIn(b: Bytes, offset: nat): Bytes
    requires offset + 8 <= |b|
  {
    b[offset..offset + 8]
  }

  /** The fields of an update, each at its place after the type byte. */
  ghost predicate UpdateLies(b: Bytes, u: MdUpdate) {
    && |b| == 49
    && WordLies(b, 1, u.bestBidPrice) && WordLies(b, 9, u.bestBidQty)
    && WordLies(b, 17, u.bestAskPrice) && WordLies(b, 25, u.bestAskQty)
    && WordLies(b, 33, u.totalBidQty) && WordLies(b, 41, u.totalAskQty)
  }

  /** Id, price and quantity of an order, in 24 bytes. */
  ghost predicate OrderLies(b: Bytes, offset: nat, o: Order)
    requires offset + 24 <= |b|
  {
    WordLies(b, offset, o.id) && WordLies(b, offset + 8, o.price) && WordLies(b, offset + 16, o.quantity)
  }

  /** Twenty bids, then twenty asks, after the type byte. */
  ghost predicate SnapshotLies(b: Bytes, s: Snapshot) {
    && |b| == 961
    && forall i :: 0 <= i < 20 ==> OrderLies(b, 1 + 24 * i, s.topBids[i]) && OrderLies(b, 481 + 24 * i, s.topAsks[i])
  }

  lemma UpdateLayout(u: MdUpdate)
    ensures EncodeUpdate(u)[0] == 3 && UpdateLies(EncodeUpdate(u), u)
  {
    UpdateWordIn(u, 0);
    UpdateWordIn(u, 1);
    UpdateWordIn(u, 2);
    UpdateWordIn(u, 3);
    UpdateWordIn(u, 4);
    UpdateWordIn(u, 5);
  }

  lemma UpdateWordIn(u: MdUpdate, k: nat)
    requires k < 6
    ensures WordIn(EncodeUpdate(u), 1 + 8 * k) == ToBytes(UpdateWords(u)[k], 8)
    ensures WordLies(EncodeUpdate(u), 1 + 8 * k, UpdateWords(u)[k])
  {
    var words := UpdateWords(u);
    WordAt(words, k);
    assert WordIn(EncodeUpdate(u), 1 + 8 * k) == EncodeWords(words)[8 * k..8 * k + 8];
    EncodedWordLies(EncodeUpdate(u), 1 + 8 * k, words[k]);
  }

  lemma {:induction false} OrderWordAt(orders: seq<Order>, i: nat)
    requires i < |orders|
    ensures var w := OrderWords(orders);
            w[3 * i] == orders[i].id && w[3 * i + 1] == orders[i].price && w[3 * i + 2] == orders[i].quantity
  {
    if i > 0 {
      OrderWordAt(orders[1..], i - 1);
      assert OrderWords(orders)[3..] == OrderWords(orders[1..]);
    }
  }

  /** Bid i lies at offset 1 + 24i, ask i at 481 + 24i. */
  lemma SnapshotLayout(s: Snapshot)
    ensures EncodeSnapshot(s)[0] == 0 && SnapshotLies(EncodeSnapshot(s), s)
  {
    forall i | 0 <= i < 20
      ensures OrderLies(EncodeSnapshot(s), 1 + 24 * i, s.topBids[i])
      ensures OrderLies(EncodeSnapshot(s), 481 + 24 * i, s.topAsks[i])
    {
      SnapshotOrderIn(s, i);
    }
  }

  lemma SnapshotOrderIn(s: Snapshot, i: nat)
    requires i < 20
    ensures OrderLies(EncodeSnapshot(s), 1 + 24 * i, s.topBids[i])
    ensures OrderLies(EncodeSnapshot(s), 481 + 24 * i, s.topAsks[i])
  {
    OrderWordAt(s.topBids, i);
    OrderWordAt(s.topAsks, i);
    ThreeWordsIn(s, 3 * i, s.topBids[i]);
    ThreeWordsIn(s, 60 + 3 * i, s.topAsks[i]);
  }

  lemma ThreeWordsIn(s: Snapshot, k: nat, o: Order)
    requires k + 3 <= 120
    requires SnapshotWords(s)[k] == o.id && SnapshotWords(s)[k + 1] == o.price && SnapshotWords(s)[k + 2] == o.quantity
    ensures OrderLies(EncodeSnapshot(s), 1 + 8 * k, o)
  {
    SnapshotWordIn(s, k);
    SnapshotWordIn(s, k + 1);
    SnapshotWordIn(s, k + 2);
  }

  lemma SnapshotWordIn(s: Snapshot, k: nat)
    requires k < 120
    ensures WordIn(EncodeSnapshot(s), 1 + 8 * k) == ToBytes(SnapshotWords(s)[k], 8)
    ensures WordLies(EncodeSnapshot(s), 1 + 8 * k, SnapshotWords(s)[k])
    ensures SnapshotWords(s)[k] == if k < 60 then OrderWords(s.topBids)[k] else OrderWords(s.topAsks)[k - 60]
  {
    var words := SnapshotWords(s);
    WordAt(words, k);
    assert WordIn(EncodeSnapshot(s), 1 + 8 * k) == EncodeWords(words)[8 * k..8 * k + 8];
    EncodedWordLies(EncodeSnapshot(s), 1 + 8 * k, words[k]);
  }

  lemma SnapshotRoundTrip(s: Snapshot)
    ensures DecodeSnapshot(EncodeSnapshot(s)) == Some(s)
  {
    var words := SnapshotWords(s);
    assert EncodeSnapshot(s)[1..] == EncodeWords(words);
    DecodeEncodedWords(words);
    assert words[..60] == OrderWords(s.topBids) && words[60..] == OrderWords(s.topAsks);
    OrdersThere(s.topBids);
    OrdersThere(s.topAsks);
  }

  lemma UpdateRoundTrip(u: MdUpdate)
    ensures DecodeUpdate(EncodeUpdate(u)) == Some(u)
  {
    assert EncodeUpdate(u)[1..] == EncodeWords(UpdateWords(u));
    DecodeEncodedWords(UpdateWords(u));
  }

  /** A buffer of the right size is reproduced exactly when it carries the right type byte. */
  lemma SnapshotReencodes(b: Bytes)
    requires |b| == SNAPSHOT_SIZE
    ensures EncodeSnapshot(DecodeSnapshot(b).value) == b <==> b[0] == SNAPSHOT_TYPE
  {
    var words := DecodeWords(b[1..]);
    OrdersBack(words[..60]);
    OrdersBack(words[60..]);
    assert words[..60] + words[60..] == words;
    EncodeDecodedWords(b[1..]);
    assert b == [b[0]] + b[1..];
  }

  lemma UpdateReencodes(b: Bytes)
    requires |b| == MD_UPDATE_SIZE
    ensures EncodeUpdate(DecodeUpdate(b).value) == b <==> b[0] == MD_UPDATE_TYPE
  {
    var words := DecodeWords(b[1..]);
    assert UpdateWords(DecodeUpdate(b).value) == words;
    EncodeDecodedWords(b[1..]);
    assert b == [b[0]] + b[1..];
  }

  /** What deserialize reads lies in the buffer, whatever its type byte. */
  lemma DecodedUpdateLies(b: Bytes)
    requires |b| == 49
    ensures UpdateLies(b, DecodeUpdate(b).value)
  {
    var u, typed := DecodeUpdate(b).value, [MD_UPDATE_TYPE] + b[1..];
    assert typed[1..] == b[1..];
    UpdateReencodes(typed);
    UpdateLayout(u);
    assert forall i :: 1 <= i < 49 ==> typed[i] == b[i];
  }

  lemma DecodedSnapshotLies(b: Bytes)
    requires |b| == 961
    ensures SnapshotLies(b, DecodeSnapshot(b).value)
  {
    var s, typed := DecodeSnapshot(b).value, [SNAPSHOT_TYPE] + b[1..];
    assert typed[1..] == b[1..];
    SnapshotReencodes(typed);
    SnapshotLayout(s);
    SameSnapshotLies(typed, b, s);
  }

  lemma SameSnapshotLies(a: Bytes, b: Bytes, s: Snapshot)
    requires |a| == |b| && 1 <= |a| && a[1..] == b[1..] && SnapshotLies(a, s)
    ensures SnapshotLies(b, s)
  {
    forall i | 0 <= i < 20
      ensures OrderLies(b, 1 + 24 * i, s.topBids[i]) && OrderLies(b, 481 + 24 * i, s.topAsks[i])
    {
      SameOrderLies(a, b, 1 + 24 * i, s.topBids[i]);
      SameOrderLies(a, b, 481 + 24 * i, s.topAsks[i]);
    }
  }

  lemma SameOrderLies(a: Bytes, b: Bytes, offset: nat, o: Order)
    requires 1 <= offset && offset + 24 <= |a| == |b| && a[1..] == b[1..] && OrderLies(a, offset, o)
    ensures OrderLies(b, offset, o)
  {
    assert forall i :: 1 <= i < |a| ==> a[i] == a[1..][i - 1] == b[i];
  }

  // ---------- Streams ----------

  datatype Message = SnapshotMessage(snapshot: Snapshot) | UpdateMessage(update: MdUpdate)

  function Encode(m: Message): Bytes {
    match m
    case SnapshotMessage(s) => EncodeSnapshot(s)
    case UpdateMessage(u) => EncodeUpdate(u)
  }

  function EncodeAll(messages: seq<Message>): Bytes {
    if messages == [] then [] else Encode(messages[0]) + EncodeAll(messages[1..])
  }

  /** The size of the message a type byte announces; 0 for an unknown type. */
  function SizeOf(kind: Byte): nat {
    if kind == SNAPSHOT_TYPE then SNAPSHOT_SIZE else if kind == MD_UPDATE_TYPE then MD_UPDATE_SIZE else 0
  }

  function DecodeOne(b: Bytes): Message
    requires b != [] && SizeOf(b[0]) == |b|
  {
    if b[0] == SNAPSHOT_TYPE then SnapshotMessage(DecodeSnapshot(b).value) else UpdateMessage(DecodeUpdate(b).value)
  }

  /** Splits a stream by type byte and size; None if it does not consist of whole messages of known types. */
  function Split(b: Bytes): Option<seq<Message>>
    decreases |b|
  {
    if b == [] then Some([])
    else
      var size := SizeOf(b[0]);
      if size == 0 || size > |b| then None
      else
        var rest := Split(b[size..]);
        if rest == None then None else Some([DecodeOne(b[..size])] + rest.value)
  }

  lemma OneRoundTrip(m: Message)
    ensures Encode(m) != [] && SizeOf(Encode(m)[0]) == |Encode(m)|
    ensures DecodeOne(Encode(m)) == m
  {
    match m {
      case SnapshotMessage(s) => SnapshotRoundTrip(s);
      case UpdateMessage(u) => UpdateRoundTrip(u);
    }
  }

  lemma OneReencodes(b: Bytes)
    requires b != [] && SizeOf(b[0]) == |b|
    ensures Encode(DecodeOne(b)) == b
  {
    if b[0] == SNAPSHOT_TYPE {
      SnapshotReencodes(b);
    } else {
      UpdateReencodes(b);
    }
  }

  /** Any concatenation of encoded messages splits into the same messages. */
  lemma {:induction false} SplitEncoded(messages: seq<Message>)
    ensures Split(EncodeAll(messages)) == Some(messages)
  {
    if messages != [] {
      var first, rest := Encode(messages[0]), EncodeAll(messages[1..]);
      OneRoundTrip(messages[0]);
      SplitEncoded(messages[1..]);
      assert (first + rest)[..|first|] == first && (first + rest)[|first|..] == rest;
      assert [messages[0]] + messages[1..] == messages;
    }
  }

  /** And only such concatenations split. */
  lemma {:induction false} EncodeSplit(b: Bytes)
    ensures Split(b).Some? ==> EncodeAll(Split(b).value) == b
    decreases |b|
  {
    if b != [] {
      var size := SizeOf(b[0]);
      if 0 < size <= |b| {
        EncodeSplit(b[size..]);
        OneReencodes(b[..size]);
        if Split(b).Some? {
          assert Split(b).value[1..] == Split(b[size..]).value;
          assert b == b[..size] + b[size..];
        }
      }
    }
  }

  /** So the framing is unambiguous. */
  lemma FramingUnambiguous(m1: seq<Message>, m2: seq<Message>)
    requires EncodeAll(m1) == EncodeAll(m2)
    ensures m1 == m2
  {
    SplitEncoded(m1);
    SplitEncoded(m2);
  }

  // ---------- Filling buffers ----------

  /** memcpy into part of a buffer. */
  method CopyInto(buffer: array<Byte>, at: nat, bytes: Bytes)
    requires at + |bytes| <= buffer.Length
    modifies buffer
    ensures buffer[at..at + |bytes|] == bytes
    ensures forall i :: 0 <= i < buffer.Length && !(at <= i < at + |bytes|) ==> buffer[i] == old(buffer[i])
  {
    forall i | 0 <= i < |bytes| {
      buffer[at + i] := bytes[i];
    }
  }

  method SerializeUpdate(u: MdUpdate) returns (buffer: array<Byte>)
    ensures fresh(buffer) && buffer[..] == EncodeUpdate(u)
    ensures buffer.Length == 49 && buffer[0] == 3 && UpdateLies(buffer[..], u)
  {
    buffer := new Byte[MD_UPDATE_SIZE];
    buffer[0] := MD_UPDATE_TYPE;
    CopyInto(buffer, 1, EncodeWords(UpdateWords(u)));
    assert buffer[..] == [buffer[0]] + buffer[1..1 + 48];
    UpdateLayout(u);
  }

  method SerializeSnapshot(s: Snapshot) returns (buffer: array<Byte>)
    ensures fresh(buffer) && buffer[..] == EncodeSnapshot(s)
    ensures buffer.Length == 961 && buffer[0] == 0 && SnapshotLies(buffer[..], s)
  {
    buffer := new Byte[SNAPSHOT_SIZE];
    buffer[0] := SNAPSHOT_TYPE;
    var bids, asks := EncodeWords(OrderWords(s.topBids)), EncodeWords(OrderWords(s.topAsks));
    CopyInto(buffer, 1, bids);
    ghost var half := buffer[1..481];
    CopyInto(buffer, 481, asks);
    assert buffer[1..481] == half;
    EncodeWordsConcat(OrderWords(s.topBids), OrderWords(s.topAsks));
    ghost var filled := buffer[..];
    assert filled == [buffer[0]] + buffer[1..481] + buffer[481..961];
    assert filled == EncodeSnapshot(s);
    SnapshotLayout(s);
  }

  lemma {:induction false} EncodeWordsConcat(a: seq<Word>, b: seq<Word>)
    ensures EncodeWords(a + b) == EncodeWords(a) + EncodeWords(b)
  {
    if a == [] {
      assert a + b == b;
    } else {
      EncodeWordsConcat(a[1..], b);
      assert (a + b)[0] == a[0] && (a + b)[1..] == a[1..] + b;
      var first, rest := ToBytes(a[0], 8), EncodeWords(a[1..]);
      assert first + (rest + EncodeWords(b)) == first + rest + EncodeWords(b);
    }
  }

  method DeserializeUpdate(data: array<Byte>) returns (u: Option<MdUpdate>)
    ensures u == DecodeUpdate(data[..])
    ensures (u.Some? <==> data.Length == 49) && (u.Some? ==> UpdateLies(data[..], u.value))
  {
    if data.Length != MD_UPDATE_SIZE {
      return None;
    }
    DecodedUpdateLies(data[..]);
    var w := DecodeWords(data[1..]);
    assert data[..][1..] == data[1..];
    u := Some(MdUpdate(w[0], w[1], w[2], w[3], w[4], w[5]));
  }

  method DeserializeSnapshot(data: array<Byte>) returns (s: Option<Snapshot>)
    ensures s == DecodeSnapshot(data[..])
    ensures (s.Some? <==> data.Length == 961) && (s.Some? ==> SnapshotLies(data[..], s.value))
  {
    if data.Length != SNAPSHOT_SIZE {
      return None;
    }
    DecodedSnapshotLies(data[..]);
    var bids, asks := DecodeWords(data[1..481]), DecodeWords(data[481..]);
    DecodeWordsConcat(data[1..481], data[481..]);
    assert data[..][1..] == data[1..481] + data[481..];
    assert (bids + asks)[..60] == bids && (bids + asks)[60..] == asks;
    s := Some(Snapshot(WordOrders(bids), WordOrders(asks)));
  }

  lemma {:induction false} DecodeWordsConcat(a: Bytes, b: Bytes)
    requires |a| % 8 == 0 && |b| % 8 == 0
    ensures DecodeWords(a + b) == DecodeWords(a) + DecodeWords(b)
    decreases |a|
  {
    if a == [] {
      assert a + b == b;
    } else {
      DecodeWordsConcat(a[8..], b);
      assert (a + b)[..8] == a[..8] && (a + b)[8..] == a[8..] + b;
      var first, rest := [FromBytes(a[..8])], DecodeWords(a[8..]);
      assert first + (rest + DecodeWords(b)) == first + rest + DecodeWords(b);
    }
  }
}
