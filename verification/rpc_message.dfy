/** The RPC wire format (rpc/homework1/message/message.go): what the encoders write, what the
    decoders read, and the theorem that they undo each other exactly on clean requests. The
    encoders and decoders themselves, which work on buffers, are in rpc_codec.dfy. */
module RpcMessage {

  type byte = x: int | 0 <= x < 256
  type uint32 = x: int | 0 <= x < 0x1_0000_0000
  type Bytes = seq<byte>

  const SPLITTER: byte := 10
  const PAIR_SPLITTER: byte := 13

  /** A Go call either returns or panics. */
  datatype Call<+T> = Return(value: T) | Panic

  datatype ReqValue = ReqValue(
    headLength: uint32, bodyLength: uint32, messageId: uint32,
    version: byte, compressor: byte, serializer: byte,
    serviceName: Bytes, methodName: Bytes,
    meta: map<Bytes, Bytes>,  // a nil map and an empty map are the same value here
    data: Bytes)

  datatype RespValue = RespValue(
    headLength: uint32, bodyLength: uint32, messageId: uint32,
    version: byte, compressor: byte, serializer: byte,
    error: Bytes, data: Bytes)

  // ---------------------------------------------------------------- bytes

  /** Reduction to 32 bits, as in a conversion or a sum of lengths. */
  function U32(x: int): uint32
  {
    x % 0x1_0000_0000
  }

  function PutUint32(n: uint32): (bs: Bytes)
    ensures |bs| == 4
  {
    var n1: int := n / 256;
    var n2: int := n / 0x1_0000;
    var n3: int := n / 0x100_0000;
    [n3, n2 % 256, n1 % 256, n % 256]
  }

  function Uint32(bs: Bytes): uint32
    requires |bs| == 4
  {
    (bs[0] as int) * 0x100_0000 + (bs[1] as int) * 0x1_0000 + (bs[2] as int) * 256 + bs[3] as int
  }

  lemma Uint32Undoes(n: uint32)
    ensures Uint32(PutUint32(n)) == n
  {
    var bs := PutUint32(n);
    assert n == n / 256 * 256 + bs[3];
    assert n / 256 == n / 0x1_0000 * 256 + bs[2];
    assert n / 0x1_0000 == n / 0x100_0000 * 256 + bs[1];
  }

  /** The first index of `b`, or -1. */
  function IndexByte(s: Bytes, b: byte): (i: int)
    ensures -1 <= i < |s|
    ensures i == -1 <==> b !in s
    ensures i >= 0 ==> s[i] == b && b !in s[..i]
  {
    if |s| == 0 then -1
    else if s[0] == b then 0
    else
      var i := IndexByte(s[1..], b);
      if i == -1 then -1 else assert s[..i + 1] == [s[0]] + s[1..][..i]; i + 1
  }

  lemma {:induction false} IndexOfFirst(s: Bytes, b: byte, rest: Bytes)
    requires b !in s
    ensures IndexByte(s + [b] + rest, b) == |s|
  {
    if |s| > 0 {
      assert (s + [b] + rest)[1..] == s[1..] + [b] + rest;
      IndexOfFirst(s[1..], b, rest);
    }
  }

  function Zeros(n: nat): (z: Bytes)
    ensures |z| == n && forall i :: 0 <= i < n ==> z[i] == 0
  {
    if n == 0 then [] else Zeros(n - 1) + [0]
  }

  /** What a zeroed buffer of length `n` holds after `copy` put `s` at its start. */
  function Fit(s: Bytes, n: nat): (r: Bytes)
    ensures |r| == n
  {
    if |s| <= n then s + Zeros(n - |s|) else s[..n]
  }

  // ---------------------------------------------------------------- requests on the wire

  function Pair(key: Bytes, value: Bytes): Bytes
  {
    key + [PAIR_SPLITTER] + value + [SPLITTER]
  }

  /** The pairs of a header map, in the order in which it was ranged over. */
  function Pairs(meta: map<Bytes, Bytes>, order: seq<Bytes>): Bytes
    requires forall k :: k in order ==> k in meta
  {
    if |order| == 0 then [] else Pair(order[0], meta[order[0]]) + Pairs(meta, order[1..])
  }

  /** `order` is one of the orders in which ranging over the map can visit its keys. */
  ghost predicate Enumerates(order: seq<Bytes>, meta: map<Bytes, Bytes>)
  {
    && (forall k :: k in order <==> k in meta)
    && (forall i, j :: 0 <= i < j < |order| ==> order[i] != order[j])
  }

  /** The fifteen bytes before the names, the same in requests and responses. */
  function Fixed(headLength: uint32, bodyLength: uint32, messageId: uint32,
                 version: byte, compressor: byte, serializer: byte): (f: Bytes)
    ensures |f| == 15
  {
    PutUint32(headLength) + PutUint32(bodyLength) + PutUint32(messageId) + [version, compressor, serializer]
  }

  function ReqFixed(r: ReqValue): (f: Bytes)
    ensures |f| == 15
  {
    Fixed(r.headLength, r.bodyLength, r.messageId, r.version, r.compressor, r.serializer)
  }

  function Names(r: ReqValue): Bytes
  {
    r.serviceName + [SPLITTER] + r.methodName + [SPLITTER]
  }

  function ReqHead(r: ReqValue, order: seq<Bytes>): Bytes
    requires forall k :: k in order ==> k in r.meta
  {
    ReqFixed(r) + Names(r) + Pairs(r.meta, order)
  }

  /** What encoding a request writes, when the map is ranged over in this order: the buffer has
      HeadLength + BodyLength bytes, added in 32 bits, and a panic ends the call if the head
      does not fit in it. */
  function EncodeReq(r: ReqValue, order: seq<Bytes>): Call<Bytes>
    requires forall k :: k in order ==> k in r.meta
  {
    var n := U32(r.headLength + r.bodyLength);
    if |ReqHead(r, order)| > n then Panic else Return(Fit(ReqHead(r, order) + r.data, n))
  }

  /** Puts one pair, without its separator at the end, into the map. */
  function DecodePair(pair: Bytes, meta: map<Bytes, Bytes>): Call<map<Bytes, Bytes>>
  {
    var pairIndex := IndexByte(pair, PAIR_SPLITTER);
    if pairIndex == -1 then Panic else Return(meta[pair[..pairIndex] := pair[pairIndex + 1..]])
  }

  function DecodePairs(head: Bytes, meta: map<Bytes, Bytes>): Call<map<Bytes, Bytes>>
    decreases |head|
  {
    var index := IndexByte(head, SPLITTER);
    if index == -1 then Return(meta) else
    match DecodePair(head[..index], meta)
    case Panic => Panic
    case Return(m) => DecodePairs(head[index + 1..], m)
  }

  /** Decoding of the head after its first fifteen bytes: the two names, then the pairs. */
  function DecodeHead(head: Bytes): Call<(Bytes, Bytes, map<Bytes, Bytes>)>
  {
    var index := IndexByte(head, SPLITTER);
    if index == -1 then Panic else
    var head1 := head[index + 1..];
    var index1 := IndexByte(head1, SPLITTER);
    if index1 == -1 then Panic else
    match DecodePairs(head1[index1 + 1..], map[])
    case Panic => Panic
    case Return(meta) => Return((head[..index], head1[..index1], meta))
  }

  /** Decoding of a message. A slice out of range is a panic. */
  function DecodeReq(bs: Bytes): Call<ReqValue>
  {
    if |bs| < 15 then Panic else
    var headLength := Uint32(bs[..4]);
    if !(15 <= headLength <= |bs|) then Panic else
    match DecodeHead(bs[15..headLength])
    case Panic => Panic
    case Return((serviceName, methodName, meta)) => Return(ReqValue(
      headLength, Uint32(bs[4..8]), Uint32(bs[8..12]), bs[12], bs[13], bs[14],
      serviceName, methodName, meta, bs[headLength..]))
  }

  // ---------------------------------------------------------------- lengths

  /** The bytes that the pairs of these keys take. */
  ghost function PairsSize(meta: map<Bytes, Bytes>, keys: set<Bytes>): (n: nat)
    requires keys <= meta.Keys
  {
    if keys == {} then 0 else
    var k :| k in keys;
    |k| + |meta[k]| + 2 + PairsSize(meta, keys - {k})
  }

  /** The size does not depend on the order in which keys are taken. */
  lemma {:induction false} PairsSizeTake(meta: map<Bytes, Bytes>, keys: set<Bytes>, k: Bytes)
    requires keys <= meta.Keys && k in keys
    ensures PairsSize(meta, keys) == |k| + |meta[k]| + 2 + PairsSize(meta, keys - {k})
    decreases keys
  {
    var j :| j in keys && PairsSize(meta, keys) == |j| + |meta[j]| + 2 + PairsSize(meta, keys - {j});
    if j != k {
      PairsSizeTake(meta, keys - {j}, k);
      PairsSizeTake(meta, keys - {k}, j);
      assert keys - {j} - {k} == keys - {k} - {j};
    }
  }

  ghost function HeadSize(r: ReqValue): (n: nat)
  {
    17 + |r.serviceName| + |r.methodName| + PairsSize(r.meta, r.meta.Keys)
  }

  lemma {:induction false} PairsLength(meta: map<Bytes, Bytes>, order: seq<Bytes>, keys: set<Bytes>)
    requires keys <= meta.Keys && forall k :: k in order <==> k in keys
    requires forall i, j :: 0 <= i < j < |order| ==> order[i] != order[j]
    ensures |Pairs(meta, order)| == PairsSize(meta, keys)
  {
    if |order| > 0 {
      PairsSizeTake(meta, keys, order[0]);
      forall k ensures k in order[1..] <==> k in keys - {order[0]} {
        if k in keys && k != order[0] {
          var i :| 0 <= i < |order| && order[i] == k;
          assert order[1..][i - 1] == k;
        }
      }
      PairsLength(meta, order[1..], keys - {order[0]});
    } else {
      assert keys == {};
    }
  }

  /** What `CalHeadLength` counts is the length of the head, in whatever order it is written. */
  lemma HeadLengthIsHeadSize(r: ReqValue, order: seq<Bytes>)
    requires Enumerates(order, r.meta)
    ensures |ReqHead(r, order)| == HeadSize(r)
  {
    PairsLength(r.meta, order, r.meta.Keys);
  }

  // ---------------------------------------------------------------- the round trip

  predicate CleanMeta(meta: map<Bytes, Bytes>)
  {
    forall k :: k in meta ==> SPLITTER !in k && PAIR_SPLITTER !in k && SPLITTER !in meta[k]
  }

  /** The text of the request does not use the bytes that separate its parts. */
  predicate Clean(r: ReqValue)
  {
    SPLITTER !in r.serviceName && SPLITTER !in r.methodName && CleanMeta(r.meta)
  }

  lemma DecodedPairIsClean(pair: Bytes, meta: map<Bytes, Bytes>)
    requires CleanMeta(meta) && SPLITTER !in pair
    ensures DecodePair(pair, meta).Return? ==> CleanMeta(DecodePair(pair, meta).value)
  {
    hide IndexByte;
  }

  /** Whatever the decoder returns is clean. */
  lemma {:induction false} DecodedPairsAreClean(head: Bytes, meta: map<Bytes, Bytes>)
    requires CleanMeta(meta)
    ensures DecodePairs(head, meta).Return? ==> CleanMeta(DecodePairs(head, meta).value)
    decreases |head|
  {
    hide IndexByte, DecodePair, CleanMeta;
    var index := IndexByte(head, SPLITTER);
    if index != -1 {
      DecodedPairIsClean(head[..index], meta);
      var step := DecodePair(head[..index], meta);
      if step.Return? {
        DecodedPairsAreClean(head[index + 1..], step.value);
      }
    }
  }

  lemma DecodedHeadIsClean(head: Bytes)
    ensures match DecodeHead(head)
      case Panic => true
      case Return((serviceName, methodName, meta)) =>
        SPLITTER !in serviceName && SPLITTER !in methodName && CleanMeta(meta)
  {
    hide DecodePairs, IndexByte;
    if IndexByte(head, SPLITTER) != -1 {
      var head1 := head[IndexByte(head, SPLITTER) + 1..];
      DecodedPairsAreClean(head1[IndexByte(head1, SPLITTER) + 1..], map[]);
    }
  }

  lemma DecodedIsClean(bs: Bytes)
    ensures DecodeReq(bs).Return? ==> Clean(DecodeReq(bs).value)
  {
    hide DecodeHead, Uint32, CleanMeta;
    if DecodeReq(bs).Return? {
      DecodedHeadIsClean(bs[15..Uint32(bs[..4])]);
    }
  }

  /** Splitting off the next name or pair. */
  lemma NextField(s: Bytes, rest: Bytes)
    requires SPLITTER !in s
    ensures var head := s + [SPLITTER] + rest;
      IndexByte(head, SPLITTER) == |s| && head[..|s|] == s && head[|s| + 1..] == rest
  {
    IndexOfFirst(s, SPLITTER, rest);
  }

  lemma DecodeUndoesPair(k: Bytes, v: Bytes, m: map<Bytes, Bytes>)
    requires PAIR_SPLITTER !in k
    ensures DecodePair(k + [PAIR_SPLITTER] + v, m) == Return(m[k := v])
  {
    hide IndexByte;
    var pair := k + [PAIR_SPLITTER] + v;
    IndexOfFirst(k, PAIR_SPLITTER, v);
    assert pair[..|k|] == k && pair[|k| + 1..] == v;
  }

  /** The entries of the map under the keys ranged over. */
  function Under(meta: map<Bytes, Bytes>, order: seq<Bytes>): map<Bytes, Bytes>
    requires forall k :: k in order ==> k in meta
  {
    map k | k in order :: meta[k]
  }

  lemma MapsOnto(meta: map<Bytes, Bytes>, order: seq<Bytes>, m: map<Bytes, Bytes>)
    requires |order| > 0 && forall k :: k in order ==> k in meta
    ensures m[order[0] := meta[order[0]]] + Under(meta, order[1..]) == m + Under(meta, order)
  {
    assert order == [order[0]] + order[1..];
  }

  lemma {:induction false} DecodeUndoesPairs(meta: map<Bytes, Bytes>, order: seq<Bytes>, m: map<Bytes, Bytes>)
    requires CleanMeta(meta) && forall k :: k in order ==> k in meta
    ensures DecodePairs(Pairs(meta, order), m) == Return(m + Under(meta, order))
  {
    hide IndexByte, DecodePair, SPLITTER, PAIR_SPLITTER;
    if |order| == 0 {
      assert m + Under(meta, order) == m;
    } else {
      var k := order[0];
      assert k in order;
      var v := meta[k];
      var pair, rest := k + [PAIR_SPLITTER] + v, Pairs(meta, order[1..]);
      assert SPLITTER !in pair by {
        CleanPair(meta, k);
      }
      assert Pairs(meta, order) == pair + [SPLITTER] + rest;
      NextField(pair, rest);
      DecodeUndoesPair(k, v, m);
      DecodeUndoesPairs(meta, order[1..], m[k := v]);
      MapsOnto(meta, order, m);
    }
  }

  lemma CleanPair(meta: map<Bytes, Bytes>, k: Bytes)
    requires CleanMeta(meta) && k in meta
    ensures SPLITTER !in k + [PAIR_SPLITTER] + meta[k] && PAIR_SPLITTER !in k
  {
  }

  lemma FixedFields(a: uint32, b: uint32, c: uint32, x: byte, y: byte, z: byte, rest: Bytes)
    ensures var bs := Fixed(a, b, c, x, y, z) + rest;
      && Uint32(bs[..4]) == a && Uint32(bs[4..8]) == b && Uint32(bs[8..12]) == c
      && bs[12] == x && bs[13] == y && bs[14] == z && bs[15..] == rest
  {
    hide Uint32, PutUint32;
    var bs := Fixed(a, b, c, x, y, z) + rest;
    assert bs[..4] == PutUint32(a) && bs[4..8] == PutUint32(b) && bs[8..12] == PutUint32(c);
    Uint32Undoes(a);
    Uint32Undoes(b);
    Uint32Undoes(c);
  }

  lemma DecodeUndoesHead(r: ReqValue, order: seq<Bytes>)
    requires Enumerates(order, r.meta) && Clean(r)
    ensures DecodeHead(Names(r) + Pairs(r.meta, order)) == Return((r.serviceName, r.methodName, r.meta))
  {
    hide IndexByte, DecodePairs, Pairs, Under, CleanMeta, SPLITTER;
    var pairs := Pairs(r.meta, order);
    var head := Names(r) + pairs;
    assert head == r.serviceName + [SPLITTER] + (r.methodName + [SPLITTER] + pairs);
    NextField(r.serviceName, r.methodName + [SPLITTER] + pairs);
    NextField(r.methodName, pairs);
    DecodeUndoesPairs(r.meta, order, map[]);
    AllUnder(r.meta, order);
  }

  lemma AllUnder(meta: map<Bytes, Bytes>, order: seq<Bytes>)
    requires forall k :: k in order <==> k in meta
    ensures map[] + Under(meta, order) == meta
  {
  }

  lemma DecodeUndoesClean(r: ReqValue, order: seq<Bytes>)
    requires Enumerates(order, r.meta) && Clean(r) && r.headLength == HeadSize(r)
    ensures DecodeReq(ReqHead(r, order) + r.data) == Return(r)
  {
    hide HeadSize, Fixed, DecodeHead, Uint32, Names, Pairs, Clean;
    var head := Names(r) + Pairs(r.meta, order);
    var bs := ReqHead(r, order) + r.data;
    HeadLengthIsHeadSize(r, order);
    assert bs == ReqFixed(r) + (head + r.data);
    FixedFields(r.headLength, r.bodyLength, r.messageId, r.version, r.compressor, r.serializer,
                head + r.data);
    assert bs[15..r.headLength] == head;
    DecodeUndoesHead(r, order);
    assert bs[r.headLength..] == r.data;
  }

  /** The round trip, exactly. A request whose HeadLength is what `CalHeadLength` counts comes
      back from the wire unchanged, whatever the order in which its map was ranged over, iff
      BodyLength is the length of its data, the two lengths do not overflow 32 bits together
      and its names, keys and values are clean. */
  lemma ReqRoundTrip(r: ReqValue, order: seq<Bytes>)
    requires Enumerates(order, r.meta) && r.headLength == HeadSize(r)
    ensures (EncodeReq(r, order).Return? && DecodeReq(EncodeReq(r, order).value) == Return(r)) <==>
      r.bodyLength == |r.data| && r.headLength + r.bodyLength < 0x1_0000_0000 && Clean(r)
  {
    hide HeadSize, ReqHead, Clean, DecodeReq;
    HeadLengthIsHeadSize(r, order);
    var n := U32(r.headLength + r.bodyLength);
    if r.headLength <= n {
      var bs := Fit(ReqHead(r, order) + r.data, n);
      DecodedIsClean(bs);
      DecodedDataLength(bs);
      if r.bodyLength == |r.data| && r.headLength + r.bodyLength < 0x1_0000_0000 && Clean(r) {
        assert bs == ReqHead(r, order) + r.data;
        DecodeUndoesClean(r, order);
      }
    }
  }

  lemma DecodedDataLength(bs: Bytes)
    ensures DecodeReq(bs).Return? ==>
      DecodeReq(bs).value.headLength + |DecodeReq(bs).value.data| == |bs|
  {
    hide DecodeHead, Uint32;
  }

  // ---------------------------------------------------------------- the bytes on the wire

  /** Four bytes, the most significant one first. */
  ghost predicate BigEndian(bs: Bytes, at: nat, n: uint32)
  {
    && at + 4 <= |bs|
    && bs[at] == n / 0x100_0000 && bs[at + 1] == n / 0x1_0000 % 256
    && bs[at + 2] == n / 0x100 % 256 && bs[at + 3] == n % 256
  }

  lemma FixedBytes(a: uint32, b: uint32, c: uint32, x: byte, y: byte, z: byte, rest: Bytes)
    ensures var bs := Fixed(a, b, c, x, y, z) + rest;
      && BigEndian(bs, 0, a) && BigEndian(bs, 4, b) && BigEndian(bs, 8, c)
      && bs[12] == x && bs[13] == y && bs[14] == z && bs[15..] == rest
  {
  }

  /** The bytes of an encoded request: head length, body length and message id, big-endian; version,
      compressor and serializer; the service and the method name, each with a line feed after it;
      the pairs; the data. */
  lemma RequestBytes(r: ReqValue, order: seq<Bytes>)
    requires Enumerates(order, r.meta) && r.headLength == HeadSize(r)
    requires r.bodyLength == |r.data| && r.headLength + r.bodyLength < 0x1_0000_0000
    ensures EncodeReq(r, order).Return?
    ensures var bs := EncodeReq(r, order).value;
      && |bs| == r.headLength + r.bodyLength && |bs| >= 15
      && BigEndian(bs, 0, r.headLength) && BigEndian(bs, 4, r.bodyLength) && BigEndian(bs, 8, r.messageId)
      && bs[12] == r.version && bs[13] == r.compressor && bs[14] == r.serializer
      && bs[15..] == r.serviceName + [10] + r.methodName + [10] + Pairs(r.meta, order) + r.data
  {
    hide HeadSize, Fixed, Pairs;
    HeadLengthIsHeadSize(r, order);
    var rest := Names(r) + Pairs(r.meta, order) + r.data;
    var bs := ReqHead(r, order) + r.data;
    assert bs == ReqFixed(r) + rest;
    assert Fit(bs, |bs|) == bs;
    FixedBytes(r.headLength, r.bodyLength, r.messageId, r.version, r.compressor, r.serializer, rest);
  }

  /** A pair is the key, a carriage return, the value and a line feed; the pairs stand one after
      another in the order in which the map was ranged over. */
  lemma PairBytes(meta: map<Bytes, Bytes>, order: seq<Bytes>)
    requires forall k :: k in order ==> k in meta
    ensures |order| == 0 ==> Pairs(meta, order) == []
    ensures |order| > 0 ==>
      Pairs(meta, order) == order[0] + [13] + meta[order[0]] + [10] + Pairs(meta, order[1..])
  {
  }

  /** The bytes of an encoded response. */
  lemma ResponseBytes(r: RespValue)
    requires r.headLength == 15 + |r.error| && r.bodyLength == |r.data|
    requires r.headLength + r.bodyLength < 0x1_0000_0000
    ensures EncodeResp(r).Return?
    ensures var bs := EncodeResp(r).value;
      && |bs| == r.headLength + r.bodyLength && |bs| >= 15
      && BigEndian(bs, 0, r.headLength) && BigEndian(bs, 4, r.bodyLength) && BigEndian(bs, 8, r.messageId)
      && bs[12] == r.version && bs[13] == r.compressor && bs[14] == r.serializer
      && bs[15..] == r.error + r.data
  {
    hide Fixed;
    var bs := RespHead(r) + r.data;
    var fixed := Fixed(r.headLength, r.bodyLength, r.messageId, r.version, r.compressor, r.serializer);
    assert bs == fixed + (r.error + r.data);
    assert Fit(bs, |bs|) == bs;
    FixedBytes(r.headLength, r.bodyLength, r.messageId, r.version, r.compressor, r.serializer, r.error + r.data);
  }

  // ---------------------------------------------------------------- responses

  function RespHead(r: RespValue): Bytes
  {
    Fixed(r.headLength, r.bodyLength, r.messageId, r.version, r.compressor, r.serializer) + r.error
  }

  function EncodeResp(r: RespValue): Call<Bytes>
  {
    var n := U32(r.headLength + r.bodyLength);
    if |RespHead(r)| > n then Panic else Return(Fit(RespHead(r) + r.data, n))
  }

  function DecodeResp(bs: Bytes): Call<RespValue>
  {
    if |bs| < 15 then Panic else
    var headLength := Uint32(bs[..4]);
    if !(15 <= headLength <= |bs|) then Panic else
    Return(RespValue(headLength, Uint32(bs[4..8]), Uint32(bs[8..12]), bs[12], bs[13], bs[14],
                     bs[15..headLength], bs[headLength..]))
  }

  /** A response comes back unchanged iff its two lengths are what `SetHeadLength` and the
      server set them to and do not overflow together; its bytes may be anything. */
  lemma RespRoundTrip(r: RespValue)
    ensures (EncodeResp(r).Return? && DecodeResp(EncodeResp(r).value) == Return(r)) <==>
      && r.headLength == 15 + |r.error| && r.bodyLength == |r.data|
      && r.headLength + r.bodyLength < 0x1_0000_0000
  {
    hide Fixed, Uint32, Zeros;
    var n := U32(r.headLength + r.bodyLength);
    if |RespHead(r)| <= n {
      var bs := Fit(RespHead(r) + r.data, n);
      var rest := bs[15..];
      assert bs == Fixed(r.headLength, r.bodyLength, r.messageId, r.version, r.compressor, r.serializer) + rest;
      FixedFields(r.headLength, r.bodyLength, r.messageId, r.version, r.compressor, r.serializer, rest);
      if r.headLength == 15 + |r.error| && r.bodyLength == |r.data| && r.headLength + r.bodyLength < 0x1_0000_0000 {
        assert bs == RespHead(r) + r.data;
      }
    }
  }
}
