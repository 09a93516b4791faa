/** The encoders and decoders of rpc/homework1/message/message.go as they run, over buffers and
    request objects, each proved against its function in `RpcMessage`. */
module RpcCodec {
  import opened RpcMessage

  /** The slice `cur` the encoders write through: the buffer from its cursor on.
      `hits` counts the writes to every byte of the buffer. */
  class Cursor {
    const bs: array<byte>
    var pos: nat
    ghost var hits: seq<nat>

    /** Everything before the cursor was written once, everything after it is still zero. */
    ghost predicate Valid()
      reads this, bs
      ensures Valid() ==> pos <= bs.Length
    {
      && pos <= bs.Length == |hits|
      && (forall i :: 0 <= i < pos ==> hits[i] == 1)
      && (forall i :: pos <= i < bs.Length ==> hits[i] == 0 && bs[i] == 0)
    }

    ghost function Written(): (w: Bytes)
      reads this, bs
      requires pos <= bs.Length
    {
      bs[..pos]
    }

    constructor (n: nat)
      ensures Valid() && fresh(bs) && bs.Length == n && Written() == []
    {
      bs := new byte[n](_ => 0);
      pos := 0;
      hits := seq(n, _ => 0);
    }

    /** Writes all of `s` and moves the cursor past it; panics if `s` does not fit. */
    method Put(s: Bytes) returns (r: Call<()>)
      requires Valid()
      modifies this, bs
      ensures r.Panic? <==> old(pos) + |s| > bs.Length
      ensures r.Return? ==> Valid() && pos == old(pos) + |s| && Written() == old(Written()) + s
    {
      if pos + |s| > bs.Length {
        return Panic;
      }
      PutFitting(s);
      return Return(());
    }

    /** `copy(cur, s)`: writes as much of `s` as fits. */
    method Copy(s: Bytes)
      requires Valid()
      modifies this, bs
      ensures Valid()
      ensures var n := if old(pos) + |s| <= bs.Length then |s| else bs.Length - old(pos);
        Written() == old(Written()) + s[..n]
    {
      var n := if pos + |s| <= bs.Length then |s| else bs.Length - pos;
      PutFitting(s[..n]);
    }

    method PutFitting(s: Bytes)
      requires Valid() && pos + |s| <= bs.Length
      modifies this, bs
      ensures Valid() && pos == old(pos) + |s| && Written() == old(Written()) + s
    {
      var start := pos;
      forall i | 0 <= i < |s| {
        bs[start + i] := s[i];
      }
      ghost var was := hits;
      hits := seq(|was|, i requires 0 <= i < |was| => if start <= i < start + |s| then was[i] + 1 else was[i]);
      pos := start + |s|;
      forall i | start <= i < pos ensures bs[i] == s[i - start] {
        assert bs[start + (i - start)] == s[i - start];
      }
      assert Written() == old(Written()) + s;
    }

    /** The numbers that every message starts with. */
    method PutFixed(headLength: uint32, bodyLength: uint32, messageId: uint32,
                    version: byte, compressor: byte, serializer: byte) returns (r: Call<()>)
      requires Valid() && pos == 0
      modifies this, bs
      ensures r.Panic? <==> bs.Length < 15
      ensures r.Return? ==>
        Valid() && Written() == Fixed(headLength, bodyLength, messageId, version, compressor, serializer)
    {
      hide PutUint32, Valid;
      r := Put(PutUint32(headLength));
      if r.Return? {
        r := Put(PutUint32(bodyLength));
        if r.Return? {
          r := Put(PutUint32(messageId));
          if r.Return? {
            r := Put([version, compressor, serializer]);
          }
        }
      }
    }
  }

  class Request {
    var headLength: uint32
    var bodyLength: uint32
    var messageId: uint32
    var version: byte
    var compressor: byte
    var serializer: byte
    var serviceName: Bytes
    var methodName: Bytes
    var meta: map<Bytes, Bytes>
    var data: Bytes

    ghost function Value(): ReqValue
      reads this
    {
      ReqValue(headLength, bodyLength, messageId, version, compressor, serializer,
               serviceName, methodName, meta, data)
    }

    /** Sets HeadLength to the size of the head, cut to 32 bits, and nothing else. */
    method CalHeadLength()
      modifies this`headLength
      ensures headLength == U32(HeadSize(Value()))
    {
      hide U32;
      var res := 15;
      res := res + |serviceName|;
      res := res + 1;
      res := res + |methodName|;
      res := res + 1;
      var keys := meta.Keys;
      while keys != {}
        invariant keys <= meta.Keys
        invariant res + PairsSize(meta, keys) == 17 + |serviceName| + |methodName| + PairsSize(meta, meta.Keys)
        decreases keys
      {
        var key :| key in keys;
        PairsSizeTake(meta, keys, key);
        res := res + |key| + 1 + |meta[key]| + 1;
        keys := keys - {key};
      }
      headLength := U32(res);
    }

    /** The decoder's part between the fifteenth byte and the body. */
    method ReadHead(head0: Bytes) returns (r: Call<()>)
      modifies this`serviceName, this`methodName, this`meta
      ensures r.Panic? <==> DecodeHead(head0).Panic?
      ensures r.Return? ==> DecodeHead(head0) == Return((serviceName, methodName, meta))
    {
      hide IndexByte, DecodePairs;
      var head := head0;
      var index := IndexByte(head, SPLITTER);
      if index == -1 {
        return Panic;
      }
      serviceName := head[..index];
      head := head[index + 1..];
      index := IndexByte(head, SPLITTER);
      if index == -1 {
        return Panic;
      }
      methodName := head[..index];
      head := head[index + 1..];
      if |head| > 0 {
        var m := DecodeMeta(head);
        if m.Panic? {
          return Panic;
        }
        meta := m.value;
      } else {
        NoPairs(head);
        meta := map[];
      }
      return Return(());
    }
  }

  // ---------------------------------------------------------------- requests

  /** `order` is what ranging over the map has visited while `keys` are left. */
  ghost predicate Ranging(order: seq<Bytes>, keys: set<Bytes>, meta: map<Bytes, Bytes>)
  {
    && keys <= meta.Keys
    && (forall k :: k in order <==> k in meta && k !in keys)
    && (forall i, j :: 0 <= i < j < |order| ==> order[i] != order[j])
  }

  lemma RangeOver(order: seq<Bytes>, keys: set<Bytes>, k: Bytes, meta: map<Bytes, Bytes>)
    requires Ranging(order, keys, meta) && k in keys
    ensures Ranging(order + [k], keys - {k}, meta)
    ensures Pairs(meta, order + [k]) == Pairs(meta, order) + Pair(k, meta[k])
    ensures |Pairs(meta, order)| + |Pair(k, meta[k])| <= PairsSize(meta, meta.Keys)
  {
    PairsAppend(meta, order, k);
    RangedLength(order, keys, meta);
    PairsSizeTake(meta, keys, k);
  }

  lemma {:induction false} PairsAppend(meta: map<Bytes, Bytes>, order: seq<Bytes>, k: Bytes)
    requires k in meta && forall j :: j in order ==> j in meta
    ensures Pairs(meta, order + [k]) == Pairs(meta, order) + Pair(k, meta[k])
  {
    hide Pair;
    if |order| == 0 {
      assert order + [k] == [k];
    } else {
      PairsAppend(meta, order[1..], k);
      assert (order + [k])[1..] == order[1..] + [k];
    }
  }

  /** The pairs visited and the pairs left take the whole size together. */
  lemma {:induction false} RangedLength(order: seq<Bytes>, keys: set<Bytes>, meta: map<Bytes, Bytes>)
    requires Ranging(order, keys, meta)
    ensures |Pairs(meta, order)| + PairsSize(meta, keys) == PairsSize(meta, meta.Keys)
  {
    if |order| == 0 {
      assert keys == meta.Keys;
    } else {
      var n := |order| - 1;
      var k := order[n];
      assert order == order[..n] + [k];
      assert Ranging(order[..n], keys + {k}, meta);
      RangedLength(order[..n], keys + {k}, meta);
      PairsSizeTake(meta, keys + {k}, k);
      assert keys + {k} - {k} == keys;
      PairsAppend(meta, order[..n], k);
    }
  }

  /** Some order in which the rest of a map can be ranged over. */
  lemma {:induction false} FinishRange(order: seq<Bytes>, keys: set<Bytes>, meta: map<Bytes, Bytes>)
    returns (all: seq<Bytes>)
    requires Ranging(order, keys, meta)
    ensures Enumerates(all, meta)
    decreases keys
  {
    if keys == {} {
      all := order;
    } else {
      var k :| k in keys;
      RangeOver(order, keys, k, meta);
      all := FinishRange(order + [k], keys - {k}, meta);
    }
  }

  method PutNames(c: Cursor, req: Request) returns (r: Call<()>)
    requires c.Valid()
    modifies c, c.bs
    ensures r.Panic? <==> old(c.pos) + |Names(req.Value())| > c.bs.Length
    ensures r.Return? ==> c.Valid() && c.Written() == old(c.Written()) + Names(req.Value())
    ensures r.Return? ==> c.pos == old(c.pos) + |Names(req.Value())|
  {
    r := c.Put(req.serviceName + [SPLITTER]);
    if r.Return? {
      r := c.Put(req.methodName + [SPLITTER]);
    }
  }

  method PutPairs(c: Cursor, meta: map<Bytes, Bytes>) returns (r: Call<()>, ghost order: seq<Bytes>)
    requires c.Valid()
    modifies c, c.bs
    ensures Enumerates(order, meta)
    ensures r.Panic? <==> old(c.pos) + |Pairs(meta, order)| > c.bs.Length
    ensures r.Return? ==> c.Valid() && c.Written() == old(c.Written()) + Pairs(meta, order)
    ensures r.Return? ==> c.pos == old(c.pos) + |Pairs(meta, order)|
  {
    hide Cursor.Valid, Pair;
    var keys := meta.Keys;
    order := [];
    while keys != {}
      invariant Ranging(order, keys, meta)
      invariant c.Valid() && c.Written() == old(c.Written()) + Pairs(meta, order)
      invariant c.pos == old(c.pos) + |Pairs(meta, order)|
      decreases keys
    {
      var key :| key in keys;
      RangeOver(order, keys, key, meta);
      r := c.Put(Pair(key, meta[key]));
      if r.Panic? {
        order := FinishRange(order, keys, meta);
        RangedLength(order, {}, meta);
        return;
      }
      keys := keys - {key};
      order := order + [key];
    }
    r := Return(());
  }

  /** A buffer into which `s` was copied, as far as it fits, after it was cleared. */
  lemma Copied(c: Cursor, s: Bytes)
    requires c.Valid() && c.Written() == s[..if |s| <= c.bs.Length then |s| else c.bs.Length]
    ensures c.bs[..] == Fit(s, c.bs.Length)
    ensures c.bs.Length == |s| ==> |c.hits| == |s| && forall i :: 0 <= i < |s| ==> c.hits[i] == 1
  {
    assert c.bs[..] == c.Written() + c.bs[c.pos..];
  }

  /** The encoder of requests. What it returns is what `RpcMessage.EncodeReq` returns for one of
      the orders in which the map can be ranged over. If the lengths in the request are right,
      every byte of the buffer is written exactly once; `hits` counts the writes. */
  method EncodeReq(req: Request) returns (r: Call<array<byte>>, ghost order: seq<Bytes>, ghost hits: seq<nat>)
    ensures Enumerates(order, req.Value().meta)
    ensures r.Panic? <==> RpcMessage.EncodeReq(req.Value(), order).Panic?
    ensures r.Return? ==> fresh(r.value) && RpcMessage.EncodeReq(req.Value(), order) == Return(r.value[..])
    ensures r.Return? && |ReqHead(req.Value(), order)| + |req.data| == r.value.Length ==>
      |hits| == r.value.Length && forall i :: 0 <= i < |hits| ==> hits[i] == 1
  {
    hide Cursor.Valid, Names, Fixed, Pairs, Fit;
    var c := new Cursor(U32(req.headLength + req.bodyLength));
    hits := [];
    order := FinishRange([], req.meta.Keys, req.meta);
    var p := c.PutFixed(req.headLength, req.bodyLength, req.messageId, req.version, req.compressor, req.serializer);
    if p.Panic? {
      return Panic, order, hits;
    }
    p := PutNames(c, req);
    if p.Panic? {
      return Panic, order, hits;
    }
    p, order := PutPairs(c, req.meta);
    if p.Panic? {
      return Panic, order, hits;
    }
    assert c.Written() == ReqHead(req.Value(), order);
    c.Copy(req.data);
    ghost var all := ReqHead(req.Value(), order) + req.data;
    assert c.Written() == all[..if |all| <= c.bs.Length then |all| else c.bs.Length];
    Copied(c, all);
    return Return(c.bs), order, c.hits;
  }

  /** The decoder of requests. */
  method DecodeReq(bs: Bytes) returns (r: Call<Request>)
    ensures r.Panic? <==> RpcMessage.DecodeReq(bs).Panic?
    ensures r.Return? ==> fresh(r.value) && RpcMessage.DecodeReq(bs) == Return(r.value.Value())
  {
    hide Uint32, DecodeHead;
    if |bs| < 15 {
      return Panic;
    }
    var req := new Request;
    req.headLength := Uint32(bs[..4]);
    req.bodyLength := Uint32(bs[4..8]);
    req.messageId := Uint32(bs[8..12]);
    req.version := bs[12];
    req.compressor := bs[13];
    req.serializer := bs[14];
    if !(15 <= req.headLength <= |bs|) {
      return Panic;
    }
    var p := req.ReadHead(bs[15..req.headLength]);
    if p.Panic? {
      return Panic;
    }
    req.data := bs[req.headLength..];
    return Return(req);
  }

  lemma NoPairs(head: Bytes)
    requires |head| == 0
    ensures DecodePairs(head, map[]) == Return(map[])
  {
  }

  /** The decoder's loop over the pairs. */
  method DecodeMeta(head0: Bytes) returns (r: Call<map<Bytes, Bytes>>)
    ensures r == DecodePairs(head0, map[])
  {
    hide IndexByte;
    var head, metaMap := head0, map[];
    var index := IndexByte(head, SPLITTER);
    while index != -1
      invariant index == IndexByte(head, SPLITTER)
      invariant DecodePairs(head, metaMap) == DecodePairs(head0, map[])
      decreases |head|
    {
      var pair := head[..index];
      var pairIndex := IndexByte(pair, PAIR_SPLITTER);
      if pairIndex == -1 {
        return Panic;
      }
      var key := pair[..pairIndex];
      var value := pair[pairIndex + 1..];
      metaMap := metaMap[key := value];
      head := head[index + 1..];
      index := IndexByte(head, SPLITTER);
    }
    return Return(metaMap);
  }

  // ---------------------------------------------------------------- responses

  class Response {
    var headLength: uint32
    var bodyLength: uint32
    var messageId: uint32
    var version: byte
    var compressor: byte
    var serializer: byte
    var error: Bytes
    var data: Bytes

    ghost function Value(): RespValue
      reads this
    {
      RespValue(headLength, bodyLength, messageId, version, compressor, serializer, error, data)
    }

    method SetHeadLength()
      modifies this`headLength
      ensures headLength == U32(15 + |error|)
    {
      headLength := U32(15 + |error|);
    }
  }

  /** The encoder of responses. */
  method EncodeResp(resp: Response) returns (r: Call<array<byte>>, ghost hits: seq<nat>)
    ensures r.Panic? <==> RpcMessage.EncodeResp(resp.Value()).Panic?
    ensures r.Return? ==> fresh(r.value) && RpcMessage.EncodeResp(resp.Value()) == Return(r.value[..])
    ensures r.Return? && |RespHead(resp.Value())| + |resp.data| == r.value.Length ==>
      |hits| == r.value.Length && forall i :: 0 <= i < |hits| ==> hits[i] == 1
  {
    hide Cursor.Valid, Fixed, Fit;
    var c := new Cursor(U32(resp.headLength + resp.bodyLength));
    hits := [];
    var p := c.PutFixed(resp.headLength, resp.bodyLength, resp.messageId,
                        resp.version, resp.compressor, resp.serializer);
    if p.Panic? {
      return Panic, hits;
    }
    p := c.Put(resp.error);
    if p.Panic? {
      return Panic, hits;
    }
    assert c.Written() == RespHead(resp.Value());
    c.Copy(resp.data);
    ghost var all := RespHead(resp.Value()) + resp.data;
    assert c.Written() == all[..if |all| <= c.bs.Length then |all| else c.bs.Length];
    Copied(c, all);
    return Return(c.bs), c.hits;
  }

  /** The decoder of responses. */
  method DecodeResp(bs: Bytes) returns (r: Call<Response>)
    ensures r.Panic? <==> RpcMessage.DecodeResp(bs).Panic?
    ensures r.Return? ==> fresh(r.value) && RpcMessage.DecodeResp(bs) == Return(r.value.Value())
  {
    hide Uint32;
    if |bs| < 15 {
      return Panic;
    }
    var resp := new Response;
    resp.headLength := Uint32(bs[..4]);
    resp.bodyLength := Uint32(bs[4..8]);
    resp.messageId := Uint32(bs[8..12]);
    resp.version := bs[12];
    resp.compressor := bs[13];
    resp.serializer := bs[14];
    if !(15 <= resp.headLength <= |bs|) {
      return Panic;
    }
    resp.error := bs[15..resp.headLength];
    resp.data := bs[resp.headLength..];
    return Return(resp);
  }

  // ---------------------------------------------------------------- framing

  /** A connection whose whole incoming stream is there to be read. */
  class Conn {
    const stream: Bytes
    var pos: nat

    ghost predicate Valid()
      reads this
    {
      pos <= |stream|
    }

    ghost function Rest(): Bytes
      reads this
      requires Valid()
    {
      stream[pos..]
    }

    constructor (stream: Bytes)
      ensures Valid() && Rest() == stream
    {
      this.stream := stream;
      pos := 0;
    }

    /** One read of up to `n` bytes. */
    method Read(n: nat) returns (bs: Bytes)
      requires Valid()
      modifies this`pos
      ensures Valid() && |bs| == (if n <= |old(Rest())| then n else |old(Rest())|)
      ensures old(Rest()) == bs + Rest()
    {
      var m := if n <= |stream| - pos then n else |stream| - pos;
      bs := stream[pos..pos + m];
      pos := pos + m;
    }
  }

  /** Reads one message: eight bytes that hold its two lengths, then the rest. The buffer has
      as many bytes as the lengths say, added in 32 bits; a buffer of less than eight bytes is a
      panic, which is recovered and reported as an error like a stream that ends too early. */
  function NextMsg(stream: Bytes): Call<(Bytes, Bytes)>
  {
    if |stream| < 8 then Panic else
    var n := U32((Uint32(stream[..4]) as int) + Uint32(stream[4..8]));
    if n < 8 || |stream| < n then Panic else Return((stream[..n], stream[n..]))
  }

  /** `Panic` stands for the error result. */
  method ReadMsg(conn: Conn) returns (r: Call<Bytes>)
    requires conn.Valid()
    modifies conn`pos
    ensures conn.Valid()
    ensures r.Panic? <==> NextMsg(old(conn.Rest())).Panic?
    ensures r.Return? ==> NextMsg(old(conn.Rest())) == Return((r.value, conn.Rest()))
  {
    hide Uint32, U32;
    ghost var stream := conn.Rest();
    var msgLenBytes := conn.Read(8);
    if |msgLenBytes| != 8 {
      return Panic;
    }
    assert msgLenBytes == stream[..8];
    assert msgLenBytes[..4] == stream[..4] && msgLenBytes[4..] == stream[4..8];
    var headLength := Uint32(msgLenBytes[..4]);
    var bodyLength := Uint32(msgLenBytes[4..]);
    var n := U32((headLength as int) + bodyLength);
    if n < 8 {
      return Panic;
    }
    var body := conn.Read(n - 8);
    if |body| < n - 8 {
      return Panic;
    }
    assert stream == msgLenBytes + body + conn.Rest();
    return Return(msgLenBytes + body);
  }

  /** A message that says its own length. */
  predicate Framed(bs: Bytes)
  {
    |bs| >= 8 && |bs| == U32((Uint32(bs[..4]) as int) + Uint32(bs[4..8]))
  }

  function Concat(msgs: seq<Bytes>): Bytes
  {
    if |msgs| == 0 then [] else msgs[0] + Concat(msgs[1..])
  }

  /** Everything repeated reading gets out of a stream, and what is left of it after that. */
  function ReadAll(stream: Bytes): (seq<Bytes>, Bytes)
    decreases |stream|
  {
    match NextMsg(stream)
    case Panic => ([], stream)
    case Return((msg, rest)) => var (msgs, end) := ReadAll(rest); ([msg] + msgs, end)
  }

  lemma NextIsFirst(msg: Bytes, rest: Bytes)
    requires Framed(msg)
    ensures NextMsg(msg + rest) == Return((msg, rest))
  {
    hide Uint32, U32;
    var s := msg + rest;
    assert s[..4] == msg[..4] && s[4..8] == msg[4..8] && s[..|msg|] == msg && s[|msg|..] == rest;
  }

  /** Reading the concatenation of framed messages yields these messages and uses up the
      stream, whatever bytes they hold. */
  lemma {:induction false} ReadAllUndoesConcat(msgs: seq<Bytes>)
    requires forall i :: 0 <= i < |msgs| ==> Framed(msgs[i])
    ensures ReadAll(Concat(msgs)) == (msgs, [])
  {
    hide Framed, NextMsg;
    if |msgs| == 0 {
      EmptyStream();
      assert msgs == [];
    } else {
      NextIsFirst(msgs[0], Concat(msgs[1..]));
      ReadAllUndoesConcat(msgs[1..]);
      assert [msgs[0]] + msgs[1..] == msgs;
    }
  }

  lemma EmptyStream()
    ensures NextMsg([]) == Panic
  {
  }

  /** A request that a client sends: its lengths are set, they fit, and it is clean. */
  ghost predicate Sendable(r: ReqValue)
  {
    && r.headLength == HeadSize(r) && r.bodyLength == |r.data|
    && r.headLength + r.bodyLength < 0x1_0000_0000 && Clean(r)
  }

  lemma FixedIsFramed(a: uint32, b: uint32, c: uint32, x: byte, y: byte, z: byte, rest: Bytes)
    requires a + b < 0x1_0000_0000 && 15 + |rest| == a + b
    ensures Framed(Fixed(a, b, c, x, y, z) + rest)
  {
    hide Uint32, Fixed;
    FixedFields(a, b, c, x, y, z, rest);
  }

  lemma FitExactly(s: Bytes)
    ensures Fit(s, |s|) == s
  {
  }

  lemma EncodedIsFramed(r: ReqValue, order: seq<Bytes>)
    requires Enumerates(order, r.meta) && Sendable(r)
    ensures RpcMessage.EncodeReq(r, order).Return? && Framed(RpcMessage.EncodeReq(r, order).value)
    ensures RpcMessage.DecodeReq(RpcMessage.EncodeReq(r, order).value) == Return(r)
  {
    hide Framed, Fixed, Clean, HeadSize, Names, Pairs, RpcMessage.DecodeReq;
    ReqRoundTrip(r, order);
    HeadLengthIsHeadSize(r, order);
    var rest := Names(r) + Pairs(r.meta, order) + r.data;
    assert ReqHead(r, order) + r.data == ReqFixed(r) + rest;
    FixedIsFramed(r.headLength, r.bodyLength, r.messageId, r.version, r.compressor, r.serializer, rest);
    FitExactly(ReqHead(r, order) + r.data);
  }

  /** A stream of requests: reading and decoding it gives back the requests that were encoded
      into it, in order, and nothing is left of the stream. */
  lemma StreamOfRequests(rs: seq<ReqValue>, orders: seq<seq<Bytes>>, msgs: seq<Bytes>)
    requires |rs| == |orders| == |msgs|
    requires forall i :: 0 <= i < |rs| ==>
      Sendable(rs[i]) && Enumerates(orders[i], rs[i].meta) && RpcMessage.EncodeReq(rs[i], orders[i]) == Return(msgs[i])
    ensures ReadAll(Concat(msgs)) == (msgs, [])
    ensures forall i :: 0 <= i < |rs| ==> RpcMessage.DecodeReq(msgs[i]) == Return(rs[i])
  {
    hide Sendable, Framed, RpcMessage.EncodeReq, RpcMessage.DecodeReq, Enumerates;
    forall i | 0 <= i < |rs| ensures Framed(msgs[i]) && RpcMessage.DecodeReq(msgs[i]) == Return(rs[i]) {
      EncodedIsFramed(rs[i], orders[i]);
    }
    ReadAllUndoesConcat(msgs);
  }

  ghost predicate SendableResp(r: RespValue)
  {
    && r.headLength == 15 + |r.error| && r.bodyLength == |r.data|
    && r.headLength + r.bodyLength < 0x1_0000_0000
  }

  lemma EncodedRespIsFramed(r: RespValue)
    requires SendableResp(r)
    ensures RpcMessage.EncodeResp(r).Return? && Framed(RpcMessage.EncodeResp(r).value)
    ensures RpcMessage.DecodeResp(RpcMessage.EncodeResp(r).value) == Return(r)
  {
    hide Framed, Fixed, RpcMessage.DecodeResp;
    RespRoundTrip(r);
    var rest := r.error + r.data;
    assert RespHead(r) + r.data
        == Fixed(r.headLength, r.bodyLength, r.messageId, r.version, r.compressor, r.serializer) + rest;
    FixedIsFramed(r.headLength, r.bodyLength, r.messageId, r.version, r.compressor, r.serializer, rest);
    FitExactly(RespHead(r) + r.data);
  }

  /** The same for responses, with any bytes as error and data. */
  lemma StreamOfResponses(rs: seq<RespValue>, msgs: seq<Bytes>)
    requires |rs| == |msgs|
    requires forall i :: 0 <= i < |rs| ==> SendableResp(rs[i])
    requires forall i :: 0 <= i < |rs| ==> RpcMessage.EncodeResp(rs[i]) == Return(msgs[i])
    ensures ReadAll(Concat(msgs)) == (msgs, [])
    ensures forall i :: 0 <= i < |rs| ==> RpcMessage.DecodeResp(msgs[i]) == Return(rs[i])
  {
    hide SendableResp, Framed, RpcMessage.EncodeResp, RpcMessage.DecodeResp;
    forall i | 0 <= i < |rs| ensures Framed(msgs[i]) && RpcMessage.DecodeResp(msgs[i]) == Return(rs[i]) {
      EncodedRespIsFramed(rs[i]);
    }
    ReadAllUndoesConcat(msgs);
  }
}
