/** tests/fcgi.py: FastCGI records and name-value pairs, sent over any stream and received over
    any fragmentation of it. The decoders here follow the FastCGI Specification 1.0 on their own. */
module Fcgi {
  import opened Basics
  import opened Bytes

  const BEGIN: byte := 1
  const END: byte := 3
  const PARAMS: byte := 4
  const STDIN: byte := 5
  const STDOUT: byte := 6
  const STDERR: byte := 7
  const LIMIT: nat := 65535

  // ---- Numbers on the wire

  function U16(n: nat): bytes
    requires n < 0x1_0000
  {
    [n / 0x100, n % 0x100]
  }

  function U32(n: nat): bytes
    requires n < 0x1_0000_0000
  {
    [n / 0x100_0000, n / 0x1_0000 % 0x100, n / 0x100 % 0x100, n % 0x100]
  }

  function Join16(high: nat, low: nat): nat { high * 0x100 + low }

  function Join32(a: nat, b: nat, c: nat, d: nat): nat { a * 0x100_0000 + b * 0x1_0000 + c * 0x100 + d }

  /** length | 0x80000000 */
  function SetTopBit(n: nat): nat
    requires n < 0x1_0000_0000
  {
    if n < 0x8000_0000 then n + 0x8000_0000 else n
  }

  /** struct.pack raises an error for a length that does not fit four bytes. */
  function EncodeLength(n: nat): Option<bytes> {
    if n < 128 then Some([n])
    else if n < 0x1_0000_0000 then Some(U32(SetTopBit(n)))
    else None
  }

  /** Section 3.4: one byte with the top bit clear, or four bytes with the top bit set. */
  function DecodeLength(b: bytes): Option<(nat, bytes)> {
    if |b| >= 1 && b[0] < 128 then Some((b[0], b[1..]))
    else if |b| >= 4 then
      Some((Join32(b[0], b[1], b[2], b[3]) - 0x8000_0000, b[4..]))
    else None
  }

  lemma U32Value(n: nat)
    requires n < 0x1_0000_0000
    ensures var b := U32(n); Join32(b[0], b[1], b[2], b[3]) == n
  {
    var high, low := n / 0x1_0000, n % 0x1_0000;
    assert n == high * 0x1_0000 + low;
    assert high == high / 0x100 * 0x100 + high % 0x100;
    assert low == low / 0x100 * 0x100 + low % 0x100;
    assert high / 0x100 == n / 0x100_0000;
    assert low / 0x100 == n / 0x100 % 0x100 && low % 0x100 == n % 0x100;
  }

  /** A length survives exactly if it is below two to the 31st. */
  lemma LengthRoundTrip(n: nat, rest: bytes)
    requires EncodeLength(n).Some?
    ensures var d := DecodeLength(EncodeLength(n).value + rest);
      && d.Some? && d.value.1 == rest
      && d.value.0 == if n < 0x8000_0000 then n else n - 0x8000_0000
  {
    var e := EncodeLength(n).value;
    if n < 128 {
      assert (e + rest)[1..] == rest;
    } else {
      U32Value(SetTopBit(n));
      assert (e + rest)[4..] == rest;
      assert e[0] >= 128;
    }
  }

  lemma EncodeLengthOf(n: nat)
    ensures EncodeLength(n).Some? <==> n < 0x1_0000_0000
    ensures EncodeLength(n).Some? ==> EncodeLength(n).value != []
  {}

  // ---- Name-value pairs

  type Params = seq<(bytes, bytes)>

  /** struct.pack can write both lengths. */
  predicate Packable(pair: (bytes, bytes)) {
    |pair.0| < 0x1_0000_0000 && |pair.1| < 0x1_0000_0000
  }

  function EncodePair(key: bytes, value: bytes): bytes
    requires Packable((key, value))
  {
    EncodeLength(|key|).value + EncodeLength(|value|).value + key + value
  }

  predicate AllPackable(params: Params) {
    forall pair :: pair in params ==> Packable(pair)
  }

  function EncodePairs(params: Params): bytes
    requires AllPackable(params)
  {
    if params == [] then [] else EncodePair(params[0].0, params[0].1) + EncodePairs(params[1..])
  }

  lemma {:induction false} EncodePairsSnoc(params: Params, key: bytes, value: bytes)
    requires AllPackable(params) && Packable((key, value))
    ensures AllPackable(params + [(key, value)])
    ensures EncodePairs(params + [(key, value)]) == EncodePairs(params) + EncodePair(key, value)
  {
    var all := params + [(key, value)];
    if params == [] {
      assert all[1..] == [];
    } else {
      EncodePairsSnoc(params[1..], key, value);
      assert all[1..] == params[1..] + [(key, value)];
    }
  }

  /** encode_params; None is struct.error. */
  method EncodeParams(params: Params) returns (result: Option<bytes>)
    ensures result == if AllPackable(params) then Some(EncodePairs(params)) else None
  {
    var out: bytes := [];
    for i := 0 to |params|
      invariant AllPackable(params[..i]) && EncodePairs(params[..i]) == out
    {
      var (key, value) := params[i];
      ghost var before := out;
      assert params[i] in params;
      var k := EncodeLength(|key|);
      if k.None? { return None; }
      out := out + k.value;
      var v := EncodeLength(|value|);
      if v.None? { return None; }
      out := out + v.value;
      out := out + key;
      out := out + value;
      EncodePairsSnoc(params[..i], key, value);
      assert params[..i + 1] == params[..i] + [(key, value)];
      assert out == before + EncodePair(key, value);
    }
    assert params[..|params|] == params;
    return Some(out);
  }

  /** Section 3.4 */
  function DecodeParams(b: bytes): Option<Params>
    decreases |b|
  {
    if b == [] then Some([])
    else
      var k := DecodeLength(b);
      if k.None? then None else
      var v := DecodeLength(k.value.1);
      if v.None? then None else
      var (klen, vlen, data) := (k.value.0, v.value.0, v.value.1);
      if |data| < klen + vlen then None else
      var rest := DecodeParams(data[klen + vlen..]);
      if rest.None? then None else Some([(data[..klen], data[klen..klen + vlen])] + rest.value)
  }

  predicate Short(pair: (bytes, bytes)) {
    |pair.0| < 0x8000_0000 && |pair.1| < 0x8000_0000
  }

  predicate AllShort(params: Params) {
    forall pair :: pair in params ==> Short(pair)
  }

  /** What the decoder makes of one encoded pair and what follows it. */
  lemma PairRoundTrip(key: bytes, value: bytes, rest: bytes)
    requires Packable((key, value))
    ensures var d := DecodeParams(EncodePair(key, value) + rest);
      if Short((key, value))
      then var r := DecodeParams(rest); d == if r.None? then None else Some([(key, value)] + r.value)
      else d.Some? ==> d.value != [] && d.value[0] != (key, value)
  {
    hide EncodeLength, DecodeLength;
    EncodeLengthOf(|key|);
    EncodeLengthOf(|value|);
    var k, v := EncodeLength(|key|).value, EncodeLength(|value|).value;
    var all := EncodePair(key, value) + rest;
    LengthRoundTrip(|key|, v + key + value + rest);
    LengthRoundTrip(|value|, key + value + rest);
    assert all == k + (v + key + value + rest);
    assert v + key + value + rest == v + (key + value + rest);
    var klen, vlen := DecodeLength(all).value.0, DecodeLength(DecodeLength(all).value.1).value.0;
    var data := key + value + rest;
    if Short((key, value)) {
      assert data[..klen] == key && data[klen..klen + vlen] == value && data[klen + vlen..] == rest;
    }
  }

  /** A parameter list that can be encoded is recovered exactly if every name and value is
      shorter than two to the 31st. */
  lemma {:induction false} ParamsRoundTrip(params: Params)
    requires AllPackable(params)
    ensures DecodeParams(EncodePairs(params)) == Some(params) <==> AllShort(params)
  {
    hide EncodePair, DecodeLength;
    if params == [] {
    } else {
      var rest := params[1..];
      ParamsRoundTrip(rest);
      PairRoundTrip(params[0].0, params[0].1, EncodePairs(rest));
      assert params == [params[0]] + rest;
      if Short(params[0]) {
        var r := DecodeParams(EncodePairs(rest));
        if r.Some? { assert ([params[0]] + r.value)[1..] == r.value; }
        assert AllShort(params) <==> AllShort(rest);
      } else {
        assert params[0] in params && !AllShort(params);
      }
    }
  }

  // ---- Records

  datatype Rec = Rec(kind: byte, id: nat, content: bytes, padding: bytes)

  predicate Sendable(r: Rec) {
    r.id < 0x1_0000 && |r.content| <= 65535 && |r.padding| < 0x100
  }

  /** Section 3.3, any sender. */
  function Encode(r: Rec): bytes
    requires Sendable(r)
  {
    [1, r.kind] + U16(r.id) + U16(|r.content|) + [|r.padding|, 0] + r.content + r.padding
  }

  /** record() as the client calls it; struct.pack refuses a longer body. */
  function Record(kind: byte, data: bytes): bytes
    requires |data| <= LIMIT
  {
    Encode(Rec(kind, 1, data, []))
  }

  /** The header fields of the record a stream starts with. */
  datatype Header = Header(version: byte, kind: byte, id: nat, length: nat, padding: nat)

  function Unpack(b: bytes): Header
    requires |b| >= 8
  {
    Header(b[0], b[1], Join16(b[2], b[3]), Join16(b[4], b[5]), b[6])
  }

  lemma UnpackEncode(r: Rec, rest: bytes)
    requires Sendable(r)
    ensures var b := Encode(r) + rest;
      && |b| >= 8 + |r.content| + |r.padding|
      && Unpack(b) == Header(1, r.kind, r.id, |r.content|, |r.padding|)
      && b[8..8 + |r.content|] == r.content
      && b[8 + |r.content| + |r.padding|..] == rest
  {
    var head := [1, r.kind] + U16(r.id) + U16(|r.content|) + [|r.padding|, 0];
    assert Encode(r) == head + r.content + r.padding;
    assert |head| == 8;
    assert Encode(r) + rest == head + (r.content + (r.padding + rest));
  }

  /** Splits a whole stream into its records, as section 3.3 lays them out. */
  function Parse(b: bytes): Option<seq<Rec>>
    decreases |b|
  {
    if b == [] then Some([])
    else if |b| < 8 || b[0] != 1 then None
    else
      var h := Unpack(b);
      var end := 8 + h.length + h.padding;
      if |b| < end then None else
      var rest := Parse(b[end..]);
      if rest.None? then None
      else Some([Rec(h.kind, h.id, b[8..8 + h.length], b[8 + h.length..end])] + rest.value)
  }

  lemma ParseOne(r: Rec, rest: bytes)
    requires Sendable(r) && Parse(rest).Some?
    ensures Parse(Encode(r) + rest) == Some([r] + Parse(rest).value)
  {
    UnpackEncode(r, rest);
    var b := Encode(r) + rest;
    assert b[8 + |r.content|..8 + |r.content| + |r.padding|] == r.padding;
  }

  // ---- A request

  /** The records of one stream: bodies of at most 65535 bytes, then the empty record. */
  function StreamRecs(kind: byte, data: bytes): seq<Rec> {
    if data == [] then [Rec(kind, 1, [], [])]
    else [Rec(kind, 1, data[..Min(LIMIT, |data|)], [])] + StreamRecs(kind, data[Min(LIMIT, |data|)..])
  }

  predicate AllSendable(recs: seq<Rec>) {
    forall r :: r in recs ==> Sendable(r)
  }

  function EncodeAll(recs: seq<Rec>): bytes
    requires AllSendable(recs)
  {
    if recs == [] then [] else Encode(recs[0]) + EncodeAll(recs[1..])
  }

  lemma {:induction false} EncodeAllJoin(a: seq<Rec>, b: seq<Rec>)
    requires AllSendable(a) && AllSendable(b)
    ensures AllSendable(a + b) && EncodeAll(a + b) == EncodeAll(a) + EncodeAll(b)
  {
    if a == [] {
      assert a + b == b;
    } else {
      EncodeAllJoin(a[1..], b);
      assert (a + b)[0] == a[0] && (a + b)[1..] == a[1..] + b;
      assert AllSendable(a + b);
      Regroup(Encode(a[0]), EncodeAll(a[1..]), EncodeAll(b));
    }
  }

  lemma {:induction false} ParseAll(recs: seq<Rec>)
    requires AllSendable(recs)
    ensures Parse(EncodeAll(recs)) == Some(recs)
  {
    if recs == [] {
    } else {
      ParseAll(recs[1..]);
      ParseOne(recs[0], EncodeAll(recs[1..]));
      assert recs == [recs[0]] + recs[1..];
    }
  }

  function Contents(recs: seq<Rec>, kind: byte): bytes {
    if recs == [] then []
    else (if recs[0].kind == kind then recs[0].content else []) + Contents(recs[1..], kind)
  }

  /** Every data record of a stream is non-empty and within the limit, and all but the last are full;
      the empty record comes once, at the end, and the bodies add up to the data. */
  lemma {:induction false} StreamShape(kind: byte, data: bytes)
    ensures var recs := StreamRecs(kind, data);
      && recs != [] && recs[|recs| - 1] == Rec(kind, 1, [], [])
      && (forall i :: 0 <= i < |recs| - 1 ==> 1 <= |recs[i].content| <= 65535)
      && (forall i :: 0 <= i < |recs| - 2 ==> |recs[i].content| == 65535)
      && (forall i :: 0 <= i < |recs| ==> recs[i].kind == kind && recs[i].id == 1 && recs[i].padding == [])
      && Contents(recs, kind) == data
      && AllSendable(recs)
  {
    if data == [] {
    } else {
      StreamShape(kind, data[Min(LIMIT, |data|)..]);
      var recs, rest := StreamRecs(kind, data), StreamRecs(kind, data[Min(LIMIT, |data|)..]);
      assert recs == [recs[0]] + rest;
      assert recs[1..] == rest;
      assert data == data[..Min(LIMIT, |data|)] + data[Min(LIMIT, |data|)..];
    }
  }

  /** struct.pack("!HB5x", 1, keep): the responder role and the keep-connection flag. */
  function BeginBody(keep: bool): bytes {
    [0, 1, if keep then 1 else 0, 0, 0, 0, 0, 0]
  }

  function RequestRecs(keep: bool, encoded: bytes, body: bytes): seq<Rec> {
    [Rec(BEGIN, 1, BeginBody(keep), [])] + StreamRecs(PARAMS, encoded) + StreamRecs(STDIN, body)
  }

  lemma RequestSendable(keep: bool, encoded: bytes, body: bytes)
    ensures AllSendable(RequestRecs(keep, encoded, body)) && AllSendable([Rec(BEGIN, 1, BeginBody(keep), [])])
    ensures AllSendable(StreamRecs(PARAMS, encoded)) && AllSendable(StreamRecs(STDIN, body))
    ensures EncodeAll(RequestRecs(keep, encoded, body)) ==
      Record(BEGIN, BeginBody(keep)) + EncodeAll(StreamRecs(PARAMS, encoded)) + EncodeAll(StreamRecs(STDIN, body))
  {
    StreamShape(PARAMS, encoded);
    StreamShape(STDIN, body);
    var first := [Rec(BEGIN, 1, BeginBody(keep), [])];
    assert EncodeAll(first) == Record(BEGIN, BeginBody(keep)) + EncodeAll(first[1..]);
    EncodeAllJoin(first, StreamRecs(PARAMS, encoded));
    EncodeAllJoin(first + StreamRecs(PARAMS, encoded), StreamRecs(STDIN, body));
  }

  function StreamBytes(kind: byte, data: bytes): bytes {
    StreamShape(kind, data);
    EncodeAll(StreamRecs(kind, data))
  }

  lemma StreamBytesStep(kind: byte, data: bytes)
    ensures data == [] ==> StreamBytes(kind, data) == Record(kind, [])
    ensures data != [] ==>
      var n := Min(LIMIT, |data|); StreamBytes(kind, data) == Record(kind, data[..n]) + StreamBytes(kind, data[n..])
  {
    StreamShape(kind, data);
    var recs := StreamRecs(kind, data);
    if data == [] {
      assert EncodeAll(recs) == Encode(recs[0]) + EncodeAll(recs[1..]);
      assert recs[1..] == [];
    } else {
      assert recs[1..] == StreamRecs(kind, data[Min(LIMIT, |data|)..]);
    }
  }

  /** for start in range(0, len(data), 65535), then the closing record. */
  method SendStream(kind: byte, data: bytes) returns (wire: bytes)
    ensures wire == StreamBytes(kind, data)
  {
    hide StreamBytes, Record;
    wire := [];
    var start := 0;
    while start < |data|
      invariant 0 <= start
      invariant wire + StreamBytes(kind, data[Min(start, |data|)..]) == StreamBytes(kind, data)
      decreases |data| - start
    {
      var stop := Min(start + LIMIT, |data|);
      ghost var left := data[start..];
      StreamBytesStep(kind, left);
      assert left[..Min(LIMIT, |left|)] == data[start..stop] && left[Min(LIMIT, |left|)..] == data[stop..];
      wire := wire + Record(kind, data[start..stop]);
      start := start + LIMIT;
    }
    assert data[Min(start, |data|)..] == [];
    StreamBytesStep(kind, []);
    wire := wire + Record(kind, []);
  }

  /** The bytes request() sends; None is the error encode_params raises. */
  method SendRequest(keep: bool, params: Params, body: bytes) returns (wire: Option<bytes>)
    ensures wire.Some? <==> AllPackable(params)
    ensures wire.Some? ==>
      wire.value == Record(BEGIN, BeginBody(keep)) + StreamBytes(PARAMS, EncodePairs(params)) + StreamBytes(STDIN, body)
    ensures wire.Some? ==> (DecodeRequest(wire.value) == Some((keep, params, body)) <==> AllShort(params))
  {
    var out := Record(BEGIN, BeginBody(keep));
    var encoded := EncodeParams(params);
    if encoded.None? { return None; }
    var first := SendStream(PARAMS, encoded.value);
    out := out + first;
    var second := SendStream(STDIN, body);
    out := out + second;
    RequestRoundTrip(keep, params, body);
    return Some(out);
  }

  /** Reads a stream of this kind up to and including its empty record. */
  function TakeStream(recs: seq<Rec>, kind: byte): Option<(bytes, seq<Rec>)> {
    if recs == [] || recs[0].kind != kind || recs[0].id != 1 then None
    else if recs[0].content == [] then Some(([], recs[1..]))
    else
      var rest := TakeStream(recs[1..], kind);
      if rest.None? then None else Some((recs[0].content + rest.value.0, rest.value.1))
  }

  /** A responder's reading of a request: the begin record, then the two streams. */
  function ReadRequest(recs: seq<Rec>): Option<(bool, Params, bytes)> {
    if recs == [] then None else
    var begin := recs[0];
    if begin.kind != 1 || begin.id != 1 || |begin.content| != 8 || begin.content[..2] != [0, 1] then None else
    var params := TakeStream(recs[1..], 4);
    if params.None? then None else
    var body := TakeStream(params.value.1, 5);
    if body.None? || body.value.1 != [] then None else
    var decoded := DecodeParams(params.value.0);
    if decoded.None? then None else Some((begin.content[2] % 2 == 1, decoded.value, body.value.0))
  }

  function DecodeRequest(wire: bytes): Option<(bool, Params, bytes)> {
    var recs := Parse(wire);
    if recs.None? then None else ReadRequest(recs.value)
  }

  lemma {:induction false} TakeStreamBack(kind: byte, data: bytes, rest: seq<Rec>)
    ensures TakeStream(StreamRecs(kind, data) + rest, kind) == Some((data, rest))
  {
    var recs := StreamRecs(kind, data) + rest;
    if data == [] {
      assert recs[1..] == rest;
    } else {
      var n := Min(LIMIT, |data|);
      TakeStreamBack(kind, data[n..], rest);
      assert recs[1..] == StreamRecs(kind, data[n..]) + rest;
      assert data == data[..n] + data[n..];
    }
  }

  lemma ReadRequestBack(keep: bool, encoded: bytes, body: bytes)
    ensures var d := DecodeParams(encoded);
      ReadRequest(RequestRecs(keep, encoded, body)) == if d.None? then None else Some((keep, d.value, body))
  {
    var recs := RequestRecs(keep, encoded, body);
    assert recs[1..] == StreamRecs(PARAMS, encoded) + StreamRecs(STDIN, body);
    TakeStreamBack(PARAMS, encoded, StreamRecs(STDIN, body));
    TakeStreamBack(STDIN, body, []);
    assert StreamRecs(STDIN, body) + [] == StreamRecs(STDIN, body);
    assert BeginBody(keep)[..2] == [0, 1];
  }

  /** A responder gets back the flag, every parameter and the whole body, whatever their sizes:
      exactly if each name and value is shorter than two to the 31st. */
  lemma {:induction false} RequestRoundTrip(keep: bool, params: Params, body: bytes)
    requires AllPackable(params)
    ensures var wire := Record(BEGIN, BeginBody(keep)) + StreamBytes(PARAMS, EncodePairs(params)) + StreamBytes(STDIN, body);
      DecodeRequest(wire) == Some((keep, params, body)) <==> AllShort(params)
  {
    var encoded := EncodePairs(params);
    RequestSendable(keep, encoded, body);
    ParseAll(RequestRecs(keep, encoded, body));
    ReadRequestBack(keep, encoded, body);
    ParamsRoundTrip(params);
  }

  // ---- A response

  /** A socket whose peer has written `incoming` and closed; the script cuts it into pieces. */
  class Socket {
    var incoming: bytes
    var cuts: seq<nat>

    constructor (incoming: bytes, cuts: seq<nat>)
      ensures this.incoming == incoming && this.cuts == cuts
    {
      this.incoming, this.cuts := incoming, cuts;
    }

    /** recv(n): at least one byte and at most n, or none at the end. */
    method Recv(n: nat) returns (part: bytes)
      requires n > 0
      modifies this
      ensures |part| <= n && (part == [] <==> old(incoming) == [])
      ensures part + incoming == old(incoming)
    {
      var cut := 1;
      if cuts != [] {
        cut, cuts := if cuts[0] > 1 then cuts[0] else 1, cuts[1..];
      }
      var size := Min(Min(cut, n), |incoming|);
      part, incoming := incoming[..size], incoming[size..];
    }
  }

  /** receive_exact; None is EOFError. */
  method ReceiveExact(sock: Socket, length: nat) returns (result: Option<bytes>)
    modifies sock
    ensures |old(sock.incoming)| >= length ==>
      result == Some(old(sock.incoming)[..length]) && sock.incoming == old(sock.incoming)[length..]
    ensures |old(sock.incoming)| < length ==> result == None && sock.incoming == []
  {
    var out: bytes := [];
    while |out| < length
      invariant |out| <= length && out + sock.incoming == old(sock.incoming)
      decreases length - |out|
    {
      var part := sock.Recv(length - |out|);
      if part == [] {
        return None;
      }
      out := out + part;
    }
    return Some(out);
  }

  datatype Received = Complete(output: bytes, errors: bytes, rest: bytes) | EndOfFile | Unexpected

  /** What the record loop of receive_response makes of a stream. */
  function Streams(b: bytes, output: bytes, errors: bytes): Received
    decreases |b|
  {
    if |b| < 8 then EndOfFile
    else
      var h := Unpack(b);
      if h.version != 1 || h.id != 1 then Unexpected
      else if |b| < 8 + h.length + h.padding then EndOfFile
      else
        var data, rest := b[8..8 + h.length], b[8 + h.length + h.padding..];
        if h.kind == STDOUT then Streams(rest, output + data, errors)
        else if h.kind == STDERR then Streams(rest, output, errors + data)
        else if h.kind == END then Complete(output, errors, rest)
        else Streams(rest, output, errors)
  }

  /** The record loop of receive_response: the pieces recv returns make no difference. */
  method ReceiveStreams(sock: Socket) returns (r: Received)
    modifies sock
    ensures var want := Streams(old(sock.incoming), [], []);
      && r.Complete? == want.Complete? && (r.Complete? ==> r == want && sock.incoming == want.rest)
      && (want.Unexpected? <==> r.Unexpected?) && (want.EndOfFile? <==> r.EndOfFile?)
  {
    var output, errors: bytes := [], [];
    while true
      invariant Streams(sock.incoming, output, errors) == Streams(old(sock.incoming), [], [])
      decreases |sock.incoming|
    {
      ghost var b := sock.incoming;
      var head := ReceiveExact(sock, 8);
      if head.None? { return EndOfFile; }
      var h := Unpack(head.value);
      assert h == Unpack(b);
      if h.version != 1 || h.id != 1 { return Unexpected; }
      var data := ReceiveExact(sock, h.length);
      if data.None? { return EndOfFile; }
      assert data.value == b[8..8 + h.length] && sock.incoming == b[8 + h.length..];
      if h.padding > 0 {
        var skipped := ReceiveExact(sock, h.padding);
        if skipped.None? { return EndOfFile; }
      }
      assert sock.incoming == b[8 + h.length + h.padding..];
      if h.kind == STDOUT {
        output := output + data.value;
      } else if h.kind == STDERR {
        errors := errors + data.value;
      } else if h.kind == END {
        return Complete(output, errors, sock.incoming);
      }
    }
  }

  /** Records a server may send before its end record. */
  predicate Response(recs: seq<Rec>) {
    forall r :: r in recs ==> Sendable(r) && r.id == 1 && r.kind != 3
  }

  lemma StreamsStep(r: Rec, tail: bytes, output: bytes, errors: bytes)
    requires Sendable(r) && r.id == 1
    ensures Streams(Encode(r) + tail, output, errors) ==
      if r.kind == END then Complete(output, errors, tail)
      else Streams(tail, if r.kind == STDOUT then output + r.content else output,
                         if r.kind == STDERR then errors + r.content else errors)
  {
    UnpackEncode(r, tail);
  }

  /** However the two streams are cut into records, padded and interleaved, they come out whole,
      and reading stops behind the end record. */
  lemma {:induction false} ResponseRoundTrip(recs: seq<Rec>, end: Rec, rest: bytes, output: bytes, errors: bytes)
    requires Response(recs) && Sendable(end) && end.id == 1 && end.kind == 3 && AllSendable(recs)
    ensures Streams(EncodeAll(recs) + Encode(end) + rest, output, errors) ==
      Complete(output + Contents(recs, 6), errors + Contents(recs, 7), rest)
  {
    hide Encode, Streams;
    if recs == [] {
      StreamsStep(end, rest, output, errors);
      assert EncodeAll(recs) + Encode(end) + rest == Encode(end) + rest;
    } else {
      var r, more := recs[0], recs[1..];
      var tail := EncodeAll(more) + Encode(end) + rest;
      assert r in recs;
      StreamsStep(r, tail, output, errors);
      assert EncodeAll(recs) + Encode(end) + rest == Encode(r) + tail;
      var out := if r.kind == STDOUT then output + r.content else output;
      var err := if r.kind == STDERR then errors + r.content else errors;
      ResponseRoundTrip(more, end, rest, out, err);
      assert out + Contents(more, STDOUT) == output + Contents(recs, STDOUT);
      assert err + Contents(more, STDERR) == errors + Contents(recs, STDERR);
    }
  }
}
