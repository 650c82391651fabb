/** The FastCGI decoder: records from a connection's input buffer, name-value pairs from the parameter records, the
  request body from the stdin records (sections 3.3 and 3.4 of the FastCGI Specification), and the response. */
module FastCgi {
  import opened Buffer
  import opened Seqs

  type Bytes = seq<Byte>

  const HEADER := 8
  const FCGI_BEGIN_REQUEST := 1
  const FCGI_END_REQUEST := 3
  const FCGI_PARAMS := 4
  const FCGI_STDIN := 5
  const FCGI_STDOUT := 6
  const FCGI_RESPONDER := 1
  const FCGI_KEEP_CONN := 1

  // ---------------------------------------------------------------- records

  datatype Record = Record(kind: Byte, content: Bytes)

  // What section 3.3 leaves open: the request id, the padding and the reserved byte.
  datatype Wrap = Wrap(requestId: int, padding: Bytes, reserved: Byte)

  predicate Sendable(r: Record, w: Wrap) {
    |r.content| < 65536 && 0 <= w.requestId < 65536 && |w.padding| < 256
  }

  function Encode(r: Record, w: Wrap): Bytes
    requires Sendable(r, w)
  {
    [1, r.kind, w.requestId / 256, w.requestId % 256, |r.content| / 256, |r.content| % 256, |w.padding|, w.reserved]
    + r.content + w.padding
  }

  function ContentLength(q: Bytes): nat
    requires |q| >= HEADER
  {
    q[4] as int * 256 + q[5] as int
  }

  function TotalLength(q: Bytes): nat
    requires |q| >= HEADER
  {
    HEADER + ContentLength(q) + q[6] as int
  }

  predicate WholeRecord(q: Bytes) { |q| >= HEADER && |q| >= TotalLength(q) }

  function HeadRecord(q: Bytes): Record
    requires WholeRecord(q)
  {
    Record(q[1], q[HEADER..HEADER + ContentLength(q)])
  }

  datatype Decoded = Decoded(records: seq<Record>, rest: Bytes)

  function Decode(q: Bytes): Decoded
    decreases |q|
  {
    if !WholeRecord(q) then Decoded([], q)
    else
      var d := Decode(q[TotalLength(q)..]);
      d.(records := [HeadRecord(q)] + d.records)
  }

  lemma RecordStays(q: Bytes, more: Bytes)
    requires WholeRecord(q)
    ensures WholeRecord(q + more) && TotalLength(q + more) == TotalLength(q) && HeadRecord(q + more) == HeadRecord(q)
    ensures (q + more)[TotalLength(q)..] == q[TotalLength(q)..] + more
  {
    assert (q + more)[HEADER..HEADER + ContentLength(q)] == q[HEADER..HEADER + ContentLength(q)];
  }

  lemma {:induction false} DecodeMore(q: Bytes, more: Bytes)
    ensures var d := Decode(q); var e := Decode(d.rest + more); Decode(q + more) == Decoded(d.records + e.records, e.rest)
    decreases |q|
  {
    if WholeRecord(q) {
      RecordStays(q, more);
      hide WholeRecord, HeadRecord, TotalLength;
      var tail := q[TotalLength(q)..];
      DecodeMore(tail, more);
      Assoc([HeadRecord(q)], Decode(tail).records, Decode(Decode(tail).rest + more).records);
    } else {
      assert [] + Decode(q + more).records == Decode(q + more).records;
    }
  }

  lemma EncodedHead(r: Record, w: Wrap, more: Bytes)
    requires Sendable(r, w)
    ensures var q := Encode(r, w) + more;
            WholeRecord(q) && HeadRecord(q) == r && q[TotalLength(q)..] == more
  {
    var q := Encode(r, w) + more;
    assert q[4] as int * 256 + q[5] as int == |r.content|;
    assert q[HEADER..HEADER + |r.content|] == r.content;
    assert q[HEADER + |r.content| + |w.padding|..] == more;
  }

  // ---------------------------------------------------------------- name-value pairs

  // A pair, and which form each of its lengths has: section 3.4 allows the long one for every length.
  datatype Pair = Pair(name: Bytes, value: Bytes, longName: bool, longValue: bool)

  predicate Fits(n: nat, long: bool) { n < 128 || (long && n < 0x8000_0000) }

  predicate Encodable(p: Pair) { Fits(|p.name|, p.longName) && Fits(|p.value|, p.longValue) }

  predicate AllEncodable(ps: seq<Pair>) { forall i :: 0 <= i < |ps| ==> Encodable(ps[i]) }

  function EncodeLen(n: nat, long: bool): Bytes
    requires Fits(n, long)
  {
    if long then [n / 0x100_0000 + 128, n / 0x1_0000 % 256, n / 256 % 256, n % 256] else [n]
  }

  function EncodePair(p: Pair): Bytes
    requires Encodable(p)
  {
    EncodeLen(|p.name|, p.longName) + (EncodeLen(|p.value|, p.longValue) + (p.name + p.value))
  }

  function EncodePairs(ps: seq<Pair>): Bytes
    requires AllEncodable(ps)
  {
    if ps == [] then [] else EncodePair(ps[0]) + EncodePairs(ps[1..])
  }

  // The map that the pairs stand for: a later pair replaces an earlier one of the same name.
  function MapOf(m: map<Bytes, Bytes>, ps: seq<Pair>): map<Bytes, Bytes>
    decreases |ps|
  {
    if ps == [] then m else MapOf(m[ps[0].name := ps[0].value], ps[1..])
  }

  // readLen: the length, or -1 if there are too few bytes; and how many bytes it takes.
  function LenAt(q: Bytes): (n: int)
    ensures -1 <= n < 0x8000_0000
  {
    if |q| < 1 then -1
    else if q[0] >= 128 then
      if |q| >= 4 then (q[0] as int - 128) * 0x100_0000 + q[1] as int * 0x1_0000 + q[2] as int * 256 + q[3] as int else -1
    else q[0]
  }

  function LenSize(q: Bytes): (k: nat)
    ensures LenAt(q) >= 0 ==> 1 <= k <= |q|
  {
    if |q| >= 1 && q[0] >= 128 then 4 else 1
  }

  datatype Parsed = Parsed(ok: bool, params: map<Bytes, Bytes>, rest: Bytes)

  // parseAllParams: pairs until the stream is empty, or until one of them is cut short.
  function ParseParams(m: map<Bytes, Bytes>, q: Bytes): Parsed
    decreases |q|
  {
    if q == [] then Parsed(true, m, q)
    else if LenAt(q) < 0 then Parsed(false, m, q)
    else
      var q1 := q[LenSize(q)..];
      if LenAt(q1) < 0 then Parsed(false, m, q1)
      else
        var q2 := q1[LenSize(q1)..];
        if |q2| >= LenAt(q) + LenAt(q1) then
          ParseParams(m[q2[..LenAt(q)] := q2[LenAt(q)..LenAt(q) + LenAt(q1)]], q2[LenAt(q) + LenAt(q1)..])
        else Parsed(false, m, q2)
  }

  // One round of the loop.
  lemma NoPair(m: map<Bytes, Bytes>, q: Bytes)
    requires |q| == 0
    ensures ParseParams(m, q) == Parsed(true, m, q)
  {
  }

  lemma CutName(m: map<Bytes, Bytes>, q: Bytes)
    requires |q| > 0 && LenAt(q) < 0
    ensures ParseParams(m, q) == Parsed(false, m, q)
  {
    hide LenAt;
  }

  lemma CutValue(m: map<Bytes, Bytes>, q: Bytes)
    requires |q| > 0 && LenAt(q) >= 0 && LenAt(q[LenSize(q)..]) < 0
    ensures ParseParams(m, q) == Parsed(false, m, q[LenSize(q)..])
  {
    hide LenAt, LenSize;
  }

  lemma OnePair(m: map<Bytes, Bytes>, q: Bytes)
    requires |q| > 0 && LenAt(q) >= 0 && LenAt(q[LenSize(q)..]) >= 0
    ensures var q1 := q[LenSize(q)..];
            var q2, n, k := q1[LenSize(q1)..], LenAt(q), LenAt(q1);
            && (|q2| < n + k ==> ParseParams(m, q) == Parsed(false, m, q2))
            && (|q2| >= n + k ==> ParseParams(m, q) == ParseParams(m[q2[..n] := q2[n..][..k]], q2[n..][k..]))
  {
    hide LenAt, LenSize;
    var q1 := q[LenSize(q)..];
    var q2, n, k := q1[LenSize(q1)..], LenAt(q), LenAt(q1);
    if |q2| >= n + k {
      assert q2[n..][..k] == q2[n..n + k] && q2[n..][k..] == q2[n + k..];
    }
  }

  // Both lengths have 31 bits, so the 32-bit sum that is compared with the bytes at hand is the true sum.
  lemma SumDoesNotWrap(q: Bytes, r: Bytes)
    requires LenAt(q) >= 0 && LenAt(r) >= 0
    ensures (LenAt(q) + LenAt(r)) % 0x1_0000_0000 == LenAt(q) + LenAt(r)
  {
    hide LenAt;
  }

  lemma EncodedLen(n: nat, long: bool, more: Bytes)
    requires Fits(n, long)
    ensures LenAt(EncodeLen(n, long) + more) == n && LenSize(EncodeLen(n, long) + more) == |EncodeLen(n, long)|
    ensures (EncodeLen(n, long) + more)[|EncodeLen(n, long)|..] == more
  {
    if long {
      WordDigits(n);
    }
  }

  lemma PairParses(m: map<Bytes, Bytes>, p: Pair, more: Bytes)
    requires Encodable(p)
    ensures ParseParams(m, EncodePair(p) + more) == ParseParams(m[p.name := p.value], more)
  {
    var q := EncodePair(p) + more;
    var q1 := EncodeLen(|p.value|, p.longValue) + (p.name + p.value + more);
    assert q == EncodeLen(|p.name|, p.longName) + q1 by { PairShape(p, more); }
    EncodedLen(|p.name|, p.longName, q1);
    var q2 := p.name + p.value + more;
    EncodedLen(|p.value|, p.longValue, q2);
    hide EncodeLen, LenAt, LenSize, EncodePair;
    assert q != [] && q2[..|p.name|] == p.name && q2[|p.name|..|p.name| + |p.value|] == p.value && q2[|p.name| + |p.value|..] == more;
  }

  lemma PairShape(p: Pair, more: Bytes)
    requires Encodable(p)
    ensures EncodePair(p) + more == EncodeLen(|p.name|, p.longName) + (EncodeLen(|p.value|, p.longValue) + (p.name + p.value + more))
  {
    hide EncodeLen;
  }

  // The decoder ends with the encoded map, and nothing left.
  lemma {:induction false} PairsParse(m: map<Bytes, Bytes>, ps: seq<Pair>)
    requires AllEncodable(ps)
    ensures ParseParams(m, EncodePairs(ps)) == Parsed(true, MapOf(m, ps), [])
    decreases |ps|
  {
    if ps != [] {
      PairParses(m, ps[0], EncodePairs(ps[1..]));
      PairsParse(m[ps[0].name := ps[0].value], ps[1..]);
      hide ParseParams, EncodePair;
    }
  }

  // A pair that is cut short anywhere is refused.
  lemma CutPairFails(m: map<Bytes, Bytes>, p: Pair, k: nat)
    requires Encodable(p) && 0 < k < |EncodePair(p)|
    ensures var r := ParseParams(m, EncodePair(p)[..k]); !r.ok && r.params == m
  {
    hide EncodeLen, LenAt, LenSize, ParseParams;
    var a, b, c := EncodeLen(|p.name|, p.longName), EncodeLen(|p.value|, p.longValue), p.name + p.value;
    var q := EncodePair(p)[..k];
    CutJoin(a, b + c, k);
    if k < |a| {
      CutLen(|p.name|, p.longName, k);
      CutName(m, q);
    } else {
      EncodedLen(|p.name|, p.longName, (b + c)[..k - |a|]);
      CutJoin(b, c, k - |a|);
      if k < |a| + |b| {
        CutLen(|p.value|, p.longValue, k - |a|);
        CutValue(m, q);
      } else {
        EncodedLen(|p.value|, p.longValue, c[..k - |a| - |b|]);
        OnePair(m, q);
      }
    }
  }

  lemma CutJoin(a: Bytes, b: Bytes, k: nat)
    requires k <= |a| + |b|
    ensures (a + b)[..k] == if k < |a| then a[..k] else a + b[..k - |a|]
  {
  }

  lemma CutLen(n: nat, long: bool, k: nat)
    requires Fits(n, long) && k < |EncodeLen(n, long)|
    ensures LenAt(EncodeLen(n, long)[..k]) == -1
  {
  }

  // The number of pairs that are whole in the first k bytes.
  function WholePairs(ps: seq<Pair>, k: int): (i: nat)
    requires AllEncodable(ps)
    ensures i <= |ps|
    decreases |ps|
  {
    if ps == [] || k < |EncodePair(ps[0])| then 0 else 1 + WholePairs(ps[1..], k - |EncodePair(ps[0])|)
  }

  lemma {:induction false} WholePairsIs(ps: seq<Pair>, k: nat)
    requires AllEncodable(ps)
    ensures var i := WholePairs(ps, k); |EncodePairs(ps[..i])| <= k && (i < |ps| ==> k < |EncodePairs(ps[..i + 1])|)
    decreases |ps|
  {
    hide EncodePair, Encodable;
    assert ps[..0] == [];
    if ps != [] {
      PrefixLength(ps, 1);
      assert ps[1..][..0] == [];
      if k >= |EncodePair(ps[0])| {
        var i := WholePairs(ps[1..], k - |EncodePair(ps[0])|);
        WholePairsIs(ps[1..], k - |EncodePair(ps[0])|);
        PrefixLength(ps, i + 1);
        if i + 1 < |ps| {
          PrefixLength(ps, i + 2);
        }
      }
    }
  }

  // A parameter stream cut at byte k gives the pairs before the cut, and is accepted exactly if the cut is between pairs.
  lemma {:induction false} CutStream(m: map<Bytes, Bytes>, ps: seq<Pair>, k: nat)
    requires AllEncodable(ps) && k <= |EncodePairs(ps)|
    ensures var r, i := ParseParams(m, EncodePairs(ps)[..k]), WholePairs(ps, k);
            r.params == MapOf(m, ps[..i]) && (r.ok <==> |EncodePairs(ps[..i])| == k)
    decreases |ps|
  {
    hide ParseParams, EncodePair, EncodePairs, Encodable;
    if k == 0 || ps == [] {
      NothingCut(m, ps, k);
    } else {
      var n := |EncodePair(ps[0])|;
      FirstPair(ps);
      CutJoin(EncodePair(ps[0]), EncodePairs(ps[1..]), k);
      if k < n {
        CutPairFails(m, ps[0], k);
        NoPairs(m, ps);
      } else {
        var i := WholePairs(ps[1..], k - n);
        PairParses(m, ps[0], EncodePairs(ps[1..])[..k - n]);
        CutStream(m[ps[0].name := ps[0].value], ps[1..], k - n);
        PrefixLength(ps, i + 1);
        PrefixMap(m, ps, i);
      }
    }
  }

  lemma NoPairs(m: map<Bytes, Bytes>, ps: seq<Pair>)
    ensures ps[..0] == [] && MapOf(m, []) == m && EncodePairs([]) == []
  {
  }

  lemma PrefixMap(m: map<Bytes, Bytes>, ps: seq<Pair>, i: nat)
    requires ps != [] && i < |ps|
    ensures MapOf(m, ps[..i + 1]) == MapOf(m[ps[0].name := ps[0].value], ps[1..][..i])
  {
    assert ps[..i + 1][0] == ps[0] && ps[..i + 1][1..] == ps[1..][..i];
  }

  lemma NothingCut(m: map<Bytes, Bytes>, ps: seq<Pair>, k: nat)
    requires AllEncodable(ps) && k <= |EncodePairs(ps)| && (k == 0 || ps == [])
    ensures k == 0 && EncodePairs(ps)[..k] == [] && ParseParams(m, []) == Parsed(true, m, [])
    ensures WholePairs(ps, k) == 0 && ps[..0] == [] && MapOf(m, []) == m && EncodePairs([]) == []
  {
    if ps != [] {
      FirstPair(ps);
    }
  }

  lemma FirstPair(ps: seq<Pair>)
    requires ps != [] && AllEncodable(ps)
    ensures EncodePairs(ps) == EncodePair(ps[0]) + EncodePairs(ps[1..]) && |EncodePair(ps[0])| >= 2
  {
  }

  lemma PrefixLength(ps: seq<Pair>, i: nat)
    requires 0 < i <= |ps| && AllEncodable(ps)
    ensures |EncodePairs(ps[..i])| == |EncodePair(ps[0])| + |EncodePairs(ps[1..][..i - 1])|
  {
    assert ps[..i][0] == ps[0] && ps[..i][1..] == ps[1..][..i - 1];
  }

  // ---------------------------------------------------------------- the codec

  datatype State = State(params: map<Bytes, Bytes>, paramsStream: Bytes, stdin: Bytes, gotRequest: bool, keepConn: bool, rest: Bytes)

  // onBeginRequest: the role and the flags of a responder request.
  function BeginRequest(s: State, content: Bytes): State {
    if |content| >= HEADER && content[0] as int * 256 + content[1] as int == FCGI_RESPONDER
    then s.(keepConn := content[2] == FCGI_KEEP_CONN) else s
  }

  // onParams: an empty record ends the stream.
  function Params(s: State, content: Bytes): State {
    if |content| > 0 then s.(paramsStream := s.paramsStream + content)
    else var p := ParseParams(s.params, s.paramsStream); s.(params := p.params, paramsStream := p.rest)
  }

  function Stdin(s: State, content: Bytes): State {
    if |content| > 0 then s.(stdin := s.stdin + content) else s.(gotRequest := true)
  }

  function Handle(s: State, r: Record): State {
    if r.kind == FCGI_BEGIN_REQUEST then BeginRequest(s, r.content)
    else if r.kind == FCGI_PARAMS then Params(s, r.content)
    else if r.kind == FCGI_STDIN then Stdin(s, r.content)
    else s
  }

  function HandleAll(s: State, rs: seq<Record>): State
    decreases |rs|
  {
    if rs == [] then s else HandleAll(Handle(s, rs[0]), rs[1..])
  }

  // A chunk arrives and parseRequest runs over the buffer.
  function Receive(s: State, chunk: Bytes): State {
    var d := Decode(s.rest + chunk);
    HandleAll(s, d.records).(rest := d.rest)
  }

  function ReceiveAll(s: State, chunks: seq<Bytes>): State
    decreases |chunks|
  {
    if chunks == [] then s else ReceiveAll(Receive(s, chunks[0]), chunks[1..])
  }

  lemma HandleRest(s: State, r: Record, rest: Bytes)
    ensures Handle(s.(rest := rest), r) == Handle(s, r).(rest := rest)
  {
    hide ParseParams;
  }

  lemma {:induction false} HandleAllRest(s: State, rs: seq<Record>, rest: Bytes)
    ensures HandleAll(s.(rest := rest), rs) == HandleAll(s, rs).(rest := rest)
    decreases |rs|
  {
    if rs != [] {
      HandleRest(s, rs[0], rest);
      hide Handle;
      HandleAllRest(Handle(s, rs[0]), rs[1..], rest);
    }
  }

  lemma {:induction false} HandleAllAppend(s: State, rs: seq<Record>, ts: seq<Record>)
    ensures HandleAll(s, rs + ts) == HandleAll(HandleAll(s, rs), ts)
    decreases |rs|
  {
    if rs == [] {
      assert rs + ts == ts;
    } else {
      assert (rs + ts)[0] == rs[0] && (rs + ts)[1..] == rs[1..] + ts;
      hide Handle;
      HandleAllAppend(Handle(s, rs[0]), rs[1..], ts);
    }
  }

  // However the network cuts the stream, the codec ends in the state that the whole stream gives.
  lemma {:induction false} CuttingDoesNotMatter(s: State, chunks: seq<Bytes>)
    requires Decode(s.rest).records == []
    ensures ReceiveAll(s, chunks) == Receive(s, Concat(chunks))
    decreases |chunks|
  {
    hide Handle, WholeRecord, TotalLength, HeadRecord;
    if chunks == [] {
      assert s.rest + Concat(chunks) == s.rest;
    } else {
      var q, more := s.rest + chunks[0], Concat(chunks[1..]);
      var d := Decode(q);
      var mid := Receive(s, chunks[0]);
      DecodeMore(q, more);
      RestHoldsNoRecord(q);
      CuttingDoesNotMatter(mid, chunks[1..]);
      var e := Decode(d.rest + more);
      Assoc(s.rest, chunks[0], more);
      HandleAllAppend(s, d.records, e.records);
      HandleAllRest(HandleAll(s, d.records), e.records, d.rest);
    }
  }

  lemma {:induction false} RestHoldsNoRecord(q: Bytes)
    ensures Decode(Decode(q).rest).records == []
    decreases |q|
  {
    if WholeRecord(q) {
      RestHoldsNoRecord(q[TotalLength(q)..]);
    }
  }

  // ---------------------------------------------------------------- the connection's callback

  datatype Report = Report(params: map<Bytes, Bytes>, stdin: Bytes)

  // The codec, what the callback has been given, and whether the connection has been told to shut down.
  datatype Connection = Connection(codec: State, reports: seq<Report>, shut: bool)

  // Between two requests.
  function Idle(keepConn: bool): State { START.(keepConn := keepConn) }

  // onMessage: after parseRequest, a request that is complete is reported and everything but the flag is reset.
  function Message(c: Connection, chunk: Bytes): Connection {
    var s := Receive(c.codec, chunk);
    if !s.gotRequest then c.(codec := s)
    else Connection(Idle(s.keepConn).(rest := s.rest), c.reports + [Report(s.params, s.stdin)], c.shut || !s.keepConn)
  }

  function Messages(c: Connection, chunks: seq<Bytes>): Connection
    decreases |chunks|
  {
    if chunks == [] then c else Messages(Message(c, chunks[0]), chunks[1..])
  }

  // ---------------------------------------------------------------- a whole request

  // A content stream cut into non-empty records of one kind, each wrapped in its own way.
  datatype Part = Part(content: Bytes, wrap: Wrap)

  predicate Wrapped(content: Bytes, w: Wrap) { |content| < 65536 && 0 <= w.requestId < 65536 && |w.padding| < 256 }

  predicate Cuts(parts: seq<Part>) {
    forall i :: 0 <= i < |parts| ==> 0 < |parts[i].content| && Wrapped(parts[i].content, parts[i].wrap)
  }

  function Text(parts: seq<Part>): Bytes {
    if parts == [] then [] else parts[0].content + Text(parts[1..])
  }

  // The records of the stream, and the empty one that ends it.
  function Stream(kind: Byte, parts: seq<Part>, end: Wrap): Bytes
    requires Cuts(parts) && Wrapped([], end)
  {
    if parts == [] then Encode(Record(kind, []), end)
    else Encode(Record(kind, parts[0].content), parts[0].wrap) + Stream(kind, parts[1..], end)
  }

  function Records(kind: Byte, parts: seq<Part>): seq<Record> {
    if parts == [] then [Record(kind, [])] else [Record(kind, parts[0].content)] + Records(kind, parts[1..])
  }

  lemma {:induction false} StreamDecodes(kind: Byte, parts: seq<Part>, end: Wrap, more: Bytes)
    requires Cuts(parts) && Wrapped([], end)
    ensures Decode(Stream(kind, parts, end) + more) == Decoded(Records(kind, parts) + Decode(more).records, Decode(more).rest)
    decreases |parts|
  {
    hide Encode, WholeRecord, TotalLength, HeadRecord;
    if parts == [] {
      EncodedHead(Record(kind, []), end, more);
    } else {
      var r := Record(kind, parts[0].content);
      var tail := Stream(kind, parts[1..], end) + more;
      Assoc(Encode(r, parts[0].wrap), Stream(kind, parts[1..], end), more);
      EncodedHead(r, parts[0].wrap, tail);
      StreamDecodes(kind, parts[1..], end, more);
      Assoc([r], Records(kind, parts[1..]), Decode(more).records);
    }
  }

  lemma {:induction false} ParamsHandled(s: State, parts: seq<Part>)
    requires Cuts(parts)
    ensures HandleAll(s, Records(FCGI_PARAMS, parts)) == Params(s.(paramsStream := s.paramsStream + Text(parts)), [])
    decreases |parts|
  {
    hide ParseParams;
    if parts == [] {
      assert s.paramsStream + [] == s.paramsStream;
      assert Records(FCGI_PARAMS, parts)[1..] == [];
    } else {
      var rs := Records(FCGI_PARAMS, parts);
      assert rs[0] == Record(FCGI_PARAMS, parts[0].content) && rs[1..] == Records(FCGI_PARAMS, parts[1..]);
      ParamsHandled(Handle(s, rs[0]), parts[1..]);
      Assoc(s.paramsStream, parts[0].content, Text(parts[1..]));
    }
  }

  lemma {:induction false} StdinHandled(s: State, parts: seq<Part>)
    requires Cuts(parts)
    ensures HandleAll(s, Records(FCGI_STDIN, parts)) == s.(stdin := s.stdin + Text(parts), gotRequest := true)
    decreases |parts|
  {
    if parts == [] {
      assert s.stdin + [] == s.stdin;
      assert Records(FCGI_STDIN, parts)[1..] == [];
    } else {
      var rs := Records(FCGI_STDIN, parts);
      assert rs[0] == Record(FCGI_STDIN, parts[0].content) && rs[1..] == Records(FCGI_STDIN, parts[1..]);
      StdinHandled(Handle(s, rs[0]), parts[1..]);
      Assoc(s.stdin, parts[0].content, Text(parts[1..]));
    }
  }

  const START := State(map[], [], [], false, false, [])

  // The body of a begin record (section 5.1): the responder role, the flags, five reserved bytes.
  function Begin(flags: Byte, reserved: Bytes): Record {
    Record(FCGI_BEGIN_REQUEST, [0, FCGI_RESPONDER, flags] + reserved)
  }

  // A request for one responder: how its begin record, its parameters and its body are cut and wrapped.
  datatype Request = Request(flags: Byte, reserved: Bytes, begin: Wrap,
                             params: seq<Part>, paramsEnd: Wrap, stdin: seq<Part>, stdinEnd: Wrap)

  predicate Valid(r: Request) {
    && |r.reserved| == 5 && Wrapped(Begin(r.flags, r.reserved).content, r.begin)
    && Cuts(r.params) && Wrapped([], r.paramsEnd) && Cuts(r.stdin) && Wrapped([], r.stdinEnd)
  }

  function EncodeRequest(r: Request): Bytes
    requires Valid(r)
  {
    Encode(Begin(r.flags, r.reserved), r.begin)
    + (Stream(FCGI_PARAMS, r.params, r.paramsEnd) + (Stream(FCGI_STDIN, r.stdin, r.stdinEnd) + []))
  }

  function AllRecords(r: Request): seq<Record> {
    [Begin(r.flags, r.reserved)] + (Records(FCGI_PARAMS, r.params) + Records(FCGI_STDIN, r.stdin))
  }

  lemma RequestRecords(r: Request)
    requires Valid(r)
    ensures Decode(EncodeRequest(r)) == Decoded(AllRecords(r), [])
  {
    hide Encode, WholeRecord, HeadRecord, TotalLength, Stream, Records;
    var q2 := Stream(FCGI_STDIN, r.stdin, r.stdinEnd) + [];
    var q1 := Stream(FCGI_PARAMS, r.params, r.paramsEnd) + q2;
    NothingLeft();
    EncodedHead(Begin(r.flags, r.reserved), r.begin, q1);
    StreamDecodes(FCGI_PARAMS, r.params, r.paramsEnd, q2);
    StreamDecodes(FCGI_STDIN, r.stdin, r.stdinEnd, []);
    assert Records(FCGI_STDIN, r.stdin) + [] == Records(FCGI_STDIN, r.stdin);
  }

  lemma NothingLeft()
    ensures Decode([]) == Decoded([], [])
  {
  }

  lemma BeginHandled(s: State, flags: Byte, reserved: Bytes)
    requires |reserved| == 5
    ensures Handle(s, Begin(flags, reserved)) == s.(keepConn := flags == FCGI_KEEP_CONN)
  {
  }

  // What the records of a request add to what the codec holds.
  function After(s: State, r: Request): State
    requires Valid(r)
  {
    var p := ParseParams(s.params, s.paramsStream + Text(r.params));
    State(p.params, p.rest, s.stdin + Text(r.stdin), true, r.flags == FCGI_KEEP_CONN, s.rest)
  }

  lemma RequestHandled(s: State, r: Request)
    requires Valid(r)
    ensures HandleAll(s, AllRecords(r)) == After(s, r)
  {
    var s1 := s.(keepConn := r.flags == FCGI_KEEP_CONN);
    BeginHandled(s, r.flags, r.reserved);
    hide Handle, ParseParams, Records, Text, Begin;
    var ra, rb := Records(FCGI_PARAMS, r.params), Records(FCGI_STDIN, r.stdin);
    assert AllRecords(r)[1..] == ra + rb;
    HandleAllAppend(s1, ra, rb);
    ParamsHandled(s1, r.params);
    StdinHandled(HandleAll(s1, ra), r.stdin);
  }

  // Whatever the parameter stream is, the request is reported, with what of the stream could be parsed.
  lemma RequestReceived(r: Request, chunks: seq<Bytes>)
    requires Valid(r) && Concat(chunks) == EncodeRequest(r)
    ensures var p := ParseParams(map[], Text(r.params));
            ReceiveAll(START, chunks) == State(p.params, p.rest, Text(r.stdin), true, r.flags == FCGI_KEEP_CONN, [])
  {
    hide Decode, Handle, EncodeRequest, AllRecords, Text, ReceiveAll, Concat, Valid, ParseParams;
    NothingLeft();
    CuttingDoesNotMatter(START, chunks);
    assert [] + Concat(chunks) == Concat(chunks);
    RequestRecords(r);
    RequestHandled(START, r);
    assert [] + Text(r.params) == Text(r.params) && [] + Text(r.stdin) == Text(r.stdin);
  }

  // Any encoding of any request, cut into records and network chunks in any way, is decoded to the encoded map and body.
  lemma RequestDecodes(r: Request, ps: seq<Pair>, chunks: seq<Bytes>)
    requires Valid(r) && AllEncodable(ps) && Text(r.params) == EncodePairs(ps) && Concat(chunks) == EncodeRequest(r)
    ensures ReceiveAll(START, chunks) == State(MapOf(map[], ps), [], Text(r.stdin), true, r.flags == FCGI_KEEP_CONN, [])
  {
    hide Valid, EncodeRequest, Concat, ReceiveAll, Text, EncodePairs, ParseParams, MapOf;
    RequestReceived(r, chunks);
    PairsParse(map[], ps);
  }

  // A parameter stream that is cut short is not noticed: the request is reported all the same, with the pairs before
  // the cut.
  lemma CutRequestIsReported(r: Request, ps: seq<Pair>, k: nat, chunks: seq<Bytes>)
    requires Valid(r) && AllEncodable(ps) && k <= |EncodePairs(ps)|
    requires Text(r.params) == EncodePairs(ps)[..k] && Concat(chunks) == EncodeRequest(r)
    ensures var s := ReceiveAll(START, chunks);
            s.gotRequest && s.stdin == Text(r.stdin) && s.params == MapOf(map[], ps[..WholePairs(ps, k)])
  {
    hide Valid, EncodeRequest, Concat, ReceiveAll, Text, EncodePairs, ParseParams, MapOf, WholePairs;
    RequestReceived(r, chunks);
    CutStream(map[], ps, k);
  }

  // The code compares the flags byte as a whole, so it sees the keep-alive bit exactly if no other bit is set.
  lemma KeepAliveSeen(r: Request, chunks: seq<Bytes>)
    requires Valid(r) && Concat(chunks) == EncodeRequest(r)
    ensures (ReceiveAll(START, chunks).keepConn <==> r.flags % 2 == 1) <==> r.flags == FCGI_KEEP_CONN || r.flags % 2 == 0
  {
    hide Valid, EncodeRequest, Concat, ReceiveAll, ParseParams, Text;
    RequestReceived(r, chunks);
  }

  // Two such requests, with one parameter each and no body: the first has a parameter stream of four bytes cut after
  // three, and is reported without parameters; the second asks to be kept alive among other flags, and is not.
  lemma CutParameterIsDropped()
    ensures var p := Pair([65], [66], false, false);
            var r := Request(0, [0, 0, 0, 0, 0], Plain([]), [Part([1, 1, 65], Plain([]))], Plain([]), [], Plain([]));
            && Valid(r) && Encodable(p) && EncodePairs([p]) == [1, 1, 65, 66]
            && ReceiveAll(START, [EncodeRequest(r)]).gotRequest && ReceiveAll(START, [EncodeRequest(r)]).params == map[]
  {
    var p := Pair([65], [66], false, false);
    var r := Request(0, [0, 0, 0, 0, 0], Plain([]), [Part([1, 1, 65], Plain([]))], Plain([]), [], Plain([]));
    assert EncodePair(p) == [1, 1, 65, 66] && [p][1..] == [] && EncodePairs([p]) == [1, 1, 65, 66];
    assert r.params[1..] == [] && Text(r.params) == [1, 1, 65] == EncodePairs([p])[..3];
    assert Valid(r);
    OneChunk(EncodeRequest(r));
    CutRequestIsReported(r, [p], 3, [EncodeRequest(r)]);
    assert WholePairs([p], 3) == 0 && [p][..0] == [];
  }

  lemma KeepAliveIsMissed()
    ensures var r := Request(3, [0, 0, 0, 0, 0], Plain([]), [], Plain([]), [], Plain([]));
            Valid(r) && r.flags % 2 == 1 && !ReceiveAll(START, [EncodeRequest(r)]).keepConn
  {
    var r := Request(3, [0, 0, 0, 0, 0], Plain([]), [], Plain([]), [], Plain([]));
    assert Valid(r);
    OneChunk(EncodeRequest(r));
    hide EncodeRequest, ReceiveAll, Concat;
    KeepAliveSeen(r, [EncodeRequest(r)]);
  }

  lemma OneChunk(q: Bytes)
    ensures Concat([q]) == q
  {
    assert [q][1..] == [] && q + [] == q;
  }

  // The codec itself sends request id 1.
  function Plain(padding: Bytes): Wrap { Wrap(1, padding, 0) }

  // ---------------------------------------------------------------- the response

  function Zeros(n: nat): Bytes { seq(n, i => 0) }

  // endStdout and endRequest.
  function Ending(): Bytes {
    [1, FCGI_STDOUT, 0, 1, 0, 0, 0, 0] + [1, FCGI_END_REQUEST, 0, 1, 0, 8, 0, 0] + Bytes32(0) + Bytes32(0)
  }

  // respond: the body as one padded record, where it fits one and there is room for the header in front of it.
  function Response(body: Bytes, fits: bool): Bytes
    requires fits ==> |body| < 65536
  {
    (if fits then Encode(Record(FCGI_STDOUT, body), Plain(Padding(body))) else body) + Ending()
  }

  function Padding(body: Bytes): (r: Bytes)
    ensures |r| < 8 && (|body| + |r|) % 8 == 0
  {
    Zeros((8 - |body| % 8) % 8)
  }

  lemma EndingDecodes()
    ensures Decode(Ending()) == Decoded([Record(FCGI_STDOUT, []), Record(FCGI_END_REQUEST, Zeros(8))], []) && |Ending()| == 24
  {
    var e2 := Encode(Record(FCGI_END_REQUEST, Zeros(8)), Plain([]));
    var e1 := Encode(Record(FCGI_STDOUT, []), Plain([]));
    assert Bytes32(0) == [0, 0, 0, 0];
    assert Ending() == e1 + (e2 + []);
    EncodedHead(Record(FCGI_STDOUT, []), Plain([]), e2 + []);
    EncodedHead(Record(FCGI_END_REQUEST, Zeros(8)), Plain([]), []);
    NothingLeft();
    hide Encode, HeadRecord, WholeRecord, TotalLength, Ending;
    assert Decode(e2 + []) == Decoded([Record(FCGI_END_REQUEST, Zeros(8))], []);
  }

  // The response as a client decodes it: the body, the end of the stdout stream, the end of the request; and it
  // keeps eight-byte alignment.
  lemma ResponseDecodes(body: Bytes)
    requires |body| < 65536
    ensures Decode(Response(body, true)) ==
            Decoded([Record(FCGI_STDOUT, body), Record(FCGI_STDOUT, []), Record(FCGI_END_REQUEST, Zeros(8))], [])
    ensures |Response(body, true)| % 8 == 0
  {
    hide Encode, HeadRecord, WholeRecord, TotalLength, Ending, Padding, Zeros, Decode;
    FirstRecord(Record(FCGI_STDOUT, body), Plain(Padding(body)), Ending());
    EndingDecodes();
    Aligned(body);
  }

  lemma FirstRecord(r: Record, w: Wrap, more: Bytes)
    requires Sendable(r, w)
    ensures Decode(Encode(r, w) + more) == Decoded([r] + Decode(more).records, Decode(more).rest)
  {
    EncodedHead(r, w, more);
    hide Encode, HeadRecord, WholeRecord, TotalLength;
  }

  lemma Aligned(body: Bytes)
    requires |body| < 65536
    ensures |Response(body, true)| % 8 == 0
  {
    EndingDecodes();
    hide Padding, Ending, Decode;
  }

  method Respond(response: Buffer)
    requires response.Valid()
    modifies response, response.data
    ensures response.Valid()
    ensures var body := old(response.Contents());
            response.Contents() == Response(body, |body| < 65536 && old(response.readerIndex) >= HEADER)
  {
    hide Encode, Bytes32, Ending;
    ghost var body := response.Contents();
    var n := response.ReadableBytes();
    if n < 65536 && response.readerIndex >= HEADER {
      var padding := (8 - n % 8) % 8;
      response.Prepend([1, FCGI_STDOUT, 0, 1, n / 256, n % 256, padding, 0]);
      response.Append(Zeros(padding));
      StdoutShape(body, n, padding);
    }
    response.Append(Ending());
  }

  lemma StdoutShape(body: Bytes, n: int, padding: int)
    requires n == |body| < 65536 && padding == (8 - n % 8) % 8
    ensures [1, FCGI_STDOUT, 0, 1, n / 256, n % 256, padding, 0] + body + Zeros(padding) == Encode(Record(FCGI_STDOUT, body), Plain(Padding(body)))
  {
  }

  // ---------------------------------------------------------------- on the wire

  // A kept request with the one parameter "A" = "B", the body "hi" and padding, byte for byte.
  lemma RequestOnTheWire()
    ensures var r := Request(1, [0, 0, 0, 0, 0], Plain([]), [Part([1, 1, 65, 66], Plain([0, 0, 0, 0]))], Plain([]),
                             [Part([104, 105], Wrap(258, [], 0))], Plain([]));
            && Valid(r)
            && EncodeRequest(r) == [1, 1, 0, 1, 0, 8, 0, 0, 0, 1, 1, 0, 0, 0, 0, 0]
                                   + (([1, 4, 0, 1, 0, 4, 4, 0, 1, 1, 65, 66, 0, 0, 0, 0] + [1, 4, 0, 1, 0, 0, 0, 0])
                                      + ([1, 5, 1, 2, 0, 2, 0, 0, 104, 105] + [1, 5, 0, 1, 0, 0, 0, 0]))
  {
    var p, t := Part([1, 1, 65, 66], Plain([0, 0, 0, 0])), Part([104, 105], Wrap(258, [], 0));
    OneStream(4, p, Plain([]));
    OneStream(5, t, Plain([]));
    RecordsOnTheWire();
    hide Stream, Encode;
    var q := Stream(5, [t], Plain([]));
    assert q + [] == q;
  }

  lemma RecordsOnTheWire()
    ensures Encode(Begin(1, [0, 0, 0, 0, 0]), Plain([])) == [1, 1, 0, 1, 0, 8, 0, 0, 0, 1, 1, 0, 0, 0, 0, 0]
    ensures Encode(Record(4, [1, 1, 65, 66]), Plain([0, 0, 0, 0])) == [1, 4, 0, 1, 0, 4, 4, 0, 1, 1, 65, 66, 0, 0, 0, 0]
    ensures Encode(Record(5, [104, 105]), Wrap(258, [], 0)) == [1, 5, 1, 2, 0, 2, 0, 0, 104, 105]
    ensures Encode(Record(4, []), Plain([])) == [1, 4, 0, 1, 0, 0, 0, 0] && Encode(Record(5, []), Plain([])) == [1, 5, 0, 1, 0, 0, 0, 0]
  {
  }

  lemma OneStream(kind: Byte, part: Part, end: Wrap)
    requires Cuts([part]) && Wrapped([], end) && Wrapped(part.content, part.wrap)
    ensures Stream(kind, [part], end) == Encode(Record(kind, part.content), part.wrap) + Encode(Record(kind, []), end)
  {
    hide Encode;
    assert [part][1..] == [];
    assert Stream(kind, [], end) == Encode(Record(kind, []), end);
  }

  // The two forms of a length, and the response to "hi".
  lemma LengthsOnTheWire()
    ensures EncodeLen(127, false) == [127] && EncodeLen(300, true) == [128, 0, 1, 44]
    ensures LenAt([127]) == 127 && LenAt([128, 0, 1, 44]) == 300 && LenAt([128, 0, 1]) == -1
  {
  }

  lemma ResponseOnTheWire()
    ensures Response([104, 105], true) == [1, 6, 0, 1, 0, 2, 6, 0, 104, 105, 0, 0, 0, 0, 0, 0]
                                          + ([1, 6, 0, 1, 0, 0, 0, 0] + [1, 3, 0, 1, 0, 8, 0, 0, 0, 0, 0, 0, 0, 0, 0, 0])
  {
    EndingOnTheWire();
    hide Ending;
    assert Zeros(6) == [0, 0, 0, 0, 0, 0];
  }

  lemma EndingOnTheWire()
    ensures Ending() == [1, 6, 0, 1, 0, 0, 0, 0] + [1, 3, 0, 1, 0, 8, 0, 0, 0, 0, 0, 0, 0, 0, 0, 0]
  {
    assert Bytes32(0) == [0, 0, 0, 0];
  }

  // A response that does not fit one record goes out bare, and the two ending records after it.
  lemma BareResponse(body: Bytes)
    ensures Response(body, false) == body + ([1, 6, 0, 1, 0, 0, 0, 0] + [1, 3, 0, 1, 0, 8, 0, 0, 0, 0, 0, 0, 0, 0, 0, 0])
  {
    EndingOnTheWire();
  }

  // Records of any kind but begin, params and stdin, and begin records that are short or for another role, change
  // nothing.
  predicate Idles(r: Record) {
    (r.kind != 1 && r.kind != 4 && r.kind != 5)
    || (r.kind == 1 && (|r.content| < 8 || r.content[0] != 0 || r.content[1] != 1))
  }

  lemma {:induction false} IdleRecordsAreSkipped(s: State, rs: seq<Record>)
    requires forall i :: 0 <= i < |rs| ==> Idles(rs[i])
    ensures HandleAll(s, rs) == s
    decreases |rs|
  {
    hide ParseParams;
    if rs != [] {
      assert Idles(rs[0]);
      IdleRecordsAreSkipped(Handle(s, rs[0]), rs[1..]);
    }
  }

  // ---------------------------------------------------------------- the class

  // The codec's own buffers are byte strings here; the connection's input buffer is the real one.
  class FastCgiCodec {
    var gotRequest: bool
    var keepConn: bool
    var stdin: Bytes
    var paramsStream: Bytes
    var params: map<Bytes, Bytes>

    ghost function View(rest: Bytes): State
      reads this
    {
      State(params, paramsStream, stdin, gotRequest, keepConn, rest)
    }

    constructor ()
      ensures View([]) == START
    {
      gotRequest, keepConn, stdin, paramsStream, params := false, false, [], [], map[];
    }

    // -1 stands for static_cast<uint32_t>(-1), which no length has.
    method ReadLen() returns (n: int)
      modifies `paramsStream
      ensures n == LenAt(old(paramsStream))
      ensures paramsStream == if n < 0 then old(paramsStream) else old(paramsStream)[LenSize(old(paramsStream))..]
    {
      var q := paramsStream;
      if |q| >= 1 {
        if q[0] >= 128 {
          if |q| >= 4 {
            n := Word(Int32At(q)) % 0x8000_0000;
            Low31(q);
            paramsStream := q[4..];
          } else {
            return -1;
          }
        } else {
          n := Int8At(q);
          paramsStream := q[1..];
        }
      } else {
        return -1;
      }
    }

    method ParseAllParams() returns (ok: bool)
      modifies `paramsStream, `params
      ensures Parsed(ok, params, paramsStream) == ParseParams(old(params), old(paramsStream))
    {
      hide LenAt, LenSize, ParseParams;
      while |paramsStream| > 0
        invariant ParseParams(params, paramsStream) == ParseParams(old(params), old(paramsStream))
        decreases |paramsStream|
      {
        ghost var q := paramsStream;
        var nameLen := ReadLen();
        if nameLen == -1 {
          CutName(params, q);
          return false;
        }
        ghost var q1 := paramsStream;
        var valueLen := ReadLen();
        if valueLen == -1 {
          CutValue(params, q);
          return false;
        }
        SumDoesNotWrap(q, q1);
        OnePair(params, q);
        if |paramsStream| >= (nameLen + valueLen) % 0x1_0000_0000 {
          var name := paramsStream[..nameLen];
          paramsStream := paramsStream[nameLen..];
          params := params[name := paramsStream[..valueLen]];
          paramsStream := paramsStream[valueLen..];
        } else {
          return false;
        }
      }
      NoPair(params, paramsStream);
      return true;
    }

    method OnRecord(r: Record)
      modifies this
      ensures View([]) == Handle(old(View([])), r)
    {
      hide ParseParams;
      if r.kind == FCGI_BEGIN_REQUEST {
        if |r.content| >= HEADER {
          var role := r.content[0] as int * 256 + r.content[1] as int;
          if role == FCGI_RESPONDER {
            keepConn := r.content[2] == FCGI_KEEP_CONN;
          }
        }
      } else if r.kind == FCGI_PARAMS {
        if |r.content| > 0 {
          paramsStream := paramsStream + r.content;
        } else {
          var ok := ParseAllParams();
        }
      } else if r.kind == FCGI_STDIN {
        if |r.content| > 0 {
          stdin := stdin + r.content;
        } else {
          gotRequest := true;
        }
      }
    }

    // parseRequest: every whole record in the buffer is handled and taken out.
    method ParseRequest(buf: Buffer)
      requires buf.Valid()
      modifies this, buf`readerIndex, buf`writerIndex
      ensures buf.Valid()
      ensures var d := Decode(old(buf.Contents())); View(buf.Contents()) == HandleAll(old(View([])), d.records).(rest := d.rest)
    {
      ghost var q, s := buf.Contents(), View([]);
      hide Handle, TotalLength, HeadRecord, View;
      AheadStart(s, q);
      var more := true;
      while more && buf.ReadableBytes() >= HEADER
        invariant buf.Valid() && Ahead(View([]), buf.Contents(), s, q)
        invariant !more ==> !WholeRecord(buf.Contents())
        decreases more, buf.ReadableBytes()
      {
        var header := buf.Peek(HEADER);
        var total := HeaderTotal(header, buf.Contents());
        if buf.ReadableBytes() >= total {
          AheadNext(View([]), buf.Contents(), s, q);
          var r := TakeRecord(buf, header, total);
          OnRecord(r);
        } else {
          more := false;
        }
      }
      AheadEnd(View([]), buf.Contents(), s, q);
      ViewRest(buf.Contents());
    }

    // Bytes have arrived in the connection's input buffer.
    method OnMessage(buf: Buffer) returns (reports: seq<Report>, shutdown: bool)
      requires buf.Valid()
      modifies this, buf`readerIndex, buf`writerIndex
      ensures buf.Valid()
      ensures Connection(View(buf.Contents()), reports, shutdown) == Message(Connection(old(View(buf.Contents())), [], false), [])
    {
      hide Decode, HandleAll;
      reports, shutdown := [], false;
      ghost var q, s := buf.Contents(), View([]);
      HandleAllRest(s, Decode(q).records, q);
      assert q + [] == q;
      ParseRequest(buf);
      if gotRequest {
        reports := [Report(params, stdin)];
        stdin := [];
        paramsStream := [];
        params := map[];
        gotRequest := false;
        if !keepConn {
          shutdown := true;
        }
      }
    }

    lemma ViewRest(rest: Bytes)
      ensures View(rest) == View([]).(rest := rest)
    {
    }

    method TakeRecord(buf: Buffer, header: Bytes, total: nat) returns (r: Record)
      requires buf.Valid() && WholeRecord(buf.Contents()) && header == buf.Contents()[..HEADER] && total == TotalLength(buf.Contents())
      modifies buf`readerIndex, buf`writerIndex
      ensures buf.Valid() && r == HeadRecord(old(buf.Contents())) && buf.Contents() == old(buf.Contents())[total..]
    {
      var length := header[4] as int * 256 + header[5] as int;
      var bytes := buf.Peek(HEADER + length);
      r := Record(header[1], bytes[HEADER..]);
      buf.Retrieve(total);
    }
  }

  method HeaderTotal(header: Bytes, ghost q: Bytes) returns (total: nat)
    requires |q| >= HEADER && header == q[..HEADER]
    ensures total == TotalLength(q)
  {
    total := HEADER + header[4] as int * 256 + header[5] as int + header[6] as int;
  }

  lemma Low31(q: Bytes)
    requires |q| >= 4 && q[0] >= 128
    ensures Word(Int32At(q)) % 0x8000_0000 == LenAt(q)
  {
    var w := q[0] as int * 0x100_0000 + q[1] as int * 0x1_0000 + q[2] as int * 256 + q[3] as int;
    assert Int32At(q) == w - 0x1_0000_0000;
    assert Word(Int32At(q)) == w;
  }

  // parseRequest's loop: handling what is left from here gives what the whole buffer gives.
  ghost predicate Ahead(v: State, left: Bytes, s: State, q: Bytes) {
    HandleAll(v, Decode(left).records) == HandleAll(s, Decode(q).records) && Decode(left).rest == Decode(q).rest
  }

  lemma AheadStart(s: State, q: Bytes)
    ensures Ahead(s, q, s, q)
  {
  }

  lemma AheadNext(v: State, left: Bytes, s: State, q: Bytes)
    requires Ahead(v, left, s, q) && WholeRecord(left)
    ensures Ahead(Handle(v, HeadRecord(left)), left[TotalLength(left)..], s, q)
  {
    hide Handle, HeadRecord, TotalLength;
    var d := Decode(left[TotalLength(left)..]);
    assert ([HeadRecord(left)] + d.records)[1..] == d.records;
  }

  lemma AheadEnd(v: State, left: Bytes, s: State, q: Bytes)
    requires Ahead(v, left, s, q) && !WholeRecord(left)
    ensures v == HandleAll(s, Decode(q).records) && left == Decode(q).rest
  {
  }
}
