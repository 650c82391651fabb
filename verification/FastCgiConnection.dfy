/** Several requests on one kept FastCGI connection, one after the other: each is reported with its own parameters and
  body as long as no chunk of the network brings bytes of two of them; two that arrive at once become one. */
module FastCgiConnection {
  import opened Seqs
  import opened Buffer
  import opened FastCgi

  // The record that ends a request.
  predicate Final(r: Record) { r.kind == FCGI_STDIN && r.content == [] }

  predicate NoneFinal(rs: seq<Record>) { forall i :: 0 <= i < |rs| ==> !Final(rs[i]) }

  // Until then no request is complete.
  lemma {:induction false} NotComplete(s: State, rs: seq<Record>)
    requires !s.gotRequest && NoneFinal(rs)
    ensures !HandleAll(s, rs).gotRequest
    decreases |rs|
  {
    hide ParseParams;
    if rs != [] {
      assert !Final(rs[0]) && NoneFinal(rs[1..]);
      NotComplete(Handle(s, rs[0]), rs[1..]);
    }
  }

  lemma {:induction false} PartsNotFinal(kind: Byte, parts: seq<Part>)
    requires Cuts(parts)
    ensures var rs := Records(kind, parts); rs != [] && NoneFinal(rs[..|rs| - 1]) && (kind != FCGI_STDIN ==> NoneFinal(rs))
    decreases |parts|
  {
    hide NoneFinal;
    if parts == [] {
      NoRecordFinal();
      OneMore(Record(kind, []), []);
      assert [Record(kind, [])] + [] == [Record(kind, [])] && Records(kind, parts)[..0] == [];
    } else {
      var r, tail := Record(kind, parts[0].content), Records(kind, parts[1..]);
      PartsNotFinal(kind, parts[1..]);
      OneMore(r, tail);
      OneMore(r, tail[..|tail| - 1]);
      assert ([r] + tail)[..|tail|] == [r] + tail[..|tail| - 1];
    }
  }

  lemma NoRecordFinal()
    ensures NoneFinal([])
  {
  }

  lemma OneMore(r: Record, rs: seq<Record>)
    ensures NoneFinal([r] + rs) <==> !Final(r) && NoneFinal(rs)
  {
    hide Final;
    var all := [r] + rs;
    assert forall i :: 0 <= i < |rs| ==> all[i + 1] == rs[i];
    assert forall i :: 0 < i < |all| ==> all[i] == rs[i - 1];
    assert all[0] == r;
    if NoneFinal(all) {
      forall i | 0 <= i < |rs|
        ensures !Final(rs[i])
      {
        assert !Final(all[i + 1]);
      }
    }
  }

  // Only the last record of a request is the final one.
  lemma OnlyLastIsFinal(r: Request)
    requires Valid(r)
    ensures var rs := AllRecords(r); rs != [] && NoneFinal(rs[..|rs| - 1])
  {
    PartsNotFinal(FCGI_PARAMS, r.params);
    PartsNotFinal(FCGI_STDIN, r.stdin);
    var ra, rb := Records(FCGI_PARAMS, r.params), Records(FCGI_STDIN, r.stdin);
    var b, rs := Begin(r.flags, r.reserved), AllRecords(r);
    assert rs[..|rs| - 1] == [b] + (ra + rb[..|rb| - 1]);
    assert !Final(b);
    hide Records;
  }

  // A proper prefix of a request's bytes holds fewer records.
  lemma PrefixHoldsFewer(r: Request, p: Bytes, q: Bytes)
    requires Valid(r) && p + q == EncodeRequest(r) && q != []
    ensures var rs := Decode(p).records; NoneFinal(rs)
  {
    hide EncodeRequest, AllRecords, Decode, Valid;
    RequestRecords(r);
    OnlyLastIsFinal(r);
    DecodeMore(p, q);
    var d := Decode(p);
    var e := Decode(d.rest + q);
    if e.records == [] {
      RestOfNoRecord(d.rest + q);
      assert false;
    } else {
      assert |d.records| <= |AllRecords(r)| - 1;
      assert d.records == AllRecords(r)[..|d.records|];
      assert forall i :: 0 <= i < |d.records| ==> d.records[i] == AllRecords(r)[..|AllRecords(r)| - 1][i];
    }
  }

  lemma RestOfNoRecord(q: Bytes)
    requires Decode(q).records == []
    ensures Decode(q).rest == q
  {
  }

  // A request in the middle: the codec holds what its first bytes give, and nothing is reported.
  lemma NotYet(keep: bool, r: Request, p: Bytes, q: Bytes)
    requires Valid(r) && p + q == EncodeRequest(r) && q != []
    ensures !Receive(Idle(keep), p).gotRequest
  {
    hide EncodeRequest, Decode, HandleAll, Valid, NoneFinal;
    assert [] + p == p;
    PrefixHoldsFewer(r, p, q);
    NotComplete(Idle(keep), Decode(p).records);
  }

  lemma Complete(keep: bool, r: Request)
    requires Valid(r)
    ensures var p := ParseParams(map[], Text(r.params));
            Receive(Idle(keep), EncodeRequest(r)) == State(p.params, p.rest, Text(r.stdin), true, r.flags == FCGI_KEEP_CONN, [])
  {
    hide EncodeRequest, Decode, AllRecords, HandleAll, Valid, ParseParams, Text;
    assert [] + EncodeRequest(r) == EncodeRequest(r);
    RequestRecords(r);
    RequestHandled(Idle(keep), r);
    assert [] + Text(r.params) == Text(r.params) && [] + Text(r.stdin) == Text(r.stdin);
  }

  lemma ReceiveTwice(s: State, p: Bytes, q: Bytes)
    requires Decode(s.rest).records == []
    ensures Receive(Receive(s, p), q) == Receive(s, p + q)
  {
    CuttingDoesNotMatter(s, [p, q]);
    hide Receive;
    assert [p, q][1..] == [q] && [q][1..] == [];
    assert Concat([q]) == q by { OneChunk(q); }
    assert ReceiveAll(Receive(s, p), [q]) == ReceiveAll(Receive(Receive(s, p), q), []);
  }

  lemma NothingReceived(keep: bool)
    ensures Receive(Idle(keep), []) == Idle(keep)
  {
    NothingLeft();
    assert Idle(keep).rest + [] == [];
  }

  lemma {:induction false} EmptyChunks(c: Connection, keep: bool, chunks: seq<Bytes>)
    requires c.codec == Idle(keep) && Concat(chunks) == []
    ensures Messages(c, chunks) == c
    decreases |chunks|
  {
    hide Receive;
    if chunks != [] {
      NothingReceived(keep);
      assert chunks[0] == [];
      EmptyChunks(c, keep, chunks[1..]);
    }
  }

  // What the callback is given for a request.
  function ReportOf(r: Request): Report { Report(ParseParams(map[], Text(r.params)).params, Text(r.stdin)) }

  function Reported(c: Connection, r: Request): Connection {
    Connection(Idle(r.flags == FCGI_KEEP_CONN), c.reports + [ReportOf(r)], c.shut || r.flags != FCGI_KEEP_CONN)
  }

  // The rest of a request, of which p has arrived.
  lemma {:induction false} RestOfRequest(c: Connection, keep: bool, r: Request, p: Bytes, chunks: seq<Bytes>)
    requires Valid(r) && p + Concat(chunks) == EncodeRequest(r) && p != EncodeRequest(r)
    requires c.codec == Receive(Idle(keep), p)
    ensures Messages(c, chunks) == Reported(c, r)
    decreases |chunks|
  {
    hide EncodeRequest, Receive, Valid, ReportOf;
    if chunks == [] {
      assert false;
    } else {
      var p', more := p + chunks[0], Concat(chunks[1..]);
      Assoc(p, chunks[0], more);
      NothingLeft();
      ReceiveTwice(Idle(keep), p, chunks[0]);
      if p' == EncodeRequest(r) {
        assert more == [] by { assert |p' + more| == |p'|; }
        OneReported(c, keep, r, chunks[0]);
        EmptyChunks(Message(c, chunks[0]), r.flags == FCGI_KEEP_CONN, chunks[1..]);
      } else {
        if more == [] {
          assert false;
        } else {
          NotYet(keep, r, p', more);
          RestOfRequest(Message(c, chunks[0]), keep, r, p', chunks[1..]);
        }
      }
    }
  }

  lemma OneReported(c: Connection, keep: bool, r: Request, chunk: Bytes)
    requires Valid(r) && Receive(c.codec, chunk) == Receive(Idle(keep), EncodeRequest(r))
    ensures Message(c, chunk) == Reported(c, r)
  {
    Complete(keep, r);
    hide EncodeRequest, Receive, Valid, ParseParams, Text;
  }

  lemma OneRequest(c: Connection, keep: bool, r: Request, chunks: seq<Bytes>)
    requires Valid(r) && c.codec == Idle(keep) && Concat(chunks) == EncodeRequest(r)
    ensures Messages(c, chunks) == Reported(c, r)
  {
    NothingReceived(keep);
    NonEmptyRequest(r);
    hide EncodeRequest, Receive, Valid;
    assert [] + Concat(chunks) == Concat(chunks);
    RestOfRequest(c, keep, r, [], chunks);
  }

  lemma NonEmptyRequest(r: Request)
    requires Valid(r)
    ensures EncodeRequest(r) != []
  {
  }

  lemma {:induction false} MessagesAppend(c: Connection, xs: seq<Bytes>, ys: seq<Bytes>)
    ensures Messages(c, xs + ys) == Messages(Messages(c, xs), ys)
    decreases |xs|
  {
    hide Message;
    if xs == [] {
      assert xs + ys == ys;
    } else {
      assert (xs + ys)[0] == xs[0] && (xs + ys)[1..] == xs[1..] + ys;
      MessagesAppend(Message(c, xs[0]), xs[1..], ys);
    }
  }

  // A request, the pairs it encodes, and the chunks it arrives in.
  datatype Exchange = Exchange(request: Request, pairs: seq<Pair>, chunks: seq<Bytes>)

  predicate Sound(x: Exchange) {
    && Valid(x.request) && AllEncodable(x.pairs) && Text(x.request.params) == EncodePairs(x.pairs)
    && Concat(x.chunks) == EncodeRequest(x.request)
  }

  predicate AllSound(xs: seq<Exchange>) { forall i :: 0 <= i < |xs| ==> Sound(xs[i]) }

  function AllChunks(xs: seq<Exchange>): seq<Bytes> {
    if xs == [] then [] else xs[0].chunks + AllChunks(xs[1..])
  }

  function AllReports(xs: seq<Exchange>): seq<Report> {
    if xs == [] then [] else [Report(MapOf(map[], xs[0].pairs), Text(xs[0].request.stdin))] + AllReports(xs[1..])
  }

  // The connection is to be shut down once a request did not ask for more.
  predicate AnyLast(xs: seq<Exchange>) { exists i :: 0 <= i < |xs| && xs[i].request.flags != FCGI_KEEP_CONN }

  // Any number of requests, each encoded and cut in its own way, with no chunk across two of them: every one is
  // reported, in order, with its own map and body.
  lemma {:induction false} RequestsAreReported(c: Connection, keep: bool, xs: seq<Exchange>)
    requires c.codec == Idle(keep) && AllSound(xs)
    ensures var d := Messages(c, AllChunks(xs));
            && d.reports == c.reports + AllReports(xs) && (d.shut <==> c.shut || AnyLast(xs))
            && d.codec == Idle(if xs == [] then keep else Last(xs).request.flags == FCGI_KEEP_CONN)
    decreases |xs|
  {
    hide Sound, MapOf, Text, AnyLast, Last;
    if xs == [] {
      NoneLast();
      assert c.reports + [] == c.reports;
    } else {
      var x, rest := xs[0], xs[1..];
      OneExchange(c, keep, x);
      MessagesAppend(c, x.chunks, AllChunks(rest));
      var mid := Messages(c, x.chunks);
      RequestsAreReported(mid, x.request.flags == FCGI_KEEP_CONN, rest);
      Assoc(c.reports, [Report(MapOf(map[], x.pairs), Text(x.request.stdin))], AllReports(rest));
      LastOfRest(xs);
    }
  }

  lemma NoneLast()
    ensures !AnyLast([])
  {
  }

  lemma LastOfRest(xs: seq<Exchange>)
    requires xs != []
    ensures AnyLast(xs) <==> xs[0].request.flags != FCGI_KEEP_CONN || AnyLast(xs[1..])
    ensures Last(xs) == if xs[1..] == [] then xs[0] else Last(xs[1..])
  {
    var rest := xs[1..];
    assert forall i :: 0 < i < |xs| ==> xs[i] == rest[i - 1];
    assert forall i :: 0 <= i < |rest| ==> rest[i] == xs[i + 1];
  }

  lemma OneExchange(c: Connection, keep: bool, x: Exchange)
    requires c.codec == Idle(keep) && Sound(x)
    ensures Messages(c, x.chunks) ==
            Connection(Idle(x.request.flags == FCGI_KEEP_CONN), c.reports + [Report(MapOf(map[], x.pairs), Text(x.request.stdin))],
                       c.shut || x.request.flags != FCGI_KEEP_CONN)
  {
    hide Messages, EncodeRequest, MapOf, ParseParams, Text, EncodePairs, Valid;
    OneRequest(c, keep, x.request, x.chunks);
    PairsParse(map[], x.pairs);
  }

  // Two requests that arrive in one chunk are never told apart: they are reported once, with the second's parameters
  // on top of the first's and the bodies run together, and the first's flag is not looked at.
  lemma TwoAtOnce(c: Connection, keep: bool, x: Exchange, y: Exchange)
    requires c.codec == Idle(keep) && Sound(x) && Sound(y)
    ensures Message(c, EncodeRequest(x.request) + EncodeRequest(y.request)) ==
            Connection(Idle(y.request.flags == FCGI_KEEP_CONN),
                       c.reports + [Report(MapOf(MapOf(map[], x.pairs), y.pairs), Text(x.request.stdin) + Text(y.request.stdin))],
                       c.shut || y.request.flags != FCGI_KEEP_CONN)
  {
    hide EncodeRequest, Decode, MapOf, ParseParams, Text, EncodePairs, Valid, AllRecords, HandleAll;
    var p, q := EncodeRequest(x.request), EncodeRequest(y.request);
    NothingLeft();
    ReceiveTwice(Idle(keep), p, q);
    Complete(keep, x.request);
    PairsParse(map[], x.pairs);
    var s := Receive(Idle(keep), p);
    assert s == State(MapOf(map[], x.pairs), [], Text(x.request.stdin), true, x.request.flags == FCGI_KEEP_CONN, []);
    assert s.rest + q == q;
    RequestRecords(y.request);
    RequestHandled(s, y.request);
    assert [] + Text(y.request.params) == Text(y.request.params);
    PairsParse(MapOf(map[], x.pairs), y.pairs);
  }
}
