/** The text commands in frames with id 0: CONN <id> FROM <peer> IS UP, the same IS DOWN, and DISCONNECT <id>. */
module Commands {
  import opened Frames

  const CONN: Bytes := [67, 79, 78, 78, 32]                                  // "CONN "
  const FROM: Bytes := [32, 70, 82, 79, 77, 32]                              // " FROM "
  const IS_UP: Bytes := [32, 73, 83, 32, 85, 80, 13, 10]                     // " IS UP\r\n"
  const IS_DOWN: Bytes := [32, 73, 83, 32, 68, 79, 87, 78, 13, 10]           // " IS DOWN\r\n"
  const DISCONNECT: Bytes := [68, 73, 83, 67, 79, 78, 78, 69, 67, 84, 32]    // "DISCONNECT "
  const CRLF: Bytes := [13, 10]

  // ---------------------------------------------------------------- numbers

  predicate Digit(c: int) { 48 <= c <= 57 }

  // %d of a non-negative number.
  function Digits(n: nat): (q: Bytes)
    requires n < 0x1_0000_0000
    ensures q != [] && forall i :: 0 <= i < |q| ==> Digit(q[i])
  {
    if n < 10 then [48 + n] else Digits(n / 10) + [48 + n % 10]
  }

  function Number(n: int, q: Bytes): int
    decreases |q|
  {
    if q == [] || !Digit(q[0]) then n else Number(n * 10 + q[0] as int - 48, q[1..])
  }

  predicate Space(c: int) { c == 32 || 9 <= c <= 13 }

  // atoi: white space, a sign, digits.
  function Atoi(q: Bytes): int
    decreases |q|
  {
    if q == [] then 0
    else if Space(q[0]) then Atoi(q[1..])
    else if q[0] == 45 then -Number(0, q[1..])
    else if q[0] == 43 then Number(0, q[1..])
    else Number(0, q)
  }

  lemma {:induction false} NumberReads(n: nat, rest: Bytes)
    requires n < 0x1_0000_0000
    ensures Number(0, Digits(n) + rest) == Number(n, rest)
    decreases n
  {
    if n < 10 {
      assert ([48 + n] + rest)[1..] == rest;
    } else {
      var d: Bytes := [48 + n % 10];
      assert Digits(n) + rest == Digits(n / 10) + (d + rest);
      NumberReads(n / 10, d + rest);
      assert (d + rest)[1..] == rest;
    }
  }

  // What %d has written, atoi reads.
  lemma AtoiReads(n: nat, rest: Bytes)
    requires n < 0x1_0000_0000 && rest != [] && !Digit(rest[0])
    ensures Atoi(Digits(n) + rest) == n
  {
    NumberReads(n, rest);
    assert Digit((Digits(n) + rest)[0]);
    hide Digits;
  }

  // ---------------------------------------------------------------- the commands

  // What toIpPort prints has no blank.
  predicate Peer(p: Bytes) { |p| <= 32 && forall i :: 0 <= i < |p| ==> p[i] != 32 }

  function ConnText(id: int, peer: Bytes): Bytes
    requires Id16(id)
  {
    CONN + Digits(id) + FROM + peer
  }

  function UpText(id: int, peer: Bytes): Bytes
    requires Id16(id)
  {
    ConnText(id, peer) + IS_UP
  }

  function DownText(id: int, peer: Bytes): Bytes
    requires Id16(id)
  {
    ConnText(id, peer) + IS_DOWN
  }

  function DisconnectText(id: int): Bytes
    requires Id16(id)
  {
    DISCONNECT + Digits(id) + CRLF
  }

  function Ascii(text: string): Bytes { seq(|text|, i requires 0 <= i < |text| => text[i] as int % 256) }

  // The texts as they are printed.
  lemma TextsRead(id: int, peer: Bytes)
    requires Id16(id)
    ensures UpText(id, peer) == Ascii("CONN ") + Digits(id) + Ascii(" FROM ") + peer + Ascii(" IS UP\r\n")
    ensures DownText(id, peer) == Ascii("CONN ") + Digits(id) + Ascii(" FROM ") + peer + Ascii(" IS DOWN\r\n")
    ensures DisconnectText(id) == Ascii("DISCONNECT ") + Digits(id) + Ascii("\r\n")
  {
    assert CONN == Ascii("CONN ");
    assert FROM == Ascii(" FROM ");
    assert IS_UP == Ascii(" IS UP\r\n");
    assert IS_DOWN == Ascii(" IS DOWN\r\n");
    assert DISCONNECT == Ascii("DISCONNECT ");
    assert CRLF == Ascii("\r\n");
    hide Digits, Ascii;
  }

  // %d writes no leading zeros.
  lemma DigitsRead()
    ensures Digits(0) == Ascii("0") && Digits(7) == Ascii("7") && Digits(10) == Ascii("10")
    ensures forall n: nat :: 0 < n < 0x1_0000_0000 ==> Digits(n)[0] != 48
  {
    assert Digits(1) == [49];
    forall n: nat | 0 < n < 0x1_0000_0000
      ensures Digits(n)[0] != 48
    {
      NoLeadingZero(n);
    }
  }

  lemma {:induction false} NoLeadingZero(n: nat)
    requires 0 < n < 0x1_0000_0000
    ensures Digits(n)[0] != 48
  {
    if n >= 10 {
      NoLeadingZero(n / 10);
    }
  }

  // " IS UP" at position i.
  predicate UpAt(q: Bytes, i: int) { 0 <= i <= |q| - 6 && q[i..i + 6] == IS_UP[..6] }

  predicate IsUp(q: Bytes) { exists i :: 0 <= i < |q| && UpAt(q, i) }

  // What the demultiplexer's doCommand makes of a command: whatever is no UP is a DOWN. (On a text shorter than
  // "CONN " the code reads past its end; it is read as id 0 here.)
  datatype Note = Up(id: int) | Down(id: int)

  function NoteOf(q: Bytes): Note {
    var id := if |q| >= |CONN| then Atoi(q[|CONN|..]) else 0;
    if IsUp(q) then Up(id) else Down(id)
  }

  // What the multiplexer's doCommand makes of one: the connection to shut down, or 0 for any other text.
  function HangupOf(q: Bytes): int {
    if |q| > |DISCONNECT| && q[..|DISCONNECT|] == DISCONNECT then Atoi(q[|DISCONNECT|..]) else 0
  }

  lemma IdRead(id: int, peer: Bytes, tail: Bytes)
    requires Id16(id)
    ensures var q := ConnText(id, peer) + tail; |q| >= |CONN| && Atoi(q[|CONN|..]) == id
  {
    var q := ConnText(id, peer) + tail;
    assert q[|CONN|..] == Digits(id) + (FROM + peer + tail);
    AtoiReads(id, FROM + peer + tail);
    hide Digits, Atoi;
  }

  lemma UpRead(id: int, peer: Bytes)
    requires Id16(id)
    ensures NoteOf(UpText(id, peer)) == Up(id)
  {
    IdRead(id, peer, IS_UP);
    hide ConnText, Atoi;
    var q, n := UpText(id, peer), |ConnText(id, peer)|;
    assert q[n..n + 6] == IS_UP[..6];
    assert UpAt(q, n);
  }

  // " IS UP" is nowhere in the other text, whatever the peer looks like.
  lemma NotUpAt(id: int, peer: Bytes, i: int)
    requires Id16(id) && Peer(peer)
    ensures !UpAt(DownText(id, peer), i)
  {
    var q, dg := DownText(id, peer), Digits(id);
    hide Digits;
    var b, e := |CONN| + |dg|, |CONN| + |dg| + |FROM| + |peer|;
    if UpAt(q, i) {
      SixBytes(q, i);
      if i >= b + 5 {
        FromPeer(q, b, e, peer, i);
      }
    }
  }

  lemma SixBytes(q: Bytes, i: int)
    requires UpAt(q, i)
    ensures 0 <= i <= |q| - 6 && q[i] == 32 && q[i + 1] == 73 && q[i + 2] == 83 && q[i + 3] == 32 && q[i + 4] == 85
  {
    var w := q[i..i + 6];
    assert w[0] == 32 && w[1] == 73 && w[2] == 83 && w[3] == 32 && w[4] == 85;
  }

  lemma FromPeer(q: Bytes, b: int, e: int, peer: Bytes, i: int)
    requires Peer(peer) && 0 <= b && e == b + 6 + |peer| && |q| == e + |IS_DOWN|
    requires q[b + 6..e] == peer && q[e..] == IS_DOWN && b + 5 <= i <= |q| - 6
    ensures q[i] != 32 || q[i + 1] != 73 || q[i + 2] != 83 || q[i + 3] != 32 || q[i + 4] != 85
  {
    assert forall k :: b + 6 <= k < e ==> q[k] == peer[k - b - 6];
    assert forall k :: e <= k < |q| ==> q[k] == IS_DOWN[k - e];
    if i == b + 5 {
      assert |peer| == 0 || |peer| == 1 || |peer| == 2 || q[b + 8] != 32;
    }
  }

  lemma DownRead(id: int, peer: Bytes)
    requires Id16(id) && Peer(peer)
    ensures NoteOf(DownText(id, peer)) == Down(id)
  {
    IdRead(id, peer, IS_DOWN);
    hide ConnText, Atoi, UpAt;
    forall i
      ensures !UpAt(DownText(id, peer), i)
    {
      NotUpAt(id, peer, i);
    }
  }

  lemma HangupRead(id: int)
    requires Id16(id)
    ensures HangupOf(DisconnectText(id)) == id
  {
    var q := DisconnectText(id);
    assert q[|DISCONNECT|..] == Digits(id) + CRLF;
    AtoiReads(id, CRLF);
    hide Digits, Atoi;
    assert q[..|DISCONNECT|] == DISCONNECT;
  }

  // Each fits one frame.
  lemma {:induction false} FewDigits(n: nat)
    requires n < 0x1_0000_0000
    ensures |Digits(n)| <= 1 || n >= 10
    ensures n < 100000 ==> |Digits(n)| <= 5
  {
    if n >= 10 {
      assert |Digits(n)| == |Digits(n / 10)| + 1;
      DigitsBelow(n / 10);
    }
  }

  lemma DigitsBelow(n: nat)
    requires n < 0x1_0000_0000
    ensures n < 10 ==> |Digits(n)| == 1
    ensures n < 100 ==> |Digits(n)| <= 2
    ensures n < 1000 ==> |Digits(n)| <= 3
    ensures n < 10000 ==> |Digits(n)| <= 4
  {
    assert n >= 10 ==> |Digits(n)| == |Digits(n / 10)| + 1;
    assert n >= 100 ==> |Digits(n / 10)| == |Digits(n / 100)| + 1 by { assert n / 10 / 10 == n / 100; }
    assert n >= 1000 ==> |Digits(n / 100)| == |Digits(n / 1000)| + 1 by { assert n / 100 / 10 == n / 1000; }
  }

  lemma TextsFit(id: int, peer: Bytes)
    requires Id16(id) && Peer(peer)
    ensures 0 < |UpText(id, peer)| <= MAX_PACKET_LEN && 0 < |DownText(id, peer)| <= MAX_PACKET_LEN
    ensures 0 < |DisconnectText(id)| <= MAX_PACKET_LEN
  {
    FewDigits(id);
    hide Digits;
  }
}
