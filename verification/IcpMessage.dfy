/** ICP messages on the wire: a header of 20 bytes in network order, for a query the requester's host id, and
    the URL with its terminating zero (the "ICP Message Format" section of RFC 2186). */
module IcpMessage {

  type byte = b: int | 0 <= b < 256

  const WORD16 := 0x1_0000
  const WORD32 := 0x1_0000_0000
  const HEADER := 20
  const HOSTID := 4

  const OP_QUERY := 1
  const OP_HIT := 2
  const OP_MISS := 3
  const VERSION_2 := 2

  datatype Option<T> = None | Some(value: T)

  // ----- words in network order

  function Put16(n: nat): (s: seq<byte>)
    requires n < WORD16
    ensures |s| == 2
  {
    [n / 0x100, n % 0x100]
  }

  function Get16(s: seq<byte>): (n: nat)
    requires |s| >= 2
    ensures n < WORD16
  {
    (s[0] as int) * 0x100 + s[1] as int
  }

  function Put32(n: nat): (s: seq<byte>)
    requires n < WORD32
    ensures |s| == 4
  {
    Put16(n / WORD16) + Put16(n % WORD16)
  }

  function Get32(s: seq<byte>): (n: nat)
    requires |s| >= 4
    ensures n < WORD32
  {
    Get16(s) * WORD16 + Get16(s[2..])
  }

  lemma Word32RoundTrip(n: nat, rest: seq<byte>)
    requires n < WORD32
    ensures Get32(Put32(n) + rest) == n
  {
  }

  // ----- messages in host order

  datatype Header = Header(opcode: byte, version: byte, msglen: nat, requestno: nat, optionflags: nat,
                           optiondata: nat, shostid: nat)

  predicate Fits(h: Header) {
    h.msglen < WORD16 && h.requestno < WORD32 && h.optionflags < WORD32 && h.optiondata < WORD32 && h.shostid < WORD32
  }

  /** `rhostid` is that of a query, 0 otherwise; `url` is without its terminating zero. */
  datatype Message = Message(h: Header, rhostid: nat, url: seq<byte>)

  function EncodeHeader(h: Header): (s: seq<byte>)
    requires Fits(h)
    ensures |s| == HEADER
  {
    [h.opcode, h.version] + Put16(h.msglen) + Put32(h.requestno) + Put32(h.optionflags) + Put32(h.optiondata) +
      Put32(h.shostid)
  }

  function DecodeHeader(s: seq<byte>): (h: Header)
    requires |s| >= HEADER
    ensures Fits(h)
  {
    Header(s[0], s[1], Get16(s[2..]), Get32(s[4..]), Get32(s[8..]), Get32(s[12..]), Get32(s[16..]))
  }

  lemma HeaderRoundTrip(h: Header, rest: seq<byte>)
    requires Fits(h)
    ensures DecodeHeader(EncodeHeader(h) + rest) == h
  {
  }

  /** Only queries, hits and misses are built; the length is truncated to the 16 bits of its field. */
  function BuildICPMsg(op: byte, seqno: nat, optflags: nat, optdata: nat, shostid: nat,
                       data: seq<byte>): Option<seq<byte>>
    requires seqno < WORD32 && optflags < WORD32 && optdata < WORD32 && shostid < WORD32
  {
    if op != OP_QUERY && op != OP_HIT && op != OP_MISS then None
    else
      var payload := if op == OP_QUERY then Put32(0) + data else data;
      Some(EncodeHeader(Header(op, VERSION_2, (HEADER + |payload|) % WORD16, seqno, optflags, optdata, shostid)) +
        payload)
  }

  /** A C string: up to the first zero. */
  function CString(s: seq<byte>): (r: seq<byte>)
    ensures |r| <= |s| && 0 !in r && (|r| < |s| ==> s[..|r|] == r && s[|r|] == 0)
    ensures 0 in s ==> |r| < |s|
  {
    if s == [] || s[0] == 0 then [] else [s[0]] + CString(s[1..])
  }

  lemma {:induction false} CStringOf(url: seq<byte>, rest: seq<byte>)
    requires 0 !in url
    ensures CString(url + [0] + rest) == url
  {
    if url != [] {
      CStringOf(url[1..], rest);
      assert (url + [0] + rest)[1..] == url[1..] + [0] + rest;
    }
  }

  /** The receive buffer is longer than the header and a host id, and ends with a zero. */
  predicate Terminated(buf: seq<byte>) {
    |buf| > HEADER + HOSTID && buf[|buf| - 1] == 0
  }

  /** Messages other than queries, hits and misses have no URL here. */
  function NetToHostICPMsg(buf: seq<byte>): Message
    requires Terminated(buf)
  {
    var h := DecodeHeader(buf);
    if h.opcode == OP_QUERY then Message(h, Get32(buf[HEADER..]), CString(buf[HEADER + HOSTID..]))
    else if h.opcode == OP_HIT || h.opcode == OP_MISS then Message(h, 0, CString(buf[HEADER..]))
    else Message(h, 0, [])
  }

  /** A message is read back from its header and what follows it. */
  lemma PayloadRoundTrip(h: Header, payload: seq<byte>, rest: seq<byte>, rhostid: nat, url: seq<byte>)
    requires Fits(h) && Terminated(EncodeHeader(h) + payload + rest)
    requires if h.opcode == OP_QUERY
             then |payload| >= HOSTID && Get32(payload) == rhostid && CString(payload[HOSTID..] + rest) == url
             else (h.opcode == OP_HIT || h.opcode == OP_MISS) && rhostid == 0 && CString(payload + rest) == url
    ensures NetToHostICPMsg(EncodeHeader(h) + payload + rest) == Message(h, rhostid, url)
  {
    var buf := EncodeHeader(h) + payload + rest;
    assert buf == EncodeHeader(h) + (payload + rest);
    HeaderRoundTrip(h, payload + rest);
    assert buf[HEADER..] == payload + rest;
    if h.opcode == OP_QUERY {
      assert buf[HEADER + HOSTID..] == payload[HOSTID..] + rest;
    }
  }

  lemma QueryRoundTrip(h: Header, url: seq<byte>, rest: seq<byte>)
    requires Fits(h) && h.opcode == OP_QUERY && 0 !in url
    ensures var payload := Put32(0) + (url + [0]);
            var h' := h.(msglen := (HEADER + |payload|) % WORD16);
            Terminated(EncodeHeader(h') + payload + rest) ==>
              NetToHostICPMsg(EncodeHeader(h') + payload + rest) == Message(h', 0, url)
  {
    var payload := Put32(0) + (url + [0]);
    var h' := h.(msglen := (HEADER + |payload|) % WORD16);
    Word32RoundTrip(0, url + [0]);
    assert payload[HOSTID..] == url + [0];
    CStringOf(url, rest);
    if Terminated(EncodeHeader(h') + payload + rest) {
      PayloadRoundTrip(h', payload, rest, 0, url);
    }
  }

  lemma AnswerRoundTrip(h: Header, url: seq<byte>, rest: seq<byte>)
    requires Fits(h) && (h.opcode == OP_HIT || h.opcode == OP_MISS) && 0 !in url
    ensures var payload := url + [0];
            var h' := h.(msglen := (HEADER + |payload|) % WORD16);
            Terminated(EncodeHeader(h') + payload + rest) ==>
              NetToHostICPMsg(EncodeHeader(h') + payload + rest) == Message(h', 0, url)
  {
    var payload := url + [0];
    var h' := h.(msglen := (HEADER + |payload|) % WORD16);
    CStringOf(url, rest);
    if Terminated(EncodeHeader(h') + payload + rest) {
      PayloadRoundTrip(h', payload, rest, 0, url);
    }
  }

  /** Decoding what was encoded gives back the opcode, number, options and URL, whatever else is left in
      the receive buffer behind the message. */
  lemma MessageRoundTrip(op: byte, seqno: nat, optflags: nat, optdata: nat, shostid: nat, url: seq<byte>,
                         rest: seq<byte>)
    requires seqno < WORD32 && optflags < WORD32 && optdata < WORD32 && shostid < WORD32
    requires op == OP_QUERY || op == OP_HIT || op == OP_MISS
    requires 0 !in url
    ensures var wire := BuildICPMsg(op, seqno, optflags, optdata, shostid, url + [0]).value;
            Terminated(wire + rest) ==>
              NetToHostICPMsg(wire + rest)
              == Message(Header(op, VERSION_2, |wire| % WORD16, seqno, optflags, optdata, shostid), 0, url)
  {
    var h := Header(op, VERSION_2, 0, seqno, optflags, optdata, shostid);
    if op == OP_QUERY {
      QueryRoundTrip(h, url, rest);
    } else {
      AnswerRoundTrip(h, url, rest);
    }
  }

  /** The length field is the number of bytes sent if and only if that number fits in 16 bits. */
  lemma LengthField(op: byte, seqno: nat, data: seq<byte>)
    requires seqno < WORD32 && (op == OP_QUERY || op == OP_HIT || op == OP_MISS)
    ensures var wire := BuildICPMsg(op, seqno, 0, 0, 0, data).value;
            && |wire| >= HEADER
            && (DecodeHeader(wire).msglen == |wire| <==> |wire| < WORD16)
  {
  }

  /** The read machine discards a message that is shorter than its length field says. */
  predicate ShortRead(received: nat, h: Header) {
    received < h.msglen
  }

  /** A message that arrives whole is never discarded as short; one whose length fits its field is
      discarded exactly when some of its bytes are missing. */
  lemma ShortReads(op: byte, seqno: nat, data: seq<byte>, received: nat)
    requires seqno < WORD32 && (op == OP_QUERY || op == OP_HIT || op == OP_MISS)
    ensures var wire := BuildICPMsg(op, seqno, 0, 0, 0, data).value;
            && (received >= |wire| ==> !ShortRead(received, DecodeHeader(wire)))
            && (|wire| < WORD16 ==> (ShortRead(received, DecodeHeader(wire)) <==> received < |wire|))
  {
  }

  /** The answer to a decoded query: a hit or a miss with its number and its URL. */
  function Reply(query: Message, hit: bool): Option<seq<byte>>
    requires Fits(query.h)
  {
    BuildICPMsg(if hit then OP_HIT else OP_MISS, query.h.requestno, 0, 0, 0, query.url + [0])
  }

  /** What the requester decodes from the reply to its query is its own request number and URL. */
  lemma ReplyAnswersQuery(seqno: nat, url: seq<byte>, rest: seq<byte>, hit: bool, rest': seq<byte>)
    requires seqno < WORD32 && 0 !in url
    ensures var query := BuildICPMsg(OP_QUERY, seqno, 0, 0, 0, url + [0]).value;
            Terminated(query + rest) ==>
              var reply := Reply(NetToHostICPMsg(query + rest), hit).value;
              Terminated(reply + rest') ==>
                var m := NetToHostICPMsg(reply + rest');
                m.h.opcode == (if hit then OP_HIT else OP_MISS) && m.h.requestno == seqno && m.url == url
  {
    MessageRoundTrip(OP_QUERY, seqno, 0, 0, 0, url, rest);
    MessageRoundTrip(if hit then OP_HIT else OP_MISS, seqno, 0, 0, 0, url, rest');
  }

  // ----- hits that carry the object

  /** The size of the object in a HIT_OBJ message, as it is decoded: from the terminating zero of the URL
      on, one byte before it stands. */
  function DecodedObjSize(payload: seq<byte>): nat
    requires |CString(payload)| + 2 <= |payload|
  {
    Get16(payload[|CString(payload)|..])
  }

  /** So the size comes out as its upper byte, which is right only for an empty object. */
  lemma ObjSizeIsShifted(url: seq<byte>, size: nat, data: seq<byte>)
    requires 0 !in url && size < WORD16
    ensures var payload := url + [0] + (Put16(size) + data);
            && |CString(payload)| + 2 <= |payload|
            && DecodedObjSize(payload) == size / 0x100
            && (DecodedObjSize(payload) == size <==> size == 0)
  {
    CStringOf(url, Put16(size) + data);
    var payload := url + [0] + (Put16(size) + data);
    assert payload[|url|..] == [0] + Put16(size) + data;
  }
}
