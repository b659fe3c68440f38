/** The discovery protocol (internal/discovery/discovery.go): a client asks a server under
    which address the server sees it. */
module DiscoveryCodec {
  import opened Wrappers
  import opened Bytes

  const MAGIC: nat := 0x53544152
  const VERSION: Byte := 1
  const REQUEST_TYPE: Byte := 1
  const RESPONSE_TYPE: Byte := 2

  type TxID = t: seq<Byte> | |t| == 16 witness [0, 0, 0, 0, 0, 0, 0, 0, 0, 0, 0, 0, 0, 0, 0, 0]
  type Port = p: int | 0 <= p < 65536

  type Bytes4 = b: seq<Byte> | |b| == 4 witness [0, 0, 0, 0]
  type Bytes16 = b: seq<Byte> | |b| == 16 witness [0, 0, 0, 0, 0, 0, 0, 0, 0, 0, 0, 0, 0, 0, 0, 0]

  /** netip.Addr: no address, IPv4, or IPv6 with a zone that may be empty. */
  datatype Addr = NoAddr | V4(four: Bytes4) | V6(sixteen: Bytes16, zone: seq<Byte>)

  datatype AddrPort = AddrPort(addr: Addr, port: Port)

  datatype Response = Response(txId: TxID, addr: AddrPort)

  function PutUint32(v: nat): (b: seq<Byte>)
    requires v < 0x1_0000_0000
    ensures |b| == 4
  {
    [v / 0x100_0000, v / 0x1_0000 % 256, v / 256 % 256, v % 256]
  }

  function Uint32(b: seq<Byte>): nat
    requires |b| == 4
  {
    var d: seq<int> := b;
    ((d[0] * 256 + d[1]) * 256 + d[2]) * 256 + d[3]
  }

  /** Reading a big-endian number is the inverse of writing it. */
  lemma Uint32RoundTrip(v: nat, b: seq<Byte>)
    requires v < 0x1_0000_0000 && |b| == 4
    ensures Uint32(b) == v <==> b == PutUint32(v)
  {
    var d: seq<int> := b;
    if Uint32(b) == v {
      assert v / 256 == (d[0] * 256 + d[1]) * 256 + d[2] && v % 256 == d[3];
      assert v / 0x1_0000 == d[0] * 256 + d[1] && v / 0x100_0000 == d[0];
    }
    if b == PutUint32(v) {
      assert v / 0x1_0000 == v / 256 / 256 && v / 0x100_0000 == v / 0x1_0000 / 256;
    }
  }

  // ------------------------------------------------------------------ addresses

  function AddrBytes(a: Addr): seq<Byte> {
    match a
    case NoAddr => []
    case V4(four) => four
    case V6(sixteen, zone) => sixteen + zone
  }

  function ParseAddr(b: seq<Byte>): Option<Addr> {
    if |b| == 0 then Some(NoAddr)
    else if |b| == 4 then Some(V4(b))
    else if |b| >= 16 then Some(V6(b[..16], b[16..]))
    else None
  }

  /** The port follows in little-endian order. */
  function AddrPortBytes(a: AddrPort): seq<Byte> {
    AddrBytes(a.addr) + [a.port % 256, a.port / 256]
  }

  function ParseAddrPort(b: seq<Byte>): Option<AddrPort> {
    if |b| < 2 then None
    else
      match ParseAddr(b[..|b| - 2])
      case None => None
      case Some(addr) => var lo: int, hi: int := b[|b| - 2], b[|b| - 1]; Some(AddrPort(addr, lo + hi * 256))
  }

  /** A byte string is the encoding of exactly the address it decodes to, for addresses of
      every kind, with every zone. */
  lemma {:induction false} AddrPortRoundTrip(a: AddrPort, b: seq<Byte>)
    ensures ParseAddrPort(b) == Some(a) <==> b == AddrPortBytes(a)
  {
    if b == AddrPortBytes(a) {
      assert b[..|b| - 2] == AddrBytes(a.addr);
      AddrRoundTrip(a.addr, b[..|b| - 2]);
    }
    if ParseAddrPort(b) == Some(a) {
      AddrRoundTrip(a.addr, b[..|b| - 2]);
      assert b == b[..|b| - 2] + [b[|b| - 2], b[|b| - 1]];
    }
  }

  lemma AddrRoundTrip(a: Addr, b: seq<Byte>)
    ensures ParseAddr(b) == Some(a) <==> b == AddrBytes(a)
  {
    if a.V6? && |b| >= 16 {
      assert b == b[..16] + b[16..];
    }
  }

  // ------------------------------------------------------------------ messages

  function Header(kind: Byte, t: TxID): (b: seq<Byte>)
    ensures |b| == 22
  {
    PutUint32(MAGIC) + [VERSION, kind] + t
  }

  predicate HasHeader(b: seq<Byte>, kind: Byte) {
    |b| >= 22 && Uint32(b[..4]) == MAGIC && b[4] == VERSION && b[5] == kind
  }

  function TxIDOf(b: seq<Byte>): TxID
    requires |b| >= 22
  {
    b[6..22]
  }

  lemma HeaderRoundTrip(b: seq<Byte>, kind: Byte, t: TxID)
    ensures HasHeader(b, kind) && TxIDOf(b) == t <==> Header(kind, t) <= b
  {
    var h := Header(kind, t);
    if |b| >= 22 {
      Uint32RoundTrip(MAGIC, b[..4]);
      assert b[..22] == b[..4] + [b[4], b[5]] + b[6..22];
      if HasHeader(b, kind) && TxIDOf(b) == t {
        assert b[..22] == h;
      }
      if h <= b {
        assert b[..22] == h;
        assert h[..4] == PutUint32(MAGIC) && h[6..22] == t;
        assert b[..4] == b[..22][..4] && b[6..22] == b[..22][6..22];
      }
    }
  }

  function RequestBytes(t: TxID): seq<Byte> {
    Header(REQUEST_TYPE, t)
  }

  /** What follows the header of a request is ignored. */
  function ParseRequest(b: seq<Byte>): Option<TxID> {
    if HasHeader(b, REQUEST_TYPE) then Some(TxIDOf(b)) else None
  }

  function ResponseBytes(r: Response): seq<Byte> {
    Header(RESPONSE_TYPE, r.txId) + AddrPortBytes(r.addr)
  }

  function ParseResponse(b: seq<Byte>): Option<Response> {
    if !HasHeader(b, RESPONSE_TYPE) then None
    else
      match ParseAddrPort(b[22..])
      case None => None
      case Some(a) => Some(Response(TxIDOf(b), a))
  }

  /** A request is accepted for exactly the byte strings that begin with its encoding. */
  lemma RequestRoundTrip(t: TxID, b: seq<Byte>)
    ensures ParseRequest(b) == Some(t) <==> RequestBytes(t) <= b
  {
    HeaderRoundTrip(b, REQUEST_TYPE, t);
  }

  /** A response is decoded from exactly its own encoding. */
  lemma {:induction false} ResponseRoundTrip(r: Response, b: seq<Byte>)
    ensures ParseResponse(b) == Some(r) <==> b == ResponseBytes(r)
  {
    HeaderRoundTrip(b, RESPONSE_TYPE, r.txId);
    var h := Header(RESPONSE_TYPE, r.txId);
    if |b| >= 22 {
      AddrPortRoundTrip(r.addr, b[22..]);
      if h <= b { assert b == h + b[22..]; }
      if b == ResponseBytes(r) { assert h <= b && b[22..] == AddrPortBytes(r.addr); }
    }
  }

  /** The wire format in numbers: "STAR", version 1, type 1 for a request and 2 for a response,
      the transaction; a response goes on with the address. */
  lemma WireFormat(t: TxID, a: AddrPort)
    ensures RequestBytes(t) == [0x53, 0x54, 0x41, 0x52, 1, 1] + t
    ensures ResponseBytes(Response(t, a)) == [0x53, 0x54, 0x41, 0x52, 1, 2] + t + AddrBytes(a.addr) + [a.port % 256, a.port / 256]
  {
    assert PutUint32(MAGIC) == [0x53, 0x54, 0x41, 0x52];
    assert PutUint32(MAGIC) + [VERSION, REQUEST_TYPE] == [0x53, 0x54, 0x41, 0x52, 1, 1];
    assert PutUint32(MAGIC) + [VERSION, RESPONSE_TYPE] == [0x53, 0x54, 0x41, 0x52, 1, 2];
    assert ResponseBytes(Response(t, a)) == Header(RESPONSE_TYPE, t) + (AddrBytes(a.addr) + [a.port % 256, a.port / 256]);
  }

  /** No message is taken for one of the other kind. */
  lemma KindsAreDistinct(b: seq<Byte>)
    ensures ParseRequest(b).None? || ParseResponse(b).None?
  {
  }

  /** A response variable.  A response whose address is malformed is refused after its
      transaction has been stored. */
  class ResponseVar {
    var txId: TxID
    var addr: AddrPort

    constructor (txId: TxID, addr: AddrPort)
      ensures this.txId == txId && this.addr == addr
    {
      this.txId, this.addr := txId, addr;
    }

    method UnmarshalBinary(p: seq<Byte>) returns (ok: bool)
      modifies this
      ensures ok <==> ParseResponse(p).Some?
      ensures ok ==> p == ResponseBytes(Response(txId, addr))
      ensures !ok ==> addr == old(addr)
      ensures !ok ==> txId == if HasHeader(p, RESPONSE_TYPE) then TxIDOf(p) else old(txId)
    {
      if |p| < 22 {
        return false;
      }
      if Uint32(p[..4]) != MAGIC || p[4] != VERSION || p[5] != RESPONSE_TYPE {
        return false;
      }
      txId := TxIDOf(p);
      var a := ParseAddrPort(p[22..]);
      if a.None? {
        return false;
      }
      addr := a.value;
      ResponseRoundTrip(Response(txId, addr), p);
      return true;
    }
  }
}

module Discovery {
  import opened Wrappers
  import opened Bytes
  import opened DiscoveryCodec

  const BUFFER := 1024

  /** What a read from a socket gives: a datagram, from a UDP address or from something
      else, a timeout, or an error.  For the server also that it was closed. */
  datatype Event = Packet(from: Option<AddrPort>, bytes: seq<Byte>) | Timeout | ReadFails | Closed

  /** A read fills a buffer and drops what does not fit. */
  function Fit(b: seq<Byte>): seq<Byte> {
    if |b| <= BUFFER then b else b[..BUFFER]
  }

  datatype Reply = Reply(dest: AddrPort, bytes: seq<Byte>)

  // ------------------------------------------------------------------ the server

  /** The request that an event brings to the server. */
  function RequestIn(e: Event): Option<Response> {
    if e.Packet? && e.from.Some? && ParseRequest(Fit(e.bytes)).Some?
    then Some(Response(ParseRequest(Fit(e.bytes)).value, e.from.value))
    else None
  }

  function ReplyTo(r: Response): Reply {
    Reply(r.addr, ResponseBytes(r))
  }

  /** What an event makes the server send. */
  function Reaction(e: Event): seq<Reply> {
    if RequestIn(e).Some? then [ReplyTo(RequestIn(e).value)] else []
  }

  /** The replies of a server, one to each request in turn, until it stops. */
  function Replies(events: seq<Event>): seq<Reply> {
    if events == [] || events[0].ReadFails? || events[0].Closed? then []
    else Reaction(events[0]) + Replies(events[1..])
  }

  predicate StopsServing(e: Event) {
    e.ReadFails? || e.Closed?
  }

  /** How many events the server gets to before it stops. */
  function Served(events: seq<Event>): (n: nat)
    ensures n <= |events|
    ensures forall i :: 0 <= i < n ==> !StopsServing(events[i])
    ensures n < |events| ==> StopsServing(events[n])
  {
    if events == [] || StopsServing(events[0]) then 0 else 1 + Served(events[1..])
  }

  /** How Serve ended: not yet, without an error because it was closed, or with an error. */
  datatype ServerEnd = Serving | Stopped | Broken

  /** What the server has done when it is about to read event `i`. */
  predicate ServedSoFar(events: seq<Event>, i: nat, sent: seq<Reply>) {
    i <= |events| && sent + Replies(events[i..]) == Replies(events) && Served(events) == i + Served(events[i..])
  }

  /** The first event, and the others. */
  lemma FirstEvent(events: seq<Event>)
    requires events != []
    ensures StopsServing(events[0]) ==> Replies(events) == [] && Served(events) == 0
    ensures !StopsServing(events[0]) ==>
      Served(events) == 1 + Served(events[1..]) && Replies(events) == Reaction(events[0]) + Replies(events[1..])
  {
  }

  lemma Regroup(sent: seq<Reply>, first: seq<Reply>, later: seq<Reply>)
    ensures sent + (first + later) == (sent + first) + later
    ensures first != [] ==> |sent| < |sent + (first + later)| && sent == (sent + (first + later))[..|sent|]
  {
  }

  lemma ServesOn(events: seq<Event>, i: nat, sent: seq<Reply>)
    requires i < |events| && ServedSoFar(events, i, sent)
    ensures StopsServing(events[i]) ==> Replies(events) == sent && Served(events) == i
    ensures !StopsServing(events[i]) ==> ServedSoFar(events, i + 1, sent + Reaction(events[i]))
    ensures Reaction(events[i]) != [] && !StopsServing(events[i]) ==> |sent| < |Replies(events)| && sent == Replies(events)[..|sent|]
  {
    FirstEvent(events[i..]);
    assert events[i..][1..] == events[i + 1..];
    Regroup(sent, Reaction(events[i]), Replies(events[i + 1..]));
  }

  /** Lines 212-227: the reply to what was read, if it is a request. */
  method Answer(e: Event) returns (reply: Option<Reply>)
    ensures reply == if RequestIn(e).Some? then Some(ReplyTo(RequestIn(e).value)) else None
  {
    if !e.Packet? {
      return None;
    }
    var req := ParseRequest(Fit(e.bytes));
    if req.None? || e.from.None? {
      return None;
    }
    var resp := Response(req.value, e.from.value);
    return Some(Reply(e.from.value, ResponseBytes(resp)));
  }

  /** Serves as long as there are events; `writable` replies can be sent. */
  method Serve(events: seq<Event>, writable: nat) returns (sent: seq<Reply>, end: ServerEnd)
    ensures sent == if |Replies(events)| <= writable then Replies(events) else Replies(events)[..writable]
    ensures var n := Served(events);
      end == (if |Replies(events)| > writable || (n < |events| && events[n].ReadFails?) then Broken
              else if n < |events| then Stopped
              else Serving)
  {
    sent := [];
    var i: nat := 0;
    assert events[0..] == events;
    while i < |events|
      invariant |sent| <= writable && ServedSoFar(events, i, sent)
    {
      ServesOn(events, i, sent);
      if events[i].Closed? {
        return sent, Stopped;
      }
      if events[i].ReadFails? {
        return sent, Broken;
      }
      var reply := Answer(events[i]);
      if reply.Some? {
        if |sent| == writable {
          return sent, Broken;
        }
        sent := sent + [reply.value];
      }
      i := i + 1;
    }
    assert events[i..] == [];
    end := Serving;
  }

  /** Every reply answers a request that was received, naming the address it came from. */
  lemma {:induction false} RepliesAnswer(events: seq<Event>, r: Reply)
    requires r in Replies(events)
    ensures exists i :: 0 <= i < |events| && RequestIn(events[i]).Some? && r == ReplyTo(RequestIn(events[i]).value)
  {
    if RequestIn(events[0]).Some? && r == ReplyTo(RequestIn(events[0]).value) {
    } else {
      RepliesAnswer(events[1..], r);
      var i :| 0 <= i < |events[1..]| && RequestIn(events[1..][i]).Some? && r == ReplyTo(RequestIn(events[1..][i]).value);
      assert events[1..][i] == events[i + 1];
    }
  }

  function Requests(events: seq<Event>): nat {
    if events == [] then 0 else (if RequestIn(events[0]).Some? then 1 else 0) + Requests(events[1..])
  }

  lemma {:induction false} AsManyReplies(events: seq<Event>)
    ensures |Replies(events)| == Requests(events[..Served(events)])
  {
    var n := Served(events);
    if n > 0 {
      AsManyReplies(events[1..]);
      assert events[..n][1..] == events[1..][..n - 1];
    } else {
      assert events[..0] == [];
    }
  }

  lemma FirstRequests(events: seq<Event>, i: nat)
    requires 0 < i <= |events|
    ensures Requests(events[..i]) == |Reaction(events[0])| + Requests(events[1..][..i - 1])
  {
    assert events[..i][0] == events[0] && events[..i][1..] == events[1..][..i - 1];
  }

  lemma {:induction false} ReplyNumber(events: seq<Event>, i: nat)
    requires i < Served(events) && RequestIn(events[i]).Some?
    ensures Requests(events[..i]) < |Replies(events)|
    ensures Replies(events)[Requests(events[..i])] == ReplyTo(RequestIn(events[i]).value)
  {
    FirstEvent(events);
    if i > 0 {
      ReplyNumber(events[1..], i - 1);
      FirstRequests(events, i);
    } else {
      assert events[..0] == [];
    }
  }

  /** Before it stops the server answers every request, in order: there are as many replies
      as valid requests, and the one after k valid requests gets reply number k. */
  lemma RepliesInOrder(events: seq<Event>)
    ensures |Replies(events)| == Requests(events[..Served(events)])
    ensures forall i :: 0 <= i < Served(events) && RequestIn(events[i]).Some? ==>
      Requests(events[..i]) < |Replies(events)|
      && Replies(events)[Requests(events[..i])] == ReplyTo(RequestIn(events[i]).value)
  {
    AsManyReplies(events);
    forall i | 0 <= i < Served(events) && RequestIn(events[i]).Some?
      ensures Requests(events[..i]) < |Replies(events)|
      ensures Replies(events)[Requests(events[..i])] == ReplyTo(RequestIn(events[i]).value)
    {
      ReplyNumber(events, i);
    }
  }

  // ------------------------------------------------------------------ the client

  datatype Outcome = Found(addr: AddrPort) | Failed | Running

  /** The answer that an event brings to the client. */
  function AnswerIn(t: TxID, server: AddrPort, e: Event): Option<AddrPort> {
    if e.Packet? && e.from == Some(server) && ParseResponse(Fit(e.bytes)).Some?
       && ParseResponse(Fit(e.bytes)).value.txId == t
    then Some(ParseResponse(Fit(e.bytes)).value.addr)
    else None
  }

  /** What becomes of a client that can send `rounds` requests, one at first and another
      after each timeout. */
  function Bound(t: TxID, server: AddrPort, events: seq<Event>, rounds: nat): Outcome
    decreases |events|
  {
    if rounds == 0 then Failed else Listening(t, server, events, rounds)
  }

  function Listening(t: TxID, server: AddrPort, events: seq<Event>, rounds: nat): Outcome
    requires rounds > 0
    decreases |events|, 0
  {
    if events == [] then Running
    else if events[0].Timeout? then
      (if rounds == 1 then Failed else Listening(t, server, events[1..], rounds - 1))
    else if events[0].ReadFails? then Failed
    else
      var a := AnswerIn(t, server, events[0]);
      if a.Some? then Found(a.value) else Listening(t, server, events[1..], rounds)
  }

  function Timeouts(events: seq<Event>): nat {
    if events == [] then 0 else (if events[0].Timeout? then 1 else 0) + Timeouts(events[1..])
  }

  lemma {:induction false} OneMoreEvent(events: seq<Event>, i: nat)
    requires i < |events|
    ensures Timeouts(events[..i + 1]) == Timeouts(events[..i]) + if events[i].Timeout? then 1 else 0
  {
    if i == 0 {
      assert events[..1][1..] == [] && events[..0] == [];
    } else {
      OneMoreEvent(events[1..], i - 1);
      assert events[..i + 1][1..] == events[1..][..i] && events[..i][1..] == events[1..][..i - 1];
    }
  }

  lemma {:induction false} MoreTimeouts(events: seq<Event>, i: nat, j: nat)
    requires i <= j <= |events|
    ensures Timeouts(events[..i]) <= Timeouts(events[..j])
  {
    if i < j {
      MoreTimeouts(events, i, j - 1);
      OneMoreEvent(events, j - 1);
    }
  }

  /** How many events go by before an answer or a read error. */
  function Listened(t: TxID, server: AddrPort, events: seq<Event>): (n: nat)
    ensures n <= |events|
  {
    if events == [] || AnswerIn(t, server, events[0]).Some? || events[0].ReadFails? then 0
    else 1 + Listened(t, server, events[1..])
  }

  /** What an answer is, in bytes: a datagram from the server that is the encoding of a
      response with the client's transaction, and of no other. */
  lemma {:induction false} AnswerIsResponse(t: TxID, server: AddrPort, e: Event, x: AddrPort)
    ensures AnswerIn(t, server, e) == Some(x) <==>
      e.Packet? && e.from == Some(server) && Fit(e.bytes) == ResponseBytes(Response(t, x))
  {
    if e.Packet? {
      ResponseRoundTrip(Response(t, x), Fit(e.bytes));
    }
  }

  /** Lines 152-169: the address in a datagram is accepted iff the datagram is the server's
      response to this transaction with that address. */
  method Check(t: TxID, server: AddrPort, e: Event) returns (a: Option<AddrPort>)
    ensures forall x :: a == Some(x) <==>
      e.Packet? && e.from == Some(server) && Fit(e.bytes) == ResponseBytes(Response(t, x))
    ensures a == AnswerIn(t, server, e)
  {
    forall x ensures AnswerIn(t, server, e) == Some(x) <==>
      e.Packet? && e.from == Some(server) && Fit(e.bytes) == ResponseBytes(Response(t, x))
    {
      AnswerIsResponse(t, server, e, x);
    }
    if !e.Packet? || e.from.None? || e.from.value != server {
      return None;
    }
    var resp := ParseResponse(Fit(e.bytes));
    if resp.None? || resp.value.txId != t {
      return None;
    }
    return Some(resp.value.addr);
  }

  /** What one more event decides. */
  lemma NextEvent(t: TxID, server: AddrPort, events: seq<Event>, i: nat, left: nat)
    requires i < |events| && left > 0
    ensures var e, a, rest := events[i], AnswerIn(t, server, events[i]), events[i + 1..];
      && Listening(t, server, events[i..], left) == (
           if e.Timeout? then Bound(t, server, rest, left - 1)
           else if e.ReadFails? then Failed
           else if a.Some? then Found(a.value)
           else Listening(t, server, rest, left))
      && Listened(t, server, events[i..]) == if a.Some? || e.ReadFails? then 0 else 1 + Listened(t, server, rest)
  {
    assert events[i..][0] == events[i] && events[i..][1..] == events[i + 1..];
  }

  /** Lines 140-175, the inner loop: reads until an answer, a read error or a timeout.  The
      outcome is None after a timeout, which the event before `next` is then. */
  method Await(t: TxID, server: AddrPort, events: seq<Event>, from: nat, left: nat) returns (next: nat, o: Option<Outcome>)
    requires from <= |events| && left > 0
    ensures from <= next <= |events|
    ensures Listening(t, server, events[from..], left) ==
            if o.Some? then o.value else Bound(t, server, events[next..], left - 1)
    ensures var stop := from + Listened(t, server, events[from..]);
      Timeouts(events[..if o.Some? then stop else next]) == Timeouts(events[..from]) + (if o.Some? then 0 else 1)
      && (o.None? ==> stop == next + Listened(t, server, events[next..]))
  {
    var i := from;
    while i < |events|
      invariant from <= i <= |events|
      invariant from + Listened(t, server, events[from..]) == i + Listened(t, server, events[i..])
      invariant Timeouts(events[..i]) == Timeouts(events[..from])
      invariant Listening(t, server, events[i..], left) == Listening(t, server, events[from..], left)
    {
      var e := events[i];
      NextEvent(t, server, events, i, left);
      OneMoreEvent(events, i);
      if e.Timeout? {
        return i + 1, None;
      }
      if e.ReadFails? {
        return i, Some(Failed);
      }
      var answer := Check(t, server, e);
      if answer.Some? {
        return i, Some(Found(answer.value));
      }
      i := i + 1;
    }
    return i, Some(Running);
  }

  /** Asks the server until it answers.  `rounds` requests can be sent before the context
      is cancelled or a write fails; one is sent at first and one after each timeout. */
  method Bind(t: TxID, server: AddrPort, events: seq<Event>, rounds: nat) returns (o: Outcome, sent: nat)
    ensures o == Bound(t, server, events, rounds)
    ensures var wanted := 1 + Timeouts(events[..Listened(t, server, events)]);
      sent == if wanted <= rounds then wanted else rounds
  {
    sent := 0;
    var i := 0;
    ghost var stop := Listened(t, server, events);
    while sent < rounds
      invariant 0 <= i <= |events| && stop == i + Listened(t, server, events[i..])
      invariant sent <= rounds && sent == Timeouts(events[..i])
      invariant Bound(t, server, events[i..], rounds - sent) == Bound(t, server, events, rounds)
    {
      var next, outcome := Await(t, server, events, i, rounds - sent);
      sent := sent + 1;
      if outcome.Some? {
        return outcome.value, sent;
      }
      i := next;
    }
    MoreTimeouts(events, i, stop);
    return Failed, sent;
  }

  /** The answer that the client takes is the first one, if there were enough requests to
      wait for it and no read failed before. */
  ghost predicate FirstAnswer(t: TxID, server: AddrPort, events: seq<Event>, rounds: nat, j: nat, a: AddrPort) {
    && j < |events| && AnswerIn(t, server, events[j]) == Some(a)
    && (forall i :: 0 <= i < j ==> AnswerIn(t, server, events[i]).None? && !events[i].ReadFails?)
    && Timeouts(events[..j]) < rounds
  }

  /** How Bind ends, with `stop` the first event that is an answer or a failed read: with an
      error iff the requests run out before, or the read failed; it goes on iff there is no
      such event and a request is left. */
  lemma {:induction false} EndsExactlyAs(t: TxID, server: AddrPort, events: seq<Event>, rounds: nat)
    ensures var stop, o := Listened(t, server, events), Bound(t, server, events, rounds);
      var spent := Timeouts(events[..stop]) >= rounds;
      && (o == Failed <==> spent || (stop < |events| && events[stop].ReadFails?))
      && (o == Running <==> !spent && stop == |events|)
      && (o.Found? <==> !spent && stop < |events| && !events[stop].ReadFails?)
    decreases |events|
  {
    if rounds > 0 && events != [] {
      var e, stop := events[0], Listened(t, server, events);
      if stop > 0 {
        EndsExactlyAs(t, server, events[1..], if e.Timeout? then rounds - 1 else rounds);
        assert events[..stop][1..] == events[1..][..stop - 1];
      } else {
        assert events[..0] == [];
      }
    }
  }

  lemma {:induction false} BindsExactlyToTheFirst(t: TxID, server: AddrPort, events: seq<Event>, rounds: nat, a: AddrPort)
    ensures Bound(t, server, events, rounds) == Found(a) <==> exists j: nat :: FirstAnswer(t, server, events, rounds, j, a)
    decreases |events|
  {
    if rounds > 0 && events != [] {
      var e, rest := events[0], events[1..];
      var left := if e.Timeout? then rounds - 1 else rounds;
      BindsExactlyToTheFirst(t, server, rest, left, a);
      if AnswerIn(t, server, e).Some? || e.ReadFails? {
        assert events[..0] == [];
        assert FirstAnswer(t, server, events, rounds, 0, a) <==> AnswerIn(t, server, e) == Some(a);
      } else {
        forall j: nat ensures FirstAnswer(t, server, rest, left, j, a) <==> FirstAnswer(t, server, events, rounds, j + 1, a) {
          if j < |rest| { OneLater(t, server, events, rounds, left, j, a); }
        }
        if exists j: nat :: FirstAnswer(t, server, events, rounds, j, a) {
          var j: nat :| FirstAnswer(t, server, events, rounds, j, a);
          assert FirstAnswer(t, server, rest, left, j - 1, a);
        }
      }
    }
  }

  lemma {:induction false} OneLater(t: TxID, server: AddrPort, events: seq<Event>, rounds: nat, left: nat, j: nat, a: AddrPort)
    requires events != [] && j + 1 < |events| && left == (if events[0].Timeout? then rounds - 1 else rounds)
    requires AnswerIn(t, server, events[0]).None? && !events[0].ReadFails?
    ensures FirstAnswer(t, server, events[1..], left, j, a) <==> FirstAnswer(t, server, events, rounds, j + 1, a)
  {
    var rest := events[1..];
    assert events[..j + 1][1..] == rest[..j] && events[..j + 1][0] == events[0];
    assert forall i :: 0 <= i < |rest| ==> rest[i] == events[i + 1];
    if FirstAnswer(t, server, rest, left, j, a) {
      forall i | 0 <= i < j + 1 ensures AnswerIn(t, server, events[i]).None? && !events[i].ReadFails? {
        if i > 0 { assert rest[i - 1] == events[i]; }
      }
    }
  }

  // ------------------------------------------------------------------ both together

  /** A response survives the client's buffer exactly if its zone has at most 984 bytes; one
      with a longer zone is decoded to another address. */
  lemma FitsExactlyWhen(r: Response)
    ensures ParseResponse(Fit(ResponseBytes(r))) == Some(r) <==> (r.addr.addr.V6? ==> |r.addr.addr.zone| <= 984)
    ensures r.addr.addr.V6? && |r.addr.addr.zone| > 984 ==>
      exists other :: ParseResponse(Fit(ResponseBytes(r))) == Some(Response(r.txId, other)) && other != r.addr
  {
    var b := ResponseBytes(r);
    ResponseRoundTrip(r, Fit(b));
    if |b| > BUFFER {
      var h := Header(RESPONSE_TYPE, r.txId);
      assert h <= Fit(b);
      HeaderRoundTrip(Fit(b), RESPONSE_TYPE, r.txId);
      assert |Fit(b)[22..]| == 1002;
      var other := ParseAddrPort(Fit(b)[22..]).value;
      assert ParseResponse(Fit(b)) == Some(Response(r.txId, other));
    }
  }

  predicate ShortZone(a: AddrPort) {
    a.addr.V6? ==> |a.addr.zone| <= 984
  }

  /** The network between a server and a client: it may lose, duplicate, reorder and
      misdirect datagrams and inject any from other sources, but what arrives from the
      server's address is one of the server's replies. */
  ghost predicate Carries(server: AddrPort, serverEvents: seq<Event>, clientEvents: seq<Event>) {
    forall i :: 0 <= i < |clientEvents| && clientEvents[i].Packet? && clientEvents[i].from == Some(server) ==>
      exists r :: r in Replies(serverEvents) && r.bytes == clientEvents[i].bytes
  }

  /** The address that Bind returns is one from which the server received a request with the
      client's transaction. */
  lemma {:induction false} BindReturnsASource(t: TxID, server: AddrPort, serverEvents: seq<Event>, clientEvents: seq<Event>, rounds: nat, a: AddrPort)
    requires Carries(server, serverEvents, clientEvents)
    requires forall i :: 0 <= i < |serverEvents| && serverEvents[i].Packet? && serverEvents[i].from.Some? ==>
      ShortZone(serverEvents[i].from.value)
    requires Bound(t, server, clientEvents, rounds) == Found(a)
    ensures exists i :: 0 <= i < |serverEvents| && RequestIn(serverEvents[i]) == Some(Response(t, a))
  {
    BindsExactlyToTheFirst(t, server, clientEvents, rounds, a);
    var j: nat :| FirstAnswer(t, server, clientEvents, rounds, j, a);
    var e := clientEvents[j];
    var r :| r in Replies(serverEvents) && r.bytes == e.bytes;
    RepliesAnswer(serverEvents, r);
    var i :| 0 <= i < |serverEvents| && RequestIn(serverEvents[i]).Some? && r == ReplyTo(RequestIn(serverEvents[i]).value);
    FitsExactlyWhen(RequestIn(serverEvents[i]).value);
  }

  /** The bound on zones is the limit of that lemma: whatever the transaction and the longer
      zone, one request and its reply, delivered faithfully, make Bind return an address
      nobody sent from.  Zones that come from a socket are far shorter. */
  lemma LongZonesAreTheLimit(t: TxID, server: AddrPort, source: AddrPort)
    requires !ShortZone(source)
    ensures var s := [Packet(Some(source), RequestBytes(t))];
      var c := [Packet(Some(server), ResponseBytes(Response(t, source)))];
      && Carries(server, s, c)
      && exists a :: a != source && Bound(t, server, c, 1) == Found(a)
  {
    var req := Packet(Some(source), RequestBytes(t));
    var s := [req];
    RequestRoundTrip(t, RequestBytes(t));
    assert RequestIn(req) == Some(Response(t, source));
    assert Replies(s) == [ReplyTo(Response(t, source))] + Replies(s[1..]);
    assert ReplyTo(Response(t, source)) in Replies(s);
    FitsExactlyWhen(Response(t, source));
    var other :| ParseResponse(Fit(ResponseBytes(Response(t, source)))) == Some(Response(t, other)) && other != source;
    var answer := Packet(Some(server), ResponseBytes(Response(t, source)));
    assert AnswerIn(t, server, answer) == Some(other);
    assert Bound(t, server, [answer], 1) == Found(other);
  }
}
