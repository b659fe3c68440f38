/** Hole punching between two peers (internal/registar/p2p/connector.go).

    Both peers run `Connect`: one accept loop and up to two dial loops each, all
    handing their result to the peer's own unbuffered `connected` channel.  The whole
    pair is one state, every interleaving is a list of actions, and an action is one
    step of one loop, of one `Connect`, or of the environment (a parent context that
    is cancelled).  What the other side did (a close, a reset request, a written
    answer) is recorded on the connection and may be observed at any later time, or
    never, so delays need no further modelling. */
module P2PConnector {
  import opened Wrappers

  datatype Side = Left | Right {
    function Other(): Side {
      if this == Left then Right else Left
    }
  }

  datatype LoopId = AcceptLoop | DialPrivate | DialPublic

  /** How one end closed a connection (connector.go:30-34). */
  datatype Closing = Open | Cancelled | BadRequest | Conflict

  datatype Reply = NoReply | Refused409 | Granted200

  datatype Conn = Conn(
    dialler: Side,
    loop: LoopId,           // the dial loop that created it
    taken: bool,            // returned by the other side's Accept
    requestSent: bool,
    requestReset: bool,     // the dialler's context was cancelled during its handshake
    reply: Reply,           // the answer the acceptor got onto the stream
    byDialler: Closing,
    byAcceptor: Closing)
  {
    function ClosedBy(s: Side): Closing {
      if s == dialler then byDialler else byAcceptor
    }

    predicate Closed() {
      byDialler != Open || byAcceptor != Open
    }

    /** Only the first close of an end has an effect. */
    function Close(s: Side, code: Closing): Conn {
      if ClosedBy(s) != Open then this
      else if s == dialler then this.(byDialler := code)
      else this.(byAcceptor := code)
    }
  }

  /** Where a loop is.  `Shaking` covers everything from the new connection to the end
      of its handshake, `Refusing` is the close after a 409, `Ready` the final select. */
  datatype Phase =
    | Idle
    | Shaking(conn: nat)
    | Refusing(conn: nat)
    | Ready(conn: nat)
    | Finished(failed: bool)
  {
    predicate Holds(c: nat) {
      (Shaking? || Refusing? || Ready?) && conn == c
    }
  }

  /** Where `Connect` itself is: in its select, waiting for the group after a value
      arrived, waiting for the group after its context ended, or back at the caller. */
  datatype Call = Waiting | Won(conn: nat) | Quit | Returned(result: Option<nat>, failed: bool)

  datatype Peer = Peer(
    accept: Phase,
    dialPrivate: Phase,
    dialPublic: Phase,
    call: Call,
    crossed: seq<nat>,        // values received from `connected`
    parentCancelled: bool,    // the caller's context ended while Connect ran
    attemptsCancelled: bool)
  {
    function Loop(l: LoopId): Phase {
      match l
      case AcceptLoop => accept
      case DialPrivate => dialPrivate
      case DialPublic => dialPublic
    }

    function SetLoop(l: LoopId, ph: Phase): (p: Peer)
      ensures forall k :: p.Loop(k) == if k == l then ph else Loop(k)
      ensures p.call == call && p.crossed == crossed
      ensures p.parentCancelled == parentCancelled && p.attemptsCancelled == attemptsCancelled
    {
      match l
      case AcceptLoop => this.(accept := ph)
      case DialPrivate => this.(dialPrivate := ph)
      case DialPublic => this.(dialPublic := ph)
    }

    /** Some loop returned an error, which cancels the group's context. */
    predicate GroupFailed() {
      accept == Finished(true) || dialPrivate == Finished(true) || dialPublic == Finished(true)
    }

    predicate AllFinished() {
      accept.Finished? && dialPrivate.Finished? && dialPublic.Finished?
    }

    /** The context `Connect` selects on is done. */
    predicate GroupDone() {
      parentCancelled || GroupFailed()
    }

    /** The context the loops run under is done. */
    predicate AttemptsDone() {
      GroupDone() || attemptsCancelled
    }
  }

  datatype Config = Config(
    leftId: string,
    rightId: string,
    sameAddrs: set<Side>,      // sides that were given public == private
    mayCancel: set<Side>,      // sides whose parent context may be cancelled
    atomicReply: bool)         // a reply write that fails has not reached the dialler;
                               // closing the stream afterwards (line 289) may still fail
  {
    function Id(s: Side): string {
      if s == Left then leftId else rightId
    }

    predicate Wins(s: Side) {
      Less(Id(s.Other()), Id(s))
    }
  }

  datatype State = State(conns: seq<Conn>, left: Peer, right: Peer) {
    function Get(s: Side): Peer {
      if s == Left then left else right
    }

    function Put(s: Side, p: Peer): (r: State)
      ensures r.conns == conns && r.Get(s) == p && r.Get(s.Other()) == Get(s.Other())
    {
      if s == Left then this.(left := p) else this.(right := p)
    }
  }

  /** Go compares strings byte by byte. */
  predicate Less(a: string, b: string) {
    if b == "" then false
    else if a == "" then true
    else a[0] < b[0] || (a[0] == b[0] && Less(a[1..], b[1..]))
  }

  lemma {:induction false} LessIsTotal(a: string, b: string)
    ensures !(Less(a, b) && Less(b, a))
    ensures a != b <==> Less(a, b) || Less(b, a)
  {
    if a != "" && b != "" && a[0] == b[0] {
      LessIsTotal(a[1..], b[1..]);
      assert a == [a[0]] + a[1..] && b == [b[0]] + b[1..];
    }
  }

  /** `n` is where `a` and `b` part, and `a` comes first there: it ends, or has the smaller
      character. */
  predicate PartAt(a: string, b: string, n: nat) {
    && n <= |a| && n <= |b| && a[..n] == b[..n]
    && (n == |a| < |b| || (n < |a| && n < |b| && a[n] < b[n]))
  }

  ghost predicate ComesFirst(a: string, b: string) {
    exists n: nat :: PartAt(a, b, n)
  }

  /** The order is the lexicographic one, in which a prefix comes first. */
  lemma {:induction false} LessIsLexicographic(a: string, b: string)
    ensures Less(a, b) <==> ComesFirst(a, b)
  {
    if a != "" && b != "" && a[0] == b[0] {
      LessIsLexicographic(a[1..], b[1..]);
      OnePlaceOn(a, b);
    } else {
      assert Less(a, b) ==> PartAt(a, b, 0);
      assert forall n: nat :: 0 < n <= |a| && n <= |b| ==> a[..n][0] == a[0] && b[..n][0] == b[0];
    }
  }

  lemma OnePlaceOn(a: string, b: string)
    requires a != "" && b != "" && a[0] == b[0]
    ensures ComesFirst(a, b) <==> ComesFirst(a[1..], b[1..])
  {
    if ComesFirst(a[1..], b[1..]) {
      var n: nat :| PartAt(a[1..], b[1..], n);
      assert a[..n + 1] == [a[0]] + a[1..][..n] && b[..n + 1] == [b[0]] + b[1..][..n];
      assert PartAt(a, b, n + 1);
    } else if ComesFirst(a, b) {
      var n: nat :| PartAt(a, b, n);
      assert a[1..][..n - 1] == a[..n][1..] && b[1..][..n - 1] == b[..n][1..];
      assert PartAt(a[1..], b[1..], n - 1);
    }
  }

  /** What a handshake that did not succeed can report, as the loops classify it. */
  datatype HandshakeError =
    | OwnCancel            // our context ended
    | PeerReset            // the dialler reset its request
    | PeerCancelled        // the peer closed the connection with errcodeCancelled
    | PeerConflict         // the peer closed the connection with errcodeConflict
    | MissingId            // the request carries no X-Connector-ID
    | Unexpected           // anything else: time-outs, protocol errors

  datatype Action =
    | CancelParent(side: Side)
    | CancelAttempts(side: Side)
    | Dial(side: Side, loop: LoopId)
    | Accept(side: Side, conn: nat)
    | Stop(side: Side, loop: LoopId)
    | ListenerClosed(side: Side)
    | Fail(side: Side, loop: LoopId)
    | NoDatagrams(side: Side, loop: LoopId)
    | SendRequest(side: Side, loop: LoopId)
    | ResetRequest(side: Side, loop: LoopId)
    | ReadReply(side: Side, loop: LoopId)
    | Answer(side: Side)
    | AnswerLost(side: Side, arrived: bool, err: HandshakeError)
    | Abort(side: Side, loop: LoopId, err: HandshakeError)
    | CloseRefused(side: Side, loop: LoopId)
    | HandOver(side: Side, loop: LoopId)
    | GiveUp(side: Side, loop: LoopId, failed: bool)
    | QuitConnect(side: Side)
    | ReturnConnect(side: Side)

  /** May the handshake of side `s` on `c` report `err`?  (connector.go:242-369) */
  predicate Observable(cfg: Config, p: Peer, l: LoopId, c: Conn, err: HandshakeError) {
    match err
    case OwnCancel => p.AttemptsDone()
    case PeerReset => l == AcceptLoop && c.requestReset
    case PeerCancelled => (if l == AcceptLoop then c.byDialler else c.byAcceptor) == Cancelled
    case PeerConflict => (if l == AcceptLoop then c.byDialler else c.byAcceptor) == Conflict
    case MissingId => l == AcceptLoop && c.requestSent && cfg.Id(c.dialler) == ""
    case Unexpected => true
  }

  /** The loop's next phase after a failed handshake (connector.go:141-167, 205-223). */
  function PhaseAfter(l: LoopId, err: HandshakeError): Phase {
    match err
    case OwnCancel => Idle
    case PeerReset => if l == AcceptLoop then Idle else Finished(true)
    case PeerCancelled => Idle
    case PeerConflict => if l == AcceptLoop then Finished(true) else Idle
    case MissingId => if l == AcceptLoop then Idle else Finished(true)
    case Unexpected => Finished(true)
  }

  /** What the loop itself does to the connection in that case. */
  function ConnAfter(l: LoopId, s: Side, c: Conn, err: HandshakeError): Conn {
    match err
    case OwnCancel => c.Close(s, Cancelled)
    case PeerReset => if l == AcceptLoop then c.Close(s, Cancelled) else c
    case MissingId => if l == AcceptLoop then c.Close(s, BadRequest) else c
    case PeerCancelled => c
    case PeerConflict => c
    case Unexpected => c
  }

  /** The answer to the dialler's ID (connector.go:269-289): 409 iff it is larger. */
  function AnswerFor(cfg: Config, c: Conn): Reply {
    if Less(cfg.Id(c.dialler.Other()), cfg.Id(c.dialler)) then Refused409 else Granted200
  }

  /** A loop that is working on an existing connection. */
  predicate Busy(s: State, side: Side, l: LoopId) {
    var ph := s.Get(side).Loop(l);
    (ph.Shaking? || ph.Refusing? || ph.Ready?) && ph.conn < |s.conns|
  }

  predicate Enabled(cfg: Config, s: State, a: Action) {
    var p := s.Get(a.side);
    match a
    case CancelParent(side) => side in cfg.mayCancel && !p.call.Returned?
    case CancelAttempts(side) => p.call.Won?
    case Dial(side, l) => l != AcceptLoop && p.Loop(l) == Idle
    case Accept(side, c) =>
      && p.accept == Idle && c < |s.conns|
      && s.conns[c].dialler == side.Other() && !s.conns[c].taken
    case Stop(side, l) => p.Loop(l) == Idle && p.AttemptsDone()
    case ListenerClosed(side) => p.accept == Idle
    case Fail(side, l) => p.Loop(l) == Idle
    case NoDatagrams(side, l) =>
      && Busy(s, side, l) && p.Loop(l).Shaking?
      && (l == AcceptLoop || !s.conns[p.Loop(l).conn].requestSent)
    case SendRequest(side, l) =>
      && l != AcceptLoop && Busy(s, side, l) && p.Loop(l).Shaking?
      && !s.conns[p.Loop(l).conn].requestSent
    case ResetRequest(side, l) =>
      && l != AcceptLoop && Busy(s, side, l) && p.Loop(l).Shaking? && p.AttemptsDone()
    case ReadReply(side, l) =>
      && l != AcceptLoop && Busy(s, side, l) && p.Loop(l).Shaking?
      && s.conns[p.Loop(l).conn].requestSent
      && s.conns[p.Loop(l).conn].reply != NoReply
    case Answer(side) =>
      && Busy(s, side, AcceptLoop) && p.accept.Shaking?
      && s.conns[p.accept.conn].requestSent
      && cfg.Id(s.conns[p.accept.conn].dialler) != ""
    case AnswerLost(side, arrived, err) =>
      && Busy(s, side, AcceptLoop) && p.accept.Shaking?
      && s.conns[p.accept.conn].requestSent
      && cfg.Id(s.conns[p.accept.conn].dialler) != ""
      && Observable(cfg, p, AcceptLoop, s.conns[p.accept.conn], err)
      && (cfg.atomicReply && arrived ==> err == Unexpected)
    case Abort(side, l, err) =>
      && Busy(s, side, l) && p.Loop(l).Shaking?
      && Observable(cfg, p, l, s.conns[p.Loop(l).conn], err)
    case CloseRefused(side, l) => Busy(s, side, l) && p.Loop(l).Refusing?
    case HandOver(side, l) => Busy(s, side, l) && p.Loop(l).Ready? && p.call == Waiting
    case GiveUp(side, l, failed) => Busy(s, side, l) && p.Loop(l).Ready? && p.AttemptsDone()
    case QuitConnect(side) => p.call == Waiting && p.GroupDone()
    case ReturnConnect(side) =>
      p.AllFinished() && (p.call == Quit || (p.call.Won? && p.attemptsCancelled))
  }

  /** Loop `l` of `side` moves to `ph` and leaves `c` in place of its connection. */
  function Move(s: State, side: Side, l: LoopId, c: Conn, ph: Phase): State
    requires Busy(s, side, l)
  {
    var i := s.Get(side).Loop(l).conn;
    s.(conns := s.conns[i := c]).Put(side, s.Get(side).SetLoop(l, ph))
  }

  function Apply(cfg: Config, s: State, a: Action): State
    requires Enabled(cfg, s, a)
  {
    var p := s.Get(a.side);
    match a
    case CancelParent(side) => s.Put(side, p.(parentCancelled := true))
    case CancelAttempts(side) => s.Put(side, p.(attemptsCancelled := true))
    case Dial(side, l) =>
      var c := Conn(side, l, false, false, false, NoReply, Open, Open);
      s.(conns := s.conns + [c]).Put(side, p.SetLoop(l, Shaking(|s.conns|)))
    case Accept(side, c) =>
      s.(conns := s.conns[c := s.conns[c].(taken := true)]).Put(side, p.SetLoop(AcceptLoop, Shaking(c)))
    case Stop(side, l) => s.Put(side, p.SetLoop(l, Finished(false)))
    case ListenerClosed(side) => s.Put(side, p.SetLoop(AcceptLoop, Finished(false)))
    case Fail(side, l) => s.Put(side, p.SetLoop(l, Finished(true)))
    case NoDatagrams(side, l) =>
      Move(s, side, l, s.conns[p.Loop(l).conn].Close(side, Cancelled), Idle)
    case SendRequest(side, l) =>
      Move(s, side, l, s.conns[p.Loop(l).conn].(requestSent := true), p.Loop(l))
    case ResetRequest(side, l) =>
      Move(s, side, l, s.conns[p.Loop(l).conn].(requestReset := true), p.Loop(l))
    case ReadReply(side, l) =>
      var i := p.Loop(l).conn;
      Move(s, side, l, s.conns[i], if s.conns[i].reply == Granted200 then Ready(i) else Refusing(i))
    case Answer(side) =>
      var i := p.accept.conn;
      var reply := AnswerFor(cfg, s.conns[i]);
      Move(s, side, AcceptLoop, s.conns[i].(reply := reply), if reply == Granted200 then Ready(i) else Refusing(i))
    case AnswerLost(side, arrived, err) =>
      var c := s.conns[p.accept.conn];
      var c' := if arrived then c.(reply := AnswerFor(cfg, c)) else c;
      Move(s, side, AcceptLoop, ConnAfter(AcceptLoop, side, c', err), PhaseAfter(AcceptLoop, err))
    case Abort(side, l, err) =>
      Move(s, side, l, ConnAfter(l, side, s.conns[p.Loop(l).conn], err), PhaseAfter(l, err))
    case CloseRefused(side, l) =>
      Move(s, side, l, s.conns[p.Loop(l).conn].Close(side, Conflict), Idle)
    case HandOver(side, l) =>
      var i := p.Loop(l).conn;
      s.Put(side, p.SetLoop(l, Finished(false)).(call := Won(i), crossed := p.crossed + [i]))
    case GiveUp(side, l, failed) =>
      Move(s, side, l, s.conns[p.Loop(l).conn].Close(side, Cancelled), Finished(failed))
    case QuitConnect(side) => s.Put(side, p.(call := Quit))
    case ReturnConnect(side) =>
      var result := if p.call.Won? && !p.GroupFailed() then Some(p.call.conn) else None;
      s.Put(side, p.(call := Returned(result, p.GroupFailed())))
  }

  function InitPeer(cfg: Config, side: Side): Peer {
    Peer(Idle, Idle, if side in cfg.sameAddrs then Finished(false) else Idle, Waiting, [], false, false)
  }

  function Init(cfg: Config): State {
    State([], InitPeer(cfg, Left), InitPeer(cfg, Right))
  }

  /** The state after some more actions, or None when one of them was not possible. */
  function Continue(cfg: Config, s: State, acts: seq<Action>): Option<State> {
    if acts == [] then Some(s)
    else
      var prev := Continue(cfg, s, acts[..|acts| - 1]);
      if prev.Some? && Enabled(cfg, prev.value, acts[|acts| - 1])
      then Some(Apply(cfg, prev.value, acts[|acts| - 1]))
      else None
  }

  function Run(cfg: Config, acts: seq<Action>): Option<State> {
    Continue(cfg, Init(cfg), acts)
  }

  // ------------------------------------------------------------------ ownership

  /** The loop of `side` that works on connection `c`. */
  function LoopOf(c: Conn, side: Side): LoopId {
    if side == c.dialler then c.loop else AcceptLoop
  }

  /** `side` obtained `c` from Dial or from Accept. */
  predicate Obtained(c: Conn, side: Side) {
    side == c.dialler || c.taken
  }

  predicate WellFormedConn(c: Conn) {
    && c.loop != AcceptLoop
    && (!c.taken ==> c.byAcceptor == Open && c.reply == NoReply)
  }

  /** A loop only ever holds connections that it obtained itself. */
  predicate HoldsOwn(s: State, side: Side, l: LoopId) {
    var ph := s.Get(side).Loop(l);
    ph.Shaking? || ph.Refusing? || ph.Ready? ==>
      && ph.conn < |s.conns|
      && LoopOf(s.conns[ph.conn], side) == l
      && Obtained(s.conns[ph.conn], side)
      && (ph.Ready? ==> s.conns[ph.conn].reply == Granted200 && s.conns[ph.conn].ClosedBy(side) == Open)
      && (ph.Refusing? ==> s.conns[ph.conn].reply == Refused409)
      && (l == AcceptLoop && ph.Shaking? ==> s.conns[ph.conn].reply == NoReply)
      && (ph.Shaking? ==> s.conns[ph.conn].ClosedBy(side) == Open)
  }

  /** The channel carries at most one value, and Connect's position agrees with it. */
  predicate CallConsistent(s: State, side: Side) {
    var p := s.Get(side);
    && |p.crossed| <= 1
    && (p.call == Waiting || p.call == Quit ==> p.crossed == [])
    && (p.call.Won? ==> p.crossed == [p.call.conn])
    && (p.attemptsCancelled ==> p.crossed != [])
    && (p.call == Quit ==> p.GroupDone())
    && (p.call.Returned? ==>
          && p.AllFinished()
          && (p.call.failed <==> p.GroupFailed())
          && (p.call.result.Some? <==> p.crossed != [] && !p.GroupFailed())
          && (p.call.result.Some? ==> p.crossed == [p.call.result.value])
          && (p.crossed == [] ==> p.GroupDone()))
    && (p.crossed != [] ==>
          && p.crossed[0] < |s.conns|
          && var c := s.conns[p.crossed[0]];
          && Obtained(c, side)
          && c.reply == Granted200
          && c.ClosedBy(side) == Open
          && p.Loop(LoopOf(c, side)) == Finished(false))
  }

  /** Nothing is dropped: a connection that a side obtained is closed by one end, is
      still held by its loop, crossed the channel, or its loop ended with an error. */
  predicate Accounted(s: State, side: Side, c: nat)
    requires c < |s.conns|
  {
    var p := s.Get(side);
    var l := LoopOf(s.conns[c], side);
    Obtained(s.conns[c], side) ==>
      || s.conns[c].Closed()
      || p.Loop(l).Holds(c)
      || p.crossed == [c]
      || p.Loop(l) == Finished(true)
  }

  predicate Ownership(s: State) {
    && (forall c :: 0 <= c < |s.conns| ==> WellFormedConn(s.conns[c]))
    && (forall side, l :: HoldsOwn(s, side, l))
    && (forall side :: CallConsistent(s, side))
    && (forall side, c :: 0 <= c < |s.conns| ==> Accounted(s, side, c))
  }

  lemma OwnershipInit(cfg: Config)
    ensures Ownership(Init(cfg))
  {}

  /** What a step that works on the connection held by loop `l` may do to it, and where
      the loop may go afterwards. */
  predicate SoundMove(s: State, side: Side, l: LoopId, c: Conn, ph: Phase)
    requires Busy(s, side, l)
  {
    var i := s.Get(side).Loop(l).conn;
    var c0 := s.conns[i];
    && c.dialler == c0.dialler && c.loop == c0.loop && c.taken == c0.taken
    && c.ClosedBy(side.Other()) == c0.ClosedBy(side.Other())
    && (c0.Closed() ==> c.Closed())
    && (c.reply == c0.reply || (c0.reply == NoReply && l == AcceptLoop))
    && (ph.Shaking? ==> ph.conn == i && c.ClosedBy(side) == Open && (l == AcceptLoop ==> c.reply == NoReply))
    && (ph.Refusing? ==> ph.conn == i && c.reply == Refused409)
    && (ph.Ready? ==> ph.conn == i && c.ClosedBy(side) == Open && c.reply == Granted200)
    && (ph == Idle || ph == Finished(false) ==> c.Closed())
  }

  lemma MoveKeepsHolds(s: State, side: Side, l: LoopId, c: Conn, ph: Phase, sd: Side, k: LoopId)
    requires Busy(s, side, l) && SoundMove(s, side, l, c, ph)
    requires WellFormedConn(s.conns[s.Get(side).Loop(l).conn])
    requires HoldsOwn(s, side, l) && HoldsOwn(s, sd, k)
    ensures HoldsOwn(Move(s, side, l, c, ph), sd, k)
  {
  }

  lemma MoveKeepsCall(s: State, side: Side, l: LoopId, c: Conn, ph: Phase, sd: Side)
    requires Busy(s, side, l) && SoundMove(s, side, l, c, ph)
    requires HoldsOwn(s, side, l) && CallConsistent(s, sd)
    ensures CallConsistent(Move(s, side, l, c, ph), sd)
  {
  }

  lemma MoveKeepsAccounted(s: State, side: Side, l: LoopId, c: Conn, ph: Phase, sd: Side, k: nat)
    requires Busy(s, side, l) && SoundMove(s, side, l, c, ph)
    requires HoldsOwn(s, side, l) && k < |s.conns| && WellFormedConn(s.conns[k]) && Accounted(s, sd, k)
    ensures Accounted(Move(s, side, l, c, ph), sd, k)
  {
  }

  lemma OwnershipMove(s: State, side: Side, l: LoopId, c: Conn, ph: Phase)
    requires Ownership(s) && Busy(s, side, l) && SoundMove(s, side, l, c, ph)
    ensures Ownership(Move(s, side, l, c, ph))
  {
    var s' := Move(s, side, l, c, ph);
    assert HoldsOwn(s, side, l);
    assert WellFormedConn(s.conns[s.Get(side).Loop(l).conn]);
    forall sd, k ensures HoldsOwn(s', sd, k) {
      MoveKeepsHolds(s, side, l, c, ph, sd, k);
    }
    forall sd ensures CallConsistent(s', sd) {
      MoveKeepsCall(s, side, l, c, ph, sd);
    }
    forall sd, k | 0 <= k < |s'.conns| ensures Accounted(s', sd, k) {
      MoveKeepsAccounted(s, side, l, c, ph, sd, k);
    }
  }

  predicate IsMove(a: Action) {
    a.NoDatagrams? || a.SendRequest? || a.ResetRequest? || a.ReadReply? || a.Answer? || a.AnswerLost?
    || a.Abort? || a.CloseRefused? || a.GiveUp?
  }

  function MoveLoop(a: Action): LoopId
    requires IsMove(a)
  {
    if a.Answer? || a.AnswerLost? then AcceptLoop else a.loop
  }

  /** Every step on a held connection is a sound move of its loop. */
  lemma MovesAreSound(cfg: Config, s: State, a: Action) returns (c: Conn, ph: Phase)
    requires Enabled(cfg, s, a) && IsMove(a) && HoldsOwn(s, a.side, MoveLoop(a))
    ensures Busy(s, a.side, MoveLoop(a))
    ensures SoundMove(s, a.side, MoveLoop(a), c, ph)
    ensures Apply(cfg, s, a) == Move(s, a.side, MoveLoop(a), c, ph)
  {
    c, ph := MovesAreMoves(cfg, s, a);
    if a.Answer? || a.AnswerLost? || a.ReadReply? {
      HandshakesAreSound(cfg, s, a, c, ph);
    } else {
      EndingsAreSound(cfg, s, a, c, ph);
    }
  }

  lemma MovesAreMoves(cfg: Config, s: State, a: Action) returns (c: Conn, ph: Phase)
    requires Enabled(cfg, s, a) && IsMove(a)
    ensures Busy(s, a.side, MoveLoop(a))
    ensures Apply(cfg, s, a) == Move(s, a.side, MoveLoop(a), c, ph)
    ensures c == Apply(cfg, s, a).conns[s.Get(a.side).Loop(MoveLoop(a)).conn]
    ensures ph == Apply(cfg, s, a).Get(a.side).Loop(MoveLoop(a))
  {
    var i := s.Get(a.side).Loop(MoveLoop(a)).conn;
    c := Apply(cfg, s, a).conns[i];
    ph := Apply(cfg, s, a).Get(a.side).Loop(MoveLoop(a));
  }

  lemma HandshakesAreSound(cfg: Config, s: State, a: Action, c: Conn, ph: Phase)
    requires Enabled(cfg, s, a) && (a.Answer? || a.AnswerLost? || a.ReadReply?) && Busy(s, a.side, MoveLoop(a))
    requires HoldsOwn(s, a.side, MoveLoop(a))
    requires c == Apply(cfg, s, a).conns[s.Get(a.side).Loop(MoveLoop(a)).conn]
    requires ph == Apply(cfg, s, a).Get(a.side).Loop(MoveLoop(a))
    ensures SoundMove(s, a.side, MoveLoop(a), c, ph)
  {
  }

  lemma EndingsAreSound(cfg: Config, s: State, a: Action, c: Conn, ph: Phase)
    requires Enabled(cfg, s, a) && IsMove(a) && !(a.Answer? || a.AnswerLost? || a.ReadReply?)
    requires Busy(s, a.side, MoveLoop(a)) && HoldsOwn(s, a.side, MoveLoop(a))
    requires c == Apply(cfg, s, a).conns[s.Get(a.side).Loop(MoveLoop(a)).conn]
    requires ph == Apply(cfg, s, a).Get(a.side).Loop(MoveLoop(a))
    ensures SoundMove(s, a.side, MoveLoop(a), c, ph)
  {
  }

  // The remaining steps, one part of the invariant at a time.

  lemma AcceptKeepsHolds(cfg: Config, s: State, a: Action, sd: Side, k: LoopId)
    requires a.Accept? && Enabled(cfg, s, a) && HoldsOwn(s, sd, k) && WellFormedConn(s.conns[a.conn])
    ensures HoldsOwn(Apply(cfg, s, a), sd, k)
  {
    var s' := Apply(cfg, s, a);
    assert forall i :: 0 <= i < |s.conns| ==> s'.conns[i] == s.conns[i].(taken := s'.conns[i].taken);
  }

  lemma StepKeepsHolds(cfg: Config, s: State, a: Action, sd: Side, k: LoopId)
    requires Enabled(cfg, s, a) && !IsMove(a) && !a.Accept? && HoldsOwn(s, sd, k)
    ensures HoldsOwn(Apply(cfg, s, a), sd, k)
  {
    if a.Dial? {
      DialKeepsHolds(cfg, s, a, sd, k);
    } else {
      IdleStepKeepsHolds(cfg, s, a, sd, k);
    }
  }

  lemma DialKeepsHolds(cfg: Config, s: State, a: Action, sd: Side, k: LoopId)
    requires Enabled(cfg, s, a) && a.Dial? && HoldsOwn(s, sd, k)
    ensures HoldsOwn(Apply(cfg, s, a), sd, k)
  {
    assert s.conns <= Apply(cfg, s, a).conns;
  }

  /** A step that touches no connection leaves a loop where it is or ends it. */
  lemma IdleStepKeepsHolds(cfg: Config, s: State, a: Action, sd: Side, k: LoopId)
    requires Enabled(cfg, s, a) && !IsMove(a) && !a.Accept? && !a.Dial? && HoldsOwn(s, sd, k)
    ensures HoldsOwn(Apply(cfg, s, a), sd, k)
  {
    var s' := Apply(cfg, s, a);
    assert s'.conns == s.conns;
    assert s'.Get(sd).Loop(k) == s.Get(sd).Loop(k) || s'.Get(sd).Loop(k).Finished?;
  }

  lemma LoopStepsKeepCall(cfg: Config, s: State, a: Action, sd: Side)
    requires (a.Accept? || a.Dial? || a.Stop? || a.ListenerClosed? || a.Fail?) && Enabled(cfg, s, a)
    requires CallConsistent(s, sd)
    ensures CallConsistent(Apply(cfg, s, a), sd)
  {
    var s' := Apply(cfg, s, a);
    assert s'.Get(sd).crossed == s.Get(sd).crossed && s'.Get(sd).call == s.Get(sd).call;
    if s.Get(sd).crossed != [] {
      var c := s.Get(sd).crossed[0];
      assert s'.conns[c] == s.conns[c] || s'.conns[c] == s.conns[c].(taken := true);
    }
  }

  lemma HandOverKeepsCall(cfg: Config, s: State, a: Action, sd: Side)
    requires a.HandOver? && Enabled(cfg, s, a) && CallConsistent(s, sd) && HoldsOwn(s, a.side, a.loop)
    ensures CallConsistent(Apply(cfg, s, a), sd)
  {
    assert Apply(cfg, s, a).conns == s.conns;
  }

  lemma ContextStepsKeepCall(cfg: Config, s: State, a: Action, sd: Side)
    requires Enabled(cfg, s, a) && CallConsistent(s, sd)
    requires a.CancelParent? || a.CancelAttempts? || a.QuitConnect? || a.ReturnConnect?
    ensures CallConsistent(Apply(cfg, s, a), sd)
  {
    assert Apply(cfg, s, a).conns == s.conns;
    assert forall l :: Apply(cfg, s, a).Get(sd).Loop(l) == s.Get(sd).Loop(l);
  }

  lemma StepKeepsAccounted(cfg: Config, s: State, a: Action, sd: Side, k: nat)
    requires Enabled(cfg, s, a) && !IsMove(a) && k < |s.conns| && Accounted(s, sd, k)
    requires CallConsistent(s, sd)
    requires a.HandOver? ==> HoldsOwn(s, a.side, a.loop)
    ensures k < |Apply(cfg, s, a).conns| && Accounted(Apply(cfg, s, a), sd, k)
  {
    if a.Accept? || a.Dial? {
      NewKeepsAccounted(cfg, s, a, sd, k);
    } else if a.HandOver? {
      HandOverKeepsAccounted(cfg, s, a, sd, k);
    } else {
      IdleKeepsAccounted(cfg, s, a, sd, k);
    }
  }

  lemma NewKeepsAccounted(cfg: Config, s: State, a: Action, sd: Side, k: nat)
    requires Enabled(cfg, s, a) && (a.Accept? || a.Dial?) && k < |s.conns| && Accounted(s, sd, k)
    ensures k < |Apply(cfg, s, a).conns| && Accounted(Apply(cfg, s, a), sd, k)
  {
  }

  lemma HandOverKeepsAccounted(cfg: Config, s: State, a: Action, sd: Side, k: nat)
    requires Enabled(cfg, s, a) && a.HandOver? && k < |s.conns| && Accounted(s, sd, k)
    requires CallConsistent(s, sd) && HoldsOwn(s, a.side, a.loop)
    ensures k < |Apply(cfg, s, a).conns| && Accounted(Apply(cfg, s, a), sd, k)
  {
  }

  lemma IdleKeepsAccounted(cfg: Config, s: State, a: Action, sd: Side, k: nat)
    requires Enabled(cfg, s, a) && !IsMove(a) && !a.Accept? && !a.Dial? && !a.HandOver?
    requires k < |s.conns| && Accounted(s, sd, k)
    ensures k < |Apply(cfg, s, a).conns| && Accounted(Apply(cfg, s, a), sd, k)
  {
    assert Apply(cfg, s, a).conns == s.conns && Apply(cfg, s, a).Get(sd).crossed == s.Get(sd).crossed;
  }

  lemma StepKeepsConns(cfg: Config, s: State, a: Action, k: nat)
    requires Enabled(cfg, s, a) && !IsMove(a) && k < |Apply(cfg, s, a).conns|
    requires k < |s.conns| ==> WellFormedConn(s.conns[k])
    ensures WellFormedConn(Apply(cfg, s, a).conns[k])
    ensures k >= |s.conns| ==> forall sd :: Accounted(Apply(cfg, s, a), sd, k)
  {
  }

  lemma OwnershipOther(cfg: Config, s: State, a: Action)
    requires Ownership(s) && Enabled(cfg, s, a) && !IsMove(a)
    ensures Ownership(Apply(cfg, s, a))
  {
    var s' := Apply(cfg, s, a);
    forall k | 0 <= k < |s'.conns| ensures WellFormedConn(s'.conns[k]) {
      StepKeepsConns(cfg, s, a, k);
    }
    forall sd, k ensures HoldsOwn(s', sd, k) {
      if a.Accept? {
        AcceptKeepsHolds(cfg, s, a, sd, k);
      } else {
        StepKeepsHolds(cfg, s, a, sd, k);
      }
    }
    forall sd ensures CallConsistent(s', sd) {
      if a.HandOver? {
        HandOverKeepsCall(cfg, s, a, sd);
      } else if a.CancelParent? || a.CancelAttempts? || a.QuitConnect? || a.ReturnConnect? {
        ContextStepsKeepCall(cfg, s, a, sd);
      } else {
        LoopStepsKeepCall(cfg, s, a, sd);
      }
    }
    forall sd, k | 0 <= k < |s'.conns| ensures Accounted(s', sd, k) {
      if k < |s.conns| {
        StepKeepsAccounted(cfg, s, a, sd, k);
      } else {
        StepKeepsConns(cfg, s, a, k);
      }
    }
  }

  lemma OwnershipStep(cfg: Config, s: State, a: Action)
    requires Ownership(s) && Enabled(cfg, s, a)
    ensures Ownership(Apply(cfg, s, a))
  {
    if IsMove(a) {
      assert HoldsOwn(s, a.side, MoveLoop(a));
      var c, ph := MovesAreSound(cfg, s, a);
      OwnershipMove(s, a.side, MoveLoop(a), c, ph);
    } else {
      OwnershipOther(cfg, s, a);
    }
  }

  // ------------------------------------------------------------------ the tie-break

  /** How a connection that was granted can come to nothing although its accept loop
      went on: only when the answer can arrive and its write still fail. */
  predicate Lost(cfg: Config, s: State, hi: Side, c: nat)
    requires c < |s.conns|
  {
    && !cfg.atomicReply
    && (s.Get(hi).GroupDone() || s.conns[c].requestReset || s.conns[c].byDialler != Open)
  }

  /** Where a granted connection is on the accepting side. */
  predicate GrantFate(cfg: Config, s: State, hi: Side, c: nat)
    requires c < |s.conns|
  {
    var p := s.Get(hi);
    s.conns[c].reply == Granted200 ==>
      || p.accept == Ready(c)
      || p.crossed == [c]
      || (p.crossed == [] && p.accept.Finished?)
      || Lost(cfg, s, hi, c)
  }

  /** Only the peer with the smaller ID gets a 200. */
  predicate GrantedToSmaller(s: State, hi: Side, c: nat)
    requires c < |s.conns|
  {
    s.conns[c].reply == Granted200 ==> s.conns[c].dialler == hi.Other()
  }

  /** A request is only reset by a dialler that is not going to deliver it. */
  predicate ResetMeansDone(s: State, c: nat)
    requires c < |s.conns|
  {
    var p := s.Get(s.conns[c].dialler);
    s.conns[c].requestReset ==>
      p.GroupDone() || (p.crossed != [] && p.crossed != [c])
  }

  predicate OneGrant(cfg: Config, s: State) {
    cfg.atomicReply ==>
      forall c, d | 0 <= c < |s.conns| && 0 <= d < |s.conns| ::
        s.conns[c].reply == Granted200 && s.conns[d].reply == Granted200 ==> c == d
  }

  predicate Grants(cfg: Config, s: State, hi: Side) {
    && (forall c :: 0 <= c < |s.conns| ==> GrantedToSmaller(s, hi, c))
    && (forall c :: 0 <= c < |s.conns| ==> GrantFate(cfg, s, hi, c))
    && (forall c :: 0 <= c < |s.conns| ==> ResetMeansDone(s, c))
    && OneGrant(cfg, s)
  }

  /** The larger ID's dial loops never get to hand anything over, so whatever crossed on
      that side came from its accept loop. */
  lemma LargerOnlyAccepts(cfg: Config, s: State, hi: Side)
    requires Ownership(s) && forall c :: 0 <= c < |s.conns| ==> GrantedToSmaller(s, hi, c)
    ensures !s.Get(hi).dialPrivate.Ready? && !s.Get(hi).dialPublic.Ready?
    ensures s.Get(hi).crossed != [] ==> s.Get(hi).accept == Finished(false)
    ensures !s.Get(hi.Other()).accept.Ready?
  {
    assert HoldsOwn(s, hi, DialPrivate) && HoldsOwn(s, hi, DialPublic);
    assert HoldsOwn(s, hi.Other(), AcceptLoop);
    assert CallConsistent(s, hi);
    forall c | 0 <= c < |s.conns| && s.conns[c].reply == Granted200
      ensures LoopOf(s.conns[c], hi) == AcceptLoop && LoopOf(s.conns[c], hi.Other()) != AcceptLoop
    {
      assert GrantedToSmaller(s, hi, c) && WellFormedConn(s.conns[c]);
    }
  }

  // What no step undoes.

  lemma PeerMonotone(cfg: Config, s: State, a: Action, sd: Side)
    requires Enabled(cfg, s, a)
    ensures s.Get(sd).GroupDone() ==> Apply(cfg, s, a).Get(sd).GroupDone()
    ensures sd != a.side ==> Apply(cfg, s, a).Get(sd) == s.Get(sd)
    ensures a.HandOver? || Apply(cfg, s, a).Get(sd).crossed == s.Get(sd).crossed
  {
    if IsMove(a) {
      var c, ph := MovesAreMoves(cfg, s, a);
    }
  }

  lemma ConnMonotone(cfg: Config, s: State, a: Action, c: nat)
    requires Enabled(cfg, s, a) && c < |s.conns|
    ensures c < |Apply(cfg, s, a).conns|
    ensures var c0 := s.conns[c]; var c1 := Apply(cfg, s, a).conns[c];
      && c1.dialler == c0.dialler && c1.loop == c0.loop
      && (c0.requestReset ==> c1.requestReset)
      && (c0.byDialler != Open ==> c1.byDialler != Open)
      && (c1.requestReset && !c0.requestReset ==> a.ResetRequest? && s.Get(a.side).Loop(a.loop) == Shaking(c))
      && (c1.reply != c0.reply ==>
            (a.Answer? || a.AnswerLost?) && s.Get(a.side).accept == Shaking(c) && c1.reply == AnswerFor(cfg, c0))
  {
    if a.Answer? || a.AnswerLost? {
      AnswerChanges(cfg, s, a, c);
    } else {
      OthersKeepReply(cfg, s, a, c);
    }
  }

  lemma AnswerChanges(cfg: Config, s: State, a: Action, c: nat)
    requires Enabled(cfg, s, a) && c < |s.conns| && (a.Answer? || a.AnswerLost?)
    ensures c < |Apply(cfg, s, a).conns|
    ensures var c0 := s.conns[c]; var c1 := Apply(cfg, s, a).conns[c];
      && c1.dialler == c0.dialler && c1.loop == c0.loop && c1.requestReset == c0.requestReset
      && (c0.byDialler != Open ==> c1.byDialler != Open)
      && (c1.reply != c0.reply ==> s.Get(a.side).accept == Shaking(c) && c1.reply == AnswerFor(cfg, c0))
  {
  }

  lemma OthersKeepReply(cfg: Config, s: State, a: Action, c: nat)
    requires Enabled(cfg, s, a) && c < |s.conns| && !a.Answer? && !a.AnswerLost?
    ensures c < |Apply(cfg, s, a).conns|
    ensures var c0 := s.conns[c]; var c1 := Apply(cfg, s, a).conns[c];
      && c1.dialler == c0.dialler && c1.loop == c0.loop && c1.reply == c0.reply
      && (c0.requestReset ==> c1.requestReset)
      && (c0.byDialler != Open ==> c1.byDialler != Open)
      && (c1.requestReset && !c0.requestReset ==> a.ResetRequest? && s.Get(a.side).Loop(a.loop) == Shaking(c))
  {
    if IsMove(a) {
      var c1, ph := MovesAreMoves(cfg, s, a);
    }
  }

  lemma NewConn(cfg: Config, s: State, a: Action, c: nat)
    requires Enabled(cfg, s, a) && |s.conns| <= c < |Apply(cfg, s, a).conns|
    ensures !Apply(cfg, s, a).conns[c].requestReset && Apply(cfg, s, a).conns[c].reply == NoReply
  {
  }

  lemma GrantedStep(cfg: Config, s: State, a: Action, hi: Side, c: nat)
    requires cfg.Wins(hi) && Enabled(cfg, s, a) && c < |Apply(cfg, s, a).conns|
    requires HoldsOwn(s, a.side, AcceptLoop)
    requires c < |s.conns| ==> WellFormedConn(s.conns[c])
    requires c < |s.conns| ==> GrantedToSmaller(s, hi, c)
    ensures GrantedToSmaller(Apply(cfg, s, a), hi, c)
  {
    if c < |s.conns| {
      ConnMonotone(cfg, s, a, c);
      LessIsTotal(cfg.Id(hi), cfg.Id(hi.Other()));
    } else {
      NewConn(cfg, s, a, c);
    }
  }

  lemma ResetStep(cfg: Config, s: State, a: Action, c: nat)
    requires Enabled(cfg, s, a) && c < |Apply(cfg, s, a).conns|
    requires c < |s.conns| ==> ResetMeansDone(s, c)
    requires forall l :: HoldsOwn(s, a.side, l)
    requires CallConsistent(s, a.side)
    ensures ResetMeansDone(Apply(cfg, s, a), c)
  {
    if c < |s.conns| {
      ConnMonotone(cfg, s, a, c);
      PeerMonotone(cfg, s, a, s.conns[c].dialler);
      if a.HandOver? || a.ResetRequest? {
        assert HoldsOwn(s, a.side, a.loop);
      }
    } else {
      NewConn(cfg, s, a, c);
    }
  }

  lemma FateOfOthersStep(cfg: Config, s: State, a: Action, hi: Side, c: nat)
    requires Enabled(cfg, s, a) && c < |s.conns| && GrantFate(cfg, s, hi, c)
    requires a.side != hi || !(a.Answer? || a.AnswerLost? || a.HandOver? || a.GiveUp?)
    requires s.conns[c].reply == Apply(cfg, s, a).conns[c].reply
    ensures GrantFate(cfg, Apply(cfg, s, a), hi, c)
  {
    ConnMonotone(cfg, s, a, c);
    PeerMonotone(cfg, s, a, hi);
  }

  /** Answering: nothing can have been granted before without having been lost, since an
      accept loop that granted a connection either hands it over or ends. */
  lemma FateOfAnswerStep(cfg: Config, s: State, a: Action, hi: Side, c: nat)
    requires Enabled(cfg, s, a) && c < |s.conns| && GrantFate(cfg, s, hi, c)
    requires a.side == hi && (a.Answer? || a.AnswerLost?)
    requires s.Get(hi).crossed == [] && !s.Get(hi).attemptsCancelled
    ensures GrantFate(cfg, Apply(cfg, s, a), hi, c)
  {
    ConnMonotone(cfg, s, a, c);
    PeerMonotone(cfg, s, a, hi);
  }

  lemma FateOfHandOverStep(cfg: Config, s: State, a: Action, hi: Side, c: nat)
    requires Enabled(cfg, s, a) && c < |s.conns| && GrantFate(cfg, s, hi, c)
    requires a.side == hi && (a.HandOver? || a.GiveUp?) && a.loop == AcceptLoop
    requires s.Get(hi).crossed == []
    ensures GrantFate(cfg, Apply(cfg, s, a), hi, c)
  {
    ConnMonotone(cfg, s, a, c);
    PeerMonotone(cfg, s, a, hi);
  }

  lemma FateStep(cfg: Config, s: State, a: Action, hi: Side, c: nat)
    requires cfg.Wins(hi) && Enabled(cfg, s, a) && c < |s.conns|
    requires Ownership(s) && Grants(cfg, s, hi)
    ensures GrantFate(cfg, Apply(cfg, s, a), hi, c)
  {
    LargerOnlyAccepts(cfg, s, hi);
    assert GrantFate(cfg, s, hi, c) && CallConsistent(s, hi);
    ConnMonotone(cfg, s, a, c);
    if a.side == hi && (a.Answer? || a.AnswerLost?) {
      FateOfAnswerStep(cfg, s, a, hi, c);
    } else if a.side == hi && (a.HandOver? || a.GiveUp?) {
      FateOfHandOverStep(cfg, s, a, hi, c);
    } else if s.conns[c].reply == Apply(cfg, s, a).conns[c].reply {
      FateOfOthersStep(cfg, s, a, hi, c);
    } else {
      assert HoldsOwn(s, a.side, AcceptLoop) && WellFormedConn(s.conns[c]);
      LessIsTotal(cfg.Id(hi), cfg.Id(hi.Other()));
    }
  }

  lemma OneGrantStep(cfg: Config, s: State, a: Action, hi: Side)
    requires cfg.Wins(hi) && Enabled(cfg, s, a) && Ownership(s) && Grants(cfg, s, hi)
    ensures OneGrant(cfg, Apply(cfg, s, a))
  {
    var s' := Apply(cfg, s, a);
    LargerOnlyAccepts(cfg, s, hi);
    LessIsTotal(cfg.Id(hi), cfg.Id(hi.Other()));
    forall c, d | 0 <= c < |s'.conns| && 0 <= d < |s'.conns| && cfg.atomicReply
      ensures s'.conns[c].reply == Granted200 && s'.conns[d].reply == Granted200 ==> c == d
    {
      if c < |s.conns| && d < |s.conns| {
        ConnMonotone(cfg, s, a, c);
        ConnMonotone(cfg, s, a, d);
        assert HoldsOwn(s, a.side, AcceptLoop);
        assert WellFormedConn(s.conns[c]) && WellFormedConn(s.conns[d]);
        assert GrantFate(cfg, s, hi, c) && GrantFate(cfg, s, hi, d);
      } else {
        NewConn(cfg, s, a, if c < |s.conns| then d else c);
      }
    }
  }

  lemma GrantsStep(cfg: Config, s: State, a: Action, hi: Side)
    requires cfg.Wins(hi) && Enabled(cfg, s, a) && Ownership(s) && Grants(cfg, s, hi)
    ensures Grants(cfg, Apply(cfg, s, a), hi)
  {
    var s' := Apply(cfg, s, a);
    assert CallConsistent(s, a.side) && HoldsOwn(s, a.side, AcceptLoop);
    forall c | 0 <= c < |s'.conns|
      ensures GrantedToSmaller(s', hi, c) && GrantFate(cfg, s', hi, c) && ResetMeansDone(s', c)
    {
      if c < |s.conns| {
        FateStep(cfg, s, a, hi, c);
        assert WellFormedConn(s.conns[c]) && ResetMeansDone(s, c) && GrantedToSmaller(s, hi, c);
      } else {
        NewConn(cfg, s, a, c);
      }
      GrantedStep(cfg, s, a, hi, c);
      ResetStep(cfg, s, a, c);
    }
    OneGrantStep(cfg, s, a, hi);
  }

  // ------------------------------------------------------------------ all runs

  /** Every state that any interleaving can reach keeps both invariants. */
  lemma {:induction false} RunsKeepInvariants(cfg: Config, acts: seq<Action>, hi: Side)
    requires cfg.Wins(hi) && Run(cfg, acts).Some?
    ensures Ownership(Run(cfg, acts).value)
    ensures Grants(cfg, Run(cfg, acts).value, hi)
  {
    if acts == [] {
      OwnershipInit(cfg);
    } else {
      var prev := Run(cfg, acts[..|acts| - 1]).value;
      RunsKeepInvariants(cfg, acts[..|acts| - 1], hi);
      OwnershipStep(cfg, prev, acts[|acts| - 1]);
      GrantsStep(cfg, prev, acts[|acts| - 1], hi);
    }
  }

  /** Some interleaving leads to this state. */
  ghost predicate Reachable(cfg: Config, s: State) {
    exists acts :: Run(cfg, acts) == Some(s)
  }

  lemma ReachableKeepsInvariants(cfg: Config, s: State, hi: Side)
    requires cfg.Wins(hi) && Reachable(cfg, s)
    ensures Ownership(s) && Grants(cfg, s, hi)
  {
    var acts :| Run(cfg, acts) == Some(s);
    RunsKeepInvariants(cfg, acts, hi);
  }

  /** `side`'s Connect is back and returned connection `c`. */
  predicate Connected(s: State, side: Side, c: nat) {
    s.Get(side).call == Returned(Some(c), false)
  }

  /** The larger ID wins only by accepting and the smaller only by dialling; what is
      returned was granted and has not been closed by the side that returns it. */
  lemma WinningDirection(cfg: Config, s: State, hi: Side, side: Side, c: nat)
    requires cfg.Wins(hi) && Reachable(cfg, s)
    requires Connected(s, side, c)
    ensures
      && c < |s.conns|
      && s.conns[c].dialler == hi.Other() && s.conns[c].taken
      && s.conns[c].reply == Granted200
      && s.conns[c].ClosedBy(side) == Open
  {
    ReachableKeepsInvariants(cfg, s, hi);
    assert CallConsistent(s, side);
    assert WellFormedConn(s.conns[c]) && GrantedToSmaller(s, hi, c);
  }

  /** Exactly one value crossed the channel, and every other connection that the side
      obtained from Dial or Accept has been closed by one of its ends. */
  lemma SingleSurvivor(cfg: Config, s: State, hi: Side, side: Side, c: nat)
    requires cfg.Wins(hi) && Reachable(cfg, s)
    requires Connected(s, side, c)
    ensures s.Get(side).crossed == [c]
    ensures forall d | 0 <= d < |s.conns| && d != c && Obtained(s.conns[d], side) :: s.conns[d].Closed()
  {
    ReachableKeepsInvariants(cfg, s, hi);
    assert CallConsistent(s, side);
    forall d | 0 <= d < |s.conns| && d != c && Obtained(s.conns[d], side) ensures s.conns[d].Closed() {
      assert Accounted(s, side, d);
    }
  }

  /** Agreement in every interleaving: if both calls return a connection it is the same
      one, and it is still open at both ends.  It needs that a 200 the dialler has seen
      was really written, or that neither caller gave up. */
  lemma Agreement(cfg: Config, s: State, hi: Side, c: nat, d: nat)
    requires cfg.Wins(hi) && Reachable(cfg, s)
    requires Connected(s, hi, c) && Connected(s, hi.Other(), d)
    requires cfg.atomicReply || (!s.left.parentCancelled && !s.right.parentCancelled)
    ensures c == d && c < |s.conns|
    ensures !s.conns[c].Closed()
  {
    ReachableKeepsInvariants(cfg, s, hi);
    WinningDirection(cfg, s, hi, hi, c);
    WinningDirection(cfg, s, hi, hi.Other(), d);
    assert CallConsistent(s, hi) && CallConsistent(s, hi.Other());
    assert GrantFate(cfg, s, hi, d) && ResetMeansDone(s, d);
  }

  /** With an atomic reply at most one connection is ever granted, so a connection that
      its dialler abandoned after the 200 leaves that dialler with nothing to return. */
  lemma AbandonedGrant(cfg: Config, s: State, hi: Side, c: nat)
    requires cfg.Wins(hi) && cfg.atomicReply && Reachable(cfg, s)
    requires c < |s.conns|
    requires s.conns[c].reply == Granted200
    requires s.conns[c].byDialler != Open
    ensures forall d :: !Connected(s, hi.Other(), d)
    ensures forall d :: Connected(s, hi, d) ==> d == c
  {
    ReachableKeepsInvariants(cfg, s, hi);
    forall d, side | Connected(s, side, d) ensures d == c && side == hi {
      WinningDirection(cfg, s, hi, side, d);
      assert GrantedToSmaller(s, hi, c);
    }
  }

  /** Connect comes back with neither a connection nor an error (connector.go:112-113) only
      when its caller's context was cancelled. */
  lemma NothingWithoutError(cfg: Config, s: State, hi: Side, side: Side)
    requires cfg.Wins(hi) && Reachable(cfg, s)
    requires s.Get(side).call == Returned(None, false)
    ensures s.Get(side).parentCancelled
  {
    ReachableKeepsInvariants(cfg, s, hi);
    assert CallConsistent(s, side);
  }
}
