/** Setting up connections between a host and its peers (internal/registar/server.go,
    peer.go, client.go, control/controller.go, control/agent.go).

    The registar keeps one control stream per agent, writes commands to it and reads the
    replies.  A setup holds the host's lock, asks both agents to connect directly, and may
    fall back to a relay session.  Any number of hosts, peers and setups interleave. */
module RegistarErrors {
  /** An error value as errors.Is sees it: through %w and through errors.Join. */
  datatype Error = Nil | ConnectFailed | OtherError | Wrapped(inner: Error) | Joined(left: Error, right: Error)

  predicate IsConnectFailed(e: Error) {
    match e
    case Nil => false
    case ConnectFailed => true
    case OtherError => false
    case Wrapped(inner) => IsConnectFailed(inner)
    case Joined(l, r) => IsConnectFailed(l) || IsConnectFailed(r)
  }

  /** errors.Join drops nil errors. */
  function Join(a: Error, b: Error): Error {
    if a == Nil && b == Nil then Nil else Joined(a, b)
  }

  /** peer.go:79-89 */
  function JoinErrors(host: Error, peer: Error): Error {
    var err := if host != Nil then Wrapped(host) else Nil;
    if peer != Nil then Join(err, Wrapped(peer)) else err
  }

  /** peer.go:47-57 */
  function InitP2P(host: Error, peer: Error): Error {
    if host == Nil && peer == Nil then Nil
    else if IsConnectFailed(host) && IsConnectFailed(peer) then ConnectFailed
    else JoinErrors(host, peer)
  }

  /** The server falls back to a relay when either side could not connect, not only when
      both could not, as the comment in peer.go:52 has it. */
  lemma {:induction false} FallbackWhenEitherFailed(host: Error, peer: Error)
    ensures IsConnectFailed(InitP2P(host, peer)) <==> IsConnectFailed(host) || IsConnectFailed(peer)
    ensures InitP2P(host, peer) == Nil <==> host == Nil && peer == Nil
    ensures JoinErrors(host, peer) == Nil <==> host == Nil && peer == Nil
  {
    assert IsConnectFailed(Joined(Nil, Wrapped(peer))) == IsConnectFailed(Wrapped(peer)) == IsConnectFailed(peer);
    assert IsConnectFailed(Joined(Wrapped(host), Wrapped(peer))) == (IsConnectFailed(Wrapped(host)) || IsConnectFailed(Wrapped(peer)));
  }
}

module RegistarSetup {
  import opened Wrappers
  import opened RegistarErrors

  type Key = string

  /** A command to one agent on behalf of one setup: connect directly, or via a session. */
  datatype Cmd = Cmd(setup: nat, session: Option<nat>)

  datatype Status = StatusOk | StatusConnectFailed | StatusError

  datatype Reply = Reply(cmd: Cmd, status: Status)

  /** Where an agent's Serve loop is. */
  datatype Agent =
    | Serving
    | Handling(cmd: Cmd, presented: bool)   // `presented`: its relay stream reached the server
    | Answering(cmd: Cmd, status: Status)
    | Stopped

  /** A control stream with the agent at its other end.  `delivered` lists the commands
      whose connection went into the agent's `conns` channel, `confirmed` those that were also
      answered with OK on the stream, `declined` those that the agent answered with connect
      failed. */
  datatype Stream = Stream(
    registered: Option<Key>,    // the key that its agent registered as host, none for a peer
    key: Option<Key>,           // the same, until the cleanup
    writable: bool,
    readable: bool,
    issued: seq<Cmd>,           // every command written so far
    taken: nat,                 // how many of them the agent has read
    agent: Agent,
    replies: seq<Reply>,
    delivered: set<Cmd>,
    confirmed: set<Cmd>,
    declined: set<Cmd>)
  {
    /** How many commands have no reply that was read: not taken yet, in the agent's
        hands, or answered on the stream. */
    function Outstanding(): int {
      |issued| - taken + (if agent.Handling? || agent.Answering? then 1 else 0) + |replies|
    }

    predicate IsOutstanding(cmd: Cmd)
      requires taken <= |issued|
    {
      || cmd in issued[taken..]
      || ((agent.Handling? || agent.Answering?) && cmd == agent.cmd)
      || exists r :: r in replies && r.cmd == cmd
    }
  }

  datatype End = HostEnd | PeerEnd

  /** One ConnectTo or ConnectViaRelay call. */
  datatype Call = Unsent | Sent | Back(err: Error)

  datatype Outcome = ByP2P | ByRelay(session: nat) | SetupFailed

  datatype Phase =
    | Queued
    | Active(session: Option<nat>, hostCall: Call, peerCall: Call)
    | Over(outcome: Outcome)

  /** `key` is what the peer asked for. */
  datatype Setup = Setup(key: Key, host: nat, peer: nat, phase: Phase) {
    function StreamAt(e: End): nat {
      if e == HostEnd then host else peer
    }

    function CallAt(e: End): Call
      requires phase.Active?
    {
      if e == HostEnd then phase.hostCall else phase.peerCall
    }

    function SetCall(e: End, c: Call): Setup
      requires phase.Active?
    {
      if e == HostEnd then this.(phase := phase.(hostCall := c)) else this.(phase := phase.(peerCall := c))
    }
  }

  datatype State = State(
    streams: seq<Stream>,
    hosts: map<Key, nat>,
    locks: map<nat, nat>,       // a host's stream, and the setup that holds its lock
    setups: seq<Setup>,
    p2pConns: nat,
    relayConns: nat,
    connected: seq<nat>,        // setups that reached PeerConnected
    sessions: seq<nat>,         // session IDs are numbers; which setup drew each
    arrivals: seq<(nat, nat)>)  // (session, stream of the agent) in the order of arrival

  datatype Action =
    | RegisterHost(key: Key)
    | HostGone(stream: nat)
    | JoinHost(key: Key)
    | Lock(setup: nat)
    | Write(setup: nat, end: End)
    | WriteFails(setup: nat, end: End)
    | ReadReply(setup: nat, end: End, ahead: nat)
    | ReadFails(setup: nat, end: End)
    | Finish(setup: nat)
    | TakeCommand(stream: nat)
    | Present(stream: nat)
    | Succeed(stream: nat)
    | Decline(stream: nat)
    | HandlerFails(stream: nat)
    | SendReply(stream: nat)
    | AgentStops(stream: nat)
    | Break(stream: nat, write: bool, read: bool)

  /** Setup `c` has a call at end `e` in state `call`, on an existing stream. */
  predicate Calling(s: State, c: nat, e: End, call: Call) {
    && c < |s.setups| && s.setups[c].phase.Active? && s.setups[c].CallAt(e) == call
    && s.setups[c].StreamAt(e) < |s.streams|
  }

  predicate Enabled(s: State, a: Action) {
    match a
    case RegisterHost(key) => key !in s.hosts
    case HostGone(i) => i < |s.streams| && s.streams[i].key.Some? && !s.streams[i].writable
    case JoinHost(key) => key in s.hosts
    case Lock(c) => c < |s.setups| && s.setups[c].phase == Queued && s.setups[c].host !in s.locks
    case Write(c, e) => Calling(s, c, e, Unsent) && s.streams[s.setups[c].StreamAt(e)].writable
    case WriteFails(c, e) => Calling(s, c, e, Unsent) && !s.streams[s.setups[c].StreamAt(e)].writable
    case ReadReply(c, e, ahead) =>
      && Calling(s, c, e, Sent) && s.streams[s.setups[c].StreamAt(e)].readable
      && ahead < |s.streams[s.setups[c].StreamAt(e)].replies|
    case ReadFails(c, e) => Calling(s, c, e, Sent) && !s.streams[s.setups[c].StreamAt(e)].readable
    case Finish(c) =>
      c < |s.setups| && s.setups[c].phase.Active? && s.setups[c].phase.hostCall.Back? && s.setups[c].phase.peerCall.Back?
    case TakeCommand(i) => i < |s.streams| && s.streams[i].agent == Serving && s.streams[i].taken < |s.streams[i].issued|
    case Present(i) =>
      && i < |s.streams| && s.streams[i].agent.Handling?
      && !s.streams[i].agent.presented && s.streams[i].agent.cmd.session.Some?
    case Succeed(i) =>
      && i < |s.streams| && s.streams[i].agent.Handling?
      && (s.streams[i].agent.cmd.session.Some? ==> s.streams[i].agent.presented)
    case Decline(i) => i < |s.streams| && s.streams[i].agent.Handling? && s.streams[i].agent.cmd.session.None?
    case HandlerFails(i) => i < |s.streams| && s.streams[i].agent.Handling?
    case SendReply(i) => i < |s.streams| && s.streams[i].agent.Answering?
    case AgentStops(i) => i < |s.streams|
    case Break(i, _, _) => i < |s.streams|
  }

  /** controller.go:54-62 and 81-85: what a reply means to the caller. */
  function ErrorOf(r: Reply): Error {
    match r.status
    case StatusOk => Nil
    case StatusConnectFailed => if r.cmd.session.None? then ConnectFailed else OtherError
    case StatusError => OtherError
  }

  function NewStream(key: Option<Key>): Stream {
    Stream(key, key, true, true, [], 0, Serving, [], {}, {}, {})
  }

  function SetStream(s: State, i: nat, st: Stream): State
    requires i < |s.streams|
  {
    s.(streams := s.streams[i := st])
  }

  function Returns(s: State, c: nat, e: End, err: Error): State
    requires c < |s.setups| && s.setups[c].phase.Active?
  {
    s.(setups := s.setups[c := s.setups[c].SetCall(e, Back(err))])
  }

  /** server.go:236-260, with the host's lock released on the way out. */
  function FinishSetup(s: State, c: nat): State
    requires Enabled(s, Finish(c))
  {
    var x := s.setups[c];
    var h, p := x.phase.hostCall.err, x.phase.peerCall.err;
    if x.phase.session.None? then
      var err := InitP2P(h, p);
      if err == Nil then Ends(s, c, ByP2P).(p2pConns := s.p2pConns + 1, connected := s.connected + [c])
      else if IsConnectFailed(err) then
        s.(setups := s.setups[c := x.(phase := Active(Some(|s.sessions|), Unsent, Unsent))], sessions := s.sessions + [c])
      else Ends(s, c, SetupFailed)
    else if JoinErrors(h, p) == Nil then
      Ends(s, c, ByRelay(x.phase.session.value)).(relayConns := s.relayConns + 1, connected := s.connected + [c])
    else Ends(s, c, SetupFailed)
  }

  function Ends(s: State, c: nat, o: Outcome): State
    requires c < |s.setups|
  {
    s.(setups := s.setups[c := s.setups[c].(phase := Over(o))], locks := s.locks - {s.setups[c].host})
  }

  function Apply(s: State, a: Action): State
    requires Enabled(s, a)
  {
    match a
    case RegisterHost(key) =>
      s.(streams := s.streams + [NewStream(Some(key))], hosts := s.hosts[key := |s.streams|])
    case HostGone(i) =>
      SetStream(s, i, s.streams[i].(key := None)).(hosts := s.hosts - {s.streams[i].key.value})
    case JoinHost(key) =>
      s.(streams := s.streams + [NewStream(None)], setups := s.setups + [Setup(key, s.hosts[key], |s.streams|, Queued)])
    case Lock(c) =>
      s.(setups := s.setups[c := s.setups[c].(phase := Active(None, Unsent, Unsent))],
         locks := s.locks[s.setups[c].host := c])
    case Write(c, e) =>
      var i := s.setups[c].StreamAt(e);
      var st := s.streams[i];
      s.(streams := s.streams[i := st.(issued := st.issued + [Cmd(c, s.setups[c].phase.session)])],
         setups := s.setups[c := s.setups[c].SetCall(e, Sent)])
    case WriteFails(c, e) => Returns(s, c, e, OtherError)
    case ReadReply(c, e, ahead) =>
      // the call's own buffered reader takes in `ahead` more replies and is thrown away
      var i := s.setups[c].StreamAt(e);
      var st := s.streams[i];
      Returns(SetStream(s, i, st.(replies := st.replies[1 + ahead..])), c, e, ErrorOf(st.replies[0]))
    case ReadFails(c, e) => Returns(s, c, e, OtherError)
    case Finish(c) => FinishSetup(s, c)
    case TakeCommand(i) =>
      var st := s.streams[i];
      SetStream(s, i, st.(agent := Handling(st.issued[st.taken], false), taken := st.taken + 1))
    case Present(i) =>
      var st := s.streams[i];
      SetStream(s, i, st.(agent := Handling(st.agent.cmd, true))).(
        arrivals := s.arrivals + [(st.agent.cmd.session.value, i)])
    case Succeed(i) =>
      var st := s.streams[i];
      SetStream(s, i, st.(agent := Answering(st.agent.cmd, StatusOk), delivered := st.delivered + {st.agent.cmd}))
    case Decline(i) =>
      var st := s.streams[i];
      SetStream(s, i, st.(agent := Answering(st.agent.cmd, StatusConnectFailed), declined := st.declined + {st.agent.cmd}))
    case HandlerFails(i) => SetStream(s, i, s.streams[i].(agent := Answering(s.streams[i].agent.cmd, StatusError)))
    case SendReply(i) =>
      var st := s.streams[i];
      SetStream(s, i, st.(agent := Serving, replies := st.replies + [Reply(st.agent.cmd, st.agent.status)],
                          confirmed := st.confirmed + if st.agent.status == StatusOk then {st.agent.cmd} else {}))
    case AgentStops(i) => SetStream(s, i, s.streams[i].(agent := Stopped))
    case Break(i, w, r) =>
      var st := s.streams[i];
      SetStream(s, i, st.(writable := st.writable && !w, readable := st.readable && !r))
  }

  const INIT := State([], map[], map[], [], 0, 0, [], [], [])

  /** The state after some more actions, or None when one of them was not possible. */
  function Continue(s: State, acts: seq<Action>): Option<State> {
    if acts == [] then Some(s)
    else
      var prev := Continue(s, acts[..|acts| - 1]);
      if prev.Some? && Enabled(prev.value, acts[|acts| - 1])
      then Some(Apply(prev.value, acts[|acts| - 1]))
      else None
  }

  function Run(acts: seq<Action>): Option<State> {
    Continue(INIT, acts)
  }

  // ------------------------------------------------------------------ who uses a stream

  /** Setups refer to existing streams, and a peer's stream belongs to one setup only. */
  ghost predicate RolesSound(s: State) {
    && (forall c :: 0 <= c < |s.setups| ==> s.setups[c].host < |s.streams| && s.setups[c].peer < |s.streams|)
    && (forall c, d :: 0 <= c < |s.setups| && 0 <= d < |s.setups| ==> s.setups[c].peer != s.setups[d].host)
    && (forall c, d :: 0 <= c < d < |s.setups| ==> s.setups[c].peer != s.setups[d].peer)
    && (forall k, c :: k in s.hosts && 0 <= c < |s.setups| ==> s.hosts[k] != s.setups[c].peer)
  }

  /** The host table and the registered streams agree, so the cleanup of a stream that is
      gone removes that stream's entry and never a newer host's. */
  ghost predicate HostsSound(s: State) {
    && (forall k :: k in s.hosts ==> s.hosts[k] < |s.streams| && s.streams[s.hosts[k]].key == Some(k))
    && (forall i :: 0 <= i < |s.streams| && s.streams[i].key.Some? ==>
          s.streams[i].key.value in s.hosts && s.hosts[s.streams[i].key.value] == i)
  }

  /** The active setup of a host is the holder of its lock. */
  ghost predicate LocksSound(s: State) {
    && (forall i :: i in s.locks ==>
          s.locks[i] < |s.setups| && s.setups[s.locks[i]].host == i && s.setups[s.locks[i]].phase.Active?)
    && (forall c :: 0 <= c < |s.setups| && s.setups[c].phase.Active? ==>
          s.setups[c].host in s.locks && s.locks[s.setups[c].host] == c)
  }

  ghost predicate Sound(s: State) {
    RolesSound(s) && HostsSound(s) && LocksSound(s)
  }

  predicate Uses(s: State, c: nat, e: End, i: nat) {
    c < |s.setups| && s.setups[c].phase.Active? && s.setups[c].StreamAt(e) == i
  }

  /** At most one call at a time concerns a stream. */
  lemma OneUser(s: State, c: nat, e: End, d: nat, f: End, i: nat)
    requires Sound(s) && Uses(s, c, e, i) && Uses(s, d, f, i)
    ensures c == d && e == f
  {
  }

  predicate IsSetupStep(a: Action) {
    a.Lock? || a.Write? || a.WriteFails? || a.ReadReply? || a.ReadFails? || a.Finish?
  }

  predicate IsAgentStep(a: Action) {
    a.TakeCommand? || a.Present? || a.Succeed? || a.Decline? || a.HandlerFails? || a.SendReply? || a.AgentStops? || a.Break?
  }

  // What the kinds of step leave alone.

  lemma AgentFrame(s: State, a: Action)
    requires Enabled(s, a) && IsAgentStep(a)
    ensures var s' := Apply(s, a);
      && s'.setups == s.setups && s'.hosts == s.hosts && s'.locks == s.locks && s'.sessions == s.sessions
      && s'.connected == s.connected && s'.p2pConns == s.p2pConns && s'.relayConns == s.relayConns
      && |s'.streams| == |s.streams| && a.stream < |s.streams|
      && (forall i :: 0 <= i < |s.streams| && i != a.stream ==> s'.streams[i] == s.streams[i])
      && s'.streams[a.stream].key == s.streams[a.stream].key
      && s'.streams[a.stream].issued == s.streams[a.stream].issued
      && s.streams[a.stream].delivered <= s'.streams[a.stream].delivered
      && s.streams[a.stream].confirmed <= s'.streams[a.stream].confirmed
      && s.streams[a.stream].declined <= s'.streams[a.stream].declined
  {
  }

  lemma SetupFrame(s: State, a: Action)
    requires Enabled(s, a) && IsSetupStep(a)
    ensures var s' := Apply(s, a);
      && s'.hosts == s.hosts && |s'.setups| == |s.setups| && a.setup < |s.setups|
      && |s'.streams| == |s.streams| && s'.arrivals == s.arrivals
      && (forall c :: 0 <= c < |s.setups| && c != a.setup ==> s'.setups[c] == s.setups[c])
      && s'.setups[a.setup].host == s.setups[a.setup].host && s'.setups[a.setup].peer == s.setups[a.setup].peer
      && (forall i :: 0 <= i < |s.streams| ==>
            s'.streams[i].key == s.streams[i].key
            && s'.streams[i].delivered == s.streams[i].delivered && s'.streams[i].confirmed == s.streams[i].confirmed
            && s'.streams[i].declined == s.streams[i].declined
            && s'.streams[i].agent == s.streams[i].agent && s'.streams[i].taken == s.streams[i].taken)
  {
  }

  lemma NewFrame(s: State, a: Action)
    requires Enabled(s, a) && (a.RegisterHost? || a.JoinHost?)
    ensures var s' := Apply(s, a);
      && |s'.streams| == |s.streams| + 1 && s.streams == s'.streams[..|s.streams|]
      && s.setups <= s'.setups && |s'.setups| <= |s.setups| + 1 && s'.locks == s.locks
  {
  }

  lemma RolesNew(s: State, a: Action)
    requires Sound(s) && Enabled(s, a) && (a.RegisterHost? || a.JoinHost?)
    ensures RolesSound(Apply(s, a))
  {
    NewFrame(s, a);
  }

  lemma RolesStep(s: State, a: Action)
    requires Sound(s) && Enabled(s, a)
    ensures RolesSound(Apply(s, a))
  {
    if IsAgentStep(a) {
      AgentFrame(s, a);
    } else if IsSetupStep(a) {
      SetupFrame(s, a);
      assert forall c :: 0 <= c < |s.setups| ==>
        Apply(s, a).setups[c].host == s.setups[c].host && Apply(s, a).setups[c].peer == s.setups[c].peer;
    } else if a.HostGone? {
      assert Apply(s, a).setups == s.setups && |Apply(s, a).streams| == |s.streams|;
    } else {
      RolesNew(s, a);
    }
  }

  lemma HostsChange(s: State, a: Action)
    requires HostsSound(s) && Enabled(s, a) && (a.RegisterHost? || a.JoinHost? || a.HostGone?)
    ensures HostsSound(Apply(s, a))
  {
  }

  lemma HostsStep(s: State, a: Action)
    requires HostsSound(s) && Enabled(s, a)
    ensures HostsSound(Apply(s, a))
  {
    if IsAgentStep(a) {
      AgentFrame(s, a);
    } else if IsSetupStep(a) {
      SetupFrame(s, a);
    } else {
      HostsChange(s, a);
    }
  }

  /** Locks are taken and released with the phase of their setup. */
  lemma LocksFrame(s: State, a: Action)
    requires Enabled(s, a) && IsSetupStep(a)
    ensures var x, x' := s.setups[a.setup], Apply(s, a).setups[a.setup];
      || (a.Lock? && x.host !in s.locks && x'.phase.Active? && Apply(s, a).locks == s.locks[x.host := a.setup])
      || (x.phase.Active? && x'.phase.Active? && Apply(s, a).locks == s.locks)
      || (x.phase.Active? && x'.phase.Over? && Apply(s, a).locks == s.locks - {x.host})
  {
  }

  lemma LocksStep(s: State, a: Action)
    requires LocksSound(s) && Enabled(s, a)
    ensures LocksSound(Apply(s, a))
  {
    if IsAgentStep(a) {
      AgentFrame(s, a);
    } else if IsSetupStep(a) {
      SetupFrame(s, a);
      LocksFrame(s, a);
    } else if a.HostGone? {
      assert Apply(s, a).setups == s.setups && Apply(s, a).locks == s.locks;
    } else {
      NewFrame(s, a);
    }
  }

  lemma {:induction false} SoundStep(s: State, a: Action)
    requires Sound(s) && Enabled(s, a)
    ensures Sound(Apply(s, a))
  {
    RolesStep(s, a);
    HostsStep(s, a);
    LocksStep(s, a);
  }

  // ------------------------------------------------------------------ whose host it is

  /** The table refers to hosts by the key they registered, and every setup is for the host
      that registered the key its peer asked for. */
  ghost predicate KeysSound(s: State) {
    && (forall i :: 0 <= i < |s.streams| && s.streams[i].key.Some? ==> s.streams[i].registered == s.streams[i].key)
    && (forall c :: 0 <= c < |s.setups| ==> RightEnds(s, s.setups[c]))
  }

  predicate RightEnds(s: State, x: Setup) {
    && x.host < |s.streams| && s.streams[x.host].registered == Some(x.key)
    && x.peer < |s.streams| && s.streams[x.peer].registered == None
  }

  lemma StreamsStayRegistered(s: State, a: Action, i: nat)
    requires Enabled(s, a) && i < |s.streams|
    ensures i < |Apply(s, a).streams| && Apply(s, a).streams[i].registered == s.streams[i].registered
    ensures Apply(s, a).streams[i].key == s.streams[i].key || Apply(s, a).streams[i].key == None
  {
  }

  lemma SetupsStayTheirs(s: State, a: Action, c: nat)
    requires Enabled(s, a) && c < |s.setups|
    ensures c < |Apply(s, a).setups|
    ensures var x, x' := s.setups[c], Apply(s, a).setups[c]; x'.key == x.key && x'.host == x.host && x'.peer == x.peer
  {
  }

  lemma KeysStep(s: State, a: Action)
    requires HostsSound(s) && KeysSound(s) && Enabled(s, a)
    ensures KeysSound(Apply(s, a))
  {
    var s' := Apply(s, a);
    forall i | 0 <= i < |s'.streams| && s'.streams[i].key.Some? ensures s'.streams[i].registered == s'.streams[i].key {
      if i < |s.streams| {
        StreamsStayRegistered(s, a, i);
      }
    }
    forall c | 0 <= c < |s'.setups| ensures RightEnds(s', s'.setups[c]) {
      if c < |s.setups| {
        SetupsStayTheirs(s, a, c);
        StreamsStayRegistered(s, a, s.setups[c].host);
        StreamsStayRegistered(s, a, s.setups[c].peer);
      } else {
        NewSetup(s, a);
      }
    }
  }

  /** A peer that joins gets a setup with the host that has the key it asked for. */
  lemma NewSetup(s: State, a: Action)
    requires HostsSound(s) && KeysSound(s) && Enabled(s, a) && |Apply(s, a).setups| > |s.setups|
    ensures a.JoinHost? && |Apply(s, a).setups| == |s.setups| + 1
    ensures var x := Apply(s, a).setups[|s.setups|];
      && x.key == a.key && x.host < |s.streams| && s.streams[x.host].key == Some(a.key)
      && RightEnds(Apply(s, a), x)
  {
  }

  // ------------------------------------------------------------------ commands and replies

  /** A positive answer is only given for a command whose connection was delivered. */
  ghost predicate AnswersHonest(st: Stream) {
    && (st.agent.Answering? && st.agent.status == StatusOk ==> st.agent.cmd in st.delivered)
    && (forall r :: r in st.replies && r.status == StatusOk ==> r.cmd in st.confirmed)
    && st.confirmed <= st.delivered
  }

  /** No command is written twice; the agent works on the last one it took. */
  ghost predicate CommandsOrdered(st: Stream) {
    && st.taken <= |st.issued|
    && (st.agent.Handling? || st.agent.Answering? ==> st.taken > 0 && st.agent.cmd == st.issued[st.taken - 1])
    && (forall i, j :: 0 <= i < j < |st.issued| ==> st.issued[i] != st.issued[j])
  }

  /** A command on stream `i` came from a setup at one of its ends; while that setup is
      still at the same stage, its call there is no longer unsent. */
  ghost predicate CameFrom(s: State, i: nat, cmd: Cmd) {
    && cmd.setup < |s.setups|
    && (cmd.session.Some? ==> cmd.session.value < |s.sessions| && s.sessions[cmd.session.value] == cmd.setup)
    && var x := s.setups[cmd.setup];
       (i == x.host || i == x.peer)
       && x.phase != Queued
       && (x.phase.Active? && cmd.session == x.phase.session ==>
             x.CallAt(if i == x.host then HostEnd else PeerEnd) != Unsent)
       && (x.phase.Active? && cmd.session.Some? ==> x.phase.session == cmd.session)
  }

  /** Lockstep: while replies can be read, at most one command is outstanding, and it is
      the one that the stream's current user is waiting for. */
  ghost predicate InLockstep(s: State, i: nat)
    requires i < |s.streams| && CommandsOrdered(s.streams[i])
  {
    var st := s.streams[i];
    st.readable ==>
      st.Outstanding() <= 1 && forall cmd :: st.IsOutstanding(cmd) ==> exists e :: WaitsFor(s, i, cmd, e)
  }

  predicate WaitsFor(s: State, i: nat, cmd: Cmd, e: End) {
    Uses(s, cmd.setup, e, i) && s.setups[cmd.setup].CallAt(e) == Sent && s.setups[cmd.setup].phase.session == cmd.session
  }

  ghost predicate StreamSound(s: State, i: nat)
    requires i < |s.streams|
  {
    && AnswersHonest(s.streams[i])
    && CommandsOrdered(s.streams[i])
    && (forall cmd :: cmd in s.streams[i].issued ==> CameFrom(s, i, cmd))
    && InLockstep(s, i)
  }

  ghost predicate Delivered(s: State, i: nat, cmd: Cmd) {
    i < |s.streams| && cmd in s.streams[i].delivered
  }

  ghost predicate Confirmed(s: State, i: nat, cmd: Cmd) {
    i < |s.streams| && cmd in s.streams[i].confirmed
  }

  /** A setup's successful calls, and its success, mean confirmed deliveries at both ends. */
  ghost predicate SetupSound(s: State, c: nat)
    requires c < |s.setups|
  {
    var x := s.setups[c];
    match x.phase
    case Queued => true
    case Active(session, h, p) =>
      && (session.Some? ==> session.value < |s.sessions| && s.sessions[session.value] == c)
      && (h == Back(Nil) ==> Confirmed(s, x.host, Cmd(c, session)))
      && (p == Back(Nil) ==> Confirmed(s, x.peer, Cmd(c, session)))
    case Over(ByP2P) => Confirmed(s, x.host, Cmd(c, None)) && Confirmed(s, x.peer, Cmd(c, None))
    case Over(ByRelay(k)) =>
      && k < |s.sessions| && s.sessions[k] == c
      && Confirmed(s, x.host, Cmd(c, Some(k))) && Confirmed(s, x.peer, Cmd(c, Some(k)))
    case Over(SetupFailed) => true
  }

  /** The agent's steps move commands along without adding any. */
  lemma AgentKeepsOutstanding(s: State, a: Action)
    requires Enabled(s, a) && IsAgentStep(a) && CommandsOrdered(s.streams[a.stream])
    ensures CommandsOrdered(Apply(s, a).streams[a.stream])
    ensures var st, st' := s.streams[a.stream], Apply(s, a).streams[a.stream];
      st'.Outstanding() <= st.Outstanding() && forall cmd :: st'.IsOutstanding(cmd) ==> st.IsOutstanding(cmd)
  {
    var st, st' := s.streams[a.stream], Apply(s, a).streams[a.stream];
    if a.TakeCommand? {
      assert st.issued[st.taken..] == [st.issued[st.taken]] + st'.issued[st'.taken..];
    }
  }

  lemma AgentKeepsHonest(s: State, a: Action)
    requires Enabled(s, a) && IsAgentStep(a) && AnswersHonest(s.streams[a.stream])
    ensures AnswersHonest(Apply(s, a).streams[a.stream])
  {
  }

  lemma AgentKeepsStreams(s: State, a: Action, i: nat)
    requires Enabled(s, a) && IsAgentStep(a) && i < |s.streams| && StreamSound(s, i)
    ensures StreamSound(Apply(s, a), i)
  {
    var s' := Apply(s, a);
    AgentFrame(s, a);
    if i == a.stream {
      AgentKeepsOutstanding(s, a);
      AgentKeepsHonest(s, a);
    }
    forall cmd | cmd in s'.streams[i].issued ensures CameFrom(s', i, cmd) {
      assert CameFrom(s, i, cmd);
    }
    if s'.streams[i].readable {
      forall cmd | s'.streams[i].IsOutstanding(cmd) ensures exists e :: WaitsFor(s', i, cmd, e) {
        var e :| WaitsFor(s, i, cmd, e);
        assert WaitsFor(s', i, cmd, e);
      }
    }
  }

  /** A setup's step leaves the calls of other setups as they were. */
  lemma WaitsForKept(s: State, a: Action, i: nat, cmd: Cmd, e: End)
    requires Enabled(s, a) && IsSetupStep(a) && WaitsFor(s, i, cmd, e)
    requires cmd.setup == a.setup ==> (a.Write? || a.WriteFails? || a.ReadReply? || a.ReadFails?) && e != a.end
    ensures WaitsFor(Apply(s, a), i, cmd, e)
  {
    SetupFrame(s, a);
  }

  /** Calls that fail and setups that start, decide or end touch no stream. */
  lemma QuietCameFrom(s: State, a: Action, i: nat, cmd: Cmd)
    requires Enabled(s, a) && (a.Lock? || a.WriteFails? || a.ReadFails? || a.Finish?)
    requires CameFrom(s, i, cmd)
    ensures CameFrom(Apply(s, a), i, cmd)
  {
    SetupFrame(s, a);
  }

  lemma QuietKeepsStreams(s: State, a: Action, i: nat)
    requires Enabled(s, a) && (a.Lock? || a.WriteFails? || a.ReadFails? || a.Finish?)
    requires Sound(s) && i < |s.streams| && StreamSound(s, i)
    ensures i < |Apply(s, a).streams| && StreamSound(Apply(s, a), i)
  {
    var s' := Apply(s, a);
    SetupFrame(s, a);
    assert s'.streams == s.streams;
    forall cmd | cmd in s.streams[i].issued ensures CameFrom(s', i, cmd) {
      QuietCameFrom(s, a, i, cmd);
    }
    if s.streams[i].readable {
      forall cmd | s.streams[i].IsOutstanding(cmd) ensures exists e :: WaitsFor(s', i, cmd, e) {
        var e :| WaitsFor(s, i, cmd, e);
        if cmd.setup == a.setup && a.ReadFails? && e == a.end {
          assert false;
        }
        WaitsForKept(s, a, i, cmd, e);
      }
    }
  }

  lemma WriteCameFrom(s: State, a: Action, i: nat, cmd: Cmd)
    requires Enabled(s, a) && (a.Write? || a.ReadReply?) && CameFrom(s, i, cmd)
    ensures CameFrom(Apply(s, a), i, cmd)
  {
    SetupFrame(s, a);
  }

  /** The stream that a setup is about to write to is idle, if it can be read at all. */
  lemma IdleBeforeWrite(s: State, c: nat, e: End)
    requires Sound(s) && Enabled(s, Write(c, e)) && StreamSound(s, s.setups[c].StreamAt(e))
    ensures var st := s.streams[s.setups[c].StreamAt(e)];
      && (st.readable ==> forall cmd :: !st.IsOutstanding(cmd))
      && Cmd(c, s.setups[c].phase.session) !in st.issued
  {
    var i := s.setups[c].StreamAt(e);
    var st := s.streams[i];
    if st.readable {
      forall cmd | st.IsOutstanding(cmd) ensures false {
        var f :| WaitsFor(s, i, cmd, f);
        OneUser(s, c, e, cmd.setup, f, i);
      }
    }
  }

  lemma WriteKeepsStreams(s: State, a: Action, i: nat)
    requires Enabled(s, a) && a.Write? && Sound(s) && i < |s.streams| && StreamSound(s, i)
    requires a.setup < |s.setups| ==> SetupSound(s, a.setup)
    ensures i < |Apply(s, a).streams| && StreamSound(Apply(s, a), i)
  {
    var s' := Apply(s, a);
    SetupFrame(s, a);
    var x := s.setups[a.setup];
    var own := Cmd(a.setup, x.phase.session);
    if i == x.StreamAt(a.end) {
      IdleBeforeWrite(s, a.setup, a.end);
      assert s'.streams[i].issued == s.streams[i].issued + [own];
    }
    forall cmd | cmd in s'.streams[i].issued ensures CameFrom(s', i, cmd) {
      if cmd in s.streams[i].issued {
        WriteCameFrom(s, a, i, cmd);
      }
    }
    WriteLockstep(s, a, i);
  }

  lemma WriteLockstep(s: State, a: Action, i: nat)
    requires Enabled(s, a) && a.Write? && Sound(s) && i < |s.streams| && StreamSound(s, i)
    requires i < |Apply(s, a).streams| && CommandsOrdered(Apply(s, a).streams[i])
    ensures InLockstep(Apply(s, a), i)
  {
    var s' := Apply(s, a);
    var st, st' := s.streams[i], s'.streams[i];
    SetupFrame(s, a);
    if st'.readable {
      if i == s.setups[a.setup].StreamAt(a.end) {
        var own := Cmd(a.setup, s.setups[a.setup].phase.session);
        IdleBeforeWrite(s, a.setup, a.end);
        IdleIsEmpty(st);
        assert st'.issued[st'.taken..] == [own];
        assert WaitsFor(s', i, own, a.end);
      } else {
        forall cmd | st'.IsOutstanding(cmd) ensures exists e :: WaitsFor(s', i, cmd, e) {
          var e :| WaitsFor(s, i, cmd, e);
          WaitsForKept(s, a, i, cmd, e);
        }
      }
    }
  }

  lemma IdleIsEmpty(st: Stream)
    requires CommandsOrdered(st) && forall cmd :: !st.IsOutstanding(cmd)
    ensures st.Outstanding() == 0 && st.issued[st.taken..] == []
  {
    assert st.taken < |st.issued| ==> st.IsOutstanding(st.issued[st.taken..][0]);
    assert st.replies != [] ==> st.IsOutstanding(st.replies[0].cmd);
    assert st.agent.Handling? || st.agent.Answering? ==> st.IsOutstanding(st.agent.cmd);
  }

  /** The reply that a caller reads answers its own command, and it is the only one on the
      stream: throwing the call's buffered reader away loses nothing. */
  lemma ReadsOwnReply(s: State, c: nat, e: End, ahead: nat)
    requires Sound(s) && Enabled(s, ReadReply(c, e, ahead)) && StreamSound(s, s.setups[c].StreamAt(e))
    ensures var st := s.streams[s.setups[c].StreamAt(e)];
      && |st.replies| == 1 && ahead == 0 && st.Outstanding() == 1
      && st.replies[0].cmd == Cmd(c, s.setups[c].phase.session)
  {
    var i := s.setups[c].StreamAt(e);
    var st := s.streams[i];
    assert st.IsOutstanding(st.replies[0].cmd);
    var f :| WaitsFor(s, i, st.replies[0].cmd, f);
    OneUser(s, c, e, st.replies[0].cmd.setup, f, i);
  }

  lemma ReadKeepsStreams(s: State, a: Action, i: nat)
    requires Enabled(s, a) && a.ReadReply? && Sound(s) && i < |s.streams| && StreamSound(s, i)
    ensures i < |Apply(s, a).streams| && StreamSound(Apply(s, a), i)
  {
    var s' := Apply(s, a);
    var st, st' := s.streams[i], s'.streams[i];
    SetupFrame(s, a);
    forall cmd | cmd in st'.issued ensures CameFrom(s', i, cmd) {
      WriteCameFrom(s, a, i, cmd);
    }
    if i == s.setups[a.setup].StreamAt(a.end) {
      ReadsOwnReply(s, a.setup, a.end, a.ahead);
      assert st'.replies == [] && st'.Outstanding() == 0;
      assert st'.issued[st'.taken..] == [];
    } else if st'.readable {
      forall cmd | st'.IsOutstanding(cmd) ensures exists e :: WaitsFor(s', i, cmd, e) {
        var e :| WaitsFor(s, i, cmd, e);
        WaitsForKept(s, a, i, cmd, e);
      }
    }
  }

  lemma NewKeepsStreams(s: State, a: Action, i: nat)
    requires Enabled(s, a) && (a.RegisterHost? || a.JoinHost? || a.HostGone?) && i < |Apply(s, a).streams|
    requires i < |s.streams| ==> StreamSound(s, i)
    ensures StreamSound(Apply(s, a), i)
  {
    var s' := Apply(s, a);
    if i < |s.streams| {
      var st' := s'.streams[i];
      assert st' == s.streams[i].(key := st'.key);
      forall cmd | cmd in st'.issued ensures CameFrom(s', i, cmd) {
        assert CameFrom(s, i, cmd);
      }
      if st'.readable {
        forall cmd | st'.IsOutstanding(cmd) ensures exists e :: WaitsFor(s', i, cmd, e) {
          assert s.streams[i].IsOutstanding(cmd);
          var e :| WaitsFor(s, i, cmd, e);
          assert WaitsFor(s', i, cmd, e);
        }
      }
    }
  }

  lemma StreamStep(s: State, a: Action, i: nat)
    requires Enabled(s, a) && Sound(s) && i < |Apply(s, a).streams|
    requires forall j :: 0 <= j < |s.streams| ==> StreamSound(s, j)
    requires forall c :: 0 <= c < |s.setups| ==> SetupSound(s, c)
    ensures StreamSound(Apply(s, a), i)
  {
    if IsAgentStep(a) {
      AgentFrame(s, a);
      AgentKeepsStreams(s, a, i);
    } else if IsSetupStep(a) {
      SetupFrame(s, a);
      if a.Write? {
        WriteKeepsStreams(s, a, i);
      } else if a.ReadReply? {
        ReadKeepsStreams(s, a, i);
      } else {
        QuietKeepsStreams(s, a, i);
      }
    } else {
      NewKeepsStreams(s, a, i);
    }
  }

  // ------------------------------------------------------------------ outcomes

  lemma ConfirmedKept(s: State, a: Action, i: nat, cmd: Cmd)
    requires Enabled(s, a) && Confirmed(s, i, cmd)
    ensures Confirmed(Apply(s, a), i, cmd)
  {
    if IsAgentStep(a) {
      AgentFrame(s, a);
    } else if IsSetupStep(a) {
      SetupFrame(s, a);
    }
  }

  /** A setup that the step is not about keeps what it knows. */
  lemma OtherSetupStep(s: State, a: Action, c: nat)
    requires Enabled(s, a) && c < |s.setups| && SetupSound(s, c)
    requires IsSetupStep(a) ==> a.setup != c
    ensures c < |Apply(s, a).setups| && SetupSound(Apply(s, a), c)
  {
    var s' := Apply(s, a);
    if IsAgentStep(a) {
      AgentFrame(s, a);
    } else if IsSetupStep(a) {
      SetupFrame(s, a);
    }
    assert s'.setups[c] == s.setups[c] && s.sessions <= s'.sessions;
    forall i, cmd | Confirmed(s, i, cmd) ensures Confirmed(s', i, cmd) {
      ConfirmedKept(s, a, i, cmd);
    }
  }

  lemma FinishSetupStep(s: State, a: Action)
    requires a.Finish? && Enabled(s, a) && SetupSound(s, a.setup)
    ensures a.setup < |Apply(s, a).setups| && SetupSound(Apply(s, a), a.setup)
  {
    var x := s.setups[a.setup];
    FallbackWhenEitherFailed(x.phase.hostCall.err, x.phase.peerCall.err);
    assert Apply(s, a).streams == s.streams;
  }

  lemma ReadSetupStep(s: State, a: Action)
    requires a.ReadReply? && Enabled(s, a) && Sound(s) && SetupSound(s, a.setup)
    requires StreamSound(s, s.setups[a.setup].StreamAt(a.end))
    ensures a.setup < |Apply(s, a).setups| && SetupSound(Apply(s, a), a.setup)
  {
    var i := s.setups[a.setup].StreamAt(a.end);
    ReadsOwnReply(s, a.setup, a.end, a.ahead);
    SetupFrame(s, a);
    var r := s.streams[i].replies[0];
    assert r in s.streams[i].replies;
    assert ErrorOf(r) == Nil ==> Confirmed(Apply(s, a), i, r.cmd);
  }

  lemma OwnSetupStep(s: State, a: Action)
    requires IsSetupStep(a) && Enabled(s, a) && Sound(s) && a.setup < |s.setups| && SetupSound(s, a.setup)
    requires forall j :: 0 <= j < |s.streams| ==> StreamSound(s, j)
    ensures a.setup < |Apply(s, a).setups| && SetupSound(Apply(s, a), a.setup)
  {
    if a.Finish? {
      FinishSetupStep(s, a);
    } else if a.ReadReply? {
      ReadSetupStep(s, a);
    } else {
      SetupFrame(s, a);
      assert forall i, cmd :: Confirmed(Apply(s, a), i, cmd) == Confirmed(s, i, cmd);
    }
  }

  lemma NewSetupIsSound(s: State, a: Action, c: nat)
    requires Enabled(s, a) && |s.setups| <= c < |Apply(s, a).setups|
    ensures SetupSound(Apply(s, a), c)
  {
    assert a.JoinHost?;
  }

  lemma {:induction false} SetupStep(s: State, a: Action, c: nat)
    requires Enabled(s, a) && Sound(s) && c < |Apply(s, a).setups|
    requires forall j :: 0 <= j < |s.streams| ==> StreamSound(s, j)
    requires c < |s.setups| ==> SetupSound(s, c)
    ensures SetupSound(Apply(s, a), c)
  {
    if c >= |s.setups| {
      NewSetupIsSound(s, a, c);
    } else if IsSetupStep(a) && a.setup == c {
      OwnSetupStep(s, a);
    } else {
      OtherSetupStep(s, a, c);
    }
  }

  // ------------------------------------------------------------------ counters

  predicate EndedBy(s: State, c: nat, p2p: bool) {
    && c < |s.setups| && s.setups[c].phase.Over?
    && (if p2p then s.setups[c].phase.outcome.ByP2P? else s.setups[c].phase.outcome.ByRelay?)
  }

  ghost function SetupsOver(s: State, p2p: bool): (cs: set<nat>)
    ensures forall c: nat :: c in cs <==> EndedBy(s, c, p2p)
  {
    set c: nat | c < |s.setups| && EndedBy(s, c, p2p)
  }

  /** The counters count setups by outcome, and each success reached PeerConnected once. */
  ghost predicate CountsSound(s: State) {
    && s.p2pConns == |SetupsOver(s, true)|
    && s.relayConns == |SetupsOver(s, false)|
    && s.p2pConns + s.relayConns == |s.connected|
    && ConnectedSound(s)
  }

  ghost predicate ConnectedSound(s: State) {
    && (forall c: nat :: c in s.connected <==> EndedBy(s, c, true) || EndedBy(s, c, false))
    && (forall i, j :: 0 <= i < j < |s.connected| ==> s.connected[i] != s.connected[j])
  }

  lemma SameOver(s: State, s': State, p2p: bool)
    requires forall c: nat :: EndedBy(s', c, p2p) <==> EndedBy(s, c, p2p)
    ensures SetupsOver(s', p2p) == SetupsOver(s, p2p)
  {
  }

  lemma OneMoreOver(s: State, s': State, c: nat, p2p: bool)
    requires forall d: nat :: EndedBy(s', d, p2p) <==> EndedBy(s, d, p2p) || d == c
    requires !EndedBy(s, c, p2p)
    ensures |SetupsOver(s', p2p)| == |SetupsOver(s, p2p)| + 1
  {
    assert SetupsOver(s', p2p) == SetupsOver(s, p2p) + {c};
  }

  lemma ConnectedStep(s: State, a: Action)
    requires a.Finish? && Enabled(s, a) && ConnectedSound(s)
    ensures ConnectedSound(Apply(s, a))
  {
    SetupFrame(s, a);
    assert a.setup !in s.connected by {
      assert !EndedBy(s, a.setup, true) && !EndedBy(s, a.setup, false);
    }
    var s' := Apply(s, a);
    forall c: nat ensures c in s'.connected <==> EndedBy(s', c, true) || EndedBy(s', c, false) {
      if c != a.setup {
        assert EndedBy(s', c, true) == EndedBy(s, c, true) && EndedBy(s', c, false) == EndedBy(s, c, false);
      }
    }
  }

  lemma CountsFinish(s: State, a: Action)
    requires a.Finish? && Enabled(s, a) && CountsSound(s)
    ensures CountsSound(Apply(s, a))
  {
    var s', c := Apply(s, a), a.setup;
    SetupFrame(s, a);
    ConnectedStep(s, a);
    forall p2p ensures |SetupsOver(s', p2p)| == |SetupsOver(s, p2p)| + if EndedBy(s', c, p2p) then 1 else 0 {
      if EndedBy(s', c, p2p) {
        OneMoreOver(s, s', c, p2p);
      } else {
        SameOver(s, s', p2p);
      }
    }
    assert |SetupsOver(s', true)| == |SetupsOver(s, true)| + if EndedBy(s', c, true) then 1 else 0;
    assert |SetupsOver(s', false)| == |SetupsOver(s, false)| + if EndedBy(s', c, false) then 1 else 0;
  }

  lemma CountsStep(s: State, a: Action)
    requires Enabled(s, a) && CountsSound(s)
    ensures CountsSound(Apply(s, a))
  {
    if a.Finish? {
      CountsFinish(s, a);
    } else {
      OthersKeepCounts(s, a);
    }
  }

  lemma OthersKeepCounts(s: State, a: Action)
    requires Enabled(s, a) && !a.Finish? && CountsSound(s)
    ensures CountsSound(Apply(s, a))
  {
    var s' := Apply(s, a);
    if IsAgentStep(a) {
      AgentFrame(s, a);
    } else if IsSetupStep(a) {
      SetupFrame(s, a);
    }
    assert forall c: nat, p2p :: EndedBy(s', c, p2p) <==> EndedBy(s, c, p2p);
    SameOver(s, s', true);
    SameOver(s, s', false);
    assert s'.connected == s.connected && s'.p2pConns == s.p2pConns && s'.relayConns == s.relayConns;
  }

  // ------------------------------------------------------------------ relay sessions

  /** The agent of stream `i` has presented the session of command `cmd`. */
  ghost predicate Presented(s: State, i: nat, cmd: Cmd) {
    && i < |s.streams| && s.streams[i].taken <= |s.streams[i].issued|
    && cmd in s.streams[i].issued[..s.streams[i].taken]
    && s.streams[i].agent != Handling(cmd, false)
  }

  /** Each arrival carries a session that was issued to that agent, and no agent presents
      the same session twice. */
  ghost predicate ArrivalsSound(s: State) {
    && (forall j :: 0 <= j < |s.arrivals| ==>
          s.arrivals[j].0 < |s.sessions| && Presented(s, s.arrivals[j].1, Cmd(s.sessions[s.arrivals[j].0], Some(s.arrivals[j].0))))
    && (forall j, k :: 0 <= j < k < |s.arrivals| ==> s.arrivals[j] != s.arrivals[k])
  }

  /** A delivered relay connection is one whose stream arrived. */
  ghost predicate DeliveriesArrived(s: State, i: nat)
    requires i < |s.streams|
  {
    && (forall cmd :: cmd in s.streams[i].delivered && cmd.session.Some? ==> (cmd.session.value, i) in s.arrivals)
    && (s.streams[i].agent.Handling? && s.streams[i].agent.presented && s.streams[i].agent.cmd.session.Some? ==>
          (s.streams[i].agent.cmd.session.value, i) in s.arrivals)
  }

  lemma PresentedKept(s: State, a: Action, i: nat, cmd: Cmd)
    requires Enabled(s, a) && Presented(s, i, cmd) && CommandsOrdered(s.streams[i])
    ensures Presented(Apply(s, a), i, cmd)
  {
    var s' := Apply(s, a);
    if IsAgentStep(a) {
      AgentFrame(s, a);
      if a.stream == i {
        AgentPresented(s, a, cmd);
      }
    } else if IsSetupStep(a) {
      SetupFrame(s, a);
      if a.Write? && s.setups[a.setup].StreamAt(a.end) == i {
        assert s'.streams[i].issued[..s.streams[i].taken] == s.streams[i].issued[..s.streams[i].taken];
      }
    }
  }

  lemma AgentPresented(s: State, a: Action, cmd: Cmd)
    requires Enabled(s, a) && IsAgentStep(a) && a.stream < |s.streams|
    requires Presented(s, a.stream, cmd) && CommandsOrdered(s.streams[a.stream])
    ensures Presented(Apply(s, a), a.stream, cmd)
  {
    if a.TakeCommand? {
      var st := s.streams[a.stream];
      assert st.issued[..st.taken + 1] == st.issued[..st.taken] + [st.issued[st.taken]];
    }
  }

  lemma ArrivalsStep(s: State, a: Action)
    requires Enabled(s, a) && ArrivalsSound(s)
    requires forall j :: 0 <= j < |s.streams| ==> StreamSound(s, j)
    ensures ArrivalsSound(Apply(s, a))
  {
    var s' := Apply(s, a);
    assert s.sessions <= s'.sessions;
    forall j | 0 <= j < |s.arrivals|
      ensures s.arrivals[j].0 < |s'.sessions|
        && Presented(s', s.arrivals[j].1, Cmd(s'.sessions[s.arrivals[j].0], Some(s.arrivals[j].0)))
    {
      assert StreamSound(s, s.arrivals[j].1);
      PresentedKept(s, a, s.arrivals[j].1, Cmd(s.sessions[s.arrivals[j].0], Some(s.arrivals[j].0)));
    }
    if a.Present? {
      PresentStep(s, a);
    } else if IsSetupStep(a) {
      SetupFrame(s, a);
    }
  }

  lemma PresentStep(s: State, a: Action)
    requires a.Present? && Enabled(s, a) && ArrivalsSound(s) && StreamSound(s, a.stream)
    ensures var s' := Apply(s, a); var (k, i) := (s.streams[a.stream].agent.cmd.session.value, a.stream);
      && k < |s.sessions| && s'.arrivals == s.arrivals + [(k, i)]
      && Presented(s', i, Cmd(s.sessions[k], Some(k)))
      && (k, i) !in s.arrivals
  {
    var st := s.streams[a.stream];
    var cmd := st.agent.cmd;
    assert CameFrom(s, a.stream, cmd);
    assert st.issued[..st.taken][st.taken - 1] == cmd;
  }

  lemma DeliveriesStep(s: State, a: Action, i: nat)
    requires Enabled(s, a) && i < |Apply(s, a).streams|
    requires i < |s.streams| ==> DeliveriesArrived(s, i)
    ensures DeliveriesArrived(Apply(s, a), i)
  {
    if IsAgentStep(a) {
      AgentFrame(s, a);
      assert s.arrivals <= Apply(s, a).arrivals;
    } else if IsSetupStep(a) {
      SetupFrame(s, a);
    }
  }

  // ------------------------------------------------------------------ all runs

  ghost predicate Inv(s: State) {
    && Sound(s) && KeysSound(s) && CountsSound(s) && ArrivalsSound(s)
    && (forall i :: 0 <= i < |s.streams| ==> StreamSound(s, i))
    && (forall i :: 0 <= i < |s.streams| ==> DeliveriesArrived(s, i))
    && (forall c :: 0 <= c < |s.setups| ==> SetupSound(s, c))
  }

  lemma InvStep(s: State, a: Action)
    requires Inv(s) && Enabled(s, a)
    ensures Inv(Apply(s, a))
  {
    var s' := Apply(s, a);
    SoundStep(s, a);
    KeysStep(s, a);
    CountsStep(s, a);
    ArrivalsStep(s, a);
    forall i | 0 <= i < |s'.streams| ensures StreamSound(s', i) {
      StreamStep(s, a, i);
    }
    forall i | 0 <= i < |s'.streams| ensures DeliveriesArrived(s', i) {
      DeliveriesStep(s, a, i);
    }
    forall c | 0 <= c < |s'.setups| ensures SetupSound(s', c) {
      SetupStep(s, a, c);
    }
  }

  lemma CountsInit()
    ensures CountsSound(INIT)
  {
    assert SetupsOver(INIT, true) == {} && SetupsOver(INIT, false) == {};
  }

  lemma NothingYet(s: State)
    requires Sound(s) && CountsSound(s) && ArrivalsSound(s) && s.streams == [] && s.setups == []
    ensures Inv(s)
  {
  }

  lemma SoundInit()
    ensures Sound(INIT) && ArrivalsSound(INIT)
  {
  }

  lemma {:induction false} RunsKeepInv(acts: seq<Action>)
    requires Run(acts).Some?
    ensures Inv(Run(acts).value)
  {
    if acts == [] {
      CountsInit();
      SoundInit();
      NothingYet(INIT);
    } else {
      RunsKeepInv(acts[..|acts| - 1]);
      InvStep(Run(acts[..|acts| - 1]).value, acts[|acts| - 1]);
    }
  }

  // ------------------------------------------------------------------ why a relay

  /** The agent answers connect failed only to commands it declined. */
  ghost predicate SaysDeclined(st: Stream) {
    && (st.agent.Answering? && st.agent.status == StatusConnectFailed ==> st.agent.cmd in st.declined)
    && (forall r :: r in st.replies && r.status == StatusConnectFailed ==> r.cmd in st.declined)
  }

  ghost predicate Declined(s: State, i: nat, cmd: Cmd) {
    i < |s.streams| && cmd in s.streams[i].declined
  }

  /** One of the setup's agents declined to connect directly. */
  ghost predicate EitherDeclined(s: State, c: nat) {
    c < |s.setups| && (Declined(s, s.setups[c].host, Cmd(c, None)) || Declined(s, s.setups[c].peer, Cmd(c, None)))
  }

  /** A call came back with ConnectFailed only if its agent declined. */
  ghost predicate CallsSound(s: State, c: nat)
    requires c < |s.setups|
  {
    var x := s.setups[c];
    x.phase.Active? ==>
      && (x.phase.hostCall.Back? && IsConnectFailed(x.phase.hostCall.err) ==> Declined(s, x.host, Cmd(c, x.phase.session)))
      && (x.phase.peerCall.Back? && IsConnectFailed(x.phase.peerCall.err) ==> Declined(s, x.peer, Cmd(c, x.phase.session)))
  }

  ghost predicate FallbacksSound(s: State) {
    && (forall i :: 0 <= i < |s.streams| ==> SaysDeclined(s.streams[i]))
    && (forall c :: 0 <= c < |s.setups| ==> CallsSound(s, c))
    && (forall k :: 0 <= k < |s.sessions| ==> EitherDeclined(s, s.sessions[k]))
  }

  lemma DeclinesStep(s: State, a: Action, i: nat)
    requires Enabled(s, a) && i < |Apply(s, a).streams|
    requires i < |s.streams| ==> SaysDeclined(s.streams[i])
    ensures SaysDeclined(Apply(s, a).streams[i])
  {
    if IsAgentStep(a) {
      AgentFrame(s, a);
    } else if IsSetupStep(a) {
      SetupFrame(s, a);
    }
  }

  lemma DeclinedKept(s: State, a: Action, i: nat, cmd: Cmd)
    requires Enabled(s, a) && Declined(s, i, cmd)
    ensures Declined(Apply(s, a), i, cmd)
  {
    if IsAgentStep(a) {
      AgentFrame(s, a);
    } else if IsSetupStep(a) {
      SetupFrame(s, a);
    }
  }

  lemma AllDeclinedKept(s: State, a: Action)
    requires Enabled(s, a)
    ensures forall i, cmd :: Declined(s, i, cmd) ==> Declined(Apply(s, a), i, cmd)
  {
    forall i, cmd | Declined(s, i, cmd) ensures Declined(Apply(s, a), i, cmd) {
      DeclinedKept(s, a, i, cmd);
    }
  }

  lemma ReadCalls(s: State, a: Action)
    requires a.ReadReply? && Enabled(s, a) && Sound(s) && CallsSound(s, a.setup)
    requires forall i :: 0 <= i < |s.streams| ==> StreamSound(s, i) && SaysDeclined(s.streams[i])
    ensures a.setup < |Apply(s, a).setups| && CallsSound(Apply(s, a), a.setup)
  {
    var i := s.setups[a.setup].StreamAt(a.end);
    AllDeclinedKept(s, a);
    ReadsOwnReply(s, a.setup, a.end, a.ahead);
    var r := s.streams[i].replies[0];
    assert r in s.streams[i].replies;
    assert IsConnectFailed(ErrorOf(r)) ==> Declined(s, i, Cmd(a.setup, s.setups[a.setup].phase.session));
  }

  /** Without a reply no call comes back with ConnectFailed. */
  lemma OwnCallsStep(s: State, a: Action)
    requires IsSetupStep(a) && !a.ReadReply? && Enabled(s, a) && a.setup < |s.setups| && CallsSound(s, a.setup)
    ensures a.setup < |Apply(s, a).setups| && CallsSound(Apply(s, a), a.setup)
  {
    AllDeclinedKept(s, a);
  }

  lemma CallsKept(s: State, s': State, c: nat)
    requires c < |s.setups| && c < |s'.setups| && s'.setups[c] == s.setups[c] && CallsSound(s, c)
    requires forall i, cmd :: Declined(s, i, cmd) ==> Declined(s', i, cmd)
    ensures CallsSound(s', c)
  {
  }

  lemma NewSetupsQueue(s: State, a: Action, c: nat)
    requires Enabled(s, a) && |s.setups| <= c < |Apply(s, a).setups|
    ensures CallsSound(Apply(s, a), c)
  {
    assert Apply(s, a).setups[c].phase == Queued;
  }

  lemma OtherSetupsStay(s: State, a: Action, c: nat)
    requires Enabled(s, a) && c < |s.setups| && (IsSetupStep(a) ==> a.setup != c)
    ensures c < |Apply(s, a).setups| && Apply(s, a).setups[c] == s.setups[c]
  {
    if IsSetupStep(a) {
      SetupFrame(s, a);
    } else if IsAgentStep(a) {
      AgentFrame(s, a);
    }
  }

  lemma CallsStep(s: State, a: Action, c: nat)
    requires Enabled(s, a) && Sound(s) && c < |Apply(s, a).setups|
    requires forall i :: 0 <= i < |s.streams| ==> StreamSound(s, i) && SaysDeclined(s.streams[i])
    requires c < |s.setups| ==> CallsSound(s, c)
    ensures CallsSound(Apply(s, a), c)
  {
    if c >= |s.setups| {
      NewSetupsQueue(s, a, c);
    } else if a.ReadReply? && a.setup == c {
      ReadCalls(s, a);
    } else if IsSetupStep(a) && a.setup == c {
      OwnCallsStep(s, a);
    } else {
      OtherSetupsStay(s, a, c);
      AllDeclinedKept(s, a);
      CallsKept(s, Apply(s, a), c);
    }
  }

  lemma EitherKept(s: State, a: Action, c: nat)
    requires Enabled(s, a) && EitherDeclined(s, c)
    ensures EitherDeclined(Apply(s, a), c)
  {
    if IsSetupStep(a) {
      SetupFrame(s, a);
    } else if IsAgentStep(a) {
      AgentFrame(s, a);
    }
    AllDeclinedKept(s, a);
  }

  /** A session is drawn only by a setup whose first attempt was declined. */
  lemma SessionsStep(s: State, a: Action, k: nat)
    requires Enabled(s, a) && k < |Apply(s, a).sessions|
    requires k < |s.sessions| ==> EitherDeclined(s, s.sessions[k])
    requires a.Finish? ==> CallsSound(s, a.setup)
    ensures EitherDeclined(Apply(s, a), Apply(s, a).sessions[k])
  {
    if k < |s.sessions| {
      EitherKept(s, a, s.sessions[k]);
      assert Apply(s, a).sessions[k] == s.sessions[k];
    } else {
      var x := s.setups[a.setup];
      FallbackWhenEitherFailed(x.phase.hostCall.err, x.phase.peerCall.err);
      EitherKept(s, a, a.setup);
    }
  }

  lemma {:induction false} RunsKeepFallbacks(acts: seq<Action>)
    requires Run(acts).Some?
    ensures FallbacksSound(Run(acts).value)
  {
    if acts != [] {
      var before, a := acts[..|acts| - 1], acts[|acts| - 1];
      RunsKeepInv(before);
      RunsKeepFallbacks(before);
      FallbacksStep(Run(before).value, a);
    }
  }

  lemma FallbacksStep(s: State, a: Action)
    requires Inv(s) && FallbacksSound(s) && Enabled(s, a)
    ensures FallbacksSound(Apply(s, a))
  {
    var s' := Apply(s, a);
    forall i | 0 <= i < |s'.streams| ensures SaysDeclined(s'.streams[i]) {
      DeclinesStep(s, a, i);
    }
    forall c | 0 <= c < |s'.setups| ensures CallsSound(s', c) {
      CallsStep(s, a, c);
    }
    forall k | 0 <= k < |s'.sessions| ensures EitherDeclined(s', s'.sessions[k]) {
      SessionsStep(s, a, k);
    }
  }

  // ------------------------------------------------------------------ results

  /** Some interleaving leads to this state. */
  ghost predicate Reachable(s: State) {
    exists acts :: Run(acts) == Some(s)
  }

  lemma ReachableKeepsInv(s: State)
    requires Reachable(s)
    ensures Inv(s)
  {
    var acts :| Run(acts) == Some(s);
    RunsKeepInv(acts);
  }

  /** Every successful call and every successful setup was answered with OK by its agents. */
  lemma OutcomeMeansConfirmed(s: State, c: nat)
    requires Inv(s) && c < |s.setups|
    ensures var x := s.setups[c];
      && x.host != x.peer
      && (x.phase == Over(ByP2P) ==> Confirmed(s, x.host, Cmd(c, None)) && Confirmed(s, x.peer, Cmd(c, None)))
      && (x.phase.Over? && x.phase.outcome.ByRelay? ==>
            Confirmed(s, x.host, Cmd(c, Some(x.phase.outcome.session)))
            && Confirmed(s, x.peer, Cmd(c, Some(x.phase.outcome.session))))
  {
    assert SetupSound(s, c);
  }

  lemma ConfirmedMeansDelivered(s: State, i: nat, cmd: Cmd)
    requires Inv(s) && Confirmed(s, i, cmd)
    ensures Delivered(s, i, cmd)
  {
    assert StreamSound(s, i);
  }

  lemma DeliveredMeansArrived(s: State, i: nat, cmd: Cmd)
    requires Inv(s) && Delivered(s, i, cmd) && cmd.session.Some?
    ensures (cmd.session.value, i) in s.arrivals
  {
    assert DeliveriesArrived(s, i);
  }

  /** What a setup means, over all interleavings of all setups: its host is the one that
      registered the key its peer asked for; one counted as
      P2P has had a connection delivered on both ends; one counted as relayed has had a
      stream of the same session arrive from both ends and delivered there. */
  lemma SetupOutcome(s: State, c: nat)
    requires Reachable(s) && c < |s.setups|
    ensures var x := s.setups[c];
      && x.host != x.peer && RightEnds(s, x)
      && (x.phase == Over(ByP2P) ==> Delivered(s, x.host, Cmd(c, None)) && Delivered(s, x.peer, Cmd(c, None)))
      && (x.phase.Over? && x.phase.outcome.ByRelay? ==>
            var k := x.phase.outcome.session;
            && Delivered(s, x.host, Cmd(c, Some(k))) && Delivered(s, x.peer, Cmd(c, Some(k)))
            && (k, x.host) in s.arrivals && (k, x.peer) in s.arrivals)
  {
    ReachableKeepsInv(s);
    var x := s.setups[c];
    OutcomeMeansConfirmed(s, c);
    if x.phase == Over(ByP2P) {
      ConfirmedMeansDelivered(s, x.host, Cmd(c, None));
      ConfirmedMeansDelivered(s, x.peer, Cmd(c, None));
    } else if x.phase.Over? && x.phase.outcome.ByRelay? {
      var cmd := Cmd(c, Some(x.phase.outcome.session));
      ConfirmedMeansDelivered(s, x.host, cmd);
      ConfirmedMeansDelivered(s, x.peer, cmd);
      DeliveredMeansArrived(s, x.host, cmd);
      DeliveredMeansArrived(s, x.peer, cmd);
    }
  }

  /** Who is set up with whom: a join finds a host iff one is registered under the key, and
      then the new setup is between that host and the stream of the join itself. */
  lemma JoinFindsTheHost(s: State, key: Key)
    requires Reachable(s)
    ensures Enabled(s, JoinHost(key)) <==> exists i :: 0 <= i < |s.streams| && s.streams[i].key == Some(key)
    ensures Enabled(s, JoinHost(key)) ==>
      var s' := Apply(s, JoinHost(key)); var x := s'.setups[|s.setups|];
      && s'.streams == s.streams + [NewStream(None)] && s'.setups[..|s.setups|] == s.setups
      && x.key == key && x.phase == Queued && x.peer == |s.streams|
      && x.host < |s.streams| && s.streams[x.host].key == Some(key)
  {
    ReachableKeepsInv(s);
  }

  lemma SetupHasRightEnds(s: State, c: nat)
    requires Reachable(s) && c < |s.setups|
    ensures RightEnds(s, s.setups[c])
  {
    ReachableKeepsInv(s);
  }

  /** One host for each key: a registration is refused iff the key is taken. */
  lemma OneHostPerKey(s: State, i: nat, j: nat)
    requires Reachable(s) && i < |s.streams| && j < |s.streams|
    requires s.streams[i].key.Some? && s.streams[i].key == s.streams[j].key
    ensures i == j && !Enabled(s, RegisterHost(s.streams[i].key.value))
  {
    ReachableKeepsInv(s);
  }

  /** The counters: each is the number of setups with that outcome, and together they are
      the setups that reached PeerConnected, each of them once. */
  lemma CountersAgree(s: State)
    requires Reachable(s)
    ensures
      && s.p2pConns == |SetupsOver(s, true)| && s.relayConns == |SetupsOver(s, false)|
      && s.p2pConns + s.relayConns == |s.connected|
      && (forall c: nat :: c in s.connected <==> EndedBy(s, c, true) || EndedBy(s, c, false))
      && (forall i, j :: 0 <= i < j < |s.connected| ==> s.connected[i] != s.connected[j])
  {
    ReachableKeepsInv(s);
  }

  /** Lockstep: with any number of peers joining, a control stream whose replies can be
      read has at most one command outstanding. */
  lemma OneOutstanding(s: State, i: nat)
    requires Reachable(s) && i < |s.streams| && s.streams[i].readable
    ensures s.streams[i].Outstanding() <= 1
  {
    ReachableKeepsInv(s);
    assert StreamSound(s, i);
  }

  /** Each caller reads the reply to its own command, and no other reply is lost with the
      buffered reader that the call throws away. */
  lemma EachReadsItsOwn(s: State, c: nat, e: End, ahead: nat)
    requires Reachable(s) && Enabled(s, ReadReply(c, e, ahead))
    ensures var st := s.streams[s.setups[c].StreamAt(e)];
      && st.replies[0].cmd == Cmd(c, s.setups[c].phase.session)
      && |st.replies| == 1 && ahead == 0
  {
    ReachableKeepsInv(s);
    assert StreamSound(s, s.setups[c].StreamAt(e));
    ReadsOwnReply(s, c, e, ahead);
  }

  /** Each session is presented by the two agents of the setup that drew it, by each at most
      once: so at most twice. */
  lemma SessionPresentedTwice(s: State, k: nat)
    requires Reachable(s)
    ensures
      && (forall j | 0 <= j < |s.arrivals| && s.arrivals[j].0 == k ::
            k < |s.sessions| && s.sessions[k] < |s.setups|
            && (s.arrivals[j].1 == s.setups[s.sessions[k]].host || s.arrivals[j].1 == s.setups[s.sessions[k]].peer))
      && forall j1, j2, j3 | 0 <= j1 < |s.arrivals| && 0 <= j2 < |s.arrivals| && 0 <= j3 < |s.arrivals| ::
           (s.arrivals[j1].0 == s.arrivals[j2].0 == s.arrivals[j3].0 == k) ==> j1 == j2 || j2 == j3 || j1 == j3
  {
    ReachableKeepsInv(s);
    forall j | 0 <= j < |s.arrivals| && s.arrivals[j].0 == k
      ensures k < |s.sessions| && s.sessions[k] < |s.setups|
        && (s.arrivals[j].1 == s.setups[s.sessions[k]].host || s.arrivals[j].1 == s.setups[s.sessions[k]].peer)
    {
      var i := s.arrivals[j].1;
      assert Presented(s, i, Cmd(s.sessions[k], Some(k))) && StreamSound(s, i);
      assert CameFrom(s, i, Cmd(s.sessions[k], Some(k)));
    }
  }

  /** Two arrivals for one session come from two different agents. */
  lemma NobodyPresentsTwice(s: State, i: nat, j: nat)
    requires Reachable(s) && i < |s.arrivals| && j < |s.arrivals| && i != j
    requires s.arrivals[i].0 == s.arrivals[j].0
    ensures s.arrivals[i].1 != s.arrivals[j].1
  {
    ReachableKeepsInv(s);
    assert s.arrivals[i] != s.arrivals[j];
  }

  /** No two setups of one host are active at once. */
  lemma HostIsExclusive(s: State, c: nat, d: nat)
    requires Reachable(s) && c < |s.setups| && d < |s.setups|
    requires s.setups[c].phase.Active? && s.setups[d].phase.Active? && s.setups[c].host == s.setups[d].host
    ensures c == d
  {
    ReachableKeepsInv(s);
  }

  /** The late cleanup of a host that is gone takes its own entry out of the table, never
      that of a host that registered the key meanwhile. */
  lemma CleanupTakesItsOwn(s: State, i: nat)
    requires Reachable(s) && Enabled(s, HostGone(i))
    ensures Apply(s, HostGone(i)).hosts == map k | k in s.hosts && s.hosts[k] != i :: s.hosts[k]
  {
    ReachableKeepsInv(s);
    GoneHostsEntry(s, i);
  }

  lemma GoneHostsEntry(s: State, i: nat)
    requires HostsSound(s) && Enabled(s, HostGone(i))
    ensures Apply(s, HostGone(i)).hosts == map k | k in s.hosts && s.hosts[k] != i :: s.hosts[k]
  {
  }

  /** When a setup falls back to a relay: exactly when one of its agents answered that it
      could not connect. */
  lemma FallsBackExactlyWhen(s: State, c: nat)
    requires Enabled(s, Finish(c)) && s.setups[c].phase.session.None?
    ensures Apply(s, Finish(c)).setups[c].phase.Active? <==>
            IsConnectFailed(s.setups[c].phase.hostCall.err) || IsConnectFailed(s.setups[c].phase.peerCall.err)
  {
    FallbackWhenEitherFailed(s.setups[c].phase.hostCall.err, s.setups[c].phase.peerCall.err);
  }

  /** Over all runs: a relay is only tried for a setup one of whose agents answered that it
      could not connect directly. */
  lemma RelayOnlyAfterDecline(s: State, k: nat)
    requires Reachable(s) && k < |s.sessions|
    ensures EitherDeclined(s, s.sessions[k])
  {
    var acts :| Run(acts) == Some(s);
    RunsKeepFallbacks(acts);
  }

  /** How an attempt ends, exactly: as a success of its kind when both calls succeeded; in a
      second attempt, with a new session, when the first one failed and an agent had answered
      that it could not connect; and otherwise as a failure.  The host's lock is released
      unless there is a second attempt. */
  lemma EndsExactlyAs(s: State, c: nat)
    requires Enabled(s, Finish(c))
    ensures var x, s' := s.setups[c], Apply(s, Finish(c));
      var h, p, session := x.phase.hostCall.err, x.phase.peerCall.err, x.phase.session;
      && s'.setups[c].phase == (
           if h == Nil && p == Nil then Over(if session.None? then ByP2P else ByRelay(session.value))
           else if session.None? && (IsConnectFailed(h) || IsConnectFailed(p)) then Active(Some(|s.sessions|), Unsent, Unsent)
           else Over(SetupFailed))
      && s'.locks == (if s'.setups[c].phase.Over? then s.locks - {x.host} else s.locks)
      && s'.connected == s.connected + (if h == Nil && p == Nil then [c] else [])
  {
    FallbackWhenEitherFailed(s.setups[c].phase.hostCall.err, s.setups[c].phase.peerCall.err);
  }

  // ------------------------------------------------------------------ nobody is stuck

  lemma LastStep(s: State, acts: seq<Action>, a: Action)
    ensures var prev := Continue(s, acts);
      Continue(s, acts + [a]) == if prev.Some? && Enabled(prev.value, a) then Some(Apply(prev.value, a)) else None
  {
    assert (acts + [a])[..|acts|] == acts;
  }

  lemma {:induction false} GoOn(s: State, a: Action, t: State, acts: seq<Action>)
    requires Enabled(s, a) && Continue(Apply(s, a), acts) == Some(t)
    ensures Continue(s, [a] + acts) == Some(t)
    decreases |acts|
  {
    if acts == [] {
      LastStep(s, [], a);
      assert [a] + acts == [] + [a];
    } else {
      var init, last := acts[..|acts| - 1], acts[|acts| - 1];
      assert acts == init + [last] && [a] + acts == ([a] + init) + [last];
      LastStep(Apply(s, a), init, last);
      LastStep(s, [a] + init, last);
      GoOn(s, a, Continue(Apply(s, a), init).value, init);
    }
  }

  function Pending(call: Call): nat {
    if call.Back? then 0 else 1
  }

  /** How many more calls a setup may have to get back. */
  function CallsLeft(x: Setup): nat {
    match x.phase
    case Active(session, h, p) => (if session.None? then 4 else 0) + Pending(h) + Pending(p) + 1
    case _ => 0
  }

  predicate StreamEnds(a: Action) {
    a.Break? || a.WriteFails? || a.ReadFails? || a.Finish?
  }

  /** A call that is under way gets back when its stream breaks. */
  lemma CallComesBack(s: State, c: nat, e: End) returns (a: Action, b: Action)
    requires Reachable(s) && c < |s.setups| && s.setups[c].phase.Active? && !s.setups[c].CallAt(e).Back?
    ensures StreamEnds(a) && Enabled(s, a) && StreamEnds(b) && Enabled(Apply(s, a), b)
    ensures var t := Apply(Apply(s, a), b);
      && Reachable(t) && c < |t.setups| && t.setups[c] == s.setups[c].SetCall(e, Back(OtherError)) && t.locks == s.locks
  {
    ReachableKeepsInv(s);
    var i := s.setups[c].StreamAt(e);
    if s.setups[c].CallAt(e) == Unsent {
      a, b := Break(i, true, false), WriteFails(c, e);
    } else {
      a, b := Break(i, false, true), ReadFails(c, e);
    }
    Step(s, a, Apply(s, a));
    Step(Apply(s, a), b, Apply(Apply(s, a), b));
  }

  lemma AttemptEnds(s: State, c: nat)
    requires Reachable(s) && Enabled(s, Finish(c))
    ensures Reachable(Apply(s, Finish(c))) && c < |Apply(s, Finish(c)).setups|
    ensures var x, y := s.setups[c], Apply(s, Finish(c)).setups[c];
      && y.host == x.host && CallsLeft(y) < CallsLeft(x)
      && (y.phase.Active? || (y.phase.Over? && x.host !in Apply(s, Finish(c)).locks))
  {
    EndsExactlyAs(s, c);
    SetupFrame(s, Finish(c));
    Step(s, Finish(c), Apply(s, Finish(c)));
  }

  /** No host stays locked: when the streams of a setup break, it comes to its end and
      releases the lock, without any reply. */
  lemma {:induction false} SetupCanEnd(s: State, c: nat) returns (acts: seq<Action>)
    requires Reachable(s) && c < |s.setups| && s.setups[c].phase.Active?
    ensures Continue(s, acts).Some? && c < |Continue(s, acts).value.setups|
    ensures Continue(s, acts).value.setups[c].phase.Over? && s.setups[c].host !in Continue(s, acts).value.locks
    ensures forall k :: 0 <= k < |acts| ==> StreamEnds(acts[k])
    decreases CallsLeft(s.setups[c])
  {
    var x := s.setups[c];
    if x.phase.hostCall.Back? && x.phase.peerCall.Back? {
      var t := Apply(s, Finish(c));
      AttemptEnds(s, c);
      var more := [];
      if t.setups[c].phase.Active? {
        more := SetupCanEnd(t, c);
      }
      acts := [Finish(c)] + more;
      GoOn(s, Finish(c), Continue(t, more).value, more);
    } else {
      var a, b := CallComesBack(s, c, if x.phase.hostCall.Back? then PeerEnd else HostEnd);
      var s1 := Apply(s, a);
      var t := Apply(s1, b);
      var more := SetupCanEnd(t, c);
      GoOn(s1, b, Continue(t, more).value, more);
      GoOn(s, a, Continue(t, more).value, [b] + more);
      acts := [a] + ([b] + more);
    }
  }

  /** A host's key is not lost with it: once its stream can no longer be written, the cleanup
      takes it out of the table, and the key can be registered again. */
  lemma KeyBecomesFree(s: State, key: Key) returns (acts: seq<Action>)
    requires Reachable(s) && key in s.hosts
    ensures Continue(s, acts).Some? && key !in Continue(s, acts).value.hosts
    ensures Enabled(Continue(s, acts).value, RegisterHost(key))
  {
    ReachableKeepsInv(s);
    var i := s.hosts[key];
    var t := Apply(s, Break(i, true, false));
    acts := [] + [Break(i, true, false)] + [HostGone(i)];
    LastStep(s, [], Break(i, true, false));
    LastStep(s, [] + [Break(i, true, false)], HostGone(i));
  }

  /** No agent is stuck either: whatever it has in its hands it can refuse, and then it serves
      the next command, having answered this one with an error and delivered nothing. */
  lemma AgentCanRefuse(s: State, i: nat)
    requires i < |s.streams| && s.streams[i].agent.Handling?
    ensures Enabled(s, HandlerFails(i)) && Enabled(Apply(s, HandlerFails(i)), SendReply(i))
    ensures var st, t := s.streams[i], Apply(Apply(s, HandlerFails(i)), SendReply(i));
      && t.streams[i].agent == Serving && t.streams[i].replies == st.replies + [Reply(st.agent.cmd, StatusError)]
      && t.streams[i].delivered == st.delivered && t.streams[i].confirmed == st.confirmed && t.streams[i].declined == st.declined
  {
  }

  // ------------------------------------------------------------------ a needless relay

  lemma Step(s: State, a: Action, t: State)
    requires Reachable(s) && Enabled(s, a) && t == Apply(s, a)
    ensures Reachable(t)
  {
    var acts :| Run(acts) == Some(s);
    assert (acts + [a])[..|acts + [a]| - 1] == acts;
    assert Run(acts + [a]) == Some(t);
  }

  /** One host, one peer, and their setup in its first attempt. */
  function Trying(key: Key, host: Stream, peer: Stream, h: Call, p: Call): State {
    State([host, peer], map[key := 0], map[0 := 0], [Setup(key, 0, 1, Active(None, h, p))], 0, 0, [], [], [])
  }

  const FIRST := Cmd(0, None)

  function Asked(key: Option<Key>): Stream {
    NewStream(key).(issued := [FIRST])
  }

  lemma Locked(key: Key)
    ensures Reachable(Trying(key, NewStream(Some(key)), NewStream(None), Unsent, Unsent))
  {
    var h, p := NewStream(Some(key)), NewStream(None);
    var s1 := INIT.(streams := [h], hosts := map[key := 0]);
    var s2 := s1.(streams := [h, p], setups := [Setup(key, 0, 1, Queued)]);
    assert Reachable(INIT) by { assert Run([]) == Some(INIT); }
    assert Reachable(s1) by { Step(INIT, RegisterHost(key), s1); }
    assert Reachable(s2) by { Step(s1, JoinHost(key), s2); }
    Step(s2, Lock(0), Trying(key, h, p, Unsent, Unsent));
  }

  lemma BothAsked(key: Key)
    ensures Reachable(Trying(key, Asked(Some(key)), Asked(None), Sent, Sent))
  {
    var h, p := NewStream(Some(key)), NewStream(None);
    var s3, s4 := Trying(key, h, p, Unsent, Unsent), Trying(key, Asked(Some(key)), p, Sent, Unsent);
    Locked(key);
    assert [] + [FIRST] == [FIRST];
    assert [h, p][0 := Asked(Some(key))] == [Asked(Some(key)), p];
    assert [Asked(Some(key)), p][1 := Asked(None)] == [Asked(Some(key)), Asked(None)];
    assert Reachable(s4) by { Step(s3, Write(0, HostEnd), s4); }
    Step(s4, Write(0, PeerEnd), Trying(key, Asked(Some(key)), Asked(None), Sent, Sent));
  }

  /** An agent that takes the command and answers it. */
  lemma Answers(s: State, i: nat, st: Stream, ok: bool)
    requires Reachable(s) && i < |s.streams| && s.streams[i] == st
    requires st.issued == [FIRST] && st.taken == 0 && st.agent == Serving && st.replies == []
    requires st.delivered == {} && st.confirmed == {} && st.declined == {}
    ensures Reachable(s.(streams := s.streams[i := AnsweredStream(st, ok)]))
  {
    var st1 := st.(taken := 1, agent := Handling(FIRST, false));
    var s1 := s.(streams := s.streams[i := st1]);
    AgentMoves(s, TakeCommand(i), st1);
    Replies(s1, i, st1, ok);
    assert s1.streams[i := AnsweredStream(st, ok)] == s.streams[i := AnsweredStream(st, ok)];
  }

  lemma Replies(s: State, i: nat, st: Stream, ok: bool)
    requires Reachable(s) && i < |s.streams| && s.streams[i] == st
    requires st.taken == 1 && st.agent == Handling(FIRST, false) && st.replies == []
    requires st.delivered == {} && st.confirmed == {} && st.declined == {}
    ensures Reachable(s.(streams := s.streams[i := AnsweredStream(st.(agent := Serving), ok)]))
  {
    var st1 := if ok then st.(agent := Answering(FIRST, StatusOk), delivered := {FIRST})
               else st.(agent := Answering(FIRST, StatusConnectFailed), declined := {FIRST});
    var st2 := AnsweredStream(st.(agent := Serving), ok);
    var s1 := s.(streams := s.streams[i := st1]);
    AgentMoves(s, if ok then Succeed(i) else Decline(i), st1);
    assert s1.streams[i := st2] == s.streams[i := st2];
    AgentMoves(s1, SendReply(i), st2);
  }

  lemma AgentMoves(s: State, a: Action, st: Stream)
    requires Reachable(s) && Enabled(s, a) && IsAgentStep(a) && !a.Present?
    requires Apply(s, a).streams[a.stream] == st
    ensures Reachable(s.(streams := s.streams[a.stream := st]))
  {
    Step(s, a, Apply(s, a));
  }

  lemma BothAnswered(key: Key)
    ensures Reachable(Trying(key, AnsweredStream(Asked(Some(key)), true), AnsweredStream(Asked(None), false), Sent, Sent))
  {
    var a, b := Asked(Some(key)), Asked(None);
    var h, p := AnsweredStream(a, true), AnsweredStream(b, false);
    BothAsked(key);
    assert [a, b][0 := h] == [h, b] && [h, b][1 := p] == [h, p];
    assert Reachable(Trying(key, h, b, Sent, Sent)) by { Answers(Trying(key, a, b, Sent, Sent), 0, a, true); }
    Answers(Trying(key, h, b, Sent, Sent), 1, b, false);
  }

  function AnsweredStream(st: Stream, ok: bool): Stream {
    if ok then st.(taken := 1, delivered := {FIRST}, confirmed := {FIRST}, replies := [Reply(FIRST, StatusOk)])
    else st.(taken := 1, declined := {FIRST}, replies := [Reply(FIRST, StatusConnectFailed)])
  }

  /** The host's answer was OK, and its call is back. */
  lemma HostReads(key: Key, h0: Stream, p: Stream)
    requires h0.readable && h0.replies == [Reply(FIRST, StatusOk)] && Reachable(Trying(key, h0, p, Sent, Sent))
    ensures Reachable(Trying(key, h0.(replies := []), p, Back(Nil), Sent))
  {
    var h := h0.(replies := []);
    assert h0.replies[1..] == [] && [h0, p][0 := h] == [h, p];
    Step(Trying(key, h0, p, Sent, Sent), ReadReply(0, HostEnd, 0), Trying(key, h, p, Back(Nil), Sent));
  }

  /** The peer's answer was that it could not connect. */
  lemma PeerReads(key: Key, h: Stream, p0: Stream)
    requires p0.readable && p0.replies == [Reply(FIRST, StatusConnectFailed)] && Reachable(Trying(key, h, p0, Back(Nil), Sent))
    ensures Reachable(Trying(key, h, p0.(replies := []), Back(Nil), Back(ConnectFailed)))
  {
    var p := p0.(replies := []);
    assert p0.replies[1..] == [] && [h, p0][1 := p] == [h, p];
    Step(Trying(key, h, p0, Back(Nil), Sent), ReadReply(0, PeerEnd, 0), Trying(key, h, p, Back(Nil), Back(ConnectFailed)));
  }

  /** A run, for every host, in which a relay is tried although the host's agent has delivered
      its direct connection. */
  lemma RelayThoughDelivered(key: Key) returns (s: State)
    ensures Reachable(s) && |s.setups| == 1 && s.setups[0].phase == Active(Some(0), Unsent, Unsent) && s.sessions == [0]
    ensures s.hosts == map[key := 0] && s.setups[0].host == 0 && Delivered(s, 0, FIRST)
    ensures s == Relaying(key, FirstDone(Some(key), true), FirstDone(None, false), Unsent, Unsent, [])
  {
    var h0, p0 := AnsweredStream(Asked(Some(key)), true), AnsweredStream(Asked(None), false);
    BothAnswered(key);
    HostReads(key, h0, p0);
    PeerReads(key, h0.(replies := []), p0);
    s := Relaying(key, FirstDone(Some(key), true), FirstDone(None, false), Unsent, Unsent, []);
    FinishesInRelay(Trying(key, h0.(replies := []), p0.(replies := []), Back(Nil), Back(ConnectFailed)), key, s);
  }

  lemma FinishesInRelay(s: State, key: Key, t: State)
    requires Reachable(s) && s.setups == [Setup(key, 0, 1, Active(None, Back(Nil), Back(ConnectFailed)))] && s.sessions == []
    requires t == s.(setups := [Setup(key, 0, 1, Active(Some(0), Unsent, Unsent))], sessions := [0])
    ensures Reachable(t)
  {
    FallbackWhenEitherFailed(Nil, ConnectFailed);
    Step(s, Finish(0), t);
  }

  // ------------------------------------------------------------------ a relayed connection

  const SECOND := Cmd(0, Some(0))

  /** A stream whose first command was answered, and the answer read. */
  function FirstDone(key: Option<Key>, ok: bool): Stream {
    AnsweredStream(Asked(key), ok).(replies := [])
  }

  /** The setup in its second attempt. */
  function Relaying(key: Key, host: Stream, peer: Stream, h: Call, p: Call, arrivals: seq<(nat, nat)>): State {
    State([host, peer], map[key := 0], map[0 := 0], [Setup(key, 0, 1, Active(Some(0), h, p))], 0, 0, [], [0], arrivals)
  }

  lemma BothAskedAgain(key: Key)
    ensures Reachable(Relaying(key, FirstDone(Some(key), true).(issued := [FIRST, SECOND]),
                               FirstDone(None, false).(issued := [FIRST, SECOND]), Sent, Sent, []))
  {
    var h0, p0 := FirstDone(Some(key), true), FirstDone(None, false);
    var h, p := h0.(issued := [FIRST, SECOND]), p0.(issued := [FIRST, SECOND]);
    var s := RelayThoughDelivered(key);
    var s1 := Relaying(key, h, p0, Sent, Unsent, []);
    assert [FIRST] + [SECOND] == [FIRST, SECOND];
    assert [h0, p0][0 := h] == [h, p0] && [h, p0][1 := p] == [h, p];
    assert Reachable(s1) by { Step(s, Write(0, HostEnd), s1); }
    Step(s1, Write(0, PeerEnd), Relaying(key, h, p, Sent, Sent, []));
  }

  /** The agent takes the relay command and its stream reaches the server. */
  function Arrived(st: Stream): Stream {
    st.(taken := 2, agent := Handling(SECOND, true))
  }

  lemma Arrives(s: State, i: nat, st: Stream)
    requires Reachable(s) && i < |s.streams| && s.streams[i] == st
    requires st.issued == [FIRST, SECOND] && st.taken == 1 && st.agent == Serving
    ensures Reachable(s.(streams := s.streams[i := Arrived(st)], arrivals := s.arrivals + [(0, i)]))
  {
    var st1 := st.(taken := 2, agent := Handling(SECOND, false));
    var s1 := s.(streams := s.streams[i := st1]);
    AgentMoves(s, TakeCommand(i), st1);
    assert s1.streams[i := Arrived(st)] == s.streams[i := Arrived(st)];
    Step(s1, Present(i), s1.(streams := s1.streams[i := Arrived(st)], arrivals := s.arrivals + [(0, i)]));
  }

  /** It hands the relayed connection out and answers. */
  function Relayed(st: Stream): Stream {
    st.(taken := 2, delivered := st.delivered + {SECOND}, confirmed := st.confirmed + {SECOND}, replies := [Reply(SECOND, StatusOk)])
  }

  lemma AnswersRelay(s: State, i: nat, st: Stream)
    requires Reachable(s) && i < |s.streams| && s.streams[i] == Arrived(st)
    requires st.agent == Serving && st.replies == []
    ensures Reachable(s.(streams := s.streams[i := Relayed(st)]))
  {
    var st1 := Arrived(st).(agent := Answering(SECOND, StatusOk), delivered := st.delivered + {SECOND});
    var s1 := s.(streams := s.streams[i := st1]);
    AgentMoves(s, Succeed(i), st1);
    assert s1.streams[i := Relayed(st)] == s.streams[i := Relayed(st)];
    assert [] + [Reply(SECOND, StatusOk)] == [Reply(SECOND, StatusOk)];
    AgentMoves(s1, SendReply(i), Relayed(st));
  }

  lemma BothRelayed(key: Key, h: Stream, p: Stream)
    requires h.issued == p.issued == [FIRST, SECOND] && h.taken == p.taken == 1 && h.agent == p.agent == Serving
    requires h.replies == p.replies == [] && Reachable(Relaying(key, h, p, Sent, Sent, []))
    ensures Reachable(Relaying(key, Relayed(h), Relayed(p), Sent, Sent, [(0, 0), (0, 1)]))
  {
    assert [] + [(0, 0)] == [(0, 0)] && [(0, 0)] + [(0, 1)] == [(0, 0), (0, 1)];
    assert [h, p][0 := Arrived(h)] == [Arrived(h), p] && [Arrived(h), p][0 := Relayed(h)] == [Relayed(h), p];
    Arrives(Relaying(key, h, p, Sent, Sent, []), 0, h);
    AnswersRelay(Relaying(key, Arrived(h), p, Sent, Sent, [(0, 0)]), 0, h);
    assert [Relayed(h), p][1 := Arrived(p)] == [Relayed(h), Arrived(p)];
    assert [Relayed(h), Arrived(p)][1 := Relayed(p)] == [Relayed(h), Relayed(p)];
    Arrives(Relaying(key, Relayed(h), p, Sent, Sent, [(0, 0)]), 1, p);
    AnswersRelay(Relaying(key, Relayed(h), Arrived(p), Sent, Sent, [(0, 0), (0, 1)]), 1, p);
  }

  lemma HostReadsAgain(key: Key, h0: Stream, p: Stream, arrivals: seq<(nat, nat)>)
    requires h0.readable && h0.replies == [Reply(SECOND, StatusOk)] && Reachable(Relaying(key, h0, p, Sent, Sent, arrivals))
    ensures Reachable(Relaying(key, h0.(replies := []), p, Back(Nil), Sent, arrivals))
  {
    var h := h0.(replies := []);
    assert h0.replies[1..] == [] && [h0, p][0 := h] == [h, p];
    Step(Relaying(key, h0, p, Sent, Sent, arrivals), ReadReply(0, HostEnd, 0), Relaying(key, h, p, Back(Nil), Sent, arrivals));
  }

  lemma BothReadAgain(key: Key, h0: Stream, p0: Stream, arrivals: seq<(nat, nat)>)
    requires h0.readable && p0.readable && h0.replies == p0.replies == [Reply(SECOND, StatusOk)]
    requires Reachable(Relaying(key, h0, p0, Sent, Sent, arrivals))
    ensures Reachable(Relaying(key, h0.(replies := []), p0.(replies := []), Back(Nil), Back(Nil), arrivals))
  {
    var h, p := h0.(replies := []), p0.(replies := []);
    HostReadsAgain(key, h0, p0, arrivals);
    assert p0.replies[1..] == [] && [h, p0][1 := p] == [h, p];
    Step(Relaying(key, h, p0, Back(Nil), Sent, arrivals), ReadReply(0, PeerEnd, 0), Relaying(key, h, p, Back(Nil), Back(Nil), arrivals));
  }

  /** A run, for every host, that is counted as relayed after the first attempt was declined. */
  lemma RelayHappens(key: Key) returns (s: State)
    ensures Reachable(s) && |s.setups| == 1 && s.setups[0].phase == Over(ByRelay(0)) && s.relayConns == 1 && s.p2pConns == 0
    ensures s.arrivals == [(0, 0), (0, 1)] && s.locks == map[]
  {
    var h0, p0 := FirstDone(Some(key), true).(issued := [FIRST, SECOND]), FirstDone(None, false).(issued := [FIRST, SECOND]);
    var h, p := Relayed(h0).(replies := []), Relayed(p0).(replies := []);
    var both := [(0, 0), (0, 1)];
    var s2 := Relaying(key, h, p, Back(Nil), Back(Nil), both);
    BothAskedAgain(key);
    BothRelayed(key, h0, p0);
    BothReadAgain(key, Relayed(h0), Relayed(p0), both);
    s := Apply(s2, Finish(0));
    Step(s2, Finish(0), s);
  }
}
