/** A direct connection from end to end (internal/registar/server.go, client.go,
    control/agent.go and p2p/connector.go together).

    The registar's setups and the two `Connect` calls of each of them run as one machine: an
    agent that has a connect-to command in its hands runs its connector, puts the connection
    it gets into its `conns` channel, and answers.  The host is the left side of its setup's
    pair of calls, the peer the right side. */
module DirectSetups {
  import opened Wrappers
  import E = RegistarErrors
  import R = RegistarSetup
  import P = P2PConnector
  import Q = P2PAgreement

  /** An agent's stream and the setup that its command was for. */
  type Job = (nat, nat)

  datatype State = State(
    reg: R.State,
    pairs: seq<P.State>,      // the two Connect calls of each setup
    handed: map<Job, nat>,    // the connection that went into the agent's `conns`
    rejected: set<Job>,       // the handler closed its connection: the context had ended
    nils: map<Job, bool>)     // Connect returned neither a connection nor an error; true if
                              // that nil was wrapped and put into `conns`

  datatype Action =
    | Registar(step: R.Action)
    | Connector(setup: nat, move: P.Action)
    | MeetNil(stream: nat, sent: bool)

  function SideAt(x: R.Setup, i: nat): P.Side {
    if i == x.host then P.Left else P.Right
  }

  /** The agent of stream `i` works on the connect-to command of setup `c`. */
  predicate Works(s: State, i: nat, c: nat) {
    && i < |s.reg.streams| && c < |s.reg.setups| && c < |s.pairs|
    && (s.reg.streams[i].agent.Handling? || s.reg.streams[i].agent.Answering?)
    && s.reg.streams[i].agent.cmd == R.Cmd(c, None)
  }

  /** The connector that serves the agent of stream `i` in setup `c`. */
  function Mine(s: State, i: nat, c: nat): P.Peer
    requires c < |s.reg.setups| && c < |s.pairs|
  {
    s.pairs[c].Get(SideAt(s.reg.setups[c], i))
  }

  /** client.go:295-297 and agent.go:27-31: the handler did not get to call Connect. */
  predicate NotTried(cfg: nat -> P.Config, s: State, i: nat, c: nat)
    requires c < |s.reg.setups| && c < |s.pairs|
  {
    Mine(s, i, c) == P.InitPeer(cfg(c), SideAt(s.reg.setups[c], i))
  }

  predicate GotOne(call: P.Call) {
    call.Returned? && call.result.Some? && !call.failed
  }

  /** client.go:294-321: how the handler may go on after Connect is back. */
  predicate HandlerAllows(cfg: nat -> P.Config, s: State, a: R.Action)
    requires R.Enabled(s.reg, a)
  {
    (a.Succeed? || a.Decline? || a.HandlerFails? || a.SendReply?)
    && Works(s, a.stream, s.reg.streams[a.stream].agent.cmd.setup) ==>
      var i, c := a.stream, s.reg.streams[a.stream].agent.cmd.setup;
      var p := Mine(s, i, c);
      match a
      case Succeed(_) => GotOne(p.call)
      case Decline(_) => NotTried(cfg, s, i, c) || (p.call.Returned? && p.call.failed)
      case HandlerFails(_) => NotTried(cfg, s, i, c) || (p.call.Returned? && p.call != P.Returned(None, false))
      case SendReply(_) => !p.parentCancelled   // the context is the stream's: it takes no more writes
      case _ => true
  }

  predicate Enabled(cfg: nat -> P.Config, s: State, a: Action) {
    match a
    case Registar(step) => R.Enabled(s.reg, step) && HandlerAllows(cfg, s, step)
    case Connector(c, move) =>
      && c < |s.pairs| && c < |s.reg.setups| && P.Enabled(cfg(c), s.pairs[c], move)
      && var i := if move.side == P.Left then s.reg.setups[c].host else s.reg.setups[c].peer;
         Works(s, i, c) && s.reg.streams[i].agent.Handling?
    case MeetNil(i, _) =>
      && i < |s.reg.streams| && s.reg.streams[i].agent.Handling?
      && Works(s, i, s.reg.streams[i].agent.cmd.setup)
      && Mine(s, i, s.reg.streams[i].agent.cmd.setup).call == P.Returned(None, false)
  }

  function ApplyRegistar(cfg: nat -> P.Config, s: State, a: R.Action): State
    requires Enabled(cfg, s, Registar(a))
  {
    var s' := s.(reg := R.Apply(s.reg, a));
    if a.JoinHost? then s'.(pairs := s.pairs + [P.Init(cfg(|s.pairs|))])
    else if (a.Succeed? || a.HandlerFails?) && Works(s, a.stream, s.reg.streams[a.stream].agent.cmd.setup) then
      var c := s.reg.streams[a.stream].agent.cmd.setup;
      var call := Mine(s, a.stream, c).call;
      if a.Succeed? then s'.(handed := s.handed[(a.stream, c) := call.result.value])
      else if GotOne(call) then s'.(rejected := s.rejected + {(a.stream, c)})
      else s'
    else s'
  }

  /** The nil that Connect returned without an error goes through the same select: it is
      wrapped and sent or its context's end is seen, and the next call on it does not return. */
  function Apply(cfg: nat -> P.Config, s: State, a: Action): State
    requires Enabled(cfg, s, a)
  {
    match a
    case Registar(step) => ApplyRegistar(cfg, s, step)
    case Connector(c, move) => s.(pairs := s.pairs[c := P.Apply(cfg(c), s.pairs[c], move)])
    case MeetNil(i, sent) =>
      var job := (i, s.reg.streams[i].agent.cmd.setup);
      s.(reg := R.Apply(s.reg, R.AgentStops(i)), nils := s.nils[job := sent])
  }

  const INIT := State(R.INIT, [], map[], {}, map[])

  function Run(cfg: nat -> P.Config, acts: seq<Action>): Option<State> {
    if acts == [] then Some(INIT)
    else
      var prev := Run(cfg, acts[..|acts| - 1]);
      if prev.Some? && Enabled(cfg, prev.value, acts[|acts| - 1])
      then Some(Apply(cfg, prev.value, acts[|acts| - 1]))
      else None
  }

  ghost predicate Reachable(cfg: nat -> P.Config, s: State) {
    exists acts :: Run(cfg, acts) == Some(s)
  }

  // ------------------------------------------------------------------ each part runs as before

  lemma PairStep(cfg: P.Config, k: P.State, a: P.Action)
    requires P.Reachable(cfg, k) && P.Enabled(cfg, k, a)
    ensures P.Reachable(cfg, P.Apply(cfg, k, a))
  {
    var acts :| P.Run(cfg, acts) == Some(k);
    assert (acts + [a])[..|acts + [a]| - 1] == acts;
    assert P.Run(cfg, acts + [a]) == Some(P.Apply(cfg, k, a));
  }

  lemma NewPair(cfg: P.Config)
    ensures P.Reachable(cfg, P.Init(cfg))
  {
    assert P.Run(cfg, []) == Some(P.Init(cfg));
  }

  ghost predicate PartsRun(cfg: nat -> P.Config, s: State) {
    && R.Reachable(s.reg) && |s.pairs| == |s.reg.setups|
    && forall c: nat :: c < |s.pairs| ==> P.Reachable(cfg(c), s.pairs[c])
  }

  /** A setup keeps its two ends, and only JoinHost makes new ones. */
  lemma SetupsStay(s: R.State, a: R.Action)
    requires R.Enabled(s, a)
    ensures |R.Apply(s, a).setups| == |s.setups| + if a.JoinHost? then 1 else 0
    ensures forall c :: 0 <= c < |s.setups| ==>
      R.Apply(s, a).setups[c].host == s.setups[c].host && R.Apply(s, a).setups[c].peer == s.setups[c].peer
  {
    if R.IsSetupStep(a) {
      R.SetupFrame(s, a);
    } else if R.IsAgentStep(a) {
      R.AgentFrame(s, a);
    }
  }

  lemma RegistarParts(cfg: nat -> P.Config, s: State, a: R.Action)
    requires PartsRun(cfg, s) && Enabled(cfg, s, Registar(a))
    ensures PartsRun(cfg, Apply(cfg, s, Registar(a)))
  {
    var s' := Apply(cfg, s, Registar(a));
    R.Step(s.reg, a, R.Apply(s.reg, a));
    SetupsStay(s.reg, a);
    NewPair(cfg(|s.pairs|));
    assert s'.pairs == if a.JoinHost? then s.pairs + [P.Init(cfg(|s.pairs|))] else s.pairs;
  }

  lemma {:induction false} PartsStep(cfg: nat -> P.Config, s: State, a: Action)
    requires PartsRun(cfg, s) && Enabled(cfg, s, a)
    ensures PartsRun(cfg, Apply(cfg, s, a))
  {
    match a
    case Registar(step) =>
      RegistarParts(cfg, s, step);
    case Connector(c, move) =>
      PairStep(cfg(c), s.pairs[c], move);
    case MeetNil(i, _) =>
      R.Step(s.reg, R.AgentStops(i), R.Apply(s.reg, R.AgentStops(i)));
      SetupsStay(s.reg, R.AgentStops(i));
  }

  // ------------------------------------------------------------------ what an answer rests on

  /** The agent has taken `cmd` and is through with it. */
  predicate Through(st: R.Stream, cmd: R.Cmd) {
    && st.taken <= |st.issued| && cmd in st.issued[..st.taken]
    && !(st.agent.Handling? && st.agent.cmd == cmd)
  }

  /** The results of a job agree: what was handed out is what Connect returned, an answer was
      only written while the context lived, and nothing was both handed out and not. */
  predicate Kept(s: State, i: nat, c: nat) {
    var cmd := R.Cmd(c, None);
    && (i < |s.reg.streams| && cmd in s.reg.streams[i].delivered ==>
          && c < |s.pairs| && c < |s.reg.setups| && Through(s.reg.streams[i], cmd) && (i, c) in s.handed
          && Mine(s, i, c).call == P.Returned(Some(s.handed[(i, c)]), false))
    && (i < |s.reg.streams| && cmd in s.reg.streams[i].confirmed ==>
          && cmd in s.reg.streams[i].delivered
          && c < |s.pairs| && c < |s.reg.setups| && !Mine(s, i, c).parentCancelled)
    && ((i, c) in s.rejected || (i, c) in s.nils ==>
          i < |s.reg.streams| && Through(s.reg.streams[i], cmd) && cmd !in s.reg.streams[i].delivered)
    && ((i, c) in s.nils ==>
          c < |s.pairs| && c < |s.reg.setups| && Mine(s, i, c).call == P.Returned(None, false))
  }

  /** A call that is back stays as it is. */
  lemma BackStays(cfg: P.Config, k: P.State, a: P.Action, side: P.Side)
    requires P.Enabled(cfg, k, a) && k.Get(side).call.Returned?
    ensures var p, p' := k.Get(side), P.Apply(cfg, k, a).Get(side);
      p'.call == p.call && p'.parentCancelled == p.parentCancelled
  {
    P.PeerMonotone(cfg, k, a, side);
  }

  lemma ConnectorKeeps(cfg: nat -> P.Config, s: State, a: Action, i: nat, c: nat)
    requires a.Connector? && Enabled(cfg, s, a) && Kept(s, i, c)
    ensures Kept(Apply(cfg, s, a), i, c)
  {
    if c == a.setup && Mine(s, i, c).call.Returned? {
      BackStays(cfg(c), s.pairs[c], a.move, SideAt(s.reg.setups[c], i));
    }
  }

  /** A command is taken once, so being through with it lasts. */
  lemma ThroughStays(s: R.State, a: R.Action, i: nat, cmd: R.Cmd)
    requires R.Enabled(s, a) && i < |s.streams| && R.CommandsOrdered(s.streams[i]) && Through(s.streams[i], cmd)
    ensures i < |R.Apply(s, a).streams| && Through(R.Apply(s, a).streams[i], cmd)
  {
    var st, st' := s.streams[i], R.Apply(s, a).streams[i];
    if a.TakeCommand? && a.stream == i {
      assert st.issued[..st.taken + 1] == st.issued[..st.taken] + [st.issued[st.taken]];
    } else if a.Write? {
      assert st'.issued[..st.taken] == st.issued[..st.taken];
    }
  }

  /** What an agent stops working on, it is through with; it was not before. */
  lemma ThroughNow(s: R.State, a: R.Action)
    requires R.Enabled(s, a) && (a.Succeed? || a.Decline? || a.HandlerFails? || a.AgentStops?)
    requires s.streams[a.stream].agent.Handling? && R.CommandsOrdered(s.streams[a.stream])
    ensures !Through(s.streams[a.stream], s.streams[a.stream].agent.cmd)
    ensures Through(R.Apply(s, a).streams[a.stream], s.streams[a.stream].agent.cmd)
  {
    var st := s.streams[a.stream];
    assert st.issued[..st.taken][st.taken - 1] == st.agent.cmd;
  }

  /** A step of the registar that neither moves an agent nor adds a stream or a setup. */
  lemma SetupKeeps(cfg: nat -> P.Config, s: State, a: R.Action, i: nat, c: nat)
    requires Enabled(cfg, s, Registar(a)) && !R.IsAgentStep(a) && PartsRun(cfg, s)
    requires Kept(s, i, c) && (i < |s.reg.streams| ==> R.CommandsOrdered(s.reg.streams[i]))
    ensures Kept(Apply(cfg, s, Registar(a)), i, c)
  {
    SetupsStay(s.reg, a);
    if R.IsSetupStep(a) {
      R.SetupFrame(s.reg, a);
    }
    if i < |s.reg.streams| && Through(s.reg.streams[i], R.Cmd(c, None)) {
      ThroughStays(s.reg, a, i, R.Cmd(c, None));
    }
  }

  lemma {:induction false} OtherAgentKeeps(cfg: nat -> P.Config, s: State, a: R.Action, i: nat, c: nat)
    requires Enabled(cfg, s, Registar(a)) && R.IsAgentStep(a) && a.stream != i && Kept(s, i, c)
    ensures Kept(Apply(cfg, s, Registar(a)), i, c)
  {
    R.AgentFrame(s.reg, a);
  }

  /** Taking a command, presenting, declining and stopping hand out and answer nothing. */
  lemma QuietAgentKeeps(cfg: nat -> P.Config, s: State, a: R.Action, c: nat)
    requires Enabled(cfg, s, Registar(a)) && R.IsAgentStep(a) && !a.Succeed? && !a.HandlerFails? && !a.SendReply?
    requires R.CommandsOrdered(s.reg.streams[a.stream]) && Kept(s, a.stream, c)
    ensures Kept(Apply(cfg, s, Registar(a)), a.stream, c)
  {
    var st, st' := s.reg.streams[a.stream], R.Apply(s.reg, a).streams[a.stream];
    R.AgentFrame(s.reg, a);
    assert st'.delivered == st.delivered && st'.confirmed == st.confirmed;
    if Through(st, R.Cmd(c, None)) {
      ThroughStays(s.reg, a, a.stream, R.Cmd(c, None));
    }
  }

  lemma SucceedKeeps(cfg: nat -> P.Config, s: State, a: R.Action, c: nat)
    requires a.Succeed? && Enabled(cfg, s, Registar(a)) && PartsRun(cfg, s)
    requires R.StreamSound(s.reg, a.stream) && Kept(s, a.stream, c)
    ensures Kept(Apply(cfg, s, Registar(a)), a.stream, c)
  {
    var st, cmd := s.reg.streams[a.stream], R.Cmd(c, None);
    R.AgentFrame(s.reg, a);
    ThroughNow(s.reg, a);
    if st.agent.cmd == cmd {
      assert R.CameFrom(s.reg, a.stream, cmd);
    } else if Through(st, cmd) {
      ThroughStays(s.reg, a, a.stream, cmd);
    }
  }

  lemma FailKeeps(cfg: nat -> P.Config, s: State, a: R.Action, c: nat)
    requires a.HandlerFails? && Enabled(cfg, s, Registar(a))
    requires R.CommandsOrdered(s.reg.streams[a.stream]) && Kept(s, a.stream, c)
    ensures Kept(Apply(cfg, s, Registar(a)), a.stream, c)
  {
    var st, cmd := s.reg.streams[a.stream], R.Cmd(c, None);
    R.AgentFrame(s.reg, a);
    ThroughNow(s.reg, a);
    if Through(st, cmd) {
      ThroughStays(s.reg, a, a.stream, cmd);
    }
  }

  lemma ReplyKeeps(cfg: nat -> P.Config, s: State, a: R.Action, c: nat)
    requires a.SendReply? && Enabled(cfg, s, Registar(a)) && R.StreamSound(s.reg, a.stream) && Kept(s, a.stream, c)
    ensures Kept(Apply(cfg, s, Registar(a)), a.stream, c)
  {
    var st, cmd := s.reg.streams[a.stream], R.Cmd(c, None);
    R.AgentFrame(s.reg, a);
    if Through(st, cmd) {
      ThroughStays(s.reg, a, a.stream, cmd);
    }
    if st.agent.cmd == cmd && st.agent.status == R.StatusOk {
      assert Works(s, a.stream, c);
    }
  }

  lemma {:induction false} AgentKeeps(cfg: nat -> P.Config, s: State, a: R.Action, c: nat)
    requires Enabled(cfg, s, Registar(a)) && R.IsAgentStep(a) && PartsRun(cfg, s)
    requires R.StreamSound(s.reg, a.stream) && Kept(s, a.stream, c)
    ensures Kept(Apply(cfg, s, Registar(a)), a.stream, c)
  {
    if a.Succeed? {
      SucceedKeeps(cfg, s, a, c);
    } else if a.HandlerFails? {
      FailKeeps(cfg, s, a, c);
    } else if a.SendReply? {
      ReplyKeeps(cfg, s, a, c);
    } else {
      QuietAgentKeeps(cfg, s, a, c);
    }
  }

  lemma NilKeeps(cfg: nat -> P.Config, s: State, a: Action, i: nat, c: nat)
    requires a.MeetNil? && Enabled(cfg, s, a) && Kept(s, i, c)
    requires R.CommandsOrdered(s.reg.streams[a.stream])
    ensures Kept(Apply(cfg, s, a), i, c)
  {
    var stop := R.AgentStops(a.stream);
    R.AgentFrame(s.reg, stop);
    ThroughNow(s.reg, stop);
    if i < |s.reg.streams| && Through(s.reg.streams[i], R.Cmd(c, None)) && i == a.stream {
      ThroughStays(s.reg, stop, i, R.Cmd(c, None));
    }
  }

  ghost predicate Inv(cfg: nat -> P.Config, s: State) {
    PartsRun(cfg, s) && forall i: nat, c: nat :: Kept(s, i, c)
  }

  lemma StreamsSound(s: R.State)
    requires R.Reachable(s)
    ensures forall i: nat :: i < |s.streams| ==> R.StreamSound(s, i)
  {
    R.ReachableKeepsInv(s);
  }

  lemma {:induction false} RegistarKeeps(cfg: nat -> P.Config, s: State, a: R.Action, i: nat, c: nat)
    requires Enabled(cfg, s, Registar(a)) && PartsRun(cfg, s) && Kept(s, i, c)
    requires i < |s.reg.streams| ==> R.StreamSound(s.reg, i)
    ensures Kept(Apply(cfg, s, Registar(a)), i, c)
  {
    if !R.IsAgentStep(a) {
      SetupKeeps(cfg, s, a, i, c);
    } else if a.stream != i {
      OtherAgentKeeps(cfg, s, a, i, c);
    } else {
      AgentKeeps(cfg, s, a, c);
    }
  }

  lemma {:induction false} InvStep(cfg: nat -> P.Config, s: State, a: Action)
    requires Inv(cfg, s) && Enabled(cfg, s, a)
    ensures Inv(cfg, Apply(cfg, s, a))
  {
    PartsStep(cfg, s, a);
    StreamsSound(s.reg);
    forall i: nat, c: nat ensures Kept(Apply(cfg, s, a), i, c) {
      assert Kept(s, i, c);
      match a
      case Registar(step) =>
        RegistarKeeps(cfg, s, step, i, c);
      case Connector(_, _) =>
        ConnectorKeeps(cfg, s, a, i, c);
      case MeetNil(j, _) =>
        assert R.StreamSound(s.reg, j);
        NilKeeps(cfg, s, a, i, c);
    }
  }

  lemma InvInit(cfg: nat -> P.Config)
    ensures Inv(cfg, INIT)
  {
    assert R.Run([]) == Some(R.INIT);
  }

  lemma {:induction false} RunsKeepInv(cfg: nat -> P.Config, acts: seq<Action>)
    requires Run(cfg, acts).Some?
    ensures Inv(cfg, Run(cfg, acts).value)
  {
    if acts == [] {
      InvInit(cfg);
    } else {
      RunsKeepInv(cfg, acts[..|acts| - 1]);
      InvStep(cfg, Run(cfg, acts[..|acts| - 1]).value, acts[|acts| - 1]);
    }
  }

  lemma {:induction false} ReachableKeepsInv(cfg: nat -> P.Config, s: State)
    requires Reachable(cfg, s)
    ensures Inv(cfg, s)
  {
    var acts :| Run(cfg, acts) == Some(s);
    RunsKeepInv(cfg, acts);
  }

  // ------------------------------------------------------------------ no connection is lost

  /** If Connect returned a connection and the agent is through with the command, the
      connection was handed out or rejected, unless the agent stopped. */
  predicate NotLost(s: State, i: nat, c: nat) {
    i < |s.reg.streams| && c < |s.reg.setups| && c < |s.pairs| && Through(s.reg.streams[i], R.Cmd(c, None))
    && s.reg.streams[i].agent != R.Stopped && GotOne(Mine(s, i, c).call) ==>
      R.Cmd(c, None) in s.reg.streams[i].delivered || (i, c) in s.rejected
  }

  /** Only the setup's own agents run its connectors, and each its own. */
  lemma OthersConnector(cfg: nat -> P.Config, s: State, a: Action, i: nat, c: nat)
    requires a.Connector? && Enabled(cfg, s, a) && Inv(cfg, s)
    requires i < |s.reg.streams| && c < |s.reg.setups| && Through(s.reg.streams[i], R.Cmd(c, None))
    ensures Mine(Apply(cfg, s, a), i, c) == Mine(s, i, c)
  {
    if c == a.setup {
      StreamsSound(s.reg);
      R.ReachableKeepsInv(s.reg);
      assert R.Cmd(c, None) in s.reg.streams[i].issued && R.StreamSound(s.reg, i);
      assert R.CameFrom(s.reg, i, R.Cmd(c, None));
      P.PeerMonotone(cfg(c), s.pairs[c], a.move, SideAt(s.reg.setups[c], i));
    }
  }

  lemma ConnectorLosesNone(cfg: nat -> P.Config, s: State, a: Action, i: nat, c: nat)
    requires a.Connector? && Enabled(cfg, s, a) && Inv(cfg, s) && NotLost(s, i, c)
    ensures NotLost(Apply(cfg, s, a), i, c)
  {
    if i < |s.reg.streams| && c < |s.reg.setups| && Through(s.reg.streams[i], R.Cmd(c, None)) {
      OthersConnector(cfg, s, a, i, c);
    }
  }

  /** An agent becomes through with a command only by ending the work on it. */
  predicate EndsWork(s: R.State, a: R.Action, i: nat, cmd: R.Cmd) {
    && (a.Succeed? || a.Decline? || a.HandlerFails? || a.AgentStops?) && a.stream == i
    && i < |s.streams| && s.streams[i].agent.Handling? && s.streams[i].agent.cmd == cmd
  }

  lemma BecomesThrough(s: R.State, a: R.Action, i: nat, cmd: R.Cmd)
    requires R.Enabled(s, a) && i < |R.Apply(s, a).streams| && Through(R.Apply(s, a).streams[i], cmd)
    requires i < |s.streams| ==> R.CommandsOrdered(s.streams[i])
    ensures i < |s.streams| && (Through(s.streams[i], cmd) || EndsWork(s, a, i, cmd))
  {
    if i < |s.streams| {
      var st, st' := s.streams[i], R.Apply(s, a).streams[i];
      if R.IsAgentStep(a) {
        R.AgentFrame(s, a);
        if a.TakeCommand? && a.stream == i {
          assert st.issued[..st.taken + 1] == st.issued[..st.taken] + [st.issued[st.taken]];
        }
      } else if R.IsSetupStep(a) {
        R.SetupFrame(s, a);
        if a.Write? {
          assert st'.issued[..st.taken] == st.issued[..st.taken];
        }
      }
    }
  }

  /** How the work ends decides what becomes of the connection. */
  lemma JustThrough(cfg: nat -> P.Config, s: State, a: R.Action, i: nat, c: nat)
    requires Enabled(cfg, s, Registar(a)) && EndsWork(s.reg, a, i, R.Cmd(c, None)) && Works(s, i, c)
    ensures NotLost(Apply(cfg, s, Registar(a)), i, c)
  {
    SetupsStay(s.reg, a);
  }

  lemma ThroughOrEnds(s: State, a: R.Action, i: nat, c: nat)
    requires R.Reachable(s.reg) && |s.pairs| == |s.reg.setups| && R.Enabled(s.reg, a)
    requires i < |R.Apply(s.reg, a).streams| && Through(R.Apply(s.reg, a).streams[i], R.Cmd(c, None))
    ensures i < |s.reg.streams| && R.StreamSound(s.reg, i)
    ensures Through(s.reg.streams[i], R.Cmd(c, None)) || (EndsWork(s.reg, a, i, R.Cmd(c, None)) && Works(s, i, c))
  {
    StreamsSound(s.reg);
    if i < |s.reg.streams| {
      assert R.StreamSound(s.reg, i);
    }
    BecomesThrough(s.reg, a, i, R.Cmd(c, None));
    if EndsWork(s.reg, a, i, R.Cmd(c, None)) {
      assert R.CameFrom(s.reg, i, R.Cmd(c, None));
    }
  }

  lemma RegistarLosesNone(cfg: nat -> P.Config, s: State, a: R.Action, i: nat, c: nat)
    requires Enabled(cfg, s, Registar(a)) && Inv(cfg, s) && NotLost(s, i, c)
    ensures NotLost(Apply(cfg, s, Registar(a)), i, c)
  {
    if i < |R.Apply(s.reg, a).streams| && Through(R.Apply(s.reg, a).streams[i], R.Cmd(c, None)) {
      ThroughOrEnds(s, a, i, c);
      if Through(s.reg.streams[i], R.Cmd(c, None)) {
        StillThrough(cfg, s, a, i, c);
      } else {
        JustThrough(cfg, s, a, i, c);
      }
    }
  }

  lemma StillThrough(cfg: nat -> P.Config, s: State, a: R.Action, i: nat, c: nat)
    requires Enabled(cfg, s, Registar(a)) && Inv(cfg, s) && NotLost(s, i, c)
    requires i < |s.reg.streams| && Through(s.reg.streams[i], R.Cmd(c, None)) && R.StreamSound(s.reg, i)
    ensures NotLost(Apply(cfg, s, Registar(a)), i, c)
  {
    assert R.CameFrom(s.reg, i, R.Cmd(c, None));
    SetupsStay(s.reg, a);
    DeliveredStays(s.reg, a, i);
  }

  lemma DeliveredStays(s: R.State, a: R.Action, i: nat)
    requires R.Enabled(s, a) && i < |s.streams|
    ensures i < |R.Apply(s, a).streams| && s.streams[i].delivered <= R.Apply(s, a).streams[i].delivered
    ensures s.streams[i].agent == R.Stopped ==> R.Apply(s, a).streams[i].agent == R.Stopped
  {
    if R.IsAgentStep(a) {
      R.AgentFrame(s, a);
    } else if R.IsSetupStep(a) {
      R.SetupFrame(s, a);
    }
  }

  lemma NilLosesNone(cfg: nat -> P.Config, s: State, a: Action, i: nat, c: nat)
    requires a.MeetNil? && Enabled(cfg, s, a) && NotLost(s, i, c)
    ensures NotLost(Apply(cfg, s, a), i, c)
  {
    R.AgentFrame(s.reg, R.AgentStops(a.stream));
  }

  lemma {:induction false} RunsLoseNone(cfg: nat -> P.Config, acts: seq<Action>, i: nat, c: nat)
    requires Run(cfg, acts).Some?
    ensures NotLost(Run(cfg, acts).value, i, c)
  {
    if acts != [] {
      var before, a := acts[..|acts| - 1], acts[|acts| - 1];
      var s := Run(cfg, before).value;
      RunsLoseNone(cfg, before, i, c);
      RunsKeepInv(cfg, before);
      match a {
        case Registar(step) => RegistarLosesNone(cfg, s, step, i, c);
        case Connector(_, _) => ConnectorLosesNone(cfg, s, a, i, c);
        case MeetNil(_, _) => NilLosesNone(cfg, s, a, i, c);
      }
    }
  }

  // ------------------------------------------------------------------ results

  /** The agent of stream `i` has put connection `x` of setup `c` into `conns`. */
  predicate Handed(s: State, i: nat, c: nat, x: nat) {
    (i, c) in s.handed && s.handed[(i, c)] == x
  }

  /** Whatever the two agents of a setup answered OK to is one connection, the only open one.
      Unlike `P2PConnector.Agreement` this assumes nothing on replies or on cancellation: an
      answer cannot be written once the agent's context has ended. */
  lemma {:induction false} AnswersAgree(cfg: nat -> P.Config, s: State, c: nat) returns (x: nat)
    requires Reachable(cfg, s) && c < |s.reg.setups| && cfg(c).leftId != cfg(c).rightId
    requires s.reg.setups[c].host != s.reg.setups[c].peer
    requires R.Confirmed(s.reg, s.reg.setups[c].host, R.Cmd(c, None))
    requires R.Confirmed(s.reg, s.reg.setups[c].peer, R.Cmd(c, None))
    ensures Handed(s, s.reg.setups[c].host, c, x) && Handed(s, s.reg.setups[c].peer, c, x)
    ensures c < |s.pairs| && x < |s.pairs[c].conns|
    ensures forall y :: 0 <= y < |s.pairs[c].conns| ==> (s.pairs[c].conns[y].Closed() <==> y != x)
    ensures (s.reg.setups[c].host, c) !in s.rejected && (s.reg.setups[c].peer, c) !in s.rejected
  {
    var h, p := s.reg.setups[c].host, s.reg.setups[c].peer;
    ReachableKeepsInv(cfg, s);
    assert Kept(s, h, c) && Kept(s, p, c);
    x := s.handed[(h, c)];
    P.LessIsTotal(cfg(c).leftId, cfg(c).rightId);
    OnlyOneOpen(cfg(c), s.pairs[c], if cfg(c).Wins(P.Left) then P.Left else P.Right, x, s.handed[(p, c)]);
  }

  lemma OnlyOneOpen(cfg: P.Config, k: P.State, hi: P.Side, x: nat, y: nat)
    requires cfg.Wins(hi) && P.Reachable(cfg, k) && P.Connected(k, P.Left, x) && P.Connected(k, P.Right, y)
    requires !k.left.parentCancelled && !k.right.parentCancelled
    ensures x == y && x < |k.conns|
    ensures forall z :: 0 <= z < |k.conns| ==> (k.conns[z].Closed() <==> z != x)
  {
    P.Agreement(cfg, k, hi, if hi == P.Left then x else y, if hi == P.Left then y else x);
    forall z | 0 <= z < |k.conns| && z != x ensures k.conns[z].Closed() {
      P.SingleSurvivor(cfg, k, hi, k.conns[z].dialler, x);
    }
  }

  /** No connection is lost: what Connect returned was put into `conns` or closed as rejected,
      and not both, once the agent is through with the command, unless the agent stopped. */
  lemma NoConnectionLost(cfg: nat -> P.Config, s: State, i: nat, c: nat)
    requires Reachable(cfg, s) && i < |s.reg.streams| && c < |s.reg.setups| && c < |s.pairs|
    requires GotOne(Mine(s, i, c).call)
    requires Through(s.reg.streams[i], R.Cmd(c, None)) && s.reg.streams[i].agent != R.Stopped
    ensures R.Cmd(c, None) in s.reg.streams[i].delivered <==> (i, c) !in s.rejected
    ensures (i, c) !in s.rejected ==> Handed(s, i, c, Mine(s, i, c).call.result.value)
  {
    var acts :| Run(cfg, acts) == Some(s);
    RunsLoseNone(cfg, acts, i, c);
    ReachableKeepsInv(cfg, s);
    assert Kept(s, i, c);
  }

  /** A setup that is counted as P2P has given both its ends the same connection, and that is
      the one connection of its two Connect calls that is not closed. */
  lemma {:induction false} SameConnection(cfg: nat -> P.Config, s: State, c: nat) returns (x: nat)
    requires Reachable(cfg, s) && c < |s.reg.setups| && cfg(c).leftId != cfg(c).rightId
    requires s.reg.setups[c].phase == R.Over(R.ByP2P)
    ensures s.reg.setups[c].host != s.reg.setups[c].peer && R.RightEnds(s.reg, s.reg.setups[c])
    ensures Handed(s, s.reg.setups[c].host, c, x) && Handed(s, s.reg.setups[c].peer, c, x)
    ensures c < |s.pairs| && x < |s.pairs[c].conns|
    ensures forall y :: 0 <= y < |s.pairs[c].conns| ==> (s.pairs[c].conns[y].Closed() <==> y != x)
    ensures (s.reg.setups[c].host, c) !in s.rejected && (s.reg.setups[c].peer, c) !in s.rejected
  {
    ReachableKeepsInv(cfg, s);
    R.ReachableKeepsInv(s.reg);
    R.OutcomeMeansConfirmed(s.reg, c);
    x := AnswersAgree(cfg, s, c);
  }

  /** The result that is neither a connection nor an error: a handler meets it only when its
      stream's context ended while Connect ran.  Its command is then never answered with OK
      and its setup is never counted as P2P, whether the nil went into `conns` or not. */
  lemma NilMeansCancelled(cfg: nat -> P.Config, s: State, i: nat, c: nat)
    requires Reachable(cfg, s) && (i, c) in s.nils && cfg(c).leftId != cfg(c).rightId
    ensures c < |s.reg.setups| && c < |s.pairs| && Mine(s, i, c).parentCancelled
    ensures i == s.reg.setups[c].host || i == s.reg.setups[c].peer
    ensures !R.Delivered(s.reg, i, R.Cmd(c, None)) && !R.Confirmed(s.reg, i, R.Cmd(c, None))
    ensures s.reg.setups[c].phase != R.Over(R.ByP2P)
  {
    ReachableKeepsInv(cfg, s);
    assert Kept(s, i, c);
    P.LessIsTotal(cfg(c).leftId, cfg(c).rightId);
    var hi := if cfg(c).Wins(P.Left) then P.Left else P.Right;
    P.NothingWithoutError(cfg(c), s.pairs[c], hi, SideAt(s.reg.setups[c], i));
    UndeliveredNotCounted(s.reg, i, c);
  }

  lemma UndeliveredNotCounted(s: R.State, i: nat, c: nat)
    requires R.Reachable(s) && i < |s.streams| && R.Cmd(c, None) in s.streams[i].issued
    requires !R.Delivered(s, i, R.Cmd(c, None))
    ensures c < |s.setups| && (i == s.setups[c].host || i == s.setups[c].peer)
    ensures !R.Confirmed(s, i, R.Cmd(c, None)) && s.setups[c].phase != R.Over(R.ByP2P)
  {
    R.ReachableKeepsInv(s);
    assert R.StreamSound(s, i) && R.CameFrom(s, i, R.Cmd(c, None));
    R.OutcomeMeansConfirmed(s, c);
    if R.Confirmed(s, i, R.Cmd(c, None)) {
      R.ConfirmedMeansDelivered(s, i, R.Cmd(c, None));
    }
  }

  // ------------------------------------------------------------------ runs

  lemma Step(cfg: nat -> P.Config, s: State, a: Action, t: State)
    requires Reachable(cfg, s) && Enabled(cfg, s, a) && t == Apply(cfg, s, a)
    ensures Reachable(cfg, t)
  {
    var acts :| Run(cfg, acts) == Some(s);
    assert (acts + [a])[..|acts + [a]| - 1] == acts;
    assert Run(cfg, acts + [a]) == Some(t);
  }

  function Start(cfg: nat -> P.Config, reg: R.State): State {
    State(reg, [P.Init(cfg(0))], map[], {}, map[])
  }

  /** An agent with the connect-to command of the first setup in its hands. */
  function Busy(key: Option<R.Key>): R.Stream {
    R.Asked(key).(taken := 1, agent := R.Handling(R.FIRST, false))
  }

  function BothBusy(key: R.Key): R.State {
    R.Trying(key, Busy(Some(key)), Busy(None), R.Sent, R.Sent)
  }

  lemma FirstJoined(cfg: nat -> P.Config, key: R.Key)
    ensures Reachable(cfg, Start(cfg, R.INIT.(streams := [R.NewStream(Some(key)), R.NewStream(None)], hosts := map[key := 0],
                                              setups := [R.Setup(key, 0, 1, R.Queued)])))
  {
    var h, p := R.NewStream(Some(key)), R.NewStream(None);
    var r1 := R.INIT.(streams := [h], hosts := map[key := 0]);
    var r2 := r1.(streams := [h, p], setups := [R.Setup(key, 0, 1, R.Queued)]);
    var s1 := INIT.(reg := r1);
    assert Reachable(cfg, INIT) by { assert Run(cfg, []) == Some(INIT); }
    assert Reachable(cfg, s1) by { Step(cfg, INIT, Registar(R.RegisterHost(key)), s1); }
    Step(cfg, s1, Registar(R.JoinHost(key)), Start(cfg, r2));
  }

  lemma FirstLocked(cfg: nat -> P.Config, key: R.Key)
    ensures Reachable(cfg, Start(cfg, R.Trying(key, R.NewStream(Some(key)), R.NewStream(None), R.Unsent, R.Unsent)))
  {
    var h, p := R.NewStream(Some(key)), R.NewStream(None);
    var r := R.INIT.(streams := [h, p], hosts := map[key := 0], setups := [R.Setup(key, 0, 1, R.Queued)]);
    FirstJoined(cfg, key);
    Step(cfg, Start(cfg, r), Registar(R.Lock(0)), Start(cfg, R.Trying(key, h, p, R.Unsent, R.Unsent)));
  }

  lemma BothAsked(cfg: nat -> P.Config, key: R.Key)
    ensures Reachable(cfg, Start(cfg, R.Trying(key, R.Asked(Some(key)), R.Asked(None), R.Sent, R.Sent)))
  {
    var h0, p0, h, p := R.NewStream(Some(key)), R.NewStream(None), R.Asked(Some(key)), R.Asked(None);
    var s0 := Start(cfg, R.Trying(key, h0, p0, R.Unsent, R.Unsent));
    var s1 := Start(cfg, R.Trying(key, h, p0, R.Sent, R.Unsent));
    FirstLocked(cfg, key);
    assert [] + [R.FIRST] == [R.FIRST];
    assert [h0, p0][0 := h] == [h, p0] && [h, p0][1 := p] == [h, p];
    assert Reachable(cfg, s1) by { Step(cfg, s0, Registar(R.Write(0, R.HostEnd)), s1); }
    Step(cfg, s1, Registar(R.Write(0, R.PeerEnd)), Start(cfg, R.Trying(key, h, p, R.Sent, R.Sent)));
  }

  lemma BothTake(cfg: nat -> P.Config, key: R.Key)
    ensures Reachable(cfg, Start(cfg, BothBusy(key)))
  {
    var h0, p0, h, p := R.Asked(Some(key)), R.Asked(None), Busy(Some(key)), Busy(None);
    var s0 := Start(cfg, R.Trying(key, h0, p0, R.Sent, R.Sent));
    var s1 := Start(cfg, R.Trying(key, h, p0, R.Sent, R.Sent));
    BothAsked(cfg, key);
    assert [h0, p0][0 := h] == [h, p0] && [h, p0][1 := p] == [h, p];
    assert Reachable(cfg, s1) by { Step(cfg, s0, Registar(R.TakeCommand(0)), s1); }
    Step(cfg, s1, Registar(R.TakeCommand(1)), Start(cfg, BothBusy(key)));
  }

  /** While both agents are busy, their connectors can do whatever a pair can do. */
  lemma {:induction false} AnyPairRuns(cfg: nat -> P.Config, key: R.Key, acts: seq<P.Action>)
    requires P.Run(cfg(0), acts).Some?
    ensures Reachable(cfg, Start(cfg, BothBusy(key)).(pairs := [P.Run(cfg(0), acts).value]))
  {
    if acts == [] {
      BothTake(cfg, key);
    } else {
      var k := P.Run(cfg(0), acts[..|acts| - 1]).value;
      AnyPairRuns(cfg, key, acts[..|acts| - 1]);
      var s := Start(cfg, BothBusy(key)).(pairs := [k]);
      Step(cfg, s, Connector(0, acts[|acts| - 1]), s.(pairs := [P.Run(cfg(0), acts).value]));
    }
  }

  lemma AnyPair(cfg: nat -> P.Config, key: R.Key, k: P.State)
    requires P.Reachable(cfg(0), k)
    ensures Reachable(cfg, Start(cfg, BothBusy(key)).(pairs := [k]))
  {
    var acts :| P.Run(cfg(0), acts) == Some(k);
    AnyPairRuns(cfg, key, acts);
  }

  /** A run in which the host's Connect returns nil, and the nil goes into its `conns` or not,
      as the select has it. */
  lemma NilHappens(cfg: nat -> P.Config, key: R.Key, sent: bool) returns (s: State)
    requires P.Left in cfg(0).mayCancel
    ensures Reachable(cfg, s) && (0, 0) in s.nils && s.nils[(0, 0)] == sent
  {
    var k := Q.NeitherHappens(cfg(0), P.Left);
    var s0 := Start(cfg, BothBusy(key)).(pairs := [k]);
    AnyPair(cfg, key, k);
    s := Apply(cfg, s0, MeetNil(0, sent));
    Step(cfg, s0, MeetNil(0, sent), s);
  }

  /** An agent's stream once it has put its connection into `conns`, and once it has answered. */
  function Gave(key: Option<R.Key>): R.Stream {
    R.Asked(key).(taken := 1, agent := R.Answering(R.FIRST, R.StatusOk), delivered := {R.FIRST})
  }

  /** Both handlers hand out what their Connect returned. */
  lemma BothHand(cfg: nat -> P.Config, key: R.Key, k: P.State, x: nat, y: nat)
    requires P.Reachable(cfg(0), k) && P.Connected(k, P.Left, x) && P.Connected(k, P.Right, y)
    ensures Reachable(cfg, State(R.Trying(key, Gave(Some(key)), Gave(None), R.Sent, R.Sent), [k],
                                 map[(0, 0) := x, (1, 0) := y], {}, map[]))
  {
    var h0, p0, h, p := Busy(Some(key)), Busy(None), Gave(Some(key)), Gave(None);
    var s0 := Start(cfg, BothBusy(key)).(pairs := [k]);
    var s1 := State(R.Trying(key, h, p0, R.Sent, R.Sent), [k], map[(0, 0) := x], {}, map[]);
    var s2 := State(R.Trying(key, h, p, R.Sent, R.Sent), [k], map[(0, 0) := x, (1, 0) := y], {}, map[]);
    AnyPair(cfg, key, k);
    assert {} + {R.FIRST} == {R.FIRST};
    assert [h0, p0][0 := h] == [h, p0] && [h, p0][1 := p] == [h, p];
    assert map[(0, 0) := x][(1, 0) := y] == map[(0, 0) := x, (1, 0) := y];
    assert Reachable(cfg, s1) by { Step(cfg, s0, Registar(R.Succeed(0)), s1); }
    Step(cfg, s1, Registar(R.Succeed(1)), s2);
  }

  /** Handing out is not enough: the two ends can be handed different connections whenever
      their Connect calls can disagree.  `SameConnection` rests on the answers. */
  lemma {:induction false} HandedApart(cfg: nat -> P.Config, key: R.Key, hi: P.Side) returns (s: State, x: nat, y: nat)
    requires cfg(0).Wins(hi) && Q.CanDisagree(cfg(0), hi)
    ensures Reachable(cfg, s) && |s.reg.setups| == 1 && s.reg.setups[0].host == 0 && s.reg.setups[0].peer == 1
    ensures Handed(s, 0, 0, x) && Handed(s, 1, 0, y) && x != y
  {
    var k, c, d := Q.Disagreement(cfg(0), hi);
    x, y := if hi == P.Left then c else d, if hi == P.Left then d else c;
    BothHand(cfg, key, k, x, y);
    s := State(R.Trying(key, Gave(Some(key)), Gave(None), R.Sent, R.Sent), [k], map[(0, 0) := x, (1, 0) := y], {}, map[]);
  }

  /** The same stream once it has answered. */
  function Replied(key: Option<R.Key>): R.Stream {
    Gave(key).(agent := R.Serving, confirmed := {R.FIRST}, replies := [R.Reply(R.FIRST, R.StatusOk)])
  }

  function With(k: P.State, reg: R.State): State {
    State(reg, [k], map[(0, 0) := 0, (1, 0) := 0], {}, map[])
  }

  lemma OneReplies(cfg: nat -> P.Config, s: State, i: nat, key: Option<R.Key>)
    requires Reachable(cfg, s) && i < |s.reg.streams| && s.reg.streams[i] == Gave(key)
    requires |s.pairs| == 1 && !s.pairs[0].left.parentCancelled && !s.pairs[0].right.parentCancelled
    ensures Reachable(cfg, s.(reg := s.reg.(streams := s.reg.streams[i := Replied(key)])))
  {
    assert {} + {R.FIRST} == {R.FIRST} && [] + [R.Reply(R.FIRST, R.StatusOk)] == [R.Reply(R.FIRST, R.StatusOk)];
    Step(cfg, s, Registar(R.SendReply(i)), s.(reg := s.reg.(streams := s.reg.streams[i := Replied(key)])));
  }

  lemma BothReply(cfg: nat -> P.Config, key: R.Key, k: P.State)
    requires !k.left.parentCancelled && !k.right.parentCancelled
    requires Reachable(cfg, With(k, R.Trying(key, Gave(Some(key)), Gave(None), R.Sent, R.Sent)))
    ensures Reachable(cfg, With(k, R.Trying(key, Replied(Some(key)), Replied(None), R.Sent, R.Sent)))
  {
    var h0, p0, h, p := Gave(Some(key)), Gave(None), Replied(Some(key)), Replied(None);
    assert [h0, p0][0 := h] == [h, p0] && [h, p0][1 := p] == [h, p];
    OneReplies(cfg, With(k, R.Trying(key, h0, p0, R.Sent, R.Sent)), 0, Some(key));
    OneReplies(cfg, With(k, R.Trying(key, h, p0, R.Sent, R.Sent)), 1, None);
  }

  lemma HostRead(cfg: nat -> P.Config, key: R.Key, k: P.State)
    requires Reachable(cfg, With(k, R.Trying(key, Replied(Some(key)), Replied(None), R.Sent, R.Sent)))
    ensures Reachable(cfg, With(k, R.Trying(key, Replied(Some(key)).(replies := []), Replied(None), R.Back(E.Nil), R.Sent)))
  {
    var h0, p := Replied(Some(key)), Replied(None);
    var h := h0.(replies := []);
    assert h0.replies[1..] == [] && [h0, p][0 := h] == [h, p];
    Step(cfg, With(k, R.Trying(key, h0, p, R.Sent, R.Sent)), Registar(R.ReadReply(0, R.HostEnd, 0)),
         With(k, R.Trying(key, h, p, R.Back(E.Nil), R.Sent)));
  }

  lemma PeerRead(cfg: nat -> P.Config, key: R.Key, h: R.Stream, k: P.State)
    requires Reachable(cfg, With(k, R.Trying(key, h, Replied(None), R.Back(E.Nil), R.Sent)))
    ensures Reachable(cfg, With(k, R.Trying(key, h, Replied(None).(replies := []), R.Back(E.Nil), R.Back(E.Nil))))
  {
    var p0 := Replied(None);
    var p := p0.(replies := []);
    assert p0.replies[1..] == [] && [h, p0][1 := p] == [h, p];
    Step(cfg, With(k, R.Trying(key, h, p0, R.Back(E.Nil), R.Sent)), Registar(R.ReadReply(0, R.PeerEnd, 0)),
         With(k, R.Trying(key, h, p, R.Back(E.Nil), R.Back(E.Nil))));
  }

  /** A run, for every pair of peers of which the smaller has an ID, that is counted as P2P. */
  lemma DirectHappens(cfg: nat -> P.Config, key: R.Key, hi: P.Side) returns (s: State)
    requires cfg(0).Wins(hi) && cfg(0).Id(hi.Other()) != ""
    ensures Reachable(cfg, s) && |s.reg.setups| == 1 && s.reg.setups[0].phase == R.Over(R.ByP2P) && s.reg.p2pConns == 1
  {
    var k := Q.BothReturn(cfg(0), hi);
    BothHand(cfg, key, k, 0, 0);
    BothReply(cfg, key, k);
    HostRead(cfg, key, k);
    PeerRead(cfg, key, Replied(Some(key)).(replies := []), k);
    var h, p := Replied(Some(key)).(replies := []), Replied(None).(replies := []);
    var s0 := With(k, R.Trying(key, h, p, R.Back(E.Nil), R.Back(E.Nil)));
    s := Apply(cfg, s0, Registar(R.Finish(0)));
    Step(cfg, s0, Registar(R.Finish(0)), s);
  }
}
