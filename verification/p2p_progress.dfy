/** How loops and calls end (internal/registar/p2p/connector.go): what ends a loop, and that
    Connect can always return when its context ends. */
module P2PProgress {
  import opened Wrappers
  import opened P2PConnector
  import opened P2PAgreement

  // ------------------------------------------------------------------ what ends a loop

  /** The action ends loop `l` of `side`, with an error or without.  Of the ways in which a
      handshake fails only the unexpected ones do, and a conflict that an accept loop meets. */
  predicate EndsLoop(a: Action, side: Side, l: LoopId, failed: bool) {
    a.side == side &&
    match a
    case Stop(_, k) => k == l && !failed
    case ListenerClosed(_) => l == AcceptLoop && !failed
    case Fail(_, k) => k == l && failed
    case AnswerLost(_, _, err) => l == AcceptLoop && failed && (err == Unexpected || err == PeerConflict)
    case Abort(_, k, err) => k == l && failed && (err == Unexpected || (l == AcceptLoop && err == PeerConflict))
    case HandOver(_, k) => k == l && !failed
    case GiveUp(_, k, f) => k == l && f == failed
    case _ => false
  }

  lemma LoopStep(cfg: Config, s: State, a: Action, side: Side, l: LoopId, failed: bool)
    requires Enabled(cfg, s, a)
    ensures Apply(cfg, s, a).Get(side).Loop(l) == Finished(failed) <==>
            s.Get(side).Loop(l) == Finished(failed) || EndsLoop(a, side, l, failed)
  {
    if IsMove(a) {
      MovedLoop(cfg, s, a, side, l, failed);
    }
  }

  lemma MovedLoop(cfg: Config, s: State, a: Action, side: Side, l: LoopId, failed: bool)
    requires Enabled(cfg, s, a) && IsMove(a)
    ensures Apply(cfg, s, a).Get(side).Loop(l) == Finished(failed) <==>
            s.Get(side).Loop(l) == Finished(failed) || EndsLoop(a, side, l, failed)
  {
    if side == a.side && l == MoveLoop(a) {
      MovesOn(cfg, s, a, failed);
    } else {
      OtherLoopsStay(cfg, s, a, side, l);
    }
  }

  lemma OtherLoopsStay(cfg: Config, s: State, a: Action, side: Side, l: LoopId)
    requires Enabled(cfg, s, a) && IsMove(a) && (side != a.side || l != MoveLoop(a))
    ensures Apply(cfg, s, a).Get(side).Loop(l) == s.Get(side).Loop(l)
    ensures forall failed :: !EndsLoop(a, side, l, failed)
  {
  }

  lemma MovesOn(cfg: Config, s: State, a: Action, failed: bool)
    requires Enabled(cfg, s, a) && IsMove(a)
    ensures !s.Get(a.side).Loop(MoveLoop(a)).Finished?
    ensures Apply(cfg, s, a).Get(a.side).Loop(MoveLoop(a)) == Finished(failed) <==> EndsLoop(a, a.side, MoveLoop(a), failed)
  {
  }

  /** Over all runs: a loop has ended, with or without an error, iff one of those actions
      happened; the second dial loop is not started if there is one address only. */
  lemma {:induction false} LoopEndsExactlyWhen(cfg: Config, acts: seq<Action>, side: Side, l: LoopId, failed: bool)
    requires Run(cfg, acts).Some?
    ensures Run(cfg, acts).value.Get(side).Loop(l) == Finished(failed) <==>
      (l == DialPublic && side in cfg.sameAddrs && !failed)
      || exists k :: 0 <= k < |acts| && EndsLoop(acts[k], side, l, failed)
  {
    if acts != [] {
      var before := acts[..|acts| - 1];
      LoopEndsExactlyWhen(cfg, before, side, l, failed);
      LoopStep(cfg, Run(cfg, before).value, acts[|acts| - 1], side, l, failed);
      assert forall k :: 0 <= k < |before| ==> before[k] == acts[k];
    }
  }

  // ------------------------------------------------------------------ Connect can return

  lemma LastStep(cfg: Config, s: State, acts: seq<Action>, a: Action)
    ensures var prev := Continue(cfg, s, acts);
      Continue(cfg, s, acts + [a]) == if prev.Some? && Enabled(cfg, prev.value, a) then Some(Apply(cfg, prev.value, a)) else None
  {
    assert (acts + [a])[..|acts|] == acts;
  }

  lemma {:induction false} GoOn(cfg: Config, s: State, a: Action, t: State, acts: seq<Action>)
    requires Enabled(cfg, s, a) && Continue(cfg, Apply(cfg, s, a), acts) == Some(t)
    ensures Continue(cfg, s, [a] + acts) == Some(t)
    decreases |acts|
  {
    if acts == [] {
      LastStep(cfg, s, [], a);
      assert [a] + acts == [] + [a];
    } else {
      var init, last := acts[..|acts| - 1], acts[|acts| - 1];
      assert acts == init + [last] && [a] + acts == ([a] + init) + [last];
      LastStep(cfg, Apply(cfg, s, a), init, last);
      LastStep(cfg, s, [a] + init, last);
      GoOn(cfg, s, a, Continue(cfg, Apply(cfg, s, a), init).value, init);
    }
  }

  function LoopWork(ph: Phase): nat {
    match ph
    case Idle => 1
    case Shaking(_) => 2
    case Refusing(_) => 2
    case Ready(_) => 1
    case Finished(_) => 0
  }

  /** How many more steps a side needs at most until its call returns. */
  function WorkLeft(p: Peer): nat {
    LoopWork(p.accept) + LoopWork(p.dialPrivate) + LoopWork(p.dialPublic)
    + match p.call
      case Waiting => 2
      case Won(_) => if p.attemptsCancelled then 1 else 2
      case Quit => 1
      case Returned(_, _) => 0
  }

  /** The side has a reason to return: its context ended, or it has a connection. */
  predicate Returning(p: Peer) {
    p.call.Returned? || p.GroupDone() || p.call.Won?
  }

  lemma SetLoopWork(p: Peer, l: LoopId, ph: Phase)
    ensures WorkLeft(p.SetLoop(l, ph)) + LoopWork(p.Loop(l)) == WorkLeft(p) + LoopWork(ph)
  {
  }

  function Leave(side: Side, l: LoopId, ph: Phase): Action {
    match ph
    case Idle => Stop(side, l)
    case Shaking(_) => Abort(side, l, OwnCancel)
    case Refusing(_) => CloseRefused(side, l)
    case Ready(_) => GiveUp(side, l, false)
    case Finished(_) => Stop(side, l)
  }

  lemma CanLeave(cfg: Config, s: State, side: Side, l: LoopId)
    requires HoldsOwn(s, side, l) && s.Get(side).AttemptsDone() && !s.Get(side).Loop(l).Finished?
    ensures Enabled(cfg, s, Leave(side, l, s.Get(side).Loop(l)))
  {
  }

  /** What a loop does when its context has ended. */
  lemma LoopGoesOn(cfg: Config, s: State, side: Side, l: LoopId) returns (a: Action)
    requires HoldsOwn(s, side, l) && s.Get(side).AttemptsDone() && !s.Get(side).Loop(l).Finished?
    ensures a.side == side && Enabled(cfg, s, a)
    ensures var p, p' := s.Get(side), Apply(cfg, s, a).Get(side);
      p'.call == p.call && (p.GroupDone() ==> p'.GroupDone()) && WorkLeft(p') < WorkLeft(p)
  {
    var was := s.Get(side).Loop(l);
    var ph := if was.Idle? || was.Ready? then Finished(false) else Idle;
    a := Leave(side, l, was);
    CanLeave(cfg, s, side, l);
    LeavesTo(cfg, s, a, l, ph);
    PeerMonotone(cfg, s, a, side);
    SetLoopWork(s.Get(side), l, ph);
  }

  lemma LeavesTo(cfg: Config, s: State, a: Action, l: LoopId, ph: Phase)
    requires Enabled(cfg, s, a)
    requires (a == Stop(a.side, l) && ph == Finished(false)) || (a == Abort(a.side, l, OwnCancel) && ph == Idle)
      || (a == CloseRefused(a.side, l) && ph == Idle) || (a == GiveUp(a.side, l, false) && ph == Finished(false))
    ensures Apply(cfg, s, a).Get(a.side) == s.Get(a.side).SetLoop(l, ph)
  {
  }

  lemma CallGoesOn(cfg: Config, s: State, side: Side) returns (a: Action)
    requires CallConsistent(s, side) && (forall l :: HoldsOwn(s, side, l))
    requires Returning(s.Get(side)) && !s.Get(side).call.Returned?
    ensures a.side == side && Enabled(cfg, s, a)
    ensures Returning(Apply(cfg, s, a).Get(side)) && WorkLeft(Apply(cfg, s, a).Get(side)) < WorkLeft(s.Get(side))
  {
    var p := s.Get(side);
    if p.call == Waiting {
      a := QuitConnect(side);
    } else if p.call.Won? && !p.attemptsCancelled {
      a := CancelAttempts(side);
    } else if !p.accept.Finished? {
      a := LoopGoesOn(cfg, s, side, AcceptLoop);
    } else if !p.dialPrivate.Finished? {
      a := LoopGoesOn(cfg, s, side, DialPrivate);
    } else if !p.dialPublic.Finished? {
      a := LoopGoesOn(cfg, s, side, DialPublic);
    } else {
      a := ReturnConnect(side);
    }
  }

  lemma {:induction false} Returns(cfg: Config, s: State, side: Side) returns (acts: seq<Action>)
    requires Ownership(s) && Returning(s.Get(side))
    ensures Continue(cfg, s, acts).Some? && Continue(cfg, s, acts).value.Get(side).call.Returned?
    ensures forall k :: 0 <= k < |acts| ==> acts[k].side == side
    decreases WorkLeft(s.Get(side))
  {
    if s.Get(side).call.Returned? {
      acts := [];
    } else {
      assert CallConsistent(s, side);
      var a := CallGoesOn(cfg, s, side);
      OwnershipStep(cfg, s, a);
      var more := Returns(cfg, Apply(cfg, s, a), side);
      GoOn(cfg, s, a, Continue(cfg, Apply(cfg, s, a), more).value, more);
      acts := [a] + more;
    }
  }

  /** From every reachable state in which a caller's context has ended, a loop has failed, or
      a connection crossed the channel, Connect can return by its own steps alone, whatever
      the other side does or has left undone. */
  lemma ConnectCanReturn(cfg: Config, s: State, hi: Side, side: Side) returns (acts: seq<Action>)
    requires cfg.Wins(hi) && Reachable(cfg, s)
    requires s.Get(side).parentCancelled || s.Get(side).GroupFailed() || s.Get(side).crossed != []
    ensures Continue(cfg, s, acts).Some? && Continue(cfg, s, acts).value.Get(side).call.Returned?
    ensures forall k :: 0 <= k < |acts| ==> acts[k].side == side
  {
    ReachableKeepsInvariants(cfg, s, hi);
    assert CallConsistent(s, side);
    acts := Returns(cfg, s, side);
  }

  // ------------------------------------------------------------------ attempts that come to nothing

  /** The larger side's dial: it was answered 409, and both ends closed it as a conflict. */
  function RefusedConn(hi: Side): Conn {
    Conn(hi, DialPrivate, true, true, false, Refused409, Conflict, Conflict)
  }

  lemma LargerDials(cfg: Config, hi: Side)
    requires cfg.Wins(hi) && cfg.Id(hi) != ""
    ensures Reaches(cfg, hi, [RefusedConn(hi).(byDialler := Open)],
                    InitPeer(cfg, hi).(dialPrivate := Shaking(0)), InitPeer(cfg, hi.Other()))
  {
    var lo, h0, l0 := hi.Other(), InitPeer(cfg, hi), InitPeer(cfg, hi.Other());
    var h1 := h0.(dialPrivate := Shaking(0));
    var c4 := RefusedConn(hi).(byDialler := Open);
    var c3 := c4.(byAcceptor := Open);
    var c2 := c3.(reply := NoReply);
    var c1 := c2.(taken := false);
    var c0 := c1.(requestSent := false);
    LessIsTotal(cfg.Id(hi), cfg.Id(lo));
    assert Reaches(cfg, hi, [], h0, l0) by { assert Run(cfg, []) == Some(Init(cfg)); }
    assert Reaches(cfg, hi, [c0], h1, l0) by { HighStep(cfg, hi, [], h0, l0, Dial(hi, DialPrivate), [c0], h1); }
    assert Reaches(cfg, hi, [c1], h1, l0) by { HighStep(cfg, hi, [c0], h1, l0, SendRequest(hi, DialPrivate), [c1], h1); }
    assert Reaches(cfg, hi, [c2], h1, l0.(accept := Shaking(0))) by {
      LowStep(cfg, hi, [c1], h1, l0, Accept(lo, 0), [c2], l0.(accept := Shaking(0)));
    }
    assert Reaches(cfg, hi, [c3], h1, l0.(accept := Refusing(0))) by {
      LowStep(cfg, hi, [c2], h1, l0.(accept := Shaking(0)), Answer(lo), [c3], l0.(accept := Refusing(0)));
    }
    LowStep(cfg, hi, [c3], h1, l0.(accept := Refusing(0)), CloseRefused(lo, AcceptLoop), [c4], l0);
  }

  /** A run, for every pair of peers of which the larger has an ID, in which its dial is
      refused, both ends close it as a conflict, and both go on as at first. */
  lemma RefusalHappens(cfg: Config, hi: Side)
    requires cfg.Wins(hi) && cfg.Id(hi) != ""
    ensures Reaches(cfg, hi, [RefusedConn(hi)], InitPeer(cfg, hi), InitPeer(cfg, hi.Other()))
  {
    var h, l := InitPeer(cfg, hi), InitPeer(cfg, hi.Other());
    var c := RefusedConn(hi).(byDialler := Open);
    LargerDials(cfg, hi);
    assert Reaches(cfg, hi, [c], h.(dialPrivate := Refusing(0)), l) by {
      HighStep(cfg, hi, [c], h.(dialPrivate := Shaking(0)), l, ReadReply(hi, DialPrivate), [c], h.(dialPrivate := Refusing(0)));
    }
    HighStep(cfg, hi, [c], h.(dialPrivate := Refusing(0)), l, CloseRefused(hi, DialPrivate), [RefusedConn(hi)], h);
  }

  /** A run in which a dial reaches the other side but no datagrams can be sent on it: both
      ends close it as cancelled, and both go on as at first. */
  lemma NoDatagramsHappens(cfg: Config, hi: Side)
    ensures Reaches(cfg, hi, [Conn(hi.Other(), DialPrivate, true, false, false, NoReply, Cancelled, Cancelled)],
                    InitPeer(cfg, hi), InitPeer(cfg, hi.Other()))
  {
    var lo, h, l := hi.Other(), InitPeer(cfg, hi), InitPeer(cfg, hi.Other());
    var c0 := Conn(lo, DialPrivate, false, false, false, NoReply, Open, Open);
    var c1 := c0.(taken := true);
    var c2 := c1.(byAcceptor := Cancelled);
    var l1 := l.(dialPrivate := Shaking(0));
    assert Reaches(cfg, hi, [], h, l) by { assert Run(cfg, []) == Some(Init(cfg)); }
    assert Reaches(cfg, hi, [c0], h, l1) by { LowStep(cfg, hi, [], h, l, Dial(lo, DialPrivate), [c0], l1); }
    assert Reaches(cfg, hi, [c1], h.(accept := Shaking(0)), l1) by {
      HighStep(cfg, hi, [c0], h, l1, Accept(hi, 0), [c1], h.(accept := Shaking(0)));
    }
    assert Reaches(cfg, hi, [c2], h, l1) by {
      HighStep(cfg, hi, [c1], h.(accept := Shaking(0)), l1, NoDatagrams(hi, AcceptLoop), [c2], h);
    }
    LowStep(cfg, hi, [c2], h, l1, NoDatagrams(lo, DialPrivate), [c2.(byDialler := Cancelled)], l);
  }

  /** A run in which an accept loop ends without an error because its listener was closed. */
  lemma ListenerClosedHappens(cfg: Config, side: Side)
    ensures Reaches(cfg, side, [], InitPeer(cfg, side).(accept := Finished(false)), InitPeer(cfg, side.Other()))
  {
    var h, l := InitPeer(cfg, side), InitPeer(cfg, side.Other());
    assert Reaches(cfg, side, [], h, l) by { assert Run(cfg, []) == Some(Init(cfg)); }
    HighStep(cfg, side, [], h, l, ListenerClosed(side), [], h.(accept := Finished(false)));
  }

  // ------------------------------------------------------------------ what a close says

  /** A conflict is only ever given as the reason after a 409, and a bad request by the
      acceptor for a request without an ID. */
  predicate CodesFit(cfg: Config, c: Conn) {
    && c.byDialler != BadRequest
    && (c.byAcceptor == BadRequest ==> c.requestSent && cfg.Id(c.dialler) == "")
    && (c.byDialler == Conflict || c.byAcceptor == Conflict ==> c.reply == Refused409)
  }

  lemma CodesStep(cfg: Config, s: State, a: Action, c: nat)
    requires Enabled(cfg, s, a) && c < |Apply(cfg, s, a).conns|
    requires Ownership(s) && (c < |s.conns| ==> CodesFit(cfg, s.conns[c]))
    ensures CodesFit(cfg, Apply(cfg, s, a).conns[c])
  {
    if IsMove(a) {
      assert HoldsOwn(s, a.side, MoveLoop(a));
      MovedCodes(cfg, s, a, c);
    }
  }

  lemma MovedCodes(cfg: Config, s: State, a: Action, c: nat)
    requires Enabled(cfg, s, a) && IsMove(a) && HoldsOwn(s, a.side, MoveLoop(a))
    requires c < |s.conns| && CodesFit(cfg, s.conns[c]) && WellFormedConn(s.conns[c])
    ensures c < |Apply(cfg, s, a).conns| && CodesFit(cfg, Apply(cfg, s, a).conns[c])
  {
    if c == s.Get(a.side).Loop(MoveLoop(a)).conn {
      OwnCodes(cfg, s, a, c);
    } else {
      OtherConnsStay(cfg, s, a, c);
    }
  }

  lemma OtherConnsStay(cfg: Config, s: State, a: Action, c: nat)
    requires Enabled(cfg, s, a) && IsMove(a) && c < |s.conns| && c != s.Get(a.side).Loop(MoveLoop(a)).conn
    ensures c < |Apply(cfg, s, a).conns| && Apply(cfg, s, a).conns[c] == s.conns[c]
  {
  }

  lemma OwnCodes(cfg: Config, s: State, a: Action, c: nat)
    requires Enabled(cfg, s, a) && IsMove(a) && HoldsOwn(s, a.side, MoveLoop(a))
    requires c == s.Get(a.side).Loop(MoveLoop(a)).conn && CodesFit(cfg, s.conns[c]) && WellFormedConn(s.conns[c])
    ensures c < |Apply(cfg, s, a).conns| && CodesFit(cfg, Apply(cfg, s, a).conns[c])
  {
  }

  lemma {:induction false} RunsKeepCodes(cfg: Config, acts: seq<Action>, hi: Side, c: nat)
    requires cfg.Wins(hi) && Run(cfg, acts).Some? && c < |Run(cfg, acts).value.conns|
    ensures CodesFit(cfg, Run(cfg, acts).value.conns[c])
  {
    if acts != [] {
      var before := acts[..|acts| - 1];
      RunsKeepInvariants(cfg, before, hi);
      if c < |Run(cfg, before).value.conns| {
        RunsKeepCodes(cfg, before, hi, c);
      }
      CodesStep(cfg, Run(cfg, before).value, acts[|acts| - 1], c);
    }
  }

  lemma CloseCodes(cfg: Config, s: State, hi: Side, c: nat)
    requires cfg.Wins(hi) && Reachable(cfg, s) && c < |s.conns|
    ensures CodesFit(cfg, s.conns[c])
  {
    var acts :| Run(cfg, acts) == Some(s);
    RunsKeepCodes(cfg, acts, hi, c);
  }

  /** A run in which the acceptor closes a connection as a bad request and accepts on. */
  lemma BadRequestHappens(cfg: Config, hi: Side)
    requires cfg.Id(hi.Other()) == ""
    ensures Reaches(cfg, hi, [Single(hi.Other(), true).(byAcceptor := BadRequest)],
                    InitPeer(cfg, hi), InitPeer(cfg, hi.Other()).(dialPrivate := Shaking(0)))
  {
    var lo, h := hi.Other(), InitPeer(cfg, hi);
    var l := InitPeer(cfg, lo).(dialPrivate := Shaking(0));
    var c, d := Single(lo, false), Single(lo, true);
    DialsOnce(cfg, hi);
    assert Reaches(cfg, hi, [d], h.(accept := Shaking(0)), l) by {
      HighStep(cfg, hi, [c], h, l, Accept(hi, 0), [d], h.(accept := Shaking(0)));
    }
    HighStep(cfg, hi, [d], h.(accept := Shaking(0)), l, Abort(hi, AcceptLoop, MissingId), [d.(byAcceptor := BadRequest)], h);
  }
}
