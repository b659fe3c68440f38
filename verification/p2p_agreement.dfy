/** When two peers agree, exactly (internal/registar/p2p/connector.go).

    What a dialler leaves behind, the case of a smaller peer with one address only, and the
    runs that show what the connector does not promise. */
module P2PAgreement {
  import opened Wrappers
  import opened P2PConnector

  // ------------------------------------------------------------------ what a dialler closes

  /** A reply answers a request, and a request that carries an ID.  It is a 409 iff the ID of
      the acceptor comes before that of the dialler. */
  ghost predicate Answered(cfg: Config, c: Conn) {
    c.reply != NoReply ==>
      && c.requestSent && cfg.Id(c.dialler) != ""
      && (c.reply == Refused409 <==> ComesFirst(cfg.Id(c.dialler.Other()), cfg.Id(c.dialler)))
  }

  /** A dialler closes a connection before it has sent its ID, after a 409, because its group
      is done, or because another connection won. */
  predicate ClosedForReason(s: State, c: nat)
    requires c < |s.conns|
  {
    var p, x := s.Get(s.conns[c].dialler), s.conns[c];
    x.byDialler != Open ==>
      p.GroupDone() || x.reply == Refused409 || !x.requestSent || (p.crossed != [] && p.crossed[0] != c)
  }

  lemma AnsweredStep(cfg: Config, s: State, a: Action, c: nat)
    requires Enabled(cfg, s, a) && c < |Apply(cfg, s, a).conns|
    requires c < |s.conns| ==> Answered(cfg, s.conns[c])
    ensures Answered(cfg, Apply(cfg, s, a).conns[c])
  {
    if c < |s.conns| {
      ConnMonotone(cfg, s, a, c);
      RequestStays(cfg, s, a, c);
      LessIsLexicographic(cfg.Id(s.conns[c].dialler.Other()), cfg.Id(s.conns[c].dialler));
    } else {
      NewConn(cfg, s, a, c);
    }
  }

  lemma {:induction false} RunsAnswer(cfg: Config, acts: seq<Action>, c: nat)
    requires Run(cfg, acts).Some? && c < |Run(cfg, acts).value.conns|
    ensures Answered(cfg, Run(cfg, acts).value.conns[c])
  {
    if acts != [] {
      var before := acts[..|acts| - 1];
      if c < |Run(cfg, before).value.conns| {
        RunsAnswer(cfg, before, c);
      }
      AnsweredStep(cfg, Run(cfg, before).value, acts[|acts| - 1], c);
    }
  }

  /** The tie-break in every interleaving, for any two IDs, equal ones included: an answer is
      a 409 iff the acceptor's ID comes before the dialler's, else a 200. */
  lemma RefusedExactlyWhen(cfg: Config, s: State, c: nat)
    requires Reachable(cfg, s) && c < |s.conns| && s.conns[c].reply != NoReply
    ensures s.conns[c].reply == Refused409 <==> ComesFirst(cfg.Id(s.conns[c].dialler.Other()), cfg.Id(s.conns[c].dialler))
  {
    var acts :| Run(cfg, acts) == Some(s);
    RunsAnswer(cfg, acts, c);
  }

  lemma RequestStays(cfg: Config, s: State, a: Action, c: nat)
    requires Enabled(cfg, s, a) && c < |s.conns|
    ensures c < |Apply(cfg, s, a).conns|
    ensures s.conns[c].requestSent ==> Apply(cfg, s, a).conns[c].requestSent
    ensures Apply(cfg, s, a).conns[c].requestSent && !s.conns[c].requestSent ==>
      a.SendRequest? && s.Get(a.side).Loop(a.loop) == Shaking(c)
  {
    if IsMove(a) {
      var x, ph := MovesAreMoves(cfg, s, a);
    }
  }

  /** The dialler's own steps are the only ones that close its end. */
  lemma ClosingStep(cfg: Config, s: State, a: Action, c: nat)
    requires Enabled(cfg, s, a) && c < |s.conns| && WellFormedConn(s.conns[c])
    requires IsMove(a) ==> HoldsOwn(s, a.side, MoveLoop(a))
    ensures c < |Apply(cfg, s, a).conns|
    ensures Apply(cfg, s, a).conns[c].byDialler != s.conns[c].byDialler ==>
      && a.side == s.conns[c].dialler && IsMove(a) && s.Get(a.side).Loop(MoveLoop(a)).Holds(c)
      && (s.Get(a.side).AttemptsDone() || s.conns[c].reply == Refused409 || !s.conns[c].requestSent)
  {
    if IsMove(a) {
      var x, ph := MovesAreMoves(cfg, s, a);
    }
  }

  lemma ClosedForReasonStep(cfg: Config, s: State, a: Action, c: nat)
    requires Enabled(cfg, s, a) && Ownership(s) && c < |Apply(cfg, s, a).conns|
    requires c < |s.conns| ==> ClosedForReason(s, c) && Answered(cfg, s.conns[c])
    ensures ClosedForReason(Apply(cfg, s, a), c)
  {
    if c < |s.conns| {
      assert HoldsOwn(s, a.side, AcceptLoop) && HoldsOwn(s, a.side, DialPrivate) && HoldsOwn(s, a.side, DialPublic);
      assert CallConsistent(s, s.conns[c].dialler) && CallConsistent(s, a.side);
      ConnMonotone(cfg, s, a, c);
      PeerMonotone(cfg, s, a, s.conns[c].dialler);
      RequestStays(cfg, s, a, c);
      ClosingStep(cfg, s, a, c);
    } else {
      NewConnOpen(cfg, s, a, c);
    }
  }

  lemma NewConnOpen(cfg: Config, s: State, a: Action, c: nat)
    requires Enabled(cfg, s, a) && |s.conns| <= c < |Apply(cfg, s, a).conns|
    ensures a.Dial? && Apply(cfg, s, a).conns[c] == Conn(a.side, a.loop, false, false, false, NoReply, Open, Open)
  {
  }

  // ------------------------------------------------------------------ one address

  /** The smaller side has a single dial loop. */
  predicate SoleDialler(s: State, lo: Side) {
    && s.Get(lo).dialPublic == Finished(false)
    && forall c | 0 <= c < |s.conns| && s.conns[c].dialler == lo :: s.conns[c].loop == DialPrivate
  }

  /** Its loop leaves a connection only for the next one when the other side has ended it or
      its own group is done. */
  predicate Followed(s: State, lo: Side, c: nat)
    requires c < |s.conns|
  {
    var p, x := s.Get(lo), s.conns[c];
    x.dialler == lo ==>
      || p.dialPrivate.Holds(c)
      || p.crossed == [c]
      || x.byAcceptor != Open
      || x.reply == Refused409
      || (!x.requestSent && x.byDialler != Open)
      || p.GroupDone()
  }

  lemma SoleDiallerStep(cfg: Config, s: State, a: Action, lo: Side)
    requires Enabled(cfg, s, a) && SoleDialler(s, lo)
    ensures SoleDialler(Apply(cfg, s, a), lo)
  {
    var s' := Apply(cfg, s, a);
    PeerMonotone(cfg, s, a, lo);
    DoneLoopsStay(cfg, s, a, lo);
    forall c | 0 <= c < |s'.conns| && s'.conns[c].dialler == lo ensures s'.conns[c].loop == DialPrivate {
      if c < |s.conns| {
        ConnMonotone(cfg, s, a, c);
      } else {
        NewConnOpen(cfg, s, a, c);
      }
    }
  }

  lemma DoneLoopsStay(cfg: Config, s: State, a: Action, sd: Side)
    requires Enabled(cfg, s, a)
    ensures s.Get(sd).dialPublic.Finished? ==> Apply(cfg, s, a).Get(sd).dialPublic == s.Get(sd).dialPublic
    ensures s.Get(sd).dialPrivate.Finished? ==> Apply(cfg, s, a).Get(sd).dialPrivate == s.Get(sd).dialPrivate
  {
    if IsMove(a) {
      var x, ph := MovesAreMoves(cfg, s, a);
    }
  }

  /** Why the dial loop lets go of a connection that it held. */
  lemma LettingGo(cfg: Config, s: State, a: Action, lo: Side, c: nat)
    requires Enabled(cfg, s, a) && c < |s.conns| && s.Get(lo).dialPrivate.Holds(c)
    requires HoldsOwn(s, lo, DialPrivate)
    ensures c < |Apply(cfg, s, a).conns|
    ensures var p, x := Apply(cfg, s, a).Get(lo), Apply(cfg, s, a).conns[c];
      || p.dialPrivate.Holds(c)
      || (a == HandOver(lo, DialPrivate) && p.crossed == s.Get(lo).crossed + [c])
      || x.byAcceptor != Open
      || x.reply == Refused409
      || (!x.requestSent && x.byDialler != Open)
      || p.GroupDone()
      || s.Get(lo).attemptsCancelled
  {
    if a.side == lo && IsMove(a) && MoveLoop(a) == DialPrivate {
      var x, ph := MovesAreMoves(cfg, s, a);
    } else if a != HandOver(lo, DialPrivate) {
      OthersHold(cfg, s, a, lo);
    }
  }

  lemma OthersHold(cfg: Config, s: State, a: Action, lo: Side)
    requires Enabled(cfg, s, a) && !(a.side == lo && IsMove(a) && MoveLoop(a) == DialPrivate)
    requires a != HandOver(lo, DialPrivate)
    requires s.Get(lo).dialPrivate.Shaking? || s.Get(lo).dialPrivate.Refusing? || s.Get(lo).dialPrivate.Ready?
    ensures Apply(cfg, s, a).Get(lo).dialPrivate == s.Get(lo).dialPrivate
  {
    if IsMove(a) {
      var x, ph := MovesAreMoves(cfg, s, a);
    }
  }

  lemma AcceptorClosingStays(cfg: Config, s: State, a: Action, c: nat)
    requires Enabled(cfg, s, a) && c < |s.conns| && s.conns[c].byAcceptor != Open
    ensures c < |Apply(cfg, s, a).conns| && Apply(cfg, s, a).conns[c].byAcceptor != Open
  {
    if IsMove(a) {
      var x, ph := MovesAreMoves(cfg, s, a);
    }
  }

  /** While the dial loop holds a connection nothing has crossed. */
  lemma HoldingBeforeCrossing(cfg: Config, s: State, hi: Side, c: nat)
    requires Ownership(s) && Grants(cfg, s, hi) && SoleDialler(s, hi.Other())
    requires s.Get(hi.Other()).dialPrivate.Holds(c)
    ensures s.Get(hi.Other()).crossed == [] && !s.Get(hi.Other()).attemptsCancelled
  {
    var lo := hi.Other();
    assert CallConsistent(s, lo);
    assert s.Get(lo).crossed != [] ==> GrantedToSmaller(s, hi, s.Get(lo).crossed[0]);
  }

  lemma NotHeldStep(cfg: Config, s: State, a: Action, lo: Side, c: nat)
    requires Enabled(cfg, s, a) && Ownership(s) && c < |s.conns| && Followed(s, lo, c)
    requires s.conns[c].dialler == lo && !s.Get(lo).dialPrivate.Holds(c) && s.conns[c].loop == DialPrivate
    ensures Followed(Apply(cfg, s, a), lo, c)
  {
    assert HoldsOwn(s, a.side, AcceptLoop) && HoldsOwn(s, a.side, DialPrivate) && HoldsOwn(s, a.side, DialPublic);
    assert CallConsistent(s, lo);
    ConnMonotone(cfg, s, a, c);
    PeerMonotone(cfg, s, a, lo);
    RequestStays(cfg, s, a, c);
    if s.conns[c].byAcceptor != Open {
      AcceptorClosingStays(cfg, s, a, c);
    }
  }

  lemma FollowedStep(cfg: Config, s: State, a: Action, hi: Side, c: nat)
    requires cfg.Wins(hi) && Enabled(cfg, s, a) && c < |Apply(cfg, s, a).conns|
    requires Ownership(s) && Grants(cfg, s, hi) && SoleDialler(s, hi.Other())
    requires c < |s.conns| ==> Followed(s, hi.Other(), c)
    ensures Followed(Apply(cfg, s, a), hi.Other(), c)
  {
    var lo := hi.Other();
    if c >= |s.conns| {
      NewConnOpen(cfg, s, a, c);
    } else if s.conns[c].dialler == lo && s.Get(lo).dialPrivate.Holds(c) {
      assert HoldsOwn(s, lo, DialPrivate);
      HoldingBeforeCrossing(cfg, s, hi, c);
      LettingGo(cfg, s, a, lo, c);
      ConnMonotone(cfg, s, a, c);
    } else {
      ConnMonotone(cfg, s, a, c);
      if s.conns[c].dialler == lo {
        NotHeldStep(cfg, s, a, lo, c);
      }
    }
  }

  // ------------------------------------------------------------------ all runs

  /** What the dialler's side of every connection tells, in every reachable state. */
  ghost predicate DiallersSound(cfg: Config, s: State, hi: Side) {
    && (forall c :: 0 <= c < |s.conns| ==> Answered(cfg, s.conns[c]))
    && (forall c :: 0 <= c < |s.conns| ==> ClosedForReason(s, c))
    && (hi.Other() in cfg.sameAddrs ==>
          SoleDialler(s, hi.Other()) && forall c :: 0 <= c < |s.conns| ==> Followed(s, hi.Other(), c))
  }

  lemma DiallersStep(cfg: Config, s: State, a: Action, hi: Side)
    requires cfg.Wins(hi) && Enabled(cfg, s, a) && Ownership(s) && Grants(cfg, s, hi) && DiallersSound(cfg, s, hi)
    ensures DiallersSound(cfg, Apply(cfg, s, a), hi)
  {
    var s' := Apply(cfg, s, a);
    forall c | 0 <= c < |s'.conns| ensures Answered(cfg, s'.conns[c]) && ClosedForReason(s', c) {
      AnsweredStep(cfg, s, a, c);
      ClosedForReasonStep(cfg, s, a, c);
    }
    if hi.Other() in cfg.sameAddrs {
      SoleDiallerStep(cfg, s, a, hi.Other());
      forall c | 0 <= c < |s'.conns| ensures Followed(s', hi.Other(), c) {
        FollowedStep(cfg, s, a, hi, c);
      }
    }
  }

  lemma {:induction false} RunsKeepDiallersSound(cfg: Config, acts: seq<Action>, hi: Side)
    requires cfg.Wins(hi) && Run(cfg, acts).Some?
    ensures DiallersSound(cfg, Run(cfg, acts).value, hi)
  {
    if acts != [] {
      var before := acts[..|acts| - 1];
      RunsKeepInvariants(cfg, before, hi);
      RunsKeepDiallersSound(cfg, before, hi);
      DiallersStep(cfg, Run(cfg, before).value, acts[|acts| - 1], hi);
    }
  }

  lemma ReachableIsSound(cfg: Config, s: State, hi: Side)
    requires cfg.Wins(hi) && Reachable(cfg, s)
    ensures Ownership(s) && Grants(cfg, s, hi) && DiallersSound(cfg, s, hi)
  {
    var acts :| Run(cfg, acts) == Some(s);
    RunsKeepInvariants(cfg, acts, hi);
    RunsKeepDiallersSound(cfg, acts, hi);
  }

  /** Why a granted connection can be closed at its dialler: the dialler's group is done,
      or another connection won there. */
  lemma AbandonedOnlyWhen(cfg: Config, s: State, hi: Side, c: nat)
    requires cfg.Wins(hi) && Reachable(cfg, s) && c < |s.conns|
    requires s.conns[c].reply == Granted200 && s.conns[c].byDialler != Open
    ensures var p := s.Get(hi.Other());
      && (p.GroupDone() || (p.crossed != [] && p.crossed[0] != c))
      && (cfg.atomicReply ==> p.GroupDone())
  {
    ReachableIsSound(cfg, s, hi);
    assert ClosedForReason(s, c) && Answered(cfg, s.conns[c]) && GrantedToSmaller(s, hi, c);
    assert CallConsistent(s, hi.Other());
  }

  /** So with an atomic reply what the accepting side returned is still open at its dialler,
      unless the dialler's caller gave up or one of its loops failed. */
  lemma ReturnedStaysOpen(cfg: Config, s: State, hi: Side, c: nat)
    requires cfg.Wins(hi) && cfg.atomicReply && Reachable(cfg, s) && Connected(s, hi, c)
    ensures c < |s.conns| && s.conns[c].byAcceptor == Open
    ensures s.conns[c].byDialler == Open || s.Get(hi.Other()).GroupDone()
  {
    WinningDirection(cfg, s, hi, hi, c);
    if s.conns[c].byDialler != Open {
      AbandonedOnlyWhen(cfg, s, hi, c);
    }
  }

  /** With one address the smaller side meets its connections one after the other, so the
      two sides agree even if a reply arrives whose write failed, as long as the smaller
      side's caller does not give up. */
  lemma OneAddressAgrees(cfg: Config, s: State, hi: Side, c: nat, d: nat)
    requires cfg.Wins(hi) && Reachable(cfg, s) && hi.Other() in cfg.sameAddrs
    requires Connected(s, hi, c) && Connected(s, hi.Other(), d) && !s.Get(hi.Other()).parentCancelled
    ensures c == d
  {
    ReachableIsSound(cfg, s, hi);
    WinningDirection(cfg, s, hi, hi, c);
    assert Followed(s, hi.Other(), c) && Answered(cfg, s.conns[c]);
    assert CallConsistent(s, hi.Other());
  }

  /** Without an ID at the smaller side nothing is ever granted. */
  lemma NoIdNoConnection(cfg: Config, s: State, hi: Side, side: Side, c: nat)
    requires cfg.Wins(hi) && Reachable(cfg, s) && cfg.Id(hi.Other()) == ""
    ensures !Connected(s, side, c)
  {
    ReachableIsSound(cfg, s, hi);
    if Connected(s, side, c) {
      WinningDirection(cfg, s, hi, side, c);
      assert false;
    }
  }

  // ------------------------------------------------------------------ runs

  /** The state in which the larger side is at `h` and the smaller at `l` can be reached. */
  ghost predicate Reaches(cfg: Config, hi: Side, conns: seq<Conn>, h: Peer, l: Peer) {
    Reachable(cfg, if hi == Left then State(conns, h, l) else State(conns, l, h))
  }

  lemma HighStep(cfg: Config, hi: Side, conns: seq<Conn>, h: Peer, l: Peer, a: Action, conns': seq<Conn>, h': Peer)
    requires Reaches(cfg, hi, conns, h, l) && a.side == hi
    requires var s := if hi == Left then State(conns, h, l) else State(conns, l, h);
      Enabled(cfg, s, a) && Apply(cfg, s, a).conns == conns' && Apply(cfg, s, a).Get(hi) == h'
    ensures Reaches(cfg, hi, conns', h', l)
  {
    var s := if hi == Left then State(conns, h, l) else State(conns, l, h);
    PeerMonotone(cfg, s, a, hi.Other());
    var acts :| Run(cfg, acts) == Some(s);
    assert (acts + [a])[..|acts + [a]| - 1] == acts;
    assert Run(cfg, acts + [a]) == Some(Apply(cfg, s, a));
  }

  lemma LowStep(cfg: Config, hi: Side, conns: seq<Conn>, h: Peer, l: Peer, a: Action, conns': seq<Conn>, l': Peer)
    requires Reaches(cfg, hi, conns, h, l) && a.side == hi.Other()
    requires var s := if hi == Left then State(conns, h, l) else State(conns, l, h);
      Enabled(cfg, s, a) && Apply(cfg, s, a).conns == conns' && Apply(cfg, s, a).Get(a.side) == l'
    ensures Reaches(cfg, hi, conns', h, l')
  {
    var s := if hi == Left then State(conns, h, l) else State(conns, l, h);
    PeerMonotone(cfg, s, a, hi);
    var acts :| Run(cfg, acts) == Some(s);
    assert (acts + [a])[..|acts + [a]| - 1] == acts;
    assert Run(cfg, acts + [a]) == Some(Apply(cfg, s, a));
  }

  /** Connection `n` dialled by the smaller side: its request has been sent. */
  function Asked(lo: Side, n: nat, taken: bool): Conn {
    Conn(lo, if n == 0 then DialPrivate else DialPublic, taken, true, false, NoReply, Open, Open)
  }

  /** The smaller side has dialled both addresses and sent its ID on both connections. */
  lemma TwoDials(cfg: Config, hi: Side)
    requires hi.Other() !in cfg.sameAddrs
    ensures Reaches(cfg, hi, [Asked(hi.Other(), 0, false), Asked(hi.Other(), 1, false)], InitPeer(cfg, hi),
                    Peer(Idle, Shaking(0), Shaking(1), Waiting, [], false, false))
  {
    var lo, h := hi.Other(), InitPeer(cfg, hi);
    var l0 := Peer(Idle, Idle, Idle, Waiting, [], false, false);
    var l1 := l0.(dialPrivate := Shaking(0));
    var l2 := l1.(dialPublic := Shaking(1));
    var d0, d1 := Asked(lo, 0, false), Asked(lo, 1, false);
    var c0, c1 := d0.(requestSent := false), d1.(requestSent := false);
    assert Reaches(cfg, hi, [], h, l0) by { assert Run(cfg, []) == Some(Init(cfg)); }
    assert Reaches(cfg, hi, [c0], h, l1) by { LowStep(cfg, hi, [], h, l0, Dial(lo, DialPrivate), [c0], l1); }
    assert Reaches(cfg, hi, [c0, c1], h, l2) by { LowStep(cfg, hi, [c0], h, l1, Dial(lo, DialPublic), [c0, c1], l2); }
    assert Reaches(cfg, hi, [d0, c1], h, l2) by {
      LowStep(cfg, hi, [c0, c1], h, l2, SendRequest(lo, DialPrivate), [d0, c1], l2);
    }
    assert Reaches(cfg, hi, [d0, d1], h, l2) by {
      LowStep(cfg, hi, [d0, c1], h, l2, SendRequest(lo, DialPublic), [d0, d1], l2);
    }
  }

  /** The first connection after its 200 arrived although the write of it failed. */
  function Dropped(lo: Side, victim: Side): Conn {
    Conn(lo, DialPrivate, true, true, victim == lo, Granted200, Open, Cancelled)
  }

  /** The context of `victim` ends while the answer to the first connection is being
      written: the 200 arrives, the write fails, and the larger side goes on. */
  lemma LoseFirstGrant(cfg: Config, hi: Side, victim: Side)
    requires cfg.Wins(hi) && cfg.Id(hi.Other()) != "" && hi.Other() !in cfg.sameAddrs
    requires !cfg.atomicReply && victim in cfg.mayCancel
    ensures Reaches(cfg, hi, [Dropped(hi.Other(), victim), Asked(hi.Other(), 1, false)],
                    InitPeer(cfg, hi).(parentCancelled := victim == hi),
                    Peer(Idle, Shaking(0), Shaking(1), Waiting, [], victim != hi, false))
  {
    var lo, h0 := hi.Other(), InitPeer(cfg, hi);
    var l0 := Peer(Idle, Shaking(0), Shaking(1), Waiting, [], false, false);
    var h1 := h0.(accept := Shaking(0));
    var d0, d1, d2 := Asked(lo, 0, true), Asked(lo, 1, false), Dropped(lo, victim);
    TwoDials(cfg, hi);
    assert Reaches(cfg, hi, [d0, d1], h1, l0) by {
      HighStep(cfg, hi, [Asked(lo, 0, false), d1], h0, l0, Accept(hi, 0), [d0, d1], h1);
    }
    LessIsTotal(cfg.Id(hi), cfg.Id(lo));
    if victim == hi {
      var h2 := h1.(parentCancelled := true);
      assert Reaches(cfg, hi, [d0, d1], h2, l0) by {
        HighStep(cfg, hi, [d0, d1], h1, l0, CancelParent(hi), [d0, d1], h2);
      }
      HighStep(cfg, hi, [d0, d1], h2, l0, AnswerLost(hi, true, OwnCancel), [d2, d1], h2.(accept := Idle));
    } else {
      var l1 := l0.(parentCancelled := true);
      var e0 := d0.(requestReset := true);
      assert Reaches(cfg, hi, [d0, d1], h1, l1) by {
        LowStep(cfg, hi, [d0, d1], h1, l0, CancelParent(lo), [d0, d1], l1);
      }
      ResetThenLost(cfg, hi);
    }
  }

  /** The smaller side resets its first request while the larger one is answering it. */
  lemma ResetThenLost(cfg: Config, hi: Side)
    requires cfg.Wins(hi) && cfg.Id(hi.Other()) != "" && hi.Other() !in cfg.sameAddrs
    requires !cfg.atomicReply && hi.Other() in cfg.mayCancel
    requires Reaches(cfg, hi, [Asked(hi.Other(), 0, true), Asked(hi.Other(), 1, false)],
                     InitPeer(cfg, hi).(accept := Shaking(0)), Peer(Idle, Shaking(0), Shaking(1), Waiting, [], true, false))
    ensures Reaches(cfg, hi, [Dropped(hi.Other(), hi.Other()), Asked(hi.Other(), 1, false)],
                    InitPeer(cfg, hi), Peer(Idle, Shaking(0), Shaking(1), Waiting, [], true, false))
  {
    var lo, h1 := hi.Other(), InitPeer(cfg, hi).(accept := Shaking(0));
    var l1 := Peer(Idle, Shaking(0), Shaking(1), Waiting, [], true, false);
    var d0, d1, d2 := Asked(lo, 0, true), Asked(lo, 1, false), Dropped(lo, lo);
    var e0 := d0.(requestReset := true);
    LessIsTotal(cfg.Id(hi), cfg.Id(lo));
    assert Reaches(cfg, hi, [e0, d1], h1, l1) by {
      LowStep(cfg, hi, [d0, d1], h1, l1, ResetRequest(lo, DialPrivate), [e0, d1], l1);
    }
    HighStep(cfg, hi, [e0, d1], h1, l1, AnswerLost(hi, true, PeerReset), [d2, d1], h1.(accept := Idle));
  }

  /** The larger side goes on to grant and deliver the second connection. */
  lemma SecondGrant(cfg: Config, hi: Side, victim: Side)
    requires cfg.Wins(hi) && cfg.Id(hi.Other()) != "" && hi.Other() !in cfg.sameAddrs
    requires !cfg.atomicReply && victim in cfg.mayCancel
    ensures Reaches(cfg, hi, [Dropped(hi.Other(), victim), Asked(hi.Other(), 1, true).(reply := Granted200)],
                    InitPeer(cfg, hi).(accept := Finished(false), call := Won(1), crossed := [1],
                                       parentCancelled := victim == hi, attemptsCancelled := true),
                    Peer(Idle, Shaking(0), Shaking(1), Waiting, [], victim != hi, false))
  {
    var lo, h0 := hi.Other(), InitPeer(cfg, hi).(parentCancelled := victim == hi);
    var l := Peer(Idle, Shaking(0), Shaking(1), Waiting, [], victim != hi, false);
    var d := Dropped(lo, victim);
    var c0, c1 := Asked(lo, 1, false), Asked(lo, 1, true);
    var c2 := c1.(reply := Granted200);
    var h1, h2 := h0.(accept := Shaking(1)), h0.(accept := Ready(1));
    var h3 := h0.(accept := Finished(false), call := Won(1), crossed := [1]);
    LoseFirstGrant(cfg, hi, victim);
    assert Reaches(cfg, hi, [d, c1], h1, l) by { HighStep(cfg, hi, [d, c0], h0, l, Accept(hi, 1), [d, c1], h1); }
    assert Reaches(cfg, hi, [d, c2], h2, l) by {
      LessIsTotal(cfg.Id(hi), cfg.Id(lo));
      HighStep(cfg, hi, [d, c1], h1, l, Answer(hi), [d, c2], h2);
    }
    assert Reaches(cfg, hi, [d, c2], h3, l) by { HighStep(cfg, hi, [d, c2], h2, l, HandOver(hi, AcceptLoop), [d, c2], h3); }
    HighStep(cfg, hi, [d, c2], h3, l, CancelAttempts(hi), [d, c2], h3.(attemptsCancelled := true));
  }

  /** Meanwhile the smaller side delivers the first one. */
  lemma TwoWinners(cfg: Config, hi: Side, victim: Side)
    requires cfg.Wins(hi) && cfg.Id(hi.Other()) != "" && hi.Other() !in cfg.sameAddrs
    requires !cfg.atomicReply && victim in cfg.mayCancel
    ensures Reaches(cfg, hi, [Dropped(hi.Other(), victim), Asked(hi.Other(), 1, true).(reply := Granted200)],
                    InitPeer(cfg, hi).(accept := Finished(false), call := Won(1), crossed := [1],
                                       parentCancelled := victim == hi, attemptsCancelled := true),
                    Peer(Idle, Finished(false), Shaking(1), Won(0), [0], victim != hi, true))
  {
    var lo := hi.Other();
    var h := InitPeer(cfg, hi).(accept := Finished(false), call := Won(1), crossed := [1],
                                parentCancelled := victim == hi, attemptsCancelled := true);
    var cs := [Dropped(lo, victim), Asked(lo, 1, true).(reply := Granted200)];
    var l0 := Peer(Idle, Shaking(0), Shaking(1), Waiting, [], victim != hi, false);
    var l1 := l0.(dialPrivate := Ready(0));
    var l2 := l0.(dialPrivate := Finished(false), call := Won(0), crossed := [0]);
    SecondGrant(cfg, hi, victim);
    assert Reaches(cfg, hi, cs, h, l1) by { LowStep(cfg, hi, cs, h, l0, ReadReply(lo, DialPrivate), cs, l1); }
    assert Reaches(cfg, hi, cs, h, l2) by { LowStep(cfg, hi, cs, h, l1, HandOver(lo, DialPrivate), cs, l2); }
    LowStep(cfg, hi, cs, h, l2, CancelAttempts(lo), cs, l2.(attemptsCancelled := true));
  }

  /** The smaller side's other loops end and its call returns. */
  lemma SmallerReturns(cfg: Config, hi: Side, c0: Conn, c1: Conn, h: Peer, parent: bool)
    requires c1 == Asked(hi.Other(), 1, true).(reply := Granted200)
    requires Reaches(cfg, hi, [c0, c1], h, Peer(Idle, Finished(false), Shaking(1), Won(0), [0], parent, true))
    ensures Reaches(cfg, hi, [c0, c1.(byDialler := Cancelled)], h,
      Peer(Finished(false), Finished(false), Finished(false), Returned(Some(0), false), [0], parent, true))
  {
    var lo := hi.Other();
    var l0 := Peer(Idle, Finished(false), Shaking(1), Won(0), [0], parent, true);
    var l1, l2 := l0.(dialPublic := Idle), l0.(dialPublic := Finished(false));
    var l3 := l2.(accept := Finished(false));
    var cs := [c0, c1.(byDialler := Cancelled)];
    assert Reaches(cfg, hi, cs, h, l1) by { LowStep(cfg, hi, [c0, c1], h, l0, Abort(lo, DialPublic, OwnCancel), cs, l1); }
    assert Reaches(cfg, hi, cs, h, l2) by { LowStep(cfg, hi, cs, h, l1, Stop(lo, DialPublic), cs, l2); }
    assert Reaches(cfg, hi, cs, h, l3) by { LowStep(cfg, hi, cs, h, l2, Stop(lo, AcceptLoop), cs, l3); }
    LowStep(cfg, hi, cs, h, l3, ReturnConnect(lo), cs, l3.(call := Returned(Some(0), false)));
  }

  /** So do the larger side's. */
  lemma LargerReturns(cfg: Config, hi: Side, cs: seq<Conn>, h0: Peer, l: Peer, c: nat)
    requires h0.accept == Finished(false) && h0.dialPrivate == Idle
    requires h0.dialPublic == Idle || h0.dialPublic == Finished(false)
    requires h0.call == Won(c) && h0.attemptsCancelled && Reaches(cfg, hi, cs, h0, l)
    ensures Reaches(cfg, hi, cs,
      h0.(dialPrivate := Finished(false), dialPublic := Finished(false), call := Returned(Some(c), false)), l)
  {
    var h1 := h0.(dialPrivate := Finished(false));
    var h2 := h1.(dialPublic := Finished(false));
    assert Reaches(cfg, hi, cs, h1, l) by { HighStep(cfg, hi, cs, h0, l, Stop(hi, DialPrivate), cs, h1); }
    assert Reaches(cfg, hi, cs, h2, l) by {
      if h0.dialPublic == Idle {
        HighStep(cfg, hi, cs, h1, l, Stop(hi, DialPublic), cs, h2);
      } else {
        assert h1 == h2;
      }
    }
    HighStep(cfg, hi, cs, h2, l, ReturnConnect(hi), cs, h2.(call := Returned(Some(c), false)));
  }

  /** Two addresses: either side's cancellation can make the two calls return different
      connections. */
  lemma TwoAddressesDisagree(cfg: Config, hi: Side, victim: Side) returns (s: State)
    requires cfg.Wins(hi) && cfg.Id(hi.Other()) != "" && hi.Other() !in cfg.sameAddrs
    requires !cfg.atomicReply && victim in cfg.mayCancel
    ensures Reachable(cfg, s) && Connected(s, hi, 1) && Connected(s, hi.Other(), 0)
  {
    var lo := hi.Other();
    var c0, c1 := Dropped(lo, victim), Asked(lo, 1, true).(reply := Granted200);
    var h0 := InitPeer(cfg, hi).(accept := Finished(false), call := Won(1), crossed := [1],
                                 parentCancelled := victim == hi, attemptsCancelled := true);
    var l1 := Peer(Finished(false), Finished(false), Finished(false), Returned(Some(0), false), [0], victim != hi, true);
    var h1 := h0.(dialPrivate := Finished(false), dialPublic := Finished(false), call := Returned(Some(1), false));
    var cs := [c0, c1.(byDialler := Cancelled)];
    TwoWinners(cfg, hi, victim);
    SmallerReturns(cfg, hi, c0, c1, h0, victim != hi);
    LargerReturns(cfg, hi, cs, h0, l1, 1);
    s := if hi == Left then State(cs, h1, l1) else State(cs, l1, h1);
  }

  /** Connection `n` of a smaller side with one address. */
  function Single(lo: Side, taken: bool): Conn {
    Conn(lo, DialPrivate, taken, true, false, NoReply, Open, Open)
  }

  /** The smaller side has dialled and sent its ID. */
  lemma DialsOnce(cfg: Config, hi: Side)
    ensures Reaches(cfg, hi, [Single(hi.Other(), false)], InitPeer(cfg, hi),
                    InitPeer(cfg, hi.Other()).(dialPrivate := Shaking(0)))
  {
    var lo, h := hi.Other(), InitPeer(cfg, hi);
    var l0, l1 := InitPeer(cfg, lo), InitPeer(cfg, lo).(dialPrivate := Shaking(0));
    var d := Single(lo, false);
    var c := d.(requestSent := false);
    assert Reaches(cfg, hi, [], h, l0) by { assert Run(cfg, []) == Some(Init(cfg)); }
    assert Reaches(cfg, hi, [c], h, l1) by { LowStep(cfg, hi, [], h, l0, Dial(lo, DialPrivate), [c], l1); }
    LowStep(cfg, hi, [c], h, l1, SendRequest(lo, DialPrivate), [d], l1);
  }

  /** Its caller gives up while it waits for the answer; its loop dials once more before it
      notices, and resets the second request as well. */
  lemma DialsTwice(cfg: Config, hi: Side)
    requires hi.Other() in cfg.sameAddrs && hi.Other() in cfg.mayCancel
    ensures Reaches(cfg, hi,
      [Single(hi.Other(), false).(byDialler := Cancelled), Single(hi.Other(), false).(requestReset := true)],
      InitPeer(cfg, hi), Peer(Idle, Shaking(1), Finished(false), Waiting, [], true, false))
  {
    var lo, h := hi.Other(), InitPeer(cfg, hi);
    var l1 := Peer(Idle, Shaking(0), Finished(false), Waiting, [], false, false);
    var l2 := l1.(parentCancelled := true);
    var l3, l4 := l2.(dialPrivate := Idle), l2.(dialPrivate := Shaking(1));
    var d := Single(lo, false);
    var c, e, r := d.(requestSent := false), d.(byDialler := Cancelled), d.(requestReset := true);
    DialsOnce(cfg, hi);
    assert Reaches(cfg, hi, [d], h, l2) by { LowStep(cfg, hi, [d], h, l1, CancelParent(lo), [d], l2); }
    assert Reaches(cfg, hi, [e], h, l3) by { LowStep(cfg, hi, [d], h, l2, Abort(lo, DialPrivate, OwnCancel), [e], l3); }
    assert Reaches(cfg, hi, [e, c], h, l4) by { LowStep(cfg, hi, [e], h, l3, Dial(lo, DialPrivate), [e, c], l4); }
    assert Reaches(cfg, hi, [e, d], h, l4) by {
      LowStep(cfg, hi, [e, c], h, l4, SendRequest(lo, DialPrivate), [e, d], l4);
    }
    LowStep(cfg, hi, [e, d], h, l4, ResetRequest(lo, DialPrivate), [e, r], l4);
  }

  /** The larger side meets the second connection first and loses it while its 200 arrives. */
  lemma LosesSecond(cfg: Config, hi: Side)
    requires cfg.Wins(hi) && cfg.Id(hi.Other()) != "" && !cfg.atomicReply
    requires hi.Other() in cfg.sameAddrs && hi.Other() in cfg.mayCancel
    ensures Reaches(cfg, hi,
      [Single(hi.Other(), false).(byDialler := Cancelled),
       Single(hi.Other(), true).(requestReset := true, reply := Granted200, byAcceptor := Cancelled)],
      InitPeer(cfg, hi), Peer(Idle, Shaking(1), Finished(false), Waiting, [], true, false))
  {
    var lo, h0 := hi.Other(), InitPeer(cfg, hi);
    var l := Peer(Idle, Shaking(1), Finished(false), Waiting, [], true, false);
    var e, r := Single(lo, false).(byDialler := Cancelled), Single(lo, false).(requestReset := true);
    var r1 := r.(taken := true);
    var r2 := r1.(reply := Granted200, byAcceptor := Cancelled);
    var h1 := h0.(accept := Shaking(1));
    DialsTwice(cfg, hi);
    LessIsTotal(cfg.Id(hi), cfg.Id(lo));
    assert Reaches(cfg, hi, [e, r1], h1, l) by { HighStep(cfg, hi, [e, r], h0, l, Accept(hi, 1), [e, r1], h1); }
    HighStep(cfg, hi, [e, r1], h1, l, AnswerLost(hi, true, PeerReset), [e, r2], h0);
  }

  /** Then it grants and delivers the first one. */
  lemma GrantsBoth(cfg: Config, hi: Side)
    requires cfg.Wins(hi) && cfg.Id(hi.Other()) != "" && !cfg.atomicReply
    requires hi.Other() in cfg.sameAddrs && hi.Other() in cfg.mayCancel
    ensures Reaches(cfg, hi,
      [Single(hi.Other(), true).(byDialler := Cancelled, reply := Granted200),
       Single(hi.Other(), true).(requestReset := true, reply := Granted200, byAcceptor := Cancelled)],
      InitPeer(cfg, hi).(accept := Finished(false), call := Won(0), crossed := [0], attemptsCancelled := true),
      Peer(Idle, Shaking(1), Finished(false), Waiting, [], true, false))
  {
    var lo, h0 := hi.Other(), InitPeer(cfg, hi);
    var l := Peer(Idle, Shaking(1), Finished(false), Waiting, [], true, false);
    var e := Single(lo, false).(byDialler := Cancelled);
    var r := Single(lo, true).(requestReset := true, reply := Granted200, byAcceptor := Cancelled);
    var e2 := Single(lo, true).(byDialler := Cancelled, reply := Granted200);
    LosesSecond(cfg, hi);
    assert [e] + [r] == [e, r] && [e2] + [r] == [e2, r];
    Delivers(cfg, hi, e, [r], l);
  }

  /** The larger side accepts the first connection, grants it and delivers it. */
  lemma Delivers(cfg: Config, hi: Side, e: Conn, rest: seq<Conn>, l: Peer)
    requires cfg.Wins(hi) && cfg.Id(hi.Other()) != ""
    requires e.dialler == hi.Other() && !e.taken && e.requestSent && e.reply == NoReply
    requires Reaches(cfg, hi, [e] + rest, InitPeer(cfg, hi), l)
    ensures Reaches(cfg, hi, [e.(taken := true, reply := Granted200)] + rest,
      InitPeer(cfg, hi).(accept := Finished(false), call := Won(0), crossed := [0], attemptsCancelled := true), l)
  {
    var h0 := InitPeer(cfg, hi);
    var e1, e2 := e.(taken := true), e.(taken := true, reply := Granted200);
    var h1, h2 := h0.(accept := Shaking(0)), h0.(accept := Ready(0));
    var h3 := h0.(accept := Finished(false), call := Won(0), crossed := [0]);
    var cs0, cs1, cs2 := [e] + rest, [e1] + rest, [e2] + rest;
    LessIsTotal(cfg.Id(hi), cfg.Id(hi.Other()));
    assert cs0[0 := e1] == cs1 && cs1[0 := e2] == cs2 && cs2[0 := e2] == cs2;
    assert Reaches(cfg, hi, cs1, h1, l) by { HighStep(cfg, hi, cs0, h0, l, Accept(hi, 0), cs1, h1); }
    assert Reaches(cfg, hi, cs2, h2, l) by { HighStep(cfg, hi, cs1, h1, l, Answer(hi), cs2, h2); }
    assert Reaches(cfg, hi, cs2, h3, l) by { HighStep(cfg, hi, cs2, h2, l, HandOver(hi, AcceptLoop), cs2, h3); }
    HighStep(cfg, hi, cs2, h3, l, CancelAttempts(hi), cs2, h3.(attemptsCancelled := true));
  }

  /** The smaller side delivers the second connection. */
  lemma SoleDiallerReturns(cfg: Config, hi: Side, cs: seq<Conn>, h: Peer, l0: Peer)
    requires |cs| == 2 && cs[1].requestSent && cs[1].reply == Granted200
    requires l0 == Peer(Idle, Shaking(1), Finished(false), Waiting, [], true, false) && Reaches(cfg, hi, cs, h, l0)
    ensures Reaches(cfg, hi, cs, h,
      l0.(accept := Finished(false), dialPrivate := Finished(false), call := Returned(Some(1), false),
          crossed := [1], attemptsCancelled := true))
  {
    var lo := hi.Other();
    var l1 := l0.(dialPrivate := Ready(1));
    var l2 := l0.(dialPrivate := Finished(false), call := Won(1), crossed := [1]);
    var l3 := l2.(attemptsCancelled := true);
    var l4 := l3.(accept := Finished(false));
    assert cs[1 := cs[1]] == cs;
    assert Reaches(cfg, hi, cs, h, l1) by { LowStep(cfg, hi, cs, h, l0, ReadReply(lo, DialPrivate), cs, l1); }
    assert Reaches(cfg, hi, cs, h, l2) by { LowStep(cfg, hi, cs, h, l1, HandOver(lo, DialPrivate), cs, l2); }
    assert Reaches(cfg, hi, cs, h, l3) by { LowStep(cfg, hi, cs, h, l2, CancelAttempts(lo), cs, l3); }
    assert Reaches(cfg, hi, cs, h, l4) by { LowStep(cfg, hi, cs, h, l3, Stop(lo, AcceptLoop), cs, l4); }
    LowStep(cfg, hi, cs, h, l4, ReturnConnect(lo), cs, l4.(call := Returned(Some(1), false)));
  }

  lemma OneAddressDisagrees(cfg: Config, hi: Side) returns (s: State)
    requires cfg.Wins(hi) && cfg.Id(hi.Other()) != "" && !cfg.atomicReply
    requires hi.Other() in cfg.sameAddrs && hi.Other() in cfg.mayCancel
    ensures Reachable(cfg, s) && Connected(s, hi, 0) && Connected(s, hi.Other(), 1)
  {
    var lo := hi.Other();
    var cs := [Single(lo, true).(byDialler := Cancelled, reply := Granted200),
               Single(lo, true).(requestReset := true, reply := Granted200, byAcceptor := Cancelled)];
    var h := InitPeer(cfg, hi).(accept := Finished(false), call := Won(0), crossed := [0], attemptsCancelled := true);
    var l0 := Peer(Idle, Shaking(1), Finished(false), Waiting, [], true, false);
    var l5 := l0.(accept := Finished(false), dialPrivate := Finished(false), call := Returned(Some(1), false),
                  crossed := [1], attemptsCancelled := true);
    GrantsBoth(cfg, hi);
    SoleDiallerReturns(cfg, hi, cs, h, l0);
    LargerReturns(cfg, hi, cs, h, l5, 0);
    var h1 := h.(dialPrivate := Finished(false), dialPublic := Finished(false), call := Returned(Some(0), false));
    s := if hi == Left then State(cs, h1, l5) else State(cs, l5, h1);
  }

  /** The smaller side delivers its only connection. */
  lemma OnlyDialDelivers(cfg: Config, hi: Side, cs: seq<Conn>, h: Peer)
    requires |cs| == 1 && cs[0].requestSent && cs[0].reply == Granted200
    requires Reaches(cfg, hi, cs, h, InitPeer(cfg, hi.Other()).(dialPrivate := Shaking(0)))
    ensures Reaches(cfg, hi, cs, h, InitPeer(cfg, hi.Other()).(
      dialPrivate := Finished(false), call := Won(0), crossed := [0], attemptsCancelled := true))
  {
    var lo := hi.Other();
    var l0 := InitPeer(cfg, lo).(dialPrivate := Shaking(0));
    var l1 := l0.(dialPrivate := Ready(0));
    var l2 := l0.(dialPrivate := Finished(false), call := Won(0), crossed := [0]);
    assert cs[0 := cs[0]] == cs;
    assert Reaches(cfg, hi, cs, h, l1) by { LowStep(cfg, hi, cs, h, l0, ReadReply(lo, DialPrivate), cs, l1); }
    assert Reaches(cfg, hi, cs, h, l2) by { LowStep(cfg, hi, cs, h, l1, HandOver(lo, DialPrivate), cs, l2); }
    LowStep(cfg, hi, cs, h, l2, CancelAttempts(lo), cs, l2.(attemptsCancelled := true));
  }

  lemma OnlyDialReturns(cfg: Config, hi: Side, cs: seq<Conn>, h: Peer, l0: Peer)
    requires l0 == InitPeer(cfg, hi.Other()).(
      dialPrivate := Finished(false), call := Won(0), crossed := [0], attemptsCancelled := true)
    requires Reaches(cfg, hi, cs, h, l0)
    ensures Reaches(cfg, hi, cs, h,
      Peer(Finished(false), Finished(false), Finished(false), Returned(Some(0), false), [0], false, true))
  {
    var lo := hi.Other();
    var l1 := l0.(accept := Finished(false));
    var l2 := l1.(dialPublic := Finished(false));
    assert Reaches(cfg, hi, cs, h, l1) by { LowStep(cfg, hi, cs, h, l0, Stop(lo, AcceptLoop), cs, l1); }
    assert Reaches(cfg, hi, cs, h, l2) by {
      if l1.dialPublic == Idle {
        LowStep(cfg, hi, cs, h, l1, Stop(lo, DialPublic), cs, l2);
      } else {
        assert l1 == l2;
      }
    }
    LowStep(cfg, hi, cs, h, l2, ReturnConnect(lo), cs, l2.(call := Returned(Some(0), false)));
  }

  /** A run in which both calls return the same connection and nobody gives up. */
  lemma BothReturn(cfg: Config, hi: Side) returns (s: State)
    requires cfg.Wins(hi) && cfg.Id(hi.Other()) != ""
    ensures Reachable(cfg, s) && Connected(s, Left, 0) && Connected(s, Right, 0)
    ensures !s.left.parentCancelled && !s.right.parentCancelled
  {
    var lo := hi.Other();
    var d := Single(lo, false);
    var cs := [d.(taken := true, reply := Granted200)];
    var l0 := InitPeer(cfg, lo).(dialPrivate := Shaking(0));
    var h := InitPeer(cfg, hi).(accept := Finished(false), call := Won(0), crossed := [0], attemptsCancelled := true);
    var l := Peer(Finished(false), Finished(false), Finished(false), Returned(Some(0), false), [0], false, true);
    var h1 := h.(dialPrivate := Finished(false), dialPublic := Finished(false), call := Returned(Some(0), false));
    DialsOnce(cfg, hi);
    assert [d] + [] == [d] && cs + [] == cs;
    Delivers(cfg, hi, d, [], l0);
    OnlyDialDelivers(cfg, hi, cs, h);
    OnlyDialReturns(cfg, hi, cs, h, InitPeer(cfg, lo).(
      dialPrivate := Finished(false), call := Won(0), crossed := [0], attemptsCancelled := true));
    LargerReturns(cfg, hi, cs, h, l, 0);
    s := if hi == Left then State(cs, h1, l) else State(cs, l, h1);
  }

  ghost predicate AlwaysAgrees(cfg: Config) {
    forall s, c: nat, d: nat ::
      Reachable(cfg, s) && Connected(s, Left, c) && Connected(s, Right, d) ==> c == d
  }

  lemma {:induction false} OnlyAllowedCancels(cfg: Config, acts: seq<Action>, side: Side)
    requires Run(cfg, acts).Some? && Run(cfg, acts).value.Get(side).parentCancelled
    ensures side in cfg.mayCancel
  {
    if acts != [] {
      var before, a := Run(cfg, acts[..|acts| - 1]).value, acts[|acts| - 1];
      if before.Get(side).parentCancelled {
        OnlyAllowedCancels(cfg, acts[..|acts| - 1], side);
      } else {
        CancelIsAllowed(cfg, before, a, side);
      }
    }
  }

  lemma CancelIsAllowed(cfg: Config, s: State, a: Action, side: Side)
    requires Enabled(cfg, s, a) && !s.Get(side).parentCancelled && Apply(cfg, s, a).Get(side).parentCancelled
    ensures side in cfg.mayCancel
  {
    assert a == CancelParent(side);
  }

  /** Whether the run that makes them disagree is possible: the smaller side has an ID, a
      reply can arrive whose write fails, and the right caller can give up.  With two
      addresses that is either one, with one address the smaller side's. */
  predicate CanDisagree(cfg: Config, hi: Side) {
    && !cfg.atomicReply
    && cfg.Id(hi.Other()) != ""
    && (if hi.Other() in cfg.sameAddrs then hi.Other() in cfg.mayCancel else cfg.mayCancel != {})
  }

  lemma Agrees(cfg: Config, hi: Side, s: State, c: nat, d: nat)
    requires cfg.Wins(hi) && !CanDisagree(cfg, hi)
    requires Reachable(cfg, s) && Connected(s, hi, c) && Connected(s, hi.Other(), d)
    ensures c == d
  {
    var acts :| Run(cfg, acts) == Some(s);
    forall side | s.Get(side).parentCancelled ensures side in cfg.mayCancel {
      OnlyAllowedCancels(cfg, acts, side);
    }
    if cfg.Id(hi.Other()) == "" {
      NoIdNoConnection(cfg, s, hi, hi, c);
    } else if !cfg.atomicReply && hi.Other() in cfg.sameAddrs {
      OneAddressAgrees(cfg, s, hi, c, d);
    } else {
      assert !cfg.atomicReply ==> !s.Get(Left).parentCancelled && !s.Get(Right).parentCancelled;
      Agreement(cfg, s, hi, c, d);
    }
  }

  /** A run in which the two calls return different connections. */
  lemma Disagreement(cfg: Config, hi: Side) returns (s: State, c: nat, d: nat)
    requires cfg.Wins(hi) && CanDisagree(cfg, hi)
    ensures Reachable(cfg, s) && Connected(s, hi, c) && Connected(s, hi.Other(), d) && c != d
  {
    if hi.Other() in cfg.sameAddrs {
      s := OneAddressDisagrees(cfg, hi);
      c, d := 0, 1;
    } else {
      var victim :| victim in cfg.mayCancel;
      s := TwoAddressesDisagree(cfg, hi, victim);
      c, d := 1, 0;
    }
  }

  /** The exact condition, for any two peers with different IDs: all runs agree iff no run
      of that kind is possible. */
  lemma AgreementExactly(cfg: Config, hi: Side)
    requires cfg.Wins(hi)
    ensures AlwaysAgrees(cfg) <==> !CanDisagree(cfg, hi)
  {
    if CanDisagree(cfg, hi) {
      var s, c, d := Disagreement(cfg, hi);
      assert !AlwaysAgrees(cfg);
    } else {
      forall s, c: nat, d: nat | Reachable(cfg, s) && Connected(s, Left, c) && Connected(s, Right, d) ensures c == d {
        Agrees(cfg, hi, s, if hi == Left then c else d, if hi == Left then d else c);
      }
    }
  }

  // ------------------------------------------------------------------ abandoned connections

  /** The smaller side's group ends after it has read its 200: because its caller gives up
      or because its accept loop fails. */
  function Ended(l: Peer, failing: bool): Peer {
    if failing then l.(accept := Finished(true)) else l.(parentCancelled := true)
  }

  /** The first connection is granted and delivered by the larger side. */
  lemma GrantsFirst(cfg: Config, hi: Side)
    requires cfg.Wins(hi) && cfg.Id(hi.Other()) != ""
    ensures Reaches(cfg, hi, [Single(hi.Other(), true).(reply := Granted200)],
      InitPeer(cfg, hi).(accept := Finished(false), call := Won(0), crossed := [0], attemptsCancelled := true),
      InitPeer(cfg, hi.Other()).(dialPrivate := Shaking(0)))
  {
    var d, d2 := Single(hi.Other(), false), Single(hi.Other(), true).(reply := Granted200);
    DialsOnce(cfg, hi);
    assert [d] + [] == [d] && [d2] + [] == [d2];
    Delivers(cfg, hi, d, [], InitPeer(cfg, hi.Other()).(dialPrivate := Shaking(0)));
  }

  /** A connection that got its 200 and was then abandoned by its dialler is returned by the
      accepting side, whatever the replies are like. */
  lemma AbandonedIsReturned(cfg: Config, hi: Side, failing: bool) returns (s: State)
    requires cfg.Wins(hi) && cfg.Id(hi.Other()) != "" && (failing || hi.Other() in cfg.mayCancel)
    ensures Reachable(cfg, s) && Connected(s, hi, 0)
    ensures |s.conns| == 1 && s.conns[0].reply == Granted200 && s.conns[0].byDialler == Cancelled
  {
    var lo := hi.Other();
    var d := Single(lo, true).(reply := Granted200);
    var e := d.(byDialler := Cancelled);
    var h := InitPeer(cfg, hi).(accept := Finished(false), call := Won(0), crossed := [0], attemptsCancelled := true);
    var l0 := InitPeer(cfg, lo).(dialPrivate := Shaking(0));
    var l1 := l0.(dialPrivate := Ready(0));
    var l2 := Ended(l1, failing);
    var l3 := l2.(dialPrivate := Finished(false));
    GrantsFirst(cfg, hi);
    assert Reaches(cfg, hi, [d], h, l1) by { LowStep(cfg, hi, [d], h, l0, ReadReply(lo, DialPrivate), [d], l1); }
    assert Reaches(cfg, hi, [d], h, l2) by {
      LowStep(cfg, hi, [d], h, l1, if failing then Fail(lo, AcceptLoop) else CancelParent(lo), [d], l2);
    }
    assert Reaches(cfg, hi, [e], h, l3) by { LowStep(cfg, hi, [d], h, l2, GiveUp(lo, DialPrivate, false), [e], l3); }
    LargerReturns(cfg, hi, [e], h, l3, 0);
    var h1 := h.(dialPrivate := Finished(false), dialPublic := Finished(false), call := Returned(Some(0), false));
    s := if hi == Left then State([e], h1, l3) else State([e], l3, h1);
  }

  /** No connection that either side returned has been closed by its dialler. */
  ghost predicate NeverReturnsAbandoned(cfg: Config) {
    forall s, side, c: nat | Reachable(cfg, s) && Connected(s, side, c) ::
      c < |s.conns| && s.conns[c].byDialler == Open
  }

  /** That promise is never kept, except where nothing is ever returned. */
  lemma AbandonedExactly(cfg: Config, hi: Side)
    requires cfg.Wins(hi)
    ensures NeverReturnsAbandoned(cfg) <==> cfg.Id(hi.Other()) == ""
  {
    if cfg.Id(hi.Other()) == "" {
      forall s, side, c: nat ensures !(Reachable(cfg, s) && Connected(s, side, c)) {
        if Reachable(cfg, s) { NoIdNoConnection(cfg, s, hi, side, c); }
      }
    } else {
      var s := AbandonedIsReturned(cfg, hi, true);
      assert Reachable(cfg, s) && Connected(s, hi, 0) && s.conns[0].byDialler != Open;
    }
  }

  // ------------------------------------------------------------------ neither nor

  /** A run in which Connect of a side returns neither a connection nor an error. */
  lemma NeitherHappens(cfg: Config, side: Side) returns (s: State)
    requires side in cfg.mayCancel
    ensures Reachable(cfg, s) && s.Get(side).call == Returned(None, false)
  {
    var h0, l := InitPeer(cfg, side), InitPeer(cfg, side.Other());
    var h1 := h0.(parentCancelled := true);
    var h2 := h1.(accept := Finished(false), dialPrivate := Finished(false), dialPublic := Finished(false));
    var h3, h4 := h2.(call := Quit), h2.(call := Returned(None, false));
    assert Reaches(cfg, side, [], h0, l) by { assert Run(cfg, []) == Some(Init(cfg)); }
    assert Reaches(cfg, side, [], h1, l) by { HighStep(cfg, side, [], h0, l, CancelParent(side), [], h1); }
    LoopsStop(cfg, side, h1, l);
    assert Reaches(cfg, side, [], h3, l) by { HighStep(cfg, side, [], h2, l, QuitConnect(side), [], h3); }
    assert Reaches(cfg, side, [], h4, l) by { HighStep(cfg, side, [], h3, l, ReturnConnect(side), [], h4); }
    s := if side == Left then State([], h4, l) else State([], l, h4);
  }

  /** All loops of a side whose context is done stop. */
  lemma LoopsStop(cfg: Config, side: Side, h: Peer, l: Peer)
    requires Reaches(cfg, side, [], h, l) && h.AttemptsDone() && h.accept == Idle && h.dialPrivate == Idle
    requires h.dialPublic == Idle || h.dialPublic == Finished(false)
    ensures Reaches(cfg, side, [],
      h.(accept := Finished(false), dialPrivate := Finished(false), dialPublic := Finished(false)), l)
  {
    var h1 := h.(accept := Finished(false));
    var h2 := h1.(dialPrivate := Finished(false));
    var h3 := h2.(dialPublic := Finished(false));
    assert Reaches(cfg, side, [], h1, l) by { HighStep(cfg, side, [], h, l, Stop(side, AcceptLoop), [], h1); }
    assert Reaches(cfg, side, [], h2, l) by { HighStep(cfg, side, [], h1, l, Stop(side, DialPrivate), [], h2); }
    if h.dialPublic == Idle {
      HighStep(cfg, side, [], h2, l, Stop(side, DialPublic), [], h3);
    } else {
      assert h2 == h3;
    }
  }

  /** Connect of a side can do that iff its caller's context can be cancelled. */
  lemma NeitherExactly(cfg: Config, hi: Side, side: Side)
    requires cfg.Wins(hi)
    ensures (exists s :: Reachable(cfg, s) && s.Get(side).call == Returned(None, false)) <==> side in cfg.mayCancel
  {
    if side in cfg.mayCancel {
      var s := NeitherHappens(cfg, side);
    } else {
      forall s | Reachable(cfg, s) ensures s.Get(side).call != Returned(None, false) {
        var acts :| Run(cfg, acts) == Some(s);
        if s.Get(side).call == Returned(None, false) {
          NothingWithoutError(cfg, s, hi, side);
          OnlyAllowedCancels(cfg, acts, side);
          assert false;
        }
      }
    }
  }
}
