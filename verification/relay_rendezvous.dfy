/** Matching the two relay streams of a session (internal/registar/server.go:263-330).

    Every request to relay a session is a handler.  The first one to arrive waits in a
    table under the session ID, the second one takes it out, starts the proxy for both and
    closes the first one's `ready` channel.  A waiter whose stream dies cleans up by
    session ID, and that may happen late. */
module RelayRendezvous {
  import opened Wrappers
  import RegistarSetup

  datatype Phase =
    | Waiting              // in its select
    | Leaving              // saw its stream die, has not cleaned up yet
    | Pairing(first: nat)  // took `first` out of the table, has not closed its channel yet
    | Gone

  /** `closes` counts how often the handler's `ready` channel was closed; `displaced` is
      set when somebody else's cleanup took the handler out of the table. */
  datatype Handler = Handler(session: nat, phase: Phase, alive: bool, closes: nat, displaced: bool)

  datatype State = State(handlers: seq<Handler>, waiting: map<nat, nat>, pairs: seq<(nat, nat)>)

  datatype Action =
    | Arrive(session: nat)
    | CloseReady(handler: nat)
    | StreamDies(handler: nat)
    | SeeDeath(handler: nat)
    | SeeReady(handler: nat)
    | CleanUp(handler: nat)

  predicate Enabled(s: State, a: Action) {
    match a
    case Arrive(_) => true
    case CloseReady(h) => h < |s.handlers| && s.handlers[h].phase.Pairing? && s.handlers[h].phase.first < |s.handlers|
    case StreamDies(h) => h < |s.handlers|
    case SeeDeath(h) => h < |s.handlers| && s.handlers[h].phase == Waiting && !s.handlers[h].alive
    case SeeReady(h) => h < |s.handlers| && s.handlers[h].phase == Waiting && s.handlers[h].closes > 0
    case CleanUp(h) => h < |s.handlers| && s.handlers[h].phase == Leaving
  }

  function Put(s: State, h: nat, x: Handler): State
    requires h < |s.handlers|
  {
    s.(handlers := s.handlers[h := x])
  }

  function Apply(s: State, a: Action): State
    requires Enabled(s, a)
  {
    match a
    case Arrive(k) =>
      var h := |s.handlers|;
      if k in s.waiting then
        State(s.handlers + [Handler(k, Pairing(s.waiting[k]), true, 0, false)], s.waiting - {k}, s.pairs + [(s.waiting[k], h)])
      else
        s.(handlers := s.handlers + [Handler(k, Waiting, true, 0, false)], waiting := s.waiting[k := h])
    case CloseReady(h) =>
      var w := s.handlers[h].phase.first;
      var s1 := Put(s, w, s.handlers[w].(closes := s.handlers[w].closes + 1));
      Put(s1, h, s1.handlers[h].(phase := Gone))
    case StreamDies(h) => Put(s, h, s.handlers[h].(alive := false))
    case SeeDeath(h) => Put(s, h, s.handlers[h].(phase := Leaving))
    case SeeReady(h) => Put(s, h, s.handlers[h].(phase := Gone))
    case CleanUp(h) =>
      var k := s.handlers[h].session;
      var s1 := if k in s.waiting && s.waiting[k] != h && s.waiting[k] < |s.handlers|
                then Put(s, s.waiting[k], s.handlers[s.waiting[k]].(displaced := true)) else s;
      Put(s1, h, s1.handlers[h].(phase := Gone)).(waiting := s.waiting - {k})
  }

  const INIT := State([], map[], [])

  /** The state after some more actions, or None when one of them was not possible. */
  function Continue(s: State, acts: seq<Action>): Option<State> {
    if acts == [] then Some(s)
    else
      var prev := Continue(s, acts[..|acts| - 1]);
      if prev.Some? && Enabled(prev.value, acts[|acts| - 1])
      then Some(Apply(prev.value, acts[|acts| - 1]))
      else None
  }

  function Run(acts: seq<Action>): Option<State> {
    Continue(INIT, acts)
  }

  // ------------------------------------------------------------------ invariants

  predicate InTable(s: State, h: nat) {
    h < |s.handlers| && s.handlers[h].session in s.waiting && s.waiting[s.handlers[h].session] == h
  }

  ghost predicate Paired(s: State, h: nat) {
    First(s, h) || Second(s, h)
  }

  ghost predicate First(s: State, h: nat) {
    exists p :: p in s.pairs && p.0 == h
  }

  ghost predicate Second(s: State, h: nat) {
    exists p :: p in s.pairs && p.1 == h
  }

  predicate Blocked(s: State, h: nat) {
    h < |s.handlers| && (s.handlers[h].phase == Waiting || s.handlers[h].phase == Leaving)
  }

  /** The table leads to waiters that are not paired. */
  ghost predicate TableSound(s: State) {
    forall k :: k in s.waiting ==>
      && s.waiting[k] < |s.handlers| && s.handlers[s.waiting[k]].session == k
      && Blocked(s, s.waiting[k]) && !Paired(s, s.waiting[k]) && !s.handlers[s.waiting[k]].displaced
  }

  /** A pair joins two streams of one session, and no stream is in two pairs. */
  ghost predicate PairsSound(s: State) {
    && (forall i :: 0 <= i < |s.pairs| ==>
          && s.pairs[i].0 < s.pairs[i].1 < |s.handlers|
          && s.handlers[s.pairs[i].0].session == s.handlers[s.pairs[i].1].session)
    && (forall i, j :: 0 <= i < j < |s.pairs| ==>
          && s.pairs[i].0 != s.pairs[j].0 && s.pairs[i].0 != s.pairs[j].1
          && s.pairs[i].1 != s.pairs[j].0 && s.pairs[i].1 != s.pairs[j].1)
  }

  /** Three streams have arrived for the session. */
  ghost predicate Thrice(s: State, k: nat) {
    exists a, b, c :: 0 <= a < b < c < |s.handlers| && s.handlers[a].session == s.handlers[b].session == s.handlers[c].session == k
  }

  /** A blocked handler is in the table, paired, or was displaced.  The second stream of a
      pair closes the channel of the first one, once. */
  ghost predicate HandlerSound(s: State, h: nat)
    requires h < |s.handlers|
  {
    var x := s.handlers[h];
    && (Blocked(s, h) ==> InTable(s, h) || First(s, h) || x.displaced)
    && (Blocked(s, h) ==> !Second(s, h))
    && (x.phase.Pairing? ==>
          (x.phase.first, h) in s.pairs && x.phase.first < |s.handlers| && s.handlers[x.phase.first].closes == 0)
    && x.closes <= 1
    && (x.closes == 1 ==> First(s, h))
    && (x.displaced ==> Thrice(s, x.session))
  }

  ghost predicate Inv(s: State) {
    && TableSound(s) && PairsSound(s)
    && (forall h :: 0 <= h < |s.handlers| ==> HandlerSound(s, h))
  }

  // ------------------------------------------------------------------ one step

  /** Handlers keep their session, and facts about the past stay true. */
  lemma Grows(s: State, a: Action)
    requires Enabled(s, a)
    ensures var s' := Apply(s, a);
      && |s.handlers| <= |s'.handlers|
      && (forall h :: 0 <= h < |s.handlers| ==> s'.handlers[h].session == s.handlers[h].session)
      && (forall p :: p in s.pairs ==> p in s'.pairs)
      && (!a.Arrive? ==> s'.pairs == s.pairs && |s'.handlers| == |s.handlers|)
  {
  }

  lemma TableStep(s: State, a: Action)
    requires Inv(s) && Enabled(s, a)
    ensures TableSound(Apply(s, a))
  {
    var s' := Apply(s, a);
    Grows(s, a);
    forall k | k in s'.waiting
      ensures s'.waiting[k] < |s'.handlers| && s'.handlers[s'.waiting[k]].session == k
      ensures Blocked(s', s'.waiting[k]) && !Paired(s', s'.waiting[k]) && !s'.handlers[s'.waiting[k]].displaced
    {
      if k in s.waiting {
        var h := s.waiting[k];
        assert HandlerSound(s, h);
        assert !First(s, h);
        assert s'.waiting[k] == h;
      }
    }
  }

  lemma PairsStep(s: State, a: Action)
    requires Inv(s) && Enabled(s, a)
    ensures PairsSound(Apply(s, a))
  {
    if a.Arrive? && a.session in s.waiting {
      NewPairStep(s, a);
    } else {
      Grows(s, a);
    }
  }

  lemma NewPairStep(s: State, a: Action)
    requires Inv(s) && Enabled(s, a) && a.Arrive? && a.session in s.waiting
    ensures PairsSound(Apply(s, a))
  {
    var w := s.waiting[a.session];
    Grows(s, a);
    assert forall i :: 0 <= i < |s.pairs| ==> s.pairs[i] in s.pairs && s.pairs[i].0 != w && s.pairs[i].1 != w;
  }

  lemma ThriceKept(s: State, a: Action, k: nat)
    requires Enabled(s, a) && Thrice(s, k)
    ensures Thrice(Apply(s, a), k)
  {
    Grows(s, a);
    var i, j, l :| 0 <= i < j < l < |s.handlers| && s.handlers[i].session == s.handlers[j].session == s.handlers[l].session == k;
    var s' := Apply(s, a);
    assert s'.handlers[i].session == s'.handlers[j].session == s'.handlers[l].session == k;
  }

  /** The cleanup that displaces a waiter is that of a stream already paired with a third
      one, or itself displaced. */
  lemma DisplacedByThird(s: State, h: nat)
    requires Inv(s) && Enabled(s, CleanUp(h)) && s.handlers[h].session in s.waiting && !InTable(s, h)
    ensures First(s, h) || s.handlers[h].displaced
    ensures Thrice(s, s.handlers[h].session)
  {
    assert HandlerSound(s, h);
    var k := s.handlers[h].session;
    if !s.handlers[h].displaced {
      var p :| p in s.pairs && p.0 == h;
      var w := s.waiting[k];
      var i :| 0 <= i < |s.pairs| && s.pairs[i] == p;
      assert !Paired(s, w);
      assert s.handlers[h].session == s.handlers[p.1].session == s.handlers[w].session == k;
      if w < h {
        assert 0 <= w < h < p.1;
      } else if w < p.1 {
        assert 0 <= h < w < p.1;
      } else {
        assert 0 <= h < p.1 < w;
      }
    }
  }

  lemma HandlerStep(s: State, a: Action, h: nat)
    requires Inv(s) && Enabled(s, a) && h < |Apply(s, a).handlers|
    ensures HandlerSound(Apply(s, a), h)
  {
    Grows(s, a);
    if h < |s.handlers| {
      assert HandlerSound(s, h);
      match a
      case Arrive(_) => ArriveKeeps(s, a, h);
      case CloseReady(_) => CloseKeeps(s, a, h);
      case CleanUp(_) => CleanUpKeeps(s, a, h);
      case _ => OthersKeep(s, a, h);
    } else {
      Arrives(s, a);
    }
  }

  lemma OthersKeep(s: State, a: Action, h: nat)
    requires Enabled(s, a) && (a.StreamDies? || a.SeeDeath? || a.SeeReady?) && h < |s.handlers| && HandlerSound(s, h)
    ensures HandlerSound(Apply(s, a), h)
  {
    if s.handlers[h].displaced { ThriceKept(s, a, s.handlers[h].session); }
  }

  lemma Arrives(s: State, a: Action)
    requires Inv(s) && a.Arrive?
    ensures HandlerSound(Apply(s, a), |s.handlers|)
  {
    var s', h := Apply(s, a), |s.handlers|;
    assert !Second(s, h) && !First(s, h) by {
      assert forall p :: p in s.pairs ==> exists i :: 0 <= i < |s.pairs| && s.pairs[i] == p;
    }
    if a.session in s.waiting {
      var w := s.waiting[a.session];
      assert (w, h) in s'.pairs;
      assert HandlerSound(s, w) && !First(s, w);
    }
  }

  lemma ArriveKeeps(s: State, a: Action, h: nat)
    requires Inv(s) && a.Arrive? && h < |s.handlers|
    ensures HandlerSound(Apply(s, a), h)
  {
    var s' := Apply(s, a);
    var x := s.handlers[h];
    assert HandlerSound(s, h) && s'.handlers[h] == x;
    if x.displaced { ThriceKept(s, a, x.session); }
    if a.session in s.waiting {
      var w := s.waiting[a.session];
      assert s'.pairs == s.pairs + [(w, |s.handlers|)];
      assert (w, |s.handlers|) in s'.pairs;
      assert InTable(s, h) && x.session == a.session ==> h == w;
      assert InTable(s, h) && x.session != a.session ==> InTable(s', h);
      assert forall p :: p in s.pairs ==> p in s'.pairs;
      assert First(s, h) ==> First(s', h);
    } else {
      assert InTable(s, h) ==> InTable(s', h);
    }
  }

  lemma CloseKeeps(s: State, a: Action, h: nat)
    requires Inv(s) && a.CloseReady? && Enabled(s, a) && h < |s.handlers|
    ensures HandlerSound(Apply(s, a), h)
  {
    var s' := Apply(s, a);
    var w := s.handlers[a.handler].phase.first;
    assert HandlerSound(s, h) && HandlerSound(s, a.handler) && HandlerSound(s, w);
    if s.handlers[h].displaced { ThriceKept(s, a, s.handlers[h].session); }
    var p := (w, a.handler);
    assert p in s.pairs;
    assert w != a.handler by { assert PairsSound(s); }
    if s.handlers[h].phase.Pairing? && h != a.handler {
      PairsDisjoint(s, p, (s.handlers[h].phase.first, h));
    }
  }

  lemma PairsDisjoint(s: State, p: (nat, nat), q: (nat, nat))
    requires PairsSound(s) && p in s.pairs && q in s.pairs && p != q
    ensures p.0 != q.0 && p.0 != q.1 && p.1 != q.0 && p.1 != q.1
  {
    var i :| 0 <= i < |s.pairs| && s.pairs[i] == p;
    var j :| 0 <= j < |s.pairs| && s.pairs[j] == q;
    assert i < j || j < i;
  }

  /** The second stream of a pair has closed the channel of the first one, or is about to. */
  predicate ReadyOf(s: State, p: (nat, nat)) {
    && p.0 < |s.handlers| && p.1 < |s.handlers|
    && (s.handlers[p.1].phase == Pairing(p.0) || s.handlers[p.1].phase == Gone)
    && (s.handlers[p.0].closes == 0 <==> s.handlers[p.1].phase == Pairing(p.0))
  }

  lemma ReadyStep(s: State, a: Action, p: (nat, nat))
    requires Inv(s) && Enabled(s, a) && p in s.pairs && ReadyOf(s, p)
    ensures p in Apply(s, a).pairs && ReadyOf(Apply(s, a), p)
  {
    Grows(s, a);
    if a.CloseReady? {
      assert HandlerSound(s, a.handler);
      var q := (s.handlers[a.handler].phase.first, a.handler);
      if q != p {
        PairsDisjoint(s, p, q);
      }
    }
  }

  lemma NewReady(s: State, a: Action, p: (nat, nat))
    requires Inv(s) && Enabled(s, a) && p in Apply(s, a).pairs && p !in s.pairs
    ensures ReadyOf(Apply(s, a), p)
  {
    Grows(s, a);
    assert HandlerSound(s, s.waiting[a.session]);
  }

  lemma {:induction false} RunsKeepReady(acts: seq<Action>, p: (nat, nat))
    requires Run(acts).Some? && p in Run(acts).value.pairs
    ensures ReadyOf(Run(acts).value, p)
  {
    var before, a := acts[..|acts| - 1], acts[|acts| - 1];
    RunsKeepInv(before);
    if p in Run(before).value.pairs {
      RunsKeepReady(before, p);
      ReadyStep(Run(before).value, a, p);
    } else {
      NewReady(Run(before).value, a, p);
    }
  }

  /** What a cleanup leaves alone, and whom it displaces. */
  lemma CleanUpFrame(s: State, g: nat, h: nat)
    requires Inv(s) && Enabled(s, CleanUp(g)) && h < |s.handlers|
    ensures var s' := Apply(s, CleanUp(g)); var x, x' := s.handlers[h], s'.handlers[h];
      && s'.pairs == s.pairs && |s'.handlers| == |s.handlers|
      && x'.session == x.session && x'.closes == x.closes && (Blocked(s', h) ==> Blocked(s, h) && h != g)
      && (x'.phase.Pairing? ==> x' == x)
      && (InTable(s, h) && h != g ==> if x.session == s.handlers[g].session then x'.displaced else InTable(s', h))
      && (x'.displaced ==> x.displaced || (x.session == s.handlers[g].session && x.session in s.waiting && !InTable(s, g)))
  {
    assert HandlerSound(s, h);
  }

  lemma CleanUpKeeps(s: State, a: Action, h: nat)
    requires Inv(s) && a.CleanUp? && Enabled(s, a) && h < |s.handlers|
    ensures HandlerSound(Apply(s, a), h)
  {
    var x' := Apply(s, a).handlers[h];
    assert HandlerSound(s, h);
    CleanUpFrame(s, a.handler, h);
    if x'.displaced {
      if !s.handlers[h].displaced { DisplacedByThird(s, a.handler); }
      ThriceKept(s, a, x'.session);
    }
    if x'.phase.Pairing? {
      CleanUpFrame(s, a.handler, x'.phase.first);
    }
  }

  lemma InvStep(s: State, a: Action)
    requires Inv(s) && Enabled(s, a)
    ensures Inv(Apply(s, a))
  {
    TableStep(s, a);
    PairsStep(s, a);
    forall h | 0 <= h < |Apply(s, a).handlers| ensures HandlerSound(Apply(s, a), h) {
      HandlerStep(s, a, h);
    }
  }

  lemma {:induction false} RunsKeepInv(acts: seq<Action>)
    requires Run(acts).Some?
    ensures Inv(Run(acts).value)
  {
    if acts != [] {
      RunsKeepInv(acts[..|acts| - 1]);
      InvStep(Run(acts[..|acts| - 1]).value, acts[|acts| - 1]);
    }
  }

  // ------------------------------------------------------------------ all runs

  /** Some interleaving leads to this state. */
  ghost predicate Reachable(s: State) {
    exists acts :: Run(acts) == Some(s)
  }

  lemma ReachableKeepsInv(s: State)
    requires Reachable(s)
    ensures Inv(s)
  {
    var acts :| Run(acts) == Some(s);
    RunsKeepInv(acts);
  }

  /** Over all interleavings of arrivals, stream deaths and late cleanups: the two streams
      of a pair carry the same session, and no stream is in two pairs. */
  lemma PairsMatch(s: State)
    requires Reachable(s)
    ensures
      && (forall p :: p in s.pairs ==>
            p.0 < p.1 < |s.handlers| && s.handlers[p.0].session == s.handlers[p.1].session)
      && (forall i, j :: 0 <= i < j < |s.pairs| ==>
            {s.pairs[i].0, s.pairs[i].1} !! {s.pairs[j].0, s.pairs[j].1})
  {
    ReachableKeepsInv(s);
  }

  /** A `ready` channel is closed at most once, and that iff its stream has been paired with
      one whose handler is through. */
  lemma ReadyClosedOnce(s: State, h: nat)
    requires Reachable(s) && h < |s.handlers|
    ensures s.handlers[h].closes <= 1
    ensures s.handlers[h].closes == 1 <==> exists g: nat :: (h, g) in s.pairs && g < |s.handlers| && s.handlers[g].phase == Gone
  {
    ReachableKeepsInv(s);
    assert HandlerSound(s, h);
    var acts :| Run(acts) == Some(s);
    forall g: nat | (h, g) in s.pairs ensures ReadyOf(s, (h, g)) {
      RunsKeepReady(acts, (h, g));
    }
    if First(s, h) {
      var p :| p in s.pairs && p.0 == h;
      assert (h, p.1) in s.pairs;
    }
  }

  lemma One(s: State, a: Action)
    requires Enabled(s, a)
    ensures Continue(s, [a]) == Some(Apply(s, a))
  {
    assert [a][..0] == [];
  }

  lemma Then(s: State, acts: seq<Action>, t: State, a: Action)
    requires Continue(s, acts) == Some(t) && Enabled(t, a)
    ensures Continue(s, acts + [a]) == Some(Apply(t, a))
  {
    assert (acts + [a])[..|acts|] == acts;
  }

  lemma DiesAndLeaves(s: State, h: nat) returns (acts: seq<Action>)
    requires h < |s.handlers| && s.handlers[h].phase == Waiting
    ensures Continue(s, acts).Some?
    ensures h < |Continue(s, acts).value.handlers| && Continue(s, acts).value.handlers[h].phase == Gone
  {
    var s1 := Apply(s, StreamDies(h));
    var s2 := Apply(s1, SeeDeath(h));
    One(s, StreamDies(h));
    Then(s, [StreamDies(h)], s1, SeeDeath(h));
    Then(s, [StreamDies(h)] + [SeeDeath(h)], s2, CleanUp(h));
    acts := [StreamDies(h)] + [SeeDeath(h)] + [CleanUp(h)];
  }

  /** No handler is stuck: from every reachable state each one can come to its end, and one
      that was paired can do so without the death of any stream. */
  lemma EveryHandlerCanEnd(s: State, h: nat) returns (acts: seq<Action>)
    requires Reachable(s) && h < |s.handlers|
    ensures Continue(s, acts).Some?
    ensures h < |Continue(s, acts).value.handlers| && Continue(s, acts).value.handlers[h].phase == Gone
    ensures Paired(s, h) ==> forall k :: 0 <= k < |acts| ==> !acts[k].StreamDies?
  {
    ReachableKeepsInv(s);
    assert HandlerSound(s, h);
    match s.handlers[h].phase {
      case Gone =>
        acts := [];
      case Leaving =>
        One(s, CleanUp(h));
        acts := [CleanUp(h)];
      case Pairing(_) =>
        One(s, CloseReady(h));
        acts := [CloseReady(h)];
      case Waiting =>
        if First(s, h) {
          acts := SeesReady(s, h);
        } else {
          acts := DiesAndLeaves(s, h);
        }
    }
  }

  lemma SeesReady(s: State, h: nat) returns (acts: seq<Action>)
    requires Reachable(s) && h < |s.handlers| && s.handlers[h].phase == Waiting && First(s, h)
    ensures Continue(s, acts).Some?
    ensures h < |Continue(s, acts).value.handlers| && Continue(s, acts).value.handlers[h].phase == Gone
    ensures forall k :: 0 <= k < |acts| ==> !acts[k].StreamDies?
  {
    var p :| p in s.pairs && p.0 == h;
    var past :| Run(past) == Some(s);
    RunsKeepReady(past, p);
    if s.handlers[h].closes > 0 {
      One(s, SeeReady(h));
      acts := [SeeReady(h)];
    } else {
      var s1 := Apply(s, CloseReady(p.1));
      One(s, CloseReady(p.1));
      Then(s, [CloseReady(p.1)], s1, SeeReady(h));
      acts := [CloseReady(p.1)] + [SeeReady(h)];
    }
  }

  /** A cleanup takes another waiter out of the table exactly when its own handler is not
      in the table any more, because it was paired or displaced, while somebody waits. */
  lemma CleanUpDisplacesExactlyWhen(s: State, h: nat)
    requires Reachable(s) && Enabled(s, CleanUp(h))
    ensures var k := s.handlers[h].session;
      (exists w: nat :: w != h && InTable(s, w) && !InTable(Apply(s, CleanUp(h)), w))
      <==> k in s.waiting && (First(s, h) || s.handlers[h].displaced)
  {
    ReachableKeepsInv(s);
    var k, s' := s.handlers[h].session, Apply(s, CleanUp(h));
    if k in s.waiting {
      var w := s.waiting[k];
      if w != h {
        DisplacedByThird(s, h);
        assert InTable(s, w) && !InTable(s', w);
      }
    }
  }

  /** When a session is presented at most twice, which is what the server issues it for,
      every waiter is in the table, paired, or its stream died, and no cleanup touches
      another one's entry. */
  lemma TwoArrivalsAreSafe(s: State, h: nat)
    requires Reachable(s) && h < |s.handlers|
    requires !Thrice(s, s.handlers[h].session)
    ensures var x := s.handlers[h];
      && !x.displaced
      && (Blocked(s, h) ==> InTable(s, h) || First(s, h))
      && (Enabled(s, CleanUp(h)) && x.session in s.waiting ==> s.waiting[x.session] == h)
  {
    ReachableKeepsInv(s);
    assert HandlerSound(s, h);
    if Enabled(s, CleanUp(h)) && s.handlers[h].session in s.waiting && !InTable(s, h) {
      DisplacedByThird(s, h);
    }
  }

  lemma Step(s: State, a: Action, t: State)
    requires Reachable(s) && Enabled(s, a) && t == Apply(s, a)
    ensures Reachable(t)
  {
    var acts :| Run(acts) == Some(s);
    assert (acts + [a])[..|acts + [a]| - 1] == acts;
    assert Run(acts + [a]) == Some(t);
  }

  /** Without that bound it fails, for every session: a third stream that waits is taken out
      of the table by the late cleanup of the first one, and waits forever. */
  lemma ThirdArrivalIsLost(k: nat) returns (s: State)
    ensures Reachable(s)
    ensures |s.handlers| == 3 && s.handlers[2] == Handler(k, Waiting, true, 0, true)
    ensures k !in s.waiting && !Paired(s, 2) && Lost(s, 2)
  {
    var w, p := Handler(k, Waiting, true, 0, false), Handler(k, Pairing(0), true, 0, false);
    var dead := w.(alive := false);
    var s1, s2 := State([w], map[k := 0], []), State([w, p], map[], [(0, 1)]);
    var s3 := s2.(handlers := [dead, p]);
    var s4 := s2.(handlers := [dead.(phase := Leaving), p]);
    var s5 := State([dead.(phase := Leaving), p, w], map[k := 2], [(0, 1)]);
    s := State([dead.(phase := Gone), p, w.(displaced := true)], map[], [(0, 1)]);
    assert Reachable(INIT) by { assert Run([]) == Some(INIT); }
    assert Reachable(s1) by { Step(INIT, Arrive(k), s1); }
    assert Reachable(s2) by { Step(s1, Arrive(k), s2); }
    assert Reachable(s3) by { Step(s2, StreamDies(0), s3); }
    assert Reachable(s4) by { Step(s3, SeeDeath(0), s4); }
    assert Reachable(s5) by { Step(s4, Arrive(k), s5); }
    assert Reachable(s) by { Step(s5, CleanUp(0), s); }
  }

  /** Neither in the table nor paired. */
  ghost predicate Lost(s: State, h: nat) {
    h < |s.handlers| && s.handlers[h].phase == Waiting && s.handlers[h].alive && !InTable(s, h) && !Paired(s, h)
  }

  lemma LostStep(s: State, a: Action, h: nat)
    requires Inv(s) && Enabled(s, a) && Lost(s, h) && a != StreamDies(h)
    ensures Lost(Apply(s, a), h)
  {
    assert HandlerSound(s, h);
    Grows(s, a);
    if a.Arrive? && a.session in s.waiting {
      var p := (s.waiting[a.session], |s.handlers|);
      assert Apply(s, a).pairs == s.pairs + [p];
    }
    if a.CloseReady? {
      assert HandlerSound(s, a.handler);
    }
  }

  /** Such a stream waits in every continuation, until it dies. */
  lemma {:induction false} LostForGood(s: State, acts: seq<Action>, h: nat)
    requires Inv(s) && Lost(s, h) && Continue(s, acts).Some? && StreamDies(h) !in acts
    ensures Inv(Continue(s, acts).value) && Lost(Continue(s, acts).value, h)
  {
    if acts != [] {
      var before, a := acts[..|acts| - 1], acts[|acts| - 1];
      LostForGood(s, before, h);
      InvStep(Continue(s, before).value, a);
      LostStep(Continue(s, before).value, a, h);
    }
  }

  // ------------------------------------------------------------------ with the setups

  /** The streams that arrive here are streams that the agents of a run of setups presented,
      in any order and not necessarily all of them; `from` tells which. */
  ghost predicate ArrivesFrom(s: State, t: RegistarSetup.State, from: seq<nat>) {
    && |from| == |s.handlers|
    && (forall h :: 0 <= h < |from| ==> from[h] < |t.arrivals| && s.handlers[h].session == t.arrivals[from[h]].0)
    && (forall g, h :: 0 <= g < h < |from| ==> from[g] != from[h])
  }

  /** Setups and rendezvous together: whatever is relayed joins the host and the peer of the
      one setup that drew the session, and no waiter is ever displaced. */
  lemma RelayJoinsHostAndPeer(s: State, t: RegistarSetup.State, from: seq<nat>)
    requires Reachable(s) && RegistarSetup.Reachable(t) && ArrivesFrom(s, t, from)
    ensures forall h :: 0 <= h < |s.handlers| ==> !s.handlers[h].displaced
    ensures forall p :: p in s.pairs ==> p.0 < |from| && p.1 < |from| && OneSetup(t, from[p.0], from[p.1])
  {
    PairsMatch(s);
    forall h | 0 <= h < |s.handlers| ensures !s.handlers[h].displaced {
      RegistarSetup.SessionPresentedTwice(t, s.handlers[h].session);
      TwoArrivalsAreSafe(s, h);
    }
    forall p | p in s.pairs ensures p.0 < |from| && p.1 < |from| && OneSetup(t, from[p.0], from[p.1]) {
      RegistarSetup.SessionPresentedTwice(t, t.arrivals[from[p.0]].0);
      RegistarSetup.NobodyPresentsTwice(t, from[p.0], from[p.1]);
      RegistarSetup.SetupHasRightEnds(t, t.sessions[t.arrivals[from[p.0]].0]);
    }
  }

  /** Two arrivals are those of the host and the peer of one setup, with its session, and the
      host is the one of the key that the peer asked for. */
  ghost predicate OneSetup(t: RegistarSetup.State, i: nat, j: nat) {
    && i < |t.arrivals| && j < |t.arrivals| && t.arrivals[i].0 == t.arrivals[j].0 < |t.sessions|
    && var c := t.sessions[t.arrivals[i].0];
       c < |t.setups| && {t.arrivals[i].1, t.arrivals[j].1} == {t.setups[c].host, t.setups[c].peer}
       && RegistarSetup.RightEnds(t, t.setups[c])
  }
}
