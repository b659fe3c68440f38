/** The order in which the relay passes packets on (internal/relay/relay.go): the inbox is a
    channel, so packets leave it as they were read; with one worker they are sent in that
    order too, and with more workers they need not be. */
module UDPRelayOrder {
  import opened Wrappers
  import opened UDPRelay

  /** The packet was read before everything that waits: in the inbox, at the reader, or still
      to come. */
  predicate BeforeWaiting(s: State, id: nat) {
    && id < s.arrivals && (s.reader.Offering? ==> id < s.reader.pkt.id)
    && forall i :: 0 <= i < |s.inbox| ==> id < s.inbox[i].id
  }

  predicate Increasing(ps: seq<Packet>) {
    forall i, j :: 0 <= i < j < |ps| ==> ps[i].id < ps[j].id
  }

  predicate InboxInOrder(s: State) {
    && Increasing(s.inbox)
    && (s.reader.Offering? ==> s.reader.pkt.id < s.arrivals)
    && forall i :: 0 <= i < |s.inbox| ==> s.inbox[i].id < s.arrivals && (s.reader.Offering? ==> s.inbox[i].id < s.reader.pkt.id)
  }

  predicate HeldBefore(s: State, w: nat)
    requires w < |s.workers|
  {
    s.workers[w].Holding? || s.workers[w].Sending? ==> BeforeWaiting(s, s.workers[w].pkt.id)
  }

  predicate OldestFirst(s: State) {
    && InboxInOrder(s)
    && (forall w :: 0 <= w < |s.workers| ==> HeldBefore(s, w))
    && (forall k :: 0 <= k < |s.sends| ==> BeforeWaiting(s, s.sends[k].pkt.id))
  }

  lemma InboxStep(s: State, a: Action)
    requires InboxInOrder(s) && Enabled(s, a)
    ensures InboxInOrder(Apply(s, a))
  {
    if IsWorkerStep(a) {
      WorkerFrame(s, a);
    }
  }

  lemma BeforeStep(s: State, a: Action, id: nat)
    requires BeforeWaiting(s, id) && Enabled(s, a)
    ensures BeforeWaiting(Apply(s, a), id)
  {
  }

  /** What a worker takes is older than what stays. */
  lemma HeldStep(s: State, a: Action, w: nat)
    requires InboxInOrder(s) && Enabled(s, a) && w < |s.workers| && HeldBefore(s, w)
    ensures w < |Apply(s, a).workers| && HeldBefore(Apply(s, a), w)
  {
    if IsWorkerStep(a) && a.worker == w {
      TakerStep(s, a);
    } else {
      if IsWorkerStep(a) {
        WorkerFrame(s, a);
      }
      assert Apply(s, a).workers[w] == s.workers[w];
      if s.workers[w].Holding? || s.workers[w].Sending? {
        BeforeStep(s, a, s.workers[w].pkt.id);
      }
    }
  }

  lemma TakerStep(s: State, a: Action)
    requires InboxInOrder(s) && Enabled(s, a) && IsWorkerStep(a) && HeldBefore(s, a.worker)
    ensures HeldBefore(Apply(s, a), a.worker)
  {
  }

  lemma SendsStep(s: State, a: Action, k: nat)
    requires OldestFirst(s) && Enabled(s, a) && k < |Apply(s, a).sends|
    ensures BeforeWaiting(Apply(s, a), Apply(s, a).sends[k].pkt.id)
  {
    SendStep(s, a, k);
    if k >= |s.sends| {
      assert HeldBefore(s, a.worker);
    }
    BeforeStep(s, a, Apply(s, a).sends[k].pkt.id);
  }

  lemma OldestFirstStep(s: State, a: Action)
    requires OldestFirst(s) && Enabled(s, a)
    ensures OldestFirst(Apply(s, a)) && |Apply(s, a).workers| == |s.workers|
  {
    InboxStep(s, a);
    SameWorkers(s, a);
    forall w | 0 <= w < |s.workers| ensures HeldBefore(Apply(s, a), w) {
      HeldStep(s, a, w);
    }
    forall k | 0 <= k < |Apply(s, a).sends| ensures BeforeWaiting(Apply(s, a), Apply(s, a).sends[k].pkt.id) {
      SendsStep(s, a, k);
    }
  }

  lemma SameWorkers(s: State, a: Action)
    requires Enabled(s, a)
    ensures |Apply(s, a).workers| == |s.workers|
  {
    if IsWorkerStep(a) {
      WorkerFrame(s, a);
    }
  }

  /** On every run the inbox is in the order of reading, and whatever was sent or is held by
      a worker was read before everything that waits: a packet leaves the inbox only as the
      oldest one. */
  lemma {:induction false} RunsKeepOldestFirst(workers: nat, routes: map<Addr, Addr>, acts: seq<Action>)
    requires Run(workers, routes, acts).Some?
    ensures OldestFirst(Run(workers, routes, acts).value) && |Run(workers, routes, acts).value.workers| == workers
  {
    if acts != [] {
      RunsKeepOldestFirst(workers, routes, acts[..|acts| - 1]);
      OldestFirstStep(Run(workers, routes, acts[..|acts| - 1]).value, acts[|acts| - 1]);
    }
  }

  // ------------------------------------------------------------------ the order of sending

  predicate SentInOrder(s: State) {
    forall j, k :: 0 <= j < k < |s.sends| ==> s.sends[j].pkt.id < s.sends[k].pkt.id
  }

  /** The packet in the worker's hand was read after all that were sent. */
  predicate HandIsNewest(s: State) {
    forall w, k :: 0 <= w < |s.workers| && 0 <= k < |s.sends| && (s.workers[w].Holding? || s.workers[w].Sending?) ==>
      s.sends[k].pkt.id < s.workers[w].pkt.id
  }

  lemma SentStep(s: State, a: Action)
    requires SentInOrder(s) && HandIsNewest(s) && Enabled(s, a)
    ensures SentInOrder(Apply(s, a))
  {
    var s' := Apply(s, a);
    forall j, k | 0 <= j < k < |s'.sends| ensures s'.sends[j].pkt.id < s'.sends[k].pkt.id {
      SendsGrow(s, a);
      SendStep(s, a, j);
      SendStep(s, a, k);
    }
  }

  lemma SendsGrow(s: State, a: Action)
    requires Enabled(s, a)
    ensures |Apply(s, a).sends| == |s.sends| + if a.Sent? then 1 else 0
  {
  }

  /** What the only worker holds after a step: nothing it has sent, and nothing older. */
  lemma HandStep(s: State, a: Action, k: nat)
    requires OldestFirst(s) && HandIsNewest(s) && Enabled(s, a) && k < |Apply(s, a).sends|
    requires |s.workers| == 1 && Apply(s, a).workers[0].Hand() != []
    ensures Apply(s, a).sends[k].pkt.id < Apply(s, a).workers[0].pkt.id
  {
    if IsWorkerStep(a) {
      WorkerFrame(s, a);
    }
    SendStep(s, a, k);
    SendsGrow(s, a);
    assert BeforeWaiting(s, s.sends[k].pkt.id);
  }

  lemma OneWorkerStep(s: State, a: Action)
    requires OldestFirst(s) && |s.workers| <= 1 && SentInOrder(s) && HandIsNewest(s) && Enabled(s, a)
    ensures SentInOrder(Apply(s, a)) && HandIsNewest(Apply(s, a))
  {
    var s' := Apply(s, a);
    SameWorkers(s, a);
    SentStep(s, a);
    forall w, k | 0 <= w < |s'.workers| && 0 <= k < |s'.sends| && (s'.workers[w].Holding? || s'.workers[w].Sending?)
      ensures s'.sends[k].pkt.id < s'.workers[w].pkt.id
    {
      HandStep(s, a, k);
    }
  }

  /** With one worker the packets are sent in the order in which they were read. */
  lemma {:induction false} OneWorkerKeepsOrder(workers: nat, routes: map<Addr, Addr>, acts: seq<Action>)
    requires workers <= 1 && Run(workers, routes, acts).Some?
    ensures SentInOrder(Run(workers, routes, acts).value) && HandIsNewest(Run(workers, routes, acts).value)
  {
    if acts != [] {
      OneWorkerKeepsOrder(workers, routes, acts[..|acts| - 1]);
      RunsKeepOldestFirst(workers, routes, acts[..|acts| - 1]);
      OneWorkerStep(Run(workers, routes, acts[..|acts| - 1]).value, acts[|acts| - 1]);
    }
  }

  // ------------------------------------------------------------------ two workers

  ghost predicate RunsTo(workers: nat, routes: map<Addr, Addr>, s: State) {
    exists acts :: Run(workers, routes, acts) == Some(s)
  }

  lemma Step(workers: nat, routes: map<Addr, Addr>, s: State, a: Action)
    requires RunsTo(workers, routes, s) && Enabled(s, a)
    ensures RunsTo(workers, routes, Apply(s, a))
  {
    var acts :| Run(workers, routes, acts) == Some(s);
    LastStep(Init(workers, routes), acts, a);
    assert Run(workers, routes, acts + [a]) == Some(Apply(s, a));
  }

  /** The reader puts one more packet into the inbox. */
  lemma Enters(workers: nat, routes: map<Addr, Addr>, s: State, x: Addr) returns (t: State)
    requires RunsTo(workers, routes, s) && s.reader == Fetching && |s.inbox| < |s.workers|
    ensures RunsTo(workers, routes, t) && t.reader == Fetching && t.arrivals == s.arrivals + 1
    ensures t.routes == s.routes && t.workers == s.workers && t.sends == s.sends
    ensures |t.inbox| == |s.inbox| + 1 && t.inbox[..|s.inbox|] == s.inbox
    ensures t.inbox[|s.inbox|].id == s.arrivals && t.inbox[|s.inbox|].addr == x
  {
    Step(workers, routes, s, GetBuffer(None));
    var s1 := Apply(s, GetBuffer(None));
    Step(workers, routes, s1, ReadPacket(1, x));
    var s2 := Apply(s1, ReadPacket(1, x));
    Step(workers, routes, s2, Offer);
    t := Apply(s2, Offer);
  }

  /** A worker takes the oldest packet and looks up its route. */
  lemma Takes(workers: nat, routes: map<Addr, Addr>, s: State, w: nat) returns (t: State)
    requires RunsTo(workers, routes, s) && w < |s.workers| && s.workers[w] == Idle(false)
    requires s.inbox != [] && s.inbox[0].addr in s.routes
    ensures RunsTo(workers, routes, t) && t.routes == s.routes && t.inbox == s.inbox[1..] && t.sends == s.sends
    ensures t.workers == s.workers[w := Sending(s.inbox[0], s.routes[s.inbox[0].addr], false)]
  {
    Step(workers, routes, s, Take(w));
    var s1 := Apply(s, Take(w));
    Step(workers, routes, s1, HasRoute(w));
    t := Apply(s1, HasRoute(w));
  }

  lemma Sends(workers: nat, routes: map<Addr, Addr>, s: State, w: nat) returns (t: State)
    requires RunsTo(workers, routes, s) && w < |s.workers| && s.workers[w].Sending?
    ensures RunsTo(workers, routes, t) && t.sends == s.sends + [Send(s.workers[w].pkt, s.workers[w].dst)]
    ensures |t.workers| == |s.workers| && forall v :: 0 <= v < |s.workers| && v != w ==> t.workers[v] == s.workers[v]
  {
    Step(workers, routes, s, Sent(w));
    t := Apply(s, Sent(w));
  }

  /** A run in which two packets overtake each other: the one read second is sent first. */
  lemma Overtaking(workers: nat, x: Addr, y: Addr) returns (t: State)
    requires workers >= 2
    ensures RunsTo(workers, map[x := y], t)
    ensures |t.sends| == 2 && t.sends[0].pkt.id == 1 && t.sends[1].pkt.id == 0
  {
    var routes := map[x := y];
    var s := Init(workers, routes);
    assert Run(workers, routes, []) == Some(s);
    t := Enters(workers, routes, s, x);
    t := Enters(workers, routes, t, x);
    t := Takes(workers, routes, t, 0);
    t := Takes(workers, routes, t, 1);
    t := Sends(workers, routes, t, 1);
    t := Sends(workers, routes, t, 0);
  }

  /** The relay keeps the order of packets on every run exactly if it has one worker at most. */
  lemma KeepsOrderExactlyWhen(workers: nat)
    ensures (forall routes, s :: RunsTo(workers, routes, s) ==> SentInOrder(s)) <==> workers <= 1
  {
    if workers <= 1 {
      forall routes, s | RunsTo(workers, routes, s) ensures SentInOrder(s) {
        var acts :| Run(workers, routes, acts) == Some(s);
        OneWorkerKeepsOrder(workers, routes, acts);
      }
    } else {
      var t := Overtaking(workers, "x", "y");
      assert RunsTo(workers, map["x" := "y"], t) && !SentInOrder(t);
    }
  }
}
