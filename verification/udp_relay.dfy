/** The packet relay (internal/relay/relay.go): one reader, a bounded inbox, N workers, a
    pool of buffers, and a shutdown that drains the inbox.

    An action is one step of the reader, of one worker, of a caller that changes routes or
    closes the relay, or of the runtime, which may drop idle buffers from the pool. */
module UDPRelay {
  import opened Wrappers

  type Addr = string

  /** `id` numbers the packets in the order in which they were read. */
  datatype Packet = Packet(id: nat, size: nat, buf: nat, addr: Addr)

  datatype Reader =
    | Fetching                      // about to take a buffer from the pool
    | Reading(buf: nat)
    | Offering(pkt: Packet)         // counted, waiting for room in the inbox
    | ReaderGone(failed: bool)

  /** `draining` workers have seen `done` and range over the inbox. */
  datatype Worker =
    | Idle(draining: bool)
    | Holding(pkt: Packet, draining: bool)
    | Sending(pkt: Packet, dst: Addr, draining: bool)
    | WorkerGone(failed: bool)
  {
    function Hand(): seq<Packet> {
      if Holding? || Sending? then [pkt] else []
    }
  }

  /** A packet that was written to `dst`. */
  datatype Send = Send(pkt: Packet, dst: Addr)

  datatype State = State(
    reader: Reader,
    inbox: seq<Packet>,
    closed: bool,                   // the reader has closed the inbox
    workers: seq<Worker>,
    done: bool,
    routes: map<Addr, Addr>,
    pool: multiset<nat>,            // idle buffers
    buffers: nat,                   // buffers made so far
    gets: nat, puts: nat,           // calls of bufPool.Get and bufPool.Put
    bytesIn: nat, bytesOut: nat, droppedPackets: nat,
    arrivals: nat,                  // packets read so far
    entered: multiset<nat>,         // packets that went into the inbox
    forwarded: multiset<nat>, dropped: multiset<nat>, failed: multiset<nat>,
    droppedBytes: nat, failedBytes: nat,
    sends: seq<Send>,               // what was written to where, in order
    abandoned: Option<Packet>)      // read, but not offered because of the shutdown

  datatype Action =
    | GetBuffer(idle: Option<nat>)
    | ReadPacket(size: nat, addr: Addr)
    | ReadCancelled
    | ReadFails
    | Offer
    | Abandon
    | SeeDone(worker: nat)
    | Take(worker: nat)
    | InboxEnded(worker: nat)
    | NoRoute(worker: nat)
    | HasRoute(worker: nat)
    | Sent(worker: nat)
    | SendFails(worker: nat)
    | AddRoute(a: Addr, b: Addr)
    | RemoveRoute(a: Addr, b: Addr)
    | RemoveAllRoutes(a: Addr)
    | Close
    | PoolShrinks(buf: nat)

  predicate Enabled(s: State, a: Action) {
    match a
    case GetBuffer(idle) => s.reader == Fetching && (idle.Some? ==> idle.value in s.pool)
    case ReadPacket(_, _) => s.reader.Reading?
    case ReadCancelled => s.reader.Reading? && s.done
    case ReadFails => s.reader.Reading?
    case Offer => s.reader.Offering? && |s.inbox| < |s.workers|
    case Abandon => s.reader.Offering? && s.done
    case SeeDone(w) => w < |s.workers| && s.workers[w] == Idle(false) && s.done
    case Take(w) => w < |s.workers| && s.workers[w].Idle? && s.inbox != []
    case InboxEnded(w) => w < |s.workers| && s.workers[w].Idle? && s.inbox == [] && s.closed
    case NoRoute(w) => w < |s.workers| && s.workers[w].Holding? && s.workers[w].pkt.addr !in s.routes
    case HasRoute(w) => w < |s.workers| && s.workers[w].Holding? && s.workers[w].pkt.addr in s.routes
    case Sent(w) => w < |s.workers| && s.workers[w].Sending?
    case SendFails(w) => w < |s.workers| && s.workers[w].Sending?
    case AddRoute(_, _) => true
    case RemoveRoute(_, _) => true
    case RemoveAllRoutes(_) => true
    case Close => !s.done
    case PoolShrinks(b) => b in s.pool
  }

  function PutBuffer(s: State, buf: nat): State {
    s.(pool := s.pool + multiset{buf}, puts := s.puts + 1)
  }

  function Apply(s: State, a: Action): State
    requires Enabled(s, a)
  {
    match a
    case GetBuffer(idle) =>
      if idle.None? then s.(reader := Reading(s.buffers), buffers := s.buffers + 1, gets := s.gets + 1)
      else s.(reader := Reading(idle.value), pool := s.pool - multiset{idle.value}, gets := s.gets + 1)
    case ReadPacket(size, addr) =>
      s.(reader := Offering(Packet(s.arrivals, size, s.reader.buf, addr)), arrivals := s.arrivals + 1, bytesIn := s.bytesIn + size)
    case ReadCancelled => PutBuffer(s, s.reader.buf).(reader := ReaderGone(false), closed := true)
    case ReadFails => PutBuffer(s, s.reader.buf).(reader := ReaderGone(true), closed := true)
    case Offer =>
      var p := s.reader.pkt;
      s.(reader := Fetching, inbox := s.inbox + [p], entered := s.entered + multiset{p.id})
    case Abandon =>
      var p := s.reader.pkt;
      PutBuffer(s, p.buf).(reader := ReaderGone(false), closed := true, abandoned := Some(p))
    case SeeDone(w) => s.(workers := s.workers[w := Idle(true)])
    case Take(w) =>
      s.(workers := s.workers[w := Holding(s.inbox[0], s.workers[w].draining)], inbox := s.inbox[1..])
    case InboxEnded(w) => s.(workers := s.workers[w := WorkerGone(false)])
    case NoRoute(w) =>
      var p := s.workers[w].pkt;
      PutBuffer(s, p.buf).(workers := s.workers[w := Idle(s.workers[w].draining)],
                           droppedPackets := s.droppedPackets + 1,
                           dropped := s.dropped + multiset{p.id}, droppedBytes := s.droppedBytes + p.size)
    case HasRoute(w) =>
      var p := s.workers[w].pkt;
      s.(workers := s.workers[w := Sending(p, s.routes[p.addr], s.workers[w].draining)])
    case Sent(w) =>
      var p := s.workers[w].pkt;
      PutBuffer(s, p.buf).(workers := s.workers[w := Idle(s.workers[w].draining)],
                           bytesOut := s.bytesOut + p.size, forwarded := s.forwarded + multiset{p.id},
                           sends := s.sends + [Send(p, s.workers[w].dst)])
    case SendFails(w) =>
      var p := s.workers[w].pkt;
      PutBuffer(s, p.buf).(workers := s.workers[w := WorkerGone(true)],
                           failed := s.failed + multiset{p.id}, failedBytes := s.failedBytes + p.size)
    case AddRoute(x, y) => s.(routes := s.routes[x := y][y := x])
    case RemoveRoute(x, y) => s.(routes := s.routes - {x, y})
    case RemoveAllRoutes(x) => s.(routes := s.routes - {x})
    case Close => s.(done := true)
    case PoolShrinks(b) => s.(pool := s.pool - multiset{b})
  }

  function Init(workers: nat, routes: map<Addr, Addr>): State {
    State(Fetching, [], false, seq(workers, _ => Idle(false)), false, routes,
          multiset{}, 0, 0, 0, 0, 0, 0, 0,
          multiset{}, multiset{}, multiset{}, multiset{}, 0, 0, [], None)
  }

  /** The state after some more actions, or None when one of them was not possible. */
  function Continue(s: State, acts: seq<Action>): Option<State> {
    if acts == [] then Some(s)
    else
      var prev := Continue(s, acts[..|acts| - 1]);
      if prev.Some? && Enabled(prev.value, acts[|acts| - 1])
      then Some(Apply(prev.value, acts[|acts| - 1]))
      else None
  }

  function Run(workers: nat, routes: map<Addr, Addr>, acts: seq<Action>): Option<State> {
    Continue(Init(workers, routes), acts)
  }

  // ------------------------------------------------------------------ packets in flight

  function Hands(ws: seq<Worker>): seq<Packet> {
    if ws == [] then [] else ws[0].Hand() + Hands(ws[1..])
  }

  /** What is added up over packets: their bytes, how many there are, how many have a
      given number, how many use a given buffer. */
  datatype Measure = Size | One | HasId(id: nat) | UsesBuffer(buf: nat)

  function Weight(m: Measure, p: Packet): nat {
    match m
    case Size => p.size
    case One => 1
    case HasId(id) => if p.id == id then 1 else 0
    case UsesBuffer(buf) => if p.buf == buf then 1 else 0
  }

  function Sum(m: Measure, ps: seq<Packet>): nat {
    if ps == [] then 0 else Weight(m, ps[0]) + Sum(m, ps[1..])
  }

  lemma {:induction false} SumConcat(m: Measure, ps: seq<Packet>, qs: seq<Packet>)
    ensures Sum(m, ps + qs) == Sum(m, ps) + Sum(m, qs)
  {
    if ps == [] {
      assert ps + qs == qs;
    } else {
      SumConcat(m, ps[1..], qs);
      assert (ps + qs)[1..] == ps[1..] + qs;
    }
  }

  lemma SumOne(m: Measure, p: Packet)
    ensures Sum(m, [p]) == Weight(m, p)
  {
    assert [p][1..] == [];
  }

  /** One worker's hand changes, the others keep theirs. */
  lemma {:induction false} HandChanges(m: Measure, ws: seq<Worker>, w: nat, x: Worker)
    requires w < |ws|
    ensures Sum(m, Hands(ws[w := x])) + Sum(m, ws[w].Hand()) == Sum(m, Hands(ws)) + Sum(m, x.Hand())
  {
    var ws' := ws[w := x];
    SumConcat(m, ws[0].Hand(), Hands(ws[1..]));
    SumConcat(m, ws'[0].Hand(), Hands(ws'[1..]));
    if w == 0 {
      assert ws'[1..] == ws[1..];
    } else {
      HandChanges(m, ws[1..], w - 1, x);
      assert ws'[1..] == ws[1..][w - 1 := x];
    }
  }

  lemma {:induction false} NoHands(ws: seq<Worker>)
    requires forall w :: 0 <= w < |ws| ==> ws[w].Hand() == []
    ensures Hands(ws) == []
  {
    if ws != [] {
      NoHands(ws[1..]);
    }
  }

  /** The packets that entered the inbox and are not finished. */
  function InFlight(s: State, m: Measure): nat {
    Sum(m, s.inbox) + Sum(m, Hands(s.workers))
  }

  predicate IsWorkerStep(a: Action) {
    a.SeeDone? || a.Take? || a.InboxEnded? || a.NoRoute? || a.HasRoute? || a.Sent? || a.SendFails?
  }

  /** The step ends the work on the packet that a worker holds. */
  predicate Finishes(a: Action) {
    a.NoRoute? || a.Sent? || a.SendFails?
  }

  /** What a step of a worker does to its hand and to the inbox. */
  lemma WorkerFrame(s: State, a: Action)
    requires Enabled(s, a) && IsWorkerStep(a)
    ensures var s', w := Apply(s, a), a.worker;
      && s'.workers == s.workers[w := s'.workers[w]]
      && (if a.Take? then s.workers[w].Hand() == [] && s'.workers[w].Hand() == s.inbox[..1] && s'.inbox == s.inbox[1..]
          else s'.inbox == s.inbox)
      && (Finishes(a) ==> s.workers[w].Hand() == [s.workers[w].pkt] && s'.workers[w].Hand() == [])
      && (!Finishes(a) && !a.Take? ==> s'.workers[w].Hand() == s.workers[w].Hand())
  {
  }

  lemma FlightOfWorker(s: State, a: Action, m: Measure)
    requires Enabled(s, a) && IsWorkerStep(a)
    ensures InFlight(Apply(s, a), m) + (if Finishes(a) then Weight(m, s.workers[a.worker].pkt) else 0) == InFlight(s, m)
  {
    WorkerFrame(s, a);
    HandChanges(m, s.workers, a.worker, Apply(s, a).workers[a.worker]);
    if a.Take? {
      SumConcat(m, s.inbox[..1], s.inbox[1..]);
      assert s.inbox == s.inbox[..1] + s.inbox[1..];
    } else if Finishes(a) {
      SumOne(m, s.workers[a.worker].pkt);
    }
  }

  lemma FlightOfOthers(s: State, a: Action, m: Measure)
    requires Enabled(s, a) && !IsWorkerStep(a)
    ensures InFlight(Apply(s, a), m) == InFlight(s, m) + (if a.Offer? then Weight(m, s.reader.pkt) else 0)
  {
    if a.Offer? {
      SumConcat(m, s.inbox, [s.reader.pkt]);
      SumOne(m, s.reader.pkt);
    }
  }

  // ------------------------------------------------------------------ conservation

  /** Every byte read is accounted for. */
  predicate BytesKept(s: State) {
    s.bytesIn == s.bytesOut + s.droppedBytes + s.failedBytes
      + (if s.abandoned.Some? then s.abandoned.value.size else 0)
      + (if s.reader.Offering? then s.reader.pkt.size else 0)
      + InFlight(s, Size)
  }

  /** The packet was read and is not in the inbox yet, or never will be. */
  predicate KeptOut(s: State, id: nat) {
    (s.reader.Offering? && s.reader.pkt.id == id) || (s.abandoned.Some? && s.abandoned.value.id == id)
  }

  /** A packet that entered the inbox is forwarded, dropped, failed or in flight, exactly
      one of them, and none enters twice. */
  predicate PacketKept(s: State, id: nat) {
    && s.entered[id] == s.forwarded[id] + s.dropped[id] + s.failed[id] + InFlight(s, HasId(id))
    && s.entered[id] == (if id < s.arrivals && !KeptOut(s, id) then 1 else 0)
    && (KeptOut(s, id) ==> id < s.arrivals)
  }

  /** How often a buffer is in use. */
  function Uses(s: State, b: nat): nat {
    (if (s.reader.Reading? && s.reader.buf == b) || (s.reader.Offering? && s.reader.pkt.buf == b) then 1 else 0)
    + InFlight(s, UsesBuffer(b))
  }

  /** A buffer is idle or used at one place, and never both. */
  predicate BufferOwned(s: State, b: nat) {
    && s.pool[b] + Uses(s, b) <= 1
    && (b >= s.buffers ==> s.pool[b] + Uses(s, b) == 0)
  }

  /** Every Get has its Put, except for the buffers in use. */
  predicate GetsAndPuts(s: State) {
    s.gets == s.puts + (if s.reader.Reading? || s.reader.Offering? then 1 else 0) + InFlight(s, One)
  }

  /** Workers end quietly only when the reader is gone and the inbox is empty. */
  predicate ShutDown(s: State) {
    && (s.closed <==> s.reader.ReaderGone?)
    && (s.abandoned.Some? ==> s.reader.ReaderGone?)
    && |s.inbox| <= |s.workers|
    && s.droppedPackets == |s.dropped|
    && (forall w :: 0 <= w < |s.workers| && s.workers[w] == WorkerGone(false) ==> s.closed && s.inbox == [])
  }

  ghost predicate Inv(s: State) {
    && BytesKept(s) && GetsAndPuts(s) && ShutDown(s)
    && (forall id: nat :: PacketKept(s, id))
    && (forall b: nat :: BufferOwned(s, b))
  }

  lemma Flight(s: State, a: Action, m: Measure)
    requires Enabled(s, a)
    ensures InFlight(Apply(s, a), m) + (if Finishes(a) then Weight(m, s.workers[a.worker].pkt) else 0)
            == InFlight(s, m) + (if a.Offer? then Weight(m, s.reader.pkt) else 0)
  {
    if IsWorkerStep(a) {
      FlightOfWorker(s, a, m);
    } else {
      FlightOfOthers(s, a, m);
    }
  }

  lemma BytesStep(s: State, a: Action)
    requires BytesKept(s) && ShutDown(s) && Enabled(s, a)
    ensures BytesKept(Apply(s, a))
  {
    Flight(s, a, Size);
  }

  lemma GetsStep(s: State, a: Action)
    requires GetsAndPuts(s) && Enabled(s, a)
    ensures GetsAndPuts(Apply(s, a))
  {
    Flight(s, a, One);
  }

  lemma PacketStep(s: State, a: Action, id: nat)
    requires ShutDown(s) && PacketKept(s, id) && Enabled(s, a)
    ensures PacketKept(Apply(s, a), id)
  {
    Flight(s, a, HasId(id));
    if IsWorkerStep(a) {
      WorkersEnterNothing(s, a);
      WorkerCounts(s, a, id);
    }
  }

  /** What a worker finishes is counted once, as forwarded, dropped or failed. */
  lemma WorkerCounts(s: State, a: Action, id: nat)
    requires Enabled(s, a) && IsWorkerStep(a)
    ensures var s' := Apply(s, a);
      s'.forwarded[id] + s'.dropped[id] + s'.failed[id] == s.forwarded[id] + s.dropped[id] + s.failed[id]
        + if Finishes(a) then Weight(HasId(id), s.workers[a.worker].pkt) else 0
  {
  }

  lemma WorkersEnterNothing(s: State, a: Action)
    requires Enabled(s, a) && IsWorkerStep(a)
    ensures var s' := Apply(s, a);
      s'.entered == s.entered && s'.reader == s.reader && s'.abandoned == s.abandoned && s'.arrivals == s.arrivals
  {
  }

  /** Only the reader takes buffers; whoever puts one back was using it. */
  lemma PoolFrame(s: State, a: Action, b: nat)
    requires Enabled(s, a)
    ensures var s' := Apply(s, a);
      && s'.buffers >= s.buffers
      && (IsWorkerStep(a) ==>
            && s'.reader == s.reader && s'.buffers == s.buffers
            && s'.pool[b] == s.pool[b] + if Finishes(a) then Weight(UsesBuffer(b), s.workers[a.worker].pkt) else 0)
  {
    if Finishes(a) {
      assert Apply(s, a).pool == PutBuffer(s, s.workers[a.worker].pkt.buf).pool;
    } else if IsWorkerStep(a) {
      assert Apply(s, a).pool == s.pool;
    }
  }

  lemma BufferStep(s: State, a: Action, b: nat)
    requires BufferOwned(s, b) && Enabled(s, a)
    requires a.GetBuffer? && a.idle.None? ==> BufferOwned(s, s.buffers)
    ensures BufferOwned(Apply(s, a), b)
  {
    Flight(s, a, UsesBuffer(b));
    PoolFrame(s, a, b);
    if !IsWorkerStep(a) {
      ReaderBuffer(s, a, b);
    }
  }

  lemma ReaderBuffer(s: State, a: Action, b: nat)
    requires BufferOwned(s, b) && Enabled(s, a) && !IsWorkerStep(a)
    requires a.GetBuffer? && a.idle.None? ==> BufferOwned(s, s.buffers)
    requires InFlight(Apply(s, a), UsesBuffer(b)) == InFlight(s, UsesBuffer(b)) + (if a.Offer? then Weight(UsesBuffer(b), s.reader.pkt) else 0)
    ensures BufferOwned(Apply(s, a), b)
  {
    if a.GetBuffer? {
      GetsOwned(s, a, b);
    } else if a.ReadPacket? || a.ReadCancelled? || a.ReadFails? || a.Offer? || a.Abandon? {
      ReaderPuts(s, a, b);
    }
  }

  lemma GetsOwned(s: State, a: Action, b: nat)
    requires BufferOwned(s, b) && Enabled(s, a) && a.GetBuffer?
    requires a.idle.None? ==> BufferOwned(s, s.buffers)
    ensures BufferOwned(Apply(s, a), b)
  {
    assert InFlight(Apply(s, a), UsesBuffer(b)) == InFlight(s, UsesBuffer(b));
  }

  lemma ReaderPuts(s: State, a: Action, b: nat)
    requires BufferOwned(s, b) && Enabled(s, a)
    requires a.ReadPacket? || a.ReadCancelled? || a.ReadFails? || a.Offer? || a.Abandon?
    requires InFlight(Apply(s, a), UsesBuffer(b)) == InFlight(s, UsesBuffer(b)) + (if a.Offer? then Weight(UsesBuffer(b), s.reader.pkt) else 0)
    ensures BufferOwned(Apply(s, a), b)
  {
  }

  lemma ShutDownStep(s: State, a: Action)
    requires ShutDown(s) && Enabled(s, a)
    ensures ShutDown(Apply(s, a))
  {
    if IsWorkerStep(a) {
      WorkerFrame(s, a);
    }
  }

  lemma InvStep(s: State, a: Action)
    requires Inv(s) && Enabled(s, a)
    ensures Inv(Apply(s, a))
  {
    BytesStep(s, a);
    GetsStep(s, a);
    ShutDownStep(s, a);
    forall id: nat ensures PacketKept(Apply(s, a), id) {
      PacketStep(s, a, id);
    }
    forall b: nat ensures BufferOwned(Apply(s, a), b) {
      BufferStep(s, a, b);
    }
  }

  lemma {:induction false} RunsKeepInv(workers: nat, routes: map<Addr, Addr>, acts: seq<Action>)
    requires Run(workers, routes, acts).Some?
    ensures Inv(Run(workers, routes, acts).value) && |Run(workers, routes, acts).value.workers| == workers
  {
    if acts == [] {
      NoHands(Init(workers, routes).workers);
    } else {
      RunsKeepInv(workers, routes, acts[..|acts| - 1]);
      InvStep(Run(workers, routes, acts[..|acts| - 1]).value, acts[|acts| - 1]);
    }
  }

  // ------------------------------------------------------------------ results

  /** Serve has returned nil: reader and workers are gone and none reported an error. */
  predicate EndedWell(s: State) {
    s.reader == ReaderGone(false) && forall w :: 0 <= w < |s.workers| ==> s.workers[w] == WorkerGone(false)
  }

  lemma NothingInFlight(s: State, m: Measure)
    requires ShutDown(s) && EndedWell(s)
    ensures InFlight(s, m) == 0
  {
    NoHands(s.workers);
    if |s.workers| > 0 {
      assert s.workers[0] == WorkerGone(false);
    }
  }

  /** A write that failed took its worker down with an error. */
  predicate FailuresShow(s: State) {
    (s.failed == multiset{} && s.failedBytes == 0)
    || exists w :: 0 <= w < |s.workers| && s.workers[w] == WorkerGone(true)
  }

  lemma GoneStays(s: State, a: Action, w: nat)
    requires Enabled(s, a) && w < |s.workers| && s.workers[w] == WorkerGone(true)
    ensures w < |Apply(s, a).workers| && Apply(s, a).workers[w] == WorkerGone(true)
  {
  }

  lemma FailuresStep(s: State, a: Action)
    requires FailuresShow(s) && Enabled(s, a)
    ensures FailuresShow(Apply(s, a))
  {
    if a.SendFails? {
      assert Apply(s, a).workers[a.worker] == WorkerGone(true);
    } else if s.failed == multiset{} && s.failedBytes == 0 {
      assert Apply(s, a).failed == s.failed && Apply(s, a).failedBytes == s.failedBytes;
    } else {
      var w :| 0 <= w < |s.workers| && s.workers[w] == WorkerGone(true);
      GoneStays(s, a, w);
    }
  }

  lemma {:induction false} NoFailure(workers: nat, routes: map<Addr, Addr>, acts: seq<Action>)
    requires Run(workers, routes, acts).Some?
    ensures FailuresShow(Run(workers, routes, acts).value)
  {
    if acts != [] {
      NoFailure(workers, routes, acts[..|acts| - 1]);
      FailuresStep(Run(workers, routes, acts[..|acts| - 1]).value, acts[|acts| - 1]);
    }
  }

  /** Some interleaving, with some number of workers and some first routes, leads to this
      state. */
  ghost predicate Reachable(s: State) {
    exists workers: nat, routes: map<Addr, Addr>, acts: seq<Action> :: Run(workers, routes, acts) == Some(s)
  }

  lemma ReachableKeepsInv(s: State)
    requires Reachable(s)
    ensures Inv(s) && FailuresShow(s)
  {
    var workers: nat, routes: map<Addr, Addr>, acts: seq<Action> :| Run(workers, routes, acts) == Some(s);
    RunsKeepInv(workers, routes, acts);
    NoFailure(workers, routes, acts);
  }

  /** Conservation, on every run in which Serve ends without an error: each packet that
      entered the inbox was forwarded once or counted dropped, and the bytes read are those
      sent, those of dropped packets, and those of at most one packet abandoned at
      shutdown. */
  lemma Conservation(s: State)
    requires Reachable(s) && EndedWell(s)
    ensures
      && (forall id: nat :: s.entered[id] == s.forwarded[id] + s.dropped[id] <= 1)
      && s.droppedPackets == |s.dropped|
      && s.bytesIn == s.bytesOut + s.droppedBytes + (if s.abandoned.Some? then s.abandoned.value.size else 0)
  {
    ReachableKeepsInv(s);
    NothingInFlight(s, Size);
    forall id: nat ensures s.entered[id] == s.forwarded[id] + s.dropped[id] <= 1 {
      NothingInFlight(s, HasId(id));
      assert PacketKept(s, id);
    }
  }

  /** Close promises that every packet that was read is processed.  On a clean end that is so
      iff none was abandoned. */
  lemma AllProcessedExactlyWhen(s: State)
    requires Reachable(s) && EndedWell(s)
    ensures (forall id: nat :: id < s.arrivals ==> s.forwarded[id] + s.dropped[id] == 1) <==> s.abandoned.None?
  {
    ReachableKeepsInv(s);
    forall id: nat
      ensures s.forwarded[id] + s.dropped[id] == if id < s.arrivals && !KeptOut(s, id) then 1 else 0
      ensures KeptOut(s, id) ==> id < s.arrivals
    {
      NothingInFlight(s, HasId(id));
      assert PacketKept(s, id);
    }
    assert s.abandoned.Some? ==> KeptOut(s, s.abandoned.value.id);
  }

  /** Buffers, at every moment of every run: no buffer is used at two places or used while
      it is idle in the pool, so no worker reads a packet that the reader overwrites. */
  lemma BufferExclusive(s: State, b: nat)
    requires Reachable(s)
    ensures s.pool[b] + Uses(s, b) <= 1
  {
    ReachableKeepsInv(s);
    assert BufferOwned(s, b);
  }

  /** Every buffer taken has been put back exactly once when Serve has ended well. */
  lemma AllBuffersReturned(s: State)
    requires Reachable(s) && EndedWell(s)
    ensures s.gets == s.puts && forall b: nat :: Uses(s, b) == 0
  {
    ReachableKeepsInv(s);
    NothingInFlight(s, One);
    forall b: nat ensures Uses(s, b) == 0 {
      NothingInFlight(s, UsesBuffer(b));
    }
  }

  // ------------------------------------------------------------------ errors and shutdown

  /** Serve returns an error: the reader or a worker ended with one. */
  ghost predicate Failed(s: State) {
    s.reader == ReaderGone(true) || exists w :: 0 <= w < |s.workers| && s.workers[w] == WorkerGone(true)
  }

  predicate IsFailure(a: Action) {
    a.ReadFails? || a.SendFails?
  }

  lemma FailedStep(s: State, a: Action)
    requires Enabled(s, a)
    ensures Failed(Apply(s, a)) <==> Failed(s) || IsFailure(a)
  {
    var s' := Apply(s, a);
    if IsWorkerStep(a) {
      WorkersEnterNothing(s, a);
      FailedWorker(s, a);
    } else {
      FailedReader(s, a);
    }
  }

  lemma FailedReader(s: State, a: Action)
    requires Enabled(s, a) && !IsWorkerStep(a)
    ensures Apply(s, a).workers == s.workers
    ensures Apply(s, a).reader == ReaderGone(true) <==> s.reader == ReaderGone(true) || a.ReadFails?
  {
  }

  lemma FailedWorker(s: State, a: Action)
    requires Enabled(s, a) && IsWorkerStep(a)
    ensures var s' := Apply(s, a);
      && (a.SendFails? <==> s'.workers[a.worker] == WorkerGone(true))
      && s.workers[a.worker] != WorkerGone(true)
      && forall w :: 0 <= w < |s.workers| && w != a.worker ==> s'.workers[w] == s.workers[w]
    ensures |Apply(s, a).workers| == |s.workers|
  {
  }

  /** Serve ends with an error iff a read or a write failed. */
  lemma {:induction false} FailsExactlyWhen(workers: nat, routes: map<Addr, Addr>, acts: seq<Action>)
    requires Run(workers, routes, acts).Some?
    ensures Failed(Run(workers, routes, acts).value) <==> exists k :: 0 <= k < |acts| && IsFailure(acts[k])
  {
    if acts != [] {
      var before, a := acts[..|acts| - 1], acts[|acts| - 1];
      FailsExactlyWhen(workers, routes, before);
      FailedStep(Run(workers, routes, before).value, a);
      assert forall k :: 0 <= k < |before| ==> before[k] == acts[k];
    }
  }

  /** What the network and the runtime may do at any moment: a read or a write fails, after
      which the goroutine's buffer is back, and an idle buffer goes. */
  lemma MayFail(s: State, w: nat, b: nat)
    requires Inv(s) && w < |s.workers|
    ensures s.reader.Reading? ==> Enabled(s, ReadFails) && Failed(Apply(s, ReadFails)) && Apply(s, ReadFails).pool[s.reader.buf] == 1
    ensures s.workers[w].Sending? ==>
      Enabled(s, SendFails(w)) && Failed(Apply(s, SendFails(w))) && Apply(s, SendFails(w)).pool[s.workers[w].pkt.buf] >= 1
    ensures b in s.pool ==> Enabled(s, PoolShrinks(b)) && b !in Apply(s, PoolShrinks(b)).pool
  {
    if s.workers[w].Sending? {
      assert Apply(s, SendFails(w)).workers[w] == WorkerGone(true);
    }
    if s.reader.Reading? {
      assert BufferOwned(s, s.reader.buf);
    }
    assert BufferOwned(s, b);
  }

  function ReaderWork(r: Reader): nat {
    match r
    case Fetching => 3
    case Reading(_) => 2
    case Offering(_) => 2
    case ReaderGone(_) => 0
  }

  function WorkerWork(w: Worker): nat {
    match w
    case Idle(_) => 1
    case Holding(_, _) => 3
    case Sending(_, _, _) => 2
    case WorkerGone(_) => 0
  }

  function Work(ws: seq<Worker>): nat {
    if ws == [] then 0 else WorkerWork(ws[0]) + Work(ws[1..])
  }

  /** What is left to do at most before a closed relay has ended. */
  function WorkLeft(s: State): nat {
    ReaderWork(s.reader) + 4 * |s.inbox| + Work(s.workers)
  }

  lemma {:induction false} WorkChanges(ws: seq<Worker>, w: nat, x: Worker)
    requires w < |ws|
    ensures Work(ws[w := x]) + WorkerWork(ws[w]) == Work(ws) + WorkerWork(x)
  {
    if w == 0 {
      assert ws[w := x][1..] == ws[1..];
    } else {
      assert ws[w := x][1..] == ws[1..][w - 1 := x];
      WorkChanges(ws[1..], w - 1, x);
    }
  }

  /** The step that brings a closed relay closer to its end. */
  ghost predicate Advances(s: State, a: Action) {
    && Enabled(s, a) && !IsFailure(a) && WorkLeft(Apply(s, a)) < WorkLeft(s)
    && Apply(s, a).done == s.done && |Apply(s, a).workers| == |s.workers|
  }

  lemma ReaderAdvances(s: State) returns (a: Action)
    requires s.done && !s.reader.ReaderGone?
    ensures Advances(s, a)
  {
    match s.reader
    case Fetching => a := GetBuffer(None);
    case Reading(_) => a := ReadCancelled;
    case Offering(_) => a := Abandon;
  }

  lemma WorkerAdvances(s: State, w: nat) returns (a: Action)
    requires s.done && s.closed && w < |s.workers| && !s.workers[w].WorkerGone?
    ensures Advances(s, a)
  {
    match s.workers[w] {
      case Idle(_) => a := if s.inbox != [] then Take(w) else InboxEnded(w);
      case Holding(p, _) => a := if p.addr in s.routes then HasRoute(w) else NoRoute(w);
      case Sending(_, _, _) => a := Sent(w);
    }
    WorkerFrame(s, a);
    WorkersEnterNothing(s, a);
    WorkersLeaveDone(s, a);
    WorkChanges(s.workers, w, Apply(s, a).workers[w]);
    LessToDo(s, a);
  }

  lemma LessToDo(s: State, a: Action)
    requires Enabled(s, a) && IsWorkerStep(a) && !a.SeeDone?
    ensures WorkerWork(Apply(s, a).workers[a.worker]) < WorkerWork(s.workers[a.worker]) + if a.Take? then 4 else 0
  {
  }

  lemma WorkersLeaveDone(s: State, a: Action)
    requires Enabled(s, a) && IsWorkerStep(a)
    ensures Apply(s, a).done == s.done
  {
  }

  lemma {:induction false} NoWorkersLeft(ws: seq<Worker>)
    requires forall w :: 0 <= w < |ws| ==> ws[w].WorkerGone?
    ensures Work(ws) == 0
  {
    if ws != [] {
      NoWorkersLeft(ws[1..]);
    }
  }

  lemma LastStep(s: State, acts: seq<Action>, a: Action)
    ensures var prev := Continue(s, acts);
      Continue(s, acts + [a]) == if prev.Some? && Enabled(prev.value, a) then Some(Apply(prev.value, a)) else None
  {
    assert (acts + [a])[..|acts|] == acts;
  }

  lemma OneOn(s: State, r: State, front: seq<Action>, acts: seq<Action>, a: Action)
    requires Continue(s, front) == Continue(r, acts)
    ensures Continue(s, front + [a]) == Continue(r, acts + [a])
  {
    LastStep(s, front, a);
    LastStep(r, acts, a);
  }

  /** Runs follow one another. */
  lemma {:induction false} Onward(s: State, front: seq<Action>, r: State, acts: seq<Action>)
    requires Continue(s, front) == Some(r)
    ensures Continue(s, front + acts) == Continue(r, acts)
  {
    if acts == [] {
      assert front + acts == front;
    } else {
      var init, last := acts[..|acts| - 1], acts[|acts| - 1];
      assert acts == init + [last] && front + acts == (front + init) + [last];
      Onward(s, front, r, init);
      OneOn(s, r, front + init, init, last);
    }
  }

  lemma GoOn(s: State, a: Action, t: State, acts: seq<Action>)
    requires Enabled(s, a) && Continue(Apply(s, a), acts) == Some(t)
    ensures Continue(s, [a] + acts) == Some(t)
  {
    LastStep(s, [], a);
    assert [] + [a] == [a];
    Onward(s, [a], Apply(s, a), acts);
  }

  lemma {:induction false} Completes(s: State) returns (acts: seq<Action>)
    requires Inv(s) && s.done && !Failed(s)
    ensures Continue(s, acts).Some? && EndedWell(Continue(s, acts).value)
    ensures forall k :: 0 <= k < |acts| ==> !IsFailure(acts[k])
    decreases WorkLeft(s)
  {
    if EndedWell(s) {
      acts := [];
    } else {
      var a;
      if !s.reader.ReaderGone? {
        a := ReaderAdvances(s);
      } else {
        var w :| 0 <= w < |s.workers| && s.workers[w] != WorkerGone(false);
        a := WorkerAdvances(s, w);
      }
      InvStep(s, a);
      FailedStep(s, a);
      var more := Completes(Apply(s, a));
      acts := [a] + more;
      GoOn(s, a, Continue(Apply(s, a), more).value, more);
    }
  }

  /** Shutdown can always complete: from every reachable state of a closed relay that has not
      failed there is a continuation without failures in which every packet that entered the
      inbox is processed and Serve ends without an error. */
  lemma ShutdownCompletes(s: State) returns (acts: seq<Action>)
    requires Reachable(s) && s.done && !Failed(s)
    ensures Continue(s, acts).Some? && EndedWell(Continue(s, acts).value)
    ensures forall k :: 0 <= k < |acts| ==> !IsFailure(acts[k])
  {
    ReachableKeepsInv(s);
    acts := Completes(s);
  }

  // ------------------------------------------------------------------ the route in force

  /** The call says where packets from `x` go, or that they go nowhere.  (RemoveAllRoutes
      leaves the routes to its address alone, see below.) */
  predicate Decides(a: Action, x: Addr) {
    ((a.AddRoute? || a.RemoveRoute?) && (a.a == x || a.b == x)) || (a.RemoveAllRoutes? && a.a == x)
  }

  /** The `i`-th call connected `x` to `y`, and no later one was about `x`. */
  predicate ConnectedLast(acts: seq<Action>, i: nat, x: Addr, y: Addr) {
    && i < |acts| && (acts[i] == AddRoute(x, y) || acts[i] == AddRoute(y, x))
    && forall j :: i < j < |acts| ==> !Decides(acts[j], x)
  }

  /** Where packets from `x` go is decided by the last call that was about `x`, and by the
      first routes if there was none. */
  ghost predicate RoutedTo(routes: map<Addr, Addr>, acts: seq<Action>, x: Addr, y: Addr) {
    || (exists i: nat :: ConnectedLast(acts, i, x, y))
    || (x in routes && routes[x] == y && forall j :: 0 <= j < |acts| ==> !Decides(acts[j], x))
  }

  lemma {:induction false} RouteInForce(workers: nat, routes: map<Addr, Addr>, acts: seq<Action>, x: Addr, y: Addr)
    requires Run(workers, routes, acts).Some?
    ensures var now := Run(workers, routes, acts).value.routes;
      x in now && now[x] == y <==> RoutedTo(routes, acts, x, y)
  {
    if acts != [] {
      var before, a := acts[..|acts| - 1], acts[|acts| - 1];
      RouteInForce(workers, routes, before, x, y);
      RouteStep(Run(workers, routes, before).value, a, x);
      if Decides(a, x) {
        LastDecision(routes, acts, x, y);
      } else {
        EarlierDecision(routes, acts, x, y);
      }
    }
  }

  lemma RouteStep(s: State, a: Action, x: Addr)
    requires Enabled(s, a)
    ensures var now := Apply(s, a).routes;
      if !Decides(a, x) then (x in now <==> x in s.routes) && (x in now ==> now[x] == s.routes[x])
      else if a.AddRoute? then x in now && now[x] == (if a.b == x then a.a else a.b)
      else x !in now
  {
    if IsWorkerStep(a) {
      WorkersLeaveRoutes(s, a);
    } else if !a.AddRoute? && !a.RemoveRoute? && !a.RemoveAllRoutes? {
      ReaderLeavesRoutes(s, a);
    }
  }

  lemma WorkersLeaveRoutes(s: State, a: Action)
    requires Enabled(s, a) && IsWorkerStep(a)
    ensures Apply(s, a).routes == s.routes
  {
    match a
    case SeeDone(_) =>
    case Take(_) =>
    case InboxEnded(_) =>
    case NoRoute(_) =>
    case HasRoute(_) =>
    case Sent(_) =>
    case SendFails(_) =>
  }

  lemma ReaderLeavesRoutes(s: State, a: Action)
    requires Enabled(s, a) && !IsWorkerStep(a) && !a.AddRoute? && !a.RemoveRoute? && !a.RemoveAllRoutes?
    ensures Apply(s, a).routes == s.routes
  {
    if a.GetBuffer? {
      GetLeavesRoutes(s, a);
    } else if a.ReadPacket? || a.ReadCancelled? || a.ReadFails? || a.Offer? || a.Abandon? {
    } else {
      assert a.Close? || a.PoolShrinks?;
    }
  }

  lemma GetLeavesRoutes(s: State, a: Action)
    requires Enabled(s, a) && a.GetBuffer?
    ensures Apply(s, a).routes == s.routes
  {
  }

  lemma LastDecision(routes: map<Addr, Addr>, acts: seq<Action>, x: Addr, y: Addr)
    requires acts != [] && Decides(acts[|acts| - 1], x)
    ensures RoutedTo(routes, acts, x, y) <==> acts[|acts| - 1] == AddRoute(x, y) || acts[|acts| - 1] == AddRoute(y, x)
  {
    var n := |acts| - 1;
    assert forall i: nat :: ConnectedLast(acts, i, x, y) ==> i == n;
    if acts[n] == AddRoute(x, y) || acts[n] == AddRoute(y, x) {
      assert ConnectedLast(acts, n, x, y);
    }
  }

  lemma EarlierDecision(routes: map<Addr, Addr>, acts: seq<Action>, x: Addr, y: Addr)
    requires acts != [] && !Decides(acts[|acts| - 1], x)
    ensures RoutedTo(routes, acts, x, y) <==> RoutedTo(routes, acts[..|acts| - 1], x, y)
  {
    var before := acts[..|acts| - 1];
    assert forall j :: 0 <= j < |before| ==> before[j] == acts[j];
    forall i: nat ensures ConnectedLast(acts, i, x, y) <==> ConnectedLast(before, i, x, y) {
      assert acts[|acts| - 1] != AddRoute(x, y) && acts[|acts| - 1] != AddRoute(y, x);
    }
  }

  // ------------------------------------------------------------------ from where, to where

  function Reads(acts: seq<Action>): nat {
    if acts == [] then 0 else Reads(acts[..|acts| - 1]) + if acts[|acts| - 1].ReadPacket? then 1 else 0
  }

  /** `p` is what the `i`-th action read. */
  predicate ReadAt(acts: seq<Action>, i: nat, p: Packet) {
    i < |acts| && acts[i] == ReadPacket(p.size, p.addr) && Reads(acts[..i]) == p.id
  }

  predicate InHand(w: Worker, p: Packet) {
    (w.Holding? || w.Sending?) && w.pkt == p
  }

  ghost predicate InPlay(s: State, p: Packet) {
    || s.reader == Offering(p) || p in s.inbox
    || exists w :: 0 <= w < |s.workers| && InHand(s.workers[w], p)
  }

  lemma InPlayStep(s: State, a: Action, p: Packet)
    requires Enabled(s, a) && InPlay(Apply(s, a), p)
    ensures InPlay(s, p) || (a == ReadPacket(p.size, p.addr) && p.id == s.arrivals)
  {
    if IsWorkerStep(a) {
      WorkerInPlay(s, a, p);
    } else {
      ReaderInPlay(s, a, p);
    }
  }

  lemma WorkerInPlay(s: State, a: Action, p: Packet)
    requires Enabled(s, a) && IsWorkerStep(a) && InPlay(Apply(s, a), p)
    ensures InPlay(s, p)
  {
    var s' := Apply(s, a);
    WorkerFrame(s, a);
    if s'.reader != Offering(p) && p !in s'.inbox {
      var w :| 0 <= w < |s'.workers| && InHand(s'.workers[w], p);
      assert s'.workers[w].Hand() == [p];
      assert InHand(s.workers[w], p) || (a.Take? && s.inbox[..1][0] == p);
    }
  }

  lemma ReaderInPlay(s: State, a: Action, p: Packet)
    requires Enabled(s, a) && !IsWorkerStep(a) && InPlay(Apply(s, a), p)
    ensures InPlay(s, p) || (a == ReadPacket(p.size, p.addr) && p.id == s.arrivals)
  {
    assert Apply(s, a).workers == s.workers;
  }

  lemma ArrivalStep(s: State, a: Action)
    requires Enabled(s, a)
    ensures Apply(s, a).arrivals == s.arrivals + if a.ReadPacket? then 1 else 0
  {
  }

  lemma {:induction false} ReadsAreCounted(workers: nat, routes: map<Addr, Addr>, acts: seq<Action>)
    requires Run(workers, routes, acts).Some?
    ensures Run(workers, routes, acts).value.arrivals == Reads(acts)
  {
    if acts != [] {
      ReadsAreCounted(workers, routes, acts[..|acts| - 1]);
      ArrivalStep(Run(workers, routes, acts[..|acts| - 1]).value, acts[|acts| - 1]);
    }
  }

  lemma ReadInPrefix(acts: seq<Action>, n: nat, i: nat, p: Packet)
    requires n <= |acts| && ReadAt(acts[..n], i, p)
    ensures i < n && ReadAt(acts, i, p)
  {
    assert acts[..n][..i] == acts[..i];
  }

  lemma {:induction false} InPlayWasRead(workers: nat, routes: map<Addr, Addr>, acts: seq<Action>, p: Packet) returns (i: nat)
    requires Run(workers, routes, acts).Some? && InPlay(Run(workers, routes, acts).value, p)
    ensures ReadAt(acts, i, p)
  {
    var before, n := acts[..|acts| - 1], |acts| - 1;
    InPlayStep(Run(workers, routes, before).value, acts[n], p);
    if InPlay(Run(workers, routes, before).value, p) {
      i := InPlayWasRead(workers, routes, before, p);
      ReadInPrefix(acts, n, i, p);
    } else {
      ReadsAreCounted(workers, routes, before);
      i := n;
    }
  }

  /** After the first `j` actions packets from `x` went to `y`, or nowhere if there is none. */
  ghost predicate RouteAt(routes: map<Addr, Addr>, acts: seq<Action>, j: nat, x: Addr, to: Option<Addr>) {
    j <= |acts| && forall y :: RoutedTo(routes, acts[..j], x, y) <==> to == Some(y)
  }

  lemma RouteInPrefix(routes: map<Addr, Addr>, acts: seq<Action>, n: nat, j: nat, x: Addr, to: Option<Addr>)
    requires n <= |acts| && RouteAt(routes, acts[..n], j, x, to)
    ensures RouteAt(routes, acts, j, x, to)
  {
    assert acts[..n][..j] == acts[..j];
  }

  lemma RouteNow(workers: nat, routes: map<Addr, Addr>, acts: seq<Action>, x: Addr)
    requires Run(workers, routes, acts).Some?
    ensures var now := Run(workers, routes, acts).value.routes;
      RouteAt(routes, acts, |acts|, x, if x in now then Some(now[x]) else None)
  {
    assert acts[..|acts|] == acts;
    forall y {
      RouteInForce(workers, routes, acts, x, y);
    }
  }

  /** The packet was read, and at a moment after that its address had this route, or none. */
  ghost predicate ReadThenRouted(routes: map<Addr, Addr>, acts: seq<Action>, p: Packet, to: Option<Addr>) {
    exists i: nat, j: nat :: i < j && ReadAt(acts, i, p) && RouteAt(routes, acts, j, p.addr, to)
  }

  lemma ReadThenRoutedStays(routes: map<Addr, Addr>, acts: seq<Action>, n: nat, p: Packet, to: Option<Addr>)
    requires n <= |acts| && ReadThenRouted(routes, acts[..n], p, to)
    ensures ReadThenRouted(routes, acts, p, to)
  {
    var i: nat, j: nat :| i < j && ReadAt(acts[..n], i, p) && RouteAt(routes, acts[..n], j, p.addr, to);
    ReadInPrefix(acts, n, i, p);
    RouteInPrefix(routes, acts, n, j, p.addr, to);
  }

  /** A packet that a worker holds has been read, and its address is routed as it is now. */
  lemma HeldIsRouted(workers: nat, routes: map<Addr, Addr>, acts: seq<Action>, w: nat)
    requires Run(workers, routes, acts).Some? && w < |Run(workers, routes, acts).value.workers|
    requires Run(workers, routes, acts).value.workers[w].Holding?
    ensures var s := Run(workers, routes, acts).value; var p := s.workers[w].pkt;
      ReadThenRouted(routes, acts, p, if p.addr in s.routes then Some(s.routes[p.addr]) else None)
  {
    var s := Run(workers, routes, acts).value;
    assert InHand(s.workers[w], s.workers[w].pkt);
    var i := InPlayWasRead(workers, routes, acts, s.workers[w].pkt);
    RouteNow(workers, routes, acts, s.workers[w].pkt.addr);
  }

  lemma SendingStep(s: State, a: Action, w: nat)
    requires Enabled(s, a) && w < |Apply(s, a).workers| && Apply(s, a).workers[w].Sending?
    ensures w < |s.workers|
    ensures var x := Apply(s, a).workers[w];
      s.workers[w] == x || (s.workers[w].Holding? && s.workers[w].pkt == x.pkt && x.pkt.addr in s.routes && s.routes[x.pkt.addr] == x.dst)
  {
    if IsWorkerStep(a) {
      WorkerFrame(s, a);
    }
  }

  lemma {:induction false} SendingWasRouted(workers: nat, routes: map<Addr, Addr>, acts: seq<Action>, w: nat)
    requires Run(workers, routes, acts).Some? && w < |Run(workers, routes, acts).value.workers|
    requires Run(workers, routes, acts).value.workers[w].Sending?
    ensures var x := Run(workers, routes, acts).value.workers[w]; ReadThenRouted(routes, acts, x.pkt, Some(x.dst))
  {
    var before, n := acts[..|acts| - 1], |acts| - 1;
    var s, x := Run(workers, routes, before).value, Run(workers, routes, acts).value.workers[w];
    SendingStep(s, acts[n], w);
    if s.workers[w] == x {
      SendingWasRouted(workers, routes, before, w);
    } else {
      HeldIsRouted(workers, routes, before, w);
    }
    ReadThenRoutedStays(routes, acts, n, x.pkt, Some(x.dst));
  }

  lemma SendStep(s: State, a: Action, k: nat)
    requires Enabled(s, a) && k < |Apply(s, a).sends|
    ensures k < |s.sends| ==> s.sends[k] == Apply(s, a).sends[k]
    ensures k >= |s.sends| ==> a.Sent? && Apply(s, a).sends[k] == Send(s.workers[a.worker].pkt, s.workers[a.worker].dst)
  {
  }

  lemma {:induction false} SentWhereRouted(workers: nat, routes: map<Addr, Addr>, acts: seq<Action>, k: nat)
    requires Run(workers, routes, acts).Some? && k < |Run(workers, routes, acts).value.sends|
    ensures var send := Run(workers, routes, acts).value.sends[k]; ReadThenRouted(routes, acts, send.pkt, Some(send.dst))
  {
    var send, n := Run(workers, routes, acts).value.sends[k], |acts| - 1;
    var before := acts[..n];
    SendStep(Run(workers, routes, before).value, acts[n], k);
    if k < |Run(workers, routes, before).value.sends| {
      SentWhereRouted(workers, routes, before, k);
    } else {
      SendingWasRouted(workers, routes, before, acts[n].worker);
    }
    ReadThenRoutedStays(routes, acts, n, send.pkt, Some(send.dst));
  }

  /** Every packet that was written was read before, from the address it counts for, and went
      where the last call about that address had led it, at a moment after it was read.  So
      the relay never makes up a destination: it was there at first or somebody connected the
      two. */
  lemma DeliversAlongRoutes(workers: nat, routes: map<Addr, Addr>, acts: seq<Action>, k: nat)
    requires Run(workers, routes, acts).Some? && k < |Run(workers, routes, acts).value.sends|
    ensures var send := Run(workers, routes, acts).value.sends[k]; var x, y := send.pkt.addr, send.dst;
      && ReadThenRouted(routes, acts, send.pkt, Some(y))
      && ((x in routes && routes[x] == y) || AddRoute(x, y) in acts || AddRoute(y, x) in acts)
  {
    var send := Run(workers, routes, acts).value.sends[k];
    SentWhereRouted(workers, routes, acts, k);
    var i: nat, j: nat :| i < j && ReadAt(acts, i, send.pkt) && RouteAt(routes, acts, j, send.pkt.addr, Some(send.dst));
    assert RoutedTo(routes, acts[..j], send.pkt.addr, send.dst);
  }

  lemma DroppingStep(s: State, a: Action, id: nat)
    requires Enabled(s, a) && id in Apply(s, a).dropped && id !in s.dropped
    ensures a.NoRoute? && s.workers[a.worker].pkt.id == id && s.workers[a.worker].pkt.addr !in s.routes
  {
  }

  /** Every packet that was counted dropped was read before, and at a moment after that its
      address had no route. */
  lemma {:induction false} DroppedWithoutRoute(workers: nat, routes: map<Addr, Addr>, acts: seq<Action>, id: nat) returns (p: Packet)
    requires Run(workers, routes, acts).Some? && id in Run(workers, routes, acts).value.dropped
    ensures p.id == id && ReadThenRouted(routes, acts, p, None)
  {
    var n := |acts| - 1;
    var before := acts[..n];
    var s := Run(workers, routes, before).value;
    if id in s.dropped {
      p := DroppedWithoutRoute(workers, routes, before, id);
    } else {
      DroppingStep(s, acts[n], id);
      p := s.workers[acts[n].worker].pkt;
      HeldIsRouted(workers, routes, before, acts[n].worker);
    }
    ReadThenRoutedStays(routes, acts, n, p, None);
  }

  // ------------------------------------------------------------------ removing routes

  /** RemoveAllRoutes removes the routes from an address and not those to it: exactly when
      no other address was routed to it, no route mentions it afterwards. */
  lemma AllRemovedExactlyWhen(s: State, a: Addr)
    ensures (forall x | x in Apply(s, RemoveAllRoutes(a)).routes :: x != a && Apply(s, RemoveAllRoutes(a)).routes[x] != a)
      <==> (forall x | x in s.routes && s.routes[x] == a :: x == a)
  {
    var routes := Apply(s, RemoveAllRoutes(a)).routes;
    assert forall x | x in s.routes && x != a :: x in routes && routes[x] == s.routes[x];
  }

  /** No route from `x`, and no worker that is sending one of its packets. */
  predicate CutOff(s: State, x: Addr) {
    x !in s.routes && forall w :: 0 <= w < |s.workers| && s.workers[w].Sending? ==> s.workers[w].pkt.addr != x
  }

  predicate Reconnects(a: Action, x: Addr) {
    a.AddRoute? && (a.a == x || a.b == x)
  }

  lemma CutOffStep(s: State, a: Action, x: Addr)
    requires CutOff(s, x) && Enabled(s, a) && !Reconnects(a, x)
    ensures CutOff(Apply(s, a), x) && s.sends <= Apply(s, a).sends
    ensures forall k :: |s.sends| <= k < |Apply(s, a).sends| ==> Apply(s, a).sends[k].pkt.addr != x
  {
    if IsWorkerStep(a) {
      WorkerFrame(s, a);
    }
  }

  /** Once an address has no route and none of its packets is being sent, nothing from it is
      sent in any continuation in which nobody connects it again. */
  lemma {:induction false} CutOffStays(s: State, acts: seq<Action>, x: Addr)
    requires CutOff(s, x) && Continue(s, acts).Some?
    requires forall i :: 0 <= i < |acts| ==> !Reconnects(acts[i], x)
    ensures var t := Continue(s, acts).value;
      && CutOff(t, x) && s.sends <= t.sends
      && forall k :: |s.sends| <= k < |t.sends| ==> t.sends[k].pkt.addr != x
  {
    if acts != [] {
      CutOffStays(s, acts[..|acts| - 1], x);
      CutOffStep(Continue(s, acts[..|acts| - 1]).value, acts[|acts| - 1], x);
    }
  }

  /** RemoveRoute takes the routes of both addresses away and leaves all others; unless a
      packet of one of them is being sent, nothing from it is sent until it is connected
      again. */
  lemma {:induction false} RemovedUntilReconnected(s: State, a: Addr, b: Addr, acts: seq<Action>, x: Addr)
    requires x == a || x == b
    requires forall w :: 0 <= w < |s.workers| && s.workers[w].Sending? ==> s.workers[w].pkt.addr != x
    requires Continue(Apply(s, RemoveRoute(a, b)), acts).Some?
    requires forall i :: 0 <= i < |acts| ==> !Reconnects(acts[i], x)
    ensures var routes := Apply(s, RemoveRoute(a, b)).routes;
      a !in routes && b !in routes
      && forall z :: z != a && z != b ==> (z in routes <==> z in s.routes) && (z in routes ==> routes[z] == s.routes[z])
    ensures var t := Continue(Apply(s, RemoveRoute(a, b)), acts).value;
      x !in t.routes && forall k :: |s.sends| <= k < |t.sends| ==> t.sends[k].pkt.addr != x
  {
    CutOffStays(Apply(s, RemoveRoute(a, b)), acts, x);
  }

  lemma OneMore(s: State, acts: seq<Action>, t: State, a: Action)
    requires Continue(s, acts) == Some(t) && Enabled(t, a)
    ensures Continue(s, acts + [a]) == Some(Apply(t, a))
  {
    assert (acts + [a])[..|acts|] == acts;
  }

  /** A run in which all routes of `a` have been removed, nobody adds any, and a packet of any
      size is delivered to `a` afterwards. */
  lemma ReverseRouteDelivers(workers: nat, a: Addr, b: Addr, size: nat) returns (before: State, after: State, acts: seq<Action>)
    requires workers > 0 && a != b
    ensures Run(workers, map[], [AddRoute(a, b), RemoveAllRoutes(a)]) == Some(before) && before.sends == []
    ensures Continue(before, acts) == Some(after) && after.sends == [Send(Packet(0, size, 0, b), a)]
    ensures forall i :: 0 <= i < |acts| ==> !acts[i].AddRoute?
  {
    var s0 := Init(workers, map[]);
    before := s0.(routes := map[b := a]);
    RoutesLeft(workers, a, b);
    acts := [] + [GetBuffer(None)] + [ReadPacket(size, b)] + [Offer] + [Take(0)] + [HasRoute(0)] + [Sent(0)];
    after := Delivered(before, b, a, size);
    DeliversFirst(before, b, a, size);
  }

  lemma RoutesLeft(workers: nat, a: Addr, b: Addr)
    requires a != b
    ensures Run(workers, map[], [AddRoute(a, b), RemoveAllRoutes(a)]) == Some(Init(workers, map[]).(routes := map[b := a]))
  {
    var s0 := Init(workers, map[]);
    var s1 := s0.(routes := map[a := b, b := a]);
    assert Continue(s0, []) == Some(s0);
    OneMore(s0, [], s0, AddRoute(a, b));
    assert [] + [AddRoute(a, b)] == [AddRoute(a, b)];
    OneMore(s0, [AddRoute(a, b)], s1, RemoveAllRoutes(a));
    assert [AddRoute(a, b)] + [RemoveAllRoutes(a)] == [AddRoute(a, b), RemoveAllRoutes(a)];
    assert s1.routes - {a} == map[b := a];
  }

  /** A fresh relay after its first packet went from `x` to `y`. */
  function Delivered(s: State, x: Addr, y: Addr, size: nat): State {
    s.(buffers := 1, gets := 1, puts := 1, pool := multiset{0}, bytesIn := size, bytesOut := size, arrivals := 1,
       entered := multiset{0}, forwarded := multiset{0}, sends := [Send(Packet(0, size, 0, x), y)])
  }

  lemma DeliversFirst(s: State, x: Addr, y: Addr, size: nat)
    requires |s.workers| > 0 && s == Init(|s.workers|, map[]).(routes := map[x := y])
    ensures Continue(s, [] + [GetBuffer(None)] + [ReadPacket(size, x)] + [Offer] + [Take(0)] + [HasRoute(0)] + [Sent(0)])
            == Some(Delivered(s, x, y, size))
  {
    ReadsFirst(s, x, y, size);
    SendsFirst(s, [] + [GetBuffer(None)] + [ReadPacket(size, x)] + [Offer], x, y, size);
  }

  /** The reader has put the first packet into the inbox. */
  function Queued(s: State, x: Addr, size: nat): State {
    s.(buffers := 1, gets := 1, bytesIn := size, arrivals := 1, inbox := [Packet(0, size, 0, x)], entered := multiset{0})
  }

  lemma FirstIsRead(s: State, x: Addr, y: Addr, size: nat)
    requires |s.workers| > 0 && s == Init(|s.workers|, map[]).(routes := map[x := y])
    ensures var s1 := s.(reader := Reading(0), buffers := 1, gets := 1);
      var s2 := s1.(reader := Offering(Packet(0, size, 0, x)), arrivals := 1, bytesIn := size);
      && Enabled(s, GetBuffer(None)) && Apply(s, GetBuffer(None)) == s1
      && Enabled(s1, ReadPacket(size, x)) && Apply(s1, ReadPacket(size, x)) == s2
      && Enabled(s2, Offer) && Apply(s2, Offer) == Queued(s, x, size)
  {
    assert [] + [Packet(0, size, 0, x)] == [Packet(0, size, 0, x)] && multiset{} + multiset{0} == multiset{0};
  }

  lemma ReadsFirst(s: State, x: Addr, y: Addr, size: nat)
    requires |s.workers| > 0 && s == Init(|s.workers|, map[]).(routes := map[x := y])
    ensures Continue(s, [] + [GetBuffer(None)] + [ReadPacket(size, x)] + [Offer]) == Some(Queued(s, x, size))
  {
    var s1 := Apply(s, GetBuffer(None));
    FirstIsRead(s, x, y, size);
    assert Continue(s, []) == Some(s);
    OneMore(s, [], s, GetBuffer(None));
    OneMore(s, [] + [GetBuffer(None)], s1, ReadPacket(size, x));
    OneMore(s, [] + [GetBuffer(None)] + [ReadPacket(size, x)], Apply(s1, ReadPacket(size, x)), Offer);
  }

  /** A worker holds it, and then sends it. */
  function Working(s: State, x: Addr, size: nat, w: Worker): State
    requires |s.workers| > 0
  {
    Queued(s, x, size).(workers := s.workers[0 := w], inbox := [])
  }

  lemma TakesFirst(s: State, x: Addr, y: Addr, size: nat)
    requires |s.workers| > 0 && s == Init(|s.workers|, map[]).(routes := map[x := y])
    ensures var p, q := Packet(0, size, 0, x), Queued(s, x, size);
      && Enabled(q, Take(0)) && Apply(q, Take(0)) == Working(s, x, size, Holding(p, false))
      && Enabled(Apply(q, Take(0)), HasRoute(0))
      && Apply(Apply(q, Take(0)), HasRoute(0)) == Working(s, x, size, Sending(p, y, false))
  {
    var p := Packet(0, size, 0, x);
    assert s.workers[0 := Holding(p, false)][0 := Sending(p, y, false)] == s.workers[0 := Sending(p, y, false)];
    assert [p][1..] == [];
  }

  lemma SendsIt(s: State, x: Addr, y: Addr, size: nat)
    requires |s.workers| > 0 && s == Init(|s.workers|, map[]).(routes := map[x := y])
    ensures var t := Working(s, x, size, Sending(Packet(0, size, 0, x), y, false));
      Enabled(t, Sent(0)) && Apply(t, Sent(0)) == Delivered(s, x, y, size)
  {
    var w := Sending(Packet(0, size, 0, x), y, false);
    assert s.workers[0 := w][0 := Idle(false)] == s.workers;
    assert [] + [Send(w.pkt, y)] == [Send(w.pkt, y)];
    assert multiset{} + multiset{0} == multiset{0};
  }

  lemma SendsFirst(s: State, acts: seq<Action>, x: Addr, y: Addr, size: nat)
    requires |s.workers| > 0 && s == Init(|s.workers|, map[]).(routes := map[x := y])
    requires Continue(s, acts) == Some(Queued(s, x, size))
    ensures Continue(s, acts + [Take(0)] + [HasRoute(0)] + [Sent(0)]) == Some(Delivered(s, x, y, size))
  {
    var p := Packet(0, size, 0, x);
    TakesFirst(s, x, y, size);
    SendsIt(s, x, y, size);
    OneMore(s, acts, Queued(s, x, size), Take(0));
    OneMore(s, acts + [Take(0)], Working(s, x, size, Holding(p, false)), HasRoute(0));
    OneMore(s, acts + [Take(0)] + [HasRoute(0)], Working(s, x, size, Sending(p, y, false)), Sent(0));
  }

  /** With one worker: after the first packet the relay is closed while the second one waits
      for room in the inbox. */
  function ClosedWhileOffering(t: State, size: nat, z: Addr): State {
    t.(done := true, reader := Offering(Packet(1, size, 0, z)), pool := multiset{}, gets := 2, arrivals := 2, bytesIn := t.bytesIn + size)
  }

  lemma ReadsSecond(t: State, size: nat, z: Addr)
    requires t.reader == Fetching && !t.done && t.pool == multiset{0} && t.gets == 1 && t.arrivals == 1
    ensures var t1 := t.(reader := Reading(0), pool := multiset{}, gets := 2);
      Enabled(t, GetBuffer(Some(0))) && Apply(t, GetBuffer(Some(0))) == t1
      && Enabled(t1, ReadPacket(size, z)) && Apply(t1, ReadPacket(size, z)) == ClosedWhileOffering(t, size, z).(done := false)
  {
    assert multiset{0} - multiset{0} == multiset{};
  }

  lemma OffersSecond(s: State, t: State, acts: seq<Action>, size: nat, z: Addr)
    requires Continue(s, acts) == Some(t) && t.reader == Fetching && !t.done && t.pool == multiset{0} && t.gets == 1 && t.arrivals == 1
    ensures Continue(s, acts + [GetBuffer(Some(0))] + [ReadPacket(size, z)] + [Close]) == Some(ClosedWhileOffering(t, size, z))
  {
    var t1, t2 := Apply(t, GetBuffer(Some(0))), ClosedWhileOffering(t, size, z).(done := false);
    ReadsSecond(t, size, z);
    OneMore(s, acts, t, GetBuffer(Some(0)));
    OneMore(s, acts + [GetBuffer(Some(0))], t1, ReadPacket(size, z));
    OneMore(s, acts + [GetBuffer(Some(0))] + [ReadPacket(size, z)], t2, Close);
  }

  lemma GivesUpSecond(s: State, t: State, acts: seq<Action>, p: Packet)
    requires Continue(s, acts) == Some(t) && t.reader == Offering(p) && t.done && t.inbox == [] && t.workers == [Idle(false)]
    ensures Continue(s, acts + [Abandon] + [SeeDone(0)] + [InboxEnded(0)]) == Some(PutBuffer(t, p.buf).(
      reader := ReaderGone(false), closed := true, abandoned := Some(p), workers := [WorkerGone(false)]))
  {
    var t1 := PutBuffer(t, p.buf).(reader := ReaderGone(false), closed := true, abandoned := Some(p));
    var t2 := t1.(workers := [Idle(true)]);
    assert t1.workers[0 := Idle(true)] == [Idle(true)] && t2.workers[0 := WorkerGone(false)] == [WorkerGone(false)];
    OneMore(s, acts, t, Abandon);
    OneMore(s, acts + [Abandon], t1, SeeDone(0));
    OneMore(s, acts + [Abandon] + [SeeDone(0)], t2, InboxEnded(0));
  }

  /** One worker, and a packet of `size` bytes went from `x` to `y`; then the reader gives up
      the second one, which is as long. */
  lemma GivesUp(s: State, t: State, acts: seq<Action>, x: Addr, size: nat) returns (u: State, more: seq<Action>)
    requires Continue(s, acts) == Some(t) && t.reader == Fetching && !t.done && t.pool == multiset{0} && t.gets == 1
    requires t.arrivals == 1 && t.inbox == [] && t.workers == [Idle(false)]
    ensures Continue(s, more) == Some(u) && EndedWell(u) && u.abandoned.Some?
    ensures u.arrivals == 2 && u.bytesOut == t.bytesOut
  {
    var p, t1 := Packet(1, size, 0, x), ClosedWhileOffering(t, size, x);
    OffersSecond(s, t, acts, size, x);
    var acts1 := acts + [GetBuffer(Some(0))] + [ReadPacket(size, x)] + [Close];
    GivesUpSecond(s, t1, acts1, p);
    more := acts1 + [Abandon] + [SeeDone(0)] + [InboxEnded(0)];
    u := PutBuffer(t1, p.buf).(reader := ReaderGone(false), closed := true, abandoned := Some(p), workers := [WorkerGone(false)]);
  }

  /** A run that ends without error and in which a packet that was read is not processed. */
  lemma AbandonHappens(x: Addr, y: Addr, size: nat) returns (t: State)
    ensures Reachable(t) && EndedWell(t) && t.abandoned.Some? && t.arrivals == 2 && t.bytesOut == size
  {
    var s := Init(1, map[x := y]);
    var acts := [] + [GetBuffer(None)] + [ReadPacket(size, x)] + [Offer] + [Take(0)] + [HasRoute(0)] + [Sent(0)];
    assert s == Init(|s.workers|, map[]).(routes := map[x := y]) && s.workers == [Idle(false)];
    DeliversFirst(s, x, y, size);
    var more;
    t, more := GivesUp(s, Delivered(s, x, y, size), acts, x, size);
    assert Run(1, map[x := y], more) == Some(t);
  }
}
