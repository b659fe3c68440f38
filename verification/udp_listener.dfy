/** Virtual connections over one UDP socket (internal/platform/udp/listen.go, conn.go).

    The read loop, the callers of Accept, Read and Close, and the two critical sections
    under `connLock` interleave freely.  An action is one step of one of them.  `dispatch`
    is not one step: it looks the address up under the lock, then works without it, and
    takes the lock again to store a new connection. */
module UDPListener {
  import opened Wrappers

  type Addr = string

  datatype Datagram = Datagram(src: Addr, data: string)

  /** `created` is the datagram (by arrival number) for which `dispatch` made the connection,
      `got` lists those that were put into `reads`; the first `taken` of them have been read,
      the rest is what the channel still buffers. */
  datatype Conn = Conn(addr: Addr, created: nat, got: seq<nat>, taken: nat, accepted: bool, done: bool, released: bool, early: bool)

  /** Why `dispatch` returned an error. */
  datatype Drop = BufferExceeded | ClosedListener | QueueExceeded

  /** Where the read loop is: waiting for a datagram, or inside `dispatch`. */
  datatype Reader =
    | Reading
    | Looking(d: nat)              // before the lookup
    | Found(d: nat, conn: nat)     // the lookup found a connection
    | Missing(d: nat)              // it did not
    | Creating(d: nat)             // the listener was not done
    | Storing(conn: nat)           // enqueued, not stored yet
    | Exited
  {
    predicate Holds(i: nat) {
      (Looking? || Found? || Missing? || Creating?) && d == i
    }
  }

  /** Sizes that are not positive stand for the defaults (lines 54-61). */
  datatype Config = Config(connBacklog: int, readBufferSize: int) {
    function Backlog(): (n: nat)
      ensures n > 0
    {
      if connBacklog <= 0 then 128 else connBacklog
    }

    function ReadBuffer(): (n: nat)
      ensures n > 0
    {
      if readBufferSize <= 0 then 512 else readBufferSize
    }
  }

  datatype State = State(
    arrived: seq<Datagram>,
    dropped: map<nat, Drop>,
    conns: seq<Conn>,          // every Conn that was handed out
    table: map<Addr, nat>,     // Listener.conns
    queue: seq<nat>,           // Listener.acceptQueue
    done: bool,                // the listener is closed
    closes: nat,               // how often the socket was closed
    waiting: bool,             // connLock is held by a closer that waits for the read loop
    reader: Reader)

  datatype Action =
    | Receive(src: Addr, data: string)
    | ReadFails
    | Lookup
    | Deliver
    | CheckDone
    | Enqueue
    | RefuseClosed
    | RefuseFull
    | Store
    | Accept
    | Read(conn: nat)
    | CloseConn(conn: nat)
    | Release(conn: nat)
    | CloseListener
    | ReadLoopEnded

  predicate Enabled(cfg: Config, s: State, a: Action) {
    match a
    case Receive(_, _) => s.reader == Reading && s.closes == 0
    case ReadFails => s.reader == Reading
    case Lookup => s.reader.Looking? && s.reader.d < |s.arrived| && !s.waiting
    case Deliver => s.reader.Found? && s.reader.conn < |s.conns|
    case CheckDone => s.reader.Missing?
    case Enqueue => s.reader.Creating? && s.reader.d < |s.arrived| && |s.queue| < cfg.Backlog()
    case RefuseClosed => s.reader.Creating? && s.done
    case RefuseFull => s.reader.Creating? && !s.done && |s.queue| >= cfg.Backlog()
    case Store => s.reader.Storing? && s.reader.conn < |s.conns| && !s.waiting
    case Accept => s.queue != [] && s.queue[0] < |s.conns|
    case Read(c) => c < |s.conns| && s.conns[c].accepted && s.conns[c].taken < |s.conns[c].got|
    case CloseConn(c) => c < |s.conns| && s.conns[c].accepted && !s.conns[c].done
    case Release(c) => c < |s.conns| && s.conns[c].done && !s.conns[c].released && !s.waiting
    case CloseListener => !s.waiting
    case ReadLoopEnded => s.waiting && s.reader == Exited
  }

  /** Lines 218-232, with the lock held: the last one out closes the socket and keeps the
      lock until the read loop has ended. */
  function TryCloseConn(s: State): State {
    if s.done && s.table == map[] then s.(closes := s.closes + 1, waiting := true) else s
  }

  function Apply(cfg: Config, s: State, a: Action): State
    requires Enabled(cfg, s, a)
  {
    match a
    case Receive(src, data) => s.(arrived := s.arrived + [Datagram(src, data)], reader := Looking(|s.arrived|))
    case ReadFails => s.(reader := Exited)
    case Lookup =>
      var d := s.reader.d;
      var addr := s.arrived[d].src;
      s.(reader := if addr in s.table then Found(d, s.table[addr]) else Missing(d))
    case Deliver =>
      var d, c := s.reader.d, s.conns[s.reader.conn];
      if |c.got| - c.taken < cfg.ReadBuffer()
      then s.(conns := s.conns[s.reader.conn := c.(got := c.got + [d])], reader := Reading)
      else s.(dropped := s.dropped[d := BufferExceeded], reader := Reading)
    case CheckDone =>
      var d := s.reader.d;
      if s.done then s.(dropped := s.dropped[d := ClosedListener], reader := Reading)
      else s.(reader := Creating(d))
    case Enqueue =>
      var c := Conn(s.arrived[s.reader.d].src, s.reader.d, [s.reader.d], 0, false, false, false, false);
      s.(conns := s.conns + [c], queue := s.queue + [|s.conns|], reader := Storing(|s.conns|))
    case RefuseClosed => s.(dropped := s.dropped[s.reader.d := ClosedListener], reader := Reading)
    case RefuseFull => s.(dropped := s.dropped[s.reader.d := QueueExceeded], reader := Reading)
    case Store => s.(table := s.table[s.conns[s.reader.conn].addr := s.reader.conn], reader := Reading)
    case Accept =>
      var c := s.queue[0];
      s.(queue := s.queue[1..], conns := s.conns[c := s.conns[c].(accepted := true)])
    case Read(c) => s.(conns := s.conns[c := s.conns[c].(taken := s.conns[c].taken + 1)])
    case CloseConn(c) => s.(conns := s.conns[c := s.conns[c].(done := true)])
    case Release(c) =>
      var conn := s.conns[c].(released := true, early := s.reader == Storing(c));
      TryCloseConn(s.(conns := s.conns[c := conn], table := s.table - {conn.addr}))
    case CloseListener => if s.done then s else TryCloseConn(s.(done := true))
    case ReadLoopEnded => s.(waiting := false)
  }

  const INIT := State([], map[], [], map[], [], false, 0, false, Reading)

  /** The state after some more actions, or None when one of them was not possible. */
  function Continue(cfg: Config, s: State, acts: seq<Action>): Option<State> {
    if acts == [] then Some(s)
    else
      var prev := Continue(cfg, s, acts[..|acts| - 1]);
      if prev.Some? && Enabled(cfg, prev.value, acts[|acts| - 1])
      then Some(Apply(cfg, prev.value, acts[|acts| - 1]))
      else None
  }

  function Run(cfg: Config, acts: seq<Action>): Option<State> {
    Continue(cfg, INIT, acts)
  }

  // ------------------------------------------------------------------ the table

  /** A connection that nobody released is in the table, or about to be stored there. */
  predicate Tracked(s: State, c: nat)
    requires c < |s.conns|
  {
    var conn := s.conns[c];
    && (conn.released ==> conn.done)
    && (conn.done ==> conn.accepted)
    && (!conn.released ==> s.reader == Storing(c) || (conn.addr in s.table && s.table[conn.addr] == c))
    && (conn.released && !conn.early ==> s.reader != Storing(c) && !(conn.addr in s.table && s.table[conn.addr] == c))
    && (conn.early ==> conn.released && (s.reader == Storing(c) || (conn.addr in s.table && s.table[conn.addr] == c)))
  }

  ghost predicate TableSound(s: State) {
    && (forall a :: a in s.table ==> s.table[a] < |s.conns| && s.conns[s.table[a]].addr == a)
    && (s.reader.Storing? ==> s.reader.conn < |s.conns| && s.conns[s.reader.conn].addr !in s.table)
    && (s.reader.Found? ==> s.reader.conn < |s.conns|)
    && (s.reader.Looking? || s.reader.Found? || s.reader.Missing? || s.reader.Creating? ==> s.reader.d < |s.arrived|)
    && (s.reader.Missing? || s.reader.Creating? ==> s.arrived[s.reader.d].src !in s.table)
  }

  /** The socket is closed once, when the listener is closed and the table is empty, and
      from then on the read loop only ends. */
  predicate SocketSound(s: State) {
    && s.closes <= 1
    && (s.done && s.table == map[] ==> s.closes == 1)
    && (s.closes == 1 ==> s.done && s.table == map[] && (s.waiting || s.reader == Exited))
    && (s.waiting ==> s.closes == 1)
  }

  /** Accept hands the connections out in the order in which they were created, each once;
      the ones still queued are the newest, and no more than the backlog. */
  predicate QueueSound(cfg: Config, s: State) {
    var n := |s.conns| - |s.queue|;
    && 0 <= n && |s.queue| <= cfg.Backlog()
    && (forall i :: 0 <= i < |s.queue| ==> s.queue[i] == n + i)
    && (forall c :: 0 <= c < |s.conns| ==> (s.conns[c].accepted <==> c < n))
  }

  lemma QueueStep(cfg: Config, s: State, a: Action)
    requires QueueSound(cfg, s) && Enabled(cfg, s, a)
    ensures QueueSound(cfg, Apply(cfg, s, a))
  {
    if a.Enqueue? || a.Accept? {
      QueueMoves(cfg, s, a);
    } else {
      QueueStays(cfg, s, a);
    }
  }

  lemma QueueMoves(cfg: Config, s: State, a: Action)
    requires QueueSound(cfg, s) && Enabled(cfg, s, a) && (a.Enqueue? || a.Accept?)
    ensures QueueSound(cfg, Apply(cfg, s, a))
  {
  }

  lemma QueueStays(cfg: Config, s: State, a: Action)
    requires QueueSound(cfg, s) && Enabled(cfg, s, a) && !a.Enqueue? && !a.Accept?
    ensures QueueSound(cfg, Apply(cfg, s, a))
  {
    var s' := Apply(cfg, s, a);
    assert s'.queue == s.queue && |s'.conns| == |s.conns|;
    assert forall c :: 0 <= c < |s.conns| ==> s'.conns[c].accepted == s.conns[c].accepted;
  }

  ghost predicate Tracking(s: State) {
    && TableSound(s) && SocketSound(s)
    && forall c :: 0 <= c < |s.conns| ==> Tracked(s, c)
  }

  /** Closing a connection removes it and nothing else: an older connection of the same
      address, closed again or late, never takes a newer one out of the table. */
  lemma ReleaseRemovesOnlyItself(cfg: Config, s: State, c: nat)
    requires Tracking(s) && Enabled(cfg, s, Release(c))
    ensures forall a :: a in s.table && s.table[a] != c ==> a in s.table - {s.conns[c].addr}
    ensures s.reader != Storing(c) ==> s.conns[c].addr in s.table && s.table[s.conns[c].addr] == c
  {
    assert Tracked(s, c);
  }

  lemma ConnStepTracked(cfg: Config, s: State, a: Action, c: nat)
    requires Tracking(s) && Enabled(cfg, s, a) && c < |Apply(cfg, s, a).conns|
    ensures Tracked(Apply(cfg, s, a), c)
  {
    if c < |s.conns| {
      assert Tracked(s, c);
    }
    if a.Release? {
      ReleaseTracked(cfg, s, a, c);
    } else if a.Receive? || a.ReadFails? || a.Lookup? || a.CheckDone? || a.RefuseClosed? || a.RefuseFull? || a.CloseListener? || a.ReadLoopEnded? {
      assert Apply(cfg, s, a).conns == s.conns && Apply(cfg, s, a).table == s.table;
      assert (!s.reader.Storing? && !Apply(cfg, s, a).reader.Storing?) || Apply(cfg, s, a).reader == s.reader;
    } else {
      OthersTracked(cfg, s, a, c);
    }
  }

  lemma ReleaseTracked(cfg: Config, s: State, a: Action, c: nat)
    requires Tracking(s) && Enabled(cfg, s, a) && a.Release? && c < |s.conns|
    ensures Tracked(Apply(cfg, s, a), c)
  {
    assert Tracked(s, c) && Tracked(s, a.conn);
  }

  lemma OthersTracked(cfg: Config, s: State, a: Action, c: nat)
    requires TableSound(s) && Enabled(cfg, s, a) && c < |Apply(cfg, s, a).conns|
    requires a.Deliver? || a.Enqueue? || a.Store? || a.Accept? || a.Read? || a.CloseConn?
    requires c < |s.conns| ==> Tracked(s, c)
    ensures Tracked(Apply(cfg, s, a), c)
  {
    if a.Deliver? || a.Accept? || a.Read? || a.CloseConn? {
      SameTableTracked(cfg, s, a, c);
    }
  }

  lemma SameTableTracked(cfg: Config, s: State, a: Action, c: nat)
    requires Enabled(cfg, s, a) && c < |Apply(cfg, s, a).conns|
    requires a.Deliver? || a.Accept? || a.Read? || a.CloseConn?
    requires c < |s.conns| && Tracked(s, c)
    ensures Tracked(Apply(cfg, s, a), c)
  {
  }

  lemma TableStep(cfg: Config, s: State, a: Action)
    requires Tracking(s) && Enabled(cfg, s, a)
    ensures TableSound(Apply(cfg, s, a))
  {
    if a.Release? {
      ReleaseKeepsTable(cfg, s, a);
    } else if a.Receive? || a.ReadFails? || a.Lookup? || a.CheckDone? || a.RefuseClosed? || a.RefuseFull? || a.CloseListener? || a.ReadLoopEnded? {
      assert Apply(cfg, s, a).conns == s.conns && Apply(cfg, s, a).table == s.table && s.arrived <= Apply(cfg, s, a).arrived;
    } else {
      OthersKeepTable(cfg, s, a);
    }
  }

  lemma ReleaseKeepsTable(cfg: Config, s: State, a: Action)
    requires TableSound(s) && Enabled(cfg, s, a) && a.Release?
    ensures TableSound(Apply(cfg, s, a))
  {
  }

  lemma OthersKeepTable(cfg: Config, s: State, a: Action)
    requires TableSound(s) && Enabled(cfg, s, a)
    requires a.Deliver? || a.Enqueue? || a.Store? || a.Accept? || a.Read? || a.CloseConn?
    ensures TableSound(Apply(cfg, s, a))
  {
  }

  lemma SocketStep(cfg: Config, s: State, a: Action)
    requires Tracking(s) && Enabled(cfg, s, a)
    ensures SocketSound(Apply(cfg, s, a))
  {
    if a.Release? {
      assert Tracked(s, a.conn);
    }
  }

  lemma TrackingStep(cfg: Config, s: State, a: Action)
    requires Tracking(s) && Enabled(cfg, s, a)
    ensures Tracking(Apply(cfg, s, a))
  {
    TableStep(cfg, s, a);
    SocketStep(cfg, s, a);
    forall c | 0 <= c < |Apply(cfg, s, a).conns| ensures Tracked(Apply(cfg, s, a), c) {
      ConnStepTracked(cfg, s, a, c);
    }
  }

  // ------------------------------------------------------------------ the datagrams

  predicate Increasing(ns: seq<nat>) {
    forall i, j :: 0 <= i < j < |ns| ==> ns[i] < ns[j]
  }

  /** The channel of a connection never holds more than the read buffer, and what was put
      into it begins with the datagram that created the connection. */
  predicate Buffered(cfg: Config, conn: Conn) {
    && conn.got != [] && conn.got[0] == conn.created && conn.taken <= |conn.got|
    && |conn.got| - conn.taken <= cfg.ReadBuffer()
    && Increasing(conn.got)
  }

  /** What it got came from its own address, before whatever the read loop has in hand. */
  ghost predicate OwnTraffic(s: State, conn: Conn) {
    forall i :: i in conn.got ==>
      i < |s.arrived| && s.arrived[i].src == conn.addr && !s.reader.Holds(i)
  }

  ghost predicate GotBy(s: State, c: nat, i: nat) {
    c < |s.conns| && i in s.conns[c].got
  }

  /** Every datagram is in the read loop's hands, dropped, or in exactly one connection. */
  ghost predicate AtOnePlace(s: State, i: nat) {
    && (s.reader.Holds(i) ==> i == |s.arrived| - 1 && i !in s.dropped)
    && (i in s.dropped ==> i < |s.arrived| && forall c :: !GotBy(s, c, i))
    && (forall c, e :: GotBy(s, c, i) && GotBy(s, e, i) ==> c == e)
    && (i < |s.arrived| && !s.reader.Holds(i) && i !in s.dropped ==> exists c :: GotBy(s, c, i))
  }

  ghost predicate Traffic(cfg: Config, s: State) {
    && TableSound(s)
    && (forall c :: 0 <= c < |s.conns| ==> Buffered(cfg, s.conns[c]) && OwnTraffic(s, s.conns[c]))
    && (forall i: nat :: AtOnePlace(s, i))
    && (s.reader.Found? ==> s.conns[s.reader.conn].addr == s.arrived[s.reader.d].src)
  }

  // Only Deliver and Enqueue move a datagram into a connection.

  lemma OthersKeepGot(cfg: Config, s: State, a: Action)
    requires Enabled(cfg, s, a) && !a.Deliver? && !a.Enqueue?
    ensures var s' := Apply(cfg, s, a);
      && |s'.conns| == |s.conns|
      && s.arrived <= s'.arrived
      && (forall c :: 0 <= c < |s.conns| ==>
            s'.conns[c].got == s.conns[c].got && s'.conns[c].addr == s.conns[c].addr
            && s'.conns[c].created == s.conns[c].created
            && (s'.conns[c].taken == s.conns[c].taken
                || (s.conns[c].taken < s'.conns[c].taken == s.conns[c].taken + 1 <= |s.conns[c].got|)))
  {
  }

  lemma OthersKeepConns(cfg: Config, s: State, a: Action)
    requires Traffic(cfg, s) && Enabled(cfg, s, a) && !a.Deliver? && !a.Enqueue?
    ensures var s' := Apply(cfg, s, a);
      forall c :: 0 <= c < |s'.conns| ==> Buffered(cfg, s'.conns[c]) && OwnTraffic(s', s'.conns[c])
  {
    var s' := Apply(cfg, s, a);
    OthersKeepGot(cfg, s, a);
    forall c | 0 <= c < |s'.conns| ensures Buffered(cfg, s'.conns[c]) && OwnTraffic(s', s'.conns[c]) {
      assert Buffered(cfg, s.conns[c]) && OwnTraffic(s, s.conns[c]);
    }
  }

  lemma OthersKeepPlaces(cfg: Config, s: State, a: Action, i: nat)
    requires TableSound(s) && AtOnePlace(s, i) && Enabled(cfg, s, a) && !a.Deliver? && !a.Enqueue?
    requires forall c :: 0 <= c < |s.conns| ==> OwnTraffic(s, s.conns[c])
    ensures AtOnePlace(Apply(cfg, s, a), i)
  {
    var s' := Apply(cfg, s, a);
    OthersKeepGot(cfg, s, a);
    assert forall c :: GotBy(s', c, i) <==> GotBy(s, c, i);
  }

  lemma Append(ns: seq<nat>, d: nat)
    requires Increasing(ns) && forall n :: n in ns ==> n < d
    ensures Increasing(ns + [d])
  {
    assert forall i :: 0 <= i < |ns| ==> ns[i] in ns;
  }

  lemma DeliverConns(cfg: Config, s: State, c: nat)
    requires Enabled(cfg, s, Deliver) && c < |s.conns|
    requires s.reader.d == |s.arrived| - 1 && s.conns[s.reader.conn].addr == s.arrived[s.reader.d].src
    requires Buffered(cfg, s.conns[c]) && OwnTraffic(s, s.conns[c])
    ensures var s' := Apply(cfg, s, Deliver); Buffered(cfg, s'.conns[c]) && OwnTraffic(s', s'.conns[c])
  {
    var s' := Apply(cfg, s, Deliver);
    var d := s.reader.d;
    assert s.reader.Holds(d);
    assert forall i :: i in s.conns[c].got ==> i < d;
    Append(s.conns[c].got, d);
    assert s'.conns[c] == s.conns[c] || s'.conns[c] == s.conns[c].(got := s.conns[c].got + [d]);
  }

  lemma HeldIsNowhere(cfg: Config, s: State)
    requires Traffic(cfg, s) && s.reader.Found?
    ensures s.reader.d < |s.arrived| && forall c: nat :: !GotBy(s, c, s.reader.d)
  {
    var d := s.reader.d;
    assert s.reader.Holds(d);
    forall c: nat | c < |s.conns| ensures d !in s.conns[c].got {
      assert OwnTraffic(s, s.conns[c]);
    }
  }

  lemma DeliverPlaces(cfg: Config, s: State, i: nat)
    requires Enabled(cfg, s, Deliver) && AtOnePlace(s, i)
    requires s.reader.d < |s.arrived| && forall c: nat :: !GotBy(s, c, s.reader.d)
    ensures AtOnePlace(Apply(cfg, s, Deliver), i)
  {
    var s' := Apply(cfg, s, Deliver);
    var d, e := s.reader.d, s.reader.conn;
    assert s.reader.Holds(d);
    if |s.conns[e].got| - s.conns[e].taken < cfg.ReadBuffer() {
      assert forall c :: GotBy(s', c, i) <==> GotBy(s, c, i) || (c == e && i == d);
      assert GotBy(s', e, d);
    } else {
      assert forall c :: GotBy(s', c, i) <==> GotBy(s, c, i);
    }
  }

  lemma EnqueueTraffic(cfg: Config, s: State, c: nat, i: nat)
    requires Traffic(cfg, s) && Enabled(cfg, s, Enqueue)
    ensures var s' := Apply(cfg, s, Enqueue);
      && (c < |s'.conns| ==> Buffered(cfg, s'.conns[c]) && OwnTraffic(s', s'.conns[c]))
      && AtOnePlace(s', i)
  {
    var s' := Apply(cfg, s, Enqueue);
    var d, e := s.reader.d, |s.conns|;
    assert AtOnePlace(s, i) && AtOnePlace(s, d) && s.reader.Holds(d);
    assert forall c :: GotBy(s', c, i) <==> GotBy(s, c, i) || (c == e && i == d);
    assert forall c: nat | c < |s.conns| :: OwnTraffic(s, s.conns[c]);
    assert GotBy(s', e, d);
  }

  lemma TrafficStep(cfg: Config, s: State, a: Action)
    requires Traffic(cfg, s) && Enabled(cfg, s, a) && TableSound(Apply(cfg, s, a))
    ensures Traffic(cfg, Apply(cfg, s, a))
  {
    var s' := Apply(cfg, s, a);
    if a.Deliver? {
      assert AtOnePlace(s, s.reader.d) && s.reader.Holds(s.reader.d);
    }
    forall c | 0 <= c < |s'.conns| ensures Buffered(cfg, s'.conns[c]) && OwnTraffic(s', s'.conns[c]) {
      if a.Deliver? {
        DeliverConns(cfg, s, c);
      } else if a.Enqueue? {
        EnqueueTraffic(cfg, s, c, 0);
      } else {
        OthersKeepConns(cfg, s, a);
      }
    }
    forall i: nat ensures AtOnePlace(s', i) {
      assert AtOnePlace(s, i);
      if a.Deliver? {
        HeldIsNowhere(cfg, s);
        DeliverPlaces(cfg, s, i);
      } else if a.Enqueue? {
        EnqueueTraffic(cfg, s, 0, i);
      } else {
        OthersKeepPlaces(cfg, s, a, i);
      }
    }
  }

  lemma {:induction false} RunsKeepInvariants(cfg: Config, acts: seq<Action>)
    requires Run(cfg, acts).Some?
    ensures Tracking(Run(cfg, acts).value) && Traffic(cfg, Run(cfg, acts).value)
    ensures QueueSound(cfg, Run(cfg, acts).value)
  {
    if acts != [] {
      var prev, a := Run(cfg, acts[..|acts| - 1]).value, acts[|acts| - 1];
      RunsKeepInvariants(cfg, acts[..|acts| - 1]);
      TrackingStep(cfg, prev, a);
      TrafficStep(cfg, prev, a);
      QueueStep(cfg, prev, a);
    }
  }

  // ------------------------------------------------------------------ results

  /** Some interleaving leads to this state. */
  ghost predicate Reachable(cfg: Config, s: State) {
    exists acts :: Run(cfg, acts) == Some(s)
  }

  lemma ReachableKeepsInvariants(cfg: Config, s: State)
    requires Reachable(cfg, s)
    ensures Tracking(s) && Traffic(cfg, s) && QueueSound(cfg, s)
  {
    var acts :| Run(cfg, acts) == Some(s);
    RunsKeepInvariants(cfg, acts);
  }

  /** What was read from a connection followed by what it still buffers are datagrams of its
      own address, in order of arrival and each at most once, starting with the one that
      created it; and the unread part fits the buffer. */
  ghost predicate Demultiplexed(cfg: Config, s: State, conn: Conn) {
    && conn.got != [] && conn.got[0] == conn.created
    && conn.taken <= |conn.got| && Increasing(conn.got)
    && (forall k :: 0 <= k < |conn.got| ==> conn.got[k] < |s.arrived| && s.arrived[conn.got[k]].src == conn.addr)
    && |conn.got[conn.taken..]| <= cfg.ReadBuffer()
  }

  lemma OwnTrafficIsDemultiplexed(cfg: Config, s: State, conn: Conn)
    requires Buffered(cfg, conn) && OwnTraffic(s, conn)
    ensures Demultiplexed(cfg, s, conn)
  {
    assert forall k :: 0 <= k < |conn.got| ==> conn.got[k] in conn.got;
  }

  /** Demultiplexing, in every interleaving. */
  lemma Demultiplexing(cfg: Config, s: State, c: nat)
    requires Reachable(cfg, s) && c < |s.conns|
    ensures Demultiplexed(cfg, s, s.conns[c])
  {
    ReachableKeepsInvariants(cfg, s);
    OwnTrafficIsDemultiplexed(cfg, s, s.conns[c]);
  }

  /** No datagram is delivered twice, and none disappears without an error: when the read
      loop is between datagrams, each is in exactly one connection or was reported dropped. */
  lemma NoDatagramTwice(cfg: Config, s: State, i: nat)
    requires Reachable(cfg, s) && i < |s.arrived|
    ensures
      && (forall c, e :: GotBy(s, c, i) && GotBy(s, e, i) ==> c == e)
      && (s.reader == Reading ==> (i in s.dropped <==> !exists c :: GotBy(s, c, i)))
  {
    ReachableKeepsInvariants(cfg, s);
    assert AtOnePlace(s, i);
  }

  // What is dropped, and why.

  function Unread(conn: Conn): seq<nat>
    requires conn.taken <= |conn.got|
  {
    conn.got[conn.taken..]
  }

  /** What `dispatch` finds in the way of datagram `d`: the connection's buffer is full, the
      accept queue is full, or the listener is closed. */
  predicate InTheWay(cfg: Config, s: State, d: nat, why: Drop) {
    match why
    case BufferExceeded =>
      && s.reader.Found? && s.reader.d == d && s.reader.conn < |s.conns|
      && s.conns[s.reader.conn].taken <= |s.conns[s.reader.conn].got|
      && |Unread(s.conns[s.reader.conn])| == if cfg.readBufferSize <= 0 then 512 else cfg.readBufferSize
    case QueueExceeded =>
      s.reader == Creating(d) && !s.done && |s.queue| == if cfg.connBacklog <= 0 then 128 else cfg.connBacklog
    case ClosedListener => s.done && (s.reader == Missing(d) || s.reader == Creating(d))
  }

  /** Delivery: the datagram goes to the connection of its address iff fewer datagrams than
      the read buffer holds are unread there, and is dropped otherwise. */
  lemma DeliveredUnlessFull(cfg: Config, s: State)
    requires Reachable(cfg, s) && Enabled(cfg, s, Deliver)
    ensures var s', c, d := Apply(cfg, s, Deliver), s.reader.conn, s.reader.d;
      && d < |s.arrived| && s.conns[c].addr == s.arrived[d].src && |s'.conns| == |s.conns|
      && s.conns[c].taken <= |s.conns[c].got| && s'.conns[c].taken <= |s'.conns[c].got| && s'.reader == Reading
      && Unread(s'.conns[c]) == Unread(s.conns[c]) + (if InTheWay(cfg, s, d, BufferExceeded) then [] else [d])
      && (d in s'.dropped <==> InTheWay(cfg, s, d, BufferExceeded))
      && forall e :: 0 <= e < |s.conns| && e != c ==> s'.conns[e] == s.conns[e]
  {
    ReachableKeepsInvariants(cfg, s);
    assert s.reader.Holds(s.reader.d) && AtOnePlace(s, s.reader.d);
    assert Buffered(cfg, s.conns[s.reader.conn]);
  }

  /** A step drops the datagram in hand for a reason, and no other; nothing is forgotten. */
  lemma DropStep(cfg: Config, s: State, a: Action, d: nat)
    requires Tracking(s) && Traffic(cfg, s) && QueueSound(cfg, s) && Enabled(cfg, s, a)
    ensures d in s.dropped ==> d in Apply(cfg, s, a).dropped && Apply(cfg, s, a).dropped[d] == s.dropped[d]
    ensures d in Apply(cfg, s, a).dropped && d !in s.dropped ==> InTheWay(cfg, s, d, Apply(cfg, s, a).dropped[d])
  {
    assert AtOnePlace(s, d);
    if s.reader.Found? {
      assert Buffered(cfg, s.conns[s.reader.conn]);
    }
  }

  /** Over all runs: whatever was dropped was held by the read loop while its reason was in
      the way. */
  lemma {:induction false} DroppedForAReason(cfg: Config, acts: seq<Action>, d: nat) returns (k: nat)
    requires Run(cfg, acts).Some? && d in Run(cfg, acts).value.dropped
    ensures k < |acts| && Run(cfg, acts[..k]).Some?
    ensures InTheWay(cfg, Run(cfg, acts[..k]).value, d, Run(cfg, acts).value.dropped[d])
  {
    var before := acts[..|acts| - 1];
    RunsKeepInvariants(cfg, before);
    DropStep(cfg, Run(cfg, before).value, acts[|acts| - 1], d);
    if d in Run(cfg, before).value.dropped {
      k := DroppedForAReason(cfg, before, d);
      assert before[..k] == acts[..k];
    } else {
      k := |acts| - 1;
    }
  }

  lemma LastStep(cfg: Config, s: State, acts: seq<Action>, a: Action)
    ensures var prev := Continue(cfg, s, acts);
      Continue(cfg, s, acts + [a]) == if prev.Some? && Enabled(cfg, prev.value, a) then Some(Apply(cfg, prev.value, a)) else None
  {
    assert (acts + [a])[..|acts|] == acts;
  }

  lemma {:induction false} GoOn(cfg: Config, s: State, a: Action, t: State, acts: seq<Action>)
    requires Enabled(cfg, s, a) && Continue(cfg, Apply(cfg, s, a), acts) == Some(t)
    ensures Continue(cfg, s, [a] + acts) == Some(t)
    decreases |acts|
  {
    if acts == [] {
      LastStep(cfg, s, [], a);
      assert [a] + acts == [] + [a];
    } else {
      var init, last := acts[..|acts| - 1], acts[|acts| - 1];
      assert acts == init + [last] && [a] + acts == ([a] + init) + [last];
      LastStep(cfg, Apply(cfg, s, a), init, last);
      LastStep(cfg, s, [a] + init, last);
      GoOn(cfg, s, a, Continue(cfg, Apply(cfg, s, a), init).value, init);
    }
  }

  predicate IsDispatchStep(a: Action) {
    a.Lookup? || a.Deliver? || a.CheckDone? || a.Enqueue? || a.RefuseClosed? || a.RefuseFull? || a.Store?
  }

  function StepsLeft(r: Reader): nat {
    match r
    case Reading => 0
    case Looking(_) => 5
    case Found(_, _) => 1
    case Missing(_) => 4
    case Creating(_) => 3
    case Storing(_) => 2
    case Exited => 0
  }

  /** The next step of `dispatch`.  It gives a new connection up iff the listener is closed or
      the accept queue is full. */
  lemma DispatchGoesOn(cfg: Config, s: State) returns (a: Action)
    requires Reachable(cfg, s) && !s.waiting && s.reader != Reading && s.reader != Exited
    ensures IsDispatchStep(a) && Enabled(cfg, s, a)
    ensures StepsLeft(Apply(cfg, s, a).reader) < StepsLeft(s.reader) && Apply(cfg, s, a).reader != Exited
    ensures !Apply(cfg, s, a).waiting && Reachable(cfg, Apply(cfg, s, a))
    ensures s.reader.Creating? ==>
      (Apply(cfg, s, a).conns == s.conns <==> s.done || |s.queue| == if cfg.connBacklog <= 0 then 128 else cfg.connBacklog)
  {
    ReachableKeepsInvariants(cfg, s);
    match s.reader {
      case Looking(_) => a := Lookup;
      case Found(_, _) => a := Deliver;
      case Missing(_) => a := CheckDone;
      case Creating(_) => a := if s.done then RefuseClosed else if |s.queue| < cfg.Backlog() then Enqueue else RefuseFull;
      case Storing(_) => a := Store;
    }
    Step(cfg, s, a, Apply(cfg, s, a));
  }

  /** The read loop is never stuck in `dispatch`, unless a closer waits for it: by its own
      steps alone it gets back to reading, and then the datagram it had in hand is in a
      connection or dropped. */
  lemma {:induction false} DispatchEnds(cfg: Config, s: State) returns (acts: seq<Action>)
    requires Reachable(cfg, s) && !s.waiting && s.reader != Exited
    ensures Continue(cfg, s, acts).Some? && Continue(cfg, s, acts).value.reader == Reading
    ensures forall k :: 0 <= k < |acts| ==> IsDispatchStep(acts[k])
    decreases StepsLeft(s.reader)
  {
    if s.reader == Reading {
      acts := [];
    } else {
      var a := DispatchGoesOn(cfg, s);
      var more := DispatchEnds(cfg, Apply(cfg, s, a));
      GoOn(cfg, s, a, Continue(cfg, Apply(cfg, s, a), more).value, more);
      acts := [a] + more;
    }
  }

  /** The listener counts as closed iff Close was called. */
  lemma {:induction false} ClosedExactlyWhen(cfg: Config, acts: seq<Action>)
    requires Run(cfg, acts).Some?
    ensures Run(cfg, acts).value.done <==> CloseListener in acts
  {
    if acts != [] {
      ClosedExactlyWhen(cfg, acts[..|acts| - 1]);
      assert acts == acts[..|acts| - 1] + [acts[|acts| - 1]];
    }
  }

  /** Two connections that nobody released belong to different addresses. */
  lemma OneConnPerAddress(cfg: Config, s: State, c: nat, e: nat)
    requires Reachable(cfg, s) && c < e < |s.conns|
    requires !s.conns[c].released && !s.conns[e].released
    ensures s.conns[c].addr != s.conns[e].addr
  {
    ReachableKeepsInvariants(cfg, s);
    assert Tracked(s, c) && Tracked(s, e);
  }

  /** Socket lifetime, in every interleaving: the socket is closed iff the listener is closed
      and the table is empty, and it is closed at most once. */
  lemma SocketLifetime(cfg: Config, s: State)
    requires Reachable(cfg, s)
    ensures
      && s.closes <= 1
      && (s.closes == 1 <==> s.done && s.table == map[])
  {
    ReachableKeepsInvariants(cfg, s);
  }

  /** A connection was closed by its owner before `dispatch` stored it. */
  predicate ClosedEarly(s: State) {
    exists c :: 0 <= c < |s.conns| && s.conns[c].early
  }

  /** The table holds the connections that are still open, plus those that were closed
      before they were stored: nobody takes these out again. */
  lemma TableIsOpenConns(cfg: Config, s: State, c: nat)
    requires Reachable(cfg, s) && c < |s.conns|
    requires !s.reader.Storing?
    ensures c in s.table.Values <==> !s.conns[c].released || s.conns[c].early
  {
    ReachableKeepsInvariants(cfg, s);
    assert Tracked(s, c);
    if c in s.table.Values {
      var a :| a in s.table && s.table[a] == c;
      assert s.conns[c].addr == a;
    } else {
      assert s.conns[c].addr in s.table && s.table[s.conns[c].addr] == c ==> c in s.table.Values;
    }
  }

  /** An accepted connection that was not closed yet. */
  predicate StillOpen(s: State, c: nat) {
    c < |s.conns| && s.conns[c].accepted && !s.conns[c].released
  }

  /** The table has an entry that is no open accepted connection: one that was closed before
      it was stored, or one that was stored and not accepted. */
  ghost predicate Stale(s: State) {
    (exists c: nat :: Leaked(s, c)) || (exists c :: c in s.queue && s.reader != Storing(c))
  }

  /** When the socket is closed, in every reachable state: the listener is closed, no entry
      is stale, and the only accepted connection that may still be open is the one that
      `dispatch` has offered and not stored yet. */
  lemma SocketClosedExactlyWhen(cfg: Config, s: State)
    requires Reachable(cfg, s)
    ensures s.closes == 1 <==> s.done && !Stale(s) && forall c: nat :: StillOpen(s, c) ==> s.reader == Storing(c)
  {
    ReachableKeepsInvariants(cfg, s);
    if s.table == map[] {
      EmptyTable(cfg, s);
    } else {
      var a :| a in s.table;
      InTable(cfg, s, a);
      assert StillOpen(s, s.table[a]) || Stale(s);
    }
  }

  /** The promise of Close: the socket is closed once the accepted connections are, and not
      before. */
  ghost predicate PromiseKept(s: State) {
    s.closes == 1 <==> forall c: nat :: !StillOpen(s, c)
  }

  /** Everything but the connection being stored is gone, and that one is accepted and open. */
  ghost predicate OnlyBeingStored(s: State) {
    && s.reader.Storing? && StillOpen(s, s.reader.conn) && !Stale(s)
    && forall c: nat :: StillOpen(s, c) ==> c == s.reader.conn
  }

  /** Exactly when the promise is kept after the listener was closed.  It fails in two ways:
      a stale entry keeps the socket open for nobody, or the socket is closed while the
      connection that is being stored is accepted and open. */
  lemma PromiseKeptExactlyWhen(cfg: Config, s: State)
    requires Reachable(cfg, s) && s.done
    ensures PromiseKept(s) <==>
      !OnlyBeingStored(s) && !(Stale(s) && forall c: nat :: !StillOpen(s, c))
  {
    SocketClosedExactlyWhen(cfg, s);
  }

  /** The second way: the socket is closed under an open connection only while the closer
      holds the lock and waits for the read loop, which waits for that lock to store it. */
  lemma ClosedUnderOpenConn(cfg: Config, s: State, c: nat)
    requires Reachable(cfg, s) && s.closes == 1 && StillOpen(s, c)
    ensures s.reader == Storing(c) && s.waiting
  {
    ReachableKeepsInvariants(cfg, s);
    assert Tracked(s, c);
  }

  lemma EmptyTable(cfg: Config, s: State)
    requires Tracking(s) && QueueSound(cfg, s) && s.table == map[]
    ensures forall c: nat :: !Leaked(s, c)
    ensures forall c :: c in s.queue ==> s.reader == Storing(c)
    ensures forall c: nat :: StillOpen(s, c) ==> s.reader == Storing(c)
  {
    forall c: nat | c < |s.conns| ensures !Leaked(s, c) && (!s.conns[c].released ==> s.reader == Storing(c)) {
      assert Tracked(s, c);
    }
    forall c | c in s.queue ensures c < |s.conns| && !s.conns[c].released {
      var i :| 0 <= i < |s.queue| && s.queue[i] == c;
      assert Tracked(s, c);
    }
  }

  /** What is in the table is open or closed too early; if it is open and was not accepted it
      is in the queue. */
  lemma InTable(cfg: Config, s: State, a: Addr)
    requires Tracking(s) && QueueSound(cfg, s) && a in s.table
    ensures var c := s.table[a];
      && c < |s.conns| && s.reader != Storing(c)
      && (s.conns[c].released ==> Leaked(s, c)) && (!s.conns[c].accepted ==> c in s.queue)
  {
    var c := s.table[a];
    assert Tracked(s, c);
    var i := c - (|s.conns| - |s.queue|);
    assert !s.conns[c].accepted ==> 0 <= i < |s.queue| && s.queue[i] == c;
  }

  /** Between two datagrams that reads: the socket is closed iff the listener and all
      accepted connections are, nothing was closed too early and nobody waits. */
  lemma SocketClosedBetweenDatagrams(cfg: Config, s: State)
    requires Reachable(cfg, s) && !s.reader.Storing?
    ensures s.closes == 1 <==>
      s.done && (forall c: nat :: !StillOpen(s, c)) && !ClosedEarly(s) && s.queue == []
  {
    SocketClosedExactlyWhen(cfg, s);
    assert forall c: nat | c < |s.conns| :: s.conns[c].early == Leaked(s, c);
    assert s.queue != [] ==> s.queue[0] in s.queue;
  }

  /** A connection that was closed early and then stored. */
  predicate Leaked(s: State, c: nat) {
    c < |s.conns| && s.conns[c].early && s.reader != Storing(c)
  }

  lemma LeakStays(cfg: Config, s: State, a: Action, c: nat)
    requires Tracking(s) && Enabled(cfg, s, a) && Leaked(s, c)
    ensures Leaked(Apply(cfg, s, a), c)
  {
    assert Tracked(s, c);
  }

  lemma LeakKeepsSocketOpen(s: State, c: nat)
    requires Tracking(s) && Leaked(s, c)
    ensures s.closes == 0
  {
    assert Tracked(s, c);
  }

  lemma Step(cfg: Config, s: State, a: Action, t: State)
    requires Reachable(cfg, s) && Enabled(cfg, s, a) && t == Apply(cfg, s, a)
    ensures Reachable(cfg, t)
  {
    var acts :| Run(cfg, acts) == Some(s);
    assert (acts + [a])[..|acts + [a]| - 1] == acts;
    assert Run(cfg, acts + [a]) == Some(t);
  }

  /** What a connection got is only ever extended, and the datagram that created it stays
      the first, in every continuation. */
  lemma {:induction false} FirstStays(cfg: Config, s: State, acts: seq<Action>, c: nat)
    requires Reachable(cfg, s) && c < |s.conns| && Continue(cfg, s, acts).Some?
    ensures var t := Continue(cfg, s, acts).value;
      && Reachable(cfg, t) && c < |t.conns| && s.conns[c].got <= t.conns[c].got
      && t.conns[c].got != [] && t.conns[c].got[0] == t.conns[c].created == s.conns[c].created
  {
    if acts != [] {
      var before := acts[..|acts| - 1];
      FirstStays(cfg, s, before, c);
      GotGrows(cfg, Continue(cfg, s, before).value, acts[|acts| - 1], c);
      Step(cfg, Continue(cfg, s, before).value, acts[|acts| - 1], Continue(cfg, s, acts).value);
    }
    ReachableKeepsInvariants(cfg, Continue(cfg, s, acts).value);
    assert Buffered(cfg, Continue(cfg, s, acts).value.conns[c]);
  }

  lemma GotGrows(cfg: Config, s: State, a: Action, c: nat)
    requires Enabled(cfg, s, a) && c < |s.conns|
    ensures c < |Apply(cfg, s, a).conns| && s.conns[c].got <= Apply(cfg, s, a).conns[c].got
    ensures Apply(cfg, s, a).conns[c].created == s.conns[c].created
  {
  }

  /** It keeps the socket open in every continuation, whatever is closed afterwards. */
  lemma {:induction false} EarlyCloseLeaks(cfg: Config, s: State, acts: seq<Action>, c: nat)
    requires Reachable(cfg, s) && Leaked(s, c) && Continue(cfg, s, acts).Some?
    ensures var t := Continue(cfg, s, acts).value; Reachable(cfg, t) && Leaked(t, c) && t.closes == 0
  {
    if acts != [] {
      var before := acts[..|acts| - 1];
      EarlyCloseLeaks(cfg, s, before, c);
      var prev := Continue(cfg, s, before).value;
      Step(cfg, prev, acts[|acts| - 1], Continue(cfg, s, acts).value);
      ReachableKeepsInvariants(cfg, prev);
      LeakStays(cfg, prev, acts[|acts| - 1], c);
    }
    ReachableKeepsInvariants(cfg, Continue(cfg, s, acts).value);
    LeakKeepsSocketOpen(Continue(cfg, s, acts).value, c);
  }

  /** Neither of them ever goes on: nothing is stored, looked up or released any more. */
  lemma {:induction false} DeadlockStays(cfg: Config, s: State, acts: seq<Action>)
    requires s.waiting && (s.reader.Looking? || s.reader.Storing?) && Continue(cfg, s, acts).Some?
    ensures var t := Continue(cfg, s, acts).value;
      && t.waiting && t.reader == s.reader && t.table == s.table && t.arrived == s.arrived
      && |t.conns| == |s.conns| && forall c :: 0 <= c < |s.conns| ==> t.conns[c].released == s.conns[c].released
  {
    if acts != [] {
      DeadlockStays(cfg, s, acts[..|acts| - 1]);
    }
  }

  // ------------------------------------------------------------------ runs

  /** A first datagram has been received and its connection offered, not stored. */
  function Offered(conn: Conn): State {
    INIT.(arrived := [Datagram("a", "x")], reader := Storing(0), conns := [conn], queue := if conn.accepted then [] else [0])
  }

  const FRESH := Conn("a", 0, [0], 0, false, false, false, false)

  lemma OfferedIsReachable(cfg: Config)
    ensures Reachable(cfg, Offered(FRESH)) && Reachable(cfg, Offered(FRESH.(accepted := true)))
  {
    var s1 := INIT.(arrived := [Datagram("a", "x")], reader := Looking(0));
    var s2, s3 := s1.(reader := Missing(0)), s1.(reader := Creating(0));
    assert Reachable(cfg, INIT) by { assert Run(cfg, []) == Some(INIT); }
    assert Reachable(cfg, s1) by { Step(cfg, INIT, Receive("a", "x"), s1); }
    assert Reachable(cfg, s2) by { Step(cfg, s1, Lookup, s2); }
    assert Reachable(cfg, s3) by { Step(cfg, s2, CheckDone, s3); }
    assert Reachable(cfg, Offered(FRESH)) by { Step(cfg, s3, Enqueue, Offered(FRESH)); }
    Step(cfg, Offered(FRESH), Accept, Offered(FRESH.(accepted := true)));
  }

  /** A connection closed too early exists: it is accepted and closed while its datagram is
      still being dispatched. */
  lemma EarlyCloseHappens(cfg: Config) returns (s: State)
    ensures Reachable(cfg, s) && Leaked(s, 0)
  {
    var c1 := FRESH.(accepted := true);
    var c2 := c1.(done := true);
    var c3 := c2.(released := true, early := true);
    s := Offered(c3).(table := map["a" := 0], reader := Reading);
    OfferedIsReachable(cfg);
    assert Reachable(cfg, Offered(c2)) by { Step(cfg, Offered(c1), CloseConn(0), Offered(c2)); }
    assert Reachable(cfg, Offered(c3)) by { Step(cfg, Offered(c2), Release(0), Offered(c3)); }
    assert Reachable(cfg, s) by { Step(cfg, Offered(c3), Store, s); }
  }

  /** The connection has been stored, with the listener open or closed. */
  function Backlog(closed: bool): State {
    Offered(FRESH).(table := map["a" := 0], reader := Reading, done := closed)
  }

  lemma BacklogIsReachable(cfg: Config)
    ensures Reachable(cfg, Backlog(false))
  {
    OfferedIsReachable(cfg);
    Step(cfg, Offered(FRESH), Store, Backlog(false));
  }

  /** The other way to keep the socket open: a connection is stored, nobody accepts it, and
      the listener is closed. */
  lemma BacklogKeepsSocketOpen(cfg: Config) returns (s: State)
    ensures Reachable(cfg, s) && s.done && s.reader == Reading && s.closes == 0
    ensures !ClosedEarly(s) && forall c :: 0 <= c < |s.conns| ==> !s.conns[c].accepted
  {
    s := Backlog(true);
    BacklogIsReachable(cfg);
    assert "a" in Backlog(false).table;
    Step(cfg, Backlog(false), CloseListener, s);
  }

  /** The socket closed too soon: the listener is closed between Accept and the store, while
      the table is still empty. */
  lemma ClosedTooSoon(cfg: Config) returns (s: State)
    ensures Reachable(cfg, s) && s.done && s.closes == 1 && s.queue == [] && !ClosedEarly(s) && StillOpen(s, 0)
  {
    var s1 := Offered(FRESH.(accepted := true));
    s := s1.(done := true, closes := 1, waiting := true);
    OfferedIsReachable(cfg);
    assert Reachable(cfg, s) by { Step(cfg, s1, CloseListener, s); }
  }

  /** The same connection once it has been stored, has got the datagrams `got`, and its owner
      has read all of them but the last `left`. */
  function Stored(got: seq<nat>, left: nat): State
    requires left <= |got|
  {
    INIT.(arrived := if |got| == 2 then [Datagram("a", "x"), Datagram("a", "y")] else [Datagram("a", "x")],
          table := map["a" := 0], conns := [FRESH.(accepted := true, got := got, taken := |got| - left)])
  }

  lemma FirstIsRead(cfg: Config)
    ensures Reachable(cfg, Stored([0], 0))
  {
    var s1 := Offered(FRESH.(accepted := true));
    OfferedIsReachable(cfg);
    assert Reachable(cfg, Stored([0], 1)) by { Step(cfg, s1, Store, Stored([0], 1)); }
    Step(cfg, Stored([0], 1), Read(0), Stored([0], 0));
  }

  function SecondIsFound(): State {
    Stored([0], 0).(arrived := [Datagram("a", "x"), Datagram("a", "y")], reader := Found(1, 0))
  }

  lemma SecondArrives(cfg: Config)
    ensures Reachable(cfg, SecondIsFound())
  {
    var s1 := SecondIsFound().(reader := Looking(1));
    FirstIsRead(cfg);
    assert [Datagram("a", "x")] + [Datagram("a", "y")] == s1.arrived;
    assert Reachable(cfg, s1) by { Step(cfg, Stored([0], 0), Receive("a", "y"), s1); }
    Step(cfg, s1, Lookup, SecondIsFound());
  }

  lemma SecondIsRead(cfg: Config)
    ensures Reachable(cfg, Stored([0, 1], 0))
  {
    SecondArrives(cfg);
    assert [0] + [1] == [0, 1];
    assert Reachable(cfg, Stored([0, 1], 1)) by { Step(cfg, SecondIsFound(), Deliver, Stored([0, 1], 1)); }
    Step(cfg, Stored([0, 1], 1), Read(0), Stored([0, 1], 0));
  }

  /** A whole life, for every configuration: a connection gets and reads two datagrams and is
      closed, the listener is closed, and the socket, the read loop and the lock go with it. */
  lemma WholeLife(cfg: Config) returns (s: State)
    ensures Reachable(cfg, s) && s.closes == 1 && !s.waiting && s.reader == Exited && s.table == map[]
    ensures |s.conns| == 1 && s.conns[0].got == [0, 1] && s.conns[0].taken == 2 && s.conns[0].released
    ensures s.dropped == map[] && s.queue == []
  {
    var s0 := Stored([0, 1], 0);
    var c1 := s0.conns[0].(done := true);
    var s1 := s0.(conns := [c1]);
    var s2 := s1.(done := true);
    var s3 := s2.(conns := [c1.(released := true)], table := map[], closes := 1, waiting := true);
    var s4 := s3.(reader := Exited);
    s := s4.(waiting := false);
    SecondIsRead(cfg);
    assert "a" in s1.table && s2.table - {"a"} == map[];
    assert Reachable(cfg, s1) by { Step(cfg, s0, CloseConn(0), s1); }
    assert Reachable(cfg, s2) by { Step(cfg, s1, CloseListener, s2); }
    assert Reachable(cfg, s3) by { Step(cfg, s2, Release(0), s3); }
    assert Reachable(cfg, s4) by { Step(cfg, s3, ReadFails, s4); }
    Step(cfg, s4, ReadLoopEnded, s);
  }
}
