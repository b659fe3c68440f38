/** The log that is broadcast to subscribers (internal/webserver/sse.go). */
module LogFeeds {
  import opened Wrappers

  const CHANNEL_CAPACITY := 100

  /** One subscription: the history it was given when the log had `start` lines, the lines
      waiting in its channel, those it took out, and where in the log each of both is
      from.  `missed` is the first line dropped for it; `closes` counts closings of the
      channel and `late` sends after one. */
  datatype Feed = Feed(
    history: seq<string>, start: nat,
    queue: seq<string>, got: seq<string>, sent: seq<nat>,
    missed: Option<nat>, closes: nat, late: nat)
  {
    /** All the subscriber has seen or will see. */
    function Seen(): seq<string> {
      history + (got + queue)
    }
  }

  /** All lines ever logged, those before `base` forgotten by a reset. */
  datatype Log = Log(capacity: nat, lines: seq<string>, base: nat, feeds: seq<Feed>, subscribed: set<nat>)

  datatype Event =
    | Handle(line: string)
    | Subscribe
    | Unsubscribe(feed: nat)
    | Reset
    | Receive(feed: nat)

  function Latest(lines: seq<string>, n: nat): seq<string> {
    if |lines| <= n then lines else lines[|lines| - n..]
  }

  function Offered(queue: seq<string>, line: string): seq<string> {
    if |queue| < CHANNEL_CAPACITY then queue + [line] else queue
  }

  /** A send that never blocks: line `i` of the log is dropped if the channel is full. */
  function Offer(f: Feed, i: nat, line: string): Feed {
    var g := if f.closes > 0 then f.(late := f.late + 1) else f;
    if |f.queue| < CHANNEL_CAPACITY then g.(queue := f.queue + [line], sent := f.sent + [i])
    else if f.missed.None? then g.(missed := Some(i))
    else g
  }

  function Close(f: Feed): Feed {
    f.(closes := f.closes + 1)
  }

  function Take(f: Feed): Feed {
    if f.queue == [] then f else f.(queue := f.queue[1..], got := f.got + [f.queue[0]])
  }

  function NewFeed(l: Log): Feed
    requires l.base <= |l.lines|
  {
    Feed(Latest(l.lines[l.base..], l.capacity), |l.lines|, [], [], [], None, 0, 0)
  }

  function OfferAll(feeds: seq<Feed>, subscribed: set<nat>, i: nat, line: string): seq<Feed> {
    if feeds == [] then []
    else
      var c := |feeds| - 1;
      OfferAll(feeds[..c], subscribed, i, line) + [if c in subscribed then Offer(feeds[c], i, line) else feeds[c]]
  }

  function CloseAll(feeds: seq<Feed>, subscribed: set<nat>): seq<Feed> {
    if feeds == [] then []
    else
      var c := |feeds| - 1;
      CloseAll(feeds[..c], subscribed) + [if c in subscribed then Close(feeds[c]) else feeds[c]]
  }

  lemma {:induction false} EachIsOffered(feeds: seq<Feed>, subscribed: set<nat>, i: nat, line: string)
    ensures |OfferAll(feeds, subscribed, i, line)| == |feeds|
    ensures forall c :: 0 <= c < |feeds| ==>
      OfferAll(feeds, subscribed, i, line)[c] == if c in subscribed then Offer(feeds[c], i, line) else feeds[c]
  {
    if feeds != [] {
      EachIsOffered(feeds[..|feeds| - 1], subscribed, i, line);
    }
  }

  lemma {:induction false} EachIsClosed(feeds: seq<Feed>, subscribed: set<nat>)
    ensures |CloseAll(feeds, subscribed)| == |feeds|
    ensures forall c :: 0 <= c < |feeds| ==>
      CloseAll(feeds, subscribed)[c] == if c in subscribed then Close(feeds[c]) else feeds[c]
  {
    if feeds != [] {
      EachIsClosed(feeds[..|feeds| - 1], subscribed);
    }
  }

  function LinesAfter(l: Log, e: Event): seq<string> {
    if e.Handle? then l.lines + [e.line] else l.lines
  }

  function SubscribedAfter(l: Log, e: Event): set<nat> {
    match e
    case Handle(_) => l.subscribed
    case Subscribe => l.subscribed + {|l.feeds|}
    case Unsubscribe(c) => l.subscribed - {c}
    case Reset => {}
    case Receive(_) => l.subscribed
  }

  function FeedsAfter(l: Log, e: Event): seq<Feed>
    requires l.base <= |l.lines|
  {
    match e
    case Handle(line) => OfferAll(l.feeds, l.subscribed, |l.lines|, line)
    case Subscribe => l.feeds + [NewFeed(l)]
    case Unsubscribe(c) => if c < |l.feeds| && c in l.subscribed then l.feeds[c := Close(l.feeds[c])] else l.feeds
    case Reset => CloseAll(l.feeds, l.subscribed)
    case Receive(c) => if c < |l.feeds| then l.feeds[c := Take(l.feeds[c])] else l.feeds
  }

  function Step(l: Log, e: Event): Log
    requires l.base <= |l.lines|
  {
    Log(l.capacity, LinesAfter(l, e), if e == Reset then |l.lines| else l.base, FeedsAfter(l, e), SubscribedAfter(l, e))
  }

  /** What a call does to the feed `c`. */
  function Change(f: Feed, e: Event, c: nat, subscribed: bool, i: nat): Feed {
    match e
    case Handle(line) => if subscribed then Offer(f, i, line) else f
    case Subscribe => f
    case Unsubscribe(u) => if u == c && subscribed then Close(f) else f
    case Reset => if subscribed then Close(f) else f
    case Receive(r) => if r == c then Take(f) else f
  }

  lemma ChangeOf(l: Log, e: Event, c: nat)
    requires l.base <= |l.lines|
    ensures |Step(l, e).feeds| == |l.feeds| + if e == Subscribe then 1 else 0
    ensures c < |l.feeds| ==> Step(l, e).feeds[c] == Change(l.feeds[c], e, c, c in l.subscribed, |l.lines|)
    ensures c == |l.feeds| && e == Subscribe ==> Step(l, e).feeds[c] == NewFeed(l)
  {
    match e
    case Handle(line) => EachIsOffered(l.feeds, l.subscribed, |l.lines|, line);
    case Reset => EachIsClosed(l.feeds, l.subscribed);
    case Subscribe =>
    case Unsubscribe(_) =>
    case Receive(_) =>
  }

  function Start(capacity: nat): Log {
    Log(capacity, [], 0, [], {})
  }

  /** The log after the first `n` calls. */
  function RunTo(capacity: nat, events: seq<Event>, n: nat): (l: Log)
    requires n <= |events|
    ensures l.base <= |l.lines| && l.capacity == capacity
  {
    if n == 0 then Start(capacity) else Step(RunTo(capacity, events, n - 1), events[n - 1])
  }

  function Run(capacity: nat, events: seq<Event>): Log {
    RunTo(capacity, events, |events|)
  }

  lemma {:induction false} SameStart(capacity: nat, events: seq<Event>, e: Event, n: nat)
    requires n <= |events|
    ensures RunTo(capacity, events + [e], n) == RunTo(capacity, events, n)
  {
    if n > 0 {
      SameStart(capacity, events, e, n - 1);
    }
  }

  lemma OneMoreEvent(capacity: nat, events: seq<Event>, e: Event)
    ensures Run(capacity, events).base <= |Run(capacity, events).lines|
    ensures Run(capacity, events + [e]) == Step(Run(capacity, events), e)
  {
    SameStart(capacity, events, e, |events|);
  }

  // ------------------------------------------------------------------ one subscription

  /** Each line sent is the one of the log it stands for, in the log's order. */
  ghost predicate InOrder(f: Feed, lines: seq<string>) {
    && |f.sent| == |f.got| + |f.queue|
    && (forall k :: 0 <= k < |f.sent| ==> f.start <= f.sent[k] < |lines| && (f.got + f.queue)[k] == lines[f.sent[k]])
    && (forall j, k :: 0 <= j < k < |f.sent| ==> f.sent[j] < f.sent[k])
  }

  /** Up to the first line missed, there is no gap. */
  ghost predicate NoGap(f: Feed, n: nat) {
    match f.missed
    case None => forall k :: 0 <= k < |f.sent| ==> f.sent[k] == f.start + k
    case Some(d) =>
      && f.start + CHANNEL_CAPACITY <= d < n && d - f.start <= |f.sent|
      && (forall k :: 0 <= k < d - f.start ==> f.sent[k] == f.start + k)
      && (forall k :: d - f.start <= k < |f.sent| ==> d < f.sent[k])
  }

  ghost predicate FeedSound(f: Feed, lines: seq<string>, subscribed: bool) {
    && f.start <= |lines| && |f.history| <= f.start
    && f.history == lines[f.start - |f.history|..f.start]
    && InOrder(f, lines) && NoGap(f, |lines|)
    && |f.queue| <= CHANNEL_CAPACITY
    && (subscribed && f.missed.None? ==> |f.sent| == |lines| - f.start)
    && f.closes == (if subscribed then 0 else 1) && f.late == 0
  }

  ghost predicate Sound(l: Log) {
    && l.base <= |l.lines|
    && (forall i :: i in l.subscribed ==> i < |l.feeds|)
    && (forall i :: 0 <= i < |l.feeds| ==> FeedSound(l.feeds[i], l.lines, i in l.subscribed))
  }

  lemma OfferKeeps(f: Feed, lines: seq<string>, line: string)
    requires FeedSound(f, lines, true)
    ensures FeedSound(Offer(f, |lines|, line), lines + [line], true)
  {
    var more := lines + [line];
    assert more[f.start - |f.history|..f.start] == lines[f.start - |f.history|..f.start];
    OfferInOrder(f, lines, line);
  }

  lemma OfferInOrder(f: Feed, lines: seq<string>, line: string)
    requires InOrder(f, lines) && f.start <= |lines|
    ensures InOrder(Offer(f, |lines|, line), lines + [line])
  {
    var g := Offer(f, |lines|, line);
    if |f.queue| < CHANNEL_CAPACITY {
      assert g.got + g.queue == (f.got + f.queue) + [line];
    }
  }

  lemma MoreLinesKeep(f: Feed, lines: seq<string>, line: string)
    requires FeedSound(f, lines, false)
    ensures FeedSound(f, lines + [line], false)
  {
    assert (lines + [line])[f.start - |f.history|..f.start] == lines[f.start - |f.history|..f.start];
  }

  lemma TakeKeeps(f: Feed, lines: seq<string>, subscribed: bool)
    requires FeedSound(f, lines, subscribed)
    ensures FeedSound(Take(f), lines, subscribed)
    ensures Take(f).Seen() == f.Seen()
  {
    var g := Take(f);
    assert g.got + g.queue == f.got + f.queue;
  }

  lemma NewFeedSound(l: Log)
    requires l.base <= |l.lines|
    ensures FeedSound(NewFeed(l), l.lines, true)
  {
    var h := NewFeed(l).history;
    assert h == l.lines[|l.lines| - |h|..];
  }

  lemma ChangeKeeps(f: Feed, e: Event, i: nat, lines: seq<string>, subscribed: bool)
    requires FeedSound(f, lines, subscribed)
    ensures FeedSound(Change(f, e, i, subscribed, |lines|), if e.Handle? then lines + [e.line] else lines,
                      subscribed && e != Unsubscribe(i) && e != Reset)
  {
    match e
    case Handle(line) =>
      if subscribed { OfferKeeps(f, lines, line); } else { MoreLinesKeep(f, lines, line); }
    case Subscribe =>
    case Unsubscribe(_) =>
    case Reset =>
    case Receive(_) => TakeKeeps(f, lines, subscribed);
  }

  lemma {:induction false} FeedStep(l: Log, e: Event, i: nat)
    requires l.base <= |l.lines| && i < |Step(l, e).feeds|
    requires forall j :: j in l.subscribed ==> j < |l.feeds|
    requires i < |l.feeds| ==> FeedSound(l.feeds[i], l.lines, i in l.subscribed)
    ensures FeedSound(Step(l, e).feeds[i], Step(l, e).lines, i in Step(l, e).subscribed)
  {
    ChangeOf(l, e, i);
    if i < |l.feeds| {
      ChangeKeeps(l.feeds[i], e, i, l.lines, i in l.subscribed);
    } else {
      NewFeedSound(l);
    }
  }

  lemma {:induction false} SoundStep(l: Log, e: Event)
    requires Sound(l)
    ensures Sound(Step(l, e))
  {
    var l' := Step(l, e);
    ChangeOf(l, e, 0);
    forall i | 0 <= i < |l'.feeds| ensures FeedSound(l'.feeds[i], l'.lines, i in l'.subscribed) {
      FeedStep(l, e, i);
    }
  }

  lemma {:induction false} RunsAreSound(capacity: nat, events: seq<Event>, n: nat)
    requires n <= |events|
    ensures Sound(RunTo(capacity, events, n))
  {
    if n > 0 {
      RunsAreSound(capacity, events, n - 1);
      SoundStep(RunTo(capacity, events, n - 1), events[n - 1]);
    }
  }

  // ------------------------------------------------------------------ what the log is

  /** How many records were handled in the first `n` calls. */
  function Handled(events: seq<Event>, n: nat): nat
    requires n <= |events|
  {
    if n == 0 then 0 else Handled(events, n - 1) + if events[n - 1].Handle? then 1 else 0
  }

  function Subscribes(events: seq<Event>, n: nat): nat
    requires n <= |events|
  {
    if n == 0 then 0 else Subscribes(events, n - 1) + if events[n - 1].Subscribe? then 1 else 0
  }

  lemma {:induction false} HandledGrows(events: seq<Event>, i: nat, j: nat)
    requires i <= j <= |events|
    ensures Handled(events, i) <= Handled(events, j)
    ensures i < j && events[i].Handle? ==> Handled(events, i) < Handled(events, j)
  {
    if i < j {
      HandledGrows(events, i, j - 1);
    }
  }

  lemma {:induction false} LinesAreCounted(capacity: nat, events: seq<Event>, n: nat)
    requires n <= |events|
    ensures |RunTo(capacity, events, n).lines| == Handled(events, n)
  {
    if n > 0 {
      LinesAreCounted(capacity, events, n - 1);
    }
  }

  /** Call `i` handled a record, and what it logged is the line of that number. */
  predicate LoggedAs(events: seq<Event>, i: nat, lines: seq<string>) {
    i < |events| && events[i].Handle? ==> Handled(events, i) < |lines| && lines[Handled(events, i)] == events[i].line
  }

  /** The log consists of the lines that were handled, in order: the call after m handled
      records adds line number m. */
  lemma {:induction false} LinesAreHandled(capacity: nat, events: seq<Event>, n: nat)
    requires n <= |events|
    ensures |RunTo(capacity, events, n).lines| == Handled(events, n)
    ensures forall i: nat :: i < n ==> LoggedAs(events, i, RunTo(capacity, events, n).lines)
  {
    LinesAreCounted(capacity, events, n);
    if n > 0 {
      LinesAreHandled(capacity, events, n - 1);
      forall i: nat | i < n ensures LoggedAs(events, i, RunTo(capacity, events, n).lines) {
        LoggedNext(capacity, events, i, n - 1);
      }
    }
  }

  lemma LoggedNext(capacity: nat, events: seq<Event>, i: nat, n: nat)
    requires i <= n < |events|
    requires i < n ==> LoggedAs(events, i, RunTo(capacity, events, n).lines)
    ensures LoggedAs(events, i, RunTo(capacity, events, n + 1).lines)
  {
    var lines, e := RunTo(capacity, events, n).lines, events[n];
    LinesStep(RunTo(capacity, events, n), e);
    if i < n {
      StaysLogged(events, i, lines, if e.Handle? then [e.line] else []);
    } else {
      LinesAreCounted(capacity, events, n);
    }
  }

  lemma StaysLogged(events: seq<Event>, i: nat, lines: seq<string>, more: seq<string>)
    requires LoggedAs(events, i, lines)
    ensures LoggedAs(events, i, lines + more)
  {
  }

  lemma LinesStep(l: Log, e: Event)
    requires l.base <= |l.lines|
    ensures Step(l, e).lines == l.lines + if e.Handle? then [e.line] else []
    ensures Step(l, e).base == if e == Reset then |l.lines| else l.base
  {
  }

  /** What a reset forgets: the lines before the last one, `r`. */
  lemma {:induction false} BaseIsLastReset(capacity: nat, events: seq<Event>, r: nat, n: nat)
    requires r < n <= |events| && events[r] == Reset && forall j :: r < j < n ==> events[j] != Reset
    ensures RunTo(capacity, events, n).base == Handled(events, r)
  {
    LinesStep(RunTo(capacity, events, n - 1), events[n - 1]);
    if r < n - 1 {
      BaseIsLastReset(capacity, events, r, n - 1);
    } else {
      LinesAreCounted(capacity, events, r);
    }
  }

  lemma {:induction false} NothingForgotten(capacity: nat, events: seq<Event>, n: nat)
    requires n <= |events| && forall j :: 0 <= j < n ==> events[j] != Reset
    ensures RunTo(capacity, events, n).base == 0
  {
    if n > 0 {
      NothingForgotten(capacity, events, n - 1);
      LinesStep(RunTo(capacity, events, n - 1), events[n - 1]);
    }
  }

  /** What one call does to the number of subscriptions, their beginnings and their ends. */
  lemma SubscriptionStep(l: Log, e: Event, i: nat)
    requires l.base <= |l.lines| && forall j :: j in l.subscribed ==> j < |l.feeds|
    ensures |Step(l, e).feeds| == |l.feeds| + if e == Subscribe then 1 else 0
    ensures i < |l.feeds| ==>
      Step(l, e).feeds[i].start == l.feeds[i].start && Step(l, e).feeds[i].history == l.feeds[i].history
    ensures i in Step(l, e).subscribed <==>
      (i in l.subscribed && e != Unsubscribe(i) && e != Reset) || (e == Subscribe && i == |l.feeds|)
  {
    ChangeOf(l, e, i);
  }

  lemma NewSubscription(l: Log)
    requires l.base <= |l.lines|
    ensures var f, n := Step(l, Subscribe).feeds[|l.feeds|], |l.lines| - l.base;
      f.start == |l.lines| && |f.history| == if n < l.capacity then n else l.capacity
  {
    ChangeOf(l, Subscribe, |l.feeds|);
  }

  lemma SubscribersExist(capacity: nat, events: seq<Event>, n: nat)
    requires n <= |events|
    ensures forall i :: i in RunTo(capacity, events, n).subscribed ==> i < |RunTo(capacity, events, n).feeds|
  {
    RunsAreSound(capacity, events, n);
  }

  lemma {:induction false} FeedsAreCounted(capacity: nat, events: seq<Event>, n: nat)
    requires n <= |events|
    ensures |RunTo(capacity, events, n).feeds| == Subscribes(events, n)
  {
    if n > 0 {
      FeedsAreCounted(capacity, events, n - 1);
      SubscribersExist(capacity, events, n - 1);
      SubscriptionStep(RunTo(capacity, events, n - 1), events[n - 1], 0);
    }
  }

  lemma {:induction false} SubscribesGrow(events: seq<Event>, k: nat, n: nat)
    requires k <= n <= |events|
    ensures Subscribes(events, k) <= Subscribes(events, n)
  {
    if k < n {
      SubscribesGrow(events, k, n - 1);
    }
  }

  ghost predicate Begins(l: Log, i: nat, start: nat, base: nat) {
    && i < |l.feeds| && l.feeds[i].start == start && base <= start
    && |l.feeds[i].history| == (if start - base < l.capacity then start - base else l.capacity)
  }

  /** A subscription begins at the line that is handled next, with the last lines since the
      last reset, as many as there are but no more than the capacity. */
  lemma {:induction false} BeginsWhereSubscribed(capacity: nat, events: seq<Event>, k: nat, n: nat)
    requires k < n <= |events| && events[k] == Subscribe
    ensures Begins(RunTo(capacity, events, n), Subscribes(events, k), Handled(events, k), RunTo(capacity, events, k).base)
  {
    var l, i := RunTo(capacity, events, n - 1), Subscribes(events, k);
    SubscribersExist(capacity, events, n - 1);
    SubscriptionStep(l, events[n - 1], i);
    if k < n - 1 {
      BeginsWhereSubscribed(capacity, events, k, n - 1);
    } else {
      LinesAreCounted(capacity, events, k);
      FeedsAreCounted(capacity, events, k);
      NewSubscription(l);
    }
  }

  predicate Ends(e: Event, i: nat) {
    e == Unsubscribe(i) || e == Reset
  }

  /** Call `k` began subscription `i`, and none since has ended it. */
  ghost predicate NotEnded(events: seq<Event>, i: nat, k: nat, n: nat) {
    n <= |events| && forall j :: k < j < n ==> !Ends(events[j], i)
  }

  lemma NotEndedNext(events: seq<Event>, i: nat, k: nat, n: nat)
    requires k < n < |events|
    ensures NotEnded(events, i, k, n + 1) <==> NotEnded(events, i, k, n) && !Ends(events[n], i)
  {
  }

  lemma FirstNotEnded(events: seq<Event>, i: nat, k: nat)
    requires k < |events|
    ensures NotEnded(events, i, k, k + 1)
  {
  }

  /** Subscription `i` has begun before call `n`, and has not ended. */
  function Alive(events: seq<Event>, i: nat, n: nat): bool
    requires n <= |events|
  {
    n > 0 && ((Alive(events, i, n - 1) && !Ends(events[n - 1], i)) || (events[n - 1] == Subscribe && i == Subscribes(events, n - 1)))
  }

  lemma {:induction false} AliveIsNotEnded(events: seq<Event>, i: nat, k: nat, n: nat)
    requires k < n <= |events| && events[k] == Subscribe && i == Subscribes(events, k)
    ensures Alive(events, i, n) <==> NotEnded(events, i, k, n)
  {
    if k < n - 1 {
      AliveIsNotEnded(events, i, k, n - 1);
      SubscribesGrow(events, k + 1, n - 1);
      NotEndedNext(events, i, k, n - 1);
    } else {
      FirstNotEnded(events, i, k);
    }
  }

  lemma {:induction false} SubscribedIsAlive(capacity: nat, events: seq<Event>, i: nat, n: nat)
    requires n <= |events|
    ensures i in RunTo(capacity, events, n).subscribed <==> Alive(events, i, n)
  {
    if n > 0 {
      SubscribedIsAlive(capacity, events, i, n - 1);
      SubscribedNext(capacity, events, i, n);
    }
  }

  /** A subscription lasts until it is ended by its own subscriber or by a reset. */
  lemma SubscribedExactlyWhen(capacity: nat, events: seq<Event>, k: nat, n: nat)
    requires k < n <= |events| && events[k] == Subscribe
    ensures Subscribes(events, k) in RunTo(capacity, events, n).subscribed <==> NotEnded(events, Subscribes(events, k), k, n)
  {
    SubscribedIsAlive(capacity, events, Subscribes(events, k), n);
    AliveIsNotEnded(events, Subscribes(events, k), k, n);
  }

  lemma SubscribedNext(capacity: nat, events: seq<Event>, i: nat, n: nat)
    requires 0 < n <= |events|
    ensures i in RunTo(capacity, events, n).subscribed <==>
      (i in RunTo(capacity, events, n - 1).subscribed && !Ends(events[n - 1], i))
      || (events[n - 1] == Subscribe && i == Subscribes(events, n - 1))
  {
    SubscribersExist(capacity, events, n - 1);
    FeedsAreCounted(capacity, events, n - 1);
    SubscriptionStep(RunTo(capacity, events, n - 1), events[n - 1], i);
  }

  // ------------------------------------------------------------------ what is dropped

  /** A subscription takes a line: it is subscribed, and fewer than a hundred lines wait. */
  predicate HasRoom(l: Log, i: nat) {
    i in l.subscribed && i < |l.feeds| && |l.feeds[i].queue| < 100
  }

  /** Call `n` sends a line to subscription `i`. */
  predicate Sends(capacity: nat, events: seq<Event>, i: nat, n: nat) {
    n < |events| && events[n].Handle? && HasRoom(RunTo(capacity, events, n), i)
  }

  function SentBy(capacity: nat, events: seq<Event>, i: nat, n: nat): seq<nat>
    requires n <= |events|
  {
    if n == 0 then []
    else SentBy(capacity, events, i, n - 1) + if Sends(capacity, events, i, n - 1) then [Handled(events, n - 1)] else []
  }

  lemma SentNext(capacity: nat, events: seq<Event>, i: nat, n: nat)
    requires n < |events| && i < |RunTo(capacity, events, n).feeds|
    ensures i < |RunTo(capacity, events, n + 1).feeds|
    ensures RunTo(capacity, events, n + 1).feeds[i].sent ==
      RunTo(capacity, events, n).feeds[i].sent + if Sends(capacity, events, i, n) then [Handled(events, n)] else []
  {
    LinesAreCounted(capacity, events, n);
    ChangeOf(RunTo(capacity, events, n), events[n], i);
  }

  lemma SentFirst(capacity: nat, events: seq<Event>, i: nat, n: nat)
    requires n < |events| && |RunTo(capacity, events, n).feeds| <= i < |RunTo(capacity, events, n + 1).feeds|
    ensures RunTo(capacity, events, n + 1).feeds[i].sent == [] && !Sends(capacity, events, i, n) && i >= Subscribes(events, n)
  {
    FeedsAreCounted(capacity, events, n);
    ChangeOf(RunTo(capacity, events, n), events[n], i);
  }

  lemma {:induction false} NothingYet(capacity: nat, events: seq<Event>, i: nat, n: nat)
    requires n <= |events| && i >= Subscribes(events, n)
    ensures SentBy(capacity, events, i, n) == []
  {
    if n > 0 {
      NothingYet(capacity, events, i, n - 1);
      FeedsAreCounted(capacity, events, n - 1);
    }
  }

  lemma {:induction false} SentBySends(capacity: nat, events: seq<Event>, i: nat, n: nat)
    requires n <= |events| && i < |RunTo(capacity, events, n).feeds|
    ensures RunTo(capacity, events, n).feeds[i].sent == SentBy(capacity, events, i, n)
  {
    if n > 0 {
      if i < |RunTo(capacity, events, n - 1).feeds| {
        SentBySends(capacity, events, i, n - 1);
        SentNext(capacity, events, i, n - 1);
      } else {
        SentFirst(capacity, events, i, n - 1);
        NothingYet(capacity, events, i, n - 1);
      }
    }
  }

  lemma {:induction false} SentAreNumbers(capacity: nat, events: seq<Event>, i: nat, k: nat, n: nat)
    requires k < |events| && events[k].Handle? && n <= |events|
    ensures Handled(events, k) in SentBy(capacity, events, i, n) <==> k < n && Sends(capacity, events, i, k)
  {
    if n > 0 {
      SentAreNumbers(capacity, events, i, k, n - 1);
      if k < n - 1 {
        HandledGrows(events, k, n - 1);
      } else if k > n - 1 {
        HandledGrows(events, n - 1, k);
      }
    }
  }

  /** Over all calls: a line goes into a subscriber's channel iff it is subscribed when the
      record is handled and fewer than a hundred lines wait in the channel at that moment. */
  lemma SentExactlyWhen(capacity: nat, events: seq<Event>, i: nat, k: nat, n: nat)
    requires k < n <= |events| && i < |RunTo(capacity, events, n).feeds| && events[k].Handle?
    ensures Handled(events, k) in RunTo(capacity, events, n).feeds[i].sent <==> HasRoom(RunTo(capacity, events, k), i)
  {
    SentBySends(capacity, events, i, n);
    SentAreNumbers(capacity, events, i, k, n);
  }

  /** Receiving takes the oldest waiting line out of the channel, and nothing else. */
  lemma ReceiveTakesOne(l: Log, i: nat)
    requires Sound(l) && i < |l.feeds|
    ensures var f := l.feeds[i]; var l' := Step(l, Receive(i));
      && i < |l'.feeds| && l'.feeds[i].got + l'.feeds[i].queue == f.got + f.queue
      && |l'.feeds[i].got| == |f.got| + if f.queue == [] then 0 else 1
  {
    assert Take(l.feeds[i]).got + Take(l.feeds[i]).queue == l.feeds[i].got + l.feeds[i].queue;
  }

  // ------------------------------------------------------------------ all runs

  /** How far into the log a subscriber sees without a gap. */
  function SeesUpTo(f: Feed): nat {
    if f.missed.Some? then f.missed.value else f.start + |f.sent|
  }

  /** What a subscriber sees is a gap-free run of the log, from the first line of its
      history to the first line dropped for it.  While it is subscribed and nothing was
      dropped, that is the whole log since.  The first hundred lines after it subscribed are
      never dropped. */
  ghost predicate GapFree(f: Feed, lines: seq<string>, subscribed: bool) {
    var first, upTo := f.start - |f.history|, SeesUpTo(f);
    && 0 <= first <= upTo <= |lines| && upTo - first <= |f.Seen()|
    && f.Seen()[..upTo - first] == lines[first..upTo]
    && (f.missed.None? ==> upTo - first == |f.Seen()|)
    && (f.missed.None? && subscribed ==> upTo == |lines|)
    && (f.missed.Some? ==> f.start + 100 <= f.missed.value)
  }

  lemma SoundMeansGapFree(f: Feed, lines: seq<string>, subscribed: bool)
    requires FeedSound(f, lines, subscribed)
    ensures GapFree(f, lines, subscribed)
  {
    var n := SeesUpTo(f) - f.start;
    assert 0 <= n <= |f.sent| && f.start + n <= |lines| by {
      if f.missed.None? && n > 0 { assert f.sent[n - 1] == f.start + (n - 1); }
    }
    PrefixIsRun(f, lines, n);
  }

  /** The hand-off from history to channel, over all calls and all subscribers: what one sees
      is a run of the handled lines. */
  lemma {:induction false} HandOff(capacity: nat, events: seq<Event>, i: nat)
    requires i < |Run(capacity, events).feeds|
    ensures var l := Run(capacity, events);
      && GapFree(l.feeds[i], l.lines, i in l.subscribed) && |l.lines| == Handled(events, |events|)
      && forall k: nat :: k < |events| ==> LoggedAs(events, k, l.lines)
  {
    RunsAreSound(capacity, events, |events|);
    LinesAreHandled(capacity, events, |events|);
    var l := Run(capacity, events);
    SoundMeansGapFree(l.feeds[i], l.lines, i in l.subscribed);
  }

  lemma PrefixIsRun(f: Feed, lines: seq<string>, n: nat)
    requires f.start <= |lines| && |f.history| <= f.start && f.history == lines[f.start - |f.history|..f.start]
    requires InOrder(f, lines) && n <= |f.sent| && f.start + n <= |lines|
    requires forall k :: 0 <= k < n ==> f.sent[k] == f.start + k
    ensures f.Seen()[..|f.history| + n] == lines[f.start - |f.history|..f.start + n]
  {
    assert (f.got + f.queue)[..n] == lines[f.start..f.start + n];
    assert f.Seen()[..|f.history| + n] == f.history + (f.got + f.queue)[..n];
  }

  /** After a drop, what follows is an ordered part of the log behind the dropped line. */
  lemma {:induction false} OrderedAfterADrop(capacity: nat, events: seq<Event>, i: nat)
    requires i < |Run(capacity, events).feeds| && Run(capacity, events).feeds[i].missed.Some?
    ensures var l := Run(capacity, events); var f := l.feeds[i]; var n := f.missed.value - f.start;
      && 0 <= n <= |f.sent| == |f.got + f.queue|
      && (forall k :: n <= k < |f.sent| ==> f.missed.value < f.sent[k] < |l.lines| && (f.got + f.queue)[k] == l.lines[f.sent[k]])
      && (forall j, k :: n <= j < k < |f.sent| ==> f.sent[j] < f.sent[k])
  {
    RunsAreSound(capacity, events, |events|);
    var l := Run(capacity, events);
    assert FeedSound(l.feeds[i], l.lines, i in l.subscribed);
  }

  /** No channel is closed twice or sent to after it was closed, and one is closed exactly
      when its subscription ended. */
  lemma {:induction false} ClosedOnce(capacity: nat, events: seq<Event>, i: nat)
    requires i < |Run(capacity, events).feeds|
    ensures var l := Run(capacity, events); var f := l.feeds[i];
      && f.closes <= 1 && f.late == 0
      && (f.closes == 1 <==> i !in l.subscribed)
  {
    RunsAreSound(capacity, events, |events|);
    var l := Run(capacity, events);
    assert FeedSound(l.feeds[i], l.lines, i in l.subscribed);
  }

  /** What one call leaves alone: a subscription that ended is never touched again but by
      its own receiver, and a reset ends them all. */
  lemma EndedFeedsStay(l: Log, e: Event, i: nat)
    requires Sound(l) && i < |l.feeds| && i !in l.subscribed && e != Receive(i)
    ensures i < |Step(l, e).feeds| && Step(l, e).feeds[i] == l.feeds[i] && i !in Step(l, e).subscribed
  {
    ChangeOf(l, e, i);
  }
}

/** The handler itself: its methods hold one mutex, so each is one event of the log. */
module LogHandlers {
  import opened Wrappers
  import opened LogFeeds

  // ------------------------------------------------------------------ the history

  /** The cell `j` steps back from cell `r` of a ring. */
  function Back(cap: nat, r: nat, j: nat): (i: nat)
    requires r < cap && j <= cap
    ensures i < cap
  {
    if j <= r then r - j else r + cap - j
  }

  /** A ring of cells, the next one to write to, and how many hold a line. */
  class RingBuffer {
    var cells: array<Option<string>>
    var r: nat
    var count: nat
    const capacity: nat
    ghost var log: seq<string>   // the lines added since the last reset

    ghost predicate Valid()
      reads this, cells
    {
      && 0 < capacity == cells.Length && r < capacity
      && count == (if |log| < capacity then |log| else capacity)
      && forall j :: 1 <= j <= count ==> cells[Back(capacity, r, j)] == Some(log[|log| - j])
    }

    constructor (capacity: nat)
      requires 0 < capacity
      ensures Valid() && log == [] && this.capacity == capacity && fresh(cells)
    {
      cells := new Option<string>[capacity](_ => None);
      r, count, log := 0, 0, [];
      this.capacity := capacity;
    }

    function Next(i: nat): nat
      reads this
    {
      if i + 1 == capacity then 0 else i + 1
    }

    method Add(s: string)
      requires Valid()
      modifies this, cells
      ensures Valid() && cells == old(cells) && log == old(log) + [s]
    {
      ghost var was, r0, log0 := cells[..], r, log;
      cells[r] := Some(s);
      r := Next(r);
      if count < capacity {
        count := count + 1;
      }
      log := log + [s];
      assert Back(capacity, r, 1) == r0;
      forall j | 1 <= j <= count ensures cells[Back(capacity, r, j)] == Some(log[|log| - j]) {
        if j > 1 {
          assert Back(capacity, r, j) == Back(capacity, r0, j - 1) != r0;
          assert was[Back(capacity, r0, j - 1)] == Some(log0[|log0| - (j - 1)]);
        }
      }
    }

    /** The last min(n, capacity) of the n lines since the last reset, in order. */
    method Entries() returns (result: seq<string>)
      requires Valid()
      ensures result == Latest(log, capacity)
    {
      result := [];
      var p := Back(capacity, r, count);
      for i := 0 to count
        invariant p == Back(capacity, r, count - i)
        invariant result == log[|log| - count..|log| - count + i]
      {
        assert cells[Back(capacity, r, count - i)] == Some(log[|log| - (count - i)]);
        result := result + [cells[p].value];
        p := Next(p);
      }
    }

    method Reset()
      requires Valid()
      modifies this
      ensures Valid() && fresh(cells) && log == []
    {
      cells := new Option<string>[capacity](_ => None);
      r, count, log := 0, 0, [];
    }
  }

  // ------------------------------------------------------------------ the handler

  class Channel {
    var buf: seq<string>
    var closed: bool

    constructor ()
      ensures buf == [] && !closed
    {
      buf, closed := [], false;
    }
  }

  ghost predicate Holds(ch: Channel, f: Feed)
    reads ch
  {
    ch.buf == f.queue && (ch.closed <==> f.closes > 0)
  }

  /** The channels are those of the feeds, and the handler knows the subscribed ones. */
  ghost predicate Wired(channels: seq<Channel>, feeds: seq<Feed>, subscribers: set<Channel>, subscribed: set<nat>)
    reads channels
  {
    && |channels| == |feeds|
    && (forall i, j :: 0 <= i < j < |channels| ==> channels[i] != channels[j])
    && (forall i :: 0 <= i < |channels| ==> Holds(channels[i], feeds[i]))
    && (forall i :: 0 <= i < |channels| ==> (channels[i] in subscribers <==> i in subscribed))
    && (forall ch :: ch in subscribers ==> ch in channels)
  }

  lemma OneMoreChannel(channels: seq<Channel>, feeds: seq<Feed>, subscribers: set<Channel>, subscribed: set<nat>, ch: Channel, f: Feed)
    requires Wired(channels, feeds, subscribers, subscribed) && ch !in channels && Holds(ch, f)
    ensures Wired(channels + [ch], feeds + [f], subscribers + {ch}, subscribed + {|feeds|})
  {
    assert ch !in subscribers;
  }

  class SSEHandler {
    const history: RingBuffer
    var buf: string                    // what the formatter wrote
    var subscribers: set<Channel>
    ghost var log: Log
    ghost var channels: seq<Channel>   // one for each feed of the log

    ghost var events: seq<Event>       // the calls so far

    ghost predicate Valid()
      reads this, history, history.cells, channels
    {
      && log == Run(history.capacity, events)
      && history.Valid() && history.log == log.lines[log.base..]
      && Wired(channels, log.feeds, subscribers, log.subscribed)
    }

    constructor (bufferSize: nat)
      requires 0 < bufferSize
      ensures Valid() && events == [] && history.capacity == bufferSize && fresh(history) && fresh(history.cells)
    {
      history := new RingBuffer(bufferSize);
      buf := "";
      subscribers := {};
      log, channels, events := Start(bufferSize), [], [];
    }

    ghost method Record(e: Event)
      requires log == Run(history.capacity, events) && log.base <= |log.lines|
      modifies `log, `events
      ensures events == old(events) + [e] && log == Step(old(log), e) == Run(history.capacity, events)
    {
      OneMoreEvent(history.capacity, events, e);
      log, events := Step(log, e), events + [e];
    }

    /** The formatter writes `text` into the buffer, and possibly fails after that. */
    method Handle(text: string, fails: bool) returns (ok: bool)
      requires Valid()
      modifies this, history, history.cells, subscribers
      ensures Valid() && history.cells == old(history.cells) && channels == old(channels)
      ensures ok == !fails && subscribers == old(subscribers)
      ensures events == if ok then old(events) + [Event.Handle(text)] else old(events)
      ensures log.lines == if ok then old(log.lines) + [text] else old(log.lines)
      ensures forall ch :: ch in subscribers ==>
        ch.buf == old(ch.buf) + if ok && |old(ch.buf)| < 100 then [text] else []
    {
      buf := "";
      buf := buf + text;
      if fails {
        return false;
      }
      assert buf == text;
      Append(buf);
      ok := true;
    }

    method Append(line: string)
      requires Valid()
      modifies `log, `events, history, history.cells, subscribers
      ensures Valid() && history.cells == old(history.cells)
      ensures events == old(events) + [Event.Handle(line)] && log.lines == old(log.lines) + [line]
      ensures forall ch :: ch in subscribers ==>
        ch.buf == old(ch.buf) + if |old(ch.buf)| < 100 then [line] else []
    {
      ghost var l := log;
      history.Add(line);
      Broadcast(line, l);
      Record(Event.Handle(line));
      assert log.lines[log.base..] == l.lines[l.base..] + [line];
    }

    method Broadcast(line: string, ghost l: Log)
      requires Wired(channels, l.feeds, subscribers, l.subscribed)
      modifies subscribers
      ensures forall ch :: ch in subscribers ==> ch.closed == old(ch.closed) && ch.buf == Offered(old(ch.buf), line)
      ensures Wired(channels, OfferAll(l.feeds, l.subscribed, |l.lines|, line), subscribers, l.subscribed)
    {
      SendToAll(line);
      EachIsOffered(l.feeds, l.subscribed, |l.lines|, line);
    }

    method SendToAll(line: string)
      modifies subscribers
      ensures forall ch :: ch in subscribers ==> ch.closed == old(ch.closed) && ch.buf == Offered(old(ch.buf), line)
    {
      var todo := subscribers;
      while todo != {}
        invariant todo <= subscribers
        invariant forall ch :: ch in subscribers ==>
          ch.closed == old(ch.closed) && ch.buf == if ch in todo then old(ch.buf) else Offered(old(ch.buf), line)
      {
        var ch :| ch in todo;
        if |ch.buf| < CHANNEL_CAPACITY {
          ch.buf := ch.buf + [line];
        }
        todo := todo - {ch};
      }
    }

    method Subscribe() returns (entries: seq<string>, ch: Channel)
      requires Valid()
      modifies this
      ensures Valid() && fresh(ch) && channels == old(channels) + [ch]
      ensures events == old(events) + [Event.Subscribe]
      ensures |channels| == |log.feeds| && entries == log.feeds[|log.feeds| - 1].history
      ensures log.lines == old(log.lines) && log.base == old(log.base) <= |log.lines|
      ensures var n := |log.lines| - log.base;
        entries == log.lines[|log.lines| - (if n < history.capacity then n else history.capacity)..]
      ensures ch.buf == [] && !ch.closed && subscribers == old(subscribers) + {ch}
    {
      entries := history.Entries();
      ghost var f := NewFeed(log);
      assert entries == f.history;
      ch := new Channel();
      assert ch !in channels;
      OneMoreChannel(channels, log.feeds, subscribers, log.subscribed, ch, f);
      subscribers := subscribers + {ch};
      channels := channels + [ch];
      Record(Event.Subscribe);
      assert log.feeds[|log.feeds| - 1] == f;
    }

    /** Ends the subscription of `ch`, if it has one; `c` is the feed it belongs to. */
    method Unsubscribe(ch: Channel) returns (ghost c: nat)
      requires Valid()
      modifies this, ch
      ensures Valid() && channels == old(channels) && log.lines == old(log.lines)
      ensures subscribers == old(subscribers) - {ch} && ch.buf == old(ch.buf)
      ensures ch.closed == (old(ch.closed) || ch in old(subscribers))
      ensures ch in old(subscribers) ==>
        c < |channels| && channels[c] == ch && events == old(events) + [Event.Unsubscribe(c)]
      ensures ch !in old(subscribers) ==> events == old(events)
    {
      c := 0;
      if ch in subscribers {
        c :| c < |channels| && channels[c] == ch;
        subscribers := subscribers - {ch};
        ch.closed := true;
        Record(Event.Unsubscribe(c));
      }
    }

    method Reset()
      requires Valid()
      modifies this, history, subscribers
      ensures Valid() && fresh(history.cells) && channels == old(channels)
      ensures events == old(events) + [Event.Reset] && subscribers == {}
      ensures history.log == [] && forall ch :: ch in old(subscribers) ==> ch.closed && ch.buf == old(ch.buf)
    {
      EachIsClosed(log.feeds, log.subscribed);
      history.Reset();
      Disconnect();
      Record(Event.Reset);
    }

    method Disconnect()
      modifies `subscribers, subscribers
      ensures subscribers == {}
      ensures forall ch :: ch in old(subscribers) ==> ch.buf == old(ch.buf) && ch.closed
    {
      ghost var all := subscribers;
      while subscribers != {}
        invariant subscribers <= all == old(subscribers)
        invariant forall ch :: ch in all ==> ch.buf == old(ch.buf) && (ch !in subscribers ==> ch.closed)
        modifies `subscribers, all`closed
      {
        var ch :| ch in subscribers;
        ch.closed := true;
        subscribers := subscribers - {ch};
      }
    }

    /** A subscriber takes the next line from its channel, if there is one. */
    method Receive(ch: Channel, ghost c: nat) returns (line: Option<string>)
      requires Valid() && c < |channels| && channels[c] == ch
      modifies `log, `events, ch
      ensures Valid() && events == old(events) + [Event.Receive(c)]
      ensures line == if old(ch.buf) == [] then None else Some(old(ch.buf)[0])
      ensures ch.buf == if old(ch.buf) == [] then [] else old(ch.buf)[1..]
      ensures ch.closed == old(ch.closed)
    {
      if ch.buf == [] {
        line := None;
      } else {
        line := Some(ch.buf[0]);
        ch.buf := ch.buf[1..];
      }
      Record(Event.Receive(c));
    }
  }
}
