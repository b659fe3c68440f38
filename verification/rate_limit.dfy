/** Rate limiting per IP address (internal/platform/httpplatform/middleware.go:128-157).

    A token bucket is kept as exact integer credit in time units: a token costs `every`,
    one unit is earned per unit of time, the cap is `burst * every`, and a new bucket is
    full.  Buckets live in the expiring map, so idle ones are forgotten. */
module RateLimits {
  import opened Wrappers
  import opened TTLSpec

  datatype Config = Config(every: int, burst: int, second: int) {
    ghost predicate Valid() {
      every > 0 && second > 0
    }

    /** The largest credit; a burst below one leaves no credit at all. */
    function Cap(): int {
      if burst >= 1 then burst * every else 0
    }

    /** Lines 129-132. */
    function TTL(): int {
      if burst > 1 then burst * every else every
    }
  }

  datatype Bucket = Bucket(credit: int, last: int)

  /** `retryAfter` is absent when waiting does not help (line 146). */
  datatype Response = Admitted | Rejected(retryAfter: Option<int>)

  datatype Request<Ip> = Request(ip: Ip, time: int)

  function Min(a: int, b: int): int {
    if a <= b then a else b
  }

  function NewBucket(cfg: Config, now: int): Bucket {
    Bucket(cfg.Cap(), now)
  }

  function Refill(cfg: Config, b: Bucket, now: int): Bucket {
    Bucket(Min(cfg.Cap(), b.credit + (now - b.last)), now)
  }

  /** Whole seconds, rounded up (line 147). */
  function CeilSeconds(cfg: Config, delay: int): int
    requires cfg.Valid()
  {
    (delay + cfg.second - 1) / cfg.second
  }

  /** Reserve, look at the delay, and cancel the reservation if there is one. */
  function Serve(cfg: Config, b: Bucket, now: int): (Bucket, Response)
    requires cfg.Valid()
  {
    if cfg.burst < 1 then (b, Rejected(None))
    else
      var r := Refill(cfg, b, now);
      if r.credit >= cfg.every then (r.(credit := r.credit - cfg.every), Admitted)
      else (r, Rejected(Some(CeilSeconds(cfg, cfg.every - r.credit))))
  }

  // ------------------------------------------------------------------ the two limiters

  /** The clock of a request that takes no time. */
  function At(now: int): nat -> int {
    _ => now
  }

  /** One request against the expiring map, all at one instant. */
  function EvictingStep<Ip(==)>(cfg: Config, es: seq<Entry<Ip, Bucket>>, r: Request<Ip>)
    : (res: (seq<Entry<Ip, Bucket>>, Response))
    requires cfg.Valid()
  {
    var touched := GetOrSet(es, cfg.TTL(), r.ip, NewBucket(cfg, r.time), At(r.time));
    if touched == [] then (touched, Rejected(None))
    else
      var e := touched[|touched| - 1];
      var (b, resp) := Serve(cfg, e.value, r.time);
      (touched[..|touched| - 1] + [e.(value := b)], resp)
  }

  /** One request against a map that never forgets. */
  function ForeverStep<Ip>(cfg: Config, m: map<Ip, Bucket>, r: Request<Ip>): (map<Ip, Bucket>, Response)
    requires cfg.Valid()
  {
    var b0 := if r.ip in m then m[r.ip] else NewBucket(cfg, r.time);
    var (b, resp) := Serve(cfg, b0, r.time);
    (m[r.ip := b], resp)
  }

  /** The map and all responses after a list of requests. */
  function Evicting<Ip(==)>(cfg: Config, reqs: seq<Request<Ip>>): (seq<Entry<Ip, Bucket>>, seq<Response>)
    requires cfg.Valid()
  {
    if reqs == [] then ([], [])
    else
      var (es, resps) := Evicting(cfg, reqs[..|reqs| - 1]);
      var (es', resp) := EvictingStep(cfg, es, reqs[|reqs| - 1]);
      (es', resps + [resp])
  }

  function Forever<Ip>(cfg: Config, reqs: seq<Request<Ip>>): (map<Ip, Bucket>, seq<Response>)
    requires cfg.Valid()
  {
    if reqs == [] then (map[], [])
    else
      var (m, resps) := Forever(cfg, reqs[..|reqs| - 1]);
      var (m', resp) := ForeverStep(cfg, m, reqs[|reqs| - 1]);
      (m', resps + [resp])
  }

  ghost predicate InOrder<Ip>(reqs: seq<Request<Ip>>) {
    forall i, j :: 0 <= i <= j < |reqs| ==> reqs[i].time <= reqs[j].time
  }

  // ------------------------------------------------------------------ eviction is invisible

  predicate GoodBucket(cfg: Config, b: Bucket, now: int) {
    0 <= b.credit <= cfg.Cap() && b.last <= now
  }

  /** What has been forgotten has become full again. */
  ghost predicate Simulates<Ip>(cfg: Config, es: seq<Entry<Ip, Bucket>>, m: map<Ip, Bucket>, now: int) {
    && Sorted(es) && Distinct(es) && UsedBy(es, now)
    && (forall ip :: ip in m ==> GoodBucket(cfg, m[ip], now))
    && (forall i :: 0 <= i < |es| ==> es[i].key in m && m[es[i].key] == es[i].value && es[i].value.last == es[i].t)
    && (forall ip :: ip in m && !HasKey(es, ip) ==> FullBy(cfg, m[ip], now))
  }

  predicate FullBy(cfg: Config, b: Bucket, now: int) {
    b.credit + (now - b.last) >= cfg.Cap()
  }

  lemma ServeKeepsGood(cfg: Config, b: Bucket, now: int)
    requires cfg.Valid() && GoodBucket(cfg, b, now)
    ensures GoodBucket(cfg, Serve(cfg, b, now).0, now)
    ensures cfg.burst >= 1 ==> Serve(cfg, b, now).0.last == now
  {
  }

  /** The choice of ttl: an idle bucket that expires has become full. */
  lemma TTLIsEnough(cfg: Config)
    requires cfg.Valid()
    ensures cfg.TTL() >= cfg.Cap() >= 0 && cfg.TTL() > 0
    ensures cfg.burst >= 1 ==> cfg.Cap() >= cfg.every
  {
    if cfg.burst >= 1 {
      assert cfg.burst * cfg.every >= cfg.every;
    }
  }

  lemma DropFull<Ip>(cfg: Config, es: seq<Entry<Ip, Bucket>>, m: map<Ip, Bucket>, n: nat, t: int, now: int)
    requires Simulates(cfg, es, m, t) && t <= now && n <= |es|
    requires forall i :: 0 <= i < n ==> FullBy(cfg, es[i].value, now)
    ensures Simulates(cfg, es[n..], m, now)
  {
    var rest := es[n..];
    assert forall i :: 0 <= i < |rest| ==> rest[i] == es[n + i];
    forall i | n <= i < |es| ensures HasKey(rest, es[i].key) {
      assert rest[i - n] == es[i];
    }
  }

  lemma EvictedHadRefilled<Ip>(cfg: Config, es: seq<Entry<Ip, Bucket>>, m: map<Ip, Bucket>, t: int, now: int)
    requires cfg.Valid() && Simulates(cfg, es, m, t) && t <= now
    ensures Simulates(cfg, es[Evicted(es, cfg.TTL(), At(now), 0)..], m, now)
  {
    var n := Evicted(es, cfg.TTL(), At(now), 0);
    EvictedWhenTested(es, cfg.TTL(), At(now), 0);
    TTLIsEnough(cfg);
    forall i | 0 <= i < n ensures FullBy(cfg, es[i].value, now) {
      assert Expired(es[i], cfg.TTL(), At(now)(0 + i));
      assert GoodBucket(cfg, m[es[i].key], t);
    }
    DropFull(cfg, es, m, n, t, now);
  }

  /** Serving a forgotten and refilled bucket and serving a new one is the same. */
  lemma FullIsNew(cfg: Config, b: Bucket, now: int)
    requires cfg.Valid() && cfg.burst >= 1 && FullBy(cfg, b, now)
    ensures Serve(cfg, b, now) == Serve(cfg, NewBucket(cfg, now), now)
  {
  }

  /** Changing the value of the last entry keeps the order and the keys. */
  lemma SetLastKeeps<Ip>(es: seq<Entry<Ip, Bucket>>, b: Bucket, now: int)
    requires es != [] && Sorted(es) && Distinct(es) && UsedBy(es, now)
    ensures var es' := es[..|es| - 1] + [es[|es| - 1].(value := b)];
      Sorted(es') && Distinct(es') && UsedBy(es', now)
  {
  }

  /** The bucket a request is served from is the never-evicting map's, or as good. */
  lemma TouchedBucket<Ip>(cfg: Config, es: seq<Entry<Ip, Bucket>>, m: map<Ip, Bucket>, r: Request<Ip>)
    requires cfg.Valid() && cfg.burst >= 1 && Simulates(cfg, es, m, r.time)
    ensures var touched := Touch(es, r.ip, NewBucket(cfg, r.time), r.time);
      var e := touched[|touched| - 1];
      && e.key == r.ip && e.t == r.time
      && Serve(cfg, e.value, r.time).1 == ForeverStep(cfg, m, r).1
      && m[r.ip := Serve(cfg, e.value, r.time).0] == ForeverStep(cfg, m, r).0
  {
    if r.ip in m && !HasKey(es, r.ip) {
      FullIsNew(cfg, m[r.ip], r.time);
    }
  }

  lemma TouchSimulates<Ip>(cfg: Config, es: seq<Entry<Ip, Bucket>>, m: map<Ip, Bucket>, r: Request<Ip>, b: Bucket)
    requires cfg.Valid() && cfg.burst >= 1 && Simulates(cfg, es, m, r.time)
    requires GoodBucket(cfg, b, r.time) && b.last == r.time
    ensures var touched := Touch(es, r.ip, NewBucket(cfg, r.time), r.time);
      Simulates(cfg, touched[..|touched| - 1] + [touched[|touched| - 1].(value := b)], m[r.ip := b], r.time)
  {
    var touched := Touch(es, r.ip, NewBucket(cfg, r.time), r.time);
    var es' := touched[..|touched| - 1] + [touched[|touched| - 1].(value := b)];
    var m' := m[r.ip := b];
    TouchKeeps(es, r.ip, NewBucket(cfg, r.time), r.time);
    TouchedEntries(es, r.ip, NewBucket(cfg, r.time), r.time);
    SetLastKeeps(touched, b, r.time);
    forall i | 0 <= i < |es'| ensures es'[i].key in m' && m'[es'[i].key] == es'[i].value && es'[i].value.last == es'[i].t {
      if i < |es'| - 1 {
        assert es'[i] == touched[i] && touched[i] in es;
      }
    }
    forall i | 0 <= i < |es| ensures HasKey(es', es[i].key) {
      if es[i].key != r.ip {
        var j :| 0 <= j < |touched| && touched[j] == es[i];
        assert es'[j].key == es[i].key;
      } else {
        assert es'[|es'| - 1].key == es[i].key;
      }
    }
    assert es'[|es'| - 1].key == r.ip;
  }

  lemma StepSimulates<Ip>(cfg: Config, es: seq<Entry<Ip, Bucket>>, m: map<Ip, Bucket>, t: int, r: Request<Ip>)
    requires cfg.Valid() && cfg.burst >= 1 && Simulates(cfg, es, m, t) && t <= r.time
    ensures EvictingStep(cfg, es, r).1 == ForeverStep(cfg, m, r).1
    ensures Simulates(cfg, EvictingStep(cfg, es, r).0, ForeverStep(cfg, m, r).0, r.time)
  {
    var rest := es[Evicted(es, cfg.TTL(), At(r.time), 0)..];
    EvictedHadRefilled(cfg, es, m, t, r.time);
    TouchedBucket(cfg, rest, m, r);
    TTLIsEnough(cfg);
    var b0 := if r.ip in m then m[r.ip] else NewBucket(cfg, r.time);
    ServeKeepsGood(cfg, b0, r.time);
    TouchSimulates(cfg, rest, m, r, ForeverStep(cfg, m, r).0[r.ip]);
  }

  lemma {:induction false} RunsSimulate<Ip>(cfg: Config, reqs: seq<Request<Ip>>)
    requires cfg.Valid() && cfg.burst >= 1 && InOrder(reqs)
    ensures Evicting(cfg, reqs).1 == Forever(cfg, reqs).1
    ensures reqs != [] ==> Simulates(cfg, Evicting(cfg, reqs).0, Forever(cfg, reqs).0, reqs[|reqs| - 1].time)
  {
    if reqs != [] {
      var before, r := reqs[..|reqs| - 1], reqs[|reqs| - 1];
      RunsSimulate(cfg, before);
      StepSimulates(cfg, Evicting(cfg, before).0, Forever(cfg, before).0,
                    if before == [] then r.time else before[|before| - 1].time, r);
    }
  }

  lemma {:induction false} NothingAdmitted<Ip>(cfg: Config, reqs: seq<Request<Ip>>)
    requires cfg.Valid() && cfg.burst < 1
    ensures Evicting(cfg, reqs).1 == Forever(cfg, reqs).1
    ensures |Forever(cfg, reqs).1| == |reqs|
    ensures forall i :: 0 <= i < |reqs| ==> Forever(cfg, reqs).1[i] == Rejected(None)
  {
    if reqs != [] {
      NothingAdmitted(cfg, reqs[..|reqs| - 1]);
    }
  }

  /** Eviction is invisible: on every trace of requests, from any addresses, the limiter
      over the expiring map answers exactly as one that never forgets a bucket. */
  lemma {:induction false} EvictionIsInvisible<Ip>(cfg: Config, reqs: seq<Request<Ip>>)
    requires cfg.Valid() && InOrder(reqs)
    ensures Evicting(cfg, reqs).1 == Forever(cfg, reqs).1
  {
    if cfg.burst >= 1 {
      RunsSimulate(cfg, reqs);
    } else {
      NothingAdmitted(cfg, reqs);
    }
  }

  // ------------------------------------------------------------------ who is admitted

  function Responses<Ip(==)>(cfg: Config, reqs: seq<Request<Ip>>): seq<Response>
    requires cfg.Valid()
  {
    Evicting(cfg, reqs).1
  }

  lemma {:induction false} ForeverLength<Ip>(cfg: Config, reqs: seq<Request<Ip>>)
    requires cfg.Valid()
    ensures |Forever(cfg, reqs).1| == |reqs|
  {
    if reqs != [] {
      ForeverLength(cfg, reqs[..|reqs| - 1]);
    }
  }

  /** Earlier responses do not depend on later requests. */
  lemma {:induction false} ForeverPrefix<Ip>(cfg: Config, reqs: seq<Request<Ip>>, n: nat)
    requires cfg.Valid() && n <= |reqs|
    ensures |Forever(cfg, reqs).1| == |reqs| && Forever(cfg, reqs[..n]).1 == Forever(cfg, reqs).1[..n]
  {
    ForeverLength(cfg, reqs);
    ForeverLength(cfg, reqs[..n]);
    if n < |reqs| {
      ForeverPrefix(cfg, reqs[..|reqs| - 1], n);
      assert reqs[..|reqs| - 1][..n] == reqs[..n];
    } else {
      assert reqs[..n] == reqs;
    }
  }

  /** How many of the requests `lo..hi` of `ip` were admitted. */
  function Admissions<Ip(==)>(reqs: seq<Request<Ip>>, resps: seq<Response>, ip: Ip, lo: nat, hi: nat): nat
    requires lo <= hi <= |reqs| && |resps| == |reqs|
    decreases hi
  {
    if lo == hi then 0
    else
      Admissions(reqs, resps, ip, lo, hi - 1)
      + (if reqs[hi - 1].ip == ip && resps[hi - 1] == Admitted then 1 else 0)
  }

  /** The sliding-window rule: one more admission keeps every window that ends now within
      the burst plus what is earned over its length. */
  ghost predicate WithinEveryWindow<Ip>(cfg: Config, reqs: seq<Request<Ip>>, resps: seq<Response>, ip: Ip, n: nat, now: int)
    requires n <= |reqs| && |resps| == |reqs|
  {
    cfg.burst >= 1 && forall i: nat | i < n ::
      (Admissions(reqs, resps, ip, i, n) + 1) * cfg.every <= cfg.burst * cfg.every + (now - reqs[i].time)
  }

  /** The credit of `ip` at `now`, a missing bucket counting as full. */
  function Available<Ip>(cfg: Config, m: map<Ip, Bucket>, ip: Ip, now: int): int {
    if ip in m then Refill(cfg, m[ip], now).credit else cfg.Cap()
  }

  /** Every window that starts at an earlier request leaves at least `x` units. */
  ghost predicate WindowsLeave<Ip>(cfg: Config, reqs: seq<Request<Ip>>, resps: seq<Response>, ip: Ip, n: nat, now: int, x: int)
    requires n <= |reqs| && |resps| == |reqs|
  {
    x <= cfg.Cap() && forall i: nat | i < n ::
      x <= cfg.Cap() + (now - reqs[i].time) - cfg.every * Admissions(reqs, resps, ip, i, n)
  }

  lemma AvailableStep<Ip>(cfg: Config, m: map<Ip, Bucket>, r: Request<Ip>, ip: Ip, now: int)
    requires cfg.Valid() && cfg.burst >= 1 && r.time <= now
    ensures var (m', resp) := ForeverStep(cfg, m, r);
      var spent := if r.ip == ip && resp == Admitted then cfg.every else 0;
      Available(cfg, m', ip, now) == Min(cfg.Cap(), Available(cfg, m, ip, r.time) - spent + (now - r.time))
  {
    TTLIsEnough(cfg);
  }

  /** The responses of a prefix, one request further. */
  lemma {:induction false} ForeverNext<Ip>(cfg: Config, reqs: seq<Request<Ip>>, n: nat)
    requires cfg.Valid() && 0 < n <= |reqs|
    ensures |Forever(cfg, reqs).1| == |reqs|
    ensures Forever(cfg, reqs[..n]).0 == ForeverStep(cfg, Forever(cfg, reqs[..n - 1]).0, reqs[n - 1]).0
    ensures Forever(cfg, reqs).1[n - 1] == ForeverStep(cfg, Forever(cfg, reqs[..n - 1]).0, reqs[n - 1]).1
  {
    ForeverPrefix(cfg, reqs, n);
    ForeverLength(cfg, reqs[..n - 1]);
    assert reqs[..n][..n - 1] == reqs[..n - 1];
    assert Forever(cfg, reqs[..n]).1[n - 1] == Forever(cfg, reqs).1[n - 1];
  }

  /** The bucket's credit is the least that any earlier window leaves. */
  lemma {:induction false} CreditIsTightestWindow<Ip>(cfg: Config, reqs: seq<Request<Ip>>, ip: Ip, n: nat, now: int, x: int)
    requires cfg.Valid() && cfg.burst >= 1 && n <= |reqs| && |Forever(cfg, reqs).1| == |reqs|
    requires n > 0 ==> reqs[n - 1].time <= now
    requires InOrder(reqs)
    ensures x <= Available(cfg, Forever(cfg, reqs[..n]).0, ip, now)
      <==> WindowsLeave(cfg, reqs, Forever(cfg, reqs).1, ip, n, now, x)
  {
    if n > 0 {
      var resps, r := Forever(cfg, reqs).1, reqs[n - 1];
      var m := Forever(cfg, reqs[..n - 1]).0;
      var spent := if r.ip == ip && resps[n - 1] == Admitted then cfg.every else 0;
      var x' := x + spent - (now - r.time);
      ForeverNext(cfg, reqs, n);
      AvailableStep(cfg, m, r, ip, now);
      CreditIsTightestWindow(cfg, reqs, ip, n - 1, r.time, x');
      WindowsStep(cfg, reqs, resps, ip, n, now, x, spent);
    }
  }

  lemma {:induction false} WindowsStep<Ip>(cfg: Config, reqs: seq<Request<Ip>>, resps: seq<Response>, ip: Ip, n: nat, now: int, x: int, spent: int)
    requires 0 < n <= |reqs| && |resps| == |reqs|
    requires spent == if reqs[n - 1].ip == ip && resps[n - 1] == Admitted then cfg.every else 0
    ensures WindowsLeave(cfg, reqs, resps, ip, n, now, x) <==>
      x <= cfg.Cap() && WindowsLeave(cfg, reqs, resps, ip, n - 1, reqs[n - 1].time, x + spent - (now - reqs[n - 1].time))
  {
    forall i: nat | i < n
      ensures cfg.every * Admissions(reqs, resps, ip, i, n) == cfg.every * Admissions(reqs, resps, ip, i, n - 1) + spent
    {
      var a := Admissions(reqs, resps, ip, i, n - 1);
      assert cfg.every * (a + 1) == cfg.every * a + cfg.every;
    }
    assert Admissions(reqs, resps, ip, n - 1, n - 1) == 0;
  }

  /** One more admission fits iff the windows leave room for it. */
  lemma OneMoreFits<Ip>(cfg: Config, reqs: seq<Request<Ip>>, resps: seq<Response>, ip: Ip, k: nat, now: int)
    requires cfg.Valid() && cfg.burst >= 1 && k <= |reqs| && |resps| == |reqs|
    ensures WindowsLeave(cfg, reqs, resps, ip, k, now, cfg.every) <==> WithinEveryWindow(cfg, reqs, resps, ip, k, now)
  {
    TTLIsEnough(cfg);
    forall i: nat | i < k
      ensures (Admissions(reqs, resps, ip, i, k) + 1) * cfg.every == cfg.every * Admissions(reqs, resps, ip, i, k) + cfg.every
    {
    }
  }

  /** Who is admitted, without buckets: a request passes exactly when it keeps the bound on
      every window that ends with it.  In particular no request is refused that could have
      been admitted within the bound. */
  lemma {:induction false} AdmittedExactlyWhen<Ip>(cfg: Config, reqs: seq<Request<Ip>>, k: nat)
    requires cfg.Valid() && InOrder(reqs) && k < |reqs|
    ensures |Responses(cfg, reqs)| == |reqs|
    ensures Responses(cfg, reqs)[k] == Admitted <==>
            WithinEveryWindow(cfg, reqs, Responses(cfg, reqs), reqs[k].ip, k, reqs[k].time)
  {
    EvictionIsInvisible(cfg, reqs);
    if cfg.burst < 1 {
      NothingAdmitted(cfg, reqs);
    } else {
      var resps, r := Forever(cfg, reqs).1, reqs[k];
      ForeverNext(cfg, reqs, k + 1);
      CreditIsTightestWindow(cfg, reqs, r.ip, k, r.time, cfg.every);
      OneMoreFits(cfg, reqs, resps, r.ip, k, r.time);
    }
  }

  /** The admission bound, over any window of any run and for any address: at most the
      burst plus one for each `every` of its length, whatever was evicted in between. */
  lemma {:induction false} AdmissionBound<Ip>(cfg: Config, reqs: seq<Request<Ip>>, ip: Ip, i: nat, j: nat)
    requires cfg.Valid() && InOrder(reqs) && i <= j < |reqs|
    ensures |Responses(cfg, reqs)| == |reqs|
    ensures Admissions(reqs, Responses(cfg, reqs), ip, i, j + 1) * cfg.every
            <= cfg.Cap() + (reqs[j].time - reqs[i].time)
    decreases j
  {
    var resps := Responses(cfg, reqs);
    AdmittedExactlyWhen(cfg, reqs, j);
    TTLIsEnough(cfg);
    if reqs[j].ip == ip && resps[j] == Admitted {
      if i == j {
        assert Admissions(reqs, resps, ip, j, j) == 0;
      }
    } else if i < j {
      AdmissionBound(cfg, reqs, ip, i, j - 1);
    } else {
      assert Admissions(reqs, resps, ip, j, j) == 0;
    }
  }

  // ------------------------------------------------------------------ who is remembered

  /** The `j`-th request is the last one of the address. */
  predicate LastRequest<Ip(==)>(reqs: seq<Request<Ip>>, ip: Ip, j: nat) {
    j < |reqs| && reqs[j].ip == ip && forall i :: j < i < |reqs| ==> reqs[i].ip != ip
  }

  function Lasts<Ip(==)>(reqs: seq<Request<Ip>>): map<Ip, int> {
    if reqs == [] then map[] else Lasts(reqs[..|reqs| - 1])[reqs[|reqs| - 1].ip := reqs[|reqs| - 1].time]
  }

  lemma {:induction false} LastsAreLast<Ip>(reqs: seq<Request<Ip>>, ip: Ip)
    ensures ip in Lasts(reqs) <==> exists j: nat :: LastRequest(reqs, ip, j)
    ensures forall j: nat :: LastRequest(reqs, ip, j) ==> ip in Lasts(reqs) && Lasts(reqs)[ip] == reqs[j].time
  {
    if reqs != [] {
      var n := |reqs| - 1;
      var before := reqs[..n];
      LastsAreLast(before, ip);
      if reqs[n].ip == ip {
        assert LastRequest(reqs, ip, n);
      } else {
        forall j: nat ensures LastRequest(reqs, ip, j) <==> LastRequest(before, ip, j) {
          assert j < n && LastRequest(reqs, ip, j) ==> forall i :: j < i < n ==> before[i] == reqs[i];
        }
      }
    }
  }

  /** The list holds the addresses used less than `ttl` ago, each with its last use. */
  ghost predicate Remembers<Ip>(es: seq<Entry<Ip, Bucket>>, lasts: map<Ip, int>, ttl: int, now: int) {
    && Sorted(es) && Distinct(es) && UsedBy(es, now)
    && (forall i :: 0 <= i < |es| ==> es[i].key in lasts && lasts[es[i].key] == es[i].t && now - es[i].t < ttl)
    && (forall ip :: ip in lasts && now - lasts[ip] < ttl ==> HasKey(es, ip))
  }

  lemma DropForgets<Ip>(es: seq<Entry<Ip, Bucket>>, lasts: map<Ip, int>, ttl: int, t: int, now: int, n: nat)
    requires Remembers(es, lasts, ttl, t) && t <= now && n <= |es|
    requires forall j :: 0 <= j < |es| ==> (j < n <==> Expired(es[j], ttl, now))
    ensures Remembers(es[n..], lasts, ttl, now)
  {
    var rest := es[n..];
    assert forall i :: 0 <= i < |rest| ==> rest[i] == es[n + i];
    forall ip | ip in lasts && now - lasts[ip] < ttl ensures HasKey(rest, ip) {
      assert HasKey(es, ip);
      var j :| 0 <= j < |es| && es[j].key == ip;
      assert rest[j - n] == es[j];
    }
  }

  lemma EvictionForgets<Ip>(es: seq<Entry<Ip, Bucket>>, lasts: map<Ip, int>, ttl: int, t: int, now: int)
    requires Remembers(es, lasts, ttl, t) && t <= now
    ensures Remembers(es[Evicted(es, ttl, At(now), 0)..], lasts, ttl, now)
  {
    ScanSplits(es, ttl, At(now));
    DropForgets(es, lasts, ttl, t, now, Evicted(es, ttl, At(now), 0));
  }

  lemma TouchRemembers<Ip>(es: seq<Entry<Ip, Bucket>>, lasts: map<Ip, int>, ttl: int, ip: Ip, b: Bucket, now: int)
    requires Remembers(es, lasts, ttl, now) && ttl > 0
    ensures Remembers(Touch(es, ip, b, now), lasts[ip := now], ttl, now)
  {
    var es' := Touch(es, ip, b, now);
    TouchKeeps(es, ip, b, now);
    TouchedEntries(es, ip, b, now);
    forall i | 0 <= i < |es'| - 1 ensures es'[i].key in lasts && lasts[es'[i].key] == es'[i].t && now - es'[i].t < ttl {
      var j :| 0 <= j < |es| && es[j] == es'[i];
    }
    forall x | x in lasts[ip := now] && now - lasts[ip := now][x] < ttl ensures HasKey(es', x) {
      if x == ip {
        assert es'[|es'| - 1].key == ip;
      } else {
        assert HasKey(es, x);
        var j :| 0 <= j < |es| && es[j].key == x;
        assert es[j] in es';
      }
    }
  }

  /** The last entry's bucket does not matter. */
  lemma ValueDoesNotMatter<Ip>(es: seq<Entry<Ip, Bucket>>, lasts: map<Ip, int>, ttl: int, now: int, b: Bucket)
    requires es != [] && Remembers(es, lasts, ttl, now)
    ensures Remembers(es[..|es| - 1] + [es[|es| - 1].(value := b)], lasts, ttl, now)
  {
    var es' := es[..|es| - 1] + [es[|es| - 1].(value := b)];
    SetLastKeeps(es, b, now);
    forall ip | HasKey(es, ip) ensures HasKey(es', ip) {
      var j :| 0 <= j < |es| && es[j].key == ip;
      assert es'[j].key == ip;
    }
  }

  lemma StepRemembers<Ip>(cfg: Config, es: seq<Entry<Ip, Bucket>>, lasts: map<Ip, int>, t: int, r: Request<Ip>)
    requires cfg.Valid() && Remembers(es, lasts, cfg.TTL(), t) && t <= r.time
    ensures Remembers(EvictingStep(cfg, es, r).0, lasts[r.ip := r.time], cfg.TTL(), r.time)
  {
    var rest := es[Evicted(es, cfg.TTL(), At(r.time), 0)..];
    var touched := GetOrSet(es, cfg.TTL(), r.ip, NewBucket(cfg, r.time), At(r.time));
    TTLIsEnough(cfg);
    EvictionForgets(es, lasts, cfg.TTL(), t, r.time);
    TouchRemembers(rest, lasts, cfg.TTL(), r.ip, NewBucket(cfg, r.time), r.time);
    assert touched != [] && touched == Touch(rest, r.ip, NewBucket(cfg, r.time), r.time);
    var e := touched[|touched| - 1];
    ValueDoesNotMatter(touched, lasts[r.ip := r.time], cfg.TTL(), r.time, Serve(cfg, e.value, r.time).0);
  }

  lemma {:induction false} RunsRemember<Ip>(cfg: Config, reqs: seq<Request<Ip>>)
    requires cfg.Valid() && InOrder(reqs)
    ensures reqs != [] ==> Remembers(Evicting(cfg, reqs).0, Lasts(reqs), cfg.TTL(), reqs[|reqs| - 1].time)
  {
    if reqs != [] {
      var before, r := reqs[..|reqs| - 1], reqs[|reqs| - 1];
      RunsRemember(cfg, before);
      StepRemembers(cfg, Evicting(cfg, before).0, Lasts(before), if before == [] then r.time else before[|before| - 1].time, r);
    }
  }

  /** The size of the map, over all traces and any burst: after a request an address is
      listed iff its last request was less than `burst * every` ago, or less than `every` if
      the burst is not above one. */
  lemma ListedExactlyWhen<Ip>(cfg: Config, reqs: seq<Request<Ip>>, ip: Ip)
    requires cfg.Valid() && InOrder(reqs) && reqs != []
    ensures HasKey(Evicting(cfg, reqs).0, ip) <==>
      exists j: nat :: LastRequest(reqs, ip, j) &&
        reqs[|reqs| - 1].time - reqs[j].time < if cfg.burst > 1 then cfg.burst * cfg.every else cfg.every
  {
    RunsRemember(cfg, reqs);
    LastsAreLast(reqs, ip);
    var es := Evicting(cfg, reqs).0;
    if HasKey(es, ip) {
      var i :| 0 <= i < |es| && es[i].key == ip;
      var j: nat :| LastRequest(reqs, ip, j);
    }
  }

  // ------------------------------------------------------------------ Retry-After

  lemma {:induction false} OthersDoNotTouch<Ip>(cfg: Config, reqs: seq<Request<Ip>>, ip: Ip, lo: nat, hi: nat)
    requires cfg.Valid() && lo <= hi <= |reqs|
    requires forall i :: lo <= i < hi ==> reqs[i].ip != ip
    requires ip in Forever(cfg, reqs[..lo]).0
    ensures ip in Forever(cfg, reqs[..hi]).0
    ensures Forever(cfg, reqs[..hi]).0[ip] == Forever(cfg, reqs[..lo]).0[ip]
  {
    if lo < hi {
      OthersDoNotTouch(cfg, reqs, ip, lo, hi - 1);
      ForeverNext(cfg, reqs, hi);
    }
  }

  lemma CeilIsLeast(cfg: Config, delay: int)
    requires cfg.Valid() && delay > 0
    ensures CeilSeconds(cfg, delay) >= 1
    ensures (CeilSeconds(cfg, delay) - 1) * cfg.second < delay <= CeilSeconds(cfg, delay) * cfg.second
  {
    var n := delay + cfg.second - 1;
    assert n == (n / cfg.second) * cfg.second + n % cfg.second;
  }

  /** The same for one bucket, as the rejection left it. */
  lemma AdmittedAfter(cfg: Config, b: Bucket, now: int, seconds: int)
    requires cfg.Valid() && cfg.burst >= 1 && b.credit < cfg.every && seconds == CeilSeconds(cfg, cfg.every - b.credit)
    ensures now - b.last >= seconds * cfg.second ==> Serve(cfg, b, now).1 == Admitted
    ensures now - b.last <= (seconds - 1) * cfg.second ==> Serve(cfg, b, now).1 != Admitted
  {
    TTLIsEnough(cfg);
    CeilIsLeast(cfg, cfg.every - b.credit);
  }

  /** Retry-After is sufficient and not a second too long: an address that was rejected and
      sends nothing more is admitted on its next request if the advertised seconds have
      passed, and is rejected if they have not passed by a whole second.  Other addresses
      may send anything meanwhile, and the bucket may have been evicted. */
  lemma {:induction false} RetryAfterIsExact<Ip>(cfg: Config, reqs: seq<Request<Ip>>, k: nat, n: nat, seconds: int)
    requires cfg.Valid() && InOrder(reqs) && k < n < |reqs|
    requires reqs[n].ip == reqs[k].ip && forall i :: k < i < n ==> reqs[i].ip != reqs[k].ip
    requires |Responses(cfg, reqs)| == |reqs| && Responses(cfg, reqs)[k] == Rejected(Some(seconds))
    ensures reqs[n].time - reqs[k].time >= seconds * cfg.second ==> Responses(cfg, reqs)[n] == Admitted
    ensures reqs[n].time - reqs[k].time <= (seconds - 1) * cfg.second ==> Responses(cfg, reqs)[n] != Admitted
  {
    EvictionIsInvisible(cfg, reqs);
    if cfg.burst < 1 {
      NothingAdmitted(cfg, reqs);
    } else {
      RejectedBucket(cfg, reqs, k, seconds);
      NextUsesBucket(cfg, reqs, k, n);
      AdmittedAfter(cfg, Forever(cfg, reqs[..k + 1]).0[reqs[k].ip], reqs[n].time, seconds);
    }
  }

  /** How a rejection leaves the bucket. */
  lemma RejectedBucket<Ip>(cfg: Config, reqs: seq<Request<Ip>>, k: nat, seconds: int)
    requires cfg.Valid() && cfg.burst >= 1 && k < |reqs|
    requires |Forever(cfg, reqs).1| == |reqs| && Forever(cfg, reqs).1[k] == Rejected(Some(seconds))
    ensures reqs[k].ip in Forever(cfg, reqs[..k + 1]).0
    ensures var b := Forever(cfg, reqs[..k + 1]).0[reqs[k].ip];
      b.last == reqs[k].time && b.credit < cfg.every && seconds == CeilSeconds(cfg, cfg.every - b.credit)
  {
    ForeverNext(cfg, reqs, k + 1);
  }

  /** The next request of the address is served from that bucket. */
  lemma NextUsesBucket<Ip>(cfg: Config, reqs: seq<Request<Ip>>, k: nat, n: nat)
    requires cfg.Valid() && k < n < |reqs|
    requires reqs[n].ip == reqs[k].ip && forall i :: k < i < n ==> reqs[i].ip != reqs[k].ip
    ensures reqs[k].ip in Forever(cfg, reqs[..k + 1]).0 && |Forever(cfg, reqs).1| == |reqs|
    ensures Forever(cfg, reqs).1[n] == Serve(cfg, Forever(cfg, reqs[..k + 1]).0[reqs[k].ip], reqs[n].time).1
  {
    var ip := reqs[k].ip;
    assert ip in Forever(cfg, reqs[..k + 1]).0 by {
      ForeverNext(cfg, reqs, k + 1);
    }
    OthersDoNotTouch(cfg, reqs, ip, k + 1, n);
    KnownIsServed(cfg, Forever(cfg, reqs[..n]).0, reqs[n]);
    ForeverNext(cfg, reqs, n + 1);
  }

  lemma KnownIsServed<Ip>(cfg: Config, m: map<Ip, Bucket>, r: Request<Ip>)
    requires cfg.Valid() && r.ip in m
    ensures ForeverStep(cfg, m, r).1 == Serve(cfg, m[r.ip], r.time).1
  {
  }

  /** An address with a burst is told how long to wait; without one, that waiting is useless. */
  lemma {:induction false} RetryAfterPresent<Ip>(cfg: Config, reqs: seq<Request<Ip>>, k: nat)
    requires cfg.Valid() && InOrder(reqs) && k < |reqs|
    ensures |Responses(cfg, reqs)| == |reqs|
    ensures Responses(cfg, reqs)[k] == Rejected(None) <==> cfg.burst < 1
    ensures Responses(cfg, reqs)[k].Rejected? && cfg.burst >= 1 ==> Responses(cfg, reqs)[k].retryAfter.value >= 1
  {
    EvictionIsInvisible(cfg, reqs);
    if cfg.burst < 1 {
      NothingAdmitted(cfg, reqs);
    } else {
      ForeverNext(cfg, reqs, k + 1);
      var (b, resp) := ForeverStep(cfg, Forever(cfg, reqs[..k]).0, reqs[k]);
      if resp.Rejected? {
        CeilIsLeast(cfg, cfg.every - b[reqs[k].ip].credit);
      }
    }
  }
}
