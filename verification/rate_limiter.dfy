/** The middleware itself: limiters are shared by the requests of one address, and the
    map that holds them is updated in place. */
module RateLimiters {
  import opened Wrappers
  import opened TTLSpec
  import opened TTLMaps
  import opened RateLimits

  // The list operations only look at keys and times, so they commute with reading off
  // each limiter's bucket.

  ghost function ReadOff<K, A, B>(es: seq<Entry<K, A>>, f: map<A, B>): (fs: seq<Entry<K, B>>)
    requires forall i :: 0 <= i < |es| ==> es[i].value in f
    ensures |fs| == |es|
    ensures forall i :: 0 <= i < |es| ==> fs[i] == Entry(es[i].key, f[es[i].value], es[i].t)
  {
    seq(|es|, i requires 0 <= i < |es| => Entry(es[i].key, f[es[i].value], es[i].t))
  }

  /** No two entries hold the same value, and all values are in `vs`. */
  ghost predicate Own<K, V>(es: seq<Entry<K, V>>, vs: set<V>) {
    && (forall i :: 0 <= i < |es| ==> es[i].value in vs)
    && (forall i, j :: 0 <= i < j < |es| ==> es[i].value != es[j].value)
  }

  lemma {:induction false} SameEvicted<K, A, B>(es: seq<Entry<K, A>>, fs: seq<Entry<K, B>>, ttl: int, tick: nat -> int, i: nat)
    requires |es| == |fs| && forall j :: 0 <= j < |es| ==> es[j].t == fs[j].t
    ensures Evicted(es, ttl, tick, i) == Evicted(fs, ttl, tick, i)
  {
    if es != [] {
      SameEvicted(es[1..], fs[1..], ttl, tick, i + 1);
    }
  }

  lemma {:induction false} SameFind<K, A, B>(es: seq<Entry<K, A>>, fs: seq<Entry<K, B>>, k: K)
    requires |es| == |fs| && forall j :: 0 <= j < |es| ==> es[j].key == fs[j].key
    ensures Find(es, k) == Find(fs, k)
  {
    if es != [] {
      SameFind(es[1..], fs[1..], k);
    }
  }

  lemma TouchOwn<K, V>(es: seq<Entry<K, V>>, vs: set<V>, k: K, v: V, now: int)
    requires Own(es, vs) && v !in vs
    ensures Own(Touch(es, k, v, now), vs + {v})
  {
    var r, es' := Find(es, k), Touch(es, k, v, now);
    if r.Some? {
      assert forall i :: 0 <= i < |es| - 1 ==> es'[i] == if i < r.value then es[i] else es[i + 1];
    }
  }

  lemma TouchReadOff<K, A, B>(es: seq<Entry<K, A>>, f: map<A, B>, k: K, a: A, now: int)
    requires Own(es, f.Keys - {a}) && a in f
    ensures Own(Touch(es, k, a, now), f.Keys)
    ensures ReadOff(Touch(es, k, a, now), f) == Touch(ReadOff(es, f), k, f[a], now)
  {
    TouchOwn(es, f.Keys - {a}, k, a, now);
    assert f.Keys - {a} + {a} == f.Keys;
    SameFind(es, ReadOff(es, f), k);
    TouchedValues(es, f, k, a, now);
  }

  lemma TouchedValues<K, A, B>(es: seq<Entry<K, A>>, f: map<A, B>, k: K, a: A, now: int)
    requires Own(es, f.Keys) && Own(Touch(es, k, a, now), f.Keys) && a in f
    requires Find(es, k) == Find(ReadOff(es, f), k)
    ensures ReadOff(Touch(es, k, a, now), f) == Touch(ReadOff(es, f), k, f[a], now)
  {
    var fs, es' := ReadOff(es, f), Touch(es, k, a, now);
    var lhs, rhs := ReadOff(es', f), Touch(fs, k, f[a], now);
    var r, n := Find(es, k), |es|;
    assert |lhs| == |rhs|;
    forall i | 0 <= i < |lhs| ensures lhs[i] == rhs[i] {
      if r.Some? {
        var from := if i < r.value then i else if i < n - 1 then i + 1 else r.value;
        assert es'[i] == if i < n - 1 then es[from] else Entry(k, es[r.value].value, now);
        assert rhs[i] == if i < n - 1 then fs[from] else Entry(k, fs[r.value].value, now);
      } else {
        assert es'[i] == if i < n then es[i] else Entry(k, a, now);
        assert rhs[i] == if i < n then fs[i] else Entry(k, f[a], now);
      }
    }
  }

  lemma GetOrSetReadOff<K, A, B>(es: seq<Entry<K, A>>, f: map<A, B>, ttl: int, k: K, a: A, tick: nat -> int)
    requires Own(es, f.Keys - {a}) && a in f
    ensures Own(TTLSpec.GetOrSet(es, ttl, k, a, tick), f.Keys)
    ensures ReadOff(TTLSpec.GetOrSet(es, ttl, k, a, tick), f) == TTLSpec.GetOrSet(ReadOff(es, f), ttl, k, f[a], tick)
  {
    SameEvicted(es, ReadOff(es, f), ttl, tick, 0);
    var n := Evicted(es, ttl, tick, 0);
    DropReadOff(es, f, a, n);
    TouchReadOff(es[n..], f, k, a, tick(Tests(es, ttl, tick)));
  }

  /** The same with a value that is new to `f`. */
  lemma GetOrSetNew<K, A, B>(es: seq<Entry<K, A>>, f: map<A, B>, ttl: int, k: K, a: A, b: B, tick: nat -> int)
    requires Own(es, f.Keys) && a !in f
    ensures Own(TTLSpec.GetOrSet(es, ttl, k, a, tick), f[a := b].Keys)
    ensures ReadOff(TTLSpec.GetOrSet(es, ttl, k, a, tick), f[a := b]) == TTLSpec.GetOrSet(ReadOff(es, f), ttl, k, b, tick)
  {
    assert f[a := b].Keys - {a} == f.Keys;
    GetOrSetReadOff(es, f[a := b], ttl, k, a, tick);
    assert ReadOff(es, f[a := b]) == ReadOff(es, f);
  }

  /** The key is still listed when the expired entries are gone. */
  ghost predicate Hits<K, V>(es: seq<Entry<K, V>>, ttl: int, k: K, tick: nat -> int) {
    HasKey(es[Evicted(es, ttl, tick, 0)..], k)
  }

  /** A hit puts no new value into the list. */
  lemma HitKeepsValues<K, A, B>(es: seq<Entry<K, A>>, f: map<A, B>, ttl: int, k: K, a: A, b: B, tick: nat -> int)
    requires Own(es, f.Keys) && a !in f && Hits(es, ttl, k, tick)
    ensures var es' := TTLSpec.GetOrSet(es, ttl, k, a, tick);
      Own(es', f.Keys) && ReadOff(es', f[a := b]) == ReadOff(es', f)
  {
    var rest := es[Evicted(es, ttl, tick, 0)..];
    var r, es' := Find(rest, k), TTLSpec.GetOrSet(es, ttl, k, a, tick);
    assert Own(rest, f.Keys);
    assert forall i :: 0 <= i < |es'| ==>
      es'[i].value == if i == |es'| - 1 then rest[r.value].value else if i < r.value then rest[i].value else rest[i + 1].value;
  }

  /** A store gives out its numbers in order. */
  ghost predicate Numbered<B>(f: map<nat, B>) {
    forall x :: x in f ==> x < |f|
  }

  ghost function MakeIf<B>(f: map<nat, B>, made: bool, b: B): map<nat, B> {
    if made then f[|f| := b] else f
  }

  /** Both cases of a lookup: the store gets a new value, or it stays as it is. */
  lemma GetOrMake<K, B>(es: seq<Entry<K, nat>>, f: map<nat, B>, ttl: int, k: K, b: B, tick: nat -> int, f': map<nat, B>)
    requires Own(es, f.Keys) && Numbered(f)
    requires f' == f[|f| := b] || (f' == f && Hits(es, ttl, k, tick))
    ensures var es' := TTLSpec.GetOrSet(es, ttl, k, |f|, tick);
      && Own(es', f'.Keys) && Numbered(f') && ReadOff(es', f') == TTLSpec.GetOrSet(ReadOff(es, f), ttl, k, b, tick)
      && es' != [] && es'[|es'| - 1].value in f'
  {
    var a := |f|;
    GetOrSetNew(es, f, ttl, k, a, b, tick);
    if f' == f {
      HitKeepsValues(es, f, ttl, k, a, b, tick);
    }
  }

  lemma DropReadOff<K, A, B>(es: seq<Entry<K, A>>, f: map<A, B>, a: A, n: nat)
    requires Own(es, f.Keys - {a}) && n <= |es|
    ensures Own(es[n..], f.Keys - {a}) && ReadOff(es[n..], f) == ReadOff(es, f)[n..]
  {
  }

  lemma UpdateLast<K, A, B>(es: seq<Entry<K, A>>, f: map<A, B>, b: B)
    requires es != [] && Own(es, f.Keys)
    ensures var e := es[|es| - 1];
      Own(es, f[e.value := b].Keys)
      && ReadOff(es, f[e.value := b]) == ReadOff(es, f)[..|es| - 1] + [Entry(e.key, b, e.t)]
  {
  }

  lemma StepFromTouched<Ip>(cfg: Config, es: seq<Entry<Ip, Bucket>>, r: Request<Ip>,
                            touched: seq<Entry<Ip, Bucket>>, b: Bucket, resp: Response)
    requires cfg.Valid() && touched != []
    requires touched == TTLSpec.GetOrSet(es, cfg.TTL(), r.ip, NewBucket(cfg, r.time), At(r.time))
    requires (b, resp) == Serve(cfg, touched[|touched| - 1].value, r.time)
    ensures var e := touched[|touched| - 1];
      EvictingStep(cfg, es, r) == (touched[..|touched| - 1] + [Entry(e.key, b, e.t)], resp)
  {
  }

  lemma StepIsUsed<Ip>(cfg: Config, es: seq<Entry<Ip, Bucket>>, r: Request<Ip>)
    requires cfg.Valid() && UsedBy(es, r.time)
    ensures UsedBy(EvictingStep(cfg, es, r).0, r.time)
  {
    var touched := TTLSpec.GetOrSet(es, cfg.TTL(), r.ip, NewBucket(cfg, r.time), At(r.time));
    var rest := es[Evicted(es, cfg.TTL(), At(r.time), 0)..];
    assert UsedBy(rest, r.time);
    var k := Find(rest, r.ip);
    assert forall i :: 0 <= i < |touched| - 1 ==>
      touched[i] == if k.Some? && i >= k.value then rest[i + 1] else rest[i];
  }

  /** `limiters` is the store of rate.Limiter objects and the map holds references into
      it; a forgotten limiter stays in the store but nothing refers to it. */
  class RateLimiter<Ip(==)> {
    const cfg: Config
    const ipLimiterMap: TTLMap<Ip, nat>
    var limiters: map<nat, Bucket>

    constructor (cfg: Config)
      requires cfg.Valid()
      ensures Valid() && Buckets() == [] && this.cfg == cfg
    {
      this.cfg, limiters := cfg, map[];
      ipLimiterMap := new TTLMap(cfg.TTL());
    }

    /** Every address has a limiter of its own. */
    ghost predicate Valid()
      reads this, ipLimiterMap, ipLimiterMap.list
    {
      && cfg.Valid() && ipLimiterMap.Valid() && ipLimiterMap.ttl == cfg.TTL()
      && Own(ipLimiterMap.Entries(), limiters.Keys)
      && Numbered(limiters)
    }

    /** The limiters' state, in the order of the recency list. */
    ghost function Buckets(): seq<Entry<Ip, Bucket>>
      reads this, ipLimiterMap, ipLimiterMap.list
      requires Valid()
    {
      ReadOff(ipLimiterMap.Entries(), limiters)
    }

    /** Lines 138-141: find the limiter of an address; a new one is made only on a miss. */
    method Lookup(ip: Ip, now: int) returns (limiter: nat, made: bool)
      requires Valid() && UsedBy(Buckets(), now)
      modifies this, ipLimiterMap, ipLimiterMap.list
      ensures Valid() && limiter in limiters
      ensures fresh(set x <- ipLimiterMap.list | x !in old(ipLimiterMap.list))
      ensures Buckets() == TTLSpec.GetOrSet(old(Buckets()), cfg.TTL(), ip, NewBucket(cfg, now), At(now))
      ensures ipLimiterMap.Entries() != []
      ensures limiter == ipLimiterMap.Entries()[|ipLimiterMap.Entries()| - 1].value
      ensures made <==> !Hits(old(ipLimiterMap.Entries()), cfg.TTL(), ip, At(now))
      ensures limiters == MakeIf(old(limiters), made, NewBucket(cfg, now))
    {
      ghost var es, bs, f := ipLimiterMap.Entries(), Buckets(), limiters;
      assert forall i :: 0 <= i < |es| ==> es[i].t == bs[i].t;
      limiter, made := Fetch(ip, |limiters|, now);
      GetOrMake(es, f, cfg.TTL(), ip, NewBucket(cfg, now), At(now), MakeIf(f, made, NewBucket(cfg, now)));
      Make(made, NewBucket(cfg, now));
    }

    /** A new limiter gets the next number of the store. */
    method Make(made: bool, b: Bucket)
      requires cfg.Valid() && ipLimiterMap.Valid() && ipLimiterMap.ttl == cfg.TTL()
      requires Own(ipLimiterMap.Entries(), MakeIf(limiters, made, b).Keys) && Numbered(MakeIf(limiters, made, b))
      modifies `limiters
      ensures Valid() && limiters == MakeIf(old(limiters), made, b)
      ensures ipLimiterMap.Entries() == old(ipLimiterMap.Entries())
      ensures Buckets() == ReadOff(old(ipLimiterMap.Entries()), limiters)
    {
      if made {
        limiters := limiters[|limiters| := b];
      }
    }

    /** The map's part of a lookup. */
    method Fetch(ip: Ip, candidate: nat, now: int) returns (limiter: nat, made: bool)
      requires ipLimiterMap.Valid() && UsedBy(ipLimiterMap.Entries(), now)
      modifies ipLimiterMap, ipLimiterMap.list
      ensures ipLimiterMap.Valid() && fresh(set x <- ipLimiterMap.list | x !in old(ipLimiterMap.list))
      ensures ipLimiterMap.Entries() == TTLSpec.GetOrSet(old(ipLimiterMap.Entries()), ipLimiterMap.ttl, ip, candidate, At(now))
      ensures ipLimiterMap.Entries() != []
      ensures limiter == ipLimiterMap.Entries()[|ipLimiterMap.Entries()| - 1].value
      ensures made <==> !Hits(old(ipLimiterMap.Entries()), ipLimiterMap.ttl, ip, At(now))
    {
      limiter, made := ipLimiterMap.GetOrSet(ip, candidate, At(now));
    }

    /** Lines 143-151: reserve a token, which may take the credit below zero, and give it
        back if it is not available yet.  A burst below one can never be reserved. */
    method Reserve(limiter: nat, now: int) returns (resp: Response)
      requires cfg.Valid() && limiter in limiters
      modifies this`limiters
      ensures limiter in limiters && limiters == old(limiters)[limiter := limiters[limiter]]
      ensures (limiters[limiter], resp) == Serve(cfg, old(limiters)[limiter], now)
    {
      if cfg.burst < 1 {
        return Rejected(None);
      }
      var refilled := Refill(cfg, limiters[limiter], now);
      limiters := limiters[limiter := refilled.(credit := refilled.credit - cfg.every)];
      var delay := if limiters[limiter].credit < 0 then -limiters[limiter].credit else 0;
      if delay > 0 {
        limiters := limiters[limiter := refilled.(credit := Min(cfg.Cap(), limiters[limiter].credit + cfg.every))];
        return Rejected(Some(CeilSeconds(cfg, delay)));
      }
      return Admitted;
    }

    /** Reserves from the limiter just looked up; the others stay as they are. */
    method Charge(limiter: nat, now: int) returns (resp: Response)
      requires Valid() && ipLimiterMap.Entries() != []
      requires limiter == ipLimiterMap.Entries()[|ipLimiterMap.Entries()| - 1].value
      modifies this`limiters
      ensures Valid() && |Buckets()| == |old(Buckets())| > 0
      ensures (Buckets()[|Buckets()| - 1].value, resp) == Serve(cfg, old(Buckets())[|Buckets()| - 1].value, now)
      ensures var bs, e := old(Buckets()), old(Buckets())[|Buckets()| - 1];
        Buckets() == bs[..|bs| - 1] + [Entry(e.key, Buckets()[|bs| - 1].value, e.t)]
    {
      ghost var es, f := ipLimiterMap.Entries(), limiters;
      resp := Reserve(limiter, now);
      UpdateLast(es, f, limiters[limiter]);
      assert ipLimiterMap.Entries() == es;
    }

    /** One request, at one instant. */
    method Handle(ip: Ip, now: int) returns (resp: Response)
      requires Valid() && UsedBy(Buckets(), now)
      modifies this, ipLimiterMap, ipLimiterMap.list
      ensures Valid() && fresh(set x <- ipLimiterMap.list | x !in old(ipLimiterMap.list))
      ensures (Buckets(), resp) == EvictingStep(cfg, old(Buckets()), Request(ip, now))
    {
      ghost var before := Buckets();
      var limiter, made := Lookup(ip, now);
      ghost var touched := Buckets();
      resp := Charge(limiter, now);
      StepFromTouched(cfg, before, Request(ip, now), touched, Buckets()[|touched| - 1].value, resp);
    }

    /** A new middleware that handles a list of requests gives the responses that the
        properties of the trace are about, so they hold of the object on the heap. */
    method HandleAll(reqs: seq<Request<Ip>>) returns (resps: seq<Response>)
      requires Valid() && Buckets() == [] && InOrder(reqs)
      modifies this, ipLimiterMap, ipLimiterMap.list
      ensures Valid() && Buckets() == Evicting(cfg, reqs).0 && resps == Responses(cfg, reqs)
    {
      resps := [];
      for i := 0 to |reqs|
        invariant Valid() && fresh(set x <- ipLimiterMap.list | x !in old(ipLimiterMap.list))
        invariant (Buckets(), resps) == Evicting(cfg, reqs[..i])
        invariant i < |reqs| ==> UsedBy(Buckets(), reqs[i].time)
      {
        assert reqs[..i + 1][..i] == reqs[..i];
        StepIsUsed(cfg, Buckets(), reqs[i]);
        var resp := Handle(reqs[i].ip, reqs[i].time);
        resps := resps + [resp];
      }
      assert reqs[..|reqs|] == reqs;
    }
  }
}
