/** The expiring map (internal/platform/ttlmap.go): what one `GetOrSet` call does to the
    recency list, as functions on the list of entries.

    The clock is a parameter: `tick(i)` is the i-th reading made during the call. */
module TTLSpec {
  import opened Wrappers

  datatype Entry<K, V> = Entry(key: K, value: V, t: int)

  ghost predicate Monotone(tick: nat -> int) {
    forall i: nat, j: nat :: i <= j ==> tick(i) <= tick(j)
  }

  ghost predicate Sorted<K, V>(es: seq<Entry<K, V>>) {
    forall i, j :: 0 <= i <= j < |es| ==> es[i].t <= es[j].t
  }

  ghost predicate Distinct<K, V>(es: seq<Entry<K, V>>) {
    forall i, j :: 0 <= i < j < |es| ==> es[i].key != es[j].key
  }

  /** No entry was used after `now`. */
  ghost predicate UsedBy<K, V>(es: seq<Entry<K, V>>, now: int) {
    forall i :: 0 <= i < |es| ==> es[i].t <= now
  }

  predicate Expired<K, V>(e: Entry<K, V>, ttl: int, now: int) {
    now - e.t >= ttl
  }

  /** How many entries the scan from the front removes; test `i` reads `tick(i)`. */
  function Evicted<K, V>(es: seq<Entry<K, V>>, ttl: int, tick: nat -> int, i: nat): (n: nat)
    ensures n <= |es|
  {
    if es == [] || !Expired(es[0], ttl, tick(i)) then 0
    else 1 + Evicted(es[1..], ttl, tick, i + 1)
  }

  /** How many times the scan reads the clock: once for each test. */
  function Tests<K, V>(es: seq<Entry<K, V>>, ttl: int, tick: nat -> int): nat {
    var n := Evicted(es, ttl, tick, 0);
    if n < |es| then n + 1 else n
  }

  /** The instant at which the scan stopped. */
  function StopTime<K, V>(es: seq<Entry<K, V>>, ttl: int, tick: nat -> int): int {
    var tests := Tests(es, ttl, tick);
    tick(if tests == 0 then 0 else tests - 1)
  }

  function Find<K(==), V>(es: seq<Entry<K, V>>, k: K): (r: Option<nat>)
    ensures r.Some? ==> r.value < |es| && es[r.value].key == k
    ensures r.None? ==> forall i :: 0 <= i < |es| ==> es[i].key != k
  {
    if es == [] then None
    else if es[0].key == k then Some(0)
    else
      var r := Find(es[1..], k);
      if r.Some? then Some(r.value + 1) else None
  }

  /** A hit moves the entry to the back with a new time, a miss appends a new entry. */
  function Touch<K(==), V>(es: seq<Entry<K, V>>, k: K, newV: V, now: int): seq<Entry<K, V>> {
    var r := Find(es, k);
    if r.Some? then es[..r.value] + es[r.value + 1..] + [Entry(k, es[r.value].value, now)]
    else es + [Entry(k, newV, now)]
  }

  function GetOrSet<K(==), V>(es: seq<Entry<K, V>>, ttl: int, k: K, newV: V, tick: nat -> int): seq<Entry<K, V>> {
    Touch(es[Evicted(es, ttl, tick, 0)..], k, newV, tick(Tests(es, ttl, tick)))
  }

  // ------------------------------------------------------------------ the scan

  function Unexpired<K, V>(es: seq<Entry<K, V>>, ttl: int, now: int): seq<Entry<K, V>> {
    if es == [] then []
    else if Expired(es[0], ttl, now) then Unexpired(es[1..], ttl, now)
    else [es[0]] + Unexpired(es[1..], ttl, now)
  }

  lemma {:induction false} AllUnexpired<K, V>(es: seq<Entry<K, V>>, ttl: int, now: int)
    requires forall i :: 0 <= i < |es| ==> !Expired(es[i], ttl, now)
    ensures Unexpired(es, ttl, now) == es
  {
    if es != [] {
      AllUnexpired(es[1..], ttl, now);
    }
  }

  lemma {:induction false} NoneUnexpired<K, V>(es: seq<Entry<K, V>>, n: nat, ttl: int, now: int)
    requires n <= |es| && forall i :: 0 <= i < n ==> Expired(es[i], ttl, now)
    ensures Unexpired(es, ttl, now) == Unexpired(es[n..], ttl, now)
  {
    if n > 0 {
      NoneUnexpired(es[1..], n - 1, ttl, now);
      assert es[1..][n - 1..] == es[n..];
    }
  }

  /** Each removed entry was expired when it was tested, and the first survivor was not. */
  lemma {:induction false} EvictedWhenTested<K, V>(es: seq<Entry<K, V>>, ttl: int, tick: nat -> int, i: nat)
    ensures var n := Evicted(es, ttl, tick, i);
      && (forall j :: 0 <= j < n ==> Expired(es[j], ttl, tick(i + j)))
      && (n < |es| ==> !Expired(es[n], ttl, tick(i + n)))
  {
    if es != [] && Expired(es[0], ttl, tick(i)) {
      var n := Evicted(es[1..], ttl, tick, i + 1);
      EvictedWhenTested(es[1..], ttl, tick, i + 1);
      forall j | 0 <= j < n + 1 ensures Expired(es[j], ttl, tick(i + j)) {
        if j > 0 {
          assert es[j] == es[1..][j - 1] && i + j == (i + 1) + (j - 1);
        }
      }
      if n + 1 < |es| {
        assert es[n + 1] == es[1..][n] && i + (n + 1) == (i + 1) + n;
      }
    }
  }

  /** On a list sorted by last use the removed prefix is exactly what is expired at the
      instant at which the scan stops. */
  lemma ScanSplits<K, V>(es: seq<Entry<K, V>>, ttl: int, tick: nat -> int)
    requires Sorted(es) && Monotone(tick)
    ensures forall j :: 0 <= j < |es| ==>
      (j < Evicted(es, ttl, tick, 0) <==> Expired(es[j], ttl, StopTime(es, ttl, tick)))
  {
    var n := Evicted(es, ttl, tick, 0);
    EvictedWhenTested(es, ttl, tick, 0);
    forall j | 0 <= j < n ensures Expired(es[j], ttl, StopTime(es, ttl, tick)) {
      assert Expired(es[j], ttl, tick(0 + j));
    }
  }

  /** So scanning only from the front does what filtering the whole list would do. */
  lemma ScanIsFilter<K, V>(es: seq<Entry<K, V>>, ttl: int, tick: nat -> int)
    requires Sorted(es) && Monotone(tick)
    ensures es[Evicted(es, ttl, tick, 0)..] == Unexpired(es, ttl, StopTime(es, ttl, tick))
  {
    var n := Evicted(es, ttl, tick, 0);
    var stop := StopTime(es, ttl, tick);
    ScanSplits(es, ttl, tick);
    NoneUnexpired(es, n, ttl, stop);
    AllUnexpired(es[n..], ttl, stop);
  }

  // ------------------------------------------------------------------ what a call keeps

  lemma TouchKeeps<K, V>(es: seq<Entry<K, V>>, k: K, newV: V, now: int)
    requires Sorted(es) && Distinct(es) && UsedBy(es, now)
    ensures var es' := Touch(es, k, newV, now);
      Sorted(es') && Distinct(es') && UsedBy(es', now) && es' != [] && es'[|es'| - 1].key == k
  {
    var r := Find(es, k);
    var es' := Touch(es, k, newV, now);
    if r.Some? {
      assert forall i :: 0 <= i < |es| - 1 ==> es'[i] == if i < r.value then es[i] else es[i + 1];
    }
  }

  lemma TouchLast<K, V>(es: seq<Entry<K, V>>, k: K, newV: V, now: int)
    ensures var es' := Touch(es, k, newV, now);
      es' != [] && es'[|es'| - 1].key == k
      && es'[|es'| - 1].value == if Find(es, k).Some? then es[Find(es, k).value].value else newV
  {
  }

  /** The new value does not matter on a hit. */
  lemma TouchIgnores<K, V>(es: seq<Entry<K, V>>, k: K, v: V, w: V, now: int)
    requires Find(es, k).Some?
    ensures Touch(es, k, v, now) == Touch(es, k, w, now)
  {
  }

  lemma TouchHit<K, V>(es: seq<Entry<K, V>>, k: K, i: nat, newV: V, now: int)
    requires Distinct(es) && i < |es| && es[i].key == k
    ensures Find(es, k) == Some(i)
    ensures Touch(es, k, newV, now) == es[..i] + es[i + 1..] + [Entry(k, es[i].value, now)]
  {
  }

  lemma GetOrSetKeeps<K, V>(es: seq<Entry<K, V>>, ttl: int, k: K, newV: V, tick: nat -> int)
    requires Sorted(es) && Distinct(es) && Monotone(tick) && UsedBy(es, tick(0))
    ensures var es' := GetOrSet(es, ttl, k, newV, tick);
      Sorted(es') && Distinct(es') && UsedBy(es', tick(Tests(es, ttl, tick)))
      && es' != [] && es'[|es'| - 1].key == k
  {
    var rest := es[Evicted(es, ttl, tick, 0)..];
    assert tick(0) <= tick(Tests(es, ttl, tick));
    assert UsedBy(rest, tick(Tests(es, ttl, tick)));
    TouchKeeps(rest, k, newV, tick(Tests(es, ttl, tick)));
  }

  // ------------------------------------------------------------------ a plain map

  datatype Access<V> = Access(value: V, last: int)

  ghost predicate HasKey<K, V>(es: seq<Entry<K, V>>, k: K) {
    exists i :: 0 <= i < |es| && es[i].key == k
  }

  /** The list holds the same information as a map from keys to value and last use. */
  ghost predicate Represents<K, V>(es: seq<Entry<K, V>>, m: map<K, Access<V>>) {
    && Distinct(es)
    && (forall i :: 0 <= i < |es| ==> es[i].key in m && m[es[i].key] == Access(es[i].value, es[i].t))
    && (forall k :: k in m ==> HasKey(es, k))
  }

  /** The map's version of eviction looks at every key. */
  function Live<K, V>(m: map<K, Access<V>>, ttl: int, now: int): map<K, Access<V>> {
    map k | k in m && now - m[k].last < ttl :: m[k]
  }

  /** Forget everything that is expired at `stop`, then use or create `k` at `now`. */
  function MapGetOrSet<K, V>(m: map<K, Access<V>>, ttl: int, k: K, newV: V, stop: int, now: int): map<K, Access<V>> {
    var live := Live(m, ttl, stop);
    live[k := Access(if k in live then live[k].value else newV, now)]
  }

  lemma DropRefines<K, V>(es: seq<Entry<K, V>>, m: map<K, Access<V>>, n: nat, ttl: int, stop: int)
    requires Represents(es, m) && n <= |es|
    requires forall j :: 0 <= j < |es| ==> (j < n <==> Expired(es[j], ttl, stop))
    ensures Represents(es[n..], Live(m, ttl, stop))
  {
    var rest, live := es[n..], Live(m, ttl, stop);
    assert forall i :: 0 <= i < |rest| ==> rest[i] == es[n + i];
    forall k | k in live ensures HasKey(rest, k) {
      assert HasKey(es, k);
      var j :| 0 <= j < |es| && es[j].key == k;
      assert rest[j - n] == es[j];
    }
  }

  lemma EvictionRefines<K, V>(es: seq<Entry<K, V>>, m: map<K, Access<V>>, ttl: int, tick: nat -> int)
    requires Sorted(es) && Monotone(tick) && Represents(es, m)
    ensures Represents(es[Evicted(es, ttl, tick, 0)..], Live(m, ttl, StopTime(es, ttl, tick)))
  {
    ScanSplits(es, ttl, tick);
    DropRefines(es, m, Evicted(es, ttl, tick, 0), ttl, StopTime(es, ttl, tick));
  }

  /** Where the entries of a touched list come from. */
  lemma TouchedEntries<K, V>(es: seq<Entry<K, V>>, k: K, newV: V, now: int)
    requires Distinct(es)
    ensures var es' := Touch(es, k, newV, now);
      && (forall i :: 0 <= i < |es'| - 1 ==> es'[i] in es && es'[i].key != k)
      && (forall j :: 0 <= j < |es| && es[j].key != k ==> es[j] in es')
  {
    var r, es' := Find(es, k), Touch(es, k, newV, now);
    forall j | 0 <= j < |es| && es[j].key != k ensures es[j] in es' {
      assert es'[if r.Some? && j > r.value then j - 1 else j] == es[j];
    }
  }

  lemma TouchRefines<K, V>(es: seq<Entry<K, V>>, m: map<K, Access<V>>, k: K, newV: V, now: int)
    requires Represents(es, m) && Sorted(es) && UsedBy(es, now)
    ensures Represents(Touch(es, k, newV, now), m[k := Access(if k in m then m[k].value else newV, now)])
  {
    var es' := Touch(es, k, newV, now);
    var m' := m[k := Access(if k in m then m[k].value else newV, now)];
    TouchKeeps(es, k, newV, now);
    TouchedEntries(es, k, newV, now);
    assert HasKey(es, k) <==> k in m;
    forall i | 0 <= i < |es'| ensures es'[i].key in m' && m'[es'[i].key] == Access(es'[i].value, es'[i].t) {
      if i < |es'| - 1 {
        assert es'[i] in es;
      }
    }
    forall x | x in m' ensures HasKey(es', x) {
      if x != k {
        assert HasKey(es, x);
        var j :| 0 <= j < |es| && es[j].key == x;
        assert es[j] in es';
      }
    }
  }

  /** The recency list refines the plain map: a call forgets exactly the keys that are
      expired at the instant its scan stops, creates the value iff the key is absent
      then, and leaves every other key as it was. */
  lemma GetOrSetRefines<K, V>(es: seq<Entry<K, V>>, m: map<K, Access<V>>, ttl: int, k: K, newV: V, tick: nat -> int)
    requires Sorted(es) && Monotone(tick) && UsedBy(es, tick(0)) && Represents(es, m)
    ensures Represents(GetOrSet(es, ttl, k, newV, tick),
                       MapGetOrSet(m, ttl, k, newV, StopTime(es, ttl, tick), tick(Tests(es, ttl, tick))))
  {
    var rest := es[Evicted(es, ttl, tick, 0)..];
    assert tick(0) <= tick(Tests(es, ttl, tick));
    EvictionRefines(es, m, ttl, tick);
    TouchRefines(rest, Live(m, ttl, StopTime(es, ttl, tick)), k, newV, tick(Tests(es, ttl, tick)));
  }
}

/** The map itself: a list of items, updated in place, and an index into it. */
module TTLMaps {
  import opened Wrappers
  import opened TTLSpec

  class Item<K, V> {
    const key: K
    const value: V
    var t: int

    constructor (key: K, value: V, t: int)
      ensures this.key == key && this.value == value && this.t == t
    {
      this.key, this.value, this.t := key, value, t;
    }
  }

  ghost function View<K, V>(l: seq<Item<K, V>>): (es: seq<Entry<K, V>>)
    reads l
    ensures |es| == |l|
    ensures forall i :: 0 <= i < |es| ==> es[i] == Entry(l[i].key, l[i].value, l[i].t)
  {
    seq(|l|, i requires 0 <= i < |l| reads l => Entry(l[i].key, l[i].value, l[i].t))
  }

  class TTLMap<K(==), V> {
    const ttl: int
    var list: seq<Item<K, V>>
    var items: map<K, Item<K, V>>

    constructor (ttl: int)
      ensures Valid() && Entries() == [] && this.ttl == ttl && list == []
    {
      this.ttl := ttl;
      list, items := [], map[];
    }

    ghost function Entries(): (es: seq<Entry<K, V>>)
      reads this, list
    {
      View(list)
    }

    /** The list is sorted by last use, and the index is a bijection onto it. */
    ghost predicate Valid()
      reads this, list
    {
      Sorted(Entries()) && Distinct(Entries()) && Indexed()
    }

    static lemma DropOne<T>(s: seq<T>, i: nat)
      requires i < |s|
      ensures s[i..][1..] == s[i + 1..]
    {
    }

    /** One more removal: the rest of the scan starts one reading later. */
    static lemma ScanOn(es: seq<Entry<K, V>>, ttl: int, tick: nat -> int, i: nat)
      requires i < |es|
      ensures Evicted(es[i..], ttl, tick, i) ==
              if Expired(es[i], ttl, tick(i)) then 1 + Evicted(es[i + 1..], ttl, tick, i + 1) else 0
    {
      DropOne(es, i);
    }

    /** Lines 38-49: drop expired items from the front. */
    method DropExpired(tick: nat -> int) returns (tests: nat)
      requires Valid()
      modifies this
      ensures Valid()
      ensures list == old(list)[Evicted(old(Entries()), ttl, tick, 0)..]
      ensures Entries() == old(Entries())[Evicted(old(Entries()), ttl, tick, 0)..]
      ensures tests == Tests(old(Entries()), ttl, tick)
    {
      ghost var es, all := Entries(), list;
      ghost var n := Evicted(es, ttl, tick, 0);
      tests := 0;
      while list != []
        invariant tests <= |all| == |es| && n == tests + Evicted(es[tests..], ttl, tick, tests)
        invariant list == all[tests..] && Entries() == es[tests..]
        invariant Valid()
        decreases |list|
      {
        ScanOn(es, ttl, tick, tests);
        DropOne(es, tests);
        DropOne(all, tests);
        assert Entries()[0] == es[tests];
        tests := tests + 1;
        if tick(tests - 1) - list[0].t < ttl {
          break;
        }
        DropFront();
      }
    }

    method DropFront()
      requires Valid() && list != []
      modifies this
      ensures Valid() && list == old(list)[1..] && Entries() == old(Entries())[1..]
    {
      ghost var es := Entries();
      var front := list[0];
      forall i | 0 < i < |list| ensures list[i].key != front.key {
        assert es[0].key != es[i].key;
      }
      items := items - {front.key};
      list := list[1..];
      assert Entries() == es[1..];
    }

    /** The index as a bijection onto the list. */
    ghost predicate Indexed()
      reads this, list
    {
      && (forall x :: x in list ==> x.key in items && items[x.key] == x)
      && (forall k :: k in items ==> items[k] in list && items[k].key == k)
    }

    /** Lines 70-71: the item at position `i` gets a new time and becomes the last one. */
    method MoveToBack(i: nat, now: int)
      requires i < |list| && Distinct(Entries())
      modifies this`list, list[i]
      ensures |list| == |old(list)| && forall x :: x in list <==> x in old(list)
      ensures Entries() == old(Entries())[..i] + old(Entries())[i + 1..]
                           + [Entry(old(list)[i].key, old(list)[i].value, now)]
    {
      var elem := list[i];
      assert forall j :: 0 <= j < |list| && j != i ==> list[j] != elem by {
        assert forall j :: 0 <= j < |list| ==> Entries()[j].key == list[j].key;
      }
      elem.t := now;
      list := list[..i] + list[i + 1..] + [elem];
      forall x | x in old(list) ensures x in list {
        var j :| 0 <= j < |old(list)| && old(list)[j] == x;
        assert x == if j == i then list[|list| - 1] else list[if j < i then j else j - 1];
      }
    }

    /** Lines 62-74: a hit updates the item in place and moves it to the back. */
    method Get(key: K, now: int) returns (v: Option<V>)
      requires Valid() && UsedBy(Entries(), now)
      modifies this, list
      ensures Valid() && items == old(items)
      ensures forall x :: x in list <==> x in old(list)
      ensures var i := Find(old(Entries()), key);
        v == if i.Some? then Some(old(Entries())[i.value].value) else None
      ensures v.Some? ==> Entries() == Touch(old(Entries()), key, v.value, now)
      ensures v.None? ==> Entries() == old(Entries())
    {
      if key !in items {
        return None;
      }
      var elem := items[key];
      ghost var es := Entries();
      var i :| 0 <= i < |list| && list[i] == elem;
      v := Some(elem.value);
      TouchHit(es, key, i, elem.value, now);
      TouchKeeps(es, key, elem.value, now);
      MoveToBack(i, now);
    }

    /** Lines 76-85. */
    method Set(k: K, v: V, now: int)
      requires Valid() && UsedBy(Entries(), now) && Find(Entries(), k).None?
      modifies this
      ensures Valid() && fresh(set x <- list | x !in old(list))
      ensures Entries() == Touch(old(Entries()), k, v, now)
    {
      TouchKeeps(Entries(), k, v, now);
      var el := new Item(k, v, now);
      list := list + [el];
      items := items[k := el];
      assert Entries() == Touch(old(Entries()), k, v, now);
    }

    /** Lines 33-60.  `newV` is what the caller's constructor function would return, and
        `ran` says whether it is called. */
    method GetOrSet(k: K, newV: V, tick: nat -> int) returns (v: V, ran: bool)
      requires Valid() && Monotone(tick) && UsedBy(Entries(), tick(0))
      modifies this, list
      ensures Valid() && fresh(set x <- list | x !in old(list))
      ensures Entries() == TTLSpec.GetOrSet(old(Entries()), ttl, k, newV, tick)
      ensures Entries() != [] && Entries()[|list| - 1].key == k && Entries()[|list| - 1].value == v
      ensures ran <==> !HasKey(old(Entries())[Evicted(old(Entries()), ttl, tick, 0)..], k)
      ensures ran ==> v == newV
    {
      ghost var es := Entries();
      var tests := DropExpired(tick);
      FindHasKey(Entries(), k);
      StillUsedBy(es, ttl, tick);
      v, ran := Touched(k, newV, tick(tests));
    }

    static lemma FindHasKey(es: seq<Entry<K, V>>, k: K)
      ensures HasKey(es, k) <==> Find(es, k).Some?
    {
    }

    static lemma StillUsedBy(es: seq<Entry<K, V>>, ttl: int, tick: nat -> int)
      requires Monotone(tick) && UsedBy(es, tick(0))
      ensures UsedBy(es[Evicted(es, ttl, tick, 0)..], tick(Tests(es, ttl, tick)))
    {
      assert tick(0) <= tick(Tests(es, ttl, tick));
    }

    /** Lines 51-59: what remains after the eviction. */
    method Touched(k: K, newV: V, now: int) returns (v: V, ran: bool)
      requires Valid() && UsedBy(Entries(), now)
      modifies this, list
      ensures Valid() && fresh(set x <- list | x !in old(list))
      ensures Entries() == Touch(old(Entries()), k, newV, now)
      ensures Entries() != [] && Entries()[|list| - 1].key == k && Entries()[|list| - 1].value == v
      ensures ran <==> Find(old(Entries()), k).None?
      ensures ran ==> v == newV
    {
      TouchLast(Entries(), k, newV, now);
      var hit := Get(k, now);
      if hit.Some? {
        TouchIgnores(old(Entries()), k, hit.value, newV, now);
        return hit.value, false;
      }
      Set(k, newV, now);
      return newV, true;
    }
  }
}
