/** The status cache of cache.go: a two-level map from host name to service
    name to the latest result of that check.

    The entry type of cache.go holds timestamp, state and plugin output only.
    The tests of the cache and the report handler also read a
    `statusFirstSeen` field; that field is modelled here as a separate,
    clearly marked extension (`TrackedEntry`, `UpdateTracked`), and
    `TrackedRefinesLiteral` shows that forgetting it gives back the literal
    cache. */
module StatusCache {
  import opened Wrappers

  /** Go's uint32 (epoch seconds) and int16 (check state) as integer ranges. */
  type Uint32 = x: int | 0 <= x < 0x1_0000_0000
  type Int16 = x: int | -0x8000 <= x < 0x8000

  /** serviceEntry exactly as cache.go declares it. */
  datatype ServiceEntry = ServiceEntry(timestamp: Uint32, state: Int16, output: string)

  /** Extension: the entry the cache tests and the report handler expect,
      carrying the time at which the current state began. */
  datatype TrackedEntry = TrackedEntry(timestamp: Uint32, statusFirstSeen: Uint32, state: Int16, output: string)

  /** host name -> service name -> entry */
  type Cache<E> = map<string, map<string, E>>

  /** The entry for (h, s), if any. */
  function Lookup<E>(c: Cache<E>, h: string, s: string): Option<E> {
    if h in c && s in c[h] then Some(c[h][s]) else None
  }

  /** Structural invariant kept by every operation: no host is present
      without at least one service. */
  ghost predicate NoEmptyHost<E>(c: Cache<E>) {
    forall h :: h in c ==> |c[h]| > 0
  }

  /** initCache: the global is replaced by a fresh empty map, whatever it held. */
  function InitCache<E>(prior: Cache<E>): (c: Cache<E>)
    ensures forall h, s :: Lookup(c, h, s) == None
    ensures c.Keys == {}
    ensures NoEmptyHost(c)
  {
    map[]
  }

  /** The map manipulation of updateCacheEntry: create the host's inner map
      on first sight, then install `e` for the service (last write wins). */
  function Put<E>(c: Cache<E>, h: string, s: string, e: E): (r: Cache<E>)
    ensures Lookup(r, h, s) == Some(e)
    ensures forall h', s' | h' != h || s' != s :: Lookup(r, h', s') == Lookup(c, h', s')
    ensures r.Keys == c.Keys + {h}
    ensures h !in c ==> r[h].Keys == {s}
    ensures h in c ==> r[h].Keys == c[h].Keys + {s}
    ensures forall h' | h' in c && h' != h :: r[h'] == c[h']
    ensures NoEmptyHost(c) ==> NoEmptyHost(r)
  {
    var svc := if h in c then c[h] else map[];
    PutLookups(c, h, s, svc, e);
    PutKeys(c, h, s, svc, e);
    PutKeepsNoEmptyHost(c, h, s, svc, e);
    c[h := svc[s := e]]
  }

  /** Lookups after the map update of `Put`. */
  lemma PutLookups<E>(c: Cache<E>, h: string, s: string, svc: map<string, E>, e: E)
    requires svc == if h in c then c[h] else map[]
    ensures Lookup(c[h := svc[s := e]], h, s) == Some(e)
    ensures forall h', s' | h' != h || s' != s :: Lookup(c[h := svc[s := e]], h', s') == Lookup(c, h', s')
  {
  }

  /** Hosts and services after the map update of `Put`. */
  lemma PutKeys<E>(c: Cache<E>, h: string, s: string, svc: map<string, E>, e: E)
    requires svc == if h in c then c[h] else map[]
    ensures c[h := svc[s := e]].Keys == c.Keys + {h}
    ensures h !in c ==> c[h := svc[s := e]][h].Keys == {s}
    ensures h in c ==> c[h := svc[s := e]][h].Keys == c[h].Keys + {s}
    ensures forall h' | h' in c && h' != h :: c[h := svc[s := e]][h'] == c[h']
  {
  }

  /** The map update of `Put` keeps every host non-empty. */
  lemma PutKeepsNoEmptyHost<E>(c: Cache<E>, h: string, s: string, svc: map<string, E>, e: E)
    requires svc == if h in c then c[h] else map[]
    ensures NoEmptyHost(c) ==> NoEmptyHost(c[h := svc[s := e]])
  {
    assert |svc[s := e]| > 0 by {
      assert s in svc[s := e];
    }
  }

  /** updateCacheEntry of cache.go: the entry for (hostname, servicename) is
      replaced wholesale; every other (host, service) pair keeps its entry. */
  function UpdateCacheEntry(c: Cache<ServiceEntry>, hostname: string, servicename: string,
                            output: string, timestamp: Uint32, state: Int16): (r: Cache<ServiceEntry>)
    ensures Lookup(r, hostname, servicename) == Some(ServiceEntry(timestamp, state, output))
    ensures forall h, s | h != hostname || s != servicename :: Lookup(r, h, s) == Lookup(c, h, s)
    ensures hostname !in c ==> r[hostname].Keys == {servicename}
    ensures r.Keys == c.Keys + {hostname}
    ensures NoEmptyHost(c) ==> NoEmptyHost(r)
  {
    Put(c, hostname, servicename, ServiceEntry(timestamp, state, output))
  }

  /** Extension: the first-seen time a new observation gets, given the entry
      it replaces. */
  function FirstSeen(prior: Option<TrackedEntry>, timestamp: Uint32, state: Int16): Uint32 {
    if prior.Some? && prior.value.state == state then prior.value.statusFirstSeen else timestamp
  }

  /** Extension: updateCacheEntry as the cache tests expect it, keeping the
      first-seen time across observations that repeat the previous state. */
  function UpdateTracked(c: Cache<TrackedEntry>, hostname: string, servicename: string,
                         output: string, timestamp: Uint32, state: Int16): (r: Cache<TrackedEntry>)
    ensures Lookup(r, hostname, servicename).Some?
    ensures var e := Lookup(r, hostname, servicename).value;
      e.timestamp == timestamp && e.state == state && e.output == output
    ensures var prior := Lookup(c, hostname, servicename);
      prior.None? || prior.value.state != state ==>
        Lookup(r, hostname, servicename).value.statusFirstSeen == timestamp
    ensures var prior := Lookup(c, hostname, servicename);
      prior.Some? && prior.value.state == state ==>
        Lookup(r, hostname, servicename).value.statusFirstSeen == prior.value.statusFirstSeen
    ensures forall h, s | h != hostname || s != servicename :: Lookup(r, h, s) == Lookup(c, h, s)
    ensures r.Keys == c.Keys + {hostname}
    ensures NoEmptyHost(c) ==> NoEmptyHost(r)
  {
    var first := FirstSeen(Lookup(c, hostname, servicename), timestamp, state);
    Put(c, hostname, servicename, TrackedEntry(timestamp, first, state, output))
  }

  /** Drops the first-seen time from an entry. */
  function Forget(e: TrackedEntry): ServiceEntry {
    ServiceEntry(e.timestamp, e.state, e.output)
  }

  /** Drops the first-seen time from every entry of a cache. */
  function ForgetCache(c: Cache<TrackedEntry>): Cache<ServiceEntry> {
    map h | h in c :: map s | s in c[h] :: Forget(c[h][s])
  }

  /** Two caches that have the same hosts and the same entry for every
      (host, service) pair are equal. */
  lemma CacheExtensionality<E>(a: Cache<E>, b: Cache<E>)
    requires a.Keys == b.Keys
    requires forall h, s :: Lookup(a, h, s) == Lookup(b, h, s)
    ensures a == b
  {
    forall h | h in a
      ensures a[h] == b[h]
    {
      assert a[h].Keys == b[h].Keys by {
        forall s ensures s in a[h] <==> s in b[h] {
          assert Lookup(a, h, s) == Lookup(b, h, s);
        }
      }
      forall s | s in a[h]
        ensures a[h][s] == b[h][s]
      {
        assert Lookup(a, h, s) == Lookup(b, h, s);
      }
    }
  }

  /** Reading a forgetful cache is reading the tracked one and forgetting. */
  lemma LookupForgetCache(c: Cache<TrackedEntry>, h: string, s: string)
    ensures Lookup(ForgetCache(c), h, s)
         == if Lookup(c, h, s).Some? then Some(Forget(Lookup(c, h, s).value)) else None
  {
  }

  /** Pointwise form of `TrackedRefinesLiteral`. */
  lemma TrackedRefinesLiteralAt(c: Cache<TrackedEntry>, h: string, s: string,
                                output: string, timestamp: Uint32, state: Int16, h': string, s': string)
    ensures Lookup(ForgetCache(UpdateTracked(c, h, s, output, timestamp, state)), h', s')
         == Lookup(UpdateCacheEntry(ForgetCache(c), h, s, output, timestamp, state), h', s')
  {
    LookupForgetCache(UpdateTracked(c, h, s, output, timestamp, state), h', s');
    LookupForgetCache(c, h', s');
  }

  /** The extension is conservative: an update of the tracked cache, seen
      without first-seen times, is exactly the update of cache.go. */
  lemma TrackedRefinesLiteral(c: Cache<TrackedEntry>, h: string, s: string,
                              output: string, timestamp: Uint32, state: Int16)
    ensures ForgetCache(UpdateTracked(c, h, s, output, timestamp, state))
         == UpdateCacheEntry(ForgetCache(c), h, s, output, timestamp, state)
  {
    var lhs := ForgetCache(UpdateTracked(c, h, s, output, timestamp, state));
    var rhs := UpdateCacheEntry(ForgetCache(c), h, s, output, timestamp, state);
    forall h', s'
      ensures Lookup(lhs, h', s') == Lookup(rhs, h', s')
    {
      TrackedRefinesLiteralAt(c, h, s, output, timestamp, state, h', s');
    }
    TrackedRefinesLiteralKeys(c, h, s, output, timestamp, state);
    CacheExtensionality(lhs, rhs);
  }

  /** The hosts of both sides of `TrackedRefinesLiteral` agree. */
  lemma TrackedRefinesLiteralKeys(c: Cache<TrackedEntry>, h: string, s: string,
                                  output: string, timestamp: Uint32, state: Int16)
    ensures ForgetCache(UpdateTracked(c, h, s, output, timestamp, state)).Keys
         == UpdateCacheEntry(ForgetCache(c), h, s, output, timestamp, state).Keys
  {
    assert ForgetCache(UpdateTracked(c, h, s, output, timestamp, state)).Keys
        == UpdateTracked(c, h, s, output, timestamp, state).Keys;
    assert ForgetCache(c).Keys == c.Keys;
  }

  /** Two consecutive updates of the same pair: only the second is visible,
      whatever the first one wrote. */
  lemma LastWriteWins(c: Cache<ServiceEntry>, h: string, s: string,
                      o1: string, t1: Uint32, st1: Int16, o2: string, t2: Uint32, st2: Int16)
    ensures UpdateCacheEntry(UpdateCacheEntry(c, h, s, o1, t1, st1), h, s, o2, t2, st2)
         == UpdateCacheEntry(c, h, s, o2, t2, st2)
  {
    var a := UpdateCacheEntry(UpdateCacheEntry(c, h, s, o1, t1, st1), h, s, o2, t2, st2);
    var b := UpdateCacheEntry(c, h, s, o2, t2, st2);
    CacheExtensionality(a, b);
  }

  /** Updates of two different pairs commute. */
  lemma UpdatesCommute(c: Cache<ServiceEntry>, h1: string, s1: string, o1: string, t1: Uint32, st1: Int16,
                       h2: string, s2: string, o2: string, t2: Uint32, st2: Int16)
    requires h1 != h2 || s1 != s2
    ensures UpdateCacheEntry(UpdateCacheEntry(c, h1, s1, o1, t1, st1), h2, s2, o2, t2, st2)
         == UpdateCacheEntry(UpdateCacheEntry(c, h2, s2, o2, t2, st2), h1, s1, o1, t1, st1)
  {
    var a := UpdateCacheEntry(UpdateCacheEntry(c, h1, s1, o1, t1, st1), h2, s2, o2, t2, st2);
    var b := UpdateCacheEntry(UpdateCacheEntry(c, h2, s2, o2, t2, st2), h1, s1, o1, t1, st1);
    CacheExtensionality(a, b);
  }

  /** One observation of a check, as handed to the update. */
  datatype Observation = Observation(output: string, timestamp: Uint32, state: Int16)

  /** Extension: a sequence of observations of one pair, applied in order. */
  function ApplyObservations(c: Cache<TrackedEntry>, h: string, s: string, obs: seq<Observation>): Cache<TrackedEntry>
    decreases |obs|
  {
    if |obs| == 0 then c
    else
      var last := obs[|obs| - 1];
      UpdateTracked(ApplyObservations(c, h, s, obs[..|obs| - 1]), h, s, last.output, last.timestamp, last.state)
  }

  /** `k` starts the maximal trailing run of observations sharing the last
      observation's state. */
  ghost predicate RunStartsAt(obs: seq<Observation>, k: int) {
    && 0 <= k < |obs|
    && (forall j | k <= j < |obs| :: obs[j].state == obs[|obs| - 1].state)
    && (k == 0 || obs[k - 1].state != obs[|obs| - 1].state)
  }

  /** The entry a sequence of observations of one pair leaves behind,
      computed from the entry it started from alone. */
  function EntryAfter(prior: Option<TrackedEntry>, obs: seq<Observation>): Option<TrackedEntry>
    decreases |obs|
  {
    if |obs| == 0 then prior
    else
      var last := obs[|obs| - 1];
      var prev := EntryAfter(prior, obs[..|obs| - 1]);
      Some(TrackedEntry(last.timestamp, FirstSeen(prev, last.timestamp, last.state), last.state, last.output))
  }

  /** Observations of one pair only ever touch that pair's entry. */
  lemma {:induction false} ApplyObservationsEntry(c: Cache<TrackedEntry>, h: string, s: string, obs: seq<Observation>)
    ensures Lookup(ApplyObservations(c, h, s, obs), h, s) == EntryAfter(Lookup(c, h, s), obs)
    decreases |obs|
  {
    if |obs| > 0 {
      ApplyObservationsEntry(c, h, s, obs[..|obs| - 1]);
    }
  }

  /** Extension, on entries: the first-seen time after a sequence of
      observations is the timestamp of the earliest observation of the
      trailing run in the current state, unless the prior entry was already
      in that state and the run covers the whole sequence. */
  lemma {:induction false} EntryAfterRunStart(prior: Option<TrackedEntry>, obs: seq<Observation>, k: int)
    requires RunStartsAt(obs, k)
    ensures var e := EntryAfter(prior, obs);
      && e.Some?
      && e.value.timestamp == obs[|obs| - 1].timestamp
      && e.value.state == obs[|obs| - 1].state
      && e.value.output == obs[|obs| - 1].output
    ensures k > 0 || prior.None? || prior.value.state != obs[0].state ==>
      EntryAfter(prior, obs).value.statusFirstSeen == obs[k].timestamp
    ensures k == 0 && prior.Some? && prior.value.state == obs[0].state ==>
      EntryAfter(prior, obs).value.statusFirstSeen == prior.value.statusFirstSeen
    decreases |obs|
  {
    var n := |obs|;
    var init := obs[..n - 1];
    if n == 1 {
      assert EntryAfter(prior, init) == prior;
    } else if k == n - 1 {
      EntryAfterRunStart(prior, init, RunStartOf(init));
      assert init[n - 2] == obs[n - 2];
    } else {
      assert RunStartsAt(init, k) by {
        assert forall j | k <= j < n - 1 :: init[j].state == obs[j].state;
      }
      EntryAfterRunStart(prior, init, k);
      assert init[n - 2] == obs[n - 2];
    }
  }

  /** Extension: after a sequence of observations of one pair, the cache
      entry holds the last observation, and its first-seen time is the
      timestamp that starts the trailing run in the current state (or the
      earlier first-seen time when the prior entry already had that state
      and the run covers the whole sequence). */
  lemma FirstSeenIsRunStart(c: Cache<TrackedEntry>, h: string, s: string, obs: seq<Observation>, k: int)
    requires RunStartsAt(obs, k)
    ensures var e := Lookup(ApplyObservations(c, h, s, obs), h, s);
      && e.Some?
      && e.value.timestamp == obs[|obs| - 1].timestamp
      && e.value.state == obs[|obs| - 1].state
      && e.value.output == obs[|obs| - 1].output
    ensures var prior := Lookup(c, h, s);
      k > 0 || prior.None? || prior.value.state != obs[0].state ==>
        Lookup(ApplyObservations(c, h, s, obs), h, s).value.statusFirstSeen == obs[k].timestamp
    ensures var prior := Lookup(c, h, s);
      k == 0 && prior.Some? && prior.value.state == obs[0].state ==>
        Lookup(ApplyObservations(c, h, s, obs), h, s).value.statusFirstSeen == prior.value.statusFirstSeen
  {
    ApplyObservationsEntry(c, h, s, obs);
    EntryAfterRunStart(Lookup(c, h, s), obs, k);
  }

  /** The start of the trailing run of a non-empty sequence of observations. */
  function RunStartOf(obs: seq<Observation>): (k: int)
    requires |obs| > 0
    ensures RunStartsAt(obs, k)
    decreases |obs|
  {
    var n := |obs|;
    if n == 1 then 0
    else if obs[n - 2].state != obs[n - 1].state then n - 1
    else
      var k := RunStartOf(obs[..n - 1]);
      assert obs[..n - 1][n - 2] == obs[n - 2];
      k
  }

  /** A worked example: OK at 100, then failing observations at 101 and
      102; the failing state began at 101, and the repeat at 102 keeps it. */
  lemma FirstSeenExample(c: Cache<TrackedEntry>)
    requires Lookup(c, "h", "s").None?
    ensures var e := Lookup(ApplyObservations(c, "h", "s",
              [Observation("OK", 100, 0), Observation("Bad", 101, 1), Observation("Still bad", 102, 1)]), "h", "s");
      e == Some(TrackedEntry(102, 101, 1, "Still bad"))
  {
    var obs := [Observation("OK", 100, 0), Observation("Bad", 101, 1), Observation("Still bad", 102, 1)];
    assert RunStartsAt(obs, 1);
    FirstSeenIsRunStart(c, "h", "s", obs, 1);
  }

  /** The change of state in the cache tests: (host01, service foo) is
      created OK at 1484527962 and then reports state 1 at 1484527963, so
      its first-seen time moves to 1484527963. */
  lemma FirstSeenOnStateChange(c: Cache<TrackedEntry>)
    requires Lookup(c, "host01", "service foo").None?
    ensures var e := Lookup(ApplyObservations(c, "host01", "service foo",
              [Observation("OK", 1484527962, 0), Observation("New output", 1484527963, 1)]), "host01", "service foo");
      e == Some(TrackedEntry(1484527963, 1484527963, 1, "New output"))
  {
    var obs := [Observation("OK", 1484527962, 0), Observation("New output", 1484527963, 1)];
    assert RunStartsAt(obs, 1);
    FirstSeenIsRunStart(c, "host01", "service foo", obs, 1);
  }

  /** The repeat in the cache tests: (host02, service bar) is created OK at
      1484527966 and reports OK again at 1488527969, so its first-seen time
      stays 1484527966. */
  lemma FirstSeenKeptOnRepeat(c: Cache<TrackedEntry>)
    requires Lookup(c, "host02", "service bar").None?
    ensures var e := Lookup(ApplyObservations(c, "host02", "service bar",
              [Observation("OK", 1484527966, 0), Observation("OK", 1488527969, 0)]), "host02", "service bar");
      e == Some(TrackedEntry(1488527969, 1484527966, 0, "OK"))
  {
    var obs := [Observation("OK", 1484527966, 0), Observation("OK", 1488527969, 0)];
    assert RunStartsAt(obs, 0);
    FirstSeenIsRunStart(c, "host02", "service bar", obs, 0);
  }
}
