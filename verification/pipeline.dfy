/** The path from the NSCA server to the cache (main.go): received packets
    are put on a queue, and a worker drains the queue into the cache.

    The queue is modelled as a sequence whose head is dequeued first. The
    worker's endless mode (sleep and poll again) is left out; `CacheWorker`
    is the mode that returns once the queue is empty. */
module Pipeline {
  import opened Wrappers
  import opened StatusCache

  /** The part of an NSCA data packet the cache uses. */
  datatype DataPacket = DataPacket(hostName: string, service: string, pluginOutput: string,
                                   timestamp: Uint32, state: Int16)

  /** The queue holds values of any type; only data packets are applied. */
  datatype QueueItem = Packet(packet: DataPacket) | Foreign

  type Queue = seq<QueueItem>

  /** The cache entry a packet installs. */
  function EntryOfPacket(p: DataPacket): ServiceEntry {
    ServiceEntry(p.timestamp, p.state, p.pluginOutput)
  }

  /** queueData: the packet goes to the tail of the queue, behind every
      packet already waiting, and no error is ever reported. */
  function QueueData(q: Queue, p: DataPacket): (r: (Queue, Option<string>))
    ensures |r.0| == |q| + 1 && r.0[..|q|] == q && r.0[|q|] == Packet(p)
    ensures r.1 == None
  {
    (q + [Packet(p)], None)
  }

  /** One dequeued item applied to the cache. */
  function Apply(c: Cache<ServiceEntry>, item: QueueItem): (r: Cache<ServiceEntry>)
    ensures item.Foreign? ==> r == c
    ensures item.Packet? ==>
      Lookup(r, item.packet.hostName, item.packet.service) == Some(EntryOfPacket(item.packet))
    ensures item.Packet? ==> forall h, s | h != item.packet.hostName || s != item.packet.service ::
      Lookup(r, h, s) == Lookup(c, h, s)
    ensures NoEmptyHost(c) ==> NoEmptyHost(r)
  {
    match item
    case Packet(p) => UpdateCacheEntry(c, p.hostName, p.service, p.pluginOutput, p.timestamp, p.state)
    case Foreign => c
  }

  /** The items of a queue applied in dequeue order. */
  function ApplyAll(c: Cache<ServiceEntry>, q: Queue): (r: Cache<ServiceEntry>)
    ensures NoEmptyHost(c) ==> NoEmptyHost(r)
    ensures c.Keys <= r.Keys
    decreases |q|
  {
    if |q| == 0 then c else ApplyAll(Apply(c, q[0]), q[1..])
  }

  /** cacheWorker(false): dequeue until the queue is empty, applying every
      data packet to the cache in order and skipping anything else. */
  method CacheWorker(c0: Cache<ServiceEntry>, q0: Queue) returns (c: Cache<ServiceEntry>, q: Queue)
    ensures q == []
    ensures c == ApplyAll(c0, q0)
    ensures NoEmptyHost(c0) ==> NoEmptyHost(c)
  {
    c, q := c0, q0;
    while |q| > 0
      invariant ApplyAll(c, q) == ApplyAll(c0, q0)
      invariant NoEmptyHost(c0) ==> NoEmptyHost(c)
      decreases |q|
    {
      var item := q[0];
      q := q[1..];
      if item.Packet? {
        var p := item.packet;
        c := UpdateCacheEntry(c, p.hostName, p.service, p.pluginOutput, p.timestamp, p.state);
      }
    }
  }

  lemma {:induction false} ApplyAllAppend(c: Cache<ServiceEntry>, a: Queue, b: Queue)
    ensures ApplyAll(c, a + b) == ApplyAll(ApplyAll(c, a), b)
    decreases |a|
  {
    if |a| > 0 {
      assert (a + b)[0] == a[0];
      assert (a + b)[1..] == a[1..] + b;
      ApplyAllAppend(Apply(c, a[0]), a[1..], b);
    } else {
      assert a + b == b;
    }
  }

  /** A packet queued behind `q` is applied after everything in `q`, so
      once drained its entry is the one in the cache. */
  lemma EnqueueThenDrain(c: Cache<ServiceEntry>, q: Queue, p: DataPacket)
    ensures ApplyAll(c, QueueData(q, p).0) == Apply(ApplyAll(c, q), Packet(p))
    ensures Lookup(ApplyAll(c, QueueData(q, p).0), p.hostName, p.service) == Some(EntryOfPacket(p))
  {
    ApplyAllAppend(c, q, [Packet(p)]);
    assert [Packet(p)][1..] == [];
  }

  /** The data packets of a queue, in order. */
  function PacketsOf(q: Queue): Queue
    decreases |q|
  {
    if |q| == 0 then [] else if q[0].Packet? then [q[0]] + PacketsOf(q[1..]) else PacketsOf(q[1..])
  }

  /** Items that are not data packets have no effect on the cache. */
  lemma {:induction false} ForeignItemsIgnored(c: Cache<ServiceEntry>, q: Queue)
    ensures ApplyAll(c, q) == ApplyAll(c, PacketsOf(q))
    ensures forall k | 0 <= k < |PacketsOf(q)| :: PacketsOf(q)[k].Packet?
    decreases |q|
  {
    if |q| > 0 {
      ForeignItemsIgnored(Apply(c, q[0]), q[1..]);
      if q[0].Packet? {
        var r := [q[0]] + PacketsOf(q[1..]);
        assert r[0] == q[0] && r[1..] == PacketsOf(q[1..]);
      }
    }
  }

  /** The last packet in the queue for a (host, service) pair, if any. */
  function LastPacketFor(q: Queue, h: string, s: string): Option<DataPacket>
    decreases |q|
  {
    if |q| == 0 then None
    else
      var later := LastPacketFor(q[1..], h, s);
      if later.Some? then later
      else if q[0].Packet? && q[0].packet.hostName == h && q[0].packet.service == s then Some(q[0].packet)
      else None
  }

  /** Draining a queue: every (host, service) pair ends with the entry of
      its last packet in the queue, and a pair without packets keeps the
      entry it had before. */
  lemma {:induction false} DrainLastWriteWins(c: Cache<ServiceEntry>, q: Queue, h: string, s: string)
    ensures Lookup(ApplyAll(c, q), h, s)
         == match LastPacketFor(q, h, s)
            case None => Lookup(c, h, s)
            case Some(p) => Some(EntryOfPacket(p))
    decreases |q|
  {
    if |q| > 0 {
      DrainLastWriteWins(Apply(c, q[0]), q[1..], h, s);
    }
  }

  /** The drain with the first-seen extension of the cache. */
  function ApplyTracked(c: Cache<TrackedEntry>, item: QueueItem): Cache<TrackedEntry> {
    match item
    case Packet(p) => UpdateTracked(c, p.hostName, p.service, p.pluginOutput, p.timestamp, p.state)
    case Foreign => c
  }

  function ApplyAllTracked(c: Cache<TrackedEntry>, q: Queue): Cache<TrackedEntry>
    decreases |q|
  {
    if |q| == 0 then c else ApplyAllTracked(ApplyTracked(c, q[0]), q[1..])
  }

  /** Draining into the extended cache and dropping the first-seen times
      gives the same cache as the drain of main.go. */
  lemma {:induction false} TrackedDrainRefinesLiteral(c: Cache<TrackedEntry>, q: Queue)
    ensures ForgetCache(ApplyAllTracked(c, q)) == ApplyAll(ForgetCache(c), q)
    decreases |q|
  {
    if |q| > 0 {
      var item := q[0];
      if item.Packet? {
        var p := item.packet;
        TrackedRefinesLiteral(c, p.hostName, p.service, p.pluginOutput, p.timestamp, p.state);
      }
      assert ForgetCache(ApplyTracked(c, item)) == Apply(ForgetCache(c), item);
      TrackedDrainRefinesLiteral(ApplyTracked(c, item), q[1..]);
    }
  }

  /** The packets of the worker scenario in main_test.go, in queue order. */
  function WorkerScenario(): Queue {
    [Packet(DataPacket("host01", "service foo", "Bar", 1484527962, 0)),
     Packet(DataPacket("host01", "service foo", "New output", 1484527963, 1)),
     Packet(DataPacket("host01", "service bar", "OK", 1484527964, 0)),
     Packet(DataPacket("host02", "service whatever", "OK", 1484527965, 0)),
     Packet(DataPacket("host02", "service bar", "OK", 1484527966, 0))]
  }

  /** The worker scenario of main_test.go drained into an empty cache: the
      second packet for (host01, service foo) replaces the first, a second
      service on host01 and two services on host02 are added, and the same
      service name on two hosts gives two separate entries. */
  lemma WorkerExample(c: Cache<ServiceEntry>)
    requires c == map[]
    ensures Lookup(ApplyAll(c, WorkerScenario()), "host01", "service foo") == Some(ServiceEntry(1484527963, 1, "New output"))
    ensures Lookup(ApplyAll(c, WorkerScenario()), "host01", "service bar") == Some(ServiceEntry(1484527964, 0, "OK"))
    ensures Lookup(ApplyAll(c, WorkerScenario()), "host02", "service whatever") == Some(ServiceEntry(1484527965, 0, "OK"))
    ensures Lookup(ApplyAll(c, WorkerScenario()), "host02", "service bar") == Some(ServiceEntry(1484527966, 0, "OK"))
  {
    var q := WorkerScenario();
    DrainLastWriteWins(c, q, "host01", "service foo");
    DrainLastWriteWins(c, q, "host01", "service bar");
    DrainLastWriteWins(c, q, "host02", "service whatever");
    DrainLastWriteWins(c, q, "host02", "service bar");
  }
}
