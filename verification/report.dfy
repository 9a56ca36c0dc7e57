/** The report helpers of api.go: the status label, the newline
    sanitiser, and the bracket/comma layout reportsHandler writes around
    the elements it renders for every (host, service) of the cache. The
    template rendering of one element and the HTTP plumbing are not part of
    this model; an element is kept as a value. */
module Report {
  import opened StatusCache
  import opened CustomFields

  /** statusString: the label of a Nagios state code. */
  function StatusString(state: Int16): (r: string)
    ensures r == "OK" <==> state == 0
    ensures r == "Warning" <==> state == 1
    ensures r == "Critical" <==> state == 2
    ensures r == "Unknown" <==> state != 0 && state != 1 && state != 2
  {
    if state == 0 then "OK"
    else if state == 1 then "Warning"
    else if state == 2 then "Critical"
    else "Unknown"
  }

  /** sanitizeJSONString: every newline becomes a space; nothing else
      changes. */
  function SanitizeJSONString(str: string): (r: string)
    ensures |r| == |str|
    ensures forall i | 0 <= i < |str| && str[i] != '\n' :: r[i] == str[i]
    ensures forall i | 0 <= i < |str| && str[i] == '\n' :: r[i] == ' '
    ensures forall i | 0 <= i < |r| :: r[i] != '\n'
    decreases |str|
  {
    if |str| == 0 then ""
    else (if str[0] == '\n' then " " else [str[0]]) + SanitizeJSONString(str[1..])
  }

  /** Sanitising twice is sanitising once. */
  lemma SanitizeIdempotent(str: string)
    ensures SanitizeJSONString(SanitizeJSONString(str)) == SanitizeJSONString(str)
  {
  }

  /** A string without newlines is left as it is. */
  lemma SanitizeIdentityWithoutNewlines(str: string)
    requires forall i | 0 <= i < |str| :: str[i] != '\n'
    ensures SanitizeJSONString(str) == str
  {
  }

  /** The "check" part of one report element. The timestamps are kept as
      numbers; their decimal rendering by fmt.Sprint is not modelled. */
  datatype CheckView = CheckView(host: string, name: string, status: string, message: string,
                                 timestamp: Uint32, statusFirstSeen: Uint32)

  /** One element of the report: the check and its resolved custom fields. */
  datatype ReportElement<V> = ReportElement(check: CheckView, custom: Fields<V>)

  /** The element reportsHandler builds for one cache entry. */
  function MakeElement<V>(store: Store<V>, host: string, svc: string, e: TrackedEntry): (r: ReportElement<V>)
    ensures forall i | 0 <= i < |r.check.message| :: r.check.message[i] != '\n'
    ensures r.check.status in {"OK", "Warning", "Critical", "Unknown"}
  {
    ReportElement(
      CheckView(host, svc, StatusString(e.state), SanitizeJSONString(e.output), e.timestamp, e.statusFirstSeen),
      GetCustomFields(store, host, svc))
  }

  // ---------------------------------------------------------------------
  // Layout

  /** What reportsHandler writes, as tokens: "[" , one rendered element,
      "," and "]\n". */
  datatype Token<E> = Open | Item(element: E) | Comma | Close

  /** Concatenation of a sequence of groups. */
  function Flatten<E>(gs: seq<seq<E>>): seq<E>
    decreases |gs|
  {
    if |gs| == 0 then [] else Flatten(gs[..|gs| - 1]) + gs[|gs| - 1]
  }

  /** Every item followed by a comma. */
  function WithCommas<E>(xs: seq<E>): seq<Token<E>>
    decreases |xs|
  {
    if |xs| == 0 then [] else WithCommas(xs[..|xs| - 1]) + [Item(xs[|xs| - 1]), Comma]
  }

  /** Items and commas emitted so far: every item followed by a comma,
      except the very last one once it has been written (`closed`). */
  function Emitted<E>(xs: seq<E>, closed: bool): seq<Token<E>> {
    if closed && |xs| > 0 then WithCommas(xs[..|xs| - 1]) + [Item(xs[|xs| - 1])] else WithCommas(xs)
  }

  /** The last group of the iteration, if any, is not empty. */
  predicate LastGroupNonEmpty<E>(gs: seq<seq<E>>) {
    |gs| == 0 || |gs[|gs| - 1]| > 0
  }

  /** `out` is a JSON-style array of `xs`: "[" , the items separated by
      single commas, "]". */
  ghost predicate IsArrayOf<E>(out: seq<Token<E>>, xs: seq<E>) {
    && |out| == (if |xs| == 0 then 2 else 2 * |xs| + 1)
    && out[0] == Open
    && out[|out| - 1] == Close
    && forall i | 1 <= i < |out| - 1 :: out[i] == if i % 2 == 1 then Item(xs[(i - 1) / 2]) else Comma
  }

  /** Shape of the items-and-commas part. */
  lemma {:induction false} WithCommasShape<E>(xs: seq<E>)
    ensures |WithCommas(xs)| == 2 * |xs|
    ensures forall i | 0 <= i < 2 * |xs| :: WithCommas(xs)[i] == if i % 2 == 0 then Item(xs[i / 2]) else Comma
    ensures multiset(WithCommas(xs))[Comma] == |xs|
    decreases |xs|
  {
    if |xs| > 0 {
      var init := xs[..|xs| - 1];
      WithCommasShape(init);
      forall i | 0 <= i < 2 * |init| ensures xs[i / 2] == init[i / 2] {}
    }
  }

  /** Shape of the emitted part, closed or not. */
  lemma EmittedShape<E>(xs: seq<E>, closed: bool)
    ensures |Emitted(xs, closed)| == (if closed && |xs| > 0 then 2 * |xs| - 1 else 2 * |xs|)
    ensures forall i | 0 <= i < |Emitted(xs, closed)| ::
      Emitted(xs, closed)[i] == if i % 2 == 0 then Item(xs[i / 2]) else Comma
    ensures multiset(Emitted(xs, closed))[Comma] == if closed && |xs| > 0 then |xs| - 1 else |xs|
  {
    if closed && |xs| > 0 {
      var init := xs[..|xs| - 1];
      WithCommasShape(init);
      forall i | 0 <= i < 2 * |init| ensures xs[i / 2] == init[i / 2] {}
    } else {
      WithCommasShape(xs);
    }
  }

  /** Emitting one more item, with or without the comma after it. */
  lemma EmitOne<E>(xs: seq<E>, x: E)
    ensures WithCommas(xs) + [Item(x), Comma] == Emitted(xs + [x], false)
    ensures WithCommas(xs) + [Item(x)] == Emitted(xs + [x], true)
  {
    assert (xs + [x])[..|xs|] == xs;
  }

  /** The facts the layout guarantees, read off the emitted tokens. */
  lemma LayoutShape<E>(out: seq<Token<E>>, xs: seq<E>, closed: bool)
    requires out == [Open] + Emitted(xs, closed) + [Close]
    ensures |out| >= 2 && out[0] == Open && out[|out| - 1] == Close
    ensures |out| == if closed && |xs| > 0 then 2 * |xs| + 1 else 2 * |xs| + 2
    ensures forall i | 1 <= i < |out| - 1 :: out[i] == if i % 2 == 1 then Item(xs[(i - 1) / 2]) else Comma
    ensures multiset(out)[Comma] == if closed && |xs| > 0 then |xs| - 1 else |xs|
    ensures closed ==> IsArrayOf(out, xs)
  {
    var body := Emitted(xs, closed);
    EmittedShape(xs, closed);
    assert forall i | 1 <= i < |out| - 1 :: out[i] == body[i - 1];
    assert multiset(out) == multiset([Open]) + multiset(body) + multiset([Close]);
  }

  /** The inner loop of reportsHandler, over the services of one host:
      every element gets a comma after it unless it is the last element of
      the last host (`lastHost`). `done` is what earlier hosts emitted. */
  method EmitGroup<E>(body0: seq<Token<E>>, done: seq<E>, svcs: seq<E>, lastHost: bool) returns (body: seq<Token<E>>)
    requires body0 == Emitted(done, false)
    ensures body == Emitted(done + svcs, lastHost && |svcs| > 0)
  {
    body := body0;
    var j := 0;
    assert done + svcs[..j] == done;
    while j < |svcs|
      invariant 0 <= j <= |svcs|
      invariant body == Emitted(done + svcs[..j], lastHost && j == |svcs| && j > 0)
    {
      assert done + svcs[..j + 1] == (done + svcs[..j]) + [svcs[j]];
      EmitOne(done + svcs[..j], svcs[j]);
      body := body + [Item(svcs[j])];
      if !(lastHost && j == |svcs| - 1) {
        body := body + [Comma];
      }
      j := j + 1;
    }
    assert svcs[..j] == svcs;
  }

  /** The outer loop of reportsHandler, over the groups the map iteration
      yields (one group per host, one element per service). Go's counters i
      and j start at 1, the ones here at 0. When the last group is empty the
      comma after the previous element is never withheld. */
  method EmitElements<E>(groups: seq<seq<E>>) returns (body: seq<Token<E>>)
    ensures body == Emitted(Flatten(groups), LastGroupNonEmpty(groups))
  {
    body := [];
    var i := 0;
    while i < |groups|
      invariant 0 <= i <= |groups|
      invariant body == Emitted(Flatten(groups[..i]), i == |groups| && LastGroupNonEmpty(groups))
    {
      body := EmitGroup(body, Flatten(groups[..i]), groups[i], i == |groups| - 1);
      assert groups[..i + 1][..i] == groups[..i];
      i := i + 1;
    }
    assert groups[..i] == groups;
  }

  /** reportsHandler's output around the elements: "[" first, "]\n" last.
      The result is a well-formed array exactly when the last group is not
      empty; otherwise it ends in ",]". */
  method Layout<E>(groups: seq<seq<E>>) returns (out: seq<Token<E>>)
    ensures |out| >= 2 && out[0] == Open && out[|out| - 1] == Close
    ensures var n := |Flatten(groups)|;
      |out| == if LastGroupNonEmpty(groups) && n > 0 then 2 * n + 1 else 2 * n + 2
    ensures forall i | 1 <= i < |out| - 1 ::
      out[i] == if i % 2 == 1 then Item(Flatten(groups)[(i - 1) / 2]) else Comma
    ensures var n := |Flatten(groups)|;
      multiset(out)[Comma] == if LastGroupNonEmpty(groups) && n > 0 then n - 1 else n
    ensures LastGroupNonEmpty(groups) ==> IsArrayOf(out, Flatten(groups))
  {
    var body := EmitElements(groups);
    out := [Open] + body + [Close];
    LayoutShape(out, Flatten(groups), LastGroupNonEmpty(groups));
  }

  /** The comma rule seen from the end of the output: with at least one
      element, the elements end in a comma exactly when the last group the
      iteration visits is empty, and the comma follows the last element. */
  lemma TrailingCommaExactlyWhenLastGroupEmpty<E>(groups: seq<seq<E>>)
    requires |Flatten(groups)| > 0
    ensures var xs := Flatten(groups);
      var b := Emitted(xs, LastGroupNonEmpty(groups));
      && |b| == (if LastGroupNonEmpty(groups) then 2 * |xs| - 1 else 2 * |xs|)
      && (b[|b| - 1] == Comma <==> !LastGroupNonEmpty(groups))
      && (LastGroupNonEmpty(groups) ==> b[|b| - 1] == Item(xs[|xs| - 1]))
      && (!LastGroupNonEmpty(groups) ==> b[|b| - 2] == Item(xs[|xs| - 1]))
  {
    EmittedShape(Flatten(groups), LastGroupNonEmpty(groups));
  }

  /** The trailing-comma case on the smallest input: when the iteration
      visits a host with no services last, the array is not closed properly.
      The cache invariant `NoEmptyHost` rules this out (see `ReportsHandler`). */
  lemma TrailingCommaWhenLastHostEmpty<E>(x: E)
    ensures Emitted(Flatten([[x], []]), LastGroupNonEmpty([[x], []])) == [Item(x), Comma]
  {
    var gs := [[x], []];
    assert gs[..1] == [[x]];
    assert [[x]][..0] == [];
    assert Flatten([[x]]) == [x];
    assert Flatten(gs) == [x];
    assert [x][..0] == [];
    assert WithCommas([x]) == [Item(x), Comma];
  }

  // ---------------------------------------------------------------------
  // The report over the cache

  /** One iteration order of a cache: each host with the order of its
      services, as Go's map iteration may yield them. */
  type Order = seq<(string, seq<string>)>

  predicate Distinct<T(==)>(xs: seq<T>) {
    forall i, j | 0 <= i < j < |xs| :: xs[i] != xs[j]
  }

  function Hosts(order: Order): seq<string> {
    seq(|order|, i requires 0 <= i < |order| => order[i].0)
  }

  /** `order` lists every host of the cache exactly once, and for each host
      every one of its services exactly once. */
  ghost predicate Enumerates<E>(c: Cache<E>, order: Order) {
    && Distinct(Hosts(order))
    && (set h | h in Hosts(order)) == c.Keys
    && forall i | 0 <= i < |order| ::
         order[i].0 in c && Distinct(order[i].1) && (set s | s in order[i].1) == c[order[i].0].Keys
  }

  /** The (host, service) pairs visited, grouped per host. */
  function PairGroups(order: Order): seq<seq<(string, string)>> {
    seq(|order|, i requires 0 <= i < |order| =>
      seq(|order[i].1|, j requires 0 <= j < |order[i].1| => (order[i].0, order[i].1[j])))
  }

  /** The (host, service) pairs in visiting order. */
  function Pairs(order: Order): seq<(string, string)> {
    Flatten(PairGroups(order))
  }

  function MapSeq<A, B>(xs: seq<A>, f: A -> B): seq<B> {
    seq(|xs|, k requires 0 <= k < |xs| => f(xs[k]))
  }

  function MapEach<A, B>(gs: seq<seq<A>>, f: A -> B): seq<seq<B>> {
    seq(|gs|, i requires 0 <= i < |gs| => MapSeq(gs[i], f))
  }

  /** The entry of a pair; pairs outside the cache never occur in an
      enumeration of it. */
  function EntryOf(c: Cache<TrackedEntry>, h: string, s: string): TrackedEntry {
    Lookup(c, h, s).GetOr(TrackedEntry(0, 0, 0, ""))
  }

  function ElementFor<V>(c: Cache<TrackedEntry>, store: Store<V>, p: (string, string)): ReportElement<V> {
    MakeElement(store, p.0, p.1, EntryOf(c, p.0, p.1))
  }

  /** The elements reportsHandler renders, in visiting order. */
  function Elements<V>(c: Cache<TrackedEntry>, store: Store<V>, order: Order): seq<ReportElement<V>> {
    MapSeq(Pairs(order), p => ElementFor(c, store, p))
  }

  lemma {:induction false} FlattenMapEach<A, B>(gs: seq<seq<A>>, f: A -> B)
    ensures Flatten(MapEach(gs, f)) == MapSeq(Flatten(gs), f)
    decreases |gs|
  {
    if |gs| > 0 {
      var n := |gs|;
      assert MapEach(gs, f)[..n - 1] == MapEach(gs[..n - 1], f);
      FlattenMapEach(gs[..n - 1], f);
    }
  }

  lemma {:induction false} InFlatten<E>(gs: seq<seq<E>>, x: E)
    ensures x in Flatten(gs) <==> exists i | 0 <= i < |gs| :: x in gs[i]
    decreases |gs|
  {
    if |gs| > 0 {
      var n := |gs|;
      InFlatten(gs[..n - 1], x);
      if x in Flatten(gs[..n - 1]) {
        var i :| 0 <= i < n - 1 && x in gs[..n - 1][i];
        assert x in gs[i];
      }
      if exists i | 0 <= i < n :: x in gs[i] {
        var i :| 0 <= i < n && x in gs[i];
        if i < n - 1 {
          assert x in gs[..n - 1][i];
        }
      }
    }
  }

  /** Concatenating pairwise-disjoint groups without repeats gives a
      sequence without repeats. */
  lemma {:induction false} DistinctFlatten<E>(gs: seq<seq<E>>)
    requires forall i | 0 <= i < |gs| :: Distinct(gs[i])
    requires forall i, j, x | 0 <= i < j < |gs| && x in gs[i] :: x !in gs[j]
    ensures Distinct(Flatten(gs))
    decreases |gs|
  {
    if |gs| > 0 {
      var n := |gs|;
      var init := gs[..n - 1];
      DistinctFlatten(init);
      var a := Flatten(init);
      var b := gs[n - 1];
      forall x | x in a ensures x !in b {
        InFlatten(init, x);
        var i :| 0 <= i < n - 1 && x in init[i];
        assert x in gs[i];
      }
      forall i, j | 0 <= i < j < |a + b| ensures (a + b)[i] != (a + b)[j] {
        if j < |a| {
        } else if i >= |a| {
          assert (a + b)[i] == b[i - |a|] && (a + b)[j] == b[j - |a|];
        } else {
          assert (a + b)[i] in a && (a + b)[j] in b;
        }
      }
    }
  }

  /** An enumeration visits every entry of the cache exactly once, and
      nothing else. */
  lemma PairsCoverCache<E>(c: Cache<E>, order: Order)
    requires Enumerates(c, order)
    ensures forall h, s :: (h, s) in Pairs(order) <==> Lookup(c, h, s).Some?
    ensures Distinct(Pairs(order))
  {
    var gs := PairGroups(order);
    forall h, s ensures (h, s) in Pairs(order) <==> Lookup(c, h, s).Some? {
      InFlatten(gs, (h, s));
      if Lookup(c, h, s).Some? {
        assert h in (set h' | h' in Hosts(order));
        var i :| 0 <= i < |order| && Hosts(order)[i] == h;
        assert s in (set s' | s' in order[i].1);
        var j :| 0 <= j < |order[i].1| && order[i].1[j] == s;
        assert gs[i][j] == (h, s);
      }
      if (h, s) in Pairs(order) {
        var i :| 0 <= i < |gs| && (h, s) in gs[i];
        var j :| 0 <= j < |gs[i]| && gs[i][j] == (h, s);
        assert order[i].1[j] in (set s' | s' in order[i].1);
      }
    }
    forall i, j, x | 0 <= i < j < |gs| && x in gs[i] ensures x !in gs[j] {
      assert Hosts(order)[i] != Hosts(order)[j];
    }
    DistinctFlatten(gs);
  }

  /** Under the cache invariant, the last host visited has a service. */
  lemma LastHostHasService<E>(c: Cache<E>, order: Order)
    requires Enumerates(c, order) && NoEmptyHost(c)
    ensures LastGroupNonEmpty(PairGroups(order))
  {
    if |order| > 0 {
      var last := order[|order| - 1];
      var s :| s in c[last.0];
      assert s in (set s' | s' in last.1);
    }
  }

  /** reportsHandler over one iteration order of the cache: one element
      per cache entry, each pairing the entry with the custom fields
      resolved for its (host, service); and, because no host of the cache
      is without services, a well-formed array with a comma between
      consecutive elements only. */
  method ReportsHandler<V>(c: Cache<TrackedEntry>, store: Store<V>, order: Order) returns (out: seq<Token<ReportElement<V>>>)
    requires Enumerates(c, order)
    ensures var xs := Elements(c, store, order);
      NoEmptyHost(c) ==> IsArrayOf(out, xs)
    ensures var xs := Elements(c, store, order);
      NoEmptyHost(c) && |xs| > 0 ==> multiset(out)[Comma] == |xs| - 1
    ensures var ps := Pairs(order);
      forall k | 0 <= k < |ps| :: Lookup(c, ps[k].0, ps[k].1).Some?
        && Elements(c, store, order)[k]
           == MakeElement(store, ps[k].0, ps[k].1, c[ps[k].0][ps[k].1])
  {
    var mk := p => ElementFor(c, store, p);
    var groups := MapEach(PairGroups(order), mk);
    out := Layout(groups);
    FlattenMapEach(PairGroups(order), mk);
    PairsCoverCache(c, order);
    if NoEmptyHost(c) {
      LastHostHasService(c, order);
    }
  }
}
