/** The custom-field hierarchy of custom.go: a store of field maps keyed by
    (hostgroup, check name), loaded from a directory of YAML documents and
    resolved per (host, check) by overlaying three levels.

    Field values are an opaque type parameter `V`: they come out of the YAML
    decoder and are passed through untouched. */
module CustomFields {
  import opened Wrappers
  import opened FilePaths

  /** FieldClassifier of custom.go. */
  datatype FieldClassifier = FieldClassifier(hostgroup: string, service: string)

  type Fields<V> = map<string, V>
  type Store<V> = map<FieldClassifier, Fields<V>>

  /** Sentinel hostgroup of the global defaults (common.yaml). */
  const CommonGroup: string := "##common##"
  /** Sentinel check name meaning "every check of the hostgroup". */
  const AllChecks: string := "all"
  const CommonKey: FieldClassifier := FieldClassifier(CommonGroup, AllChecks)

  /** `key` is present in the store and defines field `f`. */
  predicate Defines<V>(store: Store<V>, key: FieldClassifier, f: string) {
    key in store && f in store[key]
  }

  /** mergeMapFromCustomFields: overlay the classifier's field map, if the
      store has one, onto the accumulator; the classifier's values win. */
  function MergeFromStore<V>(store: Store<V>, acc: Fields<V>, key: FieldClassifier): (r: Fields<V>)
    ensures key !in store ==> r == acc
    ensures forall f :: f in r <==> f in acc || Defines(store, key, f)
    ensures forall f | Defines(store, key, f) :: r[f] == store[key][f]
    ensures forall f | f in acc && !Defines(store, key, f) :: r[f] == acc[f]
  {
    if key in store then acc + store[key] else acc
  }

  /** The characters matched by the class [A-Za-z0-9]. */
  predicate IsAsciiAlphanumeric(c: char) {
    ('A' <= c <= 'Z') || ('a' <= c <= 'z') || ('0' <= c <= '9')
  }

  /** The hostgroup getCustomFields derives from a host name: the regular
      expression [^A-Za-z0-9]$ replaced by nothing, i.e. one trailing
      character outside the class removed. */
  function Hostgroup(hostname: string): (g: string)
    ensures |g| <= |hostname| && g == hostname[..|g|]
    ensures |g| >= |hostname| - 1
    ensures |g| < |hostname| <==> |hostname| > 0 && !IsAsciiAlphanumeric(hostname[|hostname| - 1])
  {
    if |hostname| > 0 && !IsAsciiAlphanumeric(hostname[|hostname| - 1])
    then hostname[..|hostname| - 1]
    else hostname
  }

  /** Reference definition of the hierarchy: the value of field `f` comes
      from the most specific level that defines it. */
  function Resolve<V>(store: Store<V>, hostgroup: string, checkName: string, f: string): Option<V> {
    var exact := FieldClassifier(hostgroup, checkName);
    var group := FieldClassifier(hostgroup, AllChecks);
    if Defines(store, exact, f) then Some(store[exact][f])
    else if Defines(store, group, f) then Some(store[group][f])
    else if Defines(store, CommonKey, f) then Some(store[CommonKey][f])
    else None
  }

  /** getCustomFields: global defaults, then the hostgroup's defaults, then
      the (hostgroup, check) document, each overwriting the previous. The
      result agrees field by field with the most-specific-first reference. */
  function GetCustomFields<V>(store: Store<V>, hostname: string, checkName: string): (r: Fields<V>)
    ensures forall f :: f in r <==> Resolve(store, Hostgroup(hostname), checkName, f).Some?
    ensures forall f | f in r :: r[f] == Resolve(store, Hostgroup(hostname), checkName, f).value
  {
    var hostgroup := Hostgroup(hostname);
    var common := MergeFromStore(store, map[], CommonKey);
    var group := MergeFromStore(store, common, FieldClassifier(hostgroup, AllChecks));
    MergeFromStore(store, group, FieldClassifier(hostgroup, checkName))
  }

  /** An empty store resolves every (host, check) to no fields. */
  lemma EmptyStoreResolvesNothing<V>(store: Store<V>, hostname: string, checkName: string)
    requires store == map[]
    ensures GetCustomFields(store, hostname, checkName) == map[]
  {
  }

  /** Every resolved field comes from one of the three levels. */
  lemma ResolvedKeysFromLevels<V>(store: Store<V>, hostname: string, checkName: string)
    ensures var g := Hostgroup(hostname);
      GetCustomFields(store, hostname, checkName).Keys
        <= (if CommonKey in store then store[CommonKey].Keys else {})
         + (if FieldClassifier(g, AllChecks) in store then store[FieldClassifier(g, AllChecks)].Keys else {})
         + (if FieldClassifier(g, checkName) in store then store[FieldClassifier(g, checkName)].Keys else {})
  {
  }

  /** Precedence: foo=A globally, B for the hostgroup, C for the check;
      the check wins, then the hostgroup, then the global value. */
  lemma PrecedenceExample()
    ensures var full := map[CommonKey := map["foo" := "A"],
                            FieldClassifier("web", AllChecks) := map["foo" := "B"],
                            FieldClassifier("web", "http") := map["foo" := "C"]];
      && GetCustomFields(full, "web", "http") == map["foo" := "C"]
      && GetCustomFields(full - {FieldClassifier("web", "http")}, "web", "http") == map["foo" := "B"]
      && GetCustomFields(map[CommonKey := map["foo" := "A"]], "web", "http") == map["foo" := "A"]
  {
  }

  /** A field defined only by the global defaults survives the overlay. */
  lemma LowerLevelFieldSurvives<V>(store: Store<V>, hostname: string, checkName: string, f: string)
    requires Defines(store, CommonKey, f)
    requires !Defines(store, FieldClassifier(Hostgroup(hostname), AllChecks), f)
    requires !Defines(store, FieldClassifier(Hostgroup(hostname), checkName), f)
    ensures f in GetCustomFields(store, hostname, checkName)
    ensures GetCustomFields(store, hostname, checkName)[f] == store[CommonKey][f]
  {
  }

  /** The host names of the repository's lookup tests: "web01" ends in a
      digit and is its own hostgroup, so the regular expression does not
      map it to "web"; "web-" does. */
  lemma HostgroupExamples()
    ensures Hostgroup("web01") == "web01"
    ensures Hostgroup("web-") == "web"
    ensures Hostgroup("") == ""
  {
  }

  /** Removing one character is not idempotent: a second trailing symbol
      survives. */
  lemma HostgroupStripsOnlyOne()
    ensures Hostgroup("web--") == "web-"
    ensures Hostgroup(Hostgroup("web--")) == "web"
  {
  }

  // ---------------------------------------------------------------------
  // Loading

  /** What processYamlFile yields for one file: a read failure (nil map), or
      the map the decoder filled, which on a parse error may be partial. */
  datatype ReadResult<V> = ReadFailed | Decoded(fields: Fields<V>)

  /** The field map a file contributes: empty when it could not be read. */
  function FieldsOf<V>(r: ReadResult<V>): (f: Fields<V>)
    ensures r.ReadFailed? ==> f == map[]
    ensures r.Decoded? ==> f == r.fields
  {
    match r
    case ReadFailed => map[]
    case Decoded(fields) => fields
  }

  /** A file name the glob "*.yaml" can match. */
  predicate IsYamlPath(p: string) {
    |p| >= 5 && p[|p| - 5..] == ".yaml"
  }

  /** The classifier of a matched file: the name of its directory and its
      own name without the ".yaml" suffix. */
  function ClassifierOf(p: string): FieldClassifier
    requires IsYamlPath(p)
  {
    FieldClassifier(Base(Dir(p)), Base(p[..|p| - 5]))
  }

  /** Dir of `dir + "/" + name` is `dir`, for a directory that does not
      end in a separator and a name without one. */
  lemma DirOfChild(dir: string, name: string)
    requires |dir| > 0 && dir[|dir| - 1] != Separator
    requires IsElement(name)
    ensures Dir(dir + [Separator] + name) == dir
  {
    var p := dir + [Separator] + name;
    assert forall j | |dir| < j < |p| :: p[j] == name[j - |dir| - 1];
    LastSeparatorAt(p, |dir|);
    assert p[..|dir|] == dir;
  }

  /** The hostgroup part of a glob match: the name of the directory
      holding the file. */
  lemma HostgroupOfGlobMatch(prefix: string, hostgroup: string, file: string)
    requires |prefix| == 0 || prefix[|prefix| - 1] == Separator
    requires |hostgroup| > 0 && IsElement(hostgroup) && IsElement(file)
    ensures Base(Dir(prefix + hostgroup + [Separator] + file)) == hostgroup
  {
    var dir := prefix + hostgroup;
    assert dir[|dir| - 1] == hostgroup[|hostgroup| - 1];
    assert prefix + hostgroup + [Separator] + file == dir + [Separator] + file;
    DirOfChild(dir, file);
    assert dir == prefix + hostgroup + seq(0, _ => Separator);
    BaseOfElement(prefix, hostgroup, 0);
  }

  /** The check part of a glob match: the file's name without ".yaml", or
      the hostgroup again when that name is empty. */
  lemma CheckOfGlobMatch(prefix: string, hostgroup: string, check: string)
    requires |prefix| == 0 || prefix[|prefix| - 1] == Separator
    requires |hostgroup| > 0 && IsElement(hostgroup) && IsElement(check)
    ensures Base(prefix + hostgroup + [Separator] + check)
         == if |check| == 0 then hostgroup else check
  {
    if |check| == 0 {
      assert prefix + hostgroup + [Separator] + check == prefix + hostgroup + seq(1, _ => Separator);
      BaseOfElement(prefix, hostgroup, 1);
    } else {
      var dir := prefix + hostgroup + [Separator];
      assert prefix + hostgroup + [Separator] + check == dir + check + seq(0, _ => Separator);
      BaseOfElement(dir, check, 0);
    }
  }

  /** The pieces of a glob match: it ends in ".yaml", its stem is the path
      without that suffix, and the file name has no separator. */
  lemma GlobMatchPieces(p: string, prefix: string, hostgroup: string, check: string)
    requires IsElement(check)
    requires p == prefix + hostgroup + [Separator] + check + ".yaml"
    ensures IsYamlPath(p)
    ensures p[..|p| - 5] == prefix + hostgroup + [Separator] + check
    ensures p == prefix + hostgroup + [Separator] + (check + ".yaml")
    ensures IsElement(check + ".yaml")
  {
    var file := check + ".yaml";
    assert p[|p| - 5..] == ".yaml";
    assert forall j | |check| <= j < |file| :: file[j] == ".yaml"[j - |check|];
  }

  /** The glob root/service/<hostgroup>/<check>.yaml yields the classifier
      (hostgroup, check); a file named just ".yaml" yields (hostgroup,
      hostgroup), because Base ignores the separator left at the end. */
  lemma ClassifierOfGlobMatch(p: string, prefix: string, hostgroup: string, check: string)
    requires |prefix| == 0 || prefix[|prefix| - 1] == Separator
    requires |hostgroup| > 0 && IsElement(hostgroup) && IsElement(check)
    requires p == prefix + hostgroup + [Separator] + check + ".yaml"
    ensures IsYamlPath(p)
    ensures ClassifierOf(p) == FieldClassifier(hostgroup, if |check| == 0 then hostgroup else check)
  {
    GlobMatchPieces(p, prefix, hostgroup, check);
    HostgroupOfGlobMatch(prefix, hostgroup, check + ".yaml");
    CheckOfGlobMatch(prefix, hostgroup, check);
  }

  /** Classifiers of a sequence of matched files. */
  function ClassifiersOf(matches: seq<string>): set<FieldClassifier>
    requires forall p <- matches :: IsYamlPath(p)
  {
    set p <- matches :: ClassifierOf(p)
  }

  /** The i-th matched file is the last one with its classifier. */
  predicate LastWithClassifier(matches: seq<string>, i: int)
    requires forall p <- matches :: IsYamlPath(p)
    requires 0 <= i < |matches|
  {
    forall j | i < j < |matches| :: ClassifierOf(matches[j]) != ClassifierOf(matches[i])
  }

  // Map assignments in sequence, independent of what the keys are.

  function KeysOf<K, W>(kvs: seq<(K, W)>): set<K> {
    set i | 0 <= i < |kvs| :: kvs[i].0
  }

  /** No later assignment has the same key as the i-th. */
  predicate LastWithKey<K(==), W>(kvs: seq<(K, W)>, i: int)
    requires 0 <= i < |kvs|
  {
    forall j | i < j < |kvs| :: kvs[j].0 != kvs[i].0
  }

  /** `m[k1 := v1][k2 := v2]...` for the pairs of `kvs` in order. */
  function InsertAll<K(==), W>(m: map<K, W>, kvs: seq<(K, W)>): map<K, W>
    decreases |kvs|
  {
    if |kvs| == 0 then m else InsertAll(m[kvs[0].0 := kvs[0].1], kvs[1..])
  }

  lemma KeysOfCons<K, W>(kvs: seq<(K, W)>)
    requires |kvs| > 0
    ensures KeysOf(kvs) == {kvs[0].0} + KeysOf(kvs[1..])
  {
    forall k | k in KeysOf(kvs) ensures k in {kvs[0].0} + KeysOf(kvs[1..]) {
      var i :| 0 <= i < |kvs| && kvs[i].0 == k;
      if i > 0 {
        assert kvs[1..][i - 1] == kvs[i];
      }
    }
    forall k | k in KeysOf(kvs[1..]) ensures k in KeysOf(kvs) {
      var i :| 0 <= i < |kvs[1..]| && kvs[1..][i].0 == k;
      assert kvs[i + 1].0 == k;
    }
  }

  /** The assigned keys are added, and nothing else. */
  lemma {:induction false} InsertAllKeys<K, W>(m: map<K, W>, kvs: seq<(K, W)>)
    ensures InsertAll(m, kvs).Keys == m.Keys + KeysOf(kvs)
    decreases |kvs|
  {
    if |kvs| > 0 {
      KeysOfCons(kvs);
      InsertAllKeys(m[kvs[0].0 := kvs[0].1], kvs[1..]);
    }
  }

  /** Keys that are not assigned keep their values. */
  lemma {:induction false} InsertAllKeeps<K, W>(m: map<K, W>, kvs: seq<(K, W)>, k: K)
    requires k in m && k !in KeysOf(kvs)
    ensures k in InsertAll(m, kvs) && InsertAll(m, kvs)[k] == m[k]
    decreases |kvs|
  {
    if |kvs| > 0 {
      KeysOfCons(kvs);
      InsertAllKeeps(m[kvs[0].0 := kvs[0].1], kvs[1..], k);
    }
  }

  lemma LastWithKeyTail<K, W>(kvs: seq<(K, W)>, i: int)
    requires 1 <= i < |kvs| && LastWithKey(kvs, i)
    ensures kvs[1..][i - 1] == kvs[i] && LastWithKey(kvs[1..], i - 1)
  {
    forall j | i - 1 < j < |kvs[1..]|
      ensures kvs[1..][j].0 != kvs[1..][i - 1].0
    {
      assert kvs[1..][j] == kvs[j + 1];
    }
  }

  lemma LastWithKeyFirst<K, W>(kvs: seq<(K, W)>)
    requires |kvs| > 0 && LastWithKey(kvs, 0)
    ensures kvs[0].0 !in KeysOf(kvs[1..])
  {
    forall j | 0 <= j < |kvs[1..]| ensures kvs[1..][j].0 != kvs[0].0 {
      assert kvs[1..][j] == kvs[j + 1];
    }
  }

  /** The value of a key is the one of its last assignment. */
  lemma {:induction false} InsertAllLastWins<K, W>(m: map<K, W>, kvs: seq<(K, W)>, i: int)
    requires 0 <= i < |kvs| && LastWithKey(kvs, i)
    ensures kvs[i].0 in InsertAll(m, kvs) && InsertAll(m, kvs)[kvs[i].0] == kvs[i].1
    decreases |kvs|
  {
    var next := m[kvs[0].0 := kvs[0].1];
    if i == 0 {
      LastWithKeyFirst(kvs);
      InsertAllKeeps(next, kvs[1..], kvs[0].0);
    } else {
      LastWithKeyTail(kvs, i);
      InsertAllLastWins(next, kvs[1..], i - 1);
    }
  }

  /** The (classifier, field map) pair each matched file contributes. */
  function FileEntries<V>(matches: seq<string>, read: string -> ReadResult<V>): seq<(FieldClassifier, Fields<V>)>
    requires forall p <- matches :: IsYamlPath(p)
  {
    seq(|matches|, i requires 0 <= i < |matches| => (ClassifierOf(matches[i]), FieldsOf(read(matches[i]))))
  }

  lemma LastWithClassifierIsLastWithKey<V>(matches: seq<string>, read: string -> ReadResult<V>, i: int)
    requires forall p <- matches :: IsYamlPath(p)
    requires 0 <= i < |matches|
    ensures LastWithClassifier(matches, i) <==> LastWithKey(FileEntries(matches, read), i)
  {
    var es := FileEntries(matches, read);
    assert forall j | 0 <= j < |matches| :: es[j].0 == ClassifierOf(matches[j]);
  }

  lemma FileEntriesFacts<V>(matches: seq<string>, read: string -> ReadResult<V>)
    requires forall p <- matches :: IsYamlPath(p)
    ensures KeysOf(FileEntries(matches, read)) == ClassifiersOf(matches)
    ensures forall i | 0 <= i < |matches| :: LastWithClassifier(matches, i) <==> LastWithKey(FileEntries(matches, read), i)
  {
    var es := FileEntries(matches, read);
    forall k | k in ClassifiersOf(matches) ensures k in KeysOf(es) {
      var p :| p in matches && ClassifierOf(p) == k;
      var i :| 0 <= i < |matches| && matches[i] == p;
      assert es[i].0 == k;
    }
    forall i | 0 <= i < |matches| {
      LastWithClassifierIsLastWithKey(matches, read, i);
    }
  }

  /** The loop over the matched files, one map assignment per file. */
  function InsertFiles<V>(store: Store<V>, matches: seq<string>, read: string -> ReadResult<V>): Store<V>
    requires forall p <- matches :: IsYamlPath(p)
  {
    InsertAll(store, FileEntries(matches, read))
  }

  /** What the file loop does: every matched file gets an entry for its
      classifier, other entries are left alone, and a classifier's entry is
      the field map of the last file with that classifier (empty when the
      file cannot be read). */
  lemma InsertFilesFacts<V>(store: Store<V>, matches: seq<string>, read: string -> ReadResult<V>)
    requires forall p <- matches :: IsYamlPath(p)
    ensures InsertFiles(store, matches, read).Keys == store.Keys + ClassifiersOf(matches)
    ensures forall k | k in store && k !in ClassifiersOf(matches) :: InsertFiles(store, matches, read)[k] == store[k]
    ensures forall i | 0 <= i < |matches| && LastWithClassifier(matches, i) ::
      InsertFiles(store, matches, read)[ClassifierOf(matches[i])] == FieldsOf(read(matches[i]))
  {
    var es := FileEntries(matches, read);
    FileEntriesFacts(matches, read);
    InsertAllKeys(store, es);
    forall k | k in store && k !in ClassifiersOf(matches) {
      InsertAllKeeps(store, es, k);
    }
    forall i | 0 <= i < |matches| && LastWithClassifier(matches, i) {
      InsertAllLastWins(store, es, i);
    }
  }

  /** Why loadCustomFields failed: the error os.Stat reported for the root. */
  type StatError = string

  /** The store loadCustomFields installs, and the error it returns. */
  datatype Loaded<V> = Loaded(store: Store<V>, err: Option<StatError>)

  /** loadCustomFields, with the file system passed in: `rootStat` is what
      os.Stat said about the root, `common` what reading common.yaml gave,
      `matches` what the glob of YAML files two levels under service/ returned, and `read` what
      reading each matched file gives. */
  function LoadCustomFields<V>(rootStat: Option<StatError>, common: ReadResult<V>,
                               matches: seq<string>, read: string -> ReadResult<V>): (r: Loaded<V>)
    requires forall p <- matches :: IsYamlPath(p)
    ensures rootStat.Some? ==> r.store == map[] && r.err == rootStat
    ensures rootStat.None? ==> r.err.None?
    ensures rootStat.None? ==> r.store.Keys == {CommonKey} + ClassifiersOf(matches)
    ensures rootStat.None? && CommonKey !in ClassifiersOf(matches) ==> r.store[CommonKey] == FieldsOf(common)
    ensures rootStat.None? ==> forall i | 0 <= i < |matches| && LastWithClassifier(matches, i) ::
      r.store[ClassifierOf(matches[i])] == FieldsOf(read(matches[i]))
  {
    if rootStat.Some? then Loaded(map[], rootStat)
    else
      var base := map[CommonKey := FieldsOf(common)];
      InsertFilesFacts(base, matches, read);
      Loaded(InsertFiles(base, matches, read), None)
  }

  /** The entry the last file with a classifier leaves in the loaded store. */
  lemma LoadedLastFile<V>(common: ReadResult<V>, matches: seq<string>, read: string -> ReadResult<V>, i: int)
    requires forall p <- matches :: IsYamlPath(p)
    requires 0 <= i < |matches| && LastWithClassifier(matches, i)
    ensures ClassifierOf(matches[i]) in LoadCustomFields(None, common, matches, read).store
    ensures LoadCustomFields(None, common, matches, read).store[ClassifierOf(matches[i])] == FieldsOf(read(matches[i]))
  {
    assert ClassifierOf(matches[i]) in ClassifiersOf(matches);
  }

  /** Two ".yaml" paths make a sequence of matches. */
  lemma YamlPair(a: string, b: string)
    requires IsYamlPath(a) && IsYamlPath(b)
    ensures forall p <- [a, b] :: IsYamlPath(p)
  {
    forall p | p in [a, b]
      ensures IsYamlPath(p)
    {
      assert p == a || p == b;
    }
  }

  /** In two matches with different classifiers, each is the last with its own. */
  lemma BothLastWithClassifier(a: string, b: string)
    requires IsYamlPath(a) && IsYamlPath(b)
    requires ClassifierOf(a) != ClassifierOf(b)
    ensures forall p <- [a, b] :: IsYamlPath(p)
    ensures LastWithClassifier([a, b], 0) && LastWithClassifier([a, b], 1)
  {
    YamlPair(a, b);
    var ms := [a, b];
    forall j | 0 < j < |ms|
      ensures ClassifierOf(ms[j]) != ClassifierOf(ms[0])
    {
      assert j == 1 && ms[j] == b && ms[0] == a;
    }
  }

  /** Two matched files with different classifiers: the unreadable one
      resolves to an empty field map, the readable one to its own fields. */
  lemma LoadTwoFiles<V>(read: string -> ReadResult<V>, bad: string, good: string, fields: Fields<V>)
    requires IsYamlPath(bad) && IsYamlPath(good)
    requires ClassifierOf(bad) != ClassifierOf(good)
    requires read(bad) == ReadFailed
    requires read(good) == Decoded(fields)
    ensures var r := LoadCustomFields(None, ReadFailed, [bad, good], read);
      r.store[ClassifierOf(bad)] == map[] && r.store[ClassifierOf(good)] == fields
  {
    var ms := [bad, good];
    BothLastWithClassifier(bad, good);
    LoadedLastFile(ReadFailed, ms, read, 0);
    LoadedLastFile(ReadFailed, ms, read, 1);
  }
}
