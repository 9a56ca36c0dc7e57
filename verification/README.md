# nscapi core in Dafny

nscapi receives passive Nagios check results over the NSCA protocol and
keeps the latest result of every (host, service) pair in an in-memory
cache. It serves that cache as a JSON array over HTTP. Each element of the
array carries the custom fields resolved for its host and check, from a
hierarchy of YAML documents.

This project models the sequential core of that system and proves its
properties. The modules follow the Go files:

- `StatusCache` (`cache.dfy`, cache.go) is the two-level cache: host, then
  service, then entry.
  - `InitCache` and `UpdateCacheEntry` model the Go code literally.
  - The `statusFirstSeen` time, which the tests and the report read but
    cache.go does not store, is a separate, clearly marked extension:
    `TrackedEntry` and `UpdateTracked`.
  - `TrackedRefinesLiteral` proves that dropping that time gives back the
    literal cache.
- `CustomFields` (`custom.dfy`, custom.go) covers:
  - the merge of one classifier's fields onto an accumulator;
  - the hostgroup derived from a host name by the regular expression
    `[^A-Za-z0-9]$`;
  - the three-level resolution, checked against a most-specific-first
    reference definition;
  - the store built by `loadCustomFields`. The file system is passed in as
    values: the result of the existence check, the result of reading
    `common.yaml`, the glob matches, and a read function per path.
- `FilePaths` (`paths.dfy`) holds the part of Go's `filepath.Base` and
  `filepath.Dir` that turns a matched path into a classifier.
- `Report` (`report.dfy`, api.go) covers:
  - the status label and the newline sanitiser;
  - the element built for one cache entry;
  - the `[`, element, `,`, `]` layout `reportsHandler` writes while it walks
    the cache. The walk follows one iteration order of the cache, given as
    a sequence.
- `Pipeline` (`pipeline.dfy`, main.go) covers `queueData` and the draining
  `cacheWorker(false)`. The queue is a sequence whose head is dequeued
  first. The drain is stated as a left fold of `updateCacheEntry` over
  that sequence.
- `Env` (`env.dfy`, main.go) covers the environment lookups with
  `strconv.ParseUint`'s acceptance rule, and the defaults of `initConfig`.
  The environment is a map parameter.
- `Wrappers` (`wrappers.dfy`) is the `Option` type.

## Model

| member | source | states |
|---|---|---|
| StatusCache.InitCache | cache.go:17-19 | whatever the cache held before, the new cache has no host and no entry, and no host is without services |
| StatusCache.Put | cache.go:23-32 | the host's inner map is created on first sight; the pair then holds the new entry; every other pair keeps its entry; the host set grows by the host only; the non-empty-host invariant is kept |
| StatusCache.UpdateCacheEntry | cache.go:22-33 | the entry of (host, service) becomes exactly (timestamp, state, output), a replacement and not a merge; an unseen host gets an inner map holding just that service; nothing else changes; no host is left without services |
| StatusCache.LastWriteWins | cache.go:28-32 | two updates of the same pair leave the same cache as the second update alone |
| StatusCache.UpdatesCommute | cache.go:23-32 | updates of two different pairs give the same cache in either order |
| StatusCache.UpdateTracked | cache_test.go:23-60 | extension: the first-seen time is the update's timestamp on creation and on a change of state, and the previous first-seen time when the state repeats; the other fields and all other pairs are as in the literal update |
| StatusCache.TrackedRefinesLiteral | cache.go:10-14 | dropping the first-seen times after a tracked update gives the literal update of the cache without them |
| StatusCache.ApplyObservationsEntry | cache.go:28-32 | a run of updates of one pair leaves that pair with the entry computed from its starting entry alone |
| StatusCache.EntryAfterRunStart | cache_test.go:90-94 | after a run of updates of one pair, the first-seen time is the timestamp at which the final state began, or the earlier first-seen time when the run continues the prior state |
| StatusCache.FirstSeenIsRunStart | cache_test.go:90-94 | the same statement over the cache: the last observation's timestamp, state and output are stored, with the first-seen time of the start of the trailing run of equal states |
| StatusCache.RunStartOf | cache_test.go:90-94 | every non-empty sequence of observations has a trailing run of equal states, and this function returns its start |
| StatusCache.FirstSeenExample | cache_test.go:90 | a constructed run exercising both rules: OK at 100, then failures at 101 and 102; the state change at 101 sets the first-seen time and the repeat at 102 keeps it, giving (102, first seen 101, state 1, "Still bad") |
| StatusCache.FirstSeenOnStateChange | cache_test.go:23-54 | the test's (host01, service foo): created OK at 1484527962, then state 1 at 1484527963; the first-seen time becomes 1484527963 |
| StatusCache.FirstSeenKeptOnRepeat | cache_test.go:90-94 | the test's (host02, service bar): created OK at 1484527966, then OK again at 1488527969; the first-seen time stays 1484527966 |
| FilePaths.LastSeparatorFacts | custom.go:39 | the index returned holds a separator, and no separator comes after it |
| FilePaths.TrimTrailingSeparatorsFacts | custom.go:39 | trimming keeps a prefix that does not end in a separator and drops only separators |
| FilePaths.Base | custom.go:39 | filepath.Base: "." for the empty path; "/" exactly when a non-empty path is separators only; otherwise a non-empty name without separators |
| FilePaths.Dir | custom.go:39 | filepath.Dir: "." when the path has no separator; otherwise "/" or a non-empty prefix of the path, ending before its last separator and not in a separator |
| FilePaths.BaseOfElement | custom.go:39 | Base of a path ending in an element, with any number of trailing separators, is that element |
| CustomFields.MergeFromStore | custom.go:62-68 | an absent classifier leaves the accumulator unchanged; otherwise the result's fields are the accumulator's plus the classifier's, the classifier's values overwrite same-named ones, and the other accumulator values survive |
| CustomFields.Hostgroup | custom.go:72-73 | the hostgroup is a prefix of the host name at most one character shorter; it is shorter exactly when the name is non-empty and its last character is outside [A-Za-z0-9] |
| CustomFields.GetCustomFields | custom.go:71-79 | the resolved fields are exactly those some level defines, and each value comes from the most specific level that defines it: the check's document, then the hostgroup's defaults, then common.yaml |
| CustomFields.EmptyStoreResolvesNothing | custom.go:74-78 | an empty store resolves every (host, check) to no fields |
| CustomFields.ResolvedKeysFromLevels | custom.go:74-78 | every resolved field is defined by one of the three classifiers consulted |
| CustomFields.PrecedenceExample | custom.go:75-77 | with foo set to A globally, B for the hostgroup and C for the check, the result is C; without the check document it is B; with only the global document it is A |
| CustomFields.LowerLevelFieldSurvives | custom.go:75-77 | a field only common.yaml defines is still present, with its global value |
| CustomFields.HostgroupExamples | custom.go:72-73 | "web01" keeps its trailing digit and stays "web01"; "web-" becomes "web"; "" stays "" |
| CustomFields.HostgroupStripsOnlyOne | custom.go:72-73 | only one trailing symbol is removed: "web--" becomes "web-" |
| CustomFields.FieldsOf | custom.go:41-44 | what one file contributes: an empty map when processYamlFile returns nil (read failure), otherwise the decoded map, kept even when the parse stopped part-way; common.yaml gets the same rule at custom.go:32-35 |
| CustomFields.ClassifierOf | custom.go:39 | the key of a matched file: (Base of its directory, Base of the path without ".yaml"); what this gives on glob matches is stated by CustomFields.ClassifierOfGlobMatch |
| CustomFields.DirOfChild | custom.go:39 | Dir of directory + "/" + name is the directory |
| CustomFields.HostgroupOfGlobMatch | custom.go:39 | for a glob match .../hostgroup/file, Base of Dir is the hostgroup |
| CustomFields.CheckOfGlobMatch | custom.go:39 | Base of the match without ".yaml" is the check name, or the hostgroup when the file is named just ".yaml" |
| CustomFields.GlobMatchPieces | custom.go:37-39 | a glob match ends in ".yaml", its stem is the path without that suffix, and the file name holds no separator |
| CustomFields.ClassifierOfGlobMatch | custom.go:37-39 | the file .../service/hostgroup/check.yaml is stored under the classifier (hostgroup, check) |
| CustomFields.InsertAllKeys | custom.go:38-45 | the assignments add exactly the assigned classifiers to the store |
| CustomFields.InsertAllKeeps | custom.go:38-45 | classifiers that are not assigned keep their field maps |
| CustomFields.InsertAllLastWins | custom.go:41-44 | a classifier holds the value of its last assignment |
| CustomFields.FileEntriesFacts | custom.go:38-40 | the classifiers assigned are those of the matched files, and "last file with its classifier" is "last assignment of its key" |
| CustomFields.InsertFiles | custom.go:38-45 | the loop over the matches, one assignment of the file's field map to its classifier per file in glob order; its effect is stated by CustomFields.InsertFilesFacts |
| CustomFields.InsertFilesFacts | custom.go:38-45 | after the file loop, every matched file's classifier is present, entries of other classifiers are unchanged, and a classifier maps to the field map of the last file with that classifier, empty when it could not be read |
| CustomFields.LoadCustomFields | custom.go:25-47 | a failed existence check returns its error with an empty store; otherwise no error, the keys are the common key plus the classifiers of the matches, common.yaml's fields sit under the common key unless a match reuses it, and each classifier holds its last file's fields |
| CustomFields.LoadTwoFiles | custom.go:40-44 | an unreadable file still gets its classifier with an empty field map; a readable one gets its fields |
| Report.StatusString | api.go:20-30 | 0 is "OK", 1 "Warning", 2 "Critical", and exactly every other code is "Unknown" |
| Report.SanitizeJSONString | api.go:43-45 | length is kept; every newline becomes a space, every other character is unchanged, and the result has no newline |
| Report.SanitizeIdempotent | api.go:44 | sanitising twice is sanitising once |
| Report.SanitizeIdentityWithoutNewlines | api.go:44 | a string without newlines is returned unchanged |
| Report.MakeElement | api.go:69-73 | the element's message has no newline and its status is one of the four labels |
| Report.WithCommasShape | api.go:77-79 | every emitted item is followed by a comma, at the positions an array layout requires |
| Report.EmitGroup | api.go:68-81 | the inner loop appends each service's element followed by a comma, except after the last service of the last host |
| Report.EmitElements | api.go:65-83 | the outer loop emits the elements of all hosts in visiting order, leaving the final comma off exactly when the last host has a service |
| Report.Layout | api.go:64-84 | "[" first and "]" last; elements in visiting order, with commas between them. For N ≥ 1 elements: N−1 commas (length 2N+1) when the last host visited has a service, and a trailing comma (N commas, length 2N+2) otherwise. For N = 0 the output is "[" "]" with no comma |
| Report.TrailingCommaExactlyWhenLastGroupEmpty | api.go:77-79 | for any grouping with at least one element, the emitted elements end in a comma exactly when the last host visited has no services; that comma follows the last element, and otherwise the last element ends the output |
| Report.TrailingCommaWhenLastHostEmpty | api.go:77-79 | example: one host with one service followed by a host with none gives the element and then a comma |
| Report.PairsCoverCache | api.go:66-68 | walking an iteration order of the cache visits exactly the cache's (host, service) pairs, each once |
| Report.LastHostHasService | api.go:77 | under the cache invariant, the last host visited has a service |
| Report.ReportsHandler | api.go:58-85 | for a cache with no host lacking services, the output is a well-formed array with N−1 commas; element k is built from the k-th visited pair's cache entry and its resolved custom fields |
| Pipeline.QueueData | main.go:49-52 | the packet is appended at the tail, the queue grows by one and keeps its contents, and no error is returned |
| Pipeline.Apply | main.go:37-41 | one dequeued item: a data packet sets exactly its (host, service) entry to its timestamp, state and output and leaves every other pair alone; any other item leaves the cache unchanged; the non-empty-host invariant is kept |
| Pipeline.ApplyAll | main.go:28-44 | the queue's items applied in dequeue order; no host is lost and the non-empty-host invariant is kept |
| Pipeline.CacheWorker | main.go:27-45 | the worker returns with an empty queue, and the cache is the left fold of the update over the queued packets; the non-empty-host invariant is kept |
| Pipeline.ApplyAllAppend | main.go:37-41 | draining a + b is draining a and then b (FIFO) |
| Pipeline.EnqueueThenDrain | main_test.go:49-69 | a packet queued behind others is applied last, so after the drain its pair holds exactly its timestamp, state and output |
| Pipeline.ForeignItemsIgnored | main.go:39 | items that are not data packets have no effect: draining the queue equals draining its data packets alone |
| Pipeline.DrainLastWriteWins | main.go:37-41 | after draining, each pair holds the entry of its last packet in the queue, or its previous entry if it has none |
| Pipeline.TrackedDrainRefinesLiteral | main.go:40 | the drain into the extended cache projects onto the literal drain |
| Pipeline.WorkerExample | main_test.go:38-46 | the five packets of the test drained into an empty cache: (host01, service foo) holds the second packet's (1484527963, 1, "New output"); (host01, service bar), (host02, service whatever) and (host02, service bar) hold their own packets, so the service name "service bar" has a separate entry on each host |
| Env.GetStringFromEnv | main.go:56-65 | the variable's value when it is set, even to the empty string; the default when it is unset |
| Env.EffectiveBitSize | main.go:76 | bit size 0 means 64, sizes 1..64 are kept, and any other size is refused |
| Env.ParseUintSpec | main.go:76 | a string parses exactly when it is a non-empty run of decimal digits whose value fits the bit size, and the value is that number |
| Env.ParseUint | main.go:76 | the left-to-right scan with its syntax and range errors accepts exactly what ParseUintSpec accepts, with the same value, and agrees with it fully on empty input, bad bit sizes and all-digit input |
| Env.PrefixValueAtMost | main.go:76 | a prefix of a digit string denotes at most the value of the whole, so an overflow part-way means the whole overflows |
| Env.GetUintFromEnv | main.go:69-82 | the result differs from the default only when the variable is set and parses; then it is the parsed value, which fits the bit size |
| Env.DecimalRoundTrip | main.go:76 | a number's decimal form is a non-empty digit string that parses back to the number |
| Env.GetUintFromEnvRoundTrip | main.go:69-82 | a variable set to the decimal form of a value that fits yields that value |
| Env.ConfigReading | main.go:86-94 | the API port is below 2^32, the NSCA port below 65536 and the encryption number below 256 (the widths 32, 16 and 8 passed at main.go:88-92); unset variables give 0.0.0.0, 8080, 5667, the empty password and encryption 0 |
| Env.ConfigFromEnvAsWritten | main.go:92 | the encryption number is 0 unless the misspelt NSCAPI_NSCA_ENCYPTION is set |
| Env.ConfigFromEnv | main.go:92 | the encryption number is 0 unless the documented NSCAPI_NSCA_ENCRYPTION is set |
| Env.DocumentedEncryptionVariableIgnored | main.go:92 | with only NSCAPI_NSCA_ENCRYPTION=1 set, the configuration as written has encryption 0; the corrected one has 1 |
| Env.DocumentedEncryptionVariableHonoured | main.go:92 | with the documented variable holding the decimal form of any n < 256, the corrected configuration has encryption n |

## Left out

- The endless mode of `cacheWorker` is not modelled. That mode sleeps for 100 ms and polls again, and the goroutines of `main` run it. Both are timing and concurrency.
- The go-lfc lock-free queue is a sequence here. A `Dequeue` that fails on a non-empty queue cannot happen sequentially, so it is not modelled. The unsynchronised concurrent access to the cache by the worker and `reportsHandler` is not modelled either.
- The NSCA server and packet decoding (nscatools) are foreign library code. A `DataPacket` holds only the five fields the cache uses. A nil packet pointer is not modelled.
- HTTP is not modelled: `rootHandler`, handler registration, `ListenAndServe`, `setIfPathExists`.
- Template parsing and execution, and `ToJSONString`/`encoding/json`, are not modelled. An element is a value, and a token stands for the text written for it.
- Report.MakeElement: the timestamps stay numbers. Their decimal rendering by `fmt.Sprint` is not modelled.
- `reportsHandler` reads a `statusFirstSeen` field that cache.go does not declare, so the report is built over the extended cache (`TrackedEntry`). The worker drains into the literal cache, as main.go does. `Pipeline.TrackedDrainRefinesLiteral` relates the two.
- `reportsHandler` calls `cFields.get(host, svc)` on a `customFields` type that custom.go does not define. The model uses custom.go's `getCustomFields` on the store.
- main.go and api.go disagree on a function signature and do not compile together. Each file's functions are modelled on their own terms.
- Go's map iteration order is a parameter: any sequence that enumerates the cache (`Report.Enumerates`).
- Report.ReportsHandler: pairs outside the cache get a default entry (`Report.EntryOf`). An enumeration of the cache never visits such a pair.
- YAML decoding, `ioutil.ReadFile`, `os.Stat` and `filepath.Glob` are inputs (`CustomFields.ReadResult`, `rootStat`, `matches`, `read`). Field values are an opaque type parameter. `filepath.Join` is not modelled, because only its results, the glob matches, matter.
- FilePaths.Base and FilePaths.Dir handle only the clean, '/'-separated paths that `filepath.Glob` returns. The "." and ".." handling of `filepath.Clean` and Windows volume names are not modelled.
- The `lookup`/`get` API and lowercase `fieldClassifier` of custom_test.go do not exist in custom.go. The behaviour of custom.go is modelled. Test cases there that expect the host name "web01" to give the hostgroup "web" contradict the regular expression of custom.go:72-73, which leaves "web01" unchanged (`CustomFields.HostgroupExamples`).
- cache_test.go:91-94 reads a pointer taken before the update, so it does not observe the "kept when the state repeats" rule. That rule is modelled as the test's comment at cache_test.go:90 states it.
- Env.EffectiveBitSize: a 64-bit platform is assumed, so bit size 0 stands for 64 (strconv's `IntSize`). initConfig never passes 0.
- Strings are sequences of Unicode characters, while Go strings are byte sequences. Host names, service names and plugin outputs that are not valid UTF-8 cannot be represented. On such a host name, the regular expression of custom.go:72-73 strips a single byte (one invalid byte decodes as U+FFFD of width 1), which the model does not express.
- There is no nil cache. Before `initCache` runs, the cache map is nil and `updateCacheEntry` panics at cache.go:26 when it assigns to it. `StatusCache.InitCache` takes any non-nil map. main.go:98 calls `initCache` before the worker starts, so the program never reaches that panic.
- `flag` parsing in `initConfig` is not modelled. Command-line flags override the environment values.
- Env.ParseUint: for a string in which a non-digit follows digits that already overflow, Go reports a range error rather than a syntax error. The contract only says that the parse fails, not which error it reports.
- `os.Stat` of the template directory and the `main` wiring are not modelled.

## Findings

| source | as written | input that shows it | evidently intended | confidence | as-written member | corrected member |
|---|---|---|---|---|---|---|
| main.go:92 | the encryption setting is read from the variable NSCAPI_NSCA_ENCYPTION (letter R missing) | the environment {NSCAPI_NSCA_ENCRYPTION: "1"} leaves the encryption number at 0 (`Env.DocumentedEncryptionVariableIgnored`) | read NSCAPI_NSCA_ENCRYPTION, the name the help text on the same line documents | high; not executed | Env.ConfigFromEnvAsWritten | Env.ConfigFromEnv |
