# walkman in Dafny

walkman walks a directory tree concurrently and fingerprints every regular, non-empty
file. It then groups the files that share a fingerprint, so that duplicates can be found.
This project models the sequential logic of `walkman.go` and proves properties about it.
The concurrency (goroutines, the wait group, the counting semaphore and the channels) is
not modelled.

- `Options` (options.dfy): the built-in skip list `dirs_to_skip`, `slice_contains`, and
  the functional options. An option closure becomes a `WalkOption` value. `NewAsWritten`
  is the constructor as walkman.go writes it. It sizes the semaphore before the options
  run (walkman.go:97), and then runs the options in order over one shared skip list.
  `New` is the corrected constructor. It sizes the semaphore after the options run, from
  the final worker count. It also keeps the caller's SkipDirs names apart from the
  built-in list, so NoDefaultSkip removes only the built-in names. The two Findings below
  explain both corrections. Each Options and Visitor lemma names in its statement the
  constructor it is about: `NewAsWritten`, `New`, or both. The aggregator, the result
  view and the fingerprint do not depend on the configuration.
- `Visitor` (visitor.dfy): the decision `searchTree`'s visitor makes for one entry. The
  entry is pruned, spawns a subtree task, schedules a file task, or is left alone.
- `Fingerprint` (fingerprint.dfy) and `Text` (text.dfy): the `nameHasher` key, made of
  `filepath.Base`, "-" and the size printed with `%d`.
- `Aggregator` (aggregator.dfy): `collectHashes` as a loop over a sequence of pairs. A
  map from path to metadata stands in for `os.Stat`.
- `ResultView` (resultview.dfy): `Filter` and `ToSlice`. Go visits map keys in an
  unspecified order. The methods pick each next key with `:|`, so their contracts hold
  for every visiting order.
- `ResultMap`, `Types`, `Seqs`: the result map and the multiset of all its files,
  the shared records, and the order-preserving selection that every "append if the test
  passes" loop computes.

## Model

| member | source | states |
|---|---|---|
| Options.SliceContains | walkman.go:144-152 | returns true exactly when some element of the list equals the name |
| Options.RemoveDefaults | walkman.go:161-170 | the rebuilt list is the old list with every `dirs_to_skip` name removed, order kept |
| Options.Apply | walkman.go:116-172 | running one option leaves the semaphore capacity unchanged, and only WithWorkers changes the worker count |
| Options.ApplyAll | walkman.go:109-111 | running the options in order leaves the semaphore capacity unchanged |
| Options.NewAsWritten | walkman.go:92-114 | as written, the semaphore capacity is 2 * GOMAXPROCS whatever the options |
| Options.New | walkman.go:92-114 | corrected constructor: the semaphore capacity equals the final worker count |
| Options.NewDefaults | walkman.go:92-107 | without options both constructors give the skip list `dirs_to_skip`, verbose and noDefaultSkip off, and 2 * GOMAXPROCS workers |
| Options.SkipDirsAppends | walkman.go:123-128 | SkipDirs leaves the old list followed by the caller's names; earlier entries are unchanged |
| Options.NoDefaultSkipFilters | walkman.go:157-171 | after NoDefaultSkip the list holds exactly the prior entries not in `dirs_to_skip`, as a subsequence of the prior list, and the flag is set |
| Options.NoDefaultSkipFlag | walkman.go:157-160 | the flag is set exactly when NoDefaultSkip is among the options |
| Options.SkipListSources | walkman.go:102-111 | every skipped name is built-in or was passed to some SkipDirs |
| Options.CallerNameKept | walkman.go:123-171 | as written, a name passed to SkipDirs at position i stays on the skip list when it is not built-in, or when no NoDefaultSkip comes after position i |
| Options.OptionOrderMatters | walkman.go:109-111 | SkipDirs then NoDefaultSkip drops the caller's built-in names; NoDefaultSkip then SkipDirs keeps all of them |
| Options.WithWorkersCounterexample | walkman.go:130-135 | as written, WithWorkers(8) on one processor gives 8 workers but a semaphore of 2 |
| Options.GateFollowsWithWorkers | walkman.go:130-135 | corrected: when WithWorkers(n) is the last option, the semaphore capacity is n |
| Options.GateFollowsLastWorkers | walkman.go:93-135 | for any option sequence, the worker count is n from the last WithWorkers(n), or 2 * GOMAXPROCS when there is none; the corrected semaphore capacity equals it |
| Options.GateCorrectionVisible | walkman.go:93-135 | the two constructors give the same semaphore capacity exactly when the final worker count is the default 2 * GOMAXPROCS |
| Options.CallerNameDroppedCounterexample | walkman.go:154-171 | as written, SkipDirs(["node_modules"]) then NoDefaultSkip leaves "node_modules" off the skip list |
| Options.NewSkipList | walkman.go:154-156 | corrected: a name is skipped exactly when it is built-in and NoDefaultSkip was not given, or it was passed to some SkipDirs, in any option order |
| Options.SkipListsAgree | walkman.go:102-128 | without NoDefaultSkip the as-written skip list is `dirs_to_skip` followed by the SkipDirs names in order, and the corrected list equals it |
| Visitor.Classify | walkman.go:316-347 | a directory is pruned iff its name is hidden or on the skip list; any other directory spawns one subtree task iff its path differs from the root; a file task is scheduled iff the entry is regular with size > 0; a root that is a directory adds no task |
| Visitor.DefaultSkipPrunes | walkman.go:290-323 | with the default configuration a directory named in `dirs_to_skip` is pruned |
| Visitor.NoDefaultSkipDescends | walkman.go:157-171 | with NoDefaultSkip alone a directory named in `dirs_to_skip` spawns a subtree task, with either constructor |
| Visitor.CallerSkipPrunes | walkman.go:123-171 | as written, a directory whose name was passed to SkipDirs at position i is pruned when the name is not built-in, or when no NoDefaultSkip comes after position i |
| Visitor.CallerSkipLostCounterexample | walkman.go:154-171 | as written, with SkipDirs(["node_modules"]) then NoDefaultSkip, a node_modules directory other than the root spawns a subtree task |
| Visitor.CallerSkipAlwaysPrunes | walkman.go:154-156 | corrected: a directory whose name was passed to any SkipDirs is pruned, whatever the options and their order |
| Text.Base | walkman.go:180 | the base name is never empty, and it is either "/" or free of "/" |
| Text.BaseOfFilePath | walkman.go:180 | for a path not ending in "/", the base name is the text after the last "/" |
| Text.ParseDecimalOfDecimal | walkman.go:188 | the `%d` numeral of a size reads back as that size |
| Fingerprint.NameHasher | walkman.go:179-191 | the pair carries the input path unchanged, and its key reads back as the base name and the size |
| Fingerprint.ParseNameKey | walkman.go:188 | splitting a key at its last "-" gives back the base name and the size, even when the name contains "-" |
| Fingerprint.NameKeyIdentity | walkman.go:174-188 | two keys are equal exactly when the base names and the sizes are equal |
| Aggregator.CollectHashes | walkman.go:262-275 | the loop's map equals the fold of the pairs in arrival order |
| Aggregator.CollectedStep | walkman.go:265-272 | when the stat succeeds the File is appended to the end of the list at its hash and no other key changes; when it fails the pair is dropped |
| Aggregator.CollectedGroups | walkman.go:265-272 | each group is, in arrival order, the files of the surviving pairs with that hash; a hash is a key exactly when such a pair exists |
| Aggregator.ArrivalsFrom | walkman.go:265-272 | a File is under hash h exactly when a pair with hash h and that path survived |
| Aggregator.CollectedNoEmptyGroups | walkman.go:263-272 | no key of the result holds an empty list |
| Aggregator.CollectedCount | walkman.go:265-272 | the number of stored files equals the number of pairs whose stat succeeded |
| ResultMap.AllFilesAppend | walkman.go:270 | appending a File to one group adds exactly that File to the multiset of all stored files |
| ResultView.Included | walkman.go:374-384 | the flag is true exactly when every filter accepts the file |
| ResultView.Filter | walkman.go:368-393 | the result is the filtered copy: each hash keeps its accepted files, and hashes with none are absent |
| ResultView.FilteredGroups | walkman.go:368-393 | a file stays exactly when it was in the group and every filter accepts it; each output group is a subsequence of its input group; a hash stays exactly when one of its files is accepted |
| ResultView.FilterNoFiltersCopies | walkman.go:365-393 | with zero filters, a map with no empty group is copied unchanged |
| ResultView.FilterRejectAllEmpties | walkman.go:377-384 | a filter that rejects every file yields an empty map |
| ResultView.FilterTwice | walkman.go:368-393 | filtering by a and then by b equals filtering once by all of a and b |
| ResultView.FlattenAllFiles | walkman.go:396-406 | for any key order, the flattened files form exactly the multiset union of all groups |
| ResultView.ToSlice | walkman.go:395-406 | the result concatenates whole groups, each in its stored order, over an order listing every key once; its multiset is the union of all groups, and its length is the total number of stored files |

## Findings

| source | as written | input that shows it | evidently intended | confidence | as-written member | corrected member |
|---|---|---|---|---|---|---|
| walkman.go:93-135 | the `limits` channel is made with the default worker count before the options run, and WithWorkers only sets the `workers` field | `New(WithWorkers(8))` with GOMAXPROCS 1: 8 workers, a semaphore of capacity 2 | the semaphore bounds concurrency by the configured worker count | high, not executed | Options.WithWorkersCounterexample | Options.GateFollowsLastWorkers |
| walkman.go:154-171 | the comment promises that with NoDefaultSkip every folder is walked except the caller's SkipDirs names, but the closure removes every built-in name from the shared list, including names the caller passed earlier | `New(SkipDirs([]string{"node_modules"}), NoDefaultSkip())`: the skip list is empty and node_modules is walked | NoDefaultSkip drops only the built-in names, and every SkipDirs name is skipped in any option order | medium, not executed | Visitor.CallerSkipLostCounterexample | Visitor.CallerSkipAlwaysPrunes |

## Left out

- Goroutines, the wait group, the `limits` semaphore and the `pairs`/`result` channels (`Walk`, `processFile`, the gate in `searchTree`). These exist for concurrency. The aggregator is a sequential loop over pairs in one given arrival order.
- `filepath.WalkDir` and `d.Info()`. These are filesystem I/O. The visitor is modelled for one entry described by a `FileInfo` record. `Walk` as a whole is not modelled.
- The visitor's error passthrough (walkman.go:305-312) is not modelled. Note that it compares the error with `os.ErrNotExist` by identity, so a wrapped not-found error is returned, not tolerated.
- `os.Stat` in `nameHasher` and its `log.Fatal` path. The size is a parameter of `Fingerprint.NameHasher`.
- Fingerprint.NameHasher: the read-back of the key is stated only for sizes >= 0. A stat never reports a negative size, and a negative size printed with `%d` adds a second "-".
- `md5ContentHasher`, `WithHasher` and the `hashFunc` field: MD5 is a library foreign call, and the configuration does not carry a hash function.
- Verbose printing (`log_skipped`, `fmt.Printf`). `Verbose` only sets a flag, which no decision reads.
- `runtime.GOMAXPROCS(0)` becomes the parameter `procs`. The unused `workers` value is kept so the finding can be stated. A zero or negative worker count is not checked, and `make` would panic on a negative one.
- Filter predicates are total Dafny functions. Go's may do I/O, and the model does not count how often they are called.
- `filepath.Base` is modelled with the Unix separator "/" only. The Windows behaviour is not modelled: removing the volume name and splitting at "\\".
- `File.Stats` keeps only the name, size and kind of an `os.FileInfo`.
- Slice aliasing: the initial skip list shares `dirs_to_skip`'s backing array in Go. Here lists are values, and a map that `Filter` reads is a value that cannot change.
