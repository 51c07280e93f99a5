/** collectHashes: the single consumer that folds the stream of (hash, path) pairs into
    the result map, re-stating each path as it arrives. */
module Aggregator {
  import opened Types
  import opened ResultMap
  import Seqs

  /** Stands in for os.Stat at consumption time: a path stats successfully exactly when
      it is a key, and the stat returns the value stored under it. */
  type FileSystem = map<string, FileInfo>

  /** The map after consuming `pairs` in arrival order. */
  function Collected(pairs: seq<Pair>, fs: FileSystem): Results {
    if pairs == [] then map[]
    else
      var hashes, p := Collected(pairs[..|pairs| - 1], fs), pairs[|pairs| - 1];
      if p.path in fs then hashes[p.hash := Group(hashes, p.hash) + [File(p.path, fs[p.path])]]
      else hashes
  }

  /** Reference definition: the files, in arrival order, of the pairs that carry hash `h`
      and whose path still stats. */
  function Arrivals(pairs: seq<Pair>, fs: FileSystem, h: string): seq<File> {
    if pairs == [] then []
    else
      var p := pairs[|pairs| - 1];
      Arrivals(pairs[..|pairs| - 1], fs, h)
        + (if p.hash == h && p.path in fs then [File(p.path, fs[p.path])] else [])
  }

  /** Does the pair's path still stat? */
  function StatSucceeds(fs: FileSystem): Pair -> bool {
    (p: Pair) => p.path in fs
  }

  /** The loop of collectHashes, over the pairs in the order the channel delivers them. */
  method CollectHashes(pairs: seq<Pair>, fs: FileSystem) returns (hashes: Results)
    ensures hashes == Collected(pairs, fs)
  {
    hashes := map[];
    for i := 0 to |pairs|
      invariant hashes == Collected(pairs[..i], fs)
    {
      var p := pairs[i];
      if p.path in fs {
        hashes := hashes[p.hash := Group(hashes, p.hash) + [File(p.path, fs[p.path])]];
      }
      assert pairs[..i + 1][..i] == pairs[..i];
    }
    assert pairs[..|pairs|] == pairs;
  }

  /** One more pair: if its stat succeeds its File goes to the end of the list under its
      hash and no other key changes; if the stat fails the pair is dropped. */
  lemma CollectedStep(pairs: seq<Pair>, p: Pair, fs: FileSystem)
    ensures var before, after := Collected(pairs, fs), Collected(pairs + [p], fs);
      if p.path in fs then
        && after.Keys == before.Keys + {p.hash}
        && after[p.hash] == Group(before, p.hash) + [File(p.path, fs[p.path])]
        && forall h :: h in before && h != p.hash ==> after[h] == before[h]
      else after == before
  {
    assert (pairs + [p])[..|pairs|] == pairs;
  }

  /** Each group is exactly the arrivals for its hash, and a hash is a key exactly when
      some pair carrying it survived. */
  lemma {:induction false} CollectedGroups(pairs: seq<Pair>, fs: FileSystem, h: string)
    ensures Group(Collected(pairs, fs), h) == Arrivals(pairs, fs, h)
    ensures h in Collected(pairs, fs) <==> Arrivals(pairs, fs, h) != []
  {
    if pairs != [] {
      CollectedGroups(pairs[..|pairs| - 1], fs, h);
    }
  }

  /** A file is under hash `h` exactly when some surviving pair brought it with hash `h`. */
  lemma {:induction false} ArrivalsFrom(pairs: seq<Pair>, fs: FileSystem, h: string, f: File)
    ensures f in Arrivals(pairs, fs, h) <==>
      exists i :: 0 <= i < |pairs| && pairs[i].hash == h && pairs[i].path in fs
                  && f == File(pairs[i].path, fs[pairs[i].path])
  {
    if pairs != [] {
      var init := pairs[..|pairs| - 1];
      ArrivalsFrom(init, fs, h, f);
      assert forall i :: 0 <= i < |init| ==> init[i] == pairs[i];
    }
  }

  /** The result never holds an empty list. */
  lemma CollectedNoEmptyGroups(pairs: seq<Pair>, fs: FileSystem)
    ensures NoEmptyGroups(Collected(pairs, fs))
  {
    forall h | h in Collected(pairs, fs) ensures Collected(pairs, fs)[h] != [] {
      CollectedGroups(pairs, fs, h);
    }
  }

  /** The number of stored files equals the number of pairs whose stat succeeded. */
  lemma {:induction false} CollectedCount(pairs: seq<Pair>, fs: FileSystem)
    ensures |AllFiles(Collected(pairs, fs))| == |Seqs.Select(pairs, StatSucceeds(fs))|
  {
    if pairs != [] {
      var init, p := pairs[..|pairs| - 1], pairs[|pairs| - 1];
      CollectedCount(init, fs);
      if p.path in fs {
        AllFilesAppend(Collected(init, fs), p.hash, File(p.path, fs[p.path]));
      }
    }
  }
}
