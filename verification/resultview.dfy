/** Operations on a finished result map: Filter (a filtered copy) and ToSlice (flatten).
    Go visits a map's keys in an unspecified order; the methods below pick the next key
    with `:|`, so every order is allowed and what they promise holds for all of them. */
module ResultView {
  import opened Types
  import opened ResultMap
  import Seqs

  /** PathFilter: a caller's predicate on a stored File. */
  type PathFilter = File -> bool

  /** A file is included when every filter accepts it. */
  predicate Accepts(filters: seq<PathFilter>, f: File) {
    forall i :: 0 <= i < |filters| ==> filters[i](f)
  }

  function AcceptedBy(filters: seq<PathFilter>): File -> bool {
    f => Accepts(filters, f)
  }

  /** The files of one group that survive, in their original order. */
  function Kept(files: seq<File>, filters: seq<PathFilter>): seq<File> {
    Seqs.Select(files, AcceptedBy(filters))
  }

  /** The filtered copy: each hash keeps its surviving files; a hash with none is absent. */
  function Filtered(hashes: Results, filters: seq<PathFilter>): Results {
    map h | h in hashes && Kept(hashes[h], filters) != [] :: Kept(hashes[h], filters)
  }

  /** The innermost loop of Filter: try the filters in turn, stopping at the first that
      rejects the file. */
  method Included(filters: seq<PathFilter>, file: File) returns (included: bool)
    ensures included == Accepts(filters, file)
  {
    included := true;
    var i := 0;
    while i < |filters|
      invariant 0 <= i <= |filters|
      invariant included
      invariant forall q :: 0 <= q < i ==> filters[q](file)
    {
      if !filters[i](file) {
        included := false;
        break;
      }
      i := i + 1;
    }
  }

  /** Filter: a fresh map built with nested loops and an `included` flag; the input map
      is a value and cannot change. */
  method Filter(hashes: Results, filters: seq<PathFilter>) returns (results: Results)
    ensures results == Filtered(hashes, filters)
  {
    results := map[];
    var pending := hashes.Keys;
    while pending != {}
      invariant pending <= hashes.Keys
      invariant forall h :: h in results <==> h in hashes && h !in pending && Kept(hashes[h], filters) != []
      invariant forall h :: h in results ==> results[h] == Kept(hashes[h], filters)
      decreases pending
    {
      var hash :| hash in pending;
      var files := hashes[hash];
      ghost var before := results;
      for j := 0 to |files|
        invariant forall h :: h != hash ==> (h in results <==> h in before)
        invariant forall h :: h != hash && h in results ==> results[h] == before[h]
        invariant Group(results, hash) == Kept(files[..j], filters)
        invariant hash in results <==> Kept(files[..j], filters) != []
      {
        var file := files[j];
        var included := Included(filters, file);
        if included {
          results := results[hash := Group(results, hash) + [file]];
        }
        assert files[..j + 1][..j] == files[..j];
      }
      assert files[..|files|] == files;
      pending := pending - {hash};
    }
  }

  /** A file is in the filtered group exactly when it is in the original group and every
      filter accepts it; the group keeps the original relative order; a hash survives
      exactly when one of its files does. */
  lemma FilteredGroups(hashes: Results, filters: seq<PathFilter>, h: string)
    ensures forall f :: f in Group(Filtered(hashes, filters), h) <==> f in Group(hashes, h) && Accepts(filters, f)
    ensures h in Filtered(hashes, filters) ==> Seqs.IsSubsequence(Filtered(hashes, filters)[h], hashes[h])
    ensures h in Filtered(hashes, filters) <==>
      h in hashes && exists i :: 0 <= i < |hashes[h]| && Accepts(filters, hashes[h][i])
  {
    if h in hashes {
      forall f ensures f in Kept(hashes[h], filters) <==> f in hashes[h] && Accepts(filters, f) {
        Seqs.SelectMembership(hashes[h], AcceptedBy(filters), f);
      }
      Seqs.SelectSubsequence(hashes[h], AcceptedBy(filters));
      Seqs.SelectEmpty(hashes[h], AcceptedBy(filters));
    }
  }

  /** Zero filters copy a map that has no empty group (as collectHashes produces). */
  lemma FilterNoFiltersCopies(hashes: Results)
    requires NoEmptyGroups(hashes)
    ensures Filtered(hashes, []) == hashes
  {
    forall h | h in hashes ensures Kept(hashes[h], []) == hashes[h] {
      Seqs.SelectAll(hashes[h], AcceptedBy([]));
    }
  }

  /** A filter that rejects every file leaves an empty map. */
  lemma FilterRejectAllEmpties(hashes: Results, filters: seq<PathFilter>, k: nat)
    requires k < |filters| && forall f :: !filters[k](f)
    ensures Filtered(hashes, filters) == map[]
  {
    forall h | h in hashes ensures Kept(hashes[h], filters) == [] {
      forall i | 0 <= i < |hashes[h]| ensures !AcceptedBy(filters)(hashes[h][i]) {
        assert !filters[k](hashes[h][i]);
      }
      Seqs.SelectEmpty(hashes[h], AcceptedBy(filters));
    }
  }

  /** Filtering by `a` and then by `b` is filtering once by all of `a + b`. */
  lemma FilterTwice(hashes: Results, a: seq<PathFilter>, b: seq<PathFilter>)
    ensures Filtered(Filtered(hashes, a), b) == Filtered(hashes, a + b)
  {
    forall f ensures AcceptedBy(a + b)(f) == (AcceptedBy(a)(f) && AcceptedBy(b)(f)) {
      if Accepts(a, f) && Accepts(b, f) {
        forall i | 0 <= i < |a + b| ensures (a + b)[i](f) {
          if i < |a| { assert (a + b)[i] == a[i]; } else { assert (a + b)[i] == b[i - |a|]; }
        }
      }
      if Accepts(a + b, f) {
        forall i | 0 <= i < |a| ensures a[i](f) { assert (a + b)[i] == a[i]; }
        forall i | 0 <= i < |b| ensures b[i](f) { assert (a + b)[|a| + i] == b[i]; }
      }
    }
    forall h | h in hashes {
      Seqs.SelectTwice(hashes[h], AcceptedBy(a), AcceptedBy(b), AcceptedBy(a + b));
    }
  }

  /** The groups stored under `order`, concatenated in that order. */
  function Flatten(hashes: Results, order: seq<string>): seq<File>
    requires forall i :: 0 <= i < |order| ==> order[i] in hashes
  {
    if order == [] then []
    else Flatten(hashes, order[..|order| - 1]) + hashes[order[|order| - 1]]
  }

  /** `order` lists every key of `hashes` exactly once. */
  ghost predicate IsKeyOrder(hashes: Results, order: seq<string>) {
    && (forall h :: h in hashes <==> h in order)
    && (forall i, j :: 0 <= i < j < |order| ==> order[i] != order[j])
  }

  /** Whatever the key order, the flattened files are the union of all groups. */
  lemma FlattenAllFiles(hashes: Results, order: seq<string>)
    requires IsKeyOrder(hashes, order)
    ensures multiset(Flatten(hashes, order)) == AllFiles(hashes)
  {
    FlattenFilesOf(hashes, order);
    assert (set h | h in order) == hashes.Keys;
  }

  lemma {:induction false} FlattenFilesOf(hashes: Results, order: seq<string>)
    requires forall i :: 0 <= i < |order| ==> order[i] in hashes
    requires forall i, j :: 0 <= i < j < |order| ==> order[i] != order[j]
    ensures multiset(Flatten(hashes, order)) == FilesOf(hashes, set h | h in order)
  {
    if order != [] {
      var init, k := order[..|order| - 1], order[|order| - 1];
      FlattenFilesOf(hashes, init);
      var keys := set h | h in order;
      assert order == init + [k];
      assert keys - {k} == set h | h in init;
      FilesOfPick(hashes, keys, k);
    }
  }

  /** ToSlice: appends every group's files, group after group, in key-visit order. */
  method ToSlice(hashes: Results) returns (files: seq<File>, ghost order: seq<string>)
    ensures IsKeyOrder(hashes, order)
    ensures files == Flatten(hashes, order)
    ensures multiset(files) == AllFiles(hashes)
    ensures |files| == |AllFiles(hashes)|
  {
    files, order := [], [];
    var pending := hashes.Keys;
    while pending != {}
      invariant pending <= hashes.Keys
      invariant forall i :: 0 <= i < |order| ==> order[i] in hashes && order[i] !in pending
      invariant forall h :: h in hashes ==> (h in order <==> h !in pending)
      invariant forall i, j :: 0 <= i < j < |order| ==> order[i] != order[j]
      invariant files == Flatten(hashes, order)
      decreases pending
    {
      var hash :| hash in pending;
      var group := hashes[hash];
      for j := 0 to |group|
        invariant files == Flatten(hashes, order) + group[..j]
      {
        var f := group[j];
        files := files + [File(f.path, f.stats)];
        assert group[..j + 1] == group[..j] + [f];
      }
      assert group[..|group|] == group;
      assert (order + [hash])[..|order|] == order;
      order := order + [hash];
      pending := pending - {hash};
    }
    FlattenAllFiles(hashes, order);
  }
}
