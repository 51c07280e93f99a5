/** The result map (fingerprint to the files that share it) and the multiset of every file it holds. */
module ResultMap {
  import opened Types

  type Results = map<string, seq<File>>

  /** Reading a Go map: the list stored under `h`, or the empty (nil) list when `h` is absent. */
  function Group(m: Results, h: string): seq<File> {
    if h in m then m[h] else []
  }

  /** Every key present holds at least one file. */
  ghost predicate NoEmptyGroups(m: Results) {
    forall h :: h in m ==> m[h] != []
  }

  /** The union of the groups stored under `keys`. */
  ghost function FilesOf(m: Results, keys: set<string>): multiset<File>
    requires keys <= m.Keys
    decreases keys
  {
    if keys == {} then multiset{}
    else var k :| k in keys; multiset(m[k]) + FilesOf(m, keys - {k})
  }

  /** The union of all groups, independent of any key order. */
  ghost function AllFiles(m: Results): multiset<File> {
    FilesOf(m, m.Keys)
  }

  /** FilesOf does not depend on which key it takes first. */
  lemma {:induction false} FilesOfPick(m: Results, keys: set<string>, k: string)
    requires keys <= m.Keys && k in keys
    ensures FilesOf(m, keys) == multiset(m[k]) + FilesOf(m, keys - {k})
    decreases keys
  {
    var j :| j in keys && FilesOf(m, keys) == multiset(m[j]) + FilesOf(m, keys - {j});
    if j != k {
      FilesOfPick(m, keys - {j}, k);
      FilesOfPick(m, keys - {k}, j);
      assert keys - {j} - {k} == keys - {k} - {j};
    }
  }

  lemma {:induction false} FilesOfAgree(m1: Results, m2: Results, keys: set<string>)
    requires keys <= m1.Keys && keys <= m2.Keys
    requires forall k :: k in keys ==> m1[k] == m2[k]
    ensures FilesOf(m1, keys) == FilesOf(m2, keys)
    decreases keys
  {
    if keys != {} {
      var k :| k in keys;
      FilesOfPick(m1, keys, k);
      FilesOfPick(m2, keys, k);
      FilesOfAgree(m1, m2, keys - {k});
    }
  }

  /** Appending one file to one group adds exactly that file to the union. */
  lemma AllFilesAppend(m: Results, h: string, f: File)
    ensures AllFiles(m[h := Group(m, h) + [f]]) == AllFiles(m) + multiset{f}
  {
    var m' := m[h := Group(m, h) + [f]];
    FilesOfPick(m', m'.Keys, h);
    FilesOfAgree(m, m', m.Keys - {h});
    if h in m {
      FilesOfPick(m, m.Keys, h);
      assert m'.Keys - {h} == m.Keys - {h};
    } else {
      assert m'.Keys - {h} == m.Keys - {h} == m.Keys;
    }
  }
}
