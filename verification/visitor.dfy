/** The decision searchTree's visitor takes for each entry filepath.WalkDir shows it. */
module Visitor {
  import opened Types
  import Options
  import Seqs

  /** What the visitor does with one entry.
      Prune: return filepath.SkipDir, register no task.
      SpawnSubtree: register one task that walks `path`, and return filepath.SkipDir.
      ScheduleFile: register one task that fingerprints `path`, and return nil.
      Continue: register nothing and return nil (for the walk's own root this is
      what lets WalkDir read its children). */
  datatype Action =
    | Prune
    | SpawnSubtree(path: string)
    | ScheduleFile(path: string)
    | Continue

  /** strings.HasPrefix(name, "."). */
  predicate Hidden(name: string) {
    |name| > 0 && name[0] == '.'
  }

  /** The entry's verdict for WalkDir: does it stop WalkDir from entering the entry? */
  predicate ReturnsSkipDir(a: Action) {
    a.Prune? || a.SpawnSubtree?
  }

  /** How many tasks the entry adds to the wait group. */
  function TasksAdded(a: Action): nat {
    if a.SpawnSubtree? || a.ScheduleFile? then 1 else 0
  }

  /** Classify the entry at `path`, whose stat is `info`, met while walking `root`
      with skip list `skip`. */
  function Classify(path: string, info: FileInfo, root: string, skip: seq<string>): (a: Action)
    ensures a.Prune? <==> info.kind == Directory && (Hidden(info.name) || info.name in skip)
    ensures a.SpawnSubtree? <==>
      info.kind == Directory && !Hidden(info.name) && info.name !in skip && path != root
    ensures a.ScheduleFile? <==> info.kind == RegularFile && info.size > 0
    ensures a.SpawnSubtree? || a.ScheduleFile? ==> a.path == path
    ensures path == root ==> TasksAdded(a) == 0 || info.kind == RegularFile
    ensures ReturnsSkipDir(a) ==> info.kind == Directory
  {
    if info.kind == Directory && (Hidden(info.name) || info.name in skip) then Prune
    else if info.kind == Directory && path != root then SpawnSubtree(path)
    else if info.kind == RegularFile && info.size > 0 then ScheduleFile(path)
    else Continue
  }

  /** Under the default configuration a directory named in dirs_to_skip is pruned. */
  lemma DefaultSkipPrunes(procs: nat, path: string, root: string, name: string, size: int)
    requires name in Options.DirsToSkip
    ensures Classify(path, FileInfo(name, size, Directory), root, Options.New(procs, []).skip) == Prune
  {
    Options.NewDefaults(procs);
  }

  /** With NoDefaultSkip and no other skip names, a directory named in dirs_to_skip is
      walked like any other (none of the built-in names is hidden), both as written and
      corrected. */
  lemma NoDefaultSkipDescends(procs: nat, path: string, root: string, name: string, size: int)
    requires name in Options.DirsToSkip && path != root
    ensures Classify(path, FileInfo(name, size, Directory), root,
                     Options.NewAsWritten(procs, [Options.NoDefaultSkip]).skip) == SpawnSubtree(path)
    ensures Classify(path, FileInfo(name, size, Directory), root,
                     Options.New(procs, [Options.NoDefaultSkip]).skip) == SpawnSubtree(path)
  {
    var skip := Options.NewAsWritten(procs, [Options.NoDefaultSkip]).skip;
    assert skip == Options.WithoutDefaults(Options.DirsToSkip) by {
      Options.ApplyAllSnoc(Options.Initial(procs), [], Options.NoDefaultSkip);
    }
    assert skip == [] by {
      Seqs.SelectEmpty(Options.DirsToSkip, Options.NotDefault);
    }
    assert Options.New(procs, [Options.NoDefaultSkip]).skip == [] by {
      Options.NewSkipList(procs, [Options.NoDefaultSkip], name);
      Options.ApplyAllSnoc(Options.Initial(procs), [], Options.NoDefaultSkip);
    }
    DefaultsNotHidden(name);
  }

  lemma DefaultsNotHidden(name: string)
    requires name in Options.DirsToSkip
    ensures !Hidden(name)
  {
  }

  /** As written, a directory whose name the caller passed with SkipDirs is pruned unless
      that name is also built-in and a NoDefaultSkip option comes after the SkipDirs. */
  lemma CallerSkipPrunes(procs: nat, options: seq<Options.WalkOption>, i: nat,
                         path: string, root: string, name: string, size: int)
    requires i < |options| && options[i].SkipDirs? && name in options[i].dirs
    requires name !in Options.DirsToSkip || forall j :: i < j < |options| ==> !options[j].NoDefaultSkip?
    ensures Classify(path, FileInfo(name, size, Directory), root,
                     Options.NewAsWritten(procs, options).skip) == Prune
  {
    Options.CallerNameKept(procs, options, i, name);
  }

  /** As written, SkipDirs(["node_modules"]) followed by NoDefaultSkip walks into a
      node_modules directory although the caller asked to skip it. */
  lemma CallerSkipLostCounterexample(procs: nat, path: string, root: string, size: int)
    requires path != root
    ensures var options := [Options.SkipDirs(["node_modules"]), Options.NoDefaultSkip];
      Classify(path, FileInfo("node_modules", size, Directory), root,
               Options.NewAsWritten(procs, options).skip) == SpawnSubtree(path)
  {
    Options.CallerNameDroppedCounterexample(procs);
  }

  /** Corrected: a directory whose name the caller passed with any SkipDirs option is
      pruned, whatever the other options and their order. */
  lemma CallerSkipAlwaysPrunes(procs: nat, options: seq<Options.WalkOption>, i: nat,
                               path: string, root: string, name: string, size: int)
    requires i < |options| && options[i].SkipDirs? && name in options[i].dirs
    ensures Classify(path, FileInfo(name, size, Directory), root,
                     Options.New(procs, options).skip) == Prune
  {
    Options.NewSkipList(procs, options, name);
  }
}
