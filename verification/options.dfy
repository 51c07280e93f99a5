/** Construction of a walker: the built-in skip list, membership in a name list, and the
    functional options that adjust the configuration before a walk. */
module Options {
  import Seqs

  /** dirs_to_skip: large directories a user may not control, pruned unless asked otherwise. */
  const DirsToSkip: seq<string> := [
    "AndroidStudioProjects", "Android", "NetBeansProjects", "node_modules", "Qt",
    "VirtualBoxVMs", "vmime", "venv", "env", "RUST", "nltk_data", "qt5", "qt6",
    "wasm32-unknown-unknown"
  ]

  /** slice_contains: scans `s` and stops at the first element equal to `v`. */
  method SliceContains(s: seq<string>, v: string) returns (found: bool)
    ensures found <==> v in s
  {
    for i := 0 to |s|
      invariant v !in s[..i]
    {
      if s[i] == v {
        return true;
      }
    }
    return false;
  }

  predicate NotDefault(name: string) {
    name !in DirsToSkip
  }

  /** The skip list NoDefaultSkip leaves: the entries that are not built-in, in order. */
  function WithoutDefaults(skip: seq<string>): seq<string> {
    Seqs.Select(skip, NotDefault)
  }

  /** The loop inside NoDefaultSkip: rebuild the list, keeping entries not in dirs_to_skip. */
  method RemoveDefaults(skip: seq<string>) returns (skipList: seq<string>)
    ensures skipList == WithoutDefaults(skip)
  {
    skipList := [];
    for i := 0 to |skip|
      invariant skipList == WithoutDefaults(skip[..i])
    {
      var isDefault := SliceContains(DirsToSkip, skip[i]);
      if !isDefault {
        skipList := skipList + [skip[i]];
      }
      assert skip[..i + 1][..i] == skip[..i];
    }
    assert skip[..|skip|] == skip;
  }

  /** What a walker is configured with. `gateCapacity` is the size of the counting
      semaphore (the `limits` channel) that bounds concurrent tasks. */
  datatype Config = Config(
    workers: int,
    gateCapacity: int,
    verbose: bool,
    skip: seq<string>,
    noDefaultSkip: bool)

  /** The options a caller may pass to New. */
  datatype WalkOption =
    | Verbose
    | SkipDirs(dirs: seq<string>)
    | WithWorkers(n: int)
    | NoDefaultSkip

  /** Running one option closure on a configuration. No option touches the semaphore. */
  function Apply(c: Config, op: WalkOption): (r: Config)
    ensures r.gateCapacity == c.gateCapacity
    ensures !op.WithWorkers? ==> r.workers == c.workers
  {
    match op
    case Verbose => c.(verbose := true)
    case SkipDirs(dirs) => c.(skip := c.skip + dirs)
    case WithWorkers(n) => c.(workers := n)
    case NoDefaultSkip => c.(skip := WithoutDefaults(c.skip), noDefaultSkip := true)
  }

  /** Running the option closures in the order they were passed; the semaphore made
      before them keeps its capacity. */
  function ApplyAll(c: Config, ops: seq<WalkOption>): (r: Config)
    ensures r.gateCapacity == c.gateCapacity
  {
    if ops == [] then c else Apply(ApplyAll(c, ops[..|ops| - 1]), ops[|ops| - 1])
  }

  /** The configuration before any option runs; `procs` is runtime.GOMAXPROCS(0). */
  function Initial(procs: nat): Config {
    Config(2 * procs, 2 * procs, false, DirsToSkip, false)
  }

  /** New as written: the semaphore is sized from the default worker count before the
      options run, and the options edit one shared skip list in order. */
  function NewAsWritten(procs: nat, options: seq<WalkOption>): (c: Config)
    ensures c.gateCapacity == 2 * procs
  {
    ApplyAll(Initial(procs), options)
  }

  /** The names passed through SkipDirs, in the order they were passed. */
  function CallerSkips(options: seq<WalkOption>): seq<string> {
    if options == [] then []
    else
      var op := options[|options| - 1];
      CallerSkips(options[..|options| - 1]) + (if op.SkipDirs? then op.dirs else [])
  }

  /** New corrected in two ways: the semaphore is sized after the options, from the final
      worker count; and the caller's SkipDirs names are kept apart from the built-in list,
      so NoDefaultSkip drops only the built-in names. */
  function New(procs: nat, options: seq<WalkOption>): (c: Config)
    ensures c.gateCapacity == c.workers
  {
    var w := ApplyAll(Initial(procs), options);
    w.(gateCapacity := w.workers,
       skip := (if w.noDefaultSkip then [] else DirsToSkip) + CallerSkips(options))
  }

  lemma ApplyAllSnoc(c: Config, ops: seq<WalkOption>, op: WalkOption)
    ensures ApplyAll(c, ops + [op]) == Apply(ApplyAll(c, ops), op)
  {
    assert (ops + [op])[..|ops|] == ops;
  }

  /** Without options a walker skips exactly the built-in list, is quiet, and runs
      2 * GOMAXPROCS workers; the two constructors agree. */
  lemma NewDefaults(procs: nat)
    ensures New(procs, []) == NewAsWritten(procs, []) == Config(2 * procs, 2 * procs, false, DirsToSkip, false)
  {
    assert DirsToSkip + [] == DirsToSkip;
  }

  /** SkipDirs appends the caller's names after the current list; earlier entries stay. */
  lemma SkipDirsAppends(procs: nat, options: seq<WalkOption>, dirs: seq<string>)
    ensures var before, after := NewAsWritten(procs, options), NewAsWritten(procs, options + [SkipDirs(dirs)]);
      && after.skip == before.skip + dirs
      && after.skip[..|before.skip|] == before.skip
  {
    ApplyAllSnoc(Initial(procs), options, SkipDirs(dirs));
  }

  /** NoDefaultSkip keeps exactly the prior entries that are not built-in, in their
      relative order, and sets the flag. */
  lemma NoDefaultSkipFilters(procs: nat, options: seq<WalkOption>)
    ensures var before, after := NewAsWritten(procs, options), NewAsWritten(procs, options + [NoDefaultSkip]);
      && after.noDefaultSkip
      && (forall x :: x in after.skip <==> x in before.skip && x !in DirsToSkip)
      && Seqs.IsSubsequence(after.skip, before.skip)
  {
    var before := NewAsWritten(procs, options);
    ApplyAllSnoc(Initial(procs), options, NoDefaultSkip);
    forall x ensures x in WithoutDefaults(before.skip) <==> x in before.skip && x !in DirsToSkip {
      Seqs.SelectMembership(before.skip, NotDefault, x);
    }
    Seqs.SelectSubsequence(before.skip, NotDefault);
  }

  /** The flag is set exactly when NoDefaultSkip was among the options. */
  lemma {:induction false} NoDefaultSkipFlag(procs: nat, options: seq<WalkOption>)
    ensures NewAsWritten(procs, options).noDefaultSkip <==> NoDefaultSkip in options
  {
    if options != [] {
      var init := options[..|options| - 1];
      NoDefaultSkipFlag(procs, init);
      assert options == init + [options[|options| - 1]];
    }
  }

  /** Every skipped name is built-in or was passed through some SkipDirs option. */
  lemma {:induction false} SkipListSources(procs: nat, options: seq<WalkOption>, x: string)
    requires x in NewAsWritten(procs, options).skip
    ensures x in DirsToSkip || exists i :: 0 <= i < |options| && options[i].SkipDirs? && x in options[i].dirs
  {
    if options != [] {
      var init, op := options[..|options| - 1], options[|options| - 1];
      var before := ApplyAll(Initial(procs), init);
      match op
      case SkipDirs(dirs) =>
        if x in before.skip {
          SkipListSources(procs, init, x);
        } else {
          assert options[|options| - 1].SkipDirs?;
        }
      case NoDefaultSkip =>
        Seqs.SelectMembership(before.skip, NotDefault, x);
        SkipListSources(procs, init, x);
      case _ =>
        SkipListSources(procs, init, x);
    }
  }

  /** A name passed through SkipDirs stays on the skip list unless it is also built-in
      and a NoDefaultSkip runs after it. */
  lemma {:induction false} CallerNameKept(procs: nat, options: seq<WalkOption>, i: nat, name: string)
    requires i < |options| && options[i].SkipDirs? && name in options[i].dirs
    requires name !in DirsToSkip || forall j :: i < j < |options| ==> !options[j].NoDefaultSkip?
    ensures name in NewAsWritten(procs, options).skip
  {
    var init, op := options[..|options| - 1], options[|options| - 1];
    var before := ApplyAll(Initial(procs), init);
    if i < |options| - 1 {
      CallerNameKept(procs, init, i, name);
      if op.NoDefaultSkip? {
        Seqs.SelectMembership(before.skip, NotDefault, name);
      }
    }
  }

  /** Options run in order: names passed before NoDefaultSkip that are also built-in are
      removed with the defaults, while names passed after it are all kept. */
  lemma OptionOrderMatters(procs: nat, dirs: seq<string>)
    ensures NewAsWritten(procs, [SkipDirs(dirs), NoDefaultSkip]).skip == WithoutDefaults(dirs)
    ensures NewAsWritten(procs, [NoDefaultSkip, SkipDirs(dirs)]).skip == dirs
  {
    assert WithoutDefaults(DirsToSkip) == [] by {
      Seqs.SelectEmpty(DirsToSkip, NotDefault);
    }
    ApplyAllSnoc(Initial(procs), [SkipDirs(dirs)], NoDefaultSkip);
    ApplyAllSnoc(Initial(procs), [NoDefaultSkip], SkipDirs(dirs));
    assert [SkipDirs(dirs)] + [NoDefaultSkip] == [SkipDirs(dirs), NoDefaultSkip];
    assert [NoDefaultSkip] + [SkipDirs(dirs)] == [NoDefaultSkip, SkipDirs(dirs)];
    Seqs.SelectConcat(DirsToSkip, dirs, NotDefault);
  }

  /** As written, a built-in name the caller passes before NoDefaultSkip is not skipped. */
  lemma CallerNameDroppedCounterexample(procs: nat)
    ensures "node_modules" !in NewAsWritten(procs, [SkipDirs(["node_modules"]), NoDefaultSkip]).skip
  {
    OptionOrderMatters(procs, ["node_modules"]);
    Seqs.SelectEmpty(["node_modules"], NotDefault);
  }

  lemma {:induction false} CallerSkipsMembership(options: seq<WalkOption>, x: string)
    ensures x in CallerSkips(options) <==>
      exists i :: 0 <= i < |options| && options[i].SkipDirs? && x in options[i].dirs
  {
    if options != [] {
      var init := options[..|options| - 1];
      CallerSkipsMembership(init, x);
      assert forall i :: 0 <= i < |init| ==> init[i] == options[i];
    }
  }

  /** Corrected: a name is skipped exactly when it is built-in and NoDefaultSkip was not
      given, or the caller passed it through some SkipDirs, whatever the option order. */
  lemma NewSkipList(procs: nat, options: seq<WalkOption>, x: string)
    ensures x in New(procs, options).skip <==>
      (x in DirsToSkip && NoDefaultSkip !in options)
      || exists i :: 0 <= i < |options| && options[i].SkipDirs? && x in options[i].dirs
  {
    NoDefaultSkipFlag(procs, options);
    CallerSkipsMembership(options, x);
  }

  /** Without NoDefaultSkip the correction leaves the skip list as the source builds it. */
  lemma {:induction false} SkipListsAgree(procs: nat, options: seq<WalkOption>)
    requires NoDefaultSkip !in options
    ensures New(procs, options).skip == NewAsWritten(procs, options).skip
    ensures NewAsWritten(procs, options).skip == DirsToSkip + CallerSkips(options)
  {
    NoDefaultSkipFlag(procs, options);
    if options == [] {
      assert DirsToSkip + [] == DirsToSkip;
    } else {
      var init := options[..|options| - 1];
      assert options == init + [options[|options| - 1]];
      SkipListsAgree(procs, init);
    }
  }

  /** The worker count the options ask for: that of the last WithWorkers option, or the
      default 2 * GOMAXPROCS when there is none. */
  function LastWorkers(procs: nat, options: seq<WalkOption>): int {
    if options == [] then 2 * procs
    else
      var op := options[|options| - 1];
      if op.WithWorkers? then op.n else LastWorkers(procs, options[..|options| - 1])
  }

  /** The last WithWorkers option decides the worker count, wherever it stands among the
      other options; the corrected gate follows it. */
  lemma {:induction false} GateFollowsLastWorkers(procs: nat, options: seq<WalkOption>)
    ensures NewAsWritten(procs, options).workers == LastWorkers(procs, options)
    ensures New(procs, options).gateCapacity == LastWorkers(procs, options)
  {
    if options != [] {
      GateFollowsLastWorkers(procs, options[..|options| - 1]);
    }
  }

  /** The concrete case: asking for 8 workers on one processor leaves a gate of 2. */
  lemma WithWorkersCounterexample()
    ensures NewAsWritten(1, [WithWorkers(8)]).workers == 8
    ensures NewAsWritten(1, [WithWorkers(8)]).gateCapacity == 2
  {
  }

  /** Corrected: the gate bounds concurrency by the last worker count requested. */
  lemma GateFollowsWithWorkers(procs: nat, options: seq<WalkOption>, n: int)
    ensures New(procs, options + [WithWorkers(n)]).gateCapacity == n
  {
    ApplyAllSnoc(Initial(procs), options, WithWorkers(n));
  }

  /** The gate correction is visible exactly when the options end with a worker count
      other than the default. */
  lemma GateCorrectionVisible(procs: nat, options: seq<WalkOption>)
    ensures New(procs, options).gateCapacity == NewAsWritten(procs, options).gateCapacity
      <==> NewAsWritten(procs, options).workers == 2 * procs
  {
  }
}
