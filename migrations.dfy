/**
 * `RunMigrations`: the `.sql` files of the migrations directory, in name
 * order, each run once and then recorded in `schema_migrations`. The
 * directory listing is an input, and so is how each file's steps turn out
 * (the status query, reading the file, executing it, recording it). Names
 * are compared character by character, which for UTF-8 text is the byte
 * order `sort.Strings` uses.
 */
module Migrations {

  import opened Wrappers
  import opened Strings

  datatype DirEntry = DirEntry(name: string, isDir: bool)

  /** How the steps for one migration file turn out; each failure stops the run. */
  datatype Outcome = Succeeds | CheckFails | ReadFails | ExecFails | RecordFails

  datatype MigrationError =
    | CreateTableFailed
    | ReadDirFailed
    | CheckFailed(name: string)
    | ReadFailed(name: string)
    | ExecFailed(name: string)
    | RecordFailed(name: string)

  /** The run so far: its error, if any, the recorded versions, and the files whose SQL ran, in order. */
  datatype RunState = RunState(error: Option<MigrationError>, recorded: seq<string>, executed: seq<string>)

  // ---------------------------------------------------------------------------
  // The file list
  // ---------------------------------------------------------------------------

  predicate IsMigration(e: DirEntry) {
    !e.isDir && HasSuffix(e.name, ".sql")
  }

  /** The names of the migration files, in listing order. */
  function MigrationNames(entries: seq<DirEntry>): (names: seq<string>)
    ensures |names| <= |entries|
    ensures forall n :: n in names <==> exists e :: e in entries && IsMigration(e) && e.name == n
  {
    if entries == [] then []
    else
      var rest := MigrationNames(entries[1..]);
      assert forall e :: e in entries <==> e == entries[0] || e in entries[1..];
      if IsMigration(entries[0]) then [entries[0].name] + rest else rest
  }

  /** Listing one more entry adds its name at the end when it is a migration. */
  lemma {:induction false} MigrationNamesSnoc(entries: seq<DirEntry>, e: DirEntry)
    ensures MigrationNames(entries + [e]) == MigrationNames(entries) + (if IsMigration(e) then [e.name] else [])
    decreases |entries|
  {
    if entries != [] {
      assert (entries + [e])[1..] == entries[1..] + [e];
      MigrationNamesSnoc(entries[1..], e);
    }
  }

  /** The filter loop that builds the file list. */
  method CollectMigrations(entries: seq<DirEntry>) returns (names: seq<string>)
    ensures names == MigrationNames(entries)
  {
    names := [];
    var i := 0;
    while i < |entries|
      invariant 0 <= i <= |entries|
      invariant names == MigrationNames(entries[..i])
    {
      assert entries[..i + 1] == entries[..i] + [entries[i]];
      MigrationNamesSnoc(entries[..i], entries[i]);
      if IsMigration(entries[i]) {
        names := names + [entries[i].name];
      }
      i := i + 1;
    }
    assert entries[..i] == entries;
  }

  // ---------------------------------------------------------------------------
  // Name order
  // ---------------------------------------------------------------------------

  /** Lexicographic order on names. */
  predicate NameLe(a: string, b: string)
    decreases |a|
  {
    a == [] || (b != [] && (a[0] < b[0] || (a[0] == b[0] && NameLe(a[1..], b[1..]))))
  }

  lemma {:induction false} NameLeTotal(a: string, b: string)
    ensures NameLe(a, b) || NameLe(b, a)
    decreases |a|
  {
    if a != [] && b != [] && a[0] == b[0] {
      NameLeTotal(a[1..], b[1..]);
    }
  }

  lemma {:induction false} NameLeTrans(a: string, b: string, c: string)
    requires NameLe(a, b) && NameLe(b, c)
    ensures NameLe(a, c)
    decreases |a|
  {
    if a != [] && b != [] && c != [] && a[0] == b[0] && b[0] == c[0] {
      NameLeTrans(a[1..], b[1..], c[1..]);
    }
  }

  predicate SortedNames(s: seq<string>) {
    forall i, j :: 0 <= i < j < |s| ==> NameLe(s[i], s[j])
  }

  /** `sort.Strings`, as an insertion sort in place. */
  method SortNames(a: array<string>)
    modifies a
    ensures SortedNames(a[..])
    ensures multiset(a[..]) == multiset(old(a[..]))
  {
    for i := 0 to a.Length
      invariant SortedNames(a[..i])
      invariant multiset(a[..]) == multiset(old(a[..]))
    {
      InsertLast(a, i);
    }
  }

  /** Moves `a[i]` down into the sorted prefix `a[..i]`. */
  method InsertLast(a: array<string>, i: nat)
    requires i < a.Length && SortedNames(a[..i])
    modifies a
    ensures SortedNames(a[..i + 1])
    ensures multiset(a[..]) == multiset(old(a[..]))
  {
    var j := i;
    while j > 0 && !NameLe(a[j - 1], a[j])
      invariant 0 <= j <= i
      invariant forall k, l :: 0 <= k < l <= i && k != j && l != j ==> NameLe(a[k], a[l])
      invariant forall l :: j < l <= i ==> NameLe(a[j], a[l])
      invariant multiset(a[..]) == multiset(old(a[..]))
    {
      NameLeTotal(a[j - 1], a[j]);
      a[j - 1], a[j] := a[j], a[j - 1];
      j := j - 1;
    }
    InsertedSorted(a[..], i, j);
  }

  /** The loop's exit: `s[j]` sits after a name not above it and before names not below it. */
  lemma InsertedSorted(s: seq<string>, i: nat, j: nat)
    requires j <= i < |s|
    requires forall k, l :: 0 <= k < l <= i && k != j && l != j ==> NameLe(s[k], s[l])
    requires forall l :: j < l <= i ==> NameLe(s[j], s[l])
    requires j == 0 || NameLe(s[j - 1], s[j])
    ensures SortedNames(s[..i + 1])
  {
    forall k, l | 0 <= k < l <= i ensures NameLe(s[k], s[l]) {
      if l == j && k < j - 1 {
        NameLeTrans(s[k], s[j - 1], s[j]);
      }
    }
  }

  // ---------------------------------------------------------------------------
  // The run
  // ---------------------------------------------------------------------------

  /**
   * One file of the loop: the status query first, then a recorded file is
   * skipped; otherwise read, execute, record, stopping at the first failure.
   * A file whose recording fails has run but is not recorded.
   */
  function Step(s: RunState, name: string, outcome: string -> Outcome): RunState {
    var o := outcome(name);
    if o == CheckFails then s.(error := Some(CheckFailed(name)))
    else if name in s.recorded then s
    else if o == ReadFails then s.(error := Some(ReadFailed(name)))
    else if o == ExecFails then s.(error := Some(ExecFailed(name)))
    else if o == RecordFails then s.(error := Some(RecordFailed(name)), executed := s.executed + [name])
    else s.(recorded := s.recorded + [name], executed := s.executed + [name])
  }

  /** The state after the loop has considered the first `n` names; nothing happens after an error. */
  function RunUpTo(names: seq<string>, recorded: seq<string>, outcome: string -> Outcome, n: nat): RunState
    requires n <= |names|
  {
    if n == 0 then RunState(None, recorded, [])
    else
      var s := RunUpTo(names, recorded, outcome, n - 1);
      if s.error.Some? then s else Step(s, names[n - 1], outcome)
  }

  function Run(names: seq<string>, recorded: seq<string>, outcome: string -> Outcome): RunState {
    RunUpTo(names, recorded, outcome, |names|)
  }

  /** Once the run has failed, later names change nothing. */
  lemma {:induction false} RunUpToStops(names: seq<string>, recorded: seq<string>, outcome: string -> Outcome, i: nat, n: nat)
    requires i <= n <= |names| && RunUpTo(names, recorded, outcome, i).error.Some?
    ensures RunUpTo(names, recorded, outcome, n) == RunUpTo(names, recorded, outcome, i)
    decreases n
  {
    if n > i {
      RunUpToStops(names, recorded, outcome, i, n - 1);
    }
  }

  /** The loop over the sorted names, stopping at the first failure. */
  method ApplyAll(names: seq<string>, recorded: seq<string>, outcome: string -> Outcome) returns (s: RunState)
    ensures s == Run(names, recorded, outcome)
  {
    s := RunState(None, recorded, []);
    for i := 0 to |names|
      invariant s == RunUpTo(names, recorded, outcome, i) && s.error.None?
    {
      s := Step(s, names[i], outcome);
      if s.error.Some? {
        RunUpToStops(names, recorded, outcome, i + 1, |names|);
        return;
      }
    }
  }

  /**
   * `RunMigrations`: create the version table, list the directory, keep the
   * `.sql` files, sort them by name, and run the loop.
   */
  method RunMigrations(recorded: seq<string>, createFails: bool, listing: Option<seq<DirEntry>>, outcome: string -> Outcome)
    returns (s: RunState, names: seq<string>)
    ensures createFails ==> s == RunState(Some(CreateTableFailed), recorded, [])
    ensures !createFails && listing.None? ==> s == RunState(Some(ReadDirFailed), recorded, [])
    ensures !createFails && listing.Some? ==>
              && SortedNames(names)
              && multiset(names) == multiset(MigrationNames(listing.value))
              && s == Run(names, recorded, outcome)
  {
    names := [];
    if createFails {
      return RunState(Some(CreateTableFailed), recorded, []), names;
    }
    if listing.None? {
      return RunState(Some(ReadDirFailed), recorded, []), names;
    }
    var found := CollectMigrations(listing.value);
    var a := new string[|found|](k requires 0 <= k < |found| => found[k]);
    assert a[..] == found;
    SortNames(a);
    names := a[..];
    s := ApplyAll(names, recorded, outcome);
  }

  // ---------------------------------------------------------------------------
  // What a run promises
  // ---------------------------------------------------------------------------

  /**
   * A file is recorded only after its SQL ran: the recorded versions grow by
   * the executed files, all but the last when its recording failed; earlier
   * records stay.
   */
  lemma {:induction false} RecordedAfterExecuted(names: seq<string>, recorded: seq<string>, outcome: string -> Outcome, n: nat)
    requires n <= |names|
    ensures var s := RunUpTo(names, recorded, outcome, n);
      if s.error.Some? && s.error.value.RecordFailed? then
        s.executed != [] && s.recorded == recorded + s.executed[..|s.executed| - 1]
      else s.recorded == recorded + s.executed
    decreases n
  {
    if n > 0 {
      RecordedAfterExecuted(names, recorded, outcome, n - 1);
      var s := RunUpTo(names, recorded, outcome, n - 1);
      if s.error.None? {
        StepRecordsExecuted(s, names[n - 1], outcome, recorded);
      }
    }
  }

  /** One step of a run that has not failed keeps the recorded versions in line with the executed files. */
  lemma StepRecordsExecuted(s: RunState, name: string, outcome: string -> Outcome, recorded: seq<string>)
    requires s.error.None? && s.recorded == recorded + s.executed
    ensures var t := Step(s, name, outcome);
      if t.error.Some? && t.error.value.RecordFailed? then
        t.executed != [] && t.recorded == recorded + t.executed[..|t.executed| - 1]
      else t.recorded == recorded + t.executed
  {
    var t := Step(s, name, outcome);
    if t.error.Some? && t.error.value.RecordFailed? {
      assert t.executed[..|t.executed| - 1] == s.executed;
    } else if t.executed != s.executed {
      assert t.recorded == recorded + s.executed + [name];
    }
  }

  /** A file already recorded is never run again, nor is a file run twice. */
  lemma {:induction false} SkipsRecorded(names: seq<string>, recorded: seq<string>, outcome: string -> Outcome, n: nat)
    requires n <= |names|
    ensures var s := RunUpTo(names, recorded, outcome, n);
      && (forall m :: m in s.executed ==> m !in recorded)
      && (forall i, j :: 0 <= i < j < |s.executed| ==> s.executed[i] != s.executed[j])
    decreases n
  {
    if n > 0 {
      SkipsRecorded(names, recorded, outcome, n - 1);
      RecordedAfterExecuted(names, recorded, outcome, n - 1);
      var s := RunUpTo(names, recorded, outcome, n - 1);
      if s.error.None? {
        var name := names[n - 1];
        var t := Step(s, name, outcome);
        if t.executed != s.executed {
          assert name !in s.recorded;
          assert t.executed == s.executed + [name];
          forall m | m in s.executed ensures m in s.recorded { }
        }
      }
    }
  }

  /** After a run without failure every listed file is recorded. */
  lemma {:induction false} AllRecorded(names: seq<string>, recorded: seq<string>, outcome: string -> Outcome, n: nat)
    requires n <= |names| && RunUpTo(names, recorded, outcome, n).error.None?
    ensures forall k :: 0 <= k < n ==> names[k] in RunUpTo(names, recorded, outcome, n).recorded
    ensures forall m :: m in recorded ==> m in RunUpTo(names, recorded, outcome, n).recorded
    decreases n
  {
    if n > 0 {
      AllRecorded(names, recorded, outcome, n - 1);
    }
  }

  /** A run over files that are all recorded, whose status queries succeed, runs nothing. */
  lemma {:induction false} NothingPending(names: seq<string>, recorded: seq<string>, outcome: string -> Outcome, n: nat)
    requires n <= |names|
    requires forall k :: 0 <= k < n ==> names[k] in recorded && outcome(names[k]) != CheckFails
    ensures RunUpTo(names, recorded, outcome, n) == RunState(None, recorded, [])
    decreases n
  {
    if n > 0 {
      NothingPending(names, recorded, outcome, n - 1);
    }
  }

  /** A second run over the same files after a successful one executes nothing. */
  lemma SecondRunIdle(names: seq<string>, recorded: seq<string>, first: string -> Outcome, second: string -> Outcome)
    requires Run(names, recorded, first).error.None?
    requires forall k :: 0 <= k < |names| ==> second(names[k]) != CheckFails
    ensures var after := Run(names, recorded, first).recorded;
      Run(names, after, second) == RunState(None, after, [])
  {
    AllRecorded(names, recorded, first, |names|);
    NothingPending(names, Run(names, recorded, first).recorded, second, |names|);
  }
}
