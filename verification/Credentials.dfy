/**
 writeCredentials (cmd/ggrok/credentials.go): reserve every file by exclusive creation, write
 them all, and roll back on any failure.

 First the method alone on a directory, then any number of runs interleaved on one directory,
 one system call at a time, each visiting its names in any order and failing wherever it likes.
 */
module Credentials {
  import opened Common

  datatype Name = Name(text: string)
  // ---- one run by itself -------------------------------------------------------------------

  class Directory {
    var entries: map<Name, Bytes>
    var faults: nat    // how many calls the system has failed

    /** Exclusive creation: refuses an existing name, and may fail. */
    method CreateExclusive(name: Name) returns (ok: bool)
      modifies this
      ensures faults == old(faults) || faults == old(faults) + 1
      ensures ok <==> name !in old(entries) && faults == old(faults)
      ensures entries == if ok then old(entries)[name := []] else old(entries)
    {
      var fault: bool := *;
      if fault { faults := faults + 1; }
      ok := !fault && name !in entries;
      if ok { entries := entries[name := []]; }
    }

    /** Writes and closes; a failure may leave any prefix behind. */
    method WriteAndClose(name: Name, data: Bytes) returns (ok: bool)
      requires name in entries
      modifies this
      ensures faults == old(faults) || faults == old(faults) + 1
      ensures ok <==> faults == old(faults)
      ensures exists n :: 0 <= n <= |data| && entries == old(entries)[name := data[..n]]
      ensures ok ==> entries == old(entries)[name := data]
    {
      ok := *;
      var n: int := *;
      if ok || !(0 <= n <= |data|) { n := |data|; }
      if !ok { faults := faults + 1; }
      entries := entries[name := data[..n]];
      assert data[..|data|] == data;
    }

    /** The deferred rollback: every file this run created is removed. */
    method RollBack(files: set<Name>, ghost before: map<Name, Bytes>)
      requires files !! before.Keys && entries.Keys == before.Keys + files
      requires forall n :: n in before ==> entries[n] == before[n]
      modifies this`entries
      ensures entries == before
    {
      var todo := files;
      while todo != {}
        invariant todo <= files && entries.Keys == before.Keys + todo
        invariant forall n :: n in before ==> entries[n] == before[n]
      {
        var name :| name in todo;
        entries := entries - {name};
        todo := todo - {name};
      }
    }

    /**
     Everything or nothing, whatever fails and in whatever order the names come; and everything
     exactly when no call fails and no name is taken.
     */
    method WriteCredentials(contents: map<Name, Bytes>) returns (ok: bool)
      modifies this
      ensures ok ==> contents.Keys !! old(entries).Keys && entries == old(entries) + contents
      ensures !ok ==> entries == old(entries)
      ensures ok <==> faults == old(faults) && contents.Keys !! old(entries).Keys
    {
      ghost var before := entries;
      var files, todo := {}, contents.Keys;
      while todo != {}
        invariant todo <= contents.Keys && files == contents.Keys - todo && faults == old(faults)
        invariant files !! before.Keys && entries.Keys == before.Keys + files
        invariant forall n :: n in before ==> entries[n] == before[n]
      {
        var name :| name in todo;
        var reserved := CreateExclusive(name);
        if !reserved {
          RollBack(files, before);
          return false;
        }
        files, todo := files + {name}, todo - {name};
      }
      todo := files;
      while todo != {}
        invariant faults == old(faults) && todo <= files == contents.Keys && files !! before.Keys && entries.Keys == before.Keys + files
        invariant forall n :: n in before ==> entries[n] == before[n]
        invariant forall n :: n in files - todo ==> entries[n] == contents[n]
      {
        var name :| name in todo;
        var written := WriteAndClose(name, contents[name]);
        if !written {
          RollBack(files, before);
          return false;
        }
        todo := todo - {name};
      }
      assert entries == before + contents;
      return true;
    }
  }

  // ---- many runs at once -------------------------------------------------------------------

  /** A file: one that was there before, or the one a run made under a name (it makes each name at most once). */
  datatype File = Prior(name: Name) | Made(run: nat, name: Name)

  datatype Phase =
    | Reserving(todo: set<Name>)
    | Writing(todo: set<Name>)
    | Cleaning(todo: set<Name>, complete: bool)
    | Done(ok: bool)

  datatype Run = Run(contents: map<Name, Bytes>, files: set<Name>, phase: Phase)

  datatype Disk = Disk(entries: map<Name, File>, data: map<File, Bytes>)

  datatype State = State(disk: Disk, runs: map<nat, Run>)

  /** Run `r` starts, or makes its next system call: on `name`, with result `ok`, writing `n` bytes if it fails. */
  datatype Action = Start(r: nat, contents: map<Name, Bytes>) | Step(r: nat, name: Name, ok: bool, n: nat)

  /** The run that issues the call, and the disk, after it. */
  function StepRun(d: Disk, r: nat, run: Run, name: Name, ok: bool, n: nat): (Disk, Run) {
    match run.phase
    case Reserving(todo) =>
      if todo == {} then (d, run.(phase := Writing(run.files)))
      else if name !in todo then (d, run)
      else if !ok || name in d.entries then (d, run.(phase := Cleaning(run.files, false)))
      else (Disk(d.entries[name := Made(r, name)], d.data[Made(r, name) := []]),
            Run(run.contents, run.files + {name}, Reserving(todo - {name})))
    case Writing(todo) =>
      if todo == {} then (d, run.(phase := Cleaning(run.files, true)))
      else if name !in todo || name !in run.contents then (d, run)
      else if ok then (Disk(d.entries, d.data[Made(r, name) := run.contents[name]]), run.(phase := Writing(todo - {name})))
      else
        var k := if n <= |run.contents[name]| then n else |run.contents[name]|;
        (Disk(d.entries, d.data[Made(r, name) := run.contents[name][..k]]), run.(phase := Cleaning(run.files, false)))
    case Cleaning(todo, complete) =>
      if todo == {} then (d, run.(phase := Done(complete)))
      else if name !in todo then (d, run)
      else (if complete then d else Disk(d.entries - {name}, d.data), run.(phase := Cleaning(todo - {name}, complete)))
    case Done(_) => (d, run)
  }

  function Apply(s: State, a: Action): State {
    match a
    case Start(r, contents) =>
      if r in s.runs then s else State(s.disk, s.runs[r := Run(contents, {}, Reserving(contents.Keys))])
    case Step(r, name, ok, n) =>
      if r !in s.runs then s
      else var (d, run) := StepRun(s.disk, r, s.runs[r], name, ok, n); State(d, s.runs[r := run])
  }

  function Continue(s: State, actions: seq<Action>): State
    decreases actions
  {
    if actions == [] then s else Continue(Apply(s, actions[0]), actions[1..])
  }

  /** A directory that holds `prior`, and no run yet. */
  function Initial(prior: map<Name, Bytes>): State {
    State(Disk(map n | n in prior :: Prior(n), map n | n in prior :: Prior(n) := prior[n]), map[])
  }

  /** The names this run's own files must still be found under. */
  function Holding(run: Run): set<Name> {
    match run.phase
    case Reserving(_) => run.files
    case Writing(_) => run.files
    case Cleaning(todo, complete) => if complete then run.files else todo
    case Done(ok) => if ok then run.files else {}
  }

  /** The names whose files already hold all of their contents. */
  function Written(run: Run): set<Name> {
    match run.phase
    case Reserving(_) => {}
    case Writing(todo) => run.files - todo
    case Cleaning(_, complete) => if complete then run.files else {}
    case Done(ok) => if ok then run.files else {}
  }

  predicate Succeeding(run: Run) {
    (run.phase.Done? && run.phase.ok) || (run.phase.Cleaning? && run.phase.complete)
  }

  ghost predicate RunOk(d: Disk, r: nat, run: Run) {
    && run.files <= run.contents.Keys
    && (run.phase.Reserving? ==> run.phase.todo == run.contents.Keys - run.files)
    && (run.phase.Writing? ==> run.files == run.contents.Keys && run.phase.todo <= run.files)
    && (run.phase.Cleaning? ==> run.phase.todo <= run.files)
    && (Succeeding(run) ==> run.files == run.contents.Keys)
    && (forall n :: n in Holding(run) ==> n in d.entries && d.entries[n] == Made(r, n))
    && (forall n :: n in Written(run) ==> Made(r, n) in d.data && d.data[Made(r, n)] == run.contents[n])
  }

  /** Every entry is a prior file, untouched, or one a run made and still holds. */
  ghost predicate EntryOk(s: State, prior: map<Name, Bytes>, n: Name)
    requires n in s.disk.entries
  {
    match s.disk.entries[n]
    case Prior(m) => m == n && n in prior
    case Made(r, m) => m == n && n !in prior && r in s.runs && n in Holding(s.runs[r])
  }

  ghost predicate PriorOk(d: Disk, prior: map<Name, Bytes>, n: Name)
    requires n in prior
  {
    n in d.entries && d.entries[n] == Prior(n) && Prior(n) in d.data && d.data[Prior(n)] == prior[n]
  }

  ghost predicate Inv(s: State, prior: map<Name, Bytes>) {
    && (forall r :: r in s.runs ==> RunOk(s.disk, r, s.runs[r]))
    && (forall n :: n in s.disk.entries ==> EntryOk(s, prior, n))
    && (forall n :: n in prior ==> PriorOk(s.disk, prior, n))
  }

  /** What one run's call may do to the disk: take free names, give up its own, and write its own files. */
  ghost predicate OnlyOwn(d: Disk, e: Disk, r: nat) {
    && (forall n :: n in d.entries && d.entries[n] != Made(r, n) ==> n in e.entries && e.entries[n] == d.entries[n])
    && (forall n :: n in e.entries && n !in d.entries ==> e.entries[n] == Made(r, n))
    && (forall n :: n in e.entries && n in d.entries ==> e.entries[n] == d.entries[n])
    && (forall f :: f in d.data && (f.Prior? || f.run != r) ==> f in e.data && e.data[f] == d.data[f])
  }

  /** A run's own call keeps what it relies on, and touches nobody else's files. */
  ghost predicate GoodCall(d: Disk, e: Disk, r: nat, run: Run, after: Run) {
    && RunOk(e, r, after) && OnlyOwn(d, e, r) && after.contents == run.contents
    && (forall m :: m in e.entries && e.entries[m] == Made(r, m) && (m in d.entries ==> m in Holding(run)) ==> m in Holding(after))
  }

  lemma ReserveIsGood(d: Disk, r: nat, run: Run, name: Name)
    requires RunOk(d, r, run) && run.phase.Reserving? && name in run.phase.todo && name !in d.entries
    ensures GoodCall(d, Disk(d.entries[name := Made(r, name)], d.data[Made(r, name) := []]), r, run,
                     Run(run.contents, run.files + {name}, Reserving(run.phase.todo - {name})))
  {
  }

  lemma WriteIsGood(d: Disk, e: Disk, r: nat, run: Run, name: Name, after: Run)
    requires RunOk(d, r, run) && run.phase.Writing? && name in run.phase.todo
    requires e.entries == d.entries && Made(r, name) in e.data && e.data == d.data[Made(r, name) := e.data[Made(r, name)]]
    requires after.contents == run.contents && after.files == run.files
    requires after.phase == Cleaning(run.files, false)
             || (after.phase == Writing(run.phase.todo - {name}) && e.data[Made(r, name)] == run.contents[name])
    ensures GoodCall(d, e, r, run, after)
  {
  }

  lemma CleanIsGood(d: Disk, r: nat, run: Run, name: Name, ok: bool, n: nat)
    requires RunOk(d, r, run) && run.phase.Cleaning?
    ensures GoodCall(d, StepRun(d, r, run, name, ok, n).0, r, run, StepRun(d, r, run, name, ok, n).1)
  {
  }

  lemma CallIsGood(d: Disk, r: nat, run: Run, name: Name, ok: bool, n: nat)
    requires RunOk(d, r, run)
    ensures GoodCall(d, StepRun(d, r, run, name, ok, n).0, r, run, StepRun(d, r, run, name, ok, n).1)
  {
    var (e, after) := StepRun(d, r, run, name, ok, n);
    match run.phase {
      case Reserving(todo) => if todo != {} && name in todo && ok && name !in d.entries { ReserveIsGood(d, r, run, name); }
      case Writing(todo) => if name in todo { WriteIsGood(d, e, r, run, name, after); }
      case Cleaning(_, _) => CleanIsGood(d, r, run, name, ok, n);
      case Done(_) =>
    }
  }

  lemma CallKeepsRuns(s: State, t: State, r: nat, other: nat)
    requires r in s.runs && r in t.runs && t.runs == s.runs[r := t.runs[r]]
    requires GoodCall(s.disk, t.disk, r, s.runs[r], t.runs[r])
    requires other in s.runs && RunOk(s.disk, other, s.runs[other])
    ensures RunOk(t.disk, other, t.runs[other])
  {
  }

  lemma CallKeepsEntry(s: State, t: State, r: nat, prior: map<Name, Bytes>, n: Name)
    requires r in s.runs && r in t.runs && t.runs == s.runs[r := t.runs[r]]
    requires GoodCall(s.disk, t.disk, r, s.runs[r], t.runs[r]) && n in t.disk.entries
    requires n in s.disk.entries ==> EntryOk(s, prior, n)
    requires n in prior ==> PriorOk(s.disk, prior, n)
    ensures EntryOk(t, prior, n)
  {
    hide RunOk;
  }

  lemma CallKeepsPrior(d: Disk, e: Disk, r: nat, prior: map<Name, Bytes>, n: Name)
    requires OnlyOwn(d, e, r) && n in prior && PriorOk(d, prior, n)
    ensures PriorOk(e, prior, n)
  {
  }

  lemma ApplyKeeps(s: State, a: Action, prior: map<Name, Bytes>)
    requires Inv(s, prior)
    ensures Inv(Apply(s, a), prior)
  {
    var t := Apply(s, a);
    match a {
      case Start(r, contents) =>
        forall n | n in t.disk.entries ensures EntryOk(t, prior, n) { assert EntryOk(s, prior, n); }
      case Step(r, name, ok, n) =>
        if r in s.runs {
          CallIsGood(s.disk, r, s.runs[r], name, ok, n);
          hide RunOk, EntryOk, PriorOk, StepRun;
          forall q | q in t.runs ensures RunOk(t.disk, q, t.runs[q]) { CallKeepsRuns(s, t, r, q); }
          forall m | m in t.disk.entries ensures EntryOk(t, prior, m) { CallKeepsEntry(s, t, r, prior, m); }
          forall m | m in prior ensures PriorOk(t.disk, prior, m) { CallKeepsPrior(s.disk, t.disk, r, prior, m); }
        }
    }
  }

  /** The state after `actions`, in a directory that held `prior`. */
  function After(prior: map<Name, Bytes>, actions: seq<Action>): State {
    Continue(Initial(prior), actions)
  }

  lemma {:induction false} ContinueKeeps(s: State, actions: seq<Action>, prior: map<Name, Bytes>)
    requires Inv(s, prior)
    ensures Inv(Continue(s, actions), prior)
    decreases actions
  {
    hide Inv, Apply;
    if actions == [] {
    } else {
      ApplyKeeps(s, actions[0], prior);
      ContinueKeeps(Apply(s, actions[0]), actions[1..], prior);
    }
  }

  lemma OneNameOneHolder(d: Disk, a: nat, run: Run, b: nat, other: Run, n: Name)
    requires a != b && RunOk(d, a, run) && RunOk(d, b, other) && n in run.contents && n in other.contents
    ensures !(Succeeding(run) && Succeeding(other))
  {
    assert Succeeding(run) ==> n in Holding(run);
    assert Succeeding(other) ==> n in Holding(other);
  }

  lemma HeldIsNotPrior(d: Disk, a: nat, run: Run, prior: map<Name, Bytes>, n: Name)
    requires RunOk(d, a, run) && n in prior && PriorOk(d, prior, n) && n in run.contents
    ensures !Succeeding(run)
  {
    assert Succeeding(run) ==> n in Holding(run);
  }

  /** Two runs that share a file name never both succeed, however they are interleaved. */
  lemma SharedNameHasOneWinner(prior: map<Name, Bytes>, actions: seq<Action>, a: nat, b: nat, n: Name)
    requires var s := After(prior, actions); a != b && a in s.runs && b in s.runs && n in s.runs[a].contents && n in s.runs[b].contents
    ensures var s := After(prior, actions); !(Succeeding(s.runs[a]) && Succeeding(s.runs[b]))
    ensures n in prior ==> !Succeeding(After(prior, actions).runs[a])
  {
    ContinueKeeps(Initial(prior), actions, prior);
    hide Continue, EntryOk, RunOk, PriorOk;
    var s := After(prior, actions);
    OneNameOneHolder(s.disk, a, s.runs[a], b, s.runs[b], n);
    if n in prior { HeldIsNotPrior(s.disk, a, s.runs[a], prior, n); }
  }

  /**
   What is in the directory at any time: every prior file, as it was; all of each successful
   run's files, holding exactly its contents; nothing of a run that failed, and nothing else.
   */
  lemma DirectoryHoldsOnly(prior: map<Name, Bytes>, actions: seq<Action>, r: nat, n: Name)
    requires r in After(prior, actions).runs
    ensures var s := After(prior, actions); var run := s.runs[r];
            && (n in prior ==> n in s.disk.entries && s.disk.entries[n] == Prior(n) && Prior(n) in s.disk.data && s.disk.data[Prior(n)] == prior[n])
            && (run.phase == Done(true) && n in run.contents ==>
                  n in s.disk.entries && s.disk.entries[n] == Made(r, n) && Made(r, n) in s.disk.data
                  && s.disk.data[Made(r, n)] == run.contents[n])
            && (run.phase == Done(false) ==> Made(r, n) !in s.disk.entries.Values)
            && (n in s.disk.entries ==> n in prior || exists q :: q in s.runs && n in s.runs[q].contents && s.runs[q].phase != Done(false))
  {
    ContinueKeeps(Initial(prior), actions, prior);
    hide Continue, Inv;
    var s := After(prior, actions);
    assert RunOk(s.disk, r, s.runs[r]) by { assert Inv(s, prior); }
    if n in s.disk.entries { assert EntryOk(s, prior, n); }
    if s.runs[r].phase == Done(false) {
      forall m | m in s.disk.entries ensures s.disk.entries[m] != Made(r, n) { assert EntryOk(s, prior, m); }
    }
    if n in s.disk.entries && s.disk.entries[n].Made? {
      var q := s.disk.entries[n].run;
      assert RunOk(s.disk, q, s.runs[q]);
    }
  }

  /** A call removes a name only if the calling run made the file under it. */
  lemma OnlyOwnFilesAreRemoved(prior: map<Name, Bytes>, actions: seq<Action>, a: Action, n: Name)
    requires var s := After(prior, actions); n in s.disk.entries && n !in Apply(s, a).disk.entries
    ensures a.Step? && After(prior, actions).disk.entries[n] == Made(a.r, n)
  {
    ContinueKeeps(Initial(prior), actions, prior);
    hide Continue;
    var s := After(prior, actions);
    if a.Step? && a.r in s.runs {
      CallIsGood(s.disk, a.r, s.runs[a.r], a.name, a.ok, a.n);
      hide Inv, StepRun, RunOk;
      assert OnlyOwn(s.disk, Apply(s, a).disk, a.r);
    }
  }

  /** A finished run stays finished, and its result with it: a success keeps its files for ever. */
  lemma {:induction false} DoneIsFinal(s: State, actions: seq<Action>, r: nat)
    requires r in s.runs && s.runs[r].phase.Done?
    ensures r in Continue(s, actions).runs && Continue(s, actions).runs[r] == s.runs[r]
    decreases actions
  {
    if actions == [] {
    } else {
      DoneIsFinal(Apply(s, actions[0]), actions[1..], r);
    }
  }

  // ---- and that a run which nothing disturbs succeeds ----------------------------------------

  predicate Failing(run: Run) {
    (run.phase.Cleaning? && !run.phase.complete) || (run.phase.Done? && !run.phase.ok)
  }

  /** A run turns to failure only on a call that failed, or a name that was taken. */
  lemma FailsOnlyForCause(s: State, a: Action, r: nat)
    requires r in s.runs && !Failing(s.runs[r]) && Failing(Apply(s, a).runs[r])
    ensures a.Step? && a.r == r && (!a.ok || (s.runs[r].phase.Reserving? && a.name in s.runs[r].phase.todo && a.name in s.disk.entries))
  {
  }

  /** How many calls a run has left, whichever way it goes. */
  function CallsLeft(run: Run): nat {
    match run.phase
    case Reserving(todo) => |todo| + 2 * |run.contents| + 3
    case Writing(todo) => |todo| + |run.contents| + 2
    case Cleaning(todo, _) => |todo| + 1
    case Done(_) => 0
  }

  /** A call that the run is ready for: one of the names it has to do, or the end of a loop. */
  predicate Timely(run: Run, name: Name) {
    match run.phase
    case Reserving(todo) => todo == {} || name in todo
    case Writing(todo) => todo == {} || name in todo
    case Cleaning(todo, _) => todo == {} || name in todo
    case Done(_) => true
  }

  lemma SubsetIsSmaller<T>(a: set<T>, b: set<T>)
    requires a <= b
    ensures |a| <= |b|
  {
    assert b == a + (b - a);
  }

  /** Every timely call, failed or not, brings its run nearer its end. */
  lemma EveryCallAdvances(d: Disk, r: nat, run: Run, name: Name, ok: bool, n: nat)
    requires RunOk(d, r, run) && Timely(run, name) && !run.phase.Done?
    ensures CallsLeft(StepRun(d, r, run, name, ok, n).1) < CallsLeft(run)
  {
    SubsetIsSmaller(run.files, run.contents.Keys);
  }

  /** Nobody else holds a name that run `r` has still to reserve. */
  ghost predicate NamesFree(s: State, r: nat) {
    r in s.runs && (s.runs[r].phase.Reserving? ==> s.runs[r].phase.todo !! s.disk.entries.Keys)
  }

  lemma NamesStayFree(s: State, r: nat, name: Name, n: nat)
    requires NamesFree(s, r)
    ensures NamesFree(Apply(s, Step(r, name, true, n)), r)
  {
  }

  lemma FreeNamesAreNotTaken(s: State, r: nat, name: Name)
    requires NamesFree(s, r) && s.runs[r].phase.Reserving? && name in s.disk.entries
    ensures name !in s.runs[r].phase.todo
  {
  }

  lemma NotDoneHasCalls(run: Run)
    ensures run.phase.Done? || CallsLeft(run) > 0
  {
  }

  lemma RunIsOk(s: State, prior: map<Name, Bytes>, r: nat)
    requires Inv(s, prior) && r in s.runs
    ensures RunOk(s.disk, r, s.runs[r])
  {
    hide RunOk, EntryOk, PriorOk;
  }

  /** Successful calls of one run, on these names in turn. */
  function Calls(r: nat, names: seq<Name>): seq<Action> {
    if names == [] then [] else [Step(r, names[0], true, 0)] + Calls(r, names[1..])
  }

  /** Each of them comes when the run is ready for it. */
  ghost predicate TimelyCalls(s: State, r: nat, names: seq<Name>)
    decreases names
  {
    names == [] || (r in s.runs && Timely(s.runs[r], names[0]) && TimelyCalls(Apply(s, Step(r, names[0], true, 0)), r, names[1..]))
  }

  /**
   A run whose names are free and whose calls all work, in whatever order it visits them, and
   with nobody between, ends in success.
   */
  lemma {:induction false} UndisturbedRunSucceeds(prior: map<Name, Bytes>, s: State, r: nat, names: seq<Name>)
    requires r in s.runs && Inv(s, prior) && NamesFree(s, r) && !Failing(s.runs[r]) && |names| >= CallsLeft(s.runs[r])
    requires TimelyCalls(s, r, names)
    ensures r in Continue(s, Calls(r, names)).runs && Continue(s, Calls(r, names)).runs[r].phase == Done(true)
    decreases names
  {
    hide Inv, StepRun, CallsLeft, RunOk, NamesFree;
    if s.runs[r].phase.Done? {
      DoneIsFinal(s, Calls(r, names), r);
    } else {
      assert names != [] by { NotDoneHasCalls(s.runs[r]); }
      var a := Step(r, names[0], true, 0);
      assert Calls(r, names)[0] == a && Calls(r, names)[1..] == Calls(r, names[1..]);
      assert RunOk(s.disk, r, s.runs[r]) by { assert Inv(s, prior); RunIsOk(s, prior, r); }
      EveryCallAdvances(s.disk, r, s.runs[r], names[0], true, 0);
      ApplyKeeps(s, a, prior);
      NamesStayFree(s, r, names[0], 0);
      if Failing(Apply(s, a).runs[r]) {
        FailsOnlyForCause(s, a, r);
        FreeNamesAreNotTaken(s, r, names[0]);
      }
      UndisturbedRunSucceeds(prior, Apply(s, a), r, names[1..]);
    }
  }

  lemma {:induction false} ContentsStay(s: State, actions: seq<Action>, r: nat)
    requires r in s.runs
    ensures r in Continue(s, actions).runs && Continue(s, actions).runs[r].contents == s.runs[r].contents
    decreases actions
  {
    if actions == [] {
    } else {
      ContentsStay(Apply(s, actions[0]), actions[1..], r);
    }
  }

  lemma InitialIsOk(prior: map<Name, Bytes>)
    ensures Inv(Initial(prior), prior)
  {
  }

  lemma StartedRun(s: State, r: nat, contents: map<Name, Bytes>)
    requires r !in s.runs && contents.Keys !! s.disk.entries.Keys
    ensures var t := Apply(s, Start(r, contents));
            && r in t.runs && t.runs[r].contents == contents && NamesFree(t, r) && !Failing(t.runs[r])
            && CallsLeft(t.runs[r]) == 3 * |contents| + 3
  {
    assert |contents| == |contents.Keys|;
  }

  lemma DoneHolds(d: Disk, r: nat, run: Run)
    requires RunOk(d, r, run) && run.phase == Done(true)
    ensures forall n :: n in run.contents ==>
              n in d.entries && d.entries[n] == Made(r, n) && Made(r, n) in d.data && d.data[Made(r, n)] == run.contents[n]
  {
    assert Holding(run) == Written(run) == run.contents.Keys;
  }

  /** From its start: in any state a directory can be in, a new run over free names succeeds if nothing disturbs it. */
  lemma FreshRunSucceeds(prior: map<Name, Bytes>, actions: seq<Action>, r: nat, contents: map<Name, Bytes>, names: seq<Name>)
    requires var s := After(prior, actions);
             && r !in s.runs && contents.Keys !! s.disk.entries.Keys && |names| >= 3 * |contents| + 3
             && TimelyCalls(Apply(s, Start(r, contents)), r, names)
    ensures var u := Continue(After(prior, actions), [Start(r, contents)] + Calls(r, names));
            && r in u.runs && u.runs[r].phase == Done(true)
            && forall n :: n in contents ==>
                 && n in u.disk.entries && u.disk.entries[n] == Made(r, n)
                 && Made(r, n) in u.disk.data && u.disk.data[Made(r, n)] == contents[n]
  {
    hide Inv, Calls, TimelyCalls, RunOk, StepRun, Initial;
    var s := After(prior, actions);
    var t := Apply(s, Start(r, contents));
    InitialIsOk(prior);
    ContinueKeeps(Initial(prior), actions, prior);
    ApplyKeeps(s, Start(r, contents), prior);
    StartedRun(s, r, contents);
    UndisturbedRunSucceeds(prior, t, r, names);
    ContinueKeeps(t, Calls(r, names), prior);
    ContentsStay(t, Calls(r, names), r);
    assert ([Start(r, contents)] + Calls(r, names))[1..] == Calls(r, names);
    var u := Continue(s, [Start(r, contents)] + Calls(r, names));
    assert u == Continue(t, Calls(r, names));
    hide Continue, Apply;
    RunIsOk(u, prior, r);
    DoneHolds(u.disk, r, u.runs[r]);
  }
}
