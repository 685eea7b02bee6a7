/**
The daemon's tables and deployment directories, one critical section per method. A deploy is
four sections under one lock; an execution reads a run's row, runs, and writes that copy back.
Any section may fall between them, and the process may stop after any of them.
*/
module Daemon {
  import opened Wrappers
  import opened Cadence
  import opened Health
  import opened Sorting
  import opened Linked
  import opened Deployments
  import opened Scheduler

  datatype Scheduled = Scheduled(runId: string, at: int, ok: bool, counts: Counts, recipeVersion: Option<nat>)

  datatype RunConfig = RunConfig(enabled: bool, cadence: Cadence, config: string)

  // The deploy that holds the deploy lock: version picked, work directory written, or renamed.
  datatype Deploying =
    | Picked(name: string, version: nat, linked: LinkedModule)
    | Written(name: string, version: nat, linked: LinkedModule, temp: string)
    | Renamed(name: string, version: nat)

  // A copy of a run's row, held from the read to the write-back.
  datatype InFlight = InFlight(run: Run, startedAt: int)

  type Version = (string, nat)

  datatype DaemonError = UnknownRun | UnknownDeployment | BadCron | BadModule | StorageFailed

  /** Versions recorded later are greater, recipe by recipe. */
  ghost predicate Increasing(log: seq<Version>) {
    forall i, j | 0 <= i < j < |log| && log[i].0 == log[j].0 :: log[i].1 < log[j].1
  }

  /** The ok executions of a run before `at`, newest first, at most `limit` of them; `rest` are those left out. */
  ghost predicate IsPriorOk(history: seq<Scheduled>, runId: string, at: int, limit: nat, r: seq<Scheduled>) {
    |r| <= limit && Descending(r) && exists rest :: Partition(history, runId, at, r, rest) && OlderRest(r, rest, limit)
  }

  /** Only when the limit is reached is anything left out, and nothing newer. */
  ghost predicate OlderRest(r: seq<Scheduled>, rest: seq<Scheduled>, limit: nat) {
    (rest != [] ==> |r| == limit) && forall x, y | x in r && y in rest :: x.at >= y.at
  }

  /** Together they are the ok executions of the run before `at`, each as often as the history has it. */
  ghost predicate Partition(history: seq<Scheduled>, runId: string, at: int, r: seq<Scheduled>, rest: seq<Scheduled>) {
    forall x :: multiset(r)[x] + multiset(rest)[x] ==
      (if x.runId == runId && x.ok && x.at < at then multiset(history)[x] else 0)
  }

  function PriorOk(history: seq<Scheduled>, runId: string, at: int): seq<Scheduled> {
    if history == [] then []
    else
      var h := history[0];
      (if h.runId == runId && h.ok && h.at < at then [h] else []) + PriorOk(history[1..], runId, at)
  }

  lemma {:induction false} PriorOkCounts(history: seq<Scheduled>, runId: string, at: int, x: Scheduled)
    ensures multiset(PriorOk(history, runId, at))[x] ==
      (if x.runId == runId && x.ok && x.at < at then multiset(history)[x] else 0)
  {
    if history != [] {
      PriorOkCounts(history[1..], runId, at, x);
      assert history == [history[0]] + history[1..];
    }
  }

  lemma {:induction false} PartitionIs(history: seq<Scheduled>, runId: string, at: int, r: seq<Scheduled>,
                                       rest: seq<Scheduled>)
    requires multiset(r) + multiset(rest) == multiset(PriorOk(history, runId, at))
    ensures Partition(history, runId, at, r, rest)
  {
    forall x
      ensures multiset(r)[x] + multiset(rest)[x] ==
        (if x.runId == runId && x.ok && x.at < at then multiset(history)[x] else 0)
    {
      PriorOkCounts(history, runId, at, x);
      assert (multiset(r) + multiset(rest))[x] == multiset(r)[x] + multiset(rest)[x];
    }
  }

  function CountsOf(prior: seq<Scheduled>): (counts: seq<Counts>)
    ensures |counts| == |prior| && forall i | 0 <= i < |prior| :: counts[i] == prior[i].counts
  {
    seq(|prior|, i requires 0 <= i < |prior| => prior[i].counts)
  }

  // The version table and the deployment directories.
  datatype Disk = Disk(deployed: map<Version, int>, files: map<(string, string), LinkedModule>)
  {
    /** What `load_deployed` can read back. */
    predicate Loadable(name: string, v: nat) {
      (name, v) in deployed && (name, VersionDir(v)) in files
    }

    /** The versions a recipe has used, on disk or in the table. */
    predicate Used(name: string, v: nat) {
      (name, v) in deployed || (name, VersionDir(v)) in files
    }
  }

  // The used versions are those renamed into place, each once and in increasing order, and each directory still
  // holds its module.
  ghost predicate DirsOk(disk: Disk, contents: map<Version, LinkedModule>, finalized: seq<Version>) {
    && (forall name, v: nat {:trigger disk.Used(name, v)} :: disk.Used(name, v) <==> (name, v) in contents)
    && (forall k | k in contents ::
         (k.0, VersionDir(k.1)) in disk.files && disk.files[(k.0, VersionDir(k.1))] == contents[k])
    && (forall k :: k in contents <==> k in finalized)
    && Increasing(finalized)
  }

  /** A directory that reads as a version is named the way versions are. */
  ghost predicate NamesOk(files: map<(string, string), LinkedModule>) {
    forall f | f in files && ParseVersion(f.1).Some? :: f.1 == VersionDir(ParseVersion(f.1).value)
  }

  ghost predicate Above(contents: map<Version, LinkedModule>, name: string, v: nat) {
    forall k | k in contents && k.0 == name :: k.1 < v
  }

  /** The picked version lies above all used ones until it is used itself. */
  ghost predicate DeployOk(disk: Disk, contents: map<Version, LinkedModule>, deploying: Option<Deploying>) {
    match deploying
    case None => true
    case Some(Picked(name, v, m)) => m.RootIs(name) && Above(contents, name, v)
    case Some(Written(name, v, m, temp)) =>
      && m.RootIs(name) && (name, temp) in disk.files && disk.files[(name, temp)] == m && ParseVersion(temp).None?
      && Above(contents, name, v)
    case Some(Renamed(name, v)) => (name, v) in contents && (name, v) !in disk.deployed && Above(contents, name, v + 1)
  }

  /** The directories of a recipe. */
  function DirsOf(files: map<(string, string), LinkedModule>, name: string): set<string> {
    set k | k in files && k.0 == name :: k.1
  }

  lemma {:induction false} UsedIsScanned(disk: Disk, contents: map<Version, LinkedModule>, finalized: seq<Version>,
                                         name: string, v: nat)
    requires DirsOk(disk, contents, finalized) && (name, v) in contents
    ensures v in VersionsIn(DirsOf(disk.files, name))
  {
    var f := (name, VersionDir(v));
    assert f in disk.files && f.1 in DirsOf(disk.files, name);
    VersionDirParses(v);
  }

  /** A version that a directory or a row names is one that was used. */
  lemma {:induction false} ScannedIsUsed(disk: Disk, contents: map<Version, LinkedModule>, finalized: seq<Version>,
                                         name: string, v: nat)
    requires DirsOk(disk, contents, finalized) && NamesOk(disk.files)
    requires v in VersionsIn(DirsOf(disk.files, name)) || v in VersionsOf(disk.deployed, name)
    ensures (name, v) in contents
  {
    if v in VersionsIn(DirsOf(disk.files, name)) {
      var d :| d in DirsOf(disk.files, name) && ParseVersion(d) == Some(v);
      assert (name, d) in disk.files;
    } else {
      assert (name, v) in disk.deployed;
    }
    assert disk.Used(name, v);
  }

  /** A row, or a copy of one, carries the recipe of its id and points at something that loads. */
  ghost predicate RowOk(disk: Disk, recipeOf: map<string, string>, run: Run) {
    run.id in recipeOf && recipeOf[run.id] == run.recipe
      && (run.deployed.Some? ==> disk.Loadable(run.recipe, run.deployed.value))
  }

  ghost predicate RowsOk(disk: Disk, recipeOf: map<string, string>, runs: map<string, Run>) {
    && (forall id | id in runs :: runs[id].id == id && RowOk(disk, recipeOf, runs[id]))
    && (forall a, b | a in runs && b in runs && runs[a].recipe == runs[b].recipe :: a == b)
  }

  ghost predicate CopiesOk(disk: Disk, recipeOf: map<string, string>, inFlight: map<nat, InFlight>) {
    forall t | t in inFlight :: RowOk(disk, recipeOf, inFlight[t].run)
  }

  ghost predicate HistoryOk(disk: Disk, recipeOf: map<string, string>, history: seq<Scheduled>) {
    forall h | h in history && h.recipeVersion.Some? ::
      h.runId in recipeOf && disk.Loadable(recipeOf[h.runId], h.recipeVersion.value)
  }

  /** A row replaced by one of the same run, or a first row for a recipe. */
  lemma {:induction false} RowWritten(disk: Disk, recipeOf: map<string, string>, runs: map<string, Run>, run: Run)
    requires RowsOk(disk, recipeOf, runs) && RowOk(disk, recipeOf, run)
    requires run.id in runs || forall id | id in runs :: runs[id].recipe != run.recipe
    ensures RowsOk(disk, recipeOf, runs[run.id := run])
  {
    assert run.id in runs ==> RowOk(disk, recipeOf, runs[run.id]);
  }

  /** The run of the recipe, if there is one, moved to the version, and nothing else changed. */
  ghost predicate Moved(was: map<string, Run>, now: map<string, Run>, name: string, v: nat) {
    && now.Keys == was.Keys
    && forall id | id in was ::
         if was[id].recipe == name then now[id] == was[id].(deployed := Some(v)) else now[id] == was[id]
  }

  function Repointed(runs: map<string, Run>, name: string, v: nat): (now: map<string, Run>)
    ensures Moved(runs, now, name, v)
  {
    map id | id in runs :: if runs[id].recipe == name then runs[id].(deployed := Some(v)) else runs[id]
  }

  lemma {:induction false} RepointedOk(disk: Disk, recipeOf: map<string, string>, runs: map<string, Run>,
                                       name: string, v: nat)
    requires RowsOk(disk, recipeOf, runs) && disk.Loadable(name, v)
    ensures RowsOk(disk, recipeOf, Repointed(runs, name, v))
  {
    forall id | id in runs ensures RowOk(disk, recipeOf, Repointed(runs, name, v)[id]) {
      assert RowOk(disk, recipeOf, runs[id]);
    }
  }

  /** A new id concerns no row, copy or history entry there is. */
  lemma {:induction false} NewId(disk: Disk, recipeOf: map<string, string>, runs: map<string, Run>,
                                 inFlight: map<nat, InFlight>, history: seq<Scheduled>, id: string, name: string)
    requires id !in recipeOf && RowsOk(disk, recipeOf, runs) && CopiesOk(disk, recipeOf, inFlight)
        && HistoryOk(disk, recipeOf, history)
    ensures var after := recipeOf[id := name];
      RowsOk(disk, after, runs) && CopiesOk(disk, after, inFlight) && HistoryOk(disk, after, history)
  {
    forall x | x in runs ensures RowOk(disk, recipeOf[id := name], runs[x]) {
      assert RowOk(disk, recipeOf, runs[x]);
    }
    forall t | t in inFlight ensures RowOk(disk, recipeOf[id := name], inFlight[t].run) {
      assert RowOk(disk, recipeOf, inFlight[t].run);
    }
  }

  // The row that configuring leaves: kept identity and pointer for an existing run, the newest version for a
  // new one.
  ghost predicate Configured(lib: CronLib, disk: Disk, was: Option<Run>, name: string, cfg: RunConfig,
                             newId: string, now: int, r: Run) {
    && r.recipe == name && r.enabled == cfg.enabled && r.cadence == cfg.cadence && r.config == cfg.config
    && r.nextRun == NextFireFor(lib, cfg.cadence, None, now)
    && match was
       case Some(w) =>
         r.id == w.id && r.deployed == w.deployed
         && r.health == if !cfg.enabled then Paused else if w.enabled then w.health else Unknown
       case None =>
         r.id == newId && IsMax(r.deployed, VersionsOf(disk.deployed, name))
         && r.health == if cfg.enabled then Unknown else Paused
  }

  /** What a finished execution makes of the row it started from. */
  ghost predicate Finished(lib: CronLib, stale: Run, row: Scheduled, history: seq<Scheduled>, now: int, r: Run) {
    && r == stale.(health := r.health, nextRun := AdvanceNextRun(lib, stale.cadence, stale.nextRun, now))
    && if !stale.enabled then r.health == Paused
       else
         exists prior ::
           && IsPriorOk(history, stale.id, row.at, 7, prior)
           && Judged(row.ok, row.counts, CountsOf(prior), r.health)
  }

  function VersionsOf(deployed: map<Version, int>, name: string): set<nat> {
    set k | k in deployed && k.0 == name :: k.1
  }

  function CommittedOf(log: seq<Version>, name: string): set<nat> {
    set k | k in log && k.0 == name :: k.1
  }

  ghost predicate Tabled(deployed: map<Version, int>, committed: seq<Version>) {
    forall k :: k in deployed <==> k in committed
  }

  // The version table holds the committed versions, each recipe's in increasing order; every execution under way
  // knows how many commits there were when it began.
  ghost predicate CommitsOk(deployed: map<Version, int>, committed: seq<Version>, inFlight: map<nat, InFlight>,
                            began: map<nat, nat>) {
    && Increasing(committed)
    && Tabled(deployed, committed)
    && forall t | t in inFlight :: t in began && began[t] <= |committed|
  }

  /** No version of the recipe was committed from the `from`-th commit on. */
  ghost predicate NoneSince(committed: seq<Version>, since: nat, name: string) {
    forall j | since <= j < |committed| :: committed[j].0 != name
  }

  // If the row points at the version that was the newest after `since` commits, it points at the newest now exactly
  // when no version of its recipe was committed after them.
  ghost predicate NewestUnlessCommitted(deployed: map<Version, int>, committed: seq<Version>, since: nat, row: Run)
    requires since <= |committed|
  {
    IsMax(row.deployed, CommittedOf(committed[..since], row.recipe)) ==>
      (IsMax(row.deployed, VersionsOf(deployed, row.recipe)) <==> NoneSince(committed, since, row.recipe))
  }

  /** A row that points at the version that was the newest stays so unless another is committed. */
  lemma {:induction false} NewestIff(deployed: map<Version, int>, committed: seq<Version>, since: nat, row: Run)
    requires Increasing(committed) && Tabled(deployed, committed) && since <= |committed|
    ensures NewestUnlessCommitted(deployed, committed, since, row)
  {
    var name, pointer := row.recipe, row.deployed;
    if NoneSince(committed, since, name) {
      forall k | k in committed && k.0 == name ensures k in committed[..since] {
        var j :| 0 <= j < |committed| && committed[j] == k;
        assert j < since && committed[..since][j] == k;
      }
      assert forall k | k in committed[..since] :: k in committed;
      assert VersionsOf(deployed, name) == CommittedOf(committed[..since], name);
    } else {
      var j :| since <= j < |committed| && committed[j].0 == name;
      assert committed[j] in deployed && committed[j].1 in VersionsOf(deployed, name);
      if pointer.Some? && pointer.value in CommittedOf(committed[..since], name) {
        var k :| k in committed[..since] && k.0 == name && k.1 == pointer.value;
        var i :| 0 <= i < since && committed[i] == k;
        assert committed[i].1 < committed[j].1;
      }
    }
  }

  /** The committed version lies above all committed ones of its recipe. */
  lemma {:induction false} CommitGrows(disk: Disk, contents: map<Version, LinkedModule>, finalized: seq<Version>,
                                       committed: seq<Version>, name: string, v: nat)
    requires DirsOk(disk, contents, finalized) && Increasing(committed) && Tabled(disk.deployed, committed)
    requires (name, v) !in disk.deployed && Above(contents, name, v + 1)
    ensures Increasing(committed + [(name, v)])
  {
    hide VersionDir, ParseVersion;
    var log := committed + [(name, v)];
    forall i, j | 0 <= i < j < |log| && log[i].0 == log[j].0 ensures log[i].1 < log[j].1 {
      if j == |committed| {
        assert committed[i] in committed;
        assert disk.Used(committed[i].0, committed[i].1);
      }
    }
  }

  lemma {:induction false} HistoryGrows(disk: Disk, recipeOf: map<string, string>, history: seq<Scheduled>,
                                        stale: Run, row: Scheduled)
    requires HistoryOk(disk, recipeOf, history) && RowOk(disk, recipeOf, stale)
    requires row.runId == stale.id && (row.recipeVersion.Some? ==> row.recipeVersion == stale.deployed)
    ensures HistoryOk(disk, recipeOf, history + [row])
  {
  }

  /** Nothing that loaded stops loading. */
  ghost predicate StillLoads(was: Disk, now: Disk) {
    forall name, v | was.Loadable(name, v) :: now.Loadable(name, v)
  }

  lemma {:induction false} PointersStay(was: Disk, now: Disk, recipeOf: map<string, string>,
                                        runs: map<string, Run>, inFlight: map<nat, InFlight>,
                                        history: seq<Scheduled>)
    requires StillLoads(was, now)
    requires RowsOk(was, recipeOf, runs) && CopiesOk(was, recipeOf, inFlight) && HistoryOk(was, recipeOf, history)
    ensures RowsOk(now, recipeOf, runs) && CopiesOk(now, recipeOf, inFlight) && HistoryOk(now, recipeOf, history)
  {
    forall id | id in runs ensures RowOk(now, recipeOf, runs[id]) {
      assert RowOk(was, recipeOf, runs[id]);
    }
    forall t | t in inFlight ensures RowOk(now, recipeOf, inFlight[t].run) {
      assert RowOk(was, recipeOf, inFlight[t].run);
    }
  }

  /** A work directory is no version, so nothing changes for versions. */
  lemma {:induction false} WriteKeeps(disk: Disk, contents: map<Version, LinkedModule>, finalized: seq<Version>,
                                      name: string, temp: string, m: LinkedModule)
    requires DirsOk(disk, contents, finalized) && ParseVersion(temp).None?
    ensures var now := disk.(files := disk.files[(name, temp) := m]);
      DirsOk(now, contents, finalized) && StillLoads(disk, now)
  {
    var now := disk.(files := disk.files[(name, temp) := m]);
    forall w: nat ensures VersionDir(w) != temp {
      VersionDirParses(w);
    }
    forall n, w: nat ensures now.Used(n, w) <==> (n, w) in contents {
      assert disk.Used(n, w) <==> (n, w) in contents;
    }
  }

  /** Renaming to an unused version adds exactly that version. */
  lemma {:induction false} RenameKeeps(disk: Disk, contents: map<Version, LinkedModule>, finalized: seq<Version>,
                                       name: string, v: nat, temp: string)
    requires DirsOk(disk, contents, finalized) && ParseVersion(temp).None? && (name, temp) in disk.files
    requires Above(contents, name, v)
    ensures (name, VersionDir(v)) !in disk.files && (name, v) !in disk.deployed
    ensures var m := disk.files[(name, temp)];
      var now := disk.(files := (disk.files - {(name, temp)})[(name, VersionDir(v)) := m]);
      DirsOk(now, contents[(name, v) := m], finalized + [(name, v)]) && StillLoads(disk, now)
  {
    assert !disk.Used(name, v) by { assert (name, v) !in contents; }
    var m := disk.files[(name, temp)];
    var now := disk.(files := (disk.files - {(name, temp)})[(name, VersionDir(v)) := m]);
    forall n, w: nat
      ensures (n, VersionDir(w)) in now.files <==> (n, VersionDir(w)) in disk.files || (n == name && w == v)
      ensures (n, VersionDir(w)) in now.files && (n, w) != (name, v)
          ==> now.files[(n, VersionDir(w))] == disk.files[(n, VersionDir(w))]
    {
      VersionDirParses(w);
      VersionDirParses(v);
    }
    forall n, w: nat ensures now.Used(n, w) <==> (n, w) in contents[(name, v) := m] {
      assert disk.Used(n, w) <==> (n, w) in contents;
    }
    LogGrows(contents, finalized, name, v);
  }

  lemma {:induction false} LogGrows(contents: map<Version, LinkedModule>, finalized: seq<Version>, name: string, v: nat)
    requires Increasing(finalized) && (forall k :: k in contents <==> k in finalized) && Above(contents, name, v)
    ensures Increasing(finalized + [(name, v)])
  {
    var log := finalized + [(name, v)];
    forall i, j | 0 <= i < j < |log| && log[i].0 == log[j].0 ensures log[i].1 < log[j].1 {
      if j == |finalized| {
        assert finalized[i] in finalized && finalized[i] in contents;
      }
    }
  }

  /** The committed row is loadable, and so is all that was. */
  lemma {:induction false} CommitKeeps(disk: Disk, contents: map<Version, LinkedModule>, finalized: seq<Version>,
                                       name: string, v: nat, now: int)
    requires DirsOk(disk, contents, finalized) && (name, v) in contents
    ensures var after := disk.(deployed := disk.deployed[(name, v) := now]);
      DirsOk(after, contents, finalized) && StillLoads(disk, after) && after.Loadable(name, v)
  {
    var after := disk.(deployed := disk.deployed[(name, v) := now]);
    forall n, w: nat ensures after.Used(n, w) <==> (n, w) in contents {
      assert disk.Used(n, w) <==> (n, w) in contents;
    }
  }

  /** What the commit of a renamed version keeps; it is then the newest of its recipe. */
  lemma {:induction false} CommitStep(was: Disk, contents: map<Version, LinkedModule>, finalized: seq<Version>,
                                      recipeOf: map<string, string>, runs: map<string, Run>,
                                      inFlight: map<nat, InFlight>, history: seq<Scheduled>,
                                      committed: seq<Version>, began: map<nat, nat>, name: string, v: nat, now: int)
    requires DirsOk(was, contents, finalized) && CommitsOk(was.deployed, committed, inFlight, began)
    requires RowsOk(was, recipeOf, runs) && CopiesOk(was, recipeOf, inFlight) && HistoryOk(was, recipeOf, history)
    requires (name, v) in contents && (name, v) !in was.deployed && Above(contents, name, v + 1)
    ensures var after := was.(deployed := was.deployed[(name, v) := now]);
      && DirsOk(after, contents, finalized)
      && RowsOk(after, recipeOf, Repointed(runs, name, v))
      && CopiesOk(after, recipeOf, inFlight) && HistoryOk(after, recipeOf, history)
      && CommitsOk(after.deployed, committed + [(name, v)], inFlight, began)
      && IsMax(Some(v), VersionsOf(after.deployed, name))
  {
    var after := was.(deployed := was.deployed[(name, v) := now]);
    CommitKeeps(was, contents, finalized, name, v, now);
    CommitGrows(was, contents, finalized, committed, name, v);
    PointersStay(was, after, recipeOf, runs, inFlight, history);
    RepointedOk(after, recipeOf, runs, name, v);
    forall w | w in VersionsOf(after.deployed, name) ensures w <= v {
      assert (name, w) in after.deployed;
      assert after.Used(name, w);
    }
  }

  /** An execution that is dropped leaves the others as they were. */
  lemma {:induction false} CopyDropped(disk: Disk, recipeOf: map<string, string>, inFlight: map<nat, InFlight>,
                                       committed: seq<Version>, began: map<nat, nat>, task: nat)
    requires CopiesOk(disk, recipeOf, inFlight) && CommitsOk(disk.deployed, committed, inFlight, began)
    ensures CopiesOk(disk, recipeOf, inFlight - {task})
    ensures CommitsOk(disk.deployed, committed, inFlight - {task}, began)
  {
    forall t | t in inFlight - {task} ensures RowOk(disk, recipeOf, (inFlight - {task})[t].run) {
      assert RowOk(disk, recipeOf, inFlight[t].run);
    }
  }

  /** What a write-back keeps, and when the pointer it writes back is the newest. */
  lemma {:induction false} FinishStep(disk: Disk, recipeOf: map<string, string>, runs: map<string, Run>,
                                      inFlight: map<nat, InFlight>, history: seq<Scheduled>,
                                      committed: seq<Version>, began: map<nat, nat>, task: nat, run: Run,
                                      row: Scheduled)
    requires RowsOk(disk, recipeOf, runs) && CopiesOk(disk, recipeOf, inFlight) && HistoryOk(disk, recipeOf, history)
    requires CommitsOk(disk.deployed, committed, inFlight, began)
    requires task in inFlight && inFlight[task].run.id in runs
    requires run == inFlight[task].run.(health := run.health, nextRun := run.nextRun)
    requires row.runId == run.id && (row.recipeVersion.Some? ==> row.recipeVersion == run.deployed)
    ensures RowsOk(disk, recipeOf, runs[run.id := run]) && HistoryOk(disk, recipeOf, history + [row])
    ensures NewestUnlessCommitted(disk.deployed, committed, began[task], run)
  {
    var stale := inFlight[task].run;
    assert RowOk(disk, recipeOf, stale);
    HistoryGrows(disk, recipeOf, history, stale, row);
    RowWritten(disk, recipeOf, runs, run);
    NewestIff(disk.deployed, committed, began[task], run);
  }

  class Daemon {
    const cron: CronLib
    const cascade: bool
    var runs: map<string, Run>
    var history: seq<Scheduled>
    var deployed: map<Version, int>
    var files: map<(string, string), LinkedModule>
    var deploying: Option<Deploying>
    var inFlight: map<nat, InFlight>
    // The recipe each run id was created for; the versions renamed into place, in order; what each holds.
    ghost var recipeOf: map<string, string>
    ghost var finalized: seq<Version>
    ghost var contents: map<Version, LinkedModule>
    // The versions committed, in order; how many there were when each execution under way began.
    ghost var committed: seq<Version>
    ghost var began: map<nat, nat>

    function Storage(): Disk
      reads this
    {
      Disk(deployed, files)
    }

    ghost predicate Valid()
      reads this
    {
      && DirsOk(Storage(), contents, finalized)
      && NamesOk(files)
      && DeployOk(Storage(), contents, deploying)
      && RowsOk(Storage(), recipeOf, runs)
      && CopiesOk(Storage(), recipeOf, inFlight)
      && HistoryOk(Storage(), recipeOf, history)
      && CommitsOk(deployed, committed, inFlight, began)
    }

    constructor (cron: CronLib, cascade: bool)
      ensures Valid() && runs == map[] && deployed == map[] && deploying.None? && inFlight == map[]
    {
      this.cron, this.cascade := cron, cascade;
      runs, history, deployed, files := map[], [], map[], map[];
      deploying, inFlight := None, map[];
      recipeOf, finalized, contents := map[], [], map[];
      committed, began := [], map[];
    }

    // --- reading ---------------------------------------------------------------------

    method LatestDeployed(name: string) returns (v: Option<nat>)
      ensures IsMax(v, VersionsOf(deployed, name))
    {
      v := MaxOf(VersionsOf(deployed, name));
    }

    method LoadDeployed(name: string, v: nat) returns (r: Result<LinkedModule, DaemonError>)
      requires Valid()
      ensures r.Ok? <==> (name, v) in deployed
      ensures r.Ok? ==> (name, v) in contents && r.value == contents[(name, v)]
      ensures r.Err? ==> r.error == UnknownDeployment
    {
      if (name, v) !in deployed {
        return Err(UnknownDeployment);
      }
      assert Storage().Used(name, v);
      return Ok(files[(name, VersionDir(v))]);
    }

    // --- deploy: four sections ----------------------------------------------------------

    /** One more than the greatest version used, in the table or on disk. */
    method NextVersion(name: string) returns (next: nat)
      requires Valid()
      ensures next >= 1 && Above(contents, name, next)
      ensures next == 1 || (name, (next - 1) as nat) in contents
    {
      hide DirsOk, NamesOk, DeployOk, RowsOk, CopiesOk, HistoryOk, CommitsOk, VersionsIn, DirsOf;
      var dbMax := LatestDeployed(name);
      var fsMax := MaxVersionOnDisk(DirsOf(files, name));
      next := match (dbMax, fsMax)
        case (Some(a), Some(b)) => (if a >= b then a else b) + 1
        case (Some(a), None) => a + 1
        case (None, Some(b)) => b + 1
        case (None, None) => 1;
      forall k | k in contents && k.0 == name ensures k.1 < next {
        UsedIsScanned(Storage(), contents, finalized, name, k.1);
      }
      if next > 1 {
        ScannedIsUsed(Storage(), contents, finalized, name, next - 1);
      }
    }

    /** Takes the deploy lock and picks a version above every row and every directory. */
    method DeployPick(name: string, linked: LinkedModule) returns (r: Result<nat, DaemonError>)
      requires Valid() && deploying.None?
      modifies `deploying
      ensures Valid()
      ensures r.Ok? <==> linked.RootIs(name)
      ensures r.Ok? ==> deploying == Some(Picked(name, r.value, linked)) && r.value >= 1
      ensures r.Ok? ==> forall k | k in finalized && k.0 == name :: k.1 < r.value
      ensures r.Ok? ==> r.value == 1 || (name, (r.value - 1) as nat) in finalized
      ensures r.Err? ==> deploying.None? && r.error == BadModule
    {
      if !linked.RootIs(name) {
        return Err(BadModule);
      }
      var next := NextVersion(name);
      deploying := Some(Picked(name, next, linked));
      return Ok(next);
    }

    /** Writes the module into a work directory no version is named after. */
    method DeployWrite(tail: string)
      requires Valid() && deploying.Some? && deploying.value.Picked?
      modifies `deploying, `files
      ensures Valid()
      ensures deploying.Some? && deploying.value.Written? && deploying.value.name == old(deploying).value.name
      ensures deploying.value.version == old(deploying).value.version
          && deploying.value.linked == old(deploying).value.linked
      ensures files == old(files)[(old(deploying).value.name, deploying.value.temp) := old(deploying).value.linked]
    {
      hide RowsOk, CopiesOk, HistoryOk, CommitsOk;
      var d := deploying.value;
      var temp := TempDir(d.version, tail);
      TempDirIsNoVersion(d.version, tail);
      ghost var was := Storage();
      WriteKeeps(was, contents, finalized, d.name, temp, d.linked);
      files := files[(d.name, temp) := d.linked];
      deploying := Some(Written(d.name, d.version, d.linked, temp));
      PointersStay(was, Storage(), recipeOf, runs, inFlight, history);
    }

    /** Renames the work directory to its version. The target never exists beforehand. */
    method DeployRename()
      requires Valid() && deploying.Some? && deploying.value.Written?
      modifies `deploying, `files, `finalized, `contents
      ensures Valid()
      ensures var d := old(deploying).value;
        && (d.name, VersionDir(d.version)) !in old(files)
        && deploying == Some(Renamed(d.name, d.version))
        && files == (old(files) - {(d.name, d.temp)})[(d.name, VersionDir(d.version)) := d.linked]
        && finalized == old(finalized) + [(d.name, d.version)]
        && contents == old(contents)[(d.name, d.version) := d.linked]
    {
      hide RowsOk, CopiesOk, HistoryOk, CommitsOk, StillLoads, Increasing;
      var d := deploying.value;
      var target := (d.name, VersionDir(d.version));
      VersionDirParses(d.version);
      ghost var was := Storage();
      RenameKeeps(was, contents, finalized, d.name, d.version, d.temp);
      files := (files - {(d.name, d.temp)})[target := files[(d.name, d.temp)]];
      finalized := finalized + [(d.name, d.version)];
      contents := contents[(d.name, d.version) := d.linked];
      deploying := Some(Renamed(d.name, d.version));
      PointersStay(was, Storage(), recipeOf, runs, inFlight, history);
    }

    /** The transaction: the version row, and the run's pointer if the recipe has a run. */
    method DeployCommit(now: int, commits: bool) returns (r: Result<nat, DaemonError>)
      requires Valid() && deploying.Some? && deploying.value.Renamed?
      modifies `deploying, `deployed, `runs, `committed
      ensures Valid() && deploying.None?
      ensures r == if commits then Ok(old(deploying).value.version) else Err(StorageFailed)
      ensures !commits ==> deployed == old(deployed) && runs == old(runs) && committed == old(committed)
      ensures commits ==>
        var d := old(deploying).value;
        && deployed == old(deployed)[(d.name, d.version) := now]
        && Moved(old(runs), runs, d.name, d.version)
        && committed == old(committed) + [(d.name, d.version)]
        && IsMax(Some(d.version), VersionsOf(deployed, d.name))
        && forall id | id in runs && runs[id].recipe == d.name :: IsMax(runs[id].deployed, VersionsOf(deployed, d.name))
    {
      hide DirsOk, NamesOk, CommitsOk, RowsOk, CopiesOk, HistoryOk;
      var d := deploying.value;
      deploying := None;
      if !commits {
        return Err(StorageFailed);
      }
      CommitStep(Storage(), contents, finalized, recipeOf, runs, inFlight, history, committed, began, d.name, d.version,
                 now);
      committed := committed + [(d.name, d.version)];
      deployed := deployed[(d.name, d.version) := now];
      runs := Repointed(runs, d.name, d.version);
      return Ok(d.version);
    }

    /** The write or the rename fails: the lock is released, a work directory may stay. */
    method DeployAbandon()
      requires Valid()
      modifies `deploying
      ensures Valid() && deploying.None?
    {
      deploying := None;
    }

    /** A deploy from start to end, as a client sees it when nothing else comes between. */
    method DeployWhole(name: string, linked: LinkedModule, tail: string, now: int) returns (v: nat)
      requires Valid() && deploying.None? && linked.RootIs(name)
      modifies `deploying, `files, `finalized, `contents, `deployed, `runs, `committed
      ensures Valid() && deploying.None?
      ensures (name, v) !in old(deployed) && deployed == old(deployed)[(name, v) := now]
      ensures committed == old(committed) + [(name, v)] && Moved(old(runs), runs, name, v)
      ensures contents == old(contents)[(name, v) := linked] && IsMax(Some(v), VersionsOf(deployed, name))
    {
      hide DirsOk, NamesOk, RowsOk, CopiesOk, HistoryOk, CommitsOk;
      var picked := DeployPick(name, linked);
      DeployWrite(tail);
      DeployRename();
      var done := DeployCommit(now, true);
      v := done.value;
    }

    // --- runs ---------------------------------------------------------------------------

    method ConfiguredRow(was: Option<Run>, name: string, cfg: RunConfig, newId: string, now: int) returns (run: Run)
      requires was.Some? ==> was.value.recipe == name
      ensures Configured(cron, Storage(), was, name, cfg, newId, now, run)
    {
      match was {
        case Some(w) =>
          var health := if !cfg.enabled then Paused else if w.enabled then w.health else Unknown;
          run := w.(enabled := cfg.enabled, cadence := cfg.cadence, config := cfg.config, health := health,
            nextRun := None);
        case None =>
          var latest := LatestDeployed(name);
          var health := if cfg.enabled then Unknown else Paused;
          run := Run(newId, name, cfg.enabled, cfg.cadence, health, None, latest, cfg.config);
      }
      run := run.(nextRun := NextFireFor(cron, run.cadence, run.nextRun, now));
    }

    /** Creates or updates the run of a recipe. */
    method ConfigureRun(name: string, cfg: RunConfig, newId: string, now: int) returns (r: Result<Run, DaemonError>)
      requires Valid() && newId !in recipeOf
      modifies `runs, `recipeOf
      ensures Valid()
      ensures r.Err? <==> cfg.cadence.Cron? && !cron.parses(cfg.cadence.expr)
      ensures r.Err? ==> r.error == BadCron && runs == old(runs)
      ensures recipeOf == old(recipeOf) || recipeOf == old(recipeOf)[newId := name]
      ensures r.Ok? ==> runs == old(runs)[r.value.id := r.value]
      ensures r.Ok? ==>
        if r.value.id in old(runs) then
          old(runs)[r.value.id].recipe == name
          && Configured(cron, Storage(), Some(old(runs)[r.value.id]), name, cfg, newId, now, r.value)
        else
          (forall id | id in old(runs) :: old(runs)[id].recipe != name)
          && Configured(cron, Storage(), None, name, cfg, newId, now, r.value)
    {
      hide NamesOk, DeployOk, CopiesOk, HistoryOk, CommitsOk;
      if cfg.cadence.Cron? && !cron.parses(cfg.cadence.expr) {
        return Err(BadCron);
      }
      var run: Run;
      if id :| id in runs && runs[id].recipe == name {
        run := ConfiguredRow(Some(runs[id]), name, cfg, newId, now);
      } else {
        run := ConfiguredRow(None, name, cfg, newId, now);
        NewId(Storage(), recipeOf, runs, inFlight, history, newId, name);
        recipeOf := recipeOf[newId := name];
        assert run.deployed.Some? ==> Storage().Loadable(name, run.deployed.value) by {
          if run.deployed.Some? {
            assert (name, run.deployed.value) in deployed;
            assert Storage().Used(name, run.deployed.value);
          }
        }
        assert newId !in runs;
      }
      RowWritten(Storage(), recipeOf, runs, run);
      runs := runs[run.id := run];
      return Ok(run);
    }

    method RemoveRun(id: string) returns (r: Result<(), DaemonError>)
      requires Valid()
      modifies `runs, `history
      ensures Valid()
      ensures r == if id in old(runs) then Ok(()) else Err(UnknownRun)
      ensures runs == old(runs) - {id}
      ensures forall h :: h in history <==> h in old(history) && !(cascade && id in old(runs) && h.runId == id)
    {
      hide DirsOk, NamesOk, DeployOk, CopiesOk, CommitsOk;
      if id !in runs {
        assert runs == runs - {id};
        return Err(UnknownRun);
      }
      runs := runs - {id};
      if cascade {
        history := Others(history, id);
        OthersMeaning(old(history), id);
      }
      return Ok(());
    }

    /** The first read of an execution, or of a synthetic failure. */
    method RunStart(task: nat, id: string, now: int) returns (r: Result<Run, DaemonError>)
      requires Valid() && task !in inFlight
      modifies `inFlight, `began
      ensures Valid()
      ensures id !in runs ==> r == Err(UnknownRun) && inFlight == old(inFlight)
      ensures id in runs ==> r == Ok(runs[id]) && inFlight == old(inFlight)[task := InFlight(runs[id], now)]
      ensures id in runs ==>
        && began[task] == |committed|
        && forall p :: IsMax(p, VersionsOf(deployed, runs[id].recipe)) <==>
                       IsMax(p, CommittedOf(committed, runs[id].recipe))
    {
      hide DirsOk, NamesOk, DeployOk, HistoryOk;
      if id !in runs {
        return Err(UnknownRun);
      }
      inFlight := inFlight[task := InFlight(runs[id], now)];
      began := began[task := |committed|];
      assert VersionsOf(deployed, runs[id].recipe) == CommittedOf(committed, runs[id].recipe);
      return Ok(runs[id]);
    }

    /** The execution itself: it resolves the version the row names, and loading that never fails. */
    method Execute(task: nat, engine: LinkedModule -> Result<Counts, string>)
      returns (ok: bool, counts: Counts, version: Option<nat>)
      requires Valid() && task in inFlight
      ensures version == inFlight[task].run.deployed
      ensures version.None? ==> !ok && counts == map[]
      ensures version.Some? ==>
        && (inFlight[task].run.recipe, version.value) in contents
        && var e := engine(contents[(inFlight[task].run.recipe, version.value)]);
           ok == e.Ok? && counts == if e.Ok? then e.value else map[]
    {
      var run := inFlight[task].run;
      version := run.deployed;
      if version.None? {
        return false, map[], None;
      }
      assert Storage().Loadable(run.recipe, version.value);
      var loaded := LoadDeployed(run.recipe, version.value);
      var e := engine(loaded.value);
      ok := e.Ok?;
      counts := if e.Ok? then e.value else map[];
    }

    method FinishedRow(stale: Run, row: Scheduled, recorded: seq<Scheduled>, now: int) returns (run: Run)
      ensures Finished(cron, stale, row, recorded, now, run)
    {
      var prior := ListPriorOk(recorded, stale.id, row.at, PRIOR_WINDOW);
      var health := DeriveHealth(row.ok, row.counts, CountsOf(prior));
      if !stale.enabled {
        health := Paused;
      }
      var next := Advance(cron, stale.cadence, stale.nextRun, now);
      run := stale.(health := health, nextRun := next);
    }

    // The write-back: history row, health, next run, and with them the whole stale row. A pointer that was the newest
    // when the execution began is the newest after it exactly when no version of the recipe was committed meanwhile.
    method RunFinish(task: nat, ok: bool, counts: Counts, now: int, commits: bool)
      returns (r: Result<Scheduled, DaemonError>)
      requires Valid() && task in inFlight
      requires inFlight[task].run.deployed.None? ==> !ok
      modifies `inFlight, `history, `runs
      ensures Valid()
      ensures inFlight == old(inFlight) - {task}
      ensures var stale := old(inFlight)[task].run;
        if stale.id !in old(runs) || !commits then
          r.Err? && runs == old(runs) && history == old(history)
        else
          && r == Ok(Scheduled(stale.id, old(inFlight)[task].startedAt, ok, counts, stale.deployed))
          && history == old(history) + [r.value]
          && stale.id in runs && runs == old(runs)[stale.id := runs[stale.id]]
          && Finished(cron, stale, r.value, history, now, runs[stale.id])
          && NewestUnlessCommitted(deployed, committed, old(began)[task], runs[stale.id])
    {
      hide DirsOk, NamesOk, CommitsOk, RowsOk, CopiesOk, HistoryOk, DeployOk;
      var stale, at := inFlight[task].run, inFlight[task].startedAt;
      CopyDropped(Storage(), recipeOf, inFlight, committed, began, task);
      if stale.id !in runs {
        inFlight := inFlight - {task};
        return Err(UnknownRun);
      }
      if !commits {
        inFlight := inFlight - {task};
        return Err(StorageFailed);
      }
      var row := Scheduled(stale.id, at, ok, counts, stale.deployed);
      var run := FinishedRow(stale, row, history + [row], now);
      FinishStep(Storage(), recipeOf, runs, inFlight, history, committed, began, task, run, row);
      inFlight := inFlight - {task};
      history := history + [row];
      runs := runs[stale.id := run];
      return Ok(row);
    }

    /** The write-back of a synthetic failure. */
    method SyntheticFinish(task: nat, commits: bool) returns (r: Result<(), DaemonError>)
      requires Valid() && task in inFlight
      modifies `inFlight, `history, `runs
      ensures Valid()
      ensures inFlight == old(inFlight) - {task}
      ensures var stale := old(inFlight)[task].run;
        if stale.id !in old(runs) || !commits then r.Err? && runs == old(runs) && history == old(history)
        else
          && r.Ok? && runs == old(runs)[stale.id := stale.(health := Failed, nextRun := None)]
          && NewestUnlessCommitted(deployed, committed, old(began)[task], runs[stale.id])
          && history == old(history) + [Scheduled(stale.id, old(inFlight)[task].startedAt, false, map[], None)]
    {
      hide DirsOk, NamesOk, CommitsOk, RowsOk, CopiesOk, HistoryOk, DeployOk;
      var stale, at := inFlight[task].run, inFlight[task].startedAt;
      CopyDropped(Storage(), recipeOf, inFlight, committed, began, task);
      if stale.id !in runs {
        inFlight := inFlight - {task};
        return Err(UnknownRun);
      }
      if !commits {
        inFlight := inFlight - {task};
        return Err(StorageFailed);
      }
      var row := Scheduled(stale.id, at, false, map[], None);
      var run := stale.(health := Failed, nextRun := None);
      FinishStep(Storage(), recipeOf, runs, inFlight, history, committed, began, task, run, row);
      inFlight := inFlight - {task};
      history := history + [row];
      runs := runs[stale.id := run];
      return Ok(());
    }

    // A deploy that falls between an execution's read and its write-back is lost from the row: from any state with the
    // deploy lock free, a run can end up pointing at the version it had, with a newer one deployed.
    method FinishAcrossDeploy(task: nat, id: string, linked: LinkedModule, tail: string, now: int,
                              engine: LinkedModule -> Result<Counts, string>)
      requires Valid() && deploying.None? && task !in inFlight && id in runs && linked.RootIs(runs[id].recipe)
      modifies this
      ensures Valid() && id in runs && runs[id].deployed == old(runs)[id].deployed
      ensures !IsMax(runs[id].deployed, VersionsOf(deployed, runs[id].recipe))
    {
      hide DirsOk, NamesOk, DeployOk, CopiesOk, HistoryOk, CommitsOk, NewestUnlessCommitted, IsPriorOk, IsMax;
      assert RowOk(Storage(), recipeOf, runs[id]);
      var started := RunStart(task, id, now);
      var v := DeployWhole(started.value.recipe, linked, tail, now);
      var ok, counts, _ := Execute(task, engine);
      var row := RunFinish(task, ok, counts, now, true);
      OneMax(v, started.value.deployed, VersionsOf(deployed, started.value.recipe));
    }

    /** One section of a deploy, if it can come now. */
    method PerformDeploy(d: DeploySection)
      requires Valid()
      modifies `deploying, `files, `finalized, `contents, `deployed, `runs, `committed
      ensures Valid() && old(committed) <= committed
      ensures old(finalized) <= finalized && old(deployed).Keys <= deployed.Keys
      ensures forall k | k in old(contents) :: k in contents && contents[k] == old(contents)[k]
    {
      hide NamesOk, RowsOk, CopiesOk, HistoryOk, CommitsOk;
      match d {
        case Pick(name, linked) => if deploying.None? { var _ := DeployPick(name, linked); }
        case Write(tail) => if deploying.Some? && deploying.value.Picked? { DeployWrite(tail); }
        case Rename =>
          if deploying.Some? && deploying.value.Written? {
            assert (deploying.value.name, deploying.value.version) !in contents;
            DeployRename();
          }
        case Commit(now, commits) =>
          if deploying.Some? && deploying.value.Renamed? { var _ := DeployCommit(now, commits); }
        case Abandon => DeployAbandon();
      }
    }

    /** One section about runs; a generated run id has never been used. */
    method PerformRun(r: RunSection)
      requires Valid() && (r.Configure? ==> r.newId !in recipeOf)
      modifies `runs, `history, `inFlight, `recipeOf, `began
      ensures Valid()
      ensures recipeOf == old(recipeOf) || (r.Configure? && recipeOf == old(recipeOf)[r.newId := r.name])
    {
      hide DirsOk, NamesOk, DeployOk, RowsOk, CopiesOk, HistoryOk, CommitsOk;
      match r {
        case Configure(name, cfg, newId, now) => var _ := ConfigureRun(name, cfg, newId, now);
        case Remove(id) => var _ := RemoveRun(id);
        case Start(task, id, now) => if task !in inFlight { var _ := RunStart(task, id, now); }
        case Finish(task, engine, now, commits) =>
          if task in inFlight {
            var ok, counts, _ := Execute(task, engine);
            var _ := RunFinish(task, ok, counts, now, commits);
          }
        case FinishSynthetic(task, commits) => if task in inFlight { var _ := SyntheticFinish(task, commits); }
      }
    }

    // However the sections interleave and wherever the process stops, the daemon stays valid, versions only
    // grow and directories keep their modules.
    method Trace(events: seq<Event>)
      requires Valid()
      requires forall i, id | 0 <= i < |events| && Creates(events[i], id) ::
        id !in recipeOf && forall j | 0 <= j < i :: !Creates(events[j], id)
      modifies this
      ensures Valid() && old(committed) <= committed
      ensures old(finalized) <= finalized && old(deployed).Keys <= deployed.Keys
      ensures forall k | k in old(contents) :: k in contents && contents[k] == old(contents)[k]
    {
      hide DirsOk, NamesOk, DeployOk, RowsOk, CopiesOk, HistoryOk, CommitsOk;
      var i := 0;
      while i < |events|
        invariant 0 <= i <= |events| && Valid() && old(committed) <= committed
        invariant old(finalized) <= finalized && old(deployed).Keys <= deployed.Keys
        invariant forall k | k in old(contents) :: k in contents && contents[k] == old(contents)[k]
        invariant forall j, id | i <= j < |events| && Creates(events[j], id) :: id !in recipeOf
      {
        match events[i] {
          case Deploy(d) => PerformDeploy(d);
          case OnRun(r) =>
            assert r.Configure? ==> Creates(events[i], r.newId);
            PerformRun(r);
          case Stop => Crash();
        }
        i := i + 1;
      }
    }

    /** The process stops: whatever was under way is forgotten, tables and directories stay. */
    method Crash()
      requires Valid()
      modifies `deploying, `inFlight
      ensures Valid() && deploying.None? && inFlight == map[]
    {
      deploying, inFlight := None, map[];
    }
  }

  datatype DeploySection =
    | Pick(name: string, linked: LinkedModule)
    | Write(tail: string)
    | Rename
    | Commit(now: int, commits: bool)
    | Abandon

  datatype RunSection =
    | Configure(name: string, cfg: RunConfig, newId: string, now: int)
    | Remove(id: string)
    | Start(task: nat, id: string, now: int)
    | Finish(task: nat, engine: LinkedModule -> Result<Counts, string>, now: int, commits: bool)
    | FinishSynthetic(task: nat, commits: bool)

  datatype Event = Deploy(d: DeploySection) | OnRun(r: RunSection) | Stop

  predicate Creates(e: Event, id: string) {
    e.OnRun? && e.r.Configure? && e.r.newId == id
  }

  function Others(history: seq<Scheduled>, id: string): seq<Scheduled> {
    if history == [] then []
    else (if history[0].runId == id then [] else [history[0]]) + Others(history[1..], id)
  }

  lemma {:induction false} OthersMeaning(history: seq<Scheduled>, id: string)
    ensures forall h :: h in Others(history, id) <==> h in history && h.runId != id
  {
    if history != [] {
      OthersMeaning(history[1..], id);
      assert history == [history[0]] + history[1..];
    }
  }

  // --- the window of prior executions ---------------------------------------------------

  function InsertNewest(x: Scheduled, s: seq<Scheduled>): seq<Scheduled> {
    if s == [] || x.at >= s[0].at then [x] + s else [s[0]] + InsertNewest(x, s[1..])
  }

  function NewestFirst(s: seq<Scheduled>): seq<Scheduled> {
    if s == [] then [] else InsertNewest(s[0], NewestFirst(s[1..]))
  }

  ghost predicate Descending(s: seq<Scheduled>) {
    forall i, j | 0 <= i < j < |s| :: s[i].at >= s[j].at
  }

  lemma {:induction false} DescendingCons(h: Scheduled, s: seq<Scheduled>)
    requires Descending(s) && forall y | y in s :: h.at >= y.at
    ensures Descending([h] + s)
  {
  }

  lemma {:induction false} InsertNewestElements(x: Scheduled, s: seq<Scheduled>)
    ensures multiset(InsertNewest(x, s)) == multiset(s) + multiset{x}
  {
    if s != [] && x.at < s[0].at {
      InsertNewestElements(x, s[1..]);
      assert s == [s[0]] + s[1..];
    }
  }

  lemma {:induction false} InsertNewestDescends(x: Scheduled, s: seq<Scheduled>)
    requires Descending(s)
    ensures Descending(InsertNewest(x, s))
  {
    if s == [] || x.at >= s[0].at {
      DescendingCons(x, s);
    } else {
      InsertNewestDescends(x, s[1..]);
      InsertNewestElements(x, s[1..]);
      forall y | y in InsertNewest(x, s[1..]) ensures s[0].at >= y.at {
        assert y in multiset(InsertNewest(x, s[1..]));
        assert y == x || y in s[1..];
      }
      DescendingCons(s[0], InsertNewest(x, s[1..]));
    }
  }

  lemma {:induction false} NewestFirstMeaning(s: seq<Scheduled>)
    ensures Descending(NewestFirst(s)) && multiset(NewestFirst(s)) == multiset(s)
  {
    if s != [] {
      NewestFirstMeaning(s[1..]);
      InsertNewestElements(s[0], NewestFirst(s[1..]));
      InsertNewestDescends(s[0], NewestFirst(s[1..]));
      assert s == [s[0]] + s[1..];
    }
  }

  lemma {:induction false} CutInTwo(rows: seq<Scheduled>, k: nat)
    requires k <= |rows|
    ensures multiset(rows[..k]) + multiset(rows[k..]) == multiset(rows)
  {
    assert rows == rows[..k] + rows[k..];
  }

  lemma {:induction false} CutDescends(rows: seq<Scheduled>, k: nat)
    requires Descending(rows) && k <= |rows|
    ensures Descending(rows[..k])
    ensures forall x, y | x in rows[..k] && y in rows[k..] :: x.at >= y.at
  {
    forall x, y | x in rows[..k] && y in rows[k..] ensures x.at >= y.at {
      var i :| 0 <= i < k && rows[..k][i] == x;
      var j :| 0 <= j < |rows| - k && rows[k..][j] == y;
      assert rows[i] == x && rows[k + j] == y;
    }
  }

  lemma {:induction false} FirstRows(history: seq<Scheduled>, runId: string, at: int, limit: nat,
                                     rows: seq<Scheduled>, k: nat)
    requires Descending(rows) && multiset(rows) == multiset(PriorOk(history, runId, at))
    requires k == if |rows| <= limit then |rows| else limit
    ensures IsPriorOk(history, runId, at, limit, rows[..k])
  {
    CutInTwo(rows, k);
    CutDescends(rows, k);
    assert OlderRest(rows[..k], rows[k..], limit);
    hide Partition, PriorOk, Descending, OlderRest;
    PartitionIs(history, runId, at, rows[..k], rows[k..]);
  }

  /** The window query: filter, newest first, cut off at the limit. */
  method ListPriorOk(history: seq<Scheduled>, runId: string, before: int, limit: nat) returns (r: seq<Scheduled>)
    ensures IsPriorOk(history, runId, before, limit, r)
  {
    hide IsPriorOk, PriorOk, NewestFirst, Descending;
    var rows := NewestFirst(PriorOk(history, runId, before));
    NewestFirstMeaning(PriorOk(history, runId, before));
    r := if |rows| <= limit then rows else rows[..limit];
    assert r == rows[..|r|];
    FirstRows(history, runId, before, limit, rows, |r|);
  }
}
