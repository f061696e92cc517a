/** The app and job tables, the sections that change them under the database lock, and the files beside them. */
module AppStore {
  import opened Wrappers

  type AppId = nat
  type DeviceId = nat
  type JobId = nat
  type SourceId = nat
  type Bundle = nat
  type Sha = string

  /** The file name of an app in the apps directory: the app's id and, after a replacement, a digest prefix. */
  datatype Path = Path(app: AppId, tag: Option<string>)

  datatype App = App(path: Path, sha: Sha, bundle: Option<Bundle>, deleted: bool)

  datatype Phase = Queued | Connecting | Signing | Transferring | Installing | Succeeded | Failed

  predicate IsActive(phase: Phase) {
    phase in {Queued, Connecting, Signing, Transferring, Installing}
  }

  datatype Job = Job(app: AppId, device: DeviceId, phase: Phase)

  /** `settings` stands for owner, repository, asset pattern and pre-release choice. */
  datatype Source = Source(app: Option<AppId>, settings: nat)

  datatype Tables = Tables(apps: map<AppId, App>, jobs: map<JobId, Job>, sources: map<SourceId, Source>, files: set<Path>)

  // ----- the queries and updates of the store

  function AppPath(t: Tables, app: AppId): Option<Path> {
    if app in t.apps && !t.apps[app].deleted then Some(t.apps[app].path) else None
  }

  predicate ActiveForApp(t: Tables, app: AppId) {
    exists j :: j in t.jobs && t.jobs[j].app == app && IsActive(t.jobs[j].phase)
  }

  predicate ActiveForPair(t: Tables, app: AppId, device: DeviceId) {
    exists j :: j in t.jobs && t.jobs[j].app == app && t.jobs[j].device == device && IsActive(t.jobs[j].phase)
  }

  /** `INSERT … SELECT` from a live app: no row when the app is gone. */
  function InsertJob(t: Tables, id: JobId, app: AppId, device: DeviceId): Tables {
    if AppPath(t, app).Some? then t.(jobs := t.jobs[id := Job(app, device, Queued)]) else t
  }

  function UpdateStatus(t: Tables, id: JobId, phase: Phase): Tables {
    if id in t.jobs then t.(jobs := t.jobs[id := t.jobs[id].(phase := phase)]) else t
  }

  function SetDeleted(t: Tables, app: AppId, deleted: bool): Tables {
    if app in t.apps then t.(apps := t.apps[app := t.apps[app].(deleted := deleted)]) else t
  }

  datatype Deletion = DeletionReady(path: Path) | ActiveJob | NoApp

  function Deletable(t: Tables, app: AppId): Deletion {
    if AppPath(t, app).None? then NoApp
    else if ActiveForApp(t, app) then ActiveJob
    else DeletionReady(AppPath(t, app).value)
  }

  /** Both columns are unique over all rows, deleted ones included. */
  predicate Clashes(t: Tables, app: AppId, path: Path, sha: Sha) {
    exists other :: other in t.apps && other != app && (t.apps[other].path == path || t.apps[other].sha == sha)
  }

  // ----- the locked section of a source download

  /** A downloaded and inspected file; `seen` is the source row read before the download. */
  datatype Download = Download(source: SourceId, seen: Source, sha: Sha, bundle: Bundle, newApp: AppId)

  datatype Committed = Unchanged | Replaced(former: Path) | Rejected(finalized: Option<Path>)

  function ReplacementPath(app: AppId, sha: Sha): Path {
    Path(app, Some(sha[..if |sha| < 12 then |sha| else 12]))
  }

  predicate MayReplace(t: Tables, d: Download) {
    && d.source in t.sources && t.sources[d.source] == d.seen
    && (d.seen.app.Some? ==>
          && d.seen.app.value in t.apps
          && !ActiveForApp(t, d.seen.app.value)
          && t.apps[d.seen.app.value].bundle == Some(d.bundle))
  }

  predicate AlreadyThere(t: Tables, d: Download)
    requires d.seen.app.Some? && d.seen.app.value in t.apps
  {
    t.apps[d.seen.app.value].sha == d.sha && t.apps[d.seen.app.value].path in t.files
  }

  /** The app the download is for, and where its file goes. */
  function TargetApp(d: Download): AppId {
    if d.seen.app.Some? then d.seen.app.value else d.newApp
  }

  function FinalPath(d: Download): Path {
    if d.seen.app.Some? then ReplacementPath(d.seen.app.value, d.sha) else Path(d.newApp, None)
  }

  /** The row is written by one transaction for a linked source, and by three statements otherwise; `written` of them succeed. */
  function WriteRows(t: Tables, d: Download, written: nat): Tables {
    var app := App(FinalPath(d), d.sha, Some(d.bundle), false);
    if written == 0 || Clashes(t, TargetApp(d), FinalPath(d), d.sha) then t
    else if d.seen.app.Some? || written == 1 then t.(apps := t.apps[TargetApp(d) := app])
    else t.(apps := t.apps[d.newApp := app], sources := t.sources[d.source := d.seen.(app := Some(d.newApp))])
  }

  predicate RowsWritten(t: Tables, d: Download, written: nat) {
    !Clashes(t, TargetApp(d), FinalPath(d), d.sha) && (if d.seen.app.Some? then written >= 1 else written >= 3)
  }

  function Commit(t: Tables, d: Download, renamed: bool, written: nat): (Tables, Committed) {
    if !MayReplace(t, d) then (t, Rejected(None))
    else if d.seen.app.Some? && AlreadyThere(t, d) then (t, if written == 0 then Rejected(None) else Unchanged)
    else if !renamed then (t, Rejected(None))
    else
      var moved := t.(files := t.files + {FinalPath(d)});
      (WriteRows(moved, d, written),
       if !RowsWritten(t, d, written) then Rejected(Some(FinalPath(d)))
       else Replaced(if d.seen.app.Some? then t.apps[d.seen.app.value].path else FinalPath(d)))
  }

  /** After the section: remove the replaced file, or the file of a failed commit. */
  function Clean(t: Tables, c: Committed, removed: bool): Tables {
    if !removed then t
    else
      match c
      case Replaced(former) => t.(files := t.files - {former})
      case Rejected(Some(path)) => t.(files := t.files - {path})
      case _ => t
  }

  datatype Target = Target(app: AppId, device: DeviceId, path: Path)

  class AppDatabase {
    var apps: map<AppId, App>
    var jobs: map<JobId, Job>
    var sources: map<SourceId, Source>
    var files: set<Path>

    function View(): Tables
      reads this
    {
      Tables(apps, jobs, sources, files)
    }

    constructor ()
      ensures View() == Tables(map[], map[], map[], {})
    {
      apps, jobs, sources, files := map[], map[], map[], {};
    }

    method Insert(id: JobId, app: AppId, device: DeviceId)
      modifies this`jobs
      ensures View() == InsertJob(old(View()), id, app, device)
    {
      if app in apps && !apps[app].deleted {
        jobs := jobs[id := Job(app, device, Queued)];
      }
    }

    method UpdateJobStatus(id: JobId, phase: Phase)
      modifies this`jobs
      ensures View() == UpdateStatus(old(View()), id, phase)
    {
      if id in jobs {
        jobs := jobs[id := jobs[id].(phase := phase)];
      }
    }

    /** Two statements: the app's row, then its sources' rows. If the second fails, so does the call, and the first stays. */
    method MarkAppDeleted(app: AppId, sourcesUpdated: bool) returns (r: Option<Deletion>)
      modifies this`apps
      ensures r == if Deletable(old(View()), app).DeletionReady? && !sourcesUpdated then None else Some(Deletable(old(View()), app))
      ensures View() == if Deletable(old(View()), app).DeletionReady? then SetDeleted(old(View()), app, true) else old(View())
      ensures
        var live := app in old(apps) && !old(apps)[app].deleted;
        && (r == Some(NoApp) <==> !live)
        && (r == Some(ActiveJob) <==> live && Busy(old(View()), app))
        && (if live && !Busy(old(View()), app) then
              && r == (if sourcesUpdated then Some(DeletionReady(old(apps)[app].path)) else None)
              && apps == old(apps)[app := old(apps)[app].(deleted := true)]
            else
              apps == old(apps))
    {
      BusyIsActive(View(), app);
      if app !in apps || apps[app].deleted {
        return Some(NoApp);
      }
      if ActiveForApp(View(), app) {
        return Some(ActiveJob);
      }
      var path := apps[app].path;
      apps := apps[app := apps[app].(deleted := true)];
      return if sourcesUpdated then Some(DeletionReady(path)) else None;
    }

    /**
     `delete_ipa` under the write lock. `removed` says that the file is gone in the end; if it is not,
     the app comes back unless restoring its row fails too. A deletion that fails half way leaves the
     app deleted and its file in place.
     */
    method DeleteIpa(app: AppId, sourcesUpdated: bool, removed: bool, restored: bool) returns (r: Option<Deletion>)
      modifies this
      ensures
        var before := old(View());
        var answer := Deletable(before, app);
        && r == (if answer.DeletionReady? && !sourcesUpdated then None else Some(answer))
        && (!answer.DeletionReady? || (sourcesUpdated && !removed && restored) ==> View() == before)
        && (answer.DeletionReady? && sourcesUpdated && removed ==>
              View() == SetDeleted(before, app, true).(files := before.files - {answer.path}))
        && (answer.DeletionReady? && (!sourcesUpdated || (!removed && !restored)) ==> View() == SetDeleted(before, app, true))
    {
      r := MarkAppDeleted(app, sourcesUpdated);
      if r.Some? && r.value.DeletionReady? {
        if removed {
          files := files - {r.value.path};
        } else if restored {
          apps := apps[app := apps[app].(deleted := false)];
        }
      }
    }

    /**
     The last section of `create_install_job`: the path and the job come from one section, so the
     install starts from the path of a live app, and from then on a deletion is refused.
     */
    method CreateJob(id: JobId, app: AppId, device: DeviceId) returns (path: Option<Path>)
      requires id !in jobs
      modifies this`jobs
      ensures path == AppPath(old(View()), app)
      ensures path == if app in apps && !apps[app].deleted then Some(apps[app].path) else None
      ensures path.Some? ==> Deletable(View(), app) == ActiveJob && ActiveForPair(View(), app, device)
      ensures jobs == if path.Some? then old(jobs)[id := Job(app, device, Queued)] else old(jobs)
    {
      path := AppPath(View(), app);
      if path.Some? {
        Insert(id, app, device);
        assert id in jobs && jobs[id] == Job(app, device, Queued);
      }
    }

    /**
     The status writes of `run_install_job`, if each succeeds and nothing interrupts them: whatever
     the progress, the job ends, as a success exactly if the file was there and the install succeeded.
     */
    method RunInstallJob(id: JobId, present: bool, progress: seq<nat>, installed: bool)
      requires id in jobs
      modifies this`jobs
      ensures jobs == old(jobs)[id := old(jobs)[id].(phase := if present && installed then Succeeded else Failed)]
    {
      if !present {
        UpdateJobStatus(id, Failed);
        return;
      }
      UpdateJobStatus(id, Connecting);
      UpdateJobStatus(id, Signing);
      for i := 0 to |progress|
        invariant id in jobs && jobs[id] == old(jobs)[id].(phase := jobs[id].phase) && jobs == old(jobs)[id := jobs[id]]
      {
        UpdateJobStatus(id, if progress[i] >= 40 then Transferring else Signing);
      }
      UpdateJobStatus(id, if installed then Succeeded else Failed);
    }

    /** The locked section of `download` and the clean-up after it. */
    method FinishDownload(d: Download, renamed: bool, written: nat, removed: bool) returns (c: Committed)
      modifies this
      ensures
        var (committed, outcome) := Commit(old(View()), d, renamed, written);
        c == outcome && View() == Clean(committed, outcome, removed)
    {
      if d.source !in sources || sources[d.source] != d.seen {
        return Rejected(None);
      }
      var oldPath := None;
      if d.seen.app.Some? {
        var app := d.seen.app.value;
        if app !in apps || ActiveForApp(View(), app) || apps[app].bundle != Some(d.bundle) {
          return Rejected(None);
        }
        if apps[app].sha == d.sha && apps[app].path in files {
          return if written == 0 then Rejected(None) else Unchanged;
        }
        oldPath := Some(apps[app].path);
      } else {
        oldPath := Some(FinalPath(d));
      }
      if !renamed {
        return Rejected(None);
      }
      var final := FinalPath(d);
      var done := RowsWritten(View(), d, written);
      assert Clashes(View(), TargetApp(d), final, d.sha) == Clashes(View().(files := files + {final}), TargetApp(d), final, d.sha);
      files := files + {final};
      var rows := WriteRows(View(), d, written);
      apps, sources := rows.apps, rows.sources;
      c := if done then Replaced(oldPath.value) else Rejected(Some(final));
      if removed {
        files := files - {if done then oldPath.value else final};
      }
    }

    /** The queueing loop of `trigger_refresh`; `ids` are fresh identifiers. */
    method QueueRefresh(targets: seq<Target>, devices: set<DeviceId>, ids: seq<JobId>) returns (queued: nat)
      requires |ids| == |targets| && (forall i, k :: 0 <= i < k < |ids| ==> ids[i] != ids[k])
      requires forall i :: 0 <= i < |ids| ==> ids[i] !in jobs
      requires forall i :: 0 <= i < |targets| ==> AppPath(View(), targets[i].app).Some?
      modifies this`jobs
      ensures forall j :: j in old(jobs) ==> j in jobs && jobs[j] == old(jobs)[j]
      ensures forall j :: j in jobs && j !in old(jobs) ==> NewlyQueued(old(View()), targets, devices, jobs[j])
      ensures forall j, k :: j in jobs && k in jobs && j !in old(jobs) && k !in old(jobs) && jobs[j] == jobs[k] ==> j == k
      ensures forall i :: 0 <= i < |targets| && targets[i].device in devices ==> ActiveForPair(View(), targets[i].app, targets[i].device)
      ensures queued == |jobs| - |old(jobs)|
    {
      queued := 0;
      for i := 0 to |targets|
        invariant forall k :: i <= k < |ids| ==> ids[k] !in jobs
        invariant Queueing(old(View()), View(), targets, devices, i)
        invariant queued == |jobs| - |old(jobs)|
      {
        var target := targets[i];
        QueueTarget(old(View()), View(), targets, devices, i, ids[i]);
        hide Queueing;
        if target.device in devices && !ActiveForPair(View(), target.app, target.device) {
          Insert(ids[i], target.app, target.device);
          queued := queued + 1;
        }
      }
    }
  }

  /** The first `i` targets have been looked at. */
  ghost predicate Queueing(before: Tables, now: Tables, targets: seq<Target>, devices: set<DeviceId>, i: nat)
    requires i <= |targets|
  {
    && now.apps == before.apps
    && (forall j :: j in before.jobs ==> j in now.jobs && now.jobs[j] == before.jobs[j])
    && (forall j :: j in now.jobs && j !in before.jobs ==> NewlyQueued(before, targets, devices, now.jobs[j]))
    && (forall j, k | j in now.jobs && k in now.jobs && j !in before.jobs && k !in before.jobs && now.jobs[j] == now.jobs[k] :: j == k)
    && (forall k :: 0 <= k < i && targets[k].device in devices ==> ActiveForPair(now, targets[k].app, targets[k].device))
  }

  lemma QueueTarget(before: Tables, now: Tables, targets: seq<Target>, devices: set<DeviceId>, i: nat, id: JobId)
    requires i < |targets| && Queueing(before, now, targets, devices, i) && id !in now.jobs
    ensures
      var target := targets[i];
      var after := if target.device in devices && !ActiveForPair(now, target.app, target.device)
                   then now.(jobs := now.jobs[id := Job(target.app, target.device, Queued)]) else now;
      Queueing(before, after, targets, devices, i + 1)
  {
    hide ActiveForPair, NewlyQueued;
    var target := targets[i];
    if target.device in devices && !ActiveForPair(now, target.app, target.device) {
      var job := Job(target.app, target.device, Queued);
      QueueOne(before, now, targets, i, devices);
      NoneActive(now, target.app, target.device);
      var after := now.(jobs := now.jobs[id := job]);
      assert after.jobs[id] == job && forall j :: j in now.jobs ==> after.jobs[j] == now.jobs[j] != job;
      StillActive(now, after);
      NowActive(after, id);
    }
  }

  /** A job that a refresh adds: for a present due target whose pair had no active job. */
  predicate NewlyQueued(before: Tables, targets: seq<Target>, devices: set<DeviceId>, job: Job) {
    && job.phase == Queued && job.device in devices
    && !ActiveForPair(before, job.app, job.device)
    && exists i :: 0 <= i < |targets| && targets[i].app == job.app && targets[i].device == job.device
  }

  lemma QueueOne(before: Tables, now: Tables, targets: seq<Target>, i: nat, devices: set<DeviceId>)
    requires i < |targets| && targets[i].device in devices
    requires forall j :: j in before.jobs ==> j in now.jobs && now.jobs[j] == before.jobs[j]
    requires !ActiveForPair(now, targets[i].app, targets[i].device)
    ensures NewlyQueued(before, targets, devices, Job(targets[i].app, targets[i].device, Queued))
  {
    StillActive(before, now);
  }

  lemma NoneActive(t: Tables, app: AppId, device: DeviceId)
    requires !ActiveForPair(t, app, device)
    ensures forall j :: j in t.jobs ==> t.jobs[j] != Job(app, device, Queued)
  {
  }

  lemma NowActive(t: Tables, id: JobId)
    requires id in t.jobs && IsActive(t.jobs[id].phase)
    ensures ActiveForPair(t, t.jobs[id].app, t.jobs[id].device)
  {
  }

  lemma StillActive(before: Tables, after: Tables)
    requires forall j :: j in before.jobs ==> j in after.jobs && after.jobs[j] == before.jobs[j]
    ensures forall app, device :: ActiveForPair(before, app, device) ==> ActiveForPair(after, app, device)
  {
    forall app, device | ActiveForPair(before, app, device) ensures ActiveForPair(after, app, device) {
      var j: nat :| j in before.jobs && before.jobs[j].app == app && before.jobs[j].device == device && IsActive(before.jobs[j].phase);
      assert j in after.jobs;
    }
  }

  // ----- what a download may replace

  predicate Ended(job: Job) {
    job.phase.Succeeded? || job.phase.Failed?
  }

  /** The app has a job that has neither succeeded nor failed. */
  predicate Busy(t: Tables, app: AppId) {
    exists j :: j in t.jobs && t.jobs[j].app == app && !Ended(t.jobs[j])
  }

  /** The source is as it was read, and if it is linked its app is there, idle, and the same application. */
  predicate Replaceable(t: Tables, d: Download) {
    && d.source in t.sources && t.sources[d.source] == d.seen
    && (d.seen.app.Some? ==>
          && d.seen.app.value in t.apps && !Busy(t, d.seen.app.value)
          && t.apps[d.seen.app.value].bundle == Some(d.bundle))
  }

  lemma BusyIsActive(t: Tables, app: AppId)
    ensures ActiveForApp(t, app) <==> Busy(t, app)
  {
    if ActiveForApp(t, app) {
      var j: nat :| j in t.jobs && t.jobs[j].app == app && IsActive(t.jobs[j].phase);
    }
    if Busy(t, app) {
      var j: nat :| j in t.jobs && t.jobs[j].app == app && !Ended(t.jobs[j]);
      assert IsActive(t.jobs[j].phase);
    }
  }

  /** No app ever becomes another application, and a download that gets anywhere was for a replaceable app. */
  lemma DownloadKeepsTheApplication(t: Tables, d: Download, renamed: bool, written: nat)
    requires d.newApp !in t.apps
    ensures
      var (after, outcome) := Commit(t, d, renamed, written);
      && (forall app :: app in t.apps ==> app in after.apps && after.apps[app].bundle == t.apps[app].bundle)
      && (outcome != Rejected(None) ==> Replaceable(t, d))
      && (!Replaceable(t, d) ==> after == t)
  {
    if d.seen.app.Some? {
      BusyIsActive(t, d.seen.app.value);
    }
    hide ActiveForApp, Busy, Clashes;
  }

  /** The stored file is the download's already. */
  predicate SameFile(t: Tables, d: Download) {
    d.seen.app.Some? && d.seen.app.value in t.apps && t.apps[d.seen.app.value].sha == d.sha && t.apps[d.seen.app.value].path in t.files
  }

  /**
   A download for a replaceable app, all of whose steps succeed, changes nothing exactly if the stored
   file is the same one, and otherwise stores the download's digest and application under its path.
   */
  lemma DownloadReplaces(t: Tables, d: Download, written: nat)
    requires Replaceable(t, d) && written >= 3
    requires
      var app := if d.seen.app.Some? then d.seen.app.value else d.newApp;
      var path := if d.seen.app.Some? then Path(app, Some(if |d.sha| <= 12 then d.sha else d.sha[..12])) else Path(app, None);
      forall other :: other in t.apps && other != app ==> t.apps[other].path != path && t.apps[other].sha != d.sha
    ensures
      var (after, outcome) := Commit(t, d, true, written);
      var app := if d.seen.app.Some? then d.seen.app.value else d.newApp;
      var path := if d.seen.app.Some? then Path(app, Some(if |d.sha| <= 12 then d.sha else d.sha[..12])) else Path(app, None);
      if SameFile(t, d) then
        outcome == Unchanged && after == t
      else
        && outcome == Replaced(if d.seen.app.Some? then t.apps[app].path else path)
        && after == Tables(t.apps[app := App(path, d.sha, Some(d.bundle), false)], t.jobs,
                           if d.seen.app.Some? then t.sources else t.sources[d.source := Source(Some(app), d.seen.settings)],
                           t.files + {path})
  {
    if d.seen.app.Some? {
      BusyIsActive(t, d.seen.app.value);
    }
    assert d.sha[..|d.sha|] == d.sha;
    hide ActiveForApp, Busy;
  }

  // ----- what a finished download leaves

  /**
   After a successful download the app's file exists exactly when the source was linked and the new
   path differs from the old one: the unlinked branch hands its own new file to the removal.
   */
  lemma DownloadKeepsItsFile(t: Tables, d: Download, renamed: bool, written: nat)
    requires Commit(t, d, renamed, written).1.Replaced?
    ensures
      var (committed, outcome) := Commit(t, d, renamed, written);
      var after := Clean(committed, outcome, true);
      && TargetApp(d) in after.apps && !after.apps[TargetApp(d)].deleted
      && (after.apps[TargetApp(d)].path in after.files
          <==> d.seen.app.Some? && t.apps[d.seen.app.value].path != ReplacementPath(d.seen.app.value, d.sha))
  {
    assert Clashes(t, TargetApp(d), FinalPath(d), d.sha) == Clashes(t.(files := t.files + {FinalPath(d)}), TargetApp(d), FinalPath(d), d.sha);
  }

  /** A refused download of a linked source keeps the app's row, and its file unless the refused file had taken its place. */
  lemma RefusedDownloadKeepsTheApp(t: Tables, d: Download, renamed: bool, written: nat)
    requires d.seen.app.Some? && d.seen.app.value in t.apps
    requires Commit(t, d, renamed, written).1.Rejected?
    ensures
      var (committed, outcome) := Commit(t, d, renamed, written);
      var after := Clean(committed, outcome, true);
      && after.apps == t.apps && after.sources == t.sources
      && (t.apps[d.seen.app.value].path in after.files
          <==> t.apps[d.seen.app.value].path in t.files && outcome.finalized != Some(t.apps[d.seen.app.value].path))
  {
    assert Clashes(t, TargetApp(d), FinalPath(d), d.sha) == Clashes(t.(files := t.files + {FinalPath(d)}), TargetApp(d), FinalPath(d), d.sha);
  }

  /**
   A download that should create its app and is refused leaves an app without a file exactly when
   the app's row was written but one of the two later statements failed.
   */
  lemma RefusedDownloadMayLeaveAnEmptyApp(t: Tables, d: Download, renamed: bool, written: nat)
    requires d.seen.app.None? && d.newApp !in t.apps
    requires Commit(t, d, renamed, written).1.Rejected?
    ensures
      var (committed, outcome) := Commit(t, d, renamed, written);
      var after := Clean(committed, outcome, true);
      && (d.newApp in after.apps <==> MayReplace(t, d) && renamed && 1 <= written <= 2 && !Clashes(t, d.newApp, FinalPath(d), d.sha))
      && (d.newApp in after.apps ==> !after.apps[d.newApp].deleted && after.apps[d.newApp].path !in after.files)
      && (d.newApp !in after.apps ==> after.apps == t.apps && after.sources == t.sources)
  {
    assert Clashes(t, TargetApp(d), FinalPath(d), d.sha) == Clashes(t.(files := t.files + {FinalPath(d)}), TargetApp(d), FinalPath(d), d.sha);
  }
}
