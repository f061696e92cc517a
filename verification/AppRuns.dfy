/**
 The app and job tables under concurrent requests. `create_install_job` and `trigger_refresh` hold
 `app_mutation` for reading; `delete_ipa` and the source download hold it for writing; every section
 under the database lock is one step. Install tasks hold no lock. A request may be dropped between its
 sections; a removal that it has begun then goes on without the lock.
 */
module AppRuns {
  import opened Wrappers
  import opened AppStore

  /**
   The install task of a job, with the path it was given. It runs until its final status or a restart.
   If it failed because signing timed out, its aborted signing step is `lingering`: the poll that the
   abort found under way may still report progress.
   */
  datatype Task = Task(path: Path, running: bool, lingering: bool)

  /** A request that holds `app_mutation`. */
  datatype Handler =
    | Creating(app: AppId, device: DeviceId)
    | Refreshing(targets: seq<Target>)
    | Deleting(app: AppId)
    | Removing(app: AppId, path: Path)
    | Downloading(d: Download)
    | Cleaning(committed: Committed)

  predicate Writes(h: Handler) {
    h.Deleting? || h.Removing? || h.Downloading? || h.Cleaning?
  }

  /** `loose` are the removals whose request was dropped: they have begun and hold no lock, and may land later or never. */
  datatype System = System(t: Tables, tasks: map<JobId, Task>, handlers: map<nat, Handler>, loose: multiset<Path>)

  datatype Action =
    | Begin(h: nat, handler: Handler)
    | End(h: nat)
    | CreateStep(h: nat, id: JobId)
    | TargetsStep(h: nat, pairs: seq<(AppId, DeviceId)>)
    | QueueStep(h: nat, id: JobId, present: bool)
    | MarkStep(h: nat, sourcesUpdated: bool)
    | RemoveStep(h: nat, removed: bool, restored: bool)
    | CommitStep(h: nat, renamed: bool, written: nat)
    | CleanStep(h: nat, removed: bool)
    | UploadStep(app: AppId, sha: Sha, bundle: Bundle)
    | SourceStep(source: SourceId, row: Source)
    | JobStep(id: JobId, phase: Phase, recorded: bool, lingers: bool)
    | LateStep(id: JobId, phase: Phase)
    | Restart
    | LandStep(path: Path)

  predicate Is(s: System, h: nat) {
    h in s.handlers
  }

  /** The lock is free for a reader when no writer holds it, and for a writer when nobody does. */
  predicate MayAcquire(s: System, handler: Handler) {
    if Writes(handler) then s.handlers == map[] else forall h :: h in s.handlers ==> !Writes(s.handlers[h])
  }

  function Release(s: System, h: nat, t: Tables): System {
    s.(t := t, handlers := s.handlers - {h})
  }

  function Continue(s: System, h: nat, t: Tables, handler: Handler): System {
    s.(t := t, handlers := s.handlers[h := handler])
  }

  function Spawn(s: System, id: JobId, app: AppId, device: DeviceId, path: Path): System {
    s.(t := InsertJob(s.t, id, app, device), tasks := s.tasks[id := Task(path, true, false)])
  }

  /** The file a request is about to remove. */
  function Doomed(handler: Handler): Option<Path> {
    match handler
    case Removing(_, path) => Some(path)
    case Cleaning(Replaced(former)) => Some(former)
    case Cleaning(Rejected(finalized)) => finalized
    case _ => None
  }

  function Loose(handler: Handler): multiset<Path> {
    if Doomed(handler).Some? then multiset{Doomed(handler).value} else multiset{}
  }

  /** The request is dropped because its client is gone; what it was removing may still be removed. */
  function EndNext(s: System, h: nat): System {
    if !Is(s, h) then s else s.(handlers := s.handlers - {h}, loose := s.loose + Loose(s.handlers[h]))
  }

  function LandNext(s: System, path: Path): System {
    if path !in s.loose then s else s.(t := s.t.(files := s.t.files - {path}), loose := s.loose - multiset{path})
  }

  function CreateNext(s: System, h: nat, id: JobId): System {
    if !Is(s, h) || !s.handlers[h].Creating? || id in s.tasks then s
    else
      var app := s.handlers[h].app;
      if AppPath(s.t, app).None? then Release(s, h, s.t)
      else
        var spawned := Spawn(s, id, app, s.handlers[h].device, AppPath(s.t, app).value);
        Release(spawned, h, spawned.t)
  }

  /** `refresh_due_targets` reads live apps and their paths; which of their pairs are due is left open here. */
  function TargetsNext(s: System, h: nat, pairs: seq<(AppId, DeviceId)>): System {
    if !Is(s, h) || !s.handlers[h].Refreshing? || (exists i :: 0 <= i < |pairs| && AppPath(s.t, pairs[i].0).None?) then s
    else Continue(s, h, s.t, Refreshing(seq(|pairs|, i requires 0 <= i < |pairs| && AppPath(s.t, pairs[i].0).Some? =>
                                                       Target(pairs[i].0, pairs[i].1, AppPath(s.t, pairs[i].0).value))))
  }

  function QueueNext(s: System, h: nat, id: JobId, present: bool): System {
    if !Is(s, h) || !s.handlers[h].Refreshing? || s.handlers[h].targets == [] || id in s.tasks then s
    else
      var target := s.handlers[h].targets[0];
      var rest := Refreshing(s.handlers[h].targets[1..]);
      if !present || ActiveForPair(s.t, target.app, target.device) then Continue(s, h, s.t, rest)
      else
        var spawned := Spawn(s, id, target.app, target.device, target.path);
        Continue(spawned, h, spawned.t, rest)
  }

  function MarkNext(s: System, h: nat, sourcesUpdated: bool): System {
    if !Is(s, h) || !s.handlers[h].Deleting? then s
    else
      var app := s.handlers[h].app;
      var answer := Deletable(s.t, app);
      if !answer.DeletionReady? then Release(s, h, s.t)
      else if !sourcesUpdated then Release(s, h, SetDeleted(s.t, app, true))
      else Continue(s, h, SetDeleted(s.t, app, true), Removing(app, answer.path))
  }

  function RemoveNext(s: System, h: nat, removed: bool, restored: bool): System {
    if !Is(s, h) || !s.handlers[h].Removing? then s
    else Release(s, h, if removed then s.t.(files := s.t.files - {s.handlers[h].path})
                       else if restored then SetDeleted(s.t, s.handlers[h].app, false) else s.t)
  }

  function CommitNext(s: System, h: nat, renamed: bool, written: nat): System {
    if !Is(s, h) || !s.handlers[h].Downloading? || s.handlers[h].d.newApp in s.t.apps then s
    else
      var (t, outcome) := Commit(s.t, s.handlers[h].d, renamed, written);
      Continue(s, h, t, Cleaning(outcome))
  }

  function CleanNext(s: System, h: nat, removed: bool): System {
    if !Is(s, h) || !s.handlers[h].Cleaning? then s else Release(s, h, Clean(s.t, s.handlers[h].committed, removed))
  }

  function UploadNext(s: System, app: AppId, sha: Sha, bundle: Bundle): System {
    if app in s.t.apps || Clashes(s.t, app, Path(app, None), sha) then s
    else s.(t := s.t.(apps := s.t.apps[app := App(Path(app, None), sha, Some(bundle), false)], files := s.t.files + {Path(app, None)}))
  }

  /** A status write of the running task; `set_job_status` ignores a write that fails. */
  function JobNext(s: System, id: JobId, phase: Phase, recorded: bool, lingers: bool): System {
    if id !in s.tasks || !s.tasks[id].running then s
    else s.(t := if recorded then UpdateStatus(s.t, id, phase) else s.t,
            tasks := s.tasks[id := s.tasks[id].(running := IsActive(phase), lingering := lingers && phase == Failed)])
  }

  /** The phases that progress reports write. */
  predicate IsProgress(phase: Phase) {
    phase in {Signing, Transferring}
  }

  /** A late progress report; `update_job_status` does not ask whether the job is over. */
  function LateNext(s: System, id: JobId, phase: Phase): System {
    if id !in s.tasks || !s.tasks[id].lingering || !IsProgress(phase) then s else s.(t := UpdateStatus(s.t, id, phase))
  }

  /** The server stops anywhere and starts again: requests and tasks are gone, their rows stay. */
  function RestartNext(s: System): System {
    s.(handlers := map[], loose := multiset{}, tasks := map id | id in s.tasks :: s.tasks[id].(running := false, lingering := false))
  }

  /** `strict` is the rule, which the code does not enforce, that an ended job gets no late report. */
  function Next(s: System, action: Action, strict: bool): System {
    match action
    case Begin(h, handler) =>
      if Is(s, h) || !MayAcquire(s, handler) || handler.Removing? || handler.Cleaning? || (handler.Refreshing? && handler.targets != []) then s
      else s.(handlers := s.handlers[h := handler])
    case End(h) => EndNext(s, h)
    case CreateStep(h, id) => CreateNext(s, h, id)
    case TargetsStep(h, pairs) => TargetsNext(s, h, pairs)
    case QueueStep(h, id, present) => QueueNext(s, h, id, present)
    case MarkStep(h, sourcesUpdated) => MarkNext(s, h, sourcesUpdated)
    case RemoveStep(h, removed, restored) => RemoveNext(s, h, removed, restored)
    case CommitStep(h, renamed, written) => CommitNext(s, h, renamed, written)
    case CleanStep(h, removed) => CleanNext(s, h, removed)
    case UploadStep(app, sha, bundle) => UploadNext(s, app, sha, bundle)
    case LandStep(path) => LandNext(s, path)
    case SourceStep(source, row) => s.(t := s.t.(sources := s.t.sources[source := row]))
    case _ => StatusNext(s, action, strict)
  }

  predicate Spawns(action: Action) {
    action.CreateStep? || action.QueueStep?
  }

  predicate IsStatus(action: Action) {
    action.JobStep? || action.LateStep? || action.Restart?
  }

  function StatusNext(s: System, action: Action, strict: bool): System
    requires IsStatus(action)
  {
    match action
    case JobStep(id, phase, recorded, lingers) => JobNext(s, id, phase, recorded, lingers)
    case LateStep(id, phase) => if strict then s else LateNext(s, id, phase)
    case Restart => RestartNext(s)
  }

  function Run(s: System, actions: seq<Action>, strict: bool): System {
    if actions == [] then s
    else Next(Run(s, actions[..|actions| - 1], strict), actions[|actions| - 1], strict)
  }

  /** A server that has not queued a job yet. */
  ghost predicate Start(s: System) {
    && s.handlers == map[] && s.tasks == map[] && s.t.jobs == map[] && s.loose == multiset{}
    && (forall app :: app in s.t.apps ==> s.t.apps[app].path.app == app)
  }

  predicate Active(s: System, j: JobId) {
    j in s.t.jobs && j in s.tasks && IsActive(s.t.jobs[j].phase)
  }

  // ----- what late reports cannot disturb

  predicate JobOk(s: System, j: JobId)
    requires j in s.t.jobs
  {
    && j in s.tasks && s.t.jobs[j].app in s.t.apps && s.tasks[j].path.app == s.t.jobs[j].app
    && (s.tasks[j].running ==> IsActive(s.t.jobs[j].phase))
  }

  predicate HandlerOk(t: Tables, handler: Handler) {
    match handler
    case Refreshing(targets) => forall i :: 0 <= i < |targets| ==> AppPath(t, targets[i].app) == Some(targets[i].path)
    case Removing(app, path) => app in t.apps && t.apps[app].deleted && t.apps[app].path == path
    case _ => true
  }

  /** Holders of the lock exclude each other as they should. */
  ghost predicate LockOk(s: System) {
    forall h, k :: h in s.handlers && k in s.handlers && Writes(s.handlers[h]) ==> h == k
  }

  predicate PathsOwned(t: Tables) {
    forall app :: app in t.apps ==> t.apps[app].path.app == app
  }

  ghost predicate Inv(s: System) {
    && LockOk(s) && PathsOwned(s.t)
    && (forall j :: j in s.tasks ==> j in s.t.jobs)
    && (forall j :: j in s.t.jobs ==> JobOk(s, j))
    && (forall h :: h in s.handlers ==> HandlerOk(s.t, s.handlers[h]))
  }

  lemma JobsHaveTasks(s: System)
    requires Inv(s)
    ensures forall j :: j in s.t.jobs <==> j in s.tasks
    ensures forall j :: j in s.tasks && s.tasks[j].running ==> Active(s, j)
  {
    forall j | j in s.t.jobs ensures j in s.tasks && (s.tasks[j].running ==> Active(s, j)) {
      assert JobOk(s, j);
    }
  }

  /** New jobs under a read lock. */
  lemma SpawnKeepsInv(s: System, h: nat, id: JobId, app: AppId, device: DeviceId, path: Path)
    requires Inv(s) && Is(s, h) && !Writes(s.handlers[h])
    requires id !in s.tasks && AppPath(s.t, app) == Some(path)
    ensures Inv(Spawn(s, id, app, device, path)) && Spawn(s, id, app, device, path).handlers == s.handlers
    ensures Spawn(s, id, app, device, path).t.apps == s.t.apps
  {
    var n := Spawn(s, id, app, device, path);
    forall j | j in n.t.jobs ensures JobOk(n, j) {
      if j != id {
        assert JobOk(s, j);
      }
    }
    forall k | k in n.handlers ensures HandlerOk(n.t, n.handlers[k]) {
      assert HandlerOk(s.t, s.handlers[k]);
    }
  }

  lemma ReleaseKeepsInv(s: System, h: nat)
    requires Inv(s)
    ensures Inv(Release(s, h, s.t))
  {
    var n := Release(s, h, s.t);
    forall j | j in n.t.jobs ensures JobOk(n, j) {
      assert JobOk(s, j);
    }
  }

  lemma ContinueKeepsInv(s: System, h: nat, handler: Handler)
    requires Inv(s) && Is(s, h) && HandlerOk(s.t, handler) && Writes(handler) == Writes(s.handlers[h])
    ensures Inv(Continue(s, h, s.t, handler))
  {
    var n := Continue(s, h, s.t, handler);
    forall j | j in n.t.jobs ensures JobOk(n, j) {
      assert JobOk(s, j);
    }
  }

  /** A writer may change the rows of apps; nobody else holds the lock. */
  lemma WriterKeepsInv(s: System, h: nat, t: Tables)
    requires Inv(s) && Is(s, h) && Writes(s.handlers[h])
    requires t.jobs == s.t.jobs && s.t.apps.Keys <= t.apps.Keys && PathsOwned(t)
    ensures Inv(Release(s, h, t))
    ensures forall handler: Handler :: Writes(handler) && HandlerOk(t, handler) ==> Inv(Continue(s, h, t, handler))
  {
    var n := Release(s, h, t);
    assert n.handlers == map[];
    forall j | j in n.t.jobs ensures JobOk(n, j) {
      assert JobOk(s, j);
    }
    forall handler: Handler | Writes(handler) && HandlerOk(t, handler) ensures Inv(Continue(s, h, t, handler)) {
      var m := Continue(s, h, t, handler);
      assert m.handlers == map[h := handler];
      forall j | j in m.t.jobs ensures JobOk(m, j) {
        assert JobOk(n, j);
      }
    }
  }

  lemma ReadersKeepInv(s: System, action: Action, strict: bool)
    requires Inv(s) && (action.CreateStep? || action.TargetsStep? || action.QueueStep?)
    ensures Inv(Next(s, action, strict))
  {
    var h := action.h;
    if action.CreateStep? && Is(s, h) && s.handlers[h].Creating? && action.id !in s.tasks {
      var app := s.handlers[h].app;
      if AppPath(s.t, app).None? {
        ReleaseKeepsInv(s, h);
      } else {
        SpawnKeepsInv(s, h, action.id, app, s.handlers[h].device, AppPath(s.t, app).value);
        ReleaseKeepsInv(Spawn(s, action.id, app, s.handlers[h].device, AppPath(s.t, app).value), h);
      }
    } else if action.TargetsStep? && Next(s, action, strict) != s {
      ContinueKeepsInv(s, h, Next(s, action, strict).handlers[h]);
    } else if action.QueueStep? && Is(s, h) && s.handlers[h].Refreshing? && s.handlers[h].targets != [] && action.id !in s.tasks {
      assert HandlerOk(s.t, s.handlers[h]);
      var target := s.handlers[h].targets[0];
      var rest := Refreshing(s.handlers[h].targets[1..]);
      assert HandlerOk(s.t, rest);
      if !action.present || ActiveForPair(s.t, target.app, target.device) {
        ContinueKeepsInv(s, h, rest);
      } else {
        SpawnKeepsInv(s, h, action.id, target.app, target.device, target.path);
        ContinueKeepsInv(Spawn(s, action.id, target.app, target.device, target.path), h, rest);
      }
    }
  }

  lemma CommitChangesOneApp(t: Tables, d: Download, renamed: bool, written: nat)
    requires PathsOwned(t) && d.newApp !in t.apps
    ensures
      var (after, outcome) := Commit(t, d, renamed, written);
      && after.jobs == t.jobs && t.apps.Keys <= after.apps.Keys && PathsOwned(after)
      && (forall app :: app != TargetApp(d) ==> AppPath(after, app) == AppPath(t, app))
      && (after.files == t.files || after.files == t.files + {FinalPath(d)})
      && (after != t || Doomed(Cleaning(outcome)).Some? ==> d.seen.app.None? || !ActiveForApp(t, TargetApp(d)))
      && (Doomed(Cleaning(outcome)).Some? ==> Doomed(Cleaning(outcome)).value.app == TargetApp(d))
  {
  }

  lemma DeletionKeepsInv(s: System, action: Action, strict: bool)
    requires Inv(s) && (action.MarkStep? || action.RemoveStep?)
    ensures Inv(Next(s, action, strict))
  {
    var h := action.h;
    if action.MarkStep? && Is(s, h) && s.handlers[h].Deleting? {
      var t := SetDeleted(s.t, s.handlers[h].app, true);
      WriterKeepsInv(s, h, t);
      ReleaseKeepsInv(s, h);
      var answer := Deletable(s.t, s.handlers[h].app);
      assert answer.DeletionReady? ==> HandlerOk(t, Removing(s.handlers[h].app, answer.path));
      hide Inv, HandlerOk, Deletable;
    } else if action.RemoveStep? && Is(s, h) && s.handlers[h].Removing? {
      var t := RemoveNext(s, h, action.removed, action.restored).t;
      WriterKeepsInv(s, h, t);
    }
  }

  lemma DownloadKeepsInv(s: System, action: Action, strict: bool)
    requires Inv(s) && (action.CommitStep? || action.CleanStep?)
    ensures Inv(Next(s, action, strict))
  {
    var h := action.h;
    if action.CommitStep? && Is(s, h) && s.handlers[h].Downloading? && s.handlers[h].d.newApp !in s.t.apps {
      CommitChangesOneApp(s.t, s.handlers[h].d, action.renamed, action.written);
      hide Commit;
      WriterKeepsInv(s, h, Commit(s.t, s.handlers[h].d, action.renamed, action.written).0);
    } else if action.CleanStep? && Is(s, h) && s.handlers[h].Cleaning? {
      WriterKeepsInv(s, h, Clean(s.t, s.handlers[h].committed, action.removed));
    }
  }

  lemma NextStatus(s: System, action: Action, strict: bool)
    requires IsStatus(action)
    ensures Next(s, action, strict) == StatusNext(s, action, strict)
  {
  }

  /** What a status write, a late report or a restart leaves alone. */
  ghost predicate OnlyPhases(s: System, n: System) {
    && n.t.apps == s.t.apps && n.t.files == s.t.files && (n.handlers == s.handlers || n.handlers == map[])
    && (n.loose == s.loose || n.loose == multiset{})
    && n.t.jobs.Keys == s.t.jobs.Keys && n.tasks.Keys == s.tasks.Keys
    && (forall j :: j in n.t.jobs ==> n.t.jobs[j].app == s.t.jobs[j].app && n.t.jobs[j].device == s.t.jobs[j].device)
    && (forall j :: j in n.tasks ==> n.tasks[j].path == s.tasks[j].path)
  }

  lemma JobTouchesOnlyPhases(s: System, id: JobId, phase: Phase, recorded: bool, lingers: bool)
    ensures OnlyPhases(s, JobNext(s, id, phase, recorded, lingers))
  {
  }

  lemma JobEffect(s: System, id: JobId, phase: Phase, recorded: bool, lingers: bool, j: JobId)
    requires forall k :: k in s.tasks && s.tasks[k].running ==> Active(s, k)
    ensures
      var n := JobNext(s, id, phase, recorded, lingers);
      && OnlyPhases(s, n)
      && (j in n.tasks && n.tasks[j].running ==> Active(n, j))
      && (Active(n, j) ==> Active(s, j))
      && (Interrupted(n, j) <==> Interrupted(s, j) || (id == j && j in s.tasks && s.tasks[j].running && !IsActive(phase) && !recorded))
  {
    hide OnlyPhases;
    JobTouchesOnlyPhases(s, id, phase, recorded, lingers);
  }

  lemma LateEffect(s: System, id: JobId, phase: Phase, j: JobId)
    requires forall k :: k in s.tasks && s.tasks[k].running ==> Active(s, k)
    ensures
      var n := LateNext(s, id, phase);
      && OnlyPhases(s, n)
      && (j in n.tasks && n.tasks[j].running ==> Active(n, j))
      && (Active(n, j) <==> Active(s, j) || (Revives(s, LateStep(id, phase), false) && id == j))
      && (Interrupted(n, j) <==> Interrupted(s, j) || (Revives(s, LateStep(id, phase), false) && id == j))
  {
  }

  lemma RestartEffect(s: System, j: JobId)
    ensures
      var n := RestartNext(s);
      && OnlyPhases(s, n)
      && (j in n.tasks ==> !n.tasks[j].running)
      && (Active(n, j) <==> Active(s, j)) && (Interrupted(n, j) <==> Interrupted(s, j) || Active(s, j))
  {
  }

  lemma StatusEffect(s: System, action: Action, strict: bool, j: JobId)
    requires IsStatus(action) && forall k :: k in s.tasks && s.tasks[k].running ==> Active(s, k)
    ensures
      var n := Next(s, action, strict);
      && OnlyPhases(s, n)
      && (j in n.tasks && n.tasks[j].running ==> Active(n, j))
      && (Active(n, j) ==> Active(s, j) || (Revives(s, action, strict) && action.id == j))
      && (Interrupted(n, j) <==>
            || Interrupted(s, j)
            || (action.Restart? && Active(s, j))
            || (action.JobStep? && action.id == j && j in s.tasks && s.tasks[j].running && !IsActive(action.phase) && !action.recorded)
            || (Revives(s, action, strict) && action.id == j))
  {
    hide JobNext, LateNext, RestartNext, OnlyPhases, Active, Interrupted;
    NextStatus(s, action, strict);
    hide Next;
    match action
    case JobStep(id, phase, recorded, lingers) => JobEffect(s, id, phase, recorded, lingers, j);
    case LateStep(id, phase) =>
      LateEffect(s, id, phase, j);
      SameEffect(s, j);
    case Restart => RestartEffect(s, j);
  }

  lemma SameEffect(s: System, j: JobId)
    requires forall k :: k in s.tasks && s.tasks[k].running ==> Active(s, k)
    ensures OnlyPhases(s, s) && (j in s.tasks && s.tasks[j].running ==> Active(s, j))
  {
  }

  lemma StatusKeepsInv(s: System, action: Action, strict: bool)
    requires Inv(s) && IsStatus(action)
    ensures Inv(Next(s, action, strict))
  {
    JobsHaveTasks(s);
    var n := Next(s, action, strict);
    hide Next, Interrupted, Revives, HandlerOk;
    StatusEffect(s, action, strict, 0);
    forall j | j in n.t.jobs ensures JobOk(n, j) {
      StatusEffect(s, action, strict, j);
      assert JobOk(s, j);
    }
    forall h | h in n.handlers ensures HandlerOk(n.t, n.handlers[h]) {
      SameAppsHandlerOk(s.t, n.t, s.handlers[h]);
    }
  }

  lemma SameAppsHandlerOk(t: Tables, n: Tables, handler: Handler)
    requires HandlerOk(t, handler) && n.apps == t.apps
    ensures HandlerOk(n, handler)
  {
  }

  lemma UploadKeepsInv(s: System, app: AppId, sha: Sha, bundle: Bundle)
    requires Inv(s)
    ensures Inv(UploadNext(s, app, sha, bundle))
  {
    hide Clashes;
    var n := UploadNext(s, app, sha, bundle);
    assert forall other :: AppPath(s.t, other).Some? ==> AppPath(n.t, other) == AppPath(s.t, other);
    forall j | j in n.t.jobs ensures JobOk(n, j) {
      assert JobOk(s, j);
    }
    forall h | h in n.handlers ensures HandlerOk(n.t, n.handlers[h]) {
      assert HandlerOk(s.t, s.handlers[h]);
    }
  }

  /** What dropping a request and landing a removal leave alone. */
  ghost predicate OnlyRemoval(s: System, n: System, action: Action) {
    && n.tasks == s.tasks && n.t == s.t.(files := n.t.files)
    && n.t.files == (if action.LandStep? then LandNext(s, action.path).t.files else s.t.files)
    && (forall h :: h in n.handlers ==> h in s.handlers && n.handlers[h] == s.handlers[h])
    && (forall path | path in n.loose && path !in s.loose ::
          action.End? && action.h in s.handlers && Doomed(s.handlers[action.h]) == Some(path))
  }

  lemma EndEffect(s: System, h: nat)
    ensures OnlyRemoval(s, EndNext(s, h), End(h))
  {
  }

  lemma LandEffect(s: System, path: Path)
    ensures OnlyRemoval(s, LandNext(s, path), LandStep(path))
  {
  }

  lemma RemovalEffect(s: System, action: Action, strict: bool)
    requires action.End? || action.LandStep?
    ensures OnlyRemoval(s, Next(s, action, strict), action)
  {
    hide OnlyRemoval, EndNext, LandNext, MayAcquire;
    match action
    case End(h) => EndEffect(s, h);
    case LandStep(path) => LandEffect(s, path);
  }

  lemma RemovalsKeepInv(s: System, action: Action, strict: bool)
    requires Inv(s) && (action.End? || action.LandStep?)
    ensures Inv(Next(s, action, strict))
  {
    var n := Next(s, action, strict);
    RemovalEffect(s, action, strict);
    hide Next, LandNext;
    forall j | j in n.t.jobs ensures JobOk(n, j) {
      assert JobOk(s, j);
    }
    forall h | h in n.handlers ensures HandlerOk(n.t, n.handlers[h]) {
      SameAppsHandlerOk(s.t, n.t, s.handlers[h]);
    }
  }

  lemma OthersKeepInv(s: System, action: Action, strict: bool)
    requires Inv(s) && (action.Begin? || action.SourceStep?)
    ensures Inv(Next(s, action, strict))
  {
    var n := Next(s, action, strict);
    forall j | j in n.t.jobs ensures JobOk(n, j) {
      assert JobOk(s, j);
    }
    forall h | h in n.handlers ensures HandlerOk(n.t, n.handlers[h]) {
      assert h in s.handlers ==> HandlerOk(s.t, s.handlers[h]);
    }
  }

  lemma InvKept(s: System, action: Action, strict: bool)
    requires Inv(s)
    ensures Inv(Next(s, action, strict))
  {
    hide Inv;
    match action
    case End(h) => RemovalsKeepInv(s, action, strict);
    case LandStep(path) => RemovalsKeepInv(s, action, strict);
    case CreateStep(h, id) => ReadersKeepInv(s, action, strict);
    case TargetsStep(h, pairs) => ReadersKeepInv(s, action, strict);
    case QueueStep(h, id, present) => ReadersKeepInv(s, action, strict);
    case MarkStep(h, sourcesUpdated) => DeletionKeepsInv(s, action, strict);
    case RemoveStep(h, removed, restored) => DeletionKeepsInv(s, action, strict);
    case CommitStep(h, renamed, written) => DownloadKeepsInv(s, action, strict);
    case CleanStep(h, removed) => DownloadKeepsInv(s, action, strict);
    case UploadStep(app, sha, bundle) => UploadKeepsInv(s, app, sha, bundle);
    case JobStep(id, phase, recorded, lingers) => StatusKeepsInv(s, action, strict);
    case LateStep(id, phase) => StatusKeepsInv(s, action, strict);
    case Restart => StatusKeepsInv(s, action, strict);
    case _ => OthersKeepInv(s, action, strict);
  }

  lemma {:induction false} InvAlways(s: System, actions: seq<Action>, strict: bool)
    requires Inv(s)
    ensures Inv(Run(s, actions, strict))
    decreases |actions|
  {
    if actions != [] {
      InvAlways(s, actions[..|actions| - 1], strict);
      hide Inv, Next;
      InvKept(Run(s, actions[..|actions| - 1], strict), actions[|actions| - 1], strict);
    }
  }

  lemma StartKeepsInv(s: System)
    requires Start(s)
    ensures Inv(s)
  {
  }

  lemma InvFromStart(s: System, actions: seq<Action>, strict: bool)
    requires Start(s)
    ensures Inv(Run(s, actions, strict))
  {
    hide Inv;
    StartKeepsInv(s);
    InvAlways(s, actions, strict);
  }

  // ----- an app with an active job

  /** An app with an active job is not deleted, and its stored path is the one the job was given. */
  ghost predicate Sound(s: System) {
    forall j :: Active(s, j) ==> AppPath(s.t, s.t.jobs[j].app) == Some(s.tasks[j].path)
  }

  /** A late report that makes an ended job active again. */
  predicate Revives(s: System, action: Action, strict: bool) {
    && !strict && action.LateStep? && IsProgress(action.phase)
    && action.id in s.tasks && s.tasks[action.id].lingering
    && action.id in s.t.jobs && !IsActive(s.t.jobs[action.id].phase)
  }

  /** It comes after the app was deleted or its file replaced. */
  predicate LosesApp(s: System, action: Action, strict: bool) {
    Revives(s, action, strict) && AppPath(s.t, s.t.jobs[action.id].app) != Some(s.tasks[action.id].path)
  }

  lemma RowsKeepSound(s: System, n: System)
    requires Inv(s) && Sound(s)
    requires forall j :: Active(n, j) ==> Active(s, j) && n.t.jobs[j].app == s.t.jobs[j].app && n.tasks[j].path == s.tasks[j].path
    requires forall j :: Active(s, j) ==> AppPath(n.t, s.t.jobs[j].app) == AppPath(s.t, s.t.jobs[j].app)
    ensures Sound(n)
  {
  }

  lemma ReadersKeepSound(s: System, action: Action, strict: bool)
    requires Inv(s) && Sound(s) && (action.CreateStep? || action.QueueStep?)
    ensures Sound(Next(s, action, strict))
  {
    JobsHaveTasks(s);
    hide ActiveForPair, LockOk, JobOk;
    var n := Next(s, action, strict);
    if action.QueueStep? && Is(s, action.h) {
      assert HandlerOk(s.t, s.handlers[action.h]);
    }
    forall j | Active(n, j) ensures AppPath(n.t, n.t.jobs[j].app) == Some(n.tasks[j].path) {
    }
  }

  lemma NoActiveAppIsSpared(s: System, app: AppId)
    requires !ActiveForApp(s.t, app)
    ensures forall j :: Active(s, j) ==> s.t.jobs[j].app != app
  {
  }

  lemma DeletedAppHasNoActive(s: System, app: AppId)
    requires Sound(s) && AppPath(s.t, app).None?
    ensures forall j :: Active(s, j) ==> s.t.jobs[j].app != app
  {
  }

  lemma DeletionKeepsSound(s: System, action: Action, strict: bool)
    requires Inv(s) && Sound(s) && (action.MarkStep? || action.RemoveStep?)
    ensures Sound(Next(s, action, strict))
  {
    var h, n := action.h, Next(s, action, strict);
    if Is(s, h) && s.handlers[h].Deleting? && !ActiveForApp(s.t, s.handlers[h].app) {
      NoActiveAppIsSpared(s, s.handlers[h].app);
    } else if Is(s, h) && s.handlers[h].Removing? {
      assert HandlerOk(s.t, s.handlers[h]);
      DeletedAppHasNoActive(s, s.handlers[h].app);
    }
    hide ActiveForApp, Sound, HandlerOk, Inv;
    assert n.tasks == s.tasks && n.t.jobs == s.t.jobs;
    RowsKeepSound(s, n);
  }

  lemma DownloadKeepsSound(s: System, action: Action, strict: bool)
    requires Inv(s) && Sound(s) && (action.CommitStep? || action.CleanStep?)
    ensures Sound(Next(s, action, strict))
  {
    var h, n := action.h, Next(s, action, strict);
    if action.CommitStep? && Is(s, h) && s.handlers[h].Downloading? && s.handlers[h].d.newApp !in s.t.apps {
      CommitSparesActive(s, s.handlers[h].d, action.renamed, action.written);
      CommitChangesOneApp(s.t, s.handlers[h].d, action.renamed, action.written);
    }
    hide Commit, ActiveForApp, Sound, Inv;
    assert n.tasks == s.tasks && n.t.jobs == s.t.jobs;
    RowsKeepSound(s, n);
  }

  /** A commit changes no row and dooms no file of an app with an active job. */
  lemma CommitSparesActive(s: System, d: Download, renamed: bool, written: nat)
    requires Inv(s) && d.newApp !in s.t.apps
    ensures
      var (after, outcome) := Commit(s.t, d, renamed, written);
      forall j :: Active(s, j) ==>
        && AppPath(after, s.t.jobs[j].app) == AppPath(s.t, s.t.jobs[j].app)
        && (after.files == s.t.files || s.t.jobs[j].app != TargetApp(d))
        && (Doomed(Cleaning(outcome)).Some? ==> s.t.jobs[j].app != TargetApp(d))
  {
    CommitChangesOneApp(s.t, d, renamed, written);
    hide Commit;
    forall j | Active(s, j) ensures s.t.jobs[j].app != d.newApp && ActiveForApp(s.t, s.t.jobs[j].app) {
      assert JobOk(s, j);
    }
  }

  lemma StatusKeepsSound(s: System, action: Action, strict: bool)
    requires Inv(s) && Sound(s) && !LosesApp(s, action, strict)
    requires IsStatus(action)
    ensures Sound(Next(s, action, strict))
  {
    JobsHaveTasks(s);
    var n := Next(s, action, strict);
    hide Inv, Next, Revives;
    forall j | Active(n, j) ensures AppPath(n.t, n.t.jobs[j].app) == Some(n.tasks[j].path) {
      StatusEffect(s, action, strict, j);
    }
  }

  lemma OthersKeepSound(s: System, action: Action, strict: bool)
    requires Inv(s) && Sound(s) && !TouchesJobs(action)
    requires !action.MarkStep? && !action.RemoveStep? && !action.CommitStep? && !action.CleanStep? && !action.End? && !action.LandStep?
    ensures Sound(Next(s, action, strict))
  {
    JobsHaveTasks(s);
    var n := Next(s, action, strict);
    assert n.t.jobs == s.t.jobs && n.tasks == s.tasks;
    assert forall app :: AppPath(s.t, app).Some? ==> AppPath(n.t, app) == AppPath(s.t, app);
  }

  lemma SameRowsKeepSound(s: System, n: System)
    requires Sound(s) && n.t.jobs == s.t.jobs && n.tasks == s.tasks && n.t.apps == s.t.apps
    ensures Sound(n)
  {
    forall j | Active(n, j) ensures AppPath(n.t, n.t.jobs[j].app) == Some(n.tasks[j].path) {
      assert Active(s, j);
    }
  }

  lemma SoundKept(s: System, action: Action, strict: bool)
    requires Inv(s) && Sound(s)
    ensures Sound(Next(s, action, strict)) <==> !LosesApp(s, action, strict)
  {
    hide Inv, Sound, Next;
    if LosesApp(s, action, strict) {
      SoundLost(s, action, strict);
    } else if action.CreateStep? || action.QueueStep? {
      ReadersKeepSound(s, action, strict);
    } else if action.MarkStep? || action.RemoveStep? {
      DeletionKeepsSound(s, action, strict);
    } else if action.CommitStep? || action.CleanStep? {
      DownloadKeepsSound(s, action, strict);
    } else if action.End? || action.LandStep? {
      RemovalEffect(s, action, strict);
      SameRowsKeepSound(s, Next(s, action, strict));
    } else if TouchesJobs(action) {
      StatusKeepsSound(s, action, strict);
    } else {
      OthersKeepSound(s, action, strict);
    }
  }

  lemma SoundLost(s: System, action: Action, strict: bool)
    requires LosesApp(s, action, strict)
    ensures !Sound(Next(s, action, strict))
  {
    assert Active(Next(s, action, strict), action.id);
  }

  ghost predicate SoundThroughout(s: System, actions: seq<Action>, strict: bool)
    decreases |actions|
  {
    Sound(Run(s, actions, strict)) && (actions != [] ==> SoundThroughout(s, actions[..|actions| - 1], strict))
  }

  /** No late report of the run reaches a job whose app is gone or changed. */
  predicate LosesNoApp(s: System, actions: seq<Action>, strict: bool)
    decreases |actions|
  {
    actions != [] ==>
      var before := actions[..|actions| - 1];
      LosesNoApp(s, before, strict) && !LosesApp(Run(s, before, strict), actions[|actions| - 1], strict)
  }

  /**
   In a run, restarts included, an app with an active job is never deleted and keeps the path that the
   job was given, exactly if no late report revives a job whose app was deleted or replaced since.
   */
  lemma {:induction false} ActiveJobKeepsItsApp(s: System, actions: seq<Action>, strict: bool)
    requires Start(s)
    ensures SoundThroughout(s, actions, strict) <==> LosesNoApp(s, actions, strict)
    decreases |actions|
  {
    if actions != [] {
      var before := actions[..|actions| - 1];
      ActiveJobKeepsItsApp(s, before, strict);
      InvFromStart(s, before, strict);
      hide Inv, Next, Sound, LosesApp;
      if SoundThroughout(s, before, strict) {
        assert Sound(Run(s, before, strict));
        SoundKept(Run(s, before, strict), actions[|actions| - 1], strict);
      }
    }
  }

  /** If ended jobs got no late report, it would hold in every run. */
  lemma {:induction false} StrictRunsLoseNothing(s: System, actions: seq<Action>)
    ensures LosesNoApp(s, actions, true)
    decreases |actions|
  {
    hide Next;
    if actions != [] {
      StrictRunsLoseNothing(s, actions[..|actions| - 1]);
    }
  }

  lemma StrictRunsAreSound(s: System, actions: seq<Action>)
    requires Start(s)
    ensures Sound(Run(s, actions, true))
  {
    hide Next, Sound;
    StrictRunsLoseNothing(s, actions);
    ActiveJobKeepsItsApp(s, actions, true);
  }

  // ----- the file of an active job

  /** A removal of this file has begun. */
  predicate Threatened(s: System, path: Path) {
    path in s.loose || exists h :: h in s.handlers && Doomed(s.handlers[h]) == Some(path)
  }

  ghost predicate FilesSafe(s: System) {
    forall j :: Active(s, j) ==> !Threatened(s, s.tasks[j].path)
  }

  /** The file of the job that a step makes active: one that is queued, or an ended one that a late report revives. */
  function Activated(s: System, action: Action, strict: bool): Option<Path> {
    match action
    case CreateStep(h, id) =>
      if Is(s, h) && s.handlers[h].Creating? && id !in s.tasks then AppPath(s.t, s.handlers[h].app) else None
    case QueueStep(h, id, present) =>
      if Is(s, h) && s.handlers[h].Refreshing? && s.handlers[h].targets != [] && id !in s.tasks && present
         && !ActiveForPair(s.t, s.handlers[h].targets[0].app, s.handlers[h].targets[0].device)
      then Some(s.handlers[h].targets[0].path) else None
    case _ => if Revives(s, action, strict) then Some(s.tasks[action.id].path) else None
  }

  /** A job becomes active while a removal of its file has begun. */
  predicate LosesFile(s: System, action: Action, strict: bool) {
    Activated(s, action, strict).Some? && Threatened(s, Activated(s, action, strict).value)
  }

  predicate LosesNoFile(s: System, actions: seq<Action>, strict: bool)
    decreases |actions|
  {
    actions != [] ==>
      var before := actions[..|actions| - 1];
      LosesNoFile(s, before, strict) && !LosesFile(Run(s, before, strict), actions[|actions| - 1], strict)
  }

  /** A step that activates no job and threatens no file of an active one. */
  lemma SameJobsKeepFilesSafe(s: System, n: System)
    requires FilesSafe(s) && n.t.jobs == s.t.jobs && n.tasks == s.tasks
    requires forall j :: Active(s, j) && Threatened(n, s.tasks[j].path) ==> Threatened(s, s.tasks[j].path)
    ensures FilesSafe(n)
  {
    hide Threatened;
    forall j | Active(n, j) ensures !Threatened(n, n.tasks[j].path) {
      assert Active(s, j);
    }
  }

  lemma MarkKeepsFilesSafe(s: System, h: nat, sourcesUpdated: bool)
    requires Inv(s) && FilesSafe(s)
    ensures FilesSafe(MarkNext(s, h, sourcesUpdated))
  {
    var n := MarkNext(s, h, sourcesUpdated);
    if Is(s, h) && s.handlers[h].Deleting? && Deletable(s.t, s.handlers[h].app).DeletionReady? {
      var app := s.handlers[h].app;
      NoActiveAppIsSpared(s, app);
      forall j | Active(s, j) ensures s.tasks[j].path != s.t.apps[app].path {
        assert JobOk(s, j);
      }
    }
    hide Inv, FilesSafe;
    SameJobsKeepFilesSafe(s, n);
  }

  lemma CommitKeepsFilesSafe(s: System, h: nat, renamed: bool, written: nat)
    requires Inv(s) && FilesSafe(s)
    ensures FilesSafe(CommitNext(s, h, renamed, written))
  {
    if Is(s, h) && s.handlers[h].Downloading? && s.handlers[h].d.newApp !in s.t.apps {
      var d := s.handlers[h].d;
      CommitChangesOneApp(s.t, d, renamed, written);
      CommitSparesActive(s, d, renamed, written);
      hide Commit;
      var n := CommitNext(s, h, renamed, written);
      forall j | Active(s, j) ensures !Threatened(n, s.tasks[j].path) {
        assert JobOk(s, j) && !Threatened(s, s.tasks[j].path);
      }
      SameJobsKeepFilesSafe(s, n);
    }
  }

  /** Dropping a request turns its removal into a loose one; landing ends one. */
  lemma RemovalsKeepFilesSafe(s: System, action: Action, strict: bool)
    requires Inv(s) && FilesSafe(s) && (action.End? || action.LandStep?)
    ensures FilesSafe(Next(s, action, strict))
  {
    var n := Next(s, action, strict);
    RemovalEffect(s, action, strict);
    hide Inv, FilesSafe, Next, LandNext;
    forall path | Threatened(n, path) ensures Threatened(s, path) {
      if h: nat :| h in n.handlers && Doomed(n.handlers[h]) == Some(path) {
        assert h in s.handlers;
      }
    }
    SameJobsKeepFilesSafe(s, n);
  }

  /** Beside a reader nobody is about to remove a file. */
  lemma NoneDoomed(s: System, h: nat)
    requires Inv(s) && Is(s, h) && !Writes(s.handlers[h])
    ensures forall k :: k in s.handlers ==> Doomed(s.handlers[k]).None?
  {
    forall k | k in s.handlers ensures Doomed(s.handlers[k]).None? {
      assert Writes(s.handlers[k]) ==> k == h;
    }
  }

  /** What queueing does: a new job with a running task if the step activates one, and nothing to the tables if not. */
  ghost predicate Spawned(s: System, n: System, id: JobId, h: nat, path: Option<Path>) {
    && n.loose == s.loose && n.t == s.t.(jobs := n.t.jobs)
    && (n == s || (Is(s, h) && !Writes(s.handlers[h])))
    && (forall k :: k in n.handlers ==> k in s.handlers && (Doomed(n.handlers[k]).None? || n.handlers[k] == s.handlers[k]))
    && (path.None? ==> n.t.jobs == s.t.jobs && n.tasks == s.tasks)
    && (path.Some? ==>
          && id !in s.tasks && id in n.t.jobs && IsActive(n.t.jobs[id].phase)
          && n.t.jobs == s.t.jobs[id := n.t.jobs[id]] && n.tasks == s.tasks[id := Task(path.value, true, false)])
  }

  lemma CreateSpawns(s: System, h: nat, id: JobId, strict: bool)
    ensures Spawned(s, CreateNext(s, h, id), id, h, Activated(s, CreateStep(h, id), strict))
  {
  }

  lemma QueueSpawns(s: System, h: nat, id: JobId, present: bool, strict: bool)
    requires Is(s, h) ==> HandlerOk(s.t, s.handlers[h])
    ensures Spawned(s, QueueNext(s, h, id, present), id, h, Activated(s, QueueStep(h, id, present), strict))
  {
    hide ActiveForPair;
  }

  lemma SpawnIs(s: System, action: Action, strict: bool)
    requires Inv(s) && Spawns(action)
    ensures Spawned(s, Next(s, action, strict), action.id, action.h, Activated(s, action, strict))
  {
    hide Spawned, Activated, CreateNext, QueueNext;
    match action
    case CreateStep(h, id) => CreateSpawns(s, h, id, strict);
    case QueueStep(h, id, present) => QueueSpawns(s, h, id, present, strict);
  }

  /** A queued job is new, active, and has a running task. */
  lemma SpawnEffect(s: System, action: Action, strict: bool)
    requires Inv(s) && Spawns(action)
    ensures
      var n := Next(s, action, strict);
      || (n.t.jobs == s.t.jobs && n.tasks == s.tasks)
      || (&& action.id !in s.tasks && action.id !in s.t.jobs && Active(n, action.id)
          && n.t.jobs == s.t.jobs[action.id := n.t.jobs[action.id]]
          && n.tasks == s.tasks[action.id := Task(n.tasks[action.id].path, true, false)])
  {
    JobsHaveTasks(s);
    SpawnIs(s, action, strict);
    hide Inv, Next, Activated;
  }

  /** A job is queued under a read lock, so only a loose removal may threaten it. */
  lemma SpawnKeepsFilesSafe(s: System, action: Action, strict: bool)
    requires Inv(s) && FilesSafe(s) && Spawns(action) && !LosesFile(s, action, strict)
    ensures FilesSafe(Next(s, action, strict))
  {
    var n := Next(s, action, strict);
    SpawnIs(s, action, strict);
    hide Inv, Next, Activated;
    forall j | Active(n, j) ensures !Threatened(n, n.tasks[j].path) {
      assert Active(s, j) || n.tasks[j].path == Activated(s, action, strict).value;
      assert !Threatened(s, n.tasks[j].path);
    }
  }

  lemma StatusKeepsFilesSafe(s: System, action: Action, strict: bool)
    requires Inv(s) && FilesSafe(s) && !LosesFile(s, action, strict) && IsStatus(action)
    ensures FilesSafe(Next(s, action, strict))
  {
    JobsHaveTasks(s);
    hide Inv, Next, Active, Threatened;
    var n := Next(s, action, strict);
    forall j | Active(n, j) ensures !Threatened(n, n.tasks[j].path) {
      ActiveHasTask(n, j);
      StatusEffect(s, action, strict, j);
      FewerThreatened(s, n, n.tasks[j].path);
    }
  }

  lemma FewerThreatened(s: System, n: System, path: Path)
    requires (n.handlers == s.handlers || n.handlers == map[]) && (n.loose == s.loose || n.loose == multiset{})
    ensures Threatened(n, path) ==> Threatened(s, path)
  {
  }

  lemma ActiveHasTask(s: System, j: JobId)
    requires Active(s, j)
    ensures j in s.tasks && j in s.t.jobs
  {
  }

  lemma OthersKeepFilesSafe(s: System, action: Action, strict: bool)
    requires Inv(s) && FilesSafe(s) && !TouchesJobs(action)
    requires !action.MarkStep? && !action.CommitStep? && !action.End? && !action.LandStep?
    ensures FilesSafe(Next(s, action, strict))
  {
    Untouched(s, action, strict);
    hide Inv, FilesSafe;
    var n := Next(s, action, strict);
    assert n.loose == s.loose;
    forall path | Threatened(n, path) ensures Threatened(s, path) {
      if h: nat :| h in n.handlers && Doomed(n.handlers[h]) == Some(path) {
        assert h in s.handlers && n.handlers[h] == s.handlers[h];
      }
    }
    SameJobsKeepFilesSafe(s, n);
  }

  lemma FilesSafeKept(s: System, action: Action, strict: bool)
    requires Inv(s) && FilesSafe(s) && !LosesFile(s, action, strict)
    ensures FilesSafe(Next(s, action, strict))
  {
    hide Inv, FilesSafe, LosesFile;
    if action.CreateStep? || action.QueueStep? {
      SpawnKeepsFilesSafe(s, action, strict);
    } else if action.MarkStep? {
      MarkKeepsFilesSafe(s, action.h, action.sourcesUpdated);
    } else if action.CommitStep? {
      CommitKeepsFilesSafe(s, action.h, action.renamed, action.written);
    } else if action.End? || action.LandStep? {
      RemovalsKeepFilesSafe(s, action, strict);
    } else if IsStatus(action) {
      StatusKeepsFilesSafe(s, action, strict);
    } else {
      OthersKeepFilesSafe(s, action, strict);
    }
  }

  lemma {:induction false} FilesSafeAlways(s: System, actions: seq<Action>, strict: bool)
    requires Start(s) && LosesNoFile(s, actions, strict)
    ensures FilesSafe(Run(s, actions, strict))
    decreases |actions|
  {
    if actions != [] {
      FilesSafeAlways(s, actions[..|actions| - 1], strict);
      InvFromStart(s, actions[..|actions| - 1], strict);
      hide Inv, Next, FilesSafe;
      FilesSafeKept(Run(s, actions[..|actions| - 1], strict), actions[|actions| - 1], strict);
    }
  }

  /** No request is dropped while it removes a file. */
  predicate FinishesRemovals(s: System, actions: seq<Action>, strict: bool)
    decreases |actions|
  {
    actions != [] ==>
      var before := actions[..|actions| - 1];
      var m := Run(s, before, strict);
      var last := actions[|actions| - 1];
      FinishesRemovals(s, before, strict) && (last.End? && last.h in m.handlers ==> Doomed(m.handlers[last.h]).None?)
  }

  /** If besides ended jobs got no late report, no active job would ever lose its file. */
  lemma {:induction false} StrictRunsLoseNoFile(s: System, actions: seq<Action>)
    requires Start(s) && FinishesRemovals(s, actions, true)
    ensures LosesNoFile(s, actions, true) && Run(s, actions, true).loose == multiset{}
    decreases |actions|
  {
    if actions != [] {
      var before := actions[..|actions| - 1];
      StrictRunsLoseNoFile(s, before);
      InvFromStart(s, before, true);
      hide Inv, Next, LosesFile;
      NoneLoose(Run(s, before, true), actions[|actions| - 1]);
    }
  }

  lemma OnlyEndLoosens(s: System, action: Action, strict: bool)
    requires s.loose == multiset{}
    requires action.End? && action.h in s.handlers ==> Doomed(s.handlers[action.h]).None?
    ensures Next(s, action, strict).loose == multiset{}
  {
    hide Commit, ActiveForPair, Doomed, MayAcquire;
    if action.End? || action.LandStep? {
      RemovalEffect(s, action, strict);
      hide Next;
      assert forall path :: path !in Next(s, action, strict).loose;
    }
  }

  lemma NoneLoose(s: System, action: Action)
    requires Inv(s) && s.loose == multiset{}
    requires action.End? && action.h in s.handlers ==> Doomed(s.handlers[action.h]).None?
    ensures Next(s, action, true).loose == multiset{} && !LosesFile(s, action, true)
  {
    OnlyEndLoosens(s, action, true);
    hide Next;
    if Spawns(action) {
      if Is(s, action.h) && !Writes(s.handlers[action.h]) {
        NoneDoomed(s, action.h);
      }
      hide Inv, ActiveForPair;
    }
  }

  lemma CommitKeepsJobs(t: Tables, d: Download, renamed: bool, written: nat)
    ensures Commit(t, d, renamed, written).0.jobs == t.jobs
  {
  }

  predicate TouchesJobs(action: Action) {
    Spawns(action) || IsStatus(action)
  }

  predicate TouchesFiles(action: Action) {
    action.RemoveStep? || action.CommitStep? || action.CleanStep? || action.UploadStep? || action.LandStep?
  }

  lemma JobsUntouched(s: System, action: Action, strict: bool)
    requires !TouchesJobs(action)
    ensures Next(s, action, strict).t.jobs == s.t.jobs && Next(s, action, strict).tasks == s.tasks
  {
    hide Commit, MayAcquire, ActiveForPair, ActiveForApp, Clashes, Doomed, Deletable;
    match action
    case End(_) => RemovalEffect(s, action, strict);
    case LandStep(_) => RemovalEffect(s, action, strict);
    case CommitStep(h, renamed, written) =>
      if Is(s, h) && s.handlers[h].Downloading? {
        CommitKeepsJobs(s.t, s.handlers[h].d, renamed, written);
      }
    case _ =>
  }

  lemma FilesUntouched(s: System, action: Action, strict: bool)
    requires !TouchesFiles(action)
    ensures Next(s, action, strict).t.files == s.t.files
  {
    hide Commit, MayAcquire, ActiveForPair, ActiveForApp, Clashes, Doomed, Deletable;
    match action
    case End(_) => RemovalEffect(s, action, strict);
    case _ =>
  }

  lemma Untouched(s: System, action: Action, strict: bool)
    ensures !TouchesJobs(action) ==> Next(s, action, strict).t.jobs == s.t.jobs && Next(s, action, strict).tasks == s.tasks
    ensures !TouchesFiles(action) ==> Next(s, action, strict).t.files == s.t.files
  {
    hide Next;
    if !TouchesJobs(action) {
      JobsUntouched(s, action, strict);
    }
    if !TouchesFiles(action) {
      FilesUntouched(s, action, strict);
    }
  }

  /** No step drops a job or changes what it is for. */
  lemma JobsStay(s: System, action: Action, strict: bool, j: JobId)
    requires Inv(s) && j in s.t.jobs
    ensures
      var n := Next(s, action, strict);
      && j in s.tasks && j in n.t.jobs && n.t.jobs[j].app == s.t.jobs[j].app && n.t.jobs[j].device == s.t.jobs[j].device
      && j in n.tasks && n.tasks[j].path == s.tasks[j].path
  {
    JobsHaveTasks(s);
    hide Inv, Next, Revives, Interrupted, Active;
    if Spawns(action) {
      SpawnEffect(s, action, strict);
    } else if IsStatus(action) {
      StatusEffect(s, action, strict, j);
    } else {
      Untouched(s, action, strict);
    }
  }

  lemma CommitKeepsFile(s: System, h: nat, renamed: bool, written: nat, j: JobId)
    requires Inv(s) && Active(s, j)
    ensures s.tasks[j].path in CommitNext(s, h, renamed, written).t.files <==> s.tasks[j].path in s.t.files
  {
    if Is(s, h) && s.handlers[h].Downloading? && s.handlers[h].d.newApp !in s.t.apps {
      assert JobOk(s, j);
      CommitChangesOneApp(s.t, s.handlers[h].d, renamed, written);
      CommitSparesActive(s, s.handlers[h].d, renamed, written);
      hide Commit, Inv;
    }
  }

  lemma RemovalKeepsFile(s: System, h: nat, removed: bool, restored: bool, path: Path)
    requires h in s.handlers ==> Doomed(s.handlers[h]) != Some(path)
    ensures path in RemoveNext(s, h, removed, restored).t.files <==> path in s.t.files
    ensures path in CleanNext(s, h, removed).t.files <==> path in s.t.files
  {
  }

  lemma UploadKeepsFile(s: System, app: AppId, sha: Sha, bundle: Bundle, path: Path)
    requires path.app in s.t.apps
    ensures path in UploadNext(s, app, sha, bundle).t.files <==> path in s.t.files
  {
  }

  /** Only these steps can touch a file. */
  function FilesAfter(s: System, action: Action): set<Path> {
    match action
    case RemoveStep(h, removed, restored) => RemoveNext(s, h, removed, restored).t.files
    case CleanStep(h, removed) => CleanNext(s, h, removed).t.files
    case UploadStep(app, sha, bundle) => UploadNext(s, app, sha, bundle).t.files
    case CommitStep(h, renamed, written) => CommitNext(s, h, renamed, written).t.files
    case LandStep(path) => LandNext(s, path).t.files
    case _ => s.t.files
  }

  lemma NextFiles(s: System, action: Action, strict: bool)
    ensures Next(s, action, strict).t.files == FilesAfter(s, action)
  {
    hide RemoveNext, CleanNext, UploadNext, CommitNext, LandNext;
    if !TouchesFiles(action) {
      Untouched(s, action, strict);
      hide Next;
    }
  }

  lemma SpareDoomed(s: System, h: nat, j: JobId)
    requires FilesSafe(s) && Active(s, j)
    ensures h in s.handlers ==> Doomed(s.handlers[h]) != Some(s.tasks[j].path)
  {
    assert !Threatened(s, s.tasks[j].path);
  }

  lemma LandingKeepsFile(s: System, path: Path, j: JobId)
    requires FilesSafe(s) && Active(s, j)
    ensures s.tasks[j].path in LandNext(s, path).t.files <==> s.tasks[j].path in s.t.files
  {
    assert !Threatened(s, s.tasks[j].path);
  }

  /** A step adds or removes no file of an active job. */
  lemma FileKept(s: System, action: Action, strict: bool, j: JobId)
    requires Inv(s) && FilesSafe(s) && Active(s, j)
    ensures s.tasks[j].path in Next(s, action, strict).t.files <==> s.tasks[j].path in s.t.files
  {
    assert JobOk(s, j);
    NextFiles(s, action, strict);
    hide Inv, JobOk, FilesSafe, Next, RemoveNext, CleanNext, UploadNext, CommitNext, LandNext, Doomed, Threatened;
    match action
    case RemoveStep(h, removed, restored) =>
      SpareDoomed(s, h, j);
      RemovalKeepsFile(s, h, removed, restored, s.tasks[j].path);
    case CleanStep(h, removed) =>
      SpareDoomed(s, h, j);
      RemovalKeepsFile(s, h, removed, true, s.tasks[j].path);
    case UploadStep(app, sha, bundle) => UploadKeepsFile(s, app, sha, bundle, s.tasks[j].path);
    case CommitStep(h, renamed, written) => CommitKeepsFile(s, h, renamed, written, j);
    case LandStep(path) => LandingKeepsFile(s, path, j);
    case _ =>
  }

  lemma {:induction false} RunJoins(s: System, first: seq<Action>, rest: seq<Action>, strict: bool)
    ensures Run(s, first + rest, strict) == Run(Run(s, first, strict), rest, strict)
    decreases |rest|
  {
    hide Next;
    if rest == [] {
      assert first + rest == first;
    } else {
      var n := |rest| - 1;
      RunJoins(s, first, rest[..n], strict);
      assert (first + rest)[..|first| + n] == first + rest[..n];
    }
  }

  /** The job is active in every state from the end of `first` to the end of `rest`. */
  predicate StaysActive(s: System, first: seq<Action>, rest: seq<Action>, strict: bool, j: JobId)
    decreases |rest|
  {
    Active(Run(s, first + rest, strict), j) && (rest != [] ==> StaysActive(s, first, rest[..|rest| - 1], strict, j))
  }

  /**
   While a job stays active nobody adds or removes the file it installs, unless a job became active
   whose file was just being removed.
   */
  lemma {:induction false} ActiveJobKeepsItsFile(s: System, first: seq<Action>, rest: seq<Action>, strict: bool, j: JobId)
    requires Start(s) && LosesNoFile(s, first + rest, strict) && StaysActive(s, first, rest, strict, j)
    ensures
      var m, n := Run(s, first, strict), Run(s, first + rest, strict);
      && j in m.tasks && n.tasks[j].path == m.tasks[j].path
      && (n.tasks[j].path in n.t.files <==> m.tasks[j].path in m.t.files)
    decreases |rest|
  {
    hide Next, Inv, FilesSafe, Run;
    if rest == [] {
      assert first + rest == first;
    } else {
      var n := |rest| - 1;
      var all, before := first + rest, first + rest[..n];
      assert all[..|all| - 1] == before && all[|all| - 1] == rest[n];
      ActiveJobKeepsItsFile(s, first, rest[..n], strict, j);
      StartKeepsInv(s);
      InvAlways(s, before, strict);
      FilesSafeAlways(s, before, strict);
      var m := Run(s, before, strict);
      assert StaysActive(s, first, rest[..n], strict, j);
      JobsStay(m, rest[n], strict, j);
      FileKept(m, rest[n], strict, j);
      RunOf(s, before, rest[n], strict);
      assert all == before + [rest[n]];
    }
  }

  lemma RunOf(s: System, before: seq<Action>, action: Action, strict: bool)
    ensures Run(s, before + [action], strict) == Next(Run(s, before, strict), action, strict)
  {
    assert (before + [action])[..|before|] == before;
  }

  lemma ActivatedIsActive(s: System, action: Action, strict: bool)
    requires Inv(s) && LosesFile(s, action, strict)
    ensures
      var n := Next(s, action, strict);
      var path := Activated(s, action, strict).value;
      && (action.LateStep? || Spawns(action)) && Active(n, action.id) && n.tasks[action.id].path == path
      && (path in n.loose || (action.LateStep? && n.handlers == s.handlers))
  {
    if Spawns(action) {
      SpawnIs(s, action, strict);
      if Is(s, action.h) && !Writes(s.handlers[action.h]) {
        NoneDoomed(s, action.h);
      }
      hide Next;
    }
    hide Inv, Commit, CreateNext, QueueNext, ActiveForPair;
  }

  /** The exception is real: after such a step one more removes the file under the active job. */
  lemma ThreatenedJobMayLoseItsFile(s: System, action: Action, strict: bool) returns (removal: Action)
    requires Inv(s) && LosesFile(s, action, strict)
    ensures
      var n := Next(Next(s, action, strict), removal, strict);
      Active(n, action.id) && Some(n.tasks[action.id].path) == Activated(s, action, strict) && n.tasks[action.id].path !in n.t.files
  {
    var path := Activated(s, action, strict).value;
    var n := Next(s, action, strict);
    ActivatedIsActive(s, action, strict);
    if path in n.loose {
      hide Inv, LosesFile, Activated;
      removal := LandStep(path);
      LandRemoves(n, path, action.id, strict);
    } else {
      assert Threatened(s, path);
      var h: nat :| h in s.handlers && Doomed(s.handlers[h]) == Some(path);
      hide Inv, LosesFile, Activated;
      removal := if s.handlers[h].Removing? then RemoveStep(h, true, true) else CleanStep(h, true);
      HandlerRemoves(n, h, path, action.id, strict);
    }
  }

  lemma LandRemoves(s: System, path: Path, j: JobId, strict: bool)
    requires path in s.loose && Active(s, j)
    ensures var n := Next(s, LandStep(path), strict); path !in n.t.files && Active(n, j) && n.tasks[j] == s.tasks[j]
  {
  }

  lemma HandlerRemoves(s: System, h: nat, path: Path, j: JobId, strict: bool)
    requires h in s.handlers && Doomed(s.handlers[h]) == Some(path) && Active(s, j)
    ensures
      var n := Next(s, if s.handlers[h].Removing? then RemoveStep(h, true, true) else CleanStep(h, true), strict);
      path !in n.t.files && Active(n, j) && n.tasks[j] == s.tasks[j]
  {
  }

  // ----- second active jobs

  ghost predicate OneActivePerPair(t: Tables) {
    forall j, k | j in t.jobs && k in t.jobs && IsActive(t.jobs[j].phase) && IsActive(t.jobs[k].phase)
                  && t.jobs[j].app == t.jobs[k].app && t.jobs[j].device == t.jobs[k].device :: j == k
  }

  /** A manual install that is queued, or an ended job that is revived, beside an active job of the same pair. */
  predicate DoublesActive(s: System, action: Action, strict: bool) {
    || (&& action.CreateStep? && Is(s, action.h) && s.handlers[action.h].Creating? && action.id !in s.tasks
        && AppPath(s.t, s.handlers[action.h].app).Some?
        && ActiveForPair(s.t, s.handlers[action.h].app, s.handlers[action.h].device))
    || (Revives(s, action, strict) && ActiveForPair(s.t, s.t.jobs[action.id].app, s.t.jobs[action.id].device))
  }

  lemma DoublingBreaks(s: System, action: Action, strict: bool)
    requires Inv(s) && DoublesActive(s, action, strict)
    ensures !OneActivePerPair(Next(s, action, strict).t)
  {
    JobsHaveTasks(s);
    hide JobOk, HandlerOk, LockOk;
    var n := Next(s, action, strict);
    var app := if action.CreateStep? then s.handlers[action.h].app else s.t.jobs[action.id].app;
    var device := if action.CreateStep? then s.handlers[action.h].device else s.t.jobs[action.id].device;
    var j: nat :| j in s.t.jobs && s.t.jobs[j].app == app && s.t.jobs[j].device == device && IsActive(s.t.jobs[j].phase);
    assert j != action.id && n.t.jobs[j] == s.t.jobs[j];
    assert n.t.jobs[action.id].app == app && n.t.jobs[action.id].device == device && IsActive(n.t.jobs[action.id].phase);
  }

  /** A job for a pair without an active one. */
  lemma SpawnKeepsOne(t: Tables, id: JobId, app: AppId, device: DeviceId)
    requires OneActivePerPair(t) && !ActiveForPair(t, app, device) && id !in t.jobs
    ensures OneActivePerPair(InsertJob(t, id, app, device))
  {
  }

  lemma StatusKeepsOne(t: Tables, id: JobId, phase: Phase)
    requires OneActivePerPair(t) && id in t.jobs
    requires IsActive(t.jobs[id].phase) || !ActiveForPair(t, t.jobs[id].app, t.jobs[id].device)
    ensures OneActivePerPair(UpdateStatus(t, id, phase))
  {
  }

  lemma SameJobsKeepOne(t: Tables, n: Tables)
    requires OneActivePerPair(t) && n.jobs == t.jobs
    ensures OneActivePerPair(n)
  {
  }

  lemma OthersKeepOne(s: System, action: Action, strict: bool)
    requires Inv(s) && OneActivePerPair(s.t) && !DoublesActive(s, action, strict)
    ensures OneActivePerPair(Next(s, action, strict).t)
  {
    JobsHaveTasks(s);
    hide Commit, LockOk, HandlerOk, ActiveForApp, Clashes, MayAcquire, OneActivePerPair;
    if !TouchesJobs(action) {
      hide Next;
      Untouched(s, action, strict);
      SameJobsKeepOne(s.t, Next(s, action, strict).t);
    } else if action.JobStep? && action.id in s.tasks && s.tasks[action.id].running && action.recorded {
      assert JobOk(s, action.id);
      StatusKeepsOne(s.t, action.id, action.phase);
    } else if action.LateStep? && !strict && action.id in s.tasks && s.tasks[action.id].lingering && IsProgress(action.phase) {
      StatusKeepsOne(s.t, action.id, action.phase);
    } else if action.CreateStep? && action.id !in s.tasks && Is(s, action.h) && s.handlers[action.h].Creating? {
      if AppPath(s.t, s.handlers[action.h].app).Some? {
        SpawnKeepsOne(s.t, action.id, s.handlers[action.h].app, s.handlers[action.h].device);
      }
    } else if action.QueueStep? && action.id !in s.tasks && Is(s, action.h) && s.handlers[action.h].Refreshing? && s.handlers[action.h].targets != [] {
      if !ActiveForPair(s.t, s.handlers[action.h].targets[0].app, s.handlers[action.h].targets[0].device) {
        SpawnKeepsOne(s.t, action.id, s.handlers[action.h].targets[0].app, s.handlers[action.h].targets[0].device);
      }
    } else {
      SameJobsKeepOne(s.t, Next(s, action, strict).t);
    }
  }

  /**
   In every run a step gives a pair a second active job exactly if it is a manual install, or a late
   report that revives an ended job, while the pair has an active one. A refresh never does.
   */
  lemma SecondActiveJob(start: System, actions: seq<Action>, action: Action, strict: bool)
    requires Start(start) && OneActivePerPair(Run(start, actions, strict).t)
    ensures OneActivePerPair(Next(Run(start, actions, strict), action, strict).t) <==> !DoublesActive(Run(start, actions, strict), action, strict)
  {
    InvFromStart(start, actions, strict);
    var s := Run(start, actions, strict);
    hide Inv, Next, OneActivePerPair, DoublesActive;
    if DoublesActive(s, action, strict) {
      DoublingBreaks(s, action, strict);
    } else {
      OthersKeepOne(s, action, strict);
    }
  }

  // ----- jobs that never end

  /** A job whose row says that it is active, but whose task writes no more status of its own. */
  predicate Interrupted(s: System, j: JobId) {
    Active(s, j) && !s.tasks[j].running
  }

  /** How a job comes to be interrupted: by a restart, by a final status that was not written, or by a late report. */
  lemma WhatInterrupts(s: System, action: Action, strict: bool, j: JobId)
    requires Inv(s)
    ensures Interrupted(Next(s, action, strict), j) <==>
              || Interrupted(s, j)
              || (action.Restart? && Active(s, j))
              || (action.JobStep? && action.id == j && j in s.tasks && s.tasks[j].running && !IsActive(action.phase) && !action.recorded)
              || (Revives(s, action, strict) && action.id == j)
  {
    JobsHaveTasks(s);
    hide Inv, Next, Revives, OnlyPhases, Interrupted;
    if Spawns(action) {
      SpawnEffect(s, action, strict);
      SpawnInterruptsNone(s, Next(s, action, strict), action.id, j);
    } else if IsStatus(action) {
      StatusEffect(s, action, strict, j);
    } else {
      Untouched(s, action, strict);
      SameInterrupted(s, Next(s, action, strict), j);
    }
    NoRevival(s, action, strict);
  }

  lemma NoRevival(s: System, action: Action, strict: bool)
    ensures Revives(s, action, strict) ==> action.LateStep?
  {
  }

  lemma SameInterrupted(s: System, n: System, j: JobId)
    requires n.t.jobs == s.t.jobs && n.tasks == s.tasks
    ensures Interrupted(n, j) == Interrupted(s, j)
  {
  }

  lemma SpawnInterruptsNone(s: System, n: System, id: JobId, j: JobId)
    requires
      || (n.t.jobs == s.t.jobs && n.tasks == s.tasks)
      || (&& id !in s.tasks && id in n.tasks && n.tasks[id].running && id in n.t.jobs
          && n.t.jobs == s.t.jobs[id := n.t.jobs[id]] && n.tasks == s.tasks[id := n.tasks[id]])
    ensures Interrupted(n, j) == Interrupted(s, j)
  {
  }

  lemma {:induction false} InterruptedForEver(s: System, rest: seq<Action>, strict: bool, j: JobId)
    requires Inv(s) && Interrupted(s, j)
    ensures Inv(Run(s, rest, strict)) && Interrupted(Run(s, rest, strict), j) && Run(s, rest, strict).t.jobs[j].app == s.t.jobs[j].app
    decreases |rest|
  {
    if rest != [] {
      InterruptedForEver(s, rest[..|rest| - 1], strict, j);
      hide Inv, Next;
      var m := Run(s, rest[..|rest| - 1], strict);
      InvKept(m, rest[|rest| - 1], strict);
      WhatInterrupts(m, rest[|rest| - 1], strict, j);
      JobsStay(m, rest[|rest| - 1], strict, j);
    }
  }

  function ActiveJobs(s: System, app: AppId): set<JobId> {
    set j | j in s.t.jobs && s.t.jobs[j].app == app && Active(s, j)
  }

  lemma FinishOne(s: System, app: AppId, strict: bool, j: JobId)
    requires Inv(s) && j in ActiveJobs(s, app) && s.tasks[j].running
    ensures
      var n := Next(s, JobStep(j, Failed, true, false), strict);
      && Inv(n) && n.t.apps == s.t.apps && ActiveJobs(n, app) == ActiveJobs(s, app) - {j}
      && forall k :: k in ActiveJobs(n, app) ==> n.tasks[k] == s.tasks[k]
  {
    InvKept(s, JobStep(j, Failed, true, false), strict);
  }

  lemma {:induction false} FinishAll(s: System, app: AppId, strict: bool) returns (rest: seq<Action>)
    requires Inv(s) && forall j :: j in ActiveJobs(s, app) ==> s.tasks[j].running
    ensures Inv(Run(s, rest, strict)) && Run(s, rest, strict).t.apps == s.t.apps && ActiveJobs(Run(s, rest, strict), app) == {}
    decreases ActiveJobs(s, app)
  {
    hide Inv, Next, Active;
    if ActiveJobs(s, app) == {} {
      rest := [];
    } else {
      var j: nat :| j in ActiveJobs(s, app);
      var step := JobStep(j, Failed, true, false);
      FinishOne(s, app, strict, j);
      var n := Next(s, step, strict);
      var more := FinishAll(n, app, strict);
      rest := [step] + more;
      RunJoins(s, [step], more, strict);
      RunOf(s, [], step, strict);
      assert [] + [step] == [step] && Run(s, [], strict) == s;
    }
  }

  lemma NoneActiveIsDeletable(s: System, app: AppId)
    requires Inv(s) && ActiveJobs(s, app) == {} && AppPath(s.t, app).Some?
    ensures Deletable(s.t, app).DeletionReady?
  {
    JobsHaveTasks(s);
    hide JobOk, HandlerOk;
    assert forall j :: j in s.t.jobs && s.t.jobs[j].app == app && IsActive(s.t.jobs[j].phase) ==> j in ActiveJobs(s, app);
  }

  /** Every request may end. */
  lemma {:induction false} EndAll(s: System, strict: bool) returns (rest: seq<Action>)
    ensures Run(s, rest, strict).t == s.t && Run(s, rest, strict).tasks == s.tasks && Run(s, rest, strict).handlers == map[]
    decreases |s.handlers|
  {
    if s.handlers == map[] {
      rest := [];
    } else {
      var h: nat :| h in s.handlers;
      var n := Next(s, End(h), strict);
      assert n.handlers.Keys == s.handlers.Keys - {h};
      assert |n.handlers| == |n.handlers.Keys| && |s.handlers| == |s.handlers.Keys|;
      var more := EndAll(n, strict);
      hide Next;
      rest := [End(h)] + more;
      RunJoins(s, [End(h)], more, strict);
      RunOf(s, [], End(h), strict);
      assert [] + [End(h)] == [End(h)] && Run(s, [], strict) == s;
    }
  }

  lemma DeletionWorks(s: System, strict: bool, app: AppId)
    requires s.handlers == map[] && Deletable(s.t, app).DeletionReady?
    ensures AppPath(Run(s, [Begin(0, Deleting(app)), MarkStep(0, true)], strict).t, app).None?
  {
    var steps := [Begin(0, Deleting(app)), MarkStep(0, true)];
    var begun := s.(handlers := map[0 := Deleting(app)]);
    assert Next(s, steps[0], strict) == begun;
    assert AppPath(Next(begun, steps[1], strict).t, app).None?;
    hide Next;
    RunOf(s, [], steps[0], strict);
    RunOf(s, [steps[0]], steps[1], strict);
    assert [] + [steps[0]] == [steps[0]] && [steps[0]] + [steps[1]] == steps && Run(s, [], strict) == s;
  }

  /** Finish the running jobs, end the requests, delete. */
  lemma DeletionAfterAll(s: System, strict: bool, app: AppId) returns (rest: seq<Action>)
    requires Inv(s) && AppPath(s.t, app).Some? && forall j :: j in ActiveJobs(s, app) ==> s.tasks[j].running
    ensures AppPath(Run(s, rest, strict).t, app).None?
  {
    hide Inv, Next, Run, Active;
    var finish := FinishAll(s, app, strict);
    var m := Run(s, finish, strict);
    NoneActiveIsDeletable(m, app);
    var end := EndAll(m, strict);
    RunJoins(s, finish, end, strict);
    var deletion := [Begin(0, Deleting(app)), MarkStep(0, true)];
    DeletionWorks(Run(s, finish + end, strict), strict, app);
    RunJoins(s, finish + end, deletion, strict);
    rest := finish + end + deletion;
  }

  lemma CommitKeepsLive(t: Tables, d: Download, renamed: bool, written: nat, app: AppId)
    requires AppPath(t, app).Some?
    ensures AppPath(Commit(t, d, renamed, written).0, app).Some?
  {
    hide Clashes, MayReplace, AlreadyThere, FinalPath, RowsWritten;
  }

  lemma MarkKeepsLive(s: System, h: nat, sourcesUpdated: bool, app: AppId)
    requires AppPath(s.t, app).Some? && ActiveForApp(s.t, app)
    ensures AppPath(MarkNext(s, h, sourcesUpdated).t, app).Some?
  {
  }

  /** Only a deletion that the store allows takes a live app away. */
  lemma LiveAppStays(s: System, action: Action, strict: bool, app: AppId)
    requires AppPath(s.t, app).Some? && ActiveForApp(s.t, app)
    ensures AppPath(Next(s, action, strict).t, app).Some?
  {
    hide Commit, ActiveForPair, ActiveForApp, Clashes, MayAcquire;
    match action
    case MarkStep(h, sourcesUpdated) => MarkKeepsLive(s, h, sourcesUpdated, app);
    case CommitStep(h, renamed, written) =>
      if Is(s, h) && s.handlers[h].Downloading? {
        CommitKeepsLive(s.t, s.handlers[h].d, renamed, written, app);
      }
    case End(_) => RemovalEffect(s, action, strict);
    case LandStep(_) => RemovalEffect(s, action, strict);
    case _ =>
  }

  lemma {:induction false} InterruptedKeepsItsApp(s: System, rest: seq<Action>, strict: bool, app: AppId, j: JobId)
    requires Inv(s) && AppPath(s.t, app).Some? && Interrupted(s, j) && s.t.jobs[j].app == app
    ensures AppPath(Run(s, rest, strict).t, app).Some?
    decreases |rest|
  {
    if rest != [] {
      var before := rest[..|rest| - 1];
      InterruptedKeepsItsApp(s, before, strict, app, j);
      InterruptedForEver(s, before, strict, j);
      hide Inv, Next, AppPath;
      LiveAppStays(Run(s, before, strict), rest[|rest| - 1], strict, app);
    }
  }

  ghost predicate MayBeDeleted(s: System, app: AppId, strict: bool) {
    exists rest: seq<Action> :: AppPath(Run(s, rest, strict).t, app).None?
  }

  /**
   From every reachable state a live app can come to be deleted exactly if none of its jobs is
   interrupted: running jobs and requests end, interrupted jobs never do.
   */
  lemma InterruptedJobBlocksItsApp(start: System, actions: seq<Action>, strict: bool, app: AppId)
    requires Start(start) && AppPath(Run(start, actions, strict).t, app).Some?
    ensures
      var s := Run(start, actions, strict);
      MayBeDeleted(s, app, strict) <==> forall j :: j in s.t.jobs && s.t.jobs[j].app == app ==> !Interrupted(s, j)
  {
    InvFromStart(start, actions, strict);
    var s := Run(start, actions, strict);
    hide Inv, Next, Run, AppPath;
    if j: nat :| j in s.t.jobs && s.t.jobs[j].app == app && Interrupted(s, j) {
      forall rest: seq<Action> ensures AppPath(Run(s, rest, strict).t, app).Some? {
        InterruptedKeepsItsApp(s, rest, strict, app, j);
      }
    } else {
      var rest := DeletionAfterAll(s, strict, app);
    }
  }
}
