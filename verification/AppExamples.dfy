/** Runs that reach the states the theorems about apps and jobs must except. */
module AppExamples {
  import opened Wrappers
  import opened AppStore
  import opened AppRuns

  /** A run leads from a server that has not queued a job yet to `n`. */
  ghost predicate Reaches(s: System, n: System, strict: bool) {
    Start(s) && exists actions: seq<Action> :: Run(s, actions, strict) == n
  }

  lemma ReachesItself(s: System, strict: bool)
    requires Start(s)
    ensures Reaches(s, s, strict)
  {
    assert Run(s, [], strict) == s;
  }

  lemma ReachesNext(s: System, m: System, action: Action, strict: bool, n: System)
    requires Reaches(s, m, strict) && Next(m, action, strict) == n
    ensures Reaches(s, n, strict)
  {
    var actions: seq<Action> :| Run(s, actions, strict) == m;
    RunOf(s, actions, action, strict);
  }

  function Empty(): System {
    System(Tables(map[], map[], map[], {}), map[], map[], multiset{})
  }

  /** App 1 is stored. */
  function Uploaded(): System {
    System(Tables(map[1 := App(Path(1, None), "a", Some(7), false)], map[], map[], {Path(1, None)}), map[], map[], multiset{})
  }

  /** Its install on device 5 is job 10. */
  function Queued1(): System {
    Uploaded().(t := Uploaded().t.(jobs := map[10 := Job(1, 5, Queued)]), tasks := map[10 := Task(Path(1, None), true, false)])
  }

  lemma EmptyStarts()
    ensures Start(Empty())
  {
  }

  lemma UploadedIsReached(strict: bool)
    ensures Reaches(Empty(), Uploaded(), strict)
  {
    EmptyStarts();
    ReachesItself(Empty(), strict);
    var n := Next(Empty(), UploadStep(1, "a", 7), strict);
    assert n.t.apps == Uploaded().t.apps && n.t.files == Uploaded().t.files;
    ReachesNext(Empty(), Empty(), UploadStep(1, "a", 7), strict, Uploaded());
  }

  lemma QueuedIsReached(strict: bool)
    ensures Reaches(Empty(), Queued1(), strict)
  {
    UploadedIsReached(strict);
    hide Reaches;
    var asking := Uploaded().(handlers := map[0 := Creating(1, 5)]);
    ReachesNext(Empty(), Uploaded(), Begin(0, Creating(1, 5)), strict, asking);
    var n := Next(asking, CreateStep(0, 10), strict);
    assert n.handlers == map[] && n.t == Queued1().t && n.tasks == Queued1().tasks;
    ReachesNext(Empty(), asking, CreateStep(0, 10), strict, Queued1());
  }

  // ----- a late report

  /** Signing timed out; the aborted step lingers. */
  function TimedOut(): System {
    Queued1().(t := Queued1().t.(jobs := map[10 := Job(1, 5, Failed)]), tasks := map[10 := Task(Path(1, None), false, true)])
  }

  /** The app was deleted since. */
  function Deleted(): System {
    TimedOut().(t := Tables(map[1 := App(Path(1, None), "a", Some(7), true)], TimedOut().t.jobs, map[], {}))
  }

  /** The deletion has marked the app and is about to remove its file. */
  function Marked(): System {
    Deleted().(t := Deleted().t.(files := {Path(1, None)}), handlers := map[0 := Removing(1, Path(1, None))])
  }

  lemma TimedOutIsReached()
    ensures Reaches(Empty(), TimedOut(), false)
  {
    QueuedIsReached(false);
    hide Reaches;
    ReachesNext(Empty(), Queued1(), JobStep(10, Failed, true, true), false, TimedOut());
  }

  lemma MarkedIsReached()
    ensures Reaches(Empty(), Marked(), false)
  {
    TimedOutIsReached();
    hide Reaches;
    var asking := TimedOut().(handlers := map[0 := Deleting(1)]);
    ReachesNext(Empty(), TimedOut(), Begin(0, Deleting(1)), false, asking);
    assert forall j :: j in asking.t.jobs ==> j == 10;
    assert Deletable(asking.t, 1) == DeletionReady(Path(1, None));
    assert SetDeleted(asking.t, 1, true).apps == Deleted().t.apps;
    ReachesNext(Empty(), asking, MarkStep(0, true), false, Marked());
  }

  lemma DeletedIsReached()
    ensures Reaches(Empty(), Deleted(), false)
  {
    MarkedIsReached();
    hide Reaches;
    var n := Next(Marked(), RemoveStep(0, true, true), false);
    assert n.t == Deleted().t && n.handlers == map[];
    ReachesNext(Empty(), Marked(), RemoveStep(0, true, true), false, Deleted());
  }

  /** An install times out, its app is deleted, and the late report makes the job active without app or file. */
  lemma LateReportLosesItsApp()
    ensures exists n: System :: Reaches(Empty(), n, false) && Active(n, 10) && !Sound(n) && AppPath(n.t, n.t.jobs[10].app).None? && n.t.files == {}
  {
    DeletedIsReached();
    hide Reaches;
    var n := Next(Deleted(), LateStep(10, Transferring), false);
    ReachesNext(Empty(), Deleted(), LateStep(10, Transferring), false, n);
    assert n.t.jobs[10] == Job(1, 5, Transferring) && n.tasks == Deleted().tasks && n.t.apps == Deleted().t.apps;
    assert Active(n, 10) && AppPath(n.t, 1) == None;
  }

  /** The late report may also come just before the file is removed. */
  lemma LateReportLosesItsFile()
    ensures exists m: System :: Reaches(Empty(), m, false) && LosesFile(m, LateStep(10, Transferring), false)
  {
    MarkedIsReached();
    assert Revives(Marked(), LateStep(10, Transferring), false);
    assert Doomed(Marked().handlers[0]) == Some(Marked().tasks[10].path);
    assert Threatened(Marked(), Path(1, None));
  }

  // ----- jobs that never end, in the three ways there are

  lemma RestartInterrupts(strict: bool)
    ensures exists n: System :: Reaches(Empty(), n, strict) && Interrupted(n, 10) && AppPath(n.t, 1).Some?
  {
    QueuedIsReached(strict);
    hide Reaches;
    var n := Next(Queued1(), Restart, strict);
    ReachesNext(Empty(), Queued1(), Restart, strict, n);
    assert n.t == Queued1().t && Interrupted(n, 10);
  }

  lemma LostStatusInterrupts(strict: bool)
    ensures exists n: System :: Reaches(Empty(), n, strict) && Interrupted(n, 10) && AppPath(n.t, 1).Some?
  {
    QueuedIsReached(strict);
    hide Reaches;
    var n := Next(Queued1(), JobStep(10, Failed, false, false), strict);
    ReachesNext(Empty(), Queued1(), JobStep(10, Failed, false, false), strict, n);
    assert n.t == Queued1().t && Interrupted(n, 10);
  }

  lemma LateReportInterrupts()
    ensures exists n: System :: Reaches(Empty(), n, false) && Interrupted(n, 10) && AppPath(n.t, 1).Some?
  {
    TimedOutIsReached();
    hide Reaches;
    var n := Next(TimedOut(), LateStep(10, Transferring), false);
    ReachesNext(Empty(), TimedOut(), LateStep(10, Transferring), false, n);
    assert n.t.jobs[10] == Job(1, 5, Transferring) && n.t.apps == TimedOut().t.apps && n.tasks == TimedOut().tasks;
    assert Interrupted(n, 10);
  }

  // ----- a second active job

  lemma ManualInstallDoubles(strict: bool)
    ensures exists n: System :: Reaches(Empty(), n, strict) && Active(n, 10) && Active(n, 11) && n.t.jobs[10].app == n.t.jobs[11].app && n.t.jobs[10].device == n.t.jobs[11].device
  {
    QueuedIsReached(strict);
    hide Reaches;
    var asking := Queued1().(handlers := map[0 := Creating(1, 5)]);
    ReachesNext(Empty(), Queued1(), Begin(0, Creating(1, 5)), strict, asking);
    var n := Next(asking, CreateStep(0, 11), strict);
    ReachesNext(Empty(), asking, CreateStep(0, 11), strict, n);
    assert n.t.jobs[10] == n.t.jobs[11] == Job(1, 5, Queued);
  }

  /** After the time-out a new install of the pair is queued as job 11. */
  function QueuedAgain(): System {
    TimedOut().(t := TimedOut().t.(jobs := map[10 := Job(1, 5, Failed), 11 := Job(1, 5, Queued)]),
                tasks := map[10 := Task(Path(1, None), false, true), 11 := Task(Path(1, None), true, false)])
  }

  lemma QueuedAgainIsReached()
    ensures Reaches(Empty(), QueuedAgain(), false)
  {
    TimedOutIsReached();
    hide Reaches;
    var asking := TimedOut().(handlers := map[0 := Creating(1, 5)]);
    ReachesNext(Empty(), TimedOut(), Begin(0, Creating(1, 5)), false, asking);
    var n := Next(asking, CreateStep(0, 11), false);
    assert n.t.jobs == QueuedAgain().t.jobs && n.tasks == QueuedAgain().tasks && n.handlers == map[];
    ReachesNext(Empty(), asking, CreateStep(0, 11), false, QueuedAgain());
  }

  lemma LateReportDoubles()
    ensures exists n: System :: Reaches(Empty(), n, false) && Active(n, 10) && Active(n, 11) && n.t.jobs[10].app == n.t.jobs[11].app && n.t.jobs[10].device == n.t.jobs[11].device
  {
    QueuedAgainIsReached();
    hide Reaches;
    var n := Next(QueuedAgain(), LateStep(10, Signing), false);
    ReachesNext(Empty(), QueuedAgain(), LateStep(10, Signing), false, n);
    assert n.t.jobs[10] == Job(1, 5, Signing) && n.t.jobs[11] == Job(1, 5, Queued);
  }

  // ----- downloads

  /** Source 3 is not linked to an app; its download would create app 2. */
  function NewDownload(): Download {
    Download(3, Source(None, 0), "b", 7, 2)
  }

  function Asked(): System {
    System(Tables(map[], map[], map[3 := Source(None, 0)], {}), map[], map[0 := Downloading(NewDownload())], multiset{})
  }

  lemma AskedIsReached(strict: bool)
    ensures Reaches(Empty(), Asked(), strict)
  {
    EmptyStarts();
    ReachesItself(Empty(), strict);
    hide Reaches;
    var added := Asked().(handlers := map[]);
    ReachesNext(Empty(), Empty(), SourceStep(3, Source(None, 0)), strict, added);
    ReachesNext(Empty(), added, Begin(0, Downloading(NewDownload())), strict, Asked());
  }

  lemma NewAppAfter(written: nat, strict: bool)
    requires 1 <= written
    ensures
      var committed := Next(Asked(), CommitStep(0, true, written), strict);
      var n := Next(committed, CleanStep(0, true), strict);
      2 in n.t.apps && !n.t.apps[2].deleted && n.t.apps[2].path == Path(2, None) && n.t.files == {}
      && committed.handlers[0] == Cleaning(if written >= 3 then Replaced(Path(2, None)) else Rejected(Some(Path(2, None))))
  {
    assert !Clashes(Asked().t, 2, Path(2, None), "b") && !Clashes(Asked().t.(files := {Path(2, None)}), 2, Path(2, None), "b");
    assert Asked().t.files + {Path(2, None)} == {Path(2, None)};
  }

  /** A download that creates its app succeeds, and the app's file is gone. */
  lemma NewDownloadLosesItsFile(strict: bool)
    ensures exists committed: System, n: System ::
      && Reaches(Empty(), committed, strict) && 0 in committed.handlers && committed.handlers[0] == Cleaning(Replaced(Path(2, None)))
      && Reaches(Empty(), n, strict) && AppPath(n.t, 2) == Some(Path(2, None)) && Path(2, None) !in n.t.files
  {
    AskedIsReached(strict);
    NewAppAfter(3, strict);
    hide Reaches;
    var committed := Next(Asked(), CommitStep(0, true, 3), strict);
    ReachesNext(Empty(), Asked(), CommitStep(0, true, 3), strict, committed);
    ReachesNext(Empty(), committed, CleanStep(0, true), strict, Next(committed, CleanStep(0, true), strict));
  }

  /** The same download, whose client went away while the file was being removed. */
  function GivenUp(): System {
    System(Tables(map[2 := App(Path(2, None), "b", Some(7), false)], map[], map[3 := Source(Some(2), 0)], {Path(2, None)}),
           map[], map[], multiset{Path(2, None)})
  }

  lemma DroppedCleaning(committed: System, strict: bool)
    requires committed == Next(Asked(), CommitStep(0, true, 3), strict)
    ensures Next(committed, End(0), strict) == GivenUp()
  {
    NewAppAfter(3, strict);
    assert committed.t.files == {Path(2, None)} && committed.t.apps == GivenUp().t.apps && committed.t.sources == GivenUp().t.sources;
    assert committed.handlers - {0} == map[];
  }

  lemma GivenUpIsReached(strict: bool)
    ensures Reaches(Empty(), GivenUp(), strict)
  {
    AskedIsReached(strict);
    hide Reaches, Next;
    var committed := Next(Asked(), CommitStep(0, true, 3), strict);
    ReachesNext(Empty(), Asked(), CommitStep(0, true, 3), strict, committed);
    DroppedCleaning(committed, strict);
    ReachesNext(Empty(), committed, End(0), strict, GivenUp());
  }

  /** The removal no longer holds the lock, so a job can be queued for its file. */
  lemma GivenUpRemovalLosesAFile(strict: bool)
    ensures exists m: System :: Reaches(Empty(), m, strict) && LosesFile(m, CreateStep(0, 10), strict)
  {
    GivenUpIsReached(strict);
    hide Reaches;
    var asking := GivenUp().(handlers := map[0 := Creating(2, 5)]);
    ReachesNext(Empty(), GivenUp(), Begin(0, Creating(2, 5)), strict, asking);
    assert Activated(asking, CreateStep(0, 10), strict) == Some(Path(2, None)) && Threatened(asking, Path(2, None));
  }

  /** A deletion whose second statement fails leaves the app deleted and its file in place. */
  lemma HalfDeletionLeavesItsFile(strict: bool)
    ensures exists n: System :: Reaches(Empty(), n, strict) && 1 in n.t.apps && n.t.apps[1].deleted && n.t.apps[1].path in n.t.files
                                && n.handlers == map[] && n.loose == multiset{}
  {
    UploadedIsReached(strict);
    hide Reaches;
    var asking := Uploaded().(handlers := map[0 := Deleting(1)]);
    ReachesNext(Empty(), Uploaded(), Begin(0, Deleting(1)), strict, asking);
    assert Deletable(asking.t, 1) == DeletionReady(Path(1, None));
    var n := Next(asking, MarkStep(0, false), strict);
    assert n.handlers == map[];
    ReachesNext(Empty(), asking, MarkStep(0, false), strict, n);
  }

  /** One that fails after its first statement is refused, and leaves an app without a file. */
  lemma RefusedDownloadLeavesAnEmptyApp(strict: bool)
    ensures exists committed: System, n: System ::
      && Reaches(Empty(), committed, strict) && 0 in committed.handlers && committed.handlers[0] == Cleaning(Rejected(Some(Path(2, None))))
      && Reaches(Empty(), n, strict) && AppPath(n.t, 2) == Some(Path(2, None)) && Path(2, None) !in n.t.files
  {
    AskedIsReached(strict);
    NewAppAfter(1, strict);
    hide Reaches;
    var committed := Next(Asked(), CommitStep(0, true, 1), strict);
    ReachesNext(Empty(), Asked(), CommitStep(0, true, 1), strict, committed);
    ReachesNext(Empty(), committed, CleanStep(0, true), strict, Next(committed, CleanStep(0, true), strict));
  }

  /** Source 3 is linked to app 1, whose row and files are these. */
  function Linked(path: Path, sha: Sha, deleted: bool, files: set<Path>): System {
    System(Tables(map[1 := App(path, sha, Some(7), deleted)], map[], map[3 := Source(Some(1), 0)], files), map[], map[], multiset{})
  }

  function LinkedDownload(): Download {
    Download(3, Source(Some(1), 0), "b", 7, 9)
  }

  const NEW_PATH := Path(1, Some("b"))

  lemma LinkedCommit(path: Path, sha: Sha, deleted: bool, files: set<Path>)
    requires !(sha == "b" && path in files)
    ensures Commit(Linked(path, sha, deleted, files).t, LinkedDownload(), true, 1)
         == (Linked(NEW_PATH, "b", false, files + {NEW_PATH}).t, Replaced(path))
  {
    var t := Linked(path, sha, deleted, files).t;
    assert "b"[..1] == "b";
    assert FinalPath(LinkedDownload()) == NEW_PATH;
    assert !Clashes(t, 1, NEW_PATH, "b") && !Clashes(t.(files := files + {NEW_PATH}), 1, NEW_PATH, "b");
    assert t.apps[1 := App(NEW_PATH, "b", Some(7), false)] == Linked(NEW_PATH, "b", false, files).t.apps;
  }

  lemma LinkedDownloadIsReached(start: System, path: Path, sha: Sha, deleted: bool, files: set<Path>, strict: bool)
    requires Reaches(start, Linked(path, sha, deleted, files), strict) && !(sha == "b" && path in files)
    ensures Reaches(start, Linked(NEW_PATH, "b", false, files + {NEW_PATH} - {path}), strict)
  {
    hide Reaches;
    var idle := Linked(path, sha, deleted, files);
    var asked := idle.(handlers := map[0 := Downloading(LinkedDownload())]);
    ReachesNext(start, idle, Begin(0, Downloading(LinkedDownload())), strict, asked);
    LinkedCommit(path, sha, deleted, files);
    hide Commit;
    var committed := Next(asked, CommitStep(0, true, 1), strict);
    ReachesNext(start, asked, CommitStep(0, true, 1), strict, committed);
    var n := Next(committed, CleanStep(0, true), strict);
    assert n.handlers == map[];
    ReachesNext(start, committed, CleanStep(0, true), strict, n);
  }

  lemma LinkedDeletionIsReached(start: System, strict: bool)
    requires Reaches(start, Linked(NEW_PATH, "b", false, {NEW_PATH}), strict)
    ensures Reaches(start, Linked(NEW_PATH, "b", true, {}), strict)
  {
    hide Reaches;
    var idle := Linked(NEW_PATH, "b", false, {NEW_PATH});
    var asked := idle.(handlers := map[0 := Deleting(1)]);
    ReachesNext(start, idle, Begin(0, Deleting(1)), strict, asked);
    var marked := Linked(NEW_PATH, "b", true, {NEW_PATH}).(handlers := map[0 := Removing(1, NEW_PATH)]);
    assert Deletable(asked.t, 1) == DeletionReady(NEW_PATH);
    assert SetDeleted(asked.t, 1, true).apps == marked.t.apps;
    ReachesNext(start, asked, MarkStep(0, true), strict, marked);
    var n := Next(marked, RemoveStep(0, true, true), strict);
    assert n.handlers == map[] && n.t.files == {};
    ReachesNext(start, marked, RemoveStep(0, true, true), strict, n);
  }

  /** A linked app is downloaded, deleted and downloaded again: the second download removes the file it stored. */
  lemma RepeatedDownloadLosesItsFile(strict: bool)
    ensures exists n: System :: Reaches(Empty(), n, strict) && AppPath(n.t, 1) == Some(NEW_PATH) && n.t.files == {}
  {
    UploadedIsReached(strict);
    var linked := Linked(Path(1, None), "a", false, {Path(1, None)});
    hide Reaches;
    ReachesNext(Empty(), Uploaded(), SourceStep(3, Source(Some(1), 0)), strict, linked);
    LinkedDownloadIsReached(Empty(), Path(1, None), "a", false, {Path(1, None)}, strict);
    assert {Path(1, None)} + {NEW_PATH} - {Path(1, None)} == {NEW_PATH};
    LinkedDeletionIsReached(Empty(), strict);
    LinkedDownloadIsReached(Empty(), NEW_PATH, "b", true, {}, strict);
    assert {} + {NEW_PATH} - {NEW_PATH} == {};
  }
}
