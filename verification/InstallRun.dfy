/**
 `install_remote_pairing_app`: two sessions, signing, planning, upload, one install command,
 verification and two cleanups inside one deadline.
 */
module InstallRun {
  import opened Wrappers
  import opened RemotePaths
  import opened SignedTree
  import opened Phone
  import opened Afc
  import opened Staging

  // ----- the deadline budget, in seconds

  const REFUSE_TIMEOUT: nat := 900
  const UPGRADE_TIMEOUT: nat := 3600
  const SESSION_CLEANUP_TIMEOUT: nat := 10
  const VERIFICATION_TIMEOUT: nat := 20

  datatype ExistingAppPolicy = Refuse | Upgrade

  function InstallTimeout(policy: ExistingAppPolicy): nat {
    if policy == Refuse then REFUSE_TIMEOUT else UPGRADE_TIMEOUT
  }

  function CheckedSub(instant: nat, duration: nat, otherwise: nat): nat {
    if duration <= instant then instant - duration else otherwise
  }

  function InstallCleanupReserve(): nat {
    CLEANUP_TIMEOUT + SESSION_CLEANUP_TIMEOUT
  }

  function InstallWorkDeadline(overall: nat, workStart: nat): nat {
    CheckedSub(overall, InstallCleanupReserve(), workStart)
  }

  function InstallVerificationDeadline(overall: nat, start: nat): (limit: nat) {
    var overallLimit := InstallWorkDeadline(overall, start);
    if start + VERIFICATION_TIMEOUT <= overallLimit then start + VERIFICATION_TIMEOUT else overallLimit
  }

  // ----- the report

  datatype Stage =
    | Discovery | ValidatePairing | Tunnel | RsdHandshake | Identity | AccountPreflight | Signing
    | AlreadyInstalled | StagingStage | InstallStage | Verification | CleanupStage | SessionCleanupStage | Complete

  datatype Outcome = NotStarted | Installed | NotInstalled | OutcomeUnknown

  datatype SessionCleanup = SessionNotNeeded | SessionSucceeded | SessionFailed

  /** `error_kind`; `NoError` is the empty string. */
  datatype ErrorKind =
    | NoError
    | SessionOpen | TimeoutKind | IdentityKind(which: nat) | IdentityChanged | SessionCleanupKind
    | SigningKind(which: nat) | LocalTask | DeviceRegistrationRequired
    | InstallationProxy | AppAlreadyInstalled | InstalledAppLookup
    | PlanKind(failure: PlanFailure) | AfcService | UploadKind(kind: StageFailure)
    | InstallNotVerified | InstallRejected | InstallResultAmbiguous | StagingCleanupKind

  datatype Report = Report(
    outcome: Outcome, stage: Stage, cleanup: StagingCleanup, sessionCleanup: SessionCleanup,
    installCommands: nat, errorKind: ErrorKind, bundleId: Option<string>, certificatePressure: bool)

  function Failure(stage: Stage, kind: ErrorKind, pressure: bool, bundleId: Option<string>): Report {
    Report(NotStarted, stage, CleanupNotNeeded, SessionNotNeeded, 0, kind, bundleId, pressure)
  }

  function RecordSessionCleanup(report: Report, cleanup: SessionCleanup): Report {
    var noted := report.(sessionCleanup := cleanup);
    if cleanup == SessionFailed && report.errorKind == NoError then
      noted.(stage := SessionCleanupStage, errorKind := SessionCleanupKind)
    else noted
  }

  function MergeSessionCleanup(first: SessionCleanup, second: SessionCleanup): (merged: SessionCleanup)
    ensures merged.SessionFailed? <==> first.SessionFailed? || second.SessionFailed?
    ensures merged.SessionNotNeeded? <==> first.SessionNotNeeded? && second.SessionNotNeeded?
  {
    if first == SessionFailed || second == SessionFailed then SessionFailed
    else if first == SessionSucceeded || second == SessionSucceeded then SessionSucceeded
    else SessionNotNeeded
  }

  datatype CommandResult = Accepted | Definitive | PossiblyAccepted

  /** `outcome_after_install_result`; a lookup that failed is `None`. */
  function OutcomeAfter(result: CommandResult, lookup: Option<bool>): Outcome {
    if lookup == Some(true) then Installed
    else if result == Definitive || (result == Accepted && lookup == Some(false)) then NotInstalled
    else OutcomeUnknown
  }

  function InstallErrorKind(result: CommandResult, outcome: Outcome): ErrorKind {
    match outcome
    case Installed => NoError
    case NotInstalled => if result == Accepted then InstallNotVerified else InstallRejected
    case OutcomeUnknown => InstallResultAmbiguous
    case NotStarted => InstallResultAmbiguous
  }

  // ----- what a whole run may be seen to do

  predicate Quiet(events: seq<Event>) {
    forall e :: e in events ==> !e.Installing? && !e.InstallEnded? && !e.Verifying?
  }

  predicate OnlyAfc(events: seq<Event>) {
    forall e :: e in events ==> e.AfcSent? || e.AfcSaw?
  }

  predicate NoAfc(events: seq<Event>) {
    forall e :: e in events ==> !e.AfcSent? && !e.AfcSaw?
  }

  /** Below `app` lies exactly the signed tree: same directories, files of the same size and digest. */
  ghost predicate CopyOf<Digest(!new)>(files: Files, app: string, tree: Node, sha: Bytes -> Digest) {
    && (forall p :: p in files && Within(app, p) && p != app ==>
          exists f :: f in Descendants(tree) && p == RemoteOf(app, Join(Texts(f.path))))
    && (forall f :: f in Descendants(tree) ==>
          var p := RemoteOf(app, Join(Texts(f.path)));
          && p in files
          && (if f.node.File? then
                files[p].Data? && |files[p].bytes| == |f.node.data| && sha(files[p].bytes) == sha(f.node.data)
              else files[p] == Dir))
  }

  datatype Task = Task(staging: TaskStagingPath, bundle: string, policy: ExistingAppPolicy, deadline: nat)

  /** A lookup by that time answered that the app is absent. */
  ghost predicate SeenAbsent(events: seq<Event>, bundle: string, time: nat) {
    exists t: nat :: Looked(bundle, false, t) in events && t <= time
  }

  /** A lookup in that window answered that the app is installed. */
  ghost predicate SeenInstalled(events: seq<Event>, bundle: string, start: nat, until: nat) {
    exists t: nat :: Looked(bundle, true, t) in events && start <= t <= until
  }

  /** A lookup in that window answered that the app is absent. */
  ghost predicate SeenMissing(events: seq<Event>, bundle: string, start: nat, until: nat) {
    exists t: nat :: Looked(bundle, false, t) in events && start <= t <= until
  }

  /**
   What a sent command comes to, by the phone's reply and by what a lookup found in the window: the
   app is there, or it is not and the command was refused or its success not confirmed, or nobody knows.
   */
  predicate OutcomeFits(outcome: Outcome, kind: ErrorKind, reply: Option<InstallReply>, found: bool, missing: bool) {
    && (outcome == Installed <==> found)
    && (outcome == NotInstalled <==> !found && (reply == Some(OperationFailed) || (reply == Some(InstallDone) && missing)))
    && (outcome == OutcomeUnknown <==> !found && reply != Some(OperationFailed) && !(reply == Some(InstallDone) && missing))
    && (kind == NoError <==> found)
    && (kind == InstallRejected <==> !found && reply == Some(OperationFailed))
    && (kind == InstallNotVerified <==> !found && reply == Some(InstallDone) && missing)
    && (kind == InstallResultAmbiguous <==> outcome == OutcomeUnknown)
  }

  /** Exactly one install command, what came before it, the phone's reply and the verification window after it. */
  ghost predicate InstallSplit<Digest(!new)>(events: seq<Event>, before: seq<Event>, at: nat, files: Files, reply: Option<InstallReply>,
                                            start: nat, after: seq<Event>, task: Task, tree: Node, sha: Bytes -> Digest,
                                            outcome: Outcome, kind: ErrorKind) {
    && events == before + [Installing(task.staging.app, at, files), InstallEnded(reply), Verifying(start, start + VERIFICATION_TIMEOUT)] + after
    && Quiet(before) && Quiet(after)
    && CopyOf(files, task.staging.app, tree, sha)
    && at <= start && start + VERIFICATION_TIMEOUT + InstallCleanupReserve() <= task.deadline
    && (task.policy == Refuse ==> SeenAbsent(before, task.bundle, at))
    && OutcomeFits(outcome, kind, reply, SeenInstalled(after, task.bundle, start, start + VERIFICATION_TIMEOUT),
                   SeenMissing(after, task.bundle, start, start + VERIFICATION_TIMEOUT))
  }

  ghost predicate InstalledOnce<Digest(!new)>(events: seq<Event>, task: Task, tree: Node, sha: Bytes -> Digest, outcome: Outcome, kind: ErrorKind) {
    exists before: seq<Event>, at: nat, files: Files, reply: Option<InstallReply>, start: nat, after: seq<Event> ::
      InstallSplit(events, before, at, files, reply, start, after, task, tree, sha, outcome, kind)
  }

  /** Writes stay below the root, come after it was seen absent, and only cleanup, on a connection of its own, removes. */
  ghost predicate SafeWrites(events: seq<Event>, root: string) {
    && (forall e :: e in events && Writes(e) ==>
          && e.target.Some? && Within(root, e.target.value)
          && (e.op.RemoveAll? ==> e.op.path == root))
    && (forall j :: 0 <= j < |events| && Writes(events[j]) ==> exists i :: 0 <= i < j && events[i] == AfcSaw(root, false))
    && (forall e, f :: e in events && f in events && Writes(e) && Writes(f) && e.op.RemoveAll? && !f.op.RemoveAll? ==>
          e.conn != f.conn)
  }

  lemma MirrorsIsCopy<Digest(!new)>(files: Files, app: string, tree: Node, plan: UploadPlan<Digest>, sha: Bytes -> Digest)
    requires Bounded(tree) && IsPlan(tree, sha, plan) && Mirrors(files, app, plan.entries, sha)
    ensures CopyOf(files, app, tree, sha)
  {
    var all := Descendants(tree);
    var listed := EntriesOf(all, sha);
    forall p | p in files && Within(app, p) && p != app
      ensures exists f :: f in all && p == RemoteOf(app, Join(Texts(f.path)))
    {
      var k :| 0 <= k < |plan.entries| && p == RemoteOf(app, plan.entries[k].remote);
      assert plan.entries[k] in multiset(listed);
      var m :| 0 <= m < |listed| && listed[m] == plan.entries[k];
      assert all[m] in all;
    }
    forall f | f in all
      ensures var p := RemoteOf(app, Join(Texts(f.path)));
              && p in files
              && (if f.node.File? then
                    files[p].Data? && |files[p].bytes| == |f.node.data| && sha(files[p].bytes) == sha(f.node.data)
                  else files[p] == Dir)
    {
      var m :| 0 <= m < |all| && all[m] == f;
      assert listed[m] in multiset(plan.entries);
      var k :| 0 <= k < |plan.entries| && plan.entries[k] == listed[m];
    }
  }

  // ----- install and verify

  /** `installation_proxy_client`: two timed steps. */
  method InstallationProxyClient(world: World, limit: nat) returns (connected: bool)
    modifies world`now
    ensures old(world.now) <= world.now <= if old(world.now) <= limit then limit else old(world.now)
    ensures connected ==> world.now <= limit
    ensures world.steady && old(world.now) <= limit ==> connected
  {
    var stream := world.Step(limit);
    if !stream {
      return false;
    }
    connected := world.Step(limit);
  }

  /** `installed_bundle_lookup`: an answer, or nothing by the limit. */
  method InstalledBundleLookup(world: World, bundle: string, limit: nat) returns (found: Option<bool>, ghost events: seq<Event>)
    modifies world`now, world`trace
    ensures old(world.now) <= world.now <= if old(world.now) <= limit then limit else old(world.now)
    ensures world.trace == old(world.trace) + events
    ensures events == if found.Some? then [Looked(bundle, found.value, world.now)] else []
    ensures found.Some? ==> world.now <= limit
    ensures world.steady && old(world.now) <= limit ==> found.Some?
  {
    var answered := world.Step(limit);
    if !answered {
      return None, [];
    }
    var there: bool := *;
    world.Record(Looked(bundle, there, world.now));
    return Some(there), [Looked(bundle, there, world.now)];
  }

  /** The phone may consume the staged app while it installs it; no reply by the limit means that it may have accepted. */
  method SendOneInstallCommand(world: World, app: string, limit: nat, ghost root: string) returns (r: CommandResult, ghost reply: Option<InstallReply>)
    requires Rooted(world.files) && Within(root, app)
    modifies world`now, world`trace, world`files
    ensures old(world.now) <= world.now <= if old(world.now) <= limit then limit else old(world.now)
    ensures world.trace == old(world.trace) + [Installing(app, old(world.now), old(world.files)), InstallEnded(reply)]
    ensures r == Accepted <==> reply == Some(InstallDone)
    ensures r == Definitive <==> reply == Some(OperationFailed)
    ensures reply.Some? ==> world.now <= limit
    ensures world.steady && old(world.now) <= limit ==> reply.Some?
    ensures Rooted(world.files) && SameOutside(old(world.files), world.files, root)
  {
    world.Record(Installing(app, world.now, world.files));
    var consumed: bool := *;
    if consumed {
      RemoveTreeRooted(world.files, app);
      forall p | Within(app, p) ensures Within(root, p) {
        WithinTransitive(root, app, p);
      }
      world.files := RemoveTree(world.files, app);
    }
    var finished := world.Step(limit);
    var answer: InstallReply := *;
    var result := if finished then Some(answer) else None;
    world.Record(InstallEnded(result));
    reply := result;
    r := match result
      case Some(InstallDone) => Accepted
      case Some(OperationFailed) => Definitive
      case _ => PossiblyAccepted;
  }

  lemma AppIsInside(staging: TaskStagingPath)
    requires Placed(staging)
    ensures Within(staging.root, staging.app)
  {
  }

  datatype InstallPhase = NotSent(kind: ErrorKind) | Sent(result: CommandResult, outcome: Outcome)

  /** From a finished upload to a verified outcome, or to a reason why nothing was sent. */
  method InstallAndVerify<Digest(!new)>(world: World, task: Task, ghost tree: Node, ghost sha: Bytes -> Digest, ghost before: seq<Event>)
    returns (r: InstallPhase, ghost events: seq<Event>)
    requires Rooted(world.files) && Placed(task.staging)
    requires CopyOf(world.files, task.staging.app, tree, sha) && Quiet(before)
    requires task.policy == Refuse ==> SeenAbsent(before, task.bundle, world.now)
    requires VERIFICATION_TIMEOUT + InstallCleanupReserve() <= task.deadline
    requires world.now <= InstallWorkDeadline(task.deadline, world.now)
    modifies world`now, world`trace, world`files, world`reported
    ensures old(world.now) <= world.now <= InstallWorkDeadline(task.deadline, 0)
    ensures world.trace == old(world.trace) + events && NoAfc(events)
    ensures Rooted(world.files) && SameOutside(old(world.files), world.files, task.staging.root)
    ensures r.NotSent? ==> Quiet(events) && r.kind in {TimeoutKind, InstallationProxy}
    ensures r == NotSent(TimeoutKind) <==> old(world.now) + VERIFICATION_TIMEOUT + InstallCleanupReserve() >= task.deadline
    ensures r.Sent? ==> InstalledOnce(before + events, task, tree, sha, r.outcome, InstallErrorKind(r.result, r.outcome))
    ensures world.steady ==> r != NotSent(InstallationProxy)
    ensures world.steady && r.Sent? && r.outcome == OutcomeUnknown ==> InstallEnded(Some(OtherError)) in events
  {
    hide CopyOf, Rooted, SameOutside, Within, Placed, InstalledOnce, OutcomeAfter, InstallErrorKind, SeenInstalled, SeenMissing;
    SameOutsideItself(world.files, task.staging.root);
    AppIsInside(task.staging);
    NothingInstalled();
    events := [];
    var overallLimit := InstallWorkDeadline(task.deadline, world.now);
    var installDeadline := CheckedSub(overallLimit, VERIFICATION_TIMEOUT, overallLimit);
    if world.now >= installDeadline {
      return NotSent(TimeoutKind), events;
    }
    var connected := InstallationProxyClient(world, installDeadline);
    if !connected {
      return NotSent(InstallationProxy), events;
    }
    world.Report(90);
    ghost var at, files := world.now, world.files;
    var result;
    ghost var reply;
    result, reply := SendOneInstallCommand(world, task.staging.app, installDeadline, task.staging.root);
    world.Report(95);
    var lookup, start;
    ghost var looked;
    lookup, start, looked := VerifyInWindow(world, task);
    events := [Installing(task.staging.app, at, files), InstallEnded(reply), Verifying(start, start + VERIFICATION_TIMEOUT)] + looked;
    r := Sent(result, OutcomeAfter(result, lookup));
    InstallHappened(before, at, files, result, reply, lookup, start, looked, task, tree, sha);
    assert events[1] == InstallEnded(reply);
  }

  /** `verified_install_outcome`: a new connection and one lookup, in a window of twenty seconds. */
  method VerifyInWindow(world: World, task: Task) returns (lookup: Option<bool>, start: nat, ghost looked: seq<Event>)
    requires world.now + VERIFICATION_TIMEOUT + InstallCleanupReserve() <= task.deadline
    modifies world`now, world`trace
    ensures start == old(world.now) <= world.now <= start + VERIFICATION_TIMEOUT
    ensures world.trace == old(world.trace) + [Verifying(start, start + VERIFICATION_TIMEOUT)] + looked
    ensures looked == if lookup.Some? then [Looked(task.bundle, lookup.value, world.now)] else []
    ensures SeenInstalled(looked, task.bundle, start, start + VERIFICATION_TIMEOUT) <==> lookup == Some(true)
    ensures SeenMissing(looked, task.bundle, start, start + VERIFICATION_TIMEOUT) <==> lookup == Some(false)
    ensures world.steady ==> lookup.Some?
  {
    hide SeenInstalled, SeenMissing;
    start := world.now;
    lookup, looked := None, [];
    var limit := InstallVerificationDeadline(task.deadline, start);
    world.Record(Verifying(start, limit));
    if start < limit {
      var connected := InstallationProxyClient(world, limit);
      if connected {
        lookup, looked := InstalledBundleLookup(world, task.bundle, limit);
      }
    }
    LookedInWindow(looked, task.bundle, lookup, world.now, start, limit);
  }

  lemma OutcomeAlwaysFits(result: CommandResult, reply: Option<InstallReply>, lookup: Option<bool>)
    requires result == Accepted <==> reply == Some(InstallDone)
    requires result == Definitive <==> reply == Some(OperationFailed)
    ensures
      var outcome := OutcomeAfter(result, lookup);
      && OutcomeFits(outcome, InstallErrorKind(result, outcome), reply, lookup == Some(true), lookup == Some(false))
      && (outcome == OutcomeUnknown && lookup.Some? && reply.Some? ==> reply == Some(OtherError))
  {
    if lookup.Some? {
      assert lookup == Some(true) || lookup == Some(false) by {
        if lookup.value {
          assert lookup == Some(true);
        } else {
          assert lookup == Some(false);
        }
      }
    }
    if reply.Some? {
      assert reply == Some(reply.value);
      match reply.value
      case InstallDone =>
      case OperationFailed =>
      case OtherError =>
    }
  }

  lemma InstallHappened<Digest(!new)>(before: seq<Event>, at: nat, files: Files, result: CommandResult, reply: Option<InstallReply>,
                                      lookup: Option<bool>, start: nat, looked: seq<Event>, task: Task, tree: Node, sha: Bytes -> Digest)
    requires result == Accepted <==> reply == Some(InstallDone)
    requires result == Definitive <==> reply == Some(OperationFailed)
    requires Quiet(before) && CopyOf(files, task.staging.app, tree, sha)
    requires at <= start && start + VERIFICATION_TIMEOUT + InstallCleanupReserve() <= task.deadline
    requires task.policy == Refuse ==> SeenAbsent(before, task.bundle, at)
    requires forall e :: e in looked ==> e.Looked?
    requires SeenInstalled(looked, task.bundle, start, start + VERIFICATION_TIMEOUT) <==> lookup == Some(true)
    requires SeenMissing(looked, task.bundle, start, start + VERIFICATION_TIMEOUT) <==> lookup == Some(false)
    ensures
      var sent := [Installing(task.staging.app, at, files), InstallEnded(reply), Verifying(start, start + VERIFICATION_TIMEOUT)];
      var outcome := OutcomeAfter(result, lookup);
      && InstalledOnce(before + (sent + looked), task, tree, sha, outcome, InstallErrorKind(result, outcome))
      && (outcome == OutcomeUnknown && lookup.Some? && reply.Some? ==> reply == Some(OtherError))
  {
    OutcomeAlwaysFits(result, reply, lookup);
    hide CopyOf, SeenAbsent, SeenInstalled, SeenMissing, OutcomeFits, OutcomeAfter, InstallErrorKind;
    var sent := [Installing(task.staging.app, at, files), InstallEnded(reply), Verifying(start, start + VERIFICATION_TIMEOUT)];
    var outcome := OutcomeAfter(result, lookup);
    assert before + (sent + looked) == before + sent + looked;
    assert Quiet(looked);
    assert InstallSplit(before + (sent + looked), before, at, files, reply, start, looked, task, tree, sha, outcome, InstallErrorKind(result, outcome));
  }

  /** The one lookup of a window is all that was seen in it. */
  lemma LookedInWindow(looked: seq<Event>, bundle: string, lookup: Option<bool>, time: nat, start: nat, until: nat)
    requires looked == if lookup.Some? then [Looked(bundle, lookup.value, time)] else []
    requires lookup.Some? ==> start <= time <= until
    ensures SeenInstalled(looked, bundle, start, until) <==> lookup == Some(true)
    ensures SeenMissing(looked, bundle, start, until) <==> lookup == Some(false)
    ensures Quiet(looked)
  {
    if lookup.Some? {
      assert Looked(bundle, lookup.value, time) in looked;
    }
  }

  // ----- one run over an open session

  /** Under `Refuse` an installed app, or no answer, ends the run before anything is planned. */
  method RefuseExisting(world: World, bundle: string, policy: ExistingAppPolicy, limit: nat)
    returns (refused: Option<ErrorKind>, ghost events: seq<Event>)
    modifies world`now, world`trace
    ensures old(world.now) <= world.now <= if old(world.now) <= limit then limit else old(world.now)
    ensures world.trace == old(world.trace) + events && NoAfc(events) && Quiet(events)
    ensures refused.Some? ==> refused.value != NoError
    ensures refused.None? && policy == Refuse ==> SeenAbsent(events, bundle, world.now)
    ensures refused == Some(AppAlreadyInstalled) <==> exists t :: events == [Looked(bundle, true, t)]
    ensures policy == Upgrade ==> refused == None && events == []
    ensures refused.Some? ==> refused.value in {AppAlreadyInstalled, InstallationProxy, InstalledAppLookup}
    ensures world.steady && old(world.now) <= limit ==> refused in {None, Some(AppAlreadyInstalled)}
  {
    events := [];
    if policy == Upgrade {
      return None, events;
    }
    var connected := InstallationProxyClient(world, limit);
    if !connected {
      return Some(InstallationProxy), events;
    }
    var found;
    found, events := InstalledBundleLookup(world, bundle, limit);
    match found {
      case Some(true) => refused := Some(AppAlreadyInstalled);
      case Some(false) => refused := None;
      case None => refused := Some(InstalledAppLookup);
    }
  }

  /** `task_afc_client`: two timed steps, then a connection. */
  method OpenAfc(world: World, limit: nat) returns (client: Option<TaskAfcClient>)
    modifies world`now, world`connections
    ensures old(world.now) <= world.now <= if old(world.now) <= limit then limit else old(world.now)
    ensures world.connections >= old(world.connections)
    ensures client.Some? ==>
              && fresh(client.value) && client.value.world == world && world.now <= limit
              && client.value.Aligned() && client.value.inner.handles == map[]
              && client.value.inner.id < world.connections && (world.steady ==> client.value.Fine())
    ensures world.steady && old(world.now) <= limit ==> client.Some?
  {
    var stream := world.Step(limit);
    var ready := stream;
    if stream {
      ready := world.Step(limit);
    }
    if !ready {
      return None;
    }
    var connection := new TaskAfcClient(world);
    return Some(connection);
  }

  ghost predicate ErrorKindFits(report: Report, cleanupsFine: bool) {
    report.errorKind == NoError <==> report.outcome == Installed && cleanupsFine
  }

  /** What a run leaves behind. */
  ghost predicate RunSafe<Digest(!new)>(before: Files, after: Files, events: seq<Event>, report: Report, task: Task, tree: Node, sha: Bytes -> Digest) {
    && Rooted(after) && SameOutside(before, after, task.staging.root)
    && SafeWrites(events, task.staging.root) && CreationOrder(Creates(events), task.staging.root)
    && (report.cleanup == CleanupNotNeeded ==> NoWrites(events) && after == before)
    && (report.cleanup == CleanupSucceeded ==> after == before)
    && ReportFits(report, events, task, tree, sha)
  }

  lemma SameSightings(events: seq<Event>, more: seq<Event>, bundle: string, start: nat, until: nat)
    requires OnlyAfc(more)
    ensures SeenInstalled(events + more, bundle, start, until) <==> SeenInstalled(events, bundle, start, until)
    ensures SeenMissing(events + more, bundle, start, until) <==> SeenMissing(events, bundle, start, until)
  {
    forall found, t: nat ensures Looked(bundle, found, t) in events + more <==> Looked(bundle, found, t) in events {
    }
    if SeenInstalled(events, bundle, start, until) {
      var t: nat :| Looked(bundle, true, t) in events && start <= t <= until;
      assert Looked(bundle, true, t) in events + more;
    }
    if SeenMissing(events, bundle, start, until) {
      var t: nat :| Looked(bundle, false, t) in events && start <= t <= until;
      assert Looked(bundle, false, t) in events + more;
    }
  }

  lemma AppendInstalledOnce<Digest(!new)>(events: seq<Event>, more: seq<Event>, task: Task, tree: Node, sha: Bytes -> Digest, outcome: Outcome, kind: ErrorKind)
    requires InstalledOnce(events, task, tree, sha, outcome, kind) && OnlyAfc(more)
    ensures InstalledOnce(events + more, task, tree, sha, outcome, kind)
  {
    var before: seq<Event>, at: nat, files: Files, reply: Option<InstallReply>, start: nat, after: seq<Event> :|
      InstallSplit(events, before, at, files, reply, start, after, task, tree, sha, outcome, kind);
    var sent := [Installing(task.staging.app, at, files), InstallEnded(reply), Verifying(start, start + VERIFICATION_TIMEOUT)];
    assert before + sent + after + more == before + sent + (after + more);
    SameSightings(after, more, task.bundle, start, start + VERIFICATION_TIMEOUT);
    hide CopyOf, SeenInstalled, SeenMissing, SeenAbsent, OutcomeFits;
    assert InstallSplit(events + more, before, at, files, reply, start, after + more, task, tree, sha, outcome, kind);
  }

  /** The phases of a run in order: lookups, upload, install, removal. */
  lemma ComposeWrites(looks: seq<Event>, upload: seq<Event>, install: seq<Event>, removal: seq<Event>, root: string, conn: nat, cleaner: nat)
    requires NoAfc(looks) && NoAfc(install) && Own(upload, root, conn)
    requires removal == [] || removal == [AfcSent(cleaner, RemoveAll(root), Some(root))]
    requires (NoWrites(upload) && removal == []) || (SawAbsentFirst(upload, root) && conn != cleaner)
    ensures SafeWrites(looks + upload + install + removal, root)
    ensures NoWrites(upload) && removal == [] ==> NoWrites(looks + upload + install + removal)
  {
    var events := looks + upload + install + removal;
    if !(NoWrites(upload) && removal == []) {
      var k :| 0 <= k < |upload| && upload[k] == AfcSaw(root, false) && NoWrites(upload[..k]);
      assert events[|looks| + k] == AfcSaw(root, false);
      forall j | 0 <= j <= |looks| + k ensures !Writes(events[j]) {
        if j < |looks| {
          assert events[j] == looks[j] && looks[j] in looks;
        } else if j < |looks| + k {
          assert events[j] == upload[..k][j - |looks|] && events[j] in upload[..k];
        }
      }
    }
    assert forall e :: e in events ==> e in looks || e in upload || e in install || e in removal;
  }

  /** The upload alone creates anything. */
  lemma ComposeCreates(looks: seq<Event>, upload: seq<Event>, install: seq<Event>, removal: seq<Event>, root: string)
    requires NoAfc(looks) && NoAfc(install)
    requires forall e :: e in removal ==> e.AfcSent? && e.op.RemoveAll?
    ensures Creates(looks + upload + install + removal) == Creates(upload)
  {
    CreatesAppend(looks, upload);
    CreatesAppend(looks + upload, install);
    CreatesAppend(looks + upload + install, removal);
    NoCreates(looks);
    NoCreates(install);
    NoCreates(removal);
  }

  /** The error kind without what the cleanups add. */
  function VerdictKind(report: Report): ErrorKind {
    if report.errorKind in {StagingCleanupKind, SessionCleanupKind} then NoError else report.errorKind
  }

  /** The stage goes with the error kind. */
  predicate StageFits(report: Report) {
    && (report.errorKind == NoError ==> report.stage == Complete)
    && (report.errorKind == StagingCleanupKind ==> report.stage == CleanupStage)
    && (report.errorKind == SessionCleanupKind ==> report.stage == SessionCleanupStage)
    && (report.errorKind in {InstallNotVerified, InstallRejected, InstallResultAmbiguous} ==> report.stage == Verification)
    && (report.errorKind in {AppAlreadyInstalled, InstalledAppLookup} ==> report.stage == AlreadyInstalled)
    && (report.errorKind == AfcService || report.errorKind.PlanKind? || report.errorKind.UploadKind? ==> report.stage == StagingStage)
    && (report.errorKind.IdentityKind? || report.errorKind == IdentityChanged ==> report.stage == Identity)
    && (report.errorKind == DeviceRegistrationRequired ==> report.stage == AccountPreflight)
  }

  /** Everything a run claims about its install command before it cleans up. */
  ghost predicate ReportFits<Digest(!new)>(report: Report, events: seq<Event>, task: Task, tree: Node, sha: Bytes -> Digest) {
    && (report.installCommands == 0 ==> Quiet(events) && report.outcome != Installed && report.outcome != OutcomeUnknown)
    && (report.installCommands != 0 ==>
          && report.installCommands == 1
          && report.bundleId == Some(task.bundle)
          && InstalledOnce(events, task, tree, sha, report.outcome, VerdictKind(report)))
    && (report.errorKind == AppAlreadyInstalled ==>
          task.policy == Refuse && report.installCommands == 0 && exists t :: events == [Looked(task.bundle, true, t)])
    && StageFits(report)
  }

  /** A run that did not find the app installed keeps its report's fit when it cleans up. */
  lemma AppendReport<Digest(!new)>(report: Report, events: seq<Event>, more: seq<Event>, task: Task, tree: Node, sha: Bytes -> Digest)
    requires ReportFits(report, events, task, tree, sha) && OnlyAfc(more) && report.errorKind != AppAlreadyInstalled
    ensures ReportFits(report, events + more, task, tree, sha)
  {
    if report.installCommands != 0 {
      AppendInstalledOnce(events, more, task, tree, sha, report.outcome, VerdictKind(report));
    }
  }

  /** How a steady run over an open session ends if it is not late, but for what the phone replies to the command. */
  ghost predicate Determined(report: Report, events: seq<Event>, task: Task, tree: Node, files: Files) {
    if report.errorKind == AppAlreadyInstalled then task.policy == Refuse
    else if !(Bounded(tree) && SafeTree(tree)) then report.installCommands == 0 && report.errorKind.PlanKind?
    else if Undisturbed(files, task.staging.root) != Staged then
      report.installCommands == 0 && report.errorKind == UploadKind(Undisturbed(files, task.staging.root).kind)
    else
      CommandReplied(report, events)
  }

  lemma QuietTogether(a: seq<Event>, b: seq<Event>)
    requires Quiet(a) && Quiet(b)
    ensures Quiet(a + b)
  {
  }

  /** What is left when an upload over this connection has ended, and whatever was installed from it. */
  ghost predicate AfterUpload(before: Files, after: Files, root: string, conn: nat, rootCreated: bool, upload: seq<Event>) {
    && Rooted(after) && SameOutside(before, after, root)
    && Own(upload, root, conn) && CreationOrder(Creates(upload), root)
    && (!rootCreated ==> NoWrites(upload) && after == before)
    && (rootCreated ==> root !in before && SawAbsentFirst(upload, root))
  }

  lemma StagedIsAfterUpload<Digest>(before: Files, after: Files, staging: TaskStagingPath, plan: UploadPlan<Digest>,
                                    conn: nat, rootCreated: bool, upload: seq<Event>)
    requires StagedSafely(before, after, staging, plan, conn, rootCreated, upload)
    ensures AfterUpload(before, after, staging.root, conn, rootCreated, upload) && Own(upload, staging.root, conn) && Rooted(after)
  {
    hide Rooted, SameOutside, Own, CreationOrder, NoWrites, SawAbsentFirst;
  }

  lemma StillAfterUpload(before: Files, middle: Files, after: Files, root: string, conn: nat, upload: seq<Event>)
    requires AfterUpload(before, middle, root, conn, true, upload) && Rooted(after) && SameOutside(middle, after, root)
    ensures AfterUpload(before, after, root, conn, true, upload)
  {
    SameOutsideTransitive(before, middle, after, root);
    hide Rooted, SameOutside, Own, CreationOrder, NoWrites, SawAbsentFirst;
  }

  lemma DeterminedByUpload(staged: StageResult, events: seq<Event>, task: Task, tree: Node, files: Files, pressure: bool)
    requires Bounded(tree) && SafeTree(tree) && staged == Undisturbed(files, task.staging.root) && staged != Staged
    ensures Determined(UploadFailure(staged, task, pressure), events, task, tree, files)
  {
    hide Bounded, SafeTree;
  }

  lemma DeterminedByReply(report: Report, events: seq<Event>, install: seq<Event>, task: Task, tree: Node, files: Files)
    requires Bounded(tree) && SafeTree(tree) && Undisturbed(files, task.staging.root) == Staged
    requires report.errorKind != AppAlreadyInstalled && CommandReplied(report, install)
    ensures Determined(report, events + install, task, tree, files)
  {
    hide Bounded, SafeTree, Undisturbed;
  }

  /** The command was sent, and only an unclear reply leaves its outcome unknown. */
  predicate CommandReplied(report: Report, install: seq<Event>) {
    report.installCommands == 1 && (report.outcome == OutcomeUnknown ==> InstallEnded(Some(OtherError)) in install)
  }

  /** Everything the upload needs. */
  ghost predicate Ready<Digest(!new)>(world: World, task: Task, tree: Node, sha: Bytes -> Digest,
                                      plan: UploadPlan<Digest>, client: TaskAfcClient, looks: seq<Event>)
    reads world, client
  {
    && client.world == world && client.Aligned() && client.inner.handles == map[] && client.inner.id < world.connections
    && Bounded(tree) && SafeTree(tree) && IsPlan(tree, sha, plan)
    && plan.byteCount == Sizes(plan.entries) <= BYTE_LIMIT && DistinctRemotes(plan.entries) && ParentsFirst(plan.entries)
    && Unchanged(LocalFiles(Descendants(tree)), plan.entries, sha)
    && (task.policy == Refuse ==> SeenAbsent(looks, task.bundle, world.now))
  }

  lemma ReadyMeans<Digest(!new)>(world: World, task: Task, tree: Node, sha: Bytes -> Digest,
                                 plan: UploadPlan<Digest>, client: TaskAfcClient, looks: seq<Event>)
    requires Ready(world, task, tree, sha, plan, client, looks)
    ensures client.world == world && Bounded(tree) && SafeTree(tree)
    ensures task.policy == Refuse ==> SeenAbsent(looks, task.bundle, world.now)
  {
  }

  /** The upload, said in terms of the run. */
  method StageForRun<Digest(==,!new)>(world: World, client: TaskAfcClient, task: Task, tree: Node,
                                      plan: UploadPlan<Digest>, sha: Bytes -> Digest, limit: nat, ghost looks: seq<Event>)
    returns (staged: StageResult, rootCreated: bool, ghost upload: seq<Event>)
    requires Ready(world, task, tree, sha, plan, client, looks) && client.world == world && world.now <= limit
    requires Rooted(world.files) && Placed(task.staging)
    modifies client, world`now, world`files, world`trace, world`reported, world`faults
    ensures old(world.now) <= world.now <= limit && world.trace == old(world.trace) + upload && client.inner.id == old(client.inner.id)
    ensures AfterUpload(old(world.files), world.files, task.staging.root, client.inner.id, rootCreated, upload)
    ensures Rooted(world.files) && Quiet(upload)
    ensures staged == Staged ==> rootCreated && CopyOf(world.files, task.staging.app, tree, sha) && world.faults == old(world.faults)
    ensures old(client.Fine()) ==> staged == Undisturbed(old(world.files), task.staging.root)
  {
    hide AfterUpload, StagedSafely, Undisturbed, CopyOf, Mirrors, IsPlan, Own, Rooted, SameOutside, Bounded, Quiet, Sizes, DistinctRemotes, ParentsFirst, Placed, Unchanged, Prechecked, TaskAfcClient.Fine, TaskAfcClient.Aligned;
    ghost var files0 := world.files;
    ghost var reports;
    staged, rootCreated, upload, reports := StageSignedBundle(client, task.staging, plan, LocalFiles(Descendants(tree)), sha, limit);
    StagedIsAfterUpload(files0, world.files, task.staging, plan, client.inner.id, rootCreated, upload);
    UploadIsQuiet(upload, task.staging.root, client.inner.id);
    if staged == Staged {
      MirrorsIsCopy(world.files, task.staging.app, tree, plan, sha);
    }
  }

  /** Upload, install and verify: the middle of `execute_rsd_first_install`. */
  method UploadAndInstall<Digest(==,!new)>(world: World, client: TaskAfcClient, task: Task, tree: Node,
                                           plan: UploadPlan<Digest>, sha: Bytes -> Digest, pressure: bool, ghost looks: seq<Event>)
    returns (report: Report, rootCreated: bool, ghost upload: seq<Event>, ghost install: seq<Event>)
    requires Ready(world, task, tree, sha, plan, client, looks) && client.world == world
    requires Rooted(world.files) && Placed(task.staging)
    requires VERIFICATION_TIMEOUT + InstallCleanupReserve() <= task.deadline
    requires world.now <= InstallWorkDeadline(task.deadline, 0)
    requires Quiet(looks)
    modifies client, world`now, world`files, world`trace, world`reported, world`faults
    ensures old(world.now) <= world.now <= InstallWorkDeadline(task.deadline, 0)
    ensures world.trace == old(world.trace) + upload + install && client.inner.id == old(client.inner.id)
    ensures NoAfc(install) && AfterUpload(old(world.files), world.files, task.staging.root, client.inner.id, rootCreated, upload)
    ensures ReportFits(report, looks + upload + install, task, tree, sha) && report.errorKind != AppAlreadyInstalled
    ensures report.sessionCleanup == SessionNotNeeded && ErrorKindFits(report, true)
    ensures report.installCommands != 0 ==> world.faults == old(world.faults)
    ensures old(client.Fine()) && world.now + VERIFICATION_TIMEOUT + InstallCleanupReserve() < task.deadline ==>
              Determined(report, looks + upload + install, task, tree, old(world.files))
  {
    assert client.Fine() ==> world.steady;
    hide Ready, CommandReplied, UploadFailure, Undisturbed, AfterUpload, Determined, CopyOf, ReportFits, StageFits, Rooted, SameOutside, Bounded, SafeTree, Quiet, NoAfc, Placed, SeenAbsent, ErrorKindFits, TaskAfcClient.Fine, TaskAfcClient.Aligned;
    ReadyMeans(world, task, tree, sha, plan, client, looks);
    ghost var files0 := world.files;
    var staged;
    staged, rootCreated, upload := StageForRun(world, client, task, tree, plan, sha, InstallWorkDeadline(task.deadline, world.now), looks);
    SeenIn(task.bundle, looks, upload, old(world.now), world.now);
    QuietTogether(looks, upload);
    report, install := ReportUpload(world, task, tree, sha, pressure, staged, rootCreated, files0, client.inner.id, looks + upload, upload);
    InstallLast(looks, upload, install);
  }

  /** The report of an upload: of its failure, or of the install after it. */
  method ReportUpload<Digest(!new)>(world: World, task: Task, ghost tree: Node, ghost sha: Bytes -> Digest, pressure: bool,
                                    staged: StageResult, ghost rootCreated: bool, ghost files0: Files, ghost conn: nat,
                                    ghost before: seq<Event>, ghost upload: seq<Event>)
    returns (report: Report, ghost install: seq<Event>)
    requires AfterUpload(files0, world.files, task.staging.root, conn, rootCreated, upload)
    requires Rooted(world.files) && Placed(task.staging) && Bounded(tree) && SafeTree(tree)
    requires staged == Staged ==> rootCreated && CopyOf(world.files, task.staging.app, tree, sha)
    requires Quiet(before) && (task.policy == Refuse ==> SeenAbsent(before, task.bundle, world.now))
    requires VERIFICATION_TIMEOUT + InstallCleanupReserve() <= task.deadline
    requires world.now <= InstallWorkDeadline(task.deadline, world.now)
    modifies world`now, world`trace, world`files, world`reported
    ensures old(world.now) <= world.now <= InstallWorkDeadline(task.deadline, 0)
    ensures world.trace == old(world.trace) + install && NoAfc(install)
    ensures AfterUpload(files0, world.files, task.staging.root, conn, rootCreated, upload)
    ensures ReportFits(report, before + install, task, tree, sha) && report.errorKind != AppAlreadyInstalled
    ensures report.sessionCleanup == SessionNotNeeded && ErrorKindFits(report, true)
    ensures report.installCommands != 0 ==> staged == Staged
    ensures world.steady && staged == Undisturbed(files0, task.staging.root)
            && world.now + VERIFICATION_TIMEOUT + InstallCleanupReserve() < task.deadline ==>
              Determined(report, before + install, task, tree, files0)
  {
    hide CommandReplied, UploadFailure, Undisturbed, AfterUpload, Determined, CopyOf, ReportFits, StageFits, Rooted, SameOutside, Bounded, SafeTree, Quiet, NoAfc, Placed, SeenAbsent, ErrorKindFits;
    ghost var files1 := world.files;
    if staged != Staged {
      install := [];
      NothingInstalled();
      assert before + install == before;
      report := UploadFailure(staged, task, pressure);
      FailureFits(staged, task, pressure);
      NothingSent(report, before, task, tree, sha);
      if staged == Undisturbed(files0, task.staging.root) {
        DeterminedByUpload(staged, before, task, tree, files0, pressure);
      }
      return;
    }
    report, install := InstallStaged(world, task, tree, sha, pressure, before);
    StillAfterUpload(files0, files1, world.files, task.staging.root, conn, upload);
    if staged == Undisturbed(files0, task.staging.root) && CommandReplied(report, install) {
      DeterminedByReply(report, before, install, task, tree, files0);
    }
  }

  function UploadFailure(staged: StageResult, task: Task, pressure: bool): Report
    requires staged != Staged
  {
    Failure(StagingStage, if staged.StageError? then UploadKind(staged.kind) else TimeoutKind, pressure, Some(task.bundle)).(outcome := NotInstalled)
  }

  lemma FailureFits(staged: StageResult, task: Task, pressure: bool)
    requires staged != Staged
    ensures
      var report := UploadFailure(staged, task, pressure);
      && ErrorKindFits(report, true) && StageFits(report) && report.sessionCleanup == SessionNotNeeded
      && report.installCommands == 0 && report.outcome == NotInstalled && report.errorKind != AppAlreadyInstalled
  {
  }

  lemma InstallLast(a: seq<Event>, b: seq<Event>, c: seq<Event>)
    ensures a + b + c == (a + b) + c
  {
  }

  lemma NothingSent<Digest(!new)>(report: Report, events: seq<Event>, task: Task, tree: Node, sha: Bytes -> Digest)
    requires Quiet(events) && report.installCommands == 0 && report.outcome != Installed && report.outcome != OutcomeUnknown
    requires StageFits(report) && report.errorKind != AppAlreadyInstalled
    ensures ReportFits(report, events, task, tree, sha)
  {
  }

  /** The report of what follows a finished upload. */
  method InstallStaged<Digest(!new)>(world: World, task: Task, ghost tree: Node, ghost sha: Bytes -> Digest, pressure: bool, ghost before: seq<Event>)
    returns (report: Report, ghost install: seq<Event>)
    requires Rooted(world.files) && Placed(task.staging)
    requires CopyOf(world.files, task.staging.app, tree, sha) && Quiet(before)
    requires task.policy == Refuse ==> SeenAbsent(before, task.bundle, world.now)
    requires VERIFICATION_TIMEOUT + InstallCleanupReserve() <= task.deadline
    requires world.now <= InstallWorkDeadline(task.deadline, world.now)
    modifies world`now, world`trace, world`files, world`reported
    ensures old(world.now) <= world.now <= InstallWorkDeadline(task.deadline, 0)
    ensures world.trace == old(world.trace) + install && NoAfc(install)
    ensures Rooted(world.files) && SameOutside(old(world.files), world.files, task.staging.root)
    ensures ReportFits(report, before + install, task, tree, sha) && report.errorKind != AppAlreadyInstalled
    ensures report.sessionCleanup == SessionNotNeeded && ErrorKindFits(report, true)
    ensures world.steady && world.now + VERIFICATION_TIMEOUT + InstallCleanupReserve() < task.deadline ==>
              CommandReplied(report, install)
  {
    hide CopyOf, InstalledOnce, InstallSplit, Rooted, SameOutside, Placed, Quiet, NoAfc, SeenAbsent, OutcomeFits;
    var phase;
    phase, install := InstallAndVerify(world, task, tree, sha, before);
    match phase {
      case NotSent(kind) =>
        QuietTogether(before, install);
        report := Failure(InstallStage, kind, pressure, Some(task.bundle)).(outcome := NotInstalled);
        NothingSent(report, before + install, task, tree, sha);
      case Sent(result, outcome) =>
        report := Report(outcome, if outcome == Installed then Complete else Verification,
                         CleanupNotNeeded, SessionNotNeeded, 1, InstallErrorKind(result, outcome), Some(task.bundle), pressure);
        SentFits(result, report, before + install, task, tree, sha);
    }
  }

  lemma SentFits<Digest(!new)>(result: CommandResult, report: Report, events: seq<Event>, task: Task, tree: Node, sha: Bytes -> Digest)
    requires report.installCommands == 1 && report.bundleId == Some(task.bundle) && report.cleanup == CleanupNotNeeded
    requires report.errorKind == InstallErrorKind(result, report.outcome)
    requires report.stage == if report.outcome == Installed then Complete else Verification
    requires InstalledOnce(events, task, tree, sha, report.outcome, report.errorKind)
    ensures ReportFits(report, events, task, tree, sha) && ErrorKindFits(report, true) && report.errorKind != AppAlreadyInstalled
  {
    hide CopyOf;
    var before: seq<Event>, at: nat, files: Files, reply: Option<InstallReply>, start: nat, after: seq<Event> :|
      InstallSplit(events, before, at, files, reply, start, after, task, tree, sha, report.outcome, report.errorKind);
    hide SeenInstalled, SeenMissing, SeenAbsent;
  }

  lemma NothingInstalled()
    ensures NoAfc([]) && Quiet([])
  {
  }

  lemma SeenIn(bundle: string, looks: seq<Event>, upload: seq<Event>, time: nat, later: nat)
    requires time <= later
    ensures SeenAbsent(looks, bundle, time) ==> SeenAbsent(looks + upload, bundle, later)
  {
    if SeenAbsent(looks, bundle, time) {
      var t: nat :| Looked(bundle, false, t) in looks && t <= time;
      assert Looked(bundle, false, t) in looks + upload;
    }
  }

  /** The end of `execute_rsd_first_install`: remove what was staged and settle the report. */
  method CleanUpRun<Digest(!new)>(world: World, task: Task, ghost tree: Node, ghost sha: Bytes -> Digest, before: Report, rootCreated: bool,
                                  ghost files0: Files, ghost trace0: seq<Event>, ghost conn: nat,
                                  ghost looks: seq<Event>, ghost upload: seq<Event>, ghost install: seq<Event>)
    returns (report: Report, ghost events: seq<Event>)
    requires Rooted(files0) && AfterUpload(files0, world.files, task.staging.root, conn, rootCreated, upload)
    requires world.trace == trace0 + (looks + upload + install) && conn < world.connections
    requires NoAfc(looks) && NoAfc(install)
    requires ReportFits(before, looks + upload + install, task, tree, sha) && before.errorKind != AppAlreadyInstalled
    requires Placed(task.staging)
    requires before.sessionCleanup == SessionNotNeeded && ErrorKindFits(before, true)
    modifies world`now, world`files, world`trace, world`connections, world`faults
    ensures old(world.now) <= world.now <= old(world.now) + CLEANUP_TIMEOUT
    ensures world.trace == trace0 + events
    ensures RunSafe(files0, world.files, events, report, task, tree, sha)
    ensures report.sessionCleanup == SessionNotNeeded && ErrorKindFits(report, report.cleanup != CleanupFailed)
    ensures world.steady ==> report.cleanup != CleanupFailed
    ensures world.steady && Determined(before, looks + upload + install, task, tree, files0) ==> Determined(report, events, task, tree, files0)
  {
    hide CopyOf, ReportFits, InstalledOnce, InstallSplit, Own, SafeWrites, SawAbsentFirst, Rooted, SameOutside, NoAfc, NoWrites, CreationOrder, Determined;
    ghost var files1, cleaner := world.files, world.connections;
    var cleanup;
    ghost var removal;
    cleanup, removal := CleanExactTaskStaging(world, task.staging, rootCreated);
    SameOutsideTransitive(files0, files1, world.files, task.staging.root);
    report := before.(cleanup := cleanup);
    if report.cleanup == CleanupFailed && report.errorKind == NoError {
      report := report.(stage := CleanupStage, errorKind := StagingCleanupKind);
    }
    events := looks + upload + install + removal;
    if rootCreated {
      Restored(files0, files1, task.staging.root);
    }
    ComposeWrites(looks, upload, install, removal, task.staging.root, conn, cleaner);
    ComposeCreates(looks, upload, install, removal, task.staging.root);
    AppendReport(before, looks + upload + install, removal, task, tree, sha);
    SameVerdict(before, report, events, task, tree, sha);
    if report.errorKind == before.errorKind {
      DeterminedAfterMore(before, report, looks + upload + install, removal, task, tree, files0);
    }
  }

  lemma DeterminedAfterMore(a: Report, b: Report, events: seq<Event>, more: seq<Event>, task: Task, tree: Node, files: Files)
    requires b.errorKind == a.errorKind && b.installCommands == a.installCommands && b.outcome == a.outcome
    ensures Determined(a, events, task, tree, files) ==> Determined(b, events + more, task, tree, files)
  {
  }

  /** What the cleanups change about a report leaves its fit. */
  lemma SameVerdict<Digest(!new)>(a: Report, b: Report, events: seq<Event>, task: Task, tree: Node, sha: Bytes -> Digest)
    requires ReportFits(a, events, task, tree, sha)
    requires b.installCommands == a.installCommands && b.outcome == a.outcome && b.bundleId == a.bundleId
    requires || (b.errorKind == a.errorKind && b.stage == a.stage)
             || (a.errorKind == NoError && b.errorKind == StagingCleanupKind && b.stage == CleanupStage)
             || (a.errorKind == NoError && b.errorKind == SessionCleanupKind && b.stage == SessionCleanupStage)
    ensures ReportFits(b, events, task, tree, sha)
  {
    hide InstalledOnce;
  }

  /** What comes before the upload: the lookup, the plan and a connection, or the report of why there is none. */
  method Prepare<Digest(==,!new)>(world: World, task: Task, tree: Node, sha: Bytes -> Digest, pressure: bool, limit: nat)
    returns (failure: Report, prepared: Option<(UploadPlan<Digest>, TaskAfcClient)>, ghost looks: seq<Event>)
    requires tree.Folder? ==> DistinctNames(tree.kids)
    requires world.now <= limit
    modifies world`now, world`trace, world`connections
    ensures old(world.now) <= world.now <= limit && world.connections >= old(world.connections)
    ensures world.trace == old(world.trace) + looks && NoAfc(looks) && Quiet(looks)
    ensures prepared.None? ==>
              && Stopped(failure) && failure.sessionCleanup == SessionNotNeeded
              && (failure.errorKind == AppAlreadyInstalled ==> task.policy == Refuse && exists t :: looks == [Looked(task.bundle, true, t)])
    ensures prepared.Some? ==>
              && Ready(world, task, tree, sha, prepared.value.0, prepared.value.1, looks)
              && fresh(prepared.value.1) && (world.steady ==> prepared.value.1.Fine())
    ensures world.steady && prepared.None? ==>
              failure.errorKind == AppAlreadyInstalled || (failure.errorKind.PlanKind? && !(Bounded(tree) && SafeTree(tree)))
  {
    hide IsPlan, Bounded, SafeTree, Sizes, DistinctRemotes, ParentsFirst, DistinctNames, Unchanged, Quiet, NoAfc, SeenAbsent, TaskAfcClient.Fine, TaskAfcClient.Aligned;
    var refused;
    refused, looks := RefuseExisting(world, task.bundle, task.policy, limit);
    ghost var seen := world.now;
    if refused.Some? {
      return Failure(AlreadyInstalled, refused.value, pressure, Some(task.bundle)), None, looks;
    }
    failure := Failure(StagingStage, AfcService, pressure, Some(task.bundle));
    var planned := PlanUpload(world, tree, sha, limit);
    if planned.Err? {
      return failure.(errorKind := planned.error), None, looks;
    }
    var client := OpenAfc(world, limit);
    if client.None? {
      return failure, None, looks;
    }
    SeenIn(task.bundle, looks, [], seen, world.now);
    assert looks + [] == looks;
    return failure, Some((planned.value, client.value)), looks;
  }

  /**
   `execute_rsd_first_install`.  Unless the world is steady the plan is made under disturbance:
   reading may fail or run out of time at any point.
   */
  method ExecuteRsdFirstInstall<Digest(==,!new)>(world: World, task: Task, tree: Node, sha: Bytes -> Digest, pressure: bool)
    returns (report: Report, ghost events: seq<Event>)
    requires Rooted(world.files) && Placed(task.staging)
    requires tree.Folder? ==> DistinctNames(tree.kids)
    requires VERIFICATION_TIMEOUT + InstallCleanupReserve() <= task.deadline
    requires world.now <= InstallWorkDeadline(task.deadline, 0)
    modifies world
    ensures old(world.now) <= world.now <= InstallWorkDeadline(task.deadline, 0) + CLEANUP_TIMEOUT
    ensures world.trace == old(world.trace) + events
    ensures RunSafe(old(world.files), world.files, events, report, task, tree, sha)
    ensures report.sessionCleanup == SessionNotNeeded
    ensures ErrorKindFits(report, report.cleanup != CleanupFailed)
    ensures world.steady ==> report.cleanup != CleanupFailed
    ensures world.steady && world.now + VERIFICATION_TIMEOUT + InstallCleanupReserve() < task.deadline ==>
              Determined(report, events, task, tree, old(world.files))
  {
    hide AfterUpload, IsPlan, Rooted, SameOutside, Placed, Sizes, DistinctRemotes, ParentsFirst, DistinctNames, Unchanged, RunSafe, ReportFits, Quiet, NoAfc, SeenAbsent, TaskAfcClient.Fine, TaskAfcClient.Aligned;
    var root := task.staging.root;
    ghost var files0, trace0 := world.files, world.trace;
    var workDeadline := InstallWorkDeadline(task.deadline, world.now);
    SameOutsideItself(files0, root);

    var failure, prepared;
    ghost var looks;
    failure, prepared, looks := Prepare(world, task, tree, sha, pressure, workDeadline);
    events := looks;
    if prepared.None? {
      report := failure;
      OnlyLooked(files0, looks, report, task, tree, sha);
      return;
    }
    var (plan, client) := prepared.value;
    ghost var upload, install;
    var rootCreated;
    report, rootCreated, upload, install := UploadAndInstall(world, client, task, tree, plan, sha, pressure, looks);
    assert world.trace == trace0 + (looks + upload + install);
    report, events := CleanUpRun(world, task, tree, sha, report, rootCreated, files0, trace0, client.inner.id, looks, upload, install);
  }

  /** Planning under the work deadline. */
  method PlanUpload<Digest(==)>(world: World, tree: Node, sha: Bytes -> Digest, limit: nat) returns (r: Result<UploadPlan<Digest>, ErrorKind>)
    requires tree.Folder? ==> DistinctNames(tree.kids)
    modifies world`now
    ensures old(world.now) <= world.now <= if old(world.now) <= limit then limit else old(world.now)
    ensures r.Ok? ==>
              && world.now <= limit && Bounded(tree) && SafeTree(tree) && IsPlan(tree, sha, r.value)
              && r.value.byteCount == Sizes(r.value.entries) <= BYTE_LIMIT
              && DistinctRemotes(r.value.entries) && ParentsFirst(r.value.entries)
              && Unchanged(LocalFiles(Descendants(tree)), r.value.entries, sha)
    ensures r.Err? ==> r.error in {TimeoutKind, LocalTask} || r.error.PlanKind?
    ensures world.steady && old(world.now) <= limit ==> (r.Ok? <==> Bounded(tree) && SafeTree(tree)) && (r.Err? ==> r.error.PlanKind?)
  {
    hide Bounded, SafeTree, IsPlan, Sizes, DistinctRemotes, ParentsFirst, Unchanged, DistinctNames;
    var planned := PlanSignedBundle(tree, sha, !world.steady);
    var inTime := world.Step(limit);
    var panics: bool := *;
    if !inTime {
      return Err(TimeoutKind);
    }
    if panics && !world.steady {
      return Err(LocalTask);
    }
    if planned.Err? {
      return Err(PlanKind(planned.error));
    }
    var plan := planned.value;
    PlanWithinLimit(tree, sha, plan);
    PlanSizes(tree, sha, plan);
    PlanDistinct(tree, sha, plan);
    PlanParentsFirst(tree, sha, plan);
    PlanIsUnchanged(tree, sha, plan);
    return Ok(plan);
  }

  lemma OnlyLooked<Digest(!new)>(files: Files, looks: seq<Event>, report: Report, task: Task, tree: Node, sha: Bytes -> Digest)
    requires Rooted(files) && NoAfc(looks) && Quiet(looks)
    requires report.installCommands == 0 && report.outcome == NotStarted && StageFits(report)
    requires report.errorKind == AppAlreadyInstalled ==> task.policy == Refuse && exists t :: looks == [Looked(task.bundle, true, t)]
    ensures RunSafe(files, files, looks, report, task, tree, sha)
  {
    NothingWritten(looks, task.staging.root);
    hide Rooted, NoAfc, NoWrites, SafeWrites, CreationOrder;
    SameOutsideItself(files, task.staging.root);
  }

  lemma NothingWritten(events: seq<Event>, root: string)
    requires NoAfc(events)
    ensures NoWrites(events) && SafeWrites(events, root) && CreationOrder(Creates(events), root)
  {
    NoCreates(events);
    forall j | 0 <= j < |events| ensures !Writes(events[j]) {
      assert events[j] in events;
    }
  }

  lemma UploadIsQuiet(events: seq<Event>, root: string, conn: nat)
    requires Own(events, root, conn)
    ensures Quiet(events)
  {
  }

  lemma PlanWithinLimit<Digest>(tree: Node, sha: Bytes -> Digest, plan: UploadPlan<Digest>)
    requires Bounded(tree) && IsPlan(tree, sha, plan)
    ensures plan.byteCount <= BYTE_LIMIT && tree.Folder?
  {
  }

  // ----- the whole run

  datatype OpenResult = SessionOpened | OpenFailed(stage: Stage, cleanup: SessionCleanup) | OpenTimedOut(stage: Stage)

  /** `RemoteRsdSession::open` under the work deadline. */
  method OpenSession(world: World, limit: nat) returns (r: OpenResult)
    modifies world`now
    ensures old(world.now) <= world.now <= if old(world.now) <= limit then limit else old(world.now)
    ensures r.SessionOpened? ==> world.now <= limit
    ensures world.steady && old(world.now) <= limit ==> r.SessionOpened?
  {
    var connected := world.Step(limit);
    if connected {
      return SessionOpened;
    }
    var stage: Stage := *;
    var timedOut: bool := *;
    var cleanup: SessionCleanup := *;
    if timedOut {
      return OpenTimedOut(stage);
    }
    return OpenFailed(stage, cleanup);
  }

  function FailedOpenCleanup(r: OpenResult): SessionCleanup
    requires !r.SessionOpened?
  {
    match r
    case OpenFailed(_, cleanup) => cleanup
    case OpenTimedOut(stage) => if stage == RsdHandshake then SessionFailed else SessionNotNeeded
  }

  function FailedOpenReport(r: OpenResult, pressure: bool, bundleId: Option<string>): Report
    requires !r.SessionOpened?
  {
    Failure(r.stage, if r.OpenFailed? then SessionOpen else TimeoutKind, pressure, bundleId)
  }

  /** `close_install_session`: ten seconds at most. */
  method CloseInstallSession(world: World) returns (cleanup: SessionCleanup)
    modifies world`now
    ensures old(world.now) <= world.now <= old(world.now) + SESSION_CLEANUP_TIMEOUT
    ensures cleanup != SessionNotNeeded
    ensures world.steady ==> cleanup == SessionSucceeded
  {
    var closed := world.Step(world.now + SESSION_CLEANUP_TIMEOUT);
    cleanup := if closed then SessionSucceeded else SessionFailed;
  }

  /** `verified_signing_identity` under the work deadline: an identity or an error kind. */
  method VerifiedIdentity(world: World, limit: nat) returns (r: Result<nat, ErrorKind>)
    modifies world`now
    ensures old(world.now) <= world.now <= if old(world.now) <= limit then limit else old(world.now)
    ensures r.Ok? ==> world.now <= limit
    ensures r.Err? ==> r.error == TimeoutKind || r.error.IdentityKind?
    ensures world.steady && old(world.now) <= limit ==> r == Ok(world.identity)
  {
    var done := world.Step(limit);
    var which: nat := *;
    var timedOut: bool := *;
    if done && world.steady {
      return Ok(world.identity);
    }
    if done {
      return Ok(which);
    }
    return Err(if timedOut then TimeoutKind else IdentityKind(which));
  }

  datatype Signed = SignedApp(pressure: bool) | RegistrationRequired(pressure: bool) | SigningFailed(stage: Stage, kind: ErrorKind)

  /** The signing task under the work deadline. */
  method PreflightAndSign(world: World, limit: nat) returns (r: Signed)
    modifies world`now
    ensures old(world.now) <= world.now <= if old(world.now) <= limit then limit else old(world.now)
    ensures r.SignedApp? ==> world.now <= limit
    ensures r.SigningFailed? ==> r.kind in {TimeoutKind, LocalTask} || r.kind.SigningKind?
    ensures world.steady && old(world.now) <= limit ==> !r.SigningFailed?
  {
    var done := world.Step(limit);
    var pressure, registered, preflight, timedOut, panicked: bool := *, *, *, *, *;
    var which: nat := *;
    if done {
      r := if registered then SignedApp(pressure) else RegistrationRequired(pressure);
    } else if timedOut {
      r := SigningFailed(Signing, TimeoutKind);
    } else if panicked {
      r := SigningFailed(Signing, LocalTask);
    } else {
      r := SigningFailed(if preflight then AccountPreflight else Signing, SigningKind(which));
    }
  }

  lemma NothingHappened<Digest(!new)>(files: Files, report: Report, task: Task, tree: Node, sha: Bytes -> Digest)
    requires Rooted(files) && report.installCommands == 0 && report.outcome == NotStarted && StageFits(report)
    requires report.errorKind != AppAlreadyInstalled
    ensures RunSafe(files, files, [], report, task, tree, sha)
  {
    NothingCreated(task.staging.root);
  }

  /** A run that ended before it did anything to the phone. */
  predicate Stopped(report: Report) {
    && report.installCommands == 0 && report.outcome == NotStarted && report.cleanup == CleanupNotNeeded
    && report.errorKind != NoError && StageFits(report)
  }

  datatype FirstHalf = Ended(report: Report) | ReadyToInstall(identity: nat, pressure: bool)

  /** The first session and signing: whose phone it is, the end of the session, and the signed app. */
  method FirstSession(world: World, limit: nat) returns (r: FirstHalf)
    modifies world`now
    ensures old(world.now) <= world.now <= (if old(world.now) <= limit then limit else old(world.now)) + SESSION_CLEANUP_TIMEOUT
    ensures r.Ended? ==> Stopped(r.report) && r.report.errorKind != AppAlreadyInstalled
    ensures r.ReadyToInstall? ==> world.now <= limit
    ensures world.steady && world.now <= limit ==>
              if r.Ended? then r.report.errorKind == DeviceRegistrationRequired && r.report.sessionCleanup == SessionSucceeded
              else r.identity == world.identity
  {
    var session := OpenSession(world, limit);
    if !session.SessionOpened? {
      return Ended(RecordSessionCleanup(FailedOpenReport(session, false, None), FailedOpenCleanup(session)));
    }
    var identity := VerifiedIdentity(world, limit);
    var cleanup := CloseInstallSession(world);
    if identity.Err? || cleanup == SessionFailed {
      var report := if identity.Err? then Failure(Identity, identity.error, false, None)
                    else Failure(SessionCleanupStage, SessionCleanupKind, false, None);
      return Ended(RecordSessionCleanup(report, cleanup));
    }
    var signed := PreflightAndSign(world, limit);
    match signed {
      case SigningFailed(stage, kind) => r := Ended(RecordSessionCleanup(Failure(stage, kind, false, None), cleanup));
      case RegistrationRequired(pressure) =>
        r := Ended(RecordSessionCleanup(Failure(AccountPreflight, DeviceRegistrationRequired, pressure, None), cleanup));
      case SignedApp(pressure) => r := ReadyToInstall(identity.value, pressure);
    }
  }

  function TaskFor(taskId: string, bundle: string, policy: ExistingAppPolicy, start: nat): Task
    requires IsUuid(taskId)
  {
    Task(StagingFor(taskId), bundle, policy, start + InstallTimeout(policy))
  }

  /** The second session, once it is open: the same phone, the install, and the end of the session. */
  method SecondSession<Digest(==,!new)>(world: World, task: Task, tree: Node, sha: Bytes -> Digest, identity: nat, pressure: bool, limit: nat)
    returns (report: Report, ghost events: seq<Event>)
    requires Rooted(world.files) && Placed(task.staging)
    requires tree.Folder? ==> DistinctNames(tree.kids)
    requires VERIFICATION_TIMEOUT + InstallCleanupReserve() <= task.deadline
    requires world.now <= limit == InstallWorkDeadline(task.deadline, 0)
    modifies world
    ensures old(world.now) <= world.now <= limit + CLEANUP_TIMEOUT + SESSION_CLEANUP_TIMEOUT
    ensures world.trace == old(world.trace) + events
    ensures RunSafe(old(world.files), world.files, events, report, task, tree, sha)
    ensures ErrorKindFits(report, report.cleanup != CleanupFailed && report.sessionCleanup != SessionFailed)
    ensures world.steady ==> report.cleanup != CleanupFailed && report.sessionCleanup == SessionSucceeded
    ensures world.steady && identity == world.identity && world.now + VERIFICATION_TIMEOUT + InstallCleanupReserve() < task.deadline ==>
              Determined(report, events, task, tree, old(world.files))
  {
    hide RunSafe, Rooted, DistinctNames, Determined, StageFits, Placed;
    events := [];
    var second := VerifiedIdentity(world, limit);
    if second != Ok(identity) {
      report := Failure(Identity, if second.Err? then second.error else IdentityChanged, pressure, Some(task.bundle));
      IdentityFailure(second, pressure, task.bundle);
      NothingHappened(world.files, report, task, tree, sha);
    } else {
      report, events := ExecuteRsdFirstInstall(world, task, tree, sha, pressure);
    }
    ghost var before := report;
    var lastCleanup := CloseInstallSession(world);
    report := RecordSessionCleanup(report, MergeSessionCleanup(SessionSucceeded, lastCleanup));
    SameRun(before, report, old(world.files), world.files, events, task, tree, sha);
    if report.errorKind == before.errorKind {
      assert events + [] == events;
      DeterminedAfterMore(before, report, events, [], task, tree, old(world.files));
    }
  }

  lemma IdentityFailure(second: Result<nat, ErrorKind>, pressure: bool, bundle: string)
    requires second.Err? ==> second.error == TimeoutKind || second.error.IdentityKind?
    ensures Stopped(Failure(Identity, if second.Err? then second.error else IdentityChanged, pressure, Some(bundle)))
  {
  }

  /**
   `install_remote_pairing_app`.  `tree` and `bundle` are what signing produces, `taskId` the
   identifier drawn for this run.
   */
  method InstallRemotePairingApp<Digest(==,!new)>(world: World, policy: ExistingAppPolicy, taskId: string,
                                                  bundle: string, tree: Node, sha: Bytes -> Digest)
    returns (report: Report, ghost events: seq<Event>)
    requires IsUuid(taskId) && Rooted(world.files)
    requires tree.Folder? ==> DistinctNames(tree.kids)
    modifies world
    ensures world.now <= old(world.now) + if policy == Refuse then 900 else 3600
    ensures world.trace == old(world.trace) + events
    ensures RunSafe(old(world.files), world.files, events, report, TaskFor(taskId, bundle, policy, old(world.now)), tree, sha)
    ensures ErrorKindFits(report, report.cleanup != CleanupFailed && report.sessionCleanup != SessionFailed)
    ensures world.steady && world.now + 40 < old(world.now) + (if policy == Refuse then 900 else 3600) ==>
              && report.cleanup != CleanupFailed && report.sessionCleanup == SessionSucceeded
              && (|| (report.errorKind == DeviceRegistrationRequired && report.installCommands == 0)
                  || Determined(report, events, TaskFor(taskId, bundle, policy, old(world.now)), tree, old(world.files)))
  {
    hide RunSafe, IsUuid, Rooted, DistinctNames, Determined, StageFits;
    var task := TaskFor(taskId, bundle, policy, world.now);
    var workDeadline := InstallWorkDeadline(task.deadline, world.now);
    events := [];

    var first := FirstSession(world, workDeadline);
    if first.Ended? {
      report := first.report;
      NothingHappened(world.files, report, task, tree, sha);
      return;
    }
    var pressure := first.pressure;
    var session := OpenSession(world, workDeadline);
    if !session.SessionOpened? {
      report := RecordSessionCleanup(FailedOpenReport(session, pressure, Some(bundle)),
                                     MergeSessionCleanup(SessionSucceeded, FailedOpenCleanup(session)));
      NothingHappened(world.files, report, task, tree, sha);
      return;
    }
    report, events := SecondSession(world, task, tree, sha, first.identity, pressure, workDeadline);
  }

  lemma SameRun<Digest(!new)>(a: Report, b: Report, before: Files, after: Files, events: seq<Event>, task: Task, tree: Node, sha: Bytes -> Digest)
    requires RunSafe(before, after, events, a, task, tree, sha)
    requires b.cleanup == a.cleanup && b.installCommands == a.installCommands && b.outcome == a.outcome && b.bundleId == a.bundleId
    requires || (b.errorKind == a.errorKind && b.stage == a.stage)
             || (a.errorKind == NoError && b.errorKind == SessionCleanupKind && b.stage == SessionCleanupStage)
    ensures RunSafe(before, after, events, b, task, tree, sha)
  {
    hide ReportFits, SafeWrites, CreationOrder, Rooted, SameOutside;
    SameVerdict(a, b, events, task, tree, sha);
  }

  // ----- what an install job makes of a report

  datatype TransportError =
    | Unavailable | DeviceInfoFailed | DeveloperTeamFailed | DeviceRegistrationFailed | IpaSigningFailed | DeviceInstallFailed

  /** `rsd_install_result`: the bundle id the job records, or why it failed. */
  function RsdInstallResult(report: Report): Result<string, TransportError> {
    if report.outcome == Installed then
      (if report.bundleId.Some? then Ok(report.bundleId.value) else Err(DeviceInstallFailed))
    else if report.stage in {Discovery, ValidatePairing, Tunnel, RsdHandshake} then Err(Unavailable)
    else if report.stage == Identity then Err(DeviceInfoFailed)
    else if report.stage == AccountPreflight then
      Err(if report.errorKind == DeviceRegistrationRequired then DeviceRegistrationFailed else DeveloperTeamFailed)
    else if report.stage == Signing then Err(IpaSigningFailed)
    else Err(DeviceInstallFailed)
  }

  /**
   What a job makes of a run. A job succeeds exactly with an `Installed` report, and records the signed bundle id; then one
   install command was sent for an exact copy of the signed tree, and a lookup in the verification
   window after it found the app.
   */
  lemma JobSucceedsOnlyWhenVerified<Digest(!new)>(before: Files, after: Files, events: seq<Event>, report: Report,
                                                  task: Task, tree: Node, sha: Bytes -> Digest)
    requires RunSafe(before, after, events, report, task, tree, sha)
    ensures RsdInstallResult(report).Ok? <==> report.outcome == Installed
    ensures report.errorKind == DeviceRegistrationRequired && report.outcome != Installed ==> RsdInstallResult(report) == Err(DeviceRegistrationFailed)
    ensures report.errorKind.IdentityKind? || report.errorKind == IdentityChanged ==> report.outcome == Installed || RsdInstallResult(report) == Err(DeviceInfoFailed)
    ensures report.outcome in {NotInstalled, OutcomeUnknown} && report.installCommands == 1 ==> RsdInstallResult(report) == Err(DeviceInstallFailed)
    ensures RsdInstallResult(report).Ok? ==>
              && RsdInstallResult(report) == Ok(task.bundle)
              && InstalledOnce(events, task, tree, sha, Installed, NoError)
              && exists i: nat :: i < |events| && events[i].Verifying? && events[i].until == events[i].start + VERIFICATION_TIMEOUT
                                  && SeenInstalled(events[i + 1..], task.bundle, events[i].start, events[i].until)
  {
    hide Rooted, SameOutside, SafeWrites, CreationOrder, NoWrites, Quiet, CopyOf, SeenAbsent, SeenInstalled, SeenMissing;
    if report.outcome == Installed {
      var kind := VerdictKind(report);
      var looks: seq<Event>, at: nat, files: Files, reply: Option<InstallReply>, start: nat, later: seq<Event> :|
        InstallSplit(events, looks, at, files, reply, start, later, task, tree, sha, Installed, kind);
      hide InstalledOnce;
      assert kind == NoError;
      var i := |looks| + 2;
      assert events[i] == Verifying(start, start + VERIFICATION_TIMEOUT) && events[i + 1..] == later;
      assert SeenInstalled(events[i + 1..], task.bundle, events[i].start, events[i].until);
    }
  }
}
