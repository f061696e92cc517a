/**
 `stage_signed_bundle` and `clean_exact_task_staging`: the planned tree is copied below a
 directory of the task's own, and that directory is removed again.
 */
module Staging {
  import opened Wrappers
  import opened RemotePaths
  import opened SignedTree
  import opened Phone
  import opened Afc

  const PUBLIC_STAGING: string := "PublicStaging"
  const TASK_NAME: string := "iphoneloadly-spike-"
  const TASK_PREFIX: string := PUBLIC_STAGING + "/" + TASK_NAME
  const TRANSFER_CHUNK: nat := 65536
  const CLEANUP_TIMEOUT: nat := 10

  predicate IsHex(c: char) {
    '0' <= c <= '9' || 'a' <= c <= 'f' || 'A' <= c <= 'F'
  }

  /** The hyphenated form `Uuid` prints and parses. */
  predicate IsUuid(s: string) {
    && |s| == 36
    && forall i :: 0 <= i < 36 ==> if i in {8, 13, 18, 23} then s[i] == '-' else IsHex(s[i])
  }

  datatype TaskStagingPath = TaskStagingPath(root: string, app: string) {
    predicate IsExactTaskRoot(candidate: string) {
      candidate == root && TASK_PREFIX <= candidate && IsUuid(candidate[|TASK_PREFIX|..])
    }
  }

  function StagingFor(taskId: string): (staging: TaskStagingPath)
    requires IsUuid(taskId)
    ensures staging.IsExactTaskRoot(staging.root)
    ensures '/' in staging.root && Parent(staging.root) == PUBLIC_STAGING
    ensures Within(staging.root, staging.app) && staging.app != staging.root
    ensures '/' in staging.app && Parent(staging.app) == staging.root
  {
    var root := TASK_PREFIX + taskId;
    TaskRoot(taskId);
    AppBelow(root);
    TaskStagingPath(root, root + "/Signed.app")
  }

  lemma TaskRoot(taskId: string)
    requires IsUuid(taskId)
    ensures
      var root := TASK_PREFIX + taskId;
      && TASK_PREFIX <= root && root[|TASK_PREFIX|..] == taskId
      && '/' in root && Parent(root) == PUBLIC_STAGING
  {
    NoSlashInUuid(taskId);
    hide IsUuid, Parent;
    NoSlashInTaskName();
    JoinedBelow(PUBLIC_STAGING, TASK_NAME, taskId);
  }

  lemma NoSlashInUuid(id: string)
    requires IsUuid(id)
    ensures '/' !in id
  {
  }

  lemma NoSlashInTaskName()
    ensures '/' !in TASK_NAME
  {
  }

  lemma JoinedBelow(directory: string, first: string, rest: string)
    requires '/' !in first && '/' !in rest
    ensures
      var prefix := directory + "/" + first;
      var path := prefix + rest;
      prefix <= path && path[|prefix|..] == rest && '/' in path && Parent(path) == directory
  {
    var path := directory + "/" + first + rest;
    assert path == directory + "/" + (first + rest);
    assert path[|directory|] == '/';
    ParentOf(directory, first + rest);
  }

  lemma AppBelow(root: string)
    ensures
      var app := root + "/Signed.app";
      Within(root, app) && app != root && '/' in app && Parent(app) == root
  {
    var app := root + "/Signed.app";
    ParentOf(root, "Signed.app");
    assert app == root + "/" + "Signed.app" && app[|root|] == '/';
  }

  function RemoteOf(app: string, relative: string): string {
    app + "/" + relative
  }

  // ----- what an upload may be seen to do

  predicate Writes(e: Event) {
    e.AfcSent? && (e.op.MakeDir? || e.op.FileOpen? || e.op.Write? || e.op.RemoveAll?)
  }

  predicate NoWrites(events: seq<Event>) {
    forall e :: e in events ==> !Writes(e)
  }

  /** Only AFC traffic; writes go over `conn`, below `root`, and remove nothing. */
  predicate Own(events: seq<Event>, root: string, conn: nat) {
    forall e :: e in events ==>
      && (e.AfcSent? || e.AfcSaw?)
      && (Writes(e) ==> e.conn == conn && !e.op.RemoveAll? && e.target.Some? && Within(root, e.target.value))
  }

  /** The root was seen absent before anything was written. */
  ghost predicate SawAbsentFirst(events: seq<Event>, root: string) {
    exists k :: 0 <= k < |events| && events[k] == AfcSaw(root, false) && NoWrites(events[..k])
  }

  /** The paths created, in order. */
  function Creates(events: seq<Event>): seq<string> {
    if events == [] then []
    else
      var e := events[|events| - 1];
      Creates(events[..|events| - 1])
      + if e.AfcSent? && (e.op.MakeDir? || e.op.FileOpen?) then [e.op.path] else []
  }

  /** The number of bytes sent in write requests. */
  function Payload(events: seq<Event>): nat {
    if events == [] then 0
    else
      var e := events[|events| - 1];
      Payload(events[..|events| - 1]) + if e.AfcSent? && e.op.Write? then |e.op.bytes| else 0
  }

  lemma {:induction false} CreatesAppend(a: seq<Event>, b: seq<Event>)
    ensures Creates(a + b) == Creates(a) + Creates(b)
    decreases |b|
  {
    if b == [] {
      assert a + b == a;
    } else {
      var n := |b| - 1;
      CreatesAppend(a, b[..n]);
      assert (a + b)[..|a + b| - 1] == a + b[..n];
    }
  }

  lemma {:induction false} NoCreates(events: seq<Event>)
    requires forall e :: e in events ==> !(e.AfcSent? && (e.op.MakeDir? || e.op.FileOpen?))
    ensures Creates(events) == []
  {
    if events != [] {
      NoCreates(events[..|events| - 1]);
    }
  }

  function CreatedBy(op: AfcOp): seq<string> {
    if op.MakeDir? || op.FileOpen? then [op.path] else []
  }

  function PayloadOf(op: AfcOp): nat {
    if op.Write? then |op.bytes| else 0
  }

  lemma LogSent(events: seq<Event>, root: string, conn: nat, op: AfcOp, target: string)
    requires Own(events, root, conn) && !op.RemoveAll? && Within(root, target)
    ensures var events' := events + [AfcSent(conn, op, Some(target))];
            && Own(events', root, conn)
            && Creates(events') == Creates(events) + CreatedBy(op)
            && Payload(events') == Payload(events) + PayloadOf(op)
  {
    var events' := events + [AfcSent(conn, op, Some(target))];
    assert events'[..|events'| - 1] == events;
  }

  /** Equal but for one path. */
  ghost predicate SameExcept(before: Files, after: Files, path: string) {
    forall p :: p != path ==> (p in before <==> p in after) && (p in before ==> before[p] == after[p])
  }

  datatype Step = Got(reply: AfcReply) | Failed | Dropped

  /**
   One request whose target is known, and what it means for the upload's log.
   `mkdir`, `write`, `close` and `open` all go through here.
   */
  method Command(client: TaskAfcClient, op: AfcOp, cancelAt: nat, ghost root: string, ghost target: string,
                 ghost trace0: seq<Event>, ghost events: seq<Event>)
    returns (r: Step, ghost events': seq<Event>)
    requires client.Aligned() && client.world.now <= cancelAt
    requires Rooted(client.world.files) && HandlesWithin(client.inner.handles, root) && Inside(op, root)
    requires op.MakeDir? || op.FileOpen? || op.Write? || op.FileClose?
    requires Target(client.inner.handles, op) == Some(target) && Within(root, target)
    requires client.world.trace == trace0 + events && Own(events, root, client.inner.id)
    modifies client, client.world`now, client.world`files, client.world`trace, client.world`faults
    ensures r != Dropped ==> client.Aligned()
    ensures client.inner.id == old(client.inner.id) && old(client.world.now) <= client.world.now <= cancelAt
    ensures Rooted(client.world.files) && HandlesWithin(client.inner.handles, root)
    ensures SameOutside(old(client.world.files), client.world.files, root)
    ensures Served(op, old(client.Disk()), client.Disk(), if r.Got? then Ok(r.reply) else Err(Cancelled))
    ensures client.world.trace == trace0 + events' && Own(events', root, client.inner.id) && events <= events'
    ensures r.Got? ==> Payload(events') == Payload(events) + PayloadOf(op)
    ensures old(client.Fine()) ==> client.Fine() && (Servable(old(client.Disk()), op) ==> r.Got?)
    ensures r.Got? ==> client.world.faults == old(client.world.faults)
    ensures if op.MakeDir? || op.FileOpen? then
              Creates(events') == Creates(events) + [op.path] || (!r.Got? && Creates(events') == Creates(events))
            else
              Creates(events') == Creates(events)
    ensures Payload(events) <= Payload(events') <= Payload(events) + PayloadOf(op)
  {
    var reply, serial := client.Request(op, cancelAt, root);
    events' := events;
    if client.world.trace != trace0 + events {
      events' := events + [AfcSent(client.inner.id, op, Some(target))];
      LogSent(events, root, client.inner.id, op, target);
      assert Creates(events) + [] == Creates(events);
    }
    if reply.Ok? {
      r := Got(reply.value);
    } else if reply.error.Cancelled? {
      r := Dropped;
    } else {
      r := Failed;
    }
  }

  // ----- progress

  /** Reserves 85..100 for the installation command and its verification. */
  function UploadProgressPercent(bytesSent: nat, totalBytes: nat): (percent: nat)
    ensures 40 <= percent <= 85
  {
    if totalBytes == 0 then 40
    else
      var sent := if bytesSent <= totalBytes then bytesSent else totalBytes;
      PercentInRange(sent, totalBytes);
      40 + (sent * 45) / totalBytes
  }

  lemma TimesMonotone(a: int, b: int, c: int)
    requires a <= b && 0 <= c
    ensures a * c <= b * c
  {
  }

  lemma PercentInRange(sent: nat, totalBytes: nat)
    requires sent <= totalBytes && totalBytes > 0
    ensures 0 <= (sent * 45) / totalBytes <= 45
  {
    var q := (sent * 45) / totalBytes;
    if q > 45 {
      TimesMonotone(46, q, totalBytes);
    }
  }

  lemma QuotientMonotone(a: nat, b: nat, d: nat)
    requires a <= b && d > 0
    ensures a / d <= b / d
  {
    if a / d > b / d {
      TimesMonotone(b / d + 1, a / d, d);
    }
  }

  /** The percentage lies in 40..85, does not fall as bytes are sent, is 85 once all are, and else 40 and that share of 45, rounded down. */
  lemma ProgressNeverFalls(sent: nat, more: nat, totalBytes: nat)
    requires sent <= more
    ensures 40 <= UploadProgressPercent(sent, totalBytes) <= UploadProgressPercent(more, totalBytes) <= 85
    ensures totalBytes > 0 && more >= totalBytes ==> UploadProgressPercent(more, totalBytes) == 85
    ensures 0 < totalBytes && more <= totalBytes ==>
              var part := UploadProgressPercent(more, totalBytes) - 40;
              part * totalBytes <= more * 45 < (part + 1) * totalBytes
  {
    if totalBytes > 0 {
      var low := if sent <= totalBytes then sent else totalBytes;
      var high := if more <= totalBytes then more else totalBytes;
      QuotientMonotone(low * 45, high * 45, totalBytes);
      FullQuotient(totalBytes);
    }
  }

  lemma FullQuotient(d: nat)
    requires d > 0
    ensures (d * 45) / d == 45
  {
  }

  /** The reported percentages start at 40, never go down and end at `last`, at most 85. */
  ghost predicate Ramp(reports: seq<nat>, last: nat) {
    && reports != [] && reports[0] == 40 && reports[|reports| - 1] == last <= 85
    && forall i, j :: 0 <= i < j < |reports| ==> reports[i] <= reports[j]
  }

  lemma RampStep(reports: seq<nat>, last: nat, percent: nat)
    requires Ramp(reports, last) && last <= percent <= 85
    ensures Ramp(reports + [percent], percent)
  {
    forall i | 0 <= i < |reports| ensures reports[i] <= last {
    }
  }

  lemma RampBounds(reports: seq<nat>, last: nat)
    requires Ramp(reports, last)
    ensures 40 <= last <= 85
  {
    assert reports[0] <= reports[|reports| - 1];
  }

  /** The callback is only told about a higher percentage. */
  method ReportProgress(world: World, bytesSent: nat, totalBytes: nat, lastPercent: nat, ghost reported0: seq<nat>, ghost reports: seq<nat>)
    returns (percent: nat, ghost reports': seq<nat>)
    requires world.reported == reported0 + reports && Ramp(reports, lastPercent)
    modifies world`reported
    ensures world.reported == reported0 + reports' && Ramp(reports', percent)
    ensures percent >= lastPercent && percent >= UploadProgressPercent(bytesSent, totalBytes)
  {
    percent, reports' := lastPercent, reports;
    var now := UploadProgressPercent(bytesSent, totalBytes);
    if now > lastPercent {
      world.Report(now);
      RampStep(reports, lastPercent, now);
      percent, reports' := now, reports + [now];
    }
  }

  // ----- one file

  /** The error kinds of an upload, one for each place where it can fail. */
  datatype StageFailure =
    | PublicStagingQuery | PublicStagingInvalid | StagingPrecheck | StagingRootExists | StagingRootCreate | StagingAppCreate
    | StagingDirectoryCreate | StagingFileOpen | StagingFileWrite | StagingFileClose | SourceChanged | SourceRead

  predicate BeforeCreating(kind: StageFailure) {
    kind.PublicStagingQuery? || kind.PublicStagingInvalid? || kind.StagingPrecheck? || kind.StagingRootExists?
  }

  datatype ReadResult = Chunk(bytes: Bytes) | EndOfFile | ReadError | ReadDropped

  /**
   Reading the local file from `offset` on: what it holds by now is anyone's guess, but in a steady
   world it is still `local`, of which a read returns some part.
   */
  method LocalRead(world: World, local: Bytes, offset: nat, cancelAt: nat) returns (r: ReadResult)
    requires world.now <= cancelAt
    modifies world`now, world`faults
    ensures old(world.now) <= world.now <= cancelAt
    ensures world.faults == old(world.faults) + if r.Chunk? || r.EndOfFile? then 0 else 1
    ensures r.Chunk? ==> 0 < |r.bytes| <= TRANSFER_CHUNK
    ensures world.steady && offset < |local| ==>
              r.Chunk? && offset + |r.bytes| <= |local| && r.bytes == local[offset..offset + |r.bytes|]
    ensures world.steady && offset >= |local| ==> r == EndOfFile
  {
    world.Pass(cancelAt);
    r := *;
    if world.steady {
      if offset >= |local| {
        return EndOfFile;
      }
      var most := if |local| - offset <= TRANSFER_CHUNK then |local| - offset else TRANSFER_CHUNK;
      var count: nat := *;
      if !(0 < count <= most) {
        count := most;
      }
      return Chunk(local[offset..offset + count]);
    }
    if r.Chunk? && !(0 < |r.bytes| <= TRANSFER_CHUNK) {
      r := EndOfFile;
    }
    if !r.Chunk? && !r.EndOfFile? {
      world.Fault();
    }
  }

  /** The re-checks of a local file or directory against what the plan saw. */
  method LocalIntact(world: World) returns (intact: bool)
    modifies world`faults
    ensures world.steady ==> intact
    ensures world.faults == old(world.faults) + if intact then 0 else 1
  {
    var changed: bool := *;
    intact := world.steady || !changed;
    if !intact {
      world.Fault();
    }
  }

  datatype FileStep = Uploaded | FileError(kind: StageFailure) | FileDropped

  ghost predicate Matches<Digest>(item: Item, kind: EntryKind<Digest>, sha: Bytes -> Digest) {
    match kind
    case Directory => item == Dir
    case RegularFile(size, digest) => item.Data? && |item.bytes| == size && sha(item.bytes) == digest
  }

  /** One write of the chunk loop. */
  method WriteChunk(client: TaskAfcClient, descriptor: nat, ghost remote: string, bytes: Bytes, cancelAt: nat,
                    ghost root: string, ghost trace0: seq<Event>, ghost events: seq<Event>)
    returns (r: Step, ghost events': seq<Event>)
    requires client.Aligned() && client.world.now <= cancelAt
    requires Rooted(client.world.files) && HandlesWithin(client.inner.handles, root) && Within(root, remote)
    requires descriptor in client.inner.handles && client.inner.handles[descriptor] == remote
    requires remote in client.world.files && client.world.files[remote].Data?
    requires client.world.trace == trace0 + events && Own(events, root, client.inner.id)
    modifies client, client.world`now, client.world`files, client.world`trace, client.world`faults
    ensures r != Dropped ==> client.Aligned()
    ensures client.inner.id == old(client.inner.id) && client.inner.handles == old(client.inner.handles)
    ensures old(client.world.now) <= client.world.now <= cancelAt
    ensures Rooted(client.world.files) && SameOutside(old(client.world.files), client.world.files, root)
    ensures client.world.trace == trace0 + events' && Own(events', root, client.inner.id) && events <= events'
    ensures Creates(events') == Creates(events) && Payload(events') <= Payload(events) + |bytes|
    ensures r.Got? ==>
              && Payload(events') == Payload(events) + |bytes|
              && client.world.files == old(client.world.files)[remote := Data(old(client.world.files)[remote].bytes + bytes)]
    ensures old(client.Fine()) ==> client.Fine() && r.Got?
    ensures r.Got? ==> client.world.faults == old(client.world.faults)
  {
    hide Rooted, SameOutside, Own, Creates, Payload, HandlesWithin, Within, TaskAfcClient.Fine;
    r, events' := Command(client, Write(descriptor, bytes), cancelAt, root, remote, trace0, events);
  }

  datatype ChunkStep = More(bytes: Bytes) | Finished | ChunkFailed(kind: StageFailure) | ChunkDropped

  /** One turn of the chunk loop: read, check the planned size, write, report. */
  method NextChunk(client: TaskAfcClient, descriptor: nat, ghost remote: string, size: nat, local: Bytes, ghost sent: Bytes, written: nat,
                   totalBytes: nat, bytesBefore: nat, percentBefore: nat, cancelAt: nat,
                   ghost root: string, ghost trace0: seq<Event>, ghost events0: seq<Event>,
                   ghost reported0: seq<nat>, ghost reports0: seq<nat>)
    returns (r: ChunkStep, percent: nat, ghost events: seq<Event>, ghost reports: seq<nat>)
    requires client.Aligned() && client.world.now <= cancelAt
    requires Rooted(client.world.files) && HandlesWithin(client.inner.handles, root) && Within(root, remote)
    requires descriptor in client.inner.handles && client.inner.handles[descriptor] == remote
    requires remote in client.world.files && client.world.files[remote] == Data(sent) && |sent| == written <= size
    requires client.world.trace == trace0 + events0 && Own(events0, root, client.inner.id) && Payload(events0) == bytesBefore + written
    requires client.world.reported == reported0 + reports0 && Ramp(reports0, percentBefore)
    modifies client, client.world`now, client.world`files, client.world`trace, client.world`faults, client.world`reported
    ensures r != ChunkDropped ==> client.Aligned()
    ensures client.inner.id == old(client.inner.id) && client.inner.handles == old(client.inner.handles)
    ensures old(client.world.now) <= client.world.now <= cancelAt
    ensures Rooted(client.world.files) && SameOutside(old(client.world.files), client.world.files, root)
    ensures client.world.trace == trace0 + events && Own(events, root, client.inner.id) && events0 <= events
    ensures Creates(events) == Creates(events0) && Payload(events) <= bytesBefore + size
    ensures client.world.reported == reported0 + reports && Ramp(reports, percent)
    ensures r.More? ==>
              && 0 < |r.bytes| && written + |r.bytes| <= size && Payload(events) == bytesBefore + written + |r.bytes|
              && client.world.files == old(client.world.files)[remote := Data(sent + r.bytes)]
    ensures r.Finished? ==> Payload(events) == bytesBefore + written && client.world.files == old(client.world.files)
    ensures old(client.Fine()) && |local| == size && sent == local[..written] ==>
              && client.Fine()
              && (if written == size then r.Finished? else r.More? && sent + r.bytes == local[..written + |r.bytes|])
    ensures r.More? || r.Finished? ==> client.world.faults == old(client.world.faults)
    ensures r.ChunkFailed? ==> r.kind in {SourceRead, SourceChanged, StagingFileWrite}
  {
    assert client.Fine() ==> client.world.steady;
    hide Rooted, SameOutside, Own, Ramp, Creates, Payload, Within, HandlesWithin, UploadProgressPercent, TaskAfcClient.Fine, TaskAfcClient.Aligned;
    SameOutsideItself(client.world.files, root);
    percent, events, reports := percentBefore, events0, reports0;
    var chunk := LocalRead(client.world, local, written, cancelAt);
    match chunk {
      case ReadDropped => r := ChunkDropped;
      case ReadError => r := ChunkFailed(SourceRead);
      case EndOfFile => r := Finished;
      case Chunk(bytes) =>
        if written + |bytes| > size {
          r := ChunkFailed(SourceChanged);
          return;
        }
        var step;
        step, events := WriteChunk(client, descriptor, remote, bytes, cancelAt, root, trace0, events);
        if !step.Got? {
          r := if step == Dropped then ChunkDropped else ChunkFailed(StagingFileWrite);
          return;
        }
        r := More(bytes);
        var total := bytesBefore + written + |bytes|;
        percent, reports := ReportProgress(client.world, total, totalBytes, percent, reported0, reports);
    }
  }

  /**
   The chunk loop of an opened file: read, check the planned size, write, report.  `error` is
   the first failure, if any; `dropped` means that the deadline took the future away.
   */
  method WriteChunks<Digest(==)>(client: TaskAfcClient, descriptor: nat, ghost remote: string, size: nat, digest: Digest, local: Bytes,
                                 sha: Bytes -> Digest, totalBytes: nat, bytesBefore: nat, percentBefore: nat, cancelAt: nat,
                                 ghost root: string, ghost trace0: seq<Event>, ghost events0: seq<Event>,
                                 ghost reported0: seq<nat>, ghost reports0: seq<nat>)
    returns (error: Option<StageFailure>, dropped: bool, bytesSent: nat, percent: nat, ghost events: seq<Event>, ghost reports: seq<nat>)
    requires client.Aligned() && client.world.now <= cancelAt
    requires Rooted(client.world.files) && HandlesWithin(client.inner.handles, root) && Within(root, remote)
    requires descriptor in client.inner.handles && client.inner.handles[descriptor] == remote
    requires remote in client.world.files && client.world.files[remote] == Data([])
    requires client.world.trace == trace0 + events0 && Own(events0, root, client.inner.id) && Payload(events0) == bytesBefore
    requires bytesBefore + size <= totalBytes <= BYTE_LIMIT
    requires client.world.reported == reported0 + reports0 && Ramp(reports0, percentBefore)
    modifies client, client.world`now, client.world`files, client.world`trace, client.world`faults, client.world`reported
    ensures !dropped ==> client.Aligned()
    ensures client.inner.id == old(client.inner.id) && old(client.world.now) <= client.world.now <= cancelAt
    ensures Rooted(client.world.files) && HandlesWithin(client.inner.handles, root)
    ensures descriptor in client.inner.handles && client.inner.handles[descriptor] == remote
    ensures SameOutside(old(client.world.files), client.world.files, root)
    ensures client.world.trace == trace0 + events && Own(events, root, client.inner.id) && events0 <= events
    ensures Creates(events) == Creates(events0) && Payload(events) <= bytesBefore + size
    ensures client.world.reported == reported0 + reports && Ramp(reports, percent)
    ensures !dropped && error == None ==>
              && SameExcept(old(client.world.files), client.world.files, remote)
              && remote in client.world.files
              && Matches(client.world.files[remote], RegularFile(size, digest), sha)
              && bytesSent == Payload(events) == bytesBefore + size
    ensures old(client.Fine()) && |local| == size && sha(local) == digest ==> client.Fine() && !dropped && error == None
    ensures error.Some? ==> error.value in {SourceRead, SourceChanged, StagingFileWrite}
    ensures !dropped && error == None ==> client.world.faults == old(client.world.faults)
  {
    hide Rooted, SameOutside, Own, Ramp, Creates, Payload, Within;
    ghost var fine := client.Fine() && |local| == size && sha(local) == digest;
    assert fine ==> client.world.steady;
    hide HandlesWithin, SameExcept, BeforeCreating, TaskAfcClient.Fine, TaskAfcClient.Aligned;
    ghost var files0 := client.world.files;
    UpdatedWithItself(files0, remote);
    SameOutsideItself(files0, root);
    error, dropped := None, false;
    bytesSent, percent, events, reports := bytesBefore, percentBefore, events0, reports0;
    var written, sent: Bytes, reading := 0, [], true;
    while reading
      invariant client.Aligned() && client.world.now <= cancelAt && client.inner.id == old(client.inner.id)
      invariant old(client.world.now) <= client.world.now
      invariant Rooted(client.world.files) && HandlesWithin(client.inner.handles, root)
      invariant descriptor in client.inner.handles && client.inner.handles[descriptor] == remote
      invariant client.world.files == files0[remote := Data(sent)]
      invariant SameOutside(files0, client.world.files, root)
      invariant written == |sent| <= size && bytesSent == Payload(events) == bytesBefore + written
      invariant client.world.trace == trace0 + events && Own(events, root, client.inner.id) && events0 <= events
      invariant Creates(events) == Creates(events0)
      invariant client.world.reported == reported0 + reports && Ramp(reports, percent)
      invariant client.world.faults == old(client.world.faults)
      invariant fine ==> client.Fine() && sent == local[..written] && (!reading ==> written == size)
      decreases size - written, reading
    {
      ghost var before := client.world.files;
      var chunk;
      chunk, percent, events, reports :=
        NextChunk(client, descriptor, remote, size, local, sent, written, totalBytes, bytesBefore, percent, cancelAt,
                  root, trace0, events, reported0, reports);
      SameOutsideTransitive(files0, before, client.world.files, root);
      match chunk {
        case ChunkDropped =>
          dropped := true;
          return;
        case ChunkFailed(kind) =>
          error := Some(kind);
          return;
        case Finished =>
          reading := false;
        case More(bytes) =>
          UpdatedTwice(files0, remote, Data(sent), Data(sent + bytes));
          written, sent, bytesSent := written + |bytes|, sent + bytes, bytesSent + |bytes|;
      }
    }
    assert fine && written == size ==> sent == local;
    SameExceptUpdated(files0, remote, Data(sent));
    var intact := LocalIntact(client.world);
    if written != size || !intact || sha(sent) != digest {
      error := Some(SourceChanged);
    }
  }

  lemma UpdatedTwice(files: Files, path: string, one: Item, two: Item)
    ensures files[path := one][path := two] == files[path := two]
  {
  }

  lemma UpdatedWithItself(files: Files, path: string)
    requires path in files
    ensures files[path := files[path]] == files
  {
  }

  lemma SameExceptSince(before: Files, after: Files, path: string, item: Item)
    ensures SameExcept(before[path := item], after, path) ==> SameExcept(before, after, path)
  {
  }

  lemma SameExceptUpdated(files: Files, path: string, item: Item)
    ensures SameExcept(files, files[path := item], path)
  {
  }

  method OpenFile(client: TaskAfcClient, remote: string, cancelAt: nat, ghost root: string, ghost trace0: seq<Event>, ghost events: seq<Event>)
    returns (r: Step, ghost events': seq<Event>)
    requires client.Aligned() && client.world.now <= cancelAt
    requires Rooted(client.world.files) && HandlesWithin(client.inner.handles, root) && Within(root, remote)
    requires client.world.trace == trace0 + events && Own(events, root, client.inner.id)
    requires HasParent(client.world.files, remote) && remote !in client.world.files
    modifies client, client.world`now, client.world`files, client.world`trace, client.world`faults
    ensures r != Dropped ==> client.Aligned()
    ensures client.inner.id == old(client.inner.id) && old(client.world.now) <= client.world.now <= cancelAt
    ensures Rooted(client.world.files) && HandlesWithin(client.inner.handles, root)
    ensures SameOutside(old(client.world.files), client.world.files, root)
    ensures client.world.trace == trace0 + events' && Own(events', root, client.inner.id) && events <= events'
    ensures Creates(events') == Creates(events) + [remote] || (!r.Got? && Creates(events') == Creates(events))
    ensures Payload(events') == Payload(events)
    ensures r.Got? ==>
              && client.world.files == old(client.world.files)[remote := Data([])]
              && r.reply.Opened? && r.reply.handle in client.inner.handles && client.inner.handles[r.reply.handle] == remote
    ensures old(client.Fine()) ==> client.Fine() && r.Got?
    ensures r.Got? ==> client.world.faults == old(client.world.faults)
  {
    hide Rooted, SameOutside, Own, Creates, Payload, HandlesWithin, Within, TaskAfcClient.Fine, TaskAfcClient.Aligned;
    r, events' := Command(client, FileOpen(remote), cancelAt, root, remote, trace0, events);
  }

  method CloseFile(client: TaskAfcClient, descriptor: nat, ghost remote: string, cancelAt: nat,
                   ghost root: string, ghost trace0: seq<Event>, ghost events: seq<Event>)
    returns (r: Step, ghost events': seq<Event>)
    requires client.Aligned() && client.world.now <= cancelAt
    requires Rooted(client.world.files) && HandlesWithin(client.inner.handles, root) && Within(root, remote)
    requires descriptor in client.inner.handles && client.inner.handles[descriptor] == remote
    requires client.world.trace == trace0 + events && Own(events, root, client.inner.id)
    modifies client, client.world`now, client.world`files, client.world`trace, client.world`faults
    ensures r != Dropped ==> client.Aligned()
    ensures client.inner.id == old(client.inner.id) && old(client.world.now) <= client.world.now <= cancelAt
    ensures client.world.files == old(client.world.files) && HandlesWithin(client.inner.handles, root)
    ensures client.world.trace == trace0 + events' && Own(events', root, client.inner.id) && events <= events'
    ensures Creates(events') == Creates(events) && Payload(events') == Payload(events)
    ensures old(client.Fine()) ==> client.Fine() && r.Got?
    ensures r.Got? ==> client.world.faults == old(client.world.faults)
  {
    hide Rooted, SameOutside, Own, Creates, Payload, HandlesWithin, Within, TaskAfcClient.Fine, TaskAfcClient.Aligned;
    r, events' := Command(client, FileClose(descriptor), cancelAt, root, remote, trace0, events);
  }

  /** An opened file is written chunk by chunk and closed. */
  method FillFile<Digest(==)>(client: TaskAfcClient, descriptor: nat, ghost remote: string, size: nat, digest: Digest, local: Bytes,
                              sha: Bytes -> Digest, totalBytes: nat, bytesBefore: nat, percentBefore: nat, cancelAt: nat,
                              ghost root: string, ghost trace0: seq<Event>, ghost events0: seq<Event>,
                              ghost reported0: seq<nat>, ghost reports0: seq<nat>)
    returns (r: FileStep, bytesSent: nat, percent: nat, ghost events: seq<Event>, ghost reports: seq<nat>)
    requires client.Aligned() && client.world.now <= cancelAt
    requires Rooted(client.world.files) && HandlesWithin(client.inner.handles, root) && Within(root, remote)
    requires descriptor in client.inner.handles && client.inner.handles[descriptor] == remote
    requires remote in client.world.files && client.world.files[remote] == Data([])
    requires client.world.trace == trace0 + events0 && Own(events0, root, client.inner.id) && Payload(events0) == bytesBefore
    requires bytesBefore + size <= totalBytes <= BYTE_LIMIT
    requires client.world.reported == reported0 + reports0 && Ramp(reports0, percentBefore)
    modifies client, client.world`now, client.world`files, client.world`trace, client.world`faults, client.world`reported
    ensures r != FileDropped ==> client.Aligned()
    ensures client.inner.id == old(client.inner.id) && old(client.world.now) <= client.world.now <= cancelAt
    ensures Rooted(client.world.files) && HandlesWithin(client.inner.handles, root)
    ensures SameOutside(old(client.world.files), client.world.files, root)
    ensures client.world.trace == trace0 + events && Own(events, root, client.inner.id) && events0 <= events
    ensures Creates(events) == Creates(events0) && Payload(events) <= bytesBefore + size
    ensures client.world.reported == reported0 + reports && Ramp(reports, percent)
    ensures r == Uploaded ==>
              && SameExcept(old(client.world.files), client.world.files, remote)
              && remote in client.world.files
              && Matches(client.world.files[remote], RegularFile(size, digest), sha)
              && bytesSent == Payload(events) == bytesBefore + size
              && client.world.faults == old(client.world.faults)
    ensures old(client.Fine()) && |local| == size && sha(local) == digest ==> client.Fine() && r == Uploaded
    ensures r.FileError? ==> r.kind in {SourceRead, SourceChanged, StagingFileWrite, StagingFileClose}
  {
    hide Rooted, SameOutside, Own, Ramp, Creates, Payload, Within, Matches, SameExcept, HandlesWithin, TaskAfcClient.Fine, TaskAfcClient.Aligned;
    var error, dropped;
    error, dropped, bytesSent, percent, events, reports :=
      WriteChunks(client, descriptor, remote, size, digest, local, sha, totalBytes, bytesBefore, percentBefore, cancelAt,
                  root, trace0, events0, reported0, reports0);
    if dropped {
      r := FileDropped;
      return;
    }
    var step;
    step, events := CloseFile(client, descriptor, remote, cancelAt, root, trace0, events);
    r := if step == Dropped then FileDropped
         else if error.Some? then FileError(error.value)
         else if step == Failed then FileError(StagingFileClose)
         else Uploaded;
  }

  /**
   The file branch of the upload loop: open, write chunk by chunk, close.  The bytes sent
   are checked against the planned size and digest, not against the file the plan saw.
   */
  method UploadFile<Digest(==)>(client: TaskAfcClient, remote: string, size: nat, digest: Digest, local: Bytes, sha: Bytes -> Digest,
                                totalBytes: nat, bytesBefore: nat, percentBefore: nat, cancelAt: nat, ghost root: string,
                                ghost trace0: seq<Event>, ghost events0: seq<Event>,
                                ghost reported0: seq<nat>, ghost reports0: seq<nat>)
    returns (r: FileStep, bytesSent: nat, percent: nat, ghost events: seq<Event>, ghost reports: seq<nat>)
    requires client.Aligned() && client.world.now <= cancelAt
    requires Rooted(client.world.files) && HandlesWithin(client.inner.handles, root) && Within(root, remote)
    requires client.world.trace == trace0 + events0 && Own(events0, root, client.inner.id) && Payload(events0) == bytesBefore
    requires bytesBefore + size <= totalBytes <= BYTE_LIMIT
    requires HasParent(client.world.files, remote) && remote !in client.world.files
    requires client.world.reported == reported0 + reports0 && Ramp(reports0, percentBefore)
    modifies client, client.world`now, client.world`files, client.world`trace, client.world`faults, client.world`reported
    ensures r != FileDropped ==> client.Aligned()
    ensures client.inner.id == old(client.inner.id) && old(client.world.now) <= client.world.now <= cancelAt
    ensures Rooted(client.world.files) && HandlesWithin(client.inner.handles, root)
    ensures SameOutside(old(client.world.files), client.world.files, root)
    ensures client.world.trace == trace0 + events && Own(events, root, client.inner.id) && events0 <= events
    ensures (Creates(events) == Creates(events0) || Creates(events) == Creates(events0) + [remote]) && Payload(events) <= bytesBefore + size
    ensures client.world.reported == reported0 + reports && Ramp(reports, percent)
    ensures r == Uploaded ==>
              && Creates(events) == Creates(events0) + [remote]
              && bytesSent == Payload(events) == bytesBefore + size
              && SameExcept(old(client.world.files), client.world.files, remote)
              && remote in client.world.files
              && Matches(client.world.files[remote], RegularFile(size, digest), sha)
    ensures old(client.Fine()) && |local| == size && sha(local) == digest ==> client.Fine() && r == Uploaded
    ensures r.FileError? ==> r.kind in {SourceRead, SourceChanged, StagingFileOpen, StagingFileWrite, StagingFileClose}
    ensures r == FileError(StagingFileOpen) ==> Payload(events) == bytesBefore
    ensures r == Uploaded ==> client.world.faults == old(client.world.faults)
  {
    assert client.Fine() ==> client.world.steady;
    hide Rooted, SameOutside, Own, Ramp, Creates, Payload, Within, Matches, SameExcept, HandlesWithin, HasParent, TaskAfcClient.Fine, TaskAfcClient.Aligned;
    SameOutsideItself(client.world.files, root);
    bytesSent, percent, events, reports := bytesBefore, percentBefore, events0, reports0;
    var intact := LocalIntact(client.world);
    if !intact {
      r := FileError(SourceChanged);
      return;
    }
    var step;
    ghost var files0 := client.world.files;
    step, events := OpenFile(client, remote, cancelAt, root, trace0, events);
    if !step.Got? {
      r := if step == Dropped then FileDropped else FileError(StagingFileOpen);
      return;
    }
    ghost var files1 := client.world.files;
    r, bytesSent, percent, events, reports :=
      FillFile(client, step.reply.handle, remote, size, digest, local, sha, totalBytes, bytesBefore, percentBefore, cancelAt,
               root, trace0, events, reported0, reports);
    SameOutsideTransitive(files0, files1, client.world.files, root);
    SameExceptSince(files0, client.world.files, remote, Data([]));
  }

  // ----- queries

  datatype QueryStep = Present(directory: bool) | Absent | QueryFailed | QueryDropped

  lemma LogAsking(events: seq<Event>, root: string, conn: nat, path: string)
    requires Own(events, root, conn) && NoWrites(events)
    ensures var events' := events + [AfcSent(conn, GetFileInfo(path), Some(path))];
            Own(events', root, conn) && NoWrites(events') && Creates(events') == Creates(events) && Payload(events') == Payload(events)
  {
    hide Within;
    assert (events + [AfcSent(conn, GetFileInfo(path), Some(path))])[..|events|] == events;
  }

  lemma LogSeeing(events: seq<Event>, root: string, conn: nat, seen: Event)
    requires Own(events, root, conn) && NoWrites(events) && seen.AfcSaw?
    ensures Own(events + [seen], root, conn) && NoWrites(events + [seen])
    ensures Creates(events + [seen]) == Creates(events) && Payload(events + [seen]) == Payload(events)
  {
    hide Within;
    assert (events + [seen])[..|events|] == events;
  }

  lemma LogQuery(events: seq<Event>, root: string, conn: nat, path: string, seen: seq<Event>)
    requires Own(events, root, conn) && NoWrites(events)
    requires seen == [] || (|seen| == 1 && seen[0].AfcSaw?)
    ensures var events' := events + [AfcSent(conn, GetFileInfo(path), Some(path))] + seen;
            && Own(events', root, conn) && NoWrites(events')
            && Creates(events') == Creates(events) && Payload(events') == Payload(events)
            && (seen != [] ==> events'[|events'| - 1] == seen[0])
  {
    hide Own, NoWrites, Creates, Payload;
    var asking := events + [AfcSent(conn, GetFileInfo(path), Some(path))];
    LogAsking(events, root, conn, path);
    if seen == [] {
      assert asking + seen == asking;
    } else {
      assert seen == [seen[0]];
      LogSeeing(asking, root, conn, seen[0]);
    }
  }

  /** `path_exists` and `is_directory`: reads, changes nothing. */
  method Query(client: TaskAfcClient, path: string, cancelAt: nat, ghost root: string, ghost trace0: seq<Event>, ghost events: seq<Event>)
    returns (r: QueryStep, ghost events': seq<Event>)
    requires client.Aligned() && client.world.now <= cancelAt
    requires Rooted(client.world.files) && HandlesWithin(client.inner.handles, root)
    requires client.world.trace == trace0 + events && Own(events, root, client.inner.id) && NoWrites(events)
    modifies client, client.world`now, client.world`files, client.world`trace, client.world`faults
    ensures r != QueryDropped ==> client.Aligned()
    ensures client.inner.id == old(client.inner.id) && old(client.world.now) <= client.world.now <= cancelAt
    ensures client.Disk() == old(client.Disk())
    ensures client.world.trace == trace0 + events' && Own(events', root, client.inner.id) && NoWrites(events')
    ensures Creates(events') == Creates(events) && Payload(events') == Payload(events)
    ensures r == Absent ==> path !in client.world.files && events' != [] && events'[|events'| - 1] == AfcSaw(path, false)
    ensures r.Present? ==> path in client.world.files && r.directory == (client.world.files[path] == Dir)
    ensures old(client.Fine()) ==> client.Fine() && (r.Present? || r == Absent)
    ensures r.Present? || r == Absent ==> client.world.faults == old(client.world.faults)
  {
    hide Rooted, HandlesWithin, SameOutside, Own, Creates, Payload, NoWrites;
    var op := GetFileInfo(path);
    var reply, serial := client.Request(op, cancelAt, root);
    events' := events;
    if client.world.trace != trace0 + events {
      LogQuery(events, root, client.inner.id, path, Sightings(op, reply));
      events' := events + [AfcSent(client.inner.id, op, Some(path))] + Sightings(op, reply);
      assert client.world.trace == trace0 + events';
    }
    r := match reply
      case Ok(info) => Present(info.directory)
      case Err(Answered(ObjectNotFound)) => Absent
      case Err(Cancelled) => QueryDropped
      case Err(_) => QueryFailed;
  }

  // ----- the whole upload

  /** Below `app` lies exactly the planned tree, with the planned sizes and digests. */
  ghost predicate Mirrors<Digest>(files: Files, app: string, entries: seq<UploadEntry<Digest>>, sha: Bytes -> Digest) {
    && (forall p :: p in files && Within(app, p) && p != app ==>
          exists k :: 0 <= k < |entries| && p == RemoteOf(app, entries[k].remote))
    && (forall k :: 0 <= k < |entries| ==>
          && RemoteOf(app, entries[k].remote) in files
          && Matches(files[RemoteOf(app, entries[k].remote)], entries[k].kind, sha))
  }

  lemma RemoteInjective(app: string, a: string, b: string)
    requires RemoteOf(app, a) == RemoteOf(app, b)
    ensures a == b
  {
    assert a == RemoteOf(app, a)[|app| + 1..];
    assert b == RemoteOf(app, b)[|app| + 1..];
  }

  lemma MirrorsExtend<Digest>(before: Files, after: Files, app: string, entries: seq<UploadEntry<Digest>>, i: nat, sha: Bytes -> Digest)
    requires i < |entries| && DistinctRemotes(entries) && Mirrors(before, app, entries[..i], sha)
    requires SameExcept(before, after, RemoteOf(app, entries[i].remote))
    requires RemoteOf(app, entries[i].remote) in after
    requires Matches(after[RemoteOf(app, entries[i].remote)], entries[i].kind, sha)
    ensures Mirrors(after, app, entries[..i + 1], sha)
  {
    var shorter, longer := entries[..i], entries[..i + 1];
    forall p | p in after && Within(app, p) && p != app
      ensures exists k :: 0 <= k < |longer| && p == RemoteOf(app, longer[k].remote)
    {
      if p == RemoteOf(app, entries[i].remote) {
        assert longer[i] == entries[i];
      } else {
        var k :| 0 <= k < |shorter| && p == RemoteOf(app, shorter[k].remote);
        assert longer[k] == shorter[k];
      }
    }
    forall k | 0 <= k < |longer|
      ensures RemoteOf(app, longer[k].remote) in after && Matches(after[RemoteOf(app, longer[k].remote)], longer[k].kind, sha)
    {
      if k < i {
        assert shorter[k] == longer[k];
        if RemoteOf(app, longer[k].remote) == RemoteOf(app, entries[i].remote) {
          RemoteInjective(app, longer[k].remote, entries[i].remote);
        }
      }
    }
  }

  function Remotes<Digest>(app: string, entries: seq<UploadEntry<Digest>>): (remotes: seq<string>)
    ensures |remotes| == |entries|
    ensures forall k :: 0 <= k < |entries| ==> remotes[k] == RemoteOf(app, entries[k].remote)
  {
    seq(|entries|, k requires 0 <= k < |entries| => RemoteOf(app, entries[k].remote))
  }

  /** Every path an upload creates, in the order it creates them. */
  function Expected<Digest>(staging: TaskStagingPath, entries: seq<UploadEntry<Digest>>): seq<string> {
    [staging.root, staging.app] + Remotes(staging.app, entries)
  }

  lemma SawAbsentEarlier(early: seq<Event>, events: seq<Event>, root: string)
    requires SawAbsentFirst(early, root) && early <= events
    ensures SawAbsentFirst(events, root)
  {
    var k :| 0 <= k < |early| && early[k] == AfcSaw(root, false) && NoWrites(early[..k]);
    assert events[..k] == early[..k];
  }

  datatype StageResult = Staged | StageError(kind: StageFailure) | StageDropped

  /** As `TaskStagingPath::new` makes it: a task root in `PublicStaging`, and the app below it. */
  ghost predicate Placed(staging: TaskStagingPath) {
    && staging.IsExactTaskRoot(staging.root) && '/' in staging.root && Parent(staging.root) == PUBLIC_STAGING
    && Within(staging.root, staging.app) && staging.app != staging.root
    && '/' in staging.app && Parent(staging.app) == staging.root
  }

  /** Paths in an order in which they can be created below a root that is not there yet: each once, and after its directory. */
  predicate CreationOrder(paths: seq<string>, root: string) {
    && (paths != [] ==> paths[0] == root)
    && (forall k :: 0 < k < |paths| ==> '/' in paths[k] && Parent(paths[k]) in paths[..k])
    && (forall i, k :: 0 <= i < k < |paths| ==> paths[i] != paths[k])
  }

  lemma CreationPrefix(paths: seq<string>, longer: seq<string>, root: string)
    requires paths <= longer && CreationOrder(longer, root)
    ensures CreationOrder(paths, root)
  {
    forall k | 0 < k < |paths| ensures '/' in paths[k] && Parent(paths[k]) in paths[..k] {
      assert paths[..k] == longer[..k] && paths[k] == longer[k];
    }
    forall i, k | 0 <= i < k < |paths| ensures paths[i] != paths[k] {
      assert paths[i] == longer[i] && paths[k] == longer[k];
    }
  }

  /** A plan that puts directories first is uploaded in such an order. */
  lemma ExpectedInOrder<Digest>(staging: TaskStagingPath, entries: seq<UploadEntry<Digest>>)
    requires Placed(staging) && ParentsFirst(entries) && DistinctRemotes(entries)
    ensures CreationOrder(Expected(staging, entries), staging.root)
  {
    hide Parent, Within;
    var all := Expected(staging, entries);
    forall k | 0 < k < |all| ensures '/' in all[k] && Parent(all[k]) in all[..k] {
      ParentExpected(staging, entries, k);
    }
    forall i, k | 0 <= i < k < |all| ensures all[i] != all[k] {
      ExpectedApart(staging, entries, i, k);
    }
  }

  lemma ExpectedAt<Digest>(staging: TaskStagingPath, entries: seq<UploadEntry<Digest>>, k: nat)
    requires k < |entries| + 2
    ensures |Expected(staging, entries)| == |entries| + 2
    ensures Expected(staging, entries)[k]
         == if k == 0 then staging.root else if k == 1 then staging.app else RemoteOf(staging.app, entries[k - 2].remote)
  {
  }

  lemma ParentExpected<Digest>(staging: TaskStagingPath, entries: seq<UploadEntry<Digest>>, k: nat)
    requires Placed(staging) && ParentsFirst(entries) && 0 < k < |Expected(staging, entries)|
    ensures
      var all := Expected(staging, entries);
      '/' in all[k] && Parent(all[k]) in all[..k]
  {
    hide Parent, Within, Expected, RemoteOf;
    var all := Expected(staging, entries);
    ExpectedAt(staging, entries, 0);
    ExpectedAt(staging, entries, k);
    if k == 1 {
      assert all[..k][0] == staging.root;
    } else {
      var relative := entries[k - 2].remote;
      ParentOfRemote(staging.app, relative);
      if '/' in relative {
        var i :| 0 <= i < k - 2 && entries[i] == UploadEntry(Parent(relative), Directory);
        ExpectedAt(staging, entries, i + 2);
        assert all[..k][i + 2] == RemoteOf(staging.app, entries[i].remote);
      } else {
        ExpectedAt(staging, entries, 1);
        assert all[..k][1] == staging.app;
      }
    }
  }

  lemma ExpectedApart<Digest>(staging: TaskStagingPath, entries: seq<UploadEntry<Digest>>, i: nat, k: nat)
    requires Placed(staging) && DistinctRemotes(entries) && i < k < |Expected(staging, entries)|
    ensures Expected(staging, entries)[i] != Expected(staging, entries)[k]
  {
    AppBelowRoot(staging);
    ExpectedAt(staging, entries, i);
    ExpectedAt(staging, entries, k);
    hide Placed, Within, Parent, Expected;
    if k >= 2 {
      assert |RemoteOf(staging.app, entries[k - 2].remote)| > |staging.app|;
      if i >= 2 && RemoteOf(staging.app, entries[i - 2].remote) == RemoteOf(staging.app, entries[k - 2].remote) {
        RemoteInjective(staging.app, entries[i - 2].remote, entries[k - 2].remote);
      }
    }
  }

  lemma InsideStaging(staging: TaskStagingPath, relative: string)
    requires Placed(staging)
    ensures Within(staging.root, RemoteOf(staging.app, relative))
    ensures RemoteOf(staging.app, relative) != staging.app
  {
    assert Within(staging.app, RemoteOf(staging.app, relative));
    WithinTransitive(staging.root, staging.app, RemoteOf(staging.app, relative));
  }

  /** A local file still has the planned size and digest. */
  ghost predicate HoldsLocally<Digest>(local: Bytes, kind: EntryKind<Digest>, sha: Bytes -> Digest) {
    kind.RegularFile? ==> |local| == kind.size && sha(local) == kind.digest
  }

  /** `disk` holds the content of every planned file, by its relative path. */
  ghost predicate Unchanged<Digest>(disk: map<string, Bytes>, entries: seq<UploadEntry<Digest>>, sha: Bytes -> Digest) {
    forall i :: 0 <= i < |entries| ==> HoldsLocally(LocalFile(disk, entries[i].remote), entries[i].kind, sha)
  }

  /** An undisturbed tree still holds what its plan promises. */
  lemma PlanIsUnchanged<Digest>(root: Node, sha: Bytes -> Digest, plan: UploadPlan<Digest>)
    requires root.Folder? && DistinctNames(root.kids) && SafeTree(root) && IsPlan(root, sha, plan)
    ensures Unchanged(LocalFiles(Descendants(root)), plan.entries, sha)
  {
    var all := Descendants(root);
    var listed := EntriesOf(all, sha);
    ListedDistinct(root);
    hide DistinctJoins, DistinctNames, SafeTree, LocalFiles;
    forall k | 0 <= k < |plan.entries|
      ensures HoldsLocally(LocalFile(LocalFiles(all), plan.entries[k].remote), plan.entries[k].kind, sha)
    {
      assert plan.entries[k] in multiset(listed);
      var m :| 0 <= m < |listed| && listed[m] == plan.entries[k];
      if all[m].node.File? {
        LocalFilesHold(all, m);
      }
    }
  }

  function LocalFile(disk: map<string, Bytes>, relative: string): Bytes {
    if relative in disk then disk[relative] else []
  }

  /** The body of the entry loop. */
  method UploadOne<Digest(==)>(client: TaskAfcClient, remote: string, entry: UploadEntry<Digest>, local: Bytes, sha: Bytes -> Digest,
                               totalBytes: nat, bytesBefore: nat, percentBefore: nat, cancelAt: nat, ghost root: string,
                               ghost trace0: seq<Event>, ghost events0: seq<Event>,
                               ghost reported0: seq<nat>, ghost reports0: seq<nat>)
    returns (r: FileStep, bytesSent: nat, percent: nat, ghost events: seq<Event>, ghost reports: seq<nat>)
    requires client.Aligned() && client.world.now <= cancelAt
    requires Rooted(client.world.files) && HandlesWithin(client.inner.handles, root) && Within(root, remote)
    requires client.world.trace == trace0 + events0 && Own(events0, root, client.inner.id) && Payload(events0) == bytesBefore
    requires bytesBefore + SizeOf(entry) <= totalBytes <= BYTE_LIMIT
    requires HasParent(client.world.files, remote) && remote !in client.world.files
    requires client.world.reported == reported0 + reports0 && Ramp(reports0, percentBefore)
    modifies client, client.world`now, client.world`files, client.world`trace, client.world`faults, client.world`reported
    ensures r != FileDropped ==> client.Aligned()
    ensures client.inner.id == old(client.inner.id) && old(client.world.now) <= client.world.now <= cancelAt
    ensures Rooted(client.world.files) && HandlesWithin(client.inner.handles, root)
    ensures SameOutside(old(client.world.files), client.world.files, root)
    ensures client.world.trace == trace0 + events && Own(events, root, client.inner.id) && events0 <= events
    ensures Creates(events) == Creates(events0) || Creates(events) == Creates(events0) + [remote]
    ensures Payload(events) <= bytesBefore + SizeOf(entry)
    ensures client.world.reported == reported0 + reports && Ramp(reports, percent)
    ensures r == Uploaded ==>
              && Creates(events) == Creates(events0) + [remote]
              && bytesSent == Payload(events) == bytesBefore + SizeOf(entry)
              && SameExcept(old(client.world.files), client.world.files, remote)
              && remote in client.world.files
              && Matches(client.world.files[remote], entry.kind, sha)
    ensures old(client.Fine()) && HoldsLocally(local, entry.kind, sha) ==> client.Fine() && r == Uploaded
    ensures r.FileError? && r.kind != SourceChanged ==> (entry.kind.Directory? <==> r.kind == StagingDirectoryCreate)
    ensures r.FileError? ==> !BeforeCreating(r.kind)
    ensures r == Uploaded ==> client.world.faults == old(client.world.faults)
  {
    hide Rooted, Own, Ramp, Creates, Payload, Within, HandlesWithin, SameOutside;
    SameOutsideItself(client.world.files, root);
    match entry.kind {
      case Directory =>
        bytesSent, percent, events, reports := bytesBefore, percentBefore, events0, reports0;
        var intact := LocalIntact(client.world);
        if !intact {
          r := FileError(SourceChanged);
          return;
        }
        var step;
        step, events := Command(client, MakeDir(remote), cancelAt, root, remote, trace0, events);
        r := match step
          case Got(_) => Uploaded
          case Dropped => FileDropped
          case Failed => FileError(StagingDirectoryCreate);
      case RegularFile(size, digest) =>
        r, bytesSent, percent, events, reports :=
          UploadFile(client, remote, size, digest, local, sha, totalBytes, bytesBefore, percentBefore, cancelAt,
                     root, trace0, events0, reported0, reports0);
    }
  }

  /** What a successful upload has done. */
  ghost predicate StagedExactly<Digest>(files: Files, staging: TaskStagingPath, plan: UploadPlan<Digest>, sha: Bytes -> Digest, events: seq<Event>) {
    && staging.app in files && files[staging.app] == Dir
    && Mirrors(files, staging.app, plan.entries, sha)
    && Creates(events) == Expected(staging, plan.entries)
    && Payload(events) == plan.byteCount
  }

  /** The first `i` entries are in place, and nothing else was created or sent. */
  ghost predicate UploadedUpTo<Digest>(files: Files, staging: TaskStagingPath, plan: UploadPlan<Digest>, sha: Bytes -> Digest,
                                       i: nat, events: seq<Event>, bytesSent: nat)
    requires i <= |plan.entries|
  {
    && Mirrors(files, staging.app, plan.entries[..i], sha)
    && staging.app in files && files[staging.app] == Dir
    && Creates(events) == Expected(staging, plan.entries)[..i + 2]
    && bytesSent == Payload(events) == Sizes(plan.entries[..i])
  }

  /** One turn of the entry loop. */
  method UploadNext<Digest(==)>(client: TaskAfcClient, staging: TaskStagingPath, plan: UploadPlan<Digest>,
                                disk: map<string, Bytes>, sha: Bytes -> Digest, i: nat, bytesBefore: nat, percentBefore: nat, cancelAt: nat,
                                ghost trace0: seq<Event>, ghost events0: seq<Event>, ghost reported0: seq<nat>, ghost reports0: seq<nat>)
    returns (r: StageResult, bytesSent: nat, percent: nat, ghost events: seq<Event>, ghost reports: seq<nat>)
    requires client.Aligned() && client.world.now <= cancelAt && Placed(staging) && i < |plan.entries|
    requires Rooted(client.world.files) && HandlesWithin(client.inner.handles, staging.root)
    requires plan.byteCount == Sizes(plan.entries) <= BYTE_LIMIT && DistinctRemotes(plan.entries) && ParentsFirst(plan.entries)
    requires client.world.trace == trace0 + events0 && Own(events0, staging.root, client.inner.id)
    requires UploadedUpTo(client.world.files, staging, plan, sha, i, events0, bytesBefore)
    requires client.world.reported == reported0 + reports0 && Ramp(reports0, percentBefore)
    modifies client, client.world`now, client.world`files, client.world`trace, client.world`faults, client.world`reported
    ensures client.inner.id == old(client.inner.id) && old(client.world.now) <= client.world.now <= cancelAt
    ensures Rooted(client.world.files) && SameOutside(old(client.world.files), client.world.files, staging.root)
    ensures client.world.trace == trace0 + events && Own(events, staging.root, client.inner.id) && events0 <= events
    ensures Creates(events) <= Expected(staging, plan.entries) && Payload(events) <= plan.byteCount
    ensures client.world.reported == reported0 + reports && Ramp(reports, percent)
    ensures r == Staged ==>
              && client.Aligned() && HandlesWithin(client.inner.handles, staging.root)
              && UploadedUpTo(client.world.files, staging, plan, sha, i + 1, events, bytesSent)
    ensures old(client.Fine()) && HoldsLocally(LocalFile(disk, plan.entries[i].remote), plan.entries[i].kind, sha) ==>
              client.Fine() && r == Staged
    ensures r.StageError? ==> !BeforeCreating(r.kind)
    ensures r == Staged ==> client.world.faults == old(client.world.faults)
  {
    hide Mirrors, Own, Ramp, Rooted, HandlesWithin, Matches, SameOutside, SameExcept, DistinctRemotes, ParentsFirst, HasParent, Sizes, Creates, Payload, Within, RemoteOf, Placed;
    hide HoldsLocally, LocalFile, TaskAfcClient.Fine, BeforeCreating;
    var entry := plan.entries[i];
    var remote := RemoteOf(staging.app, entry.remote);
    InsideStaging(staging, entry.remote);
    SizesUpTo(plan.entries, i);
    CreateNext(staging, plan.entries, i);
    NextCreateIsPossible(client.world.files, staging.app, plan.entries, i, sha);
    ghost var before := client.world.files;
    var step;
    step, bytesSent, percent, events, reports :=
      UploadOne(client, remote, entry, LocalFile(disk, entry.remote), sha, plan.byteCount, bytesBefore, percentBefore, cancelAt,
                staging.root, trace0, events0, reported0, reports0);
    if step != Uploaded {
      r := if step == FileDropped then StageDropped else StageError(step.kind);
      return;
    }
    MirrorsExtend(before, client.world.files, staging.app, plan.entries, i, sha);
    SameExceptAt(before, client.world.files, remote, staging.app);
    r := Staged;
  }

  /** The entry loop: each planned entry is created once, in plan order. */
  method UploadEntries<Digest(==)>(client: TaskAfcClient, staging: TaskStagingPath, plan: UploadPlan<Digest>,
                                   disk: map<string, Bytes>, sha: Bytes -> Digest,
                                   cancelAt: nat, ghost trace0: seq<Event>, ghost events0: seq<Event>,
                                   ghost reported0: seq<nat>, ghost reports0: seq<nat>)
    returns (r: StageResult, bytesSent: nat, ghost events: seq<Event>, ghost reports: seq<nat>)
    requires client.Aligned() && client.world.now <= cancelAt && Placed(staging)
    requires Rooted(client.world.files) && HandlesWithin(client.inner.handles, staging.root)
    requires plan.byteCount == Sizes(plan.entries) <= BYTE_LIMIT && DistinctRemotes(plan.entries) && ParentsFirst(plan.entries)
    requires client.world.trace == trace0 + events0 && Own(events0, staging.root, client.inner.id)
    requires UploadedUpTo(client.world.files, staging, plan, sha, 0, events0, 0)
    requires client.world.reported == reported0 + reports0 && Ramp(reports0, 40)
    modifies client, client.world`now, client.world`files, client.world`trace, client.world`faults, client.world`reported
    ensures client.inner.id == old(client.inner.id) && old(client.world.now) <= client.world.now <= cancelAt
    ensures Rooted(client.world.files)
    ensures SameOutside(old(client.world.files), client.world.files, staging.root)
    ensures client.world.trace == trace0 + events && Own(events, staging.root, client.inner.id) && events0 <= events
    ensures Creates(events) <= Expected(staging, plan.entries) && Payload(events) <= plan.byteCount
    ensures client.world.reported == reported0 + reports && exists last :: 0 <= last && Ramp(reports, last)
    ensures r == Staged ==>
              && StagedExactly(client.world.files, staging, plan, sha, events)
              && bytesSent == Payload(events) == plan.byteCount
    ensures old(client.Fine()) && Unchanged(disk, plan.entries, sha) ==> r == Staged
    ensures r.StageError? ==> !BeforeCreating(r.kind)
    ensures r == Staged ==> client.world.faults == old(client.world.faults)
  {
    hide UploadedUpTo, StagedExactly, Own, Ramp, Rooted, HandlesWithin, SameOutside, DistinctRemotes, ParentsFirst, Sizes, Creates, Payload, Placed, Expected;
    hide HoldsLocally, LocalFile, Unchanged, TaskAfcClient.Fine, BeforeCreating;
    ghost var fine := client.Fine() && Unchanged(disk, plan.entries, sha);
    SameOutsideItself(client.world.files, staging.root);
    UpToIsLess(client.world.files, staging, plan, sha, 0, events0, 0);
    var percent := 40;
    r, bytesSent, events, reports := Staged, 0, events0, reports0;
    for i := 0 to |plan.entries|
      invariant r == Staged && client.Aligned() && client.world.now <= cancelAt && client.inner.id == old(client.inner.id)
      invariant old(client.world.now) <= client.world.now
      invariant Rooted(client.world.files) && HandlesWithin(client.inner.handles, staging.root)
      invariant SameOutside(old(client.world.files), client.world.files, staging.root)
      invariant client.world.trace == trace0 + events && Own(events, staging.root, client.inner.id) && events0 <= events
      invariant Creates(events) <= Expected(staging, plan.entries) && Payload(events) <= plan.byteCount
      invariant UploadedUpTo(client.world.files, staging, plan, sha, i, events, bytesSent)
      invariant client.world.reported == reported0 + reports && Ramp(reports, percent)
      invariant client.world.faults == old(client.world.faults)
      invariant fine ==> client.Fine()
    {
      UnchangedAt(disk, plan.entries, i, sha);
      ghost var before := client.world.files;
      r, bytesSent, percent, events, reports :=
        UploadNext(client, staging, plan, disk, sha, i, bytesSent, percent, cancelAt, trace0, events, reported0, reports);
      SameOutsideTransitive(old(client.world.files), before, client.world.files, staging.root);
      if r != Staged {
        return;
      }
    }
    AllUploaded(client.world.files, staging, plan, sha, events, bytesSent);
    client.world.Report(85);
    RampBounds(reports, percent);
    RampStep(reports, percent, 85);
    reports := reports + [85];
  }

  lemma UpToIsLess<Digest>(files: Files, staging: TaskStagingPath, plan: UploadPlan<Digest>, sha: Bytes -> Digest,
                           i: nat, events: seq<Event>, bytesSent: nat)
    requires i <= |plan.entries| && plan.byteCount == Sizes(plan.entries)
    requires UploadedUpTo(files, staging, plan, sha, i, events, bytesSent)
    ensures Creates(events) <= Expected(staging, plan.entries) && Payload(events) <= plan.byteCount
  {
    hide Mirrors, Sizes, Creates, Payload;
    assert plan.entries == plan.entries[..i] + plan.entries[i..];
    SizesAppend(plan.entries[..i], plan.entries[i..]);
  }

  lemma AllUploaded<Digest>(files: Files, staging: TaskStagingPath, plan: UploadPlan<Digest>, sha: Bytes -> Digest,
                            events: seq<Event>, bytesSent: nat)
    requires plan.byteCount == Sizes(plan.entries)
    requires UploadedUpTo(files, staging, plan, sha, |plan.entries|, events, bytesSent)
    ensures StagedExactly(files, staging, plan, sha, events) && bytesSent == Payload(events) == plan.byteCount
  {
    hide Mirrors, Sizes, Creates, Payload;
    assert plan.entries[..|plan.entries|] == plan.entries;
  }

  lemma NothingUploaded<Digest>(files: Files, staging: TaskStagingPath, plan: UploadPlan<Digest>, sha: Bytes -> Digest, events: seq<Event>)
    requires Mirrors(files, staging.app, plan.entries[..0], sha) && staging.app in files && files[staging.app] == Dir
    requires Creates(events) == [staging.root, staging.app] && Payload(events) == 0
    ensures UploadedUpTo(files, staging, plan, sha, 0, events, 0)
  {
    hide Mirrors, Creates, Payload;
    NothingSized(plan.entries);
  }

  lemma UnchangedAt<Digest>(disk: map<string, Bytes>, entries: seq<UploadEntry<Digest>>, i: nat, sha: Bytes -> Digest)
    requires i < |entries|
    ensures Unchanged(disk, entries, sha) ==> HoldsLocally(LocalFile(disk, entries[i].remote), entries[i].kind, sha)
  {
  }

  lemma SameExceptAt(before: Files, after: Files, path: string, other: string)
    requires SameExcept(before, after, path) && other != path && other in before
    ensures other in after && after[other] == before[other]
  {
  }

  lemma NothingSized<Digest>(entries: seq<UploadEntry<Digest>>)
    ensures Sizes(entries[..0]) == 0
  {
  }

  lemma SizesUpTo<Digest>(entries: seq<UploadEntry<Digest>>, i: nat)
    requires i < |entries|
    ensures Sizes(entries[..i + 1]) == Sizes(entries[..i]) + SizeOf(entries[i]) <= Sizes(entries)
  {
    assert entries[..i + 1][..i] == entries[..i];
    assert entries == entries[..i + 1] + entries[i + 1..];
    SizesAppend(entries[..i + 1], entries[i + 1..]);
  }

  lemma CreateNext<Digest>(staging: TaskStagingPath, entries: seq<UploadEntry<Digest>>, i: nat)
    requires i < |entries|
    ensures var all := Expected(staging, entries);
            all[..i + 3] == all[..i + 2] + [RemoteOf(staging.app, entries[i].remote)]
  {
  }

  /** What an upload leaves behind, whatever the phone did. */
  ghost predicate StagedSafely<Digest>(before: Files, after: Files, staging: TaskStagingPath, plan: UploadPlan<Digest>,
                                       conn: nat, rootCreated: bool, events: seq<Event>) {
    && Rooted(after) && SameOutside(before, after, staging.root)
    && Own(events, staging.root, conn)
    && (!rootCreated ==> NoWrites(events) && after == before)
    && (rootCreated ==> staging.root !in before && SawAbsentFirst(events, staging.root))
    && Creates(events) <= Expected(staging, plan.entries) && CreationOrder(Creates(events), staging.root)
    && Payload(events) <= plan.byteCount
  }

  /** Nothing is created unless `PublicStaging` is a directory and the root is free, and two errors say so. */
  predicate Prechecked(files: Files, root: string, r: StageResult, rootCreated: bool) {
    && (rootCreated ==> PUBLIC_STAGING in files && files[PUBLIC_STAGING] == Dir && root !in files)
    && (r.StageError? ==> (BeforeCreating(r.kind) <==> !rootCreated))
    && (r == StageError(PublicStagingInvalid) ==> PUBLIC_STAGING in files && files[PUBLIC_STAGING] != Dir)
    && (r == StageError(StagingRootExists) ==> PUBLIC_STAGING in files && files[PUBLIC_STAGING] == Dir && root in files)
  }

  /** How an upload ends that nothing disturbs. */
  function Undisturbed(files: Files, root: string): (r: StageResult)
    ensures r != Staged ==> r.StageError?
  {
    if PUBLIC_STAGING !in files then StageError(PublicStagingQuery)
    else if files[PUBLIC_STAGING] != Dir then StageError(PublicStagingInvalid)
    else if root in files then StageError(StagingRootExists)
    else Staged
  }

  /** The two directories the upload starts with. */
  method CreateRoot(client: TaskAfcClient, staging: TaskStagingPath, cancelAt: nat, ghost trace0: seq<Event>, ghost events0: seq<Event>)
    returns (r: StageResult, ghost events: seq<Event>)
    requires client.Aligned() && client.world.now <= cancelAt && Placed(staging)
    requires Rooted(client.world.files) && HandlesWithin(client.inner.handles, staging.root)
    requires client.world.trace == trace0 + events0 && Own(events0, staging.root, client.inner.id)
    requires Creates(events0) == [] && Payload(events0) == 0
    requires staging.root !in client.world.files
    modifies client, client.world`now, client.world`files, client.world`trace, client.world`faults
    ensures r == Staged ==> client.Aligned()
    ensures client.inner.id == old(client.inner.id) && old(client.world.now) <= client.world.now <= cancelAt
    ensures Rooted(client.world.files) && HandlesWithin(client.inner.handles, staging.root)
    ensures SameOutside(old(client.world.files), client.world.files, staging.root)
    ensures client.world.trace == trace0 + events && Own(events, staging.root, client.inner.id) && events0 <= events
    ensures Creates(events) <= [staging.root, staging.app] && Payload(events) == 0
    ensures r == Staged ==>
              && Creates(events) == [staging.root, staging.app]
              && client.world.files == old(client.world.files)[staging.root := Dir][staging.app := Dir]
    ensures old(client.Fine()) && HasParent(old(client.world.files), staging.root) ==> client.Fine() && r == Staged
    ensures r.StageError? ==> r.kind in {StagingRootCreate, StagingAppCreate}
    ensures r == StageError(StagingRootCreate) ==> Creates(events) <= [staging.root]
    ensures r == StageError(StagingAppCreate) ==> [staging.root] <= Creates(events)
    ensures r.StageError? ==> !BeforeCreating(r.kind)
    ensures r == Staged ==> client.world.faults == old(client.world.faults)
  {
    var step;
    step, events := Command(client, MakeDir(staging.root), cancelAt, staging.root, staging.root, trace0, events0);
    if !step.Got? {
      r := if step == Dropped then StageDropped else StageError(StagingRootCreate);
      return;
    }
    step, events := Command(client, MakeDir(staging.app), cancelAt, staging.root, staging.app, trace0, events);
    if !step.Got? {
      r := if step == Dropped then StageDropped else StageError(StagingAppCreate);
      return;
    }
    r := Staged;
  }

  lemma FreshMirror<Digest>(before: Files, after: Files, staging: TaskStagingPath, entries: seq<UploadEntry<Digest>>, sha: Bytes -> Digest)
    requires Rooted(before) && staging.root !in before && Placed(staging)
    requires after == before[staging.root := Dir][staging.app := Dir]
    ensures Mirrors(after, staging.app, entries[..0], sha)
  {
    forall p | p in after && Within(staging.app, p) && p != staging.app ensures false {
      WithinTransitive(staging.root, staging.app, p);
      if p == staging.root {
        AppBelowRoot(staging);
      } else {
        NothingBelow(before, staging.root, p);
      }
    }
  }

  lemma AppBelowRoot(staging: TaskStagingPath)
    requires Placed(staging)
    ensures !Within(staging.app, staging.root) && |staging.root| < |staging.app|
  {
    assert |staging.root| < |staging.app|;
  }

  /** The two questions before anything is created; `Staged` means that both were answered well. */
  method Precheck(client: TaskAfcClient, staging: TaskStagingPath, cancelAt: nat, ghost trace0: seq<Event>)
    returns (r: StageResult, ghost events: seq<Event>)
    requires client.Aligned() && client.world.now <= cancelAt
    requires Rooted(client.world.files) && HandlesWithin(client.inner.handles, staging.root) && client.world.trace == trace0
    modifies client, client.world`now, client.world`files, client.world`trace, client.world`faults
    ensures r == Staged ==> client.Aligned() && SawAbsentFirst(events, staging.root)
    ensures client.inner.id == old(client.inner.id) && old(client.world.now) <= client.world.now <= cancelAt
    ensures client.Disk() == old(client.Disk())
    ensures client.world.trace == trace0 + events && Own(events, staging.root, client.inner.id) && NoWrites(events)
    ensures Creates(events) == [] && Payload(events) == 0
    ensures Prechecked(client.world.files, staging.root, r, r == Staged)
    ensures old(client.Fine()) ==> client.Fine() && r == Undisturbed(client.world.files, staging.root)
    ensures r == Staged ==> client.world.faults == old(client.world.faults)
  {
    hide Rooted, HandlesWithin, TaskAfcClient.Fine;
    events := [];
    assert trace0 + [] == trace0;
    var query;
    query, events := Query(client, PUBLIC_STAGING, cancelAt, staging.root, trace0, events);
    hide Own, NoWrites, Creates, Payload;
    if query != Present(true) {
      r := match query
        case QueryDropped => StageDropped
        case QueryFailed => StageError(PublicStagingQuery)
        case Absent => StageError(PublicStagingQuery)
        case Present(_) => StageError(PublicStagingInvalid);
      return;
    }
    query, events := Query(client, staging.root, cancelAt, staging.root, trace0, events);
    if query != Absent {
      r := match query
        case QueryDropped => StageDropped
        case QueryFailed => StageError(StagingPrecheck)
        case Present(_) => StageError(StagingRootExists);
      return;
    }
    SeenLast(events, staging.root);
    r := Staged;
  }

  lemma SeenLast(events: seq<Event>, root: string)
    requires NoWrites(events) && events != [] && events[|events| - 1] == AfcSaw(root, false)
    ensures SawAbsentFirst(events, root)
  {
    assert NoWrites(events[..|events| - 1]);
  }

  /**
   `stage_signed_bundle`, dropped at `cancelAt` wherever it is.  `rootCreated` is set before the
   first create request is sent, so that cleanup also covers a create whose reply never came.
   */
  method StageSignedBundle<Digest(==)>(client: TaskAfcClient, staging: TaskStagingPath, plan: UploadPlan<Digest>,
                                       disk: map<string, Bytes>, sha: Bytes -> Digest, cancelAt: nat)
    returns (r: StageResult, rootCreated: bool, ghost events: seq<Event>, ghost reports: seq<nat>)
    requires client.Aligned() && client.inner.handles == map[] && client.world.now <= cancelAt && Placed(staging)
    requires Rooted(client.world.files)
    requires plan.byteCount == Sizes(plan.entries) <= BYTE_LIMIT && DistinctRemotes(plan.entries) && ParentsFirst(plan.entries)
    modifies client, client.world`now, client.world`files, client.world`trace, client.world`faults, client.world`reported
    ensures client.inner.id == old(client.inner.id) && old(client.world.now) <= client.world.now <= cancelAt
    ensures client.world.trace == old(client.world.trace) + events
    ensures StagedSafely(old(client.world.files), client.world.files, staging, plan, client.inner.id, rootCreated, events)
    ensures client.world.reported == old(client.world.reported) + reports && exists last :: 0 <= last && Ramp(reports, last)
    ensures r == Staged ==> rootCreated && StagedExactly(client.world.files, staging, plan, sha, events)
    ensures Prechecked(old(client.world.files), staging.root, r, rootCreated)
    ensures r == Staged ==> client.world.faults == old(client.world.faults)
    ensures old(client.Fine()) && Unchanged(disk, plan.entries, sha) ==>
              r == Undisturbed(old(client.world.files), staging.root)
  {
    hide Mirrors, Ramp, Sizes, Rooted, SameOutside, Within, DistinctRemotes, ParentsFirst, CreationOrder, Placed, SawAbsentFirst, Unchanged, TaskAfcClient.Fine;
    NothingCreated(staging.root);
    ExpectedInOrder(staging, plan.entries);
    SameOutsideItself(client.world.files, staging.root);
    NoHandles(staging.root);
    rootCreated, reports := false, [40];
    ghost var trace0, reported0, files0 := client.world.trace, client.world.reported, client.world.files;
    client.world.Report(40);
    RampStart();
    r, events := Precheck(client, staging, cancelAt, trace0);
    if r != Staged {
      return;
    }
    rootCreated := true;
    ghost var looked := events;
    RootHasParent(files0, staging);
    hide HasParent;
    r, events := CreateRoot(client, staging, cancelAt, trace0, events);
    SawAbsentEarlier(looked, events, staging.root);
    if r != Staged {
      assert [staging.root, staging.app] <= Expected(staging, plan.entries);
      CreationPrefix(Creates(events), Expected(staging, plan.entries), staging.root);
      return;
    }
    FreshMirror(files0, client.world.files, staging, plan.entries, sha);
    NothingUploaded(client.world.files, staging, plan, sha, events);
    ghost var made, files1 := events, client.world.files;
    var bytesSent;
    r, bytesSent, events, reports := UploadEntries(client, staging, plan, disk, sha, cancelAt, trace0, events, reported0, reports);
    SawAbsentEarlier(made, events, staging.root);
    CreationPrefix(Creates(events), Expected(staging, plan.entries), staging.root);
    SameOutsideTransitive(files0, files1, client.world.files, staging.root);
  }

  lemma RootHasParent(files: Files, staging: TaskStagingPath)
    requires Placed(staging) && PUBLIC_STAGING in files && files[PUBLIC_STAGING] == Dir
    ensures HasParent(files, staging.root)
  {
  }

  lemma NothingCreated(root: string)
    ensures CreationOrder([], root) && Creates([]) == []
  {
  }

  lemma NoHandles(root: string)
    ensures HandlesWithin(map[], root)
  {
  }

  lemma RampStart()
    ensures Ramp([40], 40)
  {
  }

  // ----- the order of a plan suits a strict phone

  lemma RemoteShorter(app: string, relative: string)
    requires relative != ""
    ensures
      var path := RemoteOf(app, relative);
      var last := |relative| - 1;
      && path[|path| - 1] == relative[last]
      && path[..|path| - 1] == RemoteOf(app, relative[..last])
      && relative == relative[..last] + [relative[last]]
  {
  }

  lemma {:induction false} ParentOfRemote(app: string, relative: string)
    ensures '/' in RemoteOf(app, relative)
    ensures Parent(RemoteOf(app, relative)) == if '/' in relative then RemoteOf(app, Parent(relative)) else app
    decreases |relative|
  {
    assert RemoteOf(app, relative)[|app|] == '/';
    if '/' !in relative {
      ParentOf(app, relative);
    } else {
      RemoteShorter(app, relative);
      hide RemoteOf;
      var last := |relative| - 1;
      if relative[last] != '/' {
        ParentOfRemote(app, relative[..last]);
      }
    }
  }

  /**
   When the entries before `i` are in place, a phone that creates nothing without its parent
   directory can create entry `i`, and creating it replaces nothing.
   */
  lemma NextCreateIsPossible<Digest>(files: Files, app: string, entries: seq<UploadEntry<Digest>>, i: nat, sha: Bytes -> Digest)
    requires i < |entries| && ParentsFirst(entries) && DistinctRemotes(entries)
    requires app in files && files[app] == Dir && Mirrors(files, app, entries[..i], sha)
    ensures HasParent(files, RemoteOf(app, entries[i].remote))
    ensures RemoteOf(app, entries[i].remote) !in files
  {
    var relative := entries[i].remote;
    ParentOfRemote(app, relative);
    if '/' in relative {
      var k :| 0 <= k < i && entries[k] == UploadEntry(Parent(relative), Directory);
      assert entries[..i][k] == entries[k];
    }
    var path := RemoteOf(app, relative);
    if path in files {
      assert Within(app, path) && path != app;
      var k :| 0 <= k < i && path == RemoteOf(app, entries[..i][k].remote);
      RemoteInjective(app, relative, entries[k].remote);
    }
  }

  // ----- cleanup

  datatype StagingCleanup = CleanupNotNeeded | CleanupSucceeded | CleanupFailed

  /** Removing the staging root of a run that saw it absent brings the old files back. */
  lemma Restored(before: Files, after: Files, root: string)
    requires Rooted(before) && root !in before && SameOutside(before, after, root)
    ensures RemoveTree(after, root) == before
  {
    forall p ensures p in before <==> p in RemoveTree(after, root) {
      if Within(root, p) {
        NothingBelow(before, root, p);
      }
    }
  }

  /** `clean_exact_task_staging`: a connection of its own, one request, ten seconds. */
  method CleanExactTaskStaging(world: World, staging: TaskStagingPath, rootCreated: bool)
    returns (r: StagingCleanup, ghost events: seq<Event>)
    requires Rooted(world.files)
    modifies world`now, world`files, world`trace, world`connections, world`faults
    ensures old(world.now) <= world.now <= old(world.now) + CLEANUP_TIMEOUT
    ensures world.trace == old(world.trace) + events && world.connections >= old(world.connections)
    ensures events == [] || events == [AfcSent(old(world.connections), RemoveAll(staging.root), Some(staging.root))]
    ensures Rooted(world.files) && SameOutside(old(world.files), world.files, staging.root)
    ensures r == CleanupNotNeeded <==> !rootCreated
    ensures r == CleanupNotNeeded ==> events == [] && world.files == old(world.files)
    ensures r == CleanupSucceeded ==> world.files == RemoveTree(old(world.files), staging.root)
    ensures world.steady && staging.IsExactTaskRoot(staging.root) ==> r != CleanupFailed
  {
    events := [];
    if !rootCreated {
      return CleanupNotNeeded, events;
    }
    if !staging.IsExactTaskRoot(staging.root) {
      return CleanupFailed, events;
    }
    var deadline := world.now + CLEANUP_TIMEOUT;
    var connected := world.Step(deadline);
    var ready := world.Step(deadline);
    if !connected || !ready {
      return CleanupFailed, events;
    }
    var client := new TaskAfcClient(world);
    var op := RemoveAll(staging.root);
    ghost var before := world.files;
    var reply, serial := client.Request(op, deadline, staging.root);
    if world.trace != old(world.trace) {
      events := [AfcSent(client.inner.id, op, Some(staging.root))];
    }
    if reply.Ok? {
      return CleanupSucceeded, events;
    }
    if reply == Err(Answered(ObjectNotFound)) {
      AlreadyGone(before, staging.root);
      return CleanupSucceeded, events;
    }
    return CleanupFailed, events;
  }

  lemma AlreadyGone(files: Files, root: string)
    requires Rooted(files) && root !in files
    ensures RemoveTree(files, root) == files
  {
    forall p | p in files ensures !Within(root, p) {
      if Within(root, p) {
        NothingBelow(files, root, p);
      }
    }
  }
}
