/**
 The phone at the other end: its AFC file service, its installation proxy, the clock
 and the connection the uploader talks over.

 A phone may act or not, answer truthfully, answer with an error or never answer; what it
 does not do is report a success that did not happen, or a missing file that is there.
 */
module Phone {
  import opened Wrappers
  import opened RemotePaths
  import opened SignedTree

  // ----- the phone's files

  datatype Item = Dir | Data(bytes: Bytes)

  type Files = map<string, Item>

  /** Every file or directory lies in a directory. */
  predicate Rooted(files: Files) {
    forall p :: p in files && '/' in p ==> Parent(p) in files && files[Parent(p)] == Dir
  }

  ghost predicate SameOutside(before: Files, after: Files, root: string) {
    forall p :: !Within(root, p) ==> (p in before <==> p in after) && (p in before ==> before[p] == after[p])
  }

  lemma SameOutsideItself(files: Files, root: string)
    ensures SameOutside(files, files, root)
  {
  }

  lemma SameOutsideTransitive(a: Files, b: Files, c: Files, root: string)
    requires SameOutside(a, b, root) && SameOutside(b, c, root)
    ensures SameOutside(a, c, root)
  {
  }

  lemma {:induction false} NothingBelow(files: Files, root: string, path: string)
    requires Rooted(files) && root !in files && Within(root, path)
    ensures path !in files
    decreases |path|
  {
    if path in files && path != root {
      ParentWithin(root, path);
      NothingBelow(files, root, Parent(path));
    }
  }

  function RemoveTree(files: Files, root: string): Files {
    map p | p in files && !Within(root, p) :: files[p]
  }

  datatype AfcOp =
    | GetFileInfo(path: string)
    | MakeDir(path: string)
    | FileOpen(path: string)
    | Write(handle: nat, bytes: Bytes)
    | FileClose(handle: nat)
    | RemoveAll(path: string)

  datatype AfcReply = Info(directory: bool) | Opened(handle: nat) | Done | ObjectNotFound | Refused

  /** The file service as one connection sees it. */
  datatype Disk = Disk(files: Files, handles: map<nat, string>)

  /**
   How the phone feels about one request. What it does about a request it does when the request
   arrives; one that is still unserved when its connection goes away is never served.
   */
  datatype Whim = Whim(answers: bool, refuses: bool, acts: bool, handle: nat, partial: Bytes, kept: set<string>)

  function Target(handles: map<nat, string>, op: AfcOp): Option<string> {
    match op
    case Write(handle, _) => if handle in handles then Some(handles[handle]) else None
    case FileClose(handle) => if handle in handles then Some(handles[handle]) else None
    case _ => Some(op.path)
  }

  predicate HasParent(files: Files, path: string) {
    '/' in path ==> Parent(path) in files && files[Parent(path)] == Dir
  }

  /** The request makes sense on this disk. */
  predicate Possible(disk: Disk, op: AfcOp, whim: Whim) {
    var target := Target(disk.handles, op);
    match op
    case GetFileInfo(path) => path in disk.files
    case MakeDir(path) => HasParent(disk.files, path) && (path in disk.files ==> disk.files[path] == Dir)
    case FileOpen(path) =>
      HasParent(disk.files, path) && (path in disk.files ==> disk.files[path].Data?) && whim.handle !in disk.handles
    case Write(_, _) => target.Some? && target.value in disk.files && disk.files[target.value].Data?
    case FileClose(_) => target.Some?
    case RemoveAll(path) => path in disk.files
  }

  /** The request can be served, if a file to be opened gets a handle that is free. */
  predicate Servable(disk: Disk, op: AfcOp) {
    match op
    case FileOpen(path) => HasParent(disk.files, path) && (path in disk.files ==> disk.files[path].Data?)
    case _ => Possible(disk, op, Whim(true, false, false, 0, [], {}))
  }

  /** What a successful request does. */
  function Effect(disk: Disk, op: AfcOp, whim: Whim): Disk
    requires Possible(disk, op, whim)
  {
    match op
    case GetFileInfo(_) => disk
    case MakeDir(path) => disk.(files := disk.files[path := Dir])
    case FileOpen(path) => Disk(disk.files[path := Data([])], disk.handles[whim.handle := path])
    case Write(handle, bytes) =>
      var path := disk.handles[handle];
      disk.(files := disk.files[path := Data(disk.files[path].bytes + bytes)])
    case FileClose(handle) => disk.(handles := disk.handles - {handle})
    case RemoveAll(path) => disk.(files := RemoveTree(disk.files, path))
  }

  /** What a request may leave behind when no success is reported. */
  function Mess(disk: Disk, op: AfcOp, whim: Whim): Disk {
    if !whim.acts || !Possible(disk, op, whim) then disk
    else if op.Write? then Effect(disk, op.(bytes := whim.partial), whim)
    else if op.RemoveAll? then
      var files := map p | p in disk.files && (!Within(op.path, p) || p in whim.kept) :: disk.files[p];
      if Rooted(files) then disk.(files := files) else disk
    else Effect(disk, op, whim)
  }

  function SuccessReply(disk: Disk, op: AfcOp, whim: Whim): AfcReply {
    match op
    case GetFileInfo(path) => Info(path in disk.files && disk.files[path] == Dir)
    case FileOpen(_) => Opened(whim.handle)
    case _ => Done
  }

  function Serve(disk: Disk, op: AfcOp, whim: Whim): (Disk, Option<AfcReply>) {
    if !whim.answers then (Mess(disk, op, whim), None)
    else if whim.refuses then (Mess(disk, op, whim), Some(Refused))
    else if Possible(disk, op, whim) then (Effect(disk, op, whim), Some(SuccessReply(disk, op, whim)))
    else (disk, Some(if (op.GetFileInfo? || op.RemoveAll?) then ObjectNotFound else Refused))
  }

  /** A request changes nothing outside its target, keeps the tree rooted and leaks no handle. */
  lemma ServeStaysInside(disk: Disk, op: AfcOp, whim: Whim, root: string)
    requires Rooted(disk.files)
    requires forall h :: h in disk.handles ==> Within(root, disk.handles[h])
    requires op.Write? || op.FileClose? || op.GetFileInfo? || Within(root, op.path)
    ensures var disk' := Serve(disk, op, whim).0;
            && Rooted(disk'.files)
            && SameOutside(disk.files, disk'.files, root)
            && forall h :: h in disk'.handles ==> Within(root, disk'.handles[h])
  {
    if op.RemoveAll? {
      RemoveTreeRooted(disk.files, op.path);
      forall p | Within(op.path, p) ensures Within(root, p) {
        WithinTransitive(root, op.path, p);
      }
    }
  }

  lemma RemoveTreeRooted(files: Files, root: string)
    requires Rooted(files)
    ensures Rooted(RemoveTree(files, root))
  {
    forall p | p in RemoveTree(files, root) && '/' in p ensures !Within(root, Parent(p)) {
      if Within(root, Parent(p)) {
        WithinFromParent(root, p);
      }
    }
  }

  // ----- everything the run can be observed to do

  /** What the phone answers to an install command: done, refused as an operation, or some other error. */
  datatype InstallReply = InstallDone | OperationFailed | OtherError

  datatype Event =
    | AfcSent(conn: nat, op: AfcOp, target: Option<string>)
    | AfcSaw(path: string, present: bool)
    | Looked(bundle: string, found: bool, at: nat)
    | Installing(path: string, at: nat, files: Files)
    | InstallEnded(reply: Option<InstallReply>)
    | Verifying(start: nat, until: nat)

  class World {
    var now: nat
    var files: Files
    var trace: seq<Event>
    var reported: seq<nat>
    var connections: nat

    /** How many requests, reads and checks of an upload have failed. */
    var faults: nat

    /**
     In a steady world no step fails that is in time: the phone serves every request that it can
     serve, no connection breaks, and nobody touches the local files. Time may pass all the same.
     */
    const steady: bool

    /** Which phone it is. */
    const identity: nat

    constructor (now: nat, files: Files, steady: bool, identity: nat)
      ensures this.now == now && this.files == files && trace == [] && reported == [] && connections == 0 && faults == 0
      ensures this.steady == steady && this.identity == identity
    {
      this.now, this.files, trace, reported, connections, faults := now, files, [], [], 0, 0;
      this.steady, this.identity := steady, identity;
    }

    /** Some time passes, but not beyond `limit`. */
    method Pass(limit: nat)
      requires now <= limit
      modifies this`now
      ensures old(now) <= now <= limit
    {
      var until: nat := *;
      if now <= until <= limit {
        now := until;
      }
    }

    /** `timeout_at(limit, step)`: done by the limit, failed by the limit, or refused when it has passed. */
    method Step(limit: nat) returns (done: bool)
      modifies this`now
      ensures old(now) <= now <= if old(now) <= limit then limit else old(now)
      ensures done ==> now <= limit
      ensures steady && old(now) <= limit ==> done
    {
      done := false;
      if now <= limit {
        Pass(limit);
        var fails: bool := *;
        done := steady || !fails;
      }
    }

    /** The progress callback. */
    method Report(percent: nat)
      modifies this`reported
      ensures reported == old(reported) + [percent]
    {
      reported := reported + [percent];
    }

    method Fault()
      modifies this`faults
      ensures faults == old(faults) + 1
    {
      faults := faults + 1;
    }

    method Record(event: Event)
      modifies this`trace
      ensures trace == old(trace) + [event]
    {
      trace := trace + [event];
    }
  }
}
