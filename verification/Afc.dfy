/** `TaskAfcClient`: one request at a time over one connection, with a per-request timeout. */
module Afc {
  import opened Wrappers
  import opened RemotePaths
  import opened SignedTree
  import opened Phone

  const AFC_REQUEST_TIMEOUT: nat := 90
  const PACKET_NUMBERS: nat := 0x1_0000_0000_0000_0000

  /** A reply on its way back, or one that will never come, for the request with that serial number. */
  datatype Answer = Answer(serial: nat, reply: Option<AfcReply>)

  /** The wrapped client: the phone's replies come back in request order. */
  datatype Link = Link(id: nat, handles: map<nat, string>, outstanding: seq<Answer>, sent: nat, broken: bool)

  datatype AfcFailure = Answered(reply: AfcReply) | Transport | TimedOut | Cancelled

  ghost predicate HandlesWithin(handles: map<nat, string>, root: string) {
    forall h :: h in handles ==> Within(root, handles[h])
  }

  /** Requests that may only touch what lies within `root`. */
  predicate Inside(op: AfcOp, root: string) {
    op.Write? || op.FileClose? || op.GetFileInfo? || Within(root, op.path)
  }

  /** What a result says about the files. */
  ghost predicate Served(op: AfcOp, before: Disk, after: Disk, r: Result<AfcReply, AfcFailure>) {
    && (op.GetFileInfo? || op.FileClose? ==> after.files == before.files)
    && (op.Write? || op.GetFileInfo? || op.MakeDir? ==> after.handles == before.handles)
    && (r.Ok? ==>
          match op
          case GetFileInfo(path) => path in before.files && r.value == Info(before.files[path] == Dir)
          case MakeDir(path) => after == before.(files := before.files[path := Dir])
          case FileOpen(path) =>
            r.value.Opened? && after == Disk(before.files[path := Data([])], before.handles[r.value.handle := path])
          case Write(handle, bytes) =>
            && handle in before.handles && before.handles[handle] in before.files
            && var path := before.handles[handle];
               before.files[path].Data?
               && after == before.(files := before.files[path := Data(before.files[path].bytes + bytes)])
          case FileClose(_) => true
          case RemoveAll(path) => after.files == RemoveTree(before.files, path))
    && (r == Err(Answered(ObjectNotFound)) ==> (op.GetFileInfo? || op.RemoveAll?) && op.path !in before.files && after == before)
  }

  /** What a phone that serves whatever it can serve replies. */
  ghost predicate Obliging(op: AfcOp, before: Disk, r: Result<AfcReply, AfcFailure>) {
    && (Servable(before, op) ==> r.Ok?)
    && (!Servable(before, op) && (op.GetFileInfo? || op.RemoveAll?) ==> r == Err(Answered(ObjectNotFound)))
    && (r.Err? ==> r.error.Answered?)
  }

  function Sightings(op: AfcOp, r: Result<AfcReply, AfcFailure>): seq<Event> {
    if !op.GetFileInfo? then []
    else if r.Ok? then [AfcSaw(op.path, true)]
    else if r == Err(Answered(ObjectNotFound)) then [AfcSaw(op.path, false)]
    else []
  }

  class TaskAfcClient {
    const world: World
    var inner: Link
    var packetNumber: nat
    var timedOut: bool

    /** `task_afc_client` opens a connection of its own. */
    constructor (world: World)
      modifies world`connections
      ensures this.world == world && Aligned() && !timedOut && packetNumber == 0 && (world.steady ==> Fine())
      ensures inner == Link(old(world.connections), map[], [], 0, false)
      ensures world.connections == old(world.connections) + 1
    {
      this.world := world;
      inner := Link(world.connections, map[], [], 0, false);
      packetNumber, timedOut := 0, false;
      new;
      world.connections := world.connections + 1;
    }

    /** As long as the client may still read, no reply to an earlier request is on its way. */
    ghost predicate Aligned()
      reads this
    {
      !timedOut && !inner.broken ==> inner.outstanding == []
    }

    /** In a steady world a client that was never cancelled stays usable. */
    ghost predicate Fine()
      reads this
    {
      world.steady && Aligned() && !timedOut && !inner.broken
    }

    ghost function Disk(): Disk
      reads this, world
    {
      Phone.Disk(world.files, inner.handles)
    }

    /**
     Sends one request and reads one reply.  `cancelAt` is when the caller drops the future.
     `answered` is the serial number of the request whose reply was accepted.
     */
    method Request(op: AfcOp, cancelAt: nat, ghost root: string)
      returns (r: Result<AfcReply, AfcFailure>, answered: nat)
      requires Aligned() && world.now <= cancelAt
      requires Rooted(world.files) && HandlesWithin(inner.handles, root) && Inside(op, root)
      modifies this, world`now, world`files, world`trace, world`faults
      ensures world.faults == old(world.faults) + if r.Ok? || r == Err(Answered(ObjectNotFound)) then 0 else 1
      ensures r != Err(Cancelled) ==> Aligned()
      ensures old(Fine()) ==> Fine() && Obliging(op, old(Disk()), r)
      ensures r.Ok? || (r.Err? && r.error.Answered?) ==> answered == old(inner.sent) && inner.sent == answered + 1
      ensures old(timedOut) ==> r == Err(TimedOut) && unchanged(this) && unchanged(world`now, world`files, world`trace)
      ensures timedOut <==> old(timedOut) || r == Err(TimedOut)
      ensures inner.id == old(inner.id) && old(world.now) <= world.now <= cancelAt
      ensures r == Err(TimedOut) && !old(timedOut) ==> world.now == old(world.now) + AFC_REQUEST_TIMEOUT
      ensures Rooted(world.files) && HandlesWithin(inner.handles, root)
      ensures SameOutside(old(world.files), world.files, root)
      ensures Served(op, old(Disk()), Disk(), r)
      ensures || (world.trace == old(world.trace) && r.Err? && r.error in {Transport, TimedOut} && Disk() == old(Disk()))
              || world.trace == old(world.trace) + [AfcSent(inner.id, op, Target(old(inner.handles), op))] + Sightings(op, r)
    {
      hide Rooted, HandlesWithin, Inside, SameOutside, Target, Servable, Obliging;
      SameOutsideItself(world.files, root);
      answered := 0;
      if timedOut {
        world.Fault();
        return Err(TimedOut), answered;
      }
      packetNumber := (packetNumber + 1) % PACKET_NUMBERS;
      var requestDeadline := world.now + AFC_REQUEST_TIMEOUT;
      var stop := if requestDeadline <= cancelAt then requestDeadline else cancelAt;
      var sent := Send(op, root);
      world.Pass(stop);
      if !sent {
        world.Fault();
        return Err(Transport), answered;
      }
      r, answered := Receive(op, requestDeadline, cancelAt);
      if r.Err? && r.error != Answered(ObjectNotFound) {
        world.Fault();
      }
    }

    /** The read half: the reply to the one request under way, or the reason why there is none. */
    method Receive(op: AfcOp, requestDeadline: nat, cancelAt: nat) returns (r: Result<AfcReply, AfcFailure>, answered: nat)
      requires !timedOut && !inner.broken && |inner.outstanding| == 1
      requires world.now <= requestDeadline && world.now <= cancelAt
      modifies this`inner, this`timedOut, world`now, world`trace
      ensures inner.id == old(inner.id) && inner.handles == old(inner.handles) && inner.sent == old(inner.sent)
      ensures old(world.now) <= world.now <= cancelAt
      ensures r.Ok? || r.error.Answered? ==>
                && old(inner.outstanding)[0].reply.Some? && r == Interpret(old(inner.outstanding)[0].reply.value)
                && answered == old(inner.outstanding)[0].serial && inner.outstanding == []
      ensures r.Err? && !r.error.Answered? ==> r.error in {Transport, TimedOut, Cancelled}
      ensures world.trace == old(world.trace) + (if r.Ok? || r.error.Answered? then Sightings(op, r) else [])
      ensures inner.broken <==> r == Err(Transport)
      ensures world.steady && old(inner.outstanding)[0].reply.Some? ==> r == Interpret(old(inner.outstanding)[0].reply.value)
      ensures timedOut <==> r == Err(TimedOut)
      ensures timedOut ==> world.now == requestDeadline
    {
      answered := 0;
      var stop := if requestDeadline <= cancelAt then requestDeadline else cancelAt;
      var readFails, late: bool := *, *;
      if readFails && !world.steady {
        inner := inner.(broken := true);
        return Err(Transport), answered;
      }
      var next := inner.outstanding[0];
      if next.reply.None? || (late && !world.steady) {
        world.now := stop;
        if requestDeadline <= cancelAt {
          timedOut := true;
          return Err(TimedOut), answered;
        }
        return Err(Cancelled), answered;
      }
      inner := inner.(outstanding := inner.outstanding[1..]);
      answered := next.serial;
      r := Interpret(next.reply.value);
      if Sightings(op, r) != [] {
        world.Record(AfcSaw(op.path, r.Ok?));
      }
    }

    /** `inner.send`: the phone receives the request and queues its reply behind the others. */
    method Send(op: AfcOp, ghost root: string) returns (sent: bool)
      requires Rooted(world.files) && HandlesWithin(inner.handles, root) && Inside(op, root)
      modifies this`inner, world`files, world`trace
      ensures inner.id == old(inner.id)
      ensures Rooted(world.files) && HandlesWithin(inner.handles, root)
      ensures SameOutside(old(world.files), world.files, root)
      ensures old(inner.broken) ==> !sent
      ensures !sent ==> inner == old(inner).(broken := true) && world.trace == old(world.trace) && world.files == old(world.files)
      ensures sent ==>
                && !inner.broken && inner.sent == old(inner.sent) + 1
                && world.trace == old(world.trace) + [AfcSent(inner.id, op, Target(old(inner.handles), op))]
                && exists reply ::
                     && inner.outstanding == old(inner.outstanding) + [Answer(old(inner.sent), reply)]
                     && Replied(op, old(Disk()), Disk(), reply)
                     && (world.steady ==> reply.Some? && Obliging(op, old(Disk()), Interpret(reply.value)))
      ensures world.steady && !old(inner.broken) ==> sent
    {
      var sendFails: bool := *;
      if inner.broken || (sendFails && !world.steady) {
        inner := inner.(broken := true);
        return false;
      }
      var whim: Whim := *;
      if world.steady {
        var handle := FreshHandle(inner.handles);
        whim := whim.(answers := true, refuses := false, handle := handle);
        SteadyReply(Phone.Disk(world.files, inner.handles), op, whim);
      }
      var disk := Phone.Disk(world.files, inner.handles);
      ServeStaysInside(disk, op, whim, root);
      ServeReplies(disk, op, whim);
      var (disk', reply) := Serve(disk, op, whim);
      world.Record(AfcSent(inner.id, op, Target(inner.handles, op)));
      world.files := disk'.files;
      inner := inner.(handles := disk'.handles, outstanding := inner.outstanding + [Answer(inner.sent, reply)], sent := inner.sent + 1);
      assert inner.outstanding == old(inner.outstanding) + [Answer(old(inner.sent), reply)];
      return true;
    }
  }

  method FreshHandle(handles: map<nat, string>) returns (handle: nat)
    ensures handle !in handles
  {
    handle := 0;
    ghost var below: set<nat> := {};
    while handle in handles
      invariant below <= handles.Keys && |below| == handle
      invariant forall h :: h in below ==> h < handle
      decreases handles.Keys - below
    {
      below := below + {handle};
      handle := handle + 1;
    }
  }

  lemma SteadyReply(disk: Disk, op: AfcOp, whim: Whim)
    requires whim.answers && !whim.refuses && whim.handle !in disk.handles
    ensures Serve(disk, op, whim).1.Some? && Obliging(op, disk, Interpret(Serve(disk, op, whim).1.value))
  {
  }

  function Interpret(reply: AfcReply): Result<AfcReply, AfcFailure> {
    if reply in {ObjectNotFound, Refused} then Err(Answered(reply)) else Ok(reply)
  }

  /** What the files look like once the phone has queued this reply, or no reply. */
  ghost predicate Replied(op: AfcOp, before: Disk, after: Disk, reply: Option<AfcReply>) {
    && (op.GetFileInfo? || op.FileClose? ==> after.files == before.files)
    && (op.Write? || op.GetFileInfo? || op.MakeDir? ==> after.handles == before.handles)
    && (reply.Some? ==> Served(op, before, after, Interpret(reply.value)))
  }

  lemma ServeReplies(disk: Disk, op: AfcOp, whim: Whim)
    ensures Replied(op, disk, Serve(disk, op, whim).0, Serve(disk, op, whim).1)
  {
  }
}
