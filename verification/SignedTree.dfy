/**
 The signed app tree on the server, the upload planner that walks it, and the private
 tree validator that walks the same trees with its own counters.
 */
module SignedTree {
  import opened Wrappers
  import opened RemotePaths

  type Bytes = seq<bv8>

  datatype Name = Text(text: string) | NonUnicode(raw: Bytes)

  datatype Node =
    | Folder(kids: Kids)
    | File(data: Bytes)
    | Symlink(target: Node)
    | Special

  /** A directory's entries in the order `read_dir` yields them. */
  datatype Kids = NoMore | Kid(name: Name, node: Node, rest: Kids)

  /** A descendant and its path from the root of the walk. */
  datatype Found = Found(path: seq<Name>, node: Node)

  /** Every descendant, each directory before its contents: the meaning of "the whole tree". */
  function Listing(at: seq<Name>, kids: Kids): (found: seq<Found>)
    decreases kids
  {
    match kids
    case NoMore => []
    case Kid(name, node, rest) =>
      [Found(at + [name], node)] + Below(at + [name], node) + Listing(at, rest)
  }

  function Below(at: seq<Name>, node: Node): (found: seq<Found>)
    decreases node
  {
    if node.Folder? then Listing(at, node.kids) else []
  }

  function Descendants(root: Node): (found: seq<Found>) {
    Below([], root)
  }

  function Size(node: Node): nat {
    if node.File? then |node.data| else 0
  }

  function ByteCount(found: seq<Found>): (total: nat) {
    if found == [] then 0 else Size(found[0].node) + ByteCount(found[1..])
  }

  lemma {:induction false} ByteCountAppend(a: seq<Found>, b: seq<Found>)
    ensures ByteCount(a + b) == ByteCount(a) + ByteCount(b)
    decreases |a|
  {
    if a == [] {
      assert a + b == b;
    } else {
      ByteCountAppend(a[1..], b);
      assert (a + b)[1..] == a[1..] + b;
    }
  }

  // ----- limits and names

  const ENTRY_LIMIT: nat := 20_000
  const BYTE_LIMIT: nat := 2_147_483_648

  datatype PlanFailure =
    | SourceNotDirectory
    | SourceSymlink
    | UnsupportedFileType
    | NonUnicodePath
    | UnsafePath
    | TooManyEntries
    | TooManyBytes
    | LocalIo
    | Timeout

  predicate SafeName(name: Name) {
    && name.Text?
    && name.text !in {"", ".", ".."}
    && '/' !in name.text && '\\' !in name.text && '\0' !in name.text
  }

  predicate SafePath(path: seq<Name>) {
    path != [] && forall i :: 0 <= i < |path| ==> SafeName(path[i])
  }

  function TextOf(name: Name): string {
    if name.Text? then name.text else ""
  }

  function Texts(path: seq<Name>): (texts: seq<string>)
    ensures |texts| == |path|
    ensures forall i :: 0 <= i < |path| ==> texts[i] == TextOf(path[i])
  {
    seq(|path|, i requires 0 <= i < |path| => TextOf(path[i]))
  }

  /** `safe_remote_relative_path`: checks the components in order, then joins them. */
  method SafeRemotePath(path: seq<Name>) returns (r: Result<string, PlanFailure>)
    ensures r.Ok? <==> SafePath(path)
    ensures r.Ok? ==> r.value == Join(Texts(path))
    ensures r.Ok? <==> path != [] && forall i :: 0 <= i < |path| ==>
              && path[i].Text? && path[i].text != "" && path[i].text != "." && path[i].text != ".."
              && forall c :: c in path[i].text ==> c != '/' && c != '\\' && c != '\0'
    ensures r.Err? ==> r.error in {UnsafePath, NonUnicodePath}
    ensures r == Err(NonUnicodePath) <==>
              exists i :: 0 <= i < |path| && path[i].NonUnicode? && forall j :: 0 <= j < i ==> SafeName(path[j])
  {
    var parts := [];
    for i := 0 to |path|
      invariant forall j :: 0 <= j < i ==> SafeName(path[j])
      invariant parts == Texts(path)[..i]
    {
      var component := path[i];
      if component.NonUnicode? {
        return Err(NonUnicodePath);
      }
      if !SafeName(component) {
        return Err(UnsafePath);
      }
      parts := parts + [component.text];
    }
    if parts == [] {
      return Err(UnsafePath);
    }
    assert parts == Texts(path);
    return Ok(Join(parts));
  }

  /** What both walkers demand of a tree: only directories and files, within both limits. */
  predicate Bounded(root: Node) {
    && root.Folder?
    && Regular(Descendants(root))
    && |Descendants(root)| <= ENTRY_LIMIT
    && ByteCount(Descendants(root)) <= BYTE_LIMIT
  }

  predicate AllSafe(found: seq<Found>) {
    forall f :: f in found ==> SafePath(f.path)
  }

  predicate SafeTree(root: Node) {
    AllSafe(Descendants(root))
  }

  // ----- the walk both loops share

  /** A directory waiting in the queue. */
  datatype Pending = Pending(at: seq<Name>, kids: Kids)

  ghost function Outstanding(queue: seq<Pending>): (found: seq<Found>) {
    if queue == [] then [] else Listing(queue[0].at, queue[0].kids) + Outstanding(queue[1..])
  }

  lemma OutstandingOne(one: Pending)
    ensures Outstanding([one]) == Listing(one.at, one.kids)
  {
    hide Listing;
    assert [one][1..] == [];
  }

  lemma {:induction false} OutstandingAppend(queue: seq<Pending>, last: Pending)
    ensures Outstanding(queue + [last]) == Outstanding(queue) + Listing(last.at, last.kids)
    decreases |queue|
  {
    hide Listing;
    if queue == [] {
      assert queue + [last] == [last];
      OutstandingOne(last);
    } else {
      OutstandingAppend(queue[1..], last);
      assert (queue + [last])[1..] == queue[1..] + [last];
    }
  }

  ghost function Left(at: seq<Name>, rest: Kids, queue: seq<Pending>): seq<Found> {
    Listing(at, rest) + Outstanding(queue)
  }

  /** What was found and what is left make up the tree. */
  ghost predicate Accounted(all: seq<Found>, found: seq<Found>, left: seq<Found>) {
    && multiset(all) == multiset(found + left)
    && ByteCount(all) == ByteCount(found + left)
    && |all| == |found + left|
  }

  function Queued(queue: seq<Pending>, at: seq<Name>, node: Node): seq<Pending> {
    if node.Folder? then queue + [Pending(at, node.kids)] else queue
  }

  lemma LeftAfterChild(at: seq<Name>, rest: Kids, queue: seq<Pending>)
    requires rest.Kid?
    ensures var child := Found(at + [rest.name], rest.node);
            var below, other := Below(child.path, child.node), Listing(at, rest.rest) + Outstanding(queue);
            && Left(at, rest, queue) == [child] + (below + other)
            && Left(at, rest.rest, Queued(queue, child.path, child.node)) == other + below
  {
    hide Outstanding;
    var child := Found(at + [rest.name], rest.node);
    if child.node.Folder? {
      OutstandingAppend(queue, Pending(child.path, child.node.kids));
    }
    assert Outstanding(Queued(queue, child.path, child.node)) == Outstanding(queue) + Below(child.path, child.node);
  }

  lemma MoveChildBytes(found: seq<Found>, child: Found, below: seq<Found>, other: seq<Found>)
    ensures ByteCount(found + ([child] + (below + other))) == ByteCount((found + [child]) + (other + below))
    ensures ByteCount(found + [child]) == ByteCount(found) + Size(child.node)
    ensures ByteCount(found + [child]) <= ByteCount(found + ([child] + (below + other)))
  {
    assert found + ([child] + (below + other)) == (found + [child]) + (below + other);
    ByteCountAppend(found + [child], below + other);
    ByteCountAppend(found + [child], other + below);
    ByteCountAppend(below, other);
    ByteCountAppend(other, below);
    ByteCountAppend(found, [child]);
  }

  lemma MoveChild(all: seq<Found>, found: seq<Found>, child: Found, below: seq<Found>, other: seq<Found>)
    requires Accounted(all, found, [child] + (below + other))
    ensures Accounted(all, found + [child], other + below)
    ensures ByteCount(found + [child]) == ByteCount(found) + Size(child.node) <= ByteCount(all)
    ensures |found| < |all| && child in all
  {
    var before := found + ([child] + (below + other));
    MoveChildBytes(found, child, below, other);
    assert multiset(before) == multiset((found + [child]) + (other + below));
    assert before[|found|] == child;
    assert child in multiset(all);
  }

  lemma AccountForChild(all: seq<Found>, found: seq<Found>, at: seq<Name>, rest: Kids, queue: seq<Pending>)
    requires rest.Kid? && Accounted(all, found, Left(at, rest, queue))
    ensures var child := Found(at + [rest.name], rest.node);
            && Accounted(all, found + [child], Left(at, rest.rest, Queued(queue, child.path, child.node)))
            && ByteCount(found + [child]) == ByteCount(found) + Size(child.node) <= ByteCount(all)
            && |found| < |all| && child in all
  {
    var child := Found(at + [rest.name], rest.node);
    LeftAfterChild(at, rest, queue);
    MoveChild(all, found, child, Below(child.path, child.node), Listing(at, rest.rest) + Outstanding(queue));
  }

  lemma LeftAtDirectory(at: seq<Name>, queue: seq<Pending>)
    requires queue != []
    ensures Left(at, NoMore, queue) == Left(queue[0].at, queue[0].kids, queue[1..])
  {
  }

  lemma LeftAtStart(root: Node)
    requires root.Folder?
    ensures Left([], NoMore, [Pending([], root.kids)]) == Descendants(root)
    ensures Accounted(Descendants(root), [], Descendants(root))
  {
    assert Outstanding([Pending([], root.kids)][1..]) == [];
    assert [] + Descendants(root) == Descendants(root);
  }

  function KidCount(kids: Kids): nat {
    match kids
    case NoMore => 0
    case Kid(_, node, rest) => 1 + (if node.Folder? then 1 + KidCount(node.kids) else 0) + KidCount(rest)
  }

  /** Termination measure of the queue loops: directories and entries not yet handled. */
  function Work(queue: seq<Pending>): nat {
    if queue == [] then 0 else 1 + KidCount(queue[0].kids) + Work(queue[1..])
  }

  lemma WorkFirst(queue: seq<Pending>)
    requires queue != []
    ensures Work(queue) == 1 + KidCount(queue[0].kids) + Work(queue[1..])
  {
  }

  lemma {:induction false} WorkAppend(queue: seq<Pending>, last: Pending)
    ensures Work(queue + [last]) == Work(queue) + 1 + KidCount(last.kids)
    decreases |queue|
  {
    if queue == [] {
      assert queue + [last] == [last];
      assert Work([last][1..]) == 0;
    } else {
      WorkAppend(queue[1..], last);
      assert (queue + [last])[1..] == queue[1..] + [last];
    }
  }

  // ----- the validator of signing.rs

  /** What `read_dir` opens: it follows a link, and the links it leads to. */
  function Followed(node: Node): (target: Node)
    ensures !target.Symlink?
    ensures !node.Symlink? ==> target == node
  {
    if node.Symlink? then Followed(node.target) else node
  }

  /** What the validator has counted so far. */
  ghost predicate Counted(found: seq<Found>, entries: nat, bytes: nat) {
    entries == |found| <= ENTRY_LIMIT && bytes == ByteCount(found) <= BYTE_LIMIT && Regular(found)
  }

  /** Only directories and files, within both limits. */
  predicate WithinLimits(all: seq<Found>) {
    Regular(all) && |all| <= ENTRY_LIMIT && ByteCount(all) <= BYTE_LIMIT
  }

  predicate Countable(node: Node, entries: nat, bytes: nat) {
    (node.Folder? || node.File?) && entries < ENTRY_LIMIT && bytes + Size(node) <= BYTE_LIMIT
  }

  lemma CountChild(all: seq<Found>, found: seq<Found>, at: seq<Name>, rest: Kids, pending: seq<Pending>, entries: nat, bytes: nat)
    requires rest.Kid? && Accounted(all, found, Left(at, rest, pending)) && Counted(found, entries, bytes)
    ensures !Countable(rest.node, entries, bytes) ==> !WithinLimits(all)
    ensures Countable(rest.node, entries, bytes) ==>
              var child := Found(at + [rest.name], rest.node);
              var queue := Queued(pending, child.path, rest.node);
              && Accounted(all, found + [child], Left(at, rest.rest, queue))
              && Counted(found + [child], entries + 1, bytes + Size(rest.node))
              && Work(queue) + KidCount(rest.rest) < Work(pending) + KidCount(rest)
  {
    hide Accounted, Left, ByteCount;
    AccountForChild(all, found, at, rest, pending);
    if rest.node.Folder? {
      WorkAppend(pending, Pending(at + [rest.name], rest.node.kids));
    }
  }

  /** The validator's inner loop: one directory's entries, its sub-directories queued. */
  method ValidateDirectory(directory: Pending, pending0: seq<Pending>, entries0: nat, bytes0: nat, ghost all: seq<Found>, ghost before: seq<Found>)
    returns (ok: bool, pending: seq<Pending>, entries: nat, bytes: nat, ghost found: seq<Found>)
    requires Accounted(all, before, Left(directory.at, directory.kids, pending0)) && Counted(before, entries0, bytes0)
    ensures ok ==> && Accounted(all, found, Left(directory.at, NoMore, pending)) && Counted(found, entries, bytes)
                   && Work(pending) <= Work(pending0) + KidCount(directory.kids)
    ensures !ok ==> !WithinLimits(all)
  {
    hide Accounted, Counted, WithinLimits, Left, Work, KidCount;
    pending, entries, bytes, found := pending0, entries0, bytes0, before;
    var at, rest := directory.at, directory.kids;
    while rest.Kid?
      invariant Accounted(all, found, Left(at, rest, pending)) && Counted(found, entries, bytes)
      invariant Work(pending) + KidCount(rest) <= Work(pending0) + KidCount(directory.kids)
      decreases rest
    {
      CountChild(all, found, at, rest, pending, entries, bytes);
      ghost var child := Found(at + [rest.name], rest.node);
      entries := entries + 1;
      if entries > ENTRY_LIMIT || rest.node.Symlink? {
        return false, pending, entries, bytes, found;
      }
      if rest.node.Folder? {
        pending := pending + [Pending(at + [rest.name], rest.node.kids)];
      } else if rest.node.File? {
        bytes := bytes + |rest.node.data|;
        if bytes > BYTE_LIMIT {
          return false, pending, entries, bytes, found;
        }
      } else {
        return false, pending, entries, bytes, found;
      }
      CountedBytes(found, entries - 1, bytes - Size(rest.node));
      found := found + [child];
      rest := rest.rest;
    }
    ok := true;
  }

  lemma CountedBytes(found: seq<Found>, entries: nat, bytes: nat)
    requires Counted(found, entries, bytes)
    ensures bytes <= BYTE_LIMIT
  {
  }

  lemma NothingCounted()
    ensures Counted([], 0, 0)
  {
  }

  /** `validate_private_signed_tree`. */
  method ValidatePrivateSignedTree(root: Node) returns (ok: bool)
    ensures ok <==> Bounded(Followed(root))
  {
    var start := Followed(root);
    if !start.Folder? {
      return false;
    }
    hide Accounted, Counted, Left, Work, KidCount, Listing, ByteCount;
    ghost var all, found, at := Descendants(start), [], [];
    var pending, entries, bytes := [Pending([], start.kids)], 0, 0;
    LeftAtStart(start);
    NothingCounted();
    while pending != []
      invariant Accounted(all, found, Left(at, NoMore, pending)) && Counted(found, entries, bytes)
      decreases Work(pending)
    {
      LeftAtDirectory(at, pending);
      WorkFirst(pending);
      var directory := pending[0];
      at := directory.at;
      ok, pending, entries, bytes, found := ValidateDirectory(directory, pending[1..], entries, bytes, all, found);
      if !ok {
        return false;
      }
    }
    AllCounted(all, found, at, entries, bytes);
    return true;
  }

  lemma AllCounted(all: seq<Found>, found: seq<Found>, at: seq<Name>, entries: nat, bytes: nat)
    requires Accounted(all, found, Left(at, NoMore, [])) && Counted(found, entries, bytes)
    ensures WithinLimits(all)
  {
    FoundIsAll(all, found, at);
  }

  /** Only directories and files. */
  predicate Regular(found: seq<Found>) {
    forall f :: f in found ==> f.node.Folder? || f.node.File?
  }

  lemma FoundIsAll(all: seq<Found>, found: seq<Found>, at: seq<Name>)
    requires Accounted(all, found, Left(at, NoMore, []))
    ensures multiset(all) == multiset(found) && ByteCount(all) == ByteCount(found) && |all| == |found|
    ensures Regular(all) <==> Regular(found)
    ensures AllSafe(all) <==> AllSafe(found)
  {
    assert found + Left(at, NoMore, []) == found;
    assert forall f :: f in all <==> f in multiset(all);
    assert forall f :: f in found <==> f in multiset(found);
  }

  // ----- the upload planner of wireless_pairing.rs

  datatype EntryKind<Digest> = Directory | RegularFile(size: nat, digest: Digest)

  datatype UploadEntry<Digest> = UploadEntry(remote: string, kind: EntryKind<Digest>)

  datatype UploadPlan<Digest> = UploadPlan(entries: seq<UploadEntry<Digest>>, byteCount: nat)

  /** The upload entry of a descendant; only safe directories and files are planned. */
  function EntryOf<Digest>(f: Found, sha: Bytes -> Digest): UploadEntry<Digest> {
    UploadEntry(Join(Texts(f.path)),
                if f.node.File? then RegularFile(|f.node.data|, sha(f.node.data)) else Directory)
  }

  function EntriesOf<Digest>(found: seq<Found>, sha: Bytes -> Digest): (entries: seq<UploadEntry<Digest>>)
    ensures |entries| == |found|
    ensures forall i :: 0 <= i < |found| ==> entries[i] == EntryOf(found[i], sha)
  {
    seq(|found|, i requires 0 <= i < |found| => EntryOf(found[i], sha))
  }

  predicate Sorted<Digest>(entries: seq<UploadEntry<Digest>>) {
    forall i, j :: 0 <= i < j < |entries| ==> Before(entries[i].remote, entries[j].remote)
  }

  function Insert<Digest>(e: UploadEntry<Digest>, sorted: seq<UploadEntry<Digest>>): (r: seq<UploadEntry<Digest>>)
    requires Sorted(sorted)
    ensures multiset(r) == multiset(sorted) + multiset{e}
    ensures Sorted(r)
    decreases |sorted|
  {
    if sorted == [] then [e]
    else if Before(e.remote, sorted[0].remote) then
      InsertFront(e, sorted);
      [e] + sorted
    else
      var rest := Insert(e, sorted[1..]);
      InsertRest(e, sorted, rest);
      [sorted[0]] + rest
  }

  lemma InsertFront<Digest>(e: UploadEntry<Digest>, sorted: seq<UploadEntry<Digest>>)
    requires Sorted(sorted) && sorted != [] && Before(e.remote, sorted[0].remote)
    ensures Sorted([e] + sorted)
  {
    forall j | 0 <= j < |sorted| ensures Before(e.remote, sorted[j].remote) {
      if j > 0 { BeforeTransitive(e.remote, sorted[0].remote, sorted[j].remote); }
    }
  }

  lemma InsertRest<Digest>(e: UploadEntry<Digest>, sorted: seq<UploadEntry<Digest>>, rest: seq<UploadEntry<Digest>>)
    requires Sorted(sorted) && sorted != [] && !Before(e.remote, sorted[0].remote)
    requires Sorted(rest) && multiset(rest) == multiset(sorted[1..]) + multiset{e}
    ensures Sorted([sorted[0]] + rest)
    ensures multiset([sorted[0]] + rest) == multiset(sorted) + multiset{e}
  {
    BeforeTotal(e.remote, sorted[0].remote);
    forall j | 0 <= j < |rest| ensures Before(sorted[0].remote, rest[j].remote) {
      assert rest[j] in multiset(rest);
      if rest[j] != e {
        assert rest[j] in sorted[1..];
      }
    }
    assert sorted == [sorted[0]] + sorted[1..];
  }

  /** `entries.sort_by(remote_relative_path)`. */
  function SortEntries<Digest>(entries: seq<UploadEntry<Digest>>): (r: seq<UploadEntry<Digest>>)
    ensures Sorted(r) && multiset(r) == multiset(entries)
  {
    if entries == [] then []
    else
      assert entries == [entries[0]] + entries[1..];
      Insert(entries[0], SortEntries(entries[1..]))
  }

  /** Every descendant once, with its size and digest, in path order, and the exact byte sum. */
  ghost predicate IsPlan<Digest>(root: Node, sha: Bytes -> Digest, plan: UploadPlan<Digest>) {
    && multiset(plan.entries) == multiset(EntriesOf(Descendants(root), sha))
    && Sorted(plan.entries)
    && plan.byteCount == ByteCount(Descendants(root))
  }

  /** A reading error, a passed deadline or a changed tree; nothing of the kind when undisturbed. */
  method Fault(disturbed: bool) returns (fault: Option<PlanFailure>)
    ensures !disturbed ==> fault == None
  {
    fault := None;
    if disturbed {
      fault := *;
    }
  }

  predicate NotUnicode(path: seq<Name>) {
    exists i :: 0 <= i < |path| && path[i].NonUnicode?
  }

  /** What each failure says about the entry it was met at. */
  predicate BlamesChild(child: Found, entryCount: nat, byteCount: nat, failure: PlanFailure) {
    match failure
    case SourceSymlink => child.node.Symlink?
    case UnsupportedFileType => child.node.Special?
    case NonUnicodePath => NotUnicode(child.path)
    case UnsafePath => !SafePath(child.path)
    case TooManyEntries => entryCount + 1 > ENTRY_LIMIT
    case TooManyBytes => byteCount + Size(child.node) > BYTE_LIMIT
    case _ => false
  }

  /** What each failure says about the whole tree. */
  ghost predicate Blames(all: seq<Found>, failure: PlanFailure) {
    match failure
    case SourceSymlink => exists f :: f in all && f.node.Symlink?
    case UnsupportedFileType => exists f :: f in all && f.node.Special?
    case NonUnicodePath => exists f :: f in all && NotUnicode(f.path)
    case UnsafePath => exists f :: f in all && !SafePath(f.path)
    case TooManyEntries => |all| > ENTRY_LIMIT
    case TooManyBytes => ByteCount(all) > BYTE_LIMIT
    case _ => false
  }

  /** The planner's loop body for one directory entry: its upload entry and the new byte count. */
  method PlanChild<Digest>(child: Found, entryCount: nat, byteCount: nat, sha: Bytes -> Digest)
    returns (r: Result<(UploadEntry<Digest>, nat), PlanFailure>)
    requires entryCount <= ENTRY_LIMIT
    ensures r.Ok? <==> Admits(child, entryCount, byteCount)
    ensures r.Ok? ==> r.value == (EntryOf(child, sha), byteCount + Size(child.node))
    ensures r.Err? ==> BlamesChild(child, entryCount, byteCount, r.error)
  {
    if child.node.Symlink? {
      return Err(SourceSymlink);
    }
    var remote := SafeRemotePath(child.path);
    if remote.Err? {
      return Err(remote.error);
    }
    var bytes := byteCount;
    var kind;
    if child.node.Folder? {
      kind := Directory;
    } else if child.node.File? {
      bytes := bytes + |child.node.data|;
      if entryCount > ENTRY_LIMIT { return Err(TooManyEntries); }
      if bytes > BYTE_LIMIT { return Err(TooManyBytes); }
      kind := RegularFile(|child.node.data|, sha(child.node.data));
    } else {
      return Err(UnsupportedFileType);
    }
    if entryCount + 1 > ENTRY_LIMIT { return Err(TooManyEntries); }
    if bytes > BYTE_LIMIT { return Err(TooManyBytes); }
    return Ok((UploadEntry(remote.value, kind), bytes));
  }

  /** The state of the planner's loops; the ghost part says what the entries stand for. */
  datatype Walk<Digest> = Walk(entries: seq<UploadEntry<Digest>>, byteCount: nat, pending: seq<Pending>)

  ghost predicate WalkInv<Digest>(walk: Walk<Digest>, found: seq<Found>, sha: Bytes -> Digest) {
    && |found| <= ENTRY_LIMIT && walk.byteCount == ByteCount(found) <= BYTE_LIMIT
    && Planned(found, walk.entries, sha)
  }

  ghost predicate Plannable(all: seq<Found>) {
    Regular(all) && AllSafe(all) && |all| <= ENTRY_LIMIT && ByteCount(all) <= BYTE_LIMIT
  }

  predicate Admits(child: Found, entryCount: nat, byteCount: nat) {
    && (child.node.Folder? || child.node.File?) && SafePath(child.path)
    && entryCount < ENTRY_LIMIT && byteCount + Size(child.node) <= BYTE_LIMIT
  }

  lemma WalkLimit<Digest>(walk: Walk<Digest>, found: seq<Found>, sha: Bytes -> Digest)
    requires WalkInv(walk, found, sha)
    ensures |walk.entries| == |found| <= ENTRY_LIMIT && walk.byteCount <= BYTE_LIMIT
  {
  }

  lemma RefusedChild<Digest>(all: seq<Found>, found: seq<Found>, at: seq<Name>, rest: Kids, walk: Walk<Digest>, sha: Bytes -> Digest,
                             failure: PlanFailure)
    requires rest.Kid? && Accounted(all, found, Left(at, rest, walk.pending)) && WalkInv(walk, found, sha)
    requires !Admits(Found(at + [rest.name], rest.node), |walk.entries|, walk.byteCount)
    requires BlamesChild(Found(at + [rest.name], rest.node), |walk.entries|, walk.byteCount, failure)
    ensures !Plannable(all) && Blames(all, failure)
  {
    AccountForChild(all, found, at, rest, walk.pending);
    hide Accounted, Left, SafePath, NotUnicode, Planned;
    assert Found(at + [rest.name], rest.node) in all;
  }

  lemma PlannedChild<Digest>(all: seq<Found>, found: seq<Found>, at: seq<Name>, rest: Kids, walk: Walk<Digest>, sha: Bytes -> Digest)
    requires rest.Kid? && Accounted(all, found, Left(at, rest, walk.pending)) && WalkInv(walk, found, sha)
    requires Admits(Found(at + [rest.name], rest.node), |walk.entries|, walk.byteCount)
    ensures var child := Found(at + [rest.name], rest.node);
            var queue := Queued(walk.pending, child.path, child.node);
            && Accounted(all, found + [child], Left(at, rest.rest, queue))
            && WalkInv(Walk(walk.entries + [EntryOf(child, sha)], walk.byteCount + Size(child.node), queue), found + [child], sha)
            && Work(queue) + KidCount(rest.rest) < Work(walk.pending) + KidCount(rest)
  {
    hide Accounted, Planned, Left, EntryOf, ByteCount;
    var child := Found(at + [rest.name], rest.node);
    AccountForChild(all, found, at, rest, walk.pending);
    ExtendPlanned(found, child, walk.entries, EntryOf(child, sha), sha);
    if child.node.Folder? {
      WorkAppend(walk.pending, Pending(child.path, child.node.kids));
    }
  }

  /** The planner's inner loop: one directory's entries, its sub-directories queued. */
  method PlanDirectory<Digest>(directory: Pending, start: Walk<Digest>, sha: Bytes -> Digest, disturbed: bool,
                               ghost all: seq<Found>, ghost before: seq<Found>)
    returns (r: Result<Walk<Digest>, PlanFailure>, ghost found: seq<Found>)
    requires Accounted(all, before, Left(directory.at, directory.kids, start.pending))
    requires WalkInv(start, before, sha)
    ensures r.Ok? ==> && Accounted(all, found, Left(directory.at, NoMore, r.value.pending))
                      && WalkInv(r.value, found, sha)
                      && Work(r.value.pending) <= Work(start.pending) + KidCount(directory.kids)
    ensures r.Err? && !disturbed ==> !Plannable(all) && Blames(all, r.error)
  {
    hide BlamesChild, Blames, Accounted, WalkInv, Plannable, Admits, Left, Work, KidCount, EntryOf, Size, Queued;
    var at, rest, walk := directory.at, directory.kids, start;
    found := before;
    while rest.Kid?
      invariant Accounted(all, found, Left(at, rest, walk.pending))
      invariant WalkInv(walk, found, sha)
      invariant Work(walk.pending) + KidCount(rest) <= Work(start.pending) + KidCount(directory.kids)
      decreases rest
    {
      var fault := Fault(disturbed);
      if fault.Some? { return Err(fault.value), found; }
      var child := Found(at + [rest.name], rest.node);
      WalkLimit(walk, found, sha);
      var planned := PlanChild(child, |walk.entries|, walk.byteCount, sha);
      if planned.Err? {
        RefusedChild(all, found, at, rest, walk, sha, planned.error);
        return Err(planned.error), found;
      }
      PlannedChild(all, found, at, rest, walk, sha);
      walk := Walk(walk.entries + [planned.value.0], planned.value.1, Queued(walk.pending, child.path, child.node));
      found := found + [child];
      rest := rest.rest;
    }
    return Ok(walk), found;
  }

  /** `plan_signed_bundle_until`; `disturbed` lets a deadline or an I/O error strike at any step. */
  method PlanSignedBundle<Digest>(root: Node, sha: Bytes -> Digest, disturbed: bool)
    returns (r: Result<UploadPlan<Digest>, PlanFailure>)
    ensures r.Ok? ==> Bounded(root) && SafeTree(root) && IsPlan(root, sha, r.value)
    ensures r.Ok? <== !disturbed && Bounded(root) && SafeTree(root)
    ensures !disturbed && root.Symlink? ==> r == Err(SourceSymlink)
    ensures !disturbed && !root.Symlink? && !root.Folder? ==> r == Err(SourceNotDirectory)
    ensures !disturbed && root.Folder? && r.Err? ==> Blames(Descendants(root), r.error)
  {
    var fault := Fault(disturbed);
    if fault.Some? { return Err(fault.value); }
    if root.Symlink? { return Err(SourceSymlink); }
    if !root.Folder? { return Err(SourceNotDirectory); }

    hide Blames, Listing, Left, Outstanding, Planned;
    ghost var all, found, at := Descendants(root), [], [];
    PlannedNone(sha);
    var walk := Walk([], 0, [Pending([], root.kids)]);
    LeftAtStart(root);
    while walk.pending != []
      invariant Accounted(all, found, Left(at, NoMore, walk.pending))
      invariant WalkInv(walk, found, sha)
      decreases Work(walk.pending)
    {
      LeftAtDirectory(at, walk.pending);
      var directory := walk.pending[0];
      fault := Fault(disturbed);
      if fault.Some? { return Err(fault.value); }
      at := directory.at;
      var r', found' := PlanDirectory(directory, walk.(pending := walk.pending[1..]), sha, disturbed, all, found);
      if r'.Err? { return Err(r'.error); }
      walk, found := r'.value, found';
    }
    fault := Fault(disturbed);
    if fault.Some? { return Err(fault.value); }
    FinishPlan(root, found, at, walk.entries, sha);
    return Ok(UploadPlan(SortEntries(walk.entries), walk.byteCount));
  }

  /** The found descendants are plannable and `entries` are their entries. */
  ghost predicate Planned<Digest>(found: seq<Found>, entries: seq<UploadEntry<Digest>>, sha: Bytes -> Digest)
    decreases |found|
  {
    && |entries| == |found|
    && (found != [] ==>
          var n := |found| - 1;
          && (found[n].node.Folder? || found[n].node.File?) && SafePath(found[n].path)
          && entries[n] == EntryOf(found[n], sha)
          && Planned(found[..n], entries[..n], sha))
  }

  lemma PlannedNone<Digest>(sha: Bytes -> Digest)
    ensures Planned([], [], sha)
  {
  }

  lemma ExtendPlanned<Digest>(found: seq<Found>, child: Found, entries: seq<UploadEntry<Digest>>, entry: UploadEntry<Digest>, sha: Bytes -> Digest)
    requires Planned(found, entries, sha) && entry == EntryOf(child, sha)
    requires (child.node.Folder? || child.node.File?) && SafePath(child.path)
    ensures Planned(found + [child], entries + [entry], sha)
  {
    assert (found + [child])[..|found|] == found;
    assert (entries + [entry])[..|found|] == entries;
  }

  lemma {:induction false} PlannedAll<Digest>(found: seq<Found>, entries: seq<UploadEntry<Digest>>, sha: Bytes -> Digest)
    requires Planned(found, entries, sha)
    ensures Regular(found) && AllSafe(found) && entries == EntriesOf(found, sha)
    decreases |found|
  {
    hide Join, Texts;
    if found != [] {
      var n := |found| - 1;
      PlannedAll(found[..n], entries[..n], sha);
      forall f | f in found ensures (f.node.Folder? || f.node.File?) && SafePath(f.path) {
        assert f == found[n] || f in found[..n];
      }
      forall i | 0 <= i < n ensures entries[i] == EntryOf(found[i], sha) {
        assert entries[i] == entries[..n][i] && found[i] == found[..n][i];
      }
    }
  }

  lemma FinishPlan<Digest>(root: Node, found: seq<Found>, at: seq<Name>, entries: seq<UploadEntry<Digest>>, sha: Bytes -> Digest)
    requires root.Folder? && Accounted(Descendants(root), found, Left(at, NoMore, []))
    requires |found| <= ENTRY_LIMIT && ByteCount(found) <= BYTE_LIMIT && Planned(found, entries, sha)
    ensures Bounded(root) && SafeTree(root)
    ensures IsPlan(root, sha, UploadPlan(SortEntries(entries), ByteCount(found)))
  {
    PlannedAll(found, entries, sha);
    FoundIsAll(Descendants(root), found, at);
    SameEntries(Descendants(root), found, sha);
  }

  lemma Without<T>(s: seq<T>, k: nat)
    requires k < |s|
    ensures multiset(s) == multiset(s[..k] + s[k + 1..]) + multiset{s[k]}
  {
    assert s == s[..k] + [s[k]] + s[k + 1..];
  }

  lemma EntriesWithout<Digest>(found: seq<Found>, k: nat, sha: Bytes -> Digest)
    requires k < |found|
    ensures multiset(EntriesOf(found, sha)) == multiset(EntriesOf(found[..k] + found[k + 1..], sha)) + multiset{EntryOf(found[k], sha)}
  {
    var x := EntriesOf(found, sha);
    assert x[..k] + x[k + 1..] == EntriesOf(found[..k] + found[k + 1..], sha);
    Without(x, k);
  }

  lemma SameWithout(a: seq<Found>, b: seq<Found>, k: nat)
    requires a != [] && k < |b| && b[k] == a[0]
    requires multiset(a) == multiset(b)
    ensures multiset(a[..0] + a[1..]) == multiset(b[..k] + b[k + 1..])
  {
    Without(a, 0);
    Without(b, k);
    assert multiset(a[..0] + a[1..]) == multiset(a) - multiset{a[0]};
    assert multiset(b[..k] + b[k + 1..]) == multiset(b) - multiset{a[0]};
  }

  lemma {:induction false} SameEntries<Digest>(a: seq<Found>, b: seq<Found>, sha: Bytes -> Digest)
    requires multiset(a) == multiset(b)
    ensures multiset(EntriesOf(a, sha)) == multiset(EntriesOf(b, sha))
    decreases |a|
  {
    if a == [] {
      assert |multiset(b)| == 0;
    } else {
      assert a[0] in multiset(b);
      var k :| 0 <= k < |b| && b[k] == a[0];
      SameWithout(a, b, k);
      SameEntries(a[..0] + a[1..], b[..k] + b[k + 1..], sha);
      EntriesWithout(a, 0, sha);
      EntriesWithout(b, k, sha);
    }
  }

  /** Both walkers on one undisturbed tree: the planner also refuses a link as root and unsafe names. */
  method WalkersAgree<Digest>(root: Node, sha: Bytes -> Digest) returns (planned: bool, valid: bool)
    ensures planned <==> valid && !root.Symlink? && SafeTree(root)
  {
    var plan := PlanSignedBundle(root, sha, false);
    valid := ValidatePrivateSignedTree(root);
    planned := plan.Ok?;
  }

  // ----- what a plan promises the upload

  predicate HasName(kids: Kids, name: Name) {
    kids.Kid? && (kids.name == name || HasName(kids.rest, name))
  }

  /** No directory holds two entries of one name. */
  predicate DistinctNames(kids: Kids)
    decreases kids
  {
    match kids
    case NoMore => true
    case Kid(name, node, rest) =>
      !HasName(rest, name) && (node.Folder? ==> DistinctNames(node.kids)) && DistinctNames(rest)
  }

  ghost predicate UnderDirectory(f: Found, at: seq<Name>, kids: Kids) {
    |f.path| > |at| && f.path[..|at|] == at && HasName(kids, f.path[|at|])
  }

  lemma {:induction false} ListedUnder(at: seq<Name>, kids: Kids, f: Found)
    requires f in Listing(at, kids)
    ensures UnderDirectory(f, at, kids)
    decreases kids
  {
    var here := at + [kids.name];
    if f == Found(here, kids.node) {
    } else if f in Below(here, kids.node) {
      ListedUnder(here, kids.node.kids, f);
      assert f.path[..|at|] == f.path[..|here|][..|at|];
    } else {
      ListedUnder(at, kids.rest, f);
    }
  }

  ghost predicate DistinctPaths(found: seq<Found>) {
    forall i, j :: 0 <= i < j < |found| ==> found[i].path != found[j].path
  }

  lemma DistinctAppend(a: seq<Found>, b: seq<Found>)
    requires DistinctPaths(a) && DistinctPaths(b)
    requires forall f, g :: f in a && g in b ==> f.path != g.path
    ensures DistinctPaths(a + b)
  {
    forall i, j | 0 <= i < j < |a + b| ensures (a + b)[i].path != (a + b)[j].path {
      if i < |a| <= j {
        assert (a + b)[i] in a && (a + b)[j] in b;
      }
    }
  }

  lemma {:induction false} ListingDistinct(at: seq<Name>, kids: Kids)
    requires DistinctNames(kids)
    ensures DistinctPaths(Listing(at, kids))
    decreases kids
  {
    if kids.Kid? {
      var here := at + [kids.name];
      var first, below, after := [Found(here, kids.node)], Below(here, kids.node), Listing(at, kids.rest);
      if kids.node.Folder? {
        ListingDistinct(here, kids.node.kids);
      }
      ListingDistinct(at, kids.rest);
      forall f | f in below ensures |f.path| > |here| && f.path[..|here|] == here {
        ListedUnder(here, kids.node.kids, f);
      }
      forall f, g | f in first + below && g in after ensures f.path != g.path {
        ListedUnder(at, kids.rest, g);
        assert f.path[..|here|] == here;
        assert f.path[|at|] == kids.name;
      }
      DistinctAppend(first, below);
      DistinctAppend(first + below, after);
    }
  }

  lemma {:induction false} ParentListed(at: seq<Name>, kids: Kids, f: Found)
    requires f in Listing(at, kids) && |f.path| > |at| + 1
    ensures exists g :: g in Listing(at, kids) && g.node.Folder? && g.path == f.path[..|f.path| - 1]
    decreases kids
  {
    var here := at + [kids.name];
    if f in Below(here, kids.node) {
      ListedUnder(here, kids.node.kids, f);
      if |f.path| == |here| + 1 {
        assert Found(here, kids.node) in Listing(at, kids);
      } else {
        ParentListed(here, kids.node.kids, f);
      }
    } else {
      ParentListed(at, kids.rest, f);
    }
  }

  lemma {:induction false} TextsInjective(p: seq<Name>, q: seq<Name>)
    requires SafePath(p) && SafePath(q)
    requires Join(Texts(p)) == Join(Texts(q))
    ensures p == q
  {
    assert AllPlain(Texts(p)) && AllPlain(Texts(q));
    JoinInjective(Texts(p), Texts(q));
    assert forall i :: 0 <= i < |p| ==> p[i] == Text(Texts(p)[i]) && q[i] == Text(Texts(q)[i]);
  }

  ghost predicate DistinctRemotes<Digest>(entries: seq<UploadEntry<Digest>>) {
    forall i, j :: 0 <= i < j < |entries| ==> entries[i].remote != entries[j].remote
  }

  /** A directory entry stands before every entry it contains. */
  ghost predicate ParentsFirst<Digest>(entries: seq<UploadEntry<Digest>>) {
    forall j :: 0 <= j < |entries| && '/' in entries[j].remote ==>
      exists i :: 0 <= i < j && entries[i] == UploadEntry(Parent(entries[j].remote), Directory)
  }

  lemma CountedTwice<T>(s: seq<T>, i: nat, j: nat)
    requires i < j < |s| && s[i] == s[j]
    ensures multiset(s)[s[i]] >= 2
  {
    assert s == s[..i] + [s[i]] + s[i + 1..j] + [s[j]] + s[j + 1..];
  }

  lemma CountedOnce<Digest>(entries: seq<UploadEntry<Digest>>, k: nat)
    requires k < |entries| && DistinctRemotes(entries)
    ensures multiset(entries)[entries[k]] == 1
  {
    assert entries == entries[..k] + [entries[k]] + entries[k + 1..];
    assert entries[k] !in entries[..k] && entries[k] !in entries[k + 1..];
  }

  lemma {:induction false} DistinctFromMultiset<Digest>(a: seq<UploadEntry<Digest>>, b: seq<UploadEntry<Digest>>)
    requires multiset(a) == multiset(b) && DistinctRemotes(a)
    ensures DistinctRemotes(b)
  {
    forall i, j | 0 <= i < j < |b| ensures b[i].remote != b[j].remote {
      assert b[i] in multiset(a) && b[j] in multiset(a);
      var k :| 0 <= k < |a| && a[k] == b[i];
      var m :| 0 <= m < |a| && a[m] == b[j];
      if b[i] == b[j] {
        CountedTwice(b, i, j);
        CountedOnce(a, k);
      }
    }
  }

  ghost predicate DistinctJoins(found: seq<Found>) {
    forall i, j :: 0 <= i < j < |found| ==> Join(Texts(found[i].path)) != Join(Texts(found[j].path))
  }

  lemma ListedDistinct(root: Node)
    requires root.Folder? && DistinctNames(root.kids) && SafeTree(root)
    ensures DistinctJoins(Descendants(root))
  {
    var all := Descendants(root);
    ListingDistinct([], root.kids);
    forall i, j | 0 <= i < j < |all| ensures Join(Texts(all[i].path)) != Join(Texts(all[j].path)) {
      assert all[i] in all && all[j] in all;
      if Join(Texts(all[i].path)) == Join(Texts(all[j].path)) {
        TextsInjective(all[i].path, all[j].path);
      }
    }
  }

  /** No two entries of a plan write one remote path. */
  lemma {:induction false} PlanDistinct<Digest>(root: Node, sha: Bytes -> Digest, plan: UploadPlan<Digest>)
    requires root.Folder? && DistinctNames(root.kids) && SafeTree(root) && IsPlan(root, sha, plan)
    ensures DistinctRemotes(plan.entries)
  {
    ListedDistinct(root);
    DistinctFromMultiset(EntriesOf(Descendants(root), sha), plan.entries);
  }

  // ----- the files on the local disk

  /** The content of every file of a tree, by its joined path. */
  function LocalFiles(found: seq<Found>): map<string, Bytes> {
    if found == [] then map[]
    else if found[0].node.File? then LocalFiles(found[1..])[Join(Texts(found[0].path)) := found[0].node.data]
    else LocalFiles(found[1..])
  }

  lemma {:induction false} LocalFilesHold(found: seq<Found>, i: nat)
    requires DistinctJoins(found) && i < |found| && found[i].node.File?
    ensures
      var path := Join(Texts(found[i].path));
      path in LocalFiles(found) && LocalFiles(found)[path] == found[i].node.data
    decreases |found|
  {
    if i > 0 {
      var rest := found[1..];
      assert rest[i - 1] == found[i];
      assert DistinctJoins(rest) by {
        forall k, m | 0 <= k < m < |rest| ensures Join(Texts(rest[k].path)) != Join(Texts(rest[m].path)) {
          assert rest[k] == found[k + 1] && rest[m] == found[m + 1];
        }
      }
      LocalFilesHold(rest, i - 1);
    }
  }

  lemma {:induction false} DirectoryPlanned<Digest>(root: Node, sha: Bytes -> Digest, f: Found)
    requires root.Folder? && SafeTree(root) && f in Descendants(root)
    requires '/' in EntryOf(f, sha).remote
    ensures UploadEntry(Parent(EntryOf(f, sha).remote), Directory) in EntriesOf(Descendants(root), sha)
  {
    var all, path, n := Descendants(root), f.path, |f.path| - 1;
    var texts := Texts(path);
    assert SafePath(path) && Plain(texts[n]);
    if n > 0 {
      ParentListed([], root.kids, f);
      var g :| g in all && g.node.Folder? && g.path == path[..n];
      assert texts[..n] == Texts(g.path);
      ParentOf(Join(texts[..n]), texts[n]);
      var m :| 0 <= m < |all| && all[m] == g;
      assert EntriesOf(all, sha)[m] == UploadEntry(Join(texts[..n]), Directory);
    }
  }

  lemma {:induction false} ParentSortsFirst<Digest>(entries: seq<UploadEntry<Digest>>, i: nat, j: nat)
    requires Sorted(entries) && i < |entries| && j < |entries|
    requires '/' in entries[j].remote && entries[i].remote == Parent(entries[j].remote)
    ensures i < j
  {
    if j < i {
      ParentIsPrefix(entries[j].remote);
      PrefixBefore(entries[i].remote, entries[j].remote);
      BeforeAntisymmetric(entries[i].remote, entries[j].remote);
    }
  }

  /** Sorting the joined paths puts every directory before its contents. */
  lemma {:induction false} PlanParentsFirst<Digest>(root: Node, sha: Bytes -> Digest, plan: UploadPlan<Digest>)
    requires root.Folder? && SafeTree(root) && IsPlan(root, sha, plan)
    ensures ParentsFirst(plan.entries)
  {
    hide Listing, Join, Texts, Before, Parent;
    var all, entries := Descendants(root), plan.entries;
    var listed := EntriesOf(all, sha);
    forall j | 0 <= j < |entries| && '/' in entries[j].remote
      ensures exists i :: 0 <= i < j && entries[i] == UploadEntry(Parent(entries[j].remote), Directory)
    {
      assert entries[j] in multiset(listed);
      var k :| 0 <= k < |listed| && listed[k] == entries[j];
      DirectoryPlanned(root, sha, all[k]);
      var directory := UploadEntry(Parent(entries[j].remote), Directory);
      assert directory in multiset(entries);
      var i :| 0 <= i < |entries| && entries[i] == directory;
      ParentSortsFirst(entries, i, j);
    }
  }

  function SizeOf<Digest>(e: UploadEntry<Digest>): nat {
    if e.kind.RegularFile? then e.kind.size else 0
  }

  function Sizes<Digest>(entries: seq<UploadEntry<Digest>>): nat {
    if entries == [] then 0 else Sizes(entries[..|entries| - 1]) + SizeOf(entries[|entries| - 1])
  }

  lemma {:induction false} SizesAppend<Digest>(a: seq<UploadEntry<Digest>>, b: seq<UploadEntry<Digest>>)
    ensures Sizes(a + b) == Sizes(a) + Sizes(b)
    decreases |b|
  {
    if b == [] {
      assert a + b == a;
    } else {
      var n := |b| - 1;
      SizesAppend(a, b[..n]);
      assert (a + b)[..|a + b| - 1] == a + b[..n];
    }
  }

  lemma SizesWithout<Digest>(entries: seq<UploadEntry<Digest>>, k: nat)
    requires k < |entries|
    ensures Sizes(entries) == Sizes(entries[..k] + entries[k + 1..]) + SizeOf(entries[k])
  {
    hide Sizes;
    var before, at, after := entries[..k], [entries[k]], entries[k + 1..];
    assert entries == (before + at) + after;
    SizesOfOne(entries[k]);
    SizesAppend(before + at, after);
    SizesAppend(before, at);
    SizesAppend(before, after);
  }

  lemma {:induction false} SizesPermute<Digest>(a: seq<UploadEntry<Digest>>, b: seq<UploadEntry<Digest>>)
    requires multiset(a) == multiset(b)
    ensures Sizes(a) == Sizes(b)
    decreases |a|
  {
    if a == [] {
      assert |multiset(b)| == 0;
    } else {
      var n := |a| - 1;
      assert a[n] in multiset(b);
      var k :| 0 <= k < |b| && b[k] == a[n];
      Without(a, n);
      Without(b, k);
      assert multiset(a[..n] + a[n + 1..]) == multiset(a) - multiset{a[n]};
      assert multiset(b[..k] + b[k + 1..]) == multiset(b) - multiset{a[n]};
      SizesPermute(a[..n] + a[n + 1..], b[..k] + b[k + 1..]);
      SizesWithout(a, n);
      SizesWithout(b, k);
    }
  }

  lemma SizesOfOne<Digest>(e: UploadEntry<Digest>)
    ensures Sizes([e]) == SizeOf(e)
  {
    assert [e][..0] == [];
  }

  lemma {:induction false} SizesOfListed<Digest>(found: seq<Found>, sha: Bytes -> Digest)
    ensures Sizes(EntriesOf(found, sha)) == ByteCount(found)
    decreases |found|
  {
    if found != [] {
      hide Join, Texts;
      var first, rest := EntryOf(found[0], sha), EntriesOf(found[1..], sha);
      SizesOfListed(found[1..], sha);
      assert EntriesOf(found, sha) == [first] + rest;
      SizesAppend([first], rest);
      SizesOfOne(first);
    }
  }

  /** The byte count the progress bar divides by is the sum of the planned sizes. */
  lemma PlanSizes<Digest>(root: Node, sha: Bytes -> Digest, plan: UploadPlan<Digest>)
    requires IsPlan(root, sha, plan)
    ensures Sizes(plan.entries) == plan.byteCount
  {
    SizesPermute(plan.entries, EntriesOf(Descendants(root), sha));
    SizesOfListed(Descendants(root), sha);
  }
}
