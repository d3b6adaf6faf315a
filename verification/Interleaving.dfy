/** Appenders and loaders that run at the same time, one storage call at a time
    (service.go `LoadFile`, `AppendToFile`). A thread that is never scheduled again has
    stopped midway. */
module Interleaving {
  import opened Basics
  import opened Ids
  import opened Blocks
  import opened Records
  import opened Services
  import opened Invariant
  import opened CapabilityFs
  import opened Abstraction
  import opened Frames
  import opened Edits
  import opened Simulation

  /** What a thread saw of a file's history when it read the inode: which commits the
      inode included, and how many there had been. */
  datatype Sight = Sight(visible: seq<nat>, count: nat)

  /** The next storage call of a thread. `inode` is the writer's own copy. */
  datatype Phase =
    | AtAccess
    | AtMailbox(access: Access)
    | AtInode(node: MailboxNode)
    | Writing(node: MailboxNode, inode: Inode, k: nat, sight: Sight)
    | Reading(node: MailboxNode, left: seq<Id>, data: Bytes, sight: Sight)
    | Appended(node: MailboxNode)
    | Loaded(node: MailboxNode, data: Bytes, sight: Sight)
    | Failed(error: Error)

  datatype Task = Append(piece: Bytes) | Load

  datatype Thread = Thread(ses: Session, filename: string, task: Task, phase: Phase)

  /** A committed append: whose, what, and how many commits its appender had seen. */
  datatype Commit = Commit(author: nat, piece: Bytes, seen: nat)

  /** A file since the start: its first content, all commits in order, and the commits
      whose blocks the present inode lists. */
  datatype History = History(initial: Bytes, log: seq<Commit>, current: seq<nat>)

  datatype Machine = Machine(s: State, threads: seq<Thread>, history: map<Id, History>)

  function HistoryOf(m: Machine, id: Id): History {
    if id in m.history then m.history[id] else History([], [], [])
  }

  function Move(m: Machine, tid: nat, phase: Phase): Machine
    requires tid < |m.threads|
  {
    m.(threads := m.threads[tid := m.threads[tid].(phase := phase)])
  }

  /** One storage call of thread `tid`. */
  function Advance(m: Machine, tid: nat): Machine
    requires tid < |m.threads|
  {
    var t := m.threads[tid];
    match t.phase
    case AtAccess => ReadAccess(m, tid, t)
    case AtMailbox(access) => ReadMailbox(m, tid, access)
    case AtInode(node) => ReadInode(m, tid, t, node)
    case Writing(node, inode, k, sight) =>
      if t.task.Load? then m
      else if k < |Chunk(t.task.piece)| then WriteBlock(m, tid, node, inode, Chunk(t.task.piece), k, sight)
      else WriteInode(m, tid, node, inode, t.task.piece, sight)
    case Reading(node, left, data, sight) => ReadBlock(m, tid, node, left, data, sight)
    case _ => m
  }

  function ReadAccess(m: Machine, tid: nat, t: Thread): Machine
    requires tid < |m.threads|
  {
    match OpenAccess(m.s.heap, t.ses, t.filename)
    case Err(e) => Move(m, tid, Failed(e))
    case Ok(access) => Move(m, tid, AtMailbox(access))
  }

  function ReadMailbox(m: Machine, tid: nat, access: Access): Machine
    requires tid < |m.threads|
  {
    match OpenMailbox(m.s.heap, access.mailbox, access.key)
    case Err(e) => Move(m, tid, Failed(e))
    case Ok(node) => Move(m, tid, AtInode(node))
  }

  function ReadInode(m: Machine, tid: nat, t: Thread, node: MailboxNode): Machine
    requires tid < |m.threads|
  {
    match OpenInode(m.s.heap, node)
    case Err(e) => Move(m, tid, Failed(e))
    case Ok(inode) =>
      var history := HistoryOf(m, node.inode);
      var sight := Sight(history.current, |history.log|);
      Move(m, tid, if t.task.Append? then Writing(node, inode, 0, sight) else Reading(node, inode.blocks, [], sight))
  }

  function WriteBlock(m: Machine, tid: nat, node: MailboxNode, inode: Inode, chunks: seq<Bytes>, k: nat, sight: Sight): Machine
    requires tid < |m.threads| && k < |chunks|
  {
    var id := Random(m.s.next);
    var h := m.s.heap[id := Sealed(FileKeys(node.fileKey), BlockPlain(chunks[k]))];
    Move(m.(s := State(h, m.s.keys, m.s.next + 1)), tid,
         Writing(node, inode.(blocks := inode.blocks + [id]), k + 1, sight))
  }

  /** The commit: the only step that readers can see. */
  function WriteInode(m: Machine, tid: nat, node: MailboxNode, inode: Inode, piece: Bytes, sight: Sight): Machine
    requires tid < |m.threads|
  {
    var longer := inode.(size := inode.size + |piece|);
    var h := m.s.heap[node.inode := Sealed(FileKeys(node.fileKey), InodePlain(longer))];
    var after := Committed(HistoryOf(m, node.inode), tid, piece, sight);
    Move(m.(s := m.s.(heap := h), history := m.history[node.inode := after]), tid, Appended(node))
  }

  function Committed(history: History, tid: nat, piece: Bytes, sight: Sight): History {
    History(history.initial, history.log + [Commit(tid, piece, sight.count)], sight.visible + [|history.log|])
  }

  function ReadBlock(m: Machine, tid: nat, node: MailboxNode, left: seq<Id>, data: Bytes, sight: Sight): Machine
    requires tid < |m.threads|
  {
    if left == [] then Move(m, tid, Loaded(node, data, sight))
    else
      match OpenBlock(m.s.heap, left[0], FileKeys(node.fileKey))
      case Err(e) => Move(m, tid, Failed(e))
      case Ok(bytes) => Move(m, tid, Reading(node, left[1..], data + bytes, sight))
  }

  /** Any interleaving. */
  function Schedule(m: Machine, tids: seq<nat>): Machine
    decreases |tids|
  {
    if tids == [] then m
    else Schedule(if tids[0] < |m.threads| then Advance(m, tids[0]) else m, tids[1..])
  }

  // ---- Histories

  predicate Ascending(visible: seq<nat>, n: nat) {
    && (forall i, j :: 0 <= i < j < |visible| ==> visible[i] < visible[j])
    && (forall i :: 0 <= i < |visible| ==> visible[i] < n)
  }

  function UpTo(n: nat): seq<nat> {
    seq(n, k requires 0 <= k < n => k)
  }

  function Pieces(log: seq<Commit>, visible: seq<nat>): seq<Bytes>
    requires Ascending(visible, |log|)
  {
    seq(|visible|, k requires 0 <= k < |visible| => log[visible[k]].piece)
  }

  /** The first content followed by the visible pieces. */
  function Text(history: History, visible: seq<nat>): Bytes
    requires Ascending(visible, |history.log|)
  {
    history.initial + Flatten(Pieces(history.log, visible))
  }

  /** None of the first `n` commits was overlapped: each appender had seen all earlier ones. */
  predicate NoOverlap(log: seq<Commit>, n: nat)
    requires n <= |log|
  {
    forall k :: 0 <= k < n ==> log[k].seen == k
  }

  /** A sight is in commit order, is the present one if nothing was committed since, and
      shows every commit so far exactly if none of them overlapped another. */
  ghost predicate SightOk(history: History, sight: Sight) {
    && sight.count <= |history.log|
    && Ascending(sight.visible, sight.count)
    && (sight.count == |history.log| ==> sight.visible == history.current)
    && (sight.visible == UpTo(sight.count) <==> NoOverlap(history.log, sight.count))
  }

  ghost predicate HistoryOk(history: History) {
    SightOk(history, Sight(history.current, |history.log|))
  }

  /** After a commit the inode shows everything exactly if the newcomer had seen
      everything and everything was there. */
  lemma CommitShowsAll(history: History, tid: nat, piece: Bytes, sight: Sight)
    requires HistoryOk(history) && SightOk(history, sight)
    ensures var after := Committed(history, tid, piece, sight);
            after.current == UpTo(|after.log|) <==> NoOverlap(after.log, |after.log|)
  {
    var after := Committed(history, tid, piece, sight);
    var n := |history.log|;
    assert after.log[n].seen == sight.count;
    assert forall k :: 0 <= k < n ==> after.log[k] == history.log[k];
    if after.current == UpTo(n + 1) {
      assert |after.current| == n + 1 == |sight.visible| + 1;
      assert sight.visible == after.current[..n] == UpTo(n);
      assert n > 0 ==> sight.visible[n - 1] == n - 1 < sight.count;
      assert sight.count == n;
    }
    if NoOverlap(after.log, n + 1) {
      assert NoOverlap(history.log, n);
      assert sight.visible == UpTo(n);
      assert after.current == UpTo(n + 1);
    }
  }

  lemma CommitKeepsHistory(history: History, tid: nat, piece: Bytes, sight: Sight)
    requires HistoryOk(history) && SightOk(history, sight)
    ensures var after := Committed(history, tid, piece, sight);
            HistoryOk(after) && Text(after, after.current) == Text(history, sight.visible) + piece
  {
    hide NoOverlap;
    var after := Committed(history, tid, piece, sight);
    CommitShowsAll(history, tid, piece, sight);
    CommitText(history, after, piece, sight);
  }

  lemma CommitText(history: History, after: History, piece: Bytes, sight: Sight)
    requires Ascending(sight.visible, |history.log|)
    requires after.initial == history.initial && after.current == sight.visible + [|history.log|]
    requires |after.log| == |history.log| + 1 && after.log[..|history.log|] == history.log
    requires after.log[|history.log|].piece == piece
    ensures Ascending(after.current, |after.log|)
    ensures Text(after, after.current) == Text(history, sight.visible) + piece
  {
    assert forall k :: 0 <= k < |history.log| ==> after.log[k] == history.log[k];
    var before := Pieces(history.log, sight.visible);
    assert Pieces(after.log, after.current) == before + [piece];
    FlattenSnoc(before, piece);
    assert history.initial + (Flatten(before) + piece) == history.initial + Flatten(before) + piece;
  }

  /** Later commits do not disturb what a thread has seen. */
  lemma SightStays(history: History, after: History, sight: Sight)
    requires SightOk(history, sight)
    requires SameOrLonger(history, after)
    ensures SightOk(after, sight) && Text(after, sight.visible) == Text(history, sight.visible)
  {
    assert forall k :: 0 <= k < |history.log| ==> after.log[k] == history.log[k];
    assert Pieces(after.log, sight.visible) == Pieces(history.log, sight.visible);
  }

  // ---- What every interleaving keeps

  ghost function NameAt(t: Thread): (string, string) {
    (t.ses.creds.username, t.filename)
  }

  /** `node` is what the name led to at the start. */
  ghost predicate LedTo(s0: State, p: (string, string), node: MailboxNode)
    requires Inv(s0)
  {
    && Holds(s0, p) && IsMailbox(s0.heap, AccessAt(s0.heap, SlotOf(p)).mailbox)
    && node == MailboxAt(s0.heap, AccessAt(s0.heap, SlotOf(p)).mailbox)
  }

  ghost predicate OnFile(s0: State, m: Machine, p: (string, string), node: MailboxNode, sight: Sight)
    requires Inv(s0)
  {
    && LedTo(s0, p, node)
    && IsInode(s0.heap, node.inode) && s0.heap[node.inode].key == FileKeys(node.fileKey)
    && node.inode in m.history && SightOk(m.history[node.inode], sight)
  }

  ghost predicate WriterOk(m: Machine, t: Thread, node: MailboxNode, inode: Inode, k: nat, sight: Sight)
    requires node.inode in m.history && SightOk(m.history[node.inode], sight)
  {
    && t.task.Append? && k <= |Chunk(t.task.piece)|
    && var written := Flatten(Chunk(t.task.piece)[..k]);
    && GoodInode(m.s.heap, node.fileKey, inode.(size := inode.size + |written|))
    && Flatten(Plaintexts(m.s.heap, inode.blocks)) == Text(m.history[node.inode], sight.visible) + written
  }

  ghost predicate ReaderOk(m: Machine, node: MailboxNode, left: seq<Id>, data: Bytes, sight: Sight)
    requires node.inode in m.history && SightOk(m.history[node.inode], sight)
  {
    && (forall j :: 0 <= j < |left| ==> IsBlock(m.s.heap, left[j]) && m.s.heap[left[j]].key == FileKeys(node.fileKey))
    && data + Flatten(Plaintexts(m.s.heap, left)) == Text(m.history[node.inode], sight.visible)
  }

  ghost predicate ThreadOk(s0: State, m: Machine, t: Thread)
    requires Inv(s0)
  {
    Genuine(s0, t.ses) &&
    match t.phase
    case AtAccess => true
    case AtMailbox(access) => Holds(s0, NameAt(t)) && access == AccessAt(s0.heap, SlotOf(NameAt(t)))
    case AtInode(node) => LedTo(s0, NameAt(t), node)
    case Writing(node, inode, k, sight) => OnFile(s0, m, NameAt(t), node, sight) && WriterOk(m, t, node, inode, k, sight)
    case Reading(node, left, data, sight) => t.task.Load? && OnFile(s0, m, NameAt(t), node, sight) && ReaderOk(m, node, left, data, sight)
    case Appended(node) => LedTo(s0, NameAt(t), node) && t.task.Append?
    case Loaded(node, data, sight) =>
      t.task.Load? && OnFile(s0, m, NameAt(t), node, sight) && data == Text(m.history[node.inode], sight.visible)
    case Failed(_) => !Live(Abs(s0), NameAt(t))
  }

  /** Users, names, mailboxes and file keys are as at the start. */
  ghost predicate Frozen(s0: State, s: State)
    requires Inv(s0)
  {
    && Inv(s) && SameUsers(s0, s)
    && SameAccesses(s0.heap, s.heap) && SameMailboxes(s0.heap, s.heap)
    && SameKeys(s0.heap, s.heap) && SameKeys(s.heap, s0.heap)
  }

  ghost predicate FileOk(s0: State, m: Machine, i: Id)
    requires IsInode(s0.heap, i) && IsInode(m.s.heap, i)
  {
    && i in m.history && HistoryOk(m.history[i])
    && m.history[i].initial == AbsFile(s0.heap, i).content
    && AbsFile(m.s.heap, i).content == Text(m.history[i], m.history[i].current)
  }

  /** Every commit is one appender's whole piece, and no appender commits twice. */
  ghost predicate CommitOk(m: Machine, i: Id, k: nat)
    requires i in m.history && k < |m.history[i].log|
  {
    var c := m.history[i].log[k];
    && c.author < |m.threads|
    && m.threads[c.author].task == Task.Append(c.piece)
    && m.threads[c.author].phase.Appended? && m.threads[c.author].phase.node.inode == i
    && forall l :: 0 <= l < |m.history[i].log| && m.history[i].log[l].author == c.author ==> l == k
  }

  ghost predicate CommitsOk(m: Machine) {
    forall i, k :: i in m.history && 0 <= k < |m.history[i].log| ==> CommitOk(m, i, k)
  }

  ghost predicate MachineOk(s0: State, m: Machine)
    requires Inv(s0)
  {
    && Frozen(s0, m.s)
    && (forall i :: IsInode(m.s.heap, i) ==> IsInode(s0.heap, i) && FileOk(s0, m, i))
    && CommitsOk(m)
    && (forall j :: 0 <= j < |m.threads| ==> ThreadOk(s0, m, m.threads[j]))
  }

  /** A step that changes only one thread, which stays in order. */
  lemma MoveKeeps(s0: State, m: Machine, tid: nat, phase: Phase)
    requires Inv(s0) && MachineOk(s0, m) && tid < |m.threads|
    requires !m.threads[tid].phase.Appended? && ThreadOk(s0, m, m.threads[tid].(phase := phase))
    ensures MachineOk(s0, Move(m, tid, phase))
  {
    hide Inv, Frozen, Abs, Holds, Genuine, LedTo, OnFile, WriterOk, ReaderOk, HistoryOk, Live;
    var n := Move(m, tid, phase);
    assert forall i :: IsInode(m.s.heap, i) ==> FileOk(s0, m, i) && FileOk(s0, n, i);
    forall i, k | i in n.history && 0 <= k < |n.history[i].log|
      ensures CommitOk(n, i, k)
    {
      assert CommitOk(m, i, k);
    }
    forall j | 0 <= j < |n.threads|
      ensures ThreadOk(s0, n, n.threads[j])
    {
      assert ThreadOk(s0, m, n.threads[j]);
      SameStateThread(s0, m, n, n.threads[j]);
    }
  }

  lemma SameStateThread(s0: State, m: Machine, n: Machine, t: Thread)
    requires Inv(s0) && ThreadOk(s0, m, t) && n.s == m.s && n.history == m.history
    ensures ThreadOk(s0, n, t)
  {
    hide Inv, Abs, Holds, Genuine, LedTo, Live;
  }

  lemma FrozenHolds(s0: State, s: State, p: (string, string))
    requires Inv(s0) && Frozen(s0, s)
    ensures Holds(s0, p) <==> Holds(s, p)
    ensures Holds(s0, p) ==> AccessAt(s.heap, SlotOf(p)) == AccessAt(s0.heap, SlotOf(p))
  {
    hide Slots, DistinctUsers, Mailboxes, Accesses, Boxes, Inodes, OwnKeys;
  }

  lemma FrozenSession(s0: State, s: State, ses: Session)
    requires Inv(s0) && Frozen(s0, s) && Genuine(s0, ses)
    ensures Genuine(s, ses)
  {
    hide Inv, SameUsers, SameAccesses, SameMailboxes, SameKeys;
    SessionCarries(s0, s, ses);
  }

  lemma OpenAccessInv(s: State, ses: Session, f: string)
    requires Inv(s) && Genuine(s, ses)
    ensures OpenAccess(s.heap, ses, f).Ok? <==> Holds(s, (ses.creds.username, f))
    ensures OpenAccess(s.heap, ses, f).Ok? ==>
              OpenAccess(s.heap, ses, f).value == AccessAt(s.heap, AccessId(ses.creds.username, f))
  {
    OpenAccessExact(s, ses, f);
  }

  lemma LiveIff(s: State, p: (string, string))
    requires Inv(s)
    ensures Live(Abs(s), p) <==>
              Holds(s, p) && IsMailbox(s.heap, AccessAt(s.heap, SlotOf(p)).mailbox) &&
              IsInode(s.heap, MailboxAt(s.heap, AccessAt(s.heap, SlotOf(p)).mailbox).inode) &&
              OpensInode(s.heap, AccessAt(s.heap, SlotOf(p)).mailbox)
    ensures Holds(s, p) ==>
              var access := AccessAt(s.heap, SlotOf(p));
              MailboxUnder(s.heap, access.mailbox, access.key) && MailboxOk(s, access.mailbox)
  {
    hide Slots, DistinctUsers, Boxes, Inodes, OwnKeys;
    ViewExact(s, p);
    if Holds(s, p) {
      assert AccessOk(s, SlotOf(p));
      assert MailboxOk(s, AccessAt(s.heap, SlotOf(p)).mailbox);
    }
  }

  lemma AccessStep(s0: State, m: Machine, tid: nat)
    requires Inv(s0) && MachineOk(s0, m) && tid < |m.threads| && m.threads[tid].phase.AtAccess?
    ensures MachineOk(s0, Advance(m, tid))
  {
    hide Inv, SameUsers, SameAccesses, SameMailboxes, SameKeys, Abs, Holds, Genuine, OpenAccess, Live, CommitsOk, FileOk;
    var t := m.threads[tid];
    assert ThreadOk(s0, m, t);
    FrozenSession(s0, m.s, t.ses);
    OpenAccessInv(m.s, t.ses, t.filename);
    FrozenHolds(s0, m.s, NameAt(t));
    LiveIff(s0, NameAt(t));
    var phase := match OpenAccess(m.s.heap, t.ses, t.filename)
                 case Err(e) => Failed(e)
                 case Ok(access) => AtMailbox(access);
    MoveKeeps(s0, m, tid, phase);
  }

  lemma MailboxStep(s0: State, m: Machine, tid: nat)
    requires Inv(s0) && MachineOk(s0, m) && tid < |m.threads| && m.threads[tid].phase.AtMailbox?
    ensures MachineOk(s0, Advance(m, tid))
  {
    hide Inv, Abs, Holds, Genuine, Live, CommitsOk, FileOk, SameUsers;
    var t := m.threads[tid];
    assert ThreadOk(s0, m, t);
    LiveIff(s0, NameAt(t));
    var access := t.phase.access;
    assert OpenMailbox(m.s.heap, access.mailbox, access.key) == Ok(MailboxAt(s0.heap, access.mailbox));
    MoveKeeps(s0, m, tid, AtInode(MailboxAt(s0.heap, access.mailbox)));
  }

  /** What a thread finds when it opens the inode. */
  lemma FreshSight(s0: State, m: Machine, t: Thread, node: MailboxNode)
    requires Inv(s0) && MachineOk(s0, m) && ThreadOk(s0, m, t) && t.phase == AtInode(node)
    ensures OpenInode(m.s.heap, node).Err? ==> !Live(Abs(s0), NameAt(t))
    ensures OpenInode(m.s.heap, node).Ok? ==>
              var inode := OpenInode(m.s.heap, node).value;
              var sight := Sight(HistoryOf(m, node.inode).current, |HistoryOf(m, node.inode).log|);
              && OnFile(s0, m, NameAt(t), node, sight)
              && GoodInode(m.s.heap, node.fileKey, inode)
              && Flatten(Plaintexts(m.s.heap, inode.blocks)) == Text(m.history[node.inode], sight.visible)
  {
    hide Slots, Users, DistinctUsers, Mailboxes, Accesses, Boxes, OwnKeys, Holds, SameUsers, Live, CommitsOk;
    LiveIff(s0, NameAt(t));
    if OpenInode(m.s.heap, node).Ok? {
      assert InodeOk(m.s, node.inode);
      assert FileOk(s0, m, node.inode);
    }
  }

  lemma InodeStep(s0: State, m: Machine, tid: nat)
    requires Inv(s0) && MachineOk(s0, m) && tid < |m.threads| && m.threads[tid].phase.AtInode?
    ensures MachineOk(s0, Advance(m, tid))
  {
    hide Inv, Frozen, Abs, Holds, Genuine, Live, CommitsOk, FileOk, OnFile, OpenInode;
    var t := m.threads[tid];
    assert ThreadOk(s0, m, t);
    FreshSight(s0, m, t, t.phase.node);
    var node := t.phase.node;
    if OpenInode(m.s.heap, node).Err? {
      MoveKeeps(s0, m, tid, Failed(OpenInode(m.s.heap, node).error));
    } else {
      var inode := OpenInode(m.s.heap, node).value;
      var sight := Sight(HistoryOf(m, node.inode).current, |HistoryOf(m, node.inode).log|);
      OnFileSight(s0, m, t, node, sight);
      if t.task.Append? {
        assert Chunk(t.task.piece)[..0] == [];
        assert inode.(size := inode.size + 0) == inode;
        assert Text(m.history[node.inode], sight.visible) + [] == Text(m.history[node.inode], sight.visible);
        MoveKeeps(s0, m, tid, Writing(node, inode, 0, sight));
      } else {
        assert [] + Flatten(Plaintexts(m.s.heap, inode.blocks)) == Flatten(Plaintexts(m.s.heap, inode.blocks));
        MoveKeeps(s0, m, tid, Reading(node, inode.blocks, [], sight));
      }
    }
  }

  lemma OnFileSight(s0: State, m: Machine, t: Thread, node: MailboxNode, sight: Sight)
    requires Inv(s0) && OnFile(s0, m, NameAt(t), node, sight)
    ensures node.inode in m.history && SightOk(m.history[node.inode], sight)
  {
  }

  lemma BlockStep(s0: State, m: Machine, tid: nat)
    requires Inv(s0) && MachineOk(s0, m) && tid < |m.threads| && m.threads[tid].phase.Reading?
    ensures MachineOk(s0, Advance(m, tid))
  {
    hide Inv, Frozen, Abs, Holds, Genuine, Live, CommitsOk, FileOk, OnFile;
    var t := m.threads[tid];
    assert ThreadOk(s0, m, t);
    var Reading(node, left, data, sight) := t.phase;
    OnFileSight(s0, m, t, node, sight);
    if left == [] {
      assert data + [] == data;
      MoveKeeps(s0, m, tid, Loaded(node, data, sight));
    } else {
      var bytes := BlockBytes(m.s.heap, left[0]);
      assert IsBlock(m.s.heap, left[0]);
      assert Plaintexts(m.s.heap, left)[1..] == Plaintexts(m.s.heap, left[1..]);
      assert data + (bytes + Flatten(Plaintexts(m.s.heap, left[1..]))) ==
             data + bytes + Flatten(Plaintexts(m.s.heap, left[1..]));
      MoveKeeps(s0, m, tid, Reading(node, left[1..], data + bytes, sight));
    }
  }

  // ---- The two writes

  ghost predicate SameOrLonger(before: History, after: History) {
    after == before ||
    (after.initial == before.initial && |after.log| == |before.log| + 1 && after.log[..|before.log|] == before.log)
  }

  /** Blocks stay, histories only grow. */
  ghost predicate Grows(m: Machine, n: Machine) {
    && BlocksKept(m.s.heap, n.s.heap)
    && forall i :: i in m.history ==> i in n.history && SameOrLonger(m.history[i], n.history[i])
  }

  lemma ThreadStays(s0: State, m: Machine, n: Machine, t: Thread)
    requires Inv(s0) && ThreadOk(s0, m, t) && Grows(m, n)
    ensures ThreadOk(s0, n, t)
  {
    hide Inv, Abs, Holds, Genuine, Live, LedTo, SightOk, Distinct;
    match t.phase
    case Writing(node, inode, k, sight) =>
      SightStays(m.history[node.inode], n.history[node.inode], sight);
      SamePlaintexts(m.s.heap, n.s.heap, inode.blocks);
    case Reading(node, left, data, sight) =>
      SightStays(m.history[node.inode], n.history[node.inode], sight);
      SamePlaintexts(m.s.heap, n.s.heap, left);
    case Loaded(node, data, sight) =>
      SightStays(m.history[node.inode], n.history[node.inode], sight);
    case _ =>
  }

  lemma SamePlaintexts(h: Heap, g: Heap, blocks: seq<Id>)
    requires BlocksKept(h, g) && forall j :: 0 <= j < |blocks| ==> IsBlock(h, blocks[j])
    ensures Plaintexts(g, blocks) == Plaintexts(h, blocks)
    ensures forall j :: 0 <= j < |blocks| ==> IsBlock(g, blocks[j]) && g[blocks[j]] == h[blocks[j]]
  {
    assert forall j :: 0 <= j < |blocks| ==> IsBlock(h, blocks[j]) && BlockBytes(g, blocks[j]) == BlockBytes(h, blocks[j]);
  }

  /** The state with one more block. */
  lemma OneMoreBlock(s: State, chunk: Bytes, key: SymKey)
    requires Inv(s)
    ensures var t := State(s.heap[Random(s.next) := Sealed(key, BlockPlain(chunk))], s.keys, s.next + 1);
            && Inv(t) && SameUsers(s, t) && Abs(t) == Abs(s)
            && BlocksKept(s.heap, t.heap) && SameInodes(s.heap, t.heap)
            && SameAccesses(s.heap, t.heap) && SameMailboxes(s.heap, t.heap)
            && Random(s.next) !in s.heap
  {
    hide Inv, Abs, SameUsers, BlocksKept, SameInodes, SameAccesses, SameMailboxes, SealedBlocks;
    var s1 := Draw(s, 1);
    DrawKeeps(s, 1);
    DrawnRange(s, 0, 1);
    NotDrawn(s);
    SlotsOf(s1);
    AddBlocksKeeps(s1, s.next, [chunk], key);
    AddBlocksFrame(s1, s.next, [chunk], key);
    SameUsersTransitive(s, s1, AddBlocks(s1, s.next, [chunk], key));
    OneSealed(s.heap, s.next, chunk, key);
  }

  lemma OneSealed(h: Heap, base: nat, chunk: Bytes, key: SymKey)
    ensures h + SealedBlocks(base, [chunk], key) == h[Random(base) := Sealed(key, BlockPlain(chunk))]
  {
    SealedBlocksAt(base, [chunk], key);
    var one := SealedBlocks(base, [chunk], key);
    assert one[Random(base + 0)] == Sealed(key, BlockPlain(chunk));
    assert one == map[Random(base) := Sealed(key, BlockPlain(chunk))];
  }

  lemma FrozenStill(s0: State, s: State, t: State)
    requires Inv(s0) && Frozen(s0, s) && Inv(t) && SameUsers(s, t)
    requires SameAccesses(s.heap, t.heap) && SameMailboxes(s.heap, t.heap)
    requires SameKeys(s.heap, t.heap) && SameKeys(t.heap, s.heap)
    ensures Frozen(s0, t)
  {
    hide Inv;
    SameUsersTransitive(s0, s, t);
  }

  lemma SameFiles(s: State, t: State, i: Id)
    requires Inv(s) && Inv(t) && Abs(s).files == Abs(t).files
    ensures IsInode(s.heap, i) <==> IsInode(t.heap, i)
    ensures IsInode(s.heap, i) ==> AbsFile(s.heap, i) == AbsFile(t.heap, i)
  {
    hide Inv, Abs, AbsFile;
    FileEntry(s, i);
    FileEntry(t, i);
  }

  /** A block written to a fresh id disturbs nobody. */
  lemma StateStepKeeps(s0: State, m: Machine, t: State)
    requires Inv(s0) && MachineOk(s0, m) && Inv(t) && SameUsers(m.s, t) && Abs(t) == Abs(m.s)
    requires BlocksKept(m.s.heap, t.heap) && SameInodes(m.s.heap, t.heap)
    requires SameAccesses(m.s.heap, t.heap) && SameMailboxes(m.s.heap, t.heap)
    ensures MachineOk(s0, m.(s := t))
  {
    hide Inv, Abs, SameUsers, SameAccesses, SameMailboxes, ThreadOk, Text, HistoryOk, AbsFile;
    var n := m.(s := t);
    FrozenStill(s0, m.s, t);
    forall i | IsInode(n.s.heap, i)
      ensures IsInode(s0.heap, i) && FileOk(s0, n, i)
    {
      SameFiles(m.s, t, i);
      assert FileOk(s0, m, i);
    }
    forall i, k | i in n.history && 0 <= k < |n.history[i].log|
      ensures CommitOk(n, i, k)
    {
      assert CommitOk(m, i, k);
    }
    forall j | 0 <= j < |n.threads|
      ensures ThreadOk(s0, n, n.threads[j])
    {
      assert ThreadOk(s0, m, m.threads[j]);
      ThreadStays(s0, m, n, m.threads[j]);
    }
  }

  lemma WriteBlockStep(s0: State, m: Machine, tid: nat)
    requires Inv(s0) && MachineOk(s0, m) && tid < |m.threads| && m.threads[tid].phase.Writing?
    requires m.threads[tid].task.Append? && m.threads[tid].phase.k < |Chunk(m.threads[tid].task.piece)|
    ensures MachineOk(s0, Advance(m, tid))
  {
    hide Inv, Frozen, Abs, Holds, Genuine, Live, CommitsOk, FileOk, OnFile, GoodInode, SameUsers, SameInodes;
    var t := m.threads[tid];
    assert ThreadOk(s0, m, t);
    var Writing(node, inode, k, sight) := t.phase;
    var chunk := Chunk(t.task.piece)[k];
    var s' := State(m.s.heap[Random(m.s.next) := Sealed(FileKeys(node.fileKey), BlockPlain(chunk))], m.s.keys, m.s.next + 1);
    InvNow(s0, m);
    OneMoreBlock(m.s, chunk, FileKeys(node.fileKey));
    StateStepKeeps(s0, m, s');
    var n := m.(s := s');
    ThreadOkIn(s0, n, tid);
    OnFileSight(s0, m, t, node, sight);
    var longer := inode.(blocks := inode.blocks + [Random(m.s.next)]);
    OneMoreChunk(m, n, t, node, inode, k, sight);
    MoveKeeps(s0, n, tid, Writing(node, longer, k + 1, sight));
  }

  lemma InvNow(s0: State, m: Machine)
    requires Inv(s0) && MachineOk(s0, m)
    ensures Inv(m.s)
  {
    hide Inv, ThreadOk, FileOk, CommitsOk;
  }

  lemma ThreadOkIn(s0: State, m: Machine, tid: nat)
    requires Inv(s0) && MachineOk(s0, m) && tid < |m.threads|
    ensures ThreadOk(s0, m, m.threads[tid])
  {
    hide Inv, ThreadOk, FileOk, CommitsOk, Frozen;
  }

  lemma OneMoreChunk(m: Machine, n: Machine, t: Thread, node: MailboxNode, inode: Inode, k: nat, sight: Sight)
    requires node.inode in m.history && SightOk(m.history[node.inode], sight) && n.history == m.history
    requires WriterOk(m, t, node, inode, k, sight) && k < |Chunk(t.task.piece)| && BlocksKept(m.s.heap, n.s.heap)
    requires Random(m.s.next) !in m.s.heap
    requires Random(m.s.next) in n.s.heap &&
             n.s.heap[Random(m.s.next)] == Sealed(FileKeys(node.fileKey), BlockPlain(Chunk(t.task.piece)[k]))
    ensures WriterOk(n, t, node, inode.(blocks := inode.blocks + [Random(m.s.next)]), k + 1, sight)
  {
    hide NoOverlap, Chunk;
    var text := Text(m.history[node.inode], sight.visible);
    ChunkText(m.s.heap, n.s.heap, inode.blocks, Random(m.s.next), text, Chunk(t.task.piece), k);
    assert forall j :: 0 <= j < |inode.blocks| ==> inode.blocks[j] in m.s.heap;
  }

  lemma ChunkText(h: Heap, g: Heap, blocks: seq<Id>, id: Id, text: Bytes, chunks: seq<Bytes>, k: nat)
    requires BlocksKept(h, g) && forall j :: 0 <= j < |blocks| ==> IsBlock(h, blocks[j])
    requires k < |chunks| && IsBlock(g, id) && BlockBytes(g, id) == chunks[k]
    requires Flatten(Plaintexts(h, blocks)) == text + Flatten(chunks[..k])
    ensures Flatten(Plaintexts(g, blocks + [id])) == text + Flatten(chunks[..k + 1])
    ensures |Flatten(chunks[..k + 1])| == |Flatten(chunks[..k])| + |chunks[k]|
    ensures |Flatten(Plaintexts(g, blocks + [id]))| == |Flatten(Plaintexts(h, blocks))| + |chunks[k]|
    ensures forall j :: 0 <= j < |blocks| ==> IsBlock(g, blocks[j]) && g[blocks[j]] == h[blocks[j]]
  {
    SamePlaintexts(h, g, blocks);
    assert Plaintexts(g, blocks + [id]) == Plaintexts(h, blocks) + [chunks[k]];
    FlattenSnoc(Plaintexts(h, blocks), chunks[k]);
    assert chunks[..k + 1] == chunks[..k] + [chunks[k]];
    FlattenSnoc(chunks[..k], chunks[k]);
    assert text + Flatten(chunks[..k]) + chunks[k] == text + (Flatten(chunks[..k]) + chunks[k]);
  }

  // ---- The commit

  lemma CommitState(s: State, node: MailboxNode, inode: Inode)
    requires Inv(s) && IsInode(s.heap, node.inode) && s.heap[node.inode].key == FileKeys(node.fileKey)
    requires GoodInode(s.heap, node.fileKey, inode)
    ensures var t := SetInode(s, node.inode, node.fileKey, inode);
            && Inv(t) && SameUsers(s, t)
            && Abs(t).files == Abs(s).files[node.inode := File(Flatten(Plaintexts(s.heap, inode.blocks)), |inode.blocks|)]
            && BlocksKept(s.heap, t.heap) && SameAccesses(s.heap, t.heap) && SameMailboxes(s.heap, t.heap)
            && SameKeys(s.heap, t.heap) && SameKeys(t.heap, s.heap)
  {
    hide Inv, Abs, SameUsers, SameAccesses, SameMailboxes, Plaintexts, Distinct;
    SlotsOf(s);
    SetInodeKeeps(s, node.inode, node.fileKey, inode);
    SetInodeFrame(s, node.inode, node.fileKey, inode);
  }

  /** The writer's copy once all of its blocks are stored. */
  lemma WholePiece(m: Machine, t: Thread, node: MailboxNode, inode: Inode, sight: Sight)
    requires node.inode in m.history && SightOk(m.history[node.inode], sight)
    requires t.task.Append? && WriterOk(m, t, node, inode, |Chunk(t.task.piece)|, sight)
    ensures GoodInode(m.s.heap, node.fileKey, inode.(size := inode.size + |t.task.piece|))
    ensures Flatten(Plaintexts(m.s.heap, inode.blocks)) == Text(m.history[node.inode], sight.visible) + t.task.piece
  {
    hide NoOverlap, Chunk;
    var chunks := Chunk(t.task.piece);
    assert chunks[..|chunks|] == chunks;
    ChunkFlatten(t.task.piece);
  }

  lemma InodeNow(s0: State, m: Machine, p: (string, string), node: MailboxNode, sight: Sight)
    requires Inv(s0) && MachineOk(s0, m) && OnFile(s0, m, p, node, sight)
    ensures IsInode(m.s.heap, node.inode) && m.s.heap[node.inode].key == FileKeys(node.fileKey)
  {
    hide Inv, ThreadOk, FileOk, CommitsOk, SameUsers, SameAccesses, SameMailboxes, LedTo, SightOk;
  }

  lemma WriteInodeStep(s0: State, m: Machine, tid: nat)
    requires Inv(s0) && MachineOk(s0, m) && tid < |m.threads| && m.threads[tid].phase.Writing?
    requires m.threads[tid].task.Append? && m.threads[tid].phase.k >= |Chunk(m.threads[tid].task.piece)|
    ensures MachineOk(s0, Advance(m, tid))
  {
    hide Inv, Frozen, Abs, Holds, Genuine, Live, SameUsers, SameAccesses, SameMailboxes, BlocksKept, SameKeys, WriterOk,
      Text, HistoryOk, SightOk, FileOk, CommitsOk, ThreadOk, MachineOk, GoodInode, Plaintexts, Chunk;
    ThreadOkIn(s0, m, tid);
    var t := m.threads[tid];
    var Writing(node, inode, k, sight) := t.phase;
    WriterFacts(s0, m, t, node, inode, k, sight);
    var longer := inode.(size := inode.size + |t.task.piece|);
    InvNow(s0, m);
    InodeNow(s0, m, NameAt(t), node, sight);
    WholePiece(m, t, node, inode, sight);
    CommitState(m.s, node, longer);
    var s' := SetInode(m.s, node.inode, node.fileKey, longer);
    var n := Advance(m, tid);
    FrozenNow(s0, m);
    FrozenStill(s0, m.s, s');
    CommitFiles(s0, m, n, tid, node, sight);
    CommitCommits(s0, m, n, tid, node, sight);
    CommitThreads(s0, m, n, tid, node, sight);
    Assemble(s0, n);
  }

  lemma Assemble(s0: State, n: Machine)
    requires Inv(s0) && Frozen(s0, n.s) && CommitsOk(n)
    requires forall i :: IsInode(n.s.heap, i) ==> IsInode(s0.heap, i) && FileOk(s0, n, i)
    requires forall j :: 0 <= j < |n.threads| ==> ThreadOk(s0, n, n.threads[j])
    ensures MachineOk(s0, n)
  {
    hide Inv, Frozen, ThreadOk, FileOk, CommitsOk;
  }

  lemma FrozenNow(s0: State, m: Machine)
    requires Inv(s0) && MachineOk(s0, m)
    ensures Frozen(s0, m.s)
  {
    hide Inv, ThreadOk, FileOk, CommitsOk, Frozen;
  }

  lemma WriterFacts(s0: State, m: Machine, t: Thread, node: MailboxNode, inode: Inode, k: nat, sight: Sight)
    requires Inv(s0) && ThreadOk(s0, m, t) && t.phase == Writing(node, inode, k, sight)
    requires t.task.Append? && k >= |Chunk(t.task.piece)|
    ensures OnFile(s0, m, NameAt(t), node, sight) && node.inode in m.history && SightOk(m.history[node.inode], sight)
    ensures WriterOk(m, t, node, inode, |Chunk(t.task.piece)|, sight) && Genuine(s0, t.ses)
  {
    hide Inv, Abs, Holds, Genuine, Live, LedTo, SightOk, GoodInode, Text, Plaintexts;
  }

  lemma CommitFiles(s0: State, m: Machine, n: Machine, tid: nat, node: MailboxNode, sight: Sight)
    requires Inv(s0) && MachineOk(s0, m) && tid < |m.threads| && m.threads[tid].task.Append?
    requires node.inode in m.history && SightOk(m.history[node.inode], sight)
    requires n.history == m.history[node.inode := Committed(m.history[node.inode], tid, m.threads[tid].task.piece, sight)]
    requires Inv(m.s) && Inv(n.s) && IsInode(m.s.heap, node.inode)
    requires exists blocks :: Abs(n.s).files == Abs(m.s).files[node.inode := File(
               Text(m.history[node.inode], sight.visible) + m.threads[tid].task.piece, blocks)]
    ensures forall i :: IsInode(n.s.heap, i) ==> IsInode(s0.heap, i) && FileOk(s0, n, i)
  {
    hide Inv, Abs, ThreadOk, CommitsOk, Frozen, AbsFile, Text, SightOk;
    var piece := m.threads[tid].task.piece;
    forall i | IsInode(n.s.heap, i)
      ensures IsInode(s0.heap, i) && FileOk(s0, n, i)
    {
      FileEntry(n.s, i);
      FileEntry(m.s, i);
      assert FileOk(s0, m, i);
      if i == node.inode {
        CommitKeepsHistory(m.history[i], tid, piece, sight);
      }
    }
  }

  lemma CommitCommits(s0: State, m: Machine, n: Machine, tid: nat, node: MailboxNode, sight: Sight)
    requires Inv(s0) && MachineOk(s0, m) && tid < |m.threads| && m.threads[tid].task.Append?
    requires m.threads[tid].phase.Writing? && node.inode in m.history
    requires n.history == m.history[node.inode := Committed(m.history[node.inode], tid, m.threads[tid].task.piece, sight)]
    requires n.threads == m.threads[tid := m.threads[tid].(phase := Appended(node))]
    ensures CommitsOk(n)
  {
    hide Inv, ThreadOk, FileOk, Frozen;
    forall i, k | i in n.history && 0 <= k < |n.history[i].log|
      ensures CommitOk(n, i, k)
    {
      forall l | 0 <= l < |m.history[i].log|
        ensures m.history[i].log[l].author != tid && n.history[i].log[l] == m.history[i].log[l]
      {
        assert CommitOk(m, i, l);
      }
      if k < |m.history[i].log| {
        assert CommitOk(m, i, k);
      }
    }
  }

  lemma CommitThreads(s0: State, m: Machine, n: Machine, tid: nat, node: MailboxNode, sight: Sight)
    requires Inv(s0) && MachineOk(s0, m) && tid < |m.threads| && m.threads[tid].task.Append?
    requires node.inode in m.history && BlocksKept(m.s.heap, n.s.heap)
    requires OnFile(s0, m, NameAt(m.threads[tid]), node, sight) && Genuine(s0, m.threads[tid].ses)
    requires n.history == m.history[node.inode := Committed(m.history[node.inode], tid, m.threads[tid].task.piece, sight)]
    requires n.threads == m.threads[tid := m.threads[tid].(phase := Appended(node))]
    ensures forall j :: 0 <= j < |n.threads| ==> ThreadOk(s0, n, n.threads[j])
  {
    hide Inv, FileOk, Frozen, CommitsOk, BlocksKept, SightOk, LedTo, Genuine, WriterOk, ReaderOk;
    assert Grows(m, n) by {
      var log := m.history[node.inode].log;
      assert n.history[node.inode].log[..|log|] == log;
    }
    forall j | 0 <= j < |n.threads|
      ensures ThreadOk(s0, n, n.threads[j])
    {
      if j != tid {
        ThreadOkIn(s0, m, j);
        ThreadStays(s0, m, n, m.threads[j]);
      }
    }
  }

  // ---- Every schedule

  lemma AdvanceKeeps(s0: State, m: Machine, tid: nat)
    requires Inv(s0) && MachineOk(s0, m) && tid < |m.threads|
    ensures MachineOk(s0, Advance(m, tid))
  {
    hide Inv, MachineOk, ReadAccess, ReadMailbox, ReadInode, ReadBlock, WriteBlock, WriteInode;
    match m.threads[tid].phase
    case AtAccess => AccessStep(s0, m, tid);
    case AtMailbox(_) => MailboxStep(s0, m, tid);
    case AtInode(_) => InodeStep(s0, m, tid);
    case Writing(_, _, k, _) =>
      if m.threads[tid].task.Append? {
        if k < |Chunk(m.threads[tid].task.piece)| {
          WriteBlockStep(s0, m, tid);
        } else {
          WriteInodeStep(s0, m, tid);
        }
      }
    case Reading(_, _, _, _) => BlockStep(s0, m, tid);
    case _ =>
  }

  lemma {:induction false} ScheduleKeeps(s0: State, m: Machine, tids: seq<nat>)
    requires Inv(s0) && MachineOk(s0, m)
    ensures MachineOk(s0, Schedule(m, tids))
    decreases |tids|
  {
    hide Inv, MachineOk, Advance;
    if tids != [] {
      if tids[0] < |m.threads| {
        AdvanceKeeps(s0, m, tids[0]);
        ScheduleKeeps(s0, Advance(m, tids[0]), tids[1..]);
      } else {
        ScheduleKeeps(s0, m, tids[1..]);
      }
    }
  }

  /** Threads about to make their first call, on any datastore. */
  ghost function Start(s0: State, threads: seq<Thread>): Machine {
    Machine(s0, threads, map i | i in s0.heap && IsInode(s0.heap, i) :: History(AbsFile(s0.heap, i).content, [], []))
  }

  lemma StartOk(s0: State, threads: seq<Thread>)
    requires Inv(s0)
    requires forall j :: 0 <= j < |threads| ==> threads[j].phase.AtAccess? && Genuine(s0, threads[j].ses)
    ensures MachineOk(s0, Start(s0, threads))
  {
    hide Slots, DistinctUsers, Mailboxes, Accesses, Boxes, Inodes, OwnKeys;
    var m := Start(s0, threads);
    forall i | IsInode(m.s.heap, i)
      ensures FileOk(s0, m, i)
    {
      assert Pieces([], []) == [];
      assert m.history[i].initial + [] == m.history[i].initial;
    }
  }

  /** `data` is the first content, then whole pieces, each at most once and in commit
      order; all those committed by then exactly if none of them overlapped another. */
  ghost predicate WholeText(history: History, sight: Sight, data: Bytes) {
    && sight.count <= |history.log| && Ascending(sight.visible, sight.count)
    && data == Text(history, sight.visible)
    && (sight.visible == UpTo(sight.count) <==> NoOverlap(history.log, sight.count))
  }

  /** A finished load: a whole text of the file its name held at the start. */
  ghost predicate WholeLoad(s0: State, m: Machine, t: Thread)
    requires Inv(s0) && t.phase.Loaded?
  {
    var i := t.phase.node.inode;
    && FileOf(Abs(s0), NameAt(t)) == Some(i) && i in Abs(s0).files && i in m.history
    && m.history[i].initial == Abs(s0).files[i].content
    && WholeText(m.history[i], t.phase.sight, t.phase.data)
  }

  /** Under every schedule, appenders that stop midway included: each load that ends is
      whole, each commit is one appender's whole piece, committed once, and a thread
      fails only on a name that was dead from the start. */
  lemma NoTornFiles(s0: State, threads: seq<Thread>, tids: seq<nat>, j: nat)
    requires Inv(s0) && j < |threads|
    requires forall k :: 0 <= k < |threads| ==> threads[k].phase.AtAccess? && Genuine(s0, threads[k].ses)
    ensures var m := Schedule(Start(s0, threads), tids);
            && CommitsOk(m)
            && |m.threads| == |threads| && NameAt(m.threads[j]) == NameAt(threads[j])
            && (m.threads[j].phase.Failed? ==> !Live(Abs(s0), NameAt(threads[j])))
            && (m.threads[j].phase.Loaded? ==> WholeLoad(s0, m, m.threads[j]))
  {
    hide Inv, Abs, Live, Frozen, AbsFile, Text, Ascending, NoOverlap, CommitsOk;
    var m := Schedule(Start(s0, threads), tids);
    StartOk(s0, threads);
    ScheduleKeeps(s0, Start(s0, threads), tids);
    ThreadsStay(Start(s0, threads), tids);
    ThreadOkIn(s0, m, j);
    if m.threads[j].phase.Loaded? {
      LoadedFrom(s0, m, m.threads[j]);
    }
  }

  lemma LoadedFrom(s0: State, m: Machine, t: Thread)
    requires Inv(s0) && MachineOk(s0, m) && ThreadOk(s0, m, t) && t.phase.Loaded?
    ensures var i := t.phase.node.inode;
            && FileOf(Abs(s0), NameAt(t)) == Some(i) && IsInode(s0.heap, i) && i in m.history
            && i in Abs(s0).files && m.history[i].initial == Abs(s0).files[i].content
  {
    hide Inv, Abs, Live, SameUsers, SameAccesses, SameMailboxes, AbsFile, Text, SightOk, CommitsOk;
    HeldCap(s0, NameAt(t));
    var i := t.phase.node.inode;
    assert IsInode(m.s.heap, i);
    assert FileOk(s0, m, i);
    FileEntry(s0, i);
  }

  lemma {:induction false} ThreadsStay(m: Machine, tids: seq<nat>)
    ensures var n := Schedule(m, tids);
            |n.threads| == |m.threads| && forall j :: 0 <= j < |m.threads| ==> NameAt(n.threads[j]) == NameAt(m.threads[j])
    decreases |tids|
  {
    hide OpenAccess, OpenMailbox, OpenInode, OpenBlock, Chunk;
    if tids != [] {
      var n := if tids[0] < |m.threads| then Advance(m, tids[0]) else m;
      ThreadsStay(n, tids[1..]);
    }
  }
}
