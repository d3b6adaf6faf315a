/** What particular schedules of `Interleaving.dfy` do: a thread that runs alone is the
    service, and of two appends that overlap one is lost. */
module Schedules {
  import opened Basics
  import opened Ids
  import opened Blocks
  import opened Records
  import opened Services
  import opened Invariant
  import opened CapabilityFs
  import opened Abstraction
  import opened Edits
  import opened Simulation
  import opened Interleaving

  /** Only thread `tid` moves. */
  predicate Alone(tid: nat, tids: seq<nat>) {
    forall k :: 0 <= k < |tids| ==> tids[k] == tid
  }

  /** `n` differs from `m` in the datastore, the histories and the phase of thread `tid`. */
  predicate OnlyMoved(m: Machine, n: Machine, tid: nat)
    requires tid < |m.threads|
  {
    |n.threads| == |m.threads| && n.threads == m.threads[tid := m.threads[tid].(phase := n.threads[tid].phase)]
  }

  // ---- Loading alone

  lemma {:induction false} ReadAlone(m: Machine, tid: nat) returns (tids: seq<nat>)
    requires tid < |m.threads| && m.threads[tid].phase.Reading?
    ensures Alone(tid, tids)
    ensures var n := Schedule(m, tids);
            && n.s == m.s && n.history == m.history && OnlyMoved(m, n, tid)
            && var Reading(node, left, data, sight) := m.threads[tid].phase;
            n.threads[tid].phase ==
              match ReadBlocks(m.s.heap, left, FileKeys(node.fileKey))
              case Ok(rest) => Loaded(node, data + rest, sight)
              case Err(e) => Failed(e)
    decreases |m.threads[tid].phase.left|
  {
    hide OpenBlock;
    var Reading(node, left, data, sight) := m.threads[tid].phase;
    var n := Advance(m, tid);
    if left != [] && OpenBlock(m.s.heap, left[0], FileKeys(node.fileKey)).Ok? {
      var rest := ReadAlone(n, tid);
      tids := [tid] + rest;
      assert tids[1..] == rest;
      var bytes := OpenBlock(m.s.heap, left[0], FileKeys(node.fileKey)).value;
      assert forall more: Bytes :: data + bytes + more == data + (bytes + more);
    } else {
      tids := [tid];
      assert data + [] == data;
      assert Schedule(n, []) == n;
    }
  }

  /** A thread that loads with no other in between does what `LoadFile` does. */
  lemma LoadAlone(m: Machine, tid: nat) returns (tids: seq<nat>)
    requires tid < |m.threads| && m.threads[tid].phase.AtAccess? && m.threads[tid].task.Load?
    ensures Alone(tid, tids)
    ensures var n := Schedule(m, tids);
            && n.s == m.s && OnlyMoved(m, n, tid)
            && match LoadFile(m.s, m.threads[tid].ses, m.threads[tid].filename)
               case Ok(data) => n.threads[tid].phase.Loaded? && n.threads[tid].phase.data == data
               case Err(e) => n.threads[tid].phase == Failed(e)
  {
    hide ReadBlocks, OpenAccess, OpenMailbox, OpenInode;
    var walk := WalkAlone(m, tid);
    var n := Schedule(m, walk);
    if n.threads[tid].phase.Reading? {
      var rest := ReadAlone(n, tid);
      tids := walk + rest;
      ScheduleConcat(m, walk, rest);
      assert forall data: Bytes :: [] + data == data;
    } else {
      tids := walk;
    }
  }

  lemma {:induction false} ScheduleConcat(m: Machine, first: seq<nat>, second: seq<nat>)
    ensures Schedule(m, first + second) == Schedule(Schedule(m, first), second)
    decreases |first|
  {
    hide Advance;
    if first == [] {
      assert first + second == second;
    } else {
      var n := if first[0] < |m.threads| then Advance(m, first[0]) else m;
      assert (first + second)[1..] == first[1..] + second;
      ScheduleConcat(n, first[1..], second);
    }
  }

  lemma OneStep(m: Machine, tid: nat)
    requires tid < |m.threads|
    ensures Schedule(m, [tid]) == Advance(m, tid)
  {
    hide Advance;
    assert Schedule(Advance(m, tid), []) == Advance(m, tid);
  }

  /** Where the walk leads a thread. */
  function AfterWalk(m: Machine, t: Thread): Phase {
    match WalkInode(m.s.heap, t.ses, t.filename)
    case Err(e) => Failed(e)
    case Ok(w) =>
      var sight := Sight(HistoryOf(m, w.node.inode).current, |HistoryOf(m, w.node.inode).log|);
      if t.task.Append? then Writing(w.node, w.inode, 0, sight) else Reading(w.node, w.inode.blocks, [], sight)
  }

  /** The steps up to the inode. */
  lemma WalkAlone(m: Machine, tid: nat) returns (tids: seq<nat>)
    requires tid < |m.threads| && m.threads[tid].phase.AtAccess?
    ensures Alone(tid, tids)
    ensures var (n, t) := (Schedule(m, tids), m.threads[tid]);
            && n.s == m.s && n.history == m.history && OnlyMoved(m, n, tid)
            && n.threads[tid].phase == AfterWalk(m, t)
  {
    hide OpenAccess, OpenMailbox, OpenInode;
    tids := [tid];
    OneStep(m, tid);
    var n := Advance(m, tid);
    if n.threads[tid].phase.AtMailbox? {
      tids := [tid] + [tid];
      ScheduleConcat(m, [tid], [tid]);
      OneStep(n, tid);
      var k := Advance(n, tid);
      if k.threads[tid].phase.AtInode? {
        tids := [tid] + [tid] + [tid];
        ScheduleConcat(m, [tid] + [tid], [tid]);
        OneStep(k, tid);
      }
    }
  }

  // ---- Appending alone

  lemma SealedCons(h: Heap, base: nat, chunks: seq<Bytes>, key: SymKey)
    requires chunks != []
    ensures h[Random(base) := Sealed(key, BlockPlain(chunks[0]))] + SealedBlocks(base + 1, chunks[1..], key) ==
            h + SealedBlocks(base, chunks, key)
  {
    hide SealedBlocks;
    var l := h[Random(base) := Sealed(key, BlockPlain(chunks[0]))] + SealedBlocks(base + 1, chunks[1..], key);
    var r := h + SealedBlocks(base, chunks, key);
    forall id
      ensures id in l <==> id in r
      ensures id in l ==> l[id] == r[id]
    {
      SealedEntry(base, chunks, key, id);
      SealedEntry(base + 1, chunks[1..], key, id);
    }
  }

  /** The state after the rest of an append, from chunk `k` on. */
  function Finished(s: State, node: MailboxNode, inode: Inode, piece: Bytes, k: nat): State
    requires k <= |Chunk(piece)|
  {
    var key := FileKeys(node.fileKey);
    var chunks := Chunk(piece)[k..];
    State((s.heap + SealedBlocks(s.next, chunks, key))
            [node.inode := Sealed(key, InodePlain(Inode(inode.size + |piece|, inode.blocks + FreshIds(s.next, |chunks|))))],
          s.keys, s.next + |chunks|)
  }

  lemma {:induction false} WriteAlone(m: Machine, tid: nat) returns (tids: seq<nat>)
    requires tid < |m.threads| && m.threads[tid].phase.Writing? && m.threads[tid].task.Append?
    requires m.threads[tid].phase.k <= |Chunk(m.threads[tid].task.piece)|
    ensures Alone(tid, tids)
    ensures var (n, t) := (Schedule(m, tids), m.threads[tid]);
            && OnlyMoved(m, n, tid) && n.threads[tid].phase == Appended(t.phase.node)
            && n.s == Finished(m.s, t.phase.node, t.phase.inode, t.task.piece, t.phase.k)
            && n.history == m.history[t.phase.node.inode :=
                 Committed(HistoryOf(m, t.phase.node.inode), tid, t.task.piece, t.phase.sight)]
    decreases |Chunk(m.threads[tid].task.piece)| - m.threads[tid].phase.k
  {
    hide Chunk, SealedBlocks;
    var t := m.threads[tid];
    var Writing(node, inode, k, sight) := t.phase;
    var n := Advance(m, tid);
    var chunks := Chunk(t.task.piece);
    if k < |chunks| {
      var rest := WriteAlone(n, tid);
      tids := [tid] + rest;
      assert tids[1..] == rest;
      FinishedStep(m.s, node, inode, t.task.piece, k);
    } else {
      tids := [tid];
      OneStep(m, tid);
      FinishedLast(m.s, node, inode, t.task.piece);
    }
  }

  lemma FinishedStep(s: State, node: MailboxNode, inode: Inode, piece: Bytes, k: nat)
    requires k < |Chunk(piece)|
    ensures var h := s.heap[Random(s.next) := Sealed(FileKeys(node.fileKey), BlockPlain(Chunk(piece)[k]))];
            Finished(State(h, s.keys, s.next + 1), node, inode.(blocks := inode.blocks + [Random(s.next)]), piece, k + 1) ==
            Finished(s, node, inode, piece, k)
  {
    hide Chunk, SealedBlocks;
    var chunks := Chunk(piece)[k..];
    assert chunks[1..] == Chunk(piece)[k + 1..];
    SealedCons(s.heap, s.next, chunks, FileKeys(node.fileKey));
    assert FreshIds(s.next, |chunks|) == [Random(s.next)] + FreshIds(s.next + 1, |chunks| - 1);
    assert inode.blocks + [Random(s.next)] + FreshIds(s.next + 1, |chunks| - 1) ==
           inode.blocks + ([Random(s.next)] + FreshIds(s.next + 1, |chunks| - 1));
  }

  lemma FinishedLast(s: State, node: MailboxNode, inode: Inode, piece: Bytes)
    ensures Finished(s, node, inode, piece, |Chunk(piece)|) ==
            s.(heap := s.heap[node.inode := Sealed(FileKeys(node.fileKey), InodePlain(inode.(size := inode.size + |piece|)))])
  {
    assert Chunk(piece)[|Chunk(piece)|..] == [];
    assert s.heap + SealedBlocks(s.next, [], FileKeys(node.fileKey)) == s.heap;
    assert inode.blocks + FreshIds(s.next, 0) == inode.blocks;
  }

  /** A thread that appends with no other in between does what `AppendToFile` does. */
  lemma AppendAlone(m: Machine, tid: nat) returns (tids: seq<nat>)
    requires tid < |m.threads| && m.threads[tid].phase.AtAccess? && m.threads[tid].task.Append?
    ensures Alone(tid, tids)
    ensures var (n, t) := (Schedule(m, tids), m.threads[tid]);
            && OnlyMoved(m, n, tid)
            && n.s == AppendToFile(m.s, t.ses, t.filename, Some(t.task.piece)).0
            && match AppendToFile(m.s, t.ses, t.filename, Some(t.task.piece)).1
               case Ok(_) => n.threads[tid].phase.Appended?
               case Err(e) => n.threads[tid].phase == Failed(e)
  {
    hide Chunk, SealedBlocks, WalkInode;
    var walk := WalkAlone(m, tid);
    var n := Schedule(m, walk);
    if n.threads[tid].phase.Writing? {
      var rest := WriteAlone(n, tid);
      tids := walk + rest;
      ScheduleConcat(m, walk, rest);
      assert Chunk(m.threads[tid].task.piece)[0..] == Chunk(m.threads[tid].task.piece);
    } else {
      tids := walk;
    }
  }

  // ---- Two appends that overlap

  /** An appender at the start of its call, whose name is live on `i`. */
  ghost predicate Appends(s: State, t: Thread, i: Id)
    requires Inv(s)
  {
    && t.phase.AtAccess? && t.task.Append? && Genuine(s, t.ses)
    && Live(Abs(s), NameAt(t)) && FileOf(Abs(s), NameAt(t)) == Some(i)
  }

  lemma WalksTo(s: State, t: Thread, i: Id)
    requires Inv(s) && Appends(s, t, i)
    ensures WalkInode(s.heap, t.ses, t.filename).Ok? && WalkInode(s.heap, t.ses, t.filename).value.node.inode == i
    ensures IsInode(s.heap, i)
  {
    hide Inv, Abs, WalkInode;
    WalkExactInv(s, t.ses, t.filename);
    WalkFacts(s, t.ses, t.filename);
  }

  /** If one appender has read the inode before another starts and commits, and commits
      after it, the other's piece is gone: the file is as if only the one had run. */
  lemma OverlappedAppendIsLost(s: State, a: Thread, b: Thread, i: Id) returns (tids: seq<nat>)
    requires Inv(s) && Appends(s, a, i) && Appends(s, b, i)
    ensures var m := Schedule(Start(s, [a, b]), tids);
            && |m.threads| == 2 && m.threads[0].phase.Appended? && m.threads[1].phase.Appended?
            && Inv(m.s) && i in Abs(s).files && i in Abs(m.s).files
            && Abs(m.s).files[i].content == Abs(s).files[i].content + a.task.piece
  {
    hide Inv, Abs, Live, Schedule, WalkInode, Finished, MachineOk, Genuine;
    var m0 := Start(s, [a, b]);
    WalksTo(s, a, i);
    WalksTo(s, b, i);
    var first := WalkAlone(m0, 0);
    var m1 := Schedule(m0, first);
    var walk := WalkAlone(m1, 1);
    var m2 := Schedule(m1, walk);
    var whole := WriteAlone(m2, 1);
    var m3 := Schedule(m2, whole);
    var rest := WriteAlone(m3, 0);
    var m4 := Schedule(m3, rest);
    tids := first + walk + whole + rest;
    ScheduleConcat(m0, first, walk);
    ScheduleConcat(m0, first + walk, whole);
    ScheduleConcat(m0, first + walk + whole, rest);
    StartOk(s, [a, b]);
    ScheduleKeeps(s, m0, tids);
    FileEntry(s, i);
    LastText(s, m4, i, a.task.piece, b.task.piece);
  }

  /** Two commits on the same sight: only the second shows. */
  lemma LastText(s: State, m: Machine, i: Id, one: Bytes, other: Bytes)
    requires Inv(s) && MachineOk(s, m) && IsInode(s.heap, i) && i in m.history
    requires m.history[i] == Committed(Committed(History(AbsFile(s.heap, i).content, [], []), 1, other, Sight([], 0)), 0, one, Sight([], 0))
    ensures Inv(m.s) && i in Abs(m.s).files && Abs(m.s).files[i].content == AbsFile(s.heap, i).content + one
  {
    hide Inv, Abs, SameUsers, ThreadOk, CommitsOk, AbsFile;
    InvNow(s, m);
    FileEntry(m.s, i);
    assert IsInode(m.s.heap, i);
    assert FileOk(s, m, i);
    assert m.history[i].current == [1];
    assert Pieces(m.history[i].log, [1]) == [one];
    FlattenOne(one);
  }
}
