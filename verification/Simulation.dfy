/** Each operation of the datastore is the same operation of the capability file system. */
module Simulation {
  import opened Basics
  import opened Ids
  import opened Blocks
  import opened Records
  import opened Services
  import opened Invariant
  import opened CapabilityFs
  import opened Abstraction
  import opened Frames
  import opened Edits

  /** An operation and the name table of the session that makes it. */
  datatype Call = Call(op: Op, files: map<string, Id>)

  function SessionOf(s: State, username: string, files: map<string, Id>): (ses: Session)
    requires Registered(s, username) && UserOk(s, username)
    ensures Genuine(s, ses) && ses.creds.username == username
  {
    Session(Cred(s, username), s.heap[UserId(username)].salt, files)
  }

  /** Run one call. Without a registered user there is no session to call with. */
  ghost function Step(s: State, call: Call): (State, bool)
    requires Inv(s)
  {
    var op := call.op;
    if op.Init? then
      var (t, r) := InitUser(s, op.user, op.password); (t, r.Ok?)
    else if !Registered(s, op.user) then (s, false)
    else
      var ses := SessionOf(s, op.user, call.files);
      match op
      case Store(_, f, content) => (StoreFile(s, ses, f, content), true)
      case Append(_, f, piece) => var (t, r) := AppendToFile(s, ses, f, piece); (t, r.Ok?)
      case Invite(_, f, recipient) => var (t, r) := CreateInvitation(s, ses, f, recipient); (t, r.Ok?)
      case Accept(_, sender, pointer, f) => var (t, r) := AcceptInvitation(s, ses, sender, pointer, f); (t, r.Ok?)
      case Revoke(_, f, recipient) => var (t, r) := RevokeAccess(s, ses, f, recipient); (t, r.Ok?)
  }

  /** The draws that become a new capability, file and pointer. */
  function FreshOf(s: State, op: Op): Fresh {
    match op
    case Invite(_, _, _) => Fresh(Random(s.next), Random(s.next + 1), Random(s.next + 2))
    case _ => Fresh(Random(s.next + 2), Random(s.next + 1), Random(s.next))
  }

  lemma FreshIsFresh(s: State, op: Op)
    requires Inv(s)
    ensures FreshFor(Abs(s), FreshOf(s, op))
  {
    NotDrawn(s);
  }

  lemma NotDrawn(s: State)
    requires Inv(s)
    ensures forall n: nat :: n >= s.next ==> Random(n) !in s.heap
  {
    hide Users, DistinctUsers, Mailboxes, Accesses, Boxes, Inodes, OwnKeys;
    assert forall id :: id in s.heap ==> WellPlaced(s, id);
  }

  /** Blocks at fresh draws extend an inode's list, and its text by `content`. */
  lemma NewBlocks(h: Heap, raw: RawKey, inode: Inode, base: nat, content: Bytes)
    requires GoodInode(h, raw, inode)
    requires forall id :: id in h && id.Random? ==> id.serial < base
    ensures var chunks := Chunk(content);
            var g := h + SealedBlocks(base, chunks, FileKeys(raw));
            var longer := Inode(inode.size + |content|, inode.blocks + FreshIds(base, |chunks|));
            && GoodInode(g, raw, longer)
            && Flatten(Plaintexts(g, longer.blocks)) == Flatten(Plaintexts(h, inode.blocks)) + content
            && |longer.blocks| == |inode.blocks| + CeilDiv(|content|)
  {
    var chunks := Chunk(content);
    var g := h + SealedBlocks(base, chunks, FileKeys(raw));
    NewBlocksPlain(h, raw, inode.blocks, base, chunks);
    FlattenConcat(Plaintexts(h, inode.blocks), chunks);
    ChunkFlatten(content);
    ChunkShape(content);
    NewBlocksSealed(h, g, raw, inode.blocks, base, chunks);
  }

  lemma NewBlocksPlain(h: Heap, raw: RawKey, blocks: seq<Id>, base: nat, chunks: seq<Bytes>)
    requires forall j :: 0 <= j < |blocks| ==> IsBlock(h, blocks[j])
    requires forall id :: id in h && id.Random? ==> id.serial < base
    ensures Plaintexts(h + SealedBlocks(base, chunks, FileKeys(raw)), blocks + FreshIds(base, |chunks|)) ==
            Plaintexts(h, blocks) + chunks
  {
    SealedBlocksAt(base, chunks, FileKeys(raw));
  }

  lemma NewBlocksSealed(h: Heap, g: Heap, raw: RawKey, blocks: seq<Id>, base: nat, chunks: seq<Bytes>)
    requires g == h + SealedBlocks(base, chunks, FileKeys(raw))
    requires forall j :: 0 <= j < |blocks| ==> IsBlock(h, blocks[j]) && h[blocks[j]].key == FileKeys(raw)
    requires forall id :: id in h && id.Random? ==> id.serial < base
    requires Distinct(blocks)
    ensures var longer := blocks + FreshIds(base, |chunks|);
            && Distinct(longer)
            && forall j :: 0 <= j < |longer| ==> IsBlock(g, longer[j]) && g[longer[j]].key == FileKeys(raw)
  {
    SealedBlocksAt(base, chunks, FileKeys(raw));
    var longer := blocks + FreshIds(base, |chunks|);
    forall i, j | 0 <= i < j < |longer|
      ensures longer[i] != longer[j]
    {
      if i < |blocks| <= j {
        assert longer[i] in h;
        assert longer[j] == Random(base + (j - |blocks|));
      }
    }
  }

  /** `s` to `t` keeps the invariant and is exactly operation `op`, with outcome `ok`. */
  ghost predicate Simulates(s: State, t: State, op: Op, ok: bool)
    requires Inv(s)
  {
    && Inv(t)
    && (Abs(t), ok) == Apply(Abs(s), op, FreshOf(s, op))
  }

  lemma SessionCarries(s: State, t: State, ses: Session)
    requires Inv(s) && Inv(t) && SameUsers(s, t) && Genuine(s, ses)
    ensures Registered(s, ses.creds.username) && Registered(t, ses.creds.username)
    ensures Cred(s, ses.creds.username) == Cred(t, ses.creds.username) == ses.creds
    ensures Genuine(t, ses)
  {
    assert Registered(s, ses.creds.username) && UserOk(s, ses.creds.username);
    assert Registered(t, ses.creds.username) && UserOk(t, ses.creds.username);
  }

  // ---- StoreFile

  function NewBlocksState(s: State, content: Bytes): State {
    AddBlocks(Draw(s, 4 + |Chunk(content)|), s.next + 4, Chunk(content), FileKeys(s.next))
  }

  function NewInodeState(s: State, content: Bytes): State {
    SetInode(NewBlocksState(s, content), Random(s.next + 1), s.next,
      Inode(|content|, FreshIds(s.next + 4, |Chunk(content)|)))
  }

  /** The file's blocks and inode, then the mailbox: all that precedes the access record. */
  function NewFile(s: State, content: Bytes): State {
    AddMailbox(NewInodeState(s, content), Random(s.next + 2), s.next + 3, MailboxNode(s.next, Random(s.next + 1)))
  }

  lemma NewBlocksKeeps(s: State, content: Bytes)
    requires Inv(s)
    ensures var t := NewBlocksState(s, content);
            && Inv(t) && SameUsers(s, t) && Abs(t) == Abs(s)
            && MayWriteInode(t, Random(s.next + 1), s.next)
            && Random(s.next + 2) !in t.heap
  {
    hide Inv, Abs, SameUsers, SameInodes, MayWriteInode, SealedBlocks, Chunk;
    var chunks := Chunk(content);
    var s1 := Draw(s, 4 + |chunks|);
    var t := NewBlocksState(s, content);
    DrawKeeps(s, 4 + |chunks|);
    DrawnRange(s, 4, |chunks|);
    AddBlocksKeeps(s1, s.next + 4, chunks, FileKeys(s.next));
    SameUsersTransitive(s, s1, t);
    FreshForFile(s, t, content);
  }

  lemma DrawnRange(s: State, skip: nat, n: nat)
    requires Inv(s)
    ensures UnusedRange(Draw(s, skip + n), s.next + skip, n)
  {
    NotDrawn(s);
  }

  lemma SameUsersTransitive(s: State, t: State, u: State)
    requires Inv(s) && Inv(t) && Inv(u) && SameUsers(s, t) && SameUsers(t, u)
    ensures SameUsers(s, u)
  {
    hide Slots, Mailboxes, Accesses, Boxes, Inodes, OwnKeys, DistinctUsers;
    assert forall n :: Registered(s, n) ==> Registered(t, n) && Cred(s, n) == Cred(t, n);
  }

  lemma FreshForFile(s: State, t: State, content: Bytes)
    requires Inv(s) && SameInodes(s.heap, t.heap)
    requires t.heap == s.heap + SealedBlocks(s.next + 4, Chunk(content), FileKeys(s.next)) && t.next >= s.next + 4
    ensures MayWriteInode(t, Random(s.next + 1), s.next) && Random(s.next + 2) !in t.heap
  {
    NotDrawn(s);
    NoSuchKey(s, s.next);
    SealedBlocksAt(s.next + 4, Chunk(content), FileKeys(s.next));
  }

  lemma NewInodeGood(s: State, content: Bytes)
    requires Inv(s)
    ensures var t := NewBlocksState(s, content);
            var inode := Inode(|content|, FreshIds(s.next + 4, |Chunk(content)|));
            && GoodInode(t.heap, s.next, inode)
            && Flatten(Plaintexts(t.heap, inode.blocks)) == content
            && |inode.blocks| == CeilDiv(|content|)
  {
    hide Inv, SealedBlocks, Chunk, Plaintexts, Distinct, CeilDiv;
    DrawnBelow(s, s.next + 4);
    NothingYet(s.heap, s.next);
    NewBlocks(s.heap, s.next, Inode(0, []), s.next + 4, content);
    var ids := FreshIds(s.next + 4, |Chunk(content)|);
    assert [] + ids == ids;
    assert [] + content == content;
  }

  lemma NothingYet(h: Heap, raw: RawKey)
    ensures GoodInode(h, raw, Inode(0, [])) && Flatten(Plaintexts(h, [])) == []
  {
  }

  lemma DrawnBelow(s: State, base: nat)
    requires Inv(s) && base >= s.next
    ensures forall id :: id in s.heap && id.Random? ==> id.serial < base
  {
    hide Users, DistinctUsers, Mailboxes, Accesses, Boxes, Inodes, OwnKeys;
    assert forall id :: id in s.heap ==> WellPlaced(s, id);
  }

  lemma NewFileKeeps(s: State, content: Bytes)
    requires Inv(s)
    ensures var t := NewFile(s, content);
            && Inv(t) && SameUsers(s, t)
            && MailboxUnder(t.heap, Random(s.next + 2), s.next + 3)
            && Abs(t) == Abs(s).(
                 caps := Abs(s).caps[Random(s.next + 2) := Cap(Random(s.next + 1), true)],
                 files := Abs(s).files[Random(s.next + 1) := File(content, CeilDiv(|content|))])
  {
    hide Inv, Abs, SameUsers, GoodInode, MayWriteInode, SealedBlocks, Plaintexts, Chunk;
    NewBlocksKeeps(s, content);
    NewInodeGood(s, content);
    NewFileFrom(s, NewBlocksState(s, content), content);
  }

  lemma NewFileFrom(s: State, b: State, content: Bytes)
    requires Inv(s) && Inv(b) && SameUsers(s, b) && Abs(b) == Abs(s) && b.next >= s.next + 4
    requires MayWriteInode(b, Random(s.next + 1), s.next)
    requires Random(s.next + 2) !in b.heap
    requires var inode := Inode(|content|, FreshIds(s.next + 4, |Chunk(content)|));
             && GoodInode(b.heap, s.next, inode)
             && Flatten(Plaintexts(b.heap, inode.blocks)) == content
             && |inode.blocks| == CeilDiv(|content|)
    ensures var i := SetInode(b, Random(s.next + 1), s.next, Inode(|content|, FreshIds(s.next + 4, |Chunk(content)|)));
            var t := AddMailbox(i, Random(s.next + 2), s.next + 3, MailboxNode(s.next, Random(s.next + 1)));
            && Inv(t) && SameUsers(s, t)
            && MailboxUnder(t.heap, Random(s.next + 2), s.next + 3)
            && Abs(t) == Abs(s).(
                 caps := Abs(s).caps[Random(s.next + 2) := Cap(Random(s.next + 1), true)],
                 files := Abs(s).files[Random(s.next + 1) := File(content, CeilDiv(|content|))])
  {
    hide Slots, Mailboxes, Accesses, Boxes, Inodes, OwnKeys, DistinctUsers;
    var inode := Inode(|content|, FreshIds(s.next + 4, |Chunk(content)|));
    SetInodeKeeps(b, Random(s.next + 1), s.next, inode);
    var i := SetInode(b, Random(s.next + 1), s.next, inode);
    AddMailboxKeeps(i, Random(s.next + 2), s.next + 3, MailboxNode(s.next, Random(s.next + 1)));
  }

  /** A draw not made yet is no inode's key and in no mailbox. */
  lemma NoSuchKey(s: State, raw: RawKey)
    requires Inodes(s) && Mailboxes(s) && raw >= s.next
    ensures forall i :: IsInode(s.heap, i) ==> s.heap[i].key != FileKeys(raw)
    ensures forall m :: IsMailbox(s.heap, m) ==> MailboxAt(s.heap, m).fileKey != raw
  {
    forall i | IsInode(s.heap, i)
      ensures s.heap[i].key != FileKeys(raw)
    {
      assert InodeOk(s, i);
    }
    forall m | IsMailbox(s.heap, m)
      ensures MailboxAt(s.heap, m).fileKey != raw
    {
      assert MailboxOk(s, m);
    }
  }

  lemma BareAccess(h: Heap, mailbox: Id, key: RawKey)
    requires MailboxUnder(h, mailbox, key)
    ensures GoodAccess(h, Access(mailbox, key, map[]))
    ensures NameOf(Access(mailbox, key, map[])) == Name(mailbox, map[])
  {
  }

  /** `StoreFile` writes the mailbox and the access record first; the order does not show. */
  lemma StoreShape(s: State, ses: Session, f: string, content: Bytes)
    ensures var a := SetAccess(NewFile(s, content), ses.creds, f, Access(Random(s.next + 2), s.next + 3, map[]));
            StoreFile(s, ses, f, content) == a.(heap := SaveUser(a.heap, Named(ses, f)))
  {
    hide SealedBlocks, AccessId, SaveUser, Chunk;
    var fileKey, inode, mailbox, base := s.next, Random(s.next + 1), Random(s.next + 2), s.next + 4;
    var slot := AccessId(ses.creds.username, f);
    var blocks := SealedBlocks(base, Chunk(content), FileKeys(fileKey));
    SealedBlocksAt(base, Chunk(content), FileKeys(fileKey));
    SlotIsDigest(ses.creds.username, f);
    ReorderWrites(s.heap, blocks, mailbox, slot, inode,
      Sealed(MailKeys(s.next + 3), MailboxPlain(MailboxNode(fileKey, inode))),
      Sealed(PersonalKey(ses.creds.master, f), AccessPlain(Access(mailbox, s.next + 3, map[]))),
      Sealed(FileKeys(fileKey), InodePlain(Inode(|content|, FreshIds(base, |Chunk(content)|)))));
  }

  lemma SlotIsDigest(u: string, f: string)
    ensures AccessId(u, f).Digest?
  {
  }

  lemma ReorderWrites(h: Heap, blocks: Heap, m: Id, a: Id, i: Id, mv: Payload, av: Payload, iv: Payload)
    requires m !in blocks && a !in blocks && i !in blocks && m != a && m != i && a != i
    ensures (h[m := mv][a := av] + blocks)[i := iv] == (h + blocks)[i := iv][m := mv][a := av]
  {
  }

  lemma StoreSim(s: State, ses: Session, f: string, content: Bytes)
    requires Inv(s) && Genuine(s, ses)
    ensures var t := StoreFile(s, ses, f, content);
            Simulates(s, t, Store(ses.creds.username, f, content), true) && SameUsers(s, t)
  {
    hide Inv, Abs, SameUsers, NewFile, SetAccess, SaveUser, StoreFile, MailboxUnder, PutName, GoodAccess;
    var n := NewFile(s, content);
    var access := Access(Random(s.next + 2), s.next + 3, map[]);
    var a := SetAccess(n, ses.creds, f, access);
    var t := a.(heap := SaveUser(a.heap, Named(ses, f)));
    NewFileKeeps(s, content);
    SessionCarries(s, n, ses);
    BareAccess(n.heap, Random(s.next + 2), s.next + 3);
    SetAccessKeeps(n, ses.creds, f, access);
    FinishSession(s, n, a, ses, f);
    StoreShape(s, ses, f, content);
  }

  /** The closing `saveUser`. */
  lemma FinishSession(s: State, n: State, a: State, ses: Session, f: string)
    requires Inv(s) && Inv(n) && Inv(a) && SameUsers(s, n) && SameUsers(n, a) && Genuine(s, ses)
    ensures var t := a.(heap := SaveUser(a.heap, Named(ses, f)));
            && Inv(t) && SameUsers(s, t) && Abs(t) == Abs(a)
            && ses.creds.username in Abs(s).users
  {
    hide Slots, Mailboxes, Accesses, Boxes, Inodes, OwnKeys, DistinctUsers, SaveUser, AbsNames, AbsCaps, AbsFiles, AbsGrants;
    SameUsersTransitive(s, n, a);
    SessionCarries(s, a, ses);
    var named := Named(ses, f);
    assert Genuine(a, named);
    SaveUserKeeps(a, named);
    var t := a.(heap := SaveUser(a.heap, named));
    SameUsersTransitive(s, a, t);
  }

  // ---- AppendToFile

  /** What a successful walk reaches. */
  lemma WalkFacts(s: State, ses: Session, f: string)
    requires Inv(s) && Genuine(s, ses) && WalkInode(s.heap, ses, f).Ok?
    ensures var w := WalkInode(s.heap, ses, f).value;
            var p := (ses.creds.username, f);
            var a := Abs(s);
            && IsInode(s.heap, w.node.inode) && InodeAt(s.heap, w.node.inode) == w.inode
            && s.heap[w.node.inode].key == FileKeys(w.node.fileKey)
            && GoodInode(s.heap, w.node.fileKey, w.inode)
            && w.node.inode in a.files && a.files[w.node.inode] == AbsFile(s.heap, w.node.inode)
            && Live(a, p) && p in a.names && a.names[p] == NameOf(w.access)
            && a.names[p].cap in a.caps && a.caps[a.names[p].cap].file == w.node.inode
            && ses.creds.username in a.users
            && GoodAccess(s.heap, w.access) && MailboxAt(s.heap, w.access.mailbox) == w.node
  {
    hide Inv, Abs, OpensInode, Holds, InodeOk, MailboxOk;
    var p := (ses.creds.username, f);
    WalkExactInv(s, ses, f);
    WalkReads(s, ses, f);
    ViewExact(s, p);
    HeldCap(s, p);
    HeldName(s, p);
    AccessFacts(s, AccessId(ses.creds.username, f));
    InodeFacts(s, WalkInode(s.heap, ses, f).value.node.inode);
  }

  lemma HeldName(s: State, p: (string, string))
    requires Inv(s)
    ensures Holds(s, p) <==> p in Abs(s).names
    ensures Holds(s, p) ==> Abs(s).names[p] == NameOf(AccessAt(s.heap, SlotOf(p)))
  {
    hide Slots, DistinctUsers, Mailboxes, Accesses, Boxes, Inodes, OwnKeys;
  }

  lemma AccessFacts(s: State, slot: Id)
    requires Inv(s) && IsAccess(s.heap, slot)
    ensures GoodAccess(s.heap, AccessAt(s.heap, slot))
  {
    hide Slots, Users, DistinctUsers, Mailboxes, Boxes, Inodes, OwnKeys;
    assert AccessOk(s, slot);
  }

  lemma InodeFacts(s: State, i: Id)
    requires Inv(s) && IsInode(s.heap, i)
    ensures s.heap[i].key.FileKeys? && GoodInode(s.heap, s.heap[i].key.raw, InodeAt(s.heap, i))
  {
    hide Slots, Users, DistinctUsers, Mailboxes, Accesses, Boxes, OwnKeys;
    assert InodeOk(s, i);
  }

  /** A successful walk read what is stored. */
  lemma WalkReads(s: State, ses: Session, f: string)
    requires WalkInode(s.heap, ses, f).Ok?
    ensures var w := WalkInode(s.heap, ses, f).value;
            && IsMailbox(s.heap, w.access.mailbox) && MailboxAt(s.heap, w.access.mailbox) == w.node
            && IsInode(s.heap, w.node.inode) && InodeAt(s.heap, w.node.inode) == w.inode
            && s.heap[w.node.inode].key == FileKeys(w.node.fileKey)
            && IsAccess(s.heap, AccessId(ses.creds.username, f))
            && AccessAt(s.heap, AccessId(ses.creds.username, f)) == w.access
  {
  }

  lemma WalkExactInv(s: State, ses: Session, f: string)
    requires Inv(s) && Genuine(s, ses)
    ensures var p := (ses.creds.username, f);
            var slot := AccessId(p.0, p.1);
            && p.0 in Abs(s).users
            && (WalkMailbox(s.heap, ses, f).Ok? <==> p in Abs(s).names)
            && (WalkInode(s.heap, ses, f).Ok? <==> Live(Abs(s), p))
            && (WalkMailbox(s.heap, ses, f).Ok? ==>
                  IsAccess(s.heap, slot) && WalkMailbox(s.heap, ses, f).value.0 == AccessAt(s.heap, slot))
            && (WalkInode(s.heap, ses, f).Ok? ==>
                  WalkMailbox(s.heap, ses, f).Ok? &&
                  WalkInode(s.heap, ses, f).value.access == WalkMailbox(s.heap, ses, f).value.0)
  {
    hide Boxes, Inodes, OwnKeys, DistinctUsers;
    WalkExact(s, ses, f);
    ViewExact(s, (ses.creds.username, f));
    HeldCap(s, (ses.creds.username, f));
  }

  lemma AppendSim(s: State, ses: Session, f: string, piece: Option<Bytes>)
    requires Inv(s) && Genuine(s, ses)
    ensures var (t, r) := AppendToFile(s, ses, f, piece);
            Simulates(s, t, Append(ses.creds.username, f, piece), r.Ok?) && SameUsers(s, t)
  {
    hide Inv, Abs, SameUsers, WalkInode, Live;
    SameUsersReflexive(s);
    WalkExactInv(s, ses, f);
    if piece.Some? && WalkInode(s.heap, ses, f).Ok? {
      AppendSimOk(s, ses, f, piece.value);
    }
  }

  lemma AppendSimOk(s: State, ses: Session, f: string, content: Bytes)
    requires Inv(s) && Genuine(s, ses) && WalkInode(s.heap, ses, f).Ok?
    ensures var (t, r) := AppendToFile(s, ses, f, Some(content));
            Simulates(s, t, Append(ses.creds.username, f, Some(content)), true) && SameUsers(s, t)
  {
    hide Inv, Abs, SameUsers, SealedBlocks, GoodInode, MayWriteInode, Plaintexts, Chunk, WalkInode, GoodAccess;
    var w := WalkInode(s.heap, ses, f).value;
    WalkFacts(s, ses, f);
    var n := |Chunk(content)|;
    var s1 := Draw(s, n);
    DrawKeeps(s, n);
    DrawnRange(s, 0, n);
    var s2 := AddBlocks(s1, s.next, Chunk(content), FileKeys(w.node.fileKey));
    AddBlocksKeeps(s1, s.next, Chunk(content), FileKeys(w.node.fileKey));
    SameUsersTransitive(s, s1, s2);
    var longer := Inode(w.inode.size + |content|, w.inode.blocks + FreshIds(s.next, n));
    AppendedInode(s, s2, w, content);
    SetInodeKeeps(s2, w.node.inode, w.node.fileKey, longer);
    SameUsersTransitive(s, s2, SetInode(s2, w.node.inode, w.node.fileKey, longer));
  }

  lemma AppendedInode(s: State, t: State, w: Walk, content: Bytes)
    requires Inv(s) && GoodInode(s.heap, w.node.fileKey, w.inode) && SameInodes(s.heap, t.heap)
    requires IsInode(s.heap, w.node.inode) && s.heap[w.node.inode].key == FileKeys(w.node.fileKey)
    requires t.heap == s.heap + SealedBlocks(s.next, Chunk(content), FileKeys(w.node.fileKey))
    ensures var longer := Inode(w.inode.size + |content|, w.inode.blocks + FreshIds(s.next, |Chunk(content)|));
            && GoodInode(t.heap, w.node.fileKey, longer)
            && Flatten(Plaintexts(t.heap, longer.blocks)) == Flatten(Plaintexts(s.heap, w.inode.blocks)) + content
            && |longer.blocks| == |w.inode.blocks| + CeilDiv(|content|)
            && MayWriteInode(t, w.node.inode, w.node.fileKey)
  {
    hide Inv, SealedBlocks, Chunk, Plaintexts, Distinct, CeilDiv;
    DrawnBelow(s, s.next);
    NewBlocks(s.heap, w.node.fileKey, w.inode, s.next, content);
  }

  // ---- CreateInvitation

  lemma MailboxFacts(s: State, ses: Session, f: string)
    requires Inv(s) && Genuine(s, ses) && WalkMailbox(s.heap, ses, f).Ok?
    ensures var (access, node) := WalkMailbox(s.heap, ses, f).value;
            var p := (ses.creds.username, f);
            var a := Abs(s);
            && p.0 in a.users && p in a.names && a.names[p] == NameOf(access)
            && IsMailbox(s.heap, access.mailbox) && MailboxAt(s.heap, access.mailbox) == node
            && IsInode(s.heap, node.inode) && node.fileKey < s.next
            && access.mailbox in a.caps
            && a.caps[access.mailbox] == Cap(node.inode, s.heap[node.inode].key == FileKeys(node.fileKey))
            && GoodAccess(s.heap, access)
  {
    hide Boxes, Inodes, OwnKeys, DistinctUsers;
    WalkExact(s, ses, f);
    HeldCap(s, (ses.creds.username, f));
    AccessFacts(s, AccessId(ses.creds.username, f));
    assert MailboxOk(s, WalkMailbox(s.heap, ses, f).value.0.mailbox);
  }

  lemma SlotsOf(s: State)
    requires Inv(s)
    ensures Slots(s)
  {
  }

  /** The recipient's mailbox: a copy of the sharer's, live exactly when that one is. */
  lemma CopyMailbox(s: State, ses: Session, f: string, draws: nat)
    requires Inv(s) && Genuine(s, ses) && WalkMailbox(s.heap, ses, f).Ok? && draws >= 2
    ensures var (access, node) := WalkMailbox(s.heap, ses, f).value;
            var t := AddMailbox(Draw(s, draws), Random(s.next), s.next + 1, node);
            && Inv(t) && SameUsers(s, t)
            && Abs(t) == Abs(s).(caps := Abs(s).caps[Random(s.next) := Abs(s).caps[access.mailbox]])
            && MailboxesKept(s.heap, t.heap) && MailboxUnder(t.heap, Random(s.next), s.next + 1)
            && MailboxAt(t.heap, Random(s.next)) == node
            && (draws >= 3 ==> Unused(t, Random(s.next + 2)))
  {
    hide Inv, Abs, SameUsers, WalkMailbox, GoodAccess;
    MailboxFacts(s, ses, f);
    DrawKeeps(s, draws);
    NotDrawn(s);
    var node := WalkMailbox(s.heap, ses, f).value.1;
    var t := AddMailbox(Draw(s, draws), Random(s.next), s.next + 1, node);
    AddMailboxKeeps(Draw(s, draws), Random(s.next), s.next + 1, node);
    SameUsersTransitive(s, Draw(s, draws), t);
  }

  lemma RegisteredKey(s: State, n: string)
    requires Inv(s)
    ensures EncName(n) in s.keys <==> n in Abs(s).users
    ensures n in Abs(s).users ==> Registered(s, n) && UserOk(s, n) && s.keys[EncName(n)] == Cred(s, n).encKey
    ensures SigName(n) in s.keys <==> n in Abs(s).users
    ensures n in Abs(s).users ==> s.keys[SigName(n)] == Cred(s, n).sigKey
  {
    hide Slots, Mailboxes, Accesses, Boxes, Inodes, OwnKeys, DistinctUsers;
    if Registered(s, n) {
      assert UserOk(s, n);
    }
  }

  lemma InviteSim(s: State, ses: Session, f: string, recipient: string)
    requires Inv(s) && Genuine(s, ses)
    ensures var (t, r) := CreateInvitation(s, ses, f, recipient);
            Simulates(s, t, Invite(ses.creds.username, f, recipient), r.Ok?) && SameUsers(s, t)
  {
    hide Inv, Abs, SameUsers, WalkMailbox, GoodAccess;
    SameUsersReflexive(s);
    WalkExactInv(s, ses, f);
    RegisteredKey(s, recipient);
    if WalkMailbox(s.heap, ses, f).Ok? {
      if recipient in Abs(s).users {
        InviteSimOk(s, ses, f, recipient);
      } else {
        MailboxFacts(s, ses, f);
        CopyMailbox(s, ses, f, 2);
      }
    }
  }

  lemma SharedAccess(h: Heap, g: Heap, access: Access, recipient: string, mailbox: Id, key: RawKey)
    requires GoodAccess(h, access) && MailboxesKept(h, g) && MailboxUnder(g, mailbox, key)
    requires MailboxAt(g, mailbox).inode == MailboxAt(h, access.mailbox).inode
    ensures var shared := access.(children := access.children[recipient := ChildrenInfo(mailbox, key)]);
            && GoodAccess(g, shared)
            && NameOf(shared) == NameOf(access).(shared := NameOf(access).shared[recipient := mailbox])
  {
    StillGood(h, g, access);
    var shared := access.(children := access.children[recipient := ChildrenInfo(mailbox, key)]);
    forall c | c in shared.children
      ensures ChildOk(g, shared, c)
    {
      assert c != recipient ==> ChildOk(g, access, c);
    }
  }

  lemma InviteSimOk(s: State, ses: Session, f: string, recipient: string)
    requires Inv(s) && Genuine(s, ses) && WalkMailbox(s.heap, ses, f).Ok? && recipient in Abs(s).users
    ensures var (t, r) := CreateInvitation(s, ses, f, recipient);
            Simulates(s, t, Invite(ses.creds.username, f, recipient), true) && SameUsers(s, t)
            && r == Ok(Random(s.next + 2))
  {
    hide Inv, Abs, SameUsers, WalkMailbox, GoodAccess, MailboxesKept, PutName, UserOk;
    MailboxFacts(s, ses, f);
    CopyMailbox(s, ses, f, 3);
    RegisteredKey(s, recipient);
    var u := ses.creds.username;
    var (access, node) := WalkMailbox(s.heap, ses, f).value;
    var m, key := Random(s.next), s.next + 1;
    var s2 := AddMailbox(Draw(s, 3), m, key, node);
    SessionCarries(s, s2, ses);
    SameCred(s, s2, recipient);
    AddBoxKeeps(s2, Random(s.next + 2), u, recipient, Invitation(m, key));
    var s3 := AddBox(s2, Random(s.next + 2), SignedBox(s.keys[EncName(recipient)], Invitation(m, key), ses.creds.sigKey));
    SameUsersTransitive(s, s2, s3);
    SessionCarries(s, s3, ses);
    KeptTwice(s.heap, s2.heap, s3.heap, m, key);
    SharedAccess(s.heap, s3.heap, access, recipient, m, key);
    var shared := access.(children := access.children[recipient := ChildrenInfo(m, key)]);
    SetAccessKeeps(s3, ses.creds, f, shared);
    SameUsersTransitive(s, s3, SetAccess(s3, ses.creds, f, shared));
  }

  lemma SameCred(s: State, t: State, n: string)
    requires Inv(s) && Inv(t) && SameUsers(s, t) && Registered(s, n)
    ensures Registered(t, n) && Cred(t, n) == Cred(s, n)
  {
  }

  lemma KeptTwice(h: Heap, g: Heap, k: Heap, mailbox: Id, key: RawKey)
    requires MailboxesKept(h, g) && MailboxesKept(g, k) && MailboxUnder(g, mailbox, key)
    ensures MailboxesKept(h, k) && MailboxUnder(k, mailbox, key)
    ensures MailboxAt(k, mailbox).inode == MailboxAt(g, mailbox).inode
  {
  }

  // ---- AcceptInvitation

  lemma AcceptSim(s: State, ses: Session, sender: string, pointer: Id, f: string)
    requires Inv(s) && Genuine(s, ses)
    ensures var (t, r) := AcceptInvitation(s, ses, sender, pointer, f);
            Simulates(s, t, Accept(ses.creds.username, sender, pointer, f), r.Ok?) && SameUsers(s, t)
  {
    hide Inv, Abs, SameUsers, SetAccess, SaveUser, MailboxUnder, PutName, GoodAccess, OpenInvitation;
    SameUsersReflexive(s);
    InvitationExact(s, ses, sender, pointer);
    WalkExactInv(s, ses, f);
    if OpenInvitation(s, ses, sender, pointer).Ok? {
      var inv := OpenInvitation(s, ses, sender, pointer).value;
      var access := Access(inv.mailbox, inv.key, map[]);
      var a := SetAccess(s, ses.creds, f, access);
      SessionCarries(s, s, ses);
      BareAccess(s.heap, inv.mailbox, inv.key);
      SetAccessKeeps(s, ses.creds, f, access);
      FinishSession(s, s, a, ses, f);
      AcceptShape(s, ses, sender, pointer, f);
    }
  }

  lemma AcceptShape(s: State, ses: Session, sender: string, pointer: Id, f: string)
    requires OpenInvitation(s, ses, sender, pointer).Ok?
    ensures var inv := OpenInvitation(s, ses, sender, pointer).value;
            var a := SetAccess(s, ses.creds, f, Access(inv.mailbox, inv.key, map[]));
            AcceptInvitation(s, ses, sender, pointer, f) == (a.(heap := SaveUser(a.heap, Named(ses, f))), Ok(()))
  {
  }

  lemma SameUsersReflexive(s: State)
    requires Inv(s)
    ensures SameUsers(s, s)
  {
  }

  /** A box opens exactly for its recipient, and verifies exactly for its sender. */
  lemma InvitationExact(s: State, ses: Session, sender: string, pointer: Id)
    requires Inv(s) && Genuine(s, ses)
    ensures var t := (pointer, sender, ses.creds.username);
            && (OpenInvitation(s, ses, sender, pointer).Ok? <==> t in Abs(s).grants)
            && (t in Abs(s).grants ==>
                  var inv := OpenInvitation(s, ses, sender, pointer).value;
                  Abs(s).grants[t] == inv.mailbox && MailboxUnder(s.heap, inv.mailbox, inv.key))
  {
    hide Slots, Mailboxes, Accesses, Inodes, OwnKeys, DistinctUsers;
    RegisteredKey(s, sender);
    SameUsersReflexive(s);
    SessionCarries(s, s, ses);
    assert IsBox(s.heap, pointer) ==> MailboxUnder(s.heap, s.heap[pointer].invitation.mailbox, s.heap[pointer].invitation.key);
  }

  // ---- RevokeAccess

  lemma KeptAsCaps(access: Access, recipient: string)
    ensures Kept(access, recipient) == KeptCaps(NameOf(access), recipient)
  {
    var n := NameOf(access);
    assert forall c :: c in access.children ==> c in n.shared && n.shared[c] == access.children[c].mailbox;
    forall m
      ensures m in Kept(access, recipient) <==> m in KeptCaps(n, recipient)
    {
      if m in KeptCaps(n, recipient) {
        var c :| c in n.shared && c != recipient && n.shared[c] == m;
        assert access.children[c].mailbox == m;
      }
      if m in Kept(access, recipient) {
        var c :| c in access.children && c != recipient && access.children[c].mailbox == m;
        assert n.shared[c] == m;
      }
    }
  }

  lemma KeptOnInode(h: Heap, access: Access, recipient: string)
    requires GoodAccess(h, access)
    ensures forall m :: m in Kept(access, recipient) ==>
              IsMailbox(h, m) && MailboxAt(h, m).inode == MailboxAt(h, access.mailbox).inode
  {
    forall m | m in Kept(access, recipient)
      ensures IsMailbox(h, m) && MailboxAt(h, m).inode == MailboxAt(h, access.mailbox).inode
    {
      var c :| c in access.children && c != recipient && access.children[c].mailbox == m;
      assert ChildOk(h, access, c);
    }
  }

  /** Blocks and inode under the new key, and the revoker's new mailbox. */
  function Resecured(s: State, inode: Id): State
    requires IsInode(s.heap, inode)
  {
    AddMailbox(Reseal(Draw(s, 3), inode, s.next), Random(s.next + 2), s.next + 1, MailboxNode(s.next, inode))
  }

  lemma ResecuredKeeps(s: State, inode: Id)
    requires Inv(s) && IsInode(s.heap, inode)
    ensures var t := Resecured(s, inode);
            && Inv(t) && SameUsers(s, t)
            && MailboxesKept(s.heap, t.heap) && MailboxUnder(t.heap, Random(s.next + 2), s.next + 1)
            && MailboxAt(t.heap, Random(s.next + 2)).inode == inode
            && IsInode(t.heap, inode) && t.heap[inode].key == FileKeys(s.next) && t.next == s.next + 3
            && Abs(t) == Abs(s).(caps := Rekey(Abs(s).caps, inode, {})[Random(s.next + 2) := Cap(inode, true)])
  {
    hide Inv, Abs, SameUsers, Rekey, MailboxesKept;
    var s1 := Draw(s, 3);
    DrawKeeps(s, 3);
    FreshFileKey(s);
    ResealKeeps(s1, inode, s.next);
    var s2 := Reseal(s1, inode, s.next);
    SameUsersTransitive(s, s1, s2);
    var t := AddMailbox(s2, Random(s.next + 2), s.next + 1, MailboxNode(s.next, inode));
    NotDrawn(s);
    AddMailboxKeeps(s2, Random(s.next + 2), s.next + 1, MailboxNode(s.next, inode));
    SameUsersTransitive(s, s2, t);
    KeptTrans(s.heap, s2.heap, t.heap);
  }

  lemma KeptTrans(h: Heap, g: Heap, k: Heap)
    requires MailboxesKept(h, g) && MailboxesKept(g, k)
    ensures MailboxesKept(h, k)
  {
  }

  lemma FreshFileKey(s: State)
    requires Inv(s)
    ensures NewFileKey(Draw(s, 3), s.next)
  {
    NoSuchKey(s, s.next);
  }

  lemma RekeyRevive(caps: map<Id, Cap>, file: Id, m: Id, kept: set<Id>)
    requires forall c :: c in kept ==> c in caps && caps[c].file == file
    ensures Revive(Rekey(caps, file, {})[m := Cap(file, true)], kept) == Rekey(caps, file, kept)[m := Cap(file, true)]
  {
  }

  lemma RevokeSim(s: State, ses: Session, f: string, recipient: string)
    requires Inv(s) && Genuine(s, ses)
    ensures var (t, r) := RevokeAccess(s, ses, f, recipient);
            Simulates(s, t, Revoke(ses.creds.username, f, recipient), r.Ok?) && SameUsers(s, t)
  {
    hide Inv, Abs, SameUsers, WalkMailbox, OpenInode, Live;
    SameUsersReflexive(s);
    WalkExactInv(s, ses, f);
    DrawKeeps(s, 1);
    if WalkInode(s.heap, ses, f).Ok? {
      RevokeSimOk(s, ses, f, recipient);
    }
  }

  lemma RevokeSimOk(s: State, ses: Session, f: string, recipient: string)
    requires Inv(s) && Genuine(s, ses) && WalkInode(s.heap, ses, f).Ok?
    ensures var (t, r) := RevokeAccess(s, ses, f, recipient);
            Simulates(s, t, Revoke(ses.creds.username, f, recipient), true) && SameUsers(s, t)
  {
    hide Inv, Abs, SameUsers, SetAccess, SaveUser, MailboxUnder, PutName, GoodAccess, MailboxesKept,
      WalkInode, Rekeyed, Refresh, Rekey, Revive, KeptCaps, Kept, NameOf, Resecured;
    var w := WalkInode(s.heap, ses, f).value;
    var i := w.node.inode;
    WalkFacts(s, ses, f);
    var n := Resecured(s, i);
    ResecuredKeeps(s, i);
    KeptStays(s, n, w, recipient);
    var g := Refresh(n, Kept(w.access, recipient), s.next);
    RefreshKeeps(n, Kept(w.access, recipient), s.next);
    SameUsersTransitive(s, n, g);
    SessionCarries(s, g, ses);
    RevokedAccess(s, n, g, w, recipient);
    var access := Access(Random(s.next + 2), s.next + 1, w.access.children - {recipient});
    SetAccessKeeps(g, ses.creds, f, access);
    var a := SetAccess(g, ses.creds, f, access);
    FinishSession(s, g, a, ses, f);
    RevokeShape(s, ses, f, recipient, w);
  }

  /** The kept mailboxes are on the inode before and after; their capabilities too. */
  lemma KeptStays(s: State, n: State, w: Walk, recipient: string)
    requires Inv(s) && Inv(n) && MailboxesKept(s.heap, n.heap) && GoodAccess(s.heap, w.access)
    requires MailboxAt(s.heap, w.access.mailbox) == w.node && IsInode(n.heap, w.node.inode)
    requires n.heap[w.node.inode].key == FileKeys(s.next)
    ensures forall m :: m in Kept(w.access, recipient) && IsMailbox(n.heap, m) ==>
              MailboxOk(n, m) && n.heap[MailboxAt(n.heap, m).inode].key == FileKeys(s.next)
    ensures Kept(w.access, recipient) == KeptCaps(NameOf(w.access), recipient)
    ensures Revive(Rekey(Abs(s).caps, w.node.inode, {})[Random(s.next + 2) := Cap(w.node.inode, true)],
                   Kept(w.access, recipient)) ==
            Rekey(Abs(s).caps, w.node.inode, Kept(w.access, recipient))[Random(s.next + 2) := Cap(w.node.inode, true)]
  {
    hide Slots, Accesses, Boxes, Inodes, OwnKeys, DistinctUsers;
    KeptAsCaps(w.access, recipient);
    KeptOnInode(s.heap, w.access, recipient);
    RekeyRevive(Abs(s).caps, w.node.inode, Random(s.next + 2), Kept(w.access, recipient));
  }

  lemma RevokedAccess(s: State, n: State, g: State, w: Walk, recipient: string)
    requires MailboxesKept(s.heap, n.heap) && MailboxesKept(n.heap, g.heap) && GoodAccess(s.heap, w.access)
    requires MailboxUnder(n.heap, Random(s.next + 2), s.next + 1)
    requires MailboxAt(n.heap, Random(s.next + 2)).inode == MailboxAt(s.heap, w.access.mailbox).inode
    ensures var access := Access(Random(s.next + 2), s.next + 1, w.access.children - {recipient});
            && GoodAccess(g.heap, access)
            && NameOf(access) == Name(Random(s.next + 2), NameOf(w.access).shared - {recipient})
  {
    StillGood(s.heap, n.heap, w.access);
    StillGood(n.heap, g.heap, w.access);
    var access := Access(Random(s.next + 2), s.next + 1, w.access.children - {recipient});
    forall c | c in access.children
      ensures ChildOk(g.heap, access, c)
    {
      assert ChildOk(g.heap, w.access, c);
    }
  }

  lemma RevokeShape(s: State, ses: Session, f: string, recipient: string, w: Walk)
    requires WalkInode(s.heap, ses, f) == Ok(w)
    requires IsInode(s.heap, w.node.inode) && InodeAt(s.heap, w.node.inode) == w.inode
    ensures var g := Refresh(Resecured(s, w.node.inode), Kept(w.access, recipient), s.next);
            var a := SetAccess(g, ses.creds, f, Access(Random(s.next + 2), s.next + 1, w.access.children - {recipient}));
            RevokeAccess(s, ses, f, recipient) == (a.(heap := SaveUser(a.heap, Named(ses, f))), Ok(()))
  {
    hide WalkMailbox, OpenInode, SaveUser, Kept, Refreshed;
  }

  // ---- InitUser

  lemma InitSim(s: State, username: string, password: string)
    requires Inv(s)
    ensures var (t, r) := InitUser(s, username, password); Simulates(s, t, Init(username, password), r.Ok?)
  {
    hide Inv, Abs, Register;
    UsersOfAbs(s, username);
    if !Registered(s, username) {
      RegisterKeeps(s, username, password);
      RegisterIs(s, username, password);
    }
  }

  lemma UsersOfAbs(s: State, username: string)
    requires Inv(s)
    ensures username in Abs(s).users <==> Registered(s, username)
  {
  }

  lemma RegisterIs(s: State, username: string, password: string)
    ensures Register(s, username, password) == InitUser(s, username, password).0
  {
  }

  // ---- Every operation

  /** Each call on the datastore is that operation on the capability file system. */
  lemma StepSimulates(s: State, call: Call)
    requires Inv(s)
    ensures var (t, ok) := Step(s, call); Simulates(s, t, call.op, ok)
  {
    hide Inv, Abs, StoreFile, AppendToFile, CreateInvitation, AcceptInvitation, RevokeAccess, InitUser, SameUsers, UserOk;
    var op := call.op;
    if op.Init? {
      InitSim(s, op.user, op.password);
    } else {
      UsersOfAbs(s, op.user);
      if Registered(s, op.user) {
        KnownUser(s, op.user);
        var ses := SessionOf(s, op.user, call.files);
        match op
        case Store(_, f, content) => StoreSim(s, ses, f, content);
        case Append(_, f, piece) => AppendSim(s, ses, f, piece);
        case Invite(_, f, recipient) => InviteSim(s, ses, f, recipient);
        case Accept(_, sender, pointer, f) => AcceptSim(s, ses, sender, pointer, f);
        case Revoke(_, f, recipient) => RevokeSim(s, ses, f, recipient);
      }
    }
  }

  lemma KnownUser(s: State, username: string)
    requires Inv(s) && Registered(s, username)
    ensures UserOk(s, username)
  {
  }
}
