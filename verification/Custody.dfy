/** Who holds which record and which key: what every run keeps, beyond `Inv`, about the
    records in the datastore and the random keys in them. */
module Custody {
  import opened Basics
  import opened Ids
  import opened Blocks
  import opened Records
  import opened Services
  import opened Invariant
  import opened CapabilityFs
  import opened Abstraction
  import opened Frames
  import opened Edits
  import opened Simulation
  import opened Sharing
  import opened Runs

  /** Every access record in the datastore is a name that some user holds. */
  ghost predicate RecordsHeld(s: State)
    requires Users(s)
  {
    forall id :: IsAccess(s.heap, id) ==> exists p :: Holds(s, p) && SlotOf(p) == id
  }

  /** Every invitation is from one user to another. */
  ghost predicate BoxesHeld(s: State)
    requires Users(s)
  {
    forall id :: IsBox(s.heap, id) ==> exists sender, recipient :: Granted(s, (id, sender, recipient))
  }

  /** Each mailbox has a key of its own, which is no file key. */
  ghost predicate MailKeysApart(s: State) {
    && (forall m :: IsMailbox(s.heap, m) && s.heap[m].key.MailKeys? ==> s.heap[m].key.raw < s.next)
    && (forall m, n :: IsMailbox(s.heap, m) && IsMailbox(s.heap, n) && s.heap[m].key == s.heap[n].key ==> m == n)
    && (forall m, n :: IsMailbox(s.heap, m) && IsMailbox(s.heap, n) ==>
          s.heap[m].key != MailKeys(MailboxAt(s.heap, n).fileKey))
    && (forall m, i :: IsMailbox(s.heap, m) && IsInode(s.heap, i) && s.heap[i].key.FileKeys? ==>
          s.heap[m].key != MailKeys(s.heap[i].key.raw))
  }

  /** A mailbox that holds an inode's present key names that inode. */
  ghost predicate KeyNamesInode(s: State) {
    forall m, i :: IsMailbox(s.heap, m) && IsInode(s.heap, i) ==>
      s.heap[i].key == FileKeys(MailboxAt(s.heap, m).fileKey) ==> MailboxAt(s.heap, m).inode == i
  }

  /** Every block is in the list of an inode. */
  ghost predicate BlocksListed(s: State) {
    forall b :: IsBlock(s.heap, b) ==> exists i :: IsInode(s.heap, i) && b in InodeAt(s.heap, i).blocks
  }

  ghost predicate InCustody(s: State)
    requires Users(s)
  {
    RecordsHeld(s) && BoxesHeld(s) && MailKeysApart(s) && KeyNamesInode(s) && BlocksListed(s)
  }

  // ---- What one call may change

  predicate Same(s: State, t: State, id: Id) {
    id in s.heap && id in t.heap && t.heap[id] == s.heap[id]
  }

  ghost predicate RecordsStep(s: State, t: State, u: string, f: string)
    requires Registered(s, u) && UserOk(s, u)
  {
    forall id :: IsAccess(t.heap, id) ==>
      Same(s, t, id) || (id == AccessId(u, f) && t.heap[id].key == PersonalKey(Cred(s, u).master, f))
  }

  ghost predicate BoxFrom(s: State, u: string, box: Payload)
    requires Registered(s, u) && UserOk(s, u)
  {
    box.SignedBox? && box.signer == Cred(s, u).sigKey &&
    exists r :: Registered(s, r) && UserOk(s, r) && box.recipient == Cred(s, r).encKey
  }

  ghost predicate BoxesStep(s: State, t: State, u: string)
    requires Registered(s, u) && UserOk(s, u)
  {
    forall id :: IsBox(t.heap, id) ==> Same(s, t, id) || BoxFrom(s, u, t.heap[id])
  }

  /** The one mailbox and the one file key that a call may make. */
  datatype Made = Made(mailbox: Id, mailKey: RawKey, inode: Id, fileKey: RawKey)

  ghost predicate NodeFrom(s: State, node: MailboxNode) {
    exists m :: IsMailbox(s.heap, m) && MailboxAt(s.heap, m) == node
  }

  ghost predicate NodeMade(s: State, t: State, n: Made, node: MailboxNode) {
    && node == MailboxNode(n.fileKey, n.inode) && s.next <= n.fileKey < t.next && n.fileKey != n.mailKey
    && IsInode(t.heap, n.inode) && t.heap[n.inode].key == FileKeys(n.fileKey)
  }

  ghost predicate MailStep(s: State, t: State, n: Made) {
    && (forall m :: IsMailbox(t.heap, m) ==>
          if m in s.heap then
            && IsMailbox(s.heap, m) && t.heap[m].key == s.heap[m].key
            && (MailboxAt(t.heap, m) == MailboxAt(s.heap, m) || NodeMade(s, t, n, MailboxAt(t.heap, m)))
          else m == n.mailbox && t.heap[m].key == MailKeys(n.mailKey) && s.next <= n.mailKey < t.next)
    && (forall m :: IsMailbox(t.heap, m) ==>
          NodeFrom(s, MailboxAt(t.heap, m)) || NodeMade(s, t, n, MailboxAt(t.heap, m)))
  }

  /** The list of `i` only grows; unless `i` is re-keyed, its blocks are untouched. */
  ghost predicate ListKept(s: State, t: State, i: Id)
    requires IsInode(s.heap, i) && IsInode(t.heap, i)
  {
    && (forall b :: b in InodeAt(s.heap, i).blocks ==> b in InodeAt(t.heap, i).blocks)
    && (t.heap[i].key == s.heap[i].key ==> forall b :: b in InodeAt(s.heap, i).blocks ==> Same(s, t, b))
  }

  ghost predicate InodeStep(s: State, t: State, n: Made) {
    && (forall i :: IsInode(t.heap, i) ==>
          (IsInode(s.heap, i) && t.heap[i].key == s.heap[i].key) ||
          (i == n.inode && t.heap[i].key == FileKeys(n.fileKey) && s.next <= n.fileKey < t.next && n.fileKey != n.mailKey))
    && (forall i :: IsInode(s.heap, i) ==> IsInode(t.heap, i) && ListKept(s, t, i))
  }

  ghost predicate BlocksStep(s: State, t: State) {
    forall b :: IsBlock(t.heap, b) ==>
      IsBlock(s.heap, b) || exists i :: IsInode(t.heap, i) && b in InodeAt(t.heap, i).blocks
  }

  ghost predicate CustodyStep(s: State, t: State, u: string, f: string, n: Made)
    requires Registered(s, u) && UserOk(s, u)
  {
    s.next <= t.next && RecordsStep(s, t, u, f) && BoxesStep(s, t, u) && MailStep(s, t, n) && InodeStep(s, t, n) && BlocksStep(s, t)
  }

  ghost predicate CredentialsKept(s: State, t: State)
    requires Users(s) && Users(t)
  {
    forall n :: Registered(s, n) ==> Registered(t, n) && Cred(t, n) == Cred(s, n)
  }

  lemma HoldersStay(s: State, t: State, u: string, f: string)
    requires Users(s) && Users(t) && CredentialsKept(s, t) && Registered(s, u)
    requires RecordsHeld(s) && RecordsStep(s, t, u, f)
    ensures RecordsHeld(t)
  {
    forall id | IsAccess(t.heap, id)
      ensures exists p :: Holds(t, p) && SlotOf(p) == id
    {
      if Same(s, t, id) {
        assert IsAccess(s.heap, id);
        var p :| Holds(s, p) && SlotOf(p) == id;
        assert Registered(s, p.0);
        assert Holds(t, p);
      } else {
        assert Cred(t, u) == Cred(s, u);
        assert Holds(t, (u, f)) && SlotOf((u, f)) == id;
      }
    }
  }

  lemma GrantersStay(s: State, t: State, u: string)
    requires Users(s) && Users(t) && CredentialsKept(s, t) && Registered(s, u)
    requires BoxesHeld(s) && BoxesStep(s, t, u)
    ensures BoxesHeld(t)
  {
    forall id | IsBox(t.heap, id)
      ensures exists sender, recipient :: Granted(t, (id, sender, recipient))
    {
      if Same(s, t, id) {
        assert IsBox(s.heap, id);
        var sender, recipient :| Granted(s, (id, sender, recipient));
        assert Registered(s, sender) && Registered(s, recipient);
        assert Granted(t, (id, sender, recipient));
      } else {
        var r :| Registered(s, r) && UserOk(s, r) && t.heap[id].recipient == Cred(s, r).encKey;
        assert Cred(t, u) == Cred(s, u) && Cred(t, r) == Cred(s, r);
        assert Granted(t, (id, u, r));
      }
    }
  }

  lemma OldKeys(s: State)
    requires Mailboxes(s) && Inodes(s) && MailKeysApart(s)
    ensures forall m :: IsMailbox(s.heap, m) ==> s.heap[m].key.MailKeys? && s.heap[m].key.raw < s.next
    ensures forall i :: IsInode(s.heap, i) ==> s.heap[i].key.FileKeys? && s.heap[i].key.raw < s.next
    ensures forall node :: NodeFrom(s, node) ==> node.fileKey < s.next
  {
    assert forall m :: IsMailbox(s.heap, m) ==> MailboxOk(s, m);
    assert forall i :: IsInode(s.heap, i) ==> InodeOk(s, i);
  }

  lemma MailKeysStayApart(s: State, t: State, n: Made)
    requires Mailboxes(s) && Inodes(s) && s.next <= t.next
    requires MailKeysApart(s) && MailStep(s, t, n) && InodeStep(s, t, n)
    ensures MailKeysApart(t)
  {
    hide Mailboxes, Inodes;
    OldKeys(s);
    forall m | IsMailbox(t.heap, m)
      ensures t.heap[m].key.MailKeys? && t.heap[m].key.raw < t.next
    {
    }
    forall m, k | IsMailbox(t.heap, m) && IsMailbox(t.heap, k)
      ensures t.heap[m].key != MailKeys(MailboxAt(t.heap, k).fileKey)
    {
    }
  }

  lemma KeysNameInodes(s: State, t: State, n: Made)
    requires Mailboxes(s) && Inodes(s) && OwnKeys(t) && s.next <= t.next
    requires MailKeysApart(s) && KeyNamesInode(s) && MailStep(s, t, n) && InodeStep(s, t, n)
    ensures KeyNamesInode(t)
  {
    hide Mailboxes, Inodes;
    OldKeys(s);
    forall m, i | IsMailbox(t.heap, m) && IsInode(t.heap, i)
      ensures t.heap[i].key == FileKeys(MailboxAt(t.heap, m).fileKey) ==> MailboxAt(t.heap, m).inode == i
    {
    }
  }

  lemma BlocksStayListed(s: State, t: State, n: Made)
    requires BlocksListed(s) && BlocksStep(s, t) && InodeStep(s, t, n)
    ensures BlocksListed(t)
  {
    forall b | IsBlock(t.heap, b)
      ensures exists i :: IsInode(t.heap, i) && b in InodeAt(t.heap, i).blocks
    {
      if IsBlock(s.heap, b) {
        var i :| IsInode(s.heap, i) && b in InodeAt(s.heap, i).blocks;
        assert IsInode(t.heap, i) && ListKept(s, t, i);
      }
    }
  }

  // ---- Each operation

  /** A record that no step looks for: a saved user. */
  predicate IsUser(h: Heap, id: Id) { id in h && h[id].UserBlob? }

  /** All that a call without new blocks or file keys does at one id. */
  ghost predicate SmallChange(s: State, t: State, u: string, f: string, n: Made, id: Id)
    requires Registered(s, u) && UserOk(s, u)
  {
    || Same(s, t, id)
    || (IsUser(t.heap, id) && (id in s.heap ==> IsUser(s.heap, id)))
    || (id == AccessId(u, f) && IsAccess(t.heap, id) && t.heap[id].key == PersonalKey(Cred(s, u).master, f) &&
        (id in s.heap ==> IsAccess(s.heap, id)))
    || (id !in s.heap && IsBox(t.heap, id) && BoxFrom(s, u, t.heap[id]))
    || (id !in s.heap && id == n.mailbox && IsMailbox(t.heap, id) && t.heap[id].key == MailKeys(n.mailKey) &&
        s.next <= n.mailKey < t.next && NodeFrom(s, MailboxAt(t.heap, id)))
  }

  lemma SameNode(s: State, t: State, m: Id)
    requires IsMailbox(t.heap, m)
    ensures Same(s, t, m) ==> NodeFrom(s, MailboxAt(t.heap, m))
  {
    assert Same(s, t, m) ==> IsMailbox(s.heap, m) && MailboxAt(s.heap, m) == MailboxAt(t.heap, m);
  }

  lemma SmallStep(s: State, t: State, u: string, f: string, n: Made)
    requires Inv(s) && Registered(s, u) && UserOk(s, u) && s.next <= t.next
    requires forall id :: id in s.heap || id in t.heap ==> id in t.heap && SmallChange(s, t, u, f, n, id)
    ensures CustodyStep(s, t, u, f, n)
  {
    hide Inv, UserOk, AccessId, UserId, BoxFrom;
    forall i | IsInode(s.heap, i)
      ensures Same(s, t, i) && ListKept(s, t, i)
    {
      assert SmallChange(s, t, u, f, n, i);
      InodeFacts(s, i);
      forall b | b in InodeAt(s.heap, i).blocks
        ensures Same(s, t, b)
      {
        assert SmallChange(s, t, u, f, n, b);
      }
    }
    forall i | IsInode(t.heap, i)
      ensures Same(s, t, i)
    {
      assert SmallChange(s, t, u, f, n, i);
    }
    forall m | IsMailbox(t.heap, m)
      ensures NodeFrom(s, MailboxAt(t.heap, m))
      ensures if m in s.heap then Same(s, t, m)
              else m == n.mailbox && t.heap[m].key == MailKeys(n.mailKey) && s.next <= n.mailKey < t.next
    {
      assert SmallChange(s, t, u, f, n, m);
      SameNode(s, t, m);
    }
    assert RecordsStep(s, t, u, f) && BoxesStep(s, t, u);
  }

  /** What `StoreFile` leaves at each id. */
  lemma StoreAt(s: State, ses: Session, f: string, content: Bytes, id: Id)
    requires Inv(s)
    ensures var t := StoreFile(s, ses, f, content);
            && (id in s.heap ==> id in t.heap)
            && (id in t.heap ==>
                  if id == AccessId(ses.creds.username, f) then
                    IsAccess(t.heap, id) && t.heap[id].key == PersonalKey(ses.creds.master, f)
                  else if id == UserId(ses.creds.username) then IsUser(t.heap, id)
                  else if id == Random(s.next + 1) then
                    t.heap[id] == Sealed(FileKeys(s.next), InodePlain(Inode(|content|, FreshIds(s.next + 4, |Chunk(content)|))))
                  else if id == Random(s.next + 2) then
                    t.heap[id] == Sealed(MailKeys(s.next + 3), MailboxPlain(MailboxNode(s.next, Random(s.next + 1))))
                  else if id in SealedBlocks(s.next + 4, Chunk(content), FileKeys(s.next)) then IsBlock(t.heap, id)
                  else Same(s, t, id))
            && Random(s.next + 1) in t.heap && Random(s.next + 1) !in s.heap && Random(s.next + 2) !in s.heap
            && (id in SealedBlocks(s.next + 4, Chunk(content), FileKeys(s.next)) ==>
                  id !in s.heap && id in FreshIds(s.next + 4, |Chunk(content)|))
  {
    hide Inv, Chunk, UserId, AccessId, IsUserSlot, IsAccessSlot, FreshIds, SealedBlocks;
    NotDrawn(s);
    DigestSlots(ses.creds.username, f);
    SealedBlocksAt(s.next + 4, Chunk(content), FileKeys(s.next));
    SealedAt(s.next + 4, Chunk(content), FileKeys(s.next), id);
  }

  lemma DigestSlots(u: string, f: string)
    ensures AccessId(u, f).Digest? && UserId(u).Digest? && AccessId(u, f) != UserId(u)
  {
    SlotFacts(u, f, 0);
  }

  lemma SealedAt(base: nat, chunks: seq<Bytes>, key: SymKey, id: Id)
    ensures id in SealedBlocks(base, chunks, key) ==>
              && id.Random? && id.serial >= base && id in FreshIds(base, |chunks|)
              && IsBlock(SealedBlocks(base, chunks, key), id)
  {
  }

  lemma StoreRecords(s: State, ses: Session, f: string, content: Bytes)
    requires Inv(s) && Genuine(s, ses) && Registered(s, ses.creds.username) && UserOk(s, ses.creds.username)
    requires Cred(s, ses.creds.username) == ses.creds
    ensures var t := StoreFile(s, ses, f, content);
            RecordsStep(s, t, ses.creds.username, f) && BoxesStep(s, t, ses.creds.username) && BlocksStep(s, t)
  {
    hide Inv, StoreFile, SealedBlocks, Chunk, FreshIds, AccessId, UserId;
    var t := StoreFile(s, ses, f, content);
    forall id | IsAccess(t.heap, id)
      ensures Same(s, t, id) || (id == AccessId(ses.creds.username, f) && t.heap[id].key == PersonalKey(ses.creds.master, f))
    {
      StoreAt(s, ses, f, content, id);
    }
    forall id | IsBox(t.heap, id)
      ensures Same(s, t, id)
    {
      StoreAt(s, ses, f, content, id);
    }
    forall b | IsBlock(t.heap, b)
      ensures IsBlock(s.heap, b) || exists i :: IsInode(t.heap, i) && b in InodeAt(t.heap, i).blocks
    {
      StoreAt(s, ses, f, content, b);
      StoreAt(s, ses, f, content, Random(s.next + 1));
      DigestSlots(ses.creds.username, f);
      if b in SealedBlocks(s.next + 4, Chunk(content), FileKeys(s.next)) {
        assert IsInode(t.heap, Random(s.next + 1)) && b in InodeAt(t.heap, Random(s.next + 1)).blocks;
      }
    }
  }

  lemma StoreKeys(s: State, ses: Session, f: string, content: Bytes)
    requires Inv(s)
    ensures var t := StoreFile(s, ses, f, content);
            var n := Made(Random(s.next + 2), s.next + 3, Random(s.next + 1), s.next);
            MailStep(s, t, n) && InodeStep(s, t, n)
  {
    hide Inv, SealedBlocks, Chunk, FreshIds, AccessId, UserId, StoreFile;
    var t := StoreFile(s, ses, f, content);
    DigestSlots(ses.creds.username, f);
    StoreAt(s, ses, f, content, Random(s.next + 1));
    StoreDraws(s, ses, f, content);
    forall m | IsMailbox(t.heap, m)
      ensures if m in s.heap then Same(s, t, m) && NodeFrom(s, MailboxAt(t.heap, m))
              else m == Random(s.next + 2) && t.heap[m] == Sealed(MailKeys(s.next + 3), MailboxPlain(MailboxNode(s.next, Random(s.next + 1))))
    {
      StoreAt(s, ses, f, content, m);
      assert IsMailbox(s.heap, m) ==> NodeFrom(s, MailboxAt(s.heap, m));
    }
    forall i | IsInode(t.heap, i)
      ensures Same(s, t, i) || (i == Random(s.next + 1) && t.heap[i].key == FileKeys(s.next))
    {
      StoreAt(s, ses, f, content, i);
    }
    forall i | IsInode(s.heap, i)
      ensures Same(s, t, i) && ListKept(s, t, i)
    {
      StoreAt(s, ses, f, content, i);
      StoreKept(s, ses, f, content, i);
      forall b | b in InodeAt(s.heap, i).blocks
        ensures Same(s, t, b)
      {
        InodeFacts(s, i);
        StoreKept(s, ses, f, content, b);
      }
    }
  }

  lemma StoreDraws(s: State, ses: Session, f: string, content: Bytes)
    ensures StoreFile(s, ses, f, content).next >= s.next + 4
  {
    hide SealedBlocks, Chunk;
  }

  /** What is not at a slot of a user or a name stays. */
  lemma StoreKept(s: State, ses: Session, f: string, content: Bytes, id: Id)
    requires Inv(s) && (IsInode(s.heap, id) || IsBlock(s.heap, id))
    ensures Same(s, StoreFile(s, ses, f, content), id)
  {
    hide StoreFile, SealedBlocks, Chunk, FreshIds, AccessId, UserId, Users, DistinctUsers, Mailboxes, Accesses, Boxes, Inodes, OwnKeys;
    StoreAt(s, ses, f, content, id);
    DigestSlots(ses.creds.username, f);
    assert WellPlaced(s, id);
  }

  lemma StoreCustody(s: State, ses: Session, f: string, content: Bytes)
    requires Inv(s) && Genuine(s, ses)
    ensures Registered(s, ses.creds.username)
    ensures CustodyStep(s, StoreFile(s, ses, f, content), ses.creds.username, f,
                        Made(Random(s.next + 2), s.next + 3, Random(s.next + 1), s.next))
  {
    hide Inv, StoreFile, RecordsStep, BoxesStep, MailStep, InodeStep, BlocksStep;
    SameUsersReflexive(s);
    SessionCarries(s, s, ses);
    StoreDraws(s, ses, f, content);
    KnownUser(s, ses.creds.username);
    StoreRecords(s, ses, f, content);
    StoreKeys(s, ses, f, content);
  }

  /** What `AppendToFile` leaves at each id. */
  lemma AppendAt(s: State, ses: Session, f: string, content: Bytes, id: Id)
    requires Inv(s) && WalkInode(s.heap, ses, f).Ok?
    ensures var w := WalkInode(s.heap, ses, f).value;
            var t := AppendToFile(s, ses, f, Some(content)).0;
            && (id in s.heap ==> id in t.heap)
            && (id in t.heap ==>
                  if id == w.node.inode then
                    t.heap[id] == Sealed(FileKeys(w.node.fileKey),
                      InodePlain(Inode(w.inode.size + |content|, w.inode.blocks + FreshIds(s.next, |Chunk(content)|))))
                  else if id in SealedBlocks(s.next, Chunk(content), FileKeys(w.node.fileKey)) then
                    IsBlock(t.heap, id) && id !in s.heap && id in FreshIds(s.next, |Chunk(content)|)
                  else Same(s, t, id))
            && w.node.inode in t.heap
  {
    hide Inv, Chunk, FreshIds, SealedBlocks, WalkInode;
    NotDrawn(s);
    SealedBlocksAt(s.next, Chunk(content), FileKeys(WalkInode(s.heap, ses, f).value.node.fileKey));
    SealedAt(s.next, Chunk(content), FileKeys(WalkInode(s.heap, ses, f).value.node.fileKey), id);
  }

  lemma AppendCustody(s: State, ses: Session, f: string, piece: Option<Bytes>)
    requires Inv(s) && Genuine(s, ses)
    ensures Registered(s, ses.creds.username)
    ensures CustodyStep(s, AppendToFile(s, ses, f, piece).0, ses.creds.username, f, Made(Random(0), 0, Random(0), 0))
  {
    hide Inv, SealedBlocks, Chunk, FreshIds, AccessId, UserId, AppendToFile, WalkInode;
    SameUsersReflexive(s);
    SessionCarries(s, s, ses);
    KnownUser(s, ses.creds.username);
    var t := AppendToFile(s, ses, f, piece).0;
    AppendDraws(s, ses, f, piece);
    if piece.None? || WalkInode(s.heap, ses, f).Err? {
      SmallStep(s, t, ses.creds.username, f, Made(Random(0), 0, Random(0), 0));
      return;
    }
    var w := WalkInode(s.heap, ses, f).value;
    WalkReads(s, ses, f);
    AppendAt(s, ses, f, piece.value, w.node.inode);
    forall id | id in s.heap || id in t.heap
      ensures id in t.heap && AppendChange(s, t, w.node.inode, id)
    {
      AppendAt(s, ses, f, piece.value, id);
    }
    assert forall b :: b in w.inode.blocks ==> b in InodeAt(t.heap, w.node.inode).blocks;
    AppendStep(s, t, ses.creds.username, f, w.node.inode);
  }

  /** Blocks are added at unused ids and listed in inode `i`. */
  ghost predicate AppendChange(s: State, t: State, i: Id, id: Id) {
    || Same(s, t, id)
    || (id == i && IsInode(s.heap, i) && IsInode(t.heap, i) && t.heap[i].key == s.heap[i].key)
    || (IsBlock(t.heap, id) && id !in s.heap && IsInode(t.heap, i) && id in InodeAt(t.heap, i).blocks)
  }

  lemma AppendStep(s: State, t: State, u: string, f: string, i: Id)
    requires Inv(s) && Registered(s, u) && UserOk(s, u) && s.next <= t.next
    requires forall id :: id in s.heap || id in t.heap ==> id in t.heap && AppendChange(s, t, i, id)
    requires IsInode(s.heap, i) && IsInode(t.heap, i)
    requires forall b :: b in InodeAt(s.heap, i).blocks ==> b in InodeAt(t.heap, i).blocks
    ensures CustodyStep(s, t, u, f, Made(Random(0), 0, Random(0), 0))
  {
    hide Inv, UserOk, AccessId, UserId;
    forall j | IsInode(s.heap, j)
      ensures IsInode(t.heap, j) && t.heap[j].key == s.heap[j].key && ListKept(s, t, j)
    {
      assert AppendChange(s, t, i, j);
      InodeFacts(s, j);
      forall b | b in InodeAt(s.heap, j).blocks
        ensures Same(s, t, b)
      {
        assert AppendChange(s, t, i, b);
      }
    }
    forall id | id in t.heap && !IsInode(t.heap, id) && !IsBlock(t.heap, id)
      ensures Same(s, t, id)
    {
      assert AppendChange(s, t, i, id);
    }
    assert RecordsStep(s, t, u, f) && BoxesStep(s, t, u);
    forall m | IsMailbox(t.heap, m)
      ensures Same(s, t, m) && NodeFrom(s, MailboxAt(t.heap, m))
    {
      SameNode(s, t, m);
    }
  }

  lemma AppendDraws(s: State, ses: Session, f: string, piece: Option<Bytes>)
    ensures AppendToFile(s, ses, f, piece).0.next >= s.next
    ensures piece.None? || WalkInode(s.heap, ses, f).Err? ==> AppendToFile(s, ses, f, piece).0 == s
  {
    hide WalkInode, SealedBlocks, Chunk;
  }

  /** What `CreateInvitation` leaves at each id. */
  lemma InviteAt(s: State, ses: Session, f: string, recipient: string, id: Id)
    requires Inv(s) && WalkMailbox(s.heap, ses, f).Ok?
    ensures var node := WalkMailbox(s.heap, ses, f).value.1;
            var t := CreateInvitation(s, ses, f, recipient).0;
            && (id in s.heap ==> id in t.heap)
            && (id in t.heap ==>
                  || Same(s, t, id)
                  || (id == AccessId(ses.creds.username, f) && IsAccess(t.heap, id) &&
                      t.heap[id].key == PersonalKey(ses.creds.master, f))
                  || (id == Random(s.next) && id !in s.heap && t.heap[id] == Sealed(MailKeys(s.next + 1), MailboxPlain(node)))
                  || (id !in s.heap && EncName(recipient) in s.keys && t.heap[id].SignedBox? &&
                      t.heap[id].recipient == s.keys[EncName(recipient)] && t.heap[id].signer == ses.creds.sigKey))
            && s.next + 2 <= t.next
  {
    hide Inv, AccessId, WalkMailbox;
    NotDrawn(s);
    DigestSlots(ses.creds.username, f);
  }

  lemma InviteCustody(s: State, ses: Session, f: string, recipient: string)
    requires Inv(s) && Genuine(s, ses)
    ensures Registered(s, ses.creds.username)
    ensures CustodyStep(s, CreateInvitation(s, ses, f, recipient).0, ses.creds.username, f,
                        Made(Random(s.next), s.next + 1, Random(s.next), s.next))
  {
    hide Inv, AccessId, UserId, WalkMailbox, CreateInvitation, UserOk, GoodAccess, CustodyStep;
    SameUsersReflexive(s);
    SessionCarries(s, s, ses);
    KnownUser(s, ses.creds.username);
    var (u, n) := (ses.creds.username, Made(Random(s.next), s.next + 1, Random(s.next), s.next));
    var t := CreateInvitation(s, ses, f, recipient).0;
    if WalkMailbox(s.heap, ses, f).Ok? {
      MailboxFacts(s, ses, f);
      RegisteredKey(s, recipient);
      AccessSlot(s, u, f);
      InviteAt(s, ses, f, recipient, Random(0));
      assert NodeFrom(s, MailboxAt(s.heap, WalkMailbox(s.heap, ses, f).value.0.mailbox));
      forall id | id in s.heap || id in t.heap
        ensures id in t.heap && SmallChange(s, t, u, f, n, id)
      {
        InviteAt(s, ses, f, recipient, id);
      }
    } else {
      InviteFails(s, ses, f, recipient);
    }
    SmallStep(s, t, u, f, n);
  }

  lemma InviteFails(s: State, ses: Session, f: string, recipient: string)
    requires WalkMailbox(s.heap, ses, f).Err?
    ensures CreateInvitation(s, ses, f, recipient).0 == s
  {
  }

  /** A name's slot holds nothing but an access record. */
  lemma AccessSlot(s: State, u: string, f: string)
    requires Inv(s)
    ensures AccessId(u, f) in s.heap ==> IsAccess(s.heap, AccessId(u, f))
    ensures UserId(u) in s.heap ==> IsUser(s.heap, UserId(u))
  {
    hide Users, DistinctUsers, Mailboxes, Accesses, Boxes, Inodes, OwnKeys;
    AccessSlotFree(s, u, f);
    SlotFacts(u, f, 0);
    assert UserId(u) in s.heap ==> WellPlaced(s, UserId(u));
  }

  lemma AcceptCustody(s: State, ses: Session, sender: string, pointer: Id, f: string)
    requires Inv(s) && Genuine(s, ses)
    ensures Registered(s, ses.creds.username)
    ensures CustodyStep(s, AcceptInvitation(s, ses, sender, pointer, f).0, ses.creds.username, f,
                        Made(Random(0), 0, Random(0), 0))
  {
    hide Inv, AccessId, UserId, OpenInvitation, UserOk, CustodyStep;
    SameUsersReflexive(s);
    SessionCarries(s, s, ses);
    KnownUser(s, ses.creds.username);
    DigestSlots(ses.creds.username, f);
    AccessSlot(s, ses.creds.username, f);
    SmallStep(s, AcceptInvitation(s, ses, sender, pointer, f).0, ses.creds.username, f, Made(Random(0), 0, Random(0), 0));
  }

  /** What a revocation leaves at each id. */
  lemma RevokeAt(s: State, ses: Session, f: string, r: string, id: Id)
    requires Inv(s) && Genuine(s, ses) && WalkInode(s.heap, ses, f).Ok?
    ensures var w := WalkInode(s.heap, ses, f).value;
            var t := RevokeAccess(s, ses, f, r).0;
            && t.next == s.next + 3 && (id in s.heap ==> id in t.heap)
            && (id in t.heap ==>
                  if id == AccessId(ses.creds.username, f) then
                    IsAccess(t.heap, id) && t.heap[id].key == PersonalKey(ses.creds.master, f)
                  else if id == UserId(ses.creds.username) then IsUser(t.heap, id)
                  else if id == Random(s.next + 2) then
                    id !in s.heap && t.heap[id] == Sealed(MailKeys(s.next + 1), MailboxPlain(MailboxNode(s.next, w.node.inode)))
                  else if id == w.node.inode then id in s.heap && t.heap[id] == Sealed(FileKeys(s.next), s.heap[id].body)
                  else if id in w.inode.blocks then IsBlock(s.heap, id) && t.heap[id] == Sealed(FileKeys(s.next), s.heap[id].body)
                  else if id in Kept(w.access, r) then
                    IsMailbox(s.heap, id) && t.heap[id] == Sealed(s.heap[id].key, MailboxPlain(MailboxNode(s.next, w.node.inode)))
                  else Same(s, t, id))
  {
    hide Inv, Abs, Kept, AccessId, UserId, WalkInode, Rekeyed, GoodAccess, Live;
    NotDrawn(s);
    DigestSlots(ses.creds.username, f);
    WalkFacts(s, ses, f);
    var w := WalkInode(s.heap, ses, f).value;
    KeptOnInode(s.heap, w.access, r);
    RekeyedAt(s, ses, f, r, w, id);
    RevokeWrites(s, ses, f, r);
  }

  lemma RevokeWrites(s: State, ses: Session, f: string, r: string)
    requires WalkInode(s.heap, ses, f).Ok?
    ensures RevokeAccess(s, ses, f, r).0 ==
            State(SaveUser(Rekeyed(s, ses, f, r, WalkInode(s.heap, ses, f).value), Named(ses, f)), s.keys, s.next + 3)
  {
    hide Rekeyed, WalkMailbox, OpenInode, SaveUser;
  }

  lemma RekeyedAt(s: State, ses: Session, f: string, r: string, w: Walk, id: Id)
    requires IsInode(s.heap, w.node.inode) && InodeAt(s.heap, w.node.inode) == w.inode
    requires AccessId(ses.creds.username, f).Digest? && Random(s.next + 2) !in s.heap
    requires forall j :: 0 <= j < |w.inode.blocks| ==> IsBlock(s.heap, w.inode.blocks[j])
    requires forall m :: m in Kept(w.access, r) ==> IsMailbox(s.heap, m) && MailboxAt(s.heap, m).inode == w.node.inode
    ensures var g := Rekeyed(s, ses, f, r, w);
            && (id in s.heap ==> id in g)
            && (id in g ==>
                  if id == AccessId(ses.creds.username, f) then IsAccess(g, id) && g[id].key == PersonalKey(ses.creds.master, f)
                  else if id == Random(s.next + 2) then
                    g[id] == Sealed(MailKeys(s.next + 1), MailboxPlain(MailboxNode(s.next, w.node.inode)))
                  else if id == w.node.inode then g[id] == Sealed(FileKeys(s.next), s.heap[id].body)
                  else if id in w.inode.blocks then IsBlock(s.heap, id) && g[id] == Sealed(FileKeys(s.next), s.heap[id].body)
                  else if id in Kept(w.access, r) then
                    IsMailbox(s.heap, id) && g[id] == Sealed(s.heap[id].key, MailboxPlain(MailboxNode(s.next, w.node.inode)))
                  else id in s.heap && g[id] == s.heap[id])
  {
    hide AccessId, Kept;
  }

  lemma RevokeCustody(s: State, ses: Session, f: string, r: string) returns (n: Made)
    requires Inv(s) && Genuine(s, ses)
    ensures Registered(s, ses.creds.username)
    ensures CustodyStep(s, RevokeAccess(s, ses, f, r).0, ses.creds.username, f, n)
  {
    hide Inv, AccessId, UserId, WalkInode, RevokeAccess, UserOk, RecordsStep, BoxesStep, MailStep, InodeStep, BlocksStep;
    SameUsersReflexive(s);
    SessionCarries(s, s, ses);
    KnownUser(s, ses.creds.username);
    var t := RevokeAccess(s, ses, f, r).0;
    if WalkInode(s.heap, ses, f).Ok? {
      n := Made(Random(s.next + 2), s.next + 1, WalkInode(s.heap, ses, f).value.node.inode, s.next);
      RevokeAt(s, ses, f, r, Random(0));
      RevokeRecords(s, ses, f, r);
      RevokeMail(s, ses, f, r);
      RevokeInodes(s, ses, f, r);
    } else {
      n := Made(Random(0), 0, Random(0), 0);
      RevokeFails(s, ses, f, r);
      SmallStep(s, t, ses.creds.username, f, n);
    }
  }

  lemma RevokeFails(s: State, ses: Session, f: string, r: string)
    requires WalkInode(s.heap, ses, f).Err?
    ensures RevokeAccess(s, ses, f, r).0.heap == s.heap && RevokeAccess(s, ses, f, r).0.next >= s.next
  {
    hide WalkMailbox;
  }

  lemma RevokeRecords(s: State, ses: Session, f: string, r: string)
    requires Inv(s) && Genuine(s, ses) && WalkInode(s.heap, ses, f).Ok?
    requires Registered(s, ses.creds.username) && UserOk(s, ses.creds.username) && Cred(s, ses.creds.username) == ses.creds
    ensures var t := RevokeAccess(s, ses, f, r).0;
            RecordsStep(s, t, ses.creds.username, f) && BoxesStep(s, t, ses.creds.username) && BlocksStep(s, t)
  {
    hide Inv, AccessId, UserId, WalkInode, RevokeAccess, UserOk, Kept;
    WalkReads(s, ses, f);
    var t := RevokeAccess(s, ses, f, r).0;
    forall id | id in t.heap && !IsMailbox(t.heap, id) && !IsInode(t.heap, id)
      ensures Same(s, t, id) || IsUser(t.heap, id) || (IsBlock(s.heap, id) && IsBlock(t.heap, id)) ||
              (id == AccessId(ses.creds.username, f) && IsAccess(t.heap, id) && t.heap[id].key == PersonalKey(ses.creds.master, f))
    {
      RevokeAt(s, ses, f, r, id);
    }
  }

  lemma RevokeMail(s: State, ses: Session, f: string, r: string)
    requires Inv(s) && Genuine(s, ses) && WalkInode(s.heap, ses, f).Ok?
    ensures MailStep(s, RevokeAccess(s, ses, f, r).0,
              Made(Random(s.next + 2), s.next + 1, WalkInode(s.heap, ses, f).value.node.inode, s.next))
  {
    hide Inv, AccessId, UserId, WalkInode, RevokeAccess, Kept;
    WalkReads(s, ses, f);
    DigestSlots(ses.creds.username, f);
    var t := RevokeAccess(s, ses, f, r).0;
    var i := WalkInode(s.heap, ses, f).value.node.inode;
    RevokeAt(s, ses, f, r, i);
    InodeKeepsPlace(s, ses, f, i);
    assert forall m :: IsMailbox(s.heap, m) ==> NodeFrom(s, MailboxAt(s.heap, m));
    forall m | IsMailbox(t.heap, m)
      ensures || (m !in s.heap && m == Random(s.next + 2) && t.heap[m] == Sealed(MailKeys(s.next + 1), MailboxPlain(MailboxNode(s.next, i))))
              || (IsMailbox(s.heap, m) && t.heap[m].key == s.heap[m].key &&
                  (MailboxAt(t.heap, m) == MailboxAt(s.heap, m) || MailboxAt(t.heap, m) == MailboxNode(s.next, i)))
    {
      RevokeAt(s, ses, f, r, m);
    }
  }

  /** Inodes and blocks are at random ids. */
  lemma InodeKeepsPlace(s: State, ses: Session, f: string, id: Id)
    requires Inv(s) && (IsInode(s.heap, id) || IsBlock(s.heap, id))
    ensures id != AccessId(ses.creds.username, f) && id != UserId(ses.creds.username) && id != Random(s.next + 2)
  {
    hide AccessId, UserId, Users, DistinctUsers, Mailboxes, Accesses, Boxes, Inodes, OwnKeys;
    DigestSlots(ses.creds.username, f);
    NotDrawn(s);
    assert WellPlaced(s, id);
  }

  lemma RevokeInodes(s: State, ses: Session, f: string, r: string)
    requires Inv(s) && Genuine(s, ses) && WalkInode(s.heap, ses, f).Ok?
    ensures InodeStep(s, RevokeAccess(s, ses, f, r).0,
              Made(Random(s.next + 2), s.next + 1, WalkInode(s.heap, ses, f).value.node.inode, s.next))
  {
    hide Inv, AccessId, UserId, WalkInode, RevokeAccess, Kept;
    WalkReads(s, ses, f);
    var t := RevokeAccess(s, ses, f, r).0;
    var i0 := WalkInode(s.heap, ses, f).value.node.inode;
    RevokeAt(s, ses, f, r, i0);
    InodeKeepsPlace(s, ses, f, i0);
    forall i | IsInode(t.heap, i)
      ensures IsInode(s.heap, i) && t.heap[i].key == if i == i0 then FileKeys(s.next) else s.heap[i].key
    {
      RevokeAt(s, ses, f, r, i);
    }
    forall i | IsInode(s.heap, i)
      ensures IsInode(t.heap, i) && ListKept(s, t, i)
    {
      RevokeAt(s, ses, f, r, i);
      InodeKeepsPlace(s, ses, f, i);
      RevokeList(s, ses, f, r, i);
    }
  }

  lemma RevokeList(s: State, ses: Session, f: string, r: string, i: Id)
    requires Inv(s) && Genuine(s, ses) && WalkInode(s.heap, ses, f).Ok? && IsInode(s.heap, i)
    requires var t := RevokeAccess(s, ses, f, r).0;
             && IsInode(t.heap, i) && t.heap[i].body == s.heap[i].body
             && t.heap[i].key == if i == WalkInode(s.heap, ses, f).value.node.inode then FileKeys(s.next) else s.heap[i].key
    ensures ListKept(s, RevokeAccess(s, ses, f, r).0, i)
  {
    hide Inv, AccessId, UserId, WalkInode, RevokeAccess, Kept;
    WalkReads(s, ses, f);
    InodeFacts(s, i);
    FileKeyOld(s, i);
    var t := RevokeAccess(s, ses, f, r).0;
    if i != WalkInode(s.heap, ses, f).value.node.inode {
      forall b | b in InodeAt(s.heap, i).blocks
        ensures Same(s, t, b)
      {
        RevokeAt(s, ses, f, r, b);
        InodeKeepsPlace(s, ses, f, b);
        if b in WalkInode(s.heap, ses, f).value.inode.blocks {
          BlocksDisjoint(s, i, WalkInode(s.heap, ses, f).value.node.inode, b);
        }
      }
    }
  }

  lemma FileKeyOld(s: State, i: Id)
    requires Inv(s) && IsInode(s.heap, i)
    ensures s.heap[i].key.FileKeys? && s.heap[i].key.raw < s.next
  {
    hide Slots, Users, DistinctUsers, Mailboxes, Accesses, Boxes, OwnKeys;
    assert InodeOk(s, i);
  }

  // ---- Every run

  lemma RegisterCustody(s: State, username: string, password: string)
    requires Inv(s) && InCustody(s) && !Registered(s, username)
    ensures Inv(Register(s, username, password)) && InCustody(Register(s, username, password))
  {
    hide Inv, Slots;
    var t := Register(s, username, password);
    RegisterKeeps(s, username, password);
    SlotsOf(s);
    RegisterFrame(s, username, password);
    RegisterSame(s, username, password);
    UsersIn(s);
    UsersIn(t);
    SameHolders(s, t);
  }

  lemma UsersIn(s: State)
    requires Inv(s)
    ensures Users(s) && Mailboxes(s) && Inodes(s) && OwnKeys(s)
  {
  }

  lemma RegisterSame(s: State, username: string, password: string)
    requires !Registered(s, username)
    ensures forall id :: id in s.heap ==> Same(s, Register(s, username, password), id)
    ensures forall id :: id in Register(s, username, password).heap && id !in s.heap ==>
              Register(s, username, password).heap[id].UserBlob?
    ensures s.next <= Register(s, username, password).next
  {
  }

  lemma SameHolders(s: State, t: State)
    requires Users(s) && Users(t) && CredentialsKept(s, t) && InCustody(s) && s.next <= t.next
    requires forall id :: id in s.heap ==> Same(s, t, id)
    requires forall id :: id in t.heap && id !in s.heap ==> t.heap[id].UserBlob?
    ensures InCustody(t)
  {
    hide Users, UserOk, MailKeysApart, KeyNamesInode, BlocksListed;
    forall id | IsAccess(t.heap, id)
      ensures exists p :: Holds(t, p) && SlotOf(p) == id
    {
      assert IsAccess(s.heap, id);
      var p :| Holds(s, p) && SlotOf(p) == id;
      assert Registered(s, p.0);
      assert Holds(t, p);
    }
    forall id | IsBox(t.heap, id)
      ensures exists sender, recipient :: Granted(t, (id, sender, recipient))
    {
      assert IsBox(s.heap, id);
      var sender, recipient :| Granted(s, (id, sender, recipient));
      assert Registered(s, sender) && Registered(s, recipient);
      assert Granted(t, (id, sender, recipient));
    }
    SameKeysApart(s, t);
  }

  lemma SameKeysApart(s: State, t: State)
    requires MailKeysApart(s) && KeyNamesInode(s) && BlocksListed(s) && s.next <= t.next
    requires forall id :: id in s.heap ==> Same(s, t, id)
    requires forall id :: id in t.heap && id !in s.heap ==> t.heap[id].UserBlob?
    ensures MailKeysApart(t) && KeyNamesInode(t) && BlocksListed(t)
  {
    assert SameMailboxes(s.heap, t.heap) && SameInodes(s.heap, t.heap);
    SameMailApart(s, t);
    forall b | IsBlock(t.heap, b)
      ensures exists i :: IsInode(t.heap, i) && b in InodeAt(t.heap, i).blocks
    {
      assert IsBlock(s.heap, b);
      var i :| IsInode(s.heap, i) && b in InodeAt(s.heap, i).blocks;
      assert IsInode(t.heap, i) && InodeAt(t.heap, i) == InodeAt(s.heap, i);
    }
  }

  lemma SameMailApart(s: State, t: State)
    requires MailKeysApart(s) && KeyNamesInode(s) && s.next <= t.next
    requires SameMailboxes(s.heap, t.heap) && SameInodes(s.heap, t.heap)
    ensures MailKeysApart(t) && KeyNamesInode(t)
  {
    forall m | IsMailbox(t.heap, m)
      ensures IsMailbox(s.heap, m) && t.heap[m] == s.heap[m]
    {
    }
    forall i | IsInode(t.heap, i)
      ensures IsInode(s.heap, i) && t.heap[i] == s.heap[i]
    {
    }
    hide SameMailboxes, SameInodes;
    assert MailKeysApart(t);
  }

  /** What one call of a registered user changes. */
  lemma CallCustody(s: State, call: Call) returns (f: string, n: Made)
    requires Inv(s) && !call.op.Init? && Registered(s, call.op.user)
    ensures UserOk(s, call.op.user) && CustodyStep(s, Step(s, call).0, call.op.user, f, n)
  {
    hide Inv, StoreFile, AppendToFile, CreateInvitation, AcceptInvitation, RevokeAccess, UserOk, CustodyStep;
    var op := call.op;
    KnownUser(s, op.user);
    var ses := SessionOf(s, op.user, call.files);
    f, n := op.file, Made(Random(0), 0, Random(0), 0);
    match op
    case Store(_, _, content) =>
      StoreCustody(s, ses, f, content);
      n := Made(Random(s.next + 2), s.next + 3, Random(s.next + 1), s.next);
    case Append(_, _, piece) => AppendCustody(s, ses, f, piece);
    case Invite(_, _, recipient) =>
      InviteCustody(s, ses, f, recipient);
      n := Made(Random(s.next), s.next + 1, Random(s.next), s.next);
    case Accept(_, sender, pointer, _) => AcceptCustody(s, ses, sender, pointer, f);
    case Revoke(_, _, recipient) => n := RevokeCustody(s, ses, f, recipient);
  }

  lemma CredentialsStay(s: State, call: Call)
    requires Inv(s)
    ensures Inv(Step(s, call).0) && CredentialsKept(s, Step(s, call).0)
  {
    hide Inv, Step;
    StepInv(s, call);
    UsersIn(s);
    UsersIn(Step(s, call).0);
    forall n | Registered(s, n)
      ensures Registered(Step(s, call).0, n) && Cred(Step(s, call).0, n) == Cred(s, n)
    {
      CredentialsLast(s, call, n);
    }
  }

  /** Every call keeps records, invitations, keys and blocks where they belong. */
  lemma CustodyKept(s: State, call: Call)
    requires Inv(s) && InCustody(s)
    ensures Inv(Step(s, call).0) && InCustody(Step(s, call).0)
  {
    hide Inv, UserOk, RecordsStep, BoxesStep, MailStep, InodeStep, BlocksStep, RecordsHeld, BoxesHeld, MailKeysApart,
      KeyNamesInode, BlocksListed, CredentialsKept, StoreFile, AppendToFile, CreateInvitation, AcceptInvitation, RevokeAccess;
    var t := Step(s, call).0;
    CredentialsStay(s, call);
    UsersIn(s);
    UsersIn(t);
    if call.op.Init? {
      if !Registered(s, call.op.user) {
        RegisterCustody(s, call.op.user, call.op.password);
      }
    } else if Registered(s, call.op.user) {
      hide Step;
      var f, n := CallCustody(s, call);
      HoldersStay(s, t, call.op.user, f);
      GrantersStay(s, t, call.op.user);
      MailKeysStayApart(s, t, n);
      KeysNameInodes(s, t, n);
      BlocksStayListed(s, t, n);
    }
  }

  /** Mailboxes that were there keep their keys; a new one has a key that was just drawn. */
  lemma MailboxKeysStay(s: State, call: Call, x: Id, k: RawKey)
    requires Inv(s) && InCustody(s) && MailboxUnder(Step(s, call).0.heap, x, k)
    ensures if x in s.heap then MailboxUnder(s.heap, x, k) && k < s.next else s.next <= k < Step(s, call).0.next
  {
    hide Inv, UserOk, RecordsStep, BoxesStep, InodeStep, BlocksStep, RecordsHeld, BoxesHeld, KeyNamesInode, BlocksListed,
      StoreFile, AppendToFile, CreateInvitation, AcceptInvitation, RevokeAccess;
    if call.op.Init? {
      if !Registered(s, call.op.user) {
        RegisterSame(s, call.op.user, call.op.password);
      }
    } else if Registered(s, call.op.user) {
      var f, n := CallCustody(s, call);
    }
  }

  lemma DrawsGrow(s: State, call: Call)
    requires Inv(s)
    ensures s.next <= Step(s, call).0.next
  {
    hide Inv, UserOk, RecordsStep, BoxesStep, InodeStep, BlocksStep, MailStep, StoreFile, AppendToFile, CreateInvitation, AcceptInvitation, RevokeAccess;
    if !call.op.Init? && Registered(s, call.op.user) {
      var f, n := CallCustody(s, call);
    }
  }

  /** In `t` the inode is under a key that was not yet drawn in `s`. */
  predicate NewerKey(s: State, t: State, i: Id)
    requires IsInode(t.heap, i)
  {
    t.heap[i].key.FileKeys? && t.heap[i].key.raw >= s.next
  }

  /** Unless it is re-keyed, a file's blocks stay as they are stored; a new key is newer. */
  lemma BlocksOfStep(s: State, call: Call, i: Id)
    requires Inv(s) && IsInode(s.heap, i)
    ensures var t := Step(s, call).0;
            && s.next <= t.next && IsInode(t.heap, i) && ListKept(s, t, i)
            && (t.heap[i].key == s.heap[i].key || NewerKey(s, t, i))
  {
    hide Inv, UserOk, RecordsStep, BoxesStep, MailStep, BlocksStep,
      StoreFile, AppendToFile, CreateInvitation, AcceptInvitation, RevokeAccess;
    InodeFacts(s, i);
    if call.op.Init? {
      if !Registered(s, call.op.user) {
        RegisterSame(s, call.op.user, call.op.password);
      }
    } else if Registered(s, call.op.user) {
      var f, n := CallCustody(s, call);
    }
  }

  lemma {:induction false} CustodyThroughRun(s: State, calls: seq<Call>)
    requires Inv(s) && InCustody(s)
    ensures InCustody(Run(s, calls))
    decreases |calls|
  {
    hide Inv, Step, InCustody;
    if calls != [] {
      CustodyKept(s, calls[0]);
      CustodyThroughRun(Step(s, calls[0]).0, calls[1..]);
    }
  }

  lemma ReachableInCustody(s: State)
    requires Reachable(s)
    ensures Inv(s) && Tree(Abs(s)) && InCustody(s)
  {
    hide Inv, Abs, Tree;
    ReachableIsSound(s);
    EmptyInv();
    var calls :| s == Run(EMPTY, calls);
    EmptyCustody();
    CustodyThroughRun(EMPTY, calls);
  }

  lemma EmptyCustody()
    ensures Inv(EMPTY) && InCustody(EMPTY)
  {
    EmptyInv();
  }

  // ---- The sharing tree in the datastore

  /** In every reachable datastore a mailbox is in at most one `Children` map, once; it is
      stored under the key recorded there and names the inode of the record's own mailbox. */
  lemma ListedOnce(s: State, id: Id, c: string, other: Id, d: string)
    requires Inv(s) && Tree(Abs(s)) && InCustody(s)
    requires IsAccess(s.heap, id) && c in AccessAt(s.heap, id).children
    requires IsAccess(s.heap, other) && d in AccessAt(s.heap, other).children
    ensures var child := AccessAt(s.heap, id).children[c];
            && MailboxUnder(s.heap, child.mailbox, child.key)
            && MailboxUnder(s.heap, AccessAt(s.heap, id).mailbox, AccessAt(s.heap, id).key)
            && MailboxAt(s.heap, child.mailbox).inode == MailboxAt(s.heap, AccessAt(s.heap, id).mailbox).inode
            && child.mailbox != AccessAt(s.heap, id).mailbox
    ensures AccessAt(s.heap, id).children[c].mailbox == AccessAt(s.heap, other).children[d].mailbox ==> id == other && c == d
  {
    hide Inv, Abs, Acyclic, Holds, Closed, SameFile, ForOneUser, OneNamePerSlot;
    UsersIn(s);
    AccessFacts(s, id);
    assert ChildOk(s.heap, AccessAt(s.heap, id), c);
    var p :| Holds(s, p) && SlotOf(p) == id;
    var q :| Holds(s, q) && SlotOf(q) == other;
    HeldName(s, p);
    HeldName(s, q);
    var x := AccessAt(s.heap, id).children[c].mailbox;
    assert Shares(Abs(s), p, c, x);
    assert Shares(Abs(s), q, d, AccessAt(s.heap, other).children[d].mailbox);
    NotOwnChild(Abs(s), p, c, x);
  }

  lemma NotOwnChild(a: Fs, p: (string, string), c: string, x: Id)
    requires Tree(a) && Shares(a, p, c, x)
    ensures x != a.names[p].cap
  {
    assert Edge(a, a.names[p].cap, x);
    assert IsPath(a, [a.names[p].cap, x]);
  }

  // ---- What the ids of the datastore tell

  /** A slot is taken exactly if some user holds a name with that id; on user names without
      NUL, exactly if that user holds that name. So whoever sees the ids can test a guess. */
  lemma IdsTellNames(s: State, u: string, f: string)
    requires Inv(s) && InCustody(s)
    ensures AccessId(u, f) in s.heap <==> exists p :: Holds(s, p) && SlotOf(p) == AccessId(u, f)
    ensures NulFree(u) && (forall n :: Registered(s, n) ==> NulFree(n)) ==> (AccessId(u, f) in s.heap <==> Holds(s, (u, f)))
  {
    hide Inv, AccessId, UserOk, BoxesHeld, MailKeysApart, KeyNamesInode, BlocksListed, NulFree;
    UsersIn(s);
    AccessSlot(s, u, f);
    if AccessId(u, f) in s.heap {
      var p :| Holds(s, p) && SlotOf(p) == AccessId(u, f);
      if NulFree(u) && NulFree(p.0) {
        AccessIdInjective(u, f, p.0, p.1);
        assert p == (u, f);
      }
    }
  }
}
