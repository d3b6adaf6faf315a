/** The datastore changes that the operations are made of. Each keeps the invariant,
    and each has one effect on the capability file system. */
module Edits {
  import opened Basics
  import opened Ids
  import opened Records
  import opened Services
  import opened Invariant
  import opened CapabilityFs
  import opened Abstraction
  import opened Frames

  // ---- Random draws

  function Draw(s: State, n: nat): State {
    s.(next := s.next + n)
  }

  lemma DrawKeeps(s: State, n: nat)
    requires Inv(s)
    ensures Inv(Draw(s, n)) && SameUsers(s, Draw(s, n)) && Abs(Draw(s, n)) == Abs(s)
  {
    var t := Draw(s, n);
    assert forall id :: id in t.heap ==> WellPlaced(s, id);
    SameHeap(s, t);
  }

  lemma SameHeap(s: State, t: State)
    requires Inv(s) && Slots(t) && t.heap == s.heap && t.keys == s.keys && s.next <= t.next
    ensures Inv(t) && SameUsers(s, t) && Abs(t) == Abs(s)
  {
    UsersFrame(s, t);
    InodesFrame(s, t);
    MailboxesFrame(s, t);
    AccessesFrame(s, t);
    BoxesFrame(s, t);
    NamesFrame(s, t);
    CapsFrame(s, t);
    GrantsFrame(s, t);
  }

  // ---- saveUser: the name table of a registered user

  lemma SaveUserFrame(s: State, ses: Session)
    requires Slots(s) && Users(s) && Genuine(s, ses)
    ensures var t := s.(heap := SaveUser(s.heap, ses));
            && Slots(t) && UsersKept(s, t) && BlocksKept(s.heap, t.heap) && SameAccesses(s.heap, t.heap)
            && SameMailboxes(s.heap, t.heap) && SameInodes(s.heap, t.heap) && SameBoxes(s.heap, t.heap)
  {
    hide Slots, UserId, IsAccessSlot, UsersKept, BlocksKept, SameAccesses, SameMailboxes, SameInodes, SameBoxes;
    var t := s.(heap := SaveUser(s.heap, ses));
    var slot := UserId(ses.creds.username);
    assert Registered(s, ses.creds.username) && UserOk(s, ses.creds.username);
    WriteKinds(s, t, slot);
    SaveUserUsers(s, ses);
    WriteSlots(s, t, slot);
  }

  lemma SaveUserUsers(s: State, ses: Session)
    requires Users(s) && Genuine(s, ses)
    ensures UsersKept(s, s.(heap := SaveUser(s.heap, ses)))
  {
    hide UserId, EncName, SigName;
    UserIdsInjective();
    assert Registered(s, ses.creds.username) && UserOk(s, ses.creds.username);
  }

  lemma SaveUserKeeps(s: State, ses: Session)
    requires Inv(s) && Genuine(s, ses)
    ensures var t := s.(heap := SaveUser(s.heap, ses)); Inv(t) && SameUsers(s, t) && Abs(t) == Abs(s) && Genuine(t, ses)
  {
    var t := s.(heap := SaveUser(s.heap, ses));
    SaveUserFrame(s, ses);
    UsersFrame(s, t);
    InodesFrame(s, t);
    MailboxesFrame(s, t);
    AccessesFrame(s, t);
    BoxesFrame(s, t);
    NamesFrame(s, t);
    CapsFrame(s, t);
    GrantsFrame(s, t);
  }

  lemma UserIdsInjective()
    ensures forall m, n :: UserId(m) == UserId(n) ==> m == n
  {
    forall m, n | UserId(m) == UserId(n)
      ensures m == n
    {
      UserIdInjective(m, n);
    }
  }

  // ---- Access records

  function SetAccess(s: State, creds: Credentials, filename: string, access: Access): State {
    s.(heap := s.heap[AccessId(creds.username, filename) :=
      Sealed(PersonalKey(creds.master, filename), AccessPlain(access))])
  }

  /** What a slot of the access kind can hold already. */
  lemma AccessSlotFree(s: State, username: string, filename: string)
    requires Slots(s)
    ensures var slot := AccessId(username, filename);
            && slot.Digest? && IsAccessSlot(slot)
            && (forall n :: UserId(n) != slot)
            && (slot in s.heap ==> IsAccess(s.heap, slot))
  {
    SlotFacts(username, filename, 0);
    var slot := AccessId(username, filename);
    if slot in s.heap {
      assert WellPlaced(s, slot);
    }
  }

  /** Writing an access slot disturbs no record of another kind. */
  lemma SetAccessFrame(s: State, creds: Credentials, f: string, access: Access)
    requires Slots(s)
    ensures var t := SetAccess(s, creds, f, access);
            && Slots(t) && UsersKept(s, t) && BlocksKept(s.heap, t.heap)
            && SameMailboxes(s.heap, t.heap) && SameInodes(s.heap, t.heap) && SameBoxes(s.heap, t.heap)
  {
    hide Slots, UserId, AccessId, IsAccessSlot, UsersKept, BlocksKept, SameMailboxes, SameInodes, SameBoxes;
    var t := SetAccess(s, creds, f, access);
    var slot := AccessId(creds.username, f);
    AccessSlotFree(s, creds.username, f);
    WriteKinds(s, t, slot);
    WriteUsers(s, t, slot);
    WriteSlots(s, t, slot);
  }

  lemma SetAccessGood(s: State, creds: Credentials, f: string, access: Access)
    requires Slots(s) && Users(s) && Accesses(s)
    requires Registered(s, creds.username) && Cred(s, creds.username) == creds
    requires GoodAccess(s.heap, access)
    requires MailboxesKept(s.heap, SetAccess(s, creds, f, access).heap)
    ensures Accesses(SetAccess(s, creds, f, access))
  {
    var t := SetAccess(s, creds, f, access);
    var slot := AccessId(creds.username, f);
    assert UserOk(s, creds.username);
    forall id | IsAccess(t.heap, id)
      ensures AccessOk(t, id)
    {
      if id == slot {
        StillGood(s.heap, t.heap, access);
      } else {
        assert AccessOk(s, id);
        StillGood(s.heap, t.heap, AccessAt(s.heap, id));
      }
    }
  }

  lemma SetAccessInv(s: State, creds: Credentials, f: string, access: Access)
    requires Inv(s) && Registered(s, creds.username) && Cred(s, creds.username) == creds
    requires GoodAccess(s.heap, access)
    ensures var t := SetAccess(s, creds, f, access);
            && Inv(t) && SameUsers(s, t)
            && AbsUsers(t) == AbsUsers(s) && AbsCaps(t) == AbsCaps(s)
            && AbsFiles(t) == AbsFiles(s) && AbsGrants(t) == AbsGrants(s)
  {
    var t := SetAccess(s, creds, f, access);
    SetAccessFrame(s, creds, f, access);
    UsersFrame(s, t);
    InodesFrame(s, t);
    MailboxesFrame(s, t);
    BoxesFrame(s, t);
    CapsFrame(s, t);
    GrantsFrame(s, t);
    SetAccessGood(s, creds, f, access);
  }

  /** Only the writer's own name can open what it wrote. */
  lemma SlotOwner(s: State, creds: Credentials, p: (string, string), f: string)
    requires Users(s) && DistinctUsers(s)
    requires Registered(s, creds.username) && Cred(s, creds.username) == creds
    ensures SlotOf(p) == AccessId(creds.username, f) && Registered(s, p.0) && Cred(s, p.0).master == creds.master ==>
              p == (creds.username, f)
  {
    SameUserSlots(creds.username, p.1, f);
  }

  lemma SetAccessNames(s: State, creds: Credentials, f: string, access: Access)
    requires Slots(s) && Users(s) && DistinctUsers(s)
    requires Registered(s, creds.username) && Cred(s, creds.username) == creds
    requires Users(SetAccess(s, creds, f, access)) && SameUsers(s, SetAccess(s, creds, f, access))
    ensures AbsNames(SetAccess(s, creds, f, access)) == PutName(AbsNames(s), (creds.username, f), NameOf(access))
  {
    hide AccessId, UserId, UserOk, IsUserSlot, IsAccessSlot, Slots;
    AccessSlotFree(s, creds.username, f);
    var t := SetAccess(s, creds, f, access);
    var slot := AccessId(creds.username, f);
    forall p: (string, string)
      ensures Holds(t, p) <==> p == (creds.username, f) || (Holds(s, p) && SlotOf(p) != slot)
    {
      SlotOwner(s, creds, p, f);
    }
  }

  lemma SetAccessKeeps(s: State, creds: Credentials, f: string, access: Access)
    requires Inv(s) && Registered(s, creds.username) && Cred(s, creds.username) == creds
    requires GoodAccess(s.heap, access)
    ensures var t := SetAccess(s, creds, f, access);
            && Inv(t) && SameUsers(s, t)
            && Abs(t) == Abs(s).(names := PutName(Abs(s).names, (creds.username, f), NameOf(access)))
  {
    SetAccessInv(s, creds, f, access);
    SetAccessNames(s, creds, f, access);
  }

  // ---- New mailboxes

  function AddMailbox(s: State, id: Id, key: RawKey, node: MailboxNode): State {
    s.(heap := s.heap[id := Sealed(MailKeys(key), MailboxPlain(node))])
  }

  ghost predicate Unused(s: State, id: Id) {
    id.Random? && id.serial < s.next && id !in s.heap
  }

  lemma AddMailboxFrame(s: State, id: Id, key: RawKey, node: MailboxNode)
    requires Slots(s) && Unused(s, id)
    ensures var t := AddMailbox(s, id, key, node);
            && Slots(t) && UsersKept(s, t) && BlocksKept(s.heap, t.heap) && SameAccesses(s.heap, t.heap)
            && SameInodes(s.heap, t.heap) && SameBoxes(s.heap, t.heap) && MailboxesKept(s.heap, t.heap)
  {
    hide Slots, UserId, UsersKept, BlocksKept, SameAccesses, SameInodes, SameBoxes;
    var t := AddMailbox(s, id, key, node);
    NotUserSlot(id);
    WriteKinds(s, t, id);
    WriteUsers(s, t, id);
    WriteSlots(s, t, id);
  }

  lemma AddMailboxGood(s: State, id: Id, key: RawKey, node: MailboxNode)
    requires Mailboxes(s) && node.fileKey < s.next && IsInode(s.heap, node.inode) && id !in s.heap
    ensures Mailboxes(AddMailbox(s, id, key, node))
  {
    var t := AddMailbox(s, id, key, node);
    forall i | IsMailbox(t.heap, i)
      ensures MailboxOk(t, i)
    {
      if i != id {
        assert IsMailbox(s.heap, i) && MailboxOk(s, i);
      }
    }
  }

  lemma AddMailboxKeeps(s: State, id: Id, key: RawKey, node: MailboxNode)
    requires Inv(s) && Unused(s, id) && node.fileKey < s.next && IsInode(s.heap, node.inode)
    ensures var t := AddMailbox(s, id, key, node);
            && Inv(t) && SameUsers(s, t)
            && Abs(t) == Abs(s).(caps :=
                 Abs(s).caps[id := Cap(node.inode, s.heap[node.inode].key == FileKeys(node.fileKey))])
            && MailboxesKept(s.heap, t.heap) && MailboxUnder(t.heap, id, key)
  {
    var t := AddMailbox(s, id, key, node);
    AddMailboxFrame(s, id, key, node);
    UsersFrame(s, t);
    InodesFrame(s, t);
    AccessesFrame(s, t);
    BoxesFrame(s, t);
    NamesFrame(s, t);
    GrantsFrame(s, t);
    AddMailboxGood(s, id, key, node);
    AddMailboxCaps(s, id, key, node);
  }

  lemma AddMailboxCaps(s: State, id: Id, key: RawKey, node: MailboxNode)
    requires Mailboxes(s) && id !in s.heap && IsInode(s.heap, node.inode)
    requires Mailboxes(AddMailbox(s, id, key, node))
    ensures AbsCaps(AddMailbox(s, id, key, node)) ==
            AbsCaps(s)[id := Cap(node.inode, s.heap[node.inode].key == FileKeys(node.fileKey))]
  {
    var t := AddMailbox(s, id, key, node);
    assert forall i :: i in s.heap ==> t.heap[i] == s.heap[i];
    forall i | IsMailbox(s.heap, i)
      ensures OpensInode(s.heap, i) == OpensInode(t.heap, i)
    {
      assert MailboxOk(s, i);
    }
  }

  // ---- Invitations

  function AddBox(s: State, id: Id, box: Payload): State {
    s.(heap := s.heap[id := box])
  }

  lemma AddBoxFrame(s: State, id: Id, box: Payload)
    requires Slots(s) && Unused(s, id) && box.SignedBox?
    ensures var t := AddBox(s, id, box);
            && Slots(t) && UsersKept(s, t) && BlocksKept(s.heap, t.heap) && SameAccesses(s.heap, t.heap)
            && SameInodes(s.heap, t.heap) && SameMailboxes(s.heap, t.heap)
  {
    hide Slots, UserId, UsersKept, BlocksKept, SameAccesses, SameInodes, SameMailboxes;
    var t := AddBox(s, id, box);
    NotUserSlot(id);
    WriteKinds(s, t, id);
    WriteUsers(s, t, id);
    WriteSlots(s, t, id);
  }

  lemma AddBoxKeeps(s: State, id: Id, sender: string, recipient: string, inv: Invitation)
    requires Inv(s) && Unused(s, id) && Registered(s, sender) && Registered(s, recipient)
    requires MailboxUnder(s.heap, inv.mailbox, inv.key)
    ensures UserOk(s, sender) && UserOk(s, recipient)
    ensures var t := AddBox(s, id, SignedBox(Cred(s, recipient).encKey, inv, Cred(s, sender).sigKey));
            && Inv(t) && SameUsers(s, t) && MailboxesKept(s.heap, t.heap)
            && Abs(t) == Abs(s).(grants := Abs(s).grants[(id, sender, recipient) := inv.mailbox])
  {
    var box := SignedBox(Cred(s, recipient).encKey, inv, Cred(s, sender).sigKey);
    var t := AddBox(s, id, box);
    AddBoxFrame(s, id, box);
    UsersFrame(s, t);
    InodesFrame(s, t);
    MailboxesFrame(s, t);
    AccessesFrame(s, t);
    NamesFrame(s, t);
    CapsFrame(s, t);
    AddBoxGood(s, id, box);
    AddBoxGrants(s, id, sender, recipient, inv);
  }

  lemma AddBoxGood(s: State, id: Id, box: Payload)
    requires Boxes(s) && id !in s.heap && box.SignedBox? && box.recipient < s.next && box.signer < s.next
    requires MailboxUnder(s.heap, box.invitation.mailbox, box.invitation.key)
    ensures Boxes(AddBox(s, id, box))
  {
    var t := AddBox(s, id, box);
    assert forall i :: i in s.heap ==> t.heap[i] == s.heap[i];
    assert forall i :: IsBox(t.heap, i) && i != id ==> IsBox(s.heap, i);
  }

  lemma AddBoxGrants(s: State, id: Id, sender: string, recipient: string, inv: Invitation)
    requires Users(s) && DistinctUsers(s) && id !in s.heap && Registered(s, sender) && Registered(s, recipient)
    requires UserOk(s, sender) && UserOk(s, recipient)
    requires Users(AddBox(s, id, SignedBox(Cred(s, recipient).encKey, inv, Cred(s, sender).sigKey)))
    requires SameUsers(s, AddBox(s, id, SignedBox(Cred(s, recipient).encKey, inv, Cred(s, sender).sigKey)))
    ensures AbsGrants(AddBox(s, id, SignedBox(Cred(s, recipient).encKey, inv, Cred(s, sender).sigKey))) ==
            AbsGrants(s)[(id, sender, recipient) := inv.mailbox]
  {
    hide Users, DistinctUsers, SameUsers, Granted, UserOk;
    var t := AddBox(s, id, SignedBox(Cred(s, recipient).encKey, inv, Cred(s, sender).sigKey));
    forall g: (Id, string, string)
      ensures Granted(t, g) <==> Granted(s, g) || g == (id, sender, recipient)
      ensures Granted(s, g) ==> g.0 != id && g.0 in s.heap
    {
      AddBoxGranted(s, t, id, sender, recipient, inv, g);
    }
  }

  lemma AddBoxGranted(s: State, t: State, id: Id, sender: string, recipient: string, inv: Invitation,
      g: (Id, string, string))
    requires Users(s) && DistinctUsers(s) && id !in s.heap && Registered(s, sender) && Registered(s, recipient)
    requires Users(t) && SameUsers(s, t)
    requires t.heap == s.heap[id := SignedBox(Cred(s, recipient).encKey, inv, Cred(s, sender).sigKey)]
    ensures Granted(t, g) <==> Granted(s, g) || g == (id, sender, recipient)
    ensures Granted(s, g) ==> g.0 != id && g.0 in s.heap
  {
    hide UserOk, UserId;
    if g.0 == id && Granted(t, g) {
      assert Cred(s, g.1).sigKey == Cred(s, sender).sigKey && Cred(s, g.2).encKey == Cred(s, recipient).encKey;
    }
  }

  // ---- Blocks and inodes

  lemma SealedBlocksAt(base: nat, chunks: seq<Bytes>, key: SymKey)
    ensures forall id :: id in SealedBlocks(base, chunks, key) <==>
              id.Random? && base <= id.serial < base + |chunks|
    ensures forall j :: 0 <= j < |chunks| ==>
              (Random(base + j) in SealedBlocks(base, chunks, key)
               && SealedBlocks(base, chunks, key)[Random(base + j)] == Sealed(key, BlockPlain(chunks[j])))
  {
    var ids := FreshIds(base, |chunks|);
    forall id: Id | id.Random? && base <= id.serial < base + |chunks|
      ensures id in ids
    {
      assert ids[id.serial - base] == id;
    }
  }

  lemma SealedEntry(base: nat, chunks: seq<Bytes>, key: SymKey, id: Id)
    ensures id in SealedBlocks(base, chunks, key) <==> id.Random? && base <= id.serial < base + |chunks|
    ensures id in SealedBlocks(base, chunks, key) ==>
              SealedBlocks(base, chunks, key)[id] == Sealed(key, BlockPlain(chunks[id.serial - base]))
  {
    SealedBlocksAt(base, chunks, key);
    if id in SealedBlocks(base, chunks, key) {
      assert id == Random(base + (id.serial - base));
    }
  }

  function AddBlocks(s: State, base: nat, chunks: seq<Bytes>, key: SymKey): State {
    s.(heap := s.heap + SealedBlocks(base, chunks, key))
  }

  ghost predicate UnusedRange(s: State, base: nat, n: nat) {
    && base + n <= s.next
    && forall id :: id in s.heap && id.Random? ==> !(base <= id.serial < base + n)
  }

  lemma AddBlocksFrame(s: State, base: nat, chunks: seq<Bytes>, key: SymKey)
    requires Slots(s) && UnusedRange(s, base, |chunks|)
    ensures var t := AddBlocks(s, base, chunks, key);
            && Slots(t) && UsersKept(s, t) && BlocksKept(s.heap, t.heap) && SameAccesses(s.heap, t.heap)
            && SameInodes(s.heap, t.heap) && SameMailboxes(s.heap, t.heap) && SameBoxes(s.heap, t.heap)
  {
    var t := AddBlocks(s, base, chunks, key);
    SealedBlocksAt(base, chunks, key);
    assert forall i :: i in s.heap ==> t.heap[i] == s.heap[i];
    forall i | i in t.heap && i !in s.heap
      ensures IsBlock(t.heap, i) && i.Random? && i.serial < s.next
    {
      assert i == Random(base + (i.serial - base));
    }
    assert Slots(t) by {
      assert forall i :: i in s.heap ==> WellPlaced(s, i);
    }
  }

  lemma AddBlocksKeeps(s: State, base: nat, chunks: seq<Bytes>, key: SymKey)
    requires Inv(s) && UnusedRange(s, base, |chunks|)
    ensures var t := AddBlocks(s, base, chunks, key);
            Inv(t) && SameUsers(s, t) && Abs(t) == Abs(s) && SameInodes(s.heap, t.heap) && BlocksKept(s.heap, t.heap)
  {
    var t := AddBlocks(s, base, chunks, key);
    AddBlocksFrame(s, base, chunks, key);
    UsersFrame(s, t);
    InodesFrame(s, t);
    MailboxesFrame(s, t);
    AccessesFrame(s, t);
    BoxesFrame(s, t);
    NamesFrame(s, t);
    CapsFrame(s, t);
    GrantsFrame(s, t);
  }

  function SetInode(s: State, id: Id, raw: RawKey, inode: Inode): State {
    s.(heap := s.heap[id := Sealed(FileKeys(raw), InodePlain(inode))])
  }

  ghost predicate GoodInode(h: Heap, raw: RawKey, inode: Inode) {
    && Distinct(inode.blocks)
    && (forall j :: 0 <= j < |inode.blocks| ==>
          IsBlock(h, inode.blocks[j]) && h[inode.blocks[j]].key == FileKeys(raw))
    && inode.size == |Flatten(Plaintexts(h, inode.blocks))|
  }

  /** Either a new inode under a new key, or the present inode under its present key. */
  ghost predicate MayWriteInode(s: State, id: Id, raw: RawKey) {
    if IsInode(s.heap, id) then s.heap[id].key == FileKeys(raw)
    else Unused(s, id) && raw < s.next && forall i :: IsInode(s.heap, i) ==> s.heap[i].key != FileKeys(raw)
  }

  lemma SetInodeFrame(s: State, id: Id, raw: RawKey, inode: Inode)
    requires Slots(s) && MayWriteInode(s, id, raw)
    ensures var t := SetInode(s, id, raw, inode);
            && Slots(t) && UsersKept(s, t) && BlocksKept(s.heap, t.heap) && SameAccesses(s.heap, t.heap)
            && SameMailboxes(s.heap, t.heap) && SameBoxes(s.heap, t.heap)
            && InodesKept(s.heap, t.heap) && SameKeys(s.heap, t.heap)
  {
    hide UserId, IsAccessSlot, UsersKept, BlocksKept, SameAccesses, SameMailboxes, SameBoxes;
    var t := SetInode(s, id, raw, inode);
    assert id in s.heap ==> WellPlaced(s, id);
    NotUserSlot(id);
    WriteKinds(s, t, id);
    WriteUsers(s, t, id);
    WriteSlots(s, t, id);
  }

  /** One inode of the new datastore: the written one, or one that was there. */
  lemma SetInodeAt(s: State, id: Id, raw: RawKey, inode: Inode, i: Id)
    requires Inodes(s) && MayWriteInode(s, id, raw) && GoodInode(s.heap, raw, inode)
    requires BlocksKept(s.heap, SetInode(s, id, raw, inode).heap)
    requires IsInode(SetInode(s, id, raw, inode).heap, i)
    ensures var t := SetInode(s, id, raw, inode);
            && InodeOk(t, i)
            && (i != id ==> IsInode(s.heap, i) && AbsFile(t.heap, i) == AbsFile(s.heap, i))
            && (i == id ==> AbsFile(t.heap, i) == File(Flatten(Plaintexts(s.heap, inode.blocks)), |inode.blocks|))
  {
    var t := SetInode(s, id, raw, inode);
    if i == id {
      assert Plaintexts(t.heap, inode.blocks) == Plaintexts(s.heap, inode.blocks);
      assert IsInode(s.heap, id) ==> InodeOk(s, id);
    } else {
      assert IsInode(s.heap, i) && InodeOk(s, i);
      InodeFrame(s, t, i);
    }
  }

  lemma SetInodeGood(s: State, id: Id, raw: RawKey, inode: Inode)
    requires Inodes(s) && OwnKeys(s) && MayWriteInode(s, id, raw) && GoodInode(s.heap, raw, inode)
    requires BlocksKept(s.heap, SetInode(s, id, raw, inode).heap)
    ensures var t := SetInode(s, id, raw, inode); Inodes(t) && OwnKeys(t)
  {
    var t := SetInode(s, id, raw, inode);
    forall i | IsInode(t.heap, i)
      ensures InodeOk(t, i)
    {
      SetInodeAt(s, id, raw, inode, i);
    }
  }

  lemma SetInodeFiles(s: State, id: Id, raw: RawKey, inode: Inode)
    requires Inodes(s) && MayWriteInode(s, id, raw) && GoodInode(s.heap, raw, inode)
    requires BlocksKept(s.heap, SetInode(s, id, raw, inode).heap)
    ensures AbsFiles(SetInode(s, id, raw, inode)) ==
            AbsFiles(s)[id := File(Flatten(Plaintexts(s.heap, inode.blocks)), |inode.blocks|)]
  {
    hide Inodes, InodeOk, GoodInode, MayWriteInode, BlocksKept, Plaintexts;
    var t := SetInode(s, id, raw, inode);
    var file := File(Flatten(Plaintexts(s.heap, inode.blocks)), |inode.blocks|);
    forall i | i in AbsFiles(t)
      ensures AbsFiles(t)[i] == if i == id then file else AbsFile(s.heap, i)
    {
      SetInodeAt(s, id, raw, inode, i);
    }
    assert AbsFiles(t).Keys == AbsFiles(s).Keys + {id};
  }

  lemma SetInodeKeeps(s: State, id: Id, raw: RawKey, inode: Inode)
    requires Inv(s) && MayWriteInode(s, id, raw) && GoodInode(s.heap, raw, inode)
    ensures var t := SetInode(s, id, raw, inode);
            && Inv(t) && SameUsers(s, t)
            && Abs(t) == Abs(s).(files :=
                 Abs(s).files[id := File(Flatten(Plaintexts(s.heap, inode.blocks)), |inode.blocks|)])
  {
    var t := SetInode(s, id, raw, inode);
    SetInodeFrame(s, id, raw, inode);
    UsersFrame(s, t);
    SetInodeGood(s, id, raw, inode);
    SetInodeFiles(s, id, raw, inode);
    MailboxesFrame(s, t);
    AccessesFrame(s, t);
    BoxesFrame(s, t);
    NamesFrame(s, t);
    CapsFrame(s, t);
    GrantsFrame(s, t);
  }

  // ---- Re-keying

  function Reseal(s: State, id: Id, raw: RawKey): State
    requires IsInode(s.heap, id)
  {
    var inode := InodeAt(s.heap, id);
    s.(heap := (s.heap + Resealed(s.heap, inode.blocks, FileKeys(raw)))[id := Sealed(FileKeys(raw), InodePlain(inode))])
  }

  /** A drawn key that no mailbox and no inode holds. */
  ghost predicate NewFileKey(s: State, raw: RawKey) {
    && raw < s.next
    && (forall i :: IsInode(s.heap, i) ==> s.heap[i].key != FileKeys(raw))
    && (forall m :: IsMailbox(s.heap, m) ==> MailboxAt(s.heap, m).fileKey != raw)
  }

  /** Only the inode's own record and the seals of its blocks change. */
  ghost predicate Reseals(h: Heap, g: Heap, id: Id, raw: RawKey)
    requires IsInode(h, id)
  {
    && g.Keys == h.Keys
    && (forall i :: i in h && !IsBlock(h, i) && i != id ==> g[i] == h[i])
    && g[id] == Sealed(FileKeys(raw), h[id].body)
    && (forall i :: IsBlock(h, i) ==>
          g[i] == Sealed(if i in InodeAt(h, id).blocks then FileKeys(raw) else h[i].key, h[i].body))
  }

  lemma ResealReseals(s: State, id: Id, raw: RawKey)
    requires IsInode(s.heap, id)
    ensures Reseals(s.heap, Reseal(s, id, raw).heap, id, raw)
  {
  }

  lemma ResealFrame(s: State, t: State, id: Id, raw: RawKey)
    requires Slots(s) && IsInode(s.heap, id) && t.keys == s.keys && t.next == s.next
    requires Reseals(s.heap, t.heap, id, raw)
    ensures Slots(t) && UsersKept(s, t) && SameAccesses(s.heap, t.heap)
    ensures SameMailboxes(s.heap, t.heap) && SameBoxes(s.heap, t.heap) && InodesKept(s.heap, t.heap)
  {
    assert WellPlaced(s, id);
    assert Slots(t) by {
      assert forall i :: i in s.heap ==> WellPlaced(s, i);
    }
  }

  /** The text of every file survives; its key is the new one, other inodes keep theirs. */
  lemma ResealAt(s: State, t: State, id: Id, raw: RawKey, i: Id)
    requires Inodes(s) && OwnKeys(s) && IsInode(s.heap, id) && raw < s.next == t.next
    requires Reseals(s.heap, t.heap, id, raw) && IsInode(s.heap, i)
    ensures IsInode(t.heap, i) && InodeOk(t, i) && AbsFile(t.heap, i) == AbsFile(s.heap, i)
    ensures t.heap[i].key == if i == id then FileKeys(raw) else s.heap[i].key
  {
    assert InodeOk(s, i) && InodeOk(s, id);
    var blocks := InodeAt(s.heap, i).blocks;
    forall j | 0 <= j < |blocks|
      ensures BlockBytes(t.heap, blocks[j]) == BlockBytes(s.heap, blocks[j])
      ensures IsBlock(t.heap, blocks[j]) && t.heap[blocks[j]].key == t.heap[i].key
    {
      assert IsBlock(s.heap, blocks[j]);
      if blocks[j] in InodeAt(s.heap, id).blocks {
        assert s.heap[i].key == s.heap[id].key;
      }
    }
    assert Plaintexts(t.heap, blocks) == Plaintexts(s.heap, blocks);
  }

  lemma ResealInodes(s: State, t: State, id: Id, raw: RawKey)
    requires Inodes(s) && OwnKeys(s) && IsInode(s.heap, id) && NewFileKey(s, raw) && s.next == t.next
    requires Reseals(s.heap, t.heap, id, raw)
    ensures Inodes(t) && OwnKeys(t) && AbsFiles(t) == AbsFiles(s)
  {
    hide InodeOk, AbsFile;
    forall i | IsInode(t.heap, i)
      ensures IsInode(s.heap, i) && InodeOk(t, i) && AbsFile(t.heap, i) == AbsFile(s.heap, i)
      ensures t.heap[i].key == if i == id then FileKeys(raw) else s.heap[i].key
    {
      assert IsInode(s.heap, i);
      ResealAt(s, t, id, raw, i);
    }
  }

  lemma ResealCaps(s: State, t: State, id: Id, raw: RawKey)
    requires Mailboxes(s) && Mailboxes(t) && Inodes(s) && OwnKeys(s) && IsInode(s.heap, id) && NewFileKey(s, raw)
    requires Reseals(s.heap, t.heap, id, raw) && s.next == t.next && SameMailboxes(s.heap, t.heap)
    ensures AbsCaps(t) == Rekey(AbsCaps(s), id, {})
  {
    hide InodeOk, AbsFile;
    forall m | IsMailbox(s.heap, m)
      ensures MailboxOk(s, m) && MailboxOk(t, m)
      ensures OpensInode(t.heap, m) == (MailboxAt(s.heap, m).inode != id && OpensInode(s.heap, m))
    {
      assert MailboxOk(s, m) && MailboxOk(t, m);
      ResealAt(s, t, id, raw, MailboxAt(s.heap, m).inode);
    }
  }

  lemma ResealKeeps(s: State, id: Id, raw: RawKey)
    requires Inv(s) && IsInode(s.heap, id) && NewFileKey(s, raw)
    ensures var t := Reseal(s, id, raw);
            && Inv(t) && SameUsers(s, t) && SameMailboxes(s.heap, t.heap) && MailboxesKept(s.heap, t.heap)
            && SameAccesses(s.heap, t.heap)
            && IsInode(t.heap, id) && t.heap[id].key == FileKeys(raw)
            && Abs(t) == Abs(s).(caps := Rekey(Abs(s).caps, id, {}))
  {
    var t := Reseal(s, id, raw);
    ResealReseals(s, id, raw);
    ResealFrame(s, t, id, raw);
    UsersFrame(s, t);
    ResealInodes(s, t, id, raw);
    MailboxesFrame(s, t);
    AccessesFrame(s, t);
    BoxesFrame(s, t);
    NamesFrame(s, t);
    ResealCaps(s, t, id, raw);
    GrantsFrame(s, t);
  }

  function Refresh(s: State, mailboxes: set<Id>, raw: RawKey): State {
    s.(heap := s.heap + Refreshed(s.heap, mailboxes, raw))
  }

  /** Capabilities in `cs` become live, given that they all hold on `file`. */
  ghost function Revive(caps: map<Id, Cap>, cs: set<Id>): map<Id, Cap> {
    map c | c in caps :: if c in cs then caps[c].(live := true) else caps[c]
  }

  /** Only mailboxes in the set change, and only in their file key. */
  ghost predicate Refreshes(h: Heap, g: Heap, mailboxes: set<Id>, raw: RawKey) {
    && g.Keys == h.Keys
    && (forall i :: i in h && !(i in mailboxes && IsMailbox(h, i)) ==> g[i] == h[i])
    && (forall i :: i in mailboxes && IsMailbox(h, i) ==>
          g[i] == Sealed(h[i].key, MailboxPlain(MailboxNode(raw, MailboxAt(h, i).inode))))
  }

  lemma RefreshRefreshes(s: State, mailboxes: set<Id>, raw: RawKey)
    ensures Refreshes(s.heap, Refresh(s, mailboxes, raw).heap, mailboxes, raw)
  {
  }

  lemma RefreshFrame(s: State, t: State, mailboxes: set<Id>, raw: RawKey)
    requires Slots(s) && t.keys == s.keys && t.next == s.next && Refreshes(s.heap, t.heap, mailboxes, raw)
    ensures Slots(t) && UsersKept(s, t) && SameAccesses(s.heap, t.heap) && SameInodes(s.heap, t.heap)
    ensures SameBoxes(s.heap, t.heap) && BlocksKept(s.heap, t.heap) && MailboxesKept(s.heap, t.heap)
  {
    assert Slots(t) by {
      assert forall i :: i in s.heap ==> WellPlaced(s, i);
    }
  }

  lemma RefreshMailboxes(s: State, t: State, mailboxes: set<Id>, raw: RawKey)
    requires Mailboxes(s) && raw < s.next == t.next && Refreshes(s.heap, t.heap, mailboxes, raw)
    requires SameInodes(s.heap, t.heap)
    requires forall m :: m in mailboxes && IsMailbox(s.heap, m) ==>
               MailboxOk(s, m) && s.heap[MailboxAt(s.heap, m).inode].key == FileKeys(raw)
    ensures Mailboxes(t) && AbsCaps(t) == Revive(AbsCaps(s), mailboxes)
  {
    forall m | IsMailbox(t.heap, m)
      ensures MailboxOk(t, m) && IsMailbox(s.heap, m) && MailboxOk(s, m)
      ensures OpensInode(t.heap, m) == (m in mailboxes || OpensInode(s.heap, m))
    {
      assert IsMailbox(s.heap, m) && MailboxOk(s, m);
    }
  }

  lemma RefreshKeeps(s: State, mailboxes: set<Id>, raw: RawKey)
    requires Inv(s) && raw < s.next
    requires forall m :: m in mailboxes && IsMailbox(s.heap, m) ==>
               MailboxOk(s, m) && s.heap[MailboxAt(s.heap, m).inode].key == FileKeys(raw)
    ensures var t := Refresh(s, mailboxes, raw);
            && Inv(t) && SameUsers(s, t) && MailboxesKept(s.heap, t.heap)
            && Abs(t) == Abs(s).(caps := Revive(Abs(s).caps, mailboxes))
  {
    var t := Refresh(s, mailboxes, raw);
    RefreshRefreshes(s, mailboxes, raw);
    RefreshFrame(s, t, mailboxes, raw);
    UsersFrame(s, t);
    InodesFrame(s, t);
    RefreshMailboxes(s, t, mailboxes, raw);
    AccessesFrame(s, t);
    BoxesFrame(s, t);
    NamesFrame(s, t);
    GrantsFrame(s, t);
  }

  // ---- New users

  /** A registration: fresh salt and key pairs, key store first, then the user record. */
  function Register(s: State, username: string, password: string): State {
    InitUser(s, username, password).0
  }

  lemma RegisterFrame(s: State, username: string, password: string)
    requires Slots(s) && !Registered(s, username)
    ensures var t := Register(s, username, password);
            && Slots(t) && BlocksKept(s.heap, t.heap) && SameAccesses(s.heap, t.heap)
            && SameMailboxes(s.heap, t.heap) && SameInodes(s.heap, t.heap) && SameBoxes(s.heap, t.heap)
  {
    var t := Register(s, username, password);
    assert forall i :: i in s.heap ==> t.heap[i] == s.heap[i];
    assert Slots(t) by {
      assert forall i :: i in s.heap ==> WellPlaced(s, i);
    }
  }

  lemma RegisterUsers(s: State, username: string, password: string)
    requires Users(s) && DistinctUsers(s) && !Registered(s, username)
    ensures var t := Register(s, username, password);
            && Users(t) && DistinctUsers(t)
            && (forall n :: Registered(t, n) <==> Registered(s, n) || n == username)
            && (forall n :: Registered(s, n) ==> Cred(t, n) == Cred(s, n))
            && Cred(t, username) == Credentials(username, s.next + 1, s.next + 2, Master(password, s.next))
  {
    var t := Register(s, username, password);
    UserIdsInjective();
    KeyNamesDistinct();
    forall n | Registered(t, n)
      ensures UserOk(t, n) && (n != username ==> Registered(s, n) && Cred(t, n) == Cred(s, n))
    {
      if n != username {
        assert Registered(s, n) && UserOk(s, n);
      }
    }
    forall n | EncName(n) in t.keys || SigName(n) in t.keys
      ensures Registered(t, n)
    {
      if n != username {
        assert EncName(n) in s.keys || SigName(n) in s.keys;
      }
    }
  }

  lemma KeyNamesDistinct()
    ensures forall m, n :: EncName(m) == EncName(n) ==> m == n
    ensures forall m, n :: SigName(m) == SigName(n) ==> m == n
    ensures forall m, n :: EncName(m) != SigName(n)
  {
    forall m, n
      ensures EncName(m) == EncName(n) ==> m == n
      ensures SigName(m) == SigName(n) ==> m == n
      ensures EncName(m) != SigName(n)
    {
      KeyNames(m, n);
    }
  }

  /** Nothing stored before opens for the newcomer. */
  lemma RegisterNames(s: State, t: State, username: string)
    requires Users(s) && Users(t) && Accesses(s) && Boxes(s)
    requires forall n :: Registered(t, n) <==> Registered(s, n) || n == username
    requires forall n :: Registered(s, n) ==> Cred(t, n) == Cred(s, n)
    requires Registered(t, username) && !Registered(s, username)
    requires Cred(t, username).master.salt >= s.next && Cred(t, username).encKey >= s.next
    requires Cred(t, username).sigKey >= s.next
    requires SameAccesses(s.heap, t.heap) && SameBoxes(s.heap, t.heap)
    ensures AbsNames(t) == AbsNames(s) && AbsGrants(t) == AbsGrants(s)
  {
    forall p: (string, string)
      ensures Holds(t, p) <==> Holds(s, p)
    {
      if Holds(t, p) {
        assert AccessOk(s, AccessId(p.0, p.1));
      }
    }
    forall g: (Id, string, string)
      ensures Granted(t, g) <==> Granted(s, g)
    {
      if Granted(t, g) {
        assert IsBox(s.heap, g.0);
      }
    }
  }

  lemma RegisterHeap(s: State, t: State)
    requires Mailboxes(s) && Accesses(s) && Boxes(s) && Inodes(s) && OwnKeys(s) && s.next <= t.next
    requires BlocksKept(s.heap, t.heap) && SameAccesses(s.heap, t.heap)
    requires SameMailboxes(s.heap, t.heap) && SameInodes(s.heap, t.heap) && SameBoxes(s.heap, t.heap)
    ensures Mailboxes(t) && Accesses(t) && Boxes(t) && Inodes(t) && OwnKeys(t)
    ensures AbsCaps(t) == AbsCaps(s) && AbsFiles(t) == AbsFiles(s)
  {
    InodesFrame(s, t);
    MailboxesFrame(s, t);
    AccessesFrame(s, t);
    BoxesFrame(s, t);
    CapsFrame(s, t);
  }

  lemma RegisterWhole(s: State, t: State, username: string)
    requires Inv(s) && Slots(t) && Users(t) && DistinctUsers(t) && s.next <= t.next
    requires BlocksKept(s.heap, t.heap) && SameAccesses(s.heap, t.heap)
    requires SameMailboxes(s.heap, t.heap) && SameInodes(s.heap, t.heap) && SameBoxes(s.heap, t.heap)
    requires AbsNames(t) == AbsNames(s) && AbsGrants(t) == AbsGrants(s)
    requires forall n :: Registered(t, n) <==> Registered(s, n) || n == username
    ensures Inv(t) && Abs(t) == Abs(s).(users := Abs(s).users + iset{username})
  {
    hide Slots, Users, DistinctUsers, Mailboxes, Accesses, Boxes, Inodes, OwnKeys, BlocksKept, SameAccesses,
      SameMailboxes, SameInodes, SameBoxes;
    RegisterHeap(s, t);
    assert AbsUsers(t) == AbsUsers(s) + iset{username};
  }

  lemma RegisterKeeps(s: State, username: string, password: string)
    requires Inv(s) && !Registered(s, username)
    ensures var t := Register(s, username, password);
            && Inv(t) && Abs(t) == Abs(s).(users := Abs(s).users + iset{username})
            && (forall n :: Registered(s, n) ==> Registered(t, n) && Cred(t, n) == Cred(s, n))
  {
    var t := Register(s, username, password);
    RegisterFrame(s, username, password);
    RegisterUsers(s, username, password);
    RegisterNames(s, t, username);
    RegisterWhole(s, t, username);
  }
}
