/** When two datastores agree on one kind of record, and what then carries over. */
module Frames {
  import opened Ids
  import opened Records
  import opened Services
  import opened Invariant
  import opened Abstraction

  ghost predicate SameAccesses(h: Heap, g: Heap) {
    forall id :: IsAccess(h, id) || IsAccess(g, id) ==> id in h && id in g && h[id] == g[id]
  }

  ghost predicate SameMailboxes(h: Heap, g: Heap) {
    forall id :: IsMailbox(h, id) || IsMailbox(g, id) ==> id in h && id in g && h[id] == g[id]
  }

  ghost predicate SameInodes(h: Heap, g: Heap) {
    forall id :: IsInode(h, id) || IsInode(g, id) ==> id in h && id in g && h[id] == g[id]
  }

  ghost predicate SameBoxes(h: Heap, g: Heap) {
    forall id :: IsBox(h, id) || IsBox(g, id) ==> id in h && id in g && h[id] == g[id]
  }

  /** Every block of `h` is in `g` unchanged. */
  ghost predicate BlocksKept(h: Heap, g: Heap) {
    forall id :: IsBlock(h, id) ==> id in g && h[id] == g[id]
  }

  /** Every mailbox keeps its seal and its inode; its file key may change. */
  ghost predicate MailboxesKept(h: Heap, g: Heap) {
    forall id :: IsMailbox(h, id) ==>
      IsMailbox(g, id) && g[id].key == h[id].key && MailboxAt(g, id).inode == MailboxAt(h, id).inode
  }

  ghost predicate InodesKept(h: Heap, g: Heap) {
    forall id :: IsInode(h, id) ==> IsInode(g, id)
  }

  /** Same users, same credentials; their name tables may change. */
  ghost predicate UsersKept(s: State, t: State) {
    && s.keys == t.keys
    && s.next <= t.next
    && forall n :: (Registered(s, n) <==> Registered(t, n)) && (Registered(s, n) && UserOk(s, n) ==>
         t.heap[UserId(n)].UserBlob? && t.heap[UserId(n)].body.UserPlain? &&
         t.heap[UserId(n)].salt == s.heap[UserId(n)].salt &&
         t.heap[UserId(n)].key == s.heap[UserId(n)].key &&
         t.heap[UserId(n)].body.creds == s.heap[UserId(n)].body.creds)
  }

  lemma UsersFrame(s: State, t: State)
    requires Users(s) && DistinctUsers(s) && UsersKept(s, t)
    ensures Users(t) && DistinctUsers(t) && SameUsers(s, t)
    ensures AbsUsers(t) == AbsUsers(s)
  {
    forall n | Registered(t, n)
      ensures UserOk(t, n)
    {
      assert Registered(s, n) && UserOk(s, n);
    }
    forall n | EncName(n) in t.keys || SigName(n) in t.keys
      ensures Registered(t, n)
    {
      assert Registered(s, n);
    }
    assert forall n :: Registered(t, n) ==> Registered(s, n) && Cred(t, n) == Cred(s, n);
  }

  lemma NamesFrame(s: State, t: State)
    requires Users(s) && Users(t) && SameUsers(s, t) && SameAccesses(s.heap, t.heap)
    ensures AbsNames(t) == AbsNames(s)
  {
    assert forall p: (string, string) :: Holds(s, p) <==> Holds(t, p);
  }

  lemma GrantsFrame(s: State, t: State)
    requires Users(s) && Users(t) && SameUsers(s, t) && SameBoxes(s.heap, t.heap)
    ensures AbsGrants(t) == AbsGrants(s)
  {
    assert forall g: (Id, string, string) :: Granted(s, g) <==> Granted(t, g);
  }

  lemma BoxesFrame(s: State, t: State)
    requires Boxes(s) && s.next <= t.next && SameBoxes(s.heap, t.heap) && MailboxesKept(s.heap, t.heap)
    ensures Boxes(t)
  {
    forall id | IsBox(t.heap, id)
      ensures t.heap[id].recipient < t.next && t.heap[id].signer < t.next
      ensures MailboxUnder(t.heap, t.heap[id].invitation.mailbox, t.heap[id].invitation.key)
    {
      assert IsBox(s.heap, id);
    }
  }

  lemma AccessesFrame(s: State, t: State)
    requires Accesses(s) && s.next <= t.next && SameAccesses(s.heap, t.heap) && MailboxesKept(s.heap, t.heap)
    ensures Accesses(t)
  {
    forall id | IsAccess(t.heap, id)
      ensures AccessOk(t, id)
    {
      assert IsAccess(s.heap, id) && AccessOk(s, id);
      StillGood(s.heap, t.heap, AccessAt(s.heap, id));
    }
  }

  /** A record whose mailboxes are all in order. */
  ghost predicate GoodAccess(h: Heap, access: Access) {
    && MailboxUnder(h, access.mailbox, access.key)
    && forall c :: c in access.children ==> ChildOk(h, access, c)
  }

  lemma StillGood(h: Heap, g: Heap, access: Access)
    requires GoodAccess(h, access) && MailboxesKept(h, g)
    ensures GoodAccess(g, access)
  {
    forall c | c in access.children
      ensures ChildOk(g, access, c)
    {
      assert ChildOk(h, access, c);
    }
  }

  lemma MailboxesFrame(s: State, t: State)
    requires Mailboxes(s) && s.next <= t.next && SameMailboxes(s.heap, t.heap) && InodesKept(s.heap, t.heap)
    ensures Mailboxes(t) && MailboxesKept(s.heap, t.heap)
  {
    forall id | IsMailbox(t.heap, id)
      ensures MailboxOk(t, id)
    {
      assert IsMailbox(s.heap, id) && MailboxOk(s, id);
    }
  }

  lemma CapsFrame(s: State, t: State)
    requires Mailboxes(s) && Mailboxes(t) && SameMailboxes(s.heap, t.heap) && SameKeys(s.heap, t.heap)
    ensures AbsCaps(t) == AbsCaps(s)
  {
    forall id | IsMailbox(s.heap, id)
      ensures OpensInode(s.heap, id) == OpensInode(t.heap, id)
    {
      assert MailboxOk(s, id) && MailboxOk(t, id);
    }
  }

  /** Inodes keep their seals. */
  ghost predicate SameKeys(h: Heap, g: Heap) {
    forall id :: IsInode(h, id) ==> IsInode(g, id) && g[id].key == h[id].key
  }

  lemma InodeFrame(s: State, t: State, id: Id)
    requires IsInode(s.heap, id) && InodeOk(s, id) && s.next <= t.next
    requires id in t.heap && t.heap[id] == s.heap[id] && BlocksKept(s.heap, t.heap)
    ensures InodeOk(t, id) && AbsFile(t.heap, id) == AbsFile(s.heap, id)
  {
    var blocks := InodeAt(s.heap, id).blocks;
    assert forall j :: 0 <= j < |blocks| ==> IsBlock(s.heap, blocks[j]) && t.heap[blocks[j]] == s.heap[blocks[j]];
    assert Plaintexts(t.heap, blocks) == Plaintexts(s.heap, blocks);
  }

  lemma InodesFrame(s: State, t: State)
    requires Inodes(s) && OwnKeys(s) && s.next <= t.next
    requires SameInodes(s.heap, t.heap) && BlocksKept(s.heap, t.heap)
    ensures Inodes(t) && OwnKeys(t) && AbsFiles(t) == AbsFiles(s)
    ensures InodesKept(s.heap, t.heap) && SameKeys(s.heap, t.heap)
  {
    forall id | IsInode(t.heap, id)
      ensures InodeOk(t, id) && AbsFile(t.heap, id) == AbsFile(s.heap, id)
    {
      assert IsInode(s.heap, id) && InodeOk(s, id);
      InodeFrame(s, t, id);
    }
  }

  // ---- One write

  /** `t` is `s` with something written at `id`. */
  ghost predicate Writes(s: State, t: State, id: Id) {
    && t.keys == s.keys && t.next == s.next && id in t.heap
    && (forall i :: i != id ==> (i in t.heap <==> i in s.heap))
    && (forall i :: i in s.heap && i != id ==> t.heap[i] == s.heap[i])
  }

  lemma WriteKinds(s: State, t: State, id: Id)
    requires Writes(s, t, id)
    ensures !IsAccess(s.heap, id) && !IsAccess(t.heap, id) ==> SameAccesses(s.heap, t.heap)
    ensures !IsMailbox(s.heap, id) && !IsMailbox(t.heap, id) ==> SameMailboxes(s.heap, t.heap)
    ensures !IsInode(s.heap, id) && !IsInode(t.heap, id) ==> SameInodes(s.heap, t.heap)
    ensures !IsBox(s.heap, id) && !IsBox(t.heap, id) ==> SameBoxes(s.heap, t.heap)
    ensures !IsBlock(s.heap, id) ==> BlocksKept(s.heap, t.heap)
  {
  }

  lemma WriteUsers(s: State, t: State, id: Id)
    requires Writes(s, t, id) && forall n :: UserId(n) != id
    ensures UsersKept(s, t)
  {
    hide UserId;
  }

  lemma WriteSlots(s: State, t: State, id: Id)
    requires Slots(s) && Writes(s, t, id) && WellPlaced(t, id)
    ensures Slots(t)
  {
    hide UserId, IsAccessSlot;
    forall i | i in t.heap
      ensures WellPlaced(t, i)
    {
      if i != id {
        assert WellPlaced(s, i);
      }
    }
  }

  lemma NotUserSlot(id: Id)
    ensures id.Random? ==> forall n :: UserId(n) != id
  {
  }
}
