/** What every reachable datastore satisfies. */
module Invariant {
  import opened Basics
  import opened Ids
  import opened Records
  import opened Services

  /** Random ids come from the supply; each digest slot holds its own kind of record. */
  predicate WellPlaced(s: State, id: Id)
    requires id in s.heap
  {
    var payload := s.heap[id];
    if payload.UserBlob? then payload.body.UserPlain? && id == UserId(payload.body.creds.username)
    else if payload.Sealed? && payload.body.AccessPlain? then IsAccessSlot(id)
    else (payload.Sealed? ==> !payload.body.UserPlain?) && id.Random? && id.serial < s.next
  }

  ghost predicate Slots(s: State) {
    forall id :: id in s.heap ==> WellPlaced(s, id)
  }

  predicate Registered(s: State, username: string) {
    UserId(username) in s.heap
  }

  predicate UserOk(s: State, username: string)
    requires Registered(s, username)
  {
    var payload := s.heap[UserId(username)];
    && payload.UserBlob?
    && payload.body.UserPlain?
    && payload.body.creds.username == username
    && payload.key == UserKeys(payload.body.creds.master)
    && payload.body.creds.master.salt == payload.salt < s.next
    && payload.body.creds.encKey < s.next
    && payload.body.creds.sigKey < s.next
    && EncName(username) in s.keys && s.keys[EncName(username)] == payload.body.creds.encKey
    && SigName(username) in s.keys && s.keys[SigName(username)] == payload.body.creds.sigKey
  }

  function Cred(s: State, username: string): Credentials
    requires Registered(s, username) && UserOk(s, username)
  {
    s.heap[UserId(username)].body.creds
  }

  ghost predicate Users(s: State) {
    && (forall n :: Registered(s, n) ==> UserOk(s, n))
    && (forall n :: EncName(n) in s.keys ==> Registered(s, n))
    && (forall n :: SigName(n) in s.keys ==> Registered(s, n))
  }

  /** Salts, box keys and signing keys tell users apart. */
  ghost predicate DistinctUsers(s: State)
    requires Users(s)
  {
    forall m, n :: Registered(s, m) && Registered(s, n) && m != n ==>
      && Cred(s, m).master.salt != Cred(s, n).master.salt
      && Cred(s, m).encKey != Cred(s, n).encKey
      && Cred(s, m).sigKey != Cred(s, n).sigKey
  }

  predicate MailboxUnder(h: Heap, id: Id, key: RawKey) {
    IsMailbox(h, id) && h[id].key == MailKeys(key)
  }

  predicate MailboxOk(s: State, id: Id)
    requires IsMailbox(s.heap, id)
  {
    && s.heap[id].key.MailKeys?
    && MailboxAt(s.heap, id).fileKey < s.next
    && IsInode(s.heap, MailboxAt(s.heap, id).inode)
  }

  ghost predicate Mailboxes(s: State) {
    forall id :: IsMailbox(s.heap, id) ==> MailboxOk(s, id)
  }

  /** Mailbox of the record and of each child open under the recorded keys, and all
      name one inode. */
  predicate AccessOk(s: State, id: Id)
    requires IsAccess(s.heap, id)
  {
    var access := AccessAt(s.heap, id);
    && s.heap[id].key.PersonalKeys?
    && s.heap[id].key.master.salt < s.next
    && MailboxUnder(s.heap, access.mailbox, access.key)
    && forall c :: c in access.children ==> ChildOk(s.heap, access, c)
  }

  predicate ChildOk(h: Heap, access: Access, c: string)
    requires c in access.children && IsMailbox(h, access.mailbox)
  {
    && MailboxUnder(h, access.children[c].mailbox, access.children[c].key)
    && MailboxAt(h, access.children[c].mailbox).inode == MailboxAt(h, access.mailbox).inode
  }

  ghost predicate Accesses(s: State) {
    forall id :: IsAccess(s.heap, id) ==> AccessOk(s, id)
  }

  ghost predicate Boxes(s: State) {
    forall id :: IsBox(s.heap, id) ==>
      && s.heap[id].recipient < s.next && s.heap[id].signer < s.next
      && MailboxUnder(s.heap, s.heap[id].invitation.mailbox, s.heap[id].invitation.key)
  }

  function BlockBytes(h: Heap, id: Id): Bytes {
    if IsBlock(h, id) then h[id].body.bytes else []
  }

  /** The plaintexts of the listed blocks. */
  function Plaintexts(h: Heap, blocks: seq<Id>): (texts: seq<Bytes>)
    ensures |texts| == |blocks|
    ensures forall j :: 0 <= j < |blocks| ==> texts[j] == BlockBytes(h, blocks[j])
  {
    seq(|blocks|, j requires 0 <= j < |blocks| => BlockBytes(h, blocks[j]))
  }

  predicate Distinct(ids: seq<Id>) {
    forall i, j :: 0 <= i < j < |ids| ==> ids[i] != ids[j]
  }

  /** Inode and blocks share one file key, blocks are distinct, and `Size` is exact. */
  ghost predicate InodeOk(s: State, id: Id)
    requires IsInode(s.heap, id)
  {
    var inode := InodeAt(s.heap, id);
    && s.heap[id].key.FileKeys?
    && s.heap[id].key.raw < s.next
    && Distinct(inode.blocks)
    && (forall j :: 0 <= j < |inode.blocks| ==>
          IsBlock(s.heap, inode.blocks[j]) && s.heap[inode.blocks[j]].key == s.heap[id].key)
    && inode.size == |Flatten(Plaintexts(s.heap, inode.blocks))|
  }

  ghost predicate Inodes(s: State) {
    forall id :: IsInode(s.heap, id) ==> InodeOk(s, id)
  }

  /** No two inodes share a current key. */
  ghost predicate OwnKeys(s: State) {
    forall i, j :: IsInode(s.heap, i) && IsInode(s.heap, j) && s.heap[i].key == s.heap[j].key ==> i == j
  }

  ghost predicate Inv(s: State) {
    && Slots(s)
    && Users(s) && DistinctUsers(s)
    && Mailboxes(s) && Accesses(s) && Boxes(s)
    && Inodes(s) && OwnKeys(s)
  }

  lemma EmptyInv()
    ensures Inv(EMPTY)
  {
  }

  /** Files never share a block. */
  lemma BlocksDisjoint(s: State, i: Id, j: Id, b: Id)
    requires Inv(s) && IsInode(s.heap, i) && IsInode(s.heap, j)
    requires b in InodeAt(s.heap, i).blocks && b in InodeAt(s.heap, j).blocks
    ensures i == j
  {
    assert InodeOk(s, i) && InodeOk(s, j);
    assert s.heap[b].key == s.heap[i].key;
  }

  /** Slots of different kinds never coincide. */
  lemma SlotFacts(u: string, f: string, n: nat)
    ensures AccessId(u, f) != UserId(u) && AccessId(u, f) != Random(n)
    ensures forall m :: AccessId(u, f) != UserId(m)
    ensures IsAccessSlot(AccessId(u, f)) && !IsUserSlot(AccessId(u, f))
    ensures forall m :: IsUserSlot(UserId(m)) && !IsAccessSlot(UserId(m))
  {
    SlotKindsDisjoint(AccessId(u, f));
    forall m
      ensures IsUserSlot(UserId(m)) && !IsAccessSlot(UserId(m))
    {
      SlotKindsDisjoint(UserId(m));
    }
  }
}
