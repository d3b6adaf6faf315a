/** Which error an operation reports. */
module Failures {
  import opened Basics
  import opened Ids
  import opened Records
  import opened Services
  import opened Invariant
  import opened CapabilityFs
  import opened Abstraction
  import opened Edits
  import opened Simulation
  import opened Custody

  // ---- In reachable datastores

  lemma InitErrors(s: State, username: string, password: string)
    requires Inv(s)
    ensures var r := InitUser(s, username, password).1;
            && (r == Err(AlreadyExists) <==> username in Abs(s).users)
            && (r.Ok? <==> username !in Abs(s).users)
  {
    hide Inv;
    UsersOfAbs(s, username);
  }

  /** An unknown user is told from a wrong password. */
  lemma LoginErrors(s: State, username: string, password: string)
    requires Inv(s)
    ensures username in Abs(s).users ==> Registered(s, username) && UserOk(s, username)
    ensures var r := GetUser(s, username, password);
            && (r == Err(NotFound) <==> username !in Abs(s).users)
            && (r == Err(BadSeal) <==> username in Abs(s).users && Cred(s, username).master.password != password)
            && (r.Ok? <==> username in Abs(s).users && Cred(s, username).master.password == password)
  {
    hide Inv, Abs;
    UsersOfAbs(s, username);
    if Registered(s, username) {
      KnownUser(s, username);
    }
  }

  /** A walk fails as `NotFound` if the access id is unused, and else as `BadSeal`. */
  lemma WalkErrors(s: State, ses: Session, f: string)
    requires Inv(s) && Genuine(s, ses)
    ensures var p := (ses.creds.username, f);
            var (mail, inode) := (WalkMailbox(s.heap, ses, f), WalkInode(s.heap, ses, f));
            && (mail == Err(NotFound) <==> SlotOf(p) !in s.heap)
            && (mail == Err(BadSeal) <==> SlotOf(p) in s.heap && p !in Abs(s).names)
            && (mail.Ok? <==> p in Abs(s).names)
            && (inode == Err(NotFound) <==> SlotOf(p) !in s.heap)
            && (inode == Err(BadSeal) <==> SlotOf(p) in s.heap && !Live(Abs(s), p))
            && (inode.Ok? <==> Live(Abs(s), p))
  {
    hide Users, DistinctUsers, Boxes, Inodes, OwnKeys;
    var slot := AccessId(ses.creds.username, f);
    WalkExactInv(s, ses, f);
    AccessSlotFree(s, ses.creds.username, f);
    if slot in s.heap {
      assert AccessOk(s, slot);
      var mailbox := AccessAt(s.heap, slot).mailbox;
      assert MailboxOk(s, mailbox);
    }
  }

  lemma LoadErrors(s: State, ses: Session, f: string)
    requires Inv(s) && Genuine(s, ses)
    ensures var (p, r) := ((ses.creds.username, f), LoadFile(s, ses, f));
            && (r == Err(NotFound) <==> SlotOf(p) !in s.heap)
            && (r == Err(BadSeal) <==> SlotOf(p) in s.heap && !Live(Abs(s), p))
            && (r.Ok? <==> Live(Abs(s), p))
  {
    hide Inv, Abs, Live, WalkInode;
    WalkErrors(s, ses, f);
    LoadExact(s, ses, f);
  }

  lemma AppendErrors(s: State, ses: Session, f: string, piece: Option<Bytes>)
    requires Inv(s) && Genuine(s, ses)
    ensures var (p, r) := ((ses.creds.username, f), AppendToFile(s, ses, f, piece).1);
            && (r == Err(NilContent) <==> piece.None?)
            && (r == Err(NotFound) <==> piece.Some? && SlotOf(p) !in s.heap)
            && (r == Err(BadSeal) <==> piece.Some? && SlotOf(p) in s.heap && !Live(Abs(s), p))
            && (r.Ok? <==> piece.Some? && Live(Abs(s), p))
  {
    hide Inv, Abs, Live, WalkInode, SealedBlocks;
    WalkErrors(s, ses, f);
  }

  /** The mailbox is looked up before the recipient. */
  lemma InviteErrors(s: State, ses: Session, f: string, recipient: string)
    requires Inv(s) && Genuine(s, ses)
    ensures var (p, r) := ((ses.creds.username, f), CreateInvitation(s, ses, f, recipient).1);
            && (r == Err(NotFound) <==> SlotOf(p) !in s.heap)
            && (r == Err(BadSeal) <==> SlotOf(p) in s.heap && p !in Abs(s).names)
            && (r == Err(NoRecipient) <==> p in Abs(s).names && recipient !in Abs(s).users)
            && (r.Ok? <==> p in Abs(s).names && recipient in Abs(s).users)
  {
    hide Inv, Abs, Live, WalkMailbox;
    WalkErrors(s, ses, f);
    RegisteredKey(s, recipient);
  }

  /** The signature is checked before the box: an invitation to somebody else is only told
      from a wrong sender if the named sender has made it. */
  lemma AcceptErrors(s: State, ses: Session, sender: string, pointer: Id, f: string)
    requires Inv(s) && InCustody(s) && Genuine(s, ses)
    ensures var (a, u, r) := (Abs(s), ses.creds.username, AcceptInvitation(s, ses, sender, pointer, f).1);
            && (r == Err(NotFound) <==> pointer !in s.heap)
            && (r == Err(NoSender) <==> pointer in s.heap && sender !in a.users)
            && (r == Err(BadSignature) <==>
                  pointer in s.heap && sender in a.users && forall n :: (pointer, sender, n) !in a.grants)
            && (r == Err(NotForUser) <==>
                  (pointer, sender, u) !in a.grants && exists n :: (pointer, sender, n) in a.grants)
            && (r.Ok? <==> (pointer, sender, u) in a.grants)
  {
    hide Inv, Abs, InCustody, SaveUser;
    RegisteredKey(s, sender);
    InvitationExact(s, ses, sender, pointer);
    SentBy(s, sender, pointer);
  }

  /** The named sender has made an invitation exactly if its signature verifies. */
  lemma SentBy(s: State, sender: string, pointer: Id)
    requires Inv(s) && InCustody(s)
    ensures (exists n :: (pointer, sender, n) in Abs(s).grants) <==>
            sender in Abs(s).users && IsBox(s.heap, pointer) && s.keys[SigName(sender)] == s.heap[pointer].signer
  {
    hide Slots, Mailboxes, Accesses, Inodes, OwnKeys, RecordsHeld, MailKeysApart, KeyNamesInode, BlocksListed, UserOk;
    RegisteredKey(s, sender);
    if IsBox(s.heap, pointer) {
      var from, n :| Granted(s, (pointer, from, n));
      RegisteredKey(s, from);
      if sender in Abs(s).users && s.keys[SigName(sender)] == s.heap[pointer].signer {
        assert Granted(s, (pointer, sender, n));
      }
    }
  }

  lemma RevokeErrors(s: State, ses: Session, f: string, recipient: string)
    requires Inv(s) && Genuine(s, ses)
    ensures var (p, r) := ((ses.creds.username, f), RevokeAccess(s, ses, f, recipient).1);
            && (r == Err(NotFound) <==> SlotOf(p) !in s.heap)
            && (r == Err(BadSeal) <==> SlotOf(p) in s.heap && !Live(Abs(s), p))
            && (r.Ok? <==> Live(Abs(s), p))
  {
    hide Inv, Abs, Live, WalkMailbox, OpenInode, Rekeyed;
    WalkErrors(s, ses, f);
  }

  /** Where no user name has a NUL, `NotFound` means that the user has no such name, and
      `BadSeal` that the name's capability is revoked. */
  lemma ErrorsTellNames(s: State, ses: Session, f: string)
    requires Inv(s) && InCustody(s) && Genuine(s, ses)
    requires forall n :: Registered(s, n) ==> NulFree(n)
    ensures var (p, r) := ((ses.creds.username, f), LoadFile(s, ses, f));
            && (r == Err(NotFound) <==> p !in Abs(s).names)
            && (r == Err(BadSeal) <==> p in Abs(s).names && !Live(Abs(s), p))
  {
    hide Inv, Abs, Live, LoadFile, InCustody, NulFree, UserOk;
    LoadErrors(s, ses, f);
    IdsTellNames(s, ses.creds.username, f);
    HeldCap(s, (ses.creds.username, f));
  }

  // ---- In any datastore

  /** A walk fails at the first record on its way that is missing, does not open, or is of
      another kind, and the error tells which record is missing. */
  lemma BrokenWalk(h: Heap, ses: Session, f: string)
    ensures var (slot, access) := (AccessId(ses.creds.username, f), OpenAccess(h, ses, f));
            var (mail, walk) := (WalkMailbox(h, ses, f), WalkInode(h, ses, f));
            && (walk == Err(NotFound) <==> slot !in h)
            && (walk == Err(MailboxMissing) <==> access.Ok? && access.value.mailbox !in h)
            && (walk == Err(InodeMissing) <==> mail.Ok? && mail.value.1.inode !in h)
            && (walk == Err(BadSeal) <==>
                  || (slot in h && !Opens(h, slot, PersonalKey(ses.creds.master, f)))
                  || (access.Ok? && access.value.mailbox in h && !Opens(h, access.value.mailbox, MailKeys(access.value.key)))
                  || (mail.Ok? && mail.value.1.inode in h && !Opens(h, mail.value.1.inode, FileKeys(mail.value.1.fileKey))))
            && (walk.Err? ==> walk.error in {NotFound, MailboxMissing, InodeMissing, BadSeal, Malformed})
  {
    hide AccessId;
  }

  predicate Opens(h: Heap, id: Id, key: SymKey) {
    id in h && h[id].Sealed? && h[id].key == key
  }

  /** A load fails with its walk, or at the first block that is missing or does not open. */
  lemma {:induction false} BrokenBlocks(h: Heap, blocks: seq<Id>, key: SymKey)
    ensures ReadBlocks(h, blocks, key).Err? ==>
              exists j :: 0 <= j < |blocks| && (forall k :: 0 <= k < j ==> IsBlock(h, blocks[k]) && Opens(h, blocks[k], key))
                && ReadBlocks(h, blocks, key) == Err(if blocks[j] !in h then BlockMissing
                                                     else if !Opens(h, blocks[j], key) then BadSeal else Malformed)
  {
    if blocks != [] && OpenBlock(h, blocks[0], key).Ok? {
      BrokenBlocks(h, blocks[1..], key);
    }
  }

  /** A login fails as `WrongUser` if the record opens but is another user's. */
  lemma BrokenLogin(s: State, username: string, password: string)
    ensures var (id, r) := (UserId(username), GetUser(s, username, password));
            && (r == Err(NotFound) <==> id !in s.heap)
            && (r == Err(BadSeal) <==>
                  id in s.heap && s.heap[id].UserBlob? && s.heap[id].key != UserKeys(Master(password, s.heap[id].salt)))
            && (r == Err(WrongUser) <==>
                  && id in s.heap && s.heap[id].UserBlob? && s.heap[id].body.UserPlain?
                  && s.heap[id].key == UserKeys(Master(password, s.heap[id].salt))
                  && s.heap[id].body.creds.username != username)
            && (r.Ok? ==> r.value.creds.username == username)
  {
  }
}
