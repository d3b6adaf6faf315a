/** Reading a datastore as a capability file system, and how its parts change. */
module Abstraction {
  import opened Basics
  import opened Ids
  import opened Records
  import opened Services
  import opened Invariant
  import opened CapabilityFs

  /** A mailbox opens its inode: the file key it holds is the inode's current key. */
  predicate OpensInode(h: Heap, mailbox: Id)
    requires IsMailbox(h, mailbox) && IsInode(h, MailboxAt(h, mailbox).inode)
  {
    h[MailboxAt(h, mailbox).inode].key == FileKeys(MailboxAt(h, mailbox).fileKey)
  }

  /** `p` is a name that its user can open as an access record. */
  ghost predicate Holds(s: State, p: (string, string))
    requires Users(s)
  {
    && Registered(s, p.0)
    && IsAccess(s.heap, AccessId(p.0, p.1))
    && s.heap[AccessId(p.0, p.1)].key == PersonalKey(Cred(s, p.0).master, p.1)
  }

  function NameOf(access: Access): Name {
    Name(access.mailbox, map c | c in access.children :: access.children[c].mailbox)
  }

  ghost function AbsUsers(s: State): iset<string> {
    iset n: string | Registered(s, n)
  }

  ghost function AbsNames(s: State): imap<(string, string), Name>
    requires Users(s)
  {
    imap p: (string, string) | Holds(s, p) :: NameOf(AccessAt(s.heap, AccessId(p.0, p.1)))
  }

  ghost function AbsCaps(s: State): map<Id, Cap>
    requires Mailboxes(s)
  {
    map id | id in s.heap && IsMailbox(s.heap, id) :: Cap(MailboxAt(s.heap, id).inode, OpensInode(s.heap, id))
  }

  ghost function AbsFile(h: Heap, id: Id): File
    requires IsInode(h, id)
  {
    File(Flatten(Plaintexts(h, InodeAt(h, id).blocks)), |InodeAt(h, id).blocks|)
  }

  ghost function AbsFiles(s: State): map<Id, File> {
    map id | id in s.heap && IsInode(s.heap, id) :: AbsFile(s.heap, id)
  }

  /** A box at `t.0` signed by `t.1` for `t.2`. */
  ghost predicate Granted(s: State, t: (Id, string, string))
    requires Users(s)
  {
    && IsBox(s.heap, t.0)
    && Registered(s, t.1) && s.heap[t.0].signer == Cred(s, t.1).sigKey
    && Registered(s, t.2) && s.heap[t.0].recipient == Cred(s, t.2).encKey
  }

  ghost function AbsGrants(s: State): imap<(Id, string, string), Id>
    requires Users(s)
  {
    imap t: (Id, string, string) | Granted(s, t) :: s.heap[t.0].invitation.mailbox
  }

  ghost function Abs(s: State): Fs
    requires Inv(s)
  {
    Fs(AbsUsers(s), AbsNames(s), AbsCaps(s), AbsFiles(s), AbsGrants(s))
  }

  /** The step `s` to `t` registers nobody and keeps every credential. */
  ghost predicate SameUsers(s: State, t: State)
    requires Users(s) && Users(t)
  {
    forall n :: Registered(s, n) <==> Registered(t, n) && (Registered(s, n) ==> Cred(s, n) == Cred(t, n))
  }

  lemma {:induction false} ReadBlocksPlain(h: Heap, blocks: seq<Id>, key: SymKey)
    requires forall j :: 0 <= j < |blocks| ==> IsBlock(h, blocks[j]) && h[blocks[j]].key == key
    ensures ReadBlocks(h, blocks, key) == Ok(Flatten(Plaintexts(h, blocks)))
  {
    if blocks != [] {
      ReadBlocksPlain(h, blocks[1..], key);
      assert Plaintexts(h, blocks)[1..] == Plaintexts(h, blocks[1..]);
    }
  }

  /** A genuine session opens exactly the names its user holds. */
  lemma OpenAccessExact(s: State, ses: Session, f: string)
    requires Slots(s) && Users(s) && Genuine(s, ses)
    ensures Cred(s, ses.creds.username) == ses.creds
    ensures OpenAccess(s.heap, ses, f).Ok? <==> Holds(s, (ses.creds.username, f))
    ensures OpenAccess(s.heap, ses, f).Ok? ==>
              OpenAccess(s.heap, ses, f).value == AccessAt(s.heap, AccessId(ses.creds.username, f))
  {
    assert Registered(s, ses.creds.username);
    assert UserOk(s, ses.creds.username);
  }

  /** The recorded mailbox always opens; the inode opens exactly when the mailbox is live. */
  lemma WalkExact(s: State, ses: Session, f: string)
    requires Slots(s) && Users(s) && Accesses(s) && Mailboxes(s) && Genuine(s, ses)
    ensures var p := (ses.creds.username, f);
            var slot := AccessId(p.0, p.1);
            && (WalkMailbox(s.heap, ses, f).Ok? <==> Holds(s, p))
            && (Holds(s, p) ==>
                  var m := AccessAt(s.heap, slot).mailbox;
                  && IsMailbox(s.heap, m) && IsInode(s.heap, MailboxAt(s.heap, m).inode)
                  && WalkMailbox(s.heap, ses, f).value == (AccessAt(s.heap, slot), MailboxAt(s.heap, m)))
            && (WalkInode(s.heap, ses, f).Ok? <==>
                  Holds(s, p) && OpensInode(s.heap, AccessAt(s.heap, slot).mailbox))
            && (WalkInode(s.heap, ses, f).Ok? ==>
                  WalkInode(s.heap, ses, f).value ==
                  var m := AccessAt(s.heap, slot).mailbox;
                  Walk(AccessAt(s.heap, slot), MailboxAt(s.heap, m), InodeAt(s.heap, MailboxAt(s.heap, m).inode)))
  {
    OpenAccessExact(s, ses, f);
    if Holds(s, (ses.creds.username, f)) {
      var slot := AccessId(ses.creds.username, f);
      assert AccessOk(s, slot);
      assert MailboxOk(s, AccessAt(s.heap, slot).mailbox);
    }
  }

  /** The capability that the abstraction gives a held name. */
  lemma HeldCap(s: State, p: (string, string))
    requires Inv(s)
    ensures p in Abs(s).names <==> Holds(s, p)
    ensures Holds(s, p) ==>
              var m := AccessAt(s.heap, AccessId(p.0, p.1)).mailbox;
              && Abs(s).names[p].cap == m && m in Abs(s).caps
              && IsMailbox(s.heap, m) && IsInode(s.heap, MailboxAt(s.heap, m).inode)
              && Abs(s).caps[m] == Cap(MailboxAt(s.heap, m).inode, OpensInode(s.heap, m))
  {
    if Holds(s, p) {
      assert AccessOk(s, AccessId(p.0, p.1));
      assert MailboxOk(s, AccessAt(s.heap, AccessId(p.0, p.1)).mailbox);
    }
  }

  /** What an abstract load of a held name shows. */
  lemma ViewExact(s: State, p: (string, string))
    requires Inv(s)
    ensures Live(Abs(s), p) <==> Holds(s, p) && OpensInode(s.heap, AccessAt(s.heap, AccessId(p.0, p.1)).mailbox)
    ensures Live(Abs(s), p) ==>
              var i := MailboxAt(s.heap, AccessAt(s.heap, AccessId(p.0, p.1)).mailbox).inode;
              FileOf(Abs(s), p) == Some(i) && i in Abs(s).files && Abs(s).files[i] == AbsFile(s.heap, i)
  {
    HeldCap(s, p);
  }

  /** `LoadFile` succeeds exactly on live names, and then returns the file's bytes. */
  lemma LoadExact(s: State, ses: Session, f: string)
    requires Inv(s) && Genuine(s, ses)
    ensures var p := (ses.creds.username, f);
            && (LoadFile(s, ses, f).Ok? <==> Live(Abs(s), p))
            && View(Abs(s), p) == if LoadFile(s, ses, f).Ok? then Some(LoadFile(s, ses, f).value) else None
  {
    WalkExact(s, ses, f);
    ViewExact(s, (ses.creds.username, f));
    if WalkInode(s.heap, ses, f).Ok? {
      var w := WalkInode(s.heap, ses, f).value;
      assert InodeOk(s, w.node.inode);
      ReadBlocksPlain(s.heap, w.inode.blocks, FileKeys(w.node.fileKey));
    }
  }

  /** The files of the abstraction are the inodes, and `Size` is their exact length. */
  lemma FileEntry(s: State, i: Id)
    requires Inv(s)
    ensures i in Abs(s).files <==> IsInode(s.heap, i)
    ensures IsInode(s.heap, i) ==>
              Abs(s).files[i] == AbsFile(s.heap, i) && InodeAt(s.heap, i).size == |AbsFile(s.heap, i).content|
  {
    hide Slots, Users, DistinctUsers, Mailboxes, Accesses, Boxes, OwnKeys;
    assert IsInode(s.heap, i) ==> InodeOk(s, i);
  }
}
