/** Whoever cannot compute the key of a file stays unable to, whatever keys the file gets. */
module Lockout {
  import opened Basics
  import opened Ids
  import opened Records
  import opened Services
  import opened Invariant
  import opened CapabilityFs
  import opened Abstraction
  import opened Frames
  import opened Simulation
  import opened Sharing
  import opened Revocation
  import opened Runs
  import opened Custody
  import opened Secrecy

  /** The call invites a member to file `i`, from a live name or a dead one. */
  ghost predicate InvitesMember(s: State, passwords: iset<string>, call: Call, i: Id)
    requires Inv(s)
  {
    call.op.Invite? && InodeUnder(s, (call.op.user, call.op.file)) == Some(i) && IsMember(s, passwords, call.op.recipient)
  }

  /** In no state of the run does a member reach a live capability on `i`, and no call of
      it invites a member to `i`. */
  ghost predicate ShutOut(s: State, calls: seq<Call>, passwords: iset<string>, i: Id)
    requires Inv(s)
    decreases |calls|
  {
    && !Reads(Abs(s), Members(s, passwords), i)
    && (calls != [] ==>
          && !InvitesMember(s, passwords, calls[0], i)
          && (StepInv(s, calls[0]); ShutOut(Step(s, calls[0]).0, calls[1..], passwords, i)))
  }

  ghost predicate IsKeyOf(s: State, i: Id, k: RawKey) {
    IsInode(s.heap, i) && s.heap[i].key == FileKeys(k)
  }

  ghost function KeysOf(s: State, i: Id): iset<RawKey> {
    iset k: RawKey | IsKeyOf(s, i, k)
  }

  /** All keys that file `i` has in the states of a run. */
  ghost function KeysSince(s: State, calls: seq<Call>, i: Id): iset<RawKey>
    requires Inv(s)
    decreases |calls|
  {
    KeysOf(s, i) +
    if calls == [] then iset{}
    else
      StepInv(s, calls[0]);
      KeysSince(Step(s, calls[0]).0, calls[1..], i)
  }

  /** Neither `k` nor anything that opens under it is or holds a secret. */
  ghost predicate Harmless(s: State, secrets: iset<RawKey>, k: RawKey) {
    k !in secrets && forall m :: MailboxUnder(s.heap, m, k) ==> MailboxAt(s.heap, m).fileKey !in secrets
  }

  /** `secrets` are keys of `i`, the present one among them; nothing known and no mailbox
      that a member reaches gives one away. */
  ghost predicate Blind(s: State, passwords: iset<string>, i: Id, secrets: iset<RawKey>, known: iset<RawKey>)
    requires Inv(s)
  {
    && (exists k :: k in secrets && IsKeyOf(s, i, k))
    && (forall k :: k in secrets ==> k < s.next)
    && (forall k :: k in known ==> Harmless(s, secrets, k))
    && (forall m :: IsMailbox(s.heap, m) && MembersReach(s, passwords, m) ==> MailboxAt(s.heap, m).fileKey !in secrets)
    && (forall m :: IsMailbox(s.heap, m) && MailboxAt(s.heap, m).fileKey in secrets ==> MailboxAt(s.heap, m).inode == i)
    && (forall m, k :: MailboxUnder(s.heap, m, k) ==> k !in secrets)
  }

  lemma ComputingStaysBlind(s: State, passwords: iset<string>, i: Id, secrets: iset<RawKey>, known: iset<RawKey>)
    requires Inv(s) && InCustody(s) && Blind(s, passwords, i, secrets, known)
    ensures Blind(s, passwords, i, secrets, Computable(s.heap, passwords, known))
  {
    hide Inv, RecordsHeld, BoxesHeld, BlocksListed, KeyNamesInode, MembersReach, Saturated, IsKeyOf;
    var rest := iset k: RawKey | Harmless(s, secrets, k);
    UsersIn(s);
    forall x, k | MailboxUnder(s.heap, x, k) && MembersReach(s, passwords, x)
      ensures k in rest
    {
    }
    SaturatedBy(s, passwords, rest);
    assert known <= rest;
    assert Computable(s.heap, passwords, known) <= rest;
  }

  // ---- One call

  /** Only a revocation changes the key of a file. */
  lemma RekeyedByRevoke(s: State, call: Call, i: Id)
    requires Inv(s) && IsInode(s.heap, i)
    ensures IsInode(Step(s, call).0.heap, i)
    ensures Step(s, call).0.heap[i].key != s.heap[i].key ==>
              RevokesNow(s, call) && InodeUnder(s, (call.op.user, call.op.file)) == Some(i)
  {
    hide Inv, Abs, StoreFile, AppendToFile, CreateInvitation, AcceptInvitation, RevokeAccess, UserOk, AccessId, UserId, Live;
    BlocksOfStep(s, call, i);
    var op := call.op;
    if op.Init? {
      if !Registered(s, op.user) {
        RegisterSame(s, op.user, op.password);
      }
    } else if Registered(s, op.user) {
      KnownUser(s, op.user);
      var ses := SessionOf(s, op.user, call.files);
      InodeKeepsPlace(s, ses, op.file, i);
      match op
      case Store(_, f, content) => StoreKept(s, ses, f, content, i);
      case Append(_, f, piece) => AppendKeepsKey(s, ses, f, piece, i);
      case Invite(_, f, recipient) => InviteKeeps(s, ses, f, recipient, i);
      case Accept(_, sender, pointer, f) => AcceptKeeps(s, ses, sender, pointer, f, i);
      case Revoke(_, f, recipient) => RevokeRekeys(s, ses, f, recipient, i);
    }
  }

  lemma AppendKeepsKey(s: State, ses: Session, f: string, piece: Option<Bytes>, i: Id)
    requires Inv(s) && Genuine(s, ses) && IsInode(s.heap, i)
    ensures i in AppendToFile(s, ses, f, piece).0.heap
    ensures IsInode(AppendToFile(s, ses, f, piece).0.heap, i) && AppendToFile(s, ses, f, piece).0.heap[i].key == s.heap[i].key
  {
    hide Inv, AppendToFile, WalkInode;
    AppendDraws(s, ses, f, piece);
    if piece.Some? && WalkInode(s.heap, ses, f).Ok? {
      AppendAt(s, ses, f, piece.value, i);
      WalkReads(s, ses, f);
    }
  }

  lemma InviteKeeps(s: State, ses: Session, f: string, r: string, i: Id)
    requires Inv(s) && IsInode(s.heap, i) && i != AccessId(ses.creds.username, f)
    ensures Same(s, CreateInvitation(s, ses, f, r).0, i)
  {
    hide Inv, CreateInvitation, WalkMailbox, AccessId;
    if WalkMailbox(s.heap, ses, f).Ok? {
      InviteAt(s, ses, f, r, i);
    } else {
      InviteFails(s, ses, f, r);
    }
  }

  lemma AcceptKeeps(s: State, ses: Session, sender: string, pointer: Id, f: string, i: Id)
    requires i in s.heap && i != AccessId(ses.creds.username, f) && i != UserId(ses.creds.username)
    ensures Same(s, AcceptInvitation(s, ses, sender, pointer, f).0, i)
  {
    hide AccessId, UserId, OpenInvitation;
  }

  lemma RevokeRekeys(s: State, ses: Session, f: string, r: string, i: Id)
    requires Inv(s) && Genuine(s, ses) && IsInode(s.heap, i)
    requires i != AccessId(ses.creds.username, f) && i != UserId(ses.creds.username) && i != Random(s.next + 2)
    ensures i in RevokeAccess(s, ses, f, r).0.heap
    ensures IsInode(RevokeAccess(s, ses, f, r).0.heap, i)
    ensures RevokeAccess(s, ses, f, r).0.heap[i].key != s.heap[i].key ==>
              RevokeAccess(s, ses, f, r).1.Ok? && FileOf(Abs(s), (ses.creds.username, f)) == Some(i)
  {
    hide Inv, Abs, AccessId, UserId, WalkInode, RevokeAccess, Live, GoodAccess;
    if WalkInode(s.heap, ses, f).Ok? {
      RevokeAt(s, ses, f, r, i);
      WalkFacts(s, ses, f);
      RevokeWrites(s, ses, f, r);
      RevokeSucceeds(s, ses, f, r);
    } else {
      RevokeFails(s, ses, f, r);
    }
  }

  lemma RevokeSucceeds(s: State, ses: Session, f: string, r: string)
    requires WalkInode(s.heap, ses, f).Ok?
    ensures RevokeAccess(s, ses, f, r).1.Ok?
  {
    hide Rekeyed;
  }

  /** A new mailbox has a new file key, or is the copy that an invitation makes. */
  lemma NewMailbox(s: State, call: Call, x: Id)
    requires Inv(s) && IsMailbox(Step(s, call).0.heap, x) && x !in s.heap
    ensures var node := MailboxAt(Step(s, call).0.heap, x);
            || node.fileKey >= s.next
            || (call.op.Invite? && IsCopy(s, (call.op.user, call.op.file), node))
  {
    hide Inv, Abs, StoreFile, AppendToFile, CreateInvitation, AcceptInvitation, RevokeAccess, UserOk, AccessId, UserId;
    var op := call.op;
    if !op.Init? && Registered(s, op.user) {
      KnownUser(s, op.user);
      var ses := SessionOf(s, op.user, call.files);
      match op
      case Store(_, f, content) => StoreAt(s, ses, f, content, x);
      case Append(_, f, piece) =>
        AppendDraws(s, ses, f, piece);
        if piece.Some? && WalkInode(s.heap, ses, f).Ok? {
          AppendAt(s, ses, f, piece.value, x);
        }
      case Invite(_, f, recipient) =>
        if WalkMailbox(s.heap, ses, f).Ok? {
          InviteAt(s, ses, f, recipient, x);
          InviteCopies(s, ses, f);
        } else {
          InviteFails(s, ses, f, recipient);
        }
      case Accept(_, sender, pointer, f) => AcceptAdds(s, ses, sender, pointer, f, x);
      case Revoke(_, f, recipient) =>
        if WalkInode(s.heap, ses, f).Ok? {
          RevokeAt(s, ses, f, recipient, x);
        } else {
          RevokeFails(s, ses, f, recipient);
        }
    }
  }

  /** `node` is that of the mailbox that name `p` uses. */
  ghost predicate IsCopy(s: State, p: (string, string), node: MailboxNode)
    requires Inv(s)
  {
    p in Abs(s).names && IsMailbox(s.heap, Abs(s).names[p].cap) && MailboxAt(s.heap, Abs(s).names[p].cap) == node
  }

  lemma InviteCopies(s: State, ses: Session, f: string)
    requires Inv(s) && Genuine(s, ses) && WalkMailbox(s.heap, ses, f).Ok?
    ensures IsCopy(s, (ses.creds.username, f), WalkMailbox(s.heap, ses, f).value.1)
  {
    hide Inv, Abs, WalkMailbox, GoodAccess;
    MailboxFacts(s, ses, f);
  }

  lemma AcceptAdds(s: State, ses: Session, sender: string, pointer: Id, f: string, x: Id)
    requires IsMailbox(AcceptInvitation(s, ses, sender, pointer, f).0.heap, x)
    ensures x in s.heap
  {
    hide AccessId, UserId, OpenInvitation;
  }

  /** A mailbox that was there keeps its node, or gets a new file key. */
  lemma OldMailbox(s: State, call: Call, x: Id)
    requires Inv(s) && IsMailbox(Step(s, call).0.heap, x) && x in s.heap
    ensures IsMailbox(s.heap, x)
    ensures var node := MailboxAt(Step(s, call).0.heap, x); node.fileKey >= s.next || node == MailboxAt(s.heap, x)
  {
    hide Inv, UserOk, RecordsStep, BoxesStep, InodeStep, BlocksStep,
      StoreFile, AppendToFile, CreateInvitation, AcceptInvitation, RevokeAccess;
    if call.op.Init? {
      if !Registered(s, call.op.user) {
        RegisterSame(s, call.op.user, call.op.password);
      }
    } else if Registered(s, call.op.user) {
      var f, n := CallCustody(s, call);
    }
  }

  /** What a name holds after an operation of which it is the target, or not. */
  lemma NewlyHeld(a: Fs, op: Op, fr: Fresh, p: (string, string))
    requires p in After(a, op, fr).names
    ensures var x := After(a, op, fr).names[p].cap;
            || (p in a.names && a.names[p].cap == x)
            || (p.0 == op.user && (x == fr.cap || (op.Accept? && Sent(a, op.sender, op.user, x))))
  {
    var b := After(a, op, fr);
    if op.Accept? && p == (op.user, op.file) && b != a {
      assert (op.pointer, op.sender, op.user) in a.grants && a.grants[(op.pointer, op.sender, op.user)] == b.names[p].cap;
    }
  }

  lemma NewlySent(a: Fs, op: Op, fr: Fresh, t: (Id, string, string))
    requires t in After(a, op, fr).grants
    ensures var x := After(a, op, fr).grants[t];
            (t in a.grants && a.grants[t] == x) || (op.Invite? && x == fr.cap && t.2 == op.recipient && t.2 in a.users)
  {
  }

  /** A user comes to reach a capability only by what it does itself, or by an invitation. */
  lemma NewReach(a: Fs, op: Op, fr: Fresh, n: string, x: Id)
    requires Tree(a) && FreshFor(a, fr) && Reaches(After(a, op, fr), n, x)
    ensures Reaches(a, n, x) || (x == fr.cap && (n == op.user || (op.Invite? && n == op.recipient && n in a.users)))
  {
    hide Acyclic, OneParent, ForOneUser, OneNamePerSlot, SameFile, Closed, FreshFor, Apply;
    var b := After(a, op, fr);
    if g :| (n, g) in b.names && b.names[(n, g)].cap == x {
      NewlyHeld(a, op, fr, (n, g));
    } else if g, c :| Shares(b, (n, g), c, x) {
      OldShares(a, op, fr, (n, g), c, x);
    } else {
      var pointer, sender :| (pointer, sender, n) in b.grants && b.grants[(pointer, sender, n)] == x;
      NewlySent(a, op, fr, (pointer, sender, n));
    }
  }

  lemma RegisteredReach(s: State, n: string, x: Id)
    requires Inv(s) && Reaches(Abs(s), n, x)
    ensures Registered(s, n)
  {
    hide Slots, Mailboxes, Accesses, Boxes, Inodes, OwnKeys, DistinctUsers;
    if g :| (n, g) in Abs(s).names && Abs(s).names[(n, g)].cap == x {
    } else if g, c :| Shares(Abs(s), (n, g), c, x) {
    } else {
    }
  }

  lemma ReachedIsCap(a: Fs, n: string, x: Id)
    requires Tree(a) && Reaches(a, n, x)
    ensures x in a.caps
  {
    hide Acyclic, OneParent, ForOneUser, OneNamePerSlot;
  }

  /** The present key of `i`, found in a mailbox, makes that mailbox live on `i`. */
  lemma HoldsPresentKey(s: State, i: Id, x: Id)
    requires Inv(s) && InCustody(s) && IsMailbox(s.heap, x) && IsKeyOf(s, i, MailboxAt(s.heap, x).fileKey)
    ensures MailboxAt(s.heap, x).inode == i && x in Abs(s).caps && Abs(s).caps[x] == Cap(i, true)
  {
    hide Inv, Abs, RecordsHeld, BoxesHeld, MailKeysApart, BlocksListed;
    CapOf(s, x);
    LiveMailbox(s, x, i);
  }

  /** A step that members do not profit from. */
  ghost predicate Unprofitable(s: State, call: Call, passwords: iset<string>, i: Id)
    requires Inv(s)
  {
    && Inv(Step(s, call).0)
    && !Reads(Abs(Step(s, call).0), Members(Step(s, call).0, passwords), i)
    && !InvitesMember(s, passwords, call, i)
  }

  /** If such a step re-keys the file, no member is the revoker or kept by it. */
  lemma RekeyedByOutsider(s: State, call: Call, passwords: iset<string>, i: Id)
    requires WellKept(s) && IsInode(s.heap, i) && Unprofitable(s, call, passwords, i)
    ensures IsInode(Step(s, call).0.heap, i)
    ensures Step(s, call).0.heap[i].key != s.heap[i].key ==>
              && RevokesNow(s, call) && InodeUnder(s, (call.op.user, call.op.file)) == Some(i)
              && AllOutside(s, call, passwords) && !ByMember(s, passwords, call)
  {
    hide Inv, Abs, InCustody, Tree, Step, ListedWereSent, AllOutside, IsMember, Reads;
    RekeyedByRevoke(s, call, i);
    if Step(s, call).0.heap[i].key != s.heap[i].key {
      if !AllOutside(s, call, passwords) {
        SomebodyReads(s, call, passwords, i);
      }
      OutsideCaller(s, call, passwords);
    }
  }

  lemma OutsideCaller(s: State, call: Call, passwords: iset<string>)
    requires Inv(s) && call.op.Revoke? && AllOutside(s, call, passwords)
    ensures !IsMember(s, passwords, call.op.user)
  {
    hide Inv, IsMember;
  }

  /** The secrets after the step. */
  ghost function MoreSecrets(s: State, call: Call, i: Id, secrets: iset<RawKey>): iset<RawKey>
    requires Inv(s)
  {
    secrets + KeysOf(Step(s, call).0, i)
  }

  /** A mailbox of the next state that holds a secret: it is live on the file after a
      re-keying, or held it before, or is a copy of one that did. */
  lemma WhereSecretsAre(s: State, call: Call, passwords: iset<string>, i: Id, secrets: iset<RawKey>, known: iset<RawKey>, x: Id)
    requires WellKept(s) && Blind(s, passwords, i, secrets, known)
    requires Inv(Step(s, call).0) && InCustody(Step(s, call).0) && IsMailbox(Step(s, call).0.heap, x)
    requires MailboxAt(Step(s, call).0.heap, x).fileKey in MoreSecrets(s, call, i, secrets)
    ensures var (t, node) := (Step(s, call).0, MailboxAt(Step(s, call).0.heap, x));
            && node.inode == i
            && if node.fileKey !in secrets then
                 && IsKeyOf(t, i, node.fileKey) && IsInode(s.heap, i) && t.heap[i].key != s.heap[i].key
                 && x in Abs(t).caps && Abs(t).caps[x] == Cap(i, true)
               else if x in s.heap then IsMailbox(s.heap, x) && MailboxAt(s.heap, x) == node
               else call.op.Invite? && IsCopy(s, (call.op.user, call.op.file), node)
  {
    hide Inv, Abs, InCustody, Tree, Step, ListedWereSent, MembersReach;
    var (t, node) := (Step(s, call).0, MailboxAt(Step(s, call).0.heap, x));
    if node.fileKey !in secrets {
      HoldsPresentKey(t, i, x);
    } else if x in s.heap {
      OldMailbox(s, call, x);
    } else {
      NewMailbox(s, call, x);
      assert node.inode == i;
    }
  }

  lemma MemberReaches(s: State, passwords: iset<string>, n: string, x: Id)
    requires Inv(s) && Reaches(Abs(s), n, x)
    ensures IsMember(s, passwords, n) ==> MembersReach(s, passwords, x)
  {
  }

  /** The copier of a secret reaches it; so it is no member. */
  lemma CopierIsNoMember(s: State, passwords: iset<string>, i: Id, secrets: iset<RawKey>, known: iset<RawKey>,
      p: (string, string), node: MailboxNode)
    requires WellKept(s) && Blind(s, passwords, i, secrets, known) && IsCopy(s, p, node) && node.fileKey in secrets
    ensures !IsMember(s, passwords, p.0) && InodeUnder(s, p) == Some(i)
  {
    hide Inv, Abs, InCustody, Tree, ListedWereSent, IsMember, Reaches;
    HeldReached(Abs(s), p);
    CapOf(s, Abs(s).names[p].cap);
    MemberReaches(s, passwords, p.0, Abs(s).names[p].cap);
  }

  /** Under no key that members know or draw there is a secret in the next state. */
  lemma KnownStaysHarmless(s: State, call: Call, passwords: iset<string>, i: Id, secrets: iset<RawKey>, known: iset<RawKey>,
      x: Id, k: RawKey)
    requires WellKept(s) && Discreet(s, passwords, known) && Blind(s, passwords, i, secrets, known)
    requires Unprofitable(s, call, passwords, i) && InCustody(Step(s, call).0)
    requires k in known + DrawnByMembers(s, passwords, call) && MailboxUnder(Step(s, call).0.heap, x, k)
    ensures MailboxAt(Step(s, call).0.heap, x).fileKey !in MoreSecrets(s, call, i, secrets)
  {
    hide Inv, Abs, InCustody, Tree, Step, ListedWereSent, MembersReach, IsMember, Reads, AllOutside, RevokesNow;
    var t := Step(s, call).0;
    var f := MailboxAt(t.heap, x).fileKey;
    MailboxKeysStay(s, call, x, k);
    if f in MoreSecrets(s, call, i, secrets) {
      WhereSecretsAre(s, call, passwords, i, secrets, known, x);
      assert k in known ==> MayKnow(s, passwords, k) && Harmless(s, secrets, k);
      if f !in secrets {
        RekeyedByOutsider(s, call, passwords, i);
        LiveKeyUnknown(s, call, passwords, i, x, k);
      } else if x !in s.heap {
        CopierIsNoMember(s, passwords, i, secrets, known, (call.op.user, call.op.file), MailboxAt(t.heap, x));
      }
    }
  }

  /** No mailbox that members reach in the next state holds a secret. */
  lemma ReachedStaysHarmless(s: State, call: Call, passwords: iset<string>, i: Id, secrets: iset<RawKey>, known: iset<RawKey>, x: Id)
    requires WellKept(s) && Blind(s, passwords, i, secrets, known)
    requires Unprofitable(s, call, passwords, i) && WellKept(Step(s, call).0)
    requires IsMailbox(Step(s, call).0.heap, x) && MembersReach(Step(s, call).0, passwords, x)
    ensures MailboxAt(Step(s, call).0.heap, x).fileKey !in MoreSecrets(s, call, i, secrets)
  {
    hide Inv, Abs, InCustody, Tree, Step, ListedWereSent, IsMember, Reaches, FreshFor, FreshOf;
    var t := Step(s, call).0;
    var f := MailboxAt(t.heap, x).fileKey;
    var n :| IsMember(t, passwords, n) && Reaches(Abs(t), n, x);
    assert n in Members(t, passwords);
    if f in MoreSecrets(s, call, i, secrets) {
      WhereSecretsAre(s, call, passwords, i, secrets, known, x);
      WellKeptStep(s, call);
      NewReach(Abs(s), call.op, FreshOf(s, call.op), n, x);
      FreshUnused(s, call.op);
      if Reaches(Abs(s), n, x) {
        RegisteredReach(s, n, x);
        ReachedIsCap(Abs(s), n, x);
        CapOf(s, x);
        MembersStay(s, call, passwords, n);
        MemberReaches(s, passwords, n, x);
      } else if f in secrets {
        CopierIsNoMember(s, passwords, i, secrets, known, (call.op.user, call.op.file), MailboxAt(t.heap, x));
        UsersOfAbs(s, n);
        HolderRegistered(s, (call.op.user, call.op.file));
        MembersStay(s, call, passwords, n);
      }
    }
  }

  lemma HolderRegistered(s: State, p: (string, string))
    requires Inv(s) && p in Abs(s).names
    ensures Registered(s, p.0)
  {
    hide Slots, Mailboxes, Accesses, Boxes, Inodes, OwnKeys, DistinctUsers;
  }

  lemma SecretsStaySecret(s: State, call: Call, passwords: iset<string>, i: Id, secrets: iset<RawKey>, known: iset<RawKey>)
    requires WellKept(s) && Discreet(s, passwords, known) && Blind(s, passwords, i, secrets, known)
    requires Unprofitable(s, call, passwords, i) && WellKept(Step(s, call).0)
    ensures forall k :: k in MoreSecrets(s, call, i, secrets) ==> k < Step(s, call).0.next
    ensures forall k :: k in MoreSecrets(s, call, i, secrets) ==> k !in known + DrawnByMembers(s, passwords, call)
    ensures exists k :: k in MoreSecrets(s, call, i, secrets) && IsKeyOf(Step(s, call).0, i, k)
    ensures forall m, k :: MailboxUnder(Step(s, call).0.heap, m, k) ==> k !in MoreSecrets(s, call, i, secrets)
  {
    hide Inv, Abs, InCustody, Tree, Step, ListedWereSent, MembersReach, IsMember, Reads, AllOutside, RevokesNow, ListKept;
    var t := Step(s, call).0;
    BlocksOfStep(s, call, i);
    FileKeyOld(t, i);
    RekeyedByOutsider(s, call, passwords, i);
    assert IsKeyOf(t, i, t.heap[i].key.raw);
    forall k | k in MoreSecrets(s, call, i, secrets)
      ensures k < t.next && k !in known + DrawnByMembers(s, passwords, call)
    {
      assert k in known ==> MayKnow(s, passwords, k) && Harmless(s, secrets, k);
    }
    forall m, k | MailboxUnder(t.heap, m, k)
      ensures k !in MoreSecrets(s, call, i, secrets)
    {
      MailboxKeysStay(s, call, m, k);
      MailKeyIsNoFileKey(t, i, m, k);
    }
  }

  lemma MailKeyIsNoFileKey(s: State, i: Id, m: Id, k: RawKey)
    requires Inv(s) && InCustody(s) && MailboxUnder(s.heap, m, k)
    ensures !IsKeyOf(s, i, k)
  {
    hide Inv, RecordsHeld, BoxesHeld, KeyNamesInode, BlocksListed;
    UsersIn(s);
  }

  lemma BlindStep(s: State, call: Call, passwords: iset<string>, i: Id, secrets: iset<RawKey>, known: iset<RawKey>)
    requires WellKept(s) && Discreet(s, passwords, known) && Blind(s, passwords, i, secrets, known)
    requires Unprofitable(s, call, passwords, i) && WellKept(Step(s, call).0)
    ensures Blind(Step(s, call).0, passwords, i, MoreSecrets(s, call, i, secrets), known + DrawnByMembers(s, passwords, call))
  {
    hide Inv, Abs, InCustody, Tree, Step, ListedWereSent, MembersReach, IsMember, Reads, Discreet, MoreSecrets, DrawnByMembers,
      Unprofitable;
    var t := Step(s, call).0;
    SecretsStaySecret(s, call, passwords, i, secrets, known);
    forall k | k in known + DrawnByMembers(s, passwords, call)
      ensures Harmless(t, MoreSecrets(s, call, i, secrets), k)
    {
      forall m | MailboxUnder(t.heap, m, k)
        ensures MailboxAt(t.heap, m).fileKey !in MoreSecrets(s, call, i, secrets)
      {
        KnownStaysHarmless(s, call, passwords, i, secrets, known, m, k);
      }
    }
    forall m | IsMailbox(t.heap, m) && MembersReach(t, passwords, m)
      ensures MailboxAt(t.heap, m).fileKey !in MoreSecrets(s, call, i, secrets)
    {
      ReachedStaysHarmless(s, call, passwords, i, secrets, known, m);
    }
    forall m | IsMailbox(t.heap, m) && MailboxAt(t.heap, m).fileKey in MoreSecrets(s, call, i, secrets)
      ensures MailboxAt(t.heap, m).inode == i
    {
      WhereSecretsAre(s, call, passwords, i, secrets, known, m);
    }
  }

  // ---- Every run

  lemma {:induction false} StaysBlind(s: State, calls: seq<Call>, passwords: iset<string>, i: Id, secrets: iset<RawKey>,
      known: iset<RawKey>) returns (more: iset<RawKey>)
    requires WellKept(s) && Discreet(s, passwords, known) && Blind(s, passwords, i, secrets, known)
    requires ShutOut(s, calls, passwords, i)
    ensures secrets <= more && KeysSince(s, calls, i) <= more
    ensures Blind(Run(s, calls), passwords, i, more, Learned(s, calls, passwords, known))
    decreases |calls|
  {
    hide Inv, Abs, InCustody, Tree, Step, ListedWereSent, Discreet, Computable, DrawnByMembers, Reads, Members, InvitesMember;
    ComputingStaysBlind(s, passwords, i, secrets, known);
    ComputingIsDiscreet(s, passwords, known);
    PresentIsSecret(s, passwords, i, secrets, known);
    if calls == [] {
      more := secrets;
    } else {
      var now := Computable(s.heap, passwords, known);
      DiscreetStep(s, calls[0], passwords, now);
      WellKeptStep(s, calls[0]);
      StillShutOut(s, calls, passwords, i);
      BlindStep(s, calls[0], passwords, i, secrets, now);
      more := StaysBlind(Step(s, calls[0]).0, calls[1..], passwords, i, MoreSecrets(s, calls[0], i, secrets),
                         now + DrawnByMembers(s, passwords, calls[0]));
    }
  }

  lemma PresentIsSecret(s: State, passwords: iset<string>, i: Id, secrets: iset<RawKey>, known: iset<RawKey>)
    requires Inv(s) && Blind(s, passwords, i, secrets, known)
    ensures forall k :: IsKeyOf(s, i, k) ==> k in secrets
  {
    hide Inv, MembersReach;
  }

  lemma StillShutOut(s: State, calls: seq<Call>, passwords: iset<string>, i: Id)
    requires Inv(s) && calls != [] && Inv(Step(s, calls[0]).0) && ShutOut(s, calls, passwords, i)
    ensures Unprofitable(s, calls[0], passwords, i) && ShutOut(Step(s, calls[0]).0, calls[1..], passwords, i)
  {
    hide Inv, Abs, Step, Reads, InvitesMember, Members;
    assert ShutOut(Step(s, calls[0]).0, calls[1..], passwords, i);
  }

  /** Whoever cannot compute the key of a file at some state computes none of the keys that
      the file has from then on, as long as no member comes to reach a live capability on
      the file, be it by a revived listing, and none is invited to it. An invitation from a
      dead name has to be excluded too: it copies an old key to the invited. */
  lemma KeysStaySecret(s: State, calls: seq<Call>, passwords: iset<string>, i: Id, known: iset<RawKey>)
    requires WellKept(s) && Discreet(s, passwords, known) && IsInode(s.heap, i)
    requires forall k :: IsKeyOf(s, i, k) ==> k !in Computable(s.heap, passwords, known)
    requires ShutOut(s, calls, passwords, i)
    ensures forall k :: k in KeysSince(s, calls, i) ==> k !in Learned(s, calls, passwords, known)
  {
    hide Inv, Abs, InCustody, Tree, ListedWereSent, Discreet, ShutOut, Learned, KeysSince, Run, MembersReach, CanCompute;
    StartsBlind(s, passwords, i, known);
    var more := StaysBlind(s, calls, passwords, i, KeysOf(s, i), known);
  }

  lemma StartsBlind(s: State, passwords: iset<string>, i: Id, known: iset<RawKey>)
    requires Inv(s) && InCustody(s) && IsInode(s.heap, i)
    requires forall k :: IsKeyOf(s, i, k) ==> k !in Computable(s.heap, passwords, known)
    ensures Blind(s, passwords, i, KeysOf(s, i), known)
  {
    hide Inv, Abs, InCustody, CanCompute, Reads, Reaches, IsMember;
    var secrets := KeysOf(s, i);
    FileKeyOld(s, i);
    var raw := s.heap[i].key.raw;
    assert IsKeyOf(s, i, raw);
    ReadersExact(s, passwords, i, known);
    forall m | IsMailbox(s.heap, m) && MailboxAt(s.heap, m).fileKey in secrets
      ensures MailboxAt(s.heap, m).inode == i && !MembersReach(s, passwords, m)
      ensures forall k :: MailboxUnder(s.heap, m, k) ==> k !in known
    {
      HoldsPresentKey(s, i, m);
      LiveUnreached(s, passwords, i, m);
      forall k | MailboxUnder(s.heap, m, k)
        ensures k !in known
      {
        assert OpensFile(s, k, i);
      }
    }
    forall m, k | MailboxUnder(s.heap, m, k)
      ensures k !in secrets
    {
      MailKeyIsNoFileKey(s, i, m, k);
    }
  }

  lemma LiveUnreached(s: State, passwords: iset<string>, i: Id, x: Id)
    requires Inv(s) && !Reads(Abs(s), Members(s, passwords), i)
    requires x in Abs(s).caps && Abs(s).caps[x] == Cap(i, true)
    ensures !MembersReach(s, passwords, x)
  {
    hide Inv, Abs, IsMember, Reaches;
    assert forall n :: IsMember(s, passwords, n) ==> n in Members(s, passwords);
  }

  /** Revocation for good: if no user with one of the passwords is the revoker or goes on
      being listed by it, and the members stay shut out, no key that the file gets by this
      revocation or later is ever learnt. */
  lemma RevokedForGood(calls: seq<Call>, call: Call, later: seq<Call>, passwords: iset<string>, i: Id)
    requires RevokesNow(Reached(calls), call) && AllOutside(Reached(calls), call, passwords)
    requires InodeUnder(Reached(calls), (call.op.user, call.op.file)) == Some(i)
    requires Inv(Step(Reached(calls), call).0) && ShutOut(Step(Reached(calls), call).0, later, passwords, i)
    ensures forall k :: k in KeysSince(Step(Reached(calls), call).0, later, i) ==>
              k !in Learned(Reached(calls), [call] + later, passwords, LearnedBy(calls, passwords))
  {
    hide Inv, Abs, InCustody, Tree, Step, ListedWereSent, Discreet, ShutOut, KeysSince, CanCompute, AllOutside, RevokesNow,
      LearnedBy, DrawnByMembers, Reached, Computable;
    var s, before := Reached(calls), LearnedBy(calls, passwords);
    var t := Step(s, call).0;
    ReachedIsWellKept(calls, passwords);
    WellKeptStep(s, call);
    ComputingIsDiscreet(s, passwords, before);
    var now := Computable(s.heap, passwords, before);
    DiscreetStep(s, call, passwords, now);
    NewKeyLearntExactly(calls, call, passwords);
    LearnedOne(s, call, passwords, before);
    assert ([call] + later)[1..] == later;
    KeysStaySecret(t, later, passwords, i, now + DrawnByMembers(s, passwords, call));
  }
}
