/** Whole runs of operations on the datastore. */
module Runs {
  import opened Basics
  import opened Ids
  import opened Records
  import opened Services
  import opened Invariant
  import opened CapabilityFs
  import opened Abstraction
  import opened Edits
  import opened Simulation
  import opened Sharing
  import opened Revocation

  lemma StepInv(s: State, call: Call)
    requires Inv(s)
    ensures Inv(Step(s, call).0)
  {
    hide Step, Abs;
    StepSimulates(s, call);
  }

  /** Any calls, by any users, in any order. */
  ghost function Run(s: State, calls: seq<Call>): (t: State)
    requires Inv(s)
    ensures Inv(t)
    decreases |calls|
  {
    if calls == [] then s
    else
      StepInv(s, calls[0]);
      Run(Step(s, calls[0]).0, calls[1..])
  }

  ghost function Outcomes(s: State, calls: seq<Call>): seq<bool>
    requires Inv(s)
    decreases |calls|
  {
    if calls == [] then []
    else
      StepInv(s, calls[0]);
      [Step(s, calls[0]).1] + Outcomes(Step(s, calls[0]).0, calls[1..])
  }

  ghost predicate Reachable(s: State) {
    EmptyInv();
    exists calls :: s == Run(EMPTY, calls)
  }

  /** `b` is reached from `a` by `ops` with outcomes `oks`, new ids being unused ones. */
  ghost predicate FsRun(a: Fs, ops: seq<Op>, oks: seq<bool>, b: Fs)
    decreases |ops|
  {
    if ops == [] then oks == [] && a == b
    else
      oks != [] && exists fr ::
        FreshFor(a, fr) && Apply(a, ops[0], fr).1 == oks[0] && FsRun(Apply(a, ops[0], fr).0, ops[1..], oks[1..], b)
  }

  function OpsOf(calls: seq<Call>): seq<Op> {
    seq(|calls|, j requires 0 <= j < |calls| => calls[j].op)
  }

  /** Every run on the sealed datastore is a run of the capability file system, with the
      same successes and failures. */
  lemma {:induction false} RunSimulates(s: State, calls: seq<Call>)
    requires Inv(s)
    ensures FsRun(Abs(s), OpsOf(calls), Outcomes(s, calls), Abs(Run(s, calls)))
    decreases |calls|
  {
    hide Step, Abs, Inv, FreshFor, Apply;
    if calls != [] {
      var (t, ok) := Step(s, calls[0]);
      StepSimulates(s, calls[0]);
      FreshIsFresh(s, calls[0].op);
      RunSimulates(t, calls[1..]);
      assert OpsOf(calls)[1..] == OpsOf(calls[1..]);
      assert Outcomes(s, calls)[1..] == Outcomes(t, calls[1..]);
    }
  }

  lemma StepTree(s: State, call: Call)
    requires Inv(s) && Tree(Abs(s))
    ensures Inv(Step(s, call).0) && Tree(Abs(Step(s, call).0))
  {
    hide Step, Abs, Inv, Tree;
    StepSimulates(s, call);
    FreshIsFresh(s, call.op);
    TreeKept(Abs(s), call.op, FreshOf(s, call.op));
  }

  lemma {:induction false} RunTree(s: State, calls: seq<Call>)
    requires Inv(s) && Tree(Abs(s))
    ensures Tree(Abs(Run(s, calls)))
    decreases |calls|
  {
    hide Step, Abs, Inv, Tree;
    if calls != [] {
      StepTree(s, calls[0]);
      RunTree(Step(s, calls[0]).0, calls[1..]);
    }
  }

  /** In every reachable datastore all seals, keys, block lists and listings are in order. */
  lemma ReachableIsSound(s: State)
    requires Reachable(s)
    ensures Inv(s) && Tree(Abs(s))
  {
    EmptyInv();
    var calls :| s == Run(EMPTY, calls);
    EmptyAbs();
    EmptyTree();
    RunTree(EMPTY, calls);
  }

  lemma EmptyAbs()
    ensures Inv(EMPTY) && Abs(EMPTY) == NO_FILES
  {
    EmptyInv();
  }

  /** What a user's `LoadFile` returns; `None` for any failure. */
  ghost function Shown(s: State, p: (string, string)): Option<Bytes>
    requires Inv(s)
  {
    if Registered(s, p.0) then
      KnownUser(s, p.0);
      Opened(LoadFile(s, SessionOf(s, p.0, map[]), p.1))
    else None
  }

  function Opened(r: Result<Bytes, Error>): Option<Bytes> {
    if r.Ok? then Some(r.value) else None
  }

  /** Loading shows what the capability file system holds, through any session of the
      user, whatever name table that session has. */
  lemma ShownIsView(s: State, p: (string, string), ses: Session)
    requires Inv(s)
    ensures Shown(s, p) == View(Abs(s), p)
    ensures Genuine(s, ses) && ses.creds.username == p.0 ==> Opened(LoadFile(s, ses, p.1)) == Shown(s, p)
  {
    hide Inv, Abs, LoadFile;
    UsersOfAbs(s, p.0);
    NamesRegistered(s, p);
    if Registered(s, p.0) {
      KnownUser(s, p.0);
      LoadExact(s, SessionOf(s, p.0, map[]), p.1);
      if Genuine(s, ses) && ses.creds.username == p.0 {
        LoadExact(s, ses, p.1);
      }
    }
  }

  lemma NamesRegistered(s: State, p: (string, string))
    requires Inv(s)
    ensures p in Abs(s).names ==> Registered(s, p.0)
  {
  }

  /** An append gets through exactly on live names. */
  lemma AppendExact(s: State, ses: Session, f: string, piece: Bytes)
    requires Inv(s) && Genuine(s, ses)
    ensures AppendToFile(s, ses, f, Some(piece)).1.Ok? <==> Live(Abs(s), (ses.creds.username, f))
  {
    hide Inv, Abs, WalkInode, Live;
    WalkExactInv(s, ses, f);
  }

  // ---- Revocation

  /** The call is a revocation that succeeds. */
  ghost predicate RevokesNow(s: State, call: Call)
    requires Inv(s)
  {
    call.op.Revoke? && Step(s, call).1
  }

  /** The file under a user's name. */
  ghost function InodeUnder(s: State, p: (string, string)): Option<Id>
    requires Inv(s)
  {
    FileOf(Abs(s), p)
  }

  /** The revocation as seen by the capability file system. */
  lemma RevokeStep(s: State, call: Call)
    requires Inv(s) && RevokesNow(s, call)
    ensures var (t, op) := (Step(s, call).0, call.op);
            && Inv(t) && Revokes(Abs(s), op.user, op.file, op.recipient)
            && FreshFor(Abs(s), FreshOf(s, op))
            && Abs(t) == After(Abs(s), op, FreshOf(s, op))
  {
    hide Step, Abs, Inv, FreshFor, FreshOf;
    StepSimulates(s, call);
    FreshIsFresh(s, call.op);
  }

  /** `access` lists mailbox `m` for somebody other than `r`. */
  ghost predicate ListsForOther(access: Access, r: string, m: Id) {
    exists c :: c in access.children && c != r && access.children[c].mailbox == m
  }

  /** Exactly which mailboxes open the re-keyed inode: the revoker's new one and those
      it lists for others; mailboxes of every other inode are as before. */
  lemma ExactSurvivors(s: State, call: Call, m: Id)
    requires Inv(s) && RevokesNow(s, call) && IsMailbox(Step(s, call).0.heap, m)
    ensures Inv(Step(s, call).0)
    ensures var (u, f, r) := (call.op.user, call.op.file, call.op.recipient);
            var t := Step(s, call).0;
            && Holds(s, (u, f)) && Holds(t, (u, f)) && MailboxOk(t, m)
            && var own := AccessAt(s.heap, AccessId(u, f));
            && IsMailbox(s.heap, own.mailbox)
            && if MailboxAt(t.heap, m).inode == MailboxAt(s.heap, own.mailbox).inode then
                 OpensInode(t.heap, m) <==>
                   m == AccessAt(t.heap, AccessId(u, f)).mailbox || ListsForOther(own, r, m)
               else
                 && IsMailbox(s.heap, m) && MailboxOk(s, m)
                 && MailboxAt(s.heap, m).inode == MailboxAt(t.heap, m).inode
                 && (OpensInode(t.heap, m) <==> OpensInode(s.heap, m))
  {
    hide Step, Inv, FreshFor, Slots, Accesses, Boxes, Inodes, OwnKeys, DistinctUsers, AbsFiles, AbsGrants, AbsUsers;
    var t := Step(s, call).0;
    var p := (call.op.user, call.op.file);
    RevokeStep(s, call);
    HeldCap(s, p);
    HeldCap(t, p);
    CapOf(s, m);
    CapOf(t, m);
    KeptAsCaps(AccessAt(s.heap, AccessId(p.0, p.1)), call.op.recipient);
  }

  lemma CapOf(s: State, m: Id)
    requires Inv(s)
    ensures m in Abs(s).caps <==> IsMailbox(s.heap, m)
    ensures IsMailbox(s.heap, m) ==>
              (MailboxOk(s, m) && Abs(s).caps[m] == Cap(MailboxAt(s.heap, m).inode, OpensInode(s.heap, m)))
  {
    assert IsMailbox(s.heap, m) ==> MailboxOk(s, m);
  }

  // ---- Sessions

  /** Logging in succeeds exactly with the password of registration, and then gives a
      session that every service accepts. */
  lemma LoginExact(s: State, username: string, password: string)
    requires Inv(s)
    ensures Registered(s, username) ==> UserOk(s, username)
    ensures GetUser(s, username, password).Ok? <==>
              Registered(s, username) && Cred(s, username).master.password == password
    ensures GetUser(s, username, password).Ok? ==>
              var ses := GetUser(s, username, password).value;
              Genuine(s, ses) && ses.creds.username == username
  {
    hide Slots, DistinctUsers, Mailboxes, Accesses, Boxes, Inodes, OwnKeys;
    assert Registered(s, username) ==> UserOk(s, username);
  }

  /** No call of anybody changes a user's credentials. */
  lemma CredentialsLast(s: State, call: Call, n: string)
    requires Inv(s) && Registered(s, n)
    ensures var t := Step(s, call).0;
            Inv(t) && Registered(t, n) && UserOk(s, n) && UserOk(t, n) && Cred(t, n) == Cred(s, n)
  {
    hide Inv, StoreFile, AppendToFile, CreateInvitation, AcceptInvitation, RevokeAccess, UserOk, Abs, Apply, SameUsers;
    var op := call.op;
    StepInv(s, call);
    KnownUser(s, n);
    if op.Init? {
      if !Registered(s, op.user) {
        RegisterKeeps(s, op.user, op.password);
      }
    } else if Registered(s, op.user) {
      KnownUser(s, op.user);
      var ses := SessionOf(s, op.user, call.files);
      match op {
        case Store(_, f, content) => StoreSim(s, ses, f, content);
        case Append(_, f, piece) => AppendSim(s, ses, f, piece);
        case Invite(_, f, recipient) => InviteSim(s, ses, f, recipient);
        case Accept(_, sender, pointer, f) => AcceptSim(s, ses, sender, pointer, f);
        case Revoke(_, f, recipient) => RevokeSim(s, ses, f, recipient);
      }
      SameCred(s, Step(s, call).0, n);
    }
    KnownUser(Step(s, call).0, n);
  }

  lemma {:induction false} CredentialsThroughRun(s: State, calls: seq<Call>, n: string)
    requires Inv(s) && Registered(s, n)
    ensures var e := Run(s, calls);
            Registered(e, n) && UserOk(s, n) && UserOk(e, n) && Cred(e, n) == Cred(s, n)
    decreases |calls|
  {
    hide Inv, Step, UserOk;
    KnownUser(s, n);
    if calls != [] {
      CredentialsLast(s, calls[0], n);
      CredentialsThroughRun(Step(s, calls[0]).0, calls[1..], n);
    }
  }

  /** The password given at registration is the one that logs in, after any run: with
      another the record does not open, with this one the login returns the keys made then. */
  lemma RegisteredLogin(s: State, username: string, password: string, calls: seq<Call>, given: string)
    requires Inv(s) && InitUser(s, username, password).1.Ok?
    ensures Inv(InitUser(s, username, password).0)
    ensures var (t, made) := InitUser(s, username, password);
            var r := GetUser(Run(t, calls), username, given);
            var c := made.value.creds;
            && c.username == username && c.master.password == password && c.master.salt == made.value.salt
            && s.next <= c.encKey < t.next && s.next <= c.sigKey < t.next && c.encKey != c.sigKey
            && s.next <= c.master.salt < t.next
            && if given == password then r.Ok? && r.value.creds == c && r.value.salt == made.value.salt
               else r == Err(BadSeal)
  {
    hide Inv, Run;
    var (t, made) := InitUser(s, username, password);
    InitSim(s, username, password);
    CredentialsThroughRun(t, calls, username);
    LoginExact(Run(t, calls), username, given);
  }

  /** A session stays good through every run of anybody's operations. */
  lemma {:induction false} SessionsLast(s: State, calls: seq<Call>, ses: Session)
    requires Inv(s) && Genuine(s, ses)
    ensures Genuine(Run(s, calls), ses)
    decreases |calls|
  {
    hide Inv, Step, UserOk, Abs;
    if calls != [] {
      GenuineStep(s, calls[0], ses);
      SessionsLast(Step(s, calls[0]).0, calls[1..], ses);
    }
  }

  lemma GenuineStep(s: State, call: Call, ses: Session)
    requires Inv(s) && Genuine(s, ses)
    ensures Inv(Step(s, call).0) && Genuine(Step(s, call).0, ses)
  {
    hide Inv, Step, Abs;
    CredentialsLast(s, call, ses.creds.username);
  }
}
