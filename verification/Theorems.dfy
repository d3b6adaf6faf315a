/** What sharing, revoking and appending promise, over whole runs of the datastore. */
module Theorems {
  import opened Basics
  import opened Ids
  import opened Records
  import opened Services
  import opened Invariant
  import opened CapabilityFs
  import opened Abstraction
  import opened Simulation
  import opened Sharing
  import opened Revocation
  import opened Runs

  lemma ShownIs(s: State, p: (string, string))
    requires Inv(s)
    ensures Shown(s, p) == View(Abs(s), p)
  {
    hide Inv, Abs, LoadFile, View;
    if Registered(s, p.0) {
      KnownUser(s, p.0);
      ShownIsView(s, p, SessionOf(s, p.0, map[]));
    } else {
      ShownIsView(s, p, Session(Credentials("", 0, 0, Master("", 0)), 0, map[]));
    }
  }

  /** The revoker's record for `p` lists, for the user of `q`, the very mailbox that `q` uses. */
  ghost predicate ListedFor(s: State, p: (string, string), q: (string, string))
    requires Inv(s)
  {
    q in Abs(s).names && Shares(Abs(s), p, q.0, Abs(s).names[q].cap)
  }

  /** The whole effect of a revocation on what users can load. The revoker, and exactly
      those names that it lists and does not revoke, load the same bytes as the revoker
      did before; every other name on the file loads nothing; other files are untouched. */
  lemma RevokeViews(s: State, call: Call, q: (string, string))
    requires Inv(s) && Tree(Abs(s)) && RevokesNow(s, call)
    ensures Inv(Step(s, call).0)
    ensures var (u, f, r) := (call.op.user, call.op.file, call.op.recipient);
            var t := Step(s, call).0;
            && Shown(s, (u, f)).Some?
            && Shown(t, q) ==
                 if q == (u, f) || (InodeUnder(s, q) == InodeUnder(s, (u, f)) && q.0 != r && ListedFor(s, (u, f), q))
                 then Shown(s, (u, f))
                 else if InodeUnder(s, q) == InodeUnder(s, (u, f)) then None
                 else Shown(s, q)
  {
    hide Step, Inv, Abs, FreshFor, Shown;
    var t := Step(s, call).0;
    RevokeStep(s, call);
    ShownIs(s, q);
    ShownIs(t, q);
    ShownIs(s, (call.op.user, call.op.file));
    RevokeFsViews(Abs(s), call.op.user, call.op.file, call.op.recipient, FreshOf(s, call.op), q);
  }

  lemma RevokeFsViews(a: Fs, u: string, f: string, r: string, fr: Fresh, q: (string, string))
    requires Tree(a) && FreshFor(a, fr) && Revokes(a, u, f, r)
    ensures View(a, (u, f)).Some?
    ensures View(After(a, Revoke(u, f, r), fr), q) ==
              if q == (u, f) || (FileOf(a, q) == FileOf(a, (u, f)) && q.0 != r &&
                 q in a.names && Shares(a, (u, f), q.0, a.names[q].cap))
              then View(a, (u, f))
              else if FileOf(a, q) == FileOf(a, (u, f)) then None
              else View(a, q)
  {
    hide Acyclic, OneParent, ForOneUser, SameFile;
    var b := After(a, Revoke(u, f, r), fr);
    assert q in a.names && SlotOf(q) == SlotOf((u, f)) ==> q == (u, f);
    if q in a.names && FileOf(a, q) == FileOf(a, (u, f)) {
      WhoKeepsAccess(a, u, f, r, fr, q);
    } else if q in a.names {
      OtherFilesKeep(a, u, f, r, fr, q);
    }
  }

  /** A reachable datastore, described by what every run keeps. */
  ghost predicate Sound(s: State) {
    Inv(s) && Tree(Abs(s))
  }

  /** Right after `u` revokes `r`, no name of `r` on that file loads or appends, whoever
      it came from, and no invitation of `r` for it, accepted afterwards, helps. */
  lemma RevokedUserLosesFile(s: State, call: Call, sender: string, pointer: Id, g: string, files: map<string, Id>)
    requires Sound(s) && RevokesNow(s, call) && call.op.recipient != call.op.user
    ensures Inv(Step(s, call).0)
    ensures var (r, i) := (call.op.recipient, InodeUnder(s, (call.op.user, call.op.file)));
            var t := Step(s, call).0;
            && (InodeUnder(t, (r, g)) == i ==> Shown(t, (r, g)) == None && !Live(Abs(t), (r, g)))
            && var v := Step(t, Call(Accept(r, sender, pointer, g), files)).0;
            && Inv(v)
            && (InodeUnder(v, (r, g)) == i ==> Shown(v, (r, g)) == None && !Live(Abs(v), (r, g)))
  {
    hide Step, Inv, Abs, FreshFor, Shown, Tree;
    var t := Step(s, call).0;
    var op := Accept(call.op.recipient, sender, pointer, g);
    var later := Call(op, files);
    RevokeStep(s, call);
    ShownIs(t, (call.op.recipient, g));
    StepSimulates(t, later);
    FreshIsFresh(t, op);
    ShownIs(Step(t, later).0, (call.op.recipient, g));
    AcceptAfterRevoke(Abs(s), call.op.user, call.op.file, call.op.recipient, FreshOf(s, call.op), op, FreshOf(t, op));
  }

  lemma AcceptAfterRevoke(a: Fs, u: string, f: string, r: string, fr: Fresh, op: Op, fr': Fresh)
    requires Tree(a) && FreshFor(a, fr) && Revokes(a, u, f, r) && r != u
    requires op.Accept? && op.user == r && FreshFor(After(a, Revoke(u, f, r), fr), fr')
    ensures var (b, i) := (After(a, Revoke(u, f, r), fr), FileOf(a, (u, f)));
            && (FileOf(b, (r, op.file)) == i ==> !Live(b, (r, op.file)))
            && var e := After(b, op, fr');
               (FileOf(e, (r, op.file)) == i ==> !Live(e, (r, op.file)))
  {
    hide Acyclic, OneParent, ForOneUser, SameFile;
    RevokedUserLoses(a, u, f, r, fr);
    TreeKept(a, Revoke(u, f, r), fr);
  }

  // ---- Permanence

  ghost predicate BeneathSome(a: Fs, tops: iset<Id>, x: Id) {
    exists top :: top in tops && Beneath(a, top, x)
  }

  ghost function AllBeneath(a: Fs, tops: iset<Id>): iset<Id> {
    iset x: Id | BeneathSome(a, tops, x)
  }

  /** Everything that is beneath a member of `tops` at some state of a run, or beneath
      something that was so before. */
  ghost function EverBeneath(s: State, calls: seq<Call>, tops: iset<Id>): iset<Id>
    requires Inv(s)
    decreases |calls|
  {
    var now := AllBeneath(Abs(s), tops);
    if calls == [] then now
    else
      StepInv(s, calls[0]);
      EverBeneath(Step(s, calls[0]).0, calls[1..], now)
  }

  /** A cut-off set outgrows whatever comes beneath it in a run. */
  lemma {:induction false} EverCutOff(s: State, calls: seq<Call>, tops: iset<Id>, dead: iset<Id>, file: Id)
      returns (more: iset<Id>)
    requires Sound(s) && CutOff(Abs(s), dead, file) && tops <= dead
    ensures dead <= more && EverBeneath(s, calls, tops) <= more && CutOff(Abs(Run(s, calls)), more, file)
    decreases |calls|
  {
    hide Step, Inv, Abs, FreshFor, Tree, CutOff, Beneath;
    var now := AllBeneath(Abs(s), tops);
    forall x | x in now
      ensures x in dead
    {
      var top :| top in tops && Beneath(Abs(s), top, x);
      BeneathCutOff(Abs(s), dead, file, top, x);
    }
    if calls == [] {
      more := dead;
    } else {
      var (t, op) := (Step(s, calls[0]).0, calls[0].op);
      StepSimulates(s, calls[0]);
      FreshIsFresh(s, op);
      StepTree(s, calls[0]);
      CutOffKept(Abs(s), dead, file, op, FreshOf(s, op));
      more := EverCutOff(t, calls[1..], now, Grown(Abs(s), dead, op, FreshOf(s, op)), file);
    }
  }

  /** What is beneath a top at the end has been counted, and so have the tops. */
  lemma {:induction false} EverBeneathCovers(s: State, calls: seq<Call>, tops: iset<Id>, top: Id, x: Id)
    requires Inv(s) && top in tops
    ensures top in EverBeneath(s, calls, tops)
    ensures Beneath(Abs(Run(s, calls)), top, x) ==> x in EverBeneath(s, calls, tops)
    decreases |calls|
  {
    hide Step, Inv, Abs, Beneath;
    BeneathSelf(Abs(s), top);
    if calls != [] {
      StepInv(s, calls[0]);
      var now := AllBeneath(Abs(s), tops);
      EverBeneathCovers(Step(s, calls[0]).0, calls[1..], now, top, x);
    }
  }

  /** The mailbox that a revocation removes, each mailbox beneath it in the sharing tree
      then, and each that comes to be beneath one of these at any later time, never opens
      the inode again, whatever anybody does, even if names are rebound in between so that
      it is beneath nothing any more; the names that use such a mailbox load nothing and
      append nothing. */
  lemma RevocationIsPermanent(s: State, call: Call, meanwhile: seq<Call>, later: seq<Call>, x: Id, q: (string, string))
    requires Sound(s) && RevokesNow(s, call) && (call.op.user, call.op.file) in Abs(s).names
    requires call.op.recipient in Abs(s).names[(call.op.user, call.op.file)].shared
    ensures Inv(Step(s, call).0)
    ensures var root := Abs(s).names[(call.op.user, call.op.file)].shared[call.op.recipient];
            var t := Step(s, call).0;
            var m := Run(t, meanwhile);
            var e := Run(m, later);
            Beneath(Abs(s), root, x) || Beneath(Abs(m), root, x) ||
            x in EverBeneath(t, meanwhile, BeneathSet(Abs(s), root)) ==>
              && IsMailbox(e.heap, x) && MailboxOk(e, x) && !OpensInode(e.heap, x)
              && (q in Abs(e).names && Abs(e).names[q].cap == x ==> Shown(e, q) == None && !Live(Abs(e), q))
  {
    hide Step, Inv, Abs, FreshFor, Shown, Tree, Beneath, CutOff, MailboxOk, OpensInode, EverBeneath;
    RevokeStep(s, call);
    var (u, f, r) := (call.op.user, call.op.file, call.op.recipient);
    var root := Abs(s).names[(u, f)].shared[r];
    var file := FileOf(Abs(s), (u, f)).value;
    var t := Step(s, call).0;
    var tops := BeneathSet(Abs(s), root);
    StepTree(s, call);
    RevocationCutsOff(Abs(s), u, f, r, FreshOf(s, call.op));
    var dead := EverCutOff(t, meanwhile, tops, tops, file);
    BeneathSelf(Abs(s), root);
    EverBeneathCovers(t, meanwhile, tops, root, x);
    if Beneath(Abs(s), root, x) {
      EverBeneathCovers(t, meanwhile, tops, x, x);
    }
    if x in EverBeneath(t, meanwhile, tops) {
      var m := Run(t, meanwhile);
      RunTree(t, meanwhile);
      var more := EverCutOff(m, later, iset{}, dead, file);
      DeadMailbox(Run(m, later), more, file, x, q);
    }
  }

  lemma BeneathCutOff(a: Fs, dead: iset<Id>, file: Id, root: Id, x: Id)
    requires CutOff(a, dead, file) && root in dead && Beneath(a, root, x)
    ensures x in dead
  {
    var path :| IsPath(a, path) && path[0] == root && path[|path| - 1] == x;
    CutOffClosed(a, dead, file, path);
  }

  lemma DeadMailbox(e: State, dead: iset<Id>, file: Id, x: Id, q: (string, string))
    requires Inv(e) && CutOff(Abs(e), dead, file) && x in dead
    ensures IsMailbox(e.heap, x) && MailboxOk(e, x) && !OpensInode(e.heap, x)
    ensures q in Abs(e).names && Abs(e).names[q].cap == x ==> Shown(e, q) == None && !Live(Abs(e), q)
  {
    hide Inv, Abs, Shown, MailboxOk, OpensInode;
    CapOf(e, x);
    ShownIs(e, q);
  }

  // ---- Invitations

  /** A file shared is the file that the other loads: the returned pointer is a new id, it
      opens for the recipient as an invitation of the sender, whatever name it is accepted
      under, and that name loads what the sender's did. */
  lemma SharingRoundTrip(s: State, ses: Session, f: string, other: Session, g: string)
    requires Inv(s) && Genuine(s, ses) && Genuine(s, other)
    requires CreateInvitation(s, ses, f, other.creds.username).1.Ok?
    ensures var (t, pointer) := CreateInvitation(s, ses, f, other.creds.username);
            var (e, r) := AcceptInvitation(t, other, ses.creds.username, pointer.value, g);
            && pointer.value !in s.heap && r.Ok?
            && Opened(LoadFile(e, other, g)) == Opened(LoadFile(s, ses, f))
  {
    hide Inv, Abs, CreateInvitation, AcceptInvitation, LoadFile, SameUsers, Genuine, SlotOf;
    var (u, c) := (ses.creds.username, other.creds.username);
    var (t, pointer) := CreateInvitation(s, ses, f, c);
    InviteSim(s, ses, f, c);
    PointerIs(s, ses, f, c);
    SessionCarries(s, t, other);
    AcceptSim(t, other, u, pointer.value, g);
    var e := AcceptInvitation(t, other, u, pointer.value, g).0;
    LoadExact(s, ses, f);
    SessionCarries(t, e, other);
    LoadExact(e, other, g);
    FreshIsFresh(s, Invite(u, f, c));
  }

  lemma PointerIs(s: State, ses: Session, f: string, c: string)
    requires Inv(s) && CreateInvitation(s, ses, f, c).1.Ok?
    ensures CreateInvitation(s, ses, f, c).1.value == FreshOf(s, Invite(ses.creds.username, f, c)).grant
    ensures CreateInvitation(s, ses, f, c).1.value !in s.heap
  {
    hide Inv, WalkMailbox, AccessId;
    NotDrawn(s);
  }

  // ---- Invitations that wait

  /** An invitation from a live name to a registered user is pending once it is made. */
  lemma InvitationPends(s: State, call: Call)
    requires Sound(s) && call.op.Invite? && Step(s, call).1 && Live(Abs(s), (call.op.user, call.op.file))
    ensures Inv(Step(s, call).0)
    ensures Pending(Abs(Step(s, call).0), call.op.user, call.op.file, call.op.recipient,
                    (FreshOf(s, call.op).grant, call.op.user, call.op.recipient))
  {
    hide Step, Inv, Abs, FreshFor, FreshOf, Tree, Pending, Live;
    StepSimulates(s, call);
    FreshIsFresh(s, call.op);
    PendingMade(Abs(s), call.op.user, call.op.file, call.op.recipient, FreshOf(s, call.op));
  }

  ghost predicate NothingSpoils(s: State, calls: seq<Call>, u: string, f: string, c: string)
    requires Inv(s)
    decreases |calls|
  {
    calls != [] ==>
      && !Spoils(Abs(s), u, f, c, calls[0].op)
      && (StepInv(s, calls[0]); NothingSpoils(Step(s, calls[0]).0, calls[1..], u, f, c))
  }

  lemma {:induction false} PendingThroughRun(s: State, calls: seq<Call>, u: string, f: string, c: string,
      t: (Id, string, string))
    requires Sound(s) && Pending(Abs(s), u, f, c, t) && NothingSpoils(s, calls, u, f, c)
    ensures Sound(Run(s, calls)) && Pending(Abs(Run(s, calls)), u, f, c, t)
    decreases |calls|
  {
    hide Step, Inv, Abs, FreshFor, Tree, Pending, Spoils;
    if calls != [] {
      var op := calls[0].op;
      StepSimulates(s, calls[0]);
      FreshIsFresh(s, op);
      StepTree(s, calls[0]);
      PendingKept(Abs(s), u, f, c, t, op, FreshOf(s, op));
      PendingThroughRun(Step(s, calls[0]).0, calls[1..], u, f, c, t);
    }
  }

  /** A pending invitation survives every run that nothing in it spoils, any number of
      the sharer's other revocations included: accepting the old pointer then gives a
      name that loads what the sharer loads. */
  lemma PendingInvitationSurvives(s: State, calls: seq<Call>, u: string, f: string, c: string,
      t: (Id, string, string), accept: Call)
    requires Sound(s) && Pending(Abs(s), u, f, c, t) && NothingSpoils(s, calls, u, f, c)
    requires accept.op.Accept? && accept.op.user == c && accept.op.sender == u && accept.op.pointer == t.0
    ensures var e := Run(s, calls);
            && Inv(e) && Inv(Step(e, accept).0) && Step(e, accept).1
            && Shown(e, (u, f)).Some?
            && Shown(Step(e, accept).0, (c, accept.op.file)) == Shown(e, (u, f))
  {
    hide Step, Inv, Abs, FreshFor, Tree, Pending, Shown;
    PendingThroughRun(s, calls, u, f, c, t);
    var e := Run(s, calls);
    StepSimulates(e, accept);
    PendingAccepted(Abs(e), u, f, c, t, accept.op.file, FreshOf(e, accept.op));
    ShownIs(e, (u, f));
    ShownIs(Step(e, accept).0, (c, accept.op.file));
  }

  /** `u`'s own revocation of `r` makes the latest invitation of anybody else pending
      again, even one that somebody's re-keying had killed. */
  lemma RevokingRevivesInvitations(s: State, call: Call, c: string, t: (Id, string, string))
    requires Sound(s) && RevokesNow(s, call) && c != call.op.recipient
    requires t in Abs(s).grants && t.1 == call.op.user && t.2 == c && c in Abs(s).users
    requires Shares(Abs(s), (call.op.user, call.op.file), c, Abs(s).grants[t])
    ensures Inv(Step(s, call).0) && Pending(Abs(Step(s, call).0), call.op.user, call.op.file, c, t)
  {
    hide Step, Inv, Abs, FreshFor, Tree, Pending;
    RevokeStep(s, call);
    PendingRevived(Abs(s), call.op.user, call.op.file, call.op.recipient, c, t, FreshOf(s, call.op));
  }

  // ---- What the other operations show

  /** `StoreFile(u, f)` and accepting into `(u, f)` change what `(u, f)` shows and take
      away only names that collide with it; inviting and registering change nothing;
      an append shows on exactly the names live on that file. */
  lemma OtherViews(s: State, call: Call, q: (string, string))
    requires Sound(s) && !call.op.Revoke?
    ensures Inv(Step(s, call).0)
    ensures var (t, ok) := Step(s, call);
            Shown(t, q) ==
              if !ok then Shown(s, q)
              else Expected(call.op, q, Shown(s, q), InodeUnder(s, q) == InodeUnder(s, Target(call.op)),
                            OfferedBy(Abs(s), call.op))
  {
    hide Step, Inv, Abs, FreshFor, FreshOf, Shown, Tree, Expected;
    StepSimulates(s, call);
    FreshIsFresh(s, call.op);
    ShownIs(s, q);
    ShownIs(Step(s, call).0, q);
    ViewAfter(Abs(s), call.op, FreshOf(s, call.op), q);
  }
}
