/** The name table in a user record, which a login returns and `ListFiles` shows. */
module NameTables {
  import opened Basics
  import opened Ids
  import opened Blocks
  import opened Records
  import opened Services
  import opened Invariant
  import opened CapabilityFs
  import opened Abstraction
  import opened Edits
  import opened Simulation
  import opened Sharing
  import opened Runs
  import opened Theorems

  /** The table that a login returns. */
  function TableOf(s: State, n: string, password: string): Option<map<string, Id>> {
    var r := GetUser(s, n, password);
    if r.Ok? then Some(r.value.files) else None
  }

  /** `user` enters its name for a file into the table of its session. */
  predicate Enters(op: Op) {
    op.Store? || op.Accept? || op.Revoke?
  }

  function UserSlot(h: Heap, n: string): Option<Payload> {
    if UserId(n) in h then Some(h[UserId(n)]) else None
  }

  /** The record of `n` when a session with entry `f` has been saved. */
  function SavedSlot(h: Heap, ses: Session, f: string, n: string): Option<Payload> {
    if n != ses.creds.username then UserSlot(h, n)
    else Some(UserBlob(ses.salt, UserKeys(ses.creds.master),
      UserPlain(ses.creds, ses.files[f := AccessId(ses.creds.username, f)])))
  }

  lemma StoreSlot(s: State, ses: Session, f: string, content: Bytes, n: string)
    ensures UserSlot(StoreFile(s, ses, f, content).heap, n) == SavedSlot(s.heap, ses, f, n)
  {
    hide SealedBlocks, Chunk, AccessId;
    SlotFacts(ses.creds.username, f, 0);
    UserIdInjective(ses.creds.username, n);
    SealedBlocksAt(s.next + 4, Chunk(content), FileKeys(s.next));
  }

  lemma AppendSlot(s: State, ses: Session, f: string, piece: Option<Bytes>, n: string)
    requires Inv(s) && Genuine(s, ses)
    ensures UserSlot(AppendToFile(s, ses, f, piece).0.heap, n) == UserSlot(s.heap, n)
  {
    hide Inv, Abs, SealedBlocks, Chunk, AccessId, WalkInode, Live;
    if piece.Some? && WalkInode(s.heap, ses, f).Ok? {
      WalkFacts(s, ses, f);
      NoUser(s, n);
      SealedBlocksAt(s.next, Chunk(piece.value), FileKeys(WalkInode(s.heap, ses, f).value.node.fileKey));
    }
  }

  lemma NoUser(s: State, n: string)
    requires Inv(s)
    ensures UserId(n) in s.heap ==> s.heap[UserId(n)].UserBlob?
  {
    hide Inv;
    if Registered(s, n) {
      KnownUser(s, n);
    }
  }

  lemma InviteSlot(s: State, ses: Session, f: string, recipient: string, n: string)
    ensures UserSlot(CreateInvitation(s, ses, f, recipient).0.heap, n) == UserSlot(s.heap, n)
  {
    hide AccessId, WalkMailbox;
    SlotFacts(ses.creds.username, f, 0);
  }

  lemma AcceptSlot(s: State, ses: Session, sender: string, pointer: Id, f: string, n: string)
    ensures var (t, r) := AcceptInvitation(s, ses, sender, pointer, f);
            UserSlot(t.heap, n) == if r.Ok? then SavedSlot(s.heap, ses, f, n) else UserSlot(s.heap, n)
  {
    hide AccessId, OpenInvitation;
    SlotFacts(ses.creds.username, f, 0);
    UserIdInjective(ses.creds.username, n);
  }

  lemma RevokeSlot(s: State, ses: Session, f: string, recipient: string, n: string)
    requires Inv(s) && Genuine(s, ses)
    ensures var (t, r) := RevokeAccess(s, ses, f, recipient);
            UserSlot(t.heap, n) == if r.Ok? then SavedSlot(s.heap, ses, f, n) else UserSlot(s.heap, n)
  {
    hide Inv, Abs, AccessId, WalkMailbox, OpenInode, Live, Kept;
    if WalkInode(s.heap, ses, f).Ok? {
      WalkFacts(s, ses, f);
      NoUser(s, n);
      SlotFacts(ses.creds.username, f, 0);
      UserIdInjective(ses.creds.username, n);
    }
  }

  /** What a call leaves of the tables. A successful `Store`, `Accept` or `Revoke` leaves the
      table of the calling session and the name; registering leaves an empty table, for the
      password given; everything else leaves all tables as they are. */
  lemma TableAfter(s: State, call: Call, n: string, password: string)
    requires Inv(s)
    ensures var ((t, ok), op) := (Step(s, call), call.op);
            TableOf(t, n, password) ==
            if ok && op.user == n && op.Init? then (if password == op.password then Some(map[]) else None)
            else if ok && op.user == n && Enters(op) && TableOf(s, n, password).Some?
            then Some(call.files[op.file := AccessId(n, op.file)])
            else TableOf(s, n, password)
  {
    hide Inv, StoreFile, AppendToFile, CreateInvitation, AcceptInvitation, RevokeAccess, AccessId, UserOk;
    var op := call.op;
    UserIdInjective(op.user, n);
    if op.Init? {
    } else if Registered(s, op.user) {
      KnownUser(s, op.user);
      var ses := SessionOf(s, op.user, call.files);
      match op {
        case Store(_, f, content) => StoreSlot(s, ses, f, content, n);
        case Append(_, f, piece) => AppendSlot(s, ses, f, piece, n);
        case Invite(_, f, recipient) => InviteSlot(s, ses, f, recipient, n);
        case Accept(_, sender, pointer, f) => AcceptSlot(s, ses, sender, pointer, f, n);
        case Revoke(_, f, recipient) => RevokeSlot(s, ses, f, recipient, n);
      }
    }
  }


  // ---- Over runs

  /** The table that a login of a registered user returns. */
  ghost function Listed(s: State, n: string): map<string, Id>
    requires Inv(s) && Registered(s, n)
  {
    KnownUser(s, n);
    LoginExact(s, n, Cred(s, n).master.password);
    TableOf(s, n, Cred(s, n).master.password).value
  }

  /** A session that enters a name has the table that its user's record has: it is the
      user's only session, or has logged in since the last other one entered a name. */
  ghost predicate OwnTable(s: State, call: Call)
    requires Inv(s)
  {
    Enters(call.op) && Registered(s, call.op.user) ==> call.files == Listed(s, call.op.user)
  }

  ghost predicate OwnTables(s: State, calls: seq<Call>)
    requires Inv(s)
    decreases |calls|
  {
    calls != [] ==>
      && OwnTable(s, calls[0])
      && (StepInv(s, calls[0]); OwnTables(Step(s, calls[0]).0, calls[1..]))
  }

  /** The user has the name, and its table lists it. */
  ghost predicate Has(s: State, p: (string, string))
    requires Inv(s)
  {
    p in Abs(s).names
  }

  ghost predicate Lists(s: State, p: (string, string))
    requires Inv(s)
  {
    Registered(s, p.0) && p.1 in Listed(s, p.0)
  }

  ghost predicate AllListed(s: State)
    requires Inv(s)
  {
    forall p :: Has(s, p) ==> Lists(s, p)
  }

  ghost predicate AllHeld(s: State)
    requires Inv(s)
  {
    forall p :: Lists(s, p) ==> Has(s, p) && Listed(s, p.0)[p.1] == SlotOf(p)
  }

  /** Who is registered after a call. */
  lemma UsersAfter(s: State, call: Call, n: string)
    requires Inv(s)
    ensures var ((t, ok), op) := (Step(s, call), call.op);
            && (Registered(t, n) <==> Registered(s, n) || (ok && op.Init? && op.user == n))
            && (ok && op.Init? ==> !Registered(s, op.user))
            && (ok && !op.Init? ==> Registered(s, op.user))
  {
    hide Inv, Abs, Step;
    StepSimulates(s, call);
    UsersOfAbs(s, n);
    UsersOfAbs(s, call.op.user);
    UsersOfAbs(Step(s, call).0, n);
  }

  /** What a call with the user's own table adds to all tables. */
  lemma ListsAfter(s: State, call: Call, p: (string, string))
    requires Inv(s) && OwnTable(s, call)
    ensures var ((t, ok), op) := (Step(s, call), call.op);
            && Inv(t)
            && (Lists(t, p) <==> Lists(s, p) || (ok && Enters(op) && p == (op.user, op.file)))
            && (Lists(t, p) && ok && Enters(op) && p == (op.user, op.file) ==> Listed(t, p.0)[p.1] == SlotOf(p))
            && (Lists(t, p) && !(ok && Enters(op) && p == (op.user, op.file)) ==> Listed(t, p.0)[p.1] == Listed(s, p.0)[p.1])
  {
    hide Inv, Step, AccessId, UserOk, GetUser;
    StepInv(s, call);
    UsersAfter(s, call, p.0);
    var t := Step(s, call).0;
    if Registered(s, p.0) {
      CredentialsLast(s, call, p.0);
      TableAfter(s, call, p.0, Cred(s, p.0).master.password);
      KnownUser(s, p.0);
      LoginExact(s, p.0, Cred(s, p.0).master.password);
    } else if Registered(t, p.0) {
      KnownUser(t, p.0);
      TableAfter(s, call, p.0, Cred(t, p.0).master.password);
      LoginExact(t, p.0, Cred(t, p.0).master.password);
      LoginExact(s, p.0, Cred(t, p.0).master.password);
    }
  }

  /** Which names there are after an operation: a name is lost only to one that collides
      with it. */
  lemma NamesAfter(a: Fs, op: Op, fr: Fresh, p: (string, string))
    ensures var (b, ok) := Apply(a, op, fr);
            && (p in b.names ==> p in a.names || (ok && Enters(op) && p == (op.user, op.file)))
            && (ok && Enters(op) && p == (op.user, op.file) ==> p in b.names)
            && (p in a.names && p !in b.names ==>
                  !op.Init? && op.user in a.users && p != (op.user, op.file) && SlotOf(p) == SlotOf((op.user, op.file)))
  {
    hide SlotOf, Rekey, KeptCaps, CeilDiv;
  }

  lemma HasAfter(s: State, call: Call, p: (string, string))
    requires Inv(s)
    ensures Inv(Step(s, call).0)
    ensures var ((t, ok), op) := (Step(s, call), call.op);
            && (Has(t, p) ==> Has(s, p) || (ok && Enters(op) && p == (op.user, op.file)))
            && (ok && Enters(op) && p == (op.user, op.file) ==> Has(t, p))
            && (Has(s, p) && !Has(t, p) ==>
                  !op.Init? && Registered(s, op.user) && p != (op.user, op.file) && SlotOf(p) == SlotOf((op.user, op.file)))
  {
    hide Inv, Abs, Step, Apply, SlotOf;
    StepSimulates(s, call);
    NamesAfter(Abs(s), call.op, FreshOf(s, call.op), p);
    UsersOfAbs(s, call.op.user);
  }

  /** Every session having its user's own table, each name that a user has is listed. */
  lemma {:induction false} NamesListed(s: State, calls: seq<Call>)
    requires Inv(s) && AllListed(s) && OwnTables(s, calls)
    ensures AllListed(Run(s, calls))
    decreases |calls|
  {
    hide Inv, Step, Has, Lists;
    if calls != [] {
      var t := Step(s, calls[0]).0;
      StepInv(s, calls[0]);
      forall p | Has(t, p)
        ensures Lists(t, p)
      {
        HasAfter(s, calls[0], p);
        ListsAfter(s, calls[0], p);
      }
      NamesListed(t, calls[1..]);
    }
  }

  /** No user of the run has a NUL in its name. */
  ghost predicate PlainUsers(s: State, calls: seq<Call>) {
    && (forall n :: Registered(s, n) ==> NulFree(n))
    && (forall j :: 0 <= j < |calls| && calls[j].op.Init? ==> NulFree(calls[j].op.user))
  }

  /** And where no user name has a NUL, nothing else is listed, and each name under its id. */
  lemma {:induction false} NothingElseListed(s: State, calls: seq<Call>)
    requires Inv(s) && AllHeld(s) && OwnTables(s, calls) && PlainUsers(s, calls)
    ensures AllHeld(Run(s, calls))
    decreases |calls|
  {
    hide Inv, Step, Has, Listed, NulFree, AccessId;
    if calls != [] {
      var (t, op) := (Step(s, calls[0]).0, calls[0].op);
      StepInv(s, calls[0]);
      forall p | Lists(t, p)
        ensures Has(t, p) && Listed(t, p.0)[p.1] == SlotOf(p)
      {
        HasAfter(s, calls[0], p);
        ListsAfter(s, calls[0], p);
        UsersAfter(s, calls[0], p.0);
        if !op.Init? && Registered(s, op.user) && Lists(s, p) {
          AccessIdInjective(p.0, p.1, op.user, op.file);
        }
      }
      PlainStep(s, calls);
      NothingElseListed(t, calls[1..]);
    }
  }

  lemma PlainStep(s: State, calls: seq<Call>)
    requires Inv(s) && calls != [] && PlainUsers(s, calls)
    ensures PlainUsers(Step(s, calls[0]).0, calls[1..])
  {
    hide Inv, Step, NulFree;
    forall n | Registered(Step(s, calls[0]).0, n)
      ensures NulFree(n)
    {
      UsersAfter(s, calls[0], n);
    }
    assert forall j :: 0 <= j < |calls[1..]| ==> calls[1..][j] == calls[j + 1];
  }

  /** A user's table lists exactly its names, in every run in which no user name has a NUL
      and nobody enters a name through a session with an outdated table. */
  lemma ListsExactly(calls: seq<Call>, n: string, f: string)
    requires OwnTables(EMPTY, calls) && PlainUsers(EMPTY, calls) && Registered(Run(EMPTY, calls), n)
    ensures f in Listed(Run(EMPTY, calls), n) <==> (n, f) in Abs(Run(EMPTY, calls)).names
  {
    EmptyInv();
    assert AllListed(EMPTY);
    assert AllHeld(EMPTY);
    NamesListed(EMPTY, calls);
    NothingElseListed(EMPTY, calls);
    assert Lists(Run(EMPTY, calls), (n, f)) <==> Has(Run(EMPTY, calls), (n, f));
  }

  /** Two sessions of one user, neither of which knows the other's file: the later store
      drops the earlier file from the user record, though it still loads. */
  lemma OutdatedTableForgets(s: State, n: string, password: string, files: map<string, Id>,
      f: string, g: string, x: Bytes, y: Bytes)
    requires Sound(s) && GetUser(s, n, password).Ok? && f != g && f !in files
    ensures var first, second := Call(Store(n, f, x), files), Call(Store(n, g, y), files);
            var m := Step(s, first).0;
            && Inv(m)
            && var e := Step(m, second).0;
            && Inv(e)
            && TableOf(m, n, password) == Some(files[f := AccessId(n, f)])
            && TableOf(e, n, password) == Some(files[g := AccessId(n, g)])
            && Shown(e, (n, f)) == Some(x)
  {
    hide Inv, Abs, Step, AccessId, Shown, GetUser, Tree;
    var first, second := Call(Store(n, f, x), files), Call(Store(n, g, y), files);
    var m := Step(s, first).0;
    assert Registered(s, n) by { LoginExact(s, n, password); }
    StepTree(s, first);
    StoreSucceeds(s, first);
    TableAfter(s, first, n, password);
    OtherViews(s, first, (n, f));
    assert Registered(m, n) by { UsersAfter(s, first, n); }
    StepInv(m, second);
    StoreSucceeds(m, second);
    TableAfter(m, second, n, password);
    SameUserSlots(n, f, g);
    OtherViews(m, second, (n, f));
  }

  lemma StoreSucceeds(s: State, call: Call)
    requires Inv(s) && call.op.Store? && Registered(s, call.op.user)
    ensures Step(s, call).1
  {
    hide StoreFile, Inv;
    KnownUser(s, call.op.user);
  }
}
