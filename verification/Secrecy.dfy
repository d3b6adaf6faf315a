/** Which file keys can be computed, by any means, from passwords and the whole datastore.
    Whoever computes need not run the services: it opens whatever its keys open. */
module Secrecy {
  import opened Basics
  import opened Ids
  import opened Records
  import opened Services
  import opened Invariant
  import opened CapabilityFs
  import opened Abstraction
  import opened Simulation
  import opened Sharing
  import opened Revocation
  import opened Runs
  import opened Theorems
  import opened Custody

  /** Sealing keys that follow from a set of passwords and raw keys, for either purpose. The
      salts of all master keys stand unsealed in front of the user records. */
  predicate CanUse(passwords: iset<string>, known: iset<RawKey>, key: SymKey) {
    match key
    case FileKeys(raw) => raw in known
    case MailKeys(raw) => raw in known
    case PersonalKeys(master, _) => master.password in passwords
    case UserKeys(master) => master.password in passwords
  }

  /** Some user record that opens holds the private key. */
  ghost predicate CanUnbox(h: Heap, passwords: iset<string>, known: iset<RawKey>, recipient: RawKey) {
    exists id :: id in h && h[id].UserBlob? && CanUse(passwords, known, h[id].key) && h[id].body.UserPlain? &&
      h[id].body.creds.encKey == recipient
  }

  /** The raw keys written in a record. */
  ghost function KeysIn(body: Plain): iset<RawKey> {
    match body
    case AccessPlain(access) => iset{access.key} + iset c | c in access.children :: access.children[c].key
    case MailboxPlain(node) => iset{node.fileKey}
    case _ => iset{}
  }

  /** What opening the payload at `id` adds is known already. */
  ghost predicate LearnsNothing(h: Heap, passwords: iset<string>, known: iset<RawKey>, id: Id)
    requires id in h
  {
    match h[id]
    case Sealed(key, body) => CanUse(passwords, known, key) ==> KeysIn(body) <= known
    case UserBlob(_, key, body) => CanUse(passwords, known, key) ==> KeysIn(body) <= known
    case SignedBox(recipient, invitation, _) => CanUnbox(h, passwords, known, recipient) ==> invitation.key in known
  }

  ghost predicate Saturated(h: Heap, passwords: iset<string>, known: iset<RawKey>) {
    forall id :: id in h ==> LearnsNothing(h, passwords, known, id)
  }

  /** Whoever has the passwords and knows `before` can compute `k` from `h`: it is in every
      set that contains `before` and to which nothing in `h` adds. */
  ghost predicate CanCompute(h: Heap, passwords: iset<string>, before: iset<RawKey>, k: RawKey) {
    forall known: iset<RawKey> :: before <= known && Saturated(h, passwords, known) ==> k in known
  }

  ghost function Computable(h: Heap, passwords: iset<string>, before: iset<RawKey>): iset<RawKey> {
    iset k: RawKey | CanCompute(h, passwords, before, k)
  }

  // ---- Exactly who can read a file

  /** The users whose secrets follow from the passwords: those who registered with one. */
  ghost predicate IsMember(s: State, passwords: iset<string>, n: string)
    requires Inv(s)
  {
    Registered(s, n) && (KnownUser(s, n); Cred(s, n).master.password in passwords)
  }

  ghost function Members(s: State, passwords: iset<string>): iset<string>
    requires Inv(s)
  {
    iset n: string | IsMember(s, passwords, n)
  }

  /** `r` holds capability `x`, lists it for somebody, or has been invited to it. */
  ghost predicate Reaches(a: Fs, r: string, x: Id) {
    || (exists g :: (r, g) in a.names && a.names[(r, g)].cap == x)
    || (exists g, c :: Shares(a, (r, g), c, x))
    || (exists pointer, sender :: (pointer, sender, r) in a.grants && a.grants[(pointer, sender, r)] == x)
  }

  /** Somebody in `group` reaches a live capability on `file`. */
  ghost predicate Reads(a: Fs, group: iset<string>, file: Id) {
    exists n, x :: n in group && x in a.caps && a.caps[x] == Cap(file, true) && Reaches(a, n, x)
  }

  /** What the passwords alone open: names of members, and invitations to members. */
  lemma OwnRecord(s: State, passwords: iset<string>, id: Id) returns (p: (string, string))
    requires Inv(s) && InCustody(s) && IsAccess(s.heap, id) && CanUse(passwords, iset{}, s.heap[id].key)
    ensures IsMember(s, passwords, p.0) && Holds(s, p) && SlotOf(p) == id
  {
    hide Slots, Mailboxes, Accesses, Boxes, Inodes, OwnKeys, BoxesHeld, MailKeysApart, KeyNamesInode, BlocksListed;
    p :| Holds(s, p) && SlotOf(p) == id;
  }

  lemma OwnBox(s: State, passwords: iset<string>, known: iset<RawKey>, id: Id) returns (sender: string, n: string)
    requires Inv(s) && InCustody(s) && IsBox(s.heap, id) && CanUnbox(s.heap, passwords, known, s.heap[id].recipient)
    ensures IsMember(s, passwords, n)
    ensures (id, sender, n) in Abs(s).grants && Abs(s).grants[(id, sender, n)] == s.heap[id].invitation.mailbox
  {
    hide Mailboxes, Accesses, Inodes, OwnKeys, RecordsHeld, MailKeysApart, KeyNamesInode, BlocksListed;
    sender, n :| Granted(s, (id, sender, n));
    var u :| u in s.heap && s.heap[u].UserBlob? && CanUse(passwords, known, s.heap[u].key) && s.heap[u].body.UserPlain? &&
      s.heap[u].body.creds.encKey == s.heap[id].recipient;
    assert WellPlaced(s, u);
    var owner := s.heap[u].body.creds.username;
    assert Registered(s, owner) && UserOk(s, owner);
    assert Cred(s, n).encKey == Cred(s, owner).encKey;
  }

  /** A member reaches `x`. */
  ghost predicate MembersReach(s: State, passwords: iset<string>, x: Id)
    requires Inv(s)
  {
    exists n :: IsMember(s, passwords, n) && Reaches(Abs(s), n, x)
  }

  lemma RecordKeysReach(s: State, passwords: iset<string>, id: Id, k: RawKey)
    requires Inv(s) && InCustody(s) && IsAccess(s.heap, id)
    requires CanUse(passwords, iset{}, s.heap[id].key) && k in KeysIn(s.heap[id].body)
    ensures exists x :: MailboxUnder(s.heap, x, k) && MembersReach(s, passwords, x)
  {
    hide Inv, Abs, Holds, UserOk, InCustody, Shares, IsMember;
    var p := OwnRecord(s, passwords, id);
    HeldName(s, p);
    AccessFacts(s, id);
    var access := AccessAt(s.heap, id);
    if k == access.key {
      assert Reaches(Abs(s), p.0, access.mailbox) by { HeldReached(Abs(s), p); }
      assert MailboxUnder(s.heap, access.mailbox, k) && MembersReach(s, passwords, access.mailbox);
    } else {
      var c :| c in access.children && access.children[c].key == k;
      assert ChildOk(s.heap, access, c);
      var x := access.children[c].mailbox;
      ChildShared(s, p, c);
      assert Reaches(Abs(s), p.0, x) by { ListedReached(Abs(s), p, c, x); }
      assert MailboxUnder(s.heap, x, k) && MembersReach(s, passwords, x);
    }
  }

  lemma HeldReached(a: Fs, p: (string, string))
    requires p in a.names
    ensures Reaches(a, p.0, a.names[p].cap)
  {
    assert (p.0, p.1) in a.names && a.names[(p.0, p.1)].cap == a.names[p].cap;
  }

  lemma ListedReached(a: Fs, p: (string, string), c: string, x: Id)
    requires Shares(a, p, c, x)
    ensures Reaches(a, p.0, x)
  {
    assert Shares(a, (p.0, p.1), c, x);
  }

  lemma GrantReached(a: Fs, t: (Id, string, string))
    requires t in a.grants
    ensures Reaches(a, t.2, a.grants[t])
  {
    assert (t.0, t.1, t.2) in a.grants && a.grants[(t.0, t.1, t.2)] == a.grants[t];
  }

  lemma ChildShared(s: State, p: (string, string), c: string)
    requires Inv(s) && Holds(s, p) && c in AccessAt(s.heap, SlotOf(p)).children
    ensures Shares(Abs(s), p, c, AccessAt(s.heap, SlotOf(p)).children[c].mailbox)
  {
    hide Inv, Abs, Holds;
    HeldName(s, p);
  }

  lemma BoxFacts(s: State, id: Id)
    requires Inv(s) && IsBox(s.heap, id)
    ensures MailboxUnder(s.heap, s.heap[id].invitation.mailbox, s.heap[id].invitation.key)
  {
  }

  /** Which kind of key seals each kind of record. */
  lemma SealKinds(s: State, id: Id)
    requires Inv(s) && id in s.heap && s.heap[id].Sealed?
    ensures IsMailbox(s.heap, id) ==> s.heap[id].key.MailKeys?
    ensures IsAccess(s.heap, id) ==> s.heap[id].key.PersonalKeys?
    ensures !IsMailbox(s.heap, id) && !IsAccess(s.heap, id) ==> KeysIn(s.heap[id].body) == iset{}
  {
    hide Users, DistinctUsers, Boxes, OwnKeys;
    assert WellPlaced(s, id);
    assert IsMailbox(s.heap, id) ==> MailboxOk(s, id);
    assert IsAccess(s.heap, id) ==> AccessOk(s, id);
    assert IsInode(s.heap, id) ==> InodeOk(s, id);
  }

  /** A set of keys that suffices for all that the passwords open. */
  lemma SaturatedBy(s: State, passwords: iset<string>, known: iset<RawKey>)
    requires Inv(s) && InCustody(s)
    requires forall x, k :: MailboxUnder(s.heap, x, k) && MembersReach(s, passwords, x) ==> k in known
    requires forall m, k :: MailboxUnder(s.heap, m, k) && k in known ==> MailboxAt(s.heap, m).fileKey in known
    ensures Saturated(s.heap, passwords, known)
  {
    hide Inv, Abs, UserOk, InCustody, MembersReach, IsMember, CanUnbox;
    forall id | id in s.heap
      ensures LearnsNothing(s.heap, passwords, known, id)
    {
      match s.heap[id]
      case Sealed(key, body) =>
        SealKinds(s, id);
        if CanUse(passwords, known, key) && IsMailbox(s.heap, id) {
          assert MailboxUnder(s.heap, id, key.raw);
        } else if CanUse(passwords, known, key) && IsAccess(s.heap, id) {
          forall k | k in KeysIn(body)
            ensures k in known
          {
            RecordKeysReach(s, passwords, id, k);
          }
        }
      case UserBlob(_, _, body) => BlobKind(s, id);
      case SignedBox(recipient, invitation, _) =>
        if CanUnbox(s.heap, passwords, known, recipient) {
          BoxReaches(s, passwords, known, id);
        }
    }
  }

  lemma BoxReaches(s: State, passwords: iset<string>, known: iset<RawKey>, id: Id)
    requires Inv(s) && InCustody(s) && IsBox(s.heap, id) && CanUnbox(s.heap, passwords, known, s.heap[id].recipient)
    ensures MailboxUnder(s.heap, s.heap[id].invitation.mailbox, s.heap[id].invitation.key)
    ensures MembersReach(s, passwords, s.heap[id].invitation.mailbox)
  {
    hide Inv, Abs, InCustody, IsMember, CanUnbox;
    BoxFacts(s, id);
    var sender, n := OwnBox(s, passwords, known, id);
    GrantReached(Abs(s), (id, sender, n));
  }

  lemma BlobKind(s: State, id: Id)
    requires Inv(s) && id in s.heap && s.heap[id].UserBlob?
    ensures s.heap[id].body.UserPlain?
  {
    hide Users, DistinctUsers, Mailboxes, Accesses, Boxes, Inodes, OwnKeys;
    assert WellPlaced(s, id);
  }

  /** The key of each mailbox that a member reaches is in each saturated set. */
  lemma ReachedKey(s: State, passwords: iset<string>, n: string, x: Id, known: iset<RawKey>) returns (k: RawKey)
    requires Inv(s) && IsMember(s, passwords, n) && Reaches(Abs(s), n, x) && Saturated(s.heap, passwords, known)
    ensures MailboxUnder(s.heap, x, k) && k in known
  {
    hide Inv, Abs, IsMember;
    if g :| (n, g) in Abs(s).names && Abs(s).names[(n, g)].cap == x {
      k := NamedKey(s, passwords, n, g, known);
    } else if g, c :| Shares(Abs(s), (n, g), c, x) {
      k := ListedKey(s, passwords, n, g, c, known);
    } else {
      var pointer, sender :| (pointer, sender, n) in Abs(s).grants && Abs(s).grants[(pointer, sender, n)] == x;
      GrantBox(s, passwords, known, pointer, sender, n);
      BoxFacts(s, pointer);
      k := s.heap[pointer].invitation.key;
      assert LearnsNothing(s.heap, passwords, known, pointer);
    }
  }

  lemma GrantBox(s: State, passwords: iset<string>, known: iset<RawKey>, pointer: Id, sender: string, n: string)
    requires Inv(s) && IsMember(s, passwords, n) && (pointer, sender, n) in Abs(s).grants
    ensures IsBox(s.heap, pointer) && CanUnbox(s.heap, passwords, known, s.heap[pointer].recipient)
    ensures Abs(s).grants[(pointer, sender, n)] == s.heap[pointer].invitation.mailbox
  {
    hide Slots, Mailboxes, Accesses, Boxes, Inodes, OwnKeys, DistinctUsers;
    assert UserOk(s, n);
    var u := UserId(n);
    assert u in s.heap && s.heap[u].UserBlob? && CanUse(passwords, known, s.heap[u].key) && s.heap[u].body.UserPlain? &&
      s.heap[u].body.creds.encKey == s.heap[pointer].recipient;
  }

  lemma RecordOpens(s: State, passwords: iset<string>, known: iset<RawKey>, p: (string, string))
    requires Inv(s) && IsMember(s, passwords, p.0) && Holds(s, p) && Saturated(s.heap, passwords, known)
    ensures KeysIn(s.heap[SlotOf(p)].body) <= known
  {
    hide Inv, AccessId;
    UsersIn(s);
    assert LearnsNothing(s.heap, passwords, known, SlotOf(p));
  }

  lemma NamedKey(s: State, passwords: iset<string>, n: string, g: string, known: iset<RawKey>) returns (k: RawKey)
    requires Inv(s) && IsMember(s, passwords, n) && (n, g) in Abs(s).names && Saturated(s.heap, passwords, known)
    ensures MailboxUnder(s.heap, Abs(s).names[(n, g)].cap, k) && k in known
  {
    hide Inv, Abs, IsMember, AccessId;
    HeldName(s, (n, g));
    AccessFacts(s, SlotOf((n, g)));
    RecordOpens(s, passwords, known, (n, g));
    k := AccessAt(s.heap, SlotOf((n, g))).key;
    assert k in KeysIn(s.heap[SlotOf((n, g))].body);
  }

  lemma ListedKey(s: State, passwords: iset<string>, n: string, g: string, c: string, known: iset<RawKey>) returns (k: RawKey)
    requires Inv(s) && IsMember(s, passwords, n) && Saturated(s.heap, passwords, known)
    requires (n, g) in Abs(s).names && c in Abs(s).names[(n, g)].shared
    ensures MailboxUnder(s.heap, Abs(s).names[(n, g)].shared[c], k) && k in known
  {
    hide Inv, Abs, IsMember, AccessId;
    HeldName(s, (n, g));
    AccessFacts(s, SlotOf((n, g)));
    RecordOpens(s, passwords, known, (n, g));
    var access := AccessAt(s.heap, SlotOf((n, g)));
    assert ChildOk(s.heap, access, c);
    k := access.children[c].key;
    assert k in KeysIn(s.heap[SlotOf((n, g))].body);
  }

  /** `k` is the key of a mailbox that opens `file`. */
  ghost predicate OpensFile(s: State, k: RawKey, file: Id)
    requires Inv(s)
  {
    exists x :: MailboxUnder(s.heap, x, k) && x in Abs(s).caps && Abs(s).caps[x] == Cap(file, true)
  }

  ghost predicate HoldsLiveKey(s: State, known: iset<RawKey>, file: Id)
    requires Inv(s)
  {
    exists k :: k in known && OpensFile(s, k, file)
  }

  lemma LiveMailbox(s: State, x: Id, file: Id)
    requires Inv(s)
    ensures x in Abs(s).caps && Abs(s).caps[x] == Cap(file, true) <==>
            IsMailbox(s.heap, x) && MailboxOk(s, x) && MailboxAt(s.heap, x).inode == file && OpensInode(s.heap, x)
  {
    hide Inv, Abs, MailboxOk, OpensInode;
    CapOf(s, x);
  }

  /** Exactly who can compute the present key of a file from the whole datastore. It takes
      the password of a user who holds, lists or has been sent a live capability on it; or
      knowing the key, or the key of a live mailbox, already. */
  lemma ReadersExact(s: State, passwords: iset<string>, file: Id, before: iset<RawKey>)
    requires Inv(s) && InCustody(s) && IsInode(s.heap, file)
    ensures s.heap[file].key.FileKeys?
    ensures CanCompute(s.heap, passwords, before, s.heap[file].key.raw) <==>
            Reads(Abs(s), Members(s, passwords), file) || s.heap[file].key.raw in before || HoldsLiveKey(s, before, file)
  {
    hide Inv, Abs, InCustody, Reads, Members, OpensFile, Saturated;
    FileKeyOld(s, file);
    var raw := s.heap[file].key.raw;
    if Reads(Abs(s), Members(s, passwords), file) || HoldsLiveKey(s, before, file) {
      forall known: iset<RawKey> | before <= known && Saturated(s.heap, passwords, known)
        ensures raw in known
      {
        LiveKeyOpens(s, passwords, file, before, known);
      }
    } else if raw !in before {
      var rest := iset k: RawKey | k != raw && !OpensFile(s, k, file);
      RestSaturated(s, passwords, file, rest);
      assert before <= rest;
    }
  }

  lemma LiveKeyOpens(s: State, passwords: iset<string>, file: Id, before: iset<RawKey>, known: iset<RawKey>)
    requires Inv(s) && IsInode(s.heap, file) && s.heap[file].key.FileKeys?
    requires before <= known && Saturated(s.heap, passwords, known)
    requires Reads(Abs(s), Members(s, passwords), file) || HoldsLiveKey(s, before, file)
    ensures s.heap[file].key.raw in known
  {
    hide Inv, Abs, Reaches, IsMember;
    var x, k;
    if Reads(Abs(s), Members(s, passwords), file) {
      var n;
      n, x :| n in Members(s, passwords) && x in Abs(s).caps && Abs(s).caps[x] == Cap(file, true) && Reaches(Abs(s), n, x);
      k := ReachedKey(s, passwords, n, x, known);
    } else {
      k :| k in before && OpensFile(s, k, file);
      x :| MailboxUnder(s.heap, x, k) && x in Abs(s).caps && Abs(s).caps[x] == Cap(file, true);
    }
    LiveMailbox(s, x, file);
    assert LearnsNothing(s.heap, passwords, known, x);
    assert MailboxAt(s.heap, x).fileKey in KeysIn(s.heap[x].body);
  }

  lemma RestSaturated(s: State, passwords: iset<string>, file: Id, rest: iset<RawKey>)
    requires Inv(s) && InCustody(s) && IsInode(s.heap, file) && s.heap[file].key.FileKeys?
    requires !Reads(Abs(s), Members(s, passwords), file)
    requires rest == iset k: RawKey | k != s.heap[file].key.raw && !OpensFile(s, k, file)
    ensures Saturated(s.heap, passwords, rest)
  {
    hide Inv, Abs, IsMember, Reaches, Saturated, RecordsHeld, BoxesHeld, BlocksListed;
    forall x, k | MailboxUnder(s.heap, x, k) && MembersReach(s, passwords, x)
      ensures k in rest
    {
      var n :| IsMember(s, passwords, n) && Reaches(Abs(s), n, x);
      assert n in Members(s, passwords);
    }
    forall m, k | MailboxUnder(s.heap, m, k) && k in rest
      ensures MailboxAt(s.heap, m).fileKey in rest
    {
      LiveMailbox(s, m, file);
      CapOf(s, m);
    }
    SaturatedBy(s, passwords, rest);
  }

  /** Two users with one password: either computes the key of every file live for the other. */
  lemma SamePasswordReads(s: State, o: string, w: string, f: string)
    requires Inv(s) && InCustody(s) && Registered(s, o) && Registered(s, w) && Live(Abs(s), (o, f))
    ensures UserOk(s, o) && UserOk(s, w)
    ensures Cred(s, o).master.password == Cred(s, w).master.password ==>
              var i := FileOf(Abs(s), (o, f)).value;
              && IsInode(s.heap, i) && s.heap[i].key.FileKeys?
              && CanCompute(s.heap, iset{Cred(s, w).master.password}, iset{}, s.heap[i].key.raw)
  {
    hide Inv, Abs, InCustody, Reaches, CanCompute, UserOk;
    KnownUser(s, o);
    KnownUser(s, w);
    ViewExact(s, (o, f));
    FileEntry(s, FileOf(Abs(s), (o, f)).value);
    var passwords := iset{Cred(s, w).master.password};
    ReadersExact(s, passwords, FileOf(Abs(s), (o, f)).value, iset{});
    HeldReached(Abs(s), (o, f));
    if Cred(s, o).master.password == Cred(s, w).master.password {
      assert o in Members(s, passwords);
      assert Reads(Abs(s), Members(s, passwords), FileOf(Abs(s), (o, f)).value);
    }
  }

  // ---- Attackers with a memory

  predicate IsDrawn(s: State, t: State, k: RawKey) {
    s.next <= k < t.next
  }

  /** The keys that the step from `s` to `t` draws. */
  ghost function Drawn(s: State, t: State): iset<RawKey> {
    iset k: RawKey | IsDrawn(s, t, k)
  }

  /** A member calls, or registers. */
  ghost predicate ByMember(s: State, passwords: iset<string>, call: Call)
    requires Inv(s)
  {
    if call.op.Init? then call.op.password in passwords else IsMember(s, passwords, call.op.user)
  }

  ghost function DrawnByMembers(s: State, passwords: iset<string>, call: Call): iset<RawKey>
    requires Inv(s)
  {
    if ByMember(s, passwords, call) then Drawn(s, Step(s, call).0) else iset{}
  }

  /** All that the members together can know at the end of a run, if they keep everything
      they could ever compute, from every datastore on the way, and all that their own calls
      draw. */
  ghost function Learned(s: State, calls: seq<Call>, passwords: iset<string>, before: iset<RawKey>): iset<RawKey>
    requires Inv(s)
    decreases |calls|
  {
    var now := Computable(s.heap, passwords, before);
    if calls == [] then now
    else
      StepInv(s, calls[0]);
      Learned(Step(s, calls[0]).0, calls[1..], passwords, now + DrawnByMembers(s, passwords, calls[0]))
  }

  /** `k` is drawn, and not the key of a listed mailbox, except if a member lists it or it
      is listed for a member. */
  ghost predicate MayKnow(s: State, passwords: iset<string>, k: RawKey)
    requires Inv(s)
  {
    && k < s.next
    && forall p, c, x :: Shares(Abs(s), p, c, x) && MailboxUnder(s.heap, x, k) ==>
         IsMember(s, passwords, p.0) || IsMember(s, passwords, c)
  }

  ghost predicate Discreet(s: State, passwords: iset<string>, known: iset<RawKey>)
    requires Inv(s)
  {
    forall k :: k in known ==> MayKnow(s, passwords, k)
  }

  ghost function Permitted(s: State, passwords: iset<string>): iset<RawKey>
    requires Inv(s)
  {
    iset k: RawKey | MayKnow(s, passwords, k)
  }

  /** Each listed capability was sent to the user it is listed for. */
  ghost predicate ListedWereSent(a: Fs) {
    forall p, c, x :: Shares(a, p, c, x) ==> Sent(a, p.0, c, x)
  }

  ghost predicate Sent(a: Fs, sender: string, c: string, x: Id) {
    exists pointer :: (pointer, sender, c) in a.grants && a.grants[(pointer, sender, c)] == x
  }

  /** All that every run keeps. */
  ghost predicate WellKept(s: State) {
    Sound(s) && InCustody(s) && ListedWereSent(Abs(s))
  }

  lemma SentStays(a: Fs, op: Op, fr: Fresh, sender: string, c: string, x: Id)
    requires FreshFor(a, fr) && Sent(a, sender, c, x)
    ensures Sent(After(a, op, fr), sender, c, x)
  {
    var pointer :| (pointer, sender, c) in a.grants && a.grants[(pointer, sender, c)] == x;
    var b := After(a, op, fr);
    assert (pointer, sender, c) in b.grants && b.grants[(pointer, sender, c)] == x;
  }

  lemma ListedWereSentKept(a: Fs, op: Op, fr: Fresh)
    requires Tree(a) && FreshFor(a, fr) && ListedWereSent(a)
    ensures ListedWereSent(After(a, op, fr))
  {
    hide Acyclic, OneParent, ForOneUser, OneNamePerSlot, SameFile;
    var b := After(a, op, fr);
    forall p, c, x | Shares(b, p, c, x)
      ensures Sent(b, p.0, c, x)
    {
      OldShares(a, op, fr, p, c, x);
      if Shares(a, p, c, x) {
        SentStays(a, op, fr, p.0, c, x);
      } else {
        assert (fr.grant, p.0, c) in b.grants && b.grants[(fr.grant, p.0, c)] == x;
      }
    }
  }

  lemma WellKeptStep(s: State, call: Call)
    requires WellKept(s)
    ensures Inv(Step(s, call).0) && WellKept(Step(s, call).0)
    ensures FreshFor(Abs(s), FreshOf(s, call.op)) && Abs(Step(s, call).0) == After(Abs(s), call.op, FreshOf(s, call.op))
  {
    hide Inv, Abs, InCustody, Tree, Step, FreshFor, FreshOf, ListedWereSent;
    StepTree(s, call);
    CustodyKept(s, call);
    StepSimulates(s, call);
    FreshIsFresh(s, call.op);
    ListedWereSentKept(Abs(s), call.op, FreshOf(s, call.op));
  }

  lemma ComputingIsDiscreet(s: State, passwords: iset<string>, before: iset<RawKey>)
    requires Sound(s) && InCustody(s) && Discreet(s, passwords, before)
    ensures Discreet(s, passwords, Computable(s.heap, passwords, before))
  {
    hide Inv, Abs, InCustody, Saturated, Tree, Shares, IsMember;
    var known := Permitted(s, passwords);
    PermittedSaturated(s, passwords);
    assert before <= known && Saturated(s.heap, passwords, known);
    assert Computable(s.heap, passwords, before) <= known;
  }

  lemma PermittedSaturated(s: State, passwords: iset<string>)
    requires Sound(s) && InCustody(s)
    ensures Saturated(s.heap, passwords, Permitted(s, passwords))
  {
    hide Inv, Abs, IsMember, Reaches, Saturated, Tree, RecordsHeld, BoxesHeld, BlocksListed, KeyNamesInode, Shares;
    forall x, k | MailboxUnder(s.heap, x, k) && MembersReach(s, passwords, x)
      ensures k in Permitted(s, passwords)
    {
      var n :| IsMember(s, passwords, n) && Reaches(Abs(s), n, x);
      forall p, c, y | Shares(Abs(s), p, c, y) && MailboxUnder(s.heap, y, k)
        ensures IsMember(s, passwords, p.0) || IsMember(s, passwords, c)
      {
        assert y == x;
        ReachedIsOwn(Abs(s), n, x, p, c);
      }
    }
    forall m, k | MailboxUnder(s.heap, m, k) && k in Permitted(s, passwords)
      ensures MailboxAt(s.heap, m).fileKey in Permitted(s, passwords)
    {
      CapOf(s, m);
    }
    SaturatedBy(s, passwords, Permitted(s, passwords));
  }

  /** A user reaches a listed capability only as its lister or as the one it is for. */
  lemma ReachedIsOwn(a: Fs, w: string, x: Id, p: (string, string), c: string)
    requires Tree(a) && Reaches(a, w, x) && Shares(a, p, c, x)
    ensures p.0 == w || c == w
  {
    hide Acyclic, Closed, SameFile, OneNamePerSlot;
  }

  lemma MembersStay(s: State, call: Call, passwords: iset<string>, n: string)
    requires Inv(s) && Registered(s, n)
    ensures Inv(Step(s, call).0)
    ensures IsMember(s, passwords, n) <==> IsMember(Step(s, call).0, passwords, n)
  {
    hide Inv, Step;
    CredentialsLast(s, call, n);
  }

  lemma DiscreetStep(s: State, call: Call, passwords: iset<string>, known: iset<RawKey>)
    requires Sound(s) && InCustody(s) && Discreet(s, passwords, known)
    ensures Sound(Step(s, call).0) && InCustody(Step(s, call).0)
    ensures Discreet(Step(s, call).0, passwords, known + DrawnByMembers(s, passwords, call))
  {
    hide Inv, Abs, InCustody, Tree, Step, Shares, FreshFor, FreshOf, IsMember;
    var t := Step(s, call).0;
    StepTree(s, call);
    CustodyKept(s, call);
    DrawsGrow(s, call);
    StepSimulates(s, call);
    FreshIsFresh(s, call.op);
    forall k, p, c, x | k in known + DrawnByMembers(s, passwords, call) && Shares(Abs(t), p, c, x) && MailboxUnder(t.heap, x, k)
      ensures IsMember(t, passwords, p.0) || IsMember(t, passwords, c)
    {
      MailboxKeysStay(s, call, x, k);
      NewShare(Abs(s), call.op, FreshOf(s, call.op), p, c, x);
      CapOf(s, x);
      FreshUnused(s, call.op);
      if IsMember(s, passwords, p.0) {
        MemberStays(s, call, passwords, p.0);
      }
      if IsMember(s, passwords, c) {
        MemberStays(s, call, passwords, c);
      }
    }
  }

  lemma MemberStays(s: State, call: Call, passwords: iset<string>, n: string)
    requires Inv(s) && IsMember(s, passwords, n)
    ensures Inv(Step(s, call).0) && IsMember(Step(s, call).0, passwords, n)
  {
    hide Inv, Step;
    MembersStay(s, call, passwords, n);
  }

  lemma NewShare(a: Fs, op: Op, fr: Fresh, p: (string, string), c: string, x: Id)
    requires Tree(a) && FreshFor(a, fr) && Shares(After(a, op, fr), p, c, x)
    ensures (x in a.caps && Shares(a, p, c, x)) || (op.Invite? && x == fr.cap && p.0 == op.user)
  {
    hide Acyclic, OneParent, ForOneUser, OneNamePerSlot;
    OldShares(a, op, fr, p, c, x);
  }

  lemma FreshUnused(s: State, op: Op)
    requires Inv(s)
    ensures FreshOf(s, op).cap !in s.heap
  {
    NotDrawn(s);
  }

  lemma {:induction false} LearnedIsDiscreet(s: State, calls: seq<Call>, passwords: iset<string>, before: iset<RawKey>)
    requires WellKept(s) && Discreet(s, passwords, before)
    ensures var e := Run(s, calls);
            WellKept(e) && Discreet(e, passwords, Learned(s, calls, passwords, before))
    decreases |calls|
  {
    hide Inv, Abs, InCustody, Tree, Step, Discreet, Computable, ListedWereSent, DrawnByMembers;
    ComputingIsDiscreet(s, passwords, before);
    if calls != [] {
      var now := Computable(s.heap, passwords, before);
      DiscreetStep(s, calls[0], passwords, now);
      WellKeptStep(s, calls[0]);
      LearnedIsDiscreet(Step(s, calls[0]).0, calls[1..], passwords, now + DrawnByMembers(s, passwords, calls[0]));
    }
  }

  // ---- Revocation keeps the new key from everybody else

  /** After the revocation, the live capabilities on the file are the revoker's own new one
      and those it lists for others than the one revoked. */
  lemma LiveAfterRevoke(a: Fs, u: string, f: string, r: string, fr: Fresh, x: Id)
    requires Tree(a) && FreshFor(a, fr) && Revokes(a, u, f, r)
    requires var b := After(a, Revoke(u, f, r), fr);
             x in b.caps && b.caps[x] == Cap(FileOf(a, (u, f)).value, true)
    ensures x == fr.cap || exists c :: c != r && Shares(a, (u, f), c, x)
  {
    hide Acyclic, OneParent, ForOneUser, OneNamePerSlot;
    KeptShares(a, u, f, r, x);
  }

  /** `w` is neither the revoker nor one whom the revoker goes on listing. */
  ghost predicate Outsider(a: Fs, op: Op, w: string)
    requires op.Revoke?
  {
    w != op.user && (w == op.recipient || forall x :: !Shares(a, (op.user, op.file), w, x))
  }

  /** Outsiders reach none of them. */
  lemma OutsidersReachNothing(a: Fs, u: string, f: string, r: string, fr: Fresh, group: iset<string>)
    requires Tree(a) && FreshFor(a, fr) && Revokes(a, u, f, r)
    requires forall n :: n in group ==> Outsider(a, Revoke(u, f, r), n)
    ensures !Reads(After(a, Revoke(u, f, r), fr), group, FileOf(a, (u, f)).value)
  {
    hide Tree, Reaches, Apply, FreshFor;
    var b := After(a, Revoke(u, f, r), fr);
    TreeKept(a, Revoke(u, f, r), fr);
    if Reads(b, group, FileOf(a, (u, f)).value) {
      var n, x :| n in group && x in b.caps && b.caps[x] == Cap(FileOf(a, (u, f)).value, true) && Reaches(b, n, x);
      LiveAfterRevoke(a, u, f, r, fr, x);
      NewCapUnreached(a, u, f, r, fr, n);
      var c :| c != r && Shares(a, (u, f), c, x);
      StillListed(a, u, f, r, fr, c, x);
      ReachedIsOwn(b, n, x, (u, f), c);
    }
  }

  /** Whoever is not an outsider reaches one. */
  lemma InsiderReaches(a: Fs, u: string, f: string, r: string, fr: Fresh, n: string) returns (x: Id)
    requires Tree(a) && FreshFor(a, fr) && Revokes(a, u, f, r) && ListedWereSent(a)
    requires !Outsider(a, Revoke(u, f, r), n)
    ensures var b := After(a, Revoke(u, f, r), fr);
            x in b.caps && b.caps[x] == Cap(FileOf(a, (u, f)).value, true) && Reaches(b, n, x)
  {
    hide Acyclic, OneParent, ForOneUser, OneNamePerSlot;
    var b := After(a, Revoke(u, f, r), fr);
    if n == u {
      x := fr.cap;
      HeldReached(b, (u, f));
    } else {
      x :| Shares(a, (u, f), n, x);
      KeptShares(a, u, f, r, x);
      SentStays(a, Revoke(u, f, r), fr, u, n, x);
      var pointer :| (pointer, u, n) in b.grants && b.grants[(pointer, u, n)] == x;
      GrantReached(b, (pointer, u, n));
    }
  }

  lemma StillListed(a: Fs, u: string, f: string, r: string, fr: Fresh, c: string, x: Id)
    requires Revokes(a, u, f, r) && c != r && Shares(a, (u, f), c, x)
    ensures Shares(After(a, Revoke(u, f, r), fr), (u, f), c, x)
  {
  }

  lemma NewCapUnreached(a: Fs, u: string, f: string, r: string, fr: Fresh, w: string)
    requires Tree(a) && FreshFor(a, fr) && Revokes(a, u, f, r) && w != u
    ensures !Reaches(After(a, Revoke(u, f, r), fr), w, fr.cap)
  {
    hide Acyclic, OneParent, ForOneUser, OneNamePerSlot;
    var b := After(a, Revoke(u, f, r), fr);
    forall g, c | Shares(b, (w, g), c, fr.cap)
      ensures Shares(a, (w, g), c, fr.cap)
    {
      OldShares(a, Revoke(u, f, r), fr, (w, g), c, fr.cap);
    }
  }

  /** The file is under the key that the revocation drew. */
  lemma RevokedKey(s: State, call: Call)
    requires Inv(s) && RevokesNow(s, call)
    ensures var i := InodeUnder(s, (call.op.user, call.op.file));
            i.Some? && IsInode(Step(s, call).0.heap, i.value) && Step(s, call).0.heap[i.value].key == FileKeys(s.next)
  {
    hide Inv, Abs, WalkInode, RevokeAccess, UserOk, Live;
    var (u, f, r) := (call.op.user, call.op.file, call.op.recipient);
    KnownUser(s, u);
    var ses := SessionOf(s, u, call.files);
    WalkExactInv(s, ses, f);
    if WalkInode(s.heap, ses, f).Ok? {
      WalkFacts(s, ses, f);
      var i := WalkInode(s.heap, ses, f).value.node.inode;
      RevokeAt(s, ses, f, r, i);
      InodeKeepsPlace(s, ses, f, i);
    } else {
      RevokeFailsToo(s, ses, f, r);
    }
  }

  lemma RevokeFailsToo(s: State, ses: Session, f: string, r: string)
    requires WalkInode(s.heap, ses, f).Err?
    ensures RevokeAccess(s, ses, f, r).1.Err?
  {
  }

  /** A mailbox that the revocation leaves live has a key that outsiders may not know. */
  lemma LiveKeyUnknown(s: State, call: Call, passwords: iset<string>, i: Id, x: Id, k: RawKey)
    requires Sound(s) && InCustody(s) && RevokesNow(s, call) && AllOutside(s, call, passwords)
    requires InodeUnder(s, (call.op.user, call.op.file)) == Some(i)
    requires Inv(Step(s, call).0) && MailboxUnder(Step(s, call).0.heap, x, k)
    requires var b := Abs(Step(s, call).0); x in b.caps && b.caps[x] == Cap(i, true)
    ensures !MayKnow(s, passwords, k)
  {
    hide Inv, Abs, InCustody, Tree, Step, Shares, FreshFor, FreshOf, Apply, IsMember;
    var (u, f, r) := (call.op.user, call.op.file, call.op.recipient);
    RevokeStep(s, call);
    MailboxKeysStay(s, call, x, k);
    FreshUnused(s, call.op);
    LiveAfterRevoke(Abs(s), u, f, r, FreshOf(s, call.op), x);
    if x in s.heap {
      var c :| c != r && Shares(Abs(s), (u, f), c, x);
      assert MailboxUnder(s.heap, x, k);
      assert !IsMember(s, passwords, u) && !IsMember(s, passwords, c);
    }
  }

  /** No member is the revoker or one whom the revoker goes on listing. */
  ghost predicate AllOutside(s: State, call: Call, passwords: iset<string>)
    requires Inv(s) && call.op.Revoke?
  {
    forall n :: IsMember(s, passwords, n) ==> Outsider(Abs(s), call.op, n)
  }

  lemma NoLiveKey(s: State, call: Call, passwords: iset<string>, i: Id, known: iset<RawKey>)
    requires Sound(s) && InCustody(s) && RevokesNow(s, call) && AllOutside(s, call, passwords)
    requires InodeUnder(s, (call.op.user, call.op.file)) == Some(i) && Discreet(s, passwords, known)
    requires Inv(Step(s, call).0)
    ensures !HoldsLiveKey(Step(s, call).0, known, i)
  {
    hide Inv, Abs, InCustody, Tree, Step, MailboxUnder, MayKnow, RevokesNow, AllOutside;
    var t := Step(s, call).0;
    forall x, k | MailboxUnder(t.heap, x, k) && x in Abs(t).caps && Abs(t).caps[x] == Cap(i, true)
      ensures !MayKnow(s, passwords, k)
    {
      LiveKeyUnknown(s, call, passwords, i, x, k);
    }
  }

  /** The state after calls on an empty datastore. */
  ghost function Reached(calls: seq<Call>): (s: State)
    ensures Inv(s)
  {
    EmptyInv();
    Run(EMPTY, calls)
  }

  ghost function LearnedBy(calls: seq<Call>, passwords: iset<string>): iset<RawKey> {
    EmptyInv();
    Learned(EMPTY, calls, passwords, iset{})
  }

  lemma ReachedIsWellKept(calls: seq<Call>, passwords: iset<string>)
    ensures WellKept(Reached(calls)) && Discreet(Reached(calls), passwords, LearnedBy(calls, passwords))
  {
    hide Inv, Abs, InCustody, Tree, Learned, Run;
    EmptyInv();
    EmptyCustody();
    EmptyAbs();
    EmptyTree();
    LearnedIsDiscreet(EMPTY, calls, passwords, iset{});
  }

  /** Revocation is not only enforced by the services. Whoever has some passwords computes
      the key under which the revocation puts the file exactly if a user with one of them
      is the revoker, or one whom the revoker goes on listing; nothing computed from any
      datastore since the beginning helps. So the revoked user is shut out exactly if it
      shares its password with none of those. */
  lemma NewKeyLearntExactly(calls: seq<Call>, call: Call, passwords: iset<string>)
    requires RevokesNow(Reached(calls), call)
    ensures Inv(Step(Reached(calls), call).0)
    ensures var s := Reached(calls);
            var i := InodeUnder(s, (call.op.user, call.op.file));
            var t := Step(s, call).0;
            && i.Some? && IsInode(t.heap, i.value) && t.heap[i.value].key.FileKeys?
            && (t.heap[i.value].key.raw !in Learned(s, [call], passwords, LearnedBy(calls, passwords)) <==>
                AllOutside(s, call, passwords))
  {
    hide Inv, Abs, InCustody, Tree, Step, ListedWereSent, Discreet, FreshFor, FreshOf, Apply, CanCompute, AllOutside, LearnedBy;
    var s, before := Reached(calls), LearnedBy(calls, passwords);
    ReachedIsWellKept(calls, passwords);
    var t := Step(s, call).0;
    RevokeStep(s, call);
    RevokedKey(s, call);
    WellKeptStep(s, call);
    ComputingIsDiscreet(s, passwords, before);
    var now := Computable(s.heap, passwords, before);
    var i := InodeUnder(s, (call.op.user, call.op.file)).value;
    var more := now + DrawnByMembers(s, passwords, call);
    ReadersExact(t, passwords, i, more);
    assert Learned(s, [call], passwords, before) == Computable(t.heap, passwords, more) by { LearnedOne(s, call, passwords, before); }
    if AllOutside(s, call, passwords) {
      NobodyLearns(s, call, passwords, i, now);
    } else {
      SomebodyReads(s, call, passwords, i);
    }
  }

  lemma LearnedOne(s: State, call: Call, passwords: iset<string>, before: iset<RawKey>)
    requires Inv(s)
    ensures Inv(Step(s, call).0)
    ensures Learned(s, [call], passwords, before) ==
            Computable(Step(s, call).0.heap, passwords, Computable(s.heap, passwords, before) + DrawnByMembers(s, passwords, call))
  {
    hide Inv, Step, Computable, DrawnByMembers;
    StepInv(s, call);
    assert [call][1..] == [];
  }

  lemma NobodyLearns(s: State, call: Call, passwords: iset<string>, i: Id, known: iset<RawKey>)
    requires WellKept(s) && RevokesNow(s, call) && AllOutside(s, call, passwords)
    requires InodeUnder(s, (call.op.user, call.op.file)) == Some(i) && Discreet(s, passwords, known)
    requires Inv(Step(s, call).0) && IsInode(Step(s, call).0.heap, i) && Step(s, call).0.heap[i].key == FileKeys(s.next)
    ensures DrawnByMembers(s, passwords, call) == iset{} && s.next !in known
    ensures !HoldsLiveKey(Step(s, call).0, known + iset{}, i)
    ensures !Reads(Abs(Step(s, call).0), Members(Step(s, call).0, passwords), i)
  {
    hide Inv, Abs, InCustody, Tree, Step, ListedWereSent, FreshFor, FreshOf, Apply, IsMember, HoldsLiveKey;
    var t := Step(s, call).0;
    RevokeStep(s, call);
    NoLiveKey(s, call, passwords, i, known);
    assert known + iset{} == known;
    forall n | n in Members(t, passwords)
      ensures Outsider(Abs(s), call.op, n)
    {
      MemberRegistered(t, passwords, n);
      RevokeAddsNobody(s, call, n);
      MembersStay(s, call, passwords, n);
    }
    OutsidersReachNothing(Abs(s), call.op.user, call.op.file, call.op.recipient, FreshOf(s, call.op), Members(t, passwords));
  }

  lemma MemberRegistered(s: State, passwords: iset<string>, n: string)
    requires Inv(s) && IsMember(s, passwords, n)
    ensures Registered(s, n)
  {
  }

  lemma RevokeAddsNobody(s: State, call: Call, n: string)
    requires Inv(s) && RevokesNow(s, call) && Inv(Step(s, call).0)
    ensures Registered(Step(s, call).0, n) ==> Registered(s, n)
  {
    hide Inv, Abs, Step, FreshOf, FreshFor;
    RevokeStep(s, call);
    UsersOfAbs(s, n);
    UsersOfAbs(Step(s, call).0, n);
  }

  lemma SomebodyReads(s: State, call: Call, passwords: iset<string>, i: Id)
    requires WellKept(s) && RevokesNow(s, call) && !AllOutside(s, call, passwords)
    requires InodeUnder(s, (call.op.user, call.op.file)) == Some(i) && Inv(Step(s, call).0)
    ensures Reads(Abs(Step(s, call).0), Members(Step(s, call).0, passwords), i)
  {
    hide Inv, Abs, InCustody, Tree, Step, ListedWereSent, FreshFor, FreshOf, Apply, IsMember, Reaches, Outsider;
    var n :| IsMember(s, passwords, n) && !Outsider(Abs(s), call.op, n);
    RevokeStep(s, call);
    MemberStays(s, call, passwords, n);
    var x := InsiderReaches(Abs(s), call.op.user, call.op.file, call.op.recipient, FreshOf(s, call.op), n);
    assert n in Members(Step(s, call).0, passwords);
  }
}
