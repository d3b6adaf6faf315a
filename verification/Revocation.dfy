/** Who keeps, who loses and who never regains a file, on the capability file system. */
module Revocation {
  import opened Basics
  import opened Ids
  import opened CapabilityFs
  import opened Sharing

  /** `u`'s revocation of `r` on name `f` takes effect. */
  ghost predicate Revokes(a: Fs, u: string, f: string, r: string) {
    u in a.users && Live(a, (u, f))
  }

  ghost function After(a: Fs, op: Op, fr: Fresh): Fs {
    Apply(a, op, fr).0
  }

  lemma KeptShares(a: Fs, u: string, f: string, r: string, x: Id)
    requires (u, f) in a.names
    ensures x in KeptCaps(a.names[(u, f)], r) <==> exists c :: c != r && Shares(a, (u, f), c, x)
  {
    var n := a.names[(u, f)];
    if x in KeptCaps(n, r) {
      var c :| c in n.shared && c != r && n.shared[c] == x;
      assert Shares(a, (u, f), c, x);
    }
  }

  /** A name on the file stays live exactly if it is the revoker's, or holds what the
      revoker lists for its user, who is not the one revoked. */
  lemma WhoKeepsAccess(a: Fs, u: string, f: string, r: string, fr: Fresh, q: (string, string))
    requires Tree(a) && FreshFor(a, fr) && Revokes(a, u, f, r)
    requires q in After(a, Revoke(u, f, r), fr).names
    requires FileOf(After(a, Revoke(u, f, r), fr), q) == FileOf(a, (u, f))
    ensures Live(After(a, Revoke(u, f, r), fr), q) <==>
            q == (u, f) ||
            (q.0 != r && q in a.names && Shares(a, (u, f), q.0, a.names[q].cap))
  {
    hide Acyclic;
    var b := After(a, Revoke(u, f, r), fr);
    if q != (u, f) {
      var x := a.names[q].cap;
      assert b.names[q] == a.names[q] && x != fr.cap;
      KeptShares(a, u, f, r, x);
    }
  }

  /** Names on other files do not notice. */
  lemma OtherFilesKeep(a: Fs, u: string, f: string, r: string, fr: Fresh, q: (string, string))
    requires Tree(a) && FreshFor(a, fr) && Revokes(a, u, f, r)
    requires q in a.names && FileOf(a, q) != FileOf(a, (u, f))
    ensures var b := After(a, Revoke(u, f, r), fr);
            q in b.names && b.names[q] == a.names[q] && (Live(b, q) <==> Live(a, q)) && View(b, q) == View(a, q)
  {
    hide Acyclic, SameFile, OneParent, ForOneUser;
    assert SlotOf(q) == SlotOf((u, f)) ==> q == (u, f);
  }

  /** Right after the revocation, no name and no pending invitation of the revoked
      user is live on the file, whoever it came from. */
  lemma RevokedUserLoses(a: Fs, u: string, f: string, r: string, fr: Fresh)
    requires Tree(a) && FreshFor(a, fr) && Revokes(a, u, f, r) && r != u
    ensures var b := After(a, Revoke(u, f, r), fr);
            && (forall g :: FileOf(b, (r, g)) == FileOf(a, (u, f)) ==> !Live(b, (r, g)))
            && (forall t :: t in b.grants && t.2 == r && b.caps[b.grants[t]].file == FileOf(a, (u, f)).value ==>
                  !b.caps[b.grants[t]].live)
  {
    hide Acyclic;
    var b := After(a, Revoke(u, f, r), fr);
    TreeKept(a, Revoke(u, f, r), fr);
    forall g | FileOf(b, (r, g)) == FileOf(a, (u, f))
      ensures !Live(b, (r, g))
    {
      WhoKeepsAccess(a, u, f, r, fr, (r, g));
    }
    forall t | t in b.grants && t.2 == r && b.caps[b.grants[t]].file == FileOf(a, (u, f)).value
      ensures !b.caps[b.grants[t]].live
    {
      KeptShares(a, u, f, r, b.grants[t]);
    }
  }

  /** A dead capability comes back in exactly one way: some live name that lists it
      revokes somebody else. */
  lemma RevivedExactly(a: Fs, op: Op, fr: Fresh, x: Id)
    requires Tree(a) && FreshFor(a, fr) && x in a.caps && !a.caps[x].live
    ensures var b := After(a, op, fr);
            x in b.caps && (b.caps[x].live <==>
              op.Revoke? && Revokes(a, op.user, op.file, op.recipient) &&
              exists c :: c != op.recipient && Shares(a, (op.user, op.file), c, x))
  {
    hide Acyclic, OneParent, ForOneUser, OneNamePerSlot;
    var b := After(a, op, fr);
    if op.Revoke? && Revokes(a, op.user, op.file, op.recipient) {
      KeptShares(a, op.user, op.file, op.recipient, x);
    }
  }

  // ---- Revocation is permanent for everything beneath

  /** `x` is `root`, or is listed by a holder of something beneath `root`. */
  ghost predicate Beneath(a: Fs, root: Id, x: Id) {
    exists path :: IsPath(a, path) && path[0] == root && path[|path| - 1] == x
  }

  ghost function BeneathSet(a: Fs, root: Id): iset<Id> {
    iset x: Id | Beneath(a, root, x)
  }

  lemma BeneathSelf(a: Fs, root: Id)
    ensures Beneath(a, root, root)
  {
    assert IsPath(a, [root]);
  }

  lemma BeneathStep(a: Fs, root: Id, x: Id, y: Id)
    requires Beneath(a, root, x) && Edge(a, x, y)
    ensures Beneath(a, root, y)
  {
    var path :| IsPath(a, path) && path[0] == root && path[|path| - 1] == x;
    assert IsPath(a, path + [y]);
  }

  /** All of `dead` is dead, on one file, and cut off: a listing touches it only
      from inside and only towards inside. */
  ghost predicate CutOff(a: Fs, dead: iset<Id>, file: Id) {
    && (forall x :: x in dead ==> x in a.caps && a.caps[x].file == file && !a.caps[x].live)
    && (forall p, c, x :: Shares(a, p, c, x) ==> (a.names[p].cap in dead <==> x in dead))
  }

  /** What is beneath a member of a cut-off set is in it. */
  lemma {:induction false} CutOffClosed(a: Fs, dead: iset<Id>, file: Id, path: seq<Id>)
    requires CutOff(a, dead, file) && IsPath(a, path) && path[0] in dead
    ensures path[|path| - 1] in dead
    decreases |path|
  {
    if |path| > 1 {
      var front := path[..|path| - 1];
      forall k | 0 < k < |front|
        ensures Edge(a, front[k - 1], front[k])
      {
        assert Edge(a, path[k - 1], path[k]);
      }
      CutOffClosed(a, dead, file, front);
      assert Edge(a, path[|path| - 2], path[|path| - 1]);
    }
  }

  /** The set after one more operation: invitations made from inside stay inside. */
  ghost function Grown(a: Fs, dead: iset<Id>, op: Op, fr: Fresh): iset<Id> {
    if op.Invite? && Apply(a, op, fr).1 && a.names[(op.user, op.file)].cap in dead
    then dead + iset{fr.cap} else dead
  }

  lemma CutOffKept(a: Fs, dead: iset<Id>, file: Id, op: Op, fr: Fresh)
    requires Tree(a) && FreshFor(a, fr) && CutOff(a, dead, file)
    ensures CutOff(After(a, op, fr), Grown(a, dead, op, fr), file)
  {
    hide Acyclic, OneParent, ForOneUser, OneNamePerSlot;
    var b := After(a, op, fr);
    var dead' := Grown(a, dead, op, fr);
    forall x | x in dead'
      ensures x in b.caps && b.caps[x].file == file && !b.caps[x].live
    {
      if x in dead {
        StaysDead(a, dead, file, op, fr, x);
      }
    }
    forall p, c, x | Shares(b, p, c, x)
      ensures b.names[p].cap in dead' <==> x in dead'
    {
      ListingStays(a, dead, file, op, fr, p, c, x);
    }
  }

  lemma StaysDead(a: Fs, dead: iset<Id>, file: Id, op: Op, fr: Fresh, x: Id)
    requires Tree(a) && FreshFor(a, fr) && CutOff(a, dead, file) && x in dead
    ensures var b := After(a, op, fr); x in b.caps && b.caps[x].file == file && !b.caps[x].live
  {
    RevivedExactly(a, op, fr, x);
    hide Acyclic, OneParent, ForOneUser, OneNamePerSlot, SameFile;
  }

  lemma ListingStays(a: Fs, dead: iset<Id>, file: Id, op: Op, fr: Fresh, p: (string, string), c: string, x: Id)
    requires Listings(a) && FreshFor(a, fr) && CutOff(a, dead, file) && Shares(After(a, op, fr), p, c, x)
    ensures After(a, op, fr).names[p].cap in Grown(a, dead, op, fr) <==> x in Grown(a, dead, op, fr)
  {
    hide OneParent, ForOneUser, OneNamePerSlot;
    if op.Invite? && Apply(a, op, fr).1 {
      InviteShares(a, op.user, op.file, op.recipient, fr);
      var cap := After(a, op, fr).names[p].cap;
      if x == fr.cap {
        assert cap == a.names[(op.user, op.file)].cap;
      } else {
        assert Shares(a, p, c, x) && cap == a.names[p].cap;
      }
    } else {
      assert Shares(a, p, c, x);
      assert After(a, op, fr).names[p].cap == a.names[p].cap || After(a, op, fr).names[p].cap == fr.cap;
    }
  }

  /** Everything that was beneath the removed capability is cut off at once. */
  lemma RevocationCutsOff(a: Fs, u: string, f: string, r: string, fr: Fresh)
    requires Tree(a) && FreshFor(a, fr) && Revokes(a, u, f, r) && r in a.names[(u, f)].shared
    ensures var root := a.names[(u, f)].shared[r];
            CutOff(After(a, Revoke(u, f, r), fr), BeneathSet(a, root), FileOf(a, (u, f)).value)
  {
    var b := After(a, Revoke(u, f, r), fr);
    var root := a.names[(u, f)].shared[r];
    var file := FileOf(a, (u, f)).value;
    var dead := BeneathSet(a, root);
    assert Shares(a, (u, f), r, root);
    forall x | x in dead
      ensures x in b.caps && b.caps[x].file == file && !b.caps[x].live
    {
      BeneathFacts(a, u, f, r, root, x);
      NotKept(a, u, f, r, root, x);
      KeptShares(a, u, f, r, x);
    }
    forall p, c, x | Shares(b, p, c, x)
      ensures b.names[p].cap in dead <==> x in dead
    {
      CutListing(a, u, f, r, fr, p, c, x);
    }
  }

  /** Beneath the removed capability: same file, and never the revoker's own. */
  lemma BeneathFacts(a: Fs, u: string, f: string, r: string, root: Id, x: Id)
    requires Tree(a) && Live(a, (u, f)) && Shares(a, (u, f), r, root) && Beneath(a, root, x)
    ensures x in a.caps && a.caps[x].file == a.caps[a.names[(u, f)].cap].file
    ensures x != a.names[(u, f)].cap
  {
    var path :| IsPath(a, path) && path[0] == root && path[|path| - 1] == x;
    PathSameFile(a, path);
    var own := a.names[(u, f)].cap;
    var cycle := [own] + path;
    assert Edge(a, own, root);
    forall k | 0 < k < |cycle|
      ensures Edge(a, cycle[k - 1], cycle[k])
    {
      if k > 1 {
        assert Edge(a, path[k - 1 - 1], path[k - 1]);
      }
    }
    assert IsPath(a, cycle);
  }

  lemma {:induction false} PathSameFile(a: Fs, path: seq<Id>)
    requires Listings(a) && IsPath(a, path) && path[0] in a.caps
    ensures path[|path| - 1] in a.caps && a.caps[path[|path| - 1]].file == a.caps[path[0]].file
    decreases |path|
  {
    hide OneParent, ForOneUser, OneNamePerSlot;
    if |path| > 1 {
      var front := path[..|path| - 1];
      forall k | 0 < k < |front|
        ensures Edge(a, front[k - 1], front[k])
      {
        assert Edge(a, path[k - 1], path[k]);
      }
      PathSameFile(a, front);
      assert Edge(a, path[|path| - 2], path[|path| - 1]);
    }
  }

  /** The last step of a path of two or more. */
  lemma LastEdge(a: Fs, root: Id, x: Id)
    requires Beneath(a, root, x) && x != root
    ensures exists y :: Beneath(a, root, y) && Edge(a, y, x)
  {
    var path :| IsPath(a, path) && path[0] == root && path[|path| - 1] == x;
    var front := path[..|path| - 1];
    forall k | 0 < k < |front|
      ensures Edge(a, front[k - 1], front[k])
    {
      assert Edge(a, path[k - 1], path[k]);
    }
    assert IsPath(a, front) && front[|front| - 1] == path[|path| - 2];
    assert Beneath(a, root, path[|path| - 2]);
    assert Edge(a, path[|path| - 2], path[|path| - 1]);
  }

  /** What the revoker keeps listing is not beneath what it removes. */
  lemma NotKept(a: Fs, u: string, f: string, r: string, root: Id, x: Id)
    requires Tree(a) && Live(a, (u, f)) && Shares(a, (u, f), r, root) && Beneath(a, root, x)
    ensures forall c :: Shares(a, (u, f), c, x) ==> c == r
  {
    forall c | Shares(a, (u, f), c, x)
      ensures c == r
    {
      if x != root {
        LastEdge(a, root, x);
        var y :| Beneath(a, root, y) && Edge(a, y, x);
        var p, d :| Shares(a, p, d, x) && a.names[p].cap == y;
        assert p == (u, f);
        BeneathFacts(a, u, f, r, root, y);
      }
    }
  }

  lemma CutListing(a: Fs, u: string, f: string, r: string, fr: Fresh, p: (string, string), c: string, x: Id)
    requires Tree(a) && FreshFor(a, fr) && Revokes(a, u, f, r) && r in a.names[(u, f)].shared
    requires Shares(After(a, Revoke(u, f, r), fr), p, c, x)
    ensures var root := a.names[(u, f)].shared[r];
            Beneath(a, root, After(a, Revoke(u, f, r), fr).names[p].cap) <==> Beneath(a, root, x)
  {
    hide Acyclic, SameFile, ForOneUser, OneNamePerSlot;
    var b := After(a, Revoke(u, f, r), fr);
    var root := a.names[(u, f)].shared[r];
    assert Shares(a, (u, f), r, root) && Shares(a, p, c, x);
    if p == (u, f) {
      if Beneath(a, root, x) {
        NotKept(a, u, f, r, root, x);
      }
      if Beneath(a, root, fr.cap) {
        BeneathFacts(a, u, f, r, root, fr.cap);
      }
    } else {
      var y := a.names[p].cap;
      assert Edge(a, y, x);
      if Beneath(a, root, y) {
        BeneathStep(a, root, y, x);
      }
      if Beneath(a, root, x) {
        assert x != root;
        LastEdge(a, root, x);
        var z :| Beneath(a, root, z) && Edge(a, z, x);
        var q, d :| Shares(a, q, d, x) && a.names[q].cap == z;
        assert q == p;
      }
    }
  }

  // ---- Invitations that wait

  /** `c` has not yet accepted `u`'s latest invitation `t` for the file `(u, f)`, and
      accepting it would give a live name. */
  ghost predicate Pending(a: Fs, u: string, f: string, c: string, t: (Id, string, string)) {
    && t in a.grants && t.1 == u && t.2 == c
    && c in a.users
    && Shares(a, (u, f), c, a.grants[t])
    && Live(a, (u, f))
    && a.grants[t] in a.caps && a.caps[a.grants[t]].live
  }

  /** What can spoil a pending invitation: the sharer rebinds the name, invites the
      same recipient again or revokes it, or somebody else re-keys the file. */
  ghost predicate Spoils(a: Fs, u: string, f: string, c: string, op: Op) {
    match op
    case Store(w, g, _) => SlotOf((w, g)) == SlotOf((u, f))
    case Accept(w, _, _, g) => SlotOf((w, g)) == SlotOf((u, f))
    case Invite(w, g, r) => (w, g) == (u, f) && r == c
    case Revoke(w, g, r) => if (w, g) == (u, f) then r == c else FileOf(a, (w, g)) == FileOf(a, (u, f))
    case _ => false
  }

  lemma PendingMade(a: Fs, u: string, f: string, c: string, fr: Fresh)
    requires Tree(a) && FreshFor(a, fr) && Live(a, (u, f)) && u in a.users && c in a.users
    ensures Pending(After(a, Invite(u, f, c), fr), u, f, c, (fr.grant, u, c))
  {
    hide Acyclic, OneParent, ForOneUser, OneNamePerSlot, SameFile;
  }

  lemma PendingKept(a: Fs, u: string, f: string, c: string, t: (Id, string, string), op: Op, fr: Fresh)
    requires Tree(a) && FreshFor(a, fr) && Pending(a, u, f, c, t) && !Spoils(a, u, f, c, op)
    ensures Pending(After(a, op, fr), u, f, c, t)
  {
    hide Acyclic, OneParent, ForOneUser, SameFile;
    match op
    case Revoke(w, g, r) => PendingThroughRevoke(a, u, f, c, t, w, g, r, fr);
    case Invite(w, g, r) => PendingThroughInvite(a, u, f, c, t, w, g, r, fr);
    case _ =>
  }

  lemma PendingThroughInvite(a: Fs, u: string, f: string, c: string, t: (Id, string, string),
      w: string, g: string, r: string, fr: Fresh)
    requires Tree(a) && FreshFor(a, fr) && Pending(a, u, f, c, t) && !Spoils(a, u, f, c, Invite(w, g, r))
    ensures Pending(After(a, Invite(w, g, r), fr), u, f, c, t)
  {
    hide Acyclic, OneParent, ForOneUser, SameFile;
    if (w, g) in a.names {
      assert SlotOf((w, g)) == SlotOf((u, f)) ==> (w, g) == (u, f);
    }
  }

  lemma PendingThroughRevoke(a: Fs, u: string, f: string, c: string, t: (Id, string, string),
      w: string, g: string, r: string, fr: Fresh)
    requires Tree(a) && FreshFor(a, fr) && Pending(a, u, f, c, t) && !Spoils(a, u, f, c, Revoke(w, g, r))
    ensures Pending(After(a, Revoke(w, g, r), fr), u, f, c, t)
  {
    hide Acyclic, OneParent, ForOneUser;
    if Revokes(a, w, g, r) {
      assert SlotOf((w, g)) == SlotOf((u, f)) ==> (w, g) == (u, f);
      KeptShares(a, w, g, r, a.grants[t]);
    }
  }

  /** The sharer's own revocation of somebody else revives a pending invitation even if
      an earlier re-keying by another user had killed it. */
  lemma PendingRevived(a: Fs, u: string, f: string, r: string, c: string, t: (Id, string, string), fr: Fresh)
    requires Tree(a) && FreshFor(a, fr) && Revokes(a, u, f, r) && r != c
    requires t in a.grants && t.1 == u && t.2 == c && c in a.users && Shares(a, (u, f), c, a.grants[t])
    ensures Pending(After(a, Revoke(u, f, r), fr), u, f, c, t)
  {
    hide Acyclic, OneParent, ForOneUser, OneNamePerSlot;
    assert a.grants[t] in KeptCaps(a.names[(u, f)], r);
  }

  /** Accepting a pending invitation shows the recipient what the sharer sees. */
  lemma PendingAccepted(a: Fs, u: string, f: string, c: string, t: (Id, string, string), g: string, fr: Fresh)
    requires Tree(a) && Pending(a, u, f, c, t)
    ensures var (b, ok) := Apply(a, Accept(c, u, t.0, g), fr);
            ok && View(a, (u, f)).Some? && View(b, (c, g)) == View(a, (u, f))
  {
    hide Acyclic, OneParent, ForOneUser, OneNamePerSlot;
    assert t == (t.0, u, c);
  }

  // ---- What the other operations show

  function Target(op: Op): (string, string) {
    if op.Init? then (op.user, "") else (op.user, op.file)
  }

  /** What an invitation offers: the file, unless it was re-keyed past the mailbox. */
  ghost function Offered(a: Fs, t: (Id, string, string)): Option<Bytes> {
    if t in a.grants && a.grants[t] in a.caps && a.caps[a.grants[t]].live && a.caps[a.grants[t]].file in a.files
    then Some(a.files[a.caps[a.grants[t]].file].content) else None
  }

  /** What `q` shows after a successful `op` other than a revocation, given what it
      showed before and whether it was on the target's file. */
  function Expected(op: Op, q: (string, string), before: Option<Bytes>, onFile: bool, offered: Option<Bytes>): Option<Bytes>
  {
    var hit := SlotOf(q) == SlotOf(Target(op));
    match op
    case Store(_, _, content) => if q == Target(op) then Some(content) else if hit then None else before
    case Accept(_, _, _, _) => if q == Target(op) then offered else if hit then None else before
    case Append(_, _, piece) =>
      if onFile && before.Some? && piece.Some? then Some(before.value + piece.value) else before
    case _ => before
  }

  ghost function OfferedBy(a: Fs, op: Op): Option<Bytes> {
    if op.Accept? then Offered(a, (op.pointer, op.sender, op.user)) else None
  }

  lemma ViewAfter(a: Fs, op: Op, fr: Fresh, q: (string, string))
    requires Tree(a) && FreshFor(a, fr) && !op.Revoke?
    ensures var (b, ok) := Apply(a, op, fr);
            View(b, q) == if !ok then View(a, q)
                          else Expected(op, q, View(a, q), FileOf(a, q) == FileOf(a, Target(op)), OfferedBy(a, op))
  {
    hide Acyclic, OneParent, ForOneUser, SameFile;
    if op.Invite? {
      assert q in a.names && (op.user, op.file) in a.names && SlotOf(q) == SlotOf((op.user, op.file)) ==>
             q == (op.user, op.file);
    }
  }
}
