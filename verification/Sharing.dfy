/** The sharing tree of the capability file system, and what revocation does to it. */
module Sharing {
  import opened Basics
  import opened Ids
  import opened CapabilityFs

  /** Name `p` has handed capability `x` to user `c` and still lists it. */
  ghost predicate Shares(a: Fs, p: (string, string), c: string, x: Id) {
    p in a.names && c in a.names[p].shared && a.names[p].shared[c] == x
  }

  ghost predicate Closed(a: Fs) {
    && (forall p :: p in a.names ==> a.names[p].cap in a.caps)
    && (forall x :: x in a.caps ==> a.caps[x].file in a.files)
    && (forall t :: t in a.grants ==> a.grants[t] in a.caps)
  }

  /** A listed capability is on its lister's file. */
  ghost predicate SameFile(a: Fs)
    requires Closed(a)
  {
    forall p, c, x :: Shares(a, p, c, x) ==> x in a.caps && a.caps[x].file == a.caps[a.names[p].cap].file
  }

  /** Each capability is listed at most once in all of the file system. */
  ghost predicate OneParent(a: Fs) {
    forall p, c, q, d, x :: Shares(a, p, c, x) && Shares(a, q, d, x) ==> p == q && c == d
  }

  /** A listed capability is held, or still offered, only to the user it is listed for. */
  ghost predicate ForOneUser(a: Fs) {
    && (forall p, c, q :: q in a.names && Shares(a, p, c, a.names[q].cap) ==> q.0 == c)
    && (forall p, c, t :: t in a.grants && Shares(a, p, c, a.grants[t]) ==> t.2 == c)
  }

  ghost predicate OneNamePerSlot(a: Fs) {
    forall p, q :: p in a.names && q in a.names && SlotOf(p) == SlotOf(q) ==> p == q
  }

  /** Some holder of `x` lists `y`. */
  ghost predicate Edge(a: Fs, x: Id, y: Id) {
    exists p, c :: Shares(a, p, c, y) && a.names[p].cap == x
  }

  ghost predicate IsPath(a: Fs, path: seq<Id>) {
    |path| > 0 && forall k :: 0 < k < |path| ==> Edge(a, path[k - 1], path[k])
  }

  ghost predicate Acyclic(a: Fs) {
    forall path :: IsPath(a, path) && |path| >= 2 ==> path[0] != path[|path| - 1]
  }

  ghost predicate Listings(a: Fs) {
    Closed(a) && SameFile(a) && OneParent(a) && ForOneUser(a) && OneNamePerSlot(a)
  }

  /** Listings form a forest over the capabilities. */
  ghost predicate Tree(a: Fs) {
    Listings(a) && Acyclic(a)
  }

  const NO_FILES := Fs(iset{}, imap[], map[], map[], imap[])

  lemma EmptyTree()
    ensures Tree(NO_FILES)
  {
    assert forall path :: IsPath(NO_FILES, path) && |path| >= 2 ==> Edge(NO_FILES, path[0], path[1]);
  }

  /** No listing appears in the step from `a` to `b`. */
  ghost predicate NoNewShares(a: Fs, b: Fs) {
    forall p, c, x :: Shares(b, p, c, x) ==> Shares(a, p, c, x)
  }

  /** Rebinding `p` to some of its listings, or none. */
  lemma RebindShares(a: Fs, b: Fs, p: (string, string), n: Name)
    requires b.names == PutName(a.names, p, n)
    requires forall c :: c in n.shared ==> Shares(a, p, c, n.shared[c])
    ensures NoNewShares(a, b)
  {
    forall q, c, x | Shares(b, q, c, x)
      ensures Shares(a, q, c, x)
    {
      assert q != p ==> q in a.names && a.names[q] == b.names[q];
    }
  }

  lemma OneParentKept(a: Fs, b: Fs)
    requires OneParent(a) && NoNewShares(a, b)
    ensures OneParent(b)
  {
  }

  /** New edges all leave, or all enter, a capability that nothing else touches. */
  lemma AcyclicKept(a: Fs, b: Fs, z: Id)
    requires Acyclic(a)
    requires forall x, y :: Edge(b, x, y) ==> Edge(a, x, y) || x == z || y == z
    requires (forall y :: !Edge(b, z, y)) || (forall x :: !Edge(b, x, z))
    ensures Acyclic(b)
  {
    forall path | IsPath(b, path) && |path| >= 2
      ensures path[0] != path[|path| - 1]
    {
      if path[0] == path[|path| - 1] {
        assert Edge(b, path[0], path[1]) && Edge(b, path[|path| - 2], path[|path| - 1]);
        forall k | 0 < k < |path|
          ensures Edge(a, path[k - 1], path[k])
        {
          assert Edge(b, path[k - 1], path[k]);
          if 1 < k {
            assert Edge(b, path[k - 2], path[k - 1]);
          }
          if k + 1 < |path| {
            assert Edge(b, path[k + 1 - 1], path[k + 1]);
          }
        }
        assert IsPath(a, path);
      }
    }
  }

  lemma StoreListings(a: Fs, u: string, f: string, content: Bytes, fr: Fresh)
    requires Listings(a) && FreshFor(a, fr) && u in a.users
    ensures Listings(Apply(a, Store(u, f, content), fr).0)
  {
    var b := Apply(a, Store(u, f, content), fr).0;
    RebindShares(a, b, (u, f), Name(fr.cap, map[]));
    OneParentKept(a, b);
    forall p, c, x | Shares(b, p, c, x)
      ensures x in a.caps && x != fr.cap && p != (u, f)
    {
      assert Shares(a, p, c, x);
    }
  }

  lemma AcceptListings(a: Fs, u: string, sender: string, pointer: Id, f: string, fr: Fresh)
    requires Listings(a) && FreshFor(a, fr)
    ensures Listings(Apply(a, Accept(u, sender, pointer, f), fr).0)
  {
    var b := Apply(a, Accept(u, sender, pointer, f), fr).0;
    if b != a {
      RebindShares(a, b, (u, f), Name(a.grants[(pointer, sender, u)], map[]));
      OneParentKept(a, b);
      forall p, c, x | Shares(b, p, c, x)
        ensures Shares(a, p, c, x) && p != (u, f)
      {
      }
    }
  }

  lemma RevokeListings(a: Fs, u: string, f: string, r: string, fr: Fresh)
    requires Listings(a) && FreshFor(a, fr)
    ensures Listings(Apply(a, Revoke(u, f, r), fr).0)
  {
    var b := Apply(a, Revoke(u, f, r), fr).0;
    if b != a {
      var n := a.names[(u, f)];
      RebindShares(a, b, (u, f), Name(fr.cap, n.shared - {r}));
      OneParentKept(a, b);
      forall p, c, x | Shares(b, p, c, x)
        ensures x in a.caps && x != fr.cap
        ensures b.caps[x].file == b.caps[b.names[p].cap].file
      {
        assert Shares(a, p, c, x);
      }
    }
  }

  lemma InviteListings(a: Fs, u: string, f: string, r: string, fr: Fresh)
    requires Listings(a) && FreshFor(a, fr)
    ensures Listings(Apply(a, Invite(u, f, r), fr).0)
  {
    var b := Apply(a, Invite(u, f, r), fr).0;
    if Apply(a, Invite(u, f, r), fr).1 {
      InviteShares(a, u, f, r, fr);
      forall p, c, x | Shares(b, p, c, x)
        ensures x in b.caps && b.caps[x].file == b.caps[b.names[p].cap].file
      {
      }
      forall p, c, q, d, x | Shares(b, p, c, x) && Shares(b, q, d, x)
        ensures p == q && c == d
      {
      }
    } else {
      assert NoNewShares(a, b) && NoNewShares(b, a);
    }
  }

  /** An invitation adds one listing, of the new capability. */
  lemma InviteShares(a: Fs, u: string, f: string, r: string, fr: Fresh)
    requires Listings(a) && FreshFor(a, fr) && Apply(a, Invite(u, f, r), fr).1
    ensures var b := Apply(a, Invite(u, f, r), fr).0;
            forall p, c, x :: Shares(b, p, c, x) ==>
              if x == fr.cap then p == (u, f) && c == r else Shares(a, p, c, x)
  {
    var b := Apply(a, Invite(u, f, r), fr).0;
    forall p, c, x | Shares(b, p, c, x)
      ensures if x == fr.cap then p == (u, f) && c == r else Shares(a, p, c, x)
    {
      if !(p == (u, f) && c == r) {
        assert Shares(a, p, c, x);
      }
    }
  }

  lemma ListingsKept(a: Fs, op: Op, fr: Fresh)
    requires Listings(a) && FreshFor(a, fr)
    ensures Listings(Apply(a, op, fr).0)
  {
    if !op.Init? && op.user in a.users {
      match op
      case Store(u, f, content) => StoreListings(a, u, f, content, fr);
      case Append(u, f, piece) => AppendListings(a, u, f, piece, fr);
      case Invite(u, f, r) => InviteListings(a, u, f, r, fr);
      case Accept(u, sender, pointer, f) => AcceptListings(a, u, sender, pointer, f, fr);
      case Revoke(u, f, r) => RevokeListings(a, u, f, r, fr);
    } else {
      assert NoNewShares(a, Apply(a, op, fr).0);
    }
  }

  /** The only listing that an operation adds is that of the capability it invites with. */
  lemma OldShares(a: Fs, op: Op, fr: Fresh, p: (string, string), c: string, x: Id)
    requires Listings(a) && FreshFor(a, fr) && Shares(Apply(a, op, fr).0, p, c, x)
    ensures Shares(a, p, c, x) || (op.Invite? && x == fr.cap && p == (op.user, op.file) && c == op.recipient)
  {
    hide SameFile, OneParent, ForOneUser, OneNamePerSlot;
  }

  /** All edges of the next forest are old, or touch the one new capability. */
  lemma NewEdges(a: Fs, op: Op, fr: Fresh)
    requires Listings(a) && FreshFor(a, fr)
    ensures var b := Apply(a, op, fr).0;
            && (forall x, y :: Edge(b, x, y) ==> Edge(a, x, y) || x == fr.cap || y == fr.cap)
            && ((forall y :: !Edge(b, fr.cap, y)) || (forall x :: !Edge(b, x, fr.cap)))
  {
    var b := Apply(a, op, fr).0;
    forall x, y | Edge(b, x, y)
      ensures Edge(a, x, y) || x == fr.cap || y == fr.cap
      ensures op.Invite? ==> x != fr.cap
      ensures !op.Invite? ==> y != fr.cap
    {
      var p, c :| Shares(b, p, c, y) && b.names[p].cap == x;
      if y != fr.cap || !op.Invite? {
        assert Shares(a, p, c, y);
      }
    }
  }

  /** Every operation keeps the sharing tree. */
  lemma TreeKept(a: Fs, op: Op, fr: Fresh)
    requires Tree(a) && FreshFor(a, fr)
    ensures Tree(Apply(a, op, fr).0)
  {
    hide Apply, Closed, SameFile, OneParent, ForOneUser, OneNamePerSlot, FreshFor;
    ListingsKept(a, op, fr);
    NewEdges(a, op, fr);
    AcyclicKept(a, Apply(a, op, fr).0, fr.cap);
  }

  lemma AppendListings(a: Fs, u: string, f: string, piece: Option<Bytes>, fr: Fresh)
    requires Listings(a)
    ensures Listings(Apply(a, Append(u, f, piece), fr).0)
  {
    var b := Apply(a, Append(u, f, piece), fr).0;
    assert NoNewShares(a, b) && NoNewShares(b, a);
  }
}
