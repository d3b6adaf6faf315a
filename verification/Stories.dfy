/** Promises that the code does not keep, each with a run that users can make. */
module Stories {
  import opened Basics
  import opened Ids
  import opened Services
  import opened Invariant
  import opened CapabilityFs
  import opened Abstraction
  import opened Simulation
  import opened Sharing
  import opened Revocation
  import opened Runs
  import opened Theorems

  ghost function Next(s: State, op: Op): State
    requires Inv(s)
  {
    Step(s, Call(op, map[])).0
  }

  lemma {:induction false} RunSnoc(s: State, calls: seq<Call>, call: Call)
    requires Inv(s)
    ensures Run(s, calls + [call]) == Step(Run(s, calls), call).0
    decreases |calls|
  {
    hide Step, Inv;
    StepInv(s, (calls + [call])[0]);
    if calls != [] {
      RunSnoc(Step(s, calls[0]).0, calls[1..], call);
      assert (calls + [call])[1..] == calls[1..] + [call];
    }
  }

  lemma NextReachable(s: State, op: Op)
    requires Reachable(s) && Sound(s)
    ensures Inv(Next(s, op)) && Reachable(Next(s, op)) && Sound(Next(s, op))
    ensures FreshFor(Abs(s), FreshOf(s, op))
    ensures (Abs(Next(s, op)), Step(s, Call(op, map[])).1) == Apply(Abs(s), op, FreshOf(s, op))
  {
    hide Step, Inv, Abs, Tree, Apply, FreshFor;
    EmptyInv();
    var calls :| s == Run(EMPTY, calls);
    RunSnoc(EMPTY, calls, Call(op, map[]));
    StepTree(s, Call(op, map[]));
    StepSimulates(s, Call(op, map[]));
    FreshIsFresh(s, op);
  }

  /** `o` shares with `v` and with `w`; `v` also shares with `w`, who accepts that. */
  ghost predicate Cast(a: Fs, o: string, v: string, w: string, f: string) {
    && o != v && o != w && v != w
    && o in a.users && v in a.users && w in a.users
    && Live(a, (o, f)) && Live(a, (v, f)) && Live(a, (w, f))
    && FileOf(a, (o, f)) == FileOf(a, (v, f)) == FileOf(a, (w, f))
    && Shares(a, (o, f), v, a.names[(v, f)].cap)
    && w in a.names[(o, f)].shared
    && Shares(a, (v, f), w, a.names[(w, f)].cap)
  }

  /** From any such state: `o` revokes `r`. Whoever `r` is, other than `v`, user `w` loses
      the file, also when `w` was not revoked at all. Then `v`, who kept the file,
      revokes `z`. Whoever `z` is, other than `w`, user `w` has the file back, also when
      `w` is the one that `o` revoked, and `o` itself has lost it. */
  lemma KeptShareeDecides(s: State, o: string, v: string, w: string, f: string, r: string, z: string)
    requires Sound(s) && Reachable(s) && Cast(Abs(s), o, v, w, f) && r != v && z != w
    ensures Inv(Next(s, Revoke(o, f, r)))
    ensures var t := Next(s, Revoke(o, f, r));
            && Shown(t, (o, f)) == Shown(t, (v, f)) == Shown(s, (o, f)) && Shown(s, (w, f)).Some?
            && Shown(t, (w, f)) == None
            && Inv(Next(t, Revoke(v, f, z)))
            && var e := Next(t, Revoke(v, f, z));
            && Shown(e, (w, f)) == Shown(e, (v, f)) == Shown(s, (o, f))
            && Shown(e, (o, f)) == None
  {
    hide Step, Inv, Abs, Tree, Apply, FreshFor, View, FreshOf, Shown;
    var a := Abs(s);
    var first, second := Revoke(o, f, r), Revoke(v, f, z);
    NextReachable(s, first);
    var t := Next(s, first);
    NextReachable(t, second);
    var e := Next(t, second);
    KeptShareeFs(a, o, v, w, f, r, z, FreshOf(s, first), FreshOf(t, second));
    ShownIs(s, (o, f));
    ShownIs(s, (w, f));
    ShownIs(t, (o, f));
    ShownIs(t, (v, f));
    ShownIs(t, (w, f));
    ShownIs(e, (o, f));
    ShownIs(e, (v, f));
    ShownIs(e, (w, f));
  }

  lemma KeptShareeFs(a: Fs, o: string, v: string, w: string, f: string, r: string, z: string, fr: Fresh, fr': Fresh)
    requires Tree(a) && Cast(a, o, v, w, f) && r != v && z != w
    requires FreshFor(a, fr) && FreshFor(After(a, Revoke(o, f, r), fr), fr')
    ensures var b := After(a, Revoke(o, f, r), fr);
            var e := After(b, Revoke(v, f, z), fr');
            && View(a, (o, f)).Some? && View(a, (w, f)).Some?
            && View(b, (o, f)) == View(b, (v, f)) == View(a, (o, f)) && View(b, (w, f)) == None
            && View(e, (w, f)) == View(e, (v, f)) == View(a, (o, f)) && View(e, (o, f)) == None
  {
    hide Acyclic, ForOneUser, SameFile, Apply, Live, FreshFor;
    var b := After(a, Revoke(o, f, r), fr);
    LiveView(a, (w, f));
    RevokeFsViews(a, o, f, r, fr, (o, f));
    RevokeFsViews(a, o, f, r, fr, (v, f));
    RevokeFsViews(a, o, f, r, fr, (w, f));
    TreeKept(a, Revoke(o, f, r), fr);
    CastAfter(a, o, v, w, f, r, fr);
    RevokeFsViews(b, v, f, z, fr', (o, f));
    RevokeFsViews(b, v, f, z, fr', (v, f));
    RevokeFsViews(b, v, f, z, fr', (w, f));
  }

  lemma LiveView(a: Fs, q: (string, string))
    requires Tree(a) && Live(a, q)
    ensures View(a, q).Some?
  {
    hide Acyclic, OneParent, ForOneUser, SameFile;
  }

  /** Names and listings after the first revocation. */
  lemma CastAfter(a: Fs, o: string, v: string, w: string, f: string, r: string, fr: Fresh)
    requires Tree(a) && Cast(a, o, v, w, f) && r != v && FreshFor(a, fr)
    ensures var b := After(a, Revoke(o, f, r), fr);
            && Revokes(b, v, f, "")
            && FileOf(b, (o, f)) == FileOf(b, (v, f)) == FileOf(b, (w, f))
            && (w, f) in b.names && Shares(b, (v, f), w, b.names[(w, f)].cap)
            && (o, f) in b.names && !Shares(b, (v, f), o, b.names[(o, f)].cap)
  {
    hide Acyclic, ForOneUser, OneParent;
    var b := After(a, Revoke(o, f, r), fr);
    assert SlotOf((v, f)) != SlotOf((o, f)) && SlotOf((w, f)) != SlotOf((o, f));
    WhoKeepsAccess(a, o, f, r, fr, (v, f));
    assert Shares(b, (v, f), o, fr.cap) ==> Shares(a, (v, f), o, fr.cap);
  }

  // ---- The cast assembles

  /** Three fresh users. */
  lemma Registering(o: string, v: string, w: string) returns (s: State)
    requires o != v && o != w && v != w
    ensures Reachable(s) && Sound(s)
    ensures o in Abs(s).users && v in Abs(s).users && w in Abs(s).users
  {
    hide Step, Inv, Abs, Tree;
    EmptyReachable();
    var s1 := Next(EMPTY, Init(o, ""));
    NextReachable(EMPTY, Init(o, ""));
    var s2 := Next(s1, Init(v, ""));
    NextReachable(s1, Init(v, ""));
    s := Next(s2, Init(w, ""));
    NextReachable(s2, Init(w, ""));
  }

  lemma EmptyReachable()
    ensures Reachable(EMPTY) && Sound(EMPTY)
  {
    EmptyInv();
    assert EMPTY == Run(EMPTY, []);
    ReachableIsSound(EMPTY);
  }

  /** `p` holds `cap` alone, live, on `file`, and lists `shared`. */
  ghost predicate Has(a: Fs, p: (string, string), cap: Id, file: Id, shared: map<string, Id>) {
    p in a.names && a.names[p] == Name(cap, shared) && cap in a.caps && a.caps[cap] == Cap(file, true)
  }

  lemma InviteHas(a: Fs, u: string, f: string, r: string, fr: Fresh, cap: Id, file: Id, shared: map<string, Id>)
    requires Tree(a) && FreshFor(a, fr) && u in a.users && r in a.users && Has(a, (u, f), cap, file, shared)
    ensures var (b, ok) := Apply(a, Invite(u, f, r), fr);
            && ok && b.users == a.users && b.grants == a.grants[(fr.grant, u, r) := fr.cap]
            && fr.cap in b.caps && b.caps[fr.cap] == Cap(file, true)
            && Has(b, (u, f), cap, file, shared[r := fr.cap])
    ensures forall q, c, sh :: SlotOf(q) != SlotOf((u, f)) && Has(a, q, c, file, sh) ==>
              Has(After(a, Invite(u, f, r), fr), q, c, file, sh)
  {
    hide Acyclic, OneParent, ForOneUser, SameFile;
  }

  lemma AcceptHas(a: Fs, u: string, sender: string, pointer: Id, f: string, fr: Fresh, cap: Id, file: Id)
    requires Tree(a) && FreshFor(a, fr) && u in a.users && (pointer, sender, u) in a.grants
    requires a.grants[(pointer, sender, u)] == cap && cap in a.caps && a.caps[cap] == Cap(file, true)
    ensures var (b, ok) := Apply(a, Accept(u, sender, pointer, f), fr);
            && ok && b.users == a.users && b.grants == a.grants && b.caps == a.caps
            && Has(b, (u, f), cap, file, map[])
    ensures forall q, c, sh :: SlotOf(q) != SlotOf((u, f)) && Has(a, q, c, file, sh) ==>
              Has(After(a, Accept(u, sender, pointer, f), fr), q, c, file, sh)
  {
    hide Acyclic, OneParent, ForOneUser, SameFile;
  }

  /** Any three users can come to the state that `KeptShareeDecides` starts from. */
  lemma CastAssembles(o: string, v: string, w: string, f: string, content: Bytes) returns (s: State)
    requires o != v && o != w && v != w
    ensures Reachable(s) && Sound(s) && Cast(Abs(s), o, v, w, f)
  {
    hide Step, Inv, Abs, Tree, Apply, FreshFor, Has;
    SameFileSlots(o, v, f);
    SameFileSlots(o, w, f);
    SameFileSlots(v, w, f);
    var s0 := Registering(o, v, w);
    var store := Store(o, f, content);
    NextReachable(s0, store);
    var s1 := Next(s0, store);
    var (m, i) := (FreshOf(s0, store).cap, FreshOf(s0, store).file);
    StoreHas(Abs(s0), o, f, content, FreshOf(s0, store));

    NextReachable(s1, Invite(o, f, w));
    var s2 := Next(s1, Invite(o, f, w));
    var x := FreshOf(s1, Invite(o, f, w)).cap;
    InviteHas(Abs(s1), o, f, w, FreshOf(s1, Invite(o, f, w)), m, i, map[]);

    NextReachable(s2, Invite(o, f, v));
    var s3 := Next(s2, Invite(o, f, v));
    var fr3 := FreshOf(s2, Invite(o, f, v));
    InviteHas(Abs(s2), o, f, v, fr3, m, i, map[w := x]);

    NextReachable(s3, Accept(v, o, fr3.grant, f));
    var s4 := Next(s3, Accept(v, o, fr3.grant, f));
    AcceptHas(Abs(s3), v, o, fr3.grant, f, FreshOf(s3, Accept(v, o, fr3.grant, f)), fr3.cap, i);

    NextReachable(s4, Invite(v, f, w));
    var s5 := Next(s4, Invite(v, f, w));
    var fr5 := FreshOf(s4, Invite(v, f, w));
    InviteHas(Abs(s4), v, f, w, fr5, fr3.cap, i, map[]);

    NextReachable(s5, Accept(w, v, fr5.grant, f));
    s := Next(s5, Accept(w, v, fr5.grant, f));
    AcceptHas(Abs(s5), w, v, fr5.grant, f, FreshOf(s5, Accept(w, v, fr5.grant, f)), fr5.cap, i);
    HasCast(Abs(s), o, v, w, f, i, m, fr3.cap, fr5.cap, x);
  }

  lemma StoreHas(a: Fs, u: string, f: string, content: Bytes, fr: Fresh)
    requires u in a.users
    ensures var (b, ok) := Apply(a, Store(u, f, content), fr);
            ok && b.users == a.users && Has(b, (u, f), fr.cap, fr.file, map[])
  {
  }

  lemma HasCast(a: Fs, o: string, v: string, w: string, f: string, i: Id, m: Id, y: Id, z: Id, x: Id)
    requires o in a.users && v in a.users && w in a.users && o != v && o != w && v != w
    requires Has(a, (o, f), m, i, map[w := x][v := y]) && Has(a, (v, f), y, i, map[w := z]) && Has(a, (w, f), z, i, map[])
    ensures Cast(a, o, v, w, f)
  {
  }

  // ---- Names that collide

  /** `StoreFile` by one user takes a colliding name of another away. */
  lemma CollisionTakesName(s: State, call: Call, q: (string, string))
    requires Sound(s) && call.op.Store? && Registered(s, call.op.user)
    requires q != (call.op.user, call.op.file) && SlotOf(q) == SlotOf((call.op.user, call.op.file))
    ensures Inv(Step(s, call).0) && Shown(Step(s, call).0, q) == None
  {
    hide Inv, Abs, Tree, Shown;
    OtherViews(s, call, q);
  }

  /** Such names exist: user `a` stores a file whose name has a NUL, then user `a<NUL>b`
      stores one of its own, and the first is gone. */
  lemma NulTakesName(content: Bytes, other: Bytes) returns (s: State)
    ensures Reachable(s) && Sound(s)
    ensures Shown(s, ("a", "b\0c")) == Some(content)
    ensures Inv(Next(s, Store("a\0b", "c", other))) && Shown(Next(s, Store("a\0b", "c", other)), ("a", "b\0c")) == None
  {
    hide Step, Inv, Abs, Tree, Shown;
    var s0 := Registering("a", "a\0b", "");
    var store := Store("a", "b\0c", content);
    NextReachable(s0, store);
    OtherViews(s0, Call(store, map[]), ("a", "b\0c"));
    s := Next(s0, store);
    NextReachable(s, Store("a\0b", "c", other));
    AccessIdNotInjective();
    UsersOfAbs(s, "a\0b");
    CollisionTakesName(s, Call(Store("a\0b", "c", other), map[]), ("a", "b\0c"));
  }
}
