/** Datastore identifiers (utils.go `userID`, `accessID`; `uuid.New`).
    SHA-512 is taken to be collision free, so a digest is its preimage. */
module Ids {
  datatype Id = Digest(preimage: string) | Random(serial: nat)

  const USER_TAG := "sharelock/user-id/"
  const ACCESS_TAG := "sharelock/access/"

  function UserId(username: string): Id {
    Digest(USER_TAG + username)
  }

  /** The user name and the file name, separated by one NUL. */
  function Path(username: string, filename: string): string {
    username + "\0" + filename
  }

  function AccessId(username: string, filename: string): Id {
    Digest(ACCESS_TAG + Path(username, filename))
  }

  predicate IsUserSlot(id: Id) {
    id.Digest? && USER_TAG <= id.preimage
  }

  predicate IsAccessSlot(id: Id) {
    id.Digest? && ACCESS_TAG <= id.preimage
  }

  predicate NulFree(name: string) {
    forall i :: 0 <= i < |name| ==> name[i] != '\0'
  }

  /** Character 10 tells the two kinds of slot apart. */
  lemma SlotKindsDisjoint(id: Id)
    ensures !(IsUserSlot(id) && IsAccessSlot(id))
  {
    if IsUserSlot(id) {
      assert id.preimage[10] == USER_TAG[10] == 'u';
    }
    if IsAccessSlot(id) {
      assert id.preimage[10] == ACCESS_TAG[10];
    }
  }

  /** What is hashed for an id. */
  lemma Preimages(username: string, filename: string)
    ensures UserId(username) == Digest("sharelock/user-id/" + username)
    ensures AccessId(username, filename) == Digest("sharelock/access/" + username + "\0" + filename)
  {
    assert ACCESS_TAG + Path(username, filename) == ACCESS_TAG + username + "\0" + filename;
  }

  lemma PrefixInjective(tag: string, a: string, b: string)
    ensures tag + a == tag + b <==> a == b
  {
    assert (tag + a)[|tag|..] == a && (tag + b)[|tag|..] == b;
  }

  lemma UserIdInjective(a: string, b: string)
    ensures UserId(a) == UserId(b) <==> a == b
  {
    PrefixInjective(USER_TAG, a, b);
  }

  /** One user's slots differ for different file names, whatever characters occur. */
  lemma SameUserSlots(username: string, f: string, g: string)
    ensures AccessId(username, f) == AccessId(username, g) <==> f == g
  {
    PrefixInjective(ACCESS_TAG, Path(username, f), Path(username, g));
    PrefixInjective(username + "\0", f, g);
  }

  /** Different users' slots for one file name differ, whatever characters occur. */
  lemma SameFileSlots(u1: string, u2: string, filename: string)
    ensures AccessId(u1, filename) == AccessId(u2, filename) <==> u1 == u2
  {
    PrefixInjective(ACCESS_TAG, Path(u1, filename), Path(u2, filename));
    if Path(u1, filename) == Path(u2, filename) {
      assert |u1| == |u2|;
      SplitSame(u1, filename, u2, filename);
    }
  }

  /** The name `(u2, f2)` is `(u1, f1)` with the separator read one NUL later. */
  ghost predicate ShiftedNul(u1: string, f1: string, u2: string, f2: string) {
    exists x: string :: u2 == Path(u1, x) && f1 == Path(x, f2)
  }

  /** Exactly when two names share an access slot. */
  lemma AccessIdCollision(u1: string, f1: string, u2: string, f2: string)
    ensures AccessId(u1, f1) == AccessId(u2, f2) <==>
            ((u1 == u2 && f1 == f2) || ShiftedNul(u1, f1, u2, f2) || ShiftedNul(u2, f2, u1, f1))
  {
    PrefixInjective(ACCESS_TAG, Path(u1, f1), Path(u2, f2));
    if Path(u1, f1) == Path(u2, f2) {
      if |u1| == |u2| {
        SplitSame(u1, f1, u2, f2);
      } else if |u1| < |u2| {
        SplitShifted(u1, f1, u2, f2);
      } else {
        SplitShifted(u2, f2, u1, f1);
      }
    }
    ShiftedPaths(u1, f1, u2, f2);
    ShiftedPaths(u2, f2, u1, f1);
  }

  lemma ShiftedPaths(u1: string, f1: string, u2: string, f2: string)
    ensures ShiftedNul(u1, f1, u2, f2) ==> Path(u1, f1) == Path(u2, f2) && !NulFree(u2)
  {
    if ShiftedNul(u1, f1, u2, f2) {
      var x :| u2 == Path(u1, x) && f1 == Path(x, f2);
      assert Path(u1, f1) == Path(u2, f2);
      assert u2[|u1|] == '\0';
    }
  }

  lemma SplitSame(u1: string, f1: string, u2: string, f2: string)
    requires Path(u1, f1) == Path(u2, f2) && |u1| == |u2|
    ensures u1 == u2 && f1 == f2
  {
    var p := Path(u1, f1);
    assert p[..|u1|] == u1 && p[|u1| + 1..] == f1;
    assert p[..|u2|] == u2 && p[|u2| + 1..] == f2;
  }

  lemma SplitShifted(u1: string, f1: string, u2: string, f2: string)
    requires Path(u1, f1) == Path(u2, f2) && |u1| < |u2|
    ensures ShiftedNul(u1, f1, u2, f2)
  {
    var p := Path(u1, f1);
    var x := u2[|u1| + 1..];
    assert p[..|u2|] == u2 && p[|u2| + 1..] == f2 && p[|u2|] == '\0';
    assert p[..|u1|] == u1 && p[|u1|] == '\0' && p[|u1| + 1..] == f1;
    assert u2 == u2[..|u1|] + [u2[|u1|]] + x;
    assert u2 == Path(u1, x);
    assert f1 == f1[..|x|] + [f1[|x|]] + f1[|x| + 1..];
    assert f1 == Path(x, f2);
  }

  /** On user names without NUL, `accessID` is injective. */
  lemma AccessIdInjective(u1: string, f1: string, u2: string, f2: string)
    requires NulFree(u1) && NulFree(u2)
    ensures AccessId(u1, f1) == AccessId(u2, f2) <==> u1 == u2 && f1 == f2
  {
    AccessIdCollision(u1, f1, u2, f2);
    ShiftedPaths(u1, f1, u2, f2);
    ShiftedPaths(u2, f2, u1, f1);
  }

  /** Without the NUL condition it is not: user `a` and user `a<NUL>b` can share a slot. */
  lemma AccessIdNotInjective()
    ensures AccessId("a", "b\0c") == AccessId("a\0b", "c")
  {
    assert Path("a", "b\0c") == Path("a\0b", "c");
  }
}
