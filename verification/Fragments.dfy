/** The content and the block count of a file over a whole run. */
module Fragments {
  import opened Basics
  import opened Ids
  import opened Blocks
  import opened Records
  import opened Services
  import opened Invariant
  import opened CapabilityFs
  import opened Abstraction
  import opened Simulation
  import opened Runs

  /** The call appends to file `i`. */
  ghost predicate AppendsTo(s: State, call: Call, i: Id)
    requires Inv(s)
  {
    call.op.Append? && call.op.piece.Some? && Step(s, call).1 && InodeUnder(s, (call.op.user, call.op.file)) == Some(i)
  }

  /** The pieces that a run appends to file `i`, in order. */
  ghost function PiecesTo(s: State, calls: seq<Call>, i: Id): seq<Bytes>
    requires Inv(s)
    decreases |calls|
  {
    if calls == [] then []
    else
      StepInv(s, calls[0]);
      (if AppendsTo(s, calls[0], i) then [calls[0].op.piece.value] else []) +
      PiecesTo(Step(s, calls[0]).0, calls[1..], i)
  }

  /** The blocks that separately split pieces take. */
  function BlocksFor(pieces: seq<Bytes>): nat {
    if pieces == [] then 0 else CeilDiv(|pieces[0]|) + BlocksFor(pieces[1..])
  }

  /** A file changes by appends to it and by nothing else, re-keying included. */
  lemma FileAfter(a: Fs, op: Op, fr: Fresh, i: Id)
    requires FreshFor(a, fr) && i in a.files
    ensures var (b, ok) := Apply(a, op, fr);
            && i in b.files
            && b.files[i] ==
                 if ok && op.Append? && op.piece.Some? && FileOf(a, (op.user, op.file)) == Some(i)
                 then File(a.files[i].content + op.piece.value, a.files[i].blocks + CeilDiv(|op.piece.value|))
                 else a.files[i]
  {
  }

  lemma {:induction false} FileHistory(s: State, calls: seq<Call>, i: Id)
    requires Inv(s) && i in Abs(s).files
    ensures i in Abs(Run(s, calls)).files
    ensures Abs(Run(s, calls)).files[i] ==
            File(Abs(s).files[i].content + Flatten(PiecesTo(s, calls, i)),
                 Abs(s).files[i].blocks + BlocksFor(PiecesTo(s, calls, i)))
    decreases |calls|
  {
    hide Step, Inv, Abs, FreshFor, Apply;
    if calls == [] {
      assert Abs(s).files[i].content + [] == Abs(s).files[i].content;
    } else {
      var t := Step(s, calls[0]).0;
      StepSimulates(s, calls[0]);
      FreshIsFresh(s, calls[0].op);
      FileAfter(Abs(s), calls[0].op, FreshOf(s, calls[0].op), i);
      FileHistory(t, calls[1..], i);
      if AppendsTo(s, calls[0], i) {
        FirstPiece(calls[0].op.piece.value, PiecesTo(t, calls[1..], i));
        ConcatAssociative(Abs(s).files[i].content, calls[0].op.piece.value, Flatten(PiecesTo(t, calls[1..], i)));
      } else {
        assert [] + PiecesTo(t, calls[1..], i) == PiecesTo(t, calls[1..], i);
      }
    }
  }

  lemma FirstPiece(piece: Bytes, rest: seq<Bytes>)
    ensures Flatten([piece] + rest) == piece + Flatten(rest)
    ensures BlocksFor([piece] + rest) == CeilDiv(|piece|) + BlocksFor(rest)
  {
    assert ([piece] + rest)[1..] == rest;
  }

  lemma ConcatAssociative(x: Bytes, y: Bytes, z: Bytes)
    ensures (x + y) + z == x + (y + z)
  {
  }

  /** Each separately split piece costs at most one block more than joint splitting. */
  lemma {:induction false} BlocksForBounds(size: nat, pieces: seq<Bytes>)
    ensures CeilDiv(size + |Flatten(pieces)|) <= CeilDiv(size) + BlocksFor(pieces)
    ensures CeilDiv(size) + BlocksFor(pieces) <= CeilDiv(size + |Flatten(pieces)|) + |pieces|
    decreases |pieces|
  {
    if pieces != [] {
      var rest := Flatten(pieces[1..]);
      BlocksForBounds(size, pieces[1..]);
      CeilDivSum(size + |rest|, |pieces[0]|);
    }
  }

  /** From `StoreFile` on, whatever happens in between, the file is the stored content
      followed by the appended pieces, its size is exact, and `k` appends cost at most
      `k` blocks more than the content needs. */
  lemma FragmentationBound(s: State, store: Call, calls: seq<Call>)
    requires Inv(s) && store.op.Store? && Step(s, store).1
    ensures var i := Random(s.next + 1);
            var t := Step(s, store).0;
            && Inv(t)
            && var e := Run(t, calls);
               var pieces := PiecesTo(t, calls, i);
            && IsInode(e.heap, i)
            && var inode := InodeAt(e.heap, i);
            && Flatten(Plaintexts(e.heap, inode.blocks)) == store.op.content + Flatten(pieces)
            && inode.size == |store.op.content| + |Flatten(pieces)|
            && CeilDiv(inode.size) <= |inode.blocks| <= CeilDiv(inode.size) + |pieces|
  {
    hide Step, Inv, Abs, FreshFor, Flatten, BlocksFor, Plaintexts;
    var i := Random(s.next + 1);
    var t := Step(s, store).0;
    StepSimulates(s, store);
    FileHistory(t, calls, i);
    FileEntry(Run(t, calls), i);
    BlocksForBounds(|store.op.content|, PiecesTo(t, calls, i));
  }
}
