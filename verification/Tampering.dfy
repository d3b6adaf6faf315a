/** A storage server that forges no seal, but serves stored payloads at the wrong ids, or
    serves old ones again. Payloads are not bound to their ids (utils.go `encryptAndMAC`
    seals without associated data) and carry no mark of their kind, so some of this goes
    unnoticed: exactly what is below. */
module Tampering {
  import opened Basics
  import opened Ids
  import opened Records
  import opened Services
  import opened Invariant
  import opened CapabilityFs
  import opened Abstraction
  import opened Frames
  import opened Edits
  import opened Simulation
  import opened Runs
  import opened Theorems
  import opened Custody

  // ---- Loading, when a payload may be of another kind than expected

  /** The serialiser of inodes. */
  datatype Json = Json(text: Inode -> Bytes, parse: Bytes -> Option<Inode>)

  ghost predicate Lossless(json: Json) {
    forall inode :: json.parse(json.text(inode)) == Some(inode)
  }

  /** All that is ever sealed under a file key is bytes: blocks as they are, inodes as JSON. */
  function BytesOf(body: Plain, json: Json): Bytes {
    match body
    case BlockPlain(bytes) => bytes
    case InodePlain(inode) => json.text(inode)
    case _ => []
  }

  predicate UnderFileKey(h: Heap, id: Id, key: RawKey) {
    id in h && h[id].Sealed? && h[id].key == FileKeys(key) && (h[id].body.BlockPlain? || h[id].body.InodePlain?)
  }

  function BytesAt(h: Heap, id: Id, json: Json): Bytes {
    if id in h && h[id].Sealed? then BytesOf(h[id].body, json) else []
  }

  /** `decryptAndVerify` under a file key. */
  function ReadBytes(h: Heap, id: Id, key: RawKey, json: Json): Result<Bytes, Error> {
    if id !in h then Err(BlockMissing)
    else
      match Open(h[id], FileKeys(key))
      case Err(e) => Err(e)
      case Ok(body) => if body.BlockPlain? || body.InodePlain? then Ok(BytesOf(body, json)) else Err(Malformed)
  }

  function ReadAll(h: Heap, ids: seq<Id>, key: RawKey, json: Json): Result<Bytes, Error> {
    if ids == [] then Ok([])
    else
      match ReadBytes(h, ids[0], key, json)
      case Err(e) => Err(e)
      case Ok(bytes) =>
        match ReadAll(h, ids[1..], key, json)
        case Err(e) => Err(e)
        case Ok(rest) => Ok(bytes + rest)
  }

  /** `LoadFile`, on whatever the server serves. */
  function LoadServed(h: Heap, ses: Session, filename: string, json: Json): Result<Bytes, Error> {
    match WalkMailbox(h, ses, filename)
    case Err(e) => Err(e)
    case Ok((_, node)) =>
      match ReadBytes(h, node.inode, node.fileKey, json)
      case Err(e) => Err(e)
      case Ok(bytes) =>
        match json.parse(bytes)
        case None => Err(Malformed)
        case Some(inode) => ReadAll(h, inode.blocks, node.fileKey, json)
  }

  function AllBytes(h: Heap, ids: seq<Id>, json: Json): seq<Bytes> {
    seq(|ids|, j requires 0 <= j < |ids| => BytesAt(h, ids[j], json))
  }

  lemma {:induction false} ReadAllExact(h: Heap, ids: seq<Id>, key: RawKey, json: Json)
    ensures var r := ReadAll(h, ids, key, json);
            && (r.Ok? <==> forall j :: 0 <= j < |ids| ==> UnderFileKey(h, ids[j], key))
            && (r.Ok? ==> r.value == Flatten(AllBytes(h, ids, json)))
  {
    if ids != [] {
      ReadAllExact(h, ids[1..], key, json);
      assert forall j :: 1 <= j < |ids| ==> ids[j] == ids[1..][j - 1];
      assert AllBytes(h, ids, json)[1..] == AllBytes(h, ids[1..], json);
    }
  }

  lemma BlockBytesAt(h: Heap, blocks: seq<Id>, json: Json)
    requires forall j :: 0 <= j < |blocks| ==> IsBlock(h, blocks[j])
    ensures AllBytes(h, blocks, json) == Plaintexts(h, blocks)
  {
  }

  /** On an honest server that is `LoadFile`. */
  lemma HonestLoad(s: State, ses: Session, f: string, json: Json)
    requires Inv(s) && Genuine(s, ses) && Lossless(json)
    ensures LoadServed(s.heap, ses, f, json).Ok? <==> LoadFile(s, ses, f).Ok?
    ensures LoadFile(s, ses, f).Ok? ==> LoadServed(s.heap, ses, f, json) == LoadFile(s, ses, f)
  {
    hide Inv, Abs, Plaintexts, GoodAccess;
    if WalkMailbox(s.heap, ses, f).Ok? {
      MailboxFacts(s, ses, f);
      var i := WalkMailbox(s.heap, ses, f).value.1.inode;
      var blocks := InodeAt(s.heap, i).blocks;
      InodeFacts(s, i);
      if WalkInode(s.heap, ses, f).Ok? {
        ReadAllExact(s.heap, blocks, s.heap[i].key.raw, json);
        ReadBlocksPlain(s.heap, blocks, s.heap[i].key);
        BlockBytesAt(s.heap, blocks, json);
      }
    }
  }

  // ---- Two blocks exchanged

  function Swapped(g: Heap, b: Id, c: Id): Heap
    requires b in g && c in g
  {
    map id | id in g :: g[Swap(b, c, id)]
  }

  function Swap(b: Id, c: Id, id: Id): Id {
    if id == b then c else if id == c then b else id
  }

  function SwapIndex(i: nat, j: nat, k: nat): nat {
    if k == j then i else if k == i then j else k
  }

  lemma SwapAt(g: Heap, blocks: seq<Id>, i: nat, j: nat, k: nat)
    requires Distinct(blocks) && i < |blocks| && j < |blocks| && k < |blocks|
    requires forall k :: 0 <= k < |blocks| ==> IsBlock(g, blocks[k])
    ensures blocks[i] in g && blocks[j] in g
    ensures BlockBytes(Swapped(g, blocks[i], blocks[j]), blocks[k]) == BlockBytes(g, blocks[SwapIndex(i, j, k)])
  {
    assert IsBlock(g, blocks[i]) && IsBlock(g, blocks[j]) && IsBlock(g, blocks[k]);
  }

  lemma SwapSeq<T>(s: seq<T>, t: seq<T>, i: nat, j: nat)
    requires i < |s| && j < |s| && |t| == |s|
    requires forall k :: 0 <= k < |s| ==> t[k] == s[SwapIndex(i, j, k)]
    ensures t == s[i := s[j]][j := s[i]]
  {
  }

  lemma SwapPlaintexts(g: Heap, blocks: seq<Id>, i: nat, j: nat)
    requires Distinct(blocks) && i < |blocks| && j < |blocks|
    requires forall k :: 0 <= k < |blocks| ==> IsBlock(g, blocks[k])
    ensures blocks[i] in g && blocks[j] in g
    ensures var texts := Plaintexts(g, blocks);
            Plaintexts(Swapped(g, blocks[i], blocks[j]), blocks) == texts[i := texts[j]][j := texts[i]]
  {
    hide Distinct, Swapped, IsBlock, BlockBytes;
    SwapAt(g, blocks, i, j, i);
    var h := Swapped(g, blocks[i], blocks[j]);
    forall k | 0 <= k < |blocks|
      ensures Plaintexts(h, blocks)[k] == Plaintexts(g, blocks)[SwapIndex(i, j, k)]
    {
      SwapAt(g, blocks, i, j, k);
    }
    SwapSeq(Plaintexts(g, blocks), Plaintexts(h, blocks), i, j);
  }

  /** Two blocks of a file exchanged: the load succeeds, and returns the exchanged text. */
  lemma SwapUnnoticed(s: State, ses: Session, f: string, i: nat, j: nat, json: Json)
    requires Inv(s) && Genuine(s, ses) && WalkInode(s.heap, ses, f).Ok? && Lossless(json)
    requires i < |WalkInode(s.heap, ses, f).value.inode.blocks| && j < |WalkInode(s.heap, ses, f).value.inode.blocks|
    ensures var blocks := WalkInode(s.heap, ses, f).value.inode.blocks;
            var texts := Plaintexts(s.heap, blocks);
            && blocks[i] in s.heap && blocks[j] in s.heap
            && LoadFile(s, ses, f) == Ok(Flatten(texts))
            && LoadServed(Swapped(s.heap, blocks[i], blocks[j]), ses, f, json) == Ok(Flatten(texts[i := texts[j]][j := texts[i]]))
  {
    hide Inv, Abs, AccessId, WalkMailbox, OpenInode, Live, GoodAccess, Swapped, ReadAll, ReadBlocks, Plaintexts, Distinct;
    var w := WalkInode(s.heap, ses, f).value;
    WalkFacts(s, ses, f);
    WalkReads(s, ses, f);
    var blocks := w.inode.blocks;
    SwapPlaintexts(s.heap, blocks, i, j);
    var h := Swapped(s.heap, blocks[i], blocks[j]);
    SwapKeepsRecords(s.heap, blocks[i], blocks[j], ses, f);
    SwapSeals(s.heap, blocks, i, j, w.node.fileKey);
    ReadAllExact(h, blocks, w.node.fileKey, json);
    BlockBytesAt(h, blocks, json);
    ReadBlocksPlain(s.heap, blocks, FileKeys(w.node.fileKey));
  }

  lemma SwapKeepsRecords(g: Heap, b: Id, c: Id, ses: Session, f: string)
    requires IsBlock(g, b) && IsBlock(g, c) && WalkMailbox(g, ses, f).Ok?
    ensures WalkMailbox(Swapped(g, b, c), ses, f) == WalkMailbox(g, ses, f)
    ensures forall i :: IsInode(g, i) ==> i in Swapped(g, b, c) && Swapped(g, b, c)[i] == g[i]
  {
    hide AccessId;
  }

  lemma SwapSeals(g: Heap, blocks: seq<Id>, i: nat, j: nat, key: RawKey)
    requires i < |blocks| && j < |blocks|
    requires forall k :: 0 <= k < |blocks| ==> IsBlock(g, blocks[k]) && g[blocks[k]].key == FileKeys(key)
    ensures blocks[i] in g && blocks[j] in g
    ensures forall k :: 0 <= k < |blocks| ==>
              IsBlock(Swapped(g, blocks[i], blocks[j]), blocks[k]) && UnderFileKey(Swapped(g, blocks[i], blocks[j]), blocks[k], key)
  {
    assert IsBlock(g, blocks[i]) && IsBlock(g, blocks[j]);
    forall k | 0 <= k < |blocks|
      ensures IsBlock(Swapped(g, blocks[i], blocks[j]), blocks[k]) && UnderFileKey(Swapped(g, blocks[i], blocks[j]), blocks[k], key)
    {
      assert IsBlock(g, blocks[k]);
    }
  }

  // ---- Old payloads

  lemma {:induction false} BlocksUntilRekey(s: State, calls: seq<Call>, i: Id)
    requires Inv(s) && IsInode(s.heap, i)
    ensures var t := Run(s, calls);
            && IsInode(t.heap, i)
            && (t.heap[i].key == s.heap[i].key || NewerKey(s, t, i))
            && (t.heap[i].key == s.heap[i].key ==> forall b :: b in InodeAt(s.heap, i).blocks ==> Same(s, t, b))
    decreases |calls|
  {
    hide Inv, Step;
    InodeFacts(s, i);
    if calls != [] {
      var m := Step(s, calls[0]).0;
      StepInv(s, calls[0]);
      BlocksOfStep(s, calls[0], i);
      FileKeyOld(s, i);
      BlocksUntilRekey(m, calls[1..], i);
    }
  }

  /** Exactly when an old version of a file's inode, served again, passes for the present
      one: when the file has not been re-keyed since. The load then returns the old content,
      however much has been appended. */
  lemma RollbackExact(s: State, calls: seq<Call>, ses: Session, f: string, json: Json)
    requires Inv(s) && Genuine(Run(s, calls), ses) && WalkInode(Run(s, calls).heap, ses, f).Ok? && Lossless(json)
    requires IsInode(s.heap, WalkInode(Run(s, calls).heap, ses, f).value.node.inode)
    ensures var t := Run(s, calls);
            var i := WalkInode(t.heap, ses, f).value.node.inode;
            var r := LoadServed(t.heap[i := s.heap[i]], ses, f, json);
            && IsInode(t.heap, i) && i in Abs(s).files
            && (r.Ok? <==> t.heap[i].key == s.heap[i].key)
            && (r.Ok? ==> r.value == Abs(s).files[i].content)
  {
    hide Inv, Abs, AccessId, Live, GoodAccess, Run;
    var t := Run(s, calls);
    WalkFacts(t, ses, f);
    var i := WalkInode(t.heap, ses, f).value.node.inode;
    BlocksUntilRekey(s, calls, i);
    FileEntry(s, i);
    OldVersion(s, t, ses, f, json);
  }

  lemma OldVersion(s: State, t: State, ses: Session, f: string, json: Json)
    requires Inv(s) && Inv(t) && WalkInode(t.heap, ses, f).Ok? && Lossless(json)
    requires var i := WalkInode(t.heap, ses, f).value.node.inode;
             && IsInode(s.heap, i) && IsInode(t.heap, i)
             && (t.heap[i].key == s.heap[i].key ==> forall b :: b in InodeAt(s.heap, i).blocks ==> Same(s, t, b))
    ensures var i := WalkInode(t.heap, ses, f).value.node.inode;
            var r := LoadServed(t.heap[i := s.heap[i]], ses, f, json);
            && (r.Ok? <==> t.heap[i].key == s.heap[i].key)
            && (r.Ok? ==> r.value == AbsFile(s.heap, i).content)
  {
    hide Inv, AccessId, ReadAll, Plaintexts;
    WalkReads(t, ses, f);
    var w := WalkInode(t.heap, ses, f).value;
    var i := w.node.inode;
    var h := t.heap[i := s.heap[i]];
    assert WalkMailbox(h, ses, f) == WalkMailbox(t.heap, ses, f);
    InodeFacts(s, i);
    var blocks := InodeAt(s.heap, i).blocks;
    if t.heap[i].key == s.heap[i].key {
      forall j | 0 <= j < |blocks|
        ensures UnderFileKey(h, blocks[j], w.node.fileKey) && IsBlock(h, blocks[j])
        ensures BlockBytes(h, blocks[j]) == BlockBytes(s.heap, blocks[j])
      {
        assert blocks[j] in blocks && Same(s, t, blocks[j]);
      }
      ReadAllExact(h, blocks, w.node.fileKey, json);
      BlockBytesAt(h, blocks, json);
      assert Plaintexts(h, blocks) == Plaintexts(s.heap, blocks);
    }
  }

  /** An append made on a rolled-back inode, which succeeds exactly if the old version passes,
      makes the loss stick: on the honest datastore its writes leave the old content and the
      piece, for everybody who can load the file. */
  lemma RollbackSticks(s: State, calls: seq<Call>, ses: Session, f: string, piece: Bytes, q: (string, string))
    requires Inv(s) && Genuine(Run(s, calls), ses) && WalkInode(Run(s, calls).heap, ses, f).Ok?
    requires IsInode(s.heap, WalkInode(Run(s, calls).heap, ses, f).value.node.inode)
    ensures var t := Run(s, calls);
            var w := WalkInode(t.heap, ses, f).value;
            var i := w.node.inode;
            var (u, r) := AppendToFile(t.(heap := t.heap[i := s.heap[i]]), ses, f, Some(piece));
            && IsInode(t.heap, i) && i in Abs(s).files
            && (r.Ok? <==> t.heap[i].key == s.heap[i].key)
            && (r.Ok? ==>
                  && u.heap == Appended(t.heap, w.(inode := InodeAt(s.heap, i)), t.next, piece)
                  && Inv(u)
                  && Shown(u, q) == if FileOf(Abs(t), q) == Some(i) && Live(Abs(t), q)
                                    then Some(Abs(s).files[i].content + piece) else Shown(t, q))
  {
    hide Inv, Abs, AccessId, Live, GoodAccess, Run, Shown, AppendToFile, WalkInode, Plaintexts, GoodInode, Genuine, UserOk;
    var t := Run(s, calls);
    WalkFacts(t, ses, f);
    var i := WalkInode(t.heap, ses, f).value.node.inode;
    BlocksUntilRekey(s, calls, i);
    FileEntry(s, i);
    RolledBackWalk(t, ses, f, s.heap[i]);
    AppendForm(t.(heap := t.heap[i := s.heap[i]]), ses, f, piece);
    if t.heap[i].key == s.heap[i].key {
      RolledBackState(s, t, i);
      AppendOnOld(t, t.(heap := t.heap[i := s.heap[i]]), ses, f, piece, i, q);
    }
  }

  /** The walk on a datastore whose inode is an old version. */
  lemma RolledBackWalk(t: State, ses: Session, f: string, stale: Payload)
    requires WalkInode(t.heap, ses, f).Ok? && stale.Sealed? && stale.body.InodePlain?
    ensures var w := WalkInode(t.heap, ses, f).value;
            var r := WalkInode(t.heap[w.node.inode := stale], ses, f);
            && (r.Ok? <==> stale.key == t.heap[w.node.inode].key)
            && (r.Ok? ==> r.value == w.(inode := stale.body.inode))
  {
    hide AccessId;
    WalkReads(t, ses, f);
    var w := WalkInode(t.heap, ses, f).value;
    assert WalkMailbox(t.heap[w.node.inode := stale], ses, f) == WalkMailbox(t.heap, ses, f);
  }

  lemma AppendForm(s: State, ses: Session, f: string, piece: Bytes)
    ensures var (t, r) := AppendToFile(s, ses, f, Some(piece));
            && (r.Ok? <==> WalkInode(s.heap, ses, f).Ok?)
            && (r.Ok? ==> t.heap == Appended(s.heap, WalkInode(s.heap, ses, f).value, s.next, piece))
  {
    hide WalkInode;
  }

  /** Under an unchanged key, that datastore is as sound as any. */
  lemma RolledBackState(s: State, t: State, i: Id)
    requires Inv(s) && Inv(t) && IsInode(s.heap, i) && IsInode(t.heap, i) && t.heap[i].key == s.heap[i].key
    requires forall b :: b in InodeAt(s.heap, i).blocks ==> Same(s, t, b)
    ensures var g := t.(heap := t.heap[i := s.heap[i]]);
            && Inv(g) && SameUsers(t, g)
            && Abs(g) == Abs(t).(files := Abs(t).files[i := AbsFile(s.heap, i)])
  {
    hide Inv, Abs, SameUsers, Plaintexts, Distinct;
    InodeFacts(s, i);
    FileKeyOld(t, i);
    var inode := InodeAt(s.heap, i);
    forall j | 0 <= j < |inode.blocks|
      ensures IsBlock(t.heap, inode.blocks[j]) && t.heap[inode.blocks[j]] == s.heap[inode.blocks[j]]
    {
      assert inode.blocks[j] in inode.blocks && Same(s, t, inode.blocks[j]);
    }
    assert Plaintexts(t.heap, inode.blocks) == Plaintexts(s.heap, inode.blocks) by { SameTexts(s.heap, t.heap, inode.blocks); }
    SetInodeKeeps(t, i, t.heap[i].key.raw, inode);
    assert t.(heap := t.heap[i := s.heap[i]]) == SetInode(t, i, t.heap[i].key.raw, inode);
  }

  lemma SameTexts(h: Heap, g: Heap, blocks: seq<Id>)
    requires forall j :: 0 <= j < |blocks| ==> IsBlock(g, blocks[j]) && IsBlock(h, blocks[j]) && g[blocks[j]] == h[blocks[j]]
    ensures Plaintexts(g, blocks) == Plaintexts(h, blocks)
  {
  }

  lemma AppendOnOld(t: State, g: State, ses: Session, f: string, piece: Bytes, i: Id, q: (string, string))
    requires Inv(t) && Inv(g) && SameUsers(t, g) && Genuine(t, ses) && WalkInode(g.heap, ses, f).Ok?
    requires Live(Abs(t), (ses.creds.username, f)) && FileOf(Abs(t), (ses.creds.username, f)) == Some(i)
    requires i in Abs(g).files && Abs(g) == Abs(t).(files := Abs(t).files[i := Abs(g).files[i]])
    ensures var u := AppendToFile(g, ses, f, Some(piece)).0;
            && Inv(u)
            && Shown(u, q) == if FileOf(Abs(t), q) == Some(i) && Live(Abs(t), q)
                              then Some(Abs(g).files[i].content + piece) else Shown(t, q)
  {
    hide Inv, Abs, SameUsers, Shown, AppendToFile, WalkInode, Genuine, FreshOf;
    SessionCarries(t, g, ses);
    AppendSim(g, ses, f, Some(piece));
    AppendForm(g, ses, f, piece);
    WalkExactInv(g, ses, f);
    ShownIs(AppendToFile(g, ses, f, Some(piece)).0, q);
    ShownIs(t, q);
  }

  // ---- Two names with one personal key

  /** The record of a name served as that of an alias: the load returns the other file. */
  lemma AliasUnnoticed(s: State, ses: Session, f: string, g: string, json: Json)
    requires Inv(s) && Genuine(s, ses) && Live(Abs(s), (ses.creds.username, g)) && Hmac(f) == Hmac(g) && Lossless(json)
    ensures AccessId(ses.creds.username, g) in s.heap
    ensures LoadFile(s, ses, g).Ok?
    ensures LoadServed(s.heap[AccessId(ses.creds.username, f) := s.heap[AccessId(ses.creds.username, g)]], ses, f, json) ==
            LoadFile(s, ses, g)
  {
    hide Inv, Abs, AccessId, Live;
    LoadExact(s, ses, g);
    HonestLoad(s, ses, g, json);
    WalkExactInv(s, ses, g);
    WalkFacts(s, ses, g);
    WalkReads(s, ses, g);
    AccessSlot(s, ses.creds.username, f);
    AliasLoads(s.heap, ses, f, g, json);
  }

  lemma AliasLoads(h: Heap, ses: Session, f: string, g: string, json: Json)
    requires LoadServed(h, ses, g, json).Ok? && Hmac(f) == Hmac(g)
    requires AccessId(ses.creds.username, f) in h ==> IsAccess(h, AccessId(ses.creds.username, f))
    ensures LoadServed(h[AccessId(ses.creds.username, f) := h[AccessId(ses.creds.username, g)]], ses, f, json) ==
            LoadServed(h, ses, g, json)
  {
    hide AccessId, ReadAll;
    var slot := AccessId(ses.creds.username, f);
    var k := h[slot := h[AccessId(ses.creds.username, g)]];
    assert WalkMailbox(k, ses, f) == WalkMailbox(h, ses, g);
    var node := WalkMailbox(h, ses, g).value.1;
    assert ReadBytes(k, node.inode, node.fileKey, json) == ReadBytes(h, node.inode, node.fileKey, json);
    var blocks := json.parse(ReadBytes(h, node.inode, node.fileKey, json).value).value.blocks;
    ReadAllExact(h, blocks, node.fileKey, json);
    ReadAllExact(k, blocks, node.fileKey, json);
    assert forall j :: 0 <= j < |blocks| ==> UnderFileKey(h, blocks[j], node.fileKey) && UnderFileKey(k, blocks[j], node.fileKey);
    assert AllBytes(k, blocks, json) == AllBytes(h, blocks, json);
  }

  // ---- Payloads of any age

  /** The datastore after the first `k` calls. */
  ghost function At(s: State, calls: seq<Call>, k: nat): (t: State)
    requires Inv(s) && k <= |calls|
    ensures Inv(t)
  {
    Run(s, calls[..k])
  }

  lemma {:induction false} RunConcat(s: State, first: seq<Call>, second: seq<Call>)
    requires Inv(s)
    ensures Run(s, first + second) == Run(Run(s, first), second)
    decreases |first|
  {
    hide Step, Inv;
    if first == [] {
      assert first + second == second;
    } else {
      StepInv(s, first[0]);
      assert (first + second)[1..] == first[1..] + second;
      RunConcat(Step(s, first[0]).0, first[1..], second);
    }
  }

  lemma Between(s: State, calls: seq<Call>, k: nat, l: nat)
    requires Inv(s) && k <= l <= |calls|
    ensures At(s, calls, l) == Run(At(s, calls, k), calls[k..l])
  {
    hide Run;
    assert calls[..l] == calls[..k] + calls[k..l];
    RunConcat(s, calls[..k], calls[k..l]);
  }

  lemma InodeBefore(s: State, call: Call, j: Id)
    requires Inv(s) && Inv(Step(s, call).0) && IsInode(Step(s, call).0.heap, j)
    ensures (IsInode(s.heap, j) && Step(s, call).0.heap[j].key == s.heap[j].key) || NewerKey(s, Step(s, call).0, j)
  {
    hide Inv, UserOk, RecordsStep, BoxesStep, MailStep, BlocksStep,
      StoreFile, AppendToFile, CreateInvitation, AcceptInvitation, RevokeAccess;
    if call.op.Init? {
      if !Registered(s, call.op.user) {
        RegisterSame(s, call.op.user, call.op.password);
      }
    } else if Registered(s, call.op.user) {
      var f, n := CallCustody(s, call);
    }
  }

  lemma {:induction false} InodeOrigin(s: State, calls: seq<Call>, j: Id)
    requires Inv(s) && IsInode(Run(s, calls).heap, j)
    ensures (IsInode(s.heap, j) && Run(s, calls).heap[j].key == s.heap[j].key) || NewerKey(s, Run(s, calls), j)
    decreases |calls|
  {
    hide Inv, Step;
    if calls != [] {
      StepInv(s, calls[0]);
      InodeOrigin(Step(s, calls[0]).0, calls[1..], j);
      DrawsGrow(s, calls[0]);
      if IsInode(Step(s, calls[0]).0.heap, j) {
        InodeBefore(s, calls[0], j);
      }
    }
  }

  lemma {:induction false} MailboxStays(s: State, calls: seq<Call>, m: Id, key: RawKey)
    requires Inv(s) && InCustody(s) && MailboxUnder(s.heap, m, key)
    ensures MailboxUnder(Run(s, calls).heap, m, key)
    decreases |calls|
  {
    hide Inv, Step, Abs, Apply, InCustody;
    if calls != [] {
      var t := Step(s, calls[0]).0;
      CustodyKept(s, calls[0]);
      StepSimulates(s, calls[0]);
      CapOf(s, m);
      CapOf(t, m);
      CapsStay(Abs(s), calls[0].op, FreshOf(s, calls[0].op), m);
      assert IsMailbox(t.heap, m);
      SealOf(t, m);
      MailboxKeysStay(s, calls[0], m, t.heap[m].key.raw);
      MailboxStays(t, calls[1..], m, key);
    }
  }

  lemma SealOf(s: State, m: Id)
    requires Inv(s) && IsMailbox(s.heap, m)
    ensures s.heap[m].key.MailKeys?
  {
    assert MailboxOk(s, m);
  }

  lemma CapsStay(a: Fs, op: Op, fr: Fresh, m: Id)
    ensures m in a.caps ==> m in Apply(a, op, fr).0.caps
  {
  }

  /** At `at` the server serves what `g` stores at `from`. */
  predicate ServedAs(g: Heap, h: Heap, from: Id, at: Id) {
    from in g && at in h && h[at] == g[from]
  }

  /** Every payload that `h` serves was stored at some time of the run, anywhere. */
  ghost predicate Replays(s: State, calls: seq<Call>, h: Heap)
    requires Inv(s)
  {
    forall id :: id in h ==> Replayed(s, calls, h, id)
  }

  ghost predicate Replayed(s: State, calls: seq<Call>, h: Heap, id: Id)
    requires Inv(s)
  {
    exists k, j :: 0 <= k <= |calls| && ServedAs(At(s, calls, k).heap, h, j, id)
  }

  /** In the place of the record of name `p` is served one that a name of the same user had
      at some time: `p` itself, or one that differs from it in NULs at the end. */
  ghost predicate ServesName(s: State, calls: seq<Call>, h: Heap, p: (string, string))
    requires Inv(s)
  {
    exists k, g :: 0 <= k <= |calls| && ServesAlias(At(s, calls, k), h, p, g)
  }

  ghost predicate ServesAlias(s: State, h: Heap, p: (string, string), g: string)
    requires Inv(s)
  {
    Hmac(g) == Hmac(p.1) && Holds(s, (p.0, g)) && ServedAs(s.heap, h, SlotOf((p.0, g)), SlotOf(p))
  }

  /** Mailbox `m` is served as it was at some time. */
  ghost predicate ServesMailbox(s: State, calls: seq<Call>, h: Heap, m: Id)
    requires Inv(s)
  {
    exists k :: 0 <= k <= |calls| && IsMailbox(At(s, calls, k).heap, m) && ServedAs(At(s, calls, k).heap, h, m, m)
  }

  predicate InodeUnderKey(h: Heap, node: MailboxNode) {
    IsInode(h, node.inode) && h[node.inode].key == FileKeys(node.fileKey)
  }

  /** At `id` the server serves the inode of `node`, or one of its blocks, as it was at some
      time when the file had the key of `node`. */
  ghost predicate ServesPart(s: State, calls: seq<Call>, h: Heap, node: MailboxNode, id: Id)
    requires Inv(s)
  {
    exists k, b :: 0 <= k <= |calls| && InodeUnderKey(At(s, calls, k).heap, node) &&
      (b == node.inode || b in InodeAt(At(s, calls, k).heap, node.inode).blocks) && ServedAs(At(s, calls, k).heap, h, b, id)
  }

  lemma AtSound(s: State, calls: seq<Call>, k: nat)
    requires Inv(s) && InCustody(s) && k <= |calls|
    ensures InCustody(At(s, calls, k))
  {
    hide Inv, InCustody;
    CustodyThroughRun(s, calls[..k]);
  }

  lemma Latest(s: State, calls: seq<Call>, k: nat)
    requires Inv(s) && k <= |calls|
    ensures Run(s, calls) == Run(At(s, calls, k), calls[k..])
  {
    hide Inv, Run, At;
    Between(s, calls, k, |calls|);
    assert calls[..|calls|] == calls && calls[k..|calls|] == calls[k..];
    assert At(s, calls, |calls|) == Run(s, calls) by { AtEnd(s, calls); }
  }

  lemma AtEnd(s: State, calls: seq<Call>)
    requires Inv(s)
    ensures At(s, calls, |calls|) == Run(s, calls)
  {
    hide Inv, Run;
    assert calls[..|calls|] == calls;
  }

  /** A session's user had the same secrets whenever it was registered. */
  lemma SameMaster(s: State, calls: seq<Call>, ses: Session, p: (string, string))
    requires Inv(s) && Genuine(Run(s, calls), ses) && Holds(s, p) && Cred(s, p.0).master == ses.creds.master
    ensures p.0 == ses.creds.username
  {
    hide Inv, Run, UserOk;
    KnownUser(s, p.0);
    var e := Run(s, calls);
    CredentialsThroughRun(s, calls, p.0);
    GenuineCred(e, ses);
    MastersApart(e, p.0, ses.creds.username);
  }

  lemma GenuineCred(s: State, ses: Session)
    requires Inv(s) && Genuine(s, ses)
    ensures Registered(s, ses.creds.username) && UserOk(s, ses.creds.username) && Cred(s, ses.creds.username) == ses.creds
  {
    hide Inv;
    SameUsersReflexive(s);
    SessionCarries(s, s, ses);
    KnownUser(s, ses.creds.username);
  }

  lemma MastersApart(s: State, m: string, n: string)
    requires Inv(s) && Registered(s, m) && Registered(s, n) && UserOk(s, m) && UserOk(s, n)
    requires Cred(s, m).master == Cred(s, n).master
    ensures m == n
  {
  }

  /** The record that opens is exactly one that the name itself, or an alias of it, had. */
  lemma NameServed(s: State, calls: seq<Call>, ses: Session, f: string, h: Heap)
    requires Inv(s) && InCustody(s) && Genuine(Run(s, calls), ses) && Replays(s, calls, h)
    ensures OpenAccess(h, ses, f).Ok? <==> ServesName(s, calls, h, (ses.creds.username, f))
    ensures OpenAccess(h, ses, f).Ok? ==>
              IsAccess(h, AccessId(ses.creds.username, f)) && OpenAccess(h, ses, f).value == AccessAt(h, AccessId(ses.creds.username, f))
  {
    hide Inv, Run, At, InCustody, AccessId, UserOk, Genuine;
    var p := (ses.creds.username, f);
    if OpenAccess(h, ses, f).Ok? {
      assert Replayed(s, calls, h, SlotOf(p));
      var k, j :| 0 <= k <= |calls| && ServedAs(At(s, calls, k).heap, h, j, SlotOf(p));
      var g := At(s, calls, k);
      AtSound(s, calls, k);
      Latest(s, calls, k);
      var q := HolderOf(g, j);
      SameMaster(g, calls[k..], ses, q);
      UsersIn(g);
      assert q == (p.0, q.1) && ServesAlias(g, h, p, q.1);
    }
    if ServesName(s, calls, h, p) {
      NameOpens(s, calls, ses, f, h);
    }
  }

  lemma NameOpens(s: State, calls: seq<Call>, ses: Session, f: string, h: Heap)
    requires Inv(s) && Genuine(Run(s, calls), ses) && ServesName(s, calls, h, (ses.creds.username, f))
    ensures OpenAccess(h, ses, f).Ok?
  {
    hide Run, At, AccessId, UserOk, Genuine;
    var p := (ses.creds.username, f);
    var k, g :| 0 <= k <= |calls| && ServesAlias(At(s, calls, k), h, p, g);
    hide Inv;
    Latest(s, calls, k);
    UsersIn(At(s, calls, k));
    CredentialsThroughRun(At(s, calls, k), calls[k..], p.0);
    GenuineCred(Run(s, calls), ses);
  }

  lemma HolderOf(s: State, id: Id) returns (p: (string, string))
    requires Inv(s) && InCustody(s) && IsAccess(s.heap, id)
    ensures Holds(s, p) && SlotOf(p) == id && s.heap[id].key == PersonalKey(Cred(s, p.0).master, p.1)
  {
    hide Inv, BoxesHeld, MailKeysApart, KeyNamesInode, BlocksListed;
    UsersIn(s);
    p :| Holds(s, p) && SlotOf(p) == id;
  }

  /** The mailbox that opens under the key in a name's record is exactly one that was stored
      where the record points. */
  lemma MailboxServed(s: State, calls: seq<Call>, h: Heap, p: (string, string))
    requires Inv(s) && InCustody(s) && Replays(s, calls, h) && ServesName(s, calls, h, p)
    ensures IsAccess(h, SlotOf(p))
    ensures var access := AccessAt(h, SlotOf(p));
            && (OpenMailbox(h, access.mailbox, access.key).Ok? <==> ServesMailbox(s, calls, h, access.mailbox))
            && (ServesMailbox(s, calls, h, access.mailbox) ==>
                  IsMailbox(h, access.mailbox) &&
                  OpenMailbox(h, access.mailbox, access.key) == Ok(MailboxAt(h, access.mailbox)))
  {
    hide Inv, Run, At, InCustody, AccessId, UserOk;
    var l := WhenNamed(s, calls, h, p);
    var access := AccessAt(h, SlotOf(p));
    var m := access.mailbox;
    StaysToEnd(s, calls, l, m, access.key);
    if OpenMailbox(h, m, access.key).Ok? {
      assert Replayed(s, calls, h, m);
      var k, j :| 0 <= k <= |calls| && ServedAs(At(s, calls, k).heap, h, j, m);
      StaysToEnd(s, calls, k, j, access.key);
      OneMailbox(Run(s, calls), m, j, access.key);
      assert IsMailbox(At(s, calls, k).heap, m) && ServedAs(At(s, calls, k).heap, h, m, m);
    }
    if ServesMailbox(s, calls, h, m) {
      var k :| 0 <= k <= |calls| && IsMailbox(At(s, calls, k).heap, m) && ServedAs(At(s, calls, k).heap, h, m, m);
      SealOf(At(s, calls, k), m);
      StaysToEnd(s, calls, k, m, At(s, calls, k).heap[m].key.raw);
    }
  }

  lemma WhenNamed(s: State, calls: seq<Call>, h: Heap, p: (string, string)) returns (k: nat)
    requires Inv(s) && ServesName(s, calls, h, p)
    ensures k <= |calls| && IsAccess(h, SlotOf(p))
    ensures MailboxUnder(At(s, calls, k).heap, AccessAt(h, SlotOf(p)).mailbox, AccessAt(h, SlotOf(p)).key)
  {
    hide Run, At, AccessId, UserOk;
    var g;
    k, g :| 0 <= k <= |calls| && ServesAlias(At(s, calls, k), h, p, g);
    AccessFacts(At(s, calls, k), SlotOf((p.0, g)));
  }

  lemma StaysToEnd(s: State, calls: seq<Call>, k: nat, m: Id, key: RawKey)
    requires Inv(s) && InCustody(s) && k <= |calls| && MailboxUnder(At(s, calls, k).heap, m, key)
    ensures MailboxUnder(Run(s, calls).heap, m, key) && InCustody(Run(s, calls))
  {
    hide Inv, Run, At, InCustody;
    AtSound(s, calls, k);
    Latest(s, calls, k);
    MailboxStays(At(s, calls, k), calls[k..], m, key);
    CustodyThroughRun(s, calls);
  }

  lemma OneMailbox(s: State, m: Id, n: Id, key: RawKey)
    requires Inv(s) && InCustody(s) && MailboxUnder(s.heap, m, key) && MailboxUnder(s.heap, n, key)
    ensures m == n
  {
    hide Inv, RecordsHeld, BoxesHeld, KeyNamesInode, BlocksListed;
    UsersIn(s);
  }

  lemma NodeBefore(s: State, call: Call, node: MailboxNode)
    requires Inv(s) && InCustody(s) && NodeFrom(Step(s, call).0, node)
    ensures NodeFrom(s, node) || node.fileKey >= s.next
  {
    hide Inv, UserOk, RecordsStep, BoxesStep, InodeStep, BlocksStep, RecordsHeld, BoxesHeld, KeyNamesInode, BlocksListed,
      StoreFile, AppendToFile, CreateInvitation, AcceptInvitation, RevokeAccess;
    var m :| IsMailbox(Step(s, call).0.heap, m) && MailboxAt(Step(s, call).0.heap, m) == node;
    if call.op.Init? {
      if !Registered(s, call.op.user) {
        RegisterSame(s, call.op.user, call.op.password);
        assert IsMailbox(s.heap, m) && MailboxAt(s.heap, m) == node;
      }
    } else if Registered(s, call.op.user) {
      var f, n := CallCustody(s, call);
    }
  }

  lemma {:induction false} NodeOrigin(s: State, calls: seq<Call>, node: MailboxNode)
    requires Inv(s) && InCustody(s) && NodeFrom(Run(s, calls), node)
    ensures NodeFrom(s, node) || node.fileKey >= s.next
    decreases |calls|
  {
    hide Inv, Step, InCustody, NodeFrom;
    if calls != [] {
      CustodyKept(s, calls[0]);
      NodeOrigin(Step(s, calls[0]).0, calls[1..], node);
      DrawsGrow(s, calls[0]);
      if NodeFrom(Step(s, calls[0]).0, node) {
        NodeBefore(s, calls[0], node);
      }
    }
  }

  /** A file key that a mailbox has held is the key of no inode but the one it named. */
  lemma KeyOfNamed(s: State, calls: seq<Call>, k: nat, l: nat, j: Id, node: MailboxNode)
    requires Inv(s) && InCustody(s) && k <= |calls| && l <= |calls|
    requires InodeUnderKey(At(s, calls, k).heap, MailboxNode(node.fileKey, j)) && NodeFrom(At(s, calls, l), node)
    ensures j == node.inode
  {
    hide Inv, Run, At;
    AtSound(s, calls, k);
    AtSound(s, calls, l);
    FileKeyOld(At(s, calls, k), j);
    UsersIn(At(s, calls, l));
    if k <= l {
      Between(s, calls, k, l);
      NodeOrigin(At(s, calls, k), calls[k..l], node);
    } else {
      Between(s, calls, l, k);
      InodeOrigin(At(s, calls, l), calls[l..k], j);
      var m :| IsMailbox(At(s, calls, l).heap, m) && MailboxAt(At(s, calls, l).heap, m) == node;
      assert MailboxOk(At(s, calls, l), m);
    }
  }

  /** Under the file key in a mailbox opens, of all that was ever stored, exactly what was
      the inode that the mailbox names, or a block of it, while it had that key. */
  lemma PartServed(s: State, calls: seq<Call>, h: Heap, m: Id, id: Id)
    requires Inv(s) && InCustody(s) && Replays(s, calls, h) && ServesMailbox(s, calls, h, m)
    ensures IsMailbox(h, m)
    ensures UnderFileKey(h, id, MailboxAt(h, m).fileKey) <==> ServesPart(s, calls, h, MailboxAt(h, m), id)
  {
    hide Inv, Run, At, InCustody;
    var l :| 0 <= l <= |calls| && IsMailbox(At(s, calls, l).heap, m) && ServedAs(At(s, calls, l).heap, h, m, m);
    var node := MailboxAt(h, m);
    assert MailboxAt(At(s, calls, l).heap, m) == node;
    assert NodeFrom(At(s, calls, l), node);
    if ServesPart(s, calls, h, node, id) {
      var k, b :| 0 <= k <= |calls| && InodeUnderKey(At(s, calls, k).heap, node) &&
        (b == node.inode || b in InodeAt(At(s, calls, k).heap, node.inode).blocks) && ServedAs(At(s, calls, k).heap, h, b, id);
      InodeFacts(At(s, calls, k), node.inode);
    } else if UnderFileKey(h, id, node.fileKey) {
      assert Replayed(s, calls, h, id);
      var k, b :| 0 <= k <= |calls| && ServedAs(At(s, calls, k).heap, h, b, id);
      AtSound(s, calls, k);
      var i := PartOf(At(s, calls, k), b);
      KeyOfNamed(s, calls, k, l, i, node);
    }
  }

  /** The inode that a block is listed in, or that an inode is. */
  lemma PartOf(s: State, b: Id) returns (i: Id)
    requires Inv(s) && InCustody(s) && (IsBlock(s.heap, b) || IsInode(s.heap, b))
    ensures IsInode(s.heap, i) && (b == i || b in InodeAt(s.heap, i).blocks) && s.heap[b].key == s.heap[i].key
  {
    hide Inv, RecordsHeld, BoxesHeld, MailKeysApart, KeyNamesInode;
    UsersIn(s);
    if IsInode(s.heap, b) {
      i := b;
    } else {
      i :| IsInode(s.heap, i) && b in InodeAt(s.heap, i).blocks;
    }
    InodeFacts(s, i);
  }

  /** Exactly when a load succeeds, and with what, if the server may serve any payload that
      was ever stored, at any id: the name's record must be one that this name, or an alias
      with the same personal key, had; the mailbox one that was stored where that record
      points; and the inode, and each block that it lists, must be parts that the mailbox's
      file had under the mailbox's key. Neither their order, nor their number, nor their age,
      nor even which of them is the inode, is checked. */
  lemma ReplayedLoad(s: State, calls: seq<Call>, ses: Session, f: string, h: Heap, json: Json)
    requires Inv(s) && InCustody(s) && Genuine(Run(s, calls), ses) && Replays(s, calls, h)
    ensures var (p, r) := ((ses.creds.username, f), LoadServed(h, ses, f, json));
            && (r.Ok? <==>
                 && ServesName(s, calls, h, p)
                 && ServesMailbox(s, calls, h, AccessAt(h, SlotOf(p)).mailbox)
                 && var node := MailboxAt(h, AccessAt(h, SlotOf(p)).mailbox);
                 && ServesPart(s, calls, h, node, node.inode)
                 && var inode := json.parse(BytesAt(h, node.inode, json));
                 && inode.Some?
                 && forall j :: 0 <= j < |inode.value.blocks| ==> ServesPart(s, calls, h, node, inode.value.blocks[j]))
            && (r.Ok? ==>
                  var node := MailboxAt(h, AccessAt(h, SlotOf(p)).mailbox);
                  r.value == Flatten(AllBytes(h, json.parse(BytesAt(h, node.inode, json)).value.blocks, json)))
  {
    hide Inv, Run, InCustody, AccessId, OpenAccess, OpenMailbox, Replays, ServesName, ServesMailbox, ServesPart, AllBytes,
      Genuine, ReadAll;
    var p := (ses.creds.username, f);
    NameServed(s, calls, ses, f, h);
    if OpenAccess(h, ses, f).Ok? {
      MailboxServed(s, calls, h, p);
      var m := AccessAt(h, SlotOf(p)).mailbox;
      if ServesMailbox(s, calls, h, m) {
        var node := MailboxAt(h, m);
        PartServed(s, calls, h, m, node.inode);
        if UnderFileKey(h, node.inode, node.fileKey) && json.parse(BytesAt(h, node.inode, json)).Some? {
          var blocks := json.parse(BytesAt(h, node.inode, json)).value.blocks;
          ReadAllExact(h, blocks, node.fileKey, json);
          forall j | 0 <= j < |blocks|
            ensures UnderFileKey(h, blocks[j], node.fileKey) <==> ServesPart(s, calls, h, node, blocks[j])
          {
            PartServed(s, calls, h, m, blocks[j]);
          }
        }
      }
    }
  }

  // ---- Logging in

  /** In the place of the user record of `n` is served one that it had at some time. */
  ghost predicate ServesUser(s: State, calls: seq<Call>, h: Heap, n: string, k: nat)
    requires Inv(s)
  {
    k <= |calls| && Registered(At(s, calls, k), n) && ServedAs(At(s, calls, k).heap, h, UserId(n), UserId(n))
  }

  /** Exactly when a login succeeds on such a server: with the password of registration, on
      any version of the user's own record. The session is good, with that version's table. */
  lemma ReplayedLogin(s: State, calls: seq<Call>, h: Heap, n: string, password: string)
    requires Inv(s) && Replays(s, calls, h)
    ensures GetUser(Run(s, calls).(heap := h), n, password).Ok? <==>
              exists k :: ServesUser(s, calls, h, n, k) && PasswordOf(At(s, calls, k), n) == Some(password)
    ensures GetUser(Run(s, calls).(heap := h), n, password).Ok? ==>
              var ses := GetUser(Run(s, calls).(heap := h), n, password).value;
              && Genuine(Run(s, calls), ses) && ses.creds.username == n
              && UserId(n) in h && h[UserId(n)].UserBlob? && h[UserId(n)].body == UserPlain(ses.creds, ses.files)
  {
    hide Inv, Run, At, UserOk;
    var r := GetUser(Run(s, calls).(heap := h), n, password);
    if r.Ok? {
      assert Replayed(s, calls, h, UserId(n));
      var k, j :| 0 <= k <= |calls| && ServedAs(At(s, calls, k).heap, h, j, UserId(n));
      UserRecord(At(s, calls, k), j);
      assert ServesUser(s, calls, h, n, k);
      Latest(s, calls, k);
      CredentialsThroughRun(At(s, calls, k), calls[k..], n);
      GoodSession(At(s, calls, k), Run(s, calls), n, r.value);
    }
    if k :| ServesUser(s, calls, h, n, k) && PasswordOf(At(s, calls, k), n) == Some(password) {
      RecordOpens(At(s, calls, k), Run(s, calls).(heap := h), n, password);
    }
  }

  lemma RecordOpens(s: State, t: State, n: string, password: string)
    requires Inv(s) && Registered(s, n) && PasswordOf(s, n) == Some(password)
    requires ServedAs(s.heap, t.heap, UserId(n), UserId(n))
    ensures GetUser(t, n, password).Ok?
  {
    hide Inv;
    KnownUser(s, n);
    UserRecord(s, UserId(n));
    UserIdsInjective();
  }

  ghost function PasswordOf(s: State, n: string): Option<string>
    requires Inv(s)
  {
    if Registered(s, n) then KnownUser(s, n); Some(Cred(s, n).master.password) else None
  }

  lemma UserRecord(s: State, id: Id)
    requires Inv(s) && id in s.heap && s.heap[id].UserBlob?
    ensures s.heap[id].body.UserPlain?
    ensures var creds := s.heap[id].body.creds;
            && id == UserId(creds.username) && PasswordOf(s, creds.username) == Some(creds.master.password)
            && s.heap[id].key == UserKeys(creds.master) && s.heap[id].salt == creds.master.salt
  {
    hide DistinctUsers, Mailboxes, Accesses, Boxes, Inodes, OwnKeys;
    assert WellPlaced(s, id);
    assert Registered(s, s.heap[id].body.creds.username) && UserOk(s, s.heap[id].body.creds.username);
  }

  lemma GoodSession(s: State, t: State, n: string, ses: Session)
    requires Inv(s) && Inv(t) && Registered(s, n) && Registered(t, n) && UserOk(s, n) && UserOk(t, n) && Cred(t, n) == Cred(s, n)
    requires ses.creds == Cred(s, n) && ses.salt == s.heap[UserId(n)].salt
    ensures Genuine(t, ses)
  {
  }
}
