/** What each operation of service.go does to the datastore, in closed form.
    `Client.dfy` proves the step-by-step methods equal to these functions. */
module Services {
  import opened Basics
  import opened Ids
  import opened Blocks
  import opened Records

  /** Datastore, key store and the number of random draws made so far. */
  datatype State = State(heap: Heap, keys: map<string, RawKey>, next: nat)

  /** A logged-in user object; `files` is its own copy of the name table. */
  datatype Session = Session(creds: Credentials, salt: nat, files: map<string, Id>)

  const EMPTY := State(map[], map[], 0)

  /** A session that `InitUser` or `GetUser` could have returned, with any name table. */
  predicate Genuine(s: State, ses: Session) {
    var id := UserId(ses.creds.username);
    && id in s.heap
    && s.heap[id].UserBlob?
    && s.heap[id].salt == ses.salt
    && s.heap[id].body.UserPlain?
    && s.heap[id].body.creds == ses.creds
  }

  function SaveUser(h: Heap, ses: Session): Heap {
    h[UserId(ses.creds.username) := UserBlob(ses.salt, UserKeys(ses.creds.master), UserPlain(ses.creds, ses.files))]
  }

  function Named(ses: Session, filename: string): Session {
    ses.(files := ses.files[filename := AccessId(ses.creds.username, filename)])
  }

  function InitUser(s: State, username: string, password: string): (State, Result<Session, Error>) {
    if UserId(username) in s.heap then (s, Err(AlreadyExists))
    else
      var salt, enc, sig := s.next, s.next + 1, s.next + 2;
      var ses := Session(Credentials(username, enc, sig, Master(password, salt)), salt, map[]);
      (State(SaveUser(s.heap, ses), s.keys[EncName(username) := enc][SigName(username) := sig], s.next + 3), Ok(ses))
  }

  function GetUser(s: State, username: string, password: string): Result<Session, Error> {
    if UserId(username) !in s.heap then Err(NotFound)
    else
      var payload := s.heap[UserId(username)];
      if !payload.UserBlob? then Err(Malformed)
      else if payload.key != UserKeys(Master(password, payload.salt)) then Err(BadSeal)
      else if !payload.body.UserPlain? then Err(Malformed)
      else if payload.body.creds.username != username then Err(WrongUser)
      else Ok(Session(payload.body.creds, payload.salt, payload.body.files))
  }

  /** The common walk: access record, then mailbox, then inode. */
  function OpenAccess(h: Heap, ses: Session, filename: string): Result<Access, Error> {
    var slot := AccessId(ses.creds.username, filename);
    if slot !in h then Err(NotFound)
    else
      match Open(h[slot], PersonalKey(ses.creds.master, filename))
      case Err(e) => Err(e)
      case Ok(body) => if body.AccessPlain? then Ok(body.access) else Err(Malformed)
  }

  function OpenMailbox(h: Heap, mailbox: Id, key: RawKey): Result<MailboxNode, Error> {
    if mailbox !in h then Err(MailboxMissing)
    else
      match Open(h[mailbox], MailKeys(key))
      case Err(e) => Err(e)
      case Ok(body) => if body.MailboxPlain? then Ok(body.mailbox) else Err(Malformed)
  }

  function OpenInode(h: Heap, node: MailboxNode): Result<Inode, Error> {
    if node.inode !in h then Err(InodeMissing)
    else
      match Open(h[node.inode], FileKeys(node.fileKey))
      case Err(e) => Err(e)
      case Ok(body) => if body.InodePlain? then Ok(body.inode) else Err(Malformed)
  }

  function OpenBlock(h: Heap, id: Id, key: SymKey): Result<Bytes, Error> {
    if id !in h then Err(BlockMissing)
    else
      match Open(h[id], key)
      case Err(e) => Err(e)
      case Ok(body) => if body.BlockPlain? then Ok(body.bytes) else Err(Malformed)
  }

  datatype Walk = Walk(access: Access, node: MailboxNode, inode: Inode)

  function WalkMailbox(h: Heap, ses: Session, filename: string): Result<(Access, MailboxNode), Error> {
    match OpenAccess(h, ses, filename)
    case Err(e) => Err(e)
    case Ok(access) =>
      match OpenMailbox(h, access.mailbox, access.key)
      case Err(e) => Err(e)
      case Ok(node) => Ok((access, node))
  }

  function WalkInode(h: Heap, ses: Session, filename: string): Result<Walk, Error> {
    match WalkMailbox(h, ses, filename)
    case Err(e) => Err(e)
    case Ok((access, node)) =>
      match OpenInode(h, node)
      case Err(e) => Err(e)
      case Ok(inode) => Ok(Walk(access, node, inode))
  }

  /** Read and join blocks until one fails. */
  function ReadBlocks(h: Heap, blocks: seq<Id>, key: SymKey): Result<Bytes, Error> {
    if blocks == [] then Ok([])
    else
      match OpenBlock(h, blocks[0], key)
      case Err(e) => Err(e)
      case Ok(bytes) =>
        match ReadBlocks(h, blocks[1..], key)
        case Err(e) => Err(e)
        case Ok(rest) => Ok(bytes + rest)
  }

  function LoadFile(s: State, ses: Session, filename: string): Result<Bytes, Error> {
    match WalkInode(s.heap, ses, filename)
    case Err(e) => Err(e)
    case Ok(w) => ReadBlocks(s.heap, w.inode.blocks, FileKeys(w.node.fileKey))
  }

  /** `n` consecutive draws from the supply. */
  function FreshIds(base: nat, n: nat): (ids: seq<Id>)
    ensures |ids| == n
    ensures forall j :: 0 <= j < n ==> ids[j] == Random(base + j)
  {
    seq(n, j requires 0 <= j < n => Random(base + j))
  }

  /** `chunks[j]` sealed at draw `base + j`. */
  function SealedBlocks(base: nat, chunks: seq<Bytes>, key: SymKey): Heap {
    map id: Id | id in FreshIds(base, |chunks|) :: Sealed(key, BlockPlain(chunks[SerialOf(id) - base]))
  }

  function SerialOf(id: Id): nat {
    if id.Random? then id.serial else 0
  }

  function StoreFile(s: State, ses: Session, filename: string, content: Bytes): State {
    var fileKey, inode := s.next, Random(s.next + 1);
    var mailbox, mailboxKey := Random(s.next + 2), s.next + 3;
    var base := s.next + 4;
    var chunks := Chunk(content);
    var h := s.heap
      [mailbox := Sealed(MailKeys(mailboxKey), MailboxPlain(MailboxNode(fileKey, inode)))]
      [AccessId(ses.creds.username, filename) :=
        Sealed(PersonalKey(ses.creds.master, filename), AccessPlain(Access(mailbox, mailboxKey, map[])))];
    var h' := (h + SealedBlocks(base, chunks, FileKeys(fileKey)))
      [inode := Sealed(FileKeys(fileKey), InodePlain(Inode(|content|, FreshIds(base, |chunks|))))];
    State(SaveUser(h', Named(ses, filename)), s.keys, base + |chunks|)
  }

  function AppendToFile(s: State, ses: Session, filename: string, content: Option<Bytes>): (State, Result<(), Error>) {
    if content.None? then (s, Err(NilContent))
    else
      match WalkInode(s.heap, ses, filename)
      case Err(e) => (s, Err(e))
      case Ok(w) => (State(Appended(s.heap, w, s.next, content.value), s.keys, s.next + |Chunk(content.value)|), Ok(()))
  }

  function Appended(h: Heap, w: Walk, base: nat, content: Bytes): Heap {
    var key := FileKeys(w.node.fileKey);
    var chunks := Chunk(content);
    var inode := Inode(w.inode.size + |content|, w.inode.blocks + FreshIds(base, |chunks|));
    (h + SealedBlocks(base, chunks, key))[w.node.inode := Sealed(key, InodePlain(inode))]
  }

  function CreateInvitation(s: State, ses: Session, filename: string, recipient: string): (State, Result<Id, Error>) {
    match WalkMailbox(s.heap, ses, filename)
    case Err(e) => (s, Err(e))
    case Ok((access, node)) =>
      var mailbox, key, pointer := Random(s.next), s.next + 1, Random(s.next + 2);
      var h := s.heap[mailbox := Sealed(MailKeys(key), MailboxPlain(node))];
      if EncName(recipient) !in s.keys then (State(h, s.keys, s.next + 2), Err(NoRecipient))
      else
        var shared := access.(children := access.children[recipient := ChildrenInfo(mailbox, key)]);
        var h' := h
          [pointer := SignedBox(s.keys[EncName(recipient)], Invitation(mailbox, key), ses.creds.sigKey)]
          [AccessId(ses.creds.username, filename) :=
            Sealed(PersonalKey(ses.creds.master, filename), AccessPlain(shared))];
        (State(h', s.keys, s.next + 3), Ok(pointer))
  }

  /** Signature first, then the box. */
  function OpenInvitation(s: State, ses: Session, sender: string, pointer: Id): Result<Invitation, Error> {
    if pointer !in s.heap then Err(NotFound)
    else if SigName(sender) !in s.keys then Err(NoSender)
    else
      var payload := s.heap[pointer];
      if !payload.SignedBox? || payload.signer != s.keys[SigName(sender)] then Err(BadSignature)
      else if payload.recipient != ses.creds.encKey then Err(NotForUser)
      else Ok(payload.invitation)
  }

  function AcceptInvitation(s: State, ses: Session, sender: string, pointer: Id, filename: string): (State, Result<(), Error>) {
    match OpenInvitation(s, ses, sender, pointer)
    case Err(e) => (s, Err(e))
    case Ok(inv) =>
      var h := s.heap[AccessId(ses.creds.username, filename) :=
        Sealed(PersonalKey(ses.creds.master, filename), AccessPlain(Access(inv.mailbox, inv.key, map[])))];
      (s.(heap := SaveUser(h, Named(ses, filename))), Ok(()))
  }

  /** The mailboxes whose file key `RevokeAccess` replaces in place. */
  function Kept(access: Access, recipient: string): set<Id> {
    set c | c in access.children && c != recipient :: access.children[c].mailbox
  }

  /** The blocks of `blocks` sealed again under `key`, at the same ids. */
  function Resealed(h: Heap, blocks: seq<Id>, key: SymKey): Heap {
    map id | id in blocks && IsBlock(h, id) :: Sealed(key, h[id].body)
  }

  /** Mailboxes handed the file key `fileKey`; their own seals stay. */
  function Refreshed(h: Heap, mailboxes: set<Id>, fileKey: RawKey): Heap {
    map id | id in mailboxes && IsMailbox(h, id) ::
      Sealed(h[id].key, MailboxPlain(MailboxAt(h, id).(fileKey := fileKey)))
  }

  /** The replacement file key is drawn before the inode is read. */
  function RevokeAccess(s: State, ses: Session, filename: string, recipient: string): (State, Result<(), Error>) {
    match WalkMailbox(s.heap, ses, filename)
    case Err(e) => (s, Err(e))
    case Ok((access, node)) =>
      match OpenInode(s.heap, node)
      case Err(e) => (s.(next := s.next + 1), Err(e))
      case Ok(inode) =>
        var h := Rekeyed(s, ses, filename, recipient, Walk(access, node, inode));
        (State(SaveUser(h, Named(ses, filename)), s.keys, s.next + 3), Ok(()))
  }

  /** All blocks, the inode and a new mailbox of the revoker under the new key. */
  function Secured(s: State, w: Walk): Heap {
    var fileKey, mailboxKey, mailbox := s.next, s.next + 1, Random(s.next + 2);
    (s.heap + Resealed(s.heap, w.inode.blocks, FileKeys(fileKey)))
      [w.node.inode := Sealed(FileKeys(fileKey), InodePlain(w.inode))]
      [mailbox := Sealed(MailKeys(mailboxKey), MailboxPlain(MailboxNode(fileKey, w.node.inode)))]
  }

  function Rekeyed(s: State, ses: Session, filename: string, recipient: string, w: Walk): Heap {
    var h := Secured(s, w);
    (h + Refreshed(h, Kept(w.access, recipient), s.next))
      [AccessId(ses.creds.username, filename) := Sealed(PersonalKey(ses.creds.master, filename),
        AccessPlain(Access(Random(s.next + 2), s.next + 1, w.access.children - {recipient})))]
  }

  /** All that a revocation can leave when it fails with `e`, on whatever datastore: nothing
      changed, if the walk fails; some blocks re-keyed, up to one that does not open; or
      everything but the revoker's access record and some kept children, among them one
      that does not open. */
  ghost predicate StoppedRevoking(s: State, ses: Session, filename: string, recipient: string, g: Heap, e: Error) {
    match WalkInode(s.heap, ses, filename)
    case Err(walk) => g == s.heap && e == walk
    case Ok(w) =>
      || (exists n :: 0 <= n < |w.inode.blocks| && StoppedAtBlock(s, w, g, e, n))
      || (exists done, c :: StoppedAtChild(s, w, recipient, g, e, done, c))
  }

  ghost predicate StoppedAtBlock(s: State, w: Walk, g: Heap, e: Error, n: nat)
    requires n < |w.inode.blocks|
  {
    && g == s.heap + Resealed(s.heap, w.inode.blocks[..n], FileKeys(s.next))
    && OpenBlock(g, w.inode.blocks[n], FileKeys(w.node.fileKey)) == Err(e)
  }

  ghost predicate StoppedAtChild(s: State, w: Walk, recipient: string, g: Heap, e: Error, done: set<Id>, c: string) {
    && done <= Kept(w.access, recipient) && g == Secured(s, w) + Refreshed(Secured(s, w), done, s.next)
    && c in w.access.children && c != recipient
    && OpenMailbox(g, w.access.children[c].mailbox, w.access.children[c].key) == Err(e)
  }
}
