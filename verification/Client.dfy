/** The services as they run: storage calls one at a time (service.go, utils.go `saveUser`,
    the in-memory stores of memory.go). Each method is proved equal to its closed form in
    `Services.dfy`, hence to one operation of the capability file system. */
module Client {
  import opened Basics
  import opened Ids
  import opened Blocks
  import opened Records
  import opened Invariant
  import opened CapabilityFs
  import opened Abstraction
  import opened Frames
  import opened Edits
  import opened Simulation
  import S = Services

  class MemoryStorage {
    var store: Heap

    constructor ()
      ensures store == map[]
    {
      store := map[];
    }

    method Get(key: Id) returns (value: Option<Payload>)
      ensures value == if key in store then Some(store[key]) else None
    {
      value := if key in store then Some(store[key]) else None;
    }

    method Set(key: Id, value: Payload)
      modifies this
      ensures store == old(store)[key := value]
    {
      store := store[key := value];
    }

    method Delete(key: Id)
      modifies this
      ensures store == old(store) - {key}
    {
      store := store - {key};
    }
  }

  class MemoryKeyStore {
    var store: map<string, RawKey>

    constructor ()
      ensures store == map[]
    {
      store := map[];
    }

    method Get(key: string) returns (value: Option<RawKey>)
      ensures value == if key in store then Some(store[key]) else None
    {
      value := if key in store then Some(store[key]) else None;
    }

    method Set(key: string, value: RawKey)
      modifies this
      ensures store == old(store)[key := value]
    {
      store := store[key := value];
    }
  }

  /** A session: fixed credentials and a name table of its own. */
  class User {
    const creds: Credentials
    const salt: nat
    var files: map<string, Id>

    constructor (creds: Credentials, salt: nat, files: map<string, Id>)
      ensures this.creds == creds && this.salt == salt && this.files == files
    {
      this.creds, this.salt, this.files := creds, salt, files;
    }

    ghost function Session(): S.Session
      reads this
    {
      S.Session(creds, salt, files)
    }
  }

  function Prepend(data: Bytes, r: Result<Bytes, Error>): Result<Bytes, Error> {
    if r.Ok? then Ok(data + r.value) else r
  }

  lemma PrependNothing(r: Result<Bytes, Error>)
    ensures Prepend([], r) == r
  {
    assert r.Ok? ==> [] + r.value == r.value;
  }

  lemma PrependTwice(a: Bytes, b: Bytes, r: Result<Bytes, Error>)
    ensures Prepend(a, Prepend(b, r)) == Prepend(a + b, r)
  {
    assert r.Ok? ==> a + (b + r.value) == a + b + r.value;
  }

  class ShareLock {
    const storage: MemoryStorage
    const keyStore: MemoryKeyStore
    var draws: nat

    constructor ()
      ensures fresh(storage) && fresh(keyStore) && Now() == S.EMPTY && Inv(Now())
    {
      storage := new MemoryStorage();
      keyStore := new MemoryKeyStore();
      draws := 0;
    }

    ghost function Now(): S.State
      reads this, storage, keyStore
    {
      S.State(storage.store, keyStore.store, draws)
    }

    method RandomBytes() returns (key: RawKey)
      modifies this
      ensures key == old(draws) && draws == old(draws) + 1
    {
      key := draws;
      draws := draws + 1;
    }

    method NewUuid() returns (id: Id)
      modifies this
      ensures id == Random(old(draws)) && draws == old(draws) + 1
    {
      id := Random(draws);
      draws := draws + 1;
    }

    method SaveUser(user: User)
      modifies storage
      ensures storage.store == S.SaveUser(old(storage.store), user.Session())
    {
      storage.Set(UserId(user.creds.username),
        UserBlob(user.salt, UserKeys(user.creds.master), UserPlain(user.creds, user.files)));
    }

    method InitUser(username: string, password: string) returns (r: Result<User, Error>)
      modifies this, storage, keyStore
      ensures var (t, expected) := S.InitUser(old(Now()), username, password);
              && Now() == t
              && match expected
                 case Ok(ses) => r.Ok? && fresh(r.value) && r.value.Session() == ses && S.Genuine(t, ses)
                 case Err(e) => r == Err(e)
      ensures r.Ok? ==> r.value.files == map[]
      ensures old(Inv(Now())) ==> Simulates(old(Now()), Now(), Init(username, password), r.Ok?)
    {
      hide Inv, Abs, Simulates, EncName, SigName, UserId;
      ghost var before := Now();
      var present := storage.Get(UserId(username));
      if present.Some? {
        r := Err(AlreadyExists);
      } else {
        var salt := RandomBytes();
        var master := Master(password, salt);
        var enc := RandomBytes();
        var sig := RandomBytes();
        keyStore.Set(EncName(username), enc);
        keyStore.Set(SigName(username), sig);
        var user := new User(Credentials(username, enc, sig, master), salt, map[]);
        SaveUser(user);
        r := Ok(user);
      }
      if Inv(before) {
        InitSim(before, username, password);
      }
    }

    method GetUser(username: string, password: string) returns (r: Result<User, Error>)
      ensures match S.GetUser(Now(), username, password)
              case Ok(ses) => r.Ok? && fresh(r.value) && r.value.Session() == ses && S.Genuine(Now(), ses)
              case Err(e) => r == Err(e)
    {
      var payload := storage.Get(UserId(username));
      if payload.None? {
        return Err(NotFound);
      }
      if !payload.value.UserBlob? {
        return Err(Malformed);
      }
      var master := Master(password, payload.value.salt);
      if payload.value.key != UserKeys(master) {
        return Err(BadSeal);
      }
      if !payload.value.body.UserPlain? {
        return Err(Malformed);
      }
      if payload.value.body.creds.username != username {
        return Err(WrongUser);
      }
      var user := new User(payload.value.body.creds, payload.value.salt, payload.value.body.files);
      r := Ok(user);
    }

    /** The steps that every operation on a name begins with. */
    method ReadMailbox(user: User, filename: string) returns (r: Result<(Access, MailboxNode), Error>)
      ensures r == S.WalkMailbox(storage.store, user.Session(), filename)
    {
      var payload := storage.Get(AccessId(user.creds.username, filename));
      if payload.None? {
        return Err(NotFound);
      }
      var unsealed := Open(payload.value, PersonalKey(user.creds.master, filename));
      if unsealed.Err? {
        return Err(unsealed.error);
      }
      if !unsealed.value.AccessPlain? {
        return Err(Malformed);
      }
      var access := unsealed.value.access;
      var node := ReadNode(access.mailbox, access.key);
      r := if node.Err? then Err(node.error) else Ok((access, node.value));
    }

    method ReadNode(mailbox: Id, key: RawKey) returns (r: Result<MailboxNode, Error>)
      ensures r == S.OpenMailbox(storage.store, mailbox, key)
    {
      var payload := storage.Get(mailbox);
      if payload.None? {
        return Err(MailboxMissing);
      }
      var node := Open(payload.value, MailKeys(key));
      if node.Err? {
        return Err(node.error);
      }
      if !node.value.MailboxPlain? {
        return Err(Malformed);
      }
      r := Ok(node.value.mailbox);
    }

    method ReadInode(node: MailboxNode) returns (r: Result<Inode, Error>)
      ensures r == S.OpenInode(storage.store, node)
    {
      var payload := storage.Get(node.inode);
      if payload.None? {
        return Err(InodeMissing);
      }
      var unsealed := Open(payload.value, FileKeys(node.fileKey));
      if unsealed.Err? {
        return Err(unsealed.error);
      }
      if !unsealed.value.InodePlain? {
        return Err(Malformed);
      }
      r := Ok(unsealed.value.inode);
    }

    method ReadBlock(id: Id, key: SymKey) returns (r: Result<Bytes, Error>)
      ensures r == S.OpenBlock(storage.store, id, key)
    {
      var payload := storage.Get(id);
      if payload.None? {
        return Err(BlockMissing);
      }
      var unsealed := Open(payload.value, key);
      if unsealed.Err? {
        return Err(unsealed.error);
      }
      if !unsealed.value.BlockPlain? {
        return Err(Malformed);
      }
      r := Ok(unsealed.value.bytes);
    }

    method LoadFile(user: User, filename: string) returns (r: Result<Bytes, Error>)
      ensures r == S.LoadFile(Now(), user.Session(), filename)
      ensures Inv(Now()) && S.Genuine(Now(), user.Session()) ==>
                View(Abs(Now()), (user.creds.username, filename)) == if r.Ok? then Some(r.value) else None
    {
      hide Inv, Abs, View;
      if Inv(Now()) && S.Genuine(Now(), user.Session()) {
        LoadExact(Now(), user.Session(), filename);
      }
      var mail := ReadMailbox(user, filename);
      if mail.Err? {
        return Err(mail.error);
      }
      var node := mail.value.1;
      var inode := ReadInode(node);
      if inode.Err? {
        return Err(inode.error);
      }
      var key := FileKeys(node.fileKey);
      var blocks := inode.value.blocks;
      var data: Bytes := [];
      assert blocks[0..] == blocks;
      PrependNothing(S.ReadBlocks(storage.store, blocks, key));
      for i := 0 to |blocks|
        invariant S.ReadBlocks(storage.store, blocks, key) == Prepend(data, S.ReadBlocks(storage.store, blocks[i..], key))
      {
        var block := ReadBlock(blocks[i], key);
        if block.Err? {
          return Err(block.error);
        }
        assert blocks[i..][1..] == blocks[i + 1..];
        PrependTwice(data, block.value, S.ReadBlocks(storage.store, blocks[i + 1..], key));
        data := data + block.value;
      }
      assert data + [] == data;
      r := Ok(data);
    }

    /** Split, seal and store content; both `StoreFile` and `AppendToFile` do this. */
    method WriteBlocks(content: Bytes, key: SymKey) returns (ids: seq<Id>)
      modifies this, storage
      ensures storage.store == old(storage.store) + S.SealedBlocks(old(draws), Chunk(content), key)
      ensures ids == S.FreshIds(old(draws), |Chunk(content)|) && draws == old(draws) + |Chunk(content)|
    {
      hide S.SealedBlocks, Chunk;
      var blocks := ByteToBlock(content);
      ids := [];
      ghost var h, base := storage.store, draws;
      NothingSealed(h, base, blocks, key);
      for i := 0 to |blocks|
        invariant draws == base + i && ids == S.FreshIds(base, i)
        invariant storage.store == h + S.SealedBlocks(base, blocks[..i], key)
      {
        var id := NewUuid();
        storage.Set(id, Sealed(key, BlockPlain(blocks[i])));
        SealedBlocksSnoc(h, base, blocks, i, key);
        ids := ids + [id];
      }
      assert blocks[..|blocks|] == blocks;
    }

    method StoreFile(user: User, filename: string, content: Bytes)
      modifies this, storage, user
      ensures Now() == S.StoreFile(old(Now()), old(user.Session()), filename, content)
      ensures user.Session() == S.Named(old(user.Session()), filename)
      ensures user.files == old(user.files)[filename := AccessId(user.creds.username, filename)]
      ensures old(Inv(Now()) && S.Genuine(Now(), user.Session())) ==>
                Simulates(old(Now()), Now(), Store(user.creds.username, filename, content), true) && S.Genuine(Now(), user.Session())
    {
      hide Inv, Abs, Simulates, S.Genuine, S.SealedBlocks, S.SaveUser, S.FreshIds, AccessId, UserId, Chunk;
      ghost var before, ses := Now(), user.Session();
      var fileKey := RandomBytes();
      var inodeId := NewUuid();
      var mailboxId := NewUuid();
      var mailboxKey := RandomBytes();
      storage.Set(mailboxId, Sealed(MailKeys(mailboxKey), MailboxPlain(MailboxNode(fileKey, inodeId))));
      var slot := AccessId(user.creds.username, filename);
      storage.Set(slot, Sealed(PersonalKey(user.creds.master, filename), AccessPlain(Access(mailboxId, mailboxKey, map[]))));
      var ids := WriteBlocks(content, FileKeys(fileKey));
      storage.Set(inodeId, Sealed(FileKeys(fileKey), InodePlain(Inode(|content|, ids))));
      user.files := user.files[filename := slot];
      SaveUser(user);
      if Inv(before) && S.Genuine(before, ses) {
        StoreSim(before, ses, filename, content);
        StaysGenuine(before, Now(), Store(user.creds.username, filename, content), true, ses);
      }
    }

    method AppendToFile(user: User, filename: string, content: Option<Bytes>) returns (r: Result<(), Error>)
      modifies this, storage
      ensures (Now(), r) == S.AppendToFile(old(Now()), user.Session(), filename, content)
      ensures old(Inv(Now()) && S.Genuine(Now(), user.Session())) ==>
                Simulates(old(Now()), Now(), Append(user.creds.username, filename, content), r.Ok?) && S.Genuine(Now(), user.Session())
    {
      hide Inv, Abs, Simulates, S.Genuine, S.SealedBlocks;
      if Inv(Now()) && S.Genuine(Now(), user.Session()) {
        AppendSim(Now(), user.Session(), filename, content);
        ghost var (t, result) := S.AppendToFile(Now(), user.Session(), filename, content);
        StaysGenuine(Now(), t, Append(user.creds.username, filename, content), result.Ok?, user.Session());
      }
      if content.None? {
        return Err(NilContent);
      }
      var mail := ReadMailbox(user, filename);
      if mail.Err? {
        return Err(mail.error);
      }
      var node := mail.value.1;
      var inode := ReadInode(node);
      if inode.Err? {
        return Err(inode.error);
      }
      var key := FileKeys(node.fileKey);
      var ids := WriteBlocks(content.value, key);
      var longer := Inode(inode.value.size + |content.value|, inode.value.blocks + ids);
      storage.Set(node.inode, Sealed(key, InodePlain(longer)));
      r := Ok(());
    }

    /** The names in the session's table, in whatever order the map yields them. */
    method ListFiles(user: User) returns (names: seq<string>)
      ensures forall f :: f in names <==> f in user.files
      ensures |names| == |user.files|
    {
      names := [];
      var pending := user.files.Keys;
      while pending != {}
        invariant pending <= user.files.Keys && |names| + |pending| == |user.files.Keys|
        invariant forall f :: f in names <==> f in user.files.Keys - pending
        decreases pending
      {
        var f :| f in pending;
        names := names + [f];
        pending := pending - {f};
      }
    }

    method CreateInvitation(user: User, filename: string, recipient: string) returns (r: Result<Id, Error>)
      modifies this, storage
      ensures (Now(), r) == S.CreateInvitation(old(Now()), user.Session(), filename, recipient)
      ensures old(Inv(Now()) && S.Genuine(Now(), user.Session())) ==>
                Simulates(old(Now()), Now(), Invite(user.creds.username, filename, recipient), r.Ok?) && S.Genuine(Now(), user.Session())
    {
      hide Inv, Abs, Simulates, S.Genuine;
      if Inv(Now()) && S.Genuine(Now(), user.Session()) {
        InviteSim(Now(), user.Session(), filename, recipient);
        ghost var (t, result) := S.CreateInvitation(Now(), user.Session(), filename, recipient);
        StaysGenuine(Now(), t, Invite(user.creds.username, filename, recipient), result.Ok?, user.Session());
      }
      var mail := ReadMailbox(user, filename);
      if mail.Err? {
        return Err(mail.error);
      }
      var (access, node) := mail.value;
      var mailboxId := NewUuid();
      var mailboxKey := RandomBytes();
      storage.Set(mailboxId, Sealed(MailKeys(mailboxKey), MailboxPlain(MailboxNode(node.fileKey, node.inode))));
      var recipientKey := keyStore.Get(EncName(recipient));
      if recipientKey.None? {
        return Err(NoRecipient);
      }
      var box := SignedBox(recipientKey.value, Invitation(mailboxId, mailboxKey), user.creds.sigKey);
      var pointer := NewUuid();
      storage.Set(pointer, box);
      access := access.(children := access.children[recipient := ChildrenInfo(mailboxId, mailboxKey)]);
      storage.Set(AccessId(user.creds.username, filename),
        Sealed(PersonalKey(user.creds.master, filename), AccessPlain(access)));
      r := Ok(pointer);
    }

    method AcceptInvitation(user: User, sender: string, pointer: Id, filename: string) returns (r: Result<(), Error>)
      modifies storage, user
      ensures (Now(), r) == S.AcceptInvitation(old(Now()), old(user.Session()), sender, pointer, filename)
      ensures user.Session() == if r.Ok? then S.Named(old(user.Session()), filename) else old(user.Session())
      ensures user.files == if r.Ok? then old(user.files)[filename := AccessId(user.creds.username, filename)] else old(user.files)
      ensures old(Inv(Now()) && S.Genuine(Now(), user.Session())) ==>
                Simulates(old(Now()), Now(), Accept(user.creds.username, sender, pointer, filename), r.Ok?) && S.Genuine(Now(), user.Session())
    {
      hide Inv, Abs, Simulates, S.Genuine;
      if Inv(Now()) && S.Genuine(Now(), user.Session()) {
        AcceptSim(Now(), user.Session(), sender, pointer, filename);
        ghost var (t, result) := S.AcceptInvitation(Now(), user.Session(), sender, pointer, filename);
        StaysGenuine(Now(), t, Accept(user.creds.username, sender, pointer, filename), result.Ok?, user.Session());
      }
      var payload := storage.Get(pointer);
      if payload.None? {
        return Err(NotFound);
      }
      var verifyKey := keyStore.Get(SigName(sender));
      if verifyKey.None? {
        return Err(NoSender);
      }
      if !payload.value.SignedBox? || payload.value.signer != verifyKey.value {
        return Err(BadSignature);
      }
      if payload.value.recipient != user.creds.encKey {
        return Err(NotForUser);
      }
      var inv := payload.value.invitation;
      var slot := AccessId(user.creds.username, filename);
      storage.Set(slot, Sealed(PersonalKey(user.creds.master, filename),
        AccessPlain(Access(inv.mailbox, inv.key, map[]))));
      user.files := user.files[filename := slot];
      SaveUser(user);
      r := Ok(());
    }

    /** The block loop of `RevokeAccess`: a prefix under the new key, the rest under the
        old one. On distinct blocks that open, it does not stop half way. */
    method ResealBlocks(blocks: seq<Id>, oldKey: SymKey, newKey: SymKey) returns (r: Result<(), Error>, ghost done: nat)
      modifies storage
      ensures done <= |blocks| && (r.Ok? <==> done == |blocks|)
      ensures storage.store == old(storage.store) + S.Resealed(old(storage.store), blocks[..done], newKey)
      ensures r.Err? ==> S.OpenBlock(storage.store, blocks[done], oldKey) == Err(r.error)
      ensures old(BlocksUnder(storage.store, blocks, oldKey)) ==> r.Ok?
    {
      hide S.Resealed;
      ghost var h := storage.store;
      ResealedNone(h, blocks, newKey);
      for i := 0 to |blocks|
        invariant storage.store == h + S.Resealed(h, blocks[..i], newKey)
      {
        done := i;
        var block := ReadBlock(blocks[i], oldKey);
        ResealedAt(h, blocks, i, oldKey, newKey);
        if block.Err? {
          return Err(block.error), i;
        }
        storage.Set(blocks[i], Sealed(newKey, BlockPlain(block.value)));
        ResealedSnoc(h, blocks, i, newKey);
      }
      assert blocks[..|blocks|] == blocks;
      return Ok(()), |blocks|;
    }

    /** The child loop of `RevokeAccess`, in whatever order the map yields the children. */
    method RefreshChildren(access: Access, recipient: string, fileKey: RawKey)
      returns (r: Result<(), Error>, ghost done: set<Id>, ghost at: string)
      modifies storage
      ensures done <= S.Kept(access, recipient) && (r.Ok? ==> done == S.Kept(access, recipient))
      ensures storage.store == old(storage.store) + S.Refreshed(old(storage.store), done, fileKey)
      ensures r.Err? ==> at in access.children && at != recipient
      ensures r.Err? ==> S.OpenMailbox(storage.store, access.children[at].mailbox, access.children[at].key) == Err(r.error)
      ensures old(ChildrenUnder(storage.store, access)) ==> r.Ok?
    {
      hide S.Refreshed;
      ghost var h := storage.store;
      var pending := access.children.Keys;
      assert access.children - pending == map[];
      done := {};
      RefreshedNone(h, fileKey);
      while pending != {}
        invariant pending <= access.children.Keys
        invariant done == S.Kept(access.(children := access.children - pending), recipient)
        invariant storage.store == h + S.Refreshed(h, done, fileKey)
        decreases pending
      {
        var c :| c in pending;
        var child := access.children[c];
        KeptGrows(access, pending, c, recipient);
        if c != recipient {
          var node := ReadNode(child.mailbox, child.key);
          RefreshedAt(h, done, child.mailbox, child.key, fileKey);
          if node.Err? {
            KeptPart(access, pending, recipient);
            return Err(node.error), done, c;
          }
          storage.Set(child.mailbox, Sealed(MailKeys(child.key), MailboxPlain(node.value.(fileKey := fileKey))));
          RefreshedSnoc(h, done, child.mailbox, fileKey);
          done := done + {child.mailbox};
        }
        pending := pending - {c};
      }
      assert access.(children := access.children - pending) == access;
      return Ok(()), done, recipient;
    }

    method RevokeAccess(user: User, filename: string, recipient: string) returns (r: Result<(), Error>)
      modifies this, storage, user
      ensures r.Ok? || old(Inv(Now()) && S.Genuine(Now(), user.Session())) ==>
                (Now(), r) == S.RevokeAccess(old(Now()), old(user.Session()), filename, recipient)
      ensures r.Err? ==> S.StoppedRevoking(old(Now()), old(user.Session()), filename, recipient, storage.store, r.error)
      ensures user.Session() == if r.Ok? then S.Named(old(user.Session()), filename) else old(user.Session())
      ensures user.files == if r.Ok? then old(user.files)[filename := AccessId(user.creds.username, filename)] else old(user.files)
      ensures old(Inv(Now()) && S.Genuine(Now(), user.Session())) ==>
                && Simulates(old(Now()), Now(), Revoke(user.creds.username, filename, recipient), r.Ok?)
                && S.Genuine(Now(), user.Session())
                && (r.Err? ==> storage.store == old(storage.store))
    {
      hide Inv, Abs, Simulates, S.Genuine, S.Resealed, S.Refreshed, S.Kept, S.WalkMailbox, S.SaveUser, SameUsers,
        BlocksUnder, ChildrenUnder, AccessId, S.Rekeyed, S.Secured, S.OpenInode, PersonalKey,
        S.OpenBlock, S.OpenMailbox;
      ghost var before, ses := Now(), user.Session();
      ghost var sound := Inv(before) && S.Genuine(before, ses);
      if sound {
        RevokeOutcome(before, ses, filename, recipient);
      }
      var mail := ReadMailbox(user, filename);
      if mail.Err? {
        return Err(mail.error);
      }
      var (access, node) := mail.value;
      var newFileKey := RandomBytes();
      var inode := ReadInode(node);
      if inode.Err? {
        return Err(inode.error);
      }
      ghost var w := S.Walk(access, node, inode.value);
      assert S.WalkInode(before.heap, ses, filename) == Ok(w);
      ghost var n, some, at;
      r, n := ResealBlocks(inode.value.blocks, FileKeys(node.fileKey), FileKeys(newFileKey));
      if r.Err? {
        assert S.StoppedAtBlock(before, w, storage.store, r.error, n);
        return;
      }
      assert inode.value.blocks[..n] == inode.value.blocks;
      storage.Set(node.inode, Sealed(FileKeys(newFileKey), InodePlain(inode.value)));
      var newMailboxKey := RandomBytes();
      var newMailbox := NewUuid();
      storage.Set(newMailbox, Sealed(MailKeys(newMailboxKey), MailboxPlain(MailboxNode(newFileKey, node.inode))));
      SecuredSteps(before, w);
      r, some, at := RefreshChildren(access, recipient, newFileKey);
      if r.Err? {
        assert S.StoppedAtChild(before, w, recipient, storage.store, r.error, some, at);
        return;
      }
      access := Access(newMailbox, newMailboxKey, access.children - {recipient});
      var slot := AccessId(user.creds.username, filename);
      storage.Set(slot, Sealed(PersonalKey(user.creds.master, filename), AccessPlain(access)));
      RekeyedSteps(before, ses, filename, recipient, w);
      user.files := user.files[filename := slot];
      SaveUser(user);
      r := Ok(());
    }
  }

  /** What a revocation promises on a sound state. */
  lemma RevokeOutcome(s: S.State, ses: S.Session, filename: string, recipient: string)
    requires Inv(s) && S.Genuine(s, ses)
    ensures var (t, r) := S.RevokeAccess(s, ses, filename, recipient);
            && Simulates(s, t, Revoke(ses.creds.username, filename, recipient), r.Ok?)
            && S.Genuine(t, ses) && S.Genuine(t, S.Named(ses, filename))
    ensures S.WalkInode(s.heap, ses, filename).Ok? ==>
              var w := S.WalkInode(s.heap, ses, filename).value;
              && BlocksUnder(s.heap, w.inode.blocks, FileKeys(w.node.fileKey))
              && ChildrenUnder(S.Secured(s, w), w.access)
  {
    hide Inv, Simulates, SameUsers, S.Genuine, S.RevokeAccess, S.WalkInode, S.Secured, BlocksUnder, ChildrenUnder;
    RevokeSim(s, ses, filename, recipient);
    var (t, r) := S.RevokeAccess(s, ses, filename, recipient);
    StaysGenuine(s, t, Revoke(ses.creds.username, filename, recipient), r.Ok?, ses);
    if S.WalkInode(s.heap, ses, filename).Ok? {
      RevokeCannotFail(s, ses, filename);
    }
  }

  lemma SecuredSteps(s: S.State, w: S.Walk)
    ensures S.Secured(s, w) ==
            (s.heap + S.Resealed(s.heap, w.inode.blocks, FileKeys(s.next)))
              [w.node.inode := Sealed(FileKeys(s.next), InodePlain(w.inode))]
              [Random(s.next + 2) := Sealed(MailKeys(s.next + 1), MailboxPlain(MailboxNode(s.next, w.node.inode)))]
  {
  }

  lemma RekeyedSteps(s: S.State, ses: S.Session, filename: string, recipient: string, w: S.Walk)
    ensures S.Rekeyed(s, ses, filename, recipient, w) ==
            (S.Secured(s, w) + S.Refreshed(S.Secured(s, w), S.Kept(w.access, recipient), s.next))
              [AccessId(ses.creds.username, filename) := Sealed(PersonalKey(ses.creds.master, filename),
                AccessPlain(Access(Random(s.next + 2), s.next + 1, w.access.children - {recipient})))]
  {
  }

  /** Distinct ids of blocks, all sealed under `key`. */
  ghost predicate BlocksUnder(h: Heap, blocks: seq<Id>, key: SymKey) {
    Distinct(blocks) && forall j :: 0 <= j < |blocks| ==> IsBlock(h, blocks[j]) && h[blocks[j]].key == key
  }

  ghost predicate ChildrenUnder(h: Heap, access: Access) {
    forall c :: c in access.children ==> MailboxUnder(h, access.children[c].mailbox, access.children[c].key)
  }

  /** A session outlives what its own calls do. */
  lemma StaysGenuine(s: S.State, t: S.State, op: Op, ok: bool, ses: S.Session)
    requires Inv(s) && Simulates(s, t, op, ok) && SameUsers(s, t) && S.Genuine(s, ses)
    ensures S.Genuine(t, ses) && forall filename :: S.Genuine(t, S.Named(ses, filename))
  {
    hide Inv, Abs, SameUsers;
    SessionCarries(s, t, ses);
  }

  lemma ResealedNone(h: Heap, blocks: seq<Id>, key: SymKey)
    ensures h + S.Resealed(h, blocks[..0], key) == h
  {
  }

  /** What block `i` can be when the loop comes to it. */
  lemma ResealedAt(h: Heap, blocks: seq<Id>, i: nat, oldKey: SymKey, newKey: SymKey)
    requires i < |blocks|
    ensures var block := S.OpenBlock(h + S.Resealed(h, blocks[..i], newKey), blocks[i], oldKey);
            && (block.Ok? ==> IsBlock(h, blocks[i]) && h[blocks[i]].body == BlockPlain(block.value))
            && (BlocksUnder(h, blocks, oldKey) ==> block.Ok?)
  {
    if BlocksUnder(h, blocks, oldKey) {
      assert blocks[i] !in blocks[..i];
    }
  }

  lemma ResealedSnoc(h: Heap, blocks: seq<Id>, i: nat, key: SymKey)
    requires i < |blocks| && IsBlock(h, blocks[i])
    ensures (h + S.Resealed(h, blocks[..i], key))[blocks[i] := Sealed(key, h[blocks[i]].body)] ==
            h + S.Resealed(h, blocks[..i + 1], key)
  {
    assert blocks[..i + 1] == blocks[..i] + [blocks[i]];
  }

  lemma RefreshedNone(h: Heap, fileKey: RawKey)
    ensures h + S.Refreshed(h, {}, fileKey) == h
  {
  }

  /** What a child's mailbox can be when the loop comes to it. */
  lemma RefreshedAt(h: Heap, done: set<Id>, m: Id, key: RawKey, fileKey: RawKey)
    ensures var node := S.OpenMailbox(h + S.Refreshed(h, done, fileKey), m, key);
            && (node.Ok? ==> MailboxUnder(h, m, key) && node.value.inode == MailboxAt(h, m).inode)
            && (MailboxUnder(h, m, key) ==> node.Ok?)
  {
  }

  lemma RefreshedSnoc(h: Heap, done: set<Id>, m: Id, fileKey: RawKey)
    requires IsMailbox(h, m)
    ensures (h + S.Refreshed(h, done, fileKey))[m := Sealed(h[m].key, MailboxPlain(MailboxAt(h, m).(fileKey := fileKey)))] ==
            h + S.Refreshed(h, done + {m}, fileKey)
  {
  }

  lemma KeptGrows(access: Access, pending: set<string>, c: string, recipient: string)
    requires c in pending && pending <= access.children.Keys
    ensures S.Kept(access.(children := access.children - (pending - {c})), recipient) ==
            S.Kept(access.(children := access.children - pending), recipient) +
            if c == recipient then {} else {access.children[c].mailbox}
  {
    var before := access.children - pending;
    var after := access.children - (pending - {c});
    assert after == before[c := access.children[c]];
    var done := S.Kept(access.(children := before), recipient);
    var next := S.Kept(access.(children := after), recipient);
    forall m
      ensures m in next <==> m in done || (c != recipient && m == access.children[c].mailbox)
    {
      if m in next {
        var d :| d in after && d != recipient && after[d].mailbox == m;
        assert d != c ==> d in before;
      }
      if m in done {
        var d :| d in before && d != recipient && before[d].mailbox == m;
        assert d in after;
      }
      if c != recipient && m == access.children[c].mailbox {
        assert c in after;
      }
    }
  }

  lemma KeptPart(access: Access, pending: set<string>, recipient: string)
    ensures S.Kept(access.(children := access.children - pending), recipient) <= S.Kept(access, recipient)
  {
  }

  /** Once the inode opens, nothing that `RevokeAccess` still reads can be missing or
      sealed otherwise: not a block, not a child's mailbox. */
  lemma RevokeCannotFail(s: S.State, ses: S.Session, filename: string)
    requires Inv(s) && S.Genuine(s, ses) && S.WalkInode(s.heap, ses, filename).Ok?
    ensures var w := S.WalkInode(s.heap, ses, filename).value;
            && BlocksUnder(s.heap, w.inode.blocks, FileKeys(w.node.fileKey))
            && ChildrenUnder(S.Secured(s, w), w.access)
  {
    hide Inv, Abs, Resecured, S.Secured;
    WalkFacts(s, ses, filename);
    var w := S.WalkInode(s.heap, ses, filename).value;
    ResecuredKeeps(s, w.node.inode);
    SecuredIs(s, w);
    StillGood(s.heap, Resecured(s, w.node.inode).heap, w.access);
    assert forall c :: c in w.access.children ==> ChildOk(Resecured(s, w.node.inode).heap, w.access, c);
  }

  lemma SecuredIs(s: S.State, w: S.Walk)
    requires IsInode(s.heap, w.node.inode) && InodeAt(s.heap, w.node.inode) == w.inode
    ensures S.Secured(s, w) == Resecured(s, w.node.inode).heap
  {
  }

  lemma NothingSealed(h: Heap, base: nat, blocks: seq<Bytes>, key: SymKey)
    ensures h + S.SealedBlocks(base, blocks[..0], key) == h
  {
  }

  lemma SealedBlocksSnoc(h: Heap, base: nat, blocks: seq<Bytes>, i: nat, key: SymKey)
    requires i < |blocks|
    ensures (h + S.SealedBlocks(base, blocks[..i], key))[Random(base + i) := Sealed(key, BlockPlain(blocks[i]))] ==
            h + S.SealedBlocks(base, blocks[..i + 1], key)
  {
    hide S.SealedBlocks;
    var l := S.SealedBlocks(base, blocks[..i], key);
    var r := S.SealedBlocks(base, blocks[..i + 1], key);
    var one := Sealed(key, BlockPlain(blocks[i]));
    forall id
      ensures id in r <==> id in l || id == Random(base + i)
      ensures id in r ==> r[id] == if id == Random(base + i) then one else l[id]
    {
      SealedEntry(base, blocks[..i], key, id);
      SealedEntry(base, blocks[..i + 1], key, id);
    }
    AddOne(h, l, r, Random(base + i), one);
  }

  lemma AddOne(h: Heap, l: Heap, r: Heap, id: Id, one: Payload)
    requires forall i :: i in r <==> i in l || i == id
    requires forall i :: i in r ==> r[i] == if i == id then one else l[i]
    ensures (h + l)[id := one] == h + r
  {
    assert r == l[id := one];
  }
}
