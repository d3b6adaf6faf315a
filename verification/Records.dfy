/** The records kept in the datastore, sealed (access.go, encryption.go, utils.go). */
module Records {
  import opened Basics
  import opened Ids

  /** 32 random bytes, named by the position of the draw in the random supply. */
  type RawKey = nat

  /** Argon2id of a password and a salt. */
  datatype MasterKey = Master(password: string, salt: nat)

  /** What HMAC makes of its key: a key of at most one 64-byte block is padded with zeros,
      a longer one is hashed first. */
  datatype HmacKey = Padded(key: string) | Hashed(key: string)

  const HMAC_BLOCK := 64

  function DropNuls(name: string): string {
    if name == [] || name[|name| - 1] != '\0' then name else DropNuls(name[..|name| - 1])
  }

  function Hmac(name: string): HmacKey {
    if |name| <= HMAC_BLOCK then Padded(DropNuls(name)) else Hashed(name)
  }

  /** The encryption/authentication key pair that `deriveKey` yields for one purpose. */
  datatype SymKey =
    | FileKeys(raw: RawKey)
    | MailKeys(raw: RawKey)
    | PersonalKeys(master: MasterKey, salt: HmacKey)
    | UserKeys(master: MasterKey)

  /** `getPersonalKey`: the file name is the HMAC key. */
  function PersonalKey(master: MasterKey, filename: string): SymKey {
    PersonalKeys(master, Hmac(filename))
  }

  function Nuls(n: nat): string {
    seq(n, _ => '\0')
  }

  lemma {:induction false} DropNulsExact(name: string)
    ensures |DropNuls(name)| <= |name| && name == DropNuls(name) + Nuls(|name| - |DropNuls(name)|)
    ensures DropNuls(name) != [] ==> DropNuls(name)[|DropNuls(name)| - 1] != '\0'
  {
    if name != [] && name[|name| - 1] == '\0' {
      DropNulsExact(name[..|name| - 1]);
      assert name == name[..|name| - 1] + ['\0'];
    }
  }

  lemma {:induction false} DropNulsPadded(name: string, n: nat)
    ensures DropNuls(name + Nuls(n)) == DropNuls(name)
  {
    if n == 0 {
      assert name + Nuls(0) == name;
    } else {
      assert (name + Nuls(n))[..|name| + n - 1] == name + Nuls(n - 1);
      DropNulsPadded(name, n - 1);
    }
  }

  /** Two of a user's names have one personal key exactly if they are equal, or short and
      equal up to NULs at the end. */
  lemma PersonalKeyCollision(master: MasterKey, f: string, g: string)
    requires |f| <= |g|
    ensures PersonalKey(master, f) == PersonalKey(master, g) <==>
            f == g || (|g| <= 64 && g == f + Nuls(|g| - |f|))
  {
    DropNulsExact(f);
    DropNulsExact(g);
    if |g| <= HMAC_BLOCK && g == f + Nuls(|g| - |f|) {
      DropNulsPadded(f, |g| - |f|);
    }
    if |g| <= HMAC_BLOCK && DropNuls(f) == DropNuls(g) {
      var core := DropNuls(f);
      assert Nuls(|g| - |core|) == Nuls(|f| - |core|) + Nuls(|g| - |f|);
    }
  }

  datatype MailboxNode = MailboxNode(fileKey: RawKey, inode: Id)

  datatype ChildrenInfo = ChildrenInfo(mailbox: Id, key: RawKey)

  datatype Access = Access(mailbox: Id, key: RawKey, children: map<string, ChildrenInfo>)

  datatype Inode = Inode(size: nat, blocks: seq<Id>)

  datatype Invitation = Invitation(mailbox: Id, key: RawKey)

  /** The fields of `User` that never change; a key pair is named by one draw. */
  datatype Credentials = Credentials(username: string, encKey: RawKey, sigKey: RawKey, master: MasterKey)

  datatype Plain =
    | UserPlain(creds: Credentials, files: map<string, Id>)
    | MailboxPlain(mailbox: MailboxNode)
    | AccessPlain(access: Access)
    | InodePlain(inode: Inode)
    | BlockPlain(bytes: Bytes)

  /** A stored value: an authenticated ciphertext, a user record behind its salt
      prefix, or an invitation boxed for `recipient` and signed by `signer`. */
  datatype Payload =
    | Sealed(key: SymKey, body: Plain)
    | UserBlob(salt: nat, key: SymKey, body: Plain)
    | SignedBox(recipient: RawKey, invitation: Invitation, signer: RawKey)

  type Heap = map<Id, Payload>

  datatype Error =
    | AlreadyExists | NotFound | MailboxMissing | InodeMissing | BlockMissing
    | BadSeal | Malformed | NilContent | WrongUser
    | NoRecipient | NoSender | BadSignature | NotForUser

  /** `decryptAndVerify`: opening succeeds exactly under the sealing key. */
  function Open(payload: Payload, key: SymKey): Result<Plain, Error> {
    if payload.Sealed? && payload.key == key then Ok(payload.body) else Err(BadSeal)
  }

  predicate IsMailbox(h: Heap, id: Id) { id in h && h[id].Sealed? && h[id].body.MailboxPlain? }

  predicate IsAccess(h: Heap, id: Id) { id in h && h[id].Sealed? && h[id].body.AccessPlain? }

  predicate IsInode(h: Heap, id: Id) { id in h && h[id].Sealed? && h[id].body.InodePlain? }

  predicate IsBlock(h: Heap, id: Id) { id in h && h[id].Sealed? && h[id].body.BlockPlain? }

  predicate IsBox(h: Heap, id: Id) { id in h && h[id].SignedBox? }

  function MailboxAt(h: Heap, id: Id): MailboxNode
    requires IsMailbox(h, id)
  {
    h[id].body.mailbox
  }

  function AccessAt(h: Heap, id: Id): Access
    requires IsAccess(h, id)
  {
    h[id].body.access
  }

  function InodeAt(h: Heap, id: Id): Inode
    requires IsInode(h, id)
  {
    h[id].body.inode
  }

  /** Key-store names (`InitUser`, `CreateInvitation`, `AcceptInvitation`). */
  function EncName(username: string): string { username + "_enc_pub" }

  function SigName(username: string): string { username + "_sig_pub" }

  lemma KeyNames(a: string, b: string)
    ensures EncName(a) == EncName(b) <==> a == b
    ensures SigName(a) == SigName(b) <==> a == b
    ensures EncName(a) != SigName(b)
    ensures EncName(a) == a + "_enc_pub" && SigName(a) == a + "_sig_pub"
  {
    assert EncName(a)[..|a|] == a && EncName(b)[..|b|] == b;
    assert SigName(a)[..|a|] == a && SigName(b)[..|b|] == b;
    assert EncName(a)[|a| + 1] == 'e' && SigName(b)[|b| + 1] == 's';
    assert |EncName(a)| == |a| + 8 && |SigName(b)| == |b| + 8;
  }
}
