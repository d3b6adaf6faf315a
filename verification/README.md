# ShareLock, modelled and proved in Dafny

ShareLock stores files in an untrusted key-value store. A user's name for a file is an
access record; it points to a mailbox, the mailbox to an inode, the inode to 512-byte
blocks, and each hop is sealed under another key. This project models that pointer
structure, the six operations that change it, the block splitter, the storage protocol
between client and server, and the concurrent use of a file, and proves what they do
over whole runs.

## How it is built

| file | content |
|---|---|
| `Ids.dfy`, `Records.dfy`, `Blocks.dfy` | identifiers, sealed records, the block splitter |
| `Services.dfy` | what each operation does to the datastore, in closed form |
| `Client.dfy` | the operations as they run: classes, one storage call at a time, proved equal to the closed forms |
| `Invariant.dfy`, `Frames.dfy`, `Edits.dfy` | what every reachable datastore satisfies, and the elementary changes that keep it |
| `CapabilityFs.dfy` | the independent reference: a file system of capabilities without any cryptography |
| `Abstraction.dfy`, `Simulation.dfy` | reading a datastore as that file system; each operation is the same operation there |
| `Sharing.dfy`, `Revocation.dfy` | the sharing forest, and who keeps, loses and never regains a file |
| `Runs.dfy`, `Theorems.dfy`, `Fragments.dfy` | the results on runs of the datastore |
| `NameTables.dfy`, `Failures.dfy` | what a user's name table lists, and which error an operation reports |
| `Custody.dfy` | who holds each stored record, and which keys are for what, in every reachable datastore |
| `Secrecy.dfy`, `Lockout.dfy` | which file keys follow from passwords and the datastore, without the services, and how long a new key stays secret |
| `Tampering.dfy` | what loads, logins and appends do if the server serves stored payloads at other ids, or old ones |
| `Stories.dfy` | promises that the code does not keep, each with a run |
| `Interleaving.dfy`, `Schedules.dfy` | appenders and loaders interleaved at single storage calls, and what some schedules do |
| `Wire.dfy`, `Server.dfy`, `Connections.dfy`, `Remote.dfy` | protocol, server loop, several connections, client, and the two views of one store |

Cryptography is symbolic. A sealed value opens exactly under the key that sealed it, a
boxed invitation exactly for its recipient, a signature verifies exactly for its signer.
Random keys and UUIDs are successive draws from one supply. SHA-512 is collision free, so
the deterministic ids are their preimages: user and access ids really are strings with a
NUL separator, and names that collide there are treated as the code treats them.
Argon2id is a function of password and salt that separates both; the salt stands unsealed
in front of the user record. Personal keys are derived from the master key with the file
name as HMAC key. HMAC pads a key of up to 64 bytes with zeros and hashes a longer one, so
short names that differ in NULs at the end have one personal key (`PersonalKeyCollision`);
the digest of a longer name is taken to be no name. A character stands for a byte.

`Step` runs one call of any registered user through a session with any name table; `Run`
any number of them. `Inv` collects the invariants of the datastore, `Tree` those of the
sharing forest and `InCustody` those of record holders and keys; `ReachableInCustody` gives
all three for every state that a run can reach. The datastore is an honest map everywhere
but in `Tampering.dfy`.

## What the code does not keep

* Feature list, "transparently updates remaining sharees" (README.md:25). A revocation
  hands the new key to the revoker and its own direct children only. `RevokeViews` says
  exactly who keeps the file: the revoker's name, and those names that hold the very
  mailbox the revoker lists for their user, who is not the one revoked. A sharee of a kept
  sharee loses the file, a revoker that is itself a sharee cuts off the owner, and a
  recipient invited twice keeps only the latest mailbox.
* Guarantee, "Revoked users immediately lose access to all future file updates"
  (README.md:17). True at once and for good of the removed mailbox and all beneath it
  (`RevokedUserLosesFile`, `RevocationIsPermanent`). A second mailbox, from another
  sharer, comes back when that sharer, still holding the file, revokes anybody else;
  `RevivedExactly` shows that this is the only way. `KeptShareeDecides` and
  `CastAssembles` give the run for any three users.
* Of the cryptography itself that promise depends on passwords. Whoever has a user's
  password derives the user's master key from the salt in the datastore, so of two users
  with one password each computes the keys of the other's files (`SamePasswordReads`). The
  new key of a revocation is secret from a group of users exactly if none of them has the
  password of the revoker or of somebody whom it goes on listing (`NewKeyLearntExactly`).
  Then all later keys are too, as long as no user with a password of the group reaches the
  file or is invited to it (`RevokedForGood`).
* Guarantee, users without access "learn nothing about" filenames (README.md:15). Access
  ids are unsalted hashes of user and file name, so whoever sees the ids can test a guess
  (`IdsTellNames`).
* Guarantee, "Any unauthorized modification or tampering is instantly detected"
  (README.md:16). Payloads are sealed without associated data, hence bound to no id and no
  version. A server that forges nothing can exchange two blocks of a file
  (`SwapUnnoticed`) or return a file to any version it had since the last re-keying
  (`RollbackExact`), and the load succeeds. It can serve the record of the name "f\0" for
  "f" (`AliasUnnoticed`). `ReplayedLoad` says exactly what goes through, `ReplayedLogin` the
  same of logins. An append on a rolled-back inode makes the loss last, whatever the server
  does later (`RollbackSticks`).
* "ListFiles returns a list of filenames the user has access to" (service.go:404). It lists
  the session's table. In a run where every session that enters a name has its user's
  present table, that is exactly the user's names (`ListsExactly`), revoked ones included;
  of two sessions that do not know each other's files the later one drops the earlier
  one's file from the record (`OutdatedTableForgets`).
* Appends that overlap: the later commit silently undoes the earlier
  (`OverlappedAppendIsLost`), though no load is ever torn (`NoTornFiles`).
* `accessID` is injective on user names without NUL, and in general exactly up to the
  collisions that `AccessIdCollision` lists. `InitUser` does not refuse NUL, so one user's
  `StoreFile` can take another user's name away (`CollisionTakesName`, `NulTakesName`).
* An error from the client's `Set` or `Delete` does not mean that nothing changed: after a
  failed write or a missing reply the server may have done it (`Exchange`, `Set`, `Delete`).
* docs/architecture.md:11-14 describes AES-CTR with HMAC and RSA; the code uses AES-GCM,
  X25519 and Ed25519, and the salt of the master key is random, not the user name.

## Model

| member | source | states |
|---|---|---|
| Ids.SlotKindsDisjoint | internal/client/encryption/utils.go:225-236 | no user slot is an access slot |
| Ids.Preimages | internal/client/encryption/utils.go:225-236 | the strings that are hashed for user and access ids |
| Ids.AccessIdCollision | internal/client/encryption/utils.go:230-236 | two names share an access slot iff they are equal or one is the other with the separator read at a later NUL |
| Ids.AccessIdInjective | internal/client/encryption/utils.go:230-236 | on user names without NUL the access id determines user and file |
| Ids.AccessIdNotInjective | internal/client/encryption/utils.go:230-236 | with NUL it does not, by example |
| Records.KeyNames | internal/client/encryption/service.go:54-59 | key-store names are the user name and a suffix, and never coincide, across users or purposes |
| Records.PersonalKeyCollision | internal/client/encryption/utils.go:38-42 | two names of a user have one personal key iff they are equal, or of at most 64 bytes and equal up to NULs at the end |
| Blocks.ByteToBlock | internal/client/encryption/File.go:21-41 | the index loop cuts after every 512 bytes and at the end |
| Blocks.BlockYToByte | internal/client/encryption/File.go:48-61 | the list walk yields the first n bytes of the joined blocks, nothing for n <= 0 or no list |
| Blocks.RoundTrip | internal/client/encryption/File.go:21-61 | splitting then joining with any integer n yields the first n bytes |
| Blocks.ChunkFlatten | internal/client/encryption/File.go:21-41 | the blocks in order are the data |
| Blocks.ChunkShape | internal/client/encryption/File.go:21-41 | ceil(n/512) blocks of 1 to 512 bytes, all but the last full |
| Blocks.CeilDivSum | internal/client/encryption/File.go:21-41 | splitting two pieces apart costs at most one block more than splitting them together |
| Invariant.BlocksDisjoint | internal/client/encryption/service.go:187-219 | no block belongs to two inodes |
| Abstraction.ReadBlocksPlain | internal/client/encryption/service.go:287-302 | when all blocks are under the file key the load loop joins their plaintexts |
| Abstraction.WalkExact | internal/client/encryption/service.go:226-285 | the mailbox of a held name always opens, the inode opens iff the mailbox holds its present key |
| Abstraction.LoadExact | internal/client/encryption/service.go:226-305 | a load succeeds iff the capability is live, and then returns the file's bytes |
| Edits.SaveUserKeeps | internal/client/encryption/utils.go:203-223 | saving a user record changes nothing that the file system shows |
| Edits.SetAccessKeeps | internal/client/encryption/service.go:163-185 | writing an access record rebinds one name, and drops only names that collide with it |
| Edits.AddMailboxKeeps | internal/client/encryption/service.go:472-492 | a new mailbox is one new capability, live iff it holds the inode's present key |
| Edits.SetInodeKeeps | internal/client/encryption/service.go:209-219 | writing an inode under its key sets one file and disturbs no other |
| Edits.ResealKeeps | internal/client/encryption/service.go:676-707 | re-encryption keeps every file's text and kills every capability on the file |
| Edits.RefreshKeeps | internal/client/encryption/service.go:731-764 | handing mailboxes the new key revives exactly those capabilities |
| Simulation.InitSim | internal/client/encryption/service.go:26-74 | registration is that operation of the capability file system, same outcome; nothing stored before opens for the newcomer |
| Simulation.StoreSim | internal/client/encryption/service.go:129-223 | storing is a new file, a new live capability and a rebound name without sharees |
| Simulation.AppendSim | internal/client/encryption/service.go:308-402 | appending succeeds iff the name is live and extends its file |
| Simulation.InviteSim | internal/client/encryption/service.go:430-544 | inviting copies the capability, live or dead, lists and grants it; an unknown recipient leaves only an orphan capability |
| Simulation.InvitationExact | internal/client/encryption/service.go:547-582 | an invitation opens iff it is boxed for this user and signed by the named sender |
| Simulation.AcceptSim | internal/client/encryption/service.go:547-608 | accepting binds a name to the granted capability with no sharees |
| Simulation.RevokeSim | internal/client/encryption/service.go:611-784 | revoking succeeds iff the name is live; then the revoker's new capability and the kept children's are live and all others on the file dead |
| Simulation.StepSimulates | internal/client/encryption/service.go:26-784 | every call keeps the invariant and is its counterpart on the capability file system, with the same outcome |
| Sharing.TreeKept | internal/client/encryption/service.go:472-607 | every operation keeps the sharing forest over the names that users hold: one parent, one file, one user per listed mailbox, no cycle |
| Revocation.WhoKeepsAccess | internal/client/encryption/service.go:709-780 | exactly which names on the file stay live |
| Revocation.OtherFilesKeep | internal/client/encryption/service.go:709-780 | names on other files are untouched |
| Revocation.RevokedUserLoses | internal/client/encryption/service.go:731-768 | no name and no pending invitation of the revoked user is live on the file |
| Revocation.RevivedExactly | internal/client/encryption/service.go:731-764 | a dead capability becomes live iff a live name that lists it revokes somebody else |
| Revocation.RevocationCutsOff | internal/client/encryption/service.go:611-784 | all beneath the removed mailbox is dead and listed only from inside |
| Revocation.CutOffKept | internal/client/encryption/service.go:129-784 | every operation keeps such a set dead and cut off, invitations from inside included |
| Revocation.PendingKept | internal/client/encryption/service.go:521-530 | only rebinding, re-inviting, revoking the recipient or a re-keying by another name spoils a pending invitation |
| Revocation.ViewAfter | internal/client/encryption/service.go:129-608 | what each name shows after each operation other than a revocation |
| Runs.RunSimulates | internal/client/encryption/service.go:26-784 | every run on the sealed datastore is a run of the capability file system with the same successes and failures |
| Runs.ReachableIsSound | internal/client/encryption/service.go:26-784 | all datastore and sharing invariants hold in every reachable state |
| Custody.CustodyKept | internal/client/encryption/service.go:26-784 | every call keeps each stored access record a name that a user holds, each invitation one between users, each block listed by an inode, mailbox keys and file keys apart |
| Custody.ReachableInCustody | internal/client/encryption/service.go:26-784 | all of this, and the sharing forest, in every reachable datastore |
| Custody.ListedOnce | internal/client/encryption/service.go:472-543 | over all stored access records a mailbox is in at most one Children entry, stored under the key recorded there, naming the inode of the record's own mailbox |
| Custody.IdsTellNames | internal/client/encryption/utils.go:230-236 | an access id is taken iff some user holds a name with that id; where no user name has a NUL, iff that user holds that name |
| Runs.ShownIsView | internal/client/encryption/service.go:226-305 | all sessions of a user load the same bytes, those of the capability file system |
| Runs.AppendExact | internal/client/encryption/service.go:308-356 | an append gets through iff the name is live |
| Runs.ExactSurvivors | internal/client/encryption/service.go:709-780 | the mailboxes that open the re-keyed inode are the revoker's new one and those it lists for others; all other mailboxes open what they opened |
| Runs.LoginExact | internal/client/encryption/service.go:77-113 | logging in succeeds iff the user exists and the password is the one registered, and gives a good session |
| NameTables.TableAfter | internal/client/encryption/service.go:218-222 | after each call, the table that a login returns: the calling session's with the name added after a store, an acceptance or a successful revocation of that user, empty after registration, else unchanged |
| NameTables.ListsExactly | internal/client/encryption/service.go:404-414 | over runs without outdated sessions and NULs in user names, the table lists exactly the user's names |
| NameTables.OutdatedTableForgets | internal/client/encryption/utils.go:203-223 | two sessions with one table each store a file: a login lists the later one only, and the earlier one still loads |
| Failures.InitErrors | internal/client/encryption/service.go:32-38 | registering is refused as AlreadyExists iff the name is taken |
| Failures.LoginErrors | internal/client/encryption/service.go:83-101 | a login fails as NotFound iff nobody has that name, as BadSeal iff somebody has with another password |
| Failures.LoadErrors | internal/client/encryption/service.go:226-305 | a load fails as NotFound iff the access id is unused, as BadSeal iff it is used but the name not live, and in no other way |
| Failures.ErrorsTellNames | internal/client/encryption/service.go:226-305 | where no user name has a NUL: NotFound iff the user has no such name, BadSeal iff it is revoked |
| Failures.AppendErrors | internal/client/encryption/service.go:308-356 | NilContent iff nil, and otherwise as for loads |
| Failures.InviteErrors | internal/client/encryption/service.go:430-500 | NotFound iff the access id is unused, BadSeal iff it is used but the name not held, NoRecipient iff held and the recipient unknown |
| Failures.AcceptErrors | internal/client/encryption/service.go:547-582 | NotFound iff the pointer is unused, NoSender iff used and the sender unknown, BadSignature iff the sender, being known, has made no invitation there, NotForUser iff it made one for others only |
| Failures.RevokeErrors | internal/client/encryption/service.go:611-670 | NotFound iff the access id is unused, BadSeal iff it is used but the name not live, and in no other way |
| Failures.BrokenWalk | internal/client/encryption/service.go:226-285 | on any datastore, which record on the walk is missing or does not open, by the error |
| Failures.BrokenBlocks | internal/client/encryption/service.go:287-302 | on any datastore, the first block that fails and its error |
| Failures.BrokenLogin | internal/client/encryption/service.go:83-110 | on any datastore, a login fails as WrongUser iff the record opens and is another user's |
| Runs.CredentialsLast | internal/client/encryption/service.go:32-38 | no call of anybody changes a user's keys |
| Runs.RegisteredLogin | internal/client/encryption/service.go:41-74 | the keys of a new user are new and differ; after any run its password logs in and returns them, and any other is refused as BadSeal |
| Runs.SessionsLast | internal/client/encryption/service.go:77-113 | a session stays good through every run |
| Theorems.RevokeViews | internal/client/encryption/service.go:611-784 | what every name loads after a revocation: the revoker and exactly its kept direct sharees the same bytes as before, all others on the file nothing, other files unchanged |
| Theorems.RevokedUserLosesFile | internal/client/encryption/service.go:570-784 | right after it, no name of the revoked user loads or appends to the file, nor does one made by accepting any invitation |
| Theorems.RevocationIsPermanent | internal/client/encryption/service.go:611-784 | the removed mailbox, all beneath it, and all that comes to be beneath one of these at any time of the run, even if it is so no longer, never open the inode again in any continuation |
| Theorems.SharingRoundTrip | internal/client/encryption/service.go:521-607 | the pointer that CreateInvitation returns is new and opens for the recipient, under any name, as what the sender's name loads |
| Secrecy.ReadersExact | internal/client/encryption/service.go:226-285 | from any set of passwords and the whole datastore a file's present key can be computed iff a user with one of them holds, lists or was sent a live capability on it, or that key or a live mailbox's key is known already |
| Secrecy.SamePasswordReads | internal/client/encryption/utils.go:203-223 | of two users with one password each can compute the key of every file live for the other |
| Secrecy.LearnedIsDiscreet | internal/client/encryption/service.go:472-543 | in no run do the users with some passwords learn, from all datastores together and their own draws, the key of a mailbox that somebody else lists for somebody else |
| Secrecy.NewKeyLearntExactly | internal/client/encryption/service.go:652-780 | right after a revocation, from all datastores of the run, some passwords give the new file key iff a user with one of them is the revoker or still listed by it |
| Lockout.KeysStaySecret | internal/client/encryption/service.go:472-784 | if the present key of a file cannot be computed, none of its keys of any continuation is learnt in it, while no user with one of the passwords reaches the file or is invited to it |
| Lockout.RevokedForGood | internal/client/encryption/service.go:652-784 | so a revocation hides the file's new key and all later ones from every group it shuts out, for as long as that lasts |
| Tampering.ReplayedLoad | internal/client/encryption/utils.go:49-115 | exactly when a load succeeds, and with what, if any payload ever stored may be served at any id; the name's record may be that of a name with the same personal key |
| Tampering.AliasUnnoticed | internal/client/encryption/utils.go:238-242 | the record of another name with the same personal key, served for a name: the load succeeds with the other file |
| Tampering.SwapUnnoticed | internal/client/encryption/service.go:287-302 | two blocks of a file exchanged: the load succeeds with the exchanged text |
| Tampering.RollbackExact | internal/client/encryption/service.go:268-302 | an old version of the inode passes iff the file was not re-keyed since, and then shows the old content |
| Tampering.RollbackSticks | internal/client/encryption/service.go:354-402 | an append on a rolled-back inode succeeds iff the file was not re-keyed since; then on the honest datastore all its readers see the old content and the piece, and nothing else changes |
| Tampering.ReplayedLogin | internal/client/encryption/service.go:77-113 | with any stored payload served anywhere, a login succeeds iff some version of the user's own record is in its place and the password is the one registered; the session is good, with that version's table |
| Tampering.HonestLoad | internal/client/encryption/service.go:226-305 | on an honest server the load on served payloads is LoadFile |
| Theorems.InvitationPends | internal/client/encryption/service.go:494-543 | an invitation from a live name to a known user is pending |
| Theorems.PendingInvitationSurvives | internal/client/encryption/service.go:579-764 | after any run that does not spoil it, accepting the old pointer gives a name that loads the current content |
| Theorems.RevokingRevivesInvitations | internal/client/encryption/service.go:731-764 | the sharer's own revocation of another makes a latest invitation pending again |
| Theorems.OtherViews | internal/client/encryption/service.go:129-608 | frames of storing, accepting, inviting, appending and registering on what every name loads |
| Fragments.FileHistory | internal/client/encryption/service.go:373-402 | over any run a file is its content followed by the appended pieces, its blocks those of the pieces split apart |
| Fragments.BlocksForBounds | internal/client/encryption/File.go:21-41 | k pieces split apart take at most k blocks more than needed |
| Fragments.FragmentationBound | internal/client/encryption/service.go:187-219 | after a store and k appends, re-keys between, ceil(S/512) <= n <= ceil(S/512)+k and Size is exact |
| Stories.KeptShareeDecides | internal/client/encryption/service.go:731-764 | a sharee of a kept sharee loses the file unrevoked, and regains it though revoked, when the kept sharee revokes somebody; the owner is then cut off |
| Stories.CastAssembles | internal/client/encryption/service.go:26-608 | any three users can reach the state where that happens |
| Stories.CollisionTakesName | internal/client/encryption/service.go:163-185 | storing a file takes away every other name with the same access id |
| Stories.NulTakesName | internal/client/encryption/utils.go:230-236 | a run in which a user loses a file to another user's StoreFile, by a NUL in the names |
| Interleaving.CommitShowsAll | internal/client/encryption/service.go:359-399 | an inode shows every commit iff none of them overlapped another |
| Interleaving.AdvanceKeeps | internal/client/encryption/service.go:226-402 | each single storage call of an appender or loader keeps all files whole |
| Interleaving.NoTornFiles | internal/client/encryption/service.go:226-402 | under every schedule a finished load is the first content and whole pieces, each at most once, in commit order, and all of them iff no two commits overlapped; threads fail only on dead names |
| Schedules.LoadAlone | internal/client/encryption/service.go:226-305 | a loading thread that runs alone returns what LoadFile returns, errors included |
| Schedules.AppendAlone | internal/client/encryption/service.go:308-402 | an appending thread that runs alone leaves the state and the outcome of AppendToFile |
| Schedules.OverlappedAppendIsLost | internal/client/encryption/service.go:354-399 | for any two appenders on one file there is a schedule in which both succeed and the file has the piece of one only |
| Client.ShareLock.SaveUser | internal/client/encryption/utils.go:203-223 | the user record with its name table, sealed behind the salt |
| Client.ShareLock.InitUser | internal/client/encryption/service.go:26-74 | equals the closed form, returns the new, genuine session with an empty table, simulates registration |
| Client.ShareLock.GetUser | internal/client/encryption/service.go:77-113 | equals the closed form with each error |
| Client.ShareLock.ReadMailbox | internal/client/encryption/service.go:430-470 | the walk to the mailbox with each error, on any datastore |
| Client.ShareLock.LoadFile | internal/client/encryption/service.go:226-305 | equals the closed form on any datastore; on a sound one, exactly the abstract view |
| Client.ShareLock.ListFiles | internal/client/encryption/service.go:404-414 | every name in the session's table once, in any order |
| Client.ShareLock.WriteBlocks | internal/client/encryption/service.go:187-207 | every chunk sealed at its own new id, in order |
| Client.ShareLock.StoreFile | internal/client/encryption/service.go:129-223 | equals the closed form, enters the name into the session's table, simulates storing |
| Client.ShareLock.AppendToFile | internal/client/encryption/service.go:308-402 | equals the closed form with each error, simulates appending |
| Client.ShareLock.CreateInvitation | internal/client/encryption/service.go:430-544 | equals the closed form with each error, simulates inviting |
| Client.ShareLock.AcceptInvitation | internal/client/encryption/service.go:547-608 | equals the closed form with each error, enters the name into the session's table, simulates accepting |
| Client.ShareLock.ResealBlocks | internal/client/encryption/service.go:676-695 | the block loop re-seals a prefix, up to a block that does not open, whose error it reports; on distinct blocks that open it does not stop |
| Client.ShareLock.RefreshChildren | internal/client/encryption/service.go:731-764 | the child loop, in any order, gives some kept mailboxes the new key, all of them unless it meets one that does not open, whose error it reports; on mailboxes under the recorded keys it does not stop |
| Client.ShareLock.RevokeAccess | internal/client/encryption/service.go:611-784 | on any datastore: success is the closed form and enters the name into the session's table, failure leaves one of the listed partial states with the error of the record that stopped it; on a sound one it leaves the storage as it was or completes, and simulates revoking |
| Client.RevokeCannotFail | internal/client/encryption/service.go:652-783 | once the inode opens, every block and child mailbox is there under the expected key |
| Wire.Uint32RoundTrip | internal/client/remote/store.go:171-175 | lengths below 2^32 survive encoding |
| Wire.BigEndianOrder | internal/client/remote/store.go:171-175 | the most significant byte comes first |
| Wire.RequestBytes | internal/client/remote/store.go:149-169 | the bytes of the three requests: operation 1, 2 or 3, then lengths and data |
| Wire.ReplyBytes | internal/server/handler/handler.go:60-116 | the bytes of the replies: 0 and the value, 0, 1 for a missing key, 2 and the message |
| Wire.ReplyMeaning | internal/client/remote/store.go:59-126 | what the client makes of any bytes, iff by iff: a value, done, missing, an error, or a bad status |
| Wire.RequestRoundTrip | internal/server/handler/handler.go:33-116 | the server reads exactly one request and the client reads the plain map's answer |
| Server.Handler.WriteFramed | internal/server/handler/handler.go:100-116 | the buffer filled in place is status, length and data |
| Server.Handler.HandleRequest | internal/server/handler/handler.go:33-98 | equals the closed form of one request, end of stream included |
| Server.Handler.HandleConn | internal/server/server.go:78-86 | the loop serves requests until one cannot be read |
| Server.ServedIsRequest | internal/server/handler/handler.go:30-59 | on any bytes that begin with 1, 2 or 3 what is served is a Get, Set or Delete, done and answered as on a plain map; anything else is refused |
| Wire.UnknownOpText | internal/server/handler/handler.go:56-57 | the refusal reads "unknown op: " and the operation's number in decimal |
| Server.TruncatedRequest | internal/server/handler/handler.go:33-80 | a request cut off anywhere changes nothing and gets no reply |
| Server.TruncatedReply | internal/client/remote/store.go:191-216 | a reply cut short anywhere decodes to no reply |
| Server.StoredValuesFit | internal/server/handler/handler.go:33-116 | whatever bytes arrive, each request served on the way is one a client could have sent, done and answered as on a plain map with the reply decoding in full, or an unknown operation refused; stored values stay below 2^32 bytes |
| Server.ConnectionIsPlainMap | internal/server/server.go:78-86 | any requests on one connection, the last perhaps cut off, act and answer as on a plain map |
| Connections.ConnectionsArePlainMap | internal/server/server.go:68-86 | under any interleaving of connections the server is a plain map on the merged requests, and each client reads the answers to its own |
| Remote.WriteFull | internal/client/remote/store.go:177-189 | over any writer with short writes it ends; it goes on after a short write and stops at the first that fails or takes nothing, with the error for that, making none it does not need; without an error it has delivered exactly the bytes |
| Remote.WriteOperation | internal/client/remote/store.go:149-169 | too long a key or value is refused before the first byte; otherwise the encoded request, or a prefix and the error of the write that failed or took nothing; only a failing write can report one after the last byte |
| Remote.ReadReply | internal/client/remote/store.go:191-216 | reads the reply as the status demands |
| Remote.Client.Exchange | internal/client/remote/store.go:48-126 | a reply means that both messages arrived, and the plain map's effect and answer; each error has its cause, NoReply only a message that does not arrive whole; if all writes take something without failing, a reply comes iff both messages arrive whole, and the effect iff the request does |
| Remote.Client.Get | internal/client/remote/store.go:48-78 | the contents' value, from the server or the local map; with both messages whole, the database's error iff there is one; each other error has its cause |
| Remote.Client.Set | internal/client/remote/store.go:80-102 | success means stored, a rejection unchanged; after a failed write or a missing reply either; with both messages whole, the database's error iff there is one; each other error has its cause |
| Remote.Client.Delete | internal/client/remote/store.go:104-126 | success means gone, a rejection unchanged; after a failed write or a missing reply either; with both messages whole, the database's error iff there is one; each other error has its cause |
| Remote.ViewsIndependent | internal/client/encryption/memory.go:80-104 | the two prefixed services over one store are two independent maps |

## Left out

* Storage or key-store calls that return an error in the middle of an operation: the in-memory stores never do, and `StoreFile` and `RevokeAccess` are not crash-atomic. Appenders that stop midway are in `Interleaving.dfy`.
* Forged payloads, sealed by somebody who has the key: an evicted sharee can still write blocks and mailboxes under old keys. `Tampering.dfy` replays whole stored payloads, not parts of them, and covers loads, logins and appends on an old inode, not the other operations that write.
* Keys written into file contents, in `Secrecy.dfy` and `Lockout.dfy`; the shape of the sharing graph, sizes and access patterns are not kept secret by the model or the code.
* Interleavings of `StoreFile`, `RevokeAccess` or the sharing operations with anything else; the code does not order their several writes.
* The arithmetic of AES-GCM, Argon2id, X25519, Ed25519, SHA-512 and `deriveKey`, nonces and ephemeral keys, and the byte layout of sealed payloads.
* JSON: a lossless serialiser of the record types, names taken to be valid UTF-8. Opening a record as one of another kind is the error `Malformed`; no reachable state does it (`Failures.dfy`), and the one confusion that a server can cause, between inodes and blocks of a file, is in `Tampering.dfy`, for any serialiser.
* Error texts. The model keeps which check failed, not the wrapped message; a pointer to a payload too short for a signature counts as a bad signature.
* `Size` as a 64-bit integer, and memory limits on lengths read from the network.
* BadgerDB: a map whose operations may report an error and then change nothing; `SetWithTTL` is unused.
* TLS, dialling, listeners, logging and the process-wide lock around the configuration; dial failures, short writes and connections that drop in either direction are parameters of a call.
* The server's own view of a reply that it cannot write: it ends the connection; what the client sees of it is in `Exchange`. A goroutine that stops between reading a request and the database call has served nothing.
* `cmd/`, `internal/client/config`, `internal/client/netstream` and `internal/client/app`: command lines, paths and delegation.
