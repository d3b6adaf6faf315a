/** The file system that a user of ShareLock sees, without any cryptography:
    names hold capabilities, a capability is live or dead, files are bytes. */
module CapabilityFs {
  import opened Basics
  import opened Ids
  import opened Blocks

  datatype Cap = Cap(file: Id, live: bool)

  /** A user's name for a file: its capability, and those handed to direct sharees. */
  datatype Name = Name(cap: Id, shared: map<string, Id>)

  datatype File = File(content: Bytes, blocks: nat)

  /** `names` is keyed by (user, file name), `grants` by (pointer, sender, recipient). */
  datatype Fs = Fs(
    users: iset<string>,
    names: imap<(string, string), Name>,
    caps: map<Id, Cap>,
    files: map<Id, File>,
    grants: imap<(Id, string, string), Id>)

  datatype Op =
    | Init(user: string, password: string)
    | Store(user: string, file: string, content: Bytes)
    | Append(user: string, file: string, piece: Option<Bytes>)
    | Invite(user: string, file: string, recipient: string)
    | Accept(user: string, sender: string, pointer: Id, file: string)
    | Revoke(user: string, file: string, recipient: string)

  /** Unused ids for whatever the operation creates. */
  datatype Fresh = Fresh(cap: Id, file: Id, grant: Id)

  ghost predicate FreshFor(a: Fs, fr: Fresh) {
    && fr.cap !in a.caps
    && fr.file !in a.files
    && forall s, r :: (fr.grant, s, r) !in a.grants
  }

  ghost predicate Live(a: Fs, p: (string, string)) {
    p in a.names && a.names[p].cap in a.caps && a.caps[a.names[p].cap].live
  }

  ghost function FileOf(a: Fs, p: (string, string)): Option<Id> {
    if p in a.names && a.names[p].cap in a.caps then Some(a.caps[a.names[p].cap].file) else None
  }

  function SlotOf(p: (string, string)): Id {
    AccessId(p.0, p.1)
  }

  /** Bind `p`; a name that collides with it in `accessID` is lost. */
  ghost function PutName(names: imap<(string, string), Name>, p: (string, string), n: Name): imap<(string, string), Name> {
    imap q: (string, string) | q == p || (q in names && SlotOf(q) != SlotOf(p)) :: if q == p then n else names[q]
  }

  /** What `recipient`'s removal leaves: the revoker's other direct capabilities. */
  ghost function KeptCaps(n: Name, recipient: string): set<Id> {
    set c | c in n.shared && c != recipient :: n.shared[c]
  }

  ghost function Rekey(caps: map<Id, Cap>, file: Id, kept: set<Id>): map<Id, Cap> {
    map c | c in caps :: if caps[c].file == file then Cap(file, c in kept) else caps[c]
  }

  /** One operation: the next file system, and whether the operation succeeded. */
  ghost function Apply(a: Fs, op: Op, fr: Fresh): (Fs, bool) {
    if op.Init? then
      if op.user in a.users then (a, false)
      else (a.(users := a.users + iset{op.user}), true)
    else if op.user !in a.users then (a, false)
    else match op
      case Store(u, f, content) =>
        (a.(names := PutName(a.names, (u, f), Name(fr.cap, map[])),
            caps := a.caps[fr.cap := Cap(fr.file, true)],
            files := a.files[fr.file := File(content, CeilDiv(|content|))]), true)
      case Append(u, f, piece) =>
        if piece.None? || !Live(a, (u, f)) then (a, false)
        else
          var i := FileOf(a, (u, f)).value;
          if i !in a.files then (a, false)
          else
            var file := File(a.files[i].content + piece.value, a.files[i].blocks + CeilDiv(|piece.value|));
            (a.(files := a.files[i := file]), true)
      case Invite(u, f, r) =>
        if (u, f) !in a.names || a.names[(u, f)].cap !in a.caps then (a, false)
        else
          var n := a.names[(u, f)];
          var a' := a.(caps := a.caps[fr.cap := a.caps[n.cap]]);
          if r !in a.users then (a', false)
          else
            (a'.(names := PutName(a.names, (u, f), n.(shared := n.shared[r := fr.cap])),
                 grants := a.grants[(fr.grant, u, r) := fr.cap]), true)
      case Accept(u, sender, pointer, f) =>
        if (pointer, sender, u) !in a.grants then (a, false)
        else (a.(names := PutName(a.names, (u, f), Name(a.grants[(pointer, sender, u)], map[]))), true)
      case Revoke(u, f, r) =>
        if !Live(a, (u, f)) then (a, false)
        else
          var n := a.names[(u, f)];
          var i := a.caps[n.cap].file;
          (a.(names := PutName(a.names, (u, f), Name(fr.cap, n.shared - {r})),
              caps := Rekey(a.caps, i, KeptCaps(n, r))[fr.cap := Cap(i, true)]), true)
  }

  /** What loading a name shows. */
  ghost function View(a: Fs, p: (string, string)): Option<Bytes> {
    if Live(a, p) && FileOf(a, p).value in a.files then Some(a.files[FileOf(a, p).value].content) else None
  }
}
