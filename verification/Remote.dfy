/** The client side of the storage protocol (internal/client/remote/store.go) and the two
    prefixed views that the encryption layer has of it (memory.go). */
module Remote {
  import opened Basics
  import opened Wire
  import opened Server

  /** One `Write` of the connection: how much it takes, and whether it reports an error. */
  datatype WriteEvent = WriteEvent(taken: nat, fails: bool)

  /** A writer that may make short writes. `plan` is what its next writes will do; a
      writer without a plan takes everything. */
  class Writer {
    var plan: seq<WriteEvent>
    var sent: Bytes

    constructor (plan: seq<WriteEvent>)
      ensures this.plan == plan && sent == []
    {
      this.plan, sent := plan, [];
    }

    method Write(data: Bytes) returns (n: nat, failed: bool)
      modifies this
      ensures n <= |data| && sent == old(sent) + data[..n]
      ensures if old(plan) == [] then n == |data| && !failed && plan == []
              else
                && (n == old(plan)[0].taken || n == |data| <= old(plan)[0].taken)
                && failed == old(plan)[0].fails && plan == old(plan)[1..]
    {
      if plan == [] {
        n, failed := |data|, false;
      } else {
        n, failed := if plan[0].taken < |data| then plan[0].taken else |data|, plan[0].fails;
        plan := plan[1..];
      }
      sent := sent + data[..n];
    }
  }

  datatype SendError = TooLong | WriteFailed | ShortWrite

  /** The write takes something, and reports no error. */
  predicate Smooth(e: WriteEvent) {
    e.taken > 0 && !e.fails
  }

  predicate AllSmooth(plan: seq<WriteEvent>) {
    forall j :: 0 <= j < |plan| ==> Smooth(plan[j])
  }

  /** How many bytes the writes take together. */
  function Capacity(plan: seq<WriteEvent>): nat {
    if plan == [] then 0 else Capacity(plan[..|plan| - 1]) + plan[|plan| - 1].taken
  }

  /** `made` ends as `r` says: at the first write that fails or takes nothing, if any. */
  predicate Ends(made: seq<WriteEvent>, r: Option<SendError>) {
    match r
    case None => AllSmooth(made)
    case Some(TooLong) => made == []
    case Some(WriteFailed) => made != [] && AllSmooth(made[..|made| - 1]) && made[|made| - 1].fails
    case Some(ShortWrite) =>
      made != [] && AllSmooth(made[..|made| - 1]) && !made[|made| - 1].fails && made[|made| - 1].taken == 0
  }

  lemma EndsNone()
    ensures Ends([], None) && Capacity([]) == 0
  {
  }

  lemma EndsThen(first: seq<WriteEvent>, second: seq<WriteEvent>, rest: seq<WriteEvent>, r: Option<SendError>)
    requires Ends(first, None) && Ends(second, r) && r != Some(TooLong)
    ensures Ends(first + second, r) && first + (second + rest) == first + second + rest
  {
    if second != [] {
      assert (first + second)[..|first + second| - 1] == first + second[..|second| - 1];
    }
  }

  /** One more write. */
  lemma OneWrite(made: seq<WriteEvent>, e: WriteEvent)
    requires Ends(made, None)
    ensures Capacity(made + [e]) == Capacity(made) + e.taken && (made + [e])[..|made|] == made
    ensures Ends(made + [e], if e.fails then Some(WriteFailed) else if e.taken == 0 then Some(ShortWrite) else None)
  {
    assert (made + [e])[..|made|] == made;
  }

  /** What ended the writes is among them. */
  lemma EndsWhy(made: seq<WriteEvent>, rest: seq<WriteEvent>, r: Option<SendError>)
    requires Ends(made, r)
    ensures r == Some(WriteFailed) ==> exists e :: e in made + rest && e.fails
    ensures r == Some(ShortWrite) ==> exists e :: e in made + rest && !e.fails && e.taken == 0
    ensures AllSmooth(made + rest) && r != Some(TooLong) ==> r == None
  {
    if r == Some(WriteFailed) || r == Some(ShortWrite) {
      var last := made[|made| - 1];
      assert (made + rest)[|made| - 1] == last;
      assert last in made + rest && !Smooth(last);
    }
  }

  /** The write loop. Over any writer it ends. It goes on after a short write, stops at the
      first that fails or takes nothing, and makes none that it does not need. Without an
      error it has delivered exactly the given bytes, with one some prefix of them. `made`
      are those of the writer's planned writes that were made. */
  method WriteFull(w: Writer, data: Bytes) returns (r: Option<SendError>, ghost made: seq<WriteEvent>)
    modifies w
    ensures old(w.sent) <= w.sent <= old(w.sent) + data
    ensures r.None? ==> w.sent == old(w.sent) + data
    ensures r == Some(ShortWrite) ==> |w.sent| < |old(w.sent)| + |data|
    ensures old(w.plan) == made + w.plan && Ends(made, r) && r != Some(TooLong)
    ensures made != [] ==> Capacity(made[..|made| - 1]) < |data|
    ensures r.None? ==> w.plan == [] || |data| <= Capacity(made)
  {
    hide Ends;
    var left := data;
    made := [];
    EndsNone();
    assert old(w.sent) + data == w.sent + left;
    while |left| > 0
      invariant old(w.sent) <= w.sent && w.sent + left == old(w.sent) + data
      invariant old(w.plan) == made + w.plan && Ends(made, None)
      invariant left != [] ==> w.plan == [] || |data| == |left| + Capacity(made)
      invariant left == [] ==> w.plan == [] || |data| <= Capacity(made)
      invariant made != [] ==> Capacity(made[..|made| - 1]) < |data|
      decreases |left|
    {
      ghost var before, plan := w.sent, w.plan;
      var n, failed := w.Write(left);
      assert before + left == w.sent + left[n..];
      if plan != [] {
        OneWrite(made, plan[0]);
        made := made + [plan[0]];
      }
      if failed {
        return Some(WriteFailed), made;
      }
      if n == 0 {
        return Some(ShortWrite), made;
      }
      left := left[n..];
    }
    r := None;
  }

  method WriteLength(w: Writer, length: nat) returns (r: Option<SendError>, ghost made: seq<WriteEvent>)
    requires length < TWO_32
    modifies w
    ensures old(w.sent) <= w.sent <= old(w.sent) + PutUint32(length)
    ensures r.None? ==> w.sent == old(w.sent) + PutUint32(length)
    ensures r == Some(ShortWrite) ==> |w.sent| < |old(w.sent)| + 4
    ensures old(w.plan) == made + w.plan && Ends(made, r) && r != Some(TooLong)
  {
    r, made := WriteFull(w, PutUint32(length));
  }

  /** A length and that many bytes; `writeOperation` does this for the key and the value. */
  method WriteSized(w: Writer, data: Bytes) returns (r: Option<SendError>, ghost made: seq<WriteEvent>)
    requires |data| < TWO_32
    modifies w
    ensures old(w.sent) <= w.sent <= old(w.sent) + Framed(data)
    ensures r.None? ==> w.sent == old(w.sent) + Framed(data)
    ensures r == Some(ShortWrite) ==> |w.sent| < |old(w.sent)| + |Framed(data)|
    ensures old(w.plan) == made + w.plan && Ends(made, r) && r != Some(TooLong)
  {
    hide Ends, PutUint32;
    ghost var start := w.sent;
    assert start + Framed(data) == start + PutUint32(|data|) + data;
    r, made := WriteLength(w, |data|);
    if r.Some? { return; }
    ghost var more;
    r, more := WriteFull(w, data);
    EndsThen(made, more, w.plan, r);
    made := made + more;
  }

  /** A length that the protocol cannot carry is refused before the first byte; otherwise
      the writer gets the encoded request, or a prefix of it and an error. Only a failing
      write can report an error after the last byte. */
  method WriteOperation(w: Writer, request: Request) returns (r: Option<SendError>, ghost made: seq<WriteEvent>)
    modifies w
    ensures old(w.sent) <= w.sent <= old(w.sent) + Encode(request)
    ensures r == Some(TooLong) <==> !WithinLimit(request)
    ensures r == Some(TooLong) ==> w.sent == old(w.sent)
    ensures r == Some(ShortWrite) ==> |w.sent| < |old(w.sent)| + |Encode(request)|
    ensures r.None? ==> WithinLimit(request) && w.sent == old(w.sent) + Encode(request)
    ensures old(w.plan) == made + w.plan && Ends(made, r)
  {
    if |request.key| >= TWO_32 || (request.Set? && |request.value| >= TWO_32) {
      return Some(TooLong), [];
    }
    hide Ends, Framed, Encode, OpOf;
    Milestones(w.sent, request);
    r, made := WriteFull(w, [OpOf(request)]);
    if r.Some? { return; }
    ghost var more;
    r, more := WriteSized(w, request.key);
    EndsThen(made, more, w.plan, r);
    made := made + more;
    if r.Some? { return; }
    if request.Set? {
      r, more := WriteSized(w, request.value);
      EndsThen(made, more, w.plan, r);
      made := made + more;
    }
  }

  /** The stream after each part of a request. */
  lemma Milestones(start: Bytes, r: Request)
    ensures var head := start + [OpOf(r)];
            var keyed := head + Framed(r.key);
            && start <= head <= keyed <= start + Encode(r)
            && start + Encode(r) == if r.Set? then keyed + Framed(r.value) else keyed
  {
    hide Framed, OpOf;
    var (op, key, value) := ([OpOf(r)], Framed(r.key), if r.Set? then Framed(r.value) else []);
    assert start + (op + key + value) == start + op + key + value;
  }

  method ReadValue(rw: Stream) returns (r: Option<Bytes>)
    modifies rw
    ensures r == match TakeFramed(old(rw.input)) case Some((data, _)) => Some(data) case None => None
  {
    var size := rw.ReadFull(4);
    if size.None? {
      return None;
    }
    r := rw.ReadFull(Uint32(size.value));
  }

  /** `readStatus`, then what the status calls for. */
  method ReadReply(rw: Stream, request: Request) returns (reply: Reply)
    modifies rw
    ensures reply == DecodeReply(request, old(rw.input)).0
  {
    var status := rw.ReadFull(1);
    if status.None? {
      return Broken;
    }
    if request.Get? && status.value[0] == STATUS_NOT_FOUND {
      return Missing;
    }
    if !request.Get? && status.value[0] == STATUS_OK {
      return Done;
    }
    if status.value[0] != STATUS_OK && status.value[0] != STATUS_ERROR {
      return BadStatus(status.value[0]);
    }
    var data := ReadValue(rw);
    reply := if data.None? then Broken else if status.value[0] == STATUS_OK then Value(data.value) else Rejected(data.value);
  }

  /** What the network and the database do during one call. `up` and `back` are how many
      bytes of the request and of the reply arrive before the connection drops; `None`
      if all of them do. */
  datatype Network = Network(reachable: bool, writes: seq<WriteEvent>, up: Option<nat>, back: Option<nat>, fault: Option<Bytes>)

  function Arriving(data: Bytes, limit: Option<nat>): Bytes {
    if limit.Some? && limit.value < |data| then data[..limit.value] else data
  }

  predicate Whole(data: Bytes, limit: Option<nat>) {
    limit.Some? ==> |data| <= limit.value
  }

  datatype CallError = Unreachable | NotSent(reason: SendError) | NoReply | FromServer(message: Bytes) | BadReply

  /** Errors that leave open whether the request took effect. */
  predicate Undecided(e: CallError) {
    e == NoReply || e == NotSent(WriteFailed)
  }

  /** The request and its reply can both arrive whole. */
  predicate Delivers(net: Network, store: map<Bytes, Bytes>, request: Request) {
    && net.reachable && WithinLimit(request)
    && Whole(Encode(request), net.up) && Whole(ReplyTo(store, net.fault, request), net.back)
  }

  /** What must have happened for a call to report `e`. */
  ghost predicate Explains(net: Network, store: map<Bytes, Bytes>, request: Request, e: CallError) {
    match e
    case Unreachable => !net.reachable
    case NotSent(TooLong) => net.reachable && !WithinLimit(request)
    case NotSent(WriteFailed) => net.reachable && WithinLimit(request) && exists w :: w in net.writes && w.fails
    case NotSent(ShortWrite) =>
      net.reachable && WithinLimit(request) && exists w :: w in net.writes && !w.fails && w.taken == 0
    case NoReply => net.reachable && WithinLimit(request) && !Delivers(net, store, request)
    case FromServer(message) => Delivers(net, store, request) && net.fault == Some(message)
    case BadReply => false
  }

  /** The package: a server when an address is set, a local map otherwise. */
  class Client {
    var address: string
    var local: map<Bytes, Bytes>
    const server: Handler

    constructor ()
      ensures address == "" && local == map[] && fresh(server) && server.store == map[]
    {
      address, local := "", map[];
      server := new Handler();
    }

    ghost function Contents(): map<Bytes, Bytes>
      reads this, server
    {
      if address == "" then local else server.store
    }

    ghost predicate Valid()
      reads this, server
    {
      Fits(server.store)
    }

    /** One request on a connection of its own. A reply means that the request acted as on
        the plain map. An error may come although it did; `Explains` says when which comes. */
    method Exchange(request: Request, net: Network) returns (r: Result<Reply, CallError>)
      requires Valid() && FaultFits(net.fault)
      modifies server
      ensures Valid()
      ensures r.Ok? ==> Delivers(net, old(server.store), request)
      ensures r.Ok? ==> (server.store, r.value) == Plain(old(server.store), net.fault, request)
      ensures r.Err? ==> !r.error.FromServer? && Explains(net, old(server.store), request, r.error)
      ensures r.Err? && !Undecided(r.error) ==> server.store == old(server.store)
      ensures server.store == old(server.store) || server.store == Plain(old(server.store), net.fault, request).0
      ensures net.reachable && AllSmooth(net.writes) && WithinLimit(request) ==>
                && (r.Ok? <==> Delivers(net, old(server.store), request))
                && server.store == if Whole(Encode(request), net.up) then Plain(old(server.store), net.fault, request).0
                                   else old(server.store)
    {
      hide Encode, Handle, ServeAll, Plain, DecodeReply, ReplyTo, Fits, Ends, AllSmooth;
      if !net.reachable {
        return Err(Unreachable);
      }
      var conn := new Writer(net.writes);
      var sent, made := WriteOperation(conn, request);
      EndsWhy(made, conn.plan, sent);
      var atServer := new Stream(Arriving(conn.sent, net.up));
      if WithinLimit(request) {
        ArrivesPrefix(conn.sent, net.up, Encode(request));
        ServedOnce(server.store, net.fault, request, |atServer.input|);
      } else {
        NothingSent(server.store, net.fault);
      }
      ghost var before, served := server.store, ServeAll(server.store, [net.fault], atServer.input);
      server.HandleConn(atServer, [net.fault]);
      assert atServer.output == served.1;
      if sent.Some? {
        assert sent.value.TooLong? ==> server.store == before;
        assert sent.value.ShortWrite? ==> server.store == before;
        return Err(NotSent(sent.value));
      }
      var back := new Stream(Arriving(atServer.output, net.back));
      ReplyReads(before, net.fault, request, served.1, back.input);
      var reply := ReadReply(back, request);
      r := if reply.Broken? then Err(NoReply) else Ok(reply);
    }

    method Get(key: Bytes, net: Network) returns (r: Result<Option<Bytes>, CallError>)
      requires Valid() && FaultFits(net.fault)
      modifies server
      ensures Valid() && Contents() == old(Contents())
      ensures r.Ok? ==> r.value == if key in Contents() then Some(Contents()[key]) else None
      ensures address == "" ==> r.Ok?
      ensures address != "" ==> Reported(net, old(server.store), Request.Get(key), r)
    {
      if address == "" {
        return Ok(if key in local then Some(local[key]) else None);
      }
      var reply := Exchange(Request.Get(key), net);
      r := match reply
           case Err(e) => Err(e)
           case Ok(Missing) => Ok(None)
           case Ok(Value(value)) => Ok(Some(value))
           case Ok(Rejected(message)) => Err(FromServer(message))
           case Ok(_) => Err(BadReply);
    }

    /** Success means stored, a rejection by the server that nothing changed; only a
        failed write or a missing reply leaves it open. */
    method Set(key: Bytes, value: Bytes, net: Network) returns (r: Result<(), CallError>)
      requires Valid() && FaultFits(net.fault)
      modifies this, server
      ensures Valid() && address == old(address)
      ensures r.Ok? ==> Contents() == old(Contents())[key := value]
      ensures r.Err? && !Undecided(r.error) ==> Contents() == old(Contents())
      ensures r.Err? ==> Contents() == old(Contents()) || Contents() == old(Contents())[key := value]
      ensures address == "" ==> r.Ok?
      ensures address != "" ==> Reported(net, old(server.store), Request.Set(key, value), r)
    {
      if address == "" {
        local := local[key := value];
        return Ok(());
      }
      var reply := Exchange(Request.Set(key, value), net);
      r := Acknowledged(reply);
    }

    method Delete(key: Bytes, net: Network) returns (r: Result<(), CallError>)
      requires Valid() && FaultFits(net.fault)
      modifies this, server
      ensures Valid() && address == old(address)
      ensures r.Ok? ==> Contents() == old(Contents()) - {key}
      ensures r.Err? && !Undecided(r.error) ==> Contents() == old(Contents())
      ensures r.Err? ==> Contents() == old(Contents()) || Contents() == old(Contents()) - {key}
      ensures address == "" ==> r.Ok?
      ensures address != "" ==> Reported(net, old(server.store), Request.Delete(key), r)
    {
      if address == "" {
        local := local - {key};
        return Ok(());
      }
      var reply := Exchange(Request.Delete(key), net);
      r := Acknowledged(reply);
    }
  }

  /** Each error has its cause; and if all writes take something without failing, the call
      succeeds exactly if both messages arrive whole and the database rejects nothing. */
  ghost predicate Reported<T>(net: Network, store: map<Bytes, Bytes>, request: Request, r: Result<T, CallError>) {
    && (r.Ok? ==> Delivers(net, store, request) && net.fault.None?)
    && (r.Err? ==> Explains(net, store, request, r.error))
    && (Delivers(net, store, request) && AllSmooth(net.writes) ==>
          (net.fault.None? ==> r.Ok?) && (net.fault.Some? ==> r == Err(FromServer(net.fault.value))))
  }

  function Acknowledged(reply: Result<Reply, CallError>): Result<(), CallError> {
    match reply
    case Err(e) => Err(e)
    case Ok(Done) => Ok(())
    case Ok(Rejected(message)) => Err(FromServer(message))
    case Ok(_) => Err(BadReply)
  }

  lemma ArrivesPrefix(sent: Bytes, limit: Option<nat>, whole: Bytes)
    requires sent <= [] + whole
    ensures var input := Arriving(sent, limit);
            && |input| <= |whole| && input == whole[..|input|]
            && (sent == [] + whole ==> (|input| == |whole| <==> Whole(whole, limit)))
            && (|sent| < |whole| ==> |input| < |whole|)
  {
  }

  lemma NothingSent(store: map<Bytes, Bytes>, fault: Option<Bytes>)
    ensures ServeAll(store, [fault], []) == (store, [])
  {
  }

  /** A connection that carries the first `n` bytes of one request. */
  lemma ServedOnce(store: map<Bytes, Bytes>, fault: Option<Bytes>, r: Request, n: nat)
    requires WithinLimit(r) && Fits(store) && FaultFits(fault) && n <= |Encode(r)|
    ensures var (next, output) := ServeAll(store, [fault], Encode(r)[..n]);
            && Fits(next)
            && if n < |Encode(r)| then next == store && output == []
               else next == Plain(store, fault, r).0 && output == ReplyTo(store, fault, r)
  {
    if n < |Encode(r)| {
      TruncatedRequest(store, fault, r, n);
    } else {
      assert Encode(r)[..n] == Encode(r) + [];
      RequestRoundTrip(store, fault, r, [], []);
      var served := Handle(store, fault, Encode(r) + []);
      assert ServeAll(served.store, [], []) == (served.store, []);
      assert served.reply + [] == served.reply;
    }
  }

  /** What the client makes of a reply, of part of it, or of none. */
  lemma ReplyReads(store: map<Bytes, Bytes>, fault: Option<Bytes>, r: Request, output: Bytes, arrived: Bytes)
    requires Fits(store) && FaultFits(fault) && arrived <= output
    requires output == [] || output == ReplyTo(store, fault, r)
    ensures DecodeReply(r, arrived).0 ==
            if output == [] || |arrived| < |output| then Broken else Plain(store, fault, r).1
    ensures !Plain(store, fault, r).1.Broken? && ReplyTo(store, fault, r) != []
  {
    hide Fits;
    if output != [] && |arrived| == |output| {
      ReplyRoundTrip(store, fault, r, []);
      assert arrived == output + [];
    } else if output != [] {
      TruncatedReply(store, fault, r, |arrived|);
    }
  }

  // ---- The two views of one store (memory.go)

  const DATA_PREFIX: Bytes := [100, 97, 116, 97, 58]
  const KEY_PREFIX: Bytes := [107, 101, 121, 58]

  /** The keys of `RemoteStorage` and of `RemoteKeyStore`. */
  function DataKey(id: Bytes): Bytes { DATA_PREFIX + id }

  function NameKey(name: Bytes): Bytes { KEY_PREFIX + name }

  ghost function DataView(store: map<Bytes, Bytes>): imap<Bytes, Bytes> {
    imap id: Bytes | DataKey(id) in store :: store[DataKey(id)]
  }

  ghost function NameView(store: map<Bytes, Bytes>): imap<Bytes, Bytes> {
    imap name: Bytes | NameKey(name) in store :: store[NameKey(name)]
  }

  lemma ViewKeys(x: Bytes, y: Bytes)
    ensures DataKey(x) == DataKey(y) <==> x == y
    ensures NameKey(x) == NameKey(y) <==> x == y
    ensures DataKey(x) != NameKey(y)
    ensures DataKey(x) == Ascii("data:") + x && NameKey(x) == Ascii("key:") + x
  {
    assert Ascii("data:") == DATA_PREFIX && Ascii("key:") == KEY_PREFIX;
    assert DataKey(x)[5..] == x && DataKey(y)[5..] == y;
    assert NameKey(x)[4..] == x && NameKey(y)[4..] == y;
    assert DataKey(x)[0] == 100 && NameKey(y)[0] == 107;
  }

  lemma DataWrites(store: map<Bytes, Bytes>, k: Bytes, v: Bytes)
    ensures DataView(store[DataKey(k) := v]) == DataView(store)[k := v]
    ensures NameView(store[DataKey(k) := v]) == NameView(store)
    ensures DataView(store - {DataKey(k)}) == DataView(store) - {k}
    ensures NameView(store - {DataKey(k)}) == NameView(store)
  {
    hide DataKey, NameKey;
    DistinctKeys(k);
  }

  lemma NameWrites(store: map<Bytes, Bytes>, k: Bytes, v: Bytes)
    ensures NameView(store[NameKey(k) := v]) == NameView(store)[k := v]
    ensures DataView(store[NameKey(k) := v]) == DataView(store)
  {
    hide DataKey, NameKey;
    DistinctKeys(k);
  }

  lemma DistinctKeys(k: Bytes)
    ensures forall x :: (DataKey(x) == DataKey(k) <==> x == k) && (NameKey(x) == NameKey(k) <==> x == k)
    ensures forall x :: DataKey(x) != NameKey(k) && NameKey(x) != DataKey(k)
  {
    hide DataKey, NameKey;
    forall x
      ensures (DataKey(x) == DataKey(k) <==> x == k) && (NameKey(x) == NameKey(k) <==> x == k)
      ensures DataKey(x) != NameKey(k) && NameKey(x) != DataKey(k)
    {
      ViewKeys(x, k);
      ViewKeys(k, x);
    }
  }

  /** Over one shared store the two services are two independent maps. */
  lemma ViewsIndependent(store: map<Bytes, Bytes>, k: Bytes, v: Bytes)
    ensures DataView(store[DataKey(k) := v]) == DataView(store)[k := v]
    ensures NameView(store[DataKey(k) := v]) == NameView(store)
    ensures NameView(store[NameKey(k) := v]) == NameView(store)[k := v]
    ensures DataView(store[NameKey(k) := v]) == DataView(store)
    ensures DataView(store - {DataKey(k)}) == DataView(store) - {k}
    ensures NameView(store - {DataKey(k)}) == NameView(store)
  {
    hide DataView, NameView;
    DataWrites(store, k, v);
    NameWrites(store, k, v);
  }
}
