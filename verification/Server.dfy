/** The server side of a connection (internal/server/handler/handler.go, `handleConn` of
    internal/server/server.go), and connections as runs of a plain map. */
module Server {
  import opened Basics
  import opened Wire

  /** The server's end of a connection: bytes still to come, bytes already written. */
  class Stream {
    var input: Bytes
    var output: Bytes

    constructor (input: Bytes)
      ensures this.input == input && output == []
    {
      this.input, output := input, [];
    }

    method ReadFull(n: nat) returns (r: Option<Bytes>)
      modifies this
      ensures output == old(output)
      ensures match Take(old(input), n)
              case Some((data, rest)) => r == Some(data) && input == rest
              case None => r == None && input == []
    {
      if n <= |input| {
        r, input := Some(input[..n]), input[n..];
      } else {
        r, input := None, [];
      }
    }

    method Write(data: Bytes)
      modifies this
      ensures output == old(output) + data && input == old(input)
    {
      output := output + data;
    }
  }

  class Handler {
    var store: map<Bytes, Bytes>

    constructor ()
      ensures store == map[]
    {
      store := map[];
    }

    /** `writeValue` and `writeError`: one buffer, filled in place and written once. */
    method WriteFramed(rw: Stream, status: byte, data: Bytes)
      modifies rw
      ensures rw.output == old(rw.output) + ([status] + Framed(data)) && rw.input == old(rw.input)
    {
      var buf := new byte[5 + |data|];
      buf[0] := status;
      var size := PutUint32(ToUint32(|data|));
      for i := 0 to 4
        modifies buf
        invariant buf[0] == status && forall k :: 0 <= k < i ==> buf[1 + k] == size[k]
      {
        buf[1 + i] := size[i];
      }
      for i := 0 to |data|
        modifies buf
        invariant buf[0] == status && forall k :: 0 <= k < 4 ==> buf[1 + k] == size[k]
        invariant forall k :: 0 <= k < i ==> buf[5 + k] == data[k]
      {
        buf[5 + i] := data[i];
      }
      assert buf[..] == [status] + Framed(data);
      rw.Write(buf[..]);
    }

    method ReadFramed(rw: Stream) returns (r: Option<Bytes>)
      modifies rw
      ensures rw.output == old(rw.output)
      ensures match TakeFramed(old(rw.input))
              case Some((data, rest)) => r == Some(data) && rw.input == rest
              case None => r == None
    {
      var size := rw.ReadFull(4);
      if size.None? {
        return None;
      }
      r := rw.ReadFull(Uint32(size.value));
    }

    /** One request; `fault` is the error that the database reports for it, if any. */
    method HandleRequest(rw: Stream, fault: Option<Bytes>) returns (ok: bool)
      modifies this, rw
      ensures match Handle(old(store), fault, old(rw.input))
              case Closed => !ok && store == old(store) && rw.output == old(rw.output)
              case Served(next, reply, rest) =>
                ok && store == next && rw.output == old(rw.output) + reply && rw.input == rest
    {
      var op := rw.ReadFull(1);
      if op.None? {
        return false;
      }
      var key := ReadFramed(rw);
      if key.None? {
        return false;
      }
      ok := true;
      if op.value[0] == OP_GET {
        if fault.Some? {
          WriteFramed(rw, STATUS_ERROR, fault.value);
        } else if key.value in store {
          WriteFramed(rw, STATUS_OK, store[key.value]);
        } else {
          rw.Write([STATUS_NOT_FOUND]);
        }
      } else if op.value[0] == OP_SET {
        var value := ReadFramed(rw);
        if value.None? {
          return false;
        }
        if fault.Some? {
          WriteFramed(rw, STATUS_ERROR, fault.value);
        } else {
          store := store[key.value := value.value];
          rw.Write([STATUS_OK]);
        }
      } else if op.value[0] == OP_DELETE {
        if fault.Some? {
          WriteFramed(rw, STATUS_ERROR, fault.value);
        } else {
          store := store - {key.value};
          rw.Write([STATUS_OK]);
        }
      } else {
        WriteFramed(rw, STATUS_ERROR, UnknownOp(op.value[0]));
      }
    }

    /** The connection loop: requests until one cannot be read. */
    method HandleConn(rw: Stream, faults: seq<Option<Bytes>>)
      modifies this, rw
      ensures (store, rw.output) == (ServeAll(old(store), faults, old(rw.input)).0,
                                     old(rw.output) + ServeAll(old(store), faults, old(rw.input)).1)
    {
      hide Handle, ServeAll;
      var left := faults;
      var ok := true;
      ghost var whole := ServeAll(store, left, rw.input);
      ghost var written := rw.output;
      while ok
        invariant ok ==> whole.0 == ServeAll(store, left, rw.input).0 &&
                         written + whole.1 == rw.output + ServeAll(store, left, rw.input).1
        invariant !ok ==> whole.0 == store && written + whole.1 == rw.output
        decreases ok, |rw.input|
      {
        ghost var before, out := ServeAll(store, left, rw.input).1, rw.output;
        ServeStep(store, left, rw.input);
        ok := HandleRequest(rw, FirstFault(left));
        if ok {
          left := RestFaults(left);
          ghost var after := ServeAll(store, left, rw.input).1;
          assert out + before == rw.output + after by {
            assert before == rw.output[|out|..] + after;
          }
        } else {
          assert out + before == out;
        }
      }
    }
  }

  /** The database's report for the next request; none beyond the list. */
  function FirstFault(faults: seq<Option<Bytes>>): Option<Bytes> {
    if faults == [] then None else faults[0]
  }

  function RestFaults(faults: seq<Option<Bytes>>): seq<Option<Bytes>> {
    if faults == [] then [] else faults[1..]
  }

  /** A whole connection: the final store and everything written back. */
  function ServeAll(store: map<Bytes, Bytes>, faults: seq<Option<Bytes>>, input: Bytes): (map<Bytes, Bytes>, Bytes)
    decreases |input|
  {
    match Handle(store, FirstFault(faults), input)
    case Closed => (store, [])
    case Served(next, reply, rest) =>
      var (last, output) := ServeAll(next, RestFaults(faults), rest);
      (last, reply + output)
  }

  /** One request as it was served: the store, the database's report and the input that it
      met, and what came of it. */
  datatype Turn = Turn(store: map<Bytes, Bytes>, fault: Option<Bytes>, input: Bytes, served: Served)

  /** All requests that one connection gets served, whatever its bytes are. */
  function Turns(store: map<Bytes, Bytes>, faults: seq<Option<Bytes>>, input: Bytes): seq<Turn>
    decreases |input|
  {
    var fault := FirstFault(faults);
    match Handle(store, fault, input)
    case Closed => []
    case Served(next, reply, rest) =>
      [Turn(store, fault, input, Served(next, reply, rest))] + Turns(next, RestFaults(faults), rest)
  }

  function RepliesOf(turns: seq<Turn>): seq<Bytes>
    requires forall k :: 0 <= k < |turns| ==> turns[k].served.Served?
  {
    seq(|turns|, k requires 0 <= k < |turns| => turns[k].served.reply)
  }

  /** The turn took the bytes of `r`, and did and replied what a plain map does. */
  ghost predicate Serves(t: Turn, r: Request) {
    && t.served.Served? && WithinLimit(r) && t.input == Encode(r) + t.served.rest
    && (t.served.store, DecodeReply(r, t.served.reply)) ==
       (Plain(t.store, t.fault, r).0, (Plain(t.store, t.fault, r).1, []))
  }

  /** The turn met an operation that the protocol does not have, and refused it. */
  ghost predicate Refuses(t: Turn) {
    && t.served.Served? && t.served.store == t.store && t.input != []
    && t.input[0] !in {1, 2, 3}
    && forall r :: DecodeReply(r, t.served.reply) == (Rejected(UnknownOp(t.input[0])), [])
  }

  lemma DecimalShort(n: nat)
    requires n < 0x100
    ensures |Decimal(n)| <= 3
  {
    assert n / 10 / 10 < 10;
    assert n / 10 >= 10 ==> Decimal(n / 10) == Decimal(n / 10 / 10) + [(48 + n / 10 % 10) as byte];
  }

  lemma ErrorReads(r: Request, message: Bytes)
    requires |message| < TWO_32
    ensures DecodeReply(r, ErrorReply(message)) == (Rejected(message), [])
  {
    ReplyRoundTrip(map[], Some(message), r, []);
    assert ErrorReply(message) + [] == ErrorReply(message);
  }

  /** Whatever bytes come next, what is served is the request that their first byte stands
      for, or the refusal of an unknown one. */
  lemma ServedIsRequest(store: map<Bytes, Bytes>, fault: Option<Bytes>, input: Bytes)
    requires Fits(store) && FaultFits(fault) && Handle(store, fault, input).Served?
    ensures var t := Turn(store, fault, input, Handle(store, fault, input));
            && input != []
            && (input[0] == 1 ==> exists key :: Serves(t, Get(key)))
            && (input[0] == 2 ==> exists key, value :: Serves(t, Set(key, value)))
            && (input[0] == 3 ==> exists key :: Serves(t, Delete(key)))
            && (input[0] !in {1, 2, 3} ==> Refuses(t))
  {
    hide PutUint32, Uint32, TakeFramed, Framed, DecodeReply;
    var t := Turn(store, fault, input, Handle(store, fault, input));
    TakeFramedExact(input[1..]);
    var (key, rest) := TakeFramed(input[1..]).value;
    if input[0] !in {OP_GET, OP_SET, OP_DELETE} {
      DecimalShort(input[0] as nat);
      forall r ensures DecodeReply(r, t.served.reply) == (Rejected(UnknownOp(input[0])), []) {
        ErrorReads(r, UnknownOp(input[0]));
      }
    } else {
      if input[0] == OP_SET {
        TakeFramedExact(rest);
      }
      var r := if input[0] == OP_GET then Get(key) else if input[0] == OP_DELETE then Delete(key)
               else Set(key, TakeFramed(rest).value.0);
      assert input == [input[0]] + (Framed(key) + rest) == Encode(r) + t.served.rest;
      ReplyRoundTrip(store, fault, r, []);
      assert ReplyTo(store, fault, r) + [] == t.served.reply;
      assert Serves(t, r);
    }
  }

  /** Whatever bytes arrive, every request served acts and answers as on a plain map, and
      no value of 2^32 bytes or more is ever stored, so no reply on the way has a
      truncated length. */
  lemma {:induction false} StoredValuesFit(store: map<Bytes, Bytes>, faults: seq<Option<Bytes>>, input: Bytes)
    requires Fits(store) && (forall k :: 0 <= k < |faults| ==> FaultFits(faults[k]))
    ensures forall k :: 0 <= k < |Turns(store, faults, input)| ==>
              var t := Turns(store, faults, input)[k];
              Fits(t.store) && t.served.Served? && (Refuses(t) || exists r :: Serves(t, r))
    ensures ServeAll(store, faults, input).1 == Flatten(RepliesOf(Turns(store, faults, input)))
    ensures Fits(ServeAll(store, faults, input).0)
    decreases |input|
  {
    hide Handle, Refuses, Serves, Fits;
    var fault := FirstFault(faults);
    match Handle(store, fault, input)
    case Closed =>
    case Served(next, reply, rest) =>
      ServedIsRequest(store, fault, input);
      NextFits(store, fault, input);
      StoredValuesFit(next, RestFaults(faults), rest);
      var turns := Turns(store, faults, input);
      assert RepliesOf(turns)[1..] == RepliesOf(turns[1..]);
  }

  lemma NextFits(store: map<Bytes, Bytes>, fault: Option<Bytes>, input: Bytes)
    requires Fits(store) && Handle(store, fault, input).Served?
    ensures Fits(Handle(store, fault, input).store) && |Handle(store, fault, input).rest| < |input|
  {
  }

  lemma ServeStep(store: map<Bytes, Bytes>, faults: seq<Option<Bytes>>, input: Bytes)
    ensures ServeAll(store, faults, input) ==
            match Handle(store, FirstFault(faults), input)
            case Closed => (store, [])
            case Served(next, reply, rest) =>
              (ServeAll(next, RestFaults(faults), rest).0, reply + ServeAll(next, RestFaults(faults), rest).1)
  {
  }

  function EncodeAll(rs: seq<Request>): Bytes {
    if rs == [] then [] else Encode(rs[0]) + EncodeAll(rs[1..])
  }

  /** The replies to `rs`, read off one after the other. */
  function DecodeAll(rs: seq<Request>, output: Bytes): seq<Reply> {
    if rs == [] then []
    else
      var (reply, rest) := DecodeReply(rs[0], output);
      [reply] + DecodeAll(rs[1..], rest)
  }

  /** The same requests on a plain map. */
  function PlainAll(store: map<Bytes, Bytes>, faults: seq<Option<Bytes>>, rs: seq<Request>): (map<Bytes, Bytes>, seq<Reply>)
    decreases |rs|
  {
    if rs == [] then (store, [])
    else
      var (next, reply) := Plain(store, FirstFault(faults), rs[0]);
      var (last, replies) := PlainAll(next, RestFaults(faults), rs[1..]);
      (last, [reply] + replies)
  }

  lemma TruncatedFramed(data: Bytes, n: nat)
    requires |data| < TWO_32 && n < |Framed(data)|
    ensures TakeFramed(Framed(data)[..n]) == None
  {
    hide PutUint32, Uint32;
    var input := Framed(data)[..n];
    if n >= 4 {
      var size := PutUint32(|data|);
      assert input == (size + data)[..n] && |size| == 4;
      assert forall k :: 0 <= k < 4 ==> input[k] == size[k];
      assert input[..4] == size;
      Uint32RoundTrip(|data|);
    }
  }

  lemma CutHead(x: byte, body: Bytes, n: nat)
    requires 1 <= n <= 1 + |body|
    ensures ([x] + body)[..n][..1] == [x] && ([x] + body)[..n][1..] == body[..n - 1]
  {
  }

  /** A request cut short changes nothing and gets no reply. */
  lemma TruncatedRequest(store: map<Bytes, Bytes>, fault: Option<Bytes>, r: Request, n: nat)
    requires WithinLimit(r) && n < |Encode(r)|
    ensures Handle(store, fault, Encode(r)[..n]) == Closed
  {
    hide PutUint32, Uint32, TakeFramed;
    var input := Encode(r)[..n];
    var head := 1 + |Framed(r.key)|;
    var body := Framed(r.key) + if r.Set? then Framed(r.value) else [];
    assert Encode(r) == [OpOf(r)] + body;
    if n >= 1 {
      CutHead(OpOf(r), body, n);
    }
    if 1 <= n < head {
      assert body[..n - 1] == Framed(r.key)[..n - 1];
      TruncatedFramed(r.key, n - 1);
    } else if n >= head {
      assert r.Set?;
      var rest := Framed(r.value)[..n - head];
      assert body[..n - 1] == Framed(r.key) + rest;
      TakeFramedRoundTrip(r.key, rest);
      TruncatedFramed(r.value, n - head);
    }
  }

  /** A reply cut short anywhere is no reply. */
  lemma TruncatedReply(store: map<Bytes, Bytes>, fault: Option<Bytes>, r: Request, n: nat)
    requires Fits(store) && FaultFits(fault) && n < |ReplyTo(store, fault, r)|
    ensures DecodeReply(r, ReplyTo(store, fault, r)[..n]).0 == Broken
  {
    hide PutUint32, Uint32, TakeFramed, Framed;
    var data := if fault.Some? then fault.value else if r.Get? && r.key in store then store[r.key] else [];
    var reply := ReplyTo(store, fault, r);
    if n >= 1 {
      assert reply == [reply[0]] + Framed(data);
      CutHead(reply[0], Framed(data), n);
      TruncatedFramed(data, n - 1);
    }
  }

  /** Client and server compose to a plain map: for any requests within the length limit
      on one connection, each followed by the next, whatever the database rejects, and
      even if the last request is cut off, the server ends with the plain map's contents
      and the client reads the plain map's answers. */
  lemma {:induction false} ConnectionIsPlainMap(store: map<Bytes, Bytes>, faults: seq<Option<Bytes>>, rs: seq<Request>,
      last: Request, n: nat)
    requires Fits(store) && (forall k :: 0 <= k < |faults| ==> FaultFits(faults[k]))
    requires (forall k :: 0 <= k < |rs| ==> WithinLimit(rs[k])) && WithinLimit(last) && n < |Encode(last)|
    ensures var (store', output) := ServeAll(store, faults, EncodeAll(rs) + Encode(last)[..n]);
            && (store', DecodeAll(rs, output)) == PlainAll(store, faults, rs)
            && Fits(store')
    decreases |rs|
  {
    var cut := Encode(last)[..n];
    if rs == [] {
      assert [] + cut == cut;
      TruncatedRequest(store, FirstFault(faults), last, n);
    } else {
      var rest := EncodeAll(rs[1..]) + cut;
      assert EncodeAll(rs) + cut == Encode(rs[0]) + rest;
      var fault := FirstFault(faults);
      var next := Plain(store, fault, rs[0]).0;
      RequestRoundTrip(store, fault, rs[0], rest, ServeAll(next, RestFaults(faults), rest).1);
      ConnectionIsPlainMap(next, RestFaults(faults), rs[1..], last, n);
    }
  }
}
