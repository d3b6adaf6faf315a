/** Several connections at once (internal/server/server.go, `Run` and `handleConn`): every
    connection has a goroutine of its own, which serves its requests one after the other. A
    request makes one call of the database, so one `Handle` is one step. */
module Connections {
  import opened Basics
  import opened Wire
  import opened Server

  /** One step: the connection that is served next, and what the database reports for it. */
  datatype Slot = Slot(conn: nat, fault: Option<Bytes>)

  /** The store and the unread input of every connection. A connection whose next request
      cannot be read is closed and has no more input. */
  datatype Serving = Serving(store: map<Bytes, Bytes>, inputs: seq<Bytes>)

  function Serve(v: Serving, slot: Slot): Serving {
    if slot.conn >= |v.inputs| then v
    else
      match Handle(v.store, slot.fault, v.inputs[slot.conn])
      case Closed => v.(inputs := v.inputs[slot.conn := []])
      case Served(next, _, rest) => Serving(next, v.inputs[slot.conn := rest])
  }

  /** Any interleaving. */
  function ServeAny(v: Serving, slots: seq<Slot>): Serving
    decreases |slots|
  {
    if slots == [] then v else ServeAny(Serve(v, slots[0]), slots[1..])
  }

  function Written(v: Serving, slot: Slot): Bytes {
    if slot.conn >= |v.inputs| then []
    else
      match Handle(v.store, slot.fault, v.inputs[slot.conn])
      case Closed => []
      case Served(_, reply, _) => reply
  }

  /** All that is written back on connection `c`. */
  function WrittenOn(v: Serving, slots: seq<Slot>, c: nat): Bytes
    decreases |slots|
  {
    if slots == [] then []
    else (if slots[0].conn == c then Written(v, slots[0]) else []) + WrittenOn(Serve(v, slots[0]), slots[1..], c)
  }

  /** A request in the order in which the server gets to them. */
  datatype Asked = Asked(conn: nat, fault: Option<Bytes>, request: Request)

  /** The requests of all connections, merged as the slots say. */
  function Merged(queues: seq<seq<Request>>, slots: seq<Slot>): seq<Asked>
    decreases |slots|
  {
    if slots == [] then []
    else
      var c := slots[0].conn;
      if c >= |queues| || queues[c] == [] then Merged(queues, slots[1..])
      else [Asked(c, slots[0].fault, queues[c][0])] + Merged(queues[c := queues[c][1..]], slots[1..])
  }

  function Faults(m: seq<Asked>): seq<Option<Bytes>> {
    if m == [] then [] else [m[0].fault] + Faults(m[1..])
  }

  function Requests(m: seq<Asked>): seq<Request> {
    if m == [] then [] else [m[0].request] + Requests(m[1..])
  }

  /** What of `m` was asked on connection `c`. */
  function AskedOn(m: seq<Asked>, c: nat): seq<Request> {
    if m == [] then []
    else (if m[0].conn == c then [m[0].request] else []) + AskedOn(m[1..], c)
  }

  /** The answers to the same, out of the answers to all of `m`. */
  function AnswersOn(m: seq<Asked>, replies: seq<Reply>, c: nat): seq<Reply>
    requires |m| <= |replies|
  {
    if m == [] then []
    else (if m[0].conn == c then [replies[0]] else []) + AnswersOn(m[1..], replies[1..], c)
  }

  lemma {:induction false} OneAnswerEach(store: map<Bytes, Bytes>, faults: seq<Option<Bytes>>, rs: seq<Request>)
    ensures |PlainAll(store, faults, rs).1| == |rs|
    decreases |rs|
  {
    if rs != [] {
      OneAnswerEach(Plain(store, FirstFault(faults), rs[0]).0, RestFaults(faults), rs[1..]);
    }
  }

  lemma {:induction false} RequestsCount(m: seq<Asked>)
    ensures |Requests(m)| == |m|
  {
    if m != [] {
      RequestsCount(m[1..]);
    }
  }

  /** Part of a request, after which the connection ends. */
  ghost predicate IsCut(tail: Bytes) {
    exists r, n: nat :: WithinLimit(r) && n < |Encode(r)| && tail == Encode(r)[..n]
  }

  /** Connections that carry whole requests, each list perhaps followed by a cut one. */
  ghost predicate Carries(inputs: seq<Bytes>, queues: seq<seq<Request>>) {
    && |inputs| == |queues|
    && forall c :: 0 <= c < |inputs| ==> CarriesOne(inputs[c], queues[c])
  }

  ghost predicate CarriesOne(input: Bytes, queue: seq<Request>) {
    && (forall k :: 0 <= k < |queue| ==> WithinLimit(queue[k]))
    && exists tail :: IsCut(tail) && input == EncodeAll(queue) + tail
  }

  lemma NothingMore(store: map<Bytes, Bytes>, fault: Option<Bytes>, input: Bytes)
    requires CarriesOne(input, [])
    ensures Handle(store, fault, input) == Closed && CarriesOne([], [])
  {
    hide Handle, Encode;
    var tail :| IsCut(tail) && input == EncodeAll([]) + tail;
    var r, n: nat :| WithinLimit(r) && n < |Encode(r)| && tail == Encode(r)[..n];
    assert input == tail;
    TruncatedRequest(store, fault, r, n);
    assert Encode(r)[..0] == [] && IsCut([]);
    assert [] == EncodeAll([]) + [];
  }

  lemma NextRequest(store: map<Bytes, Bytes>, fault: Option<Bytes>, input: Bytes, queue: seq<Request>)
    requires CarriesOne(input, queue) && queue != [] && Fits(store) && FaultFits(fault)
    ensures var (served, plain) := (Handle(store, fault, input), Plain(store, fault, queue[0]));
            && served.Served? && served.store == plain.0 && Fits(plain.0) && CarriesOne(served.rest, queue[1..])
            && forall after :: DecodeReply(queue[0], served.reply + after) == (plain.1, after)
  {
    hide Handle, Encode, DecodeReply, Plain, Fits, ReplyTo;
    var tail :| IsCut(tail) && input == EncodeAll(queue) + tail;
    var rest := EncodeAll(queue[1..]) + tail;
    assert input == Encode(queue[0]) + rest;
    RequestRoundTrip(store, fault, queue[0], rest, []);
    forall after
      ensures DecodeReply(queue[0], Handle(store, fault, input).reply + after) == (Plain(store, fault, queue[0]).1, after)
    {
      RequestRoundTrip(store, fault, queue[0], rest, after);
    }
  }

  lemma CarriesNext(inputs: seq<Bytes>, queues: seq<seq<Request>>, c: nat, input: Bytes, queue: seq<Request>)
    requires Carries(inputs, queues) && c < |inputs| && CarriesOne(input, queue)
    ensures Carries(inputs[c := input], queues[c := queue])
  {
  }

  /** However the server interleaves its connections, it acts as a plain map on the merged
      requests, and each client reads off its connection the answers to its own. */
  lemma {:induction false} ConnectionsArePlainMap(v: Serving, queues: seq<seq<Request>>, slots: seq<Slot>)
    requires Carries(v.inputs, queues) && Fits(v.store)
    requires forall k :: 0 <= k < |slots| ==> FaultFits(slots[k].fault)
    ensures var m := Merged(queues, slots);
            var (plain, replies) := PlainAll(v.store, Faults(m), Requests(m));
            && ServeAny(v, slots).store == plain && Fits(plain) && |replies| == |m|
            && forall c :: 0 <= c < |queues| ==>
                 && AskedOn(m, c) <= queues[c]
                 && DecodeAll(AskedOn(m, c), WrittenOn(v, slots, c)) == AnswersOn(m, replies, c)
    decreases |slots|
  {
    hide Handle, DecodeReply, Plain, Fits, Carries, CarriesOne;
    var m := Merged(queues, slots);
    RequestsCount(m);
    OneAnswerEach(v.store, Faults(m), Requests(m));
    if slots != [] {
      var (c, fault) := (slots[0].conn, slots[0].fault);
      SameCount(v.inputs, queues);
      var w := Serve(v, slots[0]);
      if c >= |queues| {
        ConnectionsArePlainMap(w, queues, slots[1..]);
        NothingWritten(v, slots);
      } else if queues[c] == [] {
        CarriesAt(v.inputs, queues, c);
        NothingMore(v.store, fault, v.inputs[c]);
        CarriesNext(v.inputs, queues, c, [], []);
        assert queues[c := []] == queues;
        ConnectionsArePlainMap(w, queues, slots[1..]);
        NothingWritten(v, slots);
      } else {
        CarriesAt(v.inputs, queues, c);
        NextRequest(v.store, fault, v.inputs[c], queues[c]);
        var queue := queues[c][1..];
        CarriesNext(v.inputs, queues, c, w.inputs[c], queue);
        ConnectionsArePlainMap(w, queues[c := queue], slots[1..]);
        assert m[1..] == Merged(queues[c := queue], slots[1..]);
        assert Faults(m)[1..] == Faults(m[1..]) && Requests(m)[1..] == Requests(m[1..]);
        assert Faults(m)[0] == fault && Requests(m)[0] == queues[c][0];
        var replies := PlainAll(v.store, Faults(m), Requests(m)).1;
        forall d | 0 <= d < |queues|
          ensures AskedOn(m, d) <= queues[d]
          ensures DecodeAll(AskedOn(m, d), WrittenOn(v, slots, d)) == AnswersOn(m, replies, d)
        {
          assert queues[c] == [queues[c][0]] + queue;
          AnswerFirst(m, replies, d, Written(v, slots[0]), WrittenOn(w, slots[1..], d));
        }
      }
    }
  }

  lemma NothingWritten(v: Serving, slots: seq<Slot>)
    requires slots != [] && Written(v, slots[0]) == []
    ensures forall c :: WrittenOn(v, slots, c) == WrittenOn(Serve(v, slots[0]), slots[1..], c)
  {
  }

  /** The first answer, in front of the others on its connection. */
  lemma AnswerFirst(m: seq<Asked>, replies: seq<Reply>, d: nat, reply: Bytes, output: Bytes)
    requires m != [] && |replies| == |m|
    requires DecodeReply(m[0].request, reply + output) == (replies[0], output)
    requires DecodeAll(AskedOn(m[1..], d), output) == AnswersOn(m[1..], replies[1..], d)
    ensures DecodeAll(AskedOn(m, d), (if m[0].conn == d then reply else []) + output) == AnswersOn(m, replies, d)
  {
    hide DecodeReply;
    if m[0].conn == d {
      assert AskedOn(m, d) == [m[0].request] + AskedOn(m[1..], d);
      assert AskedOn(m, d)[1..] == AskedOn(m[1..], d);
    } else {
      assert [] + output == output;
      assert AskedOn(m, d) == AskedOn(m[1..], d);
      assert AnswersOn(m, replies, d) == AnswersOn(m[1..], replies[1..], d);
    }
  }

  lemma SameCount(inputs: seq<Bytes>, queues: seq<seq<Request>>)
    requires Carries(inputs, queues)
    ensures |inputs| == |queues|
  {
  }

  lemma CarriesAt(inputs: seq<Bytes>, queues: seq<seq<Request>>, c: nat)
    requires Carries(inputs, queues) && c < |inputs|
    ensures |inputs| == |queues| && CarriesOne(inputs[c], queues[c])
  {
  }
}
