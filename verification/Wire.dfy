/** The binary storage protocol: what the client writes (internal/client/remote/store.go)
    and what the server makes of it (internal/server/handler/handler.go). */
module Wire {
  import opened Basics

  const OP_GET: byte := 1
  const OP_SET: byte := 2
  const OP_DELETE: byte := 3

  const STATUS_OK: byte := 0
  const STATUS_NOT_FOUND: byte := 1
  const STATUS_ERROR: byte := 2

  const TWO_32: nat := 0x1_0000_0000

  /** Go's conversion of a length to `uint32`. */
  function ToUint32(n: nat): (u: nat)
    ensures u < TWO_32
  {
    n % TWO_32
  }

  /** `binary.BigEndian.PutUint32`. */
  function PutUint32(n: nat): (data: Bytes)
    requires n < TWO_32
    ensures |data| == 4
  {
    [(n / 0x100_0000) as byte, (n / 0x1_0000 % 0x100) as byte, (n / 0x100 % 0x100) as byte, (n % 0x100) as byte]
  }

  /** `binary.BigEndian.Uint32`. */
  function Uint32(data: Bytes): (n: nat)
    requires |data| == 4
    ensures n < TWO_32
  {
    data[0] as nat * 0x100_0000 + data[1] as nat * 0x1_0000 + data[2] as nat * 0x100 + data[3] as nat
  }

  lemma Uint32RoundTrip(n: nat)
    requires n < TWO_32
    ensures Uint32(PutUint32(n)) == n
  {
    var a, b, c := n / 0x100, n / 0x1_0000, n / 0x100_0000;
    assert n == a * 0x100 + n % 0x100;
    assert a == b * 0x100 + a % 0x100;
    assert b == c * 0x100 + b % 0x100;
  }

  lemma PutUint32Inverse(data: Bytes)
    requires |data| == 4
    ensures PutUint32(Uint32(data)) == data
  {
    var n := Uint32(data);
    var c := data[0] as nat;
    var b := c * 0x100 + data[1] as nat;
    var a := b * 0x100 + data[2] as nat;
    LowDigit(c, data[1]);
    LowDigit(b, data[2]);
    LowDigit(a, data[3]);
    assert n / 0x100 == a && n / 0x1_0000 == b && n / 0x100_0000 == c;
  }

  lemma LowDigit(q: nat, d: byte)
    ensures (q * 0x100 + d as nat) / 0x100 == q && (q * 0x100 + d as nat) % 0x100 == d as nat
  {
  }

  /** The most significant byte comes first: encodings order as their numbers do. */
  lemma BigEndianOrder(m: nat, n: nat)
    requires m < n < TWO_32
    ensures exists k :: 0 <= k < 4 && PutUint32(m)[..k] == PutUint32(n)[..k] && PutUint32(m)[k] < PutUint32(n)[k]
  {
    var (x, y) := (PutUint32(m), PutUint32(n));
    Uint32RoundTrip(m);
    Uint32RoundTrip(n);
    var k := if x[0] != y[0] then 0 else if x[1] != y[1] then 1 else if x[2] != y[2] then 2 else 3;
    assert x[..k] == y[..k] && x[k] < y[k];
  }

  /** A length and that many bytes. */
  function Framed(data: Bytes): Bytes {
    PutUint32(ToUint32(|data|)) + data
  }

  datatype Request = Get(key: Bytes) | Set(key: Bytes, value: Bytes) | Delete(key: Bytes)

  predicate WithinLimit(r: Request) {
    |r.key| < TWO_32 && (r.Set? ==> |r.value| < TWO_32)
  }

  function OpOf(r: Request): byte {
    match r
    case Get(_) => OP_GET
    case Set(_, _) => OP_SET
    case Delete(_) => OP_DELETE
  }

  /** What `writeOperation` sends. */
  function Encode(r: Request): Bytes {
    [OpOf(r)] + Framed(r.key) + if r.Set? then Framed(r.value) else []
  }

  /** A request as the protocol documents it: the operation's number, the key's length and
      the key, and for a `Set` the same of the value. */
  lemma RequestBytes(r: Request)
    requires WithinLimit(r)
    ensures r.Get? ==> Encode(r) == [1] + PutUint32(|r.key|) + r.key
    ensures r.Set? ==> Encode(r) == [2] + PutUint32(|r.key|) + r.key + PutUint32(|r.value|) + r.value
    ensures r.Delete? ==> Encode(r) == [3] + PutUint32(|r.key|) + r.key
  {
    hide PutUint32;
    var key := Framed(r.key);
    assert [OpOf(r)] + key == [OpOf(r)] + PutUint32(|r.key|) + r.key;
    if r.Set? {
      assert Encode(r) == [OpOf(r)] + key + PutUint32(|r.value|) + r.value;
    }
  }

  /** `io.ReadFull`: exactly `n` bytes and the rest, or nothing at the end of the stream. */
  function Take(input: Bytes, n: nat): (r: Option<(Bytes, Bytes)>)
    ensures r.Some? ==> |r.value.0| == n && input == r.value.0 + r.value.1
  {
    if n <= |input| then Some((input[..n], input[n..])) else None
  }

  function TakeFramed(input: Bytes): (r: Option<(Bytes, Bytes)>)
    ensures r.Some? ==> |r.value.0| < TWO_32 && |input| == 4 + |r.value.0| + |r.value.1|
  {
    match Take(input, 4)
    case None => None
    case Some((size, rest)) => Take(rest, Uint32(size))
  }

  /** What one `Handle` does: the store after it, its reply, and the unread input; or the
      end of the connection, with whatever was read discarded. */
  datatype Served = Served(store: map<Bytes, Bytes>, reply: Bytes, rest: Bytes) | Closed

  function ValueReply(value: Bytes): Bytes {
    [STATUS_OK] + Framed(value)
  }

  function ErrorReply(message: Bytes): Bytes {
    [STATUS_ERROR] + Framed(message)
  }

  const UNKNOWN_OP: Bytes := [117, 110, 107, 110, 111, 119, 110, 32, 111, 112, 58, 32]

  /** `unknown op: %d`. */
  function UnknownOp(op: byte): Bytes {
    UNKNOWN_OP + Decimal(op as nat)
  }

  function Decimal(n: nat): Bytes {
    (if n < 10 then [] else Decimal(n / 10)) + [(48 + n % 10) as byte]
  }

  predicate AreDigits(text: Bytes) {
    forall j :: 0 <= j < |text| ==> 48 <= text[j] <= 57
  }

  /** The number that decimal digits denote. */
  function Number(digits: Bytes): nat
    requires AreDigits(digits)
  {
    if digits == [] then 0 else Number(digits[..|digits| - 1]) * 10 + (digits[|digits| - 1] - 48) as nat
  }

  /** Decimals read back as the number, and begin with no idle zero. */
  lemma {:induction false} DecimalReads(n: nat)
    ensures AreDigits(Decimal(n))
    ensures Number(Decimal(n)) == n
    ensures Decimal(n) != [] && (n >= 10 ==> Decimal(n)[0] != 48)
  {
    var digits := Decimal(n);
    if n < 10 {
      assert digits[..0] == [];
    } else {
      DecimalReads(n / 10);
      assert digits[..|digits| - 1] == Decimal(n / 10);
    }
    if 10 <= n < 100 {
      assert Decimal(n / 10)[0] == (48 + n / 10) as byte;
    }
  }

  function Ascii(text: string): (data: Bytes)
    requires forall j :: 0 <= j < |text| ==> text[j] < 128 as char
    ensures |data| == |text| && forall j :: 0 <= j < |text| ==> data[j] as int == text[j] as int
  {
    seq(|text|, j requires 0 <= j < |text| => text[j] as int as byte)
  }

  lemma UnknownOpAscii()
    ensures UNKNOWN_OP == Ascii("unknown op: ")
  {
    hide Decimal;
    var text := Ascii("unknown op: ");
    assert |UNKNOWN_OP| == |text| == 12;
  }

  /** An unknown operation is refused by its number. */
  lemma UnknownOpText(op: byte)
    ensures exists digits ::
              && UnknownOp(op) == Ascii("unknown op: ") + digits
              && AreDigits(digits) && Number(digits) == op as nat && (op >= 10 ==> digits[0] != 48)
  {
    hide Decimal, Ascii, Number, AreDigits;
    UnknownOpAscii();
    DecimalReads(op as nat);
  }

  /** One request on a connection; `fault` is what the database reports, if anything. */
  function Handle(store: map<Bytes, Bytes>, fault: Option<Bytes>, input: Bytes): (served: Served)
    ensures served.Served? ==> |served.rest| < |input|
    ensures served.Served? && Fits(store) ==> Fits(served.store)
  {
    match Take(input, 1)
    case None => Closed
    case Some((op, afterOp)) =>
      match TakeFramed(afterOp)
      case None => Closed
      case Some((key, rest)) =>
        if op[0] == OP_GET then
          if fault.Some? then Served(store, ErrorReply(fault.value), rest)
          else if key in store then Served(store, ValueReply(store[key]), rest)
          else Served(store, [STATUS_NOT_FOUND], rest)
        else if op[0] == OP_SET then
          match TakeFramed(rest)
          case None => Closed
          case Some((value, end)) =>
            if fault.Some? then Served(store, ErrorReply(fault.value), end)
            else Served(store[key := value], [STATUS_OK], end)
        else if op[0] == OP_DELETE then
          if fault.Some? then Served(store, ErrorReply(fault.value), rest)
          else Served(store - {key}, [STATUS_OK], rest)
        else Served(store, ErrorReply(UnknownOp(op[0])), rest)
  }

  /** A client call's outcome. */
  datatype Reply = Value(value: Bytes) | Missing | Done | Rejected(message: Bytes) | BadStatus(status: byte) | Broken

  /** How the client reads a reply: `Get`, or `Set` and `Delete`; and what it leaves. */
  function DecodeReply(r: Request, input: Bytes): (Reply, Bytes) {
    match Take(input, 1)
    case None => (Broken, [])
    case Some((status, rest)) =>
      if r.Get? && status[0] == STATUS_NOT_FOUND then (Missing, rest)
      else if status[0] == STATUS_OK && !r.Get? then (Done, rest)
      else if status[0] == STATUS_OK || status[0] == STATUS_ERROR then
        match TakeFramed(rest)
        case None => (Broken, [])
        case Some((data, end)) => (if status[0] == STATUS_OK then Value(data) else Rejected(data), end)
      else (BadStatus(status[0]), rest)
  }

  /** The same requests on a plain map. */
  function Plain(store: map<Bytes, Bytes>, fault: Option<Bytes>, r: Request): (map<Bytes, Bytes>, Reply) {
    if fault.Some? then (store, Rejected(fault.value))
    else match r
      case Get(key) => (store, if key in store then Value(store[key]) else Missing)
      case Set(key, value) => (store[key := value], Done)
      case Delete(key) => (store - {key}, Done)
  }

  /** The bytes that answer `r`. */
  function ReplyTo(store: map<Bytes, Bytes>, fault: Option<Bytes>, r: Request): Bytes {
    if fault.Some? then ErrorReply(fault.value)
    else if r.Get? then (if r.key in store then ValueReply(store[r.key]) else [STATUS_NOT_FOUND])
    else [STATUS_OK]
  }

  predicate Fits(store: map<Bytes, Bytes>) {
    forall k :: k in store ==> |store[k]| < TWO_32
  }

  predicate FaultFits(fault: Option<Bytes>) {
    fault.Some? ==> |fault.value| < TWO_32
  }

  /** A reply as the protocol documents it: 0 and the value, if there is one; 1 for a key
      that is missing; 2 and the message for an error. */
  lemma ReplyBytes(store: map<Bytes, Bytes>, fault: Option<Bytes>, r: Request)
    ensures var reply := ReplyTo(store, fault, r);
            match Plain(store, fault, r).1
            case Value(value) => reply == [0] + Framed(value)
            case Done => reply == [0]
            case Missing => reply == [1]
            case Rejected(message) => reply == [2] + Framed(message)
            case _ => false
  {
  }

  /** What a client makes of any bytes. */
  lemma ReplyMeaning(r: Request, input: Bytes, data: Bytes, rest: Bytes)
    requires |data| < TWO_32
    ensures DecodeReply(r, input) == (Done, rest) <==> !r.Get? && input == [0] + rest
    ensures DecodeReply(r, input) == (Missing, rest) <==> r.Get? && input == [1] + rest
    ensures DecodeReply(r, input) == (Value(data), rest) <==> r.Get? && input == [0] + Framed(data) + rest
    ensures DecodeReply(r, input) == (Rejected(data), rest) <==> input == [2] + Framed(data) + rest
    ensures DecodeReply(r, input).0.BadStatus? <==> input != [] && (input[0] > 2 || (input[0] == 1 && !r.Get?))
    ensures DecodeReply(r, input).0.BadStatus? ==> DecodeReply(r, input).0.status == input[0]
  {
    hide PutUint32, Uint32, TakeFramed, Framed;
    if input != [] {
      var (head, tail) := (input[..1], input[1..]);
      assert input == [input[0]] + tail;
      assert forall b: byte, x: Bytes :: input == [b] + x ==> b == input[0] && x == tail by { OneHead(input); }
      FramedExact(tail, data, rest);
      assert forall b: byte :: [b] + Framed(data) + rest == [b] + (Framed(data) + rest);
    }
  }

  lemma OneHead(input: Bytes)
    requires input != []
    ensures forall b: byte, x: Bytes :: input == [b] + x ==> b == input[0] && x == input[1..]
  {
    forall b: byte, x: Bytes | input == [b] + x
      ensures b == input[0] && x == input[1..]
    {
      assert ([b] + x)[0] == b && ([b] + x)[1..] == x;
    }
  }

  lemma TakeFramedExact(input: Bytes)
    requires TakeFramed(input).Some?
    ensures input == Framed(TakeFramed(input).value.0) + TakeFramed(input).value.1
  {
    hide PutUint32, Uint32;
    PutUint32Inverse(input[..4]);
    assert input == input[..4] + input[4..];
  }

  /** A frame is read exactly where one was written. */
  lemma FramedExact(input: Bytes, data: Bytes, rest: Bytes)
    requires |data| < TWO_32
    ensures TakeFramed(input) == Some((data, rest)) <==> input == Framed(data) + rest
  {
    hide PutUint32, Uint32, Framed, TakeFramed;
    TakeFramedRoundTrip(data, rest);
    if TakeFramed(input).Some? {
      TakeFramedExact(input);
    }
  }

  lemma TakeFramedRoundTrip(data: Bytes, rest: Bytes)
    requires |data| < TWO_32
    ensures TakeFramed(Framed(data) + rest) == Some((data, rest))
  {
    hide PutUint32, Uint32;
    var input := Framed(data) + rest;
    Uint32RoundTrip(|data|);
    assert input[..4] == PutUint32(|data|);
    assert input[4..] == data + rest;
    assert (data + rest)[..|data|] == data && (data + rest)[|data|..] == rest;
  }

  /** The server reads exactly one request, and its reply, read by the client in front of
      anything, is the plain map's answer. */
  lemma RequestRoundTrip(store: map<Bytes, Bytes>, fault: Option<Bytes>, r: Request, rest: Bytes, after: Bytes)
    requires WithinLimit(r) && Fits(store) && FaultFits(fault)
    ensures var served := Handle(store, fault, Encode(r) + rest);
            var (store', answer) := Plain(store, fault, r);
            && served.Served? && served.rest == rest && served.store == store' && Fits(store')
            && served.reply == ReplyTo(store, fault, r)
            && DecodeReply(r, served.reply + after) == (answer, after)
  {
    hide PutUint32, Uint32, TakeFramed, Framed, DecodeReply;
    var input := Encode(r) + rest;
    var tail := (if r.Set? then Framed(r.value) else []) + rest;
    assert input[..1] == [OpOf(r)];
    assert input[1..] == Framed(r.key) + tail;
    TakeFramedRoundTrip(r.key, tail);
    if r.Set? {
      TakeFramedRoundTrip(r.value, rest);
    } else {
      assert tail == rest;
    }
    var served := Handle(store, fault, input);
    ReplyRoundTrip(store, fault, r, after);
  }

  lemma ReplyRoundTrip(store: map<Bytes, Bytes>, fault: Option<Bytes>, r: Request, after: Bytes)
    requires Fits(store) && FaultFits(fault)
    ensures DecodeReply(r, ReplyTo(store, fault, r) + after) == (Plain(store, fault, r).1, after)
  {
    hide PutUint32, Uint32, TakeFramed, Framed;
    var reply := ReplyTo(store, fault, r);
    var input := reply + after;
    assert input[..1] == [reply[0]];
    if fault.Some? {
      assert input[1..] == Framed(fault.value) + after;
      TakeFramedRoundTrip(fault.value, after);
    } else if r.Get? && r.key in store {
      assert input[1..] == Framed(store[r.key]) + after;
      TakeFramedRoundTrip(store[r.key], after);
    } else {
      assert input[1..] == after;
    }
  }
}
