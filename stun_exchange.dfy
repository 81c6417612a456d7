/** `stunRequest`: one Binding Request / Binding Response exchange, run as a fixed
    ladder of system calls in which the first failing call decides the returned
    string. The system calls and the clock are inputs (an `Environment`). */
module StunExchange {
  import opened Bytes
  import opened StunCodec
  import opened StunStruct

  datatype Option<T> = None | Some(value: T)

  /** Size of the receive buffer `response`. */
  const BUFLEN: nat := 512

  /** The system calls of the exchange, in the order they are issued. */
  datatype Stage = OpenSocket | ParseAddress | SendRequest | ReceiveResponse

  const LADDER: seq<Stage> := [OpenSocket, ParseAddress, SendRequest, ReceiveResponse]

  /** Where stage `s` sits on the ladder. */
  function Position(s: Stage): nat {
    match s
    case OpenSocket => 0
    case ParseAddress => 1
    case SendRequest => 2
    case ReceiveResponse => 3
  }

  /** What the operating system and the clock answer during one call of `stunRequest`. */
  datatype Environment = Environment(
    timeAtInit: int,             // time(NULL) read by the generator call for the request
    socketOk: bool,              // socket() did not return -1
    addressOk: bool,             // inet_aton() accepted the server address
    timeAtPrepare: int,          // time(NULL) read by the generator call in prepare_message
    sendOk: bool,                // sendto() did not return -1
    reply: Option<seq<uint8>>)   // recvfrom(): None for -1, Some(d) for a datagram d

  /** Whether the system call of stage `s` succeeds. */
  predicate Passes(env: Environment, s: Stage) {
    match s
    case OpenSocket => env.socketOk
    case ParseAddress => env.addressOk
    case SendRequest => env.sendOk
    case ReceiveResponse => env.reply.Some?
  }

  /** The string returned when stage `s` fails. */
  function FailureText(s: Stage): (r: string)
    ensures r != SUCCESS
  {
    match s
    case OpenSocket => "Socket failed"
    case ParseAddress => "inet_aton() error"
    case SendRequest => "sendto() error"
    case ReceiveResponse => "recvfrom() error"
  }

  const SUCCESS: string := "success"

  /** The index of the first stage of `stages` that fails, or |stages| if none does. */
  function FirstFailure(env: Environment, stages: seq<Stage>): (k: nat)
    ensures k <= |stages|
    ensures forall j :: 0 <= j < k ==> Passes(env, stages[j])
    ensures k < |stages| ==> !Passes(env, stages[k])
  {
    if stages == [] then 0
    else if !Passes(env, stages[0]) then 0
    else 1 + FirstFailure(env, stages[1..])
  }

  /** On the ladder, the first failing stage is the first of socket, address, send,
      receive whose call fails. */
  lemma {:induction false} LadderFirstFailure(env: Environment)
    ensures FirstFailure(env, LADDER) ==
      if !env.socketOk then 0 else if !env.addressOk then 1
      else if !env.sendOk then 2 else if env.reply.None? then 3 else 4
  {
    var afterSocket, afterAddress, afterSend := LADDER[1..], LADDER[2..], LADDER[3..];
    assert afterSend[1..] == [];
    assert FirstFailure(env, afterSend) == if env.reply.None? then 0 else 1;
    assert afterAddress[1..] == afterSend;
    assert FirstFailure(env, afterAddress) == if !env.sendOk then 0 else 1 + FirstFailure(env, afterSend);
    assert afterSocket[1..] == afterAddress;
    assert FirstFailure(env, afterSocket) == if !env.addressOk then 0 else 1 + FirstFailure(env, afterAddress);
    assert LADDER[1..] == afterSocket;
  }

  /** The Binding Request built at the start of `stunRequest`: no attributes, so length 0. */
  function RequestHeader(id: TransactionId): (h: Header)
    ensures h.msgType == BINDING_REQUEST && h.length == 0 && h.transactionId == id
  {
    Header(BINDING_REQUEST, 0, id)
  }

  /** The receive buffer after `memset` and `recvfrom`: the datagram (cut at BUFLEN
      bytes) followed by zeros. */
  function ReceiveImage(d: seq<uint8>): (r: seq<uint8>)
    ensures |r| == BUFLEN
    ensures forall i :: 0 <= i < BUFLEN ==> r[i] == if i < |d| then d[i] else 0
  {
    if |d| >= BUFLEN then d[..BUFLEN] else d + seq(BUFLEN - |d|, _ => 0)
  }

  /** The response header as the receive path decodes it: the first 20 bytes of the
      buffer, whatever the length of the datagram. */
  function DecodeDatagram(d: seq<uint8>): (h: Header)
    ensures forall i :: 0 <= i < HEADER_SIZE ==> Encode(h)[i] == if i < |d| then d[i] else 0
  {
    Decode(ReceiveImage(d))
  }

  /** Everything one call of `stunRequest` does that can be observed. */
  datatype Exchange = Exchange(
    result: string,                 // the string handed back to the caller
    attempted: seq<Stage>,          // the system calls issued, in order
    logged: Option<Header>,         // the request as printed before it is sent
    datagram: Option<seq<uint8>>,   // the bytes handed to sendto()
    response: Option<Header>,       // the response header after the ntohs conversions
    socketOpen: bool)               // a socket is still open when the call returns

  /** The outcome of `stunRequest` in `env`: the stages up to and including the first
      failing one are attempted, and that stage's failure text (or "success") is the
      result. The request is printed with the first transaction ID and sent with the
      second one; the socket is never closed. */
  function RunExchange(env: Environment, random: Seed -> Draws): (e: Exchange)
    ensures 1 <= |e.attempted| <= |LADDER| && e.attempted == LADDER[..|e.attempted|]
    ensures forall j :: 0 <= j < |e.attempted| - 1 ==> Passes(env, e.attempted[j])
    ensures e.result == if Passes(env, e.attempted[|e.attempted| - 1]) then SUCCESS
                        else FailureText(e.attempted[|e.attempted| - 1])
    ensures |e.attempted| < |LADDER| ==> !Passes(env, e.attempted[|e.attempted| - 1])
    ensures e.socketOpen == env.socketOk
    ensures e.logged.Some? <==> env.socketOk && env.addressOk
    ensures e.datagram.Some? <==> env.socketOk && env.addressOk
    ensures e.response.Some? <==> e.result == SUCCESS
  {
    var k := FirstFailure(env, LADDER);
    LadderFirstFailure(env);
    var sendReached := k >= 2;
    Exchange(
      if k == |LADDER| then SUCCESS else FailureText(LADDER[k]),
      LADDER[..if k == |LADDER| then k else k + 1],
      if sendReached then Some(RequestHeader(random(SeedOf(env.timeAtInit)))) else None,
      if sendReached then Some(Encode(RequestHeader(random(SeedOf(env.timeAtPrepare))))) else None,
      if k == |LADDER| then Some(DecodeDatagram(env.reply.value)) else None,
      env.socketOk)
  }

  /** The returned string names the first failing stage, in both directions. */
  lemma {:induction false} OutcomeLadder(env: Environment, random: Seed -> Draws)
    ensures RunExchange(env, random).result == "Socket failed" <==> !env.socketOk
    ensures RunExchange(env, random).result == "inet_aton() error" <==> env.socketOk && !env.addressOk
    ensures RunExchange(env, random).result == "sendto() error" <==>
              env.socketOk && env.addressOk && !env.sendOk
    ensures RunExchange(env, random).result == "recvfrom() error" <==>
              env.socketOk && env.addressOk && env.sendOk && env.reply.None?
    ensures RunExchange(env, random).result == "success" <==>
              env.socketOk && env.addressOk && env.sendOk && env.reply.Some?
  {
    LadderFirstFailure(env);
    var texts := ["Socket failed", "inet_aton() error", "sendto() error", "recvfrom() error", "success"];
    assert |texts[0]| == 13 && |texts[1]| == 17 && |texts[2]| == 14 && |texts[3]| == 16 && |texts[4]| == 7;
  }

  /** A stage runs only if every stage before it succeeded. */
  lemma {:induction false} NoStageAfterFailure(env: Environment, random: Seed -> Draws, s: Stage)
    ensures s in RunExchange(env, random).attempted <==>
              forall j :: 0 <= j < Position(s) ==> Passes(env, LADDER[j])
  {
    LadderFirstFailure(env);
    var e := RunExchange(env, random);
    assert LADDER[Position(s)] == s;
    if s in e.attempted {
      var i :| 0 <= i < |e.attempted| && e.attempted[i] == s;
      assert i == Position(s);
    } else {
      assert |e.attempted| <= Position(s);
    }
  }

  /** The Binding Request on the wire: type bytes 00 01, length bytes 00 00, and ID
      words drawn from random(), so the first byte of each is below 0x80. */
  lemma {:induction false} RequestBytes(id: Draws)
    ensures Encode(RequestHeader(id))[..4] == [0x00, 0x01, 0x00, 0x00]
    ensures forall k :: 0 <= k < 4 ==> Encode(RequestHeader(id))[4 * k + 4] < 0x80
  {
    var w := Encode(RequestHeader(id));
    EncodeOffsets(RequestHeader(id));
    forall k | 0 <= k < 4 ensures w[4 * k + 4] < 0x80 {
      assert w[4 * k + 4] == w[4 + 4 * k..8 + 4 * k][0] == Be32(id[k])[0];
      Be32FirstByte(id[k]);
    }
  }

  /** Once the socket is created and the address parsed, the datagram handed to
      sendto() is a 20-byte Binding Request of length 0 carrying the transaction ID
      of the second generator call, whatever the clock reads. */
  lemma {:induction false} RequestOnTheWire(env: Environment, random: Seed -> Draws)
    requires env.socketOk && env.addressOk
    ensures RunExchange(env, random).datagram.Some?
    ensures RunExchange(env, random).datagram.value == Encode(RequestHeader(random(SeedOf(env.timeAtPrepare))))
    ensures |RunExchange(env, random).datagram.value| == HEADER_SIZE
    ensures Decode(RunExchange(env, random).datagram.value)
              == Header(BINDING_REQUEST, 0, random(SeedOf(env.timeAtPrepare)))
  {
    LadderFirstFailure(env);
    DecodeEncode(RequestHeader(random(SeedOf(env.timeAtPrepare))));
  }

  /** The request is printed before prepare_message regenerates its transaction ID, so
      the printed ID comes from the first clock reading and the sent one from the
      second: they agree exactly when the two seeds give the same draws, as they do
      when both readings fall in the same second (modulo 2^32). */
  lemma {:induction false} LoggedIdVersusSentId(env: Environment, random: Seed -> Draws)
    requires env.socketOk && env.addressOk
    ensures RunExchange(env, random).logged.Some? && RunExchange(env, random).datagram.Some?
    ensures RunExchange(env, random).logged.value == RequestHeader(random(SeedOf(env.timeAtInit)))
    ensures TypeLabelOf(RunExchange(env, random).logged.value.msgType) == Named("Binding Request")
    ensures Decode(RunExchange(env, random).datagram.value).transactionId
              == RunExchange(env, random).logged.value.transactionId
            <==> random(SeedOf(env.timeAtPrepare)) == random(SeedOf(env.timeAtInit))
  {
    LadderFirstFailure(env);
    DecodeEncode(RequestHeader(random(SeedOf(env.timeAtPrepare))));
  }

  /** The response is accepted whatever its contents: any datagram, of any length and
      with any transaction ID, gives "success" provided the call returns normally (for
      a type other than Binding Request or Binding Response, printing the response reads
      an uninitialised name, which this model does not capture). The response header is
      read from the zero-filled buffer, bytes past the datagram reading as zero. */
  lemma ResponseNeverChecked(env: Environment, random: Seed -> Draws, d: seq<uint8>)
    requires env.socketOk && env.addressOk && env.sendOk && env.reply == Some(d)
    ensures RunExchange(env, random).result == SUCCESS
    ensures RunExchange(env, random).response == Some(DecodeDatagram(d))
    ensures forall i :: 0 <= i < HEADER_SIZE ==>
              Encode(RunExchange(env, random).response.value)[i] == if i < |d| then d[i] else 0
  {
  }

  /** An empty datagram decodes as the all-zero header; from a datagram of 20 bytes or
      more only the first 20 count, whatever its length field says. */
  lemma {:induction false} DatagramLength(d: seq<uint8>)
    ensures DecodeDatagram([]) == Header(0, 0, [0, 0, 0, 0])
    ensures |d| >= HEADER_SIZE ==> DecodeDatagram(d) == Decode(d)
  {
    var zero := Header(0, 0, [0, 0, 0, 0]);
    EncodeOffsets(zero);
    assert Encode(zero) == seq(HEADER_SIZE, _ => 0);
    assert Encode(DecodeDatagram([])) == Encode(zero);
    EncodeInjective(DecodeDatagram([]), zero);
    if |d| >= HEADER_SIZE {
      assert Encode(DecodeDatagram(d)) == Encode(Decode(d));
      EncodeInjective(DecodeDatagram(d), Decode(d));
    }
  }

  /** A one-byte datagram `b` is read with a zero low byte: its type is b * 0x100,
      never Binding Request or Binding Response, so `printMessage` names no type. */
  lemma OneByteReplyType(b: uint8)
    ensures DecodeDatagram([b]).msgType == b as int * 0x100
    ensures TypeLabelOf(DecodeDatagram([b]).msgType).Unknown?
  {
  }

  /** `memset(response, '\0', BUFLEN)`. */
  method ZeroFill(buf: array<uint8>)
    modifies buf
    ensures forall i :: 0 <= i < buf.Length ==> buf[i] == 0
  {
    for i := 0 to buf.Length
      invariant forall j :: 0 <= j < i ==> buf[j] == 0
    {
      buf[i] := 0;
    }
  }

  /** What `recvfrom` does to the buffer on success: the datagram's bytes, as many as
      fit, overwrite its start; the rest of the buffer is untouched. */
  method Deliver(buf: array<uint8>, d: seq<uint8>)
    modifies buf
    ensures forall i :: 0 <= i < buf.Length ==> buf[i] == if i < |d| then d[i] else old(buf[i])
  {
    var n := if |d| < buf.Length then |d| else buf.Length;
    for i := 0 to n
      invariant forall j :: 0 <= j < buf.Length ==> buf[j] == if j < i then d[j] else old(buf[j])
    {
      buf[i] := d[i];
    }
  }

  /** `stunRequest` with the system calls and the clock taken from `env`. */
  method StunRequest(env: Environment, random: Seed -> Draws) returns (e: Exchange)
    ensures e == RunExchange(env, random)
  {
    LadderFirstFailure(env);
    var rq := new HeaderStruct();
    rq.msgType := BINDING_REQUEST;
    rq.length := 0;
    GenerateTransactionId(rq.transactionId, env.timeAtInit, random);

    if !env.socketOk {
      return Exchange("Socket failed", [OpenSocket], None, None, None, false);
    }
    if !env.addressOk {
      return Exchange("inet_aton() error", [OpenSocket, ParseAddress], None, None, None, true);
    }

    var logged := rq.Fields();
    rq.PrepareMessage(env.timeAtPrepare, random);
    var datagram := rq.Wire();
    if !env.sendOk {
      return Exchange("sendto() error", [OpenSocket, ParseAddress, SendRequest],
                      Some(logged), Some(datagram), None, true);
    }

    var response := new uint8[BUFLEN];
    ZeroFill(response);
    if env.reply.None? {
      return Exchange("recvfrom() error", LADDER, Some(logged), Some(datagram), None, true);
    }
    Deliver(response, env.reply.value);
    assert response[..] == ReceiveImage(env.reply.value);

    var rs := new HeaderStruct.Overlay(response[..]);
    rs.ToHostOrder();
    e := Exchange(SUCCESS, LADDER, Some(logged), Some(datagram), Some(rs.Fields()), true);
  }
}
