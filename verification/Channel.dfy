/**
 One direction of a port socket: the admission check in front of send, the byte queue of the
 socket pair, and the two receivers that take whole frames out of it.
 */
module Channel {
  import opened Bytes
  import opened Framing

  const SOCKET_BUFFER_SIZE: nat := 50 * 1024
  const SOCKET_BUFFER_THRESHOLD_REPORT: nat := 40 * 1024
  const SOCKET_PACKET_HEAD_LENGTH: nat := 1512
  const STANDARD_UUID_LEN: nat := 4
  const CUSTOM_UUID_LEN: nat := 36
  // "060D"
  const STANDARD_UUID_ICCE: Buffer := [0x30, 0x36, 0x30, 0x44]

  // std::string::max_size()
  const MAX_STRING_SIZE: nat := 0x7fff_ffff_ffff_ffff

  /** The most bytes the admission check ever lets into the queue. */
  const QUEUE_LIMIT: nat := SOCKET_BUFFER_SIZE - SOCKET_PACKET_HEAD_LENGTH

  /** The queued bytes and the history of the records that went through them. */
  datatype Chan = Chan(queue: Buffer, sent: seq<Record>, received: seq<Record>, handed: seq<Record>)

  const EMPTY: Chan := Chan([], [], [], [])

  /** A port's callback is registered, and its owner may be gone. */
  type Callbacks = map<uint16, bool>

  /** What the service's WriteData answers for a record it has already taken off the socket. */
  datatype SendResult = TransSuccess | TransBusy | TransFail | ParamError

  datatype Op =
    | Write(r: Record, connected: bool)
    | ReadBatch(callbacks: Callbacks)
    | ReadOne(address: Buffer, sent: SendResult)

  // ---------- Steps ----------

  predicate CheckUuid(uuid: Buffer) {
    if |uuid| == STANDARD_UUID_LEN then uuid == STANDARD_UUID_ICCE else |uuid| == CUSTOM_UUID_LEN
  }

  predicate CheckParams(address: Buffer, uuid: Buffer) {
    address != [] && CheckUuid(uuid)
  }

  /** The writes that get as far as the socket. */
  predicate Writable(r: Record) {
    && CheckParams(r.address, r.uuid) && |r.address| <= SECUREC_MEM_MAX_LEN
    && 0 < |r.data| <= DATA_MAX_LEN
  }

  /** OutputStream::Write sends unless the sizes are known and the check refuses. */
  predicate Admitted(bufSize: nat, bytesInBuffer: nat, length: nat) {
    !(bufSize > bytesInBuffer && bufSize - bytesInBuffer < length + SOCKET_PACKET_HEAD_LENGTH)
  }

  function ApplyWrite(c: Chan, r: Record, connected: bool): Chan {
    if Writable(r) && connected && Admitted(SOCKET_BUFFER_SIZE, |c.queue|, FrameLength(r))
    then c.(queue := c.queue + Frame(r), sent := c.sent + [r])
    else c
  }

  function Received(queue: Buffer, n: nat): Buffer {
    if |queue| <= n then queue else queue[..n]
  }

  /** Hands records to callbacks; an unregistered port ends the batch, a dead owner is skipped. */
  function Dispatch(rs: seq<Record>, callbacks: Callbacks): seq<Record> {
    if rs == [] || rs[0].port !in callbacks then []
    else (if callbacks[rs[0].port] then [rs[0]] else []) + Dispatch(rs[1..], callbacks)
  }

  function ApplyReadBatch(c: Chan, callbacks: Callbacks): Chan {
    var buf := Received(c.queue, SOCKET_BUFFER_SIZE);
    var batch := DecodeList(buf);
    c.(queue := c.queue[|buf|..], received := c.received + batch,
       handed := c.handed + Dispatch(batch, callbacks))
  }

  /** A short read leaves zeros in the rest of the receiver's buffer. */
  function Padded(b: Buffer, n: nat): (p: Buffer)
    ensures |p| == if |b| < n then n else |b|
    ensures p[..|b|] == b && forall i :: |b| <= i < |p| ==> p[i] == 0
  {
    if |b| < n then b + seq(n - |b|, i => 0) else b
  }

  /** The rest of a frame's length, in size_t arithmetic. */
  function BodyLength(frameLength: nat): nat {
    (frameLength - SIZE_T) % SIZE_T_LIMIT
  }

  function NextBody(n: nat, rest: Buffer): (Option<Record>, Buffer) {
    var body := Received(rest, n);
    if 0 < n < SOCKET_BUFFER_SIZE then (ParseBody(Padded(body, n)), rest[|body|..]) else (None, rest)
  }

  /** The service side reads a length and then that many bytes: what it decodes and what it leaves. */
  function NextFrame(queue: Buffer): (Option<Record>, Buffer) {
    var head := Received(queue, SIZE_T);
    var rest := queue[|head|..];
    if |head| != SIZE_T then (None, rest) else NextBody(BodyLength(FromLittleEndian(head)), rest)
  }

  /** What a receiver that knows its socket by this address passes on of a record. */
  function Forward(r: Record, address: Buffer, sent: SendResult): seq<Record> {
    if sent == TransSuccess then [r.(address := address)] else []
  }

  /** The frame has left the socket before its record is passed on, whatever comes of that. */
  function ApplyReadOne(c: Chan, address: Buffer, sent: SendResult): Chan {
    match NextFrame(c.queue)
    case (None, rest) => c.(queue := rest)
    case (Some(r), rest) =>
      c.(queue := rest, received := c.received + [r], handed := c.handed + Forward(r, address, sent))
  }

  function Apply(c: Chan, op: Op): Chan {
    match op
    case Write(r, connected) => ApplyWrite(c, r, connected)
    case ReadBatch(callbacks) => ApplyReadBatch(c, callbacks)
    case ReadOne(address, sent) => ApplyReadOne(c, address, sent)
  }

  function Run(ops: seq<Op>): Chan {
    if ops == [] then EMPTY else Apply(Run(ops[..|ops| - 1]), ops[|ops| - 1])
  }

  // ---------- The invariant ----------

  function InFlight(c: Chan): seq<Record> {
    DecodeList(c.queue)
  }

  ghost predicate Good(c: Chan) {
    && |c.queue| <= QUEUE_LIMIT
    && AllSendable(InFlight(c))
    && c.queue == Frames(InFlight(c))
    && c.sent == c.received + InFlight(c)
  }

  lemma GoodFrom(c: Chan, fl: seq<Record>)
    requires |c.queue| <= QUEUE_LIMIT && AllSendable(fl) && c.queue == Frames(fl)
    requires c.sent == c.received + fl
    ensures Good(c) && InFlight(c) == fl
  {
    ParsePrinted(c.queue, fl);
  }

  lemma WriteKeepsGood(c: Chan, r: Record, connected: bool)
    requires Good(c)
    ensures Good(ApplyWrite(c, r, connected))
    ensures var d := ApplyWrite(c, r, connected); d == c || InFlight(d) == InFlight(c) + [r]
  {
    var d, fl := ApplyWrite(c, r, connected), InFlight(c);
    if d != c {
      PushKeepsGood(c, fl, r, d);
    }
  }

  lemma PushKeepsGood(c: Chan, fl: seq<Record>, r: Record, d: Chan)
    requires AllSendable(fl) && Sendable(r) && c.sent == c.received + fl && c.queue == Frames(fl)
    requires |d.queue| <= QUEUE_LIMIT && d.queue == c.queue + Frame(r)
    requires d.sent == c.sent + [r] && d.received == c.received
    ensures Good(d) && InFlight(d) == fl + [r]
  {
    FramesAppend(fl, [r]);
    FramesOne(r);
    assert c.received + fl + [r] == c.received + (fl + [r]);
    GoodFrom(d, fl + [r]);
  }

  /** A batch read takes everything that is queued and decodes it all. */
  lemma BatchDrains(c: Chan, callbacks: Callbacks)
    requires Good(c)
    ensures var d := ApplyReadBatch(c, callbacks);
      && Good(d) && d.queue == [] && d.received == c.received + InFlight(c) == c.sent
      && d.sent == c.sent && d.handed == c.handed + Dispatch(InFlight(c), callbacks)
  {
    var d := ApplyReadBatch(c, callbacks);
    assert Received(c.queue, SOCKET_BUFFER_SIZE) == c.queue;
    assert d.queue == [] == Frames([]);
    GoodFrom(d, []);
  }

  /** Where the queue holds whole frames, the service reader takes the first. */
  lemma FirstTaken(c: Chan, address: Buffer, sent: SendResult)
    requires Good(c)
    ensures NextFrame(c.queue).0.Some? <==> InFlight(c) != []
    ensures InFlight(c) == [] ==> ApplyReadOne(c, address, sent) == c
    ensures InFlight(c) != [] ==>
      var d := ApplyReadOne(c, address, sent);
      && Good(d) && InFlight(d) == InFlight(c)[1..] && d.sent == c.sent
      && d.received == c.received + [InFlight(c)[0]]
      && d.handed == c.handed + Forward(InFlight(c)[0], address, sent)
  {
    var fl := InFlight(c);
    if fl == [] {
      assert c.queue[0..] == c.queue;
    } else {
      FirstFrame(c.queue, fl[0], Frames(fl[1..]));
      PopKeepsGood(c, fl, ApplyReadOne(c, address, sent));
    }
  }

  lemma PopKeepsGood(c: Chan, fl: seq<Record>, d: Chan)
    requires fl != [] && AllSendable(fl[1..]) && c.sent == c.received + fl
    requires |d.queue| <= QUEUE_LIMIT && d.queue == Frames(fl[1..])
    requires d.sent == c.sent && d.received == c.received + [fl[0]]
    ensures Good(d) && InFlight(d) == fl[1..]
  {
    assert c.received + fl == d.received + fl[1..];
    GoodFrom(d, fl[1..]);
  }

  lemma FirstFrame(queue: Buffer, r: Record, rest: Buffer)
    requires Sendable(r) && queue == Frame(r) + rest && |queue| <= QUEUE_LIMIT
    ensures NextFrame(queue) == (Some(r), rest)
  {
    HeadRead(queue, r, rest);
    ParsePrintedBody(r);
    NextFrameSplit(queue, Body(r), rest);
  }

  lemma NextFrameSplit(queue: Buffer, body: Buffer, rest: Buffer)
    requires 0 < |body| < SOCKET_BUFFER_SIZE
    requires |queue| >= SIZE_T && queue[SIZE_T..] == body + rest
    requires |Received(queue, SIZE_T)| == SIZE_T
    requires FromLittleEndian(Received(queue, SIZE_T)) == |body| + SIZE_T
    ensures NextFrame(queue) == (ParseBody(body), rest)
  {
    assert BodyLength(|body| + SIZE_T) == |body|;
    NextBodyIs(body, rest);
  }

  lemma NextBodyIs(body: Buffer, rest: Buffer)
    requires 0 < |body| < SOCKET_BUFFER_SIZE
    ensures NextBody(|body|, body + rest) == (ParseBody(body), rest)
  {
    TailRead(body, rest);
  }

  lemma HeadRead(queue: Buffer, r: Record, rest: Buffer)
    requires Sendable(r) && queue == Frame(r) + rest
    ensures |Received(queue, SIZE_T)| == SIZE_T
    ensures FromLittleEndian(Received(queue, SIZE_T)) == FrameLength(r)
    ensures queue[SIZE_T..] == Body(r) + rest
  {
    WordRanges();
    ReadBack(FrameLength(r), SIZE_T);
    assert Received(queue, SIZE_T) == LittleEndian(FrameLength(r), SIZE_T);
  }

  lemma TailRead(body: Buffer, rest: Buffer)
    ensures Received(body + rest, |body|) == body
    ensures (body + rest)[|body|..] == rest
  {
  }

  lemma StepKeepsGood(c: Chan, op: Op)
    requires Good(c)
    ensures Good(Apply(c, op))
  {
    match op
    case Write(r, connected) => WriteKeepsGood(c, r, connected);
    case ReadBatch(callbacks) => BatchDrains(c, callbacks);
    case ReadOne(address, sent) => FirstTaken(c, address, sent);
  }

  /**
   End to end: after any interleaving of writes and reads the queue holds whole frames only, stays
   under the admission limit, and the records received followed by the records still queued are
   the records sent, in order.
   */
  lemma {:induction false} EndToEnd(ops: seq<Op>)
    ensures Good(Run(ops))
  {
    if ops != [] {
      EndToEnd(ops[..|ops| - 1]);
      StepKeepsGood(Run(ops[..|ops| - 1]), ops[|ops| - 1]);
    }
  }

  /**
   In every reachable state the service reader takes exactly the oldest record in flight, its length
   check never fails, and the record goes on, under the socket's address, only if the send succeeds.
   */
  lemma OneFrameTaken(ops: seq<Op>, address: Buffer, sent: SendResult)
    ensures NextFrame(Run(ops).queue).0.Some? <==> InFlight(Run(ops)) != []
    ensures var c, d := Run(ops), ApplyReadOne(Run(ops), address, sent);
      if InFlight(c) == [] then d == c
      else
        && InFlight(d) == InFlight(c)[1..] && d.sent == c.sent && d.received == c.received + [InFlight(c)[0]]
        && d.handed ==
             if sent == TransSuccess then c.handed + [InFlight(c)[0].(address := address)] else c.handed
  {
    EndToEnd(ops);
    FirstTaken(Run(ops), address, sent);
  }

  /** In every reachable state the sizes are such that the admission check is not skipped. */
  lemma CheckNeverSkipped(ops: seq<Op>)
    ensures SOCKET_BUFFER_SIZE > |Run(ops).queue|
  {
    EndToEnd(ops);
  }

  // ---------- Hand-over to callbacks ----------

  predicate Live(r: Record, callbacks: Callbacks) {
    r.port in callbacks && callbacks[r.port]
  }

  /** A batch is handed over whole exactly when each of its ports has a live callback. */
  lemma {:induction false} DispatchWhole(rs: seq<Record>, callbacks: Callbacks)
    ensures |Dispatch(rs, callbacks)| <= |rs|
    ensures Dispatch(rs, callbacks) == rs <==> forall i :: 0 <= i < |rs| ==> Live(rs[i], callbacks)
  {
    if rs != [] {
      DispatchWhole(rs[1..], callbacks);
      var d := Dispatch(rs, callbacks);
      assert rs == [rs[0]] + rs[1..];
      if forall i :: 0 <= i < |rs| ==> Live(rs[i], callbacks) {
        forall i | 0 <= i < |rs[1..]| ensures Live(rs[1..][i], callbacks) {
          assert rs[1..][i] == rs[i + 1];
        }
        assert Live(rs[0], callbacks);
      }
      if d == rs {
        assert rs[0].port in callbacks && callbacks[rs[0].port];
        assert d[1..] == Dispatch(rs[1..], callbacks);
        forall i | 0 <= i < |rs| ensures Live(rs[i], callbacks) {
          if i > 0 {
            assert rs[i] == rs[1..][i - 1];
          }
        }
      }
    }
  }

  /** One record for an unregistered port loses every record behind it in the same batch. */
  lemma {:induction false} DispatchStops(rs: seq<Record>, k: nat, callbacks: Callbacks)
    requires k < |rs| && rs[k].port !in callbacks
    ensures Dispatch(rs, callbacks) == Dispatch(rs[..k], callbacks)
  {
    if k > 0 {
      assert rs[..k][1..] == rs[1..][..k - 1] && rs[..k][0] == rs[0];
      if rs[0].port in callbacks {
        DispatchStops(rs[1..], k - 1, callbacks);
      }
    }
  }

  /** A record whose owner is gone makes no difference to the others. */
  lemma {:induction false} DispatchSkips(rs: seq<Record>, k: nat, callbacks: Callbacks)
    requires k < |rs| && rs[k].port in callbacks && !callbacks[rs[k].port]
    ensures Dispatch(rs, callbacks) == Dispatch(rs[..k] + rs[k + 1..], callbacks)
  {
    var others := rs[..k] + rs[k + 1..];
    if k == 0 {
      assert others == rs[1..];
    } else {
      assert others[0] == rs[0] && others[1..] == rs[1..][..k - 1] + rs[1..][k..];
      if rs[0].port in callbacks {
        DispatchSkips(rs[1..], k - 1, callbacks);
      }
    }
  }

  // ---------- Delivery ----------

  /**
   A step that passes on all it takes: a batch finds a live callback for each record, and a single
   record is sent on successfully by a receiver that knows the socket by the record's address.
   */
  ghost predicate Delivers(c: Chan, op: Op) {
    match op
    case Write(_, _) => true
    case ReadBatch(callbacks) => forall i :: 0 <= i < |InFlight(c)| ==> Live(InFlight(c)[i], callbacks)
    case ReadOne(address, sent) =>
      InFlight(c) == [] || (sent == TransSuccess && InFlight(c)[0].address == address)
  }

  ghost predicate AlwaysDelivers(ops: seq<Op>) {
    ops == [] || (AlwaysDelivers(ops[..|ops| - 1]) && Delivers(Run(ops[..|ops| - 1]), ops[|ops| - 1]))
  }

  /** What a step passes on of what it takes. */
  lemma HandedStep(c: Chan, op: Op) returns (taken: seq<Record>, passed: seq<Record>)
    requires Good(c)
    ensures Apply(c, op).received == c.received + taken && Apply(c, op).handed == c.handed + passed
    ensures |passed| <= |taken| && (passed == taken <==> Delivers(c, op))
  {
    taken, passed := [], [];
    match op
    case Write(r, connected) =>
    case ReadBatch(callbacks) =>
      BatchDrains(c, callbacks);
      DispatchWhole(InFlight(c), callbacks);
      taken, passed := InFlight(c), Dispatch(InFlight(c), callbacks);
    case ReadOne(address, sent) =>
      FirstTaken(c, address, sent);
      if InFlight(c) != [] {
        taken, passed := [InFlight(c)[0]], Forward(InFlight(c)[0], address, sent);
      }
  }

  /** A loss is never made up for by what comes later. */
  lemma StillBehind<T>(x: seq<T>, y: seq<T>, a: seq<T>, b: seq<T>)
    requires |x| <= |y| && |a| <= |b|
    ensures x + a == y + b <==> x == y && a == b
  {
    if x + a == y + b {
      assert |x| == |y|;
      assert x == (x + a)[..|x|] && y == (y + b)[..|y|];
      assert a == (x + a)[|x|..] && b == (y + b)[|y|..];
    }
  }

  lemma {:induction false} HandedIsReceived(ops: seq<Op>)
    ensures |Run(ops).handed| <= |Run(ops).received|
    ensures Run(ops).handed == Run(ops).received <==> AlwaysDelivers(ops)
  {
    if ops != [] {
      var n := |ops| - 1;
      HandedIsReceived(ops[..n]);
      EndToEnd(ops[..n]);
      var taken, passed := HandedStep(Run(ops[..n]), ops[n]);
      StillBehind(Run(ops[..n]).handed, Run(ops[..n]).received, passed, taken);
    }
  }

  /**
   Over every run: what the receivers passed on, followed by what is queued, is what was sent if and
   only if every batch found a live callback for each record and every single send succeeded.
   */
  lemma DeliveredInOrder(ops: seq<Op>)
    ensures Run(ops).handed + InFlight(Run(ops)) == Run(ops).sent <==> AlwaysDelivers(ops)
  {
    HandedIsReceived(ops);
    EndToEnd(ops);
    StillBehind(Run(ops).handed, Run(ops).received, InFlight(Run(ops)), InFlight(Run(ops)));
  }

  // ---------- Reachable losses ----------

  lemma RunOne(ops: seq<Op>, op: Op) returns (longer: seq<Op>)
    ensures Run(longer) == Apply(Run(ops), op) && Good(Run(longer))
  {
    longer := ops + [op];
    assert longer[..|ops|] == ops;
    EndToEnd(longer);
  }

  /** A short record that any writer may send. */
  function Short(port: uint16): (r: Record)
    ensures Writable(r) && FrameLength(r) < 100
  {
    Record([1], STANDARD_UUID_ICCE, port, [1])
  }

  /** A short record goes through a queue that has room for it. */
  lemma ShortWrite(ops: seq<Op>, port: uint16) returns (longer: seq<Op>)
    requires |Run(ops).queue| <= 100
    ensures var c, d := Run(ops), Run(longer);
      && Good(d) && InFlight(d) == InFlight(c) + [Short(port)] && |d.queue| <= |c.queue| + 100
      && d.sent == c.sent + [Short(port)] && d.received == c.received && d.handed == c.handed
  {
    EndToEnd(ops);
    WriteKeepsGood(Run(ops), Short(port), true);
    longer := RunOne(ops, Write(Short(port), true));
  }

  lemma Written(port: uint16) returns (ops: seq<Op>)
    ensures Good(Run(ops)) && InFlight(Run(ops)) == [Short(port)] && |Run(ops).queue| <= 100
    ensures Run(ops).received == [] && Run(ops).handed == [] && Run(ops).sent == [Short(port)]
  {
    GoodFrom(EMPTY, []);
    ops := ShortWrite([], port);
  }

  /** A record that the service takes off the socket while its send queue is full is gone. */
  lemma BusyLosesRecord()
    ensures exists ops :: var c := Run(ops);
      c.sent == [Short(1)] && c.received == c.sent && c.handed == [] && InFlight(c) == []
  {
    var ops := Written(1);
    FirstTaken(Run(ops), [1], TransBusy);
    ops := RunOne(ops, ReadOne([1], TransBusy));
  }

  lemma CutBatch(c: Chan)
    requires Good(c) && InFlight(c) == [Short(1), Short(2)] && c.handed == []
    ensures var d := ApplyReadBatch(c, map[2 := true]);
      d.sent == c.sent && d.received == c.sent && d.handed == [] && InFlight(d) == []
  {
    BatchDrains(c, map[2 := true]);
    assert ParseFrames([]) == Some([]);
  }

  /** A batch whose first record is for an unregistered port: the second one is lost with it. */
  lemma BatchCutShort()
    ensures exists ops :: var c := Run(ops);
      c.sent == [Short(1), Short(2)] && c.received == c.sent && c.handed == [] && InFlight(c) == []
  {
    var ops := Written(1);
    ops := ShortWrite(ops, 2);
    CutBatch(Run(ops));
    ops := RunOne(ops, ReadBatch(map[2 := true]));
  }

  // ---------- What fits ----------

  /**
   Over every run, a write on a connected socket sends its record if and only if the address and the
   uuid pass their checks, the payload has 1 to 65535 bytes, and the queued bytes and the frame leave
   1512 of the 51200 bytes free. Otherwise nothing changes.
   */
  lemma WriteExact(ops: seq<Op>, r: Record)
    ensures var c, d := Run(ops), Run(ops + [Write(r, true)]);
      && (d.sent == c.sent + [r] <==>
            && 0 < |r.address| <= 0x7fff_ffff && (r.uuid == [0x30, 0x36, 0x30, 0x44] || |r.uuid| == 36)
            && 0 < |r.data| <= 65535 && |c.queue| + |Frame(r)| <= 51200 - 1512)
      && (d.sent == c.sent + [r] ==> d.queue == c.queue + Frame(r) && d.received == c.received && d.handed == c.handed)
      && (d.sent != c.sent + [r] ==> d == c)
  {
    EndToEnd(ops);
    var all := ops + [Write(r, true)];
    assert all[..|all| - 1] == ops;
  }

  /** Without a socket entry for it, a write changes nothing. */
  lemma UnconnectedWrite(ops: seq<Op>, r: Record)
    ensures Run(ops + [Write(r, false)]) == Run(ops)
  {
    var all := ops + [Write(r, false)];
    assert all[..|all| - 1] == ops;
  }

  /** On a drained socket a connected write goes through exactly when its frame is at most QUEUE_LIMIT. */
  lemma AcceptedWhenDrained(c: Chan, r: Record)
    requires Good(c) && c.queue == [] && Writable(r)
    ensures ApplyWrite(c, r, true).sent == c.sent + [r] <==> FrameLength(r) <= QUEUE_LIMIT
  {
  }

  /**
   A frame over QUEUE_LIMIT is refused in every reachable state, although WriteData admits
   payloads of up to 65535 bytes.
   */
  lemma OversizedNeverSent(ops: seq<Op>, r: Record, connected: bool)
    requires FrameLength(r) > QUEUE_LIMIT
    ensures Run(ops + [Write(r, connected)]) == Run(ops)
  {
    EndToEnd(ops);
    var all := ops + [Write(r, connected)];
    assert all[..|all| - 1] == ops;
  }

  // ---------- The objects ----------

  datatype SocketTransState = Success | CacheFull | InternalFault

  datatype NlErrCode = NoError | ApiNotSupport | SleOff | InvalidParam | InternalError | SocketTransFailed

  /** A connected port socket with a send buffer of SOCKET_BUFFER_SIZE bytes. */
  class PortSocket {
    var queue: Buffer
    ghost var sent: seq<Record>
    ghost var received: seq<Record>
    ghost var handed: seq<Record>

    ghost function State(): Chan
      reads this
    {
      Chan(queue, sent, received, handed)
    }

    constructor ()
      ensures State() == EMPTY
    {
      queue, sent, received, handed := [], [], [], [];
    }

    /** OutputStream::Write. Size queries answer, and send takes all of a non-empty buffer. */
    method Write(buf: Buffer) returns (res: SocketTransState)
      modifies this`queue
      ensures var needed := |old(queue)| + |buf| + SOCKET_PACKET_HEAD_LENGTH;
        && (res.CacheFull? <==> |old(queue)| < SOCKET_BUFFER_SIZE < needed)
        && (res.InternalFault? <==> !res.CacheFull? && buf == [])
      ensures queue == if res.Success? then old(queue) + buf else old(queue)
    {
      var bufSize, bytesInBuffer := SOCKET_BUFFER_SIZE, |queue|;
      if bufSize > bytesInBuffer {
        var availableLength := bufSize - bytesInBuffer;
        var sendLength := |buf| + SOCKET_PACKET_HEAD_LENGTH;
        if availableLength < sendLength {
          return CacheFull;
        }
      }
      queue := queue + buf;
      if buf == [] {
        return InternalFault;
      }
      res := Success;
    }

    /**
     SleDataTransfer::WriteData. port is the port registered for the uuid, if any, and connected
     says whether a socket entry exists for it; without an entry the call still reports success.
     */
    method WriteData(supported: bool, enabled: bool, address: Buffer, uuid: Buffer, port: Option<uint16>,
                     data: Buffer, connected: bool) returns (code: NlErrCode)
      requires |address| < MAX_STRING_SIZE
      modifies this
      ensures !(supported && enabled && port.Some?) ==> State() == old(State()) && code != NoError
      ensures supported && enabled && port.Some? ==>
        var r := Record(address, uuid, port.value, data);
        && State() == old(ApplyWrite(State(), r, connected))
        && (code == NoError <==> Writable(r) && (connected ==> sent == old(sent) + [r]))
    {
      if !supported {
        return ApiNotSupport;
      }
      if !enabled {
        return SleOff;
      }
      if !CheckParams(address, uuid) {
        return InvalidParam;
      }
      if port.None? {
        return InternalError;
      }
      if |data| == 0 || |data| > DATA_MAX_LEN {
        return InvalidParam;
      }
      var r := Record(address, uuid, port.value, data);
      var packageData, totalLen := SerializeData(r);
      if packageData == null {
        return SocketTransFailed;
      }
      var sockRet := Success;
      if connected {
        sockRet := Write(packageData[..]);
        if sockRet.Success? {
          sent := sent + [r];
        }
      }
      if !sockRet.Success? {
        return SocketTransFailed;
      }
      code := NoError;
    }

    /** The hand-over loop of the framework's receiver. */
    method HandOver(packageList: seq<Record>, callbacks: Callbacks) returns (ok: bool)
      modifies this`handed
      ensures handed == old(handed) + Dispatch(packageList, callbacks)
      ensures ok <==> forall i :: 0 <= i < |packageList| ==> packageList[i].port in callbacks
    {
      var i := 0;
      assert packageList[0..] == packageList;
      while i < |packageList|
        invariant 0 <= i <= |packageList|
        invariant forall j :: 0 <= j < i ==> packageList[j].port in callbacks
        invariant old(handed) + Dispatch(packageList, callbacks) == handed + Dispatch(packageList[i..], callbacks)
      {
        var r := packageList[i];
        assert packageList[i..][1..] == packageList[i + 1..];
        if r.port !in callbacks {
          assert Dispatch(packageList[i..], callbacks) == [];
          return false;
        }
        if callbacks[r.port] {
          handed := handed + [r];
        }
        i := i + 1;
      }
      ok := true;
    }

    /**
     The framework's receiver: one read, one all-or-nothing parse, one hand-over loop, and a report
     to the service after a large read; reportOk says whether the service takes that report.
     */
    method ReceivedData(callbacks: Callbacks, reportOk: bool) returns (ok: bool)
      modifies this
      ensures State() == old(ApplyReadBatch(State(), callbacks))
      ensures var buf := Received(old(queue), SOCKET_BUFFER_SIZE);
        var batch := DecodeList(buf);
        ok <==> batch != [] && (forall i :: 0 <= i < |batch| ==> batch[i].port in callbacks)
                && (|buf| < SOCKET_BUFFER_THRESHOLD_REPORT || reportOk)
    {
      var n := if |queue| <= SOCKET_BUFFER_SIZE then |queue| else SOCKET_BUFFER_SIZE;
      var buf := queue[..n];
      assert buf == Received(queue, SOCKET_BUFFER_SIZE);
      queue := queue[n..];
      var packageList := DeserializeDataList(buf);
      received := received + packageList;
      if n == 0 || packageList == [] {
        assert handed + Dispatch([], callbacks) == handed;
        return false;
      }
      ok := HandOver(packageList, callbacks);
      if ok && n >= SOCKET_BUFFER_THRESHOLD_REPORT {
        ok := reportOk;
      }
    }
  }

  /** One turn of the service's receive loop: a length, then that many bytes into a zeroed buffer, then a decode. */
  method TakeNext(queue: Buffer) returns (r: Option<Record>, rest: Buffer)
    ensures (r, rest) == NextFrame(queue)
  {
    r, rest := None, [];
    if |queue| < SIZE_T {
      assert queue[|queue|..] == [];
      return;
    }
    var head := queue[..SIZE_T];
    assert Received(queue, SIZE_T) == head;
    rest := queue[SIZE_T..];
    var pLen := BodyLength(FromLittleEndian(head));
    if pLen == 0 || pLen >= SOCKET_BUFFER_SIZE {
      return;
    }
    var read := if |rest| <= pLen then rest else rest[..pLen];
    var pBuf := Padded(read, pLen);
    rest := rest[|read|..];
    var ok, result := DeserializeData(pBuf);
    r := if ok then Some(result) else None;
  }
}
