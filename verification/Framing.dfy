/**
 Length-prefixed data-transfer frames: the serializer, the all-or-nothing list parser,
 and the proof that the two are inverse to each other.
 */
module Framing {
  import opened Bytes

  /** DataTransferDataParams; strings are byte sequences. */
  datatype Record = Record(address: Buffer, uuid: Buffer, port: uint16, data: Buffer)

  const SIZE_T: nat := 8
  const PORT_SIZE: nat := 2
  const DATA_MAX_LEN: nat := 65535
  // Largest destination memcpy_s accepts.
  const SECUREC_MEM_MAX_LEN: nat := 0x7fff_ffff

  // ---------- The wire format ----------

  /** The length a serializer computes before it writes anything. */
  function FrameLength(r: Record): nat {
    SIZE_T + SIZE_T + |r.address| + SIZE_T + |r.uuid| + PORT_SIZE + SIZE_T + |r.data|
  }

  /** The record's frame can be counted in a size_t. */
  predicate Sized(r: Record) {
    FrameLength(r) < SIZE_T_LIMIT
  }

  /** The records a receiver accepts. */
  predicate Sendable(r: Record) {
    Sized(r) && |r.data| <= DATA_MAX_LEN
  }

  predicate AllSendable(rs: seq<Record>) {
    forall i :: 0 <= i < |rs| ==> Sendable(rs[i])
  }

  predicate AllSized(rs: seq<Record>) {
    forall i :: 0 <= i < |rs| ==> Sized(rs[i])
  }

  function Field(s: Buffer): Buffer {
    LittleEndian(|s|, SIZE_T) + s
  }

  function Body(r: Record): (b: Buffer)
    ensures |b| == FrameLength(r) - SIZE_T
  {
    Field(r.address) + (Field(r.uuid) + (LittleEndian(r.port, PORT_SIZE) + Field(r.data)))
  }

  function Frame(r: Record): (b: Buffer)
    ensures |b| == FrameLength(r)
  {
    LittleEndian(FrameLength(r), SIZE_T) + Body(r)
  }

  function Frames(rs: seq<Record>): Buffer {
    if rs == [] then [] else Frame(rs[0]) + Frames(rs[1..])
  }

  lemma {:induction false} FramesAppend(rs: seq<Record>, ss: seq<Record>)
    ensures Frames(rs + ss) == Frames(rs) + Frames(ss)
  {
    if rs == [] {
      assert rs + ss == ss;
    } else {
      assert (rs + ss)[1..] == rs[1..] + ss;
      FramesAppend(rs[1..], ss);
    }
  }

  lemma FramesOne(r: Record)
    ensures Frames([r]) == Frame(r)
  {
    assert [r][1..] == [];
    assert Frames([r]) == Frame(r) + Frames([]);
  }

  // ---------- What the parser computes ----------

  /** A length-prefixed field at the front of b and what follows it. */
  function TakeField(b: Buffer): Option<(Buffer, Buffer)> {
    if |b| < SIZE_T then None
    else
      var n := FromLittleEndian(b[..SIZE_T]);
      if |b| - SIZE_T < n then None else Some((b[SIZE_T..SIZE_T + n], b[SIZE_T + n..]))
  }

  /** TakeField undoes Field, and accepts nothing else. */
  lemma TakeFieldInverts(b: Buffer, f: Buffer, rest: Buffer)
    requires |f| < SIZE_T_LIMIT
    ensures TakeField(b) == Some((f, rest)) <==> b == Field(f) + rest
  {
    WordRanges();
    if b == Field(f) + rest {
      ReadBack(|f|, SIZE_T);
      assert b[..SIZE_T] == LittleEndian(|f|, SIZE_T);
      assert b[SIZE_T..SIZE_T + |f|] == f;
    }
    if TakeField(b) == Some((f, rest)) {
      WriteBack(b[..SIZE_T]);
      assert b == b[..SIZE_T] + b[SIZE_T..SIZE_T + |f|] + b[SIZE_T + |f|..];
    }
  }

  function ParseData(b: Buffer): Option<Buffer> {
    if |b| < SIZE_T then None
    else
      var n := FromLittleEndian(b[..SIZE_T]);
      if n > DATA_MAX_LEN || |b| - SIZE_T != n then None else Some(b[SIZE_T..])
  }

  lemma ParseDataInverts(b: Buffer, d: Buffer)
    ensures ParseData(b) == Some(d) <==> |d| <= DATA_MAX_LEN && b == Field(d)
  {
    WordRanges();
    if |d| <= DATA_MAX_LEN && b == Field(d) {
      ReadBack(|d|, SIZE_T);
      assert b[..SIZE_T] == LittleEndian(|d|, SIZE_T);
    }
    if ParseData(b) == Some(d) {
      WriteBack(b[..SIZE_T]);
      assert b == b[..SIZE_T] + b[SIZE_T..];
    }
  }

  function ParseBody(b: Buffer): Option<Record> {
    match TakeField(b)
    case None => None
    case Some((address, b1)) =>
      match TakeField(b1)
      case None => None
      case Some((uuid, b2)) =>
        if |b2| < PORT_SIZE then None
        else
          WordRanges();
          match ParseData(b2[PORT_SIZE..])
          case None => None
          case Some(data) => Some(Record(address, uuid, FromLittleEndian(b2[..PORT_SIZE]), data))
  }

  /** A body parses to r exactly when it is the body of the sendable record r. */
  lemma ParseBodyInverts(b: Buffer, r: Record)
    requires |b| + SIZE_T < SIZE_T_LIMIT
    ensures ParseBody(b) == Some(r) <==> Sendable(r) && b == Body(r)
  {
    if Sendable(r) && b == Body(r) {
      ParsePrintedBody(r);
    }
    if ParseBody(b) == Some(r) {
      PrintParsedBody(b, r);
    }
  }

  lemma ParsePrintedBody(r: Record)
    requires Sendable(r)
    ensures ParseBody(Body(r)) == Some(r)
  {
    var b3 := Field(r.data);
    var b2 := LittleEndian(r.port, PORT_SIZE) + b3;
    var b1 := Field(r.uuid) + b2;
    TakeFieldInverts(Body(r), r.address, b1);
    TakeFieldInverts(b1, r.uuid, b2);
    PortReadBack(r.port, b3);
    ParseDataInverts(b3, r.data);
  }

  lemma PortReadBack(port: uint16, rest: Buffer)
    ensures (LittleEndian(port, PORT_SIZE) + rest)[PORT_SIZE..] == rest
    ensures FromLittleEndian((LittleEndian(port, PORT_SIZE) + rest)[..PORT_SIZE]) == port
  {
    WordRanges();
    ReadBack(port, PORT_SIZE);
    assert (LittleEndian(port, PORT_SIZE) + rest)[..PORT_SIZE] == LittleEndian(port, PORT_SIZE);
  }

  lemma PrintParsedBody(b: Buffer, r: Record)
    requires |b| + SIZE_T < SIZE_T_LIMIT
    requires ParseBody(b) == Some(r)
    ensures Sendable(r) && b == Body(r)
  {
    var b1 := TakeField(b).value.1;
    var b2 := TakeField(b1).value.1;
    TakeFieldInverts(b, r.address, b1);
    TakeFieldInverts(b1, r.uuid, b2);
    WriteBack(b2[..PORT_SIZE]);
    ParseDataInverts(b2[PORT_SIZE..], r.data);
    assert b2 == LittleEndian(r.port, PORT_SIZE) + Field(r.data);
  }

  /** The frame at the front of b and what follows it. */
  function TakeFrame(b: Buffer): (r: Option<(Record, Buffer)>)
    ensures r.Some? ==> |r.value.1| < |b|
  {
    if |b| < SIZE_T then None
    else
      var n := FromLittleEndian(b[..SIZE_T]);
      if n <= SIZE_T || |b| < n then None
      else
        match ParseBody(b[SIZE_T..n])
        case None => None
        case Some(r) => Some((r, b[n..]))
  }

  lemma TakeFrameInverts(b: Buffer, r: Record, rest: Buffer)
    requires |b| < SIZE_T_LIMIT
    ensures TakeFrame(b) == Some((r, rest)) <==> Sendable(r) && b == Frame(r) + rest
  {
    if Sendable(r) && b == Frame(r) + rest {
      TakePrintedFrame(b, r, rest);
    }
    if TakeFrame(b) == Some((r, rest)) {
      PrintTakenFrame(b, r, rest);
    }
  }

  lemma PrintTakenFrame(b: Buffer, r: Record, rest: Buffer)
    requires |b| < SIZE_T_LIMIT
    requires TakeFrame(b) == Some((r, rest))
    ensures Sendable(r) && b == Frame(r) + rest
  {
    var n := FromLittleEndian(b[..SIZE_T]);
    ParseBodyInverts(b[SIZE_T..n], r);
    WriteBack(b[..SIZE_T]);
    Rejoin(b, SIZE_T, n);
    assert LittleEndian(FrameLength(r), SIZE_T) == b[..SIZE_T];
  }

  lemma Rejoin(b: Buffer, i: nat, j: nat)
    requires i <= j <= |b|
    ensures b == (b[..i] + b[i..j]) + b[j..]
  {
  }

  lemma TakePrintedFrame(b: Buffer, r: Record, rest: Buffer)
    requires Sendable(r) && b == Frame(r) + rest
    ensures TakeFrame(b) == Some((r, rest))
  {
    var n := FrameLength(r);
    WordRanges();
    ReadBack(n, SIZE_T);
    assert b[..SIZE_T] == LittleEndian(n, SIZE_T);
    assert b[SIZE_T..n] == Body(r);
    assert b[n..] == rest;
    ParsePrintedBody(r);
  }

  /** A whole input as a list of frames, or None when any part of it is malformed. */
  function ParseFrames(b: Buffer): Option<seq<Record>>
    decreases |b|
  {
    if b == [] then Some([])
    else
      match TakeFrame(b)
      case None => None
      case Some((r, rest)) =>
        Prepend([r], ParseFrames(rest))
  }

  function Prepend(rs: seq<Record>, tail: Option<seq<Record>>): Option<seq<Record>> {
    match tail
    case None => None
    case Some(ss) => Some(rs + ss)
  }

  /** The list DeserializeDataList returns: malformed input gives the empty list. */
  function DecodeList(b: Buffer): seq<Record> {
    match ParseFrames(b)
    case None => []
    case Some(rs) => rs
  }

  /**
   The parser is the two-sided inverse of the printer: b parses to rs exactly when all of rs
   is sendable and b is, byte for byte, the concatenation of the frames of rs.
   */
  lemma {:induction false} ParseFramesInverts(b: Buffer, rs: seq<Record>)
    requires |b| < SIZE_T_LIMIT
    ensures ParseFrames(b) == Some(rs) <==> AllSendable(rs) && b == Frames(rs)
    decreases |b|
  {
    if AllSendable(rs) && b == Frames(rs) {
      ParsePrinted(b, rs);
    }
    if ParseFrames(b) == Some(rs) {
      PrintParsed(b, rs);
    }
  }

  lemma {:induction false} ParsePrinted(b: Buffer, rs: seq<Record>)
    requires |b| < SIZE_T_LIMIT
    requires AllSendable(rs) && b == Frames(rs)
    ensures ParseFrames(b) == Some(rs)
    decreases |rs|
  {
    if rs != [] {
      TakeFrameInverts(b, rs[0], Frames(rs[1..]));
      assert rs == [rs[0]] + rs[1..];
      ParsePrinted(Frames(rs[1..]), rs[1..]);
    }
  }

  lemma {:induction false} PrintParsed(b: Buffer, rs: seq<Record>)
    requires |b| < SIZE_T_LIMIT
    requires ParseFrames(b) == Some(rs)
    ensures AllSendable(rs) && b == Frames(rs)
    decreases |b|
  {
    if b != [] {
      var rest := TakeFrame(b).value.1;
      TakeFrameInverts(b, rs[0], rest);
      assert rs == [rs[0]] + rs[1..];
      PrintParsed(rest, rs[1..]);
    }
  }

  /** Concatenated frames come back as the same list exactly when no payload is over the limit. */
  lemma RoundTrip(rs: seq<Record>)
    requires |Frames(rs)| < SIZE_T_LIMIT
    ensures AllSendable(rs) ==> DecodeList(Frames(rs)) == rs
    ensures !AllSendable(rs) ==> DecodeList(Frames(rs)) == []
  {
    var b := Frames(rs);
    if AllSendable(rs) {
      ParseFramesInverts(b, rs);
    } else if ParseFrames(b).Some? {
      var ss := ParseFrames(b).value;
      ParseFramesInverts(b, ss);
      SizedFromBuffer(rs);
      assert b == Frames(ss) + [];
      FramesPrefix(rs, ss, []);
      assert false;
    }
  }

  lemma {:induction false} SizedFromBuffer(rs: seq<Record>)
    requires |Frames(rs)| < SIZE_T_LIMIT
    ensures AllSized(rs)
  {
    if rs != [] {
      SizedFromBuffer(rs[1..]);
      forall i | 0 <= i < |rs| ensures Sized(rs[i]) {
        if i > 0 {
          assert rs[i] == rs[1..][i - 1];
        }
      }
    }
  }

  // ---------- Frames are self-delimiting ----------

  /** No frame is a proper prefix of another: the first frame of a byte string is unique. */
  lemma FramePrefixFree(r: Record, s: Record, x: Buffer, y: Buffer)
    requires Sized(r) && Sized(s)
    requires Frame(r) + x == Frame(s) + y
    ensures r == s && x == y
  {
    WordRanges();
    var b := Frame(r) + x;
    ReadBack(FrameLength(r), SIZE_T);
    ReadBack(FrameLength(s), SIZE_T);
    assert b[..SIZE_T] == LittleEndian(FrameLength(r), SIZE_T);
    assert b[..SIZE_T] == LittleEndian(FrameLength(s), SIZE_T);
    assert x == b[FrameLength(r)..] == y;
    assert b[SIZE_T..FrameLength(r)] == Body(r);
    assert b[SIZE_T..FrameLength(s)] == Body(s);
    BodyInjective(r, s);
  }

  lemma BodyInjective(r: Record, s: Record)
    requires Sized(r) && Sized(s)
    requires Body(r) == Body(s)
    ensures r == s
  {
    WordRanges();
    var b := Body(r);
    var r2 := LittleEndian(r.port, PORT_SIZE) + Field(r.data);
    var s2 := LittleEndian(s.port, PORT_SIZE) + Field(s.data);
    TakeFieldInverts(b, r.address, Field(r.uuid) + r2);
    TakeFieldInverts(b, s.address, Field(s.uuid) + s2);
    TakeFieldInverts(Field(r.uuid) + r2, r.uuid, r2);
    TakeFieldInverts(Field(s.uuid) + s2, s.uuid, s2);
    ReadBack(r.port, PORT_SIZE);
    ReadBack(s.port, PORT_SIZE);
    assert r2[..PORT_SIZE] == LittleEndian(r.port, PORT_SIZE);
    assert s2[..PORT_SIZE] == LittleEndian(s.port, PORT_SIZE);
    assert r2[PORT_SIZE..] == Field(r.data);
    assert s2[PORT_SIZE..] == Field(s.data);
    assert Field(r.data)[SIZE_T..] == r.data;
    assert Field(s.data)[SIZE_T..] == s.data;
  }

  /** If one stream of whole frames is a prefix of another, its records are a prefix too. */
  lemma {:induction false} FramesPrefix(rs: seq<Record>, ss: seq<Record>, y: Buffer)
    requires AllSized(rs) && AllSized(ss)
    requires Frames(rs) == Frames(ss) + y
    ensures ss <= rs && y == Frames(rs[|ss|..])
    decreases |rs|
  {
    if ss == [] {
      assert rs[|ss|..] == rs;
      assert Frames(ss) + y == y;
    } else if rs == [] {
      assert false;
    } else {
      var r', s' := Frames(rs[1..]), Frames(ss[1..]) + y;
      assert Frames(ss) + y == Frame(ss[0]) + s';
      FramePrefixFree(rs[0], ss[0], r', s');
      FramesPrefix(rs[1..], ss[1..], y);
      assert rs[1..][|ss| - 1..] == rs[|ss|..];
      assert ss == [ss[0]] + ss[1..];
      assert rs == [rs[0]] + rs[1..];
    }
  }

  /** Byte position n falls between two frames of rs. */
  ghost predicate Boundary(rs: seq<Record>, n: nat) {
    exists k :: 0 <= k <= |rs| && |Frames(rs[..k])| == n
  }

  /**
   Cutting a stream of whole frames after n bytes: at a frame boundary the parser returns exactly
   the frames before the cut, anywhere else it returns the empty list.
   */
  lemma CutStream(rs: seq<Record>, n: nat)
    requires AllSendable(rs) && n <= |Frames(rs)| < SIZE_T_LIMIT
    ensures forall k :: 0 <= k <= |rs| && |Frames(rs[..k])| == n ==> DecodeList(Frames(rs)[..n]) == rs[..k]
    ensures !Boundary(rs, n) ==> DecodeList(Frames(rs)[..n]) == []
  {
    forall k | 0 <= k <= |rs| && |Frames(rs[..k])| == n ensures DecodeList(Frames(rs)[..n]) == rs[..k] {
      CutAtBoundary(rs, k);
    }
    if ParseFrames(Frames(rs)[..n]).Some? {
      ParsedCutIsBoundary(rs, n);
    }
  }

  lemma CutAtBoundary(rs: seq<Record>, k: nat)
    requires AllSendable(rs) && k <= |rs| && |Frames(rs)| < SIZE_T_LIMIT
    ensures |Frames(rs[..k])| <= |Frames(rs)|
    ensures DecodeList(Frames(rs)[..|Frames(rs[..k])|]) == rs[..k]
  {
    FramesAppend(rs[..k], rs[k..]);
    assert rs == rs[..k] + rs[k..];
    PrefixOfSum(Frames(rs), Frames(rs[..k]), Frames(rs[k..]));
    ParsePrinted(Frames(rs[..k]), rs[..k]);
  }

  lemma PrefixOfSum(b: Buffer, x: Buffer, y: Buffer)
    requires b == x + y
    ensures |x| <= |b| && b[..|x|] == x
  {
  }

  lemma ParsedCutIsBoundary(rs: seq<Record>, n: nat)
    requires AllSendable(rs) && n <= |Frames(rs)| < SIZE_T_LIMIT
    requires ParseFrames(Frames(rs)[..n]).Some?
    ensures Boundary(rs, n)
  {
    var b := Frames(rs);
    var ss := ParseFrames(b[..n]).value;
    PrintParsed(b[..n], ss);
    Rejoin(b, n, n);
    assert b[..n] + b[n..n] == b[..n];
    FramesPrefix(rs, ss, b[n..]);
    assert rs[..|ss|] == ss;
  }

  // ---------- The serializer ----------

  /**
   memcpy_s: copies src to out at offset when the stated destination size is neither zero nor
   over the library's limit.
   */
  method MemcpyS(out: array<uint8>, offset: nat, destMax: nat, src: Buffer) returns (ok: bool)
    requires offset + |src| <= out.Length && |src| <= destMax
    modifies out
    ensures ok <==> 0 < destMax <= SECUREC_MEM_MAX_LEN
    ensures ok ==> out[..] == old(out[..])[..offset] + src + old(out[..])[offset + |src|..]
    ensures !ok ==> out[..] == old(out[..])
  {
    if destMax == 0 || destMax > SECUREC_MEM_MAX_LEN {
      return false;
    }
    for i := 0 to |src|
      invariant forall j :: 0 <= j < i ==> out[offset + j] == src[j]
      invariant forall j :: 0 <= j < offset ==> out[j] == old(out[j])
      invariant forall j :: offset + i <= j < out.Length ==> out[j] == old(out[j])
    {
      out[offset + i] := src[i];
    }
    ok := true;
  }

  /** The first offset bytes of the buffer agree with the target. */
  ghost predicate Written(out: array<uint8>, target: Buffer, offset: nat)
    reads out
  {
    offset <= out.Length == |target| && out[..offset] == target[..offset]
  }

  /** src is the next part of the target. */
  predicate Next(target: Buffer, offset: nat, src: Buffer) {
    offset + |src| <= |target| && target[offset..offset + |src|] == src
  }

  /** One memcpy_s at the write position. */
  method Append(out: array<uint8>, offset: nat, src: Buffer, ghost target: Buffer)
    returns (ok: bool, offset': nat)
    requires Written(out, target, offset) && Next(target, offset, src)
    modifies out
    ensures offset' == offset + |src|
    ensures ok <==> 0 < |src| <= SECUREC_MEM_MAX_LEN
    ensures ok ==> Written(out, target, offset')
  {
    ok := MemcpyS(out, offset, |src|, src);
    offset' := offset + |src|;
    if ok {
      assert out[..offset'] == out[..][..offset'] == out[..offset] + src;
      assert target[..offset'] == target[..offset] + target[offset..offset'];
    }
  }

  /** Writes a string after its length. */
  method WriteLengthAndData(out: array<uint8>, offset: nat, data: Buffer, ghost target: Buffer)
    returns (ok: bool, offset': nat)
    requires Written(out, target, offset)
    requires Next(target, offset, LittleEndian(|data|, SIZE_T)) && Next(target, offset + SIZE_T, data)
    modifies out
    ensures ok <==> 0 < |data| <= SECUREC_MEM_MAX_LEN
    ensures ok ==> offset' == offset + SIZE_T + |data|
    ensures ok ==> Written(out, target, offset')
  {
    ok, offset' := Append(out, offset, LittleEndian(|data|, SIZE_T), target);
    ok, offset' := Append(out, offset', data, target);
  }

  /** Where each part of a frame lies in the target. */
  ghost predicate LaidOut(target: Buffer, r: Record) {
    var u := 2 * SIZE_T + |r.address|;
    var p := u + SIZE_T + |r.uuid|;
    && |target| == FrameLength(r)
    && Next(target, 0, LittleEndian(FrameLength(r), SIZE_T))
    && Next(target, SIZE_T, LittleEndian(|r.address|, SIZE_T)) && Next(target, 2 * SIZE_T, r.address)
    && Next(target, u, LittleEndian(|r.uuid|, SIZE_T)) && Next(target, u + SIZE_T, r.uuid)
    && Next(target, p, LittleEndian(r.port, PORT_SIZE))
    && Next(target, p + PORT_SIZE, LittleEndian(|r.data|, SIZE_T))
    && Next(target, p + PORT_SIZE + SIZE_T, r.data)
  }

  lemma Layout(r: Record)
    ensures LaidOut(Frame(r), r)
  {
    var rest := LittleEndian(r.port, PORT_SIZE) + Field(r.data);
    NextParts([], LittleEndian(FrameLength(r), SIZE_T), Body(r));
    NextField(LittleEndian(FrameLength(r), SIZE_T), r.address, Field(r.uuid) + rest);
    var done := LittleEndian(FrameLength(r), SIZE_T) + Field(r.address);
    assert Frame(r) == done + (Field(r.uuid) + rest);
    NextField(done, r.uuid, rest);
    done := done + Field(r.uuid);
    assert Frame(r) == done + rest;
    NextParts(done, LittleEndian(r.port, PORT_SIZE), Field(r.data));
    done := done + LittleEndian(r.port, PORT_SIZE);
    assert Frame(r) == done + (Field(r.data) + []);
    NextField(done, r.data, []);
  }

  lemma NextParts(done: Buffer, src: Buffer, rest: Buffer)
    ensures Next(done + (src + rest), |done|, src)
  {
  }

  lemma NextField(done: Buffer, f: Buffer, rest: Buffer)
    ensures Next(done + (Field(f) + rest), |done|, LittleEndian(|f|, SIZE_T))
    ensures Next(done + (Field(f) + rest), |done| + SIZE_T, f)
  {
  }

  /** The length in front of a frame counts the whole frame, and a payload has at most 65535 bytes. */
  lemma SendableExact(r: Record)
    ensures Sendable(r) <==> |Frame(r)| < 0x1_0000_0000_0000_0000 && |r.data| <= 65535
  {
  }

  /** The string fields memcpy_s is able to copy. */
  predicate Copyable(s: Buffer) {
    0 < |s| <= SECUREC_MEM_MAX_LEN
  }

  /**
   Serializes a record. The final offset always equals the precomputed length, so failure comes
   only from a string field that memcpy_s refuses, and the result is the record's frame. (The copy
   of a payload over memcpy_s's limit is not checked and leaves zeros.)
   */
  method SerializeData(r: Record) returns (out: array?<uint8>, totalLen: nat)
    requires Sized(r)
    ensures totalLen == FrameLength(r)
    ensures out != null <==> Copyable(r.address) && Copyable(r.uuid)
    ensures out != null ==> out.Length == totalLen
    ensures out != null && |r.data| <= SECUREC_MEM_MAX_LEN ==> out[..] == Frame(r)
  {
    Layout(r);
    out, totalLen := WriteFrame(r, Frame(r));
  }

  method WriteFrame(r: Record, ghost target: Buffer) returns (out: array?<uint8>, totalLen: nat)
    requires LaidOut(target, r)
    ensures totalLen == FrameLength(r)
    ensures out != null <==> Copyable(r.address) && Copyable(r.uuid)
    ensures out != null ==> out.Length == totalLen
    ensures out != null && |r.data| <= SECUREC_MEM_MAX_LEN ==> out[..] == target
  {
    totalLen := SIZE_T + SIZE_T + |r.address| + SIZE_T + |r.uuid| + PORT_SIZE + SIZE_T + |r.data|;
    var buffer := new uint8[totalLen](i => 0);
    var offset := 0;
    var ok;
    ok, offset := Append(buffer, offset, LittleEndian(totalLen, SIZE_T), target);
    ok, offset := WriteLengthAndData(buffer, offset, r.address, target);
    if !ok {
      return null, totalLen;
    }
    ok, offset := WriteLengthAndData(buffer, offset, r.uuid, target);
    if !ok {
      return null, totalLen;
    }
    ok, offset := Append(buffer, offset, LittleEndian(r.port, PORT_SIZE), target);
    offset := WritePayload(buffer, offset, r.data, target);
    if offset != totalLen {
      return null, totalLen;
    }
    assert buffer[..] == buffer[..offset];
    out := buffer;
  }

  /** Writes the payload after its length; an empty payload is a zero length alone. */
  method WritePayload(out: array<uint8>, offset: nat, data: Buffer, ghost target: Buffer)
    returns (offset': nat)
    requires Written(out, target, offset)
    requires Next(target, offset, LittleEndian(|data|, SIZE_T)) && Next(target, offset + SIZE_T, data)
    modifies out
    ensures offset' == offset + SIZE_T + |data|
    ensures |data| <= SECUREC_MEM_MAX_LEN ==> Written(out, target, offset')
  {
    var ok;
    if data != [] {
      ok, offset' := Append(out, offset, LittleEndian(|data|, SIZE_T), target);
      ok, offset' := Append(out, offset', data, target);
    } else {
      ok, offset' := Append(out, offset, LittleEndian(0, SIZE_T), target);
    }
  }

  // ---------- The parser ----------

  /** Reads a length-prefixed string at position ptr. */
  method ReadField(data: Buffer, ptr: nat) returns (ok: bool, field: Buffer, ptr': nat)
    requires ptr <= |data|
    ensures ptr' <= |data|
    ensures TakeField(data[ptr..]) == if ok then Some((field, data[ptr'..])) else None
  {
    ok, field, ptr' := false, [], ptr;
    if |data| - ptr < SIZE_T { return; }
    assert data[ptr..][..SIZE_T] == data[ptr..ptr + SIZE_T];
    var len := FromLittleEndian(data[ptr..ptr + SIZE_T]);
    ptr' := ptr + SIZE_T;
    if |data| - ptr' < len { return; }
    field := data[ptr'..ptr' + len];
    assert field == data[ptr..][SIZE_T..SIZE_T + len];
    ptr' := ptr' + len;
    assert data[ptr'..] == data[ptr..][SIZE_T + len..];
    ok := true;
  }

  /** Reads the payload at position ptr, which must reach exactly to the end. */
  method ReadPayload(data: Buffer, ptr: nat) returns (ok: bool, payload: Buffer)
    requires ptr <= |data|
    ensures ParseData(data[ptr..]) == if ok then Some(payload) else None
  {
    ok, payload := false, [];
    var at, end := ptr, |data|;
    if end - at < SIZE_T { return; }
    assert data[ptr..][..SIZE_T] == data[ptr..ptr + SIZE_T];
    var dataLen := FromLittleEndian(data[at..at + SIZE_T]);
    at := at + SIZE_T;
    if dataLen > DATA_MAX_LEN { return; }
    if end - at < dataLen { return; }
    payload := data[at..at + dataLen];
    at := at + dataLen;
    ok := at == end;
    if ok {
      assert payload == data[ptr..][SIZE_T..];
    }
  }

  /** Parses one frame body, walking a position through it. */
  method DeserializeData(data: Buffer) returns (ok: bool, result: Record)
    requires |data| + SIZE_T < SIZE_T_LIMIT
    ensures ParseBody(data) == if ok then Some(result) else None
    ensures ok ==> Sendable(result) && data == Body(result)
    ensures !ok ==> forall r :: Sendable(r) ==> data != Body(r)
  {
    result := Record([], [], 0, []);
    forall r | Sendable(r) && data == Body(r) ensures ParseBody(data) == Some(r) {
      ParsePrintedBody(r);
    }
    assert data[0..] == data;
    WordRanges();
    var address, uuid, ptr, payload;
    ok, address, ptr := ReadField(data, 0);
    if !ok { return; }
    ok, uuid, ptr := ReadField(data, ptr);
    if !ok { return; }
    ok := |data| - ptr >= PORT_SIZE;
    if !ok { return; }
    var port := FromLittleEndian(data[ptr..ptr + PORT_SIZE]);
    assert data[ptr..][..PORT_SIZE] == data[ptr..ptr + PORT_SIZE];
    assert data[ptr..][PORT_SIZE..] == data[ptr + PORT_SIZE..];
    ok, payload := ReadPayload(data, ptr + PORT_SIZE);
    if ok {
      result := Record(address, uuid, port, payload);
      PrintParsedBody(data, result);
    }
  }

  /** One turn of the list parser: the frame at position ptr. */
  method ReadFrame(data: Buffer, ptr: nat) returns (ok: bool, result: Record, ptr': nat)
    requires ptr <= |data| < SIZE_T_LIMIT
    ensures ptr' <= |data|
    ensures TakeFrame(data[ptr..]) == if ok then Some((result, data[ptr'..])) else None
    ensures ok ==> ptr < ptr'
  {
    ok, result, ptr' := false, Record([], [], 0, []), ptr;
    ghost var rest := data[ptr..];
    if |data| - ptr' < SIZE_T { return; }
    assert rest[..SIZE_T] == data[ptr..ptr + SIZE_T];
    var packageLen := FromLittleEndian(data[ptr'..ptr' + SIZE_T]);
    ptr' := ptr' + SIZE_T;
    if packageLen <= SIZE_T { return; }
    packageLen := packageLen - SIZE_T;
    if |data| - ptr' < packageLen { return; }
    assert data[ptr'..ptr' + packageLen] == rest[SIZE_T..SIZE_T + packageLen];
    ok, result := DeserializeData(data[ptr'..ptr' + packageLen]);
    ptr' := ptr' + packageLen;
    assert data[ptr'..] == rest[SIZE_T + packageLen..];
  }

  /** Parses a received buffer; any malformed part empties the whole list. */
  method DeserializeDataList(data: Buffer) returns (dataList: seq<Record>)
    requires |data| < SIZE_T_LIMIT
    ensures dataList == DecodeList(data)
  {
    dataList := [];
    var ptr := 0;
    assert data[0..] == data;
    assert ParseFrames(data).Some? ==> [] + ParseFrames(data).value == ParseFrames(data).value;
    while ptr < |data|
      invariant 0 <= ptr <= |data|
      invariant ParseFrames(data) == Prepend(dataList, ParseFrames(data[ptr..]))
    {
      var ok, result;
      ok, result, ptr := ReadFrame(data, ptr);
      if !ok {
        return [];
      }
      PrependOne(dataList, result, ParseFrames(data[ptr..]));
      dataList := dataList + [result];
    }
    assert data[ptr..] == [];
  }

  lemma PrependOne(rs: seq<Record>, r: Record, tail: Option<seq<Record>>)
    ensures Prepend(rs, Prepend([r], tail)) == Prepend(rs + [r], tail)
  {
    if tail.Some? {
      assert rs + ([r] + tail.value) == rs + [r] + tail.value;
    }
  }

  /**
   What DeserializeDataList returns is the one list of sendable records whose frames make up the
   input; it is empty when there is no such list.
   */
  lemma DecodeListExact(data: Buffer)
    requires |data| < SIZE_T_LIMIT
    ensures AllSendable(DecodeList(data))
    ensures DecodeList(data) != [] ==> Frames(DecodeList(data)) == data
    ensures forall rs :: AllSendable(rs) && Frames(rs) == data ==> DecodeList(data) == rs
  {
    if ParseFrames(data).Some? {
      PrintParsed(data, ParseFrames(data).value);
    }
    forall rs | AllSendable(rs) && Frames(rs) == data ensures DecodeList(data) == rs {
      ParsePrinted(data, rs);
    }
  }
}
