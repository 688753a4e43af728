/**
 The SSAP service tree as a parcel, and the proof that reading a written parcel gives the tree back.

 A parcel is a queue of slots. 8-, 16- and 32-bit integers and booleans each take one word slot, so
 a value written as Int32 can be read as Uint16.
 */
module Parcels {
  import opened Bytes
  import opened Uuids

  type uint64 = n: int | 0 <= n < 0x1_0000_0000_0000_0000

  datatype Slot = Word(n: uint32) | Long(w: uint64) | Text(s: string)

  type Slots = seq<Slot>

  // ---------- Records ----------

  datatype Descriptor = Descriptor(handle: uint16, kind: uint8, value: Buffer, writeInd: uint8, permission: uint16)

  datatype Event = Event(handle: uint16, uuid: Uuid, parameter: Buffer)

  datatype Method = Method(handle: uint16, uuid: Uuid, parameter: Buffer, result: Buffer, permission: uint16)

  datatype Property = Property(handle: uint16, uuid: Uuid, value: Buffer, opInd: uint32,
                               descriptors: seq<Descriptor>, permission: uint16)

  datatype Service = Service(handle: uint16, startHandle: uint16, endHandle: uint16, isPrimary: bool, uuid: Uuid,
                             opInd: uint32, includeServices: seq<Service>, properties: seq<Property>,
                             methods: seq<Method>, events: seq<Event>, descriptors: seq<Descriptor>)

  const SERVICE_MAX: nat := 0x100
  const PROPERTY_MAX: nat := 0x1000
  const METHOD_MAX: nat := 0x1000
  const EVENT_MAX: nat := 0x1000
  const DESCRIPTOR_MAX: nat := 0x100

  // ---------- Written form ----------

  /** The conversion from size_t to uint32_t. */
  function Truncated(n: nat): uint32 {
    n % 0x1_0000_0000
  }

  function ByteSlots(b: Buffer): Slots {
    seq(|b|, i requires 0 <= i < |b| => Word(b[i]))
  }

  function Block(b: Buffer): Slots {
    [Word(Truncated(|b|))] + ByteSlots(b)
  }

  /** WriteParcelable puts a non-null mark in front. */
  function Marked(content: Slots): Slots {
    [Word(1)] + content
  }

  function Each<T>(items: seq<T>, write: T -> Slots): Slots {
    if items == [] then [] else Marked(write(items[0])) + Each(items[1..], write)
  }

  function List<T>(items: seq<T>, write: T -> Slots): Slots {
    [Word(Truncated(|items|))] + Each(items, write)
  }

  /** A 64-bit integer as it is written, and its bits as they are read. */
  function FromBits(w: bv64): uint64 {
    w as uint64
  }

  function ToBits(n: uint64): bv64 {
    n as bv64
  }

  function UuidOf(most: uint64, least: uint64): Uuid {
    FromHalves(ToBits(most), ToBits(least))
  }

  function UuidSlots(u: Uuid): Slots {
    [Long(FromBits(ShiftWord(u[..8]))), Long(FromBits(ShiftWord(u[8..])))]
  }

  function DescriptorSlots(d: Descriptor): Slots {
    [Word(d.handle), Word(d.kind)] + (Block(d.value) + [Word(d.writeInd), Word(d.permission)])
  }

  function EventSlots(e: Event): Slots {
    [Word(e.handle)] + (Marked(UuidSlots(e.uuid)) + Block(e.parameter))
  }

  function MethodSlots(m: Method): Slots {
    [Word(m.handle)] + (Marked(UuidSlots(m.uuid)) + (Block(m.parameter) + (Block(m.result) + [Word(m.permission)])))
  }

  function PropertyTailSlots(p: Property): Slots {
    [Word(p.opInd)] + (List(p.descriptors, DescriptorSlots) + [Word(p.permission)])
  }

  function PropertySlots(p: Property): Slots {
    [Word(p.handle)] + (Marked(UuidSlots(p.uuid)) + (Block(p.value) + PropertyTailSlots(p)))
  }

  function MemberSlots(s: Service): Slots {
    List(s.properties, PropertySlots) + (List(s.methods, MethodSlots) +
    (List(s.events, EventSlots) + List(s.descriptors, DescriptorSlots)))
  }

  function ServiceSlots(s: Service): Slots {
    [Word(s.handle), Word(s.startHandle), Word(s.endHandle), Word(if s.isPrimary then 1 else 0)] +
    (Marked(UuidSlots(s.uuid)) + ([Word(s.opInd)] + MemberSlots(s)))
  }

  // ---------- Limits ----------

  predicate DescriptorFits(d: Descriptor) {
    |d.value| <= DESCRIPTOR_MAX
  }

  predicate EventFits(e: Event) {
    |e.parameter| <= EVENT_MAX
  }

  predicate MethodFits(m: Method) {
    |m.parameter| <= METHOD_MAX && |m.result| <= METHOD_MAX
  }

  predicate AllFit<T>(items: seq<T>, fits: T -> bool) {
    forall i :: 0 <= i < |items| ==> fits(items[i])
  }

  predicate PropertyFits(p: Property) {
    |p.value| <= PROPERTY_MAX && |p.descriptors| <= PROPERTY_MAX && AllFit(p.descriptors, DescriptorFits)
  }

  predicate ServiceFits(s: Service) {
    && |s.properties| <= SERVICE_MAX && AllFit(s.properties, PropertyFits)
    && |s.methods| <= SERVICE_MAX && AllFit(s.methods, MethodFits)
    && |s.events| <= SERVICE_MAX && AllFit(s.events, EventFits)
    && |s.descriptors| <= SERVICE_MAX && AllFit(s.descriptors, DescriptorFits)
  }

  // ---------- Reading ----------

  type Reader<T> = Slots -> Option<(T, Slots)>

  function TakeWord(s: Slots): Option<(uint32, Slots)> {
    if s != [] && s[0].Word? then Some((s[0].n, s[1..])) else None
  }

  function TakeLong(s: Slots): Option<(uint64, Slots)> {
    if s != [] && s[0].Long? then Some((s[0].w, s[1..])) else None
  }

  /** ReadUint64 without a check: zero when there is nothing to read. */
  function ReadLong(s: Slots): (uint64, Slots) {
    if TakeLong(s).Some? then TakeLong(s).value else (0, s)
  }

  function TakeBytes(s: Slots, n: nat): Option<(Buffer, Slots)> {
    if n == 0 then Some(([], s))
    else
      match TakeWord(s)
      case None => None
      case Some((w, s1)) =>
        match TakeBytes(s1, n - 1)
        case None => None
        case Some((b, s2)) => Some(([w % 0x100] + b, s2))
  }

  function TakeBlock(s: Slots, limit: nat): Option<(Buffer, Slots)> {
    match TakeWord(s)
    case None => None
    case Some((n, s1)) => if n > limit then None else TakeBytes(s1, n)
  }

  function TakeMarked<T>(s: Slots, read: Reader<T>): Option<(T, Slots)> {
    match TakeWord(s)
    case None => None
    case Some((mark, s1)) => if mark == 0 then None else read(s1)
  }

  function TakeEach<T>(s: Slots, n: nat, read: Reader<T>): Option<(seq<T>, Slots)>
    decreases n
  {
    if n == 0 then Some(([], s))
    else
      match TakeMarked(s, read)
      case None => None
      case Some((x, s1)) =>
        match TakeEach(s1, n - 1, read)
        case None => None
        case Some((xs, s2)) => Some(([x] + xs, s2))
  }

  function TakeList<T>(s: Slots, limit: nat, read: Reader<T>): Option<(seq<T>, Slots)> {
    match TakeWord(s)
    case None => None
    case Some((n, s1)) => if n > limit then None else TakeEach(s1, n, read)
  }

  /** A missing half is zero; reading a uuid does not fail. */
  function TakeUuid(s: Slots): Option<(Uuid, Slots)> {
    var (most, s1) := ReadLong(s);
    var (least, s2) := ReadLong(s1);
    Some((UuidOf(most, least), s2))
  }

  function TakeDescriptor(s: Slots): Option<(Descriptor, Slots)> {
    match TakeWord(s)
    case None => None
    case Some((handle, s1)) =>
      match TakeWord(s1)
      case None => None
      case Some((kind, s2)) =>
        match TakeBlock(s2, DESCRIPTOR_MAX)
        case None => None
        case Some((value, s3)) =>
          match TakeWord(s3)
          case None => None
          case Some((writeInd, s4)) =>
            match TakeWord(s4)
            case None => None
            case Some((permission, s5)) =>
              Some((Descriptor(handle % 0x1_0000, kind % 0x100, value, writeInd % 0x100, permission % 0x1_0000), s5))
  }

  function TakeEvent(s: Slots): Option<(Event, Slots)> {
    match TakeWord(s)
    case None => None
    case Some((handle, s1)) =>
      match TakeMarked(s1, TakeUuid)
      case None => None
      case Some((uuid, s2)) =>
        match TakeBlock(s2, EVENT_MAX)
        case None => None
        case Some((parameter, s3)) => Some((Event(handle % 0x1_0000, uuid, parameter), s3))
  }

  function TakeMethod(s: Slots): Option<(Method, Slots)> {
    match TakeWord(s)
    case None => None
    case Some((handle, s1)) =>
      match TakeMarked(s1, TakeUuid)
      case None => None
      case Some((uuid, s2)) =>
        match TakeBlock(s2, METHOD_MAX)
        case None => None
        case Some((parameter, s3)) =>
          match TakeBlock(s3, METHOD_MAX)
          case None => None
          case Some((result, s4)) =>
            match TakeWord(s4)
            case None => None
            case Some((permission, s5)) =>
              Some((Method(handle % 0x1_0000, uuid, parameter, result, permission % 0x1_0000), s5))
  }

  /** The operation indication, the descriptors and the permission of a property. */
  function TakePropertyTail(s: Slots): Option<((uint32, seq<Descriptor>, uint16), Slots)> {
    match TakeWord(s)
    case None => None
    case Some((opInd, s1)) =>
      match TakeList(s1, PROPERTY_MAX, TakeDescriptor)
      case None => None
      case Some((descriptors, s2)) =>
        match TakeWord(s2)
        case None => None
        case Some((permission, s3)) => Some(((opInd, descriptors, permission % 0x1_0000), s3))
  }

  function TakeProperty(s: Slots): Option<(Property, Slots)> {
    match TakeWord(s)
    case None => None
    case Some((handle, s1)) =>
      match TakeMarked(s1, TakeUuid)
      case None => None
      case Some((uuid, s2)) =>
        match TakeBlock(s2, PROPERTY_MAX)
        case None => None
        case Some((value, s3)) =>
          match TakePropertyTail(s3)
          case None => None
          case Some(((opInd, descriptors, permission), s4)) =>
            Some((Property(handle % 0x1_0000, uuid, value, opInd, descriptors, permission), s4))
  }

  /** SsapServiceMemberRead: the four lists. */
  function TakeMembers(s: Slots): Option<((seq<Property>, seq<Method>, seq<Event>, seq<Descriptor>), Slots)> {
    match TakeList(s, SERVICE_MAX, TakeProperty)
    case None => None
    case Some((properties, s1)) =>
      match TakeList(s1, SERVICE_MAX, TakeMethod)
      case None => None
      case Some((methods, s2)) =>
        match TakeList(s2, SERVICE_MAX, TakeEvent)
        case None => None
        case Some((events, s3)) =>
          match TakeList(s3, SERVICE_MAX, TakeDescriptor)
          case None => None
          case Some((descriptors, s4)) => Some(((properties, methods, events, descriptors), s4))
  }

  function TakeHandles(s: Slots): Option<((uint16, uint16, uint16, bool), Slots)> {
    match TakeWord(s)
    case None => None
    case Some((handle, s1)) =>
      match TakeWord(s1)
      case None => None
      case Some((startHandle, s2)) =>
        match TakeWord(s2)
        case None => None
        case Some((endHandle, s3)) =>
          match TakeWord(s3)
          case None => None
          case Some((primary, s4)) =>
            Some(((handle % 0x1_0000, startHandle % 0x1_0000, endHandle % 0x1_0000, primary != 0), s4))
  }

  function TakeService(s: Slots): Option<(Service, Slots)> {
    match TakeHandles(s)
    case None => None
    case Some(((handle, startHandle, endHandle, isPrimary), s1)) =>
      match TakeMarked(s1, TakeUuid)
      case None => None
      case Some((uuid, s2)) =>
        match TakeWord(s2)
        case None => None
        case Some((opInd, s3)) =>
          match TakeMembers(s3)
          case None => None
          case Some(((properties, methods, events, descriptors), s4)) =>
            Some((Service(handle, startHandle, endHandle, isPrimary, uuid, opInd, [],
                          properties, methods, events, descriptors), s4))
  }

  // ---------- Round trips of the parts ----------

  lemma Assoc(a: Slots, b: Slots, c: Slots)
    ensures (a + b) + c == a + (b + c)
  {
  }

  lemma Regroup(a: Slots, b: Slots, c: Slots, d: Slots)
    ensures a + (b + c) + d == a + (b + (c + d))
  {
  }

  lemma WordBack(n: uint32, rest: Slots)
    ensures TakeWord([Word(n)] + rest) == Some((n, rest))
  {
    assert ([Word(n)] + rest)[1..] == rest;
  }

  lemma {:induction false} BytesBack(b: Buffer, rest: Slots)
    ensures TakeBytes(ByteSlots(b) + rest, |b|) == Some((b, rest))
  {
    if b == [] {
      assert ByteSlots(b) + rest == rest;
    } else {
      BytesBack(b[1..], rest);
      assert ByteSlots(b) + rest == [Word(b[0])] + (ByteSlots(b[1..]) + rest);
      WordBack(b[0], ByteSlots(b[1..]) + rest);
      assert b == [b[0]] + b[1..];
    }
  }

  lemma BlockBack(b: Buffer, limit: nat, rest: Slots)
    requires |b| <= limit < 0x1_0000_0000
    ensures TakeBlock(Block(b) + rest, limit) == Some((b, rest))
  {
    assert Block(b) + rest == [Word(|b|)] + (ByteSlots(b) + rest);
    WordBack(|b|, ByteSlots(b) + rest);
    BytesBack(b, rest);
  }

  lemma MarkedBack<T>(content: Slots, x: T, read: Reader<T>, rest: Slots)
    requires read(content + rest) == Some((x, rest))
    ensures TakeMarked(Marked(content) + rest, read) == Some((x, rest))
  {
    assert Marked(content) + rest == [Word(1)] + (content + rest);
    WordBack(1, content + rest);
  }

  lemma BitsBack(w: bv64)
    ensures ToBits(FromBits(w)) == w
  {
  }

  lemma UuidOfBits(u: Uuid)
    ensures UuidOf(FromBits(ShiftWord(u[..8])), FromBits(ShiftWord(u[8..]))) == u
  {
    BitsBack(ShiftWord(u[..8]));
    BitsBack(ShiftWord(u[8..]));
    SplitShift(u[..8]);
    SplitShift(u[8..]);
    assert u == u[..8] + u[8..];
  }

  lemma LongBack(n: uint64, rest: Slots)
    ensures ReadLong([Long(n)] + rest) == (n, rest)
  {
    assert ([Long(n)] + rest)[1..] == rest;
  }

  lemma LongsBack(most: uint64, least: uint64, u: Uuid, rest: Slots)
    requires UuidOf(most, least) == u
    ensures TakeUuid([Long(most), Long(least)] + rest) == Some((u, rest))
  {
    assert [Long(most), Long(least)] + rest == [Long(most)] + ([Long(least)] + rest);
    LongBack(most, [Long(least)] + rest);
    LongBack(least, rest);
  }

  lemma UuidBack(u: Uuid, rest: Slots)
    ensures TakeUuid(UuidSlots(u) + rest) == Some((u, rest))
  {
    UuidOfBits(u);
    LongsBack(FromBits(ShiftWord(u[..8])), FromBits(ShiftWord(u[8..])), u, rest);
  }

  lemma MarkedUuidBack(u: Uuid, rest: Slots)
    ensures TakeMarked(Marked(UuidSlots(u)) + rest, TakeUuid) == Some((u, rest))
  {
    UuidBack(u, rest);
    MarkedBack(UuidSlots(u), u, TakeUuid, rest);
  }

  /** Reading undoes writing for these items, whatever follows them. */
  ghost predicate Inverse<T(!new)>(fits: T -> bool, write: T -> Slots, read: Reader<T>) {
    forall x: T, rest: Slots :: fits(x) ==> read(write(x) + rest) == Some((x, rest))
  }

  lemma {:induction false} EachBack<T(!new)>(items: seq<T>, fits: T -> bool, write: T -> Slots, read: Reader<T>,
                                           rest: Slots)
    requires Inverse(fits, write, read) && AllFit(items, fits)
    ensures TakeEach(Each(items, write) + rest, |items|, read) == Some((items, rest))
  {
    if items == [] {
      assert Each(items, write) + rest == rest;
    } else {
      var x, more := items[0], Each(items[1..], write) + rest;
      EachBack(items[1..], fits, write, read, rest);
      assert Each(items, write) + rest == Marked(write(x)) + more;
      MarkedBack(write(x), x, read, more);
      assert items == [x] + items[1..];
    }
  }

  lemma ListBack<T(!new)>(items: seq<T>, limit: nat, fits: T -> bool, write: T -> Slots, read: Reader<T>, rest: Slots)
    requires Inverse(fits, write, read) && AllFit(items, fits) && |items| <= limit < 0x1_0000_0000
    ensures TakeList(List(items, write) + rest, limit, read) == Some((items, rest))
  {
    assert List(items, write) + rest == [Word(|items|)] + (Each(items, write) + rest);
    WordBack(|items|, Each(items, write) + rest);
    EachBack(items, fits, write, read, rest);
  }

  // ---------- Round trips of the records ----------

  lemma DescriptorBack(d: Descriptor, rest: Slots)
    requires DescriptorFits(d)
    ensures TakeDescriptor(DescriptorSlots(d) + rest) == Some((d, rest))
  {
    var s4 := [Word(d.permission)] + rest;
    var s3 := [Word(d.writeInd)] + s4;
    var s2 := Block(d.value) + s3;
    var s1 := [Word(d.kind)] + s2;
    assert DescriptorSlots(d) + rest == [Word(d.handle)] + s1;
    WordBack(d.handle, s1);
    WordBack(d.kind, s2);
    BlockBack(d.value, DESCRIPTOR_MAX, s3);
    WordBack(d.writeInd, s4);
    WordBack(d.permission, rest);
  }

  lemma DescriptorInverse()
    ensures Inverse(DescriptorFits, DescriptorSlots, TakeDescriptor)
  {
    forall d, rest | DescriptorFits(d) ensures TakeDescriptor(DescriptorSlots(d) + rest) == Some((d, rest)) {
      DescriptorBack(d, rest);
    }
  }

  lemma EventBack(e: Event, rest: Slots)
    requires EventFits(e)
    ensures TakeEvent(EventSlots(e) + rest) == Some((e, rest))
  {
    var s2 := Block(e.parameter) + rest;
    var s1 := Marked(UuidSlots(e.uuid)) + s2;
    assert EventSlots(e) + rest == [Word(e.handle)] + s1;
    WordBack(e.handle, s1);
    MarkedUuidBack(e.uuid, s2);
    BlockBack(e.parameter, EVENT_MAX, rest);
  }

  lemma EventInverse()
    ensures Inverse(EventFits, EventSlots, TakeEvent)
  {
    forall e, rest | EventFits(e) ensures TakeEvent(EventSlots(e) + rest) == Some((e, rest)) {
      EventBack(e, rest);
    }
  }

  lemma MethodBack(m: Method, rest: Slots)
    requires MethodFits(m)
    ensures TakeMethod(MethodSlots(m) + rest) == Some((m, rest))
  {
    var s4 := [Word(m.permission)] + rest;
    var s3 := Block(m.result) + s4;
    var s2 := Block(m.parameter) + s3;
    var s1 := Marked(UuidSlots(m.uuid)) + s2;
    assert MethodSlots(m) + rest == [Word(m.handle)] + s1;
    WordBack(m.handle, s1);
    MarkedUuidBack(m.uuid, s2);
    BlockBack(m.parameter, METHOD_MAX, s3);
    BlockBack(m.result, METHOD_MAX, s4);
    WordBack(m.permission, rest);
    MethodFrom(m, [Word(m.handle)] + s1, s1, s2, s3, s4, rest);
  }

  lemma MethodFrom(m: Method, s: Slots, s1: Slots, s2: Slots, s3: Slots, s4: Slots, s5: Slots)
    requires TakeWord(s) == Some((m.handle, s1)) && TakeMarked(s1, TakeUuid) == Some((m.uuid, s2))
    requires TakeBlock(s2, METHOD_MAX) == Some((m.parameter, s3)) && TakeBlock(s3, METHOD_MAX) == Some((m.result, s4))
    requires TakeWord(s4) == Some((m.permission, s5))
    ensures TakeMethod(s) == Some((m, s5))
  {
  }

  lemma MethodInverse()
    ensures Inverse(MethodFits, MethodSlots, TakeMethod)
  {
    forall m, rest | MethodFits(m) ensures TakeMethod(MethodSlots(m) + rest) == Some((m, rest)) {
      MethodBack(m, rest);
    }
  }

  lemma PropertyTailBack(p: Property, rest: Slots)
    requires PropertyFits(p)
    ensures TakePropertyTail(PropertyTailSlots(p) + rest) == Some(((p.opInd, p.descriptors, p.permission), rest))
  {
    var list := List(p.descriptors, DescriptorSlots);
    var s2 := [Word(p.permission)] + rest;
    assert PropertyTailSlots(p) + rest == [Word(p.opInd)] + (list + s2) by {
      Regroup([Word(p.opInd)], list, [Word(p.permission)], rest);
    }
    WordBack(p.opInd, list + s2);
    assert TakeList(list + s2, PROPERTY_MAX, TakeDescriptor) == Some((p.descriptors, s2)) by {
      DescriptorInverse();
      ListBack(p.descriptors, PROPERTY_MAX, DescriptorFits, DescriptorSlots, TakeDescriptor, s2);
    }
    WordBack(p.permission, rest);
  }

  lemma PropertyBackWith(p: Property, tail: Slots, rest: Slots)
    requires |p.value| <= PROPERTY_MAX
    requires TakePropertyTail(tail + rest) == Some(((p.opInd, p.descriptors, p.permission), rest))
    ensures var uuid := Marked(UuidSlots(p.uuid));
      TakeProperty([Word(p.handle)] + (uuid + (Block(p.value) + tail)) + rest) == Some((p, rest))
  {
    var uuid := Marked(UuidSlots(p.uuid));
    var s2 := Block(p.value) + (tail + rest);
    Regroup(uuid, Block(p.value), tail, rest);
    Assoc([Word(p.handle)], uuid + (Block(p.value) + tail), rest);
    WordBack(p.handle, uuid + s2);
    MarkedUuidBack(p.uuid, s2);
    BlockBack(p.value, PROPERTY_MAX, tail + rest);
    PropertyFrom(p, [Word(p.handle)] + (uuid + s2), uuid + s2, s2, tail + rest, rest);
  }

  lemma PropertyFrom(p: Property, s: Slots, s1: Slots, s2: Slots, s3: Slots, s4: Slots)
    requires TakeWord(s) == Some((p.handle, s1)) && TakeMarked(s1, TakeUuid) == Some((p.uuid, s2))
    requires TakeBlock(s2, PROPERTY_MAX) == Some((p.value, s3))
    requires TakePropertyTail(s3) == Some(((p.opInd, p.descriptors, p.permission), s4))
    ensures TakeProperty(s) == Some((p, s4))
  {
  }

  lemma PropertyBack(p: Property, rest: Slots)
    requires PropertyFits(p)
    ensures TakeProperty(PropertySlots(p) + rest) == Some((p, rest))
  {
    PropertyTailBack(p, rest);
    PropertyBackWith(p, PropertyTailSlots(p), rest);
  }

  lemma PropertyInverse()
    ensures Inverse(PropertyFits, PropertySlots, TakeProperty)
  {
    forall p, rest | PropertyFits(p) ensures TakeProperty(PropertySlots(p) + rest) == Some((p, rest)) {
      PropertyBack(p, rest);
    }
  }

  lemma MembersBack(s: Service, rest: Slots)
    requires ServiceFits(s)
    ensures TakeMembers(MemberSlots(s) + rest) == Some(((s.properties, s.methods, s.events, s.descriptors), rest))
  {
    var s3 := List(s.descriptors, DescriptorSlots) + rest;
    var s2 := List(s.events, EventSlots) + s3;
    var s1 := List(s.methods, MethodSlots) + s2;
    Assoc(List(s.properties, PropertySlots), List(s.methods, MethodSlots) +
      (List(s.events, EventSlots) + List(s.descriptors, DescriptorSlots)), rest);
    Assoc(List(s.methods, MethodSlots), List(s.events, EventSlots) + List(s.descriptors, DescriptorSlots), rest);
    Assoc(List(s.events, EventSlots), List(s.descriptors, DescriptorSlots), rest);
    PropertyInverse();
    ListBack(s.properties, SERVICE_MAX, PropertyFits, PropertySlots, TakeProperty, s1);
    MethodInverse();
    ListBack(s.methods, SERVICE_MAX, MethodFits, MethodSlots, TakeMethod, s2);
    EventInverse();
    ListBack(s.events, SERVICE_MAX, EventFits, EventSlots, TakeEvent, s3);
    DescriptorInverse();
    ListBack(s.descriptors, SERVICE_MAX, DescriptorFits, DescriptorSlots, TakeDescriptor, rest);
  }

  lemma HandlesBack(s: Service, rest: Slots)
    ensures var primary := if s.isPrimary then 1 else 0;
      TakeHandles([Word(s.handle), Word(s.startHandle), Word(s.endHandle), Word(primary)] + rest)
      == Some(((s.handle, s.startHandle, s.endHandle, s.isPrimary), rest))
  {
    var primary := if s.isPrimary then 1 else 0;
    var s3 := [Word(primary)] + rest;
    var s2 := [Word(s.endHandle)] + s3;
    var s1 := [Word(s.startHandle)] + s2;
    assert [Word(s.handle), Word(s.startHandle), Word(s.endHandle), Word(primary)] + rest == [Word(s.handle)] + s1;
    WordBack(s.handle, s1);
    WordBack(s.startHandle, s2);
    WordBack(s.endHandle, s3);
    WordBack(primary, rest);
  }

  /**
   A service tree within the limits is read back as itself without its included services, and what
   follows it in the parcel is left alone.
   */
  lemma ServiceBack(s: Service, rest: Slots)
    requires ServiceFits(s)
    ensures TakeService(ServiceSlots(s) + rest) == Some((s.(includeServices := []), rest))
  {
    MembersBack(s, rest);
    ServiceBackWith(s, MemberSlots(s), rest);
  }

  lemma ServiceBackWith(s: Service, members: Slots, rest: Slots)
    requires TakeMembers(members + rest) == Some(((s.properties, s.methods, s.events, s.descriptors), rest))
    ensures var uuid := Marked(UuidSlots(s.uuid));
      var head := [Word(s.handle), Word(s.startHandle), Word(s.endHandle), Word(if s.isPrimary then 1 else 0)];
      TakeService(head + (uuid + ([Word(s.opInd)] + members)) + rest) == Some((s.(includeServices := []), rest))
  {
    var uuid := Marked(UuidSlots(s.uuid));
    var head := [Word(s.handle), Word(s.startHandle), Word(s.endHandle), Word(if s.isPrimary then 1 else 0)];
    var s2 := [Word(s.opInd)] + (members + rest);
    Regroup(uuid, [Word(s.opInd)], members, rest);
    Assoc(head, uuid + ([Word(s.opInd)] + members), rest);
    HandlesBack(s, uuid + s2);
    MarkedUuidBack(s.uuid, s2);
    WordBack(s.opInd, members + rest);
  }

  // ---------- The written form, slot by slot ----------

  /** The slots of b from position at: its length and its bytes. */
  predicate HoldsBlock(s: Slots, at: nat, b: Buffer) {
    at + 1 + |b| <= |s| && s[at] == Word(Truncated(|b|)) && forall i :: 0 <= i < |b| ==> s[at + 1 + i] == Word(b[i])
  }

  /** A mark and the two halves of a uuid, the most significant first. */
  predicate HoldsUuid(s: Slots, at: nat, u: Uuid) {
    && at + 3 <= |s| && s[at] == Word(1)
    && s[at + 1] == Long(FromBits(ShiftWord(u[..8]))) && s[at + 2] == Long(FromBits(ShiftWord(u[8..])))
  }

  lemma DescriptorLayout(d: Descriptor)
    ensures var s, n := DescriptorSlots(d), |d.value|;
      && |s| == n + 5 && s[0] == Word(d.handle) && s[1] == Word(d.kind) && HoldsBlock(s, 2, d.value)
      && s[n + 3] == Word(d.writeInd) && s[n + 4] == Word(d.permission)
  {
  }

  lemma EventLayout(e: Event)
    ensures var s := EventSlots(e);
      |s| == |e.parameter| + 5 && s[0] == Word(e.handle) && HoldsUuid(s, 1, e.uuid) && HoldsBlock(s, 4, e.parameter)
  {
  }

  lemma MethodLayout(m: Method)
    ensures var s, n := MethodSlots(m), |m.parameter|;
      && |s| == n + |m.result| + 7 && s[0] == Word(m.handle) && HoldsUuid(s, 1, m.uuid)
      && HoldsBlock(s, 4, m.parameter) && HoldsBlock(s, 5 + n, m.result) && s[|s| - 1] == Word(m.permission)
  {
  }

  lemma PropertyLayout(p: Property)
    ensures var s, n := PropertySlots(p), |p.value|;
      && |s| == n + 8 + |Each(p.descriptors, DescriptorSlots)| && s[0] == Word(p.handle) && HoldsUuid(s, 1, p.uuid)
      && HoldsBlock(s, 4, p.value) && s[n + 5] == Word(p.opInd) && s[n + 6] == Word(Truncated(|p.descriptors|))
      && s[n + 7..|s| - 1] == Each(p.descriptors, DescriptorSlots) && s[|s| - 1] == Word(p.permission)
  {
  }

  lemma EightSlots(head: Slots, uuid: Slots, op: Slot, m: Slots)
    requires |head| == 4 && |uuid| == 3
    ensures var s := head + (uuid + ([op] + m));
      && s[0] == head[0] && s[1] == head[1] && s[2] == head[2] && s[3] == head[3]
      && s[4] == uuid[0] && s[5] == uuid[1] && s[6] == uuid[2] && s[7] == op && s[8..] == m
  {
  }

  /** Four handle fields, the uuid, the operation indication, and then the lists. */
  lemma ServiceLayout(s: Service)
    ensures var w := ServiceSlots(s);
      && |w| >= 8 && w[0] == Word(s.handle) && w[1] == Word(s.startHandle) && w[2] == Word(s.endHandle)
      && w[3] == Word(if s.isPrimary then 1 else 0) && HoldsUuid(w, 4, s.uuid) && w[7] == Word(s.opInd)
      && w[8..] == MemberSlots(s)
  {
    EightSlots([Word(s.handle), Word(s.startHandle), Word(s.endHandle), Word(if s.isPrimary then 1 else 0)],
               Marked(UuidSlots(s.uuid)), Word(s.opInd), MemberSlots(s));
  }

  /** Properties, methods, events and descriptors, in this order, each after its count. */
  lemma MembersLayout(s: Service)
    ensures MemberSlots(s) ==
      ([Word(Truncated(|s.properties|))] + Each(s.properties, PropertySlots)) +
      (([Word(Truncated(|s.methods|))] + Each(s.methods, MethodSlots)) +
      (([Word(Truncated(|s.events|))] + Each(s.events, EventSlots)) +
       ([Word(Truncated(|s.descriptors|))] + Each(s.descriptors, DescriptorSlots))))
  {
  }

  /** The limits in numbers. */
  lemma ServiceFitsExact(s: Service)
    ensures ServiceFits(s) <==>
      && |s.properties| <= 0x100 && |s.methods| <= 0x100 && |s.events| <= 0x100 && |s.descriptors| <= 0x100
      && (forall p :: p in s.properties ==>
            |p.value| <= 0x1000 && |p.descriptors| <= 0x1000 && forall d :: d in p.descriptors ==> |d.value| <= 0x100)
      && (forall m :: m in s.methods ==> |m.parameter| <= 0x1000 && |m.result| <= 0x1000)
      && (forall e :: e in s.events ==> |e.parameter| <= 0x1000)
      && (forall d :: d in s.descriptors ==> |d.value| <= 0x100)
  {
    forall p: Property ensures PropertyFits(p) <==>
      |p.value| <= 0x1000 && |p.descriptors| <= 0x1000 && forall d :: d in p.descriptors ==> |d.value| <= 0x100
    {
      InList(p.descriptors, DescriptorFits);
    }
    InList(s.properties, PropertyFits);
    InList(s.methods, MethodFits);
    InList(s.events, EventFits);
    InList(s.descriptors, DescriptorFits);
  }

  lemma InList<T(!new)>(items: seq<T>, fits: T -> bool)
    ensures AllFit(items, fits) <==> forall x :: x in items ==> fits(x)
  {
  }

  /** A zero mark is a null object, and a reader fails on it. */
  lemma NullFails<T>(rest: Slots, read: Reader<T>)
    ensures TakeMarked([Word(0)] + rest, read) == None && TakeMarked([], read) == None
  {
  }

  /** A missing half of a uuid is zero. */
  lemma MissingHalves(w: uint64)
    ensures TakeUuid([]) == Some((FromHalves(0, 0), []))
    ensures TakeUuid([Long(w)]) == Some((FromHalves(ToBits(w), 0), []))
  {
    assert ToBits(0) == 0;
  }

  // ---------- What a reader returns ----------

  lemma {:induction false} TakenBytes(s: Slots, n: nat)
    ensures TakeBytes(s, n).Some? ==> |TakeBytes(s, n).value.0| == n
  {
    if n > 0 && TakeWord(s).Some? {
      TakenBytes(TakeWord(s).value.1, n - 1);
    }
  }

  lemma TakenBlock(s: Slots, limit: nat)
    ensures TakeBlock(s, limit).Some? ==> |TakeBlock(s, limit).value.0| <= limit
  {
    if TakeWord(s).Some? {
      TakenBytes(TakeWord(s).value.1, TakeWord(s).value.0);
    }
  }

  /** Whatever the parcel holds, what is read is within the limits. */
  ghost predicate Checks<T(!new)>(read: Reader<T>, fits: T -> bool) {
    forall s: Slots :: read(s).Some? ==> fits(read(s).value.0)
  }

  lemma {:induction false} TakenEach<T(!new)>(s: Slots, n: nat, read: Reader<T>, fits: T -> bool)
    requires Checks(read, fits)
    ensures TakeEach(s, n, read).Some? ==>
      |TakeEach(s, n, read).value.0| == n && AllFit(TakeEach(s, n, read).value.0, fits)
    decreases n
  {
    if n > 0 && TakeMarked(s, read).Some? {
      assert fits(TakeMarked(s, read).value.0);
      TakenEach(TakeMarked(s, read).value.1, n - 1, read, fits);
    }
  }

  lemma TakenList<T(!new)>(s: Slots, limit: nat, read: Reader<T>, fits: T -> bool)
    requires Checks(read, fits)
    ensures TakeList(s, limit, read).Some? ==>
      |TakeList(s, limit, read).value.0| <= limit && AllFit(TakeList(s, limit, read).value.0, fits)
  {
    if TakeWord(s).Some? {
      TakenEach(TakeWord(s).value.1, TakeWord(s).value.0, read, fits);
    }
  }

  lemma DescriptorChecks()
    ensures Checks(TakeDescriptor, DescriptorFits)
  {
    forall s: Slots | TakeDescriptor(s).Some? ensures DescriptorFits(TakeDescriptor(s).value.0) {
      TakenBlock(TakeWord(TakeWord(s).value.1).value.1, DESCRIPTOR_MAX);
    }
  }

  lemma EventChecks()
    ensures Checks(TakeEvent, EventFits)
  {
    forall s: Slots | TakeEvent(s).Some? ensures EventFits(TakeEvent(s).value.0) {
      TakenBlock(TakeMarked(TakeWord(s).value.1, TakeUuid).value.1, EVENT_MAX);
    }
  }

  lemma MethodChecks()
    ensures Checks(TakeMethod, MethodFits)
  {
    forall s: Slots | TakeMethod(s).Some? ensures MethodFits(TakeMethod(s).value.0) {
      var s2 := TakeMarked(TakeWord(s).value.1, TakeUuid).value.1;
      TakenBlock(s2, METHOD_MAX);
      TakenBlock(TakeBlock(s2, METHOD_MAX).value.1, METHOD_MAX);
    }
  }

  lemma TailChecks(s: Slots)
    requires TakePropertyTail(s).Some?
    ensures var descriptors := TakePropertyTail(s).value.0.1;
      |descriptors| <= PROPERTY_MAX && AllFit(descriptors, DescriptorFits)
  {
    DescriptorChecks();
    TakenList(TakeWord(s).value.1, PROPERTY_MAX, TakeDescriptor, DescriptorFits);
  }

  lemma PropertyChecks()
    ensures Checks(TakeProperty, PropertyFits)
  {
    forall s: Slots | TakeProperty(s).Some? ensures PropertyFits(TakeProperty(s).value.0) {
      var s2 := TakeMarked(TakeWord(s).value.1, TakeUuid).value.1;
      TakenBlock(s2, PROPERTY_MAX);
      TailChecks(TakeBlock(s2, PROPERTY_MAX).value.1);
    }
  }

  predicate MembersFit(m: (seq<Property>, seq<Method>, seq<Event>, seq<Descriptor>)) {
    && |m.0| <= SERVICE_MAX && AllFit(m.0, PropertyFits)
    && |m.1| <= SERVICE_MAX && AllFit(m.1, MethodFits)
    && |m.2| <= SERVICE_MAX && AllFit(m.2, EventFits)
    && |m.3| <= SERVICE_MAX && AllFit(m.3, DescriptorFits)
  }

  lemma MembersCheck(s: Slots)
    requires TakeMembers(s).Some?
    ensures MembersFit(TakeMembers(s).value.0)
  {
    PropertyChecks();
    TakenList(s, SERVICE_MAX, TakeProperty, PropertyFits);
    var s1 := TakeList(s, SERVICE_MAX, TakeProperty).value.1;
    MethodChecks();
    TakenList(s1, SERVICE_MAX, TakeMethod, MethodFits);
    var s2 := TakeList(s1, SERVICE_MAX, TakeMethod).value.1;
    EventChecks();
    TakenList(s2, SERVICE_MAX, TakeEvent, EventFits);
    var s3 := TakeList(s2, SERVICE_MAX, TakeEvent).value.1;
    DescriptorChecks();
    TakenList(s3, SERVICE_MAX, TakeDescriptor, DescriptorFits);
  }

  /** A service that is read, from any parcel at all, is within the limits and has no included services. */
  lemma TakenServiceFits(s: Slots)
    requires TakeService(s).Some?
    ensures ServiceFits(TakeService(s).value.0) && TakeService(s).value.0.includeServices == []
  {
    var s2 := TakeMarked(TakeHandles(s).value.1, TakeUuid).value.1;
    MembersCheck(TakeWord(s2).value.1);
  }

  // ---------- What marshalling accepts ----------

  /** What the size check lets through: it sees the length as a uint32_t. */
  predicate PropertyPasses(p: Property) {
    |p.value| <= PROPERTY_MAX && Truncated(|p.descriptors|) <= PROPERTY_MAX && AllFit(p.descriptors, DescriptorFits)
  }

  predicate ServicePasses(s: Service) {
    && Truncated(|s.properties|) <= SERVICE_MAX && AllFit(s.properties, PropertyPasses)
    && Truncated(|s.methods|) <= SERVICE_MAX && AllFit(s.methods, MethodFits)
    && Truncated(|s.events|) <= SERVICE_MAX && AllFit(s.events, EventFits)
    && Truncated(|s.descriptors|) <= SERVICE_MAX && AllFit(s.descriptors, DescriptorFits)
  }

  /** Every list of the tree has a length that a uint32_t can hold. */
  predicate Countable(s: Service) {
    && |s.properties| < 0x1_0000_0000 && |s.methods| < 0x1_0000_0000
    && |s.events| < 0x1_0000_0000 && |s.descriptors| < 0x1_0000_0000
    && forall i :: 0 <= i < |s.properties| ==> |s.properties[i].descriptors| < 0x1_0000_0000
  }

  /** On such trees the checks are exactly the limits. */
  lemma PassesIsFits(s: Service)
    requires Countable(s)
    ensures ServicePasses(s) <==> ServiceFits(s)
  {
    forall i | 0 <= i < |s.properties| ensures PropertyPasses(s.properties[i]) <==> PropertyFits(s.properties[i]) {
    }
  }

  // ---------- Marshalling ----------

  type Writer<!T> = T -> Option<Slots>

  function PutDescriptor(d: Descriptor): Option<Slots> {
    if |d.value| > DESCRIPTOR_MAX then None else Some(DescriptorSlots(d))
  }

  function PutEvent(e: Event): Option<Slots> {
    if |e.parameter| > EVENT_MAX then None else Some(EventSlots(e))
  }

  function PutMethod(m: Method): Option<Slots> {
    if |m.parameter| > METHOD_MAX || |m.result| > METHOD_MAX then None else Some(MethodSlots(m))
  }

  function PutEach<T>(items: seq<T>, put: Writer<T>): Option<Slots> {
    if items == [] then Some([])
    else
      match put(items[0])
      case None => None
      case Some(first) =>
        match PutEach(items[1..], put)
        case None => None
        case Some(others) => Some(Marked(first) + others)
  }

  function PutList<T>(items: seq<T>, limit: nat, put: Writer<T>): Option<Slots> {
    if Truncated(|items|) > limit then None
    else
      match PutEach(items, put)
      case None => None
      case Some(slots) => Some([Word(Truncated(|items|))] + slots)
  }

  function PutProperty(p: Property): Option<Slots> {
    if |p.value| > PROPERTY_MAX then None
    else
      match PutList(p.descriptors, PROPERTY_MAX, PutDescriptor)
      case None => None
      case Some(list) =>
        Some([Word(p.handle)] + (Marked(UuidSlots(p.uuid)) + (Block(p.value) +
             ([Word(p.opInd)] + (list + [Word(p.permission)])))))
  }

  /** A writer writes the items that fit and refuses the others. */
  ghost predicate Writes<T(!new)>(put: Writer<T>, fits: T -> bool, write: T -> Slots) {
    forall x: T :: put(x) == if fits(x) then Some(write(x)) else None
  }

  lemma {:induction false} PutEachExact<T(!new)>(items: seq<T>, put: Writer<T>, fits: T -> bool, write: T -> Slots)
    requires Writes(put, fits, write)
    ensures PutEach(items, put) == if AllFit(items, fits) then Some(Each(items, write)) else None
  {
    if items != [] {
      PutEachExact(items[1..], put, fits, write);
      assert AllFit(items, fits) <==> fits(items[0]) && AllFit(items[1..], fits) by {
        assert forall i :: 0 <= i < |items[1..]| ==> items[1..][i] == items[i + 1];
        if fits(items[0]) && AllFit(items[1..], fits) {
          forall i | 0 <= i < |items| ensures fits(items[i]) {
            if i > 0 {
              assert items[i] == items[1..][i - 1];
            }
          }
        }
      }
    }
  }

  lemma PutListExact<T(!new)>(items: seq<T>, limit: nat, put: Writer<T>, fits: T -> bool, write: T -> Slots)
    requires Writes(put, fits, write)
    ensures PutList(items, limit, put) ==
      if Truncated(|items|) <= limit && AllFit(items, fits) then Some(List(items, write)) else None
  {
    PutEachExact(items, put, fits, write);
  }

  lemma PropertyWrites()
    ensures Writes(PutProperty, PropertyPasses, PropertySlots)
  {
    assert Writes(PutDescriptor, DescriptorFits, DescriptorSlots);
    forall p: Property ensures PutProperty(p) == if PropertyPasses(p) then Some(PropertySlots(p)) else None {
      PutListExact(p.descriptors, PROPERTY_MAX, PutDescriptor, DescriptorFits, DescriptorSlots);
    }
  }

  // ---------- The parcel and its loops ----------

  class Parcel {
    var slots: Slots

    constructor ()
      ensures slots == []
    {
      slots := [];
    }

    method Write(more: Slots)
      modifies this
      ensures slots == old(slots) + more
    {
      slots := slots + more;
    }

    method ReadWord() returns (r: Option<uint32>)
      modifies this
      ensures TakeWord(old(slots)) == if r.Some? then Some((r.value, slots)) else None
    {
      if slots == [] || !slots[0].Word? {
        return None;
      }
      r := Some(slots[0].n);
      slots := slots[1..];
    }

    /** The loop that writes a list of parcelables after its length. */
    method WriteList<T>(items: seq<T>, limit: nat, put: Writer<T>) returns (ok: bool)
      modifies this
      ensures ok <==> PutList(items, limit, put).Some?
      ensures ok ==> slots == old(slots) + PutList(items, limit, put).value
    {
      var size := Truncated(|items|);
      if size > limit {
        return false;
      }
      Write([Word(size)]);
      ghost var start := slots;
      var i := 0;
      assert items[0..] == items;
      while i < |items|
        invariant 0 <= i <= |items|
        invariant PutEach(items, put).Some? <==> PutEach(items[i..], put).Some?
        invariant PutEach(items, put).Some? ==>
          start + PutEach(items, put).value == slots + PutEach(items[i..], put).value
      {
        assert items[i..][1..] == items[i + 1..];
        match put(items[i])
        case None => return false;
        case Some(first) =>
          Write([Word(1)]);
          Write(first);
          i := i + 1;
      }
      assert items[i..] == [] && slots + [] == slots;
      Assoc(old(slots), [Word(size)], PutEach(items, put).value);
      ok := true;
    }

    /** The loop that reads a list of parcelables after its length. */
    method ReadList<T>(limit: nat, read: Reader<T>) returns (r: Option<seq<T>>)
      modifies this
      ensures TakeList(old(slots), limit, read) == if r.Some? then Some((r.value, slots)) else None
    {
      var size := ReadWord();
      if size.None? || size.value > limit {
        return None;
      }
      ghost var start := slots;
      var items: seq<T> := [];
      AheadNone(TakeEach(start, size.value, read));
      for i := 0 to size.value
        invariant TakeEach(start, size.value, read) == Ahead(items, TakeEach(slots, size.value - i, read))
      {
        var mark := ReadWord();
        if mark.None? || mark.value == 0 {
          return None;
        }
        match read(slots)
        case None => return None;
        case Some((x, rest)) =>
          slots := rest;
          AheadOne(items, x, TakeEach(slots, size.value - i - 1, read));
          items := items + [x];
      }
      assert items + [] == items;
      r := Some(items);
    }

    /** The loop that reads a byte vector after its length. */
    method ReadBlock(limit: nat) returns (r: Option<Buffer>)
      modifies this
      ensures TakeBlock(old(slots), limit) == if r.Some? then Some((r.value, slots)) else None
    {
      var size := ReadWord();
      if size.None? || size.value > limit {
        return None;
      }
      ghost var start := slots;
      var value: Buffer := [];
      AheadNone(TakeBytes(start, size.value));
      for i := 0 to size.value
        invariant TakeBytes(start, size.value) == Ahead(value, TakeBytes(slots, size.value - i))
      {
        var v := ReadWord();
        if v.None? {
          return None;
        }
        AheadOne(value, v.value % 0x100, TakeBytes(slots, size.value - i - 1));
        value := value + [v.value % 0x100];
      }
      assert value + [] == value;
      r := Some(value);
    }
  }

  /** Items read so far in front of the outcome of reading the others. */
  function Ahead<T>(items: seq<T>, more: Option<(seq<T>, Slots)>): Option<(seq<T>, Slots)> {
    match more
    case None => None
    case Some((xs, s)) => Some((items + xs, s))
  }

  lemma AheadOne<T>(items: seq<T>, x: T, more: Option<(seq<T>, Slots)>)
    ensures Ahead(items, Ahead([x], more)) == Ahead(items + [x], more)
  {
    if more.Some? {
      assert items + ([x] + more.value.0) == items + [x] + more.value.0;
    }
  }

  lemma AheadNone<T>(more: Option<(seq<T>, Slots)>)
    ensures Ahead([], more) == more
  {
    if more.Some? {
      assert [] + more.value.0 == more.value.0;
    }
  }

  lemma Four(before: Slots, a: Slots, b: Slots, c: Slots, d: Slots)
    ensures before + a + b + c + d == before + (a + (b + (c + d)))
  {
  }

  /** SsapServiceMemberWrite: the four lists. */
  method WriteMembers(p: Parcel, s: Service) returns (ok: bool)
    modifies p
    ensures ok <==> ServicePasses(s)
    ensures ok ==> p.slots == old(p.slots) + MemberSlots(s)
  {
    PropertyWrites();
    PutListExact(s.properties, SERVICE_MAX, PutProperty, PropertyPasses, PropertySlots);
    PutListExact(s.methods, SERVICE_MAX, PutMethod, MethodFits, MethodSlots);
    PutListExact(s.events, SERVICE_MAX, PutEvent, EventFits, EventSlots);
    PutListExact(s.descriptors, SERVICE_MAX, PutDescriptor, DescriptorFits, DescriptorSlots);
    ok := p.WriteList(s.properties, SERVICE_MAX, PutProperty);
    if !ok {
      return;
    }
    ok := p.WriteList(s.methods, SERVICE_MAX, PutMethod);
    if !ok {
      return;
    }
    ok := p.WriteList(s.events, SERVICE_MAX, PutEvent);
    if !ok {
      return;
    }
    ok := p.WriteList(s.descriptors, SERVICE_MAX, PutDescriptor);
    Four(old(p.slots), List(s.properties, PropertySlots), List(s.methods, MethodSlots), List(s.events, EventSlots),
         List(s.descriptors, DescriptorSlots));
  }

  /** Marshalling succeeds exactly when every size check passes; included services are not written. */
  method MarshalService(p: Parcel, s: Service) returns (ok: bool)
    modifies p
    ensures ok <==> ServicePasses(s)
    ensures ok ==> p.slots == old(p.slots) + ServiceSlots(s)
  {
    var head := [Word(s.handle), Word(s.startHandle), Word(s.endHandle), Word(if s.isPrimary then 1 else 0)];
    p.Write(head);
    p.Write(Marked(UuidSlots(s.uuid)));
    p.Write([Word(s.opInd)]);
    ok := WriteMembers(p, s);
    Four(old(p.slots), head, Marked(UuidSlots(s.uuid)), [Word(s.opInd)], MemberSlots(s));
  }

  /** SsapServiceMemberRead: the four lists. */
  method ReadMembers(p: Parcel)
    returns (r: Option<(seq<Property>, seq<Method>, seq<Event>, seq<Descriptor>)>)
    modifies p
    ensures TakeMembers(old(p.slots)) == if r.Some? then Some((r.value, p.slots)) else None
  {
    var properties := p.ReadList(SERVICE_MAX, TakeProperty);
    if properties.None? {
      return None;
    }
    var methods := p.ReadList(SERVICE_MAX, TakeMethod);
    if methods.None? {
      return None;
    }
    var events := p.ReadList(SERVICE_MAX, TakeEvent);
    if events.None? {
      return None;
    }
    var descriptors := p.ReadList(SERVICE_MAX, TakeDescriptor);
    if descriptors.None? {
      return None;
    }
    r := Some((properties.value, methods.value, events.value, descriptors.value));
  }

  method ReadHandles(p: Parcel) returns (r: Option<(uint16, uint16, uint16, bool)>)
    modifies p
    ensures TakeHandles(old(p.slots)) == if r.Some? then Some((r.value, p.slots)) else None
  {
    var handle := p.ReadWord();
    if handle.None? {
      return None;
    }
    var startHandle := p.ReadWord();
    if startHandle.None? {
      return None;
    }
    var endHandle := p.ReadWord();
    if endHandle.None? {
      return None;
    }
    var primary := p.ReadWord();
    if primary.None? {
      return None;
    }
    r := Some((handle.value % 0x1_0000, startHandle.value % 0x1_0000, endHandle.value % 0x1_0000, primary.value != 0));
  }

  method UnmarshalService(p: Parcel) returns (r: Option<Service>)
    modifies p
    ensures TakeService(old(p.slots)) == if r.Some? then Some((r.value, p.slots)) else None
  {
    var handles := ReadHandles(p);
    if handles.None? {
      return None;
    }
    match TakeMarked(p.slots, TakeUuid)
    case None => return None;
    case Some((uuid, rest)) =>
      p.slots := rest;
      var opInd := p.ReadWord();
      if opInd.None? {
        return None;
      }
      var members := ReadMembers(p);
      if members.None? {
        return None;
      }
      var (handle, startHandle, endHandle, isPrimary) := handles.value;
      var (properties, methods, events, descriptors) := members.value;
      r := Some(Service(handle, startHandle, endHandle, isPrimary, uuid, opInd.value, [],
                        properties, methods, events, descriptors));
  }

  /**
   Any service tree: it passes marshalling and is read back as itself, with its included services
   emptied and nothing behind it consumed, if and only if every nested list is within its limit.
   */
  lemma ServiceRoundTrip(s: Service, rest: Slots)
    ensures ServicePasses(s) && TakeService(ServiceSlots(s) + rest) == Some((s.(includeServices := []), rest))
      <==> ServiceFits(s)
    ensures Countable(s) ==> (ServicePasses(s) <==> ServiceFits(s))
  {
    if ServiceFits(s) {
      FitsPasses(s);
      ServiceBack(s, rest);
    }
    if TakeService(ServiceSlots(s) + rest) == Some((s.(includeServices := []), rest)) {
      TakenServiceFits(ServiceSlots(s) + rest);
      assert ServiceFits(s.(includeServices := []));
    }
    if Countable(s) {
      PassesIsFits(s);
    }
  }

  lemma FitsPasses(s: Service)
    requires ServiceFits(s)
    ensures ServicePasses(s)
  {
    forall i | 0 <= i < |s.properties| ensures PropertyPasses(s.properties[i]) {
      assert PropertyFits(s.properties[i]);
    }
  }

  /** The checks let a list of 2^32 descriptors through, whose count is written as zero; no reader gets it back. */
  lemma LongListPasses(s: Service, d: Descriptor, rest: Slots)
    requires ServiceFits(s) && DescriptorFits(d)
    ensures var long := s.(descriptors := seq(0x1_0000_0000, i => d));
      && ServicePasses(long)
      && TakeService(ServiceSlots(long) + rest) != Some((long.(includeServices := []), rest))
  {
    FitsPasses(s);
    ServiceRoundTrip(s.(descriptors := seq(0x1_0000_0000, i => d)), rest);
  }
}
