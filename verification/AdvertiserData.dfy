/**
 The advertising data parcel: a uuid list and two maps that are written in key order and rebuilt
 entry by entry.
 */
module AdvertiserData {
  import opened Bytes
  import opened Uuids
  import opened Parcels

  datatype AdvData = AdvData(serviceUuids: seq<Uuid>, manufacturerData: map<uint16, string>,
                             serviceData: map<Uuid, string>, advFlag: uint8, payload: string,
                             includeDeviceName: bool, includeTxPower: bool)

  const MAX_LEN: nat := 0x400

  predicate AdvFits(a: AdvData) {
    |a.serviceUuids| <= MAX_LEN && |a.manufacturerData| <= MAX_LEN && |a.serviceData| <= MAX_LEN
  }

  // ---------- Maps ----------

  /** keys lists each key of m once. */
  ghost predicate Lists<K(!new)>(keys: seq<K>, m: map<K, string>) {
    && (forall i, j :: 0 <= i < j < |keys| ==> keys[i] != keys[j])
    && (forall k :: k in keys <==> k in m)
  }

  lemma {:induction false} ListsSize<K(!new)>(keys: seq<K>, m: map<K, string>)
    requires Lists(keys, m)
    ensures |keys| == |m|
  {
    if keys == [] {
      assert m.Keys == {};
    } else {
      var k := keys[0];
      assert k in keys;
      var fewer := m - {k};
      assert fewer.Keys == m.Keys - {k};
      forall j ensures j in keys[1..] <==> j in fewer {
        if j in fewer {
          assert j in keys;
        }
      }
      ListsSize(keys[1..], fewer);
    }
  }

  function PairSlots<K>(keys: seq<K>, m: map<K, string>, write: K -> Slots): Slots
    requires forall k :: k in keys ==> k in m
  {
    if keys == [] then [] else (write(keys[0]) + [Text(m[keys[0]])]) + PairSlots(keys[1..], m, write)
  }

  function TakeText(s: Slots): Option<(string, Slots)> {
    if s != [] && s[0].Text? then Some((s[0].s, s[1..])) else None
  }

  /** Reads n entries; emplace keeps an entry that is already there. */
  function TakePairs<K>(s: Slots, n: nat, read: Reader<K>, m: map<K, string>): Option<(map<K, string>, Slots)>
    decreases n
  {
    if n == 0 then Some((m, s))
    else
      match read(s)
      case None => None
      case Some((k, s1)) =>
        match TakeText(s1)
        case None => None
        case Some((v, s2)) => TakePairs(s2, n - 1, read, if k in m then m else m[k := v])
  }

  lemma PairBack<K>(k: K, v: string, write: K -> Slots, read: Reader<K>, rest: Slots)
    requires forall more: Slots :: read(write(k) + more) == Some((k, more))
    ensures var s := (write(k) + [Text(v)]) + rest;
      read(s) == Some((k, [Text(v)] + rest)) && TakeText([Text(v)] + rest) == Some((v, rest))
  {
    Assoc(write(k), [Text(v)], rest);
    assert ([Text(v)] + rest)[1..] == rest;
  }

  /** One turn of the map reader. */
  lemma TakeOnePair<K>(s: Slots, n: nat, read: Reader<K>, m: map<K, string>, k: K, s1: Slots, v: string, s2: Slots)
    requires n > 0 && k !in m
    requires read(s) == Some((k, s1)) && TakeText(s1) == Some((v, s2))
    ensures TakePairs(s, n, read, m) == TakePairs(s2, n - 1, read, m[k := v])
  {
  }

  function Restricted<K>(keys: seq<K>, m: map<K, string>): map<K, string>
    requires forall k :: k in keys ==> k in m
  {
    map k | k in keys :: m[k]
  }

  lemma {:induction false} PairsBack<K(!new)>(keys: seq<K>, m: map<K, string>, write: K -> Slots, read: Reader<K>,
                                              done: map<K, string>, rest: Slots)
    requires forall k, more: Slots :: read(write(k) + more) == Some((k, more))
    requires forall i, j :: 0 <= i < j < |keys| ==> keys[i] != keys[j]
    requires forall k :: k in keys ==> k in m && k !in done
    ensures TakePairs(PairSlots(keys, m, write) + rest, |keys|, read, done) == Some((done + Restricted(keys, m), rest))
  {
    if keys == [] {
      assert PairSlots(keys, m, write) + rest == rest;
      assert done + Restricted(keys, m) == done;
    } else {
      var k, v, more := keys[0], m[keys[0]], PairSlots(keys[1..], m, write) + rest;
      Assoc(write(k) + [Text(v)], PairSlots(keys[1..], m, write), rest);
      PairBack(k, v, write, read, more);
      TakeOnePair(PairSlots(keys, m, write) + rest, |keys|, read, done, k, [Text(v)] + more, v, more);
      PairsBack(keys[1..], m, write, read, done[k := v], rest);
      RestrictedStep(keys, m, done);
    }
  }

  lemma RestrictedStep<K>(keys: seq<K>, m: map<K, string>, done: map<K, string>)
    requires keys != [] && forall k :: k in keys ==> k in m
    ensures done[keys[0] := m[keys[0]]] + Restricted(keys[1..], m) == done + Restricted(keys, m)
  {
  }

  function MapSlots<K>(keys: seq<K>, m: map<K, string>, write: K -> Slots): Slots
    requires |keys| <= MAX_LEN && forall k :: k in keys ==> k in m
  {
    [Long(|keys|)] + PairSlots(keys, m, write)
  }

  function TakeSize(s: Slots): Option<(nat, Slots)> {
    match TakeLong(s)
    case None => None
    case Some((n, s1)) => if n > MAX_LEN then None else Some((n, s1))
  }

  lemma SizeBack(n: nat, rest: Slots)
    requires n <= MAX_LEN
    ensures TakeSize([Long(n)] + rest) == Some((n, rest))
  {
    assert ([Long(n)] + rest)[1..] == rest;
  }

  function TakeMap<K>(s: Slots, read: Reader<K>): Option<(map<K, string>, Slots)> {
    match TakeSize(s)
    case None => None
    case Some((n, s1)) => TakePairs(s1, n, read, map[])
  }

  /** A map written by any listing of its keys, the key order among them, is rebuilt as itself. */
  lemma MapBack<K(!new)>(keys: seq<K>, m: map<K, string>, write: K -> Slots, read: Reader<K>, rest: Slots)
    requires forall k, more: Slots :: read(write(k) + more) == Some((k, more))
    requires Lists(keys, m) && |keys| <= MAX_LEN
    ensures TakeMap(MapSlots(keys, m, write) + rest, read) == Some((m, rest))
  {
    Assoc([Long(|keys|)], PairSlots(keys, m, write), rest);
    SizeBack(|keys|, PairSlots(keys, m, write) + rest);
    PairsBack(keys, m, write, read, map[], rest);
    assert map[] + Restricted(keys, m) == m;
  }

  // ---------- The whole record ----------

  function IdSlots(id: uint16): Slots {
    [Word(id)]
  }

  function TakeId(s: Slots): Option<(uint16, Slots)> {
    match TakeWord(s)
    case None => None
    case Some((n, s1)) => Some((n % 0x1_0000, s1))
  }

  function MarkedUuidSlots(u: Uuid): Slots {
    Marked(UuidSlots(u))
  }

  function TakeMarkedUuid(s: Slots): Option<(Uuid, Slots)> {
    TakeMarked(s, TakeUuid)
  }

  function UuidListSlots(us: seq<Uuid>): Slots
    requires |us| <= MAX_LEN
  {
    [Long(|us|)] + Each(us, UuidSlots)
  }

  function TakeUuidList(s: Slots): Option<(seq<Uuid>, Slots)> {
    match TakeSize(s)
    case None => None
    case Some((n, s1)) => TakeEach(s1, n, TakeUuid)
  }

  function Bit(b: bool): Slot {
    Word(if b then 1 else 0)
  }

  function TailSlots(a: AdvData): Slots {
    [Word(a.advFlag), Text(a.payload), Bit(a.includeDeviceName), Bit(a.includeTxPower)]
  }

  function TakeTail(s: Slots): Option<((uint8, string, bool, bool), Slots)> {
    match TakeWord(s)
    case None => None
    case Some((flag, s1)) =>
      match TakeText(s1)
      case None => None
      case Some((payload, s2)) =>
        match TakeWord(s2)
        case None => None
        case Some((name, s3)) =>
          match TakeWord(s3)
          case None => None
          case Some((power, s4)) => Some(((flag % 0x100, payload, name != 0, power != 0), s4))
  }

  function AdvSlots(a: AdvData, ids: seq<uint16>, uuids: seq<Uuid>): Slots
    requires AdvFits(a) && |ids| <= MAX_LEN && |uuids| <= MAX_LEN
    requires (forall k :: k in ids ==> k in a.manufacturerData) && forall k :: k in uuids ==> k in a.serviceData
  {
    UuidListSlots(a.serviceUuids) + (MapSlots(ids, a.manufacturerData, IdSlots) +
    (MapSlots(uuids, a.serviceData, MarkedUuidSlots) + TailSlots(a)))
  }

  function TakeAdv(s: Slots): Option<(AdvData, Slots)> {
    match TakeUuidList(s)
    case None => None
    case Some((serviceUuids, s1)) =>
      match TakeMap(s1, TakeId)
      case None => None
      case Some((manufacturerData, s2)) =>
        match TakeMap(s2, TakeMarkedUuid)
        case None => None
        case Some((serviceData, s3)) =>
          match TakeTail(s3)
          case None => None
          case Some(((flag, payload, name, power), s4)) =>
            Some((AdvData(serviceUuids, manufacturerData, serviceData, flag, payload, name, power), s4))
  }

  // ---------- The written form, slot by slot ----------

  /** The uuid list, the manufacturer map, the service map and four more fields, in this order. */
  lemma AdvLayout(a: AdvData, ids: seq<uint16>, uuids: seq<Uuid>)
    requires AdvFits(a) && |ids| <= MAX_LEN && |uuids| <= MAX_LEN
    requires (forall k :: k in ids ==> k in a.manufacturerData) && forall k :: k in uuids ==> k in a.serviceData
    ensures AdvSlots(a, ids, uuids) ==
      ([Long(|a.serviceUuids|)] + Each(a.serviceUuids, UuidSlots)) +
      (([Long(|ids|)] + PairSlots(ids, a.manufacturerData, IdSlots)) +
      (([Long(|uuids|)] + PairSlots(uuids, a.serviceData, MarkedUuidSlots)) +
       [Word(a.advFlag), Text(a.payload), Word(if a.includeDeviceName then 1 else 0),
        Word(if a.includeTxPower then 1 else 0)]))
  {
  }

  /** A key and its text, for each entry in turn. */
  lemma PairLayout(ids: seq<uint16>, m: map<uint16, string>)
    requires ids != [] && forall k :: k in ids ==> k in m
    ensures var s := PairSlots(ids, m, IdSlots);
      s[0] == Word(ids[0]) && s[1] == Text(m[ids[0]]) && s[2..] == PairSlots(ids[1..], m, IdSlots)
  {
  }

  lemma AdvFitsExact(a: AdvData)
    ensures AdvFits(a) <==> |a.serviceUuids| <= 1024 && |a.manufacturerData| <= 1024 && |a.serviceData| <= 1024
  {
  }

  lemma {:induction false} TakenPairs<K>(s: Slots, n: nat, read: Reader<K>, m: map<K, string>)
    ensures TakePairs(s, n, read, m).Some? ==> |TakePairs(s, n, read, m).value.0| <= |m| + n
    decreases n
  {
    if n > 0 && read(s).Some? && TakeText(read(s).value.1).Some? {
      var (k, s1) := read(s).value;
      var (v, s2) := TakeText(s1).value;
      var more := if k in m then m else m[k := v];
      TakenPairs(s2, n - 1, read, more);
      assert k !in m ==> more.Keys == m.Keys + {k};
    }
  }

  lemma TakenMap<K>(s: Slots, read: Reader<K>)
    ensures TakeMap(s, read).Some? ==> |TakeMap(s, read).value.0| <= 1024
  {
    if TakeSize(s).Some? {
      TakenPairs(TakeSize(s).value.1, TakeSize(s).value.0, read, map[]);
    }
  }

  /** Whatever the parcel holds, advertising data that is read is within the limits. */
  lemma TakenAdvFits(s: Slots)
    requires TakeAdv(s).Some?
    ensures AdvFits(TakeAdv(s).value.0)
  {
    TakenUuids(s);
    var s1 := TakeUuidList(s).value.1;
    TakenMap(s1, TakeId);
    TakenMap(TakeMap(s1, TakeId).value.1, TakeMarkedUuid);
  }

  lemma TakenUuids(s: Slots)
    ensures TakeUuidList(s).Some? ==> |TakeUuidList(s).value.0| <= 1024
  {
    if TakeSize(s).Some? {
      TakenEach(TakeSize(s).value.1, TakeSize(s).value.0, TakeUuid, (u: Uuid) => true);
    }
  }

  /** Of two entries with one key, the first stays. */
  lemma FirstEntryStays(id: uint16, v: string, w: string, rest: Slots)
    ensures TakePairs([Word(id), Text(v), Word(id), Text(w)] + rest, 2, TakeId, map[]) == Some((map[id := v], rest))
  {
    var s := [Word(id), Text(v), Word(id), Text(w)] + rest;
    var s1, s2, s3 := s[1..], [Word(id), Text(w)] + rest, [Text(w)] + rest;
    assert s1[1..] == s2 && s2[1..] == s3 && s3[1..] == rest;
    TakeOnePair(s, 2, TakeId, map[], id, s1, v, s2);
    assert s2 == [Word(id)] + s3;
    WordBack(id, s3);
    var m: map<uint16, string> := map[id := v];
    assert id in m && TakeId(s2) == Some((id, s3)) && TakeText(s3) == Some((w, rest));
    TakeKnownPair(s2, 1, TakeId, m, id, s3, w, rest);
  }

  lemma TakeKnownPair<K>(s: Slots, n: nat, read: Reader<K>, m: map<K, string>, k: K, s1: Slots, v: string, s2: Slots)
    requires n > 0 && k in m
    requires read(s) == Some((k, s1)) && TakeText(s1) == Some((v, s2))
    ensures TakePairs(s, n, read, m) == TakePairs(s2, n - 1, read, m)
  {
  }

  lemma UuidListBack(us: seq<Uuid>, rest: Slots)
    requires |us| <= MAX_LEN
    ensures TakeUuidList(UuidListSlots(us) + rest) == Some((us, rest))
  {
    var any := (u: Uuid) => true;
    Assoc([Long(|us|)], Each(us, UuidSlots), rest);
    SizeBack(|us|, Each(us, UuidSlots) + rest);
    forall u: Uuid, more: Slots ensures TakeUuid(UuidSlots(u) + more) == Some((u, more)) {
      UuidBack(u, more);
    }
    EachBack(us, any, UuidSlots, TakeUuid, rest);
  }

  lemma TailBack(a: AdvData, rest: Slots)
    ensures TakeTail(TailSlots(a) + rest)
      == Some(((a.advFlag, a.payload, a.includeDeviceName, a.includeTxPower), rest))
  {
    var s3 := [Bit(a.includeTxPower)] + rest;
    var s2 := [Bit(a.includeDeviceName)] + s3;
    var s1 := [Text(a.payload)] + s2;
    assert TailSlots(a) + rest == [Word(a.advFlag)] + s1;
    WordBack(a.advFlag, s1);
    assert s1[1..] == s2;
    WordBack(if a.includeDeviceName then 1 else 0, s3);
    WordBack(if a.includeTxPower then 1 else 0, rest);
  }

  /** The advertising data is read back as it was written, both maps included. */
  lemma AdvBack(a: AdvData, ids: seq<uint16>, uuids: seq<Uuid>, rest: Slots)
    requires AdvFits(a) && Lists(ids, a.manufacturerData) && Lists(uuids, a.serviceData)
    ensures |ids| <= MAX_LEN && |uuids| <= MAX_LEN
    ensures TakeAdv(AdvSlots(a, ids, uuids) + rest) == Some((a, rest))
  {
    ListsSize(ids, a.manufacturerData);
    ListsSize(uuids, a.serviceData);
    var l, m, d := UuidListSlots(a.serviceUuids), MapSlots(ids, a.manufacturerData, IdSlots),
                   MapSlots(uuids, a.serviceData, MarkedUuidSlots);
    var s3 := TailSlots(a) + rest;
    assert AdvSlots(a, ids, uuids) + rest == l + (m + (d + s3)) by {
      Regroup(m, d, TailSlots(a), rest);
      Assoc(l, m + (d + TailSlots(a)), rest);
    }
    UuidListBack(a.serviceUuids, m + (d + s3));
    IdMapBack(ids, a.manufacturerData, d + s3);
    UuidMapBack(uuids, a.serviceData, s3);
    TailBack(a, rest);
  }

  lemma IdMapBack(ids: seq<uint16>, m: map<uint16, string>, rest: Slots)
    requires Lists(ids, m) && |ids| <= MAX_LEN
    ensures TakeMap(MapSlots(ids, m, IdSlots) + rest, TakeId) == Some((m, rest))
  {
    forall k: uint16, more: Slots ensures TakeId(IdSlots(k) + more) == Some((k, more)) {
      WordBack(k, more);
    }
    MapBack(ids, m, IdSlots, TakeId, rest);
  }

  lemma UuidMapBack(uuids: seq<Uuid>, m: map<Uuid, string>, rest: Slots)
    requires Lists(uuids, m) && |uuids| <= MAX_LEN
    ensures TakeMap(MapSlots(uuids, m, MarkedUuidSlots) + rest, TakeMarkedUuid) == Some((m, rest))
  {
    forall k: Uuid, more: Slots ensures TakeMarkedUuid(MarkedUuidSlots(k) + more) == Some((k, more)) {
      MarkedUuidBack(k, more);
    }
    MapBack(uuids, m, MarkedUuidSlots, TakeMarkedUuid, rest);
  }

  // ---------- Key order and the loops ----------

  ghost predicate TotalOrder<K(!new)>(less: (K, K) -> bool) {
    && (forall a :: !less(a, a))
    && (forall a, b :: a != b ==> less(a, b) || less(b, a))
    && (forall a, b, c :: less(a, b) && less(b, c) ==> less(a, c))
  }

  ghost predicate Ascending<K>(keys: seq<K>, less: (K, K) -> bool) {
    forall i, j :: 0 <= i < j < |keys| ==> less(keys[i], keys[j])
  }

  ghost predicate Least<K>(k: K, keys: set<K>, less: (K, K) -> bool) {
    k in keys && forall j :: j in keys && j != k ==> less(k, j)
  }

  lemma {:induction false} LeastExists<K(!new)>(keys: set<K>, less: (K, K) -> bool) returns (k: K)
    requires keys != {} && TotalOrder(less)
    ensures Least(k, keys, less)
    decreases |keys|
  {
    var first :| first in keys;
    var others := keys - {first};
    k := first;
    assert forall j :: j in keys ==> j == first || j in others;
    if others != {} {
      var least := LeastExists(others, less);
      k := if less(least, first) then least else first;
      forall j | j in keys && j != k ensures less(k, j) {
        assert j == first || j in others;
        assert less(first, least) || less(least, first);
        assert j == first || j == least || less(least, j);
      }
    }
  }

  lemma UuidsAreOrdered()
    ensures TotalOrder((u: Uuid, v: Uuid) => CompareBytes(u, v) < 0)
  {
    forall u: Uuid, v: Uuid, w: Uuid
      ensures !(CompareBytes(u, u) < 0)
      ensures u != v ==> CompareBytes(u, v) < 0 || CompareBytes(v, u) < 0
      ensures CompareBytes(u, v) < 0 && CompareBytes(v, w) < 0 ==> CompareBytes(u, w) < 0
    {
      LessIsTotalOrder(u, v, w);
    }
  }

  lemma {:induction false} PairsGrow<K>(keys: seq<K>, k: K, m: map<K, string>, write: K -> Slots)
    requires k in m && forall j :: j in keys ==> j in m
    ensures PairSlots(keys + [k], m, write) == PairSlots(keys, m, write) + (write(k) + [Text(m[k])])
  {
    if keys == [] {
      assert keys + [k] == [k] && [k][1..] == [];
      assert PairSlots([k], m, write) == (write(k) + [Text(m[k])]) + PairSlots([], m, write);
    } else {
      assert (keys + [k])[1..] == keys[1..] + [k];
      PairsGrow(keys[1..], k, m, write);
      Assoc(write(keys[0]) + [Text(m[keys[0]])], PairSlots(keys[1..], m, write), write(k) + [Text(m[k])]);
    }
  }

  /** Iterates over a std::map, smallest key first; keys is the order it wrote them in. */
  method WritePairs<K(==, !new)>(p: Parcel, m: map<K, string>, less: (K, K) -> bool, write: K -> Slots)
    returns (keys: seq<K>)
    requires TotalOrder(less)
    modifies p
    ensures Lists(keys, m) && Ascending(keys, less)
    ensures p.slots == old(p.slots) + PairSlots(keys, m, write)
  {
    keys := [];
    var todo := m.Keys;
    while todo != {}
      invariant todo <= m.Keys
      invariant forall k :: k in keys <==> k in m && k !in todo
      invariant Ascending(keys, less)
      invariant forall i, k :: 0 <= i < |keys| && k in todo ==> less(keys[i], k)
      invariant p.slots == old(p.slots) + PairSlots(keys, m, write)
      decreases |todo|
    {
      ghost var least := LeastExists(todo, less);
      var k :| k in todo && forall j :: j in todo && j != k ==> less(k, j);
      PairsGrow(keys, k, m, write);
      Assoc(old(p.slots), PairSlots(keys, m, write), write(k) + [Text(m[k])]);
      p.Write(write(k) + [Text(m[k])]);
      keys := keys + [k];
      todo := todo - {k};
    }
  }

  /** Marshalling succeeds exactly when the list and both maps are within the limit. */
  method MarshalAdvData(p: Parcel, a: AdvData) returns (ok: bool, ids: seq<uint16>, uuids: seq<Uuid>)
    modifies p
    ensures ok <==> AdvFits(a)
    ensures ok ==>
      && Lists(ids, a.manufacturerData) && Ascending(ids, (i: uint16, j: uint16) => i < j)
      && Lists(uuids, a.serviceData) && Ascending(uuids, (u: Uuid, v: Uuid) => CompareBytes(u, v) < 0)
      && |ids| <= MAX_LEN && |uuids| <= MAX_LEN
      && p.slots == old(p.slots) + AdvSlots(a, ids, uuids)
  {
    ok, ids, uuids := false, [], [];
    if |a.serviceUuids| > MAX_LEN {
      return;
    }
    p.Write(UuidListSlots(a.serviceUuids));
    if |a.manufacturerData| > MAX_LEN {
      return;
    }
    p.Write([Long(|a.manufacturerData|)]);
    ids := WritePairs(p, a.manufacturerData, (i: uint16, j: uint16) => i < j, IdSlots);
    ListsSize(ids, a.manufacturerData);
    if |a.serviceData| > MAX_LEN {
      return;
    }
    p.Write([Long(|a.serviceData|)]);
    UuidsAreOrdered();
    uuids := WritePairs(p, a.serviceData, (u: Uuid, v: Uuid) => CompareBytes(u, v) < 0, MarkedUuidSlots);
    ListsSize(uuids, a.serviceData);
    p.Write(TailSlots(a));
    Parts(old(p.slots), UuidListSlots(a.serviceUuids), [Long(|ids|)], PairSlots(ids, a.manufacturerData, IdSlots),
          [Long(|uuids|)], PairSlots(uuids, a.serviceData, MarkedUuidSlots), TailSlots(a));
    ok := true;
  }

  lemma Parts(s: Slots, a: Slots, b: Slots, c: Slots, d: Slots, e: Slots, f: Slots)
    ensures s + a + b + c + d + e + f == s + (a + ((b + c) + ((d + e) + f)))
  {
  }

  /** The loop that rebuilds a map entry by entry. */
  method ReadPairs<K(==)>(p: Parcel, n: nat, read: Reader<K>) returns (r: Option<map<K, string>>)
    modifies p
    ensures TakePairs(old(p.slots), n, read, map[]) == if r.Some? then Some((r.value, p.slots)) else None
  {
    var m: map<K, string> := map[];
    for i := 0 to n
      invariant TakePairs(old(p.slots), n, read, map[]) == TakePairs(p.slots, n - i, read, m)
    {
      match read(p.slots)
      case None => return None;
      case Some((k, s1)) =>
        match TakeText(s1)
        case None => return None;
        case Some((v, s2)) =>
          p.slots := s2;
          m := if k in m then m else m[k := v];
    }
    r := Some(m);
  }
}
