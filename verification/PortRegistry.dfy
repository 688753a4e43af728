/**
 The port registry of the data-transfer client: uuid to port, port to callback, (port, address) to
 socket, and file descriptor to worker callback, with the worker that runs while there is work.

 API calls and service callbacks are steps. A connection is three, because nothing is locked between
 finding the client's callback and storing the socket, and the callback runs between that and the
 start of the worker.
 */
module PortRegistry {
  import opened Bytes

  type Fd = int
  type Uuid = string

  /** SocketConnectionParams. */
  datatype Key = Key(port: uint16, address: string)

  const PORT_CNT_LIMIT: nat := 120
  const INVALID_FD: Fd := -1

  /**
   callbacks tells for each registered port whether the owner of the callback is still alive. found
   are the ports of connection reports that have found a callback and not stored their socket yet.
   */
  datatype Registry = Registry(
    uuidAndPort: map<Uuid, uint16>,
    callbacks: map<uint16, bool>,
    sockets: map<Key, Fd>,
    workers: set<Fd>,
    running: bool,
    found: multiset<uint16>)

  const EMPTY: Registry := Registry(map[], map[], map[], {}, false, multiset{})

  datatype Input =
    | CreatePort(accepted: bool, uuid: Uuid, port: uint16)  // port 0: the service refused
    | DestroyPort(accepted: bool, uuid: Uuid)
    | ConnectedFound(port: uint16)                          // CONNECTED finds the port's callback
    | Connected(port: uint16, address: string, fd: Fd)      // ... and stores the socket
    | ConnectedEnd                                          // ... and ends with Listen and RunThread
    | Disconnected(port: uint16, address: string)
    | StateOff(proxyFound: bool)
    | ServiceStopped
    | OwnerGone(port: uint16)                               // a weak callback pointer expires

  // ---------- Steps ----------

  function Fds(sockets: map<Key, Fd>): set<Fd> {
    sockets.Values
  }

  /** Removes socket entries with their worker callbacks; the worker stops if that was the last one. */
  function RemoveKeys(r: Registry, keys: set<Key>): Registry {
    var gone := keys * r.sockets.Keys;
    var workers := r.workers - set k | k in gone :: r.sockets[k];
    r.(sockets := r.sockets - gone, workers := workers,
       running := r.running && (gone == {} || workers != {}))
  }

  function KeysOf(r: Registry, ports: set<uint16>): set<Key> {
    set k | k in r.sockets && k.port in ports
  }

  function DestroySockets(r: Registry, ports: set<uint16>): Registry {
    RemoveKeys(r, KeysOf(r, ports))
  }

  predicate LivePort(r: Registry, port: uint16) {
    port in r.callbacks && r.callbacks[port]
  }

  function PortsOf(r: Registry, uuids: set<Uuid>): set<uint16> {
    set u | u in uuids && u in r.uuidAndPort :: r.uuidAndPort[u]
  }

  /** Forgets uuids with the callbacks and the sockets of their ports. */
  function Forget(r: Registry, uuids: set<Uuid>): Registry {
    var ports := PortsOf(r, uuids);
    DestroySockets(r, ports).(uuidAndPort := r.uuidAndPort - uuids, callbacks := r.callbacks - ports)
  }

  function Register(r: Registry, uuid: Uuid, port: uint16): Registry {
    r.(callbacks := r.callbacks[port := true], uuidAndPort := r.uuidAndPort[uuid := port])
  }

  function SetSocket(r: Registry, key: Key, fd: Fd): Registry {
    r.(sockets := r.sockets[key := fd], workers := r.workers + {fd})
  }

  function Apply(r: Registry, input: Input): Registry {
    match input
    case CreatePort(accepted, uuid, port) =>
      if accepted && uuid !in r.uuidAndPort && |r.uuidAndPort| < PORT_CNT_LIMIT && port != 0
      then Register(r, uuid, port) else r
    case DestroyPort(accepted, uuid) =>
      if accepted && uuid in r.uuidAndPort then Forget(r, {uuid}) else r
    case ConnectedFound(port) => if LivePort(r, port) then r.(found := r.found + multiset{port}) else r
    case Connected(port, address, fd) =>
      if port !in r.found then r
      else
        var q := r.(found := r.found - multiset{port});
        if fd != INVALID_FD then SetSocket(q, Key(port, address), fd) else q
    case ConnectedEnd => r.(running := true)
    case Disconnected(port, address) =>
      if LivePort(r, port) then RemoveKeys(r, {Key(port, address)}) else r
    case StateOff(proxyFound) => if proxyFound then Forget(r, r.uuidAndPort.Keys) else r
    case ServiceStopped => Forget(r, r.uuidAndPort.Keys).(callbacks := map[])
    case OwnerGone(port) =>
      if port in r.callbacks then r.(callbacks := r.callbacks[port := false]) else r
  }

  function Run(inputs: seq<Input>): Registry {
    if inputs == [] then EMPTY else Apply(Run(inputs[..|inputs| - 1]), inputs[|inputs| - 1])
  }

  /** The service hands out ports and file descriptors that are not in use. */
  predicate Allowed(r: Registry, input: Input) {
    match input
    case CreatePort(_, _, port) => port !in r.uuidAndPort.Values
    case Connected(_, _, fd) => fd !in Fds(r.sockets)
    case _ => true
  }

  ghost predicate AllAllowed(inputs: seq<Input>) {
    inputs == [] ||
    (AllAllowed(inputs[..|inputs| - 1]) && Allowed(Run(inputs[..|inputs| - 1]), inputs[|inputs| - 1]))
  }

  // ---------- The registry invariant ----------

  ghost predicate Injective<X, Y>(m: map<X, Y>) {
    forall x, y :: x in m && y in m && m[x] == m[y] ==> x == y
  }

  ghost predicate PortsInv(r: Registry) {
    && Injective(r.uuidAndPort)
    && r.uuidAndPort.Values == r.callbacks.Keys
    && |r.uuidAndPort| <= PORT_CNT_LIMIT
    && 0 !in r.callbacks
  }

  ghost predicate SocketsInv(r: Registry) {
    && Injective(r.sockets)
    && (forall k :: k in r.sockets ==> r.sockets[k] in r.workers)
  }

  ghost predicate Inv(r: Registry) {
    PortsInv(r) && SocketsInv(r)
  }

  /** There is no socket for an unregistered port. */
  ghost predicate Registered(r: Registry) {
    forall k :: k in r.sockets ==> k.port in r.callbacks
  }

  /** Destroying ports removes exactly the socket entries of those ports and keeps the others. */
  lemma DestroyExact(r: Registry, ports: set<uint16>)
    ensures var d := DestroySockets(r, ports);
      && (forall k :: k in d.sockets <==> k in r.sockets && k.port !in ports)
      && (forall k :: k in d.sockets ==> d.sockets[k] == r.sockets[k])
      && d.uuidAndPort == r.uuidAndPort && d.callbacks == r.callbacks
      && d.workers <= r.workers
  {
  }

  lemma RemoveKeepsSockets(r: Registry, keys: set<Key>)
    requires SocketsInv(r)
    ensures SocketsInv(RemoveKeys(r, keys))
  {
    var d := RemoveKeys(r, keys);
    forall k | k in d.sockets ensures d.sockets[k] in d.workers {
      assert d.sockets[k] == r.sockets[k];
    }
  }

  lemma CreateKeepsPorts(r: Registry, uuid: Uuid, port: uint16)
    requires PortsInv(r) && uuid !in r.uuidAndPort && |r.uuidAndPort| < PORT_CNT_LIMIT
    requires port != 0 && port !in r.uuidAndPort.Values
    ensures PortsInv(Register(r, uuid, port))
  {
    var m := r.uuidAndPort[uuid := port];
    forall p ensures p in m.Values <==> p in r.callbacks[port := true].Keys {
      if p in m.Values {
        var u :| u in m && m[u] == p;
        if u != uuid {
          assert p in r.uuidAndPort.Values;
        }
      }
      if p in r.callbacks {
        assert p in r.uuidAndPort.Values;
        var u :| u in r.uuidAndPort && r.uuidAndPort[u] == p;
        assert m[u] == p;
      }
      if p == port {
        assert m[uuid] == p;
      }
    }
  }

  lemma ForgetKeepsPorts(r: Registry, uuids: set<Uuid>)
    requires PortsInv(r)
    ensures PortsInv(Forget(r, uuids))
  {
    var d, ports := Forget(r, uuids), PortsOf(r, uuids);
    forall p ensures p in d.uuidAndPort.Values <==> p in d.callbacks.Keys {
      if p in d.uuidAndPort.Values {
        var u :| u in d.uuidAndPort && d.uuidAndPort[u] == p;
        assert r.uuidAndPort[u] in r.uuidAndPort.Values;
        assert p !in ports;
      }
      if p in d.callbacks {
        assert p in r.uuidAndPort.Values;
        var u :| u in r.uuidAndPort && r.uuidAndPort[u] == p;
        assert u !in uuids;
        assert d.uuidAndPort[u] == p;
      }
    }
    assert d.uuidAndPort.Keys <= r.uuidAndPort.Keys;
    SmallerMap(d.uuidAndPort, r.uuidAndPort);
  }

  lemma SmallerMap(m: map<Uuid, uint16>, n: map<Uuid, uint16>)
    requires m.Keys <= n.Keys
    ensures |m| <= |n|
  {
    assert |m.Keys| + |n.Keys - m.Keys| == |n.Keys| by {
      assert m.Keys + (n.Keys - m.Keys) == n.Keys;
    }
  }

  lemma ForgetKeepsSockets(r: Registry, uuids: set<Uuid>)
    requires SocketsInv(r)
    ensures SocketsInv(Forget(r, uuids))
  {
    var ports := PortsOf(r, uuids);
    RemoveKeepsSockets(r, KeysOf(r, ports));
    DestroyExact(r, ports);
  }

  /** Forgetting every uuid leaves no registration and no callback, and no socket of a registered port. */
  lemma ForgetAll(r: Registry)
    requires PortsInv(r)
    ensures var d := Forget(r, r.uuidAndPort.Keys);
      && d.uuidAndPort == map[] && d.callbacks == map[]
      && (forall k :: k in d.sockets <==> k in r.sockets && k.port !in r.callbacks)
  {
    assert PortsOf(r, r.uuidAndPort.Keys) == r.uuidAndPort.Values;
    DestroyExact(r, r.uuidAndPort.Values);
  }

  lemma SetSocketKeepsInv(r: Registry, key: Key, fd: Fd)
    requires Inv(r) && fd !in Fds(r.sockets)
    ensures Inv(SetSocket(r, key, fd))
  {
    forall k | k in r.sockets ensures r.sockets[k] != fd {
    }
  }

  lemma StepKeepsInv(r: Registry, input: Input)
    requires Inv(r) && Allowed(r, input)
    ensures Inv(Apply(r, input))
  {
    if input.CreatePort? || input.DestroyPort? || input.OwnerGone? {
      PortStepKeepsInv(r, input);
    } else if input.Connected? || input.Disconnected? {
      SocketStepKeepsInv(r, input);
    } else if input.StateOff? || input.ServiceStopped? {
      ForgetKeepsPorts(r, r.uuidAndPort.Keys);
      ForgetKeepsSockets(r, r.uuidAndPort.Keys);
      ForgetAll(r);
    }
  }

  lemma PortStepKeepsInv(r: Registry, input: Input)
    requires Inv(r) && Allowed(r, input)
    requires input.CreatePort? || input.DestroyPort? || input.OwnerGone?
    ensures Inv(Apply(r, input))
  {
    match input
    case CreatePort(accepted, uuid, port) =>
      if accepted && uuid !in r.uuidAndPort && |r.uuidAndPort| < PORT_CNT_LIMIT && port != 0 {
        CreateKeepsPorts(r, uuid, port);
      }
    case DestroyPort(accepted, uuid) =>
      ForgetKeepsPorts(r, {uuid});
      ForgetKeepsSockets(r, {uuid});
    case OwnerGone(port) =>
      if port in r.callbacks {
        assert r.callbacks[port := false].Keys == r.callbacks.Keys;
      }
  }

  lemma SocketStepKeepsInv(r: Registry, input: Input)
    requires Inv(r) && Allowed(r, input)
    requires input.Connected? || input.Disconnected?
    ensures Inv(Apply(r, input))
  {
    match input
    case Connected(port, address, fd) =>
      SetSocketKeepsInv(r.(found := r.found - multiset{port}), Key(port, address), fd);
    case Disconnected(port, address) => RemoveKeepsSockets(r, {Key(port, address)});
  }

  /** The registry invariant holds after every run of API calls and service callbacks. */
  lemma {:induction false} RunKeepsInv(inputs: seq<Input>)
    requires AllAllowed(inputs)
    ensures Inv(Run(inputs))
  {
    if inputs != [] {
      var before := inputs[..|inputs| - 1];
      RunKeepsInv(before);
      StepKeepsInv(Run(before), inputs[|inputs| - 1]);
    }
  }

  // ---------- What each step does ----------

  /**
   The sockets of these keys are gone, with their worker callbacks, and no others. The worker stops
   if one of them was there and no callback is left.
   */
  ghost predicate Drops(r: Registry, d: Registry, keys: set<Key>) {
    && (forall k :: k in d.sockets <==> k in r.sockets && k !in keys)
    && (forall k :: k in d.sockets ==> d.sockets[k] == r.sockets[k])
    && (forall fd :: fd in d.workers <==>
          fd in r.workers && forall k :: k in keys && k in r.sockets ==> r.sockets[k] != fd)
    && (d.running <==> r.running && ((forall k :: k in keys ==> k !in r.sockets) || d.workers != {}))
    && d.found == r.found
  }

  lemma RemoveDrops(r: Registry, keys: set<Key>)
    ensures Drops(r, RemoveKeys(r, keys), keys)
  {
    var gone := keys * r.sockets.Keys;
    if gone == {} {
      forall k | k in keys ensures k !in r.sockets {
        assert k !in gone;
      }
    } else {
      var k :| k in gone;
      assert k in keys && k in r.sockets;
    }
  }

  /** The keys of the live sockets of a port. */
  ghost function KeysAt(r: Registry, port: uint16): set<Key> {
    set k | k in r.sockets && k.port == port
  }

  /** A port is registered if the checks pass, the uuid is new, fewer than 120 are and the service gave one. */
  lemma CreateStep(r: Registry, accepted: bool, uuid: Uuid, port: uint16)
    ensures Apply(r, CreatePort(accepted, uuid, port)) ==
      if accepted && uuid !in r.uuidAndPort && |r.uuidAndPort| < 120 && port != 0
      then r.(uuidAndPort := r.uuidAndPort[uuid := port], callbacks := r.callbacks[port := true])
      else r
  {
  }

  /** A destroy forgets one uuid, the callback of its port and the sockets of its port, and nothing else. */
  lemma DestroyStep(r: Registry, accepted: bool, uuid: Uuid)
    ensures var d := Apply(r, DestroyPort(accepted, uuid));
      if accepted && uuid in r.uuidAndPort
      then
        var port := r.uuidAndPort[uuid];
        && d.uuidAndPort == r.uuidAndPort - {uuid} && d.callbacks == r.callbacks - {port}
        && Drops(r, d, KeysAt(r, port))
      else d == r
  {
    if accepted && uuid in r.uuidAndPort {
      var port := r.uuidAndPort[uuid];
      assert PortsOf(r, {uuid}) == {port};
      assert KeysOf(r, {port}) == KeysAt(r, port);
      RemoveDrops(r, KeysAt(r, port));
    }
  }

  /** A disconnect removes the socket of that port and that address only, if the callback is alive. */
  lemma DisconnectStep(r: Registry, port: uint16, address: string)
    ensures var d := Apply(r, Disconnected(port, address));
      if port in r.callbacks && r.callbacks[port]
      then
        && Drops(r, d, {Key(port, address)})
        && d.uuidAndPort == r.uuidAndPort && d.callbacks == r.callbacks
      else d == r
  {
    RemoveDrops(r, {Key(port, address)});
  }

  /** A connection report finds a live callback, and later stores its socket whatever has become of the port. */
  lemma ConnectSteps(r: Registry, port: uint16, address: string, fd: Fd)
    ensures Apply(r, ConnectedFound(port)) ==
      if port in r.callbacks && r.callbacks[port] then r.(found := r.found + multiset{port}) else r
    ensures Apply(r, Connected(port, address, fd)) ==
      if port !in r.found then r
      else if fd == -1 then r.(found := r.found - multiset{port})
      else r.(found := r.found - multiset{port}, sockets := r.sockets[Key(port, address) := fd],
              workers := r.workers + {fd})
    ensures Apply(r, ConnectedEnd) == r.(running := true)
    ensures Apply(r, OwnerGone(port)) ==
      if port in r.callbacks then r.(callbacks := r.callbacks[port := false]) else r
  {
  }

  /** No registration is left, and no socket of a port that was registered. */
  ghost predicate DropsAll(r: Registry, d: Registry) {
    && d.uuidAndPort == map[] && d.callbacks == map[]
    && Drops(r, d, set k | k in r.sockets && k.port in r.callbacks)
  }

  lemma ForgetDropsAll(r: Registry)
    requires PortsInv(r)
    ensures DropsAll(r, Forget(r, r.uuidAndPort.Keys))
  {
    ForgetAll(r);
    KeysOfAll(r);
    RemoveDrops(r, set k | k in r.sockets && k.port in r.callbacks);
  }

  lemma KeysOfAll(r: Registry)
    requires PortsInv(r)
    ensures KeysOf(r, PortsOf(r, r.uuidAndPort.Keys)) == set k | k in r.sockets && k.port in r.callbacks
  {
    assert PortsOf(r, r.uuidAndPort.Keys) == r.uuidAndPort.Values;
  }

  /** State-off with a proxy and service-stop forget every uuid and drop the sockets of their ports. */
  lemma StopSteps(r: Registry)
    requires PortsInv(r)
    ensures Apply(r, StateOff(false)) == r
    ensures DropsAll(r, Apply(r, StateOff(true))) && DropsAll(r, Apply(r, ServiceStopped))
  {
    ForgetDropsAll(r);
    var d := Forget(r, r.uuidAndPort.Keys);
    assert d.(callbacks := map[]) == d;
  }

  // ---------- Sockets of unregistered ports ----------

  /** A socket is stored for a port that was destroyed since its callback was found. */
  predicate StoresLate(r: Registry, input: Input) {
    input.Connected? && input.port in r.found && input.fd != INVALID_FD && input.port !in r.callbacks
  }

  lemma RegisteredForget(r: Registry, uuids: set<Uuid>)
    requires Registered(r)
    ensures Registered(Forget(r, uuids))
  {
    DestroyExact(r, PortsOf(r, uuids));
  }

  lemma RegisteredStore(r: Registry, key: Key, fd: Fd)
    requires Registered(r)
    ensures Registered(SetSocket(r, key, fd)) <==> key.port in r.callbacks
  {
    assert key in SetSocket(r, key, fd).sockets;
  }

  /** Every step keeps the sockets registered, except such a store. */
  lemma RegisteredStep(r: Registry, input: Input)
    requires Inv(r) && Registered(r)
    ensures Registered(Apply(r, input)) <==> !StoresLate(r, input)
  {
    match input
    case Connected(port, address, fd) =>
      RegisteredStore(r.(found := r.found - multiset{port}), Key(port, address), fd);
    case DestroyPort(_, uuid) => RegisteredForget(r, {uuid});
    case StateOff(_) => RegisteredForget(r, r.uuidAndPort.Keys);
    case ServiceStopped => ForgetAll(r);
    case _ =>
  }

  ghost predicate NeverStoresLate(inputs: seq<Input>) {
    inputs == [] ||
    (NeverStoresLate(inputs[..|inputs| - 1]) && !StoresLate(Run(inputs[..|inputs| - 1]), inputs[|inputs| - 1]))
  }

  ghost predicate AlwaysRegistered(inputs: seq<Input>) {
    Registered(Run(inputs)) && (inputs == [] || AlwaysRegistered(inputs[..|inputs| - 1]))
  }

  /**
   Over every run: there is never a socket for an unregistered port if and only if no port is
   destroyed between the look-up of its callback by a connection report and the store of the socket.
   */
  lemma {:induction false} RegisteredRun(inputs: seq<Input>)
    requires AllAllowed(inputs)
    ensures AlwaysRegistered(inputs) <==> NeverStoresLate(inputs)
  {
    if inputs != [] {
      var n := |inputs| - 1;
      RunKeepsInv(inputs[..n]);
      RegisteredRun(inputs[..n]);
      if AlwaysRegistered(inputs[..n]) {
        RegisteredStep(Run(inputs[..n]), inputs[n]);
      }
    }
  }

  /** The port is destroyed in between, and its socket stays behind with a worker callback. */
  lemma OrphanReachable()
    ensures exists inputs :: AllAllowed(inputs) && !Registered(Run(inputs))
  {
    var inputs := RunOne([], CreatePort(true, "u", 1));
    assert Run(inputs) == Registry(map["u" := 1], map[1 := true], map[], {}, false, multiset{});
    inputs := RunOne(inputs, ConnectedFound(1));
    assert Run(inputs) == Registry(map["u" := 1], map[1 := true], map[], {}, false, multiset{1});
    ForgetOnly(Run(inputs), "u", 1);
    inputs := RunOne(inputs, DestroyPort(true, "u"));
    assert Run(inputs) == Registry(map[], map[], map[], {}, false, multiset{1});
    inputs := RunOne(inputs, Connected(1, "a", 7));
    assert Key(1, "a") in Run(inputs).sockets;
  }

  lemma ForgetOnly(r: Registry, uuid: Uuid, port: uint16)
    requires r.uuidAndPort == map[uuid := port] && r.callbacks.Keys == {port} && r.sockets == map[]
    ensures Forget(r, {uuid}) == r.(uuidAndPort := map[], callbacks := map[])
  {
    assert PortsOf(r, {uuid}) == {port};
    assert KeysOf(r, {port}) == {};
    RemoveNothing(r);
  }

  // ---------- Worker callbacks ----------

  /** The worker's callbacks are those of the live sockets and no others. */
  ghost predicate WorkersExact(r: Registry) {
    r.workers == Fds(r.sockets)
  }

  /** A key is connected again before it was disconnected. */
  predicate Reconnects(r: Registry, input: Input) {
    && input.Connected? && input.port in r.found && input.fd != INVALID_FD
    && Key(input.port, input.address) in r.sockets
  }

  lemma RemoveKeepsExact(r: Registry, keys: set<Key>)
    requires SocketsInv(r) && WorkersExact(r)
    ensures WorkersExact(RemoveKeys(r, keys))
  {
    var d := RemoveKeys(r, keys);
    forall fd ensures fd in d.workers <==> fd in Fds(d.sockets) {
      if fd in d.workers {
        var k :| k in r.sockets && r.sockets[k] == fd;
        assert k in d.sockets && d.sockets[k] == fd;
      }
      if fd in Fds(d.sockets) {
        var k :| k in d.sockets && d.sockets[k] == fd;
        assert r.sockets[k] == fd;
      }
    }
  }

  lemma ConnectExact(r: Registry, key: Key, fd: Fd)
    requires SocketsInv(r) && WorkersExact(r) && fd !in Fds(r.sockets)
    ensures r.workers + {fd} == Fds(r.sockets[key := fd]) <==> key !in r.sockets
  {
    var m := r.sockets[key := fd];
    assert m[key] == fd;
    if key in r.sockets {
      var stale := r.sockets[key];
      assert stale in r.workers;
      forall k | k in m ensures m[k] != stale {
        if k != key {
          assert m[k] == r.sockets[k];
        } else {
          assert r.sockets[key] in Fds(r.sockets);
        }
      }
      assert stale !in Fds(m);
    } else {
      forall f ensures f in r.workers + {fd} <==> f in Fds(m) {
        if f in r.workers {
          var k :| k in r.sockets && r.sockets[k] == f;
          assert m[k] == f;
        }
        if f in Fds(m) {
          var k :| k in m && m[k] == f;
          assert k == key || r.sockets[k] == f;
        }
      }
    }
  }

  lemma ForgetKeepsExact(r: Registry, uuids: set<Uuid>)
    requires SocketsInv(r) && WorkersExact(r)
    ensures WorkersExact(Forget(r, uuids))
  {
    RemoveKeepsExact(r, KeysOf(r, PortsOf(r, uuids)));
  }

  /** Worker callbacks stay exact unless the step is a reconnect without a disconnect. */
  lemma WorkersStep(r: Registry, input: Input)
    requires Inv(r) && Allowed(r, input) && WorkersExact(r)
    ensures WorkersExact(Apply(r, input)) <==> !Reconnects(r, input)
  {
    if input.Connected? {
      if input.port in r.found && input.fd != INVALID_FD {
        StoredExact(r, input.port, input.address, input.fd);
      }
    } else {
      OtherWorkersStep(r, input);
    }
  }

  lemma StoredExact(r: Registry, port: uint16, address: string, fd: Fd)
    requires SocketsInv(r) && WorkersExact(r) && fd !in Fds(r.sockets) && port in r.found && fd != INVALID_FD
    ensures WorkersExact(Apply(r, Connected(port, address, fd))) <==> Key(port, address) !in r.sockets
  {
    ConnectExact(r.(found := r.found - multiset{port}), Key(port, address), fd);
  }

  lemma OtherWorkersStep(r: Registry, input: Input)
    requires SocketsInv(r) && WorkersExact(r) && !input.Connected?
    ensures WorkersExact(Apply(r, input))
  {
    if input.DestroyPort? {
      ForgetKeepsExact(r, {input.uuid});
    } else if input.StateOff? || input.ServiceStopped? {
      ForgetKeepsExact(r, r.uuidAndPort.Keys);
    } else if input.Disconnected? {
      RemoveKeepsExact(r, {Key(input.port, input.address)});
    }
  }

  ghost predicate NeverReconnects(inputs: seq<Input>) {
    inputs == [] ||
    (NeverReconnects(inputs[..|inputs| - 1]) && !Reconnects(Run(inputs[..|inputs| - 1]), inputs[|inputs| - 1]))
  }

  ghost predicate AlwaysExact(inputs: seq<Input>) {
    WorkersExact(Run(inputs)) && (inputs == [] || AlwaysExact(inputs[..|inputs| - 1]))
  }

  /** Over every run, callbacks and live sockets always agree if and only if no key reconnects before a disconnect. */
  lemma {:induction false} WorkersRun(inputs: seq<Input>)
    requires AllAllowed(inputs)
    ensures AlwaysExact(inputs) <==> NeverReconnects(inputs)
  {
    if inputs != [] {
      var n := |inputs| - 1;
      RunKeepsInv(inputs[..n]);
      WorkersRun(inputs[..n]);
      if AlwaysExact(inputs[..n]) {
        WorkersStep(Run(inputs[..n]), inputs[n]);
      }
    }
  }

  // ---------- The worker ----------

  /** The worker runs only if there is a callback for it to run. */
  predicate Justified(r: Registry) {
    r.running ==> r.workers != {}
  }

  /** A connection report ends, and starts the worker, when no worker callback is left. */
  predicate StartsIdle(r: Registry, input: Input) {
    input.ConnectedEnd? && r.workers == {}
  }

  /** Every step keeps that, except a worker start after the client's callback removed the socket. */
  lemma WorkerStep(r: Registry, input: Input)
    requires Justified(r)
    ensures Justified(Apply(r, input)) <==> !StartsIdle(r, input)
  {
  }

  /** A destroy leaves a justified worker if and only if it removes a socket or found the worker justified. */
  lemma DestroyStopsIdleWorker(r: Registry, keys: set<Key>)
    ensures Justified(RemoveKeys(r, keys)) <==> keys * r.sockets.Keys != {} || Justified(r)
  {
  }

  ghost predicate NeverStartsIdle(inputs: seq<Input>) {
    inputs == [] ||
    (NeverStartsIdle(inputs[..|inputs| - 1]) && !StartsIdle(Run(inputs[..|inputs| - 1]), inputs[|inputs| - 1]))
  }

  ghost predicate AlwaysJustified(inputs: seq<Input>) {
    Justified(Run(inputs)) && (inputs == [] || AlwaysJustified(inputs[..|inputs| - 1]))
  }

  /** Over every run: the worker never runs without a callback if and only if it is never started without one. */
  lemma {:induction false} WorkerJustified(inputs: seq<Input>)
    ensures AlwaysJustified(inputs) <==> NeverStartsIdle(inputs)
  {
    if inputs != [] {
      var n := |inputs| - 1;
      WorkerJustified(inputs[..n]);
      if AlwaysJustified(inputs[..n]) {
        WorkerStep(Run(inputs[..n]), inputs[n]);
      }
    }
  }

  lemma RunOne(inputs: seq<Input>, input: Input) returns (longer: seq<Input>)
    requires AllAllowed(inputs) && Allowed(Run(inputs), input)
    ensures AllAllowed(longer) && Run(longer) == Apply(Run(inputs), input)
  {
    longer := inputs + [input];
    assert longer[..|inputs|] == inputs;
  }

  /** A connection report that nothing interrupts. */
  lemma RunConnected(inputs: seq<Input>, port: uint16, address: string, fd: Fd) returns (longer: seq<Input>)
    requires AllAllowed(inputs) && LivePort(Run(inputs), port) && fd != INVALID_FD && fd !in Fds(Run(inputs).sockets)
    ensures AllAllowed(longer) && Run(longer) == SetSocket(Run(inputs), Key(port, address), fd)
  {
    var r := Run(inputs);
    longer := RunOne(inputs, ConnectedFound(port));
    assert Run(longer) == r.(found := r.found + multiset{port});
    longer := RunOne(longer, Connected(port, address, fd));
    assert r.found + multiset{port} - multiset{port} == r.found;
  }

  lemma DestroyLast(r: Registry, uuid: Uuid, key: Key, fd: Fd)
    requires r.uuidAndPort == map[uuid := key.port] && r.sockets == map[key := fd] && r.workers == {fd}
    ensures Forget(r, {uuid}).workers == {}
  {
    assert PortsOf(r, {uuid}) == {key.port};
    assert KeysOf(r, {key.port}) == {key};
    assert {key} * r.sockets.Keys == {key};
    assert (set k | k in {key} :: r.sockets[k]) == {fd};
  }

  lemma IdleWorker() returns (inputs: seq<Input>)
    ensures AllAllowed(inputs) && Run(inputs) == Registry(map[], map[], map[], {}, true, multiset{})
  {
    var key := Key(1, "a");
    inputs := RunOne([], CreatePort(true, "u", 1));
    assert Run(inputs) == Registry(map["u" := 1], map[1 := true], map[], {}, false, multiset{});
    inputs := RunConnected(inputs, 1, "a", 7);
    assert Run(inputs) == Registry(map["u" := 1], map[1 := true], map[key := 7], {7}, false, multiset{});
    DestroyLast(Run(inputs), "u", key, 7);
    inputs := RunOne(inputs, DestroyPort(true, "u"));
    assert Run(inputs) == Registry(map[], map[], map[], {}, false, multiset{});
    inputs := RunOne(inputs, ConnectedEnd);
  }

  /** The exception is reachable: the client destroys the port inside its connection callback. */
  lemma IdleWorkerReachable()
    ensures exists inputs :: AllAllowed(inputs) && !Justified(Run(inputs))
  {
    var inputs := IdleWorker();
  }

  lemma DestroyWithoutSockets(r: Registry, uuid: Uuid)
    requires r.sockets == map[] && r.workers == {} && r.running
    ensures !Justified(Apply(r, DestroyPort(true, uuid)))
  {
    assert KeysOf(r, PortsOf(r, {uuid})) == {};
    RemoveNothing(r);
  }

  ghost predicate SurvivesDestroy(r: Registry, uuid: Uuid) {
    uuid in r.uuidAndPort && !Justified(Apply(r, DestroyPort(true, uuid)))
  }

  /** A destroy of a port without sockets does not stop an idle worker. */
  lemma IdleWorkerSurvivesDestroy()
    ensures exists inputs, uuid :: AllAllowed(inputs) && SurvivesDestroy(Run(inputs), uuid)
  {
    var inputs := IdleWorker();
    inputs := RunOne(inputs, CreatePort(true, "v", 2));
    var r := Run(inputs);
    assert r == Registry(map["v" := 2], map[2 := true], map[], {}, true, multiset{});
    DestroyWithoutSockets(r, "v");
    assert SurvivesDestroy(r, "v");
  }

  /** A key that connects again before a disconnect leaves the callback of its old descriptor behind. */
  lemma StaleCallbackReachable()
    ensures exists inputs :: AllAllowed(inputs) && !WorkersExact(Run(inputs))
  {
    var key := Key(1, "a");
    var inputs := RunOne([], CreatePort(true, "u", 1));
    assert Run(inputs) == Registry(map["u" := 1], map[1 := true], map[], {}, false, multiset{});
    inputs := RunConnected(inputs, 1, "a", 7);
    assert Run(inputs) == Registry(map["u" := 1], map[1 := true], map[key := 7], {7}, false, multiset{});
    assert Fds(Run(inputs).sockets) == {7};
    inputs := RunConnected(inputs, 1, "a", 8);
    assert Run(inputs).workers == {7, 8} && Run(inputs).sockets == map[key := 8];
    assert Fds(Run(inputs).sockets) == {8};
    assert 7 in Run(inputs).workers;
  }

  // ---------- The object ----------

  lemma RemoveOneMore(r: Registry, keys: set<Key>, k: Key)
    requires k in r.sockets && k !in keys && keys <= r.sockets.Keys
    ensures RemoveKeys(RemoveKeys(r, keys), {k}) == RemoveKeys(r, keys + {k})
  {
    var a, b := RemoveKeys(RemoveKeys(r, keys), {k}), RemoveKeys(r, keys + {k});
    assert keys * r.sockets.Keys == keys;
    assert (keys + {k}) * r.sockets.Keys == keys + {k};
    assert {k} * RemoveKeys(r, keys).sockets.Keys == {k};
    assert a.sockets == b.sockets;
    assert (set j | j in keys + {k} :: r.sockets[j]) == (set j | j in keys :: r.sockets[j]) + {r.sockets[k]};
    assert (set j | j in {k} :: r.sockets[j]) == {r.sockets[k]};
    assert a.workers == b.workers;
  }

  lemma KeptKey(r: Registry, keys: set<Key>, k: Key)
    requires k in r.sockets && k !in keys
    ensures k in RemoveKeys(r, keys).sockets
  {
  }

  lemma DestroyOneMore(r: Registry, ports: set<uint16>, port: uint16)
    ensures DestroySockets(DestroySockets(r, ports), {port}) == DestroySockets(r, ports + {port})
  {
  }

  lemma ForgetOneMore(r: Registry, uuids: set<Uuid>, uuid: Uuid)
    requires uuid in r.uuidAndPort && uuid !in uuids
    ensures Forget(Forget(r, uuids), {uuid}) == Forget(r, uuids + {uuid})
  {
    var port, ports := r.uuidAndPort[uuid], PortsOf(r, uuids);
    assert PortsOf(Forget(r, uuids), {uuid}) == {port};
    assert PortsOf(r, uuids + {uuid}) == ports + {port};
    DestroyOneMore(r, ports, port);
    SameSockets(Forget(r, uuids), DestroySockets(r, ports), {port});
    assert r.uuidAndPort - uuids - {uuid} == r.uuidAndPort - (uuids + {uuid});
    assert r.callbacks - ports - {port} == r.callbacks - (ports + {port});
  }

  lemma SameSockets(r: Registry, q: Registry, ports: set<uint16>)
    requires r == q.(uuidAndPort := r.uuidAndPort, callbacks := r.callbacks)
    ensures DestroySockets(r, ports)
      == DestroySockets(q, ports).(uuidAndPort := r.uuidAndPort, callbacks := r.callbacks)
  {
  }

  datatype NlErrCode = NoError | DuplicateRegister | NoRegister | Limited | OtherError(code: int)

  class Ports {
    var uuidAndPort: map<Uuid, uint16>
    var callbacks: map<uint16, bool>
    var sockets: map<Key, Fd>
    var workers: set<Fd>
    var running: bool
    ghost var found: multiset<uint16>

    ghost function State(): Registry
      reads this
    {
      Registry(uuidAndPort, callbacks, sockets, workers, running, found)
    }

    constructor ()
      ensures State() == EMPTY
    {
      uuidAndPort, callbacks, sockets, workers, running, found := map[], map[], map[], {}, false, multiset{};
    }

    /** Drops one socket entry: deregister its worker callback, then stop the worker if none is left. */
    method RemoveEntry(key: Key)
      requires key in sockets
      modifies this`sockets, this`workers, this`running
      ensures State() == old(RemoveKeys(State(), {key}))
    {
      assert {key} * sockets.Keys == {key};
      assert (set k | k in {key} :: sockets[k]) == {sockets[key]};
      workers := workers - {sockets[key]};
      if workers == {} && running {
        running := false;
      }
      sockets := sockets - {key};
    }

    /** FindAndRmv over the sockets: removes every entry of the port. */
    method DestroyPortSockets(portId: uint16)
      modifies this`sockets, this`workers, this`running
      ensures State() == old(DestroySockets(State(), {portId}))
    {
      ghost var r := State();
      var todo := sockets.Keys;
      ghost var done: set<Key> := {};
      RemoveNothing(r);
      while todo != {}
        invariant done <= KeysOf(r, {portId}) && todo <= r.sockets.Keys - done
        invariant KeysOf(r, {portId}) - done <= todo
        invariant State() == RemoveKeys(r, done)
        decreases |todo|
      {
        var key :| key in todo;
        todo := todo - {key};
        if key.port == portId {
          RemoveOneMore(r, done, key);
          KeptKey(r, done, key);
          RemoveEntry(key);
          done := done + {key};
        }
      }
      assert done == KeysOf(r, {portId});
    }

    /**
     guard is the outcome of the checks in front, and port and answer are what the service gave. The
     service's answer is returned even when the port was registered.
     */
    method CreatePort(guard: NlErrCode, uuid: Uuid, port: uint16, answer: NlErrCode) returns (code: NlErrCode)
      modifies this
      ensures State() == old(Apply(State(), Input.CreatePort(guard == NoError, uuid, port)))
      ensures code ==
        if guard != NoError then guard
        else if uuid in old(uuidAndPort) then DuplicateRegister
        else if |old(uuidAndPort)| >= PORT_CNT_LIMIT then Limited
        else answer
    {
      if guard != NoError {
        return guard;
      }
      if uuid in uuidAndPort {
        return DuplicateRegister;
      }
      if |uuidAndPort| >= PORT_CNT_LIMIT {
        return Limited;
      }
      if port == 0 {
        return answer;
      }
      callbacks := callbacks[port := true];
      uuidAndPort := uuidAndPort[uuid := port];
      code := answer;
    }

    /** A CONNECTED report finds the callback of its port, and goes on only if the owner is alive. */
    method FindCallback(port: uint16) returns (ok: bool)
      modifies this`found
      ensures State() == old(Apply(State(), ConnectedFound(port)))
      ensures ok <==> LivePort(State(), port)
    {
      ok := port in callbacks && callbacks[port];
      if ok {
        found := found + multiset{port};
      }
    }

    method StoreSocket(key: Key, fd: Fd)
      modifies this`sockets, this`workers
      ensures State() == old(SetSocket(State(), key, fd))
    {
      sockets := sockets[key := fd];
      workers := workers + {fd};
    }

    /** It then stores the socket and its worker callback, without another look at the port. */
    method SetSocketDataTransfer(port: uint16, address: string, fd: Fd)
      requires port in found
      modifies this`sockets, this`workers, this`found
      ensures State() == old(Apply(State(), Connected(port, address, fd)))
    {
      ghost var r := State();
      found := found - multiset{port};
      assert State() == r.(found := r.found - multiset{port});
      if fd != INVALID_FD {
        StoreSocket(Key(port, address), fd);
      }
    }

    /** A DISCONNECTED report: FindAndRmv for one key. */
    method OnDisconnected(port: uint16, address: string)
      modifies this
      ensures State() == old(Apply(State(), Disconnected(port, address)))
    {
      if port !in callbacks || !callbacks[port] {
        return;
      }
      var key := Key(port, address);
      if key in sockets {
        RemoveEntry(key);
      } else {
        RemoveNothing(State());
        assert {key} * sockets.Keys == {};
      }
    }

    /** Forgets one registered uuid, its callback and its sockets. */
    method ForgetUuid(uuid: Uuid)
      requires uuid in uuidAndPort
      modifies this
      ensures State() == old(Forget(State(), {uuid}))
      ensures uuidAndPort == old(uuidAndPort) - {uuid}
    {
      ghost var r := State();
      var port := uuidAndPort[uuid];
      assert PortsOf(r, {uuid}) == {port};
      uuidAndPort := uuidAndPort - {uuid};
      callbacks := callbacks - {port};
      SameSockets(State(), r, {port});
      DestroyPortSockets(port);
    }

    method DestroyPort(guard: NlErrCode, uuid: Uuid, answer: NlErrCode) returns (code: NlErrCode)
      modifies this
      ensures State() == old(Apply(State(), Input.DestroyPort(guard == NoError, uuid)))
      ensures code == if guard != NoError then guard else if uuid !in old(uuidAndPort) then NoRegister else answer
    {
      if guard != NoError {
        return guard;
      }
      if uuid !in uuidAndPort {
        return NoRegister;
      }
      ForgetUuid(uuid);
      code := answer;
    }

    /** FindAndRmv over the uuids with a check that always answers yes. */
    method ForgetAllUuids()
      modifies this
      ensures State() == old(Forget(State(), uuidAndPort.Keys))
    {
      ghost var r := State();
      ghost var done: set<Uuid> := {};
      ForgetNothing(r);
      while uuidAndPort != map[]
        invariant done <= r.uuidAndPort.Keys && State() == Forget(r, done)
        decreases |uuidAndPort|
      {
        var uuid :| uuid in uuidAndPort;
        ForgetOneMore(r, done, uuid);
        ForgetUuid(uuid);
        done := done + {uuid};
      }
      NothingLeft(r.uuidAndPort, done);
    }

    /** Iterates over the uuids and destroys the sockets of each port. */
    method DestroyAllSockets()
      modifies this`sockets, this`workers, this`running
      ensures State() == old(DestroySockets(State(), PortsOf(State(), uuidAndPort.Keys)))
    {
      ghost var r := State();
      var todo := uuidAndPort.Keys;
      ghost var done: set<Uuid> := {};
      NoPorts(r);
      while todo != {}
        invariant todo + done == uuidAndPort.Keys && todo !! done
        invariant State() == DestroySockets(r, PortsOf(r, done))
        decreases |todo|
      {
        var uuid :| uuid in todo;
        var port := uuidAndPort[uuid];
        DestroyOneMore(r, PortsOf(r, done), port);
        PortsOfOneMore(r, done, uuid);
        DestroyPortSockets(port);
        todo, done := todo - {uuid}, done + {uuid};
      }
      assert done == uuidAndPort.Keys;
    }

    /** The serviceStopped handler: destroys all sockets, then clears both maps. */
    method OnServiceStopped()
      modifies this
      ensures State() == old(Apply(State(), ServiceStopped))
    {
      DestroyAllSockets();
      callbacks := map[];
      uuidAndPort := map[];
    }

    /** The end of a CONNECTED report: Listen and RunThread. */
    method RunThread()
      modifies this`running
      ensures State() == old(Apply(State(), ConnectedEnd))
    {
      if !running {
        running := true;
      }
    }

    method OnStateOff(proxyFound: bool)
      modifies this
      ensures State() == old(Apply(State(), StateOff(proxyFound)))
    {
      if proxyFound {
        ForgetAllUuids();
      }
    }
  }

  lemma RemoveNothing(r: Registry)
    ensures RemoveKeys(r, {}) == r
  {
    assert r.sockets - {} == r.sockets;
    assert {} * r.sockets.Keys == {};
  }

  lemma NoPorts(r: Registry)
    ensures DestroySockets(r, PortsOf(r, {})) == r
  {
    assert PortsOf(r, {}) == {} && KeysOf(r, {}) == {};
    RemoveNothing(r);
  }

  lemma PortsOfOneMore(r: Registry, uuids: set<Uuid>, uuid: Uuid)
    requires uuid in r.uuidAndPort
    ensures PortsOf(r, uuids + {uuid}) == PortsOf(r, uuids) + {r.uuidAndPort[uuid]}
  {
  }

  lemma NothingLeft(m: map<Uuid, uint16>, done: set<Uuid>)
    requires done <= m.Keys && m - done == map[]
    ensures done == m.Keys
  {
    forall u | u in m ensures u in done {
      assert u !in m - done;
    }
  }

  lemma ForgetNothing(r: Registry)
    ensures Forget(r, {}) == r
  {
    assert PortsOf(r, {}) == {};
    assert KeysOf(r, {}) == {};
    assert r.uuidAndPort - {} == r.uuidAndPort && r.callbacks - {} == r.callbacks && r.sockets - {} == r.sockets;
  }
}
