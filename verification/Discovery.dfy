/**
 The SSAP client's discovery handshake and its service cache.

 Starting a discovery claims a flag under a mutex; the remote request and the completion that
 releases the flag come later, outside that critical section. Fetching the service list happens
 under the same mutex, but the map it fills has a lock of its own, so a caller that was told the
 list is ready reads the map after the mutex is free again. Each critical section and each remote
 call is one step here, and waiting is the absence of a step.
 */
module Discovery {
  import opened Bytes

  /** A property or an event of a service, by its handle. */
  datatype Part = PropertyValue(handle: uint16) | EventParameter(handle: uint16)

  /** A service as the cache holds it: its handle, what notifications may rewrite, and the rest. */
  datatype Service = Service(handle: uint16, values: map<Part, string>, contents: string)

  /**
   The flag and what became of the calls that claimed it, numbered in the order of their claims.
   A claimed call has not made its remote request yet. A refused one had its request turned down
   and has yet to run FindStructureComplete. A running one was accepted by the service, which has
   not ended the discovery. requested made the remote request, and reported had their flag released
   with a report to the application. ends counts the discoveries that the service has ended.
   */
  datatype Finding = Finding(
    isFinding: bool,
    claims: nat,
    claimed: set<nat>,
    refused: set<nat>,
    running: set<nat>,
    requested: set<nat>,
    reported: set<nat>,
    completions: nat,
    ends: nat)

  /** A list with the completions reported and the discoveries ended before it was fetched. */
  datatype Fetch = Fetch(list: seq<Service>, epoch: nat, ends: nat)

  /** A GetServices call that holds the mutex: what it has put into the map and what is still to come. */
  datatype Building = Building(done: seq<Service>, todo: seq<Service>, ends: nat)

  /** What an iteration over the map gave its caller, with the last whole fetch and both counts at that time. */
  datatype Serving = Serving(handed: map<uint16, Service>, last: Option<Fetch>, epoch: nat, ends: nat)

  /**
   The cached services. foreign are those in the map that GetService(uuid) or a notification wrote.
   readers were told that the list is ready and have not read it, askers passed the wait of
   GetService(uuid), and fetched is what they were given and have not inserted.
   */
  datatype Cache = Cache(
    isGetServiceYet: bool,
    services: map<uint16, Service>,
    foreign: map<uint16, Service>,
    building: Option<Building>,
    lastFetch: Option<Fetch>,
    readers: nat,
    askers: nat,
    fetched: multiset<Service>,
    served: seq<Serving>)

  datatype Client = Client(finding: Finding, cache: Cache)

  const INITIAL: Client :=
    Client(Finding(false, 0, {}, {}, {}, {}, {}, 0, 0), Cache(false, map[], map[], None, None, 0, 0, multiset{}, []))

  datatype Input =
    | Claim                                                       // FindStructure(ByUuid)Start, past the wait
    | Abandon(claim: nat)                                         // ... returns: not registered, or no proxy
    | Request(claim: nat, accepted: bool)                         // ... makes its remote call
    | RefusedEnds(claim: nat)                                     // ... completes itself after a refusal
    | Ended(claim: nat, told: bool)                               // the service ends a discovery and may tell so
    | Disconnected                                                // CleanConnectionInfo
    | GetBegin(registered: bool, proxy: bool, list: seq<Service>) // GetServices, past the wait
    | BuildNext                                                   // ... puts one service into the map
    | GetEnd                                                      // ... is done
    | Serve                                                       // GetService(vector) iterates over the map
    | UuidWait                                                    // GetService(uuid), past the wait
    | UuidFetch(service: Service)                                 // ... is given a service
    | UuidInsert(service: Service)                                // ... and inserts it
    | Notify(handle: uint16, part: Part, value: string)           // OnPropertyChanged, OnEventNotified

  // ---------- Steps of the handshake ----------

  /** The claim that set the flag last, which is the one it belongs to while it is set. */
  function Holder(f: Finding): nat {
    if f.claims == 0 then 0 else f.claims - 1
  }

  function Held(f: Finding): set<nat> {
    if f.isFinding then {Holder(f)} else {}
  }

  /** The claims whose call or whose discovery is not over. */
  predicate IsOpen(f: Finding, k: nat) {
    k in f.claimed || k in f.refused || k in f.running
  }

  ghost predicate NoneOpen(f: Finding) {
    forall k :: !IsOpen(f, k)
  }

  /** FindStructureComplete. */
  function Release(f: Finding): Finding {
    if !f.isFinding then f
    else
      f.(isFinding := false, completions := f.completions + 1, reported := f.reported + {Holder(f)})
  }

  /** The inputs that run FindStructureComplete. */
  predicate Completes(f: Finding, input: Input) {
    match input
    case RefusedEnds(k) => k in f.refused
    case Ended(k, told) => k in f.running && told
    case Disconnected => true
    case _ => false
  }

  /** The service ends a discovery. */
  function End(f: Finding, k: nat): Finding {
    f.(running := f.running - {k}, ends := f.ends + 1)
  }

  function Step(f: Finding, input: Input): Finding {
    match input
    case Claim =>
      if f.isFinding then f
      else f.(isFinding := true, claims := f.claims + 1, claimed := f.claimed + {f.claims})
    case Abandon(k) => f.(claimed := f.claimed - {k})
    case Request(k, accepted) =>
      if k !in f.claimed then f
      else
        f.(claimed := f.claimed - {k}, requested := f.requested + {k},
           running := if accepted then f.running + {k} else f.running,
           refused := if accepted then f.refused else f.refused + {k})
    case RefusedEnds(k) => if k !in f.refused then f else Release(f.(refused := f.refused - {k}))
    case Ended(k, told) =>
      if k !in f.running then f else if told then Release(End(f, k)) else End(f, k)
    case Disconnected => Release(f)
    case _ => f
  }

  // ---------- Steps of the cache ----------

  function ByHandle(list: seq<Service>): map<uint16, Service> {
    if list == [] then map[] else ByHandle(list[..|list| - 1])[list[|list| - 1].handle := list[|list| - 1]]
  }

  function Begin(m: Cache, registered: bool, proxy: bool, list: seq<Service>, ends: nat): Cache {
    if m.isGetServiceYet then m.(readers := m.readers + 1)
    else if !registered then m
    else m.(services := map[], foreign := map[], building := if proxy then Some(Building([], list, ends)) else None)
  }

  function Build(m: Cache, b: Building): Cache
    requires b.todo != []
  {
    var s := b.todo[0];
    m.(services := m.services[s.handle := s], foreign := m.foreign - {s.handle},
       building := Some(Building(b.done + [s], b.todo[1..], b.ends)))
  }

  function Finish(m: Cache, b: Building, epoch: nat): Cache {
    m.(building := None, isGetServiceYet := true, readers := m.readers + 1,
       lastFetch := Some(Fetch(b.done, epoch, b.ends)))
  }

  /** A write to the map from outside GetServices. */
  function Put(m: Cache, s: Service): Cache {
    m.(services := m.services[s.handle := s], foreign := m.foreign[s.handle := s])
  }

  /** Find goes through the map in the order of its keys and stops at the first service with the part. */
  predicate IsFirst(m: map<uint16, Service>, part: Part, h: uint16) {
    && h in m && m[h].handle == h && part in m[h].values
    && forall j :: j in m && part in m[j].values ==> h <= j
  }

  function Notified(s: Service, part: Part, value: string): Service {
    s.(values := s.values[part := value])
  }

  function CacheStep(m: Cache, f: Finding, input: Input): Cache {
    match input
    case GetBegin(registered, proxy, list) => if f.isFinding then m else Begin(m, registered, proxy, list, f.ends)
    case BuildNext =>
      if m.building.None? || m.building.value.todo == [] then m else Build(m, m.building.value)
    case GetEnd =>
      if m.building.None? || m.building.value.todo != [] then m else Finish(m, m.building.value, f.completions)
    case Serve =>
      if m.readers == 0 then m
      else
        m.(readers := m.readers - 1,
           served := m.served + [Serving(m.services, m.lastFetch, f.completions, f.ends)])
    case UuidWait => if f.isFinding then m else m.(askers := m.askers + 1)
    case UuidFetch(s) =>
      if m.askers == 0 then m else m.(askers := m.askers - 1, fetched := m.fetched + multiset{s})
    case UuidInsert(s) => if s !in m.fetched then m else Put(m.(fetched := m.fetched - multiset{s}), s)
    case Notify(h, part, value) =>
      if IsFirst(m.services, part, h) then Put(m, Notified(m.services[h], part, value)) else m
    case _ => if Completes(f, input) && f.isFinding then m.(isGetServiceYet := false) else m
  }

  // ---------- Steps of the client ----------

  predicate NeedsMutex(input: Input) {
    match input
    case Claim | RefusedEnds(_) | Disconnected | GetBegin(_, _, _) | UuidWait => true
    case Ended(_, told) => told
    case _ => false
  }

  predicate Locked(c: Client) {
    c.cache.building.Some?
  }

  function Apply(c: Client, input: Input): Client {
    if Locked(c) && NeedsMutex(input) then c
    else Client(Step(c.finding, input), CacheStep(c.cache, c.finding, input))
  }

  function Run(c: Client, inputs: seq<Input>): Client {
    if inputs == [] then c else Apply(Run(c, inputs[..|inputs| - 1]), inputs[|inputs| - 1])
  }

  // ---------- Invariants of every run ----------

  /** A claim is at one place of its way at most. */
  ghost predicate Stages(f: Finding) {
    && (forall k :: k in f.requested ==> k < f.claims)
    && (forall k :: k in f.claimed ==> k < f.claims && k !in f.requested)
    && (forall k :: k in f.refused ==> k in f.requested)
    && (forall k :: k in f.running ==> k in f.requested && k !in f.refused)
  }

  /** Every claim was reported, once, or holds the flag. */
  ghost predicate Reports(f: Finding) {
    && (f.isFinding ==> f.claims > 0)
    && (forall k :: 0 <= k < f.claims ==> k in f.reported || k in Held(f))
    && (forall k :: k in f.reported ==> k < f.claims && k !in Held(f))
    && |f.reported| == f.completions
  }

  ghost predicate FindingInv(f: Finding) {
    Stages(f) && Reports(f)
  }

  /** The map holds what was fetched, with what was written to it since on top. */
  ghost predicate CacheInv(m: Cache, f: Finding) {
    && (m.building.Some? ==>
          && !f.isFinding && !m.isGetServiceYet && m.building.value.ends <= f.ends
          && m.services == ByHandle(m.building.value.done) + m.foreign)
    && (m.isGetServiceYet <==> m.lastFetch.Some? && m.lastFetch.value.epoch == f.completions)
    && (m.lastFetch.Some? ==> m.lastFetch.value.epoch <= f.completions && m.lastFetch.value.ends <= f.ends)
    && (m.isGetServiceYet ==> m.services == ByHandle(m.lastFetch.value.list) + m.foreign)
  }

  ghost predicate Inv(c: Client) {
    FindingInv(c.finding) && CacheInv(c.cache, c.finding)
  }

  lemma ReleaseKeepsFinding(f: Finding)
    requires FindingInv(f)
    ensures FindingInv(Release(f))
  {
  }

  lemma ClaimKeepsFinding(f: Finding)
    requires FindingInv(f) && !f.isFinding
    ensures FindingInv(Step(f, Claim))
  {
  }

  lemma RequestKeepsFinding(f: Finding, k: nat, accepted: bool)
    requires FindingInv(f) && k in f.claimed
    ensures FindingInv(Step(f, Request(k, accepted)))
  {
  }

  lemma FewerOpen(f: Finding, k: nat)
    requires FindingInv(f)
    ensures FindingInv(f.(claimed := f.claimed - {k})) && FindingInv(f.(refused := f.refused - {k}))
    ensures FindingInv(End(f, k))
  {
  }

  lemma StepKeepsFinding(f: Finding, input: Input)
    requires FindingInv(f)
    ensures FindingInv(Step(f, input))
  {
    match input
    case Claim => if !f.isFinding { ClaimKeepsFinding(f); }
    case Abandon(k) => FewerOpen(f, k);
    case Request(k, accepted) => if k in f.claimed { RequestKeepsFinding(f, k, accepted); }
    case RefusedEnds(k) =>
      FewerOpen(f, k);
      ReleaseKeepsFinding(f.(refused := f.refused - {k}));
    case Ended(k, told) =>
      FewerOpen(f, k);
      ReleaseKeepsFinding(End(f, k));
    case Disconnected => ReleaseKeepsFinding(f);
    case _ =>
  }

  lemma ByHandleGrows(done: seq<Service>, s: Service)
    ensures ByHandle(done + [s]) == ByHandle(done)[s.handle := s]
  {
    assert (done + [s])[..|done|] == done;
  }

  lemma BuildKeepsCache(m: Cache, f: Finding)
    requires CacheInv(m, f) && m.building.Some? && m.building.value.todo != []
    ensures CacheInv(Build(m, m.building.value), f)
  {
    var b := m.building.value;
    ByHandleGrows(b.done, b.todo[0]);
  }

  lemma BeginKeepsCache(m: Cache, f: Finding, registered: bool, proxy: bool, list: seq<Service>)
    requires CacheInv(m, f) && !f.isFinding && m.building.None?
    ensures CacheInv(Begin(m, registered, proxy, list, f.ends), f)
  {
    assert ByHandle([]) + map[] == map[];
  }

  lemma PutKeepsCache(m: Cache, f: Finding, s: Service)
    requires CacheInv(m, f)
    ensures CacheInv(Put(m, s), f)
  {
    if m.building.Some? {
      OverlaidPut(ByHandle(m.building.value.done), m.foreign, s);
    } else if m.isGetServiceYet {
      OverlaidPut(ByHandle(m.lastFetch.value.list), m.foreign, s);
    }
  }

  lemma OverlaidPut(m: map<uint16, Service>, foreign: map<uint16, Service>, s: Service)
    ensures (m + foreign)[s.handle := s] == m + foreign[s.handle := s]
  {
  }

  predicate OfHandshake(input: Input) {
    input.Claim? || input.Abandon? || input.Request? || input.RefusedEnds? || input.Ended? || input.Disconnected?
  }

  lemma HandshakeKeepsCache(m: Cache, f: Finding, input: Input)
    requires CacheInv(m, f) && !(m.building.Some? && NeedsMutex(input)) && OfHandshake(input)
    ensures CacheInv(CacheStep(m, f, input), Step(f, input))
  {
  }

  lemma StepKeepsCache(c: Client, input: Input)
    requires CacheInv(c.cache, c.finding)
    ensures CacheInv(Apply(c, input).cache, Apply(c, input).finding)
  {
    var m, f := c.cache, c.finding;
    if Locked(c) && NeedsMutex(input) {
    } else if OfHandshake(input) {
      HandshakeKeepsCache(m, f, input);
    } else {
      MapKeepsCache(m, f, input);
    }
  }

  lemma MapKeepsCache(m: Cache, f: Finding, input: Input)
    requires CacheInv(m, f) && !(m.building.Some? && NeedsMutex(input)) && !OfHandshake(input)
    ensures CacheInv(CacheStep(m, f, input), f)
  {
    match input
    case BuildNext =>
      if m.building.Some? && m.building.value.todo != [] {
        BuildKeepsCache(m, f);
      }
    case GetBegin(registered, proxy, list) =>
      if !f.isFinding {
        BeginKeepsCache(m, f, registered, proxy, list);
      }
    case UuidInsert(s) => PutKeepsCache(m.(fetched := m.fetched - multiset{s}), f, s);
    case Notify(h, part, value) =>
      if IsFirst(m.services, part, h) {
        PutKeepsCache(m, f, Notified(m.services[h], part, value));
      }
    case _ =>
  }

  lemma StepKeepsInv(c: Client, input: Input)
    requires Inv(c)
    ensures Inv(Apply(c, input))
  {
    StepKeepsFinding(c.finding, input);
    StepKeepsCache(c, input);
  }

  lemma {:induction false} RunKeepsInv(c: Client, inputs: seq<Input>)
    requires Inv(c)
    ensures Inv(Run(c, inputs))
  {
    if inputs != [] {
      var n := |inputs| - 1;
      RunKeepsInv(c, inputs[..n]);
      StepKeepsInv(Run(c, inputs[..n]), inputs[n]);
    }
  }

  lemma Reachable(inputs: seq<Input>)
    ensures Inv(Run(INITIAL, inputs))
  {
    RunKeepsInv(INITIAL, inputs);
  }

  // ---------- What each step does ----------

  /** A claim takes a free flag, under the next number. */
  lemma ClaimStep(c: Client)
    requires !Locked(c)
    ensures var f, d := c.finding, Apply(c, Claim);
      d == if f.isFinding then c
           else c.(finding := f.(isFinding := true, claims := f.claims + 1, claimed := f.claimed + {f.claims}))
  {
  }

  /** A claimed start leaves without a request, or makes it and is accepted or refused; the flag stays. */
  lemma CallSteps(c: Client, k: nat)
    requires k in c.finding.claimed
    ensures var f := c.finding.(claimed := c.finding.claimed - {k});
      && Apply(c, Abandon(k)) == c.(finding := f)
      && Apply(c, Request(k, true)) == c.(finding := f.(requested := f.requested + {k}, running := f.running + {k}))
      && Apply(c, Request(k, false)) == c.(finding := f.(requested := f.requested + {k}, refused := f.refused + {k}))
  {
  }

  /** The claims after a completion. */
  predicate Completed(f: Finding, g: Finding) {
    && !g.isFinding && g.claims == f.claims && g.claimed == f.claimed && g.requested == f.requested
    && g.completions == (if f.isFinding then f.completions + 1 else f.completions)
    && (f.claims > 0 ==> g.reported == if f.isFinding then f.reported + {f.claims - 1} else f.reported)
  }

  /**
   A completion, whatever brings it, releases the flag if it is set, reports once and invalidates the
   cache; with the flag clear it does none of these. The claim that brings it is over either way.
   */
  lemma CompletionStep(c: Client, k: nat)
    requires !Locked(c)
    ensures var f, g := c.finding, Apply(c, Disconnected).finding;
      Completed(f, g) && g.refused == f.refused && g.running == f.running && g.ends == f.ends
    ensures k in c.finding.refused ==>
      var f, g := c.finding, Apply(c, RefusedEnds(k)).finding;
      Completed(f, g) && g.refused == f.refused - {k} && g.running == f.running && g.ends == f.ends
    ensures k in c.finding.running ==>
      var f, g := c.finding, Apply(c, Ended(k, true)).finding;
      Completed(f, g) && g.refused == f.refused && g.running == f.running - {k} && g.ends == f.ends + 1
  {
  }

  /** The cache after it is invalid if the flag was set, and is otherwise as it was. */
  lemma CompletionCache(c: Client, input: Input)
    requires !Locked(c) && Completes(c.finding, input)
    ensures Apply(c, input).cache == if c.finding.isFinding then c.cache.(isGetServiceYet := false) else c.cache
  {
  }

  /** An end that is not told changes neither the flag nor the cache. */
  lemma UntoldEndStep(c: Client, k: nat)
    requires k in c.finding.running
    ensures Apply(c, Ended(k, false)) ==
      c.(finding := c.finding.(running := c.finding.running - {k}, ends := c.finding.ends + 1))
  {
  }

  /**
   GetServices past its wait: nothing while the flag is set, another reader while the cache is valid,
   nothing without a registration, and otherwise a cleared map, to be filled if there is a proxy.
   */
  lemma GetBeginStep(c: Client, registered: bool, proxy: bool, list: seq<Service>)
    requires !Locked(c)
    ensures var m, d := c.cache, Apply(c, GetBegin(registered, proxy, list));
      && d.finding == c.finding
      && d.cache ==
           if c.finding.isFinding || (!m.isGetServiceYet && !registered) then m
           else if m.isGetServiceYet then m.(readers := m.readers + 1)
           else m.(services := map[], foreign := map[],
                   building := if proxy then Some(Building([], list, c.finding.ends)) else None)
  {
  }

  /** A notification writes one value of the first service that has the part, and nothing else. */
  lemma NotifyStep(c: Client, h: uint16, part: Part, value: string)
    requires IsFirst(c.cache.services, part, h)
    ensures var m, d := c.cache, Apply(c, Notify(h, part, value));
      && d.finding == c.finding && d.cache == m.(services := d.cache.services, foreign := d.cache.foreign)
      && d.cache.services.Keys == m.services.Keys
      && (forall j :: j in m.services && j != h ==> d.cache.services[j] == m.services[j])
      && d.cache.services[h].handle == h && d.cache.services[h].contents == m.services[h].contents
      && d.cache.services[h].values == m.services[h].values[part := value]
  {
  }

  // ---------- Reports without a request ----------

  /** A completion finds the flag set by a claim that has not made its remote call. */
  predicate ReportsUnrequested(f: Finding, input: Input) {
    Completes(f, input) && f.isFinding && Holder(f) !in f.requested
  }

  ghost predicate NeverUnrequested(inputs: seq<Input>) {
    inputs == [] ||
    (&& NeverUnrequested(inputs[..|inputs| - 1])
     && !ReportsUnrequested(Run(INITIAL, inputs[..|inputs| - 1]).finding, inputs[|inputs| - 1]))
  }

  /** Every completion that was reported belongs to a discovery that was requested. */
  predicate OnlyRequested(f: Finding) {
    f.reported <= f.requested
  }

  ghost predicate AlwaysOnlyRequested(inputs: seq<Input>) {
    OnlyRequested(Run(INITIAL, inputs).finding) && (inputs == [] || AlwaysOnlyRequested(inputs[..|inputs| - 1]))
  }

  lemma OnlyRequestedStep(f: Finding, input: Input)
    requires FindingInv(f) && OnlyRequested(f)
    ensures OnlyRequested(Step(f, input)) <==> !ReportsUnrequested(f, input)
  {
    if ReportsUnrequested(f, input) {
      assert Holder(f) in Step(f, input).reported && Holder(f) !in Step(f, input).requested;
    }
  }

  lemma OnlyRequestedApply(c: Client, input: Input)
    requires Inv(c) && OnlyRequested(c.finding)
    ensures OnlyRequested(Apply(c, input).finding) <==> !ReportsUnrequested(c.finding, input)
  {
    OnlyRequestedStep(c.finding, input);
    assert ReportsUnrequested(c.finding, input) ==> !Locked(c);
  }

  /**
   Over every run: the application is only ever told of discoveries that were requested if and only
   if no completion arrives while the flag belongs to a claim that has not made its remote call.
   */
  lemma {:induction false} UnrequestedExact(inputs: seq<Input>)
    ensures AlwaysOnlyRequested(inputs) <==> NeverUnrequested(inputs)
  {
    if inputs != [] {
      var n := |inputs| - 1;
      Reachable(inputs[..n]);
      UnrequestedExact(inputs[..n]);
      if OnlyRequested(Run(INITIAL, inputs[..n]).finding) {
        OnlyRequestedApply(Run(INITIAL, inputs[..n]), inputs[n]);
      }
    }
  }

  // ---------- What disconnects do ----------

  /** Only the claim that holds the flag is open, and every report was for a request. */
  predicate Sound(f: Finding) {
    && OnlyRequested(f)
    && (forall k :: k in f.claimed ==> k in Held(f))
    && (forall k :: k in f.refused ==> k in Held(f))
    && (forall k :: k in f.running ==> k in Held(f))
  }

  /** A disconnect finds the flag set by a claim that is open, or that left without a request. */
  predicate Strays(f: Finding, input: Input) {
    input.Disconnected? && f.isFinding && (IsOpen(f, Holder(f)) || Holder(f) !in f.requested)
  }

  lemma SoundStep(f: Finding, input: Input)
    requires FindingInv(f) && Sound(f)
    ensures Sound(Step(f, input)) <==> !Strays(f, input)
  {
    if Completes(f, input) {
      SoundCompletion(f, input);
    } else {
      SoundOtherwise(f, input);
    }
  }

  lemma SoundCompletion(f: Finding, input: Input)
    requires FindingInv(f) && Sound(f) && Completes(f, input)
    ensures Sound(Step(f, input)) <==> !Strays(f, input)
  {
    match input
    case RefusedEnds(k) => assert k in Held(f) && k in f.requested;
    case Ended(k, _) => assert k in Held(f) && k in f.requested;
    case Disconnected =>
  }

  lemma SoundOtherwise(f: Finding, input: Input)
    requires FindingInv(f) && Sound(f) && !Completes(f, input)
    ensures Sound(Step(f, input))
  {
  }

  ghost predicate NeverStrays(inputs: seq<Input>) {
    inputs == [] ||
    (NeverStrays(inputs[..|inputs| - 1]) && !Strays(Run(INITIAL, inputs[..|inputs| - 1]).finding, inputs[|inputs| - 1]))
  }

  ghost predicate AlwaysSound(inputs: seq<Input>) {
    Sound(Run(INITIAL, inputs).finding) && (inputs == [] || AlwaysSound(inputs[..|inputs| - 1]))
  }

  lemma SoundApply(c: Client, input: Input)
    requires Inv(c)
    ensures Sound(c.finding) ==> (Sound(Apply(c, input).finding) <==> !Strays(c.finding, input))
  {
    if Sound(c.finding) {
      SoundStep(c.finding, input);
    }
  }

  /**
   Over every run: the flag's claim is always the only open one and every report is for a request
   if and only if no disconnect finds the flag held by a claim that is open or left empty-handed.
   */
  lemma {:induction false} SoundExact(inputs: seq<Input>)
    ensures AlwaysSound(inputs) <==> NeverStrays(inputs)
  {
    if inputs != [] {
      var n := |inputs| - 1;
      Reachable(inputs[..n]);
      SoundExact(inputs[..n]);
      if Sound(Run(INITIAL, inputs[..n]).finding) {
        SoundApply(Run(INITIAL, inputs[..n]), inputs[n]);
      }
    }
  }

  lemma Split(f: Finding)
    requires FindingInv(f) && OnlyRequested(f)
    ensures |f.requested| == f.completions + |Held(f) * f.requested|
  {
    var held := Held(f) * f.requested;
    assert f.requested == f.reported + held && f.reported !! held;
  }

  /**
   In every run that NeverStrays, that is, in which no disconnect finds the flag held by a claim that
   is open or left without a request: discoveries requested minus completions reported
   is one while the flag's claim has made its request and zero otherwise, no completion is reported
   without a request, and at most the flag's own discovery is in flight.
   */
  lemma HandshakeBalances(inputs: seq<Input>)
    requires NeverStrays(inputs)
    ensures var f := Run(INITIAL, inputs).finding;
      && |f.requested| == f.completions + |Held(f) * f.requested|
      && f.reported <= f.requested && f.running <= Held(f) && |f.running| <= 1
  {
    SoundExact(inputs);
    Reachable(inputs);
    var f := Run(INITIAL, inputs).finding;
    assert Sound(f);
    Split(f);
    Subset(f.running, Held(f));
  }

  lemma Subset(a: set<nat>, b: set<nat>)
    requires a <= b
    ensures |a| <= |b|
  {
    assert b == a + (b - a);
  }

  // ---------- How many discoveries can be in flight ----------

  /** How many claims are open, and whether the flag belongs to one of them. */
  function OpenCount(f: Finding): nat {
    |f.claimed| + |f.refused| + |f.running|
  }

  function HeldOpen(f: Finding): nat {
    if f.isFinding && IsOpen(f, Holder(f)) then 1 else 0
  }

  /** A disconnect releases the flag of an open claim. */
  predicate LetsLoose(f: Finding, input: Input) {
    input.Disconnected? && f.isFinding && IsOpen(f, Holder(f))
  }

  function LetLoose(inputs: seq<Input>): nat {
    if inputs == [] then 0
    else
      LetLoose(inputs[..|inputs| - 1]) +
      if LetsLoose(Run(INITIAL, inputs[..|inputs| - 1]).finding, inputs[|inputs| - 1]) then 1 else 0
  }

  lemma RequestStep(f: Finding, k: nat, accepted: bool)
    requires Stages(f) && k in f.claimed
    ensures var d := Step(f, Request(k, accepted));
      OpenCount(d) == OpenCount(f) && HeldOpen(d) == HeldOpen(f)
  {
    assert k !in f.running && k !in f.refused;
    assert |f.claimed - {k}| == |f.claimed| - 1;
    if accepted {
      assert |f.running + {k}| == |f.running| + 1;
    } else {
      assert |f.refused + {k}| == |f.refused| + 1;
    }
  }

  lemma CallStep(f: Finding, input: Input)
    requires Stages(f) && (input.Claim? || input.Abandon? || input.Request?)
    ensures OpenCount(Step(f, input)) - HeldOpen(Step(f, input)) <= OpenCount(f) - HeldOpen(f)
  {
    match input
    case Claim =>
      if !f.isFinding {
        assert |f.claimed + {f.claims}| == |f.claimed| + 1;
      }
    case Abandon(k) => assert |f.claimed - {k}| == |f.claimed| - if k in f.claimed then 1 else 0;
    case Request(k, accepted) =>
      if k in f.claimed {
        RequestStep(f, k, accepted);
      }
  }

  lemma OverStep(f: Finding, input: Input)
    requires Stages(f) && !input.Claim? && !input.Abandon? && !input.Request?
    ensures OpenCount(Step(f, input)) - HeldOpen(Step(f, input))
         <= OpenCount(f) - HeldOpen(f) + if LetsLoose(f, input) then 1 else 0
  {
    match input
    case RefusedEnds(k) => assert k in f.refused ==> |f.refused - {k}| == |f.refused| - 1;
    case Ended(k, _) => assert k in f.running ==> |f.running - {k}| == |f.running| - 1;
    case _ =>
  }

  lemma {:induction false} LooseBound(inputs: seq<Input>)
    ensures var f := Run(INITIAL, inputs).finding; OpenCount(f) - HeldOpen(f) <= LetLoose(inputs)
  {
    if inputs != [] {
      var n := |inputs| - 1;
      LooseBound(inputs[..n]);
      Reachable(inputs[..n]);
      var f := Run(INITIAL, inputs[..n]).finding;
      if inputs[n].Claim? || inputs[n].Abandon? || inputs[n].Request? {
        CallStep(f, inputs[n]);
      } else {
        OverStep(f, inputs[n]);
      }
    }
  }

  /** Over every run the discoveries in flight are at most one more than the disconnects that hit an open claim. */
  lemma InFlightBound(inputs: seq<Input>)
    ensures |Run(INITIAL, inputs).finding.running| <= 1 + LetLoose(inputs)
  {
    LooseBound(inputs);
  }

  lemma RunOne(inputs: seq<Input>, input: Input) returns (longer: seq<Input>)
    ensures Run(INITIAL, longer) == Apply(Run(INITIAL, inputs), input)
    ensures longer == inputs + [input]
  {
    longer := inputs + [input];
    assert longer[..|inputs|] == inputs;
  }

  lemma LetLooseOne(inputs: seq<Input>, input: Input)
    ensures LetLoose(inputs + [input]) ==
      LetLoose(inputs) + if LetsLoose(Run(INITIAL, inputs).finding, input) then 1 else 0
  {
    assert (inputs + [input])[..|inputs|] == inputs;
  }

  /** And every number of them can be reached: n such disconnects, and n + 1 discoveries in flight. */
  lemma {:induction false} BoundReached(n: nat) returns (inputs: seq<Input>)
    ensures LetLoose(inputs) == n && |Run(INITIAL, inputs).finding.running| == n + 1
    ensures var c := Run(INITIAL, inputs);
      c.finding.isFinding && c.finding.claimed == {} && Holder(c.finding) in c.finding.running && !Locked(c)
  {
    if n == 0 {
      inputs := [];
    } else {
      inputs := BoundReached(n - 1);
      LetLooseOne(inputs, Disconnected);
      inputs := RunOne(inputs, Disconnected);
    }
    inputs := StartedAgain(inputs);
  }

  /** One more start goes through while the flag is free. */
  lemma StartedAgain(inputs: seq<Input>) returns (longer: seq<Input>)
    requires var c := Run(INITIAL, inputs); !c.finding.isFinding && c.finding.claimed == {} && !Locked(c)
    ensures LetLoose(longer) == LetLoose(inputs)
    ensures var c, d := Run(INITIAL, inputs), Run(INITIAL, longer);
      && d.finding.isFinding && d.finding.claimed == {} && !Locked(d)
      && Holder(d.finding) in d.finding.running && |d.finding.running| == |c.finding.running| + 1
  {
    var f := Run(INITIAL, inputs).finding;
    Reachable(inputs);
    LetLooseOne(inputs, Claim);
    longer := RunOne(inputs, Claim);
    assert Run(INITIAL, longer).finding == f.(isFinding := true, claims := f.claims + 1, claimed := {f.claims});
    LetLooseOne(longer, Request(f.claims, true));
    longer := RunOne(longer, Request(f.claims, true));
    assert f.claims !in f.running;
    assert Run(INITIAL, longer).finding.running == f.running + {f.claims};
  }

  /** Only callers of the start act. */
  predicate Calls(inputs: seq<Input>) {
    forall i :: 0 <= i < |inputs| ==> inputs[i].Claim? || inputs[i].Abandon? || inputs[i].Request?
  }

  /** The discoveries that could come to be in flight if nothing completed. */
  function Chances(f: Finding): nat {
    |f.claimed + f.running| + if f.isFinding then 0 else 1
  }

  lemma ChancesStep(f: Finding, input: Input)
    requires Stages(f) && Calls([input])
    ensures Chances(Step(f, input)) <= Chances(f)
  {
    assert [input][0] == input;
    var d := Step(f, input);
    if input.Claim? && !f.isFinding {
      assert d.claimed + d.running == f.claimed + f.running + {f.claims};
    } else {
      Subset(d.claimed + d.running, f.claimed + f.running);
    }
  }

  lemma {:induction false} ChancesRun(c: Client, inputs: seq<Input>)
    requires Inv(c) && Calls(inputs)
    ensures Chances(Run(c, inputs).finding) <= Chances(c.finding)
  {
    if inputs != [] {
      var n := |inputs| - 1;
      ChancesRun(c, inputs[..n]);
      RunKeepsInv(c, inputs[..n]);
      ChancesStep(Run(c, inputs[..n]).finding, inputs[n]);
    }
  }

  lemma OneMoreCall(c: Client, inputs: seq<Input>, input: Input) returns (longer: seq<Input>)
    requires Inv(c) && !Locked(c) && Calls(inputs) && Calls([input])
    requires !Locked(Run(c, inputs))
    ensures Calls(longer) && Run(c, longer) == Apply(Run(c, inputs), input)
    ensures Inv(Run(c, longer)) && !Locked(Run(c, longer))
  {
    assert [input][0] == input;
    longer := inputs + [input];
    assert longer[..|inputs|] == inputs;
    RunKeepsInv(c, longer);
  }

  lemma Requested(c: Client, inputs: seq<Input>, k: nat) returns (longer: seq<Input>)
    requires Inv(c) && !Locked(c) && Calls(inputs) && !Locked(Run(c, inputs))
    requires k in Run(c, inputs).finding.claimed + Run(c, inputs).finding.running
    ensures Calls(longer) && Inv(Run(c, longer)) && !Locked(Run(c, longer))
    ensures k in Run(c, longer).finding.running
    ensures var f, d := Run(c, inputs).finding, Run(c, longer).finding;
      f.running <= d.running && f.claimed + f.running == d.claimed + d.running
  {
    if k in Run(c, inputs).finding.claimed {
      longer := OneMoreCall(c, inputs, Request(k, true));
    } else {
      longer := inputs;
      RunKeepsInv(c, inputs);
    }
  }

  lemma TwoOf(s: set<nat>) returns (a: nat, b: nat)
    requires |s| >= 2
    ensures a in s && b in s && a != b
  {
    a :| a in s;
    assert |s - {a}| >= 1;
    b :| b in s - {a};
  }

  lemma TwoRun(c: Client, start: seq<Input>) returns (inputs: seq<Input>)
    requires Inv(c) && !Locked(c) && Calls(start) && !Locked(Run(c, start))
    requires |Run(c, start).finding.claimed + Run(c, start).finding.running| >= 2
    ensures Calls(inputs) && |Run(c, inputs).finding.running| >= 2
  {
    var a, b := TwoOf(Run(c, start).finding.claimed + Run(c, start).finding.running);
    inputs := Requested(c, start, a);
    inputs := Requested(c, inputs, b);
    Subset({a, b}, Run(c, inputs).finding.running);
  }

  lemma ChancesSuffice(c: Client) returns (inputs: seq<Input>)
    requires Inv(c) && !Locked(c) && Chances(c.finding) >= 2
    ensures Calls(inputs) && |Run(c, inputs).finding.running| >= 2
  {
    inputs := [];
    if !c.finding.isFinding {
      var f := c.finding;
      inputs := OneMoreCall(c, inputs, Claim);
      var d := Run(c, inputs).finding;
      assert d.claimed + d.running == f.claimed + f.running + {f.claims};
      assert f.claims !in f.claimed + f.running;
    }
    inputs := TwoRun(c, inputs);
  }

  /**
   From a reachable state, callers alone can bring two discoveries in flight if and only if the
   claims that may still be or already are, and the flag if it is free, number at least two.
   */
  lemma CanOverlapExact(c: Client)
    requires Inv(c) && !Locked(c)
    ensures (exists inputs :: Calls(inputs) && |Run(c, inputs).finding.running| >= 2) <==> Chances(c.finding) >= 2
  {
    if Chances(c.finding) >= 2 {
      var inputs := ChancesSuffice(c);
    }
    forall inputs | Calls(inputs) && |Run(c, inputs).finding.running| >= 2 ensures Chances(c.finding) >= 2 {
      ChancesRun(c, inputs);
      var d := Run(c, inputs).finding;
      Subset(d.running, d.claimed + d.running);
    }
  }

  // ---------- A flag nobody will release ----------

  /** The flag is set and no claim is left that would release it. */
  predicate Stuck(f: Finding) {
    f.isFinding && f.claimed == {} && f.refused == {} && f.running == {}
  }

  /** Whatever happens, short of a disconnect, the flag stays set. */
  ghost predicate Blocked(c: Client) {
    forall inputs :: Disconnected !in inputs ==> Run(c, inputs).finding.isFinding
  }

  /** Until a disconnect, no discovery starts, no list is fetched and no reader or asker gets past its wait. */
  lemma {:induction false} StuckUntilDisconnected(c: Client, inputs: seq<Input>)
    requires Inv(c) && Stuck(c.finding) && Disconnected !in inputs
    ensures var d := Run(c, inputs);
      && d.finding == c.finding && d.cache.building == None && d.cache.lastFetch == c.cache.lastFetch
      && d.cache.readers <= c.cache.readers && d.cache.askers <= c.cache.askers
  {
    if inputs != [] {
      var n := |inputs| - 1;
      StuckUntilDisconnected(c, inputs[..n]);
      assert inputs[n] in inputs;
      StuckStep(Run(c, inputs[..n]), inputs[n]);
    }
  }

  lemma StuckStep(c: Client, input: Input)
    requires Stuck(c.finding) && c.cache.building == None && input != Disconnected
    ensures var d := Apply(c, input);
      && d.finding == c.finding && d.cache.building == None && d.cache.lastFetch == c.cache.lastFetch
      && d.cache.readers <= c.cache.readers && d.cache.askers <= c.cache.askers
  {
  }

  lemma RunSingle(c: Client, input: Input)
    ensures Run(c, [input]) == Apply(c, input)
  {
    assert [input][..0] == [];
  }

  lemma RunTwo(c: Client, first: Input, second: Input)
    ensures Run(c, [first, second]) == Apply(Apply(c, first), second)
  {
    RunSingle(c, first);
    assert [first, second][..1] == [first];
  }

  lemma RefusedReleases(c: Client, k: nat)
    requires c.finding.isFinding && !Locked(c) && k in c.finding.refused
    ensures !Apply(c, RefusedEnds(k)).finding.isFinding
  {
  }

  lemma RunningReleases(c: Client, k: nat)
    requires c.finding.isFinding && !Locked(c) && k in c.finding.running
    ensures !Apply(c, Ended(k, true)).finding.isFinding
  {
  }

  lemma ClaimedReleases(c: Client, k: nat)
    requires c.finding.isFinding && !Locked(c) && k in c.finding.claimed
    ensures !Apply(Apply(c, Request(k, false)), RefusedEnds(k)).finding.isFinding
  {
    RefusedReleases(Apply(c, Request(k, false)), k);
  }

  /** Any open claim can still release the flag. */
  lemma OpenReleases(c: Client) returns (inputs: seq<Input>)
    requires Inv(c) && c.finding.isFinding && !Stuck(c.finding)
    ensures Disconnected !in inputs && !Run(c, inputs).finding.isFinding
  {
    var f := c.finding;
    if f.refused != {} {
      var k :| k in f.refused;
      RefusedReleases(c, k);
      inputs := [RefusedEnds(k)];
      RunSingle(c, RefusedEnds(k));
    } else if f.running != {} {
      var k :| k in f.running;
      RunningReleases(c, k);
      inputs := [Ended(k, true)];
      RunSingle(c, Ended(k, true));
    } else {
      var k :| k in f.claimed;
      ClaimedReleases(c, k);
      inputs := [Request(k, false), RefusedEnds(k)];
      RunTwo(c, Request(k, false), RefusedEnds(k));
    }
  }

  /** A set flag stays set until a disconnect if and only if no claim is open. */
  lemma StuckExact(c: Client)
    requires Inv(c) && c.finding.isFinding
    ensures Blocked(c) <==> Stuck(c.finding)
  {
    if Stuck(c.finding) {
      forall inputs | Disconnected !in inputs ensures Run(c, inputs).finding.isFinding {
        StuckUntilDisconnected(c, inputs);
      }
    } else {
      var inputs := OpenReleases(c);
    }
  }

  /**
   A start that fails before its remote call, for want of a registration or a proxy, leaves the flag
   set without a request. It blocks the client until a disconnect if and only if no other claim is
   open, and that disconnect then reports a discovery that was never requested.
   */
  lemma FailedStartBlocks(c: Client)
    requires Inv(c) && !c.finding.isFinding && !Locked(c)
    ensures var d := Run(c, [Claim, Abandon(c.finding.claims)]);
      && d.finding.isFinding && d.finding.requested == c.finding.requested
      && (Blocked(d) <==> NoneOpen(c.finding))
      && !OnlyRequested(Apply(d, Disconnected).finding)
  {
    var k := c.finding.claims;
    RunTwo(c, Claim, Abandon(k));
    var d := Run(c, [Claim, Abandon(k)]);
    AbandonedFinding(c.finding);
    StepKeepsInv(c, Claim);
    StepKeepsInv(Apply(c, Claim), Abandon(k));
    StuckExact(d);
    assert k in Release(d.finding).reported && k !in Release(d.finding).requested;
  }

  lemma AbandonedFinding(f: Finding)
    requires FindingInv(f) && !f.isFinding
    ensures var d := Step(Step(f, Claim), Abandon(f.claims));
      && d == f.(isFinding := true, claims := f.claims + 1)
      && f.claims !in f.requested && (Stuck(d) <==> NoneOpen(f))
  {
    assert f.claimed + {f.claims} - {f.claims} == f.claimed;
    NoneOpenIs(f);
  }

  lemma NoneOpenIs(f: Finding)
    ensures NoneOpen(f) <==> f.claimed == {} && f.refused == {} && f.running == {}
  {
    if f.claimed != {} {
      var k :| k in f.claimed;
      assert IsOpen(f, k);
    } else if f.refused != {} {
      var k :| k in f.refused;
      assert IsOpen(f, k);
    } else if f.running != {} {
      var k :| k in f.running;
      assert IsOpen(f, k);
    }
  }

  // ---------- What is served ----------

  /** Position i holds the last service of the list with its handle. */
  predicate LastWithHandle(list: seq<Service>, i: nat) {
    i < |list| && forall j :: i < j < |list| ==> list[j].handle != list[i].handle
  }

  /** A refetch caches the last service with each handle ... */
  lemma {:induction false} LastDuplicateWins(list: seq<Service>, i: nat)
    requires LastWithHandle(list, i)
    ensures var m := ByHandle(list); list[i].handle in m && m[list[i].handle] == list[i]
  {
    var n := |list| - 1;
    if i < n {
      assert list[n].handle != list[i].handle;
      LastDuplicateWins(list[..n], i);
    }
  }

  /** ... and nothing else. */
  lemma {:induction false} CachedIsListed(list: seq<Service>, h: uint16) returns (i: nat)
    requires h in ByHandle(list)
    ensures LastWithHandle(list, i) && list[i].handle == h && ByHandle(list)[h] == list[i]
  {
    var n := |list| - 1;
    if list[n].handle == h {
      i := n;
    } else {
      i := CachedIsListed(list[..n], h);
    }
  }

  /** Exactly the last list fetched; no completion was reported and no discovery ended since it was fetched. */
  predicate Current(s: Serving) {
    && s.last.Some? && s.last.value.epoch == s.epoch && s.last.value.ends == s.ends
    && s.handed == ByHandle(s.last.value.list)
  }

  /** What an iteration over the map would hand out now. */
  function Now(c: Client): Serving {
    Serving(c.cache.services, c.cache.lastFetch, c.finding.completions, c.finding.ends)
  }

  // ---------- Discoveries that end unnoticed ----------

  /** The cache is valid, or is being filled by a GetServices. */
  predicate Kept(c: Client) {
    c.cache.isGetServiceYet || Locked(c)
  }

  /** What the cache holds or is being filled with was fetched after the last discovery ended. */
  predicate Fresh(c: Client) {
    && (Locked(c) ==> c.cache.building.value.ends == c.finding.ends)
    && (c.cache.isGetServiceYet && c.cache.lastFetch.Some? ==> c.cache.lastFetch.value.ends == c.finding.ends)
  }

  /**
   A discovery ends and does not invalidate the cache: the client is told while the flag is clear,
   or is not told at all.
   */
  predicate Misses(c: Client, input: Input) {
    && input.Ended? && input.claim in c.finding.running
    && if input.told then c.cache.isGetServiceYet && !c.finding.isFinding else Kept(c)
  }

  lemma FreshStep(c: Client, input: Input)
    requires Inv(c)
    ensures Fresh(c) ==> (Fresh(Apply(c, input)) <==> !Misses(c, input))
    ensures !Fresh(c) && Kept(Apply(c, input)) ==> !Fresh(Apply(c, input))
    ensures !Kept(c) ==> Fresh(c)
  {
  }

  ghost predicate NeverMisses(inputs: seq<Input>) {
    inputs == [] ||
    (NeverMisses(inputs[..|inputs| - 1]) && !Misses(Run(INITIAL, inputs[..|inputs| - 1]), inputs[|inputs| - 1]))
  }

  ghost predicate AlwaysFresh(inputs: seq<Input>) {
    Fresh(Run(INITIAL, inputs)) && (inputs == [] || AlwaysFresh(inputs[..|inputs| - 1]))
  }

  /**
   Over every run: a valid cache was always fetched after the last discovery ended if and only if no
   discovery ends untold, or told with the flag clear, while the cache is valid or being filled.
   */
  lemma {:induction false} FreshRun(inputs: seq<Input>)
    ensures AlwaysFresh(inputs) <==> NeverMisses(inputs)
  {
    if inputs != [] {
      var n := |inputs| - 1;
      Reachable(inputs[..n]);
      FreshRun(inputs[..n]);
      if AlwaysFresh(inputs[..n]) {
        FreshStep(Run(INITIAL, inputs[..n]), inputs[n]);
      }
    }
  }

  /** Such an end has happened since the cache became valid, or since the fetch that fills it. */
  predicate MissedSince(inputs: seq<Input>) {
    inputs != [] && Kept(Run(INITIAL, inputs)) &&
    (MissedSince(inputs[..|inputs| - 1]) || Misses(Run(INITIAL, inputs[..|inputs| - 1]), inputs[|inputs| - 1]))
  }

  /** Whether the cache is fresh depends on nothing else. */
  lemma {:induction false} FreshExact(inputs: seq<Input>)
    ensures Fresh(Run(INITIAL, inputs)) <==> !MissedSince(inputs)
  {
    if inputs != [] {
      var n := |inputs| - 1;
      FreshExact(inputs[..n]);
      Reachable(inputs[..n]);
      FreshStep(Run(INITIAL, inputs[..n]), inputs[n]);
      Reachable(inputs);
      FreshStep(Run(INITIAL, inputs), Serve);
    }
  }

  predicate AllTold(inputs: seq<Input>) {
    forall k :: 0 <= k < |inputs| && inputs[k].Ended? ==> inputs[k].told
  }

  /** When every end is told, it takes a disconnect that strays to miss one. */
  lemma {:induction false} SoundNeverMisses(inputs: seq<Input>)
    requires NeverStrays(inputs) && AllTold(inputs)
    ensures NeverMisses(inputs)
  {
    if inputs != [] {
      var n := |inputs| - 1;
      SoundNeverMisses(inputs[..n]);
      SoundExact(inputs[..n]);
      SoundStepNeverMisses(Run(INITIAL, inputs[..n]), inputs[n]);
    }
  }

  lemma SoundStepNeverMisses(c: Client, input: Input)
    requires Sound(c.finding) && (input.Ended? ==> input.told)
    ensures !Misses(c, input)
  {
  }

  // ---------- What a reader is handed ----------

  predicate Agrees(foreign: map<uint16, Service>, m: map<uint16, Service>) {
    forall h :: h in foreign ==> h in m && m[h] == foreign[h]
  }

  /** The cache is valid, and what was written to the map from outside is what the list has there. */
  predicate Ready(c: Client) {
    && c.cache.isGetServiceYet && c.cache.lastFetch.Some?
    && Agrees(c.cache.foreign, ByHandle(c.cache.lastFetch.value.list))
  }

  lemma Overlaid(m: map<uint16, Service>, foreign: map<uint16, Service>)
    ensures m + foreign == m <==> Agrees(foreign, m)
  {
    if m + foreign == m {
      forall h | h in foreign ensures h in m && m[h] == foreign[h] {
        assert h in m + foreign;
      }
    }
  }

  /** In every reachable state a read hands out the current list if and only if the cache is ready and fresh. */
  lemma ServeExact(c: Client)
    requires Inv(c)
    ensures Current(Now(c)) <==> Ready(c) && Fresh(c)
  {
    if c.cache.lastFetch.Some? {
      Overlaid(ByHandle(c.cache.lastFetch.value.list), c.cache.foreign);
    }
  }

  /** A read hands out something else than the current list. */
  ghost predicate ServesOther(inputs: seq<Input>, input: Input) {
    var c := Run(INITIAL, inputs);
    input.Serve? && c.cache.readers > 0 && (!Ready(c) || MissedSince(inputs))
  }

  ghost predicate NeverServesOther(inputs: seq<Input>) {
    inputs == [] ||
    (NeverServesOther(inputs[..|inputs| - 1]) && !ServesOther(inputs[..|inputs| - 1], inputs[|inputs| - 1]))
  }

  ghost predicate AllCurrent(served: seq<Serving>) {
    forall i :: 0 <= i < |served| ==> Current(served[i])
  }

  lemma ServedStep(c: Client, input: Input)
    ensures AllCurrent(Apply(c, input).cache.served) <==>
      AllCurrent(c.cache.served) && (input.Serve? && c.cache.readers > 0 ==> Current(Now(c)))
  {
    if input.Serve? && c.cache.readers > 0 {
      var before, after := c.cache.served, Apply(c, input).cache.served;
      assert after == before + [Now(c)] && after[|before|] == Now(c);
      assert forall i :: 0 <= i < |before| ==> after[i] == before[i];
    }
  }

  /**
   Over every run, each caller that was told the list is ready is handed exactly the last list
   fetched, with no completion reported and no discovery ended since, if and only if at each of these
   reads the cache is valid, holds no other service written from outside, and has missed no end.
   */
  lemma {:induction false} ServedExact(inputs: seq<Input>)
    ensures AllCurrent(Run(INITIAL, inputs).cache.served) <==> NeverServesOther(inputs)
  {
    if inputs != [] {
      var n := |inputs| - 1;
      ServedExact(inputs[..n]);
      ServedStep(Run(INITIAL, inputs[..n]), inputs[n]);
      Reachable(inputs[..n]);
      ServeExact(Run(INITIAL, inputs[..n]));
      FreshExact(inputs[..n]);
    }
  }

  predicate Holds(m: map<uint16, Service>, s: Service) {
    s.handle in m && m[s.handle] == s
  }

  /**
   A reported completion, the end of a discovery that is missed, or a write to the map, by
   GetService(uuid) or a notification, of what it does not hold.
   */
  predicate Spoils(c: Client, input: Input) {
    || (Completes(c.finding, input) && c.finding.isFinding)
    || Misses(c, input)
    || (input.UuidInsert? && input.service in c.cache.fetched && !Holds(c.cache.services, input.service))
    || (input.Notify? && IsFirst(c.cache.services, input.part, input.handle)
        && c.cache.services[input.handle].values[input.part] != input.value)
  }

  lemma PutKeepsMap(m: map<uint16, Service>, s: Service)
    ensures m[s.handle := s] == m <==> Holds(m, s)
  {
    assert m[s.handle := s][s.handle] == s;
  }

  lemma NotifiedKeeps(s: Service, part: Part, value: string)
    requires part in s.values
    ensures Notified(s, part, value) == s <==> s.values[part] == value
  {
    assert Notified(s, part, value).values[part] == value;
    assert s.values[part] == value ==> s.values[part := value] == s.values;
  }

  /** A current list stays current through every step but those. */
  lemma SpoilStep(c: Client, input: Input)
    requires Inv(c) && Current(Now(c))
    ensures Current(Now(Apply(c, input))) <==> !Spoils(c, input)
  {
    assert c.cache.isGetServiceYet && !Locked(c);
    if input.UuidInsert? {
      PutKeepsMap(c.cache.services, input.service);
    } else if input.Notify? && IsFirst(c.cache.services, input.part, input.handle) {
      var s := c.cache.services[input.handle];
      NotifiedKeeps(s, input.part, input.value);
      PutKeepsMap(c.cache.services, Notified(s, input.part, input.value));
    }
  }

  ghost predicate NeverSpoils(c: Client, inputs: seq<Input>) {
    inputs == [] ||
    (NeverSpoils(c, inputs[..|inputs| - 1]) && !Spoils(Run(c, inputs[..|inputs| - 1]), inputs[|inputs| - 1]))
  }

  /** Between the end of a GetServices and the read of its caller, nothing else can change what is handed out. */
  lemma {:induction false} UndisturbedRead(c: Client, inputs: seq<Input>)
    requires Inv(c) && Current(Now(c)) && NeverSpoils(c, inputs)
    ensures Current(Now(Run(c, inputs)))
  {
    if inputs != [] {
      var n := |inputs| - 1;
      UndisturbedRead(c, inputs[..n]);
      RunKeepsInv(c, inputs[..n]);
      SpoilStep(Run(c, inputs[..n]), inputs[n]);
    }
  }

  /** The end of a discovery invalidates the cache if and only if the client is told while the flag is set. */
  lemma EndInvalidates(c: Client, k: nat, told: bool)
    requires Inv(c) && k in c.finding.running && c.cache.isGetServiceYet
    ensures !Apply(c, Ended(k, told)).cache.isGetServiceYet <==> told && c.finding.isFinding
    ensures Sound(c.finding) ==> c.finding.isFinding
  {
  }

  // ---------- Reachable examples ----------

  lemma FailedStart() returns (inputs: seq<Input>)
    ensures Run(INITIAL, inputs).finding == Finding(true, 1, {}, {}, {}, {}, {}, 0, 0)
    ensures !Locked(Run(INITIAL, inputs))
  {
    inputs := RunOne([], Claim);
    inputs := RunOne(inputs, Abandon(0));
  }

  /** A start fails before its remote call, and the flag stays set with nobody left to release it. */
  lemma FailedStartReachable()
    ensures exists inputs :: var f := Run(INITIAL, inputs).finding; Stuck(f) && f.requested == {}
  {
    var inputs := FailedStart();
    assert Stuck(Run(INITIAL, inputs).finding);
  }

  /** The disconnect that ends this tells the application of a discovery that was never requested. */
  lemma UnrequestedReportReachable()
    ensures exists inputs :: var f := Run(INITIAL, inputs).finding; f.requested == {} && f.completions == 1
  {
    var inputs := FailedStart();
    inputs := RunOne(inputs, Disconnected);
    assert Run(INITIAL, inputs).finding.requested == {};
  }

  /**
   A disconnect takes the flag from call 0 before its request, call 1 claims it and is accepted, and
   call 0 is refused and releases the flag of call 1.
   */
  lemma FlagTakenOver() returns (inputs: seq<Input>)
    ensures var c := Run(INITIAL, inputs);
      c.finding == Finding(false, 2, {}, {}, {1}, {0, 1}, {0, 1}, 2, 0) && !Locked(c)
  {
    inputs := FlagLost();
    inputs := RunOne(inputs, Claim);
    assert Run(INITIAL, inputs).finding == Finding(true, 2, {0, 1}, {}, {}, {}, {0}, 1, 0);
    inputs := RunOne(inputs, Request(1, true));
    assert Run(INITIAL, inputs).finding == Finding(true, 2, {0}, {}, {1}, {1}, {0}, 1, 0);
    inputs := RunOne(inputs, Request(0, false));
    assert Run(INITIAL, inputs).finding == Finding(true, 2, {}, {0}, {1}, {0, 1}, {0}, 1, 0);
    inputs := RunOne(inputs, RefusedEnds(0));
  }

  lemma FlagLost() returns (inputs: seq<Input>)
    ensures Run(INITIAL, inputs) == Client(Finding(false, 1, {0}, {}, {}, {}, {0}, 1, 0), INITIAL.cache)
  {
    inputs := RunOne([], Claim);
    assert Run(INITIAL, inputs) == Client(Finding(true, 1, {0}, {}, {}, {}, {}, 0, 0), INITIAL.cache);
    inputs := RunOne(inputs, Disconnected);
  }

  /** After that call 2 is accepted as well, and two discoveries are in flight. */
  lemma TwoInFlightReachable()
    ensures exists inputs :: |Run(INITIAL, inputs).finding.running| >= 2
  {
    var inputs := FlagTakenOver();
    inputs := RunOne(inputs, Claim);
    assert Run(INITIAL, inputs).finding == Finding(true, 3, {2}, {}, {1}, {0, 1}, {0, 1}, 2, 0);
    inputs := RunOne(inputs, Request(2, true));
    Subset({1, 2}, Run(INITIAL, inputs).finding.running);
  }

  /** The cache after the list [s] was fetched, with one caller still to read it. */
  function Listed(s: Service): Cache {
    Cache(true, map[s.handle := s], map[], None, Some(Fetch([s], 0, 0)), 1, 0, multiset{}, [])
  }

  /** A run up to a caller that was told the list [s] is ready. */
  lemma ListReady(s: Service) returns (inputs: seq<Input>)
    ensures Run(INITIAL, inputs) == Client(INITIAL.finding, Listed(s))
  {
    inputs := RunOne([], GetBegin(true, true, [s]));
    assert Run(INITIAL, inputs) == INITIAL.(cache := INITIAL.cache.(building := Some(Building([], [s], 0))));
    inputs := RunOne(inputs, BuildNext);
    assert [] + [s] == [s] && [s][1..] == [];
    assert Run(INITIAL, inputs) == INITIAL.(cache := INITIAL.cache.(
      services := map[s.handle := s], building := Some(Building([s], [], 0))));
    inputs := RunOne(inputs, GetEnd);
  }

  /** A discovery runs from its start to its completion. */
  lemma Discovered(inputs: seq<Input>) returns (longer: seq<Input>)
    requires Run(INITIAL, inputs).finding == INITIAL.finding && !Locked(Run(INITIAL, inputs))
    ensures var c := Run(INITIAL, inputs);
      Run(INITIAL, longer) == Client(Finding(false, 1, {}, {}, {}, {0}, {0}, 1, 1), c.cache.(isGetServiceYet := false))
  {
    var c := Run(INITIAL, inputs);
    longer := RunOne(inputs, Claim);
    assert Run(INITIAL, longer) == c.(finding := Finding(true, 1, {0}, {}, {}, {}, {}, 0, 0));
    longer := RunOne(longer, Request(0, true));
    assert Run(INITIAL, longer) == c.(finding := Finding(true, 1, {}, {}, {0}, {0}, {}, 0, 0));
    longer := RunOne(longer, Ended(0, true));
  }

  /** What a read appends to what was served, in a state where nothing was served before. */
  lemma FirstServed(inputs: seq<Input>) returns (longer: seq<Input>)
    requires Run(INITIAL, inputs).cache.readers > 0 && Run(INITIAL, inputs).cache.served == []
    ensures Run(INITIAL, longer).cache.served == [Now(Run(INITIAL, inputs))]
  {
    longer := RunOne(inputs, Serve);
  }

  ghost predicate Serves(serving: Serving) {
    exists inputs :: Run(INITIAL, inputs).cache.served == [serving]
  }

  /** The caller is handed a list from before a discovery that has completed in between. */
  lemma OldListServed(s: Service)
    ensures var older := Serving(map[s.handle := s], Some(Fetch([s], 0, 0)), 1, 1); Serves(older) && !Current(older)
  {
    var inputs := ListReady(s);
    inputs := Discovered(inputs);
    inputs := FirstServed(inputs);
  }

  /** The caller is handed an empty list, because another one has started to fetch it again. */
  lemma ClearedListServed(s: Service)
    ensures var empty := Serving(map[], Some(Fetch([s], 0, 0)), 1, 1); Serves(empty) && !Current(empty)
  {
    var inputs := ListReady(s);
    inputs := Discovered(inputs);
    var c := Run(INITIAL, inputs);
    inputs := RunOne(inputs, GetBegin(true, true, [s]));
    assert Run(INITIAL, inputs).cache == c.cache.(services := map[], building := Some(Building([], [s], 1)));
    inputs := FirstServed(inputs);
  }

  /** GetService(uuid) is given a service, and then a whole discovery passes. */
  lemma FetchedBefore(s: Service) returns (inputs: seq<Input>)
    ensures Run(INITIAL, inputs) ==
      Client(Finding(false, 1, {}, {}, {}, {0}, {0}, 1, 1), INITIAL.cache.(fetched := multiset{s}))
  {
    inputs := RunOne([], UuidWait);
    assert Run(INITIAL, inputs) == INITIAL.(cache := INITIAL.cache.(askers := 1));
    inputs := RunOne(inputs, UuidFetch(s));
    assert Run(INITIAL, inputs) == INITIAL.(cache := INITIAL.cache.(fetched := multiset{s}));
    inputs := Discovered(inputs);
  }

  lemma Refetched(s: Service) returns (inputs: seq<Input>)
    ensures Run(INITIAL, inputs) == Client(Finding(false, 1, {}, {}, {}, {0}, {0}, 1, 1),
      Cache(true, map[], map[], None, Some(Fetch([], 1, 1)), 1, 0, multiset{s}, []))
  {
    inputs := FetchedBefore(s);
    var c := Run(INITIAL, inputs);
    inputs := RunOne(inputs, GetBegin(true, true, []));
    assert Run(INITIAL, inputs) == c.(cache := c.cache.(building := Some(Building([], [], 1))));
    inputs := RunOne(inputs, GetEnd);
  }

  lemma OldInserted(s: Service) returns (inputs: seq<Input>)
    ensures var c := Run(INITIAL, inputs);
      && Now(c) == Serving(map[s.handle := s], Some(Fetch([], 1, 1)), 1, 1)
      && c.cache.readers == 1 && c.cache.served == []
  {
    inputs := Refetched(s);
    inputs := RunOne(inputs, UuidInsert(s));
    assert map[][s.handle := s] == map[s.handle := s];
  }

  /** After a refetch that no longer lists the service, the old one is inserted and served. */
  lemma OldServiceServed(s: Service)
    ensures var stale := Serving(map[s.handle := s], Some(Fetch([], 1, 1)), 1, 1); Serves(stale) && !Current(stale)
  {
    var inputs := OldInserted(s);
    inputs := FirstServed(inputs);
    assert s.handle in map[s.handle := s] && s.handle !in ByHandle([]);
  }

  /** Call 0 loses its flag to a disconnect before its request, and a list is fetched meanwhile. */
  lemma FetchedMeanwhile() returns (inputs: seq<Input>)
    ensures Run(INITIAL, inputs) == Client(Finding(false, 1, {0}, {}, {}, {}, {0}, 1, 0),
      Cache(true, map[], map[], None, Some(Fetch([], 1, 0)), 1, 0, multiset{}, []))
  {
    inputs := FlagLost();
    var c := Run(INITIAL, inputs);
    inputs := RunOne(inputs, GetBegin(true, true, []));
    assert Run(INITIAL, inputs) == c.(cache := c.cache.(building := Some(Building([], [], 0))));
    inputs := RunOne(inputs, GetEnd);
  }

  /** Its discovery then runs and ends, and the list from before is served: nothing was left to release. */
  lemma MissedEndServed()
    ensures var older := Serving(map[], Some(Fetch([], 1, 0)), 1, 1); Serves(older) && !Current(older)
  {
    var inputs := FetchedMeanwhile();
    var c := Run(INITIAL, inputs);
    inputs := RunOne(inputs, Request(0, true));
    assert Run(INITIAL, inputs) == c.(finding := Finding(false, 1, {}, {}, {0}, {0}, {0}, 1, 0));
    inputs := RunOne(inputs, Ended(0, true));
    assert Run(INITIAL, inputs) == c.(finding := Finding(false, 1, {}, {}, {}, {0}, {0}, 1, 1));
    inputs := FirstServed(inputs);
  }

  // ---------- The object ----------

  datatype NlErrCode = NoError | ApiNotSupport | SleOff | Timeout | InternalError | UnavailableProxy | RemoteError

  /** The state of a refetch after i services of its list. */
  function HalfBuilt(start: Client, list: seq<Service>, i: nat): Client
    requires i <= |list|
  {
    start.(cache := start.cache.(
      services := ByHandle(list[..i]), building := Some(Building(list[..i], list[i..], start.finding.ends))))
  }

  /** A whole start: it waits out a set flag, leaves without a request, or completes itself after a refusal. */
  function Started(c: Client, reachable: bool, accepted: bool): Client {
    var k, d := c.finding.claims, Apply(c, Claim);
    if c.finding.isFinding then c
    else if !reachable then Apply(d, Abandon(k))
    else if accepted then Apply(d, Request(k, true))
    else Apply(Apply(d, Request(k, false)), RefusedEnds(k))
  }

  /**
   What a start leaves behind that found the flag free. The flag stays set unless the remote call was
   refused: then the start completed itself, and nothing of it is open. An accepted one is running. One
   without a registration or a proxy made no request.
   */
  ghost predicate StartAnswers(c: Client, d: Client, reachable: bool, accepted: bool) {
    var f, g, k := c.finding, d.finding, c.finding.claims;
    && (g.isFinding <==> !(reachable && !accepted))
    && g.claims == f.claims + 1 && g.claimed == f.claimed && g.refused == f.refused && g.ends == f.ends
    && g.running == (if reachable && accepted then f.running + {k} else f.running)
    && g.requested == (if reachable then f.requested + {k} else f.requested)
    && (if reachable && !accepted
        then g.completions == f.completions + 1 && g.reported == f.reported + {k}
             && d.cache == c.cache.(isGetServiceYet := false)
        else g.completions == f.completions && g.reported == f.reported && d.cache == c.cache)
  }

  lemma StartedAnswers(c: Client, reachable: bool, accepted: bool)
    requires Inv(c) && !c.finding.isFinding && !Locked(c)
    ensures StartAnswers(c, Started(c, reachable, accepted), reachable, accepted)
  {
    var f, k := c.finding, c.finding.claims;
    assert k !in f.claimed && k !in f.refused;
    assert f.claimed + {k} - {k} == f.claimed;
    assert f.refused + {k} - {k} == f.refused;
  }

  lemma HalfBuiltEnds(start: Client, list: seq<Service>)
    requires start.cache.building == Some(Building([], list, start.finding.ends)) && start.cache.services == map[]
    ensures HalfBuilt(start, list, 0) == start
  {
    assert list[..0] == [] && list[0..] == list;
  }

  lemma HalfBuiltStep(start: Client, list: seq<Service>, i: nat)
    requires i < |list| && start.cache.foreign == map[]
    ensures Apply(HalfBuilt(start, list, i), BuildNext) == HalfBuilt(start, list, i + 1)
    ensures HalfBuilt(start, list, i).cache.building.value.todo[0] == list[i]
  {
    assert list[..i] + [list[i]] == list[..i + 1] && list[i..][1..] == list[i + 1..];
    assert map[] - {list[i].handle} == start.cache.foreign;
    ByHandleGrows(list[..i], list[i]);
  }

  class SsapClient {
    var isFinding: bool
    var isGetServiceYet: bool
    var ssapServices: map<uint16, Service>
    ghost var state: Client

    ghost predicate Valid()
      reads this
    {
      && isFinding == state.finding.isFinding && isGetServiceYet == state.cache.isGetServiceYet
      && ssapServices == state.cache.services
    }

    constructor ()
      ensures Valid() && state == INITIAL
    {
      isFinding, isGetServiceYet, ssapServices := false, false, map[];
      state := INITIAL;
    }

    /** The critical section of FindStructureStart and FindStructureByUuidStart. */
    method ClaimFlag() returns (ok: bool, ghost claim: nat)
      requires Valid() && !Locked(state)
      modifies this
      ensures Valid() && state == Apply(old(state), Claim)
      ensures ok <==> !old(isFinding)
      ensures ok ==> claim == old(state.finding.claims) && claim in state.finding.claimed
    {
      ok, claim := !isFinding, state.finding.claims;
      isFinding := true;
      state := Apply(state, Claim);
    }

    /** What follows the critical section, up to the answer of the service; others may act before it. */
    method RequestDiscovery(ghost claim: nat, registered: bool, proxy: bool, accepted: bool) returns (code: NlErrCode)
      requires Valid() && claim in state.finding.claimed
      modifies this`state
      ensures Valid()
      ensures state == Apply(old(state), if registered && proxy then Request(claim, accepted) else Abandon(claim))
      ensures code == NoError <==> registered && proxy && accepted
      ensures code == RemoteError <==> registered && proxy && !accepted
    {
      if !registered {
        state := Apply(state, Abandon(claim));
        return InternalError;
      }
      if !proxy {
        state := Apply(state, Abandon(claim));
        return UnavailableProxy;
      }
      state := Apply(state, Request(claim, accepted));
      code := if accepted then NoError else RemoteError;
    }

    /** Releases the flag and invalidates the cache, whoever holds the flag. */
    method FindStructureComplete(ghost source: Input) returns (reported: bool)
      requires Valid() && !Locked(state) && Completes(state.finding, source)
      modifies this
      ensures Valid() && state == Apply(old(state), source)
      ensures reported <==> old(isFinding)
    {
      reported := isFinding;
      if isFinding {
        isFinding := false;
        isGetServiceYet := false;
      }
      state := Apply(state, source);
    }

    /** A start that nobody interrupts. It times out while the flag is set. */
    method FindStructureStart(supported: bool, available: bool, registered: bool, proxy: bool, accepted: bool)
      returns (code: NlErrCode)
      requires Valid() && !Locked(state)
      modifies this
      ensures Valid()
      ensures code == NoError <==> supported && available && !old(isFinding) && registered && proxy && accepted
      ensures state == if supported && available then Started(old(state), registered && proxy, accepted) else old(state)
      ensures old(Inv(state)) && supported && available && !old(isFinding) ==>
        StartAnswers(old(state), state, registered && proxy, accepted)
    {
      if old(Inv(state)) && supported && available && !isFinding {
        StartedAnswers(state, registered && proxy, accepted);
      }
      if !supported {
        return ApiNotSupport;
      }
      if !available {
        return SleOff;
      }
      var ok; ghost var claim;
      ok, claim := ClaimFlag();
      if !ok {
        return InternalError;
      }
      code := RequestDiscovery(claim, registered, proxy, accepted);
      if code == RemoteError {
        var _ := FindStructureComplete(RefusedEnds(claim));
      }
    }

    /** One EnsureInsert of the loop below. */
    method PutService(service: Service)
      requires Valid() && state.cache.building.Some? && state.cache.building.value.todo != []
      requires state.cache.building.value.todo[0] == service
      modifies this`ssapServices, this`state
      ensures Valid() && state == Apply(old(state), BuildNext)
    {
      ssapServices := ssapServices[service.handle := service];
      state := Apply(state, BuildNext);
    }

    /** Puts each service of the fetched list into the map, replacing what was there under its handle. */
    method BuildServiceList(list: seq<Service>)
      requires Valid() && state.cache.building == Some(Building([], list, state.finding.ends))
      requires state.cache.services == map[] && state.cache.foreign == map[]
      modifies this`ssapServices, this`state
      ensures Valid()
      ensures state == HalfBuilt(old(state), list, |list|)
    {
      ghost var start := state;
      HalfBuiltEnds(start, list);
      for i := 0 to |list|
        invariant Valid() && state == HalfBuilt(start, list, i)
      {
        HalfBuiltStep(start, list, i);
        PutService(list[i]);
      }
    }

    /** GetServices, which holds the mutex from its wait to its end. */
    method GetServices(supported: bool, available: bool, registered: bool, proxy: bool, list: seq<Service>)
      returns (code: NlErrCode)
      requires Valid() && !Locked(state)
      modifies this
      ensures Valid() && !Locked(state) && state.finding == old(state.finding)
      ensures code == NoError <==>
        supported && available && !old(isFinding) && (old(isGetServiceYet) || (registered && proxy))
      ensures code == NoError ==> isGetServiceYet && state.cache.readers == old(state.cache.readers) + 1
      ensures code == NoError && !old(isGetServiceYet) ==>
        && state.cache.lastFetch == Some(Fetch(list, state.finding.completions, state.finding.ends))
        && Current(Now(state))
      ensures code == UnavailableProxy ==>
        && ssapServices == map[]
        && state.cache == old(state.cache).(services := map[], foreign := map[])
      ensures code != NoError && code != UnavailableProxy ==> state == old(state)
    {
      if !supported {
        return ApiNotSupport;
      }
      if !available {
        return SleOff;
      }
      if isFinding {
        return Timeout;
      }
      if isGetServiceYet {
        state := Apply(state, GetBegin(registered, proxy, list));
        return NoError;
      }
      if !registered {
        return InternalError;
      }
      ssapServices := map[];
      state := Apply(state, GetBegin(registered, proxy, list));
      if !proxy {
        return UnavailableProxy;
      }
      BuildServiceList(list);
      assert list[..|list|] == list && list[|list|..] == [];
      isGetServiceYet := true;
      state := Apply(state, GetEnd);
      code := NoError;
    }

    /** The iteration of GetService(vector), after GetServices has let go of the mutex. */
    method GetServiceList() returns (handed: map<uint16, Service>)
      requires Valid() && state.cache.readers > 0
      modifies this`state
      ensures Valid() && state == Apply(old(state), Serve)
      ensures handed == ssapServices == Now(old(state)).handed
    {
      handed := ssapServices;
      state := Apply(state, Serve);
    }

    /** GetService(uuid) up to the end of its wait. */
    method WaitForUuid(available: bool, registered: bool) returns (ok: bool)
      requires Valid() && !Locked(state)
      modifies this`state
      ensures Valid() && state == if ok then Apply(old(state), UuidWait) else old(state)
      ensures ok <==> available && registered && !isFinding
    {
      if !available || !registered || isFinding {
        return false;
      }
      state := Apply(state, UuidWait);
      ok := true;
    }

    /** The answer of the service, which comes without the mutex: a discovery may be running by then. */
    method FetchServiceByUuid(service: Service)
      requires Valid() && state.cache.askers > 0
      modifies this`state
      ensures Valid() && state == Apply(old(state), UuidFetch(service)) && service in state.cache.fetched
    {
      state := Apply(state, UuidFetch(service));
    }

    /** The insertion at the end of GetService(uuid), without the mutex as well. */
    method InsertService(service: Service)
      requires Valid() && service in state.cache.fetched
      modifies this`ssapServices, this`state
      ensures Valid() && state == Apply(old(state), UuidInsert(service))
      ensures ssapServices == old(ssapServices)[service.handle := service]
    {
      ssapServices := ssapServices[service.handle := service];
      state := Apply(state, UuidInsert(service));
    }

    /** OnPropertyChanged and OnEventNotified: Find in key order, and a write through the reference it gives. */
    method OnNotified(part: Part, value: string) returns (found: bool)
      requires Valid() && forall h :: h in ssapServices ==> ssapServices[h].handle == h
      modifies this`ssapServices, this`state
      ensures Valid()
      ensures found <==> exists h :: h in old(ssapServices) && part in old(ssapServices)[h].values
      ensures !found ==> state == old(state)
      ensures found ==>
        exists h :: IsFirst(old(ssapServices), part, h) && state == Apply(old(state), Notify(h, part, value))
    {
      for h := 0 to 0x1_0000
        invariant state == old(state) && ssapServices == old(ssapServices)
        invariant forall j :: j in ssapServices && part in ssapServices[j].values ==> h <= j
      {
        if h in ssapServices && part in ssapServices[h].values {
          assert IsFirst(ssapServices, part, h);
          state := Apply(state, Notify(h, part, value));
          ssapServices := ssapServices[h := Notified(ssapServices[h], part, value)];
          return true;
        }
      }
      found := false;
    }
  }
}
