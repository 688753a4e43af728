/**
 The service-availability manager: wrap-around allocation of registration ids, and the "started"
 notification each registration gets once per period in which the service is up.
 */
module SaManager {
  const INT32_MAX: int := 0x7fff_ffff
  const INITIAL_ID: int := 1
  const ID_COUNT: int := INT32_MAX - 1

  /** Ids in use lie between 1 and INT32_MAX - 1. */
  type ProfileId = n: int | 1 <= n < 0x7fff_ffff witness 1

  datatype ServiceState = NotSubscribed | Started | Stopped

  /** A registration; it may come without a started or a state-on function. */
  datatype Info = Info(profileName: string, hasStartedFunc: bool, hasStateOnFunc: bool)

  /**
   waiting counts the registrations blocked until the first service event, deregistered or not. runs
   counts, for each live registration, the calls of its started function since the service last came up.
   */
  datatype Manager = Manager(
    lastId: ProfileId,
    registered: map<ProfileId, Info>,
    waiting: nat,
    state: ServiceState,
    runs: map<ProfileId, nat>)

  const INITIAL: Manager := Manager(1, map[], 0, NotSubscribed, map[])

  datatype Input =
    | Register(id: ProfileId, info: Info, remoteFound: bool)  // RegisterFunc up to its wait
    | WaitEnds                                                // a wait is over or times out
    | Deregister(id: ProfileId)
    | ServiceStarted
    | ServiceStopped

  // ---------- Id allocation ----------

  /** The id after n, wrapping from the last one to the first. */
  function NextId(n: ProfileId): ProfileId {
    if n + 1 == INT32_MAX then INITIAL_ID else n + 1
  }

  /** How many increments lead from one id to another. */
  function Distance(from: ProfileId, to: ProfileId): nat {
    if from <= to then to - from else to - from + ID_COUNT
  }

  lemma DistanceStep(from: ProfileId, to: ProfileId)
    requires from != to
    ensures Distance(NextId(from), to) == Distance(from, to) - 1
  {
  }

  /** id is the first unused id at or after from, in cyclic order. */
  ghost predicate Allocates(from: ProfileId, used: set<ProfileId>, id: ProfileId) {
    id !in used && forall n: ProfileId :: Distance(from, n) < Distance(from, id) ==> n in used
  }

  /** In plain terms: everything from there up to id is used, across the wrap-around if need be. */
  lemma AllocatesExact(from: ProfileId, used: set<ProfileId>, id: ProfileId)
    ensures Allocates(from, used, id) <==>
      && id !in used
      && if from <= id then forall n: ProfileId :: from <= n < id ==> n in used
         else forall n: ProfileId :: from <= n || n < id ==> n in used
  {
    if Allocates(from, used, id) {
      forall n: ProfileId | if from <= id then from <= n < id else from <= n || n < id ensures n in used {
        assert Distance(from, n) < Distance(from, id);
      }
    }
  }

  ghost predicate SomeIdFree(used: set<ProfileId>) {
    exists n: ProfileId :: n !in used
  }

  /** The ids 1 to n. */
  ghost function FirstIds(n: nat): set<int> {
    if n == 0 then {} else FirstIds(n - 1) + {n}
  }

  lemma {:induction false} FirstIdsExact(n: nat)
    ensures |FirstIds(n)| == n
    ensures forall i :: i in FirstIds(n) <==> 1 <= i <= n
  {
    if n > 0 {
      FirstIdsExact(n - 1);
    }
  }

  /** With fewer than INT32_MAX - 1 registrations there is always an id to allocate. */
  lemma FreeIdExists(used: set<ProfileId>)
    requires |used| < ID_COUNT
    ensures SomeIdFree(used)
  {
    var ids := FirstIds(ID_COUNT);
    FirstIdsExact(ID_COUNT);
    if forall n: ProfileId :: n in used {
      assert ids <= used;
      NoMoreThan(ids, used);
    }
  }

  lemma NoMoreThan(a: set<int>, b: set<int>)
    requires a <= b
    ensures |a| <= |b|
  {
    assert b == a + (b - a);
  }

  // ---------- Notification ----------

  function Once(info: Info): nat {
    if info.hasStartedFunc then 1 else 0
  }

  function Apply(m: Manager, input: Input): Manager {
    match input
    case Register(id, info, remoteFound) =>
      var r := if m.state == Started && remoteFound then Once(info) else 0;
      m.(lastId := id, registered := m.registered[id := info], runs := m.runs[id := r],
         waiting := if m.state == NotSubscribed then m.waiting + 1 else m.waiting)
    case WaitEnds =>
      if m.waiting == 0 then m
      else m.(waiting := m.waiting - 1, state := if m.state == NotSubscribed then Stopped else m.state)
    case Deregister(id) => m.(registered := m.registered - {id}, runs := m.runs - {id})
    case ServiceStarted =>
      m.(state := Started,
         runs := map id | id in m.registered ::
           (if m.state == Started && id in m.runs then m.runs[id] else 0) + Once(m.registered[id]))
    case ServiceStopped => m.(state := Stopped)
  }

  ghost predicate Allowed(m: Manager, input: Input) {
    input.Register? ==> Allocates(m.lastId, m.registered.Keys, input.id)
  }

  function Run(inputs: seq<Input>): Manager {
    if inputs == [] then INITIAL else Apply(Run(inputs[..|inputs| - 1]), inputs[|inputs| - 1])
  }

  ghost predicate Consistent(m: Manager) {
    m.runs.Keys == m.registered.Keys
  }

  /** While the service is up, each live registration's started function has run exactly once. */
  ghost predicate NotifiedOnce(m: Manager) {
    Consistent(m) && (m.state == Started ==> forall id :: id in m.registered ==> m.runs[id] == Once(m.registered[id]))
  }

  /** A second start without a stop, or a registration whose remote object cannot be found. */
  ghost predicate BreaksNotification(m: Manager, input: Input) {
    m.state == Started &&
    (|| (input.ServiceStarted? && exists id :: id in m.registered && m.registered[id].hasStartedFunc)
     || (input.Register? && !input.remoteFound && input.info.hasStartedFunc))
  }

  /** A step keeps exactly-once notification unless it is one of those two. */
  lemma NotificationStep(m: Manager, input: Input)
    requires NotifiedOnce(m)
    ensures NotifiedOnce(Apply(m, input)) <==> !BreaksNotification(m, input)
  {
    var d := Apply(m, input);
    match input
    case Register(id, info, remoteFound) =>
      assert d.runs[id] == if m.state == Started && remoteFound then Once(info) else 0;
    case ServiceStarted =>
      if m.state == Started {
        forall id | id in m.registered ensures d.runs[id] == 2 * Once(m.registered[id]) {
        }
      }
    case _ =>
  }

  ghost predicate AllAllowed(inputs: seq<Input>) {
    inputs == [] ||
    (AllAllowed(inputs[..|inputs| - 1]) && Allowed(Run(inputs[..|inputs| - 1]), inputs[|inputs| - 1]))
  }

  ghost predicate NeverBreaks(inputs: seq<Input>) {
    inputs == [] ||
    (NeverBreaks(inputs[..|inputs| - 1]) && !BreaksNotification(Run(inputs[..|inputs| - 1]), inputs[|inputs| - 1]))
  }

  ghost predicate AlwaysNotified(inputs: seq<Input>) {
    NotifiedOnce(Run(inputs)) && (inputs == [] || AlwaysNotified(inputs[..|inputs| - 1]))
  }

  /**
   Over every run: whenever the service is up each live registration was notified exactly once,
   those that blocked on the first event included, if and only if neither of the two ever happens.
   */
  lemma {:induction false} RunNotifiesOnce(inputs: seq<Input>)
    ensures AlwaysNotified(inputs) <==> NeverBreaks(inputs)
  {
    if inputs != [] {
      var n := |inputs| - 1;
      RunNotifiesOnce(inputs[..n]);
      if AlwaysNotified(inputs[..n]) {
        NotificationStep(Run(inputs[..n]), inputs[n]);
      }
    }
  }

  // ---------- What each step does ----------

  /**
   A start brings the service up from any state and runs each started function, once in a new period;
   a repeated start runs them again.
   */
  lemma StartStep(m: Manager)
    requires Consistent(m)
    ensures var d := Apply(m, ServiceStarted);
      && d.state == Started && d.registered == m.registered && d.lastId == m.lastId && d.waiting == m.waiting
      && d.runs.Keys == m.registered.Keys
      && forall id :: id in m.registered ==>
           d.runs[id] ==
             (if m.state == Started then m.runs[id] else 0) + if m.registered[id].hasStartedFunc then 1 else 0
  {
  }

  lemma StopStep(m: Manager)
    ensures Apply(m, ServiceStopped) == m.(state := Stopped)
  {
  }

  /** A registration waits before the first event, is notified while the service is up, and neither otherwise. */
  lemma RegisterStep(m: Manager, id: ProfileId, info: Info, remoteFound: bool)
    ensures var d := Apply(m, Register(id, info, remoteFound));
      && d.registered == m.registered[id := info] && d.lastId == id && d.state == m.state
      && d.waiting == (if m.state == NotSubscribed then m.waiting + 1 else m.waiting)
      && d.runs == m.runs[id := if m.state == Started && remoteFound && info.hasStartedFunc then 1 else 0]
  {
  }

  /** A deregistration forgets one id; a wait that is over without an event counts the service as stopped. */
  lemma LeaveSteps(m: Manager, id: ProfileId)
    ensures Apply(m, Deregister(id)) == m.(registered := m.registered - {id}, runs := m.runs - {id})
    ensures Apply(m, WaitEnds) ==
      if m.waiting == 0 then m
      else m.(waiting := m.waiting - 1, state := if m.state == NotSubscribed then Stopped else m.state)
  {
  }

  /** The last start or stop among the inputs was a start. */
  predicate LastIsStart(inputs: seq<Input>) {
    exists k :: 0 <= k < |inputs| && inputs[k].ServiceStarted?
      && forall j :: k < j < |inputs| ==> !inputs[j].ServiceStopped?
  }

  lemma LastIsStartStep(inputs: seq<Input>)
    requires inputs != []
    ensures var n := |inputs| - 1;
      LastIsStart(inputs) <==>
        inputs[n].ServiceStarted? || (LastIsStart(inputs[..n]) && !inputs[n].ServiceStopped?)
  {
    var n := |inputs| - 1;
    if LastIsStart(inputs) {
      var k :| 0 <= k < |inputs| && inputs[k].ServiceStarted?
        && forall j :: k < j < |inputs| ==> !inputs[j].ServiceStopped?;
      if k < n {
        assert inputs[..n][k].ServiceStarted?;
      }
    }
    if LastIsStart(inputs[..n]) && !inputs[n].ServiceStopped? {
      var k :| 0 <= k < n && inputs[..n][k].ServiceStarted?
        && forall j :: k < j < n ==> !inputs[..n][j].ServiceStopped?;
      forall j | k < j < |inputs| ensures !inputs[j].ServiceStopped? {
        if j < n {
          assert inputs[j] == inputs[..n][j];
        }
      }
      assert inputs[k].ServiceStarted?;
    }
  }

  /** Over every run the service counts as started if and only if the last start or stop was a start. */
  lemma {:induction false} UpExact(inputs: seq<Input>)
    ensures Run(inputs).state == Started <==> LastIsStart(inputs)
  {
    if inputs != [] {
      var n := |inputs| - 1;
      UpExact(inputs[..n]);
      LastIsStartStep(inputs);
      UpStep(Run(inputs[..n]), inputs[n]);
    }
  }

  lemma UpStep(m: Manager, input: Input)
    ensures Apply(m, input).state == Started <==>
      input.ServiceStarted? || (m.state == Started && !input.ServiceStopped?)
  {
  }

  lemma RunOne(inputs: seq<Input>, input: Input) returns (longer: seq<Input>)
    requires AllAllowed(inputs) && Allowed(Run(inputs), input)
    ensures AllAllowed(longer) && Run(longer) == Apply(Run(inputs), input)
  {
    longer := inputs + [input];
    assert longer[..|inputs|] == inputs;
  }

  predicate UpWithRuns(m: Manager, id: ProfileId, n: nat) {
    m.state == Started && id in m.runs && m.runs[id] == n
  }

  /** A second start without a stop runs the started function of a registration again. */
  lemma NotifiedTwiceReachable(info: Info)
    requires info.hasStartedFunc
    ensures exists inputs :: AllAllowed(inputs) && UpWithRuns(Run(inputs), 1, 2)
  {
    var inputs := RunOne([], Register(1, info, true));
    assert Run(inputs) == Manager(1, map[1 := info], 1, NotSubscribed, map[1 := 0]);
    inputs := RunOne(inputs, ServiceStarted);
    assert Run(inputs) == Manager(1, map[1 := info], 1, Started, map[1 := 1]);
    inputs := RunOne(inputs, ServiceStarted);
  }

  /** A registration whose remote object cannot be found while the service is up is not notified at all. */
  lemma NeverNotifiedReachable(info: Info)
    requires info.hasStartedFunc
    ensures exists inputs :: AllAllowed(inputs) && UpWithRuns(Run(inputs), 1, 0)
  {
    var inputs := RunOne([], ServiceStarted);
    assert Run(inputs).registered == map[] && Run(inputs).lastId == 1;
    inputs := RunOne(inputs, Register(1, info, false));
  }

  // ---------- The object ----------

  class NearlinkSaManager {
    var profileId: int
    var profileIdFuncMap: map<ProfileId, Info>
    var serviceState: ServiceState
    ghost var waiting: nat
    ghost var runs: map<ProfileId, nat>

    ghost predicate Valid()
      reads this
    {
      1 <= profileId < INT32_MAX
    }

    ghost function State(): Manager
      requires Valid()
      reads this
    {
      Manager(profileId, profileIdFuncMap, waiting, serviceState, runs)
    }

    constructor ()
      ensures Valid() && State() == INITIAL
    {
      profileId, profileIdFuncMap, serviceState := INITIAL_ID, map[], NotSubscribed;
      waiting, runs := 0, map[];
    }

    /** Moves the counter to the first unused id; some id must be free for the search to end. */
    method AllocateProfileId() returns (id: ProfileId)
      requires Valid() && SomeIdFree(profileIdFuncMap.Keys)
      modifies this`profileId
      ensures Valid() && profileId == id && Allocates(old(profileId), profileIdFuncMap.Keys, id)
    {
      ghost var start: ProfileId := profileId;
      ghost var free: ProfileId :| free !in profileIdFuncMap;
      while profileId in profileIdFuncMap
        invariant 1 <= profileId < INT32_MAX
        invariant Distance(start, profileId) + Distance(profileId, free) == Distance(start, free)
        invariant forall n: ProfileId :: Distance(start, n) < Distance(start, profileId) ==> n in profileIdFuncMap
        decreases Distance(profileId, free)
      {
        ghost var was: ProfileId := profileId;
        DistanceStep(was, free);
        profileId := profileId + 1;
        if profileId == INT32_MAX {
          profileId := INITIAL_ID;
        }
      }
      id := profileId;
    }

    /** RegisterFunc up to its wait. */
    method RegisterFunc(info: Info, remoteFound: bool, sleAvailable: bool) returns (id: ProfileId, toldOn: bool)
      requires Valid() && SomeIdFree(profileIdFuncMap.Keys)
      modifies this
      ensures Valid() && old(Allowed(State(), Register(id, info, remoteFound)))
      ensures State() == old(Apply(State(), Register(id, info, remoteFound)))
      ensures id !in old(profileIdFuncMap)
      ensures toldOn <==> old(serviceState) == Started && remoteFound && info.hasStateOnFunc && sleAvailable
    {
      toldOn := false;
      id := AllocateProfileId();
      profileIdFuncMap := profileIdFuncMap[id := info];
      runs := runs[id := 0];
      if serviceState == NotSubscribed {
        waiting := waiting + 1;
      } else if serviceState == Started {
        if !remoteFound {
          return;
        }
        if info.hasStartedFunc {
          runs := runs[id := 1];
        }
        toldOn := info.hasStateOnFunc && sleAvailable;
      }
    }

    /** Iterates over the registrations and runs each started function. */
    method RunStartedFuncs()
      requires runs.Keys == profileIdFuncMap.Keys
      modifies this`runs
      ensures runs.Keys == profileIdFuncMap.Keys
      ensures forall id :: id in profileIdFuncMap ==> runs[id] == old(runs)[id] + Once(profileIdFuncMap[id])
    {
      var todo := profileIdFuncMap.Keys;
      while todo != {}
        invariant todo <= profileIdFuncMap.Keys && runs.Keys == profileIdFuncMap.Keys
        invariant forall id :: id in todo ==> runs[id] == old(runs)[id]
        invariant forall id :: id in profileIdFuncMap && id !in todo ==>
          runs[id] == old(runs)[id] + Once(profileIdFuncMap[id])
        decreases |todo|
      {
        var id :| id in todo;
        todo := todo - {id};
        if profileIdFuncMap[id].hasStartedFunc {
          runs := runs[id := runs[id] + 1];
        }
      }
    }

    method OnServiceStarted()
      requires Valid() && Consistent(State())
      modifies this`serviceState, this`runs
      ensures Valid() && State() == old(Apply(State(), ServiceStarted))
    {
      ghost var next := Apply(State(), ServiceStarted);
      runs := if serviceState == Started then runs else map id | id in profileIdFuncMap :: 0;
      RunStartedFuncs();
      serviceState := Started;
      assert runs == next.runs;
    }

    method DeregisterFunc(id: ProfileId)
      requires Valid()
      modifies this`profileIdFuncMap, this`runs
      ensures Valid() && State() == old(Apply(State(), Deregister(id)))
    {
      profileIdFuncMap := profileIdFuncMap - {id};
      runs := runs - {id};
    }

    method OnServiceStopped()
      requires Valid()
      modifies this`serviceState
      ensures Valid() && State() == old(Apply(State(), ServiceStopped))
    {
      serviceState := Stopped;
    }

    /**
     The end of a RegisterFunc's wait, whether or not its id is still registered: without an event in
     time the service counts as stopped.
     */
    method WaitEnded()
      requires Valid() && waiting > 0
      modifies this`serviceState, this`waiting
      ensures Valid() && State() == old(Apply(State(), WaitEnds))
    {
      waiting := waiting - 1;
      if serviceState == NotSubscribed {
        serviceState := Stopped;
      }
    }
  }
}
