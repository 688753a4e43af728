/**
 The nearlink switch scheduler: one enable/disable action at a time, later requests cached, the
 cache replayed through a task queue when an action finishes, and a timeout task per action.

 Each entry point runs under one mutex and is one step here. The finish step is the code as
 written, including its second erase; see IntendedChoose for the step its comments describe.
 */
module SwitchModule {
  import opened Bytes

  datatype Event =
    | EnableNearlink | DisableNearlink | DisableNearlinkToOff | EnableNearlinkToHalf
    | NearlinkOn | NearlinkOff | NearlinkHalf
    | DisableToHalfResponse | DisableToOffResponse
    | NoneEvent

  datatype DisableStatus = StandingBy | DisablingToHalf | DisablingToOff

  /** What a switch action returns: success, "already in that state", or a hard error. */
  datatype ActionResult = ActionOk | ActionInvalid | ActionError

  // The cached requests that make sense once nearlink is on, off, or half on.
  const AFTER_ON: set<Event> := {DisableNearlink, DisableNearlinkToOff}
  const AFTER_OFF: set<Event> := {EnableNearlink, EnableNearlinkToHalf}
  const AFTER_HALF: set<Event> := {EnableNearlink, DisableNearlinkToOff}

  const REQUESTS: set<Event> := {EnableNearlink, DisableNearlink, DisableNearlinkToOff, EnableNearlinkToHalf}

  /**
   The module's fields, the tasks it has put on its queue, and what happened to each request.
   timers are the armed timeout tasks; timerHandle is the handle the module remembers.
   */
  datatype Switch = Switch(
    processing: bool,
    disableStatus: DisableStatus,
    current: Event,
    cache: seq<Event>,
    timerHandle: nat,
    timers: set<nat>,
    replays: seq<Event>,
    requested: multiset<Event>,
    started: multiset<Event>,
    dropped: multiset<Event>,
    faulted: bool)

  const INITIAL: Switch :=
    Switch(false, StandingBy, NoneEvent, [], 0, {}, [], multiset{}, multiset{}, multiset{}, false)

  datatype Input =
    | Call(event: Event, result: ActionResult)  // ProcessNearlinkSwitchEvent from outside
    | Replay(result: ActionResult)              // the oldest replay task runs
    | Timeout(handle: nat)                      // a timeout task fires

  // ---------- Steps ----------

  /** The events after the last occurrence of e. */
  function AfterLast(s: seq<Event>, e: Event): (t: seq<Event>)
    ensures |t| <= |s|
  {
    if e in s then AfterLast(s[1..], e) else s
  }

  lemma {:induction false} AfterLastExact(s: seq<Event>, e: Event)
    ensures var t := AfterLast(s, e);
      e !in t && t == s[|s| - |t|..] && (|t| < |s| ==> s[|s| - |t| - 1] == e)
  {
    if e in s {
      var r, t := s[1..], AfterLast(s[1..], e);
      AfterLastExact(r, e);
      AfterLastOne(s, r, t, e);
    }
  }

  lemma AfterLastOne(s: seq<Event>, r: seq<Event>, t: seq<Event>, e: Event)
    requires s != [] && r == s[1..] && e in s && e !in t
    requires |t| <= |r| && t == r[|r| - |t|..] && (|t| < |r| ==> r[|r| - |t| - 1] == e)
    ensures t == s[|s| - |t|..] && s[|s| - |t| - 1] == e
  {
    assert s == [s[0]] + r;
  }

  /** The position of the first event of s that is expected, or |s|. */
  function FirstExpected(s: seq<Event>, expected: set<Event>): (k: nat)
    ensures k <= |s|
  {
    if s == [] || s[0] in expected then 0 else 1 + FirstExpected(s[1..], expected)
  }

  lemma {:induction false} FirstExpectedExact(s: seq<Event>, expected: set<Event>)
    ensures var k := FirstExpected(s, expected);
      && (forall j :: 0 <= j < k ==> s[j] !in expected)
      && (k < |s| ==> s[k] in expected)
  {
    if s != [] && s[0] !in expected {
      FirstExpectedExact(s[1..], expected);
      forall j | 0 <= j < FirstExpected(s, expected) ensures s[j] !in expected {
        if j > 0 {
          assert s[j] == s[1..][j - 1];
        }
      }
    }
  }

  /** cancel(taskTimeoutHandle_) after isNlSwitchProcessing_ = false. */
  function Idle(s: Switch): Switch {
    s.(processing := false, timers := s.timers - {s.timerHandle})
  }

  /** What a finish step does with the cache: the event it replays (if any), what stays, what goes. */
  datatype Pick = Pick(next: seq<Event>, rest: seq<Event>, gone: seq<Event>, undefined: bool)

  /**
   The cache work of ProcessNearlinkSwitchActionFinished. The erase at the end takes one event more
   than the helper already did when the chosen event is not the first, and has nothing to take when
   the chosen event is also the last: erasing from an empty vector is undefined.
   */
  function Choose(cache: seq<Event>, done: Event, expected: set<Event>): Pick {
    var kept := AfterLast(cache, done);
    Split(cache[..|cache| - |kept|], kept, FirstExpected(kept, expected))
  }

  function Split(dedup: seq<Event>, kept: seq<Event>, k: nat): Pick
    requires k <= |kept|
  {
    if k == |kept| then Pick([], [], dedup + kept, false)
    else if k == 0 then Pick([kept[0]], kept[1..], dedup, false)
    else if k + 1 == |kept| then Pick([], [], [], true)
    else Pick([kept[k]], kept[k + 2..], dedup + kept[..k] + [kept[k + 1]], false)
  }

  /** The module turns idle and takes the outcome of the cache work over. */
  function Resume(s: Switch, p: Pick): Switch {
    Idle(s).(cache := p.rest, replays := s.replays + p.next,
             dropped := s.dropped + multiset(p.gone), faulted := p.undefined)
  }

  /** ProcessNearlinkSwitchActionFinished. */
  function Finish(s: Switch, done: Event, expected: set<Event>): Switch {
    Resume(s, Choose(s.cache, done, expected))
  }

  /** An action starts: its timeout task is armed and its handle remembered. */
  function Begin(s: Switch, e: Event): Switch {
    var handle := s.timerHandle + 1;
    s.(current := e, processing := true, timerHandle := handle, timers := s.timers + {handle},
       started := s.started + multiset{e})
  }

  /** ProcessNearlinkSwitchAction. */
  function Act(s: Switch, e: Event, result: ActionResult): Switch {
    if s.processing then s.(current := e, cache := s.cache + [e])
    else
      match result
      case ActionOk => Begin(s, e)
      case ActionError => Idle(Begin(s, e))
      case ActionInvalid => Finish(Idle(Begin(s, e)), e, REQUESTS)
  }

  /** The action a state change completes and the cached requests that may follow it. */
  function Completion(e: Event, status: DisableStatus): Option<(Event, set<Event>)> {
    match e
    case NearlinkOn => Some((EnableNearlink, AFTER_ON))
    case NearlinkOff =>
      (match status
       case StandingBy => Some((DisableNearlinkToOff, AFTER_OFF))
       case DisablingToOff => Some((DisableNearlink, AFTER_OFF))
       case DisablingToHalf => None)
    case NearlinkHalf =>
      var done := if status == DisablingToHalf then DisableNearlink else EnableNearlinkToHalf;
      Some((done, AFTER_HALF))
    case _ => None
  }

  function NextStatus(e: Event, status: DisableStatus): DisableStatus {
    match e
    case NearlinkOff => if status == DisablingToOff then StandingBy else status
    case NearlinkHalf => if status == DisablingToHalf then StandingBy else status
    case DisableToHalfResponse => DisablingToHalf
    case DisableToOffResponse => DisablingToOff
    case _ => status
  }

  function ProcessEvent(s: Switch, e: Event, result: ActionResult): Switch {
    if e in REQUESTS then Act(s, e, result)
    else
      var t := s.(disableStatus := NextStatus(e, s.disableStatus));
      match Completion(e, s.disableStatus)
      case None => t
      case Some((done, expected)) => Finish(t, done, expected)
  }

  function Apply(s: Switch, input: Input): Switch {
    if s.faulted then s
    else
      match input
      case Call(e, result) =>
        var s0 := if e in REQUESTS then s.(requested := s.requested + multiset{e}) else s;
        ProcessEvent(s0, e, result)
      case Replay(result) =>
        if s.replays == [] then s
        else ProcessEvent(s.(replays := s.replays[1..]), s.replays[0], result)
      case Timeout(h) =>
        if h !in s.timers then s
        else s.(timers := s.timers - {h}, processing := false, cache := [],
                dropped := s.dropped + multiset(s.cache))
  }

  function Run(s: Switch, inputs: seq<Input>): Switch {
    if inputs == [] then s else Apply(Run(s, inputs[..|inputs| - 1]), inputs[|inputs| - 1])
  }

  // ---------- Invariants of every run ----------

  /** The armed timeout tasks are exactly the current one while an action is being processed. */
  predicate TimerInv(s: Switch) {
    s.timers == if s.processing then {s.timerHandle} else {}
  }

  predicate OnlyRequests(events: seq<Event>) {
    forall e :: e in events ==> e in REQUESTS
  }

  /** Each request made is started, cached, queued for replay or dropped, kind by kind. */
  predicate Conserved(s: Switch) {
    !s.faulted ==>
      s.requested == s.started + multiset(s.cache) + multiset(s.replays) + s.dropped
  }

  predicate Inv(s: Switch) {
    TimerInv(s) && OnlyRequests(s.cache) && OnlyRequests(s.replays) && Conserved(s) && s.started <= s.requested
  }

  lemma SplitConserves(dedup: seq<Event>, kept: seq<Event>, k: nat)
    requires k <= |kept|
    ensures var p := Split(dedup, kept, k);
      !p.undefined ==> multiset(dedup + kept) == multiset(p.next) + multiset(p.rest) + multiset(p.gone)
  {
    if k == |kept| {
    } else if k == 0 {
      assert kept == [kept[0]] + kept[1..];
    } else if k + 1 < |kept| {
      assert kept == kept[..k] + [kept[k]] + [kept[k + 1]] + kept[k + 2..];
    }
  }

  /** A finish step neither invents nor loses an event: each one is replayed, kept or dropped. */
  lemma ChooseConserves(cache: seq<Event>, done: Event, expected: set<Event>)
    ensures var p := Choose(cache, done, expected);
      !p.undefined ==> multiset(cache) == multiset(p.next) + multiset(p.rest) + multiset(p.gone)
  {
    var kept := AfterLast(cache, done);
    AfterLastExact(cache, done);
    assert cache == cache[..|cache| - |kept|] + kept;
    SplitConserves(cache[..|cache| - |kept|], kept, FirstExpected(kept, expected));
  }

  /** Whatever a finish step replays or keeps was in the cache. */
  lemma ChooseFromCache(cache: seq<Event>, done: Event, expected: set<Event>)
    ensures var p := Choose(cache, done, expected);
      && (forall e :: e in p.rest ==> e in cache) && (forall e :: e in p.next ==> e in cache)
      && |p.next| + |p.rest| <= |cache|
  {
    AfterLastExact(cache, done);
  }

  /** An event taken from where it was counted, so that the balance is one short. */
  predicate Owing(s: Switch, e: Event) {
    !s.faulted ==>
      s.requested == s.started + multiset(s.cache) + multiset(s.replays) + s.dropped + multiset{e}
  }

  lemma FinishKeepsInv(s: Switch, done: Event, expected: set<Event>)
    requires Inv(s) && !s.faulted
    ensures Inv(Finish(s, done, expected))
  {
    var t, p := Finish(s, done, expected), Choose(s.cache, done, expected);
    ChooseFromCache(s.cache, done, expected);
    if !p.undefined {
      ChooseConserves(s.cache, done, expected);
      assert multiset(t.replays) == multiset(s.replays) + multiset(p.next);
    }
  }

  lemma BeginKeepsInv(s: Switch, e: Event)
    requires TimerInv(s) && OnlyRequests(s.cache) && OnlyRequests(s.replays) && Owing(s, e)
    requires !s.processing && !s.faulted
    ensures Inv(Begin(s, e)) && Inv(Idle(Begin(s, e)))
  {
  }

  lemma ActKeepsInv(s: Switch, e: Event, result: ActionResult)
    requires TimerInv(s) && OnlyRequests(s.cache) && OnlyRequests(s.replays) && Owing(s, e)
    requires e in REQUESTS && !s.faulted
    ensures Inv(Act(s, e, result))
  {
    if s.processing {
      assert multiset(s.cache + [e]) == multiset(s.cache) + multiset{e};
    } else {
      BeginKeepsInv(s, e);
      if result.ActionInvalid? {
        FinishKeepsInv(Idle(Begin(s, e)), e, REQUESTS);
      }
    }
  }

  lemma ReplayTaken(s: Switch)
    requires Inv(s) && s.replays != []
    ensures Owing(s.(replays := s.replays[1..]), s.replays[0])
    ensures OnlyRequests(s.replays[1..]) && s.replays[0] in REQUESTS
  {
    assert s.replays == [s.replays[0]] + s.replays[1..];
  }

  lemma EventKeepsInv(s: Switch, e: Event, result: ActionResult)
    requires Inv(s) && !s.faulted && e !in REQUESTS
    ensures Inv(ProcessEvent(s, e, result))
  {
    match Completion(e, s.disableStatus)
    case None =>
    case Some((done, expected)) =>
      FinishKeepsInv(s.(disableStatus := NextStatus(e, s.disableStatus)), done, expected);
  }

  lemma StepKeepsInv(s: Switch, input: Input)
    requires Inv(s)
    ensures Inv(Apply(s, input))
  {
    if !s.faulted {
      match input
      case Call(e, result) =>
        if e in REQUESTS {
          ActKeepsInv(s.(requested := s.requested + multiset{e}), e, result);
        } else {
          EventKeepsInv(s, e, result);
        }
      case Replay(result) =>
        if s.replays != [] {
          ReplayTaken(s);
          ActKeepsInv(s.(replays := s.replays[1..]), s.replays[0], result);
        }
      case Timeout(h) =>
    }
  }

  /** Every run keeps one timer per action, a cache of requests, and the balance of requests. */
  lemma {:induction false} RunKeepsInv(s: Switch, inputs: seq<Input>)
    requires Inv(s)
    ensures Inv(Run(s, inputs))
  {
    if inputs != [] {
      RunKeepsInv(s, inputs[..|inputs| - 1]);
      StepKeepsInv(Run(s, inputs[..|inputs| - 1]), inputs[|inputs| - 1]);
    }
  }

  /** In every reachable state a timeout task is armed exactly while an action is processed. */
  lemma TimerArmedWhileProcessing(inputs: seq<Input>)
    ensures var s := Run(INITIAL, inputs);
      (s.timers != {} <==> s.processing) && |s.timers| <= 1
  {
    RunKeepsInv(INITIAL, inputs);
  }

  /** Actions never outnumber requests, kind by kind. */
  lemma ActionsNeverExceedRequests(inputs: seq<Input>)
    ensures Run(INITIAL, inputs).started <= Run(INITIAL, inputs).requested
  {
    RunKeepsInv(INITIAL, inputs);
  }

  // ---------- What each event does ----------

  /**
   The end of an action, in terms of the cache alone. base is just behind the last completed event,
   and at is the first expected event from there on. That one is replayed. What is behind it stays,
   less one event more when it was not the first; when there is no such event the state is faulted.
   */
  predicate EndsAt(s: Switch, t: Switch, done: Event, expected: set<Event>, base: nat, at: nat)
    requires base <= at <= |s.cache|
  {
    && done !in s.cache[base..] && (base == 0 || s.cache[base - 1] == done)
    && (forall j :: base <= j < at ==> s.cache[j] !in expected)
    && if at == |s.cache| then !t.faulted && t.cache == [] && t.replays == s.replays
       else
         && s.cache[at] in expected
         && if base < at && at + 1 == |s.cache| then t.faulted
            else
              && !t.faulted && t.replays == s.replays + [s.cache[at]]
              && t.cache == s.cache[if base < at then at + 2 else at + 1..]
  }

  ghost predicate EndsAction(s: Switch, t: Switch, done: Event, expected: set<Event>) {
    && !t.processing && t.timers == {}
    && exists base: nat, at: nat :: base <= at <= |s.cache| && EndsAt(s, t, done, expected, base, at)
  }

  lemma KeptPart(cache: seq<Event>, done: Event) returns (base: nat)
    ensures base <= |cache| && AfterLast(cache, done) == cache[base..] && base == |cache| - |AfterLast(cache, done)|
    ensures done !in cache[base..] && (base == 0 || cache[base - 1] == done)
  {
    AfterLastExact(cache, done);
    base := |cache| - |AfterLast(cache, done)|;
  }

  lemma FirstPart(cache: seq<Event>, base: nat, expected: set<Event>) returns (k: nat)
    requires base <= |cache|
    ensures k == FirstExpected(cache[base..], expected) && base + k <= |cache|
    ensures forall j :: base <= j < base + k ==> cache[j] !in expected
    ensures k < |cache[base..]| ==> cache[base..][k] in expected
  {
    var kept := cache[base..];
    FirstExpectedExact(kept, expected);
    k := FirstExpected(kept, expected);
    forall j | base <= j < base + k ensures cache[j] !in expected {
      assert cache[j] == kept[j - base];
    }
  }

  lemma FinishEnds(s: Switch, done: Event, expected: set<Event>)
    requires TimerInv(s)
    ensures EndsAction(s, Finish(s, done, expected), done, expected)
  {
    var t := Finish(s, done, expected);
    var base := KeptPart(s.cache, done);
    var k := FirstPart(s.cache, base, expected);
    EndsAtKept(s, t, s.cache[base..], base, k, done, expected);
  }

  lemma EndsAtKept(s: Switch, t: Switch, kept: seq<Event>, base: nat, k: nat, done: Event, expected: set<Event>)
    requires base <= |s.cache| && kept == s.cache[base..] && k <= |kept| && done !in kept
    requires base == 0 || s.cache[base - 1] == done
    requires forall j :: base <= j < base + k ==> s.cache[j] !in expected
    requires k < |kept| ==> kept[k] in expected
    requires var p := Split(s.cache[..base], kept, k);
      t.cache == p.rest && t.replays == s.replays + p.next && t.faulted == p.undefined
    ensures EndsAt(s, t, done, expected, base, base + k)
  {
    assert s.replays + [] == s.replays;
    if k < |kept| {
      assert kept[k] == s.cache[base + k];
      assert kept[k + 1..] == s.cache[base + k + 1..];
      if k + 2 <= |kept| {
        assert kept[k + 2..] == s.cache[base + k + 2..];
      }
    }
  }

  /** NEARLINK_ON ends "enable", and "disable" or "disable to off" may follow. */
  lemma OnEnds(s: Switch, result: ActionResult)
    requires Inv(s) && !s.faulted
    ensures var t := Apply(s, Call(NearlinkOn, result));
      && EndsAction(s, t, EnableNearlink, {DisableNearlink, DisableNearlinkToOff})
      && t.disableStatus == s.disableStatus && t.started == s.started && t.requested == s.requested
  {
    CallEvent(s, NearlinkOn, result);
    FinishEnds(s, EnableNearlink, {DisableNearlink, DisableNearlinkToOff});
    assert s.(disableStatus := s.disableStatus) == s;
  }

  lemma CallEvent(s: Switch, e: Event, result: ActionResult)
    requires !s.faulted && e !in REQUESTS
    ensures Apply(s, Call(e, result)) == ProcessEvent(s, e, ActionOk)
  {
  }

  lemma EndsOtherwise(s: Switch, status: DisableStatus, t: Switch, done: Event, expected: set<Event>)
    requires TimerInv(s) && t == Finish(s.(disableStatus := status), done, expected)
    ensures EndsAction(s, t, done, expected)
    ensures t.disableStatus == status && t.started == s.started && t.requested == s.requested
  {
    var q := s.(disableStatus := status);
    FinishEnds(q, done, expected);
    EndsFrom(q, s, t, done, expected);
  }

  /**
   NEARLINK_OFF ends "disable to off", or "disable" on its way to off; it ends nothing on the way to
   half. "Enable" or "enable to half" may follow.
   */
  lemma OffEnds(s: Switch, result: ActionResult)
    requires Inv(s) && !s.faulted
    ensures var t := Apply(s, Call(NearlinkOff, result));
      match s.disableStatus
      case DisablingToHalf => t == s
      case StandingBy =>
        && EndsAction(s, t, DisableNearlinkToOff, {EnableNearlink, EnableNearlinkToHalf})
        && t.disableStatus == StandingBy && t.started == s.started && t.requested == s.requested
      case DisablingToOff =>
        && EndsAction(s, t, DisableNearlink, {EnableNearlink, EnableNearlinkToHalf})
        && t.disableStatus == StandingBy && t.started == s.started && t.requested == s.requested
  {
    var t, expected := Apply(s, Call(NearlinkOff, result)), {EnableNearlink, EnableNearlinkToHalf};
    CallEvent(s, NearlinkOff, result);
    OffSteps(s);
    match s.disableStatus
    case DisablingToHalf =>
    case StandingBy =>
      assert s.(disableStatus := StandingBy) == s;
      EndsOtherwise(s, StandingBy, t, DisableNearlinkToOff, expected);
    case DisablingToOff => EndsOtherwise(s, StandingBy, t, DisableNearlink, expected);
  }

  /** NEARLINK_HALF ends "disable" on its way to half, and "enable to half" otherwise. */
  lemma HalfEnds(s: Switch, result: ActionResult)
    requires Inv(s) && !s.faulted
    ensures var t := Apply(s, Call(NearlinkHalf, result));
      && EndsAction(s, t, if s.disableStatus == DisablingToHalf then DisableNearlink else EnableNearlinkToHalf,
                    {EnableNearlink, DisableNearlinkToOff})
      && t.disableStatus == (if s.disableStatus == DisablingToHalf then StandingBy else s.disableStatus)
      && t.started == s.started && t.requested == s.requested
  {
    var t, expected := Apply(s, Call(NearlinkHalf, result)), {EnableNearlink, DisableNearlinkToOff};
    CallEvent(s, NearlinkHalf, result);
    HalfSteps(s);
    if s.disableStatus == DisablingToHalf {
      EndsOtherwise(s, StandingBy, t, DisableNearlink, expected);
    } else {
      assert s.(disableStatus := s.disableStatus) == s;
      EndsOtherwise(s, s.disableStatus, t, EnableNearlinkToHalf, expected);
    }
  }

  /** The responses say which way a "disable" goes, and do nothing else. */
  lemma ResponsesSteer(s: Switch, result: ActionResult)
    requires !s.faulted
    ensures Apply(s, Call(DisableToHalfResponse, result)) == s.(disableStatus := DisablingToHalf)
    ensures Apply(s, Call(DisableToOffResponse, result)) == s.(disableStatus := DisablingToOff)
  {
    CallEvent(s, DisableToHalfResponse, result);
    CallEvent(s, DisableToOffResponse, result);
  }

  lemma NoneDoesNothing(s: Switch, result: ActionResult)
    ensures Apply(s, Call(NoneEvent, result)) == s
  {
    assert s.(disableStatus := s.disableStatus) == s;
  }

  /** After DISABLE_TO_OFF_RESPONSE, NEARLINK_OFF ends the "disable". */
  lemma DisableGoesOff(s: Switch, r1: ActionResult, r2: ActionResult)
    requires Inv(s) && !s.faulted
    ensures var t := Apply(Apply(s, Call(DisableToOffResponse, r1)), Call(NearlinkOff, r2));
      && EndsAction(s, t, DisableNearlink, {EnableNearlink, EnableNearlinkToHalf})
      && !t.processing && t.timers == {} && (t.faulted || DisableNearlink !in t.cache) && t.disableStatus == StandingBy
  {
    ResponsesSteer(s, r1);
    var q := s.(disableStatus := DisablingToOff);
    OffEnds(q, r2);
    Steered(s, q, Apply(q, Call(NearlinkOff, r2)), {EnableNearlink, EnableNearlinkToHalf});
  }

  /** After DISABLE_TO_HALF_RESPONSE, NEARLINK_OFF changes nothing more and NEARLINK_HALF ends the "disable". */
  lemma DisableGoesHalf(s: Switch, r1: ActionResult, r2: ActionResult, r3: ActionResult)
    requires Inv(s) && !s.faulted
    ensures var q := Apply(Apply(s, Call(DisableToHalfResponse, r1)), Call(NearlinkOff, r2));
      var t := Apply(q, Call(NearlinkHalf, r3));
      && q == s.(disableStatus := DisablingToHalf)
      && EndsAction(s, t, DisableNearlink, {EnableNearlink, DisableNearlinkToOff})
      && !t.processing && t.timers == {} && (t.faulted || DisableNearlink !in t.cache) && t.disableStatus == StandingBy
  {
    ResponsesSteer(s, r1);
    var q := s.(disableStatus := DisablingToHalf);
    OffEnds(q, r2);
    HalfEnds(q, r3);
    Steered(s, q, Apply(q, Call(NearlinkHalf, r3)), {EnableNearlink, DisableNearlinkToOff});
  }

  lemma Steered(s: Switch, q: Switch, t: Switch, expected: set<Event>)
    requires EndsAction(q, t, DisableNearlink, expected) && q.cache == s.cache && q.replays == s.replays
    ensures EndsAction(s, t, DisableNearlink, expected) && (t.faulted || DisableNearlink !in t.cache)
  {
    EndsFrom(q, s, t, DisableNearlink, expected);
    if !t.faulted {
      EndsWithout(s, t, DisableNearlink, expected);
    }
  }

  lemma EndsWithout(s: Switch, t: Switch, done: Event, expected: set<Event>)
    requires EndsAction(s, t, done, expected) && !t.faulted
    ensures done !in t.cache
  {
    var base: nat, at: nat :| base <= at <= |s.cache| && EndsAt(s, t, done, expected, base, at);
    if at < |s.cache| {
      NotBehind(s.cache, base, if base < at then at + 2 else at + 1, done);
    }
  }

  lemma NotBehind(cache: seq<Event>, base: nat, from: nat, e: Event)
    requires base <= from <= |cache| && e !in cache[base..]
    ensures e !in cache[from..]
  {
    assert cache[from..] == cache[base..][from - base..];
  }

  lemma EndsFrom(s: Switch, q: Switch, t: Switch, done: Event, expected: set<Event>)
    requires EndsAction(s, t, done, expected) && q.cache == s.cache && q.replays == s.replays
    ensures EndsAction(q, t, done, expected)
  {
    var base: nat, at: nat :| base <= at <= |s.cache| && EndsAt(s, t, done, expected, base, at);
    assert EndsAt(q, t, done, expected, base, at);
  }

  const EVERY_REQUEST: set<Event> := {EnableNearlink, DisableNearlink, DisableNearlinkToOff, EnableNearlinkToHalf}

  /**
   A request is cached behind the others while an action is processed. Otherwise its action starts,
   under a timer if it succeeds; a hard error leaves the cache alone, and "already in that state"
   ends the action at once with every request expected, so that the first one left is replayed.
   */
  ghost predicate AnswersRequest(s: Switch, t: Switch, e: Event, result: ActionResult) {
    && t.disableStatus == s.disableStatus && t.current == e && !t.faulted
    && if s.processing
       then t.processing && t.timers == s.timers && t.cache == s.cache + [e] && t.replays == s.replays
            && t.started == s.started
       else t.started == s.started + multiset{e} &&
            match result
            case ActionOk => t.processing && |t.timers| == 1 && t.cache == s.cache && t.replays == s.replays
            case ActionError => !t.processing && t.timers == {} && t.cache == s.cache && t.replays == s.replays
            case ActionInvalid => EndsAction(s, t, e, EVERY_REQUEST)
  }

  lemma ActAnswers(s: Switch, e: Event, result: ActionResult)
    requires TimerInv(s) && OnlyRequests(s.cache) && !s.faulted
    ensures AnswersRequest(s, Act(s, e, result), e, result) && Act(s, e, result).requested == s.requested
  {
    if !s.processing && result.ActionInvalid? {
      var q := Idle(Begin(s, e));
      FinishEnds(q, e, EVERY_REQUEST);
      InvalidNeverFaults(s.cache, e);
      EndsFrom(q, s, Finish(q, e, EVERY_REQUEST), e, EVERY_REQUEST);
    }
  }

  /** What a request does, called from outside. */
  lemma RequestStep(s: Switch, e: Event, result: ActionResult)
    requires Inv(s) && !s.faulted && e in EVERY_REQUEST
    ensures var t := Apply(s, Call(e, result));
      AnswersRequest(s, t, e, result) && t.requested == s.requested + multiset{e}
  {
    var q := s.(requested := s.requested + multiset{e});
    ActAnswers(q, e, result);
    AnswersFrom(q, s, Act(q, e, result), e, result);
  }

  lemma AnswersFrom(q: Switch, s: Switch, t: Switch, e: Event, result: ActionResult)
    requires AnswersRequest(q, t, e, result)
    requires q == s.(requested := q.requested)
    ensures AnswersRequest(s, t, e, result)
  {
    if !s.processing && result.ActionInvalid? {
      EndsFrom(q, s, t, e, EVERY_REQUEST);
    }
  }

  /** A replay takes the oldest queued request and does what that request does, but counts no new one. */
  lemma ReplayStep(s: Switch, result: ActionResult)
    requires Inv(s) && !s.faulted
    ensures s.replays == [] ==> Apply(s, Replay(result)) == s
    ensures s.replays != [] ==>
      var t := Apply(s, Replay(result));
      AnswersRequest(s.(replays := s.replays[1..]), t, s.replays[0], result) && t.requested == s.requested
  {
    if s.replays != [] {
      var e := s.replays[0];
      assert e in REQUESTS;
      ActAnswers(s.(replays := s.replays[1..]), e, result);
    }
  }

  /** A timeout ends the action and drops the cache; a task that is not armed does nothing. */
  lemma TimeoutStep(s: Switch, h: nat)
    requires Inv(s) && !s.faulted
    ensures var t := Apply(s, Timeout(h));
      if h !in s.timers then t == s
      else !t.processing && t.timers == {} && t.cache == [] && t.replays == s.replays
           && t.dropped == s.dropped + multiset(s.cache) && t.disableStatus == s.disableStatus && !t.faulted
  {
  }

  // ---------- Draining ----------

  predicate NoRequests(inputs: seq<Input>) {
    forall i :: 0 <= i < |inputs| && inputs[i].Call? ==> inputs[i].event !in REQUESTS
  }

  function Backlog(s: Switch): nat {
    |s.cache| + |s.replays|
  }

  /** A step that is not a request starts at most as many actions as it takes off the backlog. */
  lemma StepDrains(s: Switch, input: Input)
    requires input.Call? ==> input.event !in REQUESTS
    requires OnlyRequests(s.replays)
    ensures |Apply(s, input).started| + Backlog(Apply(s, input)) <= |s.started| + Backlog(s)
  {
    if !s.faulted {
      match input
      case Call(e, result) =>
        if Completion(e, s.disableStatus).Some? {
          var (done, expected) := Completion(e, s.disableStatus).value;
          ChooseFromCache(s.cache, done, expected);
        }
      case Replay(result) =>
        if s.replays != [] {
          ChooseFromCache(s.cache, s.replays[0], REQUESTS);
        }
      case Timeout(h) =>
    }
  }

  /** Once requests stop, at most |cache| + |replays| further actions are ever started. */
  lemma {:induction false} DrainBound(s: Switch, inputs: seq<Input>)
    requires Inv(s) && NoRequests(inputs)
    ensures |Run(s, inputs).started| + Backlog(Run(s, inputs)) <= |s.started| + Backlog(s)
  {
    if inputs != [] {
      var before := inputs[..|inputs| - 1];
      DrainBound(s, before);
      RunKeepsInv(s, before);
      StepDrains(Run(s, before), inputs[|inputs| - 1]);
    }
  }

  // ---------- Wake-up ----------

  /** An idle module with cached requests has a replay queued to pick them up. */
  predicate Awake(s: Switch) {
    !s.faulted && !s.processing && s.cache != [] ==> s.replays != []
  }

  /** The one step that can lose the wake-up: the last replay fails hard while requests are cached. */
  predicate LosesWakeUp(s: Switch, input: Input) {
    && !s.faulted && !s.processing && s.cache != []
    && |s.replays| == 1 && input == Replay(ActionError)
  }

  lemma FinishAwake(s: Switch, done: Event, expected: set<Event>)
    ensures Awake(Finish(s, done, expected))
  {
  }

  lemma ActAwake(s: Switch, e: Event, result: ActionResult)
    requires !s.faulted
    ensures Awake(Act(s, e, result)) <==>
      (s.processing || result != ActionError || s.cache == [] || s.replays != [])
  {
    if !s.processing && result.ActionInvalid? {
      FinishAwake(Idle(Begin(s, e)), e, REQUESTS);
    }
  }

  /** From an awake state, the step keeps the module awake unless it is exactly that step. */
  lemma WakeUpStep(s: Switch, input: Input)
    requires Inv(s) && Awake(s)
    ensures Awake(Apply(s, input)) <==> !LosesWakeUp(s, input)
  {
    if !s.faulted {
      match input
      case Call(e, result) =>
        if e in REQUESTS {
          ActAwake(s.(requested := s.requested + multiset{e}), e, result);
        } else if Completion(e, s.disableStatus).Some? {
          var (done, expected) := Completion(e, s.disableStatus).value;
          FinishAwake(s.(disableStatus := NextStatus(e, s.disableStatus)), done, expected);
        }
      case Replay(result) =>
        if s.replays != [] {
          ActAwake(s.(replays := s.replays[1..]), s.replays[0], result);
        }
      case Timeout(h) =>
    }
  }

  ghost predicate AlwaysAwake(inputs: seq<Input>) {
    Awake(Run(INITIAL, inputs)) && (inputs == [] || AlwaysAwake(inputs[..|inputs| - 1]))
  }

  ghost predicate NeverLosesWakeUp(inputs: seq<Input>) {
    inputs == [] ||
    (&& NeverLosesWakeUp(inputs[..|inputs| - 1])
     && !LosesWakeUp(Run(INITIAL, inputs[..|inputs| - 1]), inputs[|inputs| - 1]))
  }

  /**
   Over every run: an idle module with a cache always has a replay queued if and only if the last
   queued replay never fails hard while requests are cached.
   */
  lemma {:induction false} WakeUpRun(inputs: seq<Input>)
    ensures AlwaysAwake(inputs) <==> NeverLosesWakeUp(inputs)
  {
    if inputs != [] {
      var n := |inputs| - 1;
      RunKeepsInv(INITIAL, inputs[..n]);
      WakeUpRun(inputs[..n]);
      if AlwaysAwake(inputs[..n]) {
        WakeUpStep(Run(INITIAL, inputs[..n]), inputs[n]);
      }
    }
  }

  predicate NoReplayFails(inputs: seq<Input>) {
    Replay(ActionError) !in inputs
  }

  /** No lost wake-up in any run in which no replayed action returns a hard error. */
  lemma {:induction false} NoLostWakeUp(inputs: seq<Input>)
    requires NoReplayFails(inputs)
    ensures Awake(Run(INITIAL, inputs))
  {
    if inputs != [] {
      var before := inputs[..|inputs| - 1];
      NoLostWakeUp(before);
      RunKeepsInv(INITIAL, before);
      assert inputs[|inputs| - 1] in inputs;
      WakeUpStep(Run(INITIAL, before), inputs[|inputs| - 1]);
    }
  }

  /** A reachable state stays reachable after one more input. */
  lemma Extend(inputs: seq<Input>, input: Input) returns (longer: seq<Input>)
    ensures Run(INITIAL, longer) == Apply(Run(INITIAL, inputs), input)
  {
    longer := inputs + [input];
    assert longer[..|longer| - 1] == inputs;
  }

  predicate Caching(s: Switch, cache: seq<Event>) {
    s.processing && s.cache == cache && s.replays == [] && s.disableStatus == StandingBy && !s.faulted
  }

  lemma OneMoreCached(s: Switch, cache: seq<Event>, e: Event)
    requires Caching(s, cache) && e in REQUESTS
    ensures Caching(Apply(s, Call(e, ActionOk)), cache + [e])
  {
  }

  /** After enabling, two more requests are cached. */
  lemma TwoCached(a: Event, b: Event) returns (inputs: seq<Input>)
    requires a in REQUESTS && b in REQUESTS
    ensures Caching(Run(INITIAL, inputs), [a, b])
  {
    inputs := Extend([], Call(EnableNearlink, ActionOk));
    assert Caching(Run(INITIAL, inputs), []);
    OneMoreCached(Run(INITIAL, inputs), [], a);
    inputs := Extend(inputs, Call(a, ActionOk));
    OneMoreCached(Run(INITIAL, inputs), [a], b);
    inputs := Extend(inputs, Call(b, ActionOk));
    assert [] + [a] == [a] && [a] + [b] == [a, b];
  }

  lemma ChooseOfTwo(a: Event, b: Event, done: Event, expected: set<Event>)
    requires a != done && b != done
    ensures a in expected ==> Choose([a, b], done, expected) == Pick([a], [b], [], false)
    ensures a !in expected && b in expected ==> Choose([a, b], done, expected).undefined
  {
    AfterLastExact([a, b], done);
    FirstExpectedExact([a, b], expected);
  }

  /** NEARLINK_ON with cached requests. */
  lemma OnWith(s: Switch, cache: seq<Event>)
    requires Caching(s, cache)
    ensures Apply(s, Call(NearlinkOn, ActionOk)) == Resume(s, Choose(cache, EnableNearlink, AFTER_ON))
  {
    assert s.(disableStatus := StandingBy) == s;
  }

  /** The exception is real: a failing replay leaves a cached request that nothing will pick up. */
  lemma WakeUpCanBeLost()
    ensures exists inputs :: !Awake(Run(INITIAL, inputs))
  {
    var a, b := DisableNearlink, EnableNearlinkToHalf;
    var inputs := TwoCached(a, b);
    OnWith(Run(INITIAL, inputs), [a, b]);
    ChooseOfTwo(a, b, EnableNearlink, AFTER_ON);
    inputs := Extend(inputs, Call(NearlinkOn, ActionOk));
    var s := Run(INITIAL, inputs);
    assert s.replays == [a] && s.cache == [b];
    inputs := Extend(inputs, Replay(ActionError));
    ActAwake(s.(replays := s.replays[1..]), a, ActionError);
  }

  // ---------- The finish step, as intended and as written ----------

  /** The cache work of the comments: drop everything up to and including the chosen event. */
  function IntendedChoose(cache: seq<Event>, done: Event, expected: set<Event>): Pick {
    var kept := AfterLast(cache, done);
    IntendedSplit(cache[..|cache| - |kept|], kept, FirstExpected(kept, expected))
  }

  function IntendedSplit(dedup: seq<Event>, kept: seq<Event>, k: nat): Pick
    requires k <= |kept|
  {
    if k == |kept| then Pick([], [], dedup + kept, false)
    else Pick([kept[k]], kept[k + 1..], dedup + kept[..k], false)
  }

  lemma SplitMeetsIntended(dedup: seq<Event>, kept: seq<Event>, k: nat)
    requires k <= |kept|
    ensures Split(dedup, kept, k) == IntendedSplit(dedup, kept, k) <==> k == 0 || k == |kept|
  {
    if k == 0 && k < |kept| {
      assert dedup + kept[..0] == dedup;
    } else if 0 < k < |kept| {
      var p, q := Split(dedup, kept, k), IntendedSplit(dedup, kept, k);
      assert p.undefined || |p.rest| + 1 == |q.rest|;
    }
  }

  /** The position, among the deduplicated requests, of the one a finish step would replay. */
  function ChosenAt(cache: seq<Event>, done: Event, expected: set<Event>): nat {
    FirstExpected(AfterLast(cache, done), expected)
  }

  /**
   The code does what its comments say exactly when it finds nothing to replay or finds it at the
   front of the deduplicated cache.
   */
  lemma WrittenMeetsIntended(cache: seq<Event>, done: Event, expected: set<Event>)
    ensures Choose(cache, done, expected) == IntendedChoose(cache, done, expected) <==>
      (ChosenAt(cache, done, expected) == 0 || ChosenAt(cache, done, expected) == |AfterLast(cache, done)|)
  {
    var kept := AfterLast(cache, done);
    SplitMeetsIntended(cache[..|cache| - |kept|], kept, FirstExpected(kept, expected));
  }

  /**
   At position k > 0 the code removes k + 2 events and replays the right one, so the request behind
   the replayed one is lost; when there is none behind it, the erase is undefined.
   */
  lemma WrittenRemovesOneMore(cache: seq<Event>, done: Event, expected: set<Event>)
    requires 0 < ChosenAt(cache, done, expected) < |AfterLast(cache, done)|
    ensures var kept, k := AfterLast(cache, done), ChosenAt(cache, done, expected);
      var p, q := Choose(cache, done, expected), IntendedChoose(cache, done, expected);
      && (p.undefined <==> k + 1 == |kept|)
      && (!p.undefined ==> p.next == q.next && |p.rest| == |kept| - (k + 2) && q.rest == [kept[k + 1]] + p.rest)
  {
    var kept, k := AfterLast(cache, done), ChosenAt(cache, done, expected);
    if k + 1 < |kept| {
      assert kept[k + 1..] == [kept[k + 1]] + kept[k + 2..];
    }
  }

  /**
   What any finish step guarantees: it replays the first expected event behind the last occurrence
   of the completed one, never the completed one itself, and leaves no copy of the completed one.
   */
  lemma FinishExact(cache: seq<Event>, done: Event, expected: set<Event>)
    ensures var p, kept := Choose(cache, done, expected), AfterLast(cache, done);
      && done !in p.rest && done !in p.next && |p.next| <= 1
      && (p.next != [] ==>
            exists k :: 0 <= k < |kept| && p.next == [kept[k]] && kept[k] in expected
                        && forall j :: 0 <= j < k ==> kept[j] !in expected)
      && (p.next == [] ==> p.rest == [] && (p.undefined || forall e :: e in kept ==> e !in expected))
  {
    var kept := AfterLast(cache, done);
    AfterLastExact(cache, done);
    FirstExpectedExact(kept, expected);
    FinishExactSplit(cache[..|cache| - |kept|], kept, FirstExpected(kept, expected), done, expected);
  }

  lemma FinishExactSplit(dedup: seq<Event>, kept: seq<Event>, k: nat, done: Event, expected: set<Event>)
    requires k <= |kept| && done !in kept
    requires forall j :: 0 <= j < k ==> kept[j] !in expected
    requires k < |kept| ==> kept[k] in expected
    ensures var p := Split(dedup, kept, k);
      && done !in p.rest && done !in p.next && |p.next| <= 1
      && (p.next != [] ==>
            exists k :: 0 <= k < |kept| && p.next == [kept[k]] && kept[k] in expected
                        && forall j :: 0 <= j < k ==> kept[j] !in expected)
      && (p.next == [] ==> p.rest == [] && (p.undefined || forall e :: e in kept ==> e !in expected))
  {
  }

  /** The undefined erase is reachable: enable, then cache "to half" and "disable", then NEARLINK_ON. */
  lemma UndefinedEraseReachable()
    ensures exists inputs :: Run(INITIAL, inputs).faulted
  {
    var a, b := EnableNearlinkToHalf, DisableNearlink;
    var inputs := TwoCached(a, b);
    OnWith(Run(INITIAL, inputs), [a, b]);
    ChooseOfTwo(a, b, EnableNearlink, AFTER_ON);
    inputs := Extend(inputs, Call(NearlinkOn, ActionOk));
  }

  lemma ChooseOfThree(a: Event, b: Event, c: Event, done: Event, expected: set<Event>)
    requires done !in {a, b, c} && a !in expected && b in expected
    ensures Choose([a, b, c], done, expected) == Pick([b], [], [a, c], false)
    ensures IntendedChoose([a, b, c], done, expected) == Pick([b], [c], [a], false)
  {
    var cache := [a, b, c];
    AfterLastExact(cache, done);
    FirstExpectedExact(cache, expected);
    assert AfterLast(cache, done) == cache && FirstExpected(cache, expected) == 1;
    assert cache[..0] == [] && cache[..1] == [a] && cache[2..] == [c] && cache[3..] == [];
  }

  lemma ThreeCached(a: Event, b: Event, c: Event) returns (inputs: seq<Input>)
    requires a in REQUESTS && b in REQUESTS && c in REQUESTS
    ensures Caching(Run(INITIAL, inputs), [a, b, c])
  {
    inputs := TwoCached(a, b);
    OneMoreCached(Run(INITIAL, inputs), [a, b], c);
    inputs := Extend(inputs, Call(c, ActionOk));
    assert [a, b] + [c] == [a, b, c];
  }

  /** NEARLINK_ON replays the second of three requests and drops the third with the first. */
  predicate LosesThird(s: Switch, b: Event, c: Event) {
    !s.faulted && s.replays == [b] && s.cache == [] && c in s.dropped
  }

  lemma ThirdLost(s: Switch, a: Event, b: Event, c: Event)
    requires s.replays == []
    ensures LosesThird(Resume(s, Pick([b], [], [a, c], false)), b, c)
  {
    assert c in [a, c];
    assert [] + [b] == [b];
  }

  /** A request is lost without the undefined erase: "disable to off", cached behind the replayed "disable". */
  lemma RequestLostReachable()
    ensures exists inputs :: LosesThird(Run(INITIAL, inputs), DisableNearlink, DisableNearlinkToOff)
  {
    var a, b, c := EnableNearlinkToHalf, DisableNearlink, DisableNearlinkToOff;
    var inputs := ThreeCached(a, b, c);
    var s := Run(INITIAL, inputs);
    OnWith(s, [a, b, c]);
    ChooseOfThree(a, b, c, EnableNearlink, AFTER_ON);
    ThirdLost(s, a, b, c);
    inputs := Extend(inputs, Call(NearlinkOn, ActionOk));
  }

  /**
   The exact inputs that reach the undefined erase: a completion that picks the last of several
   deduplicated requests. An action that reports "already in that state" never does.
   */
  lemma FaultExact(s: Switch, input: Input)
    requires Inv(s) && !s.faulted
    ensures Apply(s, input).faulted <==>
      && input.Call? && Completion(input.event, s.disableStatus).Some?
      && var (done, expected) := Completion(input.event, s.disableStatus).value;
         0 < ChosenAt(s.cache, done, expected) == |AfterLast(s.cache, done)| - 1
  {
    match input
    case Call(e, result) => CallFaults(s, e, result);
    case Replay(result) =>
      if s.replays != [] {
        assert s.replays[0] in REQUESTS;
        ActNeverFaults(s.(replays := s.replays[1..]), s.replays[0], result);
      }
    case Timeout(h) =>
  }

  lemma CallFaults(s: Switch, e: Event, result: ActionResult)
    requires OnlyRequests(s.cache) && !s.faulted
    ensures Apply(s, Call(e, result)).faulted <==>
      && Completion(e, s.disableStatus).Some?
      && var (done, expected) := Completion(e, s.disableStatus).value;
         0 < ChosenAt(s.cache, done, expected) == |AfterLast(s.cache, done)| - 1
  {
    if e in REQUESTS {
      ActNeverFaults(s.(requested := s.requested + multiset{e}), e, result);
      assert Completion(e, s.disableStatus).None?;
    } else {
      CallEvent(s, e, result);
      EventFaults(s, e);
    }
  }

  lemma EventFaults(s: Switch, e: Event)
    requires e !in REQUESTS && !s.faulted
    ensures ProcessEvent(s, e, ActionOk).faulted <==>
      && Completion(e, s.disableStatus).Some?
      && var (done, expected) := Completion(e, s.disableStatus).value;
         0 < ChosenAt(s.cache, done, expected) == |AfterLast(s.cache, done)| - 1
  {
  }

  lemma ActNeverFaults(s: Switch, e: Event, result: ActionResult)
    requires !s.faulted && OnlyRequests(s.cache)
    ensures !Act(s, e, result).faulted
  {
    InvalidNeverFaults(s.cache, e);
  }

  lemma InvalidNeverFaults(cache: seq<Event>, done: Event)
    requires OnlyRequests(cache)
    ensures !Choose(cache, done, REQUESTS).undefined
  {
    var kept := AfterLast(cache, done);
    AfterLastExact(cache, done);
    FirstExpectedExact(kept, REQUESTS);
    if kept != [] {
      assert kept[0] in cache;
    }
  }

  /** The three parts of a finish step, one after the other. */
  lemma Resumed(s: Switch, p: Pick, t: Switch)
    requires t == Idle(s).(cache := p.rest)
      .(replays := s.replays + p.next, dropped := s.dropped + multiset(p.gone), faulted := p.undefined)
    ensures t == Resume(s, p)
  {
  }

  lemma OffIgnored(s: Switch)
    requires s.disableStatus == DisablingToHalf
    ensures ProcessEvent(s, NearlinkOff, ActionOk) == s
  {
    assert s.(disableStatus := DisablingToHalf) == s;
  }

  lemma OffStandingBy(s: Switch)
    requires s.disableStatus == StandingBy
    ensures ProcessEvent(s, NearlinkOff, ActionOk) == Finish(s, DisableNearlinkToOff, AFTER_OFF)
  {
    assert s.(disableStatus := StandingBy) == s;
  }

  lemma OffSteps(s: Switch)
    ensures var t := ProcessEvent(s, NearlinkOff, ActionOk);
      match s.disableStatus
      case StandingBy => t == Finish(s, DisableNearlinkToOff, AFTER_OFF)
      case DisablingToOff => t == Finish(s.(disableStatus := StandingBy), DisableNearlink, AFTER_OFF)
      case DisablingToHalf => t == s
  {
    match s.disableStatus
    case StandingBy => OffStandingBy(s);
    case DisablingToOff =>
    case DisablingToHalf => OffIgnored(s);
  }

  lemma HalfSteps(s: Switch)
    ensures var t := ProcessEvent(s, NearlinkHalf, ActionOk);
      if s.disableStatus == DisablingToHalf
      then t == Finish(s.(disableStatus := StandingBy), DisableNearlink, AFTER_HALF)
      else t == Finish(s, EnableNearlinkToHalf, AFTER_HALF)
  {
    assert s.(disableStatus := s.disableStatus) == s;
  }

  lemma AfterLastIs(s: seq<Event>, base: nat, e: Event)
    requires base <= |s| && e !in s[base..]
    requires base == 0 || s[base - 1] == e
    ensures AfterLast(s, e) == s[base..]
  {
    AfterLastExact(s, e);
  }

  // ---------- The object ----------

  class NearlinkSwitchModule {
    var isNlSwitchProcessing: bool
    var disableStatus: DisableStatus
    var currentSwitchEvent: Event
    var cachedEventVec: seq<Event>
    var taskTimeoutHandle: nat
    ghost var timers: set<nat>
    ghost var replays: seq<Event>
    ghost var requested: multiset<Event>
    ghost var started: multiset<Event>
    ghost var dropped: multiset<Event>
    ghost var faulted: bool

    ghost function State(): Switch
      reads this
    {
      Switch(isNlSwitchProcessing, disableStatus, currentSwitchEvent, cachedEventVec, taskTimeoutHandle,
             timers, replays, requested, started, dropped, faulted)
    }

    constructor ()
      ensures State() == INITIAL
    {
      isNlSwitchProcessing, disableStatus, currentSwitchEvent := false, StandingBy, NoneEvent;
      cachedEventVec, taskTimeoutHandle := [], 0;
      timers, replays, faulted := {}, [], false;
      requested, started, dropped := multiset{}, multiset{}, multiset{};
    }

    /** Erases the first ignoredCnt events and one more. */
    method RemoveIgnoredCachedEvent(ignoredCnt: nat)
      requires ignoredCnt < |cachedEventVec|
      modifies this`cachedEventVec
      ensures cachedEventVec == old(cachedEventVec)[ignoredCnt + 1..]
    {
      var ignoredEventCnt := if ignoredCnt > |cachedEventVec| then |cachedEventVec| else ignoredCnt;
      cachedEventVec := cachedEventVec[ignoredEventCnt + 1..];
    }

    /** Searches the cache from the back for curEvent and keeps what is behind it. */
    method DeduplicateCachedEvent(curEvent: Event)
      modifies this`cachedEventVec
      ensures cachedEventVec == AfterLast(old(cachedEventVec), curEvent)
    {
      var base := |cachedEventVec|;
      while base > 0 && cachedEventVec[base - 1] != curEvent
        invariant 0 <= base <= |cachedEventVec|
        invariant curEvent !in cachedEventVec[base..]
      {
        base := base - 1;
      }
      AfterLastIs(cachedEventVec, base, curEvent);
      if base > 0 {
        RemoveIgnoredCachedEvent(base - 1);
      }
    }

    /** std::find_if over the cache. */
    method FindExpected(expected: set<Event>) returns (k: nat)
      ensures k == FirstExpected(cachedEventVec, expected)
    {
      k := 0;
      assert cachedEventVec[0..] == cachedEventVec;
      while k < |cachedEventVec| && cachedEventVec[k] !in expected
        invariant k <= |cachedEventVec|
        invariant FirstExpected(cachedEventVec, expected) == k + FirstExpected(cachedEventVec[k..], expected)
      {
        assert cachedEventVec[k..][1..] == cachedEventVec[k + 1..];
        k := k + 1;
      }
    }

    /** Takes the next request off the cache; undefined tells that the last erase had nothing to erase. */
    method TakeNext(expected: set<Event>, done: Event) returns (next: seq<Event>, undefined: bool)
      modifies this`cachedEventVec
      ensures var p := old(Choose(cachedEventVec, done, expected));
        next == p.next && cachedEventVec == p.rest && undefined == p.undefined
    {
      DeduplicateCachedEvent(done);
      next, undefined := [], false;
      var it := FindExpected(expected);
      if it == |cachedEventVec| {
        cachedEventVec := [];
        return;
      }
      var event := cachedEventVec[it];
      if it != 0 {
        RemoveIgnoredCachedEvent(it);
      }
      if cachedEventVec == [] {
        undefined := true;
        return;
      }
      cachedEventVec := cachedEventVec[1..];
      next := [event];
    }

    /** Queues the replay and accounts for what left the cache. */
    method Queue(next: seq<Event>, ghost gone: seq<Event>, ghost undefined: bool)
      modifies this`replays, this`dropped, this`faulted
      ensures State() == old(State().(
        replays := replays + next, dropped := dropped + multiset(gone), faulted := undefined))
    {
      replays, faulted := replays + next, undefined;
      dropped := dropped + multiset(gone);
    }

    /** TakeNext leaves everything but the cache alone. */
    method TakeFromCache(expected: set<Event>, done: Event) returns (next: seq<Event>, undefined: bool)
      modifies this`cachedEventVec
      ensures var p := old(Choose(cachedEventVec, done, expected));
        next == p.next && undefined == p.undefined && State() == old(State()).(cache := p.rest)
    {
      next, undefined := TakeNext(expected, done);
    }

    method ProcessNearlinkSwitchActionFinished(curSwitchActionEvent: Event, expected: set<Event>)
      modifies this
      ensures State() == old(Finish(State(), curSwitchActionEvent, expected))
    {
      ghost var s, p := State(), Choose(cachedEventVec, curSwitchActionEvent, expected);
      StopAction();
      var next, undefined := TakeFromCache(expected, curSwitchActionEvent);
      Queue(next, p.gone, undefined);
      Resumed(s, p, State());
    }

    /** Arms the timeout task and invokes the action. */
    method StartAction(switchEvent: Event)
      modifies this
      ensures State() == old(Begin(State(), switchEvent))
    {
      currentSwitchEvent := switchEvent;
      taskTimeoutHandle := taskTimeoutHandle + 1;
      timers := timers + {taskTimeoutHandle};
      isNlSwitchProcessing := true;
      started := started + multiset{switchEvent};
    }

    /** The action did not start anything: idle again, timeout task cancelled. */
    method StopAction()
      modifies this
      ensures State() == old(Idle(State()))
    {
      isNlSwitchProcessing := false;
      timers := timers - {taskTimeoutHandle};
    }

    method ProcessNearlinkSwitchAction(switchEvent: Event, result: ActionResult) returns (ok: bool)
      modifies this
      ensures State() == old(Act(State(), switchEvent, result))
      ensures ok <==> old(isNlSwitchProcessing) || result != ActionError
    {
      if isNlSwitchProcessing {
        currentSwitchEvent := switchEvent;
        cachedEventVec := cachedEventVec + [switchEvent];
        return true;
      }
      StartAction(switchEvent);
      if result != ActionOk {
        StopAction();
      }
      if result == ActionInvalid {
        ProcessNearlinkSwitchActionFinished(switchEvent, REQUESTS);
      }
      ok := result != ActionError;
    }

    method ProcessNearlinkOffEvent()
      modifies this
      ensures State() == old(ProcessEvent(State(), NearlinkOff, ActionOk))
    {
      OffSteps(State());
      if disableStatus == StandingBy {
        ProcessNearlinkSwitchActionFinished(DisableNearlinkToOff, AFTER_OFF);
      } else if disableStatus == DisablingToOff {
        disableStatus := StandingBy;
        ProcessNearlinkSwitchActionFinished(DisableNearlink, AFTER_OFF);
      }
    }

    method ProcessNearlinkHalfEvent()
      modifies this
      ensures State() == old(ProcessEvent(State(), NearlinkHalf, ActionOk))
    {
      HalfSteps(State());
      if disableStatus == DisablingToHalf {
        disableStatus := StandingBy;
        ProcessNearlinkSwitchActionFinished(DisableNearlink, AFTER_HALF);
      } else {
        ProcessNearlinkSwitchActionFinished(EnableNearlinkToHalf, AFTER_HALF);
      }
    }

    method ProcessNearlinkSwitchEvent(event: Event, result: ActionResult)
      modifies this
      ensures State() == old(ProcessEvent(State(), event, result))
    {
      if event in REQUESTS {
        var _ := ProcessNearlinkSwitchAction(event, result);
      } else if event == NearlinkOn {
        ProcessNearlinkSwitchActionFinished(EnableNearlink, AFTER_ON);
      } else if event == NearlinkOff {
        ProcessNearlinkOffEvent();
      } else if event == NearlinkHalf {
        ProcessNearlinkHalfEvent();
      } else if event == DisableToHalfResponse {
        disableStatus := DisablingToHalf;
      } else if event == DisableToOffResponse {
        disableStatus := DisablingToOff;
      }
    }

    /** A timeout task fires: the module is idle again and forgets what it cached. */
    method OnTaskTimeout(ghost handle: nat)
      requires handle in timers && !faulted
      modifies this
      ensures State() == old(Apply(State(), Timeout(handle)))
    {
      dropped := dropped + multiset(cachedEventVec);
      timers := timers - {handle};
      isNlSwitchProcessing := false;
      cachedEventVec := [];
    }
  }
}
