/** The connector (nutty/net/Connector.cpp) as a step system on the loop thread: user calls, watcher events,
    retry timers and queued `resetWatcher` functors, in any order. */
module ConnectorMachine {
  import opened Arithmetic
  import opened Wrappers

  const INIT_RETRY_DELAY_MS: nat := 500
  const MAX_RETRY_DELAY_MS: nat := 30000

  /** How the system's `connect` ends: at once or in progress, with an error worth a retry, or otherwise. */
  datatype Result = InProgress | Retryable | Fatal

  /** What `handleWrite` finds on the socket: an error, a connection to itself, or a connection. */
  datatype Outcome = Refused | SelfConnect | Connected

  datatype State = State(
    connect: bool,
    connecting: bool,
    retry: bool,
    retryDelayMs: nat,
    socket: bool,               // connectSocket_ is not null
    watcher: Option<bool>,      // watcher_: none, or whether it is registered for writing
    resets: nat,                // queued resetWatcher functors
    timers: nat,                // outstanding retry timers
    waits: seq<nat>,            // the delays used since the delay was last reset
    attempts: nat,              // how many times connect() has run
    gaveUp: bool,               // the last attempt ended in a fatal error
    delivered: seq<nat>,        // the attempts whose connection was handed to the callback
    dangling: bool,             // a watcher was destroyed while registered
    fault: bool                 // a null watcher_ was used
  )

  datatype Event =
    | Start(r: Result) | Stop | Restart(r: Result)
    | RetryTimer(r: Result) | WriteReady(outcome: Outcome) | ErrorReady | RunReset

  const Init := State(false, false, false, INIT_RETRY_DELAY_MS, false, None, 0, 0, [], 0, false, [], false, false)

  function Retry(s: State): State {
    var t := s.(socket := false);
    if t.connect then
      t.(retry := true, timers := t.timers + 1, waits := t.waits + [t.retryDelayMs],
         retryDelayMs := Min(t.retryDelayMs * 2, MAX_RETRY_DELAY_MS))
    else t
  }

  function Connect(s: State, r: Result): State {
    var t := s.(socket := true, attempts := s.attempts + 1, gaveUp := false);
    match r
    case InProgress => t.(connecting := true, watcher := Some(true))
    case Retryable => Retry(t)
    case Fatal => t.(socket := false, gaveUp := true)
  }

  function StopAndResetWatcher(s: State): State {
    if s.watcher.None? then s.(fault := true)
    else s.(watcher := Some(false), resets := s.resets + 1, connecting := false)
  }

  function ResetWatcher(s: State): State {
    s.(watcher := None, dangling := s.dangling || s.watcher == Some(true))
  }

  function HandleError(s: State): State {
    if s.connecting then
      var t := StopAndResetWatcher(s);
      if t.fault then t else Retry(t)
    else s
  }

  function HandleWrite(s: State, outcome: Outcome): State {
    if s.connecting then
      var t := StopAndResetWatcher(s);
      if t.fault then t
      else if outcome.Connected? then t.(socket := false, delivered := t.delivered + [t.attempts])
      else Retry(t)
    else s
  }

  function StartInLoop(s: State, r: Result): State {
    if s.connect then s
    else
      var t := s.(connect := true);
      if t.retry then t else Connect(t, r)
  }

  function StopInLoop(s: State): State {
    if !s.connect then s
    else
      var t := s.(connect := false);
      if t.connecting then
        var u := StopAndResetWatcher(t);
        if u.fault then u else u.(socket := false)
      else t
  }

  function RestartInLoop(s: State, r: Result): State {
    if s.connect && !s.connecting && !s.retry then
      Connect(s.(retryDelayMs := INIT_RETRY_DELAY_MS, waits := []), r)
    else s
  }

  function Retrying(s: State, r: Result): State {
    var t := s.(retry := false);
    if t.connect then Connect(t, r) else t
  }

  /** Nothing is said of what follows the use of a null pointer. A watcher reports events while it exists. */
  function Step(s: State, e: Event): (r: Option<State>) {
    if s.fault then None
    else
      match e
      case Start(r) => Some(StartInLoop(s, r))
      case Stop => Some(StopInLoop(s))
      case Restart(r) => Some(RestartInLoop(s, r))
      case RetryTimer(r) => if s.timers > 0 then Some(Retrying(s.(timers := s.timers - 1), r)) else None
      case WriteReady(outcome) => if s.watcher.Some? then Some(HandleWrite(s, outcome)) else None
      case ErrorReady => if s.watcher.Some? then Some(HandleError(s)) else None
      case RunReset => if s.resets > 0 then Some(ResetWatcher(s.(resets := s.resets - 1))) else None
  }

  /** The steps as calls of the handlers. */
  lemma StepCallsHandler(s: State, e: Event)
    requires !s.fault
    ensures e.Start? ==> Step(s, e) == Some(StartInLoop(s, e.r))
    ensures e.Stop? ==> Step(s, e) == Some(StopInLoop(s))
    ensures e.Restart? ==> Step(s, e) == Some(RestartInLoop(s, e.r))
    ensures e.RetryTimer? && s.timers > 0 ==> Step(s, e) == Some(Retrying(s.(timers := s.timers - 1), e.r))
    ensures e.WriteReady? && s.watcher.Some? ==> Step(s, e) == Some(HandleWrite(s, e.outcome))
    ensures e.ErrorReady? && s.watcher.Some? ==> Step(s, e) == Some(HandleError(s))
    ensures e.RunReset? && s.resets > 0 ==> Step(s, e) == Some(ResetWatcher(s.(resets := s.resets - 1)))
  {
  }

  function Exec(s: State, es: seq<Event>): (r: Option<State>) {
    if es == [] then Some(s)
    else
      match Exec(s, es[..|es| - 1])
      case None => None
      case Some(p) => Step(p, es[|es| - 1])
  }

  lemma ExecSnoc(s: State, es: seq<Event>, e: Event)
    ensures Exec(s, es + [e]) == match Exec(s, es) case None => None case Some(p) => Step(p, e)
  {
    assert (es + [e])[..|es|] == es;
  }

  function Doubled(j: nat): nat {
    if j == 0 then 500 else 2 * Doubled(j - 1)
  }

  /** The delay of the retry with number `j`: 500 * 2^j, at most 30000. */
  function Wait(j: nat): nat {
    Min(Doubled(j), 30_000)
  }

  lemma {:induction false} DoubledIsPositive(j: nat)
    ensures Doubled(j) >= 500
  {
    if j > 0 {
      DoubledIsPositive(j - 1);
    }
  }

  ghost predicate OneAttempt(s: State) {
    && (s.connecting ==> s.connect && !s.retry)
    && (s.socket <==> s.connecting)
    && s.timers == (if s.retry then 1 else 0)
    && (s.connect && !s.connecting && !s.retry ==>
          s.gaveUp || (s.delivered != [] && s.delivered[|s.delivered| - 1] == s.attempts))
  }

  ghost predicate BackingOff(s: State) {
    && s.retryDelayMs == Wait(|s.waits|)
    && forall j | 0 <= j < |s.waits| :: s.waits[j] == Wait(j)
  }

  ghost predicate DeliveredOnce(s: State) {
    && (forall i, j | 0 <= i < j < |s.delivered| :: s.delivered[i] < s.delivered[j])
    && (forall i | 0 <= i < |s.delivered| :: 0 < s.delivered[i] <= s.attempts)
    && (s.connecting ==> 0 < s.attempts && forall i | 0 <= i < |s.delivered| :: s.delivered[i] < s.attempts)
  }

  ghost predicate Invariant(s: State) {
    OneAttempt(s) && BackingOff(s) && DeliveredOnce(s)
  }

  lemma RetryBacksOff(s: State)
    requires BackingOff(s)
    ensures BackingOff(Retry(s))
  {
    DoubledIsPositive(|s.waits|);
  }

  lemma ConnectKeepsInvariant(s: State, r: Result)
    requires BackingOff(s) && DeliveredOnce(s) && s.connect && !s.connecting && !s.retry && s.timers == 0
    ensures Invariant(Connect(s, r))
  {
    RetryBacksOff(s.(socket := true, attempts := s.attempts + 1, gaveUp := false));
  }

  lemma WatcherKeepsInvariant(s: State, e: Event, t: State)
    requires Invariant(s) && Step(s, e) == Some(t) && !t.fault && (e.WriteReady? || e.ErrorReady?)
    ensures Invariant(t)
  {
    RetryBacksOff(StopAndResetWatcher(s));
    hide Wait;
  }

  lemma RestartKeepsInvariant(s: State, e: Event, t: State)
    requires Invariant(s) && Step(s, e) == Some(t) && e.Restart?
    ensures Invariant(t)
  {
    if s.connect && !s.connecting && !s.retry {
      assert BackingOff(s.(retryDelayMs := INIT_RETRY_DELAY_MS, waits := []));
      ConnectKeepsInvariant(s.(retryDelayMs := INIT_RETRY_DELAY_MS, waits := []), e.r);
    }
  }

  lemma StepKeepsInvariant(s: State, e: Event, t: State)
    requires Invariant(s) && Step(s, e) == Some(t) && !t.fault
    ensures Invariant(t)
  {
    match e
    case Start(r) =>
      if !s.connect && !s.retry {
        ConnectKeepsInvariant(s.(connect := true), r);
      }
    case Stop =>
    case Restart(_) => RestartKeepsInvariant(s, e, t);
    case RetryTimer(r) =>
      if s.connect {
        ConnectKeepsInvariant(s.(timers := s.timers - 1, retry := false), r);
      }
    case RunReset =>
    case _ => WatcherKeepsInvariant(s, e, t);
  }

  /** In every run, until a null watcher is used: one attempt at a time, with its socket; exactly one retry
      timer while a retry is due and none otherwise; each attempt hands over at most one connection, in order;
      the retries since the last `restart()` wait 500 ms doubled each time, up to 30 s; and a connector that
      is to connect but neither connects nor waits has delivered its last attempt or met a fatal error. */
  lemma {:induction false} OneAttemptAtATime(es: seq<Event>, s: State)
    requires Exec(Init, es) == Some(s) && !s.fault
    ensures s.connecting ==> s.connect && !s.retry
    ensures s.socket <==> s.connecting
    ensures s.timers == if s.retry then 1 else 0
    ensures forall i, j | 0 <= i < j < |s.delivered| :: s.delivered[i] < s.delivered[j] <= s.attempts
    ensures forall j | 0 <= j < |s.waits| :: s.waits[j] == Wait(j)
    ensures s.connect && !s.connecting && !s.retry ==>
              s.gaveUp || (s.delivered != [] && s.delivered[|s.delivered| - 1] == s.attempts)
    ensures Invariant(s)
    decreases |es|
  {
    if es != [] {
      var p := Exec(Init, es[..|es| - 1]).value;
      OneAttemptAtATime(es[..|es| - 1], p);
      StepKeepsInvariant(p, es[|es| - 1], s);
    }
  }

  /* ---- what a run has done ---- */

  /** The call or timer starts an attempt: the guards of `start`, `restart` and the retry timer. */
  predicate Attempts(s: State, e: Event) {
    match e
    case Start(_) => !s.connect && !s.retry
    case Restart(_) => s.connect && !s.connecting && !s.retry
    case RetryTimer(_) => s.timers > 0 && s.connect
    case _ => false
  }

  function Before(es: seq<Event>): Option<State>
    requires es != []
  {
    Exec(Init, es[..|es| - 1])
  }

  function Attempted(es: seq<Event>): (n: nat) {
    if es == [] || Before(es).None? then 0
    else Attempted(es[..|es| - 1]) + if Attempts(Before(es).value, es[|es| - 1]) then 1 else 0
  }

  /** How the system's `connect` ended in the last attempt. */
  function LastResult(es: seq<Event>): Option<Result> {
    if es == [] || Before(es).None? then None
    else if Attempts(Before(es).value, es[|es| - 1]) then Some(es[|es| - 1].r)
    else LastResult(es[..|es| - 1])
  }

  /** An attempt in progress ends: it is stopped, or its socket reports. */
  predicate EndsAttempt(s: State, e: Event) {
    s.connecting && (e.Stop? || e.ErrorReady? || e.WriteReady?)
  }

  /** The step finds that another attempt has to be made later. */
  predicate Retries(s: State, e: Event) {
    || (Attempts(s, e) && e.r == Retryable)
    || (s.connecting && (e.ErrorReady? || (e.WriteReady? && !e.outcome.Connected?)))
  }

  /** The retries since `restart()` last began an attempt. */
  function Retried(es: seq<Event>): (n: nat) {
    if es == [] || Before(es).None? then 0
    else
      var p, e := Before(es).value, es[|es| - 1];
      (if e.Restart? && Attempts(p, e) then 0 else Retried(es[..|es| - 1])) + if Retries(p, e) then 1 else 0
  }

  /** The attempts that ended with a watcher to destroy, less the destructions that have been run. */
  function ResetsDue(es: seq<Event>): int {
    if es == [] || Before(es).None? then 0
    else
      var p, e := Before(es).value, es[|es| - 1];
      ResetsDue(es[..|es| - 1]) + (if EndsAttempt(p, e) then 1 else 0) - if e.RunReset? then 1 else 0
  }

  /** The retries scheduled, less the retry timers that have run. */
  function TimersDue(es: seq<Event>): int {
    if es == [] || Before(es).None? then 0
    else
      var p, e := Before(es).value, es[|es| - 1];
      TimersDue(es[..|es| - 1]) + (if Retries(p, e) then 1 else 0) - if e.RetryTimer? then 1 else 0
  }

  /** Whether `start()` or `stop()` came last. */
  function Wanted(es: seq<Event>): bool {
    if es == [] then false
    else match es[|es| - 1]
      case Start(_) => true
      case Stop => false
      case _ => Wanted(es[..|es| - 1])
  }

  lemma NoFaultBefore(s: State, e: Event)
    requires Step(s, e).Some?
    ensures !s.fault
  {
  }

  lemma ConnectDoes(s: State, r: Result)
    requires s.connect && !s.connecting
    ensures var t := Connect(s, r);
            && t.attempts == s.attempts + 1 && t.connect && t.resets == s.resets && t.fault == s.fault
            && (t.connecting <==> r == InProgress) && (t.gaveUp <==> r == Fatal)
            && (t.retry <==> s.retry || r == Retryable)
            && |t.waits| == |s.waits| + (if r == Retryable then 1 else 0)
            && t.timers == s.timers + (if r == Retryable then 1 else 0)
  {
  }

  /** What one step does, told from its guards. An attempt ends up in progress, waiting to be repeated or given up
      exactly as its `connect` ended. */
  predicate Does(s: State, e: Event, t: State) {
    && t.attempts == s.attempts + (if Attempts(s, e) then 1 else 0)
    && (Attempts(s, e) ==>
          (t.connecting <==> e.r == InProgress) && (t.retry <==> e.r == Retryable) && (t.gaveUp <==> e.r == Fatal))
    && (!Attempts(s, e) ==> t.gaveUp == s.gaveUp)
    && t.timers == s.timers + (if Retries(s, e) then 1 else 0) - (if e.RetryTimer? then 1 else 0)
    && |t.waits| == (if e.Restart? && Attempts(s, e) then 0 else |s.waits|) + (if Retries(s, e) then 1 else 0)
    && t.resets == s.resets + (if EndsAttempt(s, e) then 1 else 0) - (if e.RunReset? then 1 else 0)
    && t.connect == (match e case Start(_) => true case Stop => false case _ => s.connect)
  }

  lemma AttemptDoes(s: State, e: Event, t: State)
    requires OneAttempt(s) && Step(s, e) == Some(t) && Attempts(s, e)
    ensures Does(s, e, t)
  {
    match e
    case Start(r) => ConnectDoes(s.(connect := true), r);
    case Restart(r) => ConnectDoes(s.(retryDelayMs := INIT_RETRY_DELAY_MS, waits := []), r);
    case RetryTimer(r) => ConnectDoes(s.(timers := s.timers - 1, retry := false), r);
    hide Connect;
  }

  lemma OtherStepDoes(s: State, e: Event, t: State)
    requires OneAttempt(s) && Step(s, e) == Some(t) && !t.fault && !Attempts(s, e)
    ensures Does(s, e, t)
  {
    hide Connect;
  }

  lemma StepDoes(s: State, e: Event, t: State)
    requires Invariant(s) && Step(s, e) == Some(t) && !t.fault
    ensures Does(s, e, t)
  {
    hide Step, Does, Attempts;
    if Attempts(s, e) {
      AttemptDoes(s, e, t);
    } else {
      OtherStepDoes(s, e, t);
    }
  }

  /** In every run, until a null watcher is used: the connector is to connect if and only if `start()` came after
      the last `stop()`; it has given up if and only if the last attempt's `connect` failed for good; the j-th retry
      since `restart()` last began an attempt waits 500 ms doubled j times, up to 30 s; every retry scheduled has its
      timer until it runs, whatever is stopped meanwhile; and every attempt that ended has its watcher's destruction
      queued until it is run. */
  lemma {:induction false} RunsDo(es: seq<Event>, s: State)
    requires Exec(Init, es) == Some(s) && !s.fault
    ensures s.connect == Wanted(es) && s.attempts == Attempted(es) && s.resets == ResetsDue(es)
    ensures s.timers == TimersDue(es) && (s.retry <==> TimersDue(es) > 0)
    ensures s.gaveUp <==> LastResult(es) == Some(Fatal)
    ensures |s.waits| == Retried(es) && s.retryDelayMs == Wait(Retried(es))
    decreases |es|
  {
    OneAttemptAtATime(es, s);
    if es != [] {
      hide Step, Invariant, Attempts, Retries, EndsAttempt;
      var p := Before(es).value;
      NoFaultBefore(p, es[|es| - 1]);
      RunsDo(es[..|es| - 1], p);
      OneAttemptAtATime(es[..|es| - 1], p);
      StepDoes(p, es[|es| - 1], s);
    }
    InvariantGivesDelay(s);
  }

  lemma InvariantGivesDelay(s: State)
    requires Invariant(s)
    ensures s.retryDelayMs == Wait(|s.waits|)
  {
  }

  /** A null watcher is used exactly by a step that ends an attempt whose watcher has been destroyed. */
  lemma FaultsExactly(s: State, e: Event, t: State)
    requires Invariant(s) && Step(s, e) == Some(t)
    ensures t.fault <==> EndsAttempt(s, e) && s.watcher == None
  {
  }

  /** A connector that is to connect, is not connecting and has no retry due has delivered its last attempt's
      connection, or that attempt's `connect` failed for good. */
  lemma NeverForgetsToRetry(es: seq<Event>, s: State)
    requires Exec(Init, es) == Some(s) && !s.fault
    requires Wanted(es) && !s.connecting && s.timers == 0
    ensures || LastResult(es) == Some(Fatal)
            || (s.delivered != [] && s.delivered[|s.delivered| - 1] == Attempted(es))
  {
    RunsDo(es, s);
    OneAttemptAtATime(es, s);
  }

  /* ---- the queued reset ---- */

  /** The watcher is there while connecting, registered for writing, and nothing queued will destroy it. */
  predicate Healthy(s: State) {
    && !s.fault && !s.dangling
    && (s.connecting ==> s.watcher == Some(true) && s.resets == 0)
    && (!s.connecting ==> s.watcher != Some(true))
  }

  /** The attempt stays in progress, and a `resetWatcher` is still queued. */
  predicate Overlaps(s: State, e: Event) {
    Attempts(s, e) && e.r == InProgress && s.resets > 0
  }

  predicate NoOverlap(es: seq<Event>) {
    es == [] ||
    (NoOverlap(es[..|es| - 1]) &&
     (Exec(Init, es[..|es| - 1]).Some? ==> !Overlaps(Exec(Init, es[..|es| - 1]).value, es[|es| - 1])))
  }

  lemma ConnectCounts(s: State, r: Result)
    ensures var t := Connect(s, r);
            && t.attempts == s.attempts + 1 && t.resets == s.resets && t.fault == s.fault
            && (t.connecting <==> s.connecting || r == InProgress)
  {
  }

  /** Only an attempt counts as one. */
  lemma StepCounts(s: State, e: Event, t: State)
    requires Step(s, e) == Some(t)
    ensures t.attempts == s.attempts + if Attempts(s, e) then 1 else 0
    ensures Attempts(s, e) ==> t.resets == s.resets && !t.fault && (t.connecting <==> s.connecting || e.r == InProgress)
  {
    match e
    case Start(r) => ConnectCounts(s.(connect := true), r);
    case Restart(r) => ConnectCounts(s.(retryDelayMs := INIT_RETRY_DELAY_MS, waits := []), r);
    case RetryTimer(r) => ConnectCounts(s.(timers := s.timers - 1, retry := false), r);
    case _ =>
    hide Connect;
  }

  lemma StepKeepsHealthy(s: State, e: Event)
    requires Invariant(s) && Healthy(s) && Step(s, e).Some?
    ensures Healthy(Step(s, e).value) <==> !Overlaps(s, e)
  {
  }

  /** A run in which no attempt overlaps a queued `resetWatcher` never uses a null watcher, never destroys a
      registered one, and has a live, registered watcher whenever it is connecting. */
  lemma {:induction false} HealthyWithoutOverlap(es: seq<Event>, s: State)
    requires Exec(Init, es) == Some(s) && NoOverlap(es)
    ensures Healthy(s) && Invariant(s)
    decreases |es|
  {
    if es != [] {
      var p := Exec(Init, es[..|es| - 1]).value;
      HealthyWithoutOverlap(es[..|es| - 1], p);
      StepKeepsHealthy(p, es[|es| - 1]);
      StepKeepsInvariant(p, es[|es| - 1], s);
    }
  }

  /** A healthy attempt stays so as long as it lasts. */
  lemma {:induction false} AttemptStaysHealthy(s: State, fs: seq<Event>, u: State)
    requires Invariant(s) && Healthy(s) && Exec(s, fs) == Some(u) && u.attempts == s.attempts
    ensures Invariant(u) && Healthy(u)
    decreases |fs|
  {
    if fs != [] {
      var p := Exec(s, fs[..|fs| - 1]).value;
      hide Step, Invariant, Healthy;
      AttemptsOnlyGrow(s, fs[..|fs| - 1], p);
      StepCounts(p, fs[|fs| - 1], u);
      AttemptStaysHealthy(s, fs[..|fs| - 1], p);
      StepKeepsHealthy(p, fs[|fs| - 1]);
      HealthyHasNoFault(u);
      StepKeepsInvariant(p, fs[|fs| - 1], u);
    }
  }

  lemma HealthyHasNoFault(s: State)
    requires Healthy(s)
    ensures !s.fault
  {
  }

  lemma {:induction false} AttemptsOnlyGrow(s: State, fs: seq<Event>, u: State)
    requires Exec(s, fs) == Some(u)
    ensures s.attempts <= u.attempts
    decreases |fs|
  {
    if fs != [] {
      hide Step;
      var p := Exec(s, fs[..|fs| - 1]).value;
      AttemptsOnlyGrow(s, fs[..|fs| - 1], p);
      StepCounts(p, fs[|fs| - 1], u);
    }
  }

  /** The attempt under way in `s`, continued by `fs`, is still under way and has nothing to report its outcome. */
  predicate LosesItsWatcher(s: State, fs: seq<Event>) {
    Exec(s, fs).Some? && Exec(s, fs).value.attempts == s.attempts &&
    Exec(s, fs).value.connecting && Exec(s, fs).value.watcher != Some(true)
  }

  /** The watcher is lost exactly so: an attempt begun from a run without overlaps has a continuation in which it
      is connecting without a registered watcher if and only if a `resetWatcher` was queued when it began. */
  lemma OverlapLosesTheWatcher(es: seq<Event>, s: State, e: Event, t: State)
    requires Exec(Init, es) == Some(s) && NoOverlap(es)
    requires Attempts(s, e) && Step(s, e) == Some(t) && t.connecting
    ensures (exists fs :: LosesItsWatcher(t, fs)) <==> s.resets > 0
  {
    HealthyWithoutOverlap(es, s);
    StepCounts(s, e, t);
    if s.resets > 0 {
      LostByReset(t);
    } else {
      StepKeepsHealthy(s, e);
      StepKeepsInvariant(s, e, t);
      forall fs | LosesItsWatcher(t, fs) ensures false {
        AttemptStaysHealthy(t, fs, Exec(t, fs).value);
      }
    }
  }

  lemma LostByReset(t: State)
    requires t.connecting && t.resets > 0 && !t.fault
    ensures LosesItsWatcher(t, [RunReset])
  {
    ExecSnoc(t, [], RunReset);
    assert [] + [RunReset] == [RunReset];
  }

  /** Once lost, nothing the connector does finds a watcher again: it stays connecting, reports nothing, and
      `stop()` uses a null watcher. */
  predicate Lost(s: State) {
    s.connect && s.connecting && !s.retry && s.timers == 0 && s.watcher == None
  }

  lemma LostForGood(s: State, e: Event)
    requires Lost(s) && !s.fault && Step(s, e).Some?
    ensures !e.WriteReady? && !e.ErrorReady?
    ensures if e == Stop then Step(s, e).value.fault else Lost(Step(s, e).value) && !Step(s, e).value.fault
    ensures Step(s, e).value.delivered == s.delivered
  {
  }

  lemma StepKeepsLost(s: State, e: Event, t: State)
    requires Invariant(s) && Step(s, e) == Some(t) && !t.fault
    requires !s.connecting ==> s.watcher != Some(true)
    requires s.dangling ==> Lost(s)
    ensures !t.connecting ==> t.watcher != Some(true)
    ensures t.dangling ==> Lost(t)
  {
  }

  /** Until a null watcher is used: only an attempt's watcher is registered, and one is destroyed while registered
      only in an attempt that is lost with it. */
  lemma {:induction false} OnlyAttemptsAreLost(es: seq<Event>, s: State)
    requires Exec(Init, es) == Some(s) && !s.fault
    ensures Invariant(s)
    ensures !s.connecting ==> s.watcher != Some(true)
    ensures s.dangling ==> Lost(s)
    decreases |es|
  {
    OneAttemptAtATime(es, s);
    if es != [] {
      hide Step, Invariant, Lost;
      var p := Exec(Init, es[..|es| - 1]).value;
      NoFaultBefore(p, es[|es| - 1]);
      OnlyAttemptsAreLost(es[..|es| - 1], p);
      StepKeepsLost(p, es[|es| - 1], s);
    }
  }

  lemma LosingSteps(s1: State, s2: State, s3: State, s4: State)
    requires s1 == Init.(connect := true, socket := true, connecting := true, watcher := Some(true), attempts := 1)
    requires s2 == Init.(watcher := Some(false), resets := 1, attempts := 1)
    requires s3 == s1.(resets := 1, attempts := 2)
    requires s4 == s1.(watcher := None, attempts := 2, dangling := true)
    ensures Step(Init, Start(InProgress)) == Some(s1) && Step(s1, Stop) == Some(s2)
    ensures Step(s2, Start(InProgress)) == Some(s3) && Step(s3, RunReset) == Some(s4)
    ensures Lost(s4) && Step(s4, Stop).Some? && Step(s4, Stop).value.fault
  {
  }

  /** Such a run: start, stop and start again before the loop gets to its queued functors; when it does, the
      connector is connecting, its registered watcher is destroyed, and `stop()` will use a null one. */
  lemma StopThenStartLoses()
    ensures exists s :: Exec(Init, [Start(InProgress), Stop, Start(InProgress), RunReset]) == Some(s) &&
                        s.dangling && Lost(s) && Step(s, Stop).Some? && Step(s, Stop).value.fault
  {
    hide Step, Lost;
    var start := Start(InProgress);
    var s1 := Init.(connect := true, socket := true, connecting := true, watcher := Some(true), attempts := 1);
    var s2 := Init.(watcher := Some(false), resets := 1, attempts := 1);
    var s3 := s1.(resets := 1, attempts := 2);
    var s4 := s1.(watcher := None, attempts := 2, dangling := true);
    LosingSteps(s1, s2, s3, s4);
    assert [] + [start] == [start] && [start] + [Stop] == [start, Stop];
    assert [start, Stop] + [start] == [start, Stop, start];
    assert [start, Stop, start] + [RunReset] == [start, Stop, start, RunReset];
    ExecSnoc(Init, [], start);
    ExecSnoc(Init, [start], Stop);
    ExecSnoc(Init, [start, Stop], start);
    ExecSnoc(Init, [start, Stop, start], RunReset);
  }
}
