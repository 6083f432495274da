/** The Happy Eyeballs race of `dialIPs`, as a transition system: every interleaving is a sequence of steps. */
module AddressRace {
  import opened Counting

  datatype Fault = Canceled | DeadlineExceeded | Refused | TimedOut | OtherFault

  datatype Cause = NoCause | CauseCanceled | CauseTimeout | CauseRefused | CauseUnreachable

  function CauseOf(f: Fault): Cause {
    match f
    case Canceled => CauseCanceled
    case DeadlineExceeded => CauseTimeout
    case Refused => CauseRefused
    case TimedOut => CauseTimeout
    case OtherFault => CauseUnreachable
  }

  /** What one dial returned. A failing dialer may still hand back a socket. */
  datatype Outcome = Connected | Failed(fault: Fault, leftover: bool) {
    predicate HasSocket() { Connected? || leftover }
  }

  datatype Attempt = Attempt(address: nat, outcome: Outcome, aborted: bool, cause: Cause)

  /** Where the goroutine of one address is. */
  datatype Phase =
    | Idle
    | Dialing
    | Returned(outcome: Outcome)
    | Ready(report: Attempt)
    | Signalling
    | Finished

  datatype Socket = Unopened | Open | Closed | Handed

  /** The scheduler, at loop index `at`. */
  datatype Scheduler = Waiting(at: nat) | Checking(at: nat) | Launching(at: nat) | Spawning(at: nat) | Exited

  /** Why the caller stopped collecting. */
  datatype Ending =
    | Winner(position: nat, report: Attempt)  // the winning report, and its index among those received
    | Expired(before: nat)   // number of attempts recorded when the context ended
    | Exhausted

  datatype Caller =
    | Collecting
    | Canceling(end: Ending)
    | AwaitingScheduler(end: Ending)
    | Draining(end: Ending)
    | Done(end: Ending)

  /** One scheduler goroutine, one goroutine per started dial, and the collecting caller, over their channels. */
  datatype State = State(
    n: nat,
    expiry: Fault,              // what ctx.Err() says once the enclosing context ends
    ctxDone: bool,
    canceled: bool,             // the inner cancel() was called
    scheduler: Scheduler,
    started: nat,               // len(started): nothing ever receives from it
    next: nat,                  // tokens buffered in next
    skips: nat,                 // tokens the scheduler has spent
    phase: seq<Phase>,
    socket: seq<Socket>,
    received: seq<Attempt>,     // every report taken out of results, in order
    results: seq<Attempt>,      // reports still buffered in results
    caller: Caller,
    attempts: seq<Attempt>)
  {
    predicate InnerDone() { ctxDone || canceled }

    /** Every report ever posted. */
    function Log(): seq<Attempt> { received + results }
  }

  ghost predicate Init(s: State, n: nat) {
    && 0 < n == s.n
    && !s.ctxDone && !s.canceled
    && s.scheduler == Checking(0)
    && s.started == s.next == s.skips == 0
    && s.phase == Idles(n)
    && s.socket == seq(n, _ => Unopened)
    && s.received == s.results == s.attempts == []
    && s.caller == Collecting
  }

  datatype Step =
    | ContextEnds
    | TimerFires
    | TokenTaken
    | SchedulerStops
    | SchedulerChecks
    | StartedSent
    | DialSpawned
    | DialReturns(i: nat, outcome: Outcome)
    | DialReads(i: nat)
    | DialPosts(i: nat)
    | DialSignals(i: nat)
    | CallerReceives
    | CallerSeesExpiry
    | CallerCancels
    | CallerSeesScheduled
    | CallerDrains
    | CallerReturns

  predicate Enabled(s: State, step: Step) {
    match step
    case ContextEnds => !s.ctxDone
    case TimerFires => s.scheduler.Waiting?
    case TokenTaken => s.scheduler.Waiting? && s.next > 0
    case SchedulerStops => s.scheduler.Waiting? && s.InnerDone()
    case SchedulerChecks => s.scheduler.Checking?
    case StartedSent => s.scheduler.Launching? && s.started < s.n
    case DialSpawned => s.scheduler.Spawning? && s.scheduler.at < |s.phase|
    case DialReturns(i, o) => i < |s.phase| && s.phase[i].Dialing?
    case DialReads(i) => i < |s.phase| && s.phase[i].Returned?
    case DialPosts(i) => i < |s.phase| && s.phase[i].Ready? && |s.results| < s.n
    case DialSignals(i) => i < |s.phase| && s.phase[i].Signalling? && s.next < s.n
    case CallerReceives => s.caller.Collecting? && |s.received| < s.n && s.results != []
    case CallerSeesExpiry => s.caller.Collecting? && |s.received| < s.n && s.ctxDone
    case CallerCancels => s.caller.Canceling?
    case CallerSeesScheduled => s.caller.AwaitingScheduler? && s.scheduler.Exited?
    case CallerDrains => s.caller.Draining? && |s.received| < s.started && s.results != []
    case CallerReturns =>
      || (s.caller.Draining? && s.started <= |s.received|)
      || (s.caller.Collecting? && s.n <= |s.received| && s.scheduler.Exited?)
  }

  /** `defer cancel()` and, on expiry, the loop that marks what drain() recorded. */
  function Marked(a: Attempt, expiry: Fault): Attempt {
    a.(aborted := true, cause := if a.outcome.Failed? && a.outcome.fault == Canceled then CauseOf(expiry) else a.cause)
  }

  function MarkFrom(attempts: seq<Attempt>, before: nat, expiry: Fault): (r: seq<Attempt>)
    ensures |r| == |attempts|
  {
    seq(|attempts|, i requires 0 <= i < |attempts| => if i < before then attempts[i] else Marked(attempts[i], expiry))
  }

  function SetSocket(socket: seq<Socket>, i: nat, v: Socket): seq<Socket> {
    if i < |socket| then socket[i := v] else socket
  }

  /** Taking one report: close a socket that is not the winner's, keep a failure. */
  function Take(s: State, keepSocket: bool): State
    requires s.results != []
  {
    var got := s.results[0];
    s.(received := s.received + [got],
       results := s.results[1..],
       socket := if got.outcome.HasSocket() && !keepSocket then SetSocket(s.socket, got.address, Closed) else s.socket,
       attempts := if got.outcome.Failed? then s.attempts + [got] else s.attempts)
  }

  function Return(s: State): State
    requires s.caller.Draining? || s.caller.Collecting?
  {
    match s.caller
    case Draining(Winner(k, got)) =>
      s.(caller := Done(s.caller.end), canceled := true, attempts := s.attempts + [got],
         socket := SetSocket(s.socket, got.address, Handed))
    case Draining(Expired(before)) =>
      s.(caller := Done(s.caller.end), canceled := true, attempts := MarkFrom(s.attempts, before, s.expiry))
    case _ => s.(caller := Done(Exhausted), canceled := true)
  }

  ghost function Apply(s: State, step: Step): State
    requires Enabled(s, step)
  {
    match step
    case ContextEnds => s.(ctxDone := true)
    case TimerFires => s.(scheduler := Checking(s.scheduler.at))
    case TokenTaken => s.(scheduler := Checking(s.scheduler.at), next := s.next - 1, skips := s.skips + 1)
    case SchedulerStops => s.(scheduler := Exited)
    case SchedulerChecks => s.(scheduler := if s.InnerDone() then Exited else Launching(s.scheduler.at))
    case StartedSent => s.(scheduler := Spawning(s.scheduler.at), started := s.started + 1)
    case DialSpawned =>
      var i := s.scheduler.at;
      s.(phase := s.phase[i := Dialing], scheduler := if i + 1 < s.n then Waiting(i + 1) else Exited)
    case DialReturns(i, o) =>
      s.(phase := s.phase[i := Returned(o)], socket := if o.HasSocket() then SetSocket(s.socket, i, Open) else s.socket)
    case DialReads(i) =>
      var o := s.phase[i].outcome;
      var report := if o.Failed? then Attempt(i, o, s.InnerDone(), CauseOf(o.fault)) else Attempt(i, o, false, NoCause);
      s.(phase := s.phase[i := Ready(report)])
    case DialPosts(i) =>
      var report := s.phase[i].report;
      s.(results := s.results + [report],
         phase := s.phase[i := if report.outcome.Failed? then Signalling else Finished])
    case DialSignals(i) => s.(next := s.next + 1, phase := s.phase[i := Finished])
    case CallerReceives =>
      if s.results[0].outcome.Connected?
      then Take(s, true).(caller := Canceling(Winner(|s.received|, s.results[0])))
      else Take(s, false)
    case CallerSeesExpiry => s.(caller := Canceling(Expired(|s.attempts|)))
    case CallerCancels => s.(caller := AwaitingScheduler(s.caller.end), canceled := true)
    case CallerSeesScheduled => s.(caller := Draining(s.caller.end))
    case CallerDrains => Take(s, false)
    case CallerReturns => Return(s)
  }

  // ---------------------------------------------------------------- counting

  predicate Posted(p: Phase) { p.Signalling? || p.Finished? }

  function PostedUnit(p: Phase): nat { if Posted(p) then 1 else 0 }

  function SignallingUnit(p: Phase): nat { if p.Signalling? then 1 else 0 }

  function PhaseRank(p: Phase): nat {
    match p
    case Idle => 6
    case Dialing => 5
    case Returned(_) => 4
    case Ready(_) => 3
    case Signalling => 1
    case Finished => 0
  }

  lemma CountsAfterUpdate(ps: seq<Phase>, i: nat, p: Phase)
    requires i < |ps|
    ensures Sum(ps[i := p], PostedUnit) == Sum(ps, PostedUnit) - PostedUnit(ps[i]) + PostedUnit(p)
    ensures Sum(ps[i := p], SignallingUnit) == Sum(ps, SignallingUnit) - SignallingUnit(ps[i]) + SignallingUnit(p)
    ensures Sum(ps[i := p], PhaseRank) == Sum(ps, PhaseRank) - PhaseRank(ps[i]) + PhaseRank(p)
  {
    SumUpdate(ps, PostedUnit, i, p);
    SumUpdate(ps, SignallingUnit, i, p);
    SumUpdate(ps, PhaseRank, i, p);
  }

  function Idles(n: nat): seq<Phase> { seq(n, _ => Idle) }

  lemma AllIdle(n: nat)
    ensures Sum(Idles(n), PostedUnit) == 0 && Sum(Idles(n), SignallingUnit) == 0 && Sum(Idles(n), PhaseRank) == 6 * n
  {
    SumConstant(n, PostedUnit, Idle);
    SumConstant(n, SignallingUnit, Idle);
    SumConstant(n, PhaseRank, Idle);
  }

  function Failures(log: seq<Attempt>): (r: seq<Attempt>)
    ensures |r| <= |log|
  {
    if log == [] then []
    else
      var last := log[|log| - 1];
      Failures(log[..|log| - 1]) + (if last.outcome.Failed? then [last] else [])
  }

  lemma FailuresAppend(log: seq<Attempt>, a: Attempt)
    ensures Failures(log + [a]) == Failures(log) + (if a.outcome.Failed? then [a] else [])
  {
    assert (log + [a])[..|log|] == log;
  }

  lemma {:induction false} FailuresComplete(log: seq<Attempt>, k: nat)
    requires k < |log| && log[k].outcome.Failed?
    ensures log[k] in Failures(log)
  {
    if k < |log| - 1 {
      FailuresComplete(log[..|log| - 1], k);
    }
  }

  lemma {:induction false} AllFailed(log: seq<Attempt>)
    requires forall k :: 0 <= k < |log| ==> log[k].outcome.Failed?
    ensures Failures(log) == log
  {
    if log != [] {
      AllFailed(log[..|log| - 1]);
    }
  }

  lemma {:induction false} FailuresFrom(log: seq<Attempt>, k: nat)
    requires k < |Failures(log)|
    ensures Failures(log)[k] in log && Failures(log)[k].outcome.Failed?
  {
    var rest := log[..|log| - 1];
    if k < |Failures(rest)| {
      FailuresFrom(rest, k);
    }
  }

  lemma {:induction false} FailuresDistinct(log: seq<Attempt>)
    requires Distinct(log)
    ensures Distinct(Failures(log))
  {
    if log != [] {
      var rest, last := log[..|log| - 1], log[|log| - 1];
      FailuresDistinct(rest);
      forall k | 0 <= k < |Failures(rest)|
        ensures Failures(rest)[k].address != last.address
      {
        FailuresFrom(rest, k);
      }
    }
  }

  ghost predicate Distinct(log: seq<Attempt>) {
    forall j, k :: 0 <= j < k < |log| ==> log[j].address != log[k].address
  }

  ghost predicate Reported(log: seq<Attempt>, i: nat) {
    exists k :: 0 <= k < |log| && log[k].address == i
  }

  // ---------------------------------------------------------------- invariant

  /** How many dials have been spawned. */
  function Spawned(scheduler: Scheduler, started: nat): nat {
    if scheduler.Exited? then started else scheduler.at
  }

  ghost predicate SchedulerInv(n: nat, scheduler: Scheduler, started: nat, phase: seq<Phase>, done: bool) {
    && |phase| == n
    && (!scheduler.Exited? ==> scheduler.at < n)
    && started == Spawned(scheduler, started) + (if scheduler.Spawning? then 1 else 0)
    && started <= n
    && (forall i :: 0 <= i < n ==> (phase[i].Idle? <==> Spawned(scheduler, started) <= i))
    && (scheduler.Exited? && started < n ==> done)
  }

  /** Each posted dial has exactly one report in the log, under its own address. */
  ghost predicate LogInv(phase: seq<Phase>, log: seq<Attempt>) {
    && Distinct(log)
    && |log| == Sum(phase, PostedUnit)
    && (forall k :: 0 <= k < |log| ==> log[k].address < |phase| && Posted(phase[log[k].address]))
    && (forall i :: 0 <= i < |phase| && phase[i].Ready? ==> phase[i].report.address == i)
  }

  /** Every failure is worth one token: about to be sent, buffered, or spent. */
  ghost predicate TokenInv(phase: seq<Phase>, log: seq<Attempt>, tokens: nat) {
    |Failures(log)| == tokens + Sum(phase, SignallingUnit)
  }

  function OpenOr(o: Outcome, settled: Socket): Socket {
    if o.HasSocket() then settled else Unopened
  }

  predicate IsWinner(caller: Caller, k: nat) {
    !caller.Collecting? && caller.end.Winner? && caller.end.position == k
  }

  /** The socket of the k-th report once `taken` reports were received. */
  function LogSocket(log: seq<Attempt>, taken: nat, caller: Caller, k: nat): Socket
    requires k < |log|
  {
    if taken <= k then OpenOr(log[k].outcome, Open)
    else if IsWinner(caller, k) then (if caller.Done? then Handed else Open)
    else OpenOr(log[k].outcome, Closed)
  }

  function PhaseSocket(p: Phase): Socket {
    match p
    case Returned(o) => OpenOr(o, Open)
    case Ready(report) => OpenOr(report.outcome, Open)
    case _ => Unopened
  }

  ghost predicate SocketInv(phase: seq<Phase>, socket: seq<Socket>, log: seq<Attempt>, taken: nat, caller: Caller) {
    && |phase| == |socket|
    && (forall i :: 0 <= i < |phase| && !Posted(phase[i]) ==> socket[i] == PhaseSocket(phase[i]))
    && (forall k :: 0 <= k < |log| ==>
      log[k].address < |phase| && socket[log[k].address] == LogSocket(log, taken, caller, k))
  }

  ghost predicate FailedBefore(log: seq<Attempt>, k: nat)
    requires k <= |log|
  {
    forall j :: 0 <= j < k ==> log[j].outcome.Failed?
  }

  ghost predicate EndInv(n: nat, ctxDone: bool, received: seq<Attempt>, caller: Caller)
    requires !caller.Collecting?
  {
    match caller.end
    case Winner(k, got) => k < |received| && received[k] == got && got.outcome.Connected? && FailedBefore(received, k)
    case Expired(before) => ctxDone && before <= |Failures(received)|
    case Exhausted => caller.Done? && |received| == n && FailedBefore(received, n)
  }

  function Recorded(received: seq<Attempt>, caller: Caller, expiry: Fault): seq<Attempt> {
    match caller
    case Done(Winner(_, got)) => Failures(received) + [got]
    case Done(Expired(before)) => MarkFrom(Failures(received), before, expiry)
    case _ => Failures(received)
  }

  ghost predicate CallerInv(n: nat, ctxDone: bool, canceled: bool, exited: bool, started: nat,
                            received: seq<Attempt>, caller: Caller)
  {
    && (caller.Collecting? ==> FailedBefore(received, |received|))
    && (!caller.Collecting? ==> EndInv(n, ctxDone, received, caller))
    && (canceled <==> caller.AwaitingScheduler? || caller.Draining? || caller.Done?)
    && (caller.Draining? || caller.Done? ==> exited)
    && (caller.Done? ==> |received| == started)
  }

  ghost predicate Inv(s: State) {
    && 0 < s.n
    && SchedulerInv(s.n, s.scheduler, s.started, s.phase, s.InnerDone())
    && LogInv(s.phase, s.Log())
    && TokenInv(s.phase, s.Log(), s.skips + s.next)
    && SocketInv(s.phase, s.socket, s.Log(), |s.received|, s.caller)
    && CallerInv(s.n, s.ctxDone, s.canceled, s.scheduler.Exited?, s.started, s.received, s.caller)
    && s.attempts == Recorded(s.received, s.caller, s.expiry)
  }

  lemma InitInv(s: State, n: nat)
    requires Init(s, n)
    ensures Inv(s)
  {
    AllIdle(n);
  }

  /** No more reports are posted than dials were spawned. */
  lemma ReceivedBound(s: State)
    requires Inv(s)
    ensures |s.Log()| <= Spawned(s.scheduler, s.started) <= s.started
  {
    SumAtMost(s.phase, PostedUnit, Spawned(s.scheduler, s.started));
  }

  // A dial's goroutine moves on without posting: phase i becomes p.
  lemma PhaseMove(phase: seq<Phase>, socket: seq<Socket>, log: seq<Attempt>, taken: nat, caller: Caller, i: nat,
                  p: Phase)
    requires LogInv(phase, log) && SocketInv(phase, socket, log, taken, caller)
    requires i < |phase| && !Posted(phase[i]) && !Posted(p)
    requires p.Ready? ==> p.report.address == i
    ensures LogInv(phase[i := p], log)
    ensures SocketInv(phase[i := p], socket[i := PhaseSocket(p)], log, taken, caller)
  {
    CountsAfterUpdate(phase, i, p);
  }

  lemma PostMove(phase: seq<Phase>, socket: seq<Socket>, log: seq<Attempt>, taken: nat, caller: Caller, i: nat,
                 p: Phase)
    requires LogInv(phase, log) && SocketInv(phase, socket, log, taken, caller)
    requires taken <= |log|
    requires i < |phase| && phase[i].Ready? && Posted(p)
    ensures LogInv(phase[i := p], log + [phase[i].report])
    ensures SocketInv(phase[i := p], socket, log + [phase[i].report], taken, caller)
  {
    PostLog(phase, log, i, p);
    PostSockets(phase, socket, log, taken, caller, i, p);
  }

  lemma PostLog(phase: seq<Phase>, log: seq<Attempt>, i: nat, p: Phase)
    requires LogInv(phase, log) && i < |phase| && phase[i].Ready? && Posted(p)
    ensures LogInv(phase[i := p], log + [phase[i].report])
  {
    hide Sum;
    CountsAfterUpdate(phase, i, p);
    var more := log + [phase[i].report];
    assert forall k :: 0 <= k < |log| ==> more[k] == log[k] && more[k].address != i;
  }

  lemma PostSockets(phase: seq<Phase>, socket: seq<Socket>, log: seq<Attempt>, taken: nat, caller: Caller, i: nat,
                    p: Phase)
    requires LogInv(phase, log) && SocketInv(phase, socket, log, taken, caller)
    requires taken <= |log| && i < |phase| && phase[i].Ready? && Posted(p)
    ensures SocketInv(phase[i := p], socket, log + [phase[i].report], taken, caller)
  {
    hide Sum, Distinct, IsWinner;
    var more := log + [phase[i].report];
    forall k | 0 <= k < |more|
      ensures more[k].address < |phase| && socket[more[k].address] == LogSocket(more, taken, caller, k)
    {
      assert k < |log| ==> more[k] == log[k];
    }
  }

  // The caller takes report number `taken`: its socket is closed unless it is kept as the winner.
  lemma TakeMove(phase: seq<Phase>, socket: seq<Socket>, log: seq<Attempt>, taken: nat, caller: Caller, keep: bool)
    requires LogInv(phase, log) && SocketInv(phase, socket, log, taken, caller)
    requires taken < |log| && !caller.Done?
    requires keep ==> caller.Collecting? && log[taken].outcome.Connected?
    requires !keep ==> !IsWinner(caller, taken)
    ensures var a := log[taken];
            SocketInv(phase, if a.outcome.HasSocket() && !keep then SetSocket(socket, a.address, Closed) else socket,
                      log, taken + 1, if keep then Canceling(Winner(taken, a)) else caller)
  {
  }

  // A report received after the race was decided does not decide it again.
  lemma EndStays(n: nat, ctxDone: bool, received: seq<Attempt>, caller: Caller, got: Attempt)
    requires !caller.Collecting? && !caller.Done? && EndInv(n, ctxDone, received, caller)
    ensures EndInv(n, ctxDone, received + [got], caller)
  {
    hide Failures;
    FailuresAppend(received, got);
  }

  lemma FailuresGoOn(received: seq<Attempt>, got: Attempt)
    requires FailedBefore(received, |received|)
    ensures FailedBefore(received + [got], |received|)
    ensures !got.outcome.Connected? ==> FailedBefore(received + [got], |received| + 1)
  {
  }

  // The same step, seen from the caller's own variables.
  lemma TakeCaller(n: nat, ctxDone: bool, canceled: bool, exited: bool, started: nat, received: seq<Attempt>,
                   caller: Caller, got: Attempt)
    requires CallerInv(n, ctxDone, canceled, exited, started, received, caller)
    requires !caller.Done?
    ensures var won := caller.Collecting? && got.outcome.Connected?;
            var next := if won then Canceling(Winner(|received|, got)) else caller;
            CallerInv(n, ctxDone, canceled, exited, started, received + [got], next)
    ensures Failures(received + [got]) == Failures(received) + (if got.outcome.Failed? then [got] else [])
  {
    hide Failures, FailedBefore;
    FailuresAppend(received, got);
    if caller.Collecting? {
      FailuresGoOn(received, got);
    } else {
      hide EndInv;
      EndStays(n, ctxDone, received, caller, got);
    }
  }

  // The caller hands over the winner's socket.
  lemma HandMove(phase: seq<Phase>, socket: seq<Socket>, log: seq<Attempt>, taken: nat, end: Ending)
    requires LogInv(phase, log) && SocketInv(phase, socket, log, taken, Draining(end))
    requires end.Winner? ==> end.position < taken <= |log| && log[end.position] == end.report
    ensures var handed := if end.Winner? then SetSocket(socket, end.report.address, Handed) else socket;
            SocketInv(phase, handed, log, taken, Done(end))
  {
  }

  // Which report has won, and whether it was handed over, is all a socket depends on.
  lemma CallerMove(phase: seq<Phase>, socket: seq<Socket>, log: seq<Attempt>, taken: nat, caller: Caller, next: Caller)
    requires SocketInv(phase, socket, log, taken, caller)
    requires forall k :: 0 <= k < taken ==> (IsWinner(caller, k) <==> IsWinner(next, k))
    requires forall k :: 0 <= k < taken && IsWinner(caller, k) ==> (caller.Done? <==> next.Done?)
    ensures SocketInv(phase, socket, log, taken, next)
  {
  }

  lemma SchedulerMove(n: nat, scheduler: Scheduler, started: nat, phase: seq<Phase>, done: bool, i: nat, p: Phase)
    requires SchedulerInv(n, scheduler, started, phase, done)
    requires i < |phase| && !phase[i].Idle? && !p.Idle?
    ensures SchedulerInv(n, scheduler, started, phase[i := p], done)
  {
  }

  lemma SchedulerDone(n: nat, scheduler: Scheduler, started: nat, phase: seq<Phase>, done: bool)
    requires SchedulerInv(n, scheduler, started, phase, done)
    ensures SchedulerInv(n, scheduler, started, phase, true)
  {
  }

  lemma TokenMove(phase: seq<Phase>, log: seq<Attempt>, tokens: nat, i: nat)
    requires TokenInv(phase, log, tokens)
    requires i < |phase| && phase[i].Ready?
    ensures var report := phase[i].report;
            TokenInv(phase[i := if report.outcome.Failed? then Signalling else Finished], log + [report], tokens)
  {
    var report := phase[i].report;
    CountsAfterUpdate(phase, i, if report.outcome.Failed? then Signalling else Finished);
    FailuresAppend(log, report);
  }

  // Context, timers, scheduler: no dial and no report moves.
  lemma SchedulerStep(s: State, step: Step)
    requires Inv(s) && Enabled(s, step)
    requires step.ContextEnds? || step.TimerFires? || step.TokenTaken? || step.SchedulerStops? || step.SchedulerChecks?
             || step.StartedSent?
    ensures Inv(Apply(s, step))
  {
    var t := Apply(s, step);
    assert t.Log() == s.Log();
  }

  lemma SpawnStep(s: State)
    requires Inv(s) && Enabled(s, DialSpawned)
    ensures Inv(Apply(s, DialSpawned))
  {
    var t, i := Apply(s, DialSpawned), s.scheduler.at;
    assert t.Log() == s.Log();
    CountsAfterUpdate(s.phase, i, Dialing);
    PhaseMove(s.phase, s.socket, s.Log(), |s.received|, s.caller, i, Dialing);
    assert s.socket[i := Unopened] == s.socket;
  }

  lemma DialStep(s: State, step: Step)
    requires Inv(s) && Enabled(s, step)
    requires step.DialReturns? || step.DialReads?
    ensures Inv(Apply(s, step))
  {
    hide LogInv, TokenInv, SocketInv, SchedulerInv, CallerInv, Recorded;
    var t, i := Apply(s, step), step.i;
    assert t.Log() == s.Log();
    PhasesMatch(s);
    SchedulerMove(s.n, s.scheduler, s.started, s.phase, s.InnerDone(), i, t.phase[i]);
    TokensStay(s.phase, s.Log(), s.skips + s.next, i, t.phase[i]);
    PhaseMove(s.phase, s.socket, s.Log(), |s.received|, s.caller, i, t.phase[i]);
    assert s.socket[i := PhaseSocket(t.phase[i])] == t.socket;
  }

  lemma PhasesMatch(s: State)
    requires Inv(s)
    ensures |s.phase| == |s.socket| == s.n
    ensures forall i :: 0 <= i < s.n && !Posted(s.phase[i]) ==> s.socket[i] == PhaseSocket(s.phase[i])
  {
    hide LogInv, TokenInv, CallerInv, Recorded;
  }

  lemma TokensStay(phase: seq<Phase>, log: seq<Attempt>, tokens: nat, i: nat, p: Phase)
    requires TokenInv(phase, log, tokens) && i < |phase| && !phase[i].Signalling? && !p.Signalling?
    ensures TokenInv(phase[i := p], log, tokens)
  {
    hide Sum, Failures;
    CountsAfterUpdate(phase, i, p);
  }

  lemma SignalStep(s: State, i: nat)
    requires Inv(s) && Enabled(s, DialSignals(i))
    ensures Inv(Apply(s, DialSignals(i)))
  {
    hide CallerInv, Recorded, Sum, Failures, Distinct, IsWinner;
    var t := Apply(s, DialSignals(i));
    assert t.Log() == s.Log();
    CountsAfterUpdate(s.phase, i, Finished);
    SchedulerMove(s.n, s.scheduler, s.started, s.phase, s.InnerDone(), i, Finished);
  }

  lemma PostStep(s: State, i: nat)
    requires Inv(s) && Enabled(s, DialPosts(i))
    ensures Inv(Apply(s, DialPosts(i)))
  {
    hide LogInv, TokenInv, SocketInv, SchedulerInv, Failures, Distinct;
    var t := Apply(s, DialPosts(i));
    var report := s.phase[i].report;
    assert t.Log() == s.Log() + [report];
    TokenMove(s.phase, s.Log(), s.skips + s.next, i);
    SchedulerMove(s.n, s.scheduler, s.started, s.phase, s.InnerDone(), i, t.phase[i]);
    PostMove(s.phase, s.socket, s.Log(), |s.received|, s.caller, i, t.phase[i]);
  }

  lemma TakeStep(s: State, step: Step)
    requires Inv(s) && Enabled(s, step)
    requires step.CallerReceives? || step.CallerDrains?
    ensures Inv(Apply(s, step))
  {
    hide LogInv, TokenInv, SocketInv, SchedulerInv, Failures, Distinct;
    var t, got := Apply(s, step), s.results[0];
    assert t.Log() == s.Log() && s.Log()[|s.received|] == got;
    TakeCaller(s.n, s.ctxDone, s.canceled, s.scheduler.Exited?, s.started, s.received, s.caller, got);
    TakeMove(s.phase, s.socket, s.Log(), |s.received|, s.caller, step.CallerReceives? && got.outcome.Connected?);
  }

  lemma ReturnStep(s: State)
    requires Inv(s) && Enabled(s, CallerReturns)
    ensures Inv(Apply(s, CallerReturns))
  {
    hide LogInv, TokenInv, SocketInv, SchedulerInv, Failures, Distinct;
    var t := Apply(s, CallerReturns);
    assert t.Log() == s.Log();
    ReceivedBound(s);
    SchedulerDone(s.n, s.scheduler, s.started, s.phase, s.InnerDone());
    if s.caller.Draining? {
      HandMove(s.phase, s.socket, s.Log(), |s.received|, s.caller.end);
    } else {
      CallerMove(s.phase, s.socket, s.Log(), |s.received|, s.caller, t.caller);
    }
  }

  lemma CallerStep(s: State, step: Step)
    requires Inv(s) && Enabled(s, step)
    requires step.CallerSeesExpiry? || step.CallerCancels? || step.CallerSeesScheduled?
    ensures Inv(Apply(s, step))
  {
    hide LogInv, TokenInv, SocketInv, SchedulerInv, Failures, Distinct;
    var t := Apply(s, step);
    assert t.Log() == s.Log();
    SchedulerDone(s.n, s.scheduler, s.started, s.phase, s.InnerDone());
    CallerMove(s.phase, s.socket, s.Log(), |s.received|, s.caller, t.caller);
  }

  /** The invariant survives every step of every goroutine. */
  lemma StepInv(s: State, step: Step)
    requires Inv(s) && Enabled(s, step)
    ensures Inv(Apply(s, step))
  {
    match step
    case DialSpawned => SpawnStep(s);
    case DialReturns(_, _) => DialStep(s, step);
    case DialReads(_) => DialStep(s, step);
    case DialSignals(i) => SignalStep(s, i);
    case DialPosts(i) => PostStep(s, i);
    case CallerReceives => TakeStep(s, step);
    case CallerDrains => TakeStep(s, step);
    case CallerReturns => ReturnStep(s);
    case CallerSeesExpiry => CallerStep(s, step);
    case CallerCancels => CallerStep(s, step);
    case CallerSeesScheduled => CallerStep(s, step);
    case _ => SchedulerStep(s, step);
  }

  // ---------------------------------------------------------------- whole runs

  /** Every interleaving: any enabled step may come next. */
  ghost predicate Run(run: seq<State>, steps: seq<Step>, n: nat) {
    && |run| == |steps| + 1
    && Init(run[0], n)
    && forall k {:trigger steps[k]} :: 0 <= k < |steps| ==>
      Enabled(run[k], steps[k]) && run[k + 1] == Apply(run[k], steps[k])
  }

  lemma {:induction false} RunInv(run: seq<State>, steps: seq<Step>, n: nat, k: nat)
    requires Run(run, steps, n) && k < |run|
    ensures Inv(run[k]) && run[k].n == n
  {
    hide Inv;
    if k == 0 {
      InitInv(run[0], n);
    } else {
      RunInv(run, steps, n, k - 1);
      StepInv(run[k - 1], steps[k - 1]);
      assert run[k] == Apply(run[k - 1], steps[k - 1]);
    }
  }

  function SchedulerRank(scheduler: Scheduler, n: nat): int {
    match scheduler
    case Exited => 0
    case Waiting(at) => 4 * (n - at)
    case Checking(at) => 4 * (n - at) - 1
    case Launching(at) => 4 * (n - at) - 2
    case Spawning(at) => 4 * (n - at) - 3
  }

  function CallerRank(caller: Caller): nat {
    match caller
    case Collecting => 4
    case Canceling(_) => 3
    case AwaitingScheduler(_) => 2
    case Draining(_) => 1
    case Done(_) => 0
  }

  function Measure(s: State): int {
    (if s.ctxDone then 0 else 1) + SchedulerRank(s.scheduler, s.n) + Sum(s.phase, PhaseRank) + |s.results|
      + CallerRank(s.caller)
  }

  lemma StepDecreases(s: State, step: Step)
    requires Inv(s) && Enabled(s, step)
    ensures Measure(Apply(s, step)) < Measure(s)
  {
    hide LogInv, TokenInv, SocketInv, Failures, Distinct, CallerInv, Sum, MarkFrom;
    if step.DialSpawned? {
      CountsAfterUpdate(s.phase, s.scheduler.at, Dialing);
    } else if step.DialReturns? || step.DialReads? || step.DialPosts? || step.DialSignals? {
      CountsAfterUpdate(s.phase, step.i, Apply(s, step).phase[step.i]);
    }
  }

  lemma {:induction false} RunBounded(run: seq<State>, steps: seq<Step>, n: nat, k: nat)
    requires Run(run, steps, n) && k < |run|
    ensures k + Measure(run[k]) <= 10 * n + 4
  {
    hide Inv, Measure;
    if k == 0 {
      InitMeasure(run[0], n);
    } else {
      RunBounded(run, steps, n, k - 1);
      RunInv(run, steps, n, k - 1);
      StepDecreases(run[k - 1], steps[k - 1]);
      assert run[k] == Apply(run[k - 1], steps[k - 1]);
    }
  }

  lemma InitMeasure(s: State, n: nat)
    requires Init(s, n)
    ensures Measure(s) == 10 * n + 4
  {
    AllIdle(n);
  }

  /** The call has returned and no goroutine it started is left. */
  ghost predicate Quiescent(s: State) {
    s.caller.Done? && s.scheduler.Exited? && forall i :: 0 <= i < |s.phase| ==> s.phase[i].Idle? || s.phase[i].Finished?
  }

  /** No deadlock: short of the end, something other than the deadline can always move. */
  lemma Progress(s: State) returns (step: Step)
    requires Inv(s) && !Quiescent(s)
    ensures Enabled(s, step) && !step.ContextEnds?
  {
    hide SocketInv, Distinct, Sum, Failures, FailedBefore, EndInv, Recorded;
    ReceivedBound(s);
    if !s.scheduler.Exited? {
      step := match s.scheduler
        case Waiting(_) => TimerFires
        case Checking(_) => SchedulerChecks
        case Launching(_) => StartedSent
        case Spawning(_) => DialSpawned;
    } else if i :| 0 <= i < s.n && s.phase[i].Dialing? {
      step := DialReturns(i, Connected);
    } else if i :| 0 <= i < s.n && s.phase[i].Returned? {
      step := DialReads(i);
    } else if i :| 0 <= i < s.n && s.phase[i].Ready? {
      SumMissing(s.phase, PostedUnit, i);
      step := DialPosts(i);
    } else if i :| 0 <= i < s.n && s.phase[i].Signalling? {
      SumCovers(s.phase, SignallingUnit, i);
      step := DialSignals(i);
    } else {
      assert forall i :: 0 <= i < s.started ==> Posted(s.phase[i]);
      SumAtLeast(s.phase, PostedUnit, s.started);
      step := match s.caller
        case Collecting =>
          if |s.received| == s.n then CallerReturns else if s.results != [] then CallerReceives else CallerSeesExpiry
        case Canceling(_) => CallerCancels
        case AwaitingScheduler(_) => CallerSeesScheduled
        case Draining(_) => if |s.received| < s.started then CallerDrains else CallerReturns
        case Done(_) => ContextEnds;
    }
  }

  // ---------------------------------------------------------------- what comes back

  /** What the reports say is what the dials of this run returned. */
  ghost predicate TrueReport(a: Attempt, steps: seq<Step>, done: bool) {
    && DialReturns(a.address, a.outcome) in steps && DialReads(a.address) in steps
    && (a.outcome.Failed? ==> a.cause == CauseOf(a.outcome.fault))
    && (a.aborted ==> a.outcome.Failed? && done)
  }

  /** Conversely, what a dial returned is what its goroutine carries or has posted. */
  ghost predicate Carried(phase: seq<Phase>, log: seq<Attempt>, i: nat, o: Outcome) {
    && i < |phase|
    && match phase[i] {
         case Idle => false
         case Dialing => false
         case Returned(p) => p == o
         case Ready(report) => report.outcome == o
         case _ => forall k :: 0 <= k < |log| && log[k].address == i ==> log[k].outcome == o
       }
  }

  ghost predicate AllCarried(phase: seq<Phase>, log: seq<Attempt>, steps: seq<Step>) {
    forall k :: 0 <= k < |steps| && steps[k].DialReturns? ==> Carried(phase, log, steps[k].i, steps[k].outcome)
  }

  ghost predicate Truthful(s: State, steps: seq<Step>) {
    && (forall i :: 0 <= i < |s.phase| && s.phase[i].Returned? ==> DialReturns(i, s.phase[i].outcome) in steps)
    && (forall i :: 0 <= i < |s.phase| && s.phase[i].Ready? ==> TrueReport(s.phase[i].report, steps, s.InnerDone()))
    && (forall k :: 0 <= k < |s.Log()| ==> TrueReport(s.Log()[k], steps, s.InnerDone()))
  }

  lemma LogKept(s: State, step: Step)
    requires Enabled(s, step) && !step.DialPosts?
    ensures Apply(s, step).Log() == s.Log()
  {
  }

  lemma TruthfulStep(s: State, steps: seq<Step>, step: Step)
    requires Truthful(s, steps) && Enabled(s, step)
    ensures Truthful(Apply(s, step), steps + [step])
  {
    hide SetSocket, MarkFrom;
    var t := Apply(s, step);
    forall a, d: bool | TrueReport(a, steps, d)
      ensures TrueReport(a, steps + [step], d) && TrueReport(a, steps + [step], true)
    {
    }
    if step.DialPosts? {
      assert t.Log() == s.Log() + [s.phase[step.i].report];
    } else {
      LogKept(s, step);
      assert step in steps + [step];
    }
  }

  lemma CarriedStep(s: State, i: nat, o: Outcome, step: Step)
    requires LogInv(s.phase, s.Log()) && Carried(s.phase, s.Log(), i, o) && Enabled(s, step)
    requires step.DialSpawned? ==> s.phase[s.scheduler.at].Idle?
    ensures Carried(Apply(s, step).phase, Apply(s, step).Log(), i, o)
  {
    hide SetSocket, MarkFrom, Sum;
    var t := Apply(s, step);
    if step.DialPosts? {
      assert t.Log() == s.Log() + [s.phase[step.i].report];
    } else {
      LogKept(s, step);
    }
  }

  lemma AllCarriedStep(s: State, steps: seq<Step>, step: Step)
    requires Inv(s) && AllCarried(s.phase, s.Log(), steps) && Enabled(s, step)
    ensures AllCarried(Apply(s, step).phase, Apply(s, step).Log(), steps + [step])
  {
    hide Carried, LogInv, SocketInv, TokenInv, CallerInv;
    var more := steps + [step];
    forall k | 0 <= k < |more| && more[k].DialReturns?
      ensures Carried(Apply(s, step).phase, Apply(s, step).Log(), more[k].i, more[k].outcome)
    {
      if k < |steps| {
        CarriedStep(s, steps[k].i, steps[k].outcome, step);
      } else {
        JustReturned(s, step.i, step.outcome);
      }
    }
  }

  lemma JustReturned(s: State, i: nat, o: Outcome)
    requires Enabled(s, DialReturns(i, o))
    ensures Carried(Apply(s, DialReturns(i, o)).phase, Apply(s, DialReturns(i, o)).Log(), i, o)
  {
  }

  lemma {:induction false} RunTruthful(run: seq<State>, steps: seq<Step>, n: nat, k: nat)
    requires Run(run, steps, n) && k < |run|
    ensures Truthful(run[k], steps[..k]) && AllCarried(run[k].phase, run[k].Log(), steps[..k])
  {
    hide Inv, Truthful, AllCarried;
    if k == 0 {
      StartsTruthful(run[0], n);
    } else {
      RunTruthful(run, steps, n, k - 1);
      RunInv(run, steps, n, k - 1);
      TruthfulStep(run[k - 1], steps[..k - 1], steps[k - 1]);
      AllCarriedStep(run[k - 1], steps[..k - 1], steps[k - 1]);
      assert run[k] == Apply(run[k - 1], steps[k - 1]);
      assert steps[..k] == steps[..k - 1] + [steps[k - 1]];
    }
  }

  lemma StartsTruthful(s: State, n: nat)
    requires Init(s, n)
    ensures Truthful(s, []) && AllCarried(s.phase, s.Log(), [])
  {
  }

  /** n reports under distinct addresses below n leave no address out. */
  lemma Pigeonhole(log: seq<Attempt>, n: nat, i: nat)
    requires Distinct(log) && |log| == n && i < n
    requires forall k :: 0 <= k < n ==> log[k].address < n
    ensures Reported(log, i)
  {
    DistinctCard(log, n);
    BelowCard(n);
    SubsetEqual(Addresses(log, n), Below(n));
    assert i in Addresses(log, n);
  }

  function Addresses(log: seq<Attempt>, n: nat): set<nat>
    requires n <= |log|
  {
    set k | 0 <= k < n :: log[k].address
  }

  function Below(n: nat): set<nat> { if n == 0 then {} else Below(n - 1) + {n - 1} }

  lemma {:induction false} BelowCard(n: nat)
    ensures |Below(n)| == n
    ensures forall j: nat {:trigger j in Below(n)} :: j in Below(n) <==> j < n
  {
    if n > 0 {
      BelowCard(n - 1);
    }
  }

  lemma {:induction false} DistinctCard(log: seq<Attempt>, n: nat)
    requires Distinct(log) && n <= |log|
    ensures |Addresses(log, n)| == n
  {
    if n > 0 {
      DistinctCard(log, n - 1);
      var before, last := Addresses(log, n - 1), log[n - 1].address;
      assert last !in before;
      assert Addresses(log, n) == before + {last};
    }
  }

  lemma {:induction false} SubsetEqual(a: set<nat>, b: set<nat>)
    requires a <= b && |a| == |b|
    ensures a == b
  {
    if a != {} {
      var x :| x in a;
      SubsetEqual(a - {x}, b - {x});
    }
  }

  // ---------------------------------------------------------------- the results

  ghost predicate Won(s: State, i: nat) {
    s.caller.Done? && s.caller.end.Winner? && s.caller.end.report.address == i
  }

  /** No leak: a socket some dial opened is handed to the caller if it won, and closed otherwise. */
  ghost predicate SocketsSettled(s: State, steps: seq<Step>) {
    forall k :: 0 <= k < |steps| && steps[k].DialReturns? && steps[k].outcome.HasSocket() ==>
      steps[k].i < |s.socket| && s.socket[steps[k].i] == if Won(s, steps[k].i) then Handed else Closed
  }

  /** Exactly the dials that failed, and the winner last when there is one. */
  ghost predicate AttemptsExact(s: State, steps: seq<Step>)
    requires s.caller.Done?
  {
    && Distinct(s.attempts)
    && (s.caller.end.Winner? ==>
          s.attempts != [] && s.attempts[|s.attempts| - 1] == s.caller.end.report
            && s.caller.end.report.outcome.Connected?)
    && (forall j :: 0 <= j < |s.attempts| ==>
          && DialReturns(s.attempts[j].address, s.attempts[j].outcome) in steps
          && (s.attempts[j].outcome.Failed? || (s.caller.end.Winner? && j == |s.attempts| - 1)))
    && (forall k :: 0 <= k < |steps| && steps[k].DialReturns? && steps[k].outcome.Failed? ==>
      Reported(s.attempts, steps[k].i))
  }

  lemma SettledSockets(s: State, steps: seq<Step>)
    requires Inv(s) && AllCarried(s.phase, s.Log(), steps) && s.caller.Done?
    ensures SocketsSettled(s, steps)
  {
    hide TokenInv, Failures, MarkFrom;
    forall k | 0 <= k < |steps| && steps[k].DialReturns? && steps[k].outcome.HasSocket()
      ensures steps[k].i < |s.socket| && s.socket[steps[k].i] == if Won(s, steps[k].i) then Handed else Closed
    {
      AllReceived(s, steps[k].i);
      assert Carried(s.phase, s.Log(), steps[k].i, steps[k].outcome);
      var j :| 0 <= j < |s.received| && s.received[j].address == steps[k].i;
      assert s.Log()[j] == s.received[j];
      if s.caller.end.Winner? {
        assert s.Log()[s.caller.end.position] == s.caller.end.report;
      }
    }
  }

  /** Once the call has returned, nothing is buffered and every started dial was received. */
  lemma AllReceived(s: State, i: nat)
    requires Inv(s) && s.caller.Done?
    ensures s.results == [] && s.Log() == s.received && |s.received| == s.started
    ensures i < s.started ==> Reported(s.received, i)
    ensures i < s.n && !s.phase[i].Idle? ==> i < s.started
  {
    hide TokenInv, SocketInv, MarkFrom, Failures;
    ReceivedBound(s);
    assert s.Log() == s.received;
    if i < s.started {
      Pigeonhole(s.received, s.started, i);
    }
  }

  lemma SettledAttempts(s: State, steps: seq<Step>)
    requires Inv(s) && Truthful(s, steps) && AllCarried(s.phase, s.Log(), steps) && s.caller.Done?
    ensures AttemptsExact(s, steps)
  {
    hide TokenInv, SocketInv, SchedulerInv, LogInv, Failures, Sum, Carried, Reported, Distinct, FailedBefore;
    AllReceived(s, 0);
    FailuresAreReal(s, steps);
    assert Distinct(s.attempts) by { AttemptsDistinct(s); }
    assert s.caller.end.Winner? ==> s.Log()[s.caller.end.position] == s.caller.end.report;
    forall k | 0 <= k < |steps| && steps[k].DialReturns? && steps[k].outcome.Failed?
      ensures Reported(s.attempts, steps[k].i)
    {
      ListedIfFailed(s, steps[k].i, steps[k].outcome);
    }
  }

  lemma FailuresAreReal(s: State, steps: seq<Step>)
    requires Inv(s) && Truthful(s, steps) && s.caller.Done?
    ensures forall j :: 0 <= j < |Failures(s.received)| ==>
      DialReturns(Failures(s.received)[j].address, Failures(s.received)[j].outcome) in steps
        && Failures(s.received)[j].outcome.Failed?
  {
    hide Inv, Failures;
    AllReceived(s, 0);
    var failures := Failures(s.received);
    forall j | 0 <= j < |failures|
      ensures DialReturns(failures[j].address, failures[j].outcome) in steps && failures[j].outcome.Failed?
    {
      FailuresFrom(s.received, j);
      var k :| 0 <= k < |s.received| && s.received[k] == failures[j];
      assert s.Log()[k] == failures[j];
    }
  }

  lemma AttemptsDistinct(s: State)
    requires Inv(s) && s.caller.Done?
    ensures Distinct(s.attempts)
  {
    hide TokenInv, SocketInv, SchedulerInv, Failures, Sum, FailedBefore;
    AllReceived(s, 0);
    var failures := Failures(s.received);
    FailuresDistinct(s.received);
    if s.caller.end.Winner? {
      var won := s.caller.end.position;
      forall j | 0 <= j < |failures|
        ensures failures[j].address != s.received[won].address
      {
        FailuresFrom(s.received, j);
        var k :| 0 <= k < |s.received| && s.received[k] == failures[j];
        assert s.Log()[k] == failures[j] && s.Log()[won] == s.received[won];
      }
    }
  }

  lemma ListedIfFailed(s: State, i: nat, o: Outcome)
    requires Inv(s) && s.caller.Done? && o.Failed? && Carried(s.phase, s.Log(), i, o)
    ensures Reported(s.attempts, i)
  {
    hide TokenInv, SocketInv, Distinct, Failures;
    AllReceived(s, i);
    var j :| 0 <= j < |s.received| && s.received[j].address == i;
    assert s.Log()[j] == s.received[j];
    FailuresComplete(s.received, j);
    var k :| 0 <= k < |Failures(s.received)| && Failures(s.received)[k] == s.received[j];
    assert s.attempts[k].address == i;
  }

  /** Every interleaving of scheduler, dials, deadline and caller is finite. */
  lemma RunsAreBounded(run: seq<State>, steps: seq<Step>, n: nat)
    requires Run(run, steps, n)
    ensures |steps| <= 10 * n + 4
  {
    hide Inv, Measure;
    RunBounded(run, steps, n, |steps|);
    RunInv(run, steps, n, |steps|);
    MeasureNonNegative(run[|steps|]);
  }

  lemma MeasureNonNegative(s: State)
    requires Inv(s)
    ensures 0 <= Measure(s)
  {
  }

  /**
    A run that can go no further, with or without the deadline, has returned to its caller
    and left no goroutine behind: `dialIPs` cannot deadlock or leak a goroutine.
   */
  lemma MaximalRunsReturn(run: seq<State>, steps: seq<Step>, n: nat)
    requires Run(run, steps, n)
    requires forall step :: Enabled(run[|steps|], step) ==> step.ContextEnds?
    ensures Quiescent(run[|steps|])
  {
    hide Inv, Quiescent, Enabled;
    RunInv(run, steps, n, |steps|);
    if !Quiescent(run[|steps|]) {
      var step := Progress(run[|steps|]);
    }
  }

  /** In every run, once the call has returned: no socket leaks, and the attempts are exact. */
  lemma ReturnedRunsAreSettled(run: seq<State>, steps: seq<Step>, n: nat)
    requires Run(run, steps, n) && run[|steps|].caller.Done?
    ensures SocketsSettled(run[|steps|], steps)
    ensures AttemptsExact(run[|steps|], steps)
  {
    hide Inv, Truthful, AllCarried, SocketsSettled, AttemptsExact;
    RunInv(run, steps, n, |steps|);
    RunTruthful(run, steps, n, |steps|);
    assert steps[..|steps|] == steps;
    SettledSockets(run[|steps|], steps);
    SettledAttempts(run[|steps|], steps);
  }

  /**
    The returned connection is the first success received, and there is none only when the
    context ended or every address was dialed and failed.
   */
  lemma ReturnedForAReason(run: seq<State>, steps: seq<Step>, n: nat)
    requires Run(run, steps, n) && run[|steps|].caller.Done?
    ensures var s := run[|steps|];
            match s.caller.end {
              case Winner(k, got) =>
                k < |s.received| && s.received[k] == got && got.outcome.Connected? && FailedBefore(s.received, k)
              case Expired(_) => s.ctxDone
              case Exhausted => s.started == n == |s.received| && FailedBefore(s.received, n)
            }
    ensures run[|steps|].started == |run[|steps|].received|
  {
    hide SocketInv, TokenInv, LogInv;
    RunInv(run, steps, n, |steps|);
  }

  /** The stagger is fast-forwarded at most once for each dial that failed. */
  lemma OneSkipPerFailure(run: seq<State>, steps: seq<Step>, n: nat)
    requires Run(run, steps, n)
    ensures run[|steps|].skips <= |Failures(run[|steps|].Log())|
  {
    hide SocketInv, SchedulerInv, LogInv, CallerInv;
    RunInv(run, steps, n, |steps|);
  }

  // ---------------------------------------------------------------- what an attempt says

  /** Dial i has read its context, and what it made of it is carried or posted. */
  ghost predicate CarriesReport(phase: seq<Phase>, log: seq<Attempt>, i: nat, a: Attempt) {
    && i < |phase| && a.address == i
    && (phase[i].Ready? || Posted(phase[i]))
    && (phase[i].Ready? ==> phase[i].report == a)
    && (Posted(phase[i]) ==> forall k :: 0 <= k < |log| && log[k].address == i ==> log[k] == a)
  }

  lemma ReportStep(s: State, i: nat, a: Attempt, step: Step)
    requires LogInv(s.phase, s.Log()) && CarriesReport(s.phase, s.Log(), i, a) && Enabled(s, step)
    requires step.DialSpawned? ==> s.phase[s.scheduler.at].Idle?
    ensures CarriesReport(Apply(s, step).phase, Apply(s, step).Log(), i, a)
  {
    hide SetSocket, MarkFrom, Sum;
    if step.DialPosts? {
      assert Apply(s, step).Log() == s.Log() + [s.phase[step.i].report];
    } else {
      LogKept(s, step);
    }
  }

  /** A cause names a fault: each kind of failure by its own word, and every failure by some word. */
  predicate SaysWhy(c: Cause, o: Outcome) {
    && (c == CauseCanceled <==> o.Failed? && o.fault == Canceled)
    && (c == CauseTimeout <==> o.Failed? && (o.fault == DeadlineExceeded || o.fault == TimedOut))
    && (c == CauseRefused <==> o.Failed? && o.fault == Refused)
    && (c == NoCause <==> o.Connected?)
  }

  /** A dial that returned `o` and then found its context done, or not. */
  predicate ReadAs(a: Attempt, o: Outcome, done: bool) {
    a.outcome == o && (a.aborted <==> o.Failed? && done) && SaysWhy(a.cause, o)
  }

  lemma JustRead(s: State, i: nat) returns (a: Attempt)
    requires LogInv(s.phase, s.Log()) && Enabled(s, DialReads(i))
    ensures ReadAs(a, s.phase[i].outcome, s.ctxDone || s.canceled)
    ensures CarriesReport(Apply(s, DialReads(i)).phase, Apply(s, DialReads(i)).Log(), i, a)
  {
    hide Sum;
    a := Apply(s, DialReads(i)).phase[i].report;
  }

  lemma {:induction false} ReportCarried(run: seq<State>, steps: seq<Step>, n: nat, k: nat, i: nat, m: nat)
    returns (a: Attempt)
    requires Run(run, steps, n) && k < m < |run| && steps[k] == DialReads(i)
    ensures i < |run[k].phase| && run[k].phase[i].Returned?
    ensures ReadAs(a, run[k].phase[i].outcome, run[k].ctxDone || run[k].canceled)
    ensures CarriesReport(run[m].phase, run[m].Log(), i, a)
  {
    hide Inv, CarriesReport, ReadAs;
    RunInv(run, steps, n, m - 1);
    SpawnsIdle(run[m - 1]);
    assert run[m] == Apply(run[m - 1], steps[m - 1]);
    if k == m - 1 {
      a := JustRead(run[k], i);
    } else {
      a := ReportCarried(run, steps, n, k, i, m - 1);
      ReportStep(run[m - 1], i, a, steps[m - 1]);
    }
  }

  lemma SpawnsIdle(s: State)
    requires Inv(s)
    ensures LogInv(s.phase, s.Log())
    ensures s.scheduler.Spawning? ==> s.scheduler.at < |s.phase| && s.phase[s.scheduler.at].Idle?
  {
    hide LogInv, TokenInv, SocketInv, CallerInv, Recorded;
  }

  /** Which attempts a deadline leaves as their dials made them. */
  predicate Untouched(s: State, j: nat) { s.caller.Done? && (s.caller.end.Expired? ==> j < s.caller.end.before) }

  lemma UntouchedReceived(s: State, j: nat)
    requires Inv(s) && s.caller.Done? && j < |s.attempts|
    ensures exists k :: 0 <= k < |s.Log()| && s.Log()[k].address == s.attempts[j].address
                        && s.Log()[k].outcome == s.attempts[j].outcome
                        && (Untouched(s, j) ==> s.Log()[k] == s.attempts[j])
  {
    hide TokenInv, SocketInv, LogInv, SchedulerInv, Failures, FailedBefore;
    AllReceived(s, 0);
    if j < |Failures(s.received)| {
      FailuresFrom(s.received, j);
      var k :| 0 <= k < |s.received| && s.received[k] == Failures(s.received)[j];
      assert s.Log()[k] == s.received[k];
    } else {
      assert s.Log()[s.caller.end.position] == s.attempts[j];
    }
  }

  /**
    Every attempt returned was read by its dial's goroutine, once the dial had returned what the
    attempt says. It is marked aborted exactly when the dial failed and its context, or the race's
    own cancellation, was over at that reading; and its cause names the failure.
   */
  lemma AttemptsAreAsRead(run: seq<State>, steps: seq<Step>, n: nat, j: nat)
    requires Run(run, steps, n) && run[|steps|].caller.Done? && j < |run[|steps|].attempts|
    ensures var a := run[|steps|].attempts[j];
            && DialReads(a.address) in steps
            && forall k :: 0 <= k < |steps| && steps[k] == DialReads(a.address) ==>
                 && a.address < |run[k].phase| && run[k].phase[a.address] == Returned(a.outcome)
                 && (Untouched(run[|steps|], j) ==> ReadAs(a, a.outcome, run[k].ctxDone || run[k].canceled))
  {
    hide Inv, Truthful, AllCarried, ReadAs;
    var s := run[|steps|];
    var a := s.attempts[j];
    RunInv(run, steps, n, |steps|);
    RunTruthful(run, steps, n, |steps|);
    assert steps[..|steps|] == steps;
    UntouchedReceived(s, j);
    var at :| 0 <= at < |s.Log()| && s.Log()[at].address == a.address && s.Log()[at].outcome == a.outcome
              && (Untouched(s, j) ==> s.Log()[at] == a);
    LogReads(s, steps, at);
    forall k | 0 <= k < |steps| && steps[k] == DialReads(a.address)
      ensures a.address < |run[k].phase| && run[k].phase[a.address] == Returned(a.outcome)
      ensures Untouched(s, j) ==> ReadAs(a, a.outcome, run[k].ctxDone || run[k].canceled)
    {
      var read := ReportCarried(run, steps, n, k, a.address, |steps|);
      LogCarries(s, a.address, read, at);
      ReadOutcome(read, run[k].phase[a.address].outcome, run[k].ctxDone || run[k].canceled);
    }
  }

  lemma ReadOutcome(a: Attempt, o: Outcome, done: bool)
    requires ReadAs(a, o, done)
    ensures a.outcome == o
  {
  }

  lemma LogReads(s: State, steps: seq<Step>, at: nat)
    requires Truthful(s, steps) && at < |s.Log()|
    ensures DialReads(s.Log()[at].address) in steps
  {
  }

  lemma LogCarries(s: State, i: nat, a: Attempt, at: nat)
    requires Inv(s) && CarriesReport(s.phase, s.Log(), i, a) && at < |s.Log()| && s.Log()[at].address == i
    ensures s.Log()[at] == a
  {
    hide TokenInv, SocketInv, CallerInv, SchedulerInv, Recorded, Sum, Distinct;
  }

  // ---------------------------------------------------------------- the deadline

  lemma GrowStep(s: State, step: Step)
    requires Enabled(s, step)
    ensures s.received <= Apply(s, step).received
    ensures var t := Apply(s, step); !s.caller.Collecting? ==> !t.caller.Collecting? && t.caller.end == s.caller.end
    ensures var t := Apply(s, step); s.caller.Collecting? && !t.caller.Collecting? && t.caller.end.Expired? ==>
      step.CallerSeesExpiry? && t.caller.end.before == |s.attempts|
  {
    hide SetSocket, MarkFrom;
  }

  /** Received reports are never taken back, and a decision once made stands. */
  lemma {:induction false} RunGrows(run: seq<State>, steps: seq<Step>, n: nat, k: nat, m: nat)
    requires Run(run, steps, n) && k <= m < |run|
    ensures run[k].received <= run[m].received
    ensures !run[k].caller.Collecting? ==> !run[m].caller.Collecting? && run[m].caller.end == run[k].caller.end
  {
    hide Apply, Enabled;
    if k < m {
      RunGrows(run, steps, n, k, m - 1);
      GrowStep(run[m - 1], steps[m - 1]);
      assert run[m] == Apply(run[m - 1], steps[m - 1]);
    }
  }

  lemma {:induction false} ExpirySeen(run: seq<State>, steps: seq<Step>, n: nat, m: nat) returns (k: nat)
    requires Run(run, steps, n) && m < |run| && !run[m].caller.Collecting? && run[m].caller.end.Expired?
    ensures k < m && steps[k] == CallerSeesExpiry && run[k].caller.Collecting?
    ensures run[m].caller.end.before == |run[k].attempts|
  {
    hide Apply, Enabled;
    assert m > 0;
    GrowStep(run[m - 1], steps[m - 1]);
    assert run[m] == Apply(run[m - 1], steps[m - 1]);
    if run[m - 1].caller.Collecting? {
      k := m - 1;
    } else {
      k := ExpirySeen(run, steps, n, m - 1);
    }
  }

  lemma {:induction false} FailuresPrefix(log: seq<Attempt>, more: seq<Attempt>)
    requires log <= more
    ensures Failures(log) <= Failures(more)
  {
    if log != more {
      FailuresPrefix(log, more[..|more| - 1]);
    } else {
      assert log == more;
    }
  }

  /**
    On a deadline, what was recorded before it stays as it was; every failure drained after it
    is marked aborted, and an internal cancellation is named after the enclosing error.
   */
  lemma DeadlineMarksTheRest(run: seq<State>, steps: seq<Step>, n: nat) returns (seen: nat)
    requires Run(run, steps, n) && run[|steps|].caller.Done? && run[|steps|].caller.end.Expired?
    ensures seen < |steps| && steps[seen] == CallerSeesExpiry
    ensures run[seen].attempts <= run[|steps|].attempts && run[|steps|].caller.end.before == |run[seen].attempts|
    ensures |run[|steps|].attempts| == |Failures(run[|steps|].received)|
    ensures forall j :: |run[seen].attempts| <= j < |run[|steps|].attempts| ==>
      MarkedBy(run[|steps|].attempts[j], Failures(run[|steps|].received)[j], run[|steps|].expiry)
  {
    hide Inv, Truthful, AllCarried, MarkedBy;
    var s := run[|steps|];
    seen := ExpirySeen(run, steps, n, |steps|);
    RunGrows(run, steps, n, seen, |steps|);
    FailuresPrefix(run[seen].received, s.received);
    RunInv(run, steps, n, seen);
    RunInv(run, steps, n, |steps|);
    RunTruthful(run, steps, n, |steps|);
    assert steps[..|steps|] == steps;
    StillCollecting(run[seen]);
    ExpiredAttempts(s, steps);
  }

  lemma StillCollecting(s: State)
    requires Inv(s) && s.caller.Collecting?
    ensures s.attempts == Failures(s.received)
  {
    hide LogInv, TokenInv, SocketInv, SchedulerInv;
  }

  /** A failure drained after the deadline: aborted, and an internal cancellation named after the enclosing error. */
  predicate MarkedBy(a: Attempt, report: Attempt, expiry: Fault) {
    && a.address == report.address && a.outcome == report.outcome && a.outcome.Failed? && a.aborted
    && SaysWhy(a.cause, if a.outcome.fault == Canceled then Failed(expiry, false) else a.outcome)
  }

  lemma ExpiredAttempts(s: State, steps: seq<Step>)
    requires Inv(s) && Truthful(s, steps) && s.caller.Done? && s.caller.end.Expired?
    ensures |s.attempts| == |Failures(s.received)|
    ensures forall j :: 0 <= j < s.caller.end.before ==> j < |s.attempts| && s.attempts[j] == Failures(s.received)[j]
    ensures forall j :: s.caller.end.before <= j < |s.attempts| ==>
      MarkedBy(s.attempts[j], Failures(s.received)[j], s.expiry)
  {
    hide SocketInv, TokenInv, LogInv, SchedulerInv;
    forall j | s.caller.end.before <= j < |s.attempts|
      ensures MarkedBy(s.attempts[j], Failures(s.received)[j], s.expiry)
    {
      FailuresFrom(s.received, j);
      var k :| 0 <= k < |s.received| && s.received[k] == Failures(s.received)[j];
      assert s.Log()[k] == s.received[k];
    }
  }

  // ---------------------------------------------------------------- when dials start

  function MayStart(s: State): nat { s.started + (if s.scheduler.Launching? then 1 else 0) }

  lemma StartsStep(s: State, step: Step)
    requires Enabled(s, step) && (s.ctxDone || s.canceled)
    ensures var t := Apply(s, step); (t.ctxDone || t.canceled) && MayStart(t) <= MayStart(s)
  {
    hide SetSocket, MarkFrom;
  }

  /** Once the context is over, at most the dial the scheduler had already checked for still starts. */
  lemma {:induction false} NothingStartsAfterCancel(run: seq<State>, steps: seq<Step>, n: nat, k: nat, m: nat)
    requires Run(run, steps, n) && k <= m < |run| && (run[k].ctxDone || run[k].canceled)
    ensures run[m].ctxDone || run[m].canceled
    ensures run[m].started <= MayStart(run[m]) <= MayStart(run[k])
  {
    hide Apply, Enabled;
    if k < m {
      NothingStartsAfterCancel(run, steps, n, k, m - 1);
      StartsStep(run[m - 1], steps[m - 1]);
      assert run[m] == Apply(run[m - 1], steps[m - 1]);
    }
  }

  function Waits(steps: seq<Step>): nat {
    if steps == [] then 0
    else
      var last := steps[|steps| - 1];
      Waits(steps[..|steps| - 1]) + (if last.TimerFires? || last.TokenTaken? then 1 else 0)
  }

  ghost predicate Staggered(s: State, waits: nat) {
    && s.started <= 1 + waits
    && (!s.scheduler.Exited? ==> s.scheduler.at == waits + (if s.scheduler.Waiting? then 1 else 0))
  }

  lemma StaggerStep(s: State, step: Step, waits: nat)
    requires Staggered(s, waits) && Enabled(s, step)
    requires !s.scheduler.Exited? ==> s.started == s.scheduler.at + (if s.scheduler.Spawning? then 1 else 0)
    ensures Staggered(Apply(s, step), waits + (if step.TimerFires? || step.TokenTaken? then 1 else 0))
  {
    hide SetSocket, MarkFrom;
  }

  lemma StartedAt(s: State)
    requires Inv(s)
    ensures !s.scheduler.Exited? ==> s.started == s.scheduler.at + (if s.scheduler.Spawning? then 1 else 0)
  {
    hide LogInv, TokenInv, SocketInv, CallerInv, Recorded;
  }

  lemma {:induction false} RunStaggered(run: seq<State>, steps: seq<Step>, n: nat, k: nat)
    requires Run(run, steps, n) && k < |run|
    ensures Staggered(run[k], Waits(steps[..k]))
  {
    hide Inv, Staggered;
    if k == 0 {
      StartsStaggered(run[0], n);
    } else {
      RunStaggered(run, steps, n, k - 1);
      RunInv(run, steps, n, k - 1);
      StartedAt(run[k - 1]);
      StaggerStep(run[k - 1], steps[k - 1], Waits(steps[..k - 1]));
      assert run[k] == Apply(run[k - 1], steps[k - 1]);
      assert steps[..k][..k - 1] == steps[..k - 1];
    }
  }

  lemma StartsStaggered(s: State, n: nat)
    requires Init(s, n)
    ensures Staggered(s, 0)
  {
  }

  /** Every dial but the first waited its turn: a whole stagger, or the token of a failure. */
  lemma DialsAreStaggered(run: seq<State>, steps: seq<Step>, n: nat)
    requires Run(run, steps, n)
    ensures run[|steps|].started <= 1 + Waits(steps)
  {
    assert steps[..|steps|] == steps;
    RunStaggered(run, steps, n, |steps|);
  }
}
