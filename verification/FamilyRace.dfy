/** The two-family race of `dialContextFromSources`, as a transition system. */
module FamilyRace {
  import opened Counting
  import opened Wrappers

  datatype Fault = DialFault | ContextFault | FamilyLost

  datatype Report = Connection | Failure(fault: Fault)

  /** Where one family's goroutine is. */
  datatype Worker =
    | Dialing
    | Connected              // dialed without error, about to read ctx.Err()
    | Claiming               // about to compare-and-swap the winner flag
    | Discarding             // may not hand its socket back, about to close it
    | Naming                 // closed it, about to read ctx.Err() for the error to report
    | Reporting(report: Report)
    | Finished

  datatype Socket = Unopened | Open | Closed | Handed

  datatype Message = Message(family: nat, report: Report)

  datatype Caller = Receiving | Returned(conn: Option<nat>)

  /**
    One goroutine per selected source family, a compare-and-swap that decides who may hand its
    socket back, and a fan-in that reads at most one report per goroutine.
   */
  datatype State = State(
    families: nat,
    ctxDone: bool,              // the enclosing context ended, or the deferred cancel() ran
    won: Option<nat>,           // who claimed; the code keeps only whether anyone did
    workers: seq<Worker>,
    socket: seq<Socket>,
    received: seq<Message>,     // every report taken out of the channel
    results: seq<Message>,      // the channel, of capacity two
    caller: Caller)
  {
    function Log(): seq<Message> { received + results }
  }

  const CAPACITY: nat := 2

  /** `ResolveSource` selects at least one source address, so one or two families race. */
  ghost predicate Init(s: State, families: nat) {
    && 1 <= families == s.families <= CAPACITY
    && !s.ctxDone && s.won == None
    && s.workers == seq(families, _ => Dialing)
    && s.socket == seq(families, _ => Unopened)
    && s.received == s.results == []
    && s.caller == Receiving
  }

  datatype Step =
    | ContextEnds
    | DialReturns(i: nat, connected: bool)
    | ReadsContext(i: nat)
    | Claims(i: nat)
    | Closes(i: nat)
    | NamesError(i: nat)
    | Posts(i: nat)
    | CallerReceives

  predicate Enabled(s: State, step: Step) {
    match step
    case ContextEnds => !s.ctxDone
    case DialReturns(i, _) => i < |s.workers| && s.workers[i].Dialing?
    case ReadsContext(i) => i < |s.workers| && s.workers[i].Connected?
    case Claims(i) => i < |s.workers| && s.workers[i].Claiming?
    case Closes(i) => i < |s.workers| && s.workers[i].Discarding?
    case NamesError(i) => i < |s.workers| && s.workers[i].Naming?
    case Posts(i) => i < |s.workers| && s.workers[i].Reporting? && |s.results| < CAPACITY
    case CallerReceives => s.caller.Receiving? && |s.received| < s.families && s.results != []
  }

  function SetSocket(socket: seq<Socket>, i: nat, v: Socket): seq<Socket> {
    if i < |socket| then socket[i := v] else socket
  }

  function Apply(s: State, step: Step): State
    requires Enabled(s, step)
  {
    match step
    case ContextEnds => s.(ctxDone := true)
    case DialReturns(i, connected) =>
      if connected
      then s.(workers := s.workers[i := Connected], socket := SetSocket(s.socket, i, Open))
      else s.(workers := s.workers[i := Reporting(Failure(DialFault))])
    case ReadsContext(i) => s.(workers := s.workers[i := if s.ctxDone then Discarding else Claiming])
    case Claims(i) =>
      if s.won.None?
      then s.(won := Some(i), workers := s.workers[i := Reporting(Connection)])
      else s.(workers := s.workers[i := Discarding])
    case Closes(i) => s.(workers := s.workers[i := Naming], socket := SetSocket(s.socket, i, Closed))
    case NamesError(i) =>
      s.(workers := s.workers[i := Reporting(Failure(if s.ctxDone then ContextFault else FamilyLost))])
    case Posts(i) =>
      s.(results := s.results + [Message(i, s.workers[i].report)], workers := s.workers[i := Finished])
    case CallerReceives =>
      var got := s.results[0];
      var taken := s.(received := s.received + [got], results := s.results[1..]);
      if got.report.Connection? then
        taken.(caller := Returned(Some(got.family)), ctxDone := true, socket := SetSocket(s.socket, got.family, Handed))
      else if |s.received| + 1 == s.families then
        taken.(caller := Returned(None), ctxDone := true)
      else taken
  }

  // ---------------------------------------------------------------- invariant

  function FinishedUnit(w: Worker): nat { if w.Finished? then 1 else 0 }

  ghost predicate Distinct(log: seq<Message>) {
    forall j, k :: 0 <= j < k < |log| ==> log[j].family != log[k].family
  }

  /** One report per finished goroutine, error-free exactly for the one that claimed. */
  ghost predicate LogInv(workers: seq<Worker>, log: seq<Message>, won: Option<nat>) {
    && Distinct(log)
    && |log| == Sum(workers, FinishedUnit)
    && (forall k :: 0 <= k < |log| ==>
          && log[k].family < |workers| && workers[log[k].family].Finished?
          && (log[k].report.Connection? <==> won == Some(log[k].family)))
    && (forall i :: 0 <= i < |workers| && !workers[i].Finished? ==>
          (workers[i] == Reporting(Connection) <==> won == Some(i)))
    && (won.Some? ==> won.value < |workers|)
  }

  function SocketAllowed(w: Worker, mine: bool, handed: bool, v: Socket): bool {
    if mine then v == (if handed then Handed else Open)
    else match w
      case Dialing => v == Unopened
      case Connected => v == Open
      case Claiming => v == Open
      case Discarding => v == Open
      case _ => v == Unopened || v == Closed
  }

  ghost predicate SocketInv(workers: seq<Worker>, socket: seq<Socket>, won: Option<nat>, caller: Caller) {
    && |socket| == |workers|
    && forall i :: 0 <= i < |workers| ==>
         SocketAllowed(workers[i], won == Some(i), caller == Returned(Some(i)), socket[i])
  }

  ghost predicate CallerInv(families: nat, received: seq<Message>, won: Option<nat>, caller: Caller) {
    match caller
    case Receiving => |received| < families && forall k :: 0 <= k < |received| ==> received[k].report.Failure?
    case Returned(Some(i)) => won == Some(i) && received != [] && received[|received| - 1] == Message(i, Connection)
    case Returned(None) => |received| == families && forall k :: 0 <= k < |received| ==> received[k].report.Failure?
  }

  ghost predicate Inv(s: State) {
    && 1 <= s.families == |s.workers| <= CAPACITY
    && LogInv(s.workers, s.Log(), s.won)
    && SocketInv(s.workers, s.socket, s.won, s.caller)
    && CallerInv(s.families, s.received, s.won, s.caller)
    && (s.caller.Returned? ==> s.ctxDone)
  }

  lemma InitInv(s: State, families: nat)
    requires Init(s, families)
    ensures Inv(s)
  {
    SumConstant(families, FinishedUnit, Dialing);
  }

  // A goroutine moves on without claiming or posting.
  lemma WorkerMove(workers: seq<Worker>, socket: seq<Socket>, log: seq<Message>, won: Option<nat>, caller: Caller,
                   i: nat, w: Worker)
    requires LogInv(workers, log, won) && SocketInv(workers, socket, won, caller)
    requires i < |workers| && !workers[i].Finished? && !w.Finished? && won != Some(i) && w != Reporting(Connection)
    requires caller == Returned(Some(i)) ==> won == Some(i)
    ensures LogInv(workers[i := w], log, won)
    ensures forall v :: SocketAllowed(w, false, false, v) ==> SocketInv(workers[i := w], socket[i := v], won, caller)
  {
    hide Sum, Distinct;
    SumUpdate(workers, FinishedUnit, i, w);
  }

  lemma ClaimMove(workers: seq<Worker>, socket: seq<Socket>, log: seq<Message>, caller: Caller, i: nat)
    requires LogInv(workers, log, None) && SocketInv(workers, socket, None, caller)
    requires i < |workers| && workers[i].Claiming? && caller != Returned(Some(i))
    ensures LogInv(workers[i := Reporting(Connection)], log, Some(i))
    ensures SocketInv(workers[i := Reporting(Connection)], socket, Some(i), caller)
  {
    hide Sum, Distinct;
    SumUpdate(workers, FinishedUnit, i, Reporting(Connection));
  }

  lemma WorkerStep(s: State, step: Step)
    requires Inv(s) && Enabled(s, step)
    requires !step.Posts? && !step.CallerReceives?
    ensures Inv(Apply(s, step))
  {
    hide Sum, Distinct, SocketInv, LogInv;
    var t := Apply(s, step);
    assert t.Log() == s.Log();
    if step.Claims? && s.won.None? {
      ClaimMove(s.workers, s.socket, s.Log(), s.caller, step.i);
    } else if !step.ContextEnds? {
      Unclaimed(s, step.i);
      WorkerMove(s.workers, s.socket, s.Log(), s.won, s.caller, step.i, t.workers[step.i]);
      assert SocketAllowed(t.workers[step.i], false, false, t.socket[step.i]);
      assert t.socket == s.socket[step.i := t.socket[step.i]];
    }
  }

  lemma Unclaimed(s: State, i: nat)
    requires Inv(s) && i < |s.workers| && !s.workers[i].Finished? && s.workers[i] != Reporting(Connection)
    ensures |s.socket| == |s.workers| && s.won != Some(i) && SocketAllowed(s.workers[i], false, false, s.socket[i])
  {
    hide Sum, Distinct;
  }

  lemma PostStep(s: State, i: nat)
    requires Inv(s) && Enabled(s, Posts(i))
    ensures Inv(Apply(s, Posts(i)))
  {
    hide Sum;
    var t := Apply(s, Posts(i));
    assert t.Log() == s.Log() + [Message(i, s.workers[i].report)];
    SumUpdate(s.workers, FinishedUnit, i, Finished);
    assert forall k :: 0 <= k < |s.Log()| ==> t.Log()[k] == s.Log()[k] && t.Log()[k].family != i;
  }

  lemma ReceiveStep(s: State)
    requires Inv(s) && Enabled(s, CallerReceives)
    ensures Inv(Apply(s, CallerReceives))
  {
    hide Sum, Distinct;
    var t := Apply(s, CallerReceives);
    assert t.Log() == s.Log();
    assert s.Log()[|s.received|] == s.results[0];
  }

  lemma StepInv(s: State, step: Step)
    requires Inv(s) && Enabled(s, step)
    ensures Inv(Apply(s, step))
  {
    hide LogInv, SocketInv, CallerInv;
    match step
    case Posts(i) => PostStep(s, i);
    case CallerReceives => ReceiveStep(s);
    case _ => WorkerStep(s, step);
  }

  // ---------------------------------------------------------------- whole runs

  ghost predicate Run(run: seq<State>, steps: seq<Step>, families: nat) {
    && |run| == |steps| + 1
    && Init(run[0], families)
    && forall k {:trigger steps[k]} :: 0 <= k < |steps| ==>
      Enabled(run[k], steps[k]) && run[k + 1] == Apply(run[k], steps[k])
  }

  lemma {:induction false} RunInv(run: seq<State>, steps: seq<Step>, families: nat, k: nat)
    requires Run(run, steps, families) && k < |run|
    ensures Inv(run[k]) && run[k].families == families == |run[k].workers|
  {
    hide Inv;
    if k == 0 {
      InitInv(run[0], families);
    } else {
      RunInv(run, steps, families, k - 1);
      StepInv(run[k - 1], steps[k - 1]);
      assert run[k] == Apply(run[k - 1], steps[k - 1]);
    }
  }

  function WorkerRank(w: Worker): nat {
    match w
    case Dialing => 7
    case Connected => 6
    case Claiming => 5
    case Discarding => 4
    case Naming => 3
    case Reporting(_) => 2
    case Finished => 0
  }

  function Measure(s: State): nat {
    (if s.ctxDone then 0 else 1) + Sum(s.workers, WorkerRank) + |s.results|
  }

  lemma StepDecreases(s: State, step: Step)
    requires Inv(s) && Enabled(s, step)
    ensures Measure(Apply(s, step)) < Measure(s)
  {
    hide LogInv, SocketInv, CallerInv, Sum;
    if !step.ContextEnds? && !step.CallerReceives? {
      SumUpdate(s.workers, WorkerRank, step.i, Apply(s, step).workers[step.i]);
    }
  }

  lemma {:induction false} RunBounded(run: seq<State>, steps: seq<Step>, families: nat, k: nat)
    requires Run(run, steps, families) && k < |run|
    ensures k + Measure(run[k]) <= 7 * families + 1
  {
    hide Inv;
    if k == 0 {
      SumConstant(families, WorkerRank, Dialing);
    } else {
      RunBounded(run, steps, families, k - 1);
      RunInv(run, steps, families, k - 1);
      StepDecreases(run[k - 1], steps[k - 1]);
      assert run[k] == Apply(run[k - 1], steps[k - 1]);
    }
  }

  ghost predicate Quiescent(s: State) {
    s.caller.Returned? && forall i :: 0 <= i < |s.workers| ==> s.workers[i].Finished?
  }

  /**
    The fan-in never waits for a report that cannot arrive, and no goroutine blocks on its
    report: short of the end, something other than the deadline can move.
   */
  lemma Progress(s: State) returns (step: Step)
    requires Inv(s) && !Quiescent(s)
    ensures Enabled(s, step) && !step.ContextEnds?
  {
    hide SocketInv, Distinct, Sum;
    if i :| 0 <= i < |s.workers| && !s.workers[i].Finished? {
      SumMissing(s.workers, FinishedUnit, i);
      var w := s.workers[i];
      step := if w.Dialing? then DialReturns(i, true)
              else if w.Connected? then ReadsContext(i)
              else if w.Claiming? then Claims(i)
              else if w.Discarding? then Closes(i)
              else if w.Naming? then NamesError(i)
              else Posts(i);
    } else {
      SumAtLeast(s.workers, FinishedUnit, |s.workers|);
      step := CallerReceives;
    }
  }

  // ---------------------------------------------------------------- the results

  /** Every run ends, and a run that can go no further has returned and left no goroutine. */
  lemma MaximalRunsReturn(run: seq<State>, steps: seq<Step>, families: nat)
    requires Run(run, steps, families)
    ensures |steps| <= 7 * families + 1
    ensures (forall step :: Enabled(run[|steps|], step) ==> step.ContextEnds?) ==> Quiescent(run[|steps|])
  {
    hide Inv, Quiescent, Enabled;
    RunBounded(run, steps, families, |steps|);
    RunInv(run, steps, families, |steps|);
    if !Quiescent(run[|steps|]) {
      var step := Progress(run[|steps|]);
    }
  }

  /** At most one report in the whole run is error-free, whether or not it was received. */
  lemma AtMostOneConnection(run: seq<State>, steps: seq<Step>, families: nat, j: nat, k: nat)
    requires Run(run, steps, families)
    requires j < |run[|steps|].Log()| && run[|steps|].Log()[j].report.Connection?
    requires k < |run[|steps|].Log()| && run[|steps|].Log()[k].report.Connection?
    ensures j == k
  {
    hide SocketInv, CallerInv, Sum;
    RunInv(run, steps, families, |steps|);
  }

  /**
    Once the call has returned: it hands back the socket of the family that won the claim and
    nothing else, it reports failure only when no family ever claims, and after the goroutines
    have finished every other opened socket is closed.
   */
  lemma ClaimDecides(run: seq<State>, steps: seq<Step>, families: nat, i: nat)
    requires Run(run, steps, families) && run[|steps|].caller.Returned? && i < families
    ensures var s := run[|steps|];
            && |s.socket| == |s.workers| == families
            && s.caller.conn == s.won
            && (s.socket[i] == Handed <==> s.won == Some(i))
            && (s.workers[i].Finished? ==> s.socket[i] != Open)
            && (s.won == None ==> |s.received| == families && forall k :: 0 <= k < |s.received| ==>
              s.received[k].report.Failure?)
  {
    hide Sum, Distinct;
    var s := run[|steps|];
    RunInv(run, steps, families, |steps|);
    if s.caller == Returned(None) {
      AllFailedNoClaim(s);
    }
  }

  lemma AllFailedNoClaim(s: State)
    requires Inv(s) && s.caller == Returned(None)
    ensures s.won == None
  {
    hide SocketInv, Distinct, Sum;
    if s.won.Some? {
      var w := s.won.value;
      if !s.workers[w].Finished? {
        SumMissing(s.workers, FinishedUnit, w);
      } else {
        SumAtMost(s.workers, FinishedUnit, s.families);
        AllReported(s, w);
      }
      assert false;
    }
  }

  /** With every goroutine's report in the log, each family has one. At most two families race. */
  lemma AllReported(s: State, w: nat)
    requires Inv(s) && w < s.families && |s.Log()| == s.families
    ensures exists k :: 0 <= k < |s.Log()| && s.Log()[k].family == w
  {
    hide SocketInv, CallerInv, Sum;
    assert s.Log()[0].family < s.families;
    if s.families == 2 {
      assert s.Log()[1].family < s.families;
      assert s.Log()[0].family != s.Log()[1].family;
    }
  }
}
