/**
  The two-query lookup of `lookupIPRetrying`: a second query goes out when the first fails
  retryably, or halfway through the budget beside a first query that is still waiting.
 */
module DnsRetry {
  import opened Wrappers
  import opened Ordering

  /** What errors.As finds. `timedOut` is what the wider timeout test says of the same error. */
  datatype LookupError = OtherError | DNSError(isTimeout: bool, isTemporary: bool, isNotFound: bool, timedOut: bool)

  datatype Answer = Answer(ips: seq<nat>, targets: seq<string>, err: Option<LookupError>)

  datatype Cause = NoCause | Timeout | TemporaryFailure

  function DnsFailureCause(err: Option<LookupError>): Cause {
    match err
    case Some(DNSError(isTimeout, isTemporary, isNotFound, timedOut)) =>
      if isTimeout || timedOut then Timeout
      else if isTemporary || !isNotFound then TemporaryFailure
      else NoCause
    case _ => NoCause
  }

  predicate Retryable(a: Answer) { DnsFailureCause(a.err) != NoCause }

  /** What the select in the loop may see next. */
  datatype Event = Resample | Received(answer: Answer)

  datatype State = State(
    outstanding: nat,
    spare: bool,
    fired: bool,              // the one-shot timer has been read
    sent: nat,                // queries started
    last: Option<Answer>,
    targets: seq<string>,
    result: Option<Answer>)

  const STARTED := State(1, true, false, 1, None, [], None)

  function Send(s: State): State {
    if s.spare then s.(spare := false, outstanding := s.outstanding + 1, sent := s.sent + 1) else s
  }

  function Merge(targets: seq<string>, more: seq<string>): seq<string> {
    SortedSet(targets + more, TextLE)
  }

  predicate Running(s: State) { s.result.None? && s.outstanding > 0 }

  /** The timer fires once; an answer can arrive only from a query in flight. */
  predicate Allowed(s: State, e: Event) {
    Running(s) && (e.Resample? ==> !s.fired)
  }

  function Apply(s: State, e: Event): State
    requires Allowed(s, e)
  {
    match e
    case Resample => Send(s.(fired := true))
    case Received(a) =>
      var t := s.(outstanding := s.outstanding - 1, targets := Merge(s.targets, a.targets));
      if Retryable(a) then Send(t.(last := Some(a))) else t.(result := Some(a))
  }

  /** A schedule the loop can live through, up to its return. */
  predicate Schedule(s: State, events: seq<Event>)
    decreases |events|
  {
    if events == [] then !Running(s)
    else Allowed(s, events[0]) && Schedule(Apply(s, events[0]), events[1..])
  }

  function Play(s: State, events: seq<Event>): State
    requires Schedule(s, events)
    decreases |events|
  {
    if events == [] then s else Play(Apply(s, events[0]), events[1..])
  }

  method LookupIPRetrying(events: seq<Event>)
    returns (ips: seq<nat>, targets: seq<string>, err: Option<LookupError>, sent: nat)
    requires Schedule(STARTED, events)
    ensures var end := Play(STARTED, events);
            && sent == end.sent && targets == end.targets
            && (end.result.Some? ==> ips == end.result.value.ips && err == end.result.value.err)
            && (end.result.None? ==> end.last.Some? && ips == end.last.value.ips && err == end.last.value.err)
  {
    hide SortedSet;
    var outstanding, spare := 1, true;
    sent, targets := 1, [];
    var last: Option<Answer> := None;
    ghost var fired := false;
    var i := 0;
    while outstanding > 0
      invariant 0 <= i <= |events|
      invariant outstanding == 0 ==> last.Some?
      invariant Schedule(State(outstanding, spare, fired, sent, last, targets, None), events[i..])
      invariant Play(State(outstanding, spare, fired, sent, last, targets, None), events[i..]) == Play(STARTED, events)
      decreases |events| - i
    {
      assert events[i..][1..] == events[i + 1..];
      match events[i] {
        case Resample =>
          fired := true;
          if spare {
            spare, outstanding, sent := false, outstanding + 1, sent + 1;
          }
        case Received(answer) =>
          outstanding := outstanding - 1;
          targets := SortedSet(targets + answer.targets, TextLE);
          if !Retryable(answer) {
            return answer.ips, targets, answer.err, sent;
          }
          last := Some(answer);
          if spare {
            spare, outstanding, sent := false, outstanding + 1, sent + 1;
          }
      }
      i := i + 1;
    }
    ips, err := last.value.ips, last.value.err;
  }

  // ---------------------------------------------------------------- every schedule

  function Answers(events: seq<Event>): seq<Answer> {
    if events == [] then []
    else (if events[0].Received? then [events[0].answer] else []) + Answers(events[1..])
  }

  ghost predicate Consistent(s: State) {
    && s.sent == (if s.spare then 1 else 2)
    && s.outstanding <= s.sent
    && (s.fired ==> !s.spare)
    && (s.spare && s.result.None? ==> s.outstanding == 1)
  }

  /** Every schedule is finite: at most one timer and one answer for each of two queries. */
  lemma {:induction false} SchedulesAreShort(s: State, events: seq<Event>)
    requires Consistent(s) && Schedule(s, events)
    ensures |events| <= (if s.fired then 0 else 1) + s.outstanding + (if s.spare then 1 else 0)
    ensures 1 <= Play(s, events).sent <= 2
    decreases |events|
  {
    if events != [] {
      SchedulesAreShort(Apply(s, events[0]), events[1..]);
    }
  }

  /** A call that has not returned waits for a query that is in flight. */
  lemma NeverStuck(s: State, a: Answer)
    requires Running(s)
    ensures Allowed(s, Received(a))
  {
  }

  predicate AllRetryable(answers: seq<Answer>) { forall k :: 0 <= k < |answers| ==> Retryable(answers[k]) }

  /** The last answer is the first conclusive one. */
  predicate Concludes(answers: seq<Answer>, a: Answer) {
    answers != [] && a == answers[|answers| - 1] && !Retryable(a) && AllRetryable(answers[..|answers| - 1])
  }

  lemma RetryableFirst(a: Answer, rest: seq<Answer>, end: Answer)
    requires Retryable(a)
    ensures AllRetryable(rest) ==> AllRetryable([a] + rest)
    ensures Concludes(rest, end) ==> Concludes([a] + rest, end)
  {
    if rest != [] {
      assert ([a] + rest)[..|rest|] == [a] + rest[..|rest| - 1];
    }
  }

  lemma {:induction false} FirstConclusive(s: State, events: seq<Event>)
    requires Consistent(s) && s.result.None? && Schedule(s, events)
    ensures var end, answers := Play(s, events), Answers(events);
            match end.result {
              case Some(a) => Concludes(answers, a)
              case None => AllRetryable(answers)
                           && end.last == (if answers == [] then s.last else Some(answers[|answers| - 1]))
                           && |answers| == s.outstanding + end.sent - s.sent
                           && (answers != [] ==> end.sent == 2)
            }
    decreases |events|
  {
    hide SortedSet, Merge, AllRetryable, Concludes;
    if events == [] {
      assert AllRetryable([]) by { NoAnswers(); }
    } else {
      var t, rest := Apply(s, events[0]), Answers(events[1..]);
      if t.result.None? {
        FirstConclusive(t, events[1..]);
        if events[0].Received? {
          var end := Play(s, events);
          RetryableFirst(events[0].answer, rest, if end.result.Some? then end.result.value else events[0].answer);
        } else {
          assert Answers(events) == rest;
        }
      } else {
        assert events[1..] == [];
        assert Answers(events) == [events[0].answer];
        OneAnswer(events[0].answer);
      }
    }
  }

  lemma NoAnswers()
    ensures AllRetryable([])
  {
  }

  lemma OneAnswer(a: Answer)
    ensures !Retryable(a) ==> Concludes([a], a)
  {
  }

  /** A failure that says something of the resolver at that instant: any of its own but a plain "no such name". */
  predicate Transient(a: Answer) {
    a.err.Some? && a.err.value.DNSError?
    && (a.err.value.isTimeout || a.err.value.timedOut || a.err.value.isTemporary || !a.err.value.isNotFound)
  }

  lemma TransientIsRetryable(a: Answer)
    ensures Transient(a) <==> Retryable(a)
    ensures DnsFailureCause(a.err) == Timeout <==>
      a.err.Some? && a.err.value.DNSError? && (a.err.value.isTimeout || a.err.value.timedOut)
  {
  }

  /**
    For every order of timer and answers: one or two queries go out, the first conclusive
    answer received is returned, and a retryable failure is returned only after exactly two
    queries both failed retryably.
   */
  lemma RetryOutcome(events: seq<Event>)
    requires Schedule(STARTED, events)
    ensures |events| <= 3
    ensures var end, answers := Play(STARTED, events), Answers(events);
            && 1 <= end.sent <= 2 && 1 <= |answers| <= end.sent
            && (end.result.Some? <==> exists k :: 0 <= k < |answers| && !Transient(answers[k]))
            && (end.result.Some? ==> end.result.value == answers[|answers| - 1]
                                     && forall k :: 0 <= k < |answers| - 1 ==> Transient(answers[k]))
            && (end.result.None? ==> end.sent == |answers| == 2 && end.last == Some(answers[1])
                                     && Transient(answers[0]) && Transient(answers[1]))
  {
    hide Play, Schedule, Answers, Transient, Retryable;
    SchedulesAreShort(STARTED, events);
    FirstConclusive(STARTED, events);
    AnswersFit(STARTED, events);
    forall a
      ensures Transient(a) <==> Retryable(a)
    {
      TransientIsRetryable(a);
    }
  }

  lemma {:induction false} AnswersFit(s: State, events: seq<Event>)
    requires Consistent(s) && s.result.None? && Schedule(s, events)
    ensures |Answers(events)| <= s.outstanding + Play(s, events).sent - s.sent
    ensures Running(s) ==> Answers(events) != []
    decreases |events|
  {
    if events != [] {
      var t := Apply(s, events[0]);
      if t.result.None? {
        AnswersFit(t, events[1..]);
      } else {
        assert events[1..] == [];
      }
    }
  }

  predicate Resampled(events: seq<Event>) { exists k :: 0 <= k < |events| && events[k].Resample? }

  /** The spare query goes out as soon as the timer fires or the first answer is a transient failure, and only then. */
  lemma SecondQueryExactlyWhen(events: seq<Event>)
    requires Schedule(STARTED, events)
    ensures Play(STARTED, events).sent == 2 <==>
      Resampled(events) || (Answers(events) != [] && Transient(Answers(events)[0]))
  {
    hide Merge, Transient, Retryable;
    assert events != [];
    var e := events[0];
    var t := Apply(STARTED, e);
    SentKept(t, events[1..]);
    if e.Resample? {
      assert Resampled(events);
    } else {
      TransientIsRetryable(e.answer);
      assert Answers(events)[0] == e.answer;
      if !Retryable(e.answer) {
        assert events[1..] == [];
        assert !Resampled(events);
      }
    }
  }

  /** A spare query is not taken back. */
  lemma {:induction false} SentKept(s: State, events: seq<Event>)
    requires Schedule(s, events)
    ensures Play(s, events).sent >= s.sent
    ensures !s.spare || s.result.Some? ==> Play(s, events).sent == s.sent
    decreases |events|
  {
    hide Merge, Retryable;
    if events != [] {
      SentKept(Apply(s, events[0]), events[1..]);
    }
  }

  function AllTargets(answers: seq<Answer>): seq<string> {
    if answers == [] then [] else answers[0].targets + AllTargets(answers[1..])
  }

  lemma {:induction false} TargetsAccumulate(s: State, events: seq<Event>)
    requires Schedule(s, events)
    requires Sorted(s.targets, TextLE) && forall i, j :: 0 <= i < j < |s.targets| ==> s.targets[i] != s.targets[j]
    ensures var end := Play(s, events);
            && Sorted(end.targets, TextLE)
            && (forall i, j :: 0 <= i < j < |end.targets| ==> end.targets[i] != end.targets[j])
            && (forall x :: x in end.targets <==> x in s.targets || x in AllTargets(Answers(events)))
    decreases |events|
  {
    hide SortedSet;
    if events != [] {
      var t := Apply(s, events[0]);
      if events[0].Received? {
        TextOrder();
        SortedSetProperties(s.targets + events[0].answer.targets, TextLE);
        assert Answers(events)[1..] == Answers(events[1..]);
        assert AllTargets(Answers(events)) == events[0].answer.targets + AllTargets(Answers(events[1..]));
      } else {
        assert Answers(events) == Answers(events[1..]);
      }
      TargetsAccumulate(t, events[1..]);
    }
  }

  /** The targets are the sorted, duplicate-free union of those of the answers received. */
  lemma TargetsAreTheUnion(events: seq<Event>)
    requires Schedule(STARTED, events)
    ensures Play(STARTED, events).targets == SortedSet(AllTargets(Answers(events)), TextLE)
  {
    TextOrder();
    TargetsAccumulate(STARTED, events);
    SortedSetProperties(AllTargets(Answers(events)), TextLE);
    AscendingUnique(Play(STARTED, events).targets, SortedSet(AllTargets(Answers(events)), TextLE), TextLE);
  }
}
