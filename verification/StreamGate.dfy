/**
  The CI gate over a `go test -json` stream: a checker fed one line at a time, and the trace
  predicate it decides.
 */
module StreamGate {
  import opened Text

  const SUPERVISOR := "github.com/heymaikol/network-doctor/v2/contrib/frr-correlation/supervisor"
  const CAPTURE := "github.com/heymaikol/network-doctor/v2/contrib/frr-correlation/capture"
  const FRR_TEST := "TestFRRRunsUnderTheSupervisor"
  const SUPERVISOR_TEST := "TestNamespaceIsRetainedIsolatedAndReleased"
  const CAPTURE_TEST := "TestStopSucceedsWhileADetachedWriterHoldsTheStream"

  const ACTIONS := {"start", "run", "output", "pass", "skip", "fail", "pause", "cont"}

  datatype Event = Event(action: string, pkg: string, test: string, output: string)

  /** A raw line either decodes or does not. An event without an action counts as malformed. */
  datatype Line = Malformed | Json(event: Event)

  type Key = (string, string)

  datatype TestState = TestState(runs: nat, terminal: string, output: seq<string>)

  const FRESH := TestState(0, "", [])

  predicate Required(pkg: string) { pkg == SUPERVISOR || pkg == CAPTURE }

  function RequiredTest(pkg: string): string
    requires Required(pkg)
  {
    if pkg == SUPERVISOR then SUPERVISOR_TEST else CAPTURE_TEST
  }

  // ---------------------------------------------------------------- the FRR reason

  function TrimNewline(s: string): string {
    if s != [] && s[|s| - 1] == '\n' then s[..|s| - 1] else s
  }

  predicate Space(c: char) { c in "\t\n\U{0C}\r " }

  /** frrReason: optional space, the file and line, and the message, up to the end of the text. */
  predicate MatchesReason(s: string) {
    exists i, j :: 0 <= i <= j <= |s| && ReasonAt(s, i, j)
  }

  predicate ReasonAt(s: string, i: int, j: int)
    requires 0 <= i <= j <= |s|
  {
    && (forall k :: 0 <= k < i ==> Space(s[k]))
    && "frr_linux_test.go:" <= s[i..] && i + 18 < j
    && (forall k :: i + 18 <= k < j ==> Digit(s[k]))
    && s[j..] == ": NETDOC_FRR_STAGE not set"
  }

  predicate ReasonAllowed(output: seq<string>) {
    var reason := TrimNewline(Join(output, ""));
    '\n' !in reason && MatchesReason(reason)
  }

  predicate SkipAllowed(stageSet: bool, key: Key, output: seq<string>) {
    key == (SUPERVISOR, FRR_TEST) && !stageSet && ReasonAllowed(output)
  }

  /** Go test's own framing lines are not a test's output. */
  predicate Kept(e: Event) {
    e.test != "" && !("=== " <= e.output) && !("--- " <= e.output)
  }

  // ---------------------------------------------------------------- the checker

  datatype State = State(events: nat, passes: map<string, nat>, tests: map<Key, TestState>, frrSkip: bool)

  const START := State(0, map[], map[], false)

  function Passes(s: State, pkg: string): nat { if pkg in s.passes then s.passes[pkg] else 0 }

  function TestOf(s: State, key: Key): TestState { if key in s.tests then s.tests[key] else FRESH }

  /** One decoded event: the state it leaves, and whether it is tolerated. */
  function OnEvent(s: State, e: Event, stageSet: bool): (State, bool) {
    var key := (e.pkg, e.test);
    var test := TestOf(s, key);
    if !Required(e.pkg) || Passes(s, e.pkg) > 0 || e.action !in ACTIONS then (s, false)
    else if e.action == "output" then
      (if Kept(e) then s.(tests := s.tests[key := test.(output := test.output + [e.output])]) else s, true)
    else if e.action == "run" then
      if e.test == "" then (s, false)
      else (s.(tests := s.tests[key := test.(runs := test.runs + 1)]), test.runs == 0)
    else if e.action in {"pass", "skip", "fail"} then
      if e.test == "" then
        if e.action != "pass" then (s, false)
        else (s.(passes := s.passes[e.pkg := Passes(s, e.pkg) + 1]), true)
      else if test.runs == 0 || test.terminal != "" then (s, false)
      else
        var t := s.(tests := s.tests[key := test.(terminal := e.action)]);
        if e.action == "skip" && SkipAllowed(stageSet, key, test.output) then (t.(frrSkip := true), true)
        else (t, e.action == "pass")
    else (s, true)
  }

  function OnLine(s: State, l: Line, stageSet: bool): (State, bool) {
    if l.Malformed? || l.event.action == "" then (s, false)
    else OnEvent(s.(events := s.events + 1), l.event, stageSet)
  }

  ghost predicate Finished(s: State) {
    && s.events > 0
    && (forall pkg :: Required(pkg) ==>
          && Passes(s, pkg) == 1
          && TestOf(s, (pkg, RequiredTest(pkg))).runs == 1
          && TestOf(s, (pkg, RequiredTest(pkg))).terminal == "pass")
    && (forall key :: key in s.tests ==> !(s.tests[key].runs == 1 && s.tests[key].terminal == ""))
  }

  /** The state after the lines, and whether every line was tolerated. */
  function OnLines(lines: seq<Line>, stageSet: bool): (State, bool) {
    if lines == [] then (START, true)
    else
      var (s, ok) := OnLines(lines[..|lines| - 1], stageSet);
      var (t, okLast) := OnLine(s, lines[|lines| - 1], stageSet);
      (t, ok && okLast)
  }

  ghost predicate Accepts(lines: seq<Line>, stageSet: bool) {
    OnLines(lines, stageSet).1 && Finished(OnLines(lines, stageSet).0)
  }

  class Checker {
    const stageSet: bool   // lookupEnv(NETDOC_FRR_STAGE)
    var events: nat
    var passes: map<string, nat>
    var tests: map<Key, TestState>
    var frrSkip: bool

    constructor (stageSet: bool)
      ensures this.stageSet == stageSet && Value() == START
    {
      this.stageSet := stageSet;
      events, passes, tests, frrSkip := 0, map[], map[], false;
    }

    ghost function Value(): State
      reads this
    {
      State(events, passes, tests, frrSkip)
    }

    method AllowSkip(key: Key, output: seq<string>) returns (ok: bool)
      modifies this`frrSkip
      ensures ok == SkipAllowed(stageSet, key, output)
      ensures frrSkip == (old(frrSkip) || ok)
    {
      if key.0 != SUPERVISOR || key.1 != FRR_TEST {
        return false;
      }
      if stageSet {
        return false;
      }
      var reason := TrimNewline(Join(output, ""));
      if '\n' in reason || !MatchesReason(reason) {
        return false;
      }
      frrSkip := true;
      return true;
    }

    method OneEvent(e: Event) returns (ok: bool)
      modifies this
      ensures (Value(), ok) == OnEvent(old(Value()), e, stageSet)
    {
      hide SkipAllowed, Kept;
      if !Required(e.pkg) {
        return false;
      }
      if e.pkg in passes && passes[e.pkg] > 0 {
        return false;
      }
      if e.action !in ACTIONS {
        return false;
      }
      var key := (e.pkg, e.test);
      var test := if key in tests then tests[key] else FRESH;
      match e.action {
        case "output" =>
          if Kept(e) {
            tests := tests[key := test.(output := test.output + [e.output])];
          }
        case "run" =>
          if e.test == "" {
            return false;
          }
          tests := tests[key := test.(runs := test.runs + 1)];
          return test.runs == 0;
        case _ =>
          if e.action in {"pass", "skip", "fail"} {
            if e.test == "" {
              if e.action != "pass" {
                return false;
              }
              passes := passes[e.pkg := (if e.pkg in passes then passes[e.pkg] else 0) + 1];
              return true;
            }
            if test.runs == 0 || test.terminal != "" {
              return false;
            }
            tests := tests[key := test.(terminal := e.action)];
            if e.action == "fail" {
              return false;
            }
            if e.action == "skip" {
              ok := AllowSkip(key, test.output);
              return;
            }
          }
      }
      return true;
    }

    method OneLine(l: Line) returns (ok: bool)
      modifies this
      ensures (Value(), ok) == OnLine(old(Value()), l, stageSet)
    {
      if l.Malformed? || l.event.action == "" {
        return false;
      }
      events := events + 1;
      ok := OneEvent(l.event);
    }

    method Finish() returns (ok: bool)
      ensures ok == Finished(Value())
    {
      if events == 0 {
        return false;
      }
      var packages := [SUPERVISOR, CAPTURE];
      for i := 0 to |packages|
        invariant forall j :: 0 <= j < i ==>
                    var pkg := packages[j];
                    Required(pkg) && Passes(Value(), pkg) == 1
                    && TestOf(Value(), (pkg, RequiredTest(pkg))).runs == 1
                       && TestOf(Value(), (pkg, RequiredTest(pkg))).terminal == "pass"
      {
        var pkg := packages[i];
        assert Required(pkg);
        if pkg !in passes || passes[pkg] != 1 {
          return false;
        }
        var key := (pkg, RequiredTest(pkg));
        if key !in tests || tests[key].runs != 1 || tests[key].terminal != "pass" {
          return false;
        }
      }
      assert Required(packages[0]) && Required(packages[1]);
      var left := tests.Keys;
      while left != {}
        invariant left <= tests.Keys
        invariant forall key :: key in tests && key !in left ==> !(tests[key].runs == 1 && tests[key].terminal == "")
        decreases |left|
      {
        var key :| key in left;
        if tests[key].runs == 1 && tests[key].terminal == "" {
          return false;
        }
        left := left - {key};
      }
      return true;
    }
  }

  /** The whole stream is read even after a refusal; only the first error decides. */
  method Run(lines: seq<Line>, stageSet: bool) returns (accepted: bool)
    ensures accepted == Accepts(lines, stageSet)
  {
    hide OnLine, Finished;
    var c := new Checker(stageSet);
    var first := true;
    for n := 0 to |lines|
      invariant fresh(c) && c.stageSet == stageSet
      invariant (c.Value(), first) == OnLines(lines[..n], stageSet)
    {
      assert lines[..n + 1][..n] == lines[..n];
      var ok := c.OneLine(lines[n]);
      first := first && ok;
    }
    assert lines[..|lines|] == lines;
    if !first {
      return false;
    }
    accepted := c.Finish();
  }

  // ---------------------------------------------------------------- the trace predicate

  predicate Known(l: Line) {
    l.Json? && l.event.action != "" && Required(l.event.pkg) && l.event.action in ACTIONS && l.event.action != "fail"
  }

  predicate Is(l: Line, action: string, key: Key) {
    l.Json? && l.event.action == action && (l.event.pkg, l.event.test) == key
  }

  ghost predicate Seen(lines: seq<Line>, action: string, key: Key) {
    exists j :: 0 <= j < |lines| && Is(lines[j], action, key)
  }

  ghost predicate SeenEnd(lines: seq<Line>, key: Key) {
    Seen(lines, "pass", key) || Seen(lines, "skip", key)
  }

  /** The output a test has left. */
  function Output(lines: seq<Line>, key: Key): seq<string> {
    if lines == [] then []
    else
      var l := lines[|lines| - 1];
      Output(lines[..|lines| - 1], key) + (if Is(l, "output", key) && Kept(l.event) then [l.event.output] else [])
  }

  /** A line is known, and well placed after the lines before it. */
  ghost predicate Placed(before: seq<Line>, l: Line, stageSet: bool) {
    && Known(l)
    && var e := l.event;
    var key := (e.pkg, e.test);
    // Nothing follows a package's pass.
    && !Seen(before, "pass", (e.pkg, ""))
    // A package itself neither runs nor skips.
    && (e.test == "" ==> e.action != "run" && e.action != "skip")
    // A test runs once.
    && (e.action == "run" ==> !Seen(before, "run", key))
    // It ends once, after its run.
    && (e.test != "" && e.action in {"pass", "skip"} ==> Seen(before, "run", key) && !SeenEnd(before, key))
    // The only skip is the FRR one, unstaged, with its exact reason.
    && (e.action == "skip" ==> SkipAllowed(stageSet, key, Output(before, key)))
  }

  /** The whole stream: both packages passed, their required tests passed, nothing was left running. */
  ghost predicate Whole(lines: seq<Line>) {
    && (forall pkg :: Required(pkg) ==> Seen(lines, "pass", (pkg, "")) && Seen(lines, "pass", (pkg, RequiredTest(pkg))))
    && (forall key: Key :: Seen(lines, "run", key) ==> SeenEnd(lines, key))
  }

  ghost predicate AllPlaced(lines: seq<Line>, stageSet: bool) {
    forall i :: 0 <= i < |lines| ==> Placed(lines[..i], lines[i], stageSet)
  }

  ghost predicate Acceptable(lines: seq<Line>, stageSet: bool) {
    AllPlaced(lines, stageSet) && Whole(lines)
  }

  lemma SeenAppend(lines: seq<Line>, l: Line, action: string, key: Key)
    ensures Seen(lines + [l], action, key) <==> Seen(lines, action, key) || Is(l, action, key)
  {
    if Seen(lines, action, key) {
      var j :| 0 <= j < |lines| && Is(lines[j], action, key);
      assert Is((lines + [l])[j], action, key);
    }
    if Is(l, action, key) {
      assert Is((lines + [l])[|lines|], action, key);
    }
  }

  lemma AllPlacedAppend(lines: seq<Line>, l: Line, stageSet: bool)
    ensures AllPlaced(lines + [l], stageSet) <==> AllPlaced(lines, stageSet) && Placed(lines, l, stageSet)
  {
    hide Placed;
    var more := lines + [l];
    assert forall i :: 0 <= i < |lines| ==> more[..i] == lines[..i] && more[i] == lines[i];
    assert more[..|lines|] == lines && more[|lines|] == l;
    if AllPlaced(more, stageSet) {
      assert Placed(more[..|lines|], more[|lines|], stageSet);
      forall i | 0 <= i < |lines|
        ensures Placed(lines[..i], lines[i], stageSet)
      {
        assert Placed(more[..i], more[i], stageSet);
      }
    }
  }

  /** What the checker's counters say about the lines read so far, while none was refused. */
  ghost predicate TestReads(t: TestState, lines: seq<Line>, key: Key) {
    && t.runs == (if Seen(lines, "run", key) then 1 else 0)
    && t.terminal == (if Seen(lines, "pass", key) then "pass" else if Seen(lines, "skip", key) then "skip" else "")
    && t.output == Output(lines, key)
  }

  ghost predicate Reads(s: State, lines: seq<Line>) {
    && s.events == |lines|
    && (forall pkg :: Passes(s, pkg) == if Seen(lines, "pass", (pkg, "")) then 1 else 0)
    && (forall key: Key :: key.1 != "" ==> TestReads(TestOf(s, key), lines, key))
    && (forall key :: key in s.tests ==> key.1 != "")
  }

  lemma TestReadsAppend(t: TestState, lines: seq<Line>, l: Line, key: Key)
    requires TestReads(t, lines, key)
    requires Is(l, "run", key) ==> t.runs == 0
    requires Is(l, "pass", key) || Is(l, "skip", key) ==> t.terminal == ""
    ensures var runs := if Is(l, "run", key) then t.runs + 1 else t.runs;
            var terminal := if Is(l, "pass", key) || Is(l, "skip", key) then l.event.action else t.terminal;
            var output := if Is(l, "output", key) && Kept(l.event) then t.output + [l.event.output] else t.output;
            TestReads(TestState(runs, terminal, output), lines + [l], key)
  {
    hide Kept;
    SeenAppend(lines, l, "run", key);
    SeenAppend(lines, l, "pass", key);
    SeenAppend(lines, l, "skip", key);
    assert (lines + [l])[..|lines|] == lines;
  }

  lemma LineDecides(s: State, lines: seq<Line>, l: Line, stageSet: bool)
    requires Reads(s, lines)
    ensures OnLine(s, l, stageSet).1 <==> Placed(lines, l, stageSet)
  {
    hide Kept, Seen, SkipAllowed, Output;
    if l.Json? {
      var key := (l.event.pkg, l.event.test);
      if key.1 != "" {
        assert TestReads(TestOf(s, key), lines, key);
      }
    }
  }

  lemma LineReads(s: State, lines: seq<Line>, l: Line, stageSet: bool)
    requires Reads(s, lines) && OnLine(s, l, stageSet).1
    ensures Reads(OnLine(s, l, stageSet).0, lines + [l])
  {
    hide Seen, SkipAllowed, Output, TestReads;
    var t := OnLine(s, l, stageSet).0;
    var more := lines + [l];
    forall pkg
      ensures Passes(t, pkg) == if Seen(more, "pass", (pkg, "")) then 1 else 0
    {
      SeenAppend(lines, l, "pass", (pkg, ""));
    }
    forall key: Key | key.1 != ""
      ensures TestReads(TestOf(t, key), more, key)
    {
      assert TestReads(TestOf(s, key), lines, key);
      KeyReads(s, lines, l, stageSet, key);
    }
  }

  lemma KeyReads(s: State, lines: seq<Line>, l: Line, stageSet: bool, key: Key)
    requires key.1 != "" && TestReads(TestOf(s, key), lines, key) && OnLine(s, l, stageSet).1
    ensures TestReads(TestOf(OnLine(s, l, stageSet).0, key), lines + [l], key)
  {
    hide Kept, Seen, SkipAllowed, Output, TestReads;
    TestReadsAppend(TestOf(s, key), lines, l, key);
  }

  lemma {:induction false} LinesRead(lines: seq<Line>, stageSet: bool)
    ensures OnLines(lines, stageSet).1 <==> AllPlaced(lines, stageSet)
    ensures OnLines(lines, stageSet).1 ==> Reads(OnLines(lines, stageSet).0, lines)
  {
    hide OnLine, Reads, Placed;
    if lines == [] {
      StartReads();
    } else {
      var before, l := lines[..|lines| - 1], lines[|lines| - 1];
      assert lines == before + [l];
      LinesRead(before, stageSet);
      AllPlacedAppend(before, l, stageSet);
      if OnLines(before, stageSet).1 {
        LineDecides(OnLines(before, stageSet).0, before, l, stageSet);
        if OnLines(lines, stageSet).1 {
          LineReads(OnLines(before, stageSet).0, before, l, stageSet);
        }
      }
    }
  }

  lemma StartReads()
    ensures Reads(START, [])
  {
  }

  /** Only lines of named tests can run. */
  lemma RunsAreNamed(lines: seq<Line>, stageSet: bool, key: Key)
    requires AllPlaced(lines, stageSet) && Seen(lines, "run", key)
    ensures key.1 != ""
  {
    var j :| 0 <= j < |lines| && Is(lines[j], "run", key);
    assert Placed(lines[..j], lines[j], stageSet);
  }

  lemma FinishDecides(s: State, lines: seq<Line>, stageSet: bool)
    requires Reads(s, lines) && AllPlaced(lines, stageSet)
    ensures Finished(s) <==> Whole(lines)
  {
    hide Output, AllPlaced, Seen;
    forall pkg | Required(pkg)
      ensures TestReads(TestOf(s, (pkg, RequiredTest(pkg))), lines, (pkg, RequiredTest(pkg)))
    {
    }
    forall key: Key | Seen(lines, "run", key)
      ensures key.1 != ""
    {
      RunsAreNamed(lines, stageSet, key);
    }
    if Finished(s) {
      forall key: Key | Seen(lines, "run", key)
        ensures SeenEnd(lines, key)
      {
        assert TestReads(TestOf(s, key), lines, key);
      }
    }
    if Whole(lines) {
      PassedTestsRan(lines, stageSet);
      assert Required(SUPERVISOR);
      forall key | key in s.tests
        ensures !(s.tests[key].runs == 1 && s.tests[key].terminal == "")
      {
        assert TestReads(TestOf(s, key), lines, key);
      }
      assert s.events > 0 by {
        assert Seen(lines, "pass", (SUPERVISOR, ""));
        SomethingSeen(lines, "pass", (SUPERVISOR, ""));
      }
    }
  }

  lemma SomethingSeen(lines: seq<Line>, action: string, key: Key)
    requires Seen(lines, action, key)
    ensures lines != []
  {
  }

  lemma PassedTestsRan(lines: seq<Line>, stageSet: bool)
    requires AllPlaced(lines, stageSet)
    ensures forall key: Key :: key.1 != "" && Seen(lines, "pass", key) ==> Seen(lines, "run", key)
  {
    hide Output, SkipAllowed;
    forall key: Key | key.1 != "" && Seen(lines, "pass", key)
      ensures Seen(lines, "run", key)
    {
      var j :| 0 <= j < |lines| && Is(lines[j], "pass", key);
      assert Placed(lines[..j], lines[j], stageSet);
      var i :| 0 <= i < |lines[..j]| && Is(lines[..j][i], "run", key);
      assert Is(lines[i], "run", key);
    }
  }

  /** The gate accepts exactly the acceptable streams. */
  lemma GateAcceptsAcceptable(lines: seq<Line>, stageSet: bool)
    ensures Accepts(lines, stageSet) <==> Acceptable(lines, stageSet)
  {
    hide AllPlaced, Reads, Finished, Whole;
    LinesRead(lines, stageSet);
    if OnLines(lines, stageSet).1 {
      FinishDecides(OnLines(lines, stageSet).0, lines, stageSet);
    }
  }

  // ---------------------------------------------------------------- interleavings

  /** Where a line belongs: its package's stream, or the lines that do not decode. */
  datatype Stream = Package(pkg: string) | Undecoded

  function StreamOf(l: Line): Stream { if l.Json? then Package(l.event.pkg) else Undecoded }

  function Of(lines: seq<Line>, stream: Stream): seq<Line> {
    if lines == [] then []
    else
      var l := lines[|lines| - 1];
      var before := Of(lines[..|lines| - 1], stream);
      if StreamOf(l) == stream then before + [l] else before
  }

  ghost predicate StreamPlaced(lines: seq<Line>, stream: Stream, stageSet: bool) {
    AllPlaced(Of(lines, stream), stageSet)
  }

  /** Two streams that interleave the same per-package streams. */
  ghost predicate SameStreams(a: seq<Line>, b: seq<Line>) {
    forall stream :: Of(a, stream) == Of(b, stream)
  }

  lemma {:induction false} SeenInOwnStream(lines: seq<Line>, action: string, key: Key)
    ensures Seen(lines, action, key) <==> Seen(Of(lines, Package(key.0)), action, key)
    ensures Output(lines, key) == Output(Of(lines, Package(key.0)), key)
  {
    if lines != [] {
      var before, l := lines[..|lines| - 1], lines[|lines| - 1];
      assert lines == before + [l];
      SeenInOwnStream(before, action, key);
      SeenAppend(before, l, action, key);
      var own := Of(before, Package(key.0));
      SeenAppend(own, l, action, key);
      assert (own + [l])[..|own|] == own;
    }
  }

  lemma PlacedInOwnStream(before: seq<Line>, l: Line, stageSet: bool)
    requires l.Json?
    ensures Placed(before, l, stageSet) <==> Placed(Of(before, StreamOf(l)), l, stageSet)
  {
    hide Seen, Output, SkipAllowed, Of;
    var key := (l.event.pkg, l.event.test);
    SeenInOwnStream(before, "pass", (l.event.pkg, ""));
    SeenInOwnStream(before, "run", key);
    SeenInOwnStream(before, "pass", key);
    SeenInOwnStream(before, "skip", key);
  }

  /** Every line is well placed exactly when it is within its own package's stream. */
  lemma {:induction false} PlacedPerPackage(lines: seq<Line>, stageSet: bool)
    ensures AllPlaced(lines, stageSet)
       <==> forall stream :: StreamPlaced(lines, stream, stageSet)
  {
    hide AllPlaced, Placed;
    if lines == [] {
      EmptyPlaced(stageSet);
    } else {
      var before, l := lines[..|lines| - 1], lines[|lines| - 1];
      assert lines == before + [l];
      PlacedPerPackage(before, stageSet);
      AllPlacedAppend(before, l, stageSet);
      var own := Of(before, StreamOf(l));
      AllPlacedAppend(own, l, stageSet);
      if l.Json? {
        PlacedInOwnStream(before, l, stageSet);
      } else {
        MalformedUnplaced(before, l, stageSet);
        MalformedUnplaced(own, l, stageSet);
      }
      assert Of(lines, StreamOf(l)) == own + [l];
      forall stream | stream != StreamOf(l)
        ensures Of(lines, stream) == Of(before, stream)
      {
      }
      if AllPlaced(lines, stageSet) {
        forall stream
          ensures StreamPlaced(lines, stream, stageSet)
        {
          assert StreamPlaced(before, stream, stageSet);
        }
      }
      if forall stream :: StreamPlaced(lines, stream, stageSet) {
        assert StreamPlaced(lines, StreamOf(l), stageSet);
        forall stream
          ensures StreamPlaced(before, stream, stageSet)
        {
          assert StreamPlaced(lines, stream, stageSet);
          assert stream == StreamOf(l) || Of(lines, stream) == Of(before, stream);
        }
        assert AllPlaced(before, stageSet);
        assert AllPlaced(own, stageSet) && Placed(own, l, stageSet);
        assert Placed(before, l, stageSet);
      }
    }
  }

  lemma EmptyPlaced(stageSet: bool)
    ensures AllPlaced([], stageSet)
  {
  }

  lemma MalformedUnplaced(before: seq<Line>, l: Line, stageSet: bool)
    requires l.Malformed?
    ensures !Placed(before, l, stageSet)
  {
  }

  /** Acceptance depends only on each package's own stream, however the two are interleaved. */
  lemma InterleavingDoesNotMatter(a: seq<Line>, b: seq<Line>, stageSet: bool)
    requires SameStreams(a, b)
    ensures Accepts(a, stageSet) <==> Accepts(b, stageSet)
  {
    hide AllPlaced, Accepts, Of, Seen;
    assert forall stream :: Of(a, stream) == Of(b, stream);
    GateAcceptsAcceptable(a, stageSet);
    GateAcceptsAcceptable(b, stageSet);
    PlacedPerPackage(a, stageSet);
    PlacedPerPackage(b, stageSet);
    forall action, key: Key
      ensures Seen(a, action, key) <==> Seen(b, action, key)
    {
      assert Of(a, Package(key.0)) == Of(b, Package(key.0));
      SeenInOwnStream(a, action, key);
      SeenInOwnStream(b, action, key);
    }
    assert forall stream :: StreamPlaced(a, stream, stageSet) == StreamPlaced(b, stream, stageSet);
  }

  // ---------------------------------------------------------------- what an accepted stream proves

  const REQUIRED_TESTS := {
    ("github.com/heymaikol/network-doctor/v2/contrib/frr-correlation/supervisor",
     "TestNamespaceIsRetainedIsolatedAndReleased"),
    ("github.com/heymaikol/network-doctor/v2/contrib/frr-correlation/capture",
     "TestStopSucceedsWhileADetachedWriterHoldsTheStream")}

  predicate Blanks(s: string) {
    forall k :: 0 <= k < |s| ==> s[k] == ' ' || s[k] == '\t' || s[k] == '\r' || s[k] == '\U{0C}'
  }

  predicate Numeral(s: string) { s != "" && forall k :: 0 <= k < |s| ==> '0' <= s[k] <= '9' }

  /** The one line the FRR test may leave: blanks, its file and line, the reason, and at most the final newline. */
  ghost predicate IsReason(text: string) {
    exists blanks, number, end ::
      && text == blanks + "frr_linux_test.go:" + number + ": NETDOC_FRR_STAGE not set" + end
      && Blanks(blanks) && Numeral(number) && (end == "" || end == "\n")
  }

  lemma ReasonIs(output: seq<string>)
    ensures ReasonAllowed(output) <==> IsReason(Join(output, ""))
  {
    var text := Join(output, "");
    var reason := TrimNewline(text);
    if ReasonAllowed(output) {
      var i, j :| 0 <= i <= j <= |reason| && ReasonAt(reason, i, j);
      var end := text[|reason|..];
      assert text == reason + end;
      CutReason(reason, i, j);
      assert text == reason[..i] + "frr_linux_test.go:" + reason[i + 18..j] + ": NETDOC_FRR_STAGE not set" + end;
    }
    if IsReason(text) {
      var blanks, number, end :|
        && text == blanks + "frr_linux_test.go:" + number + ": NETDOC_FRR_STAGE not set" + end
        && Blanks(blanks) && Numeral(number) && (end == "" || end == "\n");
      BuildReason(blanks, number);
      var line := blanks + "frr_linux_test.go:" + number + ": NETDOC_FRR_STAGE not set";
      assert line[|line| - 1] == 't';
      if end == "\n" {
        assert text[..|text| - 1] == line;
      } else {
        assert text == line;
      }
    }
  }

  lemma CutReason(s: string, i: int, j: int)
    requires 0 <= i <= j <= |s| && ReasonAt(s, i, j) && '\n' !in s
    ensures s == s[..i] + "frr_linux_test.go:" + s[i + 18..j] + ": NETDOC_FRR_STAGE not set"
    ensures Blanks(s[..i]) && Numeral(s[i + 18..j])
  {
    assert s[i..][..18] == "frr_linux_test.go:";
    assert s[i..i + 18] == "frr_linux_test.go:";
    assert s == s[..i] + s[i..i + 18] + s[i + 18..j] + s[j..];
    forall k | 0 <= k < i
      ensures s[k] != '\n'
    {
      assert s[k] in s;
    }
  }

  lemma BuildReason(blanks: string, number: string)
    requires Blanks(blanks) && Numeral(number)
    ensures '\n' !in blanks + "frr_linux_test.go:" + number + ": NETDOC_FRR_STAGE not set"
    ensures MatchesReason(blanks + "frr_linux_test.go:" + number + ": NETDOC_FRR_STAGE not set")
  {
    var s := blanks + "frr_linux_test.go:" + number + ": NETDOC_FRR_STAGE not set";
    var i, j := |blanks|, |blanks| + 18 + |number|;
    assert s[i..] == "frr_linux_test.go:" + number + ": NETDOC_FRR_STAGE not set";
    assert s[j..] == ": NETDOC_FRR_STAGE not set";
    assert forall k :: 0 <= k < i ==> s[k] == blanks[k];
    assert forall k :: i + 18 <= k < j ==> s[k] == number[k - i - 18];
    assert ReasonAt(s, i, j);
    NoNewlineIn(blanks, number);
  }

  lemma NoNewlineIn(blanks: string, number: string)
    requires Blanks(blanks) && Numeral(number)
    ensures '\n' !in blanks + "frr_linux_test.go:" + number + ": NETDOC_FRR_STAGE not set"
  {
    assert '\n' !in blanks && '\n' !in number;
    assert '\n' !in "frr_linux_test.go:" && '\n' !in ": NETDOC_FRR_STAGE not set";
  }

  /** A test's own output is every line of it but go test's framing. */
  lemma KeptMeans(e: Event)
    ensures Kept(e) <==> e.test != "" && (|e.output| < 4 || (e.output[..4] != "=== " && e.output[..4] != "--- "))
  {
    if |e.output| >= 4 {
      assert "=== " <= e.output <==> e.output[..4] == "=== ";
      assert "--- " <= e.output <==> e.output[..4] == "--- ";
    }
  }

  /**
    What an accepted stream proves: in each of the two packages the package and its required test
    passed; no line failed; and whatever was skipped is the FRR test, unstaged, for its one reason.
   */
  lemma AcceptedStreamsProve(lines: seq<Line>, stageSet: bool)
    requires Accepts(lines, stageSet)
    ensures forall pair :: pair in REQUIRED_TESTS ==>
      Seen(lines, "run", pair) && Seen(lines, "pass", pair) && Seen(lines, "pass", (pair.0, ""))
    ensures forall i :: 0 <= i < |lines| ==> LineAllowed(lines[..i], lines[i], stageSet)
  {
    hide Placed, Whole, IsReason;
    GateAcceptsAcceptable(lines, stageSet);
    forall pair | pair in REQUIRED_TESTS
      ensures Seen(lines, "run", pair) && Seen(lines, "pass", pair) && Seen(lines, "pass", (pair.0, ""))
    {
      RequiredSeen(lines, stageSet, pair);
    }
    forall i | 0 <= i < |lines|
      ensures LineAllowed(lines[..i], lines[i], stageSet)
    {
      PlacedIsAllowed(lines[..i], lines[i], stageSet);
    }
  }

  lemma RequiredSeen(lines: seq<Line>, stageSet: bool, pair: Key)
    requires Acceptable(lines, stageSet) && pair in REQUIRED_TESTS
    ensures Seen(lines, "run", pair) && Seen(lines, "pass", pair) && Seen(lines, "pass", (pair.0, ""))
  {
    hide SkipAllowed, Output, SeenEnd;
    assert Required(pair.0) && RequiredTest(pair.0) == pair.1;
    var i :| 0 <= i < |lines| && Is(lines[i], "pass", pair);
    assert Placed(lines[..i], lines[i], stageSet);
    var j :| 0 <= j < i && Is(lines[..i][j], "run", pair);
    assert Is(lines[j], "run", pair);
  }

  /** A line that did not fail, and that skips nothing but the FRR test, unstaged, for its one reason. */
  ghost predicate LineAllowed(before: seq<Line>, l: Line, stageSet: bool) {
    && l.Json? && l.event.action in {"start", "run", "output", "pass", "skip", "pause", "cont"}
    && (l.event.action == "skip" ==>
          && !stageSet && l.event.test == "TestFRRRunsUnderTheSupervisor"
          && l.event.pkg == "github.com/heymaikol/network-doctor/v2/contrib/frr-correlation/supervisor"
          && IsReason(Join(Output(before, (l.event.pkg, l.event.test)), "")))
  }

  lemma PlacedIsAllowed(before: seq<Line>, l: Line, stageSet: bool)
    requires Placed(before, l, stageSet)
    ensures LineAllowed(before, l, stageSet)
  {
    hide ReasonAllowed, IsReason, Seen, Output;
    ReasonIs(Output(before, (l.event.pkg, l.event.test)));
  }
}
