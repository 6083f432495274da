# Network Doctor: verified models

Network Doctor diagnoses a machine's network. This project models its decision logic, the parts
that run beside the sockets rather than in them, and proves what they promise.

* **The connection races.** `AddressRace` is the Happy Eyeballs race of `dialIPs` (sections 4 and 5
  of RFC 8305) and `FamilyRace` the two-family race of `dialContextFromSources`, each as a
  transition system whose runs are all interleavings of its goroutines, channels and deadline.
  `Families` holds the address ordering that feeds the first.
* **DNS on the wire.** `DnsWire` and `DnsVerify` are the encoder, the skipping parser and the
  response check against the grammar of sections 4.1.1 to 4.1.4 of RFC 1035. `DnsConn` is the
  connection that observes replies and the one that replays them (section 4.2.2 of RFC 1035), and
  `DnsRetry` the two-query retry.
* **The CI gates.** `StreamGate` is the test-stream gate with its declarative trace predicate;
  `CoverMerge` the coverage-profile merge.
* **The BGP readings.** `BgpLoss` holds the withdrawal of a prefix and the loss of a session.
* **The two readings of two snapshots.** `Snapshots`, `Keyed`, `Changes` and `Compare` state every
  field rule of the comparison; `Recorder` is the recorder that runs them; `CompareCanon`,
  `CompareReads` and `CompareMirror` prove what an empty comparison means, what each change says
  and what exchanging the sides does. `Evidence`, `EvidenceTable` and `TwoSided` are the reading
  from two machines.
* **The interpretation pass.** `ProbeRows`, `CausalEvidence`, `Findings`, `Counterfactuals` and
  `Interpretation` are the truth table and its comparisons; `Soundness`, `Citations`,
  `Verdicts`, `VerdictRows` and `Identities` what they may be relied on for; `Finalize` the passes
  over the finished rows.
* `Ordering`, `Counting`, `Text` and `Wrappers` are shared.

Where the code works by loops over mutable state the model does too, and each such method is
proved against a function that the theorems are about. `dafny verify dfyconfig.toml` checks it all.

Places where the code does less than a reader would expect, each stated as a theorem with its
exact condition:

* `Finalize` is called idempotent (internal/diagnostic/diagnosis.go:1303). It is, on the
  machine-readable fields, exactly when the family pass does not itself turn a failed target that
  still names a public selected address into a working one (`FinalizeOnceIsEnough`).
* `reconcileCounterfactuals` is said never to change a total failure into a warning
  (internal/diagnostic/counterfactual.go:269-270). It does so exactly when a failed target still
  names a selected address beside a family split (`TargetFailuresStay`).
* The table's generic verdict of ok can stand over a failed Wi-Fi name or second-opinion row, and
  over a QUIC failure excused by a recorded disagreement without its warning. `OKExactlyWhen` gives
  the rows that are ok, for arbitrary rows; the Wi-Fi probe itself never reports a failure, and
  finalized rows rule out the excuse (`DisagreementIsWarned`).
* Naming one endpoint is not transitive. It breaks exactly where a name joins two different
  addresses, or an address joins another spelling of it to a name (`NamesBreakExactlyWhen`).
* The two readings of one clock offset agree exactly within 9,223,372,036,499 milliseconds of zero
  (`OffsetAgreesWithComparison`).

## Model

| member | source | states |
|---|---|---|
| AddressRace.StepInv | internal/diagnostic/probe_network.go:254-364 | the race's invariant (scheduler position, one report per posted dial, one fast-forward token per failure, state of every socket, what the caller has recorded) survives every step of scheduler, dials, deadline and caller |
| AddressRace.Progress | internal/diagnostic/probe_network.go:266-364 | no reachable state is stuck: unless everything has finished, some step other than the deadline is enabled |
| AddressRace.RunsAreBounded | internal/diagnostic/probe_network.go:254-364 | every interleaving is finite, with at most 10n + 4 steps for n addresses |
| AddressRace.MaximalRunsReturn | internal/diagnostic/probe_network.go:254-364 | a run that can go no further has returned to its caller and left no goroutine behind |
| AddressRace.ReturnedRunsAreSettled | internal/diagnostic/probe_network.go:304-364 | once the call has returned, every socket any dial opened is closed except the returned one, and the attempts are exactly the started dials that failed, plus the winner last |
| AddressRace.AttemptsAreAsRead | internal/diagnostic/probe_network.go:283-302 | every attempt returned was read by its dial once that dial had returned what the attempt says; unless a deadline remarked it, it is marked aborted if and only if the dial failed and the context or the race itself was over at that reading, and its cause is the one word for its failure |
| AddressRace.ReturnedForAReason | internal/diagnostic/probe_network.go:323-364 | the connection returned is the first success received; there is none only when the context ended or every address was dialed and failed |
| AddressRace.OneSkipPerFailure | internal/diagnostic/probe_network.go:266-302 | the stagger is fast-forwarded at most once for each dial that failed |
| AddressRace.DialsAreStaggered | internal/diagnostic/probe_network.go:266-282 | every dial but the first waited for a whole stagger or for the token of a failure |
| AddressRace.NothingStartsAfterCancel | internal/diagnostic/probe_network.go:266-282 | once the context or the race is over, at most the dial already checked for still starts |
| AddressRace.DeadlineMarksTheRest | internal/diagnostic/probe_network.go:340-359 | on a deadline the attempts recorded when the caller saw it are returned untouched, first; every failure drained after them is marked aborted, and an internal cancellation takes the enclosing error's cause |
| Families.SplitFamilies | internal/diagnostic/probe_network.go:237-246 | the addresses of each family, in order |
| Families.InterleaveFamilies | internal/diagnostic/probe_network.go:220-235 | the loop yields the alternation of the two families, or the input when one family is missing |
| Families.InterleavingAlternates | internal/diagnostic/probe_network.go:218-235 | the dial order is a permutation that keeps each family's own order and alternates, IPv6 first, while both last |
| Families.CapIsFair | internal/diagnostic/probe_network.go:254-258 | the sixteen addresses dialed are a prefix of that order which leaves each family the lesser of all it has and the greater of eight and what the other leaves; so no family with an address disappears |
| Families.TargetFamilyState | internal/diagnostic/probe_network.go:203-216 | a family is unreachable if and only if it has addresses, nothing connected, and every one of them was tried |
| FamilyRace.StepInv | internal/diagnostic/probe_network.go:53-109 | the two-family race's invariant (at most one claim, one report per goroutine, every socket accounted for) survives every step |
| FamilyRace.Progress | internal/diagnostic/probe_network.go:53-109 | the fan-in never waits for a report that cannot arrive: some step is enabled until everything has finished |
| FamilyRace.MaximalRunsReturn | internal/diagnostic/probe_network.go:53-109 | every run ends within 7 steps per family and one more, and a run that can go no further has returned and left no goroutine |
| FamilyRace.AtMostOneConnection | internal/diagnostic/probe_network.go:66-109 | at most one report of a whole run is error-free |
| FamilyRace.ClaimDecides | internal/diagnostic/probe_network.go:66-109 | once the call has returned, it hands back the socket of the family that won the claim and no other; a finished goroutine leaves no other socket open; failure means every family reported one |
| DnsWire.DnsQuestion | internal/diagnostic/encrypteddns.go:140-157 | the loop encodes the labels, or fails on an empty or overlong label or name |
| DnsWire.QuestionExactlyWhen | internal/diagnostic/encrypteddns.go:140-157 | a name can be asked about if and only if each of its labels has 1 to 63 bytes and all of it, less the root dot, at most 253 |
| DnsWire.QuestionsIdentifyNames | internal/diagnostic/encrypteddns.go:140-157 | two names have one question if and only if they are equal up to the root dot |
| DnsWire.SkipDNSName | internal/diagnostic/encrypteddns.go:236-259 | the loop finds what the name-skipping function finds, within the message |
| DnsWire.SkipNameGrammar | internal/diagnostic/encrypteddns.go:236-259 | a skip succeeds if and only if an encoded name (labels, then root or pointer) starts there, and it stops exactly at its end |
| DnsWire.SkipDNSResourceRecord | internal/diagnostic/encrypteddns.go:264-279 | the end of one record, or nothing when any part of it runs past the message |
| DnsWire.SkipsEncodedRecords | internal/diagnostic/encrypteddns.go:213-223 | skipping n records over n encoded records stops exactly at their end |
| DnsWire.SkippedAreRecords | internal/diagnostic/encrypteddns.go:213-223 | conversely, whatever is skipped as n records is the encoding of n well-formed records |
| DnsWire.SkipRecordsInPrefix | internal/diagnostic/encrypteddns.go:216-279 | records skipped in a prefix are skipped in the whole message, to the same offset |
| DnsWire.QuestionFramed | internal/diagnostic/encrypteddns.go:140-157 | skipping an encoded question's name leaves exactly its type and class |
| DnsVerify.NewDNSQuery | internal/diagnostic/encrypteddns.go:107-124 | the query for a name: a header with its ID and RD, one question |
| DnsVerify.WithID | internal/diagnostic/encrypteddns.go:129-134 | a fresh copy of the wire bytes with only the ID replaced, the original unchanged |
| DnsVerify.EqualFold | internal/diagnostic/encrypteddns.go:208-212 | byte strings are equal up to ASCII case |
| DnsVerify.FoldMeans | internal/diagnostic/encrypteddns.go:208-212 | folded byte strings are equal if and only if they differ at most in the case of ASCII letters |
| DnsVerify.VerifyResponse | internal/diagnostic/encrypteddns.go:173-232 | the imperative check computes the verdict the grammar theorem below is about |
| DnsVerify.VerifyIsGrammar | internal/diagnostic/encrypteddns.go:173-232 | a message is accepted, or reported as an error answer, if and only if it belongs to the grammar: the ID, a flag word with QR set, opcode zero and TC clear (written out bit by bit), one question equal up to case, exactly the declared records, anything after; or the bare 12-byte FORMERR/NOTIMP form |
| DnsVerify.FoldKeepsFraming | internal/diagnostic/encrypteddns.go:208-223 | case folding never moves a label boundary: equal-up-to-case messages skip to the same offset |
| DnsVerify.EchoAsksTheSame | internal/diagnostic/encrypteddns.go:208-212 | an accepted echo of a question is framed like it and has exactly its type and class |
| DnsVerify.PrefixesAreRejected | internal/diagnostic/encrypteddns.go:205-232 | when a verified message ends at its last declared record, every strict prefix is rejected |
| DnsVerify.VerifiedIsLongEnough | internal/diagnostic/encrypteddns.go:213-223 | an accepted message with N records has at least 12 + question + 11N bytes, however many its header declares |
| DnsVerify.VerifyUnderNewID | internal/diagnostic/encrypteddns.go:173-232 | a verified message re-addressed to any ID verifies under that ID with the same verdict, and under no other |
| DnsConn.ObservedDNSConn.Write | internal/diagnostic/probe_dns.go:297-313 | what a write asks is remembered exactly when it is one whole query |
| DnsConn.ObservedDNSConn.Read | internal/diagnostic/probe_dns.go:315-329 | a datagram is observed at once; a stream read is appended, and observed when the buffer is one whole frame |
| DnsConn.ObservedDNSConn.ObserveMessage | internal/diagnostic/probe_dns.go:331-355 | one observed message updates answered, the least failure code and, per question, the latest verified reply |
| DnsConn.ObserverRecoversQuery | internal/diagnostic/probe_dns.go:297-313 | the observer recovers the exact ID and question of every query that can be built, framed or not |
| DnsConn.FramedOnceNeverEarly | internal/diagnostic/probe_dns.go:315-329 | for any chunking of one framed response the message is observed exactly once, and not before its last byte |
| DnsConn.StraddlingReadsMissTheMessage | internal/diagnostic/probe_dns.go:315-329 | if no read ends where the message does, it is never observed |
| DnsConn.KeptAcrossOrders | internal/diagnostic/probe_dns.go:331-355 | in any order of replies: the kept code is the least of all error replies, answered if and only if some reply verified or erred, and a question is kept if and only if some reply completed it |
| DnsConn.HeardIsTrustworthy | internal/diagnostic/probe_dns.go:331-355 | every recorded reply verifies for the question it is recorded under |
| DnsConn.ReplayDNSConn.Write | internal/diagnostic/probe_dns.go:249-267 | a query is accepted exactly when its question was verified; the reply is then the length prefix, the new ID and the stored tail |
| DnsConn.ReplayDNSConn.Read | internal/diagnostic/probe_dns.go:269-276 | a read takes the front of what is left, and reports the end only when nothing is |
| DnsConn.ReplayVerifies | internal/diagnostic/probe_dns.go:219-276 | a recorded reply, replayed for any later query with the same question and any ID, verifies under that query |
| DnsConn.ReplayKeysAgree | internal/diagnostic/probe_dns.go:249-267 | a framed query is replayed under exactly the question it would have been observed with |
| DnsConn.ReadsConcatenate | internal/diagnostic/probe_dns.go:269-276 | reads of any sizes concatenate to a prefix of the reply, and to all of it once there is room |
| DnsRetry.LookupIPRetrying | internal/diagnostic/probe_dns.go:430-471 | for every order of timer and answers the loop returns what the state machine's play returns, and terminates |
| DnsRetry.RetryOutcome | internal/diagnostic/probe_dns.go:411-471 | one or two queries go out; the first conclusive answer is returned; a transient failure (any of the resolver's own but a plain "no such name") is returned only after exactly two queries both failed so |
| DnsRetry.SecondQueryExactlyWhen | internal/diagnostic/probe_dns.go:443-468 | the second query goes out if and only if the timer fired or the first answer was a transient failure |
| DnsRetry.TargetsAreTheUnion | internal/diagnostic/probe_dns.go:458-462 | the targets are the sorted, duplicate-free union of those in the answers received |
| DnsRetry.NeverStuck | internal/diagnostic/probe_dns.go:430-471 | a call that has not returned waits for a query that is in flight |
| DnsRetry.TransientIsRetryable | internal/diagnostic/probe_dns.go:382-417 | which failures are worth a second query, and which of them are timeouts |
| StreamGate.Checker.OneEvent | cmd/netnsgate/main.go:111-165 | one event moves the checker as the event function says, and is refused exactly when that refuses it |
| StreamGate.Checker.OneLine | cmd/netnsgate/main.go:94-109 | one line of the stream, decoded or not |
| StreamGate.Checker.AllowSkip | cmd/netnsgate/main.go:178-191 | a skip is allowed exactly for the FRR test, unstaged, with its exact reason |
| StreamGate.Checker.Finish | cmd/netnsgate/main.go:195-215 | the end-of-stream check: packages passed, required tests passed, nothing left running |
| StreamGate.Run | cmd/netnsgate/main.go:62-90 | the whole stream is read, and accepted exactly when no line and not the end was refused |
| StreamGate.GateAcceptsAcceptable | cmd/netnsgate/main.go:62-215 | the gate accepts a stream if and only if the declarative trace predicate holds of it |
| StreamGate.AcceptedStreamsProve | cmd/netnsgate/main.go:25-215 | in an accepted stream each of the two named packages and its named test ran and passed, no line failed, and whatever was skipped is the FRR test, unstaged, for its one reason |
| StreamGate.ReasonIs | cmd/netnsgate/main.go:35-36 | the reason is blanks, the file and a line number, the message, and at most a final newline |
| StreamGate.KeptMeans | cmd/netnsgate/main.go:127-130 | a test's own output is every line of it but go test's framing |
| StreamGate.InterleavingDoesNotMatter | cmd/netnsgate/main.go:62-215 | acceptance depends only on each package's own subsequence |
| CoverMerge.Merge | cmd/covermerge/main.go:40-103 | the parsing, merging and printing loops yield the printed union, or the first error |
| CoverMerge.OrderedKeys | cmd/covermerge/main.go:85-89 | the blocks' locations, each once, ascending |
| CoverMerge.MergeIsUnion | cmd/covermerge/main.go:40-84 | merging succeeds if and only if every file has the mode line and well-formed rows and no two rows count one block differently; a block is then covered if and only if some row covers it |
| CoverMerge.RowMeans | cmd/covermerge/main.go:53-71 | a line is a row if and only if it is three words between blanks: a location, a non-negative statement count and a hit count, each within its integer width |
| CoverMerge.OrderDoesNotMatter | cmd/covermerge/main.go:40-103 | success and result do not depend on the order or repetition of files or rows |
| CoverMerge.PrintedReadsBack | cmd/covermerge/main.go:85-103 | the printed profile parses back to the profile printed |
| CoverMerge.PrintedOnce | cmd/covermerge/main.go:85-103 | a profile has one printed form |
| CoverMerge.MergeIsAJoin | cmd/covermerge/main.go:40-103 | associative and idempotent: merging a printed merge with more files is merging all of them at once, down to the error |
| BgpLoss.WithdrawFRRBGP | internal/app/frr_bgp_withdraw.go:163-213 | the withdrawal of one prefix: removed and remaining paths, peer state, paths of the peer elsewhere, outcome; refused exactly when the table attributes no path to the peer |
| BgpLoss.WithdrawalMeans | internal/app/frr_bgp_withdraw.go:163-213 | a withdrawal is refused if and only if no entry of the prefix has a path of the peer |
| BgpLoss.CountRemaining | internal/app/frr_bgp_withdraw.go:261-275 | how many remaining paths fall in each class |
| BgpLoss.RateRemaining | internal/app/frr_bgp_withdraw.go:220-240 | the outcome, decided by which classes are present |
| BgpLoss.KindMeans | internal/app/frr_bgp_withdraw.go:245-290 | a path's class says where it came from and, for a learned one, whether its session stands or no summary was captured; the rest of the path is copied |
| BgpLoss.OutcomeMeans | internal/app/frr_bgp_withdraw.go:220-275 | paths remain if and only if some recorded path stands without the peer; no path is recorded if and only if all were the peer's |
| BgpLoss.LastState | internal/app/frr_bgp_withdraw.go:176-182 | a peer's state is the last one printed for its address |
| BgpLoss.FailFRRBGPSession | internal/app/frr_bgp_session.go:121-217 | the loss of the session: each prefix that loses a path, rated, and the prefixes that name no peer |
| BgpLoss.SessionMeans | internal/app/frr_bgp_session.go:121-217 | the loss is refused if and only if the peer is neither in the table nor in the summary; else it says how the summary reads the peer, and lists exactly the prefixes the peer has no path for where some path names nobody |
| BgpLoss.SimulationsAgree | internal/app/frr_bgp_session.go:121-240 | with distinct prefixes, a prefix is rated by the session loss if and only if its withdrawal succeeds with the same removed list, remaining list and outcome |
| BgpLoss.ReadsPartition | internal/app/frr_bgp_withdraw.go:163-213 | removed and remaining partition the prefix's paths: each reads, in table order, exactly the paths at its own ascending positions |
| BgpLoss.SessionRemovesWhatWithdrawalsLeave | internal/app/frr_bgp_withdraw.go:163-213 | a session loss removes what the withdrawal of any one prefix removes plus what that leaves to the peer elsewhere |
| BgpLoss.RefusedIffNoPath | internal/app/frr_bgp_withdraw.go:163-213 | nothing is removed exactly when no entry for the prefix has a path from the peer |
| BgpLoss.CountedIffHas | internal/app/frr_bgp_withdraw.go:261-275 | a class is counted if and only if some path is in it |
| Keyed.IndexByKey | internal/compare/compare.go:775-783 | the index of a list by key, first occurrence winning |
| Keyed.GroupItems | internal/compare/compare.go:1087-1094 | the attempts grouped by address, in order |
| Keyed.MergeOrders | internal/compare/compare.go:789-801 | the later run's keys first, then the earlier run's, each once |
| Keyed.MergedOrderSwaps | internal/compare/compare.go:789-801 | exchanging the runs only permutes the merged order, which holds exactly the keys of either |
| Recorder.ReadPaths | internal/compare/compare.go:1257-1306 | the derived paths of one snapshot, as its loops compute them |
| CompareReads.PathsMean | internal/compare/compare.go:1257-1350 | the target's path is the decision for the address that was used, or else the first recorded; the resolvers' agreement is "different" if and only if a named interface leaves another way, and "same" if and only if all are named and none does |
| CompareReads.SelectionRenders | internal/compare/compare.go:607-616 | a selection is rendered as its distinct members in ascending order |
| Recorder.Diff.RecordField | internal/compare/compare.go:452-468 | one scalar difference, added, removed or changed |
| Recorder.Diff.DiffTarget | internal/compare/compare.go:538-557 | the target's changes, or one for a target on one side only |
| Recorder.Diff.DiffOptions | internal/compare/compare.go:565-596 | the option changes, selections as sets and addresses by identity |
| Recorder.Diff.DiffDiagnosis | internal/compare/compare.go:618-685 | the changes of verdict, primary finding and each finding by ID |
| Recorder.Diff.DiffPaths | internal/compare/compare.go:1219-1236 | the changes of the derived paths |
| Recorder.Diff.DiffSet | internal/compare/compare.go:999-1024 | one change per member on one side only, in sorted order of identity |
| Recorder.Diff.DiffAttempts | internal/compare/compare.go:1050-1077 | the attempts compared per address |
| Recorder.Diff.DiffRoutes | internal/compare/compare.go:1126-1167 | the route decisions compared per destination |
| Recorder.Diff.DiffChecks | internal/compare/compare.go:803-832 | every check of either side, by ID, in report order; a row differs if and only if the two projections do, and its direction is worse if and only if the outcome fell along PASS, WARN, FAIL, better if and only if it rose, and none otherwise |
| Recorder.Diff.Snapshots | internal/compare/compare.go:180-200 | the whole comparison: empty if and only if the two projections are equal, and every change tells the truth about both snapshots |
| CompareCanon.NoChangeIsEqualProjection | internal/compare/compare.go:180-200 | no change if and only if the two snapshots have the same canonical projection |
| CompareReads.EveryChangeTells | internal/compare/compare.go:180-200 | every change carries, at its own path, what the earlier snapshot says there before and what the later one says after, with the kind that follows; or a name only one of them has; or a status or the overall result, with its direction along the scale |
| CompareReads.DirectionMoves | internal/compare/compare.go:497-522 | worse is exactly pass to warn, pass to fail and warn to fail, better exactly the reverse |
| CompareReads.EvidenceReadsAsOne | internal/compare/compare.go:702-735 | two lists of cited evidence are one if and only if they agree item by item, the values of address-valued observations read as addresses |
| CompareReads.AlternativesReadAsOne | internal/compare/compare.go:706-716 | two lists of alternatives are one if and only if they agree item by item, the compared value read as an address where addresses are compared |
| CompareCanon.SameIsAnEquivalence | internal/compare/compare.go:180-200 | so being the same is reflexive, symmetric and transitive |
| CompareCanon.AttemptsAreASet | internal/compare/compare.go:1050-1103 | attempts compare equal if and only if the same outcomes were recorded of the same addresses, whatever their order and number |
| CompareCanon.RetellingIsNoChange | internal/compare/compare.go:852-1103 | other prose and durations, other order or spelling of answers, other order and repetition of attempts: no change |
| CompareMirror.SwappingMirrors | internal/compare/compare.go:180-200 | exchanging the snapshots flips the multiset of changes up to paths: added and removed, before and after, better and worse |
| TwoSided.NameEquivalence | internal/compare/compare.go:319-334 | naming one endpoint is reflexive and symmetric, and transitive among spellings of one kind |
| TwoSided.NameMeans | internal/compare/compare.go:319-334 | two spellings name one endpoint if and only if both are addresses and equal ones, or not both are and they agree up to ASCII case and a final dot |
| TwoSided.NamesBreakExactlyWhen | internal/compare/compare.go:319-334 | for any three spellings that match in a chain, the ends do not match if and only if a name joins two different addresses, or an address joins an address and a name that are spelled differently |
| TwoSided.NameIsNotTransitive | internal/compare/compare.go:319-334 | three such spellings, for every parser that reads the two forms of the loopback address alike and not the dotted one |
| TwoSided.SideRows | internal/compare/twosided.go:185-204 | one row per check of either side, comparable exactly when both measured an outcome |
| TwoSided.RowsMean | internal/compare/twosided.go:185-219 | one row for each check of either machine, with the two outcomes; comparable if and only if both are PASS, WARN or FAIL, and with the evidence of both exactly then |
| TwoSided.Localize | internal/compare/twosided.go:221-313 | the filtering loop and the conclusion drawn from it |
| TwoSided.LocalizationMeans | internal/compare/twosided.go:221-313 | finding and side are decided by which kinds of comparable row exist; the evidence is every comparable row that failed anywhere, or every comparable row when none did; ambiguous unless nothing failed |
| TwoSided.PlacementMeans | internal/compare/twosided.go:209-315 | over the snapshots: the finding and the side follow from which checks measured on both machines failed on one of them, on the other, and on both |
| TwoSided.TwoSidedSnapshots | internal/compare/twosided.go:160-178 | refused as different or as unknown, or read |
| TwoSided.ReadingMeans | internal/compare/compare.go:275-317 | two snapshots are read if and only if both have no target or neither is redacted and their targets agree in port, protocol, pinning and names; they are refused as unknown if and only if only redaction hides that |
| TwoSided.ReadingSwaps | internal/compare/twosided.go:160-313 | exchanging the machines keeps refusal kind, finding, evidence set and rows (columns exchanged) and flips the side |
| Evidence.EvidenceAttempts | internal/compare/twosided_evidence.go:227-253 | the attempt facts, sorted, and whether all of them are known |
| Evidence.AttemptsEquivalent | internal/compare/twosided_evidence.go:69-87 | attempts are equivalent if and only if identities may be compared, both sides are fully known, and the multisets of (address, family, value, aborted) are equal |
| Evidence.AttemptOrderIsForgotten | internal/compare/twosided_evidence.go:227-253 | permuting the array changes nothing |
| Evidence.FactOrder | internal/compare/twosided_evidence.go:285-294 | the sort order of facts is total, so sorted forms are unique |
| Evidence.NamedEquivalent | internal/compare/twosided_evidence.go:205-225 | address lists are equivalent if and only if both are nonempty and readable and name one set |
| Evidence.EvidenceRoutes | internal/compare/twosided_evidence.go:255-283 | the route facts of one dimension, sorted, and whether all of them are known |
| Evidence.RoutesEquivalent | internal/compare/twosided_evidence.go:255-283 | routes are equivalent if and only if every route on both sides says something and the multisets of facts are equal |
| Evidence.OffsetAgreesWithComparison | internal/compare/twosided_evidence.go:155-170 | for every offset, the whole-second reading is within half a second of it, and is the other comparison's if and only if the offset is at most 9,223,372,036,499 milliseconds either way |
| Evidence.OffsetAvoidsOverflow | internal/compare/twosided_evidence.go:155-170 | a witness beyond that: the largest offset reads as no skew in the one comparison and as its whole seconds in the other |
| Evidence.CheckEvidence | internal/compare/twosided_evidence.go:69-139 | every dimension of one check, in order |
| EvidenceTable.EvidenceIsTable | internal/compare/twosided_evidence.go:69-139 | the evidence of one check is exactly a table: one row for every dimension in which either machine says something, its columns what each says, unknown if and only if an identity was redacted or a side is not wholly known, and otherwise equivalent if and only if the columns are equal |
| EvidenceTable.OutcomeCame | internal/compare/twosided_evidence.go:172-188 | the outcome of a lookup: a negative answer, else addresses, else a timeout or a temporary failure |
| EvidenceTable.AttemptFactMeans | internal/compare/twosided_evidence.go:227-253 | what an attempt's fact says: its cause, success, or that nobody knows |
| EvidenceTable.RouteFactMeans | internal/compare/twosided_evidence.go:255-283 | what a route's fact says in each dimension, and when the route says nothing there |
| Evidence.EvidenceSwaps | internal/compare/twosided_evidence.go:69-139 | exchanging the machines exchanges the columns and no relation or reason |
| Identities.Interpret | internal/diagnostic/diagnosis.go:21-80 | the pass with its merging loop; every finding's evidence is true, every finding's condition holds, and no identity repeats |
| Soundness.EvidenceIsTrue | internal/diagnostic/diagnosis.go:118-276 | every evidence item of every finding and compared alternative is true of the row it cites, the finding's own row first; a check not evaluated is cited with its real reason |
| Citations.TableCites | internal/diagnostic/diagnosis.go:86-738 | each conclusion cites exactly the most specific fact of every row it rests on that reported, and exactly those of its claims against other readings that the rows bear out |
| Citations.PassCites | internal/diagnostic/diagnosis.go:21-80 | the pass adds to a conclusion only the items of a comparison of its own identity |
| Identities.FindingsAreEarned | internal/diagnostic/diagnosis.go:299-738 | every finding's own condition over the rows holds, and no identity repeats |
| Verdicts.OKExactlyWhen | internal/diagnostic/diagnosis.go:86-738 | verdict ok, when every reported row was selected, if and only if the run finished, nothing warned, no portal answered, the interface is up, and: with a target, nothing failed and no resolver, family or address comparison was found; without one, the resolver did not fail, the resolvers support no comparison, and either the rungs pass or nothing failed, or else a QUIC failure is excused |
| Verdicts.OKMeans | internal/diagnostic/diagnosis.go:86-738 | so under verdict ok no row warned, with a target no row failed, and without one each failed row is the Wi-Fi name, the second-opinion resolver, a row no generic run has, or, beside an excused QUIC failure, QUIC, the proxy or encrypted DNS |
| Verdicts.OKOverlooksSSID | internal/diagnostic/diagnosis.go:314-440 | a property of the table, for rows no probe reports: a failed Wi-Fi name row leaves a generic run ok |
| Verdicts.ExcusedQUICTakesTheVerdict | internal/diagnostic/diagnosis.go:362-371 | a QUIC failure excused by a recorded disagreement that never became a warning leaves the verdict ok |
| Verdicts.ExcusedQUICExample | internal/diagnostic/diagnosis.go:362-371 | four rows, for any two distinct addresses, that are such a run |
| Verdicts.ServiceMeans | internal/diagnostic/diagnosis.go:442-738 | verdict service about a target: no portal, no interface or DNS failure, and the target row did not fail, or was refused, or direct egress worked |
| Verdicts.OtherVerdictsMean | internal/diagnostic/diagnosis.go:21-738 | verdict dns needs a DNS row that failed or found nothing; incomplete means exactly that a selected row is missing; ok and degraded exclude a portal and a failed interface |
| VerdictRows.GenericExactly | internal/diagnostic/diagnosis.go:86-440 | without a target, the verdict is network, dns or service if and only if its own condition over the rows of the finished run holds, and degraded if and only if none does and the condition for ok does not either |
| VerdictRows.TargetExactly | internal/diagnostic/diagnosis.go:86-738 | and the same at a target, by which rung broke and what the connection's failure is charged to |
| VerdictRows.OfflineIsNetwork | internal/diagnostic/diagnosis.go:314-330 | no egress and no resolver is always the network's fault |
| Verdicts.BlamedMeans | internal/diagnostic/diagnosis.go:67-78 | the blamed row is the first finding's, and nothing is blamed exactly when nothing was concluded and no selected row failed |
| CausalEvidence.DropRepeats | internal/diagnostic/diagnosis.go:258-267 | the loop keeps each item of evidence once, at its first place |
| ProbeRows.FindUncorroborated | internal/diagnostic/diagnosis.go:1152-1186 | the loop decides that every live attempt went to an address only the system resolver gave, with an untried alternative in its family |
| ProbeRows.UncorroboratedMeans | internal/diagnostic/diagnosis.go:1152-1186 | over the rows: both resolvers answered for one absolute name, some attempt was made in earnest, and every such attempt went to an address only the system resolver gave, where the public one gave another of its family |
| ProbeRows.AttemptCauseMeans | internal/diagnostic/counterfactual.go:229-297 | what an attempt's failure is called, and when it was given up on |
| ProbeRows.LocalTargetMeans | internal/diagnostic/diagnosis.go:810-861 | a target is on this network if and only if its address, or every address its name resolved to, lies in one of the local ranges, each given by its first and last address |
| ProbeRows.SkewSettlesDates | internal/diagnostic/diagnosis.go:1341-1362 | a measured skew explains or disproves a certificate-date rejection, never both and never neither |
| Counterfactuals.DNSCounterfactual | internal/diagnostic/counterfactual.go:36-88 | a comparison of the two resolvers is grounded in what their rows recorded |
| Citations.ResolverComparison | internal/diagnostic/counterfactual.go:36-88 | a comparison of the resolvers is made if and only if both found nothing, only the public one answered, or their answers differ; and what each is then said to have done, on what evidence |
| Counterfactuals.CompareAnswers | internal/diagnostic/diagnosis.go:1502-1543 | two answer sets agree if and only if some address of each lies in one allocation block |
| Counterfactuals.AgreementIsABlock | internal/diagnostic/diagnosis.go:1502-1543 | such a block is 65536 consecutive IPv4 addresses, or the IPv6 addresses below one 32-bit prefix |
| Counterfactuals.FamilyCounterfactual | internal/diagnostic/counterfactual.go:106-141 | a family is concluded unreachable if and only if it alone fails while the other works, and the evidence is in the rows |
| Citations.FamilyComparison | internal/diagnostic/counterfactual.go:106-141 | the family that is down, the one that is up, and the egress reading that shows the first could be up |
| Counterfactuals.FamilyAttemptsAllRefused | internal/diagnostic/counterfactual.go:236-248 | some attempt in the family counts and every one that counts was refused |
| Counterfactuals.RefusedMeans | internal/diagnostic/counterfactual.go:236-248 | some attempt in the family ran to an error of its own, and every one that did was refused, by its recorded cause or its error |
| Counterfactuals.PartialExactlyWhen | internal/diagnostic/counterfactual.go:143-206 | partial reachability if and only if a selected address exists and some resolved address failed on its own account beside a working sibling of its family |
| Counterfactuals.PartialMeans | internal/diagnostic/counterfactual.go:143-206 | the same over the rows alone |
| Counterfactuals.CollectAddresses | internal/diagnostic/counterfactual.go:162-188 | the loop keeps each such address once, and each cited sibling once |
| Counterfactuals.AddressGrounded | internal/diagnostic/counterfactual.go:152-205 | each address cited really failed or connected, and was really resolved |
| Citations.AddressComparison | internal/diagnostic/counterfactual.go:152-205 | the addresses cited as failed are exactly the sick ones with a working sibling, and those cited as working are such siblings |
| Finalize.Report.ReconcileDNS | internal/diagnostic/diagnosis.go:1455-1494 | the resolver rows after the comparison pass |
| Finalize.Report.DowngradeEgress | internal/diagnostic/diagnosis.go:1585-1622 | the egress row after the downgrade pass |
| Finalize.Report.ReconcileCounterfactuals | internal/diagnostic/counterfactual.go:271-292 | the target row after the family pass |
| Finalize.Report.Finalize | internal/diagnostic/diagnosis.go:1304-1313 | the passes in their order |
| Finalize.ResolversFinalized | internal/diagnostic/diagnosis.go:1455-1494 | of the finished rows: agreement is recorded if and only if the answers share a block, disagreement if and only if not; and the public row warns if and only if one resolver answered where the other found no name, or a disagreement is recorded |
| Finalize.ResolversKept | internal/diagnostic/diagnosis.go:1455-1494 | nothing is compared otherwise, and the system resolver's row is never written |
| Finalize.EgressFinalized | internal/diagnostic/diagnosis.go:1585-1622 | the egress row is relaxed, and marked so, if and only if it failed, no portal answered, and another route, a public target or the proxy carried traffic |
| Finalize.FamiliesFinalized | internal/diagnostic/counterfactual.go:252-292 | each family of the target row is kept unless its failure is this machine's own and no peer refused; the row warns beside a selected address if and only if one family then works and the other does not |
| Finalize.StatusMoves | internal/diagnostic/diagnosis.go:1304-1313 | the only status moves are internet Fail to Warn (never behind a portal), public DNS Pass to Warn and target to Warn; no row becomes Fail or Pass and no reading is rewritten |
| Finalize.TargetFailuresStay | internal/diagnostic/counterfactual.go:269-292 | a target that did not work becomes a warning if and only if it still names a selected address beside a family split; so never, when an address is selected only by working |
| Finalize.FinalizeOnceIsEnough | internal/diagnostic/diagnosis.go:1299-1313 | a second call changes nothing if and only if the last pass did not create evidence the downgrade would have used |
| Finalize.FinalizeIsIdempotent | internal/diagnostic/diagnosis.go:1299-1313 | in particular whenever the target row has a selected address only when it worked |
| Finalize.LateEvidenceExample | internal/diagnostic/diagnosis.go:1299-1313 | rows on which a second call does move the egress row |
| Finalize.DisagreementIsWarned | internal/diagnostic/diagnosis.go:1455-1494 | after finalizing rows as the probes leave them, a recorded disagreement is a warning, so no QUIC failure is excused silently |

## Left out

- Sockets, TLS, HTTP, QUIC, route and interface calls, the system resolver: a dial, read or lookup returns any outcome, once; wall-clock time and durations are not modelled.
- Liveness of the network: absence of deadlock assumes that each dial eventually returns.
- All prose: summaries, details, fixes, labels, caveats, text and JSON rendering. Recorded values are kept as structured values, standing for their own injective rendering; joined lists and printed profiles are real text, because their separators matter.
- `reconcilePreferredPath` and `attachRouteEvidence` are not part of this model; `Finalize` and `Interpret` are modelled without them, and `reconcileClockSkew` and `reconcileEncryptedDNS` rewrite only the sentences of a row, which rows here do not carry.
- Parsing of addresses, endpoints and prefixes inside net/netip: the identity rules are arbitrary functions of the spelling, so the theorems hold for any of them.
- The confidence level of a finding: descriptive, read by nothing else.
- The caveats of the two-sided reading and the display header of each side: prose.
- Command dispatch, SSH, peer and profile modes, the simulator, the docs tooling: plumbing.
- DnsVerify.EqualFold: compares bytes up to ASCII case. The original also folds beyond ASCII, which names of section 2.3.3 of RFC 1035 never reach; a query built from such a name has an ASCII question.
- TwoSided.NameEquivalence: host names are folded in ASCII only, as the code's own comment says recorded names are.
- FamilyRace.StepInv: the source with neither family selected, which the caller never builds, is not a run.
- AddressRace.StepInv: an empty address list returns at once and is not a run.
- CoverMerge.Merge: a file is its lines; open and read errors and the scanner's line limit are not modelled.
- StreamGate.Run: a line is decoded or not; the JSON decoder is not part of this model.
- CompareMirror.SwappingMirrors: leaves out the path of a change, which names the earlier side's spelling.
