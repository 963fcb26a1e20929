# A verified model of the shed desktop core

The shed desktop app answers credential requests from sheds (remote development machines), talks to shed servers over
HTTP and to a local host agent over a socket, and keeps a diagnostic log. This project models the parts of it where
the order of events, the cutting of byte streams or the interplay of several calls decides what happens, and proves
what those parts promise.

| files | what they model |
|---|---|
| `Approval.dfy` | requests, rules, grants, the pure policy decision, and the rule list that "always" decisions edit |
| `Coordinator.dfy` | the approval actor: one function per handler, and runs over commands, open auth prompts and clock readings |
| `CoordinatorActor.dfy` | the actor itself, a class whose methods update its fields and loop over the pending map |
| `CoordinatorAtomic.dfy` | the refinement of the two-phase decision to a one-step one |
| `CoordinatorViews.dfy`, `Notifier.dfy` | accounting: what arrived, was answered, is pending, is shown and is audited |
| `CoordinatorHistory.dfy` | who may answer, when and with what decision |
| `CoordinatorGrants.dfy` | where session grants and persisted rules come from |
| `CoordinatorSweep.dfy` | the re-decision after a settings change, and one prompt per id |
| `CoordinatorGates.dfy`, `CoordinatorExamples.dfy` | the gate a prompt was opened under against the one stored at its commit; runs that end where one might not expect |
| `CoordinatorDecisions.dfy` | what each command leads to, in terms of the request, the clock and the settings alone |
| `AuditStore.dfy` | the audit file and its bounded tail |
| `Sse.dfy`, `Frames.dfy`, `Config.dfy` | the stream and file readers, each against a whole-input specification |
| `ConfigOrder.dfy`, `ConfigRows.dfy` | reordering the blocks of any config file: two neighbours, then any order |
| `ConfigPlain.dfy` | the config file as it is usually written: no quotes, blanks and comments anywhere, defaults left out |
| `Shell.dfy` | quoting an argv against a POSIX shell's reading of it |
| `TokenClient.dfy`, `ControlToken.dfy` | request correlation with the host agent; the single-flight token cache and the retry on top of it |
| `Create.dfy`, `CreateStore.dfy` | the create stream, the store it updates, and the adapter that polls it |
| `LogRotation.dfy`, `LogSizes.dfy` | the size-rotated log |
| `Text.dfy` | trimming, number parsing, lines |

How things are modelled:

- A protocol is a total step function over commands; a run is any sequence of commands. Every way tasks, timers,
  prompts and connections can interleave is some sequence, so a statement about all runs covers all of them.
- The coordinator reads its clock once per command. A walk over a hash map is in an arbitrary order: the runs take it as an
  input, the class picks any element.
- A wire timestamp carries the unix second it parses to, if it parses. The three time tests stay distinct: strictly
  before the expiry to act, strictly after it for the tick, and none at all for a policy decision on arrival.
- Imperative parts of the program are classes and loops here too, each proved equal to the function the theorems are about.

What turned out false, each with the exact condition under which it holds and a concrete counterexample:

- A persisted "always" decision does not decide every later request of its (server, shed): a live session grant of
  another namespace overrides a denial, and an any-server rule listed earlier shadows either
  (`CoordinatorGrants.PersistDecides`, `CoordinatorExamples.DenialOverridden`, `Approval.PersistCanBeShadowed`). One made
  for the unnamed server can also remove a rule other servers were using (`Approval.PersistLeavesOthersAlone`).
- A prompt need not be confirmed under the gate its request carries at the commit: it is exactly unless something since
  it opened has stored another (`CoordinatorGates.ConfirmedUnderStoredGate`,
  `CoordinatorGates.ConfirmedUnderWeakerGate`).
- One auth prompt per id fails exactly when a prompt arrives for an id whose earlier prompt is still open
  (`CoordinatorSweep.OnePromptExact`, `CoordinatorSweep.ReusedIdOpensTwo`).
- The host-agent client's frame cap is not a cap on lines: with reads of at most 8 KiB, a line passes or not by how
  it is cut exactly when it is over the cap by less than one read (`Frames.OverCapDependsOnCutting`,
  `Frames.OverCapAtTheDefaults`).
- A retry after a 401 can carry the rejected token again exactly when that token was dropped while its mint was still
  in flight, as when a caller that joined a mint is resumed before the one that started it (`ControlToken.RetryIsNewer`,
  `ControlToken.DroppedInFlightComesBack`, `ControlToken.JoinerCanReuseRejected`).
- Waiters stay on the current connection exactly when every connection comes up with nobody waiting
  (`TokenClient.WaitersAreOnCurrent`, `TokenClient.OverlapLeavesWaiter`).
- A Complete create can still turn into an Error (`CreateStore.CompleteIsFinal`, `CreateStore.CompleteCanBeRevoked`).
- The log's size bound needs a positive limit (`LogSizes.FilesAreBounded`, `LogSizes.OneLineTooBig`).
- The quoting leaves barewords such as `A=b` and `if` as they are, so a joined argv runs its first word exactly when
  that is neither an assignment-shaped nor a reserved bareword (`Shell.JoinedCommand`, `Shell.SwiftJoinedCommand`,
  `Shell.AssignmentIsNoCommand`, `Shell.ReservedIsNoCommand`).
- Two neighbouring blocks of a config file can change places exactly where every key they contend for at a level is
  settled by a later line of it (`ConfigOrder.SwapHereExact`), so neither with one key (`ConfigOrder.SameKeyBlocksDiffer`)
  nor under a deeper first line (`ConfigOrder.MisalignedBlocksDiffer`); in a well-indented file, whole rows of blocks, no
  two with the same key, can stand in any order (`ConfigRows.ReorderedFile`).

## Model

| member | source | states |
|---|---|---|
| `Approval.DecideExact` | core/shed-core/src/approval/policy.rs:28-77 | without a session grant, the verdict is that of the most specific applicable rule, the earliest among equals; with no applicable rule at all, a native-auth prompt |
| `Approval.Decide` | Sources/ShedKit/Approval/PolicyEngine.swift:20-37 | a verdict is at session scope exactly when the request's key holds a grant, and then it approves |
| `Approval.FirstIsEarliest` | core/shed-core/src/approval/policy.rs:43-53 | the rule scan finds the earliest match, and finds none only when nothing matches |
| `Approval.DefaultTtlParses` | core/shed-core/src/approval/models.rs:430-442 | the default duration `2h` parses to 7200 seconds, so the fallback is never needed |
| `Approval.TtlReads` | core/shed-core/src/approval/models.rs:430-442 | the texts that read as a duration are, blanks around them aside, a positive decimal count with an optional plus sign and one of the letters s, m, h, d in either case, and they read as that many times 1, 60, 3600 or 86400 seconds with 64-bit wrap-around; every other text reads as nothing |
| `Approval.UnitsExactly` | core/shed-core/src/approval/models.rs:430-442 | the unit letters and what each is worth, no other letter being one |
| `Approval.PersistTakesEffect` | core/shed-app/src/coordinator.rs:887-902 | after a persisted decision, the shed rule found for its own (server, shed) says what was decided if and only if no any-server rule for that shed survives that says otherwise |
| `Approval.PersistLeavesOthersAlone` | core/shed-app/src/coordinator.rs:887-902 | every other key's shed rule is unchanged if and only if the edit is not one for the unnamed server that displaces an any-server rule |
| `Approval.PersistFrame` | core/shed-app/src/coordinator.rs:887-902 | the same for one given other key |
| `Approval.LookupIsMap` | core/shed-core/src/approval/policy.rs:43-53 | on explicit, non-duplicated rules the first-match scan equals a map lookup by (server, shed) |
| `Approval.AddShedRuleIsMapUpdate` | core/shed-app/src/coordinator.rs:887-902 | on such rules, adding a rule is a last-write-wins map update and keeps the rules explicit and non-duplicated |
| `Approval.PersistCanBeShadowed` | core/shed-core/src/approval/policy.rs:43-53 | a concrete rule list in which an "always deny" leaves its own key approved |
| `CoordinatorActor.Actor.Process` | core/shed-app/src/coordinator.rs:353-435 | one command off the queue, whatever the walk order, is exactly one step of a run, with the calls it made appended in order |
| `CoordinatorActor.Actor.Dispatch` | core/shed-app/src/coordinator.rs:353-387 | each command reaches its handler and changes nothing else |
| `CoordinatorActor.Actor.HandleApprovalRequest` | core/shed-app/src/coordinator.rs:488-523 | answers at once on approve or deny without looking at the expiry; on prompt clears the in-flight marker, posts and stores the request with its gate |
| `CoordinatorActor.Actor.HandleDisconnected` | core/shed-app/src/coordinator.rs:444-465 | withdraws every notification, and drops all pending requests, markers and grants |
| `CoordinatorActor.Actor.BeginDecide` | core/shed-app/src/coordinator.rs:528-584 | phase 1: nothing if gone or expired; one prompt per marked id; otherwise straight to phase 2 |
| `CoordinatorActor.Actor.FinishDecide` | core/shed-app/src/coordinator.rs:589-628 | phase 2: nothing but clearing the marker unless the captured request is still pending, unexpired and confirmed |
| `CoordinatorActor.Actor.CommitDecision` | core/shed-app/src/coordinator.rs:629-686 | grants and rules, then the audit entry, the response, and the withdrawal |
| `CoordinatorActor.Actor.ExpirePending` | core/shed-app/src/coordinator.rs:688-713 | the loop denies exactly the requests found expired, in the order they were walked |
| `CoordinatorActor.Actor.ReevaluatePending` | core/shed-app/src/coordinator.rs:772-814 | the sweep re-decides every pending request once, in some walk order |
| `CoordinatorActor.Actor.SetSshApproval` | core/shed-app/src/coordinator.rs:816-834 | new preferences, rebuilt rules, SSH grants dropped, then the sweep |
| `CoordinatorActor.Actor.PersistShedRule` | core/shed-app/src/coordinator.rs:887-902 | the retained rules and the new one, and the engine rebuilt from them |
| `CoordinatorActor.Actor.RebuildPolicy` | core/shed-app/src/coordinator.rs:836-878 | after it, shed rules are looked up in the extra rules alone, and where no grant and no shed rule speaks, ssh requests get the SSH policy's action with the method's gate on a prompt, and aws and docker requests their own mode, a missing one denying |
| `CoordinatorActor.Actor.LiveGrants` | core/shed-app/src/coordinator.rs:904-914 | with the set it returns, under any rules, a request is approved at session scope exactly while the grant for its key lasts |
| `CoordinatorActor.Actor.RecordAndRespond` | core/shed-app/src/coordinator.rs:730-767 | the audit entry goes before the response |
| `CoordinatorAtomic.RunRefines` | core/shed-app/src/coordinator.rs:528-686 | every run, with markers and open prompts forgotten, is a run of a machine in which a user decision commits in one step: as `User` at the decision, exactly if the request is pending, strictly before its parsed expiry and not an approval behind a biometric gate; as `Touchid` at the resolution of its prompt, exactly if that was confirmed, with the same request still pending and in time; every other decision and resolution does nothing there; a per-session grant lasts the user's own duration where it reads as one and two hours otherwise |
| `CoordinatorAtomic.NextRefines` | core/shed-app/src/coordinator.rs:528-686 | every single step is one atomic step or none |
| `CoordinatorAtomic.StaleGateIsInert` | core/shed-app/src/coordinator.rs:597-623 | a resolved prompt changes no pending entry, grant, rule, response or audit entry if and only if its request is gone, replaced, expired or unconfirmed |
| `CoordinatorAtomic.PromptsStayGated` | core/shed-app/src/coordinator.rs:543-572 | in every reachable state, every open prompt belongs to an approval behind a biometric gate |
| `CoordinatorViews.ViewsHold` | core/shed-app/src/coordinator.rs:438-767 | in every reachable state: arrivals = answered + pending + dropped + superseded as multisets; the posted notifications are exactly the pending requests without duplicates; responses and app audit entries pair off one to one, the entry directly before its response, naming its request, decision and what decided it |
| `CoordinatorViews.AnsweredAtMostOnce` | core/shed-app/src/coordinator.rs:438-814 | when ids are not reused, each id is answered at most once, and never while it is pending |
| `CoordinatorViews.ExpireExact` | core/shed-app/src/coordinator.rs:688-713 | the tick removes exactly the requests whose parsed expiry is past, answers each of them, and touches nothing else, for every walk order |
| `CoordinatorDecisions.TickAnswersExactly` | core/shed-app/src/coordinator.rs:688-713 | a request is denied by the tick, as a timeout, if and only if its expiry parses and is strictly past; else it stays and gets no answer |
| `CoordinatorViews.HandleSettles` | core/shed-app/src/coordinator.rs:528-834 | every command but an arrival or a disconnect answers exactly the requests it removes |
| `CoordinatorViews.PostAgrees` | core/shed-app/src/coordinator.rs:507-519 | a new prompt replaces the notification and the pending entry of the same id together |
| `Notifier.Notifications.Follow` | core/shed-app/src/fakes.rs:36-54 | the notifier's list after a sequence of calls is the list the accounting theorem speaks of |
| `Notifier.Notifications.Post` | core/shed-app/src/fakes.rs:37-45 | earlier notifications of the id go, the new one comes last |
| `Notifier.Notifications.Withdraw` | core/shed-app/src/fakes.rs:47-49 | exactly the notifications of the id go |
| `CoordinatorHistory.RunResponsesAreJustified` | core/shed-app/src/coordinator.rs:488-814 | every response in the log met its conditions in the state its command found: a policy answer is the engine's verdict on the arriving request, or, in a sweep, on a pending request that is not tick-expired, under the new rules and grants; a timeout is a deny of a tick-expired request; a user or biometric answer is the choice made, on the request then pending, before its expiry |
| `CoordinatorHistory.ReevaluateResponses` | core/shed-app/src/coordinator.rs:772-811 | whatever the walk order, each answer of a sweep is the engine's verdict, taken from the state the sweep starts in, on a request pending there |
| `CoordinatorHistory.AnswersAreTimely` | core/shed-app/src/coordinator.rs:919-932 | `User` and `Touchid` answers go out strictly before the parsed expiry, timeouts strictly after it; a request whose expiry does not parse is only ever answered by policy |
| `CoordinatorDecisions.UserDecisionExact` | core/shed-app/src/coordinator.rs:528-584 | a user decision takes effect if and only if its request is pending and strictly before its parsed expiry: a denial, or an approval without a gate, is answered at once; an approval behind a gate opens its prompt unless the id is marked; nothing else ever happens |
| `CoordinatorDecisions.ResolutionExact` | core/shed-app/src/coordinator.rs:589-686 | in every run, a resolved prompt answers, as `Touchid`, if and only if it was confirmed, the very request it was opened for is still pending and its parsed expiry is still ahead; else only its marker goes |
| `CoordinatorHistory.TouchidHasItsPrompt` | core/shed-app/src/coordinator.rs:543-628 | every `Touchid` answer comes from a confirmed prompt opened earlier in the run for the very request pending when it committed |
| `CoordinatorHistory.PromptsResolveOnce` | core/shed-app/src/coordinator.rs:559-572 | two resolutions in a run never share a prompt |
| `CoordinatorHistory.PromptsAnswerOnce` | core/shed-app/src/coordinator.rs:589-686 | every resolution answers at most once |
| `CoordinatorHistory.PromptsOpenInTime` | core/shed-app/src/coordinator.rs:528-572 | every prompt of every run was opened by a user's approval, strictly before the parsed expiry, for the request then pending under its id and under the biometric gate stored with it |
| `CoordinatorHistory.HostEventsAreAudited` | core/shed-app/src/coordinator.rs:477-482 | in every reachable state, the host agent's events have been audited, each once and in order, and no other entry is marked as its own |
| `CoordinatorGates.ConfirmedUnderStoredGate` | core/shed-app/src/coordinator.rs:539-542 | every biometric approval was confirmed under the gate stored for its request at the commit, if and only if the last step since its prompt opened to store a gate for that id, if any did, stored the prompt's own |
| `CoordinatorGates.GateKeptExactly` | core/shed-app/src/coordinator.rs:787-794 | the same for any two points of a run |
| `CoordinatorGates.GateStep` | core/shed-app/src/coordinator.rs:507-519 | only an arriving prompt and a settings change store a gate, and this one |
| `CoordinatorGates.ConfirmedUnderWeakerGate` | core/shed-app/src/coordinator.rs:786-794 | a run in which a prompt opened where a password would do commits after the method was strengthened to biometrics only |
| `CoordinatorHistory.FinishResponse` | core/shed-app/src/coordinator.rs:597-628 | what phase 2 answers passed every check, and is signed `Touchid` exactly for a confirmed biometric approve |
| `CoordinatorGrants.GrantProvenance` | core/shed-app/src/coordinator.rs:629-673 | in every reachable state a key holds a grant if and only if the last grant-making decision sent for it has been followed by no user deny on it, no disconnect and (for ssh) no SSH settings change |
| `CoordinatorGrants.SessionApprovalExact` | core/shed-app/src/coordinator.rs:488-506 | an arriving request is answered at once with an approval labelled as a session grant if and only if the latest grant-making decision for its (server, namespace, shed) stands, and was per-shed or its duration has not run out |
| `CoordinatorGrants.ArrivalAnswers` | core/shed-app/src/coordinator.rs:488-506 | that answer is sent if and only if the verdict is at session scope |
| `CoordinatorDecisions.ArrivalExact` | core/shed-app/src/coordinator.rs:488-523 | an arrival is answered at once exactly on an outright verdict, with an audit entry that names the scope that decided it; on a prompt it is posted and stored, unmarked, with the verdict's gate |
| `CoordinatorDecisions.SshArrivalExact` | core/shed-core/src/approval/models.rs:187-193 | an ssh request no live grant and no shed rule speaks to is approved under always-allow, denied under always-deny, and posted under the other three policies, behind biometrics, biometrics or password, or no gate as the method says |
| `CoordinatorDecisions.ProviderArrivalExact` | core/shed-app/src/coordinator.rs:853-878 | an aws or docker request of that kind gets its provider mode, and a denial without one |
| `CoordinatorDecisions.RulesStayInSync` | core/shed-app/src/coordinator.rs:836-878 | in every reachable state without the test override, the engine holds the three namespace rules of the settings then in force and the extra rules |
| `CoordinatorGrants.StandingExtends` | core/shed-app/src/coordinator.rs:629-673 | what one more log entry does to a standing grant |
| `CoordinatorGrants.ShedRulesAreLastWrite` | core/shed-app/src/coordinator.rs:836-902 | from explicit, non-duplicated rules and without the test override, the engine's lookup is the last "always" decision sent for that (server, shed), else the configured rule |
| `CoordinatorGrants.PersistDecides` | core/shed-app/src/coordinator.rs:629-650 | right after a persisted decision commits, every request of its (server, shed), in any namespace and at any time, gets that decision if and only if, where its own key holds a live grant, the decision was an approval, and elsewhere no surviving any-server rule says otherwise |
| `CoordinatorDecisions.OverrideExact` | core/shed-app/src/coordinator.rs:384-387 | the test override replaces the engine's rules and nothing else |
| `CoordinatorExamples.DenialOverridden` | core/shed-core/src/approval/policy.rs:33-40 | a run without the test override, for every such pair of requests: approved per shed in one namespace, always denied on ssh, and the first namespace is still approved |
| `CoordinatorGrants.RebuiltLookup` | core/shed-app/src/coordinator.rs:836-871 | the three namespace rules put in front never change a shed lookup |
| `CoordinatorGrants.NamespaceDecisions` | core/shed-app/src/coordinator.rs:836-878 | where no grant and no shed rule speaks, an ssh request is approved under always-allow, denied under always-deny and prompted under the other three policies, behind the method's gate, and an aws or docker request its own provider mode, a missing one denying |
| `CoordinatorSweep.PolicyChangeSweep` | core/shed-app/src/coordinator.rs:772-834 | after a settings change a request is still pending if and only if it is tick-expired or still a prompt under the new rules, and then it carries the engine's current gate and was not answered; every other request was answered, by policy, with exactly the decision of the new rules and grants |
| `CoordinatorDecisions.SettingsHold` | core/shed-app/src/coordinator.rs:816-834 | each of method, policy and duration given is in force afterwards and the others stay; exactly the ssh grants go |
| `CoordinatorDecisions.SettingsAnswerExactly` | core/shed-app/src/coordinator.rs:772-834 | a pending ssh request that is not past its expiry and has no shed rule is approved under always-allow, denied under always-deny, and under the other three policies stays, unanswered, behind the gate of the method now in force |
| `CoordinatorDecisions.SweepLabels` | core/shed-app/src/coordinator.rs:795-811 | every audit entry of a sweep names a request pending at its start and the scope of the verdict on it |
| `CoordinatorSweep.SweepAnyOrder` | core/shed-app/src/coordinator.rs:772-814 | the final state and the multiset of calls do not depend on the walk order |
| `CoordinatorSweep.SweepCalls` | core/shed-app/src/coordinator.rs:772-814 | the calls of a sweep are exactly those it makes for the single pending ids, each decided from the state the sweep starts in |
| `CoordinatorSweep.OnePromptExact` | core/shed-app/src/coordinator.rs:507-519 | over every run: at most one prompt per id is ever open, with its pending id marked, if and only if no prompt arrives for an id that still has one open |
| `CoordinatorSweep.OnePromptStep` | core/shed-app/src/coordinator.rs:543-572 | the same for one step, whatever the command |
| `CoordinatorSweep.OnePromptPerId` | core/shed-app/src/coordinator.rs:543-572 | so it holds in every run that does not reuse ids |
| `CoordinatorSweep.MarkedAlwaysHavePrompts` | core/shed-app/src/coordinator.rs:331-336 | in every reachable state, reused ids or not, every marked id has an open prompt |
| `CoordinatorSweep.NeverStuck` | core/shed-app/src/coordinator.rs:528-572 | in every reachable state, approving a pending, unexpired request behind a biometric gate opens its prompt unless one is open already |
| `CoordinatorSweep.ReusedIdOpensTwo` | core/shed-app/src/coordinator.rs:507-519 | for every configuration whose SSH settings prompt behind a biometric gate, and every ssh request with a parseable expiry and no shed rule, a run that ends with two prompts open for its id |
| `AuditStore.Store.Append` | core/shed-app/src/audit_store.rs:46-55 | the tail is the last `limit` entries of the whole history whether or not the write succeeded; the file has the entries whose writes did, in order |
| `AuditStore.Store.Recent` | core/shed-app/src/audit_store.rs:58-60 | the reversed last min(n, limit) entries of the whole history |
| `Sse.Parser.FeedChunk` | core/shed-core/src/sse.rs:36-48 | the byte loop over one chunk equals the specification from any parser state |
| `Sse.Parser.HandleLine` | core/shed-core/src/sse.rs:64-90 | one whole line, in place |
| `Sse.Parser.FinishStream` | core/shed-core/src/sse.rs:51-62 | the last line and the last record |
| `Sse.ChunkingIrrelevant` | core/shed-core/src/sse.rs:36-48 | any cutting of the text gives the same events and the same final state as one whole feed |
| `Sse.RoundTrip` | tools/shedtest/mockserver.py:246-248 | printing events and parsing them returns them if and only if each is well formed |
| `Sse.EventReads` | core/shed-core/src/sse.rs:70-100 | the text of an `event:` line, a `data:` line and a blank line reads as the one event with those two values, whatever blanks are around them |
| `Sse.EventLineReads` | core/shed-core/src/sse.rs:78-79 | an `event:` line sets the kind to its value without the blanks around it |
| `Sse.DataLineReads` | core/shed-core/src/sse.rs:80-88 | a `data:` line adds its value without the blanks around it as one more line of data |
| `Sse.OtherLines` | core/shed-core/src/sse.rs:70-100 | a blank line dispatches what was gathered, if anything was; every other line changes nothing |
| `Sse.EmittedAreWellFormed` | core/shed-core/src/sse.rs:70-100 | every event of every stream is well formed: trimmed lines, no empty first line, not both fields empty |
| `Sse.CommentsChangeNothing` | core/shed-core/src/sse.rs:75-77 | a comment line at a line boundary changes neither events nor state, whatever follows |
| `Sse.EndIsBlankLine` | core/shed-core/src/sse.rs:51-62 | every stream reads as if it had ended with its last line and a blank line |
| `Sse.ReturnsChangeNothing` | core/shed-core/src/sse.rs:71 | line ends written as carriage return and newline read the same as newlines alone |
| `Frames.FrameReader.ReadFrameCapped` | core/shed-app/src/host_agent.rs:466-499 | the loop over the buffered reader equals the specification |
| `Frames.FrameReader.ReadFrames` | core/shed-app/src/host_agent.rs:340-358 | what a connection hands to the decoder: its frames stripped of trailing newlines and carriage returns, the blank ones skipped; when every line is within the cap, exactly its terminated lines so treated |
| `Frames.FrameReader.StripTrailingNewline` | core/shed-app/src/host_agent.rs:394-400 | the loop cuts off exactly the newlines and carriage returns at the end |
| `Frames.ReadFrameExact` | core/shed-app/src/host_agent.rs:466-499 | a line is returned if and only if the bytes that came before its newline's own read are within the cap; an unterminated rest ends in EOF or, over the cap, in an error |
| `Frames.RustFramesAreLines` | core/shed-app/src/host_agent.rs:461-499 | for every cutting, if every line is within the cap the frames are the terminated lines, the tail is dropped, and the reader fails at the end exactly when the tail is over the cap |
| `Frames.LinesAreCut` | core/shed-app/src/host_agent.rs:478-486 | the lines are what stands before each byte 10 |
| `Frames.StrippedExact` | core/shed-app/src/host_agent.rs:394-400 | stripping takes the bytes 10 and 13 off the end, however many there are, and nothing else |
| `Frames.BufferBounded` | core/shed-app/src/host_agent.rs:471-498 | the buffer never exceeds the cap plus one read |
| `Frames.AcceptedUnderEveryCutting` | core/shed-app/src/host_agent.rs:466-499 | a line is delivered under every cutting into reads of a given size if and only if it is within the cap |
| `Frames.AcceptedUnderSomeCutting` | core/shed-app/src/host_agent.rs:466-499 | and under some cutting if and only if, newline included, it is no longer than the cap and one read |
| `Frames.OverCapDependsOnCutting` | core/shed-app/src/host_agent.rs:489-494 | a line is delivered under one cutting and refused under another if and only if it is over the cap by less than one read |
| `Frames.OverCapAtTheDefaults` | core/shed-app/src/host_agent.rs:37-39 | at the 1 MiB cap and 8 KiB reads, such a line |
| `Frames.LineFrameReader.Next` | Sources/ShedKit/IPC/UnixSocket.swift:57-71 | the loop over pending bytes; a line comes back exactly when it is terminated and within the cap |
| `Frames.ReadLineExact` | Sources/ShedKit/IPC/UnixSocket.swift:57-71 | the outcome and the bytes left are a function of the bytes alone, not of how they were cut |
| `Frames.SwiftFramesExact` | Sources/ShedKit/IPC/UnixSocket.swift:57-71 | a whole stream gives its terminated lines up to the first over the cap; it ends in EOF exactly when nothing was over |
| `Frames.SwiftIsPrefixOfRust` | core/shed-app/src/host_agent.rs:461-465 | on the same bytes, cut in any two ways, the Swift reader's lines are a prefix of the Rust reader's |
| `Config.BuildBlock` | core/shed-core/src/config.rs:194-224 | the loop with its shared index terminates, only moves forward and equals the specification |
| `Config.BlockRendered` | core/shed-core/src/config.rs:194-224 | for every tree, its rendering followed by any lines at or below the parent indent is consumed exactly and rebuilt as that tree |
| `Config.LineRoundTrip` | core/shed-core/src/config.rs:163-189 | a line written with quoted key and value reads back if and only if the key has no colon and the value no `#` |
| `ConfigPlain.LineReads` | core/shed-core/src/config.rs:163-189 | any line of an indentation, a key, a colon, a value and a comment, with any blanks between them, reads as that indentation, key and value, each text in one pair of like quotes standing for its inside, and no value or `{}` for a nested block |
| `ConfigPlain.PlainLineExact` | core/shed-core/src/config.rs:163-235 | an unquoted line with a plain key reads back as itself if and only if it has no value, or one that is trimmed, has no `#`, is not `{}` and stands in no pair of quotes |
| `ConfigPlain.SkippedLines` | core/shed-core/src/config.rs:166-176 | blank lines, comment lines and lines without a colon are skipped |
| `Config.TreeRoundTrip` | core/shed-core/src/config.rs:162-192 | every tree with such keys and values survives being written as text and read back |
| `ConfigPlain.PlainTreeRoundTrip` | core/shed-core/src/config.rs:162-235 | every tree of plain keys and values survives being written without quotes and read back |
| `ConfigPlain.AnyWritingReads` | core/shed-core/src/config.rs:162-224 | every writing of a tree whose lines read, one by one, as the tree's lines reads as the tree |
| `Config.InsignificantLine` | core/shed-core/src/config.rs:166-169 | a blank or comment line anywhere in any text changes nothing |
| `Config.ReorderedReadsTheSame` | core/shed-core/src/config.rs:162-192 | for every tree, reordering its entries at every depth at once, and changing the indentation width, gives a text that reads the same |
| `Config.ReadServers` | core/shed-core/src/config.rs:98-123 | for every walk order, the servers are sorted by name and are exactly the map's blocks, each with its fields or defaults |
| `Config.ReadConfig` | core/shed-core/src/config.rs:94-131 | the whole reader, from text to server list and default server |
| `Config.ConfigIsUnique` | core/shed-core/src/config.rs:98-123 | the config is determined by the tree, whatever the order of the hash map |
| `Config.ReorderedConfig` | core/shed-core/src/config.rs:94-131 | and so the same config |
| `ConfigRows.ReorderedFile` | core/shed-core/src/config.rs:162-224 | in any well-indented file, whoever wrote it and with whatever comments and blank lines, a row of blocks at one depth, no two with the same key, can stand in any order without changing what is read |
| `ConfigRows.ReorderedFileConfig` | core/shed-core/src/config.rs:94-131 | and so without changing the server list and the default server |
| `ConfigRows.WrittenIsReorderable` | core/shed-core/src/config.rs:162-189 | every well-indented row of blocks, written out, is in a file of this kind |
| `ConfigRows.AnyOrder` | core/shed-core/src/config.rs:194-224 | the same on the significant lines, the reordered lines staying well indented |
| `ConfigOrder.SwapKeepsIndent` | core/shed-core/src/config.rs:194-224 | swapping two neighbouring blocks keeps a text well indented |
| `ConfigOrder.SwapKeepsTree` | core/shed-core/src/config.rs:194-224 | and keeps its tree |
| `ConfigOrder.SwapHereExact` | core/shed-core/src/config.rs:200-222 | where any two neighbouring blocks at one depth come up, with whatever keys, to whatever level is under way and whatever follows, their order makes no difference if and only if every key they give that level two values for is given again by a later line of it |
| `ConfigOrder.MisalignedBlocksDiffer` | core/shed-core/src/config.rs:205-209 | lines in which it does make a difference: two blocks shallower than their level's first line |
| `ConfigOrder.SameKeyBlocksDiffer` | core/shed-core/src/config.rs:212-215 | of two well-indented lines with one key and different values, the later wins, so their order matters |
| `ConfigOrder.NoneBetween` | core/shed-core/src/config.rs:199-209 | in a well-indented text no line falls between a level's parent and its first line, so nothing is read at the wrong level |
| `ConfigOrder.Consumed` | core/shed-core/src/config.rs:194-224 | every line a level consumes is deeper than its parent |
| `Config.ConfigRoundTrip` | core/shed-core/src/config.rs:99-131 | a sorted server list and a default, written out, read back field by field as themselves |
| `ConfigPlain.PlainConfigRoundTrip` | core/shed-core/src/config.rs:94-131 | a config written without quotes and with every default left out reads back as itself, the certificate pin in small letters |
| `ConfigPlain.ShortFieldsRead` | core/shed-core/src/config.rs:98-121 | in a server's block, a missing host reads as its name, missing ports as 8080 and 22, any other missing setting as empty |
| `Config.LessExact` | core/shed-core/src/config.rs:123 | names are ordered by the first place they differ, and a name comes before its continuations |
| `Config.InsertByName` | core/shed-core/src/config.rs:123 | keeps the list sorted by name and adds exactly the one server |
| `Shell.QuotedArgvReadsBack` | Sources/ShedKit/Shell.swift:8-12 | for every argv and every bareword set without shell characters, the shell splits the joined quoted words back into exactly that argv |
| `Shell.RustQuotingReadsBack` | core/shed-core/src/terminal.rs:65-74 | the same for the Rust bareword set |
| `Shell.BareExactly` | core/shed-core/src/terminal.rs:65-74 | a word is left bare if and only if it is made of ASCII letters, digits and the ten signs, and is not empty; else it is quoted |
| `Shell.SwiftQuotingReadsBack` | Sources/ShedKit/Shell.swift:8-12 | the same for the Swift one, for every notion of letter without shell characters |
| `Shell.SwiftBareExactly` | Sources/ShedKit/Shell.swift:8-12 | the Swift function leaves a word bare if and only if it is made of letters, numbers and the six signs, and is not empty |
| `Shell.QuotingIsInjective` | core/shed-core/src/terminal.rs:65-74 | different argument lists never share a command line |
| `Shell.SpecialStops` | core/shed-core/src/terminal.rs:65-74 | what the quoting guards against: a bareword followed by an unquoted character of the shell's own is no plain list of words |
| `Shell.JoinedRuns` | core/shed-core/src/rc.rs:376-380 | from a joined argv a shell runs no simple command if its first word is a reserved bareword or all its words are assignment-shaped barewords, and else the first word that is no such assignment |
| `Shell.JoinedCommand` | core/shed-core/src/rc.rs:368-395 | so it runs the first word if and only if that is neither an assignment-shaped nor a reserved bareword |
| `Shell.AssignmentIsNoCommand` | core/shed-core/src/terminal.rs:65-74 | `["A=b"]` reads back as itself and runs no command |
| `Shell.ReservedIsNoCommand` | core/shed-core/src/terminal.rs:65-74 | `["if"]` reads back as itself and runs no command |
| `Shell.JoinedWords` | core/shed-core/src/rc.rs:376-380 | as written, the words of the joined line are the quoted words |
| `Shell.QuotedAssignment` | core/shed-core/src/terminal.rs:65-74 | one quoted word is taken for an assignment, or a reserved word, if and only if it is a bareword of that kind |
| `Shell.SwiftJoinedCommand` | Sources/ShedKit/Shell.swift:8-12 | quoted by the Swift function, the first word is the command if and only if it is no reserved bareword |
| `Shell.SwiftQuotedIsNoAssignment` | Sources/ShedKit/Shell.swift:8-12 | a word quoted by the Swift function never is |
| `Shell.SshArgv` | core/shed-core/src/rc.rs:368-395 | the fixed options, target and `--`, and a last argument the remote shell reads back as the remote argv |
| `TokenClient.CallsReturnOnce` | core/shed-app/src/host_agent.rs:190-224 | over every run, a call returns at most once, and with a reply only if the reply's `in_reply_to` is its own id |
| `TokenClient.CallsReturn` | core/shed-app/src/host_agent.rs:214-223 | once its timer has fired and it is polled after that, a call has returned, whatever else happened meanwhile |
| `TokenClient.CallsAreCaused` | core/shed-app/src/host_agent.rs:190-224 | each outcome has its cause after the request: its own reply, a disconnect or restart, its own timer, or no usable connection to begin with |
| `TokenClient.FramesAreRequests` | core/shed-app/src/host_agent.rs:195-213 | over every run, the frames queued are exactly those of the calls made while a connection was up and took frames, each with that connection, its call's id and the server the call asked for |
| `TokenClient.OneFramePerCall` | core/shed-app/src/host_agent.rs:195-213 | and no call has two |
| `TokenClient.ReplyResumesExactly` | core/shed-app/src/host_agent.rs:382-392 | a reply changes a call if and only if that call is still waiting for it, and then only that call; late and unknown replies change nothing |
| `TokenClient.DuplicateReplyIsInert` | core/shed-app/src/host_agent.rs:382-392 | a second reply to the same request changes nothing |
| `TokenClient.WaitersAreOnCurrent` | core/shed-app/src/host_agent.rs:290-322 | no writer means no waiters; and over every run, however connection loops overlap, every waiter's request was always queued on the connection then up if and only if every connection comes up with nobody waiting |
| `TokenClient.ConnectOnCurrent` | core/shed-app/src/host_agent.rs:290-293 | one connection coming up keeps that if and only if nobody is waiting |
| `TokenClient.OneLoopSuffices` | core/shed-app/src/host_agent.rs:128-156 | with one connection loop at a time it always holds |
| `TokenClient.OverlapLeavesWaiter` | core/shed-app/src/host_agent.rs:128-145 | connect, request, connect leaves a waiter on the first connection |
| `TokenClient.InvHolds` | core/shed-app/src/host_agent.rs:84-92 | the waiter table, the calls and the outcomes agree in every reachable state |
| `TokenClient.Client.RequestToken` | core/shed-app/src/host_agent.rs:190-213 | registered before it is written; refused without a usable writer |
| `TokenClient.Client.ResolvePending` | core/shed-app/src/host_agent.rs:382-392 | whoever removes the entry owns the resume |
| `TokenClient.Client.LoseConnection` | core/shed-app/src/host_agent.rs:147-156 | no writer, an empty table, and every waiter's channel closed |
| `TokenClient.Client.PollCall` | core/shed-app/src/host_agent.rs:214-223 | the three ways a call returns, and the table entry a timeout removes |
| `ControlToken.SingleFlight` | Sources/ShedKit/Net/ControlTokenProvider.swift:75-88 | over every run, at most one mint runs at a time, and the cache only ever holds a token some mint succeeded with |
| `ControlToken.SendsAreBounded` | core/shed-core/src/http.rs:103-156 | a provider-backed client never sends the static token; a request sends at most twice, and only once without a provider |
| `ControlToken.RetryFollowsA401` | core/shed-core/src/http.rs:147-153 | a request that has sent twice, or is on its way to, had its first send, with that very bearer, answered with a 401 earlier in the run |
| `ControlToken.AskExact` | Sources/ShedKit/Net/ControlTokenProvider.swift:58-78 | asking for a token sends the cached one if and only if it is more than the two-hour window away from expiring, or never expires; otherwise the caller awaits the mint in flight, or starts one |
| `ControlToken.TokensAreReplies` | Sources/ShedKit/Net/ControlTokenProvider.swift:75-114 | over every run, a token cached, or sent by any request, is the text and the expiry a mint replied with earlier, and not empty |
| `ControlToken.MintReachesCallers` | Sources/ShedKit/Net/ControlTokenProvider.swift:75-88 | a mint's reply is sent by every caller that awaited it and cached by the one that started it; after a failure or an empty text they send no token and the cache stays |
| `ControlToken.AnswerExact` | core/shed-core/src/http.rs:141-156 | a 401 to the first send of a provider-backed client drops the cached token and asks again; every other answer ends the request |
| `ControlToken.AskStatic` | core/shed-core/src/http.rs:103-139 | without a provider the static token is sent, or none if it is empty |
| `ControlToken.RetryIsNewer` | core/shed-core/src/http.rs:141-156 | the retry never carries an older mint than the rejected one, and carries a newer one unless the rejected mint was still in flight when it was dropped |
| `ControlToken.DroppedInFlightComesBack` | Sources/ShedKit/Net/ControlTokenProvider.swift:58-66 | conversely, from every such state the retry can carry the same token again |
| `ControlToken.AtomicRetryIsNewer` | Sources/ShedKit/Net/ControlTokenProvider.swift:79-83 | with mint completion as one step, the retry is always newer |
| `ControlToken.LockedRetryIsNewer` | core/shed-core/src/token.rs:64-89 | where the lock is held across the mint, the retry is always newer |
| `ControlToken.JoinerCanReuseRejected` | Sources/ShedKit/Net/ControlTokenProvider.swift:75-83 | a run in which a caller that joined a mint sends its rejected token twice |
| `ControlToken.InvHolds` | core/shed-core/src/http.rs:103-156 | cache, flight and every request's progress agree in every reachable state |
| `ControlToken.ProviderActor.Token` | Sources/ShedKit/Net/ControlTokenProvider.swift:58-78 | the cached token if it is usable, else the mint to await, started only if none is in flight |
| `ControlToken.ProviderActor.Resumed` | Sources/ShedKit/Net/ControlTokenProvider.swift:79-87 | the starter records a successful mint and ends the flight; a failed one leaves the cache as it was |
| `ControlToken.ProviderActor.MintFinished` | Sources/ShedKit/Net/ControlTokenProvider.swift:77 | the mint's task ends: it no longer runs, and its outcome is there for whoever awaits it |
| `ControlToken.ProviderActor.Invalidated` | Sources/ShedKit/Net/ControlTokenProvider.swift:64-66 | drops the cached token and leaves a mint in flight alone |
| `Create.CreateStream` | core/shed-core/src/http.rs:241-312 | the streaming loop, piece by piece and stopping at the first failure, equals handling the whole text at once |
| `Create.CreateEndsExactly` | core/shed-core/src/http.rs:235-312 | a create ends Complete if and only if it is answered with a status of the 200s and its stream ends cleanly with a complete event and neither an error event nor an undecodable shed, else in Error with the text of what failed first: the transport, the status, an error event, an undecodable shed, the idle timeout or a missing complete event; its messages are the progress messages before the first failing event, and its shed is that of the last complete event before it, under the server's name |
| `Create.RestIsIgnored` | core/shed-core/src/http.rs:272-274 | after the first failing event, what else was to come makes no difference |
| `CreateStore.AdapterIsFaithful` | Sources/ShedKit/Net/RustShedCoreAdapter.swift:62-91 | under every interleaving the adapter repeats, skips and reorders nothing, and when it stops it has emitted every message of its snapshot once and in order, then the shed of a Complete one or the error of an Error one |
| `CreateStore.NothingMissedExactly` | Sources/ShedKit/Net/RustShedCoreAdapter.swift:57-58 | through the stream's buffer of the newest 256 events, the reader misses nothing if and only if no event finds it full, and never misses the last |
| `CreateStore.ReaderSeesSnapshot` | Sources/ShedKit/Net/RustShedCoreAdapter.swift:57-92 | so a reader that keeps up takes each message of the stopping snapshot once and in order, then the shed of a Complete one |
| `CreateStore.CancelRemoves` | core/shed-core/src/create.rs:129-135 | after a cancel of a started create, asked for directly or noticed by its polling adapter, its entry is gone, whatever comes after |
| `CreateStore.CancelledStaysGone` | core/shed-core/src/create.rs:54-72 | no callback, poll or restart revives an id whose entry is gone |
| `CreateStore.PollsOnlyGrow` | core/shed-core/src/create.rs:122-124 | the messages seen by polls only grow |
| `CreateStore.UncancelledEnds` | core/shed-core/src/create.rs:91-118 | an uncancelled create whose stream is over is Complete if and only if the stream succeeded, else Error, and holds the stream's messages, its last shed under the server's name and the text of what failed first |
| `CreateStore.StreamIsHandedOver` | Sources/ShedKit/Net/RustShedCoreAdapter.swift:62-91 | the poll after an uncancelled stream is over leaves the adapter stopped with everything emitted: the stream's progress messages in order, then its last shed under the server's name, or the text of what failed first |
| `CreateStore.PollEmitsAll` | Sources/ShedKit/Net/RustShedCoreAdapter.swift:69-90 | in every reachable state, a poll that finds the entry has then emitted all its messages and its shed or error, and goes on only while it is in progress |
| `CreateStore.NextPollStops` | Sources/ShedKit/Net/RustShedCoreAdapter.swift:79-87 | the next poll of an ended create stops the adapter on it |
| `CreateStore.ErrorIsFinal` | core/shed-core/src/http.rs:235-239 | an Error seen by a poll is final |
| `CreateStore.CompleteIsFinal` | core/shed-core/src/http.rs:278-287 | a Complete seen by a poll is final if and only if the stream succeeds |
| `CreateStore.CompleteCanBeRevoked` | core/shed-core/src/http.rs:301-308 | a complete event followed by an error event is first Complete, then Error |
| `CreateStore.Poller.PollOnce` | Sources/ShedKit/Net/RustShedCoreAdapter.swift:63-91 | cancellation first, then the snapshot, its new messages and its end: one poll step of the interleaved model |
| `CreateStore.Store.Callback` | core/shed-core/src/create.rs:54-72 | a callback updates its entry, or nothing if the entry is gone |
| `LogRotation.Log.RotateIfNeeded` | Sources/ShedKit/Diagnostics/DiagnosticLog.swift:128-141 | the countdown loop moves every file up by one, drops exactly the oldest, and never runs into an existing target |
| `LogRotation.Log.AppendLocked` | Sources/ShedKit/Diagnostics/DiagnosticLog.swift:110-121 | rotates if needed, then appends to the base file |
| `LogRotation.DiskIsSuffix` | Sources/ShedKit/Diagnostics/DiagnosticLog.swift:110-141 | over every sequence of appends, the files from oldest to newest are the last lines logged |
| `LogSizes.FilesAreBounded` | Sources/ShedKit/Diagnostics/DiagnosticLog.swift:128-131 | every file of every run is smaller than the limit plus the longest line, if and only if the limit is positive |
| `LogSizes.SizeIsLength` | Sources/ShedKit/Diagnostics/DiagnosticLog.swift:128-131 | a file's size is the length of its text |
| `LogSizes.OneLineTooBig` | Sources/ShedKit/Diagnostics/DiagnosticLog.swift:128-131 | with a limit of zero or less any single line breaks that bound |
| `LogSizes.EnoughRemains` | Sources/ShedKit/Diagnostics/DiagnosticLog.swift:132-140 | once a line has been dropped, at least keep times the limit remains |
| `LogSizes.NothingDroppedEarly` | Sources/ShedKit/Diagnostics/DiagnosticLog.swift:128-141 | nothing is dropped before keep + 1 times the limit has been logged |
| `LogRotation.RunFits` | Sources/ShedKit/Diagnostics/DiagnosticLog.swift:132-140 | no gaps, no file beyond the limit of files, and every rotated file had reached its size |

## Left out

- UI, menus, windows, notification center, Touch ID and polkit calls: an auth prompt is only its outcome.
- Sockets, TLS, HTTP plumbing, peer-UID checks and process spawning: they appear as connect, chunk, end, reply and timeout events.
- JSON: payload decoding is a parameter of the create stream; what the host agent's frames decode to is given; an audit entry on disk is the entry, not its JSON line.
- Create.CreateStream: what a payload decodes to, why one does not decode and what a transport failure says are given; a shed has a host and a name, its other fields pass through unread.
- Timestamps: parsing is a given (text, parsed second) pair; formatting and the audit entries' own timestamps are not modelled.
- Unicode: texts are character sequences with ASCII whitespace and ASCII lower-casing; lossy UTF-8 decoding is not modelled.
- Shell words: aliases, expansion of variables and everything else after the words and the command are found; the Swift function works on grapheme clusters, the model on characters.
- Coordinator observers: `last_error`, `gate_namespaces`, the event sink, reply channels and the connected and untrusted events change nothing the model tracks; a notification action is a later user decision with no scope.
- Clock: one reading per command, where the source reads it again inside some handlers.
- Coordinator.Commit: a grant expiry that overflows 64 bits wraps, as in a release build; a debug build stops instead.
- The Swift copy of the approval logic: it lacks the request binding and the clearing of grants on disconnect.
- ConfigRows.ReorderedFile: good indentation is sufficient for a whole file; the exact condition is stated for the level at which two blocks come up, `ConfigOrder.SwapHereExact`.
- A caller that drops its `request_token` future, or its request while it awaits a mint, is not modelled.
- LogRotation.Log.AppendLocked: file operations succeed, and no other process touches the files; formatting and redaction are not modelled.
- `resolved_endpoint`, `create_argv`, `create_invocation`, pane classification, `RcService` and `Backend`: branch-by-branch field building that would only add easy members.
