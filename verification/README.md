# Wapas, verified

Wapas recovers failed payments: it diagnoses a failure, plans actions, puts each one
before a policy gate, carries it out, and accounts for everything in a hash-chained
audit trail. This project models its safety and accounting core and proves what holds of
whole runs, for every strategy and every reaction of the world.

`dafny verify dfyconfig.toml` checks it.

## What is modelled

- **Gate and runner** (`Policy`, `Gate`, `GateProperties`, `GateExactness`, `GateReasons`,
  `Runner`, `RunnerSafety`, `RunTheorems`, `RunExactness`, `Ledger`, `RunStory`, `RunTrail`,
  `RunRefusals`, `Engine`). The gate is a ruling on findings and, beside it, the
  object that appends to its list of checks as it branches. A run is a function of the
  episode; `EpisodeRunner` is the loop with its mutable result, proved to compute it. The
  strategy and the world are arbitrary functions. Times are whole microseconds, India is
  UTC + 330 minutes, policy numbers are symbolic under the constraints loading enforces.
- **Audit** (`Text`, `Json`, `JsonProperties`, `NormalForm`, `Chain`, `ChainProperties`,
  `Redaction`, `Trail`, `Auditor`). SHA-256 is an arbitrary function with 64 characters of output.
  Theorems that need it assume no collision among the texts the chains at hand put into
  it, which a fixed-length hash can satisfy; injectivity on all texts it could not.
- **Live service** (`Live`, `LiveProperties`, `LiveProtocol`, `LiveTerminal`). The handler over the
  in-memory store, and a state machine of workers that read, claim, apply and put whole
  rows of one database in any interleaving, and may die at any point.
- **Actuator** (`Actuator`, `ActuatorProperties`). One process after another over a
  provider that keeps reference ids unique and may fail before or after taking effect.
- **Experiment** (`Sorting`, `Strata`, `Apportionment`, `StrataProperties`, `DealingOrder`,
  `Permutation`). Shares are numerators over a whole; sums and means are reals.
- **Indexes** (`History`, `HistoryProperties`, `Scorer`, `ScorerProperties`,
  `Calibration`, `Fleet`),
  **rules** (`Rules`), **playbooks** (`Playbooks`) and **money** (`Money`).

`Domain`, `Text`, `Sorting`, `Counting` and `Ratios` are shared. A method that changes state is proved
against a function on values, and the properties are proved of that function; among them
are theorems that settle what it answers in terms of its inputs alone.

## Where the code and its description differ

The theorems are about the code. Each difference has the exact condition under
which it shows, and most an input that reaches it.

- The runner never consults the table of valid transitions. After the loop the
  observation window can turn a suppressed or exhausted episode into a recovered one
  (`src/wapas/engine/runner.py:419-420`): `RunExactness.TerminalStateChangesExactly`,
  `RunExactness.ASuppressedRunCanRecover` and `RunExactness.AnExhaustedRunCanRecover`.
- Quiet hours are asked about the schedule, the engine acts at the later of schedule and
  clock. A contact scheduled so far back that its legal instant is past is made now, quiet
  or not: `RunExactness.ContactInQuietHoursExactly`, over runs
  `RunExactness.RunBreaksQuietExactly`, and `RunExactness.AStaleContactGoesOutAtNight`. No
  shipped playbook gets there (`Playbooks.PlaybooksKeepQuietHours`).
- The horizon is not asked about again after a rewrite: `RunExactness.PastHorizonExactly`,
  `RunExactness.RunPassesHorizonExactly` and `RunExactness.AContactGoesOutPastTheHorizon`;
  `RunTheorems.RunIsBounded` has the size of the overrun.
- The end of a quiet window loses its seconds; `GateProperties.TargetIsEarliestExactly`
  and `GateProperties.RewriteIsFixpoint` say when that matters,
  `GateProperties.SecondsInTheEndAreLost` has a window.
- The hash commits to number, instant, predecessor and payload.
  `ChainProperties.RewritingIsNoticedExactly` and `ChainProperties.ActorIsNotCommitted`
  show what that leaves out.
- Sorting the keys makes an encoding canonical unless two keys of one dictionary print
  alike; then the later item wins. `NormalForm.SameNormalForm` covers every payload,
  `NormalForm.LookalikesExactly` says when such a pair shows its order, and
  `Redaction.RedactionSeparatesKeys` that no appended payload has one.
- "A terminal episode stays terminal" holds of handlers that run to their end undisturbed.
  The database store reads and writes outside the claim's transaction, and `put` overwrites
  whatever row it finds. So a failure notice, a halt, a smaller payment or an older reading
  put late, and the second of two openers that both found nothing, write over a closed
  episode. `LiveTerminal.ClosedRowChangesExactly`, `LiveTerminal.RecoveryShrinksExactly` and
  `LiveTerminal.ClosedRowReopensExactly` say exactly which steps do what;
  `LiveTerminal.ARecoveryCanBeLost`, `LiveTerminal.AHaltCanEraseARecovery`,
  `LiveTerminal.ASmallerPaymentCanOverwrite` and
  `LiveTerminal.ASecondOpenerCanEraseARecovery` are schedules that reach them, and
  `LiveTerminal.ClosedStaysClosed` is the discipline that rules them out.
- A claim keeps 200 characters of an identity, so two long deliveries can share one and the
  second is dropped: `LiveTerminal.ClaimSharedExactly`, `LiveTerminal.LongLabelsShareAClaim`.
- A failed actuation is stored and replayed like a successful one, so nothing is tried
  again before the process restarts (`ActuatorProperties.AnswersAreReplayed`).
- Apportionment breaks ties by arm name so as not to depend on dictionary order. The
  counts do not; the order in which slots are dealt, and with it who gets which arm, does:
  `Apportionment.SlotsForgetArmOrderExactly`,
  `StrataProperties.AllocationForgetsArmOrderExactly` and `Apportionment.SlotsFollowArmOrder`.
- The fleet view is causal in its count and not in its expected rate:
  `Fleet.SignalsAgreeExactly`, `Fleet.TheFutureQuellsExactly`,
  `Rules.TheFutureDecidesExactly` and `Fleet.TheFutureIsExpected`.
- Exact recall depends on insertion order for bars of one half and below
  (`HistoryProperties.ALowBarFollowsOrder`); the shipped bar is 0.8. A cause named from base
  rates does when another is as common: `Rules.PriorCauseForgetsOrderExactly` and
  `Rules.ATieFollowsOrder`.

## Model

| member | source | states |
|---|---|---|
| `Policy.RungAtIsIndex` | src/wapas/policy/config.py:166-178 | on a validated ladder (rungs numbered 1..N in order) scanning for rung n finds it exactly for 1 <= n <= N, and finds the n-th |
| `Policy.ShippedNeverRetryAgrees` | policies/money.yaml:11-18 | the shipped never-retry list and the disposition table name the same causes |
| `Gate.PolicyGate.Evaluate` | src/wapas/policy/gate.py:149-168 | the decision, with its reasons, is that of the ruling: exits are never gated, then the kill switch, then the first check that does not pass decides; an approval lists every check made; that ruling is determined by `GateExactness.ApprovedExactly`, `GateReasons.DeniedExactly` and `GateReasons.ApprovalListsExactly` |
| `Gate.PolicyGate.CheckBudgets` | src/wapas/policy/gate.py:172-187 | actions, spend and daily organisation cap in that order, each appended to the shared list before it is tested |
| `Gate.PolicyGate.CheckMoney` | src/wapas/policy/gate.py:191-288 | the branch of the money action: mandate, never-retry, a hesitant diagnosis, verification, count and gap for a retry; routing, reauthorisation, concession cap and approval for the others |
| `Gate.PolicyGate.CheckContact` | src/wapas/policy/gate.py:292-347 | standing, ladder, frequency and quiet hours in order, the first refusal or rewrite deciding |
| `Gate.PolicyGate.CheckLadder` | src/wapas/policy/gate.py:349-379 | rung order, permitted channel, rung cooldown and preconditions |
| `Gate.PolicyGate.CheckFrequency` | src/wapas/policy/gate.py:405-433 | episode, day, week and weekly voice caps, then the no-response cooldown |
| `Gate.PolicyGate.CheckQuietHours` | src/wapas/policy/gate.py:336-347 | quiet hours are asked about the schedule, or now without one, and rewrite the schedule to the end of the window |
| `Gate.CauseInPlay` | src/wapas/policy/gate.py:219-246 | below 0.75 confidence a never-retry runner-up or risk hypothesis blocks the retry, and nothing else does |
| `Gate.LastContact` | src/wapas/policy/gate.py:119-120 | the contact with the latest instant |
| `GateProperties.ContactsSinceExactly` | src/wapas/policy/gate.py:110-117 | contacts and voice calls since an instant are as many as the history holds at or after it |
| `GateProperties.LastContactIsFirstOfTheLatest` | src/wapas/policy/gate.py:119-120 | of several contacts at the latest instant the first recorded is the last contact |
| `GateProperties.QuietExactly` | src/wapas/policy/gate.py:123-137 | an instant is quiet exactly when it lies between the start and the end of a window some Indian day begins, five and a half hours ahead of UTC, wrapping midnight when the end comes first |
| `GateProperties.TargetIsEarliestExactly` | src/wapas/policy/gate.py:123-137 | the quiet-hours target is the earliest instant at or after the request outside the window, for windows that wrap midnight or not, exactly when nothing had to move or the window ends on a whole minute |
| `GateProperties.TargetLeavesWindow` | src/wapas/policy/gate.py:123-137 | the target is outside the window exactly when the window does not hold the minute it ends in, because seconds of the end are dropped |
| `GateProperties.SecondsInTheEndAreLost` | src/wapas/policy/gate.py:123-137 | a concrete window and instant for which the target is still quiet |
| `GateProperties.RewriteOnlyDelays` | src/wapas/policy/gate.py:253-266 | a rewrite changes nothing but the schedule, to a later time, and only for retries and contacts |
| `GateProperties.RewriteIsFixpoint` | src/wapas/policy/gate.py:257-347 | resubmitting a rewritten action in the same context is allowed unchanged, exactly unless it waits for a window that holds the minute it ends in |
| `GateExactness.ApprovedExactly` | src/wapas/policy/gate.py:149-433 | an action is approved exactly when it is an exit, or the kill switch is off, every budget has room, and the money and contact policies permit it, stated without the order of checks, the concession cap as 100 times the value against amount times percent |
| `GateReasons.DeniedExactly` | src/wapas/policy/gate.py:149-433 | an action is denied for a reason, its numbers included, exactly when that reason applies and none asked before it does, each written out without the gate |
| `GateReasons.ApprovalListsExactly` | src/wapas/policy/gate.py:149-453 | an approval lists exactly the checks the action went through, in order; a rewrite says what it waits for, an exit that it is always allowed |
| `GateProperties.OneReason` | src/wapas/policy/gate.py:443-447 | a denial gives one reason |
| `GateExactness.PreconditionsExactly` | src/wapas/policy/gate.py:381-403 | a rung is open exactly when each of its preconditions holds, each written out |
| `GateExactness.ScheduledExactly` | src/wapas/policy/gate.py:253-347 | an approval returns the proposal on exactly this schedule: a retry too soon at the end of its gap, a contact in quiet hours at their end, anything else as asked; and it is called a rewrite exactly when that differs |
| `GateProperties.ApprovedRetry` | src/wapas/policy/gate.py:203-266 | what an approved retry rests on: live mandate, no never-retry cause diagnosed or in play, verified capture where required, retries left, and a schedule past the gap |
| `GateProperties.ApprovedContact` | src/wapas/policy/gate.py:292-433 | what an approved contact rests on: standing, consent, at most one rung up on a rung that exists, room under every cap at the moment of checking, cooldown over, and a schedule moved out of quiet hours |
| `GateProperties.ApprovedWithinBudget` | src/wapas/policy/gate.py:149-187 | nothing but an exit is approved past the kill switch or a budget |
| `Engine.EpisodeRunner.Run` | src/wapas/engine/runner.py:274-431 | the loop with its mutable result, clock, step, history and audit trail ends in exactly the state of the specification of a run, for any strategy and world; how that run ends and what its trail tells is `RunStory.RunEndsExactly`, `Ledger.FullRecoveryExactly` and `RunStory.TrailTellsTheRun` |
| `Engine.EpisodeRunner.ExecuteAction` | src/wapas/engine/runner.py:465-567 | executing moves counters, charges, history, trail and state as specified for each tool and each answer of the world; what a turn then does to state and marks is `RunStory.TurnEndsExactly` and `RunStory.TurnMarksExactly` |
| `Engine.EpisodeRunner.OneIteration` | src/wapas/engine/runner.py:347-412 | one turn: self-recovery first, proposal, horizon, gate, denial or approval, clock, act |
| `Engine.EpisodeRunner.CheckSelfRecovery` | src/wapas/engine/runner.py:569-591 | revenue without an action is credited once its time has come, at its own time |
| `Engine.EpisodeRunner.BlockedTerminally` | src/wapas/engine/runner.py:593-614 | the first terminal denial reason ends the episode in its state |
| `RunnerSafety.CapSurvivesDelay` | src/wapas/engine/runner.py:371-412 | a cap checked at one moment still holds when the contact is made at a later one |
| `RunnerSafety.IterateKeepsLimits` | src/wapas/engine/runner.py:347-412 | one iteration keeps every limit, although the action is carried out after the moment it was checked |
| `RunTheorems.ContactLimits` | src/wapas/policy/gate.py:349-433 | in every run each closed day, week and voice week holds at most the configured executed contacts, contacts respect the no-response cooldown and the total cap, and a rung-r contact follows at least r-1 earlier ones |
| `RunTheorems.RetryLimits` | src/wapas/policy/gate.py:248-266 | in every run executed retries are at least the minimum gap apart and within their cap |
| `RunTheorems.RunIsBounded` | src/wapas/engine/runner.py:302-424 | every run ends in a terminal state within 24 iterations on a clock that never goes back; actions stay within budget, land within the horizon plus max(retry gap, 24 hours), and cost at most max(token cost, spend cap - 1 + dearest channel) |
| `RunStory.TurnEndsExactly` | src/wapas/engine/runner.py:347-614 | a turn ends the episode in the state of the first of these that applies: money of itself, nothing proposed, a proposal past the horizon, a terminal refusal by its reason, or what the executed action and its answer bring |
| `RunStory.RunEndsExactly` | src/wapas/engine/runner.py:302-431 | every run ends in the state of its first turn that ends it, exhausted when none does, skipped when triage said so, and recovered when the watch finds the money |
| `RunStory.TurnMarksExactly` | src/wapas/engine/runner.py:465-567 | a turn marks opt-out, complaint, dispute, escalation and harmful retries exactly as the action it acts on and its answer say |
| `RunStory.RunMarksExactly` | src/wapas/engine/runner.py:274-567 | every run, starting from nothing, knows of the customer what its turns told: opt-out, complaint, dispute, escalation, how many retries the true cause forbade, every contact; one that triage skipped knows just that |
| `RunStory.TrailTellsTheRun` | src/wapas/engine/runner.py:451-690 | read entry by entry the trail of every run gives its recovered money and instant, cost, externality, every count, the denial reasons and the history of contacts and retries |
| `RunTrail.TrailIsSo` | src/wapas/engine/runner.py:274-690 | every run's trail begins with the opening, every entry states what the rate card and the world's answer make true, and the last states how it ended |
| `RunStory.StrategyHearsTheTrail` | src/wapas/engine/runner.py:354-364 | in no turn of any run is the strategy told other counts of actions and contacts than the trail so far tells |
| `RunRefusals.RefusalsHoldOfTheRun` | src/wapas/engine/runner.py:618-645 | a turn is refused only for what holds of its run, reason by reason, numbers included; the kill switch, the registry, a promise and unverified captures and ledgers never are the reason |
| `RunRefusals.ApprovalsHoldOfTheRun` | src/wapas/engine/runner.py:618-645 | what is approved had room in the run's budgets; a retry is approved exactly when, besides, mandate, diagnosis and count allow it, a mandate renewal exactly when a revoked mandate is diagnosed and contact is permitted |
| `RunTheorems.SelfRecoveryIsNeverMissed` | src/wapas/engine/runner.py:326-424 | money that arrives by itself within the observation window is never missed, whatever state the loop came to |
| `RunTheorems.ForbiddenCauseIsNeverRetried` | src/wapas/policy/gate.py:207-246 | when the diagnosis names, or while hesitant leaves in play, a never-retry cause, no run executes a retry whatever is proposed |
| `RunExactness.TerminalStateChangesExactly` | src/wapas/engine/runner.py:415-424 | a run ends in another state than its loop or its triage concluded in exactly when it concluded without recovering and the payment came of itself by the end of the watch; then it ends recovered with the amount added, and otherwise nothing of the result changes |
| `RunExactness.ASuppressedRunCanRecover` | src/wapas/engine/runner.py:415-424 | a run concluded suppressed by a dispute ends recovered |
| `RunExactness.AnExhaustedRunCanRecover` | src/wapas/engine/runner.py:371-375 | a run exhausted by a proposal past the horizon ends recovered |
| `RunExactness.TurnExecutesExactly` | src/wapas/engine/runner.py:347-412 | a turn executes its approved action, at the later of clock and schedule, exactly when one is approved and the payment has not come by then, and otherwise nothing |
| `RunExactness.RunExecutesExactly` | src/wapas/engine/runner.py:347-412 | a run executes something with a given property exactly when some turn of its loop acts on something with it |
| `RunExactness.PastHorizonExactly` | src/wapas/engine/runner.py:371-399 | an approved action that is no exit lands past the horizon exactly when the gate moved it there: a retry to the end of its gap, or a contact to the end of its quiet hours |
| `RunExactness.RunPassesHorizonExactly` | src/wapas/engine/runner.py:347-412 | a run executes such an action past its horizon exactly when some turn acts on one that was moved there |
| `RunExactness.AContactGoesOutPastTheHorizon` | src/wapas/engine/runner.py:371-399 | a run whose one message, proposed within the horizon, is executed eight hours past it |
| `RunExactness.ContactInQuietHoursExactly` | src/wapas/engine/runner.py:371-412 | an approved contact lands in quiet hours exactly when its schedule was stale and the present is quiet, or it was moved out of a window that holds the very minute it ends in; for every window |
| `RunExactness.RunBreaksQuietExactly` | src/wapas/engine/runner.py:347-412 | a run makes a contact in quiet hours exactly when some turn acts on one of those two kinds |
| `RunExactness.AStaleContactGoesOutAtNight` | src/wapas/engine/runner.py:396-399 | a run whose one message, scheduled for noon, is executed at eleven at night |
| `RunExactness.QuietHoursKept` | src/wapas/policy/gate.py:336-345 | under windows that do not hold the minute they end in, as any that ends on a whole minute, no run whose contact proposals are never stale makes contact in quiet hours |
| `Ledger.RunReconciles` | src/wapas/engine/runner.py:451-690 | in every run the outcome, cost and externality entries sum exactly to the ledger, at most one outcome is written and exactly when the run recovered, recovered never exceeds the amount when the world pays at most that, and at most 24 proposals are ruled on |
| `Ledger.FullRecoveryExactly` | src/wapas/engine/runner.py:550-591 | in every run a recovered episode is called recovered exactly when it brought at least its amount, and partly recovered exactly when it brought less |
| `JsonProperties.DecodeEncode` | src/wapas/audit/chain.py:76-84 | a parser recovers every printed tree of null, bool, int, float token, string, list and object, with the escapes of section 7 of RFC 8259 |
| `JsonProperties.ReadEncoded` | src/wapas/audit/chain.py:76-84 | reading a printed value stops exactly where it ended, whatever punctuation follows |
| `JsonProperties.EqualEncodings` | src/wapas/audit/chain.py:44-84 | two payloads have one encoding exactly when they have one normal form |
| `JsonProperties.EscapesExactly` | src/wapas/audit/chain.py:76-84 | quotes, backslashes and control characters are escaped and nothing else is, by a letter where there is one, else by four lower-case hexadecimal digits |
| `NormalForm.NormaliseIsIdempotent` | src/wapas/audit/chain.py:44-73 | normalising a normalised payload, and encoding it again, changes nothing |
| `NormalForm.SameNormalForm` | src/wapas/audit/chain.py:44-73 | two payloads normalise alike exactly when, at every depth, every lookup in their dictionaries finds the same, for any keys |
| `NormalForm.EncodingIsCanonical` | src/wapas/audit/chain.py:44-84 | encodings are equal exactly when the payloads are the same in that sense, keys that print alike included |
| `NormalForm.ItemOrderIsForgotten` | src/wapas/audit/chain.py:65-66 | rearranging the items of a dictionary whose keys print differently changes nothing |
| `NormalForm.LookalikesExactly` | src/wapas/audit/chain.py:65-66 | swapping two items whose keys print alike shows exactly when their values differ: the later one wins |
| `NormalForm.KeysThatPrintAlikeDependOnOrder` | src/wapas/audit/chain.py:65-66 | the number 1 and the text '1' are such keys: the encoding follows their order |
| `Chain.HashChain.Append` | src/wapas/audit/chain.py:169-192 | appending redacts, seals against the head and leaves earlier entries alone; the chain stays valid; what redaction hides is `Redaction.RedactionHidesExactly` |
| `Chain.VerifyChain` | src/wapas/audit/chain.py:216-244 | the walk accepts exactly the valid chains, counts the longest valid prefix, and blames the entry after it by its first failing test; it never meets a predecessor hash of the wrong length |
| `ChainProperties.DeletionIsBlamed` | src/wapas/audit/chain.py:216-244 | when an entry is deleted the one after it is blamed for a gap in the numbers |
| `ChainProperties.ReorderingIsBlamed` | src/wapas/audit/chain.py:216-244 | when two entries are swapped the earlier place is blamed for its number |
| `ChainProperties.RelinkingIsBlamed` | src/wapas/audit/chain.py:216-244 | an entry in its place on another predecessor is blamed for its link |
| `ChainProperties.AlterationIsBlamed` | src/wapas/audit/chain.py:216-244 | an entry in its place and on its predecessor that does not hash to its hash is blamed as altered |
| `Chain.AppendKeepsChain` | src/wapas/audit/chain.py:169-192 | an entry numbered, linked and hashed as appending does extends a valid chain |
| `ChainProperties.AppendedAsSaid` | src/wapas/audit/chain.py:169-192 | the new entry has the next number, the head as its predecessor and the instant, actor, type and episode given |
| `Chain.PrefixIsChain` | src/wapas/audit/chain.py:216-244 | every prefix of a valid chain is valid |
| `ChainProperties.MaterialIsUnique` | src/wapas/audit/chain.py:111-129 | the bar-joined material determines predecessor, number, instant and canonical payload, and they determine it |
| `ChainProperties.IsoIsInjective` | src/wapas/audit/chain.py:122-129 | two instants with one UTC time stamp are one instant |
| `ChainProperties.EqualHeadsExactly` | src/wapas/audit/chain.py:111-129 | two non-empty verified chains, free of collisions among themselves, end in one hash exactly when they have one length and agree entry by entry on instant and canonical payload |
| `ChainProperties.FinalHashFixesHistory` | src/wapas/audit/chain.py:111-129 | equal final hashes fix every entry's number, instant, canonical payload and both hashes |
| `ChainProperties.FinalHashFixesPayloads` | src/wapas/audit/chain.py:44-129 | and so every lookup in every payload, look-alike keys included |
| `ChainProperties.DeletionIsNoticed` | src/wapas/audit/chain.py:216-244 | deleting one entry goes unnoticed exactly when it is the last |
| `ChainProperties.ReorderingIsNoticed` | src/wapas/audit/chain.py:216-244 | swapping any two entries is rejected |
| `ChainProperties.RewritingIsNoticedExactly` | src/wapas/audit/chain.py:146-244 | rewriting an entry under its old hash passes exactly when number, instant, predecessor and canonical payload are unchanged |
| `ChainProperties.ActorIsNotCommitted` | src/wapas/audit/chain.py:181-190 | actor, event type and episode can be rewritten and the chain still verifies to the same final hash |
| `Redaction.RedactionActsPerKey` | src/wapas/audit/chain.py:92-108 | redaction keeps a dictionary's keys and treats each value on its own: lookups before and after correspond one to one |
| `Redaction.AmountsSurvive` | src/wapas/audit/chain.py:92-108 | a number under a key that is not sensitive comes through unchanged |
| `Redaction.RedactMasks` | src/wapas/audit/chain.py:92-108 | at every depth plain values under sensitive keys are digests |
| `Redaction.PlainValuesExactly` | src/wapas/audit/chain.py:92-108 | under a sensitive name a text, number or truth value becomes exactly "sha256:" and the digest of its text; under any other name it stays |
| `Redaction.RedactionHidesExactly` | src/wapas/audit/chain.py:92-108 | non-interference: two payloads normalise alike after redaction exactly when they are the same but for plain values under sensitive keys whose digests agree |
| `ChainProperties.SensitiveKeysAre` | src/wapas/audit/chain.py:33-41 | exactly these names are sensitive |
| `ChainProperties.CaseDoesNotMatter` | src/wapas/audit/chain.py:92-108 | whether a key is sensitive does not depend on its case |
| `Redaction.InnocentPayloadsAreKept` | src/wapas/audit/chain.py:92-108 | a payload without sensitive keys is hashed as it was given |
| `Redaction.RedactionSeparatesKeys` | src/wapas/audit/chain.py:92-108 | whatever it is given, redaction leaves no two keys that print alike in one dictionary, at any depth |
| `Trail.WriteTrail` | src/wapas/engine/runner.py:685-690 | writing a run's trail through the chain, one entry at a time, with whatever else each payload says besides, builds the chain the theorem below speaks of |
| `Trail.ChainReconcilesWithLedger` | src/wapas/engine/runner.py:451-690 | whoever holds the chain alone can redo the books, whatever free text its payloads carry: in every run the chain verifies, the redacted outcome, cost and externality amounts add up to the ledger, and one outcome entry stands for a recovered run, none for another |
| `Auditor.ChainTellsTheTrail` | src/wapas/engine/runner.py:451-690 | the chain of a run, redacted and with any details under other names, says entry by entry which payment, at what instant, what kind of event by whom, and every amount, step and flag of it |
| `Live.LiveEpisode.ApplyEvent` | src/wapas/api/store.py:134-186 | a closed episode ignores events, a payment credits at least zero and closes, a failed attempt waits, a halt escalates, anything else changes nothing |
| `Live.InMemoryEpisodeStore.ClaimEvent` | src/wapas/api/store.py:115-121 | true for the first delivery of an identity and never again |
| `Live.InMemoryEpisodeStore.ByProviderId` | src/wapas/api/store.py:102-109 | the first episode in insertion order that waits on this link, none for an empty id |
| `Live.WebhookService.RazorpayWebhook` | src/wapas/api/app.py:320-359 | look up, claim, apply, put and note one delivery: exactly one episode changes, as the sequential handler says |
| `LiveProperties.ResolvedExactly` | src/wapas/api/app.py:320-327 | a delivery goes to the episode it names, else to the first that waits on its link, else nowhere |
| `LiveProperties.AnsweredExactly` | src/wapas/api/app.py:320-359 | the answer says whether it was matched, whether it was a duplicate, and whether it meant anything to an episode still open |
| `LiveProperties.CreditExactly` | src/wapas/api/store.py:134-186 | money is credited exactly for a payment to an open episode, never less than nothing, and closes it fully exactly when it now holds its amount |
| `LiveProperties.ClosingExactly` | src/wapas/api/store.py:134-186 | an open episode closes exactly by a payment or a halt; a failed attempt leaves it waiting, and nothing else moves it |
| `LiveProperties.SecondsExactly` | src/wapas/api/app.py:329 | the identity's second is the instant with its fraction dropped toward zero |
| `LiveProperties.IdentityExactly` | src/wapas/api/app.py:330 | any two deliveries share an identity exactly when event and provider id, joined, and whole second agree; the amount is not part of it |
| `LiveProperties.LabelExactly` | src/wapas/api/app.py:330 | the joined text tells event and provider id apart, event names holding no colon |
| `LiveProperties.DuplicatesChangeNothing` | src/wapas/api/store.py:115-121 | with atomic handlers, handling a log equals handling it with repeated deliveries removed |
| `LiveProperties.KeptDeliveriesDiffer` | src/wapas/api/store.py:115-121 | no two deliveries kept by that removal are the same one |
| `LiveProperties.TerminalAbsorbs` | src/wapas/api/store.py:134-163 | with atomic handlers, a terminal episode stays exactly as it is, whatever arrives |
| `LiveProperties.StatesStayTrue` | src/wapas/api/store.py:165-174 | an episode is called recovered only with its whole amount, partly recovered only with less |
| `LiveProperties.NotesReconcile` | src/wapas/api/app.py:344-353 | the noted payments add up to the recovered amount; an open episode takes at most one and is closed by it |
| `LiveProtocol.NothingIsCreditedTwice` | src/wapas/api/pg_store.py:47-108 | over all interleavings and crashes of workers, each delivery identity wins one claim per episode, and the stored recovered amount is zero or that of one claimed payment, and zero while open |
| `LiveProtocol.StepKeepsInv` | src/wapas/api/pg_store.py:47-108 | every read, claim, apply, put, open or crash keeps that invariant |
| `LiveProtocol.StepsExactly` | src/wapas/api/pg_store.py:47-108 | only a put writes the table, only a first claim enters the claims, and only the worker that steps moves |
| `LiveProtocol.ReadsWhatTheHandlerFinds` | src/wapas/api/app.py:320-321 | an idle worker can read exactly the episode the handler would find, or none |
| `LiveProtocol.OpenersPutExactly` | src/wapas/api/app.py:206-278 | an opener that found nothing puts exactly a row with nothing recovered in a state its handler can leave |
| `LiveTerminal.ClaimSharedExactly` | src/wapas/api/pg_store.py:96-108 | two deliveries compete for one claim, so that the second is dropped, exactly when their identities are equal or both fill the 200 characters and agree in them |
| `LiveTerminal.ClosedRowChangesExactly` | src/wapas/api/pg_store.py:70-83 | over every enabled step of a state the invariant allows: a closed row changes exactly when a worker that read another closed row puts that back, a worker that read it open puts a payment, halt or notice the row does not already show, or a second opener puts over it |
| `LiveTerminal.RecoveryShrinksExactly` | src/wapas/api/pg_store.py:70-83 | over every enabled step of a state the invariant allows: recovered money shrinks exactly when a put or an opener's put writes less than the row holds, which is the payment on an open reading, the old amount on a closed one, and nothing otherwise |
| `LiveTerminal.ClosedRowReopensExactly` | src/wapas/api/pg_store.py:70-83 | over every enabled step: a closed episode reopens exactly when a worker that read it open puts an event that closes nothing, or a second opener is left waiting |
| `LiveTerminal.ClosedStaysClosed` | src/wapas/api/pg_store.py:70-83 | over every run whose writes find the row as it was read, or absent for an opener, a closed episode stays exactly as it is |
| `LiveTerminal.UndisturbedPutSettles` | src/wapas/api/app.py:320-343 | a schedule in which nobody writes the row between a worker's read and its put, whatever else happens, gives what the sequential handler gives |
| `LiveTerminal.ARecoveryCanBeLost` | src/wapas/api/pg_store.py:70-83 | a reachable schedule in which a late failure notice erases a recovery whose delivery is already claimed |
| `LiveTerminal.AHaltCanEraseARecovery` | src/wapas/api/pg_store.py:70-83 | a reachable schedule in which a late halt leaves the episode closed and erases the recovery |
| `LiveTerminal.ASmallerPaymentCanOverwrite` | src/wapas/api/pg_store.py:70-83 | a reachable schedule in which a smaller payment overwrites a larger one |
| `LiveTerminal.ASecondOpenerCanEraseARecovery` | src/wapas/api/app.py:206-278 | a reachable schedule in which a second opener, having found nothing, puts a fresh row over a recovered one |
| `ActuatorProperties.KeysAgreeExactly` | src/wapas/actuators/base.py:110-117 | for any steps two intents share a key exactly when their steps are of one size and their references, a negative step's sign added, read alike with spaces underscored |
| `ActuatorProperties.NaturalKeysAgreeExactly` | src/wapas/actuators/base.py:110-117 | for natural steps exactly when their references agree with spaces underscored and their steps are equal |
| `ActuatorProperties.DistinctIntentsDistinctKeys` | src/wapas/actuators/base.py:110-117 | so space-free references never collide |
| `ActuatorProperties.NegativeStepsCollideExactly` | src/wapas/actuators/base.py:110-117 | a negative step shares the key of a natural one exactly when the sizes agree and the latter's reference reads as the former's with a dash |
| `Actuator.RazorpayActuator.CreatePaymentLink` | src/wapas/actuators/razorpay.py:94-173 | refusals, replay, dry run, the call, reconciliation and the stored result, failures included, as specified; calls are counted; when that is a success is `ActuatorProperties.EffectExactly` and `ActuatorProperties.AdoptionExactly` |
| `Actuator.RazorpayActuator.Reconcile` | src/wapas/actuators/razorpay.py:175-206 | the scan adopts the first listed link with the key, and fails without creating one otherwise |
| `Actuator.FindLink` | src/wapas/actuators/razorpay.py:186-196 | the first match in the page, none exactly when there is none |
| `ActuatorProperties.OneIntentOneLink` | src/wapas/actuators/razorpay.py:94-206 | over any calls, provider errors and crashes that empty the store, the provider holds at most one link per key, all successes for a key carry one provider id, and at most one call reports having caused an effect |
| `ActuatorProperties.StepKeepsInv` | src/wapas/actuators/razorpay.py:94-206 | each call, death during a call or death between calls keeps the invariant behind it |
| `ActuatorProperties.AnswersAreReplayed` | src/wapas/actuators/razorpay.py:126-129 | until the process dies an answer is final, a failed one too: after any history and through any later calls, every call with the key returns the first result replayed and the provider gains no link under it |
| `ActuatorProperties.NothingWithoutApproval` | src/wapas/actuators/base.py:95-107 | a call is refused exactly when the decision is not an approved link for a positive amount, and a refusal touches nothing |
| `ActuatorProperties.EffectExactly` | src/wapas/actuators/razorpay.py:142-152 | a call succeeds with the provider's id and an effect exactly when it is approved and new, the provider holds no link under its key and the create goes through; the provider has then gained that link |
| `ActuatorProperties.LinkGainedExactly` | src/wapas/actuators/razorpay.py:130-173 | the provider gains the key's link exactly when the call is approved and new, it holds none and the create takes effect, heard of or not |
| `ActuatorProperties.AdoptionExactly` | src/wapas/actuators/razorpay.py:154-206 | a live call adopts a link exactly when the provider says it has one and the listing shows it; it carries that link's id and claims no effect |
| `ActuatorProperties.LiveCallsExactly` | src/wapas/actuators/razorpay.py:126-206 | a live call succeeds by effect or adoption and fails otherwise, its answer is kept, and it costs one call, two when it had to list |
| `ActuatorProperties.DryRunsStayHome` | src/wapas/actuators/razorpay.py:130-141 | a dry run reports a made-up id, is remembered and never reaches the provider |
| `ActuatorProperties.RetryAdoptsTheLink` | src/wapas/actuators/razorpay.py:175-206 | after a crash between the call and the write, a retry that can list the link adopts it: no second link, same id, no effect claimed |
| `Strata.Apportion` | src/wapas/engine/runner.py:153-170 | floors, leftover by largest remainder then arm name, slots arm by arm, as specified; that specification is held to `Apportionment.LargestRemaindersFirst` and `Apportionment.ApportionmentIsFair` |
| `Strata.StratifiedAssignment` | src/wapas/engine/runner.py:104-150 | ranks, strata, buckets and deals are those of the specification; no allocation where the strict zip would raise; who gets which arm is `DealingOrder.ArmsFollowDigests` with `StrataProperties.AssignmentIsFair` |
| `Apportionment.LeftoverGoesToRemainders` | src/wapas/engine/runner.py:160-165 | exactly the leftover number of arms get one more, and each of them has a positive remainder |
| `Apportionment.LargestRemaindersFirst` | src/wapas/engine/runner.py:160-165 | an arm that gets one more lost at least as much to flooring as any that does not, and on a tie has the smaller name |
| `Apportionment.ApportionmentIsFair` | src/wapas/engine/runner.py:153-170 | with shares that sum to one the counts sum to the size, and each is strictly within one of its exact quota and exact when that is whole |
| `Apportionment.DealFitsExactly` | src/wapas/engine/runner.py:148-170 | for any shares the strict zip succeeds exactly when flooring leaves between nothing and one slot per arm |
| `Apportionment.CountsForgetArmOrder` | src/wapas/engine/runner.py:163 | the counts do not depend on dictionary order |
| `Apportionment.SlotsForgetArmOrderExactly` | src/wapas/engine/runner.py:153-170 | listing the arms in another order leaves the dealt slots alone exactly when the arms that get any come in the same order in both lists |
| `Apportionment.SlotsFollowArmOrder` | src/wapas/engine/runner.py:167-170 | two arms of equal share are dealt in the order they are listed |
| `StrataProperties.AllocationForgetsArmOrderExactly` | src/wapas/engine/runner.py:104-170 | and leaves the whole allocation alone exactly when that holds in every stratum |
| `StrataProperties.EveryoneIsAssigned` | src/wapas/engine/runner.py:104-150 | with distinct references the assignment always succeeds and gives every reference one arm and one stratum |
| `StrataProperties.StrataAreContiguousAndEven` | src/wapas/engine/runner.py:134-143 | each stratum is a stretch of the ranking, and sizes differ by at most one |
| `StrataProperties.RankingFollowsAmounts` | src/wapas/engine/runner.py:134 | amounts never fall along the ranking, and equal amounts go by reference |
| `DealingOrder.ArmsFollowDigests` | src/wapas/engine/runner.py:143-150 | within a stratum arms are dealt along the digests: of two references the one with the smaller digest never gets an arm listed later |
| `StrataProperties.AssignmentIsFair` | src/wapas/engine/runner.py:143-150 | each arm's count in each stratum is strictly within one of size times share |
| `StrataProperties.TotalsAreFair` | src/wapas/engine/runner.py:104-150 | each arm's total is strictly within the number of strata of its share |
| `StrataProperties.AssignmentForgetsInputOrder` | src/wapas/engine/runner.py:125-134 | the allocation does not depend on the order the episodes come in |
| `History.ResolvedHistory.Add` | src/wapas/diagnose/history.py:84-91 | adding appends the exemplar and keeps every counter equal to a recount over the exemplars |
| `History.ResolvedHistory.ExactMatch` | src/wapas/diagnose/history.py:106-119 | answers from the wording's counter what the exemplars say |
| `History.ResolvedHistory.Prior` | src/wapas/diagnose/history.py:121-135 | answers from the context counters what backoff over the exemplars says |
| `History.ResolvedHistory.KnownAmbiguous` | src/wapas/diagnose/history.py:186-195 | seen before and resolved to nothing |
| `HistoryProperties.TalliedIsRecount` | src/wapas/diagnose/history.py:84-91 | a counter holds each cause as often as it occurs, and its total is their number |
| `HistoryProperties.ExactIsTheMajority` | src/wapas/diagnose/history.py:106-119 | with a bar above one half a wording is known exactly as the one cause whose share clears it |
| `HistoryProperties.ExactForgetsOrder` | src/wapas/diagnose/history.py:106-119 | with a bar above one half exact recall does not depend on insertion order |
| `HistoryProperties.ALowBarFollowsOrder` | src/wapas/diagnose/history.py:106-119 | at one half or below it does |
| `HistoryProperties.KnownOrAmbiguous` | src/wapas/diagnose/history.py:186-195 | a seen wording is exactly one of known and ambiguous, an unseen one neither |
| `HistoryProperties.SupportGrows` | src/wapas/diagnose/history.py:93-102 | support never falls as the context gets less specific |
| `HistoryProperties.FiledExactly` | src/wapas/diagnose/history.py:93-102 | an exemplar counts for a level of a context exactly when they share the surface and, as levels get more specific, rail, step, source and code |
| `HistoryProperties.BackoffStopsExactly` | src/wapas/diagnose/history.py:121-135 | the prior answers from a level of the context exactly when that one has support and no more specific one does, and from the whole history exactly when none has |
| `HistoryProperties.PoolForgetsOrder` | src/wapas/diagnose/history.py:121-135 | the level, and how often each cause is in the pool behind it, do not depend on insertion order |
| `HistoryProperties.PriorIsDistribution` | src/wapas/diagnose/history.py:121-135 | for any history but the empty one the prior is descending, sums to one, and gives each cause of the pool its frequency there |
| `HistoryProperties.RiskNamedExactly` | src/wapas/diagnose/history.py:197-226 | a risk is named exactly when never-retry causes are present and together heavy enough, and is the heaviest of them |
| `HistoryProperties.HeaviestIsFirst` | src/wapas/diagnose/history.py:197-226 | of risks as heavy the first in the distribution is named |
| `HistoryProperties.RiskyMassIsFrequency` | src/wapas/diagnose/history.py:197-226 | the mass tested is the share of the pool that must never be retried |
| `Scorer.RecoverabilityScorer.Observe` | src/wapas/triage/scorer.py:82-87 | one more in each of four cells; every cell stays equal to a recount |
| `Scorer.RecoverabilityScorer.FromResults` | src/wapas/triage/scorer.py:89-98 | learns from exactly the results whose cause is known |
| `Scorer.RecoverabilityScorer.Estimated` | src/wapas/triage/scorer.py:100-106 | the rate of the first level with support, else the global one, else one half |
| `Scorer.MeasureReliability` | src/wapas/triage/scorer.py:110-132 | buckets accumulated in one pass give, in bin order, mean prediction, observed frequency and count, as `Calibration.ReliabilityExactly` states in plain counts |
| `Scorer.MeasureCalibrationError` | src/wapas/triage/scorer.py:134-140 | the weighted mean gap of the rows, zero for none |
| `ScorerProperties.SupportGrows` | src/wapas/triage/scorer.py:73-80 | support never falls from a level to a more general one |
| `Calibration.CellsAgreeExactly` | src/wapas/triage/scorer.py:38-50 | two episodes share a cell exactly when they share cause and surface and no threshold of 500, 2,000, 10,000 or 50,000 rupees parts their amounts; a larger amount is never in a lower band |
| `Calibration.EstimateExactly` | src/wapas/triage/scorer.py:100-106 | an estimate is given exactly when it is the recovered share of the first cell with support, else of everything, else one half; cells are counted as positions in what was seen |
| `ScorerProperties.EstimateFailsExactly` | src/wapas/triage/scorer.py:100-106 | an estimate divides by zero exactly when no support is asked for and the cell is empty |
| `ScorerProperties.CellByCell` | src/wapas/triage/scorer.py:110-132 | when every cell's rate makes up its recoveries, predictions and recoveries agree over any choice of whole cells |
| `ScorerProperties.CalibratedByConstruction` | src/wapas/triage/scorer.py:73-140 | trained and scored on the same results with every occurring cell supported, every row predicts what it observed and the error is exactly zero, for any number of bins |
| `Calibration.BinExactly` | src/wapas/triage/scorer.py:125 | for a probability: bin i holds the predictions from i bins up to i + 1, certainty goes in the last, nothing falls outside |
| `Calibration.ReliabilityExactly` | src/wapas/triage/scorer.py:110-132 | there is one row for each bin some result falls in, lowest first, with the number, recovered share and mean prediction of exactly those results; none at all exactly when one cannot be predicted |
| `Calibration.EveryResultIsCounted` | src/wapas/triage/scorer.py:118-132 | the rows' counts add up to the results with a known cause |
| `Calibration.ErrorIsWeightedMean` | src/wapas/triage/scorer.py:134-140 | the error of two tables together is the mean of theirs weighted by their episodes |
| `Calibration.ErrorOfOneRow` | src/wapas/triage/scorer.py:134-140 | the error of one row is how far prediction and observation are apart, in either direction |
| `Calibration.ErrorVanishesExactly` | src/wapas/triage/scorer.py:134-140 | the error is zero exactly when every row with an episode observed what it predicted: gaps never cancel |
| `Fleet.FleetView.constructor` | src/wapas/diagnose/fleet.py:80-95 | stamps per issuer are sorted and the span is that of the whole stream |
| `Fleet.FleetView.SignalAt` | src/wapas/diagnose/fleet.py:97-117 | the signal computed by binary search is the one specified by counting; none for an unknown issuer |
| `Fleet.BisectRight` | src/wapas/diagnose/fleet.py:109 | the position past every stamp up to the end |
| `Fleet.BisectLeft` | src/wapas/diagnose/fleet.py:109 | the position of the first stamp at or past the start |
| `Fleet.CountIsPlainCount` | src/wapas/diagnose/fleet.py:106-109 | the window count is the plain count of the issuer's failures in the closed window |
| `Fleet.SpanExactly` | src/wapas/diagnose/fleet.py:83-94 | the span is that from the earliest to the latest stamp in hours, and at least one |
| `Fleet.ExpectedExactly` | src/wapas/diagnose/fleet.py:110-111 | what is expected is the window's share of the issuer's failures over the span, and at least a twentieth of one |
| `Fleet.TheFutureIsNotCounted` | src/wapas/diagnose/fleet.py:108-109 | streams that agree up to the instant count the same, as long as both know the issuer |
| `Fleet.SignalsAgreeExactly` | src/wapas/diagnose/fleet.py:97-117 | streams that agree up to the instant give one signal exactly when both know the issuer or neither does, and the rate expected of a known one, which the whole stream decides, is the same |
| `Fleet.SpikesExactly` | src/wapas/diagnose/fleet.py:112-117 | traffic spikes exactly when the issuer is known, enough failures are in the window, and they are enough times what is expected |
| `Fleet.TheFutureQuellsExactly` | src/wapas/diagnose/fleet.py:110-117 | what comes after the instant takes a spike away exactly when the count of the past clears the bar on what is expected without it and not on what is expected with it |
| `Fleet.TheFutureIsExpected` | src/wapas/diagnose/fleet.py:110-117 | one later failure does so: what is expected doubles and the spike is gone |
| `Rules.TheMostTrustedAnswers` | src/wapas/strategies/rules.py:152-206 | known wording, response code, keyword, traffic, base rates and where it broke answer in this order, each with its own confidence, and all but base rates alone |
| `Rules.KnownExactly` | src/wapas/diagnose/history.py:106-119 | a wording is known exactly as the cause of at least 0.8 of the exemplars that read alike |
| `Rules.BaseRatesAreOfTheLike` | src/wapas/diagnose/history.py:93-102 | base rates at a level are those of the exemplars that share the surface and, as it gets more specific, rail, step, source and code |
| `Rules.HistoryOrderDoesNotMatter` | src/wapas/strategies/rules.py:155-163 | a known wording is answered the same whatever order history was learnt in |
| `Rules.PriorAnswersAreGuarded` | src/wapas/strategies/rules.py:188-203 | an answer from base rates names the commonest cause of the pool as surely as its share and at most 0.6, the second as alternative, and a risk exactly when at least 15% of the pool must never be retried |
| `Rules.TheFutureDecidesExactly` | src/wapas/strategies/rules.py:155-203 | another stream of traffic, be it one that differs only later, changes the diagnosis exactly when no wording, code or keyword says anything and the two disagree on a spike |
| `Rules.PriorCauseForgetsOrderExactly` | src/wapas/strategies/rules.py:188-203 | the cause named from base rates is the same in every order of the history exactly when no other is as common in the pool |
| `Rules.ATieFollowsOrder` | src/wapas/strategies/rules.py:188-203 | and any cause as common is named in some order |
| `Rules.PriorGuardsForgetOrder` | src/wapas/strategies/rules.py:188-203 | the confidence and whether a risk is named, the 15% guard, are the same in every order |
| `Rules.ForbiddenRetriesNeverRun` | src/wapas/strategies/rules.py:152-206 | when the diagnosed cause, or 15% of the base rates behind it, must never be retried, no run on that diagnosis executes a retry |
| `Playbooks.ShippedPlaybooksAreWellTimed` | src/wapas/plan/playbooks.py:68-203 | in every shipped playbook no retry precedes a contact and each contact comes after all that earlier steps can be pushed to |
| `Playbooks.FollowingIsNeverStale` | src/wapas/plan/playbooks.py:43-56 | a run that follows a well-timed playbook never proposes a stale contact |
| `Playbooks.PlaybooksKeepQuietHours` | src/wapas/plan/playbooks.py:68-216 | under windows that do not hold the minute they end in, no run that follows a shipped playbook makes contact in quiet hours |
| `Permutation.PermutationP` | eval/stats.py:117-173 | grouping, accumulation stratum by stratum and counting give (hits + 1) / (resamples + 1), and 1 for an empty arm |
| `Permutation.AddStratum` | eval/stats.py:152-167 | one stratum is added in place to the sums of every resample |
| `Permutation.UniqueKeysCover` | eval/stats.py:146-149 | the strata are the labels of either arm, each once, in order |
| `Permutation.GapIsOfTheMeans` | eval/stats.py:140 | the statistic is the first arm's mean less the second's |
| `Permutation.ResamplesRelabel` | eval/stats.py:152-169 | every resample deals the two arms' values anew, each stratum's among its own, into arms of the sizes they had; the arms stay as they were where no stratum holds both |
| `Permutation.NullIsOfTheArms` | eval/stats.py:171 | a resample's statistic is the gap of the means of the arms it deals |
| `Permutation.SingleArmsNeedNoDraw` | eval/stats.py:160-165 | skipping the draw for a stratum of one arm changes no sum |
| `Permutation.AtLeastCountsTheFarOut` | eval/stats.py:172 | the hits are the resamples at or beyond the bar on either side |
| `Permutation.ResamplesConserve` | eval/stats.py:151-167 | the two sums of every resample add up to the two arms' values, and are those values when no stratum holds both |
| `Permutation.NothingToRelabel` | eval/stats.py:158-163 | when no stratum holds both arms the p-value is one |
| `Permutation.FewRankLow` | eval/stats.py:169-171 | of any statistics at most k have k or fewer at least as extreme as themselves |
| `Permutation.PValueIsValid` | eval/stats.py:169-171 | the p-value is a rank over the number of statistics, never zero, and so valid under exchangeability |
| `Money.ConversionRoundTrip` | src/wapas/money.py:23-41 | converting paise to rupees and back is the identity |
| `Money.HalfUpIsNearest` | src/wapas/money.py:35-36 | rounding moves a value by at most half a paisa, ties away from zero, symmetrically |
| `Money.FormatInr` | src/wapas/money.py:44-81 | the loop that shortens the head builds the grouping specified by recursion |
| `Money.FormatRoundTrip` | src/wapas/money.py:44-81 | dropping sign, symbol and punctuation and reading the digits gives back every integer of paise |
| `Money.CommasAreIndian` | src/wapas/money.py:70-79 | counted from the right, a comma stands after three digits and then after every two, none in front, digits unchanged |

## Left out

- IEEE rounding: shares, rates, confidences, means and thresholds are exact rationals or reals; a share computed in floating point can land on the other side of a floor.
- Floats in audit payloads: a float is the text it prints as, required to look like one; rounding to twelve places, dates, identifiers, bytes and model objects inside payloads are assumed turned into strings or numbers already.
- Actuator.RazorpayActuator.CreatePaymentLink: what it sends besides amount and reference, the detail its result carries and the audit record it writes are not modelled; they decide nothing.
- Free text: rationales, evidence, terminal reasons of the runner and the details inside denial reasons beyond their kind and numbers; in the audit payloads of `Trail` it is arbitrary, under any keys but that of the amount.
- Time stamps of the chain are UTC fields in range; converting microseconds or time zones to them is a parameter.
- Decoding of action arguments: a missing or unreadable channel is already no channel, an unreadable concession already worth nothing. A message without a channel is executed but, as in the source, counts as no contact.
- The runner's fixed context values: no kill switch, no registry entry, no promise, capture verified and no organisation spend, as it sets them; the kill switch, registry and promise branches are modelled in the gate.
- The triage verdict is given to a run; how expected value is computed from a probability, costs and planned contacts is not modelled. Nor are the probability and value a result records.
- The world's probabilities, random draws and issuer outages: a reaction is an arbitrary function of the interaction and how many came before. Opt-out cost is a number on the rate card.
- `assign_arm`, the hash-threshold assignment the evaluation does not use.
- Stratified assignment with repeated references: the model covers it, the fairness theorems ask for distinct ones.
- Negative shares and a number of strata below one.
- Compact rupee formatting and decimal precision beyond 28 digits.
- Keyword and response-code reading, neighbours by n-grams and the building of history from simulated episodes: a diagnosis takes what the text readers answer as given.
- `LLMDiagnoser`, prompts, caching and retries of model calls: the gate and runner theorems hold for any diagnosis, the end-to-end retry theorem is about the rules.
- `VALID_TRANSITIONS`, `VirtualScheduler`, the dashboard, reports, settings, red-team scenarios and the simulator.
- HTTP, signatures, sessions and migrations; of the database only the unique insert, whole-row writes and their order. The opener's row is written with nothing recovered, in one of the states its handler can leave.
- The in-memory store's lock: two threads inside one process are modelled only through the database protocol; the in-memory handler is modelled as running to its end, as the single event loop runs it.
- `ResolvedHistory.from_episodes`, `__len__`, `FleetView.issuers`, `all` and other one-line accessors.
- Bootstrap intervals, quantiles and comparisons in `eval/stats.py`: float statistics.
