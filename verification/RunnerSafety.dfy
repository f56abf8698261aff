/** Limits over whole runs. The gate checks at one moment and the engine may act at a
    later one, so every limit is carried across that gap as an invariant of the loop. */
module RunnerSafety {
  import opened Domain
  import opened Policy
  import opened Gate
  import opened GateProperties
  import opened Runner

  /* ----- reading the log of executed actions ----- */

  function ContactLog(executed: seq<Execution>): (log: seq<(Instant, Channel)>)
    ensures |log| <= |executed|
  {
    if executed == [] then []
    else
      var last := executed[|executed| - 1];
      ContactLog(executed[..|executed| - 1])
      + (if IsContact(last.action) then [(last.at, last.action.args.channel)] else [])
  }

  function RetryLog(executed: seq<Execution>): (log: seq<Instant>)
    ensures |log| <= |executed|
  {
    if executed == [] then []
    else
      var last := executed[|executed| - 1];
      RetryLog(executed[..|executed| - 1]) + (if last.action.tool == RetryPayment then [last.at] else [])
  }

  lemma LogsGrow(executed: seq<Execution>, e: Execution)
    ensures ContactLog(executed + [e]) ==
            ContactLog(executed) + (if IsContact(e.action) then [(e.at, e.action.args.channel)] else [])
    ensures RetryLog(executed + [e]) == RetryLog(executed) + (if e.action.tool == RetryPayment then [e.at] else [])
  {
    assert (executed + [e])[..|executed|] == executed;
  }

  function Stamps(history: seq<ContactRecord>): (log: seq<(Instant, Channel)>)
    ensures |log| == |history|
  {
    seq(|history|, i requires 0 <= i < |history| => (history[i].at, history[i].channel))
  }

  /* ----- frequency limits ----- */

  /** At every contact, the trailing window ending there holds at most `cap` contacts. */
  ghost predicate CapHolds(h: seq<ContactRecord>, width: nat, voiceOnly: bool, cap: nat) {
    h == []
    || (var last := h[|h| - 1];
        && CapHolds(h[..|h| - 1], width, voiceOnly, cap)
        && ((voiceOnly ==> last.channel.Voice?) ==> ContactsSince(h, last.at - width, voiceOnly) <= cap))
  }

  /** Contacts stamped within the closed window [lo, hi]. */
  function CountIn(h: seq<ContactRecord>, lo: Instant, hi: Instant, voiceOnly: bool): nat {
    if h == [] then 0
    else
      var last := h[|h| - 1];
      (if Counts(last, lo, voiceOnly) && last.at <= hi then 1 else 0) + CountIn(h[..|h| - 1], lo, hi, voiceOnly)
  }

  lemma {:induction false} CountInBelow(h: seq<ContactRecord>, lo: Instant, hi: Instant, since: Instant, voiceOnly: bool)
    requires since <= lo
    ensures CountIn(h, lo, hi, voiceOnly) <= ContactsSince(h, since, voiceOnly)
  {
    if h != [] {
      CountInBelow(h[..|h| - 1], lo, hi, since, voiceOnly);
    }
  }

  lemma {:induction false} SinceIsAntitone(h: seq<ContactRecord>, early: Instant, late: Instant, voiceOnly: bool)
    requires early <= late
    ensures ContactsSince(h, late, voiceOnly) <= ContactsSince(h, early, voiceOnly)
  {
    if h != [] {
      SinceIsAntitone(h[..|h| - 1], early, late, voiceOnly);
    }
  }

  /** A cap that holds looking back from each contact holds on every closed window. */
  lemma {:induction false} CapOnEveryWindow(h: seq<ContactRecord>, width: nat, voiceOnly: bool, cap: nat, lo: Instant)
    requires CapHolds(h, width, voiceOnly, cap)
    ensures CountIn(h, lo, lo + width, voiceOnly) <= cap
  {
    if h != [] {
      var last := h[|h| - 1];
      if Counts(last, lo, voiceOnly) && last.at <= lo + width {
        CountInBelow(h, lo, lo + width, last.at - width, voiceOnly);
      } else {
        CapOnEveryWindow(h[..|h| - 1], width, voiceOnly, cap, lo);
      }
    }
  }

  /** A cap checked at `when` still holds if the contact is made later. */
  lemma CapSurvivesDelay(h: seq<ContactRecord>, c: ContactRecord, when: Instant, width: nat, voiceOnly: bool, cap: nat)
    requires CapHolds(h, width, voiceOnly, cap)
    requires when <= c.at
    requires (voiceOnly ==> c.channel.Voice?) ==> ContactsSince(h, when - width, voiceOnly) < cap
    ensures CapHolds(h + [c], width, voiceOnly, cap)
  {
    assert (h + [c])[..|h|] == h;
    SinceIsAntitone(h, when - width, c.at - width, voiceOnly);
  }

  ghost predicate Spaced(times: seq<Instant>, gap: int) {
    forall i | 0 < i < |times| :: times[i] - times[i - 1] >= gap
  }

  ghost predicate ContactsSpaced(h: seq<ContactRecord>, gap: int) {
    forall i | 0 < i < |h| :: h[i].at - h[i - 1].at >= gap
  }

  /** With contacts in order, the latest is the last recorded. */
  lemma {:induction false} LastContactIsLast(h: seq<ContactRecord>)
    requires ContactsSpaced(h, 0) && h != []
    ensures LastContact(h).value.at == h[|h| - 1].at
  {
    var c := LastContact(h).value;
    if |h| > 1 {
      var shorter := h[..|h| - 1];
      LastContactIsLast(shorter);
    }
  }

  /* ----- what the loop keeps ----- */

  function RetryGapOf(ep: Episode): int {
    ep.policy.money.minGapBetweenRetriesHours * HOUR
  }

  function LatestAction(ep: Episode): Instant {
    Horizon(ep) + Max(RetryGapOf(ep), DAY)
  }

  ghost predicate ContactsSafe(caps: FrequencyCaps, h: seq<ContactRecord>) {
    && CapHolds(h, DAY, false, caps.messagesPerDay)
    && CapHolds(h, 7 * DAY, false, caps.messagesPerWeek)
    && CapHolds(h, 7 * DAY, true, caps.voiceCallsPerWeek)
    && |h| <= caps.contactsPerEpisode
    && ContactsSpaced(h, caps.cooldownAfterNoResponseHours * HOUR)
  }

  ghost predicate RetriesSafe(ep: Episode, executed: seq<Execution>) {
    && Spaced(RetryLog(executed), RetryGapOf(ep))
    && |RetryLog(executed)| <= ep.policy.money.maxRetriesPerPayment
  }

  /** The rung a contact asks for, when `earlier` contacts came before it. */
  function RungAsked(action: ProposedAction, earlier: nat): int {
    if action.args.rung.Some? then action.args.rung.value else earlier + 1
  }

  /** A rung-r request after at least r - 1 earlier contacts, for a rung that exists. */
  ghost predicate RungCleared(ep: Episode, action: ProposedAction, earlier: nat) {
    && RungAsked(action, earlier) - 1 <= earlier
    && RungAt(ep.policy.ladder, RungAsked(action, earlier)).Some?
  }

  /** Every contact came after enough earlier ones for the rung it asked for. */
  ghost predicate LadderClimbed(ep: Episode, executed: seq<Execution>) {
    forall k | 0 <= k < |executed| && IsContact(executed[k].action) ::
      RungCleared(ep, executed[k].action, |ContactLog(executed[..k])|)
  }

  ghost predicate InOrder(executed: seq<Execution>) {
    forall i, j | 0 <= i < j < |executed| :: executed[i].at <= executed[j].at
  }

  ghost predicate WithinHorizon(ep: Episode, executed: seq<Execution>) {
    forall k | 0 <= k < |executed| && executed[k].action.tool !in ALWAYS_ALLOWED ::
      executed[k].at <= LatestAction(ep)
  }

  /** The dearest channel on the rate card. */
  function MaxUnit(ep: Episode): nat {
    Max(Max(Max(UnitCost(ep, Whatsapp), UnitCost(ep, Sms)), Max(UnitCost(ep, Email), UnitCost(ep, Voice))),
        UnitCost(ep, NoChannel))
  }

  function CostCeiling(ep: Episode): int {
    Max(ep.tokenCost, ep.policy.budgets.maxSpendPerEpisode - 1 + MaxUnit(ep))
  }

  ghost predicate CountersAgree(ep: Episode, s: RunState) {
    && Stamps(s.history) == ContactLog(s.executed)
    && s.result.contactsMade == |s.history|
    && s.result.retries == |RetryLog(s.executed)|
    && s.result.actionsTaken <= ep.policy.budgets.maxActionsPerEpisode
    && ep.tokenCost <= s.result.cost <= CostCeiling(ep)
  }

  ghost predicate ClockKept(ep: Episode, s: RunState) {
    && ep.occurredAt <= s.now
    && InOrder(s.executed)
    && (forall k | 0 <= k < |s.executed| :: ep.occurredAt <= s.executed[k].at <= s.now)
    && |s.executed| <= s.step <= MAX_STEPS
  }

  ghost predicate Safe(ep: Episode, s: RunState) {
    && ClockKept(ep, s)
    && ContactsSafe(ep.policy.contact.caps, s.history)
    && RetriesSafe(ep, s.executed)
    && LadderClimbed(ep, s.executed)
    && WithinHorizon(ep, s.executed)
    && CountersAgree(ep, s)
  }

  /** What holds besides while the loop is still going. */
  ghost predicate Going(ep: Episode, s: RunState) {
    && Safe(ep, s)
    && s.result.state == Ingested
    && (forall c | c in s.history :: !c.responded && c.at <= s.now)
    && s.lastRetryAt == (var log := RetryLog(s.executed); if log == [] then None else Some(log[|log| - 1]))
    && (s.lastRetryAt.Some? ==> s.lastRetryAt.value <= s.now)
  }

  /* ----- one iteration, seen from outside ----- */

  ghost predicate HistoryGrew(h: seq<ContactRecord>, h': seq<ContactRecord>, action: ProposedAction, at: Instant) {
    if IsContact(action) then
      |h'| == |h| + 1 && h' == h + [h'[|h|]] && h'[|h|].at == at && h'[|h|].channel == action.args.channel
    else h' == h
  }

  ghost predicate CountersMoved(ep: Episode, r: Result, r': Result, action: ProposedAction) {
    && r'.contactsMade == r.contactsMade + (if IsContact(action) then 1 else 0)
    && r'.retries == r.retries + (if action.tool == RetryPayment then 1 else 0)
    && r'.actionsTaken == r.actionsTaken + (if action.tool in ALWAYS_ALLOWED then 0 else 1)
    && r'.cost == r.cost + (if IsContact(action) then UnitCost(ep, action.args.channel) else 0)
  }

  lemma ExecuteEffect(ep: Episode, s: RunState, action: ProposedAction)
    ensures var (t, over) := Execute(ep, s, action);
            && t.executed == s.executed + [Execution(action, s.now)]
            && t.lastRetryAt == s.lastRetryAt
            && HistoryGrew(s.history, t.history, action, s.now)
            && CountersMoved(ep, s.result, t.result, action)
            && (over ==> t.result.state in TERMINAL_STATES)
            && (!over ==> t.result.state == s.result.state)
            && (!over && IsContact(action) ==> !t.history[|s.history|].responded)
  {
    var s1 := s.(executed := s.executed + [Execution(action, s.now)]);
    if action.tool !in {CloseEpisode, EscalateToHuman, VerifyPaymentClaim} {
      SpendEffect(ep, s1, action);
      ReactEffect(ep, Spend(ep, s1, action), action, Answer(ep, Spend(ep, s1, action), action));
    }
  }

  lemma SpendEffect(ep: Episode, s: RunState, action: ProposedAction)
    requires action.tool !in ALWAYS_ALLOWED
    ensures var t := Spend(ep, s, action);
            && t.executed == s.executed && t.lastRetryAt == s.lastRetryAt && t.history == s.history
            && CountersMoved(ep, s.result, t.result, action)
            && t.result.state == s.result.state
  {
  }

  /** What taking in an answer leaves alone. */
  ghost predicate OnlyAnswered(s: RunState, t: RunState) {
    && t.executed == s.executed && t.lastRetryAt == s.lastRetryAt && t.history == s.history
    && t.result.contactsMade == s.result.contactsMade && t.result.retries == s.result.retries
    && t.result.actionsTaken == s.result.actionsTaken && t.result.cost == s.result.cost
  }

  lemma AnswersOnlyAnswer(ep: Episode, s: RunState, amount: Paise)
    ensures OnlyAnswered(s, Complain(ep, s)) && Complain(ep, s).result.state == s.result.state
    ensures OnlyAnswered(s, Dispute(ep, s)) && Dispute(ep, s).result.state in TERMINAL_STATES
    ensures OnlyAnswered(s, OptedOutNow(ep, s)) && OptedOutNow(ep, s).result.state in TERMINAL_STATES
    ensures OnlyAnswered(s, Pay(ep, s, amount)) && Pay(ep, s, amount).result.state in TERMINAL_STATES
  {
  }

  lemma ReactEffect(ep: Episode, s: RunState, action: ProposedAction, reaction: Reaction)
    ensures var (t, over) := React(ep, s, action, reaction);
            && t.executed == s.executed && t.lastRetryAt == s.lastRetryAt
            && HistoryGrew(s.history, t.history, action, s.now)
            && t.result.contactsMade == s.result.contactsMade && t.result.retries == s.result.retries
            && t.result.actionsTaken == s.result.actionsTaken && t.result.cost == s.result.cost
            && (over ==> t.result.state in TERMINAL_STATES)
            && (!over ==> t.result.state == s.result.state)
            && (!over && IsContact(action) ==> !t.history[|s.history|].responded)
  {
    var s1 := Record(s, action, reaction);
    AnswersOnlyAnswer(ep, s1, reaction.amount);
    var s2 := if reaction.complained then Complain(ep, s1) else s1;
    AnswersOnlyAnswer(ep, s2, reaction.amount);
  }

  ghost predicate Idle(s: RunState, t: RunState) {
    && t.executed == s.executed && t.history == s.history && t.lastRetryAt == s.lastRetryAt
    && t.result.contactsMade == s.result.contactsMade && t.result.retries == s.result.retries
    && t.result.actionsTaken == s.result.actionsTaken && t.result.cost == s.result.cost
    && s.now <= t.now
  }

  function Decision(ep: Episode, s: RunState): GateDecision
    requires Proposal(ep, s).Some?
  {
    var proposal := Proposal(ep, s).value;
    Ruling(proposal, GateContextAt(ep, s, When(s, proposal)), ep.policy)
  }

  /** The proposal comes within the horizon, or is an exit. */
  predicate Timely(ep: Episode, s: RunState)
    requires Proposal(ep, s).Some?
  {
    var proposal := Proposal(ep, s).value;
    When(s, proposal) <= Horizon(ep) || proposal.tool in ALWAYS_ALLOWED
  }

  function ApprovalMoment(ep: Episode, s: RunState): Instant {
    if Proposal(ep, s).Some? then When(s, Proposal(ep, s).value) else s.now
  }

  /** The action this iteration may perform: proposed in time and not denied. */
  function Approval(ep: Episode, s: RunState): Option<ProposedAction> {
    if Proposal(ep, s).Some? && Timely(ep, s) then Decision(ep, s).action else None
  }

  ghost predicate ActedOn(ep: Episode, s: RunState, t: RunState, action: ProposedAction, when: Instant) {
    && t.now == Max(s.now, if action.scheduledFor.Some? then action.scheduledFor.value else when)
    && t.executed == s.executed + [Execution(action, t.now)]
    && t.lastRetryAt == (if action.tool == RetryPayment then Some(t.now) else s.lastRetryAt)
    && HistoryGrew(s.history, t.history, action, t.now)
    && CountersMoved(ep, s.result, t.result, action)
  }

  /** What settling a decision does: nothing that limits count, or the approved action;
      and the episode goes on ungated by anything but a terminal state. */
  ghost predicate Effect(ep: Episode, s: RunState, t: RunState, broke: bool, action: Option<ProposedAction>, when: Instant) {
    && (Idle(s, t) || (action.Some? && ActedOn(ep, s, t, action.value, when)))
    && s.step <= t.step <= s.step + 1
    && (!Idle(s, t) ==> t.step == s.step + 1)
    && (broke ==> t.result.state in TERMINAL_STATES)
    && (!broke ==> t.result.state == Ingested)
    && (!broke && |t.history| > |s.history| ==> !t.history[|s.history|].responded)
    && (!broke && Idle(s, t) ==> t.now == s.now)
  }

  lemma ApprovalEffect(ep: Episode, s: RunState, action: ProposedAction, when: Instant)
    requires s.result.state == Ingested
    ensures var (t, broke) := AfterApproval(ep, s, action, when);
            Effect(ep, s, t, broke, Some(action), when)
  {
    var at := Max(s.now, if action.scheduledFor.Some? then action.scheduledFor.value else when);
    var s1 := s.(now := at);
    if !SelfRecover(ep, s1, at).1 {
      ExecuteEffect(ep, if action.tool == RetryPayment then s1.(lastRetryAt := Some(at)) else s1, action);
    }
  }

  /** Effects do not depend on the audit trail or the count of rewrites. */
  lemma EffectIgnoresLog(ep: Episode, s: RunState, logged: RunState, t: RunState, broke: bool,
                         action: Option<ProposedAction>, when: Instant)
    requires logged == s.(audit := logged.audit, result := s.result.(modifications := logged.result.modifications))
    requires Effect(ep, logged, t, broke, action, when)
    ensures Effect(ep, s, t, broke, action, when)
  {
  }

  lemma DenialEffect(ep: Episode, s: RunState, proposal: ProposedAction, decision: GateDecision, when: Instant)
    requires decision.verdict == Deny && decision.action.None? && s.result.state == Ingested
    ensures var (t, broke) := Settle(ep, s, proposal, decision, when);
            Effect(ep, s, t, broke, None, when)
  {
    TerminalDenialsAreTerminal(decision.reasons);
    assert Settle(ep, s, proposal, decision, when) == AfterDenial(Noted(s, proposal, decision, when), decision.reasons);
  }

  lemma SettleEffect(ep: Episode, s: RunState, proposal: ProposedAction, decision: GateDecision, when: Instant)
    requires decision.verdict == Deny <==> decision.action.None?
    requires s.result.state == Ingested
    ensures var (t, broke) := Settle(ep, s, proposal, decision, when);
            Effect(ep, s, t, broke, decision.action, when)
  {
    if decision.verdict == Deny {
      DenialEffect(ep, s, proposal, decision, when);
    } else {
      var s1 := Noted(s, proposal, decision, when);
      ApprovalEffect(ep, s1, decision.action.value, when);
      var (t, broke) := AfterApproval(ep, s1, decision.action.value, when);
      assert Settle(ep, s, proposal, decision, when) == (t, broke);
      EffectIgnoresLog(ep, s, s1, t, broke, decision.action, when);
    }
  }

  /** An iteration that neither recovers nor stops settles a decision. */
  lemma IterateSettles(ep: Episode, s: RunState)
    requires !SelfRecover(ep, s, s.now).1 && Proposal(ep, s).Some? && Timely(ep, s)
    ensures Iterate(ep, s) == Settle(ep, s, Proposal(ep, s).value, Decision(ep, s), ApprovalMoment(ep, s))
    ensures Approval(ep, s) == Decision(ep, s).action
  {
  }

  lemma UnsettledEffect(ep: Episode, s: RunState)
    requires SelfRecover(ep, s, s.now).1 || Proposal(ep, s).None? || !Timely(ep, s)
    ensures var (t, broke) := Iterate(ep, s);
            Effect(ep, s, t, broke, Approval(ep, s), ApprovalMoment(ep, s))
  {
  }

  lemma IterateEffect(ep: Episode, s: RunState)
    requires s.result.state == Ingested
    ensures var (t, broke) := Iterate(ep, s);
            Effect(ep, s, t, broke, Approval(ep, s), ApprovalMoment(ep, s))
  {
    if !SelfRecover(ep, s, s.now).1 && Proposal(ep, s).Some? && Timely(ep, s) {
      IterateSettles(ep, s);
      SettleEffect(ep, s, Proposal(ep, s).value, Decision(ep, s), ApprovalMoment(ep, s));
    } else {
      UnsettledEffect(ep, s);
    }
  }

  lemma {:induction false} TerminalDenialsAreTerminal(reasons: seq<Reason>)
    ensures FirstTerminal(reasons).Some? ==> FirstTerminal(reasons).value in TERMINAL_STATES
  {
    if reasons != [] {
      TerminalDenialsAreTerminal(reasons[1..]);
    }
  }

  /* ----- what an approval guarantees by the time it is acted on ----- */

  function Context(ep: Episode, s: RunState): GateContext {
    GateContextAt(ep, s, ApprovalMoment(ep, s))
  }

  /** The instant the engine acts on an approved action. */
  function ActionMoment(ep: Episode, s: RunState): Instant
    requires Approval(ep, s).Some?
  {
    var action := Approval(ep, s).value;
    Max(s.now, if action.scheduledFor.Some? then action.scheduledFor.value else ApprovalMoment(ep, s))
  }

  /** Approval changes nothing but the schedule, and acting never comes before checking. */
  lemma ApprovalKeepsAction(ep: Episode, s: RunState)
    requires ep.policy.Valid() && Approval(ep, s).Some?
    ensures var proposal, action := Proposal(ep, s).value, Approval(ep, s).value;
            && action == proposal.(scheduledFor := action.scheduledFor)
            && ApprovalMoment(ep, s) <= ActionMoment(ep, s)
            && (Decision(ep, s).verdict == Allow ==> action == proposal && ActionMoment(ep, s) == ApprovalMoment(ep, s))
  {
    if Decision(ep, s).verdict == Modify {
      RewriteOnlyDelays(Proposal(ep, s).value, Context(ep, s), ep.policy);
    }
  }

  lemma ActsWithinHorizon(ep: Episode, s: RunState)
    requires ep.policy.Valid() && Going(ep, s) && Approval(ep, s).Some?
    requires Approval(ep, s).value.tool !in ALWAYS_ALLOWED
    ensures ActionMoment(ep, s) <= LatestAction(ep)
  {
    ApprovalKeepsAction(ep, s);
    var proposal, ctx := Proposal(ep, s).value, Context(ep, s);
    if Decision(ep, s).verdict == Modify {
      RewriteOnlyDelays(proposal, ctx, ep.policy);
      if proposal.tool == RetryPayment {
        RetryRewriteTarget(proposal, ctx, ep.policy);
      } else {
        ApprovedContact(proposal, ctx, ep.policy);
        var w := ep.policy.contact.WindowFor(proposal.args.channel);
        if w.Quiet(Target(proposal, ctx)) {
          TargetShape(Target(proposal, ctx), w);
        }
      }
    }
  }

  lemma RetryRewriteTarget(action: ProposedAction, ctx: GateContext, p: PolicyBundle)
    requires action.tool == RetryPayment && Ruling(action, ctx, p).verdict == Modify
    ensures ctx.lastRetryAt.Some?
    ensures Ruling(action, ctx, p).action.value.scheduledFor
            == Some(ctx.lastRetryAt.value + p.money.minGapBetweenRetriesHours * HOUR)
  {
    assert BudgetFinding(ctx, p) == Pass;
    assert NeverRetryFinding(ctx, p) == Pass;
  }

  lemma SpacingSurvivesDelay(h: seq<ContactRecord>, c: ContactRecord, when: Instant, gap: nat)
    requires ContactsSpaced(h, gap) && (forall x | x in h :: !x.responded)
    requires h != [] && !LastContact(h).value.responded ==> when - LastContact(h).value.at >= gap
    requires when <= c.at
    ensures ContactsSpaced(h + [c], gap)
  {
    if h != [] {
      LastContactIsLast(h);
      assert LastContact(h).value in h;
    }
  }

  /** Room at the moment of checking is room at any later moment of acting. */
  lemma RoomSurvivesDelay(caps: FrequencyCaps, h: seq<ContactRecord>, c: ContactRecord, when: Instant)
    requires ContactsSafe(caps, h) && (forall x | x in h :: !x.responded)
    requires RoomFor(caps, |h|, h, c.channel.Voice?, when) && when <= c.at
    ensures ContactsSafe(caps, h + [c])
  {
    CapSurvivesDelay(h, c, when, DAY, false, caps.messagesPerDay);
    CapSurvivesDelay(h, c, when, 7 * DAY, false, caps.messagesPerWeek);
    CapSurvivesDelay(h, c, when, 7 * DAY, true, caps.voiceCallsPerWeek);
    SpacingSurvivesDelay(h, c, when, caps.cooldownAfterNoResponseHours * HOUR);
  }

  ghost predicate ContactCleared(ep: Episode, s: RunState, action: ProposedAction, when: Instant) {
    && RoomFor(ep.policy.contact.caps, |s.history|, s.history, action.args.channel.Voice?, when)
    && RungCleared(ep, action, |s.history|)
  }

  ghost predicate RetryCleared(ep: Episode, s: RunState, at: Instant) {
    && s.result.retries < ep.policy.money.maxRetriesPerPayment
    && (s.lastRetryAt.Some? ==> at >= s.lastRetryAt.value + RetryGapOf(ep))
  }

  ghost predicate BudgetCleared(ep: Episode, s: RunState) {
    && s.result.actionsTaken < ep.policy.budgets.maxActionsPerEpisode
    && s.result.cost < ep.policy.budgets.maxSpendPerEpisode
  }

  /** Everything an approval rests on that a limit needs, at the moment of acting. */
  ghost predicate Cleared(ep: Episode, s: RunState, action: ProposedAction, when: Instant, at: Instant) {
    && when <= at
    && (action.tool !in ALWAYS_ALLOWED ==> at <= LatestAction(ep) && BudgetCleared(ep, s))
    && (action.tool == RetryPayment ==> RetryCleared(ep, s, at))
    && (IsContact(action) ==> ContactCleared(ep, s, action, when))
  }

  lemma BudgetIsCleared(ep: Episode, s: RunState)
    requires Approval(ep, s).Some? && Proposal(ep, s).value.tool !in ALWAYS_ALLOWED
    ensures BudgetCleared(ep, s)
  {
    ApprovedWithinBudget(Proposal(ep, s).value, Context(ep, s), ep.policy);
  }

  lemma RetryIsCleared(ep: Episode, s: RunState)
    requires Approval(ep, s).Some? && Proposal(ep, s).value.tool == RetryPayment
    ensures RetryCleared(ep, s, ActionMoment(ep, s))
  {
    ApprovedRetry(Proposal(ep, s).value, Context(ep, s), ep.policy);
  }

  lemma RoomIsCleared(ep: Episode, s: RunState)
    requires Approval(ep, s).Some? && IsContact(Proposal(ep, s).value)
    requires s.result.contactsMade == |s.history|
    ensures RoomFor(ep.policy.contact.caps, |s.history|, s.history, Proposal(ep, s).value.args.channel.Voice?, ApprovalMoment(ep, s))
  {
    var ctx := Context(ep, s);
    assert ctx.history == s.history && ctx.now == ApprovalMoment(ep, s) && ctx.contactsUsed == |s.history|;
    ApprovedContact(Proposal(ep, s).value, ctx, ep.policy);
  }

  lemma RungIsCleared(ep: Episode, s: RunState)
    requires Approval(ep, s).Some? && IsContact(Proposal(ep, s).value)
    ensures RungCleared(ep, Proposal(ep, s).value, |s.history|)
  {
    var ctx := Context(ep, s);
    assert ctx.escalationRung == |s.history|;
    ApprovedContact(Proposal(ep, s).value, ctx, ep.policy);
  }

  lemma ContactIsCleared(ep: Episode, s: RunState)
    requires Approval(ep, s).Some? && IsContact(Proposal(ep, s).value)
    requires s.result.contactsMade == |s.history|
    ensures ContactCleared(ep, s, Proposal(ep, s).value, ApprovalMoment(ep, s))
  {
    RoomIsCleared(ep, s);
    RungIsCleared(ep, s);
  }

  lemma ApprovalIsCleared(ep: Episode, s: RunState)
    requires ep.policy.Valid() && Going(ep, s) && Approval(ep, s).Some?
    ensures Cleared(ep, s, Approval(ep, s).value, ApprovalMoment(ep, s), ActionMoment(ep, s))
  {
    var action := Approval(ep, s).value;
    ApprovalKeepsAction(ep, s);
    if action.tool !in ALWAYS_ALLOWED {
      BudgetIsCleared(ep, s);
      ActsWithinHorizon(ep, s);
    }
    if action.tool == RetryPayment {
      RetryIsCleared(ep, s);
    }
    if IsContact(action) {
      ContactIsCleared(ep, s);
    }
  }

  lemma ContactsStaySafe(ep: Episode, s: RunState, t: RunState, action: ProposedAction, when: Instant)
    requires Going(ep, s)
    requires ActedOn(ep, s, t, action, when) && Cleared(ep, s, action, when, t.now)
    ensures ContactsSafe(ep.policy.contact.caps, t.history)
  {
    if IsContact(action) {
      RoomSurvivesDelay(ep.policy.contact.caps, s.history, t.history[|s.history|], when);
    }
  }

  lemma RetriesStaySafe(ep: Episode, s: RunState, t: RunState, action: ProposedAction, when: Instant)
    requires Going(ep, s)
    requires ActedOn(ep, s, t, action, when) && Cleared(ep, s, action, when, t.now)
    ensures RetriesSafe(ep, t.executed)
  {
    LogsGrow(s.executed, Execution(action, t.now));
  }

  lemma LadderStaysClimbed(ep: Episode, s: RunState, t: RunState, action: ProposedAction, when: Instant)
    requires Going(ep, s)
    requires ActedOn(ep, s, t, action, when) && Cleared(ep, s, action, when, t.now)
    ensures LadderClimbed(ep, t.executed)
  {
    assert |ContactLog(s.executed)| == |Stamps(s.history)| == |s.history|;
    forall k | 0 <= k < |t.executed| && IsContact(t.executed[k].action)
      ensures RungCleared(ep, t.executed[k].action, |ContactLog(t.executed[..k])|)
    {
      if k < |s.executed| {
        assert t.executed[..k] == s.executed[..k];
      } else {
        assert t.executed[..k] == s.executed;
      }
    }
  }

  lemma CountersStayInAgreement(ep: Episode, s: RunState, t: RunState, action: ProposedAction, when: Instant)
    requires Going(ep, s)
    requires ActedOn(ep, s, t, action, when) && Cleared(ep, s, action, when, t.now)
    ensures CountersAgree(ep, t)
  {
    LogsGrow(s.executed, Execution(action, t.now));
    if IsContact(action) {
      assert Stamps(t.history) == Stamps(s.history) + [(t.now, action.args.channel)];
      assert UnitCost(ep, action.args.channel) <= MaxUnit(ep) by {
        match action.args.channel case _ =>
      }
    }
  }

  lemma ClockStaysKept(ep: Episode, s: RunState, t: RunState, action: ProposedAction, when: Instant)
    requires ClockKept(ep, s) && s.step < MAX_STEPS && t.step == s.step + 1
    requires ActedOn(ep, s, t, action, when)
    ensures ClockKept(ep, t)
  {
  }

  lemma HorizonStaysKept(ep: Episode, s: RunState, t: RunState, action: ProposedAction, when: Instant)
    requires WithinHorizon(ep, s.executed)
    requires ActedOn(ep, s, t, action, when) && Cleared(ep, s, action, when, t.now)
    ensures WithinHorizon(ep, t.executed)
  {
  }

  /** Acting on a cleared approval keeps every limit. */
  lemma ActingKeepsLimits(ep: Episode, s: RunState, t: RunState, action: ProposedAction, when: Instant)
    requires Going(ep, s) && s.step < MAX_STEPS && t.step == s.step + 1
    requires ActedOn(ep, s, t, action, when) && Cleared(ep, s, action, when, t.now)
    ensures Safe(ep, t)
  {
    ClockStaysKept(ep, s, t, action, when);
    ContactsStaySafe(ep, s, t, action, when);
    RetriesStaySafe(ep, s, t, action, when);
    LadderStaysClimbed(ep, s, t, action, when);
    HorizonStaysKept(ep, s, t, action, when);
    CountersStayInAgreement(ep, s, t, action, when);
  }

  /** The loop invariant survives an iteration, and every limit does even when it breaks. */
  lemma IterateKeepsLimits(ep: Episode, s: RunState)
    requires ep.policy.Valid() && Going(ep, s) && s.step < MAX_STEPS
    ensures var (t, broke) := Iterate(ep, s);
            && Safe(ep, t)
            && (broke ==> t.result.state in TERMINAL_STATES)
            && (!broke ==> Going(ep, t))
  {
    var (t, broke) := Iterate(ep, s);
    IterateEffect(ep, s);
    EffectKeepsLimits(ep, s, t, broke);
  }

  /** An iteration that acts on nothing moves no limit. */
  lemma IdlingKeepsLimits(ep: Episode, s: RunState, t: RunState, broke: bool)
    requires Going(ep, s) && s.step < MAX_STEPS && Idle(s, t)
    requires Effect(ep, s, t, broke, Approval(ep, s), ApprovalMoment(ep, s))
    ensures Safe(ep, t)
    ensures !broke ==> Going(ep, t)
  {
  }

  /** One that acts does so on a cleared approval. */
  lemma ActingIsCleared(ep: Episode, s: RunState, t: RunState, broke: bool)
    requires ep.policy.Valid() && Going(ep, s) && s.step < MAX_STEPS && !Idle(s, t)
    requires Effect(ep, s, t, broke, Approval(ep, s), ApprovalMoment(ep, s))
    ensures Safe(ep, t)
    ensures !broke ==> Going(ep, t)
  {
    ApprovalIsCleared(ep, s);
    ActingKeepsLimits(ep, s, t, Approval(ep, s).value, ApprovalMoment(ep, s));
  }

  lemma EffectKeepsLimits(ep: Episode, s: RunState, t: RunState, broke: bool)
    requires ep.policy.Valid() && Going(ep, s) && s.step < MAX_STEPS
    requires Effect(ep, s, t, broke, Approval(ep, s), ApprovalMoment(ep, s))
    ensures Safe(ep, t)
    ensures !broke ==> Going(ep, t)
  {
    if Idle(s, t) {
      IdlingKeepsLimits(ep, s, t, broke);
    } else {
      ActingIsCleared(ep, s, t, broke);
    }
  }

  lemma {:induction false} LoopKeepsLimits(ep: Episode, s: RunState)
    requires ep.policy.Valid() && Going(ep, s)
    ensures Safe(ep, Loop(ep, s)) && Loop(ep, s).result.state in TERMINAL_STATES
    decreases MAX_STEPS - s.step
  {
    if s.step < MAX_STEPS {
      IterateKeepsLimits(ep, s);
      var (t, broke) := Iterate(ep, s);
      if !broke {
        LoopKeepsLimits(ep, t);
      }
    }
  }
}