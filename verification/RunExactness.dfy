/** Where a run leaves its own limits, and exactly when: terminal states that still change,
    actions past the horizon, contacts in quiet hours. */
module RunExactness {
  import opened Domain
  import opened Policy
  import opened Gate
  import opened GateProperties
  import opened GateExactness
  import opened Runner
  import opened RunnerSafety
  import opened RunTheorems

  /* ----- terminal states that still change ----- */

  /** The payment that comes of itself has come by `t`. */
  predicate CameBy(ep: Episode, t: Instant) {
    ep.selfRecoveryAt.Some? && ep.selfRecoveryAt.value <= t
  }

  /** What the loop, or the triage that skipped it, came to. */
  function Concluded(ep: Episode): RunState {
    if ep.triage == Some(false) then
      Open(ep).(result := Open(ep).result.(state := SkippedNegativeEv, skippedByTriage := true))
    else Loop(ep, Open(ep))
  }

  lemma ConcludedIsTerminal(ep: Episode)
    requires ep.policy.Valid()
    ensures Concluded(ep).result.state in TERMINAL_STATES
    ensures RunEpisode(ep) == Close(Watch(ep, Concluded(ep)))
  {
    if ep.triage != Some(false) {
      OpenIsGoing(ep);
      LoopKeepsLimits(ep, Open(ep));
    }
  }

  lemma WatchChangesExactly(ep: Episode, s: RunState)
    requires s.result.state in TERMINAL_STATES
    ensures var after := Watch(ep, s).result;
            if !HasRecovered(s.result) && CameBy(ep, ep.watchUntil) then
              && after.state == Recovered && after.selfRecovered
              && after.recovered == s.result.recovered + ep.amount
            else after == s.result
  {
  }

  /** A run ends in another state than it concluded in exactly when it concluded without
      recovering and the payment came of itself by the end of the watch; and then it ends
      recovered, with the amount added. */
  lemma TerminalStateChangesExactly(ep: Episode)
    requires ep.policy.Valid()
    ensures var before, after := Concluded(ep).result, RunEpisode(ep).result;
            && before.state in TERMINAL_STATES
            && (after.state != before.state <==> !HasRecovered(before) && CameBy(ep, ep.watchUntil))
            && (after.state != before.state ==>
                  after.state == Recovered && after.selfRecovered && after.recovered == before.recovered + ep.amount)
            && (after.state == before.state ==> after == before)
  {
    ConcludedIsTerminal(ep);
    WatchChangesExactly(ep, Concluded(ep));
  }

  /* ----- what a turn executes ----- */

  /** The turn's action is approved and the payment has not come by the time it is acted on. */
  predicate Acts(ep: Episode, s: RunState) {
    Approval(ep, s).Some? && !CameBy(ep, ActionMoment(ep, s))
  }

  function Deed(ep: Episode, s: RunState): Execution
    requires Approval(ep, s).Some?
  {
    Execution(Approval(ep, s).value, ActionMoment(ep, s))
  }

  lemma ApprovalExecutes(ep: Episode, s: RunState, action: ProposedAction, when: Instant)
    ensures var at := Max(s.now, if action.scheduledFor.Some? then action.scheduledFor.value else when);
            AfterApproval(ep, s, action, when).0.executed ==
            s.executed + if CameBy(ep, at) then [] else [Execution(action, at)]
  {
    var at := Max(s.now, if action.scheduledFor.Some? then action.scheduledFor.value else when);
    var s1 := s.(now := at);
    if !CameBy(ep, at) {
      ExecuteEffect(ep, if action.tool == RetryPayment then s1.(lastRetryAt := Some(at)) else s1, action);
    }
  }

  lemma ApprovedTurn(ep: Episode, s: RunState)
    requires Approval(ep, s).Some? && !CameBy(ep, s.now)
    ensures Iterate(ep, s) ==
            AfterApproval(ep, Noted(s, Proposal(ep, s).value, Decision(ep, s), ApprovalMoment(ep, s)),
                          Approval(ep, s).value, ApprovalMoment(ep, s))
  {
    IterateSettles(ep, s);
  }

  lemma DeniedTurn(ep: Episode, s: RunState)
    requires Approval(ep, s).None? || CameBy(ep, s.now)
    ensures Iterate(ep, s).0.executed == s.executed
  {
  }

  /** A turn executes its approved action, or nothing. */
  lemma TurnExecutesExactly(ep: Episode, s: RunState)
    ensures Iterate(ep, s).0.executed == s.executed + if Acts(ep, s) then [Deed(ep, s)] else []
  {
    if Approval(ep, s).None? || CameBy(ep, s.now) {
      DeniedTurn(ep, s);
    } else {
      ApprovedTurn(ep, s);
      ApprovalExecutes(ep, Noted(s, Proposal(ep, s).value, Decision(ep, s), ApprovalMoment(ep, s)),
                       Approval(ep, s).value, ApprovalMoment(ep, s));
    }
  }

  /** Some turn of the loop from `s` on is such a one. */
  ghost predicate SomeTurn(ep: Episode, s: RunState, such: RunState -> bool)
    decreases MAX_STEPS - s.step
  {
    && s.step < MAX_STEPS
    && (such(s) || (!Iterate(ep, s).1 && SomeTurn(ep, Iterate(ep, s).0, such)))
  }

  ghost predicate SomeFrom(executed: seq<Execution>, from: nat, bad: Execution -> bool) {
    exists k | from <= k < |executed| :: bad(executed[k])
  }

  /** A run executes something bad exactly when a turn acts on something bad. */
  lemma {:induction false} LoopExecutesExactly(ep: Episode, s: RunState, bad: Execution -> bool, such: RunState -> bool)
    requires forall t: RunState :: such(t) <==> Acts(ep, t) && bad(Deed(ep, t))
    ensures s.executed <= Loop(ep, s).executed
    ensures SomeFrom(Loop(ep, s).executed, |s.executed|, bad) <==> SomeTurn(ep, s, such)
    decreases MAX_STEPS - s.step
  {
    if s.step < MAX_STEPS {
      var (t, broke) := Iterate(ep, s);
      TurnExecutesExactly(ep, s);
      if !broke {
        LoopExecutesExactly(ep, t, bad, such);
      }
      var executed := Loop(ep, s).executed;
      assert t.executed <= executed;
      if such(s) {
        assert bad(executed[|s.executed|]);
      }
    }
  }

  /** A whole run that is not skipped executes what its loop does. */
  lemma RunExecutesExactly(ep: Episode, bad: Execution -> bool, such: RunState -> bool)
    requires ep.triage != Some(false)
    requires forall t: RunState :: such(t) <==> Acts(ep, t) && bad(Deed(ep, t))
    ensures SomeFrom(RunEpisode(ep).executed, 0, bad) <==> SomeTurn(ep, Open(ep), such)
  {
    LoopExecutesExactly(ep, Open(ep), bad, such);
  }

  /* ----- past the horizon ----- */

  function WindowOf(ep: Episode, action: ProposedAction): QuietWindow {
    ep.policy.contact.WindowFor(action.args.channel)
  }

  predicate LateDeed(ep: Episode, e: Execution) {
    e.action.tool !in ALWAYS_ALLOWED && e.at > Horizon(ep)
  }

  /** The gate moved the proposal, in time as it was, past the horizon: a retry to the end of
      its gap, or a contact to the end of its quiet hours. */
  predicate MovedPast(ep: Episode, s: RunState, proposal: ProposedAction) {
    var t, w := Target(proposal, Context(ep, s)), WindowOf(ep, proposal);
    || (&& proposal.tool == RetryPayment && s.lastRetryAt.Some?
        && t < s.lastRetryAt.value + RetryGapOf(ep) && s.lastRetryAt.value + RetryGapOf(ep) > Horizon(ep))
    || (proposal.tool in CONTACT_ACTIONS && w.Quiet(t) && NextAllowedTime(t, w) > Horizon(ep))
  }

  /** An approved action that is no exit lands past the horizon exactly when it was moved there. */
  lemma PastHorizonExactly(ep: Episode, s: RunState)
    requires ep.policy.Valid() && Approval(ep, s).Some?
    ensures LateDeed(ep, Deed(ep, s)) <==>
            Proposal(ep, s).value.tool !in ALWAYS_ALLOWED && MovedPast(ep, s, Proposal(ep, s).value)
  {
    ScheduledExactly(Proposal(ep, s).value, Context(ep, s), ep.policy);
  }

  /** A run executes an action past its horizon exactly when it acts on one that was moved. */
  lemma RunPassesHorizonExactly(ep: Episode)
    requires ep.policy.Valid() && ep.triage != Some(false)
    ensures SomeFrom(RunEpisode(ep).executed, 0, e => LateDeed(ep, e)) <==>
            SomeTurn(ep, Open(ep), s => && Acts(ep, s) && Proposal(ep, s).value.tool !in ALWAYS_ALLOWED
                                        && MovedPast(ep, s, Proposal(ep, s).value))
  {
    var such := (s: RunState) => && Acts(ep, s) && Proposal(ep, s).value.tool !in ALWAYS_ALLOWED
                                 && MovedPast(ep, s, Proposal(ep, s).value);
    var bad := (e: Execution) => LateDeed(ep, e);
    forall s: RunState ensures such(s) <==> Acts(ep, s) && bad(Deed(ep, s)) {
      if Acts(ep, s) {
        PastHorizonExactly(ep, s);
      }
    }
    RunExecutesExactly(ep, bad, such);
  }

  /* ----- in quiet hours ----- */

  /** The contact was scheduled so far back that even its legal instant is already past. */
  predicate Stale(ep: Episode, now: Instant, action: ProposedAction) {
    action.scheduledFor.Some? && NextAllowedTime(action.scheduledFor.value, WindowOf(ep, action)) < now
  }

  predicate QuietDeed(ep: Episode, e: Execution) {
    e.action.tool in CONTACT_ACTIONS && WindowOf(ep, e.action).Quiet(e.at)
  }

  /** A contact goes out in quiet hours: stale when now is quiet, or moved out of a window
      that holds the very minute it ends in. */
  predicate SentInQuiet(ep: Episode, s: RunState, proposal: ProposedAction) {
    var w := WindowOf(ep, proposal);
    && proposal.tool in CONTACT_ACTIONS
    && if Stale(ep, s.now, proposal) then w.Quiet(s.now)
       else w.Quiet(Target(proposal, Context(ep, s))) && w.Contains(w.EndMinute())
  }

  lemma ContactMoment(ep: Episode, s: RunState)
    requires ep.policy.Valid() && Approval(ep, s).Some? && Proposal(ep, s).value.tool in CONTACT_ACTIONS
    ensures var proposal := Proposal(ep, s).value;
            var legal := NextAllowedTime(Target(proposal, Context(ep, s)), WindowOf(ep, proposal));
            && ActionMoment(ep, s) == Max(s.now, legal)
            && (legal < s.now ==> proposal.scheduledFor.Some?)
  {
    var proposal, ctx := Proposal(ep, s).value, Context(ep, s);
    ApprovedContact(proposal, ctx, ep.policy);
    if WindowOf(ep, proposal).Quiet(Target(proposal, ctx)) {
      TargetShape(Target(proposal, ctx), WindowOf(ep, proposal));
    }
  }

  lemma LaterOfTwoIsQuiet(now: Instant, t: Instant, w: QuietWindow)
    requires w.Valid()
    ensures w.Quiet(Max(now, NextAllowedTime(t, w))) <==>
            if NextAllowedTime(t, w) < now then w.Quiet(now) else w.Quiet(t) && w.Contains(w.EndMinute())
  {
    if w.Quiet(t) {
      TargetLeavesWindow(t, w);
    }
  }

  /** The gate asks about the schedule, the engine acts no earlier than now. */
  lemma ContactInQuietHoursExactly(ep: Episode, s: RunState)
    requires ep.policy.Valid() && Approval(ep, s).Some?
    ensures QuietDeed(ep, Deed(ep, s)) <==> SentInQuiet(ep, s, Proposal(ep, s).value)
  {
    ApprovalKeepsAction(ep, s);
    var proposal := Proposal(ep, s).value;
    if proposal.tool in CONTACT_ACTIONS {
      ContactMoment(ep, s);
      LaterOfTwoIsQuiet(s.now, Target(proposal, Context(ep, s)), WindowOf(ep, proposal));
    }
  }

  /** A run makes a contact in quiet hours exactly when it acts on one of those two kinds. */
  lemma RunBreaksQuietExactly(ep: Episode)
    requires ep.policy.Valid() && ep.triage != Some(false)
    ensures SomeFrom(RunEpisode(ep).executed, 0, e => QuietDeed(ep, e)) <==>
            SomeTurn(ep, Open(ep), s => Acts(ep, s) && SentInQuiet(ep, s, Proposal(ep, s).value))
  {
    var such := (s: RunState) => Acts(ep, s) && SentInQuiet(ep, s, Proposal(ep, s).value);
    var bad := (e: Execution) => QuietDeed(ep, e);
    forall s: RunState ensures such(s) <==> Acts(ep, s) && bad(Deed(ep, s)) {
      if Acts(ep, s) {
        ContactInQuietHoursExactly(ep, s);
      }
    }
    RunExecutesExactly(ep, bad, such);
  }

  /** No iteration of the run proposes a stale contact. */
  ghost predicate NeverStale(ep: Episode, s: RunState)
    decreases MAX_STEPS - s.step
  {
    s.step < MAX_STEPS ==>
      && (Proposal(ep, s).Some? && Proposal(ep, s).value.tool in CONTACT_ACTIONS ==>
            !Stale(ep, s.now, Proposal(ep, s).value))
      && (!Iterate(ep, s).1 ==> NeverStale(ep, Iterate(ep, s).0))
  }

  /** Always so for windows that end on a whole minute. */
  ghost predicate WindowsCanBeLeft(p: PolicyBundle) {
    && !p.contact.messaging.Contains(p.contact.messaging.EndMinute())
    && !p.contact.voice.Contains(p.contact.voice.EndMinute())
  }

  lemma {:induction false} FreshContactsAreNeverQuiet(ep: Episode, s: RunState, such: RunState -> bool)
    requires WindowsCanBeLeft(ep.policy) && NeverStale(ep, s)
    requires forall t: RunState :: such(t) ==> Acts(ep, t) && SentInQuiet(ep, t, Proposal(ep, t).value)
    ensures !SomeTurn(ep, s, such)
    decreases MAX_STEPS - s.step
  {
    if s.step < MAX_STEPS && !Iterate(ep, s).1 {
      FreshContactsAreNeverQuiet(ep, Iterate(ep, s).0, such);
    }
  }

  ghost predicate OutsideQuietHours(ep: Episode, executed: seq<Execution>) {
    forall k | 0 <= k < |executed| && executed[k].action.tool in CONTACT_ACTIONS ::
      !WindowOf(ep, executed[k].action).Quiet(executed[k].at)
  }

  /** With windows that can be left, no contact is executed in quiet hours in a run that
      never proposes a stale one. */
  lemma QuietHoursKept(ep: Episode)
    requires ep.policy.Valid() && WindowsCanBeLeft(ep.policy)
    requires ep.triage != Some(false) ==> NeverStale(ep, Open(ep))
    ensures OutsideQuietHours(ep, RunEpisode(ep).executed)
  {
    if ep.triage != Some(false) {
      var executed := RunEpisode(ep).executed;
      var bad := (e: Execution) => QuietDeed(ep, e);
      RunBreaksQuietExactly(ep);
      FreshContactsAreNeverQuiet(ep, Open(ep), s => Acts(ep, s) && SentInQuiet(ep, s, Proposal(ep, s).value));
      assert !SomeFrom(executed, 0, bad);
      forall k | 0 <= k < |executed| ensures !QuietDeed(ep, executed[k]) {
        assert !bad(executed[k]);
      }
    }
  }

  /* ----- runs that do so ----- */

  /** Eleven at night, local time. */
  const NIGHT: Instant := 23 * HOUR - IST_OFFSET

  /** Messages from eight in the morning to nine at night, actions for an hour. */
  const BRIEF: PolicyBundle :=
    PolicyBundle(
      ContactPolicy(QuietWindow(21 * HOUR, 8 * HOUR), QuietWindow(21 * HOUR, 8 * HOUR),
                    FrequencyCaps(1, 1, 1, 1, 0), false, false),
      MoneyActionPolicy(0, 0, {}, {}, {}),
      Budgets(1, 1, 0, 0, 1),
      [Rung(1, {}, 0, [])],
      1)

  function Message(scheduled: Option<Instant>): ProposedAction {
    ProposedAction(SendMessage, Args(Sms, Some(1), 0, false, false), scheduled)
  }

  /** Opened at eleven at night: the same message each turn, the same answer to it. */
  function NightEpisode(scheduled: Option<Instant>, answer: Reaction, comesAt: Option<Instant>): Episode {
    Episode(BRIEF, Rates(map[], 0, 0, 0, 0), NIGHT, 100, UnknownCause, comesAt, {}, false, NIGHT + 7 * DAY,
            None, 0, None, (ctx: StrategyContext) => Some(Message(scheduled)), (i: Interaction, n: nat) => answer)
  }

  const PAID: Reaction := Reaction(true, 100, false, false, false)
  const DISPUTED: Reaction := Reaction(false, 0, false, false, true)

  lemma NightIsQuiet()
    ensures BRIEF.Valid()
    ensures LocalTimeOfDay(NIGHT) == 23 * HOUR && BRIEF.contact.messaging.Quiet(NIGHT)
    ensures NextAllowedTime(NIGHT, BRIEF.contact.messaging) == NIGHT + 9 * HOUR
    ensures LocalTimeOfDay(NIGHT - 11 * HOUR) == 12 * HOUR && !BRIEF.contact.messaging.Quiet(NIGHT - 11 * HOUR)
  {
  }

  /** The first turn's message is approved, for its own schedule or, failing that, the morning. */
  lemma NightMessageIsApproved(scheduled: Option<Instant>, answer: Reaction, comesAt: Option<Instant>)
    requires scheduled == None || scheduled == Some(NIGHT - 11 * HOUR)
    ensures var ep := NightEpisode(scheduled, answer, comesAt);
            Approval(ep, Open(ep)) == Some(Message(if scheduled.None? then Some(NIGHT + 9 * HOUR) else scheduled))
  {
    var ep := NightEpisode(scheduled, answer, comesAt);
    var s := Open(ep);
    NightIsQuiet();
    assert Proposal(ep, s) == Some(Message(scheduled)) && Timely(ep, s);
    assert RungAt(BRIEF.ladder, 1) == Some(BRIEF.ladder[0]);
    ApprovedExactly(Message(scheduled), Context(ep, s), BRIEF);
    ScheduledExactly(Message(scheduled), Context(ep, s), BRIEF);
  }

  /** An approved message is answered, and this answer ends the episode. */
  lemma MessageIsAnswered(ep: Episode, s: RunState, answer: Reaction)
    requires Acts(ep, s) && Approval(ep, s).value.tool == SendMessage
    requires forall i, n :: ep.world(i, n) == answer
    requires answer.disputed || answer.paid
    ensures Iterate(ep, s).1
    ensures answer.disputed ==> Iterate(ep, s).0.result.state == Suppressed
  {
    ApprovedTurn(ep, s);
    ApprovalIsAnswered(ep, Noted(s, Proposal(ep, s).value, Decision(ep, s), ApprovalMoment(ep, s)),
                       Approval(ep, s).value, ApprovalMoment(ep, s), answer);
  }

  lemma ApprovalIsAnswered(ep: Episode, s: RunState, action: ProposedAction, when: Instant, answer: Reaction)
    requires !CameBy(ep, Max(s.now, if action.scheduledFor.Some? then action.scheduledFor.value else when))
    requires action.tool == SendMessage && forall i, n :: ep.world(i, n) == answer
    requires answer.disputed || answer.paid
    ensures AfterApproval(ep, s, action, when).1
    ensures answer.disputed ==> AfterApproval(ep, s, action, when).0.result.state == Suppressed
  {
    var s1 := s.(now := Max(s.now, if action.scheduledFor.Some? then action.scheduledFor.value else when));
    var s2 := s1.(executed := s1.executed + [Execution(action, s1.now)]);
    assert Execute(ep, s1, action) == React(ep, Spend(ep, s2, action), action, answer);
  }

  lemma RunExecutesWhatItConcluded(ep: Episode)
    ensures RunEpisode(ep).executed == Concluded(ep).executed
  {
  }

  lemma LoopBreaks(ep: Episode, s: RunState)
    requires s.step < MAX_STEPS && Iterate(ep, s).1
    ensures Loop(ep, s) == Iterate(ep, s).0
  {
  }

  /** A first turn that breaks the loop is all the run executes. */
  lemma OneTurn(ep: Episode)
    requires ep.triage.None? && Iterate(ep, Open(ep)).1
    ensures Concluded(ep) == Iterate(ep, Open(ep)).0
    ensures Acts(ep, Open(ep)) ==> RunEpisode(ep).executed == [Deed(ep, Open(ep))]
  {
    LoopBreaks(ep, Open(ep));
    TurnExecutesExactly(ep, Open(ep));
    RunExecutesWhatItConcluded(ep);
  }

  /** A night's message, paid for at once, is the whole run. */
  lemma NightRun(scheduled: Option<Instant>)
    requires scheduled == None || scheduled == Some(NIGHT - 11 * HOUR)
    ensures RunEpisode(NightEpisode(scheduled, PAID, None)).executed ==
            [if scheduled.None? then Execution(Message(Some(NIGHT + 9 * HOUR)), NIGHT + 9 * HOUR)
             else Execution(Message(scheduled), NIGHT)]
  {
    var ep := NightEpisode(scheduled, PAID, None);
    NightMessageIsApproved(scheduled, PAID, None);
    MessageIsAnswered(ep, Open(ep), PAID);
    OneTurn(ep);
    assert ActionMoment(ep, Open(ep)) == if scheduled.None? then NIGHT + 9 * HOUR else NIGHT;
  }

  /** A message scheduled for noon and sent at once, at eleven at night. */
  lemma AStaleContactGoesOutAtNight()
    ensures var ep := NightEpisode(Some(NIGHT - 11 * HOUR), PAID, None);
            && ep.policy.Valid()
            && RunEpisode(ep).executed == [Execution(Message(Some(NIGHT - 11 * HOUR)), NIGHT)]
            && QuietDeed(ep, Execution(Message(Some(NIGHT - 11 * HOUR)), NIGHT))
  {
    NightIsQuiet();
    NightRun(Some(NIGHT - 11 * HOUR));
  }

  /** A message proposed for now, within the hour the policy gives, and sent the next morning. */
  lemma AContactGoesOutPastTheHorizon()
    ensures var ep := NightEpisode(None, PAID, None);
            && ep.policy.Valid()
            && RunEpisode(ep).executed == [Execution(Message(Some(NIGHT + 9 * HOUR)), NIGHT + 9 * HOUR)]
            && Horizon(ep) == NIGHT + HOUR && LateDeed(ep, Execution(Message(Some(NIGHT + 9 * HOUR)), NIGHT + 9 * HOUR))
  {
    NightIsQuiet();
    NightRun(None);
  }

  /** A dispute suppresses the episode; two days on the payment comes of itself. */
  lemma ASuppressedRunCanRecover()
    ensures var ep := NightEpisode(Some(NIGHT - 11 * HOUR), DISPUTED, Some(NIGHT + 2 * DAY));
            && ep.policy.Valid()
            && Concluded(ep).result.state == Suppressed && RunEpisode(ep).result.state == Recovered
  {
    var ep := NightEpisode(Some(NIGHT - 11 * HOUR), DISPUTED, Some(NIGHT + 2 * DAY));
    NightIsQuiet();
    NightMessageIsApproved(Some(NIGHT - 11 * HOUR), DISPUTED, Some(NIGHT + 2 * DAY));
    MessageIsAnswered(ep, Open(ep), DISPUTED);
    OneTurn(ep);
    TerminalStateChangesExactly(ep);
  }

  /** A proposal past the horizon exhausts the episode; two days on the payment comes of itself. */
  lemma AnExhaustedRunCanRecover()
    ensures var ep := NightEpisode(Some(NIGHT + 2 * HOUR), PAID, Some(NIGHT + 2 * DAY));
            && ep.policy.Valid()
            && Concluded(ep).result.state == Exhausted && RunEpisode(ep).result.state == Recovered
  {
    var ep := NightEpisode(Some(NIGHT + 2 * HOUR), PAID, Some(NIGHT + 2 * DAY));
    NightIsQuiet();
    assert !Timely(ep, Open(ep));
    assert Iterate(ep, Open(ep)) == (Stop(Open(ep), Exhausted), true);
    OneTurn(ep);
    TerminalStateChangesExactly(ep);
  }
}
