/** What every run guarantees, whatever the strategy proposes and the world answers. */
module RunTheorems {
  import opened Domain
  import opened Policy
  import opened Gate
  import opened GateProperties
  import opened Runner
  import opened RunnerSafety

  lemma OpenIsGoing(ep: Episode)
    requires ep.policy.Valid()
    ensures Going(ep, Open(ep))
  {
    assert Stamps([]) == ContactLog([]);
  }

  /** The limits do not depend on the audit trail or on what was recovered. */
  ghost predicate SameLimits(s: RunState, t: RunState) {
    && t.now == s.now && t.step == s.step && t.history == s.history && t.executed == s.executed
    && t.result.contactsMade == s.result.contactsMade && t.result.retries == s.result.retries
    && t.result.actionsTaken == s.result.actionsTaken && t.result.cost == s.result.cost
  }

  lemma SameLimitsSafe(ep: Episode, s: RunState, t: RunState)
    requires Safe(ep, s) && SameLimits(s, t)
    ensures Safe(ep, t)
  {
  }

  lemma ClosingKeepsLimits(ep: Episode, s: RunState)
    ensures SameLimits(s, Watch(ep, s)) && SameLimits(s, Close(s)) && SameLimits(s, SelfRecover(ep, s, ep.watchUntil).0)
  {
  }

  lemma RunIsSafe(ep: Episode)
    requires ep.policy.Valid()
    ensures Safe(ep, RunEpisode(ep)) && RunEpisode(ep).result.state in TERMINAL_STATES
  {
    OpenIsGoing(ep);
    var begun := Open(ep);
    if ep.triage == Some(false) {
      var skipped := begun.(result := begun.result.(state := SkippedNegativeEv, skippedByTriage := true));
      var watched := SelfRecover(ep, skipped, ep.watchUntil).0;
      ClosingKeepsLimits(ep, skipped);
      ClosingKeepsLimits(ep, watched);
      SameLimitsSafe(ep, begun, Close(watched));
    } else {
      var looped := Loop(ep, begun);
      LoopKeepsLimits(ep, begun);
      ClosingKeepsLimits(ep, looped);
      ClosingKeepsLimits(ep, Watch(ep, looped));
      SameLimitsSafe(ep, looped, Close(Watch(ep, looped)));
    }
  }

  lemma CapsOnEveryWindow(caps: FrequencyCaps, h: seq<ContactRecord>, lo: Instant)
    requires ContactsSafe(caps, h)
    ensures CountIn(h, lo, lo + DAY, false) <= caps.messagesPerDay
    ensures CountIn(h, lo, lo + 7 * DAY, false) <= caps.messagesPerWeek
    ensures CountIn(h, lo, lo + 7 * DAY, true) <= caps.voiceCallsPerWeek
  {
    CapOnEveryWindow(h, DAY, false, caps.messagesPerDay, lo);
    CapOnEveryWindow(h, 7 * DAY, false, caps.messagesPerWeek, lo);
    CapOnEveryWindow(h, 7 * DAY, true, caps.voiceCallsPerWeek, lo);
  }

  /** Every closed day, week and voice week of every run holds at most the configured
      number of executed contacts, and contacts keep the no-response cooldown. */
  lemma ContactLimits(ep: Episode, lo: Instant)
    requires ep.policy.Valid()
    ensures var s, caps := RunEpisode(ep), ep.policy.contact.caps;
            && Stamps(s.history) == ContactLog(s.executed)
            && CountIn(s.history, lo, lo + DAY, false) <= caps.messagesPerDay
            && CountIn(s.history, lo, lo + 7 * DAY, false) <= caps.messagesPerWeek
            && CountIn(s.history, lo, lo + 7 * DAY, true) <= caps.voiceCallsPerWeek
            && |s.history| == s.result.contactsMade <= caps.contactsPerEpisode
            && ContactsSpaced(s.history, caps.cooldownAfterNoResponseHours * HOUR)
            && LadderClimbed(ep, s.executed)
  {
    RunIsSafe(ep);
    CapsOnEveryWindow(ep.policy.contact.caps, RunEpisode(ep).history, lo);
  }

  /** Executed retries are counted, capped and at least the minimum gap apart. */
  lemma RetryLimits(ep: Episode)
    requires ep.policy.Valid()
    ensures var s := RunEpisode(ep);
            && Spaced(RetryLog(s.executed), RetryGapOf(ep))
            && |RetryLog(s.executed)| == s.result.retries <= ep.policy.money.maxRetriesPerPayment
  {
    RunIsSafe(ep);
  }

  /** A run ends, in a terminal state, after at most the step bound, on a clock that never
      goes back, within the action and spend budgets and a bounded overrun of the horizon. */
  lemma RunIsBounded(ep: Episode)
    requires ep.policy.Valid()
    ensures var s := RunEpisode(ep);
            && s.result.state in TERMINAL_STATES
            && |s.executed| <= s.step <= 24
            && InOrder(s.executed)
            && (forall k | 0 <= k < |s.executed| :: ep.occurredAt <= s.executed[k].at <= s.now)
            && WithinHorizon(ep, s.executed)
            && s.result.actionsTaken <= ep.policy.budgets.maxActionsPerEpisode
            && s.result.cost <= CostCeiling(ep)
  {
    RunIsSafe(ep);
  }

  /** Money that arrives by itself within the observation window is never missed: whatever
      the loop came to, suppressed and exhausted included, the run counts as recovered. */
  lemma SelfRecoveryIsNeverMissed(ep: Episode)
    requires ep.selfRecoveryAt.Some? && ep.selfRecoveryAt.value <= ep.watchUntil
    ensures HasRecovered(RunEpisode(ep).result)
  {
    var begun := Open(ep);
    if ep.triage == Some(false) {
      var skipped := begun.(result := begun.result.(state := SkippedNegativeEv, skippedByTriage := true));
      assert SelfRecover(ep, skipped, ep.watchUntil).1;
    } else {
      WatchCatchesUp(ep, Loop(ep, begun));
    }
  }

  lemma WatchCatchesUp(ep: Episode, s: RunState)
    requires ep.selfRecoveryAt.Some? && ep.selfRecoveryAt.value <= ep.watchUntil
    ensures HasRecovered(Watch(ep, s).result)
  {
    if !HasRecovered(s.result) {
      assert SelfRecover(ep, s, ep.watchUntil).1;
    }
  }

  /* ----- causes that must never be retried ----- */

  /** The diagnosis names, or under hesitation leaves in play, a cause that forbids retries. */
  ghost predicate ForbidsRetry(d: Diagnosis, never: set<RootCause>) {
    || d.rootCause in never
    || d.rootCause in NEVER_RETRY
    || (d.confidence < 0.75 && d.alternativeCause.Some? && d.alternativeCause.value in never)
    || (d.confidence < 0.75 && d.riskHypothesis.Some? && d.riskHypothesis.value in never)
  }

  lemma NoRetryApproved(ep: Episode, s: RunState)
    requires ep.policy.Valid() && ep.diagnosis.Some?
    requires ForbidsRetry(ep.diagnosis.value, ep.policy.money.neverRetryCauses)
    ensures Approval(ep, s).Some? ==> Approval(ep, s).value.tool != RetryPayment
  {
    if Approval(ep, s).Some? {
      ApprovalKeepsAction(ep, s);
      if Proposal(ep, s).value.tool == RetryPayment {
        ApprovedRetry(Proposal(ep, s).value, Context(ep, s), ep.policy);
      }
    }
  }

  lemma {:induction false} LoopNeverRetries(ep: Episode, s: RunState)
    requires ep.policy.Valid() && ep.diagnosis.Some?
    requires ForbidsRetry(ep.diagnosis.value, ep.policy.money.neverRetryCauses)
    requires s.result.state == Ingested && RetryLog(s.executed) == []
    ensures RetryLog(Loop(ep, s).executed) == []
    decreases MAX_STEPS - s.step
  {
    if s.step < MAX_STEPS {
      var (t, broke) := Iterate(ep, s);
      IterateEffect(ep, s);
      NoRetryApproved(ep, s);
      if !Idle(s, t) {
        LogsGrow(s.executed, Execution(Approval(ep, s).value, t.now));
      }
      if !broke {
        LoopNeverRetries(ep, t);
      }
    }
  }

  /** On such a diagnosis no run executes a retry, whatever is proposed. */
  lemma ForbiddenCauseIsNeverRetried(ep: Episode)
    requires ep.policy.Valid() && ep.diagnosis.Some?
    requires ForbidsRetry(ep.diagnosis.value, ep.policy.money.neverRetryCauses)
    ensures RetryLog(RunEpisode(ep).executed) == []
  {
    if ep.triage != Some(false) {
      LoopNeverRetries(ep, Open(ep));
    }
  }
}
