/** The episode runner as it runs: one mutable result, one audit trail, one loop. Every
    method is tied to the function of the same step in the specification of a run. */
module Engine {
  import opened Domain
  import opened Policy
  import opened Gate
  import opened Runner

  lemma ForbiddenRetryIsBooked(ep: Episode, s: RunState, counted: RunState)
    requires ep.trueCause in NEVER_RETRY
    requires counted == s.(result := s.result.(retries := s.result.retries + 1, forbiddenRetries := s.result.forbiddenRetries + 1))
    ensures CountRetry(ep, s) == Book(counted, ForbiddenRetryHarm, ep.rates.forbiddenRetry)
  {
  }

  lemma PerformInSteps(ep: Episode, s: RunState, ready: RunState, action: ProposedAction)
    requires ready == if action.tool == RetryPayment then s.(lastRetryAt := Some(s.now)) else s
    ensures var (done, over) := Execute(ep, ready, action);
            Perform(ep, s, action) == (done.(step := done.step + 1), over)
  {
  }

  class EpisodeResult {
    var state: EpisodeState
    var recovered: Paise
    var cost: Paise
    var externality: Paise
    var actionsTaken: nat
    var contactsMade: nat
    var retries: nat
    var denials: nat
    var modifications: nat
    var optedOut: bool
    var complained: bool
    var disputed: bool
    var escalated: bool
    var forbiddenRetries: nat
    var selfRecovered: bool
    var skippedByTriage: bool
    var timeToRecovery: Option<int>
    var denialReasons: seq<Reason>

    constructor ()
      ensures View() == FRESH_RESULT
    {
      state, recovered, cost, externality := Ingested, 0, 0, 0;
      actionsTaken, contactsMade, retries, denials, modifications := 0, 0, 0, 0, 0;
      optedOut, complained, disputed, escalated := false, false, false, false;
      forbiddenRetries, selfRecovered, skippedByTriage := 0, false, false;
      timeToRecovery, denialReasons := None, [];
    }

    function View(): Result
      reads this
    {
      Result(state, recovered, cost, externality, actionsTaken, contactsMade, retries, denials, modifications,
             optedOut, complained, disputed, escalated, forbiddenRetries, selfRecovered, skippedByTriage,
             timeToRecovery, denialReasons)
    }
  }

  class EpisodeRunner {
    const ep: Episode
    const gate: PolicyGate
    const result: EpisodeResult
    var now: Instant
    var step: nat
    var lastRetryAt: Option<Instant>
    var history: seq<ContactRecord>
    var audit: seq<Entry>
    var executed: seq<Execution>

    constructor (ep: Episode)
      ensures this.ep == ep && gate.p == ep.policy && fresh(gate) && fresh(result)
      ensures Snapshot() == RunState(ep.occurredAt, 0, None, [], FRESH_RESULT, [], [])
    {
      this.ep := ep;
      gate := new PolicyGate(ep.policy);
      result := new EpisodeResult();
      now, step, lastRetryAt := ep.occurredAt, 0, None;
      history, audit, executed := [], [], [];
    }

    function Snapshot(): RunState
      reads this, result
    {
      RunState(now, step, lastRetryAt, history, result.View(), audit, executed)
    }

    method Audit(at: Instant, e: AuditEvent)
      modifies this`audit
      ensures Snapshot() == old(Snapshot()).Log(at, e)
    {
      audit := audit + [Entry(at, e)];
    }

    method CheckSelfRecovery(at: Instant) returns (yes: bool)
      modifies this`audit, result
      ensures (Snapshot(), yes) == SelfRecover(ep, old(Snapshot()), at)
    {
      if ep.selfRecoveryAt.None? {
        return false;
      }
      if at < ep.selfRecoveryAt.value {
        return false;
      }
      result.recovered := result.recovered + ep.amount;
      result.selfRecovered := true;
      result.state := Recovered;
      result.timeToRecovery := Some(ep.selfRecoveryAt.value - ep.occurredAt);
      Audit(ep.selfRecoveryAt.value, OutcomeSeen(ep.amount, false));
      return true;
    }

    method BookExternality(kind: ExternalityKind, amount: Paise)
      modifies this`audit, result`externality
      ensures Snapshot() == Book(old(Snapshot()), kind, amount)
    {
      if amount <= 0 {
        return;
      }
      result.externality := result.externality + amount;
      Audit(now, ExternalityBooked(kind, amount));
    }

    method ChargeChannel(channel: Channel)
      modifies this`audit, result`cost
      ensures Snapshot() == Charge(ep, old(Snapshot()), channel)
    {
      var unit := UnitCost(ep, channel);
      result.cost := result.cost + unit;
      Audit(now, CostIncurred(Some(channel), unit));
    }

    method CountRetryNow()
      modifies this`audit, result`retries, result`forbiddenRetries, result`externality
      ensures Snapshot() == CountRetry(ep, old(Snapshot()))
    {
      result.retries := result.retries + 1;
      if ep.trueCause in NEVER_RETRY {
        result.forbiddenRetries := result.forbiddenRetries + 1;
        ghost var counted := Snapshot();
        ForbiddenRetryIsBooked(ep, old(Snapshot()), counted);
        BookExternality(ForbiddenRetryHarm, ep.rates.forbiddenRetry);
      }
    }

    method CountContactNow(channel: Channel)
      modifies this`audit, result`contactsMade, result`cost
      ensures Snapshot() == CountContact(ep, old(Snapshot()), channel)
    {
      result.contactsMade := result.contactsMade + 1;
      ChargeChannel(channel);
    }

    method SpendOn(action: ProposedAction)
      modifies this`audit, result
      ensures Snapshot() == Spend(ep, old(Snapshot()), action)
    {
      ghost var s := Snapshot();
      result.actionsTaken := result.actionsTaken + 1;
      assert Snapshot() == CountAction(s);
      if action.tool == RetryPayment {
        CountRetryNow();
      }
      if IsContact(action) {
        CountContactNow(action.args.channel);
      }
    }

    method RecordReaction(action: ProposedAction, reaction: Reaction)
      modifies this`audit, this`history
      ensures Snapshot() == Record(old(Snapshot()), action, reaction)
    {
      if IsContact(action) {
        history := history + [ContactRecord(now, action.args.channel, reaction.paid)];
      }
      Audit(now, ActionExecuted(step, action.tool, action.args.channel, reaction.paid, reaction.amount));
    }

    method HearComplaint()
      modifies this`audit, result`complained, result`externality
      ensures Snapshot() == Complain(ep, old(Snapshot()))
    {
      result.complained := true;
      BookExternality(ComplaintHarm, ep.rates.complaint);
    }

    method HearDispute()
      modifies this`audit, result`disputed, result`externality, result`state
      ensures Snapshot() == Dispute(ep, old(Snapshot()))
    {
      result.disputed := true;
      BookExternality(DisputeHarm, ep.rates.dispute);
      result.state := Suppressed;
    }

    method HearOptOut()
      modifies this`audit, result`optedOut, result`externality, result`state
      ensures Snapshot() == OptedOutNow(ep, old(Snapshot()))
    {
      result.optedOut := true;
      BookExternality(OptOutHarm, ep.rates.optOut);
      result.state := Suppressed;
    }

    method ReceivePayment(amount: Paise)
      modifies this`audit, result`recovered, result`timeToRecovery, result`state
      ensures Snapshot() == Pay(ep, old(Snapshot()), amount)
    {
      result.recovered := result.recovered + amount;
      result.timeToRecovery := Some(now - ep.occurredAt);
      result.state := if amount >= ep.amount then Recovered else PartiallyRecovered;
      Audit(now, OutcomeSeen(amount, true));
    }

    method TakeIn(action: ProposedAction, reaction: Reaction) returns (over: bool)
      modifies this`audit, this`history, result
      ensures (Snapshot(), over) == React(ep, old(Snapshot()), action, reaction)
    {
      RecordReaction(action, reaction);
      if reaction.complained {
        HearComplaint();
      }
      if reaction.disputed {
        HearDispute();
        return true;
      }
      if reaction.optedOut {
        HearOptOut();
        return true;
      }
      if reaction.paid {
        ReceivePayment(reaction.amount);
        return true;
      }
      return false;
    }

    method ExecuteAction(action: ProposedAction) returns (over: bool)
      modifies this`audit, this`history, this`executed, result
      ensures (Snapshot(), over) == Execute(ep, old(Snapshot()), action)
    {
      executed := executed + [Execution(action, now)];
      if action.tool == CloseEpisode {
        result.state := Unrecoverable;
        return true;
      }
      if action.tool == EscalateToHuman {
        result.state := Escalated;
        result.escalated := true;
        return true;
      }
      if action.tool == VerifyPaymentClaim {
        result.actionsTaken := result.actionsTaken + 1;
        Audit(now, CaptureVerified(step));
        return false;
      }
      SpendOn(action);
      var reaction := Answer(ep, Snapshot(), action);
      over := TakeIn(action, reaction);
    }

    method BlockedTerminally(reasons: seq<Reason>) returns (over: bool)
      modifies result`state
      ensures over == FirstTerminal(reasons).Some?
      ensures Snapshot() == if over then Stop(old(Snapshot()), FirstTerminal(reasons).value) else old(Snapshot())
    {
      for k := 0 to |reasons|
        invariant FirstTerminal(reasons) == FirstTerminal(reasons[k..])
        invariant Snapshot() == old(Snapshot())
      {
        var verdict := TerminalDenial(reasons[k]);
        if verdict.Some? {
          result.state := verdict.value;
          return true;
        }
      }
      return false;
    }

    /** The loop body; the flag says the loop breaks. */
    method OneIteration() returns (broke: bool)
      requires gate.p == ep.policy
      modifies this, result
      ensures (Snapshot(), broke) == Iterate(ep, old(Snapshot()))
    {
      broke := CheckSelfRecovery(now);
      if broke {
        return;
      }
      var proposed := ep.strategy(StrategyContext(now, step, result.actionsTaken, result.contactsMade));
      if proposed.None? {
        result.state := if result.actionsTaken > 0 then Exhausted else SkippedNegativeEv;
        return true;
      }
      var proposal := proposed.value;
      var when := Max(now, if proposal.scheduledFor.Some? then proposal.scheduledFor.value else now);
      if when > Horizon(ep) && proposal.tool !in ALWAYS_ALLOWED {
        result.state := Exhausted;
        return true;
      }
      var decision := gate.Evaluate(proposal, GateContextAt(ep, Snapshot(), when));
      broke := Carry(proposal, decision, when);
    }

    method TakeDenial(reasons: seq<Reason>) returns (broke: bool)
      modifies this`step, result`denials, result`denialReasons, result`state
      ensures (Snapshot(), broke) == AfterDenial(old(Snapshot()), reasons)
    {
      result.denials := result.denials + 1;
      result.denialReasons := result.denialReasons + reasons;
      step := step + 1;
      broke := BlockedTerminally(reasons);
    }

    method Carry(proposal: ProposedAction, decision: GateDecision, when: Instant) returns (broke: bool)
      requires decision.verdict == Deny <==> decision.action.None?
      modifies this, result
      ensures (Snapshot(), broke) == Settle(ep, old(Snapshot()), proposal, decision, when)
    {
      Audit(when, GateRuled(step, proposal.tool, decision.verdict, decision.reasons));
      if decision.verdict == Deny {
        broke := TakeDenial(decision.reasons);
        return;
      }
      CountRewrite(decision.verdict);
      broke := Act(decision.action.value, when);
    }

    method CountRewrite(verdict: Verdict)
      modifies result`modifications
      ensures Snapshot() == if verdict == Modify
                            then old(Snapshot()).(result := old(Snapshot()).result.(modifications := old(result.modifications) + 1))
                            else old(Snapshot())
    {
      if verdict == Modify {
        result.modifications := result.modifications + 1;
      }
    }

    method Act(action: ProposedAction, when: Instant) returns (broke: bool)
      modifies this, result
      ensures (Snapshot(), broke) == AfterApproval(ep, old(Snapshot()), action, when)
    {
      now := Max(now, if action.scheduledFor.Some? then action.scheduledFor.value else when);
      broke := CheckSelfRecovery(now);
      if broke {
        return;
      }
      broke := PerformNow(action);
    }

    method NoteRetry(action: ProposedAction)
      modifies this`lastRetryAt
      ensures Snapshot() == if action.tool == RetryPayment then old(Snapshot()).(lastRetryAt := Some(old(now))) else old(Snapshot())
    {
      if action.tool == RetryPayment {
        lastRetryAt := Some(now);
      }
    }

    method NextStep()
      modifies this`step
      ensures Snapshot() == old(Snapshot()).(step := old(step) + 1)
    {
      step := step + 1;
    }

    method PerformNow(action: ProposedAction) returns (over: bool)
      modifies this, result
      ensures (Snapshot(), over) == Perform(ep, old(Snapshot()), action)
    {
      NoteRetry(action);
      PerformInSteps(ep, old(Snapshot()), Snapshot(), action);
      over := ExecuteAction(action);
      NextStep();
    }

    method OpenEpisode()
      modifies this`audit, result
      requires Snapshot() == RunState(ep.occurredAt, 0, None, [], FRESH_RESULT, [], [])
      ensures Snapshot() == Open(ep)
    {
      Audit(now, EpisodeOpened(ep.amount));
      assert Snapshot() == Begin(ep);
      if ep.tokenCost != 0 {
        result.cost := result.cost + ep.tokenCost;
        Audit(now, CostIncurred(None, ep.tokenCost));
      }
      assert Snapshot() == ChargeTokens(ep, Begin(ep));
      if ep.diagnosis.Some? {
        Audit(now, DiagnosisMade(ep.diagnosis.value.rootCause));
      }
      if ep.triage.Some? {
        Audit(now, TriageDone(ep.triage.value));
      }
    }

    method CloseUp()
      modifies this`audit
      ensures Snapshot() == Close(old(Snapshot()))
    {
      Audit(now, EpisodeClosed(result.state, result.recovered, result.cost));
    }

    method TakeSteps()
      requires gate.p == ep.policy && step <= MAX_STEPS
      modifies this, result
      ensures Snapshot() == Loop(ep, old(Snapshot()))
    {
      var broke := false;
      while step < MAX_STEPS
        invariant !broke ==> Loop(ep, Snapshot()) == Loop(ep, old(Snapshot()))
        decreases MAX_STEPS - step
      {
        ghost var s := Snapshot();
        broke := OneIteration();
        if broke {
          assert Snapshot() == Loop(ep, s);
          break;
        }
      }
      if !broke {
        result.state := Exhausted;
      }
    }

    method WorkEpisode()
      requires gate.p == ep.policy && step <= MAX_STEPS
      modifies this, result
      ensures Snapshot() == Watch(ep, Loop(ep, old(Snapshot())))
    {
      TakeSteps();
      if result.state != Recovered && result.state != PartiallyRecovered {
        var _ := CheckSelfRecovery(ep.watchUntil);
      }
      if result.state in {Ingested, Observed} {
        result.state := Exhausted;
      }
    }

    method Run()
      requires gate.p == ep.policy
      requires Snapshot() == RunState(ep.occurredAt, 0, None, [], FRESH_RESULT, [], [])
      modifies this, result
      ensures Snapshot() == RunEpisode(ep)
    {
      OpenEpisode();
      if ep.triage == Some(false) {
        result.state := SkippedNegativeEv;
        result.skippedByTriage := true;
        var _ := CheckSelfRecovery(ep.watchUntil);
        CloseUp();
        return;
      }
      WorkEpisode();
      CloseUp();
    }
  }
}
