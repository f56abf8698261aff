/** What a run comes to, turn by turn, and how its trail tells it: every figure of the result
    can be read back off the audit trail, and every amount there is one of the rate card. */
module RunStory {
  import opened Domain
  import opened Policy
  import opened Gate
  import GateProperties
  import Ledger
  import opened Runner
  import opened RunnerSafety
  import opened RunExactness

  /* ----- how a turn ends ----- */

  /** What the world answers to an action done at `at`: it is told the tool, the instant, the
      channel, the concession and how many contacts came before. */
  function AnswerTo(ep: Episode, s: RunState, action: ProposedAction, at: Instant): Reaction {
    var earlier := s.result.contactsMade;
    ep.world(Interaction(action.tool, at, action.args.channel, action.args.valuePaise,
                         if IsContact(action) || earlier == 0 then earlier else earlier - 1), s.step)
  }

  predicate IsExit(action: ProposedAction) {
    action.tool == CloseEpisode || action.tool == EscalateToHuman
  }

  /** The world is asked about everything but an exit and a look at the payment. */
  predicate IsAnswered(action: ProposedAction) {
    !IsExit(action) && action.tool != VerifyPaymentClaim
  }

  /** What an answer makes of the episode: a dispute before an opt-out before a payment. */
  function EndByAnswer(ep: Episode, answer: Reaction): Option<EpisodeState> {
    if answer.disputed || answer.optedOut then Some(Suppressed)
    else if !answer.paid then None
    else if answer.amount < ep.amount then Some(PartiallyRecovered)
    else Some(Recovered)
  }

  function EndByAction(ep: Episode, s: RunState, action: ProposedAction, at: Instant): Option<EpisodeState> {
    if action.tool == CloseEpisode then Some(Unrecoverable)
    else if action.tool == EscalateToHuman then Some(Escalated)
    else if action.tool == VerifyPaymentClaim then None
    else EndByAnswer(ep, AnswerTo(ep, s, action, at))
  }

  /** A refusal that leaves no other plan. */
  function EndByRefusal(why: Refusal): Option<EpisodeState> {
    if why.NeverRetryCause? || why.NeverRouteAroundCause? then Some(Unrecoverable)
    else if why == OptedOut || why == OnDndRegistry then Some(Suppressed)
    else if why in {BudgetActionsExhausted, BudgetSpendExhausted, EpisodeContactCap} then Some(Exhausted)
    else if why == LadderExhausted then Some(Escalated)
    else None
  }

  /** How the turn ends the episode, if it does. */
  function TurnEnd(ep: Episode, s: RunState): Option<EpisodeState> {
    if CameBy(ep, s.now) then Some(Recovered)
    else if Proposal(ep, s).None? then Some(if s.result.actionsTaken == 0 then SkippedNegativeEv else Exhausted)
    else if !Timely(ep, s) then Some(Exhausted)
    else if Approval(ep, s).Some? then
      EndByApproval(ep, s, Approval(ep, s).value, ActionMoment(ep, s))
    else if |Decision(ep, s).reasons| == 1 && Decision(ep, s).reasons[0].Because? then
      EndByRefusal(Decision(ep, s).reasons[0].refusal)
    else None
  }

  lemma DenialEnds(s: RunState, why: Refusal)
    requires s.result.state == Ingested
    ensures var (t, over) := AfterDenial(s, [Because(why)]);
            over == EndByRefusal(why).Some? && t.result.state == if over then EndByRefusal(why).value else Ingested
  {
    assert [Because(why)][1..] == [] && FirstTerminal([]) == None;
    assert TerminalDenial(Because(why)) == EndByRefusal(why);
    assert FirstTerminal([Because(why)]) == EndByRefusal(why);
  }

  lemma ActionEnds(ep: Episode, s: RunState, action: ProposedAction)
    requires s.result.state == Ingested
    ensures var (t, over) := Perform(ep, s, action);
            var end := EndByAction(ep, s, action, s.now);
            over == end.Some? && t.result.state == if over then end.value else Ingested
  {
    var ready := if action.tool == RetryPayment then s.(lastRetryAt := Some(s.now)) else s;
    PerformIsExecute(ep, s, ready, action);
    ExecuteEnds(ep, ready, action);
    SameAnswer(ep, ready, s, action, s.now);
  }

  lemma PerformIsExecute(ep: Episode, s: RunState, ready: RunState, action: ProposedAction)
    requires ready == if action.tool == RetryPayment then s.(lastRetryAt := Some(s.now)) else s
    ensures Perform(ep, s, action).1 == Execute(ep, ready, action).1
    ensures Perform(ep, s, action).0.result == Execute(ep, ready, action).0.result
    ensures MarksOf(Perform(ep, s, action).0) == MarksOf(Execute(ep, ready, action).0)
  {
  }

  lemma ExecuteEnds(ep: Episode, s: RunState, action: ProposedAction)
    requires s.result.state == Ingested
    ensures var (t, over) := Execute(ep, s, action);
            var end := EndByAction(ep, s, action, s.now);
            over == end.Some? && t.result.state == if over then end.value else Ingested
  {
    if IsAnswered(action) {
      AnsweredEnds(ep, s, action);
    } else {
      UnansweredEnds(ep, s, action);
    }
  }

  lemma UnansweredEnds(ep: Episode, s: RunState, action: ProposedAction)
    requires s.result.state == Ingested && !IsAnswered(action)
    ensures var (t, over) := Execute(ep, s, action);
            && over == IsExit(action)
            && t.result.state == if action.tool == CloseEpisode then Unrecoverable
                                 else if action.tool == EscalateToHuman then Escalated else Ingested
  {
  }

  lemma AnsweredEnds(ep: Episode, s: RunState, action: ProposedAction)
    requires s.result.state == Ingested && IsAnswered(action)
    ensures var (t, over) := Execute(ep, s, action);
            var end := EndByAnswer(ep, AnswerTo(ep, s, action, s.now));
            over == end.Some? && t.result.state == if over then end.value else Ingested
  {
    var s1 := s.(executed := s.executed + [Execution(action, s.now)]);
    var spent := Spend(ep, s1, action);
    SpendEffect(ep, s1, action);
    assert Answer(ep, spent, action) == AnswerTo(ep, s, action, s.now);
    ReactEnds(ep, spent, action, Answer(ep, spent, action));
  }

  lemma ReactEnds(ep: Episode, s: RunState, action: ProposedAction, answer: Reaction)
    requires s.result.state == Ingested
    ensures var (t, over) := React(ep, s, action, answer);
            var end := EndByAnswer(ep, answer);
            over == end.Some? && t.result.state == if over then end.value else Ingested
  {
  }

  lemma DeniedTurnEnds(ep: Episode, s: RunState)
    requires s.result.state == Ingested && !CameBy(ep, s.now)
    requires Proposal(ep, s).Some? && Timely(ep, s) && Approval(ep, s).None?
    ensures Iterate(ep, s).1 == TurnEnd(ep, s).Some?
    ensures Iterate(ep, s).0.result.state == if Iterate(ep, s).1 then TurnEnd(ep, s).value else Ingested
  {
    var proposal, decision, when := Proposal(ep, s).value, Decision(ep, s), ApprovalMoment(ep, s);
    IterateSettles(ep, s);
    GateProperties.OneReason(proposal, Context(ep, s), ep.policy);
    var why := decision.reasons[0].refusal;
    assert Iterate(ep, s) == AfterDenial(Noted(s, proposal, decision, when), [Because(why)]);
    DenialEnds(Noted(s, proposal, decision, when), why);
  }

  /** How acting on an approval at `at` ends the episode. */
  function EndByApproval(ep: Episode, s: RunState, action: ProposedAction, at: Instant): Option<EpisodeState> {
    if CameBy(ep, at) then Some(Recovered) else EndByAction(ep, s, action, at)
  }

  lemma ApprovalEnds(ep: Episode, s: RunState, action: ProposedAction, when: Instant)
    requires s.result.state == Ingested
    ensures var at := Max(s.now, if action.scheduledFor.Some? then action.scheduledFor.value else when);
            var (t, over) := AfterApproval(ep, s, action, when);
            var end := EndByApproval(ep, s, action, at);
            over == end.Some? && t.result.state == if over then end.value else Ingested
  {
    var at := Max(s.now, if action.scheduledFor.Some? then action.scheduledFor.value else when);
    if !CameBy(ep, at) {
      ActionEnds(ep, s.(now := at), action);
      assert AfterApproval(ep, s, action, when) == Perform(ep, s.(now := at), action);
      SameAnswer(ep, s.(now := at), s, action, at);
    }
  }

  lemma SameAnswer(ep: Episode, s: RunState, t: RunState, action: ProposedAction, at: Instant)
    requires s.result.contactsMade == t.result.contactsMade && s.step == t.step
    ensures EndByAction(ep, s, action, at) == EndByAction(ep, t, action, at)
  {
  }

  lemma ApprovedTurnEnds(ep: Episode, s: RunState)
    requires s.result.state == Ingested && !CameBy(ep, s.now) && Approval(ep, s).Some?
    ensures Iterate(ep, s).1 == TurnEnd(ep, s).Some?
    ensures Iterate(ep, s).0.result.state == if Iterate(ep, s).1 then TurnEnd(ep, s).value else Ingested
  {
    var noted := Noted(s, Proposal(ep, s).value, Decision(ep, s), ApprovalMoment(ep, s));
    ApprovedTurn(ep, s);
    ApprovalEnds(ep, noted, Approval(ep, s).value, ApprovalMoment(ep, s));
    SameAnswer(ep, noted, s, Approval(ep, s).value, ActionMoment(ep, s));
    assert TurnEnd(ep, s) == EndByApproval(ep, s, Approval(ep, s).value, ActionMoment(ep, s));
  }

  /** A turn ends the episode exactly so: in the first of these that applies. */
  lemma TurnEndsExactly(ep: Episode, s: RunState)
    requires s.result.state == Ingested
    ensures Iterate(ep, s).1 == TurnEnd(ep, s).Some?
    ensures Iterate(ep, s).0.result.state == if Iterate(ep, s).1 then TurnEnd(ep, s).value else Ingested
  {
    if !CameBy(ep, s.now) && Proposal(ep, s).Some? && Timely(ep, s) {
      if Approval(ep, s).Some? {
        ApprovedTurnEnds(ep, s);
      } else {
        DeniedTurnEnds(ep, s);
      }
    }
  }

  /** The state of the first of 24 turns that ends the episode, or exhausted when none does. */
  function LoopEnd(ep: Episode, s: RunState): EpisodeState
    requires s.result.state == Ingested
    decreases 24 - s.step
  {
    if s.step >= 24 then Exhausted
    else
      TurnEndsExactly(ep, s);
      if TurnEnd(ep, s).Some? then TurnEnd(ep, s).value else LoopEnd(ep, Iterate(ep, s).0)
  }

  lemma {:induction false} LoopEndsExactly(ep: Episode, s: RunState)
    requires s.result.state == Ingested
    ensures Loop(ep, s).result.state == LoopEnd(ep, s)
    decreases MAX_STEPS - s.step
  {
    if s.step < MAX_STEPS {
      TurnEndsExactly(ep, s);
      if !Iterate(ep, s).1 {
        LoopEndsExactly(ep, Iterate(ep, s).0);
      }
    }
  }

  /** Every run begins when the payment failed, at its first step, and ends in the state of its
      first turn that ends it, exhausted when none does and skipped when triage said so; but
      recovered when that was no recovery and the payment came of itself by the end of the
      watch. */
  lemma RunEndsExactly(ep: Episode)
    requires ep.policy.Valid()
    ensures Open(ep).step == 0 && Open(ep).now == ep.occurredAt
    ensures var end := if ep.triage == Some(false) then SkippedNegativeEv else LoopEnd(ep, Open(ep));
            RunEpisode(ep).result.state ==
            if end != Recovered && end != PartiallyRecovered && CameBy(ep, ep.watchUntil) then Recovered else end
  {
    if ep.triage != Some(false) {
      LoopEndsExactly(ep, Open(ep));
    }
    TerminalStateChangesExactly(ep);
  }

  /* ----- what a turn leaves behind ----- */

  /** What is known of the customer: opted out, complained, disputed, handed to a person, never
      worked at all; the retries that did harm, and every contact with whether it was paid. */
  datatype Marks = Marks(optedOut: bool, complained: bool, disputed: bool, escalated: bool, skipped: bool, harmful: int,
                         history: seq<ContactRecord>)

  const UNMARKED: Marks := Marks(false, false, false, false, false, 0, [])

  function MarksOf(s: RunState): Marks {
    var r := s.result;
    Marks(r.optedOut, r.complained, r.disputed, r.escalated, r.skippedByTriage, r.forbiddenRetries, s.history)
  }

  /** An answer marks the episode: an opt-out is not heard over a dispute. */
  function MarksByAnswer(m: Marks, action: ProposedAction, at: Instant, answer: Reaction): Marks {
    Marks(m.optedOut || (answer.optedOut && !answer.disputed), m.complained || answer.complained,
          m.disputed || answer.disputed, m.escalated, m.skipped, m.harmful,
          if IsContact(action) then m.history + [ContactRecord(at, action.args.channel, answer.paid)] else m.history)
  }

  /** A retry did harm when what truly went wrong forbids it. */
  function MarksByRetry(m: Marks, ep: Episode): Marks {
    if ep.trueCause in NEVER_RETRY then m.(harmful := m.harmful + 1) else m
  }

  function MarksByAction(ep: Episode, m: Marks, action: ProposedAction, at: Instant, answer: Reaction): Marks {
    if action.tool == EscalateToHuman then m.(escalated := true)
    else if !IsAnswered(action) then m
    else MarksByAnswer(if action.tool == RetryPayment then MarksByRetry(m, ep) else m, action, at, answer)
  }

  lemma BookMarksNothing(s: RunState, kind: ExternalityKind, amount: Paise)
    ensures MarksOf(Book(s, kind, amount)) == MarksOf(s)
  {
  }

  lemma RecordMarks(s: RunState, action: ProposedAction, answer: Reaction)
    ensures MarksOf(Record(s, action, answer)) ==
            if IsContact(action) then MarksOf(s).(history := s.history + [ContactRecord(s.now, action.args.channel, answer.paid)])
            else MarksOf(s)
  {
  }

  lemma ComplainMarks(ep: Episode, s: RunState)
    ensures MarksOf(Complain(ep, s)) == MarksOf(s).(complained := true)
  {
    BookMarksNothing(s.(result := s.result.(complained := true)), ComplaintHarm, ep.rates.complaint);
  }

  lemma DisputeMarks(ep: Episode, s: RunState)
    ensures MarksOf(Dispute(ep, s)) == MarksOf(s).(disputed := true)
  {
    BookMarksNothing(s.(result := s.result.(disputed := true)), DisputeHarm, ep.rates.dispute);
  }

  lemma OptOutMarks(ep: Episode, s: RunState)
    ensures MarksOf(OptedOutNow(ep, s)) == MarksOf(s).(optedOut := true)
  {
    BookMarksNothing(s.(result := s.result.(optedOut := true)), OptOutHarm, ep.rates.optOut);
  }

  lemma PayMarksNothing(ep: Episode, s: RunState, amount: Paise)
    ensures MarksOf(Pay(ep, s, amount)) == MarksOf(s)
  {
  }

  lemma ReactMarks(ep: Episode, s: RunState, action: ProposedAction, answer: Reaction)
    ensures MarksOf(React(ep, s, action, answer).0) == MarksByAnswer(MarksOf(s), action, s.now, answer)
  {
    var s1 := Record(s, action, answer);
    var s2 := if answer.complained then Complain(ep, s1) else s1;
    RecordMarks(s, action, answer);
    ComplainMarks(ep, s1);
    DisputeMarks(ep, s2);
    OptOutMarks(ep, s2);
    PayMarksNothing(ep, s2, answer.amount);
  }

  lemma RetryIsCounted(ep: Episode, s: RunState)
    ensures var counted := Ledger.RetryCounted(s, ep.trueCause in NEVER_RETRY);
            CountRetry(ep, s) ==
            if ep.trueCause in NEVER_RETRY then Book(counted, ForbiddenRetryHarm, ep.rates.forbiddenRetry) else counted
  {
  }

  lemma RetryMarks(ep: Episode, s: RunState)
    ensures MarksOf(CountRetry(ep, s)) == MarksByRetry(MarksOf(s), ep)
  {
    RetryIsCounted(ep, s);
    CountingMarks(s, ep.trueCause in NEVER_RETRY);
    BookMarksNothing(Ledger.RetryCounted(s, ep.trueCause in NEVER_RETRY), ForbiddenRetryHarm, ep.rates.forbiddenRetry);
  }

  lemma CountingMarks(s: RunState, forbidden: bool)
    ensures MarksOf(Ledger.RetryCounted(s, forbidden)) ==
            if forbidden then MarksOf(s).(harmful := MarksOf(s).harmful + 1) else MarksOf(s)
  {
  }

  lemma ContactMarksNothing(ep: Episode, s: RunState, channel: Channel)
    ensures MarksOf(CountContact(ep, s, channel)) == MarksOf(s)
  {
  }

  lemma SpendMarks(ep: Episode, s: RunState, action: ProposedAction)
    ensures MarksOf(Spend(ep, s, action)) == if action.tool == RetryPayment then MarksByRetry(MarksOf(s), ep) else MarksOf(s)
  {
    var s1 := CountAction(s);
    RetryMarks(ep, s1);
    var s2 := if action.tool == RetryPayment then CountRetry(ep, s1) else s1;
    ContactMarksNothing(ep, s2, action.args.channel);
    assert MarksOf(s1) == MarksOf(s);
  }

  lemma PerformMarks(ep: Episode, s: RunState, action: ProposedAction)
    ensures MarksOf(Perform(ep, s, action).0) == MarksByAction(ep, MarksOf(s), action, s.now, AnswerTo(ep, s, action, s.now))
  {
    var ready := if action.tool == RetryPayment then s.(lastRetryAt := Some(s.now)) else s;
    PerformIsExecute(ep, s, ready, action);
    SameKnowledge(ep, ready, s, action, s.now);
    ExecuteMarks(ep, ready, action);
  }

  lemma SameKnowledge(ep: Episode, s: RunState, t: RunState, action: ProposedAction, at: Instant)
    requires s.step == t.step && s.result == t.result && s.history == t.history
    ensures MarksOf(s) == MarksOf(t) && AnswerTo(ep, s, action, at) == AnswerTo(ep, t, action, at)
  {
  }

  lemma ExecuteMarks(ep: Episode, s: RunState, action: ProposedAction)
    ensures MarksOf(Execute(ep, s, action).0) == MarksByAction(ep, MarksOf(s), action, s.now, AnswerTo(ep, s, action, s.now))
  {
    if IsAnswered(action) {
      var s1 := s.(executed := s.executed + [Execution(action, s.now)]);
      var spent := Spend(ep, s1, action);
      SpendMarks(ep, s1, action);
      SpendEffect(ep, s1, action);
      assert Answer(ep, spent, action) == AnswerTo(ep, s, action, s.now);
      ReactMarks(ep, spent, action, Answer(ep, spent, action));
    }
  }

  /** What is known after a turn that knew `m` before. */
  function MarksByTurn(ep: Episode, s: RunState, m: Marks): Marks {
    if Acts(ep, s) then
      var action, at := Approval(ep, s).value, ActionMoment(ep, s);
      MarksByAction(ep, m, action, at, AnswerTo(ep, s, action, at))
    else m
  }

  /** A turn marks the episode exactly as the action it acts on, or not at all. */
  lemma TurnMarksExactly(ep: Episode, s: RunState)
    ensures MarksOf(Iterate(ep, s).0) == MarksByTurn(ep, s, MarksOf(s))
  {
    if Approval(ep, s).Some? && !CameBy(ep, s.now) {
      ApprovedTurnMarks(ep, s, Approval(ep, s).value, ActionMoment(ep, s));
    } else {
      UnapprovedMarksNothing(ep, s);
    }
  }

  lemma ApprovedTurnMarks(ep: Episode, s: RunState, action: ProposedAction, at: Instant)
    requires Approval(ep, s) == Some(action) && at == ActionMoment(ep, s) && !CameBy(ep, s.now)
    ensures MarksOf(Iterate(ep, s).0) ==
            if CameBy(ep, at) then MarksOf(s) else MarksByAction(ep, MarksOf(s), action, at, AnswerTo(ep, s, action, at))
  {
    var noted := Noted(s, Proposal(ep, s).value, Decision(ep, s), ApprovalMoment(ep, s));
    ApprovedTurn(ep, s);
    ApprovalMarks(ep, noted, action, ApprovalMoment(ep, s));
    NotingMarksNothing(s, Proposal(ep, s).value, Decision(ep, s), ApprovalMoment(ep, s));
    NotingIsNotHeard(ep, s, Proposal(ep, s).value, Decision(ep, s), ApprovalMoment(ep, s), action, at);
  }

  lemma NotingIsNotHeard(ep: Episode, s: RunState, proposal: ProposedAction, decision: GateDecision, when: Instant,
                         action: ProposedAction, at: Instant)
    ensures AnswerTo(ep, Noted(s, proposal, decision, when), action, at) == AnswerTo(ep, s, action, at)
  {
  }

  /** What is known when the loop ends that knew `m` at this point. */
  function LoopMarks(ep: Episode, s: RunState, m: Marks): Marks
    decreases 24 - s.step
  {
    if s.step >= 24 then m
    else if Iterate(ep, s).1 then MarksByTurn(ep, s, m)
    else LoopMarks(ep, Iterate(ep, s).0, MarksByTurn(ep, s, m))
  }

  lemma {:induction false} LoopMarksExactly(ep: Episode, s: RunState)
    ensures MarksOf(Loop(ep, s)) == LoopMarks(ep, s, MarksOf(s))
    decreases MAX_STEPS - s.step
  {
    if s.step < MAX_STEPS {
      TurnMarksExactly(ep, s);
      if !Iterate(ep, s).1 {
        LoopMarksExactly(ep, Iterate(ep, s).0);
      }
    }
  }

  /** Every run knows of the customer what its turns told, starting from nothing; one that
      triage skipped knows just that. */
  lemma RunMarksExactly(ep: Episode)
    ensures MarksOf(RunEpisode(ep)) ==
            if ep.triage == Some(false) then UNMARKED.(skipped := true) else LoopMarks(ep, Open(ep), UNMARKED)
  {
    OpenUnmarked(ep);
    LoopMarksExactly(ep, Open(ep));
    SelfRecoveryMarksNothing(ep, Concluded(ep), ep.watchUntil);
    WatchMarksNothing(ep, Concluded(ep));
    assert RunEpisode(ep) == Close(Watch(ep, Concluded(ep)));
    assert MarksOf(Close(Watch(ep, Concluded(ep)))) == MarksOf(Watch(ep, Concluded(ep)));
  }

  lemma OpenUnmarked(ep: Episode)
    ensures MarksOf(Open(ep)) == UNMARKED
  {
    assert MarksOf(Begin(ep)) == UNMARKED;
    assert MarksOf(ChargeTokens(ep, Begin(ep))) == UNMARKED;
    NotesMarkNothing(ep, ChargeTokens(ep, Begin(ep)));
  }

  lemma NotesMarkNothing(ep: Episode, s: RunState)
    ensures MarksOf(NoteTriage(ep, NoteDiagnosis(ep, s))) == MarksOf(s)
  {
  }

  lemma WatchMarksNothing(ep: Episode, s: RunState)
    ensures MarksOf(Watch(ep, s)) == MarksOf(s)
  {
    SelfRecoveryMarksNothing(ep, s, ep.watchUntil);
  }

  lemma DenialMarksNothing(s: RunState, reasons: seq<Reason>)
    ensures MarksOf(AfterDenial(s, reasons).0) == MarksOf(s)
  {
  }

  lemma NotingMarksNothing(s: RunState, proposal: ProposedAction, decision: GateDecision, when: Instant)
    ensures MarksOf(Noted(s, proposal, decision, when)) == MarksOf(s)
  {
  }

  lemma UnapprovedMarksNothing(ep: Episode, s: RunState)
    requires Approval(ep, s).None? || CameBy(ep, s.now)
    ensures MarksOf(Iterate(ep, s).0) == MarksOf(s)
  {
    if CameBy(ep, s.now) {
      assert Iterate(ep, s) == SelfRecover(ep, s, s.now);
    } else if Proposal(ep, s).Some? && Timely(ep, s) {
      var proposal, decision, when := Proposal(ep, s).value, Decision(ep, s), ApprovalMoment(ep, s);
      IterateSettles(ep, s);
      NotingMarksNothing(s, proposal, decision, when);
      DenialMarksNothing(Noted(s, proposal, decision, when), decision.reasons);
      assert Iterate(ep, s) == AfterDenial(Noted(s, proposal, decision, when), decision.reasons);
    } else {
      IdleMarksNothing(ep, s);
    }
  }

  lemma IdleMarksNothing(ep: Episode, s: RunState)
    requires !CameBy(ep, s.now) && (Proposal(ep, s).None? || !Timely(ep, s))
    ensures MarksOf(Iterate(ep, s).0) == MarksOf(s)
  {
  }

  lemma SelfRecoveryMarksNothing(ep: Episode, s: RunState, now: Instant)
    ensures MarksOf(SelfRecover(ep, s, now).0) == MarksOf(s)
  {
  }

  lemma ApprovalMarks(ep: Episode, s: RunState, action: ProposedAction, when: Instant)
    ensures var at := Max(s.now, if action.scheduledFor.Some? then action.scheduledFor.value else when);
            MarksOf(AfterApproval(ep, s, action, when).0) ==
            if CameBy(ep, at) then MarksOf(s) else MarksByAction(ep, MarksOf(s), action, at, AnswerTo(ep, s, action, at))
  {
    var at := Max(s.now, if action.scheduledFor.Some? then action.scheduledFor.value else when);
    var s1 := s.(now := at);
    if CameBy(ep, at) {
      SelfRecoveryMarksNothing(ep, s1, at);
      assert AfterApproval(ep, s, action, when).0 == SelfRecover(ep, s1, at).0;
    } else {
      PerformMarks(ep, s1, action);
      assert AfterApproval(ep, s, action, when) == Perform(ep, s1, action);
      assert AnswerTo(ep, s1, action, at) == AnswerTo(ep, s, action, at);
    }
  }

  /* ----- the figures, read back off the trail ----- */

  /** An action the world was asked about, or the payment was looked at: which, and when. */
  datatype Deed = Deed(tool: Tool, at: Instant)

  datatype Figures = Figures(
    recovered: Paise, cost: Paise, externality: Paise,
    actions: int, contacts: int, retries: int, denials: int, rewrites: int,
    selfRecovered: bool, recoveredAfter: Option<int>, reasons: seq<Reason>, deeds: seq<Deed>)

  const NOTHING: Figures := Figures(0, 0, 0, 0, 0, 0, 0, 0, false, None, [], [])

  /** What one entry of the trail tells. */
  function Hear(ep: Episode, f: Figures, e: Entry): Figures {
    match e.event
    case CostIncurred(via, amount) =>
      f.(cost := f.cost + amount, contacts := f.contacts + if via.Some? then 1 else 0)
    case ExternalityBooked(_, amount) => f.(externality := f.externality + amount)
    case GateRuled(_, _, verdict, reasons) =>
      if verdict == Deny then f.(denials := f.denials + 1, reasons := f.reasons + reasons)
      else if verdict == Modify then f.(rewrites := f.rewrites + 1)
      else f
    case CaptureVerified(_) => f.(actions := f.actions + 1, deeds := f.deeds + [Deed(VerifyPaymentClaim, e.at)])
    case ActionExecuted(_, tool, _, _, _) =>
      f.(actions := f.actions + 1, retries := f.retries + (if tool == RetryPayment then 1 else 0),
         deeds := f.deeds + [Deed(tool, e.at)])
    case OutcomeSeen(amount, attributed) =>
      f.(recovered := f.recovered + amount, selfRecovered := f.selfRecovered || !attributed, recoveredAfter := Some(e.at - ep.occurredAt))
    case _ => f
  }

  function HearAll(ep: Episode, audit: seq<Entry>): Figures {
    if audit == [] then NOTHING
    else Hear(ep, HearAll(ep, audit[..|audit| - 1]), audit[|audit| - 1])
  }

  /** A hearing that takes the trail one entry at a time. */
  ghost predicate Hears(ep: Episode, heard: seq<Entry> -> Figures) {
    && heard([]) == NOTHING
    && forall audit, e :: heard(audit + [e]) == Hear(ep, heard(audit), e)
  }

  lemma HearAllHears(ep: Episode)
    ensures Hears(ep, audit => HearAll(ep, audit))
  {
    forall audit: seq<Entry>, e: Entry ensures HearAll(ep, audit + [e]) == Hear(ep, HearAll(ep, audit), e) {
      assert (audit + [e])[..|audit|] == audit;
    }
  }

  /** What was done, exits apart: those say nothing to the trail but how it ends. */
  function DeedsOf(executed: seq<Execution>): seq<Deed> {
    if executed == [] then []
    else
      var last := executed[|executed| - 1];
      DeedsOf(executed[..|executed| - 1]) + (if IsExit(last.action) then [] else [Deed(last.action.tool, last.at)])
  }

  lemma DeedsGrow(executed: seq<Execution>, e: Execution)
    ensures DeedsOf(executed + [e]) == DeedsOf(executed) + (if IsExit(e.action) then [] else [Deed(e.action.tool, e.at)])
  {
    assert (executed + [e])[..|executed|] == executed;
  }

  function FiguresOf(s: RunState): Figures {
    var r := s.result;
    Figures(r.recovered, r.cost, r.externality, r.actionsTaken, r.contactsMade, r.retries, r.denials, r.modifications,
            r.selfRecovered, r.timeToRecovery, r.denialReasons, DeedsOf(s.executed))
  }

  /** An action begun and not told yet: it is counted, the retry too, and done. */
  function Begun(f: Figures, actions: int, retries: int, deeds: seq<Deed>): Figures {
    f.(actions := f.actions + actions, retries := f.retries + retries, deeds := f.deeds + deeds)
  }

  ghost predicate Told(heard: seq<Entry> -> Figures, s: RunState, actions: int, retries: int, deeds: seq<Deed>) {
    FiguresOf(s) == Begun(heard(s.audit), actions, retries, deeds)
  }

  ghost predicate AllTold(heard: seq<Entry> -> Figures, s: RunState) {
    Told(heard, s, 0, 0, [])
  }

  lemma BookTold(ep: Episode, heard: seq<Entry> -> Figures, s: RunState, kind: ExternalityKind, amount: Paise,
                 actions: int, retries: int, deeds: seq<Deed>)
    requires Hears(ep, heard) && Told(heard, s, actions, retries, deeds)
    ensures Told(heard, Book(s, kind, amount), actions, retries, deeds)
  {
  }

  lemma ChargeTold(ep: Episode, heard: seq<Entry> -> Figures, s: RunState, channel: Channel,
                   actions: int, retries: int, deeds: seq<Deed>)
    requires Hears(ep, heard) && Told(heard, s, actions, retries, deeds)
    ensures Told(heard, CountContact(ep, s, channel), actions, retries, deeds)
  {
  }

  lemma RetryCountedTold(heard: seq<Entry> -> Figures, s: RunState, forbidden: bool, actions: int, deeds: seq<Deed>)
    requires Told(heard, s, actions, 0, deeds)
    ensures Told(heard, Ledger.RetryCounted(s, forbidden), actions, 1, deeds)
  {
  }

  lemma RetryTold(ep: Episode, heard: seq<Entry> -> Figures, s: RunState, actions: int, deeds: seq<Deed>)
    requires Hears(ep, heard) && Told(heard, s, actions, 0, deeds)
    ensures Told(heard, CountRetry(ep, s), actions, 1, deeds)
  {
    var counted := Ledger.RetryCounted(s, ep.trueCause in NEVER_RETRY);
    RetryCountedTold(heard, s, ep.trueCause in NEVER_RETRY, actions, deeds);
    BookTold(ep, heard, counted, ForbiddenRetryHarm, ep.rates.forbiddenRetry, actions, 1, deeds);
    RetryIsCounted(ep, s);
  }

  lemma SpendTold(ep: Episode, heard: seq<Entry> -> Figures, s: RunState, action: ProposedAction, deeds: seq<Deed>)
    requires Hears(ep, heard) && Told(heard, s, 0, 0, deeds)
    ensures Told(heard, Spend(ep, s, action), 1, if action.tool == RetryPayment then 1 else 0, deeds)
  {
    var s1 := CountAction(s);
    assert Told(heard, s1, 1, 0, deeds);
    RetryTold(ep, heard, s1, 1, deeds);
    var s2 := if action.tool == RetryPayment then CountRetry(ep, s1) else s1;
    ChargeTold(ep, heard, s2, action.args.channel, 1, if action.tool == RetryPayment then 1 else 0, deeds);
  }

  lemma RecordTold(ep: Episode, heard: seq<Entry> -> Figures, s: RunState, action: ProposedAction, answer: Reaction)
    requires Hears(ep, heard)
    requires Told(heard, s, 1, if action.tool == RetryPayment then 1 else 0, [Deed(action.tool, s.now)])
    ensures AllTold(heard, Record(s, action, answer))
  {
  }

  lemma ComplaintTold(ep: Episode, heard: seq<Entry> -> Figures, s: RunState)
    requires Hears(ep, heard) && AllTold(heard, s)
    ensures AllTold(heard, Complain(ep, s))
  {
    BookTold(ep, heard, s.(result := s.result.(complained := true)), ComplaintHarm, ep.rates.complaint, 0, 0, []);
  }

  lemma DisputeTold(ep: Episode, heard: seq<Entry> -> Figures, s: RunState)
    requires Hears(ep, heard) && AllTold(heard, s)
    ensures AllTold(heard, Dispute(ep, s))
  {
    BookTold(ep, heard, s.(result := s.result.(disputed := true)), DisputeHarm, ep.rates.dispute, 0, 0, []);
  }

  lemma OptOutTold(ep: Episode, heard: seq<Entry> -> Figures, s: RunState)
    requires Hears(ep, heard) && AllTold(heard, s)
    ensures AllTold(heard, OptedOutNow(ep, s))
  {
    BookTold(ep, heard, s.(result := s.result.(optedOut := true)), OptOutHarm, ep.rates.optOut, 0, 0, []);
  }

  lemma PayTold(ep: Episode, heard: seq<Entry> -> Figures, s: RunState, amount: Paise)
    requires Hears(ep, heard) && AllTold(heard, s)
    ensures AllTold(heard, Pay(ep, s, amount))
  {
  }

  lemma SelfRecoveryTold(ep: Episode, heard: seq<Entry> -> Figures, s: RunState, now: Instant)
    requires Hears(ep, heard) && AllTold(heard, s)
    ensures AllTold(heard, SelfRecover(ep, s, now).0)
  {
  }

  lemma ReactTold(ep: Episode, heard: seq<Entry> -> Figures, s: RunState, action: ProposedAction, answer: Reaction)
    requires Hears(ep, heard)
    requires Told(heard, s, 1, if action.tool == RetryPayment then 1 else 0, [Deed(action.tool, s.now)])
    ensures AllTold(heard, React(ep, s, action, answer).0)
  {
    var s1 := Record(s, action, answer);
    RecordTold(ep, heard, s, action, answer);
    ComplaintTold(ep, heard, s1);
    var s2 := if answer.complained then Complain(ep, s1) else s1;
    DisputeTold(ep, heard, s2);
    OptOutTold(ep, heard, s2);
    PayTold(ep, heard, s2, answer.amount);
  }

  lemma ExecuteTold(ep: Episode, heard: seq<Entry> -> Figures, s: RunState, action: ProposedAction)
    requires Hears(ep, heard) && AllTold(heard, s)
    ensures AllTold(heard, Execute(ep, s, action).0)
  {
    var s1 := s.(executed := s.executed + [Execution(action, s.now)]);
    DeedsGrow(s.executed, Execution(action, s.now));
    if IsAnswered(action) {
      assert Told(heard, s1, 0, 0, [Deed(action.tool, s.now)]);
      SpendTold(ep, heard, s1, action, [Deed(action.tool, s.now)]);
      var spent := Spend(ep, s1, action);
      ReactTold(ep, heard, spent, action, Answer(ep, spent, action));
    } else {
      UnansweredTold(ep, heard, s, action);
    }
  }

  lemma UnansweredTold(ep: Episode, heard: seq<Entry> -> Figures, s: RunState, action: ProposedAction)
    requires Hears(ep, heard) && AllTold(heard, s) && !IsAnswered(action)
    ensures AllTold(heard, Execute(ep, s, action).0)
  {
    DeedsGrow(s.executed, Execution(action, s.now));
    if IsExit(action) {
      ExitTold(ep, heard, s, action);
    } else {
      LookTold(ep, heard, s, action);
    }
  }

  lemma ExitTold(ep: Episode, heard: seq<Entry> -> Figures, s: RunState, action: ProposedAction)
    requires AllTold(heard, s) && IsExit(action)
    ensures AllTold(heard, Execute(ep, s, action).0)
  {
    DeedsGrow(s.executed, Execution(action, s.now));
  }

  lemma LookTold(ep: Episode, heard: seq<Entry> -> Figures, s: RunState, action: ProposedAction)
    requires Hears(ep, heard) && AllTold(heard, s) && action.tool == VerifyPaymentClaim
    ensures AllTold(heard, Execute(ep, s, action).0)
  {
    DeedsGrow(s.executed, Execution(action, s.now));
  }

  lemma PerformTold(ep: Episode, heard: seq<Entry> -> Figures, s: RunState, action: ProposedAction)
    requires Hears(ep, heard) && AllTold(heard, s)
    ensures AllTold(heard, Perform(ep, s, action).0)
  {
    var ready := if action.tool == RetryPayment then s.(lastRetryAt := Some(s.now)) else s;
    var done := Execute(ep, ready, action).0;
    assert Perform(ep, s, action).0 == done.(step := done.step + 1);
    assert AllTold(heard, ready);
    ExecuteTold(ep, heard, ready, action);
    StepTold(heard, done);
  }

  lemma StepTold(heard: seq<Entry> -> Figures, s: RunState)
    requires AllTold(heard, s)
    ensures AllTold(heard, s.(step := s.step + 1))
  {
  }

  lemma ApprovalTold(ep: Episode, heard: seq<Entry> -> Figures, s: RunState, action: ProposedAction, when: Instant)
    requires Hears(ep, heard) && AllTold(heard, s)
    ensures AllTold(heard, AfterApproval(ep, s, action, when).0)
  {
    var at := Max(s.now, if action.scheduledFor.Some? then action.scheduledFor.value else when);
    var s1 := s.(now := at);
    assert AllTold(heard, s1);
    SelfRecoveryTold(ep, heard, s1, at);
    PerformTold(ep, heard, s1, action);
  }

  /** The trail has one entry the figures do not show yet: that of the ruling. */
  lemma NotedTold(ep: Episode, heard: seq<Entry> -> Figures, s: RunState, proposal: ProposedAction, decision: GateDecision,
                  when: Instant)
    requires Hears(ep, heard) && AllTold(heard, s) && decision.verdict != Deny
    ensures AllTold(heard, Noted(s, proposal, decision, when))
  {
  }

  lemma DenialTold(ep: Episode, heard: seq<Entry> -> Figures, s: RunState, proposal: ProposedAction, decision: GateDecision,
                   when: Instant)
    requires Hears(ep, heard) && AllTold(heard, s) && decision.verdict == Deny
    ensures AllTold(heard, AfterDenial(Noted(s, proposal, decision, when), decision.reasons).0)
  {
  }

  lemma StopTold(heard: seq<Entry> -> Figures, s: RunState, state: EpisodeState)
    requires AllTold(heard, s)
    ensures AllTold(heard, Stop(s, state))
  {
  }

  lemma TurnTold(ep: Episode, heard: seq<Entry> -> Figures, s: RunState)
    requires Hears(ep, heard) && AllTold(heard, s)
    ensures AllTold(heard, Iterate(ep, s).0)
  {
    SelfRecoveryTold(ep, heard, s, s.now);
    if CameBy(ep, s.now) {
      assert Iterate(ep, s) == SelfRecover(ep, s, s.now);
    } else if Proposal(ep, s).None? {
      StopTold(heard, s, if s.result.actionsTaken > 0 then Exhausted else SkippedNegativeEv);
    } else if !Timely(ep, s) {
      StopTold(heard, s, Exhausted);
      assert Iterate(ep, s).0 == Stop(s, Exhausted);
    } else {
      SettledTold(ep, heard, s);
    }
  }

  lemma SettledTold(ep: Episode, heard: seq<Entry> -> Figures, s: RunState)
    requires Hears(ep, heard) && AllTold(heard, s)
    requires !CameBy(ep, s.now) && Proposal(ep, s).Some? && Timely(ep, s)
    ensures AllTold(heard, Iterate(ep, s).0)
  {
    var proposal, decision, when := Proposal(ep, s).value, Decision(ep, s), ApprovalMoment(ep, s);
    IterateSettles(ep, s);
    if decision.verdict == Deny {
      DenialTold(ep, heard, s, proposal, decision, when);
    } else {
      NotedTold(ep, heard, s, proposal, decision, when);
      ApprovalTold(ep, heard, Noted(s, proposal, decision, when), decision.action.value, when);
    }
  }

  lemma {:induction false} LoopTold(ep: Episode, heard: seq<Entry> -> Figures, s: RunState)
    requires Hears(ep, heard) && AllTold(heard, s)
    ensures AllTold(heard, Loop(ep, s))
    decreases MAX_STEPS - s.step
  {
    if s.step < MAX_STEPS {
      TurnTold(ep, heard, s);
      if !Iterate(ep, s).1 {
        LoopTold(ep, heard, Iterate(ep, s).0);
      }
    } else {
      StopTold(heard, s, Exhausted);
    }
  }

  /** The strategy is asked with the clock, the step and the two counts the trail tells. */
  ghost predicate AskedAsTold(ep: Episode, heard: seq<Entry> -> Figures, s: RunState) {
    exists c: StrategyContext ::
      && c.now == s.now && c.stepNo == s.step
      && c.actionsTaken == heard(s.audit).actions && c.contactsMade == heard(s.audit).contacts
      && Proposal(ep, s) == ep.strategy(c)
  }

  ghost function AskedOtherwise(ep: Episode, heard: seq<Entry> -> Figures): RunState -> bool {
    s => !AskedAsTold(ep, heard, s)
  }

  lemma ToldIsAsked(ep: Episode, heard: seq<Entry> -> Figures, s: RunState)
    requires AllTold(heard, s)
    ensures AskedAsTold(ep, heard, s)
  {
    var c := StrategyContext(s.now, s.step, s.result.actionsTaken, s.result.contactsMade);
    assert FiguresOf(s) == heard(s.audit);
    assert c.actionsTaken == heard(s.audit).actions && c.contactsMade == heard(s.audit).contacts;
  }

  lemma {:induction false} LoopAsksAsTold(ep: Episode, heard: seq<Entry> -> Figures, s: RunState)
    requires Hears(ep, heard) && AllTold(heard, s)
    ensures !SomeTurn(ep, s, AskedOtherwise(ep, heard))
    decreases MAX_STEPS - s.step
  {
    if s.step < MAX_STEPS {
      ToldIsAsked(ep, heard, s);
      if !Iterate(ep, s).1 {
        TurnTold(ep, heard, s);
        LoopAsksAsTold(ep, heard, Iterate(ep, s).0);
      }
    }
  }

  /** In no turn of any run is the strategy told anything but what the trail so far says. */
  lemma StrategyHearsTheTrail(ep: Episode)
    ensures !SomeTurn(ep, Open(ep), AskedOtherwise(ep, audit => HearAll(ep, audit)))
  {
    HearAllHears(ep);
    var heard := audit => HearAll(ep, audit);
    OpenTold(ep, heard);
    LoopAsksAsTold(ep, heard, Open(ep));
  }

  lemma BeginTold(ep: Episode, heard: seq<Entry> -> Figures)
    requires Hears(ep, heard)
    ensures AllTold(heard, Begin(ep))
  {
    assert Begin(ep).audit == [] + [Entry(ep.occurredAt, EpisodeOpened(ep.amount))];
  }

  lemma TokensTold(ep: Episode, heard: seq<Entry> -> Figures, s: RunState)
    requires Hears(ep, heard) && AllTold(heard, s)
    ensures AllTold(heard, ChargeTokens(ep, s))
  {
  }

  lemma OpenTold(ep: Episode, heard: seq<Entry> -> Figures)
    requires Hears(ep, heard)
    ensures AllTold(heard, Open(ep))
  {
    BeginTold(ep, heard);
    TokensTold(ep, heard, Begin(ep));
    NotesTold(ep, heard, ChargeTokens(ep, Begin(ep)));
  }

  lemma NotesTold(ep: Episode, heard: seq<Entry> -> Figures, s: RunState)
    requires Hears(ep, heard) && AllTold(heard, s)
    ensures AllTold(heard, NoteTriage(ep, NoteDiagnosis(ep, s)))
  {
  }

  lemma ClosingTold(ep: Episode, heard: seq<Entry> -> Figures, s: RunState)
    requires Hears(ep, heard) && AllTold(heard, s)
    ensures AllTold(heard, Close(Watch(ep, s)))
  {
    SelfRecoveryTold(ep, heard, s, ep.watchUntil);
    var s1 := if HasRecovered(s.result) then s else SelfRecover(ep, s, ep.watchUntil).0;
    StopTold(heard, s1, Exhausted);
    CloseTold(ep, heard, Watch(ep, s));
  }

  lemma CloseTold(ep: Episode, heard: seq<Entry> -> Figures, s: RunState)
    requires Hears(ep, heard) && AllTold(heard, s)
    ensures AllTold(heard, Close(s))
  {
  }

  /** The trail of every run tells its story: reading it entry by entry gives what was
      recovered and when, what it cost and harmed, every count, whether the payment came of
      itself, the reasons of the denials, and what was done when. */
  lemma TrailTellsTheRun(ep: Episode)
    requires ep.policy.Valid()
    ensures FiguresOf(RunEpisode(ep)) == HearAll(ep, RunEpisode(ep).audit)
  {
    HearAllHears(ep);
    RunTold(ep, audit => HearAll(ep, audit));
  }

  lemma RunTold(ep: Episode, heard: seq<Entry> -> Figures)
    requires ep.policy.Valid() && Hears(ep, heard)
    ensures AllTold(heard, RunEpisode(ep))
  {
    OpenTold(ep, heard);
    if ep.triage == Some(false) {
      SkippingTold(heard, Open(ep), Concluded(ep));
    } else {
      LoopTold(ep, heard, Open(ep));
    }
    ConcludedIsTerminal(ep);
    ClosingTold(ep, heard, Concluded(ep));
  }

  lemma SkippingTold(heard: seq<Entry> -> Figures, s: RunState, t: RunState)
    requires AllTold(heard, s)
    requires t == s.(result := s.result.(state := SkippedNegativeEv, skippedByTriage := true))
    ensures AllTold(heard, t)
  {
  }
}
