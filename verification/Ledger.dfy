/** The audit trail reconciles with the ledger over every run. */
module Ledger {
  import opened Domain
  import opened Policy
  import opened Gate
  import opened Runner
  import opened RunnerSafety

  /** What an auditor reads off the trail: three sums and two counts. */
  datatype Tally = Tally(outcomes: Paise, costs: Paise, externalities: Paise, outcomeCount: nat, rulings: nat)

  function AmountIf(e: AuditEvent, counts: bool): Paise {
    if counts then
      match e
      case OutcomeSeen(amount, _) => amount
      case CostIncurred(_, amount) => amount
      case ExternalityBooked(_, amount) => amount
      case _ => 0
    else 0
  }

  function OneIf(counts: bool): nat {
    if counts then 1 else 0
  }

  function Post(t: Tally, e: AuditEvent): Tally {
    Tally(t.outcomes + AmountIf(e, e.OutcomeSeen?), t.costs + AmountIf(e, e.CostIncurred?),
          t.externalities + AmountIf(e, e.ExternalityBooked?),
          t.outcomeCount + OneIf(e.OutcomeSeen?), t.rulings + OneIf(e.GateRuled?))
  }

  function TallyOf(audit: seq<Entry>): Tally {
    if audit == [] then Tally(0, 0, 0, 0, 0)
    else Post(TallyOf(audit[..|audit| - 1]), audit[|audit| - 1].event)
  }

  /** A reading of the trail that takes its entries one at a time. */
  ghost predicate ReadsInOrder(read: seq<Entry> -> Tally) {
    && read([]) == Tally(0, 0, 0, 0, 0)
    && forall audit, e :: read(audit + [e]) == Post(read(audit), e.event)
  }

  lemma TallyReadsInOrder()
    ensures ReadsInOrder(TallyOf)
  {
    forall audit: seq<Entry>, e: Entry ensures TallyOf(audit + [e]) == Post(TallyOf(audit), e.event) {
      assert (audit + [e])[..|audit|] == audit;
    }
  }

  ghost predicate Bounded(ep: Episode) {
    WorldPaysAtMost(ep) && ep.amount >= 0
  }

  ghost predicate WorldPaysAtMost(ep: Episode) {
    forall i: Interaction, n: nat :: ep.world(i, n).amount <= ep.amount
  }

  /** Trail and ledger agree, with one outcome when recovered and none before. */
  ghost predicate Agree(ep: Episode, capped: bool, r: Result, t: Tally) {
    && t == Tally(r.recovered, r.cost, r.externality, OneIf(HasRecovered(r)), t.rulings)
    && (capped && HasRecovered(r) ==> r.recovered <= ep.amount)
    && (!HasRecovered(r) ==> r.recovered == 0)
    && (HasRecovered(r) ==> (r.state == Recovered <==> r.recovered >= ep.amount))
  }

  ghost predicate Reconciled(ep: Episode, read: seq<Entry> -> Tally, capped: bool, s: RunState) {
    Agree(ep, capped, s.result, read(s.audit))
  }

  function Rulings(read: seq<Entry> -> Tally, s: RunState): nat {
    read(s.audit).rulings
  }

  lemma SelfRecoverReconciles(ep: Episode, read: seq<Entry> -> Tally, capped: bool, s: RunState, now: Instant)
    requires ReadsInOrder(read)
    requires capped ==> Bounded(ep)
    requires Reconciled(ep, read, capped, s) && !HasRecovered(s.result)
    ensures Reconciled(ep, read, capped, SelfRecover(ep, s, now).0)
    ensures Rulings(read, SelfRecover(ep, s, now).0) == Rulings(read, s)
  {
    if SelfRecover(ep, s, now).1 {
    }
  }

  lemma BookReconciles(ep: Episode, read: seq<Entry> -> Tally, capped: bool, s: RunState, kind: ExternalityKind, amount: Paise)
    requires ReadsInOrder(read)
    requires Reconciled(ep, read, capped, s)
    ensures Reconciled(ep, read, capped, Book(s, kind, amount))
    ensures Book(s, kind, amount).result.state == s.result.state
    ensures Rulings(read, Book(s, kind, amount)) == Rulings(read, s)
  {
  }

  /** Counters outside the books do not disturb them. */
  lemma BooksUnmoved(ep: Episode, capped: bool, r: Result, u: Result, t: Tally)
    requires Agree(ep, capped, r, t)
    requires u.recovered == r.recovered && u.cost == r.cost && u.externality == r.externality && u.state == r.state
    ensures Agree(ep, capped, u, t)
  {
  }

  /** A retry counted as one more, and as one more that was forbidden. */
  function RetryCounted(s: RunState, forbidden: bool): RunState {
    var r := s.result.(retries := s.result.retries + 1);
    s.(result := if forbidden then r.(forbiddenRetries := r.forbiddenRetries + 1) else r)
  }

  lemma RetryCountedReconciles(ep: Episode, read: seq<Entry> -> Tally, capped: bool, s: RunState, forbidden: bool)
    requires Reconciled(ep, read, capped, s)
    ensures Reconciled(ep, read, capped, RetryCounted(s, forbidden))
    ensures RetryCounted(s, forbidden).result.state == s.result.state
    ensures RetryCounted(s, forbidden).audit == s.audit
  {
    BooksUnmoved(ep, capped, s.result, RetryCounted(s, forbidden).result, read(s.audit));
  }

  lemma CountRetryReconciles(ep: Episode, read: seq<Entry> -> Tally, capped: bool, s: RunState)
    requires ReadsInOrder(read)
    requires Reconciled(ep, read, capped, s)
    ensures Reconciled(ep, read, capped, CountRetry(ep, s))
    ensures CountRetry(ep, s).result.state == s.result.state
    ensures Rulings(read, CountRetry(ep, s)) == Rulings(read, s)
  {
    var forbidden := ep.trueCause in NEVER_RETRY;
    var counted := RetryCounted(s, forbidden);
    RetryCountedReconciles(ep, read, capped, s, forbidden);
    BookReconciles(ep, read, capped, counted, ForbiddenRetryHarm, ep.rates.forbiddenRetry);
    assert CountRetry(ep, s) ==
           if forbidden then Book(counted, ForbiddenRetryHarm, ep.rates.forbiddenRetry) else counted;
  }

  lemma CountContactReconciles(ep: Episode, read: seq<Entry> -> Tally, capped: bool, s: RunState, channel: Channel)
    requires ReadsInOrder(read)
    requires Reconciled(ep, read, capped, s)
    ensures Reconciled(ep, read, capped, CountContact(ep, s, channel))
    ensures CountContact(ep, s, channel).result.state == s.result.state
    ensures Rulings(read, CountContact(ep, s, channel)) == Rulings(read, s)
  {
  }

  lemma SpendReconciles(ep: Episode, read: seq<Entry> -> Tally, capped: bool, s: RunState, action: ProposedAction)
    requires ReadsInOrder(read)
    requires Reconciled(ep, read, capped, s)
    ensures Reconciled(ep, read, capped, Spend(ep, s, action))
    ensures Spend(ep, s, action).result.state == s.result.state
    ensures Rulings(read, Spend(ep, s, action)) == Rulings(read, s)
  {
    var s1 := CountAction(s);
    CountRetryReconciles(ep, read, capped, s1);
    CountContactReconciles(ep, read, capped, if action.tool == RetryPayment then CountRetry(ep, s1) else s1,
                           action.args.channel);
  }

  lemma RecordReconciles(ep: Episode, read: seq<Entry> -> Tally, capped: bool, s: RunState, action: ProposedAction, reaction: Reaction)
    requires ReadsInOrder(read)
    requires Reconciled(ep, read, capped, s)
    ensures Reconciled(ep, read, capped, Record(s, action, reaction))
    ensures Record(s, action, reaction).result.state == s.result.state
    ensures Rulings(read, Record(s, action, reaction)) == Rulings(read, s)
  {
  }

  lemma ComplainReconciles(ep: Episode, read: seq<Entry> -> Tally, capped: bool, s: RunState)
    requires ReadsInOrder(read)
    requires Reconciled(ep, read, capped, s)
    ensures Reconciled(ep, read, capped, Complain(ep, s))
    ensures Complain(ep, s).result.state == s.result.state
    ensures Rulings(read, Complain(ep, s)) == Rulings(read, s)
  {
    BookReconciles(ep, read, capped, s.(result := s.result.(complained := true)), ComplaintHarm, ep.rates.complaint);
  }

  /** A dispute or an opt-out books its harm and ends the episode unrecovered. */
  lemma SuppressionReconciles(ep: Episode, read: seq<Entry> -> Tally, capped: bool, s: RunState)
    requires ReadsInOrder(read)
    requires Reconciled(ep, read, capped, s) && !HasRecovered(s.result)
    ensures Reconciled(ep, read, capped, Dispute(ep, s)) && Reconciled(ep, read, capped, OptedOutNow(ep, s))
    ensures Rulings(read, Dispute(ep, s)) == Rulings(read, OptedOutNow(ep, s)) == Rulings(read, s)
  {
    BookReconciles(ep, read, capped, s.(result := s.result.(disputed := true)), DisputeHarm, ep.rates.dispute);
    BookReconciles(ep, read, capped, s.(result := s.result.(optedOut := true)), OptOutHarm, ep.rates.optOut);
  }

  lemma PayReconciles(ep: Episode, read: seq<Entry> -> Tally, capped: bool, s: RunState, amount: Paise)
    requires ReadsInOrder(read)
    requires Reconciled(ep, read, capped, s) && !HasRecovered(s.result)
    requires capped ==> amount <= ep.amount
    ensures Reconciled(ep, read, capped, Pay(ep, s, amount))
    ensures Rulings(read, Pay(ep, s, amount)) == Rulings(read, s)
  {
  }

  lemma ReactReconciles(ep: Episode, read: seq<Entry> -> Tally, capped: bool, s: RunState, action: ProposedAction,
                        reaction: Reaction)
    requires ReadsInOrder(read)
    requires Reconciled(ep, read, capped, s) && !HasRecovered(s.result)
    requires capped ==> reaction.amount <= ep.amount
    ensures Reconciled(ep, read, capped, React(ep, s, action, reaction).0)
    ensures Rulings(read, React(ep, s, action, reaction).0) == Rulings(read, s)
  {
    var s1 := Record(s, action, reaction);
    RecordReconciles(ep, read, capped, s, action, reaction);
    ComplainReconciles(ep, read, capped, s1);
    var s2 := if reaction.complained then Complain(ep, s1) else s1;
    SuppressionReconciles(ep, read, capped, s2);
    PayReconciles(ep, read, capped, s2, reaction.amount);
  }

  lemma ExecuteReconciles(ep: Episode, read: seq<Entry> -> Tally, capped: bool, s: RunState, action: ProposedAction)
    requires ReadsInOrder(read)
    requires capped ==> Bounded(ep)
    requires Reconciled(ep, read, capped, s) && !HasRecovered(s.result)
    ensures Reconciled(ep, read, capped, Execute(ep, s, action).0)
    ensures Rulings(read, Execute(ep, s, action).0) == Rulings(read, s)
  {
    var s1 := s.(executed := s.executed + [Execution(action, s.now)]);
    if action.tool !in {CloseEpisode, EscalateToHuman, VerifyPaymentClaim} {
      SpendReconciles(ep, read, capped, s1, action);
      var spent := Spend(ep, s1, action);
      ReactReconciles(ep, read, capped, spent, action, Answer(ep, spent, action));
    }
  }

  lemma ApprovalReconciles(ep: Episode, read: seq<Entry> -> Tally, capped: bool, s: RunState, action: ProposedAction, when: Instant)
    requires ReadsInOrder(read)
    requires capped ==> Bounded(ep)
    requires Reconciled(ep, read, capped, s) && !HasRecovered(s.result)
    ensures Reconciled(ep, read, capped, AfterApproval(ep, s, action, when).0)
    ensures Rulings(read, AfterApproval(ep, s, action, when).0) == Rulings(read, s)
  {
    var at := Max(s.now, if action.scheduledFor.Some? then action.scheduledFor.value else when);
    var s1 := s.(now := at);
    SelfRecoverReconciles(ep, read, capped, s1, at);
    if !SelfRecover(ep, s1, at).1 {
      ExecuteReconciles(ep, read, capped, if action.tool == RetryPayment then s1.(lastRetryAt := Some(at)) else s1, action);
    }
  }

  lemma {:induction false} DenialsNeverRecover(reasons: seq<Reason>)
    ensures FirstTerminal(reasons).Some? ==> FirstTerminal(reasons).value !in {Recovered, PartiallyRecovered}
  {
    if reasons != [] {
      DenialsNeverRecover(reasons[1..]);
    }
  }

  lemma DenialReconciles(ep: Episode, read: seq<Entry> -> Tally, capped: bool, s: RunState, reasons: seq<Reason>)
    requires Reconciled(ep, read, capped, s) && !HasRecovered(s.result)
    ensures Reconciled(ep, read, capped, AfterDenial(s, reasons).0)
    ensures Rulings(read, AfterDenial(s, reasons).0) == Rulings(read, s)
  {
    DenialsNeverRecover(reasons);
  }

  lemma SettleReconciles(ep: Episode, read: seq<Entry> -> Tally, capped: bool, s: RunState, proposal: ProposedAction,
                         decision: GateDecision, when: Instant)
    requires ReadsInOrder(read)
    requires capped ==> Bounded(ep)
    requires decision.verdict == Deny <==> decision.action.None?
    requires Reconciled(ep, read, capped, s) && !HasRecovered(s.result)
    ensures Reconciled(ep, read, capped, Settle(ep, s, proposal, decision, when).0)
    ensures Rulings(read, Settle(ep, s, proposal, decision, when).0) == Rulings(read, s) + 1
  {
    var s1 := Noted(s, proposal, decision, when);
    assert Reconciled(ep, read, capped, s1) && Rulings(read, s1) == Rulings(read, s) + 1;
    if decision.verdict == Deny {
      DenialReconciles(ep, read, capped, s1, decision.reasons);
    } else {
      ApprovalReconciles(ep, read, capped, s1, decision.action.value, when);
    }
  }

  lemma StopReconciles(ep: Episode, read: seq<Entry> -> Tally, capped: bool, s: RunState, state: EpisodeState)
    requires Reconciled(ep, read, capped, s) && !HasRecovered(s.result)
    requires state != Recovered && state != PartiallyRecovered
    ensures Reconciled(ep, read, capped, Stop(s, state)) && Rulings(read, Stop(s, state)) == Rulings(read, s)
  {
  }

  lemma IterateReconciles(ep: Episode, read: seq<Entry> -> Tally, capped: bool, s: RunState)
    requires ReadsInOrder(read)
    requires capped ==> Bounded(ep)
    requires Reconciled(ep, read, capped, s) && s.result.state == Ingested
    ensures Reconciled(ep, read, capped, Iterate(ep, s).0)
    ensures Rulings(read, Iterate(ep, s).0) <= Rulings(read, s) + 1
  {
    SelfRecoverReconciles(ep, read, capped, s, s.now);
    if SelfRecover(ep, s, s.now).1 {
      assert Iterate(ep, s) == SelfRecover(ep, s, s.now);
    } else if Proposal(ep, s).None? {
      var state := if s.result.actionsTaken > 0 then Exhausted else SkippedNegativeEv;
      StopReconciles(ep, read, capped, s, state);
      assert Iterate(ep, s).0 == Stop(s, state);
    } else if !Timely(ep, s) {
      StopReconciles(ep, read, capped, s, Exhausted);
      assert Iterate(ep, s).0 == Stop(s, Exhausted);
    } else {
      var proposal, decision, when := Proposal(ep, s).value, Decision(ep, s), ApprovalMoment(ep, s);
      SettleReconciles(ep, read, capped, s, proposal, decision, when);
      assert Iterate(ep, s) == Settle(ep, s, proposal, decision, when);
    }
  }

  lemma {:induction false} LoopReconciles(ep: Episode, read: seq<Entry> -> Tally, capped: bool, s: RunState)
    requires ReadsInOrder(read)
    requires capped ==> Bounded(ep)
    requires Reconciled(ep, read, capped, s) && s.result.state == Ingested
    requires Rulings(read, s) <= s.step <= MAX_STEPS
    ensures Reconciled(ep, read, capped, Loop(ep, s))
    ensures Rulings(read, Loop(ep, s)) <= MAX_STEPS
    decreases MAX_STEPS - s.step
  {
    if s.step < MAX_STEPS {
      IterateReconciles(ep, read, capped, s);
      IterateEffect(ep, s);
      var (t, broke) := Iterate(ep, s);
      if !broke {
        LoopReconciles(ep, read, capped, t);
      }
    }
  }

  lemma BeginReconciles(ep: Episode, read: seq<Entry> -> Tally, capped: bool)
    requires ReadsInOrder(read)
    ensures Reconciled(ep, read, capped, Begin(ep)) && Rulings(read, Begin(ep)) == 0
    ensures Begin(ep).result.state == Ingested
  {
    assert Begin(ep).audit == [] + [Entry(ep.occurredAt, EpisodeOpened(ep.amount))];
  }

  lemma ChargeTokensReconciles(ep: Episode, read: seq<Entry> -> Tally, capped: bool, s: RunState)
    requires ReadsInOrder(read)
    requires Reconciled(ep, read, capped, s)
    ensures var t := ChargeTokens(ep, s);
            Reconciled(ep, read, capped, t) && Rulings(read, t) == Rulings(read, s) && t.result.state == s.result.state
  {
  }

  lemma NotesReconcile(ep: Episode, read: seq<Entry> -> Tally, capped: bool, s: RunState)
    requires ReadsInOrder(read)
    requires Reconciled(ep, read, capped, s)
    ensures var t := NoteTriage(ep, NoteDiagnosis(ep, s));
            Reconciled(ep, read, capped, t) && Rulings(read, t) == Rulings(read, s) && t.result == s.result
  {
  }

  lemma OpenReconciles(ep: Episode, read: seq<Entry> -> Tally, capped: bool)
    requires ReadsInOrder(read)
    ensures Reconciled(ep, read, capped, Open(ep)) && Rulings(read, Open(ep)) == 0
    ensures Open(ep).result.state == Ingested
  {
    BeginReconciles(ep, read, capped);
    ChargeTokensReconciles(ep, read, capped, Begin(ep));
    NotesReconcile(ep, read, capped, ChargeTokens(ep, Begin(ep)));
  }

  lemma WatchReconciles(ep: Episode, read: seq<Entry> -> Tally, capped: bool, s: RunState)
    requires ReadsInOrder(read)
    requires capped ==> Bounded(ep)
    requires Reconciled(ep, read, capped, s)
    ensures Reconciled(ep, read, capped, Watch(ep, s)) && Rulings(read, Watch(ep, s)) == Rulings(read, s)
  {
    if !HasRecovered(s.result) {
      SelfRecoverReconciles(ep, read, capped, s, ep.watchUntil);
    }
  }

  lemma CloseReconciles(ep: Episode, read: seq<Entry> -> Tally, capped: bool, s: RunState)
    requires ReadsInOrder(read)
    requires Reconciled(ep, read, capped, s)
    ensures Reconciled(ep, read, capped, Close(s)) && Rulings(read, Close(s)) == Rulings(read, s)
  {
  }

  lemma RunIsReconciled(ep: Episode, read: seq<Entry> -> Tally, capped: bool)
    requires ReadsInOrder(read)
    requires capped ==> Bounded(ep)
    ensures Reconciled(ep, read, capped, RunEpisode(ep)) && Rulings(read, RunEpisode(ep)) <= MAX_STEPS
  {
    var begun := Open(ep);
    OpenReconciles(ep, read, capped);
    if ep.triage == Some(false) {
      var skipped := begun.(result := begun.result.(state := SkippedNegativeEv, skippedByTriage := true));
      assert Reconciled(ep, read, capped, skipped);
      SelfRecoverReconciles(ep, read, capped, skipped, ep.watchUntil);
      CloseReconciles(ep, read, capped, SelfRecover(ep, skipped, ep.watchUntil).0);
    } else {
      LoopReconciles(ep, read, capped, begun);
      WatchReconciles(ep, read, capped, Loop(ep, begun));
      CloseReconciles(ep, read, capped, Watch(ep, Loop(ep, begun)));
    }
  }

  /** In every run the outcome, cost and externality entries sum to the ledger, at most one
      outcome is ever written, it is written exactly when the episode counts as recovered,
      and no more is recovered than was at risk when nobody pays more than that. At most
      the step bound of proposals is ever ruled on. */
  lemma RunReconciles(ep: Episode)
    ensures var s := RunEpisode(ep);
            var t := TallyOf(s.audit);
            && t.outcomes == s.result.recovered
            && t.costs == s.result.cost
            && t.externalities == s.result.externality
            && t.outcomeCount == (if HasRecovered(s.result) then 1 else 0)
            && (Bounded(ep) ==> s.result.recovered <= ep.amount)
            && t.rulings <= MAX_STEPS
  {
    TallyReadsInOrder();
    RunIsReconciled(ep, TallyOf, Bounded(ep));
  }

  /** In every run a recovered episode is called fully recovered exactly when it brought at
      least its amount, and partly recovered exactly when it brought less. */
  lemma FullRecoveryExactly(ep: Episode)
    ensures var r := RunEpisode(ep).result;
            && (HasRecovered(r) ==> (r.state == Recovered <==> r.recovered >= ep.amount))
            && (HasRecovered(r) ==> (r.state == PartiallyRecovered <==> r.recovered < ep.amount))
            && (!HasRecovered(r) ==> r.recovered == 0)
  {
    TallyReadsInOrder();
    RunIsReconciled(ep, TallyOf, false);
  }
}
