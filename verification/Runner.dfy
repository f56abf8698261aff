/** One recovery episode, from open to a terminal state. The functions are the
    specification; `EpisodeRunner` is the engine as it runs. */
module Runner {
  import opened Domain
  import opened Policy
  import opened Gate

  /** Absolute bound on loop iterations, independent of policy. */
  const MAX_STEPS: nat := 24

  datatype StrategyContext = StrategyContext(now: Instant, stepNo: nat, actionsTaken: nat, contactsMade: nat)

  datatype Interaction = Interaction(tool: Tool, at: Instant, channel: Channel, concession: Paise, contactIndex: nat)

  datatype Reaction = Reaction(paid: bool, amount: Paise, optedOut: bool, complained: bool, disputed: bool)

  datatype Rates = Rates(
    channels: map<Channel, nat>,
    complaint: Paise,
    dispute: Paise,
    forbiddenRetry: Paise,
    optOut: Paise)

  /** Everything a run is given. The strategy and the world are arbitrary: each may answer
      differently at every step. `triage` is the verdict, when a scorer is present. */
  datatype Episode = Episode(
    policy: PolicyBundle,
    rates: Rates,
    occurredAt: Instant,
    amount: Paise,
    trueCause: RootCause,
    selfRecoveryAt: Option<Instant>,
    consent: set<Channel>,
    isBusiness: bool,
    watchUntil: Instant,
    diagnosis: Option<Diagnosis>,
    tokenCost: nat,
    triage: Option<bool>,
    strategy: StrategyContext -> Option<ProposedAction>,
    world: (Interaction, nat) -> Reaction)

  datatype ExternalityKind = ForbiddenRetryHarm | ComplaintHarm | DisputeHarm | OptOutHarm

  datatype AuditEvent =
    | EpisodeOpened(amount: Paise)
    | CostIncurred(via: Option<Channel>, amount: Paise)
    | DiagnosisMade(cause: RootCause)
    | TriageDone(work: bool)
    | GateRuled(step: nat, tool: Tool, verdict: Verdict, reasons: seq<Reason>)
    | CaptureVerified(step: nat)
    | ActionExecuted(step: nat, tool: Tool, channel: Channel, paid: bool, amount: Paise)
    | ExternalityBooked(kind: ExternalityKind, amount: Paise)
    | OutcomeSeen(amount: Paise, attributed: bool)
    | EpisodeClosed(state: EpisodeState, recovered: Paise, cost: Paise)

  datatype Entry = Entry(at: Instant, event: AuditEvent)

  datatype Result = Result(
    state: EpisodeState,
    recovered: Paise,
    cost: Paise,
    externality: Paise,
    actionsTaken: nat,
    contactsMade: nat,
    retries: nat,
    denials: nat,
    modifications: nat,
    optedOut: bool,
    complained: bool,
    disputed: bool,
    escalated: bool,
    forbiddenRetries: nat,
    selfRecovered: bool,
    skippedByTriage: bool,
    timeToRecovery: Option<int>,
    denialReasons: seq<Reason>)

  /** An action handed to the actuator, and when. */
  datatype Execution = Execution(action: ProposedAction, at: Instant)

  datatype RunState = RunState(
    now: Instant,
    step: nat,
    lastRetryAt: Option<Instant>,
    history: seq<ContactRecord>,
    result: Result,
    audit: seq<Entry>,
    executed: seq<Execution>) {

    function Log(at: Instant, e: AuditEvent): RunState {
      this.(audit := audit + [Entry(at, e)])
    }
  }

  const FRESH_RESULT: Result :=
    Result(Ingested, 0, 0, 0, 0, 0, 0, 0, 0, false, false, false, false, 0, false, false, None, [])

  function Horizon(ep: Episode): Instant {
    ep.occurredAt + ep.policy.actionWindowHours * HOUR
  }

  predicate IsContact(action: ProposedAction) {
    action.tool in CONTACT_ACTIONS && action.args.channel != NoChannel
  }

  function Cause(ep: Episode): RootCause {
    if ep.diagnosis.Some? then ep.diagnosis.value.rootCause else UnknownCause
  }

  function GateContextAt(ep: Episode, s: RunState, when: Instant): GateContext {
    var r := s.result;
    GateContext(
      when, Cause(ep), ep.amount,
      if ep.diagnosis.Some? then ep.diagnosis.value.alternativeCause else None,
      if ep.diagnosis.Some? then ep.diagnosis.value.riskHypothesis else None,
      if ep.diagnosis.Some? then ep.diagnosis.value.confidence else 1.0,
      r.actionsTaken, r.contactsMade, r.cost, r.retries, s.lastRetryAt,
      s.history, ep.consent, false, r.optedOut, Cause(ep) != MandateRevoked, ep.isBusiness,
      |s.history|, if s.history == [] then None else Some(s.history[|s.history| - 1].at),
      None, r.disputed, true, true, 0, false)
  }

  /** A payment that comes of itself: no action is credited with it. */
  function SelfRecover(ep: Episode, s: RunState, now: Instant): (RunState, bool) {
    if ep.selfRecoveryAt.None? || now < ep.selfRecoveryAt.value then (s, false)
    else
      var at := ep.selfRecoveryAt.value;
      var r := s.result.(recovered := s.result.recovered + ep.amount, selfRecovered := true, state := Recovered,
                         timeToRecovery := Some(at - ep.occurredAt));
      (s.(result := r).Log(at, OutcomeSeen(ep.amount, false)), true)
  }

  function Book(s: RunState, kind: ExternalityKind, amount: Paise): RunState {
    if amount <= 0 then s
    else
      s.(result := s.result.(externality := s.result.externality + amount))
      .Log(s.now, ExternalityBooked(kind, amount))
  }

  function Stop(s: RunState, state: EpisodeState): RunState {
    s.(result := s.result.(state := state))
  }

  function UnitCost(ep: Episode, channel: Channel): nat {
    if channel in ep.rates.channels then ep.rates.channels[channel] else 0
  }

  function Charge(ep: Episode, s: RunState, channel: Channel): RunState {
    var unit := UnitCost(ep, channel);
    s.(result := s.result.(cost := s.result.cost + unit)).Log(s.now, CostIncurred(Some(channel), unit))
  }

  function CountAction(s: RunState): RunState {
    s.(result := s.result.(actionsTaken := s.result.actionsTaken + 1))
  }

  /** A retry is counted, and when the true cause forbids it the harm is booked. */
  function CountRetry(ep: Episode, s: RunState): (t: RunState)
    ensures t.step == s.step && t.now == s.now
  {
    var r := s.result.(retries := s.result.retries + 1);
    if ep.trueCause in NEVER_RETRY then
      Book(s.(result := r.(forbiddenRetries := r.forbiddenRetries + 1)), ForbiddenRetryHarm, ep.rates.forbiddenRetry)
    else s.(result := r)
  }

  function CountContact(ep: Episode, s: RunState, channel: Channel): RunState {
    Charge(ep, s.(result := s.result.(contactsMade := s.result.contactsMade + 1)), channel)
  }

  /** Counting the action and charging for it, before the world answers. */
  function Spend(ep: Episode, s: RunState, action: ProposedAction): (t: RunState)
    ensures t.step == s.step && t.now == s.now
  {
    var s1 := CountAction(s);
    var s2 := if action.tool == RetryPayment then CountRetry(ep, s1) else s1;
    if IsContact(action) then CountContact(ep, s2, action.args.channel) else s2
  }

  function Answer(ep: Episode, s: RunState, action: ProposedAction): Reaction {
    var made := s.result.contactsMade;
    ep.world(Interaction(action.tool, s.now, action.args.channel, action.args.valuePaise,
                         if made == 0 then 0 else made - 1), s.step)
  }

  function Record(s: RunState, action: ProposedAction, reaction: Reaction): RunState {
    (if IsContact(action) then
       s.(history := s.history + [ContactRecord(s.now, action.args.channel, reaction.paid)])
     else s)
    .Log(s.now, ActionExecuted(s.step, action.tool, action.args.channel, reaction.paid, reaction.amount))
  }

  function Complain(ep: Episode, s: RunState): (t: RunState)
    ensures t.step == s.step && t.now == s.now
  {
    Book(s.(result := s.result.(complained := true)), ComplaintHarm, ep.rates.complaint)
  }

  function Dispute(ep: Episode, s: RunState): (t: RunState)
    ensures t.step == s.step && t.now == s.now
  {
    Stop(Book(s.(result := s.result.(disputed := true)), DisputeHarm, ep.rates.dispute), Suppressed)
  }

  function OptedOutNow(ep: Episode, s: RunState): (t: RunState)
    ensures t.step == s.step && t.now == s.now
  {
    Stop(Book(s.(result := s.result.(optedOut := true)), OptOutHarm, ep.rates.optOut), Suppressed)
  }

  function Pay(ep: Episode, s: RunState, amount: Paise): RunState {
    s.(result := s.result.(recovered := s.result.recovered + amount,
                           timeToRecovery := Some(s.now - ep.occurredAt),
                           state := if amount >= ep.amount then Recovered else PartiallyRecovered))
    .Log(s.now, OutcomeSeen(amount, true))
  }

  /** Taking in what the world answered: a dispute outranks an opt-out, which outranks a
      payment. The flag says the episode is over. */
  function React(ep: Episode, s: RunState, action: ProposedAction, reaction: Reaction): (r: (RunState, bool))
    ensures r.0.step == s.step && r.0.now == s.now
  {
    var s1 := Record(s, action, reaction);
    var s2 := if reaction.complained then Complain(ep, s1) else s1;
    if reaction.disputed then (Dispute(ep, s2), true)
    else if reaction.optedOut then (OptedOutNow(ep, s2), true)
    else if reaction.paid then (Pay(ep, s2, reaction.amount), true)
    else (s2, false)
  }

  /** Perform one approved action. The flag says the episode is over. */
  function Execute(ep: Episode, s0: RunState, action: ProposedAction): (r: (RunState, bool))
    ensures r.0.step == s0.step && r.0.now == s0.now
  {
    var s := s0.(executed := s0.executed + [Execution(action, s0.now)]);
    match action.tool
    case CloseEpisode => (s.(result := s.result.(state := Unrecoverable)), true)
    case EscalateToHuman => (s.(result := s.result.(state := Escalated, escalated := true)), true)
    case VerifyPaymentClaim =>
      (s.(result := s.result.(actionsTaken := s.result.actionsTaken + 1)).Log(s.now, CaptureVerified(s.step)), false)
    case _ =>
      var spent := Spend(ep, s, action);
      React(ep, spent, action, Answer(ep, spent, action))
  }

  /** Denials that end the episode rather than ask for another plan. */
  function TerminalDenial(why: Reason): Option<EpisodeState> {
    match why
    case Because(NeverRetryCause(_)) => Some(Unrecoverable)
    case Because(NeverRouteAroundCause(_)) => Some(Unrecoverable)
    case Because(OptedOut) => Some(Suppressed)
    case Because(OnDndRegistry) => Some(Suppressed)
    case Because(BudgetActionsExhausted) => Some(Exhausted)
    case Because(BudgetSpendExhausted) => Some(Exhausted)
    case Because(EpisodeContactCap) => Some(Exhausted)
    case Because(LadderExhausted) => Some(Escalated)
    case _ => None
  }

  function FirstTerminal(reasons: seq<Reason>): Option<EpisodeState> {
    if reasons == [] then None
    else if TerminalDenial(reasons[0]).Some? then TerminalDenial(reasons[0])
    else FirstTerminal(reasons[1..])
  }

  function AfterDenial(s: RunState, reasons: seq<Reason>): (r: (RunState, bool))
    ensures !r.1 ==> r.0.step == s.step + 1
  {
    var s1 := s.(step := s.step + 1,
                 result := s.result.(denials := s.result.denials + 1,
                                     denialReasons := s.result.denialReasons + reasons));
    var over := FirstTerminal(reasons);
    if over.Some? then (Stop(s1, over.value), true) else (s1, false)
  }

  function Perform(ep: Episode, s: RunState, action: ProposedAction): (r: (RunState, bool))
    ensures r.0.step == s.step + 1
  {
    var s1 := if action.tool == RetryPayment then s.(lastRetryAt := Some(s.now)) else s;
    var (s2, over) := Execute(ep, s1, action);
    (s2.(step := s2.step + 1), over)
  }

  /** Advance the clock to the approved instant and act, unless self-recovery got there first. */
  function AfterApproval(ep: Episode, s: RunState, action: ProposedAction, when: Instant): (r: (RunState, bool))
    ensures !r.1 ==> r.0.step == s.step + 1
  {
    var s1 := s.(now := Max(s.now, if action.scheduledFor.Some? then action.scheduledFor.value else when));
    var (s2, recovered) := SelfRecover(ep, s1, s1.now);
    if recovered then (s2, true) else Perform(ep, s2, action)
  }

  /** The gate's decision noted in the audit trail, and counted when it is a rewrite. */
  function Noted(s: RunState, proposal: ProposedAction, decision: GateDecision, when: Instant): (t: RunState)
    ensures t.now == s.now && t.step == s.step && t.executed == s.executed
  {
    var s1 := s.Log(when, GateRuled(s.step, proposal.tool, decision.verdict, decision.reasons));
    if decision.verdict == Modify then s1.(result := s1.result.(modifications := s1.result.modifications + 1)) else s1
  }

  /** Act on the gate's decision. */
  function Settle(ep: Episode, s: RunState, proposal: ProposedAction, decision: GateDecision, when: Instant)
    : (r: (RunState, bool))
    requires decision.verdict == Deny <==> decision.action.None?
    ensures !r.1 ==> r.0.step == s.step + 1
  {
    var s1 := Noted(s, proposal, decision, when);
    if decision.verdict == Deny then AfterDenial(s1, decision.reasons)
    else AfterApproval(ep, s1, decision.action.value, when)
  }

  function Proposal(ep: Episode, s: RunState): Option<ProposedAction> {
    ep.strategy(StrategyContext(s.now, s.step, s.result.actionsTaken, s.result.contactsMade))
  }

  /** The moment the gate is asked about. */
  function When(s: RunState, proposal: ProposedAction): Instant {
    if proposal.scheduledFor.Some? then Max(s.now, proposal.scheduledFor.value) else s.now
  }

  /** One iteration. The flag says the loop breaks. */
  function Iterate(ep: Episode, s: RunState): (r: (RunState, bool))
    ensures !r.1 ==> r.0.step == s.step + 1
  {
    var (s1, recovered) := SelfRecover(ep, s, s.now);
    if recovered then (s1, true)
    else
      var proposed := Proposal(ep, s);
      if proposed.None? then
        (Stop(s, if s.result.actionsTaken > 0 then Exhausted else SkippedNegativeEv), true)
      else
        var proposal := proposed.value;
        var when := When(s, proposal);
        if when > Horizon(ep) && proposal.tool !in ALWAYS_ALLOWED then (Stop(s, Exhausted), true)
        else
          Settle(ep, s, proposal, Ruling(proposal, GateContextAt(ep, s, when), ep.policy), when)
  }

  /** The whole loop: break, or run out of steps. */
  function Loop(ep: Episode, s: RunState): RunState
    decreases MAX_STEPS - s.step
  {
    if s.step >= MAX_STEPS then Stop(s, Exhausted)
    else
      var (next, broke) := Iterate(ep, s);
      if broke then next else Loop(ep, next)
  }

  function HasRecovered(r: Result): bool {
    r.state == Recovered || r.state == PartiallyRecovered
  }

  /** What the diagnosis cost in tokens, when it cost anything. */
  function ChargeTokens(ep: Episode, s: RunState): RunState {
    if ep.tokenCost == 0 then s
    else s.(result := s.result.(cost := s.result.cost + ep.tokenCost)).Log(s.now, CostIncurred(None, ep.tokenCost))
  }

  function NoteDiagnosis(ep: Episode, s: RunState): RunState {
    if ep.diagnosis.Some? then s.Log(s.now, DiagnosisMade(ep.diagnosis.value.rootCause)) else s
  }

  function NoteTriage(ep: Episode, s: RunState): RunState {
    if ep.triage.Some? then s.Log(s.now, TriageDone(ep.triage.value)) else s
  }

  function Begin(ep: Episode): RunState {
    RunState(ep.occurredAt, 0, None, [], FRESH_RESULT, [], []).Log(ep.occurredAt, EpisodeOpened(ep.amount))
  }

  function Open(ep: Episode): RunState {
    NoteTriage(ep, NoteDiagnosis(ep, ChargeTokens(ep, Begin(ep))))
  }

  function Close(s: RunState): RunState {
    s.Log(s.now, EpisodeClosed(s.result.state, s.result.recovered, s.result.cost))
  }

  /** After the loop a payment that comes of itself is still looked for, until `watchUntil`;
      a run that came to no end otherwise is exhausted. */
  function Watch(ep: Episode, s: RunState): RunState {
    var s1 := if HasRecovered(s.result) then s else SelfRecover(ep, s, ep.watchUntil).0;
    if s1.result.state in {Ingested, Observed} then Stop(s1, Exhausted) else s1
  }

  /** The specification of a run. */
  function RunEpisode(ep: Episode): RunState {
    var begun := Open(ep);
    if ep.triage == Some(false) then
      var skipped := begun.(result := begun.result.(state := SkippedNegativeEv, skippedByTriage := true));
      Close(SelfRecover(ep, skipped, ep.watchUntil).0)
    else Close(Watch(ep, Loop(ep, begun)))
  }
}
