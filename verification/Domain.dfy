/** The closed vocabulary of the engine: causes, tools, channels, states, money and time. */
module Domain {

  datatype Option<+T> = None | Some(value: T)

  /** An instant, in whole microseconds. */
  type Instant = int
  type Paise = int

  const MINUTE: int := 60_000_000
  const HOUR: int := 60 * MINUTE
  const DAY: int := 24 * HOUR

  datatype Surface = Payment | Mandate | Receivable

  datatype RootCause =
    | InsufficientFunds
    | AuthenticationFailed
    | IssuerDown
    | GatewayError
    | TechnicalTimeout
    | CardExpiredOrInvalid
    | LimitExceeded
    | RiskDeclined
    | CustomerCancelled
    | MandateRevoked
    | MandateInsufficient
    | InvoiceDisputed
    | InvoiceForgotten
    | InvoiceCashCrunch
    | UnknownCause

  /** The two columns of the disposition table the gate reads. */
  datatype Disposition = Disposition(retryAllowed: bool, contactCustomer: bool)

  function DispositionOf(cause: RootCause): Disposition {
    match cause
    case InsufficientFunds => Disposition(true, true)
    case AuthenticationFailed => Disposition(true, true)
    case IssuerDown => Disposition(true, false)
    case GatewayError => Disposition(true, false)
    case TechnicalTimeout => Disposition(true, false)
    case CardExpiredOrInvalid => Disposition(false, true)
    case LimitExceeded => Disposition(true, true)
    case RiskDeclined => Disposition(false, false)
    case CustomerCancelled => Disposition(false, true)
    case MandateRevoked => Disposition(false, true)
    case MandateInsufficient => Disposition(true, true)
    case InvoiceDisputed => Disposition(false, false)
    case InvoiceForgotten => Disposition(false, true)
    case InvoiceCashCrunch => Disposition(false, true)
    case UnknownCause => Disposition(true, true)
  }

  /** Causes whose payment must never be presented again. */
  const NEVER_RETRY: set<RootCause> := set c: RootCause | !DispositionOf(c).retryAllowed

  datatype EpisodeState =
    | Ingested
    | Triaged
    | Diagnosed
    | Planned
    | Gated
    | Acting
    | Waiting
    | Observed
    | Promised
    | Recovered
    | PartiallyRecovered
    | SkippedNegativeEv
    | Unrecoverable
    | Suppressed
    | Exhausted
    | Escalated
    | Failed

  const TERMINAL_STATES: set<EpisodeState> :=
    {Recovered, PartiallyRecovered, SkippedNegativeEv, Unrecoverable, Suppressed, Exhausted, Escalated, Failed}

  datatype Tool =
    | RetryPayment
    | CreatePaymentLink
    | RequestMandateReauth
    | SendMessage
    | OfferConcession
    | PlaceVoiceCall
    | RecordPromiseToPay
    | VerifyPaymentClaim
    | EscalateToHuman
    | CloseEpisode

  const ALWAYS_ALLOWED: set<Tool> := {EscalateToHuman, CloseEpisode}
  const MONEY_ACTIONS: set<Tool> := {RetryPayment, CreatePaymentLink, RequestMandateReauth, OfferConcession}
  const CONTACT_ACTIONS: set<Tool> := {SendMessage, PlaceVoiceCall, RequestMandateReauth}

  datatype Channel = Whatsapp | Sms | Email | Voice | NoChannel

  /** The arguments of an action once decoded: a missing or unreadable channel is
      NoChannel, an unreadable concession is worth nothing. */
  datatype Args = Args(
    channel: Channel,
    rung: Option<int>,
    valuePaise: Paise,
    humanApproved: bool,
    recipientIsThirdParty: bool)

  datatype ProposedAction = ProposedAction(tool: Tool, args: Args, scheduledFor: Option<Instant>)

  datatype Diagnosis = Diagnosis(
    rootCause: RootCause,
    confidence: real,
    alternativeCause: Option<RootCause>,
    riskHypothesis: Option<RootCause>)

  function Max(a: int, b: int): (m: int)
    ensures m == a || m == b
    ensures a <= m && b <= m
  {
    if a < b then b else a
  }
}
