/** Validated policy: quiet windows, caps, budgets and the escalation ladder. */
module Policy {
  import opened Domain

  /** Local time in India is a fixed offset from UTC. */
  const IST_OFFSET: int := 330 * MINUTE

  function LocalTimeOfDay(t: Instant): (tod: int)
    ensures 0 <= tod < DAY
  {
    (t + IST_OFFSET) % DAY
  }

  /** A daily local-time window, both ends in microseconds after local midnight. */
  datatype QuietWindow = QuietWindow(start: int, end: int) {
    ghost predicate Valid() {
      0 <= start < DAY && 0 <= end < DAY
    }

    /** The window wraps past midnight when it ends before it starts. */
    predicate Contains(localTime: int) {
      if start <= end then start <= localTime < end
      else localTime >= start || localTime < end
    }

    predicate Quiet(t: Instant) {
      Contains(LocalTimeOfDay(t))
    }

    /** The end of the window with its seconds dropped. */
    function EndMinute(): int {
      end - end % MINUTE
    }
  }

  datatype FrequencyCaps = FrequencyCaps(
    messagesPerDay: nat,
    messagesPerWeek: nat,
    voiceCallsPerWeek: nat,
    contactsPerEpisode: nat,
    cooldownAfterNoResponseHours: nat)

  datatype ContactPolicy = ContactPolicy(
    messaging: QuietWindow,
    voice: QuietWindow,
    caps: FrequencyCaps,
    requireChannelConsent: bool,
    honourDndRegistry: bool) {

    function WindowFor(channel: Channel): QuietWindow {
      if channel.Voice? then voice else messaging
    }
  }

  datatype MoneyActionPolicy = MoneyActionPolicy(
    maxRetriesPerPayment: nat,
    minGapBetweenRetriesHours: nat,
    neverRetryCauses: set<RootCause>,
    verifyBeforeRetryCauses: set<RootCause>,
    neverRouteAroundCauses: set<RootCause>)

  datatype Budgets = Budgets(
    maxActionsPerEpisode: nat,
    maxSpendPerEpisode: nat,
    maxConcessionPctOfAmount: nat,
    approvalRequiredAbove: nat,
    dailyOrgSpendCap: nat)

  datatype Precondition =
    | ChannelConsentGiven
    | VoiceConsentGiven
    | NoActiveDispute
    | NoActivePromise
    | B2bOnly
    | LedgerVerified
    | BusinessHours
    | MinAmount(paise: int)
    | Unrecognised

  datatype Rung = Rung(
    number: int,
    channels: set<Channel>,
    minDaysSincePrevious: nat,
    preconditions: seq<Precondition>)

  datatype PolicyBundle = PolicyBundle(
    contact: ContactPolicy,
    money: MoneyActionPolicy,
    budgets: Budgets,
    ladder: seq<Rung>,
    actionWindowHours: nat) {

    /** What loading enforces: rungs are numbered 1..N in order, the percentage is one,
        at least one action is allowed and the window is open for at least an hour. */
    ghost predicate Valid() {
      && contact.messaging.Valid()
      && contact.voice.Valid()
      && (forall i | 0 <= i < |ladder| :: ladder[i].number == i + 1)
      && |ladder| > 0
      && 1 <= budgets.maxActionsPerEpisode
      && budgets.maxConcessionPctOfAmount <= 100
      && 1 <= actionWindowHours <= 2160
    }
  }

  /** The first rung carrying the number, as a scan of the ladder. */
  function RungAt(ladder: seq<Rung>, n: int): (r: Option<Rung>)
    ensures r.Some? ==> r.value in ladder && r.value.number == n
  {
    if ladder == [] then None
    else if ladder[0].number == n then Some(ladder[0])
    else RungAt(ladder[1..], n)
  }

  /** On a validated ladder the scan is an index: rung n exists exactly for 1 <= n <= N. */
  lemma {:induction false} RungAtIsIndex(ladder: seq<Rung>, first: int, n: int)
    requires forall i | 0 <= i < |ladder| :: ladder[i].number == first + i
    ensures RungAt(ladder, n) ==
            if first <= n < first + |ladder| then Some(ladder[n - first]) else None
  {
    if ladder != [] && ladder[0].number != n {
      RungAtIsIndex(ladder[1..], first + 1, n);
    }
  }

  /** The never-retry list as shipped in the money policy file. */
  const SHIPPED_NEVER_RETRY: set<RootCause> :=
    {CardExpiredOrInvalid, RiskDeclined, MandateRevoked, CustomerCancelled,
     InvoiceDisputed, InvoiceForgotten, InvoiceCashCrunch}

  /** The file and the disposition table name the same causes. */
  lemma ShippedNeverRetryAgrees()
    ensures SHIPPED_NEVER_RETRY == NEVER_RETRY
  {
    assert forall c: RootCause :: c in SHIPPED_NEVER_RETRY <==> !DispositionOf(c).retryAllowed;
  }
}
