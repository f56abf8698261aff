/** A run written to the hash chain, and the ledger read back off it. */
module Trail {
  import opened Domain
  import opened Json
  import opened Chain
  import opened Runner
  import Ledger
  import NormalForm
  import Redaction

  function ChannelName(c: Channel): string {
    match c
    case Whatsapp => "whatsapp"
    case Sms => "sms"
    case Email => "email"
    case Voice => "voice"
    case NoChannel => "none"
  }

  function CostName(via: Option<Channel>): string {
    match via
    case None => "llm_tokens"
    case Some(NoChannel) => "sms"
    case Some(c) => ChannelName(c)
  }

  function HarmName(kind: ExternalityKind): string {
    match kind
    case ForbiddenRetryHarm => "forbidden_retry"
    case ComplaintHarm => "complaint"
    case DisputeHarm => "dispute"
    case OptOutHarm => "opt_out"
  }

  function EventType(e: AuditEvent): string {
    match e
    case EpisodeOpened(_) => "episode_opened"
    case CostIncurred(_, _) => "cost"
    case DiagnosisMade(_) => "diagnosis"
    case TriageDone(_) => "triage"
    case GateRuled(_, _, _, _) => "gate_decision"
    case CaptureVerified(_) => "capture_verified"
    case ActionExecuted(_, _, _, _, _) => "action_executed"
    case ExternalityBooked(_, _) => "externality"
    case OutcomeSeen(_, _) => "outcome"
    case EpisodeClosed(_, _, _) => "episode_closed"
  }

  function Actor(e: AuditEvent): string {
    match e
    case TriageDone(_) => "agent"
    case GateRuled(_, _, _, _) => "policy"
    case OutcomeSeen(_, attributed) => if attributed then "system" else "provider"
    case _ => "system"
  }

  function Item(name: string, v: Value): (Key, Value) {
    (StrKey(name), v)
  }

  /** The amounts, flags and steps of an event's payload. */
  function Fields(e: AuditEvent): seq<(Key, Value)> {
    match e
    case EpisodeOpened(amount) => [Item("amount_paise", VInt(amount))]
    case CostIncurred(via, amount) => [Item("kind", VStr(CostName(via))), Item("amount_paise", VInt(amount))]
    case GateRuled(step, _, _, _) => [Item("step", VInt(step))]
    case CaptureVerified(step) => [Item("step", VInt(step))]
    case ActionExecuted(step, _, channel, paid, amount) =>
      [Item("step", VInt(step)), Item("channel", VStr(ChannelName(channel))), Item("paid", VBool(paid)),
       Item("amount_paise", VInt(amount))]
    case ExternalityBooked(kind, amount) =>
      [Item("kind", VStr(HarmName(kind))), Item("amount_paise", VInt(amount)), Item("modelled", VBool(true))]
    case OutcomeSeen(amount, attributed) =>
      [Item("kind", VStr("payment_received")), Item("amount_paise", VInt(amount)),
       Item("attribution", VStr(if attributed then "direct_link" else "unattributed"))]
    case EpisodeClosed(_, recovered, cost) =>
      [Item("recovered_paise", VInt(recovered)), Item("cost_paise", VInt(cost))]
    case TriageDone(work) => [Item("work", VBool(work))]
    case DiagnosisMade(_) => []
  }

  /** Whatever else a payload says, reasons and free text: anything but an amount. */
  type Details = d: seq<(Key, Value)> | forall e <- d :: StrOf(e.0) != "amount_paise" witness []

  function PayloadOf(ref: string, e: AuditEvent, details: Details): Value {
    VDict([Item("ref", VStr(ref))] + Fields(e) + details)
  }

  function SealedEntry(chain: HashedWith, trail: seq<AuditEntry>, entry: Entry): AuditEntry {
    var e := entry.event;
    Sealed(chain.hash, chain.mask, trail, chain.clock(entry.at), Actor(e), EventType(e), PayloadOf(chain.ref, e, chain.details(entry)),
           None)
  }

  function Write(chain: HashedWith, trail: seq<AuditEntry>, entry: Entry): seq<AuditEntry> {
    trail + [SealedEntry(chain, trail, entry)]
  }

  /** What a run's chain is made with: the hash, the salted digest, the calendar, the ref and
      what each entry says besides. */
  datatype HashedWith = HashedWith(
    hash: string -> string,
    mask: string -> string,
    clock: Instant -> Stamp,
    ref: string,
    details: Entry -> Details)

  function Written(chain: HashedWith, audit: seq<Entry>): seq<AuditEntry> {
    if audit == [] then []
    else Write(chain, Written(chain, audit[..|audit| - 1]), audit[|audit| - 1])
  }

  /** The engine writes through the chain, one entry at a time. */
  method WriteTrail(chain: HashedWith, audit: seq<Entry>) returns (log: HashChain)
    requires IsDigest(chain.hash)
    ensures fresh(log) && log.Valid()
    ensures log.entries == Written(chain, audit)
  {
    log := new HashChain(chain.hash, chain.mask);
    for i := 0 to |audit|
      invariant log.Valid() && log.hash == chain.hash && log.mask == chain.mask
      invariant fresh(log)
      invariant log.entries == Written(chain, audit[..i])
    {
      assert audit[..i + 1][..i] == audit[..i];
      var e := audit[i].event;
      var payload := PayloadOf(chain.ref, e, chain.details(audit[i]));
      var _ := log.Append(chain.clock(audit[i].at), Actor(e), EventType(e), payload, None);
    }
    assert audit[..|audit|] == audit;
  }

  lemma {:induction false} WrittenIsChain(chain: HashedWith, audit: seq<Entry>)
    requires IsDigest(chain.hash)
    ensures IsChain(chain.hash, Written(chain, audit))
  {
    if audit != [] {
      var trail := Written(chain, audit[..|audit| - 1]);
      WrittenIsChain(chain, audit[..|audit| - 1]);
      HeadLength(chain.hash, trail);
      AppendKeepsChain(chain.hash, trail, Written(chain, audit)[|trail|]);
    }
  }

  /* ----- an auditor with the chain alone ----- */

  /** The amount an entry states, if its type is the one asked for. */
  function AmountOf(e: AuditEntry, eventType: string): Paise {
    if e.eventType == eventType && e.payload.VDict? then
      match NormalForm.Get(e.payload.entries, "amount_paise")
      case Some(VInt(amount)) => amount
      case _ => 0
    else 0
  }

  function SumOf(trail: seq<AuditEntry>, eventType: string): Paise {
    if trail == [] then 0
    else SumOf(trail[..|trail| - 1], eventType) + AmountOf(trail[|trail| - 1], eventType)
  }

  function CountOf(trail: seq<AuditEntry>, eventType: string): nat {
    if trail == [] then 0
    else CountOf(trail[..|trail| - 1], eventType) + (if trail[|trail| - 1].eventType == eventType then 1 else 0)
  }

  /** No sensitive key is a twelve-letter word in `a`. */
  lemma NoSuchSensitiveKey(s: string)
    requires |s| == 12 && s[0] == 'a'
    ensures s !in SENSITIVE_KEYS
  {
  }

  lemma AmountIsNotSensitive()
    ensures !Sensitive("amount_paise")
  {
    NoSuchSensitiveKey(Lower("amount_paise"));
  }

  /** The amount in the payload, before redaction. */
  lemma AmountIsThere(ref: string, e: AuditEvent, details: Details)
    requires e.OutcomeSeen? || e.CostIncurred? || e.ExternalityBooked?
    ensures NormalForm.Get(PayloadOf(ref, e, details).entries, "amount_paise") == Some(VInt(e.amount))
  {
    var all := [Item("ref", VStr(ref))] + Fields(e);
    NormalForm.OthersHideNothing(all, details, "amount_paise");
    assert all[2] == Item("amount_paise", VInt(e.amount));
    if |all| == 4 {
      assert StrOf(all[3].0) != "amount_paise";
      assert all[..3][2] == all[2];
    }
  }

  lemma SealedReading(chain: HashedWith, trail: seq<AuditEntry>, at: Stamp, actor: string, eventType: string,
                      entries: seq<(Key, Value)>, amount: Paise)
    requires NormalForm.Get(entries, "amount_paise") == Some(VInt(amount))
    ensures AmountOf(Sealed(chain.hash, chain.mask, trail, at, actor, eventType, VDict(entries), None), eventType)
            == amount
  {
    AmountIsNotSensitive();
    Redaction.AmountsSurvive(chain.mask, entries, "amount_paise", amount);
    var sealed := Sealed(chain.hash, chain.mask, trail, at, actor, eventType, VDict(entries), None);
    assert sealed.payload == VDict(RedactEntries(chain.mask, entries));
  }

  /** Redaction and sealing keep the amount an event states. */
  lemma SealedAmount(chain: HashedWith, trail: seq<AuditEntry>, entry: Entry)
    requires entry.event.OutcomeSeen? || entry.event.CostIncurred? || entry.event.ExternalityBooked?
    ensures AmountOf(SealedEntry(chain, trail, entry), EventType(entry.event)) == entry.event.amount
  {
    var e := entry.event;
    var details := chain.details(entry);
    AmountIsThere(chain.ref, e, details);
    SealedReading(chain, trail, chain.clock(entry.at), Actor(e), EventType(e), PayloadOf(chain.ref, e, details).entries,
                  e.amount);
  }

  /** Whether an event is of the kind called `eventType`. */
  predicate Counts(e: AuditEvent, eventType: string) {
    EventType(e) == eventType
  }

  lemma KindsAreNamedApart(e: AuditEvent)
    ensures Counts(e, "outcome") <==> e.OutcomeSeen?
    ensures Counts(e, "cost") <==> e.CostIncurred?
    ensures Counts(e, "externality") <==> e.ExternalityBooked?
  {
  }

  lemma SumGrows(chain: HashedWith, trail: seq<AuditEntry>, entry: Entry, eventType: string)
    requires eventType in ["outcome", "cost", "externality"]
    ensures SumOf(Write(chain, trail, entry), eventType) ==
            SumOf(trail, eventType) + Ledger.AmountIf(entry.event, Counts(entry.event, eventType))
    ensures CountOf(Write(chain, trail, entry), eventType) ==
            CountOf(trail, eventType) + Ledger.OneIf(Counts(entry.event, eventType))
  {
    var longer := Write(chain, trail, entry);
    assert longer[..|longer| - 1] == trail;
    KindsAreNamedApart(entry.event);
    if Counts(entry.event, eventType) {
      SealedAmount(chain, trail, entry);
    }
  }

  /** The amounts of one kind of event, before any of it is written down. */
  function EventSum(audit: seq<Entry>, eventType: string): Paise {
    if audit == [] then 0
    else
      var e := audit[|audit| - 1].event;
      EventSum(audit[..|audit| - 1], eventType) + Ledger.AmountIf(e, Counts(e, eventType))
  }

  function EventCount(audit: seq<Entry>, eventType: string): nat {
    if audit == [] then 0
    else
      EventCount(audit[..|audit| - 1], eventType) + Ledger.OneIf(Counts(audit[|audit| - 1].event, eventType))
  }

  lemma {:induction false} TrailKeepsEvents(chain: HashedWith, audit: seq<Entry>, eventType: string)
    requires eventType in ["outcome", "cost", "externality"]
    ensures SumOf(Written(chain, audit), eventType) == EventSum(audit, eventType)
    ensures CountOf(Written(chain, audit), eventType) == EventCount(audit, eventType)
  {
    if audit != [] {
      var n := |audit| - 1;
      TrailKeepsEvents(chain, audit[..n], eventType);
      SumGrows(chain, Written(chain, audit[..n]), audit[n], eventType);
    }
  }

  lemma {:induction false} EventsMakeTally(audit: seq<Entry>)
    ensures EventSum(audit, "outcome") == Ledger.TallyOf(audit).outcomes
    ensures EventSum(audit, "cost") == Ledger.TallyOf(audit).costs
    ensures EventSum(audit, "externality") == Ledger.TallyOf(audit).externalities
    ensures EventCount(audit, "outcome") == Ledger.TallyOf(audit).outcomeCount
  {
    if audit != [] {
      var n := |audit| - 1;
      EventsMakeTally(audit[..n]);
      KindsAreNamedApart(audit[n].event);
      assert Ledger.TallyOf(audit) == Ledger.Post(Ledger.TallyOf(audit[..n]), audit[n].event);
    }
  }

  /** Whoever holds the chain alone can redo the books: in every run the chain verifies, the
      redacted amounts of its outcome, cost and externality entries add up to the ledger,
      and it holds one outcome entry when the run recovered and none when it did not. */
  lemma ChainReconcilesWithLedger(chain: HashedWith, ep: Episode)
    requires IsDigest(chain.hash)
    ensures var r := RunEpisode(ep).result;
            var trail := Written(chain, RunEpisode(ep).audit);
            && IsChain(chain.hash, trail)
            && SumOf(trail, "outcome") == r.recovered
            && SumOf(trail, "cost") == r.cost
            && SumOf(trail, "externality") == r.externality
            && CountOf(trail, "outcome") == (if HasRecovered(r) then 1 else 0)
  {
    WrittenIsChain(chain, RunEpisode(ep).audit);
    var audit := RunEpisode(ep).audit;
    TrailKeepsEvents(chain, audit, "outcome");
    TrailKeepsEvents(chain, audit, "cost");
    TrailKeepsEvents(chain, audit, "externality");
    EventsMakeTally(audit);
    Ledger.RunReconciles(ep);
  }
}
