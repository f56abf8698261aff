/** What an auditor with the chain alone can read off each of its entries. */
module Auditor {
  import opened Domain
  import opened Json
  import opened Chain
  import opened Runner
  import opened Trail
  import NormalForm
  import Redaction

  /** The entry's payload holds this value under this name. */
  predicate Says(a: AuditEntry, name: string, v: Value) {
    a.payload.VDict? && NormalForm.Get(a.payload.entries, name) == Some(v)
  }

  predicate IsOf(a: AuditEntry, eventType: string, actor: string) {
    a.eventType == eventType && a.actor == actor
  }

  /** The entry tells the event: its type, who acted, and every amount, step and flag. */
  predicate Tells(a: AuditEntry, e: AuditEvent) {
    match e
    case EpisodeOpened(amount) => IsOf(a, "episode_opened", "system") && Says(a, "amount_paise", VInt(amount))
    case CostIncurred(via, amount) =>
      && IsOf(a, "cost", "system") && Says(a, "amount_paise", VInt(amount))
      && Says(a, "kind", VStr(if via == None then "llm_tokens"
                              else if via == Some(Whatsapp) then "whatsapp"
                              else if via == Some(Email) then "email"
                              else if via == Some(Voice) then "voice" else "sms"))
    case DiagnosisMade(_) => IsOf(a, "diagnosis", "system")
    case TriageDone(work) => IsOf(a, "triage", "agent") && Says(a, "work", VBool(work))
    case GateRuled(step, _, _, _) => IsOf(a, "gate_decision", "policy") && Says(a, "step", VInt(step))
    case CaptureVerified(step) => IsOf(a, "capture_verified", "system") && Says(a, "step", VInt(step))
    case ActionExecuted(step, _, channel, paid, amount) =>
      && IsOf(a, "action_executed", "system")
      && Says(a, "step", VInt(step)) && Says(a, "paid", VBool(paid)) && Says(a, "amount_paise", VInt(amount))
      && Says(a, "channel", VStr(if channel == Whatsapp then "whatsapp"
                                 else if channel == Sms then "sms"
                                 else if channel == Email then "email"
                                 else if channel == Voice then "voice" else "none"))
    case ExternalityBooked(kind, amount) =>
      && IsOf(a, "externality", "system") && Says(a, "amount_paise", VInt(amount)) && Says(a, "modelled", VBool(true))
      && Says(a, "kind", VStr(if kind == ForbiddenRetryHarm then "forbidden_retry"
                              else if kind == ComplaintHarm then "complaint"
                              else if kind == DisputeHarm then "dispute" else "opt_out"))
    case OutcomeSeen(amount, attributed) =>
      && IsOf(a, "outcome", if attributed then "system" else "provider")
      && Says(a, "kind", VStr("payment_received")) && Says(a, "amount_paise", VInt(amount))
      && Says(a, "attribution", VStr(if attributed then "direct_link" else "unattributed"))
    case EpisodeClosed(_, recovered, cost) =>
      && IsOf(a, "episode_closed", "system")
      && Says(a, "recovered_paise", VInt(recovered)) && Says(a, "cost_paise", VInt(cost))
  }

  /* ----- the names ----- */

  /** The names an event's payload uses. */
  const NAMES: seq<string> :=
    ["ref", "amount_paise", "kind", "step", "channel", "paid", "modelled", "attribution", "recovered_paise", "cost_paise", "work"]

  /** What an entry says besides goes by other names. */
  ghost predicate SpeaksApart(details: seq<(Key, Value)>) {
    forall d <- details :: StrOf(d.0) !in NAMES
  }

  /** No sensitive key has this length and begins so. */
  lemma NoSuchKey(s: string)
    requires s != []
    requires || |s| == 15 || |s| == 8 || (|s| == 3 && s[0] == 'r') || (|s| == 4 && s[0] in "kspw")
             || (|s| == 7 && s[0] == 'c') || (|s| == 11 && s[0] == 'a') || (|s| == 10 && s[0] == 'c')
             || (|s| == 12 && s[0] == 'a')
    ensures s !in SENSITIVE_KEYS
  {
  }

  lemma NamesAreNotSensitive(name: string)
    requires name in NAMES
    ensures !Sensitive(name)
  {
    NoSuchKey(Lower(name));
  }

  /* ----- what is written can be read ----- */

  /** A field can be looked up when no later one has its name. */
  lemma {:induction false} FieldIsFound(fields: seq<(Key, Value)>, j: nat)
    requires j < |fields| && forall k | j < k < |fields| :: StrOf(fields[k].0) != StrOf(fields[j].0)
    ensures NormalForm.Get(fields, StrOf(fields[j].0)) == Some(fields[j].1)
  {
    if j < |fields| - 1 {
      FieldIsFound(fields[..|fields| - 1], j);
    }
  }

  /** Details, redaction and sealing leave a field as it was. */
  lemma FieldIsSaid(chain: HashedWith, trail: seq<AuditEntry>, entry: Entry, fields: seq<(Key, Value)>, j: nat)
    requires fields == [Item("ref", VStr(chain.ref))] + Fields(entry.event) && SpeaksApart(chain.details(entry))
    requires j < |fields| && KnownField(fields[j])
    requires forall k | j < k < |fields| :: StrOf(fields[k].0) != StrOf(fields[j].0)
    ensures Says(SealedEntry(chain, trail, entry), StrOf(fields[j].0), fields[j].1)
  {
    var name, v := StrOf(fields[j].0), fields[j].1;
    var payload := PayloadOf(chain.ref, entry.event, chain.details(entry));
    FieldIsFound(fields, j);
    NormalForm.OthersHideNothing(fields, chain.details(entry), name);
    NamesAreNotSensitive(name);
    Redaction.PlainValuesExactly(chain.mask, payload.entries, name, v);
    assert SealedEntry(chain, trail, entry).payload == VDict(RedactEntries(chain.mask, payload.entries));
  }

  predicate KnownField(f: (Key, Value)) {
    StrOf(f.0) in NAMES && Redaction.TextOf(f.1).Some?
  }

  /** The fields of an event are all known and plain. */
  lemma FieldsAreKnown(e: AuditEvent, j: nat)
    requires j < |Fields(e)|
    ensures KnownField(Fields(e)[j]) && StrOf(Fields(e)[j].0) != "ref"
  {
    assert "ref" == NAMES[0] && "amount_paise" == NAMES[1] && "kind" == NAMES[2] && "step" == NAMES[3]
        && "channel" == NAMES[4] && "paid" == NAMES[5] && "modelled" == NAMES[6] && "attribution" == NAMES[7]
        && "recovered_paise" == NAMES[8] && "cost_paise" == NAMES[9] && "work" == NAMES[10];
  }

  /** And have different names. */
  lemma FieldsAreNamedApart(e: AuditEvent, j: nat, k: nat)
    requires j < k < |Fields(e)|
    ensures StrOf(Fields(e)[k].0) != StrOf(Fields(e)[j].0)
  {
  }

  ghost predicate NamedApart(fields: seq<(Key, Value)>) {
    && (forall j | 0 <= j < |fields| :: KnownField(fields[j]))
    && (forall j, k | 0 <= j < k < |fields| :: StrOf(fields[k].0) != StrOf(fields[j].0))
  }

  lemma OneMoreName(first: (Key, Value), fields: seq<(Key, Value)>)
    requires NamedApart(fields) && KnownField(first)
    requires forall j | 0 <= j < |fields| :: StrOf(fields[j].0) != StrOf(first.0)
    ensures NamedApart([first] + fields)
  {
  }

  lemma AllAreNamedApart(ref: string, e: AuditEvent)
    ensures NamedApart([Item("ref", VStr(ref))] + Fields(e))
  {
    forall j | 0 <= j < |Fields(e)| ensures KnownField(Fields(e)[j]) && StrOf(Fields(e)[j].0) != "ref" {
      FieldsAreKnown(e, j);
    }
    forall j, k | 0 <= j < k < |Fields(e)| ensures StrOf(Fields(e)[k].0) != StrOf(Fields(e)[j].0) {
      FieldsAreNamedApart(e, j, k);
    }
    assert NAMES[0] == "ref";
    OneMoreName(Item("ref", VStr(ref)), Fields(e));
  }

  ghost predicate SaysAll(a: AuditEntry, fields: seq<(Key, Value)>) {
    forall j | 0 <= j < |fields| :: Says(a, StrOf(fields[j].0), fields[j].1)
  }

  lemma EntrySaysAll(chain: HashedWith, trail: seq<AuditEntry>, entry: Entry)
    requires SpeaksApart(chain.details(entry))
    ensures SaysAll(SealedEntry(chain, trail, entry), [Item("ref", VStr(chain.ref))] + Fields(entry.event))
  {
    var fields := [Item("ref", VStr(chain.ref))] + Fields(entry.event);
    AllAreNamedApart(chain.ref, entry.event);
    forall j | 0 <= j < |fields| ensures Says(SealedEntry(chain, trail, entry), StrOf(fields[j].0), fields[j].1) {
      FieldIsSaid(chain, trail, entry, fields, j);
    }
  }

  lemma FieldsTell(a: AuditEntry, e: AuditEvent)
    requires SaysAll(a, Fields(e)) && a.eventType == EventType(e) && a.actor == Actor(e)
    ensures Tells(a, e)
  {
    var f := Fields(e);
    assert |f| > 0 ==> Says(a, StrOf(f[0].0), f[0].1);
    assert |f| > 1 ==> Says(a, StrOf(f[1].0), f[1].1);
    assert |f| > 2 ==> Says(a, StrOf(f[2].0), f[2].1);
    assert |f| > 3 ==> Says(a, StrOf(f[3].0), f[3].1);
  }

  lemma EntryTells(chain: HashedWith, trail: seq<AuditEntry>, entry: Entry)
    requires SpeaksApart(chain.details(entry))
    ensures Tells(SealedEntry(chain, trail, entry), entry.event)
    ensures Says(SealedEntry(chain, trail, entry), "ref", VStr(chain.ref))
  {
    var a := SealedEntry(chain, trail, entry);
    EntrySaysAll(chain, trail, entry);
    OfWhich(a, chain.ref, Fields(entry.event));
    FieldsTell(a, entry.event);
  }

  lemma OfWhich(a: AuditEntry, ref: string, fields: seq<(Key, Value)>)
    requires SaysAll(a, [Item("ref", VStr(ref))] + fields)
    ensures Says(a, "ref", VStr(ref)) && SaysAll(a, fields)
  {
    var all := [Item("ref", VStr(ref))] + fields;
    assert Says(a, StrOf(all[0].0), all[0].1);
    forall j | 0 <= j < |fields| ensures Says(a, StrOf(fields[j].0), fields[j].1) {
      assert all[j + 1] == fields[j];
    }
  }

  /** The entry is sealed somewhere for this event. */
  ghost predicate IsSealed(chain: HashedWith, a: AuditEntry, entry: Entry) {
    exists trail :: a == SealedEntry(chain, trail, entry)
  }

  ghost predicate AllSealed(chain: HashedWith, trail: seq<AuditEntry>, audit: seq<Entry>) {
    |trail| == |audit| && forall i | 0 <= i < |audit| :: IsSealed(chain, trail[i], audit[i])
  }

  lemma OneMoreSealed(chain: HashedWith, trail: seq<AuditEntry>, audit: seq<Entry>, a: AuditEntry, entry: Entry)
    requires AllSealed(chain, trail, audit) && IsSealed(chain, a, entry)
    ensures AllSealed(chain, trail + [a], audit + [entry])
  {
  }

  lemma {:induction false} WrittenIsSealed(chain: HashedWith, audit: seq<Entry>)
    ensures AllSealed(chain, Written(chain, audit), audit)
  {
    if audit != [] {
      var before, last := audit[..|audit| - 1], audit[|audit| - 1];
      var trail := Written(chain, before);
      WrittenIsSealed(chain, before);
      OneMoreSealed(chain, trail, before, SealedEntry(chain, trail, last), last);
      assert audit == before + [last];
    }
  }

  /** Whoever holds the chain of a run can read off entry by entry what happened: in its
      order, at its instant, of which payment, and with every amount, step and flag. */
  lemma ChainTellsTheTrail(chain: HashedWith, ep: Episode, i: nat)
    requires i < |RunEpisode(ep).audit| && forall entry <- RunEpisode(ep).audit :: SpeaksApart(chain.details(entry))
    ensures var entry, trail := RunEpisode(ep).audit[i], Written(chain, RunEpisode(ep).audit);
            && |trail| == |RunEpisode(ep).audit|
            && trail[i].at == chain.clock(entry.at) && Says(trail[i], "ref", VStr(chain.ref))
            && Tells(trail[i], entry.event)
  {
    var audit := RunEpisode(ep).audit;
    assert audit[i] in audit;
    WrittenIsSealed(chain, audit);
    assert IsSealed(chain, Written(chain, audit)[i], audit[i]);
    var before :| Written(chain, audit)[i] == SealedEntry(chain, before, audit[i]);
    EntryTells(chain, before, audit[i]);
  }
}
