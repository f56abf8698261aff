/** The audit hash chain: what each entry commits to, appending and walking. */
module Chain {
  import opened Domain
  import opened Text
  import opened Json

  /* ----- time stamps ----- */

  /** An instant converted to UTC. */
  datatype UtcTime = UtcTime(
    year: nat, month: nat, day: nat, hour: nat, minute: nat, second: nat, micro: nat)
  {
    predicate InRange() {
      && 1 <= year <= 9999 && 1 <= month <= 12 && 1 <= day <= 31
      && hour < 24 && minute < 60 && second < 60 && micro < 1_000_000
    }
  }

  type Stamp = t: UtcTime | t.InRange() witness UtcTime(1970, 1, 1, 0, 0, 0, 0)

  /** The last `width` decimal digits of `n`, zero-padded. */
  function Pad(n: nat, width: nat): (s: string)
    ensures |s| == width && AllDigits(s)
  {
    if width == 0 then [] else Pad(n / 10, width - 1) + [DigitOf(n % 10)]
  }

  /** ISO 8601 in UTC with microseconds and an explicit offset. */
  function Iso(t: Stamp): string {
    Pad(t.year, 4) + (['-'] + (Pad(t.month, 2) + (['-'] + (Pad(t.day, 2) + (['T'] + ClockText(t))))))
  }

  function ClockText(t: Stamp): string {
    Pad(t.hour, 2) + ([':'] + (Pad(t.minute, 2) + ([':'] + (Pad(t.second, 2) + (['.'] + (Pad(t.micro, 6) + "+00:00"))))))
  }

  /* ----- personal data ----- */

  const SENSITIVE_KEYS: set<string> := {
    "phone", "phone_number", "msisdn", "email", "email_address",
    "name", "full_name", "contact_name", "address", "vpa", "upi_id",
    "card_number", "last4", "account_number", "ifsc", "pan", "gstin",
    "message_body", "reply_text"
  }

  function LowerChar(c: char): char {
    if 'A' <= c <= 'Z' then (c as int + 32) as char else c
  }

  function Lower(s: string): (r: string)
    ensures |r| == |s| && forall i | 0 <= i < |s| :: r[i] == LowerChar(s[i])
  {
    if s == [] then [] else [LowerChar(s[0])] + Lower(s[1..])
  }

  predicate Sensitive(name: string) {
    Lower(name) in SENSITIVE_KEYS
  }

  /** Text and numbers are digested; truth values count as numbers. */
  predicate IsPlain(v: Value) {
    v.VStr? || v.VInt? || v.VBool?
  }

  function PlainText(v: Value): string
    requires IsPlain(v)
  {
    match v
    case VStr(s) => s
    case VInt(i) => IntText(i)
    case VBool(b) => if b then "True" else "False"
  }

  /** `dict[k] = v`: in place when the key is there, else at the end. */
  function Assign(entries: seq<(Key, Value)>, k: string, v: Value): seq<(Key, Value)> {
    if entries == [] then [(StrKey(k), v)]
    else if StrOf(entries[0].0) == k then [(StrKey(k), v)] + entries[1..]
    else [entries[0]] + Assign(entries[1..], k, v)
  }

  /** `mask` is the salted digest. */
  function Redact(mask: string -> string, v: Value): Value
    decreases v, 1
  {
    match v
    case VDict(entries) => VDict(RedactEntries(mask, entries))
    case VList(items) => VList(RedactAll(mask, items))
    case _ => v
  }

  function RedactAll(mask: string -> string, items: seq<Value>): seq<Value>
    decreases items, 0
  {
    if items == [] then [] else [Redact(mask, items[0])] + RedactAll(mask, items[1..])
  }

  function RedactEntries(mask: string -> string, entries: seq<(Key, Value)>): seq<(Key, Value)>
    decreases entries, 0
  {
    if entries == [] then []
    else
      var last := entries[|entries| - 1];
      Assign(RedactEntries(mask, entries[..|entries| - 1]), StrOf(last.0), RedactField(mask, last))
  }

  function Mask(mask: string -> string, v: Value): Value
    requires IsPlain(v)
  {
    VStr("sha256:" + mask(PlainText(v)))
  }

  function RedactField(mask: string -> string, e: (Key, Value)): Value
    decreases e, 2
  {
    if Sensitive(StrOf(e.0)) && IsPlain(e.1) then Mask(mask, e.1) else Redact(mask, e.1)
  }

  /* ----- the commitment ----- */

  const GENESIS_HASH: string := "0000000000000000000000000000000000000000000000000000000000000000"

  /** A hash function with 64 hexadecimal characters of output; nothing else is known of it. */
  ghost predicate IsDigest(hash: string -> string) {
    forall m :: |hash(m)| == 64
  }

  function Material(prev: string, n: int, at: Stamp, payload: Value): string {
    prev + (['|'] + (IntText(n) + (['|'] + (Iso(at) + (['|'] + CanonicalJson(payload))))))
  }

  /** None when the source raises. */
  function ComputeHash(hash: string -> string, n: int, at: Stamp, prev: string, payload: Value): Option<string> {
    if |prev| != 64 then None else Some(hash(Material(prev, n, at, payload)))
  }

  datatype AuditEntry = AuditEntry(
    n: int,
    at: Stamp,
    episodeId: Option<string>,
    actor: string,
    eventType: string,
    payload: Value,
    prevHash: string,
    hash: string)

  function MaterialOf(e: AuditEntry): string {
    Material(e.prevHash, e.n, e.at, e.payload)
  }

  function Recompute(hash: string -> string, e: AuditEntry): Option<string> {
    ComputeHash(hash, e.n, e.at, e.prevHash, e.payload)
  }

  function Head(entries: seq<AuditEntry>): string {
    if entries == [] then GENESIS_HASH else entries[|entries| - 1].hash
  }

  /** Entry `i` carries its own number, the hash before it and the hash of itself. */
  predicate Linked(hash: string -> string, entries: seq<AuditEntry>, i: nat)
    requires i < |entries|
  {
    && entries[i].n == i + 1
    && entries[i].prevHash == Head(entries[..i])
    && Recompute(hash, entries[i]) == Some(entries[i].hash)
  }

  predicate IsChain(hash: string -> string, entries: seq<AuditEntry>) {
    forall i | 0 <= i < |entries| :: Linked(hash, entries, i)
  }

  class HashChain {
    const hash: string -> string
    const mask: string -> string
    var entries: seq<AuditEntry>

    ghost predicate Valid()
      reads this
    {
      IsDigest(hash) && IsChain(hash, entries)
    }

    constructor (hash: string -> string, mask: string -> string)
      requires IsDigest(hash)
      ensures Valid() && entries == []
      ensures this.hash == hash && this.mask == mask
    {
      this.hash, this.mask := hash, mask;
      entries := [];
    }

    /** Appends the redacted payload, sealed against the head; earlier entries stay. */
    method Append(at: Stamp, actor: string, eventType: string, payload: Value, episodeId: Option<string>)
      returns (entry: AuditEntry)
      requires Valid()
      modifies this
      ensures Valid()
      ensures entries == old(entries) + [entry]
      ensures entry == Sealed(hash, mask, old(entries), at, actor, eventType, payload, episodeId)
    {
      var n := |entries| + 1;
      var safe := Redact(mask, payload);
      HeadLength(hash, entries);
      var own := ComputeHash(hash, n, at, Head(entries), safe);
      entry := AuditEntry(n, at, episodeId, actor, eventType, safe, Head(entries), own.value);
      AppendKeepsChain(hash, entries, entry);
      entries := entries + [entry];
    }
  }

  /** The entry that appending writes. */
  function Sealed(hash: string -> string, mask: string -> string, entries: seq<AuditEntry>, at: Stamp,
                  actor: string, eventType: string, payload: Value, episodeId: Option<string>): AuditEntry
  {
    var n := |entries| + 1;
    var safe := Redact(mask, payload);
    AuditEntry(n, at, episodeId, actor, eventType, safe, Head(entries),
               hash(Material(Head(entries), n, at, safe)))
  }

  lemma HeadLength(hash: string -> string, entries: seq<AuditEntry>)
    requires IsDigest(hash) && IsChain(hash, entries)
    ensures |Head(entries)| == 64
  {
    if entries != [] {
      assert Linked(hash, entries, |entries| - 1);
    }
  }

  lemma AppendKeepsChain(hash: string -> string, entries: seq<AuditEntry>, entry: AuditEntry)
    requires IsChain(hash, entries)
    requires entry.n == |entries| + 1 && entry.prevHash == Head(entries)
    requires Recompute(hash, entry) == Some(entry.hash)
    ensures IsChain(hash, entries + [entry])
  {
    var longer := entries + [entry];
    forall i | 0 <= i < |longer| ensures Linked(hash, longer, i) {
      if i < |entries| {
        assert Linked(hash, entries, i);
        assert longer[..i] == entries[..i];
      } else {
        assert longer[..i] == entries;
      }
    }
  }

  /* ----- walking ----- */

  datatype Break = SequenceGap(expected: nat, found: int) | BrokenLink | AlteredAfterWrite

  datatype ChainVerification = ChainVerification(
    ok: bool, checked: nat, firstBreakSeq: Option<int>, reason: Option<Break>)

  /** What entry `i`, the first bad one, is blamed for. */
  function BlameOf(entries: seq<AuditEntry>, i: nat): Break
    requires i < |entries|
  {
    if entries[i].n != i + 1 then SequenceGap(i + 1, entries[i].n)
    else if entries[i].prevHash != Head(entries[..i]) then BrokenLink
    else AlteredAfterWrite
  }

  /** The walk counts exactly the longest valid prefix and blames the entry after it. It
      never meets a predecessor hash of the wrong length, so recomputing never fails. */
  method VerifyChain(hash: string -> string, entries: seq<AuditEntry>) returns (v: ChainVerification)
    requires IsDigest(hash)
    ensures v.ok <==> IsChain(hash, entries)
    ensures v.checked <= |entries| && IsChain(hash, entries[..v.checked])
    ensures v.ok ==> v == ChainVerification(true, |entries|, None, None)
    ensures !v.ok ==>
              && v.checked < |entries|
              && !IsChain(hash, entries[..v.checked + 1])
              && v.firstBreakSeq == Some(entries[v.checked].n)
              && v.reason == Some(BlameOf(entries, v.checked))
  {
    var prevHash := GENESIS_HASH;
    var expected := 1;
    var checked := 0;
    while checked < |entries|
      invariant 0 <= checked <= |entries| && expected == checked + 1
      invariant prevHash == Head(entries[..checked]) && |prevHash| == 64
      invariant forall i | 0 <= i < checked :: Linked(hash, entries, i)
    {
      var entry := entries[checked];
      ghost var upTo := entries[..checked + 1];
      PrefixIsChain(hash, entries, checked);
      assert upTo[checked] == entry && upTo[..checked] == entries[..checked];
      if entry.n != expected {
        assert !Linked(hash, upTo, checked) && !Linked(hash, entries, checked);
        return ChainVerification(false, checked, Some(entry.n), Some(SequenceGap(expected, entry.n)));
      }
      if entry.prevHash != prevHash {
        assert !Linked(hash, upTo, checked) && !Linked(hash, entries, checked);
        return ChainVerification(false, checked, Some(entry.n), Some(BrokenLink));
      }
      if Recompute(hash, entry).value != entry.hash {
        assert !Linked(hash, upTo, checked) && !Linked(hash, entries, checked);
        return ChainVerification(false, checked, Some(entry.n), Some(AlteredAfterWrite));
      }
      prevHash := entry.hash;
      expected := expected + 1;
      checked := checked + 1;
    }
    assert entries[..checked] == entries;
    return ChainVerification(true, checked, None, None);
  }

  lemma PrefixIsChain(hash: string -> string, entries: seq<AuditEntry>, k: nat)
    requires k <= |entries| && forall i | 0 <= i < k :: Linked(hash, entries, i)
    ensures IsChain(hash, entries[..k])
  {
    forall i | 0 <= i < k ensures Linked(hash, entries[..k], i) {
      assert Linked(hash, entries, i);
      assert entries[..k][..i] == entries[..i];
    }
  }
}
