/** What an audit chain proves: equal final hashes fix the whole history. */
module ChainProperties {
  import opened Domain
  import opened Text
  import opened Json
  import opened Chain
  import JsonProperties
  import NormalForm

  /* ----- the hashed material can be taken apart ----- */

  function Power10(width: nat): nat {
    if width == 0 then 1 else 10 * Power10(width - 1)
  }

  lemma {:induction false} ReadPadded(n: nat, width: nat)
    requires n < Power10(width)
    ensures ReadNat(Pad(n, width)) == n
  {
    if width > 0 {
      ReadPadded(n / 10, width - 1);
      assert Pad(n, width)[..width - 1] == Pad(n / 10, width - 1);
    }
  }

  lemma PaddedFieldIsUnique(m: nat, n: nat, width: nat, sep: char, a: string, b: string)
    requires m < Power10(width) && n < Power10(width)
    requires Pad(m, width) + ([sep] + a) == Pad(n, width) + ([sep] + b)
    ensures m == n && a == b
  {
    SplitByLength(Pad(m, width), [sep] + a, Pad(n, width), [sep] + b);
    SplitByLength([sep], a, [sep], b);
    ReadPadded(m, width);
    ReadPadded(n, width);
  }

  lemma SmallPowers()
    ensures Power10(2) == 100 && Power10(4) == 10_000 && Power10(6) == 1_000_000
  {
    assert Power10(3) == 1_000;
    assert Power10(5) == 100_000;
  }

  lemma ClockTextIsUnique(t: Stamp, u: Stamp)
    requires ClockText(t) == ClockText(u)
    ensures t.hour == u.hour && t.minute == u.minute && t.second == u.second && t.micro == u.micro
  {
    SmallPowers();
    var a := Pad(t.second, 2) + (['.'] + (Pad(t.micro, 6) + "+00:00"));
    var b := Pad(u.second, 2) + (['.'] + (Pad(u.micro, 6) + "+00:00"));
    PaddedFieldIsUnique(t.hour, u.hour, 2, ':', Pad(t.minute, 2) + ([':'] + a), Pad(u.minute, 2) + ([':'] + b));
    PaddedFieldIsUnique(t.minute, u.minute, 2, ':', a, b);
    PaddedFieldIsUnique(t.second, u.second, 2, '.', Pad(t.micro, 6) + "+00:00", Pad(u.micro, 6) + "+00:00");
    SplitByLength(Pad(t.micro, 6), "+00:00", Pad(u.micro, 6), "+00:00");
    ReadPadded(t.micro, 6);
    ReadPadded(u.micro, 6);
  }

  /** Two instants with one time stamp text are one instant. */
  lemma IsoIsInjective(t: Stamp, u: Stamp)
    requires Iso(t) == Iso(u)
    ensures t == u
  {
    SmallPowers();
    var a := Pad(t.day, 2) + (['T'] + ClockText(t));
    var b := Pad(u.day, 2) + (['T'] + ClockText(u));
    PaddedFieldIsUnique(t.year, u.year, 4, '-', Pad(t.month, 2) + (['-'] + a), Pad(u.month, 2) + (['-'] + b));
    PaddedFieldIsUnique(t.month, u.month, 2, '-', a, b);
    PaddedFieldIsUnique(t.day, u.day, 2, 'T', ClockText(t), ClockText(u));
    ClockTextIsUnique(t, u);
  }

  lemma IsoHasNoBar(t: Stamp)
    ensures '|' !in Iso(t)
  {
    assert '|' !in ClockText(t);
  }

  /** The joined text determines every part. */
  lemma MaterialIsUnique(e: AuditEntry, f: AuditEntry)
    requires |e.prevHash| == |f.prevHash|
    ensures MaterialOf(e) == MaterialOf(f) <==>
            e.prevHash == f.prevHash && e.n == f.n && e.at == f.at &&
            CanonicalJson(e.payload) == CanonicalJson(f.payload)
  {
    if MaterialOf(e) == MaterialOf(f) {
      var a := Iso(e.at) + (['|'] + CanonicalJson(e.payload));
      var b := Iso(f.at) + (['|'] + CanonicalJson(f.payload));
      SplitByLength(e.prevHash, ['|'] + (IntText(e.n) + (['|'] + a)), f.prevHash, ['|'] + (IntText(f.n) + (['|'] + b)));
      SplitByLength(['|'], IntText(e.n) + (['|'] + a), ['|'], IntText(f.n) + (['|'] + b));
      SplitAt('|', IntText(e.n), a, IntText(f.n), b);
      IsoHasNoBar(e.at);
      IsoHasNoBar(f.at);
      SplitAt('|', Iso(e.at), CanonicalJson(e.payload), Iso(f.at), CanonicalJson(f.payload));
      ReadIntText(e.n);
      ReadIntText(f.n);
      IsoIsInjective(e.at, f.at);
    }
  }

  /* ----- chains with one final hash ----- */

  /** What an entry commits to, and its two hashes. */
  ghost predicate SameRecord(e: AuditEntry, f: AuditEntry) {
    && e.n == f.n && e.at == f.at
    && CanonicalJson(e.payload) == CanonicalJson(f.payload)
    && e.prevHash == f.prevHash && e.hash == f.hash
  }

  ghost predicate SameHistory(a: seq<AuditEntry>, b: seq<AuditEntry>) {
    |a| == |b| && forall i | 0 <= i < |a| :: SameRecord(a[i], b[i])
  }

  /** The hash does not collide on what these two chains put into it. */
  ghost predicate NoCollision(hash: string -> string, a: seq<AuditEntry>, b: seq<AuditEntry>) {
    forall e <- a, f <- b :: hash(MaterialOf(e)) == hash(MaterialOf(f)) ==> MaterialOf(e) == MaterialOf(f)
  }

  lemma LinkedEntryHash(hash: string -> string, a: seq<AuditEntry>, i: nat)
    requires IsChain(hash, a) && i < |a|
    ensures |a[i].prevHash| == 64 && a[i].hash == hash(MaterialOf(a[i]))
    ensures a[i].n == i + 1 && a[i].prevHash == Head(a[..i])
  {
    assert Linked(hash, a, i);
  }

  lemma PrefixOfChain(hash: string -> string, a: seq<AuditEntry>, k: nat)
    requires IsChain(hash, a) && k <= |a|
    ensures IsChain(hash, a[..k])
  {
    PrefixIsChain(hash, a, k);
  }

  lemma LastEntriesAgree(hash: string -> string, a: seq<AuditEntry>, b: seq<AuditEntry>)
    requires IsChain(hash, a) && IsChain(hash, b) && NoCollision(hash, a, b)
    requires a != [] && b != [] && Head(a) == Head(b)
    ensures |a| == |b| && SameRecord(a[|a| - 1], b[|b| - 1])
    ensures Head(a[..|a| - 1]) == Head(b[..|b| - 1])
  {
    var k, l := |a| - 1, |b| - 1;
    LinkedEntryHash(hash, a, k);
    LinkedEntryHash(hash, b, l);
    assert a[k] in a && b[l] in b;
    MaterialIsUnique(a[k], b[l]);
  }

  lemma {:induction false} FinalHashFixesHistory(hash: string -> string, a: seq<AuditEntry>, b: seq<AuditEntry>)
    requires IsChain(hash, a) && IsChain(hash, b) && NoCollision(hash, a, b)
    requires a != [] && b != [] && Head(a) == Head(b)
    ensures SameHistory(a, b)
    decreases |a|
  {
    var k := |a| - 1;
    LastEntriesAgree(hash, a, b);
    if k > 0 {
      PrefixOfChain(hash, a, k);
      PrefixOfChain(hash, b, k);
      assert NoCollision(hash, a[..k], b[..k]);
      FinalHashFixesHistory(hash, a[..k], b[..k]);
      assert forall i | 0 <= i < k :: SameRecord(a[..k][i], b[..k][i]);
    }
  }

  /** Two verified, non-empty chains end in the same hash exactly when they agree, entry by
      entry, on number, instant and canonical payload. */
  lemma EqualHeadsExactly(hash: string -> string, a: seq<AuditEntry>, b: seq<AuditEntry>)
    requires IsChain(hash, a) && IsChain(hash, b) && NoCollision(hash, a, b)
    requires a != [] && b != []
    ensures Head(a) == Head(b) <==>
            && |a| == |b|
            && forall i | 0 <= i < |a| :: a[i].at == b[i].at && CanonicalJson(a[i].payload) == CanonicalJson(b[i].payload)
  {
    if Head(a) == Head(b) {
      FinalHashFixesHistory(hash, a, b);
      assert forall i | 0 <= i < |a| :: SameRecord(a[i], b[i]);
    }
    if && |a| == |b|
       && forall i | 0 <= i < |a| :: a[i].at == b[i].at && CanonicalJson(a[i].payload) == CanonicalJson(b[i].payload)
    {
      SameContentsSameHashes(hash, a, b);
    }
  }

  lemma {:induction false} SameContentsSameHashes(hash: string -> string, a: seq<AuditEntry>, b: seq<AuditEntry>)
    requires IsChain(hash, a) && IsChain(hash, b) && |a| == |b|
    requires forall i | 0 <= i < |a| :: a[i].at == b[i].at && CanonicalJson(a[i].payload) == CanonicalJson(b[i].payload)
    ensures Head(a) == Head(b)
    decreases |a|
  {
    if a != [] {
      var k := |a| - 1;
      PrefixOfChain(hash, a, k);
      PrefixOfChain(hash, b, k);
      SameContentsSameHashes(hash, a[..k], b[..k]);
      LinkedEntryHash(hash, a, k);
      LinkedEntryHash(hash, b, k);
      MaterialIsUnique(a[k], b[k]);
    }
  }

  /** A published final hash pins the payloads themselves: every lookup in them. */
  lemma FinalHashFixesPayloads(hash: string -> string, a: seq<AuditEntry>, b: seq<AuditEntry>, i: nat)
    requires IsChain(hash, a) && IsChain(hash, b) && NoCollision(hash, a, b)
    requires a != [] && b != [] && Head(a) == Head(b)
    requires i < |a|
    requires forall e <- a + b :: JsonProperties.FloatsPrint(Normalise(e.payload))
    ensures i < |b| && NormalForm.SamePayload(a[i].payload, b[i].payload)
  {
    FinalHashFixesHistory(hash, a, b);
    assert SameRecord(a[i], b[i]);
    assert a[i] in a + b && b[i] in a + b;
    NormalForm.EncodingIsCanonical(a[i].payload, b[i].payload);
  }

  /* ----- tampering ----- */

  function Without(a: seq<AuditEntry>, i: nat): seq<AuditEntry>
    requires i < |a|
  {
    a[..i] + a[i + 1..]
  }

  /** Deleting an entry goes unnoticed only at the very end. */
  lemma DeletionIsNoticed(hash: string -> string, a: seq<AuditEntry>, i: nat)
    requires IsChain(hash, a) && i < |a|
    ensures IsChain(hash, Without(a, i)) <==> i == |a| - 1
  {
    if i == |a| - 1 {
      assert Without(a, i) == a[..i];
      PrefixOfChain(hash, a, i);
    } else {
      assert Linked(hash, a, i + 1);
      assert Without(a, i)[i] == a[i + 1];
      assert !Linked(hash, Without(a, i), i);
    }
  }

  /** Swapping two entries is always noticed. */
  lemma ReorderingIsNoticed(hash: string -> string, a: seq<AuditEntry>, i: nat, j: nat)
    requires IsChain(hash, a) && i < j < |a|
    ensures !IsChain(hash, a[i := a[j]][j := a[i]])
  {
    assert Linked(hash, a, j);
    assert !Linked(hash, a[i := a[j]][j := a[i]], i);
  }

  /** Rewriting one entry in place and keeping its hashes passes exactly when what it
      commits to is unchanged: number, instant, predecessor and canonical payload. Actor,
      event type and episode may be rewritten freely. */
  lemma RewritingIsNoticedExactly(hash: string -> string, a: seq<AuditEntry>, i: nat, e: AuditEntry)
    requires IsDigest(hash) && IsChain(hash, a) && i < |a|
    requires e.hash == a[i].hash
    requires hash(MaterialOf(e)) == hash(MaterialOf(a[i])) ==> MaterialOf(e) == MaterialOf(a[i])
    ensures IsChain(hash, a[i := e]) <==> SameRecord(e, a[i])
  {
    var b := a[i := e];
    LinkedEntryHash(hash, a, i);
    assert b[..i] == a[..i];
    if SameRecord(e, a[i]) {
      MaterialIsUnique(e, a[i]);
      forall j | 0 <= j < |b| ensures Linked(hash, b, j) {
        assert Linked(hash, a, j);
        SameHeads(a, b, i, j);
      }
    }
    if IsChain(hash, b) {
      assert Linked(hash, b, i);
      assert |e.prevHash| == 64 && e.n == i + 1;
      MaterialIsUnique(e, a[i]);
    }
  }

  lemma SameHeads(a: seq<AuditEntry>, b: seq<AuditEntry>, i: nat, j: nat)
    requires i < |a| == |b| && j <= |a|
    requires b[i].hash == a[i].hash && forall k | 0 <= k < |a| && k != i :: a[k] == b[k]
    ensures Head(a[..j]) == Head(b[..j])
  {
    if j > 0 {
      assert a[..j][j - 1] == a[j - 1] && b[..j][j - 1] == b[j - 1];
    }
  }

  /** The uncommitted fields of an entry can change and the chain still verifies,
      with the same final hash. */
  lemma ActorIsNotCommitted(hash: string -> string, a: seq<AuditEntry>, i: nat, actor: string, eventType: string,
                            episodeId: Option<string>)
    requires IsDigest(hash) && IsChain(hash, a) && i < |a|
    ensures var e := a[i].(actor := actor, eventType := eventType, episodeId := episodeId);
            IsChain(hash, a[i := e]) && Head(a[i := e]) == Head(a)
  {
    var e := a[i].(actor := actor, eventType := eventType, episodeId := episodeId);
    RewritingIsNoticedExactly(hash, a, i, e);
  }

  /* ----- where the walk puts the blame ----- */

  /** The first entry at which the walk stops, and why. */
  ghost predicate StopsAt(hash: string -> string, a: seq<AuditEntry>, i: nat, why: Break) {
    && i < |a|
    && IsChain(hash, a[..i]) && !IsChain(hash, a[..i + 1])
    && BlameOf(a, i) == why
  }

  lemma StopsWhereUnlinked(hash: string -> string, a: seq<AuditEntry>, i: nat)
    requires i < |a| && IsChain(hash, a[..i]) && !Linked(hash, a, i)
    ensures !IsChain(hash, a[..i + 1])
  {
    assert a[..i + 1][..i] == a[..i];
    assert !Linked(hash, a[..i + 1], i);
  }

  /** A deleted entry leaves a gap: the one after it is blamed for its number. */
  lemma DeletionIsBlamed(hash: string -> string, a: seq<AuditEntry>, i: nat)
    requires IsChain(hash, a) && i + 1 < |a|
    ensures StopsAt(hash, Without(a, i), i, SequenceGap(i + 1, i + 2))
  {
    var b := Without(a, i);
    assert Linked(hash, a, i + 1) && b[i] == a[i + 1];
    assert b[..i] == a[..i];
    PrefixOfChain(hash, a, i);
    StopsWhereUnlinked(hash, b, i);
  }

  /** Of two swapped entries the earlier place is blamed, for the number it now has. */
  lemma ReorderingIsBlamed(hash: string -> string, a: seq<AuditEntry>, i: nat, j: nat)
    requires IsChain(hash, a) && i < j < |a|
    ensures StopsAt(hash, a[i := a[j]][j := a[i]], i, SequenceGap(i + 1, j + 1))
  {
    var b := a[i := a[j]][j := a[i]];
    assert Linked(hash, a, j) && b[i] == a[j];
    assert b[..i] == a[..i];
    PrefixOfChain(hash, a, i);
    StopsWhereUnlinked(hash, b, i);
  }

  /** An entry put on another predecessor is blamed for the link. */
  lemma RelinkingIsBlamed(hash: string -> string, a: seq<AuditEntry>, i: nat, e: AuditEntry)
    requires IsChain(hash, a) && i < |a| && e.n == a[i].n && e.prevHash != a[i].prevHash
    ensures StopsAt(hash, a[i := e], i, BrokenLink)
  {
    var b := a[i := e];
    assert Linked(hash, a, i);
    assert b[..i] == a[..i];
    PrefixOfChain(hash, a, i);
    StopsWhereUnlinked(hash, b, i);
  }

  /** An entry in its place that does not hash to its hash is blamed for having been altered. */
  lemma AlterationIsBlamed(hash: string -> string, a: seq<AuditEntry>, i: nat, e: AuditEntry)
    requires IsDigest(hash) && IsChain(hash, a) && i < |a|
    requires e.n == a[i].n && e.prevHash == a[i].prevHash && hash(MaterialOf(e)) != e.hash
    ensures StopsAt(hash, a[i := e], i, AlteredAfterWrite)
  {
    var b := a[i := e];
    assert Linked(hash, a, i);
    assert b[..i] == a[..i];
    PrefixOfChain(hash, a, i);
    HeadLength(hash, a[..i]);
    StopsWhereUnlinked(hash, b, i);
  }

  /** What is appended is what was said, when, by whom and of which episode, under the next
      number and on the head. */
  lemma AppendedAsSaid(hash: string -> string, mask: string -> string, a: seq<AuditEntry>, at: Stamp,
                       actor: string, eventType: string, payload: Value, episodeId: Option<string>)
    requires IsDigest(hash) && IsChain(hash, a)
    ensures var e := Sealed(hash, mask, a, at, actor, eventType, payload, episodeId);
            && e.n == |a| + 1 && e.at == at && e.actor == actor && e.eventType == eventType && e.episodeId == episodeId
            && e.prevHash == (if a == [] then GENESIS_HASH else a[|a| - 1].hash)
            && IsChain(hash, a + [e])
  {
    HeadLength(hash, a);
    AppendKeepsChain(hash, a, Sealed(hash, mask, a, at, actor, eventType, payload, episodeId));
  }

  /* ----- which keys are sensitive ----- */

  /** The same letter, in either case, or the same character. */
  predicate SameLetter(c: char, d: char) {
    || c == d
    || ('A' <= c <= 'Z' && 'a' <= d <= 'z' && c as int - 'A' as int == d as int - 'a' as int)
    || ('a' <= c <= 'z' && 'A' <= d <= 'Z' && c as int - 'a' as int == d as int - 'A' as int)
  }

  predicate SpeltAlike(s: string, t: string) {
    |s| == |t| && forall i | 0 <= i < |s| :: SameLetter(s[i], t[i])
  }

  /** Whether a key is sensitive does not depend on its case. */
  lemma CaseDoesNotMatter(s: string, t: string)
    requires SpeltAlike(s, t)
    ensures Sensitive(s) <==> Sensitive(t)
  {
    assert Lower(s) == Lower(t);
  }

  lemma {:induction false} LowerIsLower(s: string)
    requires forall i | 0 <= i < |s| :: !('A' <= s[i] <= 'Z')
    ensures Lower(s) == s
  {
    assert forall i | 0 <= i < |s| :: Lower(s)[i] == s[i];
  }

  /** How to reach a person, who they are, how they pay, and what they wrote. */
  lemma SensitiveKeysAre(name: string)
    requires forall i | 0 <= i < |name| :: !('A' <= name[i] <= 'Z')
    ensures Sensitive(name) <==>
            || name in ["phone", "phone_number", "msisdn", "email", "email_address", "address"]
            || name in ["name", "full_name", "contact_name", "pan", "gstin"]
            || name in ["vpa", "upi_id", "card_number", "last4", "account_number", "ifsc"]
            || name in ["message_body", "reply_text"]
  {
    LowerIsLower(name);
  }
}
