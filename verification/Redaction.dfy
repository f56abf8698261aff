/** What redaction removes from a payload and what it leaves alone. */
module Redaction {
  import opened Domain
  import opened Text
  import opened Json
  import opened Chain
  import opened NormalForm

  lemma {:induction false} AssignSetsOne(entries: seq<(Key, Value)>, k: string, v: Value)
    requires EntriesDistinct(entries)
    ensures forall e :: e in Assign(entries, k, v) <==> e == (StrKey(k), v) || (e in entries && StrOf(e.0) != k)
  {
    if entries != [] {
      var head, rest := entries[0], entries[1..];
      assert entries == [head] + rest;
      if StrOf(head.0) == k {
        assert forall e <- rest :: StrOf(e.0) != k;
      } else {
        AssignSetsOne(rest, k, v);
      }
    }
  }

  lemma ConsKeepsDistinct(head: (Key, Value), rest: seq<(Key, Value)>)
    requires EntriesDistinct(rest) && forall e <- rest :: StrOf(e.0) != StrOf(head.0)
    ensures EntriesDistinct([head] + rest)
  {
  }

  lemma {:induction false} AssignKeepsDistinct(entries: seq<(Key, Value)>, k: string, v: Value)
    requires EntriesDistinct(entries)
    ensures EntriesDistinct(Assign(entries, k, v))
  {
    if entries != [] {
      var head, rest := entries[0], entries[1..];
      if StrOf(head.0) == k {
        ConsKeepsDistinct((StrKey(k), v), rest);
      } else {
        AssignKeepsDistinct(rest, k, v);
        AssignSetsOne(rest, k, v);
        ConsKeepsDistinct(head, Assign(rest, k, v));
      }
    }
  }

  /** Assigning keeps the keys apart, sets `k`, and leaves every other item alone. */
  lemma AssignReplaces(entries: seq<(Key, Value)>, k: string, v: Value)
    requires EntriesDistinct(entries)
    ensures EntriesDistinct(Assign(entries, k, v))
    ensures forall e :: e in Assign(entries, k, v) <==> e == (StrKey(k), v) || (e in entries && StrOf(e.0) != k)
  {
    AssignKeepsDistinct(entries, k, v);
    AssignSetsOne(entries, k, v);
  }

  lemma AssignLookup(entries: seq<(Key, Value)>, k: string, v: Value, name: string)
    requires EntriesDistinct(entries)
    ensures Get(Assign(entries, k, v), name) == if name == k then Some(v) else Get(entries, name)
  {
    var after := Assign(entries, k, v);
    AssignReplaces(entries, k, v);
    GetIsMembership(entries, name);
    GetIsMembership(after, name);
    assert StrOf((StrKey(k), v).0) == k;
    if Get(after, name).Some? {
      var i :| 0 <= i < |after| && StrOf(after[i].0) == name && after[i].1 == Get(after, name).value;
      assert name == k || after[i] in entries;
    }
    if name != k && Get(entries, name).Some? {
      var i :| 0 <= i < |entries| && StrOf(entries[i].0) == name && entries[i].1 == Get(entries, name).value;
      assert entries[i] in after;
    }
  }

  /** Redacting a dictionary keeps its keys, and treats every value on its own: lookups
      before and after correspond one to one. */
  lemma {:induction false} RedactionActsPerKey(mask: string -> string, entries: seq<(Key, Value)>, name: string)
    ensures EntriesDistinct(RedactEntries(mask, entries))
    ensures Get(RedactEntries(mask, entries), name) ==
            match Get(entries, name)
            case None => None
            case Some(v) => Some(RedactField(mask, (StrKey(name), v)))
  {
    if entries != [] {
      var n := |entries| - 1;
      var last := entries[n];
      var before, k, v := RedactEntries(mask, entries[..n]), StrOf(last.0), RedactField(mask, last);
      RedactionActsPerKey(mask, entries[..n], name);
      AssignReplaces(before, k, v);
      AssignLookup(before, k, v, name);
      assert v == RedactField(mask, (StrKey(k), last.1));
    }
  }

  /** What text or a number is digested as. */
  function TextOf(v: Value): Option<string> {
    match v
    case VStr(s) => Some(s)
    case VInt(n) => Some(IntText(n))
    case VBool(b) => Some(if b then "True" else "False")
    case _ => None
  }

  /** Under a sensitive key text and numbers become digests, and nothing else of them is left;
      under any other they stay. */
  lemma PlainValuesExactly(mask: string -> string, entries: seq<(Key, Value)>, name: string, v: Value)
    requires Get(entries, name) == Some(v) && TextOf(v).Some?
    ensures Get(RedactEntries(mask, entries), name) ==
            Some(if Sensitive(name) then VStr("sha256:" + mask(TextOf(v).value)) else v)
  {
    RedactionActsPerKey(mask, entries, name);
  }

  /** A number under a key that is not sensitive comes through as it was. */
  lemma AmountsSurvive(mask: string -> string, entries: seq<(Key, Value)>, name: string, amount: int)
    requires !Sensitive(name) && Get(entries, name) == Some(VInt(amount))
    ensures Get(RedactEntries(mask, entries), name) == Some(VInt(amount))
  {
    RedactionActsPerKey(mask, entries, name);
  }

  /* ----- nothing sensitive is left in the clear ----- */

  ghost predicate IsMasked(mask: string -> string, v: Value) {
    exists text: string :: v == VStr("sha256:" + mask(text))
  }

  /** At every depth, plain values under sensitive keys are digests. */
  ghost predicate Masked(mask: string -> string, v: Value)
    decreases v, 1
  {
    match v
    case VList(items) => forall i | 0 <= i < |items| :: Masked(mask, items[i])
    case VDict(entries) => forall i | 0 <= i < |entries| :: EntryMasked(mask, entries[i])
    case _ => true
  }

  ghost predicate EntryMasked(mask: string -> string, e: (Key, Value))
    decreases e, 2
  {
    && (Sensitive(StrOf(e.0)) && TextOf(e.1).Some? ==> IsMasked(mask, e.1))
    && Masked(mask, e.1)
  }

  lemma {:induction false} RedactMasks(mask: string -> string, v: Value)
    ensures Masked(mask, Redact(mask, v))
    ensures IsPlain(Redact(mask, v)) ==> IsPlain(v)
    decreases v, 1
  {
    match v
    case VList(items) => RedactAllMasks(mask, items);
    case VDict(entries) => RedactEntriesMasks(mask, entries);
    case _ =>
  }

  lemma {:induction false} RedactAllMasks(mask: string -> string, items: seq<Value>)
    ensures forall i | 0 <= i < |RedactAll(mask, items)| :: Masked(mask, RedactAll(mask, items)[i])
    decreases items, 0
  {
    if items != [] {
      RedactMasks(mask, items[0]);
      RedactAllMasks(mask, items[1..]);
    }
  }

  lemma {:induction false} RedactEntriesMasks(mask: string -> string, entries: seq<(Key, Value)>)
    ensures forall e <- RedactEntries(mask, entries) :: EntryMasked(mask, e)
    decreases entries, 0
  {
    if entries != [] {
      var n := |entries| - 1;
      var before := RedactEntries(mask, entries[..n]);
      RedactEntriesMasks(mask, entries[..n]);
      RedactFieldMasks(mask, entries[n]);
      RedactionActsPerKey(mask, entries[..n], "");
      AssignReplaces(before, StrOf(entries[n].0), RedactField(mask, entries[n]));
    }
  }

  lemma RedactFieldMasks(mask: string -> string, e: (Key, Value))
    ensures EntryMasked(mask, (StrKey(StrOf(e.0)), RedactField(mask, e)))
    decreases e, 2
  {
    RedactMasks(mask, e.1);
  }

  /* ----- and nothing else is touched ----- */

  /** No sensitive key at any depth. */
  ghost predicate Innocent(v: Value)
    decreases v, 1
  {
    match v
    case VList(items) => forall i | 0 <= i < |items| :: Innocent(items[i])
    case VDict(entries) => forall i | 0 <= i < |entries| :: EntryInnocent(entries[i])
    case _ => true
  }

  ghost predicate EntryInnocent(e: (Key, Value))
    decreases e, 2
  {
    !Sensitive(StrOf(e.0)) && Innocent(e.1)
  }

  /** A payload without sensitive keys is hashed as it was given. */
  lemma {:induction false} InnocentPayloadsAreKept(mask: string -> string, v: Value)
    requires Innocent(v)
    ensures Normalise(Redact(mask, v)) == Normalise(v)
    decreases v, 1
  {
    match v
    case VList(items) => InnocentItemsAreKept(mask, items);
    case VDict(entries) => InnocentEntriesAreKept(mask, entries);
    case _ =>
  }

  lemma {:induction false} InnocentItemsAreKept(mask: string -> string, items: seq<Value>)
    requires forall i | 0 <= i < |items| :: Innocent(items[i])
    ensures NormaliseAll(RedactAll(mask, items)) == NormaliseAll(items)
    decreases items, 0
  {
    if items != [] {
      InnocentPayloadsAreKept(mask, items[0]);
      InnocentItemsAreKept(mask, items[1..]);
      var all := RedactAll(mask, items);
      assert all[0] == Redact(mask, items[0]) && all[1..] == RedactAll(mask, items[1..]);
    }
  }

  lemma {:induction false} InnocentEntriesAreKept(mask: string -> string, entries: seq<(Key, Value)>)
    requires forall i | 0 <= i < |entries| :: EntryInnocent(entries[i])
    ensures Collect(RedactEntries(mask, entries)) == Collect(entries)
    decreases entries, 0
  {
    if entries != [] {
      var n := |entries| - 1;
      var last := entries[n];
      InnocentEntriesAreKept(mask, entries[..n]);
      InnocentEntryIsKept(mask, last);
      RedactionActsPerKey(mask, entries[..n], "");
      CollectAfterAssign(RedactEntries(mask, entries[..n]), StrOf(last.0), RedactField(mask, last));
    }
  }

  lemma InnocentEntryIsKept(mask: string -> string, e: (Key, Value))
    requires EntryInnocent(e)
    ensures Normalise(RedactField(mask, e)) == NormaliseEntry(e)
    decreases e, 2
  {
    InnocentPayloadsAreKept(mask, e.1);
  }

  /** Assigning in the dictionary is putting in the sorted members. */
  lemma CollectAfterAssign(entries: seq<(Key, Value)>, k: string, v: Value)
    requires EntriesDistinct(entries)
    ensures Collect(Assign(entries, k, v)) == Put(Collect(entries), k, Normalise(v))
  {
    var after := Assign(entries, k, v);
    AssignReplaces(entries, k, v);
    CollectIsSorted(entries);
    CollectIsSorted(after);
    PutKeepsOrder(Collect(entries), k, Normalise(v));
    CollectIsLookup(entries);
    CollectIsLookup(after);
    forall m ensures m in Collect(after) <==> m in Put(Collect(entries), k, Normalise(v)) {
      AssignLookup(entries, k, v, m.0);
    }
    SortedListsAgree(Collect(after), Put(Collect(entries), k, Normalise(v)));
  }

  /* ----- redacted dictionaries have keys that print differently ----- */

  /** No dictionary, at any depth, has two keys that print alike. */
  ghost predicate KeysDistinct(v: Value)
    decreases v, 1
  {
    match v
    case VList(items) => forall i | 0 <= i < |items| :: KeysDistinct(items[i])
    case VDict(entries) =>
      && EntriesDistinct(entries)
      && forall i | 0 <= i < |entries| :: KeysDistinctIn(entries[i])
    case _ => true
  }

  ghost predicate KeysDistinctIn(e: (Key, Value))
    decreases e, 2
  {
    KeysDistinct(e.1)
  }

  /** Redaction leaves no look-alike keys, whatever it was given. */
  lemma {:induction false} RedactionSeparatesKeys(mask: string -> string, v: Value)
    ensures KeysDistinct(Redact(mask, v))
    decreases v, 1
  {
    match v
    case VList(items) => RedactionSeparatesItems(mask, items);
    case VDict(entries) =>
      RedactionActsPerKey(mask, entries, "");
      RedactionSeparatesEntries(mask, entries);
    case _ =>
  }

  lemma {:induction false} RedactionSeparatesItems(mask: string -> string, items: seq<Value>)
    ensures forall i | 0 <= i < |RedactAll(mask, items)| :: KeysDistinct(RedactAll(mask, items)[i])
    decreases items, 0
  {
    if items != [] {
      RedactionSeparatesKeys(mask, items[0]);
      RedactionSeparatesItems(mask, items[1..]);
    }
  }

  lemma {:induction false} RedactionSeparatesEntries(mask: string -> string, entries: seq<(Key, Value)>)
    ensures forall e <- RedactEntries(mask, entries) :: KeysDistinctIn(e)
    decreases entries, 0
  {
    if entries != [] {
      var n := |entries| - 1;
      RedactionSeparatesEntries(mask, entries[..n]);
      RedactionSeparatesField(mask, entries[n]);
      RedactionActsPerKey(mask, entries[..n], "");
      AssignReplaces(RedactEntries(mask, entries[..n]), StrOf(entries[n].0), RedactField(mask, entries[n]));
    }
  }

  lemma RedactionSeparatesField(mask: string -> string, e: (Key, Value))
    ensures KeysDistinctIn((StrKey(StrOf(e.0)), RedactField(mask, e)))
    decreases e, 2
  {
    RedactionSeparatesKeys(mask, e.1);
  }

  /* ----- what two redacted payloads still tell apart ----- */

  /** The same payload but for text and numbers under sensitive keys, and the same digests of
      those; dictionaries are compared lookup by lookup. */
  ghost predicate SamePublic(mask: string -> string, v: Value, w: Value)
    decreases v, 1
  {
    match v
    case VList(items) => w.VList? && SamePublicAll(mask, items, w.items)
    case VDict(entries) => w.VDict? && SamePublicLookups(mask, entries, w.entries)
    case _ => v == w
  }

  ghost predicate SamePublicAll(mask: string -> string, a: seq<Value>, b: seq<Value>)
    decreases a, 0
  {
    if a == [] || b == [] then a == b
    else SamePublic(mask, a[0], b[0]) && SamePublicAll(mask, a[1..], b[1..])
  }

  ghost predicate SamePublicLookups(mask: string -> string, a: seq<(Key, Value)>, b: seq<(Key, Value)>)
    decreases a, 4
  {
    forall name :: SamePublicLookup(mask, a, b, name)
  }

  ghost predicate SamePublicLookup(mask: string -> string, a: seq<(Key, Value)>, b: seq<(Key, Value)>, name: string)
    decreases a, 3
  {
    match Get(a, name)
    case None => Get(b, name).None?
    case Some(x) =>
      && Get(b, name).Some?
      && var i :| 0 <= i < |a| && a[i].1 == x;
         SamePublicValue(mask, name, a[i], Get(b, name).value)
  }

  ghost predicate SamePublicValue(mask: string -> string, name: string, e: (Key, Value), w: Value)
    decreases e, 2
  {
    if Sensitive(name) && (TextOf(e.1).Some? || TextOf(w).Some?) then
      TextOf(e.1).Some? && TextOf(w).Some? && mask(TextOf(e.1).value) == mask(TextOf(w).value)
    else SamePublic(mask, e.1, w)
  }

  /** Redacted payloads normalise alike, and so hash alike, exactly when the payloads are the
      same but for what was digested. */
  lemma {:induction false} RedactionHidesExactly(mask: string -> string, v: Value, w: Value)
    ensures Normalise(Redact(mask, v)) == Normalise(Redact(mask, w)) <==> SamePublic(mask, v, w)
    decreases v, 1
  {
    if v.VList? && w.VList? {
      SamePublicItems(mask, v.items, w.items);
    } else if v.VDict? && w.VDict? {
      SamePublicEntries(mask, v.entries, w.entries);
    }
  }

  lemma ConsExactly(x: Json, xs: seq<Json>, y: Json, ys: seq<Json>)
    ensures [x] + xs == [y] + ys <==> x == y && xs == ys
  {
    if [x] + xs == [y] + ys {
      assert x == ([x] + xs)[0] && xs == ([x] + xs)[1..];
      assert y == ([y] + ys)[0] && ys == ([y] + ys)[1..];
    }
  }

  lemma {:induction false} SamePublicItems(mask: string -> string, a: seq<Value>, b: seq<Value>)
    ensures NormaliseAll(RedactAll(mask, a)) == NormaliseAll(RedactAll(mask, b)) <==> SamePublicAll(mask, a, b)
    decreases a, 0
  {
    if a != [] && b != [] {
      RedactionHidesExactly(mask, a[0], b[0]);
      SamePublicItems(mask, a[1..], b[1..]);
      RedactedFirst(mask, a);
      RedactedFirst(mask, b);
      ConsExactly(Normalise(Redact(mask, a[0])), NormaliseAll(RedactAll(mask, a[1..])),
                  Normalise(Redact(mask, b[0])), NormaliseAll(RedactAll(mask, b[1..])));
    }
  }

  lemma RedactedFirst(mask: string -> string, items: seq<Value>)
    requires items != []
    ensures NormaliseAll(RedactAll(mask, items)) ==
            [Normalise(Redact(mask, items[0]))] + NormaliseAll(RedactAll(mask, items[1..]))
  {
    var all := RedactAll(mask, items);
    assert all[0] == Redact(mask, items[0]) && all[1..] == RedactAll(mask, items[1..]);
  }

  lemma SameDigests(x: string, y: string)
    ensures "sha256:" + x == "sha256:" + y <==> x == y
  {
    if "sha256:" + x == "sha256:" + y {
      assert x == ("sha256:" + x)[7..] == ("sha256:" + y)[7..] == y;
    }
  }

  lemma SamePublicValueExactly(mask: string -> string, name: string, e: (Key, Value), w: Value)
    ensures Normalise(RedactField(mask, (StrKey(name), e.1))) == Normalise(RedactField(mask, (StrKey(name), w))) <==>
            SamePublicValue(mask, name, e, w)
    decreases e, 2
  {
    if Sensitive(name) && TextOf(e.1).Some? && TextOf(w).Some? {
      SameDigests(mask(TextOf(e.1).value), mask(TextOf(w).value));
    } else if !Sensitive(name) || (TextOf(e.1).None? && TextOf(w).None?) {
      RedactionHidesExactly(mask, e.1, w);
    }
  }

  lemma SamePublicFound(mask: string -> string, a: seq<(Key, Value)>, b: seq<(Key, Value)>, name: string)
    ensures Found(RedactEntries(mask, a), name) == Found(RedactEntries(mask, b), name) <==>
            SamePublicLookup(mask, a, b, name)
    decreases a, 3
  {
    RedactionActsPerKey(mask, a, name);
    RedactionActsPerKey(mask, b, name);
    if Get(a, name).Some? && Get(b, name).Some? {
      forall i | 0 <= i < |a|
        ensures Normalise(RedactField(mask, (StrKey(name), a[i].1))) ==
                Normalise(RedactField(mask, (StrKey(name), Get(b, name).value))) <==>
                SamePublicValue(mask, name, a[i], Get(b, name).value)
      {
        SamePublicValueExactly(mask, name, a[i], Get(b, name).value);
      }
    }
  }

  lemma SamePublicEntries(mask: string -> string, a: seq<(Key, Value)>, b: seq<(Key, Value)>)
    ensures Collect(RedactEntries(mask, a)) == Collect(RedactEntries(mask, b)) <==> SamePublicLookups(mask, a, b)
    decreases a, 4
  {
    forall name
      ensures Found(RedactEntries(mask, a), name) == Found(RedactEntries(mask, b), name) <==>
              SamePublicLookup(mask, a, b, name)
    {
      SamePublicFound(mask, a, b, name);
    }
    FoundDecides(RedactEntries(mask, a), RedactEntries(mask, b));
  }
}
