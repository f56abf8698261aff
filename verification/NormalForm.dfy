/** Normalising: key order, idempotence, and which payloads share one normal form. */
module NormalForm {
  import opened Domain
  import opened Sorting
  import opened Text
  import opened Json
  import JsonProperties

  /* ----- key-sorted member lists ----- */

  ghost predicate KeySorted(members: seq<(string, Json)>) {
    forall i, j | 0 <= i < j < |members| :: Less(members[i].0, members[j].0)
  }

  lemma {:induction false} PutSetsOne(members: seq<(string, Json)>, k: string, j: Json)
    requires KeySorted(members)
    ensures forall m :: m in Put(members, k, j) <==> m == (k, j) || (m in members && m.0 != k)
  {
    if members != [] {
      var head, rest := members[0], members[1..];
      assert members == [head] + rest;
      assert KeySorted(rest) && forall m <- rest :: Less(head.0, m.0);
      LessIsStrict(k);
      if head.0 == k {
        assert forall m <- rest :: m.0 != k;
      } else if Less(k, head.0) {
        forall m <- rest ensures m.0 != k {
          LessTransitive(k, head.0, m.0);
        }
      } else {
        PutSetsOne(rest, k, j);
      }
    }
  }

  lemma ConsKeepsSorted(head: (string, Json), rest: seq<(string, Json)>)
    requires KeySorted(rest) && forall m <- rest :: Less(head.0, m.0)
    ensures KeySorted([head] + rest)
  {
  }

  lemma {:induction false} PutKeepsSorted(members: seq<(string, Json)>, k: string, j: Json)
    requires KeySorted(members)
    ensures KeySorted(Put(members, k, j))
  {
    if members != [] {
      var head, rest := members[0], members[1..];
      assert forall m <- rest :: Less(head.0, m.0);
      LessTotal(k, head.0);
      if head.0 == k {
        ConsKeepsSorted((k, j), rest);
      } else if Less(k, head.0) {
        forall m <- members ensures Less(k, m.0) {
          assert m != head ==> m in rest;
          if m != head {
            LessTransitive(k, head.0, m.0);
          }
        }
        ConsKeepsSorted((k, j), members);
      } else {
        PutKeepsSorted(rest, k, j);
        PutSetsOne(rest, k, j);
        ConsKeepsSorted(head, Put(rest, k, j));
      }
    }
  }

  /** Putting keeps the order, sets `k`, and leaves every other member alone. */
  lemma PutKeepsOrder(members: seq<(string, Json)>, k: string, j: Json)
    requires KeySorted(members)
    ensures KeySorted(Put(members, k, j))
    ensures forall m :: m in Put(members, k, j) <==> m == (k, j) || (m in members && m.0 != k)
  {
    PutKeepsSorted(members, k, j);
    PutSetsOne(members, k, j);
  }

  lemma {:induction false} CollectIsSorted(entries: seq<(Key, Value)>)
    ensures KeySorted(Collect(entries))
  {
    if entries != [] {
      var n := |entries| - 1;
      CollectIsSorted(entries[..n]);
      PutKeepsOrder(Collect(entries[..n]), StrOf(entries[n].0), NormaliseEntry(entries[n]));
    }
  }

  /** A sorted list is determined by its members. */
  lemma {:induction false} SortedListsAgree(a: seq<(string, Json)>, b: seq<(string, Json)>)
    requires KeySorted(a) && KeySorted(b)
    requires forall m :: m in a <==> m in b
    ensures a == b
  {
    assert b != [] ==> b[0] in b;
    if a != [] {
      assert a[0] in a && a[0] in b;
      assert b[0] in b && b[0] in a;
      if a[0] != b[0] {
        assert Less(a[0].0, b[0].0) && Less(b[0].0, a[0].0);
        LessTransitive(a[0].0, b[0].0, a[0].0);
        LessIsStrict(a[0].0);
      }
      LessIsStrict(a[0].0);
      assert a[0] !in a[1..] && b[0] !in b[1..];
      assert a == [a[0]] + a[1..] && b == [b[0]] + b[1..];
      forall m ensures m in a[1..] <==> m in b[1..] {
        assert m in a <==> m == a[0] || m in a[1..];
        assert m in b <==> m == b[0] || m in b[1..];
      }
      SortedListsAgree(a[1..], b[1..]);
    }
  }

  /* ----- normalising twice ----- */

  /** Every object, at any depth, is key-sorted. */
  ghost predicate IsNormal(j: Json)
    decreases j, 1
  {
    match j
    case Arr(items) => forall i | 0 <= i < |items| :: IsNormal(items[i])
    case Obj(members) => KeySorted(members) && forall i | 0 <= i < |members| :: IsNormalMember(members[i])
    case _ => true
  }

  ghost predicate IsNormalMember(m: (string, Json))
    decreases m, 2
  {
    IsNormal(m.1)
  }

  lemma {:induction false} NormaliseIsNormal(v: Value)
    ensures IsNormal(Normalise(v))
    decreases v, 1
  {
    match v
    case VList(items) => NormaliseAllIsNormal(items);
    case VDict(entries) =>
      CollectIsSorted(entries);
      CollectIsNormal(entries);
    case _ =>
  }

  lemma {:induction false} NormaliseAllIsNormal(items: seq<Value>)
    ensures forall i | 0 <= i < |items| :: IsNormal(NormaliseAll(items)[i])
    decreases items, 0
  {
    if items != [] {
      NormaliseIsNormal(items[0]);
      NormaliseAllIsNormal(items[1..]);
    }
  }

  lemma {:induction false} CollectIsNormal(entries: seq<(Key, Value)>)
    ensures forall m <- Collect(entries) :: IsNormalMember(m)
    decreases entries, 0
  {
    if entries != [] {
      var n := |entries| - 1;
      CollectIsNormal(entries[..n]);
      CollectIsSorted(entries[..n]);
      EntryIsNormal(entries[n]);
      PutKeepsOrder(Collect(entries[..n]), StrOf(entries[n].0), NormaliseEntry(entries[n]));
    }
  }

  lemma EntryIsNormal(e: (Key, Value))
    ensures IsNormal(NormaliseEntry(e))
    decreases e, 2
  {
    NormaliseIsNormal(e.1);
  }

  /** A normalised tree seen as a payload again. */
  function Embed(j: Json): Value
    decreases j, 1
  {
    match j
    case Null => VNull
    case Bool(b) => VBool(b)
    case Int(i) => VInt(i)
    case Float(text) => VFloat(text)
    case Str(s) => VStr(s)
    case Arr(items) => VList(EmbedAll(items))
    case Obj(members) => VDict(EmbedMembers(members))
  }

  function EmbedAll(items: seq<Json>): seq<Value>
    decreases items, 0
  {
    if items == [] then [] else [Embed(items[0])] + EmbedAll(items[1..])
  }

  function EmbedMember(m: (string, Json)): (Key, Value)
    decreases m, 2
  {
    (StrKey(m.0), Embed(m.1))
  }

  function EmbedMembers(members: seq<(string, Json)>): (r: seq<(Key, Value)>)
    decreases members, 0
  {
    if members == [] then []
    else EmbedMembers(members[..|members| - 1]) + [EmbedMember(members[|members| - 1])]
  }

  /** A key above all others goes to the end. */
  lemma {:induction false} PutLast(members: seq<(string, Json)>, k: string, j: Json)
    requires forall m <- members :: Less(m.0, k)
    ensures Put(members, k, j) == members + [(k, j)]
  {
    if members != [] {
      var head := members[0];
      if head.0 == k {
        LessIsStrict(k);
      } else if Less(k, head.0) {
        LessTransitive(k, head.0, k);
        LessIsStrict(k);
      }
      PutLast(members[1..], k, j);
      assert members == [head] + members[1..];
    }
  }

  lemma {:induction false} NormalIsFixed(j: Json)
    requires IsNormal(j)
    ensures Normalise(Embed(j)) == j
    decreases j, 1
  {
    match j
    case Arr(items) => NormalItemsAreFixed(items);
    case Obj(members) => NormalMembersAreFixed(members);
    case _ =>
  }

  lemma {:induction false} NormalItemsAreFixed(items: seq<Json>)
    requires forall i | 0 <= i < |items| :: IsNormal(items[i])
    ensures NormaliseAll(EmbedAll(items)) == items
    decreases items, 0
  {
    if items != [] {
      NormalIsFixed(items[0]);
      NormalItemsAreFixed(items[1..]);
      var all := EmbedAll(items);
      assert all[0] == Embed(items[0]) && all[1..] == EmbedAll(items[1..]);
    }
  }

  lemma {:induction false} NormalMembersAreFixed(members: seq<(string, Json)>)
    requires KeySorted(members) && forall i | 0 <= i < |members| :: IsNormalMember(members[i])
    ensures Collect(EmbedMembers(members)) == members
    decreases members, 0
  {
    if members != [] {
      var n := |members| - 1;
      var all := EmbedMembers(members);
      assert all[|all| - 1] == EmbedMember(members[n]) && all[..|all| - 1] == EmbedMembers(members[..n]);
      NormalMembersAreFixed(members[..n]);
      NormalMemberIsFixed(members[n]);
      PutLast(members[..n], members[n].0, members[n].1);
      assert members[..n] + [members[n]] == members;
    }
  }

  lemma NormalMemberIsFixed(m: (string, Json))
    requires IsNormalMember(m)
    ensures NormaliseEntry(EmbedMember(m)) == m.1
    decreases m, 2
  {
    NormalIsFixed(m.1);
  }

  /** Normalising is idempotent, so encoding a decoded payload changes nothing. */
  lemma NormaliseIsIdempotent(v: Value)
    ensures Normalise(Embed(Normalise(v))) == Normalise(v)
    ensures CanonicalJson(Embed(Normalise(v))) == CanonicalJson(v)
  {
    NormaliseIsNormal(v);
    NormalIsFixed(Normalise(v));
  }

  /* ----- which payloads encode alike ----- */

  /** `payload[name]`: the last item whose key prints as `name`. */
  function Get(entries: seq<(Key, Value)>, name: string): (r: Option<Value>)
    ensures r.Some? ==> exists i | 0 <= i < |entries| :: StrOf(entries[i].0) == name && entries[i].1 == r.value
  {
    if entries == [] then None
    else if StrOf(entries[|entries| - 1].0) == name then Some(entries[|entries| - 1].1)
    else Get(entries[..|entries| - 1], name)
  }

  /** The same payload: dictionaries are the same when every lookup in them is. */
  ghost predicate SamePayload(v: Value, w: Value)
    decreases v, 1
  {
    match v
    case VList(items) =>
      && w.VList? && |w.items| == |items|
      && forall i | 0 <= i < |items| :: SamePayload(items[i], w.items[i])
    case VDict(entries) => w.VDict? && SameLookups(entries, w.entries)
    case _ => v == w
  }

  ghost predicate SameLookups(a: seq<(Key, Value)>, b: seq<(Key, Value)>)
    decreases a, 4
  {
    forall name :: SameLookup(a, b, name)
  }

  ghost predicate SameLookup(a: seq<(Key, Value)>, b: seq<(Key, Value)>, name: string)
    decreases a, 3
  {
    match Get(a, name)
    case None => Get(b, name).None?
    case Some(x) =>
      && Get(b, name).Some?
      && var i :| 0 <= i < |a| && a[i].1 == x;
         SameValue(a[i], Get(b, name).value)
  }

  ghost predicate SameValue(e: (Key, Value), w: Value)
    decreases e, 2
  {
    SamePayload(e.1, w)
  }

  /** The collected members are what lookups find, normalised. */
  lemma {:induction false} CollectIsLookup(entries: seq<(Key, Value)>)
    ensures forall m :: m in Collect(entries) <==>
                        Get(entries, m.0).Some? && m.1 == Normalise(Get(entries, m.0).value)
  {
    if entries != [] {
      var n := |entries| - 1;
      CollectIsLookup(entries[..n]);
      CollectIsSorted(entries[..n]);
      PutKeepsOrder(Collect(entries[..n]), StrOf(entries[n].0), NormaliseEntry(entries[n]));
    }
  }

  /** Two payloads normalise alike exactly when they are the same. */
  lemma {:induction false} SameNormalForm(v: Value, w: Value)
    ensures Normalise(v) == Normalise(w) <==> SamePayload(v, w)
    decreases v, 1
  {
    if v.VList? && w.VList? {
      SameItems(v.items, w.items);
    } else if v.VDict? && w.VDict? {
      SameMembers(v.entries, w.entries);
    }
  }

  lemma {:induction false} NormaliseAllAt(items: seq<Value>, i: nat)
    requires i < |items|
    ensures NormaliseAll(items)[i] == Normalise(items[i])
  {
    if i > 0 {
      NormaliseAllAt(items[1..], i - 1);
    }
  }

  lemma SameItems(a: seq<Value>, b: seq<Value>)
    ensures NormaliseAll(a) == NormaliseAll(b) <==>
            |a| == |b| && forall i | 0 <= i < |a| :: SamePayload(a[i], b[i])
    decreases a, 0
  {
    var x, y := NormaliseAll(a), NormaliseAll(b);
    if |a| == |b| {
      forall i | 0 <= i < |a| ensures x[i] == y[i] <==> SamePayload(a[i], b[i]) {
        NormaliseAllAt(a, i);
        NormaliseAllAt(b, i);
        SameNormalForm(a[i], b[i]);
      }
      if forall i | 0 <= i < |a| :: SamePayload(a[i], b[i]) {
        assert forall i | 0 <= i < |a| :: x[i] == y[i];
        assert x == y;
      }
    }
  }

  /** What a lookup finds, normalised. */
  function Found(entries: seq<(Key, Value)>, name: string): Option<Json> {
    match Get(entries, name)
    case None => None
    case Some(x) => Some(Normalise(x))
  }

  lemma SameValueExactly(e: (Key, Value), w: Value)
    ensures Normalise(e.1) == Normalise(w) <==> SameValue(e, w)
    decreases e, 2
  {
    SameNormalForm(e.1, w);
  }

  lemma SameFound(a: seq<(Key, Value)>, b: seq<(Key, Value)>, name: string)
    ensures Found(a, name) == Found(b, name) <==> SameLookup(a, b, name)
    decreases a, 3
  {
    if Get(a, name).Some? && Get(b, name).Some? {
      forall i | 0 <= i < |a| ensures Normalise(a[i].1) == Normalise(Get(b, name).value) <==> SameValue(a[i], Get(b, name).value) {
        SameValueExactly(a[i], Get(b, name).value);
      }
    }
  }

  lemma SameMembers(a: seq<(Key, Value)>, b: seq<(Key, Value)>)
    ensures Collect(a) == Collect(b) <==> SameLookups(a, b)
    decreases a, 5
  {
    AllFoundExactly(a, b);
    FoundDecides(a, b);
  }

  ghost predicate AllFound(a: seq<(Key, Value)>, b: seq<(Key, Value)>) {
    forall name :: Found(a, name) == Found(b, name)
  }

  lemma AllFoundExactly(a: seq<(Key, Value)>, b: seq<(Key, Value)>)
    ensures AllFound(a, b) <==> SameLookups(a, b)
    decreases a, 4
  {
    forall name ensures Found(a, name) == Found(b, name) <==> SameLookup(a, b, name) {
      SameFound(a, b, name);
    }
  }

  lemma FoundDecides(a: seq<(Key, Value)>, b: seq<(Key, Value)>)
    ensures Collect(a) == Collect(b) <==> AllFound(a, b)
  {
    CollectIsLookup(a);
    CollectIsLookup(b);
    if Collect(a) == Collect(b) {
      forall name ensures Found(a, name) == Found(b, name) {
        assert Found(a, name).Some? ==> (name, Found(a, name).value) in Collect(a);
        assert Found(b, name).Some? ==> (name, Found(b, name).value) in Collect(b);
      }
    }
    if AllFound(a, b) {
      forall m ensures m in Collect(a) <==> m in Collect(b) {
        assert Found(a, m.0) == Found(b, m.0);
      }
      CollectIsSorted(a);
      CollectIsSorted(b);
      SortedListsAgree(Collect(a), Collect(b));
    }
  }

  /** One encoding, one payload: canonical text is equal exactly when the payloads are the same. */
  lemma EncodingIsCanonical(v: Value, w: Value)
    requires JsonProperties.FloatsPrint(Normalise(v)) && JsonProperties.FloatsPrint(Normalise(w))
    ensures CanonicalJson(v) == CanonicalJson(w) <==> SamePayload(v, w)
  {
    JsonProperties.EqualEncodings(v, w);
    SameNormalForm(v, w);
  }

  /* ----- when the order of items shows ----- */

  ghost predicate EntriesDistinct(entries: seq<(Key, Value)>) {
    forall i, j | 0 <= i < j < |entries| :: StrOf(entries[i].0) != StrOf(entries[j].0)
  }

  /** Items under other keys hide nothing. */
  lemma {:induction false} OthersHideNothing(entries: seq<(Key, Value)>, others: seq<(Key, Value)>, name: string)
    requires forall e <- others :: StrOf(e.0) != name
    ensures Get(entries + others, name) == Get(entries, name)
  {
    if others == [] {
      assert entries + others == entries;
    } else {
      var n := |others| - 1;
      assert others[n] in others;
      assert (entries + others)[..|entries + others| - 1] == entries + others[..n];
      OthersHideNothing(entries, others[..n], name);
    }
  }

  lemma {:induction false} GetIsMembership(entries: seq<(Key, Value)>, name: string)
    requires EntriesDistinct(entries)
    ensures forall e <- entries :: StrOf(e.0) == name ==> Get(entries, name) == Some(e.1)
  {
    if entries != [] {
      var n := |entries| - 1;
      assert entries == entries[..n] + [entries[n]];
      GetIsMembership(entries[..n], name);
    }
  }

  lemma LookupSurvives(a: seq<(Key, Value)>, b: seq<(Key, Value)>, name: string)
    requires EntriesDistinct(b) && multiset(a) == multiset(b)
    ensures Get(a, name).Some? ==> Get(b, name) == Get(a, name)
  {
    GetIsMembership(b, name);
    if Get(a, name).Some? {
      var i :| 0 <= i < |a| && StrOf(a[i].0) == name && a[i].1 == Get(a, name).value;
      assert a[i] in multiset(b);
    }
  }

  lemma RearrangedAreDistinct(a: seq<(Key, Value)>, b: seq<(Key, Value)>)
    requires EntriesDistinct(a) && multiset(a) == multiset(b)
    ensures EntriesDistinct(b)
  {
    assert forall i, j | 0 <= i < j < |a| :: a[i] != a[j];
    DistinctForgetsOrder(a, b);
    forall i, j | 0 <= i < j < |b| ensures StrOf(b[i].0) != StrOf(b[j].0) {
      assert b[i] in multiset(a) && b[j] in multiset(a);
    }
  }

  /** Rearranging the items of a dictionary whose keys print differently changes nothing. */
  lemma ItemOrderIsForgotten(a: seq<(Key, Value)>, b: seq<(Key, Value)>)
    requires EntriesDistinct(a) && multiset(a) == multiset(b)
    ensures SamePayload(VDict(a), VDict(b))
  {
    RearrangedAreDistinct(a, b);
    forall name ensures Found(a, name) == Found(b, name) {
      LookupSurvives(a, b, name);
      LookupSurvives(b, a, name);
    }
    FoundDecides(a, b);
    SameNormalForm(VDict(a), VDict(b));
  }

  /** Two keys that print alike: the later item wins, so swapping them shows exactly when
      their values differ. */
  lemma LookalikesExactly(x: (Key, Value), y: (Key, Value))
    requires StrOf(x.0) == StrOf(y.0)
    ensures Normalise(VDict([x, y])) == Normalise(VDict([y, x])) <==> SamePayload(x.1, y.1)
  {
    var a, b, k := [x, y], [y, x], StrOf(x.0);
    SameNormalForm(x.1, y.1);
    FoundDecides(a, b);
    forall name ensures Found(a, name) == (if name == k then Some(Normalise(y.1)) else None)
                && Found(b, name) == (if name == k then Some(Normalise(x.1)) else None)
    {
      assert a[..1] == [x] && b[..1] == [y] && [x][..0] == [] && [y][..0] == [];
    }
    assert AllFound(a, b) ==> Found(a, k) == Found(b, k);
  }

  lemma TextMembersPrint(members: seq<(string, Json)>)
    requires forall m <- members :: m.1.Str?
    ensures JsonProperties.FloatsPrint(Obj(members))
  {
    assert forall m <- members :: JsonProperties.MemberPrints(m);
  }

  /** Collecting brings in no value that was not there. */
  lemma {:induction false} CollectedAre(entries: seq<(Key, Value)>, such: Json -> bool)
    requires forall e <- entries :: such(NormaliseEntry(e))
    ensures forall m <- Collect(entries) :: such(m.1)
  {
    if entries != [] {
      var n := |entries| - 1;
      CollectedAre(entries[..n], such);
      CollectIsSorted(entries[..n]);
      PutKeepsOrder(Collect(entries[..n]), StrOf(entries[n].0), NormaliseEntry(entries[n]));
    }
  }

  lemma TextsPrint(entries: seq<(Key, Value)>)
    requires forall e <- entries :: e.1.VStr?
    ensures JsonProperties.FloatsPrint(Normalise(VDict(entries)))
  {
    CollectedAre(entries, (j: Json) => j.Str?);
    TextMembersPrint(Collect(entries));
  }

  /** The number 1 and the text "1" are such keys. */
  lemma KeysThatPrintAlikeDependOnOrder()
    ensures
      var one, text := (IntKey(1), VStr("a")), (StrKey("1"), VStr("b"));
      CanonicalJson(VDict([one, text])) != CanonicalJson(VDict([text, one]))
  {
    var one, text := (IntKey(1), VStr("a")), (StrKey("1"), VStr("b"));
    assert NatText(1) == "1";
    assert IntText(1) == "1";
    LookalikesExactly(one, text);
    TextsPrint([one, text]);
    TextsPrint([text, one]);
    JsonProperties.EqualEncodings(VDict([one, text]), VDict([text, one]));
  }
}
