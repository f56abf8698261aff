/** Canonical JSON can be undone, and depends on nothing but the payload. */
module JsonProperties {
  import opened Domain
  import opened Text
  import opened Json

  /* ----- reading back what was printed ----- */

  /** A float prints as number characters that no integer prints as. */
  predicate FloatText(s: string) {
    LooksLikeFloat(s) && forall i | 0 <= i < |s| :: IsNumberChar(s[i])
  }

  ghost predicate FloatsPrint(j: Json)
    decreases j, 1
  {
    match j
    case Float(text) => FloatText(text)
    case Arr(items) => forall i | 0 <= i < |items| :: FloatsPrint(items[i])
    case Obj(members) => forall i | 0 <= i < |members| :: MemberPrints(members[i])
    case _ => true
  }

  ghost predicate MemberPrints(m: (string, Json))
    decreases m, 2
  {
    FloatsPrint(m.1)
  }

  /** Characters with an escape of one letter, and that letter. */
  const SHORT: map<char, char> :=
    map['"' := '"', '\\' := '\\', '\n' := 'n', '\r' := 'r', '\t' := 't', '\U{0008}' := 'b', '\U{000C}' := 'f']

  /** Quotes, backslashes and control characters are escaped and nothing else is: by a letter
      where there is one, else by their number in four lower-case hexadecimal digits. */
  lemma EscapesExactly(c: char)
    ensures EscapeChar(c) == [c] <==> c >= ' ' && c != '"' && c != '\\'
    ensures c in SHORT ==> EscapeChar(c) == ['\\', SHORT[c]]
    ensures c < ' ' && c !in SHORT ==>
              exists high: nat, low: nat | high < 2 && low < 16 ::
                c as int == 16 * high + low && EscapeChar(c) == "\\u00" + ["01"[high], "0123456789abcdef"[low]]
  {
    if c < ' ' && c !in SHORT {
      var high: nat, low: nat := c as int / 16, c as int % 16;
      assert high < 2 && low < 16 && c as int == 16 * high + low;
      assert "0123456789abcdef"[high] == "01"[high];
      assert EscapeChar(c) == "\\u00" + ["01"[high], "0123456789abcdef"[low]];
    }
  }

  /** What may follow a value: nothing, or punctuation that ends it. */
  predicate Ends(rest: string) {
    rest == [] || rest[0] == ',' || rest[0] == ']' || rest[0] == '}'
  }

  lemma ReadEscapedChar(c: char, rest: string)
    requires EscapeChar(c) != [c]
    ensures EscapeChar(c)[0] == '\\'
    ensures ReadEscape(EscapeChar(c)[1..] + rest) == Some((c, |EscapeChar(c)| - 1))
  {
  }

  /** Reading one printed character, whatever follows. */
  lemma ReadOneChar(c: char, tail: string)
    ensures ReadString(EscapeChar(c) + tail) ==
            (var rest := ReadString(tail);
             if rest.None? then None else Some(([c] + rest.value.0, rest.value.1)))
  {
    var e := EscapeChar(c);
    var text := e + tail;
    if e == [c] {
      assert text[1..] == tail;
    } else {
      ReadEscapedChar(c, tail);
      assert text[1..] == e[1..] + tail;
      assert text[1 + (|e| - 1)..] == tail;
    }
  }

  lemma {:induction false} ReadQuoted(s: string, rest: string)
    ensures ReadString(Escape(s) + (['"'] + rest)) == Some((s, rest))
  {
    if s == [] {
      assert Escape(s) + (['"'] + rest) == ['"'] + rest;
      assert (['"'] + rest)[1..] == rest;
    } else {
      var tail := Escape(s[1..]) + (['"'] + rest);
      assert Escape(s) + (['"'] + rest) == EscapeChar(s[0]) + tail;
      ReadQuoted(s[1..], rest);
      ReadOneChar(s[0], tail);
      assert s == [s[0]] + s[1..];
    }
  }

  lemma {:induction false} SpanOfToken(token: string, rest: string)
    requires forall i | 0 <= i < |token| :: IsNumberChar(token[i])
    requires Ends(rest)
    ensures NumberSpan(token + rest) == |token|
  {
    if token == [] {
      assert token + rest == rest;
    } else {
      assert (token + rest)[1..] == token[1..] + rest;
      SpanOfToken(token[1..], rest);
    }
  }

  lemma ReadToken(token: string, rest: string)
    requires token != [] && forall i | 0 <= i < |token| :: IsNumberChar(token[i])
    requires Ends(rest)
    ensures ReadValue(token + rest) ==
            Some((if LooksLikeFloat(token) then Float(token) else Int(ReadInt(token)), rest))
  {
    SpanOfToken(token, rest);
    var text := token + rest;
    assert text[0] == token[0];
    assert text[..|token|] == token && text[|token|..] == rest;
  }

  lemma ReadNumber(i: int, rest: string)
    requires Ends(rest)
    ensures ReadValue(IntText(i) + rest) == Some((Int(i), rest))
  {
    ReadIntText(i);
    ReadToken(IntText(i), rest);
  }

  lemma ReadLiteral(j: Json, rest: string)
    requires j.Null? || j.Bool?
    ensures ReadValue(Encode(j) + rest) == Some((j, rest))
  {
    var text := Encode(j) + rest;
    var n := |Encode(j)|;
    assert text[..n] == Encode(j) && text[n..] == rest;
    assert text[0] == Encode(j)[0];
  }

  lemma ReadStr(s: string, rest: string)
    ensures ReadValue(Quote(s) + rest) == Some((Str(s), rest))
  {
    var text := Quote(s) + rest;
    assert text[0] == '"';
    assert text[1..] == Escape(s) + (['"'] + rest);
    ReadQuoted(s, rest);
  }

  lemma Opened(c: char, text: string, rest: string)
    ensures [c] + text + rest == [c] + (text + rest)
  {
  }

  /** The parser recovers every printed value and stops exactly where it ended. */
  lemma {:induction false} ReadEncoded(j: Json, rest: string)
    requires FloatsPrint(j) && Ends(rest)
    ensures ReadValue(Encode(j) + rest) == Some((j, rest))
    ensures Encode(j) != [] && Encode(j)[0] != ']' && Encode(j)[0] != '}'
    decreases j, 1
  {
    match j
    case Null => ReadLiteral(j, rest);
    case Bool(_) => ReadLiteral(j, rest);
    case Int(i) => ReadNumber(i, rest);
    case Float(token) => ReadToken(token, rest);
    case Str(s) => ReadStr(s, rest);
    case Arr(items) =>
      Opened('[', EncodeItems(items), rest);
      ReadEncodedArray(items, rest);
    case Obj(members) =>
      Opened('{', EncodeMembers(members), rest);
      ReadEncodedObject(members, rest);
  }

  lemma ReadEncodedArray(items: seq<Json>, rest: string)
    requires forall i | 0 <= i < |items| :: FloatsPrint(items[i])
    ensures ReadValue(['['] + (EncodeItems(items) + rest)) == Some((Arr(items), rest))
    decreases items, 1
  {
    var text := EncodeItems(items) + rest;
    assert (['['] + text)[1..] == text;
    if items == [] {
      assert text[1..] == rest;
    } else {
      ReadEncodedItems(items, rest);
      ItemsMakeArray(text, items, rest);
    }
  }

  lemma ReadEncodedObject(members: seq<(string, Json)>, rest: string)
    requires forall i | 0 <= i < |members| :: MemberPrints(members[i])
    ensures ReadValue(['{'] + (EncodeMembers(members) + rest)) == Some((Obj(members), rest))
    decreases members, 4
  {
    var text := EncodeMembers(members) + rest;
    assert (['{'] + text)[1..] == text;
    if members == [] {
      assert text[1..] == rest;
    } else {
      ReadEncodedMembers(members, rest);
      MembersMakeObject(text, members, rest);
    }
  }

  /** What follows the first of some printed items. */
  function AfterItem(items: seq<Json>, rest: string): (after: string)
    requires items != []
    ensures after != []
    ensures |items| == 1 ==> after[0] == ']' && after[1..] == rest
    ensures |items| > 1 ==> after[0] == ',' && after[1..] == EncodeItems(items[1..]) + rest
  {
    if |items| == 1 then [']'] + rest else [','] + (EncodeItems(items[1..]) + rest)
  }

  /** One item, and the items after it if a comma follows. */
  lemma ReadNextItem(text: string, item: Json, after: string, more: seq<Json>, rest: string)
    requires ReadValue(text) == Some((item, after)) && after != []
    requires if more == [] then after[0] == ']' && after[1..] == rest
             else after[0] == ',' && ReadItems(after[1..]) == Some((more, rest))
    ensures ReadItems(text) == Some(([item] + more, rest))
  {
    assert [item] + [] == [item];
  }

  /** Items that do not begin with the closing bracket make an array. */
  lemma ItemsMakeArray(text: string, items: seq<Json>, rest: string)
    requires ReadItems(text) == Some((items, rest)) && text != [] && text[0] != ']'
    ensures ReadArray(text) == Some((Arr(items), rest))
  {
  }

  lemma ItemsSplit(items: seq<Json>, rest: string)
    requires items != []
    ensures EncodeItems(items) + rest == Encode(items[0]) + AfterItem(items, rest)
  {
  }

  lemma JoinItems(head: string, items: seq<Json>, rest: string)
    requires items != []
    requires ReadValue(head + AfterItem(items, rest)) == Some((items[0], AfterItem(items, rest)))
    requires |items| > 1 ==> ReadItems(EncodeItems(items[1..]) + rest) == Some((items[1..], rest))
    ensures ReadItems(head + AfterItem(items, rest)) == Some((items, rest))
  {
    ReadNextItem(head + AfterItem(items, rest), items[0], AfterItem(items, rest), items[1..], rest);
    assert items == [items[0]] + items[1..];
  }

  lemma {:induction false} ReadEncodedItems(items: seq<Json>, rest: string)
    requires items != [] && forall i | 0 <= i < |items| :: FloatsPrint(items[i])
    ensures ReadItems(EncodeItems(items) + rest) == Some((items, rest))
    ensures EncodeItems(items) != [] && EncodeItems(items)[0] != ']'
    decreases items, 0
  {
    if |items| > 1 {
      ReadEncodedItems(items[1..], rest);
    }
    ReadEncoded(items[0], AfterItem(items, rest));
    JoinItems(Encode(items[0]), items, rest);
    ItemsSplit(items, rest);
  }

  /** A quoted key, a colon and a value read as a member. */
  lemma ReadKeyAndValue(key: string, text: string)
    ensures ReadMember(Quote(key) + ([':'] + text)) ==
            (var j := ReadValue(text); if j.None? then None else Some(((key, j.value.0), j.value.1)))
  {
    var after := [':'] + text;
    var whole := Quote(key) + after;
    assert whole[1..] == Escape(key) + (['"'] + after);
    ReadQuoted(key, after);
    assert after[1..] == text;
  }

  lemma MemberText(m: (string, Json), rest: string)
    ensures EncodeMember(m) + rest == Quote(m.0) + ([':'] + (Encode(m.1) + rest))
    ensures EncodeMember(m) != [] && EncodeMember(m)[0] == '"'
  {
  }

  lemma {:induction false} ReadEncodedMember(m: (string, Json), rest: string)
    requires MemberPrints(m) && Ends(rest)
    ensures ReadMember(EncodeMember(m) + rest) == Some((m, rest))
    ensures EncodeMember(m) != [] && EncodeMember(m)[0] == '"'
    decreases m, 2
  {
    MemberText(m, rest);
    ReadKeyAndValue(m.0, Encode(m.1) + rest);
    ReadEncoded(m.1, rest);
  }

  /** One member, and the members after it if a comma follows. */
  lemma ReadNextMember(text: string, m: (string, Json), after: string, more: seq<(string, Json)>, rest: string)
    requires ReadMember(text) == Some((m, after)) && after != []
    requires if more == [] then after[0] == '}' && after[1..] == rest
             else after[0] == ',' && ReadMembers(after[1..]) == Some((more, rest))
    ensures ReadMembers(text) == Some(([m] + more, rest))
  {
    assert [m] + [] == [m];
  }

  /** What follows the first of some printed members. */
  function AfterMember(members: seq<(string, Json)>, rest: string): (after: string)
    requires members != []
    ensures after != []
    ensures |members| == 1 ==> after[0] == '}' && after[1..] == rest
    ensures |members| > 1 ==> after[0] == ',' && after[1..] == EncodeMembers(members[1..]) + rest
  {
    if |members| == 1 then ['}'] + rest else [','] + (EncodeMembers(members[1..]) + rest)
  }

  lemma MembersMakeObject(text: string, members: seq<(string, Json)>, rest: string)
    requires ReadMembers(text) == Some((members, rest)) && text != [] && text[0] != '}'
    ensures ReadObject(text) == Some((Obj(members), rest))
  {
  }

  lemma MembersSplit(members: seq<(string, Json)>, rest: string)
    requires members != []
    ensures EncodeMembers(members) + rest == EncodeMember(members[0]) + AfterMember(members, rest)
  {
  }

  lemma JoinMembers(head: string, members: seq<(string, Json)>, rest: string)
    requires members != []
    requires ReadMember(head + AfterMember(members, rest)) == Some((members[0], AfterMember(members, rest)))
    requires |members| > 1 ==> ReadMembers(EncodeMembers(members[1..]) + rest) == Some((members[1..], rest))
    ensures ReadMembers(head + AfterMember(members, rest)) == Some((members, rest))
  {
    ReadNextMember(head + AfterMember(members, rest), members[0], AfterMember(members, rest), members[1..], rest);
    assert members == [members[0]] + members[1..];
  }

  lemma {:induction false} ReadEncodedMembers(members: seq<(string, Json)>, rest: string)
    requires members != [] && forall i | 0 <= i < |members| :: MemberPrints(members[i])
    ensures ReadMembers(EncodeMembers(members) + rest) == Some((members, rest))
    ensures EncodeMembers(members) != [] && EncodeMembers(members)[0] == '"'
    decreases members, 3
  {
    if |members| > 1 {
      ReadEncodedMembers(members[1..], rest);
    }
    ReadEncodedMember(members[0], AfterMember(members, rest));
    JoinMembers(EncodeMember(members[0]), members, rest);
    MembersSplit(members, rest);
  }

  /** Printing can be undone. */
  lemma DecodeEncode(j: Json)
    requires FloatsPrint(j)
    ensures Decode(Encode(j)) == Some(j)
  {
    ReadEncoded(j, []);
    assert Encode(j) + [] == Encode(j);
  }

  /** Payloads with one encoding are one payload, once normalised. */
  lemma EqualEncodings(v: Value, w: Value)
    requires FloatsPrint(Normalise(v)) && FloatsPrint(Normalise(w))
    ensures CanonicalJson(v) == CanonicalJson(w) <==> Normalise(v) == Normalise(w)
  {
    DecodeEncode(Normalise(v));
    DecodeEncode(Normalise(w));
  }
}
