/** Canonical JSON: normalising a payload, printing it and reading it back. */
module Json {
  import opened Domain
  import opened Text

  /** A payload key; `StrOf` is what it is turned into. */
  datatype Key = StrKey(s: string) | IntKey(n: int)

  /** A payload value. A dictionary lists its items in insertion order; a float is the text
      of its rounded value. */
  datatype Value =
    | VNull
    | VBool(b: bool)
    | VInt(i: int)
    | VFloat(text: string)
    | VStr(s: string)
    | VList(items: seq<Value>)
    | VDict(entries: seq<(Key, Value)>)

  /** Normalised JSON. */
  datatype Json =
    | Null
    | Bool(b: bool)
    | Int(i: int)
    | Float(text: string)
    | Str(s: string)
    | Arr(items: seq<Json>)
    | Obj(members: seq<(string, Json)>)

  function StrOf(k: Key): string {
    match k
    case StrKey(s) => s
    case IntKey(n) => IntText(n)
  }

  /* ----- normalising ----- */

  /** Set a member in a key-sorted list, replacing an equal key. */
  function Put(members: seq<(string, Json)>, k: string, j: Json): seq<(string, Json)> {
    if members == [] then [(k, j)]
    else if members[0].0 == k then [(k, j)] + members[1..]
    else if Less(k, members[0].0) then [(k, j)] + members
    else [members[0]] + Put(members[1..], k, j)
  }

  function Normalise(v: Value): Json
    decreases v, 1
  {
    match v
    case VNull => Null
    case VBool(b) => Bool(b)
    case VInt(i) => Int(i)
    case VFloat(text) => Float(text)
    case VStr(s) => Str(s)
    case VList(items) => Arr(NormaliseAll(items))
    case VDict(entries) => Obj(Collect(entries))
  }

  function NormaliseAll(items: seq<Value>): (r: seq<Json>)
    ensures |r| == |items|
    decreases items, 0
  {
    if items == [] then [] else [Normalise(items[0])] + NormaliseAll(items[1..])
  }

  /** Entries in key order; of two entries whose keys print alike the later one stays. */
  function Collect(entries: seq<(Key, Value)>): seq<(string, Json)>
    decreases entries, 0
  {
    if entries == [] then []
    else
      var last := entries[|entries| - 1];
      Put(Collect(entries[..|entries| - 1]), StrOf(last.0), NormaliseEntry(last))
  }

  function NormaliseEntry(e: (Key, Value)): Json
    decreases e, 2
  {
    Normalise(e.1)
  }

  /* ----- printing ----- */

  function HexDigit(d: nat): char
    requires d < 16
  {
    "0123456789abcdef"[d]
  }

  /** Escapes of section 7 of RFC 8259, the short ones where there are any. */
  function EscapeChar(c: char): (s: string)
    ensures s != []
  {
    if c == '"' then ['\\', '"']
    else if c == '\\' then ['\\', '\\']
    else if c == '\n' then ['\\', 'n']
    else if c == '\r' then ['\\', 'r']
    else if c == '\t' then ['\\', 't']
    else if c as int == 8 then ['\\', 'b']
    else if c as int == 12 then ['\\', 'f']
    else if c as int < 32 then ['\\', 'u', '0', '0', HexDigit(c as int / 16), HexDigit(c as int % 16)]
    else [c]
  }

  function Escape(s: string): string {
    if s == [] then [] else EscapeChar(s[0]) + Escape(s[1..])
  }

  function Quote(s: string): string {
    ['"'] + Escape(s) + ['"']
  }

  function Encode(j: Json): (s: string)
    decreases j, 1
  {
    match j
    case Null => "null"
    case Bool(b) => if b then "true" else "false"
    case Int(i) => IntText(i)
    case Float(text) => text
    case Str(s) => Quote(s)
    case Arr(items) => ['['] + EncodeItems(items)
    case Obj(members) => ['{'] + EncodeMembers(members)
  }

  /** The items and the closing bracket. */
  function EncodeItems(items: seq<Json>): string
    decreases items, 0
  {
    if items == [] then [']']
    else Encode(items[0]) + (if |items| == 1 then [']'] else [','] + EncodeItems(items[1..]))
  }

  function EncodeMember(m: (string, Json)): string
    decreases m, 1
  {
    Quote(m.0) + ([':'] + Encode(m.1))
  }

  /** The members and the closing brace. */
  function EncodeMembers(members: seq<(string, Json)>): string
    decreases members, 2
  {
    if members == [] then ['}']
    else EncodeMember(members[0]) + (if |members| == 1 then ['}'] else [','] + EncodeMembers(members[1..]))
  }

  function CanonicalJson(v: Value): string {
    Encode(Normalise(v))
  }

  /* ----- reading back ----- */

  function HexValue(c: char): Option<nat> {
    if IsDigit(c) then Some(ValueOf(c))
    else if 'a' <= c <= 'f' then Some(c as int - 'a' as int + 10)
    else None
  }

  /** The character escaped at the head of `s`, and how much of `s` it took. */
  function ReadEscape(s: string): (r: Option<(char, nat)>)
    ensures r.Some? ==> 0 < r.value.1 <= |s|
  {
    if s == [] then None
    else if s[0] == '"' || s[0] == '\\' then Some((s[0], 1))
    else if s[0] == 'n' then Some(('\n', 1))
    else if s[0] == 'r' then Some(('\r', 1))
    else if s[0] == 't' then Some(('\t', 1))
    else if s[0] == 'b' then Some((8 as char, 1))
    else if s[0] == 'f' then Some((12 as char, 1))
    else if |s| >= 5 && s[0] == 'u' && s[1] == '0' && s[2] == '0' && HexValue(s[3]).Some? && HexValue(s[4]).Some?
    then
      var code := 16 * HexValue(s[3]).value + HexValue(s[4]).value;
      if code < 256 then Some((code as char, 5)) else None
    else None
  }

  /** Reads up to and including the closing quote. */
  function ReadString(s: string): (r: Option<(string, string)>)
    ensures r.Some? ==> |r.value.1| < |s|
  {
    if s == [] then None
    else if s[0] == '"' then Some(([], s[1..]))
    else if s[0] == '\\' then
      var c := ReadEscape(s[1..]);
      if c.None? then None
      else
        var rest := ReadString(s[1 + c.value.1..]);
        if rest.None? then None else Some(([c.value.0] + rest.value.0, rest.value.1))
    else
      var rest := ReadString(s[1..]);
      if rest.None? then None else Some(([s[0]] + rest.value.0, rest.value.1))
  }

  predicate IsNumberChar(c: char) {
    IsDigit(c) || c == '-' || c == '+' || c == '.' || c == 'e'
  }

  /** The length of the number token at the head of `s`. */
  function NumberSpan(s: string): (n: nat)
    ensures n <= |s|
  {
    if s == [] || !IsNumberChar(s[0]) then 0 else 1 + NumberSpan(s[1..])
  }

  predicate LooksLikeFloat(token: string) {
    '.' in token || 'e' in token
  }

  /** A value with no values inside. */
  function ReadScalar(s: string): (r: Option<(Json, string)>)
    ensures r.Some? ==> |r.value.1| < |s|
  {
    if |s| >= 4 && s[..4] == "null" then Some((Null, s[4..]))
    else if |s| >= 4 && s[..4] == "true" then Some((Bool(true), s[4..]))
    else if |s| >= 5 && s[..5] == "false" then Some((Bool(false), s[5..]))
    else if s != [] && s[0] == '"' then
      var r := ReadString(s[1..]);
      if r.None? then None else Some((Str(r.value.0), r.value.1))
    else
      var n := NumberSpan(s);
      if n == 0 then None
      else if LooksLikeFloat(s[..n]) then Some((Float(s[..n]), s[n..]))
      else Some((Int(ReadInt(s[..n])), s[n..]))
  }

  function ReadValue(s: string): (r: Option<(Json, string)>)
    ensures r.Some? ==> |r.value.1| < |s|
    decreases |s|, 1
  {
    if s == [] then None
    else if s[0] == '[' then ReadArray(s[1..])
    else if s[0] == '{' then ReadObject(s[1..])
    else ReadScalar(s)
  }

  function ReadArray(s: string): (r: Option<(Json, string)>)
    ensures r.Some? ==> |r.value.1| < |s|
    decreases |s|, 3
  {
    if s != [] && s[0] == ']' then Some((Arr([]), s[1..]))
    else
      var r := ReadItems(s);
      if r.None? then None else Some((Arr(r.value.0), r.value.1))
  }

  function ReadObject(s: string): (r: Option<(Json, string)>)
    ensures r.Some? ==> |r.value.1| < |s|
    decreases |s|, 4
  {
    if s != [] && s[0] == '}' then Some((Obj([]), s[1..]))
    else
      var r := ReadMembers(s);
      if r.None? then None else Some((Obj(r.value.0), r.value.1))
  }

  function ReadItems(s: string): (r: Option<(seq<Json>, string)>)
    ensures r.Some? ==> |r.value.1| < |s|
    decreases |s|, 2
  {
    var head := ReadValue(s);
    if head.None? || head.value.1 == [] then None
    else
      var rest := head.value.1;
      if rest[0] == ']' then Some(([head.value.0], rest[1..]))
      else if rest[0] == ',' then
        var tail := ReadItems(rest[1..]);
        if tail.None? then None else Some(([head.value.0] + tail.value.0, tail.value.1))
      else None
  }

  function ReadMember(s: string): (r: Option<((string, Json), string)>)
    ensures r.Some? ==> |r.value.1| < |s|
    decreases |s|, 2
  {
    if s == [] || s[0] != '"' then None
    else
      var key := ReadString(s[1..]);
      if key.None? || key.value.1 == [] || key.value.1[0] != ':' then None
      else
        var j := ReadValue(key.value.1[1..]);
        if j.None? then None else Some(((key.value.0, j.value.0), j.value.1))
  }

  function ReadMembers(s: string): (r: Option<(seq<(string, Json)>, string)>)
    ensures r.Some? ==> |r.value.1| < |s|
    decreases |s|, 3
  {
    var head := ReadMember(s);
    if head.None? || head.value.1 == [] then None
    else
      var rest := head.value.1;
      if rest[0] == '}' then Some(([head.value.0], rest[1..]))
      else if rest[0] == ',' then
        var tail := ReadMembers(rest[1..]);
        if tail.None? then None else Some(([head.value.0] + tail.value.0, tail.value.1))
      else None
  }

  /** What canonical text stands for: one value and nothing after it. */
  function Decode(s: string): Option<Json> {
    var r := ReadValue(s);
    if r.Some? && r.value.1 == [] then Some(r.value.0) else None
  }
}
