/** The serializer under every digest: JSON with object keys in code-unit order. */
module CanonicalJson {
  import opened Wrappers
  import opened SortedText

  const QUOTE: Unit := 34
  const BACKSLASH: Unit := 92
  const COMMA: Unit := 44
  const OPEN_ARRAY: Unit := 91
  const CLOSE_ARRAY: Unit := 93
  const OPEN_OBJECT: Unit := 123
  const CLOSE_OBJECT: Unit := 125
  const LOWER_U: Unit := 117

  const NULL_TEXT: Text := [110, 117, 108, 108]
  const TRUE_TEXT: Text := [116, 114, 117, 101]
  const FALSE_TEXT: Text := [102, 97, 108, 115, 101]

  // ---- strings ------------------------------------------------------------------------------

  predicate HighSurrogate(c: Unit) {
    0xD800 <= c <= 0xDBFF
  }

  predicate LowSurrogate(c: Unit) {
    0xDC00 <= c <= 0xDFFF
  }

  function HexDigit(d: nat): Unit
    requires d < 16
  {
    if d < 10 then 48 + d else 87 + d
  }

  function Hex4(c: Unit): (t: Text)
    ensures |t| == 4
  {
    [HexDigit(c / 4096), HexDigit(c / 256 % 16), HexDigit(c / 16 % 16), HexDigit(c % 16)]
  }

  /** The letter after the backslash in a two-unit escape. */
  function ShortEscape(c: Unit): Option<Unit> {
    if c == QUOTE then Some(QUOTE)
    else if c == BACKSLASH then Some(BACKSLASH)
    else if c == 8 then Some(98)
    else if c == 9 then Some(116)
    else if c == 10 then Some(110)
    else if c == 12 then Some(102)
    else if c == 13 then Some(114)
    else None
  }

  /** A code unit that is not part of a surrogate pair. */
  function EscapeUnit(c: Unit): Text {
    match ShortEscape(c)
    case Some(letter) => [BACKSLASH, letter]
    case None => if c < 32 || HighSurrogate(c) || LowSurrogate(c) then [BACKSLASH, LOWER_U] + Hex4(c) else [c]
  }

  function Escape(s: Text): Text {
    if s == [] then []
    else if |s| >= 2 && HighSurrogate(s[0]) && LowSurrogate(s[1]) then [s[0], s[1]] + Escape(s[2..])
    else EscapeUnit(s[0]) + Escape(s[1..])
  }

  function Quote(s: Text): Text {
    [QUOTE] + Escape(s) + [QUOTE]
  }

  // ---- values ---------------------------------------------------------------------------------

  /** A number stands for its shortest decimal text, which is how equal numbers print. */
  datatype Json = Null | Bool(b: bool) | Number(text: Text) | Str(s: Text) | Arr(items: seq<Json>) | Obj(entries: seq<Entry>)
  datatype Entry = Entry(key: Text, value: Json)

  predicate NumberUnit(c: Unit) {
    48 <= c <= 57 || c == 43 || c == 45 || c == 46 || c == 101
  }

  predicate NumberText(t: Text) {
    t != [] && forall i :: 0 <= i < |t| ==> NumberUnit(t[i])
  }

  ghost predicate DistinctKeys(entries: seq<Entry>) {
    forall i, j :: 0 <= i < j < |entries| ==> entries[i].key != entries[j].key
  }

  ghost predicate Valid(v: Json) {
    match v
    case Number(t) => NumberText(t)
    case Arr(items) => forall i :: 0 <= i < |items| ==> Valid(items[i])
    case Obj(entries) => DistinctKeys(entries) && forall i :: 0 <= i < |entries| ==> Valid(entries[i].value)
    case _ => true
  }

  // ---- printing ---------------------------------------------------------------------------------

  /** An object member: its key and its printed value. */
  datatype Member = Member(key: Text, text: Text)

  predicate MemberLessEq(a: Member, b: Member) {
    LessEq(a.key, b.key)
  }

  function PrintedMember(m: Member): Text {
    Quote(m.key) + [COLON] + m.text
  }

  function JoinMembers(members: seq<Member>): Text {
    if members == [] then []
    else if |members| == 1 then PrintedMember(members[0])
    else PrintedMember(members[0]) + [COMMA] + JoinMembers(members[1..])
  }

  function JoinTexts(texts: seq<Text>): Text {
    if texts == [] then []
    else if |texts| == 1 then texts[0]
    else texts[0] + [COMMA] + JoinTexts(texts[1..])
  }

  function Canonical(v: Json): Text {
    match v
    case Null => NULL_TEXT
    case Bool(b) => if b then TRUE_TEXT else FALSE_TEXT
    case Number(t) => t
    case Str(s) => Quote(s)
    case Arr(items) =>
      [OPEN_ARRAY] + JoinTexts(seq(|items|, i requires 0 <= i < |items| => Canonical(items[i]))) + [CLOSE_ARRAY]
    case Obj(entries) =>
      [OPEN_OBJECT] + JoinMembers(Sort(MemberLessEq, PrintedMembers(entries))) + [CLOSE_OBJECT]
  }

  function PrintedMembers(entries: seq<Entry>): (r: seq<Member>)
    ensures |r| == |entries|
    ensures forall i :: 0 <= i < |entries| ==> r[i] == Member(entries[i].key, Canonical(entries[i].value))
  {
    seq(|entries|, i requires 0 <= i < |entries| => Member(entries[i].key, Canonical(entries[i].value)))
  }

  // ---- what a value means, whatever the order of its keys ------------------------------------------

  datatype Value = VNull | VBool(b: bool) | VNumber(text: Text) | VStr(s: Text) | VArr(items: seq<Value>) | VObj(members: map<Text, Value>)

  ghost function Meaning(v: Json): Value {
    match v
    case Null => VNull
    case Bool(b) => VBool(b)
    case Number(t) => VNumber(t)
    case Str(s) => VStr(s)
    case Arr(items) => VArr(seq(|items|, i requires 0 <= i < |items| => Meaning(items[i])))
    case Obj(entries) => VObj(MeaningOfEntries(entries))
  }

  ghost function MeaningOfEntries(entries: seq<Entry>): map<Text, Value> {
    if entries == [] then map[]
    else MeaningOfEntries(entries[1..])[entries[0].key := Meaning(entries[0].value)]
  }
}
