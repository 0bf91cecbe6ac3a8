/** Canonical text determines the value: a reader that gives back, from any canonical text, what the value means. */
module CanonicalJsonReader {
  import opened Wrappers
  import opened SortedText
  import opened CanonicalJson

  // ---- reading strings -----------------------------------------------------------------------

  function HexValue(c: Unit): Option<nat> {
    if 48 <= c <= 57 then Some(c - 48) else if 97 <= c <= 102 then Some(c - 87) else None
  }

  function ReadHex4(t: Text): Option<Unit> {
    if |t| < 4 then None
    else match (HexValue(t[0]), HexValue(t[1]), HexValue(t[2]), HexValue(t[3]))
      case (Some(a), Some(b), Some(c), Some(d)) =>
        if a < 16 && b < 16 && c < 16 && d < 16 then Some(a * 4096 + b * 256 + c * 16 + d) else None
      case _ => None
  }

  function Unescaped(letter: Unit): Option<Unit> {
    if letter == QUOTE then Some(QUOTE)
    else if letter == BACKSLASH then Some(BACKSLASH)
    else if letter == 98 then Some(8)
    else if letter == 116 then Some(9)
    else if letter == 110 then Some(10)
    else if letter == 102 then Some(12)
    else if letter == 114 then Some(13)
    else None
  }

  /** The string whose opening quote has been read, and the text after its closing quote. */
  function ReadString(t: Text): (r: Option<(Text, Text)>)
    ensures r.Some? ==> |r.value.1| < |t|
  {
    if t == [] then None
    else if t[0] == QUOTE then Some(([], t[1..]))
    else if t[0] != BACKSLASH then Prepend(t[0], ReadString(t[1..]))
    else if |t| < 2 then None
    else if t[1] != LOWER_U then
      match Unescaped(t[1])
      case None => None
      case Some(c) => Prepend(c, ReadString(t[2..]))
    else
      match ReadHex4(t[2..])
      case None => None
      case Some(c) => Prepend(c, ReadString(t[6..]))
  }

  function Prepend(c: Unit, r: Option<(Text, Text)>): Option<(Text, Text)> {
    match r
    case None => None
    case Some(p) => Some(([c] + p.0, p.1))
  }

  lemma HexParts(c: Unit)
    ensures c / 4096 < 16 && c == c / 4096 * 4096 + c / 256 % 16 * 256 + c / 16 % 16 * 16 + c % 16
  {
    var d, e := c / 16, c / 256;
    assert c == d * 16 + c % 16 && d == c / 256 * 16 + d % 16 && e == c / 4096 * 16 + e % 16;
  }

  lemma HexReadsBack(c: Unit, rest: Text)
    ensures ReadHex4(Hex4(c) + rest) == Some(c)
  {
    HexParts(c);
    var a, b, d, e := c / 4096, c / 256 % 16, c / 16 % 16, c % 16;
    assert HexValue(HexDigit(a)) == Some(a) && HexValue(HexDigit(b)) == Some(b)
        && HexValue(HexDigit(d)) == Some(d) && HexValue(HexDigit(e)) == Some(e);
    hide HexValue, HexDigit;
    var t := Hex4(c) + rest;
    assert t[0] == HexDigit(a) && t[1] == HexDigit(b) && t[2] == HexDigit(d) && t[3] == HexDigit(e);
  }

  lemma UnitReadsBack(c: Unit, rest: Text)
    ensures ReadString(EscapeUnit(c) + rest) == Prepend(c, ReadString(rest))
  {
    var t := EscapeUnit(c) + rest;
    if ShortEscape(c).Some? {
      assert t[2..] == rest;
    } else if c < 32 || HighSurrogate(c) || LowSurrogate(c) {
      HexReadsBack(c, rest);
      assert t[2..] == Hex4(c) + rest;
      assert t[6..] == rest;
    } else {
      assert t[1..] == rest;
    }
  }

  lemma PairReadsBack(high: Unit, low: Unit, rest: Text)
    requires HighSurrogate(high) && LowSurrogate(low)
    ensures ReadString([high, low] + rest) == Prepend(high, Prepend(low, ReadString(rest)))
  {
    assert ([high, low] + rest)[1..] == [low] + rest;
    assert ([low] + rest)[1..] == rest;
  }

  lemma Regroups(a: Text, b: Text, rest: Text)
    ensures a + b + [QUOTE] + rest == a + (b + [QUOTE] + rest)
  {
  }

  lemma EscapeFirst(s: Text)
    requires s != []
    ensures |s| >= 2 && HighSurrogate(s[0]) && LowSurrogate(s[1]) ==> Escape(s) == [s[0], s[1]] + Escape(s[2..])
    ensures !(|s| >= 2 && HighSurrogate(s[0]) && LowSurrogate(s[1])) ==> Escape(s) == EscapeUnit(s[0]) + Escape(s[1..])
  {
    hide EscapeUnit, HighSurrogate, LowSurrogate;
  }

  lemma {:induction false} StringReadsBack(s: Text, rest: Text)
    ensures ReadString(Escape(s) + [QUOTE] + rest) == Some((s, rest))
  {
    if s == [] {
      var t := Escape(s) + [QUOTE] + rest;
      assert t == [QUOTE] + rest;
      assert t[1..] == rest;
    } else {
      hide ReadString, EscapeUnit, Escape;
      EscapeFirst(s);
      if |s| >= 2 && HighSurrogate(s[0]) && LowSurrogate(s[1]) {
        StringReadsBack(s[2..], rest);
        Regroups([s[0], s[1]], Escape(s[2..]), rest);
        PairReadsBack(s[0], s[1], Escape(s[2..]) + [QUOTE] + rest);
        assert s == [s[0]] + ([s[1]] + s[2..]);
      } else {
        StringReadsBack(s[1..], rest);
        Regroups(EscapeUnit(s[0]), Escape(s[1..]), rest);
        UnitReadsBack(s[0], Escape(s[1..]) + [QUOTE] + rest);
        assert s == [s[0]] + s[1..];
      }
    }
  }

  // ---- reading values --------------------------------------------------------------------------

  function NumberEnd(t: Text): (n: nat)
    ensures n <= |t|
  {
    if t != [] && NumberUnit(t[0]) then 1 + NumberEnd(t[1..]) else 0
  }

  function ReadValue(t: Text): (r: Option<(Value, Text)>)
    ensures r.Some? ==> |r.value.1| < |t|
    decreases |t|, 1
  {
    if t == [] then None
    else if NULL_TEXT <= t then Some((VNull, t[4..]))
    else if TRUE_TEXT <= t then Some((VBool(true), t[4..]))
    else if FALSE_TEXT <= t then Some((VBool(false), t[5..]))
    else if t[0] == QUOTE then
      match ReadString(t[1..])
      case None => None
      case Some(p) => Some((VStr(p.0), p.1))
    else if t[0] == OPEN_ARRAY then
      if |t| >= 2 && t[1] == CLOSE_ARRAY then Some((VArr([]), t[2..]))
      else
        match ReadItems(t[1..])
        case None => None
        case Some(p) => Some((VArr(p.0), p.1))
    else if t[0] == OPEN_OBJECT then
      if |t| >= 2 && t[1] == CLOSE_OBJECT then Some((VObj(map[]), t[2..]))
      else
        match ReadMembers(t[1..])
        case None => None
        case Some(p) => Some((VObj(p.0), p.1))
    else
      var n := NumberEnd(t);
      if n == 0 then None else Some((VNumber(t[..n]), t[n..]))
  }

  /** Items up to the closing bracket. */
  function ReadItems(t: Text): (r: Option<(seq<Value>, Text)>)
    ensures r.Some? ==> |r.value.1| < |t|
    decreases |t|, 2
  {
    match ReadValue(t)
    case None => None
    case Some(p) =>
      if p.1 == [] then None
      else if p.1[0] == CLOSE_ARRAY then Some(([p.0], p.1[1..]))
      else if p.1[0] == COMMA then
        match ReadItems(p.1[1..])
        case None => None
        case Some(q) => Some(([p.0] + q.0, q.1))
      else None
  }

  /** Members up to the closing brace. */
  function ReadMembers(t: Text): (r: Option<(map<Text, Value>, Text)>)
    ensures r.Some? ==> |r.value.1| < |t|
    decreases |t|, 2
  {
    if t == [] || t[0] != QUOTE then None
    else match ReadString(t[1..])
      case None => None
      case Some(k) =>
        if k.1 == [] || k.1[0] != COLON then None
        else match ReadValue(k.1[1..])
          case None => None
          case Some(p) =>
            if p.1 == [] then None
            else if p.1[0] == CLOSE_OBJECT then Some((map[k.0 := p.0], p.1[1..]))
            else if p.1[0] == COMMA then
              match ReadMembers(p.1[1..])
              case None => None
              case Some(q) => Some((q.0[k.0 := p.0], q.1))
            else None
  }

  // ---- canonical text reads back -------------------------------------------------------------------

  /** Text that does not continue a number. */
  predicate Delimited(rest: Text) {
    rest == [] || !NumberUnit(rest[0])
  }

  /** The text reads as the value whatever comes after it. */
  ghost predicate ReadsAs(text: Text, v: Value) {
    text != [] && text[0] != CLOSE_ARRAY && forall rest :: Delimited(rest) ==> ReadValue(text + rest) == Some((v, rest))
  }

  lemma {:induction false} NumberEnds(t: Text, rest: Text)
    requires (forall i :: 0 <= i < |t| ==> NumberUnit(t[i])) && Delimited(rest)
    ensures NumberEnd(t + rest) == |t|
  {
    if t == [] {
      assert t + rest == rest;
    } else {
      assert (t + rest)[1..] == t[1..] + rest;
      NumberEnds(t[1..], rest);
    }
  }

  lemma ReadsOn(text: Text, v: Value, rest: Text)
    requires ReadsAs(text, v) && Delimited(rest)
    ensures ReadValue(text + rest) == Some((v, rest))
  {
    hide ReadValue;
  }

  lemma LastItem(text: Text, v: Value, rest: Text)
    requires ReadsAs(text, v)
    ensures ReadItems(text + ([CLOSE_ARRAY] + rest)) == Some(([v], rest))
  {
    hide ReadValue, ReadsAs;
    ReadsOn(text, v, [CLOSE_ARRAY] + rest);
    assert ([CLOSE_ARRAY] + rest)[1..] == rest;
  }

  lemma NextItem(text: Text, v: Value, tail: Text)
    requires ReadsAs(text, v) && ReadItems(tail).Some?
    ensures ReadItems(text + ([COMMA] + tail)) == Some(([v] + ReadItems(tail).value.0, ReadItems(tail).value.1))
  {
    hide ReadValue, ReadsAs;
    ReadsOn(text, v, [COMMA] + tail);
    assert ([COMMA] + tail)[1..] == tail;
  }

  lemma {:induction false} ItemsReadBack(texts: seq<Text>, values: seq<Value>, rest: Text)
    requires |texts| == |values| >= 1
    requires forall i :: 0 <= i < |texts| ==> ReadsAs(texts[i], values[i])
    ensures ReadItems(JoinTexts(texts) + [CLOSE_ARRAY] + rest) == Some((values, rest))
  {
    hide ReadItems, ReadsAs;
    var t := JoinTexts(texts) + [CLOSE_ARRAY] + rest;
    if |texts| == 1 {
      assert t == texts[0] + ([CLOSE_ARRAY] + rest);
      LastItem(texts[0], values[0], rest);
      assert values == [values[0]];
    } else {
      var tail := JoinTexts(texts[1..]) + [CLOSE_ARRAY] + rest;
      ItemsReadBack(texts[1..], values[1..], rest);
      assert t == texts[0] + ([COMMA] + tail);
      NextItem(texts[0], values[0], tail);
      assert values == [values[0]] + values[1..];
    }
  }

  /** The members as a map; a later member of the list does not replace an earlier one. */
  ghost function MapOf(members: seq<Member>, values: seq<Value>): map<Text, Value>
    requires |members| == |values|
  {
    if members == [] then map[] else MapOf(members[1..], values[1..])[members[0].key := values[0]]
  }

  /** A member reads up to whatever comes after its value. */
  lemma MemberRead(m: Member, v: Value, after: Text)
    requires ReadsAs(m.text, v) && Delimited(after)
    ensures var t := PrintedMember(m) + after;
            && t != [] && t[0] == QUOTE
            && ReadString(t[1..]) == Some((m.key, [COLON] + (m.text + after)))
            && ReadValue(([COLON] + (m.text + after))[1..]) == Some((v, after))
  {
    hide ReadString, ReadValue, ReadsAs, Escape;
    var t := PrintedMember(m) + after;
    var value := [COLON] + (m.text + after);
    assert t[1..] == Escape(m.key) + [QUOTE] + value;
    StringReadsBack(m.key, value);
    assert value[1..] == m.text + after;
    ReadsOn(m.text, v, after);
  }

  lemma LastMember(m: Member, v: Value, rest: Text)
    requires ReadsAs(m.text, v)
    ensures ReadMembers(PrintedMember(m) + ([CLOSE_OBJECT] + rest)) == Some((map[m.key := v], rest))
  {
    hide ReadString, ReadValue, ReadsAs, PrintedMember;
    MemberRead(m, v, [CLOSE_OBJECT] + rest);
    assert ([CLOSE_OBJECT] + rest)[1..] == rest;
  }

  lemma NextMember(m: Member, v: Value, tail: Text)
    requires ReadsAs(m.text, v) && ReadMembers(tail).Some?
    ensures ReadMembers(PrintedMember(m) + ([COMMA] + tail)) == Some((ReadMembers(tail).value.0[m.key := v], ReadMembers(tail).value.1))
  {
    hide ReadString, ReadValue, ReadsAs, PrintedMember;
    MemberRead(m, v, [COMMA] + tail);
    assert ([COMMA] + tail)[1..] == tail;
  }

  lemma {:induction false} MembersReadBack(members: seq<Member>, values: seq<Value>, rest: Text)
    requires |members| == |values| >= 1
    requires forall i :: 0 <= i < |members| ==> ReadsAs(members[i].text, values[i])
    ensures ReadMembers(JoinMembers(members) + [CLOSE_OBJECT] + rest) == Some((MapOf(members, values), rest))
  {
    hide ReadMembers, ReadsAs, PrintedMember;
    var t := JoinMembers(members) + [CLOSE_OBJECT] + rest;
    if |members| == 1 {
      assert t == PrintedMember(members[0]) + ([CLOSE_OBJECT] + rest);
      LastMember(members[0], values[0], rest);
      assert MapOf(members[1..], values[1..]) == map[];
    } else {
      var tail := JoinMembers(members[1..]) + [CLOSE_OBJECT] + rest;
      MembersReadBack(members[1..], values[1..], rest);
      assert t == PrintedMember(members[0]) + ([COMMA] + tail);
      NextMember(members[0], values[0], tail);
    }
  }
}
