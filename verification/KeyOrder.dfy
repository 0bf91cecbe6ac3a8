/** The order of keys and hashes on their code units, and the text under every digest written out in it. */
module KeyOrder {
  import opened Wrappers
  import opened SortedText
  import opened CanonicalJson
  import opened CanonicalJsonReader
  import opened CanonicalJsonTheorem

  // ---- the order ---------------------------------------------------------------------------------------

  /** a comes before b: it is a proper beginning of b, or smaller at the first unit where they differ. */
  ghost predicate Precedes(a: Text, b: Text) {
    || (|a| < |b| && b[..|a|] == a)
    || (exists k :: 0 <= k < |a| && k < |b| && a[..k] == b[..k] && a[k] < b[k])
  }

  lemma {:induction false} SmallerIsLess(a: Text, b: Text, k: nat)
    requires k < |a| && k < |b| && a[..k] == b[..k] && a[k] < b[k]
    ensures LessEq(a, b) && !LessEq(b, a)
  {
    if k > 0 {
      assert a[0] == a[..k][0] == b[..k][0] == b[0];
      assert a[1..][..k - 1] == a[..k][1..] && b[1..][..k - 1] == b[..k][1..];
      SmallerIsLess(a[1..], b[1..], k - 1);
    }
  }

  lemma {:induction false} BeginningIsLess(a: Text, b: Text)
    requires |a| <= |b| && b[..|a|] == a
    ensures LessEq(a, b) && (|a| < |b| ==> !LessEq(b, a))
  {
    if a != [] {
      assert a[0] == b[..|a|][0] == b[0];
      assert b[1..][..|a| - 1] == b[..|a|][1..];
      BeginningIsLess(a[1..], b[1..]);
    }
  }

  /** Two texts are the same up to some place, where one ends or they differ. */
  lemma FirstDifference(a: Text, b: Text) returns (k: nat)
    ensures k <= |a| && k <= |b| && a[..k] == b[..k] && (k == |a| || k == |b| || a[k] != b[k])
  {
    k := 0;
    while k < |a| && k < |b| && a[k] == b[k]
      invariant k <= |a| && k <= |b| && a[..k] == b[..k]
    {
      assert a[..k + 1] == a[..k] + [a[k]] && b[..k + 1] == b[..k] + [b[k]];
      k := k + 1;
    }
  }

  /** The order the texts and lists are sorted by is that one. */
  lemma LessEqExactlyWhen(a: Text, b: Text)
    ensures LessEq(a, b) <==> a == b || Precedes(a, b)
  {
    var k := FirstDifference(a, b);
    if k < |a| && k < |b| {
      if a[k] < b[k] { SmallerIsLess(a, b, k); } else { SmallerIsLess(b, a, k); }
      if Precedes(a, b) && a[k] > b[k] { PrecedesIsLess(a, b); }
    } else if k == |a| {
      assert a[..k] == a;
      BeginningIsLess(a, b);
      assert |a| == |b| ==> b[..k] == b;
    } else {
      assert b[..k] == b;
      BeginningIsLess(b, a);
      if Precedes(a, b) { PrecedesIsLess(a, b); }
    }
  }

  lemma PrecedesIsLess(a: Text, b: Text)
    requires Precedes(a, b)
    ensures LessEq(a, b)
  {
    if |a| < |b| && b[..|a|] == a {
      BeginningIsLess(a, b);
    } else {
      var k :| 0 <= k < |a| && k < |b| && a[..k] == b[..k] && a[k] < b[k];
      SmallerIsLess(a, b, k);
    }
  }

  // ---- objects -------------------------------------------------------------------------------------------

  /** An object member in JSON: the quoted key, a colon, the value. */
  function MemberText(m: Member): Text {
    [34] + Escape(m.key) + [34, 58] + m.text
  }

  /** Texts with commas between them. */
  function Commas(texts: seq<Text>): Text {
    if texts == [] then [] else if |texts| == 1 then texts[0] else texts[0] + [44] + Commas(texts[1..])
  }

  function MemberTexts(members: seq<Member>): (r: seq<Text>)
    ensures |r| == |members| && forall i :: 0 <= i < |members| ==> r[i] == MemberText(members[i])
  {
    seq(|members|, i requires 0 <= i < |members| => MemberText(members[i]))
  }

  lemma {:induction false} MembersAreJoined(members: seq<Member>)
    ensures JoinMembers(members) == Commas(MemberTexts(members))
  {
    hide Escape;
    if |members| > 0 {
      assert PrintedMember(members[0]) == MemberText(members[0]);
      if |members| > 1 {
        MembersAreJoined(members[1..]);
        assert MemberTexts(members)[1..] == MemberTexts(members[1..]);
      }
    }
  }

  lemma {:induction false} TextsAreJoined(texts: seq<Text>)
    ensures JoinTexts(texts) == Commas(texts)
  {
    if |texts| > 1 { TextsAreJoined(texts[1..]); }
  }

  /** The members of an object stand in its text once each, between braces and commas, at keys that strictly increase. */
  lemma MembersStandInOrder(entries: seq<Entry>) returns (members: seq<Member>)
    requires DistinctKeys(entries)
    ensures Canonical(Obj(entries)) == [123] + Commas(MemberTexts(members)) + [125]
    ensures |members| == |entries|
    ensures forall i :: 0 <= i < |entries| ==> Member(entries[i].key, Canonical(entries[i].value)) in members
    ensures forall i, j :: 0 <= i < j < |members| ==> Precedes(members[i].key, members[j].key)
  {
    hide Canonical, JoinMembers, Precedes, Escape;
    var printed := PrintedMembers(entries);
    members := Sort(MemberLessEq, printed);
    MemberOrderIsTotal();
    SortSorts(MemberLessEq, printed);
    SortKeepsElements(MemberLessEq, printed);
    KeysSeparate(entries);
    DistinctByMultiset(printed, members);
    assert |multiset(members)| == |multiset(printed)|;
    ObjectText(entries);
    MembersAreJoined(members);
    forall i | 0 <= i < |entries|
      ensures Member(entries[i].key, Canonical(entries[i].value)) in members
    {
      assert printed[i] in members;
    }
    forall i, j | 0 <= i < j < |members|
      ensures Precedes(members[i].key, members[j].key)
    {
      assert members[i] in printed && members[j] in printed && members[i] != members[j];
      assert MemberLessEq(members[i], members[j]);
      LessEqExactlyWhen(members[i].key, members[j].key);
      LessEqTotal(members[i].key, members[j].key);
    }
  }

  /** `{"a":null,"b":null}`, in whichever order its keys are given. */
  lemma TwoKeys()
    ensures var text := [123, 34, 97, 34, 58, 110, 117, 108, 108, 44, 34, 98, 34, 58, 110, 117, 108, 108, 125];
            && Canonical(Obj([Entry([97], Null), Entry([98], Null)])) == text
            && Canonical(Obj([Entry([98], Null), Entry([97], Null)])) == text
  {
    var a, b := Entry([97], Null), Entry([98], Null);
    Pair(a, b, [a, b]);
    Pair(a, b, [b, a]);
  }

  lemma SimpleMember(u: Unit)
    requires u == 97 || u == 98
    ensures MemberText(Member([u], NULL_TEXT)) == [34, u, 34, 58, 110, 117, 108, 108]
  {
    assert Escape([u]) == EscapeUnit(u) + Escape([u][1..]);
  }

  lemma TwoTexts(s: Text, t: Text)
    ensures Commas([s, t]) == s + [44] + t
  {
    assert [s, t][1..] == [t];
  }

  lemma NotDescending()
    ensures !Precedes([98], [97])
  {
  }

  lemma OnlyOrder(members: seq<Member>, x: Member, y: Member)
    requires |members| == 2 && x in members && y in members && x != y && !Precedes(y.key, x.key)
    requires forall i, j :: 0 <= i < j < |members| ==> Precedes(members[i].key, members[j].key)
    ensures members == [x, y]
  {
    hide Precedes;
    assert Precedes(members[0].key, members[1].key);
  }

  lemma PairText(members: seq<Member>)
    requires members == [Member([97], NULL_TEXT), Member([98], NULL_TEXT)]
    ensures [123] + Commas(MemberTexts(members)) + [125] ==
              [123, 34, 97, 34, 58, 110, 117, 108, 108, 44, 34, 98, 34, 58, 110, 117, 108, 108, 125]
  {
    hide MemberText, Commas, NULL_TEXT;
    SimpleMember(97);
    SimpleMember(98);
    assert MemberTexts(members) == [MemberText(members[0]), MemberText(members[1])];
    TwoTexts(MemberText(members[0]), MemberText(members[1]));
  }

  lemma Pair(a: Entry, b: Entry, entries: seq<Entry>)
    requires a == Entry([97], Null) && b == Entry([98], Null) && (entries == [a, b] || entries == [b, a])
    ensures Canonical(Obj(entries)) == [123, 34, 97, 34, 58, 110, 117, 108, 108, 44, 34, 98, 34, 58, 110, 117, 108, 108, 125]
  {
    assert Canonical(entries[0].value) == NULL_TEXT && Canonical(entries[1].value) == NULL_TEXT;
    hide Canonical, Precedes, Commas, MemberText, NULL_TEXT;
    var members := MembersStandInOrder(entries);
    assert Member(entries[0].key, NULL_TEXT) in members && Member(entries[1].key, NULL_TEXT) in members;
    NotDescending();
    OnlyOrder(members, Member([97], NULL_TEXT), Member([98], NULL_TEXT));
    PairText(members);
  }

  // ---- the other values and the escapes ---------------------------------------------------------------------

  function ItemTexts(items: seq<Json>): (r: seq<Text>)
    ensures |r| == |items| && forall i :: 0 <= i < |items| ==> r[i] == Canonical(items[i])
  {
    seq(|items|, i requires 0 <= i < |items| => Canonical(items[i]))
  }

  /** null, true, false, a number as it is written, a string between quotes, and an array's items in their own order. */
  lemma OtherValuesAreWritten(t: Text, items: seq<Json>)
    ensures Canonical(Null) == [110, 117, 108, 108]
    ensures Canonical(Bool(true)) == [116, 114, 117, 101] && Canonical(Bool(false)) == [102, 97, 108, 115, 101]
    ensures Canonical(Number(t)) == t && Canonical(Str(t)) == [34] + Escape(t) + [34]
    ensures Canonical(Arr(items)) == [91] + Commas(ItemTexts(items)) + [93]
  {
    hide Escape, JoinTexts, Commas;
    TextsAreJoined(ItemTexts(items));
    assert ItemTexts(items) == seq(|items|, i requires 0 <= i < |items| => Canonical(items[i]));
  }

  function LowerHex(d: nat): Unit
    requires d < 16
  {
    [48, 49, 50, 51, 52, 53, 54, 55, 56, 57, 97, 98, 99, 100, 101, 102][d]
  }

  /** A unit as JSON writes it: quotes, backslashes and control units escaped, and a surrogate without its other half. */
  function UnitText(c: Unit): Text {
    if c == 34 then [92, 34] else if c == 92 then [92, 92]
    else if c == 8 then [92, 98] else if c == 9 then [92, 116] else if c == 10 then [92, 110]
    else if c == 12 then [92, 102] else if c == 13 then [92, 114]
    else if c < 32 then [92, 117, 48, 48, LowerHex(c / 16), LowerHex(c % 16)]
    else if 0xD800 <= c <= 0xDFFF then [92, 117, 100, LowerHex(c / 256 % 16), LowerHex(c / 16 % 16), LowerHex(c % 16)]
    else [c]
  }

  lemma Digits(c: Unit)
    ensures forall d :: 0 <= d < 16 ==> HexDigit(d) == LowerHex(d)
    ensures c < 32 ==> c / 4096 == 0 && c / 256 % 16 == 0 && c / 16 % 16 == c / 16
    ensures 0xD800 <= c <= 0xDFFF ==> c / 4096 == 13
    ensures HexDigit(0) == 48 && HexDigit(13) == 100
  {
  }

  lemma UnitIsWritten(c: Unit)
    ensures EscapeUnit(c) == UnitText(c)
  {
    Digits(c);
    hide HexDigit, LowerHex;
  }

  /** The first unit of a string is written like that, unless it and the next are a surrogate pair, which stands as it is. */
  lemma FirstUnitIsWritten(c: Unit, rest: Text)
    ensures Escape([]) == []
    ensures Escape([c] + rest) ==
              if 0xD800 <= c <= 0xDBFF && rest != [] && 0xDC00 <= rest[0] <= 0xDFFF then [c, rest[0]] + Escape(rest[1..])
              else UnitText(c) + Escape(rest)
  {
    EscapeFirst([c] + rest);
    UnitIsWritten(c);
    assert ([c] + rest)[1..] == rest;
    assert rest != [] ==> ([c] + rest)[2..] == rest[1..];
    assert Escape([]) == [];
    hide Escape, UnitText, EscapeUnit;
  }
}
