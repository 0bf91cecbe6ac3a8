/** Two JSON values have the same canonical text exactly when they are equal up to the order of object keys. */
module CanonicalJsonTheorem {
  import opened Wrappers
  import opened SortedText
  import opened CanonicalJson
  import opened CanonicalJsonReader

  // ---- objects as maps -------------------------------------------------------------------------

  lemma {:induction false} MeaningAt(entries: seq<Entry>, i: nat)
    requires DistinctKeys(entries) && i < |entries|
    ensures entries[i].key in MeaningOfEntries(entries)
    ensures MeaningOfEntries(entries)[entries[i].key] == Meaning(entries[i].value)
  {
    if i > 0 { MeaningAt(entries[1..], i - 1); }
  }

  lemma {:induction false} MeaningKeys(entries: seq<Entry>, k: Text)
    ensures k in MeaningOfEntries(entries) <==> exists i :: 0 <= i < |entries| && entries[i].key == k
  {
    if entries != [] {
      MeaningKeys(entries[1..], k);
      if k in MeaningOfEntries(entries[1..]) {
        var i :| 0 <= i < |entries[1..]| && entries[1..][i].key == k;
        assert entries[i + 1].key == k;
      }
      if i :| 0 <= i < |entries| && entries[i].key == k {
        if i > 0 { assert entries[1..][i - 1].key == k; }
      }
    }
  }

  lemma MemberOrderIsTotal()
    ensures TotalPreorder(MemberLessEq)
  {
    forall a: Member, b: Member
      ensures MemberLessEq(a, b) || MemberLessEq(b, a)
    {
      LessEqTotal(a.key, b.key);
    }
    forall a: Member, b: Member, c: Member | MemberLessEq(a, b) && MemberLessEq(b, c)
      ensures MemberLessEq(a, c)
    {
      LessEqTransitive(a.key, b.key, c.key);
    }
  }

  lemma KeysSeparate(entries: seq<Entry>)
    requires DistinctKeys(entries)
    ensures Separates(MemberLessEq, PrintedMembers(entries)) && Distinct(PrintedMembers(entries))
  {
    hide Canonical;
    var s := PrintedMembers(entries);
    forall a, b | a in s && b in s && MemberLessEq(a, b) && MemberLessEq(b, a)
      ensures a == b
    {
      LessEqTotal(a.key, b.key);
    }
  }

  // ---- reading back --------------------------------------------------------------------------------

  lemma {:induction false} MapOfListed(members: seq<Member>, values: seq<Value>, all: map<Text, Value>)
    requires |members| == |values|
    requires forall i :: 0 <= i < |members| ==> members[i].key in all && values[i] == all[members[i].key]
    ensures forall k :: k in MapOf(members, values) ==> k in all && MapOf(members, values)[k] == all[k]
    ensures forall i :: 0 <= i < |members| ==> members[i].key in MapOf(members, values)
  {
    if members != [] { MapOfListed(members[1..], values[1..], all); }
  }

  lemma ConstantsRead()
    ensures ReadsAs(NULL_TEXT, VNull) && ReadsAs(TRUE_TEXT, VBool(true)) && ReadsAs(FALSE_TEXT, VBool(false))
  {
    forall rest: Text
      ensures ReadValue(NULL_TEXT + rest) == Some((VNull, rest))
      ensures ReadValue(TRUE_TEXT + rest) == Some((VBool(true), rest))
      ensures ReadValue(FALSE_TEXT + rest) == Some((VBool(false), rest))
    {
      assert (NULL_TEXT + rest)[4..] == rest && (TRUE_TEXT + rest)[4..] == rest && (FALSE_TEXT + rest)[5..] == rest;
    }
  }

  lemma NumberReads(t: Text)
    requires NumberText(t)
    ensures ReadsAs(t, VNumber(t))
  {
    forall rest | Delimited(rest)
      ensures ReadValue(t + rest) == Some((VNumber(t), rest))
    {
      NumberEnds(t, rest);
      assert (t + rest)[..|t|] == t && (t + rest)[|t|..] == rest;
      assert (t + rest)[0] == t[0];
    }
  }

  lemma OpensString(t: Text)
    requires t != [] && t[0] == QUOTE && ReadString(t[1..]).Some?
    ensures ReadValue(t) == Some((VStr(ReadString(t[1..]).value.0), ReadString(t[1..]).value.1))
  {
    hide ReadString;
  }

  lemma StringReadsOn(s: Text, rest: Text)
    ensures ReadValue(Quote(s) + rest) == Some((VStr(s), rest))
  {
    hide ReadString, Escape, ReadValue;
    var t := Quote(s) + rest;
    assert t[1..] == Escape(s) + [QUOTE] + rest;
    StringReadsBack(s, rest);
    OpensString(t);
  }

  lemma StringReads(s: Text)
    ensures ReadsAs(Quote(s), VStr(s))
  {
    hide ReadString, Escape, ReadValue;
    forall rest: Text
      ensures ReadValue(Quote(s) + rest) == Some((VStr(s), rest))
    {
      StringReadsOn(s, rest);
    }
  }

  lemma OpensArray(t: Text)
    requires |t| >= 2 && t[0] == OPEN_ARRAY
    ensures t[1] == CLOSE_ARRAY ==> ReadValue(t) == Some((VArr([]), t[2..]))
    ensures t[1] != CLOSE_ARRAY && ReadItems(t[1..]).Some? ==>
      ReadValue(t) == Some((VArr(ReadItems(t[1..]).value.0), ReadItems(t[1..]).value.1))
  {
  }

  lemma OpensObject(t: Text)
    requires |t| >= 2 && t[0] == OPEN_OBJECT
    ensures t[1] == CLOSE_OBJECT ==> ReadValue(t) == Some((VObj(map[]), t[2..]))
    ensures t[1] != CLOSE_OBJECT && ReadMembers(t[1..]).Some? ==>
      ReadValue(t) == Some((VObj(ReadMembers(t[1..]).value.0), ReadMembers(t[1..]).value.1))
  {
  }

  lemma ReadsFirst(text: Text, v: Value)
    requires ReadsAs(text, v)
    ensures text != [] && text[0] != CLOSE_ARRAY
  {
    hide ReadValue;
  }

  lemma ArrayReadsOn(texts: seq<Text>, values: seq<Value>, rest: Text)
    requires |texts| == |values|
    requires forall i :: 0 <= i < |texts| ==> ReadsAs(texts[i], values[i])
    ensures ReadValue([OPEN_ARRAY] + JoinTexts(texts) + [CLOSE_ARRAY] + rest) == Some((VArr(values), rest))
  {
    hide ReadItems, ReadValue, ReadsAs;
    var t := [OPEN_ARRAY] + JoinTexts(texts) + [CLOSE_ARRAY] + rest;
    OpensArray(t);
    if texts == [] {
      assert t[2..] == rest;
    } else {
      ItemsReadBack(texts, values, rest);
      assert t[1..] == JoinTexts(texts) + [CLOSE_ARRAY] + rest;
      ReadsFirst(texts[0], values[0]);
      assert t[1] == texts[0][0];
    }
  }

  lemma ArrayReads(texts: seq<Text>, values: seq<Value>)
    requires |texts| == |values|
    requires forall i :: 0 <= i < |texts| ==> ReadsAs(texts[i], values[i])
    ensures ReadsAs([OPEN_ARRAY] + JoinTexts(texts) + [CLOSE_ARRAY], VArr(values))
  {
    hide ReadValue, JoinTexts;
    forall rest: Text
      ensures ReadValue([OPEN_ARRAY] + JoinTexts(texts) + [CLOSE_ARRAY] + rest) == Some((VArr(values), rest))
    {
      ArrayReadsOn(texts, values, rest);
    }
  }

  lemma ObjectReadsOn(members: seq<Member>, values: seq<Value>, rest: Text)
    requires |members| == |values|
    requires forall i :: 0 <= i < |members| ==> ReadsAs(members[i].text, values[i])
    ensures ReadValue([OPEN_OBJECT] + JoinMembers(members) + [CLOSE_OBJECT] + rest) == Some((VObj(MapOf(members, values)), rest))
  {
    hide ReadMembers, ReadValue, Escape, ReadsAs;
    var t := [OPEN_OBJECT] + JoinMembers(members) + [CLOSE_OBJECT] + rest;
    OpensObject(t);
    if members == [] {
      assert t[2..] == rest;
    } else {
      hide MapOf;
      MembersReadBack(members, values, rest);
      assert t[1..] == JoinMembers(members) + [CLOSE_OBJECT] + rest;
      assert t[1] == PrintedMember(members[0])[0] == QUOTE;
    }
  }

  lemma ObjectReads(members: seq<Member>, values: seq<Value>)
    requires |members| == |values|
    requires forall i :: 0 <= i < |members| ==> ReadsAs(members[i].text, values[i])
    ensures ReadsAs([OPEN_OBJECT] + JoinMembers(members) + [CLOSE_OBJECT], VObj(MapOf(members, values)))
  {
    hide ReadValue, JoinMembers, MapOf;
    forall rest: Text
      ensures ReadValue([OPEN_OBJECT] + JoinMembers(members) + [CLOSE_OBJECT] + rest) == Some((VObj(MapOf(members, values)), rest))
    {
      ObjectReadsOn(members, values, rest);
    }
  }

  /** The canonical text of a value reads as the value's meaning, whatever text follows. */
  lemma {:induction false} CanonicalReads(v: Json)
    requires Valid(v)
    ensures ReadsAs(Canonical(v), Meaning(v))
    decreases v
  {
    hide ReadsAs;
    match v {
      case Null => ConstantsRead();
      case Bool(b) => ConstantsRead();
      case Number(t) => NumberReads(t);
      case Str(s) => StringReads(s);
      case Arr(items) =>
        var texts := seq(|items|, i requires 0 <= i < |items| => Canonical(items[i]));
        var values := seq(|items|, i requires 0 <= i < |items| => Meaning(items[i]));
        forall i | 0 <= i < |items|
          ensures ReadsAs(texts[i], values[i])
        {
          CanonicalReads(items[i]);
        }
        ArrayReads(texts, values);
      case Obj(entries) =>
        forall i | 0 <= i < |entries|
          ensures ReadsAs(Canonical(entries[i].value), Meaning(entries[i].value))
        {
          CanonicalReads(entries[i].value);
        }
        EntriesRead(entries);
    }
  }

  ghost predicate ListsAll(members: seq<Member>, all: map<Text, Value>) {
    forall k :: k in all ==> exists j :: 0 <= j < |members| && members[j].key == k
  }

  lemma EntriesRead(entries: seq<Entry>)
    requires DistinctKeys(entries)
    requires forall i :: 0 <= i < |entries| ==> ReadsAs(Canonical(entries[i].value), Meaning(entries[i].value))
    ensures ReadsAs(Canonical(Obj(entries)), VObj(MeaningOfEntries(entries)))
  {
    hide ReadsAs, Meaning, MeaningOfEntries, Canonical, JoinMembers, Sort, MemberLessEq, PrintedMembers, DistinctKeys, ListsAll;
    SortedMembersRead(entries);
    ObjectText(entries);
    MembersReadAs(Sort(MemberLessEq, PrintedMembers(entries)), MeaningOfEntries(entries));
  }

  lemma ObjectText(entries: seq<Entry>)
    ensures Canonical(Obj(entries)) ==
      [OPEN_OBJECT] + JoinMembers(Sort(MemberLessEq, PrintedMembers(entries))) + [CLOSE_OBJECT]
  {
    hide JoinMembers, Sort, PrintedMembers, MemberLessEq;
  }

  lemma MembersReadAs(members: seq<Member>, all: map<Text, Value>)
    requires forall i :: 0 <= i < |members| ==> members[i].key in all && ReadsAs(members[i].text, all[members[i].key])
    requires ListsAll(members, all)
    ensures ReadsAs([OPEN_OBJECT] + JoinMembers(members) + [CLOSE_OBJECT], VObj(all))
  {
    hide ReadsAs, MapOf, JoinMembers;
    var values := seq(|members|, i requires 0 <= i < |members| => all[members[i].key]);
    ObjectReads(members, values);
    MapOfListed(members, values, all);
    assert MapOf(members, values) == all;
  }

  /** The sorted members list every key, each with a text that reads as that key's value. */
  lemma SortedMembersRead(entries: seq<Entry>)
    requires DistinctKeys(entries)
    requires forall i :: 0 <= i < |entries| ==> ReadsAs(Canonical(entries[i].value), Meaning(entries[i].value))
    ensures var members := Sort(MemberLessEq, PrintedMembers(entries));
            var all := MeaningOfEntries(entries);
            && (forall i :: 0 <= i < |members| ==> members[i].key in all && ReadsAs(members[i].text, all[members[i].key]))
            && ListsAll(members, all)
  {
    hide ReadsAs, Meaning, MeaningOfEntries, Sort, Canonical, MemberLessEq;
    var printed := PrintedMembers(entries);
    var members := Sort(MemberLessEq, printed);
    var all := MeaningOfEntries(entries);
    MemberOrderIsTotal();
    SortKeepsElements(MemberLessEq, printed);
    forall i | 0 <= i < |members|
      ensures members[i].key in all && ReadsAs(members[i].text, all[members[i].key])
    {
      assert members[i] in printed;
      var j :| 0 <= j < |printed| && printed[j] == members[i];
      MeaningAt(entries, j);
    }
    forall k | k in all
      ensures exists j :: 0 <= j < |members| && members[j].key == k
    {
      MeaningKeys(entries, k);
      var i :| 0 <= i < |entries| && entries[i].key == k;
      assert printed[i] in members;
      var j :| 0 <= j < |members| && members[j] == printed[i];
      assert members[j].key == k;
    }
  }

  // ---- the other direction ---------------------------------------------------------------------------

  /** Values of one meaning print the same. */
  lemma {:induction false} SameMeaningSameText(v: Json, w: Json)
    requires Valid(v) && Valid(w) && Meaning(v) == Meaning(w)
    ensures Canonical(v) == Canonical(w)
    decreases v
  {
    match v {
      case Arr(items) =>
        var mine := Meaning(v).items;
        var others := Meaning(w).items;
        assert |mine| == |items| && |others| == |w.items|;
        forall i | 0 <= i < |items|
          ensures Canonical(items[i]) == Canonical(w.items[i])
        {
          assert mine[i] == others[i];
          SameMeaningSameText(items[i], w.items[i]);
        }
        assert seq(|items|, i requires 0 <= i < |items| => Canonical(items[i]))
            == seq(|w.items|, i requires 0 <= i < |w.items| => Canonical(w.items[i]));
      case Obj(entries) =>
        forall i, j | 0 <= i < |entries| && 0 <= j < |w.entries| && entries[i].key == w.entries[j].key
          ensures Canonical(entries[i].value) == Canonical(w.entries[j].value)
        {
          MeaningAt(entries, i);
          MeaningAt(w.entries, j);
          SameMeaningSameText(entries[i].value, w.entries[j].value);
        }
        SameEntriesSameText(entries, w.entries);
      case _ =>
    }
  }

  lemma SameEntriesSameText(a: seq<Entry>, b: seq<Entry>)
    requires DistinctKeys(a) && DistinctKeys(b) && MeaningOfEntries(a).Keys == MeaningOfEntries(b).Keys
    requires forall i, j :: 0 <= i < |a| && 0 <= j < |b| && a[i].key == b[j].key ==> Canonical(a[i].value) == Canonical(b[j].value)
    ensures Canonical(Obj(a)) == Canonical(Obj(b))
  {
    var p, q := PrintedMembers(a), PrintedMembers(b);
    assert forall x :: x in p <==> x in q by {
      hide Canonical, Meaning, MeaningOfEntries;
      forall i | 0 <= i < |a|
        ensures p[i] in q
      {
        MeaningKeys(a, a[i].key);
        MeaningKeys(b, a[i].key);
        var j :| 0 <= j < |b| && b[j].key == a[i].key;
        assert q[j] == p[i];
      }
      forall j | 0 <= j < |b|
        ensures q[j] in p
      {
        MeaningKeys(a, b[j].key);
        MeaningKeys(b, b[j].key);
        var i :| 0 <= i < |a| && a[i].key == b[j].key;
        assert p[i] == q[j];
      }
    }
    KeysSeparate(a);
    KeysSeparate(b);
    SameElementsSameMultiset(p, q);
    MemberOrderIsTotal();
    SortForgetsOrder(MemberLessEq, p, q);
  }

  lemma SameTextExactlyWhenSameMeaning(v: Json, w: Json)
    requires Valid(v) && Valid(w)
    ensures Canonical(v) == Canonical(w) <==> Meaning(v) == Meaning(w)
  {
    if Canonical(v) == Canonical(w) {
      CanonicalReads(v);
      CanonicalReads(w);
      ReadsOn(Canonical(v), Meaning(v), []);
      ReadsOn(Canonical(w), Meaning(w), []);
    } else if Meaning(v) == Meaning(w) {
      SameMeaningSameText(v, w);
    }
  }
}
