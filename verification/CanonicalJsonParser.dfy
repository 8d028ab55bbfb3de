/** A reader that undoes the canonical printer (RFC 8259, sections 2 to 7, without whitespace). */
module CanonicalJsonParser {
  import opened Basics
  import opened Text
  import opened CanonicalJson

  /** The longest run of number characters. */
  function NumberRun(t: Text): (r: nat)
    ensures r <= |t|
  {
    if t == [] || !NumberChar(t[0]) then 0 else 1 + NumberRun(t[1..])
  }

  function ReadNumber(t: Text): (r: Option<(Js, Text)>)
    ensures r.Some? ==> |r.value.1| < |t|
  {
    var k := NumberRun(t);
    if k == 0 then None
    else if FloatText(t[..k]) then Some((Float(t[..k]), t[k..]))
    else Some((Int(DecimalValue(t[..k])), t[k..]))
  }

  function ReadWord(t: Text, word: Text, v: Js): Option<(Js, Text)> {
    if word <= t then Some((v, t[|word|..])) else None
  }

  function ParseValue(t: Text): (r: Option<(Js, Text)>)
    ensures r.Some? ==> |r.value.1| < |t|
    decreases |t|, 0
  {
    if t == [] then None
    else if t[0] == QUOTE then
      var s := ReadString(t);
      if s.None? then None else Some((Str(s.value.0), s.value.1))
    else if t[0] == OPEN_ARR then
      if |t| >= 2 && t[1] == CLOSE_ARR then Some((Arr([]), t[2..]))
      else
        var items := ParseItems(t[1..]);
        if items.None? then None else Some((Arr(items.value.0), items.value.1))
    else if t[0] == OPEN_OBJ then
      if |t| >= 2 && t[1] == CLOSE_OBJ then Some((Obj([]), t[2..]))
      else
        var ms := ParseMembers(t[1..]);
        if ms.None? then None else Some((Obj(ms.value.0), ms.value.1))
    else if t[0] == 110 then ReadWord(t, Ascii("null"), Null)
    else if t[0] == 116 then ReadWord(t, Ascii("true"), Bool(true))
    else if t[0] == 102 then ReadWord(t, Ascii("false"), Bool(false))
    else ReadNumber(t)
  }

  function ParseItems(t: Text): (r: Option<(seq<Js>, Text)>)
    ensures r.Some? ==> |r.value.1| < |t|
    decreases |t|, 1
  {
    var v := ParseValue(t);
    if v.None? || v.value.1 == [] then None
    else if v.value.1[0] == CLOSE_ARR then Some(([v.value.0], v.value.1[1..]))
    else if v.value.1[0] == COMMA then
      var more := ParseItems(v.value.1[1..]);
      if more.None? then None else Some(([v.value.0] + more.value.0, more.value.1))
    else None
  }

  function ParseMember(t: Text): (r: Option<(Member, Text)>)
    ensures r.Some? ==> |r.value.1| < |t|
    decreases |t|, 1
  {
    var k := ReadString(t);
    if k.None? || k.value.1 == [] || k.value.1[0] != COLON then None
    else
      var v := ParseValue(k.value.1[1..]);
      if v.None? then None else Some((Member(k.value.0, v.value.0), v.value.1))
  }

  function ParseMembers(t: Text): (r: Option<(seq<Member>, Text)>)
    ensures r.Some? ==> |r.value.1| < |t|
    decreases |t|, 2
  {
    var m := ParseMember(t);
    if m.None? || m.value.1 == [] then None
    else if m.value.1[0] == CLOSE_OBJ then Some(([m.value.0], m.value.1[1..]))
    else if m.value.1[0] == COMMA then
      var more := ParseMembers(m.value.1[1..]);
      if more.None? then None else Some(([m.value.0] + more.value.0, more.value.1))
    else None
  }

  // ---------- round trip ----------

  /** What may follow a value: nothing that could belong to a number. */
  predicate Stops(rest: Text) {
    rest == [] || !NumberChar(rest[0])
  }

  lemma {:induction false} NumberRunIs(t: Text, rest: Text)
    requires (forall i :: 0 <= i < |t| ==> NumberChar(t[i])) && Stops(rest)
    ensures NumberRun(t + rest) == |t|
    decreases |t|
  {
    if t == [] {
      assert t + rest == rest;
    } else {
      assert (t + rest)[1..] == t[1..] + rest;
      NumberRunIs(t[1..], rest);
    }
  }

  lemma DecimalIsNumber(n: int)
    ensures forall i :: 0 <= i < |Decimal(n)| ==> NumberChar(Decimal(n)[i])
    ensures !FloatText(Decimal(n))
    ensures Decimal(n)[0] == MINUS || IsDigit(Decimal(n)[0])
  {
    if n < 0 {
      forall i | 0 <= i < |Decimal(n)| ensures NumberChar(Decimal(n)[i]) && Decimal(n)[i] != 46 && Decimal(n)[i] != 101 {
        if i > 0 { assert Decimal(n)[i] == Digits(-n)[i - 1]; }
      }
    }
  }

  lemma ReadNumberText(t: Text, rest: Text)
    requires t != [] && (forall i :: 0 <= i < |t| ==> NumberChar(t[i])) && Stops(rest)
    ensures ReadNumber(t + rest) == Some((if FloatText(t) then Float(t) else Int(DecimalValue(t)), rest))
    ensures ParseValue(t + rest) == ReadNumber(t + rest)
  {
    NumberRunIs(t, rest);
    assert (t + rest)[..|t|] == t && (t + rest)[|t|..] == rest;
    assert (t + rest)[0] == t[0];
  }

  lemma ParseScalar(v: Js, rest: Text)
    requires IsNormal(v) && !v.Arr? && !v.Obj? && Stops(rest)
    ensures ParseValue(Print(v) + rest) == Some((v, rest))
  {
    match v
    case Int(n) =>
      DecimalIsNumber(n);
      DecimalRoundTrip(n);
      ReadNumberText(Decimal(n), rest);
    case Float(t) => ReadNumberText(t, rest);
    case Str(s) => QuoteRoundTrip(s, rest);
    case Null => assert (Ascii("null") + rest)[4..] == rest;
    case Bool(b) =>
      assert (Ascii("true") + rest)[4..] == rest;
      assert (Ascii("false") + rest)[5..] == rest;
  }

  lemma ParseArray(v: Js, rest: Text)
    requires v.Arr? && IsNormal(v)
    requires v.items != [] ==>
      && PrintItems(v, 0) != [] && PrintItems(v, 0)[0] != CLOSE_ARR
      && ParseItems(PrintItems(v, 0) + ([CLOSE_ARR] + rest)) == Some((v.items, rest))
    ensures ParseValue(Print(v) + rest) == Some((v, rest))
  {
    var body := PrintItems(v, 0) + ([CLOSE_ARR] + rest);
    assert Print(v) + rest == [OPEN_ARR] + body;
    assert ([OPEN_ARR] + body)[1..] == body;
    hide Print, PrintItems, ParseItems;
    if v.items == [] {
      assert PrintItems(v, 0) == [];
      assert body == [CLOSE_ARR] + rest && ([OPEN_ARR] + body)[2..] == rest;
    }
  }

  lemma PrintedObject(v: Js, rest: Text)
    requires v.Obj? && IsNormal(v)
    ensures Print(v) + rest == [OPEN_OBJ] + (PrintMembers(v, 0) + ([CLOSE_OBJ] + rest))
    ensures v.members == [] ==> PrintMembers(v, 0) == []
  {
    hide IsNormal;
  }

  lemma ParseEmptyObject(rest: Text)
    ensures ParseValue([OPEN_OBJ] + ([CLOSE_OBJ] + rest)) == Some((Obj([]), rest))
  {
    var t := [OPEN_OBJ] + ([CLOSE_OBJ] + rest);
    assert t[1] == CLOSE_OBJ && t[2..] == rest;
    hide ParseMembers, ParseItems;
  }

  lemma ParseFullObject(body: Text, ms: seq<Member>, rest: Text)
    requires body != [] && body[0] != CLOSE_OBJ && ParseMembers(body) == Some((ms, rest))
    ensures ParseValue([OPEN_OBJ] + body) == Some((Obj(ms), rest))
  {
    assert ([OPEN_OBJ] + body)[1..] == body;
    hide ParseMembers, ParseItems;
  }

  lemma ParseObject(v: Js, rest: Text)
    requires v.Obj? && IsNormal(v)
    requires v.members != [] ==>
      && PrintMembers(v, 0) != [] && PrintMembers(v, 0)[0] != CLOSE_OBJ
      && ParseMembers(PrintMembers(v, 0) + ([CLOSE_OBJ] + rest)) == Some((v.members, rest))
    ensures ParseValue(Print(v) + rest) == Some((v, rest))
  {
    hide Print, PrintMembers, ParseMembers, ParseValue, IsNormal;
    PrintedObject(v, rest);
    if v.members == [] {
      assert [] + ([CLOSE_OBJ] + rest) == [CLOSE_OBJ] + rest;
      ParseEmptyObject(rest);
    } else {
      ParseFullObject(PrintMembers(v, 0) + ([CLOSE_OBJ] + rest), v.members, rest);
    }
  }

  lemma {:induction false} ParsePrint(v: Js, rest: Text)
    requires IsNormal(v) && Stops(rest)
    ensures ParseValue(Print(v) + rest) == Some((v, rest))
    decreases v, Width(v)
  {
    match v
    case Arr(items) =>
      if items != [] {
        ParsePrintItems(v, 0, rest);
        hide ParseItems, ParseValue;
        PrintStart(v.items[0]);
        assert items[0..] == items;
        assert PrintItems(v, 0)[|Separator(0)|..] == PrintItems(v, 0);
      }
      hide ParseItems, ParseValue, Print, PrintItems;
      ParseArray(v, rest);
    case Obj(ms) =>
      if ms != [] {
        ParsePrintMembers(v, 0, rest);
        hide ParseMembers, ParseValue;
        assert ms[0..] == ms;
        assert PrintMembers(v, 0)[|Separator(0)|..] == PrintMembers(v, 0);
      }
      hide ParseMembers, ParseValue, Print, PrintMembers;
      ParseObject(v, rest);
    case _ => ParseScalar(v, rest);
  }

  /** No value begins like the end of a list. */
  lemma PrintStart(v: Js)
    requires IsNormal(v)
    ensures Print(v) != [] && Print(v)[0] != CLOSE_ARR
  {
    if v.Int? { DecimalIsNumber(v.n); }
  }

  lemma ItemsGoOn(first: Text, x: Js, tail: Text, more: seq<Js>, rest: Text)
    requires ParseValue(first + tail) == Some((x, tail)) && tail != [] && tail[0] == COMMA
    requires ParseItems(tail[1..]) == Some((more, rest))
    ensures ParseItems(first + tail) == Some(([x] + more, rest))
  {}

  lemma ItemsEnd(first: Text, x: Js, tail: Text, rest: Text)
    requires ParseValue(first + tail) == Some((x, tail)) && tail == [CLOSE_ARR] + rest
    ensures ParseItems(first + tail) == Some(([x], rest))
  {
    assert tail[1..] == rest;
  }

  lemma MembersGoOn(first: Text, x: Member, tail: Text, more: seq<Member>, rest: Text)
    requires ParseMember(first + tail) == Some((x, tail)) && tail != [] && tail[0] == COMMA
    requires ParseMembers(tail[1..]) == Some((more, rest))
    ensures ParseMembers(first + tail) == Some(([x] + more, rest))
  {}

  lemma MembersEnd(first: Text, x: Member, tail: Text, rest: Text)
    requires ParseMember(first + tail) == Some((x, tail)) && tail == [CLOSE_OBJ] + rest
    ensures ParseMembers(first + tail) == Some(([x], rest))
  {
    assert tail[1..] == rest;
  }

  lemma DropSeparator(sep: Text, a: Text, b: Text, end: Text)
    ensures sep <= sep + a + b
    ensures (sep + a + b)[|sep|..] + end == a + (b + end)
    ensures (sep + a + b)[|sep|..] == a + b
  {}

  lemma DropComma(b: Text, end: Text)
    requires Separator(1) <= b
    ensures b + end != [] && (b + end)[0] == COMMA && (b + end)[1..] == b[|Separator(1)|..] + end
  {
    assert b[0] == COMMA;
  }

  /** The printed items or members from `i` on begin with their separator. */
  lemma ItemsUnfold(v: Js, i: nat, end: Text)
    requires v.Arr? && IsNormal(v) && i < |v.items|
    ensures Separator(i) <= PrintItems(v, i)
    ensures PrintItems(v, i)[|Separator(i)|..] + end == Print(v.items[i]) + (PrintItems(v, i + 1) + end)
  {
    DropSeparator(Separator(i), Print(v.items[i]), PrintItems(v, i + 1), end);
  }

  lemma MembersUnfold(v: Js, i: nat, end: Text)
    requires v.Obj? && IsNormal(v) && i < |v.members|
    ensures Separator(i) <= PrintMembers(v, i)
    ensures PrintMembers(v, i)[|Separator(i)|..] + end == PrintMember(v.members[i]) + (PrintMembers(v, i + 1) + end)
    ensures PrintMembers(v, i)[|Separator(i)|..] != [] && PrintMembers(v, i)[|Separator(i)|] == QUOTE
  {
    DropSeparator(Separator(i), PrintMember(v.members[i]), PrintMembers(v, i + 1), end);
    assert PrintMember(v.members[i])[0] == QUOTE;
  }

  lemma LastItems(v: Js, i: nat, rest: Text)
    requires v.Arr? && IsNormal(v) && i + 1 == |v.items|
    requires var tail := [CLOSE_ARR] + rest; ParseValue(Print(v.items[i]) + tail) == Some((v.items[i], tail))
    ensures Separator(i) <= PrintItems(v, i)
    ensures ParseItems(PrintItems(v, i)[|Separator(i)|..] + ([CLOSE_ARR] + rest)) == Some((v.items[i..], rest))
  {
    var tail := [CLOSE_ARR] + rest;
    ItemsUnfold(v, i, tail);
    assert PrintItems(v, i + 1) + tail == tail;
    ItemsEnd(Print(v.items[i]), v.items[i], tail, rest);
    assert v.items[i..] == [v.items[i]];
  }

  lemma NextItems(v: Js, i: nat, rest: Text)
    requires v.Arr? && IsNormal(v) && i + 1 < |v.items|
    requires Separator(i + 1) <= PrintItems(v, i + 1)
    requires var tail := PrintItems(v, i + 1) + ([CLOSE_ARR] + rest);
      ParseValue(Print(v.items[i]) + tail) == Some((v.items[i], tail))
    requires ParseItems(PrintItems(v, i + 1)[|Separator(i + 1)|..] + ([CLOSE_ARR] + rest)) == Some((v.items[i + 1..], rest))
    ensures Separator(i) <= PrintItems(v, i)
    ensures ParseItems(PrintItems(v, i)[|Separator(i)|..] + ([CLOSE_ARR] + rest)) == Some((v.items[i..], rest))
  {
    var end := [CLOSE_ARR] + rest;
    ItemsUnfold(v, i, end);
    DropComma(PrintItems(v, i + 1), end);
    ItemsGoOn(Print(v.items[i]), v.items[i], PrintItems(v, i + 1) + end, v.items[i + 1..], rest);
    assert v.items[i..] == [v.items[i]] + v.items[i + 1..];
  }

  /** What `PrintItems` gives from item `i` on, without the separator before it. */
  lemma {:induction false} ParsePrintItems(v: Js, i: nat, rest: Text)
    requires v.Arr? && IsNormal(v) && i < |v.items|
    ensures Separator(i) <= PrintItems(v, i)
    ensures ParseItems(PrintItems(v, i)[|Separator(i)|..] + ([CLOSE_ARR] + rest)) == Some((v.items[i..], rest))
    decreases v, |v.items| - i
  {
    var tail := PrintItems(v, i + 1) + ([CLOSE_ARR] + rest);
    if i + 1 == |v.items| {
      assert PrintItems(v, i + 1) == [];
      assert tail == [CLOSE_ARR] + rest;
      ParsePrint(v.items[i], tail);
      LastItems(v, i, rest);
    } else {
      ParsePrintItems(v, i + 1, rest);
      DropComma(PrintItems(v, i + 1), [CLOSE_ARR] + rest);
      ParsePrint(v.items[i], tail);
      NextItems(v, i, rest);
    }
  }

  lemma {:induction false} ParsePrintMember(m: Member, rest: Text)
    requires IsNormal(m.value) && Stops(rest)
    ensures ParseMember(PrintMember(m) + rest) == Some((m, rest))
    decreases m, 0
  {
    hide Print, Quote, ReadString, ParseValue, IsNormal;
    var after := [COLON] + Print(m.value) + rest;
    assert PrintMember(m) + rest == Quote(m.key) + after;
    QuoteRoundTrip(m.key, after);
    assert after[1..] == Print(m.value) + rest;
    ParsePrint(m.value, rest);
  }

  lemma LastMembers(v: Js, i: nat, rest: Text)
    requires v.Obj? && IsNormal(v) && i + 1 == |v.members|
    requires var tail := [CLOSE_OBJ] + rest; ParseMember(PrintMember(v.members[i]) + tail) == Some((v.members[i], tail))
    ensures Separator(i) <= PrintMembers(v, i)
    ensures ParseMembers(PrintMembers(v, i)[|Separator(i)|..] + ([CLOSE_OBJ] + rest)) == Some((v.members[i..], rest))
  {
    var tail := [CLOSE_OBJ] + rest;
    MembersUnfold(v, i, tail);
    assert PrintMembers(v, i + 1) + tail == tail;
    MembersEnd(PrintMember(v.members[i]), v.members[i], tail, rest);
    assert v.members[i..] == [v.members[i]];
  }

  lemma NextMembers(v: Js, i: nat, rest: Text)
    requires v.Obj? && IsNormal(v) && i + 1 < |v.members|
    requires Separator(i + 1) <= PrintMembers(v, i + 1)
    requires var tail := PrintMembers(v, i + 1) + ([CLOSE_OBJ] + rest);
      ParseMember(PrintMember(v.members[i]) + tail) == Some((v.members[i], tail))
    requires ParseMembers(PrintMembers(v, i + 1)[|Separator(i + 1)|..] + ([CLOSE_OBJ] + rest)) == Some((v.members[i + 1..], rest))
    ensures Separator(i) <= PrintMembers(v, i)
    ensures ParseMembers(PrintMembers(v, i)[|Separator(i)|..] + ([CLOSE_OBJ] + rest)) == Some((v.members[i..], rest))
  {
    var end := [CLOSE_OBJ] + rest;
    MembersUnfold(v, i, end);
    DropComma(PrintMembers(v, i + 1), end);
    MembersGoOn(PrintMember(v.members[i]), v.members[i], PrintMembers(v, i + 1) + end, v.members[i + 1..], rest);
    assert v.members[i..] == [v.members[i]] + v.members[i + 1..];
  }

  lemma {:induction false} ParsePrintMembers(v: Js, i: nat, rest: Text)
    requires v.Obj? && IsNormal(v) && i < |v.members|
    ensures Separator(i) <= PrintMembers(v, i)
    ensures ParseMembers(PrintMembers(v, i)[|Separator(i)|..] + ([CLOSE_OBJ] + rest)) == Some((v.members[i..], rest))
    ensures PrintMembers(v, i)[|Separator(i)|..] != [] && PrintMembers(v, i)[|Separator(i)|] == QUOTE
    decreases v, |v.members| - i
  {
    var tail := PrintMembers(v, i + 1) + ([CLOSE_OBJ] + rest);
    if i + 1 == |v.members| {
      assert PrintMembers(v, i + 1) == [];
      assert tail == [CLOSE_OBJ] + rest;
      ParsePrintMember(v.members[i], tail);
      LastMembers(v, i, rest);
    } else {
      ParsePrintMembers(v, i + 1, rest);
      DropComma(PrintMembers(v, i + 1), [CLOSE_OBJ] + rest);
      ParsePrintMember(v.members[i], tail);
      NextMembers(v, i, rest);
    }
  }
}
