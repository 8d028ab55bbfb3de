/** What the canonical text of a value says about the value. */
module CanonicalJsonLaws {
  import opened Basics
  import opened Text
  import opened CanonicalJson
  import opened CanonicalJsonParser

  // ---------- the same JSON ----------

  /** A scalar as JSON sees it: dates, bytes and big integers are strings. */
  function Scalar(v: Js): Js
    requires !v.Arr? && !v.Obj?
  {
    match v
    case BigInt(n) => Str(Decimal(n))
    case Date(iso) => Str(iso)
    case Bytes(b) => Str(B64 + b)
    case _ => v
  }


  /** The same JSON value, whatever the order of object keys. */
  predicate Same(v: Js, w: Js)
    decreases v
  {
    if v.Arr? then w.Arr? && |v.items| == |w.items| && forall i :: 0 <= i < |v.items| ==> Same(v.items[i], w.items[i])
    else if v.Obj? then
      && w.Obj?
      && (forall i :: 0 <= i < |v.members| && v.members[i].key != PROTO ==>
        exists j :: 0 <= j < |w.members| && w.members[j].key == v.members[i].key && Same(v.members[i].value, w.members[j].value))
      && forall j :: 0 <= j < |w.members| && w.members[j].key != PROTO ==>
        exists i :: 0 <= i < |v.members| && v.members[i].key == w.members[j].key && Same(v.members[i].value, w.members[j].value)
    else !w.Arr? && !w.Obj? && Scalar(v) == Scalar(w)
  }

  /** The members of a normal form, in terms of the members it came from. */
  lemma MembersOfNormalForm(v: Js, m: Member)
    requires v.Obj? && Proper(v) && Normalizable(v)
    ensures m in NormalForm(v).members
      <==> exists i :: 0 <= i < |v.members| && v.members[i].key == m.key && m.key != PROTO && NormalForm(v.members[i].value) == m.value
  {
    var done := Normalized(v.members);
    SortMembersSorts(done);
    FilledOrders(SortMembers(done));
    assert NormalForm(v) == Obj(Filled(SortMembers(done)));
    assert m in NormalForm(v).members <==> m in done && m.key != PROTO;
    if m in done {
      var i :| 0 <= i < |done| && done[i] == m;
      assert v.members[i].key == m.key;
    }
    if i :| 0 <= i < |v.members| && v.members[i].key == m.key && NormalForm(v.members[i].value) == m.value {
      assert done[i] == m;
    }
  }

  lemma {:induction false} SameIffEqualForms(v: Js, w: Js)
    requires Proper(v) && Proper(w) && Normalizable(v) && Normalizable(w)
    ensures Same(v, w) <==> NormalForm(v) == NormalForm(w)
    decreases v
  {
    if v.Arr? && w.Arr? && |v.items| == |w.items| {
      forall i | 0 <= i < |v.items| ensures Same(v.items[i], w.items[i]) <==> NormalForm(v.items[i]) == NormalForm(w.items[i]) {
        SameIffEqualForms(v.items[i], w.items[i]);
      }
      assert |NormalForm(v).items| == |v.items| && |NormalForm(w).items| == |w.items|;
      if NormalForm(v) == NormalForm(w) {
        forall i | 0 <= i < |v.items| ensures NormalForm(v.items[i]) == NormalForm(w.items[i]) {
          assert NormalForm(v).items[i] == NormalForm(w).items[i];
        }
      }
    } else if v.Obj? && w.Obj? {
      forall i, j | 0 <= i < |v.members| && 0 <= j < |w.members|
        ensures Same(v.members[i].value, w.members[j].value)
          <==> NormalForm(v.members[i].value) == NormalForm(w.members[j].value)
      {
        SameIffEqualForms(v.members[i].value, w.members[j].value);
      }
      if Same(v, w) { SameMeansEqual(v, w); }
      if NormalForm(v) == NormalForm(w) { EqualMeansSame(v, w); }
    }
  }

  /** Values at the same place are the same exactly if their forms are equal. */
  ghost predicate Decided(v: Js, w: Js)
    requires v.Obj? && w.Obj? && Normalizable(v) && Normalizable(w)
  {
    forall i, j :: 0 <= i < |v.members| && 0 <= j < |w.members| ==>
      (Same(v.members[i].value, w.members[j].value) <==> NormalForm(v.members[i].value) == NormalForm(w.members[j].value))
  }

  lemma SameMeansEqual(v: Js, w: Js)
    requires v.Obj? && w.Obj? && Proper(v) && Proper(w) && Normalizable(v) && Normalizable(w) && Same(v, w) && Decided(v, w)
    ensures NormalForm(v) == NormalForm(w)
  {
    hide NormalForm, Proper, IsNormal;
    FormOrdered(v);
    FormOrdered(w);
    forall m | m in NormalForm(v).members ensures m in NormalForm(w).members {
      MembersOfNormalForm(v, m);
      MembersOfNormalForm(w, m);
    }
    forall m | m in NormalForm(w).members ensures m in NormalForm(v).members {
      MembersOfNormalForm(v, m);
      MembersOfNormalForm(w, m);
    }
    OrderedUnique(NormalForm(v).members, NormalForm(w).members);
  }

  lemma FormOrdered(v: Js)
    requires v.Obj? && Proper(v) && Normalizable(v)
    ensures NormalForm(v).Obj? && Ordered(NormalForm(v).members)
  {
    NormalFormIsNormal(v);
  }

  lemma MemberIsFound(v: Js, w: Js, i: nat) returns (j: nat)
    requires v.Obj? && w.Obj? && Proper(v) && Proper(w) && Normalizable(v) && Normalizable(w)
    requires NormalForm(v) == NormalForm(w) && i < |v.members| && v.members[i].key != PROTO
    ensures j < |w.members| && w.members[j].key == v.members[i].key
    ensures NormalForm(w.members[j].value) == NormalForm(v.members[i].value)
  {
    var m := Member(v.members[i].key, NormalForm(v.members[i].value));
    MembersOfNormalForm(v, m);
    MembersOfNormalForm(w, m);
    hide NormalForm;
    j :| 0 <= j < |w.members| && w.members[j].key == m.key && NormalForm(w.members[j].value) == m.value;
  }

  lemma EqualMeansSame(v: Js, w: Js)
    requires v.Obj? && w.Obj? && Proper(v) && Proper(w) && Normalizable(v) && Normalizable(w)
    requires NormalForm(v) == NormalForm(w) && Decided(v, w)
    ensures Same(v, w)
  {
    hide NormalForm, Proper;
    forall i | 0 <= i < |v.members| && v.members[i].key != PROTO
      ensures exists j :: 0 <= j < |w.members| && w.members[j].key == v.members[i].key && Same(v.members[i].value, w.members[j].value)
    {
      var j := MemberIsFound(v, w, i);
    }
    forall j | 0 <= j < |w.members| && w.members[j].key != PROTO
      ensures exists i :: 0 <= i < |v.members| && v.members[i].key == w.members[j].key && Same(v.members[i].value, w.members[j].value)
    {
      var i := MemberIsFound(w, v, j);
    }
  }

  // ---------- the canonical text ----------

  /** What `canonicalize` returns, or None where it throws. */
  function CanonicalText(v: Js): Option<Text>
    requires Proper(v)
  {
    if Normalizable(v) then NormalFormIsNormal(v); Some(Print(NormalForm(v))) else None
  }

  lemma PrintInjective(v: Js, w: Js)
    requires IsNormal(v) && IsNormal(w) && Print(v) == Print(w)
    ensures v == w
  {
    ParsePrint(v, []);
    ParsePrint(w, []);
  }

  /** Two values have the same canonical text exactly when they are the same JSON. */
  lemma CanonicalTextDecides(v: Js, w: Js)
    requires Proper(v) && Proper(w) && Normalizable(v) && Normalizable(w)
    ensures CanonicalText(v) == CanonicalText(w) <==> Same(v, w)
  {
    NormalFormIsNormal(v);
    NormalFormIsNormal(w);
    SameIffEqualForms(v, w);
    if CanonicalText(v) == CanonicalText(w) { PrintInjective(NormalForm(v), NormalForm(w)); }
  }

  lemma {:induction false} SameReflexive(v: Js)
    ensures Same(v, v)
    decreases v
  {
    if v.Arr? {
      forall i | 0 <= i < |v.items| ensures Same(v.items[i], v.items[i]) { SameReflexive(v.items[i]); }
    } else if v.Obj? {
      forall i | 0 <= i < |v.members| ensures Same(v.members[i].value, v.members[i].value) { SameReflexive(v.members[i].value); }
    }
  }

  lemma PermutedIsSame(v: Js, w: Js)
    requires v.Obj? && w.Obj? && multiset(v.members) == multiset(w.members)
    ensures Same(v, w)
  {
    forall i | 0 <= i < |v.members|
      ensures v.members[i] in w.members && Same(v.members[i].value, v.members[i].value)
    {
      assert v.members[i] in multiset(v.members);
      SameReflexive(v.members[i].value);
    }
    forall j | 0 <= j < |w.members|
      ensures w.members[j] in v.members && Same(w.members[j].value, w.members[j].value)
    {
      assert w.members[j] in multiset(w.members);
      SameReflexive(w.members[j].value);
    }
  }

  /** The order in which an object's keys were created or stored does not matter. */
  lemma KeyOrderIrrelevant(v: Js, w: Js)
    requires v.Obj? && w.Obj? && multiset(v.members) == multiset(w.members) && Proper(v) && Proper(w)
    ensures Same(v, w) && CanonicalText(v) == CanonicalText(w)
  {
    PermutedIsSame(v, w);
    SameNormalizable(v, w);
    hide Same, Normalizable;
    if Normalizable(v) { CanonicalTextDecides(v, w); }
  }

  lemma SameNormalizable(v: Js, w: Js)
    requires v.Obj? && w.Obj? && multiset(v.members) == multiset(w.members)
    ensures Normalizable(v) <==> Normalizable(w)
  {
    forall i | 0 <= i < |v.members| ensures v.members[i] in w.members {
      assert v.members[i] in multiset(w.members);
    }
    forall i | 0 <= i < |w.members| ensures w.members[i] in v.members {
      assert w.members[i] in multiset(v.members);
    }
  }

  /** A member called `__proto__` leaves no trace in the text. */
  lemma ProtoLeavesNoTrace(v: Js)
    requires Proper(v) && Normalizable(v)
    ensures CanonicalText(Obj([Member(PROTO, v)])) == CanonicalText(Obj([]))
  {
    var a, b := Obj([Member(PROTO, v)]), Obj([]);
    assert Same(a, b);
    CanonicalTextDecides(a, b);
  }

  // ---------- the text itself ----------

  lemma {:induction false} PrintIsWellFormed(v: Js)
    requires IsNormal(v)
    ensures WellFormed(Print(v))
    decreases v, Width(v)
  {
    match v
    case Arr(_) =>
      ItemsAreWellFormed(v, 0);
      Enclosed(OPEN_ARR, PrintItems(v, 0), CLOSE_ARR);
    case Obj(_) =>
      MembersAreWellFormed(v, 0);
      Enclosed(OPEN_OBJ, PrintMembers(v, 0), CLOSE_OBJ);
    case Str(s) => QuotedIsWellFormed(s);
    case Int(n) =>
      DecimalIsNumber(n);
      PlainIsWellFormed(Decimal(n));
    case Null | Bool(_) | Float(_) => PlainIsWellFormed(Print(v));
  }

  lemma Enclosed(open: CodeUnit, t: Text, close: CodeUnit)
    requires WellFormed(t) && open < 0xD800 && close < 0xD800
    ensures WellFormed([open] + t + [close])
  {
    PlainIsWellFormed([open]);
    PlainIsWellFormed([close]);
    WellFormedConcat([open], t);
    WellFormedConcat([open] + t, [close]);
  }

  lemma {:induction false} ItemsAreWellFormed(v: Js, i: nat)
    requires v.Arr? && IsNormal(v) && i <= |v.items|
    ensures WellFormed(PrintItems(v, i))
    decreases v, |v.items| - i
  {
    if i < |v.items| {
      PrintIsWellFormed(v.items[i]);
      ItemsAreWellFormed(v, i + 1);
      PlainIsWellFormed(Separator(i));
      WellFormedConcat(Separator(i), Print(v.items[i]));
      WellFormedConcat(Separator(i) + Print(v.items[i]), PrintItems(v, i + 1));
    }
  }

  lemma {:induction false} MembersAreWellFormed(v: Js, i: nat)
    requires v.Obj? && IsNormal(v) && i <= |v.members|
    ensures WellFormed(PrintMembers(v, i))
    decreases v, |v.members| - i
  {
    if i < |v.members| {
      var m := v.members[i];
      QuotedIsWellFormed(m.key);
      PlainIsWellFormed([COLON]);
      PrintIsWellFormed(m.value);
      WellFormedConcat(Quote(m.key), [COLON]);
      WellFormedConcat(Quote(m.key) + [COLON], Print(m.value));
      MembersAreWellFormed(v, i + 1);
      PlainIsWellFormed(Separator(i));
      WellFormedConcat(Separator(i), PrintMember(m));
      WellFormedConcat(Separator(i) + PrintMember(m), PrintMembers(v, i + 1));
    }
  }

  // ---------- the function as it is written ----------

  lemma NormalizedConcat(ms: seq<Member>, ns: seq<Member>)
    requires forall i :: 0 <= i < |ms| ==> Normalizable(ms[i].value)
    requires forall i :: 0 <= i < |ns| ==> Normalizable(ns[i].value)
    ensures Normalized(ms + ns) == Normalized(ms) + Normalized(ns)
  {
    hide NormalForm, Normalizable;
  }

  /** What `InsertByKey` does, one case at a time. */
  lemma InsertsHere(m: Member, ms: seq<Member>)
    requires ms == [] || Less(m.key, ms[0].key)
    ensures InsertByKey(m, ms) == [m] + ms
  {}

  lemma InsertsLater(m: Member, ms: seq<Member>)
    requires ms != [] && !Less(m.key, ms[0].key)
    ensures InsertByKey(m, ms) == [ms[0]] + InsertByKey(m, ms[1..])
  {}

  function NormalMember(m: Member): Member
    requires Normalizable(m.value)
  {
    Member(m.key, NormalForm(m.value))
  }

  lemma NormalizedCons(m: Member, ms: seq<Member>)
    requires Normalizable(m.value) && forall i :: 0 <= i < |ms| ==> Normalizable(ms[i].value)
    ensures forall i :: 0 <= i < |[m] + ms| ==> Normalizable(([m] + ms)[i].value)
    ensures Normalized([m] + ms) == [NormalMember(m)] + Normalized(ms)
  {
    hide NormalForm, Normalizable;
  }

  lemma {:induction false} InsertCommutes(m: Member, ms: seq<Member>)
    requires Normalizable(m.value) && forall i :: 0 <= i < |ms| ==> Normalizable(ms[i].value)
    ensures forall i :: 0 <= i < |InsertByKey(m, ms)| ==> Normalizable(InsertByKey(m, ms)[i].value)
    ensures Normalized(InsertByKey(m, ms)) == InsertByKey(NormalMember(m), Normalized(ms))
  {
    hide NormalForm, Normalizable, InsertByKey, Less;
    if ms == [] || Less(m.key, ms[0].key) {
      InsertsHere(m, ms);
      NormalizedCons(m, ms);
      InsertsHere(NormalMember(m), Normalized(ms));
    } else {
      InsertCommutes(m, ms[1..]);
      InsertsLater(m, ms);
      InsertsLater(NormalMember(m), Normalized(ms));
      NormalizedCons(ms[0], InsertByKey(m, ms[1..]));
      NormalizedTail(ms);
    }
  }

  lemma {:induction false} SortCommutes(ms: seq<Member>)
    requires forall i :: 0 <= i < |ms| ==> Normalizable(ms[i].value)
    ensures forall i :: 0 <= i < |SortMembers(ms)| ==> Normalizable(SortMembers(ms)[i].value)
    ensures Normalized(SortMembers(ms)) == SortMembers(Normalized(ms))
  {
    hide NormalForm, Normalizable, InsertByKey;
    if ms != [] {
      SortCommutes(ms[1..]);
      InsertCommutes(ms[0], SortMembers(ms[1..]));
      NormalizedTail(ms);
    }
  }

  lemma NormalizedTail(ms: seq<Member>)
    requires ms != [] && forall i :: 0 <= i < |ms| ==> Normalizable(ms[i].value)
    ensures Normalized(ms)[1..] == Normalized(ms[1..])
    ensures Normalized(ms)[0] == Member(ms[0].key, NormalForm(ms[0].value))
  {
    hide NormalForm, Normalizable;
  }

  /** The recursive function as it is written; None where it throws. */
  method Normalize(v: Js) returns (r: Option<Js>)
    requires Proper(v)
    ensures r == if Normalizable(v) then Some(NormalForm(v)) else None
    decreases v, 1
  {
    match v
    case Unsupported => return None;
    case BigInt(n) => return Some(Str(Decimal(n)));
    case Date(iso) => return Some(Str(iso));
    case Bytes(b) => return Some(Str(B64 + b));
    case Null | Bool(_) | Int(_) | Float(_) | Str(_) => return Some(v);
    case Arr(_) => r := NormalizeItems(v);
    case Obj(_) => r := NormalizeMembers(v);
  }

  method NormalizeItems(v: Js) returns (r: Option<Js>)
    requires v.Arr? && Proper(v)
    ensures r == if Normalizable(v) then Some(NormalForm(v)) else None
    decreases v, 0
  {
    var out := [];
    for i := 0 to |v.items|
      invariant |out| == i && forall k :: 0 <= k < i ==> Normalizable(v.items[k]) && out[k] == NormalForm(v.items[k])
    {
      var x := Normalize(v.items[i]);
      if x.None? { return None; }
      out := out + [x.value];
    }
    assert out == NormalForm(v).items;
    return Some(Arr(out));
  }

  /** Keys are sorted, and a fresh object is filled key by key. */
  method NormalizeMembers(v: Js) returns (r: Option<Js>)
    requires v.Obj? && Proper(v)
    ensures r == if Normalizable(v) then Some(NormalForm(v)) else None
    decreases v, 0
  {
    var sorted := SortMembers(v.members);
    SortMembersSorts(v.members);
    var out := [];
    for i := 0 to |sorted|
      invariant forall k :: 0 <= k < i ==> Normalizable(sorted[k].value)
      invariant out == Filled(Normalized(sorted[..i]))
    {
      assert sorted[i] in v.members;
      var x := Normalize(sorted[i].value);
      if x.None? { return None; }
      out := Put(out, Member(sorted[i].key, x.value));
      FilledOnce(sorted, i);
    }
    assert sorted[..|sorted|] == sorted;
    assert forall k :: 0 <= k < |v.members| ==> v.members[k] in sorted;
    SortCommutes(v.members);
    return Some(Obj(out));
  }

  lemma FilledOnce(ms: seq<Member>, i: nat)
    requires i < |ms| && forall k :: 0 <= k <= i ==> Normalizable(ms[k].value)
    ensures Filled(Normalized(ms[..i + 1])) == Put(Filled(Normalized(ms[..i])), Member(ms[i].key, NormalForm(ms[i].value)))
  {
    hide NormalForm, Normalizable, Put;
    assert ms[..i + 1] == ms[..i] + [ms[i]];
    NormalizedConcat(ms[..i], [ms[i]]);
    assert Normalized([ms[i]]) == [Member(ms[i].key, NormalForm(ms[i].value))];
    assert Normalized(ms[..i + 1])[..i] == Normalized(ms[..i]);
  }

  method Canonicalize(v: Js) returns (r: Option<Text>)
    requires Proper(v)
    ensures r == CanonicalText(v)
    ensures r.Some? ==> WellFormed(r.value)
    ensures r.Some? ==> ParseValue(r.value) == Some((NormalForm(v), [])) && KeysStand(NormalForm(v))
  {
    var x := Normalize(v);
    if x.None? { return None; }
    NormalFormIsNormal(v);
    NormalKeysStand(x.value);
    PrintIsWellFormed(x.value);
    ParsePrint(x.value, []);
    assert Print(x.value) + [] == Print(x.value);
    return Some(Print(x.value));
  }
}
