/**
 Canonical JSON: the text that audit rows are hashed over. Values are those of
 JavaScript; an object's members come in creation order and have distinct keys. An
 integer below 10^21 in size is its value; any other finite number is the text the
 language prints for it.
 */
module CanonicalJson {
  import opened Basics
  import opened Text

  datatype Js =
    | Null
    | Bool(b: bool)
    | Int(n: int)
    | Float(text: Text)
    | Str(s: Text)
    | BigInt(big: int)
    | Date(iso: Text)
    | Bytes(base64: Text)
    | Unsupported
    | Arr(items: seq<Js>)
    | Obj(members: seq<Member>)

  datatype Member = Member(key: Text, value: Js)

  predicate NumberChar(c: CodeUnit) {
    IsDigit(c) || c == 43 || c == MINUS || c == 46 || c == 101
  }

  /** Printed numbers that are not plain integer numerals have a point or an exponent. */
  predicate FloatText(t: Text) {
    && t != [] && (forall i :: 0 <= i < |t| ==> NumberChar(t[i]))
    && (46 in t || 101 in t)
  }

  predicate KeysDistinct(ms: seq<Member>) {
    forall i, j :: 0 <= i < j < |ms| ==> ms[i].key != ms[j].key
  }

  /** What a JavaScript value can be: object keys are distinct. */
  predicate Proper(v: Js) {
    match v
    case Float(t) => FloatText(t)
    case Arr(items) => forall i :: 0 <= i < |items| ==> Proper(items[i])
    case Obj(ms) => KeysDistinct(ms) && forall i :: 0 <= i < |ms| ==> Proper(ms[i].value)
    case _ => true
  }

  /** `canonicalize` throws exactly on the others. */
  predicate Normalizable(v: Js) {
    match v
    case Unsupported => false
    case Arr(items) => forall i :: 0 <= i < |items| ==> Normalizable(items[i])
    case Obj(ms) => forall i :: 0 <= i < |ms| ==> Normalizable(ms[i].value)
    case _ => true
  }

  // ---------- filling an object ----------

  const PROTO: Text := Ascii("__proto__")

  const B64: Text := Ascii("b64:")

  const MAX_INDEX := 0xFFFF_FFFE

  /** The number an array-index key stands for. */
  function Index(key: Text): Option<nat> {
    if key != [] && 0 <= DecimalValue(key) <= MAX_INDEX && Decimal(DecimalValue(key)) == key
    then Some(DecimalValue(key)) else None
  }

  /** Array indices come first, in numeric order, whenever they were created. */
  function PutIndex(ms: seq<Member>, m: Member, n: nat): seq<Member> {
    if ms == [] || Index(ms[0].key).None? || n < Index(ms[0].key).value then [m] + ms
    else [ms[0]] + PutIndex(ms[1..], m, n)
  }

  /** `out[k] = v` on a fresh object; assigning `__proto__` sets the prototype and no member. */
  function Put(ms: seq<Member>, m: Member): seq<Member> {
    if m.key == PROTO then ms
    else if Index(m.key).Some? then PutIndex(ms, m, Index(m.key).value)
    else ms + [m]
  }

  function Filled(ms: seq<Member>): seq<Member> {
    if ms == [] then [] else Put(Filled(ms[..|ms| - 1]), ms[|ms| - 1])
  }

  function InsertByKey(m: Member, ms: seq<Member>): (r: seq<Member>)
    ensures multiset(r) == multiset([m]) + multiset(ms)
  {
    if ms == [] || Less(m.key, ms[0].key) then [m] + ms
    else
      assert ms == [ms[0]] + ms[1..];
      [ms[0]] + InsertByKey(m, ms[1..])
  }

  function SortMembers(ms: seq<Member>): (r: seq<Member>)
    ensures multiset(r) == multiset(ms)
  {
    if ms == [] then []
    else
      assert ms == [ms[0]] + ms[1..];
      InsertByKey(ms[0], SortMembers(ms[1..]))
  }

  // ---------- normal forms ----------

  function NormalForm(v: Js): Js
    requires Normalizable(v)
  {
    match v
    case BigInt(n) => Str(Decimal(n))
    case Date(iso) => Str(iso)
    case Bytes(b) => Str(B64 + b)
    case Arr(items) => Arr(seq(|items|, i requires 0 <= i < |items| => NormalForm(items[i])))
    case Obj(ms) =>
      Obj(Filled(SortMembers(seq(|ms|, i requires 0 <= i < |ms| => Member(ms[i].key, NormalForm(ms[i].value))))))
    case _ => v
  }

  /** The order in which an object's keys are enumerated after `normalize`. */
  predicate Before(a: Text, b: Text) {
    if Index(a).Some? && Index(b).Some? then Index(a).value < Index(b).value
    else Index(a).Some? || (Index(b).None? && Less(a, b))
  }

  predicate Ordered(ms: seq<Member>) {
    forall i, j :: 0 <= i < j < |ms| ==> Before(ms[i].key, ms[j].key)
  }

  predicate IsNormal(v: Js) {
    match v
    case Null | Bool(_) | Int(_) | Str(_) => true
    case Float(t) => FloatText(t)
    case Arr(items) => forall i :: 0 <= i < |items| ==> IsNormal(items[i])
    case Obj(ms) =>
      && Ordered(ms)
      && forall i :: 0 <= i < |ms| ==> ms[i].key != PROTO && IsNormal(ms[i].value)
    case BigInt(_) | Date(_) | Bytes(_) | Unsupported => false
  }

  // ---------- the printer ----------

  const COMMA: CodeUnit := 44
  const COLON: CodeUnit := 58
  const OPEN_ARR: CodeUnit := 91
  const CLOSE_ARR: CodeUnit := 93
  const OPEN_OBJ: CodeUnit := 123
  const CLOSE_OBJ: CodeUnit := 125

  function Width(v: Js): nat {
    match v
    case Arr(items) => |items| + 1
    case Obj(ms) => |ms| + 1
    case _ => 0
  }

  /** `stringify`, which sees normal forms only. */
  function Print(v: Js): Text
    requires IsNormal(v)
    decreases v, Width(v)
  {
    match v
    case Null => Ascii("null")
    case Bool(b) => if b then Ascii("true") else Ascii("false")
    case Int(n) => Decimal(n)
    case Float(t) => t
    case Str(s) => Quote(s)
    case Arr(_) => [OPEN_ARR] + PrintItems(v, 0) + [CLOSE_ARR]
    case Obj(_) => [OPEN_OBJ] + PrintMembers(v, 0) + [CLOSE_OBJ]
  }

  function Separator(i: nat): Text {
    if i == 0 then [] else [COMMA]
  }

  /** The items from the `i`th on, each after its separator. */
  function PrintItems(v: Js, i: nat): Text
    requires v.Arr? && IsNormal(v) && i <= |v.items|
    decreases v, |v.items| - i
  {
    if i == |v.items| then [] else Separator(i) + Print(v.items[i]) + PrintItems(v, i + 1)
  }

  function PrintMember(m: Member): Text
    requires IsNormal(m.value)
    decreases m, 0
  {
    Quote(m.key) + [COLON] + Print(m.value)
  }

  function PrintMembers(v: Js, i: nat): Text
    requires v.Obj? && IsNormal(v) && i <= |v.members|
    decreases v, |v.members| - i
  {
    if i == |v.members| then [] else Separator(i) + PrintMember(v.members[i]) + PrintMembers(v, i + 1)
  }

  // ---------- the order is strict ----------

  lemma IndexInjective(a: Text, b: Text)
    requires Index(a).Some? && Index(a) == Index(b)
    ensures a == b
  {}

  lemma BeforeStrict(a: Text, b: Text, c: Text)
    ensures !Before(a, a)
    ensures Before(a, b) && Before(b, c) ==> Before(a, c)
  {
    LessIrreflexive(a);
    if Less(a, b) && Less(b, c) { LessTransitive(a, b, c); }
  }

  /** Members in order are determined by which they are. */
  lemma {:induction false} OrderedUnique(a: seq<Member>, b: seq<Member>)
    requires Ordered(a) && Ordered(b)
    requires forall m :: m in a <==> m in b
    ensures a == b
    decreases |a|
  {
    if a == [] {
      assert forall i :: 0 <= i < |b| ==> b[i] in b;
    } else {
      assert a[0] in b && b != [] && b[0] in a;
      if a[0] != b[0] {
        var i :| 0 <= i < |b| && b[i] == a[0];
        var j :| 0 <= j < |a| && a[j] == b[0];
        BeforeStrict(a[0].key, b[0].key, a[0].key);
        assert false;
      }
      forall m ensures m in a[1..] <==> m in b[1..] {
        OrderedTail(a, m);
        OrderedTail(b, m);
      }
      OrderedUnique(a[1..], b[1..]);
      assert a == [a[0]] + a[1..] && b == [b[0]] + b[1..];
    }
  }

  lemma OrderedTail(a: seq<Member>, m: Member)
    requires Ordered(a) && a != []
    ensures m in a[1..] <==> m in a && m != a[0]
  {
    if m in a[1..] {
      var i :| 0 <= i < |a| - 1 && a[1..][i] == m;
      BeforeStrict(a[0].key, a[0].key, a[0].key);
      assert a[i + 1] == m;
    }
    if m in a && m != a[0] {
      var i :| 0 <= i < |a| && a[i] == m;
      assert a[1..][i - 1] == m;
    }
  }

  // ---------- what filling and sorting produce ----------

  predicate ByKey(ms: seq<Member>) {
    forall i, j :: 0 <= i < j < |ms| ==> Less(ms[i].key, ms[j].key)
  }

  lemma {:induction false} InsertByKeySorts(m: Member, ms: seq<Member>)
    requires ByKey(ms) && forall i :: 0 <= i < |ms| ==> ms[i].key != m.key
    ensures ByKey(InsertByKey(m, ms))
    ensures forall x :: x in InsertByKey(m, ms) <==> x == m || x in ms
  {
    if ms == [] {
    } else if Less(m.key, ms[0].key) {
      forall j | 0 <= j < |ms| ensures Less(m.key, ms[j].key) {
        if j > 0 { LessTransitive(m.key, ms[0].key, ms[j].key); }
      }
    } else {
      LessTotal(m.key, ms[0].key);
      InsertByKeySorts(m, ms[1..]);
      var r := InsertByKey(m, ms[1..]);
      forall j | 0 <= j < |r| ensures Less(ms[0].key, r[j].key) {
        assert r[j] in r;
      }
    }
  }

  lemma {:induction false} SortMembersSorts(ms: seq<Member>)
    requires KeysDistinct(ms)
    ensures ByKey(SortMembers(ms))
    ensures forall x :: x in SortMembers(ms) <==> x in ms
  {
    if ms != [] {
      assert ms == [ms[0]] + ms[1..];
      SortMembersSorts(ms[1..]);
      forall i | 0 <= i < |SortMembers(ms[1..])| ensures SortMembers(ms[1..])[i].key != ms[0].key {
        assert SortMembers(ms[1..])[i] in ms[1..];
      }
      InsertByKeySorts(ms[0], SortMembers(ms[1..]));
    }
  }

  lemma {:induction false} PutIndexOrders(ms: seq<Member>, m: Member, n: nat)
    requires Ordered(ms) && Index(m.key) == Some(n) && forall i :: 0 <= i < |ms| ==> ms[i].key != m.key
    ensures Ordered(PutIndex(ms, m, n))
    ensures forall x :: x in PutIndex(ms, m, n) <==> x == m || x in ms
  {
    hide Index;
    if ms == [] {
    } else if Index(ms[0].key).None? || n < Index(ms[0].key).value {
      forall j | 0 <= j < |ms| ensures Before(m.key, ms[j].key) {
        if j > 0 { assert Before(ms[0].key, ms[j].key); }
      }
    } else {
      if Index(ms[0].key).value == n { IndexInjective(ms[0].key, m.key); }
      PutIndexOrders(ms[1..], m, n);
      var r := PutIndex(ms[1..], m, n);
      forall j | 0 <= j < |r| ensures Before(ms[0].key, r[j].key) {
        assert r[j] in r;
      }
    }
  }

  lemma PutOrders(ms: seq<Member>, m: Member)
    requires Ordered(ms) && forall i :: 0 <= i < |ms| ==> Less(ms[i].key, m.key)
    ensures Ordered(Put(ms, m))
    ensures forall x :: x in Put(ms, m) <==> (x == m && m.key != PROTO) || x in ms
  {
    LessIrreflexive(m.key);
    hide Index;
    if m.key != PROTO && Index(m.key).Some? { PutIndexOrders(ms, m, Index(m.key).value); }
  }

  /** Filling an object in key order enumerates its members in order. */
  lemma {:induction false} FilledOrders(ms: seq<Member>)
    requires ByKey(ms)
    ensures Ordered(Filled(ms))
    ensures forall x :: x in Filled(ms) <==> x in ms && x.key != PROTO
  {
    if ms != [] {
      var rest, last := ms[..|ms| - 1], ms[|ms| - 1];
      assert ms == rest + [last];
      FilledOrders(rest);
      forall i | 0 <= i < |Filled(rest)| ensures Less(Filled(rest)[i].key, last.key) {
        assert Filled(rest)[i] in rest;
      }
      PutOrders(Filled(rest), last);
    }
  }

  /** An object's members with their values normalised. */
  function Normalized(ms: seq<Member>): (r: seq<Member>)
    requires forall i :: 0 <= i < |ms| ==> Normalizable(ms[i].value)
  {
    seq(|ms|, i requires 0 <= i < |ms| => Member(ms[i].key, NormalForm(ms[i].value)))
  }

  lemma {:induction false} NormalFormIsNormal(v: Js)
    requires Proper(v) && Normalizable(v)
    ensures IsNormal(NormalForm(v))
  {
    match v
    case Arr(items) =>
      forall i | 0 <= i < |items| ensures IsNormal(NormalForm(items[i])) { NormalFormIsNormal(items[i]); }
    case Obj(ms) =>
      forall i | 0 <= i < |ms| ensures IsNormal(NormalForm(ms[i].value)) { NormalFormIsNormal(ms[i].value); }
      FilledIsNormal(v);
    case _ =>
  }

  lemma FilledIsNormal(v: Js)
    requires v.Obj? && Proper(v) && Normalizable(v)
    requires forall i :: 0 <= i < |v.members| ==> IsNormal(NormalForm(v.members[i].value))
    ensures IsNormal(NormalForm(v))
  {
    assert NormalForm(v) == Obj(Filled(SortMembers(Normalized(v.members))));
    hide NormalForm, Normalizable, IsNormal, Filled, SortMembers;
    EnumeratedIsNormal(Normalized(v.members));
  }

  lemma EnumeratedIsNormal(ms: seq<Member>)
    requires KeysDistinct(ms) && forall m :: m in ms ==> IsNormal(m.value)
    ensures IsNormal(Obj(Filled(SortMembers(ms))))
  {
    SortMembersSorts(ms);
    FilledOrders(SortMembers(ms));
    var out := Filled(SortMembers(ms));
    hide Filled, SortMembers, IsNormal, Ordered, ByKey;
    assert forall m :: m in out ==> m.key != PROTO && IsNormal(m.value);
    MembersAreNormal(out);
  }

  lemma MembersAreNormal(ms: seq<Member>)
    requires Ordered(ms) && forall m :: m in ms ==> m.key != PROTO && IsNormal(m.value)
    ensures IsNormal(Obj(ms))
  {
    hide Ordered;
    assert forall i :: 0 <= i < |ms| ==> ms[i] in ms;
  }

  /** A normal form is its own normal form. */
  lemma {:induction false} NormalFormIdempotent(v: Js)
    requires IsNormal(v)
    ensures Proper(v) && Normalizable(v) && NormalForm(v) == v
  {
    match v
    case Arr(items) =>
      forall i | 0 <= i < |items| ensures Proper(items[i]) && Normalizable(items[i]) && NormalForm(items[i]) == items[i] {
        NormalFormIdempotent(items[i]);
      }
    case Obj(ms) =>
      forall i | 0 <= i < |ms|
        ensures Proper(ms[i].value) && Normalizable(ms[i].value) && NormalForm(ms[i].value) == ms[i].value
      {
        NormalFormIdempotent(ms[i].value);
      }
      forall i, j | 0 <= i < j < |ms| ensures ms[i].key != ms[j].key {
        BeforeStrict(ms[i].key, ms[i].key, ms[i].key);
      }
      assert Normalized(ms) == ms;
      SortMembersSorts(ms);
      FilledOrders(SortMembers(ms));
      forall m ensures m in Filled(SortMembers(ms)) <==> m in ms {}
      OrderedUnique(Filled(SortMembers(ms)), ms);
    case _ =>
  }

  // ---------- the order of keys ----------

  /** The numeral of an array index, without sign or leading zero. */
  predicate Numeral(key: Text, n: nat) {
    n <= 4_294_967_294 && key == Decimal(n)
  }

  lemma IndexIff(key: Text, n: nat)
    ensures Index(key) == Some(n) <==> Numeral(key, n)
  {
    DecimalRoundTrip(n);
  }

  lemma IndexNone(key: Text)
    ensures Index(key).None? <==> forall n :: !Numeral(key, n)
  {
    if Index(key).Some? { IndexIff(key, Index(key).value); }
    forall n | Numeral(key, n) ensures Index(key).Some? { IndexIff(key, n); }
  }

  /** Array indices first and by number, then the other keys by code units. */
  ghost predicate KeyBefore(a: Text, b: Text) {
    || (exists m, n :: Numeral(a, m) && Numeral(b, n) && m < n)
    || ((exists m :: Numeral(a, m)) && forall n :: !Numeral(b, n))
    || ((forall m :: !Numeral(a, m)) && (forall n :: !Numeral(b, n)) && Precedes(a, b))
  }

  lemma BeforeIff(a: Text, b: Text)
    ensures Before(a, b) <==> KeyBefore(a, b)
  {
    IndexNone(a);
    IndexNone(b);
    LessIff(a, b);
    if Index(a).Some? { IndexIff(a, Index(a).value); }
    if Index(b).Some? { IndexIff(b, Index(b).value); }
    forall m: nat, n: nat | Numeral(a, m) && Numeral(b, n) ensures Index(a) == Some(m) && Index(b) == Some(n) {
      IndexIff(a, m);
      IndexIff(b, n);
    }
    hide Index, Less, Numeral, Precedes;
  }

  ghost predicate KeysInOrder(ms: seq<Member>) {
    forall i, j :: 0 <= i < j < |ms| ==> KeyBefore(ms[i].key, ms[j].key)
  }

  /** In every object of the value the keys stand in that order. */
  ghost predicate KeysStand(v: Js) {
    match v
    case Arr(items) => forall i :: 0 <= i < |items| ==> KeysStand(items[i])
    case Obj(ms) => KeysInOrder(ms) && forall i :: 0 <= i < |ms| ==> KeysStand(ms[i].value)
    case _ => true
  }

  lemma {:induction false} NormalKeysStand(v: Js)
    requires IsNormal(v)
    ensures KeysStand(v)
  {
    hide KeyBefore, Before;
    match v
    case Arr(items) =>
      forall i | 0 <= i < |items| ensures KeysStand(items[i]) { NormalKeysStand(items[i]); }
    case Obj(ms) =>
      forall i | 0 <= i < |ms| ensures KeysStand(ms[i].value) { NormalKeysStand(ms[i].value); }
      forall i, j | 0 <= i < j < |ms| ensures KeyBefore(ms[i].key, ms[j].key) { BeforeIff(ms[i].key, ms[j].key); }
    case _ =>
  }

  /** The tokens of the text, and what other values turn into. */
  lemma TextsOfValues(v: Js, w: Js, k: Text, l: Text)
    requires IsNormal(v) && IsNormal(w)
    ensures Print(Null) == Ascii("null") && Print(Bool(true)) == Ascii("true") && Print(Bool(false)) == Ascii("false")
    ensures Print(Arr([])) == Ascii("[]") && Print(Obj([])) == Ascii("{}")
    ensures IsNormal(Arr([v, w])) && Print(Arr([v, w])) == Ascii("[") + Print(v) + Ascii(",") + Print(w) + Ascii("]")
    ensures KeyBefore(k, l) && k != PROTO && l != PROTO ==>
      && IsNormal(Obj([Member(k, v), Member(l, w)]))
      && Print(Obj([Member(k, v), Member(l, w)])) ==
         Ascii("{") + Quote(k) + Ascii(":") + Print(v) + Ascii(",") + Quote(l) + Ascii(":") + Print(w) + Ascii("}")
    ensures Quote(k)[..1] == Ascii("\"") && Quote(k)[|Quote(k)| - 1..] == Ascii("\"")
    ensures NormalForm(Bytes(k)) == Str(Ascii("b64:") + k) && NormalForm(Date(k)) == Str(k) && !Normalizable(Unsupported)
  {
    PrintTwoItems(v, w);
    if KeyBefore(k, l) && k != PROTO && l != PROTO {
      BeforeIff(k, l);
      PrintTwoMembers(Member(k, v), Member(l, w));
    }
  }

  lemma PrintTwoItems(v: Js, w: Js)
    requires IsNormal(v) && IsNormal(w)
    ensures IsNormal(Arr([v, w])) && Print(Arr([v, w])) == Ascii("[") + Print(v) + Ascii(",") + Print(w) + Ascii("]")
  {
    var a := Arr([v, w]);
    TwoItemsStep(v, w);
    hide Print, PrintItems, IsNormal;
    assert Ascii("[") == [OPEN_ARR] && Ascii(",") == [COMMA] && Ascii("]") == [CLOSE_ARR];
  }

  lemma TwoItemsStep(v: Js, w: Js)
    requires IsNormal(v) && IsNormal(w)
    ensures IsNormal(Arr([v, w])) && Print(Arr([v, w])) == [OPEN_ARR] + ([] + Print(v) + ([COMMA] + Print(w) + [])) + [CLOSE_ARR]
  {
    hide Ascii, Decimal, Quote, FloatText;
    var a := Arr([v, w]);
    assert PrintItems(a, 2) == [];
    assert PrintItems(a, 1) == [COMMA] + Print(a.items[1]) + PrintItems(a, 2);
    assert PrintItems(a, 0) == [] + Print(a.items[0]) + PrintItems(a, 1);
  }

  lemma PrintTwoMembers(m: Member, n: Member)
    requires IsNormal(m.value) && IsNormal(n.value) && Before(m.key, n.key) && m.key != PROTO && n.key != PROTO
    ensures IsNormal(Obj([m, n]))
    ensures Print(Obj([m, n])) ==
            Ascii("{") + Quote(m.key) + Ascii(":") + Print(m.value) + Ascii(",") + Quote(n.key) + Ascii(":") + Print(n.value) + Ascii("}")
  {
    TwoMembersStep(m, n);
    hide Print, PrintMembers, IsNormal, Quote, Before;
    assert Ascii("{") == [OPEN_OBJ] && Ascii(",") == [COMMA] && Ascii("}") == [CLOSE_OBJ] && Ascii(":") == [COLON];
    Flattened([OPEN_OBJ], Quote(m.key), [COLON], Print(m.value), [COMMA], Quote(n.key), Print(n.value), [CLOSE_OBJ]);
  }

  lemma Flattened(a: Text, b: Text, c: Text, d: Text, e: Text, f: Text, g: Text, h: Text)
    ensures a + ([] + (b + c + d) + (e + (f + c + g) + [])) + h == a + b + c + d + e + f + c + g + h
  {
    var x, y := b + c + d, f + c + g;
    assert [] + x + (e + y + []) == x + (e + y);
    assert a + (x + (e + y)) == a + x + e + y;
    assert a + x == a + b + c + d;
    var z := a + x + e;
    assert z + y == z + f + c + g;
  }

  lemma TwoMembersStep(m: Member, n: Member)
    requires IsNormal(m.value) && IsNormal(n.value) && Before(m.key, n.key) && m.key != PROTO && n.key != PROTO
    ensures IsNormal(Obj([m, n]))
    ensures Print(Obj([m, n])) == [OPEN_OBJ] + ([] + PrintMember(m) + ([COMMA] + PrintMember(n) + [])) + [CLOSE_OBJ]
  {
    hide Ascii, Decimal, Quote, FloatText, Index, Less, PrintMember;
    var o := Obj([m, n]);
    assert Ordered(o.members);
    assert PrintMembers(o, 2) == [];
    assert PrintMembers(o, 1) == [COMMA] + PrintMember(o.members[1]) + PrintMembers(o, 2);
    assert PrintMembers(o, 0) == [] + PrintMember(o.members[0]) + PrintMembers(o, 1);
  }
}
