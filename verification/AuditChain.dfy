/**
 The hash-chained audit log of one scope. The digest is a parameter: nothing is
 assumed of it beyond what a theorem names.
 */
module AuditChain {
  import opened Basics
  import opened Text
  import opened CanonicalJson
  import opened CanonicalJsonLaws

  /** What a caller records. */
  datatype Body = Body(userId: Text, scenarioId: Option<Text>, actor: Text, eventType: Text, payload: Js)

  datatype Row = Row(scope: Text, number: nat, body: Body, prevHash: Text, hash: Text)

  function Zeros(n: nat): Text {
    if n == 0 then [] else [ZERO] + Zeros(n - 1)
  }

  const GENESIS: Text := Zeros(64)

  /** An empty scenario id counts as none. */
  function ScopeOf(body: Body): Text {
    if body.scenarioId.Some? && body.scenarioId.value != [] then Ascii("scenario:") + body.scenarioId.value
    else Ascii("user:") + body.userId
  }

  function Nullable(t: Option<Text>): Js {
    if t.None? then Null else Str(t.value)
  }

  const CHAIN_SCOPE: Text := Ascii("chainScope")
  const SEQ: Text := Ascii("seq")
  const USER_ID: Text := Ascii("userId")
  const SCENARIO_ID: Text := Ascii("scenarioId")
  const ACTOR: Text := Ascii("actor")
  const EVENT_TYPE: Text := Ascii("eventType")
  const PAYLOAD: Text := Ascii("payload")
  const PREV_HASH: Text := Ascii("prevHash")

  function HashInput(scope: Text, number: nat, body: Body, prev: Text): Js {
    Obj([
      Member(CHAIN_SCOPE, Str(scope)), Member(SEQ, Int(number)), Member(USER_ID, Str(body.userId)),
      Member(SCENARIO_ID, Nullable(body.scenarioId)), Member(ACTOR, Str(body.actor)),
      Member(EVENT_TYPE, Str(body.eventType)), Member(PAYLOAD, body.payload), Member(PREV_HASH, Str(prev))])
  }

  /** The eight field names differ. */
  lemma FieldNamesDiffer()
    ensures [CHAIN_SCOPE[0], SEQ[0], USER_ID[0], SCENARIO_ID[0], ACTOR[0], EVENT_TYPE[0], PAYLOAD[0], PREV_HASH[0]]
         == [99, 115, 117, 115, 97, 101, 112, 112]
    ensures |SEQ| != |SCENARIO_ID| && |PAYLOAD| != |PREV_HASH|
    ensures PROTO[0] == 95
  {}

  lemma HashInputIsProper(scope: Text, number: nat, body: Body, prev: Text)
    requires Proper(body.payload)
    ensures Proper(HashInput(scope, number, body, prev))
    ensures Normalizable(HashInput(scope, number, body, prev)) <==> Normalizable(body.payload)
  {
    FieldNamesDiffer();
    var v := HashInput(scope, number, body, prev);
    assert v.members[6].value == body.payload;
  }

  /** The same record, the payload taken as JSON. */
  predicate SameBody(a: Body, b: Body) {
    a.(payload := Null) == b.(payload := Null) && Same(a.payload, b.payload)
  }

  /** The member of `w` that has the key of the `i`th of `v` is the `i`th of `w`. */
  lemma FieldMatches(v: Js, w: Js, i: nat)
    requires v.Obj? && w.Obj? && |v.members| == 8 && |w.members| == 8 && Same(v, w) && i < 8
    requires forall k :: 0 <= k < 8 ==> v.members[k].key == w.members[k].key && v.members[k].key != PROTO
    requires KeysDistinct(w.members)
    ensures Same(v.members[i].value, w.members[i].value)
  {}

  lemma FieldsMatch(v: Js, w: Js)
    requires v.Obj? && w.Obj? && |v.members| == 8 && |w.members| == 8 && Same(v, w)
    requires forall k :: 0 <= k < 8 ==> v.members[k].key == w.members[k].key && v.members[k].key != PROTO
    requires KeysDistinct(w.members)
    ensures forall i :: 0 <= i < 8 ==> Same(v.members[i].value, w.members[i].value)
  {
    forall i | 0 <= i < 8 ensures Same(v.members[i].value, w.members[i].value) { FieldMatches(v, w, i); }
  }

  lemma TextsDecide(a: Text, b: Text, n: int, m: int, x: Option<Text>, y: Option<Text>)
    ensures Same(Str(a), Str(b)) ==> a == b
    ensures Same(Int(n), Int(m)) ==> n == m
    ensures Same(Nullable(x), Nullable(y)) ==> x == y
  {}

  lemma KeysAgree(scope: Text, n: nat, a: Body, prev: Text, scope': Text, n': nat, b: Body, prev': Text)
    ensures var v, w := HashInput(scope, n, a, prev), HashInput(scope', n', b, prev');
      && (forall k :: 0 <= k < 8 ==> v.members[k].key == w.members[k].key && v.members[k].key != PROTO)
      && KeysDistinct(w.members)
  {
    FieldNamesDiffer();
  }

  /** Hash inputs are the same JSON only when they say the same. */
  lemma HashInputDecides(scope: Text, n: nat, a: Body, prev: Text, scope': Text, n': nat, b: Body, prev': Text)
    requires Same(HashInput(scope, n, a, prev), HashInput(scope', n', b, prev'))
    ensures scope == scope' && n == n' && prev == prev' && SameBody(a, b)
  {
    hide Same, Nullable, KeysDistinct;
    var v, w := HashInput(scope, n, a, prev), HashInput(scope', n', b, prev');
    KeysAgree(scope, n, a, prev, scope', n', b, prev');
    FieldsMatch(v, w);
    assert Same(v.members[0].value, w.members[0].value) && Same(v.members[1].value, w.members[1].value);
    assert Same(v.members[2].value, w.members[2].value) && Same(v.members[3].value, w.members[3].value);
    assert Same(v.members[4].value, w.members[4].value) && Same(v.members[5].value, w.members[5].value);
    assert Same(v.members[6].value, w.members[6].value) && Same(v.members[7].value, w.members[7].value);
    TextsDecide(scope, scope', n, n', a.scenarioId, b.scenarioId);
    TextsDecide(a.userId, b.userId, 0, 0, None, None);
    TextsDecide(a.actor, b.actor, 0, 0, None, None);
    TextsDecide(a.eventType, b.eventType, 0, 0, None, None);
    TextsDecide(prev, prev', 0, 0, None, None);
  }

  // ---------- links ----------

  predicate RowOk(r: Row) {
    Proper(r.body.payload)
  }

  /** The text a row is checked against, given the hash before it; None where `canonicalize` throws. */
  function Hashed(r: Row, prev: Text): Option<Text>
    requires RowOk(r)
  {
    HashInputIsProper(r.scope, r.number, r.body, prev);
    CanonicalText(HashInput(r.scope, r.number, r.body, prev))
  }

  predicate Links(sha: Text -> Text, r: Row, prev: Text)
    requires RowOk(r)
  {
    Hashed(r, prev).Some? && sha(Hashed(r, prev).value) == r.hash && r.prevHash == prev
  }

  function PrevOf(rows: seq<Row>, i: nat): Text
    requires i <= |rows|
  {
    if i == 0 then GENESIS else rows[i - 1].hash
  }

  lemma PrevIs(rows: seq<Row>, i: nat)
    requires i <= |rows|
    ensures PrevOf(rows, i) == if i == 0 then GENESIS else rows[i - 1].hash
  {}

  predicate RowsOk(rows: seq<Row>) {
    forall i :: 0 <= i < |rows| ==> RowOk(rows[i])
  }

  predicate Verifies(sha: Text -> Text, rows: seq<Row>)
    requires RowsOk(rows)
  {
    forall i {:trigger PrevOf(rows, i)} :: 0 <= i < |rows| ==> Links(sha, rows[i], PrevOf(rows, i))
  }

  datatype Verdict = Intact | Broken(atSeq: nat) | Threw

  /** What is said of one row, given the hash before it. */
  function Judged(sha: Text -> Text, r: Row, prev: Text): Verdict
    requires RowOk(r)
  {
    if Links(sha, r, prev) then Intact
    else if Normalizable(r.body.payload) then Broken(r.number)
    else Threw
  }

  /** The body of the loop in `verifyChain`. */
  method CheckRow(sha: Text -> Text, r: Row, prev: Text) returns (v: Verdict)
    requires RowOk(r)
    ensures v == Judged(sha, r, prev)
    ensures v == Threw <==> !Normalizable(r.body.payload)
    ensures v == Intact <==>
      r.prevHash == prev && Hashed(r, prev).Some? && r.hash == sha(Hashed(r, prev).value)
    ensures v.Broken? ==> v.atSeq == r.number
  {
    HashInputIsProper(r.scope, r.number, r.body, prev);
    hide HashInput;
    var text := Canonicalize(HashInput(r.scope, r.number, r.body, prev));
    if text.None? { return Threw; }
    if sha(text.value) != r.hash || r.prevHash != prev { return Broken(r.number); }
    return Intact;
  }

  /** Row `k` is the first that does not link, and `v` is what is said of it. */
  ghost predicate FirstBreak(sha: Text -> Text, rows: seq<Row>, k: nat, v: Verdict)
    requires RowsOk(rows)
  {
    && k < |rows| && Verifies(sha, rows[..k]) && !Links(sha, rows[k], PrevOf(rows, k))
    && v == Judged(sha, rows[k], PrevOf(rows, k))
  }

  /** `verifyChain`: the first row that does not link, if any. */
  method VerifyChain(sha: Text -> Text, rows: seq<Row>) returns (v: Verdict)
    requires RowsOk(rows)
    ensures v.Intact? <==> Verifies(sha, rows)
    ensures !v.Intact? ==> exists k: nat :: FirstBreak(sha, rows, k, v) && (v.Broken? ==> v.atSeq == rows[k].number)
  {
    hide Links, RowOk, FirstBreak, Verifies, PrevOf, Judged, Hashed, Normalizable;
    PrevIs(rows, 0);
    var prev := GENESIS;
    for i := 0 to |rows|
      invariant prev == PrevOf(rows, i)
      invariant forall k {:trigger PrevOf(rows, k)} :: 0 <= k < i ==> Links(sha, rows[k], PrevOf(rows, k))
    {
      v := CheckRow(sha, rows[i], prev);
      if !v.Intact? {
        JudgedIntact(sha, rows[i], prev);
        BreaksAt(sha, rows, i);
        assert FirstBreak(sha, rows, i, v);
        return;
      }
      JudgedIntact(sha, rows[i], prev);
      prev := rows[i].hash;
      PrevIs(rows, i + 1);
    }
    PrefixLinks(sha, rows, |rows|);
    assert rows[..|rows|] == rows;
    return Intact;
  }

  lemma JudgedIntact(sha: Text -> Text, r: Row, prev: Text)
    requires RowOk(r)
    ensures Judged(sha, r, prev) == Intact <==> Links(sha, r, prev)
  {}

  lemma BreaksAt(sha: Text -> Text, rows: seq<Row>, i: nat)
    requires RowsOk(rows) && i < |rows| && !Links(sha, rows[i], PrevOf(rows, i))
    requires forall k {:trigger PrevOf(rows, k)} :: 0 <= k < i ==> Links(sha, rows[k], PrevOf(rows, k))
    ensures !Verifies(sha, rows)
    ensures FirstBreak(sha, rows, i, Judged(sha, rows[i], PrevOf(rows, i)))
  {
    PrefixLinks(sha, rows, i);
    hide RowOk, Links;
  }

  lemma PrefixLinks(sha: Text -> Text, rows: seq<Row>, i: nat)
    requires RowsOk(rows) && i <= |rows| && forall k {:trigger PrevOf(rows, k)} :: 0 <= k < i ==> Links(sha, rows[k], PrevOf(rows, k))
    ensures Verifies(sha, rows[..i])
  {
    hide RowOk, Links;
    assert forall k :: 0 <= k < i ==> rows[..i][k] == rows[k] && PrevOf(rows[..i], k) == PrevOf(rows, k);
  }

  /** What a verifying chain looks like: from sixty-four zeros on, each row names the hash before it and has that of its own text. */
  lemma VerifiedRows(sha: Text -> Text, rows: seq<Row>)
    requires RowsOk(rows) && Verifies(sha, rows)
    ensures rows != [] ==> |rows[0].prevHash| == 64 && forall c :: c in rows[0].prevHash ==> c == 48
    ensures forall i :: 1 <= i < |rows| ==> rows[i].prevHash == rows[i - 1].hash
    ensures forall i :: 0 <= i < |rows| ==>
      Hashed(rows[i], rows[i].prevHash).Some? && sha(Hashed(rows[i], rows[i].prevHash).value) == rows[i].hash
  {
    hide Hashed, RowOk;
    ZerosAre(64);
    forall i | 0 <= i < |rows|
      ensures rows[i].prevHash == PrevOf(rows, i)
      ensures Hashed(rows[i], rows[i].prevHash).Some? && sha(Hashed(rows[i], rows[i].prevHash).value) == rows[i].hash
    {
      assert Links(sha, rows[i], PrevOf(rows, i));
    }
    if rows != [] { PrevIs(rows, 0); }
    forall i | 1 <= i < |rows| ensures rows[i].prevHash == rows[i - 1].hash { PrevIs(rows, i); }
  }

  lemma {:induction false} ZerosAre(n: nat)
    ensures |Zeros(n)| == n && forall c :: c in Zeros(n) ==> c == 48
  {
    if n > 0 { ZerosAre(n - 1); }
  }

  /** The members of a row's text in the order they are written. */
  function Written(scope: Text, number: nat, body: Body, prev: Text): seq<Member>
    requires Normalizable(body.payload)
  {
    [Member(Ascii("actor"), Str(body.actor)), Member(Ascii("chainScope"), Str(scope)),
     Member(Ascii("eventType"), Str(body.eventType)), Member(Ascii("payload"), NormalForm(body.payload)),
     Member(Ascii("prevHash"), Str(prev)),
     Member(Ascii("scenarioId"), if body.scenarioId == None then Null else Str(body.scenarioId.value)),
     Member(Ascii("seq"), Int(number)), Member(Ascii("userId"), Str(body.userId))]
  }

  /** The text that is hashed for a row has these members in this order, the payload in its normal form. */
  lemma RowIsWritten(scope: Text, number: nat, body: Body, prev: Text)
    requires Proper(body.payload) && Normalizable(body.payload)
    ensures Normalizable(HashInput(scope, number, body, prev))
    ensures NormalForm(HashInput(scope, number, body, prev)) == Obj(Written(scope, number, body, prev))
  {
    HashInputIsProper(scope, number, body, prev);
    var v := HashInput(scope, number, body, prev);
    var all := Normalized(v.members);
    FieldsNormalized(scope, number, body, prev);
    assert NormalForm(v) == Obj(Filled(SortMembers(all)));
    FieldsSorted(scope, number, body, prev);
    SameFields(scope, number, body, prev);
    hide NormalForm, Normalizable, Filled, SortMembers, Ordered, HashInput, Written, Proper;
    SortMembersSorts(all);
    FilledOrders(SortMembers(all));
    OrderedUnique(Filled(SortMembers(all)), Written(scope, number, body, prev));
  }

  /** The eight members with their values normalised, as they are handed over. */
  lemma FieldsNormalized(scope: Text, number: nat, body: Body, prev: Text)
    requires Proper(body.payload) && Normalizable(body.payload)
    ensures var v := HashInput(scope, number, body, prev);
      && (forall i :: 0 <= i < 8 ==> Normalizable(v.members[i].value))
      && Normalized(v.members) == v.members[6 := Member(PAYLOAD, NormalForm(body.payload))]
      && KeysDistinct(Normalized(v.members))
  {
    HashInputIsProper(scope, number, body, prev);
  }

  lemma SameFields(scope: Text, number: nat, body: Body, prev: Text)
    requires Proper(body.payload) && Normalizable(body.payload)
    ensures var v := HashInput(scope, number, body, prev);
      && (forall i :: 0 <= i < 8 ==> Normalizable(v.members[i].value))
      && forall m :: m in Written(scope, number, body, prev) <==> m in Normalized(v.members) && m.key != PROTO
  {
    FieldsNormalized(scope, number, body, prev);
    FieldNamesDiffer();
    var all := Normalized(HashInput(scope, number, body, prev).members);
    assert Written(scope, number, body, prev) == [all[4], all[0], all[5], all[6], all[7], all[3], all[1], all[2]];
    assert forall i :: 0 <= i < 8 ==> all[i].key != PROTO;
    hide HashInput, Written, Normalized, NormalForm, Normalizable, Ascii;
    Rearranged(all);
  }

  lemma Rearranged(all: seq<Member>)
    requires |all| == 8
    ensures forall m :: m in [all[4], all[0], all[5], all[6], all[7], all[3], all[1], all[2]] <==> m in all
  {
    assert all == [all[0], all[1], all[2], all[3], all[4], all[5], all[6], all[7]];
  }

  /** The first two letters of the eight names. */
  lemma WrittenKeys(scope: Text, number: nat, body: Body, prev: Text)
    requires Normalizable(body.payload)
    ensures var ms := Written(scope, number, body, prev);
      && |ms| == 8
      && forall i :: 0 <= i < 8 ==>
        && |ms[i].key| >= 2 && ms[i].key[0] == [97, 99, 101, 112, 112, 115, 115, 117][i]
        && ms[i].key[1] == [99, 104, 118, 97, 114, 99, 101, 115][i]
  {
    hide NormalForm;
  }

  /** The eight names stand in code-unit order, and none is an index. */
  lemma FieldsSorted(scope: Text, number: nat, body: Body, prev: Text)
    requires Normalizable(body.payload)
    ensures Ordered(Written(scope, number, body, prev))
  {
    hide Less, Index, Written, NormalForm, Normalizable;
    var ms := Written(scope, number, body, prev);
    WrittenKeys(scope, number, body, prev);
    forall i, j | 0 <= i < j < |ms| ensures Before(ms[i].key, ms[j].key) {
      NotAnIndex(ms[i].key);
      NotAnIndex(ms[j].key);
      NamesInOrder(ms[i].key, ms[j].key);
    }
  }

  lemma NotAnIndex(key: Text)
    requires key != [] && key[0] > 57
    ensures Index(key).None?
  {
    forall n: nat ensures !Numeral(key, n) { assert IsDigit(Decimal(n)[0]); }
    IndexNone(key);
  }

  /** Names that differ in the first letter, or after a common first one in the second. */
  lemma NamesInOrder(a: Text, b: Text)
    requires |a| >= 2 && |b| >= 2 && (a[0] < b[0] || (a[0] == b[0] && a[1] < b[1]))
    ensures Less(a, b)
  {
    if a[0] == b[0] { assert Less(a[1..], b[1..]); }
  }

  /** Who shares a chain: events of one scenario, and events of one user that name no scenario. */
  lemma ScopesDecide(a: Body, b: Body)
    ensures ScopeOf(a) == ScopeOf(b) <==>
      if a.scenarioId != None && a.scenarioId.value != [] then b.scenarioId == a.scenarioId
      else !(b.scenarioId != None && b.scenarioId.value != []) && a.userId == b.userId
    ensures Ascii("user:") <= ScopeOf(a) <==> !(a.scenarioId != None && a.scenarioId.value != [])
  {
    ScopeParts(a);
    ScopeParts(b);
  }

  lemma ScopeParts(a: Body)
    ensures if a.scenarioId.Some? && a.scenarioId.value != []
            then ScopeOf(a)[0] == 115 && ScopeOf(a)[9..] == a.scenarioId.value
            else Ascii("user:") <= ScopeOf(a) && ScopeOf(a)[0] == 117 && ScopeOf(a)[5..] == a.userId
  {}

  // ---------- what the last hash commits to ----------

  /** `t` was hashed for some row. */
  predicate HashedIn(t: Text, rows: seq<Row>)
    requires RowsOk(rows)
  {
    exists i {:trigger PrevOf(rows, i)} :: 0 <= i < |rows| && Hashed(rows[i], PrevOf(rows, i)) == Some(t)
  }

  /** No two texts hashed for these chains collide, and none hashes to the genesis value. */
  ghost predicate NoCollision(sha: Text -> Text, a: seq<Row>, b: seq<Row>)
    requires RowsOk(a) && RowsOk(b)
  {
    && (forall t, u :: HashedIn(t, a) && HashedIn(u, b) && sha(t) == sha(u) ==> t == u)
    && (forall t :: HashedIn(t, a) || HashedIn(t, b) ==> sha(t) != GENESIS)
  }

  predicate SameRow(a: Row, b: Row) {
    a.scope == b.scope && a.number == b.number && a.prevHash == b.prevHash && a.hash == b.hash && SameBody(a.body, b.body)
  }

  predicate SameRows(a: seq<Row>, b: seq<Row>) {
    |a| == |b| && forall i :: 0 <= i < |a| ==> SameRow(a[i], b[i])
  }

  /** Two linked rows with one hash were hashed from one text. */
  lemma EqualHashesEqualRows(sha: Text -> Text, r: Row, s: Row, prev: Text, prev': Text)
    requires RowOk(r) && RowOk(s) && Links(sha, r, prev) && Links(sha, s, prev') && r.hash == s.hash
    requires Hashed(r, prev) == Hashed(s, prev')
    ensures SameRow(r, s) && prev == prev'
  {
    var v, w := HashInput(r.scope, r.number, r.body, prev), HashInput(s.scope, s.number, s.body, prev');
    HashInputIsProper(r.scope, r.number, r.body, prev);
    HashInputIsProper(s.scope, s.number, s.body, prev');
    hide HashInput;
    CanonicalTextDecides(v, w);
    HashInputDecides(r.scope, r.number, r.body, prev, s.scope, s.number, s.body, prev');
  }

  lemma PrefixVerifies(sha: Text -> Text, rows: seq<Row>, k: nat)
    requires RowsOk(rows) && k <= |rows| && Verifies(sha, rows)
    ensures Verifies(sha, rows[..k]) && PrevOf(rows[..k], k) == PrevOf(rows, k)
    ensures forall t :: HashedIn(t, rows[..k]) ==> HashedIn(t, rows)
  {
    PrefixLinks(sha, rows, k);
    hide RowOk, Hashed, Links;
    forall t | HashedIn(t, rows[..k]) ensures HashedIn(t, rows) {
      var i :| 0 <= i < k && Hashed(rows[..k][i], PrevOf(rows[..k], i)) == Some(t);
      assert PrevOf(rows[..k], i) == PrevOf(rows, i);
      assert Hashed(rows[i], PrevOf(rows, i)) == Some(t);
    }
  }

  /** A row of a verified chain was hashed from its text. */
  lemma LinkedHash(sha: Text -> Text, rows: seq<Row>, i: nat)
    requires RowsOk(rows) && Verifies(sha, rows) && i < |rows|
    ensures Hashed(rows[i], PrevOf(rows, i)).Some?
    ensures HashedIn(Hashed(rows[i], PrevOf(rows, i)).value, rows)
    ensures sha(Hashed(rows[i], PrevOf(rows, i)).value) == rows[i].hash
  {
    hide RowOk, Hashed;
    assert Links(sha, rows[i], PrevOf(rows, i));
  }

  lemma LastRowsAgree(sha: Text -> Text, a: seq<Row>, b: seq<Row>)
    requires RowsOk(a) && RowsOk(b) && Verifies(sha, a) && Verifies(sha, b) && NoCollision(sha, a, b)
    requires a != [] && PrevOf(a, |a|) == PrevOf(b, |b|)
    ensures b != [] && SameRow(a[|a| - 1], b[|b| - 1]) && PrevOf(a, |a| - 1) == PrevOf(b, |b| - 1)
  {
    hide Hashed, HashedIn, SameRow;
    var i := |a| - 1;
    LinkedHash(sha, a, i);
    assert b != [];
    var j := |b| - 1;
    LinkedHash(sha, b, j);
    EqualHashesEqualRows(sha, a[i], b[j], PrevOf(a, i), PrevOf(b, j));
  }

  /**
   Two chains that verify and end in the same hash agree row by row in every hashed
   field, payloads up to JSON equality, unless two of the very texts hashed for them
   collide or one hashes to the genesis value.
   */
  lemma {:induction false} LastHashCommits(sha: Text -> Text, a: seq<Row>, b: seq<Row>)
    requires RowsOk(a) && RowsOk(b) && Verifies(sha, a) && Verifies(sha, b) && NoCollision(sha, a, b)
    requires PrevOf(a, |a|) == PrevOf(b, |b|)
    ensures SameRows(a, b)
    decreases |a|
  {
    hide Verifies, HashedIn, SameRow, RowOk;
    if a == [] {
      if b != [] {
        LinkedHash(sha, b, |b| - 1);
        assert false;
      }
    } else {
      LastRowsAgree(sha, a, b);
      var i, j := |a| - 1, |b| - 1;
      PrefixVerifies(sha, a, i);
      PrefixVerifies(sha, b, j);
      LastHashCommits(sha, a[..i], b[..j]);
      assert a == a[..i] + [a[i]] && b == b[..j] + [b[j]];
    }
  }

  /** So a rewrite that keeps the last hash but changes some row does not verify. */
  lemma RewriteIsReported(sha: Text -> Text, rows: seq<Row>, forged: seq<Row>)
    requires RowsOk(rows) && RowsOk(forged) && Verifies(sha, rows) && NoCollision(sha, rows, forged)
    requires PrevOf(rows, |rows|) == PrevOf(forged, |forged|) && !SameRows(rows, forged)
    ensures !Verifies(sha, forged)
  {
    if Verifies(sha, forged) { LastHashCommits(sha, rows, forged); }
  }

  /** A chain cut short at the end still verifies: truncation needs an outside witness. */
  lemma TruncationVerifies(sha: Text -> Text, rows: seq<Row>, k: nat)
    requires RowsOk(rows) && k <= |rows| && Verifies(sha, rows)
    ensures Verifies(sha, rows[..k])
  {
    PrefixVerifies(sha, rows, k);
  }
}
