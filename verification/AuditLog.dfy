/**
 Recording audit events: concurrent transactions that take an advisory lock on a
 number derived from their scope, read the end of the chain, and insert. The payload
 column may keep another key order than the caller's.
 */
module AuditLog {
  import opened Basics
  import opened Text
  import opened CanonicalJson
  import opened CanonicalJsonLaws
  import opened AuditChain

  datatype Phase = Locked | HasRead(number: nat, prev: Text)

  datatype Tx = Tx(body: Body, phase: Phase)

  /** Committed rows by scope, and the transactions that hold a lock. */
  datatype World = World(chains: map<Text, seq<Row>>, txs: map<nat, Tx>) {
    function Chain(scope: Text): seq<Row> {
      if scope in chains then chains[scope] else []
    }
  }

  /** The digest of row texts, and the number a scope is locked under; scopes may share one. */
  datatype Config = Config(sha: Text -> Text, lockKey: Text -> int)

  datatype Event =
    | Lock(t: nat, body: Body)
    | Read(t: nat)
    | Insert(t: nat, stored: Js)
    | Abort(t: nat)

  /** What the database may give back for a payload. */
  predicate Keeps(payload: Js, stored: Js) {
    Proper(stored) && Normalizable(stored) && Same(payload, stored)
  }

  predicate LockFree(c: Config, w: World, scope: Text) {
    forall u :: u in w.txs ==> c.lockKey(ScopeOf(w.txs[u].body)) != c.lockKey(scope)
  }

  predicate PayloadsProper(w: World) {
    forall t :: t in w.txs ==> Proper(w.txs[t].body.payload)
  }

  predicate Enabled(c: Config, w: World, e: Event) {
    match e
    case Lock(t, body) => t !in w.txs && Proper(body.payload) && LockFree(c, w, ScopeOf(body))
    case Read(t) => t in w.txs && w.txs[t].phase.Locked?
    case Insert(t, stored) => t in w.txs && w.txs[t].phase.HasRead? && Keeps(w.txs[t].body.payload, stored)
    case Abort(t) => t in w.txs
  }

  /** The unique index on scope and number. */
  predicate Taken(w: World, scope: Text, number: nat) {
    exists i :: 0 <= i < |w.Chain(scope)| && w.Chain(scope)[i].number == number
  }

  function RowOf(c: Config, tx: Tx, stored: Js, text: Text): Row
    requires tx.phase.HasRead?
  {
    Row(ScopeOf(tx.body), tx.phase.number, tx.body.(payload := stored), tx.phase.prev, c.sha(text))
  }

  /** What is hashed, if it has a canonical text. */
  function TextOf(tx: Tx): (text: Option<Text>)
    requires tx.phase.HasRead? && Proper(tx.body.payload)
    ensures text.Some? <==> Normalizable(tx.body.payload)
  {
    HashInputIsProper(ScopeOf(tx.body), tx.phase.number, tx.body, tx.phase.prev);
    CanonicalText(HashInput(ScopeOf(tx.body), tx.phase.number, tx.body, tx.phase.prev))
  }

  function NewRow(c: Config, tx: Tx, stored: Js): Option<Row>
    requires tx.phase.HasRead? && Proper(tx.body.payload)
  {
    var text := TextOf(tx);
    if text.None? then None else Some(RowOf(c, tx, stored, text.value))
  }

  function Apply(c: Config, w: World, e: Event): World
    requires Enabled(c, w, e)
    requires PayloadsProper(w)
  {
    match e
    case Lock(t, body) => w.(txs := w.txs[t := Tx(body, Locked)])
    case Read(t) =>
      var chain := w.Chain(ScopeOf(w.txs[t].body));
      w.(txs := w.txs[t := w.txs[t].(phase := HasRead(if chain == [] then 1 else chain[|chain| - 1].number + 1, PrevOf(chain, |chain|)))])
    case Insert(t, stored) =>
      var scope := ScopeOf(w.txs[t].body);
      var row := NewRow(c, w.txs[t], stored);
      if row.None? || Taken(w, scope, row.value.number) then w.(txs := w.txs - {t})
      else World(w.chains[scope := w.Chain(scope) + [row.value]], w.txs - {t})
    case Abort(t) => w.(txs := w.txs - {t})
  }

  // ---------- the invariant ----------

  /** A chain of one scope: numbered 1 to n, and it verifies. */
  ghost predicate ChainSound(c: Config, scope: Text, rows: seq<Row>) {
    && RowsOk(rows) && Verifies(c.sha, rows)
    && forall i :: 0 <= i < |rows| ==> rows[i].number == i + 1 && rows[i].scope == scope
  }

  /** Transactions have their own locks, and what they read is still the end of their chain. */
  ghost predicate TxsSound(c: Config, w: World) {
    && PayloadsProper(w)
    && (forall t, u | t in w.txs && u in w.txs ::
      c.lockKey(ScopeOf(w.txs[t].body)) == c.lockKey(ScopeOf(w.txs[u].body)) ==> t == u)
    && (forall t :: t in w.txs && w.txs[t].phase.HasRead? ==>
      var chain := w.Chain(ScopeOf(w.txs[t].body));
      w.txs[t].phase == HasRead(|chain| + 1, PrevOf(chain, |chain|)))
  }

  ghost predicate Sound(c: Config, w: World) {
    (forall s :: ChainSound(c, s, w.Chain(s))) && TxsSound(c, w)
  }

  /** The text of a row does not depend on the key order its payload is kept in. */
  lemma TextKept(scope: Text, number: nat, body: Body, stored: Js, prev: Text)
    requires Proper(body.payload) && Normalizable(body.payload) && Keeps(body.payload, stored)
    ensures var kept := Row(scope, number, body.(payload := stored), prev, []);
      Hashed(Row(scope, number, body, prev, []), prev) == Hashed(kept, prev)
  {
    var kept := body.(payload := stored);
    HashInputIsProper(scope, number, body, prev);
    HashInputIsProper(scope, number, kept, prev);
    PayloadsSame(scope, number, body, stored, prev);
    hide HashInput, Same, Proper, Normalizable;
    CanonicalTextDecides(HashInput(scope, number, body, prev), HashInput(scope, number, kept, prev));
  }

  /** A row made for the end of a chain links to it, whatever key order the payload is kept in. */
  lemma NewRowLinks(c: Config, tx: Tx, stored: Js, chain: seq<Row>)
    requires tx.phase == HasRead(|chain| + 1, PrevOf(chain, |chain|)) && Proper(tx.body.payload)
    requires Keeps(tx.body.payload, stored) && NewRow(c, tx, stored).Some?
    ensures var r := NewRow(c, tx, stored).value;
      RowOk(r) && Links(c.sha, r, PrevOf(chain, |chain|)) && r.number == |chain| + 1 && r.scope == ScopeOf(tx.body)
  {
    var scope, n, prev := ScopeOf(tx.body), tx.phase.number, tx.phase.prev;
    HashInputIsProper(scope, n, tx.body, prev);
    assert Normalizable(tx.body.payload);
    hide PrevOf, Same, Proper, Normalizable, ScopeOf;
    TextKept(scope, n, tx.body, stored, prev);
  }

  lemma PayloadsSame(scope: Text, number: nat, body: Body, stored: Js, prev: Text)
    requires Same(body.payload, stored)
    ensures Same(HashInput(scope, number, body, prev), HashInput(scope, number, body.(payload := stored), prev))
  {
    var v, w := HashInput(scope, number, body, prev), HashInput(scope, number, body.(payload := stored), prev);
    forall i | 0 <= i < 8 ensures w.members[i].key == v.members[i].key && Same(v.members[i].value, w.members[i].value) {
      if i != 6 { SameReflexive(v.members[i].value); }
    }
  }

  lemma AppendKeepsChain(c: Config, scope: Text, rows: seq<Row>, r: Row)
    requires ChainSound(c, scope, rows) && RowOk(r) && Links(c.sha, r, PrevOf(rows, |rows|))
    requires r.number == |rows| + 1 && r.scope == scope
    ensures ChainSound(c, scope, rows + [r])
  {
    var all := rows + [r];
    hide RowOk, Links;
    forall i | 0 <= i < |all| ensures RowOk(all[i]) {}
    forall i | 0 <= i < |all| ensures RowOk(all[i]) && Links(c.sha, all[i], PrevOf(all, i)) {
      assert PrevOf(all, i) == PrevOf(rows, i);
    }
  }

  lemma NumberFree(c: Config, w: World, scope: Text)
    requires ChainSound(c, scope, w.Chain(scope))
    ensures !Taken(w, scope, |w.Chain(scope)| + 1)
  {}

  /** A row is made exactly where the payload has a canonical text. */
  lemma NewRowIff(c: Config, tx: Tx, stored: Js)
    requires tx.phase.HasRead? && Proper(tx.body.payload)
    ensures NewRow(c, tx, stored).Some? <==> Normalizable(tx.body.payload)
    ensures NewRow(c, tx, stored).Some? ==> NewRow(c, tx, stored).value.number == tx.phase.number
  {
    HashInputIsProper(ScopeOf(tx.body), tx.phase.number, tx.body, tx.phase.prev);
    hide HashInput;
  }

  /** An insert puts one row at the end of its scope's chain, or nothing where `canonicalize` throws. */
  lemma InsertAppends(c: Config, w: World, t: nat, stored: Js)
    requires Sound(c, w) && Enabled(c, w, Insert(t, stored))
    ensures var scope := ScopeOf(w.txs[t].body); var w' := Apply(c, w, Insert(t, stored));
      && (Normalizable(w.txs[t].body.payload) ==>
        && NewRow(c, w.txs[t], stored).Some?
        && w'.chains == w.chains[scope := w.Chain(scope) + [NewRow(c, w.txs[t], stored).value]])
      && (!Normalizable(w.txs[t].body.payload) ==> w'.chains == w.chains)
      && w'.txs == w.txs - {t}
  {
    var tx := w.txs[t];
    NewRowIff(c, tx, stored);
    assert ChainSound(c, ScopeOf(tx.body), w.Chain(ScopeOf(tx.body)));
    NumberFree(c, w, ScopeOf(tx.body));
    hide ChainSound, NewRow, Taken, ScopeOf, Normalizable, PrevOf;
  }

  /** Without transaction `t`, and with at most the chain of its scope changed, the others read well. */
  lemma LocksStayApart(c: Config, w: World, t: nat, w': World)
    requires TxsSound(c, w) && t in w.txs && w'.txs == w.txs - {t}
    requires forall s :: s != ScopeOf(w.txs[t].body) ==> w'.Chain(s) == w.Chain(s)
    ensures TxsSound(c, w')
  {
    hide PrevOf, Proper, ScopeOf, World.Chain;
    forall u | u in w'.txs ensures ScopeOf(w.txs[u].body) != ScopeOf(w.txs[t].body) {}
  }

  /** The row of an insert keeps its own chain sound. */
  lemma InsertedChain(c: Config, w: World, t: nat, stored: Js)
    requires Sound(c, w) && Enabled(c, w, Insert(t, stored)) && Normalizable(w.txs[t].body.payload)
    ensures NewRow(c, w.txs[t], stored).Some?
    ensures var scope := ScopeOf(w.txs[t].body); ChainSound(c, scope, w.Chain(scope) + [NewRow(c, w.txs[t], stored).value])
  {
    var tx, scope := w.txs[t], ScopeOf(w.txs[t].body);
    NewRowIff(c, tx, stored);
    assert tx.phase == HasRead(|w.Chain(scope)| + 1, PrevOf(w.Chain(scope), |w.Chain(scope)|));
    assert ChainSound(c, scope, w.Chain(scope));
    hide ChainSound, NewRow, PrevOf, Normalizable, TxsSound, ScopeOf;
    NewRowLinks(c, tx, stored, w.Chain(scope));
    AppendKeepsChain(c, scope, w.Chain(scope), NewRow(c, tx, stored).value);
  }

  lemma InsertKeepsSound(c: Config, w: World, t: nat, stored: Js)
    requires Sound(c, w) && Enabled(c, w, Insert(t, stored))
    ensures Sound(c, Apply(c, w, Insert(t, stored)))
  {
    InsertAppends(c, w, t, stored);
    if Normalizable(w.txs[t].body.payload) { InsertedChain(c, w, t, stored); }
    hide ChainSound, NewRow, Apply, Normalizable, ScopeOf, TxsSound, Enabled;
    LocksStayApart(c, w, t, Apply(c, w, Insert(t, stored)));
  }

  lemma StepKeepsSound(c: Config, w: World, e: Event)
    requires Sound(c, w) && Enabled(c, w, e)
    ensures Sound(c, Apply(c, w, e))
  {
    if e.Insert? {
      InsertKeepsSound(c, w, e.t, e.stored);
    } else if e.Read? {
      ReadKeepsSound(c, w, e.t);
    } else {
      hide ChainSound, PrevOf;
      SameChainsStaySound(c, w, Apply(c, w, e));
    }
  }

  lemma SameChainsStaySound(c: Config, w: World, w': World)
    requires w'.chains == w.chains && forall s :: ChainSound(c, s, w.Chain(s))
    ensures forall s :: ChainSound(c, s, w'.Chain(s))
  {
    hide ChainSound;
    forall s ensures ChainSound(c, s, w'.Chain(s)) {
      assert w'.Chain(s) == w.Chain(s);
    }
  }

  lemma ReadKeepsSound(c: Config, w: World, t: nat)
    requires Sound(c, w) && Enabled(c, w, Read(t))
    ensures Sound(c, Apply(c, w, Read(t)))
  {
    hide ChainSound, PrevOf;
    var scope := ScopeOf(w.txs[t].body);
    LastNumber(c, scope, w.Chain(scope));
    SameChainsStaySound(c, w, Apply(c, w, Read(t)));
  }

  lemma LastNumber(c: Config, scope: Text, rows: seq<Row>)
    requires ChainSound(c, scope, rows)
    ensures rows != [] ==> rows[|rows| - 1].number == |rows|
  {}

  /** Chains only grow at the end. */
  lemma StepExtends(c: Config, w: World, e: Event, s: Text)
    requires Sound(c, w) && Enabled(c, w, e)
    ensures w.Chain(s) <= Apply(c, w, e).Chain(s)
  {
    hide Sound, NewRow, Taken;
  }

  predicate Runnable(c: Config, w: World, es: seq<Event>)
    requires PayloadsProper(w)
    decreases |es|
  {
    es != [] ==> Enabled(c, w, es[0]) && Runnable(c, Apply(c, w, es[0]), es[1..])
  }

  function Exec(c: Config, w: World, es: seq<Event>): World
    requires PayloadsProper(w)
    requires Runnable(c, w, es)
    decreases |es|
  {
    if es == [] then w else Exec(c, Apply(c, w, es[0]), es[1..])
  }

  /** However transactions interleave, every chain stays numbered 1 to n and verifies, and history is kept. */
  lemma {:induction false} ChainsStaySound(c: Config, w: World, es: seq<Event>)
    requires Sound(c, w) && Runnable(c, w, es)
    ensures Sound(c, Exec(c, w, es))
    ensures forall s :: w.Chain(s) <= Exec(c, w, es).Chain(s)
    decreases |es|
  {
    if es != [] {
      StepKeepsSound(c, w, es[0]);
      forall s ensures w.Chain(s) <= Apply(c, w, es[0]).Chain(s) { StepExtends(c, w, es[0], s); }
      hide Sound;
      ChainsStaySound(c, Apply(c, w, es[0]), es[1..]);
    }
  }

  // ---------- the service ----------

  lemma LockStep(c: Config, w: World, t: nat, body: Body)
    requires Sound(c, w) && t !in w.txs && Proper(body.payload) && LockFree(c, w, ScopeOf(body))
    ensures Sound(c, w.(txs := w.txs[t := Tx(body, Locked)]))
  {
    StepKeepsSound(c, w, Lock(t, body));
  }

  lemma ReadStep(c: Config, w: World, t: nat, number: nat, prev: Text)
    requires Sound(c, w) && t in w.txs && w.txs[t].phase.Locked?
    requires var chain := w.Chain(ScopeOf(w.txs[t].body));
      && number == (if chain == [] then 1 else chain[|chain| - 1].number + 1)
      && prev == (if chain == [] then GENESIS else chain[|chain| - 1].hash)
    ensures Sound(c, w.(txs := w.txs[t := Tx(w.txs[t].body, HasRead(number, prev))]))
  {
    StepKeepsSound(c, w, Read(t));
    hide Sound;
  }

  lemma AbortStep(c: Config, w: World, t: nat)
    requires Sound(c, w) && t in w.txs
    ensures Sound(c, w.(txs := w.txs - {t}))
  {
    StepKeepsSound(c, w, Abort(t));
  }

  lemma InsertStep(c: Config, w: World, t: nat, stored: Js)
    requires Sound(c, w) && Enabled(c, w, Insert(t, stored))
    ensures Proper(w.txs[t].body.payload)
    ensures NewRow(c, w.txs[t], stored).Some? && Normalizable(w.txs[t].body.payload) ==>
      var scope, row := ScopeOf(w.txs[t].body), NewRow(c, w.txs[t], stored).value;
      && Sound(c, World(w.chains[scope := w.Chain(scope) + [row]], w.txs - {t}))
      && row.number == |w.Chain(scope)| + 1
  {
    StepKeepsSound(c, w, Insert(t, stored));
    InsertAppends(c, w, t, stored);
    hide Normalizable, ChainSound;
  }

  /** The event recorded as the last row of its chain. */
  ghost predicate Recorded(w: World, body: Body, r: Row) {
    var chain := w.Chain(ScopeOf(body));
    && chain != [] && chain[|chain| - 1] == r && r.number == |chain|
    && SameBody(body, r.body) && Normalizable(body.payload)
  }

  ghost predicate Extends(w: World, w': World) {
    forall s :: w.Chain(s) <= w'.Chain(s)
  }

  lemma ExtendsSelf(w: World)
    ensures Extends(w, w)
  {}

  lemma ExtendsComposes(u: World, v: World, w: World)
    requires Extends(u, v) && Extends(v, w)
    ensures Extends(u, w)
  {
    forall s ensures u.Chain(s) <= w.Chain(s) {
      assert u.Chain(s) <= v.Chain(s) && v.Chain(s) <= w.Chain(s);
    }
  }

  lemma SameChainsExtend(w: World, w': World)
    requires w'.chains == w.chains
    ensures Extends(w, w')
  {}

  /** A step of another transaction. */
  lemma OthersStep(c: Config, w: World, e: Event, t: nat)
    requires Sound(c, w) && Enabled(c, w, e) && e.t != t
    ensures PayloadsProper(w)
    ensures var w' := Apply(c, w, e);
      Sound(c, w') && Extends(w, w') && (t in w'.txs <==> t in w.txs) && (t in w.txs ==> w'.txs[t] == w.txs[t])
  {
    StepKeepsSound(c, w, e);
    var w' := Apply(c, w, e);
    forall s ensures w.Chain(s) <= w'.Chain(s) { StepExtends(c, w, e, s); }
    hide Sound, NewRow, Taken, ScopeOf;
  }

  /** A row put at the end of its chain. */
  lemma AppendedIsRecorded(w: World, body: Body, stored: Js, row: Row, txs: map<nat, Tx>)
    requires row.scope == ScopeOf(body) && row.number == |w.Chain(ScopeOf(body))| + 1 && row.body == body.(payload := stored)
    requires Same(body.payload, stored) && Normalizable(body.payload)
    ensures var w' := World(w.chains[ScopeOf(body) := w.Chain(ScopeOf(body)) + [row]], txs);
      Recorded(w', body, row) && Extends(w, w')
  {
    hide Same, Normalizable, ScopeOf;
  }

  /** What the end of an insert leaves behind. */
  lemma RowIsRecorded(c: Config, w: World, t: nat, stored: Js, text: Text)
    requires Sound(c, w) && Enabled(c, w, Insert(t, stored)) && Normalizable(w.txs[t].body.payload)
    requires NewRow(c, w.txs[t], stored) == Some(RowOf(c, w.txs[t], stored, text))
    ensures var tx, scope := w.txs[t], ScopeOf(w.txs[t].body);
      var w' := World(w.chains[scope := w.Chain(scope) + [RowOf(c, tx, stored, text)]], w.txs - {t});
      Sound(c, w') && Recorded(w', tx.body, RowOf(c, tx, stored, text)) && Extends(w, w')
  {
    InsertStep(c, w, t, stored);
    hide Sound, Recorded, Extends, NewRow, Normalizable, Same, ScopeOf;
    AppendedIsRecorded(w, w.txs[t].body, stored, RowOf(c, w.txs[t], stored, text), w.txs - {t});
  }

  lemma SoundIsProper(c: Config, w: World)
    requires Sound(c, w)
    ensures PayloadsProper(w)
  {}

  /** A database may give back exactly what it got. */
  lemma KeepsItself(payload: Js)
    requires Proper(payload) && Normalizable(payload)
    ensures Keeps(payload, payload)
  {
    SameReflexive(payload);
  }

  /** Why a call leaves no row. */
  datatype Unrecorded = LockNotGranted | NoText | InsertRefused

  class AuditService {
    const c: Config
    var w: World
    ghost var written: seq<Row>  // what this process has recorded

    ghost predicate Valid()
      reads this
    {
      Sound(c, w)
    }

    constructor (c: Config)
      ensures Valid() && this.c == c && w == World(map[], map[]) && written == []
    {
      this.c := c;
      this.w := World(map[], map[]);
      this.written := [];
    }

    /** Any number of steps of other transactions. */
    method Await(t: nat)
      requires Valid()
      modifies this`w
      ensures Valid() && (t in w.txs <==> t in old(w).txs) && (t in w.txs ==> w.txs[t] == old(w).txs[t])
      ensures Extends(old(w), w)
    {
      ExtendsSelf(w);
      hide Sound, Extends, PayloadsProper;
      var left: nat := *;
      while left > 0
        invariant Valid() && (t in w.txs <==> t in old(w).txs) && (t in w.txs ==> w.txs[t] == old(w).txs[t])
        invariant Extends(old(w), w)
      {
        var e: Event := *;
        if Enabled(c, w, e) && e.t != t {
          OthersStep(c, w, e, t);
          ExtendsComposes(old(w), w, Apply(c, w, e));
          w := Apply(c, w, e);
        }
        left := left - 1;
      }
    }

    /**
     `record`: one transaction, which waits for the lock of its scope. It ends with the event
     as the last row of its chain; without a row it names why, and has written nothing.
     */
    method Record(t: nat, body: Body, dbUp: bool) returns (r: Result<Row, Unrecorded>)
      requires Valid() && t !in w.txs && Proper(body.payload)
      modifies this
      ensures Valid() && t !in w.txs && Extends(old(w), w)
      ensures r.Success? ==> Recorded(w, body, r.value) && dbUp
      ensures r == Failure(LockNotGranted) ==> !LockFree(c, w, ScopeOf(body))
      ensures r == Failure(NoText) ==> !Normalizable(body.payload)
      ensures r == Failure(InsertRefused) ==> Normalizable(body.payload) && !dbUp
      ensures written == if r.Success? then old(written) + [r.value] else old(written)
    {
      hide Sound, Recorded, Extends, LockFree;
      ExtendsSelf(w);
      ghost var was := w;
      var waits: nat := *;
      while !LockFree(c, w, ScopeOf(body)) && waits > 0
        invariant Valid() && t !in w.txs && Extends(old(w), w) && written == old(written)
        decreases waits
      {
        was := w;
        Await(t);
        ExtendsComposes(old(w), was, w);
        waits := waits - 1;
      }
      if !LockFree(c, w, ScopeOf(body)) { return Failure(LockNotGranted); }
      was := w;
      LockStep(c, w, t, body);
      w := w.(txs := w.txs[t := Tx(body, Locked)]);
      SameChainsExtend(was, w);
      ExtendsComposes(old(w), was, w);
      was := w;
      Await(t);
      ExtendsComposes(old(w), was, w);
      was := w;
      ReadLast(t);
      SameChainsExtend(was, w);
      ExtendsComposes(old(w), was, w);
      was := w;
      Await(t);
      ExtendsComposes(old(w), was, w);
      was := w;
      r := InsertRow(t, dbUp);
      ExtendsComposes(old(w), was, w);
    }

    method ReadLast(t: nat)
      requires Valid() && t in w.txs && w.txs[t].phase.Locked?
      modifies this`w
      ensures Valid() && w.chains == old(w).chains && t in w.txs
      ensures w.txs[t].body == old(w).txs[t].body && w.txs[t].phase.HasRead?
    {
      hide Sound;
      var chain := w.Chain(ScopeOf(w.txs[t].body));
      var number := if chain == [] then 1 else chain[|chain| - 1].number + 1;
      var prev := if chain == [] then GENESIS else chain[|chain| - 1].hash;
      ReadStep(c, w, t, number, prev);
      w := w.(txs := w.txs[t := Tx(w.txs[t].body, HasRead(number, prev))]);
    }

    /** The text a transaction hashes, whatever the database will make of the payload's key order. */
    method HashedText(tx: Tx) returns (text: Option<Text>)
      requires tx.phase.HasRead? && Proper(tx.body.payload)
      ensures text == TextOf(tx)
    {
      var scope := ScopeOf(tx.body);
      HashInputIsProper(scope, tx.phase.number, tx.body, tx.phase.prev);
      hide Proper, Normalizable, HashInput;
      text := Canonicalize(HashInput(scope, tx.phase.number, tx.body, tx.phase.prev));
    }

    method InsertRow(t: nat, dbUp: bool) returns (r: Result<Row, Unrecorded>)
      requires Valid() && t in w.txs && w.txs[t].phase.HasRead?
      modifies this
      ensures Valid() && t !in w.txs && Extends(old(w), w)
      ensures !Normalizable(old(w).txs[t].body.payload) <==> r == Failure(NoText)
      ensures Normalizable(old(w).txs[t].body.payload) && !dbUp <==> r == Failure(InsertRefused)
      ensures r.Failure? ==> r.error != LockNotGranted && w.chains == old(w).chains
      ensures r.Success? ==> Recorded(w, old(w).txs[t].body, r.value)
      ensures written == if r.Success? then old(written) + [r.value] else old(written)
    {
      hide Sound, Proper, Normalizable, Same, Recorded, Extends, TextOf, ScopeOf, LockFree, RowOf;
      SoundIsProper(c, w);
      var tx := w.txs[t];
      var scope := ScopeOf(tx.body);
      var text := HashedText(tx);
      if text.None? || !dbUp {
        AbortStep(c, w, t);
        w := w.(txs := w.txs - {t});
        SameChainsExtend(old(w), w);
        return Failure(if text.None? then NoText else InsertRefused);
      }
      var stored: Js := *;
      if !Keeps(tx.body.payload, stored) {
        KeepsItself(tx.body.payload);
        stored := tx.body.payload;
      }
      var row := RowOf(c, tx, stored, text.value);
      RowIsRecorded(c, w, t, stored, text.value);
      w := World(w.chains[scope := w.Chain(scope) + [row]], w.txs - {t});
      written := written + [row];
      return Success(row);
    }

    /** No chain the service wrote is ever reported as broken. */
    method VerifyScope(scope: Text) returns (v: Verdict)
      requires Valid()
      ensures v.Intact?
    {
      assert ChainSound(c, scope, w.Chain(scope));
      v := VerifyChain(c.sha, w.Chain(scope));
    }
  }
}
