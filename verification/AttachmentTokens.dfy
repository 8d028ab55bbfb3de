/** What a link token allows over its whole life, whoever uses, revokes or removes it. */
module AttachmentTokens {
  import opened Basics
  import opened Text
  import opened AttachmentStore

  predicate Runs(c: Crypto, w: World, books: Books, es: seq<Event>)
    decreases |es|
  {
    es != [] ==> Enabled(c, w, books, es[0]) && Runs(c, Apply(c, w, es[0]), Noted(c, books, es[0]), es[1..])
  }

  /** `e` stores a token under the index. */
  predicate StoresUnder(c: Crypto, e: Event, i: Text) {
    e.InsertToken? && c.tokenIndex(e.rawToken) == i
  }

  predicate NoneStored(c: Crypto, es: seq<Event>, i: Text) {
    forall j :: 0 <= j < |es| ==> !StoresUnder(c, es[j], i)
  }

  function UsesOf(es: seq<Event>, i: Text): nat {
    if es == [] then 0 else UsesOf(es[1..], i) + if es[0].Use? && es[0].index == i then 1 else 0
  }

  /** What uses are left to the token of an index. */
  function LeftOf(w: World, i: Text): nat {
    if i !in w.tokens || w.tokens[i].revoked || w.tokens[i].maxUses < w.tokens[i].uses then 0
    else w.tokens[i].maxUses - w.tokens[i].uses
  }

  /** No event but a new token under the index brings uses back; a use costs one, a revocation all. */
  lemma StepLeaves(c: Crypto, w: World, books: Books, e: Event, i: Text)
    requires Enabled(c, w, books, e) && !StoresUnder(c, e, i)
    ensures LeftOf(Apply(c, w, e), i) + (if e.Use? && e.index == i then 1 else 0) <= LeftOf(w, i)
    ensures i in Apply(c, w, e).tokens ==> i in w.tokens && Apply(c, w, e).tokens[i].expiresAt == w.tokens[i].expiresAt
  {
    hide RowKnown, TokenSound, BlobRefOf;
  }

  /**
   Over every run: as long as no token is stored anew under the index, it is used at most
   as often as its token has uses left, and only before that token expires.
   */
  lemma {:induction false} UsesAreLimited(c: Crypto, w: World, books: Books, es: seq<Event>, i: Text)
    requires Runs(c, w, books, es) && NoneStored(c, es, i)
    ensures UsesOf(es, i) <= LeftOf(w, i)
    ensures forall k :: 0 <= k < |es| && es[k].Use? && es[k].index == i ==> i in w.tokens && es[k].at < w.tokens[i].expiresAt
    decreases |es|
  {
    if es != [] {
      assert !StoresUnder(c, es[0], i);
      StepLeaves(c, w, books, es[0], i);
      assert forall j :: 0 <= j < |es[1..]| ==> es[1..][j] == es[j + 1];
      UsesAreLimited(c, Apply(c, w, es[0]), Noted(c, books, es[0]), es[1..], i);
      hide Apply, StoresUnder, RowKnown, TokenSound, BlobRefOf;
      forall k | 0 <= k < |es| && es[k].Use? && es[k].index == i ensures i in w.tokens && es[k].at < w.tokens[i].expiresAt {
        if k > 0 { assert es[1..][k - 1] == es[k]; }
      }
    }
  }

  lemma {:induction false} NoUse(es: seq<Event>, i: Text)
    requires UsesOf(es, i) == 0
    ensures forall k :: 0 <= k < |es| ==> !(es[k].Use? && es[k].index == i)
  {
    if es != [] {
      NoUse(es[1..], i);
      forall k | 0 <= k < |es| ensures !(es[k].Use? && es[k].index == i) {
        if k > 0 { assert es[1..][k - 1] == es[k]; }
      }
    }
  }

  /** A stored token is used at most as often as it allows, until one is stored again under its index. */
  lemma TokenIsUsedWithinLimit(c: Crypto, w: World, books: Books, e: Event, es: seq<Event>, i: Text)
    requires StoresUnder(c, e, i) && Runs(c, w, books, [e] + es) && NoneStored(c, es, i)
    ensures UsesOf(es, i) <= e.token.maxUses
  {
    assert ([e] + es)[1..] == es;
    UsesAreLimited(c, Apply(c, w, e), Noted(c, books, e), es, i);
  }

  /** After a revocation a use of the index needs another token stored under it first. */
  lemma RevokedIsNotUsed(c: Crypto, w: World, books: Books, i: Text, es: seq<Event>, k: nat)
    requires Runs(c, w, books, [Revoke(i)] + es) && k < |es| && es[k].Use? && es[k].index == i
    ensures exists j :: 0 <= j < k && StoresUnder(c, es[j], i)
  {
    assert ([Revoke(i)] + es)[1..] == es;
    var v := Apply(c, w, Revoke(i));
    if NoneStored(c, es[..k], i) {
      var head := es[..k + 1];
      PrefixRuns(c, v, books, es, k + 1);
      forall j | 0 <= j < |head| ensures !StoresUnder(c, head[j], i) {
        if j < k { assert es[..k][j] == head[j]; }
      }
      assert LeftOf(v, i) == 0 && head[k] == es[k];
      UsesAreLimited(c, v, books, head, i);
      NoUse(head, i);
    } else {
      var j :| 0 <= j < k && StoresUnder(c, es[..k][j], i);
      assert es[..k][j] == es[j];
    }
  }

  lemma {:induction false} PrefixRuns(c: Crypto, w: World, books: Books, es: seq<Event>, n: nat)
    requires Runs(c, w, books, es) && n <= |es|
    ensures Runs(c, w, books, es[..n])
    decreases n
  {
    hide Enabled, Apply, Noted;
    if n > 0 {
      assert es[..n][1..] == es[1..][..n - 1];
      PrefixRuns(c, Apply(c, w, es[0]), Noted(c, books, es[0]), es[1..], n - 1);
    }
  }
}
