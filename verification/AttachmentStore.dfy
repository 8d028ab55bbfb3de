/**
 An attachment's way from upload to recipient: sealed under a fresh key, the key wrapped;
 at release the key is unwrapped and re-sealed under a key derived from a link token; at
 download the token opens the key and the key opens the file. Ciphers are parameters.
 */
module AttachmentStore {
  import opened Basics
  import opened Text
  import opened AttachmentBlob
  import opened AttachmentNames

  /** Key, nonce, associated data, then the text; a ciphertext carries its tag. */
  datatype Crypto = Crypto(
    encrypt: (Octets, Octets, Octets, Octets) -> Octets,
    decrypt: (Octets, Octets, Octets, Octets) -> Option<Octets>,
    wrap: Octets -> Octets,
    unwrap: Octets -> Option<Octets>,
    deriveKek: (Text, Octets) -> Octets,
    tokenIndex: Text -> Text,
    hashToken: (Text, Octets) -> Text,
    verifyToken: (Text, Text) -> bool,
    digest: Octets -> Text,
    utf8: Text -> Octets)

  /** What sealing is trusted to give back. */
  ghost predicate RoundTrips(c: Crypto) {
    && (forall k, n, a, p :: c.decrypt(k, n, a, c.encrypt(k, n, a, p)) == Some(p))
    && (forall k, n, a, p :: |c.encrypt(k, n, a, p)| >= TAG_LEN)
    && (forall d :: c.unwrap(c.wrap(d)) == Some(d))
    && (forall t, s :: c.verifyToken(c.hashToken(t, s), t))
    && (forall t :: PipeFree(c.tokenIndex(t)))
    && (forall s, t :: c.tokenIndex(s) == c.tokenIndex(t) ==> s == t)
    && (forall s :: c.utf8(Repaired(s)) == c.utf8(s))
  }

  /** What sealing is trusted to refuse, and that encoding loses exactly what repairing a text loses. */
  ghost predicate Binds(c: Crypto) {
    && (forall k, n, a, a', p :: a != a' ==> c.decrypt(k, n, a', c.encrypt(k, n, a, p)) == None)
    && (forall s, t :: c.utf8(s) == c.utf8(t) <==> Repaired(s) == Repaired(t))
  }

  datatype Attachment = Attachment(
    bundleId: Text, blobRef: Text, ciphertextHash: Text, sizeBytes: nat,
    mimeType: Text, displayFilename: Text, aadVersion: int)

  datatype Token = Token(
    attachmentId: Text, tokenHash: Text, kdfSalt: Octets, sealedDek: Octets, sealedDekNonce: Octets,
    uses: nat, maxUses: nat, expiresAt: int, revoked: bool)

  function BindingOf(id: Text, att: Attachment): Binding {
    Binding(att.aadVersion, att.bundleId, id, att.mimeType, att.displayFilename)
  }

  function AadOf(c: Crypto, id: Text, att: Attachment): Octets {
    c.utf8(BuildAttachmentAad(BindingOf(id, att)))
  }

  function SealAadOf(c: Crypto, index: Text, id: Text): Octets {
    c.utf8(SealAad(index, id))
  }

  // ---------- key material in place ----------

  /** `fill(0)`. */
  method Wipe(a: array<Octet>)
    modifies a
    ensures forall i :: 0 <= i < a.Length ==> a[i] == 0
  {
    for i := 0 to a.Length
      invariant forall j :: 0 <= j < i ==> a[j] == 0
    {
      a[i] := 0;
    }
  }

  /** The parts hold `text`, sealed under `dek` and the associated data `aad`. */
  ghost predicate SealedUnder(c: Crypto, p: Parts, dek: Octets, aad: Text, text: Octets) {
    p.wrappedDek == c.wrap(dek) && p.ciphertext == c.encrypt(dek, p.nonce, c.utf8(aad), text)
  }

  /** `EnvelopeService.seal`; the key is gone when it returns, also when the key service fails. */
  method Seal(c: Crypto, plaintext: Octets, aad: Text, dek: array<Octet>, nonce: Octets, kmsUp: bool) returns (p: Option<Parts>)
    modifies dek
    ensures p.Some? <==> kmsUp
    ensures p.Some? ==> p.value.nonce == nonce && SealedUnder(c, p.value, old(dek[..]), aad, plaintext)
    ensures forall i :: 0 <= i < dek.Length ==> dek[i] == 0
  {
    var ciphertext := c.encrypt(dek[..], nonce, c.utf8(aad), plaintext);
    p := if kmsUp then Some(Parts(nonce, c.wrap(dek[..]), ciphertext)) else None;
    Wipe(dek);
  }

  datatype OpenError = KeyUnavailable | Refused

  /**
   `EnvelopeService.open`: what was sealed comes back exactly under associated data that
   encode alike; under any other it is refused.
   */
  method Open(c: Crypto, p: Parts, aad: Text, kmsUp: bool) returns (r: Result<Octets, OpenError>)
    requires RoundTrips(c) && Binds(c)
    ensures !kmsUp ==> r == Failure(KeyUnavailable)
    ensures forall dek, sealedAad, text | SealedUnder(c, p, dek, sealedAad, text) :: kmsUp ==>
      r == if Repaired(aad) == Repaired(sealedAad) then Success(text) else Failure(Refused)
  {
    if !kmsUp { return Failure(KeyUnavailable); }
    var key := c.unwrap(p.wrappedDek);
    if key.None? { return Failure(KeyUnavailable); }
    var dek := new Octet[|key.value|](i requires 0 <= i < |key.value| => key.value[i]);
    assert dek[..] == key.value;
    var plaintext := c.decrypt(dek[..], p.nonce, c.utf8(aad), p.ciphertext);
    Wipe(dek);
    return if plaintext.Some? then Success(plaintext.value) else Failure(Refused);
  }

  // ---------- delivery ----------

  datatype Denial =
    | TokenNotFound | TokenHashMismatch | ScopeMismatch | Revoked | Expired | Exhausted | RaceLost
    | BlobMissing | BlobCorrupt | IntegrityFailed | DecryptionFailed

  datatype Delivered = Delivered(filename: Text, mimeType: Text, bytes: Octets)

  /** What follows the claim of a use, given the rows read before it and the blob found after it. */
  function Deliver(c: Crypto, rawToken: Text, id: Text, token: Token, att: Attachment, blob: Option<Octets>)
    : Result<Delivered, Denial>
  {
    if blob.None? then Failure(BlobMissing)
    else if ParseBlob(blob.value).Failure? then Failure(BlobCorrupt)
    else
      var p := ParseBlob(blob.value).value;
      if c.digest(p.ciphertext) != att.ciphertextHash then Failure(IntegrityFailed)
      else
        var kek := c.deriveKek(rawToken, token.kdfSalt);
        var dek := c.decrypt(kek, token.sealedDekNonce, SealAadOf(c, c.tokenIndex(rawToken), id), token.sealedDek);
        if dek.None? then Failure(DecryptionFailed)
        else
          var plain := c.decrypt(dek.value, p.nonce, AadOf(c, id, att), p.ciphertext);
          if plain.None? then Failure(DecryptionFailed)
          else Success(Delivered(att.displayFilename, att.mimeType, plain.value))
  }

  /** The stored blob of attachment `id` is `plain` sealed under `dek` and the row's binding. */
  predicate Holds(c: Crypto, id: Text, att: Attachment, blob: Octets, dek: Octets, plain: Octets) {
    && ParseBlob(blob).Success?
    && var p := ParseBlob(blob).value;
    && p.wrappedDek == c.wrap(dek)
    && p.ciphertext == c.encrypt(dek, p.nonce, AadOf(c, id, att), plain)
    && att.ciphertextHash == c.digest(p.ciphertext)
  }

  /** The token row re-seals `dek` for the holder of `rawToken`. */
  predicate Unlocks(c: Crypto, rawToken: Text, id: Text, token: Token, dek: Octets) {
    token.sealedDek ==
    c.encrypt(c.deriveKek(rawToken, token.kdfSalt), token.sealedDekNonce, SealAadOf(c, c.tokenIndex(rawToken), id), dek)
  }

  lemma DeliverReturnsUpload(c: Crypto, rawToken: Text, id: Text, token: Token, att: Attachment, blob: Octets, dek: Octets, plain: Octets)
    requires RoundTrips(c) && Holds(c, id, att, blob, dek, plain) && Unlocks(c, rawToken, id, token, dek)
    ensures Deliver(c, rawToken, id, token, att, Some(blob)) == Success(Delivered(att.displayFilename, att.mimeType, plain))
  {}

  /**
   With blob and hash untouched, a row changed in any way delivers exactly when what its
   version binds still encodes to what was bound, or it is of the older version and
   repeats it.
   */
  lemma TamperedRowDeliversNothing(c: Crypto, rawToken: Text, id: Text, token: Token, att: Attachment, forged: Attachment,
                                   blob: Octets, dek: Octets, plain: Octets)
    requires RoundTrips(c) && Binds(c) && Holds(c, id, att, blob, dek, plain) && Unlocks(c, rawToken, id, token, dek)
    requires PartsPipeFree(BindingOf(id, att)) && forged.ciphertextHash == att.ciphertextHash
    ensures Deliver(c, rawToken, id, token, forged, Some(blob)) ==
            if SameAad(RepairedBinding(BindingOf(id, att)), RepairedBinding(BindingOf(id, forged)))
            then Success(Delivered(forged.displayFilename, forged.mimeType, plain))
            else Failure(DecryptionFailed)
  {
    EncodedAadDecides(BindingOf(id, att), BindingOf(id, forged));
    hide SameAad, BuildAttachmentAad, PartsPipeFree, Repaired, RepairedBinding;
  }

  /**
   A blob put in place of the stored one: what does not read or does not have the row's
   hash is refused before any key is touched, whoever asks; one with the stored nonce and
   ciphertext delivers the upload, whatever wrapped key it carries.
   */
  lemma ReplacedBlobDelivers(c: Crypto, rawToken: Text, id: Text, token: Token, att: Attachment,
                             blob: Octets, blob': Octets, dek: Octets, plain: Octets)
    requires RoundTrips(c) && Holds(c, id, att, blob, dek, plain)
    ensures ParseBlob(blob').Failure? ==> Deliver(c, rawToken, id, token, att, Some(blob')) == Failure(BlobCorrupt)
    ensures ParseBlob(blob').Success? ==>
      var p, p' := ParseBlob(blob).value, ParseBlob(blob').value;
      && (c.digest(p'.ciphertext) != c.digest(p.ciphertext) ==>
        Deliver(c, rawToken, id, token, att, Some(blob')) == Failure(IntegrityFailed))
      && (p'.ciphertext == p.ciphertext && p'.nonce == p.nonce && Unlocks(c, rawToken, id, token, dek) ==>
        Deliver(c, rawToken, id, token, att, Some(blob')) == Success(Delivered(att.displayFilename, att.mimeType, plain)))
  {}

  /** A token sealed for one attachment does not open under another. */
  lemma MisplacedTokenDeliversNothing(c: Crypto, rawToken: Text, id: Text, other: Text, token: Token, att: Attachment,
                                      blob: Octets, dek: Octets)
    requires RoundTrips(c) && Binds(c) && Unlocks(c, rawToken, id, token, dek)
    requires Repaired(other) != Repaired(id)
    ensures Deliver(c, rawToken, other, token, att, Some(blob)).Failure?
  {
    EncodedSealAadDecides(c.tokenIndex(rawToken), id, c.tokenIndex(rawToken), other);
    hide SealAad, Repaired;
  }

  /** What `upload` binds has no pipe in it, for ids without one. */
  lemma UploadBindsPipeFree(bundleId: Text, id: Text, originalName: Option<Text>, mimeType: Text, file: Octets)
    requires PipeFree(bundleId) && PipeFree(id) && Sniffs(mimeType, file)
    ensures PartsPipeFree(Binding(2, bundleId, id, mimeType, Repaired(Sanitized(originalName))))
  {
    SanitizedIsSafe(originalName);
    SafeIsPipeFree(Sanitized(originalName));
    RepairedPipeFree(Sanitized(originalName));
    SniffedIsPipeFree(mimeType, file);
  }

  // ---------- the services over the shared rows ----------

  datatype World = World(blobs: map<Text, Octets>, attachments: map<Text, Attachment>, tokens: map<Text, Token>)

  /** What was uploaded and under which key. */
  datatype Uploaded = Uploaded(plain: Octets, dek: Octets)

  /** Kept for the contracts only: every upload there was, and who holds the token of an index. */
  datatype Books = Books(uploads: map<Text, Uploaded>, holders: map<Text, Text>)

  function BlobRefOf(id: Text): Text {
    Ascii("local:") + id + Ascii(".bin")
  }

  lemma BlobRefInjective(a: Text, b: Text)
    ensures BlobRefOf(a) == BlobRefOf(b) ==> a == b
  {
    assert BlobRefOf(a)[6..|BlobRefOf(a)| - 4] == a && BlobRefOf(b)[6..|BlobRefOf(b)| - 4] == b;
  }

  predicate Bound(id: Text, att: Attachment) {
    PipeFree(id) && PipeFree(att.bundleId) ==> PartsPipeFree(BindingOf(id, att))
  }

  /** A row of an upload; its blob, if it is there, is that upload. */
  predicate RowKnown(c: Crypto, w: World, books: Books, id: Text, att: Attachment) {
    && id in books.uploads && att.blobRef == BlobRefOf(id) && Bound(id, att)
    && (BlobRefOf(id) in w.blobs ==> Holds(c, id, att, w.blobs[BlobRefOf(id)], books.uploads[id].dek, books.uploads[id].plain))
  }

  /** Every row with a blob is openable, every token opens its attachment's key, and uses stay within the limit. */
  ghost predicate Sound(c: Crypto, w: World, books: Books) {
    && (forall id :: id in w.attachments ==> RowKnown(c, w, books, id, w.attachments[id]))
    && (forall i :: i in books.holders ==> c.tokenIndex(books.holders[i]) == i)
    && (forall i :: i in w.tokens ==>
      i in books.holders && w.tokens[i].attachmentId in w.attachments
      && TokenSound(c, i, w.tokens[i], books, books.holders[i]))
  }

  predicate TokenSound(c: Crypto, i: Text, token: Token, books: Books, rawToken: Text) {
    && token.uses <= token.maxUses
    && c.tokenIndex(rawToken) == i && c.verifyToken(token.tokenHash, rawToken)
    && token.attachmentId in books.uploads
    && Unlocks(c, rawToken, token.attachmentId, token, books.uploads[token.attachmentId].dek)
  }

  datatype Event =
    | WriteBlob(id: Text, blob: Octets)
    | InsertRow(id: Text, row: Attachment, up: Uploaded)
    | InsertToken(rawToken: Text, token: Token)
    | Use(index: Text, at: int)
    | Revoke(index: Text)
    | RemoveToken(index: Text)
    | RemoveRow(id: Text)
    | RemoveBlob(name: Text)

  /**
   Uploads come under new ids, write a blob before its row, and what they and issues store
   is what it claims to be. A use is claimed of a token as the conditional update finds it.
   */
  predicate Enabled(c: Crypto, w: World, books: Books, e: Event) {
    match e
    case WriteBlob(id, _) => BlobRefOf(id) !in w.blobs && id !in books.uploads
    case InsertRow(id, row, up) =>
      id !in books.uploads && RowKnown(c, w, books.(uploads := books.uploads[id := up]), id, row)
    case InsertToken(rawToken, token) =>
      && c.tokenIndex(rawToken) !in w.tokens && token.attachmentId in w.attachments
      && TokenSound(c, c.tokenIndex(rawToken), token, books, rawToken)
    case Use(i, at) => i in w.tokens && !w.tokens[i].revoked && at < w.tokens[i].expiresAt && w.tokens[i].uses < w.tokens[i].maxUses
    case _ => true
  }

  function Apply(c: Crypto, w: World, e: Event): World {
    match e
    case WriteBlob(id, blob) => w.(blobs := w.blobs[BlobRefOf(id) := blob])
    case InsertRow(id, row, _) => w.(attachments := w.attachments[id := row])
    case InsertToken(rawToken, token) => w.(tokens := w.tokens[c.tokenIndex(rawToken) := token])
    case Use(i, _) =>
      if i in w.tokens && w.tokens[i].uses < w.tokens[i].maxUses
      then w.(tokens := w.tokens[i := w.tokens[i].(uses := w.tokens[i].uses + 1)]) else w
    case Revoke(i) => if i in w.tokens then w.(tokens := w.tokens[i := w.tokens[i].(revoked := true)]) else w
    case RemoveToken(i) => w.(tokens := w.tokens - {i})
    case RemoveRow(id) =>
      World(w.blobs, w.attachments - {id}, map i | i in w.tokens && w.tokens[i].attachmentId != id :: w.tokens[i])
    case RemoveBlob(name) => w.(blobs := w.blobs - {name})
  }

  function Noted(c: Crypto, books: Books, e: Event): Books {
    match e
    case InsertRow(id, _, up) => books.(uploads := books.uploads[id := up])
    case InsertToken(rawToken, _) => books.(holders := books.holders[c.tokenIndex(rawToken) := rawToken])
    case _ => books
  }

  lemma BlobKeepsSound(c: Crypto, w: World, books: Books, e: Event)
    requires Sound(c, w, books) && Enabled(c, w, books, e) && (e.WriteBlob? || e.RemoveBlob?)
    ensures Sound(c, Apply(c, w, e), books)
  {
    if e.WriteBlob? {
      forall id | id in books.uploads ensures BlobRefOf(id) != BlobRefOf(e.id) { BlobRefInjective(id, e.id); }
    }
    hide Holds, Unlocks, BlobRefOf, Bound;
  }

  /** Without a change to blobs and uploads, what rows there still are stay known. */
  lemma RowsStayKnown(c: Crypto, w: World, books: Books, w': World, books': Books)
    requires Sound(c, w, books) && w'.blobs == w.blobs && books'.uploads == books.uploads
    requires forall id :: id in w'.attachments ==> id in w.attachments && w'.attachments[id] == w.attachments[id]
    ensures forall id :: id in w'.attachments ==> RowKnown(c, w', books', id, w'.attachments[id])
  {
    hide Holds, BlobRefOf, Bound, TokenSound;
  }

  lemma InsertKeepsSound(c: Crypto, w: World, books: Books, e: Event)
    requires Sound(c, w, books) && Enabled(c, w, books, e) && e.InsertToken?
    ensures Sound(c, Apply(c, w, e), Noted(c, books, e))
  {
    RowsStayKnown(c, w, books, Apply(c, w, e), Noted(c, books, e));
    hide RowKnown, Unlocks;
  }

  lemma SameTokensSound(c: Crypto, w: World, books: Books, w': World)
    requires Sound(c, w, books) && w'.blobs == w.blobs && w'.attachments == w.attachments
    requires forall i :: i in w'.tokens ==>
      i in w.tokens && SameToken(w.tokens[i], w'.tokens[i]) && w'.tokens[i].uses <= w'.tokens[i].maxUses
    ensures Sound(c, w', books)
  {
    RowsStayKnown(c, w, books, w', books);
    hide RowKnown;
  }

  lemma CountersKeepSound(c: Crypto, w: World, books: Books, e: Event)
    requires Sound(c, w, books) && (e.Use? || e.Revoke?)
    ensures Sound(c, Apply(c, w, e), books)
  {
    forall i | i in w.tokens ensures w.tokens[i].uses <= w.tokens[i].maxUses {
      assert TokenSound(c, i, w.tokens[i], books, books.holders[i]);
    }
    hide Sound;
    SameTokensSound(c, w, books, Apply(c, w, e));
  }

  lemma RemovalKeepsSound(c: Crypto, w: World, books: Books, e: Event)
    requires Sound(c, w, books) && (e.RemoveRow? || e.RemoveToken?)
    ensures Sound(c, Apply(c, w, e), books)
  {
    RowsStayKnown(c, w, books, Apply(c, w, e), books);
    hide RowKnown, TokenSound, BlobRefOf;
  }

  lemma RowKeepsSound(c: Crypto, w: World, books: Books, e: Event)
    requires Sound(c, w, books) && Enabled(c, w, books, e) && e.InsertRow?
    ensures Sound(c, Apply(c, w, e), Noted(c, books, e))
  {
    hide Holds, Unlocks, BlobRefOf, Bound;
  }

  lemma EventKeepsSound(c: Crypto, w: World, books: Books, e: Event)
    requires Sound(c, w, books) && Enabled(c, w, books, e)
    ensures Sound(c, Apply(c, w, e), Noted(c, books, e))
  {
    match e
    case WriteBlob(_, _) | RemoveBlob(_) => BlobKeepsSound(c, w, books, e);
    case InsertRow(_, _, _) => RowKeepsSound(c, w, books, e);
    case InsertToken(_, _) => InsertKeepsSound(c, w, books, e);
    case Use(_, _) | Revoke(_) => CountersKeepSound(c, w, books, e);
    case RemoveRow(_) | RemoveToken(_) => RemovalKeepsSound(c, w, books, e);
  }

  /** A token's uses may grow, and it may be revoked. */
  predicate SameToken(t: Token, t': Token) {
    t' == t.(uses := t'.uses, revoked := t'.revoked) && t.uses <= t'.uses && (t.revoked ==> t'.revoked)
  }

  /** The token of an index is the same or gone. */
  predicate TokenKept(w: World, w': World, i: Text) {
    i in w'.tokens ==> i in w.tokens && SameToken(w.tokens[i], w'.tokens[i])
  }

  /** The blob and the row of an id are the same or gone. */
  predicate UploadKept(w: World, w': World, id: Text) {
    && (BlobRefOf(id) in w'.blobs ==> BlobRefOf(id) in w.blobs && w'.blobs[BlobRefOf(id)] == w.blobs[BlobRefOf(id)])
    && (id in w'.attachments ==> id in w.attachments && w'.attachments[id] == w.attachments[id])
  }

  /** What is known of uploads and tokens stays known, and what was uploaded stays or goes. */
  ghost predicate Later(w: World, books: Books, w': World, books': Books) {
    && (forall id :: id in books.uploads ==> id in books'.uploads && books'.uploads[id] == books.uploads[id])
    && (forall i :: i in books.holders ==> i in books'.holders && books'.holders[i] == books.holders[i])
    && (forall id :: id in books.uploads ==> UploadKept(w, w', id))
  }

  lemma LaterSelf(w: World, books: Books)
    ensures Later(w, books, w, books)
  {}

  lemma LaterComposes(u: World, a: Books, v: World, b: Books, w: World, d: Books)
    requires Later(u, a, v, b) && Later(v, b, w, d)
    ensures Later(u, a, w, d)
  {}

  /** A blob is written only under an id nobody has used. */
  lemma OtherUploadsKept(w: World, c: Crypto, e: Event, id: Text)
    requires e.WriteBlob? && id != e.id
    ensures UploadKept(w, Apply(c, w, e), id)
  {
    BlobRefInjective(id, e.id);
    hide BlobRefOf;
  }

  /** A token under an index that had a holder before has the same holder. */
  lemma HolderStays(c: Crypto, w: World, books: Books, e: Event)
    requires RoundTrips(c) && Sound(c, w, books) && Enabled(c, w, books, e) && e.InsertToken?
    ensures forall i :: i in books.holders ==> i in Noted(c, books, e).holders && Noted(c, books, e).holders[i] == books.holders[i]
  {
    hide RowKnown, TokenSound;
  }

  /** Rows and blobs that only go, and tokens of old holders that only keep them. */
  lemma ShrunkIsLater(w: World, books: Books, w': World, books': Books)
    requires books'.uploads == books.uploads
    requires forall i :: i in books.holders ==> i in books'.holders && books'.holders[i] == books.holders[i]
    requires forall name :: name in w'.blobs ==> name in w.blobs && w'.blobs[name] == w.blobs[name]
    requires forall id :: id in w'.attachments ==> id in w.attachments && w'.attachments[id] == w.attachments[id]
    ensures Later(w, books, w', books')
  {
    hide BlobRefOf;
  }

  lemma NewRowIsLater(c: Crypto, w: World, books: Books, e: Event)
    requires Enabled(c, w, books, e) && e.InsertRow?
    ensures Later(w, books, Apply(c, w, e), Noted(c, books, e))
  {
    hide BlobRefOf, RowKnown;
  }

  lemma EventIsLater(c: Crypto, w: World, books: Books, e: Event)
    requires RoundTrips(c) && Sound(c, w, books) && Enabled(c, w, books, e)
    ensures Later(w, books, Apply(c, w, e), Noted(c, books, e))
  {
    if e.WriteBlob? {
      assert e.id !in books.uploads;
      hide Enabled, Sound, RoundTrips;
      forall id | id in books.uploads ensures UploadKept(w, Apply(c, w, e), id) { OtherUploadsKept(w, c, e, id); }
    } else if e.InsertRow? {
      hide Sound, RoundTrips, Later;
      NewRowIsLater(c, w, books, e);
    } else {
      if e.InsertToken? { HolderStays(c, w, books, e); }
      hide Enabled, Sound, RoundTrips, Later;
      ShrunkIsLater(w, books, Apply(c, w, e), Noted(c, books, e));
    }
  }

  /** Another process brings its own new id, and a token of an index nobody has had. */
  predicate Foreign(c: Crypto, books: Books, e: Event, ids: set<Text>, indexes: set<Text>) {
    match e
    case WriteBlob(id, _) => id !in ids
    case InsertRow(id, _, _) => id !in ids
    case InsertToken(rawToken, _) => c.tokenIndex(rawToken) !in books.holders && c.tokenIndex(rawToken) !in indexes
    case _ => true
  }

  /** What others leave alone of this process's ids and of all tokens there have been. */
  ghost predicate LeftAlone(w: World, books: Books, w': World, books': Books, ids: set<Text>, indexes: set<Text>) {
    && (forall id :: id in ids ==> UploadKept(w, w', id) && (id in books'.uploads ==> id in books.uploads))
    && (forall i :: i in books.holders || i in indexes ==> TokenKept(w, w', i))
  }

  lemma ForeignLeavesAlone(c: Crypto, w: World, books: Books, e: Event, ids: set<Text>, indexes: set<Text>)
    requires Enabled(c, w, books, e) && Foreign(c, books, e, ids, indexes)
    ensures LeftAlone(w, books, Apply(c, w, e), Noted(c, books, e), ids, indexes)
  {
    hide Enabled;
    if e.WriteBlob? {
      forall id | id in ids ensures UploadKept(w, Apply(c, w, e), id) { OtherUploadsKept(w, c, e, id); }
    }
    hide BlobRefOf;
  }

  lemma LeftAloneSelf(w: World, books: Books, ids: set<Text>, indexes: set<Text>)
    ensures LeftAlone(w, books, w, books, ids, indexes)
  {}

  lemma LeftAloneComposes(u: World, a: Books, v: World, b: Books, w: World, d: Books, ids: set<Text>, indexes: set<Text>)
    requires LeftAlone(u, a, v, b, ids, indexes) && LeftAlone(v, b, w, d, ids, indexes) && Later(u, a, v, b)
    ensures LeftAlone(u, a, w, d, ids, indexes)
  {}

  lemma RowStaysKnown(c: Crypto, w: World, books: Books, w': World, books': Books, id: Text, att: Attachment)
    requires RowKnown(c, w, books, id, att) && Later(w, books, w', books')
    ensures RowKnown(c, w', books', id, att)
  {
    hide Holds, BlobRefOf, Bound;
    assert UploadKept(w, w', id);
  }

  /**
   A stored row with its blob is tamper-evident: whatever row is put in its place, with the
   same hash, the holder of a token gets the file exactly if what the row binds still
   encodes to the same text, and nothing otherwise.
   */
  lemma StoredRowIsTamperEvident(c: Crypto, w: World, books: Books, rawToken: Text, id: Text, forged: Attachment)
    requires RoundTrips(c) && Binds(c) && Sound(c, w, books)
    requires id in w.attachments && w.attachments[id].blobRef in w.blobs && id in books.uploads
    requires c.tokenIndex(rawToken) in w.tokens && w.tokens[c.tokenIndex(rawToken)].attachmentId == id
    requires PipeFree(id) && PipeFree(w.attachments[id].bundleId)
    requires forged.ciphertextHash == w.attachments[id].ciphertextHash
    ensures Deliver(c, rawToken, id, w.tokens[c.tokenIndex(rawToken)], forged, Some(w.blobs[w.attachments[id].blobRef])) ==
            if SameAad(RepairedBinding(BindingOf(id, w.attachments[id])), RepairedBinding(BindingOf(id, forged)))
            then Success(Delivered(forged.displayFilename, forged.mimeType, books.uploads[id].plain))
            else Failure(DecryptionFailed)
  {
    TokenFound(c, w, books, rawToken, id);
    assert RowKnown(c, w, books, id, w.attachments[id]);
    hide Sound, RoundTrips, Binds, Holds, Unlocks, Deliver, SameAad, RepairedBinding, BlobRefOf, PartsPipeFree;
    TamperedRowDeliversNothing(c, rawToken, id, w.tokens[c.tokenIndex(rawToken)], w.attachments[id], forged,
                               w.blobs[w.attachments[id].blobRef], books.uploads[id].dek, books.uploads[id].plain);
  }

  datatype UploadError = EmptyFile | TooLarge | KeyNotWrapped | Unframable | BlobExists | RowRefused

  datatype IssueError = Unreadable | NotUnwrapped | IndexTaken | TokenRefused

  /** Whether the key service and the database answer. */
  datatype Services = Services(kmsUp: bool, dbUp: bool)

  /** The random values of one issued token. */
  datatype Secret = Secret(rawToken: Text, kdfSalt: Octets, dekNonce: Octets, hashSalt: Octets)

  predicate Usable(t: Token, now: int) {
    !t.revoked && t.expiresAt > now && t.uses < t.maxUses
  }

  /** The table holds a token for this raw token and this attachment. */
  predicate InScope(c: Crypto, w: World, rawToken: Text, id: Text) {
    c.tokenIndex(rawToken) in w.tokens && w.tokens[c.tokenIndex(rawToken)].attachmentId == id
  }

  /**
   How a token is refused before a use of it is claimed: unknown, or for another
   attachment, or revoked, or expired, or used up, whichever comes first; `denial` is None
   where nothing of this is the case.
   */
  predicate RefusedAs(c: Crypto, w: World, rawToken: Text, id: Text, now: int, denial: Option<Denial>) {
    var i := c.tokenIndex(rawToken);
    && (denial == Some(TokenNotFound) <==> i !in w.tokens)
    && (denial == Some(ScopeMismatch) <==> i in w.tokens && w.tokens[i].attachmentId != id)
    && (InScope(c, w, rawToken, id) ==>
      var t := w.tokens[i];
      && (denial == Some(Revoked) <==> t.revoked)
      && (denial == Some(Expired) <==> !t.revoked && t.expiresAt <= now)
      && (denial == Some(Exhausted) <==> !t.revoked && now < t.expiresAt && t.maxUses <= t.uses)
      && (denial == None <==> !t.revoked && now < t.expiresAt && t.uses < t.maxUses))
  }

  /** The refusals before a use is claimed. */
  const BEFORE_CLAIM: set<Denial> := {TokenNotFound, ScopeMismatch, Revoked, Expired, Exhausted}

  /** `e` stores a fresh token for attachment `id`, to whose key it opens. */
  ghost predicate Stores(c: Crypto, books: Books, e: Event, id: Text, s: Secret, expiresAt: int, maxUses: nat) {
    && e.InsertToken? && e.rawToken == s.rawToken && id in books.uploads
    && e.token == Token(id, c.hashToken(s.rawToken, s.hashSalt), s.kdfSalt, e.token.sealedDek, s.dekNonce, 0, maxUses, expiresAt, false)
    && Unlocks(c, s.rawToken, id, e.token, books.uploads[id].dek)
  }

  /** No two tokens of one action are alike. */
  ghost predicate Distinct(secret: nat -> Secret) {
    forall j, k :: j != k ==> secret(j).rawToken != secret(k).rawToken
  }

  /** `e` stored the token; its holder is known, and unless another took its index it is for `id` wherever it still is. */
  ghost predicate Issued(c: Crypto, w: World, books: Books, e: Event, id: Text, s: Secret, expiresAt: int, maxUses: nat, alone: bool) {
    var i := c.tokenIndex(s.rawToken);
    && Stores(c, books, e, id, s, expiresAt, maxUses)
    && i in books.holders && books.holders[i] == s.rawToken
    && (alone && i in w.tokens ==> w.tokens[i].attachmentId == id)
  }

  class AttachmentServices {
    const c: Crypto
    var w: World
    var books: Books  // kept for the contracts only
    ghost var done: seq<Event>  // what this process itself has written

    ghost predicate Valid()
      reads this
    {
      RoundTrips(c) && Sound(c, w, books)
    }

    constructor (c: Crypto)
      requires RoundTrips(c)
      ensures Valid() && this.c == c && w == World(map[], map[], map[]) && done == []
    {
      this.c := c;
      this.w := World(map[], map[], map[]);
      this.books := Books(map[], map[]);
      this.done := [];
    }

    /** Other uploads, issues and downloads, revocations and removals. */
    method Await(ids: set<Text>, indexes: set<Text>)
      requires Valid()
      modifies this`w, this`books
      ensures Valid() && Later(old(w), old(books), w, books) && LeftAlone(old(w), old(books), w, books, ids, indexes)
    {
      hide Sound, RoundTrips, Later, LeftAlone, Enabled, Foreign;
      LaterSelf(w, books);
      LeftAloneSelf(w, books, ids, indexes);
      var left: nat := *;
      while left > 0
        invariant Valid() && Later(old(w), old(books), w, books) && LeftAlone(old(w), old(books), w, books, ids, indexes)
      {
        var e: Event := *;
        if Enabled(c, w, books, e) && Foreign(c, books, e, ids, indexes) {
          ghost var v, b := w, books;
          Take(e);
          ForeignLeavesAlone(c, v, b, e, ids, indexes);
          LaterComposes(old(w), old(books), v, b, w, books);
          LeftAloneComposes(old(w), old(books), v, b, w, books, ids, indexes);
        }
        left := left - 1;
      }
    }

    method Take(e: Event)
      requires Valid() && Enabled(c, w, books, e)
      modifies this`w, this`books
      ensures Valid() && w == Apply(c, old(w), e) && books == Noted(c, old(books), e)
      ensures Later(old(w), old(books), w, books)
    {
      EventKeepsSound(c, w, books, e);
      EventIsLater(c, w, books, e);
      w, books := Apply(c, w, e), Noted(c, books, e);
    }

    /** This process wrote its rows, and left them as event `e` does. */
    ghost method Justify(e: Event, before: World, noted: Books)
      requires RoundTrips(c) && Sound(c, before, noted) && Enabled(c, before, noted, e)
      requires w == Apply(c, before, e) && books == Noted(c, noted, e)
      modifies this`done
      ensures Valid() && Later(before, noted, w, books) && done == old(done) + [e]
    {
      EventKeepsSound(c, before, noted, e);
      EventIsLater(c, before, noted, e);
      done := done + [e];
    }

    /** The blob file is created, never overwritten. */
    method WriteFile(id: Text, blob: Octets) returns (ok: bool)
      requires Valid() && id !in books.uploads
      modifies this`w, this`done
      ensures Valid() && (ok <==> BlobRefOf(id) !in old(w).blobs)
      ensures w == if ok then old(w).(blobs := old(w).blobs[BlobRefOf(id) := blob]) else old(w)
      ensures done == if ok then old(done) + [WriteBlob(id, blob)] else old(done)
    {
      if BlobRefOf(id) in w.blobs { return false; }
      ghost var before := w;
      w := w.(blobs := w.blobs[BlobRefOf(id) := blob]);
      Justify(WriteBlob(id, blob), before, books);
      return true;
    }

    method CreateRow(id: Text, row: Attachment, up: Uploaded)
      requires Valid() && Enabled(c, w, books, InsertRow(id, row, up))
      modifies this`w, this`books, this`done
      ensures Valid() && w == old(w).(attachments := old(w).attachments[id := row])
      ensures books == old(books).(uploads := old(books).uploads[id := up]) && done == old(done) + [InsertRow(id, row, up)]
    {
      ghost var before, noted := w, books;
      w, books := w.(attachments := w.attachments[id := row]), books.(uploads := books.uploads[id := up]);
      Justify(InsertRow(id, row, up), before, noted);
    }

    /**
     `upload`; the attachment id is new. The row keeps the name as it is encoded. First the
     blob is written, then the row, and either may fail: then there is no row, and at most a
     blob that nothing refers to.
     */
    method Upload(bundleId: Text, file: Octets, originalName: Option<Text>, maxBytes: nat,
                  id: Text, dek: array<Octet>, nonce: Octets, up: Services) returns (r: Result<Attachment, UploadError>)
      requires Valid() && id !in books.uploads
      modifies this, dek
      ensures Valid()
      ensures |file| == 0 <==> r == Failure(EmptyFile)
      ensures |file| > maxBytes && |file| > 0 <==> r == Failure(TooLarge)
      ensures r.Success? ==>
        && id in w.attachments && w.attachments[id] == r.value && books.uploads[id] == Uploaded(file, old(dek[..]))
        && r.value.displayFilename == Repaired(Sanitized(originalName)) && Sniffs(r.value.mimeType, file)
        && r.value.bundleId == bundleId && r.value.sizeBytes == |file| && r.value.aadVersion == 2
      ensures r.Success? ==> exists blob ::
        && Holds(c, id, r.value, blob, old(dek[..]), file)
        && done == old(done) + [WriteBlob(id, blob), InsertRow(id, r.value, Uploaded(file, old(dek[..])))]
      ensures r.Failure? ==> id !in books.uploads && id !in w.attachments
      ensures r == Failure(RowRefused) ==> !up.dbUp && exists blob :: done == old(done) + [WriteBlob(id, blob)]
      ensures r.Failure? && r.error != RowRefused ==> done == old(done)
      ensures r.Success? || r.error !in {EmptyFile, TooLarge} ==> forall i :: 0 <= i < dek.Length ==> dek[i] == 0
      ensures (&& up == Services(true, true) && 0 < |file| <= maxBytes && BlobRefOf(id) !in old(w).blobs
               && FitsU16(|nonce|) && FitsU16(|c.wrap(old(dek[..]))|)) ==> r.Success?
    {
      hide Sound, RoundTrips, Later, Sniffs, TypeTells, Sanitized, Trimmed, Repaired, Holds, Layout, Framed, RowKnown, SealedUnder,
        BlobRefOf, BuildAttachmentAad;
      NewIdHasNoRow(c, w, books, id);
      if |file| == 0 { return Failure(EmptyFile); }
      if |file| > maxBytes { return Failure(TooLarge); }
      var displayFilename := SanitizeFilename(originalName);
      var mimeType := SniffMime(file);
      var aad := BuildAttachmentAad(Binding(2, bundleId, id, mimeType, displayFilename));
      var key := dek[..];
      var sealed := Seal(c, file, aad, dek, nonce, up.kmsUp);
      Await({id}, {});
      if sealed.None? { return Failure(KeyNotWrapped); }
      var blob := BuildBlob(sealed.value);
      if blob.None? { return Failure(Unframable); }
      var row := Attachment(bundleId, BlobRefOf(id), c.digest(sealed.value.ciphertext), |file|, mimeType, Repaired(displayFilename), 2);
      SealedUnderStored(c, sealed.value, key, Binding(2, bundleId, id, mimeType, displayFilename), file);
      SealedHolds(c, id, row, sealed.value, key, file);
      r := StoreUpload(id, row, blob.value, Uploaded(file, key), originalName, up.dbUp);
    }

    /** The two writes of an upload: first the blob, then the row. */
    method StoreUpload(id: Text, row: Attachment, blob: Octets, up: Uploaded, ghost originalName: Option<Text>, dbUp: bool)
        returns (r: Result<Attachment, UploadError>)
      requires Valid() && id !in books.uploads && id !in w.attachments
      requires row.blobRef == BlobRefOf(id) && Holds(c, id, row, blob, up.dek, up.plain) && row.aadVersion == 2
      requires row.displayFilename == Repaired(Sanitized(originalName)) && Sniffs(row.mimeType, up.plain)
      modifies this`w, this`books, this`done
      ensures Valid()
      ensures BlobRefOf(id) in old(w).blobs <==> r == Failure(BlobExists)
      ensures BlobRefOf(id) !in old(w).blobs && !dbUp <==> r == Failure(RowRefused)
      ensures r.Success? || r.error in {BlobExists, RowRefused}
      ensures r.Success? ==>
        && r.value == row && id in w.attachments && w.attachments[id] == row && id in books.uploads && books.uploads[id] == up
        && done == old(done) + [WriteBlob(id, blob), InsertRow(id, row, up)]
      ensures r.Failure? ==> id !in books.uploads && id !in w.attachments
      ensures r == Failure(RowRefused) ==> done == old(done) + [WriteBlob(id, blob)]
      ensures r == Failure(BlobExists) ==> done == old(done)
    {
      hide Sound, RoundTrips, Later, Sniffs, Sanitized, Repaired, Holds, RowKnown, BlobRefOf;
      var written := WriteFile(id, blob);
      if !written { return Failure(BlobExists); }
      Await({id}, {});
      if !dbUp { return Failure(RowRefused); }
      NewRowIsKnown(c, w, books, id, row, blob, up, originalName, up.plain);
      CreateRow(id, row, up);
      assert done == old(done) + [WriteBlob(id, blob), InsertRow(id, row, up)];
      return Success(row);
    }

    /** `readBlob`. */
    method ReadBlob(blobRef: Text) returns (blob: Option<Octets>)
      ensures blob == if blobRef in w.blobs then Some(w.blobs[blobRef]) else None
    {
      return if blobRef in w.blobs then Some(w.blobs[blobRef]) else None;
    }

    method CreateToken(rawToken: Text, token: Token)
      requires Valid() && Enabled(c, w, books, InsertToken(rawToken, token))
      modifies this`w, this`books, this`done
      ensures Valid() && Later(old(w), old(books), w, books)
      ensures w == old(w).(tokens := old(w).tokens[c.tokenIndex(rawToken) := token])
      ensures books == old(books).(holders := old(books).holders[c.tokenIndex(rawToken) := rawToken])
      ensures done == old(done) + [InsertToken(rawToken, token)]
    {
      ghost var before, noted := w, books;
      w := w.(tokens := w.tokens[c.tokenIndex(rawToken) := token]);
      books := books.(holders := books.holders[c.tokenIndex(rawToken) := rawToken]);
      Justify(InsertToken(rawToken, token), before, noted);
    }

    /**
     `issueOne`: the key is unwrapped and re-sealed for one token. It fails exactly if the
     blob is gone, the key service does not answer, or the row cannot be inserted.
     */
    method IssueOne(id: Text, att: Attachment, s: Secret, expiresAt: int, maxUses: nat, up: Services)
        returns (r: Result<Text, IssueError>)
      requires Valid() && RowKnown(c, w, books, id, att)
      modifies this`w, this`books, this`done
      ensures Valid() && Later(old(w), old(books), w, books)
      ensures forall i :: i in old(books).holders && i != c.tokenIndex(s.rawToken) ==> TokenKept(old(w), w, i)
      ensures r == Failure(Unreadable) <==> att.blobRef !in old(w).blobs
      ensures r == Failure(NotUnwrapped) <==> att.blobRef in old(w).blobs && !up.kmsUp
      ensures r == Failure(IndexTaken) ==> c.tokenIndex(s.rawToken) in w.tokens
      ensures r == Failure(TokenRefused) ==> !up.dbUp || id !in w.attachments
      ensures !up.dbUp ==> r.Failure?
      ensures r.Failure? ==> done == old(done)
      ensures r.Success? ==>
        && r.value == c.tokenIndex(s.rawToken) && r.value in books.holders && books.holders[r.value] == s.rawToken
        && |done| == |old(done)| + 1 && old(done) <= done && Stores(c, books, done[|old(done)|], id, s, expiresAt, maxUses)
        && r.value in w.tokens && w.tokens[r.value] == done[|old(done)|].token
    {
      hide Sound, RoundTrips, RowKnown, Holds, Later, ParseBlob, SealAadOf, Enabled, Stores;
      LaterSelf(w, books);
      assert att.blobRef == BlobRefOf(id) by { KnownBlobOpens(c, w, books, id, att); }
      var blob := ReadBlob(att.blobRef);
      if blob.None? { return Failure(Unreadable); }
      KnownBlobOpens(c, w, books, id, att);
      var parsed := ParseBlob(blob.value);
      var index := c.tokenIndex(s.rawToken);
      ghost var v, b := w, books;
      Await({}, {index});
      StaysUploaded(v, b, w, books, id);
      if !up.kmsUp { return Failure(NotUnwrapped); }
      var plainDek := c.unwrap(parsed.value.wrappedDek);
      if index in w.tokens { return Failure(IndexTaken); }
      if !up.dbUp || id !in w.attachments { return Failure(TokenRefused); }
      var kek := c.deriveKek(s.rawToken, s.kdfSalt);
      var sealedDek := c.encrypt(kek, s.dekNonce, SealAadOf(c, index, id), plainDek.value);
      var token := Token(id, c.hashToken(s.rawToken, s.hashSalt), s.kdfSalt, sealedDek, s.dekNonce, 0, maxUses, expiresAt, false);
      NewTokenFits(c, w, books, id, s, token);
      v, b := w, books;
      CreateToken(s.rawToken, token);
      LaterComposes(old(w), old(books), v, b, w, books);
      StaysUploaded(v, b, w, books, id);
      NewTokenStores(c, books, InsertToken(s.rawToken, token), id, s, expiresAt, maxUses);
      return Success(index);
    }

    /** The attachments of a bundle, each once. */
    method FindAttachments(bundleId: Text) returns (ids: seq<Text>)
      ensures forall id :: id in ids <==> id in w.attachments && w.attachments[id].bundleId == bundleId
      ensures forall i, j :: 0 <= i < j < |ids| ==> ids[i] != ids[j]
    {
      ids := [];
      var left := w.attachments.Keys;
      while left != {}
        invariant left <= w.attachments.Keys
        invariant forall id :: id in ids <==> id in w.attachments && id !in left && w.attachments[id].bundleId == bundleId
        invariant forall i, j :: 0 <= i < j < |ids| ==> ids[i] != ids[j]
        decreases |left|
      {
        var id :| id in left;
        if w.attachments[id].bundleId == bundleId { ids := ids + [id]; }
        left := left - {id};
      }
    }

    /**
     `issueForAction`: on success every attachment of the bundle has its token, stored for
     its holder and for it alone; otherwise the tokens stored before the failure stay.
     */
    method IssueForAction(bundleId: Text, secret: nat -> Secret, expiresAt: int, maxUses: nat, up: nat -> Services)
        returns (ids: seq<Text>, r: Result<seq<Text>, IssueError>)
      requires Valid()
      modifies this`w, this`books, this`done
      ensures Valid()
      ensures forall id :: id in ids <==> id in old(w).attachments && old(w).attachments[id].bundleId == bundleId
      ensures forall i, j :: 0 <= i < j < |ids| ==> ids[i] != ids[j]
      ensures old(done) <= done && |done| <= |old(done)| + |ids|
      ensures forall k :: 0 <= k < |done| - |old(done)| ==>
        Issued(c, w, books, done[|old(done)| + k], ids[k], secret(k), expiresAt, maxUses, Distinct(secret))
      ensures r.Success? <==> |done| == |old(done)| + |ids|
      ensures r.Success? ==>
        |r.value| == |ids| && forall k :: 0 <= k < |ids| ==> r.value[k] == c.tokenIndex(secret(k).rawToken)
    {
      hide Sound, RoundTrips, Holds, Later, RowKnown, Stores, Issued, Distinct, LeftAlone, TokenKept;
      ids := FindAttachments(bundleId);
      var rows := w.attachments;
      ghost var was := done;
      forall k | 0 <= k < |ids| ensures RowKnown(c, w, books, ids[k], rows[ids[k]]) { StoredRowIsKnown(c, w, books, ids[k]); }
      var issued: seq<Text> := [];
      for i := 0 to |ids|
        invariant Valid() && |issued| == i && was <= done && |done| == |was| + i
        invariant forall k :: 0 <= k < |ids| ==> ids[k] in rows && RowKnown(c, w, books, ids[k], rows[ids[k]])
        invariant forall k :: 0 <= k < i ==> issued[k] == c.tokenIndex(secret(k).rawToken)
        invariant forall k :: 0 <= k < i ==>
          Issued(c, w, books, done[|was| + k], ids[k], secret(k), expiresAt, maxUses, Distinct(secret))
      {
        ghost var v, b, d := w, books, done;
        var one := IssueOne(ids[i], rows[ids[i]], secret(i), expiresAt, maxUses, up(i));
        forall k | 0 <= k < i
          ensures Issued(c, w, books, done[|was| + k], ids[k], secret(k), expiresAt, maxUses, Distinct(secret))
        {
          assert done[|was| + k] == d[|was| + k];
          IssuedStays(c, v, b, w, books, d[|was| + k], ids[k], secret, k, i, expiresAt, maxUses);
        }
        if one.Failure? { return ids, Failure(one.error); }
        forall k | 0 <= k < |ids| ensures RowKnown(c, w, books, ids[k], rows[ids[k]]) {
          RowStaysKnown(c, v, b, w, books, ids[k], rows[ids[k]]);
        }
        StoredIsIssued(c, w, books, done[|d|], ids[i], secret(i), expiresAt, maxUses, Distinct(secret));
        issued := issued + [one.value];
        v, b, d := w, books, done;
        Await({}, {});
        forall k | 0 <= k < |ids| ensures RowKnown(c, w, books, ids[k], rows[ids[k]]) {
          RowStaysKnown(c, v, b, w, books, ids[k], rows[ids[k]]);
        }
        forall k | 0 <= k <= i
          ensures Issued(c, w, books, done[|was| + k], ids[k], secret(k), expiresAt, maxUses, Distinct(secret))
        {
          IssuedThroughAwait(c, v, b, w, books, done[|was| + k], ids[k], secret(k), expiresAt, maxUses, Distinct(secret));
        }
      }
      return ids, Success(issued);
    }

    /** The conditional increment that claims one use. */
    method ClaimUse(index: Text, now: int) returns (count: nat)
      requires Valid()
      modifies this`w, this`done
      ensures Valid() && w.blobs == old(w).blobs && w.attachments == old(w).attachments
      ensures done == if count == 1 then old(done) + [Use(index, now)] else old(done)
      ensures Later(old(w), books, w, books)
      ensures count == 1 <==>
        && index in old(w).tokens && !old(w).tokens[index].revoked
        && now < old(w).tokens[index].expiresAt && old(w).tokens[index].uses < old(w).tokens[index].maxUses
      ensures count == 1 ==>
        w.tokens == old(w).tokens[index := old(w).tokens[index].(uses := old(w).tokens[index].uses + 1)]
      ensures count != 1 ==> w == old(w) && count == 0 && Lapsed(index, now)
    {
      hide Sound, RoundTrips;
      if index !in w.tokens || !Usable(w.tokens[index], now) { return 0; }
      ghost var before := w;
      w := w.(tokens := w.tokens[index := w.tokens[index].(uses := w.tokens[index].uses + 1)]);
      Justify(Use(index, now), before, books);
      return 1;
    }

    /** The checks on the token as it is read. */
    method CheckToken(rawToken: Text, id: Text, now: int) returns (denial: Option<Denial>)
      requires Valid()
      ensures RefusedAs(c, w, rawToken, id, now, denial)
      ensures denial.None? ==> InScope(c, w, rawToken, id) && c.verifyToken(w.tokens[c.tokenIndex(rawToken)].tokenHash, rawToken)
      ensures denial.Some? ==> denial.value in BEFORE_CLAIM
    {
      var index := c.tokenIndex(rawToken);
      if index !in w.tokens { return Some(TokenNotFound); }
      var row := w.tokens[index];
      assert TokenSound(c, index, row, books, books.holders[index]);
      if !c.verifyToken(row.tokenHash, rawToken) { return Some(TokenHashMismatch); }
      if row.attachmentId != id { return Some(ScopeMismatch); }
      if row.revoked { return Some(Revoked); }
      if row.expiresAt <= now { return Some(Expired); }
      if row.uses >= row.maxUses { return Some(Exhausted); }
      return None;
    }

    /**
     `download`: what comes back is exactly what was uploaded under that id, with the name
     and type its row said, and one use is gone. A token that was usable when it was read
     fails only if it is not any more when the use is claimed, or the blob is gone.
     */
    method Download(rawToken: Text, id: Text, now: int, later: int) returns (r: Result<Delivered, Denial>)
      requires Valid() && now <= later
      modifies this`w, this`books, this`done
      ensures Valid()
      ensures r.Success? ==>
        && id in old(w).attachments && id in books.uploads
        && r.value == Delivered(old(w).attachments[id].displayFilename, old(w).attachments[id].mimeType, books.uploads[id].plain)
      ensures r.Failure? ==> r.error in BEFORE_CLAIM || r.error == RaceLost || r.error == BlobMissing
      ensures RefusedAs(c, old(w), rawToken, id, now, if r.Failure? && r.error in BEFORE_CLAIM then Some(r.error) else None)
      ensures r == Failure(RaceLost) ==> Lapsed(c.tokenIndex(rawToken), later)
      ensures r == Failure(BlobMissing) ==> BlobRefOf(id) !in w.blobs
      ensures done == if r.Success? || r.error == BlobMissing then old(done) + [Use(c.tokenIndex(rawToken), later)] else old(done)
    {
      hide Sound, RoundTrips, RowKnown, Unlocks, RefusedAs, BlobRefOf, Lapsed;
      var denial := CheckToken(rawToken, id, now);
      if denial.Some? { return Failure(denial.value); }
      TokenFound(c, w, books, rawToken, id);
      var row, att := w.tokens[c.tokenIndex(rawToken)], w.attachments[id];
      r := ClaimAndDeliver(rawToken, id, row, att, later);
    }

    /** The token of the index is gone, revoked, expired or used up. */
    predicate Lapsed(i: Text, now: int)
      reads this`w
    {
      i in w.tokens ==> w.tokens[i].revoked || w.tokens[i].expiresAt <= now || w.tokens[i].maxUses <= w.tokens[i].uses
    }

    /** From the rows that were read to the claim, and on. */
    method ClaimAndDeliver(rawToken: Text, id: Text, token: Token, att: Attachment, later: int) returns (r: Result<Delivered, Denial>)
      requires Valid() && RowKnown(c, w, books, id, att) && Unlocks(c, rawToken, id, token, books.uploads[id].dek)
      modifies this`w, this`books, this`done
      ensures Valid() && id in books.uploads
      ensures r.Success? ==> r.value == Delivered(att.displayFilename, att.mimeType, books.uploads[id].plain)
      ensures r.Failure? ==> r.error == RaceLost || r.error == BlobMissing
      ensures r == Failure(RaceLost) ==> Lapsed(c.tokenIndex(rawToken), later)
      ensures r == Failure(BlobMissing) ==> BlobRefOf(id) !in w.blobs
      ensures done == if r == Failure(RaceLost) then old(done) else old(done) + [Use(c.tokenIndex(rawToken), later)]
    {
      hide Sound, RoundTrips, RowKnown, Later, LeftAlone, Unlocks, Holds, BlobRefOf, Lapsed;
      var index := c.tokenIndex(rawToken);
      ghost var v, b := w, books;
      KnownIsUploaded(c, w, books, id, att);
      Await({}, {});
      RowStaysKnown(c, v, b, w, books, id, att);
      StaysUploaded(v, b, w, books, id);
      v, b := w, books;
      var count := ClaimUse(index, later);
      if count != 1 { return Failure(RaceLost); }
      RowStaysKnown(c, v, b, w, books, id, att);
      r := DeliverClaimed(rawToken, id, token, att);
    }

    /** What follows the claim of a use. */
    method DeliverClaimed(rawToken: Text, id: Text, token: Token, att: Attachment) returns (r: Result<Delivered, Denial>)
      requires Valid() && RowKnown(c, w, books, id, att) && Unlocks(c, rawToken, id, token, books.uploads[id].dek)
      modifies this`w, this`books
      ensures Valid() && id in books.uploads && id in old(books).uploads && books.uploads[id] == old(books).uploads[id]
      ensures r == if BlobRefOf(id) in w.blobs then Success(Delivered(att.displayFilename, att.mimeType, books.uploads[id].plain))
                   else Failure(BlobMissing)
    {
      hide Sound, RoundTrips, RowKnown, Later, LeftAlone, Unlocks, Holds, Deliver, BlobRefOf;
      ghost var v, b := w, books;
      KnownIsUploaded(c, w, books, id, att);
      Await({}, {});
      RowStaysKnown(c, v, b, w, books, id, att);
      StaysUploaded(v, b, w, books, id);
      var blob := ReadBlob(att.blobRef);
      r := Deliver(c, rawToken, id, token, att, blob);
      if blob.None? {
        NothingDelivered(c, rawToken, id, token, att);
      } else {
        KnownBlobHolds(c, w, books, id, att);
        DeliverReturnsUpload(c, rawToken, id, token, att, blob.value, books.uploads[id].dek, books.uploads[id].plain);
      }
    }
  }

  lemma NewIdHasNoRow(c: Crypto, w: World, books: Books, id: Text)
    requires Sound(c, w, books) && id !in books.uploads
    ensures id !in w.attachments
  {}

  lemma KnownIsUploaded(c: Crypto, w: World, books: Books, id: Text, att: Attachment)
    requires RowKnown(c, w, books, id, att)
    ensures id in books.uploads && att.blobRef == BlobRefOf(id)
  {}

  lemma KnownBlobOpens(c: Crypto, w: World, books: Books, id: Text, att: Attachment)
    requires RoundTrips(c) && RowKnown(c, w, books, id, att)
    ensures id in books.uploads && att.blobRef == BlobRefOf(id)
    ensures att.blobRef in w.blobs ==>
      && ParseBlob(w.blobs[att.blobRef]).Success?
      && c.unwrap(ParseBlob(w.blobs[att.blobRef]).value.wrappedDek) == Some(books.uploads[id].dek)
  {
    hide ParseBlob, BlobRefOf, Bound;
  }

  lemma NewTokenFits(c: Crypto, w: World, books: Books, id: Text, s: Secret, token: Token)
    requires RoundTrips(c) && id in books.uploads && id in w.attachments && c.tokenIndex(s.rawToken) !in w.tokens
    requires token.attachmentId == id && token.tokenHash == c.hashToken(s.rawToken, s.hashSalt) && token.uses == 0
    requires Unlocks(c, s.rawToken, id, token, books.uploads[id].dek)
    ensures Enabled(c, w, books, InsertToken(s.rawToken, token))
  {
    hide Unlocks;
  }

  lemma KnownBlobHolds(c: Crypto, w: World, books: Books, id: Text, att: Attachment)
    requires RowKnown(c, w, books, id, att) && att.blobRef in w.blobs
    ensures Holds(c, id, att, w.blobs[att.blobRef], books.uploads[id].dek, books.uploads[id].plain)
  {
    hide Holds;
  }

  lemma StaysUploaded(w: World, books: Books, w': World, books': Books, id: Text)
    requires id in books.uploads && Later(w, books, w', books')
    ensures id in books'.uploads && books'.uploads[id] == books.uploads[id]
  {}

  lemma StoredRowIsKnown(c: Crypto, w: World, books: Books, id: Text)
    requires Sound(c, w, books) && id in w.attachments
    ensures RowKnown(c, w, books, id, w.attachments[id])
  {
    hide RowKnown;
  }

  lemma NewTokenStores(c: Crypto, books: Books, e: Event, id: Text, s: Secret, expiresAt: int, maxUses: nat)
    requires e.InsertToken? && e.rawToken == s.rawToken && id in books.uploads
    requires e.token == Token(id, c.hashToken(s.rawToken, s.hashSalt), s.kdfSalt, e.token.sealedDek, s.dekNonce, 0, maxUses, expiresAt, false)
    requires Unlocks(c, s.rawToken, id, e.token, books.uploads[id].dek)
    ensures Stores(c, books, e, id, s, expiresAt, maxUses)
  {}

  lemma StoredIsIssued(c: Crypto, w: World, books: Books, e: Event, id: Text, s: Secret, expiresAt: int, maxUses: nat, alone: bool)
    requires Stores(c, books, e, id, s, expiresAt, maxUses)
    requires c.tokenIndex(s.rawToken) in books.holders && books.holders[c.tokenIndex(s.rawToken)] == s.rawToken
    requires c.tokenIndex(s.rawToken) in w.tokens && w.tokens[c.tokenIndex(s.rawToken)] == e.token
    ensures Issued(c, w, books, e, id, s, expiresAt, maxUses, alone)
  {}

  lemma IssuedIsLeftAlone(c: Crypto, w: World, books: Books, w': World, books': Books, e: Event, id: Text, s: Secret,
                          expiresAt: int, maxUses: nat, alone: bool)
    requires Issued(c, w, books, e, id, s, expiresAt, maxUses, alone) && Later(w, books, w', books')
    requires alone ==> TokenKept(w, w', c.tokenIndex(s.rawToken))
    ensures Issued(c, w', books', e, id, s, expiresAt, maxUses, alone)
  {
    hide Unlocks;
  }

  lemma IssuedThroughAwait(c: Crypto, w: World, books: Books, w': World, books': Books, e: Event, id: Text, s: Secret,
                           expiresAt: int, maxUses: nat, alone: bool)
    requires Issued(c, w, books, e, id, s, expiresAt, maxUses, alone)
    requires Later(w, books, w', books') && LeftAlone(w, books, w', books', {}, {})
    ensures Issued(c, w', books', e, id, s, expiresAt, maxUses, alone)
  {
    hide Later, Stores, TokenKept;
    IssuedIsLeftAlone(c, w, books, w', books', e, id, s, expiresAt, maxUses, alone);
  }

  /** Another token of the same action leaves those issued before alone. */
  lemma IssuedStays(c: Crypto, w: World, books: Books, w': World, books': Books, e: Event, id: Text, secret: nat -> Secret,
                    k: nat, i: nat, expiresAt: int, maxUses: nat)
    requires RoundTrips(c) && k != i && Later(w, books, w', books')
    requires Issued(c, w, books, e, id, secret(k), expiresAt, maxUses, Distinct(secret))
    requires forall x :: x in books.holders && x != c.tokenIndex(secret(i).rawToken) ==> TokenKept(w, w', x)
    ensures Issued(c, w', books', e, id, secret(k), expiresAt, maxUses, Distinct(secret))
  {
    if Distinct(secret) { assert c.tokenIndex(secret(k).rawToken) != c.tokenIndex(secret(i).rawToken); }
    hide Later, Stores, TokenKept, Distinct;
    IssuedIsLeftAlone(c, w, books, w', books', e, id, secret(k), expiresAt, maxUses, Distinct(secret));
  }

  lemma SealedHolds(c: Crypto, id: Text, row: Attachment, p: Parts, dek: Octets, plain: Octets)
    requires RoundTrips(c) && Framable(p)
    requires SealedUnder(c, p, dek, BuildAttachmentAad(BindingOf(id, row)), plain)
    requires row.ciphertextHash == c.digest(p.ciphertext)
    ensures Holds(c, id, row, Layout(p), dek, plain)
  {
    ParseUndoesLayout(p);
    hide Layout, ParseBlob;
  }

  /** The database keeps a name as it is encoded; what was sealed under the name is sealed under that. */
  lemma SealedUnderStored(c: Crypto, p: Parts, dek: Octets, b: Binding, text: Octets)
    requires RoundTrips(c) && SealedUnder(c, p, dek, BuildAttachmentAad(b), text)
    ensures SealedUnder(c, p, dek, BuildAttachmentAad(b.(displayFilename := Repaired(b.displayFilename))), text)
  {
    var stored := b.(displayFilename := Repaired(b.displayFilename));
    RepairedTwice(b.displayFilename);
    EncodedAad(b);
    EncodedAad(stored);
    assert RepairedBinding(stored) == RepairedBinding(b);
    hide BuildAttachmentAad, Repaired;
    assert c.utf8(Repaired(BuildAttachmentAad(b))) == c.utf8(Repaired(BuildAttachmentAad(stored)));
  }

  lemma NewRowIsKnown(c: Crypto, w: World, books: Books, id: Text, row: Attachment, blob: Octets, up: Uploaded,
                      originalName: Option<Text>, file: Octets)
    requires row.blobRef == BlobRefOf(id) && Holds(c, id, row, blob, up.dek, up.plain) && row.aadVersion == 2
    requires row.displayFilename == Repaired(Sanitized(originalName)) && Sniffs(row.mimeType, file)
    requires BlobRefOf(id) in w.blobs ==> w.blobs[BlobRefOf(id)] == blob
    ensures RowKnown(c, w, books.(uploads := books.uploads[id := up]), id, row)
  {
    if PipeFree(id) && PipeFree(row.bundleId) { UploadBindsPipeFree(row.bundleId, id, originalName, row.mimeType, file); }
    hide Holds, BlobRefOf, PartsPipeFree, Sniffs, Sanitized, Repaired;
  }

  lemma NothingDelivered(c: Crypto, rawToken: Text, id: Text, token: Token, att: Attachment)
    ensures Deliver(c, rawToken, id, token, att, None) == Failure(BlobMissing)
  {}

  /** A token presented by its holder opens its attachment. */
  lemma TokenFound(c: Crypto, w: World, books: Books, rawToken: Text, id: Text)
    requires RoundTrips(c) && Sound(c, w, books)
    requires c.tokenIndex(rawToken) in w.tokens && w.tokens[c.tokenIndex(rawToken)].attachmentId == id
    ensures id in w.attachments && id in books.uploads && RowKnown(c, w, books, id, w.attachments[id])
    ensures Unlocks(c, rawToken, id, w.tokens[c.tokenIndex(rawToken)], books.uploads[id].dek)
  {
    var i := c.tokenIndex(rawToken);
    assert TokenSound(c, i, w.tokens[i], books, books.holders[i]);
    hide Holds, Unlocks, BlobRefOf, Bound;
  }
}
