/** The on-disk layout of an attachment: two framed parts, then the ciphertext with its tag. */
module AttachmentBlob {
  import opened Basics

  const TAG_LEN := 16

  datatype Parts = Parts(nonce: Octets, wrappedDek: Octets, ciphertext: Octets)

  datatype ParseError = TruncatedHeader | TruncatedDekHeader | TruncatedCiphertext

  predicate FitsU16(n: nat) {
    n < 0x1_0000
  }

  function U16(n: nat): Octets
    requires FitsU16(n)
  {
    [n / 256, n % 256]
  }

  function ReadU16(b: Octets, i: nat): (n: nat)
    requires i + 2 <= |b|
    ensures FitsU16(n)
  {
    256 * (b[i] as nat) + b[i + 1]
  }

  /** What the layout can hold. */
  predicate Framable(p: Parts) {
    FitsU16(|p.nonce|) && FitsU16(|p.wrappedDek|)
  }

  function Layout(p: Parts): Octets
    requires Framable(p)
  {
    U16(|p.nonce|) + p.nonce + U16(|p.wrappedDek|) + p.wrappedDek + p.ciphertext
  }

  function ParseBlob(blob: Octets): Result<Parts, ParseError> {
    if |blob| < 2 then Failure(TruncatedHeader)
    else
      var nonceEnd := 2 + ReadU16(blob, 0);
      if |blob| < nonceEnd + 2 then Failure(TruncatedDekHeader)
      else
        var dekStart := nonceEnd + 2;
        var dekEnd := dekStart + ReadU16(blob, nonceEnd);
        if |blob| < dekEnd + TAG_LEN then Failure(TruncatedCiphertext)
        else Success(Parts(blob[2..nonceEnd], blob[dekStart..dekEnd], blob[dekEnd..]))
  }

  lemma U16RoundTrip(n: nat, rest: Octets)
    requires FitsU16(n)
    ensures ReadU16(U16(n) + rest, 0) == n
  {}

  lemma ReadU16At(a: Octets, b: Octets)
    requires |b| >= 2
    ensures ReadU16(a + b, |a|) == ReadU16(b, 0)
  {
    assert (a + b)[|a|] == b[0] && (a + b)[|a| + 1] == b[1];
  }

  /** Reading a written blob gives back its parts, provided there is room for a tag. */
  lemma ParseUndoesLayout(p: Parts)
    requires Framable(p)
    ensures ParseBlob(Layout(p)) ==
            if |p.ciphertext| >= 16 then Success(p) else Failure(TruncatedCiphertext)
  {
    var blob := Layout(p);
    var head, tail := U16(|p.nonce|) + p.nonce, U16(|p.wrappedDek|) + (p.wrappedDek + p.ciphertext);
    assert blob == head + tail;
    U16RoundTrip(|p.nonce|, p.nonce + tail);
    assert blob == U16(|p.nonce|) + (p.nonce + tail);
    ReadU16At(head, tail);
    U16RoundTrip(|p.wrappedDek|, p.wrappedDek + p.ciphertext);
    assert blob[2..|head|] == p.nonce;
    var dekStart := |head| + 2;
    assert blob == (head + U16(|p.wrappedDek|)) + p.wrappedDek + p.ciphertext;
    assert blob[dekStart..dekStart + |p.wrappedDek|] == p.wrappedDek;
    assert blob[dekStart + |p.wrappedDek|..] == p.ciphertext;
  }

  lemma U16OfRead(b: Octets, i: nat)
    requires i + 2 <= |b|
    ensures U16(ReadU16(b, i)) == b[i..i + 2]
  {
    var hi: nat, lo: nat := b[i], b[i + 1];
    assert (256 * hi + lo) / 256 == hi && (256 * hi + lo) % 256 == lo;
  }

  /** A blob that can be read is the layout of what was read: no other bytes mean the same parts. */
  lemma LayoutUndoesParse(blob: Octets)
    requires ParseBlob(blob).Success?
    ensures var p := ParseBlob(blob).value;
      Framable(p) && |p.ciphertext| >= 16 && Layout(p) == blob
  {
    var nonceEnd := 2 + ReadU16(blob, 0);
    var dekEnd := nonceEnd + 2 + ReadU16(blob, nonceEnd);
    U16OfRead(blob, 0);
    U16OfRead(blob, nonceEnd);
    var p := ParseBlob(blob).value;
    assert Layout(p) == blob[0..2] + blob[2..nonceEnd] + blob[nonceEnd..nonceEnd + 2] + blob[nonceEnd + 2..dekEnd] + blob[dekEnd..];
    assert blob[0..2] + blob[2..nonceEnd] == blob[..nonceEnd];
    assert blob[..nonceEnd] + blob[nonceEnd..nonceEnd + 2] == blob[..nonceEnd + 2];
    assert blob[..nonceEnd + 2] + blob[nonceEnd + 2..dekEnd] == blob[..dekEnd];
    assert blob[..dekEnd] + blob[dekEnd..] == blob;
  }

  /** `writeUInt16BE` throws on a number of more than sixteen bits. */
  method WriteUInt16BE(buffer: array<Octet>, n: nat) returns (ok: bool)
    requires buffer.Length == 2
    modifies buffer
    ensures ok <==> n <= 65_535
    ensures ok ==> buffer[..] == U16(n) && 256 * (buffer[0] as int) + buffer[1] as int == n
  {
    if n >= 0x1_0000 { return false; }
    buffer[0] := n / 256;
    buffer[1] := n % 256;
    return true;
  }

  /** A length at the front, most significant octet first, and then what it counts. */
  ghost predicate Framed(b: Octets, part: Octets, rest: Octets) {
    && |b| >= 2 && 256 * (b[0] as int) + b[1] as int == |part| && b[2..] == part + rest
  }

  lemma LayoutFrames(p: Parts)
    requires Framable(p)
    ensures exists rest :: Framed(Layout(p), p.nonce, rest) && Framed(rest, p.wrappedDek, p.ciphertext)
  {
    var rest := U16(|p.wrappedDek|) + (p.wrappedDek + p.ciphertext);
    assert rest[2..] == p.wrappedDek + p.ciphertext;
    assert Layout(p) == U16(|p.nonce|) + (p.nonce + rest);
    assert Layout(p)[2..] == p.nonce + rest;
    assert Framed(Layout(p), p.nonce, rest) && Framed(rest, p.wrappedDek, p.ciphertext);
  }

  /** How a blob that cannot be read is refused: by the first of its lengths that the bytes do not hold. */
  lemma RefusedBlobs(blob: Octets)
    ensures ParseBlob(blob) == Failure(TruncatedHeader) <==> |blob| < 2
    ensures |blob| >= 2 ==>
      var n := 256 * (blob[0] as int) + blob[1] as int;
      && (ParseBlob(blob) == Failure(TruncatedDekHeader) <==> |blob| < n + 4)
      && (|blob| >= n + 4 ==>
        var k := 256 * (blob[n + 2] as int) + blob[n + 3] as int;
        ParseBlob(blob) == Failure(TruncatedCiphertext) <==> |blob| < n + 4 + k + 16)
  {}

  /** The writer in `upload`: two framed parts, then the ciphertext. */
  method BuildBlob(p: Parts) returns (blob: Option<Octets>)
    ensures blob == if Framable(p) then Some(Layout(p)) else None
    ensures blob.Some? <==> |p.nonce| <= 65_535 && |p.wrappedDek| <= 65_535
    ensures blob.Some? ==> exists rest :: Framed(blob.value, p.nonce, rest) && Framed(rest, p.wrappedDek, p.ciphertext)
  {
    if Framable(p) { LayoutFrames(p); }
    var nonceLen, dekLen := new Octet[2], new Octet[2];
    var ok := WriteUInt16BE(nonceLen, |p.nonce|);
    if !ok { return None; }
    ok := WriteUInt16BE(dekLen, |p.wrappedDek|);
    if !ok { return None; }
    return Some(nonceLen[..] + p.nonce + dekLen[..] + p.wrappedDek + p.ciphertext);
  }
}
