/** The file format of `stardustlib/encryption_engine.py` over an ideal AES-GCM:
    sealing adds an entry to a log, opening accepts what is in the log. */
module Crypto {
  import opened Rows

  newtype Byte = x: int | 0 <= x < 256
  type Bytes = seq<Byte>

  const MAGIC: Bytes := [83, 68, 70, 83]
  const VERSION: Byte := 1
  const MODE_GCM: Byte := 1
  const HEADER_SIZE := 38

  /** What AES-GCM takes and gives besides key and plaintext. */
  datatype Sealed = Sealed(iv: Bytes, tag: Bytes, body: Bytes)

  type SealLog = map<Sealed, Bytes>

  /** IVs are 16 bytes and never repeat; the ciphertext is as long as the
      plaintext. */
  predicate WellSealed(log: SealLog) {
    && (forall s | s in log :: |s.iv| == 16 && |s.tag| == 16 && |s.body| == |log[s]|)
    && (forall s, t | s in log && t in log && s.iv == t.iv :: s == t)
  }

  predicate FreshSeal(log: SealLog, s: Sealed, plaintext: Bytes) {
    && |s.iv| == 16 && |s.tag| == 16 && |s.body| == |plaintext|
    && forall t | t in log :: t.iv != s.iv
  }

  datatype DecryptError = TooShort | BadMagic | IntegrityFailure

  datatype Decrypted = Plain(data: Bytes) | Failed(error: DecryptError)

  /** The blob layout that `encrypt` writes. */
  function Layout(s: Sealed): Bytes {
    MAGIC + [VERSION, MODE_GCM] + s.iv + s.tag + s.body
  }

  function ParseSeal(blob: Bytes): Sealed
    requires |blob| >= HEADER_SIZE
  {
    Sealed(blob[6..22], blob[22..38], blob[38..])
  }

  /** `decrypt`. The version and mode bytes are never looked at. */
  function Decrypt(log: SealLog, blob: Bytes): Decrypted {
    if |blob| < HEADER_SIZE then Failed(TooShort)
    else if blob[..4] != MAGIC then Failed(BadMagic)
    else if ParseSeal(blob) in log then Plain(log[ParseSeal(blob)])
    else Failed(IntegrityFailure)
  }

  lemma LayoutParses(s: Sealed)
    requires |s.iv| == 16 && |s.tag| == 16
    ensures |Layout(s)| == HEADER_SIZE + |s.body|
    ensures Layout(s)[..4] == MAGIC && ParseSeal(Layout(s)) == s
  {
    var b := Layout(s);
    assert b[6..22] == s.iv;
    assert b[22..38] == s.tag;
    assert b[38..] == s.body;
  }

  /** Whatever is sealed opens again, whatever else was sealed before or after. */
  lemma EncryptDecrypt(log: SealLog, s: Sealed, plaintext: Bytes, later: SealLog)
    requires WellSealed(log) && FreshSeal(log, s, plaintext)
    requires s in later && later[s] == plaintext
    ensures WellSealed(log[s := plaintext]) && Decrypt(later, Layout(s)) == Plain(plaintext)
  {
    LayoutParses(s);
  }

  /** The blob byte by byte: four magic bytes, version and mode, IV, tag, and as many
      bytes as the plaintext has. */
  lemma LayoutIs(s: Sealed, log: SealLog, plaintext: Bytes)
    requires FreshSeal(log, s, plaintext)
    ensures var b := Layout(s);
      && |b| == 38 + |plaintext| && b[..6] == [83, 68, 70, 83, 1, 1]
      && b[6..22] == s.iv && b[22..38] == s.tag && b[38..] == s.body
  {
    LayoutParses(s);
  }

  /** Opening written out: why a blob is refused, in the order of the checks, and
      which entry is opened. */
  lemma DecryptIs(log: SealLog, blob: Bytes)
    ensures Decrypt(log, blob) == Failed(TooShort) <==> |blob| < 38
    ensures Decrypt(log, blob) == Failed(BadMagic) <==> |blob| >= 38 && blob[..4] != [83, 68, 70, 83]
    ensures |blob| >= 38 && blob[..4] == [83, 68, 70, 83] ==>
      forall data :: Decrypt(log, blob) == Plain(data) <==>
        exists s :: s in log && log[s] == data && s.iv == blob[6..22] && s.tag == blob[22..38] && s.body == blob[38..]
  {
  }

  /** Two blobs that differ at most in the version and mode bytes. */
  predicate SameButVersion(a: Bytes, b: Bytes) {
    |a| == |b| && forall i | 0 <= i < |a| && i != 4 && i != 5 :: a[i] == b[i]
  }

  /** Opening accepts exactly the blobs that were produced, up to the two bytes it
      does not check, and returns what was put in. */
  lemma DecryptAcceptsIff(log: SealLog, blob: Bytes, plaintext: Bytes)
    requires WellSealed(log)
    ensures Decrypt(log, blob) == Plain(plaintext) <==> exists s :: s in log && log[s] == plaintext && SameButVersion(blob, Layout(s))
  {
    if Decrypt(log, blob) == Plain(plaintext) {
      var s := ParseSeal(blob);
      LayoutParses(s);
      assert blob == blob[..4] + blob[4..6] + blob[6..22] + blob[22..38] + blob[38..];
      assert SameButVersion(blob, Layout(s));
    }
    forall s | s in log && log[s] == plaintext && SameButVersion(blob, Layout(s))
      ensures Decrypt(log, blob) == Plain(plaintext)
    {
      LayoutParses(s);
      assert blob[..4] == Layout(s)[..4];
      assert blob[6..22] == Layout(s)[6..22];
      assert blob[22..38] == Layout(s)[22..38];
      assert blob[38..] == Layout(s)[38..];
    }
  }
}
