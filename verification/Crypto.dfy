/** The encrypted frame, base64(nonce, ciphertext, tag), as the Go server and the Dart client
    build it and take it apart, and the X25519 layer above it. The primitives are parameters;
    `Lawful` is all that is assumed of them. */
module Crypto {
  import opened Options
  import opened Base64

  const NONCE_SIZE := 12
  const TAG_SIZE := 16
  const KEY_SIZE := 32

  /** AES-GCM split into its cipher and its tag, SHA-256, and X25519. */
  datatype Primitives = Primitives(
    encipher: (Bytes, Bytes, Bytes) -> Bytes,
    decipher: (Bytes, Bytes, Bytes) -> Bytes,
    tag: (Bytes, Bytes, Bytes) -> Bytes,
    sha256: Bytes -> Bytes,
    publicKey: Bytes -> Bytes,
    ecdh: (Bytes, Bytes) -> Option<Bytes>)

  ghost predicate CipherLaws(c: Primitives) {
    && (forall k, n, p :: |k| == KEY_SIZE && |n| == NONCE_SIZE ==> c.decipher(k, n, c.encipher(k, n, p)) == p)
    && (forall k, n, x :: |k| == KEY_SIZE && |n| == NONCE_SIZE ==> c.encipher(k, n, c.decipher(k, n, x)) == x)
    && (forall k, n, p :: |k| == KEY_SIZE && |n| == NONCE_SIZE ==> |c.encipher(k, n, p)| == |p|)
    && (forall k, n, x :: |k| == KEY_SIZE && |n| == NONCE_SIZE ==> |c.tag(k, n, x)| == TAG_SIZE)
    && (forall k :: |c.sha256(k)| == KEY_SIZE)
  }

  /** Both ends derive the same secret (section 6.1 of RFC 7748). */
  ghost predicate EcdhCommutes(c: Primitives) {
    && (forall a, b :: |a| == |b| == KEY_SIZE ==> c.ecdh(a, c.publicKey(b)) == c.ecdh(b, c.publicKey(a)))
    && (forall a :: |a| == KEY_SIZE ==> |c.publicKey(a)| == KEY_SIZE)
  }

  ghost predicate Lawful(c: Primitives) {
    CipherLaws(c) && EcdhCommutes(c)
  }

  // ----- The Go side -----

  function GoSeal(c: Primitives, k: Bytes, n: Bytes, p: Bytes): Bytes {
    var x := c.encipher(k, n, p);
    x + c.tag(k, n, x)
  }

  function GoOpen(c: Primitives, k: Bytes, n: Bytes, sealed: Bytes): Option<Bytes> {
    if |sealed| < TAG_SIZE then None
    else
      var cut := |sealed| - TAG_SIZE;
      if c.tag(k, n, sealed[..cut]) == sealed[cut..] then Some(c.decipher(k, n, sealed[..cut])) else None
  }

  /** The nonce is prepended by sealing onto it. */
  function GoFrame(c: Primitives, k: Bytes, n: Bytes, p: Bytes): Bytes {
    n + GoSeal(c, k, n, p)
  }

  function GoOpenFrame(c: Primitives, k: Bytes, data: Bytes): Option<Bytes> {
    if |data| < NONCE_SIZE then None else GoOpen(c, k, data[..NONCE_SIZE], data[NONCE_SIZE..])
  }

  function Encrypt(c: Primitives, plaintext: Bytes, key: Bytes, nonce: Bytes): Bytes {
    Encode(GoFrame(c, c.sha256(key), nonce, plaintext))
  }

  function Decrypt(c: Primitives, encoded: Bytes, key: Bytes): Option<Bytes> {
    match GoDecode(encoded)
    case None => None
    case Some(data) => GoOpenFrame(c, c.sha256(key), data)
  }

  function DeriveSharedSecret(c: Primitives, myPrivate: Bytes, theirPublic: Bytes): Option<Bytes> {
    match (GoDecode(myPrivate), GoDecode(theirPublic))
    case (Some(a), Some(b)) => if |a| == KEY_SIZE && |b| == KEY_SIZE then c.ecdh(a, b) else None
    case _ => None
  }

  function E2EEncrypt(
      c: Primitives, plaintext: Bytes, myPrivate: Bytes, theirPublic: Bytes, nonce: Bytes): Option<Bytes>
  {
    match DeriveSharedSecret(c, myPrivate, theirPublic)
    case None => None
    case Some(secret) => Some(Encrypt(c, plaintext, secret, nonce))
  }

  function E2EDecrypt(c: Primitives, encoded: Bytes, myPrivate: Bytes, senderPublic: Bytes): Option<Bytes> {
    match DeriveSharedSecret(c, myPrivate, senderPublic)
    case None => None
    case Some(secret) => Decrypt(c, encoded, secret)
  }

  // ----- The Dart side -----

  /** The key as used: 32 bytes as they are, otherwise cut to at most 32. */
  function DartKey(key: Bytes): Bytes {
    if |key| <= KEY_SIZE then key else key[..KEY_SIZE]
  }

  function DartFrame(c: Primitives, k: Bytes, n: Bytes, p: Bytes): Bytes {
    var cipherText := c.encipher(k, n, p);
    n + cipherText + c.tag(k, n, cipherText)
  }

  function DartOpenFrame(c: Primitives, k: Bytes, data: Bytes): Option<Bytes> {
    if |data| < NONCE_SIZE + TAG_SIZE then None
    else
      var nonce, mac := data[..NONCE_SIZE], data[|data| - TAG_SIZE..];
      var cipherText := data[NONCE_SIZE..|data| - TAG_SIZE];
      if c.tag(k, nonce, cipherText) == mac then Some(c.decipher(k, nonce, cipherText)) else None
  }

  /** The cipher refuses a key that is not 32 bytes long. */
  function DartEncrypt(c: Primitives, plaintext: Bytes, key: Bytes, nonce: Bytes): Option<Bytes> {
    if |DartKey(key)| != KEY_SIZE then None else Some(Encode(DartFrame(c, DartKey(key), nonce, plaintext)))
  }

  function DartDecrypt(c: Primitives, encoded: Bytes, key: Bytes): Option<Bytes> {
    match DartDecode(encoded)
    case None => None
    case Some(data) => if |DartKey(key)| != KEY_SIZE then None else DartOpenFrame(c, DartKey(key), data)
  }

  // ----- Laws -----

  /** A frame opens to `p` exactly when it is what sealing `p` under some nonce produces:
      opening undoes sealing, and nothing but sealed frames opens. */
  lemma OpensIffSealed(c: Primitives, k: Bytes, data: Bytes, p: Bytes)
    requires CipherLaws(c) && |k| == KEY_SIZE
    ensures GoOpenFrame(c, k, data) == Some(p) <==>
            |data| >= NONCE_SIZE && data == GoFrame(c, k, data[..NONCE_SIZE], p)
  {
    if |data| >= NONCE_SIZE {
      assert |data[..NONCE_SIZE]| == NONCE_SIZE;
      var n, sealed := data[..NONCE_SIZE], data[NONCE_SIZE..];
      assert data == n + sealed;
      if data == GoFrame(c, k, n, p) {
        var x := c.encipher(k, n, p);
        assert sealed == x + c.tag(k, n, x);
        assert sealed[..|sealed| - TAG_SIZE] == x && sealed[|sealed| - TAG_SIZE..] == c.tag(k, n, x);
      }
      if GoOpenFrame(c, k, data) == Some(p) {
        var cut := |sealed| - TAG_SIZE;
        assert sealed == sealed[..cut] + sealed[cut..];
        assert c.encipher(k, n, p) == sealed[..cut];
      }
    }
  }

  lemma FrameOpens(c: Primitives, k: Bytes, n: Bytes, p: Bytes)
    requires CipherLaws(c) && |k| == KEY_SIZE && |n| == NONCE_SIZE
    ensures GoOpenFrame(c, k, GoFrame(c, k, n, p)) == Some(p)
  {
    assert GoFrame(c, k, n, p)[..NONCE_SIZE] == n;
    OpensIffSealed(c, k, GoFrame(c, k, n, p), p);
  }

  lemma DecryptUndoesEncrypt(c: Primitives, plaintext: Bytes, key: Bytes, nonce: Bytes)
    requires CipherLaws(c) && |nonce| == NONCE_SIZE
    ensures Decrypt(c, Encrypt(c, plaintext, key, nonce), key) == Some(plaintext)
  {
    BothDecode(GoFrame(c, c.sha256(key), nonce, plaintext));
    FrameOpens(c, c.sha256(key), nonce, plaintext);
  }

  /** Decrypt accepts exactly the texts Encrypt can produce for that plaintext, but for line
      breaks and for the bits that padding leaves over. */
  lemma DecryptsIff(c: Primitives, encoded: Bytes, key: Bytes, p: Bytes)
    requires CipherLaws(c)
    ensures Decrypt(c, encoded, key) == Some(p) <==>
            exists n :: |n| == 12 && Encrypt(c, p, key, n) == Cleared(WithoutLineBreaks(encoded))
  {
    hide CipherLaws, Encode, GoDecode, GoFrame, GoOpenFrame, Cleared;
    var text, k := Cleared(WithoutLineBreaks(encoded)), c.sha256(key);
    KeyIsWholeKey(c, key);
    if Decrypt(c, encoded, key) == Some(p) {
      var data := GoDecode(encoded).value;
      GoDecodesIff(encoded, data);
      OpensIffSealed(c, k, data, p);
      assert Encrypt(c, p, key, data[..NONCE_SIZE]) == text;
    }
    forall n | |n| == NONCE_SIZE && Encrypt(c, p, key, n) == text
      ensures Decrypt(c, encoded, key) == Some(p)
    {
      GoDecodesIff(encoded, GoFrame(c, k, n, p));
      FrameOpens(c, k, n, p);
    }
  }

  lemma KeyIsWholeKey(c: Primitives, key: Bytes)
    requires CipherLaws(c)
    ensures |c.sha256(key)| == KEY_SIZE
  {
  }

  /** The same for Dart, where the texts may also use the URL-safe alphabet. */
  lemma DartDecryptsIff(c: Primitives, encoded: Bytes, key: Bytes, p: Bytes)
    requires CipherLaws(c)
    ensures DartDecrypt(c, encoded, key) == Some(p) <==>
            exists n :: |n| == 12 && DartEncrypt(c, p, key, n) == Some(Standardised(encoded))
  {
    hide CipherLaws, Encode, DartDecode, GoFrame, GoOpenFrame, DartFrame, DartOpenFrame, Standardised;
    var k := DartKey(key);
    if DartDecrypt(c, encoded, key) == Some(p) {
      var data := DartDecode(encoded).value;
      DartDecodesIff(encoded, data);
      var n := if |data| < NONCE_SIZE then [] else data[..NONCE_SIZE];
      FramesAgree(c, k, n, p, data);
      OpensIffSealed(c, k, data, p);
      assert DartEncrypt(c, p, key, n) == Some(Standardised(encoded));
    }
    forall n | |n| == NONCE_SIZE && DartEncrypt(c, p, key, n) == Some(Standardised(encoded))
      ensures DartDecrypt(c, encoded, key) == Some(p)
    {
      DartDecodesIff(encoded, DartFrame(c, k, n, p));
      FramesAgree(c, k, n, p, DartFrame(c, k, n, p));
      FrameOpens(c, k, n, p);
    }
  }

  /** The stored text is base64 of the nonce, the ciphertext under the hashed key, and the tag:
      12 bytes, as many as the plaintext has, and 16. */
  lemma EncryptedLayout(c: Primitives, plaintext: Bytes, key: Bytes, nonce: Bytes)
    requires CipherLaws(c) && |nonce| == 12
    ensures
      var k := c.sha256(key);
      var x := c.encipher(k, nonce, plaintext);
      && |k| == 32 && |x| == |plaintext| && |c.tag(k, nonce, x)| == 16
      && Encrypt(c, plaintext, key, nonce) == Encode(nonce + x + c.tag(k, nonce, x))
  {
    var k := c.sha256(key);
    var x := c.encipher(k, nonce, plaintext);
    assert nonce + x + c.tag(k, nonce, x) == nonce + (x + c.tag(k, nonce, x));
  }

  /** The same on the Dart side, under the first 32 bytes of the key as they are; a shorter key
      is refused. */
  lemma DartLayout(c: Primitives, plaintext: Bytes, key: Bytes, nonce: Bytes)
    ensures |key| < 32 ==> DartEncrypt(c, plaintext, key, nonce) == None
    ensures |key| >= 32 ==>
      var x := c.encipher(key[..32], nonce, plaintext);
      DartEncrypt(c, plaintext, key, nonce) == Some(Encode(nonce + x + c.tag(key[..32], nonce, x)))
  {
    hide Encode;
    if |key| == 32 {
      assert key[..32] == key;
    }
  }

  /** The shared secret is what X25519 makes of the two decoded keys, which must be 32 bytes. */
  lemma SharedSecretIs(c: Primitives, myPrivate: Bytes, theirPublic: Bytes, secret: Bytes)
    ensures DeriveSharedSecret(c, myPrivate, theirPublic) == Some(secret) <==>
            exists a, b ::
              && GoDecode(myPrivate) == Some(a) && GoDecode(theirPublic) == Some(b) && |a| == 32 && |b| == 32
              && c.ecdh(a, b) == Some(secret)
  {
    hide GoDecode;
    if DeriveSharedSecret(c, myPrivate, theirPublic) == Some(secret) {
      assert GoDecode(myPrivate) == Some(GoDecode(myPrivate).value);
      assert GoDecode(theirPublic) == Some(GoDecode(theirPublic).value);
    }
  }

  /** End-to-end content is encrypted, and decrypted, under that secret, or not at all. */
  lemma E2EUsesTheSecret(
      c: Primitives, text: Bytes, myPrivate: Bytes, theirPublic: Bytes, nonce: Bytes, secret: Option<Bytes>)
    requires secret == DeriveSharedSecret(c, myPrivate, theirPublic)
    ensures E2EEncrypt(c, text, myPrivate, theirPublic, nonce) ==
            if secret.Some? then Some(Encrypt(c, text, secret.value, nonce)) else None
    ensures E2EDecrypt(c, text, myPrivate, theirPublic) ==
            if secret.Some? then Decrypt(c, text, secret.value) else None
  {
    hide Encrypt, Decrypt;
  }

  lemma SharedSecretsAgree(c: Primitives, a: Bytes, b: Bytes)
    requires EcdhCommutes(c) && |a| == |b| == KEY_SIZE
    ensures DeriveSharedSecret(c, Encode(a), Encode(c.publicKey(b)))
         == DeriveSharedSecret(c, Encode(b), Encode(c.publicKey(a)))
  {
    hide Encode, GoDecode;
    BothDecode(a);
    BothDecode(b);
    BothDecode(c.publicKey(a));
    BothDecode(c.publicKey(b));
  }

  /** Unless X25519 refuses the pair of keys, what one user encrypts for another, the other
      decrypts with the mirrored pair. */
  lemma E2ERoundTrip(c: Primitives, plaintext: Bytes, a: Bytes, b: Bytes, nonce: Bytes)
    requires Lawful(c) && |nonce| == NONCE_SIZE && |a| == |b| == KEY_SIZE
    requires c.ecdh(a, c.publicKey(b)).Some?
    ensures
      var sent := E2EEncrypt(c, plaintext, Encode(a), Encode(c.publicKey(b)), nonce);
      sent.Some? && E2EDecrypt(c, sent.value, Encode(b), Encode(c.publicKey(a))) == Some(plaintext)
  {
    hide Encrypt, Decrypt, Encode, GoDecode, CipherLaws;
    SharedSecretsAgree(c, a, b);
    BothDecode(a);
    BothDecode(c.publicKey(b));
    DecryptUndoesEncrypt(c, plaintext, c.ecdh(a, c.publicKey(b)).value, nonce);
  }

  /** Under one AES key the two sides build the same frames, and open every byte string, good
      or bad, to the same result. */
  lemma FramesAgree(c: Primitives, k: Bytes, n: Bytes, p: Bytes, data: Bytes)
    ensures DartFrame(c, k, n, p) == GoFrame(c, k, n, p)
    ensures DartOpenFrame(c, k, data) == GoOpenFrame(c, k, data)
  {
    var x := c.encipher(k, n, p);
    assert n + x + c.tag(k, n, x) == n + (x + c.tag(k, n, x));
    if |data| >= NONCE_SIZE + TAG_SIZE {
      var sealed := data[NONCE_SIZE..];
      assert sealed[..|sealed| - TAG_SIZE] == data[NONCE_SIZE..|data| - TAG_SIZE];
      assert sealed[|sealed| - TAG_SIZE..] == data[|data| - TAG_SIZE..];
    }
  }

  /** Go reads what Dart wrote, and the reverse, when the AES keys coincide. The Go side hashes
      its key and the Dart side does not, so that is a condition on the hash. */
  lemma CrossRead(c: Primitives, plaintext: Bytes, goKey: Bytes, dartKey: Bytes, nonce: Bytes)
    requires CipherLaws(c) && |nonce| == NONCE_SIZE && |dartKey| == KEY_SIZE && c.sha256(goKey) == dartKey
    ensures DartEncrypt(c, plaintext, dartKey, nonce) == Some(Encrypt(c, plaintext, goKey, nonce))
    ensures Decrypt(c, DartEncrypt(c, plaintext, dartKey, nonce).value, goKey) == Some(plaintext)
    ensures DartDecrypt(c, Encrypt(c, plaintext, goKey, nonce), dartKey) == Some(plaintext)
  {
    var frame := GoFrame(c, dartKey, nonce, plaintext);
    FramesAgree(c, dartKey, nonce, plaintext, frame);
    FrameOpens(c, dartKey, nonce, plaintext);
    BothDecode(frame);
  }
}
