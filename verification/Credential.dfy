/** The credential envelope: its binary layout and the round trip through an authenticated cipher. */
module Credential {
  import opened Wrappers
  import opened Archive

  datatype Error = InvalidKeyGeneration | MalformedEnvelope | KeyGeneration | Binding | Authentication

  // ----- Big-endian lengths ------------------------------------------------------------------

  function ToBe(n: nat): (b: bytes)
    requires n < U32_LIMIT
    ensures |b| == 4
  {
    [n / 256 / 256 / 256, n / 256 / 256 % 256, n / 256 % 256, n % 256]
  }

  function FromBe(b: bytes): (n: nat)
    requires |b| == 4
    ensures n < U32_LIMIT
  {
    ((b[0] as int * 256 + b[1] as int) * 256 + b[2] as int) * 256 + b[3] as int
  }

  lemma ReadsBack(n: nat)
    requires n < U32_LIMIT
    ensures FromBe(ToBe(n)) == n
  {
    var high := n / 256;
    var top := high / 256;
    assert n == high * 256 + n % 256 && high == top * 256 + high % 256 && top == top / 256 * 256 + top % 256;
  }

  lemma WritesBack(b: bytes)
    requires |b| == 4
    ensures ToBe(FromBe(b)) == b
  {
    var n := FromBe(b);
    var high: int := (b[0] as int * 256 + b[1] as int) * 256 + b[2] as int;
    var top: int := b[0] as int * 256 + b[1] as int;
    assert n / 256 == high && n % 256 == b[3] as int;
    assert high / 256 == top && high % 256 == b[2] as int;
    assert top / 256 == b[0] as int && top % 256 == b[1] as int;
  }

  /** The most significant byte comes first: numbers compare like their bytes from the left. */
  lemma OrderIsLexicographic(a: bytes, b: bytes)
    requires |a| == 4 && |b| == 4
    ensures FromBe(a) < FromBe(b) <==> exists i :: 0 <= i < 4 && a[i] < b[i] && forall k :: 0 <= k < i ==> a[k] == b[k]
  {
    if a[0] != b[0] {
    } else if a[1] != b[1] {
    } else if a[2] != b[2] {
    } else {
    }
  }

  // ----- The two tokens ----------------------------------------------------------------------

  function EncodePart(token: bytes): bytes
    requires |token| < U32_LIMIT
  {
    ToBe(|token|) + token
  }

  function EncodeCredential(access: bytes, refresh: bytes): Result<bytes, Error> {
    if |access| >= U32_LIMIT || |refresh| >= U32_LIMIT then Failure(MalformedEnvelope)
    else Success(EncodePart(access) + EncodePart(refresh))
  }

  function DecodePart(input: bytes): (part: Result<(bytes, bytes), Error>)
    ensures part.Success? ==> |part.value.0| < U32_LIMIT && EncodePart(part.value.0) + part.value.1 == input
  {
    if |input| < 4 then Failure(MalformedEnvelope)
    else
      var length, rest := FromBe(input[..4]), input[4..];
      if |rest| < length then Failure(MalformedEnvelope)
      else
        WritesBack(input[..4]);
        assert input == input[..4] + rest[..length] + rest[length..];
        Success((rest[..length], rest[length..]))
  }

  /** Tokens are text: `utf8` says which byte strings are. */
  function DecodeCredential(plaintext: bytes, utf8: bytes -> bool): Result<(bytes, bytes), Error> {
    match DecodePart(plaintext)
    case Failure(error) => Failure(error)
    case Success((access, remainder)) =>
      match DecodePart(remainder)
      case Failure(error) => Failure(error)
      case Success((refresh, trailing)) =>
        if trailing != [] || !utf8(access) || !utf8(refresh) then Failure(MalformedEnvelope)
        else Success((access, refresh))
  }

  lemma PartRoundTrip(token: bytes, tail: bytes)
    requires |token| < U32_LIMIT
    ensures DecodePart(EncodePart(token) + tail) == Success((token, tail))
  {
    var input := EncodePart(token) + tail;
    assert input[..4] == ToBe(|token|);
    ReadsBack(|token|);
    assert input[4..] == token + tail;
  }

  /** Two tokens come back as they were. */
  lemma DecodeEncode(access: bytes, refresh: bytes, utf8: bytes -> bool)
    requires |access| < U32_LIMIT && |refresh| < U32_LIMIT && utf8(access) && utf8(refresh)
    ensures DecodeCredential(EncodeCredential(access, refresh).value, utf8) == Success((access, refresh))
  {
    PartRoundTrip(access, EncodePart(refresh));
    PartRoundTrip(refresh, []);
    assert EncodePart(refresh) + [] == EncodePart(refresh);
  }

  /** Every accepted plaintext is the encoding of its two tokens. */
  lemma EncodeDecode(plaintext: bytes, utf8: bytes -> bool)
    requires DecodeCredential(plaintext, utf8).Success?
    ensures var (access, refresh) := DecodeCredential(plaintext, utf8).value;
            EncodeCredential(access, refresh) == Success(plaintext) && utf8(access) && utf8(refresh)
  {
    var (access, remainder) := DecodePart(plaintext).value;
    var (refresh, trailing) := DecodePart(remainder).value;
    assert remainder == EncodePart(refresh) + trailing == EncodePart(refresh);
  }

  /** The buffer the service fills, part by part. */
  method WriteCredential(access: bytes, refresh: bytes) returns (plaintext: Result<bytes, Error>)
    ensures plaintext == EncodeCredential(access, refresh)
    ensures plaintext.Failure? <==> |access| >= U32_LIMIT || |refresh| >= U32_LIMIT
    ensures plaintext.Success? ==>
              plaintext.value == ToBe(|access|) + access + ToBe(|refresh|) + refresh
  {
    if |access| >= U32_LIMIT || |refresh| >= U32_LIMIT {
      return Failure(MalformedEnvelope);
    }
    var buffer: bytes := [];
    buffer := buffer + ToBe(|access|);
    buffer := buffer + access;
    buffer := buffer + ToBe(|refresh|);
    buffer := buffer + refresh;
    assert buffer == EncodePart(access) + EncodePart(refresh);
    assert buffer == ToBe(|access|) + access + ToBe(|refresh|) + refresh;
    return Success(buffer);
  }

  // ----- The envelope ------------------------------------------------------------------------

  const FORMAT_MARKER: bytes := ['t' as int, 1]
  const OWNER_BINDING_LEN := 32
  const NONCE_LEN := 12
  const TAG_LEN := 16
  const HEADER_LEN := 2 + 4 + OWNER_BINDING_LEN + NONCE_LEN

  datatype Parsed = Parsed(generation: nat, binding: bytes, nonce: bytes, ciphertext: bytes) {
    predicate Valid() {
      generation < U32_LIMIT && |binding| == OWNER_BINDING_LEN && |nonce| == NONCE_LEN && TAG_LEN <= |ciphertext|
    }

    function Render(): bytes
      requires Valid()
    {
      FORMAT_MARKER + ToBe(generation) + binding + nonce + ciphertext
    }
  }

  function ParseEnvelope(envelope: bytes): Result<Parsed, Error> {
    if |envelope| < HEADER_LEN + TAG_LEN || envelope[..2] != FORMAT_MARKER then Failure(MalformedEnvelope)
    else Success(Parsed(FromBe(envelope[2..6]), envelope[6..38], envelope[38..50], envelope[50..]))
  }

  lemma ParseRender(parsed: Parsed)
    requires parsed.Valid()
    ensures ParseEnvelope(parsed.Render()) == Success(parsed)
  {
    var envelope := parsed.Render();
    assert envelope[..2] == FORMAT_MARKER && envelope[2..6] == ToBe(parsed.generation);
    assert envelope[6..38] == parsed.binding && envelope[38..50] == parsed.nonce && envelope[50..] == parsed.ciphertext;
    ReadsBack(parsed.generation);
  }

  lemma RenderParse(envelope: bytes)
    requires ParseEnvelope(envelope).Success?
    ensures ParseEnvelope(envelope).value.Valid() && ParseEnvelope(envelope).value.Render() == envelope
  {
    WritesBack(envelope[2..6]);
    assert envelope == envelope[..2] + envelope[2..6] + envelope[6..38] + envelope[38..50] + envelope[50..];
  }

  // ----- Sealing and opening -----------------------------------------------------------------

  /** The primitives the service takes from its libraries: key, nonce, text and associated data in that order. */
  datatype Suite = Suite(
    encrypt: (bytes, bytes, bytes, bytes) -> bytes, decrypt: (bytes, bytes, bytes, bytes) -> Option<bytes>,
    digest: bytes -> bytes)

  /** Decryption inverts encryption, a ciphertext carries its tag, and a digest has its length. */
  ghost predicate Lawful(suite: Suite) {
    && (forall key, nonce, text, aad ::
          suite.decrypt(key, nonce, suite.encrypt(key, nonce, text, aad), aad) == Some(text) &&
          |suite.encrypt(key, nonce, text, aad)| == |text| + TAG_LEN)
    && (forall text :: |suite.digest(text)| == OWNER_BINDING_LEN)
  }

  datatype Cipher = Cipher(key: bytes, generation: nat) {
    predicate Valid() {
      0 < generation < U32_LIMIT
    }
  }

  /** `CredentialCipher::new` */
  function NewCipher(key: bytes, generation: nat): (cipher: Result<Cipher, Error>)
    requires generation < U32_LIMIT
    ensures cipher.Success? ==> cipher.value.Valid()
  {
    if generation == 0 then Failure(InvalidKeyGeneration) else Success(Cipher(key, generation))
  }

  function AssociatedData(owner: bytes, purpose: bytes): bytes {
    purpose + owner
  }

  /** The label followed by the owner: for one label, different data for different owners. */
  lemma OwnerIsBound(owner: bytes, another: bytes, purpose: bytes)
    ensures AssociatedData(owner, purpose) == purpose + owner
    ensures AssociatedData(owner, purpose) == AssociatedData(another, purpose) <==> owner == another
  {
    assert (purpose + owner)[|purpose|..] == owner && (purpose + another)[|purpose|..] == another;
  }

  /** The envelope the service fills, field by field, around the encrypted tokens. */
  method Seal(cipher: Cipher, suite: Suite, purpose: bytes, owner: bytes, nonce: bytes, access: bytes, refresh: bytes)
    returns (envelope: Result<bytes, Error>)
    requires cipher.Valid() && Lawful(suite) && |nonce| == NONCE_LEN
    ensures envelope.Failure? <==> |access| >= U32_LIMIT || |refresh| >= U32_LIMIT
    ensures envelope.Success? ==>
              envelope.value == Sealed(cipher, suite, purpose, owner, nonce,
                EncodeCredential(access, refresh).value).Render()
    ensures envelope.Success? ==>
              var bytes := envelope.value;
              && |bytes| >= 66 && bytes[..2] == ['t' as int, 1] && FromBe(bytes[2..6]) == cipher.generation
              && bytes[6..38] == suite.digest(purpose + owner) && bytes[38..50] == nonce
              && bytes[50..] == suite.encrypt(cipher.key, nonce,
                   ToBe(|access|) + access + ToBe(|refresh|) + refresh, purpose + owner)
  {
    var plaintext := WriteCredential(access, refresh);
    if plaintext.Failure? {
      return Failure(MalformedEnvelope);
    }
    var aad := AssociatedData(owner, purpose);
    var ciphertext := suite.encrypt(cipher.key, nonce, plaintext.value, aad);
    var buffer := FORMAT_MARKER;
    buffer := buffer + ToBe(cipher.generation);
    buffer := buffer + suite.digest(aad);
    buffer := buffer + nonce;
    buffer := buffer + ciphertext;
    ReadsBack(cipher.generation);
    assert buffer[..2] == FORMAT_MARKER && buffer[2..6] == ToBe(cipher.generation);
    assert buffer[6..38] == suite.digest(aad) && buffer[38..50] == nonce && buffer[50..] == ciphertext;
    return Success(buffer);
  }

  function Sealed(
      cipher: Cipher, suite: Suite, purpose: bytes, owner: bytes, nonce: bytes, plaintext: bytes): (parsed: Parsed)
    ensures cipher.Valid() && Lawful(suite) && |nonce| == NONCE_LEN ==> parsed.Valid()
  {
    var aad := AssociatedData(owner, purpose);
    Parsed(cipher.generation, suite.digest(aad), nonce, suite.encrypt(cipher.key, nonce, plaintext, aad))
  }

  function Open(
      cipher: Cipher, suite: Suite, purpose: bytes, owner: bytes, envelope: bytes, utf8: bytes -> bool
    ): Result<(bytes, bytes), Error>
  {
    match ParseEnvelope(envelope)
    case Failure(error) => Failure(error)
    case Success(parsed) =>
      var aad := AssociatedData(owner, purpose);
      if parsed.generation != cipher.generation then Failure(KeyGeneration)
      else if parsed.binding != suite.digest(aad) then Failure(Binding)
      else
        var plaintext := suite.decrypt(cipher.key, parsed.nonce, parsed.ciphertext, aad);
        if plaintext.None? then Failure(Authentication) else DecodeCredential(plaintext.value, utf8)
  }

  /** What was sealed for an owner under a key generation opens for that owner under it, with both tokens. */
  lemma OpenAfterSeal(
      cipher: Cipher, suite: Suite, purpose: bytes, owner: bytes, nonce: bytes, access: bytes, refresh: bytes,
      utf8: bytes -> bool)
    requires cipher.Valid() && Lawful(suite) && |nonce| == NONCE_LEN
    requires |access| < U32_LIMIT && |refresh| < U32_LIMIT && utf8(access) && utf8(refresh)
    ensures var plaintext := EncodeCredential(access, refresh).value;
            Open(cipher, suite, purpose, owner, Sealed(cipher, suite, purpose, owner, nonce, plaintext).Render(),
              utf8) ==
            Success((access, refresh))
  {
    var parsed := Sealed(cipher, suite, purpose, owner, nonce, EncodeCredential(access, refresh).value);
    ParseRender(parsed);
    DecodeEncode(access, refresh, utf8);
  }

  /**
   Another key generation is refused before anything is decrypted, and under the same generation
   another owner is refused for its binding exactly when the two owners' digests differ.
   */
  lemma OpenRefusesOthers(
      cipher: Cipher, other: Cipher, suite: Suite, purpose: bytes, owner: bytes, another: bytes, nonce: bytes,
      plaintext: bytes, utf8: bytes -> bool)
    requires cipher.Valid() && other.Valid() && Lawful(suite) && |nonce| == NONCE_LEN
    ensures var result := Open(other, suite, purpose, another,
                               Sealed(cipher, suite, purpose, owner, nonce, plaintext).Render(), utf8);
            && (result == Failure(KeyGeneration) <==> other.generation != cipher.generation)
            && (result == Failure(Binding) <==>
                  other.generation == cipher.generation &&
                  suite.digest(purpose + another) != suite.digest(purpose + owner))
            && (result == Failure(Binding) ==> another != owner)
  {
    ParseRender(Sealed(cipher, suite, purpose, owner, nonce, plaintext));
  }
}
