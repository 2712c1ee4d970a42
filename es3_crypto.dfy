/**
 * The ES3 container codec: `IV(16 bytes) ++ AES-128-CBC(payload)`, the key derived by
 * PBKDF2-HMAC-SHA1 (section 5.2 of RFC 8018) with the IV as salt, 100 iterations and a
 * 16-byte key, and a payload that is either the UTF-8 text or its gzip stream, told apart on
 * decode by the gzip ID bytes 0x1F 0x8B (section 2.3.1 of RFC 1952).
 *
 * The cipher, the key derivation, gzip, base64 and UTF-8 belong to the platform and are not
 * modelled: they are the fields of `Primitives`, and `Lawful` states the facts about them the
 * framing relies on.  What is modelled and proved is the framing around them.
 */
module Es3Crypto {
  import opened Wrappers
  import JsStrings

  type byte = x: int | 0 <= x < 256
  type Bytes = seq<byte>

  const IvLength: nat := 16
  const KeyLength: nat := 16
  const Pbkdf2Iterations: nat := 100
  /** The AES block size (section 6.2 of NIST SP 800-38A). */
  const BlockSize: nat := 16
  const DataUriMarker: string := "base64,"

  /**
   * The platform operations the codec calls: `Buffer.from(s, 'utf8')`, `buf.toString('utf8')`,
   * `zlib.gzip`, `zlib.gunzip` (`None` when it rejects the stream),
   * `crypto.pbkdf2Sync(password, salt, iterations, keyLength, 'sha1')`, a cipher's
   * `update` + `final` for `aes-128-cbc` (decryption yields `None` when `final` throws on bad
   * padding), and base64 in both directions (the encoding direction is what a browser's
   * `FileReader.readAsDataURL` applies to an uploaded file).
   */
  datatype Primitives = Primitives(
    utf8Encode: string -> Bytes,
    utf8Decode: Bytes -> string,
    gzip: Bytes -> Bytes,
    gunzip: Bytes -> Option<Bytes>,
    pbkdf2Sha1: (string, Bytes, nat, nat) -> Bytes,
    aesCbcEncrypt: (Bytes, Bytes, Bytes) -> Bytes,
    aesCbcDecrypt: (Bytes, Bytes, Bytes) -> Option<Bytes>,
    base64Encode: Bytes -> string,
    base64Decode: string -> Bytes)

  /** The gzip ID bytes at the start: `b.subarray(0, 2).equals(Buffer.from([0x1F, 0x8B]))`. */
  predicate HasGzipMagic(b: Bytes) {
    |b| >= 2 && b[0] == 0x1F && b[1] == 0x8B
  }

  /** A shape every UTF-8 byte string has: a single-byte (ASCII) character is never followed
      by a continuation byte (0x80 to 0xBF). */
  ghost predicate Utf8Shaped(b: Bytes) {
    forall i :: 0 <= i < |b| - 1 && b[i] < 0x80 ==> !(0x80 <= b[i + 1] < 0xC0)
  }

  predicate IsBase64Char(ch: char) {
    ('A' <= ch <= 'Z') || ('a' <= ch <= 'z') || ('0' <= ch <= '9') || ch == '+' || ch == '/' || ch == '='
  }

  /** Text drawn from the base64 alphabet of section 4 of RFC 4648. */
  ghost predicate IsBase64Text(s: string) {
    forall i :: 0 <= i < |s| ==> IsBase64Char(s[i])
  }

  /**
   * What the framing assumes of the platform: UTF-8 and base64 decoding undo their encodings,
   * base64 text uses only its alphabet, UTF-8 output has the UTF-8 shape, gunzip undoes gzip
   * and every gzip stream starts with the ID bytes, PBKDF2 yields as many bytes as asked, and
   * AES-CBC decryption under the same 16-byte key and IV undoes encryption, whose PKCS#7
   * padding (section 6.3 of RFC 5652) always adds 1 to 16 bytes up to a block boundary.
   */
  ghost predicate Lawful(p: Primitives) {
    && (forall s :: p.utf8Decode(p.utf8Encode(s)) == s)
    && (forall s :: Utf8Shaped(p.utf8Encode(s)))
    && (forall b :: p.base64Decode(p.base64Encode(b)) == b)
    && (forall b :: IsBase64Text(p.base64Encode(b)))
    && (forall d :: p.gunzip(p.gzip(d)) == Some(d))
    && (forall d :: HasGzipMagic(p.gzip(d)))
    && (forall password, salt, iterations, length ::
          |p.pbkdf2Sha1(password, salt, iterations, length)| == length)
    && (forall key, iv, d :: |key| == KeyLength && |iv| == IvLength ==>
          p.aesCbcDecrypt(key, iv, p.aesCbcEncrypt(key, iv, d)) == Some(d))
    && (forall key, iv, d :: |key| == KeyLength && |iv| == IvLength ==>
          |p.aesCbcEncrypt(key, iv, d)| == (|d| / BlockSize + 1) * BlockSize)
  }

  // ---------------------------------------------------------------- encoding

  /** `crypto.pbkdf2Sync(password, salt, 100, 16, 'sha1')`, the same call on both paths. */
  function DeriveKey(p: Primitives, password: string, salt: Bytes): Bytes {
    p.pbkdf2Sha1(password, salt, Pbkdf2Iterations, KeyLength)
  }

  /** The bytes that get encrypted: the gzip stream of `data` when asked for, else `data`. */
  function Payload(p: Primitives, data: Bytes, shouldGzip: bool): Bytes {
    if shouldGzip then p.gzip(data) else data
  }

  /**
   * `encryptEs3FromBuffer`: the container for `data`.  The IV, which the source draws from
   * `crypto.randomBytes(16)`, is a parameter.
   */
  function EncryptEs3FromBuffer(p: Primitives, iv: Bytes, data: Bytes, password: string,
                                shouldGzip: bool := false): (r: Bytes)
    requires |iv| == IvLength
    ensures |r| >= IvLength && r[..IvLength] == iv
    ensures r[IvLength..] == p.aesCbcEncrypt(DeriveKey(p, password, iv), iv, Payload(p, data, shouldGzip))
  {
    var key := DeriveKey(p, password, iv);
    var encryptedData := p.aesCbcEncrypt(key, iv, Payload(p, data, shouldGzip));
    iv + encryptedData
  }

  /** `encryptEs3`: the container for the UTF-8 bytes of `data`. */
  function EncryptEs3(p: Primitives, iv: Bytes, data: string, password: string,
                      shouldGzip: bool := false): Bytes
    requires |iv| == IvLength
  {
    EncryptEs3FromBuffer(p, iv, p.utf8Encode(data), password, shouldGzip)
  }

  /** A container is one IV and then whole cipher blocks, at least one of them. */
  lemma ContainerLength(p: Primitives, iv: Bytes, data: Bytes, password: string, shouldGzip: bool)
    requires Lawful(p) && |iv| == IvLength
    ensures var r := EncryptEs3FromBuffer(p, iv, data, password, shouldGzip);
      |r| == IvLength + (|Payload(p, data, shouldGzip)| / BlockSize + 1) * BlockSize &&
      |r| >= IvLength + BlockSize && (|r| - IvLength) % BlockSize == 0
  {
    var key := DeriveKey(p, password, iv);
    assert |key| == KeyLength;
    var blocks := |Payload(p, data, shouldGzip)| / BlockSize + 1;
    assert |EncryptEs3FromBuffer(p, iv, data, password, shouldGzip)| == IvLength + blocks * BlockSize;
    WholeBlocks(blocks);
  }

  /** A positive number of whole blocks is at least one block and leaves no remainder. */
  lemma WholeBlocks(blocks: nat)
    requires blocks >= 1
    ensures blocks * BlockSize >= BlockSize && (blocks * BlockSize) % BlockSize == 0
  {
  }

  // ---------------------------------------------------------------- decoding

  /** What decoding can throw. */
  datatype DecryptError =
    | InvalidIv     // `createDecipheriv` rejects an IV shorter than 16 bytes
    | BadDecrypt    // `decipher.final()` rejects the padding (wrong password, damaged data)
    | GunzipFailed  // the ID bytes are there but `gunzip` rejects the stream

  /** The text handed to the base64 decoder: what follows the first `base64,` of a data URI
      (up to a second one, as `split('base64,')[1]` does), or the whole input. */
  function StripDataUriPrefix(base64Data: string): (r: string)
    ensures !JsStrings.Includes(base64Data, DataUriMarker) ==> r == base64Data
    ensures JsStrings.Includes(base64Data, DataUriMarker) ==>
      exists i: nat :: JsStrings.FirstSegmentAt(base64Data, DataUriMarker, i, r)
  {
    match JsStrings.SegmentAfterFirst(base64Data, DataUriMarker)
    case Some(segment) => segment
    case None => base64Data
  }

  /** `subarray(0, 16)` and `subarray(16)`: both clamp to the buffer. */
  function SplitIv(encrypted: Bytes): (r: (Bytes, Bytes))
    ensures r.0 + r.1 == encrypted
    ensures |r.0| == if |encrypted| < IvLength then |encrypted| else IvLength
  {
    if |encrypted| < IvLength then (encrypted, []) else (encrypted[..IvLength], encrypted[IvLength..])
  }

  /** Gunzip exactly when the decrypted bytes start with the gzip ID bytes. */
  function AutoDecompress(p: Primitives, plain: Bytes): (r: Result<Bytes, DecryptError>)
    ensures !HasGzipMagic(plain) ==> r == Success(plain)
    ensures HasGzipMagic(plain) ==> (r.Success? <==> p.gunzip(plain).Some?)
    ensures HasGzipMagic(plain) && r.Success? ==> p.gunzip(plain) == Some(r.value)
    ensures r.Failure? ==> r.error == GunzipFailed
  {
    if HasGzipMagic(plain) then
      match p.gunzip(plain)
      case Some(unzipped) => Success(unzipped)
      case None => Failure(GunzipFailed)
    else
      Success(plain)
  }

  /** The bytes `decryptEs3` turns into text, from the decoded container bytes. */
  function DecryptBuffer(p: Primitives, encrypted: Bytes, password: string): (r: Result<Bytes, DecryptError>)
    ensures |encrypted| < IvLength ==> r == Failure(InvalidIv)
    ensures |encrypted| >= IvLength && r.Success? ==>
      var plain := p.aesCbcDecrypt(DeriveKey(p, password, encrypted[..IvLength]), encrypted[..IvLength], encrypted[IvLength..]);
      plain.Some? && AutoDecompress(p, plain.value) == r
  {
    var (iv, cipherText) := SplitIv(encrypted);
    var key := DeriveKey(p, password, iv);
    if |iv| != IvLength then
      Failure(InvalidIv)
    else
      match p.aesCbcDecrypt(key, iv, cipherText)
      case None => Failure(BadDecrypt)
      case Some(decryptedData) => AutoDecompress(p, decryptedData)
  }

  /** `decryptEs3` with its default `utf8` output encoding. */
  function DecryptEs3(p: Primitives, base64Data: string, password: string): (r: Result<string, DecryptError>)
    ensures |p.base64Decode(StripDataUriPrefix(base64Data))| < IvLength ==> r == Failure(InvalidIv)
  {
    var encryptedData := p.base64Decode(StripDataUriPrefix(base64Data));
    var payload :- DecryptBuffer(p, encryptedData, password);
    Success(p.utf8Decode(payload))
  }

  // ---------------------------------------------------------------- round trips

  /** Text in the UTF-8 shape never starts with the gzip ID bytes, so it is never gunzipped. */
  lemma Utf8NeverLooksGzipped(b: Bytes)
    requires Utf8Shaped(b)
    ensures !HasGzipMagic(b)
  {
    if |b| >= 2 && b[0] == 0x1F {
      assert b[0] < 0x80;
    }
  }

  /** Base64 text holds no `,`, so no `base64,` marker either. */
  lemma NoMarkerInBase64Text(s: string)
    requires IsBase64Text(s)
    ensures !JsStrings.Includes(s, DataUriMarker)
  {
    var first := JsStrings.IndexOf(s, DataUriMarker, 0);
    if first.Some? {
      JsStrings.OccurrenceChar(s, DataUriMarker, first.value, 6);
      assert false;
    }
  }

  /** Decoding the container bytes gives back the bytes that were framed, whenever they are
      gzipped or do not themselves start with the gzip ID bytes. */
  lemma DecryptBufferRoundTrip(p: Primitives, iv: Bytes, data: Bytes, password: string, shouldGzip: bool)
    requires Lawful(p) && |iv| == IvLength
    requires shouldGzip || !HasGzipMagic(data)
    ensures DecryptBuffer(p, EncryptEs3FromBuffer(p, iv, data, password, shouldGzip), password) == Success(data)
  {
    var r := EncryptEs3FromBuffer(p, iv, data, password, shouldGzip);
    var key := DeriveKey(p, password, iv);
    assert |key| == KeyLength;
    var payload := Payload(p, data, shouldGzip);
    assert SplitIv(r) == (iv, r[IvLength..]);
    assert p.aesCbcDecrypt(key, iv, r[IvLength..]) == Some(payload);
    if shouldGzip {
      assert HasGzipMagic(payload) && p.gunzip(payload) == Some(data);
    }
  }

  /** `decryptEs3(base64(encryptEs3(s, password, z)), password) == s`, for both values of z. */
  lemma {:induction false} Es3RoundTrip(p: Primitives, iv: Bytes, s: string, password: string, shouldGzip: bool)
    requires Lawful(p) && |iv| == IvLength
    ensures DecryptEs3(p, p.base64Encode(EncryptEs3(p, iv, s, password, shouldGzip)), password) == Success(s)
  {
    var data := p.utf8Encode(s);
    Utf8NeverLooksGzipped(data);
    var container := EncryptEs3(p, iv, s, password, shouldGzip);
    var text := p.base64Encode(container);
    NoMarkerInBase64Text(text);
    assert StripDataUriPrefix(text) == text;
    DecryptBufferRoundTrip(p, iv, data, password, shouldGzip);
  }

  /** The same holds for the data URI a browser's file reader produces,
      `data:<media type>;base64,<base64 text>`. */
  lemma {:induction false} Es3DataUriRoundTrip(p: Primitives, iv: Bytes, s: string, password: string,
                                              shouldGzip: bool, mediaType: string)
    requires Lawful(p) && |iv| == IvLength
    requires ',' !in mediaType
    ensures var text := p.base64Encode(EncryptEs3(p, iv, s, password, shouldGzip));
      DecryptEs3(p, "data:" + mediaType + ";" + DataUriMarker + text, password) == Success(s)
  {
    var data := p.utf8Encode(s);
    Utf8NeverLooksGzipped(data);
    var text := p.base64Encode(EncryptEs3(p, iv, s, password, shouldGzip));
    var pre := "data:" + mediaType + ";";
    assert ',' !in pre;
    assert ',' !in text;
    assert DataUriMarker[..6] == "base64";
    JsStrings.SegmentAfterOnlyOccurrence(pre, DataUriMarker, text);
    assert "data:" + mediaType + ";" + DataUriMarker + text == pre + DataUriMarker + text;
    DecryptBufferRoundTrip(p, iv, data, password, shouldGzip);
  }

  /** Neither the IV nor the choice to compress shows in the decoded text. */
  lemma DecodeIgnoresIvAndCompression(p: Primitives, iv1: Bytes, iv2: Bytes, s: string, password: string,
                                      gzip1: bool, gzip2: bool)
    requires Lawful(p) && |iv1| == IvLength && |iv2| == IvLength
    ensures DecryptEs3(p, p.base64Encode(EncryptEs3(p, iv1, s, password, gzip1)), password)
         == DecryptEs3(p, p.base64Encode(EncryptEs3(p, iv2, s, password, gzip2)), password)
  {
    Es3RoundTrip(p, iv1, s, password, gzip1);
    Es3RoundTrip(p, iv2, s, password, gzip2);
  }
}
