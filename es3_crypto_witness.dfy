/**
 * The laws `Es3Crypto.Lawful` states of the platform are consistent: here is one set of
 * (deliberately trivial) operations that satisfies all of them.  A byte-per-character style
 * text encoding, gzip as "ID bytes then the data", AES-CBC as PKCS#7 padding alone, and a
 * two-letters-per-byte stand-in for base64.
 */
module Es3CryptoWitness {
  import opened Wrappers
  import opened Es3Crypto

  function EncodeChar(ch: char): (r: Bytes)
    ensures |r| == 3 && r[0] >= 0x80 && r[1] >= 0x80 && r[2] >= 0x80
  {
    var n := ch as int;
    [0x80 + n / 16384, 0x80 + (n / 128) % 128, 0x80 + n % 128]
  }

  function DecodeChar(a: byte, b: byte, c: byte): char {
    var n := (a - 0x80) * 16384 + (b - 0x80) * 128 + (c - 0x80);
    if 0 <= n < 0xD800 || 0xE000 <= n < 0x11_0000 then n as char else '?'
  }

  function TextEncode(s: string): (r: Bytes)
    ensures forall i :: 0 <= i < |r| ==> r[i] >= 0x80
  {
    if |s| == 0 then [] else EncodeChar(s[0]) + TextEncode(s[1..])
  }

  function TextDecode(b: Bytes): string {
    if |b| < 3 then [] else [DecodeChar(b[0], b[1], b[2])] + TextDecode(b[3..])
  }

  lemma CharRoundTrip(ch: char)
    ensures var e := EncodeChar(ch); DecodeChar(e[0], e[1], e[2]) == ch
  {
    var n := ch as int;
    assert (n / 16384) * 16384 + ((n / 128) % 128) * 128 + n % 128 == n;
  }

  lemma {:induction false} TextRoundTrip(s: string)
    ensures TextDecode(TextEncode(s)) == s
  {
    if |s| > 0 {
      var e := EncodeChar(s[0]);
      var rest := TextEncode(s[1..]);
      TextRoundTrip(s[1..]);
      CharRoundTrip(s[0]);
      assert TextEncode(s) == e + rest;
      assert (e + rest)[..3] == e && (e + rest)[3..] == rest;
    }
  }

  function Gzip(d: Bytes): Bytes {
    [0x1F, 0x8B] + d
  }

  function Gunzip(b: Bytes): Option<Bytes> {
    if |b| >= 2 then Some(b[2..]) else None
  }

  function Pbkdf2(password: string, salt: Bytes, iterations: nat, length: nat): Bytes {
    seq(length, _ => 0)
  }

  function Pad(d: Bytes): (r: Bytes)
    ensures |r| == (|d| / BlockSize + 1) * BlockSize
  {
    var n := BlockSize - |d| % BlockSize;
    d + seq(n, _ => n)
  }

  function Encrypt(key: Bytes, iv: Bytes, d: Bytes): Bytes {
    Pad(d)
  }

  function Decrypt(key: Bytes, iv: Bytes, b: Bytes): Option<Bytes> {
    if |b| == 0 then None
    else
      var n := b[|b| - 1];
      if 1 <= n <= BlockSize && n <= |b| then Some(b[..|b| - n]) else None
  }

  function Base64Char(x: int): char
    requires 0 <= x < 16
  {
    ('A' as int + x) as char
  }

  function Base64Encode(b: Bytes): (r: string)
    ensures IsBase64Text(r)
  {
    if |b| == 0 then [] else [Base64Char(b[0] / 16), Base64Char(b[0] % 16)] + Base64Encode(b[1..])
  }

  function Base64Decode(s: string): Bytes {
    if |s| < 2 then []
    else
      var x := (s[0] as int - 'A' as int) * 16 + (s[1] as int - 'A' as int);
      [if 0 <= x < 256 then x else 0] + Base64Decode(s[2..])
  }

  lemma ByteRoundTrip(x: byte)
    ensures (Base64Char(x / 16) as int - 'A' as int) * 16 + (Base64Char(x % 16) as int - 'A' as int) == x
  {
  }

  lemma {:induction false} Base64RoundTrip(b: Bytes)
    ensures Base64Decode(Base64Encode(b)) == b
  {
    if |b| > 0 {
      Base64RoundTrip(b[1..]);
      ByteRoundTrip(b[0]);
      var e := Base64Encode(b);
      assert e[2..] == Base64Encode(b[1..]);
    }
  }

  function Witness(): Primitives {
    Primitives(TextEncode, TextDecode, Gzip, Gunzip, Pbkdf2, Encrypt, Decrypt, Base64Encode, Base64Decode)
  }

  lemma LawfulPrimitivesExist()
    ensures exists p :: Lawful(p)
  {
    var p := Witness();
    forall s ensures p.utf8Decode(p.utf8Encode(s)) == s {
      TextRoundTrip(s);
    }
    forall b ensures p.base64Decode(p.base64Encode(b)) == b {
      Base64RoundTrip(b);
    }
    forall d ensures p.gunzip(p.gzip(d)) == Some(d) {
      assert Gzip(d)[2..] == d;
    }
    forall key, iv, d ensures p.aesCbcDecrypt(key, iv, p.aesCbcEncrypt(key, iv, d)) == Some(d) {
      var padded := Pad(d);
      assert padded[..|d|] == d;
    }
    assert Lawful(p);
  }
}
