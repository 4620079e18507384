/**
 The hex `iv:tag:data` form around an abstract authenticated cipher. The one
 thing assumed of the cipher is its inverse law, a hypothesis wherever it is
 used (sections 7.1 and 7.2 of NIST SP 800-38D).
 */
module Crypto {
  import opened Wrappers

  newtype Byte = b: int | 0 <= b < 256

  type Bytes = seq<Byte>

  // ---- hexadecimal ----

  const HEX_DIGITS := "0123456789abcdef"

  function HexDigit(n: nat): char
    requires n < 16
  {
    HEX_DIGITS[n]
  }

  /** `buffer.toString('hex')`. */
  function ToHex(bytes: Bytes): string {
    if bytes == [] then ""
    else [HexDigit(bytes[0] as int / 16), HexDigit(bytes[0] as int % 16)] + ToHex(bytes[1..])
  }

  function DigitValue(c: char): Option<nat> {
    if '0' <= c <= '9' then Some((c - '0') as nat)
    else if 'a' <= c <= 'f' then Some((c - 'a') as nat + 10)
    else if 'A' <= c <= 'F' then Some((c - 'A') as nat + 10)
    else None
  }

  /** `Buffer.from(s, 'hex')`: pairs of digits, up to the first that is not one. */
  function FromHex(s: string): Bytes {
    if |s| < 2 || DigitValue(s[0]).None? || DigitValue(s[1]).None? then []
    else [(DigitValue(s[0]).value * 16 + DigitValue(s[1]).value) as Byte] + FromHex(s[2..])
  }

  lemma DigitRoundTrip(n: nat)
    requires n < 16
    ensures DigitValue(HexDigit(n)) == Some(n) && HexDigit(n) != ':'
  {
  }

  /** Decoding recovers every byte string from its hex form. */
  lemma {:induction false} FromHexOfToHex(bytes: Bytes)
    ensures FromHex(ToHex(bytes)) == bytes
  {
    if bytes != [] {
      var high, low := bytes[0] as int / 16, bytes[0] as int % 16;
      DigitRoundTrip(high);
      DigitRoundTrip(low);
      hide HexDigit, DigitValue;
      assert ToHex(bytes)[0] == HexDigit(high) && ToHex(bytes)[1] == HexDigit(low);
      assert ToHex(bytes)[2..] == ToHex(bytes[1..]);
      FromHexOfToHex(bytes[1..]);
    }
  }

  /** The two hex chunks a cipher yields join to the hex of the joined bytes. */
  lemma {:induction false} ToHexConcat(a: Bytes, b: Bytes)
    ensures ToHex(a + b) == ToHex(a) + ToHex(b)
  {
    if a == [] {
      assert a + b == b;
    } else {
      assert (a + b)[1..] == a[1..] + b;
      ToHexConcat(a[1..], b);
    }
  }

  predicate NoColon(s: string) { forall i | 0 <= i < |s| :: s[i] != ':' }

  lemma {:induction false} HexHasNoColon(bytes: Bytes)
    ensures NoColon(ToHex(bytes))
  {
    if bytes != [] {
      DigitRoundTrip(bytes[0] as int / 16);
      DigitRoundTrip(bytes[0] as int % 16);
      HexHasNoColon(bytes[1..]);
    }
  }

  // ---- split(':') ----

  function Split(s: string): (parts: seq<string>)
    ensures |parts| >= 1
  {
    if s == "" then [""]
    else
      var rest := Split(s[1..]);
      if s[0] == ':' then [""] + rest else [[s[0]] + rest[0]] + rest[1..]
  }

  lemma {:induction false} SplitNoColon(s: string)
    requires NoColon(s)
    ensures Split(s) == [s]
  {
    if s != "" {
      SplitNoColon(s[1..]);
      assert s == [s[0]] + s[1..];
    }
  }

  lemma {:induction false} SplitAtColon(a: string, b: string)
    requires NoColon(a)
    ensures Split(a + ":" + b) == [a] + Split(b)
  {
    var s := a + ":" + b;
    if a == "" {
      assert s[1..] == b;
    } else {
      assert s[1..] == a[1..] + ":" + b && s[0] == a[0];
      SplitAtColon(a[1..], b);
      assert a == [a[0]] + a[1..];
    }
  }

  // ---- the cipher ----

  /** AES-256-GCM under the service's key: the two ciphertext chunks and the tag
      of a text under an iv, and the authenticated opening. */
  datatype Cipher = Cipher(
    update: (Bytes, string) -> Bytes,
    final: (Bytes, string) -> Bytes,
    tag: (Bytes, string) -> Bytes,
    open: (Bytes, Bytes, Bytes) -> Option<string>
  )

  /** Opening what was sealed under an iv gives the text back. */
  ghost predicate Inverts(c: Cipher) {
    forall iv, text :: c.open(iv, c.tag(iv, text), c.update(iv, text) + c.final(iv, text)) == Some(text)
  }

  function Sealed(c: Cipher, iv: Bytes, text: string): string {
    ToHex(iv) + ":" + ToHex(c.tag(iv, text)) + ":" + ToHex(c.update(iv, text) + c.final(iv, text))
  }

  function Encrypted(c: Cipher, iv: Bytes, plaintext: string): string {
    if plaintext == "" then "" else Sealed(c, iv, plaintext)
  }

  function Decrypted(c: Cipher, ciphertext: string): Option<string> {
    if ciphertext == "" then Some("")
    else
      var parts := Split(ciphertext);
      if |parts| != 3 then None else c.open(FromHex(parts[0]), FromHex(parts[1]), FromHex(parts[2]))
  }

  class CryptoService {
    const cipher: Cipher

    constructor (cipher: Cipher)
      ensures this.cipher == cipher
    {
      this.cipher := cipher;
    }

    method Encrypt(plaintext: string, iv: Bytes) returns (r: string)
      ensures r == Encrypted(cipher, iv, plaintext)
    {
      if plaintext == "" { return ""; }
      var encrypted := ToHex(cipher.update(iv, plaintext));
      encrypted := encrypted + ToHex(cipher.final(iv, plaintext));
      ToHexConcat(cipher.update(iv, plaintext), cipher.final(iv, plaintext));
      var authTag := cipher.tag(iv, plaintext);
      r := ToHex(iv) + ":" + ToHex(authTag) + ":" + encrypted;
    }

    /** None is the "Decryption failed" error. */
    method Decrypt(ciphertext: string) returns (r: Option<string>)
      ensures r == Decrypted(cipher, ciphertext)
    {
      if ciphertext == "" { return Some(""); }
      var parts := Split(ciphertext);
      if |parts| != 3 { return None; }
      var iv, authTag := FromHex(parts[0]), FromHex(parts[1]);
      r := cipher.open(iv, authTag, FromHex(parts[2]));
    }
  }

  lemma SealedHasThreeParts(c: Cipher, iv: Bytes, text: string)
    ensures Split(Sealed(c, iv, text)) == [ToHex(iv), ToHex(c.tag(iv, text)), ToHex(c.update(iv, text) + c.final(iv, text))]
  {
    var a, b, d := ToHex(iv), ToHex(c.tag(iv, text)), ToHex(c.update(iv, text) + c.final(iv, text));
    HexHasNoColon(iv);
    HexHasNoColon(c.tag(iv, text));
    HexHasNoColon(c.update(iv, text) + c.final(iv, text));
    assert Sealed(c, iv, text) == a + ":" + (b + ":" + d);
    SplitAtColon(a, b + ":" + d);
    SplitAtColon(b, d);
    SplitNoColon(d);
  }

  /** Round trip, for every plaintext and iv; and only the empty text is stored
      as the empty string. */
  lemma DecryptOfEncrypt(c: Cipher, iv: Bytes, plaintext: string)
    requires Inverts(c)
    ensures Decrypted(c, Encrypted(c, iv, plaintext)) == Some(plaintext)
    ensures Encrypted(c, iv, plaintext) == "" <==> plaintext == ""
  {
    if plaintext != "" {
      SealedHasThreeParts(c, iv, plaintext);
      FromHexOfToHex(iv);
      FromHexOfToHex(c.tag(iv, plaintext));
      FromHexOfToHex(c.update(iv, plaintext) + c.final(iv, plaintext));
    }
  }

  // ---- the format in plain terms ----

  /** A byte is two lower-case hex digits, the high one first. */
  lemma HexLaw(b: Byte)
    ensures ToHex([b]) == ["0123456789abcdef"[b as int / 16], "0123456789abcdef"[b as int % 16]]
  {
    assert ToHex([]) == "";
  }

  predicate IsHex(c: char) { '0' <= c <= '9' || 'a' <= c <= 'f' || 'A' <= c <= 'F' }

  function Upper(c: char): char { if 'a' <= c <= 'f' then c - 'a' + 'A' else c }

  /** Decoding reads digits of either case, and stops at the first pair that is not
      two hex digits. */
  lemma {:induction false} FromHexLaw(s: string)
    ensures |s| < 2 || !IsHex(s[0]) || !IsHex(s[1]) ==> FromHex(s) == []
    ensures |s| >= 2 && IsHex(s[0]) && IsHex(s[1]) ==>
              FromHex(s) == FromHex([Upper(s[0]), Upper(s[1])]) + FromHex(s[2..])
  {
    if |s| >= 2 {
      var t := [Upper(s[0]), Upper(s[1])];
      assert DigitValue(t[0]) == DigitValue(s[0]) && DigitValue(t[1]) == DigitValue(s[1]);
      assert t[2..] == "" && FromHex("") == [];
      hide DigitValue, Upper;
    }
  }

  function Colons(s: string): nat { if s == "" then 0 else (if s[0] == ':' then 1 else 0) + Colons(s[1..]) }

  lemma {:induction false} SplitCounts(s: string)
    ensures |Split(s)| == Colons(s) + 1
  {
    if s != "" { SplitCounts(s[1..]); }
  }

  /** Decrypting leaves the empty text empty, refuses any other text without exactly
      two colons, and opens the three parts between them as iv, tag and data. */
  lemma {:induction false} DecryptLaw(c: Cipher, iv: string, tag: string, data: string, s: string)
    requires NoColon(iv) && NoColon(tag) && NoColon(data)
    ensures Decrypted(c, "") == Some("")
    ensures s != "" && Colons(s) != 2 ==> Decrypted(c, s) == None
    ensures Decrypted(c, iv + ":" + tag + ":" + data) == c.open(FromHex(iv), FromHex(tag), FromHex(data))
  {
    SplitCounts(s);
    assert iv + ":" + tag + ":" + data == iv + ":" + (tag + ":" + data);
    SplitAtColon(iv, tag + ":" + data);
    SplitAtColon(tag, data);
    SplitNoColon(data);
    hide Split, FromHex;
  }
}
